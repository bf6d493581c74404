/** Libraries mounted to the active database: which of them a calculation
    needs, whether their license sessions are valid, when a reader can be
    created for one, and how a library URL is encoded before download. */
module Libraries {
  import opened Common
  import opened JavaText

  /** A library of the workspace library folder. Libraries are identified by
      their folder name, which is unique within that folder. */
  datatype LibInfo = LibInfo(hasMatrices: bool, dependencies: seq<string>, licensed: bool)

  type LibDir = map<string, LibInfo>

  datatype Library = Library(name: string, info: LibInfo)

  /** The active database, with the ids of the libraries mounted to it. */
  datatype Database = Database(libraries: seq<string>)

  /** The names that the library folder can resolve, in their order. */
  function Present(dir: LibDir, names: seq<string>): (r: seq<string>)
    ensures forall n :: n in r ==> n in dir
  {
    if names == [] then []
    else (if names[0] in dir then [names[0]] else []) + Present(dir, names[1..])
  }

  lemma {:induction false} PresentMember(dir: LibDir, names: seq<string>, n: string)
    ensures n in Present(dir, names) <==> n in names && n in dir
  {
    if names != [] {
      PresentMember(dir, names[1..], n);
      assert names == [names[0]] + names[1..];
    }
  }

  /** Library.getDirectDependencies: the declared dependencies that exist. */
  function Deps(dir: LibDir, name: string): (r: seq<string>)
    ensures forall n :: n in r ==> n in dir
  {
    if name in dir then Present(dir, dir[name].dependencies) else []
  }

  /** Library a declares library b as a direct dependency. */
  ghost predicate DependsOn(dir: LibDir, a: string, b: string) {
    b in Deps(dir, a)
  }

  /** p is a chain of direct dependencies that starts at a mounted library. */
  ghost predicate IsChain(dir: LibDir, roots: seq<string>, p: seq<string>) {
    && |p| > 0 && p[0] in roots && p[0] in dir
    && forall i :: 0 <= i < |p| - 1 ==> DependsOn(dir, p[i], p[i + 1])
  }

  ghost predicate Reachable(dir: LibDir, roots: seq<string>, n: string) {
    exists p :: IsChain(dir, roots, p) && p[|p| - 1] == n
  }

  /** The libraries a calculation needs: those with matrices among the mounted
      ones and everything they depend on, directly or not. */
  ghost function CalcLibraries(dir: LibDir, roots: seq<string>): set<string> {
    set n | n in dir && Reachable(dir, roots, n) && dir[n].hasMatrices
  }

  lemma ReachStep(dir: LibDir, roots: seq<string>, n: string, d: string)
    requires Reachable(dir, roots, n) && d in Deps(dir, n)
    ensures Reachable(dir, roots, d)
  {
    var p :| IsChain(dir, roots, p) && p[|p| - 1] == n;
    var q := p + [d];
    forall i | 0 <= i < |q| - 1 ensures DependsOn(dir, q[i], q[i + 1]) {
      if i < |p| - 1 {
        assert q[i] == p[i] && q[i + 1] == p[i + 1];
      } else {
        assert q[i] == n && q[i + 1] == d;
      }
    }
    assert IsChain(dir, roots, q);
  }

  /** A set that holds the mounted libraries and is closed under dependencies
      holds every reachable library. */
  lemma {:induction false} ClosedHoldsChain(dir: LibDir, roots: seq<string>, h: set<string>, p: seq<string>)
    requires forall n :: n in roots && n in dir ==> n in h
    requires Closed(dir, h, [])
    requires IsChain(dir, roots, p)
    ensures p[|p| - 1] in h
    decreases |p|
  {
    if |p| > 1 {
      var q := p[..|p| - 1];
      assert IsChain(dir, roots, q) by {
        forall i | 0 <= i < |q| - 1 ensures DependsOn(dir, q[i], q[i + 1]) {
          assert q[i] == p[i] && q[i + 1] == p[i + 1];
        }
      }
      ClosedHoldsChain(dir, roots, h, q);
      assert DependsOn(dir, p[|p| - 2], p[|p| - 1]);
    }
  }

  /** Every name in xs is a library of the folder reachable from the roots. */
  ghost predicate AllReachable(dir: LibDir, roots: seq<string>, xs: set<string>) {
    forall n :: n in xs ==> n in dir && Reachable(dir, roots, n)
  }

  /** Every dependency of a handled library is handled or waiting in the queue. */
  ghost predicate Closed(dir: LibDir, handled: set<string>, queue: seq<string>) {
    forall n, d :: n in handled && d in Deps(dir, n) ==> d in handled || d in queue
  }

  /** The state of the traversal between two steps. */
  ghost predicate Traversal(dir: LibDir, roots: seq<string>, handled: set<string>, queue: seq<string>, libs: set<string>) {
    && AllReachable(dir, roots, handled + set n | n in queue)
    && (forall n :: n in roots && n in dir ==> n in handled || n in queue)
    && Closed(dir, handled, queue)
    && (forall n :: n in libs <==> n in handled && dir[n].hasMatrices)
  }

  /** The dependencies of lib not yet handled or queued are added to the queue. */
  method EnqueueDependencies(dir: LibDir, roots: seq<string>, lib: string, handled: set<string>, queue: seq<string>)
    returns (q: seq<string>)
    requires lib in dir && Reachable(dir, roots, lib)
    requires AllReachable(dir, roots, set n | n in queue)
    ensures AllReachable(dir, roots, set n | n in q)
    ensures forall n :: n in queue ==> n in q
    ensures |queue| <= |q| && q[..|queue|] == queue
    ensures forall d :: d in Deps(dir, lib) ==> d in handled || d in q
  {
    var deps := Deps(dir, lib);
    q := queue;
    for i := 0 to |deps|
      invariant AllReachable(dir, roots, set n | n in q)
      invariant forall n :: n in queue ==> n in q
      invariant |queue| <= |q| && q[..|queue|] == queue
      invariant forall k :: 0 <= k < i ==> deps[k] in handled || deps[k] in q
    {
      var dep := deps[i];
      if dep in handled || dep in q {
        continue;
      }
      ReachStep(dir, roots, lib, dep);
      Enqueued(dir, roots, q, dep);
      q := q + [dep];
    }
  }

  /** Appending a reachable library keeps the queue reachable. */
  lemma Enqueued(dir: LibDir, roots: seq<string>, q: seq<string>, d: string)
    requires AllReachable(dir, roots, set n | n in q)
    requires d in dir && Reachable(dir, roots, d)
    ensures AllReachable(dir, roots, set n | n in q + [d])
  {
    assert (set n | n in q + [d]) == (set n | n in q) + {d};
  }

  /** One step of the traversal: the head of the queue is handled, unless it
      was handled before. */
  method Visit(dir: LibDir, roots: seq<string>, handled: set<string>, queue: seq<string>, libs: set<string>)
    returns (handled': set<string>, queue': seq<string>, libs': set<string>)
    requires queue != [] && Traversal(dir, roots, handled, queue, libs)
    ensures Traversal(dir, roots, handled', queue', libs')
    ensures handled' <= dir.Keys
    ensures queue[0] in handled ==> handled' == handled && queue' == queue[1..] && libs' == libs
    ensures queue[0] !in handled ==>
      && handled' == handled + {queue[0]}
      && libs' == (if queue[0] in dir && dir[queue[0]].hasMatrices then libs + {queue[0]} else libs)
      && |queue| - 1 <= |queue'| && queue'[..|queue| - 1] == queue[1..]
    ensures || |dir.Keys - handled'| < |dir.Keys - handled|
            || (dir.Keys - handled' == dir.Keys - handled && |queue'| < |queue|)
  {
    var lib := queue[0];
    if lib in handled {
      SkipHandled(dir, roots, handled, queue, libs);
      return handled, queue[1..], libs;
    }
    assert lib in queue;
    FewerRemaining(dir.Keys, handled, lib);
    handled', queue', libs' := HandleNext(dir, roots, handled, queue, libs);
    HandleHead(dir, roots, handled, queue, libs, queue');
  }

  /** The body of the traversal loop for a head not handled yet: it is
      marked handled, kept when it has matrices, and its dependencies that
      are neither handled nor queued are queued after the rest. */
  method HandleNext(dir: LibDir, roots: seq<string>, handled: set<string>, queue: seq<string>, libs: set<string>)
    returns (handled': set<string>, queue': seq<string>, libs': set<string>)
    requires queue != [] && queue[0] in dir && Reachable(dir, roots, queue[0])
    requires AllReachable(dir, roots, set n | n in queue[1..])
    ensures handled' == handled + {queue[0]}
    ensures libs' == if dir[queue[0]].hasMatrices then libs + {queue[0]} else libs
    ensures |queue| - 1 <= |queue'| && queue'[..|queue| - 1] == queue[1..]
    ensures AllReachable(dir, roots, set n | n in queue')
    ensures forall n :: n in queue[1..] ==> n in queue'
    ensures forall d :: d in Deps(dir, queue[0]) ==> d in handled' || d in queue'
  {
    var lib := queue[0];
    handled' := handled + {lib};
    libs' := if dir[lib].hasMatrices then libs + {lib} else libs;
    queue' := EnqueueDependencies(dir, roots, lib, handled', queue[1..]);
  }

  /** Dropping a head that was handled before keeps the traversal state. */
  lemma SkipHandled(dir: LibDir, roots: seq<string>, handled: set<string>, queue: seq<string>, libs: set<string>)
    requires queue != [] && Traversal(dir, roots, handled, queue, libs) && queue[0] in handled
    ensures Traversal(dir, roots, handled, queue[1..], libs)
  {
    assert forall n :: n in queue ==> n == queue[0] || n in queue[1..];
  }

  /** Handling the head and queueing its dependencies keeps the traversal state. */
  lemma HandleHead(dir: LibDir, roots: seq<string>, handled: set<string>, queue: seq<string>, libs: set<string>, q: seq<string>)
    requires queue != [] && Traversal(dir, roots, handled, queue, libs) && queue[0] !in handled
    requires AllReachable(dir, roots, set n | n in q)
    requires forall n :: n in queue[1..] ==> n in q
    requires forall d :: d in Deps(dir, queue[0]) ==> d in handled + {queue[0]} || d in q
    ensures Traversal(dir, roots, handled + {queue[0]}, q,
                      if dir[queue[0]].hasMatrices then libs + {queue[0]} else libs)
  {
    HeadStillReachable(dir, roots, handled, queue, q);
    HeadCovered(handled, queue, q);
    HeadClosed(dir, handled, queue, q);
    RootsCovered(dir, roots, handled, queue, handled + {queue[0]}, q);
    assert handled <= dir.Keys;
    HeadKept(dir, handled, libs, queue[0]);
  }

  lemma RootsCovered(dir: LibDir, roots: seq<string>, handled: set<string>, queue: seq<string>,
                     handled': set<string>, q: seq<string>)
    requires forall n :: n in roots && n in dir ==> n in handled || n in queue
    requires handled <= handled'
    requires forall n :: n in queue ==> n in handled' || n in q
    ensures forall n :: n in roots && n in dir ==> n in handled' || n in q
  {
  }

  lemma HeadKept(dir: LibDir, handled: set<string>, libs: set<string>, lib: string)
    requires lib in dir && handled <= dir.Keys
    requires forall n :: n in libs <==> n in handled && dir[n].hasMatrices
    ensures forall n :: n in (if dir[lib].hasMatrices then libs + {lib} else libs) <==>
                        n in handled + {lib} && dir[n].hasMatrices
  {
  }

  lemma HeadStillReachable(dir: LibDir, roots: seq<string>, handled: set<string>, queue: seq<string>, q: seq<string>)
    requires queue != [] && AllReachable(dir, roots, handled + set n | n in queue)
    requires AllReachable(dir, roots, set n | n in q)
    ensures AllReachable(dir, roots, (handled + {queue[0]}) + set n | n in q)
  {
    forall n | n in (handled + {queue[0]}) + set m | m in q ensures n in dir && Reachable(dir, roots, n) {
      if n !in (set m | m in q) {
        assert n in handled + (set m | m in queue);
      }
    }
  }

  lemma HeadCovered(handled: set<string>, queue: seq<string>, q: seq<string>)
    requires queue != [] && forall n :: n in queue[1..] ==> n in q
    ensures forall n :: n in queue ==> n in handled + {queue[0]} || n in q
  {
    forall n | n in queue ensures n in handled + {queue[0]} || n in q {
      InQueue(queue, n);
    }
  }

  lemma HeadClosed(dir: LibDir, handled: set<string>, queue: seq<string>, q: seq<string>)
    requires queue != [] && Closed(dir, handled, queue)
    requires forall n :: n in queue ==> n in handled + {queue[0]} || n in q
    requires forall d :: d in Deps(dir, queue[0]) ==> d in handled + {queue[0]} || d in q
    ensures Closed(dir, handled + {queue[0]}, q)
  {
    forall n, d | n in handled + {queue[0]} && d in Deps(dir, n) ensures d in handled + {queue[0]} || d in q {
      if n != queue[0] {
        assert d in handled || d in queue;
      }
    }
  }

  /** Every element of a queue is its head or in its tail. */
  lemma InQueue(queue: seq<string>, n: string)
    requires n in queue
    ensures n == queue[0] || n in queue[1..]
  {
    assert queue == [queue[0]] + queue[1..];
  }

  lemma FewerRemaining(keys: set<string>, handled: set<string>, lib: string)
    requires lib in keys && lib !in handled
    ensures |keys - (handled + {lib})| < |keys - handled|
  {
    var remaining := keys - handled;
    assert keys - (handled + {lib}) == remaining - {lib};
    assert lib in remaining;
  }

  /** forCalculation: a work-list traversal of the dependency graph from the
      mounted libraries, each library name handled at most once. */
  method ForCalculation(db: Option<Database>, dir: LibDir) returns (r: Option<set<string>>)
    ensures db.None? <==> r.None?
    ensures db.Some? ==> r.value == CalcLibraries(dir, db.value.libraries)
  {
    if db.None? {
      return None;
    }
    var roots := db.value.libraries;
    var libs: set<string> := {};
    var queue := Present(dir, roots);
    var handled: set<string> := {};
    Start(dir, roots);
    while queue != []
      invariant handled <= dir.Keys
      invariant Traversal(dir, roots, handled, queue, libs)
      decreases |dir.Keys - handled|, |queue|
    {
      var handled', queue', libs' := Visit(dir, roots, handled, queue, libs);
      handled, queue, libs := handled', queue', libs';
    }
    Finish(dir, roots, handled, libs);
    return Some(libs);
  }

  /** The traversal starts with the mounted libraries in the queue. */
  lemma Start(dir: LibDir, roots: seq<string>)
    ensures Traversal(dir, roots, {}, Present(dir, roots), {})
  {
    var queue := Present(dir, roots);
    forall n | n in queue ensures n in dir && Reachable(dir, roots, n) {
      PresentMember(dir, roots, n);
      assert IsChain(dir, roots, [n]);
    }
    forall n | n in roots && n in dir ensures n in queue {
      PresentMember(dir, roots, n);
    }
  }

  /** With an empty queue, the libraries kept are exactly those a calculation needs. */
  lemma Finish(dir: LibDir, roots: seq<string>, handled: set<string>, libs: set<string>)
    requires Traversal(dir, roots, handled, [], libs)
    ensures libs == CalcLibraries(dir, roots)
  {
    Complete(dir, roots, handled);
  }

  /** Once the queue is empty the handled set is exactly the reachable libraries. */
  lemma Complete(dir: LibDir, roots: seq<string>, handled: set<string>)
    requires AllReachable(dir, roots, handled)
    requires forall n :: n in roots && n in dir ==> n in handled
    requires Closed(dir, handled, [])
    ensures forall n :: n in handled <==> n in dir && Reachable(dir, roots, n)
  {
    forall n | n in dir && Reachable(dir, roots, n) ensures n in handled {
      ReachedIsHandled(dir, roots, handled, n);
    }
  }

  lemma ReachedIsHandled(dir: LibDir, roots: seq<string>, handled: set<string>, n: string)
    requires forall n :: n in roots && n in dir ==> n in handled
    requires Closed(dir, handled, [])
    requires Reachable(dir, roots, n)
    ensures n in handled
  {
    var p :| IsChain(dir, roots, p) && p[|p| - 1] == n;
    ClosedHoldsChain(dir, roots, handled, p);
  }

  /** Whether every library a calculation needs has a valid license session;
      isValid stands for LibrarySession.isValid. */
  ghost predicate AllValid(db: Option<Database>, dir: LibDir, isValid: string -> bool) {
    db.Some? ==> forall n :: n in CalcLibraries(dir, db.value.libraries) ==> isValid(n)
  }

  /** checkValidity(): no active database means no libraries, hence valid. */
  method CheckAllValid(db: Option<Database>, dir: LibDir, isValid: string -> bool) returns (ok: bool)
    ensures ok <==> AllValid(db, dir, isValid)
  {
    var found := ForCalculation(db, dir);
    var libraries := if found.Some? then found.value else {};
    var rest := libraries;
    while rest != {}
      invariant rest <= libraries
      invariant forall n :: n in libraries && n !in rest ==> isValid(n)
      decreases rest
    {
      var library :| library in rest;
      if !isValid(library) {
        return false;
      }
      rest := rest - {library};
    }
    return true;
  }

  datatype DescriptorType = ProductSystemDescriptor | OtherDescriptor

  /** A root descriptor; library names the library it comes from, if any. */
  datatype RootDescriptor = RootDescriptor(kind: DescriptorType, library: Option<string>)

  /** checkValidity(RootDescriptor). */
  method CheckValidity(d: RootDescriptor, db: Option<Database>, dir: LibDir, isValid: string -> bool)
    returns (ok: bool)
    ensures d.library.Some? ==> ok == isValid(d.library.value)
    ensures d.library.None? && d.kind == ProductSystemDescriptor ==> (ok <==> AllValid(db, dir, isValid))
    ensures d.library.None? && d.kind != ProductSystemDescriptor ==> ok
  {
    if d.library.Some? {
      return isValid(d.library.value);
    }
    if d.kind == ProductSystemDescriptor {
      ok := CheckAllValid(db, dir, isValid);
      return;
    }
    return true;
  }

  datatype Credentials = Credentials(token: string)

  /** What readerOf hands to the LibReader builder: the library and, for a
      licensed library, the session credentials to decrypt it with. */
  datatype ReaderPlan = ReaderPlan(library: string, decryptWith: Option<Credentials>)

  /** readerOf(Library); sessions stands for LibrarySession.retrieveSession. */
  function ReaderOf(lib: Option<Library>, dbActive: bool, sessions: map<string, Credentials>)
    : (r: Option<ReaderPlan>)
    ensures r.Some? <==>
      lib.Some? && dbActive && (lib.value.info.licensed ==> lib.value.name in sessions)
    ensures r.Some? ==> r.value.library == lib.value.name
    ensures r.Some? ==> (r.value.decryptWith.Some? <==> lib.value.info.licensed)
    ensures r.Some? && r.value.decryptWith.Some? ==>
      r.value.decryptWith.value == sessions[lib.value.name]
  {
    if lib.None? then None
    else if !dbActive then None
    else if lib.value.info.licensed then
      if lib.value.name !in sessions then None
      else Some(ReaderPlan(lib.value.name, Some(sessions[lib.value.name])))
    else Some(ReaderPlan(lib.value.name, None))
  }

  /** readerOf(String): unknown library ids give no reader. */
  function ReaderOfId(libId: string, dir: LibDir, dbActive: bool, sessions: map<string, Credentials>)
    : (r: Option<ReaderPlan>)
    ensures libId !in dir ==> r.None?
    ensures libId in dir ==> r == ReaderOf(Some(Library(libId, dir[libId])), dbActive, sessions)
  {
    if libId in dir then ReaderOf(Some(Library(libId, dir[libId])), dbActive, sessions) else None
  }

  // ---------------------------------------------------------------------
  // encodeUrl

  /** The characters URLEncoder leaves as they are. */
  predicate Unreserved(c: char) {
    ('a' <= c <= 'z') || ('A' <= c <= 'Z') || ('0' <= c <= '9')
    || c == '.' || c == '-' || c == '*' || c == '_'
  }

  type Byte = b: int | 0 <= b < 256

  /** The UTF-8 encoding of one Unicode scalar value. */
  function Utf8(c: char): (r: seq<Byte>)
    ensures 1 <= |r| <= 4
    ensures (c as int < 0x80) <==> r == [c as int]
  {
    var v := c as int;
    if v < 0x80 then [v]
    else if v < 0x800 then [0xC0 + v / 64, 0x80 + v % 64]
    else if v < 0x10000 then [0xE0 + v / 4096, 0x80 + (v / 64) % 64, 0x80 + v % 64]
    else [0xF0 + v / 262144, 0x80 + (v / 4096) % 64, 0x80 + (v / 64) % 64, 0x80 + v % 64]
  }

  function Utf8Bytes(s: string): seq<Byte> {
    if s == [] then [] else Utf8(s[0]) + Utf8Bytes(s[1..])
  }

  function PercentBytes(bs: seq<Byte>): string {
    if bs == [] then [] else ['%', HexDigit(bs[0] / 16), HexDigit(bs[0] % 16)] + PercentBytes(bs[1..])
  }

  /** URLEncoder.encode(c, UTF_8) for one character. */
  function FormEncodeChar(c: char): string {
    if Unreserved(c) then [c] else if c == ' ' then "+" else PercentBytes(Utf8(c))
  }

  /** URLEncoder.encode(s, UTF_8): application/x-www-form-urlencoded. */
  function FormEncode(s: string): string {
    if s == [] then [] else FormEncodeChar(s[0]) + FormEncode(s[1..])
  }

  /** String.replace("+", "%20"). */
  function ReplacePlus(s: string): string {
    if s == [] then [] else (if s[0] == '+' then "%20" else [s[0]]) + ReplacePlus(s[1..])
  }

  /** One encoded path segment. */
  function EncodeSegment(s: string): string {
    ReplacePlus(FormEncode(s))
  }

  /** Percent-decoding of section 2.1 of RFC 3986: the bytes an encoded
      string stands for, or None when it is not well formed. */
  function PercentDecode(s: string): Option<seq<Byte>>
  {
    if s == [] then Some([])
    else if s[0] == '%' then
      if |s| < 3 || HexValue(s[1]) < 0 || HexValue(s[2]) < 0 then None
      else match PercentDecode(s[3..])
        case None => None
        case Some(rest) => Some([HexValue(s[1]) * 16 + HexValue(s[2])] + rest)
    else if s[0] as int < 0x80 then
      match PercentDecode(s[1..])
      case None => None
      case Some(rest) => Some([s[0] as int as Byte] + rest)
    else None
  }

  function Prepend(bs: seq<Byte>, r: Option<seq<Byte>>): Option<seq<Byte>> {
    if r.None? then None else Some(bs + r.value)
  }

  lemma {:induction false} ReplacePlusAppend(a: string, b: string)
    ensures ReplacePlus(a + b) == ReplacePlus(a) + ReplacePlus(b)
  {
    if a != [] {
      ReplacePlusAppend(a[1..], b);
      assert (a + b)[0] == a[0] && (a + b)[1..] == a[1..] + b;
    } else {
      assert a + b == b;
    }
  }

  lemma {:induction false} ReplacePlusNoPlus(s: string)
    requires '+' !in s
    ensures ReplacePlus(s) == s
  {
    if s != [] {
      ReplacePlusNoPlus(s[1..]);
      assert s == [s[0]] + s[1..];
    }
  }

  lemma {:induction false} ReplacePlusOfPercent(bs: seq<Byte>)
    ensures ReplacePlus(PercentBytes(bs)) == PercentBytes(bs)
  {
    if bs != [] {
      var unit := ['%', HexDigit(bs[0] / 16), HexDigit(bs[0] % 16)];
      ReplacePlusOfPercent(bs[1..]);
      ReplacePlusAppend(unit, PercentBytes(bs[1..]));
      ReplacePlusNoPlus(unit);
    }
  }

  lemma {:induction false} DecodePercentBytes(bs: seq<Byte>, rest: string)
    ensures PercentDecode(PercentBytes(bs) + rest) == Prepend(bs, PercentDecode(rest))
  {
    if bs != [] {
      var b := bs[0];
      var tail := PercentBytes(bs[1..]) + rest;
      assert PercentBytes(bs) + rest == ['%', HexDigit(b / 16), HexDigit(b % 16)] + tail;
      DecodeOneByte(b, tail);
      DecodePercentBytes(bs[1..], rest);
      if PercentDecode(rest).Some? {
        ConsAppend(bs, PercentDecode(rest).value);
      }
    } else {
      assert PercentBytes(bs) + rest == rest;
      if PercentDecode(rest).Some? {
        assert bs + PercentDecode(rest).value == PercentDecode(rest).value;
      }
    }
  }

  lemma ConsAppend<T>(xs: seq<T>, ys: seq<T>)
    requires xs != []
    ensures [xs[0]] + (xs[1..] + ys) == xs + ys
  {
    assert xs == [xs[0]] + xs[1..];
  }

  /** One percent-encoded byte decodes back to the byte. */
  lemma DecodeOneByte(b: Byte, tail: string)
    ensures PercentDecode(['%', HexDigit(b / 16), HexDigit(b % 16)] + tail) == Prepend([b], PercentDecode(tail))
  {
    var s := ['%', HexDigit(b / 16), HexDigit(b % 16)] + tail;
    HexDigitValue(b / 16);
    HexDigitValue(b % 16);
    assert s[0] == '%' && s[1] == HexDigit(b / 16) && s[2] == HexDigit(b % 16);
    assert s[3..] == tail;
    assert HexValue(s[1]) * 16 + HexValue(s[2]) == b;
  }

  lemma DecodeEncodedChar(c: char, rest: string)
    ensures PercentDecode(ReplacePlus(FormEncodeChar(c)) + rest) == Prepend(Utf8(c), PercentDecode(rest))
  {
    if Unreserved(c) {
      assert ReplacePlus([c]) == [c];
      assert ([c] + rest)[1..] == rest;
    } else if c == ' ' {
      assert ReplacePlus("+") == "%20";
      var s := "%20" + rest;
      assert s[0] == '%' && s[1] == '2' && s[2] == '0' && s[3..] == rest;
    } else {
      ReplacePlusOfPercent(Utf8(c));
      DecodePercentBytes(Utf8(c), rest);
    }
  }

  lemma {:induction false} EncodeSegmentCons(s: string)
    requires s != []
    ensures EncodeSegment(s) == ReplacePlus(FormEncodeChar(s[0])) + EncodeSegment(s[1..])
  {
    ReplacePlusAppend(FormEncodeChar(s[0]), FormEncode(s[1..]));
  }

  /** Encoding a segment loses nothing: percent-decoding it gives back the
      UTF-8 bytes of the segment. */
  lemma {:induction false} SegmentRoundTrip(s: string)
    ensures PercentDecode(EncodeSegment(s)) == Some(Utf8Bytes(s))
  {
    if s != [] {
      EncodeSegmentCons(s);
      SegmentRoundTrip(s[1..]);
      DecodeEncodedChar(s[0], EncodeSegment(s[1..]));
    }
  }

  /** The characters an encoded segment is made of. */
  predicate EncodedChar(c: char) {
    Unreserved(c) || c == '%'
  }

  lemma {:induction false} PercentBytesChars(bs: seq<Byte>)
    ensures forall k :: 0 <= k < |PercentBytes(bs)| ==> EncodedChar(PercentBytes(bs)[k])
  {
    if bs != [] {
      PercentBytesChars(bs[1..]);
      var unit := ['%', HexDigit(bs[0] / 16), HexDigit(bs[0] % 16)];
      assert PercentBytes(bs) == unit + PercentBytes(bs[1..]);
    }
  }

  /** An encoded segment holds only unreserved characters and '%': in
      particular no space, no '+' and no '/'. */
  lemma {:induction false} SegmentChars(s: string)
    ensures forall k :: 0 <= k < |EncodeSegment(s)| ==> EncodedChar(EncodeSegment(s)[k])
  {
    if s != [] {
      EncodeSegmentCons(s);
      SegmentChars(s[1..]);
      var c := s[0];
      if !Unreserved(c) && c != ' ' {
        PercentBytesChars(Utf8(c));
        ReplacePlusOfPercent(Utf8(c));
      }
    }
  }

  /** The encoded path after the host: "/" and one encoded, stripped segment
      for each piece. */
  function EncodedPath(segs: seq<string>): string {
    if segs == [] then ""
    else EncodedPath(segs[..|segs| - 1]) + "/" + EncodeSegment(Strip(segs[|segs| - 1]))
  }

  /** encodeUrl, as a value. */
  function EncodedUrl(url: Option<string>): Option<string> {
    if url.None? then None
    else
      var parts := Split(url.value, "://");
      if |parts| < 2 then Some(Strip(url.value))
      else
        var sub := Split(parts[1], "/");
        if |sub| < 2 then Some(Strip(url.value))
        else Some(Strip(parts[0]) + "://" + Strip(sub[0]) + EncodedPath(sub[1..]))
  }

  /** encodeUrl: the protocol and the host are kept, every later path
      segment is encoded and appended to a builder. */
  method EncodeUrl(url: Option<string>) returns (r: Option<string>)
    ensures r == EncodedUrl(url)
  {
    if url.None? {
      return None;
    }
    var parts := Split(url.value, "://");
    if |parts| < 2 {
      return Some(Strip(url.value));
    }
    var protocol := parts[0];
    var sub := Split(parts[1], "/");
    if |sub| < 2 {
      return Some(Strip(url.value));
    }
    var encoded := AppendSegments(Strip(protocol) + "://" + Strip(sub[0]), sub[1..]);
    return Some(encoded);
  }

  /** The loop of encodeUrl over the path segments after the host. */
  method AppendSegments(head: string, segs: seq<string>) returns (encoded: string)
    ensures encoded == head + EncodedPath(segs)
  {
    encoded := head;
    for i := 0 to |segs|
      invariant encoded == head + EncodedPath(segs[..i])
    {
      var segment := EncodeSegment(Strip(segs[i]));
      AppendStep(head, segs, i);
      encoded := encoded + "/" + segment;
    }
    assert segs[..|segs|] == segs;
  }

  /** One turn of the loop of AppendSegments adds the next encoded segment. */
  lemma AppendStep(head: string, segs: seq<string>, i: nat)
    requires i < |segs|
    ensures head + EncodedPath(segs[..i + 1]) == head + EncodedPath(segs[..i]) + "/" + EncodeSegment(Strip(segs[i]))
  {
    assert segs[..i + 1][..i] == segs[..i];
    var path, segment := EncodedPath(segs[..i]), EncodeSegment(Strip(segs[i]));
    assert EncodedPath(segs[..i + 1]) == path + "/" + segment;
    ConcatAssoc(head, path, "/", segment);
  }

  lemma ConcatAssoc<T>(a: seq<T>, b: seq<T>, c: seq<T>, d: seq<T>)
    ensures a + (b + c + d) == a + b + c + d
  {
  }

  lemma {:induction false} SplitNoSeparator(e: string, c: char)
    requires c !in e
    ensures SplitAll(e, [c]) == [e]
    decreases |e|
  {
    if |e| >= 1 {
      assert e[..1] == [e[0]];
      SplitNoSeparator(e[1..], c);
      assert [e[0]] + e[1..] == e;
    }
  }

  lemma {:induction false} SplitAppendPiece(x: string, c: char, e: string)
    requires c !in e
    ensures SplitAll(x + [c] + e, [c]) == SplitAll(x, [c]) + [e]
    decreases |x|
  {
    var s := x + [c] + e;
    if x == [] {
      assert s[..1] == [c] && s[1..] == e;
      SplitNoSeparator(e, c);
    } else {
      assert s[..1] == [x[0]] && s[1..] == x[1..] + [c] + e;
      SplitAppendPiece(x[1..], c, e);
      if x[0] != c {
        assert x[..1] == [x[0]];
      } else {
        assert x[..1] == [c];
      }
    }
  }

  /** The encoded, stripped segments, in order. */
  function EncodedSegments(segs: seq<string>): (r: seq<string>)
    ensures |r| == |segs|
  {
    if segs == [] then []
    else EncodedSegments(segs[..|segs| - 1]) + [EncodeSegment(Strip(segs[|segs| - 1]))]
  }

  lemma {:induction false} EncodedSegmentAt(segs: seq<string>, k: int)
    requires 0 <= k < |segs|
    ensures EncodedSegments(segs)[k] == EncodeSegment(Strip(segs[k]))
    decreases |segs|
  {
    if k < |segs| - 1 {
      var init := segs[..|segs| - 1];
      EncodedSegmentAt(init, k);
      assert init[k] == segs[k];
    }
  }

  lemma SegmentHasNoSlash(s: string)
    ensures '/' !in EncodeSegment(s)
  {
    var e := EncodeSegment(s);
    SegmentChars(s);
    forall k | 0 <= k < |e| ensures e[k] != '/' {
      assert EncodedChar(e[k]);
    }
  }

  /** The encoded path splits at '/' into exactly the encoded segments. */
  lemma {:induction false} PathSplits(segs: seq<string>)
    ensures SplitAll(EncodedPath(segs), "/") == [""] + EncodedSegments(segs)
    decreases |segs|
  {
    if segs != [] {
      var init := segs[..|segs| - 1];
      var e := EncodeSegment(Strip(segs[|segs| - 1]));
      PathSplits(init);
      SegmentHasNoSlash(Strip(segs[|segs| - 1]));
      SplitStep(EncodedPath(init), e, EncodedSegments(init));
    } else {
      assert SplitAll("", "/") == [""];
    }
  }

  lemma SplitStep(path: string, e: string, pieces: seq<string>)
    requires '/' !in e
    requires SplitAll(path, "/") == [""] + pieces
    ensures SplitAll(path + "/" + e, "/") == [""] + (pieces + [e])
  {
    SplitAppendPiece(path, '/', e);
  }

  /** Pieces that are the encoded segments decode to the segments' bytes. */
  lemma PiecesDecode(pieces: seq<string>, segs: seq<string>)
    requires pieces == [""] + EncodedSegments(segs)
    ensures forall k :: 0 <= k < |segs| ==> PercentDecode(pieces[k + 1]) == Some(Utf8Bytes(Strip(segs[k])))
  {
    forall k | 0 <= k < |segs| ensures PercentDecode(pieces[k + 1]) == Some(Utf8Bytes(Strip(segs[k]))) {
      PieceDecodes(pieces, segs, k);
    }
  }

  lemma PieceDecodes(pieces: seq<string>, segs: seq<string>, k: int)
    requires pieces == [""] + EncodedSegments(segs) && 0 <= k < |segs|
    ensures PercentDecode(pieces[k + 1]) == Some(Utf8Bytes(Strip(segs[k])))
  {
    var piece := pieces[k + 1];
    assert piece == EncodedSegments(segs)[k];
    EncodedSegmentAt(segs, k);
    SegmentRoundTrip(Strip(segs[k]));
  }

  /** The path encodeUrl builds can be taken apart again: split at '/', each
      piece decodes to the UTF-8 bytes of its stripped original segment. */
  lemma PathRoundTrip(segs: seq<string>)
    ensures |SplitAll(EncodedPath(segs), "/")| == |segs| + 1
    ensures forall k :: 0 <= k < |segs| ==>
      PercentDecode(SplitAll(EncodedPath(segs), "/")[k + 1]) == Some(Utf8Bytes(Strip(segs[k])))
  {
    PathSplits(segs);
    PiecesDecode(SplitAll(EncodedPath(segs), "/"), segs);
  }
}
