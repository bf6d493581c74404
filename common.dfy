/** Small building blocks shared by the editor models: an optional value
    (Java's null / Optional), java.util.List.remove(Object), and the stable
    sort that Collections.sort and List.sort perform with a comparator. */
module Common {

  datatype Option<T> = None | Some(value: T)

  /** java.util.List.remove(Object): drops the first element equal to x. */
  function RemoveFirst<T(==)>(s: seq<T>, x: T): (r: seq<T>)
    ensures x !in s ==> r == s
    ensures x in s ==> |r| == |s| - 1
  {
    if s == [] then []
    else if s[0] == x then s[1..] else [s[0]] + RemoveFirst(s[1..], x)
  }

  /** List.remove takes out exactly one occurrence of x, when there is one. */
  lemma {:induction false} RemoveFirstMultiset<T>(s: seq<T>, x: T)
    ensures multiset(RemoveFirst(s, x)) == multiset(s) - multiset{x}
  {
    if s != [] {
      assert s == [s[0]] + s[1..];
      if s[0] != x {
        RemoveFirstMultiset(s[1..], x);
      }
    }
  }

  /** Removing an element from a list without duplicates removes every copy of it. */
  lemma {:induction false} RemoveFirstOfDistinct<T>(s: seq<T>, x: T)
    requires Distinct(s)
    ensures x !in RemoveFirst(s, x)
    ensures forall y :: y in RemoveFirst(s, x) <==> y in s && y != x
  {
    if s != [] && s[0] != x {
      assert Distinct(s[1..]) by {
        forall i, j | 0 <= i < j < |s[1..]| ensures s[1..][i] != s[1..][j] {
          assert s[1..][i] == s[i + 1] && s[1..][j] == s[j + 1];
        }
      }
      RemoveFirstOfDistinct(s[1..], x);
    } else if s != [] {
      forall y | y in s[1..] ensures y != x {
        var k :| 0 <= k < |s[1..]| && s[1..][k] == y;
        assert s[k + 1] == y;
      }
    }
  }

  ghost predicate Distinct<T>(s: seq<T>) {
    forall i, j :: 0 <= i < j < |s| ==> s[i] != s[j]
  }

  /** What Comparator's contract demands: a total, transitive "at most" relation. */
  ghost predicate TotalPreorder<T(!new)>(leq: (T, T) -> bool) {
    && (forall a, b :: leq(a, b) || leq(b, a))
    && (forall a, b, c :: leq(a, b) && leq(b, c) ==> leq(a, c))
  }

  ghost predicate SortedBy<T>(s: seq<T>, leq: (T, T) -> bool) {
    forall i, j :: 0 <= i < j < |s| ==> leq(s[i], s[j])
  }

  /** Inserts x into a sorted list after every element that is not greater than x. */
  method InsertSorted<T(!new)>(r: seq<T>, x: T, leq: (T, T) -> bool) returns (q: seq<T>)
    requires TotalPreorder(leq)
    requires SortedBy(r, leq)
    ensures SortedBy(q, leq)
    ensures multiset(q) == multiset(r) + multiset{x}
    ensures forall y :: Ties(q, y, leq) == Ties(r, y, leq) + (if Equivalent(x, y, leq) then [x] else [])
  {
    var j := InsertionPoint(r, x, leq);
    BelowInsertionPoint(r, j, x, leq);
    q := r[..j] + [x] + r[j..];
    InsertionSorted(r, j, x, leq);
    InsertionMultiset(r, j, x);
    InsertionStable(r, j, x, leq);
  }

  /** The last position whose predecessor is at most x, searching from the end. */
  method InsertionPoint<T(!new)>(r: seq<T>, x: T, leq: (T, T) -> bool) returns (j: int)
    requires TotalPreorder(leq)
    ensures 0 <= j <= |r|
    ensures j > 0 ==> leq(r[j - 1], x)
    ensures forall k :: j <= k < |r| ==> leq(x, r[k]) && !leq(r[k], x)
  {
    j := |r|;
    while j > 0 && !leq(r[j - 1], x)
      invariant 0 <= j <= |r|
      invariant forall k :: j <= k < |r| ==> leq(x, r[k]) && !leq(r[k], x)
    {
      j := j - 1;
    }
  }

  lemma InsertionMultiset<T>(r: seq<T>, j: int, x: T)
    requires 0 <= j <= |r|
    ensures multiset(r[..j] + [x] + r[j..]) == multiset(r) + multiset{x}
  {
    assert r == r[..j] + r[j..];
  }

  /** Every element before the insertion point is at most x (by transitivity through r[j-1]). */
  lemma BelowInsertionPoint<T(!new)>(r: seq<T>, j: int, x: T, leq: (T, T) -> bool)
    requires TotalPreorder(leq)
    requires SortedBy(r, leq)
    requires 0 <= j <= |r|
    requires j > 0 ==> leq(r[j - 1], x)
    ensures forall k :: 0 <= k < j ==> leq(r[k], x)
  {
    forall k | 0 <= k < j ensures leq(r[k], x) {
      if k < j - 1 {
        assert leq(r[k], r[j - 1]);
      }
    }
  }

  lemma InsertionSorted<T(!new)>(r: seq<T>, j: int, x: T, leq: (T, T) -> bool)
    requires TotalPreorder(leq)
    requires SortedBy(r, leq)
    requires 0 <= j <= |r|
    requires forall k :: 0 <= k < j ==> leq(r[k], x)
    requires forall k :: j <= k < |r| ==> leq(x, r[k])
    ensures SortedBy(r[..j] + [x] + r[j..], leq)
  {
    var q := r[..j] + [x] + r[j..];
    forall a, b | 0 <= a < b < |q| ensures leq(q[a], q[b]) {
      if b < j {
        assert q[a] == r[a] && q[b] == r[b];
      } else if b == j {
        assert q[a] == r[a];
      } else if a == j {
        assert q[b] == r[b - 1];
      } else if a < j {
        assert q[a] == r[a] && q[b] == r[b - 1];
        assert leq(r[a], x) && leq(x, r[b - 1]);
      } else {
        assert q[a] == r[a - 1] && q[b] == r[b - 1];
      }
    }
  }

  /** x is inserted after its equals, and elements of r past the insertion
      point are strictly greater than x, so only x joins the run of x's equals. */
  lemma InsertionStable<T(!new)>(r: seq<T>, j: int, x: T, leq: (T, T) -> bool)
    requires TotalPreorder(leq)
    requires 0 <= j <= |r|
    requires forall k :: j <= k < |r| ==> !leq(r[k], x)
    ensures forall y :: Ties(r[..j] + [x] + r[j..], y, leq) == Ties(r, y, leq) + (if Equivalent(x, y, leq) then [x] else [])
  {
    assert r[..j] + r[j..] == r;
    forall y ensures Ties(r[..j] + [x] + r[j..], y, leq) == Ties(r, y, leq) + (if Equivalent(x, y, leq) then [x] else []) {
      if Equivalent(x, y, leq) {
        TiesNone(r[j..], x, y, leq);
      }
      TiesInsert(r[..j], r[j..], x, y, leq);
    }
  }

  /** Ties of a list with x inserted: those of the list, then x if x ties,
      provided nothing after x ties. */
  lemma TiesInsert<T>(a: seq<T>, b: seq<T>, x: T, y: T, leq: (T, T) -> bool)
    requires Equivalent(x, y, leq) ==> Ties(b, y, leq) == []
    ensures Ties(a + [x] + b, y, leq) == Ties(a + b, y, leq) + (if Equivalent(x, y, leq) then [x] else [])
  {
    TiesAppend(a + [x], b, y, leq);
    TiesAppend(a, b, y, leq);
    TiesAppend(a, [x], y, leq);
    assert Ties([x], y, leq) == if Equivalent(x, y, leq) then [x] else [] by {
      assert [x][..0] == [];
    }
  }

  /** Two elements the comparator cannot tell apart. */
  predicate Equivalent<T>(a: T, b: T, leq: (T, T) -> bool) {
    leq(a, b) && leq(b, a)
  }

  /** The elements of s the comparator cannot tell apart from y, in their order in s. */
  ghost function Ties<T>(s: seq<T>, y: T, leq: (T, T) -> bool): seq<T> {
    if s == [] then []
    else Ties(s[..|s| - 1], y, leq) + (if Equivalent(s[|s| - 1], y, leq) then [s[|s| - 1]] else [])
  }

  lemma {:induction false} TiesAppend<T>(a: seq<T>, b: seq<T>, y: T, leq: (T, T) -> bool)
    ensures Ties(a + b, y, leq) == Ties(a, y, leq) + Ties(b, y, leq)
  {
    if b != [] {
      assert (a + b)[..|a + b| - 1] == a + b[..|b| - 1];
      TiesAppend(a, b[..|b| - 1], y, leq);
    } else {
      assert a + b == a;
    }
  }

  /** With x, which ties with y, strictly below every element of s, nothing in s ties with y. */
  lemma {:induction false} TiesNone<T(!new)>(s: seq<T>, x: T, y: T, leq: (T, T) -> bool)
    requires TotalPreorder(leq)
    requires Equivalent(x, y, leq)
    requires forall k :: 0 <= k < |s| ==> !leq(s[k], x)
    ensures Ties(s, y, leq) == []
  {
    if s != [] {
      assert !leq(s[|s| - 1], y);
      TiesNone(s[..|s| - 1], x, y, leq);
    }
  }

  /** Collections.sort / List.sort with a comparator: a sorted permutation of s
      that keeps elements the comparator cannot tell apart in their input order. */
  method SortBy<T(!new)>(s: seq<T>, leq: (T, T) -> bool) returns (r: seq<T>)
    requires TotalPreorder(leq)
    ensures SortedBy(r, leq)
    ensures multiset(r) == multiset(s)
    ensures forall y :: Ties(r, y, leq) == Ties(s, y, leq)
  {
    r := [];
    for i := 0 to |s|
      invariant SortedBy(r, leq)
      invariant multiset(r) == multiset(s[..i])
      invariant forall y :: Ties(r, y, leq) == Ties(s[..i], y, leq)
    {
      r := InsertSorted(r, s[i], leq);
      assert s[..i + 1] == s[..i] + [s[i]];
      assert s[..i + 1][..i] == s[..i];
    }
    assert s[..|s|] == s;
  }
}
