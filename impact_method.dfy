/** The indicator list of the impact-method editor: adding impact
    categories by descriptor, removing selected ones together with their
    normalisation and weighting factors, and the sorted display. */
module ImpactMethodPage {
  import opened Common

  datatype ModelType = ImpactCategoryType | FlowType | ProcessType | OtherType

  datatype Descriptor = Descriptor(id: int, modelType: ModelType)

  datatype ImpactCategory = ImpactCategory(id: int, name: Option<string>)

  /** A normalisation and weighting factor of one impact category. */
  datatype NwFactor = NwFactor(impact: ImpactCategory, normalisation: real, weighting: real)

  datatype EditorEvent = ImpactCategoryChange

  /** The impact categories that onAdd appends: the descriptors of impact
      categories that the DAO (dao, by id) resolves and that the method does
      not hold yet, in input order; repeats within one batch are kept. */
  function NewImpacts(ds: seq<Descriptor>, dao: map<int, ImpactCategory>, existing: seq<ImpactCategory>)
    : (r: seq<ImpactCategory>)
    ensures |r| <= |ds|
    ensures forall x :: x in r ==> x !in existing
  {
    if ds == [] then []
    else
      var d := ds[0];
      var rest := NewImpacts(ds[1..], dao, existing);
      if d.modelType == ImpactCategoryType && d.id in dao && dao[d.id] !in existing
      then [dao[d.id]] + rest
      else rest
  }

  /** The descriptor names an impact category that the DAO resolves to x. */
  predicate ResolvesTo(d: Descriptor, dao: map<int, ImpactCategory>, x: ImpactCategory) {
    d.modelType == ImpactCategoryType && d.id in dao && dao[d.id] == x
  }

  /** An impact category is added exactly when some descriptor of an impact
      category resolves to it and the method does not hold it yet. */
  lemma {:induction false} NewImpactsMembers(ds: seq<Descriptor>, dao: map<int, ImpactCategory>,
      existing: seq<ImpactCategory>, x: ImpactCategory)
    ensures x in NewImpacts(ds, dao, existing) <==>
      x !in existing && (exists k :: 0 <= k < |ds| && ResolvesTo(ds[k], dao, x))
  {
    if ds != [] {
      NewImpactsMembers(ds[1..], dao, existing, x);
      if (exists k :: 0 <= k < |ds| && ResolvesTo(ds[k], dao, x)) {
        var k :| 0 <= k < |ds| && ResolvesTo(ds[k], dao, x);
        if k > 0 {
          assert ds[1..][k - 1] == ds[k];
        }
      }
      if (exists k :: 0 <= k < |ds[1..]| && ResolvesTo(ds[1..][k], dao, x)) {
        var k :| 0 <= k < |ds[1..]| && ResolvesTo(ds[1..][k], dao, x);
        assert ds[k + 1] == ds[1..][k];
      }
    }
  }

  /** The list after removing each selected impact in turn (List.remove). */
  function RemoveEach<T(==)>(s: seq<T>, selected: seq<T>): seq<T> {
    if selected == [] then s
    else RemoveFirst(RemoveEach(s, selected[..|selected| - 1]), selected[|selected| - 1])
  }

  /** NwSet.getFactor followed by factors.remove: the first factor of the
      impact category goes, if there is one. */
  function RemoveFactor(fs: seq<NwFactor>, impact: ImpactCategory): (r: seq<NwFactor>)
    ensures |r| == |fs| || |r| == |fs| - 1
  {
    if fs == [] then []
    else if fs[0].impact == impact then fs[1..] else [fs[0]] + RemoveFactor(fs[1..], impact)
  }

  /** Removing an impact's factor keeps every factor of another impact, as often as before. */
  lemma {:induction false} RemoveFactorKeepsOthers(fs: seq<NwFactor>, impact: ImpactCategory, f: NwFactor)
    requires f.impact != impact
    ensures multiset(RemoveFactor(fs, impact))[f] == multiset(fs)[f]
  {
    if fs != [] {
      assert fs == [fs[0]] + fs[1..];
      if fs[0].impact != impact {
        RemoveFactorKeepsOthers(fs[1..], impact, f);
      }
    }
  }

  function RemoveFactors(fs: seq<NwFactor>, selected: seq<ImpactCategory>): seq<NwFactor> {
    if selected == [] then fs
    else RemoveFactor(RemoveFactors(fs, selected[..|selected| - 1]), selected[|selected| - 1])
  }

  /** One more selected impact: one more removal from the list. */
  lemma RemoveEachSnoc(s: seq<ImpactCategory>, selected: seq<ImpactCategory>, i: int)
    requires 0 <= i < |selected|
    ensures RemoveEach(s, selected[..i + 1]) == RemoveFirst(RemoveEach(s, selected[..i]), selected[i])
  {
    assert selected[..i + 1][..i] == selected[..i];
  }

  /** The factors of a set that appears n times in the method's set list
      after one selected impact: each appearance removes one factor. */
  function RemoveFactorTimes(fs: seq<NwFactor>, impact: ImpactCategory, n: nat): seq<NwFactor> {
    if n == 0 then fs else RemoveFactor(RemoveFactorTimes(fs, impact, n - 1), impact)
  }

  /** The factors of a set that appears n times in the set list after the
      whole selection. */
  function RemoveFactorsTimes(fs: seq<NwFactor>, selected: seq<ImpactCategory>, n: nat): seq<NwFactor> {
    if selected == [] then fs
    else RemoveFactorTimes(RemoveFactorsTimes(fs, selected[..|selected| - 1], n), selected[|selected| - 1], n)
  }

  /** One more selected impact: n more removals from the factors. */
  lemma RemoveFactorsTimesSnoc(fs: seq<NwFactor>, selected: seq<ImpactCategory>, i: int, n: nat)
    requires 0 <= i < |selected|
    ensures RemoveFactorsTimes(fs, selected[..i + 1], n) == RemoveFactorTimes(RemoveFactorsTimes(fs, selected[..i], n), selected[i], n)
  {
    assert selected[..i + 1][..i] == selected[..i];
  }

  /** A set that appears once loses one factor per selected impact. */
  lemma {:induction false} RemoveFactorsOnce(fs: seq<NwFactor>, selected: seq<ImpactCategory>)
    ensures RemoveFactorsTimes(fs, selected, 1) == RemoveFactors(fs, selected)
  {
    if selected != [] {
      var init := selected[..|selected| - 1];
      RemoveFactorsOnce(fs, init);
      assert RemoveFactorTimes(RemoveFactors(fs, init), selected[|selected| - 1], 1)
        == RemoveFactor(RemoveFactors(fs, init), selected[|selected| - 1]);
    }
  }

  /** The impact category of each factor, in order. */
  function Impacts(fs: seq<NwFactor>): (r: seq<ImpactCategory>)
    ensures |r| == |fs|
    ensures forall k :: 0 <= k < |fs| ==> r[k] == fs[k].impact
  {
    if fs == [] then [] else [fs[0].impact] + Impacts(fs[1..])
  }

  /** At most one factor per impact category, as getFactor presumes. */
  ghost predicate OneFactorEach(fs: seq<NwFactor>) {
    Distinct(Impacts(fs))
  }

  /** Removing a factor removes its impact category from the list of impacts. */
  lemma {:induction false} ImpactsOfRemoveFactor(fs: seq<NwFactor>, impact: ImpactCategory)
    ensures Impacts(RemoveFactor(fs, impact)) == RemoveFirst(Impacts(fs), impact)
  {
    if fs != [] {
      var tail := fs[1..];
      assert Impacts(fs) == [fs[0].impact] + Impacts(tail);
      if fs[0].impact != impact {
        ImpactsOfRemoveFactor(tail, impact);
        var r := RemoveFactor(tail, impact);
        assert Impacts([fs[0]] + r) == [fs[0].impact] + Impacts(r);
      }
    }
  }

  lemma RemoveFactorMember(fs: seq<NwFactor>, impact: ImpactCategory, f: NwFactor)
    requires impact !in Impacts(RemoveFactor(fs, impact))
    ensures f in RemoveFactor(fs, impact) <==> f in fs && f.impact != impact
  {
    var r := RemoveFactor(fs, impact);
    if f in r {
      var k :| 0 <= k < |r| && r[k] == f;
      assert Impacts(r)[k] == f.impact;
    }
    if f.impact != impact {
      RemoveFactorKeepsOthers(fs, impact, f);
    }
  }

  lemma RemoveFactorOfOneEach(fs: seq<NwFactor>, impact: ImpactCategory)
    requires OneFactorEach(fs)
    ensures OneFactorEach(RemoveFactor(fs, impact))
    ensures forall f :: f in RemoveFactor(fs, impact) <==> f in fs && f.impact != impact
  {
    ImpactsOfRemoveFactor(fs, impact);
    RemoveFirstKeepsDistinct(Impacts(fs), impact);
    RemoveFirstOfDistinct(Impacts(fs), impact);
    forall f {
      RemoveFactorMember(fs, impact, f);
    }
  }

  /** With one factor per impact category, the factors left after removing
      a selection are exactly those of the other impact categories. */
  lemma {:induction false} RemoveFactorsExact(fs: seq<NwFactor>, selected: seq<ImpactCategory>)
    requires OneFactorEach(fs)
    ensures OneFactorEach(RemoveFactors(fs, selected))
    ensures forall f :: f in RemoveFactors(fs, selected) <==> f in fs && f.impact !in selected
  {
    if selected != [] {
      var init := selected[..|selected| - 1];
      RemoveFactorsExact(fs, init);
      RemoveFactorOfOneEach(RemoveFactors(fs, init), selected[|selected| - 1]);
      assert forall x :: x in selected <==> x in init || x == selected[|selected| - 1];
    }
  }

  /** Without a factor of the impact, removing its factor changes nothing. */
  lemma {:induction false} RemoveFactorAbsent(fs: seq<NwFactor>, impact: ImpactCategory)
    requires impact !in Impacts(fs)
    ensures RemoveFactor(fs, impact) == fs
  {
    if fs != [] {
      assert Impacts(fs)[0] == fs[0].impact;
      assert Impacts(fs[1..]) == Impacts(fs)[1..];
      RemoveFactorAbsent(fs[1..], impact);
      assert fs == [fs[0]] + fs[1..];
    }
  }

  /** With one factor per impact category, removing it again and again is
      removing it once: a set listed several times ends up as if listed once. */
  lemma {:induction false} RemoveFactorRepeated(fs: seq<NwFactor>, impact: ImpactCategory, n: nat)
    requires OneFactorEach(fs) && n >= 1
    ensures RemoveFactorTimes(fs, impact, n) == RemoveFactor(fs, impact)
  {
    if n > 1 {
      RemoveFactorRepeated(fs, impact, n - 1);
      ImpactsOfRemoveFactor(fs, impact);
      RemoveFirstOfDistinct(Impacts(fs), impact);
      RemoveFactorAbsent(RemoveFactor(fs, impact), impact);
    }
  }

  /** The same for a whole selection. */
  lemma {:induction false} RemoveFactorsRepeated(fs: seq<NwFactor>, selected: seq<ImpactCategory>, n: nat)
    requires OneFactorEach(fs) && n >= 1
    ensures RemoveFactorsTimes(fs, selected, n) == RemoveFactors(fs, selected)
  {
    if selected != [] {
      var init := selected[..|selected| - 1];
      RemoveFactorsRepeated(fs, init, n);
      RemoveFactorsExact(fs, init);
      RemoveFactorRepeated(RemoveFactors(fs, init), selected[|selected| - 1], n);
    }
  }

  /** How many of the first n elements of s are x. */
  function CountBefore<T(==)>(s: seq<T>, n: nat, x: T): nat
    requires n <= |s|
  {
    if n == 0 then 0 else CountBefore(s, n - 1, x) + (if s[n - 1] == x then 1 else 0)
  }

  /** How many times x is listed in s. */
  function Appearances<T(==)>(s: seq<T>, x: T): nat {
    CountBefore(s, |s|, x)
  }

  /** The appearances of x are its multiplicity. */
  lemma AppearancesCount<T>(s: seq<T>, x: T)
    ensures Appearances(s, x) == multiset(s)[x]
  {
    CountBeforeCount(s, |s|, x);
    assert s[..|s|] == s;
  }

  lemma {:induction false} CountBeforeCount<T>(s: seq<T>, n: nat, x: T)
    requires n <= |s|
    ensures CountBefore(s, n, x) == multiset(s[..n])[x]
  {
    if n > 0 {
      CountBeforeCount(s, n - 1, x);
      assert s[..n] == s[..n - 1] + [s[n - 1]];
    }
  }

  /** In a list without repeats every element is listed once. */
  lemma DistinctAppearsOnce<T>(s: seq<T>, x: T)
    requires Distinct(s) && x in s
    ensures Appearances(s, x) == 1
  {
    AppearancesCount(s, x);
    DistinctMultiplicity(s, x);
  }

  lemma {:induction false} DistinctMultiplicity<T>(s: seq<T>, x: T)
    requires Distinct(s) && x in s
    ensures multiset(s)[x] == 1
  {
    DistinctTail(s);
    assert s == [s[0]] + s[1..];
    if s[0] != x {
      DistinctMultiplicity(s[1..], x);
    }
  }

  lemma DistinctTail<T>(s: seq<T>)
    requires Distinct(s) && s != []
    ensures Distinct(s[1..]) && s[0] !in s[1..]
  {
    forall i, j | 0 <= i < j < |s[1..]| ensures s[1..][i] != s[1..][j] {
      assert s[1..][i] == s[i + 1] && s[1..][j] == s[j + 1];
    }
    forall k | 0 <= k < |s[1..]| ensures s[1..][k] != s[0] {
      assert s[1..][k] == s[k + 1];
    }
  }

  lemma DistinctCons<T>(a: T, r: seq<T>)
    requires Distinct(r) && a !in r
    ensures Distinct([a] + r)
  {
    var s := [a] + r;
    forall i, j | 0 <= i < j < |s| ensures s[i] != s[j] {
      assert s[j] == r[j - 1];
      if i > 0 {
        assert s[i] == r[i - 1];
      }
    }
  }

  lemma {:induction false} RemoveFirstKeepsDistinct<T>(s: seq<T>, x: T)
    requires Distinct(s)
    ensures Distinct(RemoveFirst(s, x))
  {
    if s != [] {
      DistinctTail(s);
      if s[0] != x {
        var r := RemoveFirst(s[1..], x);
        RemoveFirstKeepsDistinct(s[1..], x);
        RemoveFirstMultiset(s[1..], x);
        assert multiset(r)[s[0]] <= multiset(s[1..])[s[0]];
        DistinctCons(s[0], r);
      }
    }
  }

  /** In a list without repeats, removing a selection leaves exactly the
      impact categories that were not selected. */
  lemma {:induction false} RemoveEachExact<T>(s: seq<T>, selected: seq<T>)
    requires Distinct(s)
    ensures Distinct(RemoveEach(s, selected))
    ensures forall y :: y in RemoveEach(s, selected) <==> y in s && y !in selected
  {
    if selected != [] {
      var init := selected[..|selected| - 1];
      var x := selected[|selected| - 1];
      RemoveEachExact(s, init);
      RemoveFirstKeepsDistinct(RemoveEach(s, init), x);
      RemoveFirstOfDistinct(RemoveEach(s, init), x);
      assert forall y :: y in selected <==> y in init || y == x;
    }
  }

  class NwSet {
    var factors: seq<NwFactor>

    constructor (factors: seq<NwFactor>)
      ensures this.factors == factors
    {
      this.factors := factors;
    }
  }

  class ImpactMethod {
    var impactCategories: seq<ImpactCategory>
    var nwSets: seq<NwSet>

    constructor (impactCategories: seq<ImpactCategory>, nwSets: seq<NwSet>)
      ensures this.impactCategories == impactCategories && this.nwSets == nwSets
    {
      this.impactCategories := impactCategories;
      this.nwSets := nwSets;
    }
  }

  class ImpactMethodEditor {
    const model: ImpactMethod
    var events: seq<EditorEvent>
    var dirty: bool
    /** The list the indicator table shows. */
    var shown: seq<ImpactCategory>

    constructor (model: ImpactMethod)
      ensures this.model == model && events == [] && !dirty && shown == []
    {
      this.model := model;
      events, dirty, shown := [], false, [];
    }

    /** fireCategoryChange: emits the change event and marks the editor dirty. */
    method FireCategoryChange()
      modifies this`events, this`dirty
      ensures events == old(events) + [ImpactCategoryChange] && dirty
    {
      events := events + [ImpactCategoryChange];
      dirty := true;
    }

    /** The indicator table: the method's list sorted by name
        (List.sort with Strings.compare, here leq) and then shown. */
    method ShowIndicators(leq: (ImpactCategory, ImpactCategory) -> bool)
      requires TotalPreorder(leq)
      modifies model`impactCategories, this`shown
      ensures SortedBy(model.impactCategories, leq)
      ensures multiset(model.impactCategories) == multiset(old(model.impactCategories))
      ensures forall y :: Ties(model.impactCategories, y, leq) == Ties(old(model.impactCategories), y, leq)
      ensures shown == model.impactCategories
    {
      var sorted := SortBy(model.impactCategories, leq);
      model.impactCategories := sorted;
      shown := model.impactCategories;
    }

    /** onAdd: appends the new impact categories after the existing ones;
        nothing happens when the input or the new list is empty. */
    method OnAdd(ds: seq<Descriptor>, dao: map<int, ImpactCategory>)
      modifies model`impactCategories, this`shown, this`events, this`dirty
      ensures var added := NewImpacts(ds, dao, old(model.impactCategories));
        if added == [] then
          && model.impactCategories == old(model.impactCategories)
          && shown == old(shown) && events == old(events) && dirty == old(dirty)
        else
          && model.impactCategories == old(model.impactCategories) + added
          && shown == model.impactCategories
          && events == old(events) + [ImpactCategoryChange] && dirty
    {
      if ds == [] {
        return;
      }
      var newImpacts := NewImpacts(ds, dao, model.impactCategories);
      if newImpacts == [] {
        return;
      }
      model.impactCategories := model.impactCategories + newImpacts;
      shown := model.impactCategories;
      FireCategoryChange();
    }

    /** The inner loop of onRemove: every appearance of a set in the list
        takes one factor of the impact out of it, if it has one. */
    method RemoveFactorFromSets(sets: seq<NwSet>, impact: ImpactCategory)
      modifies sets
      ensures forall k :: 0 <= k < |sets| ==>
        sets[k].factors == RemoveFactorTimes(old(sets[k].factors), impact, Appearances(sets, sets[k]))
    {
      for j := 0 to |sets|
        invariant forall x :: x in sets ==>
          x.factors == RemoveFactorTimes(old(x.factors), impact, CountBefore(sets, j, x))
      {
        var nwSet := sets[j];
        nwSet.factors := RemoveFactor(nwSet.factors, impact);
      }
    }

    /** One pass of onRemove's outer loop: the impact category leaves the
        list and its factor leaves every set, once per appearance. */
    method RemoveImpact(impact: ImpactCategory)
      modifies model`impactCategories, model.nwSets
      ensures model.impactCategories == RemoveFirst(old(model.impactCategories), impact)
      ensures forall k :: 0 <= k < |model.nwSets| ==>
        model.nwSets[k].factors == RemoveFactorTimes(old(model.nwSets[k].factors), impact, Appearances(model.nwSets, model.nwSets[k]))
    {
      model.impactCategories := RemoveFirst(model.impactCategories, impact);
      RemoveFactorFromSets(model.nwSets, impact);
    }

    /** The loops of onRemove: each selected impact category in turn. */
    method RemoveSelection(selected: seq<ImpactCategory>)
      modifies model`impactCategories, model.nwSets
      ensures model.impactCategories == RemoveEach(old(model.impactCategories), selected)
      ensures forall k :: 0 <= k < |model.nwSets| ==>
        model.nwSets[k].factors == RemoveFactorsTimes(old(model.nwSets[k].factors), selected, Appearances(model.nwSets, model.nwSets[k]))
    {
      ghost var sets := model.nwSets;
      for i := 0 to |selected|
        invariant model.nwSets == sets
        invariant model.impactCategories == RemoveEach(old(model.impactCategories), selected[..i])
        invariant forall k :: 0 <= k < |sets| ==>
          sets[k].factors == RemoveFactorsTimes(old(sets[k].factors), selected[..i], Appearances(sets, sets[k]))
      {
        RemoveEachSnoc(old(model.impactCategories), selected, i);
        label before:
        RemoveImpact(selected[i]);
        forall k | 0 <= k < |sets|
          ensures sets[k].factors == RemoveFactorsTimes(old(sets[k].factors), selected[..i + 1], Appearances(sets, sets[k]))
        {
          RemoveFactorsTimesSnoc(old(sets[k].factors), selected, i, Appearances(sets, sets[k]));
          assert sets[k].factors == RemoveFactorTimes(old@before(sets[k].factors), selected[i], Appearances(sets, sets[k]));
        }
      }
      assert selected[..|selected|] == selected;
    }

    /** onRemove: each selected impact category leaves the list and takes
        its factor out of every normalisation and weighting set; the change
        is always announced. */
    method OnRemove(selected: seq<ImpactCategory>)
      modifies model`impactCategories, model.nwSets, this`shown, this`events, this`dirty
      ensures model.impactCategories == RemoveEach(old(model.impactCategories), selected)
      ensures forall k :: 0 <= k < |model.nwSets| ==>
        model.nwSets[k].factors == RemoveFactorsTimes(old(model.nwSets[k].factors), selected, Appearances(model.nwSets, model.nwSets[k]))
      ensures shown == model.impactCategories
      ensures events == old(events) + [ImpactCategoryChange] && dirty
    {
      RemoveSelection(selected);
      shown := model.impactCategories;
      FireCategoryChange();
    }
  }
}
