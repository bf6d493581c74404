/** The locations editor: it records which locations were added, removed,
    changed, or had their KML geometry changed since the last save, keeps
    the displayed list and the dirty flag, and on save writes the pending
    changes through the location DAO (a ghost log here) and drops the cached
    regionalisation parameters of the locations whose KML changed. */
module Locations {
  import opened Common
  import opened JavaText

  datatype Location = Location(id: int, name: Option<string>, hasKmz: bool)

  /** LocationComparator.getSafeName: "" for a missing location or name. */
  function SafeName(loc: Option<Location>): string {
    match loc
    case None => ""
    case Some(l) => if l.name.None? then "" else ToLowerCase(l.name.value)
  }

  /** LocationComparator.compare. */
  function Compare(a: Option<Location>, b: Option<Location>): int {
    CompareTo(SafeName(a), SafeName(b))
  }

  /** A null location, or one without a name, sorts before every other one
      and ties with the others of its kind. */
  lemma NamelessFirst(l: Location, other: Option<Location>)
    requires l.name.None?
    ensures Compare(None, other) <= 0 && Compare(Some(l), other) <= 0
    ensures Compare(None, Some(l)) == 0
  {
  }

  /** The names compare case-insensitively for ASCII letters. */
  lemma {:induction false} CaseInsensitive(a: Location, b: Location)
    requires a.name.Some? && b.name.Some?
    requires ToLowerCase(a.name.value) == ToLowerCase(b.name.value)
    ensures Compare(Some(a), Some(b)) == 0
  {
    CompareToZero(ToLowerCase(a.name.value), ToLowerCase(b.name.value));
  }

  predicate NameOrder(a: Location, b: Location) {
    Compare(Some(a), Some(b)) <= 0
  }

  /** The comparator meets Comparator's contract, so sorting with it is meaningful. */
  lemma NameOrderIsTotalPreorder()
    ensures TotalPreorder(NameOrder)
  {
    forall a, b ensures NameOrder(a, b) || NameOrder(b, a) {
      CompareToAntisymmetric(SafeName(Some(a)), SafeName(Some(b)));
    }
    forall a, b, c | NameOrder(a, b) && NameOrder(b, c) ensures NameOrder(a, c) {
      CompareToTransitive(SafeName(Some(a)), SafeName(Some(b)), SafeName(Some(c)));
    }
  }

  /** What the DAO and the parameter repositories are asked to do. */
  datatype DaoOp =
    | Insert(loc: Location)
    | Delete(loc: Location)
    | Update(loc: Location, kmzLoaded: bool)
    | RemoveParameter(methodRefId: string, shapeFile: string, locationId: int)
    | SavedHandlerCalled(handler: int)

  /** An impact method that has a shape-file folder, with its shape files. */
  datatype ShapeMethod = ShapeMethod(refId: string, shapeFiles: seq<string>)

  /** order enumerates the set s, each element once (an iteration of a HashSet). */
  ghost predicate Listing(order: seq<Location>, s: set<Location>) {
    Distinct(order) && forall x :: x in order <==> x in s
  }

  function InsertOps(order: seq<Location>): seq<DaoOp> {
    seq(|order|, i requires 0 <= i < |order| => Insert(order[i]))
  }

  function DeleteOps(order: seq<Location>): seq<DaoOp> {
    seq(|order|, i requires 0 <= i < |order| => Delete(order[i]))
  }

  /** A changed location without KMZ data gets it loaded before the update. */
  function UpdateOps(order: seq<Location>): seq<DaoOp> {
    seq(|order|, i requires 0 <= i < |order| => Update(order[i], !order[i].hasKmz))
  }

  function HandlerOps(handlers: seq<int>): seq<DaoOp> {
    seq(|handlers|, i requires 0 <= i < |handlers| => SavedHandlerCalled(handlers[i]))
  }

  function LocationParamOps(refId: string, shapeFile: string, kml: seq<Location>): seq<DaoOp> {
    seq(|kml|, i requires 0 <= i < |kml| => RemoveParameter(refId, shapeFile, kml[i].id))
  }

  function FileParamOps(refId: string, files: seq<string>, kml: seq<Location>): seq<DaoOp> {
    if files == [] then []
    else FileParamOps(refId, files[..|files| - 1], kml) + LocationParamOps(refId, files[|files| - 1], kml)
  }

  /** The parameter removals of doSave, method by method, file by file. */
  function ParamOps(methods: seq<ShapeMethod>, kml: seq<Location>): seq<DaoOp> {
    if methods == [] then []
    else
      var m := methods[|methods| - 1];
      ParamOps(methods[..|methods| - 1], kml) + FileParamOps(m.refId, m.shapeFiles, kml)
  }

  lemma {:induction false} FileParamOpsExact(refId: string, files: seq<string>, kml: seq<Location>, op: DaoOp)
    ensures op in FileParamOps(refId, files, kml) <==>
      op.RemoveParameter? && op.methodRefId == refId && op.shapeFile in files
      && exists l :: l in kml && l.id == op.locationId
  {
    if files != [] {
      var init, f := files[..|files| - 1], files[|files| - 1];
      FileParamOpsExact(refId, init, kml, op);
      assert files == init + [f];
      if op.RemoveParameter? && op.methodRefId == refId && op.shapeFile == f
        && exists l :: l in kml && l.id == op.locationId
      {
        var l :| l in kml && l.id == op.locationId;
        var i :| 0 <= i < |kml| && kml[i] == l;
        assert LocationParamOps(refId, f, kml)[i] == op;
      }
    }
  }

  /** Exactly the parameters of every (method, shape file, KML-changed location)
      triple are removed. */
  lemma {:induction false} ParamOpsExact(methods: seq<ShapeMethod>, kml: seq<Location>, op: DaoOp)
    ensures op in ParamOps(methods, kml) <==>
      op.RemoveParameter?
      && (exists m :: m in methods && m.refId == op.methodRefId && op.shapeFile in m.shapeFiles)
      && exists l :: l in kml && l.id == op.locationId
  {
    if methods != [] {
      var init, m := methods[..|methods| - 1], methods[|methods| - 1];
      ParamOpsExact(init, kml, op);
      FileParamOpsExact(m.refId, m.shapeFiles, kml, op);
      assert methods == init + [m];
    }
  }

  /** Enumerates a set, as the editor's for-each loops over its HashSets do. */
  method ListSet(s: set<Location>) returns (order: seq<Location>)
    ensures Listing(order, s)
  {
    order := [];
    var rest := s;
    while rest != {}
      invariant rest <= s
      invariant Distinct(order)
      invariant forall x :: x in order <==> x in s && x !in rest
      decreases rest
    {
      var x :| x in rest;
      order := order + [x];
      rest := rest - {x};
    }
  }

  class LocationsEditor {
    var locations: seq<Location>
    var added: set<Location>
    var removed: set<Location>
    var changed: set<Location>
    var kmlChanged: set<Location>
    var dirty: bool
    /** How often editorDirtyStateChanged was fired. */
    var dirtyEvents: nat
    var savedHandlers: seq<int>
    ghost var daoLog: seq<DaoOp>

    /** A location pending removal is never pending an update, and its
        regionalisation parameters are always marked for removal. */
    ghost predicate Valid()
      reads this
    {
      changed !! removed && removed <= kmlChanged
    }

    /** init: the locations come from the DAO (without KMZ) sorted by name. */
    constructor (rows: seq<Location>)
      ensures Valid()
      ensures SortedBy(locations, NameOrder) && multiset(locations) == multiset(rows)
      ensures added == {} && removed == {} && changed == {} && kmlChanged == {}
      ensures !dirty && dirtyEvents == 0 && savedHandlers == [] && daoLog == []
    {
      NameOrderIsTotalPreorder();
      var sorted := SortBy(rows, NameOrder);
      locations := sorted;
      added, removed, changed, kmlChanged := {}, {}, {}, {};
      dirty, dirtyEvents := false, 0;
      savedHandlers := [];
      daoLog := [];
    }

    method OnSaved(handler: int)
      modifies this
      ensures savedHandlers == old(savedHandlers) + [handler]
      ensures unchanged(this`locations, this`added, this`removed, this`changed, this`kmlChanged)
      ensures unchanged(this`dirty, this`dirtyEvents, this`daoLog)
    {
      savedHandlers := savedHandlers + [handler];
    }

    /** The flag and the notification change only when the value differs. */
    method SetDirty(b: bool)
      modifies this`dirty, this`dirtyEvents
      ensures dirty == b
      ensures dirtyEvents == old(dirtyEvents) + (if old(dirty) == b then 0 else 1)
    {
      if dirty == b {
        return;
      }
      dirty := b;
      dirtyEvents := dirtyEvents + 1;
    }

    method LocationAdded(loc: Location)
      requires Valid()
      modifies this
      ensures Valid()
      ensures added == old(added) + {loc}
      ensures locations == [loc] + old(locations)
      ensures unchanged(this`removed, this`changed, this`kmlChanged, this`savedHandlers, this`daoLog)
      ensures dirty && dirtyEvents == old(dirtyEvents) + (if old(dirty) then 0 else 1)
    {
      added := added + {loc};
      locations := [loc] + locations;
      SetDirty(true);
    }

    method LocationRemoved(loc: Location)
      requires Valid()
      modifies this
      ensures Valid()
      ensures old(loc in added) ==> added == old(added) - {loc} && removed == old(removed)
      ensures old(loc !in added) ==> added == old(added) && removed == old(removed) + {loc}
      ensures changed == old(changed) - {loc}
      ensures kmlChanged == old(kmlChanged) + {loc}
      ensures locations == RemoveFirst(old(locations), loc)
      ensures unchanged(this`savedHandlers, this`daoLog)
      ensures dirty && dirtyEvents == old(dirtyEvents) + (if old(dirty) then 0 else 1)
    {
      var added', removed' := added, removed;
      if loc in added {
        added' := added - {loc};
      } else {
        removed' := removed + {loc};
      }
      ForgetChanges(loc);
      added, removed, locations, kmlChanged := added', removed', RemoveFirst(locations, loc), kmlChanged + {loc};
      SetDirty(true);
    }

    /** The guarded removals of locationRemoved from the two change sets. */
    method ForgetChanges(loc: Location)
      modifies this`changed, this`kmlChanged
      ensures changed == old(changed) - {loc} && kmlChanged == old(kmlChanged) - {loc}
    {
      if loc in changed {
        changed := changed - {loc};
      }
      if loc in kmlChanged {
        kmlChanged := kmlChanged - {loc};
      }
    }

    /** A location that is pending insertion or deletion is not recorded as changed. */
    method LocationChanged(loc: Location)
      requires Valid()
      modifies this
      ensures Valid()
      ensures old(loc in added || loc in removed) ==>
        changed == old(changed) && dirty == old(dirty) && dirtyEvents == old(dirtyEvents)
      ensures old(loc !in added && loc !in removed) ==>
        changed == old(changed) + {loc} && dirty
        && dirtyEvents == old(dirtyEvents) + (if old(dirty) then 0 else 1)
      ensures unchanged(this`locations, this`added, this`removed, this`kmlChanged)
      ensures unchanged(this`savedHandlers, this`daoLog)
    {
      if loc in added {
        return;
      }
      if loc in removed {
        return;
      }
      changed := changed + {loc};
      SetDirty(true);
    }

    /** A KML change is always recorded, even where the change itself is not. */
    method LocationKmlChanged(loc: Location)
      requires Valid()
      modifies this
      ensures Valid()
      ensures changed == if old(loc in added || loc in removed) then old(changed) else old(changed) + {loc}
      ensures kmlChanged == old(kmlChanged) + {loc}
      ensures dirty && dirtyEvents == old(dirtyEvents) + (if old(dirty) then 0 else 1)
      ensures unchanged(this`locations, this`added, this`removed, this`savedHandlers, this`daoLog)
    {
      LocationChanged(loc);
      kmlChanged := kmlChanged + {loc};
      SetDirty(true);
    }

    /** updateModel: forgets the pending changes except the KML ones and
        reloads the list (rows is what the DAO returns). */
    method UpdateModel(rows: seq<Location>)
      requires Valid()
      modifies this
      ensures Valid()
      ensures added == {} && removed == {} && changed == {}
      ensures SortedBy(locations, NameOrder) && multiset(locations) == multiset(rows)
      ensures unchanged(this`kmlChanged, this`dirty, this`dirtyEvents, this`savedHandlers, this`daoLog)
    {
      added := {};
      removed := {};
      changed := {};
      NameOrderIsTotalPreorder();
      var sorted := SortBy(rows, NameOrder);
      locations := sorted;
    }

    /** doSave. shapeDirExists says whether the database has a shape-file
        folder, methods lists the impact methods with their shape files, and
        rows is what the DAO returns when the list is reloaded. */
    method DoSave(shapeDirExists: bool, methods: seq<ShapeMethod>, rows: seq<Location>)
      returns (ghost ins: seq<Location>, ghost del: seq<Location>, ghost upd: seq<Location>,
               ghost kml: seq<Location>)
      requires Valid()
      modifies this
      ensures Valid()
      ensures Listing(ins, old(added)) && Listing(del, old(removed)) && Listing(upd, old(changed))
      ensures added == {} && removed == {}
      ensures unchanged(this`kmlChanged, this`savedHandlers)
      ensures !shapeDirExists ==>
        && daoLog == old(daoLog) + InsertOps(ins) + DeleteOps(del) + UpdateOps(upd)
        && changed == old(changed)
        && locations == old(locations)
        && dirty == old(dirty) && dirtyEvents == old(dirtyEvents)
      ensures shapeDirExists ==>
        && Listing(kml, old(kmlChanged))
        && daoLog == old(daoLog) + InsertOps(ins) + DeleteOps(del) + UpdateOps(upd)
                     + ParamOps(methods, kml) + HandlerOps(savedHandlers)
        && changed == {}
        && SortedBy(locations, NameOrder) && multiset(locations) == multiset(rows)
        && !dirty && dirtyEvents == old(dirtyEvents) + (if old(dirty) then 1 else 0)
    {
      var insOrder := ListSet(added);
      ins := insOrder;
      LogInserts(insOrder);
      var delOrder := ListSet(removed);
      del := delOrder;
      LogDeletes(delOrder);
      var updOrder := ListSet(changed);
      upd := updOrder;
      LogUpdates(updOrder);
      added, removed := {}, {};

      if !shapeDirExists {
        kml := [];
        return;
      }
      var kmlOrder := ListSet(kmlChanged);
      kml := kmlOrder;
      RemoveParameters(methods, kmlOrder);
      changed := {};
      UpdateModel(rows);
      CallSavedHandlers();
      SetDirty(false);
    }

    /** The loop of doSave inserting the added locations. */
    method LogInserts(xs: seq<Location>)
      modifies this`daoLog
      ensures daoLog == old(daoLog) + InsertOps(xs)
    {
      for i := 0 to |xs|
        invariant daoLog == old(daoLog) + InsertOps(xs[..i])
      {
        daoLog := daoLog + [Insert(xs[i])];
        assert InsertOps(xs[..i + 1]) == InsertOps(xs[..i]) + [Insert(xs[i])];
      }
      assert xs[..|xs|] == xs;
    }

    /** The loop of doSave deleting the removed locations. */
    method LogDeletes(xs: seq<Location>)
      modifies this`daoLog
      ensures daoLog == old(daoLog) + DeleteOps(xs)
    {
      for i := 0 to |xs|
        invariant daoLog == old(daoLog) + DeleteOps(xs[..i])
      {
        daoLog := daoLog + [Delete(xs[i])];
        assert DeleteOps(xs[..i + 1]) == DeleteOps(xs[..i]) + [Delete(xs[i])];
      }
      assert xs[..|xs|] == xs;
    }

    /** The loop of doSave updating the changed locations; a location without
        KMZ data first has its KMZ loaded from the database, so the update
        does not overwrite the stored KMZ with null. */
    method LogUpdates(xs: seq<Location>)
      modifies this`daoLog
      ensures daoLog == old(daoLog) + UpdateOps(xs)
    {
      for i := 0 to |xs|
        invariant daoLog == old(daoLog) + UpdateOps(xs[..i])
      {
        daoLog := daoLog + [Update(xs[i], !xs[i].hasKmz)];
        assert UpdateOps(xs[..i + 1]) == UpdateOps(xs[..i]) + [Update(xs[i], !xs[i].hasKmz)];
      }
      assert xs[..|xs|] == xs;
    }

    /** The nested loops of doSave over methods, shape files and KML-changed locations. */
    method RemoveParameters(methods: seq<ShapeMethod>, kml: seq<Location>)
      modifies this`daoLog
      ensures daoLog == old(daoLog) + ParamOps(methods, kml)
    {
      for i := 0 to |methods|
        invariant daoLog == old(daoLog) + ParamOps(methods[..i], kml)
      {
        RemoveMethodParameters(methods[i].refId, methods[i].shapeFiles, kml);
        assert methods[..i + 1][..i] == methods[..i];
      }
      assert methods[..|methods|] == methods;
    }

    /** The loop of doSave over the shape files of one impact method. */
    method RemoveMethodParameters(refId: string, files: seq<string>, kml: seq<Location>)
      modifies this`daoLog
      ensures daoLog == old(daoLog) + FileParamOps(refId, files, kml)
    {
      for j := 0 to |files|
        invariant daoLog == old(daoLog) + FileParamOps(refId, files[..j], kml)
      {
        RemoveFileParameters(refId, files[j], kml);
        assert files[..j + 1][..j] == files[..j];
      }
      assert files[..|files|] == files;
    }

    /** The loop of doSave over the KML-changed locations for one shape file. */
    method RemoveFileParameters(refId: string, file: string, kml: seq<Location>)
      modifies this`daoLog
      ensures daoLog == old(daoLog) + LocationParamOps(refId, file, kml)
    {
      for k := 0 to |kml|
        invariant daoLog == old(daoLog) + LocationParamOps(refId, file, kml[..k])
      {
        daoLog := daoLog + [RemoveParameter(refId, file, kml[k].id)];
        assert LocationParamOps(refId, file, kml[..k + 1])
          == LocationParamOps(refId, file, kml[..k]) + [RemoveParameter(refId, file, kml[k].id)];
      }
      assert kml[..|kml|] == kml;
    }

    method CallSavedHandlers()
      modifies this`daoLog
      ensures daoLog == old(daoLog) + HandlerOps(savedHandlers)
    {
      for i := 0 to |savedHandlers|
        invariant daoLog == old(daoLog) + HandlerOps(savedHandlers[..i])
      {
        daoLog := daoLog + [SavedHandlerCalled(savedHandlers[i])];
        assert HandlerOps(savedHandlers[..i + 1])
          == HandlerOps(savedHandlers[..i]) + [SavedHandlerCalled(savedHandlers[i])];
      }
      assert savedHandlers[..|savedHandlers|] == savedHandlers;
    }
  }
}
