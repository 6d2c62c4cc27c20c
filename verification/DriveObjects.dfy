/** Files rows and their stored objects: uploads, deletes and orphan sweeps whose single storage and database calls
    interleave and may fail. A file's storage key is derived from its fresh id, so one id names both. */
module DriveObjects {
  import opened Wrappers

  type Id = nat

  // ----- the service, one call at a time -----

  /** What the storage backend does with one call: whether it reports success, and whether it took effect. */
  datatype Effect = Effect(ok: bool, done: bool)

  /** An upload as the decoder reads it; `header` is None when the bytes are no image. */
  datatype Image = Image(size: nat, header: Option<Header>)
  datatype Header = Header(format: string, width: int, height: int)
  datatype Limits = Limits(maxBytes: int, maxWidth: int, maxHeight: int)
  datatype Refusal = TooLarge | InvalidImage | StorageFailed | RowFailed

  predicate AllowedFormat(format: string) {
    format == "png" || format == "jpeg" || format == "webp"
  }

  predicate ValidImage(image: Image, limits: Limits) {
    && image.header.Some?
    && AllowedFormat(image.header.value.format)
    && 0 < image.header.value.width <= limits.maxWidth
    && 0 < image.header.value.height <= limits.maxHeight
  }

  class DriveStore {
    const limits: Limits
    var objects: set<Id>
    var rows: set<Id>

    constructor (limits: Limits)
      ensures objects == {} && rows == {} && this.limits == limits
    {
      this.limits := limits;
      objects, rows := {}, {};
    }

    method ValidateImage(image: Image) returns (ok: bool)
      ensures ok <==> ValidImage(image, limits)
    {
      if image.header.None? { return false; }
      var header := image.header.value;
      if !AllowedFormat(header.format) { return false; }
      if header.width <= 0 || header.height <= 0 { return false; }
      ok := header.width <= limits.maxWidth && header.height <= limits.maxHeight;
    }

    /** A refused image reaches neither table nor storage. Any other upload ends with row and object, or without the
        row; a failed insert is cleaned up best-effort. */
    method StoreImage(id: Id, image: Image, put: Effect, insertOk: bool, cleanup: Effect)
      returns (refused: Option<Refusal>)
      requires id !in objects && id !in rows
      requires put.ok ==> put.done
      modifies this
      ensures refused == Some(TooLarge) <==> image.size > limits.maxBytes
      ensures refused == Some(InvalidImage) <==> image.size <= limits.maxBytes && !ValidImage(image, limits)
      ensures refused == Some(TooLarge) || refused == Some(InvalidImage) ==> objects == old(objects)
      ensures refused == Some(StorageFailed) ==> objects == old(objects) + if put.done then {id} else {}
      ensures refused == Some(RowFailed) ==> objects == old(objects) + if cleanup.done then {} else {id}
      ensures refused == None ==> objects == old(objects) + {id}
      ensures refused == None || refused == Some(RowFailed) ==> put.ok && insertOk == refused.None?
      ensures refused == Some(StorageFailed) ==> !put.ok
      ensures rows == old(rows) + if refused.None? then {id} else {}
    {
      if image.size > limits.maxBytes { return Some(TooLarge); }
      var valid := ValidateImage(image);
      if !valid { return Some(InvalidImage); }
      if put.done { objects := objects + {id}; }
      if !put.ok { return Some(StorageFailed); }
      if !insertOk {
        if cleanup.done { objects := objects - {id}; }
        return Some(RowFailed);
      }
      rows := rows + {id};
      refused := None;
    }

    /** A file attached to a note is kept; otherwise its row goes, and its object if the backend manages. */
    method DeleteFile(id: Id, attached: nat, delete: Effect) returns (ok: bool)
      modifies this
      ensures ok == (id in old(rows) && attached == 0)
      ensures rows == if ok then old(rows) - {id} else old(rows)
      ensures objects == if ok && delete.done then old(objects) - {id} else old(objects)
    {
      if id !in rows || attached > 0 { return false; }
      rows := rows - {id};
      if delete.done { objects := objects - {id}; }
      ok := true;
    }

    /** A sweep alone deletes every unreferenced object except those whose deletion fails, and counts both. */
    method RunOrphanGC(keys: seq<Id>, failing: set<Id>) returns (deleted: nat, errors: nat)
      requires forall id :: id in keys <==> id in objects
      requires forall i, j :: 0 <= i < j < |keys| ==> keys[i] != keys[j]
      modifies this`objects
      ensures objects == old(objects) - ((old(objects) - rows) - failing)
      ensures deleted == |old(objects) - objects|
      ensures deleted + errors == |old(objects) - rows|
      ensures errors == 0 <==> objects <= rows
    {
      var referenced := rows;
      deleted, errors := 0, 0;
      for i := 0 to |keys|
        invariant rows == old(rows) && referenced == rows
        invariant SweepKeys(Swept(objects, deleted, errors), keys[i..], rows, failing)
               == SweepKeys(Swept(old(objects), 0, 0), keys, rows, failing)
      {
        assert keys[i..][1..] == keys[i + 1..];
        var key := keys[i];
        if key in referenced { continue; }
        if key in failing {
          errors := errors + 1;
          continue;
        }
        objects := objects - {key};
        deleted := deleted + 1;
      }
      SweepRemoves(Swept(old(objects), 0, 0), keys, rows, failing);
      SweepCounts(Swept(old(objects), 0, 0), keys, rows, failing);
      OrphanSets(keys, old(objects), rows, failing);
      SweepTotals(old(objects), rows, failing);
    }
  }

  datatype Swept = Swept(objects: set<Id>, deleted: nat, errors: nat)

  function SweepKey(s: Swept, key: Id, rows: set<Id>, failing: set<Id>): Swept {
    if key in rows then s
    else if key in failing then s.(errors := s.errors + 1)
    else s.(objects := s.objects - {key}, deleted := s.deleted + 1)
  }

  /** The sweep's loop over the listed keys. */
  function SweepKeys(s: Swept, keys: seq<Id>, rows: set<Id>, failing: set<Id>): Swept
    decreases |keys|
  {
    if keys == [] then s
    else SweepKeys(SweepKey(s, keys[0], rows, failing), keys[1..], rows, failing)
  }

  predicate IsOrphan(key: Id, rows: set<Id>, failing: set<Id>, fails: bool) {
    key !in rows && (key in failing) == fails
  }

  /** The listed orphans whose deletion fails, or those whose deletion does not. */
  function Orphans(keys: seq<Id>, rows: set<Id>, failing: set<Id>, fails: bool): set<Id>
    decreases |keys|
  {
    if keys == [] then {}
    else
      var rest := Orphans(keys[1..], rows, failing, fails);
      if IsOrphan(keys[0], rows, failing, fails) then {keys[0]} + rest else rest
  }

  lemma {:induction false} OrphanIsListed(keys: seq<Id>, rows: set<Id>, failing: set<Id>, fails: bool, id: Id)
    ensures id in Orphans(keys, rows, failing, fails) <==> id in keys && IsOrphan(id, rows, failing, fails)
    decreases |keys|
  {
    if keys != [] {
      OrphanIsListed(keys[1..], rows, failing, fails, id);
      assert id in keys <==> id == keys[0] || id in keys[1..];
    }
  }

  lemma OrphanSets(keys: seq<Id>, all: set<Id>, rows: set<Id>, failing: set<Id>)
    requires forall id :: id in keys <==> id in all
    ensures Orphans(keys, rows, failing, false) == (all - rows) - failing
    ensures Orphans(keys, rows, failing, true) == (all - rows) * failing
  {
    forall id ensures id in Orphans(keys, rows, failing, false) <==> id in (all - rows) - failing {
      OrphanIsListed(keys, rows, failing, false, id);
    }
    forall id ensures id in Orphans(keys, rows, failing, true) <==> id in (all - rows) * failing {
      OrphanIsListed(keys, rows, failing, true, id);
    }
  }

  /** The loop removes the listed orphans whose deletion does not fail. */
  lemma {:induction false} SweepRemoves(s: Swept, keys: seq<Id>, rows: set<Id>, failing: set<Id>)
    ensures SweepKeys(s, keys, rows, failing).objects == s.objects - Orphans(keys, rows, failing, false)
    decreases |keys|
  {
    if keys != [] {
      SweepRemoves(SweepKey(s, keys[0], rows, failing), keys[1..], rows, failing);
      var gone := Orphans(keys[1..], rows, failing, false);
      assert (s.objects - {keys[0]}) - gone == s.objects - ({keys[0]} + gone);
    }
  }

  /** The loop counts every listed orphan once. */
  lemma {:induction false} SweepCounts(s: Swept, keys: seq<Id>, rows: set<Id>, failing: set<Id>)
    requires forall i, j :: 0 <= i < j < |keys| ==> keys[i] != keys[j]
    ensures SweepKeys(s, keys, rows, failing).deleted == s.deleted + |Orphans(keys, rows, failing, false)|
    ensures SweepKeys(s, keys, rows, failing).errors == s.errors + |Orphans(keys, rows, failing, true)|
    decreases |keys|
  {
    if keys != [] {
      var key := keys[0];
      assert key !in keys[1..];
      OrphanIsListed(keys[1..], rows, failing, false, key);
      OrphanIsListed(keys[1..], rows, failing, true, key);
      SweepCounts(SweepKey(s, key, rows, failing), keys[1..], rows, failing);
    }
  }

  /** Deleted and failed orphans add up to all orphans, and the failed ones are what remains unreferenced. */
  lemma SweepTotals(all: set<Id>, rows: set<Id>, failing: set<Id>)
    ensures var gone, stuck := (all - rows) - failing, (all - rows) * failing;
            && |gone| + |stuck| == |all - rows|
            && all - (all - gone) == gone
            && (|stuck| == 0 <==> all - gone <= rows)
  {
    var gone, stuck := (all - rows) - failing, (all - rows) * failing;
    assert gone + stuck == all - rows;
    assert stuck == (all - gone) - rows;
    if all - gone <= rows {
      assert stuck == {};
    }
  }

  // ----- calls interleaved -----

  datatype Upload = Putting | Stored | CleaningUp
  datatype Sweep = Listed(keys: set<Id>) | Deleting(todo: set<Id>)

  /** `condemned` and `swept` are history: the ids any sweep found unreferenced, and those a sweep deleted. */
  datatype World = World(objects: set<Id>, rows: set<Id>, uploads: map<Id, Upload>, dropping: set<Id>,
                         sweeps: map<nat, Sweep>, nextId: Id, condemned: set<Id>, swept: set<Id>)

  datatype Event =
    | BeginUpload
    | Put(id: Id, put: Effect)
    | InsertRow(id: Id, ok: bool)
    | CleanUp(id: Id, delete: Effect)
    | AbandonUpload(id: Id)
    | DeleteRow(id: Id)
    | DeleteObject(id: Id, delete: Effect)
    | ListObjects(sweep: nat)
    | ReadRows(sweep: nat)
    | DeleteOrphan(sweep: nat, id: Id, delete: Effect)
    | EndSweep(sweep: nat)

  predicate UploadIs(w: World, id: Id, u: Upload) {
    id in w.uploads && w.uploads[id] == u
  }

  predicate Enabled(w: World, e: Event) {
    match e
    case BeginUpload => true
    case Put(id, put) => UploadIs(w, id, Putting) && (put.ok ==> put.done)
    case InsertRow(id, _) => UploadIs(w, id, Stored)
    case CleanUp(id, _) => UploadIs(w, id, CleaningUp)
    case AbandonUpload(_) => true
    case DeleteRow(id) => id in w.rows
    case DeleteObject(id, _) => id in w.dropping
    case ListObjects(s) => s !in w.sweeps
    case ReadRows(s) => s in w.sweeps && w.sweeps[s].Listed?
    case DeleteOrphan(s, id, _) => s in w.sweeps && w.sweeps[s].Deleting? && id in w.sweeps[s].todo
    case EndSweep(_) => true
  }

  function Step(w: World, e: Event): World {
    if !Enabled(w, e) then w else
    match e
    case BeginUpload => w.(uploads := w.uploads[w.nextId := Putting], nextId := w.nextId + 1)
    case Put(id, put) =>
      w.(objects := if put.done then w.objects + {id} else w.objects,
         uploads := if put.ok then w.uploads[id := Stored] else w.uploads - {id})
    case InsertRow(id, ok) =>
      if ok then w.(rows := w.rows + {id}, uploads := w.uploads - {id})
      else w.(uploads := w.uploads[id := CleaningUp])
    case CleanUp(id, delete) =>
      w.(objects := if delete.done then w.objects - {id} else w.objects, uploads := w.uploads - {id})
    case AbandonUpload(id) => w.(uploads := w.uploads - {id})
    case DeleteRow(id) => w.(rows := w.rows - {id}, dropping := w.dropping + {id})
    case DeleteObject(id, delete) =>
      w.(objects := if delete.done then w.objects - {id} else w.objects, dropping := w.dropping - {id})
    case ListObjects(s) => w.(sweeps := w.sweeps[s := Listed(w.objects)])
    case ReadRows(s) =>
      var orphans := w.sweeps[s].keys - w.rows;
      w.(sweeps := w.sweeps[s := Deleting(orphans)], condemned := w.condemned + orphans)
    case DeleteOrphan(s, id, delete) =>
      w.(objects := if delete.done then w.objects - {id} else w.objects,
         swept := if delete.done then w.swept + {id} else w.swept,
         sweeps := w.sweeps[s := Deleting(w.sweeps[s].todo - {id})])
    case EndSweep(s) => w.(sweeps := w.sweeps - {s})
  }

  function Run(w: World, es: seq<Event>): World
    decreases |es|
  {
    if es == [] then w else Run(Step(w, es[0]), es[1..])
  }

  const EMPTY := World({}, {}, map[], {}, map[], 0, {}, {})

  /** A sweep has taken the object, or has found it unreferenced and not come to it yet. */
  predicate Exposed(w: World, id: Id) {
    id !in w.objects || exists s :: s in w.sweeps && w.sweeps[s].Deleting? && id in w.sweeps[s].todo
  }

  /** A row is inserted for an exposed upload: its object was put before that sweep's listing, and its row comes after
      that sweep read the rows. */
  predicate Disturbs(w: World, e: Event) {
    e.InsertRow? && e.ok && UploadIs(w, e.id, Stored) && Exposed(w, e.id)
  }

  predicate Undisturbed(w: World, es: seq<Event>)
    decreases |es|
  {
    es == [] || (!Disturbs(w, es[0]) && Undisturbed(Step(w, es[0]), es[1..]))
  }

  /** Ids are used once, and every stored upload and every row has its object unless a sweep deleted it. */
  ghost predicate Accounted(w: World) {
    && (forall id :: id in w.objects || id in w.rows || id in w.uploads || id in w.dropping || id in w.condemned
          ==> id < w.nextId)
    && w.rows !! w.dropping
    && (forall id :: id in w.uploads ==> id !in w.rows && id !in w.dropping)
    && (forall s :: s in w.sweeps && w.sweeps[s].Listed? ==> forall id :: id in w.sweeps[s].keys ==> id < w.nextId)
    && (forall s :: s in w.sweeps && w.sweeps[s].Deleting? ==> w.sweeps[s].todo <= w.condemned)
    && w.swept <= w.condemned
    && (forall id :: id in w.rows || UploadIs(w, id, Stored) ==> (id in w.objects <==> id !in w.swept))
    && (forall id :: UploadIs(w, id, Putting) ==> Unseen(w, id))
  }

  /** No object, no sweep and no verdict knows the id yet. */
  ghost predicate Unseen(w: World, id: Id) {
    && id !in w.objects && id !in w.condemned
    && forall s :: s in w.sweeps && w.sweeps[s].Listed? ==> id !in w.sweeps[s].keys
  }

  lemma StepAccounted(w: World, e: Event)
    requires Accounted(w)
    ensures Accounted(Step(w, e))
  {
    var w' := Step(w, e);
    if Enabled(w, e) {
      forall id | UploadIs(w', id, Putting) ensures Unseen(w', id) {
        assert id == w.nextId || UploadIs(w, id, Putting);
        assert Unseen(w, id);
      }
      if e.DeleteOrphan? { assert e.id in w.condemned; }
    }
  }

  lemma {:induction false} RunAccounted(w: World, es: seq<Event>)
    requires Accounted(w)
    ensures Accounted(Run(w, es))
    decreases |es|
  {
    if es != [] {
      StepAccounted(w, es[0]);
      RunAccounted(Step(w, es[0]), es[1..]);
    }
  }

  /** In every run whatsoever, a row is without its object exactly when a sweep deleted that object, and a sweep
      only deletes what it condemned. */
  lemma RowsLoseOnlySweptObjects(es: seq<Event>, id: Id)
    requires id in Run(EMPTY, es).rows
    ensures var w := Run(EMPTY, es);
            (id !in w.objects <==> id in w.swept) && (id !in w.objects ==> id in w.condemned)
  {
    RunAccounted(EMPTY, es);
  }

  // ----- exactly which rows lose their object -----

  /** The id's upload is over, and its row, if there still is one, is safe from every sweep. */
  ghost predicate RowSafe(w: World, id: Id) {
    id < w.nextId && id !in w.uploads && (id in w.rows ==> !Exposed(w, id))
  }

  lemma StepKeepsRowSafe(w: World, e: Event, id: Id)
    requires Accounted(w) && RowSafe(w, id)
    ensures RowSafe(Step(w, e), id)
  {
    var w' := Step(w, e);
    if id in w'.rows {
      forall s | s in w'.sweeps && w'.sweeps[s].Deleting? ensures id !in w'.sweeps[s].todo {
        assert s in w.sweeps && w.sweeps[s].Deleting? ==> id !in w.sweeps[s].todo;
      }
      assert id in w'.objects;
    }
  }

  lemma {:induction false} RunKeepsRowSafe(w: World, es: seq<Event>, id: Id)
    requires Accounted(w) && RowSafe(w, id)
    ensures Keeps(w, id, es)
    decreases |es|
  {
    if es != [] {
      StepAccounted(w, es[0]);
      StepKeepsRowSafe(w, es[0], id);
      RunKeepsRowSafe(Step(w, es[0]), es[1..], id);
    }
  }

  /** After these events the row, if there still is one, has its object. */
  predicate Keeps(w: World, id: Id, es: seq<Event>) {
    id in Run(w, es).rows ==> id in Run(w, es).objects
  }

  /** Whatever happens from here on, the row keeps its object as long as it exists. */
  ghost predicate AlwaysKeeps(w: World, id: Id) {
    forall es :: Keeps(w, id, es)
  }

  const DELETES := Effect(true, true)

  lemma ExposedRowLosesObject(w: World, id: Id)
    requires id in w.rows && Exposed(w, id)
    ensures !AlwaysKeeps(w, id)
  {
    if id !in w.objects {
      assert !Keeps(w, id, []);
    } else {
      var s :| s in w.sweeps && w.sweeps[s].Deleting? && id in w.sweeps[s].todo;
      var e := DeleteOrphan(s, id, DELETES);
      assert [e][1..] == [] && Run(w, [e]) == Run(Step(w, e), []);
      assert !Keeps(w, id, [e]);
    }
  }

  lemma KeepsExactly(w: World, id: Id)
    requires Accounted(w) && id in w.rows
    ensures AlwaysKeeps(w, id) <==> !Exposed(w, id)
  {
    if Exposed(w, id) {
      ExposedRowLosesObject(w, id);
    } else {
      assert id !in w.uploads;
      forall es ensures Keeps(w, id, es) { RunKeepsRowSafe(w, es, id); }
    }
  }

  /** In every reachable state a row keeps its object in every continuation if and only if the object is there and on
      no deleting sweep's list. */
  lemma RowKeepsObjectExactly(before: seq<Event>, id: Id)
    requires id in Run(EMPTY, before).rows
    ensures AlwaysKeeps(Run(EMPTY, before), id) <==> !Exposed(Run(EMPTY, before), id)
  {
    RunAccounted(EMPTY, before);
    KeepsExactly(Run(EMPTY, before), id);
  }

  /** The same seen before the insert: what a row about to be inserted can lose is decided by then. */
  lemma InsertedRowKeepsObjectExactly(before: seq<Event>, id: Id)
    requires UploadIs(Run(EMPTY, before), id, Stored)
    ensures var w := Run(EMPTY, before);
            AlwaysKeeps(Step(w, InsertRow(id, true)), id) <==> !Exposed(w, id)
  {
    var w := Run(EMPTY, before);
    RunAccounted(EMPTY, before);
    StepAccounted(w, InsertRow(id, true));
    KeepsExactly(Step(w, InsertRow(id, true)), id);
  }

  ghost predicate NoRowExposed(w: World) {
    forall id :: id in w.rows ==> !Exposed(w, id)
  }

  lemma UndisturbedStep(w: World, e: Event)
    requires Accounted(w) && NoRowExposed(w) && !Disturbs(w, e)
    ensures NoRowExposed(Step(w, e))
  {
    var w' := Step(w, e);
    forall id | id in w'.rows ensures !Exposed(w', id) {
      if id in w.rows {
        StepKeepsRowSafe(w, e, id);
      }
    }
  }

  lemma {:induction false} UndisturbedRun(w: World, es: seq<Event>)
    requires Accounted(w) && NoRowExposed(w) && Undisturbed(w, es)
    ensures NoRowExposed(Run(w, es))
    decreases |es|
  {
    if es != [] {
      StepAccounted(w, es[0]);
      UndisturbedStep(w, es[0]);
      UndisturbedRun(Step(w, es[0]), es[1..]);
    }
  }

  /** However uploads, deletes and sweeps interleave and fail, every row keeps its object as long as no row is inserted
      for an exposed upload. */
  lemma RowsKeepObjects(es: seq<Event>)
    requires Undisturbed(EMPTY, es)
    ensures Run(EMPTY, es).rows <= Run(EMPTY, es).objects
  {
    UndisturbedRun(EMPTY, es);
  }

  // ----- a run that loses an object -----

  lemma {:induction false} RunAppend(w: World, es: seq<Event>, fs: seq<Event>)
    ensures Run(w, es + fs) == Run(Run(w, es), fs)
    decreases |es|
  {
    if es == [] {
      assert es + fs == fs;
    } else {
      assert (es + fs)[1..] == es[1..] + fs;
      RunAppend(Step(w, es[0]), es[1..], fs);
    }
  }

  /** A sweep lists the object of an upload and reads the rows before the upload's row is there. */
  const CONDEMN := [BeginUpload, Put(0, DELETES), ListObjects(0), ReadRows(0)]

  lemma StepLast(w: World, es: seq<Event>, e: Event)
    ensures Run(w, es + [e]) == Step(Run(w, es), e)
  {
    RunAppend(w, es, [e]);
    assert [e][1..] == [];
  }

  lemma UploadIsCondemned()
    ensures Run(EMPTY, CONDEMN) == World({0}, {}, map[0 := Stored], {}, map[0 := Deleting({0})], 1, {0}, {})
  {
    assert Run(EMPTY, []) == EMPTY && [] + [CONDEMN[0]] == CONDEMN[..1];
    StepLast(EMPTY, [], CONDEMN[0]);
    assert Run(EMPTY, CONDEMN[..1]) == World({}, {}, map[0 := Putting], {}, map[], 1, {}, {});
    StepLast(EMPTY, CONDEMN[..1], CONDEMN[1]);
    assert CONDEMN[..1] + [CONDEMN[1]] == CONDEMN[..2] && CONDEMN[..2] + [CONDEMN[2]] == CONDEMN[..3];
    assert Run(EMPTY, CONDEMN[..2]) == World({0}, {}, map[0 := Stored], {}, map[], 1, {}, {});
    StepLast(EMPTY, CONDEMN[..2], CONDEMN[2]);
    StepLast(EMPTY, CONDEMN[..3], CONDEMN[3]);
    assert CONDEMN[..3] + [CONDEMN[3]] == CONDEMN;
  }

  /** The row is inserted after that and ends without its object. */
  lemma DisturbedRowLosesObject()
    ensures var w := Run(EMPTY, CONDEMN + [InsertRow(0, true), DeleteOrphan(0, 0, DELETES)]);
            0 in w.rows && 0 !in w.objects
  {
    var es := [InsertRow(0, true), DeleteOrphan(0, 0, DELETES)];
    var w := World({0}, {}, map[0 := Stored], {}, map[0 := Deleting({0})], 1, {0}, {});
    UploadIsCondemned();
    RunAppend(EMPTY, CONDEMN, es);
    StepLast(w, [es[0]], es[1]);
    StepLast(w, [], es[0]);
    assert [] + [es[0]] == [es[0]] && [es[0]] + [es[1]] == es && Run(w, []) == w;
  }

  // ----- the service's operations as events -----

  lemma Undo(m: map<Id, Upload>, id: Id, u: Upload)
    requires id !in m
    ensures m[id := u] - {id} == m
  {
  }

  /** The events of an upload that is stored under the next id. */
  function UploadEvents(id: Id, put: Effect, insertOk: bool, cleanup: Effect): seq<Event> {
    [BeginUpload, Put(id, put), InsertRow(id, insertOk), CleanUp(id, cleanup)]
  }

  lemma RunFour(w: World, a: Event, b: Event, c: Event, d: Event)
    ensures Run(w, [a, b, c, d]) == Step(Step(Step(Step(w, a), b), c), d)
  {
    StepLast(w, [], a);
    StepLast(w, [a], b);
    StepLast(w, [a, b], c);
    StepLast(w, [a, b, c], d);
    assert [] + [a] == [a] && [a] + [b] == [a, b] && [a, b] + [c] == [a, b, c] && [a, b, c] + [d] == [a, b, c, d];
    assert Run(w, []) == w;
  }

  /** An upload alone, step by step, does what the service's method does; events that its outcome skips have no
      effect. */
  lemma UploadAlone(w: World, put: Effect, insertOk: bool, cleanup: Effect)
    requires Accounted(w) && (put.ok ==> put.done)
    ensures var id := w.nextId;
            var w' := Run(w, UploadEvents(id, put, insertOk, cleanup));
      && w'.rows == w.rows + (if put.ok && insertOk then {id} else {})
      && w'.objects == w.objects + (if put.done && !(put.ok && !insertOk && cleanup.done) then {id} else {})
      && w'.uploads == w.uploads && w'.sweeps == w.sweeps && w'.dropping == w.dropping
  {
    var id := w.nextId;
    RunFour(w, BeginUpload, Put(id, put), InsertRow(id, insertOk), CleanUp(id, cleanup));
    var w1 := Step(w, BeginUpload);
    var w2 := Step(w1, Put(id, put));
    var w3 := Step(w2, InsertRow(id, insertOk));
    Undo(w.uploads, id, Putting);
    Undo(w.uploads, id, Stored);
    Undo(w.uploads, id, CleaningUp);
    assert id !in w.objects && id !in w.rows && id !in w.uploads;
    assert put.ok ==> w2.uploads == w.uploads[id := Stored];
    assert !put.ok ==> w2.uploads == w.uploads && w3 == w2;
  }

  /** Deleting a file alone removes its row and, if the backend manages, its object. */
  lemma DeleteAlone(w: World, id: Id, delete: Effect)
    requires Accounted(w) && id in w.rows
    ensures var w' := Step(Step(w, DeleteRow(id)), DeleteObject(id, delete));
      && w'.rows == w.rows - {id} && w'.dropping == w.dropping && w'.uploads == w.uploads
      && w'.objects == if delete.done then w.objects - {id} else w.objects
  {
    assert w.dropping + {id} - {id} == w.dropping;
  }

  function SweepEvents(s: nat, orphans: seq<Id>, failing: set<Id>): seq<Event>
    decreases |orphans|
  {
    if orphans == [] then [EndSweep(s)]
    else
      var works := orphans[0] !in failing;
      [DeleteOrphan(s, orphans[0], Effect(works, works))] + SweepEvents(s, orphans[1..], failing)
  }

  lemma {:induction false} OrphansGo(w: World, s: nat, orphans: seq<Id>, failing: set<Id>)
    requires s in w.sweeps && w.sweeps[s].Deleting?
    requires forall i :: 0 <= i < |orphans| ==> orphans[i] in w.sweeps[s].todo
    requires forall i, j :: 0 <= i < j < |orphans| ==> orphans[i] != orphans[j]
    ensures var w' := Run(w, SweepEvents(s, orphans, failing));
      && w'.objects == w.objects - ((set id | id in orphans) - failing)
      && w'.rows == w.rows && w'.uploads == w.uploads && w'.sweeps == w.sweeps - {s}
    decreases |orphans|
  {
    if orphans == [] {
      StepLast(w, [], EndSweep(s));
      assert [] + [EndSweep(s)] == [EndSweep(s)] && Run(w, []) == w;
    } else {
      var works := orphans[0] !in failing;
      var e, rest := DeleteOrphan(s, orphans[0], Effect(works, works)), SweepEvents(s, orphans[1..], failing);
      var w1 := Step(w, e);
      RunAppend(w, [e], rest);
      StepLast(w, [], e);
      assert [] + [e] == [e] && Run(w, []) == w;
      OrphansGo(w1, s, orphans[1..], failing);
      assert forall id :: id in orphans <==> id == orphans[0] || id in orphans[1..];
      assert w1.sweeps - {s} == w.sweeps - {s};
    }
  }

  lemma ListThenRead(w: World, s: nat)
    requires s !in w.sweeps
    ensures var w' := Run(w, [ListObjects(s), ReadRows(s)]);
      && w'.objects == w.objects && w'.rows == w.rows && w'.uploads == w.uploads
      && w'.sweeps == w.sweeps[s := Deleting(w.objects - w.rows)] && w'.sweeps - {s} == w.sweeps
  {
    var a, b := ListObjects(s), ReadRows(s);
    StepLast(w, [], a);
    StepLast(w, [a], b);
    assert [] + [a] == [a] && [a] + [b] == [a, b] && Run(w, []) == w;
  }

  /** A sweep alone lists, reads and deletes exactly the unreferenced objects whose deletion works. */
  lemma SweepAlone(w: World, s: nat, orphans: seq<Id>, failing: set<Id>)
    requires s !in w.sweeps
    requires forall id :: id in orphans <==> id in w.objects - w.rows
    requires forall i, j :: 0 <= i < j < |orphans| ==> orphans[i] != orphans[j]
    ensures var w' := Run(w, [ListObjects(s), ReadRows(s)] + SweepEvents(s, orphans, failing));
      && w'.objects == w.objects - ((w.objects - w.rows) - failing)
      && w'.rows == w.rows && w'.uploads == w.uploads && w'.sweeps == w.sweeps
  {
    ListThenRead(w, s);
    RunAppend(w, [ListObjects(s), ReadRows(s)], SweepEvents(s, orphans, failing));
    OrphansGo(Run(w, [ListObjects(s), ReadRows(s)]), s, orphans, failing);
    assert (set id | id in orphans) == w.objects - w.rows;
  }
}
