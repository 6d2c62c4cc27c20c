/** The configuration overlay over every interleaving: the audit log replays to the rows, versions form closed runs,
    and when a recorded old value is the value that was replaced. */
module ConfigSafety {
  import opened Wrappers
  import opened ConfigStore

  // ----- interleaved commands -----

  /** A command between its read and its transaction: `write` is the value to set, or None for an unset. The two
      flags record whether the key was written, and whether it was unset, since the read. */
  datatype Pending = Pending(key: string, write: Option<string>, seen: Option<string>, version: nat,
                             touched: bool, unset: bool)

  datatype World = World(db: Db, pending: map<nat, Pending>)

  datatype Event =
    | Read(cmd: nat, key: string, write: Option<string>)
    | Commit(cmd: nat, at: int, id: nat)
    | Abort(cmd: nat)
    | Seed(keys: seq<string>, values: map<string, string>, at: int, firstId: nat)

  predicate Enabled(w: World, e: Event) {
    match e
    case Read(cmd, _, _) => cmd !in w.pending
    case Commit(cmd, _, _) => cmd in w.pending
    case Abort(_) => true
    case Seed(keys, values, _, _) => forall k :: k in keys ==> k in values
  }

  /** The transaction of a pending command; an unset that saw no row is a no-op. */
  function Transaction(db: Db, p: Pending, at: int, id: nat): Db {
    match p.write
    case Some(v) => CommitSet(db, p.key, v, p.version, p.seen, at, id)
    case None => if p.version == 0 then db else CommitUnset(db, p.key, p.seen, at, id)
  }

  /** Marks what happened to each pending command's key when the tables went from `a` to `b`. */
  function Mark(pending: map<nat, Pending>, a: map<string, Row>, b: map<string, Row>): map<nat, Pending> {
    map c | c in pending ::
      var p := pending[c];
      p.(touched := p.touched || (p.key in a) != (p.key in b) || (p.key in a && p.key in b && a[p.key] != b[p.key]),
         unset := p.unset || (p.key in a && p.key !in b))
  }

  function Step(w: World, e: Event): World {
    if !Enabled(w, e) then w else
    match e
    case Read(cmd, key, write) =>
      w.(pending := w.pending[cmd := Pending(key, write, CurrentValue(w.db.rows, key), CurrentVersion(w.db.rows, key),
                                             false, false)])
    case Commit(cmd, at, id) =>
      var db := Transaction(w.db, w.pending[cmd], at, id);
      World(db, Mark(w.pending - {cmd}, w.db.rows, db.rows))
    case Abort(cmd) => w.(pending := w.pending - {cmd})
    case Seed(keys, values, at, firstId) =>
      var db := SeedKeys(w.db, keys, values, at, firstId);
      World(db, Mark(w.pending, w.db.rows, db.rows))
  }

  function Run(w: World, es: seq<Event>): World
    decreases |es|
  {
    if es == [] then w else Run(Step(w, es[0]), es[1..])
  }

  const EMPTY := World(Db(map[], []), map[])

  // ----- replay and versions -----

  /** The newest audit entry of every key describes exactly its row. */
  ghost predicate Replays(db: Db) {
    forall k ::
      && CurrentValue(db.rows, k) == LatestValue(db.audit, k)
      && CurrentVersion(db.rows, k) == LatestVersion(db.audit, k)
      && (k in db.rows ==> db.rows[k].version > 0)
  }

  /** Entry `e` continues the history `before`: one version up, or the closing 0 of an unset. */
  predicate Continues(before: seq<AuditEntry>, e: AuditEntry) {
    if e.newValue.Some? then e.version == LatestVersion(before, e.key) + 1
    else e.version == 0 && LatestVersion(before, e.key) > 0
  }

  /** Every key's versions count 1, 2, .. k, close with 0, and start over. */
  ghost predicate VersionRuns(audit: seq<AuditEntry>) {
    forall i :: 0 <= i < |audit| ==> Continues(audit[..i], audit[i])
  }

  ghost predicate Consistent(db: Db) {
    Replays(db) && VersionRuns(db.audit)
  }

  lemma LatestAppend(audit: seq<AuditEntry>, e: AuditEntry)
    ensures forall k :: Latest(audit + [e], k) == if e.key == k then Some(e) else Latest(audit, k)
  {
    assert (audit + [e])[..|audit|] == audit;
  }

  lemma VersionRunsAppend(audit: seq<AuditEntry>, e: AuditEntry)
    requires VersionRuns(audit) && Continues(audit, e)
    ensures VersionRuns(audit + [e])
  {
    var s := audit + [e];
    forall i | 0 <= i < |s| ensures Continues(s[..i], s[i]) {
      assert s[..i] == audit[..i];
      assert i == |audit| ==> audit[..i] == audit;
    }
  }

  lemma CommitSetConsistent(db: Db, key: string, value: string, expected: nat, seen: Option<string>, at: int, id: nat)
    requires Consistent(db)
    ensures Consistent(CommitSet(db, key, value, expected, seen, at, id))
  {
    if CanSet(db.rows, key, expected) {
      var e := AuditEntry(key, seen, Some(value), expected + 1, at, id);
      assert CurrentVersion(db.rows, key) == LatestVersion(db.audit, key);
      LatestAppend(db.audit, e);
      VersionRunsAppend(db.audit, e);
    }
  }

  lemma CommitUnsetConsistent(db: Db, key: string, seen: Option<string>, at: int, id: nat)
    requires Consistent(db)
    ensures Consistent(CommitUnset(db, key, seen, at, id))
  {
    if key in db.rows {
      var e := AuditEntry(key, seen, None, 0, at, id);
      assert CurrentVersion(db.rows, key) == LatestVersion(db.audit, key);
      LatestAppend(db.audit, e);
      VersionRunsAppend(db.audit, e);
    }
  }

  lemma {:induction false} SeedConsistent(db: Db, keys: seq<string>, values: map<string, string>, at: int, id: nat)
    requires Consistent(db) && forall k :: k in keys ==> k in values
    ensures Consistent(SeedKeys(db, keys, values, at, id))
    decreases |keys|
  {
    if keys != [] {
      CommitSetConsistent(db, keys[0], values[keys[0]], 0, None, at, id);
      SeedConsistent(if keys[0] in db.rows then db else CommitSet(db, keys[0], values[keys[0]], 0, None, at, id),
                     keys[1..], values, at, id + 1);
    }
  }

  lemma StepConsistent(w: World, e: Event)
    requires Consistent(w.db)
    ensures Consistent(Step(w, e).db)
  {
    if Enabled(w, e) {
      match e
      case Commit(cmd, at, id) =>
        var p := w.pending[cmd];
        if p.write.Some? {
          CommitSetConsistent(w.db, p.key, p.write.value, p.version, p.seen, at, id);
        } else {
          CommitUnsetConsistent(w.db, p.key, p.seen, at, id);
        }
      case Seed(keys, values, at, firstId) => SeedConsistent(w.db, keys, values, at, firstId);
      case _ =>
    }
  }

  /** Under every interleaving the audit log replays to exactly the current rows, and each key's versions form
      runs 1..k each closed by a 0. */
  lemma {:induction false} AuditReplays(w: World, es: seq<Event>)
    requires Consistent(w.db)
    ensures Consistent(Run(w, es).db)
    decreases |es|
  {
    if es != [] {
      StepConsistent(w, es[0]);
      AuditReplays(Step(w, es[0]), es[1..]);
    }
  }

  lemma EmptyConsistent()
    ensures Consistent(EMPTY.db)
  {
  }

  // ----- recorded old values -----

  /** Entry `i` records as its old value what the entry before it for the same key had as its new value. */
  ghost predicate Chained(audit: seq<AuditEntry>, i: nat)
    requires i < |audit|
  {
    audit[i].oldValue == LatestValue(audit[..i], audit[i].key)
  }

  /** A pending command still knows its row: unless the key was unset since, the row has not gone below the version
      read, and at that version it has the value read; unless it was written at all, it is unchanged. */
  ghost predicate Tracks(rows: map<string, Row>, p: Pending) {
    && (p.version == 0 ==> p.seen == None)
    && (p.version > 0 ==> p.seen.Some?)
    && (!p.unset && p.version > 0 ==>
          && p.key in rows && rows[p.key].version >= p.version
          && (rows[p.key].version == p.version ==> Some(rows[p.key].value) == p.seen))
    && (!p.touched ==> CurrentValue(rows, p.key) == p.seen && CurrentVersion(rows, p.key) == p.version)
  }

  /** Rows only gain versions or disappear. */
  ghost predicate RowsAdvance(a: map<string, Row>, b: map<string, Row>) {
    forall k :: k in a && k in b ==> b[k] == a[k] || b[k].version > a[k].version
  }

  lemma MarkTracks(pending: map<nat, Pending>, a: map<string, Row>, b: map<string, Row>)
    requires RowsAdvance(a, b) && forall c :: c in pending ==> Tracks(a, pending[c])
    ensures forall c :: c in Mark(pending, a, b) ==> Tracks(b, Mark(pending, a, b)[c])
  {
    forall c | c in pending ensures Tracks(b, Mark(pending, a, b)[c]) {
      var p := pending[c];
      assert p.key in a && p.key in b ==> b[p.key] == a[p.key] || b[p.key].version > a[p.key].version;
    }
  }

  lemma {:induction false} SeedRowsAdvance(db: Db, keys: seq<string>, values: map<string, string>, at: int, id: nat)
    requires forall k :: k in keys ==> k in values
    ensures RowsAdvance(db.rows, SeedKeys(db, keys, values, at, id).rows)
    ensures forall k :: k in db.rows ==>
              k in SeedKeys(db, keys, values, at, id).rows && SeedKeys(db, keys, values, at, id).rows[k] == db.rows[k]
    decreases |keys|
  {
    if keys != [] {
      SeedRowsAdvance(if keys[0] in db.rows then db else CommitSet(db, keys[0], values[keys[0]], 0, None, at, id),
                      keys[1..], values, at, id + 1);
    }
  }

  ghost predicate AllTrack(w: World) {
    Consistent(w.db) && forall c :: c in w.pending ==> Tracks(w.db.rows, w.pending[c])
  }

  lemma StepTracks(w: World, e: Event)
    requires AllTrack(w)
    ensures AllTrack(Step(w, e))
  {
    StepConsistent(w, e);
    if Enabled(w, e) {
      match e
      case Read(cmd, key, write) => assert CurrentValue(w.db.rows, key) == LatestValue(w.db.audit, key);
      case Commit(cmd, at, id) => MarkTracks(w.pending - {cmd}, w.db.rows, Step(w, e).db.rows);
      case Seed(keys, values, at, firstId) =>
        SeedRowsAdvance(w.db, keys, values, at, firstId);
        MarkTracks(w.pending, w.db.rows, Step(w, e).db.rows);
      case Abort(_) =>
    }
  }

  lemma {:induction false} RunTracks(w: World, es: seq<Event>)
    requires AllTrack(w)
    ensures AllTrack(Run(w, es))
    decreases |es|
  {
    if es != [] {
      StepTracks(w, es[0]);
      RunTracks(Step(w, es[0]), es[1..]);
    }
  }

  /** In every reachable state, a set that commits records the value it replaced unless its key was unset after the
      command read it; an unset does so unless its key was written at all in between. */
  lemma CommitChains(es: seq<Event>, cmd: nat, at: int, id: nat)
    requires var w := Run(EMPTY, es);
             && cmd in w.pending && Transaction(w.db, w.pending[cmd], at, id) != w.db
             && (if w.pending[cmd].write.Some? then !w.pending[cmd].unset else !w.pending[cmd].touched)
    ensures var w := Run(EMPTY, es);
            var audit := Step(w, Commit(cmd, at, id)).db.audit;
            |audit| == |w.db.audit| + 1 && Chained(audit, |w.db.audit|)
  {
    EmptyConsistent();
    RunTracks(EMPTY, es);
    var w := Run(EMPTY, es);
    var p := w.pending[cmd];
    var audit := Step(w, Commit(cmd, at, id)).db.audit;
    assert audit[..|w.db.audit|] == w.db.audit;
    assert CurrentValue(w.db.rows, p.key) == LatestValue(w.db.audit, p.key);
  }

  /** A committing command records the value it replaced if and only if the row's value is still the one it read.
      Where it is not, the key was written in between, and for a set unset and set again up to the version it read. */
  lemma CommitChainsExactly(es: seq<Event>, cmd: nat, at: int, id: nat)
    requires var w := Run(EMPTY, es); cmd in w.pending && Transaction(w.db, w.pending[cmd], at, id) != w.db
    ensures var w := Run(EMPTY, es);
            var p := w.pending[cmd];
            var audit := Step(w, Commit(cmd, at, id)).db.audit;
      && |audit| == |w.db.audit| + 1
      && (Chained(audit, |w.db.audit|) <==> CurrentValue(w.db.rows, p.key) == p.seen)
      && (!Chained(audit, |w.db.audit|) ==> if p.write.Some? then p.unset else p.touched)
      && (!Chained(audit, |w.db.audit|) && p.write.Some? ==>
            p.key in w.db.rows && w.db.rows[p.key].version == p.version)
  {
    EmptyConsistent();
    RunTracks(EMPTY, es);
    var w := Run(EMPTY, es);
    var p := w.pending[cmd];
    var audit := Step(w, Commit(cmd, at, id)).db.audit;
    assert audit[..|w.db.audit|] == w.db.audit;
    assert CurrentValue(w.db.rows, p.key) == LatestValue(w.db.audit, p.key);
    if if p.write.Some? then !p.unset else !p.touched { CommitChains(es, cmd, at, id); }
  }

  /** Serial commands: nothing is written to a command's key between its read and its commit. */
  predicate SerialRun(w: World, es: seq<Event>)
    decreases |es|
  {
    es == [] ||
    ((es[0].Commit? && es[0].cmd in w.pending ==> !w.pending[es[0].cmd].touched) && SerialRun(Step(w, es[0]), es[1..]))
  }

  ghost predicate AllChained(audit: seq<AuditEntry>) {
    forall i :: 0 <= i < |audit| ==> Chained(audit, i)
  }

  lemma ChainedAppend(audit: seq<AuditEntry>, e: AuditEntry)
    requires AllChained(audit) && e.oldValue == LatestValue(audit, e.key)
    ensures AllChained(audit + [e])
  {
    var s := audit + [e];
    forall i | 0 <= i < |s| ensures Chained(s, i) {
      assert s[..i] == audit[..i];
      if i < |audit| {
        assert Chained(audit, i);
      } else {
        assert audit[..i] == audit;
      }
    }
  }

  lemma {:induction false} SeedChains(db: Db, keys: seq<string>, values: map<string, string>, at: int, id: nat)
    requires Consistent(db) && AllChained(db.audit) && forall k :: k in keys ==> k in values
    ensures AllChained(SeedKeys(db, keys, values, at, id).audit)
    decreases |keys|
  {
    if keys != [] {
      var k := keys[0];
      var db' := if k in db.rows then db else CommitSet(db, k, values[k], 0, None, at, id);
      if k !in db.rows {
        assert CurrentValue(db.rows, k) == LatestValue(db.audit, k);
        ChainedAppend(db.audit, AuditEntry(k, None, Some(values[k]), 1, at, id));
        CommitSetConsistent(db, k, values[k], 0, None, at, id);
      }
      SeedChains(db', keys[1..], values, at, id + 1);
    }
  }

  /** In a serial run every audit entry's old value is the previous entry's new value. */
  lemma {:induction false} SerialRunsChain(w: World, es: seq<Event>)
    requires AllTrack(w) && AllChained(w.db.audit) && SerialRun(w, es)
    ensures AllChained(Run(w, es).db.audit)
    decreases |es|
  {
    if es != [] {
      var e := es[0];
      StepTracks(w, e);
      if Enabled(w, e) {
        match e
        case Commit(cmd, at, id) =>
          var p := w.pending[cmd];
          assert CurrentValue(w.db.rows, p.key) == LatestValue(w.db.audit, p.key);
          if Transaction(w.db, p, at, id) != w.db {
            var audit := Transaction(w.db, p, at, id).audit;
            ChainedAppend(w.db.audit, audit[|audit| - 1]);
          }
        case Seed(keys, values, at, firstId) => SeedChains(w.db, keys, values, at, firstId);
        case _ =>
      }
      SerialRunsChain(Step(w, e), es[1..]);
    }
  }

  /** A command with nothing between its read and its commit. */
  function Alone(cmd: nat, key: string, write: Option<string>, at: int, id: nat): seq<Event> {
    [Read(cmd, key, write), Commit(cmd, at, id)]
  }

  lemma AloneRun(w: World, cmd: nat, key: string, write: Option<string>, at: int, id: nat)
    requires cmd !in w.pending
    ensures var p := Pending(key, write, CurrentValue(w.db.rows, key), CurrentVersion(w.db.rows, key), false, false);
            var db := Transaction(w.db, p, at, id);
            Run(w, Alone(cmd, key, write, at, id)) == World(db, Mark(w.pending, w.db.rows, db.rows))
  {
    var es := Alone(cmd, key, write, at, id);
    var w1 := Step(w, es[0]);
    assert w1.pending - {cmd} == w.pending;
    assert es[1..] == [es[1]] && [es[1]][1..] == [];
    assert Run(w1, es[1..]) == Run(Step(w1, es[1]), []);
  }

  lemma {:induction false} RunAppend(w: World, a: seq<Event>, b: seq<Event>)
    ensures Run(w, a + b) == Run(Run(w, a), b)
    decreases |a|
  {
    if a == [] {
      assert a + b == b;
    } else {
      assert (a + b)[1..] == a[1..] + b;
      RunAppend(Step(w, a[0]), a[1..], b);
    }
  }

  /** An import as events: each key with a value is read, and then committed with expected version 0 or given up. */
  function ImportEvents(db: Db, keys: seq<string>, values: map<string, string>, valid: set<string>, at: int, id: nat)
    : seq<Event>
    decreases |keys|
  {
    if keys == [] then []
    else if keys[0] !in values then ImportEvents(db, keys[1..], values, valid, at, id)
    else if Imports(db.rows, keys[0], values, valid) then
      Alone(0, keys[0], Some(values[keys[0]]), at, id)
      + ImportEvents(CommitSet(db, keys[0], values[keys[0]], 0, None, at, id), keys[1..], values, valid, at, id + 1)
    else [Read(0, keys[0], Some(values[keys[0]])), Abort(0)] + ImportEvents(db, keys[1..], values, valid, at, id)
  }

  /** A seeding is one event, and writes exactly the first versions of the keys without a row. */
  lemma SeedIsARun(db: Db, keys: seq<string>, values: map<string, string>, at: int, id: nat)
    requires forall k :: k in keys ==> k in values
    ensures var w' := Run(World(db, map[]), [Seed(keys, values, at, id)]);
      && w'.pending == map[] && FirstVersions(db, w'.db, values, at)
      && forall k :: k in w'.db.rows <==> k in db.rows || k in keys
  {
    var w := World(db, map[]);
    var e := Seed(keys, values, at, id);
    SeedNeverOverwrites(db, keys, values, at, id);
    assert Step(w, e).pending == map[];
    assert Run(w, [e]) == Run(Step(w, e), []);
  }

  lemma GivenUp(db: Db, key: string, write: Option<string>)
    ensures Run(World(db, map[]), [Read(0, key, write), Abort(0)]) == World(db, map[])
  {
    var es := [Read(0, key, write), Abort(0)];
    var w1 := Step(World(db, map[]), es[0]);
    assert w1.pending - {0} == map[];
    assert es[1..] == [es[1]] && [es[1]][1..] == [];
    assert Run(w1, es[1..]) == Run(Step(w1, es[1]), []);
  }

  /** An import done alone is such a run, so what holds over every run covers imports with anything in between. */
  lemma {:induction false} ImportIsARun(db: Db, keys: seq<string>, values: map<string, string>, valid: set<string>,
                                        at: int, id: nat)
    ensures Run(World(db, map[]), ImportEvents(db, keys, values, valid, at, id))
         == World(ImportKeys(db, keys, values, valid, at, id), map[])
    decreases |keys|
  {
    if keys != [] {
      var w := World(db, map[]);
      if Imports(db.rows, keys[0], values, valid) {
        var v := values[keys[0]];
        var db1 := CommitSet(db, keys[0], v, 0, None, at, id);
        AloneRun(w, 0, keys[0], Some(v), at, id);
        assert Mark(map[], db.rows, db1.rows) == map[];
        RunAppend(w, Alone(0, keys[0], Some(v), at, id), ImportEvents(db1, keys[1..], values, valid, at, id + 1));
        ImportIsARun(db1, keys[1..], values, valid, at, id + 1);
      } else {
        if keys[0] in values {
          GivenUp(db, keys[0], Some(values[keys[0]]));
          RunAppend(w, [Read(0, keys[0], Some(values[keys[0]])), Abort(0)],
                    ImportEvents(db, keys[1..], values, valid, at, id));
        }
        ImportIsARun(db, keys[1..], values, valid, at, id);
      }
    }
  }

  const SET_A := AuditEntry("K", None, Some("a"), 1, 0, 0)
  const UNSET_A := AuditEntry("K", Some("a"), None, 0, 0, 1)
  const SET_B := AuditEntry("K", None, Some("b"), 1, 0, 2)
  const WAITING := Pending("K", Some("d"), Some("a"), 1, false, false)

  lemma SetThenRead()
    ensures Run(EMPTY, Alone(0, "K", Some("a"), 0, 0)) == World(Db(map["K" := Row("a", 1)], [SET_A]), map[])
    ensures Run(World(Db(map["K" := Row("a", 1)], [SET_A]), map[]), [Read(1, "K", Some("d"))])
         == World(Db(map["K" := Row("a", 1)], [SET_A]), map[1 := WAITING])
  {
    AloneRun(EMPTY, 0, "K", Some("a"), 0, 0);
    assert [SET_A] == [] + [SET_A];
    var w := World(Db(map["K" := Row("a", 1)], [SET_A]), map[]);
    assert Run(w, [Read(1, "K", Some("d"))]) == Run(Step(w, Read(1, "K", Some("d"))), []);
  }

  lemma UnsetAndSetMeanwhile()
    ensures var w := World(Db(map["K" := Row("a", 1)], [SET_A]), map[1 := WAITING]);
            && Run(w, Alone(2, "K", None, 0, 1) + Alone(3, "K", Some("b"), 0, 2))
            == World(Db(map["K" := Row("b", 1)], [SET_A, UNSET_A, SET_B]),
                     map[1 := WAITING.(touched := true, unset := true)])
  {
    var w := World(Db(map["K" := Row("a", 1)], [SET_A]), map[1 := WAITING]);
    AloneRun(w, 2, "K", None, 0, 1);
    var w' := World(Db(map[], [SET_A, UNSET_A]), map[1 := WAITING.(touched := true, unset := true)]);
    assert Run(w, Alone(2, "K", None, 0, 1)) == w' by {
      assert map["K" := Row("a", 1)] - {"K"} == map[];
      assert [SET_A] + [UNSET_A] == [SET_A, UNSET_A];
    }
    AloneRun(w', 3, "K", Some("b"), 0, 2);
    assert [SET_A, UNSET_A] + [SET_B] == [SET_A, UNSET_A, SET_B];
    RunAppend(w, Alone(2, "K", None, 0, 1), Alone(3, "K", Some("b"), 0, 2));
  }

  /** The exception is real: a set whose key was unset and set again in between passes its version check and
      records a value that was not the one it replaced. */
  lemma StaleOldValue()
    ensures var w1 := Run(EMPTY, Alone(0, "K", Some("a"), 0, 0));
            var w2 := Run(w1, [Read(1, "K", Some("d"))]);
            var w3 := Run(w2, Alone(2, "K", None, 0, 1) + Alone(3, "K", Some("b"), 0, 2));
            var audit := Run(w3, [Commit(1, 0, 3)]).db.audit;
            |audit| == 4 && audit[3].newValue == Some("d") && !Chained(audit, 3)
  {
    SetThenRead();
    UnsetAndSetMeanwhile();
    var w := World(Db(map["K" := Row("b", 1)], [SET_A, UNSET_A, SET_B]),
                   map[1 := WAITING.(touched := true, unset := true)]);
    assert Run(w, [Commit(1, 0, 3)]) == Run(Step(w, Commit(1, 0, 3)), []);
    assert Run(w, [Commit(1, 0, 3)]).db.audit[..3] == [SET_A, UNSET_A, SET_B];
  }

  // ----- listing order and rollback -----

  /** The key's entries in commit order. */
  function Committed(audit: seq<AuditEntry>, key: string): seq<AuditEntry> {
    if audit == [] then []
    else (if audit[0].key == key then [audit[0]] else []) + Committed(audit[1..], key)
  }

  /** Each entry of the key is stamped later than those committed before it. */
  predicate StampedInOrder(audit: seq<AuditEntry>, key: string) {
    forall i, j :: 0 <= i < j < |audit| && audit[i].key == key && audit[j].key == key ==>
      audit[i].changedAt < audit[j].changedAt
  }

  lemma {:induction false} ListedInCommitOrder(audit: seq<AuditEntry>, key: string)
    requires StampedInOrder(audit, key)
    ensures ListByKey(audit, key) == Committed(audit, key)
    ensures forall e :: e in Committed(audit, key) ==> e in audit && e.key == key
  {
    if audit != [] {
      ListedInCommitOrder(audit[1..], key);
      if audit[0].key == key && Committed(audit[1..], key) != [] {
        var first := Committed(audit[1..], key)[0];
        assert first in Committed(audit[1..], key);
        var j :| 0 <= j < |audit[1..]| && audit[1..][j] == first;
        assert audit[j + 1] == first;
      }
    }
  }

  /** `e` is the newest committed entry of the key with version `n`. */
  ghost predicate NewestAtVersion(audit: seq<AuditEntry>, key: string, n: nat, e: AuditEntry) {
    exists i :: 0 <= i < |audit| && audit[i] == e && e.key == key && e.version == n
             && forall j :: i < j < |audit| && audit[j].key == key ==> audit[j].version != n
  }

  /** With commands stamped in commit order, rollback to version n picks exactly the newest entry with that version,
      and finds none exactly when there is none. */
  lemma RollbackPicksNewest(audit: seq<AuditEntry>, key: string, n: nat)
    requires StampedInOrder(audit, key)
    ensures var t := RollbackTarget(ListByKey(audit, key), n);
            if t.Some? then NewestAtVersion(audit, key, n, t.value)
            else forall e :: e in audit && e.key == key ==> e.version != n
  {
    ListedInCommitOrder(audit, key);
    TargetInCommitted(audit, key, n);
  }

  lemma {:induction false} CommittedSnoc(audit: seq<AuditEntry>, key: string, e: AuditEntry)
    ensures Committed(audit + [e], key) == Committed(audit, key) + (if e.key == key then [e] else [])
  {
    if audit == [] {
      assert audit + [e] == [e];
    } else {
      CommittedSnoc(audit[1..], key, e);
      var head := if audit[0].key == key then [audit[0]] else [];
      var rest, last := Committed(audit[1..], key), if e.key == key then [e] else [];
      assert (audit + [e])[0] == audit[0] && (audit + [e])[1..] == audit[1..] + [e];
      assert head + (rest + last) == (head + rest) + last;
    }
  }

  lemma {:induction false} TargetInCommitted(audit: seq<AuditEntry>, key: string, n: nat)
    ensures var t := RollbackTarget(Committed(audit, key), n);
            if t.Some? then NewestAtVersion(audit, key, n, t.value)
            else forall e :: e in audit && e.key == key ==> e.version != n
  {
    if audit != [] {
      var init, e := audit[..|audit| - 1], audit[|audit| - 1];
      assert audit == init + [e];
      TargetInCommitted(init, key, n);
      CommittedSnoc(init, key, e);
      var c := Committed(audit, key);
      assert if e.key == key then c[..|c| - 1] == Committed(init, key) else c == Committed(init, key);
      if e.key == key && e.version == n {
        assert audit[|init|] == e;
      } else {
        assert RollbackTarget(c, n) == RollbackTarget(Committed(init, key), n);
        var t := RollbackTarget(c, n);
        if t.Some? {
          StillNewest(init, key, n, t.value, e);
        }
      }
    }
  }

  lemma StillNewest(audit: seq<AuditEntry>, key: string, n: nat, t: AuditEntry, e: AuditEntry)
    requires NewestAtVersion(audit, key, n, t) && !(e.key == key && e.version == n)
    ensures NewestAtVersion(audit + [e], key, n, t)
  {
    var i :| 0 <= i < |audit| && audit[i] == t && t.key == key && t.version == n
          && forall j :: i < j < |audit| && audit[j].key == key ==> audit[j].version != n;
    var s := audit + [e];
    assert s[i] == t;
    assert forall j :: i < j < |s| && s[j].key == key ==> s[j].version != n;
  }

  // ----- exactly when rollback picks the newest entry -----

  ghost predicate InListedOrder(s: seq<AuditEntry>) {
    forall i, j :: 0 <= i < j < |s| ==> Listed(s[i], s[j])
  }

  lemma {:induction false} InsertKeepsOrder(e: AuditEntry, s: seq<AuditEntry>)
    requires InListedOrder(s)
    ensures InListedOrder(InsertEntry(e, s)) && forall x :: x in InsertEntry(e, s) <==> x == e || x in s
    decreases |s|
  {
    if s != [] && !Listed(e, s[0]) {
      InsertKeepsOrder(e, s[1..]);
      var rest := InsertEntry(e, s[1..]);
      forall j | 0 <= j < |rest| ensures Listed(s[0], rest[j]) {
        assert rest[j] in rest;
      }
      assert s == [s[0]] + s[1..];
    }
  }

  lemma {:induction false} ListingIsOrdered(audit: seq<AuditEntry>, key: string)
    ensures InListedOrder(ListByKey(audit, key))
    ensures forall e :: e in ListByKey(audit, key) <==> e in audit && e.key == key
    decreases |audit|
  {
    if audit != [] {
      ListingIsOrdered(audit[1..], key);
      InsertKeepsOrder(audit[0], ListByKey(audit[1..], key));
      assert audit == [audit[0]] + audit[1..];
    }
  }

  /** The target is the last of its version in listing order. */
  lemma {:induction false} TargetIsListedLast(history: seq<AuditEntry>, n: nat)
    requires InListedOrder(history)
    ensures var t := RollbackTarget(history, n);
            if t.None? then forall e :: e in history ==> e.version != n
            else t.value in history && t.value.version == n
                 && forall e :: e in history && e.version == n ==> Listed(e, t.value)
    decreases |history|
  {
    if history != [] {
      var init, last := history[..|history| - 1], history[|history| - 1];
      assert history == init + [last];
      TargetIsListedLast(init, n);
      forall e | e in init ensures Listed(e, last) {
        var i :| 0 <= i < |init| && init[i] == e;
        assert Listed(history[i], history[|history| - 1]);
      }
    }
  }

  /** The audit table's primary key. */
  ghost predicate UniqueIds(audit: seq<AuditEntry>) {
    forall i, j :: 0 <= i < j < |audit| ==> audit[i].id != audit[j].id
  }

  predicate OfVersion(e: AuditEntry, key: string, n: nat) {
    e.key == key && e.version == n
  }

  ghost predicate NewestIndex(audit: seq<AuditEntry>, key: string, n: nat, i: nat) {
    i < |audit| && OfVersion(audit[i], key, n) && forall j :: i < j < |audit| ==> !OfVersion(audit[j], key, n)
  }

  /** No committed entry of that version is listed behind the last committed one. */
  ghost predicate NewestListedLast(audit: seq<AuditEntry>, key: string, n: nat) {
    forall i, j :: 0 <= i < j < |audit| && OfVersion(audit[i], key, n) && NewestIndex(audit, key, n, j)
      ==> !Listed(audit[j], audit[i])
  }

  lemma {:induction false} NewestExists(audit: seq<AuditEntry>, key: string, n: nat, i: nat) returns (newest: nat)
    requires i < |audit| && OfVersion(audit[i], key, n)
    ensures i <= newest && NewestIndex(audit, key, n, newest)
    decreases |audit| - i
  {
    if later :| i < later < |audit| && OfVersion(audit[later], key, n) {
      newest := NewestExists(audit, key, n, later);
    } else {
      newest := i;
    }
  }

  /** Rollback to version n finds an entry exactly when the key has one, and it is the newest of that version if and
      only if the last committed one is listed last, by time of change and then by id. */
  lemma RollbackPicksNewestExactly(audit: seq<AuditEntry>, key: string, n: nat)
    requires UniqueIds(audit)
    ensures var t := RollbackTarget(ListByKey(audit, key), n);
      && (t.Some? <==> exists i :: 0 <= i < |audit| && OfVersion(audit[i], key, n))
      && (t.Some? ==> (NewestAtVersion(audit, key, n, t.value) <==> NewestListedLast(audit, key, n)))
  {
    var listing := ListByKey(audit, key);
    ListingIsOrdered(audit, key);
    TargetIsListedLast(listing, n);
    if RollbackTarget(listing, n).Some? {
      var t := RollbackTarget(listing, n).value;
      var a :| 0 <= a < |audit| && audit[a] == t;
      var newest := NewestExists(audit, key, n, a);
      assert audit[newest] in listing && Listed(audit[newest], t);
      if NewestAtVersion(audit, key, n, t) {
        var i :| 0 <= i < |audit| && audit[i] == t && t.key == key && t.version == n
              && forall j :: i < j < |audit| && audit[j].key == key ==> audit[j].version != n;
        assert i == newest;
        forall x, y | 0 <= x < y < |audit| && OfVersion(audit[x], key, n) && NewestIndex(audit, key, n, y)
          ensures !Listed(audit[y], audit[x])
        {
          assert y == newest && audit[x] in listing;
          assert Listed(audit[x], audit[y]) && audit[x].id != audit[y].id;
        }
      }
      if NewestListedLast(audit, key, n) {
        assert a == newest;
        assert NewestAtVersion(audit, key, n, t);
      }
    }
  }

  // ----- a run in which it does not -----

  const FIRST := AuditEntry("K", None, Some("a"), 1, 0, 9)
  const CLOSED := AuditEntry("K", Some("a"), None, 0, 0, 7)
  const SECOND := AuditEntry("K", None, Some("b"), 1, 0, 3)

  /** Set, unset and set again within one stamp. */
  function SetUnsetSet(): seq<Event> {
    Alone(0, "K", Some("a"), 0, 9) + Alone(1, "K", None, 0, 7) + Alone(2, "K", Some("b"), 0, 3)
  }

  lemma SetUnsetSetRun()
    ensures Run(EMPTY, SetUnsetSet()) == World(Db(map["K" := Row("b", 1)], [FIRST, CLOSED, SECOND]), map[])
  {
    var w1 := World(Db(map["K" := Row("a", 1)], [FIRST]), map[]);
    AloneRun(EMPTY, 0, "K", Some("a"), 0, 9);
    assert [] + [FIRST] == [FIRST];
    var w2 := World(Db(map[], [FIRST, CLOSED]), map[]);
    AloneRun(w1, 1, "K", None, 0, 7);
    assert map["K" := Row("a", 1)] - {"K"} == map[] && [FIRST] + [CLOSED] == [FIRST, CLOSED];
    AloneRun(w2, 2, "K", Some("b"), 0, 3);
    assert [FIRST, CLOSED] + [SECOND] == [FIRST, CLOSED, SECOND];
    RunAppend(EMPTY, Alone(0, "K", Some("a"), 0, 9), Alone(1, "K", None, 0, 7));
    RunAppend(EMPTY, Alone(0, "K", Some("a"), 0, 9) + Alone(1, "K", None, 0, 7), Alone(2, "K", Some("b"), 0, 3));
  }

  /** Serial commands within one stamp: the listing follows the random ids, and rollback to version 1 does not pick
      the newest entry. */
  lemma EqualStampsCanMisorder()
    ensures var audit := Run(EMPTY, SetUnsetSet()).db.audit;
            var t := RollbackTarget(ListByKey(audit, "K"), 1);
            UniqueIds(audit) && t.Some? && !NewestAtVersion(audit, "K", 1, t.value)
  {
    SetUnsetSetRun();
    var audit := [FIRST, CLOSED, SECOND];
    RollbackPicksNewestExactly(audit, "K", 1);
    assert OfVersion(audit[0], "K", 1) && NewestIndex(audit, "K", 1, 2) && Listed(audit[2], audit[0]);
  }
}
