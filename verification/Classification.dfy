/** Versioned classification of one entry: the handler that finds or allocates its version, the transaction
    that completes and activates it, and deliveries of many jobs racing step by step. */
module Classification {
  import opened Wrappers

  type JobId = nat
  type Id = string
  const MAX_TAGS := 8
  const MAX_RELATED := 5

  datatype Status = Pending | Complete | Failed
  datatype Row = Row(version: int, job: JobId, status: Status, active: bool,
                     summary: string, tags: set<string>, related: set<Id>)
  /** What the provider's answer parses to; `related` still as the model wrote it. */
  datatype Fields = Fields(summary: string, tags: seq<string>, related: seq<Id>)

  predicate Distinct<T(==)>(s: seq<T>) {
    forall i, j :: 0 <= i < j < |s| ==> s[i] != s[j]
  }

  function Members<T(==)>(s: seq<T>): set<T> {
    set x | x in s
  }

  // ----- the table of one entry's versions, in insertion order -----

  function InsertByVersion(r: Row, s: seq<Row>): seq<Row> {
    if s == [] then [r]
    else if r.version <= s[0].version then [r] + s
    else [s[0]] + InsertByVersion(r, s[1..])
  }

  function ListVersions(rows: seq<Row>): seq<Row> {
    if rows == [] then [] else InsertByVersion(rows[0], ListVersions(rows[1..]))
  }

  /** The first listed row of that job. */
  function FindJob(list: seq<Row>, job: JobId): (r: Option<Row>)
    ensures r.None? ==> forall i :: 0 <= i < |list| ==> list[i].job != job
    ensures r.Some? ==> r.value in list && r.value.job == job
  {
    if list == [] then None
    else if list[0].job == job then Some(list[0])
    else FindJob(list[1..], job)
  }

  function FindVersion(list: seq<Row>, v: int): (r: Option<Row>)
    ensures r.None? ==> forall i :: 0 <= i < |list| ==> list[i].version != v
    ensures r.Some? ==> r.value in list && r.value.version == v
  {
    if list == [] then None
    else if list[0].version == v then Some(list[0])
    else FindVersion(list[1..], v)
  }

  method SearchJob(list: seq<Row>, job: JobId) returns (r: Option<Row>)
    ensures r == FindJob(list, job)
  {
    for i := 0 to |list|
      invariant FindJob(list, job) == FindJob(list[i..], job)
    {
      if list[i].job == job { return Some(list[i]); }
    }
    r := None;
  }

  method SearchVersion(list: seq<Row>, v: int) returns (r: Option<Row>)
    ensures r == FindVersion(list, v)
  {
    for i := 0 to |list|
      invariant FindVersion(list, v) == FindVersion(list[i..], v)
    {
      if list[i].version == v { return Some(list[i]); }
    }
    r := None;
  }

  /** UNIQUE (entry_id, version). */
  predicate CreateConflicts(rows: seq<Row>, v: int) {
    exists i :: 0 <= i < |rows| && rows[i].version == v
  }

  function NewRow(v: int, job: JobId): Row {
    Row(v, job, Pending, false, "", {}, {})
  }

  predicate IsPending(rows: seq<Row>, v: int) {
    exists i :: 0 <= i < |rows| && rows[i].version == v && rows[i].status == Pending
  }

  function FailVersion(rows: seq<Row>, v: int): (r: seq<Row>)
    ensures |r| == |rows|
  {
    seq(|rows|, i requires 0 <= i < |rows| =>
      if rows[i].version == v && rows[i].status == Pending then rows[i].(status := Failed) else rows[i])
  }

  function Completed(r: Row, f: Fields): Row {
    r.(status := Complete, summary := f.summary,
       tags := Members(f.tags), related := Members(f.related), active := true)
  }

  /** The completion transaction commits: the version was pending and no inserted tag or link repeats a key. */
  predicate CanComplete(rows: seq<Row>, v: int, f: Fields) {
    IsPending(rows, v) && Distinct(f.tags) && Distinct(f.related)
  }

  function CompleteVersion(rows: seq<Row>, v: int, f: Fields): (r: seq<Row>)
    ensures |r| == |rows|
  {
    seq(|rows|, i requires 0 <= i < |rows| =>
      if rows[i].version == v then Completed(rows[i], f) else rows[i].(active := false))
  }

  // ----- which related ids survive -----

  /** Ids of candidates other than the target, without repetition, at most MAX_RELATED, in the model's order. */
  function Validated(raw: seq<Id>, candidates: set<Id>, target: Id): (out: seq<Id>)
    ensures |out| <= MAX_RELATED && Distinct(out)
    ensures forall x :: x in out ==> x in raw && x in candidates && x != target
    ensures |out| < MAX_RELATED ==> forall x :: x in raw && x in candidates && x != target ==> x in out
  {
    if raw == [] then [] else
    var out := Validated(raw[..|raw| - 1], candidates, target);
    var x := raw[|raw| - 1];
    if |out| == MAX_RELATED || x == target || x in out || x !in candidates then out else out + [x]
  }

  lemma {:induction false} ValidatedStopsWhenFull(raw: seq<Id>, k: nat, candidates: set<Id>, target: Id)
    requires k <= |raw| && |Validated(raw[..k], candidates, target)| == MAX_RELATED
    ensures Validated(raw, candidates, target) == Validated(raw[..k], candidates, target)
    decreases |raw|
  {
    if k < |raw| {
      assert raw[..|raw| - 1][..k] == raw[..k];
      ValidatedStopsWhenFull(raw[..|raw| - 1], k, candidates, target);
    } else {
      assert raw[..k] == raw;
    }
  }

  /** Reading on only appends: the ids that survive are the first ones, in the model's order. */
  lemma {:induction false} ValidatedGrows(raw: seq<Id>, k: nat, candidates: set<Id>, target: Id)
    requires k <= |raw|
    ensures Validated(raw[..k], candidates, target) <= Validated(raw, candidates, target)
    decreases |raw|
  {
    if k < |raw| {
      assert raw[..|raw| - 1][..k] == raw[..k];
      ValidatedGrows(raw[..|raw| - 1], k, candidates, target);
    } else {
      assert raw[..k] == raw;
    }
  }

  method ValidateRelatedIds(raw: seq<Id>, candidates: set<Id>, target: Id) returns (out: seq<Id>)
    ensures out == Validated(raw, candidates, target)
  {
    var seen: set<Id> := {};
    out := [];
    for i := 0 to |raw|
      invariant out == Validated(raw[..i], candidates, target) && |out| < MAX_RELATED
      invariant forall x :: x in seen <==> x in out
    {
      assert raw[..i + 1][..i] == raw[..i];
      var x := raw[i];
      if x != target && x !in seen && x in candidates {
        seen := seen + {x};
        out := out + [x];
        if |out| == MAX_RELATED {
          ValidatedStopsWhenFull(raw, i + 1, candidates, target);
          return;
        }
      }
    }
    assert raw[..|raw|] == raw;
  }

  function Truncated<T>(s: seq<T>, max: nat): seq<T> {
    if |s| <= max then s else s[..max]
  }

  /** What the handler stores of an answer: the first tags as they come, and the first related ids validated. */
  function Normalized(f: Fields, candidates: set<Id>, target: Id): (g: Fields)
    ensures Distinct(g.related)
  {
    f.(tags := Truncated(f.tags, MAX_TAGS), related := Validated(Truncated(f.related, MAX_RELATED), candidates, target))
  }

  // ----- the handler, one storage or provider operation at a time -----

  datatype HandlerResult = Done | Permanent | Retryable | VersionLost
  datatype Answer =
    | Content(fields: Fields, candidates: set<Id>, target: Id)
    | PermanentError
    | RetryableError
  datatype Env = Env(fault: bool, answer: Answer, commitUnreported: bool)

  datatype Phase =
    | Listing
    | Creating(next: int)
    | Relisting(next: int)
    | Calling(version: int)                  // about to read the thread and call the provider
    | Completing(version: int, fields: Fields)
    | Failing(version: int, permanent: bool)
    | Returned(result: HandlerResult)

  function Adopt(r: Row): Phase {
    if r.status == Pending then Calling(r.version) else Returned(Done)
  }

  function HandlerStep(rows: seq<Row>, job: JobId, ph: Phase, lastAttempt: bool, cancelled: bool, env: Env)
    : (seq<Row>, Phase)
  {
    match ph
    case Listing =>
      if env.fault then (rows, Returned(Retryable))
      else if FindJob(ListVersions(rows), job).Some? then (rows, Adopt(FindJob(ListVersions(rows), job).value))
      else (rows, Creating(|ListVersions(rows)| + 1))
    case Creating(next) =>
      if env.fault then (rows, Returned(Retryable))
      else if CreateConflicts(rows, next) then (rows, Relisting(next))
      else (rows + [NewRow(next, job)], Calling(next))
    case Relisting(next) =>
      if env.fault then (rows, Returned(Retryable))
      else if FindVersion(ListVersions(rows), next).Some?
      then (rows, Adopt(FindVersion(ListVersions(rows), next).value))
      else (rows, Returned(VersionLost))
    case Calling(v) =>
      if env.fault then (rows, Returned(Retryable)) else
      (match env.answer
       case Content(f, candidates, target) => (rows, Completing(v, Normalized(f, candidates, target)))
       case PermanentError => (rows, Failing(v, true))
       case RetryableError => (rows, if lastAttempt && !cancelled then Failing(v, false) else Returned(Retryable)))
    case Failing(v, permanent) =>
      (if env.fault then rows else FailVersion(rows, v), Returned(if permanent then Permanent else Retryable))
    case Completing(v, f) =>
      if env.fault || !CanComplete(rows, v, f) then (rows, Returned(Retryable))
      else (CompleteVersion(rows, v, f), Returned(if env.commitUnreported then Retryable else Done))
    case Returned(_) => (rows, ph)
  }

  /** What a delivery finds before it looks for its version: the job's payload and the target entry. */
  datatype Input = Readable | Malformed | TargetMissing | TargetUnreadable

  /** What the environment answers to the calls of one delivery. */
  datatype Envs = Envs(list: Env, create: Env, relist: Env, call: Env, record: Env)

  function EnvFor(ph: Phase, envs: Envs): Env {
    match ph
    case Listing => envs.list
    case Creating(_) => envs.create
    case Relisting(_) => envs.relist
    case Calling(_) => envs.call
    case _ => envs.record
  }

  function Rank(ph: Phase): nat {
    match ph
    case Listing => 5
    case Creating(_) => 4
    case Relisting(_) => 3
    case Calling(_) => 2
    case Completing(_, _) => 1
    case Failing(_, _) => 1
    case Returned(_) => 0
  }

  /** A handler left alone until it returns. */
  function RunHandler(rows: seq<Row>, job: JobId, ph: Phase, lastAttempt: bool, cancelled: bool, envs: Envs)
    : (seq<Row>, HandlerResult)
    decreases Rank(ph)
  {
    if ph.Returned? then (rows, ph.result) else
    var (rows', ph') := HandlerStep(rows, job, ph, lastAttempt, cancelled, EnvFor(ph, envs));
    RunHandler(rows', job, ph', lastAttempt, cancelled, envs)
  }

  lemma RunStep(rows: seq<Row>, job: JobId, ph: Phase, last: bool, cancelled: bool, envs: Envs)
    requires !ph.Returned?
    ensures var (rows', ph') := HandlerStep(rows, job, ph, last, cancelled, EnvFor(ph, envs));
            RunHandler(rows, job, ph, last, cancelled, envs) == RunHandler(rows', job, ph', last, cancelled, envs)
  {
  }

  lemma RunEnds(rows: seq<Row>, job: JobId, res: HandlerResult, last: bool, cancelled: bool, envs: Envs)
    ensures RunHandler(rows, job, Returned(res), last, cancelled, envs) == (rows, res)
  {
  }

  /** Up to the provider call. */
  lemma FirstSteps(rows: seq<Row>, job: JobId, last: bool, cancelled: bool, envs: Envs)
    ensures var (r1, p1) := HandlerStep(rows, job, Listing, false, false, envs.list);
            var (r2, p2) := if p1.Creating? then HandlerStep(r1, job, p1, false, false, envs.create) else (r1, p1);
            var (r3, p3) := if p2.Relisting? then HandlerStep(r2, job, p2, false, false, envs.relist) else (r2, p2);
            && RunHandler(rows, job, Listing, last, cancelled, envs) == RunHandler(r3, job, p3, last, cancelled, envs)
            && (p3.Returned? ==> RunHandler(rows, job, Listing, last, cancelled, envs) == (r3, p3.result))
  {
    var (r1, p1) := HandlerStep(rows, job, Listing, false, false, envs.list);
    RunStep(rows, job, Listing, last, cancelled, envs);
    var (r2, p2) := if p1.Creating? then HandlerStep(r1, job, p1, false, false, envs.create) else (r1, p1);
    if p1.Creating? { RunStep(r1, job, p1, last, cancelled, envs); }
    var (r3, p3) := if p2.Relisting? then HandlerStep(r2, job, p2, false, false, envs.relist) else (r2, p2);
    if p2.Relisting? { RunStep(r2, job, p2, last, cancelled, envs); }
    if p3.Returned? { RunEnds(r3, job, p3.result, last, cancelled, envs); }
  }

  /** From the provider's answer on. */
  lemma LastSteps(rows: seq<Row>, job: JobId, v: int, last: bool, cancelled: bool, envs: Envs)
    ensures RunHandler(rows, job, Calling(v), last, cancelled, envs) ==
            if envs.call.fault then (rows, Retryable) else
            match envs.call.answer
            case PermanentError => (if envs.record.fault then rows else FailVersion(rows, v), Permanent)
            case RetryableError =>
              (if last && !cancelled && !envs.record.fault then FailVersion(rows, v) else rows, Retryable)
            case Content(f, candidates, target) =>
              var g := Normalized(f, candidates, target);
              if envs.record.fault || !CanComplete(rows, v, g) then (rows, Retryable)
              else (CompleteVersion(rows, v, g), if envs.record.commitUnreported then Retryable else Done)
  {
    var (rows1, ph1) := HandlerStep(rows, job, Calling(v), last, cancelled, envs.call);
    RunStep(rows, job, Calling(v), last, cancelled, envs);
    if ph1.Returned? {
      RunEnds(rows1, job, ph1.result, last, cancelled, envs);
    } else {
      var (rows2, ph2) := HandlerStep(rows1, job, ph1, last, cancelled, envs.record);
      RunStep(rows1, job, ph1, last, cancelled, envs);
      RunEnds(rows2, job, ph2.result, last, cancelled, envs);
    }
  }

  /** The classifications table of one entry and the handler's operations on it. */
  class ClassifyService {
    var rows: seq<Row>

    constructor ()
      ensures rows == []
    {
      rows := [];
    }

    /** `version` is 0 on an error. */
    method EnsureClassification(job: JobId, listEnv: Env, createEnv: Env, relistEnv: Env)
      returns (version: int, created: bool, result: Option<HandlerResult>)
      modifies this
      ensures var (r1, p1) := HandlerStep(old(rows), job, Listing, false, false, listEnv);
              var (r2, p2) := if p1.Creating? then HandlerStep(r1, job, p1, false, false, createEnv) else (r1, p1);
              var (r3, p3) := if p2.Relisting? then HandlerStep(r2, job, p2, false, false, relistEnv) else (r2, p2);
              && rows == r3
              && p3 == match result
                       case Some(e) => Returned(e)
                       case None => if created then Calling(version) else Returned(Done)
    {
      if listEnv.fault { return 0, false, Some(Retryable); }
      var versions := ListVersions(rows);
      var own := SearchJob(versions, job);
      if own.Some? { return own.value.version, own.value.status == Pending, None; }
      var next := |versions| + 1;
      if createEnv.fault { return 0, false, Some(Retryable); }
      if !CreateConflicts(rows, next) {
        rows := rows + [NewRow(next, job)];
        return next, true, None;
      }
      if relistEnv.fault { return 0, false, Some(Retryable); }
      versions := ListVersions(rows);
      var winner := SearchVersion(versions, next);
      if winner.Some? { return winner.value.version, winner.value.status == Pending, None; }
      return 0, false, Some(VersionLost);
    }

    /** The statements of the completion transaction in order, with rollback at the first one that conflicts. */
    method CompleteAndActivate(v: int, f: Fields) returns (ok: bool)
      requires forall i, j :: 0 <= i < j < |rows| ==> rows[i].version != rows[j].version
      requires forall i :: 0 <= i < |rows| && rows[i].status == Pending ==>
                 rows[i].tags == {} && rows[i].related == {}
      modifies this
      ensures ok == CanComplete(old(rows), v, f)
      ensures rows == if ok then CompleteVersion(old(rows), v, f) else old(rows)
      ensures |rows| == |old(rows)| && forall i :: ok && 0 <= i < |rows| ==>
                if old(rows)[i].version == v
                then rows[i] == Row(v, old(rows)[i].job, Complete, true, f.summary, Members(f.tags), Members(f.related))
                else rows[i] == old(rows)[i].(active := false)
    {
      if !IsPending(rows, v) { return false; }
      var at :| 0 <= at < |rows| && rows[at].version == v && rows[at].status == Pending;
      var row := rows[at].(status := Complete, summary := f.summary);
      for i := 0 to |f.tags|
        invariant row == rows[at].(status := Complete, summary := f.summary, tags := Members(f.tags[..i]))
        invariant Distinct(f.tags[..i])
      {
        if f.tags[i] in row.tags {
          assert exists j :: 0 <= j < i && f.tags[j] == f.tags[i];
          return false;
        }
        assert f.tags[..i + 1] == f.tags[..i] + [f.tags[i]];
        row := row.(tags := row.tags + {f.tags[i]});
      }
      assert f.tags[..|f.tags|] == f.tags;
      for i := 0 to |f.related|
        invariant row == rows[at].(status := Complete, summary := f.summary, tags := Members(f.tags),
                                   related := Members(f.related[..i]))
        invariant Distinct(f.related[..i])
      {
        if f.related[i] in row.related {
          assert exists j :: 0 <= j < i && f.related[j] == f.related[i];
          return false;
        }
        assert f.related[..i + 1] == f.related[..i] + [f.related[i]];
        row := row.(related := row.related + {f.related[i]});
      }
      assert f.related[..|f.related|] == f.related;
      rows := seq(|rows|, i requires 0 <= i < |rows| reads this =>
        if i == at then row.(active := true) else rows[i].(active := false));
      ok := true;
    }

    /** Fails a pending version and keeps everything else about it; a decided or missing one is a conflict. Decided
        versions, other versions and the active flag are never touched. */
    method Fail(v: int, fault: bool) returns (ok: bool)
      modifies this
      ensures rows == if fault then old(rows) else FailVersion(old(rows), v)
      ensures ok <==> !fault && IsPending(old(rows), v)
      ensures !ok ==> rows == old(rows)
      ensures |rows| == |old(rows)| && forall i :: 0 <= i < |rows| ==>
                && (old(rows)[i].version != v || old(rows)[i].status != Pending ==> rows[i] == old(rows)[i])
                && rows[i] == old(rows)[i].(status := rows[i].status)
      ensures !fault ==> !IsPending(rows, v)
    {
      if fault || !IsPending(rows, v) {
        assert !IsPending(rows, v) ==> FailVersion(rows, v) == rows;
        return false;
      }
      var failed: seq<Row> := [];
      for i := 0 to |rows|
        invariant rows == old(rows) && failed == FailVersion(rows, v)[..i]
      {
        if rows[i].version == v && rows[i].status == Pending {
          failed := failed + [rows[i].(status := Failed)];
        } else {
          failed := failed + [rows[i]];
        }
      }
      rows := failed;
      ok := true;
    }

    /** One delivery with nothing in between. Its payload and its target are looked at before anything is written. */
    method Handle(input: Input, job: JobId, lastAttempt: bool, cancelled: bool, envs: Envs) returns (r: HandlerResult)
      requires forall i, j :: 0 <= i < j < |rows| ==> rows[i].version != rows[j].version
      requires forall i :: 0 <= i < |rows| && rows[i].status == Pending ==>
                 rows[i].tags == {} && rows[i].related == {}
      modifies this
      ensures input == Readable ==>
                (rows, r) == RunHandler(old(rows), job, Listing, lastAttempt, cancelled, envs)
      ensures input != Readable ==> rows == old(rows)
      ensures input == Malformed || input == TargetMissing ==> r == Permanent
      ensures input == TargetUnreadable ==> r == Retryable
    {
      match input {
        case Malformed => r := Permanent;
        case TargetMissing => r := Permanent;
        case TargetUnreadable => r := Retryable;
        case Readable => r := Process(job, lastAttempt, cancelled, envs);
      }
    }

    /** The calls in order amount to the step sequence. */
    method Process(job: JobId, lastAttempt: bool, cancelled: bool, envs: Envs) returns (r: HandlerResult)
      requires forall i, j :: 0 <= i < j < |rows| ==> rows[i].version != rows[j].version
      requires forall i :: 0 <= i < |rows| && rows[i].status == Pending ==>
                 rows[i].tags == {} && rows[i].related == {}
      modifies this
      ensures (rows, r) == RunHandler(old(rows), job, Listing, lastAttempt, cancelled, envs)
    {
      FirstSteps(rows, job, lastAttempt, cancelled, envs);
      var version, work, result := EnsureClassification(job, envs.list, envs.create, envs.relist);
      if result.Some? { return result.value; }
      if !work { return Done; }
      LastSteps(rows, job, version, lastAttempt, cancelled, envs);
      if envs.call.fault { return Retryable; }
      match envs.call.answer {
        case PermanentError =>
          var _ := Fail(version, envs.record.fault);
          return Permanent;
        case RetryableError =>
          if lastAttempt && !cancelled { var _ := Fail(version, envs.record.fault); }
          return Retryable;
        case Content(fields, candidates, target) =>
          var related := ValidateRelatedIds(Truncated(fields.related, MAX_RELATED), candidates, target);
          if envs.record.fault { return Retryable; }
          var ok := CompleteAndActivate(version, fields.(tags := Truncated(fields.tags, MAX_TAGS), related := related));
          r := if !ok || envs.record.commitUnreported then Retryable else Done;
      }
    }
  }

  // ----- deliveries interleaved -----

  datatype Delivery = Delivery(job: JobId, phase: Phase)
  /** One committed exit from pending. */
  datatype Exit = Exit(version: int, to: Status)
  datatype World = World(rows: seq<Row>, runs: map<nat, Delivery>, exits: seq<Exit>)

  datatype Event =
    | Deliver(id: nat, job: JobId)
    | Advance(id: nat, lastAttempt: bool, cancelled: bool, env: Env)
    | Crash(ids: set<nat>)

  function NewExits(rows: seq<Row>, ph: Phase, env: Env): seq<Exit> {
    match ph
    case Failing(v, _) => if !env.fault && IsPending(rows, v) then [Exit(v, Failed)] else []
    case Completing(v, f) => if !env.fault && CanComplete(rows, v, f) then [Exit(v, Complete)] else []
    case _ => []
  }

  function Step(w: World, e: Event): World {
    match e
    case Deliver(id, job) => if id in w.runs then w else w.(runs := w.runs[id := Delivery(job, Listing)])
    case Advance(id, lastAttempt, cancelled, env) =>
      if id !in w.runs then w else
      var d := w.runs[id];
      var (rows, ph) := HandlerStep(w.rows, d.job, d.phase, lastAttempt, cancelled, env);
      World(rows, w.runs[id := d.(phase := ph)], w.exits + NewExits(w.rows, d.phase, env))
    case Crash(ids) => w.(runs := w.runs - ids)
  }

  function Run(w: World, es: seq<Event>): World
    decreases |es|
  {
    if es == [] then w else Run(Step(w, es[0]), es[1..])
  }

  function EmptyWorld(): World { World([], map[], []) }

  // ----- what every reachable state satisfies -----

  /** Versions are exactly 1..n, and no job owns two of them. */
  ghost predicate Numbered(rows: seq<Row>) {
    && (forall i :: 0 <= i < |rows| ==> rows[i].version == i + 1)
    && (forall i, j :: 0 <= i < j < |rows| ==> rows[i].job != rows[j].job)
    && (forall i :: 0 <= i < |rows| && rows[i].status == Pending ==> rows[i].tags == {} && rows[i].related == {})
  }

  /** The version the latest committed completion produced. */
  function LatestCompletion(exits: seq<Exit>): Option<int> {
    if exits == [] then None
    else if exits[|exits| - 1].to == Complete then Some(exits[|exits| - 1].version)
    else LatestCompletion(exits[..|exits| - 1])
  }

  /** How often a version left pending for that status. */
  function ExitCount(exits: seq<Exit>, v: int, to: Status): nat {
    if exits == [] then 0
    else ExitCount(exits[..|exits| - 1], v, to) + if exits[|exits| - 1] == Exit(v, to) then 1 else 0
  }

  predicate HasStatus(rows: seq<Row>, v: int, to: Status) {
    1 <= v <= |rows| && rows[v - 1].status == to
  }

  /** Each version left pending exactly once for the status it has, and the active one completed last. */
  ghost predicate ExitsMatch(rows: seq<Row>, exits: seq<Exit>) {
    && (forall v, to :: ExitCount(exits, v, to) == if to != Pending && HasStatus(rows, v, to) then 1 else 0)
    && (LatestCompletion(exits).Some? ==> HasStatus(rows, LatestCompletion(exits).value, Complete))
    && (forall k :: 0 <= k < |rows| ==> (rows[k].active <==> LatestCompletion(exits) == Some(k + 1)))
  }

  ghost predicate PhaseSafe(rows: seq<Row>, d: Delivery) {
    match d.phase
    case Listing => true
    case Creating(next) => 1 <= next <= |rows| + 1 && forall i :: 0 <= i < next - 1 ==> rows[i].job != d.job
    case Relisting(next) => 1 <= next <= |rows|
    case Calling(v) => 1 <= v <= |rows|
    case Completing(v, f) => 1 <= v <= |rows| && Distinct(f.related)
    case Failing(v, _) => 1 <= v <= |rows|
    case Returned(r) => r != VersionLost
  }

  ghost predicate Safe(w: World) {
    && Numbered(w.rows)
    && ExitsMatch(w.rows, w.exits)
    && (forall id :: id in w.runs ==> PhaseSafe(w.rows, w.runs[id]))
  }
}
