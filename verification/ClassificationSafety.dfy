/** Safety of racing classification deliveries over every run, and what a race or a repeated tag costs. */
module ClassificationSafety {
  import opened Wrappers
  import opened Classification

  // ----- the version list of a numbered table -----

  lemma {:induction false} InsertBeforeLarger(r: Row, s: seq<Row>)
    requires forall i :: 0 <= i < |s| ==> r.version < s[i].version
    ensures InsertByVersion(r, s) == [r] + s
  {
  }

  lemma {:induction false} AscendingListsAsIs(rows: seq<Row>)
    requires forall i, j :: 0 <= i < j < |rows| ==> rows[i].version < rows[j].version
    ensures ListVersions(rows) == rows
  {
    if rows != [] {
      AscendingListsAsIs(rows[1..]);
      InsertBeforeLarger(rows[0], rows[1..]);
    }
  }

  // ----- one step -----

  lemma ExitAppended(exits: seq<Exit>, x: Exit)
    ensures LatestCompletion(exits + [x]) == if x.to == Complete then Some(x.version) else LatestCompletion(exits)
    ensures forall v, to ::
              ExitCount(exits + [x], v, to) == ExitCount(exits, v, to) + if x == Exit(v, to) then 1 else 0
  {
    assert (exits + [x])[..|exits|] == exits;
  }

  lemma ConflictsUpToLength(rows: seq<Row>, next: int)
    requires Numbered(rows) && 1 <= next
    ensures CreateConflicts(rows, next) <==> next <= |rows|
  {
    if next <= |rows| { assert rows[next - 1].version == next; }
  }

  lemma CreateKeepsSafe(rows: seq<Row>, exits: seq<Exit>, job: JobId, next: int)
    requires Numbered(rows) && ExitsMatch(rows, exits)
    requires PhaseSafe(rows, Delivery(job, Creating(next))) && !CreateConflicts(rows, next)
    ensures next == |rows| + 1
    ensures Numbered(rows + [NewRow(next, job)]) && ExitsMatch(rows + [NewRow(next, job)], exits)
  {
    ConflictsUpToLength(rows, next);
    var rows' := rows + [NewRow(next, job)];
    forall v, to ensures ExitCount(exits, v, to) == if to != Pending && HasStatus(rows', v, to) then 1 else 0 {
    }
  }

  lemma FailKeepsSafe(rows: seq<Row>, exits: seq<Exit>, v: int)
    requires Numbered(rows) && ExitsMatch(rows, exits) && IsPending(rows, v)
    ensures Numbered(FailVersion(rows, v)) && ExitsMatch(FailVersion(rows, v), exits + [Exit(v, Failed)])
  {
    ExitAppended(exits, Exit(v, Failed));
    var rows' := FailVersion(rows, v);
    assert forall k :: 0 <= k < |rows| ==> rows'[k] == if k == v - 1 then rows[k].(status := Failed) else rows[k];
    assert forall u, to :: HasStatus(rows', u, to) <==> if u == v then to == Failed else HasStatus(rows, u, to);
  }

  lemma CompleteKeepsSafe(rows: seq<Row>, exits: seq<Exit>, v: int, f: Fields)
    requires Numbered(rows) && ExitsMatch(rows, exits) && CanComplete(rows, v, f)
    ensures Numbered(CompleteVersion(rows, v, f)) && ExitsMatch(CompleteVersion(rows, v, f), exits + [Exit(v, Complete)])
  {
    ExitAppended(exits, Exit(v, Complete));
    var rows' := CompleteVersion(rows, v, f);
    assert forall k :: 0 <= k < |rows| ==>
      rows'[k] == if k == v - 1 then Completed(rows[k], f) else rows[k].(active := false);
    assert forall u, to :: HasStatus(rows', u, to) <==> if u == v then to == Complete else HasStatus(rows, u, to);
  }

  lemma FailOfSettled(rows: seq<Row>, v: int)
    requires !IsPending(rows, v)
    ensures FailVersion(rows, v) == rows
  {
  }

  lemma OwnListingStaysSafe(rows: seq<Row>, d: Delivery, lastAttempt: bool, cancelled: bool, env: Env)
    requires Numbered(rows) && PhaseSafe(rows, d) && (d.phase.Listing? || d.phase.Relisting?)
    ensures var (rows', ph) := HandlerStep(rows, d.job, d.phase, lastAttempt, cancelled, env);
            PhaseSafe(rows', d.(phase := ph))
  {
    AscendingListsAsIs(rows);
    if d.phase.Relisting? { assert rows[d.phase.next - 1].version == d.phase.next; }
  }

  /** A delivery's own phase stays meaningful, and "not found after re-list" is not reached. */
  lemma OwnPhaseStaysSafe(rows: seq<Row>, d: Delivery, lastAttempt: bool, cancelled: bool, env: Env)
    requires Numbered(rows) && PhaseSafe(rows, d)
    ensures var (rows', ph) := HandlerStep(rows, d.job, d.phase, lastAttempt, cancelled, env);
            PhaseSafe(rows', d.(phase := ph))
  {
    if d.phase.Listing? || d.phase.Relisting? {
      OwnListingStaysSafe(rows, d, lastAttempt, cancelled, env);
    }
  }

  lemma AdvanceKeepsTable(w: World, id: nat, lastAttempt: bool, cancelled: bool, env: Env)
    requires Safe(w) && id in w.runs
    ensures var w' := Step(w, Advance(id, lastAttempt, cancelled, env));
            Numbered(w'.rows) && ExitsMatch(w'.rows, w'.exits)
  {
    var d := w.runs[id];
    match d.phase {
      case Creating(next) =>
        if !env.fault && !CreateConflicts(w.rows, next) { CreateKeepsSafe(w.rows, w.exits, d.job, next); }
      case Failing(v, _) =>
        if !env.fault {
          if IsPending(w.rows, v) { FailKeepsSafe(w.rows, w.exits, v); } else { FailOfSettled(w.rows, v); }
        }
      case Completing(v, f) =>
        if !env.fault && CanComplete(w.rows, v, f) { CompleteKeepsSafe(w.rows, w.exits, v, f); }
      case _ =>
    }
    assert w.exits + [] == w.exits;
  }

  lemma RowsKeepTheirJobs(rows: seq<Row>, job: JobId, ph: Phase, lastAttempt: bool, cancelled: bool, env: Env)
    ensures var rows' := HandlerStep(rows, job, ph, lastAttempt, cancelled, env).0;
            |rows| <= |rows'| && forall i :: 0 <= i < |rows| ==> rows'[i].job == rows[i].job
  {
  }

  /** A table that only grew, each row keeping its job, leaves every delivery's phase meaningful. */
  lemma PhaseSurvivesGrowth(rows: seq<Row>, rows': seq<Row>, d: Delivery)
    requires PhaseSafe(rows, d) && |rows| <= |rows'|
    requires forall i :: 0 <= i < |rows| ==> rows'[i].job == rows[i].job
    ensures PhaseSafe(rows', d)
  {
  }

  lemma StepKeepsSafe(w: World, e: Event)
    requires Safe(w)
    ensures Safe(Step(w, e))
  {
    if e.Advance? && e.id in w.runs {
      AdvanceKeepsTable(w, e.id, e.lastAttempt, e.cancelled, e.env);
      RowsKeepTheirJobs(w.rows, w.runs[e.id].job, w.runs[e.id].phase, e.lastAttempt, e.cancelled, e.env);
      OwnPhaseStaysSafe(w.rows, w.runs[e.id], e.lastAttempt, e.cancelled, e.env);
      var w' := Step(w, e);
      forall k | k in w'.runs ensures PhaseSafe(w'.rows, w'.runs[k]) {
        if k != e.id { PhaseSurvivesGrowth(w.rows, w'.rows, w.runs[k]); }
      }
    }
  }

  lemma {:induction false} RunKeepsSafe(w: World, es: seq<Event>)
    requires Safe(w)
    ensures Safe(Run(w, es))
    decreases |es|
  {
    if es != [] {
      StepKeepsSafe(w, es[0]);
      RunKeepsSafe(Step(w, es[0]), es[1..]);
    }
  }

  // ----- the main results -----

  /** However deliveries race, crash and repeat: the stored versions are 1..n with at most one per job, every
      version leaves pending at most once, and the active version is exactly the latest completed one. */
  lemma VersionsStaySound(es: seq<Event>)
    ensures var w := Run(EmptyWorld(), es);
      && ListVersions(w.rows) == w.rows
      && (forall i :: 0 <= i < |w.rows| ==> w.rows[i].version == i + 1)
      && (forall i, j :: 0 <= i < j < |w.rows| ==> w.rows[i].job != w.rows[j].job)
      && (forall v, to :: ExitCount(w.exits, v, to) == if to != Pending && HasStatus(w.rows, v, to) then 1 else 0)
      && (forall v :: 1 <= v <= |w.rows| ==>
            && (w.rows[v - 1].active <==> LatestCompletion(w.exits) == Some(v))
            && (w.rows[v - 1].active ==> w.rows[v - 1].status == Complete))
      && (forall id :: id in w.runs ==> w.runs[id].phase != Returned(VersionLost))
  {
    RunKeepsSafe(EmptyWorld(), es);
    var w := Run(EmptyWorld(), es);
    AscendingListsAsIs(w.rows);
  }

  /** The insert is an optimistic lock: it succeeds exactly when no version was added since the listing. */
  lemma CreateSucceedsExactlyWhenListIsCurrent(es: seq<Event>, id: nat)
    requires id in Run(EmptyWorld(), es).runs && Run(EmptyWorld(), es).runs[id].phase.Creating?
    ensures var w := Run(EmptyWorld(), es);
            CreateConflicts(w.rows, w.runs[id].phase.next) <==> w.runs[id].phase.next <= |w.rows|
  {
    RunKeepsSafe(EmptyWorld(), es);
    var w := Run(EmptyWorld(), es);
    ConflictsUpToLength(w.rows, w.runs[id].phase.next);
  }

  lemma SettledRowsStepFixed(w: World, e: Event, k: nat)
    requires Safe(w) && k < |w.rows| && w.rows[k].status != Pending
    ensures k < |Step(w, e).rows| && Step(w, e).rows[k] == w.rows[k].(active := Step(w, e).rows[k].active)
  {
    if e.Advance? && e.id in w.runs {
      var ph := w.runs[e.id].phase;
      if ph.Completing? && CanComplete(w.rows, ph.version, ph.fields) {
        assert w.rows[k].version != ph.version;
      }
    }
  }

  /** Once decided, a version's job, status, summary, tags and links never change again. */
  lemma {:induction false} DecidedVersionsAreFinal(w: World, es: seq<Event>, k: nat)
    requires Safe(w) && k < |w.rows| && w.rows[k].status != Pending
    ensures k < |Run(w, es).rows| && Run(w, es).rows[k] == w.rows[k].(active := Run(w, es).rows[k].active)
    decreases |es|
  {
    if es != [] {
      StepKeepsSafe(w, es[0]);
      SettledRowsStepFixed(w, es[0], k);
      DecidedVersionsAreFinal(Step(w, es[0]), es[1..], k);
    }
  }

  // ----- one job alone -----

  ghost predicate OnlyJob(w: World, job: JobId) {
    && (forall i :: 0 <= i < |w.rows| ==> w.rows[i].job == job)
    && (forall id :: id in w.runs ==> w.runs[id].job == job)
  }

  lemma StepKeepsOnlyJob(w: World, e: Event, job: JobId)
    requires OnlyJob(w, job) && (e.Deliver? ==> e.job == job)
    ensures OnlyJob(Step(w, e), job)
  {
  }

  lemma {:induction false} RunKeepsOnlyJob(w: World, es: seq<Event>, job: JobId)
    requires OnlyJob(w, job) && forall i :: 0 <= i < |es| && es[i].Deliver? ==> es[i].job == job
    ensures OnlyJob(Run(w, es), job)
    decreases |es|
  {
    if es != [] {
      StepKeepsOnlyJob(w, es[0], job);
      RunKeepsOnlyJob(Step(w, es[0]), es[1..], job);
    }
  }

  lemma TwoRowsTwoJobs(rows: seq<Row>)
    requires Numbered(rows)
    ensures |rows| > 1 ==> exists i, j :: 0 <= i < |rows| && 0 <= j < |rows| && rows[i].job != rows[j].job
  {
    assert |rows| > 1 ==> rows[0].job != rows[1].job;
  }

  /** Any number of racing duplicate deliveries of one job share a single version, decided at most once. */
  lemma OneJobOneVersion(es: seq<Event>, job: JobId)
    requires forall i :: 0 <= i < |es| && es[i].Deliver? ==> es[i].job == job
    ensures var w := Run(EmptyWorld(), es);
      |w.rows| <= 1 && forall i :: 0 <= i < |w.rows| ==> w.rows[i].job == job
  {
    RunKeepsSafe(EmptyWorld(), es);
    RunKeepsOnlyJob(EmptyWorld(), es, job);
    TwoRowsTwoJobs(Run(EmptyWorld(), es).rows);
  }

  /** Whoever reported success left a decided version. */
  ghost predicate SuccessDecided(w: World) {
    (exists id :: id in w.runs && w.runs[id].phase == Returned(Done)) ==>
      exists k :: 0 <= k < |w.rows| && w.rows[k].status != Pending
  }

  lemma SuccessLeavesDecision(rows: seq<Row>, d: Delivery, lastAttempt: bool, cancelled: bool, env: Env)
    requires Numbered(rows) && PhaseSafe(rows, d) && d.phase != Returned(Done)
    ensures var (rows', ph) := HandlerStep(rows, d.job, d.phase, lastAttempt, cancelled, env);
            ph == Returned(Done) ==> exists k :: 0 <= k < |rows'| && rows'[k].status != Pending
  {
    AscendingListsAsIs(rows);
    match d.phase {
      case Completing(v, f) =>
        if CanComplete(rows, v, f) {
          assert rows[v - 1].version == v && CompleteVersion(rows, v, f)[v - 1].status == Complete;
        }
      case _ =>
    }
  }

  lemma StepKeepsSuccess(w: World, e: Event)
    requires Safe(w) && SuccessDecided(w)
    ensures SuccessDecided(Step(w, e))
  {
    var w' := Step(w, e);
    if k :| 0 <= k < |w.rows| && w.rows[k].status != Pending {
      SettledRowsStepFixed(w, e, k);
      assert w'.rows[k].status != Pending;
    } else if e.Advance? && e.id in w.runs {
      SuccessLeavesDecision(w.rows, w.runs[e.id], e.lastAttempt, e.cancelled, e.env);
      assert forall id :: id in w'.runs && id != e.id ==> id in w.runs && w'.runs[id] == w.runs[id];
    }
  }

  lemma {:induction false} RunKeepsSuccess(w: World, es: seq<Event>)
    requires Safe(w) && SuccessDecided(w)
    ensures SuccessDecided(Run(w, es))
    decreases |es|
  {
    if es != [] {
      StepKeepsSafe(w, es[0]);
      StepKeepsSuccess(w, es[0]);
      RunKeepsSuccess(Step(w, es[0]), es[1..]);
    }
  }

  /** While all deliveries carry one job, as the shipped enqueuer makes them, a delivery that reports success left the
      job's own version decided. */
  lemma OneJobSuccessIsOwn(es: seq<Event>, job: JobId, id: nat)
    requires forall i :: 0 <= i < |es| && es[i].Deliver? ==> es[i].job == job
    requires id in Run(EmptyWorld(), es).runs && Run(EmptyWorld(), es).runs[id].phase == Returned(Done)
    ensures var rows := Run(EmptyWorld(), es).rows;
            |rows| == 1 && rows[0].job == job && rows[0].status != Pending
  {
    OneJobOneVersion(es, job);
    RunKeepsSuccess(EmptyWorld(), es);
  }

  // ----- what one delivery does, seen from outside -----

  /** The job's version: the one it has, or the next. */
  ghost predicate OwnVersion(rows: seq<Row>, job: JobId, v: int) {
    && 1 <= v <= |rows| + 1
    && (v <= |rows| ==> rows[v - 1].job == job)
    && (v == |rows| + 1 ==> forall i :: 0 <= i < |rows| ==> rows[i].job != job)
  }

  /** The delivery obtains it undecided. */
  ghost predicate GetsWork(rows: seq<Row>, v: int, envs: Envs) {
    !envs.list.fault && if 1 <= v <= |rows| then rows[v - 1].status == Pending else !envs.create.fault
  }

  ghost predicate Stores(row: Row, v: int, job: JobId, f: Fields, candidates: set<Id>, target: Id) {
    row == Row(v, job, Complete, true, f.summary, Members(Truncated(f.tags, 8)),
               Members(Validated(Truncated(f.related, 5), candidates, target)))
  }

  /** How the version ends and what the handler returns, once it has work. */
  ghost predicate Ends(before: Row, row: Row, v: int, job: JobId, last: bool, cancelled: bool, envs: Envs,
                       r: HandlerResult) {
    if envs.call.fault then r == Retryable && row == before else
    match envs.call.answer
    case PermanentError =>
      r == Permanent && row == if envs.record.fault then before else before.(status := Failed)
    case RetryableError =>
      r == Retryable && row == if last && !cancelled && !envs.record.fault then before.(status := Failed) else before
    case Content(f, candidates, target) =>
      if envs.record.fault || !Distinct(Truncated(f.tags, 8)) then r == Retryable && row == before
      else Stores(row, v, job, f, candidates, target)
           && r == if envs.record.commitUnreported then Retryable else Done
  }

  ghost predicate Completes(envs: Envs) {
    !envs.call.fault && envs.call.answer.Content? && !envs.record.fault && Distinct(Truncated(envs.call.answer.fields.tags, 8))
  }

  ghost predicate Classified(rows: seq<Row>, rows': seq<Row>, job: JobId, v: int, last: bool, cancelled: bool,
                             envs: Envs, r: HandlerResult) {
    if GetsWork(rows, v, envs) then
      && |rows'| == (if v <= |rows| then |rows| else v) && 1 <= v <= |rows'|
      && (forall i :: 0 <= i < |rows| && i != v - 1 ==>
            rows'[i] == if Completes(envs) then rows[i].(active := false) else rows[i])
      && Ends(if v <= |rows| then rows[v - 1] else NewRow(v, job), rows'[v - 1], v, job, last, cancelled, envs, r)
    else
      rows' == rows && r == if envs.list.fault || v > |rows| then Retryable else Done
  }

  lemma EndsFromCalling(rows: seq<Row>, job: JobId, v: int, last: bool, cancelled: bool, envs: Envs)
    requires Numbered(rows) && 1 <= v <= |rows| && rows[v - 1].status == Pending && rows[v - 1].job == job
    ensures var (rows', r) := RunHandler(rows, job, Calling(v), last, cancelled, envs);
      && |rows'| == |rows|
      && (forall i :: 0 <= i < |rows| && i != v - 1 ==>
            rows'[i] == if Completes(envs) then rows[i].(active := false) else rows[i])
      && Ends(rows[v - 1], rows'[v - 1], v, job, last, cancelled, envs, r)
  {
    assert rows[v - 1].version == v && IsPending(rows, v);
    assert forall i :: 0 <= i < |rows| ==> (rows[i].version == v <==> i == v - 1);
    LastSteps(rows, job, v, last, cancelled, envs);
    if envs.call.answer.Content? {
      var f := envs.call.answer.fields;
      var g := Normalized(f, envs.call.answer.candidates, envs.call.answer.target);
      assert CanComplete(rows, v, g) <==> Distinct(Truncated(f.tags, 8));
    }
  }

  /** A handler left alone finds or adds the job's version and does exactly that to it. */
  lemma AloneClassifies(rows: seq<Row>, job: JobId, v: int, last: bool, cancelled: bool, envs: Envs)
    requires Numbered(rows) && OwnVersion(rows, job, v)
    ensures var (rows', r) := RunHandler(rows, job, Listing, last, cancelled, envs);
            Classified(rows, rows', job, v, last, cancelled, envs, r)
  {
    AscendingListsAsIs(rows);
    if !envs.list.fault {
      if v <= |rows| {
        FoundVersion(rows, job, v);
        if rows[v - 1].status == Pending { EndsFromCalling(rows, job, v, last, cancelled, envs); }
      } else {
        assert FindJob(rows, job).None?;
        assert !CreateConflicts(rows, v);
        if !envs.create.fault {
          var rows1 := rows + [NewRow(v, job)];
          assert RunHandler(rows, job, Listing, last, cancelled, envs)
              == RunHandler(rows, job, Creating(v), last, cancelled, envs)
              == RunHandler(rows1, job, Calling(v), last, cancelled, envs);
          EndsFromCalling(rows1, job, v, last, cancelled, envs);
        }
      }
    }
  }

  lemma FoundVersion(rows: seq<Row>, job: JobId, v: int)
    requires Numbered(rows) && 1 <= v <= |rows| && rows[v - 1].job == job
    ensures FindJob(rows, job) == Some(rows[v - 1]) && rows[v - 1].version == v
  {
    var found := FindJob(rows, job);
    assert rows[v - 1] in rows;
    if found.Some? {
      var i :| 0 <= i < |rows| && rows[i] == found.value;
      assert i == v - 1;
    }
  }

  /** The delivery's events, as far as they go. */
  function DeliveryEvents(rows: seq<Row>, job: JobId, ph: Phase, id: nat, last: bool, cancelled: bool, envs: Envs)
    : seq<Event>
    decreases Rank(ph)
  {
    if ph.Returned? then [] else
    var (rows', ph') := HandlerStep(rows, job, ph, last, cancelled, EnvFor(ph, envs));
    [Advance(id, last, cancelled, EnvFor(ph, envs))] + DeliveryEvents(rows', job, ph', id, last, cancelled, envs)
  }

  /** Left alone, a delivery's events leave the rows and the result that the handler makes. */
  lemma {:induction false} DeliveryIsARun(w: World, job: JobId, ph: Phase, id: nat, last: bool, cancelled: bool,
                                          envs: Envs)
    requires id in w.runs && w.runs[id] == Delivery(job, ph)
    ensures var w' := Run(w, DeliveryEvents(w.rows, job, ph, id, last, cancelled, envs));
            var (rows', r) := RunHandler(w.rows, job, ph, last, cancelled, envs);
            w'.rows == rows' && id in w'.runs && w'.runs[id] == Delivery(job, Returned(r))
    decreases Rank(ph)
  {
    if !ph.Returned? {
      var (rows', ph') := HandlerStep(w.rows, job, ph, last, cancelled, EnvFor(ph, envs));
      NextAdvance(w, job, ph, id, last, cancelled, envs);
      var w1 := Step(w, Advance(id, last, cancelled, EnvFor(ph, envs)));
      DeliveryIsARun(w1, job, ph', id, last, cancelled, envs);
      RunStep(w.rows, job, ph, last, cancelled, envs);
    }
  }

  lemma {:induction false} NextAdvance(w: World, job: JobId, ph: Phase, id: nat, last: bool, cancelled: bool, envs: Envs)
    requires id in w.runs && w.runs[id] == Delivery(job, ph) && !ph.Returned?
    ensures var (rows', ph') := HandlerStep(w.rows, job, ph, last, cancelled, EnvFor(ph, envs));
            var w1 := Step(w, Advance(id, last, cancelled, EnvFor(ph, envs)));
      && w1.rows == rows' && id in w1.runs && w1.runs[id] == Delivery(job, ph')
      && Run(w, DeliveryEvents(w.rows, job, ph, id, last, cancelled, envs))
         == Run(w1, DeliveryEvents(rows', job, ph', id, last, cancelled, envs))
  {
    var (rows', ph') := HandlerStep(w.rows, job, ph, last, cancelled, EnvFor(ph, envs));
    var e := Advance(id, last, cancelled, EnvFor(ph, envs));
    var rest := DeliveryEvents(rows', job, ph', id, last, cancelled, envs);
    assert ([e] + rest)[1..] == rest;
  }

  /** A new delivery starts at the listing, and a crash forgets deliveries but not versions. */
  lemma DeliveriesComeAndGo(w: World, id: nat, job: JobId)
    ensures id !in w.runs ==> Step(w, Deliver(id, job)).runs[id] == Delivery(job, Listing)
    ensures id !in Step(w, Crash({id})).runs && Step(w, Crash({id})).rows == w.rows
  {
  }

  // ----- exactly when a delivery adopts another job's version -----

  /** The event inserts version `v` for job `j`. */
  predicate Inserts(w: World, e: Event, v: int, j: JobId) {
    && e.Advance? && e.id in w.runs && w.runs[e.id] == Delivery(j, Creating(v))
    && !e.env.fault && !CreateConflicts(w.rows, v)
  }

  predicate InsertedDuring(w: World, es: seq<Event>, v: int, j: JobId)
    decreases |es|
  {
    es != [] && (Inserts(w, es[0], v, j) || InsertedDuring(Step(w, es[0]), es[1..], v, j))
  }

  lemma StepAddsOneRow(w: World, e: Event)
    requires Safe(w)
    ensures |w.rows| <= |Step(w, e).rows| <= |w.rows| + 1
    ensures forall i :: 0 <= i < |w.rows| ==> Step(w, e).rows[i].job == w.rows[i].job
    ensures forall v, j :: Inserts(w, e, v, j) <==>
              v == |w.rows| + 1 && |Step(w, e).rows| == v && Step(w, e).rows[v - 1].job == j
  {
    if e.Advance? && e.id in w.runs {
      var d := w.runs[e.id];
      RowsKeepTheirJobs(w.rows, d.job, d.phase, e.lastAttempt, e.cancelled, e.env);
      if d.phase.Creating? { ConflictsUpToLength(w.rows, d.phase.next); }
    }
  }

  lemma {:induction false} RunKeepsJobs(w: World, es: seq<Event>, i: nat)
    requires Safe(w) && i < |w.rows|
    ensures i < |Run(w, es).rows| && Run(w, es).rows[i].job == w.rows[i].job
    decreases |es|
  {
    if es != [] {
      StepKeepsSafe(w, es[0]);
      StepAddsOneRow(w, es[0]);
      RunKeepsJobs(Step(w, es[0]), es[1..], i);
    }
  }

  lemma {:induction false} NeverInsertedAgain(w: World, es: seq<Event>, v: int, j: JobId)
    requires Safe(w) && v <= |w.rows|
    ensures !InsertedDuring(w, es, v, j)
    decreases |es|
  {
    if es != [] {
      StepKeepsSafe(w, es[0]);
      StepAddsOneRow(w, es[0]);
      NeverInsertedAgain(Step(w, es[0]), es[1..], v, j);
    }
  }

  /** A version that did not exist before a run belongs afterwards to exactly the job that inserted it during the run. */
  lemma {:induction false} InsertedExactly(w: World, es: seq<Event>, v: nat, j: JobId)
    requires Safe(w) && |w.rows| < v
    ensures InsertedDuring(w, es, v, j) <==> v <= |Run(w, es).rows| && Run(w, es).rows[v - 1].job == j
    decreases |es|
  {
    if es != [] {
      var w1 := Step(w, es[0]);
      StepKeepsSafe(w, es[0]);
      StepAddsOneRow(w, es[0]);
      if |w1.rows| < v {
        InsertedExactly(w1, es[1..], v, j);
      } else {
        NeverInsertedAgain(w1, es[1..], v, j);
        RunKeepsJobs(w1, es[1..], v - 1);
      }
    }
  }

  lemma ForeignExactly(w: World, es: seq<Event>, v: nat, job: JobId)
    requires Safe(w) && |w.rows| < v <= |Run(w, es).rows|
    ensures Run(w, es).rows[v - 1].job != job <==> exists j :: j != job && InsertedDuring(w, es, v, j)
  {
    InsertedExactly(w, es, v, Run(w, es).rows[v - 1].job);
    forall j | InsertedDuring(w, es, v, j) ensures j == Run(w, es).rows[v - 1].job {
      InsertedExactly(w, es, v, j);
    }
  }

  lemma ListingFindsNext(w: World, e: Event)
    requires Safe(w) && e.Advance? && e.id in w.runs && w.runs[e.id].phase == Listing
    ensures var w' := Step(w, e);
            w'.runs[e.id].phase.Creating? ==> w'.rows == w.rows && w'.runs[e.id].phase.next == |w.rows| + 1
  {
    AscendingListsAsIs(w.rows);
  }

  lemma RelistingAdopts(w: World, e: Event)
    requires Safe(w) && e.Advance? && !e.env.fault && e.id in w.runs && w.runs[e.id].phase.Relisting?
    ensures var v := w.runs[e.id].phase.next;
            1 <= v <= |w.rows| && Step(w, e).runs[e.id].phase == Adopt(w.rows[v - 1])
  {
    AscendingListsAsIs(w.rows);
    assert PhaseSafe(w.rows, w.runs[e.id]);
    assert w.rows[w.runs[e.id].phase.next - 1].version == w.runs[e.id].phase.next;
  }

  /** A delivery lists the versions, then conflicts, then takes over the row that won. That row is another job's exactly
      when another job inserted it after the listing. */
  lemma AdoptsForeignExactly(es: seq<Event>, id: nat, listing: Event, later: seq<Event>, relisting: Event)
    requires var w := Run(EmptyWorld(), es); id in w.runs && w.runs[id].phase == Listing
    requires listing.Advance? && listing.id == id && relisting.Advance? && relisting.id == id && !relisting.env.fault
    requires var w1 := Step(Run(EmptyWorld(), es), listing);
             && w1.runs[id].phase.Creating?
             && var w2 := Run(w1, later);
                id in w2.runs && w2.runs[id] == Delivery(w1.runs[id].job, Relisting(w1.runs[id].phase.next))
    ensures var w1 := Step(Run(EmptyWorld(), es), listing);
            var w2 := Run(w1, later);
            var d := w1.runs[id];
            var v := d.phase.next;
      && 1 <= v <= |w2.rows| && Step(w2, relisting).runs[id].phase == Adopt(w2.rows[v - 1])
      && (w2.rows[v - 1].job != d.job <==> exists j :: j != d.job && InsertedDuring(w1, later, v, j))
  {
    var w := Run(EmptyWorld(), es);
    RunKeepsSafe(EmptyWorld(), es);
    StepKeepsSafe(w, listing);
    ListingFindsNext(w, listing);
    var w1 := Step(w, listing);
    RunKeepsSafe(w1, later);
    RelistingAdopts(Run(w1, later), relisting);
    ForeignExactly(w1, later, w1.runs[id].phase.next, w1.runs[id].job);
  }

  // ----- what the code does not give -----

  predicate RepeatsTag(e: Event) {
    e.Advance? ==> e.env.answer.Content? && !Distinct(Truncated(e.env.answer.fields.tags, MAX_TAGS))
  }

  ghost predicate NothingDecided(w: World) {
    && w.exits == []
    && (forall i :: 0 <= i < |w.rows| ==> w.rows[i].status == Pending)
    && (forall id :: id in w.runs ==>
          && !w.runs[id].phase.Failing?
          && (w.runs[id].phase.Completing? ==> !Distinct(w.runs[id].phase.fields.tags)))
  }

  lemma StepDecidesNothing(w: World, e: Event)
    requires NothingDecided(w) && RepeatsTag(e)
    ensures NothingDecided(Step(w, e))
  {
  }

  lemma {:induction false} RunDecidesNothing(w: World, es: seq<Event>)
    requires NothingDecided(w) && forall i :: 0 <= i < |es| ==> RepeatsTag(es[i])
    ensures NothingDecided(Run(w, es))
    decreases |es|
  {
    if es != [] {
      StepDecidesNothing(w, es[0]);
      RunDecidesNothing(Step(w, es[0]), es[1..]);
    }
  }

  /** The normaliser drops repeated related ids but keeps repeated tags, and the tag table's key rejects them:
      a model that keeps repeating a tag never settles any version, on the last attempt either. */
  lemma RepeatedTagNeverSettles(es: seq<Event>)
    requires forall i :: 0 <= i < |es| ==> RepeatsTag(es[i])
    ensures forall i :: 0 <= i < |Run(EmptyWorld(), es).rows| ==> Run(EmptyWorld(), es).rows[i].status == Pending
  {
    RunDecidesNothing(EmptyWorld(), es);
  }

  /** For a handler about to complete a reachable pending version, without faults: it commits if and only if
      the answer's tags are all different. */
  lemma CompletesExactlyOnDistinctTags(es: seq<Event>, id: nat)
    requires id in Run(EmptyWorld(), es).runs && Run(EmptyWorld(), es).runs[id].phase.Completing?
    requires var w := Run(EmptyWorld(), es); IsPending(w.rows, w.runs[id].phase.version)
    ensures var w := Run(EmptyWorld(), es);
            var ph := w.runs[id].phase;
            CanComplete(w.rows, ph.version, ph.fields) <==> Distinct(ph.fields.tags)
  {
    RunKeepsSafe(EmptyWorld(), es);
  }

  function Plain(content: bool): Env {
    Env(false, if content then Content(Fields("", [], []), {}, "") else RetryableError, false)
  }

  function Go(id: nat): Event { Advance(id, false, false, Plain(true)) }

  const NOTHING := Fields("", [], [])

  function Race(rows: seq<Row>, first: Phase, second: Phase, exits: seq<Exit>): World {
    World(rows, map[1 := Delivery(1, first), 2 := Delivery(2, second)], exits)
  }

  lemma {:induction false} RunAppend(w: World, es: seq<Event>, fs: seq<Event>)
    ensures Run(w, es + fs) == Run(Run(w, es), fs)
    decreases |es|
  {
    if es == [] {
      assert es + fs == fs;
    } else {
      assert (es + fs)[1..] == es[1..] + fs;
      RunAppend(Step(w, es[0]), es[1..], fs);
    }
  }

  lemma StepLast(w: World, es: seq<Event>, e: Event)
    ensures Run(w, es + [e]) == Step(Run(w, es), e)
  {
    RunAppend(w, es, [e]);
    assert [e][1..] == [];
  }

  lemma BothList()
    ensures Run(EmptyWorld(), [Deliver(1, 1), Deliver(2, 2), Go(1), Go(2)]) == Race([], Creating(1), Creating(1), [])
  {
    var w := EmptyWorld();
    assert Run(w, []) == w;
    StepLast(w, [], Deliver(1, 1));
    assert [] + [Deliver(1, 1)] == [Deliver(1, 1)];
    StepLast(w, [Deliver(1, 1)], Deliver(2, 2));
    StepLast(w, [Deliver(1, 1), Deliver(2, 2)], Go(1));
    StepLast(w, [Deliver(1, 1), Deliver(2, 2), Go(1)], Go(2));
    assert Race([], Listing, Listing, []).exits + [] == [];
  }

  lemma FirstCreates()
    ensures Step(Race([], Creating(1), Creating(1), []), Go(1)) == Race([NewRow(1, 1)], Calling(1), Creating(1), [])
  {
    assert !CreateConflicts([], 1);
  }

  lemma SecondConflicts()
    ensures Step(Race([NewRow(1, 1)], Calling(1), Creating(1), []), Go(2))
         == Race([NewRow(1, 1)], Calling(1), Relisting(1), [])
  {
    assert [NewRow(1, 1)][0].version == 1;
  }

  lemma SecondAdopts()
    ensures Step(Race([NewRow(1, 1)], Calling(1), Relisting(1), []), Go(2))
         == Race([NewRow(1, 1)], Calling(1), Calling(1), [])
  {
    AscendingListsAsIs([NewRow(1, 1)]);
  }

  lemma SecondCompletes()
    ensures Step(Race([NewRow(1, 1)], Calling(1), Completing(1, NOTHING), []), Go(2))
         == Race([Completed(NewRow(1, 1), NOTHING)], Calling(1), Returned(Done), [Exit(1, Complete)])
  {
    assert [NewRow(1, 1)][0].version == 1;
    assert CanComplete([NewRow(1, 1)], 1, NOTHING);
    assert CompleteVersion([NewRow(1, 1)], 1, NOTHING) == [Completed(NewRow(1, 1), NOTHING)];
  }

  const RACE := [Deliver(1, 1), Deliver(2, 2), Go(1), Go(2)]

  lemma RaceIsAdopted()
    ensures Run(EmptyWorld(), RACE + [Go(1), Go(2), Go(2)]) == Race([NewRow(1, 1)], Calling(1), Calling(1), [])
  {
    BothList(); FirstCreates(); SecondConflicts(); SecondAdopts();
    StepLast(EmptyWorld(), RACE, Go(1));
    StepLast(EmptyWorld(), RACE + [Go(1)], Go(2));
    StepLast(EmptyWorld(), RACE + [Go(1), Go(2)], Go(2));
    assert RACE + [Go(1)] + [Go(2)] == RACE + [Go(1), Go(2)];
    assert RACE + [Go(1), Go(2)] + [Go(2)] == RACE + [Go(1), Go(2), Go(2)];
  }

  /** Two jobs race for version 1; the loser adopts it, completes it, and reports success, although
      no version carries the loser's job. */
  lemma LoserDecidesTheWinnersVersion()
    ensures exists es ::
              Run(EmptyWorld(), es)
              == Race([Completed(NewRow(1, 1), NOTHING)], Calling(1), Returned(Done), [Exit(1, Complete)])
  {
    RaceIsAdopted();
    var es := RACE + [Go(1), Go(2), Go(2)];
    StepLast(EmptyWorld(), es, Go(2));
    assert Run(EmptyWorld(), es + [Go(2)]) == Race([NewRow(1, 1)], Calling(1), Completing(1, NOTHING), []);
    SecondCompletes();
    StepLast(EmptyWorld(), es + [Go(2)], Go(2));
  }

  /** The newest completion need not be the newest version: completing any version takes the active flag away from
      every other one, newer ones included. */
  lemma LateCompletionTakesOver(es: seq<Event>, id: nat, go: Event, newer: nat)
    requires var w := Run(EmptyWorld(), es);
      && id in w.runs && w.runs[id].phase.Completing? && go.Advance? && go.id == id && !go.env.fault
      && IsPending(w.rows, w.runs[id].phase.version) && Distinct(w.runs[id].phase.fields.tags)
      && w.runs[id].phase.version < newer && 0 < newer <= |w.rows| && w.rows[newer - 1].active
    ensures var w := Run(EmptyWorld(), es);
            var rows := Step(w, go).rows;
      && 1 <= w.runs[id].phase.version < newer <= |rows|
      && rows[w.runs[id].phase.version - 1].active && !rows[newer - 1].active && rows[newer - 1].status == Complete
  {
    RunKeepsSafe(EmptyWorld(), es);
    var w := Run(EmptyWorld(), es);
    assert w.rows[newer - 1].version == newer && w.rows[newer - 1].status == Complete;
  }

  lemma FirstGoes(rows: seq<Row>, first: Phase, second: Phase, exits: seq<Exit>)
    ensures var (rows', ph) := HandlerStep(rows, 1, first, false, false, Plain(true));
            Step(Race(rows, first, second, exits), Go(1))
            == Race(rows', ph, second, exits + NewExits(rows, first, Plain(true)))
  {
    var ph := HandlerStep(rows, 1, first, false, false, Plain(true)).1;
    assert map[1 := Delivery(1, first), 2 := Delivery(2, second)][1 := Delivery(1, ph)]
        == map[1 := Delivery(1, ph), 2 := Delivery(2, second)];
  }

  lemma SecondGoes(rows: seq<Row>, first: Phase, second: Phase, exits: seq<Exit>)
    ensures var (rows', ph) := HandlerStep(rows, 2, second, false, false, Plain(true));
            Step(Race(rows, first, second, exits), Go(2))
            == Race(rows', first, ph, exits + NewExits(rows, second, Plain(true)))
  {
    var ph := HandlerStep(rows, 2, second, false, false, Plain(true)).1;
    assert map[1 := Delivery(1, first), 2 := Delivery(2, second)][2 := Delivery(2, ph)]
        == map[1 := Delivery(1, first), 2 := Delivery(2, ph)];
  }

  /** Both jobs allocate a version one after the other and stop before completing. */
  const ALLOCATE := [Deliver(1, 1), Deliver(2, 2), Go(1), Go(1), Go(1), Go(2), Go(2), Go(2)]

  lemma FirstAllocates()
    ensures Run(EmptyWorld(), [Deliver(1, 1), Deliver(2, 2), Go(1), Go(1), Go(1)])
         == Race([NewRow(1, 1)], Completing(1, NOTHING), Listing, [])
  {
    var w := EmptyWorld();
    assert Run(w, []) == w && [] + [Deliver(1, 1)] == [Deliver(1, 1)];
    StepLast(w, [], Deliver(1, 1));
    StepLast(w, [Deliver(1, 1)], Deliver(2, 2));
    assert Run(w, [Deliver(1, 1), Deliver(2, 2)]) == Race([], Listing, Listing, []);
    FirstGoes([], Listing, Listing, []);
    FirstGoes([], Creating(1), Listing, []);
    FirstGoes([NewRow(1, 1)], Calling(1), Listing, []);
    StepLast(w, [Deliver(1, 1), Deliver(2, 2)], Go(1));
    StepLast(w, [Deliver(1, 1), Deliver(2, 2), Go(1)], Go(1));
    StepLast(w, [Deliver(1, 1), Deliver(2, 2), Go(1), Go(1)], Go(1));
  }

  lemma SecondLists(first: Phase)
    ensures Step(Race([NewRow(1, 1)], first, Listing, []), Go(2)) == Race([NewRow(1, 1)], first, Creating(2), [])
  {
    AscendingListsAsIs([NewRow(1, 1)]);
    SecondGoes([NewRow(1, 1)], first, Listing, []);
  }

  lemma SecondCreates(first: Phase)
    ensures Step(Race([NewRow(1, 1)], first, Creating(2), []), Go(2))
         == Race([NewRow(1, 1), NewRow(2, 2)], first, Calling(2), [])
  {
    SecondGoes([NewRow(1, 1)], first, Creating(2), []);
    assert !CreateConflicts([NewRow(1, 1)], 2) && [NewRow(1, 1)] + [NewRow(2, 2)] == [NewRow(1, 1), NewRow(2, 2)];
  }

  lemma SecondAllocates()
    ensures Run(EmptyWorld(), ALLOCATE)
         == Race([NewRow(1, 1), NewRow(2, 2)], Completing(1, NOTHING), Completing(2, NOTHING), [])
  {
    var w, es := EmptyWorld(), [Deliver(1, 1), Deliver(2, 2), Go(1), Go(1), Go(1)];
    FirstAllocates();
    SecondLists(Completing(1, NOTHING));
    SecondCreates(Completing(1, NOTHING));
    SecondGoes([NewRow(1, 1), NewRow(2, 2)], Completing(1, NOTHING), Calling(2), []);
    StepLast(w, es, Go(2));
    StepLast(w, es + [Go(2)], Go(2));
    StepLast(w, es + [Go(2)] + [Go(2)], Go(2));
    assert ALLOCATE == es + [Go(2)] + [Go(2)] + [Go(2)];
  }

  /** A run in which version 2 completes first and the late version 1 ends up active. */
  lemma OlderVersionEndsUpActive()
    ensures var rows := Run(EmptyWorld(), ALLOCATE + [Go(2)] + [Go(1)]).rows;
      |rows| == 2 && rows[0].active && !rows[1].active && rows[0].status == Complete && rows[1].status == Complete
  {
    SecondAllocates();
    var two := [NewRow(1, 1), NewRow(2, 2)];
    var w := Race(two, Completing(1, NOTHING), Completing(2, NOTHING), []);
    StepLast(EmptyWorld(), ALLOCATE, Go(2));
    StepLast(EmptyWorld(), ALLOCATE + [Go(2)], Go(1));
    assert two[1].version == 2 && CanComplete(two, 2, NOTHING);
    var w1 := Step(w, Go(2));
    assert w1.rows[0].version == 1 && w1.rows[0].status == Pending && CanComplete(w1.rows, 1, NOTHING);
    assert w1.rows[1].active && w1.rows[1].status == Complete;
  }
}
