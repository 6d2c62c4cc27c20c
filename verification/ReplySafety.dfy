/** Safety of the reply protocol over every run: at most one visible reply per job, a reply exactly for
    each completed generation, and no job recorded as succeeded without a finished generation. */
module ReplySafety {
  import opened Wrappers
  import opened JobQueue
  import opened JobWorker
  import opened ReplyProtocol

  // ----- one handler operation -----

  /** `st'` keeps everything already decided in `st`: finished generations and written replies never change. */
  ghost predicate Extends(st: Store, st': Store) {
    && st.replies <= st'.replies
    && (forall id :: id in st.gens ==>
          id in st'.gens && st'.gens[id].target == st.gens[id].target && st'.gens[id].kind == st.gens[id].kind)
    && (forall id :: IsTerminal(st, id) ==> st'.gens[id] == st.gens[id])
  }

  lemma CompleteKeepsStore(st: Store, id: JobId, p: Payload)
    requires StoreSafe(st) && IsPending(st, id)
    requires st.gens[id].target == p.target && st.gens[id].kind == p.kind
    ensures StoreSafe(CompleteGeneration(st, id, p)) && Extends(st, CompleteGeneration(st, id, p))
    ensures IsTerminal(CompleteGeneration(st, id, p), id)
  {
    var st' := CompleteGeneration(st, id, p);
    assert forall i :: 0 <= i < |st.replies| ==> st'.replies[i] == st.replies[i] && st.replies[i].job != id;
  }

  lemma CreateKeepsStore(st: Store, id: JobId, p: Payload)
    requires StoreSafe(st) && !CreateConflicts(st, id, p)
    ensures StoreSafe(CreateGeneration(st, id, p)) && Extends(st, CreateGeneration(st, id, p))
  {
    assert forall i :: 0 <= i < |st.replies| ==> st.replies[i].job != id;
  }

  lemma FailKeepsStore(st: Store, id: JobId)
    requires StoreSafe(st)
    ensures StoreSafe(FailGeneration(st, id)) && Extends(st, FailGeneration(st, id))
  {
  }

  /** `st'` differs from `st` at most in the generation of `id`, which is for the payload `p`. */
  ghost predicate OnlyTouches(st: Store, st': Store, id: JobId, p: Payload) {
    && (forall other :: other in st'.gens && other != id ==> other in st.gens && st'.gens[other] == st.gens[other])
    && (id in st'.gens ==> st'.gens[id].target == p.target && st'.gens[id].kind == p.kind)
  }

  lemma HandlerStepKeepsStore(st: Store, id: JobId, p: Payload, ph: Phase, last: bool, cancelled: bool, env: Env)
    requires StoreSafe(st)
    requires id in st.gens ==> st.gens[id].target == p.target && st.gens[id].kind == p.kind
    ensures var (st', ph') := HandlerStep(st, id, p, ph, last, cancelled, env);
            StoreSafe(st') && Extends(st, st') && OnlyTouches(st, st', id, p)
  {
    match ph
    case Starting => if !CreateConflicts(st, id, p) { CreateKeepsStore(st, id, p); }
    case Failing(_) => FailKeepsStore(st, id);
    case Completing => if IsPending(st, id) { CompleteKeepsStore(st, id, p); }
    case _ => assert HandlerStep(st, id, p, ph, last, cancelled, env).0 == st;
  }

  /** A handler reports success only for a finished generation. */
  lemma SuccessMeansFinished(st: Store, id: JobId, p: Payload, ph: Phase, last: bool, cancelled: bool, env: Env)
    requires ph != Returned(Done)
    ensures var (st', ph') := HandlerStep(st, id, p, ph, last, cancelled, env);
            ph' == Returned(Done) ==> IsTerminal(st', id)
  {
  }

  // ----- one event -----

  lemma RunsKeepOwnership(q: Queue, e: QueueEvent, key: RunKey)
    requires Fenced(q) && key.1.generation < q.nextGen && key.0 in q.rows
    ensures var q' := QueueStep(q, e);
            && key.0 in q'.rows && q.nextGen <= q'.nextGen
            && (Owned(q'.rows, key.0, key.1) ==>
                  Owned(q.rows, key.0, key.1) && q'.rows[key.0].attempt == q.rows[key.0].attempt)
  {
  }

  /** A queue write that marks no row succeeded on its own account keeps the protocol safe. */
  lemma QueueWriteKeepsSafe(w: World, e: QueueEvent)
    requires Safe(w) && (e.Renew? || e.Requeue? || e.Settle?)
    requires e.Settle? && e.outcome == Success && Owned(w.q.rows, e.id, e.owner) ==> IsTerminal(w.store, e.id)
    ensures Safe(w.(q := QueueStep(w.q, e)))
  {
    FencedStep(w.q, e);
    DecidedOnceStep(w.q, e);
    forall key | key in w.runs { RunsKeepOwnership(w.q, e, key); }
  }

  /** Changing one run keeps the protocol safe if it reports success only for a finished generation. */
  lemma RunUpdateKeepsSafe(w: World, key: RunKey, r: Run)
    requires Safe(w) && key in w.runs && r.attempt == w.runs[key].attempt
    requires ReportsDone(r) ==> IsTerminal(w.store, key.0)
    ensures Safe(WithRun(w, key, r))
  {
  }

  lemma StoreUpdateKeepsSafe(w: World, st: Store)
    requires Safe(w) && StoreSafe(st) && Extends(w.store, st) && PayloadsMatch(st, w.payloads)
    ensures Safe(w.(store := st))
  {
    assert forall id :: IsTerminal(w.store, id) ==> IsTerminal(st, id);
  }

  lemma AdvanceKeepsSafe(w: World, key: RunKey, last: bool, env: Env)
    requires Safe(w)
    ensures Safe(Step(w, Advance(key, last, env)))
  {
    if key in w.runs && w.runs[key].handler.Some? && key.0 in w.payloads {
      var r := w.runs[key];
      var ph := r.handler.value;
      HandlerStepKeepsStore(w.store, key.0, w.payloads[key.0], ph, last, r.cancelled, env);
      var (st', ph') := HandlerStep(w.store, key.0, w.payloads[key.0], ph, last, r.cancelled, env);
      if ph != Returned(Done) {
        SuccessMeansFinished(w.store, key.0, w.payloads[key.0], ph, last, r.cancelled, env);
      }
      StoreUpdateKeepsSafe(w, st');
      assert ph == Returned(Done) ==> ReportsDone(w.runs[key]);
      RunUpdateKeepsSafe(w.(store := st'), key, r.(handler := Some(ph')));
    }
  }

  lemma ClaimKeepsSafe(w: World, e: Event)
    requires Safe(w) && e.ClaimJobs?
    ensures Safe(Step(w, e))
  {
    var claim := Claim(e.worker, e.ids, e.now, e.expires);
    if Enabled(w.q, claim) {
      FencedStep(w.q, claim);
      DecidedOnceStep(w.q, claim);
      var w' := Step(w, e);
      forall key | key in w'.runs
        ensures key.0 in w'.q.rows && key.1.generation < w'.q.nextGen
        ensures ReportsDone(w'.runs[key]) ==> IsTerminal(w'.store, key.0)
        ensures Owned(w'.q.rows, key.0, key.1) ==> w'.runs[key].attempt == w'.q.rows[key.0].attempt
      {
        if key in w.runs { RunsKeepOwnership(w.q, claim, key); }
      }
    }
  }

  /** A worker's transition together with the queue write it makes. */
  lemma RunAndWriteKeepSafe(w: World, key: RunKey, r: Run, e: QueueEvent)
    requires Safe(w) && key in w.runs && r.attempt == w.runs[key].attempt
    requires ReportsDone(r) ==> IsTerminal(w.store, key.0)
    requires e.Renew? || e.Settle?
    requires e.Settle? && e.outcome == Success && Owned(w.q.rows, e.id, e.owner) ==> IsTerminal(w.store, e.id)
    ensures Safe(WithRun(w, key, r)) && Safe(WithRun(w, key, r).(q := QueueStep(w.q, e)))
  {
    RunUpdateKeepsSafe(w, key, r);
    QueueWriteKeepsSafe(WithRun(w, key, r), e);
  }

  lemma ConfirmKeepsSafe(w: World, key: RunKey, fault: bool, expires: int)
    requires Safe(w)
    ensures Safe(Step(w, ConfirmDispatch(key, fault, expires)))
  {
    if key in w.runs && w.runs[key].worker == Confirming {
      var r := w.runs[key];
      if fault || !Owned(w.q.rows, key.0, key.1) {
        RunUpdateKeepsSafe(w, key, r.(worker := Finished));
      } else {
        RunAndWriteKeepSafe(w, key, r.(worker := Watching, handler := Some(Starting)), Renew(key.0, key.1, expires));
      }
    }
  }

  lemma RenewKeepsSafe(w: World, key: RunKey, fault: bool, expires: int)
    requires Safe(w)
    ensures Safe(Step(w, RenewTick(key, fault, expires)))
  {
    if key in w.runs && w.runs[key].worker == Watching {
      RunUpdateKeepsSafe(w, key, w.runs[key].(worker := Finished, cancelled := true));
      QueueWriteKeepsSafe(w, Renew(key.0, key.1, expires));
    }
  }

  lemma WriteOutcomeKeepsSafe(w: World, key: RunKey, maxAttempts: int, retryAt: int, fault: bool)
    requires Safe(w)
    ensures Safe(Step(w, WriteOutcome(key, maxAttempts, retryAt, fault)))
  {
    if key in w.runs && w.runs[key].worker.Finishing? {
      var r := w.runs[key];
      var o := FinishOutcome(maxAttempts, r.attempt, r.worker.result, retryAt);
      assert r.worker.result == Done ==> ReportsDone(r);
      RunAndWriteKeepSafe(w, key, r.(worker := Finished), Settle(key.0, key.1, o));
    }
  }

  lemma RetryCancelledKeepsSafe(w: World, key: RunKey, retryAt: int, fault: bool)
    requires Safe(w)
    ensures Safe(Step(w, RetryCancelledRun(key, retryAt, fault)))
  {
    if key in w.runs && w.runs[key].worker == Watching && w.runs[key].cancelled {
      RunAndWriteKeepSafe(w, key, w.runs[key].(worker := Finished), Settle(key.0, key.1, RetryAt(retryAt)));
    }
  }

  lemma EnqueueKeepsSafe(w: World, id: JobId, payload: Payload, at: int, key: Option<string>)
    requires Safe(w)
    ensures Safe(Step(w, EnqueueJob(id, payload, at, key)))
  {
    var e := Enqueue(id, at, key);
    if Enabled(w.q, e) {
      FencedStep(w.q, e);
      DecidedOnceStep(w.q, e);
      forall run | run in w.runs { RunsKeepOwnership(w.q, e, run); }
    }
  }

  lemma CrashKeepsSafe(w: World, keys: set<RunKey>)
    requires Safe(w)
    ensures Safe(Step(w, Crash(keys)))
  {
  }

  lemma RunEventKeepsSafe(w: World, e: Event)
    requires Safe(w) && (e.Cancel? || e.TakeResult?)
    ensures Safe(Step(w, e))
  {
    if Step(w, e) != w {
      RunUpdateKeepsSafe(w, e.key, Step(w, e).runs[e.key]);
    }
  }

  lemma StepKeepsSafe(w: World, e: Event)
    requires Safe(w)
    ensures Safe(Step(w, e))
  {
    match e
    case EnqueueJob(id, payload, at, key) => EnqueueKeepsSafe(w, id, payload, at, key);
    case ClaimJobs(_, _, _, _) => ClaimKeepsSafe(w, e);
    case ConfirmDispatch(key, fault, expires) => ConfirmKeepsSafe(w, key, fault, expires);
    case RenewTick(key, fault, expires) => RenewKeepsSafe(w, key, fault, expires);
    case Advance(key, last, env) => AdvanceKeepsSafe(w, key, last, env);
    case Cancel(_) => RunEventKeepsSafe(w, e);
    case TakeResult(_) => RunEventKeepsSafe(w, e);
    case WriteOutcome(key, maxAttempts, retryAt, fault) => WriteOutcomeKeepsSafe(w, key, maxAttempts, retryAt, fault);
    case RetryCancelledRun(key, retryAt, fault) => RetryCancelledKeepsSafe(w, key, retryAt, fault);
    case Crash(keys) => CrashKeepsSafe(w, keys);
    case RequeueJob(id, at) => QueueWriteKeepsSafe(w, Requeue(id, at));
  }

  lemma {:induction false} RunKeepsSafe(w: World, es: seq<Event>)
    requires Safe(w)
    ensures Safe(RunWorld(w, es))
    decreases |es|
  {
    if es != [] {
      StepKeepsSafe(w, es[0]);
      RunKeepsSafe(Step(w, es[0]), es[1..]);
    }
  }

  // ----- the promises -----

  /** Exactly-once visible effects over every run: no job has two replies, replies are exactly the results of
      completed generations, and a succeeded row has a finished generation. */
  lemma ExactlyOnce(es: seq<Event>)
    ensures var w := RunWorld(EmptyWorld(), es);
            && (forall i, j :: 0 <= i < j < |w.store.replies| ==> w.store.replies[i].job != w.store.replies[j].job)
            && (forall id :: (exists i :: 0 <= i < |w.store.replies| && w.store.replies[i].job == id)
                  <==> id in w.store.gens && w.store.gens[id].status == GenComplete)
            && (forall i :: 0 <= i < |w.store.replies| ==>
                  var r := w.store.replies[i];
                  r.job in w.payloads && r.target == w.payloads[r.job].target && r.kind == w.payloads[r.job].kind)
            && (forall id :: id in w.q.rows && w.q.rows[id].state == Succeeded ==> IsTerminal(w.store, id))
  {
    RunKeepsSafe(EmptyWorld(), es);
    var st := RunWorld(EmptyWorld(), es).store;
    forall id | id in st.gens && st.gens[id].status == GenComplete
      ensures exists i :: 0 <= i < |st.replies| && st.replies[i].job == id
    {
      assert st.replies[st.gens[id].result.value].job == id;
    }
  }

  lemma ExtendsTransitive(a: Store, b: Store, c: Store)
    requires Extends(a, b) && Extends(b, c)
    ensures Extends(a, c)
  {
    forall id | IsTerminal(a, id) ensures c.gens[id] == a.gens[id] { assert IsTerminal(b, id); }
  }

  /** What is decided stays decided: later deliveries, of the same job or another, rewrite neither
      a finished generation nor a written reply. */
  lemma {:induction false} DecisionsAreFinal(w: World, es: seq<Event>)
    requires Safe(w)
    ensures Extends(w.store, RunWorld(w, es).store)
    decreases |es|
  {
    if es != [] {
      var w' := Step(w, es[0]);
      StepKeepsSafe(w, es[0]);
      StepExtends(w, es[0]);
      DecisionsAreFinal(w', es[1..]);
      ExtendsTransitive(w.store, w'.store, RunWorld(w', es[1..]).store);
    }
  }

  lemma StepExtends(w: World, e: Event)
    requires Safe(w)
    ensures Extends(w.store, Step(w, e).store)
  {
    if e.Advance? && e.key in w.runs && w.runs[e.key].handler.Some? && e.key.0 in w.payloads {
      var r := w.runs[e.key];
      HandlerStepKeepsStore(w.store, e.key.0, w.payloads[e.key.0], r.handler.value, e.lastAttempt, r.cancelled, e.env);
    } else {
      assert Step(w, e).store == w.store;
    }
  }

  // ----- redelivery, and generations nobody finishes -----

  /** Delivering a job again once its generation is finished writes nothing, whatever the environment does. */
  lemma RedeliveryWritesNothing(st: Store, id: JobId, p: Payload, last: bool, cancelled: bool, envs: Phase -> Env)
    requires IsTerminal(st, id) && p.wellFormed
    ensures RunHandler(st, id, p, Starting, last, cancelled, envs)
         == (st, if envs(Starting).fault || envs(AfterConflict).fault then Retryable else Done)
  {
    assert CreateConflicts(st, id, p);
    if !envs(Starting).fault && !envs(AfterConflict).fault {
      assert RunHandler(st, id, p, AfterConflict, last, cancelled, envs) == (st, Done);
    }
  }

  /** A job whose target and kind another job's pending generation occupies never gets one of its own:
      it writes nothing and is retried. The conflict is not its own earlier delivery. */
  lemma PendingGenerationBlocksOthers(st: Store, owner: JobId, id: JobId, p: Payload, last: bool, cancelled: bool,
                                      envs: Phase -> Env)
    requires IsPending(st, owner) && st.gens[owner].target == p.target && st.gens[owner].kind == p.kind
    requires id !in st.gens && p.wellFormed
    ensures RunHandler(st, id, p, Starting, last, cancelled, envs) == (st, Retryable)
  {
    assert CreateConflicts(st, id, p);
    if !envs(Starting).fault {
      assert RunHandler(st, id, p, AfterConflict, last, cancelled, envs) == (st, Retryable);
    }
  }

  ghost predicate DistinctTargets(payloads: map<JobId, Payload>) {
    forall a, b :: a in payloads && b in payloads && a != b ==>
      payloads[a].target != payloads[b].target || payloads[a].kind != payloads[b].kind
  }

  /** While no two jobs share target and kind, the insert conflicts exactly for a job that was already attempted. */
  lemma ConflictMeansOwnDelivery(es: seq<Event>, id: JobId)
    requires var w := RunWorld(EmptyWorld(), es); DistinctTargets(w.payloads) && id in w.payloads
    ensures var w := RunWorld(EmptyWorld(), es);
            CreateConflicts(w.store, id, w.payloads[id]) <==> id in w.store.gens
  {
    RunKeepsSafe(EmptyWorld(), es);
    var w := RunWorld(EmptyWorld(), es);
    assert forall other :: other in w.store.gens && other != id ==>
      w.store.gens[other].target != w.payloads[id].target || w.store.gens[other].kind != w.payloads[id].kind;
  }

  // ----- a run in which another job's generation blocks -----

  const SHARED := Payload(true, 0, Reply)
  const WORKS := Env(false, true, Content, false)
  const FIRST := (1, LeaseOwner("w", 0))
  const SECOND := (2, LeaseOwner("w", 0))

  /** Two jobs for one target and kind are claimed and dispatched; the first inserts its generation, then the second
      runs until it returns. */
  function SharedTargetEvents(): seq<Event> {
    [EnqueueJob(1, SHARED, 0, None), EnqueueJob(2, SHARED, 0, None), ClaimJobs("w", {1, 2}, 0, 1)]
    + [ConfirmDispatch(FIRST, false, 1), ConfirmDispatch(SECOND, false, 1)]
    + [Advance(FIRST, false, WORKS), Advance(SECOND, false, WORKS), Advance(SECOND, false, WORKS)]
  }

  lemma {:induction false} RunWorldAppend(w: World, es: seq<Event>, fs: seq<Event>)
    ensures RunWorld(w, es + fs) == RunWorld(RunWorld(w, es), fs)
    decreases |es|
  {
    if es == [] {
      assert es + fs == fs;
    } else {
      assert (es + fs)[1..] == es[1..] + fs;
      RunWorldAppend(Step(w, es[0]), es[1..], fs);
    }
  }

  lemma RunThree(w: World, a: Event, b: Event, c: Event)
    ensures RunWorld(w, [a, b, c]) == Step(Step(Step(w, a), b), c)
  {
    assert [a, b, c][1..] == [b, c] && [b, c][1..] == [c] && [c][1..] == [];
    assert RunWorld(Step(Step(w, a), b), [c]) == RunWorld(Step(Step(Step(w, a), b), c), []);
  }

  lemma RunTwo(w: World, a: Event, b: Event)
    ensures RunWorld(w, [a, b]) == Step(Step(w, a), b)
  {
    assert [a, b][1..] == [b] && [b][1..] == [];
    assert RunWorld(Step(w, a), [b]) == RunWorld(Step(Step(w, a), b), []);
  }

  /** Both jobs belong to the first claim, with their handlers at the given phases. */
  ghost predicate BothClaimed(w: World, h1: Option<Phase>, h2: Option<Phase>, worker: WorkerPhase) {
    && w.payloads == map[1 := SHARED, 2 := SHARED] && w.store == Store(map[], [])
    && Owned(w.q.rows, 1, FIRST.1) && Owned(w.q.rows, 2, SECOND.1)
    && FIRST in w.runs && w.runs[FIRST] == Run(0, worker, h1, false)
    && SECOND in w.runs && w.runs[SECOND] == Run(0, worker, h2, false)
  }

  function TwoJobs(): World {
    World(Queue(map[1 := NewJob(0, None), 2 := NewJob(0, None)], 0, map[], map[], []),
          map[1 := SHARED, 2 := SHARED], Store(map[], []), map[])
  }

  lemma BothAreEnqueued()
    ensures Step(Step(EmptyWorld(), EnqueueJob(1, SHARED, 0, None)), EnqueueJob(2, SHARED, 0, None)) == TwoJobs()
  {
  }

  lemma BothAreHandedOut()
    ensures BothClaimed(Step(TwoJobs(), ClaimJobs("w", {1, 2}, 0, 1)), None, None, Confirming)
  {
    var claim := Claim("w", {1, 2}, 0, 1);
    assert Enabled(TwoJobs().q, claim);
    var rows := QueueStep(TwoJobs().q, claim).rows;
    assert Owned(rows, 1, FIRST.1) && Owned(rows, 2, SECOND.1);
    var w := Step(TwoJobs(), ClaimJobs("w", {1, 2}, 0, 1));
    assert w.runs.Keys == {} + (set id | id in {1, 2} :: (id, LeaseOwner("w", 0)));
    assert FIRST in w.runs && SECOND in w.runs;
  }

  lemma BothAreClaimed()
    ensures BothClaimed(RunWorld(EmptyWorld(), [EnqueueJob(1, SHARED, 0, None), EnqueueJob(2, SHARED, 0, None),
                                                ClaimJobs("w", {1, 2}, 0, 1)]), None, None, Confirming)
  {
    var e1, e2, c := EnqueueJob(1, SHARED, 0, None), EnqueueJob(2, SHARED, 0, None), ClaimJobs("w", {1, 2}, 0, 1);
    RunThree(EmptyWorld(), e1, e2, c);
    BothAreEnqueued();
    BothAreHandedOut();
  }

  lemma BothAreDispatched(w: World)
    requires BothClaimed(w, None, None, Confirming)
    ensures BothClaimed(RunWorld(w, [ConfirmDispatch(FIRST, false, 1), ConfirmDispatch(SECOND, false, 1)]),
                        Some(Starting), Some(Starting), Watching)
  {
    RunTwo(w, ConfirmDispatch(FIRST, false, 1), ConfirmDispatch(SECOND, false, 1));
  }

  lemma SecondIsBlocked(w: World)
    requires BothClaimed(w, Some(Starting), Some(Starting), Watching)
    ensures var w' := RunWorld(w, [Advance(FIRST, false, WORKS), Advance(SECOND, false, WORKS),
                                   Advance(SECOND, false, WORKS)]);
      && IsPending(w'.store, 1) && 2 !in w'.store.gens
      && SECOND in w'.runs && w'.runs[SECOND].handler == Some(Returned(Retryable))
  {
    var a1, a2 := Advance(FIRST, false, WORKS), Advance(SECOND, false, WORKS);
    RunThree(w, a1, a2, a2);
    var w1 := Step(w, a1);
    assert w1.store.gens == map[1 := Generation(0, Reply, GenPending, None)];
    assert CreateConflicts(w1.store, 2, SHARED) by { assert 1 in w1.store.gens; }
    var w2 := Step(w1, a2);
    assert w2.runs[SECOND].handler == Some(AfterConflict) && w2.store == w1.store;
  }

  /** Where two jobs do share target and kind, that run leaves the second without a generation and retried. */
  lemma SharedTargetBlocks()
    ensures var w := RunWorld(EmptyWorld(), SharedTargetEvents());
      && IsPending(w.store, 1) && 2 !in w.store.gens
      && SECOND in w.runs && w.runs[SECOND].handler == Some(Returned(Retryable))
  {
    var a := [EnqueueJob(1, SHARED, 0, None), EnqueueJob(2, SHARED, 0, None), ClaimJobs("w", {1, 2}, 0, 1)];
    var b := [ConfirmDispatch(FIRST, false, 1), ConfirmDispatch(SECOND, false, 1)];
    var c := [Advance(FIRST, false, WORKS), Advance(SECOND, false, WORKS), Advance(SECOND, false, WORKS)];
    BothAreClaimed();
    BothAreDispatched(RunWorld(EmptyWorld(), a));
    RunWorldAppend(EmptyWorld(), a, b);
    SecondIsBlocked(RunWorld(EmptyWorld(), a + b));
    RunWorldAppend(EmptyWorld(), a + b, c);
  }

  /** Storage works, the target exists, and the provider answers `a`. */
  function FaultFree(a: Answer): Phase -> Env {
    (ph: Phase) => Env(false, true, a, false)
  }

  /** The delivery ends with the row killed while its generation is still pending. */
  predicate KilledWhilePending(st: Store, id: JobId, p: Payload, attempt: nat, queueLimit: int, handlerLimit: int,
                               envs: Phase -> Env) {
    var (st', r) := RunHandler(st, id, p, Starting, attempt + 1 >= handlerLimit, false, envs);
    FinishOutcome(queueLimit, attempt, r, 0) == Kill && IsPending(st', id)
  }

  /** The handler's limit is fixed when the service is built while the queue's is reloaded on every poll. Without
      storage faults a dead row can be left with a pending generation exactly when the queue's limit has been
      lowered to or below this attempt and the handler's has not. */
  lemma OrphanedGeneration(st: Store, id: JobId, p: Payload, attempt: nat, queueLimit: int, handlerLimit: int)
    requires p.wellFormed && (IsPending(st, id) || !CreateConflicts(st, id, p))
    ensures (exists a :: KilledWhilePending(st, id, p, attempt, queueLimit, handlerLimit, FaultFree(a)))
       <==> queueLimit <= attempt + 1 < handlerLimit
  {
    var last := attempt + 1 >= handlerLimit;
    var st1 := if IsPending(st, id) then st else CreateGeneration(st, id, p);
    forall a
      ensures RunHandler(st, id, p, Starting, last, false, FaultFree(a))
           == RunHandler(st1, id, p, Calling, last, false, FaultFree(a))
      ensures KilledWhilePending(st, id, p, attempt, queueLimit, handlerLimit, FaultFree(a))
         <==> a == RetryableError && queueLimit <= attempt + 1 && !last
    {
      var envs := FaultFree(a);
      assert RunHandler(st1, id, p, Reading, last, false, envs) == RunHandler(st1, id, p, Calling, last, false, envs);
      if IsPending(st, id) {
        assert RunHandler(st, id, p, Starting, last, false, envs)
            == RunHandler(st, id, p, AfterConflict, last, false, envs);
      }
      AloneFromCalling(st1, id, p, last, a);
    }
    if queueLimit <= attempt + 1 && !last {
      assert KilledWhilePending(st, id, p, attempt, queueLimit, handlerLimit, FaultFree(RetryableError));
    }
  }

  lemma AloneFromCalling(st: Store, id: JobId, p: Payload, last: bool, a: Answer)
    requires IsPending(st, id)
    ensures RunHandler(st, id, p, Calling, last, false, FaultFree(a)) ==
            match a
            case Content => (CompleteGeneration(st, id, p), Done)
            case PermanentError => (FailGeneration(st, id), Permanent)
            case RetryableError => (if last then FailGeneration(st, id) else st, Retryable)
  {
    var envs := FaultFree(a);
    match a
    case Content =>
      assert RunHandler(st, id, p, Completing, last, false, envs) == (CompleteGeneration(st, id, p), Done);
    case PermanentError =>
      assert RunHandler(st, id, p, Failing(true), last, false, envs) == (FailGeneration(st, id), Permanent);
    case RetryableError =>
      if last {
        assert RunHandler(st, id, p, Failing(false), last, false, envs) == (FailGeneration(st, id), Retryable);
      }
  }

  // ----- a delivery with nothing in between, as events -----

  function HandlerEvents(st: Store, p: Payload, ph: Phase, key: RunKey, last: bool, cancelled: bool, envs: Phase -> Env)
    : seq<Event>
    decreases Rank(ph)
  {
    if ph.Returned? then [] else
    var (st', ph') := HandlerStep(st, key.0, p, ph, last, cancelled, envs(ph));
    [Advance(key, last, envs(ph))] + HandlerEvents(st', p, ph', key, last, cancelled, envs)
  }

  ghost predicate Handling(w: World, key: RunKey, ph: Phase) {
    key in w.runs && key.0 in w.payloads && w.runs[key].handler == Some(ph)
  }

  function WithHandler(w: World, key: RunKey, st: Store, ph: Phase): World
    requires key in w.runs
  {
    WithRun(w, key, w.runs[key].(handler := Some(ph))).(store := st)
  }

  lemma AdvanceTakesOneStep(w: World, key: RunKey, ph: Phase, last: bool, env: Env)
    requires Handling(w, key, ph)
    ensures var (st', ph') := HandlerStep(w.store, key.0, w.payloads[key.0], ph, last, w.runs[key].cancelled, env);
            Step(w, Advance(key, last, env)) == WithHandler(w, key, st', ph')
  {
  }

  lemma {:induction false} HandlerRunsAlone(w: World, key: RunKey, ph: Phase, last: bool, envs: Phase -> Env)
    requires Handling(w, key, ph)
    ensures var c := w.runs[key].cancelled;
            var (st', r) := RunHandler(w.store, key.0, w.payloads[key.0], ph, last, c, envs);
            RunWorld(w, HandlerEvents(w.store, w.payloads[key.0], ph, key, last, c, envs))
            == WithHandler(w, key, st', Returned(r))
    decreases Rank(ph)
  {
    var p, c := w.payloads[key.0], w.runs[key].cancelled;
    if ph.Returned? {
      assert w.runs[key := w.runs[key]] == w.runs;
    } else {
      var (st', ph') := HandlerStep(w.store, key.0, p, ph, last, c, envs(ph));
      var e, rest := Advance(key, last, envs(ph)), HandlerEvents(st', p, ph', key, last, c, envs);
      var w1 := WithHandler(w, key, st', ph');
      AdvanceTakesOneStep(w, key, ph, last, envs(ph));
      HandlerRunsAlone(w1, key, ph', last, envs);
      assert ([e] + rest)[1..] == rest;
      var (st'', r) := RunHandler(w.store, key.0, p, ph, last, c, envs);
      assert WithHandler(w1, key, st'', Returned(r)) == WithHandler(w, key, st'', Returned(r));
    }
  }

  lemma OutcomeIsWritten(w: World, key: RunKey, r: HandlerResult, maxAttempts: int, retryAt: int)
    requires Handling(w, key, Returned(r)) && w.runs[key].worker == Watching && !w.runs[key].cancelled
    requires Owned(w.q.rows, key.0, key.1)
    ensures var w' := RunWorld(w, [TakeResult(key), WriteOutcome(key, maxAttempts, retryAt, false)]);
      && w'.store == w.store && key in w'.runs && w'.runs[key].worker == Finished
      && w'.q.rows == w.q.rows[key.0 := Settled(w.q.rows[key.0],
                                                FinishOutcome(maxAttempts, w.runs[key].attempt, r, retryAt))]
  {
    var a, b := TakeResult(key), WriteOutcome(key, maxAttempts, retryAt, false);
    var w1 := Step(w, a);
    assert w1.runs[key].worker == Finishing(r) && w1.q == w.q && w1.store == w.store;
    assert [a, b][1..] == [b] && [b][1..] == [];
    assert RunWorld(w1, [b]) == RunWorld(Step(w1, b), []);
  }

  /** A claimed delivery left alone is confirmed, handled and settled: the store is what the handler makes of it, and
      the row ends as the result and the attempt say. */
  lemma DeliveryAlone(w: World, key: RunKey, expires: int, last: bool, envs: Phase -> Env, maxAttempts: int,
                      retryAt: int)
    requires key in w.runs && key.0 in w.payloads && Owned(w.q.rows, key.0, key.1)
    requires w.runs[key].worker == Confirming && w.runs[key].handler == None && !w.runs[key].cancelled
    ensures var (st', r) := RunHandler(w.store, key.0, w.payloads[key.0], Starting, last, false, envs);
            var es := [ConfirmDispatch(key, false, expires)]
                      + (HandlerEvents(w.store, w.payloads[key.0], Starting, key, last, false, envs)
                         + [TakeResult(key), WriteOutcome(key, maxAttempts, retryAt, false)]);
            var w' := RunWorld(w, es);
      && w'.store == st' && key in w'.runs && w'.runs[key].worker == Finished && key.0 in w'.q.rows
      && w'.q.rows[key.0].state == match r
                                   case Done => Succeeded
                                   case Permanent => Failed
                                   case Retryable => if w.runs[key].attempt + 1 >= maxAttempts then Dead else Pending
  {
    var handled := HandlerEvents(w.store, w.payloads[key.0], Starting, key, last, false, envs);
    var settle := [TakeResult(key), WriteOutcome(key, maxAttempts, retryAt, false)];
    var confirm := ConfirmDispatch(key, false, expires);
    var w1 := Step(w, confirm);
    assert Handling(w1, key, Starting) && w1.store == w.store && Owned(w1.q.rows, key.0, key.1);
    assert ([confirm] + (handled + settle))[1..] == handled + settle;
    HandlerRunsAlone(w1, key, Starting, last, envs);
    RunWorldAppend(w1, handled, settle);
    var (st', r) := RunHandler(w.store, key.0, w.payloads[key.0], Starting, last, false, envs);
    OutcomeIsWritten(WithHandler(w1, key, st', Returned(r)), key, r, maxAttempts, retryAt);
  }

  /** A delivery that was cancelled before its result was taken is retried at the given time, with one more attempt. */
  lemma CancelledDeliveryIsRetried(w: World, key: RunKey, at: int)
    requires key in w.runs && w.runs[key].worker == Watching && Owned(w.q.rows, key.0, key.1)
    ensures var w' := Step(Step(w, Cancel(key)), RetryCancelledRun(key, at, false));
      && w'.store == w.store && key.0 in w'.q.rows && w'.q.rows[key.0].state == Pending
      && (forall now :: Claimable(w'.q.rows[key.0], now) <==> at <= now)
      && w'.q.rows[key.0].attempt == w.q.rows[key.0].attempt + 1 && w'.runs[key].worker == Finished
  {
  }

  /** A renewal by the owner extends the lease and goes on; by anyone else it cancels the delivery. */
  lemma RenewalExtendsOrCancels(w: World, key: RunKey, expires: int)
    requires key in w.runs && w.runs[key].worker == Watching
    ensures var w' := Step(w, RenewTick(key, false, expires));
      && (Owned(w.q.rows, key.0, key.1) ==>
            w'.runs == w.runs && OnlyLeased(w.q.rows[key.0], w'.q.rows[key.0], key.1, expires))
      && (!Owned(w.q.rows, key.0, key.1) ==>
            w'.q == w.q && w'.runs[key].cancelled && w'.runs[key].worker == Finished)
  {
  }

  /** After a crash, or a requeue of a dead or failed job, a claim hands the job out again with its attempt. */
  lemma CrashAndRequeueGoOn(w: World, key: RunKey, at: int)
    ensures key !in Step(w, Crash({key})).runs && Step(w, Crash({key})).q == w.q
    ensures key.0 in w.q.rows && w.q.rows[key.0].state in {Dead, Failed} ==>
              var row := Step(w, RequeueJob(key.0, at)).q.rows[key.0];
              row.attempt == w.q.rows[key.0].attempt && forall now :: Claimable(row, now) <==> at <= now
  {
  }

}
