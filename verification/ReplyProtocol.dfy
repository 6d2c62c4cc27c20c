/** Reply generation on top of the leased queue: the handler as a sequence of single
    storage operations, the service that executes them, and the protocol in which many
    deliveries of many jobs interleave with crashes, lost leases, shutdowns and requeues. */
module ReplyProtocol {
  import opened Wrappers
  import opened JobQueue
  import opened JobWorker

  type EntryId = nat
  datatype Kind = Reply | FollowUp
  /** A job's decoded payload; `wellFormed` is false for the payloads the handler rejects. */
  datatype Payload = Payload(wellFormed: bool, target: EntryId, kind: Kind)

  datatype Status = GenPending | GenComplete | GenFailed
  /** The row "llmgen:" + job id; `result` is the index of the produced entry. */
  datatype Generation = Generation(target: EntryId, kind: Kind, status: Status, result: Option<nat>)
  /** A visible reply entry; `job` records which job's handler wrote it. */
  datatype ReplyEntry = ReplyEntry(job: JobId, target: EntryId, kind: Kind)
  datatype Store = Store(gens: map<JobId, Generation>, replies: seq<ReplyEntry>)

  // ----- the repository writes -----

  /** Creating a generation conflicts with the same id, or with another pending one of that target and kind. */
  predicate CreateConflicts(st: Store, id: JobId, p: Payload) {
    id in st.gens ||
    exists other :: other in st.gens && st.gens[other].status == GenPending
                 && st.gens[other].target == p.target && st.gens[other].kind == p.kind
  }

  function CreateGeneration(st: Store, id: JobId, p: Payload): Store {
    st.(gens := st.gens[id := Generation(p.target, p.kind, GenPending, None)])
  }

  predicate IsPending(st: Store, id: JobId) {
    id in st.gens && st.gens[id].status == GenPending
  }

  predicate IsTerminal(st: Store, id: JobId) {
    id in st.gens && st.gens[id].status != GenPending
  }

  function FailGeneration(st: Store, id: JobId): Store {
    if IsPending(st, id) then st.(gens := st.gens[id := st.gens[id].(status := GenFailed)]) else st
  }

  /** The new entry and the completed generation, in one transaction. */
  function CompleteGeneration(st: Store, id: JobId, p: Payload): Store {
    if IsPending(st, id)
    then Store(st.gens[id := st.gens[id].(status := GenComplete, result := Some(|st.replies|))],
               st.replies + [ReplyEntry(id, p.target, p.kind)])
    else st
  }

  // ----- the handler, one storage or provider operation at a time -----

  datatype Phase =
    | Starting            // about to insert the generation
    | AfterConflict       // the insert conflicted; about to read the existing row
    | Reading             // about to read the target and its thread
    | Calling             // about to call the provider
    | Failing(permanent: bool)   // about to mark the generation failed
    | Completing          // about to write the reply
    | Returned(result: HandlerResult)

  datatype Answer = Content | PermanentError | RetryableError

  /** What the environment answers to the next operation. A commit may take effect and still report an error. */
  datatype Env = Env(fault: bool, targetExists: bool, answer: Answer, commitUnreported: bool)

  /** `lastAttempt` is the handler's own test, attempt + 1 >= the limit it was built with. */
  function HandlerStep(st: Store, id: JobId, p: Payload, ph: Phase, lastAttempt: bool, cancelled: bool, env: Env)
    : (Store, Phase)
  {
    match ph
    case Starting =>
      if !p.wellFormed then (st, Returned(Permanent))
      else if env.fault then (st, Returned(Retryable))
      else if CreateConflicts(st, id, p) then (st, AfterConflict)
      else (CreateGeneration(st, id, p), Reading)
    case AfterConflict =>
      if env.fault || id !in st.gens then (st, Returned(Retryable))
      else if IsPending(st, id) then (st, Reading)
      else (st, Returned(Done))
    case Reading =>
      if env.fault then (st, Returned(Retryable))
      else if !env.targetExists then (st, Failing(true))
      else (st, Calling)
    case Calling =>
      (match env.answer
       case Content => (st, Completing)
       case PermanentError => (st, Failing(true))
       case RetryableError => (st, if lastAttempt && !cancelled then Failing(false) else Returned(Retryable)))
    case Failing(permanent) =>
      (if env.fault then st else FailGeneration(st, id), Returned(if permanent then Permanent else Retryable))
    case Completing =>
      if env.fault || !IsPending(st, id) then (st, Returned(Retryable))
      else (CompleteGeneration(st, id, p), Returned(if env.commitUnreported then Retryable else Done))
    case Returned(_) => (st, ph)
  }

  function Rank(ph: Phase): nat {
    match ph
    case Starting => 5
    case AfterConflict => 4
    case Reading => 3
    case Calling => 2
    case Failing(_) => 1
    case Completing => 1
    case Returned(_) => 0
  }

  /** A handler left alone until it returns; `envs` answers each phase. */
  function RunHandler(st: Store, id: JobId, p: Payload, ph: Phase, lastAttempt: bool, cancelled: bool, envs: Phase -> Env)
    : (Store, HandlerResult)
    decreases Rank(ph)
  {
    if ph.Returned? then (st, ph.result) else
    var (st', ph') := HandlerStep(st, id, p, ph, lastAttempt, cancelled, envs(ph));
    RunHandler(st', id, p, ph', lastAttempt, cancelled, envs)
  }

  // ----- what one delivery does, seen from outside -----

  /** The delivery obtains the generation: its own undecided one, or a new one that no other job's undecided generation
      of that target and kind stands in the way of. */
  ghost predicate GetsWork(st: Store, id: JobId, p: Payload, envs: Phase -> Env) {
    && p.wellFormed && !envs(Starting).fault
    && (id in st.gens ==> st.gens[id].status == GenPending && !envs(AfterConflict).fault)
    && (id !in st.gens ==> forall other :: other in st.gens && st.gens[other].status == GenPending ==>
          st.gens[other].target != p.target || st.gens[other].kind != p.kind)
  }

  /** The target was read and the provider answered with a text. */
  ghost predicate GetsAnswer(envs: Phase -> Env) {
    !envs(Reading).fault && envs(Reading).targetExists && envs(Calling).answer == Content
  }

  /** How the own generation ends and what the handler returns, once it has work. */
  ghost predicate Ends(g: Generation, replies: nat, last: bool, cancelled: bool, envs: Phase -> Env, r: HandlerResult) {
    var refused := !envs(Reading).fault && (!envs(Reading).targetExists || envs(Calling).answer == PermanentError);
    var uncertain := !envs(Reading).fault && envs(Reading).targetExists && envs(Calling).answer == RetryableError;
    && (envs(Reading).fault ==> g.status == GenPending && r == Retryable)
    && (refused ==> r == Permanent && g.status == if envs(Failing(true)).fault then GenPending else GenFailed)
    && (uncertain ==>
          && r == Retryable
          && g.status == if last && !cancelled && !envs(Failing(false)).fault then GenFailed else GenPending)
    && (GetsAnswer(envs) && envs(Completing).fault ==> g.status == GenPending && r == Retryable)
    && (GetsAnswer(envs) && !envs(Completing).fault ==>
          && g.status == GenComplete && g.result == Some(replies)
          && r == if envs(Completing).commitUnreported then Retryable else Done)
  }

  ghost predicate Delivered(st: Store, st': Store, id: JobId, p: Payload, last: bool, cancelled: bool,
                            envs: Phase -> Env, r: HandlerResult) {
    if GetsWork(st, id, p, envs) then
      && st'.gens.Keys == st.gens.Keys + {id}
      && (forall other :: other in st.gens && other != id ==> st'.gens[other] == st.gens[other])
      && (id !in st.gens ==> st'.gens[id].target == p.target && st'.gens[id].kind == p.kind)
      && st'.replies == st.replies + (if GetsAnswer(envs) && !envs(Completing).fault
                                      then [ReplyEntry(id, p.target, p.kind)] else [])
      && Ends(st'.gens[id], |st.replies|, last, cancelled, envs, r)
    else
      && st' == st
      && r == if !p.wellFormed then Permanent
              else if envs(Starting).fault || id !in st.gens || envs(AfterConflict).fault then Retryable
              else Done
  }

  lemma EndsFromCalling(st: Store, id: JobId, p: Payload, last: bool, cancelled: bool, envs: Phase -> Env)
    requires IsPending(st, id) && !envs(Reading).fault && envs(Reading).targetExists
    ensures var (st', r) := RunHandler(st, id, p, Calling, last, cancelled, envs);
      && st'.gens.Keys == st.gens.Keys && st'.gens[id].target == st.gens[id].target
      && st'.gens[id].kind == st.gens[id].kind
      && (forall other :: other in st.gens && other != id ==> st'.gens[other] == st.gens[other])
      && st'.replies == st.replies + (if GetsAnswer(envs) && !envs(Completing).fault
                                      then [ReplyEntry(id, p.target, p.kind)] else [])
      && Ends(st'.gens[id], |st.replies|, last, cancelled, envs, r)
  {
    match envs(Calling).answer
    case Content => assert st.replies + [] == st.replies;
    case PermanentError =>
    case RetryableError =>
  }

  lemma EndsFromReading(st: Store, id: JobId, p: Payload, last: bool, cancelled: bool, envs: Phase -> Env)
    requires IsPending(st, id)
    ensures var (st', r) := RunHandler(st, id, p, Reading, last, cancelled, envs);
      && st'.gens.Keys == st.gens.Keys && st'.gens[id].target == st.gens[id].target
      && st'.gens[id].kind == st.gens[id].kind
      && (forall other :: other in st.gens && other != id ==> st'.gens[other] == st.gens[other])
      && st'.replies == st.replies + (if GetsAnswer(envs) && !envs(Completing).fault
                                      then [ReplyEntry(id, p.target, p.kind)] else [])
      && Ends(st'.gens[id], |st.replies|, last, cancelled, envs, r)
  {
    if !envs(Reading).fault && envs(Reading).targetExists { EndsFromCalling(st, id, p, last, cancelled, envs); }
    assert st.replies + [] == st.replies;
  }

  /** A handler left alone does all of that and nothing else. */
  lemma AloneDelivers(st: Store, id: JobId, p: Payload, last: bool, cancelled: bool, envs: Phase -> Env)
    ensures var (st', r) := RunHandler(st, id, p, Starting, last, cancelled, envs);
            Delivered(st, st', id, p, last, cancelled, envs, r)
  {
    if GetsWork(st, id, p, envs) {
      var st1 := if id in st.gens then st else CreateGeneration(st, id, p);
      assert RunHandler(st, id, p, Starting, last, cancelled, envs)
          == RunHandler(st1, id, p, Reading, last, cancelled, envs);
      EndsFromReading(st1, id, p, last, cancelled, envs);
    }
  }

  /** The generations and entries tables, and the handler that works on them in place. */
  class ReplyService {
    var gens: map<JobId, Generation>
    var replies: seq<ReplyEntry>
    const maxAttempts: int

    constructor (maxAttempts: int)
      ensures this.maxAttempts == maxAttempts && Contents() == Store(map[], [])
    {
      gens, replies := map[], [];
      this.maxAttempts := maxAttempts;
    }

    function Contents(): Store
      reads this
    {
      Store(gens, replies)
    }

    method EnsureGeneration(id: JobId, p: Payload, envs: Phase -> Env) returns (created: bool, err: bool)
      requires p.wellFormed
      modifies this
      ensures var (st1, ph1) := HandlerStep(old(Contents()), id, p, Starting, false, false, envs(Starting));
              var (st2, ph2) := if ph1 == AfterConflict
                                then HandlerStep(st1, id, p, ph1, false, false, envs(AfterConflict)) else (st1, ph1);
              && Contents() == st2
              && ph2 == if err then Returned(Retryable) else if created then Reading else Returned(Done)
      ensures created <==> GetsWork(old(Contents()), id, p, envs)
      ensures err ==> Contents() == old(Contents()) && !created
      ensures !created && !err ==> Contents() == old(Contents()) && IsTerminal(Contents(), id)
    {
      if envs(Starting).fault { return false, true; }
      if !CreateConflicts(Contents(), id, p) {
        gens := gens[id := Generation(p.target, p.kind, GenPending, None)];
        return true, false;
      }
      if envs(AfterConflict).fault || id !in gens { return false, true; }
      return gens[id].status == GenPending, false;
    }

    method Fail(id: JobId, fault: bool)
      modifies this
      ensures Contents() == if fault then old(Contents()) else FailGeneration(old(Contents()), id)
      ensures !fault && id in old(gens) && old(gens)[id].status == GenPending ==>
                gens == old(gens)[id := old(gens)[id].(status := GenFailed)]
      ensures fault || id !in old(gens) || old(gens)[id].status != GenPending ==> gens == old(gens)
      ensures replies == old(replies)
    {
      if !fault && id in gens && gens[id].status == GenPending {
        gens := gens[id := gens[id].(status := GenFailed)];
      }
    }

    method CreateGeneratedReply(id: JobId, p: Payload, env: Env) returns (ok: bool)
      modifies this
      ensures ok == (!env.fault && IsPending(old(Contents()), id) && !env.commitUnreported)
      ensures Contents() == if env.fault then old(Contents()) else CompleteGeneration(old(Contents()), id, p)
      ensures !env.fault && IsPending(old(Contents()), id) ==>
                && gens == old(gens)[id := old(gens)[id].(status := GenComplete, result := Some(|old(replies)|))]
                && replies == old(replies) + [ReplyEntry(id, p.target, p.kind)]
      ensures env.fault || !IsPending(old(Contents()), id) ==> gens == old(gens) && replies == old(replies)
    {
      if env.fault || id !in gens || gens[id].status != GenPending { return false; }
      gens := gens[id := gens[id].(status := GenComplete, result := Some(|replies|))];
      replies := replies + [ReplyEntry(id, p.target, p.kind)];
      ok := !env.commitUnreported;
    }

    /** One delivery with nothing in between. A reply is written exactly when it gets work, a target and a text, and
        its commit takes effect. */
    method Handle(id: JobId, attempt: nat, p: Payload, cancelled: bool, envs: Phase -> Env) returns (r: HandlerResult)
      modifies this
      ensures (Contents(), r) ==
              RunHandler(old(Contents()), id, p, Starting, attempt + 1 >= maxAttempts, cancelled, envs)
      ensures Delivered(old(Contents()), Contents(), id, p, attempt + 1 >= maxAttempts, cancelled, envs, r)
    {
      AloneDelivers(Contents(), id, p, attempt + 1 >= maxAttempts, cancelled, envs);
      r := Process(id, attempt, p, cancelled, envs);
    }

    /** The ordered writes and early exits amount to the step sequence. */
    method Process(id: JobId, attempt: nat, p: Payload, cancelled: bool, envs: Phase -> Env) returns (r: HandlerResult)
      modifies this
      ensures (Contents(), r) ==
              RunHandler(old(Contents()), id, p, Starting, attempt + 1 >= maxAttempts, cancelled, envs)
    {
      if !p.wellFormed { return Permanent; }
      var created, err := EnsureGeneration(id, p, envs);
      if err { return Retryable; }
      if !created { return Done; }
      if envs(Reading).fault { return Retryable; }
      if !envs(Reading).targetExists {
        Fail(id, envs(Failing(true)).fault);
        return Permanent;
      }
      match envs(Calling).answer {
        case PermanentError =>
          Fail(id, envs(Failing(true)).fault);
          return Permanent;
        case RetryableError =>
          if !cancelled && attempt + 1 >= maxAttempts {
            Fail(id, envs(Failing(false)).fault);
          }
          return Retryable;
        case Content =>
      }
      var ok := CreateGeneratedReply(id, p, envs(Completing));
      r := if ok then Done else Retryable;
    }
  }

  // ----- deliveries interleaved -----

  datatype WorkerPhase =
    | Confirming          // claimed, lease not yet confirmed, handler not started
    | Watching            // handler dispatched
    | Finishing(result: HandlerResult)   // handler's result taken while the context was live
    | Finished            // this delivery makes no further transition

  /** One delivery: the worker goroutine, the handler goroutine (which may outlive it) and the attempt
      number copied at claim time. */
  datatype Run = Run(attempt: nat, worker: WorkerPhase, handler: Option<Phase>, cancelled: bool)
  type RunKey = (JobId, LeaseOwner)

  datatype World = World(q: Queue, payloads: map<JobId, Payload>, store: Store, runs: map<RunKey, Run>)

  datatype Event =
    | EnqueueJob(id: JobId, payload: Payload, at: int, dedupe: Option<string>)
    | ClaimJobs(worker: string, ids: set<JobId>, now: int, expires: int)
    | ConfirmDispatch(key: RunKey, fault: bool, expires: int)
    | RenewTick(key: RunKey, fault: bool, expires: int)
    | Advance(key: RunKey, lastAttempt: bool, env: Env)
    | Cancel(key: RunKey)
    | TakeResult(key: RunKey)
    | WriteOutcome(key: RunKey, maxAttempts: int, retryAt: int, fault: bool)
    | RetryCancelledRun(key: RunKey, retryAt: int, fault: bool)
    | Crash(keys: set<RunKey>)
    | RequeueJob(id: JobId, at: int)

  function EmptyWorld(): World {
    World(EmptyQueue(), map[], Store(map[], []), map[])
  }

  function WithRun(w: World, key: RunKey, r: Run): World {
    w.(runs := w.runs[key := r])
  }

  function Step(w: World, e: Event): World {
    match e
    case EnqueueJob(id, payload, at, key) =>
      if !Enabled(w.q, Enqueue(id, at, key)) then w
      else w.(q := QueueStep(w.q, Enqueue(id, at, key)), payloads := w.payloads[id := payload])
    case ClaimJobs(worker, ids, now, expires) =>
      var claim := Claim(worker, ids, now, expires);
      if !Enabled(w.q, claim) then w else
      var owner := LeaseOwner(worker, w.q.nextGen);
      w.(q := QueueStep(w.q, claim),
         runs := map key | key in w.runs.Keys + (set id | id in ids :: (id, owner)) ::
           if key in w.runs then w.runs[key] else Run(w.q.rows[key.0].attempt, Confirming, None, false))
    case ConfirmDispatch(key, fault, expires) =>
      if key !in w.runs || w.runs[key].worker != Confirming then w
      else if fault || !Owned(w.q.rows, key.0, key.1) then WithRun(w, key, w.runs[key].(worker := Finished))
      else WithRun(w, key, w.runs[key].(worker := Watching, handler := Some(Starting)))
           .(q := QueueStep(w.q, Renew(key.0, key.1, expires)))
    case RenewTick(key, fault, expires) =>
      if key !in w.runs || w.runs[key].worker != Watching then w
      else if fault || !Owned(w.q.rows, key.0, key.1)
      then WithRun(w, key, w.runs[key].(worker := Finished, cancelled := true))
      else w.(q := QueueStep(w.q, Renew(key.0, key.1, expires)))
    case Advance(key, lastAttempt, env) =>
      if key !in w.runs || w.runs[key].handler.None? || key.0 !in w.payloads then w else
      var r := w.runs[key];
      var (st', ph') := HandlerStep(w.store, key.0, w.payloads[key.0], r.handler.value, lastAttempt, r.cancelled, env);
      WithRun(w, key, r.(handler := Some(ph'))).(store := st')
    case Cancel(key) =>
      if key !in w.runs then w else WithRun(w, key, w.runs[key].(cancelled := true))
    case TakeResult(key) =>
      if key in w.runs && w.runs[key].worker == Watching && !w.runs[key].cancelled
         && w.runs[key].handler.Some? && w.runs[key].handler.value.Returned?
      then WithRun(w, key, w.runs[key].(worker := Finishing(w.runs[key].handler.value.result)))
      else w
    case WriteOutcome(key, maxAttempts, retryAt, fault) =>
      if key !in w.runs || !w.runs[key].worker.Finishing? then w else
      var o := FinishOutcome(maxAttempts, w.runs[key].attempt, w.runs[key].worker.result, retryAt);
      var w' := WithRun(w, key, w.runs[key].(worker := Finished));
      if fault then w' else w'.(q := QueueStep(w.q, Settle(key.0, key.1, o)))
    case RetryCancelledRun(key, retryAt, fault) =>
      if key !in w.runs || w.runs[key].worker != Watching || !w.runs[key].cancelled then w else
      var w' := WithRun(w, key, w.runs[key].(worker := Finished));
      if fault then w' else w'.(q := QueueStep(w.q, Settle(key.0, key.1, RetryAt(retryAt))))
    case Crash(keys) => w.(runs := w.runs - keys)
    case RequeueJob(id, at) => w.(q := QueueStep(w.q, Requeue(id, at)))
  }

  function RunWorld(w: World, es: seq<Event>): World
    decreases |es|
  {
    if es == [] then w else RunWorld(Step(w, es[0]), es[1..])
  }

  // ----- what every reachable state satisfies -----

  /** Replies and completed generations are in one-to-one correspondence, and pending ones are unique
      per target and kind. */
  ghost predicate StoreSafe(st: Store) {
    && (forall i :: 0 <= i < |st.replies| ==>
          && st.replies[i].job in st.gens
          && st.gens[st.replies[i].job].status == GenComplete
          && st.gens[st.replies[i].job].result == Some(i))
    && (forall id :: id in st.gens && st.gens[id].status == GenComplete ==>
          && st.gens[id].result.Some? && st.gens[id].result.value < |st.replies|
          && st.replies[st.gens[id].result.value] == ReplyEntry(id, st.gens[id].target, st.gens[id].kind))
    && (forall id :: id in st.gens && st.gens[id].status != GenComplete ==> st.gens[id].result == None)
    && (forall a, b :: a in st.gens && b in st.gens && a != b
                       && st.gens[a].status == GenPending && st.gens[b].status == GenPending
          ==> st.gens[a].target != st.gens[b].target || st.gens[a].kind != st.gens[b].kind)
  }

  ghost predicate PayloadsMatch(st: Store, payloads: map<JobId, Payload>) {
    forall id :: id in st.gens ==>
      id in payloads && st.gens[id].target == payloads[id].target && st.gens[id].kind == payloads[id].kind
  }

  predicate ReportsDone(r: Run) {
    r.handler == Some(Returned(Done)) || r.worker == Finishing(Done)
  }

  ghost predicate RunsSafe(w: World) {
    && (forall key :: key in w.runs ==> key.0 in w.q.rows && key.1.generation < w.q.nextGen)
    && (forall key :: key in w.runs && ReportsDone(w.runs[key]) ==> IsTerminal(w.store, key.0))
    && (forall key :: key in w.runs && Owned(w.q.rows, key.0, key.1) ==>
          w.runs[key].attempt == w.q.rows[key.0].attempt)
  }

  ghost predicate Safe(w: World) {
    && Fenced(w.q) && DecidedOnce(w.q)
    && w.payloads.Keys == w.q.rows.Keys
    && StoreSafe(w.store)
    && PayloadsMatch(w.store, w.payloads)
    && RunsSafe(w)
    && (forall id :: id in w.q.rows && w.q.rows[id].state == Succeeded ==> IsTerminal(w.store, id))
  }
}
