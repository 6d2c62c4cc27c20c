/** The durable job table: every repository write as a function of the table,
    the class that applies those writes in place, and the fencing properties
    that hold over every run of claims, renewals, outcomes and requeues.

    Times are integers (nanoseconds). A lease owner is the worker's name
    together with the fresh identifier of one claim operation. */
module JobQueue {
  import opened Wrappers

  type JobId = nat
  datatype LeaseOwner = LeaseOwner(worker: string, generation: nat)
  datatype JobState = Pending | Running | Succeeded | Failed | Dead
  datatype Job = Job(state: JobState, attempt: nat, nextRunAt: int,
                     leaseOwner: Option<LeaseOwner>, leaseExpiresAt: Option<int>, key: Option<string>)
  type Table = map<JobId, Job>

  /** How a worker ends one delivery. */
  datatype Outcome = Success | RetryAt(nextRunAt: int) | Kill | Fail

  // ----- the repository's writes as functions of the table -----

  predicate Claimable(j: Job, now: int) {
    || (j.state == Pending && j.nextRunAt <= now)
    || (j.state == Running && j.leaseExpiresAt.Some? && j.leaseExpiresAt.value <= now)
  }

  predicate Owned(t: Table, id: JobId, owner: LeaseOwner) {
    id in t && t[id].state == Running && t[id].leaseOwner == Some(owner)
  }

  function NewJob(at: int, key: Option<string>): Job {
    Job(Pending, 0, at, None, None, key)
  }

  /** The idempotency key is unique over the whole table, whatever the state of the row that has it. */
  predicate KeyTaken(t: Table, key: Option<string>) {
    key.Some? && exists id :: id in t && t[id].key == key
  }

  function ClaimRows(t: Table, ids: set<JobId>, owner: LeaseOwner, expires: int): Table {
    map id | id in t ::
      if id in ids then t[id].(state := Running, leaseOwner := Some(owner), leaseExpiresAt := Some(expires))
      else t[id]
  }

  function RenewRow(t: Table, id: JobId, owner: LeaseOwner, expires: int): Table {
    if Owned(t, id, owner) then t[id := t[id].(leaseExpiresAt := Some(expires))] else t
  }

  function Settled(j: Job, o: Outcome): Job {
    var freed := j.(leaseOwner := None, leaseExpiresAt := None);
    match o
    case Success => freed.(state := Succeeded)
    case RetryAt(next) => freed.(state := Pending, attempt := j.attempt + 1, nextRunAt := next)
    case Kill => freed.(state := Dead)
    case Fail => freed.(state := Failed)
  }

  function SettleRow(t: Table, id: JobId, owner: LeaseOwner, o: Outcome): Table {
    if Owned(t, id, owner) then t[id := Settled(t[id], o)] else t
  }

  function RequeueRow(t: Table, id: JobId, at: int): Table {
    if id in t && (t[id].state == Dead || t[id].state == Failed)
    then t[id := t[id].(state := Pending, nextRunAt := at, leaseOwner := None, leaseExpiresAt := None)]
    else t
  }

  // ----- what one claim hands out -----

  /** The order in which due rows are served: next_run_at, ties broken by id. */
  predicate Before(t: Table, a: JobId, b: JobId)
    requires a in t && b in t
  {
    t[a].nextRunAt < t[b].nextRunAt || (t[a].nextRunAt == t[b].nextRunAt && a < b)
  }

  /** `batch` is the first `limit` claimable rows in serving order. */
  ghost predicate IsClaimBatch(t: Table, batch: seq<JobId>, limit: nat, now: int) {
    && |batch| <= limit
    && (forall i :: 0 <= i < |batch| ==> batch[i] in t && Claimable(t[batch[i]], now))
    && (forall i, j :: 0 <= i < j < |batch| ==> Before(t, batch[i], batch[j]))
    && (forall id :: id in t && Claimable(t[id], now) && id !in batch ==>
          |batch| == limit && forall i :: 0 <= i < |batch| ==> Before(t, batch[i], id))
  }

  /** A claim is deterministic: the table, the limit and the time fix its rows and their order. */
  lemma ClaimBatchUnique(t: Table, a: seq<JobId>, b: seq<JobId>, limit: nat, now: int)
    requires IsClaimBatch(t, a, limit, now) && IsClaimBatch(t, b, limit, now)
    ensures a == b
  {
    if |a| <= |b| {
      CommonPrefix(t, a, b, limit, now, |a|);
      NothingLeft(t, a, b, limit, now);
    } else {
      CommonPrefix(t, b, a, limit, now, |b|);
      NothingLeft(t, b, a, limit, now);
    }
  }

  lemma {:induction false} CommonPrefix(t: Table, a: seq<JobId>, b: seq<JobId>, limit: nat, now: int, n: nat)
    requires IsClaimBatch(t, a, limit, now) && IsClaimBatch(t, b, limit, now)
    requires n <= |a| && n <= |b|
    ensures a[..n] == b[..n]
  {
    if n > 0 {
      var k := n - 1;
      CommonPrefix(t, a, b, limit, now, k);
      NextNotLater(t, a, b, limit, now, k);
      NextNotLater(t, b, a, limit, now, k);
      assert a[..n] == a[..k] + [a[k]];
      assert b[..n] == b[..k] + [b[k]];
    }
  }

  lemma NextNotLater(t: Table, a: seq<JobId>, b: seq<JobId>, limit: nat, now: int, k: nat)
    requires IsClaimBatch(t, a, limit, now) && IsClaimBatch(t, b, limit, now)
    requires k < |a| && k < |b| && a[..k] == b[..k]
    ensures a[k] == b[k] || Before(t, a[k], b[k])
  {
    assert forall i :: 0 <= i < k ==> a[i] == a[..k][i] == b[..k][i] == b[i];
    assert forall i :: 0 <= i < k ==> Before(t, b[i], b[k]);
    assert forall i :: 0 <= i < k ==> a[i] != b[k];
  }

  lemma NothingLeft(t: Table, a: seq<JobId>, b: seq<JobId>, limit: nat, now: int)
    requires IsClaimBatch(t, a, limit, now) && IsClaimBatch(t, b, limit, now)
    requires |a| <= |b| && a == b[..|a|]
    ensures a == b
  {
    assert forall i :: 0 <= i < |a| ==> a[i] == b[i];
    assert forall i, j :: 0 <= i < j < |b| ==> Before(t, b[i], b[j]);
    if b != [] {
      var last := b[|b| - 1];
      assert last in t && Claimable(t[last], now);
      assert last in a || |a| == limit;
    }
  }

  /** No two rows share an idempotency key. */
  ghost predicate UniqueKeys(t: Table) {
    forall a, b :: a in t && b in t && a != b && t[a].key.Some? ==> t[a].key != t[b].key
  }

  /** `b` is the row `a` under that owner's lease: claimable by others exactly from its expiry on, else unchanged. */
  ghost predicate OnlyLeased(a: Job, b: Job, owner: LeaseOwner, expires: int) {
    && b.state == Running && b.leaseOwner == Some(owner)
    && (forall now :: Claimable(b, now) <==> expires <= now)
    && b.attempt == a.attempt && b.nextRunAt == a.nextRunAt && b.key == a.key
  }

  /** No row but that of `id` changes, nor that one unless the write succeeded. */
  predicate OthersKept(a: Table, b: Table, id: JobId, ok: bool) {
    b.Keys == a.Keys && forall other :: other in b && (other != id || !ok) ==> b[other] == a[other]
  }

  /** The jobs table with its writes applied in place. */
  class JobRepository {
    var rows: Table

    constructor ()
      ensures rows == map[]
    {
      rows := map[];
    }

    /** A new row is due from `at` on; a taken id or idempotency key is a conflict that changes nothing, so no key
        ever names two rows. */
    method Enqueue(id: JobId, at: int, key: Option<string>) returns (ok: bool)
      modifies this
      ensures ok == (id !in old(rows) && !KeyTaken(old(rows), key))
      ensures rows == if ok then old(rows)[id := NewJob(at, key)] else old(rows)
      ensures ok ==> forall now :: Claimable(rows[id], now) <==> at <= now
      ensures ok ==> rows[id].attempt == 0 && rows[id].key == key && forall owner :: !Owned(rows, id, owner)
      ensures ok && key.Some? ==> KeyTaken(rows, key)
      ensures UniqueKeys(old(rows)) ==> UniqueKeys(rows)
    {
      ok := id !in rows && !KeyTaken(rows, key);
      if ok { rows := rows[id := NewJob(at, key)]; }
    }

    /** The first due row that is not yet taken, or none. */
    method NextDue(taken: set<JobId>, now: int) returns (best: Option<JobId>)
      ensures best.Some? ==> best.value in rows && best.value !in taken && Claimable(rows[best.value], now)
      ensures best.Some? ==> forall id :: id in rows && id !in taken && Claimable(rows[id], now) && id != best.value
                                          ==> Before(rows, best.value, id)
      ensures best.None? ==> forall id :: id in rows && id !in taken ==> !Claimable(rows[id], now)
    {
      best := None;
      var todo := rows.Keys;
      while todo != {}
        invariant todo <= rows.Keys
        invariant best.Some? ==> best.value in rows && best.value !in taken && Claimable(rows[best.value], now)
        invariant forall id :: id in rows && id !in todo && id !in taken && Claimable(rows[id], now)
                               ==> best.Some? && (id == best.value || Before(rows, best.value, id))
        decreases todo
      {
        var id :| id in todo;
        todo := todo - {id};
        if id !in taken && Claimable(rows[id], now) && (best.None? || Before(rows, id, best.value)) {
          best := Some(id);
        }
      }
    }

    /** The claimed rows come by due time and then by id, and none is passed over for one due later. Each is owned and
        not claimable again before its lease expires; attempts, keys and due times stay, as do all other rows. */
    method Claim(owner: LeaseOwner, limit: nat, now: int, expires: int) returns (claimed: seq<JobId>)
      modifies this
      ensures IsClaimBatch(old(rows), claimed, limit, now)
      ensures rows == ClaimRows(old(rows), (set id | id in claimed), owner, expires)
      ensures forall i, j :: 0 <= i < j < |claimed| ==>
                var a, b := old(rows)[claimed[i]].nextRunAt, old(rows)[claimed[j]].nextRunAt;
                a < b || (a == b && claimed[i] < claimed[j])
      ensures forall id, i :: id in old(rows) && Claimable(old(rows)[id], now) && id !in claimed && 0 <= i < |claimed| ==>
                old(rows)[claimed[i]].nextRunAt <= old(rows)[id].nextRunAt
      ensures forall id :: id in claimed ==> id in rows && OnlyLeased(old(rows)[id], rows[id], owner, expires)
      ensures rows.Keys == old(rows).Keys && forall id :: id in rows && id !in claimed ==> rows[id] == old(rows)[id]
    {
      claimed := [];
      var more := true;
      while more && |claimed| < limit
        invariant rows == old(rows)
        invariant |claimed| <= limit
        invariant forall i :: 0 <= i < |claimed| ==> claimed[i] in rows && Claimable(rows[claimed[i]], now)
        invariant forall i, j :: 0 <= i < j < |claimed| ==> Before(rows, claimed[i], claimed[j])
        invariant forall i, id :: 0 <= i < |claimed| && id in rows && id !in claimed && Claimable(rows[id], now)
                                  ==> Before(rows, claimed[i], id)
        invariant !more ==> forall id :: id in rows && id !in claimed ==> !Claimable(rows[id], now)
        decreases more, limit - |claimed|
      {
        var next := NextDue((set id | id in claimed), now);
        if next.None? {
          more := false;
        } else {
          claimed := claimed + [next.value];
        }
      }
      rows := ClaimRows(rows, (set id | id in claimed), owner, expires);
    }

    method Renew(id: JobId, owner: LeaseOwner, expires: int) returns (ok: bool)
      modifies this
      ensures ok == Owned(old(rows), id, owner)
      ensures rows == RenewRow(old(rows), id, owner, expires)
      ensures ok ==> OnlyLeased(old(rows)[id], rows[id], owner, expires)
      ensures OthersKept(old(rows), rows, id, ok)
    {
      ok := Owned(rows, id, owner);
      if ok { rows := rows[id := rows[id].(leaseExpiresAt := Some(expires))]; }
    }

    /** Succeed, Retry, Kill and Fail: one guarded update each, told apart by `o`. The row is nobody's afterwards; a
        retried one can be claimed exactly from its new due time on, any other never again by itself. */
    method Settle(id: JobId, owner: LeaseOwner, o: Outcome) returns (ok: bool)
      modifies this
      ensures ok == Owned(old(rows), id, owner)
      ensures rows == SettleRow(old(rows), id, owner, o)
      ensures ok ==> rows[id].state == match o
                                       case Success => Succeeded
                                       case RetryAt(_) => Pending
                                       case Kill => Dead
                                       case Fail => Failed
      ensures ok ==> forall now :: Claimable(rows[id], now) <==> o.RetryAt? && o.nextRunAt <= now
      ensures ok ==> rows[id].attempt == old(rows)[id].attempt + if o.RetryAt? then 1 else 0
      ensures ok ==> rows[id].key == old(rows)[id].key && forall other :: !Owned(rows, id, other)
      ensures OthersKept(old(rows), rows, id, ok)
    {
      ok := Owned(rows, id, owner);
      if ok { rows := rows[id := Settled(rows[id], o)]; }
    }

    /** A dead or failed row becomes claimable by anyone from `at` on, keeping its attempts and key; any other
        id is a conflict. No other row is touched. */
    method Requeue(id: JobId, at: int) returns (ok: bool)
      modifies this
      ensures rows == RequeueRow(old(rows), id, at)
      ensures ok <==> id in old(rows) && old(rows)[id].state in {Dead, Failed}
      ensures ok ==> forall now :: Claimable(rows[id], now) <==> at <= now
      ensures ok ==> rows[id].attempt == old(rows)[id].attempt && rows[id].key == old(rows)[id].key
      ensures ok ==> forall owner :: !Owned(rows, id, owner)
      ensures OthersKept(old(rows), rows, id, ok)
    {
      if id !in rows || (rows[id].state != Dead && rows[id].state != Failed) { return false; }
      var row := rows[id];
      rows := rows[id := Job(Pending, row.attempt, at, None, None, row.key)];
      ok := true;
    }
  }

  // ----- runs of the queue -----

  /** The table with what is needed to talk about its history: the next unused
      generation, the newest claim of every row, how often each row was claimed,
      and every outcome that took effect, in order. */
  datatype Queue = Queue(rows: Table, nextGen: nat, newest: map<JobId, LeaseOwner>,
                         claims: map<JobId, nat>, decided: seq<(JobId, LeaseOwner)>)

  datatype QueueEvent =
    | Enqueue(id: JobId, at: int, key: Option<string>)
    | Claim(worker: string, ids: set<JobId>, now: int, expires: int)
    | Renew(id: JobId, owner: LeaseOwner, expires: int)
    | Settle(id: JobId, owner: LeaseOwner, outcome: Outcome)
    | Requeue(id: JobId, at: int)

  function EmptyQueue(): Queue {
    Queue(map[], 0, map[], map[], [])
  }

  function ClaimCount(q: Queue, id: JobId): nat {
    if id in q.claims then q.claims[id] else 0
  }

  /** Whether the event can happen in `q`; a claim may serve any due rows. */
  predicate Enabled(q: Queue, e: QueueEvent) {
    match e
    case Enqueue(id, _, key) => id !in q.rows && !KeyTaken(q.rows, key)
    case Claim(_, ids, now, _) => forall id :: id in ids ==> id in q.rows && Claimable(q.rows[id], now)
    case _ => true
  }

  function QueueStep(q: Queue, e: QueueEvent): Queue {
    if !Enabled(q, e) then q else
    match e
    case Enqueue(id, at, key) => q.(rows := q.rows[id := NewJob(at, key)])
    case Claim(worker, ids, _, expires) =>
      var owner := LeaseOwner(worker, q.nextGen);
      Queue(ClaimRows(q.rows, ids, owner, expires), q.nextGen + 1,
            map id | id in q.newest.Keys + ids :: if id in ids then owner else q.newest[id],
            map id | id in q.claims.Keys + ids :: if id in ids then ClaimCount(q, id) + 1 else q.claims[id],
            q.decided)
    case Renew(id, owner, expires) => q.(rows := RenewRow(q.rows, id, owner, expires))
    case Settle(id, owner, o) =>
      if Owned(q.rows, id, owner)
      then q.(rows := SettleRow(q.rows, id, owner, o), decided := q.decided + [(id, owner)])
      else q
    case Requeue(id, at) => q.(rows := RequeueRow(q.rows, id, at))
  }

  function RunQueue(q: Queue, es: seq<QueueEvent>): Queue
    decreases |es|
  {
    if es == [] then q else RunQueue(QueueStep(q, es[0]), es[1..])
  }

  /** A running row is leased to its newest claim; a row that is not running is leased to
      nobody; generations are never reused; a decided claim no longer owns its row. */
  ghost predicate Fenced(q: Queue) {
    && (forall id :: id in q.rows && q.rows[id].state == Running ==>
          id in q.newest && q.rows[id].leaseOwner == Some(q.newest[id]) && q.rows[id].leaseExpiresAt.Some?)
    && (forall id :: id in q.rows && q.rows[id].state != Running ==>
          q.rows[id].leaseOwner == None && q.rows[id].leaseExpiresAt == None)
    && (forall id :: id in q.newest ==> id in q.rows && q.newest[id].generation < q.nextGen)
    && (forall i :: 0 <= i < |q.decided| ==>
          && q.decided[i].0 in q.newest
          && q.decided[i].1.generation <= q.newest[q.decided[i].0].generation
          && !Owned(q.rows, q.decided[i].0, q.decided[i].1))
  }

  /** Each claim decides at most one outcome of each row. */
  ghost predicate DecidedOnce(q: Queue) {
    forall i, j :: 0 <= i < j < |q.decided| ==> q.decided[i] != q.decided[j]
  }

  lemma FencedStep(q: Queue, e: QueueEvent)
    requires Fenced(q)
    ensures Fenced(QueueStep(q, e))
  {
    if Enabled(q, e) {
      match e
      case Enqueue(id, at, key) => FencedEnqueue(q, id, at, key);
      case Claim(worker, ids, now, expires) => FencedClaim(q, worker, ids, now, expires);
      case Renew(id, owner, expires) => FencedRenew(q, id, owner, expires);
      case Settle(id, owner, o) => FencedSettle(q, id, owner, o);
      case Requeue(id, at) => FencedRequeue(q, id, at);
    }
  }

  lemma FencedEnqueue(q: Queue, id: JobId, at: int, key: Option<string>)
    requires Fenced(q) && Enabled(q, Enqueue(id, at, key))
    ensures Fenced(QueueStep(q, Enqueue(id, at, key)))
  {
  }

  lemma FencedRenew(q: Queue, id: JobId, owner: LeaseOwner, expires: int)
    requires Fenced(q)
    ensures Fenced(QueueStep(q, Renew(id, owner, expires)))
  {
  }

  lemma FencedRequeue(q: Queue, id: JobId, at: int)
    requires Fenced(q)
    ensures Fenced(QueueStep(q, Requeue(id, at)))
  {
  }

  lemma FencedClaim(q: Queue, worker: string, ids: set<JobId>, now: int, expires: int)
    requires Fenced(q) && Enabled(q, Claim(worker, ids, now, expires))
    ensures Fenced(QueueStep(q, Claim(worker, ids, now, expires)))
  {
    var q' := QueueStep(q, Claim(worker, ids, now, expires));
    forall i | 0 <= i < |q'.decided|
      ensures q'.decided[i].0 in q'.newest
      ensures q'.decided[i].1.generation <= q'.newest[q'.decided[i].0].generation
      ensures !Owned(q'.rows, q'.decided[i].0, q'.decided[i].1)
    {
      var (id, owner) := q.decided[i];
      assert id in q.newest && owner.generation < q.nextGen && !Owned(q.rows, id, owner);
    }
  }

  lemma FencedSettle(q: Queue, id: JobId, owner: LeaseOwner, o: Outcome)
    requires Fenced(q)
    ensures Fenced(QueueStep(q, Settle(id, owner, o)))
  {
    var q' := QueueStep(q, Settle(id, owner, o));
    if Owned(q.rows, id, owner) {
      assert q'.rows[id].leaseOwner == None;
      forall i | 0 <= i < |q'.decided|
        ensures q'.decided[i].0 in q'.newest
        ensures q'.decided[i].1.generation <= q'.newest[q'.decided[i].0].generation
        ensures !Owned(q'.rows, q'.decided[i].0, q'.decided[i].1)
      {
        if i < |q.decided| {
          assert q'.decided[i] == q.decided[i];
        }
      }
    }
  }

  lemma DecidedOnceStep(q: Queue, e: QueueEvent)
    requires Fenced(q) && DecidedOnce(q)
    ensures DecidedOnce(QueueStep(q, e))
  {
  }

  /** Fencing holds in every reachable state, whoever calls the writes with whatever owner. */
  lemma {:induction false} FencedRun(q: Queue, es: seq<QueueEvent>)
    requires Fenced(q) && DecidedOnce(q)
    ensures Fenced(RunQueue(q, es)) && DecidedOnce(RunQueue(q, es))
    decreases |es|
  {
    if es != [] {
      FencedStep(q, es[0]);
      DecidedOnceStep(q, es[0]);
      FencedRun(QueueStep(q, es[0]), es[1..]);
    }
  }

  lemma UniqueKeysStep(q: Queue, e: QueueEvent)
    requires UniqueKeys(q.rows)
    ensures UniqueKeys(QueueStep(q, e).rows)
    ensures forall id :: id in q.rows ==> id in QueueStep(q, e).rows && QueueStep(q, e).rows[id].key == q.rows[id].key
  {
  }

  /** Over every run a key names at most one row, for ever: rows never go, never change keys, and a taken key is
      refused whatever became of the job that has it. */
  lemma {:induction false} KeysStayUnique(q: Queue, es: seq<QueueEvent>)
    requires UniqueKeys(q.rows)
    ensures UniqueKeys(RunQueue(q, es).rows)
    ensures forall id :: id in q.rows ==> id in RunQueue(q, es).rows && RunQueue(q, es).rows[id].key == q.rows[id].key
    decreases |es|
  {
    if es != [] {
      UniqueKeysStep(q, es[0]);
      KeysStayUnique(QueueStep(q, es[0]), es[1..]);
    }
  }

  /** A write under any lease other than the row's newest claim changes nothing, even
      when the same worker holds the newer claim. */
  lemma StaleWriteIsNoOp(es: seq<QueueEvent>, id: JobId, owner: LeaseOwner, o: Outcome, expires: int)
    requires var q := RunQueue(EmptyQueue(), es);
             id in q.newest ==> owner != q.newest[id]
    ensures var q := RunQueue(EmptyQueue(), es);
            QueueStep(q, Settle(id, owner, o)) == q && QueueStep(q, Renew(id, owner, expires)) == q
  {
    FencedRun(EmptyQueue(), es);
  }

  /** Each event that can happen makes of the table what its repository write makes of it. */
  lemma EventsAreTheWrites(q: Queue, id: JobId, at: int, key: Option<string>, ids: set<JobId>, worker: string,
                           owner: LeaseOwner, o: Outcome, now: int, expires: int)
    ensures id !in q.rows && !KeyTaken(q.rows, key) ==>
              QueueStep(q, Enqueue(id, at, key)).rows == q.rows[id := NewJob(at, key)]
    ensures (forall i :: i in ids ==> i in q.rows && Claimable(q.rows[i], now)) ==>
              QueueStep(q, Claim(worker, ids, now, expires)).rows
              == ClaimRows(q.rows, ids, LeaseOwner(worker, q.nextGen), expires)
    ensures QueueStep(q, Renew(id, owner, expires)).rows == RenewRow(q.rows, id, owner, expires)
    ensures QueueStep(q, Settle(id, owner, o)).rows == SettleRow(q.rows, id, owner, o)
    ensures QueueStep(q, Requeue(id, at)).rows == RequeueRow(q.rows, id, at)
  {
  }
}
