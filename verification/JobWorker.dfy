/** The worker side of the queue: configuration clamps, retry backoff, the decision taken
    when a handler returns, and the manager that drives the repository. */
module JobWorker {
  import opened Wrappers
  import opened JobQueue
  import Text

  /** Durations are integers (nanoseconds). */
  datatype Config = Config(workerId: string, pollInterval: int, claimBatchSize: int, leaseDuration: int,
                           leaseRenewMargin: int, maxAttempts: int, backoffBase: int, backoffMax: int,
                           backoffJitter: real, maxConcurrentJobs: int, gracePeriod: int)

  const SECOND := 1_000_000_000

  predicate Usable(c: Config) {
    && c.workerId != "" && c.pollInterval > 0 && c.gracePeriod > 0
    && c.claimBatchSize > 0 && c.leaseDuration > 0
    && 0 <= c.leaseRenewMargin < c.leaseDuration
    && c.maxAttempts > 0
    && 0 < c.backoffBase <= c.backoffMax
    && 0.0 <= c.backoffJitter <= 1.0
    && c.maxConcurrentJobs > 0
  }

  /** A margin must be positive and below the lease. */
  method LeaseDefaults(lease: int, margin: int) returns (lease': int, margin': int)
    ensures lease' == if lease > 0 then lease else 30 * SECOND
    ensures margin' == if 0 < margin < lease' then margin else lease' / 3
    ensures 0 <= margin' < lease'
  {
    lease', margin' := lease, margin;
    if lease' <= 0 { lease' := 30 * SECOND; }
    if margin' <= 0 || margin' >= lease' { margin' := lease' / 3; }
  }

  /** The cap is never below the base. */
  method BackoffDefaults(base: int, max: int, jitter: real) returns (base': int, max': int, jitter': real)
    ensures base' == if base > 0 then base else SECOND
    ensures max' == var cap := if max > 0 then max else 600 * SECOND; if cap < base' then base' else cap
    ensures jitter' == if 0.0 <= jitter <= 1.0 then jitter else 0.2
    ensures 0 < base' <= max' && 0.0 <= jitter' <= 1.0
  {
    base', max', jitter' := base, max, jitter;
    if base' <= 0 { base' := SECOND; }
    if max' <= 0 { max' := 600 * SECOND; }
    if max' < base' { max' := base'; }
    if jitter' < 0.0 || jitter' > 1.0 { jitter' := 0.2; }
  }

  /** The host's name, unless the lookup fails or finds none, and the process id. */
  function ProcessName(host: Option<string>, pid: nat): string {
    (if host.None? || host.value == "" then "localhost" else host.value) + ":" + Text.Decimal(pid)
  }

  /** Field by field: what is in range is kept, and the rest has its default. */
  predicate IsDefaulted(c: Config, r: Config, host: Option<string>, pid: nat) {
    && r.workerId == (if c.workerId != "" then c.workerId else ProcessName(host, pid))
    && r.pollInterval == (if c.pollInterval > 0 then c.pollInterval else SECOND)
    && r.claimBatchSize == (if c.claimBatchSize > 0 then c.claimBatchSize else 10)
    && r.leaseDuration == (if c.leaseDuration > 0 then c.leaseDuration else 30 * SECOND)
    && r.leaseRenewMargin ==
       (if 0 < c.leaseRenewMargin < r.leaseDuration then c.leaseRenewMargin else r.leaseDuration / 3)
    && r.maxAttempts == (if c.maxAttempts > 0 then c.maxAttempts else 8)
    && r.backoffBase == (if c.backoffBase > 0 then c.backoffBase else SECOND)
    && r.backoffMax == (var cap := if c.backoffMax > 0 then c.backoffMax else 600 * SECOND;
                        if cap < r.backoffBase then r.backoffBase else cap)
    && r.backoffJitter == (if 0.0 <= c.backoffJitter <= 1.0 then c.backoffJitter else 0.2)
    && r.maxConcurrentJobs == (if c.maxConcurrentJobs > 0 then c.maxConcurrentJobs else 4)
    && r.gracePeriod == (if c.gracePeriod > 0 then c.gracePeriod else 15 * SECOND)
  }

  /** Every configuration becomes usable. */
  method WithDefaults(c: Config, host: Option<string>, pid: nat) returns (r: Config)
    ensures Usable(r) && IsDefaulted(c, r, host, pid)
  {
    var worker, poll, grace := c.workerId, c.pollInterval, c.gracePeriod;
    if worker == "" { worker := ProcessName(host, pid); }
    if poll <= 0 { poll := SECOND; }
    if grace <= 0 { grace := 15 * SECOND; }
    var batch, attempts, concurrent := c.claimBatchSize, c.maxAttempts, c.maxConcurrentJobs;
    if batch <= 0 { batch := 10; }
    if attempts <= 0 { attempts := 8; }
    if concurrent <= 0 { concurrent := 4; }
    var lease, margin := LeaseDefaults(c.leaseDuration, c.leaseRenewMargin);
    var base, max, jitter := BackoffDefaults(c.backoffBase, c.backoffMax, c.backoffJitter);
    r := Config(worker, poll, batch, lease, margin, attempts, base, max, jitter, concurrent, grace);
  }

  lemma UsableIsKept(c: Config, r: Config, host: Option<string>, pid: nat)
    requires Usable(c) && c.leaseRenewMargin > 0 && IsDefaulted(c, r, host, pid)
    ensures r == c
  {
  }

  // ----- backoff -----

  const INT64_MAX := 0x7FFF_FFFF_FFFF_FFFF

  function Pow2(n: nat): (p: nat)
    ensures p >= 1
  {
    if n == 0 then 1 else 2 * Pow2(n - 1)
  }

  function Min(a: int, b: int): int {
    if a < b then a else b
  }

  function ClampAttempt(attempt: int): nat {
    if attempt < 0 then 0 else if attempt > 20 then 20 else attempt
  }

  /** The delay before jitter, computed as the code does: the product is formed only
      when the division shows that it fits. */
  function PreJitter(c: Config, attempt: int): int {
    var factor := Pow2(ClampAttempt(attempt));
    var d := if c.backoffBase <= c.backoffMax / factor then c.backoffBase * factor else c.backoffMax;
    if d <= 0 || d > c.backoffMax then c.backoffMax else d
  }

  function Clamp(x: int, lo: int, hi: int): int {
    if x < lo then lo else if x > hi then hi else x
  }

  function Shifted(d: int, share: real, draw: real): real {
    d as real + (draw * 2.0 - 1.0) * share
  }

  /** The delay `d` with its jitter; `draw` is the random number in [0, 1). */
  function Jittered(c: Config, d: int, draw: real): int {
    Clamp(Shifted(d, d as real * c.backoffJitter, draw).Floor, c.backoffBase, c.backoffMax)
  }

  function Backoff(c: Config, attempt: int, draw: real): int {
    Jittered(c, PreJitter(c, attempt), draw)
  }

  lemma DivisionGuard(base: int, max: int, factor: int)
    requires 0 < base && 0 <= max && 0 < factor
    ensures base <= max / factor <==> base * factor <= max
  {
    var q := max / factor;
    assert max == q * factor + max % factor && 0 <= max % factor < factor;
    if base <= q {
      assert base * factor <= q * factor;
    } else {
      assert (q + 1) * factor <= base * factor;
    }
  }

  lemma {:induction false} Pow2Monotone(m: nat, n: nat)
    requires m <= n
    ensures Pow2(m) <= Pow2(n)
  {
    if m < n { Pow2Monotone(m, n - 1); }
  }

  lemma ScaleMonotone(base: int, p: int, q: int)
    requires 0 < base && p <= q
    ensures base * p <= base * q
  {
  }

  /** Capped doubling: exactly base * 2^min(attempt, 20) up to the cap, without leaving int64. */
  lemma PreJitterIsCappedDoubling(c: Config, attempt: int)
    requires Usable(c) && c.backoffMax <= INT64_MAX
    ensures PreJitter(c, attempt) == Min(c.backoffBase * Pow2(ClampAttempt(attempt)), c.backoffMax)
    ensures c.backoffBase <= PreJitter(c, attempt) <= c.backoffMax
    ensures var factor := Pow2(ClampAttempt(attempt));
            c.backoffBase <= c.backoffMax / factor ==> c.backoffBase * factor <= INT64_MAX
  {
    var factor := Pow2(ClampAttempt(attempt));
    var product := c.backoffBase * factor;
    DivisionGuard(c.backoffBase, c.backoffMax, factor);
    ScaleMonotone(c.backoffBase, 1, factor);
    assert c.backoffBase <= product;
    assert PreJitter(c, attempt) == if product <= c.backoffMax then product else c.backoffMax;
  }

  /** Later attempts never wait less (before jitter), and every actual delay stays within the bounds. */
  lemma BackoffGrowsWithinBounds(c: Config, early: int, late: int, draw: real)
    requires Usable(c) && c.backoffMax <= INT64_MAX && early <= late
    ensures PreJitter(c, early) <= PreJitter(c, late)
    ensures c.backoffBase <= Backoff(c, late, draw) <= c.backoffMax
  {
    PreJitterIsCappedDoubling(c, early);
    PreJitterIsCappedDoubling(c, late);
    Pow2Monotone(ClampAttempt(early), ClampAttempt(late));
    ScaleMonotone(c.backoffBase, Pow2(ClampAttempt(early)), Pow2(ClampAttempt(late)));
  }

  lemma CappedTwice(base: int, f: nat, max: int)
    requires 0 < base <= max && f >= 1
    ensures Min(base * (2 * f), max) == Min(2 * Min(base * f, max), max)
  {
    assert base * (2 * f) == 2 * (base * f);
  }

  /** One more attempt doubles the delay up to the cap, from the base on and no further than the twentieth. */
  lemma DelayDoubles(c: Config, attempt: int)
    requires Usable(c) && c.backoffMax <= INT64_MAX
    ensures attempt <= 0 ==> PreJitter(c, attempt) == c.backoffBase
    ensures 0 <= attempt < 20 ==> PreJitter(c, attempt + 1) == Min(2 * PreJitter(c, attempt), c.backoffMax)
    ensures attempt >= 20 ==> PreJitter(c, attempt) == PreJitter(c, 20)
  {
    if attempt <= 0 {
      assert Pow2(0) == 1 && PreJitter(c, attempt) == PreJitter(c, 0);
      PreJitterIsCappedDoubling(c, 0);
    }
    if 0 <= attempt < 20 {
      PreJitterIsCappedDoubling(c, attempt);
      PreJitterIsCappedDoubling(c, attempt + 1);
      CappedTwice(c.backoffBase, Pow2(attempt), c.backoffMax);
    }
  }

  /** The delay a draw names: from one share below `d` to one share above, growing with the draw. */
  function Wanted(d: int, share: real, draw: real): real {
    d as real - share + draw * (2.0 * share)
  }

  lemma ShiftedIsWanted(d: int, share: real, draw: real)
    ensures Shifted(d, share, draw) == Wanted(d, share, draw)
  {
  }

  lemma MulLess(a: real, b: real, x: real)
    requires a <= b && x >= 0.0
    ensures a * x <= b * x
  {
    assert (b - a) * x >= 0.0;
  }

  lemma WantedFacts(d: int, share: real, draw: real, higher: real)
    requires share >= 0.0 && 0.0 <= draw <= higher < 1.0
    ensures Wanted(d, share, 0.5) == d as real
    ensures d as real - share <= Wanted(d, share, draw) <= Wanted(d, share, higher) <= d as real + share
  {
    MulLess(0.0, draw, 2.0 * share);
    MulLess(draw, higher, 2.0 * share);
    MulLess(higher, 1.0, 2.0 * share);
  }

  lemma ClampedFloor(x: real, lo: int, hi: int)
    requires lo <= hi
    ensures var k := Clamp(x.Floor, lo, hi);
      && (lo as real <= x <= hi as real ==> x - 1.0 < k as real <= x)
      && (x < lo as real ==> k == lo) && (x > hi as real ==> k == hi)
  {
  }

  lemma ClampMonotone(x: real, y: real, lo: int, hi: int)
    requires lo <= hi && x <= y
    ensures Clamp(x.Floor, lo, hi) <= Clamp(y.Floor, lo, hi)
  {
  }

  lemma ShareOf(d: int, j: real)
    requires d >= 0 && j >= 0.0
    ensures d as real * j >= 0.0
  {
  }

  /** A higher draw never shortens a delay, and the middle draw leaves it alone. */
  lemma JitterIsCentred(c: Config, d: int, draw: real, higher: real)
    requires Usable(c) && c.backoffBase <= d <= c.backoffMax && 0.0 <= draw <= higher < 1.0
    ensures Jittered(c, d, 0.5) == d && Jittered(c, d, draw) <= Jittered(c, d, higher)
  {
    var share := d as real * c.backoffJitter;
    ShareOf(d, c.backoffJitter);
    WantedFacts(d, share, draw, higher);
    ShiftedIsWanted(d, share, 0.5);
    ShiftedIsWanted(d, share, draw);
    ShiftedIsWanted(d, share, higher);
    ClampMonotone(Wanted(d, share, draw), Wanted(d, share, higher), c.backoffBase, c.backoffMax);
  }

  /** `delay` is the delay that the draw names around `d`, rounded down, or the bound which that one exceeds. */
  ghost predicate Spreads(c: Config, d: int, draw: real, delay: int) {
    var share := d as real * c.backoffJitter;
    var wanted := Wanted(d, share, draw);
    && d as real - share <= wanted <= d as real + share
    && (c.backoffBase as real <= wanted <= c.backoffMax as real ==> wanted - 1.0 < delay as real <= wanted)
    && (wanted < c.backoffBase as real ==> delay == c.backoffBase)
    && (wanted > c.backoffMax as real ==> delay == c.backoffMax)
  }

  lemma JitterSpreadsEvenly(c: Config, d: int, draw: real)
    requires Usable(c) && c.backoffBase <= d <= c.backoffMax && 0.0 <= draw < 1.0
    ensures Spreads(c, d, draw, Jittered(c, d, draw))
  {
    var share := d as real * c.backoffJitter;
    ShareOf(d, c.backoffJitter);
    WantedFacts(d, share, draw, draw);
    ShiftedIsWanted(d, share, draw);
    ClampedFloor(Wanted(d, share, draw), c.backoffBase, c.backoffMax);
  }

  lemma BackoffIsJittered(c: Config, attempt: int, draw: real, d: int)
    requires d == PreJitter(c, attempt)
    ensures Backoff(c, attempt, draw) == Jittered(c, d, draw)
  {
  }

  /** The actual delay is the capped doubling with its jitter, and that very delay at the middle draw. */
  lemma BackoffSpreadsDoubling(c: Config, attempt: int, draw: real, d: int)
    requires Usable(c) && c.backoffMax <= INT64_MAX && 0.0 <= draw < 1.0 && d == PreJitter(c, attempt)
    ensures Backoff(c, attempt, 0.5) == d && Spreads(c, d, draw, Backoff(c, attempt, draw))
  {
    BackoffIsJittered(c, attempt, 0.5, d);
    BackoffIsJittered(c, attempt, draw, d);
    assert c.backoffBase <= d <= c.backoffMax by { PreJitterIsCappedDoubling(c, attempt); }
    JitterIsCentred(c, d, 0.5, 0.5);
    JitterSpreadsEvenly(c, d, draw);
  }

  // ----- the decision taken when a handler returns -----

  datatype HandlerResult = Done | Retryable | Permanent

  function FinishOutcome(maxAttempts: int, attempt: nat, r: HandlerResult, retryAt: int): Outcome {
    match r
    case Done => Success
    case Permanent => Fail
    case Retryable => if attempt + 1 >= maxAttempts then Kill else RetryAt(retryAt)
  }

  // ----- the manager -----

  /** One worker process on the shared table. `fault` stands for a storage error. */
  class Manager {
    const workerId: string
    const repo: JobRepository
    var cfg: Config
    var running: nat
    var nextId: nat

    constructor (repo: JobRepository, cfg: Config, firstId: nat)
      requires Usable(cfg)
      ensures this.workerId == cfg.workerId && this.repo == repo && this.cfg == cfg
      ensures running == 0 && nextId == firstId
    {
      this.workerId := cfg.workerId;
      this.repo := repo;
      this.cfg := cfg;
      running := 0;
      nextId := firstId;
    }

    /** A poll claims the first due rows under a lease owner that no other claim ever had, as many as
        concurrency and batch size allow, and never lifts the running count above the limit. */
    method Poll(now: int, fault: bool) returns (owner: LeaseOwner, claimed: seq<JobId>)
      requires Usable(cfg)
      modifies this`running, this`nextId, repo
      ensures owner == LeaseOwner(workerId, old(nextId)) && nextId == old(nextId) + 1
      ensures var limit := Min(cfg.maxConcurrentJobs - old(running), cfg.claimBatchSize);
              if limit <= 0 || fault then claimed == []
              else IsClaimBatch(old(repo.rows), claimed, limit, now)
      ensures repo.rows == ClaimRows(old(repo.rows), (set id | id in claimed), owner, now + cfg.leaseDuration)
      ensures forall id :: id in claimed ==>
                && id in old(repo.rows) && id in repo.rows
                && OnlyLeased(old(repo.rows)[id], repo.rows[id], owner, now + cfg.leaseDuration)
      ensures running == old(running) + |claimed|
      ensures running <= old(running) || running <= cfg.maxConcurrentJobs
    {
      owner := LeaseOwner(workerId, nextId);
      nextId := nextId + 1;
      claimed := [];
      assert repo.rows == ClaimRows(repo.rows, {}, owner, now + cfg.leaseDuration);
      var available := cfg.maxConcurrentJobs - running;
      if available <= 0 || fault { return; }
      claimed := repo.Claim(owner, Min(available, cfg.claimBatchSize), now, now + cfg.leaseDuration);
      var i := 0;
      while i < |claimed|
        invariant 0 <= i <= |claimed|
        invariant running == old(running) + i && nextId == old(nextId) + 1
        invariant repo.rows == ClaimRows(old(repo.rows), (set id | id in claimed), owner, now + cfg.leaseDuration)
      {
        running := running + 1;
        i := i + 1;
      }
    }

    method ConfirmLease(id: JobId, owner: LeaseOwner, now: int, fault: bool) returns (ok: bool)
      modifies repo
      ensures ok == (!fault && Owned(old(repo.rows), id, owner))
      ensures repo.rows == if ok then RenewRow(old(repo.rows), id, owner, now + cfg.leaseDuration) else old(repo.rows)
      ensures ok ==> OnlyLeased(old(repo.rows)[id], repo.rows[id], owner, now + cfg.leaseDuration)
    {
      ok := false;
      if !fault { ok := repo.Renew(id, owner, now + cfg.leaseDuration); }
    }

    /** The handler of one delivery returned while the worker was live. */
    method Finish(id: JobId, owner: LeaseOwner, attempt: nat, r: HandlerResult, now: int, draw: real, fault: bool)
      requires Usable(cfg)
      modifies repo, this`running
      requires running > 0
      ensures running == old(running) - 1
      ensures repo.rows == if fault then old(repo.rows)
                           else SettleRow(old(repo.rows), id, owner,
                                          FinishOutcome(cfg.maxAttempts, attempt, r, now + Backoff(cfg, attempt, draw)))
      ensures !fault && Owned(old(repo.rows), id, owner) ==>
                repo.rows[id].state == match r
                                       case Done => Succeeded
                                       case Permanent => Failed
                                       case Retryable => if attempt + 1 >= cfg.maxAttempts then Dead else Pending
      ensures !fault && Owned(old(repo.rows), id, owner) && repo.rows[id].state == Pending ==>
                && repo.rows[id].attempt == old(repo.rows)[id].attempt + 1
                && (forall t :: Claimable(repo.rows[id], t) <==> now + Backoff(cfg, attempt, draw) <= t)
                && (forall t :: Claimable(repo.rows[id], t) ==> now + cfg.backoffBase <= t)
                && (forall t :: now + cfg.backoffMax <= t ==> Claimable(repo.rows[id], t))
      ensures OthersKept(old(repo.rows), repo.rows, id, !fault && Owned(old(repo.rows), id, owner))
    {
      if !fault {
        var outcome;
        if r == Done {
          outcome := Success;
        } else if r == Permanent {
          outcome := Fail;
        } else if attempt + 1 >= cfg.maxAttempts {
          outcome := Kill;
        } else {
          outcome := RetryAt(now + Backoff(cfg, attempt, draw));
        }
        var _ := repo.Settle(id, owner, outcome);
      }
      running := running - 1;
    }

    /** The worker was cancelled: the row is retried at once, whatever the attempt. */
    method RetryCancelled(id: JobId, owner: LeaseOwner, now: int, fault: bool)
      modifies repo, this`running
      requires running > 0
      ensures running == old(running) - 1
      ensures repo.rows == if fault then old(repo.rows) else SettleRow(old(repo.rows), id, owner, RetryAt(now))
      ensures !fault && Owned(old(repo.rows), id, owner) ==>
                && (forall t :: Claimable(repo.rows[id], t) <==> now <= t)
                && repo.rows[id].attempt == old(repo.rows)[id].attempt + 1
      ensures OthersKept(old(repo.rows), repo.rows, id, !fault && Owned(old(repo.rows), id, owner))
    {
      if !fault { var _ := repo.Settle(id, owner, RetryAt(now)); }
      running := running - 1;
    }
  }

  // ----- how often a row is handed out -----

  /** With one fixed attempt limit and no lease recovery, cancellation or manual requeue: claims take
      pending rows only and every outcome is the one `FinishOutcome` chooses. */
  ghost predicate Calm(q: Queue, e: QueueEvent, maxAttempts: int) {
    match e
    case Claim(_, ids, _, _) => forall id :: id in ids && id in q.rows ==> q.rows[id].state == Pending
    case Settle(id, owner, o) =>
      Owned(q.rows, id, owner) ==>
        exists r, at :: o == FinishOutcome(maxAttempts, q.rows[id].attempt, r, at)
    case Requeue(_, _) => false
    case _ => true
  }

  ghost predicate CalmRun(q: Queue, es: seq<QueueEvent>, maxAttempts: int)
    decreases |es|
  {
    es == [] || (Calm(q, es[0], maxAttempts) && CalmRun(QueueStep(q, es[0]), es[1..], maxAttempts))
  }

  /** Every delivery but the one in progress, or the one that ended the row, used up one attempt. */
  ghost predicate Metered(q: Queue, maxAttempts: int) {
    && (forall id :: id in q.claims ==> id in q.rows)
    && (forall id :: id in q.rows ==>
          && q.rows[id].attempt < maxAttempts
          && ClaimCount(q, id) == q.rows[id].attempt + (if q.rows[id].state == Pending then 0 else 1))
  }

  lemma MeteredStep(q: Queue, e: QueueEvent, maxAttempts: int)
    requires maxAttempts > 0 && Metered(q, maxAttempts) && Calm(q, e, maxAttempts)
    ensures Metered(QueueStep(q, e), maxAttempts)
  {
  }

  /** Each row is handed to at most `maxAttempts` handlers, and after that many it is no longer pending. */
  lemma {:induction false} AttemptsAreBounded(q: Queue, es: seq<QueueEvent>, maxAttempts: int, id: JobId)
    requires maxAttempts > 0 && Metered(q, maxAttempts) && CalmRun(q, es, maxAttempts)
    ensures var q' := RunQueue(q, es);
            && Metered(q', maxAttempts)
            && ClaimCount(q', id) <= maxAttempts
            && (id in q'.rows && ClaimCount(q', id) == maxAttempts ==> q'.rows[id].state != Pending)
    decreases |es|
  {
    if es != [] {
      MeteredStep(q, es[0], maxAttempts);
      AttemptsAreBounded(QueueStep(q, es[0]), es[1..], maxAttempts, id);
    }
  }
}
