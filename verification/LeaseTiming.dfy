/** When leases exclude: a clock, the renewal ticker of each dispatched delivery, and the timing
    conditions under which no two handlers of one row ever run at the same time. */
module LeaseTiming {
  import opened Wrappers
  import opened JobQueue

  type RunKey = (JobId, LeaseOwner)

  /** A dispatched delivery. `due` is when its next renewal tick falls due; `every` and `margin` are the
      renewal interval and the lease margin read when its ticker was created. */
  datatype Delivery = Delivery(due: int, every: int, margin: int, handling: bool)

  datatype Timed = Timed(now: int, q: Queue, runs: map<RunKey, Delivery>)

  datatype TimedEvent =
    | Pass(to: int)
    | QueueWrite(e: QueueEvent)             // enqueue, requeue, or a claim by any worker
    | Dispatch(key: RunKey, at: int, confirmed: int, lease: int, margin: int, due: int)
    | RenewTick(key: RunKey, at: int, lease: int, nextDue: int)
    | HandlerReturns(key: RunKey)
    | WriteOutcome(key: RunKey, outcome: Outcome)
    | Crash(keys: set<RunKey>)

  /** What can happen at all. A write uses a clock reading `at` taken at or before the moment it commits; a tick is
      served at or after it fell due, and the ticker's next tick is at most one interval after the served one. */
  predicate CanHappen(s: Timed, ev: TimedEvent) {
    match ev
    case Pass(to) => s.now <= to
    case QueueWrite(e) => !e.Settle? && !e.Renew? && (e.Claim? ==> e.now <= s.now)
    case Dispatch(key, at, confirmed, lease, margin, due) =>
      && key !in s.runs && Owned(s.q.rows, key.0, key.1)
      && at <= s.now && 0 <= margin < lease && due <= at + (lease - margin)
    case RenewTick(key, at, lease, nextDue) =>
      && key in s.runs && s.runs[key].handling && Owned(s.q.rows, key.0, key.1)
      && s.runs[key].due <= at <= s.now
      && s.runs[key].due < nextDue <= at + s.runs[key].every
    case HandlerReturns(key) => key in s.runs
    case WriteOutcome(key, _) => key in s.runs && !s.runs[key].handling
    case Crash(_) => true
  }

  function TimedStep(s: Timed, ev: TimedEvent): Timed {
    if !CanHappen(s, ev) then s else
    match ev
    case Pass(to) => s.(now := to)
    case QueueWrite(e) => s.(q := QueueStep(s.q, e))
    case Dispatch(key, at, confirmed, lease, margin, due) =>
      Timed(s.now, QueueStep(s.q, Renew(key.0, key.1, at + confirmed)),
            s.runs[key := Delivery(due, lease - margin, margin, true)])
    case RenewTick(key, at, lease, nextDue) =>
      Timed(s.now, QueueStep(s.q, Renew(key.0, key.1, at + lease)), s.runs[key := s.runs[key].(due := nextDue)])
    case HandlerReturns(key) => s.(runs := s.runs[key := s.runs[key].(handling := false)])
    case WriteOutcome(key, o) => Timed(s.now, QueueStep(s.q, Settle(key.0, key.1, o)), s.runs - {key})
    case Crash(keys) => s.(runs := s.runs - keys)
  }

  function RunTimed(s: Timed, es: seq<TimedEvent>): Timed
    decreases |es|
  {
    if es == [] then s else RunTimed(TimedStep(s, es[0]), es[1..])
  }

  /** The conditions on timing and configuration: no handler's tick is left unserved for its whole margin, the lease
      in force at dispatch covers the interval the ticker is built from, and later renewals never grant less. */
  predicate Timely(s: Timed, ev: TimedEvent) {
    match ev
    case Pass(to) => forall key :: key in s.runs && s.runs[key].handling ==> to < s.runs[key].due + s.runs[key].margin
    case Dispatch(key, at, confirmed, lease, margin, due) => lease <= confirmed && s.now < due + margin
    case RenewTick(key, at, lease, _) => key in s.runs ==> s.runs[key].every + s.runs[key].margin <= lease
    case _ => true
  }

  predicate TimelyRun(s: Timed, es: seq<TimedEvent>)
    decreases |es|
  {
    es == [] || (Timely(s, es[0]) && TimelyRun(TimedStep(s, es[0]), es[1..]))
  }

  ghost predicate Overlap(s: Timed) {
    exists a, b :: a in s.runs && b in s.runs && s.runs[a].handling && s.runs[b].handling && a.0 == b.0 && a != b
  }

  /** Every running handler's lease is in force and outlasts the deadline of its next tick. */
  ghost predicate Covered(s: Timed) {
    forall key :: key in s.runs && s.runs[key].handling ==>
      && Owned(s.q.rows, key.0, key.1)
      && s.q.rows[key.0].leaseExpiresAt.Some?
      && s.now < s.runs[key].due + s.runs[key].margin <= s.q.rows[key.0].leaseExpiresAt.value
  }

  lemma CoveredStep(s: Timed, ev: TimedEvent)
    requires Covered(s) && Timely(s, ev)
    ensures Covered(TimedStep(s, ev))
  {
    if CanHappen(s, ev) {
      var s' := TimedStep(s, ev);
      forall key | key in s'.runs && s'.runs[key].handling
        ensures Owned(s'.q.rows, key.0, key.1) && s'.q.rows[key.0].leaseExpiresAt.Some?
        ensures s'.now < s'.runs[key].due + s'.runs[key].margin <= s'.q.rows[key.0].leaseExpiresAt.value
      {
        CoveredKey(s, ev, key);
      }
    }
  }

  lemma CoveredKey(s: Timed, ev: TimedEvent, key: RunKey)
    requires Covered(s) && Timely(s, ev) && CanHappen(s, ev)
    requires var s' := TimedStep(s, ev); key in s'.runs && s'.runs[key].handling
    ensures var s' := TimedStep(s, ev);
            && Owned(s'.q.rows, key.0, key.1) && s'.q.rows[key.0].leaseExpiresAt.Some?
            && s'.now < s'.runs[key].due + s'.runs[key].margin <= s'.q.rows[key.0].leaseExpiresAt.value
  {
    match ev
    case QueueWrite(e) =>
      if e.Claim? && Enabled(s.q, e) { assert key.0 !in e.ids; }
    case _ =>
  }

  /** Under timely renewal no lease expires under a running handler, so no two handlers of one row overlap. */
  lemma {:induction false} TimelyLeasesExclude(s: Timed, es: seq<TimedEvent>)
    requires Covered(s) && TimelyRun(s, es)
    ensures Covered(RunTimed(s, es)) && !Overlap(RunTimed(s, es))
    decreases |es|
  {
    if es != [] {
      CoveredStep(s, es[0]);
      TimelyLeasesExclude(TimedStep(s, es[0]), es[1..]);
    }
  }

  // ----- a handler can run as long as it likes -----

  /** Each tick is served when it falls due. */
  function Renewals(key: RunKey, due: int, lease: int, every: int, n: nat): seq<TimedEvent>
    decreases n
  {
    if n == 0 then []
    else [Pass(due), RenewTick(key, due, lease, due + every)] + Renewals(key, due + every, lease, every, n - 1)
  }

  /** The only delivery, waiting for its next tick under a lease of its row. */
  ghost predicate Alone(s: Timed, key: RunKey, due: int, every: int, margin: int) {
    s.runs == map[key := Delivery(due, every, margin, true)] && Owned(s.q.rows, key.0, key.1) && s.now <= due
  }

  lemma OneRenewal(s: Timed, key: RunKey, due: int, lease: int, margin: int)
    requires Alone(s, key, due, lease - margin, margin) && 0 < margin < lease
    ensures var every := lease - margin;
            var s1 := TimedStep(s, Pass(due));
            var s2 := TimedStep(s1, RenewTick(key, due, lease, due + every));
      && Timely(s, Pass(due)) && Timely(s1, RenewTick(key, due, lease, due + every))
      && Alone(s2, key, due + every, every, margin) && s2.now == due
      && s2.q.rows[key.0].leaseExpiresAt == Some(due + lease)
  {
    var s1 := TimedStep(s, Pass(due));
    assert s1.runs[key := s1.runs[key].(due := due + (lease - margin))]
        == map[key := Delivery(due + (lease - margin), lease - margin, margin, true)];
  }

  lemma TwoFirst(s: Timed, a: TimedEvent, b: TimedEvent, rest: seq<TimedEvent>)
    ensures var s2 := TimedStep(TimedStep(s, a), b);
      && RunTimed(s, [a, b] + rest) == RunTimed(s2, rest)
      && (TimelyRun(s, [a, b] + rest) <==> Timely(s, a) && Timely(TimedStep(s, a), b) && TimelyRun(s2, rest))
  {
    assert ([a, b] + rest)[1..] == [b] + rest && ([b] + rest)[1..] == rest;
  }

  /** When the tick after `n` further ones falls due. */
  function DueAfter(due: int, every: int, n: nat): (t: int)
    ensures t == due + n * every
    decreases n
  {
    if n == 0 then due
    else
      assert due + every + (n - 1) * every == due + n * every;
      DueAfter(due + every, every, n - 1)
  }

  /** The last of `n` ticks was served when it fell due, and extended the lease by a whole one from then. */
  ghost predicate LastServed(s: Timed, key: RunKey, due: int, every: int, lease: int, n: nat) {
    n > 0 ==> s.now == DueAfter(due, every, n) - every
              && key.0 in s.q.rows && s.q.rows[key.0].leaseExpiresAt == Some(s.now + lease)
  }

  /** Punctual renewal is timely and carries a handler through any number of intervals: its row stays its own, with a
      lease that outlasts the last tick by a whole lease. */
  lemma {:induction false} RenewalCarriesOn(s: Timed, key: RunKey, due: int, lease: int, margin: int, n: nat)
    requires Alone(s, key, due, lease - margin, margin) && 0 < margin < lease
    ensures var every := lease - margin;
            var es := Renewals(key, due, lease, every, n);
            var s' := RunTimed(s, es);
      && TimelyRun(s, es) && Alone(s', key, DueAfter(due, every, n), every, margin)
      && LastServed(s', key, due, every, lease, n)
    decreases n
  {
    if n > 0 {
      var every := lease - margin;
      var a, b := Pass(due), RenewTick(key, due, lease, due + every);
      OneRenewal(s, key, due, lease, margin);
      var s2 := TimedStep(TimedStep(s, a), b);
      RenewalCarriesOn(s2, key, due + every, lease, margin, n - 1);
      TwoFirst(s, a, b, Renewals(key, due + every, lease, every, n - 1));
    }
  }

  // ----- the conditions are needed -----

  const FIRST := LeaseOwner("w", 0)
  const SECOND := LeaseOwner("w", 1)

  /** One pending row, due now. */
  function OneRow(): Timed {
    Timed(0, QueueStep(EmptyQueue(), Enqueue(7, 0, None)), map[])
  }

  /** Claimed at 0 and dispatched with the lease `confirmed`, a ticker built from `lease` and `margin`; then at
      `later` another claim takes the row and dispatches it too. */
  function TwoDispatches(confirmed: int, lease: int, margin: int, later: int): seq<TimedEvent> {
    [QueueWrite(Claim("w", {7}, 0, confirmed)),
     Dispatch((7, FIRST), 0, confirmed, lease, margin, lease - margin),
     Pass(later),
     QueueWrite(Claim("w", {7}, later, later + lease)),
     Dispatch((7, SECOND), later, confirmed, lease, margin, later + lease - margin)]
  }

  lemma RunTimedCons(s: Timed, ev: TimedEvent, rest: seq<TimedEvent>)
    ensures RunTimed(s, [ev] + rest) == RunTimed(TimedStep(s, ev), rest)
  {
    assert ([ev] + rest)[1..] == rest;
  }

  lemma TwoDispatchesOverlap(confirmed: int, lease: int, margin: int, later: int)
    requires 0 <= margin < lease && 0 <= confirmed <= later
    ensures var es := TwoDispatches(confirmed, lease, margin, later);
            && Overlap(RunTimed(OneRow(), es))
            && RunTimed(OneRow(), es[..2]).runs == map[(7, FIRST) := Delivery(lease - margin, lease - margin, margin, true)]
  {
    var es := TwoDispatches(confirmed, lease, margin, later);
    var s1 := TimedStep(OneRow(), es[0]);
    assert Owned(s1.q.rows, 7, FIRST);
    var s2 := TimedStep(s1, es[1]);
    var s3 := TimedStep(s2, es[2]);
    assert Claimable(s3.q.rows[7], later);
    var s4 := TimedStep(s3, es[3]);
    assert Owned(s4.q.rows, 7, SECOND);
    var s5 := TimedStep(s4, es[4]);
    assert (7, FIRST) in s5.runs && (7, SECOND) in s5.runs;
    assert es == [es[0]] + ([es[1]] + ([es[2]] + ([es[3]] + ([es[4]] + []))));
    RunTimedCons(OneRow(), es[0], [es[1]] + ([es[2]] + ([es[3]] + ([es[4]] + []))));
    RunTimedCons(s1, es[1], [es[2]] + ([es[3]] + ([es[4]] + [])));
    RunTimedCons(s2, es[2], [es[3]] + ([es[4]] + []));
    RunTimedCons(s3, es[3], [es[4]] + []);
    RunTimedCons(s4, es[4], []);
    assert es[..2] == [es[0]] + ([es[1]] + []);
    RunTimedCons(OneRow(), es[0], [es[1]] + []);
    RunTimedCons(s1, es[1], []);
  }

  /** A first renewal served exactly one margin late is already too late. */
  lemma FullMarginLateOverlaps(lease: int, margin: int)
    requires 0 < margin < lease
    ensures Overlap(RunTimed(OneRow(), TwoDispatches(lease, lease, margin, lease)))
  {
    TwoDispatchesOverlap(lease, lease, margin, lease);
  }

  // ----- exactly which leases exclude when no tick is late -----

  /** No tick is left unserved for a whole margin, and the configuration is one: every dispatch confirms a lease of
      `confirmed` and builds its ticker from `lease` and `margin`, every renewal grants `lease`. */
  predicate Punctual(s: Timed, ev: TimedEvent, confirmed: int, lease: int, margin: int) {
    match ev
    case Pass(to) => forall key :: key in s.runs && s.runs[key].handling ==> to < s.runs[key].due + s.runs[key].margin
    case Dispatch(_, _, c, l, m, due) => c == confirmed && l == lease && m == margin && s.now < due + m
    case RenewTick(_, _, l, _) => l == lease
    case _ => true
  }

  predicate PunctualRun(s: Timed, es: seq<TimedEvent>, confirmed: int, lease: int, margin: int)
    decreases |es|
  {
    es == [] ||
    (Punctual(s, es[0], confirmed, lease, margin)
     && PunctualRun(TimedStep(s, es[0]), es[1..], confirmed, lease, margin))
  }

  /** Every ticker was built from that lease and margin. */
  ghost predicate Configured(s: Timed, lease: int, margin: int) {
    forall key :: key in s.runs ==> s.runs[key].every == lease - margin && s.runs[key].margin == margin
  }

  lemma {:induction false} PunctualIsTimely(s: Timed, es: seq<TimedEvent>, confirmed: int, lease: int, margin: int)
    requires lease <= confirmed && Configured(s, lease, margin) && PunctualRun(s, es, confirmed, lease, margin)
    ensures TimelyRun(s, es)
    decreases |es|
  {
    if es != [] {
      PunctualIsTimely(TimedStep(s, es[0]), es[1..], confirmed, lease, margin);
    }
  }

  lemma EarlyClaimIsPunctual(confirmed: int, lease: int, margin: int)
    requires 0 <= margin < lease && 0 < confirmed < lease
    ensures PunctualRun(OneRow(), TwoDispatches(confirmed, lease, margin, confirmed), confirmed, lease, margin)
  {
    var es := TwoDispatches(confirmed, lease, margin, confirmed);
    var s1 := TimedStep(OneRow(), es[0]);
    assert Owned(s1.q.rows, 7, FIRST);
    var s2 := TimedStep(s1, es[1]);
    var s3 := TimedStep(s2, es[2]);
    var s4 := TimedStep(s3, es[3]);
    var s5 := TimedStep(s4, es[4]);
    assert es[1..][0] == es[1] && es[1..][1..] == es[2..] && es[2..][1..] == es[3..];
    assert es[3..][1..] == es[4..] && es[4..][1..] == [];
    assert PunctualRun(s5, [], confirmed, lease, margin);
    assert PunctualRun(s4, es[4..], confirmed, lease, margin);
    assert PunctualRun(s3, es[3..], confirmed, lease, margin);
    assert PunctualRun(s2, es[2..], confirmed, lease, margin);
    assert PunctualRun(s1, es[1..], confirmed, lease, margin);
  }

  /** A lease that grew between the dispatch confirmation and the creation of the ticker: another claim takes the row
      while no tick is late, the first one falling due too late for the confirmed lease. */
  lemma GrownLeaseOverlaps(confirmed: int, lease: int, margin: int)
    requires 0 <= margin < lease && 0 < confirmed < lease
    ensures var es := TwoDispatches(confirmed, lease, margin, confirmed);
            PunctualRun(OneRow(), es, confirmed, lease, margin) && Overlap(RunTimed(OneRow(), es))
  {
    EarlyClaimIsPunctual(confirmed, lease, margin);
    TwoDispatchesOverlap(confirmed, lease, margin, confirmed);
  }

  /** A run of that configuration, from a queue without deliveries, in which two handlers of a row overlap. */
  ghost predicate OverlappingRun(s: Timed, es: seq<TimedEvent>, confirmed: int, lease: int, margin: int) {
    s.runs == map[] && PunctualRun(s, es, confirmed, lease, margin) && Overlap(RunTimed(s, es))
  }

  /** With every tick served less than a margin late, all runs of a configuration exclude if and only if the lease
      confirmed at dispatch is at least the one the ticker is built from. */
  lemma PunctualLeasesExcludeExactly(confirmed: int, lease: int, margin: int)
    requires 0 <= margin < lease && 0 < confirmed
    ensures (forall s, es :: !OverlappingRun(s, es, confirmed, lease, margin)) <==> lease <= confirmed
  {
    if lease <= confirmed {
      forall s, es ensures !OverlappingRun(s, es, confirmed, lease, margin) {
        if s.runs == map[] && PunctualRun(s, es, confirmed, lease, margin) {
          PunctualIsTimely(s, es, confirmed, lease, margin);
          TimelyLeasesExclude(s, es);
        }
      }
    } else {
      GrownLeaseOverlaps(confirmed, lease, margin);
      assert OverlappingRun(OneRow(), TwoDispatches(confirmed, lease, margin, confirmed), confirmed, lease, margin);
    }
  }

  /** A delivery whose handler returned writes its outcome and is gone, and its row is free. */
  lemma OutcomeEndsDelivery(s: Timed, key: RunKey, o: Outcome)
    requires key in s.runs && Owned(s.q.rows, key.0, key.1)
    ensures var s' := TimedStep(TimedStep(s, HandlerReturns(key)), WriteOutcome(key, o));
      && key !in s'.runs && key.0 in s'.q.rows && s'.q.rows[key.0].state != Running
      && forall owner :: !Owned(s'.q.rows, key.0, owner)
    ensures key !in TimedStep(s, Crash({key})).runs && TimedStep(s, Crash({key})).q == s.q
  {
  }
}
