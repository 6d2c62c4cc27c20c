/** Periodic enqueueing: the truncated interval window in a job's idempotency key, and what ticks, restarts and
    interval changes make of it. */
module Scheduler {
  import opened Wrappers
  import opened Text

  const SECOND := 1_000_000_000
  /** Seconds from the zero time, to which truncation is relative, to the Unix epoch. */
  const EPOCH := 62_135_596_800
  const DEFAULT_INTERVAL := 15 * 60 * SECOND

  type SourceId = string
  /** Nanoseconds since the zero time. */
  type Instant = nat

  function Truncate(t: Instant, d: int): int {
    if d <= 0 then t else t - t % d
  }

  /** The number in the key: the truncated time in whole Unix seconds. */
  function Window(t: Instant, d: int): int {
    Truncate(t, d) / SECOND - EPOCH
  }

  predicate SameWindow(a: Instant, b: Instant, d: int)
    requires d > 0
  {
    a / d == b / d
  }

  /** The epoch is the first day of 1970 in the Gregorian calendar, counted from the first day of year 1. */
  lemma EpochIsUnix()
    ensures EPOCH == (1969 * 365 + 1969 / 4 - 1969 / 100 + 1969 / 400) * 24 * 60 * 60
  {
  }

  // ----- when two ticks share a key -----

  lemma TruncatesToMultiple(t: Instant, d: int)
    requires d > 0
    ensures Truncate(t, d) == (t / d) * d && Truncate(t, d) <= t < Truncate(t, d) + d
  {
  }

  /** The number in the key is the Unix time, in whole seconds, of the last multiple of the interval. */
  lemma WindowIsItsStart(t: Instant, d: int)
    requires d > 0
    ensures var start := (t / d) * d;
            start <= t < start + d && (Window(t, d) + EPOCH) * SECOND <= start < (Window(t, d) + EPOCH + 1) * SECOND
  {
    TruncatesToMultiple(t, d);
  }

  lemma LaterWindowLaterKey(a: Instant, b: Instant, d: int)
    requires d >= SECOND && a / d < b / d
    ensures Window(a, d) < Window(b, d)
  {
    TruncatesToMultiple(a, d);
    TruncatesToMultiple(b, d);
    var p, q := a / d, b / d;
    assert q * d >= (p + 1) * d by { MulGrows(p + 1, q, d); }
    assert (p + 1) * d == p * d + d;
    var x, y := p * d, q * d;
    assert y >= x + SECOND;
  }

  lemma MulGrows(p: nat, q: nat, d: int)
    requires p <= q && d > 0
    ensures p * d <= q * d
  {
  }

  lemma SharedKeyExactly(a: Instant, b: Instant, d: int)
    requires d >= SECOND
    ensures Window(a, d) == Window(b, d) <==> SameWindow(a, b, d)
  {
    if a / d < b / d { LaterWindowLaterKey(a, b, d); }
    if b / d < a / d { LaterWindowLaterKey(b, a, d); }
    if SameWindow(a, b, d) {
      TruncatesToMultiple(a, d);
      TruncatesToMultiple(b, d);
    }
  }

  /** Keys tell windows apart for all pairs of ticks exactly when the interval is at least one second: the key
      holds whole seconds, so two windows of a shorter interval can share one. */
  lemma KeysTellWindowsApartExactly(d: int)
    requires d > 0
    ensures (forall a: Instant, b: Instant :: Window(a, d) == Window(b, d) <==> SameWindow(a, b, d)) <==> d >= SECOND
  {
    if d >= SECOND {
      forall a: Instant, b: Instant ensures Window(a, d) == Window(b, d) <==> SameWindow(a, b, d) {
        SharedKeyExactly(a, b, d);
      }
    } else {
      assert 0 % d == 0 && d % d == 0 && d / d == 1 && 0 / d == 0;
      assert Window(0, d) == Window(d, d) && !SameWindow(0, d, d);
    }
  }

  /** Ticks at least one interval apart never share a key. */
  lemma TicksApartAreNotSuppressed(a: Instant, b: Instant, d: int)
    requires d >= SECOND && a + d <= b
    ensures Window(a, d) < Window(b, d)
  {
    TruncatesToMultiple(a, d);
    TruncatesToMultiple(b, d);
    if b / d <= a / d {
      MulGrows(b / d, a / d, d);
      assert false;
    }
    LaterWindowLaterKey(a, b, d);
  }

  // ----- the key as text -----

  function Signed(i: int): (text: string)
    ensures forall k :: 0 <= k < |text| ==> text[k] != ':'
  {
    if i < 0 then "-" + Decimal(-i) else Decimal(i)
  }

  lemma SignedInjective(i: int, j: int)
    requires Signed(i) == Signed(j)
    ensures i == j
  {
    assert i < 0 ==> Signed(i)[0] == '-' && Signed(i)[1..] == Decimal(-i);
    assert j < 0 ==> Signed(j)[0] == '-' && Signed(j)[1..] == Decimal(-j);
    if i < 0 { DecimalInjective(-i, -j); } else { DecimalInjective(i, j); }
  }

  function KeyText(jobType: string, source: SourceId, window: int): string {
    jobType + ":" + source + ":" + Signed(window)
  }

  lemma SuffixesAfterColon(s: string, m: string, t: string, n: string)
    requires s + ":" + m == t + ":" + n && |m| <= |n|
    requires forall i :: 0 <= i < |n| ==> n[i] != ':'
    ensures s == t && m == n
  {
    var whole := s + ":" + m;
    assert whole[|s|] == ':';
    assert forall i :: |t| < i < |whole| ==> (t + ":" + n)[i] == n[i - |t| - 1];
    assert |s| == |t|;
    assert whole[..|s|] == s && (t + ":" + n)[..|t|] == t;
    assert whole[|s| + 1..] == m && (t + ":" + n)[|t| + 1..] == n;
  }

  /** Different source or window, different text, whatever characters a source id holds. */
  lemma KeyTextInjective(jobType: string, s: SourceId, v: int, t: SourceId, w: int)
    requires KeyText(jobType, s, v) == KeyText(jobType, t, w)
    ensures s == t && v == w
  {
    var m, n := Signed(v), Signed(w);
    if |m| <= |n| {
      SuffixesAfterColon(jobType + ":" + s, m, jobType + ":" + t, n);
    } else {
      SuffixesAfterColon(jobType + ":" + t, n, jobType + ":" + s, m);
    }
    SignedInjective(v, w);
    assert (jobType + ":" + s)[|jobType| + 1..] == s && (jobType + ":" + t)[|jobType| + 1..] == t;
  }

  // ----- ticks -----

  datatype Job = Job(source: SourceId, window: int, runAt: Instant)

  /** The queue's unique idempotency key, in whatever state the earlier job is. */
  predicate KeyTaken(jobs: seq<Job>, source: SourceId, window: int) {
    exists i :: 0 <= i < |jobs| && jobs[i].source == source && jobs[i].window == window
  }

  /** One tick over the listed sources; enqueueing fails for the sources in `failing`. */
  function Enqueued(jobs: seq<Job>, sources: seq<SourceId>, window: int, at: Instant, failing: set<SourceId>): seq<Job>
    decreases |sources|
  {
    if sources == [] then jobs
    else
      var s := sources[0];
      var jobs' := if s in failing || KeyTaken(jobs, s, window) then jobs else jobs + [Job(s, window, at)];
      Enqueued(jobs', sources[1..], window, at, failing)
  }

  /** `listed` is None when the sources cannot be listed. */
  datatype Tick = Tick(at: Instant, listed: Option<seq<SourceId>>, failing: set<SourceId>)

  function Ticked(jobs: seq<Job>, t: Tick, d: int): seq<Job> {
    if t.listed.None? then jobs else Enqueued(jobs, t.listed.value, Window(t.at, d), t.at, t.failing)
  }

  class SourceScheduler {
    var interval: int
    var jobs: seq<Job>

    constructor (pollInterval: int)
      ensures interval > 0 && jobs == [] && interval == if pollInterval <= 0 then DEFAULT_INTERVAL else pollInterval
    {
      interval := if pollInterval <= 0 then DEFAULT_INTERVAL else pollInterval;
      jobs := [];
    }

    method ReloadInterval(next: int)
      modifies this
      ensures jobs == old(jobs) && interval == if next > 0 then next else old(interval)
    {
      if next > 0 && next != interval { interval := next; }
    }

    /** A failed reconciliation only leaves the listing as it was; a failed listing ends the tick. */
    method EnqueueTick(t: Tick)
      modifies this
      ensures interval == old(interval)
      ensures jobs == Ticked(old(jobs), t, interval)
    {
      if t.listed.None? { return; }
      var sources := t.listed.value;
      var window := Window(t.at, interval);
      for i := 0 to |sources|
        invariant interval == old(interval)
        invariant Enqueued(jobs, sources[i..], window, t.at, t.failing)
               == Enqueued(old(jobs), sources, window, t.at, t.failing)
      {
        assert sources[i..][1..] == sources[i + 1..];
        var s := sources[i];
        if s in t.failing || KeyTaken(jobs, s, window) { continue; }
        jobs := jobs + [Job(s, window, t.at)];
      }
    }
  }

  /** Ticks of one or several schedulers and their restarts, all at one interval. */
  function RunTicks(jobs: seq<Job>, ts: seq<Tick>, d: int): seq<Job>
    decreases |ts|
  {
    if ts == [] then jobs else RunTicks(Ticked(jobs, ts[0], d), ts[1..], d)
  }

  ghost predicate UniqueKeys(jobs: seq<Job>) {
    forall i, j :: 0 <= i < j < |jobs| ==> jobs[i].source != jobs[j].source || jobs[i].window != jobs[j].window
  }

  /** One tick adds a job for exactly the listed sources it can write that have none in this window. */
  lemma {:induction false} EnqueuedExactly(jobs: seq<Job>, sources: seq<SourceId>, window: int, at: Instant,
                                           failing: set<SourceId>)
    requires UniqueKeys(jobs)
    ensures var jobs' := Enqueued(jobs, sources, window, at, failing);
      && UniqueKeys(jobs') && jobs <= jobs'
      && (forall s, v :: KeyTaken(jobs', s, v) <==>
            KeyTaken(jobs, s, v) || (v == window && s in sources && s !in failing))
      && (forall i :: |jobs| <= i < |jobs'| ==> jobs'[i].runAt == at && jobs'[i].window == window)
    decreases |sources|
  {
    if sources != [] {
      var s := sources[0];
      if s in failing || KeyTaken(jobs, s, window) {
        EnqueuedExactly(jobs, sources[1..], window, at, failing);
      } else {
        var one := jobs + [Job(s, window, at)];
        TakenAfterAppend(jobs, Job(s, window, at));
        EnqueuedExactly(one, sources[1..], window, at, failing);
      }
      assert sources == [s] + sources[1..];
    }
  }

  lemma TakenAfterAppend(jobs: seq<Job>, job: Job)
    ensures forall s, v :: KeyTaken(jobs + [job], s, v) <==>
              KeyTaken(jobs, s, v) || (s == job.source && v == job.window)
  {
    forall s, v ensures KeyTaken(jobs + [job], s, v) <==>
              KeyTaken(jobs, s, v) || (s == job.source && v == job.window)
    {
      if KeyTaken(jobs, s, v) {
        var i :| 0 <= i < |jobs| && jobs[i].source == s && jobs[i].window == v;
        assert (jobs + [job])[i] == jobs[i];
      }
      assert (jobs + [job])[|jobs|] == job;
    }
  }

  predicate TickWrites(t: Tick, s: SourceId) {
    t.listed.Some? && s in t.listed.value && s !in t.failing
  }

  lemma {:induction false} RunTicksExactly(jobs: seq<Job>, ts: seq<Tick>, d: int, s: SourceId, v: int)
    requires UniqueKeys(jobs)
    ensures UniqueKeys(RunTicks(jobs, ts, d))
    ensures KeyTaken(RunTicks(jobs, ts, d), s, v) <==>
              (KeyTaken(jobs, s, v)
               || exists k :: 0 <= k < |ts| && TickWrites(ts[k], s) && Window(ts[k].at, d) == v)
    decreases |ts|
  {
    if ts != [] {
      if ts[0].listed.Some? {
        EnqueuedExactly(jobs, ts[0].listed.value, Window(ts[0].at, d), ts[0].at, ts[0].failing);
      }
      var one := Ticked(jobs, ts[0], d);
      RunTicksExactly(one, ts[1..], d, s, v);
      if exists k :: 0 <= k < |ts| && TickWrites(ts[k], s) && Window(ts[k].at, d) == v {
        var k :| 0 <= k < |ts| && TickWrites(ts[k], s) && Window(ts[k].at, d) == v;
        if k > 0 { assert ts[1..][k - 1] == ts[k]; }
      }
      if exists k :: 0 <= k < |ts[1..]| && TickWrites(ts[1..][k], s) && Window(ts[1..][k].at, d) == v {
        var k :| 0 <= k < |ts[1..]| && TickWrites(ts[1..][k], s) && Window(ts[1..][k].at, d) == v;
        assert ts[1..][k] == ts[k + 1];
      }
    }
  }

  /** Whatever ticks and restarts come at one interval of at least a second: no source gets two jobs for one
      window, and it has one exactly when some tick in that window listed it and could write. */
  lemma OneJobPerSourceAndWindow(ts: seq<Tick>, d: int, s: SourceId, at: Instant)
    requires d >= SECOND
    ensures UniqueKeys(RunTicks([], ts, d))
    ensures KeyTaken(RunTicks([], ts, d), s, Window(at, d)) <==>
              exists k :: 0 <= k < |ts| && TickWrites(ts[k], s) && SameWindow(ts[k].at, at, d)
  {
    RunTicksExactly([], ts, d, s, Window(at, d));
    forall k | 0 <= k < |ts| ensures Window(ts[k].at, d) == Window(at, d) <==> SameWindow(ts[k].at, at, d) {
      SharedKeyExactly(ts[k].at, at, d);
    }
  }

  // ----- changing the interval -----

  lemma SecondLater(x: int, y: int)
    requires x + SECOND <= y
    ensures x / SECOND < y / SECOND
  {
  }

  lemma SmallMod(t: nat, d: int)
    requires t < d
    ensures t % d == t
  {
  }

  /** A tick one old interval later keeps its own key when the new interval is shorter by a second or more, fractions
      of a second included. */
  lemma ShorterIntervalKeepsTicks(d1: int, d2: int, a: Instant, b: Instant)
    requires SECOND <= d2 && d2 + SECOND <= d1 && a + d1 <= b
    ensures Window(a, d1) < Window(b, d2)
  {
    TruncatesToMultiple(a, d1);
    TruncatesToMultiple(b, d2);
    SecondLater(Truncate(a, d1), Truncate(b, d2));
  }

  /** It can lose its key to the earlier tick whenever the new interval is longer. */
  lemma LongerIntervalSharesKey(d1: int, d2: int)
    requires SECOND <= d1 < d2
    ensures Window(d1, d2) == Window(0, d1)
  {
    SmallMod(d1, d2);
    SmallMod(0, d1);
  }

  /** Between whole-second intervals no tick one old interval after another is suppressed if and only if the new
      interval is not longer. */
  lemma NoTickSuppressedExactly(q1: int, q2: int)
    requires q1 >= 1 && q2 >= 1
    ensures (forall a: Instant, b: Instant :: a + q1 * SECOND <= b ==>
               Window(b, q2 * SECOND) != Window(a, q1 * SECOND)) <==> q2 <= q1
  {
    var d1, d2 := q1 * SECOND, q2 * SECOND;
    if q2 > q1 {
      LongerIntervalSharesKey(d1, d2);
      var a: Instant, b: Instant := 0, d1;
      assert a + d1 <= b && Window(b, d2) == Window(a, d1);
    } else {
      forall a: Instant, b: Instant | a + d1 <= b ensures Window(b, d2) != Window(a, d1) {
        if q2 < q1 { ShorterIntervalKeepsTicks(d1, d2, a, b); } else { TicksApartAreNotSuppressed(a, b, d1); }
      }
    }
  }

  lemma OneSource(s: SourceId, window: int, at: Instant)
    ensures Enqueued([], [s], window, at, {}) == [Job(s, window, at)]
  {
    assert [s][1..] == [] && !KeyTaken([], s, window);
    assert [] + [Job(s, window, at)] == [Job(s, window, at)];
  }

  lemma KnownKeyAddsNothing(jobs: seq<Job>, s: SourceId, window: int, at: Instant)
    requires KeyTaken(jobs, s, window)
    ensures Enqueued(jobs, [s], window, at, {}) == jobs
  {
    assert [s][1..] == [];
  }

  /** On the table: the first tick after the interval grows adds nothing when it repeats the last tick's key. */
  lemma LongerIntervalSuppressesATick(q1: int, q2: int, s: SourceId)
    requires 1 <= q1 < q2
    ensures var d1, d2 := q1 * SECOND, q2 * SECOND;
            var jobs := Ticked([], Tick(0, Some([s]), {}), d1);
            jobs == [Job(s, Window(0, d1), 0)] && Ticked(jobs, Tick(d1, Some([s]), {}), d2) == jobs
  {
    var d1, d2 := q1 * SECOND, q2 * SECOND;
    var job := Job(s, Window(0, d1), 0);
    OneSource(s, Window(0, d1), 0);
    LongerIntervalSharesKey(d1, d2);
    assert [job][0] == job;
    KnownKeyAddsNothing([job], s, Window(d1, d2), d1);
  }
}
