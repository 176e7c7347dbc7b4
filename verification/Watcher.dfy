/**
 The relay watcher: one ticker checks the idle timeout, the duration cap and the throughput
 floor. Time is in nanoseconds since the relay started, and ticks come exactly on time.
 */
module Watcher {
  import opened Ordering
  import opened ServerConfig

  datatype Limits = Limits(idle: int, maxDuration: int, minBytes: int, window: int, grace: int)

  /** One read of either copy loop that returned `bytes` bytes. */
  datatype Read = Read(time: int, bytes: nat)

  datatype Reason = Idle | Duration | Floor
  datatype Stop = Stop(time: int, reason: Reason)

  predicate FloorOn(l: Limits) {
    l.minBytes > 0 && l.window > 0
  }

  // ---------------------------------------------------------------- what the copy loops record

  /** The time of the latest read by `t` that returned data; the start when there is none. */
  function LastActivity(log: seq<Read>, t: int): int {
    if log == [] then 0
    else
      var before, r := LastActivity(log[..|log| - 1], t), log[|log| - 1];
      if r.bytes > 0 && before < r.time <= t then r.time else before
  }

  /** Bytes moved by `t`. */
  function Moved(log: seq<Read>, t: int): nat {
    if log == [] then 0
    else
      var r := log[|log| - 1];
      Moved(log[..|log| - 1], t) + if r.time <= t then r.bytes else 0
  }

  lemma {:induction false} MovedGrows(log: seq<Read>, s: int, t: int)
    requires s <= t
    ensures Moved(log, s) <= Moved(log, t)
  {
    if log == [] {
    } else {
      MovedGrows(log[..|log| - 1], s, t);
    }
  }

  lemma {:induction false} ActivityIsPast(log: seq<Read>, t: int)
    requires t >= 0
    ensures 0 <= LastActivity(log, t) <= t
  {
    if log == [] {
    } else {
      ActivityIsPast(log[..|log| - 1], t);
    }
  }

  /** Looking later, the last activity is the same or falls in between. */
  lemma {:induction false} ActivityMoves(log: seq<Read>, s: int, t: int)
    requires 0 <= s <= t
    ensures LastActivity(log, t) == LastActivity(log, s) || LastActivity(log, t) > s
  {
    if log == [] {
    } else {
      ActivityMoves(log[..|log| - 1], s, t);
      ActivityIsPast(log[..|log| - 1], s);
    }
  }

  // ---------------------------------------------------------------- the wakeup interval

  function Bump(interval: int, d: int): int {
    if d <= 0 then interval else if interval == 0 || d < interval then d else interval
  }

  function Interval(l: Limits): (r: int)
    ensures r >= SECOND
  {
    var a := if l.idle > 0 then Bump(0, l.idle / 4) else 0;
    var b := if l.maxDuration > 0 then Bump(a, l.maxDuration / 4) else a;
    var c := if FloorOn(l) then Bump(b, l.window / 4) else b;
    if c < SECOND then SECOND else c
  }

  predicate Enabled(l: Limits) {
    l.idle > 0 || l.maxDuration > 0 || FloorOn(l)
  }

  /** The predicate holds of every enabled limit. */
  ghost predicate OfAll(l: Limits, p: int -> bool) {
    && (l.idle > 0 ==> p(l.idle))
    && (l.maxDuration > 0 ==> p(l.maxDuration))
    && (FloorOn(l) ==> p(l.window))
  }

  /** The interval is within a quarter of every enabled limit exactly when all of them are at
      least four seconds. */
  lemma IntervalIsQuarter(l: Limits)
    ensures OfAll(l, x => 4 * Interval(l) <= x) <==> OfAll(l, x => x >= 4 * SECOND)
  {
  }

  /** `x` is one of the enabled limits. */
  predicate IsLimit(l: Limits, x: int) {
    (l.idle > 0 && x == l.idle) || (l.maxDuration > 0 && x == l.maxDuration) || (FloorOn(l) && x == l.window)
  }

  /** The interval is a quarter of the shortest enabled limit, and a second if that is longer;
      a limit below four nanoseconds, which has no quarter, is passed over. */
  lemma IntervalIs(l: Limits)
    ensures (exists x :: IsLimit(l, x) && x >= 4) ==> exists x :: IsLimit(l, x) && x >= 4 && Interval(l) == Max(SECOND, x / 4)
    ensures forall x :: IsLimit(l, x) && x >= 4 ==> Interval(l) <= Max(SECOND, x / 4)
    ensures (forall x :: IsLimit(l, x) ==> x < 4) ==> Interval(l) == SECOND
  {
    assert l.idle > 0 ==> IsLimit(l, l.idle);
    assert l.maxDuration > 0 ==> IsLimit(l, l.maxDuration);
    assert FloorOn(l) ==> IsLimit(l, l.window);
  }

  function TickTime(interval: int, k: nat): int {
    if k == 0 then 0 else TickTime(interval, k - 1) + interval
  }

  lemma {:induction false} TicksAscend(interval: int, j: nat, k: nat)
    requires j <= k && interval >= 0
    ensures TickTime(interval, j) <= TickTime(interval, k)
    decreases k
  {
    if j == k {
    } else {
      TicksAscend(interval, j, k - 1);
    }
  }

  // ---------------------------------------------------------------- the watcher's state

  /** The last throughput sample, and how the watcher ended if it did. */
  datatype Watch = Watch(sampleTime: int, sampleBytes: int, stop: Option<Stop>)

  predicate IdleDue(l: Limits, log: seq<Read>, t: int) {
    l.idle > 0 && t - LastActivity(log, t) >= l.idle
  }

  predicate DurationDue(l: Limits, t: int) {
    l.maxDuration > 0 && t >= l.maxDuration
  }

  predicate SampleDue(l: Limits, w: Watch, t: int) {
    FloorOn(l) && t >= l.grace && t - w.sampleTime >= l.window
  }

  function Tick(l: Limits, log: seq<Read>, w: Watch, t: int): Watch {
    if IdleDue(l, log, t) then w.(stop := Some(Stop(t, Idle)))
    else if DurationDue(l, t) then w.(stop := Some(Stop(t, Duration)))
    else if SampleDue(l, w, t) then
      if Moved(log, t) - w.sampleBytes < l.minBytes then w.(stop := Some(Stop(t, Floor)))
      else Watch(t, Moved(log, t), None)
    else w
  }

  /** The state after `k` ticks. */
  function After(l: Limits, log: seq<Read>, k: nat): Watch {
    if k == 0 then Watch(0, 0, None)
    else
      var w := After(l, log, k - 1);
      if w.stop.Some? then w else Tick(l, log, w, TickTime(Interval(l), k))
  }

  predicate Open(l: Limits, log: seq<Read>, k: nat) {
    After(l, log, k).stop.None?
  }

  lemma {:induction false} DisabledStaysOpen(l: Limits, log: seq<Read>, n: nat)
    requires !Enabled(l)
    ensures Open(l, log, n)
  {
    if n == 0 {
    } else {
      DisabledStaysOpen(l, log, n - 1);
    }
  }

  lemma {:induction false} StoppedStays(l: Limits, log: seq<Read>, j: nat, k: nat)
    requires j <= k && !Open(l, log, j)
    ensures After(l, log, k) == After(l, log, j)
    decreases k
  {
    if j == k {
    } else {
      StoppedStays(l, log, j, k - 1);
    }
  }

  /** The watcher, for a relay whose copy loops stay open for `n` ticks. */
  method WatchRelay(l: Limits, log: seq<Read>, n: nat) returns (stop: Option<Stop>)
    ensures stop == After(l, log, n).stop
  {
    if !Enabled(l) {
      DisabledStaysOpen(l, log, n);
      return None;
    }
    var interval := Interval(l);
    var lastSampleTime, lastSampleBytes := 0, 0;
    var now := 0;
    for k := 0 to n
      invariant now == TickTime(interval, k)
      invariant After(l, log, k) == Watch(lastSampleTime, lastSampleBytes, None)
    {
      now := now + interval;
      if l.idle > 0 {
        var last := LastActivity(log, now);
        if now - last >= l.idle {
          StoppedStays(l, log, k + 1, n);
          return Some(Stop(now, Idle));
        }
      }
      if l.maxDuration > 0 && now >= l.maxDuration {
        StoppedStays(l, log, k + 1, n);
        return Some(Stop(now, Duration));
      }
      if FloorOn(l) && now >= l.grace && now - lastSampleTime >= l.window {
        var curBytes := Moved(log, now);
        if curBytes - lastSampleBytes < l.minBytes {
          StoppedStays(l, log, k + 1, n);
          return Some(Stop(now, Floor));
        }
        lastSampleTime, lastSampleBytes := now, curBytes;
      }
    }
    return None;
  }

  // ---------------------------------------------------------------- idle timeout and duration cap

  /** The watcher stops at its `k`-th tick for the given reason. */
  ghost predicate StopsAt(l: Limits, log: seq<Read>, k: nat, reason: Reason) {
    k > 0 && Open(l, log, k - 1) && After(l, log, k).stop == Some(Stop(TickTime(Interval(l), k), reason))
  }

  /** At an open tick, and at the start, nothing is due. */
  lemma OpenIsNotDue(l: Limits, log: seq<Read>, k: nat)
    requires Open(l, log, k)
    ensures !IdleDue(l, log, TickTime(Interval(l), k)) && !DurationDue(l, TickTime(Interval(l), k))
  {
    if k == 0 { ActivityIsPast(log, 0); }
  }

  /** Between ticks nothing is overdue by an interval or more. */
  lemma OpenMeansTimely(l: Limits, log: seq<Read>, k: nat, t: int)
    requires Open(l, log, k) && TickTime(Interval(l), k) <= t <= TickTime(Interval(l), k + 1)
    ensures l.idle > 0 ==> t - LastActivity(log, t) < l.idle + Interval(l)
    ensures l.maxDuration > 0 ==> t < l.maxDuration + Interval(l)
  {
    var s := TickTime(Interval(l), k);
    TicksAscend(Interval(l), 0, k);
    OpenIsNotDue(l, log, k);
    ActivityMoves(log, s, t);
  }

  /** An idle termination comes no earlier than the idle timeout after the last activity, and
      less than an interval later. */
  lemma IdleStopIsTimely(l: Limits, log: seq<Read>, k: nat)
    requires StopsAt(l, log, k, Idle)
    ensures var t := TickTime(Interval(l), k);
      l.idle <= t - LastActivity(log, t) < l.idle + Interval(l)
  {
    OpenMeansTimely(l, log, k - 1, TickTime(Interval(l), k));
  }

  /** Likewise for the duration cap, measured from the start. */
  lemma DurationStopIsTimely(l: Limits, log: seq<Read>, k: nat)
    requires StopsAt(l, log, k, Duration)
    ensures l.maxDuration <= TickTime(Interval(l), k) < l.maxDuration + Interval(l)
  {
    OpenMeansTimely(l, log, k - 1, TickTime(Interval(l), k));
  }

  /** With every enabled limit at least four seconds, at most a quarter is added. */
  lemma LatencyIsAtMostAQuarter(l: Limits, log: seq<Read>, k: nat, t: int)
    requires OfAll(l, x => x >= 4 * SECOND)
    requires Open(l, log, k) && TickTime(Interval(l), k) <= t <= TickTime(Interval(l), k + 1)
    ensures l.idle > 0 ==> 4 * (t - LastActivity(log, t)) < 5 * l.idle
    ensures l.maxDuration > 0 ==> 4 * t < 5 * l.maxDuration
  {
    IntervalIsQuarter(l);
    OpenMeansTimely(l, log, k, t);
  }

  // ---------------------------------------------------------------- when samples are due

  /** The first tick at or after `x`. */
  function TicksFor(interval: int, x: int): (k: nat)
    requires interval > 0
    ensures k > 0 && TickTime(interval, k) >= x && (k > 1 ==> TickTime(interval, k - 1) < x)
    decreases x
  {
    if x <= interval then assert TickTime(interval, 1) == interval; 1
    else
      var k := TicksFor(interval, x - interval);
      k + 1
  }

  lemma TicksForIff(interval: int, x: int, k: nat)
    requires interval > 0 && k > 0
    ensures TickTime(interval, k) >= x <==> k >= TicksFor(interval, x)
  {
    var n := TicksFor(interval, x);
    if k >= n { TicksAscend(interval, n, k); } else { TicksAscend(interval, k, n - 1); }
  }

  lemma {:induction false} TicksAdd(interval: int, j: nat, k: nat)
    ensures TickTime(interval, j + k) == TickTime(interval, j) + TickTime(interval, k)
  {
    if k == 0 {
    } else {
      TicksAdd(interval, j, k - 1);
    }
  }

  /** The tick of the first sample. */
  function First(l: Limits): nat { TicksFor(Interval(l), Max(l.grace, l.window)) }

  /** Ticks from one sample to the next, and the time that takes. */
  function Stride(l: Limits): nat { TicksFor(Interval(l), l.window) }

  function Span(l: Limits): int { TickTime(Interval(l), Stride(l)) }

  /** The window, rounded up to whole intervals. */
  lemma SpanIsWindowRoundedUp(l: Limits)
    requires FloorOn(l)
    ensures l.window <= Span(l) < l.window + Interval(l) && Span(l) >= Interval(l)
  {
    TicksAscend(Interval(l), 1, Stride(l));
    assert TickTime(Interval(l), 1) == TickTime(Interval(l), 0) + Interval(l);
  }

  /** With the last sample at tick `j` (0 for none), the tick of the next. */
  function NextDue(l: Limits, j: nat): nat { if j == 0 then First(l) else j + Stride(l) }

  lemma DueIff(l: Limits, w: Watch, j: nat, k: nat)
    requires FloorOn(l) && j < k && w.sampleTime == TickTime(Interval(l), j)
    requires j > 0 ==> TickTime(Interval(l), j) >= l.grace
    ensures SampleDue(l, w, TickTime(Interval(l), k)) <==> k >= NextDue(l, j)
  {
    var interval := Interval(l);
    if j == 0 {
      TicksForIff(interval, Max(l.grace, l.window), k);
    } else {
      TicksAdd(interval, j, k - j);
      TicksAscend(interval, 0, k - j);
      TicksForIff(interval, l.window, k - j);
    }
  }

  // ---------------------------------------------------------------- throughput floor

  /** The ticks, among the first `k`, at which a sample was taken and passed. */
  function Checkpoints(l: Limits, log: seq<Read>, k: nat): seq<nat> {
    if k == 0 then []
    else
      var t, w := TickTime(Interval(l), k), After(l, log, k - 1);
      if Open(l, log, k) && SampleDue(l, w, t) then Checkpoints(l, log, k - 1) + [k] else Checkpoints(l, log, k - 1)
  }

  function Latest(cs: seq<nat>): nat { if cs == [] then 0 else cs[|cs| - 1] }

  function Previous(cs: seq<nat>, i: nat): nat
    requires i < |cs|
  {
    if i == 0 then 0 else cs[i - 1]
  }

  /** Bytes moved by a checkpoint; nothing counts as moved before the first. */
  function MovedBy(l: Limits, log: seq<Read>, j: nat): nat {
    if j == 0 then 0 else Moved(log, TickTime(Interval(l), j))
  }

  ghost predicate PassedAt(l: Limits, log: seq<Read>, cs: seq<nat>, i: nat)
    requires i < |cs|
  {
    && cs[i] == NextDue(l, Previous(cs, i))
    && MovedBy(l, log, cs[i]) - MovedBy(l, log, Previous(cs, i)) >= l.minBytes
  }

  /** Every checkpoint was taken when it was due, and the floor's bytes moved since the one
      before. */
  ghost predicate Passed(l: Limits, log: seq<Read>, cs: seq<nat>) {
    forall i :: 0 <= i < |cs| ==> PassedAt(l, log, cs, i)
  }

  /** The watcher's sample is its latest checkpoint, and no sample is overdue. */
  ghost predicate Sampled(l: Limits, log: seq<Read>, w: Watch, cs: seq<nat>, k: nat) {
    var j := Latest(cs);
    && w.sampleTime == TickTime(Interval(l), j) && w.sampleBytes == MovedBy(l, log, j)
    && (cs != [] ==> j > 0 && w.sampleTime >= l.grace)
    && j <= k < NextDue(l, j)
  }

  lemma SampleKeeps(l: Limits, log: seq<Read>, w: Watch, cs: seq<nat>, k: nat, cs': seq<nat>)
    requires FloorOn(l) && w.stop.None? && Sampled(l, log, w, cs, k) && Passed(l, log, cs)
    requires Tick(l, log, w, TickTime(Interval(l), k + 1)).stop.None?
    requires cs' == if SampleDue(l, w, TickTime(Interval(l), k + 1)) then cs + [k + 1] else cs
    ensures Sampled(l, log, Tick(l, log, w, TickTime(Interval(l), k + 1)), cs', k + 1) && Passed(l, log, cs')
  {
    DueIff(l, w, Latest(cs), k + 1);
    if SampleDue(l, w, TickTime(Interval(l), k + 1)) {
      assert Previous(cs', |cs|) == Latest(cs);
      assert PassedAt(l, log, cs', |cs|);
      forall i | 0 <= i < |cs| ensures PassedAt(l, log, cs', i) {
        assert PassedAt(l, log, cs, i);
      }
    }
  }

  /** As long as a relay survives, its samples are taken when due and passed. */
  lemma {:induction false} CheckpointsKept(l: Limits, log: seq<Read>, k: nat)
    requires FloorOn(l) && Open(l, log, k)
    ensures Sampled(l, log, After(l, log, k), Checkpoints(l, log, k), k) && Passed(l, log, Checkpoints(l, log, k))
  {
    if k == 0 {
    } else {
      CheckpointsKept(l, log, k - 1);
      SampleKeeps(l, log, After(l, log, k - 1), Checkpoints(l, log, k - 1), k - 1, Checkpoints(l, log, k));
    }
  }

  lemma {:induction false} PassedAddsUp(l: Limits, log: seq<Read>, cs: seq<nat>, i: nat)
    requires Passed(l, log, cs) && i < |cs|
    ensures MovedBy(l, log, cs[i]) >= (i + 1) * l.minBytes
  {
    assert PassedAt(l, log, cs, i);
    if i == 0 {
    } else {
      PassedAddsUp(l, log, cs, i - 1);
      assert (i + 1) * l.minBytes == i * l.minBytes + l.minBytes;
    }
  }

  /** A relay that survived `n` checkpoints has moved at least `n` times the floor. */
  lemma SurvivorsMoved(l: Limits, log: seq<Read>, k: nat)
    requires FloorOn(l) && Open(l, log, k)
    ensures Moved(log, TickTime(Interval(l), k)) >= |Checkpoints(l, log, k)| * l.minBytes
  {
    var cs := Checkpoints(l, log, k);
    CheckpointsKept(l, log, k);
    if cs != [] {
      PassedAddsUp(l, log, cs, |cs| - 1);
      TicksAscend(Interval(l), Latest(cs), k);
      MovedGrows(log, TickTime(Interval(l), Latest(cs)), TickTime(Interval(l), k));
    }
  }

  /** After the first, checkpoints are at least a window apart, and less than an interval more. */
  lemma CheckpointSpacing(l: Limits, log: seq<Read>, k: nat, i: nat)
    requires FloorOn(l) && Open(l, log, k) && 0 < i < |Checkpoints(l, log, k)|
    ensures var cs, interval := Checkpoints(l, log, k), Interval(l);
      l.window <= TickTime(interval, cs[i]) - TickTime(interval, cs[i - 1]) < l.window + interval
  {
    var cs := Checkpoints(l, log, k);
    CheckpointsKept(l, log, k);
    assert PassedAt(l, log, cs, i) && PassedAt(l, log, cs, i - 1);
    TicksAdd(Interval(l), cs[i - 1], Stride(l));
    SpanIsWindowRoundedUp(l);
  }

  /** A floor termination means fewer than the floor's bytes over a span of at least a window,
      after the grace period; after the first checkpoint the span is less an interval longer. */
  lemma FloorStopMeansSlow(l: Limits, log: seq<Read>, k: nat)
    requires StopsAt(l, log, k, Floor)
    ensures var t, s, j := TickTime(Interval(l), k), After(l, log, k).sampleTime, Latest(Checkpoints(l, log, k - 1));
      && FloorOn(l) && t >= l.grace && t - s >= l.window && Moved(log, t) - Moved(log, s) < l.minBytes
      && s == TickTime(Interval(l), j) && (j > 0 ==> t - s < l.window + Interval(l))
  {
    CheckpointsKept(l, log, k - 1);
    var j := Latest(Checkpoints(l, log, k - 1));
    DueIff(l, After(l, log, k - 1), j, k);
    TicksAdd(Interval(l), j, Stride(l));
    SpanIsWindowRoundedUp(l);
  }
}
