/**
 What the throughput floor guarantees. It is documented as a sliding window and sampled at
 ticks. For every setting of the limits, and from every moment on, the last instant is found
 at which a relay can still be open that has moved less than the floor since; the shortest
 span over which the floor is guaranteed follows.
 */
module FloorGuarantee {
  import opened Ordering
  import opened Watcher

  // ---------------------------------------------------------------- the end of a lull

  /** The first sample tick at or after time `a`, from sample tick `k` on. */
  function SampleFrom(l: Limits, k: nat, a: int): (c: nat)
    requires FloorOn(l)
    ensures c >= k && TickTime(Interval(l), c) >= a
    decreases a - TickTime(Interval(l), k)
  {
    if TickTime(Interval(l), k) >= a then k
    else
      TicksAdd(Interval(l), k, Stride(l));
      SpanIsWindowRoundedUp(l);
      SampleFrom(l, k + Stride(l), a)
  }

  /** The tick of the second sample at or after time `a`. */
  function SecondSample(l: Limits, a: int): nat
    requires FloorOn(l)
  {
    SampleFrom(l, First(l), a) + Stride(l)
  }

  /** Ticks an idle relay survives, rounded up. */
  function IdleTicks(l: Limits): nat { TicksFor(Interval(l), l.idle) }

  /** `j` idle timeouts, in whole ticks, after tick `n`. */
  function Beat(l: Limits, n: nat, j: nat): (k: nat)
    ensures k >= n
  {
    if j == 0 then n else Beat(l, n, j - 1) + IdleTicks(l)
  }

  /** The tick at which the idle timeout has forced the floor's bytes, one at a time, since `a`. */
  function IdleForces(l: Limits, a: int): nat
    requires FloorOn(l)
  {
    Beat(l, TicksFor(Interval(l), a + l.idle), l.minBytes - 1)
  }

  /** The tick at which the duration cap closes every relay. */
  function CapTick(l: Limits): nat { TicksFor(Interval(l), l.maxDuration) }

  /** The tick that ends every lull since `a`: a relay open then has moved the floor's bytes. */
  function LullEnd(l: Limits, a: int): (q: nat)
    requires FloorOn(l)
    ensures q > 0
  {
    var s := SecondSample(l, a);
    var i := if l.idle > 0 && IdleForces(l, a) < s then IdleForces(l, a) else s;
    if l.maxDuration > 0 && CapTick(l) < i then CapTick(l) else i
  }

  /** How long a lull that starts at `a` can last. */
  function Lull(l: Limits, a: int): int
    requires FloorOn(l)
  {
    TickTime(Interval(l), LullEnd(l, a)) - a
  }

  /** Some relay is open at `b` and has moved less than the floor since `a`. */
  ghost predicate CanLull(l: Limits, a: int, b: int) {
    exists log, k: nat :: Open(l, log, k) && b < TickTime(Interval(l), k + 1) && Moved(log, b) - Moved(log, a) < l.minBytes
  }

  // ---------------------------------------------------------------- no lull outlasts its end

  lemma {:induction false} OpenBefore(l: Limits, log: seq<Read>, j: nat, k: nat)
    requires j <= k && Open(l, log, k)
    ensures Open(l, log, j)
  {
    if !Open(l, log, j) { StoppedStays(l, log, j, k); }
  }

  lemma CapCloses(l: Limits, log: seq<Read>, k: nat)
    requires l.maxDuration > 0 && Open(l, log, k)
    ensures k < CapTick(l)
  {
    OpenIsNotDue(l, log, k);
    if k > 0 { TicksForIff(Interval(l), l.maxDuration, k); }
  }

  /** The watcher's state right after the sample of tick `j` (0 for none yet). */
  ghost predicate SampledAt(l: Limits, log: seq<Read>, j: nat) {
    && After(l, log, j) == Watch(TickTime(Interval(l), j), MovedBy(l, log, j), None)
    && (j > 0 ==> TickTime(Interval(l), j) >= l.grace)
  }

  /** Until the next sample is due, the state of an open relay stays put. */
  lemma {:induction false} Waits(l: Limits, log: seq<Read>, j: nat, k: nat)
    requires FloorOn(l) && SampledAt(l, log, j) && j <= k < NextDue(l, j) && Open(l, log, k)
    ensures After(l, log, k) == After(l, log, j)
    decreases k
  {
    if j == k {
    } else {
      OpenBefore(l, log, k - 1, k);
      Waits(l, log, j, k - 1);
      DueIff(l, After(l, log, j), j, k);
    }
  }

  /** An open relay passed its next sample. */
  lemma NextSample(l: Limits, log: seq<Read>, j: nat)
    requires FloorOn(l) && SampledAt(l, log, j) && j < NextDue(l, j) && Open(l, log, NextDue(l, j))
    ensures SampledAt(l, log, NextDue(l, j))
    ensures MovedBy(l, log, NextDue(l, j)) - MovedBy(l, log, j) >= l.minBytes
  {
    var k := NextDue(l, j);
    OpenBefore(l, log, k - 1, k);
    Waits(l, log, j, k - 1);
    DueIff(l, After(l, log, j), j, k);
  }

  /** Two samples at or after `a` feed the relay. */
  lemma {:induction false} SamplesFeed(l: Limits, log: seq<Read>, j: nat, a: int)
    requires FloorOn(l) && j > 0 && SampledAt(l, log, j)
    requires Open(l, log, SampleFrom(l, j, a) + Stride(l))
    ensures Moved(log, TickTime(Interval(l), SampleFrom(l, j, a) + Stride(l))) - Moved(log, a) >= l.minBytes
    decreases a - TickTime(Interval(l), j)
  {
    TicksAdd(Interval(l), j, Stride(l));
    SpanIsWindowRoundedUp(l);
    OpenBefore(l, log, j + Stride(l), SampleFrom(l, j, a) + Stride(l));
    NextSample(l, log, j);
    if TickTime(Interval(l), j) >= a {
      MovedGrows(log, a, TickTime(Interval(l), j));
    } else {
      SamplesFeed(l, log, j + Stride(l), a);
    }
  }

  lemma SecondSampleFeeds(l: Limits, log: seq<Read>, a: int)
    requires FloorOn(l) && Open(l, log, SecondSample(l, a))
    ensures Moved(log, TickTime(Interval(l), SecondSample(l, a))) - Moved(log, a) >= l.minBytes
  {
    OpenBefore(l, log, First(l), SecondSample(l, a));
    NextSample(l, log, 0);
    SamplesFeed(l, log, First(l), a);
  }

  /** Activity since `s` means a byte since `s`. */
  lemma {:induction false} ActivityMovesBytes(log: seq<Read>, s: int, t: int)
    requires 0 <= s <= t && LastActivity(log, t) > s
    ensures Moved(log, t) >= Moved(log, s) + 1
  {
    var front, r := log[..|log| - 1], log[|log| - 1];
    MovedGrows(front, s, t);
    if LastActivity(front, t) > s { ActivityMovesBytes(front, s, t); }
  }

  /** An idle timeout that is not due at an open tick means a byte within it. */
  lemma TimeoutFeeds(l: Limits, log: seq<Read>, s: int, k: nat)
    requires l.idle > 0 && 0 <= s && s + l.idle <= TickTime(Interval(l), k) && Open(l, log, k)
    ensures Moved(log, TickTime(Interval(l), k)) >= Moved(log, s) + 1
  {
    OpenIsNotDue(l, log, k);
    ActivityMovesBytes(log, s, TickTime(Interval(l), k));
  }

  /** The idle timeout forces one byte per timeout, in whole ticks. */
  lemma {:induction false} IdleFeeds(l: Limits, log: seq<Read>, a: int, n: nat, j: nat)
    requires l.idle > 0 && a >= 0 && a + l.idle <= TickTime(Interval(l), n) && Open(l, log, Beat(l, n, j))
    ensures Moved(log, TickTime(Interval(l), Beat(l, n, j))) - Moved(log, a) >= j + 1
  {
    if j == 0 {
      TimeoutFeeds(l, log, a, n);
    } else {
      var before := Beat(l, n, j - 1);
      OpenBefore(l, log, before, Beat(l, n, j));
      IdleFeeds(l, log, a, n, j - 1);
      TicksAdd(Interval(l), before, IdleTicks(l));
      TicksAscend(Interval(l), 0, before);
      TimeoutFeeds(l, log, TickTime(Interval(l), before), Beat(l, n, j));
    }
  }

  lemma LullEndFeeds(l: Limits, log: seq<Read>, k: nat, a: int)
    requires FloorOn(l) && a > 0 && Open(l, log, k) && LullEnd(l, a) <= k
    ensures Moved(log, TickTime(Interval(l), LullEnd(l, a))) - Moved(log, a) >= l.minBytes
  {
    if l.maxDuration > 0 { CapCloses(l, log, k); }
    OpenBefore(l, log, LullEnd(l, a), k);
    if LullEnd(l, a) == SecondSample(l, a) {
      SecondSampleFeeds(l, log, a);
    } else {
      IdleFeeds(l, log, a, TicksFor(Interval(l), a + l.idle), l.minBytes - 1);
    }
  }

  /** A relay open at or past the end of every lull since `a` has moved the floor's bytes. */
  lemma NoLongerLull(l: Limits, log: seq<Read>, k: nat, a: int, b: int)
    requires FloorOn(l) && a > 0 && Open(l, log, k) && TickTime(Interval(l), LullEnd(l, a)) <= b < TickTime(Interval(l), k + 1)
    ensures Moved(log, b) - Moved(log, a) >= l.minBytes
  {
    if k < LullEnd(l, a) { TicksAscend(Interval(l), k + 1, LullEnd(l, a)); }
    LullEndFeeds(l, log, k, a);
    MovedGrows(log, TickTime(Interval(l), LullEnd(l, a)), b);
  }

  // ---------------------------------------------------------------- a relay that lulls to the very end

  /** The floor's bytes at each of the first `n` ticks. */
  function Heavy(l: Limits, n: nat): seq<Read>
    requires FloorOn(l)
  {
    if n == 0 then [] else Heavy(l, n - 1) + [Read(TickTime(Interval(l), n - 1), l.minBytes)]
  }

  /** A byte at ticks `n`, and then once per idle timeout, before tick `q`. */
  function Light(l: Limits, n: nat, q: nat): seq<Read>
    decreases q - n
  {
    if n >= q then [] else [Read(TickTime(Interval(l), n), 1)] + Light(l, n + IdleTicks(l), q)
  }

  /** The floor's bytes at every tick before `a`, and at `a`. */
  function Plenty(l: Limits, a: int): seq<Read>
    requires FloorOn(l)
  {
    Heavy(l, TicksFor(Interval(l), a)) + [Read(a, l.minBytes)]
  }

  /** What the idle timeout asks for after `a`, before tick `q`. */
  function Beats(l: Limits, a: int, q: nat): seq<Read> {
    if l.idle > 0 then Light(l, TicksFor(Interval(l), a + l.idle), q) else []
  }

  /** Plenty up to `a`, and from then on only what the idle timeout asks for. */
  function Lulling(l: Limits, a: int): seq<Read>
    requires FloorOn(l)
  {
    Plenty(l, a) + Beats(l, a, LullEnd(l, a))
  }

  lemma {:induction false} HeavyHas(l: Limits, n: nat, k: nat)
    requires FloorOn(l) && k < n
    ensures Read(TickTime(Interval(l), k), l.minBytes) in Heavy(l, n)
  {
    if k < n - 1 { HeavyHas(l, n - 1, k); }
  }

  lemma {:induction false} HeavyIsEarly(l: Limits, n: nat, a: int)
    requires FloorOn(l) && (n > 0 ==> TickTime(Interval(l), n - 1) <= a)
    ensures forall r :: r in Heavy(l, n) ==> r.time <= a
  {
    if n == 0 {
    } else {
      if n > 1 { TicksAscend(Interval(l), n - 2, n - 1); }
      HeavyIsEarly(l, n - 1, a);
    }
  }

  lemma {:induction false} LightHas(l: Limits, n: nat, q: nat, k: nat) returns (j: nat)
    requires n <= k < q
    ensures n <= j <= k < j + IdleTicks(l) && Read(TickTime(Interval(l), j), 1) in Light(l, n, q)
    decreases q - n
  {
    if k < n + IdleTicks(l) { j := n; } else { j := LightHas(l, n + IdleTicks(l), q, k); }
  }

  lemma {:induction false} BeatShift(l: Limits, n: nat, j: nat)
    ensures Beat(l, n, j + 1) == Beat(l, n + IdleTicks(l), j)
  {
    if j == 0 {
    } else {
      BeatShift(l, n, j - 1);
    }
  }

  lemma {:induction false} LightIsLight(l: Limits, n: nat, q: nat, j: nat)
    requires q <= Beat(l, n, j)
    ensures |Light(l, n, q)| <= j && forall r :: r in Light(l, n, q) ==> r.bytes == 1
    decreases q - n
  {
    if n < q {
      BeatShift(l, n, j - 1);
      LightIsLight(l, n + IdleTicks(l), q, j - 1);
    }
  }

  lemma {:induction false} MovedConcat(a: seq<Read>, b: seq<Read>, t: int)
    ensures Moved(a + b, t) == Moved(a, t) + Moved(b, t)
  {
    if b == [] {
      assert a + b == a;
    } else {
      MovedConcat(a, b[..|b| - 1], t);
      assert (a + b)[..|a + b| - 1] == a + b[..|b| - 1];
    }
  }

  /** What was read by `a` does not move again. */
  lemma {:induction false} MovedByThen(log: seq<Read>, a: int, t: int)
    requires a <= t && forall r :: r in log ==> r.time <= a
    ensures Moved(log, t) == Moved(log, a)
  {
    if log == [] {
    } else {
      assert log[|log| - 1] in log;
      MovedByThen(log[..|log| - 1], a, t);
    }
  }

  lemma {:induction false} MovedAtMost(log: seq<Read>, t: int)
    requires forall r :: r in log ==> r.bytes == 1
    ensures Moved(log, t) <= |log|
  {
    if log == [] {
    } else {
      assert log[|log| - 1] in log;
      MovedAtMost(log[..|log| - 1], t);
    }
  }

  /** A read counts from its time on. */
  lemma {:induction false} MovedAtLeast(log: seq<Read>, r: Read, s: int, t: int)
    requires r in log && r.time <= t
    ensures Moved(log, t) >= r.bytes
    ensures s < r.time ==> Moved(log, t) - Moved(log, s) >= r.bytes
  {
    var front, last := log[..|log| - 1], log[|log| - 1];
    if s < r.time { MovedGrows(front, s, t); }
    if last != r { MovedAtLeast(front, r, s, t); }
  }

  lemma {:induction false} ActivityAtLeast(log: seq<Read>, r: Read, t: int)
    requires r in log && r.bytes > 0 && r.time <= t
    ensures LastActivity(log, t) >= r.time
  {
    var front, last := log[..|log| - 1], log[|log| - 1];
    if last != r { ActivityAtLeast(front, r, t); }
  }

  lemma BeatsAreFew(l: Limits, a: int, t: int)
    requires FloorOn(l)
    ensures Moved(Beats(l, a, LullEnd(l, a)), t) < l.minBytes
  {
    if l.idle > 0 { LightIsLight(l, TicksFor(Interval(l), a + l.idle), LullEnd(l, a), l.minBytes - 1); }
    MovedAtMost(Beats(l, a, LullEnd(l, a)), t);
  }

  lemma PlentyIsEarly(l: Limits, a: int, t: int)
    requires FloorOn(l) && 0 < a <= t
    ensures Moved(Plenty(l, a), t) == Moved(Plenty(l, a), a)
  {
    HeavyIsEarly(l, TicksFor(Interval(l), a), a);
    MovedByThen(Plenty(l, a), a, t);
  }

  /** The relay moves less than the floor from `a` on. */
  lemma LullingIsSlow(l: Limits, a: int, t: int)
    requires FloorOn(l) && a > 0
    ensures Moved(Lulling(l, a), t) - Moved(Lulling(l, a), a) < l.minBytes
  {
    if t < a {
      MovedGrows(Lulling(l, a), t, a);
    } else {
      PlentyIsEarly(l, a, t);
      BeatsAreFew(l, a, t);
      MovedConcat(Plenty(l, a), Beats(l, a, LullEnd(l, a)), t);
      MovedConcat(Plenty(l, a), Beats(l, a, LullEnd(l, a)), a);
    }
  }

  /** After a read `r` the idle timeout is not due for its length. */
  lemma ReadKeepsActive(l: Limits, log: seq<Read>, r: Read, t: int)
    requires l.idle > 0 && r in log && r.bytes > 0 && r.time <= t < r.time + l.idle
    ensures !IdleDue(l, log, t)
  {
    ActivityAtLeast(log, r, t);
  }

  lemma BeatsKeepActive(l: Limits, log: seq<Read>, n: nat, q: nat, k: nat)
    requires l.idle > 0 && n <= k < q && forall r :: r in Light(l, n, q) ==> r in log
    ensures !IdleDue(l, log, TickTime(Interval(l), k))
  {
    var j := LightHas(l, n, q, k);
    TicksAdd(Interval(l), j, k - j);
    if k > j { TicksForIff(Interval(l), l.idle, k - j); }
    TicksAscend(Interval(l), j, k);
    ReadKeepsActive(l, log, Read(TickTime(Interval(l), j), 1), TickTime(Interval(l), k));
  }

  lemma TickBefore(interval: int, a: int, k: nat)
    requires interval > 0 && a > 0 && TickTime(interval, k) < a
    ensures k < TicksFor(interval, a)
  {
    if k > 0 { TicksForIff(interval, a, k); }
  }

  lemma PlentyKeepsActive(l: Limits, log: seq<Read>, a: int, k: nat)
    requires FloorOn(l) && l.idle > 0 && a > 0 && k < TicksFor(Interval(l), a + l.idle)
    requires forall r :: r in Plenty(l, a) ==> r in log
    ensures !IdleDue(l, log, TickTime(Interval(l), k))
  {
    var t := TickTime(Interval(l), k);
    if t < a {
      TickBefore(Interval(l), a, k);
      HeavyHas(l, TicksFor(Interval(l), a), k);
      ReadKeepsActive(l, log, Read(t, l.minBytes), t);
    } else {
      if k > 0 { TicksForIff(Interval(l), a + l.idle, k); }
      assert Read(a, l.minBytes) in Plenty(l, a);
      ReadKeepsActive(l, log, Read(a, l.minBytes), t);
    }
  }

  lemma ActiveUntil(l: Limits, log: seq<Read>, a: int, q: nat, k: nat)
    requires FloorOn(l) && l.idle > 0 && a > 0 && k < q
    requires forall r :: r in Plenty(l, a) || r in Beats(l, a, q) ==> r in log
    ensures !IdleDue(l, log, TickTime(Interval(l), k))
  {
    var n := TicksFor(Interval(l), a + l.idle);
    if k < n { PlentyKeepsActive(l, log, a, k); } else { BeatsKeepActive(l, log, n, q, k); }
  }

  /** The idle timeout is never due before the lull ends. */
  lemma LullingIsActive(l: Limits, a: int, k: nat)
    requires FloorOn(l) && a > 0 && k < LullEnd(l, a)
    ensures !IdleDue(l, Lulling(l, a), TickTime(Interval(l), k))
  {
    if l.idle > 0 { ActiveUntil(l, Lulling(l, a), a, LullEnd(l, a), k); }
  }

  lemma CapIsNotDue(l: Limits, a: int, k: nat)
    requires FloorOn(l) && k < LullEnd(l, a)
    ensures !DurationDue(l, TickTime(Interval(l), k))
  {
    if l.maxDuration > 0 && k > 0 { TicksForIff(Interval(l), l.maxDuration, k); }
  }

  /** The last sample due by tick `k`; 0 when there is none. */
  function LastDue(l: Limits, k: nat): (j: nat)
    ensures j <= k
  {
    if k == 0 then 0
    else
      var j := LastDue(l, k - 1);
      if k == NextDue(l, j) then k else j
  }

  /** The samples due are the ones `SampleFrom` steps through. */
  lemma {:induction false} DueIsSampled(l: Limits, k: nat, a: int)
    requires FloorOn(l) && LastDue(l, k) > 0
    ensures TickTime(Interval(l), LastDue(l, k)) < a ==> SampleFrom(l, First(l), a) == SampleFrom(l, LastDue(l, k), a)
    ensures TickTime(Interval(l), LastDue(l, k)) >= a ==> LastDue(l, k) >= SampleFrom(l, First(l), a)
    decreases k
  {
    var j := LastDue(l, k - 1);
    if k == NextDue(l, j) && j > 0 {
      DueIsSampled(l, k - 1, a);
      TicksAscend(Interval(l), j, k);
    } else if j > 0 {
      DueIsSampled(l, k - 1, a);
    }
  }

  /** Every sample due before the lull ends finds enough. */
  lemma LullingIsFed(l: Limits, a: int, k: nat)
    requires FloorOn(l) && a > 0 && 0 < k < LullEnd(l, a) && k == NextDue(l, LastDue(l, k - 1))
    ensures MovedBy(l, Lulling(l, a), k) - MovedBy(l, Lulling(l, a), LastDue(l, k - 1)) >= l.minBytes
  {
    var log, interval, j := Lulling(l, a), Interval(l), LastDue(l, k - 1);
    var s, t := TickTime(interval, j), TickTime(interval, k);
    TicksAscend(interval, j, k - 1);
    if t < a {
      TickBefore(interval, a, k);
      HeavyHas(l, TicksFor(interval, a), k);
      MovedAtLeast(log, Read(t, l.minBytes), s, t);
    } else {
      if s >= a { DueIsSampled(l, k - 1, a); }
      MovedAtLeast(log, Read(a, l.minBytes), s, t);
    }
  }

  /** The relay is open until its lull ends. */
  lemma {:induction false} LullingStaysOpen(l: Limits, a: int, k: nat)
    requires FloorOn(l) && a > 0 && k < LullEnd(l, a)
    ensures var log, j := Lulling(l, a), LastDue(l, k);
      && k < NextDue(l, j) && (j > 0 ==> TickTime(Interval(l), j) >= l.grace)
      && After(l, log, k) == Watch(TickTime(Interval(l), j), MovedBy(l, log, j), None)
  {
    if k == 0 {
    } else {
      var log, j := Lulling(l, a), LastDue(l, k - 1);
      LullingStaysOpen(l, a, k - 1);
      LullingIsActive(l, a, k);
      CapIsNotDue(l, a, k);
      DueIff(l, After(l, log, k - 1), j, k);
      if k == NextDue(l, j) { LullingIsFed(l, a, k); }
    }
  }

  /** From every moment after the start on, and for every setting of the limits: some
      relay is open at `b` with less than the floor moved since `a` exactly before the end of
      the lull. */
  lemma LullIsExact(l: Limits, a: int, b: int)
    requires FloorOn(l) && a > 0
    ensures CanLull(l, a, b) <==> b < TickTime(Interval(l), LullEnd(l, a))
  {
    if b < TickTime(Interval(l), LullEnd(l, a)) {
      var log, k := Lulling(l, a), LullEnd(l, a) - 1;
      LullingStaysOpen(l, a, k);
      LullingIsSlow(l, a, b);
      assert Open(l, log, k);
    } else if CanLull(l, a, b) {
      var log, k: nat :| Open(l, log, k) && b < TickTime(Interval(l), k + 1) && Moved(log, b) - Moved(log, a) < l.minBytes;
      NoLongerLull(l, log, k, a, b);
    }
  }

  // ---------------------------------------------------------------- over which spans the floor is guaranteed

  /** Every relay open at the end of a span of at least `length` after the grace period has
      moved the floor's bytes in it. */
  ghost predicate Guaranteed(l: Limits, length: int) {
    forall log, k: nat, a, b :: Open(l, log, k) && b < TickTime(Interval(l), k + 1) && a > 0 && a >= l.grace && b - a >= length ==>
      Moved(log, b) - Moved(log, a) >= l.minBytes
  }

  /** No lull is longer. */
  ghost predicate Outlasts(l: Limits, length: int)
    requires FloorOn(l)
  {
    forall a :: a > 0 && a >= l.grace ==> Lull(l, a) <= length
  }

  lemma GuaranteedIffOutlasts(l: Limits, length: int)
    requires FloorOn(l)
    ensures Guaranteed(l, length) <==> Outlasts(l, length)
  {
    if Outlasts(l, length) {
      forall log, k: nat, a, b | Open(l, log, k) && b < TickTime(Interval(l), k + 1) && a > 0 && a >= l.grace && b - a >= length
        ensures Moved(log, b) - Moved(log, a) >= l.minBytes
      {
        assert Lull(l, a) <= length;
        NoLongerLull(l, log, k, a, b);
      }
    } else {
      var a :| a > 0 && a >= l.grace && Lull(l, a) > length;
      LullIsExact(l, a, a + length);
      var log, k: nat :| Open(l, log, k) && a + length < TickTime(Interval(l), k + 1)
        && Moved(log, a + length) - Moved(log, a) < l.minBytes;
      assert !(Moved(log, a + length) - Moved(log, a) >= l.minBytes);
    }
  }

  // ---------------------------------------------------------------- the parts of a lull

  /** A lull lasts as long as every limit lets it. */
  lemma LullAtLeast(l: Limits, a: int, x: int)
    requires FloorOn(l)
    ensures Lull(l, a) >= x <==>
      && TickTime(Interval(l), SecondSample(l, a)) - a >= x
      && (l.idle > 0 ==> TickTime(Interval(l), IdleForces(l, a)) - a >= x)
      && (l.maxDuration > 0 ==> TickTime(Interval(l), CapTick(l)) - a >= x)
  {
    TicksAscend(Interval(l), LullEnd(l, a), SecondSample(l, a));
    if l.idle > 0 { TicksAscend(Interval(l), LullEnd(l, a), IdleForces(l, a)); }
    if l.maxDuration > 0 { TicksAscend(Interval(l), LullEnd(l, a), CapTick(l)); }
  }

  /** The time the idle timeout takes to force all bytes but the first. */
  function Forcing(l: Limits): int
    requires FloorOn(l)
  {
    TickTime(Interval(l), Beat(l, 0, l.minBytes - 1))
  }

  lemma {:induction false} BeatTime(l: Limits, n: nat, j: nat)
    ensures TickTime(Interval(l), Beat(l, n, j)) == TickTime(Interval(l), n) + TickTime(Interval(l), Beat(l, 0, j))
  {
    if j == 0 {
    } else {
      BeatTime(l, n, j - 1);
      TicksAdd(Interval(l), Beat(l, n, j - 1), IdleTicks(l));
      TicksAdd(Interval(l), Beat(l, 0, j - 1), IdleTicks(l));
    }
  }

  /** When the idle timeout next comes due after activity at `a`. */
  function Timeout(l: Limits, a: int): int {
    TickTime(Interval(l), TicksFor(Interval(l), a + l.idle))
  }

  lemma IdlePart(l: Limits, a: int)
    requires FloorOn(l)
    ensures TickTime(Interval(l), IdleForces(l, a)) == Timeout(l, a) + Forcing(l)
  {
    BeatTime(l, TicksFor(Interval(l), a + l.idle), l.minBytes - 1);
  }

  /** An earlier lull whose sample and timeout come no sooner lasts at least as long. */
  lemma LullDominates(l: Limits, a: int, a': int)
    requires FloorOn(l) && a' <= a
    requires TickTime(Interval(l), SecondSample(l, a)) - a <= TickTime(Interval(l), SecondSample(l, a')) - a'
    requires l.idle > 0 ==> Timeout(l, a) - a <= Timeout(l, a') - a'
    ensures Lull(l, a) <= Lull(l, a')
  {
    LullAtLeast(l, a, Lull(l, a));
    LullAtLeast(l, a', Lull(l, a));
    IdlePart(l, a);
    IdlePart(l, a');
  }

  lemma TicksForUnique(interval: int, x: int, k: nat)
    requires interval > 0 && k > 0 && TickTime(interval, k) >= x && (k > 1 ==> TickTime(interval, k - 1) < x)
    ensures TicksFor(interval, x) == k
  {
    TicksForIff(interval, x, k);
    if k > 1 { TicksForIff(interval, x, k - 1); }
  }

  /** The next moment from which the timeout comes an interval later. */
  function Jump(l: Limits, x: int): (a: int) {
    if l.idle > 0 then Timeout(l, x) - l.idle + 1 else x
  }

  lemma TimeoutIsSoon(l: Limits, a: int)
    requires l.idle > 0 && a > 0
    ensures a + l.idle <= Timeout(l, a) < a + l.idle + Interval(l)
  {
    var n := TicksFor(Interval(l), a + l.idle);
    assert TickTime(Interval(l), n) == TickTime(Interval(l), n - 1) + Interval(l);
  }

  /** Right after a jump the timeout is as late as it gets. */
  lemma JumpIsLate(l: Limits, x: int)
    requires l.idle > 0 && x > 0
    ensures x < Jump(l, x) <= x + Interval(l) && Timeout(l, Jump(l, x)) - Jump(l, x) == l.idle + Interval(l) - 1
  {
    var n := TicksFor(Interval(l), x + l.idle);
    TimeoutIsSoon(l, x);
    TicksForUnique(Interval(l), Jump(l, x) + l.idle, n + 1);
  }

  lemma BeforeJump(l: Limits, x: int, a: int)
    requires l.idle > 0 && 0 < x <= a < Jump(l, x)
    ensures Timeout(l, a) == Timeout(l, x)
  {
    TicksForUnique(Interval(l), a + l.idle, TicksFor(Interval(l), x + l.idle));
  }

  // ---------------------------------------------------------------- the longest lull

  /** The longer of the lulls from `x` and from the jump after it. */
  function LongerFrom(l: Limits, x: int): int
    requires FloorOn(l)
  {
    Max(Lull(l, x), Lull(l, Jump(l, x)))
  }

  function FirstTime(l: Limits): int { TickTime(Interval(l), First(l)) }

  /** The longest lull: it starts with the end of the grace period, or right after the first
      sample, or at the jump after one of them. */
  function Needed(l: Limits): int
    requires FloorOn(l)
  {
    Max(LongerFrom(l, Max(1, l.grace)), LongerFrom(l, FirstTime(l) + 1))
  }

  lemma SampleFromFirst(l: Limits, a: int)
    requires FloorOn(l)
    ensures a <= FirstTime(l) ==> SecondSample(l, a) == First(l) + Stride(l)
    ensures FirstTime(l) < a <= FirstTime(l) + Span(l) ==> SecondSample(l, a) == First(l) + Stride(l) + Stride(l)
  {
    TicksAdd(Interval(l), First(l), Stride(l));
    if FirstTime(l) < a <= FirstTime(l) + Span(l) {
      assert SampleFrom(l, First(l) + Stride(l), a) == First(l) + Stride(l);
    }
  }

  /** Between two samples, a lull is no longer than from the start or the jump after it. */
  lemma SegmentBound(l: Limits, x: int, a: int)
    requires FloorOn(l) && 0 < x <= a && SecondSample(l, a) == SecondSample(l, x)
    requires Jump(l, x) <= a ==> SecondSample(l, Jump(l, x)) == SecondSample(l, x)
    ensures Lull(l, a) <= LongerFrom(l, x)
  {
    if l.idle > 0 && Jump(l, x) <= a {
      JumpIsLate(l, x);
      TimeoutIsSoon(l, a);
      LullDominates(l, a, Jump(l, x));
    } else {
      if l.idle > 0 { BeforeJump(l, x, a); }
      LullDominates(l, a, x);
    }
  }

  lemma {:induction false} SampleShift(l: Limits, k: nat, a: int)
    requires FloorOn(l)
    ensures SampleFrom(l, k + Stride(l), a + Span(l)) == SampleFrom(l, k, a) + Stride(l)
    decreases a - TickTime(Interval(l), k)
  {
    TicksAdd(Interval(l), k, Stride(l));
    SpanIsWindowRoundedUp(l);
    if TickTime(Interval(l), k) < a { SampleShift(l, k + Stride(l), a); }
  }

  lemma TimeoutShift(l: Limits, a: int)
    requires FloorOn(l) && l.idle > 0 && a > 0
    ensures Timeout(l, a + Span(l)) == Timeout(l, a) + Span(l)
  {
    var interval, n := Interval(l), TicksFor(Interval(l), a + l.idle);
    TicksAdd(interval, n, Stride(l));
    TicksAdd(interval, n - 1, Stride(l));
    TicksForUnique(interval, a + Span(l) + l.idle, n + Stride(l));
  }

  /** After the first sample, a lull a span later is no longer. */
  lemma ShiftBound(l: Limits, a: int)
    requires FloorOn(l) && a > 0 && a > FirstTime(l)
    ensures Lull(l, a + Span(l)) <= Lull(l, a)
  {
    SpanIsWindowRoundedUp(l);
    SampleShift(l, First(l), a);
    assert SampleFrom(l, First(l), a + Span(l)) == SampleFrom(l, First(l) + Stride(l), a + Span(l));
    TicksAdd(Interval(l), SecondSample(l, a), Stride(l));
    if l.idle > 0 { TimeoutShift(l, a); }
    LullDominates(l, a + Span(l), a);
  }

  lemma BoundBeforeFirst(l: Limits, a: int)
    requires FloorOn(l) && a > 0 && l.grace <= a <= FirstTime(l)
    ensures Lull(l, a) <= LongerFrom(l, Max(1, l.grace))
  {
    var x := Max(1, l.grace);
    SampleFromFirst(l, a);
    SampleFromFirst(l, x);
    SampleFromFirst(l, Jump(l, x));
    SegmentBound(l, x, a);
  }

  lemma BoundAfterFirst(l: Limits, a: int)
    requires FloorOn(l) && FirstTime(l) < a <= FirstTime(l) + Span(l)
    ensures Lull(l, a) <= LongerFrom(l, FirstTime(l) + 1)
  {
    var x := FirstTime(l) + 1;
    TicksAscend(Interval(l), 0, First(l));
    SpanIsWindowRoundedUp(l);
    if l.idle > 0 { JumpIsLate(l, x); }
    SampleFromFirst(l, a);
    SampleFromFirst(l, x);
    SampleFromFirst(l, Jump(l, x));
    SegmentBound(l, x, a);
  }

  lemma {:induction false} BoundLater(l: Limits, a: int, bound: int)
    requires FloorOn(l) && a > FirstTime(l) >= 0 && bound == LongerFrom(l, FirstTime(l) + 1)
    ensures Lull(l, a) <= bound
    decreases a
  {
    if a <= FirstTime(l) + Span(l) {
      BoundAfterFirst(l, a);
    } else {
      var b := a - Span(l);
      SpanIsWindowRoundedUp(l);
      ShiftBound(l, b);
      assert a == b + Span(l);
      BoundLater(l, b, bound);
    }
  }

  lemma LullBound(l: Limits, a: int)
    requires FloorOn(l) && a > 0 && a >= l.grace
    ensures Lull(l, a) <= Needed(l)
  {
    TicksAscend(Interval(l), 0, First(l));
    if a <= FirstTime(l) { BoundBeforeFirst(l, a); } else { BoundLater(l, a, LongerFrom(l, FirstTime(l) + 1)); }
  }

  /** What the floor guarantees, for every setting of the limits: a span of the given length
      always carries the floor's bytes exactly when no lull is longer. */
  lemma FloorIsGuaranteedOver(l: Limits, length: int)
    requires FloorOn(l)
    ensures Guaranteed(l, length) <==> length >= Needed(l)
  {
    GuaranteedIffOutlasts(l, length);
    var x, y := Max(1, l.grace), FirstTime(l) + 1;
    SpanIsWindowRoundedUp(l);
    TicksForIff(Interval(l), Max(l.grace, l.window), First(l));
    if l.idle > 0 {
      JumpIsLate(l, x);
      JumpIsLate(l, y);
    }
    if Outlasts(l, length) {
      assert Lull(l, x) <= length && Lull(l, Jump(l, x)) <= length;
      assert Lull(l, y) <= length && Lull(l, Jump(l, y)) <= length;
    }
    forall a | a > 0 && a >= l.grace ensures Lull(l, a) <= Needed(l) { LullBound(l, a); }
  }

  // ---------------------------------------------------------------- a cap that comes late enough

  /** A window rounded up to ticks, twice; or, if that is sooner, the idle timeout forcing the
      bytes one at a time. */
  function Uncapped(l: Limits): int
    requires FloorOn(l)
  {
    (if l.idle > 0 then Min(2 * Span(l), l.idle + Interval(l) + Forcing(l)) else 2 * Span(l)) - 1
  }

  lemma {:induction false} ForcingFrom(l: Limits, j: nat)
    ensures TickTime(Interval(l), Beat(l, 0, j)) == j * TickTime(Interval(l), IdleTicks(l))
  {
    var e := TickTime(Interval(l), IdleTicks(l));
    if j == 0 {
    } else {
      ForcingFrom(l, j - 1);
      TicksAdd(Interval(l), Beat(l, 0, j - 1), IdleTicks(l));
      assert j * e == (j - 1) * e + e;
    }
  }

  /** The idle timeout forces a byte per timeout rounded up to ticks. */
  lemma ForcingIs(l: Limits)
    requires FloorOn(l)
    ensures Forcing(l) == (l.minBytes - 1) * TickTime(Interval(l), IdleTicks(l))
  {
    ForcingFrom(l, l.minBytes - 1);
  }

  /** The duration cap is off, or it leaves room for two samples after the first. */
  predicate CapIsLate(l: Limits) {
    l.maxDuration > 0 ==> l.maxDuration > TickTime(Interval(l), First(l) + Stride(l) + Stride(l) - 1)
  }

  lemma {:induction false} SampleIsSoon(l: Limits, k: nat, a: int)
    requires FloorOn(l) && TickTime(Interval(l), k) < a + Span(l)
    ensures TickTime(Interval(l), SampleFrom(l, k, a)) < a + Span(l)
    decreases a - TickTime(Interval(l), k)
  {
    if TickTime(Interval(l), k) < a {
      TicksAdd(Interval(l), k, Stride(l));
      SpanIsWindowRoundedUp(l);
      SampleIsSoon(l, k + Stride(l), a);
    }
  }

  lemma FirstIsSoon(l: Limits, a: int)
    requires FloorOn(l) && a > 0 && a >= l.grace
    ensures FirstTime(l) < a + Span(l)
  {
    SpanIsWindowRoundedUp(l);
    assert FirstTime(l) == TickTime(Interval(l), First(l) - 1) + Interval(l);
  }

  /** With or without a cap, no lull after the grace period is longer than this. */
  lemma LullIsAtMost(l: Limits, a: int)
    requires FloorOn(l) && a > 0 && a >= l.grace
    ensures Lull(l, a) <= Uncapped(l)
  {
    FirstIsSoon(l, a);
    SampleIsSoon(l, First(l), a);
    TicksAdd(Interval(l), SampleFrom(l, First(l), a), Stride(l));
    LullAtLeast(l, a, Lull(l, a));
    if l.idle > 0 {
      IdlePart(l, a);
      TimeoutIsSoon(l, a);
    }
  }

  /** Ticks a multiple of the interval apart: less than one apart is not later. */
  lemma NextTick(interval: int, j: nat, k: nat)
    requires interval > 0 && TickTime(interval, j) < TickTime(interval, k) + interval
    ensures j <= k && TickTime(interval, j) <= TickTime(interval, k)
  {
    if j > k { TicksAscend(interval, k + 1, j); } else { TicksAscend(interval, j, k); }
  }

  lemma LateCap(l: Limits)
    requires FloorOn(l) && CapIsLate(l)
    ensures l.maxDuration > 0 ==> TickTime(Interval(l), CapTick(l)) >= FirstTime(l) + 2 * Span(l)
  {
    if l.maxDuration > 0 {
      var n := First(l) + Stride(l) + Stride(l);
      TicksForIff(Interval(l), l.maxDuration, n - 1);
      TicksAscend(Interval(l), n, CapTick(l));
      TicksAdd(Interval(l), First(l), Stride(l));
      TicksAdd(Interval(l), First(l) + Stride(l), Stride(l));
    }
  }

  lemma SecondAfterFirst(l: Limits, a: int)
    requires FloorOn(l) && a > FirstTime(l)
    ensures TickTime(Interval(l), SecondSample(l, a)) >= FirstTime(l) + 2 * Span(l)
  {
    TicksAdd(Interval(l), First(l), Stride(l));
    var c := SampleFrom(l, First(l) + Stride(l), a);
    assert SecondSample(l, a) == c + Stride(l);
    TicksAscend(Interval(l), First(l) + Stride(l), c);
    TicksAdd(Interval(l), c, Stride(l));
  }

  /** Where the samples come first, a lull right after the first one lasts two spans. */
  lemma SamplesFirst(l: Limits)
    requires FloorOn(l) && CapIsLate(l) && (l.idle > 0 ==> l.idle + Interval(l) + Forcing(l) >= 2 * Span(l))
    ensures Lull(l, FirstTime(l) + 1) >= 2 * Span(l) - 1
  {
    var a, n := FirstTime(l) + 1, First(l) + Stride(l) + Stride(l);
    SecondAfterFirst(l, a);
    LateCap(l);
    if l.idle > 0 {
      TicksAscend(Interval(l), 0, First(l));
      IdlePart(l, a);
      TimeoutIsSoon(l, a);
      TicksAdd(Interval(l), First(l), Stride(l));
      TicksAdd(Interval(l), First(l) + Stride(l), Stride(l));
      NextTick(Interval(l), n, IdleForces(l, a));
    }
    LullAtLeast(l, a, 2 * Span(l) - 1);
  }

  /** Where the idle timeout comes first, a lull right after the next jump lasts that long. */
  lemma TimeoutsFirst(l: Limits)
    requires FloorOn(l) && CapIsLate(l) && l.idle > 0 && l.idle + Interval(l) + Forcing(l) < 2 * Span(l)
    ensures Lull(l, Jump(l, FirstTime(l) + 1)) >= l.idle + Interval(l) + Forcing(l) - 1
  {
    var x, n := FirstTime(l) + 1, First(l) + Stride(l) + Stride(l);
    var a := Jump(l, x);
    TicksAscend(Interval(l), 0, First(l));
    JumpIsLate(l, x);
    TimeoutIsSoon(l, x);
    IdlePart(l, a);
    SecondAfterFirst(l, a);
    LateCap(l);
    TicksAdd(Interval(l), First(l), Stride(l));
    TicksAdd(Interval(l), First(l) + Stride(l), Stride(l));
    NextTick(Interval(l), IdleForces(l, a), n);
    LullAtLeast(l, a, l.idle + Interval(l) + Forcing(l) - 1);
  }

  /** With a late cap or none, the floor is guaranteed over spans of exactly twice the
      rounded-up window, or the time in which the idle timeout forces the bytes if that is
      shorter, less a nanosecond. */
  lemma FloorGuaranteeIs(l: Limits, length: int)
    requires FloorOn(l) && CapIsLate(l)
    ensures Guaranteed(l, length) <==> length >= Uncapped(l)
  {
    var x, y := Max(1, l.grace), FirstTime(l) + 1;
    FloorIsGuaranteedOver(l, length);
    TicksAscend(Interval(l), 0, First(l));
    TicksForIff(Interval(l), Max(l.grace, l.window), First(l));
    if l.idle > 0 {
      JumpIsLate(l, x);
      JumpIsLate(l, y);
    }
    LullIsAtMost(l, x);
    LullIsAtMost(l, y);
    LullIsAtMost(l, Jump(l, x));
    LullIsAtMost(l, Jump(l, y));
    if l.idle > 0 && l.idle + Interval(l) + Forcing(l) < 2 * Span(l) { TimeoutsFirst(l); } else { SamplesFirst(l); }
  }

  /** The documented sliding window: with a late cap or none it is guaranteed exactly when the
      idle timeout forces the floor's bytes within it. */
  lemma SlidingWindowIff(l: Limits)
    requires FloorOn(l) && CapIsLate(l)
    ensures Guaranteed(l, l.window) <==> l.idle > 0 && l.idle + Interval(l) + Forcing(l) <= l.window + 1
  {
    FloorGuaranteeIs(l, l.window);
    SpanIsWindowRoundedUp(l);
  }

  /** Whatever the limits, twice the window and twice the interval after the grace period
      suffice: a slower relay is closed. */
  lemma SlowSpanCloses(l: Limits, log: seq<Read>, k: nat, a: int, b: int)
    requires FloorOn(l) && b < TickTime(Interval(l), k + 1)
    requires a > 0 && a >= l.grace && b - a >= 2 * (l.window + Interval(l))
    requires Moved(log, b) - Moved(log, a) < l.minBytes
    ensures !Open(l, log, k)
  {
    SpanIsWindowRoundedUp(l);
    LullIsAtMost(l, a);
    if Open(l, log, k) { NoLongerLull(l, log, k, a, b); }
  }
}
