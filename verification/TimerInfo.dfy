/** The timer records: what a client registers (TimerEntry), what the scheduler queues
    (TimerInfo), the clamping done when a timer is started and the catch-up arithmetic done
    when a repeating timer fires. A TimerInfo is a value: the C++ code changes `count`, `when`,
    `whenElapsed` and `maxWhenElapsed` only where no second owner looks at them. */
module TimerInfos {
  import opened Units

  // enum TimerType
  const RTC_WAKEUP: int := 0
  const RTC: int := 1
  const ELAPSED_REALTIME_WAKEUP: int := 2
  const ELAPSED_REALTIME: int := 3

  /** A 32-bit flag word, given as the set of its one bits. */
  type Flags = set<nat>

  // enum TimerFlag: the bit number of STANDALONE
  const STANDALONE_BIT: nat := 0

  // Durations of timer_manager.cpp, in milliseconds
  const MIN_FUTURITY: int := 5_000
  const MIN_INTERVAL_FIVE_SECONDS: int := 5_000
  const MIN_INTERVAL_ONE_SECONDS: int := 1_000
  const MAX_INTERVAL: int := 31_536_000_000
  const INTERVAL_HOUR: int := 3_600_000
  const INTERVAL_HALF_DAY: int := 43_200_000
  const MIN_FUZZABLE_INTERVAL: int := 10_000

  /** The durations in hours, days and seconds of 10^9 nanoseconds. */
  lemma Durations()
    ensures MIN_INTERVAL_ONE_SECONDS == 1000 && MIN_FUTURITY == MIN_INTERVAL_FIVE_SECONDS == 5 * MIN_INTERVAL_ONE_SECONDS
    ensures MIN_FUZZABLE_INTERVAL == 10 * MIN_INTERVAL_ONE_SECONDS && INTERVAL_HOUR == 60 * 60 * MIN_INTERVAL_ONE_SECONDS
    ensures INTERVAL_HALF_DAY == 12 * INTERVAL_HOUR && MAX_INTERVAL == 365 * 24 * INTERVAL_HOUR
    ensures MIN_INTERVAL_ONE_SECONDS * NS_PER_MS == 1_000_000_000
    ensures IsStandalone({0})
  {}

  predicate IsStandalone(flags: Flags) {
    STANDALONE_BIT in flags
  }

  datatype TimerEntry = TimerEntry(
    id: uint64, kind: int, windowLength: uint64, interval: uint64, flag: Flags, hasCallback: bool, uid: int)

  datatype TimerInfo = TimerInfo(
    id: uint64, kind: int, origWhen: int, wakeup: bool, hasCallback: bool, flags: Flags, uid: int,
    count: int, when: int, windowLength: int, whenElapsed: int, maxWhenElapsed: int,
    expectedWhenElapsed: int, expectedMaxWhenElapsed: int, repeatInterval: int)

  /** The TimerInfo constructor. */
  function NewTimerInfo(id: uint64, kind: int, when: int, whenElapsed: int, windowLength: int, maxWhen: int,
                        interval: int, hasCallback: bool, flags: Flags, uid: int): TimerInfo
  {
    TimerInfo(id, kind, when, kind == ELAPSED_REALTIME_WAKEUP || kind == RTC_WAKEUP, hasCallback, flags, uid,
              0, when, windowLength, whenElapsed, maxWhen, whenElapsed, maxWhen, interval)
  }

  /** The type bit Batch::HasWakeups tests. */
  predicate WakeupBit(a: TimerInfo) {
    a.kind % 2 == 0
  }

  /** The tested bit and the constructor's `wakeup` field agree on the four declared types and,
      beyond those, exactly on the odd ones. */
  lemma WakeupBitAgrees(id: uint64, kind: int, when: int, whenElapsed: int, windowLength: int, maxWhen: int,
                        interval: int, hasCallback: bool, flags: Flags, uid: int)
    ensures var a := NewTimerInfo(id, kind, when, whenElapsed, windowLength, maxWhen, interval, hasCallback, flags, uid);
            (WakeupBit(a) == a.wakeup) <==> (0 <= kind <= 3 || kind % 2 == 1)
  {
    if 0 <= kind <= 3 {
      assert kind == 0 || kind == 1 || kind == 2 || kind == 3;
    }
  }

  // ---------------------------------------------------------------- clock conversion

  /** TimerManager::ConvertToElapsed with the clock reading it takes. */
  function ConvertToElapsed(when: int, kind: int, c: Clock): int {
    if kind == RTC || kind == RTC_WAKEUP
    then c.boot + (when * NS_PER_MS - c.wall)
    else c.boot + (when * NS_PER_MS - c.boot)
  }

  /** Elapsed timers convert to the same instant whatever the clocks read. Wall-clock timers convert
      to the boot time at which a wall clock that runs along will show their time, and so move
      against the jump of the wall clock relative to boot time. */
  lemma ConversionFollowsWallClock(when: int, kind: int, c: Clock, d: Clock)
    ensures ConvertToElapsed(when, kind, d) - ConvertToElapsed(when, kind, c) ==
            if kind == RTC || kind == RTC_WAKEUP then (c.wall - c.boot) - (d.wall - d.boot) else 0
    ensures kind != RTC && kind != RTC_WAKEUP ==> ConvertToElapsed(when, kind, c) == when * NS_PER_MS
    ensures kind == RTC || kind == RTC_WAKEUP ==>
              c.wall + (ConvertToElapsed(when, kind, c) - c.boot) == when * NS_PER_MS
  {}

  // ---------------------------------------------------------------- delivery windows

  /** MaxTriggerTime: three quarters of the interval (or of the clamping distance) as a window,
      none below ten seconds. */
  function MaxTriggerTime(now: int, triggerAtTime: int, interval: int): int {
    var futurity := if interval == 0 then ToMillis(triggerAtTime - now) else interval;
    var fuzz := if futurity < MIN_FUZZABLE_INTERVAL then 0 else futurity;
    triggerAtTime + 3 * fuzz / 4 * NS_PER_MS
  }

  /** The largest whole number of milliseconds within three quarters of `span`, none if it is below
      ten seconds. */
  predicate IsFuzz(w: int, span: int) {
    if span < MIN_FUZZABLE_INTERVAL then w == 0 else 4 * w <= 3 * span < 4 * (w + 1)
  }

  /** The fuzz is taken of the interval, or of the distance to the trigger time if there is none. */
  lemma MaxTriggerTimeWindow(now: int, triggerAtTime: int, interval: int)
    ensures var span := if interval == 0 then ToMillis(triggerAtTime - now) else interval;
            exists w :: IsFuzz(w, span) && MaxTriggerTime(now, triggerAtTime, interval) == triggerAtTime + w * NS_PER_MS
    ensures triggerAtTime <= MaxTriggerTime(now, triggerAtTime, interval)
    ensures interval > 0 ==> MaxTriggerTime(now, triggerAtTime, interval) < triggerAtTime + interval * NS_PER_MS
  {
    var span := if interval == 0 then ToMillis(triggerAtTime - now) else interval;
    var w := 3 * (if span < MIN_FUZZABLE_INTERVAL then 0 else span) / 4;
    assert IsFuzz(w, span) && MaxTriggerTime(now, triggerAtTime, interval) == triggerAtTime + w * NS_PER_MS;
  }

  // ---------------------------------------------------------------- starting a timer

  /** What SetHandler reads while it prepares an alarm: the boot clock, the clocks again inside
      ConvertToElapsed, and two answers of IsSystemUid. */
  datatype StartReading = StartReading(nowElapsed: nat, clock: Clock, systemForInterval: bool, systemForFuturity: bool)

  function ClampWindow(windowLength: uint64): int {
    var w := AsSigned64(windowLength);
    if w > INTERVAL_HALF_DAY then INTERVAL_HOUR else w
  }

  function ClampInterval(interval: uint64, isSystem: bool): int {
    var minInterval := if isSystem then MIN_INTERVAL_ONE_SECONDS else MIN_INTERVAL_FIVE_SECONDS;
    var i := AsSigned64(interval);
    if 0 < i < minInterval then minInterval
    else if i > MAX_INTERVAL then MAX_INTERVAL
    else i
  }

  /** TimerManager::SetHandler up to taking the lock: the alarm to queue, or None when the
      nominal trigger time is already past. */
  function PrepareAlarm(e: TimerEntry, triggerTime: uint64, r: StartReading): Option<TimerInfo> {
    var window := ClampWindow(e.windowLength);
    var interval := ClampInterval(e.interval, r.systemForInterval);
    var when := AsSigned64(triggerTime);
    var nominal := ConvertToElapsed(when, e.kind, r.clock);
    if nominal < r.nowElapsed then None
    else
      var minTrigger := if r.systemForFuturity then r.nowElapsed else r.nowElapsed + MIN_FUTURITY * NS_PER_MS;
      var trigger := if nominal > minTrigger then nominal else minTrigger;
      var maxElapsed :=
        if window == 0 then trigger
        else if window < 0 then MaxTriggerTime(nominal, trigger, interval)
        else trigger + window * NS_PER_MS;
      var window' := if window < 0 then ToMillis(maxElapsed - trigger) else window;
      Some(NewTimerInfo(e.id, e.kind, when, trigger, window', maxElapsed, interval, e.hasCallback, e.flag, e.uid))
  }

  /** The shape every queued alarm keeps from Start to delivery. */
  predicate WellShaped(a: TimerInfo) {
    && a.whenElapsed <= a.maxWhenElapsed
    && 0 <= a.windowLength
    && (0 < a.repeatInterval ==> MIN_INTERVAL_ONE_SECONDS <= a.repeatInterval <= MAX_INTERVAL)
    && a.wakeup == (a.kind == ELAPSED_REALTIME_WAKEUP || a.kind == RTC_WAKEUP)
  }

  /** Everything SetHandler promises about the alarm it queues, whatever the client asked for. */
  lemma PreparedShape(e: TimerEntry, triggerTime: uint64, r: StartReading)
    requires PrepareAlarm(e, triggerTime, r).Some?
    ensures var a := PrepareAlarm(e, triggerTime, r).value;
            && WellShaped(a)
            && a.id == e.id && a.uid == e.uid && a.hasCallback == e.hasCallback
            // not before the clock reading, and five seconds later for an ordinary client
            && a.whenElapsed >= r.nowElapsed + (if r.systemForFuturity then 0 else MIN_FUTURITY * NS_PER_MS)
            // the stored window is the window
            && a.maxWhenElapsed == a.whenElapsed + a.windowLength * NS_PER_MS
            && a.expectedWhenElapsed == a.whenElapsed
            && (0 < a.repeatInterval && !r.systemForInterval ==> MIN_INTERVAL_FIVE_SECONDS <= a.repeatInterval)
            // a requested window of -1 becomes three quarters of the period, for a one-shot it is empty
            && (ClampWindow(e.windowLength) < 0 ==> IsFuzz(a.windowLength, a.repeatInterval))
            && (ClampWindow(e.windowLength) < 0 && 0 < a.repeatInterval ==> a.windowLength < a.repeatInterval)
  {
    var nominal := ConvertToElapsed(AsSigned64(triggerTime), e.kind, r.clock);
    var a := PrepareAlarm(e, triggerTime, r).value;
    if ClampWindow(e.windowLength) < 0 {
      assert a.whenElapsed - nominal <= MIN_FUTURITY * NS_PER_MS;
      WholeMillis(nominal, a.whenElapsed, a.repeatInterval);
    }
  }

  /** The window MaxTriggerTime leaves, as the duration it is stored as. */
  lemma WholeMillis(now: int, triggerAtTime: int, interval: int)
    ensures var window := ToMillis(MaxTriggerTime(now, triggerAtTime, interval) - triggerAtTime);
            && window * NS_PER_MS == MaxTriggerTime(now, triggerAtTime, interval) - triggerAtTime
            && IsFuzz(window, if interval == 0 then ToMillis(triggerAtTime - now) else interval)
            && 0 <= window && (0 < interval ==> window < interval)
  {
    MaxTriggerTimeWindow(now, triggerAtTime, interval);
    var span := if interval == 0 then ToMillis(triggerAtTime - now) else interval;
    var w :| IsFuzz(w, span) && MaxTriggerTime(now, triggerAtTime, interval) == triggerAtTime + w * NS_PER_MS;
    QuotientIs(w * NS_PER_MS, NS_PER_MS, w);
  }

  /** The times are clamped, not replaced: the alarm goes off at the nominal time or as soon after
      the clock reading as the client may ask; an interval is moved to the nearest allowed one,
      and a window of more than half a day becomes one hour. */
  lemma PreparedTimes(e: TimerEntry, triggerTime: uint64, r: StartReading)
    requires PrepareAlarm(e, triggerTime, r).Some?
    ensures var a := PrepareAlarm(e, triggerTime, r).value;
            var nominal := ConvertToElapsed(AsSigned64(triggerTime), e.kind, r.clock);
            var soonest := r.nowElapsed + (if r.systemForFuturity then 0 else MIN_FUTURITY * NS_PER_MS);
            var interval, window := AsSigned64(e.interval), AsSigned64(e.windowLength);
            && a.whenElapsed >= nominal && (a.whenElapsed == nominal || a.whenElapsed == soonest > nominal)
            && a.kind == e.kind && a.flags == e.flag && a.when == a.origWhen == AsSigned64(triggerTime)
            && a.expectedMaxWhenElapsed == a.maxWhenElapsed && a.count == 0
            && (interval <= 0 ==> a.repeatInterval == interval)
            && (interval > 0 ==>
                  var least := if r.systemForInterval then MIN_INTERVAL_ONE_SECONDS else MIN_INTERVAL_FIVE_SECONDS;
                  a.repeatInterval == Min(Max(interval, least), MAX_INTERVAL))
            && (window >= 0 ==> a.windowLength == if window <= INTERVAL_HALF_DAY then window else INTERVAL_HOUR)
  {}

  /** A start is refused exactly when the nominal time is past, and silently so. */
  lemma PastStartPreparesNothing(e: TimerEntry, triggerTime: uint64, r: StartReading)
    ensures PrepareAlarm(e, triggerTime, r).None? <==>
            ConvertToElapsed(AsSigned64(triggerTime), e.kind, r.clock) < r.nowElapsed
  {}

  // ---------------------------------------------------------------- rebatching one alarm

  /** ReAddTimerLocked up to the insertion: the alarm with its times converted afresh from
      `origWhen`, or None when that is past. The expected times are left as they were. */
  function Reconverted(a: TimerInfo, c: Clock, nowElapsed: int): Option<TimerInfo> {
    var whenElapsed := ConvertToElapsed(a.origWhen, a.kind, c);
    if whenElapsed < nowElapsed then None
    else
      var maxElapsed :=
        if a.windowLength == 0 then whenElapsed
        else if a.windowLength > 0 then whenElapsed + a.windowLength * NS_PER_MS
        else MaxTriggerTime(nowElapsed, whenElapsed, a.repeatInterval);
      Some(a.(when := a.origWhen, whenElapsed := whenElapsed, maxWhenElapsed := maxElapsed))
  }

  /** A well-shaped alarm never takes the negative-window branch: it is dropped exactly when its
      reconverted time is past and otherwise gets its stored window after that time. */
  lemma ReconvertedShape(a: TimerInfo, c: Clock, nowElapsed: int)
    requires WellShaped(a)
    ensures var t := ConvertToElapsed(a.origWhen, a.kind, c); var r := Reconverted(a, c, nowElapsed);
            && (r.None? <==> t < nowElapsed)
            && (r.Some? ==> WellShaped(r.value) && r.value.id == a.id && r.value.uid == a.uid
                            && r.value.hasCallback == a.hasCallback
                            && r.value.whenElapsed == t
                            && r.value.maxWhenElapsed == t + a.windowLength * NS_PER_MS
                            // only the three times change: the expected ones go stale
                            && r.value == a.(when := r.value.when, whenElapsed := r.value.whenElapsed,
                                             maxWhenElapsed := r.value.maxWhenElapsed)
                            && r.value.when == a.origWhen)
  {}

  // ---------------------------------------------------------------- catching up

  /** `count` after a firing at `now`: one, plus the periods missed since the expected time. */
  function FireCount(a: TimerInfo, now: int): int {
    if a.repeatInterval > 0
    then 1 + TruncDiv(ToMillis(now - a.expectedWhenElapsed), a.repeatInterval)
    else 1
  }

  function Fired(a: TimerInfo, now: int): TimerInfo {
    a.(count := FireCount(a, now))
  }

  /** The alarm a firing at `now` queues in place of the repeating alarm `a`. */
  function Renewal(a: TimerInfo, now: int): TimerInfo {
    var delta := FireCount(a, now) * a.repeatInterval;
    var next := a.whenElapsed + delta * NS_PER_MS;
    NewTimerInfo(a.id, a.kind, a.when + delta, next, a.windowLength, MaxTriggerTime(now, next, a.repeatInterval),
                 a.repeatInterval, a.hasCallback, a.flags, a.uid)
  }

  /** The count is at least one exactly when the alarm fires less than a period before the time it
      was first queued for; a rebatch can make it fire earlier than that. */
  lemma CountPositiveIff(a: TimerInfo, now: int)
    requires 0 < a.repeatInterval
    ensures FireCount(a, now) >= 1 <==> a.expectedWhenElapsed - now < a.repeatInterval * NS_PER_MS
  {
    TruncSign(ToMillis(now - a.expectedWhenElapsed), a.repeatInterval);
  }

  lemma TruncSign(x: int, d: int)
    requires d > 0
    ensures TruncDiv(x, d) >= 0 <==> -d < x
  {
    QuotientZero(if x < 0 then -x else x, d);
  }

  lemma QuotientZero(y: int, d: int)
    requires 0 < d && 0 <= y
    ensures 0 <= y / d && (y / d == 0 <==> y < d)
  {
    DivBounds(y, d);
    QuotientSign(y, d, y / d);
  }

  lemma QuotientSign(y: int, d: int, q: int)
    requires 0 < d && 0 <= y && q * d <= y < (q + 1) * d
    ensures 0 <= q && (q == 0 <==> y < d)
  {
    MulOrder(q + 1, 0, d);
    MulOrder(q + 1, 1, d);
    MulOrder(1, q, d);
  }

  /** `count` is a uint64 and `delta` is computed with it; the wrap-around cancels whenever the
      next time itself fits int64, so an unbounded count describes the code. */
  lemma CountWrapsHarmlessly(whenElapsed: int, count: int, interval: int)
    requires TIME_POINT_MIN <= whenElapsed + count * interval * NS_PER_MS <= TIME_POINT_MAX
    ensures AsSigned64(Wrap64(whenElapsed + Wrap64(Wrap64(count) * interval) * NS_PER_MS)) ==
            whenElapsed + count * interval * NS_PER_MS
  {
    var k1 := WrapDistance(count);
    var k2 := WrapDistance(Wrap64(count) * interval);
    assert Wrap64(count) * interval == count * interval + k1 * interval * TWO_TO_THE_64;
    WrapAgrees(whenElapsed + count * interval * NS_PER_MS,
               whenElapsed + Wrap64(Wrap64(count) * interval) * NS_PER_MS, (k1 * interval + k2) * NS_PER_MS);
  }

  lemma WrapDistance(x: int) returns (k: int)
    ensures Wrap64(x) == x + k * TWO_TO_THE_64
  {
    k := -(x / TWO_TO_THE_64);
  }

  /** Not rebatched since it was queued. */
  predicate OnGrid(a: TimerInfo) {
    a.expectedWhenElapsed == a.whenElapsed
  }

  /** For an alarm not rebatched since it was queued the count is the number of grid points
      in [when, now], and the next one is the first after now. */
  lemma CatchUpCountsGridPoints(a: TimerInfo, now: int)
    requires OnGrid(a) && 0 < a.repeatInterval && a.whenElapsed <= now
    ensures FireCount(a, now) == GridPoints(a.whenElapsed, a.repeatInterval * NS_PER_MS, now)
    ensures now < Renewal(a, now).whenElapsed <= now + a.repeatInterval * NS_PER_MS
  {
    var period := a.repeatInterval * NS_PER_MS;
    TruncTwice(now - a.whenElapsed, NS_PER_MS, a.repeatInterval);
    GridPointsBracket(a.whenElapsed, period, now);
    RenewalTime(a, now);
  }

  /** The exact conditions for an alarm a rebatch may have moved: its renewal is ahead of now, so
      that it is not due again in the same round, unless it was brought forward too far; and its
      count is the number of grid points unless it was pushed back or brought forward too far.
      What is too far depends on the phase of the expected grid at now. */
  lemma CatchUpExact(a: TimerInfo, now: int)
    requires 0 < a.repeatInterval && a.whenElapsed <= now
    ensures var p, expected := a.repeatInterval * NS_PER_MS, a.expectedWhenElapsed;
            && (now < Renewal(a, now).whenElapsed <==>
                  if expected <= now then expected - a.whenElapsed < p - (now - expected) % p
                  else expected - now < p && now - a.whenElapsed < p)
            && (FireCount(a, now) == GridPoints(a.whenElapsed, p, now) <==>
                  && now < Renewal(a, now).whenElapsed
                  && (expected <= now ==> a.whenElapsed - expected <= (now - expected) % p))
  {
    CountFromExpected(a, now);
    RenewalTime(a, now);
    if a.expectedWhenElapsed <= now {
      ExpectedPast(a.whenElapsed, a.expectedWhenElapsed, a.repeatInterval * NS_PER_MS, now);
    } else {
      ExpectedAhead(a.whenElapsed, a.expectedWhenElapsed, a.repeatInterval * NS_PER_MS, now);
    }
  }

  lemma ExpectedPast(first: int, expected: int, period: int, now: int)
    requires 0 < period && first <= now && expected <= now
    ensures var q, r := (now - expected) / period, (now - expected) % period;
            && (now < first + (1 + q) * period <==> expected - first < period - r)
            && (GridPoints(first, period, now) == 1 + q <==> now < first + (1 + q) * period && first - expected <= r)
  {
    var q := (now - expected) / period;
    GridCountIs(first, period, now, q);
    assert (1 + q) * period == q * period + period;
    assert now - expected == q * period + (now - expected) % period;
  }

  lemma ExpectedAhead(first: int, expected: int, period: int, now: int)
    requires 0 < period && first <= now < expected
    ensures var m := (expected - now) / period;
            && (now < first + (1 - m) * period <==> expected - now < period && now - first < period)
            && (GridPoints(first, period, now) == 1 - m <==> now < first + (1 - m) * period)
  {
    var m := (expected - now) / period;
    QuotientZero(expected - now, period);
    GridPointsBracket(first, period, now);
    GridCountIs(first, period, now, 0);
    if m > 0 {
      MulOrder(1 - m, 0, period);
    }
  }

  lemma GridCountIs(first: int, period: int, now: int, q: int)
    requires 0 < period && first <= now
    ensures GridPoints(first, period, now) == 1 + q <==> q * period <= now - first < q * period + period
  {
    assert (q + 1) * period == q * period + period;
    if q * period <= now - first < q * period + period {
      QuotientIs(now - first, period, q);
    }
    DivBounds(now - first, period);
  }

  /** The count in terms of the distance to the expected time, on either side of it. */
  lemma CountFromExpected(a: TimerInfo, now: int)
    requires 0 < a.repeatInterval
    ensures var p, expected := a.repeatInterval * NS_PER_MS, a.expectedWhenElapsed;
            FireCount(a, now) == if expected <= now then 1 + (now - expected) / p else 1 - (expected - now) / p
  {
    if a.expectedWhenElapsed <= now {
      MissedPeriods(now - a.expectedWhenElapsed, a.repeatInterval);
    } else {
      MissedPeriods(a.expectedWhenElapsed - now, a.repeatInterval);
      TruncNegates(a.expectedWhenElapsed - now, a.repeatInterval);
    }
  }

  lemma MissedPeriods(x: int, interval: int)
    requires 0 <= x && 0 < interval
    ensures TruncDiv(ToMillis(x), interval) == x / (interval * NS_PER_MS)
  {
    TruncTwice(x, NS_PER_MS, interval);
    assert NS_PER_MS * interval == interval * NS_PER_MS;
  }

  lemma TruncNegates(x: int, interval: int)
    requires 0 <= x && 0 < interval
    ensures TruncDiv(ToMillis(-x), interval) == -TruncDiv(ToMillis(x), interval)
  {
    TruncOdd(x, NS_PER_MS);
    QuotientZero(x, NS_PER_MS);
    TruncOdd(ToMillis(x), interval);
  }

  lemma TruncOdd(x: int, d: int)
    requires 0 <= x && 0 < d
    ensures TruncDiv(-x, d) == -TruncDiv(x, d)
  {
    QuotientZero(x, d);
  }

  /** How many of first, first + period, first + 2 * period, ... are at or before now. */
  function GridPoints(first: int, period: int, now: int): int
    requires 0 < period && first <= now
  {
    1 + (now - first) / period
  }

  lemma GridPointsBracket(first: int, period: int, now: int)
    requires 0 < period && first <= now
    ensures var n := GridPoints(first, period, now);
            1 <= n && first + n * period - period <= now < first + n * period
  {
    var q := (now - first) / period;
    assert (q + 1) * period == q * period + period;
  }

  lemma RenewalTime(a: TimerInfo, now: int)
    ensures Renewal(a, now).whenElapsed == a.whenElapsed + FireCount(a, now) * (a.repeatInterval * NS_PER_MS)
    ensures Renewal(a, now).when == a.when + FireCount(a, now) * a.repeatInterval
  {
    var n := FireCount(a, now);
    assert n * a.repeatInterval * NS_PER_MS == n * (a.repeatInterval * NS_PER_MS);
  }

  /** Firing again and again, each time when the alarm is due, misses and repeats no grid point:
      the counts add up to the grid points passed, and both clocks of the alarm moved by exactly
      that many periods. */
  lemma {:induction false} CountsSumWithoutDrift(a: TimerInfo, nows: seq<int>)
    requires OnGrid(a) && 0 < a.repeatInterval && nows != [] && DueEachTime(a, nows)
    ensures a.whenElapsed <= nows[|nows| - 1]
    ensures SumOfCounts(a, nows) == GridPoints(a.whenElapsed, a.repeatInterval * NS_PER_MS, nows[|nows| - 1])
    ensures LastRenewal(a, nows).whenElapsed == a.whenElapsed + SumOfCounts(a, nows) * (a.repeatInterval * NS_PER_MS)
    ensures LastRenewal(a, nows).when == a.when + SumOfCounts(a, nows) * a.repeatInterval
  {
    CountsSum(a, nows);
    NoDrift(a, nows);
  }

  lemma {:induction false} CountsSum(a: TimerInfo, nows: seq<int>)
    requires OnGrid(a) && 0 < a.repeatInterval && nows != [] && DueEachTime(a, nows)
    ensures a.whenElapsed <= nows[|nows| - 1]
    ensures SumOfCounts(a, nows) == GridPoints(a.whenElapsed, a.repeatInterval * NS_PER_MS, nows[|nows| - 1])
    decreases |nows|
  {
    var b, rest := Renewal(a, nows[0]), nows[1..];
    CatchUpCountsGridPoints(a, nows[0]);
    if rest == [] {
      assert SumOfCounts(b, rest) == 0;
    } else {
      CountsSum(b, rest);
      GridPointsBracket(a.whenElapsed, a.repeatInterval * NS_PER_MS, nows[0]);
      RenewalTime(a, nows[0]);
      GridShift(a.whenElapsed, a.repeatInterval * NS_PER_MS, FireCount(a, nows[0]), rest[|rest| - 1]);
    }
  }

  lemma {:induction false} NoDrift(a: TimerInfo, nows: seq<int>)
    ensures LastRenewal(a, nows).whenElapsed == a.whenElapsed + SumOfCounts(a, nows) * (a.repeatInterval * NS_PER_MS)
    ensures LastRenewal(a, nows).when == a.when + SumOfCounts(a, nows) * a.repeatInterval
    decreases |nows|
  {
    if nows != [] {
      var n, m := FireCount(a, nows[0]), SumOfCounts(Renewal(a, nows[0]), nows[1..]);
      RenewalTime(a, nows[0]);
      NoDrift(Renewal(a, nows[0]), nows[1..]);
      AddCounts(n, m, a.repeatInterval * NS_PER_MS);
      AddCounts(n, m, a.repeatInterval);
    }
  }

  lemma AddCounts(n: int, m: int, d: int)
    ensures n * d + m * d == (n + m) * d
  {}

  lemma GridShift(first: int, period: int, n: nat, now: int)
    requires 0 < period && first + n * period <= now
    ensures first <= now
    ensures GridPoints(first, period, now) == n + GridPoints(first + n * period, period, now)
  {
    MulOrder(0, n, period);
    var q := (now - first - n * period) / period;
    assert (n + q) * period == n * period + q * period;
    assert (n + q + 1) * period == n * period + q * period + period;
    QuotientIs(now - first, period, n + q);
  }

  /** `nows` are firing times of the alarm and its renewals, none of them early. */
  ghost predicate DueEachTime(a: TimerInfo, nows: seq<int>)
    decreases |nows|
  {
    nows != [] ==> a.whenElapsed <= nows[0] && DueEachTime(Renewal(a, nows[0]), nows[1..])
  }

  ghost function SumOfCounts(a: TimerInfo, nows: seq<int>): int
    decreases |nows|
  {
    if nows == [] then 0 else FireCount(a, nows[0]) + SumOfCounts(Renewal(a, nows[0]), nows[1..])
  }

  ghost function LastRenewal(a: TimerInfo, nows: seq<int>): TimerInfo
    decreases |nows|
  {
    if nows == [] then a else LastRenewal(Renewal(a, nows[0]), nows[1..])
  }

  /** A renewal is well shaped even when the alarm it replaces was rebatched, its window is
      three quarters of its period, and it counts as not rebatched. */
  lemma RenewalShape(a: TimerInfo, now: int)
    requires WellShaped(a) && 0 < a.repeatInterval
    ensures var b := Renewal(a, now);
            && OnGrid(b) && b.id == a.id && b.uid == a.uid && b.hasCallback == a.hasCallback && b.flags == a.flags
            && b.repeatInterval == a.repeatInterval && b.windowLength == a.windowLength && b.kind == a.kind
            && b.origWhen == b.when && b.when - a.when == FireCount(a, now) * a.repeatInterval
            && b.whenElapsed <= b.maxWhenElapsed < b.whenElapsed + b.repeatInterval * NS_PER_MS
            && var window := ToMillis(b.maxWhenElapsed - b.whenElapsed);
            && b.maxWhenElapsed == b.whenElapsed + window * NS_PER_MS && IsFuzz(window, a.repeatInterval)
  {
    var next := Renewal(a, now).whenElapsed;
    RenewalTime(a, now);
    MaxTriggerTimeWindow(now, next, a.repeatInterval);
    WholeMillis(now, next, a.repeatInterval);
  }
}
