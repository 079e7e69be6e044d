/** The list of batches, ordered by start: coalescing an alarm into it, the two kernel deadlines
    armed for it, and what insertion keeps.

    `Code` chooses between the program as written and the same program with its three slips
    repaired (an index that never moves, a flag overwritten in a loop, an erasure from a copy).
    Functions that do not mention `Code` are the same in both. */
module BatchLists {
  import opened Units
  import opened TimerInfos
  import opened Batches

  datatype Code = AsWritten | Repaired

  /** Deadlines last armed for ELAPSED_REALTIME_WAKEUP and for ELAPSED_REALTIME. */
  datatype Armed = Armed(wakeup: Option<int>, nonWakeup: Option<int>)

  datatype Schedule = Schedule(batches: seq<BatchState>, armed: Armed)

  // ---------------------------------------------------------------- contents

  /** All queued alarms, batch by batch. */
  function Queue(bs: seq<BatchState>): seq<TimerInfo> {
    if bs == [] then [] else bs[0].alarms + Queue(bs[1..])
  }

  ghost function Timers(bs: seq<BatchState>): multiset<TimerInfo> {
    multiset(Queue(bs))
  }

  lemma {:induction false} QueueConcat(x: seq<BatchState>, y: seq<BatchState>)
    ensures Queue(x + y) == Queue(x) + Queue(y)
    decreases |x|
  {
    if x == [] {
      assert x + y == y;
    } else {
      assert (x + y)[1..] == x[1..] + y;
      QueueConcat(x[1..], y);
    }
  }

  lemma QueueSingle(b: BatchState)
    ensures Queue([b]) == b.alarms
  {
    assert [b][1..] == [];
  }

  lemma TimersAround(x: seq<BatchState>, b: BatchState, y: seq<BatchState>)
    ensures Timers(x + [b] + y) == Timers(x + y) + multiset(b.alarms)
  {
    QueueConcat(x, [b]);
    QueueSingle(b);
    QueueConcat(x + [b], y);
    QueueConcat(x, y);
  }

  lemma {:induction false} QueueMembers(bs: seq<BatchState>, a: TimerInfo)
    ensures a in Queue(bs) <==> exists b :: b in bs && a in b.alarms
    decreases |bs|
  {
    if bs != [] {
      assert bs == [bs[0]] + bs[1..];
      QueueMembers(bs[1..], a);
      assert bs[0] in bs;
    }
  }

  // ---------------------------------------------------------------- coalescing

  function Starts(bs: seq<BatchState>): (s: seq<int>)
    ensures |s| == |bs|
    ensures forall i :: 0 <= i < |s| ==> s[i] == bs[i].start
  {
    seq(|bs|, i requires 0 <= i < |bs| => bs[i].start)
  }

  function PlaceOf(bs: seq<BatchState>, b: BatchState): (p: nat)
    ensures p <= |bs|
  {
    UpperBound(Starts(bs), b.start, 0, |bs|)
  }

  function AddBatch(bs: seq<BatchState>, b: BatchState): seq<BatchState> {
    var p := PlaceOf(bs, b);
    bs[..p] + [b] + bs[p..]
  }

  /** The test AttemptCoalesceLocked makes of one batch. */
  predicate Accepts(b: BatchState, whenElapsed: int, maxWhen: int) {
    !IsStandalone(b.flags) && CanHold(b, whenElapsed, maxWhen)
  }

  /** Index of the first batch, from `i` on, that accepts the window; -1 if there is none. */
  function FirstAccepting(bs: seq<BatchState>, whenElapsed: int, maxWhen: int, i: nat): (k: int)
    requires i <= |bs|
    ensures k == -1 || i <= k < |bs|
    ensures k == -1 ==> forall j :: i <= j < |bs| ==> !Accepts(bs[j], whenElapsed, maxWhen)
    ensures k != -1 ==> Accepts(bs[k], whenElapsed, maxWhen) &&
                        forall j :: i <= j < k ==> !Accepts(bs[j], whenElapsed, maxWhen)
    decreases |bs| - i
  {
    if i == |bs| then -1
    else if Accepts(bs[i], whenElapsed, maxWhen) then i
    else FirstAccepting(bs, whenElapsed, maxWhen, i + 1)
  }

  /** AttemptCoalesceLocked. As written its counter stays 0 while the loop walks the list. */
  function AttemptCoalesce(code: Code, bs: seq<BatchState>, whenElapsed: int, maxWhen: int): (k: int)
    ensures k == -1 || 0 <= k < |bs|
  {
    var k := FirstAccepting(bs, whenElapsed, maxWhen, 0);
    if k == -1 then -1 else if code.AsWritten? then 0 else k
  }

  function WhichBatch(code: Code, bs: seq<BatchState>, a: TimerInfo): (k: int)
    ensures k == -1 || 0 <= k < |bs|
  {
    if IsStandalone(a.flags) then -1 else AttemptCoalesce(code, bs, a.whenElapsed, a.maxWhenElapsed)
  }

  /** InsertAndBatchTimerLocked. */
  function Insert(code: Code, bs: seq<BatchState>, a: TimerInfo): seq<BatchState> {
    var k := WhichBatch(code, bs, a);
    if k == -1 then AddBatch(bs, Seed(a)) else Replace(bs, k, Added(bs[k], a))
  }

  /** Put `b` in the place of batch `k`, or where its new start belongs. */
  function Replace(bs: seq<BatchState>, k: nat, b: BatchState): seq<BatchState>
    requires k < |bs|
  {
    if b.start != bs[k].start then AddBatch(bs[..k] + bs[k + 1..], b) else bs[k := b]
  }

  lemma AddBatchTimers(bs: seq<BatchState>, b: BatchState)
    ensures Timers(AddBatch(bs, b)) == Timers(bs) + multiset(b.alarms)
  {
    var p := PlaceOf(bs, b);
    TimersAround(bs[..p], b, bs[p..]);
    assert bs == bs[..p] + bs[p..];
  }

  lemma ReplaceTimers(bs: seq<BatchState>, k: nat, b: BatchState)
    requires k < |bs|
    ensures Timers(Replace(bs, k, b)) + multiset(bs[k].alarms) == Timers(bs) + multiset(b.alarms)
  {
    var x, y := bs[..k], bs[k + 1..];
    assert bs == x + [bs[k]] + y && bs[k := b] == x + [b] + y;
    TimersAround(x, bs[k], y);
    if b.start != bs[k].start {
      AddBatchTimers(x + y, b);
    } else {
      TimersAround(x, b, y);
    }
  }

  /** Insertion queues exactly one more alarm, wherever it coalesces. */
  lemma InsertTimers(code: Code, bs: seq<BatchState>, a: TimerInfo)
    ensures Timers(Insert(code, bs, a)) == Timers(bs) + multiset{a}
  {
    var k := WhichBatch(code, bs, a);
    if k == -1 {
      AddBatchTimers(bs, Seed(a));
    } else {
      AddedTimers(bs[k], a);
      ReplaceTimers(bs, k, Added(bs[k], a));
      CancelCommon(Timers(Insert(code, bs, a)), multiset(bs[k].alarms), Timers(bs), multiset{a});
    }
  }

  lemma CancelCommon(x: multiset<TimerInfo>, common: multiset<TimerInfo>, y: multiset<TimerInfo>, z: multiset<TimerInfo>)
    requires x + common == y + (common + z)
    ensures x == y + z
  {
    forall a ensures x[a] == (y + z)[a] {
      assert (x + common)[a] == (y + (common + z))[a];
    }
  }

  lemma AddBatchMembers(bs: seq<BatchState>, t: BatchState, b: BatchState)
    ensures b in AddBatch(bs, t) <==> b == t || b in bs
  {
    var p := PlaceOf(bs, t);
    assert bs == bs[..p] + bs[p..];
  }

  lemma ReplaceMembers(bs: seq<BatchState>, k: nat, t: BatchState)
    requires k < |bs|
    ensures t in Replace(bs, k, t)
    ensures forall b :: b in Replace(bs, k, t) ==> b == t || b in bs
  {
    var r := bs[..k] + bs[k + 1..];
    if t.start != bs[k].start {
      AddBatchMembers(r, t, t);
      forall b | b in Replace(bs, k, t) ensures b == t || b in bs {
        AddBatchMembers(r, t, b);
      }
    } else {
      assert bs[k := t][k] == t;
    }
  }

  /** Insertion changes one batch: whatever holds of every batch before and of the new or
      extended batch holds of every batch after. */
  lemma InsertForAll(code: Code, bs: seq<BatchState>, a: TimerInfo, P: BatchState -> bool)
    requires forall b :: b in bs ==> P(b)
    requires P(Touched(code, bs, a))
    ensures forall b :: b in Insert(code, bs, a) ==> P(b)
  {
    TouchedIsIn(code, bs, a);
  }

  /** The batch the alarm ends up in. */
  function Touched(code: Code, bs: seq<BatchState>, a: TimerInfo): BatchState {
    var k := WhichBatch(code, bs, a);
    if k == -1 then Seed(a) else Added(bs[k], a)
  }

  lemma TouchedIsIn(code: Code, bs: seq<BatchState>, a: TimerInfo)
    ensures Touched(code, bs, a) in Insert(code, bs, a)
    ensures forall b :: b in Insert(code, bs, a) ==> b == Touched(code, bs, a) || b in bs
  {
    var k, t := WhichBatch(code, bs, a), Touched(code, bs, a);
    if k == -1 {
      AddBatchMembers(bs, t, t);
      forall b | b in AddBatch(bs, t) ensures b == t || b in bs {
        AddBatchMembers(bs, t, b);
      }
    } else {
      ReplaceMembers(bs, k, t);
    }
  }

  // ---------------------------------------------------------------- order

  ghost predicate Sorted(bs: seq<BatchState>) {
    forall i, j :: 0 <= i < j < |bs| ==> bs[i].start <= bs[j].start
  }

  /** In a sorted list the place of a batch is the one behind every batch that starts no later. */
  lemma PlacedAt(bs: seq<BatchState>, b: BatchState, p: nat)
    requires Sorted(bs) && p <= |bs|
    requires forall i :: 0 <= i < p ==> bs[i].start <= b.start
    requires forall i :: p <= i < |bs| ==> b.start < bs[i].start
    ensures AddBatch(bs, b) == bs[..p] + [b] + bs[p..]
  {
    var s := Starts(bs);
    UpperBoundSplits(s, b.start, 0, |s|);
    var q := PlaceOf(bs, b);
    assert q < |bs| ==> s[q] == bs[q].start;
    assert p < |bs| ==> s[p] == bs[p].start;
  }

  lemma AddBatchSorted(bs: seq<BatchState>, b: BatchState)
    requires Sorted(bs)
    ensures Sorted(AddBatch(bs, b))
  {
    var s := Starts(bs);
    UpperBoundSplits(s, b.start, 0, |s|);
    var p := PlaceOf(bs, b);
    var x, y := bs[..p], bs[p..];
    forall i | 0 <= i < |x| ensures x[i].start <= b.start {
      assert x[i] == bs[i] && s[i] <= b.start;
    }
    forall i | 0 <= i < |y| ensures b.start < y[i].start {
      assert y[i] == bs[p + i] && b.start < s[p + i];
    }
    SortedAround(x, b, y);
  }

  lemma SortedAround(x: seq<BatchState>, b: BatchState, y: seq<BatchState>)
    requires Sorted(x) && Sorted(y)
    requires forall i :: 0 <= i < |x| ==> x[i].start <= b.start
    requires forall i :: 0 <= i < |y| ==> b.start <= y[i].start
    ensures Sorted(x + [b] + y)
  {
    var r := x + [b] + y;
    forall i, j | 0 <= i < j < |r| ensures r[i].start <= r[j].start {
      if j > |x| {
        assert r[j] == y[j - |x| - 1];
        if i > |x| {
          assert r[i] == y[i - |x| - 1];
        }
      }
    }
  }

  /** Insertion keeps the list sorted, as written too: a batch is moved exactly when its start
      rises. */
  lemma InsertSorted(code: Code, bs: seq<BatchState>, a: TimerInfo)
    requires Sorted(bs)
    ensures Sorted(Insert(code, bs, a))
  {
    var k := WhichBatch(code, bs, a);
    if k == -1 {
      AddBatchSorted(bs, Seed(a));
    } else {
      ReplaceSorted(bs, k, Added(bs[k], a));
    }
  }

  lemma ReplaceSorted(bs: seq<BatchState>, k: nat, b: BatchState)
    requires Sorted(bs) && k < |bs|
    ensures Sorted(Replace(bs, k, b))
  {
    if b.start != bs[k].start {
      ErasedSorted(bs, k);
      AddBatchSorted(bs[..k] + bs[k + 1..], b);
    }
  }

  lemma ErasedSorted(bs: seq<BatchState>, k: nat)
    requires Sorted(bs) && k < |bs|
    ensures Sorted(bs[..k] + bs[k + 1..])
  {
    var r := bs[..k] + bs[k + 1..];
    forall i, j | 0 <= i < j < |r| ensures r[i].start <= r[j].start {
      assert r[i] == bs[if i < k then i else i + 1];
      assert r[j] == bs[if j < k then j else j + 1];
    }
  }

  // ---------------------------------------------------------------- windows

  /** A batch never starts before one of its alarms is due and never claims to end after one of
      them must be served; it shows the STANDALONE bit of each of its alarms, keeps them ordered
      and caches what a scan of them would give. */
  ghost predicate Holds(b: BatchState) {
    && b.alarms != [] && Cached(b)
    && forall a :: a in b.alarms ==>
         a.whenElapsed <= b.start && b.end <= a.maxWhenElapsed && (IsStandalone(a.flags) ==> IsStandalone(b.flags))
  }

  /** The common window is not empty and a standalone alarm is alone. */
  ghost predicate Fits(b: BatchState) {
    b.start <= b.end && (IsStandalone(b.flags) ==> |b.alarms| == 1)
  }

  ghost predicate AllHold(bs: seq<BatchState>) {
    forall b :: b in bs ==> Holds(b)
  }

  ghost predicate AllFit(bs: seq<BatchState>) {
    forall b :: b in bs ==> Fits(b)
  }

  lemma AddedHolds(b: BatchState, a: TimerInfo)
    requires Holds(b)
    ensures Holds(Added(b, a))
  {
    var p := Slot(b.alarms, a.whenElapsed);
    assert b.alarms == b.alarms[..p] + b.alarms[p..];
    AddedCached(b, a);
    forall c | c in Added(b, a).alarms ensures c in b.alarms || c == a {}
  }

  lemma InsertHolds(code: Code, bs: seq<BatchState>, a: TimerInfo)
    requires AllHold(bs)
    ensures AllHold(Insert(code, bs, a))
  {
    var k := WhichBatch(code, bs, a);
    SeedCached(a);
    if k != -1 {
      assert bs[k] in bs;
      AddedHolds(bs[k], a);
    }
    InsertForAll(code, bs, a, b => Holds(b));
  }

  /** Extending a compatible batch keeps it compatible exactly when the windows meet and the
      batch is not standalone. */
  lemma AddedFitsIff(b: BatchState, a: TimerInfo)
    requires Holds(b) && Fits(b) && a.whenElapsed <= a.maxWhenElapsed && !IsStandalone(a.flags)
    ensures Fits(Added(b, a)) <==>
            !IsStandalone(b.flags) && a.whenElapsed <= b.end && b.start <= a.maxWhenElapsed
  {
    assert |Added(b, a).alarms| == |b.alarms| + 1;
  }

  /** The test itself is the meeting of the two closed windows, minus one case: an alarm starting
      exactly where the batch ends is turned away. So two alarms for the same instant without
      windows never share a batch. */
  lemma CanHoldIff(b: BatchState, whenElapsed: int, maxWhen: int)
    requires b.start <= b.end && whenElapsed <= maxWhen
    ensures CanHold(b, whenElapsed, maxWhen) <==>
            Max(b.start, whenElapsed) <= Min(b.end, maxWhen) && whenElapsed != b.end
  {}

  /** Repaired coalescing joins the batch that passed the test, so windows stay compatible. */
  lemma InsertFits(bs: seq<BatchState>, a: TimerInfo)
    requires AllFit(bs) && AllHold(bs) && a.whenElapsed <= a.maxWhenElapsed
    ensures AllFit(Insert(Repaired, bs, a))
  {
    var k := WhichBatch(Repaired, bs, a);
    if k != -1 {
      assert bs[k] in bs;
      AddedFitsIff(bs[k], a);
    }
    InsertForAll(Repaired, bs, a, b => Fits(b));
  }

  /** As written, insertion keeps the windows compatible exactly when the alarm starts a batch of
      its own or the first batch could take it. */
  lemma InsertFitsAsWrittenIff(bs: seq<BatchState>, a: TimerInfo)
    requires AllFit(bs) && AllHold(bs) && a.whenElapsed <= a.maxWhenElapsed
    ensures AllFit(Insert(AsWritten, bs, a)) <==>
            || WhichBatch(AsWritten, bs, a) == -1
            || (!IsStandalone(bs[0].flags) && a.whenElapsed <= bs[0].end && bs[0].start <= a.maxWhenElapsed)
  {
    if WhichBatch(AsWritten, bs, a) != -1 {
      assert bs[0] in bs;
      AddedFitsIff(bs[0], a);
    }
    TouchedIsIn(AsWritten, bs, a);
    if Fits(Touched(AsWritten, bs, a)) {
      InsertForAll(AsWritten, bs, a, b => Fits(b));
    }
  }

  /** On a sound batch with a window the test says whether the batch, extended by the alarm, would
      still be one, except for the alarm that starts where the batch ends. */
  lemma AcceptsIff(b: BatchState, a: TimerInfo)
    requires Holds(b) && Fits(b) && a.whenElapsed <= a.maxWhenElapsed && !IsStandalone(a.flags)
    ensures Accepts(b, a.whenElapsed, a.maxWhenElapsed) <==> Fits(Added(b, a)) && a.whenElapsed != b.end
  {
    AddedFitsIff(b, a);
  }

  /** The alarm may share this batch: neither wants to be alone, it starts before the batch must be
      served and may wait for the batch to start. */
  predicate MayShare(b: BatchState, a: TimerInfo) {
    && !IsStandalone(a.flags) && !IsStandalone(b.flags)
    && a.whenElapsed < b.end && b.start <= a.maxWhenElapsed
  }

  /** `r` is `bs` with `b` put in at some place, the others in order. */
  ghost predicate PutIn(r: seq<BatchState>, b: BatchState, bs: seq<BatchState>) {
    exists p :: 0 <= p <= |bs| && r == bs[..p] + [b] + bs[p..]
  }

  /** Batch `k` is the one the alarm shares: repaired the first it may, as written the first of all,
      provided that it may share some batch. */
  ghost predicate Hosts(code: Code, bs: seq<BatchState>, a: TimerInfo, k: int) {
    && 0 <= k < |bs|
    && (exists b :: b in bs && MayShare(b, a))
    && if code.AsWritten? then k == 0 else MayShare(bs[k], a) && forall j :: 0 <= j < k ==> !MayShare(bs[j], a)
  }

  /** Insertion coalesces whenever it can: an alarm that may share some batch grows one batch and
      leaves their number, any other one makes a batch of its own; no other batch changes. */
  lemma InsertCoalesces(code: Code, bs: seq<BatchState>, a: TimerInfo)
    ensures var r := Insert(code, bs, a);
            if exists b :: b in bs && MayShare(b, a) then
              && |r| == |bs|
              && exists k :: Hosts(code, bs, a, k) && PutIn(r, Added(bs[k], a), bs[..k] + bs[k + 1..])
            else |r| == |bs| + 1 && PutIn(r, Seed(a), bs)
  {
    var k := WhichBatch(code, bs, a);
    HostIs(code, bs, a);
    if k != -1 {
      ReplacePuts(bs, k, Added(bs[k], a));
      assert Hosts(code, bs, a, k);
    }
  }

  lemma HostIs(code: Code, bs: seq<BatchState>, a: TimerInfo)
    ensures var k := WhichBatch(code, bs, a);
            && (k == -1 <==> forall b :: b in bs ==> !MayShare(b, a))
            && (k != -1 ==> Hosts(code, bs, a, k))
  {
    var first := FirstAccepting(bs, a.whenElapsed, a.maxWhenElapsed, 0);
    if first != -1 {
      assert bs[first] in bs;
    }
  }

  lemma ReplacePuts(bs: seq<BatchState>, k: nat, b: BatchState)
    requires k < |bs|
    ensures |Replace(bs, k, b)| == |bs| && PutIn(Replace(bs, k, b), b, bs[..k] + bs[k + 1..])
  {
    var others := bs[..k] + bs[k + 1..];
    if b.start == bs[k].start {
      assert others[..k] == bs[..k] && others[k..] == bs[k + 1..];
      assert bs[k := b] == others[..k] + [b] + others[k..];
    }
  }

  /** Inserting alarms one after the other. */
  function InsertAll(code: Code, bs: seq<BatchState>, alarms: seq<TimerInfo>): seq<BatchState>
    decreases |alarms|
  {
    if alarms == [] then bs else InsertAll(code, Insert(code, bs, alarms[0]), alarms[1..])
  }

  /** The two programs coalesce alike exactly when the first accepting batch is the first batch
      or there is none. */
  lemma CoalesceAgreesIff(bs: seq<BatchState>, whenElapsed: int, maxWhen: int)
    ensures AttemptCoalesce(AsWritten, bs, whenElapsed, maxWhen) == AttemptCoalesce(Repaired, bs, whenElapsed, maxWhen)
            <==> (bs == [] || Accepts(bs[0], whenElapsed, maxWhen)
                  || forall j :: 0 <= j < |bs| ==> !Accepts(bs[j], whenElapsed, maxWhen))
  {}

  // ---------------------------------------------------------------- arming

  /** FindFirstWakeupBatchLocked from index `i` on; -1 for none. */
  function FirstWakeup(bs: seq<BatchState>, i: nat): (k: int)
    requires i <= |bs|
    ensures k == -1 || i <= k < |bs|
    ensures k == -1 ==> forall j :: i <= j < |bs| ==> !HasWakeups(bs[j].alarms)
    ensures k != -1 ==> HasWakeups(bs[k].alarms) && forall j :: i <= j < k ==> !HasWakeups(bs[j].alarms)
    decreases |bs| - i
  {
    if i == |bs| then -1
    else if HasWakeups(bs[i].alarms) then i
    else FirstWakeup(bs, i + 1)
  }

  /** RescheduleKernelTimerLocked: a deadline it does not set stays as it was. */
  function Reschedule(s: Schedule): Schedule {
    if s.batches == [] then s
    else
      var k := FirstWakeup(s.batches, 0);
      var front := s.batches[0].start;
      s.(armed := Armed(if k != -1 then Some(s.batches[k].start) else s.armed.wakeup,
                        if k != 0 && front != TIME_POINT_MIN then Some(front) else s.armed.nonWakeup))
  }

  /** The deadline is the start of one of the batches, of one with a wake-up alarm if `wake`, and
      comes no later than `time`. */
  ghost predicate ArmedAt(bs: seq<BatchState>, deadline: Option<int>, wake: bool, time: int) {
    exists b :: b in bs && deadline == Some(b.start) && b.start <= time && (wake ==> Wakes(b))
  }

  ghost predicate Wakes(b: BatchState) {
    exists a :: a in b.alarms && WakeupBit(a)
  }

  /** The deadlines armed for the batches of `s` come in time for each of `bs`: some deadline no
      later than its start, and the wake-up deadline if it has a wake-up alarm. */
  ghost predicate Covers(s: Schedule, bs: seq<BatchState>) {
    forall b :: b in bs ==>
      && (ArmedAt(s.batches, s.armed.wakeup, true, b.start) || ArmedAt(s.batches, s.armed.nonWakeup, false, b.start))
      && (Wakes(b) ==> ArmedAt(s.batches, s.armed.wakeup, true, b.start))
  }

  ghost predicate ArmedForAll(s: Schedule) {
    Covers(s, s.batches)
  }

  /** The deadlines are those a re-arming would set. */
  predicate Fresh(s: Schedule) {
    Reschedule(s) == s
  }

  /** The one front start that cannot be armed: it doubles as "no deadline". */
  predicate Armable(bs: seq<BatchState>) {
    bs != [] ==> bs[0].start != TIME_POINT_MIN
  }

  /** Nothing is armed for nothing and nothing is left unarmed: the wake-up deadline is moved to
      the first batch with a wake-up alarm and kept if there is none, the other one is moved to the
      front exactly if the front has no wake-up alarm and can be armed. */
  lemma RescheduleArmsBatches(s: Schedule)
    ensures var bs, r := s.batches, Reschedule(s);
            && r.batches == bs
            && (forall i ::
                  0 <= i < |bs| && HasWakeups(bs[i].alarms) && (forall j :: 0 <= j < i ==> !HasWakeups(bs[j].alarms)) ==>
                    r.armed.wakeup == Some(bs[i].start))
            && ((forall i :: 0 <= i < |bs| ==> !HasWakeups(bs[i].alarms)) ==> r.armed.wakeup == s.armed.wakeup)
            && (bs != [] && !HasWakeups(bs[0].alarms) && Armable(bs) ==> r.armed.nonWakeup == Some(bs[0].start))
            && (bs == [] || HasWakeups(bs[0].alarms) || !Armable(bs) ==> r.armed.nonWakeup == s.armed.nonWakeup)
  {
    if s.batches != [] {
      var k := FirstWakeup(s.batches, 0);
    }
  }

  lemma RescheduleFresh(s: Schedule)
    ensures Reschedule(s).batches == s.batches && Fresh(Reschedule(s))
  {}

  /** The batch does not start before the front of the list or, if it has a wake-up alarm, before
      the first batch of the list with one. */
  predicate NotBefore(bs: seq<BatchState>, b: BatchState) {
    && bs != [] && bs[0].start <= b.start
    && (HasWakeups(b.alarms) ==> var k := FirstWakeup(bs, 0); k != -1 && bs[k].start <= b.start)
  }

  /** Fresh deadlines come in time for a list, the one they were armed for or another, exactly if
      none of its batches starts before what they were armed for. */
  lemma CoversIff(s: Schedule, bs: seq<BatchState>)
    requires Sorted(s.batches) && Armable(s.batches) && Fresh(s)
    ensures Covers(s, bs) <==> forall b :: b in bs ==> NotBefore(s.batches, b)
  {
    forall b | b in bs
      ensures ArmedAt(s.batches, s.armed.wakeup, true, b.start) || ArmedAt(s.batches, s.armed.nonWakeup, false, b.start)
              <==> s.batches != [] && s.batches[0].start <= b.start
      ensures ArmedAt(s.batches, s.armed.wakeup, true, b.start) <==>
              var k := FirstWakeup(s.batches, 0); k != -1 && s.batches[k].start <= b.start
    {
      FrontArmed(s, b.start);
      WakeupArmed(s, b.start);
      HasWakeupsIff(b.alarms);
    }
  }

  lemma FrontArmed(s: Schedule, time: int)
    requires Sorted(s.batches) && Armable(s.batches) && Fresh(s)
    ensures ArmedAt(s.batches, s.armed.wakeup, true, time) || ArmedAt(s.batches, s.armed.nonWakeup, false, time) <==>
            s.batches != [] && s.batches[0].start <= time
  {
    if s.batches != [] {
      assert s.batches[0] in s.batches;
      HasWakeupsIff(s.batches[0].alarms);
    }
  }

  lemma WakeupArmed(s: Schedule, time: int)
    requires Sorted(s.batches) && Fresh(s)
    ensures ArmedAt(s.batches, s.armed.wakeup, true, time) <==>
            var k := FirstWakeup(s.batches, 0); k != -1 && s.batches[k].start <= time
  {
    var k := FirstWakeup(s.batches, 0);
    if k != -1 {
      assert s.batches[k] in s.batches;
      HasWakeupsIff(s.batches[k].alarms);
    }
    if b :| b in s.batches && Wakes(b) {
      HasWakeupsIff(b.alarms);
    }
  }

  /** On a sorted list fresh deadlines come in time for every batch. */
  lemma FreshArms(s: Schedule)
    requires Sorted(s.batches) && Armable(s.batches) && Fresh(s)
    ensures ArmedForAll(s)
  {
    CoversIff(s, s.batches);
    forall b | b in s.batches ensures NotBefore(s.batches, b) {
      var i :| 0 <= i < |s.batches| && s.batches[i] == b;
    }
  }

  lemma RescheduleArms(s: Schedule)
    requires Sorted(s.batches) && Armable(s.batches)
    ensures Reschedule(s).batches == s.batches
    ensures ArmedForAll(Reschedule(s))
  {
    FreshArms(Reschedule(s));
  }

  /** The locked SetHandlerLocked outside a rebatch: insert, then re-arm. */
  function SetAlarm(code: Code, s: Schedule, a: TimerInfo): Schedule {
    Reschedule(s.(batches := Insert(code, s.batches, a)))
  }
}
