/** The mutable manager. Each method is one function of timer_manager.cpp working in place on the
    batch objects, the maps and the armed deadlines, proved against the functions that describe
    the same step on values. */
module TimerManagers {
  import opened Units
  import opened TimerInfos
  import opened Batches
  import opened BatchLists
  import opened Rebatching
  import opened Draining
  import opened Proxying
  import opened Protocol

  ghost function States(bs: seq<Batch>): (s: seq<BatchState>)
    reads bs
    ensures |s| == |bs|
    ensures forall i :: 0 <= i < |s| ==> s[i] == bs[i].State()
  {
    seq(|bs|, i requires 0 <= i < |bs| reads bs => bs[i].State())
  }

  /** The values around position `k`, with and without the batch there. */
  lemma StatesAround(bs: seq<Batch>, k: nat)
    requires k < |bs|
    ensures var x, y := States(bs[..k]), States(bs[k + 1..]);
            && States(bs) == (x + [bs[k].State()]) + y
            && States(bs[..k] + bs[k + 1..]) == x + y
            && States(bs)[..k] == x && States(bs)[k] == bs[k].State() && States(bs)[k + 1..] == y
  {}

  lemma StatesInserted(bs: seq<Batch>, p: nat, b: Batch)
    requires p <= |bs|
    ensures States(bs[..p] + [b] + bs[p..]) == States(bs)[..p] + [b.State()] + States(bs)[p..]
  {}

  predicate Distinct(bs: seq<Batch>) {
    forall i, j :: 0 <= i < j < |bs| ==> bs[i] != bs[j]
  }

  /** std::sort by whenElapsed. */
  method SortByWhen(alarms: seq<TimerInfo>) returns (r: seq<TimerInfo>)
    ensures multiset(r) == multiset(alarms) && Ordered(r)
  {
    r := [];
    for i := 0 to |alarms|
      invariant multiset(r) == multiset(alarms[..i]) && Ordered(r)
    {
      SortStep(r, alarms, i);
      var p := Slot(r, alarms[i].whenElapsed);
      r := r[..p] + [alarms[i]] + r[p..];
    }
    assert alarms[..|alarms|] == alarms;
  }

  lemma SortStep(r: seq<TimerInfo>, alarms: seq<TimerInfo>, i: nat)
    requires i < |alarms| && multiset(r) == multiset(alarms[..i]) && Ordered(r)
    ensures var p := Slot(r, alarms[i].whenElapsed); var s := r[..p] + [alarms[i]] + r[p..];
            multiset(s) == multiset(alarms[..i + 1]) && Ordered(s)
  {
    SlotKeepsOrder(r, alarms[i]);
    InsertedMultiset(r, Slot(r, alarms[i].whenElapsed), alarms[i]);
    PrefixMultiset(alarms, i);
  }

  lemma InsertedMultiset(r: seq<TimerInfo>, p: nat, a: TimerInfo)
    requires p <= |r|
    ensures multiset(r[..p] + [a] + r[p..]) == multiset(r) + multiset{a}
  {
    assert r == r[..p] + r[p..];
  }

  lemma PrefixMultiset(alarms: seq<TimerInfo>, i: nat)
    requires i < |alarms|
    ensures multiset(alarms[..i + 1]) == multiset(alarms[..i]) + multiset{alarms[i]}
  {
    assert alarms[..i + 1] == alarms[..i] + [alarms[i]];
  }

  class TimerManager {
    const code: Code
    var timerEntryMap: map<uint64, TimerEntry>
    var alarmBatches: seq<Batch>
    var armed: Armed
    var lastChange: Option<Clock>
    var proxyUids: set<int>
    var proxyMap: map<int, seq<TimerInfo>>
    ghost var invoked: seq<TimerInfo>

    ghost function Schedule(): Schedule
      reads this, alarmBatches
    {
      BatchLists.Schedule(States(alarmBatches), armed)
    }

    ghost function Proxy(): Proxy
      reads this
    {
      Proxying.Proxy(proxyUids, proxyMap, invoked)
    }

    ghost function View(): Manager
      reads this, alarmBatches
    {
      Manager(timerEntryMap, Schedule(), Proxy(), lastChange)
    }

    ghost function Objects(): set<Batch>
      reads this
    {
      set b | b in alarmBatches
    }

    ghost predicate Valid()
      reads this, alarmBatches
    {
      Distinct(alarmBatches) && AllHold(States(alarmBatches))
    }

    constructor (code: Code)
      ensures Valid() && View() == Init().manager && this.code == code && alarmBatches == []
    {
      this.code := code;
      timerEntryMap, alarmBatches, armed, lastChange := map[], [], Armed(None, None), None;
      proxyUids, proxyMap, invoked := {}, map[], [];
    }

    // -------------------------------------------------------------- batch list

    method AddBatchLocked(b: Batch)
      requires Distinct(alarmBatches) && b !in alarmBatches
      modifies this`alarmBatches
      ensures Distinct(alarmBatches)
      ensures States(alarmBatches) == AddBatch(old(States(alarmBatches)), b.State())
      ensures Objects() == old(Objects()) + {b}
    {
      var bs := alarmBatches;
      ghost var was := States(bs);
      var starts := seq(|bs|, i requires 0 <= i < |bs| reads bs => bs[i].start);
      assert starts == Starts(was);
      var p := UpperBound(starts, b.start, 0, |bs|);
      alarmBatches := bs[..p] + [b] + bs[p..];
      InsertDistinct(bs, p, b);
      StatesInserted(bs, p, b);
    }

    method AttemptCoalesceLocked(whenElapsed: int, maxWhen: int) returns (which: int)
      ensures which == AttemptCoalesce(code, States(alarmBatches), whenElapsed, maxWhen)
    {
      ghost var bs := States(alarmBatches);
      var i := 0;
      for at := 0 to |alarmBatches|
        invariant i == if code.AsWritten? then 0 else at
        invariant FirstAccepting(bs, whenElapsed, maxWhen, 0) == FirstAccepting(bs, whenElapsed, maxWhen, at)
      {
        var item := alarmBatches[at];
        if !IsStandalone(item.flags) && item.Holds(whenElapsed, maxWhen) {
          assert Accepts(bs[at], whenElapsed, maxWhen);
          return i;
        }
        if code.Repaired? {
          i := i + 1;
        }
      }
      return -1;
    }

    method InsertAndBatchTimerLocked(a: TimerInfo)
      requires Distinct(alarmBatches)
      modifies this`alarmBatches, Objects()
      ensures Distinct(alarmBatches)
      ensures States(alarmBatches) == Insert(code, old(States(alarmBatches)), a)
      ensures fresh(Objects() - old(Objects()))
    {
      ghost var was := States(alarmBatches);
      var which := -1;
      if !IsStandalone(a.flags) {
        which := AttemptCoalesceLocked(a.whenElapsed, a.maxWhenElapsed);
      }
      assert which == WhichBatch(code, was, a);
      if which < 0 {
        var b := new Batch.FromSeed(a);
        AddBatchLocked(b);
      } else {
        JoinBatch(which, a);
      }
    }

    /** The second half of InsertAndBatchTimerLocked: extend batch `which` in place and move it if
        its start rose. */
    method JoinBatch(which: nat, a: TimerInfo)
      requires Distinct(alarmBatches) && which < |alarmBatches|
      modifies this`alarmBatches, alarmBatches[which]
      ensures Distinct(alarmBatches)
      ensures var was := old(States(alarmBatches)); States(alarmBatches) == Replace(was, which, Added(was[which], a))
      ensures Objects() <= old(Objects())
    {
      ghost var was := States(alarmBatches);
      var batch := alarmBatches[which];
      var newStart := batch.Add(a);
      assert States(alarmBatches) == was[which := batch.State()];
      if newStart {
        MoveBatch(which);
        assert was[which := batch.State()][..which] == was[..which];
        assert was[which := batch.State()][which + 1..] == was[which + 1..];
      }
    }

    /** Take batch `which` out of the list and put it where its start belongs. */
    method MoveBatch(which: nat)
      requires Distinct(alarmBatches) && which < |alarmBatches|
      modifies this`alarmBatches
      ensures Distinct(alarmBatches) && Objects() <= old(Objects())
      ensures var was := old(States(alarmBatches));
              States(alarmBatches) == AddBatch(was[..which] + was[which + 1..], was[which])
    {
      var batch := alarmBatches[which];
      DropAt(which);
      AddBatchLocked(batch);
    }

    method FindFirstWakeupBatchLocked() returns (k: int)
      ensures k == FirstWakeup(States(alarmBatches), 0)
    {
      ghost var bs := States(alarmBatches);
      k := 0;
      while k < |alarmBatches|
        invariant 0 <= k <= |alarmBatches|
        invariant FirstWakeup(bs, 0) == FirstWakeup(bs, k)
      {
        var wakes := alarmBatches[k].Wakes();
        if wakes {
          return;
        }
        k := k + 1;
      }
      k := -1;
    }

    /** Deadlines are armed by batch; batches are distinct objects, so comparing positions is
        comparing references. */
    method RescheduleKernelTimerLocked()
      modifies this`armed
      ensures Schedule() == Reschedule(old(Schedule()))
    {
      if alarmBatches != [] {
        var firstWakeup := FindFirstWakeupBatchLocked();
        var start := alarmBatches[0].start;
        if firstWakeup >= 0 {
          armed := armed.(wakeup := Some(alarmBatches[firstWakeup].start));
        }
        if firstWakeup != 0 && start != TIME_POINT_MIN {
          armed := armed.(nonWakeup := Some(start));
        }
      }
    }

    method SetHandlerLocked(a: TimerInfo, rebatching: bool)
      requires Distinct(alarmBatches)
      modifies this`alarmBatches, this`armed, Objects()
      ensures Distinct(alarmBatches)
      ensures rebatching ==> Schedule() == old(Schedule()).(batches := Insert(code, old(Schedule()).batches, a))
      ensures !rebatching ==> Schedule() == SetAlarm(code, old(Schedule()), a)
      ensures fresh(Objects() - old(Objects()))
    {
      InsertAndBatchTimerLocked(a);
      if !rebatching {
        RescheduleKernelTimerLocked();
      }
    }

    // -------------------------------------------------------------- rebatching and removal

    method ReAddTimerLocked(a: TimerInfo, c: Clock, nowElapsed: int)
      requires Distinct(alarmBatches)
      modifies this`alarmBatches, this`armed, Objects()
      ensures Distinct(alarmBatches)
      ensures Schedule() == old(Schedule()).(batches := ReAdd(code, old(Schedule()).batches, a, c, nowElapsed))
      ensures fresh(Objects() - old(Objects()))
    {
      match Reconverted(a, c, nowElapsed)
      case None =>
      case Some(b) => SetHandlerLocked(b, true);
    }

    method ReBatchAllTimersLocked(nowElapsed: int, clocks: Readings)
      requires Distinct(alarmBatches)
      modifies this`alarmBatches, this`armed
      ensures Distinct(alarmBatches)
      ensures View() == old(View()).(schedule := Rebatch(code, old(Schedule()), nowElapsed, clocks))
      ensures fresh(Objects())
    {
      var oldSet := alarmBatches;
      alarmBatches := [];
      ReAddBatches(oldSet, nowElapsed, clocks);
      RescheduleKernelTimerLocked();
    }

    /** The outer loop of ReBatchAllTimersLocked. */
    method ReAddBatches(oldSet: seq<Batch>, nowElapsed: int, clocks: Readings)
      requires alarmBatches == []
      modifies this`alarmBatches, this`armed
      ensures Distinct(alarmBatches) && armed == old(armed) && fresh(Objects())
      ensures States(alarmBatches) == ReAddAll(code, [], Queue(old(States(oldSet))), 0, clocks, nowElapsed)
    {
      ghost var was, queue := States(oldSet), Queue(States(oldSet));
      ghost var trace := ReAddTrace(code, queue, clocks, nowElapsed);
      ghost var offsets := QueueOffsets(was);
      var k := 0;
      for at := 0 to |oldSet|
        invariant Distinct(alarmBatches) && armed == old(armed) && fresh(Objects())
        invariant k == offsets[at] && States(alarmBatches) == trace[k]
      {
        var alarms := oldSet[at].alarms;
        assert alarms == was[at].alarms == queue[k..offsets[at + 1]];
        k := ReAddBatchLocked(alarms, k, nowElapsed, clocks, queue, trace);
      }
    }

    /** The inner loop of ReBatchAllTimersLocked; `k` counts the clock readings taken so far. */
    method ReAddBatchLocked(alarms: seq<TimerInfo>, k: nat, nowElapsed: int, clocks: Readings,
                            ghost queue: seq<TimerInfo>, ghost trace: seq<seq<BatchState>>) returns (next: nat)
      requires Distinct(alarmBatches)
      requires IsReAddTrace(code, queue, clocks, nowElapsed, trace)
      requires k + |alarms| <= |queue| && alarms == queue[k..k + |alarms|] && States(alarmBatches) == trace[k]
      modifies this`alarmBatches, this`armed, Objects()
      ensures Distinct(alarmBatches) && armed == old(armed) && fresh(Objects() - old(Objects()))
      ensures next == k + |alarms| && States(alarmBatches) == trace[next]
    {
      next := k;
      for i := 0 to |alarms|
        invariant Distinct(alarmBatches) && armed == old(armed) && fresh(Objects() - old(Objects()))
        invariant next == k + i && States(alarmBatches) == trace[next]
      {
        assert alarms[i] == queue[next];
        ReAddTimerLocked(alarms[i], clocks(next), nowElapsed);
        next := next + 1;
      }
    }

    method RemoveLocked(id: uint64, nowElapsed: int, clocks: Readings)
      requires Valid()
      modifies this`alarmBatches, this`armed, Objects()
      ensures Valid()
      ensures View() == old(View()).(schedule := RemoveTimer(code, old(Schedule()), id, nowElapsed, clocks))
      ensures fresh(Objects() - old(Objects()))
    {
      RemoveHolds(code, Schedule(), id, nowElapsed, clocks);
      var didRemove := StripLocked(id);
      if didRemove {
        ReBatchAllTimersLocked(nowElapsed, clocks);
      }
    }

    /** The erasing loop of RemoveLocked. */
    method StripLocked(id: uint64) returns (didRemove: bool)
      requires Distinct(alarmBatches)
      modifies this`alarmBatches, Objects()
      ensures Distinct(alarmBatches)
      ensures States(alarmBatches) == Stripped(old(States(alarmBatches)), id)
      ensures didRemove == DidRemove(code, old(States(alarmBatches)), id)
      ensures Objects() <= old(Objects())
    {
      didRemove := false;
      ghost var trace := StripTrace(code, States(alarmBatches), id);
      ghost var n := 0;
      var it: nat := 0;
      while it < |alarmBatches|
        invariant it <= |alarmBatches| && n + (|alarmBatches| - it) == |trace| - 1
        invariant Distinct(alarmBatches) && Objects() <= old(Objects())
        invariant n >= 0 && Progress(it, didRemove) == trace[n]
        decreases |alarmBatches| - it
      {
        it, didRemove := StripOne(it, id, didRemove);
        n := n + 1;
      }
    }

    /** The batches kept, the flag, and the batches from `k` on still to be stripped. */
    ghost function Progress(k: nat, didRemove: bool): StripSoFar
      reads this, alarmBatches
      requires k <= |alarmBatches|
      ensures k == |alarmBatches| ==> Progress(k, didRemove) == StripSoFar(States(alarmBatches), didRemove, [])
      ensures k == 0 ==> Progress(k, didRemove) == StripSoFar([], didRemove, States(alarmBatches))
    {
      StripSoFar(States(alarmBatches)[..k], didRemove, States(alarmBatches)[k..])
    }

    /** One round of that loop, on batch `k`. */
    method StripOne(k: nat, id: uint64, didRemove: bool) returns (next: nat, flag: bool)
      requires Distinct(alarmBatches) && k < |alarmBatches|
      modifies this`alarmBatches, Objects()
      ensures Distinct(alarmBatches) && Objects() <= old(Objects())
      ensures next <= |alarmBatches| && |alarmBatches| - next == |old(alarmBatches)| - k - 1
      ensures Progress(next, flag) == StripNext(code, old(Progress(k, didRemove)), id)
    {
      ghost var was := States(alarmBatches);
      StripMoves(code, was, k, didRemove, id);
      var removed := RemoveAt(k, id);
      flag := if code.AsWritten? then removed else didRemove || removed;
      if |alarmBatches[k].alarms| == 0 {
        DropAt(k);
        next := k;
      } else {
        next := k + 1;
      }
    }

    method RemoveAt(k: nat, id: uint64) returns (removed: bool)
      requires Distinct(alarmBatches) && k < |alarmBatches|
      modifies alarmBatches[k]
      ensures var was := old(States(alarmBatches)); States(alarmBatches) == was[k := Removed(was[k], id)]
      ensures removed == HasId(old(States(alarmBatches))[k].alarms, id)
    {
      removed := alarmBatches[k].Remove(id);
    }

    method DropAt(k: nat)
      requires Distinct(alarmBatches) && k < |alarmBatches|
      modifies this`alarmBatches
      ensures Distinct(alarmBatches) && Objects() <= old(Objects()) && old(alarmBatches)[k] !in alarmBatches
      ensures var was := old(States(alarmBatches)); States(alarmBatches) == was[..k] + was[k + 1..]
      ensures |alarmBatches| == |old(alarmBatches)| - 1
    {
      SplitDistinct(alarmBatches, k);
      StatesAround(alarmBatches, k);
      alarmBatches := alarmBatches[..k] + alarmBatches[k + 1..];
    }

    // -------------------------------------------------------------- triggering

    method TriggerTimersLocked(now: int) returns (triggerList: seq<TimerInfo>, hasWakeup: bool)
      requires Valid()
      modifies this`alarmBatches, this`armed, Objects()
      ensures Valid() && fresh(Objects() - old(Objects()))
      ensures Schedule() == Drain(code, old(Schedule()), now).schedule
      ensures TriggerOrder(triggerList, Drain(code, old(Schedule()), now).alarms, now)
      ensures hasWakeup <==> AnyWakeup(triggerList)
    {
      triggerList, hasWakeup := [], false;
      ghost var trace := DrainTrace(code, Schedule(), now);
      ghost var n := 0;
      while |alarmBatches| > 0
        invariant Distinct(alarmBatches) && fresh(Objects() - old(Objects()))
        invariant 0 <= n < |trace| && Schedule() == trace[n].schedule
        invariant triggerList == FireAll(trace[n].alarms, now)
        invariant hasWakeup <==> AnyWakeup(triggerList)
        decreases |trace| - n
      {
        assert Schedule().batches[0] == alarmBatches[0].State();
        if alarmBatches[0].start > now {
          break;
        }
        assert Round(code, trace[n], trace[n + 1], now);
        FireAllConcat(trace[n].alarms, Schedule().batches[0].alarms, now);
        var list, wakes := TriggerFront(now);
        AnyWakeupConcat(triggerList, list);
        triggerList, hasWakeup, n := triggerList + list, hasWakeup || wakes, n + 1;
      }
      assert n == |trace| - 1 by {
        assert n < |trace| - 1 ==> Round(code, trace[n], trace[n + 1], now);
      }
      var sorted := SortByWhen(triggerList);
      AnyWakeupPermuted(sorted, triggerList);
      triggerList := sorted;
    }

    /** One round of the outer loop: take the first batch off the list and trigger its alarms. */
    method TriggerFront(now: int) returns (list: seq<TimerInfo>, wakes: bool)
      requires Distinct(alarmBatches) && alarmBatches != []
      modifies this`alarmBatches, this`armed, Objects()
      ensures Distinct(alarmBatches) && fresh(Objects() - old(Objects()))
      ensures Schedule() == AfterRound(code, old(Schedule()), now)
      ensures list == FireAll(old(Schedule()).batches[0].alarms, now)
      ensures wakes <==> AnyWakeup(list)
    {
      ghost var s := Schedule();
      var alarms := alarmBatches[0].alarms;
      alarmBatches := alarmBatches[1..];
      assert Schedule() == s.(batches := s.batches[1..]);
      list, wakes := TriggerBatch(alarms, now);
    }

    /** The inner loop over the alarms of a batch that is no longer in the list. */
    method TriggerBatch(alarms: seq<TimerInfo>, now: int) returns (list: seq<TimerInfo>, wakes: bool)
      requires Distinct(alarmBatches)
      modifies this`alarmBatches, this`armed, Objects()
      ensures Distinct(alarmBatches) && fresh(Objects() - old(Objects()))
      ensures Schedule() == TriggerAll(code, old(Schedule()), alarms, now)
      ensures list == FireAll(alarms, now)
      ensures wakes <==> AnyWakeup(list)
    {
      ghost var trace, fired := TriggerTrace(code, Schedule(), alarms, now);
      list, wakes := [], false;
      for i := 0 to |alarms|
        invariant Distinct(alarmBatches) && fresh(Objects() - old(Objects()))
        invariant Schedule() == trace[i] && list == fired[i]
        invariant wakes <==> AnyWakeup(list)
      {
        var alarm := alarms[i];
        AnyWakeupStep(list, Fired(alarm, now));
        if alarm.repeatInterval > 0 {
          SetHandlerLocked(Renewal(alarm, now), false);
        }
        list := list + [Fired(alarm, now)];
        if alarm.wakeup {
          wakes := true;
        }
      }
    }

    // -------------------------------------------------------------- delivery

    method CallbackAlarmIfNeed(a: TimerInfo)
      requires a.hasCallback
      modifies this`proxyMap, this`invoked
      ensures Proxy() == Deliver(old(Proxy()), a)
    {
      if a.uid !in proxyUids {
        invoked := invoked + [a];
        return;
      }
      if a.uid !in proxyMap {
        assert [] + [a] == [a];
        proxyMap := proxyMap[a.uid := [a]];
      } else {
        proxyMap := proxyMap[a.uid := proxyMap[a.uid] + [a]];
      }
    }

    method DeliverTimersLocked(triggerList: seq<TimerInfo>)
      modifies this`proxyMap, this`invoked
      ensures View() == old(View()).(proxy := DeliverAll(old(Proxy()), triggerList))
    {
      ghost var trace := DeliverTrace(Proxy(), triggerList);
      for i := 0 to |triggerList|
        invariant Proxy() == trace[i]
      {
        if triggerList[i].hasCallback {
          CallbackAlarmIfNeed(triggerList[i]);
        }
      }
    }

    /** Call back every alarm of a buffer; the loop ProxyTimer and ResetAllProxy share. */
    method CallAll(alarms: seq<TimerInfo>)
      modifies this`invoked
      ensures invoked == old(invoked) + Calls(alarms)
    {
      assert alarms[..0] == [];
      for i := 0 to |alarms|
        invariant invoked == old(invoked) + Calls(alarms[..i])
      {
        assert alarms[..i + 1][..i] == alarms[..i];
        if alarms[i].hasCallback {
          invoked := invoked + [alarms[i]];
        }
      }
      assert alarms[..|alarms|] == alarms;
    }

    method ProxyTimer(uid: int, isProxy: bool, needRetrigger: bool) returns (ok: bool)
      modifies this`proxyUids, this`proxyMap, this`invoked
      ensures (Proxy(), ok) == Proxying.ProxyTimer(old(Proxy()), uid, isProxy, needRetrigger)
    {
      if isProxy {
        proxyUids := proxyUids + {uid};
        return true;
      }
      if uid !in proxyUids {
        return false;
      }
      proxyUids := proxyUids - {uid};
      if needRetrigger && uid in proxyMap {
        CallAll(proxyMap[uid]);
      } else {
        assert invoked + [] == invoked;
      }
      proxyMap := proxyMap - {uid};
      return true;
    }

    method ResetAllProxy() returns (ok: bool)
      modifies this`proxyUids, this`proxyMap, this`invoked
      ensures ok && Proxy() == ResetAll(old(Proxy()))
    {
      var left := proxyMap;
      ghost var total := invoked + Flush(proxyMap);
      while left.Keys != {}
        invariant proxyUids == old(proxyUids) && proxyMap == old(proxyMap)
        invariant total == invoked + Flush(left)
        decreases |left.Keys|
      {
        var uid := MinKey(left.Keys);
        FlushStep(invoked, left);
        CallAll(left[uid]);
        left := left - {uid};
      }
      assert invoked + [] == invoked;
      proxyMap, proxyUids := map[], {};
      ok := true;
    }

    method RemoveProxy(id: uint64, uid: int)
      modifies this`proxyMap
      ensures View() == old(View()).(proxy := Proxying.RemoveProxy(code, old(Proxy()), id, uid))
    {
      if uid in proxyMap {
        var alarms := EraseId(proxyMap[uid], id);
        if alarms == [] {
          proxyMap := proxyMap - {uid};
        } else if code.Repaired? {
          proxyMap := proxyMap[uid := alarms];
        }
      }
    }

    // -------------------------------------------------------------- client calls

    /** `id` is the number drawn from the random engine; the loop around it only skips zero. */
    method CreateTimer(id: uint64, kind: int, windowLength: uint64, interval: uint64, flag: Flags, hasCallback: bool,
                       uid: int) returns (timerNumber: uint64)
      requires id != 0
      modifies this`timerEntryMap
      ensures timerNumber == id
      ensures View() == Created(old(View()), TimerEntry(id, kind, windowLength, interval, flag, hasCallback, uid))
    {
      if id !in timerEntryMap {
        timerEntryMap := timerEntryMap[id := TimerEntry(id, kind, windowLength, interval, flag, hasCallback, uid)];
      }
      timerNumber := id;
    }

    method StartTimer(id: uint64, triggerTime: uint64, reading: StartReading) returns (ok: bool)
      requires Valid()
      modifies this`alarmBatches, this`armed, Objects()
      ensures Valid() && fresh(Objects() - old(Objects()))
      ensures (View(), ok) == Started(code, old(View()), id, triggerTime, reading)
    {
      if id !in timerEntryMap {
        return false;
      }
      match PrepareAlarm(timerEntryMap[id], triggerTime, reading) {
        case None =>
        case Some(a) =>
          InsertHolds(code, States(alarmBatches), a);
          SetHandlerLocked(a, false);
      }
      return true;
    }

    /** StopTimer and DestroyTimer when no other thread steps in between the two locks. */
    method StopTimerInner(id: uint64, needDestroy: bool, rebatchAt: int, clocks: Readings) returns (ok: bool)
      requires Valid()
      modifies this`alarmBatches, this`armed, this`proxyMap, this`timerEntryMap, Objects()
      ensures Valid() && fresh(Objects() - old(Objects()))
      ensures ok == (id in old(timerEntryMap))
      ensures View() == Stopped(code, old(View()), id, needDestroy, rebatchAt, clocks)
    {
      if id !in timerEntryMap {
        return false;
      }
      RemoveEverywhere(id, timerEntryMap[id].uid, rebatchAt, clocks);
      EraseEntry(id, needDestroy);
      return true;
    }

    /** The two locked sections of StopTimerInner. */
    method RemoveEverywhere(id: uint64, uid: int, rebatchAt: int, clocks: Readings)
      requires Valid()
      modifies this`alarmBatches, this`armed, this`proxyMap, Objects()
      ensures Valid() && fresh(Objects() - old(Objects()))
      ensures View() == Cleared(code, old(View()), id, uid, rebatchAt, clocks)
    {
      RemoveLocked(id, rebatchAt, clocks);
      RemoveProxy(id, uid);
    }

    method EraseEntry(id: uint64, needDestroy: bool)
      modifies this`timerEntryMap
      ensures View() == Erased(old(View()), id, needDestroy)
    {
      if needDestroy {
        timerEntryMap := timerEntryMap - {id};
      }
    }

    // -------------------------------------------------------------- the looper

    /** One pass of TimerLooper after the wait: `changed` and `onlyChanged` describe the wait
        result, the clock readings are those taken on the way. */
    method LooperRound(changed: bool, onlyChanged: bool, nowWall: int, nowElapsed: nat, rebatchAt: int, clocks: Readings)
      returns (triggerList: seq<TimerInfo>)
      requires Valid()
      modifies this`alarmBatches, this`armed, this`lastChange, this`proxyMap, this`invoked, Objects()
      ensures Valid() && fresh(Objects() - old(Objects()))
      ensures var m := AfterClockChange(code, old(View()), changed, nowWall, nowElapsed, rebatchAt, clocks);
              && (onlyChanged ==> View() == m.(schedule := Reschedule(m.schedule)))
              && (!onlyChanged ==>
                    && TriggerOrder(triggerList, Drain(code, m.schedule, nowElapsed).alarms, nowElapsed)
                    && View() == AfterRoundOf(code, m, nowElapsed, triggerList))
    {
      triggerList := [];
      if changed {
        HandleClockChange(nowWall, nowElapsed, rebatchAt, clocks);
      }
      if !onlyChanged {
        triggerList := TriggerAndDeliver(nowElapsed);
      }
      RescheduleKernelTimerLocked();
    }

    /** The section TimerLooper runs when the wait reports a clock change. */
    method HandleClockChange(nowWall: int, nowElapsed: nat, rebatchAt: int, clocks: Readings)
      requires Valid()
      modifies this`alarmBatches, this`armed, this`lastChange
      ensures Valid() && fresh(Objects() - old(Objects()))
      ensures View() == ClockChanged(code, old(View()), nowWall, nowElapsed, rebatchAt, clocks)
    {
      if WallClockJumped(lastChange, nowWall, nowElapsed) {
        RebatchHolds(code, Schedule(), rebatchAt, clocks);
        ReBatchAllTimersLocked(rebatchAt, clocks);
        lastChange := Some(Clock(nowElapsed, nowWall));
      }
    }

    /** The section of a round that triggers and delivers, up to re-arming. */
    method TriggerAndDeliver(nowElapsed: nat) returns (triggerList: seq<TimerInfo>)
      requires Valid()
      modifies this`alarmBatches, this`armed, this`proxyMap, this`invoked, Objects()
      ensures Valid() && fresh(Objects() - old(Objects()))
      ensures TriggerOrder(triggerList, Drain(code, old(Schedule()), nowElapsed).alarms, nowElapsed)
      ensures View() == old(View()).(schedule := Drain(code, old(Schedule()), nowElapsed).schedule,
                                     proxy := DeliverAll(old(Proxy()), triggerList))
    {
      var wakes;
      triggerList, wakes := TriggerTimersLocked(nowElapsed);
      DeliverTimersLocked(triggerList);
    }
  }

  /** The erasing loop of RemoveProxy. */
  method EraseId(alarms: seq<TimerInfo>, id: uint64) returns (r: seq<TimerInfo>)
    ensures r == Without(alarms, id)
  {
    ghost var lists, places := EraseTrace(alarms, id);
    r := alarms;
    var at := 0;
    ghost var n := 0;
    while at < |r|
      invariant n <= |alarms| && r == lists[n] && at == places[n]
      decreases |alarms| - n
    {
      if r[at].id == id {
        r := r[..at] + r[at + 1..];
      } else {
        at := at + 1;
      }
      n := n + 1;
    }
  }

  /** What one round of that loop makes of the list `r` and the place `at`. */
  ghost predicate ErasesTo(r: seq<TimerInfo>, at: nat, r': seq<TimerInfo>, at': nat, id: uint64) {
    && at < |r|
    && if r[at].id == id then r' == r[..at] + r[at + 1..] && at' == at else r' == r && at' == at + 1
  }

  lemma EraseTrace(alarms: seq<TimerInfo>, id: uint64) returns (lists: seq<seq<TimerInfo>>, places: seq<nat>)
    ensures |lists| == |places| == |alarms| + 1 && lists[0] == alarms && places[0] == 0
    ensures lists[|alarms|] == Without(alarms, id)
    ensures forall n :: 0 <= n <= |alarms| ==> |lists[n]| - places[n] == |alarms| - n
    ensures forall n :: 0 <= n < |alarms| ==> ErasesTo(lists[n], places[n], lists[n + 1], places[n + 1], id)
  {
    lists := seq(|alarms| + 1, n requires 0 <= n <= |alarms| => Without(alarms[..n], id) + alarms[n..]);
    places := seq(|alarms| + 1, n requires 0 <= n <= |alarms| => |Without(alarms[..n], id)|);
    forall n | 0 <= n < |alarms| ensures ErasesTo(lists[n], places[n], lists[n + 1], places[n + 1], id) {
      EraseStep(alarms, n, id);
    }
    assert alarms[..|alarms|] == alarms && alarms[|alarms|..] == [] && alarms[..0] == [] && alarms[0..] == alarms;
  }

  lemma EraseStep(alarms: seq<TimerInfo>, n: nat, id: uint64)
    requires n < |alarms|
    ensures var kept, kept' := Without(alarms[..n], id), Without(alarms[..n + 1], id);
            ErasesTo(kept + alarms[n..], |kept|, kept' + alarms[n + 1..], |kept'|, id)
  {
    assert alarms[..n + 1][..n] == alarms[..n];
    assert alarms[n..] == [alarms[n]] + alarms[n + 1..];
  }

  lemma FlushStep(done: seq<TimerInfo>, pending: map<int, seq<TimerInfo>>)
    requires pending.Keys != {}
    ensures var k := MinKey(pending.Keys);
            && done + Flush(pending) == (done + Calls(pending[k])) + Flush(pending - {k})
            && |(pending - {k}).Keys| < |pending.Keys|
  {
    var k := MinKey(pending.Keys);
    assert (pending - {k}).Keys == pending.Keys - {k};
  }

  // ---------------------------------------------------------------- loops over alarms as folds

  /** What a loop over `alarms` that does `f` for each, counting from `k`, makes of `s`. */
  ghost function Fold<S>(f: (S, TimerInfo, nat) -> S, s: S, alarms: seq<TimerInfo>, k: nat): S
    decreases |alarms|
  {
    if alarms == [] then s else Fold(f, f(s, alarms[0], k), alarms[1..], k + 1)
  }

  /** The values such a loop goes through. */
  lemma FoldTrace<S>(f: (S, TimerInfo, nat) -> S, s: S, alarms: seq<TimerInfo>) returns (trace: seq<S>)
    ensures |trace| == |alarms| + 1 && trace[0] == s && trace[|alarms|] == Fold(f, s, alarms, 0)
    ensures forall i :: 0 <= i < |alarms| ==> trace[i + 1] == f(trace[i], alarms[i], i)
  {
    trace := seq(|alarms| + 1, i requires 0 <= i <= |alarms| => Fold(f, s, alarms[..i], 0));
    forall i | 0 <= i < |alarms| ensures trace[i + 1] == f(trace[i], alarms[i], i) {
      FoldLast(f, s, alarms[..i], alarms[i], 0);
      assert alarms[..i + 1] == alarms[..i] + [alarms[i]];
    }
    assert alarms[..|alarms|] == alarms;
  }

  lemma {:induction false} FoldLast<S>(f: (S, TimerInfo, nat) -> S, s: S, x: seq<TimerInfo>, a: TimerInfo, k: nat)
    ensures Fold(f, s, x + [a], k) == f(Fold(f, s, x, k), a, k + |x|)
    decreases |x|
  {
    if x == [] {
      assert x + [a] == [a] && [a][1..] == [];
    } else {
      assert (x + [a])[1..] == x[1..] + [a];
      FoldLast(f, f(s, x[0], k), x[1..], a, k + 1);
    }
  }

  ghost function Deliverer(): (Proxy, TimerInfo, nat) -> Proxy {
    (p, a, k) => Deliver(p, a)
  }

  lemma {:induction false} DeliverAllIsFold(p: Proxy, alarms: seq<TimerInfo>, k: nat)
    ensures DeliverAll(p, alarms) == Fold(Deliverer(), p, alarms, k)
    decreases |alarms|
  {
    if alarms != [] {
      DeliverAllIsFold(Deliver(p, alarms[0]), alarms[1..], k + 1);
    }
  }

  lemma DeliverTrace(p: Proxy, alarms: seq<TimerInfo>) returns (trace: seq<Proxy>)
    ensures |trace| == |alarms| + 1 && trace[0] == p && trace[|alarms|] == DeliverAll(p, alarms)
    ensures forall i :: 0 <= i < |alarms| ==> trace[i + 1] == Deliver(trace[i], alarms[i])
  {
    trace := FoldTrace(Deliverer(), p, alarms);
    DeliverAllIsFold(p, alarms, 0);
  }

  /** The schedule after one round of the outer drain loop. */
  ghost function AfterRound(code: Code, s: Schedule, now: int): Schedule
    requires s.batches != []
  {
    TriggerAll(code, s.(batches := s.batches[1..]), s.batches[0].alarms, now)
  }

  /** `e` is one round of the outer drain loop after `d`. */
  ghost predicate Round(code: Code, d: Drained, e: Drained, now: int) {
    var bs := d.schedule.batches;
    && AllHold(bs) && bs != [] && bs[0].start <= now
    && e == Drained(AfterRound(code, d.schedule, now), d.alarms + bs[0].alarms)
  }

  ghost predicate Stops(d: Drained, now: int) {
    AllHold(d.schedule.batches) && (d.schedule.batches == [] || now < d.schedule.batches[0].start)
  }

  ghost predicate IsDrainTrace(code: Code, trace: seq<Drained>, now: int) {
    trace != [] && forall n :: 0 <= n < |trace| - 1 ==> Round(code, trace[n], trace[n + 1], now)
  }

  lemma ExtendDrainTrace(code: Code, trace: seq<Drained>, e: Drained, now: int)
    requires IsDrainTrace(code, trace, now) && Round(code, trace[|trace| - 1], e, now)
    ensures IsDrainTrace(code, trace + [e], now)
  {}

  /** The states the outer drain loop goes through, round by round, up to the one it stops in. */
  lemma DrainTrace(code: Code, s: Schedule, now: int) returns (trace: seq<Drained>)
    requires AllHold(s.batches)
    ensures IsDrainTrace(code, trace, now) && trace[0] == Drained(s, [])
    ensures trace[|trace| - 1] == Drain(code, s, now) && Stops(trace[|trace| - 1], now)
  {
    var d, all := Drained(s, []), Drain(code, s, now);
    trace := [d];
    while !Stops(d, now)
      invariant IsDrainTrace(code, trace, now) && trace[0] == Drained(s, []) && trace[|trace| - 1] == d
      invariant AllHold(d.schedule.batches) && DrainsTo(code, d, all, now)
      decreases Load(Queue(d.schedule.batches), now)
    {
      var e := DrainStep(code, d, all, now);
      ExtendDrainTrace(code, trace, e, now);
      trace, d := trace + [e], e;
    }
    DrainEnds(code, d, all, now);
  }

  lemma DrainEnds(code: Code, d: Drained, all: Drained, now: int)
    requires Stops(d, now) && DrainsTo(code, d, all, now)
    ensures all == d
  {
    assert d.alarms + [] == d.alarms;
  }

  /** Draining on from `d` ends in `all`. */
  ghost predicate DrainsTo(code: Code, d: Drained, all: Drained, now: int)
    requires AllHold(d.schedule.batches)
  {
    var r := Drain(code, d.schedule, now);
    all == Drained(r.schedule, d.alarms + r.alarms)
  }

  lemma DrainStep(code: Code, d: Drained, all: Drained, now: int) returns (e: Drained)
    requires AllHold(d.schedule.batches) && !Stops(d, now) && DrainsTo(code, d, all, now)
    ensures Round(code, d, e, now) && AllHold(e.schedule.batches) && DrainsTo(code, e, all, now)
    ensures Load(Queue(e.schedule.batches), now) < Load(Queue(d.schedule.batches), now)
  {
    var front, s := d.schedule.batches[0].alarms, AfterRound(code, d.schedule, now);
    e := Drained(s, d.alarms + front);
    RoundProgress(code, d.schedule, now);
    var rest := Drain(code, s, now).alarms;
    assert d.alarms + (front + rest) == (d.alarms + front) + rest;
  }

  ghost function Renewer(code: Code, now: int): (Schedule, TimerInfo, nat) -> Schedule {
    (s, a, k) => Renewed(code, s, a, now)
  }

  lemma {:induction false} TriggerAllIsFold(code: Code, s: Schedule, alarms: seq<TimerInfo>, now: int, k: nat)
    ensures TriggerAll(code, s, alarms, now) == Fold(Renewer(code, now), s, alarms, k)
    decreases |alarms|
  {
    if alarms != [] {
      TriggerAllIsFold(code, Renewed(code, s, alarms[0], now), alarms[1..], now, k + 1);
    }
  }

  /** The schedules the inner drain loop goes through, alarm by alarm, and the lists it builds. */
  lemma TriggerTrace(code: Code, s: Schedule, alarms: seq<TimerInfo>, now: int)
    returns (trace: seq<Schedule>, fired: seq<seq<TimerInfo>>)
    ensures |trace| == |alarms| + 1 && trace[0] == s && trace[|alarms|] == TriggerAll(code, s, alarms, now)
    ensures |fired| == |alarms| + 1 && fired[0] == [] && fired[|alarms|] == FireAll(alarms, now)
    ensures forall i :: 0 <= i < |alarms| ==> trace[i + 1] == Renewed(code, trace[i], alarms[i], now)
    ensures forall i :: 0 <= i < |alarms| ==> fired[i + 1] == fired[i] + [Fired(alarms[i], now)]
  {
    trace := FoldTrace(Renewer(code, now), s, alarms);
    TriggerAllIsFold(code, s, alarms, now, 0);
    fired := FiredTrace(alarms, now);
  }

  lemma FiredTrace(alarms: seq<TimerInfo>, now: int) returns (fired: seq<seq<TimerInfo>>)
    ensures |fired| == |alarms| + 1 && fired[0] == [] && fired[|alarms|] == FireAll(alarms, now)
    ensures forall i :: 0 <= i < |alarms| ==> fired[i + 1] == fired[i] + [Fired(alarms[i], now)]
  {
    fired := seq(|alarms| + 1, i requires 0 <= i <= |alarms| => FireAll(alarms[..i], now));
    assert alarms[..|alarms|] == alarms;
  }

  predicate AnyWakeup(alarms: seq<TimerInfo>) {
    exists i :: 0 <= i < |alarms| && alarms[i].wakeup
  }

  lemma AnyWakeupStep(alarms: seq<TimerInfo>, a: TimerInfo)
    ensures AnyWakeup(alarms + [a]) <==> AnyWakeup(alarms) || a.wakeup
  {
    AnyWakeupConcat(alarms, [a]);
    if a.wakeup {
      assert [a][0].wakeup;
    }
  }

  lemma AnyWakeupConcat(x: seq<TimerInfo>, y: seq<TimerInfo>)
    ensures AnyWakeup(x + y) <==> AnyWakeup(x) || AnyWakeup(y)
  {
    var z := x + y;
    if AnyWakeup(x) {
      var i :| 0 <= i < |x| && x[i].wakeup;
      assert z[i].wakeup;
    }
    if AnyWakeup(y) {
      var i :| 0 <= i < |y| && y[i].wakeup;
      assert z[|x| + i].wakeup;
    }
    if AnyWakeup(z) {
      var i :| 0 <= i < |z| && z[i].wakeup;
      assert if i < |x| then x[i].wakeup else y[i - |x|].wakeup;
    }
  }

  lemma AnyWakeupPermuted(x: seq<TimerInfo>, y: seq<TimerInfo>)
    requires multiset(x) == multiset(y)
    ensures AnyWakeup(x) <==> AnyWakeup(y)
  {
    SameMembers(x, y);
    if AnyWakeup(x) {
      var i :| 0 <= i < |x| && x[i].wakeup;
      assert x[i] in y;
    }
    if AnyWakeup(y) {
      var i :| 0 <= i < |y| && y[i].wakeup;
      assert y[i] in x;
    }
  }

  lemma SameMembers(x: seq<TimerInfo>, y: seq<TimerInfo>)
    requires multiset(x) == multiset(y)
    ensures forall a :: a in x <==> a in y
  {
    forall a ensures a in x <==> a in y {
      assert a in x <==> a in multiset(x);
      assert a in y <==> a in multiset(y);
    }
  }

  lemma FireAllConcat(x: seq<TimerInfo>, y: seq<TimerInfo>, now: int)
    ensures FireAll(x + y, now) == FireAll(x, now) + FireAll(y, now)
  {}

  lemma InsertDistinct(bs: seq<Batch>, p: nat, b: Batch)
    requires Distinct(bs) && b !in bs && p <= |bs|
    ensures var r := bs[..p] + [b] + bs[p..]; Distinct(r) && forall c :: c in r <==> c == b || c in bs
  {
    var r := bs[..p] + [b] + bs[p..];
    assert bs == bs[..p] + bs[p..];
    forall i, j | 0 <= i < j < |r| ensures r[i] != r[j] {
      assert i != p ==> r[i] == bs[if i < p then i else i - 1];
      assert j != p ==> r[j] == bs[if j < p then j else j - 1];
    }
  }

  lemma SplitAppend(x: seq<BatchState>, y: seq<BatchState>)
    ensures (x + y)[..|x|] == x && (x + y)[|x|..] == y
  {}

  lemma SplitDistinct(s: seq<Batch>, k: nat)
    requires Distinct(s) && k < |s|
    ensures s[k] !in s[..k] && s[k] !in s[k + 1..]
    ensures Distinct(s[..k] + s[k + 1..])
  {
    var x, y := s[..k], s[k + 1..];
    forall b | b in x ensures b != s[k] {
      var i :| 0 <= i < |x| && x[i] == b;
      assert s[i] == b;
    }
    forall b | b in y ensures b != s[k] {
      var i :| 0 <= i < |y| && y[i] == b;
      assert s[k + 1 + i] == b;
    }
    var t := x + y;
    forall i, j | 0 <= i < j < |t| ensures t[i] != t[j] {
      assert t[i] == s[if i < k then i else i + 1] && t[j] == s[if j < k then j else j + 1];
    }
  }

  lemma {:induction false} StrippedConcat(x: seq<BatchState>, y: seq<BatchState>, id: uint64)
    ensures Stripped(x + y, id) == Stripped(x, id) + Stripped(y, id)
    decreases |x|
  {
    if x == [] {
      assert x + y == y;
    } else {
      assert (x + y)[1..] == x[1..] + y;
      StrippedConcat(x[1..], y, id);
    }
  }

  /** The batches kept, the flag and the batches to come after some rounds of the erasing loop. */
  datatype StripSoFar = StripSoFar(kept: seq<BatchState>, didRemove: bool, rest: seq<BatchState>)

  function StripNext(code: Code, s: StripSoFar, id: uint64): StripSoFar
    requires s.rest != []
  {
    var b := s.rest[0];
    var r := Removed(b, id);
    StripSoFar(if r.alarms == [] then s.kept else s.kept + [r],
               HasId(b.alarms, id) || (code.Repaired? && s.didRemove), s.rest[1..])
  }

  /** Both ways to go on after stripping batch `k` of `bs` are the next round. */
  lemma StripMoves(code: Code, bs: seq<BatchState>, k: nat, didRemove: bool, id: uint64)
    requires k < |bs|
    ensures var r, next := Removed(bs[k], id), StripNext(code, StripSoFar(bs[..k], didRemove, bs[k..]), id);
            var flag := HasId(bs[k].alarms, id) || (code.Repaired? && didRemove);
            && (r.alarms != [] ==> var t := bs[k := r]; StripSoFar(t[..k + 1], flag, t[k + 1..]) == next)
            && (r.alarms == [] ==> var t := bs[k := r][..k] + bs[k := r][k + 1..]; StripSoFar(t[..k], flag, t[k..]) == next)
  {
    var r := Removed(bs[k], id);
    assert bs[k := r][..k] == bs[..k] && bs[k := r][k + 1..] == bs[k + 1..];
    assert bs[k := r][..k + 1] == bs[..k] + [r] && bs[k..][1..] == bs[k + 1..];
    SplitAppend(bs[..k], bs[k + 1..]);
  }

  ghost function StripPrefix(code: Code, bs: seq<BatchState>, n: nat, id: uint64): StripSoFar
    requires n <= |bs|
  {
    StripSoFar(Stripped(bs[..n], id), DidRemove(code, bs[..n], id), bs[n..])
  }

  lemma StripTrace(code: Code, bs: seq<BatchState>, id: uint64) returns (trace: seq<StripSoFar>)
    ensures |trace| == |bs| + 1 && trace[0] == StripSoFar([], false, bs)
    ensures trace[|bs|] == StripSoFar(Stripped(bs, id), DidRemove(code, bs, id), [])
    ensures forall n :: 0 <= n < |bs| ==> trace[n].rest != [] && trace[n + 1] == StripNext(code, trace[n], id)
  {
    trace := seq(|bs| + 1, n requires 0 <= n <= |bs| => StripPrefix(code, bs, n, id));
    forall n | 0 <= n < |bs| ensures trace[n].rest != [] && trace[n + 1] == StripNext(code, trace[n], id) {
      StripStep(code, bs, n, id);
    }
    assert bs[..|bs|] == bs && bs[..0] == [];
  }

  lemma StripStep(code: Code, bs: seq<BatchState>, n: nat, id: uint64)
    requires n < |bs|
    ensures StripPrefix(code, bs, n, id).rest != []
    ensures StripPrefix(code, bs, n + 1, id) == StripNext(code, StripPrefix(code, bs, n, id), id)
  {
    assert bs[..n + 1] == bs[..n] + [bs[n]];
    StrippedConcat(bs[..n], [bs[n]], id);
    assert [bs[n]][1..] == [] && bs[n..][0] == bs[n] && bs[n..][1..] == bs[n + 1..];
  }

  /** The batch lists a rebatch goes through, one for each alarm read. */
  ghost predicate IsReAddTrace(code: Code, queue: seq<TimerInfo>, clocks: Readings, nowElapsed: int,
                               trace: seq<seq<BatchState>>)
  {
    && |trace| == |queue| + 1
    && trace[0] == []
    && forall i :: 0 <= i < |queue| ==> trace[i + 1] == ReAdd(code, trace[i], queue[i], clocks(i), nowElapsed)
  }

  ghost function ReAdder(code: Code, clocks: Readings, nowElapsed: int): (seq<BatchState>, TimerInfo, nat) -> seq<BatchState>
  {
    (bs: seq<BatchState>, a: TimerInfo, k: nat) => ReAdd(code, bs, a, clocks(k), nowElapsed)
  }

  lemma {:induction false} ReAddAllIsFold(code: Code, bs: seq<BatchState>, alarms: seq<TimerInfo>, k: nat, clocks: Readings,
                                          nowElapsed: int)
    ensures ReAddAll(code, bs, alarms, k, clocks, nowElapsed) == Fold(ReAdder(code, clocks, nowElapsed), bs, alarms, k)
    decreases |alarms|
  {
    if alarms != [] {
      ReAddAllIsFold(code, ReAdd(code, bs, alarms[0], clocks(k), nowElapsed), alarms[1..], k + 1, clocks, nowElapsed);
    }
  }

  lemma ReAddTrace(code: Code, queue: seq<TimerInfo>, clocks: Readings, nowElapsed: int)
    returns (trace: seq<seq<BatchState>>)
    ensures IsReAddTrace(code, queue, clocks, nowElapsed, trace)
    ensures trace[|queue|] == ReAddAll(code, [], queue, 0, clocks, nowElapsed)
  {
    trace := FoldTrace(ReAdder(code, clocks, nowElapsed), [], queue);
    ReAddAllIsFold(code, [], queue, 0, clocks, nowElapsed);
  }

  /** Where the alarms of each batch are in the queue. */
  lemma QueueOffsets(bs: seq<BatchState>) returns (offsets: seq<nat>)
    ensures |offsets| == |bs| + 1 && offsets[0] == 0 && offsets[|bs|] == |Queue(bs)|
    ensures forall i :: 0 <= i < |bs| ==>
              && offsets[i + 1] == offsets[i] + |bs[i].alarms| <= |Queue(bs)|
              && Queue(bs)[offsets[i]..offsets[i + 1]] == bs[i].alarms
  {
    offsets := seq(|bs| + 1, i requires 0 <= i <= |bs| => |Queue(bs[..i])|);
    forall i | 0 <= i < |bs|
      ensures offsets[i + 1] == offsets[i] + |bs[i].alarms| <= |Queue(bs)|
      ensures Queue(bs)[offsets[i]..offsets[i + 1]] == bs[i].alarms
    {
      QueueOffset(bs, i);
    }
    assert bs[..|bs|] == bs && bs[..0] == [];
  }

  lemma QueueOffset(bs: seq<BatchState>, i: nat)
    requires i < |bs|
    ensures var k := |Queue(bs[..i])|;
            && |Queue(bs[..i + 1])| == k + |bs[i].alarms| <= |Queue(bs)|
            && Queue(bs)[k..k + |bs[i].alarms|] == bs[i].alarms
  {
    var x, y := bs[..i], bs[i + 1..];
    assert bs == (x + [bs[i]]) + y && bs[..i + 1] == x + [bs[i]];
    QueueConcat(x + [bs[i]], y);
    QueueConcat(x, [bs[i]]);
    QueueSingle(bs[i]);
  }
}
