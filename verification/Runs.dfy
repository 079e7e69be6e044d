/** Properties of whole runs: every interleaving of client calls, proxy calls and looper rounds. */
module Runs {
  import opened Units
  import opened TimerInfos
  import opened Batches
  import opened BatchLists
  import opened Rebatching
  import opened Draining
  import opened Proxying
  import opened Protocol

  /** The state after the steps; the invariant holds wherever it held at the start. */
  ghost function Run(code: Code, s: State, steps: seq<Step>): (r: State)
    requires Inv(code, s)
    ensures Inv(code, r)
    decreases |steps|
  {
    if steps == [] then s
    else
      var n := |steps| - 1;
      var t := Run(code, s, steps[..n]);
      StepInv(code, t, steps[n]);
      Next(code, t, steps[n])
  }

  ghost function Reached(code: Code, steps: seq<Step>): State {
    InitInv(code);
    Run(code, Init(), steps)
  }

  // ---------------------------------------------------------------- scheduling, at every moment

  /** In every state the repaired program reaches: the list is sorted, every batch's window lies
      inside the windows of its alarms and is not empty, a standalone alarm is alone, and unless
      a round is under way the deadlines are those of this very list and cover every batch. */
  lemma ReachableSchedule(steps: seq<Step>)
    ensures var s := Reached(Repaired, steps); var c := s.manager.schedule;
            && Sorted(c.batches)
            && (forall b, a :: b in c.batches && a in b.alarms ==>
                  && a.whenElapsed <= b.start <= b.end <= a.maxWhenElapsed
                  && (IsStandalone(a.flags) ==> |b.alarms| == 1))
            && (s.looper.Waiting? ==> Fresh(c))
            && (s.looper.Waiting? && Armable(c.batches) ==> ArmedForAll(c))
  {
    var s := Reached(Repaired, steps);
    var c := s.manager.schedule;
    if s.looper.Waiting? && Armable(c.batches) {
      FreshArms(c);
    }
    forall b, a | b in c.batches && a in b.alarms
      ensures a.whenElapsed <= b.start <= b.end <= a.maxWhenElapsed && (IsStandalone(a.flags) ==> |b.alarms| == 1)
    {
      assert Holds(b) && Fits(b);
    }
  }

  /** In every state either program reaches, each batch keeps its alarms ordered and caches exactly
      what a scan of them gives, as long as an int64 can hold their times. */
  lemma ReachableCache(code: Code, steps: seq<Step>, b: BatchState)
    requires b in Reached(code, steps).manager.schedule.batches
    ensures b.alarms != [] && Ordered(b.alarms)
    ensures AllInRange(b.alarms) ==> b == Recomputed(b.alarms)
  {
    assert Holds(b);
  }

  /** So the service is woken in time: in every state the repaired program reaches between rounds,
      for each queued alarm a deadline is armed at the start of a batch queued now, no later than
      the end of the alarm's window; for a wake-up alarm it is the wake-up deadline. */
  lemma WokenInTime(steps: seq<Step>, a: TimerInfo)
    requires var s := Reached(Repaired, steps);
             s.looper.Waiting? && Armable(s.manager.schedule.batches) && a in Queue(s.manager.schedule.batches)
    ensures var c := Reached(Repaired, steps).manager.schedule;
            && (|| ArmedAt(c.batches, c.armed.wakeup, true, a.maxWhenElapsed)
                || ArmedAt(c.batches, c.armed.nonWakeup, false, a.maxWhenElapsed))
            && (WakeupBit(a) ==> ArmedAt(c.batches, c.armed.wakeup, true, a.maxWhenElapsed))
  {
    var c := Reached(Repaired, steps).manager.schedule;
    ReachableSchedule(steps);
    QueueMembers(c.batches, a);
    var b :| b in c.batches && a in b.alarms;
    if WakeupBit(a) {
      assert HasWakeups(b.alarms);
    }
    LaterArmed(c.batches, c.armed.wakeup, true, b.start, a.maxWhenElapsed);
    LaterArmed(c.batches, c.armed.nonWakeup, false, b.start, a.maxWhenElapsed);
  }

  lemma LaterArmed(bs: seq<BatchState>, deadline: Option<int>, wake: bool, time: int, later: int)
    requires time <= later
    ensures ArmedAt(bs, deadline, wake, time) ==> ArmedAt(bs, deadline, wake, later)
  {}

  /** From every reachable state of either program, triggering at `now` takes no alarm before its
      time; of the repaired program it leaves none whose window has closed. */
  lemma ReachableTrigger(code: Code, steps: seq<Step>, now: int, order: seq<TimerInfo>)
    requires Enabled(code, Reached(code, steps), Trigger(now, order))
    ensures forall f :: f in order ==> f.whenElapsed <= now
    ensures code.Repaired? ==>
              forall a :: a in Queue(Next(code, Reached(code, steps), Trigger(now, order)).manager.schedule.batches) ==>
                now < a.maxWhenElapsed
  {
    var c := Reached(code, steps).manager.schedule;
    var r := Drain(code, c, now);
    NeverEarly(code, c, now);
    forall f | f in order ensures f.whenElapsed <= now {
      var a := FiredBy(order, r.alarms, now, f);
    }
    if code.Repaired? {
      NeverLate(c, now);
    }
  }

  // ---------------------------------------------------------------- destroyed timers

  function Invoked(s: State): seq<TimerInfo> {
    s.manager.proxy.invoked
  }

  lemma {:induction false} CallsMembers(s: seq<TimerInfo>)
    ensures forall a :: a in Calls(s) ==> a in s
    decreases |s|
  {
    if s != [] {
      CallsMembers(s[..|s| - 1]);
      assert s == s[..|s| - 1] + [s[|s| - 1]];
    }
  }

  lemma {:induction false} FlushMembers(pending: map<int, seq<TimerInfo>>, a: TimerInfo)
    requires a in Flush(pending)
    ensures exists uid :: uid in pending && a in pending[uid]
    decreases |pending.Keys|
  {
    var k := MinKey(pending.Keys);
    assert (pending - {k}).Keys == pending.Keys - {k};
    CallsMembers(pending[k]);
    if a !in Calls(pending[k]) {
      FlushMembers(pending - {k}, a);
      var uid :| uid in pending - {k} && a in (pending - {k})[uid];
      assert pending[uid] == (pending - {k})[uid];
    } else {
      assert a in pending[k];
    }
  }

  /** One step of the repaired program only adds callbacks, and only of registered timers. */
  lemma StepCalls(s: State, step: Step)
    requires Inv(Repaired, s)
    ensures var s' := Next(Repaired, s, step);
            && Invoked(s) <= Invoked(s')
            && forall a :: a in Invoked(s')[|Invoked(s)|..] ==> a.id in s.manager.entries
  {
    if Enabled(Repaired, s, step) {
      var p := s.manager.proxy;
      match step
      case ProxyUid(uid, isProxy, needRetrigger) =>
        CallsMembers(Pending(p, uid));
      case ResetAllProxy =>
        forall a | a in Flush(p.pending) ensures a.id in s.manager.entries {
          FlushMembers(p.pending, a);
        }
      case DeliverOne =>
        assert s.looper.rest[0] in s.looper.rest;
      case _ =>
    }
  }

  /** One step of either program hands on only alarms of registered timers. */
  lemma StepHanded(code: Code, s: State, step: Step)
    requires Inv(code, s)
    ensures var s' := Next(code, s, step);
            && s.handed <= s'.handed
            && forall a :: a in s'.handed[|s.handed|..] ==> a.id in s.manager.entries
  {
    if Enabled(code, s, step) && step.DeliverOne? {
      assert s.looper.rest[0] in s.looper.rest;
    }
  }

  lemma SuffixSplit(x: seq<TimerInfo>, y: seq<TimerInfo>, z: seq<TimerInfo>)
    requires x <= y && y <= z
    ensures x <= z && z[|x|..] == y[|x|..] + z[|y|..]
  {}

  predicate Creates(step: Step, id: uint64) {
    step.CreateTimer? && step.entry.id == id
  }

  lemma StepRegisters(code: Code, s: State, step: Step)
    requires Inv(code, s)
    ensures var e, e' := s.manager.entries, Next(code, s, step).manager.entries;
            && (forall id :: id in e' && id !in e ==> Creates(step, id))
            && (step.CreateTimer? && Enabled(code, s, step) && step.entry.id !in e ==> e' == e[step.entry.id := step.entry])
            && (forall id :: id in e' && id in e ==> e'[id] == e[id])
            && (forall id :: id in e && id !in e' ==>
                  step.FinishStop? && s.client.Stopping? && s.client.id == id && s.client.needDestroy)
  {}

  /** A start reports whether the timer is registered, whatever else happens, and changes nothing
      exactly if it is not or the time asked for is past. */
  lemma PastStartIsSilent(code: Code, m: Manager, id: uint64, triggerTime: uint64, r: StartReading)
    ensures Started(code, m, id, triggerTime, r).1 <==> id in m.entries
    ensures Started(code, m, id, triggerTime, r).0 == m <==>
            || id !in m.entries
            || ConvertToElapsed(AsSigned64(triggerTime), m.entries[id].kind, r.clock) < r.nowElapsed
  {
    if id !in m.entries {
      return;
    }
    PastStartPreparesNothing(m.entries[id], triggerTime, r);
    match PrepareAlarm(m.entries[id], triggerTime, r)
    case None =>
    case Some(a) =>
      InsertTimers(code, m.schedule.batches, a);
      assert |Timers(Insert(code, m.schedule.batches, a))| == |Timers(m.schedule.batches)| + 1;
  }

  /** Without a new CreateTimer of the id it stays unregistered. */
  lemma {:induction false} StaysUnregistered(code: Code, s: State, steps: seq<Step>, id: uint64)
    requires Inv(code, s) && id !in s.manager.entries
    requires forall step :: step in steps ==> !Creates(step, id)
    ensures id !in Run(code, s, steps).manager.entries
    decreases |steps|
  {
    if steps != [] {
      var n := |steps| - 1;
      assert steps[n] in steps;
      StaysUnregistered(code, s, steps[..n], id);
      StepRegisters(code, Run(code, s, steps[..n]), steps[n]);
    }
  }

  /** Once DestroyTimer has erased the entry, no step of the repaired program calls back with
      the id again, whatever was queued, in flight or buffered before. */
  lemma {:induction false} DestroyedNeverFires(s: State, steps: seq<Step>, id: uint64)
    requires Inv(Repaired, s) && id !in s.manager.entries
    requires forall step :: step in steps ==> !Creates(step, id)
    ensures var s' := Run(Repaired, s, steps);
            && Invoked(s) <= Invoked(s')
            && forall a :: a in Invoked(s')[|Invoked(s)|..] ==> a.id != id
    decreases |steps|
  {
    if steps != [] {
      var n := |steps| - 1;
      var t := Run(Repaired, s, steps[..n]);
      var s' := Next(Repaired, t, steps[n]);
      DestroyedNeverFires(s, steps[..n], id);
      StaysUnregistered(Repaired, s, steps[..n], id);
      StepCalls(t, steps[n]);
      SuffixSplit(Invoked(s), Invoked(t), Invoked(s'));
    }
  }

  /** As written too, no alarm of the timer is triggered and handed over for delivery again. */
  lemma {:induction false} DestroyedNeverTriggers(code: Code, s: State, steps: seq<Step>, id: uint64)
    requires Inv(code, s) && id !in s.manager.entries
    requires forall step :: step in steps ==> !Creates(step, id)
    ensures var s' := Run(code, s, steps);
            && s.handed <= s'.handed
            && forall a :: a in s'.handed[|s.handed|..] ==> a.id != id
    decreases |steps|
  {
    if steps != [] {
      var n := |steps| - 1;
      var t := Run(code, s, steps[..n]);
      var s' := Next(code, t, steps[n]);
      DestroyedNeverTriggers(code, s, steps[..n], id);
      StaysUnregistered(code, s, steps[..n], id);
      StepHanded(code, t, steps[n]);
      SuffixSplit(s.handed, t.handed, s'.handed);
    }
  }

  /** Finishing a DestroyTimer erases the entry, so the two lemmas above apply from there on. */
  lemma DestroyErases(code: Code, s: State)
    requires Inv(code, s) && s.client.Stopping? && s.client.needDestroy
    ensures s.client.id !in Next(code, s, FinishStop).manager.entries
  {}

  // ---------------------------------------------------------------- stopped timers

  /** Nothing of the timer is queued or in flight nor, repaired, buffered. */
  ghost predicate Quiet(code: Code, s: State, id: uint64) {
    && (forall a :: a in Queue(s.manager.schedule.batches) ==> a.id != id)
    && (s.looper.Delivering? ==> forall a :: a in s.looper.rest ==> a.id != id)
    && (code.Repaired? ==> PendingWithout(s.manager.proxy.pending, id))
  }

  ghost predicate PendingWithout(pending: map<int, seq<TimerInfo>>, id: uint64) {
    forall uid :: uid in pending ==> forall a :: a in pending[uid] ==> a.id != id
  }

  /** Finishing a StopTimer or DestroyTimer leaves nothing of the timer behind. */
  lemma FinishStopQuiets(code: Code, s: State)
    requires Inv(code, s) && s.client.Stopping?
    ensures Quiet(code, Next(code, s, FinishStop), s.client.id)
  {
    if code.Repaired? {
      RemoveProxyQuiets(s.manager.proxy, s.manager.entries, s.client.id, s.client.uid);
    }
  }

  lemma RemoveProxyQuiets(p: Proxy, entries: map<uint64, TimerEntry>, id: uint64, uid: int)
    requires Buffers(p) && id in entries && entries[id].uid == uid
    requires forall u :: u in p.pending ==> forall a :: a in p.pending[u] ==> Known(entries, a)
    ensures PendingWithout(RemoveProxy(Repaired, p, id, uid).pending, id)
  {
    var q := RemoveProxy(Repaired, p, id, uid);
    if uid in p.pending {
      WithoutMembers(p.pending[uid], id);
    }
    forall u, a | u in q.pending && a in q.pending[u] ensures a.id != id {
      if u != uid {
        assert a in p.pending[u];
      }
    }
  }

  predicate Restarts(step: Step, id: uint64) {
    step.StartTimer? && step.id == id
  }

  /** What a step may do to the queue, the trigger list and the buffers without starting the timer
      leaves it quiet. */
  lemma StepQuiet(code: Code, s: State, step: Step, id: uint64)
    requires Inv(code, s) && Quiet(code, s, id) && !Restarts(step, id)
    ensures Quiet(code, Next(code, s, step), id)
  {
    if Enabled(code, s, step) {
      match step
      case StartTimer(_, _, _) => StartQuiet(code, s, step, id);
      case RemoveHandler(_, _, rebatchAt, clocks) =>
        ReconversionKeepsId(rebatchAt, id);
        RemoveForAll(code, s.manager.schedule, step.id, rebatchAt, clocks, (a: TimerInfo) => a.id != id);
      case TimeChanged(_, _, rebatchAt, clocks) =>
        ReconversionKeepsId(rebatchAt, id);
        RebatchForAll(code, s.manager.schedule, rebatchAt, clocks, (a: TimerInfo) => a.id != id);
      case Trigger(now, order) => TriggerQuiet(code, s, now, order, id);
      case FinishStop => RemoveProxyKeepsQuiet(code, s.manager.proxy, s.client.id, s.client.uid, id);
      case DeliverOne => DeliverQuiet(code, s, id);
      case _ =>
    }
  }

  lemma StartQuiet(code: Code, s: State, step: Step, id: uint64)
    requires Inv(code, s) && Quiet(code, s, id) && step.StartTimer? && step.id != id && Enabled(code, s, step)
    ensures Quiet(code, Next(code, s, step), id)
  {
    var m := s.manager;
    if step.id in m.entries && PrepareAlarm(m.entries[step.id], step.triggerTime, step.reading).Some? {
      InsertMembers(code, m.schedule.batches, PrepareAlarm(m.entries[step.id], step.triggerTime, step.reading).value);
    }
  }

  lemma ReconversionKeepsId(nowElapsed: int, id: uint64)
    ensures forall a: TimerInfo, c :: a.id != id && Reconverted(a, c, nowElapsed).Some? ==>
              Reconverted(a, c, nowElapsed).value.id != id
  {}

  lemma TriggerQuiet(code: Code, s: State, now: int, order: seq<TimerInfo>, id: uint64)
    requires Inv(code, s) && Quiet(code, s, id) && Enabled(code, s, Trigger(now, order))
    ensures Quiet(code, Next(code, s, Trigger(now, order)), id)
  {
    DrainForAll(code, s.manager.schedule, now, (a: TimerInfo) => a.id != id);
    forall f | f in order ensures f.id != id {
      var a := FiredBy(order, Drain(code, s.manager.schedule, now).alarms, now, f);
    }
  }

  lemma RemoveProxyKeepsQuiet(code: Code, p: Proxy, target: uint64, uid: int, id: uint64)
    ensures PendingWithout(p.pending, id) ==> PendingWithout(RemoveProxy(code, p, target, uid).pending, id)
  {
    if uid in p.pending {
      WithoutMembers(p.pending[uid], target);
    }
  }

  lemma DeliverQuiet(code: Code, s: State, id: uint64)
    requires Inv(code, s) && Quiet(code, s, id) && Enabled(code, s, DeliverOne)
    ensures Quiet(code, Next(code, s, DeliverOne), id)
  {
    var a, rest := s.looper.rest[0], s.looper.rest[1..];
    assert a in s.looper.rest;
    assert forall b :: b in rest ==> b in s.looper.rest;
  }

  /** A step hands over and calls back nothing of a quiet timer. */
  lemma QuietStep(code: Code, s: State, step: Step, id: uint64)
    requires Inv(code, s) && Quiet(code, s, id)
    ensures var s' := Next(code, s, step);
            && s.handed <= s'.handed && Invoked(s) <= Invoked(s')
            && (forall a :: a in s'.handed[|s.handed|..] ==> a.id != id)
            && (code.Repaired? ==> forall a :: a in Invoked(s')[|Invoked(s)|..] ==> a.id != id)
  {
    if Enabled(code, s, step) {
      var p := s.manager.proxy;
      match step
      case ProxyUid(uid, isProxy, needRetrigger) =>
        CallsMembers(Pending(p, uid));
      case ResetAllProxy =>
        forall a | a in Flush(p.pending) ensures code.Repaired? ==> a.id != id {
          FlushMembers(p.pending, a);
        }
      case DeliverOne =>
        assert s.looper.rest[0] in s.looper.rest;
      case _ =>
    }
  }

  /** A stopped timer is silent: once StopTimer or DestroyTimer has finished, nothing of it is handed
      over for delivery and, repaired, no callback with its id is made until it is started again,
      whatever was queued, in flight or buffered before. */
  lemma StoppedStaysSilent(code: Code, s: State, steps: seq<Step>)
    requires Inv(code, s) && s.client.Stopping?
    requires forall step :: step in steps ==> !Restarts(step, s.client.id)
    ensures Inv(code, Next(code, s, FinishStop))
    ensures var t, id := Next(code, s, FinishStop), s.client.id;
            var u := Run(code, t, steps);
            && t.handed <= u.handed && Invoked(t) <= Invoked(u)
            && (forall a :: a in u.handed[|t.handed|..] ==> a.id != id)
            && (code.Repaired? ==> forall a :: a in Invoked(u)[|Invoked(t)|..] ==> a.id != id)
  {
    StepInv(code, s, FinishStop);
    FinishStopQuiets(code, s);
    QuietRun(code, Next(code, s, FinishStop), steps, s.client.id);
  }

  lemma {:induction false} QuietRun(code: Code, s: State, steps: seq<Step>, id: uint64)
    requires Inv(code, s) && Quiet(code, s, id)
    requires forall step :: step in steps ==> !Restarts(step, id)
    ensures var u := Run(code, s, steps);
            && Quiet(code, u, id)
            && s.handed <= u.handed && Invoked(s) <= Invoked(u)
            && (forall a :: a in u.handed[|s.handed|..] ==> a.id != id)
            && (code.Repaired? ==> forall a :: a in Invoked(u)[|Invoked(s)|..] ==> a.id != id)
    decreases |steps|
  {
    if steps != [] {
      var n := |steps| - 1;
      var t := Run(code, s, steps[..n]);
      var u := Next(code, t, steps[n]);
      assert steps[n] in steps;
      QuietRun(code, s, steps[..n], id);
      StepQuiet(code, t, steps[n], id);
      QuietStep(code, t, steps[n], id);
      SuffixSplit(s.handed, t.handed, u.handed);
      SuffixSplit(Invoked(s), Invoked(t), Invoked(u));
    }
  }

  // ---------------------------------------------------------------- delivery is complete

  /** What of the trigger list is still to be delivered. */
  function Undelivered(s: State): seq<TimerInfo> {
    if s.looper.Delivering? then s.looper.rest else []
  }

  /** Everything triggered is handed over, in the order of the trigger lists: at every moment of
      every run the alarms handed over followed by those still to be delivered are the alarms
      triggered, those without a callback left out. */
  lemma {:induction false} TriggeredIsHanded(code: Code, steps: seq<Step>)
    ensures var s := Reached(code, steps); s.handed + Calls(Undelivered(s)) == Calls(s.triggered)
    decreases |steps|
  {
    if steps != [] {
      var n := |steps| - 1;
      TriggeredIsHanded(code, steps[..n]);
      StepHandsOn(code, Reached(code, steps[..n]), steps[n]);
    }
  }

  ghost predicate HandsOn(s: State) {
    s.handed + Calls(Undelivered(s)) == Calls(s.triggered)
  }

  lemma StepHandsOn(code: Code, s: State, step: Step)
    requires Inv(code, s) && HandsOn(s)
    ensures HandsOn(Next(code, s, step))
  {
    if Enabled(code, s, step) && step.Trigger? {
      TriggerHandsOn(code, s, step.now, step.order);
    } else if Enabled(code, s, step) && step.DeliverOne? {
      DeliverHandsOn(code, s);
    } else {
      OtherStepsKeepHistory(code, s, step);
    }
  }

  lemma TriggerHandsOn(code: Code, s: State, now: int, order: seq<TimerInfo>)
    requires Inv(code, s) && HandsOn(s) && Enabled(code, s, Trigger(now, order))
    ensures HandsOn(Next(code, s, Trigger(now, order)))
  {
    assert s.handed + [] == s.handed;
    CallsConcat(s.triggered, order);
  }

  lemma DeliverHandsOn(code: Code, s: State)
    requires Inv(code, s) && HandsOn(s) && Enabled(code, s, DeliverOne)
    ensures HandsOn(Next(code, s, DeliverOne))
  {
    HandOn(s.handed, s.looper.rest);
  }

  lemma OtherStepsKeepHistory(code: Code, s: State, step: Step)
    requires Inv(code, s) && (!Enabled(code, s, step) || (!step.Trigger? && !step.DeliverOne?))
    ensures var t := Next(code, s, step);
            t.handed == s.handed && t.triggered == s.triggered && Undelivered(t) == Undelivered(s)
  {}

  lemma HandOn(handed: seq<TimerInfo>, rest: seq<TimerInfo>)
    requires rest != []
    ensures (if rest[0].hasCallback then handed + [rest[0]] else handed) + Calls(rest[1..]) == handed + Calls(rest)
  {
    assert rest == [rest[0]] + rest[1..] && [rest[0]][..0] == [];
    CallsConcat([rest[0]], rest[1..]);
    assert Calls([rest[0]]) == if rest[0].hasCallback then [rest[0]] else [];
  }

  lemma {:induction false} CallsConcat(x: seq<TimerInfo>, y: seq<TimerInfo>)
    ensures Calls(x + y) == Calls(x) + Calls(y)
    decreases |y|
  {
    if y == [] {
      assert x + y == x;
    } else {
      var n := |y| - 1;
      assert (x + y)[..|x + y| - 1] == x + y[..n];
      CallsConcat(x, y[..n]);
    }
  }

  // ---------------------------------------------------------------- proxying is a delay

  /** The steps that throw buffered alarms away. */
  predicate Discards(step: Step) {
    step.FinishStop? || (step.ProxyUid? && !step.isProxy && !step.needRetrigger)
  }

  /** `p` after some steps still serves each uid a part of what was handed over for it. */
  ghost predicate Lags(p: Proxy, handed: seq<TimerInfo>, uid: int) {
    Subseq(Served(p, uid), ForUid(handed, uid))
  }

  lemma ProxyTimerLags(p: Proxy, handed: seq<TimerInfo>, target: int, isProxy: bool, needRetrigger: bool, uid: int)
    requires Buffers(p) && Lags(p, handed, uid)
    ensures Lags(ProxyTimer(p, target, isProxy, needRetrigger).0, handed, uid)
  {
    ProxyTimerServes(p, target, isProxy, needRetrigger, uid);
    SubseqPrefix(ForUid(p.invoked, uid), Pending(p, uid));
    SubseqTrans(ForUid(p.invoked, uid), Served(p, uid), ForUid(handed, uid));
  }

  lemma RemoveProxyLags(code: Code, p: Proxy, handed: seq<TimerInfo>, id: uint64, target: int, uid: int)
    requires Lags(p, handed, uid)
    ensures Lags(RemoveProxy(code, p, id, target), handed, uid)
  {
    RemoveProxyServes(code, p, id, target, uid);
    SubseqTrans(Served(RemoveProxy(code, p, id, target), uid), Served(p, uid), ForUid(handed, uid));
  }

  lemma DeliverLags(p: Proxy, handed: seq<TimerInfo>, a: TimerInfo, uid: int)
    requires Buffers(p) && Lags(p, handed, uid)
    ensures var q, handed' := Deliver(p, a), if a.hasCallback then handed + [a] else handed;
            Lags(q, handed', uid) &&
            (Served(p, uid) == ForUid(handed, uid) ==> Served(q, uid) == ForUid(handed', uid))
  {
    DeliverServes(p, a, uid);
    ForUidStep(handed, a, uid);
    SubseqAppend(Served(p, uid), ForUid(handed, uid), a);
  }

  /** After the step the uid is still served a part of what was handed over for it, and all of it if
      it was before and nothing was discarded. */
  ghost predicate StillServed(s: State, step: Step, t: State, uid: int) {
    && Lags(t.manager.proxy, t.handed, uid)
    && (!Discards(step) && Served(s.manager.proxy, uid) == ForUid(s.handed, uid) ==>
          Served(t.manager.proxy, uid) == ForUid(t.handed, uid))
  }

  lemma ProxyUidServes(code: Code, s: State, step: Step, uid: int)
    requires Inv(code, s) && Lags(s.manager.proxy, s.handed, uid) && step.ProxyUid?
    ensures StillServed(s, step, Next(code, s, step), uid)
  {
    ProxyTimerLags(s.manager.proxy, s.handed, step.uid, step.isProxy, step.needRetrigger, uid);
    ProxyTimerServes(s.manager.proxy, step.uid, step.isProxy, step.needRetrigger, uid);
  }

  lemma ResetServes(code: Code, s: State, uid: int)
    requires Inv(code, s) && Lags(s.manager.proxy, s.handed, uid)
    ensures StillServed(s, Step.ResetAllProxy, Next(code, s, Step.ResetAllProxy), uid)
  {
    ResetAllServes(s.manager.proxy, uid);
  }

  lemma FinishStopServes(code: Code, s: State, uid: int)
    requires Inv(code, s) && Lags(s.manager.proxy, s.handed, uid) && Enabled(code, s, FinishStop)
    ensures StillServed(s, FinishStop, Next(code, s, FinishStop), uid)
  {
    RemoveProxyLags(code, s.manager.proxy, s.handed, s.client.id, s.client.uid, uid);
  }

  lemma DeliverOneServes(code: Code, s: State, uid: int)
    requires Inv(code, s) && Lags(s.manager.proxy, s.handed, uid) && Enabled(code, s, DeliverOne)
    ensures StillServed(s, DeliverOne, Next(code, s, DeliverOne), uid)
  {
    DeliverLags(s.manager.proxy, s.handed, s.looper.rest[0], uid);
  }

  predicate ServesNobody(step: Step) {
    !step.ProxyUid? && !step.ResetAllProxy? && !step.FinishStop? && !step.DeliverOne?
  }

  lemma OtherStepsKeepProxy(code: Code, s: State, step: Step)
    requires Inv(code, s) && (ServesNobody(step) || !Enabled(code, s, step))
    ensures Next(code, s, step).manager.proxy == s.manager.proxy && Next(code, s, step).handed == s.handed
  {}

  lemma StepServes(code: Code, s: State, step: Step, uid: int)
    requires Inv(code, s) && Lags(s.manager.proxy, s.handed, uid)
    ensures StillServed(s, step, Next(code, s, step), uid)
  {
    if ServesNobody(step) || !Enabled(code, s, step) {
      OtherStepsKeepProxy(code, s, step);
    } else {
      match step
      case ProxyUid(_, _, _) => ProxyUidServes(code, s, step, uid);
      case ResetAllProxy => ResetServes(code, s, uid);
      case FinishStop => FinishStopServes(code, s, uid);
      case DeliverOne => DeliverOneServes(code, s, uid);
    }
  }

  /** Proxying is per-uid FIFO delay. At every moment of every run, the callbacks made for a uid
      followed by those waiting for it are a subsequence of the alarms handed over for it, and
      the whole sequence as long as nothing was discarded and no timer was stopped. */
  lemma {:induction false} ProxyIsFifoDelay(code: Code, steps: seq<Step>, uid: int)
    ensures var s := Reached(code, steps);
            && Lags(s.manager.proxy, s.handed, uid)
            && ((forall step :: step in steps ==> !Discards(step)) ==>
                  Served(s.manager.proxy, uid) == ForUid(s.handed, uid))
    decreases |steps|
  {
    if steps != [] {
      var n := |steps| - 1;
      ProxyIsFifoDelay(code, steps[..n], uid);
      StepServes(code, Reached(code, steps[..n]), steps[n], uid);
      assert steps[n] in steps && forall step :: step in steps[..n] ==> step in steps;
    }
  }

  /** A uid that is not proxied has nothing waiting: it has been called back for everything. */
  lemma UnproxiedIsUpToDate(code: Code, steps: seq<Step>, uid: int)
    requires forall step :: step in steps ==> !Discards(step)
    requires uid !in Reached(code, steps).manager.proxy.uids
    ensures ForUid(Invoked(Reached(code, steps)), uid) == ForUid(Reached(code, steps).handed, uid)
  {
    ProxyIsFifoDelay(code, steps, uid);
    assert Pending(Reached(code, steps).manager.proxy, uid) == [];
  }

  // ---------------------------------------------------------------- direct and held callbacks

  predicate Proxies(step: Step, uid: int) {
    step.ProxyUid? && step.uid == uid && step.isProxy
  }

  predicate Lifts(step: Step, uid: int) {
    step.ResetAllProxy? || (step.ProxyUid? && step.uid == uid && !step.isProxy)
  }

  ghost predicate IsProxied(s: State, uid: int) {
    uid in s.manager.proxy.uids
  }

  /** From `s` to `t` the uid was called back for exactly what was handed over for it. */
  ghost predicate Direct(s: State, t: State, uid: int) {
    && s.handed <= t.handed
    && ForUid(Invoked(t), uid) == ForUid(Invoked(s), uid) + ForUid(t.handed[|s.handed|..], uid)
  }

  lemma StepIsDirect(code: Code, s: State, step: Step, uid: int)
    requires Inv(code, s) && !IsProxied(s, uid) && !Proxies(step, uid)
    ensures var t := Next(code, s, step); !IsProxied(t, uid) && Direct(s, t, uid)
  {
    if step.DeliverOne? && Enabled(code, s, step) {
      DeliverIsDirect(code, s, uid);
    } else {
      CallsNothing(code, s, step, uid);
      NothingIsDirect(s, Next(code, s, step), uid);
    }
  }

  lemma NothingIsDirect(s: State, t: State, uid: int)
    requires t.handed == s.handed && ForUid(Invoked(t), uid) == ForUid(Invoked(s), uid)
    ensures Direct(s, t, uid)
  {}

  lemma DeliverIsDirect(code: Code, s: State, uid: int)
    requires Inv(code, s) && Enabled(code, s, DeliverOne) && !IsProxied(s, uid)
    ensures var t := Next(code, s, DeliverOne); !IsProxied(t, uid) && Direct(s, t, uid)
  {
    DeliverCalls(s.manager.proxy, s.looper.rest[0], uid);
    HandedSuffix(s.handed, s.looper.rest[0], uid);
  }

  lemma HandedSuffix(handed: seq<TimerInfo>, a: TimerInfo, uid: int)
    ensures var more := if a.hasCallback then handed + [a] else handed;
            && handed <= more
            && ForUid(more[|handed|..], uid) == if a.hasCallback && a.uid == uid then [a] else []
  {
    assert (handed + [a])[|handed|..] == [a] && [a][..0] == [];
  }

  /** Every other step hands nothing over and calls nobody back but a uid whose proxy it lifts. */
  lemma CallsNothing(code: Code, s: State, step: Step, uid: int)
    requires Inv(code, s) && (!step.DeliverOne? || !Enabled(code, s, step))
    requires IsProxied(s, uid) ==> !Lifts(step, uid)
    requires !IsProxied(s, uid) ==> !Proxies(step, uid)
    ensures var t := Next(code, s, step);
            && t.handed == s.handed && ForUid(Invoked(t), uid) == ForUid(Invoked(s), uid)
            && (IsProxied(t, uid) <==> IsProxied(s, uid))
  {
    var p := s.manager.proxy;
    if ServesNobody(step) || !Enabled(code, s, step) {
      OtherStepsKeepProxy(code, s, step);
    } else {
      match step
      case ProxyUid(target, isProxy, needRetrigger) =>
        ProxyTimerCalls(p, target, isProxy, needRetrigger, uid);
        ProxyTimerBuffers(p, target, isProxy, needRetrigger);
      case ResetAllProxy => ResetCallsNothing(p, uid);
      case FinishStop => RemoveProxyExact(code, p, s.client.id, s.client.uid, uid);
    }
  }

  lemma ResetCallsNothing(p: Proxy, uid: int)
    requires Buffers(p) && uid !in p.uids
    ensures ForUid(ResetAll(p).invoked, uid) == ForUid(p.invoked, uid) && uid !in ResetAll(p).uids
  {
    ResetAllServes(p, uid);
  }

  /** A uid that is not proxied is called back at once: over every run that does not proxy it, its
      callbacks grow by exactly the alarms handed over for it, in order. */
  lemma {:induction false} UnproxiedIsDirect(code: Code, s: State, steps: seq<Step>, uid: int)
    requires Inv(code, s) && !IsProxied(s, uid)
    requires forall step :: step in steps ==> !Proxies(step, uid)
    ensures var t := Run(code, s, steps); !IsProxied(t, uid) && Direct(s, t, uid)
    decreases |steps|
  {
    if steps != [] {
      var n := |steps| - 1;
      assert steps[n] in steps;
      var t := Run(code, s, steps[..n]);
      UnproxiedIsDirect(code, s, steps[..n], uid);
      StepIsDirect(code, t, steps[n], uid);
      DirectTwice(s, t, Next(code, t, steps[n]), uid);
    }
  }

  lemma DirectTwice(s: State, t: State, u: State, uid: int)
    requires Direct(s, t, uid) && Direct(t, u, uid)
    ensures Direct(s, u, uid)
  {
    SuffixForUid(s.handed, t.handed, u.handed, uid);
  }

  lemma SuffixForUid(x: seq<TimerInfo>, y: seq<TimerInfo>, z: seq<TimerInfo>, uid: int)
    requires x <= y && y <= z
    ensures x <= z && ForUid(z[|x|..], uid) == ForUid(y[|x|..], uid) + ForUid(z[|y|..], uid)
  {
    SuffixSplit(x, y, z);
    ForUidConcat(y[|x|..], z[|y|..], uid);
  }

  /** So after a reset, which leaves nobody proxied, every uid is called back at once until the next
      proxy call for it. */
  lemma ResetIsDirect(code: Code, s: State, steps: seq<Step>, uid: int)
    requires Inv(code, s)
    requires forall step :: step in steps ==> !Proxies(step, uid)
    ensures Inv(code, Next(code, s, Step.ResetAllProxy))
    ensures var t := Next(code, s, Step.ResetAllProxy);
            var u := Run(code, t, steps);
            !IsProxied(u, uid) && Direct(t, u, uid) && Pending(u.manager.proxy, uid) == []
  {
    StepInv(code, s, Step.ResetAllProxy);
    ResetAllServes(s.manager.proxy, uid);
    UnproxiedIsDirect(code, Next(code, s, Step.ResetAllProxy), steps, uid);
  }

  lemma StepIsHeld(code: Code, s: State, step: Step, uid: int)
    requires Inv(code, s) && IsProxied(s, uid) && !Lifts(step, uid)
    ensures var t := Next(code, s, step); IsProxied(t, uid) && ForUid(Invoked(t), uid) == ForUid(Invoked(s), uid)
  {
    if step.DeliverOne? && Enabled(code, s, step) {
      DeliverCalls(s.manager.proxy, s.looper.rest[0], uid);
    } else {
      CallsNothing(code, s, step, uid);
    }
  }

  /** A proxied uid is not called back at all: over every run that neither lifts its proxy nor resets
      all of them, whatever is handed over for it. */
  lemma {:induction false} ProxiedIsHeld(code: Code, s: State, steps: seq<Step>, uid: int)
    requires Inv(code, s) && IsProxied(s, uid)
    requires forall step :: step in steps ==> !Lifts(step, uid)
    ensures var t := Run(code, s, steps); IsProxied(t, uid) && ForUid(Invoked(t), uid) == ForUid(Invoked(s), uid)
    decreases |steps|
  {
    if steps != [] {
      var n := |steps| - 1;
      assert steps[n] in steps;
      ProxiedIsHeld(code, s, steps[..n], uid);
      StepIsHeld(code, Run(code, s, steps[..n]), steps[n], uid);
    }
  }

  // ---------------------------------------------------------------- undisturbed calls are runs

  lemma {:induction false} RunConcat(code: Code, s: State, x: seq<Step>, y: seq<Step>)
    requires Inv(code, s)
    ensures Run(code, s, x + y) == Run(code, Run(code, s, x), y)
    decreases |y|
  {
    if y == [] {
      assert x + y == x;
    } else {
      var n := |y| - 1;
      RunConcat(code, s, x, y[..n]);
      SplitLast(x, y);
      RunLast(code, s, x + y[..n], y[n]);
      RunLast(code, Run(code, s, x), y[..n], y[n]);
    }
  }

  lemma SplitLast(x: seq<Step>, y: seq<Step>)
    requires y != []
    ensures var n := |y| - 1; x + y == (x + y[..n]) + [y[n]] && y == y[..n] + [y[n]]
  {}

  lemma RunLast(code: Code, s: State, x: seq<Step>, step: Step)
    requires Inv(code, s)
    ensures Run(code, s, x + [step]) == Next(code, Run(code, s, x), step)
  {
    var z := x + [step];
    assert z[..|z| - 1] == x && z[|z| - 1] == step;
  }

  lemma RunOne(code: Code, s: State, step: Step)
    requires Inv(code, s)
    ensures Run(code, s, [step]) == Next(code, s, step)
  {
    assert [step][..0] == [];
  }

  /** StopTimer or DestroyTimer without interference is its two critical sections in a row. */
  lemma StopIsRun(code: Code, s: State, id: uint64, needDestroy: bool, rebatchAt: int, clocks: Readings)
    requires Inv(code, s) && s.client.Idle? && s.looper.Waiting? && id in s.manager.entries
    ensures Run(code, s, [RemoveHandler(id, needDestroy, rebatchAt, clocks)] + [FinishStop]) ==
            s.(manager := Stopped(code, s.manager, id, needDestroy, rebatchAt, clocks))
  {
    var first := RemoveHandler(id, needDestroy, rebatchAt, clocks);
    RunOne(code, s, first);
    RunConcat(code, s, [first], [FinishStop]);
    RunOne(code, Next(code, s, first), FinishStop);
  }

  function DeliverSteps(n: nat): seq<Step> {
    seq(n, _ => DeliverOne)
  }

  lemma {:induction false} DeliveriesAreRun(code: Code, s: State)
    requires Inv(code, s) && s.looper.Delivering?
    ensures var t := Run(code, s, DeliverSteps(|s.looper.rest|));
            && t.manager == s.manager.(proxy := DeliverAll(s.manager.proxy, s.looper.rest))
            && t.looper == Delivering([]) && t.client == s.client
    decreases |s.looper.rest|
  {
    var rest := s.looper.rest;
    if rest != [] {
      var t := Next(code, s, DeliverOne);
      StepInv(code, s, DeliverOne);
      DeliveriesAreRun(code, t);
      assert DeliverSteps(|rest|) == [DeliverOne] + DeliverSteps(|rest| - 1);
      RunConcat(code, s, [DeliverOne], DeliverSteps(|rest| - 1));
      RunOne(code, s, DeliverOne);
    } else {
      assert DeliverSteps(0) == [];
    }
  }

  /** A looper round without interference is the run trigger, deliver each alarm, release. */
  lemma RoundIsRun(code: Code, s: State, now: int, order: seq<TimerInfo>)
    requires Inv(code, s) && s.looper.Waiting? && TriggerOrder(order, Drain(code, s.manager.schedule, now).alarms, now)
    ensures var t := Run(code, s, ([Trigger(now, order)] + DeliverSteps(|order|)) + [Release]);
            t.manager == AfterRoundOf(code, s.manager, now, order) && t.looper == Waiting && t.client == s.client
  {
    var first := Trigger(now, order);
    var a := Next(code, s, first);
    StepInv(code, s, first);
    RunOne(code, s, first);
    RunConcat(code, s, [first], DeliverSteps(|order|));
    DeliveriesAreRun(code, a);
    var b := Run(code, a, DeliverSteps(|order|));
    RunConcat(code, s, [first] + DeliverSteps(|order|), [Release]);
    RunOne(code, b, Release);
  }

  /** The steps of one pass of the looper after the wait. */
  ghost function LooperSteps(changed: bool, onlyChanged: bool, nowWall: int, nowElapsed: nat, rebatchAt: int,
                             clocks: Readings, order: seq<TimerInfo>): seq<Step>
  {
    (if changed then [TimeChanged(nowWall, nowElapsed, rebatchAt, clocks)] else []) +
    (if onlyChanged then [Rearm] else ([Trigger(nowElapsed, order)] + DeliverSteps(|order|)) + [Release])
  }

  /** A pass of the looper without interference is a run: a step for the clock change exactly if the
      wait reports one, then a round, or only re-arming if it reports nothing else. */
  lemma LooperIsRun(code: Code, s: State, changed: bool, onlyChanged: bool, nowWall: int, nowElapsed: nat,
                    rebatchAt: int, clocks: Readings, order: seq<TimerInfo>)
    requires Inv(code, s) && s.looper.Waiting?
    requires var m := AfterClockChange(code, s.manager, changed, nowWall, nowElapsed, rebatchAt, clocks);
             !onlyChanged ==> TriggerOrder(order, Drain(code, m.schedule, nowElapsed).alarms, nowElapsed)
    ensures var m := AfterClockChange(code, s.manager, changed, nowWall, nowElapsed, rebatchAt, clocks);
            var t := Run(code, s, LooperSteps(changed, onlyChanged, nowWall, nowElapsed, rebatchAt, clocks, order));
            && t.manager == (if onlyChanged then m.(schedule := Reschedule(m.schedule))
                             else AfterRoundOf(code, m, nowElapsed, order))
            && t.looper == Waiting && t.client == s.client
  {
    var first := if changed then [TimeChanged(nowWall, nowElapsed, rebatchAt, clocks)] else [];
    var rest := if onlyChanged then [Rearm] else ([Trigger(nowElapsed, order)] + DeliverSteps(|order|)) + [Release];
    var m := AfterClockChange(code, s.manager, changed, nowWall, nowElapsed, rebatchAt, clocks);
    ChangeIsRun(code, s, changed, nowWall, nowElapsed, rebatchAt, clocks);
    var t := Run(code, s, first);
    RunConcat(code, s, first, rest);
    if onlyChanged {
      RunOne(code, t, Rearm);
    } else {
      RoundIsRun(code, t, nowElapsed, order);
    }
  }

  lemma ChangeIsRun(code: Code, s: State, changed: bool, nowWall: int, nowElapsed: nat, rebatchAt: int, clocks: Readings)
    requires Inv(code, s) && s.looper.Waiting?
    ensures Run(code, s, if changed then [TimeChanged(nowWall, nowElapsed, rebatchAt, clocks)] else []) ==
            s.(manager := AfterClockChange(code, s.manager, changed, nowWall, nowElapsed, rebatchAt, clocks))
  {
    if changed {
      RunOne(code, s, TimeChanged(nowWall, nowElapsed, rebatchAt, clocks));
    }
  }
}
