/** The timer service as a state machine whose steps are its critical sections. A client call
    holds entryMapMutex_ throughout; StopTimer and DestroyTimer take mutex_ for RemoveHandler and
    then proxyMutex_ for RemoveProxy, and the two may be separated by steps of other threads. A
    looper round holds mutex_ from triggering to re-arming and takes proxyMutex_ for each alarm
    it delivers, so proxy calls interleave with the deliveries. */
module Protocol {
  import opened Units
  import opened TimerInfos
  import opened Batches
  import opened BatchLists
  import opened Rebatching
  import opened Draining
  import opened Proxying

  /** The fields of TimerManager. */
  datatype Manager = Manager(entries: map<uint64, TimerEntry>, schedule: Schedule, proxy: Proxy,
                             lastChange: Option<Clock>)

  /** Who holds entryMapMutex_ in the middle of a call. */
  datatype Client = Idle | Stopping(id: uint64, uid: int, needDestroy: bool)

  /** Who holds mutex_ in the middle of a round: `rest` is the trigger list not yet delivered. */
  datatype Looper = Waiting | Delivering(rest: seq<TimerInfo>)

  /** `triggered` is the history of all trigger lists, `handed` that of the alarms, with a callback,
      that reached CallbackAlarmIfNeed. */
  datatype State = State(manager: Manager, client: Client, looper: Looper, triggered: seq<TimerInfo>,
                         handed: seq<TimerInfo>)

  datatype Step =
    | CreateTimer(entry: TimerEntry)
    | StartTimer(id: uint64, triggerTime: uint64, reading: StartReading)
    | RemoveHandler(id: uint64, needDestroy: bool, rebatchAt: int, clocks: Readings)
    | FinishStop
    | ProxyUid(uid: int, isProxy: bool, needRetrigger: bool)
    | ResetAllProxy
    | TimeChanged(nowWall: int, nowElapsed: nat, rebatchAt: int, clocks: Readings)
    | Rearm
    | Trigger(now: int, order: seq<TimerInfo>)
    | DeliverOne
    | Release

  function Init(): State {
    State(Manager(map[], Schedule([], Armed(None, None)), Proxy({}, map[], []), None), Idle, Waiting, [], [])
  }

  // ---------------------------------------------------------------- the sections

  /** CreateTimer: std::map::insert leaves an entry that is already there. */
  function Created(m: Manager, e: TimerEntry): Manager {
    if e.id in m.entries then m else m.(entries := m.entries[e.id := e])
  }

  /** StartTimer; the result is whether the id was known, not whether anything was queued. */
  function Started(code: Code, m: Manager, id: uint64, triggerTime: uint64, r: StartReading): (Manager, bool) {
    if id !in m.entries then (m, false)
    else
      match PrepareAlarm(m.entries[id], triggerTime, r)
      case None => (m, true)
      case Some(a) => (m.(schedule := SetAlarm(code, m.schedule, a)), true)
  }

  /** The test TimerLooper makes when the kernel reports a clock change: did the wall clock move
      more than a second away from where the last change and the boot clock put it? */
  predicate WallClockJumped(last: Option<Clock>, nowWall: int, nowElapsed: nat) {
    last.None? ||
    var expected := last.value.wall + (ToMillis(nowElapsed) - ToMillis(last.value.boot)) * NS_PER_MS;
    nowWall < expected - 1000 * NS_PER_MS || nowWall > expected + 1000 * NS_PER_MS
  }

  /** The clock counts as changed exactly when it moved against the boot clock by more than a second,
      give or take the fractions of a millisecond of the two boot readings; so one that ran along
      never does and one that was set by more than a second and a millisecond always does. */
  lemma JumpDetection(last: Clock, nowWall: int, nowElapsed: nat)
    ensures var jump := (nowWall - last.wall) - (nowElapsed - last.boot);
            var fractions := nowElapsed % NS_PER_MS - last.boot % NS_PER_MS;
            && (WallClockJumped(Some(last), nowWall, nowElapsed) <==>
                  jump + fractions < -1000 * NS_PER_MS || 1000 * NS_PER_MS < jump + fractions)
            && (-999 * NS_PER_MS <= jump <= 999 * NS_PER_MS ==> !WallClockJumped(Some(last), nowWall, nowElapsed))
            && (jump < -1001 * NS_PER_MS || 1001 * NS_PER_MS < jump ==> WallClockJumped(Some(last), nowWall, nowElapsed))
  {}

  function ClockChanged(code: Code, m: Manager, nowWall: int, nowElapsed: nat, rebatchAt: int, clocks: Readings): Manager {
    if WallClockJumped(m.lastChange, nowWall, nowElapsed)
    then m.(schedule := Rebatch(code, m.schedule, rebatchAt, clocks), lastChange := Some(Clock(nowElapsed, nowWall)))
    else m
  }

  /** What counting a change records: a first report counts; after a report that counted, one whose
      clocks ran along to within a second does not and changes nothing. */
  lemma ChangeSettles(code: Code, m: Manager, nowWall: int, nowElapsed: nat, rebatchAt: int, clocks: Readings,
                      laterWall: int, laterElapsed: nat, laterAt: int, laterClocks: Readings)
    requires var drift := (laterWall - nowWall) - (laterElapsed - nowElapsed); -999 * NS_PER_MS <= drift <= 999 * NS_PER_MS
    ensures m.lastChange == None ==> WallClockJumped(m.lastChange, nowWall, nowElapsed)
    ensures WallClockJumped(m.lastChange, nowWall, nowElapsed) ==>
              var n := ClockChanged(code, m, nowWall, nowElapsed, rebatchAt, clocks);
              && !WallClockJumped(n.lastChange, laterWall, laterElapsed)
              && ClockChanged(code, n, laterWall, laterElapsed, laterAt, laterClocks) == n
  {
    JumpDetection(Clock(nowElapsed, nowWall), laterWall, laterElapsed);
  }

  function Erased(m: Manager, id: uint64, needDestroy: bool): Manager {
    if needDestroy then m.(entries := m.entries - {id}) else m
  }

  /** An order std::sort may leave the trigger list in: ties in any order. */
  ghost predicate TriggerOrder(order: seq<TimerInfo>, drained: seq<TimerInfo>, now: int) {
    multiset(order) == multiset(FireAll(drained, now)) && Ordered(order)
  }

  ghost predicate Enabled(code: Code, s: State, step: Step)
    requires AllHold(s.manager.schedule.batches)
  {
    match step
    case CreateTimer(e) => s.client.Idle? && e.id != 0
    case StartTimer(id, _, _) => s.client.Idle? && s.looper.Waiting?
    case RemoveHandler(id, _, _, _) => s.client.Idle? && s.looper.Waiting? && id in s.manager.entries
    case FinishStop => s.client.Stopping?
    case ProxyUid(_, _, _) => true
    case ResetAllProxy => true
    case TimeChanged(_, _, _, _) => s.looper.Waiting?
    case Rearm => s.looper.Waiting?
    case Trigger(now, order) =>
      s.looper.Waiting? && TriggerOrder(order, Drain(code, s.manager.schedule, now).alarms, now)
    case DeliverOne => s.looper.Delivering? && s.looper.rest != []
    case Release => s.looper.Delivering? && s.looper.rest == []
  }

  /** One step; a step that is not enabled changes nothing. */
  ghost function Next(code: Code, s: State, step: Step): State
    requires AllHold(s.manager.schedule.batches)
  {
    var m := s.manager;
    if !Enabled(code, s, step) then s
    else
      match step
      case CreateTimer(e) => s.(manager := Created(m, e))
      case StartTimer(id, triggerTime, r) => s.(manager := Started(code, m, id, triggerTime, r).0)
      case RemoveHandler(id, needDestroy, rebatchAt, clocks) =>
        s.(manager := m.(schedule := RemoveTimer(code, m.schedule, id, rebatchAt, clocks)),
           client := Stopping(id, m.entries[id].uid, needDestroy))
      case FinishStop =>
        var c := s.client;
        s.(manager := Erased(m.(proxy := RemoveProxy(code, m.proxy, c.id, c.uid)), c.id, c.needDestroy),
           client := Idle)
      case ProxyUid(uid, isProxy, needRetrigger) =>
        s.(manager := m.(proxy := ProxyTimer(m.proxy, uid, isProxy, needRetrigger).0))
      case ResetAllProxy => s.(manager := m.(proxy := ResetAll(m.proxy)))
      case TimeChanged(nowWall, nowElapsed, rebatchAt, clocks) =>
        s.(manager := ClockChanged(code, m, nowWall, nowElapsed, rebatchAt, clocks))
      case Rearm => s.(manager := m.(schedule := Reschedule(m.schedule)))
      case Trigger(now, order) =>
        s.(manager := m.(schedule := Drain(code, m.schedule, now).schedule), looper := Delivering(order),
           triggered := s.triggered + order)
      case DeliverOne =>
        var a := s.looper.rest[0];
        s.(manager := m.(proxy := Deliver(m.proxy, a)), looper := Delivering(s.looper.rest[1..]),
           handed := if a.hasCallback then s.handed + [a] else s.handed)
      case Release => s.(manager := m.(schedule := Reschedule(m.schedule)), looper := Waiting)
  }

  // ---------------------------------------------------------------- locks

  /** entryMapMutex_, mutex_ and proxyMutex_. */
  datatype Lock = EntryMapLock | ScheduleLock | ProxyLock

  /** The locks held between steps; proxyMutex_ never is. */
  function Held(s: State): set<Lock> {
    (if s.client.Stopping? then {EntryMapLock} else {}) + (if s.looper.Delivering? then {ScheduleLock} else {})
  }

  /** The locks the section of a step takes. */
  function Takes(step: Step): set<Lock> {
    match step
    case CreateTimer(_) => {EntryMapLock}
    case StartTimer(_, _, _) => {EntryMapLock, ScheduleLock}
    case RemoveHandler(_, _, _, _) => {EntryMapLock, ScheduleLock}
    case TimeChanged(_, _, _, _) => {ScheduleLock}
    case Rearm => {ScheduleLock}
    case Trigger(_, _) => {ScheduleLock}
    case Release => {}
    case _ => {ProxyLock}
  }

  /** What a step needs besides its locks: arguments the code gets that far with, or a call or round
      under way that it continues. */
  ghost predicate Applies(code: Code, s: State, step: Step)
    requires AllHold(s.manager.schedule.batches)
  {
    match step
    case CreateTimer(e) => e.id != 0
    case RemoveHandler(id, _, _, _) => id in s.manager.entries
    case Trigger(now, order) => TriggerOrder(order, Drain(code, s.manager.schedule, now).alarms, now)
    case FinishStop => EntryMapLock in Held(s)
    case DeliverOne => ScheduleLock in Held(s) && s.looper.rest != []
    case Release => ScheduleLock in Held(s) && s.looper.rest == []
    case _ => true
  }

  /** Nothing but the locks keeps a step from being taken. */
  lemma EnabledIffLocksFree(code: Code, s: State, step: Step)
    requires AllHold(s.manager.schedule.batches)
    ensures Enabled(code, s, step) <==> Takes(step) !! Held(s) && Applies(code, s, step)
  {}

  // ---------------------------------------------------------------- whole calls, undisturbed

  ghost function AfterClockChange(code: Code, m: Manager, changed: bool, nowWall: int, nowElapsed: nat, rebatchAt: int,
                                  clocks: Readings): (r: Manager)
    requires AllHold(m.schedule.batches)
    ensures AllHold(r.schedule.batches)
  {
    RebatchHolds(code, m.schedule, rebatchAt, clocks);
    if changed then ClockChanged(code, m, nowWall, nowElapsed, rebatchAt, clocks) else m
  }

  ghost function AfterRoundOf(code: Code, m: Manager, now: int, order: seq<TimerInfo>): Manager
    requires AllHold(m.schedule.batches)
  {
    m.(schedule := Reschedule(Drain(code, m.schedule, now).schedule), proxy := DeliverAll(m.proxy, order))
  }

  function Stopped(code: Code, m: Manager, id: uint64, needDestroy: bool, rebatchAt: int, clocks: Readings): Manager {
    if id !in m.entries then m
    else Erased(Cleared(code, m, id, m.entries[id].uid, rebatchAt, clocks), id, needDestroy)
  }

  function Cleared(code: Code, m: Manager, id: uint64, uid: int, rebatchAt: int, clocks: Readings): Manager {
    m.(schedule := RemoveTimer(code, m.schedule, id, rebatchAt, clocks), proxy := RemoveProxy(code, m.proxy, id, uid))
  }

  // ---------------------------------------------------------------- the invariant

  /** The alarm belongs to a registered timer and carries its uid. */
  predicate Known(entries: map<uint64, TimerEntry>, a: TimerInfo) {
    a.id in entries && entries[a.id].uid == a.uid
  }

  /** ... and not to the timer whose removal is under way. */
  predicate Live(s: State, a: TimerInfo) {
    Known(s.manager.entries, a) && (s.client.Stopping? ==> a.id != s.client.id)
  }

  /** Holds of the program as written and of the repaired one. */
  ghost predicate ScheduleOk(code: Code, c: Schedule) {
    && AllHold(c.batches) && AllWellShaped(Queue(c.batches))
    && (code.Repaired? ==> Sorted(c.batches) && AllFit(c.batches))
  }

  ghost predicate EntriesOk(s: State) {
    && (forall id :: id in s.manager.entries ==> s.manager.entries[id].id == id)
    && (s.client.Stopping? ==> s.client.id in s.manager.entries && s.manager.entries[s.client.id].uid == s.client.uid)
  }

  ghost predicate QueueLive(s: State) {
    forall a :: a in Queue(s.manager.schedule.batches) ==> Live(s, a)
  }

  ghost predicate RestLive(s: State) {
    s.looper.Delivering? ==> forall a :: a in s.looper.rest ==> Live(s, a)
  }

  ghost predicate PendingKnown(s: State) {
    forall uid :: uid in s.manager.proxy.pending ==>
      forall a :: a in s.manager.proxy.pending[uid] ==> Known(s.manager.entries, a)
  }

  /** While nobody holds mutex_, the armed deadlines are those of the present list. */
  ghost predicate DeadlinesOk(s: State) {
    s.looper.Waiting? ==> Fresh(s.manager.schedule)
  }

  ghost predicate Inv(code: Code, s: State) {
    && ScheduleOk(code, s.manager.schedule)
    && EntriesOk(s)
    && QueueLive(s)
    && RestLive(s)
    && Buffers(s.manager.proxy)
    && (code.Repaired? ==> PendingKnown(s) && DeadlinesOk(s))
  }

  lemma InitInv(code: Code)
    ensures Inv(code, Init())
  {}

  lemma StartInv(code: Code, s: State, step: Step)
    requires Inv(code, s) && step.StartTimer? && Enabled(code, s, step)
    ensures Inv(code, Next(code, s, step))
  {
    var m := s.manager;
    if step.id in m.entries && PrepareAlarm(m.entries[step.id], step.triggerTime, step.reading).Some? {
      var a := PrepareAlarm(m.entries[step.id], step.triggerTime, step.reading).value;
      PreparedShape(m.entries[step.id], step.triggerTime, step.reading);
      InsertMembers(code, m.schedule.batches, a);
      SetAlarmKeeps(code, m.schedule, a);
    }
  }

  lemma InsertMembers(code: Code, bs: seq<BatchState>, a: TimerInfo)
    ensures forall b :: b in Queue(Insert(code, bs, a)) <==> b == a || b in Queue(bs)
  {
    InsertTimers(code, bs, a);
    forall b ensures b in Queue(Insert(code, bs, a)) <==> b == a || b in Queue(bs) {
      assert b in Queue(Insert(code, bs, a)) <==> b in Timers(Insert(code, bs, a));
    }
  }

  lemma SetAlarmKeeps(code: Code, c: Schedule, a: TimerInfo)
    requires ScheduleOk(code, c) && WellShaped(a)
    ensures ScheduleOk(code, SetAlarm(code, c, a))
    ensures Fresh(SetAlarm(code, c, a))
  {
    InsertMembers(code, c.batches, a);
    InsertHolds(code, c.batches, a);
    if code.Repaired? {
      InsertFits(c.batches, a);
      InsertSorted(code, c.batches, a);
    }
    RescheduleFresh(c.(batches := Insert(code, c.batches, a)));
  }

  lemma RemoveHandlerInv(code: Code, s: State, step: Step)
    requires Inv(code, s) && step.RemoveHandler? && Enabled(code, s, step)
    ensures Inv(code, Next(code, s, step))
  {
    var s', c := Next(code, s, step), s.manager.schedule;
    ReconversionKeeps(step.rebatchAt);
    RemoveForAll(code, c, step.id, step.rebatchAt, step.clocks, a => WellShaped(a) && Live(s', a));
    RemoveKeeps(code, c, step.id, step.rebatchAt, step.clocks);
    if code.Repaired? {
      RemoveFresh(c, step.id, step.rebatchAt, step.clocks);
    }
  }

  lemma RemoveFresh(c: Schedule, id: uint64, rebatchAt: int, clocks: Readings)
    requires ScheduleOk(Repaired, c) && Fresh(c)
    ensures Fresh(RemoveTimer(Repaired, c, id, rebatchAt, clocks))
  {
    if DidRemove(Repaired, c.batches, id) {
      RebatchFresh(Repaired, c.(batches := Stripped(c.batches, id)), rebatchAt, clocks);
    } else {
      RemoveKeeps(Repaired, c, id, rebatchAt, clocks);
    }
  }

  lemma ReconversionKeeps(nowElapsed: int)
    ensures forall a, c :: WellShaped(a) && Reconverted(a, c, nowElapsed).Some? ==>
              var b := Reconverted(a, c, nowElapsed).value;
              WellShaped(b) && b.id == a.id && b.uid == a.uid && b.hasCallback == a.hasCallback
  {
    forall a, c | WellShaped(a) && Reconverted(a, c, nowElapsed).Some?
      ensures var b := Reconverted(a, c, nowElapsed).value;
              WellShaped(b) && b.id == a.id && b.uid == a.uid && b.hasCallback == a.hasCallback
    {
      ReconvertedShape(a, c, nowElapsed);
    }
  }

  lemma RebatchKeeps(code: Code, c: Schedule, nowElapsed: int, clocks: Readings)
    requires AllWellShaped(Queue(c.batches))
    ensures var r := Rebatch(code, c, nowElapsed, clocks);
            && Sorted(r.batches) && AllHold(r.batches) && (code.Repaired? ==> AllFit(r.batches)) && Fresh(r)
  {
    ReAddAllKeeps(code, [], Queue(c.batches), 0, clocks, nowElapsed);
    RebatchFresh(code, c, nowElapsed, clocks);
  }

  lemma TimeChangedInv(code: Code, s: State, step: Step)
    requires Inv(code, s) && step.TimeChanged? && Enabled(code, s, step)
    ensures Inv(code, Next(code, s, step))
  {
    var c := s.manager.schedule;
    if WallClockJumped(s.manager.lastChange, step.nowWall, step.nowElapsed) {
      RebatchKeeps(code, c, step.rebatchAt, step.clocks);
      ReconversionKeeps(step.rebatchAt);
      RebatchForAll(code, c, step.rebatchAt, step.clocks, a => WellShaped(a) && Live(s, a));
    }
  }

  lemma TriggerInv(code: Code, s: State, step: Step)
    requires Inv(code, s) && step.Trigger? && Enabled(code, s, step)
    ensures Inv(code, Next(code, s, step))
  {
    var c, now := s.manager.schedule, step.now;
    var r := Drain(code, c, now);
    RenewalKeeps(now);
    DrainForAll(code, c, now, a => WellShaped(a) && Live(s, a));
    if code.Repaired? {
      DrainKeeps(code, c, now);
    }
    forall f | f in step.order ensures Live(s, f) {
      var a := FiredBy(step.order, r.alarms, now, f);
    }
  }

  /** Every alarm of a trigger list is a drained alarm with its count set. */
  lemma FiredBy(order: seq<TimerInfo>, drained: seq<TimerInfo>, now: int, f: TimerInfo) returns (a: TimerInfo)
    requires TriggerOrder(order, drained, now) && f in order
    ensures a in drained && f == Fired(a, now)
  {
    assert f in multiset(FireAll(drained, now));
    var i :| 0 <= i < |drained| && FireAll(drained, now)[i] == f;
    a := drained[i];
  }

  lemma RenewalKeeps(now: int)
    ensures forall a :: WellShaped(a) && 0 < a.repeatInterval ==>
              var b := Renewal(a, now);
              WellShaped(b) && b.id == a.id && b.uid == a.uid
  {
    forall a | WellShaped(a) && 0 < a.repeatInterval
      ensures var b := Renewal(a, now); WellShaped(b) && b.id == a.id && b.uid == a.uid
    {
      RenewalShape(a, now);
    }
  }

  lemma DeliverInv(code: Code, s: State)
    requires Inv(code, s) && Enabled(code, s, DeliverOne)
    ensures Inv(code, Next(code, s, DeliverOne))
  {
    var a, rest := s.looper.rest[0], s.looper.rest[1..];
    assert a in s.looper.rest && Live(s, a);
    assert forall b :: b in rest ==> b in s.looper.rest;
    DeliverBuffers(s.manager.proxy, a);
  }

  lemma FinishStopInv(code: Code, s: State)
    requires Inv(code, s) && Enabled(code, s, FinishStop)
    ensures Inv(code, Next(code, s, FinishStop))
  {
    var p, c := s.manager.proxy, s.client;
    var q := RemoveProxy(code, p, c.id, c.uid);
    RemoveProxyBuffers(code, p, c.id, c.uid);
    if code.Repaired? {
      RemoveProxyClearsIff(code, p, c.id, c.uid);
      forall uid | uid in q.pending
        ensures forall a :: a in q.pending[uid] ==> Known(s.manager.entries, a) && a.id != c.id
      {
        if uid in p.pending {
          WithoutMembers(p.pending[uid], c.id);
        }
        forall a | a in q.pending[uid] ensures Known(s.manager.entries, a) && a.id != c.id {
          assert a in p.pending[uid];
          assert a in Pending(q, uid);
        }
      }
    }
  }

  /** The invariant is kept by every step of either program. */
  lemma StepInv(code: Code, s: State, step: Step)
    requires Inv(code, s)
    ensures Inv(code, Next(code, s, step))
  {
    if Enabled(code, s, step) {
      match step
      case CreateTimer(e) =>
      case StartTimer(_, _, _) => StartInv(code, s, step);
      case RemoveHandler(_, _, _, _) => RemoveHandlerInv(code, s, step);
      case FinishStop => FinishStopInv(code, s);
      case ProxyUid(uid, isProxy, needRetrigger) => ProxyTimerBuffers(s.manager.proxy, uid, isProxy, needRetrigger);
      case ResetAllProxy =>
      case TimeChanged(_, _, _, _) => TimeChangedInv(code, s, step);
      case Rearm => RescheduleFresh(s.manager.schedule);
      case Trigger(_, _) => TriggerInv(code, s, step);
      case DeliverOne => DeliverInv(code, s);
      case Release => RescheduleFresh(s.manager.schedule);
    }
  }
}
