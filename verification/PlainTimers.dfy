/** The reference the batching scheduler is measured against: a plain multiset of timers, with no
    batches, no order and no deadlines. The state machine refines it step by step. */
module PlainTimers {
  import opened Units
  import opened TimerInfos
  import opened Batches
  import opened BatchLists
  import opened Rebatching
  import opened Draining
  import opened Protocol

  /** At `now` the timers `fired` went off: none early, each repeating one was renewed, nothing
      was lost; a punctual tick leaves none whose window has closed. */
  ghost predicate Tick(before: multiset<TimerInfo>, now: int, fired: seq<TimerInfo>, after: multiset<TimerInfo>,
                       punctual: bool)
  {
    && before + multiset(Renewals(fired, now)) == after + multiset(fired)
    && (forall a :: a in fired ==> a.whenElapsed <= now)
    && (punctual ==> forall a :: a in after ==> now < a.maxWhenElapsed)
  }

  /** Every timer was converted afresh at some clock reading, the past ones dropped. */
  ghost predicate Refresh(before: multiset<TimerInfo>, nowElapsed: int, clocks: Readings, after: multiset<TimerInfo>) {
    exists all :: multiset(all) == before && after == multiset(Readded(all, 0, clocks, nowElapsed))
  }

  /** The timers that do not have the id. */
  ghost predicate Filtered(before: multiset<TimerInfo>, id: uint64, after: multiset<TimerInfo>) {
    forall a :: after[a] == if a.id == id then 0 else before[a]
  }

  ghost predicate Queued(timers: multiset<TimerInfo>, id: uint64) {
    exists a :: a in timers && a.id == id
  }

  /** The timers with the id are gone. If there were some, the others are refreshed; as written they
      may also stay as they are, depending on which batch held the id. */
  ghost predicate Removal(code: Code, before: multiset<TimerInfo>, id: uint64, nowElapsed: int, clocks: Readings,
                          after: multiset<TimerInfo>)
  {
    if Queued(before, id) then
      || (code.AsWritten? && Filtered(before, id, after))
      || exists left :: Filtered(before, id, left) && Refresh(left, nowElapsed, clocks, after)
    else after == before
  }

  /** What each step may do to the plain timers. */
  ghost predicate PlainStep(code: Code, m: Manager, step: Step, before: multiset<TimerInfo>, after: multiset<TimerInfo>) {
    match step
    case StartTimer(id, triggerTime, reading) =>
      after == if id in m.entries && PrepareAlarm(m.entries[id], triggerTime, reading).Some?
               then before + multiset{PrepareAlarm(m.entries[id], triggerTime, reading).value}
               else before
    case RemoveHandler(id, _, rebatchAt, clocks) => Removal(code, before, id, rebatchAt, clocks, after)
    case TimeChanged(nowWall, nowElapsed, rebatchAt, clocks) =>
      if WallClockJumped(m.lastChange, nowWall, nowElapsed) then Refresh(before, rebatchAt, clocks, after)
      else after == before
    case Trigger(now, order) =>
      exists fired :: Tick(before, now, fired, after, code.Repaired?)
                      && multiset(order) == multiset(FireAll(fired, now))
    case _ => after == before
  }

  /** The batching scheduler refines the plain timers: every step from every state satisfying the
      invariant is a plain step on the multiset of queued alarms. */
  lemma Refinement(code: Code, s: State, step: Step)
    requires Inv(code, s) && Enabled(code, s, step)
    ensures PlainStep(code, s.manager, step, Timers(s.manager.schedule.batches),
                      Timers(Next(code, s, step).manager.schedule.batches))
  {
    if step.StartTimer? {
      StartRefines(code, s.manager, step.id, step.triggerTime, step.reading);
    } else if step.RemoveHandler? {
      RemoveRefines(code, s.manager.schedule, step.id, step.rebatchAt, step.clocks);
    } else if step.TimeChanged? {
      RebatchRefines(code, s.manager.schedule, step.rebatchAt, step.clocks);
    } else if step.Trigger? {
      TriggerRefines(code, s.manager.schedule, step.now);
      assert TriggerOrder(step.order, Drain(code, s.manager.schedule, step.now).alarms, step.now);
    } else {
      OtherStepsKeepBatches(code, s, step);
    }
  }

  lemma OtherStepsKeepBatches(code: Code, s: State, step: Step)
    requires Inv(code, s)
    requires !step.StartTimer? && !step.RemoveHandler? && !step.TimeChanged? && !step.Trigger?
    ensures Next(code, s, step).manager.schedule.batches == s.manager.schedule.batches
  {}

  lemma StartRefines(code: Code, m: Manager, id: uint64, triggerTime: uint64, reading: StartReading)
    ensures var after := Timers(Started(code, m, id, triggerTime, reading).0.schedule.batches);
            after == if id in m.entries && PrepareAlarm(m.entries[id], triggerTime, reading).Some?
                     then Timers(m.schedule.batches) + multiset{PrepareAlarm(m.entries[id], triggerTime, reading).value}
                     else Timers(m.schedule.batches)
  {
    if id in m.entries && PrepareAlarm(m.entries[id], triggerTime, reading).Some? {
      InsertTimers(code, m.schedule.batches, PrepareAlarm(m.entries[id], triggerTime, reading).value);
    }
  }

  /** Starting a timer that is already queued queues it again: its id is there once more. */
  lemma StartQueuesOneMore(code: Code, m: Manager, id: uint64, triggerTime: uint64, reading: StartReading)
    requires id in m.entries && m.entries[id].id == id && PrepareAlarm(m.entries[id], triggerTime, reading).Some?
    ensures Total(Queue(Started(code, m, id, triggerTime, reading).0.schedule.batches), IdCount(id)) ==
            Total(Queue(m.schedule.batches), IdCount(id)) + 1
  {
    var a := PrepareAlarm(m.entries[id], triggerTime, reading).value;
    var before, after := Queue(m.schedule.batches), Queue(Started(code, m, id, triggerTime, reading).0.schedule.batches);
    StartRefines(code, m, id, triggerTime, reading);
    TotalOfMultiset(after, before + [a], IdCount(id));
    TotalConcat(before, [a], IdCount(id));
    assert [a][1..] == [];
  }

  lemma TriggerRefines(code: Code, c: Schedule, now: int)
    requires ScheduleOk(code, c)
    ensures var r := Drain(code, c, now);
            Tick(Timers(c.batches), now, r.alarms, Timers(r.schedule.batches), code.Repaired?)
  {
    var r := Drain(code, c, now);
    DrainConserves(code, c, now);
    NeverEarly(code, c, now);
    if code.Repaired? {
      NeverLate(c, now);
      forall a | a in Timers(r.schedule.batches) ensures now < a.maxWhenElapsed {
        assert a in Queue(r.schedule.batches);
      }
    }
  }

  lemma RebatchRefines(code: Code, c: Schedule, nowElapsed: int, clocks: Readings)
    ensures Refresh(Timers(c.batches), nowElapsed, clocks, Timers(Rebatch(code, c, nowElapsed, clocks).batches))
  {
    RebatchIsFilterMap(code, c, nowElapsed, clocks);
    assert multiset(Queue(c.batches)) == Timers(c.batches);
  }

  lemma RemoveRefines(code: Code, c: Schedule, id: uint64, nowElapsed: int, clocks: Readings)
    requires AllHold(c.batches)
    ensures Removal(code, Timers(c.batches), id, nowElapsed, clocks,
                    Timers(RemoveTimer(code, c, id, nowElapsed, clocks).batches))
  {
    var all := Without(Queue(c.batches), id);
    RemoveTimerTimers(code, c, id, nowElapsed, clocks);
    WithoutIsFilter(Queue(c.batches), id);
    assert Filtered(Timers(c.batches), id, multiset(all));
    QueuedIff(c.batches, id);
    DidRemoveMeans(c.batches, id);
    if DidRemove(code, c.batches, id) {
      assert c.batches[|c.batches| - 1] in c.batches;
      assert Refresh(multiset(all), nowElapsed, clocks, Timers(RemoveTimer(code, c, id, nowElapsed, clocks).batches));
    } else if !Queued(Timers(c.batches), id) {
      FilteredNothing(Timers(c.batches), id, multiset(all));
    }
  }

  lemma QueuedIff(bs: seq<BatchState>, id: uint64)
    ensures Queued(Timers(bs), id) <==> exists b :: b in bs && HasId(b.alarms, id)
  {
    if Queued(Timers(bs), id) {
      var a :| a in Timers(bs) && a.id == id;
      QueueMembers(bs, a);
      var b :| b in bs && a in b.alarms;
      assert HasId(b.alarms, id);
    }
    if b :| b in bs && HasId(b.alarms, id) {
      var i :| 0 <= i < |b.alarms| && b.alarms[i].id == id;
      QueueMembers(bs, b.alarms[i]);
      assert b.alarms[i] in Timers(bs);
    }
  }

  lemma FilteredNothing(before: multiset<TimerInfo>, id: uint64, after: multiset<TimerInfo>)
    requires Filtered(before, id, after) && !Queued(before, id)
    ensures after == before
  {
    forall a ensures after[a] == before[a] {
      assert a in before ==> a.id != id;
    }
  }

  /** Counting the timers queued or renewed, a punctual tick fires all whose window has closed
      and none that is not yet due: the scheduler's freedom is the open windows. */
  lemma TickIsSandwiched(before: multiset<TimerInfo>, now: int, fired: seq<TimerInfo>, after: multiset<TimerInfo>,
                         a: TimerInfo)
    requires Tick(before, now, fired, after, true)
    ensures var n := before[a] + multiset(Renewals(fired, now))[a];
            && (a.maxWhenElapsed <= now ==> multiset(fired)[a] == n && after[a] == 0)
            && (now < a.whenElapsed ==> multiset(fired)[a] == 0 && after[a] == n)
  {
    assert (before + multiset(Renewals(fired, now)))[a] == (after + multiset(fired))[a];
    if a.maxWhenElapsed <= now {
      assert a !in after;
    }
    if now < a.whenElapsed {
      assert a !in fired && a !in multiset(fired);
    }
  }

  /** With empty windows there is no freedom left: exactly the due timers fire. */
  lemma ExactWithoutWindows(before: multiset<TimerInfo>, now: int, fired: seq<TimerInfo>, after: multiset<TimerInfo>,
                            a: TimerInfo)
    requires Tick(before, now, fired, after, true) && a.maxWhenElapsed == a.whenElapsed
    ensures multiset(fired)[a] == if a.whenElapsed <= now then before[a] + multiset(Renewals(fired, now))[a] else 0
  {
    TickIsSandwiched(before, now, fired, after, a);
  }
}
