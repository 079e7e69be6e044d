/** A repeating timer over a whole run: however late the rounds come and whatever other timers do,
    the counts of its triggered alarms add up to the points of its grid that have passed. */
module Repeating {
  import opened Units
  import opened TimerInfos
  import opened Batches
  import opened BatchLists
  import opened Draining
  import opened PlainTimers
  import opened Protocol
  import opened Runs

  /** `a` is the one queued alarm with its id, and queued once. */
  ghost predicate OnlyQueued(bs: seq<BatchState>, a: TimerInfo) {
    a in Queue(bs) && Total(Queue(bs), IdCount(a.id)) == 1
  }

  /** Repeating, and not moved by a rebatch. */
  predicate OnCourse(a: TimerInfo) {
    OnGrid(a) && 0 < a.repeatInterval
  }

  function Period(a: TimerInfo): int {
    a.repeatInterval * NS_PER_MS
  }

  /** The only one with its id among `alarms`, with multiplicity. */
  ghost predicate OnlyOne(alarms: multiset<TimerInfo>, a: TimerInfo) {
    forall b: TimerInfo :: b.id == a.id ==> alarms[b] == if b == a then 1 else 0
  }

  lemma {:induction false} NoneOfId(alarms: seq<TimerInfo>, id: uint64)
    requires Total(alarms, IdCount(id)) == 0
    ensures forall b: TimerInfo :: b.id == id ==> multiset(alarms)[b] == 0
    decreases |alarms|
  {
    if alarms != [] {
      assert alarms == [alarms[0]] + alarms[1..];
      NoneOfId(alarms[1..], id);
    }
  }

  lemma {:induction false} OneOfId(alarms: seq<TimerInfo>, a: TimerInfo)
    requires a in alarms && Total(alarms, IdCount(a.id)) == 1
    ensures OnlyOne(multiset(alarms), a)
    decreases |alarms|
  {
    assert alarms == [alarms[0]] + alarms[1..];
    if alarms[0].id == a.id {
      NoneOfId(alarms[1..], a.id);
      assert a !in multiset(alarms[1..]);
    } else {
      OneOfId(alarms[1..], a);
    }
  }

  lemma {:induction false} TotalOfNone(alarms: seq<TimerInfo>, w: TimerInfo -> nat)
    requires forall b :: b in alarms ==> w(b) == 0
    ensures Total(alarms, w) == 0
    decreases |alarms|
  {
    if alarms != [] {
      TotalOfNone(alarms[1..], w);
    }
  }

  lemma {:induction false} TotalOfOne(alarms: seq<TimerInfo>, w: TimerInfo -> nat, a: TimerInfo)
    requires forall b :: b in alarms && b != a ==> w(b) == 0
    requires multiset(alarms)[a] <= 1
    ensures Total(alarms, w) == if a in alarms then w(a) else 0
    decreases |alarms|
  {
    if alarms != [] {
      var rest := alarms[1..];
      assert alarms == [alarms[0]] + rest;
      if alarms[0] == a {
        assert a !in multiset(rest);
        TotalOfNone(rest, w);
      } else {
        TotalOfOne(rest, w, a);
      }
    }
  }

  lemma OnlyOneCounts(alarms: seq<TimerInfo>, a: TimerInfo)
    requires OnlyOne(multiset(alarms), a)
    ensures a in alarms && Total(alarms, IdCount(a.id)) == 1
  {
    assert multiset(alarms)[a] == 1 && a in multiset(alarms);
    forall b | b in alarms && b != a ensures IdCount(a.id)(b) == 0 {
      assert multiset(alarms)[b] > 0;
    }
    TotalOfOne(alarms, IdCount(a.id), a);
  }

  // ---------------------------------------------------------------- one drain

  lemma OnCourseKept(now: int, id: uint64)
    ensures forall b: TimerInfo :: (b.id == id ==> OnCourse(b)) && 0 < b.repeatInterval ==>
              (Renewal(b, now).id == id ==> OnCourse(Renewal(b, now)))
  {}

  /** No alarm with the id but `a` is drained, and that at most once: its renewal lies ahead. */
  lemma DrainsOnly(code: Code, s: Schedule, now: int, a: TimerInfo, b: TimerInfo)
    requires AllHold(s.batches) && OnlyOne(Timers(s.batches), a) && OnCourse(a) && b.id == a.id
    requires b in Drain(code, s, now).alarms
    ensures b == a
  {
    var r := Drain(code, s, now);
    DrainedOnCourse(code, s, now, a);
    DrainConserves(code, s, now);
    if b != a {
      assert (Timers(s.batches) + multiset(Renewals(r.alarms, now)))[b] > 0;
      assert b in multiset(Renewals(r.alarms, now)) && b in Renewals(r.alarms, now);
      RenewalsFrom(r.alarms, now, b);
      var c :| c in r.alarms && 0 < c.repeatInterval && b == Renewal(c, now);
      CatchUpCountsGridPoints(c, now);
      assert false;
    }
  }

  lemma DrainedOnCourse(code: Code, s: Schedule, now: int, a: TimerInfo)
    requires AllHold(s.batches) && OnlyOne(Timers(s.batches), a) && OnCourse(a)
    ensures forall b :: b in Drain(code, s, now).alarms ==> b.whenElapsed <= now && (b.id == a.id ==> OnCourse(b))
  {
    forall b | b in Queue(s.batches) ensures b.id == a.id ==> OnCourse(b) {
      assert b in Timers(s.batches);
    }
    OnCourseKept(now, a.id);
    DrainForAll(code, s, now, (b: TimerInfo) => b.id == a.id ==> OnCourse(b));
    NeverEarly(code, s, now);
  }

  /** The alarm queued once is drained at most once, and then its renewal is queued in its place. */
  lemma DrainOfOne(code: Code, s: Schedule, now: int, a: TimerInfo)
    requires AllHold(s.batches) && OnlyOne(Timers(s.batches), a) && OnCourse(a)
    ensures var r := Drain(code, s, now);
            && (forall b: TimerInfo :: b.id == a.id ==> multiset(r.alarms)[b] == if b == a && a in r.alarms then 1 else 0)
            && OnlyOne(Timers(r.schedule.batches), if a in r.alarms then Renewal(a, now) else a)
            && (a in r.alarms ==> a.whenElapsed <= now)
  {
    var r := Drain(code, s, now);
    DrainConserves(code, s, now);
    forall b | b in r.alarms && b.id == a.id ensures b == a {
      DrainsOnly(code, s, now, a, b);
    }
    RenewalsOfOne(r.alarms, now, a);
    if a in r.alarms {
      NeverEarly(code, s, now);
      CatchUpCountsGridPoints(a, now);
    }
    forall b: TimerInfo | b.id == a.id
      ensures multiset(r.alarms)[b] == if b == a && a in r.alarms then 1 else 0
      ensures Timers(r.schedule.batches)[b] == if b == (if a in r.alarms then Renewal(a, now) else a) then 1 else 0
    {
      BalanceOf(Timers(s.batches), multiset(Renewals(r.alarms, now)), Timers(r.schedule.batches), multiset(r.alarms), b);
      BalanceOf(Timers(s.batches), multiset(Renewals(r.alarms, now)), Timers(r.schedule.batches), multiset(r.alarms), a);
      assert b in r.alarms <==> b in multiset(r.alarms);
    }
  }

  lemma BalanceOf(x: multiset<TimerInfo>, y: multiset<TimerInfo>, z: multiset<TimerInfo>, w: multiset<TimerInfo>,
                  b: TimerInfo)
    requires x + y == z + w
    ensures x[b] + y[b] == z[b] + w[b]
  {
    assert (x + y)[b] == (z + w)[b];
  }

  lemma {:induction false} RenewalsOfOne(alarms: seq<TimerInfo>, now: int, a: TimerInfo)
    requires OnCourse(a) && forall b :: b in alarms && b.id == a.id ==> b == a
    ensures forall b: TimerInfo :: b.id == a.id ==>
              multiset(Renewals(alarms, now))[b] == if b == Renewal(a, now) then multiset(alarms)[a] else 0
    decreases |alarms|
  {
    if alarms != [] {
      assert alarms == [alarms[0]] + alarms[1..];
      RenewalsOfOne(alarms[1..], now, a);
      RenewalsStep(alarms, now);
    }
  }

  // ---------------------------------------------------------------- the counts of a trigger list

  /** How often the alarm stands for the timer with the id. */
  ghost function CountOf(id: uint64): TimerInfo -> nat {
    (a: TimerInfo) => if a.id == id && a.count >= 0 then a.count else 0
  }

  ghost function FiredCountOf(id: uint64, now: int): TimerInfo -> nat {
    (a: TimerInfo) => CountOf(id)(Fired(a, now))
  }

  lemma {:induction false} FireAllTotal(alarms: seq<TimerInfo>, now: int, id: uint64)
    ensures Total(FireAll(alarms, now), CountOf(id)) == Total(alarms, FiredCountOf(id, now))
    decreases |alarms|
  {
    if alarms != [] {
      assert FireAll(alarms, now)[1..] == FireAll(alarms[1..], now);
      FireAllTotal(alarms[1..], now, id);
    }
  }

  /** What a round adds to the count of the timer. */
  lemma RoundCounts(order: seq<TimerInfo>, drained: seq<TimerInfo>, now: int, a: TimerInfo)
    requires TriggerOrder(order, drained, now)
    requires forall b :: b in drained && b.id == a.id ==> b == a
    requires multiset(drained)[a] <= 1
    ensures Total(order, CountOf(a.id)) == if a in drained then CountOf(a.id)(Fired(a, now)) else 0
  {
    TotalOfMultiset(order, FireAll(drained, now), CountOf(a.id));
    FireAllTotal(drained, now, a.id);
    TotalOfOne(drained, FiredCountOf(a.id, now), a);
  }

  // ---------------------------------------------------------------- one step, and a run

  /** The alarm's timer is not touched and nothing is rebatched. */
  predicate Undisturbed(step: Step, id: uint64) {
    !Restarts(step, id) && !step.RemoveHandler? && !step.TimeChanged?
  }

  /** `b` is what the alarm `a` has become after its timer was counted `n` times. */
  ghost predicate Advanced(a: TimerInfo, b: TimerInfo, n: int) {
    && OnCourse(b) && b.id == a.id && b.repeatInterval == a.repeatInterval
    && b.whenElapsed == a.whenElapsed + n * Period(a)
    && b.when == a.when + n * a.repeatInterval
  }

  /** The step is a round that found the alarm due and counted the grid points up to then. */
  predicate CountsUpTo(step: Step, a: TimerInfo, n: int) {
    step.Trigger? && 0 < Period(a) && a.whenElapsed <= step.now && n == GridPoints(a.whenElapsed, Period(a), step.now)
  }

  ghost function Counted(s: State, id: uint64): nat {
    Total(s.triggered, CountOf(id))
  }

  lemma RenewalAdvances(a: TimerInfo, now: int)
    requires OnCourse(a) && a.whenElapsed <= now
    ensures var n := FireCount(a, now);
            n >= 1 && Advanced(a, Renewal(a, now), n) && n == GridPoints(a.whenElapsed, Period(a), now)
  {
    CatchUpCountsGridPoints(a, now);
    GridPointsBracket(a.whenElapsed, Period(a), now);
    RenewalTime(a, now);
  }

  lemma AdvancedTwice(a: TimerInfo, b: TimerInfo, c: TimerInfo, n: int, m: int)
    requires Advanced(a, b, n) && Advanced(b, c, m)
    ensures Advanced(a, c, n + m)
  {
    AddCounts(n, m, Period(a));
    AddCounts(n, m, a.repeatInterval);
  }

  lemma CountsOn(step: Step, a: TimerInfo, b: TimerInfo, n: nat, m: int)
    requires Advanced(a, b, n) && CountsUpTo(step, b, m)
    ensures CountsUpTo(step, a, n + m)
  {
    GridShift(a.whenElapsed, Period(a), n, step.now);
  }

  /** One drain, from the alarm's point of view. */
  lemma DrainAdvances(code: Code, c: Schedule, now: int, order: seq<TimerInfo>, a: TimerInfo) returns (b: TimerInfo)
    requires AllHold(c.batches) && OnlyQueued(c.batches, a) && OnCourse(a)
    requires TriggerOrder(order, Drain(code, c, now).alarms, now)
    ensures OnlyQueued(Drain(code, c, now).schedule.batches, b)
    ensures var n := Total(order, CountOf(a.id)); Advanced(a, b, n) && (n == 0 || CountsUpTo(Trigger(now, order), a, n))
  {
    var drained, after := Drain(code, c, now).alarms, Drain(code, c, now).schedule.batches;
    OneOfId(Queue(c.batches), a);
    DrainOfOne(code, c, now, a);
    b := if a in drained then Renewal(a, now) else a;
    if a in drained {
      RenewalAdvances(a, now);
    }
    forall x | x in drained && x.id == a.id ensures x == a {
      DrainsOnly(code, c, now, a, x);
    }
    OnlyOneCounts(Queue(after), b);
    RoundCounts(order, drained, now, a);
  }

  /** What a trigger step leaves, as far as the count of a timer goes. */
  ghost predicate Triggered(code: Code, s: State, now: int, order: seq<TimerInfo>, t: State, id: uint64)
    requires AllHold(s.manager.schedule.batches)
  {
    && TriggerOrder(order, Drain(code, s.manager.schedule, now).alarms, now)
    && t.manager.schedule == Drain(code, s.manager.schedule, now).schedule
    && Counted(t, id) == Counted(s, id) + Total(order, CountOf(id))
  }

  lemma TriggerEffect(code: Code, s: State, now: int, order: seq<TimerInfo>, id: uint64)
    requires Inv(code, s) && Enabled(code, s, Trigger(now, order))
    ensures Triggered(code, s, now, order, Next(code, s, Trigger(now, order)), id)
  {
    TotalConcat(s.triggered, order, CountOf(id));
  }

  /** From `s` to `t` the alarm `a` became `b`, advanced by what its timer was counted, which is
      the grid points up to one of the steps. */
  ghost predicate Counts(s: State, steps: seq<Step>, t: State, a: TimerInfo, b: TimerInfo) {
    var n := Counted(t, a.id) - Counted(s, a.id);
    && OnlyQueued(t.manager.schedule.batches, b) && Advanced(a, b, n)
    && (n == 0 || (n > 0 && exists step :: step in steps && CountsUpTo(step, a, n)))
  }

  lemma TriggerAdvances(code: Code, s: State, now: int, order: seq<TimerInfo>, t: State, a: TimerInfo) returns (b: TimerInfo)
    requires AllHold(s.manager.schedule.batches) && OnlyQueued(s.manager.schedule.batches, a) && OnCourse(a)
    requires Triggered(code, s, now, order, t, a.id)
    ensures Counts(s, [Trigger(now, order)], t, a, b)
  {
    b := DrainAdvances(code, s.manager.schedule, now, order, a);
    CountsOne(s, Trigger(now, order), t, a, b);
  }

  lemma CountsOne(s: State, step: Step, t: State, a: TimerInfo, b: TimerInfo)
    requires var n := Counted(t, a.id) - Counted(s, a.id);
             OnlyQueued(t.manager.schedule.batches, b) && Advanced(a, b, n) && n >= 0 && (n == 0 || CountsUpTo(step, a, n))
    ensures Counts(s, [step], t, a, b)
  {
    assert step in [step];
  }

  lemma StepAdvances(code: Code, s: State, step: Step, a: TimerInfo) returns (b: TimerInfo)
    requires Inv(code, s) && OnlyQueued(s.manager.schedule.batches, a) && OnCourse(a) && Undisturbed(step, a.id)
    ensures Counts(s, [step], Next(code, s, step), a, b)
  {
    if step.Trigger? && Enabled(code, s, step) {
      TriggerEffect(code, s, step.now, step.order, a.id);
      b := TriggerAdvances(code, s, step.now, step.order, Next(code, s, step), a);
    } else {
      b := a;
      OthersKeep(code, s, step, a);
      CountsOne(s, step, Next(code, s, step), a, b);
    }
  }

  lemma OthersKeep(code: Code, s: State, step: Step, a: TimerInfo)
    requires Inv(code, s) && OnlyQueued(s.manager.schedule.batches, a) && Undisturbed(step, a.id)
    requires !step.Trigger? || !Enabled(code, s, step)
    ensures var t := Next(code, s, step);
            OnlyQueued(t.manager.schedule.batches, a) && t.triggered == s.triggered
  {
    var m := s.manager;
    if step.StartTimer? && Enabled(code, s, step) && step.id in m.entries {
      var p := PrepareAlarm(m.entries[step.id], step.triggerTime, step.reading);
      if p.Some? {
        OtherQueued(code, m.schedule.batches, p.value, a);
      }
    }
  }

  lemma OtherQueued(code: Code, bs: seq<BatchState>, p: TimerInfo, a: TimerInfo)
    requires OnlyQueued(bs, a) && p.id != a.id
    ensures OnlyQueued(Insert(code, bs, p), a)
  {
    InsertTimers(code, bs, p);
    InsertMembers(code, bs, p);
    TotalOfMultiset(Queue(Insert(code, bs, p)), Queue(bs) + [p], IdCount(a.id));
    TotalConcat(Queue(bs), [p], IdCount(a.id));
    assert [p][1..] == [];
  }

  /** Starting a repeating timer of which nothing is queued puts it on course. */
  lemma StartsOnCourse(code: Code, m: Manager, id: uint64, triggerTime: uint64, r: StartReading)
    requires id in m.entries && m.entries[id].id == id && PrepareAlarm(m.entries[id], triggerTime, r).Some?
    requires 0 < PrepareAlarm(m.entries[id], triggerTime, r).value.repeatInterval
    requires Total(Queue(m.schedule.batches), IdCount(id)) == 0
    ensures var a := PrepareAlarm(m.entries[id], triggerTime, r).value;
            OnCourse(a) && OnlyQueued(Started(code, m, id, triggerTime, r).0.schedule.batches, a)
  {
    PreparedShape(m.entries[id], triggerTime, r);
    StartQueuesOneMore(code, m, id, triggerTime, r);
    InsertMembers(code, m.schedule.batches, PrepareAlarm(m.entries[id], triggerTime, r).value);
  }

  lemma CountsTwice(s: State, x: seq<Step>, t: State, step: Step, u: State, a: TimerInfo, b: TimerInfo, c: TimerInfo)
    requires Counts(s, x, t, a, b) && Counts(t, [step], u, b, c)
    ensures Counts(s, x + [step], u, a, c)
  {
    var n, m := Counted(t, a.id) - Counted(s, a.id), Counted(u, a.id) - Counted(t, a.id);
    AdvancedTwice(a, b, c, n, m);
    if m > 0 {
      CountsOn(step, a, b, n, m);
      assert step in x + [step];
    } else if n > 0 {
      var last :| last in x && CountsUpTo(last, a, n);
      assert last in x + [step];
    }
  }

  /** Over every run that neither starts or stops the timer nor rebatches, its counts add up without
      drift: what is queued has moved by exactly as many periods, on both its clocks, and the sum
      is the number of grid points up to the last round that found the timer due. */
  lemma {:induction false} RepeatsWithoutDrift(code: Code, s: State, steps: seq<Step>, a: TimerInfo) returns (b: TimerInfo)
    requires Inv(code, s) && OnlyQueued(s.manager.schedule.batches, a) && OnCourse(a)
    requires forall step :: step in steps ==> Undisturbed(step, a.id)
    ensures Counts(s, steps, Run(code, s, steps), a, b)
    decreases |steps|
  {
    if steps == [] {
      b := a;
    } else {
      var k := |steps| - 1;
      var t := Run(code, s, steps[..k]);
      var c := RepeatsWithoutDrift(code, s, steps[..k], a);
      assert steps[k] in steps && steps == steps[..k] + [steps[k]];
      b := StepAdvances(code, t, steps[k], c);
      CountsTwice(s, steps[..k], t, steps[k], Next(code, t, steps[k]), a, c, b);
    }
  }
}
