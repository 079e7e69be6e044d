/** The drain loop of TriggerTimersLocked: it takes due batches off the front, collects their
    alarms and queues the renewals of repeating ones while it runs. */
module Draining {
  import opened Units
  import opened TimerInfos
  import opened Batches
  import opened BatchLists

  /** A schedule and the alarms taken out of it, as they were queued and in the order they were
      drained. */
  datatype Drained = Drained(schedule: Schedule, alarms: seq<TimerInfo>)

  /** The trigger list made of drained alarms: each with its count set. */
  function FireAll(alarms: seq<TimerInfo>, now: int): (r: seq<TimerInfo>)
    ensures |r| == |alarms|
    ensures forall i :: 0 <= i < |r| ==> r[i] == Fired(alarms[i], now)
  {
    seq(|alarms|, i requires 0 <= i < |alarms| => Fired(alarms[i], now))
  }

  /** The inner loop over the alarms of one batch. */
  function TriggerAll(code: Code, s: Schedule, alarms: seq<TimerInfo>, now: int): Schedule
    decreases |alarms|
  {
    if alarms == [] then s
    else TriggerAll(code, Renewed(code, s, alarms[0], now), alarms[1..], now)
  }

  function Renewed(code: Code, s: Schedule, a: TimerInfo, now: int): Schedule {
    if a.repeatInterval > 0 then SetAlarm(code, s, Renewal(a, now)) else s
  }

  /** The renewals queued for a sequence of alarms. */
  function Renewals(alarms: seq<TimerInfo>, now: int): seq<TimerInfo> {
    if alarms == [] then []
    else (if alarms[0].repeatInterval > 0 then [Renewal(alarms[0], now)] else []) + Renewals(alarms[1..], now)
  }

  // ---------------------------------------------------------------- termination

  /** How often an alarm can still be drained at `now`: not at all, once, or twice if a rebatch
      moved it away from its expected time. */
  ghost function Weight(a: TimerInfo, now: int): nat {
    if a.whenElapsed > now then 0 else if OnGrid(a) then 1 else 2
  }

  ghost function Total(alarms: seq<TimerInfo>, w: TimerInfo -> nat): nat {
    if alarms == [] then 0 else w(alarms[0]) + Total(alarms[1..], w)
  }

  ghost function Load(alarms: seq<TimerInfo>, now: int): nat {
    Total(alarms, WeightAt(now))
  }

  ghost function WeightAt(now: int): TimerInfo -> nat {
    a => Weight(a, now)
  }

  lemma {:induction false} TotalConcat(x: seq<TimerInfo>, y: seq<TimerInfo>, w: TimerInfo -> nat)
    ensures Total(x + y, w) == Total(x, w) + Total(y, w)
    decreases |x|
  {
    if x == [] {
      assert x + y == y;
    } else {
      assert (x + y)[1..] == x[1..] + y;
      TotalConcat(x[1..], y, w);
    }
  }

  lemma TotalCons(a: TimerInfo, s: seq<TimerInfo>, w: TimerInfo -> nat)
    ensures Total([a] + s, w) == w(a) + Total(s, w)
  {
    assert ([a] + s)[1..] == s;
  }

  lemma TotalWithout(y: seq<TimerInfo>, i: nat, w: TimerInfo -> nat)
    requires i < |y|
    ensures Total(y, w) == w(y[i]) + Total(y[..i] + y[i + 1..], w)
  {
    var x, z := y[..i], y[i + 1..];
    SplitAt(y, i);
    TotalConcat(x, z, w);
    TotalConcat(x, [y[i]] + z, w);
    TotalCons(y[i], z, w);
  }

  lemma SplitAt(y: seq<TimerInfo>, i: nat)
    requires i < |y|
    ensures y == y[..i] + ([y[i]] + y[i + 1..])
  {}

  lemma MultisetWithout(y: seq<TimerInfo>, i: nat)
    requires i < |y|
    ensures multiset(y[..i] + y[i + 1..]) == multiset(y) - multiset{y[i]}
  {
    assert y == y[..i] + [y[i]] + y[i + 1..];
    assert multiset(y) == multiset(y[..i] + y[i + 1..]) + multiset{y[i]};
  }

  lemma MultisetTail(x: seq<TimerInfo>)
    requires x != []
    ensures multiset(x[1..]) == multiset(x) - multiset{x[0]}
  {
    assert x == [x[0]] + x[1..];
    assert multiset(x) == multiset{x[0]} + multiset(x[1..]);
  }

  ghost function Find(y: seq<TimerInfo>, a: TimerInfo): (i: nat)
    requires a in multiset(y)
    ensures i < |y| && y[i] == a
  {
    var i :| 0 <= i < |y| && y[i] == a;
    i
  }

  /** A total does not depend on the order of the queue. */
  lemma {:induction false} TotalOfMultiset(x: seq<TimerInfo>, y: seq<TimerInfo>, w: TimerInfo -> nat)
    requires multiset(x) == multiset(y)
    ensures Total(x, w) == Total(y, w)
    decreases |x|
  {
    if x == [] {
      assert |multiset(y)| == 0;
    } else {
      var i := Find(y, x[0]);
      TotalWithout(y, i, w);
      MultisetWithout(y, i);
      MultisetTail(x);
      TotalOfMultiset(x[1..], y[..i] + y[i + 1..], w);
    }
  }

  lemma InsertLoad(code: Code, bs: seq<BatchState>, a: TimerInfo, now: int)
    ensures Load(Queue(Insert(code, bs, a)), now) == Load(Queue(bs), now) + Weight(a, now)
  {
    InsertTimers(code, bs, a);
    TotalOfMultiset(Queue(Insert(code, bs, a)), Queue(bs) + [a], WeightAt(now));
    TotalConcat(Queue(bs), [a], WeightAt(now));
    assert [a][1..] == [];
  }

  /** A renewal weighs less than the due alarm it replaces. */
  lemma RenewalWeighsLess(a: TimerInfo, now: int)
    requires 0 < a.repeatInterval && a.whenElapsed <= now
    ensures Weight(Renewal(a, now), now) < Weight(a, now)
  {
    if OnGrid(a) {
      CatchUpCountsGridPoints(a, now);
    }
  }

  lemma {:induction false} TriggerAllLoad(code: Code, s: Schedule, alarms: seq<TimerInfo>, now: int)
    requires forall a :: a in alarms ==> a.whenElapsed <= now
    requires AllHold(s.batches)
    ensures var r := TriggerAll(code, s, alarms, now);
            && AllHold(r.batches)
            && Load(Queue(r.batches), now) + |alarms| <= Load(Queue(s.batches), now) + Load(alarms, now)
    decreases |alarms|
  {
    if alarms != [] {
      var a := alarms[0];
      assert a in alarms;
      if a.repeatInterval > 0 {
        InsertLoad(code, s.batches, Renewal(a, now), now);
        InsertHolds(code, s.batches, Renewal(a, now));
        RenewalWeighsLess(a, now);
      }
      TriggerAllLoad(code, Renewed(code, s, a, now), alarms[1..], now);
    }
  }

  /** One round of the outer loop makes progress. */
  lemma RoundProgress(code: Code, s: Schedule, now: int)
    requires AllHold(s.batches) && s.batches != [] && s.batches[0].start <= now
    ensures var r := TriggerAll(code, s.(batches := s.batches[1..]), s.batches[0].alarms, now);
            AllHold(r.batches) && Load(Queue(r.batches), now) < Load(Queue(s.batches), now)
  {
    var b := s.batches[0];
    assert b in s.batches;
    TriggerAllLoad(code, s.(batches := s.batches[1..]), b.alarms, now);
    TotalConcat(b.alarms, Queue(s.batches[1..]), WeightAt(now));
  }

  /** TriggerTimersLocked before its final sort. The loop ends although it feeds the list it
      drains: each round lowers the load. */
  function Drain(code: Code, s: Schedule, now: int): (r: Drained)
    requires AllHold(s.batches)
    ensures AllHold(r.schedule.batches)
    ensures r.schedule.batches != [] ==> now < r.schedule.batches[0].start
    decreases Load(Queue(s.batches), now)
  {
    if s.batches == [] || s.batches[0].start > now then Drained(s, [])
    else
      RoundProgress(code, s, now);
      var r := TriggerAll(code, s.(batches := s.batches[1..]), s.batches[0].alarms, now);
      var rest := Drain(code, r, now);
      rest.(alarms := s.batches[0].alarms + rest.alarms)
  }

  // ---------------------------------------------------------------- conservation

  lemma {:induction false} RenewalsConcat(x: seq<TimerInfo>, y: seq<TimerInfo>, now: int)
    ensures Renewals(x + y, now) == Renewals(x, now) + Renewals(y, now)
    decreases |x|
  {
    if x == [] {
      assert x + y == y;
    } else {
      assert (x + y)[1..] == x[1..] + y;
      RenewalsConcat(x[1..], y, now);
    }
  }

  lemma {:induction false} TriggerAllTimers(code: Code, s: Schedule, alarms: seq<TimerInfo>, now: int)
    ensures Timers(TriggerAll(code, s, alarms, now).batches) == Timers(s.batches) + multiset(Renewals(alarms, now))
    decreases |alarms|
  {
    if alarms != [] {
      RenewedTimers(code, s, alarms[0], now);
      RenewalsStep(alarms, now);
      TriggerAllTimers(code, Renewed(code, s, alarms[0], now), alarms[1..], now);
    }
  }

  /** Triggering the alarms of a batch inserts the renewals one after the other, in order, and re-arms
      for them. */
  lemma {:induction false} TriggerAllInserts(code: Code, s: Schedule, alarms: seq<TimerInfo>, now: int)
    ensures var r, renewals := TriggerAll(code, s, alarms, now), Renewals(alarms, now);
            && r.batches == InsertAll(code, s.batches, renewals)
            && (if renewals == [] then r == s else Fresh(r))
    decreases |alarms|
  {
    if alarms != [] {
      var a, rest := alarms[0], Renewals(alarms[1..], now);
      TriggerAllInserts(code, Renewed(code, s, a, now), alarms[1..], now);
      RenewedHead(code, s, a, rest, now);
    }
  }

  lemma RenewedHead(code: Code, s: Schedule, a: TimerInfo, rest: seq<TimerInfo>, now: int)
    ensures var t := Renewed(code, s, a, now);
            && InsertAll(code, s.batches, (if a.repeatInterval > 0 then [Renewal(a, now)] else []) + rest) ==
               InsertAll(code, t.batches, rest)
            && (if a.repeatInterval > 0 then Fresh(t) else t == s)
  {
    if a.repeatInterval > 0 {
      RescheduleFresh(s.(batches := Insert(code, s.batches, Renewal(a, now))));
      assert ([Renewal(a, now)] + rest)[1..] == rest;
    } else {
      assert [] + rest == rest;
    }
  }

  /** What triggering one alarm queues. */
  ghost function Successor(a: TimerInfo, now: int): multiset<TimerInfo> {
    if a.repeatInterval > 0 then multiset{Renewal(a, now)} else multiset{}
  }

  lemma RenewedTimers(code: Code, s: Schedule, a: TimerInfo, now: int)
    ensures Timers(Renewed(code, s, a, now).batches) == Timers(s.batches) + Successor(a, now)
  {
    if a.repeatInterval > 0 {
      InsertTimers(code, s.batches, Renewal(a, now));
    }
  }

  lemma RenewalsStep(alarms: seq<TimerInfo>, now: int)
    requires alarms != []
    ensures multiset(Renewals(alarms, now)) == Successor(alarms[0], now) + multiset(Renewals(alarms[1..], now))
  {}

  lemma RoundTimers(code: Code, s: Schedule, now: int)
    requires s.batches != []
    ensures var front := s.batches[0].alarms;
            var r := TriggerAll(code, s.(batches := s.batches[1..]), front, now);
            Timers(s.batches) + multiset(Renewals(front, now)) == Timers(r.batches) + multiset(front)
  {
    TriggerAllTimers(code, s.(batches := s.batches[1..]), s.batches[0].alarms, now);
  }

  lemma ChainBalances(a: multiset<TimerInfo>, x: multiset<TimerInfo>, b: multiset<TimerInfo>, f: multiset<TimerInfo>,
                      y: multiset<TimerInfo>, c: multiset<TimerInfo>, g: multiset<TimerInfo>)
    requires a + x == b + f && b + y == c + g
    ensures a + (x + y) == c + (f + g)
  {
    forall t ensures (a + (x + y))[t] == (c + (f + g))[t] {
      assert (a + x)[t] == (b + f)[t] && (b + y)[t] == (c + g)[t];
    }
  }

  /** Draining neither loses nor invents an alarm: what was queued plus what was renewed is what
      is still queued plus what was drained. */
  lemma {:induction false} DrainConserves(code: Code, s: Schedule, now: int)
    requires AllHold(s.batches)
    ensures var r := Drain(code, s, now);
            Timers(s.batches) + multiset(Renewals(r.alarms, now)) == Timers(r.schedule.batches) + multiset(r.alarms)
    decreases Load(Queue(s.batches), now)
  {
    if s.batches != [] && s.batches[0].start <= now {
      RoundProgress(code, s, now);
      RoundTimers(code, s, now);
      var front := s.batches[0].alarms;
      var r := TriggerAll(code, s.(batches := s.batches[1..]), front, now);
      DrainConserves(code, r, now);
      var rest := Drain(code, r, now);
      RenewalsConcat(front, rest.alarms, now);
      ChainBalances(Timers(s.batches), multiset(Renewals(front, now)), Timers(r.batches), multiset(front),
                    multiset(Renewals(rest.alarms, now)), Timers(rest.schedule.batches), multiset(rest.alarms));
    }
  }

  function OneShots(alarms: seq<TimerInfo>): seq<TimerInfo> {
    if alarms == [] then []
    else (if alarms[0].repeatInterval > 0 then [] else [alarms[0]]) + OneShots(alarms[1..])
  }

  ghost function IdCount(id: uint64): TimerInfo -> nat {
    (a: TimerInfo) => if a.id == id then 1 else 0
  }

  lemma {:induction false} RenewalsKeepIds(alarms: seq<TimerInfo>, now: int, id: uint64)
    ensures Total(alarms, IdCount(id)) == Total(Renewals(alarms, now), IdCount(id)) + Total(OneShots(alarms), IdCount(id))
    decreases |alarms|
  {
    if alarms != [] {
      var a, w := alarms[0], IdCount(id);
      RenewalsKeepIds(alarms[1..], now, id);
      TotalConcat([Renewal(a, now)], Renewals(alarms[1..], now), w);
      TotalConcat([a], OneShots(alarms[1..]), w);
      assert [Renewal(a, now)][1..] == [] && [a][1..] == [];
      assert [] + Renewals(alarms[1..], now) == Renewals(alarms[1..], now);
      assert [] + OneShots(alarms[1..]) == OneShots(alarms[1..]);
    }
  }

  /** For every id, the alarms queued before are those queued after and the one-shots drained. */
  lemma DrainConservesIds(code: Code, s: Schedule, now: int, id: uint64)
    requires AllHold(s.batches)
    ensures var r := Drain(code, s, now);
            Total(Queue(s.batches), IdCount(id)) ==
            Total(Queue(r.schedule.batches), IdCount(id)) + Total(OneShots(r.alarms), IdCount(id))
  {
    var r, w := Drain(code, s, now), IdCount(id);
    DrainConserves(code, s, now);
    var x, y := Queue(s.batches) + Renewals(r.alarms, now), Queue(r.schedule.batches) + r.alarms;
    TotalOfMultiset(x, y, w);
    TotalConcat(Queue(s.batches), Renewals(r.alarms, now), w);
    TotalConcat(Queue(r.schedule.batches), r.alarms, w);
    RenewalsKeepIds(r.alarms, now, id);
  }

  /** Nothing is drained before its time, in either program and from any list. */
  lemma {:induction false} NeverEarly(code: Code, s: Schedule, now: int)
    requires AllHold(s.batches)
    ensures forall a :: a in Drain(code, s, now).alarms ==> a.whenElapsed <= now
    decreases Load(Queue(s.batches), now)
  {
    if s.batches != [] && s.batches[0].start <= now {
      RoundProgress(code, s, now);
      var b := s.batches[0];
      assert b in s.batches;
      NeverEarly(code, TriggerAll(code, s.(batches := s.batches[1..]), b.alarms, now), now);
    }
  }

  /** The renewal of a drained alarm that lies ahead of `now` is in the queue after the drain:
      with the exact condition of CatchUpExact, the alarm fires once in the round and goes on. */
  lemma RenewalStaysQueued(code: Code, s: Schedule, now: int, a: TimerInfo)
    requires AllHold(s.batches)
    requires a in Drain(code, s, now).alarms && 0 < a.repeatInterval && now < Renewal(a, now).whenElapsed
    ensures Renewal(a, now) in Queue(Drain(code, s, now).schedule.batches)
  {
    var r, b := Drain(code, s, now), Renewal(a, now);
    DrainConserves(code, s, now);
    NeverEarly(code, s, now);
    RenewalsOf(r.alarms, now, a);
    assert (Timers(s.batches) + multiset(Renewals(r.alarms, now)))[b] > 0;
    assert b !in multiset(r.alarms);
    assert b in Timers(r.schedule.batches);
  }

  lemma {:induction false} RenewalsOf(alarms: seq<TimerInfo>, now: int, a: TimerInfo)
    requires a in alarms && 0 < a.repeatInterval
    ensures Renewal(a, now) in Renewals(alarms, now)
    decreases |alarms|
  {
    if alarms[0] != a {
      RenewalsOf(alarms[1..], now, a);
    }
  }

  // ---------------------------------------------------------------- what draining keeps

  lemma {:induction false} TriggerAllKeeps(code: Code, s: Schedule, alarms: seq<TimerInfo>, now: int)
    requires Sorted(s.batches) && AllHold(s.batches) && (code.Repaired? ==> AllFit(s.batches))
    requires forall a :: a in alarms ==> WellShaped(a)
    ensures var r := TriggerAll(code, s, alarms, now).batches;
            Sorted(r) && AllHold(r) && (code.Repaired? ==> AllFit(r))
    decreases |alarms|
  {
    if alarms != [] {
      var a := alarms[0];
      assert a in alarms;
      if a.repeatInterval > 0 {
        var b := Renewal(a, now);
        RenewalShape(a, now);
        InsertSorted(code, s.batches, b);
        InsertHolds(code, s.batches, b);
        if code.Repaired? {
          InsertFits(s.batches, b);
        }
      }
      TriggerAllKeeps(code, Renewed(code, s, a, now), alarms[1..], now);
    }
  }

  ghost predicate AllWellShaped(alarms: seq<TimerInfo>) {
    forall a :: a in alarms ==> WellShaped(a)
  }

  lemma {:induction false} RenewalsFrom(alarms: seq<TimerInfo>, now: int, b: TimerInfo)
    requires b in Renewals(alarms, now)
    ensures exists a :: a in alarms && 0 < a.repeatInterval && b == Renewal(a, now)
    decreases |alarms|
  {
    var a := alarms[0];
    assert a in alarms;
    if !(a.repeatInterval > 0 && b == Renewal(a, now)) {
      RenewalsFrom(alarms[1..], now, b);
    }
  }

  /** The alarms queued after one round come from those before it. */
  lemma RoundMembers(code: Code, s: Schedule, now: int, b: TimerInfo)
    requires s.batches != []
    requires b in Queue(TriggerAll(code, s.(batches := s.batches[1..]), s.batches[0].alarms, now).batches)
    ensures || b in Queue(s.batches)
            || exists a :: a in Queue(s.batches) && 0 < a.repeatInterval && b == Renewal(a, now)
  {
    var front, tail := s.batches[0].alarms, s.(batches := s.batches[1..]);
    var r := TriggerAll(code, tail, front, now).batches;
    TriggerAllTimers(code, tail, front, now);
    assert b in Timers(r);
    if b in Renewals(front, now) {
      RenewalsFrom(front, now, b);
    } else {
      assert b in Timers(s.batches[1..]);
    }
  }

  /** What holds of every queued alarm and passes on to renewals holds of everything drained and
      of everything queued afterwards. */
  lemma {:induction false} DrainForAll(code: Code, s: Schedule, now: int, P: TimerInfo -> bool)
    requires AllHold(s.batches)
    requires forall a :: a in Queue(s.batches) ==> P(a)
    requires forall a :: P(a) && 0 < a.repeatInterval ==> P(Renewal(a, now))
    ensures forall a :: a in Drain(code, s, now).alarms ==> P(a)
    ensures forall a :: a in Queue(Drain(code, s, now).schedule.batches) ==> P(a)
    decreases Load(Queue(s.batches), now)
  {
    if s.batches != [] && s.batches[0].start <= now {
      RoundProgress(code, s, now);
      var front := s.batches[0].alarms;
      var r := TriggerAll(code, s.(batches := s.batches[1..]), front, now);
      forall b | b in Queue(r.batches) ensures P(b) {
        RoundMembers(code, s, now, b);
      }
      forall a | a in front ensures P(a) {
        assert a in Queue(s.batches);
      }
      DrainForAll(code, r, now, P);
    }
  }

  lemma {:induction false} DrainKeeps(code: Code, s: Schedule, now: int)
    requires AllHold(s.batches) && AllWellShaped(Queue(s.batches))
    requires Sorted(s.batches) && (code.Repaired? ==> AllFit(s.batches))
    ensures var r := Drain(code, s, now).schedule.batches;
            Sorted(r) && AllHold(r) && AllWellShaped(Queue(r)) && (code.Repaired? ==> AllFit(r))
    ensures AllWellShaped(Drain(code, s, now).alarms)
    decreases Load(Queue(s.batches), now)
  {
    if s.batches != [] && s.batches[0].start <= now {
      RoundProgress(code, s, now);
      var front, tail := s.batches[0].alarms, s.(batches := s.batches[1..]);
      var r := TriggerAll(code, tail, front, now);
      TriggerAllKeeps(code, tail, front, now);
      forall b | b in Queue(r.batches) ensures WellShaped(b) {
        RoundMembers(code, s, now, b);
        if b !in Queue(s.batches) {
          var a :| a in Queue(s.batches) && 0 < a.repeatInterval && b == Renewal(a, now);
          RenewalShape(a, now);
        }
      }
      DrainKeeps(code, r, now);
    }
  }

  // ---------------------------------------------------------------- punctuality

  /** Whatever a drain of a sorted list leaves behind although its window has closed sits, in
      either program, in a batch whose own window is empty; and, as long as an int64 can hold the
      times, every batch left behind whose end has passed does hold such an alarm. */
  lemma LateIffIncompatible(code: Code, s: Schedule, now: int, b: BatchState)
    requires AllHold(s.batches) && Sorted(s.batches) && AllWellShaped(Queue(s.batches))
    requires code.Repaired? ==> AllFit(s.batches)
    requires b in Drain(code, s, now).schedule.batches
    ensures (exists a :: a in b.alarms && a.maxWhenElapsed <= now) ==> code.AsWritten? && b.end <= now < b.start
    ensures AllInRange(b.alarms) ==> ((exists a :: a in b.alarms && a.maxWhenElapsed <= now) <==> b.end <= now)
  {
    DrainKeeps(code, s, now);
    var bs := Drain(code, s, now).schedule.batches;
    var i :| 0 <= i < |bs| && bs[i] == b;
    assert now < bs[0].start <= b.start;
    if AllInRange(b.alarms) {
      EndAttained(b);
    }
  }

  /** From a sorted list of compatible batches nothing is left over whose window has closed,
      although renewals may push the start of a due batch past `now` while the loop runs. */
  lemma NeverLate(s: Schedule, now: int)
    requires AllHold(s.batches) && AllFit(s.batches) && Sorted(s.batches) && AllWellShaped(Queue(s.batches))
    ensures forall a :: a in Queue(Drain(Repaired, s, now).schedule.batches) ==> now < a.maxWhenElapsed
  {
    DrainKeeps(Repaired, s, now);
    var bs := Drain(Repaired, s, now).schedule.batches;
    forall a | a in Queue(bs) ensures now < a.maxWhenElapsed {
      QueueMembers(bs, a);
      var b :| b in bs && a in b.alarms;
      var i :| 0 <= i < |bs| && bs[i] == b;
      assert now < bs[0].start <= b.start <= b.end <= a.maxWhenElapsed;
    }
  }
}
