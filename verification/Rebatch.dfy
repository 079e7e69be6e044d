/** Rebuilding the batch list from its alarms, and removing a timer from it. */
module Rebatching {
  import opened Units
  import opened TimerInfos
  import opened Batches
  import opened BatchLists

  /** The clock reading ConvertToElapsed takes for each alarm of a rebatch, in order. */
  type Readings = nat -> Clock

  /** The alarms a rebatch keeps, with their new times; alarm number i uses reading k + i. */
  function Readded(alarms: seq<TimerInfo>, k: nat, clocks: Readings, nowElapsed: int): seq<TimerInfo>
    decreases |alarms|
  {
    if alarms == [] then []
    else
      var rest := Readded(alarms[1..], k + 1, clocks, nowElapsed);
      match Reconverted(alarms[0], clocks(k), nowElapsed)
      case None => rest
      case Some(a) => [a] + rest
  }

  /** ReAddTimerLocked for each of `alarms` in turn. */
  function ReAddAll(code: Code, bs: seq<BatchState>, alarms: seq<TimerInfo>, k: nat, clocks: Readings,
                    nowElapsed: int): seq<BatchState>
    decreases |alarms|
  {
    if alarms == [] then bs
    else ReAddAll(code, ReAdd(code, bs, alarms[0], clocks(k), nowElapsed), alarms[1..], k + 1, clocks, nowElapsed)
  }

  function ReAdd(code: Code, bs: seq<BatchState>, a: TimerInfo, c: Clock, nowElapsed: int): seq<BatchState> {
    match Reconverted(a, c, nowElapsed)
    case None => bs
    case Some(b) => Insert(code, bs, b)
  }

  /** ReBatchAllTimersLocked. */
  function Rebatch(code: Code, s: Schedule, nowElapsed: int, clocks: Readings): Schedule {
    Reschedule(Schedule(ReAddAll(code, [], Queue(s.batches), 0, clocks, nowElapsed), s.armed))
  }

  // ---------------------------------------------------------------- rebatching is a filter-map

  lemma {:induction false} ReAddAllTimers(code: Code, bs: seq<BatchState>, alarms: seq<TimerInfo>, k: nat,
                                          clocks: Readings, nowElapsed: int)
    ensures Timers(ReAddAll(code, bs, alarms, k, clocks, nowElapsed))
         == Timers(bs) + multiset(Readded(alarms, k, clocks, nowElapsed))
    decreases |alarms|
  {
    if alarms != [] {
      ReAddTimers(code, bs, alarms[0], clocks(k), nowElapsed);
      ReaddedStep(alarms, k, clocks, nowElapsed);
      ReAddAllTimers(code, ReAdd(code, bs, alarms[0], clocks(k), nowElapsed), alarms[1..], k + 1, clocks, nowElapsed);
    }
  }

  /** What reconverting one alarm queues. */
  ghost function Kept(a: TimerInfo, c: Clock, nowElapsed: int): multiset<TimerInfo> {
    match Reconverted(a, c, nowElapsed)
    case None => multiset{}
    case Some(b) => multiset{b}
  }

  lemma ReAddTimers(code: Code, bs: seq<BatchState>, a: TimerInfo, c: Clock, nowElapsed: int)
    ensures Timers(ReAdd(code, bs, a, c, nowElapsed)) == Timers(bs) + Kept(a, c, nowElapsed)
  {
    match Reconverted(a, c, nowElapsed)
    case None =>
    case Some(b) => InsertTimers(code, bs, b);
  }

  lemma ReaddedStep(alarms: seq<TimerInfo>, k: nat, clocks: Readings, nowElapsed: int)
    requires alarms != []
    ensures multiset(Readded(alarms, k, clocks, nowElapsed)) ==
            Kept(alarms[0], clocks(k), nowElapsed) + multiset(Readded(alarms[1..], k + 1, clocks, nowElapsed))
  {}

  /** The rebatched list is what inserting the reconverted alarms that are not past, in the order of
      the queue, makes of an empty list; so it holds exactly these, with multiplicity. */
  lemma RebatchIsFilterMap(code: Code, s: Schedule, nowElapsed: int, clocks: Readings)
    ensures var readded, r := Readded(Queue(s.batches), 0, clocks, nowElapsed), Rebatch(code, s, nowElapsed, clocks);
            r.batches == InsertAll(code, [], readded) && Timers(r.batches) == multiset(readded)
  {
    ReAddAllTimers(code, [], Queue(s.batches), 0, clocks, nowElapsed);
    ReAddAllInserts(code, [], Queue(s.batches), 0, clocks, nowElapsed);
    RescheduleFresh(Schedule(ReAddAll(code, [], Queue(s.batches), 0, clocks, nowElapsed), s.armed));
  }

  lemma {:induction false} ReAddAllInserts(code: Code, bs: seq<BatchState>, alarms: seq<TimerInfo>, k: nat,
                                           clocks: Readings, nowElapsed: int)
    ensures ReAddAll(code, bs, alarms, k, clocks, nowElapsed) ==
            InsertAll(code, bs, Readded(alarms, k, clocks, nowElapsed))
    decreases |alarms|
  {
    if alarms != [] {
      ReAddAllInserts(code, ReAdd(code, bs, alarms[0], clocks(k), nowElapsed), alarms[1..], k + 1, clocks, nowElapsed);
      ReaddedHead(code, bs, alarms, k, clocks, nowElapsed);
    }
  }

  lemma ReaddedHead(code: Code, bs: seq<BatchState>, alarms: seq<TimerInfo>, k: nat, clocks: Readings, nowElapsed: int)
    requires alarms != []
    ensures InsertAll(code, bs, Readded(alarms, k, clocks, nowElapsed)) ==
            InsertAll(code, ReAdd(code, bs, alarms[0], clocks(k), nowElapsed),
                      Readded(alarms[1..], k + 1, clocks, nowElapsed))
  {
    var rest := Readded(alarms[1..], k + 1, clocks, nowElapsed);
    match Reconverted(alarms[0], clocks(k), nowElapsed)
    case None =>
    case Some(b) => InsertAllHead(code, bs, b, rest);
  }

  lemma InsertAllHead(code: Code, bs: seq<BatchState>, a: TimerInfo, rest: seq<TimerInfo>)
    ensures InsertAll(code, bs, [a] + rest) == InsertAll(code, Insert(code, bs, a), rest)
  {
    assert ([a] + rest)[1..] == rest;
  }

  /** The alarms are taken in order, each with its own reading. */
  lemma {:induction false} ReaddedConcat(x: seq<TimerInfo>, y: seq<TimerInfo>, k: nat, clocks: Readings, nowElapsed: int)
    ensures Readded(x + y, k, clocks, nowElapsed) ==
            Readded(x, k, clocks, nowElapsed) + Readded(y, k + |x|, clocks, nowElapsed)
    decreases |x|
  {
    if x == [] {
      assert x + y == y;
    } else {
      assert (x + y)[1..] == x[1..] + y;
      ReaddedConcat(x[1..], y, k + 1, clocks, nowElapsed);
    }
  }

  /** Every readded alarm is the reconversion of an alarm that was there. */
  lemma {:induction false} ReaddedFrom(alarms: seq<TimerInfo>, k: nat, clocks: Readings, nowElapsed: int, b: TimerInfo)
    requires b in Readded(alarms, k, clocks, nowElapsed)
    ensures exists i :: 0 <= i < |alarms| && Reconverted(alarms[i], clocks(k + i), nowElapsed) == Some(b)
    decreases |alarms|
  {
    if Reconverted(alarms[0], clocks(k), nowElapsed) != Some(b) {
      ReaddedFrom(alarms[1..], k + 1, clocks, nowElapsed, b);
      var i :| 0 <= i < |alarms[1..]| && Reconverted(alarms[1..][i], clocks(k + 1 + i), nowElapsed) == Some(b);
      assert alarms[i + 1] == alarms[1..][i] && k + (i + 1) == k + 1 + i;
    } else {
      assert k + 0 == k;
    }
  }

  /** ... and every alarm that is not past is readded. */
  lemma {:induction false} ReaddedTo(alarms: seq<TimerInfo>, k: nat, clocks: Readings, nowElapsed: int, i: nat)
    requires i < |alarms| && Reconverted(alarms[i], clocks(k + i), nowElapsed).Some?
    ensures Reconverted(alarms[i], clocks(k + i), nowElapsed).value in Readded(alarms, k, clocks, nowElapsed)
    decreases |alarms|
  {
    if i > 0 {
      assert alarms[1..][i - 1] == alarms[i];
      ReaddedTo(alarms[1..], k + 1, clocks, nowElapsed, i - 1);
    }
  }

  predicate IsElapsedKind(a: TimerInfo) {
    a.kind != RTC && a.kind != RTC_WAKEUP
  }

  lemma ElapsedIgnoresClock(a: TimerInfo, c: Clock, d: Clock, nowElapsed: int)
    requires IsElapsedKind(a)
    ensures Reconverted(a, c, nowElapsed) == Reconverted(a, d, nowElapsed)
  {
    ConversionFollowsWallClock(a.origWhen, a.kind, c, d);
  }

  /** Rebatching elapsed timers does not depend on the clocks: every reading gives the same list. */
  lemma {:induction false} ElapsedRebatchIgnoresClocks(alarms: seq<TimerInfo>, k: nat, clocks: Readings, clocks': Readings,
                                                       nowElapsed: int)
    requires forall a :: a in alarms ==> IsElapsedKind(a)
    ensures Readded(alarms, k, clocks, nowElapsed) == Readded(alarms, k, clocks', nowElapsed)
    decreases |alarms|
  {
    if alarms != [] {
      assert alarms[0] in alarms;
      ElapsedIgnoresClock(alarms[0], clocks(k), clocks'(k), nowElapsed);
      ElapsedRebatchIgnoresClocks(alarms[1..], k + 1, clocks, clocks', nowElapsed);
    }
  }

  /** That list need not be the old one: an elapsed timer keeps its place exactly if it is not past
      and was queued at the time asked for, not moved by the futurity of a start or by renewal
      arithmetic on a moved alarm; otherwise a rebatch moves or drops it. */
  lemma ElapsedKeepsPlaceIff(a: TimerInfo, c: Clock, nowElapsed: int)
    requires WellShaped(a) && IsElapsedKind(a)
    ensures var r := Reconverted(a, c, nowElapsed);
            r.Some? && r.value.whenElapsed == a.whenElapsed <==>
            nowElapsed <= a.whenElapsed && a.whenElapsed == a.origWhen * NS_PER_MS
  {
    ConversionFollowsWallClock(a.origWhen, a.kind, c, c);
  }

  // ---------------------------------------------------------------- what rebatching keeps

  lemma ReAddKeeps(code: Code, bs: seq<BatchState>, a: TimerInfo, c: Clock, nowElapsed: int)
    requires Sorted(bs) && AllHold(bs) && (code.Repaired? ==> AllFit(bs)) && WellShaped(a)
    ensures var r := ReAdd(code, bs, a, c, nowElapsed);
            Sorted(r) && AllHold(r) && (code.Repaired? ==> AllFit(r))
  {
    ReconvertedShape(a, c, nowElapsed);
    var b := Reconverted(a, c, nowElapsed);
    if b.Some? {
      InsertSorted(code, bs, b.value);
      InsertHolds(code, bs, b.value);
      if code.Repaired? {
        InsertFits(bs, b.value);
      }
    }
  }

  lemma {:induction false} ReAddAllKeeps(code: Code, bs: seq<BatchState>, alarms: seq<TimerInfo>, k: nat,
                                         clocks: Readings, nowElapsed: int)
    requires Sorted(bs) && AllHold(bs) && (code.Repaired? ==> AllFit(bs))
    requires forall a :: a in alarms ==> WellShaped(a)
    ensures var r := ReAddAll(code, bs, alarms, k, clocks, nowElapsed);
            Sorted(r) && AllHold(r) && (code.Repaired? ==> AllFit(r))
    decreases |alarms|
  {
    if alarms != [] {
      var next := ReAdd(code, bs, alarms[0], clocks(k), nowElapsed);
      assert alarms[0] in alarms;
      ReAddKeeps(code, bs, alarms[0], clocks(k), nowElapsed);
      assert forall a :: a in alarms[1..] ==> a in alarms;
      ReAddAllKeeps(code, next, alarms[1..], k + 1, clocks, nowElapsed);
    }
  }

  // ---------------------------------------------------------------- removing one timer

  /** The loop of RemoveLocked: strip every batch, drop the ones left empty. */
  function Stripped(bs: seq<BatchState>, id: uint64): seq<BatchState> {
    if bs == [] then []
    else
      var b := Removed(bs[0], id);
      (if b.alarms == [] then [] else [b]) + Stripped(bs[1..], id)
  }

  /** The value `didRemove` has after the loop. As written each batch overwrites it. */
  predicate DidRemove(code: Code, bs: seq<BatchState>, id: uint64) {
    if bs == [] then false
    else
      var n := |bs| - 1;
      HasId(bs[n].alarms, id) || (code.Repaired? && DidRemove(code, bs[..n], id))
  }

  lemma {:induction false} DidRemoveSome(bs: seq<BatchState>, id: uint64)
    ensures DidRemove(Repaired, bs, id) <==> exists b :: b in bs && HasId(b.alarms, id)
    decreases |bs|
  {
    if bs != [] {
      var n := |bs| - 1;
      DidRemoveSome(bs[..n], id);
      LastOrBefore(bs);
    }
  }

  lemma LastOrBefore<T>(s: seq<T>)
    requires s != []
    ensures forall x :: x in s <==> x in s[..|s| - 1] || x == s[|s| - 1]
  {
    assert s == s[..|s| - 1] + [s[|s| - 1]];
  }

  lemma DidRemoveMeans(bs: seq<BatchState>, id: uint64)
    ensures DidRemove(Repaired, bs, id) <==> exists b :: b in bs && HasId(b.alarms, id)
    ensures DidRemove(AsWritten, bs, id) <==> bs != [] && HasId(bs[|bs| - 1].alarms, id)
  {
    DidRemoveSome(bs, id);
  }

  /** RemoveLocked. */
  function RemoveTimer(code: Code, s: Schedule, id: uint64, nowElapsed: int, clocks: Readings): Schedule {
    var t := s.(batches := Stripped(s.batches, id));
    if DidRemove(code, s.batches, id) then Rebatch(code, t, nowElapsed, clocks) else t
  }

  lemma {:induction false} WithoutConcat(x: seq<TimerInfo>, y: seq<TimerInfo>, id: uint64)
    ensures Without(x + y, id) == Without(x, id) + Without(y, id)
    decreases |y|
  {
    if y == [] {
      assert x + y == x;
    } else {
      var n := |y| - 1;
      assert (x + y)[..|x + y| - 1] == x + y[..n];
      WithoutConcat(x, y[..n], id);
    }
  }

  lemma RemovedAlarms(b: BatchState, id: uint64)
    ensures Removed(b, id).alarms == Without(b.alarms, id)
    ensures !HasId(b.alarms, id) ==> Removed(b, id) == b
  {
    WithoutShrinks(b.alarms, id);
  }

  /** Stripping removes from the queue every alarm with the id and nothing else. */
  lemma {:induction false} StrippedQueue(bs: seq<BatchState>, id: uint64)
    ensures Queue(Stripped(bs, id)) == Without(Queue(bs), id)
    decreases |bs|
  {
    if bs != [] {
      var b := Removed(bs[0], id);
      var rest := Stripped(bs[1..], id);
      RemovedAlarms(bs[0], id);
      StrippedQueue(bs[1..], id);
      WithoutConcat(bs[0].alarms, Queue(bs[1..]), id);
      if b.alarms != [] {
        assert ([b] + rest)[1..] == rest;
      } else {
        assert [] + rest == rest;
      }
    }
  }

  lemma {:induction false} StrippedHolds(bs: seq<BatchState>, id: uint64)
    requires AllHold(bs)
    ensures AllHold(Stripped(bs, id))
    decreases |bs|
  {
    if bs != [] {
      assert bs[0] in bs;
      RemovedHolds(bs[0], id);
      StrippedHolds(bs[1..], id);
    }
  }

  lemma RemovedHolds(b: BatchState, id: uint64)
    requires Holds(b)
    ensures Removed(b, id).alarms != [] ==> Holds(Removed(b, id))
  {
    var r := Without(b.alarms, id);
    RemovedAlarms(b, id);
    RemovedCached(b, id);
    LatestWhenBounds(r);
    EarliestMaxBounds(r);
    UnionFlagsStandalone(r);
  }

  lemma {:induction false} StrippedNothing(bs: seq<BatchState>, id: uint64)
    requires AllHold(bs) && forall b :: b in bs ==> !HasId(b.alarms, id)
    ensures Stripped(bs, id) == bs
    decreases |bs|
  {
    if bs != [] {
      assert bs[0] in bs;
      RemovedAlarms(bs[0], id);
      StrippedNothing(bs[1..], id);
      assert bs == [bs[0]] + bs[1..];
    }
  }

  /** No alarm with the id is left, in either program, and no alarm of another id appears from
      nowhere: what is left is either as before or reconverted. */
  lemma RemoveTimerTimers(code: Code, s: Schedule, id: uint64, nowElapsed: int, clocks: Readings)
    ensures Timers(RemoveTimer(code, s, id, nowElapsed, clocks).batches) ==
            if DidRemove(code, s.batches, id)
            then multiset(Readded(Without(Queue(s.batches), id), 0, clocks, nowElapsed))
            else multiset(Without(Queue(s.batches), id))
    ensures DidRemove(code, s.batches, id) ==>
              RemoveTimer(code, s, id, nowElapsed, clocks).batches ==
              InsertAll(code, [], Readded(Without(Queue(s.batches), id), 0, clocks, nowElapsed))
  {
    StrippedQueue(s.batches, id);
    RebatchIsFilterMap(code, s.(batches := Stripped(s.batches, id)), nowElapsed, clocks);
  }

  /** The two programs agree on whether to rebatch exactly when the last batch held the id or no
      batch did. */
  lemma DidRemoveAgreesIff(bs: seq<BatchState>, id: uint64)
    ensures DidRemove(AsWritten, bs, id) == DidRemove(Repaired, bs, id) <==>
            || (forall b :: b in bs ==> !HasId(b.alarms, id))
            || HasId(bs[|bs| - 1].alarms, id)
  {
    DidRemoveMeans(bs, id);
    if bs != [] {
      assert bs[|bs| - 1] in bs;
    }
  }

  /** Repaired removal keeps the list sorted and compatible and does nothing if the id was not
      queued; in either program a rebatch leaves a sorted list. */
  lemma RemoveKeeps(code: Code, s: Schedule, id: uint64, nowElapsed: int, clocks: Readings)
    requires AllHold(s.batches)
    requires forall a :: a in Queue(s.batches) ==> WellShaped(a)
    requires code.Repaired? ==> Sorted(s.batches) && AllFit(s.batches)
    ensures var r := RemoveTimer(code, s, id, nowElapsed, clocks);
            && AllHold(r.batches)
            && (code.Repaired? ==> Sorted(r.batches) && AllFit(r.batches))
            && (DidRemove(code, s.batches, id) ==> Sorted(r.batches))
            && (code.Repaired? && !DidRemove(code, s.batches, id) ==> r == s)
  {
    var t := s.(batches := Stripped(s.batches, id));
    StrippedHolds(s.batches, id);
    if DidRemove(code, s.batches, id) {
      StrippedQueue(s.batches, id);
      WithoutMembers(Queue(s.batches), id);
      ReAddAllKeeps(code, [], Queue(t.batches), 0, clocks, nowElapsed);
    } else if code.Repaired? {
      DidRemoveMeans(s.batches, id);
      StrippedNothing(s.batches, id);
    }
  }

  lemma ReAddHolds(code: Code, bs: seq<BatchState>, a: TimerInfo, c: Clock, nowElapsed: int)
    requires AllHold(bs)
    ensures AllHold(ReAdd(code, bs, a, c, nowElapsed))
  {
    var b := Reconverted(a, c, nowElapsed);
    if b.Some? {
      InsertHolds(code, bs, b.value);
    }
  }

  lemma {:induction false} ReAddAllHolds(code: Code, bs: seq<BatchState>, alarms: seq<TimerInfo>, k: nat,
                                         clocks: Readings, nowElapsed: int)
    requires AllHold(bs)
    ensures AllHold(ReAddAll(code, bs, alarms, k, clocks, nowElapsed))
    decreases |alarms|
  {
    if alarms != [] {
      ReAddHolds(code, bs, alarms[0], clocks(k), nowElapsed);
      ReAddAllHolds(code, ReAdd(code, bs, alarms[0], clocks(k), nowElapsed), alarms[1..], k + 1, clocks, nowElapsed);
    }
  }

  lemma RebatchHolds(code: Code, s: Schedule, nowElapsed: int, clocks: Readings)
    ensures AllHold(Rebatch(code, s, nowElapsed, clocks).batches)
  {
    ReAddAllHolds(code, [], Queue(s.batches), 0, clocks, nowElapsed);
  }

  lemma RemoveHolds(code: Code, s: Schedule, id: uint64, nowElapsed: int, clocks: Readings)
    requires AllHold(s.batches)
    ensures AllHold(RemoveTimer(code, s, id, nowElapsed, clocks).batches)
  {
    StrippedHolds(s.batches, id);
    RebatchHolds(code, s.(batches := Stripped(s.batches, id)), nowElapsed, clocks);
  }

  /** What holds of every alarm with another id and survives reconversion holds of every alarm
      left after a removal. */
  lemma RemoveForAll(code: Code, s: Schedule, id: uint64, nowElapsed: int, clocks: Readings, P: TimerInfo -> bool)
    requires forall a :: a in Queue(s.batches) && a.id != id ==> P(a)
    requires forall a, c :: P(a) && Reconverted(a, c, nowElapsed).Some? ==> P(Reconverted(a, c, nowElapsed).value)
    ensures forall b :: b in Queue(RemoveTimer(code, s, id, nowElapsed, clocks).batches) ==> P(b)
  {
    var left := Without(Queue(s.batches), id);
    WithoutMembers(Queue(s.batches), id);
    RemoveTimerTimers(code, s, id, nowElapsed, clocks);
    forall b | b in Queue(RemoveTimer(code, s, id, nowElapsed, clocks).batches) ensures P(b) {
      assert b in Timers(RemoveTimer(code, s, id, nowElapsed, clocks).batches);
      if DidRemove(code, s.batches, id) {
        ReaddedForAll(left, 0, clocks, nowElapsed, P, b);
      }
    }
  }

  lemma ReaddedForAll(alarms: seq<TimerInfo>, k: nat, clocks: Readings, nowElapsed: int, P: TimerInfo -> bool, b: TimerInfo)
    requires forall a :: a in alarms ==> P(a)
    requires forall a, c :: P(a) && Reconverted(a, c, nowElapsed).Some? ==> P(Reconverted(a, c, nowElapsed).value)
    requires b in Readded(alarms, k, clocks, nowElapsed)
    ensures P(b)
  {
    ReaddedFrom(alarms, k, clocks, nowElapsed, b);
    var i :| 0 <= i < |alarms| && Reconverted(alarms[i], clocks(k + i), nowElapsed) == Some(b);
    assert P(alarms[i]);
  }

  lemma RebatchForAll(code: Code, s: Schedule, nowElapsed: int, clocks: Readings, P: TimerInfo -> bool)
    requires forall a :: a in Queue(s.batches) ==> P(a)
    requires forall a, c :: P(a) && Reconverted(a, c, nowElapsed).Some? ==> P(Reconverted(a, c, nowElapsed).value)
    ensures forall b :: b in Queue(Rebatch(code, s, nowElapsed, clocks).batches) ==> P(b)
  {
    RebatchIsFilterMap(code, s, nowElapsed, clocks);
    forall b | b in Queue(Rebatch(code, s, nowElapsed, clocks).batches) ensures P(b) {
      assert b in Timers(Rebatch(code, s, nowElapsed, clocks).batches);
      ReaddedForAll(Queue(s.batches), 0, clocks, nowElapsed, P, b);
    }
  }

  // ---------------------------------------------------------------- removal as written, exactly

  /** The batch is still there once the id is gone. */
  predicate Survives(b: BatchState, id: uint64) {
    Removed(b, id).alarms != []
  }

  /** The batches that survive are in order by the starts they are left with. */
  ghost predicate SurvivorsInOrder(bs: seq<BatchState>, id: uint64) {
    forall i, j :: 0 <= i < j < |bs| && Survives(bs[i], id) && Survives(bs[j], id) ==>
      Removed(bs[i], id).start <= Removed(bs[j], id).start
  }

  lemma {:induction false} StrippedMembers(bs: seq<BatchState>, id: uint64, r: BatchState)
    ensures r in Stripped(bs, id) <==> exists b :: b in bs && Survives(b, id) && r == Removed(b, id)
    decreases |bs|
  {
    if bs != [] {
      assert bs == [bs[0]] + bs[1..];
      StrippedMembers(bs[1..], id, r);
      assert bs[0] in bs;
    }
  }

  lemma {:induction false} StrippedSortedIff(bs: seq<BatchState>, id: uint64)
    ensures Sorted(Stripped(bs, id)) <==> SurvivorsInOrder(bs, id)
    decreases |bs|
  {
    if bs != [] {
      var b, rest := Removed(bs[0], id), Stripped(bs[1..], id);
      StrippedSortedIff(bs[1..], id);
      SurvivorsStep(bs, id);
      if Survives(bs[0], id) {
        assert Stripped(bs, id) == [b] + rest;
        SortedCons(b, rest);
        StrippedNotBefore(bs[1..], id, b.start);
      } else {
        assert Stripped(bs, id) == rest;
      }
    }
  }

  lemma StrippedNotBefore(bs: seq<BatchState>, id: uint64, start: int)
    ensures (forall r :: r in Stripped(bs, id) ==> start <= r.start) <==>
            (forall b :: b in bs && Survives(b, id) ==> start <= Removed(b, id).start)
  {
    forall r ensures r in Stripped(bs, id) <==> exists b :: b in bs && Survives(b, id) && r == Removed(b, id) {
      StrippedMembers(bs, id, r);
    }
  }

  lemma SortedCons(b: BatchState, bs: seq<BatchState>)
    ensures Sorted([b] + bs) <==> Sorted(bs) && forall r :: r in bs ==> b.start <= r.start
  {
    var t := [b] + bs;
    if Sorted(t) {
      forall r | r in bs ensures b.start <= r.start {
        var i :| 0 <= i < |bs| && bs[i] == r;
        assert t[0] == b && t[i + 1] == r;
      }
      forall i, j | 0 <= i < j < |bs| ensures bs[i].start <= bs[j].start {
        assert t[i + 1] == bs[i] && t[j + 1] == bs[j];
      }
    }
  }

  lemma SurvivorsStep(bs: seq<BatchState>, id: uint64)
    requires bs != []
    ensures SurvivorsInOrder(bs, id) <==>
            && SurvivorsInOrder(bs[1..], id)
            && (Survives(bs[0], id) ==>
                  forall c :: c in bs[1..] && Survives(c, id) ==> Removed(bs[0], id).start <= Removed(c, id).start)
  {
    var t := bs[1..];
    if SurvivorsInOrder(bs, id) {
      forall i, j | 0 <= i < j < |t| && Survives(t[i], id) && Survives(t[j], id)
        ensures Removed(t[i], id).start <= Removed(t[j], id).start
      {
        assert t[i] == bs[i + 1] && t[j] == bs[j + 1];
      }
      forall c | c in t && Survives(bs[0], id) && Survives(c, id) ensures Removed(bs[0], id).start <= Removed(c, id).start {
        var i :| 0 <= i < |t| && t[i] == c;
        assert bs[i + 1] == c;
      }
    } else {
      var i, j :| 0 <= i < j < |bs| && Survives(bs[i], id) && Survives(bs[j], id)
                  && !(Removed(bs[i], id).start <= Removed(bs[j], id).start);
      assert bs[j] == t[j - 1] && bs[j] in t;
      if i > 0 {
        assert bs[i] == t[i - 1];
      }
    }
  }

  /** As written the list is sorted after a removal exactly when the last batch held the id, so
      that everything was rebatched, or the batches left behind happen to be in order. */
  lemma RemoveSortedAsWrittenIff(s: Schedule, id: uint64, nowElapsed: int, clocks: Readings)
    requires AllHold(s.batches)
    requires forall a :: a in Queue(s.batches) ==> WellShaped(a)
    ensures Sorted(RemoveTimer(AsWritten, s, id, nowElapsed, clocks).batches) <==>
            || (s.batches != [] && HasId(s.batches[|s.batches| - 1].alarms, id))
            || SurvivorsInOrder(s.batches, id)
  {
    DidRemoveMeans(s.batches, id);
    RemoveKeeps(AsWritten, s, id, nowElapsed, clocks);
    StrippedSortedIff(s.batches, id);
  }

  /** As written the deadlines come in time for every batch left after a removal exactly when
      everything was rebatched, or no batch left behind starts before the old front and none with
      a wake-up alarm before the old first batch with one. */
  lemma RemoveArmedAsWrittenIff(s: Schedule, id: uint64, nowElapsed: int, clocks: Readings)
    requires Sorted(s.batches) && AllHold(s.batches) && Armable(s.batches) && Fresh(s)
    requires forall a :: a in Queue(s.batches) ==> WellShaped(a)
    ensures var bs, r := s.batches, RemoveTimer(AsWritten, s, id, nowElapsed, clocks);
            if bs != [] && HasId(bs[|bs| - 1].alarms, id) then
              Fresh(r) && (Armable(r.batches) ==> ArmedForAll(r))
            else
              && r.armed == s.armed
              && (Covers(s, r.batches) <==>
                    forall b :: b in bs && Survives(b, id) ==> NotBefore(bs, Removed(b, id)))
  {
    var bs, t := s.batches, s.(batches := Stripped(s.batches, id));
    DidRemoveMeans(bs, id);
    if DidRemove(AsWritten, bs, id) {
      RemoveKeeps(AsWritten, s, id, nowElapsed, clocks);
      RebatchFresh(AsWritten, t, nowElapsed, clocks);
    } else {
      CoversIff(s, t.batches);
      forall r ensures r in t.batches <==> exists b :: b in bs && Survives(b, id) && r == Removed(b, id) {
        StrippedMembers(bs, id, r);
      }
    }
  }

  /** A rebatch re-arms for the list it leaves. */
  lemma RebatchFresh(code: Code, s: Schedule, nowElapsed: int, clocks: Readings)
    ensures var r := Rebatch(code, s, nowElapsed, clocks);
            Fresh(r) && (Sorted(r.batches) && Armable(r.batches) ==> ArmedForAll(r))
  {
    var r := Rebatch(code, s, nowElapsed, clocks);
    RescheduleFresh(Schedule(ReAddAll(code, [], Queue(s.batches), 0, clocks, nowElapsed), s.armed));
    if Sorted(r.batches) && Armable(r.batches) {
      FreshArms(r);
    }
  }
}
