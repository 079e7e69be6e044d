/** Batches: alarms whose delivery windows are to be served by one wake-up. A batch keeps its
    alarms ordered by time and caches the latest start, the earliest end and the union of the
    flags, updating the three incrementally. */
module Batches {
  import opened Units
  import opened TimerInfos

  /** The value of a batch: its three cached fields and its alarms. */
  datatype BatchState = BatchState(start: int, end: int, flags: Flags, alarms: seq<TimerInfo>)

  function Seed(a: TimerInfo): BatchState {
    BatchState(a.whenElapsed, a.maxWhenElapsed, a.flags, [a])
  }

  function EmptyBatch(): BatchState {
    BatchState(TIME_POINT_MIN, TIME_POINT_MAX, {}, [])
  }

  predicate CanHold(b: BatchState, whenElapsed: int, maxWhen: int) {
    b.end > whenElapsed && b.start <= maxWhen
  }

  predicate HasWakeups(alarms: seq<TimerInfo>) {
    exists i :: 0 <= i < |alarms| && WakeupBit(alarms[i])
  }

  function Whens(alarms: seq<TimerInfo>): (w: seq<int>)
    ensures |w| == |alarms|
    ensures forall i :: 0 <= i < |w| ==> w[i] == alarms[i].whenElapsed
  {
    seq(|alarms|, i requires 0 <= i < |alarms| => alarms[i].whenElapsed)
  }

  function Slot(alarms: seq<TimerInfo>, whenElapsed: int): (p: nat)
    ensures p <= |alarms|
  {
    UpperBound(Whens(alarms), whenElapsed, 0, |alarms|)
  }

  function Added(b: BatchState, a: TimerInfo): BatchState {
    var p := Slot(b.alarms, a.whenElapsed);
    BatchState(if a.whenElapsed > b.start then a.whenElapsed else b.start,
               if a.maxWhenElapsed < b.end then a.maxWhenElapsed else b.end,
               b.flags + a.flags,
               b.alarms[..p] + [a] + b.alarms[p..])
  }

  function Removed(b: BatchState, id: uint64): BatchState {
    var kept := Without(b.alarms, id);
    if |kept| < |b.alarms| then Recomputed(kept) else b
  }

  predicate HasId(alarms: seq<TimerInfo>, id: uint64) {
    exists i :: 0 <= i < |alarms| && alarms[i].id == id
  }

  function Without(alarms: seq<TimerInfo>, id: uint64): (r: seq<TimerInfo>)
    ensures |r| <= |alarms|
  {
    if alarms == [] then []
    else
      var n := |alarms| - 1;
      Without(alarms[..n], id) + (if alarms[n].id == id then [] else [alarms[n]])
  }

  // ------------------------------------------------ recomputation, the reference for the cache

  function LatestWhen(alarms: seq<TimerInfo>): int {
    if alarms == [] then TIME_POINT_MIN
    else Max(LatestWhen(alarms[..|alarms| - 1]), alarms[|alarms| - 1].whenElapsed)
  }

  function EarliestMax(alarms: seq<TimerInfo>): int {
    if alarms == [] then TIME_POINT_MAX
    else Min(EarliestMax(alarms[..|alarms| - 1]), alarms[|alarms| - 1].maxWhenElapsed)
  }

  function UnionFlags(alarms: seq<TimerInfo>): Flags {
    if alarms == [] then {}
    else UnionFlags(alarms[..|alarms| - 1]) + alarms[|alarms| - 1].flags
  }

  /** The batch a full scan of `alarms` would build. */
  function Recomputed(alarms: seq<TimerInfo>): BatchState {
    BatchState(LatestWhen(alarms), EarliestMax(alarms), UnionFlags(alarms), alarms)
  }

  /** Time points an int64 can hold. */
  predicate InRange(a: TimerInfo) {
    TIME_POINT_MIN <= a.whenElapsed && a.maxWhenElapsed <= TIME_POINT_MAX
  }

  ghost predicate Ordered(alarms: seq<TimerInfo>) {
    forall i, j :: 0 <= i < j < |alarms| ==> alarms[i].whenElapsed <= alarms[j].whenElapsed
  }

  ghost predicate Consistent(b: BatchState) {
    b == Recomputed(b.alarms) && Ordered(b.alarms)
  }

  /** The alarms are ordered and, if an int64 can hold their times, the cached fields are exact. */
  ghost predicate Cached(b: BatchState) {
    Ordered(b.alarms) && (AllInRange(b.alarms) ==> b == Recomputed(b.alarms))
  }

  ghost predicate AllInRange(alarms: seq<TimerInfo>) {
    forall a :: a in alarms ==> InRange(a)
  }

  lemma {:induction false} LatestWhenConcat(x: seq<TimerInfo>, y: seq<TimerInfo>)
    ensures LatestWhen(x + y) == Max(LatestWhen(x), LatestWhen(y))
    decreases |y|
  {
    if y == [] {
      assert x + y == x;
      LatestWhenBounds(x);
    } else {
      var n := |y| - 1;
      assert (x + y)[..|x + y| - 1] == x + y[..n];
      LatestWhenConcat(x, y[..n]);
    }
  }

  lemma {:induction false} EarliestMaxConcat(x: seq<TimerInfo>, y: seq<TimerInfo>)
    ensures EarliestMax(x + y) == Min(EarliestMax(x), EarliestMax(y))
    decreases |y|
  {
    if y == [] {
      assert x + y == x;
      EarliestMaxBounds(x);
    } else {
      var n := |y| - 1;
      assert (x + y)[..|x + y| - 1] == x + y[..n];
      EarliestMaxConcat(x, y[..n]);
    }
  }

  lemma {:induction false} UnionFlagsConcat(x: seq<TimerInfo>, y: seq<TimerInfo>)
    ensures UnionFlags(x + y) == UnionFlags(x) + UnionFlags(y)
    decreases |y|
  {
    if y == [] {
      assert x + y == x;
    } else {
      var n := |y| - 1;
      assert (x + y)[..|x + y| - 1] == x + y[..n];
      UnionFlagsConcat(x, y[..n]);
    }
  }

  /** LatestWhen is the maximum, TIME_POINT_MIN counted in. */
  lemma {:induction false} LatestWhenBounds(s: seq<TimerInfo>)
    ensures TIME_POINT_MIN <= LatestWhen(s)
    ensures forall a :: a in s ==> a.whenElapsed <= LatestWhen(s)
    ensures LatestWhen(s) == TIME_POINT_MIN || exists a :: a in s && a.whenElapsed == LatestWhen(s)
    decreases |s|
  {
    if s != [] {
      var n := |s| - 1;
      LatestWhenBounds(s[..n]);
      assert s == s[..n] + [s[n]];
      if LatestWhen(s) == s[n].whenElapsed {
        assert s[n] in s;
      }
    }
  }

  /** EarliestMax is the minimum, TIME_POINT_MAX counted in. */
  lemma {:induction false} EarliestMaxBounds(s: seq<TimerInfo>)
    ensures EarliestMax(s) <= TIME_POINT_MAX
    ensures forall a :: a in s ==> EarliestMax(s) <= a.maxWhenElapsed
    ensures EarliestMax(s) == TIME_POINT_MAX || exists a :: a in s && a.maxWhenElapsed == EarliestMax(s)
    decreases |s|
  {
    if s != [] {
      var n := |s| - 1;
      EarliestMaxBounds(s[..n]);
      assert s == s[..n] + [s[n]];
      if EarliestMax(s) == s[n].maxWhenElapsed {
        assert s[n] in s;
      }
    }
  }

  /** A batch carries the STANDALONE bit exactly when one of its alarms does. */
  lemma {:induction false} UnionFlagsStandalone(s: seq<TimerInfo>)
    ensures IsStandalone(UnionFlags(s)) <==> exists a :: a in s && IsStandalone(a.flags)
    decreases |s|
  {
    if s != [] {
      var n := |s| - 1;
      UnionFlagsStandalone(s[..n]);
      assert s == s[..n] + [s[n]];
      OrStandalone(UnionFlags(s[..n]), s[n].flags);
      if IsStandalone(s[n].flags) {
        assert s[n] in s;
      }
    }
  }

  lemma OrStandalone(f: Flags, g: Flags)
    ensures IsStandalone(f + g) <==> IsStandalone(f) || IsStandalone(g)
  {}

  lemma EmptyConsistent()
    ensures Consistent(EmptyBatch())
  {}

  lemma SingletonFolds(a: TimerInfo)
    ensures LatestWhen([a]) == Max(TIME_POINT_MIN, a.whenElapsed)
    ensures EarliestMax([a]) == Min(TIME_POINT_MAX, a.maxWhenElapsed)
    ensures UnionFlags([a]) == a.flags
  {
    assert [a][..0] == [];
  }

  lemma SeedConsistent(a: TimerInfo)
    requires InRange(a)
    ensures Consistent(Seed(a))
  {
    SingletonFolds(a);
  }

  /** Inserting one alarm anywhere changes each cached field by that alarm alone. */
  lemma InsertFolds(x: seq<TimerInfo>, a: TimerInfo, y: seq<TimerInfo>)
    ensures LatestWhen(x + [a] + y) == Max(LatestWhen(x + y), a.whenElapsed)
    ensures EarliestMax(x + [a] + y) == Min(EarliestMax(x + y), a.maxWhenElapsed)
    ensures UnionFlags(x + [a] + y) == UnionFlags(x + y) + a.flags
  {
    SingletonFolds(a);
    LatestWhenConcat(x, y);
    LatestWhenConcat(x, [a]);
    LatestWhenConcat(x + [a], y);
    LatestWhenBounds(x);
    EarliestMaxConcat(x, y);
    EarliestMaxConcat(x, [a]);
    EarliestMaxConcat(x + [a], y);
    EarliestMaxBounds(x);
    UnionFlagsConcat(x, y);
    UnionFlagsConcat(x, [a]);
    UnionFlagsConcat(x + [a], y);
  }

  lemma OrderedAround(x: seq<TimerInfo>, a: TimerInfo, y: seq<TimerInfo>)
    requires Ordered(x) && Ordered(y)
    requires forall i :: 0 <= i < |x| ==> x[i].whenElapsed <= a.whenElapsed
    requires forall i :: 0 <= i < |y| ==> a.whenElapsed <= y[i].whenElapsed
    ensures Ordered(x + [a] + y)
  {
    var r := x + [a] + y;
    forall i, j | 0 <= i < j < |r| ensures r[i].whenElapsed <= r[j].whenElapsed {
      if j > |x| {
        assert r[j] == y[j - |x| - 1];
        if i > |x| {
          assert r[i] == y[i - |x| - 1];
        }
      }
    }
  }

  /** The slot splits ordered alarms, those for the same instant before it. */
  lemma SlotSplits(alarms: seq<TimerInfo>, a: TimerInfo)
    requires Ordered(alarms)
    ensures var p := Slot(alarms, a.whenElapsed);
            && (forall i :: 0 <= i < p ==> alarms[i].whenElapsed <= a.whenElapsed)
            && (forall i :: p <= i < |alarms| ==> a.whenElapsed < alarms[i].whenElapsed)
  {
    var w := Whens(alarms);
    UpperBoundSplits(w, a.whenElapsed, 0, |w|);
    var p := Slot(alarms, a.whenElapsed);
    forall i | 0 <= i < p ensures alarms[i].whenElapsed <= a.whenElapsed {
      assert w[i] <= a.whenElapsed;
    }
    forall i | p <= i < |alarms| ensures a.whenElapsed < alarms[i].whenElapsed {
      assert a.whenElapsed < w[i];
    }
  }

  /** So inserting there keeps them ordered. */
  lemma SlotKeepsOrder(alarms: seq<TimerInfo>, a: TimerInfo)
    requires Ordered(alarms)
    ensures var p := Slot(alarms, a.whenElapsed); Ordered(alarms[..p] + [a] + alarms[p..])
  {
    var p := Slot(alarms, a.whenElapsed);
    var x, y := alarms[..p], alarms[p..];
    SlotSplits(alarms, a);
    OrderedAround(x, a, y);
  }

  /** The incremental update of Add is a recomputation, the alarms stay ordered, and the start
      can only rise. */
  lemma AddConsistent(b: BatchState, a: TimerInfo)
    requires Consistent(b)
    ensures Consistent(Added(b, a))
    ensures Added(b, a).start >= b.start
  {
    var p := Slot(b.alarms, a.whenElapsed);
    AddedFields(b, a, b.alarms[..p], b.alarms[p..]);
    SlotKeepsOrder(b.alarms, a);
  }

  lemma AddedFields(b: BatchState, a: TimerInfo, x: seq<TimerInfo>, y: seq<TimerInfo>)
    requires b.alarms == x + y && b == Recomputed(b.alarms)
    ensures Recomputed(x + [a] + y) ==
            BatchState(Max(b.start, a.whenElapsed), Min(b.end, a.maxWhenElapsed), b.flags + a.flags, x + [a] + y)
  {
    InsertFolds(x, a, y);
  }

  /** Add adds exactly the alarm, to any batch. */
  lemma AddedTimers(b: BatchState, a: TimerInfo)
    ensures multiset(Added(b, a).alarms) == multiset(b.alarms) + multiset{a}
  {
    var p := Slot(b.alarms, a.whenElapsed);
    assert b.alarms == b.alarms[..p] + b.alarms[p..];
  }

  lemma {:induction false} WithoutIsFilter(s: seq<TimerInfo>, id: uint64)
    ensures forall a :: multiset(Without(s, id))[a] == if a.id == id then 0 else multiset(s)[a]
    decreases |s|
  {
    if s != [] {
      var n := |s| - 1;
      WithoutIsFilter(s[..n], id);
      assert s == s[..n] + [s[n]];
    }
  }

  lemma WithoutMembers(s: seq<TimerInfo>, id: uint64)
    ensures forall a :: a in Without(s, id) <==> a in s && a.id != id
  {
    WithoutIsFilter(s, id);
    forall a ensures a in Without(s, id) <==> a in s && a.id != id {
      assert a in s <==> multiset(s)[a] > 0;
      assert a in Without(s, id) <==> multiset(Without(s, id))[a] > 0;
    }
  }

  lemma {:induction false} WithoutKeepsOrder(s: seq<TimerInfo>, id: uint64)
    requires Ordered(s)
    ensures Ordered(Without(s, id))
    ensures forall a :: a in Without(s, id) <==> a in s && a.id != id
    decreases |s|
  {
    if s != [] {
      var n := |s| - 1;
      var r := Without(s[..n], id);
      WithoutKeepsOrder(s[..n], id);
      assert s == s[..n] + [s[n]];
      if s[n].id != id {
        forall i | 0 <= i < |r| ensures r[i].whenElapsed <= s[n].whenElapsed {
          assert r[i] in s[..n];
        }
      }
    }
  }

  lemma RemoveConsistent(b: BatchState, id: uint64)
    requires Consistent(b)
    ensures Consistent(Removed(b, id))
    ensures Removed(b, id).start <= b.start
    ensures forall a :: multiset(Removed(b, id).alarms)[a] == if a.id == id then 0 else multiset(b.alarms)[a]
  {
    WithoutIsFilter(b.alarms, id);
    WithoutKeepsOrder(b.alarms, id);
    WithoutShrinks(b.alarms, id);
    LatestWhenBounds(Without(b.alarms, id));
    LatestWhenBounds(b.alarms);
  }

  lemma SeedCached(a: TimerInfo)
    ensures Cached(Seed(a))
  {
    assert a in [a];
    SingletonFolds(a);
  }

  lemma AddedCached(b: BatchState, a: TimerInfo)
    ensures Cached(b) ==> Cached(Added(b, a))
  {
    if Cached(b) {
      var p := Slot(b.alarms, a.whenElapsed);
      SlotKeepsOrder(b.alarms, a);
      if AllInRange(Added(b, a).alarms) {
        assert b.alarms == b.alarms[..p] + b.alarms[p..];
        assert AllInRange(b.alarms);
        AddConsistent(b, a);
      }
    }
  }

  lemma RemovedCached(b: BatchState, id: uint64)
    ensures Cached(b) ==> Cached(Removed(b, id))
  {
    if Cached(b) {
      WithoutKeepsOrder(b.alarms, id);
      WithoutShrinks(b.alarms, id);
    }
  }

  /** The cached end is the end of some alarm. */
  lemma EndAttained(b: BatchState)
    requires Cached(b) && AllInRange(b.alarms) && b.alarms != []
    ensures exists a :: a in b.alarms && a.maxWhenElapsed == b.end
  {
    EarliestMaxBounds(b.alarms);
    assert b.alarms[0] in b.alarms;
  }

  lemma HasWakeupsIff(alarms: seq<TimerInfo>)
    ensures HasWakeups(alarms) <==> exists a :: a in alarms && WakeupBit(a)
  {
    if a :| a in alarms && WakeupBit(a) {
      var i :| 0 <= i < |alarms| && alarms[i] == a;
    }
  }

  datatype BatchOp = AddOp(alarm: TimerInfo) | RemoveOp(id: uint64)

  function RunOps(b: BatchState, ops: seq<BatchOp>): BatchState
    decreases |ops|
  {
    if ops == [] then b
    else
      var n := |ops| - 1;
      var c := RunOps(b, ops[..n]);
      match ops[n]
      case AddOp(a) => Added(c, a)
      case RemoveOp(id) => Removed(c, id)
  }

  /** Incremental bookkeeping equals recomputation after any sequence of operations on a batch
      that was consistent: the empty one, or one seeded with an alarm (SeedConsistent). */
  lemma {:induction false} BookkeepingExact(b: BatchState, ops: seq<BatchOp>)
    requires Consistent(b)
    ensures Consistent(RunOps(b, ops))
    decreases |ops|
  {
    if ops != [] {
      var n := |ops| - 1;
      BookkeepingExact(b, ops[..n]);
      var c := RunOps(b, ops[..n]);
      match ops[n]
      case AddOp(a) => AddConsistent(c, a);
      case RemoveOp(id) => RemoveConsistent(c, id);
    }
  }

  // ------------------------------------------------ the mutable object

  lemma {:induction false} WithoutShrinks(s: seq<TimerInfo>, id: uint64)
    ensures HasId(s, id) <==> |Without(s, id)| < |s|
    ensures !HasId(s, id) ==> Without(s, id) == s
    decreases |s|
  {
    if s != [] {
      var n := |s| - 1;
      WithoutShrinks(s[..n], id);
      if HasId(s[..n], id) {
        var i :| 0 <= i < n && s[..n][i].id == id;
        assert s[i].id == id;
      }
      if s[n].id != id && HasId(s, id) {
        var i :| 0 <= i < |s| && s[i].id == id;
        assert s[..n][i].id == id;
      }
    }
  }

  /** The accumulating scan of Remove: `b` so far, `rest` to come. */
  ghost function Scan(b: BatchState, rest: seq<TimerInfo>, id: uint64): BatchState
    decreases |rest|
  {
    if rest == [] then b
    else if rest[0].id == id then Scan(b, rest[1..], id)
    else Scan(Extended(b, rest[0]), rest[1..], id)
  }

  ghost function Extended(b: BatchState, a: TimerInfo): BatchState {
    BatchState(Max(b.start, a.whenElapsed), Min(b.end, a.maxWhenElapsed), b.flags + a.flags, b.alarms + [a])
  }

  lemma {:induction false} ScanRecomputes(seen: seq<TimerInfo>, rest: seq<TimerInfo>, id: uint64)
    ensures Scan(Recomputed(Without(seen, id)), rest, id) == Recomputed(Without(seen + rest, id))
    decreases |rest|
  {
    if rest == [] {
      assert seen + rest == seen;
    } else {
      var a, kept := rest[0], Without(seen, id);
      assert (seen + [a])[..|seen|] == seen;
      assert (kept + [a])[..|kept|] == kept;
      assert seen + rest == (seen + [a]) + rest[1..];
      ScanRecomputes(seen + [a], rest[1..], id);
      if a.id == id {
        assert Without(seen + [a], id) == kept;
      } else {
        assert Without(seen + [a], id) == kept + [a];
        assert Extended(Recomputed(kept), a) == Recomputed(kept + [a]);
      }
    }
  }

  lemma RemovedIsScan(b: BatchState, id: uint64)
    ensures var s := Scan(EmptyBatch(), b.alarms, id);
            && (HasId(b.alarms, id) <==> |s.alarms| < |b.alarms|)
            && (|s.alarms| < |b.alarms| ==> Removed(b, id) == s)
            && (|s.alarms| >= |b.alarms| ==> Removed(b, id) == b && s.alarms == b.alarms)
  {
    assert [] + b.alarms == b.alarms;
    ScanRecomputes([], b.alarms, id);
    WithoutShrinks(b.alarms, id);
  }

  lemma TakeFirst(kept: seq<TimerInfo>, rest: seq<TimerInfo>)
    requires rest != []
    ensures var all, k := kept + rest, |kept|;
            all[k] == rest[0] && all[..k] + all[k + 1..] == kept + rest[1..] && all == (kept + [rest[0]]) + rest[1..]
  {}

  class Batch {
    var start: int
    var end: int
    var flags: Flags
    var alarms: seq<TimerInfo>

    ghost function State(): BatchState
      reads this
    {
      BatchState(start, end, flags, alarms)
    }

    constructor ()
      ensures State() == EmptyBatch() && Consistent(State())
    {
      start, end, flags, alarms := TIME_POINT_MIN, TIME_POINT_MAX, {}, [];
      EmptyConsistent();
    }

    constructor FromSeed(seed: TimerInfo)
      ensures State() == Seed(seed) && Cached(State())
    {
      SeedCached(seed);
      start, end, flags, alarms := seed.whenElapsed, seed.maxWhenElapsed, seed.flags, [seed];
    }

    predicate Holds(whenElapsed: int, maxWhen: int)
      reads this
      ensures Holds(whenElapsed, maxWhen) <==> CanHold(State(), whenElapsed, maxWhen)
    {
      end > whenElapsed && start <= maxWhen
    }

    method Add(a: TimerInfo) returns (newStart: bool)
      modifies this
      ensures State() == Added(old(State()), a)
      ensures newStart <==> State().start != old(State()).start
    {
      newStart := false;
      var p := Slot(alarms, a.whenElapsed);
      alarms := alarms[..p] + [a] + alarms[p..];
      if a.whenElapsed > start {
        start := a.whenElapsed;
        newStart := true;
      }
      if a.maxWhenElapsed < end {
        end := a.maxWhenElapsed;
      }
      flags := flags + a.flags;
    }

    /** Remove with the predicate "has this id", the only one the manager passes. */
    method Remove(id: uint64) returns (didRemove: bool)
      modifies this
      ensures State() == Removed(old(State()), id)
      ensures didRemove <==> HasId(old(alarms), id)
    {
      didRemove := false;
      var newStart, newEnd := TIME_POINT_MIN, TIME_POINT_MAX;
      var newFlags: Flags := {};
      var at := 0;
      ghost var was, kept, rest := alarms, [], alarms;
      while at < |alarms|
        invariant at == |kept| && alarms == kept + rest && |alarms| <= |was|
        invariant Scan(BatchState(newStart, newEnd, newFlags, kept), rest, id) == Scan(EmptyBatch(), was, id)
        invariant didRemove <==> |alarms| < |was|
        invariant start == old(start) && end == old(end) && flags == old(flags)
        decreases |alarms| - at
      {
        var alarm := alarms[at];
        TakeFirst(kept, rest);
        if alarm.id == id {
          alarms := alarms[..at] + alarms[at + 1..];
          didRemove := true;
        } else {
          if alarm.whenElapsed > newStart {
            newStart := alarm.whenElapsed;
          }
          if alarm.maxWhenElapsed < newEnd {
            newEnd := alarm.maxWhenElapsed;
          }
          newFlags := newFlags + alarm.flags;
          kept := kept + [alarm];
          at := at + 1;
        }
        rest := rest[1..];
      }
      assert rest == [] && alarms == kept;
      RemovedIsScan(old(State()), id);
      if didRemove {
        start, end, flags := newStart, newEnd, newFlags;
      }
    }

    predicate Wakes()
      reads this
      ensures Wakes() <==> HasWakeups(State().alarms)
    {
      exists i :: 0 <= i < |alarms| && WakeupBit(alarms[i])
    }
  }
}
