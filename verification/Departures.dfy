/** Where the program as written departs from what its own structure intends, and where both
    programs surprise: for each a run from start-up that shows it. The exact conditions under which
    the slips do no harm are InsertFitsAsWrittenIff, RemoveSortedAsWrittenIff,
    RemoveArmedAsWrittenIff and RemoveProxyClearsIff; those of the surprises are CatchUpExact and
    ElapsedKeepsPlaceIff. */
module Departures {
  import opened Units
  import opened TimerInfos
  import opened Batches
  import opened BatchLists
  import opened Rebatching
  import opened Draining
  import opened Proxying
  import opened Protocol
  import opened Runs

  // ---------------------------------------------------------------- runs that queue alarms

  /** A timer to create and to start once. */
  datatype Request = Request(entry: TimerEntry, triggerTime: uint64, reading: StartReading)

  function Steps(qs: seq<Request>): seq<Step> {
    if qs == [] then []
    else
      var n := |qs| - 1;
      Steps(qs[..n]) + [CreateTimer(qs[n].entry)] + [StartTimer(qs[n].entry.id, qs[n].triggerTime, qs[n].reading)]
  }

  function Registered(qs: seq<Request>): map<uint64, TimerEntry> {
    if qs == [] then map[] else Registered(qs[..|qs| - 1])[qs[|qs| - 1].entry.id := qs[|qs| - 1].entry]
  }

  function Inserted(code: Code, qs: seq<Request>): Schedule {
    if qs == [] then Schedule([], Armed(None, None)) else AfterRequest(code, Inserted(code, qs[..|qs| - 1]), qs[|qs| - 1])
  }

  function AfterRequest(code: Code, c: Schedule, q: Request): Schedule {
    match PrepareAlarm(q.entry, q.triggerTime, q.reading)
    case None => c
    case Some(a) => SetAlarm(code, c, a)
  }

  function Ready(entries: map<uint64, TimerEntry>, c: Schedule, p: Proxy): State {
    State(Manager(entries, c, p, None), Idle, Waiting, [], [])
  }

  function NoProxy(): Proxy {
    Proxy({}, map[], [])
  }

  predicate NewIds(qs: seq<Request>) {
    && (forall i :: 0 <= i < |qs| ==> qs[i].entry.id != 0)
    && (forall i, j :: 0 <= i < j < |qs| ==> qs[i].entry.id != qs[j].entry.id)
  }

  lemma {:induction false} RegisteredIds(qs: seq<Request>, id: uint64)
    ensures id in Registered(qs) <==> exists i :: 0 <= i < |qs| && qs[i].entry.id == id
    decreases |qs|
  {
    if qs != [] {
      var n := |qs| - 1;
      RegisteredIds(qs[..n], id);
      if id in Registered(qs[..n]) {
        var i :| 0 <= i < n && qs[..n][i].entry.id == id;
        assert qs[i].entry.id == id;
      }
      if i :| 0 <= i < n && qs[i].entry.id == id {
        assert qs[..n][i].entry.id == id;
      }
    }
  }

  lemma {:induction false} RegisteredEntry(qs: seq<Request>, i: nat)
    requires NewIds(qs) && i < |qs|
    ensures qs[i].entry.id in Registered(qs) && Registered(qs)[qs[i].entry.id] == qs[i].entry
    decreases |qs|
  {
    var n := |qs| - 1;
    if i < n {
      RegisteredEntry(qs[..n], i);
    }
  }

  lemma RequestSteps(code: Code, s: State, entries: map<uint64, TimerEntry>, c: Schedule, q: Request)
    requires Inv(code, s) && s == Ready(entries, c, NoProxy()) && q.entry.id != 0 && q.entry.id !in entries
    ensures var t := Next(code, s, CreateTimer(q.entry));
            && Inv(code, t)
            && Next(code, t, StartTimer(q.entry.id, q.triggerTime, q.reading)) ==
               Ready(entries[q.entry.id := q.entry], AfterRequest(code, c, q), NoProxy())
  {
    StepInv(code, s, CreateTimer(q.entry));
  }

  /** Creating and starting timers one after the other is a run. */
  lemma {:induction false} QueuedRun(code: Code, qs: seq<Request>)
    requires NewIds(qs)
    ensures Reached(code, Steps(qs)) == Ready(Registered(qs), Inserted(code, qs), NoProxy())
    decreases |qs|
  {
    InitInv(code);
    if qs != [] {
      var n := |qs| - 1;
      var e, start := qs[n].entry, StartTimer(qs[n].entry.id, qs[n].triggerTime, qs[n].reading);
      QueuedRun(code, qs[..n]);
      RegisteredIds(qs[..n], e.id);
      RequestSteps(code, Reached(code, Steps(qs[..n])), Registered(qs[..n]), Inserted(code, qs[..n]), qs[n]);
      RunLast(code, Init(), Steps(qs[..n]), CreateTimer(e));
      RunLast(code, Init(), Steps(qs[..n]) + [CreateTimer(e)], start);
    }
  }

  lemma InsertedNext(code: Code, qs: seq<Request>, q: Request, a: TimerInfo, c: Schedule, d: Schedule)
    requires PrepareAlarm(q.entry, q.triggerTime, q.reading) == Some(a)
    requires Inserted(code, qs) == c && SetAlarm(code, c, a) == d
    ensures Inserted(code, qs + [q]) == d
  {
    assert (qs + [q])[..|qs|] == qs;
  }

  // ---------------------------------------------------------------- one-shots started at boot time zero

  /** A one-shot of uid 7 that a system client starts at boot time zero for `when` milliseconds, with
      a window of `window` milliseconds. */
  function OneShot(id: uint64, when: uint64, window: uint64): Request {
    Request(TimerEntry(id, ELAPSED_REALTIME, window, 0, {}, true, 7), when, StartReading(0, Clock(0, 0), true, true))
  }

  function Alarm(id: uint64, when: int, window: int): TimerInfo {
    NewTimerInfo(id, ELAPSED_REALTIME, when, when * NS_PER_MS, window, (when + window) * NS_PER_MS, 0, true, {}, 7)
  }

  lemma OneShotPrepares(id: uint64, when: uint64, window: uint64)
    requires when <= INTERVAL_HALF_DAY && window <= INTERVAL_HALF_DAY
    ensures var q := OneShot(id, when, window);
            PrepareAlarm(q.entry, q.triggerTime, q.reading) == Some(Alarm(id, when, window))
  {}

  /** No batch has a wake-up alarm, so only the front is armed for. */
  predicate NoWakeups(bs: seq<BatchState>) {
    forall i :: 0 <= i < |bs| ==> !HasWakeups(bs[i].alarms)
  }

  lemma ArmedAtFront(c: Schedule)
    requires c.batches != [] && NoWakeups(c.batches) && Armable(c.batches)
    ensures Reschedule(c) == Schedule(c.batches, Armed(c.armed.wakeup, Some(c.batches[0].start)))
  {}

  // Lists of one, two and three elements as insertions build them.

  lemma One<T>(x: T)
    ensures [] + [x] == [x] == [x] + [] && [][..0] + [x] + [][0..] == [x]
  {}

  lemma Two<T>(x: T, y: T)
    ensures [y][..0] + [x] + [y][0..] == [x, y] == [x][..1] + [y] + [x][1..]
    ensures [x] + [y] == [x, y] == [x] + ([y] + [])
  {}

  lemma Three<T>(x: T, y: T, z: T)
    ensures [x, y][..2] + [z] + [x, y][2..] == [x, y, z]
  {}

  lemma SetAlone(code: Code, c: Schedule, a: TimerInfo, p: nat)
    requires Sorted(c.batches) && NoWakeups(c.batches) && !WakeupBit(a) && p <= |c.batches|
    requires forall i :: 0 <= i < |c.batches| ==> !Accepts(c.batches[i], a.whenElapsed, a.maxWhenElapsed)
    requires forall i :: 0 <= i < p ==> c.batches[i].start <= a.whenElapsed
    requires forall i :: p <= i < |c.batches| ==> a.whenElapsed < c.batches[i].start
    requires TIME_POINT_MIN != if p == 0 then a.whenElapsed else c.batches[0].start
    ensures SetAlarm(code, c, a) ==
            Schedule(c.batches[..p] + [Seed(a)] + c.batches[p..],
                     Armed(c.armed.wakeup, Some(if p == 0 then a.whenElapsed else c.batches[0].start)))
  {
    var bs := c.batches[..p] + [Seed(a)] + c.batches[p..];
    PlacedAt(c.batches, Seed(a), p);
    assert WhichBatch(code, c.batches, a) == -1;
    InsertedNoWakeups(c.batches, Seed(a), p);
    ArmedAtFront(c.(batches := bs));
  }

  /** As written: the alarm joins the front batch, whose start rises to that of `d`. */
  lemma InsertInFront(front: BatchState, rest: seq<BatchState>, a: TimerInfo, d: BatchState, p: nat)
    requires WhichBatch(AsWritten, [front] + rest, a) == 0
    requires d == Added(front, a) && front.start != d.start
    requires p <= |rest| && AddBatch(rest, d) == rest[..p] + [d] + rest[p..]
    ensures Insert(AsWritten, [front] + rest, a) == rest[..p] + [d] + rest[p..]
  {
    var bs := [front] + rest;
    assert bs[..0] + bs[1..] == rest && bs[0] == front;
  }

  /** As written it does so whichever batch accepts it. */
  lemma JoinsFirst(bs: seq<BatchState>, a: TimerInfo, k: nat)
    requires k < |bs| && !IsStandalone(a.flags) && Accepts(bs[k], a.whenElapsed, a.maxWhenElapsed)
    ensures WhichBatch(AsWritten, bs, a) == 0
  {}

  lemma SetInFront(c: Schedule, a: TimerInfo, front: BatchState, d: BatchState, rest: seq<BatchState>, p: nat)
    requires c.batches == [front] + rest && WhichBatch(AsWritten, [front] + rest, a) == 0
    requires d == Added(front, a) && front.start < d.start
    requires Sorted(rest) && p <= |rest|
    requires forall i :: 0 <= i < p ==> rest[i].start <= d.start
    requires forall i :: p <= i < |rest| ==> d.start < rest[i].start
    requires NoWakeups(rest) && !HasWakeups(front.alarms) && !WakeupBit(a)
    requires TIME_POINT_MIN != if p == 0 then d.start else rest[0].start
    ensures SetAlarm(AsWritten, c, a) ==
            Schedule(rest[..p] + [d] + rest[p..], Armed(c.armed.wakeup, Some(if p == 0 then d.start else rest[0].start)))
  {
    PlacedAt(rest, d, p);
    InsertInFront(front, rest, a, d, p);
    StillNoWakeups(front, a);
    InsertedNoWakeups(rest, d, p);
    ArmedAtFront(c.(batches := rest[..p] + [d] + rest[p..]));
  }

  lemma InsertedNoWakeups(bs: seq<BatchState>, d: BatchState, p: nat)
    requires NoWakeups(bs) && !HasWakeups(d.alarms) && p <= |bs|
    ensures NoWakeups(bs[..p] + [d] + bs[p..])
  {
    var r := bs[..p] + [d] + bs[p..];
    forall i | 0 <= i < |r| ensures !HasWakeups(r[i].alarms) {
      assert i != p ==> r[i] == bs[if i < p then i else i - 1];
    }
  }

  lemma StillNoWakeups(b: BatchState, a: TimerInfo)
    requires !HasWakeups(b.alarms) && !WakeupBit(a)
    ensures !HasWakeups(Added(b, a).alarms)
  {
    AddedTimers(b, a);
    forall x | x in Added(b, a).alarms ensures !WakeupBit(x) {
      assert x in multiset(Added(b, a).alarms);
    }
  }

  lemma AloneFirst(code: Code, q: Request, a: TimerInfo)
    requires PrepareAlarm(q.entry, q.triggerTime, q.reading) == Some(a) && !WakeupBit(a) && a.whenElapsed >= 0
    ensures Inserted(code, [q]) == Schedule([Seed(a)], Armed(None, Some(a.whenElapsed)))
  {
    SetAlone(code, Schedule([], Armed(None, None)), a, 0);
    One(q);
    One(Seed(a));
    InsertedNext(code, [], q, a, Schedule([], Armed(None, None)), Schedule([Seed(a)], Armed(None, Some(a.whenElapsed))));
  }

  /** Two alarms whose windows do not meet, in the order of their times. */
  lemma TwoApart(code: Code, q: Request, r: Request, a: TimerInfo, b: TimerInfo)
    requires PrepareAlarm(q.entry, q.triggerTime, q.reading) == Some(a)
    requires PrepareAlarm(r.entry, r.triggerTime, r.reading) == Some(b)
    requires !WakeupBit(a) && !WakeupBit(b) && 0 <= a.whenElapsed <= b.whenElapsed && a.maxWhenElapsed <= b.whenElapsed
    ensures Inserted(code, [q] + [r]) == Schedule([Seed(a), Seed(b)], Armed(None, Some(a.whenElapsed)))
  {
    var c := Schedule([Seed(a)], Armed(None, Some(a.whenElapsed)));
    AloneFirst(code, q, a);
    SetAlone(code, c, b, 1);
    Two(Seed(a), Seed(b));
    InsertedNext(code, [q], r, b, c, Schedule([Seed(a), Seed(b)], c.armed));
  }

  // ---------------------------------------------------------------- the index that never moves

  function Coalescing(): seq<Request> {
    [OneShot(1, 10, 10)] + [OneShot(2, 100, 100)] + [OneShot(3, 150, 10)]
  }

  /** Two batches, [10, 20] and [100, 200] in milliseconds; the alarm for [150, 160] is accepted by
      the second and put into the first. */
  lemma CoalescingQueue(a: TimerInfo, b: TimerInfo, c: TimerInfo)
    requires a == Alarm(1, 10, 10) && b == Alarm(2, 100, 100) && c == Alarm(3, 150, 10)
    ensures Inserted(AsWritten, Coalescing()) == Schedule([Seed(b), Added(Seed(a), c)], Armed(None, Some(100 * NS_PER_MS)))
  {
    var pair := Schedule([Seed(a), Seed(b)], Armed(None, Some(10 * NS_PER_MS)));
    OneShotPrepares(3, 150, 10);
    CoalescingPair(a, b);
    JoinsFront(a, b, c);
    InsertedNext(AsWritten, [OneShot(1, 10, 10)] + [OneShot(2, 100, 100)], OneShot(3, 150, 10), c, pair,
                 Schedule([Seed(b), Added(Seed(a), c)], Armed(None, Some(100 * NS_PER_MS))));
  }

  lemma CoalescingPair(a: TimerInfo, b: TimerInfo)
    requires a == Alarm(1, 10, 10) && b == Alarm(2, 100, 100)
    ensures Inserted(AsWritten, [OneShot(1, 10, 10)] + [OneShot(2, 100, 100)]) ==
            Schedule([Seed(a), Seed(b)], Armed(None, Some(10 * NS_PER_MS)))
  {
    OneShotPrepares(1, 10, 10);
    OneShotPrepares(2, 100, 100);
    TwoApart(AsWritten, OneShot(1, 10, 10), OneShot(2, 100, 100), a, b);
  }

  lemma JoinsFront(a: TimerInfo, b: TimerInfo, c: TimerInfo)
    requires a == Alarm(1, 10, 10) && b == Alarm(2, 100, 100) && c == Alarm(3, 150, 10)
    ensures SetAlarm(AsWritten, Schedule([Seed(a), Seed(b)], Armed(None, Some(10 * NS_PER_MS))), c) ==
            Schedule([Seed(b), Added(Seed(a), c)], Armed(None, Some(100 * NS_PER_MS)))
  {
    var bs, d := [Seed(a), Seed(b)], Added(Seed(a), c);
    assert !Accepts(bs[0], c.whenElapsed, c.maxWhenElapsed) && Accepts(bs[1], c.whenElapsed, c.maxWhenElapsed);
    JoinsFirst(bs, c, 1);
    Two(Seed(a), Seed(b));
    SetInFront(Schedule(bs, Armed(None, Some(10 * NS_PER_MS))), c, Seed(a), d, [Seed(b)], 1);
    Two(Seed(b), d);
  }

  /** From start-up, as written: three timers are started, and at 20 ms, when the window of the first
      one closes, a round triggers nothing and leaves it queued, with no deadline before 100 ms. */
  lemma CoalescingCanMakeLate()
    ensures var a, now := Alarm(1, 10, 10), 20 * NS_PER_MS;
            var started := Steps(Coalescing());
            var s, t := Reached(AsWritten, started), Reached(AsWritten, started + [Trigger(now, [])]);
            && a.maxWhenElapsed == now
            && s.manager.schedule.armed == Armed(None, Some(100 * NS_PER_MS))
            && t.looper == Delivering([]) && a in Queue(t.manager.schedule.batches)
  {
    var a, b, c, now := Alarm(1, 10, 10), Alarm(2, 100, 100), Alarm(3, 150, 10), 20 * NS_PER_MS;
    InitInv(AsWritten);
    QueuedRun(AsWritten, Coalescing());
    CoalescingQueue(a, b, c);
    NothingDue(Reached(AsWritten, Steps(Coalescing())), now);
    RunLast(AsWritten, Init(), Steps(Coalescing()), Trigger(now, []));
    InSecond(Seed(b), Seed(a), c, a);
  }

  /** A round that finds nothing due triggers nothing. */
  lemma NothingDue(s: State, now: int)
    requires Inv(AsWritten, s) && s.looper.Waiting?
    requires var bs := s.manager.schedule.batches; bs != [] && now < bs[0].start
    ensures var t := Next(AsWritten, s, Trigger(now, []));
            t.manager.schedule == s.manager.schedule && t.looper == Delivering([])
  {
    assert TriggerOrder([], [], now);
  }

  lemma InSecond(x: BatchState, y: BatchState, c: TimerInfo, a: TimerInfo)
    requires a in y.alarms
    ensures a in Queue([x, Added(y, c)])
  {
    var bs := [x, Added(y, c)];
    AddedTimers(y, c);
    assert a in multiset(bs[1].alarms) && bs[1] in bs;
    QueueMembers(bs, a);
  }

  // ---------------------------------------------------------------- the flag overwritten in the loop

  /** Batches starting at 10, 30 and 55 milliseconds; the second has its start from timer 3. */
  function Uneven(): seq<Request> {
    [OneShot(2, 5, 45)] + [OneShot(3, 30, 30)] + [OneShot(1, 10, 10)] + [OneShot(4, 55, 35)]
  }

  function Pair(): BatchState {
    BatchState(30 * NS_PER_MS, 50 * NS_PER_MS, {}, [Alarm(2, 5, 45), Alarm(3, 30, 30)])
  }

  function UnevenBatches(): seq<BatchState> {
    [Seed(Alarm(1, 10, 10)), Pair(), Seed(Alarm(4, 55, 35))]
  }

  lemma UnevenQueue(a: TimerInfo, b: TimerInfo, c: TimerInfo, d: TimerInfo)
    requires a == Alarm(1, 10, 10) && b == Alarm(2, 5, 45) && c == Alarm(3, 30, 30) && d == Alarm(4, 55, 35)
    ensures Inserted(AsWritten, Uneven()) == Schedule(UnevenBatches(), Armed(None, Some(10 * NS_PER_MS)))
  {
    var x, ten := [OneShot(2, 5, 45)] + [OneShot(3, 30, 30)], Armed(None, Some(10 * NS_PER_MS));
    UnevenPair(b, c);
    OneShotPrepares(1, 10, 10);
    OneShotPrepares(4, 55, 35);
    BesidePair(a, d, Pair());
    InsertedNext(AsWritten, x, OneShot(1, 10, 10), a, Schedule([Pair()], Armed(None, Some(30 * NS_PER_MS))),
                 Schedule([Seed(a), Pair()], ten));
    InsertedNext(AsWritten, x + [OneShot(1, 10, 10)], OneShot(4, 55, 35), d, Schedule([Seed(a), Pair()], ten),
                 Schedule([Seed(a), Pair(), Seed(d)], ten));
  }

  lemma BesidePair(a: TimerInfo, d: TimerInfo, pair: BatchState)
    requires a == Alarm(1, 10, 10) && d == Alarm(4, 55, 35) && pair == Pair()
    ensures var ten := Armed(None, Some(10 * NS_PER_MS));
            && SetAlarm(AsWritten, Schedule([pair], Armed(None, Some(30 * NS_PER_MS))), a) == Schedule([Seed(a), pair], ten)
            && SetAlarm(AsWritten, Schedule([Seed(a), pair], ten), d) == Schedule([Seed(a), pair, Seed(d)], ten)
  {
    SetAlone(AsWritten, Schedule([pair], Armed(None, Some(30 * NS_PER_MS))), a, 0);
    SetAlone(AsWritten, Schedule([Seed(a), pair], Armed(None, Some(10 * NS_PER_MS))), d, 2);
    Two(Seed(a), pair);
    Three(Seed(a), pair, Seed(d));
  }

  lemma UnevenPair(b: TimerInfo, c: TimerInfo)
    requires b == Alarm(2, 5, 45) && c == Alarm(3, 30, 30)
    ensures Inserted(AsWritten, [OneShot(2, 5, 45)] + [OneShot(3, 30, 30)]) ==
            Schedule([Pair()], Armed(None, Some(30 * NS_PER_MS)))
  {
    OneShotPrepares(2, 5, 45);
    OneShotPrepares(3, 30, 30);
    AloneFirst(AsWritten, OneShot(2, 5, 45), b);
    JoinsOnly(b, c);
    InsertedNext(AsWritten, [OneShot(2, 5, 45)], OneShot(3, 30, 30), c,
                 Schedule([Seed(b)], Armed(None, Some(b.whenElapsed))),
                 Schedule([Pair()], Armed(None, Some(30 * NS_PER_MS))));
  }

  lemma JoinsOnly(b: TimerInfo, c: TimerInfo)
    requires b == Alarm(2, 5, 45) && c == Alarm(3, 30, 30)
    ensures SetAlarm(AsWritten, Schedule([Seed(b)], Armed(None, Some(b.whenElapsed))), c) ==
            Schedule([Pair()], Armed(None, Some(30 * NS_PER_MS)))
  {
    PairIs(b, c);
    JoinsSingle(b, c, Pair(), Armed(None, Some(b.whenElapsed)));
  }

  lemma JoinsSingle(b: TimerInfo, c: TimerInfo, pair: BatchState, armed: Armed)
    requires !IsStandalone(c.flags) && Accepts(Seed(b), c.whenElapsed, c.maxWhenElapsed) && !WakeupBit(b) && !WakeupBit(c)
    requires pair == Added(Seed(b), c) && TIME_POINT_MIN < b.whenElapsed < pair.start
    ensures SetAlarm(AsWritten, Schedule([Seed(b)], armed), c) == Schedule([pair], Armed(armed.wakeup, Some(pair.start)))
  {
    One(Seed(b));
    One(pair);
    JoinsFirst([Seed(b)], c, 0);
    SetInFront(Schedule([Seed(b)], armed), c, Seed(b), pair, [], 0);
  }

  lemma PairIs(b: TimerInfo, c: TimerInfo)
    requires b == Alarm(2, 5, 45) && c == Alarm(3, 30, 30)
    ensures Added(Seed(b), c) == Pair()
  {
    SlotKeepsOrder([b], c);
  }

  lemma UnevenWithoutThree()
    ensures var bs := UnevenBatches();
            && !HasId(bs[2].alarms, 3) && Survives(bs[0], 3) && Survives(bs[1], 3)
            && Removed(bs[0], 3) == bs[0] && Removed(bs[1], 3).start == 5 * NS_PER_MS < bs[0].start
  {
    RemovedAlarms(Seed(Alarm(1, 10, 10)), 3);
    RemovedSecond(Pair(), Alarm(2, 5, 45), Alarm(3, 30, 30));
  }

  lemma RemovedSecond(pair: BatchState, b: TimerInfo, c: TimerInfo)
    requires pair.alarms == [b, c] && b.id != c.id && TIME_POINT_MIN <= b.whenElapsed
    ensures Removed(pair, c.id).alarms == [b] && Removed(pair, c.id).start == b.whenElapsed
  {
    RemovedAlarms(pair, c.id);
    assert [b, c][..1] == [b] && [b][..0] == [];
    assert Without([b], c.id) == [b];
    SingletonFolds(b);
  }

  lemma UnevenInOrder()
    ensures var bs := UnevenBatches();
            Sorted(bs) && AllFit(bs) && Armable(bs) && Fresh(Schedule(bs, Armed(None, Some(10 * NS_PER_MS))))
  {
    var bs := UnevenBatches();
    assert NoWakeups(bs);
    ArmedAtFront(Schedule(bs, Armed(None, Some(10 * NS_PER_MS))));
  }

  lemma UnevenRemoved(c: Schedule, bs: seq<BatchState>, clocks: Readings)
    requires bs == UnevenBatches() && c == Schedule(bs, Armed(None, Some(10 * NS_PER_MS)))
    requires AllHold(c.batches) && AllWellShaped(Queue(c.batches))
    ensures var r := RemoveTimer(AsWritten, c, 3, 0, clocks);
            Fresh(c) && ArmedForAll(c) && !Sorted(r.batches) && r.armed == c.armed && !Covers(c, r.batches)
  {
    UnevenInOrder();
    FreshArms(c);
    UnevenWithoutThree();
    BadMiddle(c, 3, clocks);
  }

  /** Any list whose second batch is left with an earlier start than the first. */
  lemma BadMiddle(c: Schedule, id: uint64, clocks: Readings)
    requires Sorted(c.batches) && AllHold(c.batches) && Armable(c.batches) && Fresh(c) && AllWellShaped(Queue(c.batches))
    requires var bs := c.batches;
             && |bs| > 1 && !HasId(bs[|bs| - 1].alarms, id) && Survives(bs[0], id) && Survives(bs[1], id)
             && Removed(bs[0], id) == bs[0] && Removed(bs[1], id).start < bs[0].start
    ensures var r := RemoveTimer(AsWritten, c, id, 0, clocks);
            !Sorted(r.batches) && r.armed == c.armed && !Covers(c, r.batches)
  {
    var bs := c.batches;
    RemoveSortedAsWrittenIff(c, id, 0, clocks);
    RemoveArmedAsWrittenIff(c, id, 0, clocks);
    assert !(Removed(bs[0], id).start <= Removed(bs[1], id).start);
    assert bs[1] in bs && !NotBefore(bs, Removed(bs[1], id));
  }

  /** From start-up, as written: four timers are started and one is removed. The last batch decides
      that nothing was removed, so the list stays as it is, out of order, and the armed deadline
      comes after the start the second batch is left with. */
  lemma RemovalCanUnsort(clocks: Readings)
    ensures var remove := RemoveHandler(3, false, 0, clocks);
            var s, t := Reached(AsWritten, Steps(Uneven())), Reached(AsWritten, Steps(Uneven()) + [remove]);
            var c, r := s.manager.schedule, t.manager.schedule;
            && Sorted(c.batches) && AllFit(c.batches) && Fresh(c) && ArmedForAll(c)
            && t.client == Stopping(3, 7, false)
            && !Sorted(r.batches) && r.armed == c.armed && !Covers(c, r.batches)
  {
    UnevenQueue(Alarm(1, 10, 10), Alarm(2, 5, 45), Alarm(3, 30, 30), Alarm(4, 55, 35));
    UnevenEntries();
    RemovalRun(Uneven(), clocks);
  }

  lemma UnevenEntries()
    ensures NewIds(Uneven()) && Uneven()[1].entry.id == 3 && Uneven()[1].entry.uid == 7
  {}

  lemma RemovalRun(qs: seq<Request>, clocks: Readings)
    requires NewIds(qs) && |qs| > 1 && qs[1].entry.id == 3 && qs[1].entry.uid == 7
    requires Inserted(AsWritten, qs) == Schedule(UnevenBatches(), Armed(None, Some(10 * NS_PER_MS)))
    ensures var s, t := Reached(AsWritten, Steps(qs)), Reached(AsWritten, Steps(qs) + [RemoveHandler(3, false, 0, clocks)]);
            var c, r := s.manager.schedule, t.manager.schedule;
            && Sorted(c.batches) && AllFit(c.batches) && Fresh(c) && ArmedForAll(c)
            && t.client == Stopping(3, 7, false)
            && !Sorted(r.batches) && r.armed == c.armed && !Covers(c, r.batches)
  {
    var c := Inserted(AsWritten, qs);
    InitInv(AsWritten);
    QueuedRun(AsWritten, qs);
    RegisteredEntry(qs, 1);
    RemovalStep(Reached(AsWritten, Steps(qs)), Registered(qs), c, clocks);
    UnevenInOrder();
    UnevenRemoved(c, UnevenBatches(), clocks);
    RunLast(AsWritten, Init(), Steps(qs), RemoveHandler(3, false, 0, clocks));
  }

  lemma RemovalStep(s: State, entries: map<uint64, TimerEntry>, c: Schedule, clocks: Readings)
    requires Inv(AsWritten, s) && s == Ready(entries, c, NoProxy()) && 3 in entries && entries[3].uid == 7
    ensures AllHold(c.batches) && AllWellShaped(Queue(c.batches))
    ensures var t := Next(AsWritten, s, RemoveHandler(3, false, 0, clocks));
            t.manager.schedule == RemoveTimer(AsWritten, c, 3, 0, clocks) && t.client == Stopping(3, 7, false)
  {}

  // ---------------------------------------------------------------- the erasure from a copy

  /** As written a destroyed timer is called back: from every state in which its destruction is half
      done while its uid's buffer holds one of its alarms and one of another timer. */
  lemma DestroyedTimerFiresAsWritten(s: State, a: TimerInfo, b: TimerInfo)
    requires Inv(AsWritten, s) && s.client.Stopping? && s.client.needDestroy
    requires a in Pending(s.manager.proxy, s.client.uid) && a.id == s.client.id
    requires b in Pending(s.manager.proxy, s.client.uid) && b.id != s.client.id
    ensures var t := Next(AsWritten, s, FinishStop); var u := Next(AsWritten, t, ProxyUid(s.client.uid, false, true));
            && Inv(AsWritten, t) && s.client.id !in t.manager.entries
            && a in Invoked(u)[|Invoked(t)|..]
  {
    var t := Next(AsWritten, s, FinishStop);
    var uid := s.client.uid;
    StepInv(AsWritten, s, FinishStop);
    WithoutMembers(s.manager.proxy.pending[uid], s.client.id);
    assert t.manager.proxy == s.manager.proxy;
    CallsOfBuffer(Pending(t.manager.proxy, uid), uid, uid);
  }

  function Buffering(): seq<Request> {
    [OneShot(1, 10, 0)] + [OneShot(2, 10, 0)]
  }

  function Due(id: uint64): TimerInfo {
    Alarm(id, 10, 0)
  }

  function FiredDue(id: uint64): TimerInfo {
    Due(id).(count := 1)
  }

  /** Two alarms for the same instant without windows stay in two batches. */
  lemma BufferingQueue(a: TimerInfo, b: TimerInfo)
    requires a == Due(1) && b == Due(2)
    ensures Inserted(AsWritten, Buffering()) == Schedule([Seed(a), Seed(b)], Armed(None, Some(a.whenElapsed)))
    ensures NewIds(Buffering()) && Buffering()[0].entry.id == 1 && Buffering()[0].entry.uid == 7
  {
    OneShotPrepares(1, 10, 0);
    OneShotPrepares(2, 10, 0);
    TwoApart(AsWritten, OneShot(1, 10, 0), OneShot(2, 10, 0), a, b);
  }

  lemma DrainOneShot(code: Code, c: Schedule, a: TimerInfo, rest: seq<BatchState>, now: int)
    requires c.batches == [Seed(a)] + rest && AllHold(c.batches) && a.repeatInterval == 0 && a.whenElapsed <= now
    ensures var d := c.(batches := rest);
            && AllHold(d.batches)
            && Drain(code, c, now) == Drained(Drain(code, d, now).schedule, [a] + Drain(code, d, now).alarms)
  {
    assert [a][1..] == [] && c.batches[1..] == rest;
    assert TriggerAll(code, c.(batches := rest), [a], now) == c.(batches := rest);
  }

  lemma DrainTwo(code: Code, c: Schedule, a: TimerInfo, b: TimerInfo, now: int)
    requires c.batches == [Seed(a), Seed(b)] && AllHold(c.batches)
    requires a.repeatInterval == b.repeatInterval == 0 && a.whenElapsed <= b.whenElapsed <= now
    ensures Drain(code, c, now) == Drained(c.(batches := []), [a, b])
    ensures TriggerOrder([Fired(a, now), Fired(b, now)], Drain(code, c, now).alarms, now)
  {
    Two(Seed(a), Seed(b));
    One(Seed(b));
    Two(a, b);
    DrainOneShot(code, c, a, [Seed(b)], now);
    DrainOneShot(code, c.(batches := [Seed(b)]), b, [], now);
    assert FireAll([a, b], now) == [Fired(a, now), Fired(b, now)];
  }

  lemma DeliverTwo(p: Proxy, x: TimerInfo, y: TimerInfo)
    requires x.hasCallback && y.hasCallback && x.uid == y.uid
    ensures x.uid in p.uids && x.uid !in p.pending ==> DeliverAll(p, [x, y]) == p.(pending := p.pending[x.uid := [x, y]])
    ensures x.uid !in p.uids ==> DeliverAll(p, [x, y]) == p.(invoked := p.invoked + [x, y])
  {
    var q := Deliver(p, x);
    assert [x, y][1..] == [y] && [y][1..] == [];
    assert DeliverAll(p, [x, y]) == DeliverAll(q, [y]) == Deliver(q, y);
    assert [] + [x] == [x] && [x] + [y] == [x, y];
    if x.uid in p.uids && x.uid !in p.pending {
      assert q.pending[x.uid := [x, y]] == p.pending[x.uid := [x, y]];
    }
    assert p.invoked + [x] + [y] == p.invoked + [x, y];
  }

  /** A proxied uid with two buffered alarms: stopping the timer of the first leaves it in the buffer;
      the repaired program takes it out. */
  lemma BufferedAlarmSurvivesStop(x: TimerInfo, y: TimerInfo)
    requires x.uid == y.uid && x.hasCallback && y.hasCallback && x.id != y.id
    ensures var p := Proxy({x.uid}, map[x.uid := [x, y]], []);
            && Buffers(p)
            && RemoveProxy(AsWritten, p, x.id, x.uid) == p
            && Pending(RemoveProxy(Repaired, p, x.id, x.uid), x.uid) == [y]
  {
    assert [x, y][..1] == [x] && [x][..0] == [];
    assert Without([x], x.id) == [];
    assert Without([x, y], x.id) == [y];
  }

  /** Destroying a timer does not take its alarm out of the buffer, and lifting the proxy makes the
      callback. */
  lemma DestroyedIsCalled(m: Manager, x: TimerInfo, y: TimerInfo, clocks: Readings)
    requires x.id in m.entries && m.entries[x.id].uid == x.uid == y.uid && y.id != x.id && x.hasCallback && y.hasCallback
    requires m.proxy == Proxy({x.uid}, map[x.uid := [x, y]], [])
    ensures var n := Stopped(AsWritten, m, x.id, true, 0, clocks);
            && x.id !in n.entries && n.proxy == m.proxy
            && ProxyTimer(n.proxy, x.uid, false, true).0.invoked == [x, y]
  {
    BufferedAlarmSurvivesStop(x, y);
    CallsOfBuffer([x, y], x.uid, x.uid);
    assert [] + [x, y] == [x, y];
  }

  function RoundSteps(now: int, order: seq<TimerInfo>): seq<Step> {
    ([Trigger(now, order)] + DeliverSteps(|order|)) + [Release]
  }

  function StopSteps(id: uint64, clocks: Readings): seq<Step> {
    [RemoveHandler(id, true, 0, clocks)] + [FinishStop]
  }

  /** Two due alarms of a proxied uid are queued, and a round buffers them. */
  predicate TwoQueued(s: State, a: TimerInfo, b: TimerInfo, now: int) {
    && s.looper.Waiting? && s.client.Idle? && s.manager.schedule.batches == [Seed(a), Seed(b)]
    && s.manager.proxy == Proxy({a.uid}, map[], [])
    && a.id in s.manager.entries && s.manager.entries[a.id].uid == a.uid
    && a.repeatInterval == b.repeatInterval == 0 && a.whenElapsed <= b.whenElapsed <= now
    && a.hasCallback && b.hasCallback && a.uid == b.uid && a.id != b.id
  }

  lemma RoundBuffers(steps: seq<Step>, a: TimerInfo, b: TimerInfo, now: int)
    requires TwoQueued(Reached(AsWritten, steps), a, b, now)
    ensures var order := [Fired(a, now), Fired(b, now)];
            var s, t := Reached(AsWritten, steps), Reached(AsWritten, steps + RoundSteps(now, order));
            && t.manager.entries == s.manager.entries && t.looper.Waiting? && t.client.Idle?
            && t.manager.proxy == Proxy({a.uid}, map[a.uid := order], [])
  {
    var s, order := Reached(AsWritten, steps), [Fired(a, now), Fired(b, now)];
    InitInv(AsWritten);
    DrainTwo(AsWritten, s.manager.schedule, a, b, now);
    DeliverTwo(s.manager.proxy, Fired(a, now), Fired(b, now));
    RoundIsRun(AsWritten, s, now, order);
    RunConcat(AsWritten, Init(), steps, RoundSteps(now, order));
  }

  /** ... then the first timer is destroyed and the proxy lifted. */
  lemma StopThenLift(steps: seq<Step>, x: TimerInfo, y: TimerInfo, clocks: Readings)
    requires var s := Reached(AsWritten, steps);
             && s.looper.Waiting? && s.client.Idle? && x.id in s.manager.entries && s.manager.entries[x.id].uid == x.uid
             && s.manager.proxy == Proxy({x.uid}, map[x.uid := [x, y]], [])
    requires y.uid == x.uid && y.id != x.id && x.hasCallback && y.hasCallback
    ensures var before := steps + StopSteps(x.id, clocks);
            var t, u := Reached(AsWritten, before), Reached(AsWritten, before + [ProxyUid(x.uid, false, true)]);
            x.id !in t.manager.entries && Invoked(t) == [] && Invoked(u) == [x, y]
  {
    var s := Reached(AsWritten, steps);
    InitInv(AsWritten);
    DestroyedIsCalled(s.manager, x, y, clocks);
    StopIsRun(AsWritten, s, x.id, true, 0, clocks);
    RunConcat(AsWritten, Init(), steps, StopSteps(x.id, clocks));
    RunLast(AsWritten, Init(), steps + StopSteps(x.id, clocks), ProxyUid(x.uid, false, true));
  }

  /** From start-up, as written: two timers are created and started, their uid is proxied, a round
      buffers both alarms, and the first timer is destroyed; lifting the proxy then calls it back. */
  lemma ReachableDestroyedCall(clocks: Readings)
    ensures var order := [FiredDue(1), FiredDue(2)];
            var started := Steps(Buffering()) + [ProxyUid(7, true, false)];
            var before := started + RoundSteps(10 * NS_PER_MS, order) + StopSteps(1, clocks);
            var t, u := Reached(AsWritten, before), Reached(AsWritten, before + [ProxyUid(7, false, true)]);
            1 !in t.manager.entries && Invoked(t) == [] && Invoked(u) == order
  {
    BufferingQueue(Due(1), Due(2));
    DestroyedCallRun(Buffering(), Due(1), Due(2), clocks);
  }

  lemma {:induction false} DestroyedCallRun(qs: seq<Request>, a: TimerInfo, b: TimerInfo, clocks: Readings)
    requires a == Due(1) && b == Due(2) && NewIds(qs) && qs != [] && qs[0].entry.id == 1 && qs[0].entry.uid == 7
    requires Inserted(AsWritten, qs) == Schedule([Seed(a), Seed(b)], Armed(None, Some(a.whenElapsed)))
    ensures var order := [a.(count := 1), b.(count := 1)];
            var before := Steps(qs) + [ProxyUid(7, true, false)] + RoundSteps(10 * NS_PER_MS, order) + StopSteps(1, clocks);
            var t, u := Reached(AsWritten, before), Reached(AsWritten, before + [ProxyUid(7, false, true)]);
            1 !in t.manager.entries && Invoked(t) == [] && Invoked(u) == order
  {
    var steps, now := Steps(qs) + [ProxyUid(7, true, false)], 10 * NS_PER_MS;
    ProxiedRun(qs, a, b, now);
    RoundBuffers(steps, a, b, now);
    StopThenLift(steps + RoundSteps(now, [Fired(a, now), Fired(b, now)]), Fired(a, now), Fired(b, now), clocks);
  }

  lemma {:induction false} ProxiedRun(qs: seq<Request>, a: TimerInfo, b: TimerInfo, now: int)
    requires NewIds(qs) && qs != [] && qs[0].entry.id == a.id && qs[0].entry.uid == a.uid == b.uid == 7 && a.id != b.id
    requires a.repeatInterval == b.repeatInterval == 0 && a.whenElapsed <= b.whenElapsed <= now
    requires a.hasCallback && b.hasCallback
    requires Inserted(AsWritten, qs).batches == [Seed(a), Seed(b)]
    ensures TwoQueued(Reached(AsWritten, Steps(qs) + [ProxyUid(7, true, false)]), a, b, now)
  {
    InitInv(AsWritten);
    QueuedRun(AsWritten, qs);
    RegisteredEntry(qs, 0);
    RunLast(AsWritten, Init(), Steps(qs), ProxyUid(7, true, false));
    ProxyStep(Reached(AsWritten, Steps(qs)), Registered(qs), Inserted(AsWritten, qs), 7);
  }

  lemma ProxyStep(s: State, entries: map<uint64, TimerEntry>, c: Schedule, uid: int)
    requires Inv(AsWritten, s) && s == Ready(entries, c, NoProxy())
    ensures Next(AsWritten, s, ProxyUid(uid, true, false)) == Ready(entries, c, Proxy({uid}, map[], []))
  {
    assert {} + {uid} == {uid};
  }

  // ---------------------------------------------------------------- a clock change and one alarm

  /** The first clock change, with one alarm queued. */
  lemma ChangeOne(code: Code, s: State, entries: map<uint64, TimerEntry>, a: TimerInfo, armed: Armed, step: Step)
    requires Inv(code, s) && s == Ready(entries, Schedule([Seed(a)], armed), NoProxy()) && step.TimeChanged? && !WakeupBit(a)
    ensures var t, b := Next(code, s, step), Reconverted(a, step.clocks(0), step.rebatchAt);
            && t == s.(manager := t.manager) && t.manager.entries == entries && t.manager.proxy == NoProxy()
            && (b.None? ==> t.manager.schedule == Schedule([], armed))
            && (b.Some? && b.value.whenElapsed != TIME_POINT_MIN ==>
                  t.manager.schedule == Schedule([Seed(b.value)], Armed(armed.wakeup, Some(b.value.whenElapsed))))
  {
    var b := Reconverted(a, step.clocks(0), step.rebatchAt);
    QueueSingle(Seed(a));
    assert [a][1..] == [];
    assert ReAddAll(code, [], [a], 0, step.clocks, step.rebatchAt) == ReAdd(code, [], a, step.clocks(0), step.rebatchAt);
    if b.Some? && b.value.whenElapsed != TIME_POINT_MIN {
      SetAlone(code, Schedule([], armed), b.value, 0);
    }
  }

  /** A one-shot an ordinary client starts at boot time zero for 1 s: it is queued for 5 s. */
  function Clamped(): Request {
    Request(TimerEntry(1, ELAPSED_REALTIME, 0, 0, {}, true, 7), 1_000, StartReading(0, Clock(0, 0), false, false))
  }

  function ClampedAlarm(): TimerInfo {
    NewTimerInfo(1, ELAPSED_REALTIME, 1_000, 5_000 * NS_PER_MS, 0, 5_000 * NS_PER_MS, 0, true, {}, 7)
  }

  /** In either program the first clock change moves that alarm to 1 s or, if it comes later than
      that, drops it although the alarm is not due before 5 s. */
  lemma ClampedTimerMovesOrDrops(code: Code, nowWall: int, nowElapsed: nat, rebatchAt: int, clocks: Readings)
    ensures var change := TimeChanged(nowWall, nowElapsed, rebatchAt, clocks);
            var a, t := ClampedAlarm(), 1_000 * NS_PER_MS;
            && Queue(Reached(code, Steps([Clamped()])).manager.schedule.batches) == [a]
            && Queue(Reached(code, Steps([Clamped()]) + [change]).manager.schedule.batches) ==
               if rebatchAt <= t then [a.(whenElapsed := t, maxWhenElapsed := t)] else []
  {
    var q, a, t, change := Clamped(), ClampedAlarm(), 1_000 * NS_PER_MS, TimeChanged(nowWall, nowElapsed, rebatchAt, clocks);
    assert PrepareAlarm(q.entry, q.triggerTime, q.reading) == Some(a);
    ConversionFollowsWallClock(a.origWhen, a.kind, clocks(0), clocks(0));
    assert Reconverted(a, clocks(0), rebatchAt) ==
           if rebatchAt <= t then Some(a.(whenElapsed := t, maxWhenElapsed := t)) else None;
    ChangeRun(code, q, a, Reconverted(a, clocks(0), rebatchAt), change);
  }

  lemma ChangeRun(code: Code, q: Request, a: TimerInfo, b: Option<TimerInfo>, change: Step)
    requires PrepareAlarm(q.entry, q.triggerTime, q.reading) == Some(a) && q.entry.id != 0
    requires !WakeupBit(a) && a.whenElapsed >= 0
    requires change.TimeChanged? && Reconverted(a, change.clocks(0), change.rebatchAt) == b
    requires b.Some? ==> b.value.whenElapsed >= 0
    ensures Queue(Reached(code, Steps([q])).manager.schedule.batches) == [a]
    ensures var t := Reached(code, Steps([q]) + [change]);
            && t.manager.schedule.batches == (if b.Some? then [Seed(b.value)] else [])
            && Queue(t.manager.schedule.batches) == (if b.Some? then [b.value] else [])
            && t.manager.proxy == NoProxy() && t.looper.Waiting? && t.client.Idle?
  {
    InitInv(code);
    QueuedRun(code, [q]);
    AloneFirst(code, q, a);
    QueueSingle(Seed(a));
    RunLast(code, Init(), Steps([q]), change);
    ChangeOne(code, Reached(code, Steps([q])), Registered([q]), a, Armed(None, Some(a.whenElapsed)), change);
    if b.Some? {
      QueueSingle(Seed(b.value));
    }
  }

  // ---------------------------------------------------------------- brought forward

  /** A wall-clock repeat every ten seconds, started at boot time zero for 100 s. */
  function Repeat(): Request {
    Request(TimerEntry(1, RTC, 0, 10_000, {}, true, 7), 100_000, StartReading(0, Clock(0, 0), true, true))
  }

  function RepeatAlarm(when: int): TimerInfo {
    NewTimerInfo(1, RTC, 100_000, when * NS_PER_MS, 0, when * NS_PER_MS, 10_000, true, {}, 7)
  }

  /** The same alarm after a clock change at 5 s that sets the wall clock to 95 s. */
  function Forward(): TimerInfo {
    RepeatAlarm(10_000).(expectedWhenElapsed := 100_000 * NS_PER_MS, expectedMaxWhenElapsed := 100_000 * NS_PER_MS)
  }

  function SetForward(clocks: Readings): Step {
    TimeChanged(95_000 * NS_PER_MS, 5_000 * NS_PER_MS, 5_000 * NS_PER_MS, clocks)
  }

  lemma ForwardRenewals()
    ensures var a, now := Forward(), 10_000 * NS_PER_MS;
            var b := Renewal(a, now);
            && FireCount(a, now) == -8 && b.whenElapsed == -70_000 * NS_PER_MS
            && FireCount(b, now) == 9 && Renewal(b, now).whenElapsed == 20_000 * NS_PER_MS
  {
    CountFromExpected(Forward(), 10_000 * NS_PER_MS);
  }

  lemma DrainRepeat(code: Code, c: Schedule, a: TimerInfo, now: int)
    requires c.batches == [Seed(a)] && AllHold(c.batches)
    requires 0 < a.repeatInterval && a.whenElapsed <= now && !WakeupBit(a) && Renewal(a, now).whenElapsed != TIME_POINT_MIN
    ensures var b := Renewal(a, now);
            var d := Schedule([Seed(b)], Armed(c.armed.wakeup, Some(b.whenElapsed)));
            && AllHold(d.batches)
            && Drain(code, c, now) == Drained(Drain(code, d, now).schedule, [a] + Drain(code, d, now).alarms)
  {
    assert [a][1..] == [] && c.batches[1..] == [];
    RoundProgress(code, c, now);
    SetAlone(code, c.(batches := []), Renewal(a, now), 0);
    assert TriggerAll(code, c.(batches := []), [a], now) == SetAlarm(code, c.(batches := []), Renewal(a, now));
  }

  /** A round takes a due alarm and then its renewal, if that is due and its own renewal is not. */
  lemma DrainTwice(code: Code, c: Schedule, a: TimerInfo, b: TimerInfo, now: int)
    requires c.batches == [Seed(a)] && AllHold(c.batches) && b == Renewal(a, now) && 0 < a.repeatInterval && !WakeupBit(a)
    requires TIME_POINT_MIN < b.whenElapsed <= a.whenElapsed <= now < Renewal(b, now).whenElapsed
    ensures Drain(code, c, now).alarms == [a, b]
    ensures TriggerOrder([Fired(b, now), Fired(a, now)], Drain(code, c, now).alarms, now)
  {
    DrainRepeat(code, c, a, now);
    DrainRepeat(code, Schedule([Seed(b)], Armed(c.armed.wakeup, Some(b.whenElapsed))), b, now);
    Two(a, b);
    FiredBackwards(a, b, now);
  }

  lemma FiredBackwards(a: TimerInfo, b: TimerInfo, now: int)
    requires b.whenElapsed <= a.whenElapsed
    ensures TriggerOrder([Fired(b, now), Fired(a, now)], [a, b], now)
  {
    assert FireAll([a, b], now) == [Fired(a, now), Fired(b, now)];
    assert multiset([Fired(b, now), Fired(a, now)]) == multiset([Fired(a, now), Fired(b, now)]);
  }

  /** From start-up, in either program: the clock change brings the alarm forward from 100 s to
      10 s, and one round at 10 s calls the timer back twice, with the counts 9 and -8. */
  lemma BroughtForwardFiresTwice(code: Code, clocks: Readings)
    requires clocks(0) == Clock(5_000 * NS_PER_MS, 95_000 * NS_PER_MS)
    ensures var a, now := Forward(), 10_000 * NS_PER_MS;
            var order := [Fired(Renewal(a, now), now), Fired(a, now)];
            && Queue(Reached(code, Steps([Repeat()])).manager.schedule.batches) == [RepeatAlarm(100_000)]
            && Queue(Reached(code, Steps([Repeat()]) + [SetForward(clocks)]).manager.schedule.batches) == [a]
            && Invoked(Reached(code, Steps([Repeat()]) + [SetForward(clocks)] + RoundSteps(now, order))) == order
            && order[0].id == order[1].id == 1 && order[0].count == 9 && order[1].count == -8
  {
    var q, a, now := Repeat(), RepeatAlarm(100_000), 10_000 * NS_PER_MS;
    assert PrepareAlarm(q.entry, q.triggerTime, q.reading) == Some(a);
    assert Reconverted(a, clocks(0), 5_000 * NS_PER_MS) == Some(Forward());
    ForwardRenewals();
    ChangeRun(code, q, a, Some(Forward()), SetForward(clocks));
    TwiceRun(code, Steps([q]) + [SetForward(clocks)], Forward(), Renewal(Forward(), now), now);
  }

  lemma TwiceRun(code: Code, steps: seq<Step>, a: TimerInfo, b: TimerInfo, now: int)
    requires var s := Reached(code, steps);
             s.manager.schedule.batches == [Seed(a)] && s.manager.proxy == NoProxy() && s.looper.Waiting?
    requires b == Renewal(a, now) && 0 < a.repeatInterval && !WakeupBit(a) && a.hasCallback
    requires TIME_POINT_MIN < b.whenElapsed <= a.whenElapsed <= now < Renewal(b, now).whenElapsed
    ensures var order := [Fired(b, now), Fired(a, now)]; Invoked(Reached(code, steps + RoundSteps(now, order))) == order
  {
    var s, order := Reached(code, steps), [Fired(b, now), Fired(a, now)];
    InitInv(code);
    DrainTwice(code, s.manager.schedule, a, b, now);
    DeliverTwo(s.manager.proxy, Fired(b, now), Fired(a, now));
    assert [] + order == order;
    RoundIsRun(code, s, now, order);
    RunConcat(code, Init(), steps, RoundSteps(now, order));
  }
}
