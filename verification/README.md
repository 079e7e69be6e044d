# Timer scheduling and network time, verified

This project models two parts of the time service in Dafny and proves properties of them.

**The batching timer scheduler** (`services/timer`). Alarms with overlapping delivery windows
share a batch; the batch list is ordered by start; a looper drains due batches, renews repeating
alarms while it drains, delivers through per-uid proxy buffers and re-arms two kernel deadlines.
`Batch` and `TimerManager` are classes that change their fields in place; each method is proved
against functions on values (`BatchState`, `Schedule`, `Proxy`, `Manager`), and the properties are
lemmas about those functions. `Protocol.dfy` makes a state machine of the critical sections under
`entryMapMutex_`, `mutex_` and `proxyMutex_`, so that "every run" means every interleaving of
client calls, proxy calls and looper rounds. `PlainTimers.dfy` is the reference: a multiset of
timers without batches, order or deadlines, which the state machine refines step by step.

**SNTP time** (`services/time_manager`). 64-bit timestamps on the wire, their conversions, and the
offset and delay estimate of section 5 of RFC 4330 up to the cached trusted time.

| file | contents |
|---|---|
| `Units.dfy` | clocks, truncating division, 64-bit wrap-around, the halving search of `std::upper_bound` |
| `TimerInfo.dfy` | timer records, clamping at start, reconversion, catch-up arithmetic |
| `Batch.dfy` | one batch: incremental bookkeeping and the class |
| `BatchList.dfy` | coalescing, list order, windows, arming |
| `Rebatch.dfy` | rebatching and removal |
| `Drain.dfy` | the drain loop: termination, conservation, never early, never late |
| `Proxy.dfy` | delivery through the proxy buffers |
| `Protocol.dfy`, `Runs.dfy` | the state machine, its invariant, properties of all runs |
| `PlainTimers.dfy` | refinement of the plain timer multiset |
| `Repeating.dfy` | one repeating timer over a whole run: no drift |
| `Departures.dfy` | runs from start-up on which the program misses a property |
| `TimerManager.dfy` | the manager class |
| `NtpTimestamp.dfy`, `SntpClient.dfy`, `NtpTrustedTime.dfy` | network time |

## The program as written and as repaired

Three slips keep the code from what its own structure intends. The parameter `code` chooses the
program as written (`AsWritten`) or the same program with the slips repaired (`Repaired`); a lemma
that takes `code` holds of both. The class branches on it in three places only.

| slip | as written | does no harm exactly when |
|---|---|---|
| `AttemptCoalesceLocked` never advances its index | the alarm joins the first batch although another one accepted it; an alarm can be served after its window (`CoalescingCanMakeLate`) | `InsertFitsAsWrittenIff`, `CoalesceAgreesIff` |
| `RemoveLocked` overwrites `didRemove` for each batch | the list can stay out of order and under-armed (`RemovalCanUnsort`) | order: `RemoveSortedAsWrittenIff`; arming: `RemoveArmedAsWrittenIff`; the flag itself: `DidRemoveAgreesIff` |
| `RemoveProxy` erases from a copy of the buffer | a destroyed timer can be called back (`ReachableDestroyedCall`, `DestroyedTimerFiresAsWritten`) | `RemoveProxyClearsIff` |

Termination, conservation, never firing early, the sorted order under insertion, the exactness of
the cached batch fields, rebatching as a filter-map, the shape of alarms and per-uid order hold as
written. So does catch-up for alarms no rebatch has moved (`CatchUpCountsGridPoints`,
`RepeatsWithoutDrift`); for a moved alarm `CatchUpExact` says exactly when. Never firing late,
compatible windows, arming for the present list, and silence of stopped and destroyed timers hold of
the repaired program.

Behaviour kept as it is, in both programs:

- a start in the past queues nothing and returns true (`PastStartIsSilent`), and starting an id twice
  queues it twice (`StartQueuesOneMore`);
- a rebatched alarm keeps its old expected time. A repeating one brought forward too far is
  renewed for a time already past and can fire twice in one round (`BroughtForwardFiresTwice`), one
  pushed back too far skips grid points; how far is too far depends on the phase of the old grid
  (`CatchUpExact`, `CountPositiveIff`);
- a rebatch converts afresh from the time asked for. An elapsed alarm that a start had queued later
  than asked for, because an ordinary client may not ask for less than five seconds, is moved back or
  dropped by the next clock change (`ClampedTimerMovesOrDrops`, `ElapsedKeepsPlaceIff`);
- an alarm without a window never joins another one for the same instant (`CanHoldIff`).

## Reading guide

A time point is an unbounded integer of nanoseconds, a duration of the API one of milliseconds;
time points are assumed not to overflow int64, except where wrap-around is modelled
(`CountWrapsHarmlessly`, `StampExactIff`). Clock readings, the answers of the system-uid query,
the drawn timer id and the outcome of an SNTP request are inputs. A 32-bit flag word is the set of
its one bits. The callbacks made are a trace, `invoked`. `kind` is the C++ field `type`.

## Model

| member | source | states |
|---|---|---|
| Units.TruncTwice | services/timer/src/timer_manager.cpp:460-461 | casting nanoseconds to milliseconds before dividing by the interval loses nothing |
| Units.UpperBound | services/timer/src/timer_manager.cpp:645-650 | the halving search stays inside the range it searches, ordered or not |
| Units.UpperBoundSplits | services/timer/src/timer_manager.cpp:645-650 | on an ordered range everything before the result is no greater than the key and everything from it on is greater |
| TimerInfos.WakeupBitAgrees | services/timer/src/timer_info.cpp:42 | the bit HasWakeups tests agrees with the wakeup field on the four declared types and, beyond them, exactly on odd types |
| TimerInfos.ConversionFollowsWallClock | services/timer/src/timer_manager.cpp:358-377 | elapsed timers convert to their own time whatever the clocks read; wall-clock timers to the boot time at which the wall clock will show theirs, so they move by minus its jump against boot time |
| TimerInfos.MaxTriggerTimeWindow | services/timer/src/timer_manager.cpp:656-666 | the window is empty if the interval, or without one the distance to the trigger time, is below ten seconds, otherwise the largest whole number of milliseconds within three quarters of it |
| TimerInfos.PreparedShape | services/timer/src/timer_manager.cpp:193-250 | from any arguments: ordered window equal to the stored length, interval non-positive or within bounds, not before the futurity; a window of -1 becomes three quarters of the clamped interval from ten seconds on and is empty below |
| TimerInfos.PreparedTimes | services/timer/src/timer_manager.cpp:206-235 | trigger time, interval and window are moved to the nearest allowed value and otherwise kept |
| TimerInfos.ReconvertedShape | services/timer/src/timer_manager.cpp:336-356 | an alarm is dropped exactly when its reconverted time is past; otherwise only its three times change, its window starts there with the stored length, and the negative-window branch is never taken |
| TimerInfos.CountPositiveIff | services/timer/src/timer_manager.cpp:460-462 | the count is at least one exactly when the alarm fires less than a period before its expected time |
| TimerInfos.CountWrapsHarmlessly | services/timer/src/timer_manager.cpp:460-463 | the uint64 count may wrap below zero; the next time is still the exact one if it fits int64 |
| TimerInfos.CatchUpCountsGridPoints | services/timer/src/timer_manager.cpp:456-467 | for an alarm not rebatched since it was queued, the count is the number of grid points up to now and the renewal is the first one after now |
| TimerInfos.CatchUpExact | services/timer/src/timer_manager.cpp:456-467 | for a due alarm that a rebatch may have moved: exactly when its renewal lies ahead of now, and exactly when its count is the number of grid points, in terms of period, phase and distance to the expected time |
| TimerInfos.CountFromExpected | services/timer/src/timer_manager.cpp:460-461 | the count is one plus the whole periods since the expected time, or one minus those still to go |
| TimerInfos.GridPointsBracket | services/timer/src/timer_manager.cpp:460-463 | the last counted grid point is at or before now and the next one after it |
| TimerInfos.CountsSumWithoutDrift | services/timer/src/timer_manager.cpp:456-467 | over any sequence of due firings the counts add up to the grid points passed, and both clocks of the alarm moved by exactly that many periods |
| TimerInfos.RenewalShape | services/timer/src/timer_manager.cpp:463-466 | a renewal keeps identity, flags and interval, counts as not rebatched and has a window of three quarters of its period, empty below ten seconds |
| Batches.LatestWhenBounds | services/timer/src/batch.cpp:86-99 | the recomputed start is the maximum, with the sentinel for the empty batch |
| Batches.EarliestMaxBounds | services/timer/src/batch.cpp:87-102 | the recomputed end is the minimum, with the sentinel for the empty batch |
| Batches.UnionFlagsStandalone | services/timer/src/batch.cpp:88-103 | a batch shows STANDALONE exactly when one of its alarms does |
| Batches.SeedConsistent | services/timer/src/batch.cpp:29-35 | a seeded batch is what a scan of its one alarm gives |
| Batches.SlotSplits | services/timer/src/batch.cpp:56-62 | an alarm is put behind all that are due no later and before all that are due later |
| Batches.SlotKeepsOrder | services/timer/src/batch.cpp:56-62 | inserting there keeps the alarms ordered by time |
| Batches.AddConsistent | services/timer/src/batch.cpp:53-75 | the incremental update of Add equals recomputation and can only raise the start |
| Batches.AddedTimers | services/timer/src/batch.cpp:53-62 | Add adds exactly the alarm, to any batch |
| Batches.WithoutIsFilter | services/timer/src/batch.cpp:89-106 | erasing an id removes all its alarms and no other, with multiplicity |
| Batches.WithoutKeepsOrder | services/timer/src/batch.cpp:89-106 | erasing keeps the alarms ordered |
| Batches.RemoveConsistent | services/timer/src/batch.cpp:82-114 | the fields after Remove equal recomputation and the start can only fall |
| Batches.BookkeepingExact | services/timer/src/batch.cpp:53-114 | after any sequence of Add and Remove on a consistent batch the cached start, end and flags are what a full scan gives and the alarms are ordered |
| Batches.Batch.constructor | services/timer/src/batch.cpp:22-27 | the empty batch with its sentinels, which is what a scan of no alarms gives |
| Batches.Batch.FromSeed | services/timer/src/batch.cpp:29-35 | the batch of one alarm, its fields exact if the alarm's times fit int64 |
| Batches.Batch.Add | services/timer/src/batch.cpp:53-75 | the whole new state, and a result that is true exactly when the start changed |
| Batches.Batch.Remove | services/timer/src/batch.cpp:82-114 | the erasing loop yields the filtered batch with recomputed fields, and reports exactly whether the id was there |
| BatchLists.FirstAccepting | services/timer/src/timer_manager.cpp:540-546 | the first batch that passes the test, none before it passing |
| BatchLists.CanHoldIff | services/timer/src/batch.cpp:47-51 | the test is the meeting of the two windows except where the alarm starts at the batch's end |
| BatchLists.AcceptsIff | services/timer/src/batch.cpp:47-75 | a sound batch accepts an alarm exactly if the two together still have a common window and the alarm does not start where the batch ends |
| BatchLists.CoalesceAgreesIff | services/timer/src/timer_manager.cpp:536-547 | the index as written is right exactly when the first batch accepts or none does |
| BatchLists.InsertTimers | services/timer/src/timer_manager.cpp:518-534 | insertion queues exactly one more alarm, in either program |
| BatchLists.InsertCoalesces | services/timer/src/timer_manager.cpp:518-547 | an alarm that may share some batch leaves the number of batches and grows the first it may share (repaired) or the first of all (as written); any other one adds a batch of its own; the other batches stay, in order |
| BatchLists.PlacedAt | services/timer/src/timer_manager.cpp:642-654 | a batch is put behind all that start no later and before all that start later |
| BatchLists.AddBatchSorted | services/timer/src/timer_manager.cpp:642-654 | adding a batch there keeps the list sorted |
| BatchLists.InsertSorted | services/timer/src/timer_manager.cpp:518-534 | insertion keeps the list sorted, as written too |
| BatchLists.InsertHolds | services/timer/src/timer_manager.cpp:518-534 | no batch starts before an alarm of it is due or ends after one must be served, and its cached fields stay exact, as written too |
| BatchLists.InsertFits | services/timer/src/timer_manager.cpp:518-547 | repaired insertion keeps every batch window non-empty and standalone alarms alone |
| BatchLists.InsertFitsAsWrittenIff | services/timer/src/timer_manager.cpp:518-547 | as written that holds exactly when the alarm gets its own batch or the first batch could take it |
| BatchLists.AddedFitsIff | services/timer/src/batch.cpp:47-75 | extending a batch keeps it compatible exactly when the windows meet and it is not standalone |
| BatchLists.FirstWakeup | services/timer/src/timer_manager.cpp:503-511 | the first batch with a wake-up alarm |
| BatchLists.RescheduleArms | services/timer/src/timer_manager.cpp:482-501 | on a sorted list each batch gets a deadline no later than its start that is the start of a batch of the list, the wake-up deadline if it has a wake-up alarm |
| BatchLists.RescheduleArmsBatches | services/timer/src/timer_manager.cpp:482-501 | the wake-up deadline moves to the first batch with a wake-up alarm and stays if there is none; the other one moves to the front exactly if the front has no wake-up alarm and can be armed |
| BatchLists.CoversIff | services/timer/src/timer_manager.cpp:482-501 | deadlines armed for a list come in time for the batches of another one exactly if none of these starts before the front, or before the first wake-up batch |
| BatchLists.FreshArms | services/timer/src/timer_manager.cpp:482-501 | deadlines that a re-arming would not change come in time for every batch |
| Rebatching.RebatchIsFilterMap | services/timer/src/timer_manager.cpp:320-356 | a rebatched list is what inserting the reconverted alarms that are not past, in queue order, makes of an empty list; so it holds exactly these, with multiplicity |
| Rebatching.ReaddedConcat | services/timer/src/timer_manager.cpp:326-342 | the alarms are reconverted in order, each at its own clock reading |
| Rebatching.ReaddedFrom | services/timer/src/timer_manager.cpp:326-342 | every alarm after a rebatch is the reconversion of one before it, at the reading taken for it |
| Rebatching.ReaddedTo | services/timer/src/timer_manager.cpp:326-342 | every alarm whose reconversion is not past is there after a rebatch |
| Rebatching.ElapsedRebatchIgnoresClocks | services/timer/src/timer_manager.cpp:358-377 | rebatching elapsed timers gives the same alarms whatever the clocks read |
| Rebatching.ElapsedKeepsPlaceIff | services/timer/src/timer_manager.cpp:336-377 | a rebatch leaves an elapsed alarm in its place exactly if it is not past and was queued at the time asked for |
| Rebatching.RebatchFresh | services/timer/src/timer_manager.cpp:320-334 | a rebatch leaves the deadlines of the new list |
| Rebatching.ReAddAllKeeps | services/timer/src/timer_manager.cpp:320-356 | rebatching yields a sorted list of sound batches, with compatible windows when repaired |
| Rebatching.StrippedQueue | services/timer/src/timer_manager.cpp:285-295 | stripping removes every alarm of the id from the queue, in place, and nothing else |
| Rebatching.DidRemoveMeans | services/timer/src/timer_manager.cpp:285-299 | repaired the flag says some batch held the id, as written that the last one did |
| Rebatching.DidRemoveAgreesIff | services/timer/src/timer_manager.cpp:285-299 | the two flags agree exactly when the last batch held the id or none did |
| Rebatching.RemoveSortedAsWrittenIff | services/timer/src/timer_manager.cpp:278-301 | as written the list is sorted after a removal exactly if the last batch held the id or the batches left are in order by the starts they are left with |
| Rebatching.RemoveArmedAsWrittenIff | services/timer/src/timer_manager.cpp:278-301 | as written the deadlines come in time for every batch left exactly if the last batch held the id or none of those left starts before what was armed for |
| Rebatching.RemoveTimerTimers | services/timer/src/timer_manager.cpp:278-301 | what is queued after a removal, in either program, and which insertions a rebatch makes of it |
| Rebatching.RemoveKeeps | services/timer/src/timer_manager.cpp:278-301 | repaired removal keeps the list sorted and compatible and changes nothing if the id was not queued; a rebatch always restores order |
| Draining.TriggerAllLoad | services/timer/src/timer_manager.cpp:454-471 | triggering alarms that are due lowers the load by at least one for each, renewals included |
| Draining.RoundProgress | services/timer/src/timer_manager.cpp:444-472 | each round of the drain loop lowers the load, a rebatched alarm counting twice |
| Draining.TriggerAllInserts | services/timer/src/timer_manager.cpp:454-471 | triggering a batch inserts the renewals of its repeating alarms one after the other, in order, and re-arms for them |
| Draining.Drain | services/timer/src/timer_manager.cpp:440-472 | the drain loop terminates and stops with nothing due at the front |
| Draining.DrainConserves | services/timer/src/timer_manager.cpp:444-472 | queued plus renewed equals still queued plus drained, as multisets of alarms |
| Draining.DrainConservesIds | services/timer/src/timer_manager.cpp:444-472 | for every id, queued before equals queued after plus one-shots drained |
| Draining.NeverEarly | services/timer/src/timer_manager.cpp:444-451 | no alarm is drained before its time, in either program and from any list |
| Draining.RenewalStaysQueued | services/timer/src/timer_manager.cpp:454-467 | the renewal of a drained alarm is queued after the drain if it lies ahead of now |
| Draining.DrainKeeps | services/timer/src/timer_manager.cpp:444-472 | renewals inserted while draining keep the list sorted, sound and, repaired, compatible |
| Draining.NeverLate | services/timer/src/timer_manager.cpp:440-472 | repaired, no alarm is left whose window has closed |
| Draining.LateIffIncompatible | services/timer/src/timer_manager.cpp:440-472 | a batch left behind holds an alarm whose window has closed exactly if its own end has passed, which happens only as written and only with an empty batch window |
| Proxying.ProxyTimerBuffers | services/timer/src/timer_manager.cpp:582-618 | only proxied uids have buffers, never empty and only of their own alarms; the result and the proxied uids after the call |
| Proxying.RemoveProxyExact | services/timer/src/timer_manager.cpp:159-176 | repaired one buffer is filtered; as written a buffer changes only if nothing else was in it; nobody is called back and no proxy is lifted |
| Proxying.RemoveProxyClearsIff | services/timer/src/timer_manager.cpp:159-176 | the id is gone from the buffer always when repaired, as written exactly when it was not there or alone there |
| Proxying.DeliverServes | services/timer/src/timer_manager.cpp:549-580 | delivery appends the alarm to what its own uid is served and to no other's |
| Proxying.DeliverCalls | services/timer/src/timer_manager.cpp:549-580 | an alarm with a callback is called back at once exactly if its uid is not proxied |
| Proxying.ProxyTimerCalls | services/timer/src/timer_manager.cpp:582-618 | a proxy call calls nobody back but the uid whose proxy it lifts |
| Proxying.ProxyTimerServes | services/timer/src/timer_manager.cpp:582-618 | lifting a proxy with retrigger serves what was owed, in order, and without it drops the waiting tail |
| Proxying.ResetAllServes | services/timer/src/timer_manager.cpp:620-640 | resetting calls every uid back for everything owed to it, in order, and leaves it unproxied |
| Proxying.FlushAscends | services/timer/src/timer_manager.cpp:625-636 | the uids are called back one after the other, the smallest first |
| Proxying.RemoveProxyServes | services/timer/src/timer_manager.cpp:159-176 | removal only takes alarms out of what is served |
| Protocol.JumpDetection | services/timer/src/timer_manager.cpp:393-406 | the clock counts as changed exactly when it moved against the boot clock by more than a second, up to the millisecond fractions of the two boot readings |
| Protocol.ChangeSettles | services/timer/src/timer_manager.cpp:396-405 | a first report counts as a change; after one that counted, a report whose clocks ran along to within a second does not and changes nothing |
| Protocol.EnabledIffLocksFree | services/timer/src/timer_manager.cpp:100-640 | a step can be taken exactly if the locks of its section are free and, for one that continues a call or a round, that is under way |
| Protocol.StepInv | services/timer/src/timer_manager.cpp:63-419 | every step of either program keeps the invariant: sound batches with exact cached fields, known owners, buffers, and repaired also order, windows, deadlines of the present list and no orphan in a buffer |
| Runs.ReachableSchedule | services/timer/src/timer_manager.cpp:482-547 | in every state the repaired program reaches: sorted, every window inside its alarms' windows, standalone alarms alone; between rounds the deadlines are those of this list and cover it |
| Runs.ReachableCache | services/timer/src/batch.cpp:53-114 | in every state either program reaches, the alarms of a batch are ordered and its cached fields are what a scan gives |
| Runs.WokenInTime | services/timer/src/timer_manager.cpp:482-501 | between rounds every queued alarm has, within its window, an armed deadline that is the start of a batch queued now; a wake-up alarm has the wake-up deadline |
| Runs.ReachableTrigger | services/timer/src/timer_manager.cpp:440-480 | from every reachable state nothing is triggered early and, repaired, nothing is left too late |
| Runs.StepRegisters | services/timer/src/timer_manager.cpp:74-156 | entries appear exactly by CreateTimer of a new id, are never overwritten, and go only when their own destruction finishes |
| Runs.PastStartIsSilent | services/timer/src/timer_manager.cpp:105-125 | a start returns whether the id is registered and changes nothing exactly if it is not or the time asked for is past |
| Runs.StepCalls | services/timer/src/timer_manager.cpp:549-640 | one repaired step only calls back registered timers |
| Runs.DestroyedNeverFires | services/timer/src/timer_manager.cpp:132-176 | after the entry is erased no step of any run calls back with the id until it is created anew |
| Runs.DestroyedNeverTriggers | services/timer/src/timer_manager.cpp:137-157 | as written too, no alarm of the id is handed over for delivery again |
| Runs.DestroyErases | services/timer/src/timer_manager.cpp:152-154 | finishing a destruction erases the entry |
| Runs.FinishStopQuiets | services/timer/src/timer_manager.cpp:137-176 | when a stop has finished nothing of the timer is queued or in flight nor, repaired, buffered |
| Runs.StoppedStaysSilent | services/timer/src/timer_manager.cpp:132-176 | after a stop no run hands over an alarm of the id and, repaired, calls back with it until it is started again |
| Runs.TriggeredIsHanded | services/timer/src/timer_manager.cpp:549-557 | over every run, what was handed over followed by what is still to be delivered is what was triggered, in order, null callbacks left out |
| Runs.ProxyIsFifoDelay | services/timer/src/timer_manager.cpp:549-640 | over every run, callbacks made then waiting form a subsequence of what was handed over for the uid, and all of it if nothing was discarded or stopped |
| Runs.UnproxiedIsUpToDate | services/timer/src/timer_manager.cpp:559-640 | a uid that is not proxied has been called back for everything |
| Runs.UnproxiedIsDirect | services/timer/src/timer_manager.cpp:549-580 | over every run that does not proxy it, an unproxied uid is called back for exactly what is handed over for it, in order |
| Runs.ResetIsDirect | services/timer/src/timer_manager.cpp:620-640 | so is every uid from a reset to the next proxy call for it |
| Runs.ProxiedIsHeld | services/timer/src/timer_manager.cpp:559-640 | over every run that neither lifts its proxy nor resets, a proxied uid is not called back at all |
| Runs.StopIsRun | services/timer/src/timer_manager.cpp:137-157 | an undisturbed stop or destroy is its two critical sections in a row |
| Runs.RoundIsRun | services/timer/src/timer_manager.cpp:409-413 | an undisturbed round is trigger, deliver each alarm, re-arm |
| Runs.LooperIsRun | services/timer/src/timer_manager.cpp:379-419 | an undisturbed pass of the looper is a clock-change step exactly if the wait reports one, then a round, or re-arming only if nothing else is reported; the manager it leaves is the one the method LooperRound promises |
| PlainTimers.Refinement | services/timer/src/timer_manager.cpp:193-480 | every step of the batching scheduler is a step of the plain multiset of timers: a start adds one, a clock change refreshes exactly if it counts as one, a repaired removal refreshes exactly if the id was queued |
| PlainTimers.TickIsSandwiched | services/timer/src/timer_manager.cpp:440-480 | every timer whose window has closed fires and none that is not due |
| PlainTimers.ExactWithoutWindows | services/timer/src/timer_manager.cpp:440-480 | with empty windows exactly the due timers fire |
| PlainTimers.StartQueuesOneMore | services/timer/src/timer_manager.cpp:105-125 | starting an id again queues it once more |
| Repeating.DrainOfOne | services/timer/src/timer_manager.cpp:444-472 | a timer queued once and on its grid is drained at most once in a round, and then exactly its renewal is queued |
| Repeating.StartsOnCourse | services/timer/src/timer_manager.cpp:105-125 | starting a repeating timer that is not queued queues it once, on its grid |
| Repeating.RepeatsWithoutDrift | services/timer/src/timer_manager.cpp:440-480 | over every run that neither restarts, stops nor rebatches, the counts of the timer's triggered alarms add up to the grid points up to the last round that found it due, and its queued alarm moved by as many periods on both clocks |
| Departures.CoalescingCanMakeLate | services/timer/src/timer_manager.cpp:540-545 | as written a run of three starts leaves an alarm queued at the end of its window, with no deadline before |
| Departures.RemovalCanUnsort | services/timer/src/timer_manager.cpp:285-299 | as written a run of four starts and a removal leaves the list out of order and a batch that starts before every deadline |
| Departures.BufferedAlarmSurvivesStop | services/timer/src/timer_manager.cpp:164-171 | as written a stopped timer's alarm stays buffered beside any other one |
| Departures.DestroyedTimerFiresAsWritten | services/timer/src/timer_manager.cpp:159-176 | as written, from every such state, lifting the proxy calls back the destroyed timer |
| Departures.ReachableDestroyedCall | services/timer/src/timer_manager.cpp:159-176 | a run from start-up that ends so |
| Departures.ClampedTimerMovesOrDrops | services/timer/src/timer_manager.cpp:225-377 | an alarm clamped to five seconds is moved to the time asked for by the first clock change, or dropped |
| Departures.BroughtForwardFiresTwice | services/timer/src/timer_manager.cpp:456-467 | a run in which a clock change brings a repeating alarm forward and one round calls it back twice, with counts 9 and -8 |
| TimerManagers.TimerManager.constructor | services/timer/src/timer_manager.cpp:63-72 | the initial state of the state machine |
| TimerManagers.TimerManager.AddBatchLocked | services/timer/src/timer_manager.cpp:642-654 | the batch is placed by its start, the others untouched |
| TimerManagers.TimerManager.AttemptCoalesceLocked | services/timer/src/timer_manager.cpp:536-547 | the index the loop returns, in either program |
| TimerManagers.TimerManager.InsertAndBatchTimerLocked | services/timer/src/timer_manager.cpp:518-534 | the new list in place |
| TimerManagers.TimerManager.FindFirstWakeupBatchLocked | services/timer/src/timer_manager.cpp:503-511 | the first wake-up batch |
| TimerManagers.TimerManager.RescheduleKernelTimerLocked | services/timer/src/timer_manager.cpp:482-501 | the deadlines armed, the rest kept |
| TimerManagers.TimerManager.SetHandlerLocked | services/timer/src/timer_manager.cpp:303-311 | insertion, with re-arming unless rebatching |
| TimerManagers.TimerManager.ReAddTimerLocked | services/timer/src/timer_manager.cpp:336-356 | one alarm reconverted and inserted, or dropped |
| TimerManagers.TimerManager.ReBatchAllTimersLocked | services/timer/src/timer_manager.cpp:320-334 | the nested loops rebuild the list from fresh batches |
| TimerManagers.TimerManager.RemoveLocked | services/timer/src/timer_manager.cpp:278-301 | the list after stripping and the rebatch the flag asks for |
| TimerManagers.TimerManager.StripLocked | services/timer/src/timer_manager.cpp:285-295 | the erasing loop over the batches and its flag |
| TimerManagers.TimerManager.TriggerTimersLocked | services/timer/src/timer_manager.cpp:440-480 | the drained schedule, a trigger list sorted by time that is a permutation of the fired alarms, and whether one wakes |
| TimerManagers.TimerManager.CallbackAlarmIfNeed | services/timer/src/timer_manager.cpp:559-580 | callback or buffer |
| TimerManagers.TimerManager.DeliverTimersLocked | services/timer/src/timer_manager.cpp:549-557 | all alarms of the list, in order |
| TimerManagers.TimerManager.ProxyTimer | services/timer/src/timer_manager.cpp:582-618 | proxied uids, buffers, trace and result |
| TimerManagers.TimerManager.ResetAllProxy | services/timer/src/timer_manager.cpp:620-640 | all buffers called back in the order of their uids |
| TimerManagers.TimerManager.RemoveProxy | services/timer/src/timer_manager.cpp:159-176 | the buffers after erasing from the copy, or from the buffer |
| TimerManagers.TimerManager.CreateTimer | services/timer/src/timer_manager.cpp:74-103 | the entry is added unless the id is taken |
| TimerManagers.TimerManager.StartTimer | services/timer/src/timer_manager.cpp:105-125 | the alarm queued and armed for, and a result that says the id is known |
| TimerManagers.TimerManager.StopTimerInner | services/timer/src/timer_manager.cpp:137-157 | the whole new state: queue, buffer and, for a destroy, entry cleared; false and nothing changed for an unknown id |
| TimerManagers.TimerManager.LooperRound | services/timer/src/timer_manager.cpp:379-419 | rebatch on a clock change, trigger, deliver, re-arm |
| TimerManagers.SortByWhen | services/timer/src/timer_manager.cpp:473-477 | an ordered permutation |
| NtpTimestamps.FractionFitsIff | services/time_manager/src/sntp_client.cpp:168-169 | the fraction fits 32 bits exactly up to 999998 microseconds |
| NtpTimestamps.SecondsRoundTripIff | services/time_manager/src/sntp_client.cpp:163-181 | seconds return exactly in era 0 |
| NtpTimestamps.MicrosRoundTrip | services/time_manager/src/sntp_client.cpp:163-181 | microseconds return unchanged, plus one exactly when 15625 divides their successor |
| NtpTimestamps.EpochIsSeventyYears | services/time_manager/src/sntp_client.cpp:35 | the epoch constant is the seconds of the years 1900 to 1969, leap days counted |
| NtpTimestamps.StampExactIff | services/time_manager/src/sntp_client.cpp:193-202 | through unsigned wrap-around the result is the exact millisecond count, negative before 1970, for every timestamp but zero, which gives 0 |
| NtpTimestamps.StampOfTimeOfDay | services/time_manager/src/sntp_client.cpp:163-202 | a time of day goes through the wire format to its Unix milliseconds, one more exactly when 125000 divides the successor of its microseconds |
| NtpTimestamps.StampMonotone | services/time_manager/src/sntp_client.cpp:193-202 | later nonzero timestamps give no earlier stamps |
| NtpTimestamps.MirrorSwapsEndianness | services/time_manager/src/sntp_client.cpp:147-154 | reading memory filled back to front gives the network-order integer |
| NtpTimestamps.BytesRoundTrip | services/time_manager/src/sntp_client.cpp:226-237 | the bytes of an integer denote it |
| NtpTimestamps.HeaderRoundTrip | services/time_manager/src/sntp_client.cpp:289-291 | version and mode are recovered from the header byte, the leap indicator too if `char` is unsigned; otherwise exactly if it is 0 or 1, while 2 and 3 read as 254 and 255 |
| SntpClients.OffsetWithinCertainty | services/time_manager/src/sntp_client.cpp:318-320 | the round trip is the sum of the delays, the certainty half of it rounded down, and the offset is off by at most the certainty plus one |
| SntpClients.CertaintyAloneIsNotEnough | services/time_manager/src/sntp_client.cpp:318-320 | the plus one is needed |
| SntpClients.WireOffsetBound | services/time_manager/src/sntp_client.cpp:308-320 | with timestamps rounded down to milliseconds the error stays under the certainty plus three |
| SntpClients.SntpClient.GetNtpTimestamp64 | services/time_manager/src/sntp_client.cpp:137-161 | the eight bytes in network order |
| SntpClients.SntpClient.GetNtpField32 | services/time_manager/src/sntp_client.cpp:328-352 | the four bytes in network order |
| SntpClients.SntpClient.WriteTimeStamp | services/time_manager/src/sntp_client.cpp:244-274 | the timestamp in bytes 24 to 31, header 27, every other byte untouched |
| SntpClients.SntpClient.CreateMessage | services/time_manager/src/sntp_client.cpp:204-242 | the same for the time of day |
| SntpClients.SntpClient.ReceivedMessage | services/time_manager/src/sntp_client.cpp:276-326 | offset, delay and time from the four timestamps, the client's own where the reply echoes none |
| SntpClients.WriteThenRead | services/time_manager/src/sntp_client.cpp:137-274 | what was written is read back, for every timestamp |
| SntpClients.ClockOffsetKeptIff | services/time_manager/src/sntp_client.cpp:127-130 | the stored offset is the offset exactly within 32 signed bits |
| NtpTrustedTimes.NtpTrustedTime.ForceRefresh | services/time_manager/src/ntp_trusted_time.cpp:36-64 | the first exchange that succeeds replaces the result, with half its round trip as certainty; two failures leave it |
| NtpTrustedTimes.AnswersRunAlong | services/time_manager/src/ntp_trusted_time.cpp:66-126 | the answer is the cached time at the reading it was taken for, and two answers differ by exactly the steady time between them |
| NtpTrustedTimes.CachedTimeTracksServer | services/time_manager/src/ntp_trusted_time.cpp:66-126 | what CurrentTimeMillis answers stays within the certainty plus five milliseconds of the server's time |
| NtpTrustedTimes.AnswerAfterReply | services/time_manager/src/ntp_trusted_time.cpp:36-126 | the same from the reply the client reads, at either attempt, through the cache to the answer |

## Left out

- IPC stubs and proxies, JavaScript bindings, permissions, events and dump commands are wrappers.
- The kernel timers: two deadlines are recorded; that the kernel wakes the looper at an armed deadline, also one already past, and that an absolute time of zero disarms a timer are not. The wait result is an input.
- Sockets, name resolution, JSON files, the RTC device, observers, time zones: input and output.
- The alarm objects: `TimerInfo` is a value, so sharing of one object between lists is not captured; a batch seeded by an alarm copies it, and no alarm changes where a second list could see it.
- Callbacks are assumed not to call back into the manager while it holds its locks.
- Random id generation: the id is an input; a collision keeps the old entry, as in the code.
- Memory order and scheduling of threads: each locked section is one step.
- MaxTriggerTimeWindow: does not model the rounding of the 0.75 factor in `float`, which moves the end of a long window by at most about two seconds; three quarters is exact here.
- MicrosRoundTrip: does not model the rounding of the two products in `double`; the factors are exact rationals here.
- StampOfTimeOfDay: does not model that rounding either.
- ConvertUnixToNtp: does not model rounding in `double`, and reduces the fraction modulo 2^32 at 999999 microseconds, where the C++ conversion is undefined.
- ConvertNtpToStamp: assumes a 64-bit `unsigned long`.
- GetNtpTimestamp64: assumes a little-endian host, as the byte loops do.
- RemoveProxy: an iterator used after `erase` is taken to stand at the next element, which is what the loop relies on.
- ReceivedMessage: does not model the stratum, poll, precision, root and reference fields, which are parsed and dropped.
- The remaining getters of `NtpTrustedTime`; its `HasCache` answers whether there is no cached result, the opposite of its name.
- The 32-bit tick notifier, the NITZ window and the auto-time status: one-branch facts.
