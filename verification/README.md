# dws, modelled and proved

dws is a reactor library in C++: an event loop with timers and poll(2), buffers and TCP connections
on top of it, and beside it a thread pool, a bounded queue, an asynchronous logger and calendar and
time zone arithmetic. This project models the parts whose correctness is hardest to see and proves
what they keep in every run.

Each stateful component has the same shape.

* A `State` value holds the component's fields, what it shares with its surroundings (the allocator,
  the clock, the eventfd, the socket) and histories (what was queued, run, freed, written). Every
  access that other threads or callbacks can come between is a `Step`. `Do` takes one step and `Run`
  a whole schedule. Where the C++ code could fail an assertion, touch released memory or dereference
  a null pointer, `Do` gives `Fault`.
* Lemmas state what holds in every state of every schedule, and what one call does to the rest of
  the run.
* A class updates the fields in place, as the C++ member functions do, and each method is proved to
  take exactly the step of the transition system, so that the lemmas hold of it.

| file | component |
|---|---|
| `TimerQueue.dfy`, `TimerQueueTheorems.dfy`, `TimerQueueSchedules.dfy`, `TimerQueueClass.dfy` | timers; addresses are numbers that may be handed out again after a `delete` |
| `Calendar.dfy`, `TimeZone.dfy`, `Integers.dfy` | Julian day numbers, local time, `DateTime` |
| `AsyncLogging.dfy`, `LogStream.dfy` | the double-buffered logger; integer printing and `FixedBuffer` |
| `PollPoller.dfy` | the dense `pollfd` array |
| `EventLoop.dfy`, `ConditionVariables.dfy`, `BoundedBlockingQueue.dfy`, `ThreadPool.dfy` | wake-up protocols between any number of threads |
| `NetworkOrder.dfy`, `Buffer.dfy`, `TcpConnection.dfy` | the gap buffer; output and closing of a connection |
| `Outcomes.dfy`, `Sequences.dfy` | the result of a step; a law of sequences |

Where the code does not do what its documentation or its shape promises, the model follows the code,
and a lemma gives the exact condition under which the promise is met:

* A `DateTime` brings its second back only before 02:08:00, because the minutes of the day are
  narrowed to eight bits (`DateTimeRoundTripExactly`).
* A civil date survives its Julian day number only from 1 March -4800 on (`RoundTripExactlyFromFirst`).
* The earlier reading of a repeated local second is found only at a transition that is neither the
  first nor the last, and at the first transition a skipped second is never mapped to an instant
  before it (`RepeatedSecond`, `SkippedSecond`).
* A message that the socket takes only in part stands whole in the bytes of the connection only if its
  remainder crosses a high-water mark that has a callback (`KeptWholeExactly`); without a callback
  nothing is ever queued (`NothingQueuedWithoutCallback`).
* A channel that is first registered without events stays visible to poll(2) and can be removed only
  once it has been updated again (`RemovableOnceUpdatedAgain`); that update brings everything back in
  order (`NextUpdateRestores`).
* Without postTransition, an instant mapped to local time and back keeps its local second exactly when
  no transition but the first skips that second (`RoundTripExactly`), and a table brings every instant
  back exactly when no transition skips seconds shown before an earlier one (`TableRoundTripsExactly`).
  With postTransition, it does so exactly when each such transition brings an offset under which an
  earlier stretch shows that second (`PostRoundTripExactly`, `PostTableRoundTripsExactly`). Some
  tables bring everything back only this way (`ReturningOffset`).
* Of what is logged, every byte is in the file or on its way to it exactly when every line is shorter
  than a buffer and no batch exceeds 25 buffers (`NothingLostExactly`): any other line is dropped without
  notice (`AllLoggableExactly`), and of a larger batch two buffers survive, which costs bytes exactly
  unless the others are empty (`NoLossExactly`, `NoOverflowNoLoss`). `OverflowLosesBytes` is such a run.

## Model

| member | source | states |
|---|---|---|
| `TimerQueues.LowerBound` | src/net/src/TimerQueue.cc:133 | everything before the position is smaller than the key and what stands at it is not |
| `TimerQueues.InsertEntryCorrect` | src/net/src/TimerQueue.cc:181-182 | inserting into the set keeps it strictly ascending, adds exactly the entry, and the new earliest time is the smaller of the two |
| `TimerQueues.EraseEntryCorrect` | src/net/src/TimerQueue.cc:101-102 | erasing removes exactly the entry and never brings the earliest time forward |
| `TimerQueueTheorems.GetExpiredExact` | src/net/src/TimerQueue.cc:129-147 | getExpired never faults; it takes out, in ascending order, exactly the timers due by `now`, from both sets |
| `TimerQueueTheorems.SettleExact` | src/net/src/TimerQueue.cc:149-160 | the loop of reset never faults; every repeating uncancelled member of the batch is back in both sets at its new time, every other member is freed, all other timers are untouched and nothing else is scheduled |
| `TimerQueueTheorems.StepKeeps` | src/net/src/TimerQueue.cc:86-193 | every step keeps: timers_ and activeTimers_ hold the same timers under their current expiration, each live timer is in exactly one place, sequence numbers identify timers, and the timerfd covers the earliest one |
| `TimerQueueTheorems.EveryRunIsSafe` | src/net/src/TimerQueue.cc:86-193 | no schedule of adds, cancels (of stale ids too), callbacks and clock ticks fails an assertion or reads or frees a released timer, although addresses are reused |
| `TimerQueueTheorems.InitialIsSafe` | src/net/src/TimerQueue.cc:57-65 | the same for every schedule from a fresh queue |
| `TimerQueueTheorems.NoLeakNoDoubleFree` | src/net/src/TimerQueue.cc:76-160 | over a whole run, each created timer is either still allocated or was deleted exactly once |
| `TimerQueueTheorems.DueTimersAreNoticed` | src/net/src/TimerQueue.cc:22-32 | between loop steps, while a timer is scheduled, the timerfd has fired or is armed for no later than the earliest expiration or the 100 microsecond floor |
| `TimerQueueTheorems.StepRevivesNothing` | src/net/src/TimerQueue.cc:86-193 | no step brings back or runs a deleted timer |
| `TimerQueueTheorems.DeadStaysDead` | src/net/src/TimerQueue.cc:86-193 | a deleted timer never runs again in any run, even if its address is reused |
| `TimerQueueTheorems.CancelledNeverRuns` | src/net/src/TimerQueue.cc:95-110 | after cancelling a scheduled timer, no later schedule runs it |
| `TimerQueueTheorems.CancelledInBatchRunsAtMostOnceMore` | src/net/src/TimerQueue.cc:106-160 | a timer cancelled during the batch it belongs to runs at most once more, only if its turn has not come, is never scheduled again and is deleted by the end of the batch |
| `TimerQueueTheorems.UncancelledIsRescheduled` | src/net/src/TimerQueue.cc:112-160 | whatever the callbacks do, a member of the batch that is not cancelled ends in both sets, due one interval after the batch's time, if it repeats, and is deleted otherwise |
| `TimerQueueTheorems.RunAppend` | src/net/src/TimerQueue.cc:86-193 | running one schedule after another is running their concatenation |
| `TimerQueueSchedules.CancelSparesOthers` | src/net/src/TimerQueue.cc:95-110 | cancelling any id, stale or not, leaves every other scheduled timer in memory and in both sets, even one at the same address; an id that is not scheduled changes neither set and no memory |
| `TimerQueueSchedules.StaleCancelChangesNothing` | src/net/src/TimerQueue.cc:99-108 | an id that is not scheduled is at most remembered, and only while callbacks run |
| `TimerQueueSchedules.ScheduledStays` | src/net/src/TimerQueue.cc:86-193 | a scheduled timer stays scheduled, under the same expiration, in every schedule without its own cancellation and without a handleRead at or after that expiration |
| `TimerQueueSchedules.CreatedIsScheduled` | src/net/src/TimerQueue.cc:76-93 | whatever happens between addTimer and its queued addTimerInLoop, the timer asked for is scheduled at the time asked for |
| `TimerQueueSchedules.DueTimersRunOnce` | src/net/src/TimerQueue.cc:112-127 | by the end of a batch every timer that was due when it started has run exactly once in it, whatever the callbacks do |
| `TimerQueueSchedules.AddArmsExactly` | src/net/src/TimerQueue.cc:22-32 | adding the earliest timer arms the timerfd for exactly its expiration, or 100 microseconds from now if that is later; any other addition leaves it |
| `TimerQueueSchedules.FinishArmsExactly` | src/net/src/TimerQueue.cc:162-168 | a batch leaves the timerfd armed for exactly the earliest expiration, or the floor |
| `TimerQueueSchedules.StartReadsTimerfd` | src/net/src/TimerQueue.cc:34-41 | handleRead leaves a fired timerfd unreadable |
| `TimerQueueSchedules.FiresExactlyWhenDue` | src/net/src/TimerQueue.cc:43-53 | once armed, and until armed again or read, the timerfd is readable exactly from its instant on |
| `TimerQueueObject.TimerQueue.constructor` | src/net/src/TimerQueue.cc:57-65 | a new queue is an initial state |
| `TimerQueueObject.TimerQueue.Insert` | src/net/src/TimerQueue.cc:171-193 | takes the step of the transition system and reports whether the timer is the new earliest |
| `TimerQueueObject.TimerQueue.AddTimerInLoop` | src/net/src/TimerQueue.cc:86-93 | takes the step of the transition system |
| `TimerQueueObject.TimerQueue.CancelInLoop` | src/net/src/TimerQueue.cc:95-110 | takes the step of the transition system |
| `TimerQueueObject.TimerQueue.GetExpired` | src/net/src/TimerQueue.cc:129-147 | returns and leaves what the transition system says |
| `TimerQueueObject.TimerQueue.SettleTimer` | src/net/src/TimerQueue.cc:153-159 | one turn of the loop in reset restarts or deletes the timer as the transition system does |
| `TimerQueueObject.TimerQueue.Reset` | src/net/src/TimerQueue.cc:149-169 | the in-place loop and the re-arming are the transition system's |
| `TimerQueueObject.TimerQueue.StartRead` | src/net/src/TimerQueue.cc:112-120 | handleRead up to its callback loop is one step |
| `TimerQueueObject.TimerQueue.CallTimer` | src/net/src/TimerQueue.cc:121-123 | one turn of the loop runs the next member of the batch and then whatever its callback does |
| `TimerQueueObject.TimerQueue.FinishRead` | src/net/src/TimerQueue.cc:124-126 | the end of handleRead is one step |
| `TimerQueueObject.TimerQueue.HandleRead` | src/net/src/TimerQueue.cc:112-127 | handleRead runs exactly the timers due when it starts, each followed by the effects of its own callback, as one schedule of the transition system |
| `Calendar.DateRoundTrip` | src/base/src/Date.cc:9-28 | every civil date from 1 March -4800 on is decoded from its own number |
| `Calendar.NumberRoundTrip` | src/base/src/Date.cc:9-28 | every number from -32044 on decodes to a civil date that has that number |
| `Calendar.RoundTripExactlyFromFirst` | src/base/src/Date.cc:9-28 | a civil date survives the round trip if and only if it is not before 1 March -4800 |
| `Calendar.EarlyNumbersDecodeToNothing` | src/base/src/Date.cc:16-28 | every earlier number decodes to a day of the month below 1 |
| `Calendar.EarlyDatesCollide` | src/base/src/Date.cc:9-14 | 29 February and 1 March of -4800 share a number |
| `Calendar.NextDayIsNextNumber` | src/base/src/Date.cc:9-14 | the civil day after a date has the next number, across month ends, leap days and year ends |
| `Calendar.OrderIsCalendarOrder` | src/base/include/Date.h:49-53 | comparing numbers is comparing civil dates, and equal numbers are equal dates |
| `Calendar.NumbersCountDays` | src/base/src/Date.cc:9-14 | a date has the number n greater exactly if it is n civil days later |
| `Calendar.JulianDayZero` | src/base/src/Date.cc:9-28 | day 0 is 24 November -4713, as Julian day numbers have it |
| `Calendar.DecoderFitsExactly` | src/base/src/Date.cc:16-28 | no 32-bit int overflows in the decoder if and only if the number is at most 536838867 |
| `TimeZones.Table.constructor` | src/base/src/TimeZone.cc:377-380 | a fixed-offset zone has one local time type and no transition |
| `TimeZones.Table.AddLocalTime` | src/base/src/TimeZone.cc:39-41 | appends the type and keeps the table well formed |
| `TimeZones.Table.AddTransition` | src/base/src/TimeZone.cc:43-46 | appends the transition with its local time, or changes nothing when the type does not exist |
| `TimeZones.UpperBound` | src/base/src/TimeZone.cc:280-281 | everything before the position is at most the key and what stands at it is greater |
| `TimeZones.RoundTripExactly` | src/base/src/TimeZone.cc:262-407 | in any table in order, without postTransition an instant comes back to its local second if and only if no transition but the first skips that second |
| `TimeZones.PostRoundTripExactly` | src/base/src/TimeZone.cc:262-407 | with postTransition, if and only if each such transition brings an offset under which an earlier stretch shows the second too |
| `TimeZones.TableRoundTripsExactly` | src/base/src/TimeZone.cc:262-407 | without postTransition a table brings every instant back if and only if no transition skips seconds shown before an earlier one; it then does so with postTransition too |
| `TimeZones.PostTableRoundTripsExactly` | src/base/src/TimeZone.cc:262-407 | with postTransition, if and only if every second that a transition skips and an earlier stretch shows is shown under the offset the transition brings |
| `TimeZones.ReturningOffset` | src/base/src/TimeZone.cc:327-336 | a table that brings every instant back with postTransition but not without |
| `TimeZones.LocalRoundTrip` | src/base/src/TimeZone.cc:262-407 | tables whose stretches are longer than the offset changes at their ends are such: every instant comes back, either way |
| `TimeZones.RepeatedSecond` | src/base/src/TimeZone.cc:338-354 | a repeated second comes from exactly two instants; postTransition gives the later, and its absence the earlier if and only if the transition is neither first nor last |
| `TimeZones.SkippedSecond` | src/base/src/TimeZone.cc:314-336 | a skipped second comes from no instant; without postTransition it maps to the transition or later, with it to before the transition if and only if that is not the first |
| `TimeZones.PlainSecond` | src/base/src/TimeZone.cc:356-357 | every other second comes from exactly one instant, which is the one it maps to |
| `TimeZones.ShortStretchBreaksRoundTrip` | src/base/src/TimeZone.cc:295-358 | a table in order, whose offset drops for ten seconds, on which neither flag brings an instant back |
| `TimeZones.BreakTimeIsCivil` | src/base/src/TimeZone.cc:241-258 | the date is the civil date of floor(t / 86400), for negative times too, and the second is t modulo 60 |
| `TimeZones.DaysAreCountedFromTheEpoch` | src/base/src/Date.cc:31 | day n is n civil days after 1 January 1970, and n days before it for negative times |
| `TimeZones.SameDateAllDay` | src/base/src/TimeZone.cc:243-251 | the date does not change during a day |
| `TimeZones.FromUTCTimeCounts` | src/base/src/TimeZone.cc:413-418 | fromUTCTime counts the days from 1 January 1970 and the seconds of the day |
| `TimeZones.EpochIsZero` | src/base/src/TimeZone.cc:409-418 | second 0 is the midnight 1 January 1970 begins with, both ways |
| `TimeZones.ClockExactly` | src/base/src/TimeZone.cc:234-239 | the hour and minute are those of the time of day exactly before 02:08:00 |
| `TimeZones.DateTimeRoundTripExactly` | src/base/src/TimeZone.cc:234-258 | a DateTime gives back its second if and only if the time of day is before 02:08:00 |
| `LogStreams.NumeralParses` | src/base/src/LogStream.cc:28-62 | every numeral is canonical and parses back to its number, in base 10 and 16 |
| `LogStreams.CanonicalIsNumeral` | src/base/src/LogStream.cc:28-62 | each number has only one canonical numeral |
| `LogStreams.DecimalRoundTrip` | src/base/src/LogStream.cc:28-46 | signed decimal text is canonical and parses back to its value |
| `LogStreams.DecimalIsUnique` | src/base/src/LogStream.cc:28-46 | and is the only canonical text that does |
| `LogStreams.DecimalLength` | src/base/src/LogStream.cc:205-210 | 64 bits, signed or unsigned, the minimum included, take at most 20 characters |
| `LogStreams.HexLength` | src/base/src/LogStream.cc:242-252 | a pointer takes at most 16 digits |
| `LogStreams.WriteDecimalDigits` | src/base/src/LogStream.cc:33-37 | with truncated division and the symmetric digit table the loop leaves the digits in reverse and touches nothing else, for the minimum too |
| `LogStreams.Convert` | src/base/src/LogStream.cc:28-46 | leaves exactly the decimal text and a terminator |
| `LogStreams.SignAndReverse` | src/base/src/LogStream.cc:39-45 | sign, terminator and reversal of what was written |
| `LogStreams.Reverse` | src/base/src/LogStream.cc:43 | the part of the buffer is reversed and the rest unchanged |
| `LogStreams.WriteHexDigits` | src/base/src/LogStream.cc:52-56 | the loop leaves the hexadecimal digits in reverse and touches nothing else |
| `LogStreams.ConvertHex` | src/base/src/LogStream.cc:48-62 | leaves exactly the hexadecimal numeral and a terminator |
| `LogStreams.ConvertPointer` | src/base/src/LogStream.cc:245-248 | leaves exactly 0x and the numeral |
| `LogStreams.FixedBuffer.constructor` | src/base/include/LogStream.h:29 | a new buffer is empty |
| `LogStreams.FixedBuffer.Append` | src/base/include/LogStream.h:33-38 | the contents grow by the line if it leaves a byte free, and are otherwise unchanged |
| `LogStreams.FixedBuffer.Add` | src/base/include/LogStream.h:44 | the write position moves within the buffer |
| `LogStreams.FixedBuffer.Reset` | src/base/include/LogStream.h:45 | the buffer is empty again |
| `LogStreams.FixedBuffer.FormatInteger` | src/base/src/LogStream.cc:204-210 | with 48 bytes to spare the contents grow by exactly the decimal text, terminator inside the buffer; otherwise nothing changes |
| `LogStreams.FixedBuffer.FormatPointer` | src/base/src/LogStream.cc:242-252 | likewise with 0x and the hexadecimal numeral |
| `AsyncLoggings.StepKeeps` | src/base/src/AsyncLogging.cc:27-107 | every append and every step of the logging thread keeps the invariant |
| `AsyncLoggings.EveryRunIsSafe` | src/base/src/AsyncLogging.cc:27-107 | in every interleaving no null buffer is used, both spares are there and empty at each loop head, and every buffer holds whole lines in order |
| `AsyncLoggings.FromTheStart` | src/base/src/AsyncLogging.cc:10-25 | the same from construction on |
| `AsyncLoggings.RecycleStocks` | src/base/src/AsyncLogging.cc:87-105 | recycling always finds enough buffers |
| `AsyncLoggings.StreamIsConserved` | src/base/src/AsyncLogging.cc:27-81 | at every step, batches taken, then buffers_, then currentBuffer_ are all lines shorter than a buffer, in order; at each loop head the file is the batches as far as the trimming leaves them |
| `AsyncLoggings.LossExactly` | src/base/src/AsyncLogging.cc:74-85 | in any state a run can reach, nothing of those lines is lost exactly when every trimmed batch of more than 25 buffers had only empty ones from the third on |
| `AsyncLoggings.NoLossExactly` | src/base/src/AsyncLogging.cc:27-107 | the same at every step of every run from the start, the middle of a batch included |
| `AsyncLoggings.NoOverflowNoLoss` | src/base/src/AsyncLogging.cc:27-107 | so nothing is lost while no trimmed batch exceeds 25 buffers, and, when every line is shorter than a buffer, only so long |
| `AsyncLoggings.HarmlessIsShort` | src/base/src/AsyncLogging.cc:29-39 | when the lines fit, every buffer of a batch but the last holds something, so only a batch of at most 25 buffers is harmless |
| `AsyncLoggings.AllLoggableExactly` | src/base/include/LogStream.h:33-38 | all lines, and all their bytes, are kept exactly when each is shorter than a buffer |
| `AsyncLoggings.NothingLostExactly` | src/base/src/AsyncLogging.cc:27-107 | every byte appended is in the file, the rest of the batch or a buffer, in order, if and only if every line is shorter than a buffer and no trimmed batch exceeded 25 buffers |
| `AsyncLoggings.OverflowLosesBytes` | src/base/src/AsyncLogging.cc:74-81 | twenty-six lines of a buffer's length and one round of the logging thread are a run that loses bytes |
| `AsyncLoggings.RunAppends` | src/base/src/AsyncLogging.cc:27-42 | the lines recorded as appended are those of the schedule, in order |
| `AsyncLoggings.WritingIsWork` | src/base/src/AsyncLogging.cc:83-85 | the writing loop is that many steps of the logging thread |
| `AsyncLoggings.AsyncLogging.constructor` | src/base/src/AsyncLogging.cc:10-25 | construction gives the initial state |
| `AsyncLoggings.AsyncLogging.Append` | src/base/src/AsyncLogging.cc:27-42 | takes the step of the transition system, and notifies the logging thread exactly when a buffer became full |
| `AsyncLoggings.AsyncLogging.SwapBuffers` | src/base/src/AsyncLogging.cc:55-70 | takes the step of the transition system |
| `AsyncLoggings.AsyncLogging.TrimBatch` | src/base/src/AsyncLogging.cc:72-81 | takes the step of the transition system |
| `AsyncLoggings.AsyncLogging.WriteBatch` | src/base/src/AsyncLogging.cc:83-85 | the loop writes every buffer of the batch in order |
| `AsyncLoggings.AsyncLogging.RecycleBuffers` | src/base/src/AsyncLogging.cc:87-105 | takes the step of the transition system |
| `PollPollers.UpdateLinks` | src/net/src/PollPoller.cc:49-79 | an update succeeds exactly for a fresh channel with a free descriptor or a registered one; it keeps the bijection, changes the plain map only at its descriptor, and leaves the channel unhidden without events exactly if it was fresh and asked for none |
| `PollPollers.UpdateExactly` | src/net/src/PollPoller.cc:49-79 | from an orderly state it leads to an orderly state exactly if the channel was registered before or asks for some event |
| `PollPollers.RemoveLinks` | src/net/src/PollPoller.cc:81-105 | a removal succeeds exactly for a registered channel that wants nothing and is hidden; it keeps the bijection and takes exactly its descriptor out of the plain map |
| `PollPollers.RemoveExactly` | src/net/src/PollPoller.cc:81-105 | in an orderly state it succeeds exactly for a registered channel that wants nothing |
| `PollPollers.EveryRunIsSafe` | src/net/src/PollPoller.cc:49-105 | over every list of disciplined calls no assertion fails, the fix-up finds its channel, and slots 16 and up stay in bijection with the channels |
| `PollPollers.RemovableOnceUpdatedAgain` | src/net/src/PollPoller.cc:54-92 | after a first registration without events and any further calls, on this channel and others, it can be removed if and only if it wants no event and has been updated again |
| `PollPollers.NextUpdateRestores` | src/net/src/PollPoller.cc:64-77 | its next update, with events or without, hides or shows it as it should be |
| `PollPollers.RemovedChannelIsSpent` | src/net/src/PollPoller.cc:64-89 | after any later calls, a removed channel can be neither updated nor removed again |
| `PollPollers.EnabledSlotsAreInterests` | src/net/src/PollPoller.cc:70-77 | poll watches exactly the descriptors of channels that want some event, each in one slot with exactly its events |
| `PollPollers.FillActiveExact` | src/net/src/PollPoller.cc:35-47 | the active list is exactly the channels with something to report, each once |
| `PollPollers.PollPoller.constructor` | src/net/src/PollPoller.cc:13 | sixteen fillers and no channel |
| `PollPollers.Channel.constructor` | src/net/src/Channel.cc:16-25 | a fresh channel wants nothing and has index -1 |
| `PollPollers.PollPoller.NewChannel` | src/net/src/Channel.cc:16-25 | a fresh channel changes nothing in the poller |
| `PollPollers.PollPoller.UpdateChannel` | src/net/src/PollPoller.cc:49-79 | for every update that succeeds, the in-place code takes the step of the transition system; an orderly poller stays so exactly if the channel was registered before or asks for some event |
| `PollPollers.PollPoller.RemoveChannel` | src/net/src/PollPoller.cc:81-105 | for every removal that succeeds, the in-place swap, index fix-up and pop take the step of the transition system |
| `PollPollers.PollPoller.FillActiveChannels` | src/net/src/PollPoller.cc:35-47 | the loop returns exactly the active channels and sets their revents |
| `EventLoops.StepKeeps` | src/net/src/EventLoop.cc:83-128 | every step of any thread keeps the invariant |
| `EventLoops.EveryRunKeeps` | src/net/src/EventLoop.cc:83-128 | and so does every interleaving |
| `EventLoops.NeverSleepsOnWork` | src/net/src/EventLoop.cc:104-128 | the loop never sits in poll with a functor or a set quit flag unless the eventfd is readable or a foreign thread is about to write it |
| `EventLoops.ExactlyOnceInOrder` | src/net/src/EventLoop.cc:119-128 | the functors run are a prefix of those queued, and batch and pending are the rest in order |
| `EventLoops.LaterFunctorsWait` | src/net/src/EventLoop.cc:196-210 | until the next swap only functors queued before this one run, and they all do |
| `EventLoops.QuitIsFinal` | src/net/src/EventLoop.cc:83-109 | once quit is set outside poll, the loop never polls again |
| `EventLoops.LoopsUntilQuit` | src/net/src/EventLoop.cc:80-98 | over every run from the start, the loop has ended only if somebody called quit, and its test goes on to poll exactly until somebody has |
| `EventLoops.QuitExactly` | src/net/src/EventLoop.cc:104-109 | quit_ is set exactly when a call of quit has taken effect |
| `EventLoops.QueuedExactly` | src/net/src/EventLoop.cc:119-123 | the functors queued are those of the calls, in their order |
| `EventLoops.EveryFunctorStarts` | src/net/src/EventLoop.cc:83-128 | as long as nobody quits, so many steps of the loop thread, its tests among them and over any number of rounds, start everything that has been queued, whatever is interleaved |
| `EventLoops.OneWakeupForEachCall` | src/net/src/EventLoop.cc:104-128 | every call by another thread makes exactly one wakeup; those not made yet are owed |
| `EventLoops.ReadingQuietsPoll` | src/net/src/EventLoop.cc:188-194 | once read, the eventfd is not reported again before the next wakeup |
| `EventLoops.ReadableIsRead` | src/net/src/EventLoop.cc:85-97 | a readable eventfd wakes poll and is read before the pending functors are run |
| `EventLoops.RoundUsesRank` | src/net/src/EventLoop.cc:83-98 | from one test of quit to the next, whatever is interleaved, each step of the loop thread uses up rank, and only functors queued before the swap give any back |
| `EventLoops.LoopCanMove` | src/net/src/EventLoop.cc:83-98 | the loop thread can move exactly until it is back at the test |
| `EventLoops.RoundStartsEverything` | src/net/src/EventLoop.cc:196-210 | after the swap, one step for each functor and one more bring the loop back to its test with everything started that was pending at the swap |
| `EventLoops.EventLoop.constructor` | src/net/src/EventLoop.cc:76-81 | a loop about to start is an initial state |
| `EventLoops.EventLoop.PushFunctor` | src/net/src/EventLoop.cc:119-128 | queues the functor and tells whether wakeup follows |
| `EventLoops.EventLoop.Wakeup` | src/net/src/EventLoop.cc:180-186 | takes the step of the transition system |
| `EventLoops.EventLoop.SetQuit` | src/net/src/EventLoop.cc:104-109 | takes the step of the transition system |
| `EventLoops.EventLoop.ReadWakeupFd` | src/net/src/EventLoop.cc:188-194 | takes the step of the transition system |
| `EventLoops.EventLoop.SwapFunctors` | src/net/src/EventLoop.cc:200-203 | takes the step of the transition system |
| `EventLoops.EventLoop.RunFunctor` | src/net/src/EventLoop.cc:205-207 | takes the step of the transition system |
| `EventLoops.EventLoop.EndFunctors` | src/net/src/EventLoop.cc:209 | takes the step of the transition system |
| `EventLoops.EventLoop.Perform` | src/net/src/EventLoop.cc:104-128 | one call by another thread, or by a functor on its own loop, is a step of the transition system |
| `EventLoops.EventLoop.PerformAll` | src/net/src/EventLoop.cc:104-128 | and any list of them a schedule |
| `EventLoops.EventLoop.BeginFunctors` | src/net/src/EventLoop.cc:198 | takes the step of the transition system |
| `EventLoops.EventLoop.RunFunctorAmid` | src/net/src/EventLoop.cc:205-207 | a functor, with all that happens while it runs, takes exactly itself out of the batch |
| `EventLoops.EventLoop.DoPendingFunctors` | src/net/src/EventLoop.cc:196-210 | while functors and other threads queue, quit and wake, exactly what was pending at the swap is run, in order, and everything queued later is still pending, in order |
| `BoundedBlockingQueues.EveryRunKeeps` | src/base/include/BoundedBlockQueue.h:32-63 | every interleaving keeps the bound, the wake-up accounting and the conservation of items |
| `BoundedBlockingQueues.QueueIsSafe` | src/base/include/BoundedBlockQueue.h:32-63 | with barging and spurious wake-ups, for any numbers of threads: bound, first in first out exactly once, and a waiting thread implies enough signalled ones |
| `BoundedBlockingQueues.NotAllStuck` | src/base/include/BoundedBlockQueue.h:32-63 | with capacity above zero producers and consumers are never all asleep together |
| `BoundedBlockingQueues.SleepingBesideAnItem` | src/base/include/BoundedBlockQueue.h:53-63 | a consumer asleep beside an item implies a signalled one that can take it next |
| `BoundedBlockingQueues.PutExactly` | src/base/include/BoundedBlockQueue.h:32-41 | put returns with its item last in the queue, having woken one consumer, exactly when there is room, and waits otherwise |
| `BoundedBlockingQueues.GetExactly` | src/base/include/BoundedBlockQueue.h:53-63 | get returns the front, having woken one producer, exactly when there is one, and waits otherwise |
| `BoundedBlockingQueues.FrontIsDelivered` | src/base/include/BoundedBlockQueue.h:53-63 | whatever is interleaved, the first consumer to get the mutex takes the front |
| `BoundedBlockingQueues.RoomIsUsed` | src/base/include/BoundedBlockQueue.h:32-41 | as long as there is room, the first producer to get the mutex leaves its item |
| `BoundedBlockingQueues.OfferedExactly` | src/base/include/BoundedBlockQueue.h:32-41 | the items offered are those passed to put |
| `BoundedBlockingQueues.OneItemForEachGet` | src/base/include/BoundedBlockQueue.h:53-63 | each call of get has returned one item or is still inside |
| `BoundedBlockingQueues.SpuriousWakeup` | src/base/include/BoundedBlockQueue.h:34-57 | a thread woken for nothing goes back to sleep and nothing has changed |
| `BoundedBlockingQueues.BoundedBlockingQueue.constructor` | src/base/include/BoundedBlockQueue.h:27-30 | a new queue is an initial state |
| `BoundedBlockingQueues.BoundedBlockingQueue.PutOnce` | src/base/include/BoundedBlockQueue.h:32-41 | one turn of put is the critical section of the transition system |
| `BoundedBlockingQueues.BoundedBlockingQueue.GetOnce` | src/base/include/BoundedBlockQueue.h:53-63 | one turn of get is the critical section of the transition system |
| `ThreadPools.EveryRunKeeps` | src/base/src/ThreadPool.cc:40-101 | every interleaving keeps the invariant and loses no worker |
| `ThreadPools.PoolIsSafe` | src/base/src/ThreadPool.cc:57-101 | the bound holds, accepted tasks are taken at most once in order, every submitted one is accepted, still with its blocked submitter or, only after stop, refused, and no wake-up is lost while the pool runs |
| `ThreadPools.NoWorkerLeavesARunningPool` | src/base/src/ThreadPool.cc:98-103 | over every run from the start, no worker has left its loop while the pool runs |
| `ThreadPools.ExitsOnlyByTheTest` | src/base/src/ThreadPool.cc:98 | a worker leaves only by the test of running_ and only after stop |
| `ThreadPools.RunningWorkersMove` | src/base/src/ThreadPool.cc:72-103 | while the pool runs, some worker can move on unless each sleeps or executes; beside a task, unless each executes |
| `ThreadPools.FrontIsTaken` | src/base/src/ThreadPool.cc:72-103 | while the pool runs and whatever is interleaved, a bounded number of worker steps takes the front task |
| `ThreadPools.SubmitExactly` | src/base/src/ThreadPool.cc:61-68 | a submitted task is refused once the pool has stopped, else waits with its submitter exactly when the queue is full, else is the last of the queue |
| `ThreadPools.OfferedExactly` | src/base/src/ThreadPool.cc:57-70 | the tasks offered are those passed to run |
| `ThreadPools.NothingAcceptedAfterStop` | src/base/src/ThreadPool.cc:62-65 | after stop no task is accepted: each later one and each of a blocked submitter is refused or still with its thread |
| `ThreadPools.SpuriousWakeup` | src/base/src/ThreadPool.cc:62-76 | a thread woken for nothing goes back to sleep and nothing has changed |
| `ThreadPools.NobodyWaitsAfterStop` | src/base/src/ThreadPool.cc:40-50 | after stop's critical section no worker or submitter waits or ever waits again |
| `ThreadPools.WorkersDrain` | src/base/src/ThreadPool.cc:93-103 | in any schedule after stop the effective worker steps are bounded by the rank they use up |
| `ThreadPools.SomeWorkerCanMove` | src/base/src/ThreadPool.cc:93-103 | after stop, some worker can move exactly until all have exited, and all have exited exactly at rank 0 |
| `ThreadPools.ThreadPool.constructor` | src/base/src/ThreadPool.cc:25-38 | a started pool is an initial state |
| `ThreadPools.ThreadPool.RunOnce` | src/base/src/ThreadPool.cc:61-68 | one turn of run is the critical section of the transition system |
| `ThreadPools.ThreadPool.TakeOnce` | src/base/src/ThreadPool.cc:72-86 | one turn of take is the critical section of the transition system |
| `ThreadPools.ThreadPool.StopPool` | src/base/src/ThreadPool.cc:40-46 | stop's critical section is the step of the transition system |
| `NetworkOrder.EncodeRoundTrip` | src/net/include/Endian.h:15-20 | every signed value of every width, the minimum included, reads back as written |
| `NetworkOrder.DecodeRoundTrip` | src/net/include/Endian.h:15-20 | every byte string is the encoding of the value it reads as |
| `NetworkOrder.ByteOfEncoding` | src/net/include/Endian.h:15-20 | byte i has the weight 256 to the power of the bytes after it: the most significant comes first |
| `NetworkOrder.RecordRoundTrip` | src/net/include/Buffer.h:161-246 | integers of mixed widths written in a row are read back in order, whatever follows them |
| `Buffers.Buffer.constructor` | src/net/include/Buffer.h:38-47 | a new buffer is empty with 8 bytes in front |
| `Buffers.Buffer.Retrieve` | src/net/include/Buffer.h:87-94 | drops bytes off the front; emptying restores the 8 bytes in front |
| `Buffers.Buffer.RetrieveAll` | src/net/include/Buffer.h:107-110 | empties the buffer |
| `Buffers.Buffer.RetrieveAsString` | src/net/include/Buffer.h:114-119 | what is returned and what is left make up the old content |
| `Buffers.Buffer.CopyDown` | src/net/include/Buffer.h:306 | copying byte by byte from the front to a lower, overlapping place moves exactly the old bytes |
| `Buffers.Buffer.MakeSpace` | src/net/include/Buffer.h:298-312 | its assertion holds, the content is kept, there is room, and growth stays within readable + 2 len + 7 |
| `Buffers.Buffer.EnsureWritableBytes` | src/net/include/Buffer.h:137-142 | room without change of content; nothing at all changes if there was room |
| `Buffers.Buffer.Append` | src/net/include/Buffer.h:127-131 | the content grows at the end by exactly the data, and the size by no more than the bound |
| `Buffers.Buffer.HasWritten` | src/net/include/Buffer.h:148-151 | the writer moves within the buffer |
| `Buffers.Buffer.Unwrite` | src/net/include/Buffer.h:153-156 | drops bytes off the end |
| `Buffers.Buffer.Prepend` | src/net/include/Buffer.h:271-276 | the content grows at the front by exactly the data |
| `Buffers.Buffer.Swap` | src/net/include/Buffer.h:49-53 | the two buffers change places |
| `Buffers.Buffer.Shrink` | src/net/include/Buffer.h:278-284 | the content is kept, with the reserve behind and 8 bytes in front |
| `Buffers.Buffer.ReadFd` | src/net/src/Buffer.cc:16-37 | the content grows by exactly what was read, through the free space and the extra area; a failed read changes nothing |
| `Buffers.Buffer.AppendInt` | src/net/include/Buffer.h:161-179 | appends the value's bytes in network order |
| `Buffers.Buffer.PrependInt` | src/net/include/Buffer.h:251-269 | prepends the value's bytes in network order |
| `Buffers.Buffer.PeekInt` | src/net/include/Buffer.h:217-246 | the value of the first bytes |
| `Buffers.Buffer.ReadInt` | src/net/include/Buffer.h:185-211 | the value of the first bytes, which are dropped |
| `Buffers.Buffer.ReadInts` | src/net/include/Buffer.h:185-246 | reading integers of a list of widths off the buffer gives the values the byte string stands for and leaves the rest |
| `Buffers.Buffer.Execute` | src/net/include/Buffer.h:87-156 | each operation acts on the content as the byte queue's does |
| `Buffers.Buffer.ExecuteAll` | src/net/include/Buffer.h:87-312 | every sequence of operations the byte queue allows runs without a failed assertion and leaves the queue's bytes |
| `Buffers.FramedRecordRoundTrip` | src/net/include/Buffer.h:161-276 | a record with its length prepended, and more bytes behind, is read back as length, fields and rest |
| `TcpConnections.StepKeeps` | src/net/src/TcpConnection.cc:62-276 | every call on the loop's thread keeps the invariant, whatever the kernel answers |
| `TcpConnections.EveryRunKeeps` | src/net/src/TcpConnection.cc:62-276 | and so does every sequence of calls |
| `TcpConnections.FaultFreeExactly` | src/net/src/TcpConnection.cc:205-276 | a schedule runs without a failed assertion if and only if it establishes once and first, reports a close only while open, and destroys once, closed or connected; data, kernel answers and queued output make no difference |
| `TcpConnections.WritingExactlyWhilePending` | src/net/src/TcpConnection.cc:116-122 | while not disconnected, write interest is on exactly when the output buffer has bytes |
| `TcpConnections.NothingReordered` | src/net/src/TcpConnection.cc:87-126 | the bytes the socket took, then the output buffer, are one prefix of each message in the order of the calls |
| `TcpConnections.HandleWriteExactly` | src/net/src/TcpConnection.cc:240-263 | while open, a write that takes n pending bytes moves exactly the first n to the socket; one that takes none changes nothing |
| `TcpConnections.WritesTakeInOrder` | src/net/src/TcpConnection.cc:240-263 | over any schedule that neither sends nor closes, the writes take the pending bytes in order and none twice |
| `TcpConnections.WritesEmptyTheBuffer` | src/net/src/TcpConnection.cc:246-248 | writes whose counts add up to what is pending empty the buffer |
| `TcpConnections.DirectWriteExactly` | src/net/src/TcpConnection.cc:96-99 | sendInLoop tries the socket exactly when nothing is pending, and what the socket takes is written |
| `TcpConnections.NothingSentAfterShutdown` | src/net/src/TcpConnection.cc:62-82 | once shutdown or forceClose has been called nothing more is sent, whatever is called later |
| `TcpConnections.MarkIsSet` | src/net/include/TcpConnection.h:55-58 | the high-water mark and its callback are those set last |
| `TcpConnections.HalfCloseExactly` | src/net/src/TcpConnection.cc:128-140 | a step half-closes exactly if it is a shutdown with nothing pending or the write that empties the buffer of a closing connection; it is the first and leaves no output |
| `TcpConnections.ShutdownWaitsForOutput` | src/net/src/TcpConnection.cc:240-255 | a connection asked to shut down has been half-closed exactly when its output has drained |
| `TcpConnections.ShutdownHalfCloses` | src/net/src/TcpConnection.cc:128-140 | after shutdown and any later calls, until the connection is closed, the half-close has happened exactly if nothing is pending |
| `TcpConnections.NothingAfterHalfClose` | src/net/src/TcpConnection.cc:128-263 | after the half-close no run writes a byte or half-closes again |
| `TcpConnections.ClosedIsFinal` | src/net/src/TcpConnection.cc:87-276 | a disconnected connection stays so and writes nothing |
| `TcpConnections.MessagesGrow` | src/net/src/TcpConnection.cc:87-126 | what was written or queued of a message never changes in any later run |
| `TcpConnections.KeptWholeExactly` | src/net/src/TcpConnection.cc:96-125 | after any later run, the message stands whole in the bytes accepted and still queued, between those of earlier and later messages, if and only if it was taken at once or its remainder crossed the mark of a callback and the write was not fatal; otherwise only what was taken at once stands there |
| `TcpConnections.NothingQueuedWithoutCallback` | src/net/src/TcpConnection.cc:115-125 | without a high-water callback no run ever queues a byte |
| `TcpConnections.ShortWriteLosesTheRest` | src/net/src/TcpConnection.cc:115-125 | a connection as created drops the remainder of a message after a short write |
| `TcpConnections.TcpConnection.constructor` | src/net/src/TcpConnection.cc:23-41 | a new connection is the initial state |
| `TcpConnections.TcpConnection.ConnectEstablished` | src/net/src/TcpConnection.cc:205-213 | takes the step of the transition system |
| `TcpConnections.TcpConnection.SetHighWaterMarkCallback` | src/net/include/TcpConnection.h:55-58 | takes the step of the transition system |
| `TcpConnections.TcpConnection.Send` | src/net/src/TcpConnection.cc:62-70 | takes the step of the transition system |
| `TcpConnections.TcpConnection.WriteDirectly` | src/net/src/TcpConnection.cc:96-112 | what the first write takes and whether its error is fatal, and nothing is written when something is ahead |
| `TcpConnections.TcpConnection.SendInLoop` | src/net/src/TcpConnection.cc:87-126 | the direct write and the queueing branch, on the real buffer, are the step of the transition system |
| `TcpConnections.TcpConnection.QueueRemainder` | src/net/src/TcpConnection.cc:120-123 | the remainder is at the end of the output buffer and write interest is on |
| `TcpConnections.TcpConnection.HandleWrite` | src/net/src/TcpConnection.cc:240-263 | takes the step of the transition system |
| `TcpConnections.TcpConnection.Shutdown` | src/net/src/TcpConnection.cc:128-133 | takes the step of the transition system |
| `TcpConnections.TcpConnection.ShutdownInLoop` | src/net/src/TcpConnection.cc:135-140 | half-closes exactly when not writing |
| `TcpConnections.TcpConnection.ForceClose` | src/net/src/TcpConnection.cc:142-147 | takes the step of the transition system |
| `TcpConnections.TcpConnection.ForceCloseInLoop` | src/net/src/TcpConnection.cc:157-162 | takes the step of the transition system |
| `TcpConnections.TcpConnection.HandleClose` | src/net/src/TcpConnection.cc:265-276 | takes the step of the transition system |
| `TcpConnections.TcpConnection.ConnectDestroyed` | src/net/src/TcpConnection.cc:215-223 | takes the step of the transition system |

## Left out

Throughout, integers are unbounded except where a narrowing is written out (`Int8`, `DecoderFits`), and
I/O results, clocks, allocation and scheduling are inputs of the steps.

- Timers: one clock that never runs backwards and starts after the epoch; int64 overflow of time
  stamps; the truncation of a `double` interval to microseconds happens before the model; the
  destructor; calls that still travel from another thread to the loop (`Create` and `Add` are separate
  steps, so an addition may be delayed).
- Dates: `toIsoString`, construction from `struct tm`; the encoder's 32-bit range.
- Time zones: reading TZif files; abbreviations; a leap-second table. The hour and minute of
  `BreakTime` from 02:08:00 on are the narrowed ones (`ClockExactly`).
- `LogStream`: floating point, `Fmt`, `formatSI`, `formatIEC`, cookies and `debugString`.
- AsyncLoggings.AsyncLogging.SwapBuffers: the timed wait before the swap is modelled as a swap at any
  time, because it may end for any reason; what is still buffered when the logger stops stays unwritten.
- AsyncLoggings.AsyncLogging.Append: buffers behind a `unique_ptr` are values, because nothing else can
  refer to them; the reuse of their memory is not captured.
- `EPollPoller`: its index bookkeeping never marks a channel as added, so its intended states do not
  occur.
- PollPollers.PollPoller.UpdateChannel: `events` is not narrowed to 16 bits; every event mask the
  library uses fits.
- PollPollers.FillActiveExact: the kernel is taken to report nothing on the sixteen filler slots and on
  hidden ones.
- Event loop: functors queued by the loop's own thread, and quit, before `loop()` starts, where the
  code promises no wake-up; overflow of the eventfd counter; timeouts of poll are a return at any time.
- EventLoops.RoundStartsEverything: a functor that never returns, or never stops queueing, keeps the loop
  thread from taking its next step; the lemma counts the steps it does take.
- Condition variables: threads are counted, not named, so fairness between them is not modelled.
- Thread pool: a maximum size of 0 (nothing is ever accepted then); a pool without threads; empty
  `Task`s; exceptions; the `try_lock` assertion in `isFull`.
- Buffers.Buffer.Execute: the byte queue's `room` is what can surely be prepended after any history,
  at most 8; `Prepend` itself needs only what the buffer has in front.
- Buffers.Buffer.ExecuteAll: a read brings at most 65536 bytes, what `readFd` can take in any state;
  `Buffers.Buffer.ReadFd` itself is proved for all the space it offers.
- Buffer: `findCRLF`, `findEOL`, `internalCapacity`; which part of a read fails.
- TcpConnection: calls from other threads, reading (`handleRead` appears as `HandleClose` when the peer
  closes), `startRead` and `stopRead`, `forceCloseWithDelay`, and the user callbacks, whose calls are
  later steps.
- TcpConnections.TcpConnection.Send: only the branch for calls on the loop's own thread.
- TcpConnections.TcpConnection.HandleClose: needs an open connection, as its assertion does; poll(2)
  reporting a hang-up twice for one connection is a `Fault` of the transition system.
- `EventLoopThreadPool`, `Connector`, `Acceptor`, `TcpClient`, `TcpServer`, `InetAddress`, `Socket`,
  `Thread`, `FileUtil`, `Logging`, `ProcessInfo`, `StringPiece`: wiring, library or system calls.
