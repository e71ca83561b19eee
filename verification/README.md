# Verification of mengSen's logging, time and event-loop core

This project models six stateful or arithmetic components of the mengSen C++
library in Dafny and proves what they promise. Each component has a specification
(states, steps and pure functions), lemmas about it over every input, run or
reachable state, and, where the C++ code updates objects in place, a class whose
methods are proved against that specification.

- **Log queues** (`QueueBuffer*`, `RingBuffer*`): the guaranteed multi-producer
  queue and the lossy ring buffer as interleavings of atomic steps of any number of
  producers and one consumer. The capacity of a buffer is a parameter; a run is any
  sequence of threads taking their next step.
- **Log lines** (`LogCodec`, `LineGrowth`, `LogLine`): the tagged binary form of a
  line, its decoder, and the buffer that grows under it.
- **Calendar and time zones** (`Calendar`, `UtcTime`, `TimeZone`): the closed-form
  Julian day conversions against plain day counting, broken-down UTC time, and local
  time over a table of transitions.
- **Timers** (`TimerQueue*`): two indexes over the same timers, callbacks that add and
  cancel timers, addresses reused by the allocator, ids told apart by sequence number.
- **Asynchronous logging** (`AsyncLogging*`, `BufferPool`): front ends and a back end
  exchanging owned buffers under a lock.
- **Event loop** (`EventLoop*`): pending functors, the eventfd counter and the flag that
  decides who must write it.
- **Byte buffer and number formatting** (`NetBuffer`, `BufferLayout`, `BigEndian`,
  `Numerals`, `LogStream`).

`Machine` holds C's truncating division and casts, `Sequences` a few functions on
sequences of sequences, `Threads` what the models of the two queues share, `Fields` a
reader that takes printed texts apart at their separators.

## How the concurrent code is modelled

A state is a value: the shared variables, one program counter per thread, and history
fields that no step reads to decide what the code does. `Apply` performs one atomic
operation, `Exec` a whole schedule, and a `fault` flag records a failing assert or an
access the code must not make. The results quantify over every schedule. What callers
have asked for (lines pushed or appended, functors queued, timers cancelled) is read off the
schedule itself, and the histories kept by the steps are shown to agree with it. The `*Object`
modules hold the classes: real fields, one method per access to shared state (or per
critical section), and the calls users make composed of them; each method's contract
says that the object's abstract state makes exactly the corresponding step. All steps
are sequentially consistent.

## Where code and documentation differ

- `Date.h` gives `year` the range 1900 to 2500; the conversion is exact for every date
  from 1 March 4801 BC up to the limit of 32-bit integers, and that is what is proved.
- `weekDay` is documented as 0 to 6; for day numbers below -1 it is negative on six days
  out of seven (`Calendar.WeekDayRange`).
- `tm_yday` is the day of the year except in the year -4800 (`UtcTime.DayOfYearExactly`).
- `fromLocalTime` does not invert `toLocalTime` for every zone. With one-hour daylight saving
  it does, at every supported instant, exactly if every DST spell begun by a transition ends
  more than an hour after the last transition before its end, and every standard spell between
  two DST spells lasts at least an hour (`TimeZone.LocalRoundTripExactly`).
- A functor queued by the loop thread before `loop()` writes no eventfd: the loop enters poll
  with it pending and wakes only for what had been signalled anyway
  (`EventLoop.QueuedOutside`, `EventLoop.SleptOnExactly`). A `quit()` before `loop()` is
  forgotten (`EventLoop.QuitBeforeLoopIsForgotten`).
- An expiration that wraps to zero when a repeating timer is restarted counts as invalid and
  is not armed (`TimerQueueProperties.EndReadArmsExactly`).
- A `std::string` with an embedded terminator is cut there and its remaining bytes are decoded
  as tags (`LogCodec.TextIsCutAtTerminator`). Such a text at the end of a line is never printed
  as given (`LogCodec.TextRoundTripExactly`); inside a line, what follows may by chance make up
  for it (`LogCodec.LaterArgumentsCanRescue`).

## Model

| member | source | states |
|---|---|---|
| `QueueBufferInvariant.EveryRun` | example/log/Log.cpp:500-573 | every interleaving of any number of producers with the consumer keeps the protocol invariant |
| `QueueBufferInvariant.StepKeeps` | example/log/Log.cpp:448-456 | the next atomic operation of any producer keeps the invariant, whatever the others are doing |
| `QueueBufferInvariant.ReadKeeps` | example/log/Log.cpp:525-545 | so does the next atomic operation of the consumer |
| `QueueBufferInvariant.NoSwitchWhileHeld` | example/log/Log.cpp:450-455 | a producer that still has to count its slot blocks the switch to the next buffer |
| `QueueBufferProperties.NoFault` | example/log/Log.cpp:464-471 | no run touches a slot outside a buffer, an unwritten or already moved line, or pops an empty queue |
| `QueueBufferProperties.ClaimsInOrder` | example/log/Log.cpp:502-505 | tickets are claimed in strictly increasing (buffer, slot) order: no pair twice, none skipped |
| `QueueBufferProperties.WritesWhereItClaimed` | example/log/Log.cpp:505-508 | although the buffer pointer is loaded after the ticket, a producer writes into the buffer its ticket was issued for |
| `QueueBufferProperties.SlotsAreExclusive` | example/log/Log.cpp:448-471 | no two producers ever write one slot, and the consumer never moves a line out of a slot a producer is writing |
| `QueueBufferProperties.SomebodyWorks` | example/log/Log.cpp:512-516 | whenever the tickets are used up, a producer that is not spinning will reopen the counter or must finish first |
| `QueueBufferProperties.TicketBound` | example/log/Log.cpp:502-503 | the ticket counter never exceeds size + producers - 1 |
| `QueueBufferProperties.DeliversInTicketOrder` | example/log/Log.cpp:525-545 | the lines delivered are exactly those of the first tickets, in (buffer, ticket) order |
| `QueueBufferProperties.DeliversInProgramOrder` | example/log/Log.cpp:500-545 | of the lines a producer gives to push(), read off the schedule, those delivered are a prefix, in its own program order |
| `QueueBufferProperties.NothingIsLost` | example/log/Log.cpp:500-573 | in every run the lines each producer has given to push(), read off the schedule, are its claims and the line still without a ticket, and each claimed line is delivered, published intact in a queued buffer, or in the hands of the producer about to publish it there |
| `QueueBufferProperties.NothingIsLostAtRest` | example/log/Log.cpp:500-573 | in particular, with no push under way every line given to push() has been delivered or waits published in a queued buffer |
| `QueueBufferProperties.HistoryIsTheCalls` | example/log/Log.cpp:500-518 | the history of pushes is the sequence of the effective push() calls of the schedule, producer by producer |
| `QueueBufferProperties.HistoryGrows` | example/log/Log.cpp:464-471 | deliveries and claims are never revised by a later step |
| `QueueBufferProperties.LaterRun` | example/log/Log.cpp:464-471 | what has been delivered stays a prefix of what is delivered in any continuation |
| `QueueBufferObject.LogQueue.constructor` | test/testLog/NanoLog.cpp:482-488 | the initial state: one buffer installed and queued, no buffer being read |
| `QueueBufferObject.LogQueue.FetchAddWriteIndex` | example/log/Log.cpp:502-505 | the atomic ticket draw is the corresponding step of the protocol |
| `QueueBufferObject.LogQueue.ConstructItem` | example/log/Log.cpp:449-450 | the placement of the line into the claimed slot |
| `QueueBufferObject.LogQueue.StoreWriteState` | example/log/Log.cpp:451-452 | publishing the slot |
| `QueueBufferObject.LogQueue.FetchAddWriteCount` | example/log/Log.cpp:453-455 | counting the completed write; true exactly for the write that completes the buffer |
| `QueueBufferObject.LogQueue.SetupNextWriteBuffer` | example/log/Log.cpp:553-563 | with the spin lock free: a new buffer is installed and queued and the counter reopened |
| `QueueBufferObject.LogQueue.Push` | example/log/Log.cpp:500-518 | an undisturbed push adds the line to the end of the waiting lines |
| `QueueBufferObject.LogQueue.TryPop` | example/log/Log.cpp:525-545 | an undisturbed try_pop delivers the first waiting line, and fails only when none waits |
| `RingBufferInvariant.EveryRun` | example/log/Log.cpp:638-664 | every interleaving keeps lock ownership, written marks and the conservation of lines |
| `RingBufferInvariant.ItemsAreExclusive` | example/log/Log.cpp:643-646 | two threads are never in the critical section of one item |
| `RingBufferInvariant.LinesAreConserved` | example/log/Log.cpp:645-663 | as multisets: lines stored = lines delivered + lines overwritten unread + lines in the ring |
| `RingBufferInvariant.PushesBalance` | example/log/Log.cpp:638-664 | between critical sections: completed pushes = pops + overwritten unread lines + occupied items |
| `RingBufferCalls.TicketsFollowCalls` | example/log/Log.cpp:638-642 | the lines a producer has given to push(), read off the schedule, are those of its tickets, in program order, and the one still without a ticket |
| `RingBufferCalls.CallsAreConserved` | example/log/Log.cpp:638-664 | and, as multisets, the lines of all tickets are those delivered, overwritten unread, in the ring, or in the hands of producers on their way to it: no call vanishes or counts twice |
| `RingBufferFifo.RunFifo` | example/log/Log.cpp:640-663 | in a run that stays within capacity each item holds a line exactly for the stored, undelivered ticket of its residue |
| `RingBufferFifo.DeliversInTicketOrder` | example/log/Log.cpp:654-664 | within capacity delivery is exact first-in first-out by ticket and nothing is overwritten |
| `RingBufferFifo.OverfullLosesALine` | example/log/Log.cpp:645-646 | beyond capacity the first of two lines pushed into a ring of one item is lost |
| `RingBufferObject.LogRing.Push` | example/log/Log.cpp:638-647 | an undisturbed push replaces whatever the item of its ticket held |
| `RingBufferObject.LogRing.TryPop` | example/log/Log.cpp:654-664 | an undisturbed try_pop delivers the line at the read index if it is marked written, and otherwise changes nothing |
| `LogCodec.StoreLoad` | example/log/Log.cpp:163-166 | a value stored into raw memory is loaded back |
| `LogCodec.ShowStored` | example/log/Log.cpp:230-250 | an argument of fixed width prints after storage as it would have before |
| `LogCodec.StringifyOne` | example/log/Log.cpp:328-353 | decoding one encoded argument prints it and continues right behind it |
| `LogCodec.DecodingInvertsEncoding` | example/log/Log.cpp:162-221 | for any arguments without embedded terminators, stringify prints the concatenation of their renderings and stops exactly at the end |
| `LogCodec.HeaderRoundTrip` | example/log/Log.cpp:99-108 | the six untagged header fields are read back as written |
| `LogCodec.LineRoundTrip` | example/log/Log.cpp:272-319 | a whole line prints as if header and arguments had been printed directly |
| `LogCodec.LineReadsBack` | example/log/Log.cpp:305-312 | a reader that splits a printed line at its separators finds time, thread id, level, message, file, function and line, each under its own name, whatever the message contains, if the file and function names contain no blank |
| `LogCodec.LevelReadsBack` | example/log/Log.cpp:65-88 | the printed names of the nine levels tell them apart |
| `LogCodec.RenderedIntegerReadsBack` | example/log/Log.cpp:328-353 | an integer argument prints as a text that reads back as its value |
| `LogCodec.TextIsCutAtTerminator` | example/log/Log.cpp:260-266 | a text with an embedded terminator is cut there and its remaining bytes are decoded as tags |
| `LogCodec.TextConsumedExactly` | example/log/Log.cpp:259-266 | the first terminator the decoder meets is the one the encoder added if and only if the text contains none |
| `LogCodec.TextRoundTripExactly` | example/log/Log.cpp:188-200 | a text at the end of a line is printed as it was given if and only if it has no embedded terminator, for printers that print doubles and literals without one |
| `LogCodec.PrintedNuls` | example/log/Log.cpp:328-355 | whatever bytes are decoded, each terminator printed has used up two zero bytes |
| `LogCodec.LaterArgumentsCanRescue` | example/log/Log.cpp:328-355 | arguments that follow can make up for an embedded terminator, so for whole lines the condition is sufficient only |
| `LogCodec.EmbeddedTerminatorOverruns` | example/log/Log.cpp:357-360 | a std::string ending in a terminator makes the decoder read past the end |
| `LineGrowth.UsedWithinCapacity` | example/log/Log.cpp:130-155 | across any resizes the bytes used stay within the capacity and add up to header and arguments |
| `LineGrowth.DoublingCopiesLessThanCapacity` | test/testLog/NanoLog.cpp:224-245 | with doubling, all resizes together copy fewer bytes than the final capacity |
| `LineGrowth.ExactGrowthIsQuadratic` | example/log/Log.cpp:147-153 | without doubling, k further arguments of n bytes copy everything k times: k*used + k(k-1)n/2 bytes |
| `LogLine.LogLine.constructor` | example/log/Log.cpp:99-108 | the line starts with its encoded header in the stack buffer |
| `LogLine.LogLine.EncodeRaw` | example/log/Log.cpp:162-166 | bytes are stored behind the used ones, which stay |
| `LogLine.LogLine.ResizeBufferIfNeeded` | example/log/Log.cpp:130-155 | afterwards the bytes fit; the encoded line is unchanged; the new size is the one of the growth policy |
| `LogLine.LogLine.EncodeFixed` | example/log/Log.cpp:175-180 | the line becomes the encoding of its arguments plus this one |
| `LogLine.LogLine.EncodeText` | example/log/Log.cpp:188-221 | likewise for a text; an empty text encodes nothing |
| `LogLine.LogLine.DecodeText` | example/log/Log.cpp:259-266 | the loop prints up to the first terminator and returns its position |
| `LogLine.LogLine.StringifyFrom` | example/log/Log.cpp:328-355 | the recursive decoder computes the specified outcome for any bytes |
| `LogLine.LogLine.Stringify` | example/log/Log.cpp:272-319 | a line of proper arguments prints exactly the text LogCodec.LineReadsBack is about: its header, its renderings and its trailer |
| `Calendar.DecodeEncode` | mengSen/base/Date.cpp:23-43 | every calendar date from 1 March 4801 BC on survives encoding and decoding |
| `Calendar.RoundTripExactly` | mengSen/base/Date.cpp:23-43 | a calendar date survives the round trip if and only if year + 4800 - a >= 0 |
| `Calendar.DecodesToValidDate` | mengSen/base/Date.cpp:31-43 | a day number decodes to a valid date that maps back to it if and only if it is at least -32044 |
| `Calendar.NextDayAddsOne` | mengSen/base/Date.cpp:23-29 | stepping to the next calendar day always adds exactly one |
| `Calendar.CountDaysAdds` | mengSen/base/Date.cpp:23-29 | counting n calendar days one by one adds n |
| `Calendar.DecodeIsDayCounting` | mengSen/base/Date.cpp:31-43 | decoding a day number is counting days from 1 March 4801 BC |
| `Calendar.DayNumberOrder` | mengSen/base/Date.h:87-93 | the order of day numbers is the lexicographic order of dates, both ways |
| `Calendar.DecoderRange` | mengSen/base/Date.cpp:31-43 | no intermediate of the decoder leaves 32 bits if and only if julianDayNumber + 32044 <= 536870911 |
| `Calendar.EncoderRange` | mengSen/base/Date.cpp:23-29 | no intermediate of the encoder leaves 32 bits if and only if the date is not after 15 December 5874689 |
| `Calendar.WeekDayRange` | mengSen/base/Date.h:78-79 | weekDay is in 0..6 except for the day numbers below -1 that are not congruent to -1 modulo 7 |
| `Calendar.WeekDaysCycle` | mengSen/base/Date.h:78-79 | weekdays follow the calendar with period 7 from day number 0 on |
| `UtcTime.EpochDay` | mengSen/base/Date.cpp:45-45 | the constant of 1970-01-01 and its weekday |
| `UtcTime.FillHMS` | mengSen/base/TimeZone.cpp:66-71 | hours, minutes and seconds of a second count |
| `UtcTime.ToUtcTime` | mengSen/base/TimeZone.cpp:268-291 | truncating division, negative correction and casts compute the floor-division meaning |
| `UtcTime.FromUtcTime` | mengSen/base/TimeZone.cpp:293-304 | for calendar fields: the instant with that date as its day and that clock reading as its second of the day, and the only one that toUtcTime renders as these fields |
| `UtcTime.OnlyInstant` | mengSen/base/TimeZone.cpp:293-304 | the same as a lemma about the closed form |
| `UtcTime.FieldsOverflowExactly` | mengSen/base/TimeZone.cpp:298-303 | for calendar fields no int overflows on the way back if and only if the date is not after 15 December 5874689 |
| `UtcTime.SupportedFieldsFit` | mengSen/base/TimeZone.cpp:298-303 | in particular for the fields of every supported instant |
| `UtcTime.SupportedNoOverflow` | mengSen/base/TimeZone.cpp:272-279 | no int overflows in the supported range |
| `UtcTime.UtcRoundTrip` | mengSen/base/TimeZone.cpp:268-304 | fromUtcTime(toUtcTime(t)) == t for every supported t, negative included |
| `UtcTime.FieldsRoundTrip` | mengSen/base/TimeZone.cpp:268-304 | and the other way round, for all calendar fields in range |
| `UtcTime.UtcFieldsInRange` | mengSen/base/TimeZone.cpp:278-284 | all fields are in calendar range if and only if the day is not before 1 March 4801 BC |
| `UtcTime.DayOfYearExactly` | mengSen/base/TimeZone.cpp:286-289 | tm_yday is the ordinal day of the year if and only if the year is not -4800 |
| `TimeZone.LowerBound` | mengSen/base/TimeZone.cpp:195-196 | the in-range binary search returns the number of leading smaller keys |
| `TimeZone.FindLocaltime` | mengSen/base/TimeZone.cpp:187-210 | the three branches and the step back select the type of the last transition not after the key, the first type if there is none |
| `TimeZone.SearchFindsLastNotAfter` | mengSen/base/TimeZone.cpp:187-210 | with strictly increasing keys the result is the last transition not after the key, and the only one |
| `TimeZone.GoverningType` | mengSen/base/TimeZone.cpp:187-210 | so the type found is the one that this transition names |
| `TimeZone.ToLocalTime` | mengSen/base/TimeZone.cpp:227-246 | the fields are those of the instant moved by the offset of the governing type, with its flag and its offset |
| `TimeZone.FieldsCarryOffset` | mengSen/base/TimeZone.cpp:235-243 | the fields, taken as UTC, less tm_gmtoff are the instant |
| `TimeZone.FromLocalTime` | mengSen/base/TimeZone.cpp:248-266 | the branch on tm_isdst and the re-rendering compute the specified instant |
| `TimeZone.FlagDecides` | mengSen/base/TimeZone.cpp:248-266 | for any calendar fields: with tm_isdst zero the offset is that of the local search; with tm_isdst set, positive or negative, it is that of daylight saving, except for the hour skipped when daylight saving begins |
| `TimeZone.LocalTimesIncrease` | mengSen/base/TimeZone.cpp:42-47 | the local times strictly increase if and only if no DST that a transition begins ends within an hour of the transition before |
| `TimeZone.LocalSearch` | mengSen/base/TimeZone.cpp:255-256 | the local lookup finds the governing type or, in the DST half of a repeated hour, the one an hour later |
| `TimeZone.LocalRoundTrip` | mengSen/base/TimeZone.cpp:227-266 | fromLocalTime(toLocalTime(t)) == t for every supported t, both halves of repeated hours included, if each DST ends more than an hour after the transition before its end and standard time between two DST spells lasts at least an hour |
| `TimeZone.LocalRoundTripExactly` | mengSen/base/TimeZone.cpp:227-266 | for one-hour-DST tables whose transitions the calendar reaches: the round trip holds at every supported instant if and only if these two conditions hold |
| `TimeZone.ShortDstFails` | mengSen/base/TimeZone.cpp:197-202 | DST of an hour: the instant at which it ends is sent back an hour |
| `TimeZone.ShortStandardFails` | mengSen/base/TimeZone.cpp:257-264 | DST that begins again within the hour after it ended: an instant is sent on an hour |
| `TimeZone.HourApartSuffices` | mengSen/base/TimeZone.cpp:227-266 | transitions more than an hour apart, of whatever kind, meet both conditions |
| `TimeZone.FixedZoneRoundTrip` | mengSen/base/TimeZone.cpp:221-225 | likewise for a zone of fixed offset |
| `TimerQueueInvariant.EveryRun` | mengSen/net/TimerQueue.cpp:107-226 | every sequence of inserts, cancels and expiries, inside callbacks and with reused addresses, keeps the invariant |
| `TimerQueueInvariant.InsertKeeps` | mengSen/net/TimerQueue.cpp:202-226 | an insertion extends both indexes consistently; its asserts hold |
| `TimerQueueInvariant.CancelQueued` | mengSen/net/TimerQueue.cpp:116-127 | cancelling a queued timer removes it from both indexes and deletes it |
| `TimerQueueInvariant.ExpiredExactly` | mengSen/net/TimerQueue.cpp:158-161 | lower_bound of (now, UINTPTR_MAX) separates exactly the timers that are due |
| `TimerQueueInvariant.ResetSomeKeeps` | mengSen/net/TimerQueue.cpp:180-191 | each iteration of the reset loop re-arms or deletes one timer and keeps the invariant |
| `TimerQueueProperties.ExactlyOnePlace` | mengSen/net/TimerQueue.cpp:107-226 | every timer ever created is queued, in the running batch or deleted, exactly one of these, and is deleted at most once |
| `TimerQueueProperties.IndexesAgree` | mengSen/net/TimerQueue.cpp:202-226 | timers_ and activeTimers_ hold the same timers, each under its current expiration |
| `TimerQueueProperties.ExpiresExactlyTheDue` | mengSen/net/TimerQueue.cpp:153-175 | getExpired removes exactly the timers with expiration <= now, in order of expiration |
| `TimerQueueProperties.RanKeeps` | mengSen/net/TimerQueue.cpp:144-146 | the callbacks started so far are the first ones of the batch |
| `TimerQueueProperties.BatchRunsOnceInOrder` | mengSen/net/TimerQueue.cpp:134-151 | when the batch is done each of its callbacks has run once, in order |
| `TimerQueueProperties.CancelledWhileQueuedNeverRuns` | mengSen/net/TimerQueue.cpp:122-127 | a timer cancelled while queued never runs in any continuation |
| `TimerQueueProperties.StaleIdIsHarmless` | mengSen/net/Timer.h:21-28 | cancelling an id whose address now holds a newer timer affects no live timer |
| `TimerQueueProperties.RearmedIffNotCancelled` | mengSen/net/TimerQueue.cpp:177-191 | a timer of the batch is re-armed, one interval after the clock reading of the batch, if and only if it repeats and the schedule holds no cancel of its id since the batch began; otherwise it is deleted |
| `TimerQueueProperties.BatchIsTheCalls` | mengSen/net/TimerQueue.cpp:116-142 | the cancels remembered during a batch are those made since the handleRead that began it |
| `TimerQueueProperties.AddedIsQueued` | mengSen/net/TimerQueue.cpp:94-114 | a timer added is created with the values given, under a sequence number never used before, and is queued under its expiration |
| `TimerQueueProperties.AlwaysArmedInTime` | mengSen/net/TimerQueue.cpp:107-114 | while stored expirations are positive, the deadline last passed to resetTimerfd is never later than the earliest queued timer |
| `TimerQueueProperties.EndReadArmsExactly` | mengSen/net/TimerQueue.cpp:193-199 | the end of handleRead arms in time if and only if the earliest expiration has not wrapped to zero, which counts as invalid, or the deadline armed before is itself zero |
| `TimerQueueObject.LoopTimers.Insert` | mengSen/net/TimerQueue.cpp:202-226 | insert with its asserts, and whether the earliest timer changed |
| `TimerQueueObject.LoopTimers.AddTimer` | mengSen/net/TimerQueue.cpp:97-114 | a new timer is created, queued and, if earliest, armed |
| `TimerQueueObject.LoopTimers.Cancel` | mengSen/net/TimerQueue.cpp:116-132 | cancelInLoop with its asserts |
| `TimerQueueObject.LoopTimers.GetExpired` | mengSen/net/TimerQueue.cpp:153-175 | the loop removes the batch from both indexes; its asserts hold |
| `TimerQueueObject.LoopTimers.BeginRead` | mengSen/net/TimerQueue.cpp:134-142 | handleRead up to its first callback |
| `TimerQueueObject.LoopTimers.RunNext` | mengSen/net/TimerQueue.cpp:144-146 | the next callback of the batch |
| `TimerQueueObject.LoopTimers.Reset` | mengSen/net/TimerQueue.cpp:177-191 | the loop of reset is the specified sequence of re-armings and deletions |
| `TimerQueueObject.LoopTimers.EndRead` | mengSen/net/TimerQueue.cpp:148-150 | handleRead after its last callback |
| `AsyncLoggingInvariant.EveryRun` | mengSen/base/AsyncLogging.cpp:35-121 | every interleaving of appends, stop and back-end steps keeps the invariant |
| `AsyncLoggingInvariant.AppendKeeps` | mengSen/base/AsyncLogging.cpp:35-50 | append keeps it |
| `AsyncLoggingInvariant.BackKeeps` | mengSen/base/AsyncLogging.cpp:62-119 | each step of the back end keeps it |
| `AsyncLoggingInvariant.PoolNeverRunsDry` | mengSen/base/AsyncLogging.cpp:62-117 | no assert fails, currentBuffer_ is never null outside the lock, nextBuffer_ is null only while a filled buffer waits, and every round starts with two empty spares |
| `AsyncLoggingInvariant.LinesAreConserved` | mengSen/base/AsyncLogging.cpp:35-80 | the lines given to append, read off the schedule: each one shorter than a buffer is, in order, in a swapped-out round, in buffers_ or in currentBuffer_ |
| `AsyncLoggingInvariant.HistoryIsTheCalls` | mengSen/base/AsyncLogging.cpp:35-50 | the history of lines is the sequence of the arguments of append, and running_ is true until stop |
| `AsyncLoggingInvariant.RunsUntilStopped` | mengSen/base/AsyncLogging.cpp:62-62 | between rounds the back end begins another round exactly if it has not been stopped |
| `AsyncLoggingInvariant.BytesAreConserved` | mengSen/base/AsyncLogging.cpp:67-96 | if no swap sees more than 25 buffers: bytes given to append = bytes written ++ unwritten rest of buffersToWrite ++ buffers_ ++ currentBuffer_ |
| `AsyncLoggingInvariant.DropsWholeBuffers` | mengSen/base/AsyncLogging.cpp:84-96 | an oversized round writes a notice with the number dropped and its first two buffers, whole lines only; any other round writes all lines |
| `AsyncLoggingInvariant.NoticeReadsBack` | mengSen/base/AsyncLogging.cpp:85-88 | a reader finds in the notice the time and the number of buffers dropped, unless it does not fit in 255 characters |
| `AsyncLoggingInvariant.FileHoldsAllRounds` | mengSen/base/AsyncLogging.cpp:93-119 | between rounds the file holds exactly what the rounds had to write |
| `BufferPool.SwapMoves` | mengSen/base/AsyncLogging.cpp:74-79 | the moves of the critical section keep one owner per buffer |
| `BufferPool.RefillMoves` | mengSen/base/AsyncLogging.cpp:103-115 | so does refilling a spare from the buffers written |
| `BufferPool.AppendText` | mengSen/base/LogStream.h:32-38 | an append changes only the buffer it is made to |
| `AsyncLoggingObject.AsyncLogger.constructor` | mengSen/base/AsyncLogging.cpp:17-33 | four distinct empty buffers |
| `AsyncLoggingObject.AsyncLogger.Append` | mengSen/base/AsyncLogging.cpp:35-50 | append over real buffers is the specified step, the line joins the history, and no buffer gets two owners |
| `AsyncLoggingObject.AsyncLogger.BeginRound` | mengSen/base/AsyncLogging.cpp:62-65 | the asserts at the head of a round hold |
| `AsyncLoggingObject.AsyncLogger.SwapBuffers` | mengSen/base/AsyncLogging.cpp:67-80 | the critical section is the specified step |
| `AsyncLoggingObject.AsyncLogger.TrimBuffers` | mengSen/base/AsyncLogging.cpp:84-92 | the notice and the erase |
| `AsyncLoggingObject.AsyncLogger.WriteBuffers` | mengSen/base/AsyncLogging.cpp:93-101 | the loop over the buffers, then resize(2) |
| `AsyncLoggingObject.AsyncLogger.Recycle` | mengSen/base/AsyncLogging.cpp:103-117 | both spares are refilled and emptied; nothing else is kept |
| `EventLoop.EveryRun` | mengSen/net/EventLoop.cpp:92-230 | every interleaving of the loop thread with any number of callers keeps the wakeup and queue invariant |
| `EventLoop.HistoryIsTheCalls` | mengSen/net/EventLoop.cpp:92-150 | the history of queued functors and of quit requests is that of the calls in the schedule |
| `EventLoop.NoLostWakeup` | mengSen/net/EventLoop.cpp:142-150 | in poll with a functor pending that the loop thread did not itself queue outside loop(), the eventfd is readable or a caller is between push and wakeup |
| `EventLoop.NoLostQuit` | mengSen/net/EventLoop.cpp:124-132 | likewise for a quit requested during loop() |
| `EventLoop.RunsInQueueOrder` | mengSen/net/EventLoop.cpp:219-230 | functors given to queueInLoop, read off the schedule = functors started ++ rest of the pass ++ pending: once each, in order, none lost |
| `EventLoop.AsleepMeansAllHaveRun` | mengSen/net/EventLoop.cpp:92-122 | if the loop thread queues nothing outside loop(), then in poll with nothing signalled and nobody in a call every functor given to queueInLoop has run and no quit is outstanding |
| `EventLoop.LaterFunctorsWait` | mengSen/net/EventLoop.cpp:219-230 | a pass runs exactly the functors given to queueInLoop before its swap; later ones wait |
| `EventLoop.QueuedOutside` | mengSen/net/EventLoop.cpp:147-149 | a functor the loop thread queues outside loop() is pending when the loop then enters poll, with the eventfd exactly as readable as before |
| `EventLoop.SleptOnExactly` | mengSen/net/EventLoop.cpp:147-149 | so something is there or on its way to wake the loop if and only if it was before the functor was queued |
| `EventLoop.QuitBeforeLoopIsForgotten` | mengSen/net/EventLoop.cpp:96-97 | from every reachable state outside loop(), a quit by any thread followed by loop() leads into poll with the flag clear |
| `EventLoopObject.LoopObject.QueueInLoop` | mengSen/net/EventLoop.cpp:142-150 | an undisturbed call from another thread appends the functor to the pending ones and leaves the eventfd readable |
| `EventLoopObject.LoopObject.QueueFromLoopThread` | mengSen/net/EventLoop.cpp:142-150 | on the loop thread the functor is appended likewise and the wakeup is written only during a pass |
| `EventLoopObject.LoopObject.Quit` | mengSen/net/EventLoop.cpp:124-132 | quit from another thread sets the flag and leaves the eventfd readable |
| `EventLoopObject.LoopObject.PollReturns` | mengSen/net/EventLoop.cpp:101-102 | the wakeup channel is reported exactly when the eventfd is readable |
| `EventLoopObject.LoopObject.HandleRead` | mengSen/net/EventLoop.cpp:211-217 | reading the eventfd makes its counter zero |
| `EventLoopObject.LoopObject.SwapPending` | mengSen/net/EventLoop.cpp:219-225 | the pass takes all pending functors |
| `EventLoopObject.LoopObject.RunNext` | mengSen/net/EventLoop.cpp:226-228 | the next functor of the pass is started |
| `EventLoopObject.LoopObject.EndPass` | mengSen/net/EventLoop.cpp:229-229 | the flag is cleared after the pass |
| `EventLoopObject.LoopObject.RunPass` | mengSen/net/EventLoop.cpp:226-228 | the loop starts every functor of the pass once, in order |
| `EventLoopObject.LoopObject.Iterate` | mengSen/net/EventLoop.cpp:100-118 | an undisturbed iteration runs exactly what was pending, in order, and leaves nothing pending and the eventfd clear |
| `BigEndian.UnsignedOfEncode` | mengSen/net/Endian.h:28-33 | the encoded bytes are the value modulo 256^n, negative values in two's complement |
| `BigEndian.SignedRoundTrip` | mengSen/net/Endian.h:28-33 | an integer written in n bytes reads back unchanged if and only if it fits n bytes |
| `BigEndian.EncodeSigned` | mengSen/net/Endian.h:28-33 | any n bytes read as an integer are written back unchanged |
| `BufferLayout.CompactionMovesDown` | mengSen/net/Buffer.h:395-401 | the assert kCheapPrepend < readerIndex_ always holds |
| `BufferLayout.EnsureWritableWorks` | mengSen/net/Buffer.h:232-237 | ensureWritableBytes makes its closing assert true and keeps the data |
| `BufferLayout.SizeBound` | mengSen/net/Buffer.h:395-409 | over any run without shrink the vector size is at most max(initial + 8, M + L + 7) |
| `NetBuffer.Buffer.Compact` | mengSen/net/Buffer.h:402-407 | the forward copy inside one vector preserves the readable bytes |
| `NetBuffer.Buffer.MakeSpace` | mengSen/net/Buffer.h:395-409 | the readable bytes stay; the borders move as specified |
| `NetBuffer.Buffer.Append` | mengSen/net/Buffer.h:190-194 | the bytes are added at the end |
| `NetBuffer.Buffer.HasWritten` | mengSen/net/Buffer.h:253-256 | bytes stored behind the write index become readable |
| `NetBuffer.Buffer.Unwrite` | mengSen/net/Buffer.h:262-265 | the last bytes are taken back |
| `NetBuffer.Buffer.Prepend` | mengSen/net/Buffer.h:334-341 | the bytes are added in front |
| `NetBuffer.Buffer.Retrieve` | mengSen/net/Buffer.h:123-131 | the first bytes are dropped; the borders are reset when nothing remains |
| `NetBuffer.Buffer.RetrieveAsString` | mengSen/net/Buffer.h:163-168 | the bytes returned and those left are the old contents |
| `NetBuffer.Buffer.AppendInt` | mengSen/net/Buffer.h:211-226 | an integer is appended in big-endian form |
| `NetBuffer.Buffer.PrependInt` | mengSen/net/Buffer.h:343-358 | an integer is prepended in big-endian form |
| `NetBuffer.Buffer.PeekInt` | mengSen/net/Buffer.h:274-299 | the integer read is the only one whose encoding the contents start with |
| `NetBuffer.Buffer.ReadInt` | mengSen/net/Buffer.h:303-325 | the integer read, encoded again, followed by the rest is the old contents |
| `NetBuffer.Buffer.Shrink` | mengSen/net/Buffer.h:364-370 | the contents stay, the reserve is available, and the vector is a fresh one |
| `NetBuffer.Buffer.ReadFd` | mengSen/net/Buffer.cpp:23-46 | however the bytes were split between vector and stack buffer they are appended in order; an error changes nothing |
| `Numerals.NumeralReadsBack` | mengSen/base/LogStream.cpp:42-77 | parsing the printed digits gives the value back; no superfluous leading zero |
| `Numerals.NumeralIsUnique` | mengSen/base/LogStream.cpp:42-77 | the printed text is the only canonical one that reads as the value |
| `Numerals.DecimalRoundTrip` | mengSen/base/LogStream.cpp:43-61 | parsing the decimal text of any integer, negative included, gives it back |
| `Numerals.DecimalIsUnique` | mengSen/base/LogStream.cpp:43-61 | a text is the decimal form of v if and only if it reads as v, has no superfluous zero and is not "-0" |
| `Numerals.NumeralLength` | mengSen/base/LogStream.cpp:42-77 | a number prints in at most k digits if and only if it is below base^k |
| `Numerals.WidthOf64Bits` | mengSen/base/LogStream.cpp:224-230 | 64-bit integers print in at most 20 characters, addresses in at most 16 |
| `LogStream.Reverse` | mengSen/base/LogStream.cpp:58-58 | std::reverse of a range, the rest untouched |
| `LogStream.WriteDigits` | mengSen/base/LogStream.cpp:45-52 | the loop writes the digits of a value of either sign in reverse |
| `LogStream.Convert` | mengSen/base/LogStream.cpp:42-61 | convert writes the decimal text and a terminator and touches nothing else |
| `LogStream.ConvertHex` | mengSen/base/LogStream.cpp:63-77 | likewise in base 16 |
| `LogStream.FixedBuffer.Append` | mengSen/base/LogStream.h:32-38 | a piece is appended whole or not at all; one byte always stays free |
| `LogStream.FixedBuffer.Add` | mengSen/base/LogStream.h:43-46 | bytes written directly behind the contents become part of them |
| `LogStream.FixedBuffer.DebugString` | mengSen/base/LogStream.cpp:200-204 | the terminator always has a place |
| `LogStream.LogStream.FormatInteger` | mengSen/base/LogStream.cpp:224-230 | the whole decimal text of any 64-bit integer is added, or nothing if fewer than 32 bytes are left |
| `LogStream.LogStream.FormatPointer` | mengSen/base/LogStream.cpp:272-282 | likewise 0x and the hexadecimal text |
| `LogStream.FormattedIntegerReadsBack` | mengSen/base/LogStream.cpp:224-230 | the text added reads back as the integer and fits the 32 bytes |

## Left out

- Weak memory ordering of the queues' atomics: steps are sequentially consistent, although the reset of `_write_index` is relaxed in the code.
- Reclaiming a fully read buffer of the queue: buffers are never freed in the model, and nothing is claimed about their lifetime.
- The initial value of `_current_read_buffer`, which `example/log/Log.cpp` leaves unset: the model starts from null as `test/testLog/NanoLog.cpp` does.
- QueueBufferInvariant.EveryRun: for size + producers below 2^32, so that the unsigned ticket counter cannot wrap; the code's size is 32768.
- LogLine.LogLine.EncodeFixed: tag 6 (string literals) follows `test/testLog/NanoLog.cpp`; `example/log/Log.cpp` declares that overload but does not define it.
- LogCodec.LineReadsBack: for file and function names without blanks; otherwise the printed line itself does not tell where one name ends.
- AsyncLoggingInvariant.NoticeReadsBack: for clock texts without a comma, as Timestamp prints them.
- RingBufferFifo.DeliversInTicketOrder: exact delivery is stated for runs in which the counters have not wrapped or the ring's size divides their ranges, because otherwise a wrapped counter selects another item.
- RingBufferObject.LogRing: the item's atomic flag is an owner value rather than a bit, so that the lock's holder can be named.
- Text appended to AsyncLogging after the back end's last swap at shutdown: nothing is claimed about it.
- AsyncLogging's `stderr` copy of the drop notice, file rolling and flushing; the clock text of the notice is a parameter.
- TimerQueueProperties.AlwaysArmedInTime: speaks of the argument of `resetTimerfd`; the unsigned subtraction in `howMuchTimeFromNow` and the 16-bit `when` parameter of Timer's constructor are not modelled.
- The uninitialised `nextExpire` when no timer remains: the model lets it be any value.
- A timer's interval is a whole number of clock ticks instead of a `double` number of seconds.
- The order of `addTimer` and `cancel` calls from other threads before they reach the loop thread.
- `gmtime_r` and `timegm` in the time-zone code are replaced by the library's own `toUtcTime` and `fromUtcTime`, as its FIXME comments propose.
- Reading the TZif file, and zone abbreviations (`tm_zone`): the transition table is an input.
- UtcTime.FromUtcTime: does not model the undefined behaviour of the C++ code when an int overflows; `UtcTime.FieldsFitInt32` says exactly when none does.
- TimeZone.LocalRoundTrip: for zones whose types are a standard offset and that offset plus one hour of daylight saving; other offset changes can make a local time ambiguous without a flag to tell the two apart.
- Floating-point output (`operator<<(double)`, `formatSI`, `formatIEC`) and pointers to literals: their text is a parameter of the model.
- EventLoop: `runInLoop` on the loop thread, which calls the functor at once; channels, pollers and timeouts; poll may return at any time.
- `findCRLF` and `findEOL` of net::Buffer, two of which return nothing, and `internalCapacity`.
- NetBuffer.Buffer.ReadFd: the system call is the bytes it delivered or its error.
- Liveness: fairness, spinning time, spurious wakeups and timeouts of condition variables.
- Sockets, channels, acceptors, process information, thread wrappers, singletons, configuration and protocol buffers: wrappers around the operating system or generated code, with no protocol or arithmetic of their own.
- BlockingQueue, CountDownLatch, ThreadPool and StringPiece: thin layers over a mutex, a condition variable or a pointer pair, on which none of the modelled components' guarantees rests.
- The coroutine code, whose `coroutine_create` is a stub, and the poller, of which there is no concrete implementation.
