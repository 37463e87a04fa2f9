# metrics-generator: the time-ordered work-entry engine, in Dafny

This project models the core of ArpNetworking's metrics-generator. The generator synthesises metric
events for load-testing telemetry pipelines. Independent *units of work* are each bound to a
*scheduler*; an executor interleaves their firings in scheduled-time order and stamps every recorded
event with the firing's scheduled (virtual) time instead of the wall-clock time.

Modules, one per concern of the source:

- `JavaTime` (`java_time.dfy`) holds the Java `long` arithmetic and time conversions the executors
  use: `TimeUnit` millisecond-to-nanosecond conversion (saturating), nanosecond-to-millisecond
  conversion (truncating toward zero), `Instant.toEpochMilli` (flooring) and 64-bit wrap-around.
- `Schedule` (`schedule.dfy`) holds units of work, metric generators, schedule bindings and work
  entries. A scheduler is a function `next` from the last firing time (epoch nanoseconds) to the next
  one. `Run(next, t, end)` is the reference definition of one binding's firings in the fast-forward
  executor.
- `WorkQueue` (`work_queue.dfy`) models the priority queue as the sequence of its entries; `poll`
  may return any entry of least scheduled time. It also holds the per-binding views (`Times`) of
  queues and firing histories.
- `Client` (`generator_sink.dfy`) models `GeneratorSink`: a class whose `time` field `setTime`
  updates. `record` passes on a `TimeWarpEvent` whose `_start` and `_end` annotations are replaced by
  the time.
- `Firing` (`firing.dfy`) says what a sequence of firings leaves in the sink's output.
- `Interval` (`interval_executor.dfy`) models `IntervalExecutor` as a class. It primes the queue,
  then drains it with a `while` loop whose invariant (`Drained`) ties the history and the queue to
  `Run` for every binding.
- `RealTime` (`real_time_executor.dfy`) models `RealTimeExecutor` as a class. It primes from clock
  readings, then runs one pass of the peek, sleep or fire loop per clock reading given.
- `TestFile` (`test_file_generator.dfy`) models `TestFileGenerator.generate`. It builds the main
  binding and the canary binding with their periods, drains them through the interval executor, and
  counts the resulting events and samples.

Three points about the code are worth stating up front:

- The fast-forward executor primes each binding at `next(start)`, one period after the start, not at
  the start itself. It fires the binding at every time up to and including the end, plus once past
  the end. For a constant period `p` and an end no earlier than the start, that is
  `(end - start) / p` firings up to the end (rounded down), plus the closing one:
  `(end - start) / p + 1` in all (`TestFile.MainFiringCount`). When `next(start)` is already past
  the end, in particular when the end is before the start, the binding fires once
  (`Schedule.ConstantRunLength`).
- `GeneratorSink.setTime` takes a Joda `DateTime`, while both executors hand it a `ZonedDateTime`.
  The model keeps the sink's time as epoch milliseconds and its UTC rendering as the function
  `render`.
- Every firing builds a fresh event through the metrics factory, and the unit of work draws its
  sample values from a random source shared by all firings. The model gives the factory the event's
  number among those the executor has built (a counter `built`), so two firings of the same binding
  may record different samples.

## Model

| member | source | states |
|---|---|---|
| `JavaTime.Wrap64` | src/main/java/com/arpnetworking/metrics/generator/util/TestFileGenerator.java:104 | a `long` result lies in the `long` range, differs from the mathematical one by a multiple of 2^64, and equals it when that fits |
| `JavaTime.Wrap64Positive` | src/main/java/com/arpnetworking/metrics/generator/util/TestFileGenerator.java:104 | a sum of two non-negative `long`s that comes out positive did not wrap |
| `JavaTime.JavaDiv` | src/main/java/com/arpnetworking/metrics/generator/util/TestFileGenerator.java:96 | Java's integer division rounds toward zero: the quotient times the divisor lies between zero and the dividend, within one divisor of it |
| `JavaTime.ToNanos` | src/main/java/com/arpnetworking/metrics/generator/util/IntervalExecutor.java:56-57 | milliseconds to nanoseconds is the product by one million, clamped to `Long.MIN_VALUE`/`Long.MAX_VALUE` when it overflows |
| `JavaTime.ToMillis` | src/main/java/com/arpnetworking/metrics/generator/util/IntervalExecutor.java:79 | nanoseconds to milliseconds truncates toward zero, so instants before 1970 round up |
| `JavaTime.EpochMillis` | src/main/java/com/arpnetworking/metrics/generator/util/RealTimeExecutor.java:69 | `toEpochMilli` rounds down: the millisecond contains the instant |
| `JavaTime.MillisRoundTrip` | src/main/java/com/arpnetworking/metrics/generator/util/IntervalExecutor.java:56-57 | whole milliseconds survive the conversion to nanoseconds and back when it does not saturate |
| `Schedule.ConstantTimeScheduler` | src/main/java/com/arpnetworking/metrics/generator/util/TestFileGenerator.java:97 | the constant-period scheduler moves forward when its period is positive and never goes back when it is non-negative |
| `Schedule.Run` | src/main/java/com/arpnetworking/metrics/generator/util/IntervalExecutor.java:82-89 | a binding due at `t` fires at `t` first; each firing at or before the end is followed by one at `next` of it; the last firing is past the end |
| `Schedule.RunUnique` | src/main/java/com/arpnetworking/metrics/generator/util/IntervalExecutor.java:85-89 | any sequence of firings that starts at `t`, steps by `next` while at most the end, and stops with the first one past the end is `Run` |
| `Schedule.ConstantRunLength` | src/main/java/com/arpnetworking/metrics/generator/util/IntervalExecutor.java:85-89 | a constant period `p` from `t <= end` gives `(end - t) / p + 1` firings up to the end plus the closing one; a `t` past the end gives one firing |
| `WorkQueue.EarliestExists` | src/main/java/com/arpnetworking/metrics/generator/util/IntervalExecutor.java:75-76 | a non-empty queue has an entry of least scheduled time for `poll` to return |
| `WorkQueue.RemoveAt` | src/main/java/com/arpnetworking/metrics/generator/util/IntervalExecutor.java:76 | `poll` removes exactly the polled entry: one entry fewer, the multiset minus that entry |
| `WorkQueue.CountBySchedulePartitions` | src/main/java/com/arpnetworking/metrics/generator/util/IntervalExecutor.java:59-62 | when every entry names a binding, the per-binding counts add up to the whole |
| `WorkQueue.FireKeepsOrder` | src/main/java/com/arpnetworking/metrics/generator/util/IntervalExecutor.java:76-89 | firing an earliest entry and queueing replacements no earlier than it keeps the history in time order and no later than the queue |
| `WorkQueue.ReplaceKeepsOnePerSchedule` | src/main/java/com/arpnetworking/metrics/generator/util/RealTimeExecutor.java:89-97 | polling an entry and queueing one of the same binding keeps exactly one entry per binding |
| `WorkQueue.ReplaceTimes` | src/main/java/com/arpnetworking/metrics/generator/util/RealTimeExecutor.java:89-97 | with one entry per binding, the polled entry is its binding's only one; after the requeue that binding has only the new time queued and every other binding what it had |
| `Client.Stamp` | src/main/java/com/arpnetworking/metrics/generator/client/GeneratorSink.java:73-75 | the recorded annotations are the original keys plus `_start` and `_end`, both set to the time's rendering, every other key keeping its value |
| `Client.Warp` | src/main/java/com/arpnetworking/metrics/generator/client/GeneratorSink.java:73-76 | the event passed on carries `_start` and `_end` set to the time's rendering and every other original annotation unchanged |
| `Client.WarpReadsThrough` | src/main/java/com/arpnetworking/metrics/generator/client/GeneratorSink.java:127-156 | the passed-on event reads its annotations from the stamped copy and its timer, counter and gauge samples from the original event |
| `Client.GeneratorSink.constructor` | src/main/java/com/arpnetworking/metrics/generator/client/GeneratorSink.java:54-55 | the sink starts at the initial time with nothing recorded |
| `Client.GeneratorSink.SetTime` | src/main/java/com/arpnetworking/metrics/generator/client/GeneratorSink.java:67-69 | sets the time and changes nothing else |
| `Client.GeneratorSink.Record` | src/main/java/com/arpnetworking/metrics/generator/client/GeneratorSink.java:71-77 | one call appends exactly one event to the wrapped sink, stamped with the current time, samples passed through, and changes nothing else |
| `Client.GeneratorSink.Flush` | src/main/java/com/arpnetworking/metrics/generator/client/GeneratorSink.java:82-87 | a flush is appended after everything recorded so far |
| `Firing.RecordOf` | src/main/java/com/arpnetworking/metrics/generator/util/IntervalExecutor.java:77-81 | a firing records the `n`th event built for its binding's unit of work, its samples untouched and its annotations stamped with the entry's scheduled time in milliseconds |
| `Firing.Emitted` | src/main/java/com/arpnetworking/metrics/generator/util/IntervalExecutor.java:77-81 | a run of firings leaves one record per firing and no flush |
| `Firing.EmittedIndexed` | src/main/java/com/arpnetworking/metrics/generator/util/IntervalExecutor.java:77-81 | the `j`th output of a run of firings is the event built `j` events after the first for the `j`th entry's unit of work, stamped with that entry's scheduled time in milliseconds |
| `Interval.Reschedule` | src/main/java/com/arpnetworking/metrics/generator/util/IntervalExecutor.java:82-89 | a fired entry is replaced only while its time is at most the end, and then by one entry of the same binding at `next` of its time |
| `Interval.PrimedAccounted` | src/main/java/com/arpnetworking/metrics/generator/util/IntervalExecutor.java:56-62 | after priming no binding has fired and each is queued exactly once, at `next(start)`, so its whole run is still ahead |
| `Interval.FireAccountsFiredBinding` | src/main/java/com/arpnetworking/metrics/generator/util/IntervalExecutor.java:82-89 | for the binding that fired, the firing moves from queue to history and the replacement, queued only while the fired time is at most the end, carries the rest of its run |
| `Interval.FireLeavesOtherBinding` | src/main/java/com/arpnetworking/metrics/generator/util/IntervalExecutor.java:76-89 | a pass leaves the history and queue of every other binding unchanged |
| `Interval.FireConsumesOne` | src/main/java/com/arpnetworking/metrics/generator/util/IntervalExecutor.java:82-89 | with progressing schedulers each pass leaves exactly one firing fewer ahead, so the loop terminates |
| `Interval.FireKeepsAccounted` | src/main/java/com/arpnetworking/metrics/generator/util/IntervalExecutor.java:75-89 | each pass keeps every binding's history plus queued remainder equal to its run, with at most one queued entry per binding |
| `Interval.RescheduleNotEarlier` | src/main/java/com/arpnetworking/metrics/generator/util/IntervalExecutor.java:82-84 | for schedulers that never go back, a replacement entry is due no earlier than the entry it replaces |
| `Interval.PassKeepsOrder` | src/main/java/com/arpnetworking/metrics/generator/util/IntervalExecutor.java:75-89 | for schedulers that never go back (`next(t) >= t`), each pass keeps the firings in time order and none of them later than anything still queued |
| `Interval.FireStep` | src/main/java/com/arpnetworking/metrics/generator/util/IntervalExecutor.java:75-89 | one pass keeps the drain invariant (account, time order, history no later than the queue) and consumes one firing |
| `Interval.DrainedComplete` | src/main/java/com/arpnetworking/metrics/generator/util/IntervalExecutor.java:75 | once the queue is empty every binding's history is its whole run |
| `Interval.IntervalExecutor.constructor` | src/main/java/com/arpnetworking/metrics/generator/util/IntervalExecutor.java:56-63 | given at least one binding, converts the interval to nanoseconds and queues binding `j` at `next(start)`, in a fresh sink that starts at the start time |
| `Interval.IntervalExecutor.FireEarliest` | src/main/java/com/arpnetworking/metrics/generator/util/IntervalExecutor.java:76-89 | polls an earliest entry, sets the sink's time to its scheduled time in milliseconds, records the next event built for its unit of work, requeues only while at most the end; the queue shrinks by one past the end and otherwise keeps its size |
| `Interval.IntervalExecutor.Execute` | src/main/java/com/arpnetworking/metrics/generator/util/IntervalExecutor.java:74-92 | drains the queue; every binding fired exactly its `Run`, at least once and last past the end, in time order; the output is one stamped record per firing, each with its own freshly built event, followed by exactly one flush |
| `RealTime.IsDue` | src/main/java/com/arpnetworking/metrics/generator/util/RealTimeExecutor.java:77-80 | an entry is due exactly when its time, truncated to milliseconds, is not after the clock's current millisecond |
| `RealTime.DueNeverEarly` | src/main/java/com/arpnetworking/metrics/generator/util/RealTimeExecutor.java:77-80 | an entry found due is never a whole millisecond or more ahead of its time, and before 1970 never ahead at all |
| `RealTime.DueOnceReached` | src/main/java/com/arpnetworking/metrics/generator/util/RealTimeExecutor.java:77-80 | from 1970 on an entry whose time has come is due |
| `RealTime.DueLagsBeforeEpoch` | src/main/java/com/arpnetworking/metrics/generator/util/RealTimeExecutor.java:77-80 | before 1970 the truncation can hold back an entry whose time has come |
| `RealTime.DueByMillisecond` | src/main/java/com/arpnetworking/metrics/generator/util/RealTimeExecutor.java:77-80 | whether an entry is due depends only on the millisecond its time truncates to |
| `RealTime.Requeue` | src/main/java/com/arpnetworking/metrics/generator/util/RealTimeExecutor.java:94-96 | the replacement of a fired entry belongs to the same binding |
| `RealTime.Primes` | src/main/java/com/arpnetworking/metrics/generator/util/RealTimeExecutor.java:67-71 | priming yields one entry per binding |
| `RealTime.PrimesIndexed` | src/main/java/com/arpnetworking/metrics/generator/util/RealTimeExecutor.java:67-71 | binding `j` is primed at `next` of its own clock reading, taken in whole milliseconds and converted to nanoseconds |
| `RealTime.PrimesOnePerSchedule` | src/main/java/com/arpnetworking/metrics/generator/util/RealTimeExecutor.java:67-71 | priming queues exactly one entry per binding and nothing else |
| `RealTime.PacedFire` | src/main/java/com/arpnetworking/metrics/generator/util/RealTimeExecutor.java:89-97 | firing a due earliest entry and always queueing its replacement keeps the pacing invariant: every firing was due at its reading, one entry per binding, time order |
| `RealTime.PrimedTracked` | src/main/java/com/arpnetworking/metrics/generator/util/RealTimeExecutor.java:67-71 | after priming an empty queue each binding's chain is its one primed time, `next` of its clock reading in whole milliseconds |
| `RealTime.TrackedFire` | src/main/java/com/arpnetworking/metrics/generator/util/RealTimeExecutor.java:89-97 | firing an entry and queueing its binding at `next` of its time extends that binding's chain by one `next` step and leaves every other binding's chain alone |
| `RealTime.RealTimeExecutor.constructor` | src/main/java/com/arpnetworking/metrics/generator/util/RealTimeExecutor.java:52-54 | given at least one binding, an empty queue and a fresh sink starting at the clock reading in milliseconds |
| `RealTime.RealTimeExecutor.Prime` | src/main/java/com/arpnetworking/metrics/generator/util/RealTimeExecutor.java:67-71 | appends binding `j`'s entry at `next` of clock reading `j`, for every binding in order |
| `RealTime.RealTimeExecutor.Step` | src/main/java/com/arpnetworking/metrics/generator/util/RealTimeExecutor.java:73-97 | one pass: empty queue returns; an earliest entry not yet due changes nothing (queue, history, sink time and output) and sleeps or returns on interruption; a due one is the only entry fired, stamped with its scheduled time, and requeued, so the queue keeps its size |
| `RealTime.RealTimeExecutor.Fire` | src/main/java/com/arpnetworking/metrics/generator/util/RealTimeExecutor.java:89-97 | polls the entry, sets the sink's time to its scheduled time (not the clock), records the next event built for its unit of work and always queues the binding again at `next` of that time |
| `RealTime.RealTimeExecutor.Execute` | src/main/java/com/arpnetworking/metrics/generator/util/RealTimeExecutor.java:66-98 | primes one entry per binding, after which the queue keeps its size and is never empty; returns a trace of its passes, each one as `Step` describes it on the queue before it (so a due earliest entry is always the one fired): one pass per tick when the ticks run out, and when it returns on an interrupted sleep the pass it names is the last and the only `Stopped` one; the new firings are exactly the fired passes' entries, each at its tick's clock reading; every firing was due at its clock reading; from an empty queue, each binding's firings and its queued entry are its primed time followed by successive `next`s |
| `RealTime.RealTimeExecutor.Round` | src/main/java/com/arpnetworking/metrics/generator/util/RealTimeExecutor.java:73-97 | one turn of the loop extends the trace by the pass `Step` made and the firings by that pass's entry and clock reading, keeping the pacing and per-binding chain invariants; a stopped pass was interrupted with an earliest entry not yet due |
| `TestFile.ExpectedSamples` | src/main/java/com/arpnetworking/metrics/generator/util/TestFileGenerator.java:75 | the logged count is `uowCount * namesCount * samplesCount` modulo 2^64 in the `long` range, and exactly that product when it fits |
| `TestFile.MainUnit` | src/main/java/com/arpnetworking/metrics/generator/util/TestFileGenerator.java:84-92 | the main unit of work holds `namesCount` generators, each `samplesCount` Gaussian samples of mean 50 and deviation 8 under a single name |
| `TestFile.CanaryUnit` | src/main/java/com/arpnetworking/metrics/generator/util/TestFileGenerator.java:99-102 | the canary's unit of work holds a single constant generator |
| `TestFile.MainPeriod` | src/main/java/com/arpnetworking/metrics/generator/util/TestFileGenerator.java:95-96 | the period is the window divided by `uowCount`, rounded toward zero: for a non-negative window `uowCount` periods fit in it with less than `uowCount` ns to spare |
| `TestFile.CanaryPeriod` | src/main/java/com/arpnetworking/metrics/generator/util/TestFileGenerator.java:104 | the canary's period is a `long`, equal to the window plus the main period whenever that sum fits |
| `TestFile.Schedules` | src/main/java/com/arpnetworking/metrics/generator/util/TestFileGenerator.java:94-104 | two bindings, the main unit of work first and the canary second, each moving forward when its period is positive |
| `TestFile.ProductFits` | src/main/java/com/arpnetworking/metrics/generator/util/TestFileGenerator.java:270-275 | with counts between 1 and `Integer.MAX_VALUE`, as the `@Min(1)` annotations on the `Integer` fields declare, the first product cannot overflow a `long` |
| `TestFile.SamplesPerFiring` | src/main/java/com/arpnetworking/metrics/generator/util/TestFileGenerator.java:85-103 | each main firing records `namesCount * samplesCount` samples; the canary's firing records one |
| `TestFile.PeriodBounds` | src/main/java/com/arpnetworking/metrics/generator/util/TestFileGenerator.java:95-96 | a window of at least `uowCount` nanoseconds splits into a period of at least 1 ns and at most the window, which is exact when the count divides the window |
| `TestFile.MainPeriodBounds` | src/main/java/com/arpnetworking/metrics/generator/util/TestFileGenerator.java:95-96 | a positive main period implies a window of at least `uowCount` nanoseconds, of which the period is at most the whole |
| `TestFile.MainPeriodPositive` | src/main/java/com/arpnetworking/metrics/generator/util/TestFileGenerator.java:95-97 | the main period is positive if and only if the window is at least `uowCount` nanoseconds |
| `TestFile.ShortWindowStalls` | src/main/java/com/arpnetworking/metrics/generator/util/TestFileGenerator.java:96-97 | a window of 0 to `uowCount - 1` nanoseconds gives period zero, so the main binding is requeued at the time it fired and never passes the end |
| `TestFile.BackwardWindowRecedes` | src/main/java/com/arpnetworking/metrics/generator/util/TestFileGenerator.java:94-104 | an end before the start gives a main period of zero or less and, when the `long` sum does not wrap, a negative canary period, so the canary is requeued before each time it fires |
| `TestFile.WindowLength` | src/main/java/com/arpnetworking/metrics/generator/util/TestFileGenerator.java:83-95 | without saturation, the window the executor sees in nanoseconds is the converted duration |
| `TestFile.MainFiringCount` | src/main/java/com/arpnetworking/metrics/generator/util/TestFileGenerator.java:94-97 | the main binding fires `duration / period + 1` times, which is `uowCount + 1` when the count divides the window |
| `TestFile.CanaryFiresOnce` | src/main/java/com/arpnetworking/metrics/generator/util/TestFileGenerator.java:99-104 | with positive periods, the canary's first firing is past the end, so it fires exactly once |
| `TestFile.CanaryPeriodOverflows` | src/main/java/com/arpnetworking/metrics/generator/util/TestFileGenerator.java:104 | a 150-year window with one unit of work makes the canary's `long` period wrap to a negative value |
| `TestFile.DrainsSchedules` | src/main/java/com/arpnetworking/metrics/generator/util/TestFileGenerator.java:94-113 | the executor's per-binding result for the two bindings built is the main run followed by the canary run |
| `TestFile.GeneratedEventCount` | src/main/java/com/arpnetworking/metrics/generator/util/TestFileGenerator.java:94-113 | a generated file holds `duration / period + 2` events: the main binding's firings and the canary's single one |
| `TestFile.RecordedSamples` | src/main/java/com/arpnetworking/metrics/generator/util/TestFileGenerator.java:75-104 | when the count divides the window, `uowCount * namesCount * samplesCount` fits in a `long`, the window does not saturate and both periods are positive, the file holds `namesCount * samplesCount + 1` samples more than the logged expected count |
| `TestFile.TenMinuteRuns` | src/test/java/com/arpnetworking/metrics/generator/util/TestFileGeneratorTest.java:41-57 | with one unit of work over ten minutes the main period is the whole window, the main binding fires at the end and ten minutes later, and the canary ten minutes after the end |
| `TestFile.TenMinuteWindow` | src/test/java/com/arpnetworking/metrics/generator/util/TestFileGeneratorTest.java:41-57 | one unit of work over ten minutes yields exactly three events: main at the end and at the end plus ten minutes, canary at the end plus ten minutes |
| `TestFile.Generate` | src/main/java/com/arpnetworking/metrics/generator/util/TestFileGenerator.java:75-113 | logs the wrapped expected count, builds the main and canary bindings in that order, and drains them; the output is the stamped firings in time order and then one flush, `duration / period + 2` events |

## Left out

- Scheduled times are unbounded integers, so the model does not capture a `long` overflow in `next(t) = t + p`. Only the period arithmetic wraps (`JavaTime.Wrap64`).
- The sources of `WorkItemOrdering` and `WorkEntry` are not among the modelled files; `Schedule.WorkEntry` holds what the executors read from an entry (its binding and its scheduled time). Entries are ordered by scheduled time only; `poll` may return any earliest entry, since the tie-break is unknown. An entry names its binding by index.
- The sources of `ConstantTimeScheduler`, `UnitOfWorkGenerator`, `ConstantCountMetricGenerator`, `GaussianMetricGenerator`, `ConstantMetricGenerator` and the name generators are not among the modelled files. The model takes their effect from their documented behaviour: the constant-period scheduler is `next(t) = t + p` (`Schedule.ConstantTimeScheduler`), a repeating generator calls its inner one `count` times, and a unit of work records one event per firing.
- Sample values, Gaussian draws and the random source are not modelled (floating point and randomness). The event a firing records is the factory's result for its unit of work and its event number, for an arbitrary factory, so nothing is promised about the values beyond that.
- `TsdMetricsFactory` event assembly is the executor's `metricsFactory` parameter, and the JSON encoding of events is out of scope. The UTC rendering of a time is the sink's `render` parameter.
- File deletion, file attribute reads and logging in `generate` are left out (I/O). The reflective logback appender hijack and the encoder stop/start in `flush` are left out too. A flush is a marker in the output.
- `Thread.sleep`, `ZonedDateTime.now()` and interruption are inputs: a clock reading per binding for priming, and one `Tick` (reading plus interrupted flag) per loop pass.
- The start and end `ZonedDateTime`s are given as epoch milliseconds, so sub-millisecond parts and zones are not modelled. `Duration.toMillis` overflowing (windows of about 292 million years) is not modelled.
- `Interval.IntervalExecutor.constructor`: requires at least one binding. With none, `new PriorityQueue<>(0, …)` at `IntervalExecutor.java:58` throws `IllegalArgumentException`; that error path is not modelled.
- `RealTime.RealTimeExecutor.constructor`: requires at least one binding. With none, `new PriorityQueue<>(0, …)` at `RealTimeExecutor.java:53` throws `IllegalArgumentException`; that error path is not modelled. Hence the source's empty-queue exit from `execute` is never taken, and the model's `Execute` has no such exit (`Step` still models the check).
- `Interval.IntervalExecutor.Execute`: requires every scheduler to move forward (`next(t) > t`). The `Scheduler` interface promises no such thing, and without it the drain loop need not terminate.
- `RealTime.RealTimeExecutor.Execute`: runs exactly one pass per tick given until an interrupted sleep, and `OutOfTicks` stands for the loop still running; that the real loop keeps taking passes forever is not modelled. Time order of firings is stated only for schedulers that never go back, and the per-binding `next` chain only when `Execute` starts from an empty queue.
- `TestFile.Generate`: requires both periods to be positive. With a window of 0 to `uowCount - 1` nanoseconds the main period is zero and the source's drain loop does not terminate (`TestFile.ShortWindowStalls`). With an end before the start the window is negative: the main period is zero or negative (`TestFile.MainPeriodPositive`), and the canary's period `D + P` is negative unless it wraps, so the canary moves back on every firing and never passes the end (`TestFile.BackwardWindowRecedes`). When `D + D / uowCount` exceeds `Long.MAX_VALUE`, the canary's period wraps negative (`TestFile.CanaryPeriodOverflows` for a 150-year window with one unit of work; with one unit of work this takes a window longer than about 146 years, with two about 195). The canary is then due before the start and moves back in time, or around the `long` range, on every firing, which the model's unbounded scheduled times cannot follow.
- `TestFile.Generate`: the event count is stated only when neither end of the window nor its length saturates on conversion to nanoseconds.
- `TestFile.Generate`: requires `ValidConfig`, the `@Min(1)` and `@NotEmpty` bounds. The builder's `build()` as shown runs no validation, and with `uowCount = 0` the division at `TestFileGenerator.java:96` would throw `ArithmeticException`; that error path is not modelled.
