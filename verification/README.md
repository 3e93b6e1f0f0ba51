# InVitro loader: a verified model

The loader turns a trace of invocation counts into a timed firing schedule, runs the schedule
concurrently, and accounts for every record it produces. This project models the parts of it whose
correctness is not visible from one function body, and proves what they guarantee for every input,
every random choice and every interleaving.

| file | models |
|---|---|
| `LockFreeQueue.dfy` | the queue of asynchronous records: `Enqueue` and `Dequeue` as a step machine, one step per pointer read and per compare-and-swap, any number of threads |
| `QueueResults.dfy` | what holds of every run of the queue |
| `QueueProgress.dfy` | which calls on the queue are sure to finish, and when a dequeuer spins |
| `AsyncDrain.dfy`, `DrainResults.dfy` | the batch loop that empties that queue into the record channel, on top of the step machine |
| `RunAccounting.dfy`, `RunResults.dfy` | drivers, invocation goroutines, WaitGroups, counters, the asynchronous queue and the collector of one whole run, and what holds of every run |
| `InvokeHistory.dfy` | what the calls of `Invoke` returned and which of them left a record, in every run |
| `DrainRefinement.dfy` | the drain over the lock-free queue as the draining steps of a run |
| `WholeRun.dfy`, `SystemResults.dfy` | the run, the lock-free queue and the drain as one interleaved system, which refines the run |
| `DagGenerator.dfy`, `DagBuilder.dfy`, `DagResults.dfy` | the invariant of the breadth-first DAG builder, the builder itself, in place and for any size, and what a finished DAG is |
| `Schedule.dfy`, `Azure2019.dfy` | inter-arrival times from per-minute counts, and the specifications of all functions |
| `Rps.dfy`, `ColdRates.dfy`, `ColdTiming.dfy` | warm and cold functions for a target rate, what the cold ones do together, and when each of them fires |
| `Azure2021.dfy` | schedules from a trace of single invocations |
| `IntervalIndex.dfy`, `TraceDriver.dfy` | the interval table and the loop that labels and fires invocations |
| `CartesianProduct.dfy` | the enumerator of sweep options |
| `Timeline.dfy`, `SeqSums.dfy`, `Arithmetic.dfy` | sums of gaps, histograms of minutes, sums over sequences, quotients |

Modelling decisions:

- Concurrency is a sequence of actions: `Enabled` says which are possible, `Apply` what they do. A theorem
  about `Exec` over every `Legal` sequence is a theorem about every schedule. Histories (the chain of linked nodes,
  the log of records) are carried along in the state and influence no branch.
- Memory is sequentially consistent and nodes are not reused. `WaitGroup.Add` and the `go` statement that
  follows it are one step.
- float64 is `real`; integers are unbounded, except where a sentinel is compared (`math.MaxInt64` in the collector
  is kept). Conversions from float to int drop the fraction, as in Go.
- Random draws, delays, the outcome of `Invoke`, sampled runtimes and the dataset's width and depth are arguments or
  arbitrary choices. `log.Fatal`, index-out-of-range panics and loops that never end are outcomes, and the contracts
  say exactly when they occur.
- A linked list of the DAG builder is a row of cells in `Workflow.lists`; an element is a row number and a position.

Facts about the code that the proofs brought out:

- `Dequeue` is not lock-free: with an enqueuer stopped between its two compare-and-swaps on an empty queue, a dequeuer
  spins although the queue holds an element (`DequeueCanSpin`). That is the only such case (`DequeueAloneFinishesIff`).
- From a rate of one on, `GenerateColdStartFunctions` indexes its per-minute counts out of range exactly if the cooldown
  does not divide the experiment's length in seconds, or there is no minute (`ColdFitsIff`; one minute with a cooldown of
  seven seconds: `SevenSecondsFail`). Below one it does so exactly if the last function's last invocation is too late
  (`SlowFitsIff`).
- Cold functions are spread over a second only at a whole rate of at most one per microsecond. At any other rate of
  one or more some function fires together with function 0, since the share of a second is taken modulo the whole part
  of the rate and a batch has one function more than that (`ApartIff`).
- `GenerateFunctionSpecification` aborts not only on two equal starts but also on a single invocation that
  starts at time zero, because zero is also the initial "previous" timestamp (`Collides`, `ZeroStartClashes`).
- `createDAGWorkflow` survives a width below one only for depths up to two, where the width makes no difference; for
  larger depths it draws from an empty range, and a depth below one runs past the end of the root list (`Breaks`).
- With the DAG dataset enabled and no functions, `GenerateDAGs` panics instead of returning no DAG (`GenerateDAGs`).
- A DAG of depth 1 has one node whatever width is configured, so its reported shape is (1, 1) (`ReportShape`).
- `NextCProduct` without limits never ends and keeps returning the empty tuple; its caller stops because of the
  tuple's length and then makes no experiment at all (`UnpackGridSweep`).
- The collector of a run without any invocation never closes its output; the driver ends such a run by not waiting for it
  (`EndState`).
- `functionsDriver` fails only if there are inter-arrival times but no counted invocation (`FunctionsDriver`).

`dafny verify dfyconfig.toml` checks the whole project.

## Model

| member | source | states |
|---|---|---|
| `QueueResults.StepRefinesFifo` | pkg/common/lock_free_queue.go:32-79 | every step of every thread keeps the heap invariant and changes the abstract queue only as a FIFO queue would: a successful next-CAS appends, a successful head-CAS removes the oldest |
| `QueueResults.FifoOrder` | pkg/common/lock_free_queue.go:32-79 | in every interleaving the values taken are a prefix of the values put, in order, and the rest is what the queue holds |
| `QueueResults.Conserved` | pkg/common/lock_free_queue.go:32-79 | for each value: times given to Enqueue = times returned by Dequeue + times queued or held by a call in flight |
| `QueueResults.TailLag` | pkg/common/lock_free_queue.go:40-54 | the `next` fields form a chain on which head reaches tail, tail is last or last but one, and if it lags some enqueuer is at its tail-swing step |
| `QueueResults.LengthIsExact` | pkg/common/lock_free_queue.go:32-83 | length + linked-but-uncounted = size + removed-but-uncounted in every reachable state; Length is exact when no call is in flight |
| `QueueResults.FatalOnlyIfEmpty` | pkg/common/lock_free_queue.go:59-71 | "No element to dequeue" is reached only if the queue was empty when the reporting attempt read next: from that read on the thread was at the test of that very value; a nil next is never dereferenced |
| `QueueResults.DequeueWorks` | pkg/common/lock_free_queue.go:61-78 | with no Enqueue in flight each dequeuer step lowers a bound on the steps that are left |
| `QueueResults.DequeuersFinish` | pkg/common/lock_free_queue.go:58-79 | with no Enqueue in flight the tail is last and no schedule lets dequeuers spin forever, in spite of the missing help step |
| `QueueProgress.DequeueAloneFinishesIff` | pkg/common/lock_free_queue.go:58-79 | a dequeuer running alone finishes if and only if the tail does not lag at the head or its attempt is past the test; then within ten steps |
| `QueueProgress.Spins` | pkg/common/lock_free_queue.go:66-77 | with the tail lagging at the head a dequeuer goes round forever and changes nothing |
| `QueueProgress.DequeueCanSpin` | pkg/common/lock_free_queue.go:40-78 | a reachable state with one element in the queue in which a dequeuer alone never finishes |
| `QueueProgress.EnqueueAloneFinishes` | pkg/common/lock_free_queue.go:32-56 | an enqueuer running alone always finishes within twelve steps |
| `QueueProgress.EnqueuersFinish` | pkg/common/lock_free_queue.go:32-56 | in every interleaving of calls under way the enqueuers take boundedly many steps, whatever the dequeuers do |
| `DrainResults.DrainCorrect` | pkg/driver/async_processing.go:32-82 | draining any reachable idle queue never meets the empty branch or nil, never deadlocks, takes boundedly many steps, sends each record exactly once and ends after ceil(n/50) batches |
| `DrainResults.FinishedDrain` | pkg/driver/async_processing.go:36-82 | when the loop ends the records sent are the records queued, the queue is empty and the number of batches is ceil(n/50) |
| `AsyncDrain.Progress` | pkg/driver/async_processing.go:36-79 | until the drain has ended some goroutine or the loop can move |
| `DrainResults.CostDrops` | pkg/driver/async_processing.go:36-79 | every step of the drain lowers its cost, so it ends under every schedule |
| `DrainRefinement.DrainRefines` | pkg/driver/trace_driver.go:410-418 | every run of the drain over the lock-free queue is matched by draining steps of the loader's model that write exactly the records sent, in that order; the end of the drain is main's step out of it (that the two hold the same records when main drains is WholeRun.NoCalls) |
| `SystemResults.SystemRefinesRun` | pkg/driver/trace_driver.go:135-152 | goroutines enqueue through the lock-free queue step by step, main drains it in batches, all interleaved: every run of that system ends in a state that some run of the accounting model reaches |
| `WholeRun.NoCalls` | pkg/driver/trace_driver.go:406-418 | when main is about to drain, every Enqueue has returned and the queue holds exactly the records of the list |
| `SystemResults.SystemAccounted` | pkg/driver/trace_driver.go:406-421 | so the accounting holds of the system with its queue: closed at most once and after the total, written = issued = successes + failures at the end; no call on the queue fails and no run gets stuck |
| `SystemResults.SystemCloser` | pkg/driver/trace_driver.go:115-164 | every step of the system comes closer in a well-founded order, so every run of it ends |
| `DrainRefinement.SendStep` | pkg/driver/async_processing.go:50-75 | sending the record a goroutine has taken is draining that record from the list |
| `RunResults.InvKept` | pkg/driver/trace_driver.go:115-164 | every step of every goroutine, driver, main and the collector keeps the accounting invariant |
| `RunResults.WaitGroupKept` | pkg/driver/trace_driver.go:150-164 | a driver's WaitGroup counter equals its live goroutines after every step, and is zero once it has stopped waiting |
| `RunResults.AllAccounted` | pkg/driver/trace_driver.go:256-262 | once all drivers are done no goroutine is live, and issued, successful and failed are the records handed over, by the outcome they carry, which is that of a call of Invoke (CallsRecorded) |
| `RunResults.RunAccounted` | pkg/metric/loader_metrics.go:35-66 | in every run: the output is closed at most once and never before the total has been sent; at the end of a run with records it was closed, the records written are those produced, and written = issued = successes + failures; runs are finite and never stuck |
| `RunResults.EndState` | pkg/driver/trace_driver.go:406-421 | when main waits for the collector or has ended, issued = successes + failures = records; with records all are written, without records nothing is closed |
| `RunResults.Progress` | pkg/metric/loader_metrics.go:35-66 | unless main has ended, something can move; the one exception is a collector that counted up to its MaxInt64 placeholder |
| `RunResults.CostDrops` | pkg/driver/trace_driver.go:115-164 | every step lowers a bound on the steps left, so every run ends |
| `RunResults.SomethingRecorded` | pkg/driver/trace_driver.go:198-241 | a driver with something to invoke leaves at least one record |
| `RunResults.NodeRecordedOnce` | pkg/driver/trace_driver.go:115-164 | a DAG node leaves at most one record per invocation, and exactly one if nothing in that invocation failed |
| `RunResults.InvokedInOrder` | pkg/driver/trace_driver.go:115-164 | a node is invoked only after its list predecessor or branch owner succeeded in the same invocation; a list walk calls Invoke at most once more than it is long; the invocation index stays below the driver's count |
| `InvokeHistory.CallsRecorded` | pkg/driver/trace_driver.go:115-164 | at every moment of every run, for every walk: its records are its calls of Invoke with their outcomes, in order; without DAG mode every call leaves its record; in DAG mode the first failing call leaves none and is followed by another call of the same node, so a recorded failure is the walk's second failing call; the records are of the first nodes of the list, and a walk that is over recorded all of it or ended with a failure |
| `InvokeHistory.HandedOver` | pkg/driver/trace_driver.go:139-145 | a record goes to the asynchronous queue exactly if the loader is in asynchronous mode and the call that made it promised a later answer, otherwise to the collector |
| `InvokeHistory.LogOfWalks` | pkg/driver/trace_driver.go:139-146 | the records handed over are those of the walks, each as often as the walks made it |
| `DagBuilder.GenerateNodeDistribution` | pkg/generator/dag_generation.go:228-237 | draws from an empty range exactly for a width below one and a depth above two; otherwise one node at the top, never shrinking, maxWidth at the bottom, one entry per level |
| `DagGenerator.SizeBound` | pkg/generator/dag_generation.go:133-143 | whatever widths were drawn, the levels together have at most (d-1)*w+1 nodes |
| `DagGenerator.BudgetOrdered` | pkg/generator/dag_generation.go:204-206 | below the current level the remaining budget is never negative and never shrinks from level to level |
| `DagGenerator.ExpandInv` | pkg/generator/dag_generation.go:172-193 | a turn of the loop keeps lists, queue, levels, budget, ids and branches consistent, whatever number of branches within the budget is chosen |
| `DagGenerator.Turn` | pkg/generator/dag_generation.go:172-206 | the last node of a level uses up the next level's budget, so the levels follow each other and ids stay within the workflow's size |
| `DagBuilder.Workflow.CreateNewBranch` | pkg/generator/dag_generation.go:217-226 | appends a list that reaches from the next level to the last, its first node in place and placeholders after it |
| `DagBuilder.Workflow.AddBranches` | pkg/generator/dag_generation.go:197-215 | the branches made, their order in the queue and the budget charged; all that is left of the budget if the node is the last of its level |
| `DagBuilder.Expand` | pkg/generator/dag_generation.go:180-192 | the in-place turn of the loop is the abstract one with an allowed number of branches, or it fails, and then only for want of a successor, a level or a function |
| `DagBuilder.Grow` | pkg/generator/dag_generation.go:172-194 | the loop terminates; from a proper start with enough functions it leaves a complete workflow with its budget used up, from a failing start it fails |
| `DagBuilder.CreateDAGWorkflow` | pkg/generator/dag_generation.go:154-195 | for every width and depth that pass the check and every choice: it fails exactly for the sizes of Breaks; otherwise a finished workflow without placeholders on the drawn widths, consecutive ids, at most (d-1)*w+1 of them |
| `DagBuilder.FailingVisit` | pkg/generator/dag_generation.go:172-183 | with a depth below one the loop gets at most from the first to the second node of the root list, which has no successor |
| `DagBuilder.ProperExpand` | pkg/generator/dag_generation.go:172-193 | with enough functions no turn fails, and each keeps the invariant; a width below one at depth two behaves as one |
| `DagResults.LevelWidths` | pkg/generator/dag_generation.go:154-195 | a finished workflow has exactly the drawn number of nodes on every level |
| `DagResults.GetDAGShape` | pkg/generator/dag_generation.go:249-263 | adds the number of branches below a list to the width and the length of the list to the depth |
| `DagResults.ShapeOf` | pkg/generator/dag_generation.go:249-263 | the DAG of a finished workflow consists of `width` lists and its root list is as long as the DAG is deep |
| `DagResults.ReportShape` | pkg/generator/dag_generation.go:249-263 | started at width 1 and depth 0, GetDAGShape reports the requested width and depth; width 1 for depth 1 |
| `DagResults.EachFunctionOnce` | pkg/generator/dag_generation.go:172-225 | every id given out occurs exactly once in the DAG and no other id occurs |
| `DagResults.GetDAGStats` | pkg/generator/dag_generation.go:96-120 | the size chosen always fits; it is the first lookup that fits, or after eleven that do not a single chain of all functions |
| `DagResults.GenerateDAGs` | pkg/generator/dag_generation.go:122-152 | log.Fatal exactly on an invalid configured size; a panic only with the dataset, and with proper table entries exactly if there are no functions; otherwise the DAGs use consecutive ranges of the available functions and too few are left for another one of the configured size; with the dataset each DAG has the size of the first table entry from the lookup after the previous search on that fits all functions, or (1, functions) after eleven that do not, and the size found last no longer fits |
| `DagResults.BuildDag` | pkg/generator/dag_generation.go:140-195 | running the builder on a size that passed the check panics exactly for the sizes of Breaks; the others give a finished DAG, a width below one giving the DAG of width one |
| `DagResults.DagsDisjoint` | pkg/generator/dag_generation.go:128-151 | no function occurs in two generated DAGs, nor twice in one |
| `DagResults.GeneratedDagRecordedOnce` | pkg/driver/trace_driver.go:373-388 | driving a generated DAG, every function of it leaves at most one record per invocation, exactly one if nothing failed |
| `Schedule.DrawIATs` | pkg/generator/specification.go:59-88 | aborts exactly on an unsupported distribution or a zero draw; otherwise positive gaps, as drawn or all equal to an n-th of the column |
| `Schedule.ScaleIATs` | pkg/generator/specification.go:94-106 | the scaled gaps divide the column in proportion to the draws |
| `Schedule.ScaledFills` | pkg/generator/specification.go:94-106 | gaps scaled in proportion to positive draws are positive and add up to the column's length |
| `Schedule.ShiftIATs` | pkg/generator/specification.go:108-127 | the cut index exists; the result is the rest of the cut gap, the gaps after it, the gaps before it, and what had passed of the cut gap |
| `Schedule.ShiftIsRotation` | pkg/generator/specification.go:108-127 | shifting is a cyclic rotation in time: each invocation fires at an old gap end minus the split, wrapped around; duration and number of gaps are kept |
| `Schedule.ShiftedColumn` | pkg/generator/specification.go:108-127 | every invocation of a shifted column fires after its start and not after its end, with a positive leading and a nonnegative trailing piece |
| `Schedule.UnshiftedColumn` | pkg/generator/specification.go:128-130 | every invocation of an unshifted column fires from its start on and before its end |
| `Schedule.GenerateIATPerGranularity` | pkg/generator/specification.go:53-134 | aborts exactly as DrawIATs does for a nonempty column; otherwise n+1 nonnegative gaps that fill the column, with every invocation inside it |
| `Schedule.JoinedTimes` | pkg/generator/specification.go:157-158 | joining a column keeps all earlier firing times and places the column's own times after everything before |
| `Schedule.GenerateIAT` | pkg/generator/specification.go:145-168 | exactly sum(trace) gaps, per-minute counts equal to the trace, every invocation of column m fires in [mT,(m+1)T) unshifted or (mT,(m+1)T] shifted, T being a minute or a second; and it fires at mT plus its time in a column whose gaps are in proportion to that minute's draws and which is cut at that minute's draw if shifted |
| `Azure2019.GenerateInvocationData` | pkg/generator/specification.go:171-188 | the schedule of the trace, every invocation where the gaps and cuts drawn for its minute place it, with exactly one runtime entry per invocation, each the one sampled for it |
| `Azure2019.GenerateAzure2019Specification` | pkg/generator/specification.go:197-216 | every function follows its own trace, or in DAG mode the first function's, at the times and with the runtimes drawn for it; fails exactly if the generation for some function does |
| `Azure2019.LabelledWhereScheduled` | pkg/driver/trace_driver.go:198-250 | the minute an invocation is labelled with is the trace column in which it is scheduled to fire |
| `Azure2019.RuntimeIndexInRange` | pkg/driver/trace_driver.go:124-127 | in every reachable state of every run, a goroutine about to invoke a function finds that function's runtime entry |
| `Azure2019.DagsDriven` | pkg/generator/specification.go:201-214 | generated DAGs over functions that follow the first trace meet what RuntimeIndexInRange asks |
| `Azure2019.SingleDriven` | pkg/driver/trace_driver.go:389-404 | so do drivers of single functions by their own traces |
| `IntervalIndex.ConstructIntervals` | pkg/common/interval_search.go:19-39 | the intervals are those of the minutes with invocations, consecutive and in order, and tile [0, sum) |
| `IntervalIndex.TableSorted` | pkg/common/interval_search.go:19-39 | the intervals are sorted and pairwise disjoint |
| `IntervalIndex.SearchInterval` | pkg/common/interval_search.go:41-58 | finds the one minute m with prefix(m) <= v < prefix(m+1), and nothing exactly if v is outside [0, sum) |
| `IntervalIndex.MinutesOrdered` | pkg/common/interval_search.go:19-58 | no number belongs to two minutes, and larger numbers belong to later minutes |
| `IntervalIndex.MinuteExists` | pkg/common/interval_search.go:19-58 | every number below the sum belongs to a minute |
| `TraceDriver.FunctionsDriver` | pkg/driver/trace_driver.go:166-254 | panics exactly if there is something to fire and nothing counted; otherwise fires everything, the k-th as (m, j) with prefix(m)+j = k, in the right phase, never before its target and within a microsecond of it or at once if late |
| `TraceDriver.AnnounceWarmupEnd` | pkg/driver/trace_driver.go:265-270 | the phase stays warmup exactly while the minute is below the warmup duration |
| `TraceDriver.RunLabels` | pkg/driver/trace_driver.go:198-254 | no two invocations carry the same id string, minutes never go down, the phase never goes back to warmup |
| `TraceDriver.IdInjective` | pkg/driver/trace_driver.go:100-113 | an invocation id determines its minute and its index |
| `TraceDriver.RunCounts` | pkg/driver/trace_driver.go:241-252 | where the counts add up to the invocations, each has its place below its minute's count |
| `TraceDriver.LabelIsMinute` | pkg/driver/trace_driver.go:241-252 | for counts that are a histogram of the schedule (Azure2021, RPS) the label is the minute of the scheduled time |
| `TraceDriver.TargetNearSchedule` | pkg/driver/trace_driver.go:202-210 | the target of invocation k differs from the real-valued schedule by less than k+1 microseconds and, for nonnegative gaps, never lies ahead of it |
| `TraceDriver.LatenessAbsorbed` | pkg/driver/trace_driver.go:204-210 | lateness is only what the delays since the last punctual round exceed the time scheduled since then: it does not accumulate |
| `TraceDriver.Punctual` | pkg/driver/trace_driver.go:204-210 | if the delays of each round fit its gap, no invocation is later than a microsecond and its own sleep's overrun |
| `Timeline.HistogramRecovers` | pkg/common/interval_search.go:19-58 | for ordered minutes, prefix sums of their histogram recover the minute of every invocation |
| `Timeline.CountsRecoverMinutes` | pkg/generator/rps.go:35-58 | the same for the minutes of a schedule's cumulative times |
| `Rps.GenerateFunctionByRPS` | pkg/generator/rps.go:15-33 | for every length and rate: equal gaps after an immediate first invocation, as many as begin before the end; one invocation for rate 0; it does not return exactly if the loop's condition holds after any number of rounds |
| `Rps.NeverEndsIff` | pkg/generator/rps.go:22-25 | the loop's condition holds after any number of rounds exactly for a negative rate and a positive length |
| `Rps.CountNumberOfInvocationsPerMinute` | pkg/generator/rps.go:35-58 | for every schedule: out of range exactly if the length is negative or some invocation falls outside the minutes; otherwise the histogram of the minutes |
| `Rps.GenerateFunctionByRPSWithOffset` | pkg/generator/rps.go:60-66 | for every length, rate and delay: when it is out of range or never ends, exactly; otherwise the delayed schedule and its histogram |
| `Rps.GenerateWarmStartFunction` | pkg/generator/rps.go:68-76 | out of range exactly for a negative length, never ends exactly for a negative rate and a positive length; otherwise the schedule and its histogram; nil exactly for rate 0 or length 0 |
| `Rps.GenerateColdStartFunctions` | pkg/generator/rps.go:79-109 | for every length, rate and cooldown: ceil(rate*cooldown) functions with their delays (ColdTiming), gaps and counts; when it panics or never ends, exactly |
| `ColdTiming.FirstFiring` | pkg/generator/rps.go:85-94 | from a rate of one on, function i first fires in the last whole microsecond not after floor(i/rate) seconds and (i mod floor(rate)) even distances |
| `ColdTiming.EvenlySpaced` | pkg/generator/rps.go:85-94 | at a whole rate R, function i first fires less than a microsecond before, or at, i * 1000000 / R |
| `ColdTiming.NeighbourSpacing` | pkg/generator/rps.go:85-94 | at every rate of one or more, neighbours in a batch first fire 1000000 / rate microseconds apart, give or take less than one, unless the remainder starts again at zero |
| `ColdTiming.ApartIff` | pkg/generator/rps.go:85-94 | from a rate of one on, no two functions first fire at the same time if and only if the rate is whole and at most a million |
| `ColdTiming.Turns` | pkg/generator/rps.go:96-101 | a function fires every cooldown, or below a rate of one every n/rate seconds for n functions, as often as that begins within the experiment |
| `ColdTiming.SlowStart` | pkg/generator/rps.go:85-94 | below a rate of one, function i first fires at the whole second floor(i/rate) |
| `ColdRates.ColdFitsIff` | pkg/generator/rps.go:79-109 | for every length, cooldown and rate of one or more, generation panics if and only if the cooldown is positive and either does not divide the length in seconds or the length is not positive |
| `ColdRates.SlowFitsIff` | pkg/generator/rps.go:79-109 | below a rate of one it panics if and only if the cooldown is positive and either the last function's last invocation falls after the end or the length is not positive |
| `ColdRates.CooldownKept` | pkg/generator/rps.go:79-109 | at every rate two invocations of one function are at least the cooldown apart |
| `ColdRates.ColdTimes` | pkg/generator/rps.go:79-109 | every cold function fires once per cooldown period, at its offset plus multiples of the cooldown |
| `ColdRates.RateEverySecond` | pkg/generator/rps.go:79-109 | from a rate of one on, in every second of the covered span exactly one batch fires, ceil((q+1)*rate) - ceil(q*rate) invocations in second q of the cooldown period |
| `ColdRates.ColdPlan` | pkg/generator/rps.go:79-109 | R*c functions, each fires exactly c seconds apart and 60D/c times, together exactly R times in every second of the experiment |
| `Rps.ColdLabelled` | pkg/generator/rps.go:35-66 | a driver of a cold function labels every invocation with the minute in which it fires |
| `ColdRates.SevenSecondsFail` | pkg/generator/rps.go:79-109 | one minute, one cold start per second and a cooldown of seven seconds index out of range |
| `Azure2021.SortByStart` | pkg/trace/azure2021_trace_parser.go:167-170 | an ordered permutation |
| `Azure2021.GenerateFunctionSpecification` | pkg/trace/azure2021_trace_parser.go:165-232 | when it panics, aborts or returns nothing, exactly; otherwise it takes over exactly the invocations with start + duration <= 60 * durationMinutes, as often as they occur, in order of start; the gaps' sums are their starts in microseconds, the runtimes the nearest integers to 1000 times their durations, halves away from zero, with 1 for 0; and counts them per minute |
| `Azure2021.MinutesRecovered` | pkg/trace/azure2021_trace_parser.go:209-211 | the minute that the driver recovers is that of the invocation's start and of its cumulative time |
| `Azure2021.MinuteOfStart` | pkg/trace/azure2021_trace_parser.go:209-211 | counting minutes by way of nanoseconds agrees with the minute of the scheduled microsecond, and the start lies in that minute |
| `Azure2021.LabelledWithStart` | pkg/trace/azure2021_trace_parser.go:165-232 | a driver of such a specification labels every invocation with the minute of its start in the trace |
| `Azure2021.ZeroStartClashes` | pkg/trace/azure2021_trace_parser.go:182-194 | a single kept invocation at time zero makes it abort |
| `CartesianProduct.Enumerator.constructor` | tools/multi_loader/common/utils.go:66-69 | starts before the first tuple, with buffers of its own |
| `CartesianProduct.Enumerator.Next` | tools/multi_loader/common/utils.go:71-94 | the n-th call hands out the n-th tuple, always in the same buffer, and nil for every call after the last |
| `CartesianProduct.CountUp` | tools/multi_loader/common/utils.go:80-91 | the loop with carries turns the k-th tuple into the next one and reports exactly when there is none |
| `CartesianProduct.RankOfTuple` | tools/multi_loader/common/utils.go:66-95 | every number below product(limit+1) has a tuple within the limits, with that rank |
| `CartesianProduct.TupleOfRank` | tools/multi_loader/common/utils.go:66-95 | every tuple within the limits is handed out, by exactly one call |
| `CartesianProduct.TuplesOrdered` | tools/multi_loader/common/utils.go:66-95 | the tuples come in lexicographic order |
| `CartesianProduct.UnpackGridSweep` | tools/multi_loader/runner/multi_loader_runner.go:316-333 | the loop over the enumerator makes one experiment per combination, in order, in spite of the shared buffer; none without sweep options |

## Left out

- Invokers, deployers, failure triggers, cluster setup, metrics scraper and timekeeper: network and process plumbing; `Invoke` is an arbitrary outcome.
- Test mode of `functionsDriver` and the OpenWhisk/AWS wait group: separate from the accounting protocol.
- File formats, logging, `printDAG` and the CDF file: the widths and depths read from it are an arbitrary function of the lookup's number.
- Weak memory effects of the queue's plain pointer reads, reuse of freed nodes, and wrap-around of its 32-bit length.
- Rounding of float64, overflow of 64-bit durations, and the shape of the random distributions.
- Sampling of runtime and memory from percentiles: a given value or an abort per invocation; the quantile switches are settled by reading one branch.
- DagResults.GenerateDAGs: for a table with entries below 1 a panic has no exact condition on the inputs, since it depends on the widths drawn for earlier DAGs; which sizes panic is exact for one DAG (BuildDag).
- ColdRates.RateEverySecond: for rates below one the times and the failure condition are stated, but not the number of invocations in a second.
- CartesianProduct.Enumerator.Next: limits are natural numbers; a negative limit, which an empty sweep option would give, is not modelled.
- TraceDriver.FunctionsDriver: the goroutines it starts are modelled in RunAccounting, with the same count of invocations.
- Azure2021.SortByStart: stands for the library's sort and is specified only as an ordered permutation.
- HTTP fetching and the fields filled into asynchronous records by the drain.
- The Python tools, trace partitioning, timeline building and unit conversions: only easy members.
