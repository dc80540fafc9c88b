# FCFS scheduling pass, modelled in Dafny

This project models the First-Come-First-Served CPU scheduling pass of the
FCFS simulation (`startScheduling` in `src/App.js`). The pass takes the
ready queue of processes `{ id, arrival, burst }` and copies it. It sorts the
copy stably by arrival time. It then walks the sorted list with a clock
`time` that starts at 0. When the next process has not yet arrived, the
clock jumps forward to its arrival: the CPU is idle over that gap. Each
process is stamped with its start, completion, turnaround and waiting
times. One Gantt slot `{ id, start, end }` is recorded per process. The
clock advances by the burst, and the process is appended to the completed
list.

Files:

- `processes.dfy` (module `Processes`): the records: `Process`, the stamped
  `Scheduled` process and `GanttEntry`.
- `arrival_sort.dfy` (module `ArrivalSort`): the stable sort by arrival
  (the ECMAScript 2019 edition requires `Array.prototype.sort` to be stable),
  modelled as an insertion sort. It is proved sorted and a permutation of
  the input. It is also proved to keep, for every arrival time, the input
  order of the processes with that arrival. Finally it is proved to be the
  only sequence with these properties.
- `scheduler.dfy` (module `Scheduler`): `Stamp` (one step of the pass),
  `Run` (the pass as a recursive specification) and `IsFcfsSchedule` (an
  index-by-index reading of it, proved equivalent). `StartScheduling` is
  the loop itself, proved to compute `Run`, `GanttOf` and the final clock.
  Lemmas state the timing invariants, Gantt ordering and the idle-gap
  accounting of the clock.
- `scenarios.dfy` (module `Scenarios`): concrete runs, including the
  default ready queue of the application.

Arrival and burst are natural numbers. The code performs no validation: a
burst of 0, an empty queue and duplicate ids all go through the pass
unchanged, and the model does the same: it has no error path.

## Model

| member | source | states |
|---|---|---|
| `ArrivalSort.Insert` | src/App.js:21 | inserting a process yields exactly the old elements plus that process, counted as a multiset, and is one element longer |
| `ArrivalSort.SortByArrival` | src/App.js:21 | the processing order has as many processes as the ready queue; its full meaning (sorted, a permutation, stable, and the only such order) is stated by SortByArrivalSorted, SortByArrivalPermutes, SortKeepsTies and SortByArrivalUnique |
| `ArrivalSort.InsertSorted` | src/App.js:21 | inserting into a list sorted by arrival keeps it sorted by arrival |
| `ArrivalSort.SortByArrivalSorted` | src/App.js:21 | the processing order is sorted by arrival ascending |
| `ArrivalSort.SortByArrivalPermutes` | src/App.js:21 | the processing order is a permutation of the ready queue: the same processes, each as often |
| `ArrivalSort.InsertKeepsTies` | src/App.js:21 | an inserted process goes in front of the processes of the list with the same arrival, and every other arrival group is unchanged |
| `ArrivalSort.SortKeepsTies` | src/App.js:21 | stability: for every arrival time, the processes with that arrival appear in the processing order exactly as in the ready queue |
| `ArrivalSort.SortedTiesDetermine` | src/App.js:21 | two sequences sorted by arrival with the same per-arrival subsequences are equal |
| `ArrivalSort.SortByArrivalUnique` | src/App.js:21 | any sequence sorted by arrival that keeps every arrival group in ready-queue order is the processing order |
| `Scheduler.Stamp` | src/App.js:29-41 | a process stamped at a clock starts no earlier than the clock and no earlier than its arrival, and its waiting time is never negative; the full per-process rule is stated by StampMetrics |
| `Scheduler.StampMetrics` | src/App.js:29-41 | a stamped process keeps id, arrival and burst and starts at the later of the clock and its arrival, after the clock only when it arrives after the clock; completion = start + burst, turnaround = completion - arrival >= burst, waiting = turnaround - burst = start - arrival >= 0 |
| `Scheduler.Run` | src/App.js:26-51 | the pass yields exactly one stamped record per process of the queue |
| `Scheduler.RunIsFcfsSchedule` | src/App.js:24-48 | each record of the pass is its process stamped with the clock its predecessor left (clock 0 for the first) |
| `Scheduler.FcfsScheduleIsRun` | src/App.js:24-48 | a sequence that stamps each process with its predecessor's completion is the result of the pass: the rule determines the schedule |
| `Scheduler.StampAt` | src/App.js:29-39 | the i-th record starts at max(previous completion, arrival) and completes a burst later |
| `Scheduler.ScheduleMetrics` | src/App.js:26-51 | the completed list has the queue's length and order and the same id, arrival and burst at each index; start = max(previous completion or 0, arrival); the metrics of lines 38-41 hold, with waiting >= 0 and turnaround >= burst |
| `Scheduler.RunSlotsDisjoint` | src/App.js:29-48 | no process starts before the initial clock, each slot has start <= completion, and any earlier slot completes no later than any later slot starts |
| `Scheduler.GanttOf` | src/App.js:43 | the Gantt chart has exactly one entry per completed process; what each entry holds is stated by GanttOfAt |
| `Scheduler.GanttOfAt` | src/App.js:43 | entry i of the Gantt chart carries process i's id, start time and completion time, so entries come in processing order |
| `Scheduler.GanttOfAppend` | src/App.js:43 | appending a process to the completed list appends its slot to the Gantt chart |
| `Scheduler.GanttOrdered` | src/App.js:43-48 | Gantt entries match the queue's ids one for one, start at or after clock 0, and never overlap: entry i ends at or before entry j starts for i < j |
| `Scheduler.GanttFirstSlot` | src/App.js:24-43 | the first Gantt entry starts at the later of clock 0 and the first process's arrival |
| `Scheduler.GanttIdleGaps` | src/App.js:29-43 | entry i (i > 0) starts strictly after entry i-1 ends iff its process arrives after that end, and then it starts at the arrival; otherwise it starts exactly when entry i-1 ends |
| `Scheduler.FinalClockCoversBursts` | src/App.js:24-48 | the clock after the pass (the last completion) is at least the sum of all bursts, with equality exactly when no process ever started later than the clock it found |
| `Scheduler.RunStep` | src/App.js:26-51 | one loop iteration moves the next queued process, stamped with the current clock, from the rest of the queue onto the completed list |
| `Scheduler.StartScheduling` | src/App.js:21-56 | the loop returns the sorted queue, the completed list equal to the pass `Run`, the Gantt chart of that list, and a clock equal to the last completion time (0 for an empty queue) |
| `Scenarios.DefaultQueueOrder` | src/App.js:5-9 | the default queue P1(0,3), P2(1,5), P3(2,2) is processed in the order P1, P2, P3 |
| `Scenarios.DefaultQueueSchedule` | src/App.js:5-9 | the default queue completes at 3, 8, 10 with turnarounds 3, 7, 8, waiting times 0, 2, 6 and Gantt slots 0-3, 3-8, 8-10 |
| `Scenarios.IdleGapBeforeFirstArrival` | src/App.js:29-41 | a lone process arriving at 5 with burst 2 starts at 5, completes at 7 and waits 0 |
| `Scenarios.TieRunsInQueueOrder` | src/App.js:21 | a ready queue of two processes with equal arrival keeps its order, whatever the two processes are (the general fact is SortKeepsTies) |
| `Scenarios.TieIgnoresIdAndBurst` | src/App.js:21-41 | Y(0,2) listed before X(0,1) runs first, from 0 to 2, and X runs from 2 to 3 and waits 2: ties are not broken by id or burst |
| `Scenarios.LaterArrivalMovedBack` | src/App.js:21 | a process listed first but arriving last is moved behind the earlier arrivals |

## Left out

- React state and its setters (`setCpu`, `setGanttChart`, `setCurrentTime`, `setCompleted`, `setRunning`): these are display state and do not feed back into the computed values.
- The `setTimeout` delays: they pace the animation in wall-clock time and do not change any computed value.
- The `if (running) return` guard: it only stops a second button click from starting a concurrent run.
- All JSX rendering: the queue, CPU box, completed list, Gantt chart and process table.
- JavaScript number semantics: arrival and burst are natural numbers here. Floating point, `NaN`, negative values and string coercion are not modelled.
- Scheduler.StartScheduling: returns fresh stamped records instead of writing `startTime`, `completionTime`, `turnaroundTime` and `waitingTime` into the process objects. The in-place update and its aliasing are not captured: the sorted copy shares its objects with the ready queue, so the writes also show on the ready queue's objects.
- Input validation: the code has none, so there is no error result; see above.
