/** The records the FCFS simulation works on (src/App.js). */
module Processes {

  /** A process of the ready queue: `{ id, burst, arrival }` (src/App.js:5-9). */
  datatype Process = Process(id: string, arrival: nat, burst: nat)

  /**
   * A process after the scheduling pass has stamped it with its timing
   * fields (src/App.js:38-41). Turnaround and waiting are differences and so
   * are typed `int`; that they are never negative is proved, not assumed.
   */
  datatype Scheduled = Scheduled(
    id: string, arrival: nat, burst: nat,
    startTime: nat, completionTime: nat,
    turnaroundTime: int, waitingTime: int)

  /** One slot of the Gantt chart, `{ id, start, end }` (src/App.js:43). */
  datatype GanttEntry = GanttEntry(id: string, start: nat, end: nat)
}
