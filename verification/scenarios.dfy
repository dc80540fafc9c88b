/** Concrete runs of the scheduling pass. */
module Scenarios {
  import opened Processes
  import opened ArrivalSort
  import opened Scheduler

  /** The default ready queue P1 (arrival 0, burst 3), P2 (1, 5), P3 (2, 2) (src/App.js:5-9) is already in arrival order. */
  lemma DefaultQueueOrder()
    ensures var q := [Process("P1", 0, 3), Process("P2", 1, 5), Process("P3", 2, 2)];
      SortByArrival(q) == q
  {
    var q := [Process("P1", 0, 3), Process("P2", 1, 5), Process("P3", 2, 2)];
    assert q[1..] == [Process("P2", 1, 5), Process("P3", 2, 2)];
    assert q[1..][1..] == [Process("P3", 2, 2)];
    assert SortByArrival(q[1..][1..]) == [Process("P3", 2, 2)];
    assert SortByArrival(q[1..]) == q[1..];
  }

  /**
   * The default ready queue completes at 3, 8 and 10, with turnarounds
   * 3, 7, 8 and waiting times 0, 2, 6.
   */
  lemma DefaultQueueSchedule()
    ensures var q := [Process("P1", 0, 3), Process("P2", 1, 5), Process("P3", 2, 2)];
      && Run(q, 0) == [Scheduled("P1", 0, 3, 0, 3, 3, 0),
                       Scheduled("P2", 1, 5, 3, 8, 7, 2),
                       Scheduled("P3", 2, 2, 8, 10, 8, 6)]
      && GanttOf(Run(q, 0)) == [GanttEntry("P1", 0, 3), GanttEntry("P2", 3, 8), GanttEntry("P3", 8, 10)]
  {
    var q := [Process("P1", 0, 3), Process("P2", 1, 5), Process("P3", 2, 2)];
    var r := [Scheduled("P1", 0, 3, 0, 3, 3, 0), Scheduled("P2", 1, 5, 3, 8, 7, 2), Scheduled("P3", 2, 2, 8, 10, 8, 6)];
    assert q[1..] == [Process("P2", 1, 5), Process("P3", 2, 2)];
    assert q[1..][1..] == [Process("P3", 2, 2)];
    assert Run(q[1..][1..], 8) == r[2..];
    assert Run(q[1..], 3) == r[1..];
    assert Run(q, 0) == r;
  }

  /** A lone process arriving at 5 starts at 5, not 0: the clock jumps over the idle gap. */
  lemma IdleGapBeforeFirstArrival()
    ensures Run([Process("A", 5, 2)], 0) == [Scheduled("A", 5, 2, 5, 7, 2, 0)]
  {
  }

  /** Of two processes arriving together, the one first in the ready queue runs first. */
  lemma TieRunsInQueueOrder(first: Process, second: Process)
    requires first.arrival == second.arrival
    ensures SortByArrival([first, second]) == [first, second]
  {
    assert [first, second][1..] == [second];
    assert SortByArrival([second]) == [second];
  }

  /** The tie is broken by queue position, not by id or burst. */
  lemma TieIgnoresIdAndBurst()
    ensures Run(SortByArrival([Process("Y", 0, 2), Process("X", 0, 1)]), 0)
         == [Scheduled("Y", 0, 2, 0, 2, 2, 0), Scheduled("X", 0, 1, 2, 3, 3, 2)]
  {
    TieRunsInQueueOrder(Process("Y", 0, 2), Process("X", 0, 1));
    var q := [Process("Y", 0, 2), Process("X", 0, 1)];
    assert q[1..] == [Process("X", 0, 1)];
  }

  /** A later arrival listed first in the ready queue is moved behind earlier arrivals. */
  lemma LaterArrivalMovedBack()
    ensures SortByArrival([Process("P3", 2, 2), Process("P1", 0, 3), Process("P2", 1, 5)])
         == [Process("P1", 0, 3), Process("P2", 1, 5), Process("P3", 2, 2)]
  {
  }
}
