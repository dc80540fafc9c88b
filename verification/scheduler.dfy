/**
 * The FCFS scheduling pass of `startScheduling` (src/App.js:17-59): walk the
 * processes in arrival order with a clock that starts at 0, let the clock
 * jump forward over an idle gap when the next process has not yet arrived,
 * stamp each process with its start, completion, turnaround and waiting
 * times, and record one Gantt slot per process.
 *
 * `Run` is the recursive specification of the pass, `IsFcfsSchedule` an
 * index-by-index reading of it (each process is stamped with the clock its
 * predecessor left), and `StartScheduling` the loop itself, proved to compute
 * `Run`.
 */
module Scheduler {
  import opened Processes
  import opened ArrivalSort

  /**
   * Stamps `p` when the clock reads `clock` (src/App.js:29-41): the CPU idles
   * until `p` arrives if it has not yet, then runs it for its burst.
   */
  function Stamp(p: Process, clock: nat): (s: Scheduled)
    ensures s.startTime >= clock && s.startTime >= p.arrival && s.waitingTime >= 0
  {
    var start := if p.arrival > clock then p.arrival else clock;
    var completion := start + p.burst;
    var turnaround := completion - p.arrival;
    Scheduled(p.id, p.arrival, p.burst, start, completion, turnaround, turnaround - p.burst)
  }

  /**
   * A stamped process keeps its identity, starts at the later of the clock
   * and its arrival (strictly after the clock only across an idle gap), and
   * its waiting time is the time between arrival and start, never negative.
   */
  lemma StampMetrics(p: Process, clock: nat)
    ensures var s := Stamp(p, clock);
      && s.id == p.id && s.arrival == p.arrival && s.burst == p.burst
      && s.startTime >= clock && s.startTime >= p.arrival
      && (s.startTime == clock || s.startTime == p.arrival)
      && (s.startTime > clock <==> p.arrival > clock)
      && s.completionTime == s.startTime + p.burst
      && s.turnaroundTime == s.completionTime - p.arrival >= p.burst
      && s.waitingTime == s.turnaroundTime - p.burst == s.startTime - p.arrival >= 0
  {
  }

  /**
   * The clock just before the `i`-th process of `r` is handled: `t0` for the
   * first one, the completion time of process `i - 1` afterwards. With
   * `i == |r|` it is the clock after the whole pass.
   */
  function ClockBefore(r: seq<Scheduled>, t0: nat, i: nat): nat
    requires i <= |r|
  {
    if i == 0 then t0 else r[i - 1].completionTime
  }

  /** The scheduling pass over `q`, starting with the clock at `clock`. */
  function Run(q: seq<Process>, clock: nat): (r: seq<Scheduled>)
    ensures |r| == |q|
  {
    if q == [] then []
    else
      var s := Stamp(q[0], clock);
      [s] + Run(q[1..], s.completionTime)
  }

  /** `r` is the FCFS schedule of `q` from clock `t0`, read index by index. */
  ghost predicate IsFcfsSchedule(q: seq<Process>, t0: nat, r: seq<Scheduled>) {
    |r| == |q| &&
    forall i :: 0 <= i < |r| ==> r[i] == Stamp(q[i], ClockBefore(r, t0, i))
  }

  lemma {:induction false} RunIsFcfsSchedule(q: seq<Process>, t0: nat)
    ensures IsFcfsSchedule(q, t0, Run(q, t0))
  {
    if q != [] {
      var r := Run(q, t0);
      var s := Stamp(q[0], t0);
      RunIsFcfsSchedule(q[1..], s.completionTime);
      var rest := Run(q[1..], s.completionTime);
      assert r == [s] + rest;
      forall i | 0 < i < |r| ensures r[i] == Stamp(q[i], ClockBefore(r, t0, i)) {
        assert r[i] == rest[i - 1];
        assert ClockBefore(r, t0, i) == ClockBefore(rest, s.completionTime, i - 1);
      }
    }
  }

  /** The `i`-th process of the schedule, read through `Stamp`. */
  lemma StampAt(q: seq<Process>, t0: nat, r: seq<Scheduled>, i: nat)
    requires r == Run(q, t0) && i < |q|
    ensures r[i] == Stamp(q[i], ClockBefore(r, t0, i))
    ensures r[i].startTime == (if q[i].arrival > ClockBefore(r, t0, i) then q[i].arrival else ClockBefore(r, t0, i))
    ensures r[i].completionTime == r[i].startTime + q[i].burst
  {
    RunIsFcfsSchedule(q, t0);
  }

  /** The index-by-index reading determines the schedule: it can only be `Run`. */
  lemma {:induction false} FcfsScheduleIsRun(q: seq<Process>, t0: nat, r: seq<Scheduled>)
    requires IsFcfsSchedule(q, t0, r)
    ensures r == Run(q, t0)
  {
    if q != [] {
      var s := Stamp(q[0], t0);
      assert r[0] == s;
      var rest := r[1..];
      forall i | 0 <= i < |rest| ensures rest[i] == Stamp(q[1..][i], ClockBefore(rest, s.completionTime, i)) {
        assert rest[i] == r[i + 1];
        assert ClockBefore(rest, s.completionTime, i) == ClockBefore(r, t0, i + 1);
      }
      FcfsScheduleIsRun(q[1..], s.completionTime, rest);
      assert r == [s] + rest;
    }
  }

  /**
   * Every stamped process keeps its id, arrival and burst, starts at the later
   * of its arrival and the clock its predecessor left, and gets the metrics
   * of src/App.js:38-41; hence it never waits a negative time and its
   * turnaround covers its burst.
   */
  lemma ScheduleMetrics(q: seq<Process>, t0: nat, r: seq<Scheduled>)
    requires r == Run(q, t0)
    ensures |r| == |q|
    ensures forall i :: 0 <= i < |q| ==>
        var prev := ClockBefore(r, t0, i);
        && r[i].id == q[i].id && r[i].arrival == q[i].arrival && r[i].burst == q[i].burst
        && r[i].startTime == (if q[i].arrival > prev then q[i].arrival else prev)
        && r[i].completionTime == r[i].startTime + q[i].burst
        && r[i].turnaroundTime == r[i].completionTime - q[i].arrival
        && r[i].waitingTime == r[i].turnaroundTime - q[i].burst
        && r[i].waitingTime == r[i].startTime - q[i].arrival >= 0
        && r[i].turnaroundTime >= q[i].burst
  {
    RunIsFcfsSchedule(q, t0);
  }

  /** No process runs before the clock the pass starts from, and slots never overlap. */
  lemma {:induction false} RunSlotsDisjoint(q: seq<Process>, t0: nat)
    ensures forall i :: 0 <= i < |q| ==> t0 <= Run(q, t0)[i].startTime <= Run(q, t0)[i].completionTime
    ensures forall i, j :: 0 <= i < j < |q| ==> Run(q, t0)[i].completionTime <= Run(q, t0)[j].startTime
  {
    if q != [] {
      var r := Run(q, t0);
      var s := Stamp(q[0], t0);
      var rest := Run(q[1..], s.completionTime);
      RunSlotsDisjoint(q[1..], s.completionTime);
      assert r == [s] + rest;
      forall i | 0 <= i < |r| ensures t0 <= r[i].startTime <= r[i].completionTime {
        if i > 0 {
          assert r[i] == rest[i - 1];
        }
      }
      forall i, j | 0 <= i < j < |r| ensures r[i].completionTime <= r[j].startTime {
        assert r[j] == rest[j - 1];
        if i > 0 {
          assert r[i] == rest[i - 1];
        }
      }
    }
  }

  /** The Gantt chart of a schedule: one `{ id, start, end }` slot per process (src/App.js:43). */
  function GanttOf(r: seq<Scheduled>): (g: seq<GanttEntry>)
    ensures |g| == |r|
  {
    if r == [] then []
    else [GanttEntry(r[0].id, r[0].startTime, r[0].completionTime)] + GanttOf(r[1..])
  }

  /** Slot `i` of the Gantt chart carries process `i`'s id, start time and completion time. */
  lemma {:induction false} GanttOfAt(r: seq<Scheduled>, g: seq<GanttEntry>)
    requires g == GanttOf(r)
    ensures forall i :: 0 <= i < |r| ==>
      g[i].id == r[i].id && g[i].start == r[i].startTime && g[i].end == r[i].completionTime
  {
    if r != [] {
      GanttOfAt(r[1..], GanttOf(r[1..]));
      assert forall i :: 0 < i < |r| ==> g[i] == GanttOf(r[1..])[i - 1] && r[i] == r[1..][i - 1];
    }
  }

  /** Appending a stamped process appends its slot to the Gantt chart (src/App.js:43). */
  lemma {:induction false} GanttOfAppend(r: seq<Scheduled>, s: Scheduled)
    ensures GanttOf(r + [s]) == GanttOf(r) + [GanttEntry(s.id, s.startTime, s.completionTime)]
  {
    if r == [] {
      assert r + [s] == [s];
    } else {
      assert (r + [s])[1..] == r[1..] + [s];
      GanttOfAppend(r[1..], s);
    }
  }

  /**
   * The Gantt chart has one slot per process, in processing order; no slot
   * begins before the clock the pass starts from, and slots are ordered and
   * never overlap.
   */
  lemma GanttOrdered(q: seq<Process>, t0: nat, g: seq<GanttEntry>)
    requires g == GanttOf(Run(q, t0))
    ensures |g| == |q|
    ensures forall i :: 0 <= i < |g| ==> g[i].id == q[i].id && t0 <= g[i].start <= g[i].end
    ensures forall i, j :: 0 <= i < j < |g| ==> g[i].end <= g[j].start
  {
    RunSlotsDisjoint(q, t0);
    ScheduleMetrics(q, t0, Run(q, t0));
    GanttOfAt(Run(q, t0), g);
  }

  /** The first slot begins at the later of the initial clock and its process's arrival. */
  lemma GanttFirstSlot(q: seq<Process>, t0: nat, g: seq<GanttEntry>)
    requires g == GanttOf(Run(q, t0)) && q != []
    ensures g[0].start == (if q[0].arrival > t0 then q[0].arrival else t0)
  {
    StampAt(q, t0, Run(q, t0), 0);
    GanttOfAt(Run(q, t0), g);
  }

  /**
   * A slot begins strictly after the previous one ends exactly when its
   * process arrived after that, and then it begins at the arrival: the CPU
   * idled in between. Otherwise it begins the moment the previous one ends.
   */
  lemma GanttIdleGaps(q: seq<Process>, t0: nat, g: seq<GanttEntry>, i: nat)
    requires g == GanttOf(Run(q, t0)) && 0 < i < |q|
    ensures g[i - 1].end < g[i].start <==> q[i].arrival > g[i - 1].end
    ensures g[i - 1].end < g[i].start ==> g[i].start == q[i].arrival
    ensures g[i - 1].end == g[i].start <==> q[i].arrival <= g[i - 1].end
  {
    StampAt(q, t0, Run(q, t0), i);
    GanttOfAt(Run(q, t0), g);
  }

  /** The sum of the bursts of `q`. */
  function TotalBurst(q: seq<Process>): nat {
    if q == [] then 0 else q[0].burst + TotalBurst(q[1..])
  }

  /** In `r`, run from clock `t0`, every process starts the moment the clock reaches it. */
  ghost predicate NoIdleGap(r: seq<Scheduled>, t0: nat) {
    forall i :: 0 <= i < |r| ==> r[i].startTime == ClockBefore(r, t0, i)
  }

  /** The schedule has no idle gap iff its first process starts at once and the rest has none. */
  lemma NoIdleGapCons(s: Scheduled, rest: seq<Scheduled>, t0: nat)
    ensures NoIdleGap([s] + rest, t0) <==> s.startTime == t0 && NoIdleGap(rest, s.completionTime)
  {
    var r := [s] + rest;
    assert forall i :: 0 < i < |r| ==> r[i] == rest[i - 1];
    if NoIdleGap(r, t0) {
      assert r[0].startTime == ClockBefore(r, t0, 0);
      forall i | 0 <= i < |rest| ensures rest[i].startTime == ClockBefore(rest, s.completionTime, i) {
        assert r[i + 1].startTime == ClockBefore(r, t0, i + 1);
      }
    }
    if s.startTime == t0 && NoIdleGap(rest, s.completionTime) {
      forall i | 0 <= i < |r| ensures r[i].startTime == ClockBefore(r, t0, i) {
        if i > 0 {
          assert rest[i - 1].startTime == ClockBefore(rest, s.completionTime, i - 1);
        }
      }
    }
  }

  /**
   * The clock after the pass (the last completion time) is at least the
   * start clock plus all bursts, with equality exactly when the clock never
   * jumped over an idle gap.
   */
  lemma {:induction false} FinalClockCoversBursts(q: seq<Process>, t0: nat, r: seq<Scheduled>)
    requires r == Run(q, t0)
    ensures ClockBefore(r, t0, |r|) >= t0 + TotalBurst(q)
    ensures ClockBefore(r, t0, |r|) == t0 + TotalBurst(q) <==> NoIdleGap(r, t0)
  {
    if q != [] {
      var s := Stamp(q[0], t0);
      StampMetrics(q[0], t0);
      var c := s.completionTime;
      var rest := Run(q[1..], c);
      FinalClockCoversBursts(q[1..], c, rest);
      assert r == [s] + rest;
      assert ClockBefore(r, t0, |r|) == ClockBefore(rest, c, |rest|);
      assert TotalBurst(q) == q[0].burst + TotalBurst(q[1..]);
      NoIdleGapCons(s, rest, t0);
    }
  }

  /**
   * One iteration of the pass moves the next queued process, stamped with the
   * current clock, from the queue to the completed list.
   */
  lemma RunStep(q: seq<Process>, i: nat, done: seq<Scheduled>, clock: nat, s: Scheduled)
    requires i < |q| && s == Stamp(q[i], clock)
    ensures done + Run(q[i..], clock) == (done + [s]) + Run(q[i + 1..], s.completionTime)
  {
    assert q[i..] == [q[i]] + q[i + 1..];
  }

  /**
   * The scheduling pass of `startScheduling` (src/App.js:21-56): sort a copy
   * of the ready queue by arrival, then walk it with the clock `time`,
   * filling the Gantt chart and the completed list.
   */
  method StartScheduling(readyQueue: seq<Process>)
    returns (queue: seq<Process>, completedList: seq<Scheduled>, gantt: seq<GanttEntry>, time: nat)
    ensures queue == SortByArrival(readyQueue)
    ensures completedList == Run(queue, 0)
    ensures gantt == GanttOf(completedList)
    ensures time == ClockBefore(completedList, 0, |completedList|)
  {
    queue := SortByArrival(readyQueue);
    completedList := [];
    gantt := [];
    time := 0;
    for i := 0 to |queue|
      invariant |completedList| == i
      invariant completedList + Run(queue[i..], time) == Run(queue, 0)
      invariant gantt == GanttOf(completedList)
      invariant time == ClockBefore(completedList, 0, i)
    {
      var current := queue[i];
      ghost var clock := time;
      if current.arrival > time {
        time := current.arrival;
      }
      var startTime := time;
      var completionTime := time + current.burst;
      var turnaroundTime := completionTime - current.arrival;
      var waitingTime := turnaroundTime - current.burst;
      var stamped := Scheduled(current.id, current.arrival, current.burst,
                               startTime, completionTime, turnaroundTime, waitingTime);
      assert stamped == Stamp(current, clock);
      RunStep(queue, i, completedList, clock, stamped);
      GanttOfAppend(completedList, stamped);
      gantt := gantt + [GanttEntry(stamped.id, stamped.startTime, stamped.completionTime)];
      time := time + current.burst;
      assert ClockBefore(completedList + [stamped], 0, i + 1) == time;
      completedList := completedList + [stamped];
    }
    assert queue[|queue|..] == [];
  }
}
