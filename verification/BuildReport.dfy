/**
 The build report: targets with their weighted durations, filled in by the sweep over start and stop events, and the
 totals that are printed.
 */
module BuildReport {
  import opened WeightedTime
  import opened BuildSweep

  /** Allowance for rounding in the sanity assertion. */
  const EPSILON := 0.000002

  datatype Error = NoEntries | NotRunning | WeightTooLarge

  datatype Result<T> = Ok(value: T) | Err(error: Error)

  datatype Summary = Summary(length: real, cpuTime: real, weightedTotal: real)

  /** One command of the build, with the outputs it made. */
  class Target {
    const start: real
    const end: real
    var targets: seq<string>
    var weightedDuration: real

    constructor (start: real, end: real)
      ensures this.start == start && this.end == end && targets == [] && weightedDuration == 0.0
    {
      this.start := start;
      this.end := end;
      targets := [];
      weightedDuration := 0.0;
    }

    function Duration(): real {
      end - start
    }

    method SetWeightedDuration(w: real)
      modifies `weightedDuration
      ensures weightedDuration == w
    {
      weightedDuration := w;
    }

    /** The stored weight, refused exactly when it exceeds the duration by more than the allowance. */
    method WeightedDuration() returns (r: Result<real>)
      ensures weightedDuration <= end - start + 0.000002 ==> r == Ok(weightedDuration)
      ensures weightedDuration > end - start + 0.000002 ==> r == Err(WeightTooLarge)
    {
      if weightedDuration > Duration() + EPSILON { return Err(WeightTooLarge); }
      r := Ok(weightedDuration);
    }
  }

  function TaskOf(t: Target): Task {
    Task(t.start, t.end)
  }

  function Tasks(entries: seq<Target>): seq<Task> {
    seq(|entries|, i requires 0 <= i < |entries| => TaskOf(entries[i]))
  }

  ghost predicate Distinct(entries: seq<Target>) {
    forall i, j :: 0 <= i < j < |entries| ==> entries[i] != entries[j]
  }

  /** Some command stops before it starts. */
  ghost predicate Backwards(tasks: seq<Task>) {
    exists i :: 0 <= i < |tasks| && tasks[i].end < tasks[i].start
  }

  // ---------------------------------------------------------------------------------------------
  // The sweep
  // ---------------------------------------------------------------------------------------------

  /** The variables of the sweep: the running tasks with the total at their start, the total, the last time, the sum. */
  datatype Sweep = Sweep(running: map<nat, real>, level: real, last: real, total: real)

  /** The running total once the time has moved on. */
  function Accrued(s: Sweep, time: real): real {
    if |s.running| > 0 then s.level + Evenly(time - s.last, |s.running|) else s.level
  }

  function Begin(s: Sweep, e: Event): Sweep {
    var level := Accrued(s, e.time);
    Sweep(s.running[e.task := level], level, e.time, s.total)
  }

  function Finish(s: Sweep, e: Event): Sweep
    requires e.task in s.running
  {
    var level := Accrued(s, e.time);
    Sweep(s.running - {e.task}, level, e.time, s.total + (level - s.running[e.task]))
  }

  /** What the tasks stopped before event m have received. */
  ghost function Ended(ts: seq<real>, starts: seq<nat>, stops: seq<nat>, n: nat, m: nat): real
    requires |starts| == |stops| && n <= |starts|
    requires forall i :: 0 <= i < |starts| ==> starts[i] < |ts| && stops[i] < |ts|
  {
    if n == 0 then 0.0
    else Ended(ts, starts, stops, n - 1, m) + if stops[n - 1] < m then Received(ts, starts, stops, n - 1) else 0.0
  }

  ghost function Received(ts: seq<real>, starts: seq<nat>, stops: seq<nat>, i: nat): real
    requires |starts| == |stops| && i < |starts| && starts[i] < |ts| && stops[i] < |ts|
  {
    Level(ts, starts, stops, stops[i] + 1) - Level(ts, starts, stops, starts[i] + 1)
  }

  lemma {:induction false} EndedNext(ts: seq<real>, starts: seq<nat>, stops: seq<nat>, n: nat, m: nat, i: nat)
    requires |starts| == |stops| && n <= |starts| && i < |starts|
    requires forall k :: 0 <= k < |starts| ==> starts[k] < |ts| && stops[k] < |ts|
    requires forall k :: 0 <= k < |starts| ==> (stops[k] == m <==> k == i)
    ensures Ended(ts, starts, stops, n, m + 1)
         == Ended(ts, starts, stops, n, m) + if i < n then Received(ts, starts, stops, i) else 0.0
  {
    hide Received;
    if n > 0 { EndedNext(ts, starts, stops, n - 1, m, i); }
  }

  lemma {:induction false} EndedSame(ts: seq<real>, starts: seq<nat>, stops: seq<nat>, n: nat, m: nat)
    requires |starts| == |stops| && n <= |starts|
    requires forall k :: 0 <= k < |starts| ==> starts[k] < |ts| && stops[k] < |ts| && stops[k] != m
    ensures Ended(ts, starts, stops, n, m + 1) == Ended(ts, starts, stops, n, m)
  {
    hide Received;
    if n > 0 { EndedSame(ts, starts, stops, n - 1, m); }
  }

  lemma {:induction false} NoneEnded(ts: seq<real>, starts: seq<nat>, stops: seq<nat>, n: nat)
    requires |starts| == |stops| && n <= |starts|
    requires forall k :: 0 <= k < |starts| ==> starts[k] < |ts| && stops[k] < |ts|
    ensures Ended(ts, starts, stops, n, 0) == 0.0
  {
    if n > 0 { NoneEnded(ts, starts, stops, n - 1); }
  }

  /** Once every task has stopped, the total is the sum of the weighted durations. */
  lemma {:induction false} AllEnded(tasks: seq<Task>, events: seq<Event>, starts: seq<nat>, stops: seq<nat>, n: nat)
    requires Timeline(tasks, events, starts, stops) && n <= |tasks|
    ensures Ended(Times(events), starts, stops, n, |events|) == TotalWeighted(tasks, Times(events), n, |events|)
  {
    hide Level, Weighted, Sorted;
    if n > 0 {
      AllEnded(tasks, events, starts, stops, n - 1);
      WeightOfTask(tasks, events, starts, stops, n - 1);
    }
  }

  /** What the sweep holds before event m: the running tasks with the total at their start, the total, the last time. */
  ghost predicate Holding(tasks: seq<Task>, events: seq<Event>, starts: seq<nat>, stops: seq<nat>, m: nat, s: Sweep)
    requires Indexed(tasks, events, starts, stops) && m <= |events|
  {
    var ts := Times(events);
    && s.running.Keys == Live(starts, stops, m)
    && (forall i :: i in s.running ==> s.running[i] == Level(ts, starts, stops, starts[i] + 1))
    && s.level == Level(ts, starts, stops, m)
    && (m > 0 ==> s.last == ts[m - 1])
    && s.total == Ended(ts, starts, stops, |tasks|, m)
    && forall i :: 0 <= i < |tasks| && stops[i] < m ==> starts[i] < stops[i]
  }

  /** Every target stopped before event m has its weight. */
  ghost predicate Recorded(entries: seq<Target>, events: seq<Event>, starts: seq<nat>, stops: seq<nat>, m: nat)
    requires Indexed(Tasks(entries), events, starts, stops)
    reads entries
  {
    forall i :: 0 <= i < |entries| && stops[i] < m ==>
      entries[i].weightedDuration == Received(Times(events), starts, stops, i)
  }

  lemma SweepStarts(tasks: seq<Task>, events: seq<Event>, starts: seq<nat>, stops: seq<nat>, last: real)
    requires Indexed(tasks, events, starts, stops)
    ensures Holding(tasks, events, starts, stops, 0, Sweep(map[], 0.0, last, 0.0))
  {
    NoneEnded(Times(events), starts, stops, |tasks|);
  }

  /** The total moves from one level to the next, whatever time the sweep starts from. */
  lemma NextLevel(tasks: seq<Task>, events: seq<Event>, starts: seq<nat>, stops: seq<nat>, m: nat, s: Sweep)
    requires Indexed(tasks, events, starts, stops) && m < |events| && Holding(tasks, events, starts, stops, m, s)
    ensures Accrued(s, events[m].time) == Level(Times(events), starts, stops, m + 1)
  {
    hide Evenly, Ended, Sorted;
    var live := Live(starts, stops, m);
    assert |s.running| == |s.running.Keys| == |live|;
    assert live == {} <==> |live| == 0;
    if m == 0 { assert Live(starts, stops, 0) == {}; }
  }

  /** Only event m starts or stops a task at place m. */
  lemma EventAt(tasks: seq<Task>, events: seq<Event>, starts: seq<nat>, stops: seq<nat>, m: nat)
    requires Indexed(tasks, events, starts, stops) && m < |events|
    ensures forall k :: 0 <= k < |tasks| ==> (starts[k] == m <==> events[m].action.Start? && k == events[m].task)
    ensures forall k :: 0 <= k < |tasks| ==> (stops[k] == m <==> events[m].action.Stop? && k == events[m].task)
  {
  }

  /** A task's start comes before its stop in the sweep exactly when it does in time. */
  lemma StartFirst(tasks: seq<Task>, events: seq<Event>, starts: seq<nat>, stops: seq<nat>, i: nat)
    requires Sorted(events) && Indexed(tasks, events, starts, stops) && i < |tasks|
    ensures starts[i] < stops[i] <==> tasks[i].start <= tasks[i].end
  {
    assert events[starts[i]] == StartOf(tasks, i) && events[stops[i]] == StopOf(tasks, i);
    if starts[i] < stops[i] {
      assert Before(events[starts[i]], events[stops[i]]);
    } else {
      assert Before(events[stops[i]], events[starts[i]]);
    }
  }

  lemma StartKeepsHolding(tasks: seq<Task>, events: seq<Event>, starts: seq<nat>, stops: seq<nat>, m: nat, s: Sweep)
    requires Indexed(tasks, events, starts, stops) && m < |events| && Holding(tasks, events, starts, stops, m, s)
    requires events[m].action.Start?
    // The stop of this task has not been seen, or the sweep would have failed on it.
    ensures Holding(tasks, events, starts, stops, m + 1, Begin(s, events[m]))
  {
    hide Ended, Level, Received, Accrued;
    EventAt(tasks, events, starts, stops, m);
    NextLevel(tasks, events, starts, stops, m, s);
    EndedSame(Times(events), starts, stops, |tasks|, m);
    var i := events[m].task;
    assert Live(starts, stops, m + 1) == Live(starts, stops, m) + {i};
  }

  lemma StopKeepsHolding(tasks: seq<Task>, events: seq<Event>, starts: seq<nat>, stops: seq<nat>, m: nat, s: Sweep)
    requires Indexed(tasks, events, starts, stops) && m < |events| && Holding(tasks, events, starts, stops, m, s)
    requires events[m].action.Stop? && events[m].task in s.running
    ensures Holding(tasks, events, starts, stops, m + 1, Finish(s, events[m]))
    ensures Accrued(s, events[m].time) - s.running[events[m].task] == Received(Times(events), starts, stops, events[m].task)
  {
    hide Ended, Level, Accrued;
    EventAt(tasks, events, starts, stops, m);
    NextLevel(tasks, events, starts, stops, m, s);
    var i := events[m].task;
    EndedNext(Times(events), starts, stops, |tasks|, m, i);
    assert Live(starts, stops, m + 1) == Live(starts, stops, m) - {i};
  }

  lemma RecordedNext(entries: seq<Target>, events: seq<Event>, starts: seq<nat>, stops: seq<nat>, m: nat)
    requires Indexed(Tasks(entries), events, starts, stops) && m < |events|
    requires Recorded(entries, events, starts, stops, m)
    requires events[m].action.Stop? ==>
      entries[events[m].task].weightedDuration == Received(Times(events), starts, stops, events[m].task)
    ensures Recorded(entries, events, starts, stops, m + 1)
  {
    hide Received;
    EventAt(Tasks(entries), events, starts, stops, m);
  }

  lemma NothingLeftRunning(tasks: seq<Task>, events: seq<Event>, starts: seq<nat>, stops: seq<nat>, s: Sweep)
    requires Indexed(tasks, events, starts, stops) && Holding(tasks, events, starts, stops, |events|, s)
    ensures |s.running| == 0
  {
    assert Live(starts, stops, |events|) == {};
    assert s.running.Keys == {};
    assert |s.running| == |s.running.Keys|;
  }

  lemma StoppedEarly(tasks: seq<Task>, events: seq<Event>, starts: seq<nat>, stops: seq<nat>, m: nat, s: Sweep)
    requires Sorted(events) && Indexed(tasks, events, starts, stops) && m < |events|
    requires Holding(tasks, events, starts, stops, m, s) && events[m].action.Stop? && events[m].task !in s.running
    ensures Backwards(tasks)
  {
    hide Ended, Level, Received, Sorted;
    StartFirst(tasks, events, starts, stops, events[m].task);
  }

  /** One event: the running total moves on, and a command starts, or stops and gets its weight. */
  method HandleEvent(entries: seq<Target>, events: seq<Event>, m: nat, s: Sweep, ghost starts: seq<nat>, ghost stops: seq<nat>)
    returns (ok: bool, s': Sweep)
    requires Distinct(entries) && Sorted(events) && Indexed(Tasks(entries), events, starts, stops) && m < |events|
    requires Holding(Tasks(entries), events, starts, stops, m, s) && Recorded(entries, events, starts, stops, m)
    modifies entries`weightedDuration
    ensures ok ==> Holding(Tasks(entries), events, starts, stops, m + 1, s') && Recorded(entries, events, starts, stops, m + 1)
    ensures !ok ==> Backwards(Tasks(entries))
  {
    hide Ended, Level, Received, Live, Sorted, Accrued, Holding;
    var e := events[m];
    var level := Accrued(s, e.time);
    if e.action.Start? {
      StartKeepsHolding(Tasks(entries), events, starts, stops, m, s);
      s' := Sweep(s.running[e.task := level], level, e.time, s.total);
    } else {
      if e.task !in s.running {
        StoppedEarly(Tasks(entries), events, starts, stops, m, s);
        return false, s;
      }
      StopKeepsHolding(Tasks(entries), events, starts, stops, m, s);
      var w := level - s.running[e.task];
      entries[e.task].SetWeightedDuration(w);
      s' := Sweep(s.running - {e.task}, level, e.time, s.total + w);
    }
    RecordedNext(entries, events, starts, stops, m);
    ok := true;
  }

  lemma SweptInOrder(tasks: seq<Task>, events: seq<Event>, starts: seq<nat>, stops: seq<nat>, s: Sweep)
    requires Sorted(events) && Indexed(tasks, events, starts, stops) && Holding(tasks, events, starts, stops, |events|, s)
    ensures Timeline(tasks, events, starts, stops) && s.total == Ended(Times(events), starts, stops, |tasks|, |events|)
  {
  }

  /**
   The sweep. Without events, or when a stop finds its command not running, it fails; otherwise nothing is left running and
   every target has received its weight.
   */
  method SweepEvents(entries: seq<Target>, events: seq<Event>, ghost starts: seq<nat>, ghost stops: seq<nat>)
    returns (r: Result<real>)
    requires Distinct(entries) && Sorted(events) && Indexed(Tasks(entries), events, starts, stops)
    modifies entries`weightedDuration
    ensures |events| == 0 <==> r == Err(NoEntries)
    ensures r == Err(NotRunning) ==> Backwards(Tasks(entries))
    ensures r.Ok? ==> Timeline(Tasks(entries), events, starts, stops)
    ensures r.Ok? ==> Recorded(entries, events, starts, stops, |events|)
    ensures r.Ok? ==> r.value == Ended(Times(events), starts, stops, |entries|, |events|)
    ensures r != Err(WeightTooLarge)
  {
    hide Ended, Level, Received, Live, Sorted, Holding, Timeline, Backwards;
    if |events| == 0 { return Err(NoEntries); }
    ghost var tasks := Tasks(entries);
    var s := Sweep(map[], 0.0, events[0].time, 0.0);
    SweepStarts(tasks, events, starts, stops, s.last);
    for m := 0 to |events|
      invariant Holding(tasks, events, starts, stops, m, s) && Recorded(entries, events, starts, stops, m)
    {
      var ok, s' := HandleEvent(entries, events, m, s, starts, stops);
      if !ok { return Err(NotRunning); }
      s := s';
    }
    NothingLeftRunning(tasks, events, starts, stops, s);
    assert |s.running| == 0;
    SweptInOrder(tasks, events, starts, stops, s);
    r := Ok(s.total);
  }

  // ---------------------------------------------------------------------------------------------
  // The totals
  // ---------------------------------------------------------------------------------------------

  /** The earliest start as the report finds it: a negative value stands for "none yet". */
  function Earliest(tasks: seq<Task>, n: nat): real
    requires n <= |tasks|
  {
    if n == 0 then -1.0
    else
      var e := Earliest(tasks, n - 1);
      if e < 0.0 || tasks[n - 1].start < e then tasks[n - 1].start else e
  }

  function Latest(tasks: seq<Task>, n: nat): real
    requires n <= |tasks|
  {
    if n == 0 then 0.0
    else
      var l := Latest(tasks, n - 1);
      if tasks[n - 1].end > l then tasks[n - 1].end else l
  }

  function CpuTime(tasks: seq<Task>, n: nat): real
    requires n <= |tasks|
  {
    if n == 0 then 0.0 else CpuTime(tasks, n - 1) + (tasks[n - 1].end - tasks[n - 1].start)
  }

  /** x is the first start. */
  ghost predicate FirstStart(tasks: seq<Task>, n: nat, x: real)
    requires n <= |tasks|
  {
    (exists i :: 0 <= i < n && tasks[i].start == x) && forall i :: 0 <= i < n ==> x <= tasks[i].start
  }

  ghost predicate NoNegativeStart(tasks: seq<Task>, n: nat)
    requires n <= |tasks|
  {
    forall i :: 0 <= i < n ==> tasks[i].start >= 0.0
  }

  lemma {:induction false} EarliestIfNonNegative(tasks: seq<Task>, n: nat)
    requires 0 < n <= |tasks| && NoNegativeStart(tasks, n)
    ensures FirstStart(tasks, n, Earliest(tasks, n)) && Earliest(tasks, n) >= 0.0
  {
    if n == 1 {
      assert tasks[0].start == Earliest(tasks, 1);
    } else {
      EarliestIfNonNegative(tasks, n - 1);
      if tasks[n - 1].start == Earliest(tasks, n) {
      } else {
        var i :| 0 <= i < n - 1 && tasks[i].start == Earliest(tasks, n - 1);
        assert tasks[i].start == Earliest(tasks, n);
      }
    }
  }

  /** A negative result can only be the start of the last entry. */
  lemma EarliestIfNegative(tasks: seq<Task>, n: nat)
    requires 0 < n <= |tasks| && Earliest(tasks, n) < 0.0
    ensures Earliest(tasks, n) == tasks[n - 1].start
  {
  }

  /** The report finds the first start exactly when no start is negative or the last entry's start is the first. */
  lemma EarliestExactly(tasks: seq<Task>, n: nat)
    requires 0 < n <= |tasks|
    ensures FirstStart(tasks, n, Earliest(tasks, n)) <==>
            NoNegativeStart(tasks, n) || FirstStart(tasks, n, tasks[n - 1].start)
  {
    if NoNegativeStart(tasks, n) {
      EarliestIfNonNegative(tasks, n);
    } else if FirstStart(tasks, n, Earliest(tasks, n)) {
      EarliestIfNegative(tasks, n);
    }
  }

  /** A negative start that is not the last is forgotten. */
  lemma EarliestMissesNegative()
    ensures var tasks := [Task(-1.0, 0.0), Task(1.0, 2.0)];
            Earliest(tasks, 2) == 1.0 && FirstStart(tasks, 2, -1.0) && !FirstStart(tasks, 2, Earliest(tasks, 2))
  {
    var tasks := [Task(-1.0, 0.0), Task(1.0, 2.0)];
    assert tasks[0].start == -1.0 && tasks[1].start == 1.0;
    assert Earliest(tasks, 0) == -1.0;
    assert Earliest(tasks, 1) == -1.0;
  }

  lemma {:induction false} LatestIs(tasks: seq<Task>, n: nat)
    requires n <= |tasks|
    ensures forall i :: 0 <= i < n ==> tasks[i].end <= Latest(tasks, n)
    ensures Latest(tasks, n) >= 0.0
    ensures Latest(tasks, n) > 0.0 ==> exists i :: 0 <= i < n && tasks[i].end == Latest(tasks, n)
  {
    if n > 0 {
      LatestIs(tasks, n - 1);
      if Latest(tasks, n) == tasks[n - 1].end {
      } else if Latest(tasks, n) > 0.0 {
        var i :| 0 <= i < n - 1 && tasks[i].end == Latest(tasks, n - 1);
      }
    }
  }

  lemma EventTimesAreCuts(tasks: seq<Task>, events: seq<Event>, starts: seq<nat>, stops: seq<nat>)
    requires Timeline(tasks, events, starts, stops)
    ensures CutsOf(tasks, Times(events))
  {
    var ts := Times(events);
    forall i | 0 <= i < |tasks| ensures tasks[i].start <= tasks[i].end && tasks[i].start in ts && tasks[i].end in ts {
      StartFirst(tasks, events, starts, stops, i);
      assert ts[starts[i]] == tasks[i].start && ts[stops[i]] == tasks[i].end;
    }
    forall k | 0 <= k < |ts| ensures exists i :: 0 <= i < |tasks| && (ts[k] == tasks[i].start || ts[k] == tasks[i].end) {
      var i := events[k].task;
      assert events[k] == StartOf(tasks, i) || events[k] == StopOf(tasks, i);
      assert ts[k] == tasks[i].start || ts[k] == tasks[i].end;
    }
  }

  /** When no time is negative, the length the report prints runs from the first cut to the last. */
  lemma LengthIsSpan(tasks: seq<Task>, ts: seq<real>)
    requires Ascending(ts) && CutsOf(tasks, ts) && |ts| > 0 && NoNegativeStart(tasks, |tasks|)
    ensures Earliest(tasks, |tasks|) == ts[0] && Latest(tasks, |tasks|) == ts[|ts| - 1]
  {
    FirstCut(tasks, ts);
    LastCut(tasks, ts);
  }

  lemma FirstCut(tasks: seq<Task>, ts: seq<real>)
    requires Ascending(ts) && CutsOf(tasks, ts) && |ts| > 0 && NoNegativeStart(tasks, |tasks|)
    ensures Earliest(tasks, |tasks|) == ts[0]
  {
    hide Earliest;
    var i :| 0 <= i < |tasks| && (ts[0] == tasks[i].start || ts[0] == tasks[i].end);
    EarliestIfNonNegative(tasks, |tasks|);
    var j :| 0 <= j < |tasks| && tasks[j].start == Earliest(tasks, |tasks|);
    var k :| 0 <= k < |ts| && ts[k] == tasks[j].start;
    assert ts[0] <= ts[k];
    assert tasks[i].start <= tasks[i].end;
  }

  lemma LastCut(tasks: seq<Task>, ts: seq<real>)
    requires Ascending(ts) && CutsOf(tasks, ts) && |ts| > 0 && NoNegativeStart(tasks, |tasks|)
    ensures Latest(tasks, |tasks|) == ts[|ts| - 1]
  {
    hide Latest;
    var last := ts[|ts| - 1];
    var i :| 0 <= i < |tasks| && (last == tasks[i].start || last == tasks[i].end);
    LatestIs(tasks, |tasks|);
    assert tasks[i].start <= tasks[i].end;
    var l := Latest(tasks, |tasks|);
    assert last <= l;
    if l > 0.0 {
      var j :| 0 <= j < |tasks| && tasks[j].end == l;
      var k :| 0 <= k < |ts| && ts[k] == tasks[j].end;
      assert ts[k] <= last;
    }
  }

  /** First pass over the entries: extent of the build, time spent in commands, and the events. */
  method Collect(entries: seq<Target>) returns (earliest: real, latest: real, cpuTime: real, events: seq<Event>)
    ensures earliest == Earliest(Tasks(entries), |entries|) && latest == Latest(Tasks(entries), |entries|)
    ensures cpuTime == CpuTime(Tasks(entries), |entries|) && events == EventsOf(Tasks(entries), |entries|)
  {
    earliest, latest, cpuTime, events := -1.0, 0.0, 0.0, [];
    for i := 0 to |entries|
      invariant earliest == Earliest(Tasks(entries), i) && latest == Latest(Tasks(entries), i)
      invariant cpuTime == CpuTime(Tasks(entries), i) && events == EventsOf(Tasks(entries), i)
    {
      var t := entries[i];
      if earliest < 0.0 || t.start < earliest { earliest := t.start; }
      if t.end > latest { latest := t.end; }
      cpuTime := cpuTime + t.Duration();
      events := events + [Event(t.start, Start, i), Event(t.end, Stop, i)];
    }
  }

  /** What a finished report says: cuts are the times in order, and weights are the even shares between them. */
  ghost predicate Reported(entries: seq<Target>, cuts: seq<real>, s: Summary)
    reads entries
  {
    var tasks := Tasks(entries);
    && |cuts| > 0
    && Ascending(cuts)
    && CutsOf(tasks, cuts)
    && (forall i :: 0 <= i < |entries| ==> entries[i].weightedDuration == Weighted(tasks, cuts, i, |cuts|))
    && s.weightedTotal == TotalWeighted(tasks, cuts, |tasks|, |cuts|)
    && s.cpuTime == CpuTime(tasks, |tasks|)
    && s.length == Latest(tasks, |tasks|) - Earliest(tasks, |tasks|)
    && (NoNegativeStart(tasks, |tasks|) ==> s.length == cuts[|cuts| - 1] - cuts[0])
  }

  /** Fails on no entries and on a command that stops before it starts, and otherwise reports even shares. */
  method SummarizeEntries(entries: seq<Target>) returns (r: Result<Summary>, ghost cuts: seq<real>)
    requires Distinct(entries)
    modifies entries`weightedDuration
    ensures r == Err(NoEntries) <==> entries == []
    ensures r == Err(NotRunning) <==> Backwards(Tasks(entries))
    ensures r.Ok? ==> Reported(entries, cuts, r.value)
    ensures r != Err(WeightTooLarge)
  {
    hide EventsOf, Ended, Earliest, Latest, CpuTime, Sorted, Reported, Recorded, Timeline, Indexed;
    ghost var tasks := Tasks(entries);
    var earliest, latest, cpuTime, events := Collect(entries);
    events := SortEvents(events);
    EmptyExactly(tasks, events);
    ghost var starts, stops := MakeIndex(tasks, events);
    cuts := Times(events);
    var w := SweepEvents(entries, events, starts, stops);
    if w.Err? {
      assert w.error.NoEntries? || w.error.NotRunning?;
      return Err(w.error), cuts;
    }
    r := Ok(Summary(latest - earliest, cpuTime, w.value));
    Finished(entries, events, starts, stops, r.value);
  }

  lemma EmptyExactly(tasks: seq<Task>, events: seq<Event>)
    requires multiset(events) == multiset(EventsOf(tasks, |tasks|))
    ensures |events| == 0 <==> |tasks| == 0
  {
    assert |multiset(events)| == |multiset(EventsOf(tasks, |tasks|))|;
  }

  lemma InOrder(tasks: seq<Task>, events: seq<Event>, starts: seq<nat>, stops: seq<nat>)
    requires Timeline(tasks, events, starts, stops)
    ensures Sorted(events) && Indexed(tasks, events, starts, stops)
  {
  }

  lemma WeightsRecorded(entries: seq<Target>, events: seq<Event>, starts: seq<nat>, stops: seq<nat>)
    requires Timeline(Tasks(entries), events, starts, stops) && Recorded(entries, events, starts, stops, |events|)
    ensures forall i :: 0 <= i < |entries| ==> entries[i].weightedDuration == Weighted(Tasks(entries), Times(events), i, |events|)
  {
    hide Weighted, Level, Sorted;
    forall i | 0 <= i < |entries| ensures entries[i].weightedDuration == Weighted(Tasks(entries), Times(events), i, |events|) {
      WeightOfTask(Tasks(entries), events, starts, stops, i);
    }
  }

  lemma Finished(entries: seq<Target>, events: seq<Event>, starts: seq<nat>, stops: seq<nat>, s: Summary)
    requires Timeline(Tasks(entries), events, starts, stops) && Recorded(entries, events, starts, stops, |events|)
    requires |events| > 0 && s.weightedTotal == Ended(Times(events), starts, stops, |entries|, |events|)
    requires s.cpuTime == CpuTime(Tasks(entries), |entries|)
    requires s.length == Latest(Tasks(entries), |entries|) - Earliest(Tasks(entries), |entries|)
    ensures Reported(entries, Times(events), s) && !Backwards(Tasks(entries))
  {
    hide Ended, TotalWeighted, Weighted, Ascending, CutsOf, Earliest, Latest, CpuTime, Indexed, Recorded, Sorted, Backwards, NoNegativeStart,
      Timeline;
    var tasks := Tasks(entries);
    InOrder(tasks, events, starts, stops);
    TimesAscend(events);
    EventTimesAreCuts(tasks, events, starts, stops);
    AllEnded(tasks, events, starts, stops, |tasks|);
    WeightsRecorded(entries, events, starts, stops);
    NoneBackwards(tasks, Times(events));
    if NoNegativeStart(tasks, |tasks|) { LengthIsSpan(tasks, Times(events)); }
  }

  lemma NoneBackwards(tasks: seq<Task>, ts: seq<real>)
    requires CutsOf(tasks, ts)
    ensures !Backwards(tasks)
  {
  }

  /**
   What the printed totals mean. No weight is refused by the sanity assertion. The CPU time is all time, counted once for
   each command that runs. The weighted total is the time during which something ran, so it is at most the length of the
   build, and equal to it exactly when something ran at every instant.
   */
  lemma ReportIsSound(entries: seq<Target>, cuts: seq<real>, s: Summary)
    requires Reported(entries, cuts, s)
    ensures forall i :: 0 <= i < |entries| ==> 0.0 <= entries[i].weightedDuration <= entries[i].Duration()
    ensures s.weightedTotal == Busy(Tasks(entries), cuts, |cuts|) <= s.cpuTime == Occupied(Tasks(entries), cuts, |cuts|)
    ensures NoNegativeStart(Tasks(entries), |entries|) ==>
      && s.weightedTotal <= s.length
      && (s.weightedTotal == s.length <==> forall x :: cuts[0] <= x <= cuts[|cuts| - 1] ==> RunsAt(Tasks(entries), x))
  {
    hide Busy, TotalWeighted, Weighted, CpuTime, Ascending, RunsAt, Occupied;
    var tasks := Tasks(entries);
    CpuTimeIsOccupied(tasks, cuts);
    forall i | 0 <= i < |entries| ensures 0.0 <= entries[i].weightedDuration <= entries[i].Duration() {
      WeightedWithinDuration(tasks, cuts, i);
    }
    WeightedTimeIsConserved(tasks, cuts, |cuts|);
    NoneBackwards(tasks, cuts);
    TotalWithinCpuTime(tasks, cuts, |tasks|);
    WeightedTotalAndLength(tasks, cuts);
  }

  lemma {:induction false} CpuTimeIsPresence(tasks: seq<Task>, ts: seq<real>, n: nat)
    requires Ascending(ts) && CutsOf(tasks, ts) && n <= |tasks|
    ensures CpuTime(tasks, n) == TotalPresent(tasks, ts, n, |ts|)
  {
    hide Present, Ascending, CutsOf;
    if n > 0 {
      CpuTimeIsPresence(tasks, ts, n - 1);
      PresentIsDuration(tasks, ts, n - 1);
    }
  }

  /** The time spent in commands is the length of every stretch of time, counted once for each command running in it. */
  lemma CpuTimeIsOccupied(tasks: seq<Task>, ts: seq<real>)
    requires Ascending(ts) && CutsOf(tasks, ts)
    ensures CpuTime(tasks, |tasks|) == Occupied(tasks, ts, |ts|)
  {
    hide *;
    CpuTimeIsPresence(tasks, ts, |tasks|);
    TotalIsOccupied(tasks, ts, |ts|);
  }

  lemma {:induction false} TotalWithinCpuTime(tasks: seq<Task>, ts: seq<real>, n: nat)
    requires Ascending(ts) && !Backwards(tasks) && n <= |tasks|
    ensures TotalWeighted(tasks, ts, n, |ts|) <= CpuTime(tasks, n)
  {
    hide Weighted, Ascending;
    if n > 0 {
      TotalWithinCpuTime(tasks, ts, n - 1);
      WeightedWithinDuration(tasks, ts, n - 1);
    }
  }
}
