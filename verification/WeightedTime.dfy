/**
 Weighted durations of build steps: in each elementary stretch of time, the steps that run share it evenly.

 The definitions here know nothing of the event sweep that computes them. Time is cut at the start and stop times of all
 steps; a stretch is what lies between two neighbouring cuts.
 */
module WeightedTime {

  datatype Task = Task(start: real, end: real)

  /** Cut points in order. */
  predicate Ascending(ts: seq<real>) {
    forall i, j :: 0 <= i <= j < |ts| ==> ts[i] <= ts[j]
  }

  /** The tasks that run throughout the stretch from a to b. */
  function Running(tasks: seq<Task>, a: real, b: real): set<nat> {
    set i: nat | i < |tasks| && tasks[i].start <= a && b <= tasks[i].end
  }

  /** Task i's share of the stretch between cuts m - 1 and m. */
  function Share(tasks: seq<Task>, ts: seq<real>, i: nat, m: nat): real
    requires i < |tasks| && 0 < m < |ts|
  {
    if i in Running(tasks, ts[m - 1], ts[m]) then Portion(tasks, ts, m) else 0.0
  }

  /** An even portion of the stretch. */
  function Portion(tasks: seq<Task>, ts: seq<real>, m: nat): real
    requires 0 < m < |ts| && Running(tasks, ts[m - 1], ts[m]) != {}
  {
    Evenly(ts[m] - ts[m - 1], |Running(tasks, ts[m - 1], ts[m])|)
  }

  /** One of n even parts of x. */
  function Evenly(x: real, n: nat): real
    requires n > 0
  {
    x / n as real
  }

  /** Task i's weighted duration over the first m cuts. */
  function Weighted(tasks: seq<Task>, ts: seq<real>, i: nat, m: nat): real
    requires i < |tasks| && m <= |ts|
  {
    if m <= 1 then 0.0 else Weighted(tasks, ts, i, m - 1) + Share(tasks, ts, i, m - 1)
  }

  /** Time during which at least one task runs. */
  function Busy(tasks: seq<Task>, ts: seq<real>, m: nat): real
    requires m <= |ts|
  {
    if m <= 1 then 0.0
    else Busy(tasks, ts, m - 1) + if Running(tasks, ts[m - 2], ts[m - 1]) != {} then ts[m - 1] - ts[m - 2] else 0.0
  }

  /** Sum of the weighted durations of the first n tasks. */
  function TotalWeighted(tasks: seq<Task>, ts: seq<real>, n: nat, m: nat): real
    requires n <= |tasks| && m <= |ts|
  {
    if n == 0 then 0.0 else TotalWeighted(tasks, ts, n - 1, m) + Weighted(tasks, ts, n - 1, m)
  }

  // ---------------------------------------------------------------------------------------------
  // Bounds of one task
  // ---------------------------------------------------------------------------------------------

  lemma Divide(x: real, n: nat)
    requires x >= 0.0 && n > 0
    ensures 0.0 <= Evenly(x, n) <= x
    ensures Evenly(x, n) * n as real == x
  {
    var d := x / n as real;
    assert d * n as real == x;
    assert d >= 0.0;
    assert d * (n as real - 1.0) >= 0.0;
  }

  lemma SomeoneRuns(tasks: seq<Task>, a: real, b: real, i: nat)
    requires i in Running(tasks, a, b)
    ensures |Running(tasks, a, b)| > 0
  {
  }

  /** A share is at most the stretch itself. */
  lemma ShareBounds(tasks: seq<Task>, ts: seq<real>, i: nat, m: nat)
    requires Ascending(ts) && i < |tasks| && 0 < m < |ts|
    ensures 0.0 <= Share(tasks, ts, i, m) <= ts[m] - ts[m - 1]
  {
    var r := Running(tasks, ts[m - 1], ts[m]);
    if i in r {
      SomeoneRuns(tasks, ts[m - 1], ts[m], i);
      Divide(ts[m] - ts[m - 1], |r|);
    }
  }

  function Clip(t: Task, x: real): real {
    if x <= t.start then t.start else if x >= t.end then t.end else x
  }

  /** Up to cut m a weighted duration is at most what has passed of its step by then. */
  lemma {:induction false} WeightedUpTo(tasks: seq<Task>, ts: seq<real>, i: nat, m: nat)
    requires Ascending(ts) && i < |tasks| && 0 < m <= |ts| && tasks[i].start <= tasks[i].end
    ensures 0.0 <= Weighted(tasks, ts, i, m) <= Clip(tasks[i], ts[m - 1]) - tasks[i].start
  {
    if m > 1 {
      WeightedUpTo(tasks, ts, i, m - 1);
      ShareBounds(tasks, ts, i, m - 1);
      assert ts[m - 2] <= ts[m - 1];
    }
  }

  /** The weighted duration lies between 0 and the duration, so the tool's sanity assertion never fires. */
  lemma WeightedWithinDuration(tasks: seq<Task>, ts: seq<real>, i: nat)
    requires Ascending(ts) && i < |tasks| && tasks[i].start <= tasks[i].end
    ensures 0.0 <= Weighted(tasks, ts, i, |ts|) <= tasks[i].end - tasks[i].start
  {
    if |ts| > 0 { WeightedUpTo(tasks, ts, i, |ts|); }
  }

  // ---------------------------------------------------------------------------------------------
  // Conservation
  // ---------------------------------------------------------------------------------------------

  /** The first n tasks' part of the stretch between cuts m - 1 and m. */
  function Shares(tasks: seq<Task>, ts: seq<real>, n: nat, m: nat): real
    requires n <= |tasks| && 0 < m < |ts|
  {
    if n == 0 then 0.0 else Shares(tasks, ts, n - 1, m) + Share(tasks, ts, n - 1, m)
  }

  function Below(s: set<nat>, n: nat): set<nat> { set i | i in s && i < n }

  function Multiple(n: nat, x: real): real { n as real * x }

  lemma MultipleNext(n: nat, x: real)
    ensures Multiple(0, x) == 0.0 && Multiple(n + 1, x) == Multiple(n, x) + x
  {
  }

  lemma {:induction false} SharesOfFirst(tasks: seq<Task>, ts: seq<real>, n: nat, m: nat)
    requires n <= |tasks| && 0 < m < |ts|
    ensures var r := Running(tasks, ts[m - 1], ts[m]);
            Shares(tasks, ts, n, m) == if r != {} then Multiple(|Below(r, n)|, Portion(tasks, ts, m)) else 0.0
  {
    hide Running, Portion, Multiple;
    var r := Running(tasks, ts[m - 1], ts[m]);
    if n == 0 {
      assert Below(r, 0) == {};
      if r != {} { MultipleNext(0, Portion(tasks, ts, m)); }
    } else {
      SharesOfFirst(tasks, ts, n - 1, m);
      if n - 1 in r {
        assert Below(r, n) == Below(r, n - 1) + {n - 1};
        MultipleNext(|Below(r, n - 1)|, Portion(tasks, ts, m));
      } else {
        assert Below(r, n) == Below(r, n - 1);
      }
    }
  }

  /** Together the tasks get all of a stretch in which someone runs, and nothing of an idle one. */
  lemma SharesAddUp(tasks: seq<Task>, ts: seq<real>, m: nat)
    requires Ascending(ts) && 0 < m < |ts|
    ensures Shares(tasks, ts, |tasks|, m)
         == if Running(tasks, ts[m - 1], ts[m]) != {} then ts[m] - ts[m - 1] else 0.0
  {
    var r := Running(tasks, ts[m - 1], ts[m]);
    SharesOfFirst(tasks, ts, |tasks|, m);
    assert Below(r, |tasks|) == r;
    if r != {} { Divide(ts[m] - ts[m - 1], |r|); }
  }

  lemma {:induction false} TotalNext(tasks: seq<Task>, ts: seq<real>, n: nat, m: nat)
    requires n <= |tasks| && 1 < m <= |ts|
    ensures TotalWeighted(tasks, ts, n, m) == TotalWeighted(tasks, ts, n, m - 1) + Shares(tasks, ts, n, m - 1)
  {
    hide Share;
    if n > 0 { TotalNext(tasks, ts, n - 1, m); }
  }

  lemma {:induction false} TotalNothing(tasks: seq<Task>, ts: seq<real>, n: nat, m: nat)
    requires n <= |tasks| && m <= |ts| && m <= 1
    ensures TotalWeighted(tasks, ts, n, m) == 0.0
  {
    if n > 0 { TotalNothing(tasks, ts, n - 1, m); }
  }

  /** Weighted time is conserved: the weighted durations of all tasks add up to the time someone was running. */
  lemma {:induction false} WeightedTimeIsConserved(tasks: seq<Task>, ts: seq<real>, m: nat)
    requires Ascending(ts) && m <= |ts|
    ensures TotalWeighted(tasks, ts, |tasks|, m) == Busy(tasks, ts, m)
  {
    hide Share, Running, Shares;
    if m <= 1 {
      TotalNothing(tasks, ts, |tasks|, m);
    } else {
      WeightedTimeIsConserved(tasks, ts, m - 1);
      TotalNext(tasks, ts, |tasks|, m);
      SharesAddUp(tasks, ts, m - 1);
    }
  }

  // ---------------------------------------------------------------------------------------------
  // Idle time
  // ---------------------------------------------------------------------------------------------

  /** The cuts are the start and stop times of the tasks, and nothing else. */
  ghost predicate CutsOf(tasks: seq<Task>, ts: seq<real>) {
    && (forall i :: 0 <= i < |tasks| ==> tasks[i].start <= tasks[i].end && tasks[i].start in ts && tasks[i].end in ts)
    && forall k :: 0 <= k < |ts| ==> exists i :: 0 <= i < |tasks| && (ts[k] == tasks[i].start || ts[k] == tasks[i].end)
  }

  /** Some task runs at time x. */
  ghost predicate RunsAt(tasks: seq<Task>, x: real) {
    exists i :: 0 <= i < |tasks| && tasks[i].start <= x <= tasks[i].end
  }

  ghost predicate Filled(tasks: seq<Task>, ts: seq<real>, k: nat)
    requires 0 < k < |ts|
  {
    ts[k - 1] < ts[k] ==> Running(tasks, ts[k - 1], ts[k]) != {}
  }

  /** The busy time is at most the time passed, and equal to it exactly when no stretch was idle. */
  lemma {:induction false} BusyUpTo(tasks: seq<Task>, ts: seq<real>, m: nat)
    requires Ascending(ts) && 0 < m <= |ts|
    ensures Busy(tasks, ts, m) <= ts[m - 1] - ts[0]
    ensures Busy(tasks, ts, m) == ts[m - 1] - ts[0] <==> forall k :: 0 < k < m ==> Filled(tasks, ts, k)
  {
    hide Running;
    if m > 1 {
      BusyUpTo(tasks, ts, m - 1);
      assert ts[m - 2] <= ts[m - 1];
      assert Filled(tasks, ts, m - 1) <==> (ts[m - 2] < ts[m - 1] ==> Running(tasks, ts[m - 2], ts[m - 1]) != {});
    }
  }

  lemma {:induction false} FindStretch(ts: seq<real>, x: real, m: nat) returns (k: nat)
    requires Ascending(ts) && 0 < m <= |ts| && ts[0] <= x <= ts[m - 1]
    ensures k < m && ts[k] <= x && (ts[k] == x || (k + 1 < m && x < ts[k + 1]))
  {
    if ts[m - 1] <= x {
      k := m - 1;
    } else {
      if ts[m - 2] <= x { k := m - 2; } else { k := FindStretch(ts, x, m - 1); }
    }
  }

  /** A task that runs at a time strictly inside a stretch runs throughout it, since cuts are made where tasks start and stop. */
  lemma RunsThroughout(tasks: seq<Task>, ts: seq<real>, k: nat, i: nat, x: real)
    requires Ascending(ts) && CutsOf(tasks, ts) && 0 < k < |ts| && ts[k - 1] < x < ts[k]
    requires i < |tasks| && tasks[i].start <= x <= tasks[i].end
    ensures i in Running(tasks, ts[k - 1], ts[k])
  {
    hide CutsOf, Ascending;
    var a, b := CutsAt(tasks, ts, i);
    CutBefore(ts, k, a, x);
    CutAfter(ts, k, b, x);
  }

  lemma CutsAt(tasks: seq<Task>, ts: seq<real>, i: nat) returns (a: nat, b: nat)
    requires CutsOf(tasks, ts) && i < |tasks|
    ensures a < |ts| && ts[a] == tasks[i].start && b < |ts| && ts[b] == tasks[i].end
  {
    assert tasks[i].start in ts && tasks[i].end in ts;
    var j :| 0 <= j < |ts| && ts[j] == tasks[i].start;
    var k :| 0 <= k < |ts| && ts[k] == tasks[i].end;
    a, b := j, k;
  }

  lemma CutBefore(ts: seq<real>, k: nat, a: nat, x: real)
    requires Ascending(ts) && 0 < k < |ts| && a < |ts| && ts[a] <= x < ts[k]
    ensures ts[a] <= ts[k - 1]
  {
    assert a < k;
  }

  lemma CutAfter(ts: seq<real>, k: nat, b: nat, x: real)
    requires Ascending(ts) && 0 < k < |ts| && b < |ts| && ts[k - 1] < x <= ts[b]
    ensures ts[k] <= ts[b]
  {
    assert k - 1 < b;
  }

  function Midpoint(ts: seq<real>, k: nat): real
    requires 0 < k < |ts|
  {
    (ts[k - 1] + ts[k]) / 2.0
  }

  lemma MidpointRuns(tasks: seq<Task>, ts: seq<real>, k: nat)
    requires Ascending(ts) && CutsOf(tasks, ts) && 0 < k < |ts| && ts[k - 1] < ts[k] && RunsAt(tasks, Midpoint(ts, k))
    ensures Running(tasks, ts[k - 1], ts[k]) != {}
  {
    hide Running, CutsOf;
    var i :| 0 <= i < |tasks| && tasks[i].start <= Midpoint(ts, k) <= tasks[i].end;
    RunsThroughout(tasks, ts, k, i, Midpoint(ts, k));
  }

  /** In an idle stretch nobody runs at its midpoint. */
  lemma IdleMidpoint(tasks: seq<Task>, ts: seq<real>, k: nat)
    requires Ascending(ts) && CutsOf(tasks, ts) && 0 < k < |ts| && !Filled(tasks, ts, k)
    ensures ts[0] <= Midpoint(ts, k) <= ts[|ts| - 1] && !RunsAt(tasks, Midpoint(ts, k))
  {
    hide Running, CutsOf, RunsAt;
    assert ts[0] <= ts[k - 1] && ts[k] <= ts[|ts| - 1];
    if RunsAt(tasks, Midpoint(ts, k)) {
      MidpointRuns(tasks, ts, k);
    }
  }

  lemma FilledRuns(tasks: seq<Task>, ts: seq<real>, x: real)
    requires Ascending(ts) && CutsOf(tasks, ts) && |ts| > 0 && ts[0] <= x <= ts[|ts| - 1]
    requires forall k :: 0 < k < |ts| ==> Filled(tasks, ts, k)
    ensures RunsAt(tasks, x)
  {
    var k := FindStretch(ts, x, |ts|);
    if ts[k] == x {
      var i :| 0 <= i < |tasks| && (ts[k] == tasks[i].start || ts[k] == tasks[i].end);
    } else {
      assert Filled(tasks, ts, k + 1);
      var i :| i in Running(tasks, ts[k], ts[k + 1]);
    }
  }

  /**
   The sum of the weighted durations is at most the length of the build, and equal to it exactly when some step runs at
   every instant from the first start to the last stop.
   */
  lemma WeightedTotalAndLength(tasks: seq<Task>, ts: seq<real>)
    requires Ascending(ts) && CutsOf(tasks, ts) && |ts| > 0
    ensures TotalWeighted(tasks, ts, |tasks|, |ts|) <= ts[|ts| - 1] - ts[0]
    ensures TotalWeighted(tasks, ts, |tasks|, |ts|) == ts[|ts| - 1] - ts[0] <==>
      forall x :: ts[0] <= x <= ts[|ts| - 1] ==> RunsAt(tasks, x)
  {
    hide Running, Busy, Filled, RunsAt, TotalWeighted;
    WeightedTimeIsConserved(tasks, ts, |ts|);
    BusyUpTo(tasks, ts, |ts|);
    if forall k :: 0 < k < |ts| ==> Filled(tasks, ts, k) {
      forall x | ts[0] <= x <= ts[|ts| - 1] ensures RunsAt(tasks, x) {
        FilledRuns(tasks, ts, x);
      }
    } else {
      var k :| 0 < k < |ts| && !Filled(tasks, ts, k);
      IdleMidpoint(tasks, ts, k);
    }
  }

  // ---------------------------------------------------------------------------------------------
  // Time spent in commands
  // ---------------------------------------------------------------------------------------------

  /** The stretch between cuts m - 1 and m, if task i runs throughout it. */
  function Presence(tasks: seq<Task>, ts: seq<real>, i: nat, m: nat): real
    requires i < |tasks| && 0 < m < |ts|
  {
    if i in Running(tasks, ts[m - 1], ts[m]) then ts[m] - ts[m - 1] else 0.0
  }

  function Present(tasks: seq<Task>, ts: seq<real>, i: nat, m: nat): real
    requires i < |tasks| && m <= |ts|
  {
    if m <= 1 then 0.0 else Present(tasks, ts, i, m - 1) + Presence(tasks, ts, i, m - 1)
  }

  function TotalPresent(tasks: seq<Task>, ts: seq<real>, n: nat, m: nat): real
    requires n <= |tasks| && m <= |ts|
  {
    if n == 0 then 0.0 else TotalPresent(tasks, ts, n - 1, m) + Present(tasks, ts, n - 1, m)
  }

  /** Every stretch as often as tasks run in it. */
  function Occupied(tasks: seq<Task>, ts: seq<real>, m: nat): real
    requires m <= |ts|
  {
    if m <= 1 then 0.0
    else Occupied(tasks, ts, m - 1) + Multiple(|Running(tasks, ts[m - 2], ts[m - 1])|, ts[m - 1] - ts[m - 2])
  }

  /** No task starts or stops inside a stretch. */
  lemma NoCutInside(ts: seq<real>, k: nat, x: real)
    requires Ascending(ts) && 0 < k < |ts| && x in ts
    ensures x <= ts[k - 1] || ts[k] <= x
  {
    var j :| 0 <= j < |ts| && ts[j] == x;
  }

  lemma TaskOfCuts(tasks: seq<Task>, ts: seq<real>, i: nat)
    requires CutsOf(tasks, ts) && i < |tasks|
    ensures tasks[i].start <= tasks[i].end && tasks[i].start in ts && tasks[i].end in ts
  {
  }

  lemma PresenceIs(tasks: seq<Task>, ts: seq<real>, i: nat, k: nat)
    requires Ascending(ts) && CutsOf(tasks, ts) && i < |tasks| && 0 < k < |ts|
    ensures Presence(tasks, ts, i, k) == Clip(tasks[i], ts[k]) - Clip(tasks[i], ts[k - 1])
  {
    hide CutsOf;
    TaskOfCuts(tasks, ts, i);
    NoCutInside(ts, k, tasks[i].start);
    NoCutInside(ts, k, tasks[i].end);
    assert ts[k - 1] <= ts[k];
  }

  lemma {:induction false} PresentUpTo(tasks: seq<Task>, ts: seq<real>, i: nat, m: nat)
    requires Ascending(ts) && CutsOf(tasks, ts) && i < |tasks| && 0 < m <= |ts|
    ensures Present(tasks, ts, i, m) == Clip(tasks[i], ts[m - 1]) - Clip(tasks[i], ts[0])
  {
    hide CutsOf, Presence;
    if m > 1 {
      PresentUpTo(tasks, ts, i, m - 1);
      PresenceIs(tasks, ts, i, m - 1);
    }
  }

  lemma PresentIsDuration(tasks: seq<Task>, ts: seq<real>, i: nat)
    requires Ascending(ts) && CutsOf(tasks, ts) && i < |tasks|
    ensures Present(tasks, ts, i, |ts|) == tasks[i].end - tasks[i].start
  {
    hide Present, Ascending, CutsOf;
    var a, b := CutsAt(tasks, ts, i);
    PresentUpTo(tasks, ts, i, |ts|);
    FirstAndLast(ts, a);
    FirstAndLast(ts, b);
    TaskOfCuts(tasks, ts, i);
  }

  lemma FirstAndLast(ts: seq<real>, a: nat)
    requires Ascending(ts) && a < |ts|
    ensures ts[0] <= ts[a] <= ts[|ts| - 1]
  {
  }

  function Presences(tasks: seq<Task>, ts: seq<real>, n: nat, m: nat): real
    requires n <= |tasks| && 0 < m < |ts|
  {
    if n == 0 then 0.0 else Presences(tasks, ts, n - 1, m) + Presence(tasks, ts, n - 1, m)
  }

  lemma {:induction false} PresencesOfFirst(tasks: seq<Task>, ts: seq<real>, n: nat, m: nat)
    requires n <= |tasks| && 0 < m < |ts|
    ensures Presences(tasks, ts, n, m) == Multiple(|Below(Running(tasks, ts[m - 1], ts[m]), n)|, ts[m] - ts[m - 1])
  {
    hide Running, Multiple;
    var r := Running(tasks, ts[m - 1], ts[m]);
    if n == 0 {
      assert Below(r, 0) == {};
      MultipleNext(0, ts[m] - ts[m - 1]);
    } else {
      PresencesOfFirst(tasks, ts, n - 1, m);
      if n - 1 in r {
        assert Below(r, n) == Below(r, n - 1) + {n - 1};
        MultipleNext(|Below(r, n - 1)|, ts[m] - ts[m - 1]);
      } else {
        assert Below(r, n) == Below(r, n - 1);
      }
    }
  }

  lemma {:induction false} TotalPresentNext(tasks: seq<Task>, ts: seq<real>, n: nat, m: nat)
    requires n <= |tasks| && m <= |ts|
    ensures m <= 1 ==> TotalPresent(tasks, ts, n, m) == 0.0
    ensures m > 1 ==> TotalPresent(tasks, ts, n, m) == TotalPresent(tasks, ts, n, m - 1) + Presences(tasks, ts, n, m - 1)
  {
    hide Presence;
    if n > 0 { TotalPresentNext(tasks, ts, n - 1, m); }
  }

  /** Added up by tasks or by stretches, the time is the same. */
  lemma {:induction false} TotalIsOccupied(tasks: seq<Task>, ts: seq<real>, m: nat)
    requires m <= |ts|
    ensures TotalPresent(tasks, ts, |tasks|, m) == Occupied(tasks, ts, m)
  {
    hide TotalPresent, Presences, Multiple;
    TotalPresentNext(tasks, ts, |tasks|, m);
    if m > 1 {
      TotalIsOccupied(tasks, ts, m - 1);
      PresencesOfFirst(tasks, ts, |tasks|, m - 1);
      var r := Running(tasks, ts[m - 2], ts[m - 1]);
      assert Below(r, |tasks|) == r;
    }
  }
}
