/**
 The event sweep that computes weighted durations: start and stop events in order of time, a running total of weighted
 time, and for each running step the total at its start.
 */
module BuildSweep {
  import opened WeightedTime

  datatype Action = Start | Stop

  /** A target is identified by its position in the list of entries. */
  datatype Event = Event(time: real, action: Action, task: nat)

  /** Order by time and then by action: a start sorts before a stop at the same time. */
  predicate Before(e: Event, f: Event) {
    e.time < f.time || (e.time == f.time && (e.action.Start? || f.action.Stop?))
  }

  predicate Sorted(events: seq<Event>) {
    forall i, j :: 0 <= i <= j < |events| ==> Before(events[i], events[j])
  }

  function StartOf(tasks: seq<Task>, i: nat): Event
    requires i < |tasks|
  {
    Event(tasks[i].start, Start, i)
  }

  function StopOf(tasks: seq<Task>, i: nat): Event
    requires i < |tasks|
  {
    Event(tasks[i].end, Stop, i)
  }

  function EventsOf(tasks: seq<Task>, n: nat): seq<Event>
    requires n <= |tasks|
  {
    if n == 0 then [] else EventsOf(tasks, n - 1) + [StartOf(tasks, n - 1), StopOf(tasks, n - 1)]
  }

  function Times(events: seq<Event>): seq<real> {
    seq(|events|, k requires 0 <= k < |events| => events[k].time)
  }

  // ---------------------------------------------------------------------------------------------
  // Sorting
  // ---------------------------------------------------------------------------------------------

  lemma InsertedIsSorted(events: seq<Event>, k: nat, e: Event)
    requires Sorted(events) && k <= |events|
    requires k > 0 ==> Before(events[k - 1], e)
    requires forall j :: k <= j < |events| ==> Before(e, events[j])
    ensures Sorted(events[..k] + [e] + events[k..])
  {
    forall j | 0 <= j < k ensures Before(events[j], e) {
      assert Before(events[j], events[k - 1]);
    }
  }

  lemma InsertedContents(events: seq<Event>, k: nat, e: Event)
    requires k <= |events|
    ensures multiset(events[..k] + [e] + events[k..]) == multiset(events) + multiset{e}
  {
    assert events == events[..k] + events[k..];
  }

  method InsertEvent(events: seq<Event>, e: Event) returns (r: seq<Event>)
    requires Sorted(events)
    ensures Sorted(r) && multiset(r) == multiset(events) + multiset{e}
  {
    var k := |events|;
    while k > 0 && !Before(events[k - 1], e)
      invariant 0 <= k <= |events| && forall j :: k <= j < |events| ==> Before(e, events[j])
    {
      k := k - 1;
    }
    InsertedIsSorted(events, k, e);
    InsertedContents(events, k, e);
    r := events[..k] + [e] + events[k..];
  }

  /** The events in order. Events that compare equal may come in any order: nothing depends on it. */
  method SortEvents(events: seq<Event>) returns (r: seq<Event>)
    ensures Sorted(r) && multiset(r) == multiset(events)
  {
    r := [];
    for k := 0 to |events|
      invariant Sorted(r) && multiset(r) == multiset(events[..k])
    {
      assert events[..k + 1] == events[..k] + [events[k]];
      r := InsertEvent(r, events[k]);
    }
    assert events[..|events|] == events;
  }

  // ---------------------------------------------------------------------------------------------
  // Where each task's events are
  // ---------------------------------------------------------------------------------------------

  /** starts[i] and stops[i] are the places of task i's two events, and there are no other events. */
  ghost predicate Indexed(tasks: seq<Task>, events: seq<Event>, starts: seq<nat>, stops: seq<nat>) {
    && |starts| == |stops| == |tasks|
    && (forall i :: 0 <= i < |tasks| ==> starts[i] < |events| && events[starts[i]] == StartOf(tasks, i))
    && (forall i :: 0 <= i < |tasks| ==> stops[i] < |events| && events[stops[i]] == StopOf(tasks, i))
    && (forall m :: 0 <= m < |events| ==>
          events[m].task < |tasks| && m == if events[m].action.Start? then starts[events[m].task] else stops[events[m].task])
  }

  ghost function Count(events: seq<Event>, e: Event): nat {
    multiset(events)[e]
  }

  predicate EventOf(tasks: seq<Task>, i: nat, e: Event)
    requires i < |tasks|
  {
    e == StartOf(tasks, i) || e == StopOf(tasks, i)
  }

  lemma CountOfPair(events: seq<Event>, d: Event, e: Event, f: Event)
    requires d != e
    ensures Count(events + [d, e], f) == Count(events, f) + if f == d || f == e then 1 else 0
  {
    assert multiset(events + [d, e]) == multiset(events) + multiset{d, e};
  }

  /** Every task's two events occur once. */
  lemma {:induction false} EventCount(tasks: seq<Task>, n: nat, i: nat, e: Event)
    requires n <= |tasks| && i < |tasks| && EventOf(tasks, i, e)
    ensures Count(EventsOf(tasks, n), e) == if i < n then 1 else 0
  {
    hide Count;
    if n == 0 {
      NoneInEmpty(e);
    } else {
      EventCount(tasks, n - 1, i, e);
      CountOfPair(EventsOf(tasks, n - 1), StartOf(tasks, n - 1), StopOf(tasks, n - 1), e);
    }
  }

  lemma NoneInEmpty(e: Event)
    ensures Count([], e) == 0
  {
  }

  lemma {:induction false} EventShape(tasks: seq<Task>, n: nat, e: Event)
    requires n <= |tasks| && e in EventsOf(tasks, n)
    ensures e.task < n && e == if e.action.Start? then StartOf(tasks, e.task) else StopOf(tasks, e.task)
  {
    if e in EventsOf(tasks, n - 1) { EventShape(tasks, n - 1, e); }
  }

  lemma TwoPlaces(events: seq<Event>, i: nat, j: nat)
    requires i < j < |events| && events[i] == events[j]
    ensures multiset(events)[events[i]] >= 2
  {
    assert events == events[..j] + [events[j]] + events[j + 1..];
    assert events[i] in multiset(events[..j]) by { assert events[..j][i] == events[i]; }
  }

  lemma SamePlace(events: seq<Event>, i: nat, j: nat)
    requires i < |events| && j < |events| && events[i] == events[j] && multiset(events)[events[i]] <= 1
    ensures i == j
  {
    if i < j { TwoPlaces(events, i, j); }
    if j < i { TwoPlaces(events, j, i); }
  }

  lemma MakeIndex(tasks: seq<Task>, events: seq<Event>) returns (starts: seq<nat>, stops: seq<nat>)
    requires multiset(events) == multiset(EventsOf(tasks, |tasks|))
    ensures Indexed(tasks, events, starts, stops)
  {
    hide EventsOf;
    forall i | 0 <= i < |tasks| ensures StartOf(tasks, i) in events && StopOf(tasks, i) in events {
      EventCount(tasks, |tasks|, i, StartOf(tasks, i));
      EventCount(tasks, |tasks|, i, StopOf(tasks, i));
      assert StartOf(tasks, i) in multiset(events) && StopOf(tasks, i) in multiset(events);
    }
    starts := seq(|tasks|, i requires 0 <= i < |tasks| => Find(events, StartOf(tasks, i)));
    stops := seq(|tasks|, i requires 0 <= i < |tasks| => Find(events, StopOf(tasks, i)));
    forall m | 0 <= m < |events|
      ensures events[m].task < |tasks| && m == if events[m].action.Start? then starts[events[m].task] else stops[events[m].task]
    {
      assert events[m] in multiset(events);
      EventShape(tasks, |tasks|, events[m]);
      EventCount(tasks, |tasks|, events[m].task, events[m]);
      SamePlace(events, m, Find(events, events[m]));
    }
  }

  ghost function Find(events: seq<Event>, e: Event): (k: nat)
    requires e in events
    ensures k < |events| && events[k] == e
  {
    var k :| 0 <= k < |events| && events[k] == e;
    k
  }

  // ---------------------------------------------------------------------------------------------
  // What the running total means
  // ---------------------------------------------------------------------------------------------

  /** The tasks that are running when event m is reached. */
  ghost function Live(starts: seq<nat>, stops: seq<nat>, m: nat): set<nat>
    requires |starts| == |stops|
  {
    set i: nat | i < |starts| && starts[i] < m <= stops[i]
  }

  /** What event m adds to the running total. */
  ghost function Gain(ts: seq<real>, starts: seq<nat>, stops: seq<nat>, m: nat): real
    requires |starts| == |stops| && 0 < m < |ts|
  {
    var live := Live(starts, stops, m);
    if live == {} then 0.0 else Evenly(ts[m] - ts[m - 1], |live|)
  }

  /** The running total after the first m events. */
  ghost function Level(ts: seq<real>, starts: seq<nat>, stops: seq<nat>, m: nat): real
    requires |starts| == |stops| && m <= |ts|
  {
    if m <= 1 then 0.0 else Level(ts, starts, stops, m - 1) + Gain(ts, starts, stops, m - 1)
  }

  /** The events are in order and every task starts before it stops. */
  ghost predicate Timeline(tasks: seq<Task>, events: seq<Event>, starts: seq<nat>, stops: seq<nat>) {
    && Sorted(events)
    && Indexed(tasks, events, starts, stops)
    && forall i :: 0 <= i < |tasks| ==> starts[i] < stops[i]
  }

  lemma TimesAscend(events: seq<Event>)
    requires Sorted(events)
    ensures Ascending(Times(events))
  {
    forall i, j | 0 <= i <= j < |events| ensures Times(events)[i] <= Times(events)[j] {
      assert Before(events[i], events[j]);
    }
  }

  /** Between two different times, the tasks the sweep holds as running are those that run throughout. */
  lemma LiveIsRunning(tasks: seq<Task>, events: seq<Event>, starts: seq<nat>, stops: seq<nat>, m: nat)
    requires Timeline(tasks, events, starts, stops) && 0 < m < |events| && Times(events)[m - 1] < Times(events)[m]
    ensures Live(starts, stops, m) == Running(tasks, Times(events)[m - 1], Times(events)[m])
  {
    TimesAscend(events);
    var ts := Times(events);
    forall i: nat | i < |tasks| ensures (starts[i] < m <= stops[i]) <==> (tasks[i].start <= ts[m - 1] && ts[m] <= tasks[i].end) {
      assert ts[starts[i]] == tasks[i].start && ts[stops[i]] == tasks[i].end;
    }
  }

  /** What an event adds is the share of every task running then; the others have no share. */
  lemma GainIsShare(tasks: seq<Task>, events: seq<Event>, starts: seq<nat>, stops: seq<nat>, i: nat, m: nat)
    requires Timeline(tasks, events, starts, stops) && i < |tasks| && 0 < m < |events|
    ensures Share(tasks, Times(events), i, m)
         == if i in Live(starts, stops, m) then Gain(Times(events), starts, stops, m) else 0.0
  {
    TimesAscend(events);
    var ts := Times(events);
    if ts[m - 1] < ts[m] {
      LiveIsRunning(tasks, events, starts, stops, m);
    } else {
      ShareBounds(tasks, ts, i, m);
      NoGain(ts, starts, stops, m);
    }
  }

  lemma NoGain(ts: seq<real>, starts: seq<nat>, stops: seq<nat>, m: nat)
    requires |starts| == |stops| && 0 < m < |ts| && ts[m - 1] == ts[m]
    ensures Gain(ts, starts, stops, m) == 0.0
  {
  }

  /** Where task i stands after m events: nothing before its start, all of it from its stop on. */
  ghost function Reached(ts: seq<real>, starts: seq<nat>, stops: seq<nat>, i: nat, m: nat): real
    requires |starts| == |stops| && i < |starts| && starts[i] < stops[i] < |ts| && m <= |ts|
  {
    if m <= starts[i] then 0.0
    else Level(ts, starts, stops, if m <= stops[i] then m else stops[i] + 1) - Level(ts, starts, stops, starts[i] + 1)
  }

  /** The difference of two running totals is a weighted duration. */
  lemma {:induction false} LevelsGiveWeighted(tasks: seq<Task>, events: seq<Event>, starts: seq<nat>, stops: seq<nat>,
                                              i: nat, m: nat)
    requires Timeline(tasks, events, starts, stops) && i < |tasks| && m <= |events|
    ensures Weighted(tasks, Times(events), i, m) == Reached(Times(events), starts, stops, i, m)
  {
    hide Gain, Share, Sorted;
    if m > 1 {
      LevelsGiveWeighted(tasks, events, starts, stops, i, m - 1);
      GainIsShare(tasks, events, starts, stops, i, m - 1);
    }
  }

  lemma WeightOfTask(tasks: seq<Task>, events: seq<Event>, starts: seq<nat>, stops: seq<nat>, i: nat)
    requires Timeline(tasks, events, starts, stops) && i < |tasks|
    ensures Weighted(tasks, Times(events), i, |events|)
         == Level(Times(events), starts, stops, stops[i] + 1) - Level(Times(events), starts, stops, starts[i] + 1)
  {
    LevelsGiveWeighted(tasks, events, starts, stops, i, |events|);
  }
}
