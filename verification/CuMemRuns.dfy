/**
 Whole runs of sleeping and waking on one allocation, with creating and mapping free to fail, and with waking allowed at any
 time: also while the allocation is awake, as happens when everything is woken after a part of it was.

 Waking overwrites the handle cells before it finds out that it cannot map. A wake made while awake therefore leaves the
 allocation mapped, but its cells no longer name its handles; sleeping then unmaps the chunks and leaks the handles.
 */
module CuMemRuns {
  import opened CuMemDriver
  import opened CuMemAllocator

  /** Where the allocation is: asleep, or awake with handles first, first + 1, ... */
  datatype Phase = Asleep | Awake(first: Handle)

  /** `cells` is what the handle cells hold, whether or not these handles are live. */
  datatype State = State(w: World, cells: seq<Handle>, phase: Phase)

  /** What the caller sees of a call. */
  datatype Event = Woke | WakeFailed | Slept

  /** One allocation: its range and chunks, and what else is mapped and live. */
  datatype Allocation = Allocation(base: Addr, sizes: seq<nat>, rest: map<Addr, Mapping>, others: set<Handle>)

  /** What a call does, with a clear error code before and after it. */
  ghost predicate Step(a: Allocation, e: Event, s: State, t: State) {
    && s.w.error == 0 && t.w.error == 0 && |s.cells| == |t.cells| == |a.sizes|
    && match e
       case Woke =>
         && AllMapped(a.base, a.sizes, s.w, t.w)
         && t.cells == Numbering(s.w.next, |a.sizes|) && t.phase == Awake(s.w.next)
       case WakeFailed =>
         && |a.sizes| > 0 && RolledBack(s.w, t.w) && t.w.next <= s.w.next + |a.sizes| && t.phase == s.phase
         && t.cells == Overwritten(s.cells, s.w.next, t.w.next - s.w.next)
       case Slept =>
         && s.phase.Awake? && t.phase.Asleep? && t.w.next == s.w.next && t.cells == s.cells
         && Torn(s.cells, a.rest, s.w, t.w)
  }

  ghost predicate IsRun(a: Allocation, es: seq<Event>, s0: State, run: seq<State>) {
    && |run| == |es| + 1 && run[0] == s0
    && forall k :: 0 <= k < |es| ==> Step(a, es[k], run[k], run[k + 1])
  }

  /** Wholly mapped with all handles live, or wholly unmapped with none; the rest is as it was, and the code is clear. */
  ghost predicate Whole(a: Allocation, s: State) {
    && s.w.error == 0
    && (forall h :: h in s.w.live ==> h < s.w.next)
    && match s.phase
       case Asleep => s.w.mapped == a.rest && s.w.live == a.others
       case Awake(first) =>
         && MappedAs(a.base, a.sizes, first, a.rest, s.w)
         && s.w.live == a.others + Range(first, first + |a.sizes|)
         && Range(first, first + |a.sizes|) !! a.others
  }

  /** Whole, and awake with its own handles in its cells. */
  ghost predicate Fresh(a: Allocation, s: State) {
    && Whole(a, s) && |s.cells| == |a.sizes|
    && (s.phase.Awake? ==> s.cells == Numbering(s.phase.first, |a.sizes|))
  }

  // ---------------------------------------------------------------------------------------------
  // Call histories
  // ---------------------------------------------------------------------------------------------

  /** What a caller can keep track of: is the allocation awake, and has it been woken again since it woke? */
  datatype Track = Track(awake: bool, again: bool)

  function Follow(t: Track, e: Event): Track {
    match e
    case Woke => Track(true, false)
    case WakeFailed => if t.awake then Track(true, true) else t
    case Slept => Track(false, false)
  }

  function TrackAt(awake: bool, es: seq<Event>, k: nat): Track
    requires k <= |es|
  {
    if k == 0 then Track(awake, false) else Follow(TrackAt(awake, es, k - 1), es[k - 1])
  }

  /** No sleep follows a wake that was made while awake. */
  predicate Safe(awake: bool, es: seq<Event>) {
    forall k :: 0 <= k < |es| && es[k].Slept? ==> !TrackAt(awake, es, k).again
  }

  /** Histories that can happen: sleep is called only when awake, and waking succeeds only when asleep. */
  predicate Possible(awake: bool, es: seq<Event>) {
    forall k :: 0 <= k < |es| ==>
      && (es[k].Slept? ==> TrackAt(awake, es, k).awake)
      && (es[k].Woke? ==> !TrackAt(awake, es, k).awake)
  }

  // ---------------------------------------------------------------------------------------------
  // Safe histories stay whole
  // ---------------------------------------------------------------------------------------------

  /** The state agrees with what the caller knows, and without a second wake the cells are the allocation's own. */
  ghost predicate Kept(a: Allocation, t: Track, s: State) {
    && Whole(a, s) && |s.cells| == |a.sizes| && t.awake == s.phase.Awake?
    && (s.phase.Awake? && !t.again ==> s.cells == Numbering(s.phase.first, |a.sizes|))
  }

  lemma WokeKeeps(a: Allocation, t: Track, s: State, s': State)
    requires Kept(a, t, s) && Step(a, Woke, s, s') && (|a.sizes| == 0 || s.phase.Asleep?)
    ensures Kept(a, Follow(t, Woke), s')
  {
    hide WithChunks, Addrs, Numbering;
    if |a.sizes| == 0 { NoChunksAtAll(a.rest, a.base, a.sizes, s.w.next); }
    if s.phase.Awake? { NoChunksAtAll(a.rest, a.base, a.sizes, s.phase.first); }
  }

  lemma NoChunksAtAll(m: map<Addr, Mapping>, base: Addr, sizes: seq<nat>, first: Handle)
    requires sizes == []
    ensures WithChunks(m, base, sizes, first, 0) == m && Range(first, first) == {} && Addrs(base, sizes, 0) == {}
  {
  }

  lemma FailureKeeps(a: Allocation, t: Track, s: State, s': State)
    requires Kept(a, t, s) && Step(a, WakeFailed, s, s')
    ensures Kept(a, Follow(t, WakeFailed), s')
  {
    hide WithChunks, Addrs, Numbering, Overwritten;
  }

  lemma SleepKeeps(a: Allocation, t: Track, s: State, s': State)
    requires Kept(a, t, s) && Step(a, Slept, s, s') && (|a.sizes| == 0 || !t.again)
    ensures Kept(a, Follow(t, Slept), s')
  {
    hide WithChunks, Addrs;
    var first := s.phase.first;
    assert s.cells == Numbering(first, |a.sizes|);
    HandlesOfNumbering(first, |a.sizes|);
    assert s.w.live - Range(first, first + |a.sizes|) == a.others;
  }

  /** A wake can only succeed on an allocation that is asleep, unless it has no chunks. */
  lemma WokeFromSleep(a: Allocation, s: State, s': State)
    requires Whole(a, s) && Step(a, Woke, s, s') && |a.sizes| > 0
    ensures s.phase.Asleep?
  {
    hide Range;
    if s.phase.Awake? {
      FirstChunkMapped(a.rest, a.base, a.sizes, s.phase.first, |a.sizes|);
    }
  }

  lemma {:induction false} FirstChunkMapped(m: map<Addr, Mapping>, base: Addr, sizes: seq<nat>, first: Handle, n: nat)
    requires 0 < n <= |sizes|
    ensures ChunkAddr(base, sizes, 0) in WithChunks(m, base, sizes, first, n) && ChunkAddr(base, sizes, 0) in Addrs(base, sizes, n)
  {
    if n > 1 { FirstChunkMapped(m, base, sizes, first, n - 1); }
  }

  /** Along a run with a safe history, or of an allocation without chunks, the allocation is whole at every state. */
  lemma {:induction false} AlwaysWhole(a: Allocation, es: seq<Event>, s0: State, run: seq<State>, k: nat)
    requires Fresh(a, s0) && IsRun(a, es, s0, run) && (|a.sizes| == 0 || Safe(s0.phase.Awake?, es)) && k <= |es|
    ensures Kept(a, TrackAt(s0.phase.Awake?, es, k), run[k])
  {
    hide Whole, Step, Fresh;
    if k == 0 {
      StartKept(a, s0);
    } else {
      AlwaysWhole(a, es, s0, run, k - 1);
      var t := TrackAt(s0.phase.Awake?, es, k - 1);
      assert Step(a, es[k - 1], run[k - 1], run[k - 1 + 1]);
      match es[k - 1]
      case Woke =>
        if |a.sizes| > 0 { WokeFromSleep(a, run[k - 1], run[k]); }
        WokeKeeps(a, t, run[k - 1], run[k]);
      case WakeFailed => FailureKeeps(a, t, run[k - 1], run[k]);
      case Slept => SleepKeeps(a, t, run[k - 1], run[k]);
    }
  }

  lemma StartKept(a: Allocation, s: State)
    requires Fresh(a, s)
    ensures Kept(a, Track(s.phase.Awake?, false), s)
  {
  }

  // ---------------------------------------------------------------------------------------------
  // ... and only these
  // ---------------------------------------------------------------------------------------------

  /** What the call does when a failed wake has created all its handles before it failed. */
  function Worst(a: Allocation, e: Event, s: State): State {
    var n := |a.sizes|;
    match e
    case Woke =>
      State(World(s.w.next + n, s.w.live + Range(s.w.next, s.w.next + n), WithChunks(s.w.mapped, a.base, a.sizes, s.w.next, n), 0),
            Numbering(s.w.next, n), Awake(s.w.next))
    case WakeFailed => State(s.w.(next := s.w.next + n), Numbering(s.w.next, n), s.phase)
    case Slept => State(World(s.w.next, s.w.live - Handles(s.cells), a.rest, 0), s.cells, Asleep)
  }

  function WorstAt(a: Allocation, es: seq<Event>, s0: State, k: nat): State
    requires k <= |es|
  {
    if k == 0 then s0 else Worst(a, es[k - 1], WorstAt(a, es, s0, k - 1))
  }

  function WorstRun(a: Allocation, es: seq<Event>, s0: State): seq<State> {
    seq(|es| + 1, k requires 0 <= k <= |es| => WorstAt(a, es, s0, k))
  }

  /** The allocation's range is free in the rest, and its others' handles are older than any it can get. */
  ghost predicate Placed(a: Allocation, s0: State) {
    Addrs(a.base, a.sizes, |a.sizes|) !! a.rest.Keys && forall h :: h in a.others ==> h < s0.w.next
  }

  /** Awake, the handles stay live; after a second wake the cells name younger ones, which are live no more. */
  ghost predicate Drifting(a: Allocation, t: Track, s0: State, s: State) {
    && s.w.error == 0 && |s.cells| == |a.sizes| > 0 && t.awake == s.phase.Awake? && s0.w.next <= s.w.next
    && (forall h :: h in s.w.live ==> h < s.w.next)
    && match s.phase
       case Asleep => s.w.mapped == a.rest
       case Awake(first) =>
         && Range(first, first + |a.sizes|) <= s.w.live && Range(first, first + |a.sizes|) !! a.others
         && first + |a.sizes| <= s.w.next
         && (t.again ==> exists x: Handle :: x >= first + |a.sizes| && s.cells == Numbering(x, |a.sizes|))
  }

  lemma WorstStep(a: Allocation, t: Track, s0: State, s: State, e: Event)
    requires Placed(a, s0) && Drifting(a, t, s0, s)
    requires (e.Slept? ==> t.awake) && (e.Woke? ==> !t.awake)
    ensures Step(a, e, s, Worst(a, e, s)) && Drifting(a, Follow(t, e), s0, Worst(a, e, s))
  {
    hide WithChunks, Addrs, Numbering, Overwritten, Range, Handles;
    AllOverwritten(s.cells, s.w.next);
    NumberingLength(s.w.next, |a.sizes|);
    if e.WakeFailed? && t.awake {
      assert s.w.next >= s.phase.first + |a.sizes|;
    }
  }

  lemma NumberingLength(first: Handle, n: nat)
    ensures |Numbering(first, n)| == n
  {
  }

  lemma {:induction false} WorstDrifts(a: Allocation, es: seq<Event>, s0: State, k: nat)
    requires Fresh(a, s0) && Placed(a, s0) && |a.sizes| > 0 && Possible(s0.phase.Awake?, es) && k <= |es|
    ensures Drifting(a, TrackAt(s0.phase.Awake?, es, k), s0, WorstAt(a, es, s0, k))
    ensures forall j :: 0 <= j < k ==> Step(a, es[j], WorstAt(a, es, s0, j), WorstAt(a, es, s0, j + 1))
  {
    hide Step, Drifting, Placed, Worst, Follow;
    if k == 0 {
      StartDrifts(a, s0);
    } else {
      WorstDrifts(a, es, s0, k - 1);
      WorstStep(a, TrackAt(s0.phase.Awake?, es, k - 1), s0, WorstAt(a, es, s0, k - 1), es[k - 1]);
    }
  }

  lemma StartDrifts(a: Allocation, s0: State)
    requires Fresh(a, s0) && |a.sizes| > 0
    ensures Drifting(a, Track(s0.phase.Awake?, false), s0, s0)
  {
    hide WithChunks, Addrs, Numbering;
    if s0.phase.Awake? {
      var first, n := s0.phase.first, |a.sizes|;
      assert first + n - 1 in Range(first, first + n);
    }
  }

  /** Sleeping after a second wake leaves all of the allocation's handles live. */
  lemma SleepLeaks(a: Allocation, t: Track, s0: State, s: State)
    requires Drifting(a, t, s0, s) && t.awake && t.again
    ensures Range(s.phase.first, s.phase.first + |a.sizes|) <= Worst(a, Slept, s).w.live && !Whole(a, Worst(a, Slept, s))
  {
    hide WithChunks, Addrs, Numbering;
    var first, n := s.phase.first, |a.sizes|;
    var x: Handle :| x >= first + n && s.cells == Numbering(x, n);
    HandlesOfNumbering(x, n);
    assert first in Range(first, first + n);
  }

  lemma WorstIsRun(a: Allocation, es: seq<Event>, s0: State)
    requires Fresh(a, s0) && Placed(a, s0) && |a.sizes| > 0 && Possible(s0.phase.Awake?, es)
    ensures IsRun(a, es, s0, WorstRun(a, es, s0))
  {
    hide Step, Fresh, Placed, Possible;
    WorstDrifts(a, es, s0, |es|);
  }

  /** An unsafe history has a run that loses handles. */
  lemma UnsafeLeaks(a: Allocation, es: seq<Event>, s0: State, k: nat)
    requires Fresh(a, s0) && Placed(a, s0) && |a.sizes| > 0 && Possible(s0.phase.Awake?, es)
    requires k < |es| && es[k].Slept? && TrackAt(s0.phase.Awake?, es, k).again
    ensures !Whole(a, WorstRun(a, es, s0)[k + 1])
  {
    hide Step, Fresh, Placed, Whole, Drifting, Worst;
    WorstDrifts(a, es, s0, k);
    SleepLeaks(a, TrackAt(s0.phase.Awake?, es, k), s0, WorstAt(a, es, s0, k));
  }

  ghost predicate WholeThroughout(a: Allocation, run: seq<State>) {
    forall k :: 0 <= k < |run| ==> Whole(a, run[k])
  }

  /**
   Sleep/wake safety, exactly. Every run with the given call history is whole throughout, and the code clear between calls,
   if and only if no sleep in it follows a wake that was made while the allocation was awake.
   */
  lemma AlwaysWholeExactly(a: Allocation, es: seq<Event>, s0: State)
    requires Fresh(a, s0) && Placed(a, s0) && Possible(s0.phase.Awake?, es)
    ensures (forall run :: IsRun(a, es, s0, run) ==> WholeThroughout(a, run)) <==> |a.sizes| == 0 || Safe(s0.phase.Awake?, es)
  {
    hide Fresh, Placed, Possible, Whole;
    if |a.sizes| == 0 || Safe(s0.phase.Awake?, es) {
      forall run | IsRun(a, es, s0, run) ensures WholeThroughout(a, run) {
        forall k | 0 <= k < |run| ensures Whole(a, run[k]) {
          AlwaysWhole(a, es, s0, run, k);
        }
      }
    } else {
      var k :| 0 <= k < |es| && es[k].Slept? && TrackAt(s0.phase.Awake?, es, k).again;
      WorstIsRun(a, es, s0);
      UnsafeLeaks(a, es, s0, k);
      assert !WholeThroughout(a, WorstRun(a, es, s0));
    }
  }

  /** The shortest case: wake, wake again, sleep. The chunks are gone, and all their handles are still live. */
  lemma WakeWakeSleep(a: Allocation, s0: State)
    requires Fresh(a, s0) && Placed(a, s0) && s0.phase.Asleep? && |a.sizes| > 0
    ensures var es := [Woke, WakeFailed, Slept];
            var run := WorstRun(a, es, s0);
            && Possible(false, es) && IsRun(a, es, s0, run)
            && run[3].w.mapped == a.rest && Range(s0.w.next, s0.w.next + |a.sizes|) <= run[3].w.live && !Whole(a, run[3])
  {
    hide Fresh, Placed, Whole, IsRun, WithChunks, Numbering, Handles, Range;
    var es := [Woke, WakeFailed, Slept];
    assert TrackAt(false, es, 0) == Track(false, false) && TrackAt(false, es, 1) == Track(true, false);
    assert TrackAt(false, es, 2) == Track(true, true);
    WorstIsRun(a, es, s0);
    WorstDrifts(a, es, s0, 2);
    assert WorstAt(a, es, s0, 1) == Worst(a, Woke, s0);
    assert WorstAt(a, es, s0, 2) == Worst(a, WakeFailed, WorstAt(a, es, s0, 1));
    SleepLeaks(a, Track(true, true), s0, WorstAt(a, es, s0, 2));
  }

  /** A new allocation starts awake, with its own handles in its cells and everything else as it was. */
  lemma NewAllocationIsFresh(base: Addr, sizes: seq<nat>, w: World, w': World)
    requires AllMapped(base, sizes, w, w') && w'.error == 0 && forall h :: h in w.live ==> h < w.next
    ensures var a := Allocation(base, sizes, w.mapped, w.live);
            var s := State(w', Numbering(w.next, |sizes|), Awake(w.next));
            Fresh(a, s) && Placed(a, s)
  {
    hide WithChunks, Addrs;
  }

  // ---------------------------------------------------------------------------------------------
  // The calls are the steps
  // ---------------------------------------------------------------------------------------------

  lemma RolledForward(w: World, w': World)
    requires RolledBack(w, w')
    ensures w.next <= w'.next
  {
  }

  /** The wake call, made at any time with a reliable driver and a clear code, is a step. */
  method WakeIsAStep(m: Allocator, handles: array<Handle>, ghost a: Allocation, base: Addr, size: nat, sizes: seq<nat>, ghost phase: Phase)
    returns (ok: bool, ghost phase': Phase)
    requires m.driver.Valid() && m.driver.reliable && m.error == 0 && handles.Length == |sizes| && Positive(sizes)
    requires a.base == base && a.sizes == sizes
    modifies m, m.driver, handles
    ensures Step(a, if ok then Woke else WakeFailed, old(State(m.Snapshot(), handles[..], phase)),
                 State(m.Snapshot(), handles[..], phase'))
  {
    hide WithChunks, Addrs, Range, Checked, Overwritten, Numbering, FirstFailure, AllMapped, RolledBack, ContextCalls,
      CompleteAttempt;
    ghost var w, cells := m.Snapshot(), handles[..];
    ghost var context, checked;
    ok, context, checked := m.PythonCreateAndMap(base, size, handles, sizes);
    if ok { AllMappedCells(base, sizes, w, m.Snapshot(), cells); } else { RolledForward(w, m.Snapshot()); }
    phase' := if ok then Awake(w.next) else phase;
  }

  /** The sleep call, made on a mapped allocation, is a step; it reports an error exactly when a cell names no live handle. */
  method SleepIsAStep(m: Allocator, handles: array<Handle>, ghost a: Allocation, base: Addr, sizes: seq<nat>, ghost first: Handle)
    returns (ok: bool)
    requires m.driver.Valid() && m.driver.reliable && m.error == 0 && handles.Length == |sizes| && Positive(sizes)
    requires a.base == base && a.sizes == sizes && MappedAs(base, sizes, first, a.rest, m.Snapshot())
    modifies m, m.driver
    ensures Step(a, Slept, old(State(m.Snapshot(), handles[..], Awake(first))), State(m.Snapshot(), handles[..], Asleep))
    ensures ok <==> Releasable(handles[..], old(m.driver.live))
  {
    hide WithChunks, Addrs, Handles, Releasable;
    var done, _ := m.PythonUnmapAndRelease(base, handles, sizes, first, a.rest);
    ok := done;
  }
}
