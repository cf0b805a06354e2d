/**
 Creating, mapping, unmapping and releasing the chunks of one allocation, with a global error code that stays set until a
 caller clears it.
 */
module CuMemAllocator {
  import opened Basics
  import opened CuMemChunks
  import opened CuMemDriver

  // ---------------------------------------------------------------------------------------------
  // The chunks in the driver
  // ---------------------------------------------------------------------------------------------

  function ChunkAddr(base: Addr, sizes: seq<nat>, i: nat): Addr
    requires i <= |sizes|
  {
    base + Sum(sizes, i)
  }

  function Addrs(base: Addr, sizes: seq<nat>, n: nat): set<Addr>
    requires n <= |sizes|
  {
    if n == 0 then {} else Addrs(base, sizes, n - 1) + {ChunkAddr(base, sizes, n - 1)}
  }

  /** m with the first n chunks mapped, chunk i to handle first + i. */
  function WithChunks(m: map<Addr, Mapping>, base: Addr, sizes: seq<nat>, first: Handle, n: nat): map<Addr, Mapping>
    requires n <= |sizes|
  {
    if n == 0 then m
    else WithChunks(m, base, sizes, first, n - 1)[ChunkAddr(base, sizes, n - 1) := Mapping(sizes[n - 1], first + n - 1)]
  }

  function CreateCalls(sizes: seq<nat>, n: nat): seq<Call>
    requires n <= |sizes|
  {
    seq(n, i requires 0 <= i < n => Call.Create(sizes[i]))
  }

  function MapCalls(base: Addr, sizes: seq<nat>, first: Handle, n: nat): seq<Call>
    requires n <= |sizes|
  {
    seq(n, i requires 0 <= i < n => Call.Map(ChunkAddr(base, sizes, i), sizes[i], first + i))
  }

  function UnmapCalls(base: Addr, sizes: seq<nat>, n: nat): seq<Call>
    requires n <= |sizes|
  {
    seq(n, i requires 0 <= i < n => Call.Unmap(ChunkAddr(base, sizes, i), sizes[i]))
  }

  function ReleaseCalls(cells: seq<Handle>): seq<Call> {
    seq(|cells|, i requires 0 <= i < |cells| => Call.Release(cells[i]))
  }

  function UndoCalls(base: Addr, sizes: seq<nat>, first: Handle, n: nat): seq<Call>
    requires n <= |sizes|
  {
    UnmapCalls(base, sizes, n) + ReleaseCalls(Numbering(first, |sizes|))
  }

  /** The calls that make sure of a context: one, or three if there is none yet. */
  function ContextCalls(missing: bool): seq<Call> {
    [GetContext] + if missing then [RetainContext, SetContext] else []
  }

  /** The calls of a complete attempt: all handles, all mappings end to end, and access to the whole range. */
  function CompleteAttempt(base: Addr, sizes: seq<nat>, first: Handle, size: nat): seq<Call> {
    CreateCalls(sizes, |sizes|) + (MapCalls(base, sizes, first, |sizes|) + [SetAccess(base, size)])
  }

  /** The calls of a reservation: one if it succeeds or has no alignment, a second without, and a third if that is misaligned. */
  ghost predicate ReserveCalls(calls: seq<Call>, size: nat, alignment: nat, addr: Addr, status: int) {
    || (calls == [Call.Reserve(size, alignment)] && (status == 0 || alignment == 0))
    || (calls == [Call.Reserve(size, alignment), Call.Reserve(size, 0)] && alignment != 0)
    || (calls == [Call.Reserve(size, alignment), Call.Reserve(size, 0), Call.Free(addr, size)] && alignment != 0 && status == 801)
  }

  /** The code is the status of one of the calls made since. */
  ghost predicate Reports(error: int, before: seq<int>, after: seq<int>) {
    before <= after && exists i :: |before| <= i < |after| && after[i] == error
  }

  lemma CheckedReports(before: seq<int>, checked: seq<int>, after: seq<int>)
    requires before + checked <= after && Checked(0, checked) != 0
    ensures Reports(Checked(0, checked), before, after)
  {
    hide Checked;
    CheckedIsStatus(checked);
    var i :| 0 <= i < |checked| && checked[i] == Checked(0, checked);
    assert after[|before| + i] == (before + checked)[|before| + i];
  }

  lemma BeginningReports(error: int, before: seq<int>, checked: seq<int>, after: seq<int>)
    requires before + checked == after
    ensures error == 0 && Checked(error, checked) != 0 ==> Reports(Checked(error, checked), before, after)
  {
    if error == 0 && Checked(error, checked) != 0 { CheckedReports(before, checked, after); }
  }

  lemma ReportsLonger(error: int, before: seq<int>, middle: seq<int>, after: seq<int>)
    requires before <= middle <= after
    ensures Reports(error, before, middle) ==> Reports(error, before, after)
    ensures Reports(error, middle, after) ==> Reports(error, before, after)
  {
    if i :| |before| <= i < |middle| && middle[i] == error { assert after[i] == error; }
  }

  lemma LastReports(before: seq<int>, middle: seq<int>, status: int)
    requires before <= middle
    ensures Reports(status, before, middle + [status])
  {
    assert (middle + [status])[|middle|] == status;
  }

  lemma AccessIsLast(before: seq<Call>, base: Addr, sizes: seq<nat>, first: Handle, size: nat)
    ensures var calls := before + CompleteAttempt(base, sizes, first, size);
            |calls| > 0 && calls[|calls| - 1] == SetAccess(base, size)
  {
    hide CreateCalls, MapCalls;
  }

  lemma NoCalls(sizes: seq<nat>)
    ensures CreateCalls(sizes, 0) == [] && ReleaseCalls([]) == []
  {
  }

  lemma CreateCallsNext(sizes: seq<nat>, n: nat)
    requires n < |sizes|
    ensures CreateCalls(sizes, n + 1) == CreateCalls(sizes, n) + [Call.Create(sizes[n])]
  {
  }

  lemma ReleaseCallsNext(cells: seq<Handle>, h: Handle)
    ensures ReleaseCalls(cells + [h]) == ReleaseCalls(cells) + [Call.Release(h)]
  {
  }

  // ---------------------------------------------------------------------------------------------
  // Handle cells
  // ---------------------------------------------------------------------------------------------

  /** Cells that hold the handles first, first + 1, ... */
  function Numbering(first: Handle, n: nat): seq<Handle> {
    seq(n, i requires 0 <= i => first + i)
  }

  /** The first k cells overwritten by new handles. */
  function Overwritten(cells: seq<Handle>, first: Handle, k: nat): (r: seq<Handle>)
    requires k <= |cells|
    ensures |r| == |cells|
  {
    Numbering(first, k) + cells[k..]
  }

  function Handles(cells: seq<Handle>): set<Handle> { set h | h in cells }

  /** Every cell holds a live handle of its own. */
  ghost predicate Releasable(cells: seq<Handle>, live: set<Handle>) {
    Handles(cells) <= live && forall i, j :: 0 <= i < j < |cells| ==> cells[i] != cells[j]
  }

  lemma NoCells(live: set<Handle>)
    ensures Handles([]) == {} && Releasable([], live) && ReleaseCalls([]) == []
  {
  }

  lemma HandlesNext(cells: seq<Handle>, h: Handle)
    ensures Handles(cells + [h]) == Handles(cells) + {h}
  {
  }

  lemma ReleasableNext(cells: seq<Handle>, h: Handle, live: set<Handle>)
    ensures Releasable(cells + [h], live) <==> Releasable(cells, live) && h in live - Handles(cells)
  {
    var all := cells + [h];
    assert Handles(all) == Handles(cells) + {h};
    if Releasable(all, live) {
      forall i, j | 0 <= i < j < |cells| ensures cells[i] != cells[j] {
        assert all[i] != all[j];
      }
      forall i | 0 <= i < |cells| ensures cells[i] != h {
        assert all[i] != all[|cells|];
      }
    }
  }

  lemma HandlesOfNumbering(first: Handle, n: nat)
    ensures Handles(Numbering(first, n)) == Range(first, first + n)
  {
    var cells := Numbering(first, n);
    forall h | first <= h < first + n ensures h in cells {
      assert cells[h - first] == h;
    }
  }

  lemma NumberingReleasable(first: Handle, n: nat, live: set<Handle>)
    ensures Releasable(Numbering(first, n), live) <==> Range(first, first + n) <= live
  {
    HandlesOfNumbering(first, n);
  }

  lemma AllOverwritten(cells: seq<Handle>, first: Handle)
    ensures Overwritten(cells, first, |cells|) == Numbering(first, |cells|)
  {
  }

  /** A cell holds a new handle if one was created for its chunk, and else what it held. */
  lemma OverwrittenExactly(cells: seq<Handle>, first: Handle, k: nat, i: nat)
    requires k <= |cells| && i < |cells|
    ensures Overwritten(cells, first, k)[i] == if i < k then first + i else cells[i]
  {
  }

  lemma OverwriteNext(cells: seq<Handle>, first: Handle, k: nat)
    requires k < |cells|
    ensures Overwritten(cells, first, k)[k := first + k] == Overwritten(cells, first, k + 1)
    ensures Overwritten(cells, first, k)[..k] == Numbering(first, k)
  {
  }

  lemma NothingOverwritten(cells: seq<Handle>, first: Handle)
    ensures Overwritten(cells, first, 0) == cells && Numbering(first, 0) == []
  {
  }

  predicate Positive(sizes: seq<nat>) {
    forall i :: 0 <= i < |sizes| ==> sizes[i] > 0
  }

  lemma TilesArePositive(sizes: seq<nat>, aligned: nat, chunk: nat, g: nat)
    requires Tiles(sizes, aligned, chunk, g)
    ensures Positive(sizes)
  {
  }

  lemma NothingConfigured(env: Option<nat>, g: nat)
    ensures AsConfigured([], env, g)
  {
  }

  lemma NoAddrs(base: Addr, sizes: seq<nat>)
    ensures Addrs(base, sizes, 0) == {}
  {
  }

  lemma OneMoreAddr(base: Addr, sizes: seq<nat>, n: nat)
    requires n < |sizes|
    ensures Addrs(base, sizes, n + 1) == Addrs(base, sizes, n) + {ChunkAddr(base, sizes, n)}
  {
  }

  lemma {:induction false} AddrsBelow(base: Addr, sizes: seq<nat>, n: nat, a: Addr)
    requires n <= |sizes| && Positive(sizes) && a in Addrs(base, sizes, n)
    ensures base <= a < ChunkAddr(base, sizes, n)
  {
    if a in Addrs(base, sizes, n - 1) {
      AddrsBelow(base, sizes, n - 1, a);
    }
  }

  lemma {:induction false} WithChunksAt(m: map<Addr, Mapping>, base: Addr, sizes: seq<nat>, first: Handle, n: nat, a: Addr)
    requires n <= |sizes|
    ensures a !in Addrs(base, sizes, n) ==>
      (a in WithChunks(m, base, sizes, first, n) <==> a in m) && (a in m ==> WithChunks(m, base, sizes, first, n)[a] == m[a])
    ensures a in Addrs(base, sizes, n) ==> a in WithChunks(m, base, sizes, first, n)
  {
    if n > 0 { WithChunksAt(m, base, sizes, first, n - 1, a); }
  }

  lemma {:induction false} ChunkMapping(m: map<Addr, Mapping>, base: Addr, sizes: seq<nat>, first: Handle, n: nat, i: nat)
    requires i < n <= |sizes| && Positive(sizes)
    ensures ChunkAddr(base, sizes, i) in Addrs(base, sizes, n)
    ensures ChunkAddr(base, sizes, i) in WithChunks(m, base, sizes, first, n)
    ensures WithChunks(m, base, sizes, first, n)[ChunkAddr(base, sizes, i)] == Mapping(sizes[i], first + i)
  {
    if i < n - 1 {
      ChunkMapping(m, base, sizes, first, n - 1, i);
      SumMonotone(sizes, i + 1, n - 1);
    }
  }

  /** Unmapping all chunks again gives back the map they were added to. */
  lemma ChunksRemoved(m: map<Addr, Mapping>, base: Addr, sizes: seq<nat>, first: Handle, n: nat)
    requires n <= |sizes| && Addrs(base, sizes, n) !! m.Keys
    ensures WithChunks(m, base, sizes, first, n) - Addrs(base, sizes, n) == m
  {
    var w := WithChunks(m, base, sizes, first, n) - Addrs(base, sizes, n);
    forall a | a in w ensures a in m && w[a] == m[a] { WithChunksAt(m, base, sizes, first, n, a); }
    forall a | a in m ensures a in w { WithChunksAt(m, base, sizes, first, n, a); }
  }

  // ---------------------------------------------------------------------------------------------
  // What a call does to the world
  // ---------------------------------------------------------------------------------------------

  datatype World = World(next: Handle, live: set<Handle>, mapped: map<Addr, Mapping>, error: int)

  /** Every chunk is mapped, each to a new handle of its own. */
  ghost predicate AllMapped(base: Addr, sizes: seq<nat>, w: World, w': World) {
    && Addrs(base, sizes, |sizes|) !! w.mapped.Keys
    && w'.mapped == WithChunks(w.mapped, base, sizes, w.next, |sizes|)
    && w'.next == w.next + |sizes|
    && w'.live == w.live + Range(w.next, w'.next)
  }

  /** Chunk i begins at a: after all chunks before it. */
  ghost predicate BeginsAt(base: Addr, sizes: seq<nat>, i: nat, a: Addr) {
    i < |sizes| && a == base + Sum(sizes, i)
  }

  lemma {:induction false} AddrsExactly(base: Addr, sizes: seq<nat>, n: nat, a: Addr)
    requires n <= |sizes|
    ensures a in Addrs(base, sizes, n) <==> exists i: nat :: i < n && BeginsAt(base, sizes, i, a)
  {
    if n > 0 {
      AddrsExactly(base, sizes, n - 1, a);
      assert BeginsAt(base, sizes, n - 1, a) <==> a == ChunkAddr(base, sizes, n - 1);
    }
  }

  lemma OnlyChunksAdded(base: Addr, sizes: seq<nat>, w: World, w': World, a: Addr)
    requires AllMapped(base, sizes, w, w')
    ensures a in w'.mapped <==> a in w.mapped || exists j: nat :: BeginsAt(base, sizes, j, a)
  {
    hide Addrs, WithChunks, BeginsAt;
    AddrsExactly(base, sizes, |sizes|, a);
    WithChunksAt(w.mapped, base, sizes, w.next, |sizes|, a);
    forall j: nat | BeginsAt(base, sizes, j, a) ensures j < |sizes| { BeginsWithin(base, sizes, j, a); }
  }

  lemma BeginsWithin(base: Addr, sizes: seq<nat>, j: nat, a: Addr)
    requires BeginsAt(base, sizes, j, a)
    ensures j < |sizes|
  {
  }

  /** Then every byte of the range lies in one new mapping, chunk i from the end of the one before it to handle next + i. */
  lemma BytesAreMapped(base: Addr, sizes: seq<nat>, w: World, w': World, x: nat) returns (i: nat)
    requires AllMapped(base, sizes, w, w') && Positive(sizes) && x < Sum(sizes, |sizes|)
    ensures i < |sizes| && Sum(sizes, i) <= x < Sum(sizes, i) + sizes[i]
    ensures var a := base + Sum(sizes, i); a !in w.mapped && a in w'.mapped && w'.mapped[a] == Mapping(sizes[i], w.next + i)
    ensures forall a :: a in w'.mapped <==> a in w.mapped || exists j: nat :: BeginsAt(base, sizes, j, a)
  {
    hide Addrs, WithChunks, Positive, BeginsAt;
    i := ByteInOneChunk(sizes, |sizes|, x);
    assert ChunkAddr(base, sizes, i) == base + Sum(sizes, i);
    ChunkMapping(w.mapped, base, sizes, w.next, |sizes|, i);
    forall a ensures a in w'.mapped <==> a in w.mapped || exists j: nat :: BeginsAt(base, sizes, j, a) {
      OnlyChunksAdded(base, sizes, w, w', a);
    }
  }

  /** The chunks are mapped on top of m, chunk i to handle first + i. */
  ghost predicate MappedAs(base: Addr, sizes: seq<nat>, first: Handle, m: map<Addr, Mapping>, w: World) {
    && Addrs(base, sizes, |sizes|) !! m.Keys
    && w.mapped == WithChunks(m, base, sizes, first, |sizes|)
  }

  /** The chunks are gone, and so are the handles in the cells. */
  ghost predicate Torn(cells: seq<Handle>, m: map<Addr, Mapping>, w: World, w': World) {
    w'.mapped == m && w'.live == w.live - Handles(cells)
  }

  /**
   The driver calls of a failed attempt. If creating chunk k fails, the k handles before it are released. If mapping chunk
   k fails, the k chunks before it are unmapped and all handles are released. Either way each handle that was created
   is released once, in order.
   */
  function FailedAttempt(base: Addr, sizes: seq<nat>, first: Handle, mapping: bool, k: nat): seq<Call>
    requires k < |sizes|
  {
    if mapping then CreateCalls(sizes, |sizes|) + (MapCalls(base, sizes, first, k + 1) + UndoCalls(base, sizes, first, k))
    else CreateCalls(sizes, k + 1) + ReleaseCalls(Numbering(first, k))
  }

  /** The calls one by one. */
  lemma FailedAttemptExactly(base: Addr, sizes: seq<nat>, first: Handle, mapping: bool, k: nat, i: nat)
    requires k < |sizes|
    ensures var n, calls := |sizes|, FailedAttempt(base, sizes, first, mapping, k);
      if mapping then
        && |calls| == n + (k + 1) + k + n
        && (i < n ==> calls[i] == Call.Create(sizes[i]) && calls[n + (k + 1) + k + i] == Call.Release(first + i))
        && (i <= k ==> calls[n + i] == Call.Map(base + Sum(sizes, i), sizes[i], first + i))
        && (i < k ==> calls[n + (k + 1) + i] == Call.Unmap(base + Sum(sizes, i), sizes[i]))
      else
        && |calls| == k + 1 + k
        && (i <= k ==> calls[i] == Call.Create(sizes[i]))
        && (i < k ==> calls[k + 1 + i] == Call.Release(first + i))
  {
  }

  lemma AttemptCalls(before: seq<Call>, base: Addr, sizes: seq<nat>, first: Handle, size: nat, k: nat)
    ensures before + CreateCalls(sizes, |sizes|) + MapCalls(base, sizes, first, |sizes|) + [SetAccess(base, size)]
         == before + CompleteAttempt(base, sizes, first, size)
    ensures k < |sizes| ==>
      before + CreateCalls(sizes, k + 1) + ReleaseCalls(Numbering(first, k)) == before + FailedAttempt(base, sizes, first, false, k)
    ensures k < |sizes| ==>
      before + CreateCalls(sizes, |sizes|) + (MapCalls(base, sizes, first, k + 1) + UndoCalls(base, sizes, first, k))
      == before + FailedAttempt(base, sizes, first, true, k)
  {
    hide CreateCalls, MapCalls, ReleaseCalls, UndoCalls, Numbering;
  }

  /** Nothing is left of the attempt. */
  ghost predicate RolledBack(w: World, w': World) {
    w'.mapped == w.mapped && w'.live == w.live && w'.next >= w.next
  }

  /** Nothing is mapped, but one new handle may stay live with nobody to release it. */
  ghost predicate FirstHandleLost(w: World, w': World) {
    && w'.mapped == w.mapped && w.next <= w'.next <= w.next + 1 && w'.live == w.live + Range(w.next, w'.next)
  }

  /**
   Which calls an attempt made, how many of them it checked, and what they left, for any driver. It was complete, and only
   the call for access may have failed; or creating or mapping a chunk failed; or the code was set before it began.
   */
  ghost predicate Attempted(base: Addr, size: nat, sizes: seq<nat>, w: World, w': World, before: seq<Call>, after: seq<Call>, checked: nat) {
    if w.error == 0 || sizes == [] then
      || (after == before + CompleteAttempt(base, sizes, w.next, size) && AllMapped(base, sizes, w, w') && checked == 2 * |sizes| + 1)
      || exists mapping: bool, k: nat | k < |sizes| ::
           && after == before + FailedAttempt(base, sizes, w.next, mapping, k)
           && w'.next == w.next + (if mapping then |sizes| else k)
           && checked == (if mapping then |sizes| else 0) + k + 1
           && w'.error != 0
    else
      after == before + CreateCalls(sizes, 1) && checked == 1 && w'.error != 0 && FirstHandleLost(w, w')
  }

  /** What an attempt leaves does not depend on the error code before it. */
  lemma SameButStart(base: Addr, sizes: seq<nat>, w: World, v: World, w': World)
    requires w == v.(error := w.error)
    ensures AllMapped(base, sizes, v, w') ==> AllMapped(base, sizes, w, w')
    ensures RolledBack(v, w') ==> RolledBack(w, w')
    ensures FirstHandleLost(v, w') ==> FirstHandleLost(w, w')
  {
  }

  lemma SameButError(base: Addr, sizes: seq<nat>, w: World, w': World, w'': World)
    requires w'' == w'.(error := 0)
    ensures AllMapped(base, sizes, w, w') ==> AllMapped(base, sizes, w, w'')
    ensures RolledBack(w, w') ==> RolledBack(w, w'')
    ensures FirstHandleLost(w, w') ==> FirstHandleLost(w, w'')
  {
  }

  lemma AllMappedCells(base: Addr, sizes: seq<nat>, w: World, w': World, cells: seq<Handle>)
    requires AllMapped(base, sizes, w, w') && |cells| == |sizes|
    ensures w'.next - w.next == |sizes| && Overwritten(cells, w.next, |sizes|) == Numbering(w.next, |sizes|)
  {
    AllOverwritten(cells, w.next);
  }

  class Allocator {
    const driver: Driver
    var error: int

    constructor (driver: Driver)
      ensures this.driver == driver && error == 0
    {
      this.driver, error := driver, 0;
    }

    /** CUDA_CHECK: a failed call sets the error code; a successful one does not clear it. */
    method Check(status: int)
      modifies this
      ensures error == if status != 0 then status else old(error)
    {
      if status != 0 { error := status; }
    }

    /**
     Release the handles in the first n cells whatever each call returns. The result is the first error, starting from
     `sofar`; it is 0 only if every cell held a live handle of its own and all of them are gone.
     */
    method ReleaseFirst(handles: array<Handle>, n: nat, sofar: int) returns (firstError: int, ghost statuses: seq<int>)
      requires driver.Valid() && n <= handles.Length
      modifies driver
      ensures driver.Valid() && driver.calls == old(driver.calls) + ReleaseCalls(handles[..n])
      ensures driver.statuses == old(driver.statuses) + statuses && |statuses| == n
      ensures firstError == if sofar != 0 then sofar else FirstFailure(statuses)
      ensures driver.mapped == old(driver.mapped) && driver.next == old(driver.next) && driver.reserved == old(driver.reserved)
      ensures old(driver.live) - Handles(handles[..n]) <= driver.live <= old(driver.live)
      ensures FirstFailure(statuses) == 0 ==>
        driver.live == old(driver.live) - Handles(handles[..n]) && Releasable(handles[..n], old(driver.live))
      ensures driver.reliable ==> driver.live == old(driver.live) - Handles(handles[..n])
      ensures driver.reliable && Releasable(handles[..n], old(driver.live)) ==> FirstFailure(statuses) == 0
    {
      hide FirstFailure, ReleaseCalls, Handles, Releasable;
      NothingFailed(0);
      NoCells(old(driver.live));
      firstError, statuses := sofar, [];
      for j := 0 to n
        invariant driver.Valid() && driver.calls == old(driver.calls) + ReleaseCalls(handles[..j])
        invariant driver.statuses == old(driver.statuses) + statuses && |statuses| == j
        invariant firstError == if sofar != 0 then sofar else FirstFailure(statuses)
        invariant driver.mapped == old(driver.mapped) && driver.next == old(driver.next) && driver.reserved == old(driver.reserved)
        invariant old(driver.live) - Handles(handles[..j]) <= driver.live <= old(driver.live)
        invariant FirstFailure(statuses) == 0 ==>
          driver.live == old(driver.live) - Handles(handles[..j]) && Releasable(handles[..j], old(driver.live))
        invariant driver.reliable ==> driver.live == old(driver.live) - Handles(handles[..j])
        invariant driver.reliable && Releasable(handles[..j], old(driver.live)) ==> FirstFailure(statuses) == 0
      {
        assert handles[..j + 1] == handles[..j] + [handles[j]];
        HandlesNext(handles[..j], handles[j]);
        ReleasableNext(handles[..j], handles[j], old(driver.live));
        ReleaseCallsNext(handles[..j], handles[j]);
        var status := driver.Release(handles[j]);
        if status != 0 && firstError == 0 { firstError := status; }
        FirstFailureNext(statuses, status);
        statuses := statuses + [status];
      }
    }

    /**
     Unmap the first n chunks whatever each call returns. The result is the first error, or 0 if none failed; then all the
     chunks are gone.
     */
    method UnmapFirst(base: Addr, sizes: seq<nat>, n: nat, ghost first: Handle, ghost m: map<Addr, Mapping>)
      returns (firstError: int, ghost statuses: seq<int>)
      requires driver.Valid() && n <= |sizes| && Positive(sizes)
      modifies driver
      ensures driver.Valid() && driver.calls == old(driver.calls) + UnmapCalls(base, sizes, n)
      ensures driver.statuses == old(driver.statuses) + statuses && |statuses| == n && firstError == FirstFailure(statuses)
      ensures driver.live == old(driver.live) && driver.next == old(driver.next) && driver.reserved == old(driver.reserved)
      ensures Addrs(base, sizes, n) !! m.Keys && old(driver.mapped) == WithChunks(m, base, sizes, first, n) ==>
        (firstError == 0 ==> driver.mapped == m) && (driver.reliable ==> firstError == 0)
    {
      hide FirstFailure, Positive;
      NothingFailed(0);
      NoAddrs(base, sizes);
      var offset := 0;
      firstError, statuses := 0, [];
      for j := 0 to n
        invariant offset == Sum(sizes, j) && driver.Valid() && driver.calls == old(driver.calls) + UnmapCalls(base, sizes, j)
        invariant driver.statuses == old(driver.statuses) + statuses && |statuses| == j && firstError == FirstFailure(statuses)
        invariant driver.live == old(driver.live) && driver.next == old(driver.next) && driver.reserved == old(driver.reserved)
        invariant old(driver.mapped) == WithChunks(m, base, sizes, first, n) && firstError == 0 ==>
          driver.mapped == WithChunks(m, base, sizes, first, n) - Addrs(base, sizes, j)
        invariant driver.reliable && old(driver.mapped) == WithChunks(m, base, sizes, first, n) ==> firstError == 0
      {
        ChunkMapping(m, base, sizes, first, n, j);
        NotYetUnmapped(base, sizes, j);
        var status := driver.Unmap(base + offset, sizes[j]);
        if status != 0 && firstError == 0 { firstError := status; }
        FirstFailureNext(statuses, status);
        statuses := statuses + [status];
        offset := offset + sizes[j];
      }
      if Addrs(base, sizes, n) !! m.Keys { ChunksRemoved(m, base, sizes, first, n); }
    }

    /**
     Phase one: create a handle per chunk, over whatever the cells held. If it fails, the handles created so far are
     released, but stay in their cells. With an error code set on entry the loop stops after its first call, and releases
     nothing: the one handle it may have created is lost.
     */
    method CreateHandles(handles: array<Handle>, sizes: seq<nat>) returns (ok: bool, ghost checked: seq<int>)
      requires driver.Valid() && handles.Length == |sizes|
      modifies this, driver, handles
      ensures driver.Valid() && driver.mapped == old(driver.mapped) && driver.reserved == old(driver.reserved)
      ensures old(driver.statuses) + checked <= driver.statuses && error == Checked(old(error), checked)
      ensures ok ==> driver.statuses == old(driver.statuses) + checked && |checked| == |sizes|
      ensures old(driver.next) <= driver.next <= old(driver.next) + |sizes|
      ensures handles[..] == Overwritten(old(handles[..]), old(driver.next), driver.next - old(driver.next))
      ensures ok ==> error == old(error) && (|sizes| > 0 ==> error == 0)
      ensures ok ==> driver.next == old(driver.next) + |sizes|
      ensures ok ==> driver.live == old(driver.live) + Range(old(driver.next), driver.next)
      ensures ok ==> driver.calls == old(driver.calls) + CreateCalls(sizes, |sizes|)
      ensures !ok ==> error != 0 && |sizes| > 0
      ensures !ok && old(error) == 0 ==>
        var k := driver.next - old(driver.next);
        && k < |sizes| && |checked| == k + 1
        && driver.calls == old(driver.calls) + CreateCalls(sizes, k + 1) + ReleaseCalls(Numbering(old(driver.next), k))
        && (driver.reliable ==> driver.live == old(driver.live))
      ensures old(error) != 0 && |sizes| > 0 ==>
        && !ok && |checked| == 1
        && driver.calls == old(driver.calls) + CreateCalls(sizes, 1)
        && driver.next <= old(driver.next) + 1
        && driver.live == old(driver.live) + Range(old(driver.next), driver.next)
    {
      hide CreateCalls, ReleaseCalls, Range, Handles, Releasable, Overwritten, Numbering, Checked, FirstFailure;
      NoCalls(sizes);
      checked := [];
      NothingFailed(error);
      ghost var first, cells := driver.next, handles[..];
      NothingOverwritten(cells, first);
      for i := 0 to |sizes|
        invariant driver.Valid() && driver.mapped == old(driver.mapped) && driver.reserved == old(driver.reserved) && driver.next == first + i
        invariant i > 0 ==> error == 0
        invariant error == old(error) == Checked(old(error), checked)
        invariant driver.statuses == old(driver.statuses) + checked && |checked| == i
        invariant handles[..] == Overwritten(cells, first, i)
        invariant driver.live == old(driver.live) + Range(first, first + i)
        invariant driver.calls == old(driver.calls) + CreateCalls(sizes, i)
      {
        CreateCallsNext(sizes, i);
        OverwriteNext(cells, first, i);
        var status, h := driver.Create(sizes[i]);
        if status == 0 { handles[i] := h; }
        Check(status);
        CheckedNext(old(error), checked, status);
        checked := checked + [status];
        if error != 0 {
          assert handles[..i] == Numbering(first, i);
          HandlesOfNumbering(first, i);
          var _, _ := ReleaseFirst(handles, i, error);
          return false, checked;
        }
      }
      return true, checked;
    }

    /** Roll back phase two: unmap the n chunks that were mapped, release all handles. */
    method Undo(base: Addr, handles: array<Handle>, sizes: seq<nat>, n: nat, ghost first: Handle, ghost m: map<Addr, Mapping>)
      requires driver.Valid() && n <= |sizes| == handles.Length && Positive(sizes) && handles[..] == Numbering(first, |sizes|)
      requires Addrs(base, sizes, n) !! m.Keys && driver.mapped == WithChunks(m, base, sizes, first, n)
      modifies driver
      ensures driver.Valid() && driver.next == old(driver.next) && driver.reserved == old(driver.reserved)
      ensures old(driver.statuses) <= driver.statuses
      ensures driver.calls == old(driver.calls) + UndoCalls(base, sizes, first, n)
      ensures driver.reliable ==> driver.mapped == m && driver.live == old(driver.live) - Range(first, first + |sizes|)
    {
      hide Handles, ReleaseCalls, UnmapCalls, Range, Releasable;
      var _, _ := UnmapFirst(base, sizes, n, first, m);
      var _, _ := ReleaseFirst(handles, |sizes|, 0);
      assert handles[..|sizes|] == handles[..];
      HandlesOfNumbering(first, |sizes|);
    }

    /**
     Phase two: map each chunk to its handle, end to end. If it fails, the chunks mapped so far are unmapped and all
     handles are released; k is the chunk that failed.
     */
    method MapHandles(base: Addr, handles: array<Handle>, sizes: seq<nat>, ghost first: Handle)
      returns (ok: bool, ghost k: nat, ghost checked: seq<int>)
      requires driver.Valid() && handles.Length == |sizes| && Positive(sizes) && handles[..] == Numbering(first, |sizes|)
      requires |sizes| > 0 ==> error == 0
      modifies this, driver
      ensures driver.Valid() && driver.next == old(driver.next) && driver.reserved == old(driver.reserved)
      ensures old(driver.statuses) + checked <= driver.statuses && error == Checked(old(error), checked)
      ensures |checked| == if ok then |sizes| else k + 1
      ensures ok ==> driver.statuses == old(driver.statuses) + checked
      ensures ok ==> error == old(error) && driver.live == old(driver.live)
      ensures ok ==> Addrs(base, sizes, |sizes|) !! old(driver.mapped).Keys
      ensures ok ==> driver.mapped == WithChunks(old(driver.mapped), base, sizes, first, |sizes|)
      ensures ok ==> driver.calls == old(driver.calls) + MapCalls(base, sizes, first, |sizes|)
      ensures !ok ==> error != 0 && k < |sizes|
      ensures !ok ==> driver.calls == old(driver.calls) + (MapCalls(base, sizes, first, k + 1) + UndoCalls(base, sizes, first, k))
      ensures !ok && driver.reliable ==>
        driver.mapped == old(driver.mapped) && driver.live == old(driver.live) - Range(first, first + |sizes|)
    {
      hide Positive, Addrs, UndoCalls, Checked;
      checked := [];
      NothingFailed(error);
      ghost var m := driver.mapped;
      var offset := 0;
      k := 0;
      NoAddrs(base, sizes);
      for i := 0 to |sizes|
        invariant offset == Sum(sizes, i) && driver.Valid() && driver.next == old(driver.next) && driver.reserved == old(driver.reserved)
        invariant driver.statuses == old(driver.statuses) + checked && |checked| == i
        invariant error == old(error) == Checked(old(error), checked) && driver.live == old(driver.live)
        invariant Addrs(base, sizes, i) !! m.Keys && driver.mapped == WithChunks(m, base, sizes, first, i)
        invariant driver.calls == old(driver.calls) + MapCalls(base, sizes, first, i)
      {
        assert handles[i] == handles[..][i] == first + i;
        WithChunksAt(m, base, sizes, first, i, base + offset);
        OneMoreAddr(base, sizes, i);
        var status := driver.Map(base + offset, sizes[i], handles[i]);
        Check(status);
        CheckedNext(old(error), checked, status);
        checked := checked + [status];
        if error != 0 {
          k := i;
          Undo(base, handles, sizes, i, first, m);
          return false, k, checked;
        }
        offset := offset + sizes[i];
      }
      return true, k, checked;
    }

    ghost function Snapshot(): World
      reads this, driver
    {
      World(driver.next, driver.live, driver.mapped, error)
    }

    /** ensure_context: one driver call or three, each of which sets the error code if it fails and leaves it if not. */
    method EnsureContext() returns (ghost statuses: seq<int>)
      modifies this, driver`statuses, driver`calls
      ensures driver.statuses == old(driver.statuses) + statuses && (|statuses| == 1 || |statuses| == 3)
      ensures driver.calls == old(driver.calls) + ContextCalls(|statuses| == 3)
      ensures error == Checked(old(error), statuses)
      ensures driver.reliable ==> FirstFailure(statuses) == 0 && error == old(error)
      ensures old(error) != 0 ==> error != 0
    {
      hide FirstFailure, Checked;
      NothingFailed(old(error));
      var status := driver.Configure(GetContext);
      Check(status);
      statuses := [] + [status];
      CheckedNext(old(error), [], status);
      FirstFailureNext([], status);
      var missing: bool := *;
      if missing {
        var retained := driver.Configure(RetainContext);
        Check(retained);
        CheckedNext(old(error), statuses, retained);
        FirstFailureNext(statuses, retained);
        statuses := statuses + [retained];
        var current := driver.Configure(SetContext);
        Check(current);
        CheckedNext(old(error), statuses, current);
        FirstFailureNext(statuses, current);
        statuses := statuses + [current];
      }
    }

    /** What create_and_map does once it has a context: both phases, and access to the range. */
    method Attempt(base: Addr, size: nat, handles: array<Handle>, sizes: seq<nat>) returns (ghost checked: seq<int>)
      requires driver.Valid() && handles.Length == |sizes| && Positive(sizes)
      modifies this, driver, handles
      ensures driver.Valid() && driver.reserved == old(driver.reserved)
      ensures old(driver.statuses) + checked <= driver.statuses && error == Checked(old(error), checked)
      ensures old(driver.next) <= driver.next <= old(driver.next) + |sizes|
      ensures handles[..] == Overwritten(old(handles[..]), old(driver.next), driver.next - old(driver.next))
      ensures Attempted(base, size, sizes, old(Snapshot()), Snapshot(), old(driver.calls), driver.calls, |checked|)
      ensures error == 0 ==> old(error) == 0 && driver.calls == old(driver.calls) + CompleteAttempt(base, sizes, old(driver.next), size)
      ensures error == 0 ==> |checked| == 2 * |sizes| + 1 && AllMapped(base, sizes, old(Snapshot()), Snapshot())
      ensures error != 0 && old(error) == 0 && driver.reliable ==> |sizes| > 0 && RolledBack(old(Snapshot()), Snapshot())
    {
      hide WithChunks, Addrs, CreateCalls, MapCalls, ReleaseCalls, UndoCalls, Checked, FirstFailure, Overwritten, Numbering, Range,
        FailedAttempt, CompleteAttempt;
      ghost var first, calls, cells := driver.next, driver.calls, handles[..];
      var ok;
      ok, checked := CreateHandles(handles, sizes);
      if !ok {
        if old(error) == 0 { AttemptCalls(calls, base, sizes, first, size, driver.next - first); }
        return;
      }
      AllOverwritten(cells, first);
      ghost var k, maps;
      ok, k, maps := MapHandles(base, handles, sizes, first);
      CheckedAppend(old(error), checked, maps);
      checked := checked + maps;
      if !ok {
        AttemptCalls(calls, base, sizes, first, size, k);
        return;
      }
      var status := driver.Configure(SetAccess(base, size));
      Check(status);
      CheckedNext(old(error), checked, status);
      checked := checked + [status];
      AttemptCalls(calls, base, sizes, first, size, 0);
    }

    /**
     create_and_map. With a code that is clear once the context is set up, and a reliable driver, it maps everything or
     leaves nothing behind in the driver. With a code set by then, before the call or by a context call, it maps nothing,
     reports failure, and loses the handle of its first create if that succeeds. The cells of all chunks for which a handle
     was created are overwritten in any case. The code is the last failure among the calls of the attempt.
     */
    method CreateAndMap(base: Addr, size: nat, handles: array<Handle>, sizes: seq<nat>)
      returns (ghost context: seq<int>, ghost checked: seq<int>)
      requires driver.Valid() && handles.Length == |sizes| && Positive(sizes)
      modifies this, driver, handles
      ensures driver.Valid() && driver.reserved == old(driver.reserved)
      ensures |context| == 1 || |context| == 3
      ensures old(driver.statuses) + context + checked <= driver.statuses && error == Checked(old(error), context + checked)
      ensures driver.reliable ==> FirstFailure(context) == 0
      ensures old(driver.next) <= driver.next <= old(driver.next) + |sizes|
      ensures handles[..] == Overwritten(old(handles[..]), old(driver.next), driver.next - old(driver.next))
      ensures old(driver.calls) <= driver.calls
      ensures Attempted(base, size, sizes, old(Snapshot()).(error := Checked(old(error), context)), Snapshot(),
                        old(driver.calls) + ContextCalls(|context| == 3), driver.calls, |checked|)
      ensures error == 0 ==> |checked| == 2 * |sizes| + 1
      ensures error == 0 ==>
        driver.calls == old(driver.calls) + ContextCalls(|context| == 3) + CompleteAttempt(base, sizes, old(driver.next), size)
      ensures error == 0 ==> Checked(old(error), context) == 0 && AllMapped(base, sizes, old(Snapshot()), Snapshot())
      ensures error != 0 && old(error) == 0 && driver.reliable ==> |sizes| > 0 && RolledBack(old(Snapshot()), Snapshot())
      ensures Checked(old(error), context) != 0 && |sizes| > 0 ==> error != 0 && FirstHandleLost(old(Snapshot()), Snapshot())
    {
      hide CompleteAttempt, Checked, FirstFailure, Overwritten, ContextCalls, CreateCalls, FailedAttempt, AllMapped;
      context := EnsureContext();
      CheckedIsClearExactly(old(error), context);
      ghost var w := Snapshot();
      checked := Attempt(base, size, handles, sizes);
      CheckedAppend(old(error), context, checked);
      SameButStart(base, sizes, old(Snapshot()), w, Snapshot());
    }

    /**
     unmap_and_release: every chunk is unmapped and every cell's handle released, whatever the calls return. The error code
     becomes the first failure among these calls, if there is one. A code that is clear afterwards means that every chunk
     and every handle is gone.
     */
    method UnmapAndRelease(base: Addr, handles: array<Handle>, sizes: seq<nat>, ghost first: Handle, ghost m: map<Addr, Mapping>)
      returns (ghost context: seq<int>, ghost statuses: seq<int>)
      requires driver.Valid() && handles.Length == |sizes| && Positive(sizes)
      modifies this, driver
      ensures driver.Valid() && driver.next == old(driver.next) && driver.reserved == old(driver.reserved)
      ensures driver.calls == old(driver.calls) + ContextCalls(|context| == 3) + UnmapCalls(base, sizes, |sizes|) + ReleaseCalls(handles[..])
      ensures driver.statuses == old(driver.statuses) + context + statuses && |statuses| == 2 * |sizes|
      ensures |context| == 1 || |context| == 3
      ensures error == if FirstFailure(statuses) != 0 then FirstFailure(statuses) else Checked(old(error), context)
      ensures FirstFailure(statuses) == 0 ==> Releasable(handles[..], old(driver.live))
      ensures FirstFailure(statuses) == 0 && MappedAs(base, sizes, first, m, old(Snapshot())) ==>
        Torn(handles[..], m, old(Snapshot()), Snapshot())
      ensures driver.reliable ==> FirstFailure(context) == 0
      ensures driver.reliable && MappedAs(base, sizes, first, m, old(Snapshot())) ==>
        && Torn(handles[..], m, old(Snapshot()), Snapshot())
        && (FirstFailure(statuses) == 0 <==> Releasable(handles[..], old(driver.live)))
    {
      hide WithChunks, Addrs, UnmapCalls, ReleaseCalls, ContextCalls, Handles, Releasable, FirstFailure, Checked;
      context := EnsureContext();
      ghost var unmaps, releases;
      var firstError;
      firstError, unmaps := UnmapFirst(base, sizes, |sizes|, first, m);
      firstError, releases := ReleaseFirst(handles, |sizes|, firstError);
      assert handles[..|sizes|] == handles[..];
      statuses := unmaps + releases;
      FirstFailureAppend(unmaps, releases);
      if firstError != 0 { Check(firstError); }
    }

    /** Waking an allocation: the error code is cleared and turned into an exception. */
    method PythonCreateAndMap(base: Addr, size: nat, handles: array<Handle>, sizes: seq<nat>)
      returns (ok: bool, ghost context: seq<int>, ghost checked: seq<int>)
      requires driver.Valid() && handles.Length == |sizes| && Positive(sizes)
      modifies this, driver, handles
      ensures driver.Valid() && driver.reserved == old(driver.reserved) && error == 0
      ensures old(driver.statuses) + context <= driver.statuses && (driver.reliable ==> FirstFailure(context) == 0)
      ensures old(driver.next) <= driver.next <= old(driver.next) + |sizes|
      ensures handles[..] == Overwritten(old(handles[..]), old(driver.next), driver.next - old(driver.next))
      ensures ok ==> Checked(old(error), context) == 0 && AllMapped(base, sizes, old(Snapshot()), Snapshot())
      ensures !ok && old(error) == 0 && driver.reliable ==> |sizes| > 0 && RolledBack(old(Snapshot()), Snapshot())
      ensures Checked(old(error), context) != 0 && |sizes| > 0 ==> !ok && FirstHandleLost(old(Snapshot()), Snapshot())
      ensures |context| == 1 || |context| == 3
      ensures old(driver.statuses) + context + checked <= driver.statuses && (ok <==> Checked(old(error), context + checked) == 0)
      ensures ok ==> |checked| == 2 * |sizes| + 1
      ensures ok ==> driver.calls == old(driver.calls) + ContextCalls(|context| == 3) + CompleteAttempt(base, sizes, old(driver.next), size)
    {
      hide FailedAttempt, CompleteAttempt, ContextCalls, Overwritten, Checked, FirstFailure, AllMapped;
      context, checked := CreateAndMap(base, size, handles, sizes);
      ok := error == 0;
      ghost var w := Snapshot();
      error := 0;
      SameButError(base, sizes, old(Snapshot()), w, Snapshot());
    }

    /**
     Putting an allocation to sleep. It succeeds exactly when the code was clear and no call failed; then a mapped
     allocation is gone with the handles in its cells. The code is clear afterwards.
     */
    method PythonUnmapAndRelease(base: Addr, handles: array<Handle>, sizes: seq<nat>, ghost first: Handle, ghost m: map<Addr, Mapping>)
      returns (ok: bool, ghost statuses: seq<int>)
      requires driver.Valid() && handles.Length == |sizes| && Positive(sizes)
      modifies this, driver
      ensures driver.Valid() && driver.next == old(driver.next) && driver.reserved == old(driver.reserved) && error == 0
      ensures |statuses| == 1 + 2 * |sizes| || |statuses| == 3 + 2 * |sizes|
      ensures driver.calls == old(driver.calls) + ContextCalls(|statuses| == 3 + 2 * |sizes|) + UnmapCalls(base, sizes, |sizes|)
                              + ReleaseCalls(handles[..])
      ensures driver.statuses == old(driver.statuses) + statuses
      ensures ok <==> old(error) == 0 && FirstFailure(statuses) == 0
      ensures ok ==> Releasable(handles[..], old(driver.live))
      ensures ok && MappedAs(base, sizes, first, m, old(Snapshot())) ==> Torn(handles[..], m, old(Snapshot()), Snapshot())
      ensures driver.reliable && MappedAs(base, sizes, first, m, old(Snapshot())) ==>
        && Torn(handles[..], m, old(Snapshot()), Snapshot())
        && (ok <==> old(error) == 0 && Releasable(handles[..], old(driver.live)))
    {
      hide UnmapCalls, ReleaseCalls, ContextCalls, WithChunks, Addrs, Handles, Releasable, FirstFailure, Checked;
      ghost var context, chunks;
      context, chunks := UnmapAndRelease(base, handles, sizes, first, m);
      statuses := context + chunks;
      FirstFailureAppend(context, chunks);
      CheckedIsClearExactly(old(error), context);
      assert old(driver.statuses) + context + chunks == old(driver.statuses) + statuses;
      ok := error == 0;
      error := 0;
    }

    /** reserve_rocm_address: try the alignment, then the default, and accept only an aligned address. */
    method ReserveRocm(size: nat, alignment: nat) returns (status: int, addr: Addr)
      requires driver.Valid()
      modifies driver
      ensures driver.Valid() && World(driver.next, driver.live, driver.mapped, error) == old(Snapshot())
      ensures status == 0 ==> addr !in old(driver.reserved) && driver.reserved == old(driver.reserved)[addr := size]
      ensures status == 0 && alignment != 0 ==> addr % alignment == 0
      ensures status != 0 && driver.reliable ==> driver.reserved == old(driver.reserved)
      ensures old(driver.calls) <= driver.calls && ReserveCalls(driver.calls[|old(driver.calls)|..], size, alignment, addr, status)
      ensures old(driver.statuses) <= driver.statuses
      ensures status != 0 ==> status == 801 || Reports(status, old(driver.statuses), driver.statuses)
    {
      hide Reports;
      ghost var before := driver.statuses;
      status, addr := driver.Reserve(size, alignment);
      LastReports(before, before, status);
      ghost var middle := driver.statuses;
      if status == 0 || alignment == 0 { return; }
      status, addr := driver.Reserve(size, 0);
      LastReports(before, middle, status);
      if status != 0 || addr % alignment == 0 { return; }
      ghost var reserved := driver.reserved;
      var _ := driver.FreeAddress(addr, size);
      assert reserved - {addr} == old(driver.reserved);
      status := 801;
    }

    /** How my_malloc begins: it makes sure of a context and asks for the granularity. */
    method AskGranularity() returns (ghost context: seq<int>, ghost status: int)
      modifies this, driver`statuses, driver`calls
      ensures |context| == 1 || |context| == 3
      ensures driver.statuses == old(driver.statuses) + context + [status] && error == Checked(old(error), context + [status])
      ensures driver.calls == old(driver.calls) + ContextCalls(|context| == 3) + [GetGranularity]
      ensures driver.reliable ==> error == old(error)
    {
      hide Checked, ContextCalls, FirstFailure;
      context := EnsureContext();
      var asked := driver.Configure(GetGranularity);
      Check(asked);
      CheckedNext(old(error), context, asked);
      status := asked;
    }

    /**
     my_malloc. A null result with a set error code leaves the driver as it was; a set error code on entry makes the
     call fail before it reserves anything, and stays set. A null result with a clear code means that the callback failed:
     then the reservation is kept, with nothing mapped.
     */
    method MyMalloc(size: nat, env: Option<nat>, callbackOk: bool) returns (r: Option<Addr>, handles: array<Handle>, sizes: seq<nat>)
      requires driver.Valid() && (env.Some? ==> env.value < WORD) && size < WORD && driver.granularity < WORD
      requires 0 < RoundUp(BaseChunk(env), driver.granularity)
      modifies this, driver
      ensures driver.Valid()
      ensures r.Some? ==> error == 0 && old(error) == 0
      ensures r.Some? && PlanFits(size, driver.granularity, RoundUp(BaseChunk(env), driver.granularity)) ==>
        && size <= RoundUp(size, driver.granularity)
        && Tiles(sizes, RoundUp(size, driver.granularity), RoundUp(BaseChunk(env), driver.granularity), driver.granularity)
      ensures r.Some? && !PlanFits(size, driver.granularity, RoundUp(BaseChunk(env), driver.granularity)) ==> sizes == []
      ensures r.Some? ==> AsConfigured(sizes, env, driver.granularity) && r.value % driver.granularity == 0
      ensures exists missing: bool :: old(driver.calls) + ContextCalls(missing) + [GetGranularity] <= driver.calls
      ensures error != 0 && old(error) == 0 ==> error == 801 || Reports(error, old(driver.statuses), driver.statuses)
      ensures r.Some? ==> |driver.calls| > 0 && driver.calls[|driver.calls| - 1] == SetAccess(r.value, RoundUp(size, driver.granularity))
      ensures r.Some? ==> AllMapped(r.value, sizes, old(Snapshot()), Snapshot()) && handles[..] == Numbering(old(driver.next), |sizes|)
      ensures r.Some? ==> r.value !in old(driver.reserved)
      ensures r.Some? ==> driver.reserved == old(driver.reserved)[r.value := RoundUp(size, driver.granularity)]
      ensures r.None? && old(error) == 0 && driver.reliable && callbackOk ==>
        error != 0 && RolledBack(old(Snapshot()), Snapshot()) && driver.reserved == old(driver.reserved)
      ensures callbackOk && r.None? ==> error != 0
      ensures !callbackOk ==> r.None?
      ensures r.None? && error == 0 ==> Snapshot() == old(Snapshot()) && exists base ::
        && base in driver.reserved && base !in old(driver.reserved)
        && driver.reserved == old(driver.reserved)[base := RoundUp(size, driver.granularity)]
      ensures old(error) != 0 ==> r.None? && error != 0
      ensures old(error) != 0 ==> World(driver.next, driver.live, driver.mapped, old(error)) == old(Snapshot()) && driver.reserved == old(driver.reserved)
    {
      hide Tiles, AllMapped, RoundUp, BaseChunk, Sum, Numbering, Positive, PlanFits, AsConfigured, ContextCalls, ReserveCalls, Reports,
        Checked, FirstFailure;
      handles, sizes := new Handle[0], [];
      ghost var context, asked := AskGranularity();
      ghost var setup, before := driver.calls, driver.statuses;
      CheckedIsClearExactly(old(error), context + [asked]);
      if error != 0 {
        BeginningReports(old(error), old(driver.statuses), context + [asked], before);
        return None, handles, sizes;
      }
      var aligned;
      aligned, sizes := PlanChunks(size, driver.granularity, env);
      var status, base := ReserveRocm(aligned, driver.granularity);
      Check(status);
      ghost var middle := driver.statuses;
      ReportsLonger(error, old(driver.statuses), before, middle);
      if error != 0 { return None, handles, sizes; }
      handles := new Handle[|sizes|];
      if !callbackOk { return None, handles, sizes; }
      assert setup <= driver.calls;
      var ok := MapReservation(base, aligned, handles, sizes, old(driver.reserved));
      ReportsLonger(error, old(driver.statuses), middle, driver.statuses);
      if !ok { return None, handles, sizes; }
      return Some(base), handles, sizes;
    }

    /** The rounded size and its chunks: they tile it, unless a sum overflows; then there are none. */
    static method PlanChunks(size: nat, g: nat, env: Option<nat>) returns (aligned: nat, sizes: seq<nat>)
      requires 0 < g < WORD && (env.Some? ==> env.value < WORD) && size < WORD && 0 < RoundUp(BaseChunk(env), g)
      ensures aligned == RoundUp(size, g) && Positive(sizes)
      ensures PlanFits(size, g, RoundUp(BaseChunk(env), g)) ==> size <= aligned && Tiles(sizes, aligned, RoundUp(BaseChunk(env), g), g)
      ensures !PlanFits(size, g, RoundUp(BaseChunk(env), g)) ==> sizes == []
      ensures AsConfigured(sizes, env, g)
    {
      hide RoundUp, Multiple, BaseChunk, NumChunks, Tiles, AsConfigured;
      var chunk := RoundUp(BaseChunk(env), g);
      aligned := RoundUp(size, g);
      sizes := ChunkSizes(aligned, chunk, g);
      if PlanFits(size, g, chunk) {
        RoundUpExact(size, g);
        ConfiguredTiles(sizes, env, aligned, g);
        TilesArePositive(sizes, aligned, chunk, g);
      } else {
        OverflowPlansNothing(size, g, chunk);
        NothingConfigured(env, g);
      }
    }

    /** The final mapping of a reservation, which is given up if it fails. */
    method MapReservation(base: Addr, aligned: nat, handles: array<Handle>, sizes: seq<nat>, ghost reserved: map<Addr, nat>)
      returns (ok: bool)
      requires driver.Valid() && error == 0 && handles.Length == |sizes| && Positive(sizes)
      requires base !in reserved && driver.reserved == reserved[base := aligned]
      modifies this, driver, handles
      ensures driver.Valid()
      ensures ok ==> error == 0 && AllMapped(base, sizes, old(Snapshot()), Snapshot())
      ensures ok ==> handles[..] == Numbering(old(driver.next), |sizes|) && driver.reserved == old(driver.reserved)
      ensures old(driver.calls) <= driver.calls && old(driver.statuses) <= driver.statuses
      ensures error != 0 ==> Reports(error, old(driver.statuses), driver.statuses)
      ensures ok ==> |driver.calls| > 0 && driver.calls[|driver.calls| - 1] == SetAccess(base, aligned)
      ensures !ok ==> error != 0
      ensures !ok && driver.reliable ==> RolledBack(old(Snapshot()), Snapshot()) && driver.reserved == reserved
    {
      hide AllMapped, FailedAttempt, CompleteAttempt, ContextCalls, Overwritten, Numbering, Checked, FirstFailure, Positive, Reports;
      ghost var first, cells := driver.next, handles[..];
      ghost var context, checked := CreateAndMap(base, aligned, handles, sizes);
      CheckedIsClearExactly(0, context);
      ok := error == 0;
      if ok {
        AllMappedCells(base, sizes, old(Snapshot()), Snapshot(), cells);
        AccessIsLast(old(driver.calls) + ContextCalls(|context| == 3), base, sizes, first, aligned);
      }
      if !ok {
        ghost var before, sofar := driver.reserved, driver.statuses;
        assert old(driver.statuses) + (context + checked) == old(driver.statuses) + context + checked;
        CheckedReports(old(driver.statuses), context + checked, sofar);
        var status := driver.FreeAddress(base, aligned);
        ReportsLonger(error, old(driver.statuses), sofar, driver.statuses);
        LastReports(old(driver.statuses), sofar, status);
        Check(status);
        assert before - {base} == reserved;
      }
    }
  }

  /** Chunk j is not among the chunks before it. */
  lemma NotYetUnmapped(base: Addr, sizes: seq<nat>, j: nat)
    requires j < |sizes| && Positive(sizes)
    ensures ChunkAddr(base, sizes, j) !in Addrs(base, sizes, j)
  {
    if ChunkAddr(base, sizes, j) in Addrs(base, sizes, j) {
      AddrsBelow(base, sizes, j, ChunkAddr(base, sizes, j));
    }
  }
}
