/**
 When the programs of a launch can run side by side: packed or dense tokens, a state cache whose strides nest, and slots to
 store in that no other request of the batch uses. Requests may load the same slot, as those do that hit the same prefix.
 */
module ScanLayout {
  import opened Basics
  import opened ScanRecurrence
  import opened ChunkMetadata
  import opened ScanKernel
  import opened ScanGrid
  import PrefixCache

  // ---------------------------------------------------------------------------------------------
  // Cells of the cache
  // ---------------------------------------------------------------------------------------------

  /** Lanes lie within a row, rows within a slot. */
  predicate NestedCache(l: Launch, dims: nat) {
    l.ssmLane > 0 && Times(l.dstate, l.ssmLane) <= l.ssmDim && Times(dims, l.ssmDim) <= l.ssmSlot
  }

  function Times(k: nat, n: int): int { k * n }

  /** The offset of item k < n of the given size lies in n times that size. */
  lemma ItemFits(k: nat, n: nat, size: int, extra: int)
    requires k < n && size >= 0 && extra < size
    ensures Times(k, size) + extra < Times(n, size)
  {
    MulMonotone(k + 1, n, size);
    assert (k + 1) * size == k * size + size;
  }

  /** Where two numbers are split by the same size, the parts agree. */
  lemma SameParts(j: int, k: int, size: int, x: int, y: int)
    requires 0 <= x < size && 0 <= y < size && j * size + x == k * size + y
    ensures j == k
  {
    assert (j - k) * size == y - x && (k - j) * size == x - y;
    if j > k { PositivePart(j - k, size); }
    if k > j { PositivePart(k - j, size); }
  }

  lemma PositivePart(d: int, size: int)
    requires d > 0 && size > 0
    ensures d * size >= size
  {
    MulMonotone(1, d, size);
  }

  /** The offset of a lane within its slot. */
  function InSlot(l: Launch, d: nat, i: nat): int { d * l.ssmDim + i * l.ssmLane }

  lemma LaneInSlot(l: Launch, dims: nat, d: nat, i: nat)
    requires NestedCache(l, dims) && d < dims && i < l.dstate
    ensures 0 <= i * l.ssmLane < l.ssmDim && 0 <= InSlot(l, d, i) < l.ssmSlot
  {
    ItemFits(i, l.dstate, l.ssmLane, 0);
    assert 0 <= i * l.ssmLane;
    ItemFits(d, dims, l.ssmDim, i * l.ssmLane);
    assert 0 <= d * l.ssmDim;
  }

  /** A cell belongs to one slot and one row. */
  lemma CellIdentifies(l: Launch, dims: nat, slot: int, d: nat, i: nat, slot': int, d': nat, i': nat)
    requires NestedCache(l, dims) && d < dims && d' < dims && i < l.dstate && i' < l.dstate
    requires SsmAddr(l, slot, d, i) == SsmAddr(l, slot', d', i')
    ensures slot == slot' && d == d'
  {
    hide NestedCache;
    LaneInSlot(l, dims, d, i);
    LaneInSlot(l, dims, d', i');
    SameParts(slot, slot', l.ssmSlot, InSlot(l, d, i), InSlot(l, d', i'));
    SameParts(d, d', l.ssmDim, i * l.ssmLane, i' * l.ssmLane);
  }

  /** Entry b stores in no slot that entry b' loads from or stores in. */
  ghost predicate StoresApart(l: Launch, b: nat, b': nat)
    requires ForwardChunks(l, b) && ForwardChunks(l, b')
  {
    forall c :: 0 <= c < |Lens(l, b)| ==>
      && (Loads(l, b') ==> StoreSlot(l, b, c) != LoadSlot(l, b'))
      && forall c' :: 0 <= c' < |Lens(l, b')| ==> StoreSlot(l, b, c) != StoreSlot(l, b', c')
  }

  /** What p writes, q does not use. */
  lemma WritesApart(l: Launch, dims: nat, p: Pid, q: Pid, a: int)
    requires ForwardChunks(l, p.b) && ForwardChunks(l, q.b) && NestedCache(l, dims) && p.d < dims && q.d < dims && p != q
    requires p.b != q.b ==> StoresApart(l, p.b, q.b)
    ensures !(WritesCell(l, p, a) && UsesCell(l, q, a))
  {
    hide ForwardChunks, NestedCache, SsmAddr, Lens, StoreSlot, LoadSlot;
    if WritesCell(l, p, a) && UsesCell(l, q, a) {
      var slot, i :| 0 <= i < l.dstate && WritesSlot(l, p, slot) && a == SsmAddr(l, slot, p.d, i);
      var c :| 0 <= c < |Lens(l, p.b)| && slot == StoreSlot(l, p.b, c);
      if ReadsCell(l, q, a) {
        var i' :| 0 <= i' < l.dstate && a == SsmAddr(l, LoadSlot(l, q.b), q.d, i');
        CellIdentifies(l, dims, slot, p.d, i, LoadSlot(l, q.b), q.d, i');
      } else {
        var slot', i' :| 0 <= i' < l.dstate && WritesSlot(l, q, slot') && a == SsmAddr(l, slot', q.d, i');
        CellIdentifies(l, dims, slot, p.d, i, slot', q.d, i');
      }
    }
  }

  // ---------------------------------------------------------------------------------------------
  // Tokens
  // ---------------------------------------------------------------------------------------------

  /** Entry b scans all of its tokens and no others, and has a place in the batch. */
  ghost predicate WholeEntry(l: Launch, b: nat)
    requires ForwardChunks(l, b)
  {
    TokenCount(l, b) == ActualSeqlen(l, b) && (l.queryStart.Some? ==> b + 1 < |l.queryStart.value|)
  }

  /** A dense tensor: rows of at least seqlen tokens, and entries of at least `dims` rows. */
  predicate Dense(l: Launch, st: Strides, dims: nat) {
    l.queryStart.None? && l.seqlen <= st.dim && Times(dims, st.dim) <= st.batch
  }

  /** The launcher's tensors: packed when the batch has variable lengths, dense when it has not. */
  ghost predicate LaidOut(l: Launch, st: Strides, dims: nat, total: nat) {
    Packed(l, st, total) || Dense(l, st, dims)
  }

  /** In a dense tensor no token position belongs to two programs. */
  lemma DenseRangesAreDisjoint(l: Launch, st: Strides, dims: nat, p: Pid, q: Pid, a: int)
    requires ForwardChunks(l, p.b) && ForwardChunks(l, q.b) && Dense(l, st, dims) && p != q && p.d < dims && q.d < dims
    requires WholeEntry(l, p.b) && WholeEntry(l, q.b)
    ensures !(OwnsToken(l, p, Base(l, st, p.b, p.d), a) && OwnsToken(l, q, Base(l, st, q.b, q.d), a))
  {
    hide TokenCount, ForwardChunks;
    if OwnsToken(l, p, Base(l, st, p.b, p.d), a) && OwnsToken(l, q, Base(l, st, q.b, q.d), a) {
      var x, y := a - Base(l, st, p.b, p.d), a - Base(l, st, q.b, q.d);
      ItemFits(p.d, dims, st.dim, x);
      ItemFits(q.d, dims, st.dim, y);
      assert 0 <= p.d * st.dim && 0 <= q.d * st.dim;
      SameParts(p.b, q.b, st.batch, p.d * st.dim + x, q.d * st.dim + y);
      SameParts(p.d, q.d, st.dim, x, y);
    }
  }

  lemma TokensApart(l: Launch, st: Strides, dims: nat, total: nat, p: Pid, q: Pid, a: int)
    requires ForwardChunks(l, p.b) && ForwardChunks(l, q.b) && LaidOut(l, st, dims, total) && p != q && p.d < dims && q.d < dims
    requires WholeEntry(l, p.b) && WholeEntry(l, q.b)
    ensures !(OwnsToken(l, p, Base(l, st, p.b, p.d), a) && OwnsToken(l, q, Base(l, st, q.b, q.d), a))
  {
    hide TokenCount, ForwardChunks, OwnsToken, Base;
    if Dense(l, st, dims) {
      DenseRangesAreDisjoint(l, st, dims, p, q, a);
    } else {
      PackedRangesAreDisjoint(l, st, total, p, q, a);
    }
  }

  // ---------------------------------------------------------------------------------------------
  // The launch
  // ---------------------------------------------------------------------------------------------

  /** The tensors of the launch are laid out as the launcher lays them out. */
  ghost predicate LaunchLaidOut(l: Launch, dims: nat, total: nat) {
    && l.groupSize > 0
    && LaidOut(l, l.deltaStrides, dims, total)
    && (l.gated ==> LaidOut(l, l.zStrides, dims, total))
    && NestedCache(l, dims)
  }

  lemma BaseOfDelta(l: Launch, p: Pid)
    requires l.groupSize > 0
    ensures BasesOf(l, p.b, p.d).delta == Base(l, l.deltaStrides, p.b, p.d)
    ensures BasesOf(l, p.b, p.d).z == Base(l, l.zStrides, p.b, p.d)
  {
  }

  /** Two programs of a launch so laid out are separate, if their requests store apart. */
  lemma LayoutSeparates(l: Launch, dims: nat, total: nat, p: Pid, q: Pid)
    requires ForwardChunks(l, p.b) && ForwardChunks(l, q.b) && LaunchLaidOut(l, dims, total)
    requires WholeEntry(l, p.b) && WholeEntry(l, q.b) && p != q && p.d < dims && q.d < dims
    requires p.b != q.b ==> StoresApart(l, p.b, q.b) && StoresApart(l, q.b, p.b)
    ensures Separate(l, p, q)
  {
    hide ForwardChunks, LaidOut, NestedCache, StoresApart, WholeEntry, OwnsToken, BasesOf, UsesCell, WritesCell, Base;
    BaseOfDelta(l, p);
    BaseOfDelta(l, q);
    forall a ensures !(OwnsToken(l, p, BasesOf(l, p.b, p.d).delta, a) && OwnsToken(l, q, BasesOf(l, q.b, q.d).delta, a)) {
      TokensApart(l, l.deltaStrides, dims, total, p, q, a);
    }
    forall a | l.gated
      ensures !(OwnsToken(l, p, BasesOf(l, p.b, p.d).z, a) && OwnsToken(l, q, BasesOf(l, q.b, q.d).z, a))
    {
      TokensApart(l, l.zStrides, dims, total, p, q, a);
    }
    forall a ensures !(UsesCell(l, p, a) && WritesCell(l, q, a)) && !(WritesCell(l, p, a) && UsesCell(l, q, a)) {
      WritesApart(l, dims, p, q, a);
      WritesApart(l, dims, q, p, a);
    }
  }

  ghost predicate Ready(l: Launch, dims: nat, mem: Memory, p: Pid) {
    p.d < dims && Runnable(l, p, mem) && WholeEntry(l, p.b)
  }

  ghost predicate BatchStoresApart(l: Launch, pids: set<Pid>) {
    forall p, q :: p in pids && q in pids && p.b != q.b ==>
      ForwardChunks(l, p.b) && ForwardChunks(l, q.b) && StoresApart(l, p.b, q.b)
  }

  /**
   So every launch whose requests have store slots of their own is a grid, and all that is proved of grids holds of it, also
   when requests load from one and the same slot.
   */
  lemma LayoutMakesGrid(l: Launch, dims: nat, total: nat, pids: set<Pid>, mem: Memory)
    requires LaunchLaidOut(l, dims, total) && BatchStoresApart(l, pids)
    requires forall p :: p in pids ==> Ready(l, dims, mem, p)
    ensures Grid(l, pids, mem)
  {
    hide InBounds, StoresApart, WholeEntry, Separate, ForwardChunks, LaidOut, NestedCache, Skipped;
    forall p, q | p in pids && q in pids && p != q ensures l.groupSize > 0 && Separate(l, p, q) {
      assert Ready(l, dims, mem, p) && Ready(l, dims, mem, q);
      LayoutSeparates(l, dims, total, p, q);
    }
  }

  lemma EntryTokens(l: Launch, size: nat, lens: seq<nat>, offset: nat, owner: seq<nat>, r: nat, done: nat, due: nat)
    requires size > 0 && PrefixCache.BuiltEntry(l, size, lens, offset, owner, r, done, due)
    ensures ForwardChunks(l, r) && TokenCount(l, r) == Sum(lens, |lens|)
  {
    hide Describes, PrefixCache.LastColumn, PrefixCache.FirstColumn, ForwardChunks, Lens;
    PrefixCache.KernelSeesChunks(l, r, lens, offset, owner);
  }

  /** The builder's chunks of a request are all of its tokens. */
  lemma BuiltEntryIsWhole(l: Launch, size: nat, done: seq<nat>, start: seq<nat>, owner: seq<nat>, r: nat)
    requires size > 0 && |start| == |done| + 1 && Sorted(start) && r < |done|
    requires l.slots.Checkpointed? && PrefixCache.BuiltFor(l, size, done, start, owner) && l.queryStart == Some(start)
    ensures ForwardChunks(l, r) && WholeEntry(l, r)
  {
    hide ForwardChunks, TokenCount, PrefixCache.BuiltEntry, ChunkLens, Plan, Sum;
    PlanAt(size, done, start, r);
    assert Entry(start, r) == start[r] && Entry(start, r + 1) == start[r + 1];
    EntryTokens(l, size, Plan(size, done, start)[r], start[r] - start[0], owner, r, done[r], start[r + 1] - start[r]);
  }

  // ---------------------------------------------------------------------------------------------
  // An example
  // ---------------------------------------------------------------------------------------------

  /** Two requests of one token each that hit the same block: both load slot 0, and they store in slots 1 and 2. */
  function SharingLaunch(): Launch {
    var none := Strides(0, 0);
    Launch(Functions(x => 1.0, x => 0.0, x => 0.0), false, false,
           [1.0, 1.0], [2.0], [3.0, 3.0], [4.0, 4.0], None, None,
           1, 1, 2, Some([0, 1, 2]), Some([true, true]),
           Strides(1, 2), Strides(1, 2), none, 1, 1,
           Strides(1, 2), 2, Strides(1, 2), 2,
           1, 1, 1, 7,
           Checkpointed([0, 1, 0, 2], 2, [0, 0], [1, 1], [1, 1], [0, 1, 2], [0, 1], 1))
  }

  lemma SharingLists(b: nat)
    requires b < 2
    ensures var l := SharingLaunch();
            && l.slots.Checkpointed? && l.slots.blockSize == 1 && FirstChunkOf(l, b) == b && Entry(l.slots.lastChunk, b) == b
            && Entry(l.slots.cu, b) == b && Entry(l.slots.cu, b + 1) == b + 1 && ActualSeqlen(l, b) == 1
            && l.queryStart.Some? && |l.queryStart.value| == 3 && l.groupSize == 1 && !l.gated && l.dstate == 1
            && Base(l, l.deltaStrides, b, 0) == b && forall slot :: SsmAddr(l, slot, 0, 0) == slot
  {
    var l := SharingLaunch();
    assert l.slots.cu == [0, 1, 2] && l.slots.lastChunk == [0, 1] && l.queryStart.value == [0, 1, 2];
  }

  lemma SharingChunks(b: nat)
    requires b < 2
    ensures ForwardChunks(SharingLaunch(), b) && Lens(SharingLaunch(), b) == [1] && TokenCount(SharingLaunch(), b) == 1
    ensures WholeEntry(SharingLaunch(), b)
  {
    hide SharingLaunch, Entry, ActualSeqlen, FirstChunkOf;
    var l := SharingLaunch();
    SharingLists(b);
    assert ChunkCount(l, b) == 1 && ChunkTokens(l, b, 0) == 1;
    assert ForwardChunks(l, b);
    assert Lens(l, b) == [1];
    assert Sum([1], 1) == 1;
  }

  lemma SharingSlots(b: nat)
    requires b < 2 && ForwardChunks(SharingLaunch(), b) && Lens(SharingLaunch(), b) == [1]
    ensures LoadSlot(SharingLaunch(), b) == 0 && StoreSlot(SharingLaunch(), b, 0) == b + 1 && Loads(SharingLaunch(), b)
    ensures !Skipped(SharingLaunch(), b)
  {
    hide ForwardChunks, Lens;
    var l := SharingLaunch();
    assert l.slots.table == [0, 1, 0, 2];
  }

  lemma SharingRuns(b: nat, mem: Memory)
    requires b < 2 && |mem.delta| == 2 && |mem.ssm| == 3
    ensures Ready(SharingLaunch(), 1, mem, Pid(b, 0))
  {
    hide SharingLaunch, ForwardChunks, Lens, StoreSlot, TokenCount, WholeEntry, SsmAddr, Base, Skipped;
    SharingLists(b);
    SharingChunks(b);
    SharingSlots(b);
  }

  lemma SharingIsApart(b: nat, b': nat)
    requires b < 2 && b' < 2 && b != b'
    ensures ForwardChunks(SharingLaunch(), b) && ForwardChunks(SharingLaunch(), b') && StoresApart(SharingLaunch(), b, b')
  {
    hide ForwardChunks, Lens, StoreSlot, SharingLaunch, LoadSlot, Loads;
    SharingChunks(b);
    SharingChunks(b');
    SharingSlots(b);
    SharingSlots(b');
  }

  /** They make a grid, so every schedule of the two computes both scans. */
  lemma SharingMakesGrid(mem: Memory)
    requires |mem.delta| == 2 && |mem.ssm| == 3
    ensures Grid(SharingLaunch(), {Pid(0, 0), Pid(1, 0)}, mem)
    ensures Loads(SharingLaunch(), 0) && Loads(SharingLaunch(), 1) && LoadSlot(SharingLaunch(), 0) == LoadSlot(SharingLaunch(), 1)
  {
    hide Ready, Grid, ForwardChunks, Lens, StoresApart;
    var l, pids := SharingLaunch(), {Pid(0, 0), Pid(1, 0)};
    forall b | 0 <= b < 2 ensures Ready(l, 1, mem, Pid(b, 0)) && LoadSlot(l, b) == 0 {
      SharingChunks(b);
      SharingSlots(b);
      SharingRuns(b, mem);
    }
    SharingIsApart(0, 1);
    SharingIsApart(1, 0);
    SharingLayout();
    LayoutMakesGrid(l, 1, 2, pids, mem);
  }

  lemma SharingLayout()
    ensures LaunchLaidOut(SharingLaunch(), 1, 2)
  {
    assert SharingLaunch().queryStart.value == [0, 1, 2];
  }
}
