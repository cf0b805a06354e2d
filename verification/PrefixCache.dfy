/**
 Prefix caching end to end: a sequence served in any number of calls, each of them cut into chunks by the
 metadata builder, padded to a power of two and resumed from the state the previous call left in the cache, computes
 what one uninterrupted, unpadded scan computes. Every block boundary it passes has its state in the cache.
 */
module PrefixCache {
  import opened Basics
  import opened Folds
  import opened ScanRecurrence
  import opened ChunkMetadata
  import opened ScanKernel

  // ---------------------------------------------------------------------------------------------
  // Block indices of a request
  // ---------------------------------------------------------------------------------------------

  /** Column of the state that covers the first n tokens; 0 when there are none. */
  function LastColumn(size: nat, n: nat): nat
    requires size > 0
  {
    if Cdiv(n, size) >= 1 then Cdiv(n, size) - 1 else 0
  }

  /** Column of the block that token number n falls in. */
  function FirstColumn(size: nat, n: nat): nat
    requires size > 0
  {
    CdivBounds(n + 1, size);
    Cdiv(n + 1, size) - 1
  }

  lemma FirstColumnIs(size: nat, n: nat)
    requires size > 0
    ensures FirstColumn(size, n) == BlockOf(size, n)
  {
    var q := n / size;
    assert n == q * size + n % size && (q + 1) * size == q * size + size;
    CdivIs(n + 1, size, q + 1);
  }

  lemma LastColumnFrom(size: nat, n: nat, k: nat)
    requires size > 0 && k * size < n <= (k + 1) * size
    ensures LastColumn(size, n) == k
  {
    assert (k + 1) * size == k * size + size;
    CdivIs(n, size, k + 1);
  }

  /** Where the last token of a call lies: in the block of the last chunk. */
  lemma LastChunkRange(size: nat, done: nat, due: nat, lens: seq<nat>, k: int)
    requires size > 0 && due > 0 && lens == ChunkLens(size, done, due) && k == BlockOf(size, done) + |lens| - 1
    ensures |lens| > 0 && k * size < done + due <= (k + 1) * size
  {
    hide ChunkLens, BlockOf;
    ChunksCover(size, done, due);
    assert lens != [];
    ChunkEnds(size, done, due, |lens| - 1);
    if |lens| == 1 {
      BlockBounds(size, done);
    } else {
      ChunkEnds(size, done, due, |lens| - 2);
    }
  }

  /** The columns of a call are consecutive: chunk c fills column done / size + c, the last one included. */
  lemma LastColumnIs(size: nat, done: nat, due: nat)
    requires size > 0 && due > 0
    ensures var lens := ChunkLens(size, done, due);
            |lens| > 0 && LastColumn(size, done + due) == BlockOf(size, done) + |lens| - 1
  {
    hide *;
    var lens := ChunkLens(size, done, due);
    var k := BlockOf(size, done) + |lens| - 1;
    LastChunkRange(size, done, due, lens, k);
    LastColumnFrom(size, done + due, k);
  }

  /** The column of the last token never moves backwards, and lies at or before the block of the next token. */
  lemma LastColumnMonotone(size: nat, m: nat, n: nat)
    requires size > 0 && m <= n
    ensures LastColumn(size, m) <= LastColumn(size, n) <= BlockOf(size, n)
  {
    hide Cdiv, BlockOf;
    var a, b, q := Cdiv(m, size), Cdiv(n, size), BlockOf(size, n);
    CdivBounds(m, size);
    CdivBounds(n, size);
    assert (b + 1) * size == b * size + size;
    MulCancel(a, b + 1, size);
    BlockBounds(size, n);
    assert (b - 1) * size == b * size - size;
    MulCancel(b - 1, q + 1, size);
  }

  /** The builder's chunks have the layout the kernel's column arithmetic needs. */
  lemma BuilderLayout(size: nat, done: nat, due: nat, c: nat)
    requires size > 0 && due > 0 && c < |ChunkLens(size, done, due)|
    ensures Column(size, FirstColumn(size, done), LastColumn(size, done + due), ChunkLens(size, done, due), c) == BlockOf(size, done) + c
  {
    var lens := ChunkLens(size, done, due);
    FirstColumnIs(size, done);
    LastColumnIs(size, done, due);
    ChunkEnds(size, done, due, 0);
    forall i | 0 < i < |lens| - 1 ensures lens[i] == size {
      ChunkEnds(size, done, due, i);
      ChunkEnds(size, done, due, i - 1);
      var q := done / size;
      assert (q + i + 1) * size == (q + i) * size + size;
    }
    ColumnOfChunk(size, FirstColumn(size, done), LastColumn(size, done + due), lens, c);
  }

  /** The kernel reads back from the builder's lists exactly the chunks the builder cut. */
  lemma KernelSeesChunks(l: Launch, r: nat, lens: seq<nat>, offset: nat, owner: seq<nat>)
    requires l.slots.Checkpointed? && l.slots.blockSize > 0 && r < |l.slots.lastChunk|
    requires Describes(lens, offset, l.slots.cu, owner, l.slots.lastChunk, r)
    ensures ForwardChunks(l, r) && Lens(l, r) == lens
  {
    assert FirstChunkOf(l, r) == FirstChunk(l.slots.lastChunk, r);
    assert ChunkCount(l, r) == |lens|;
    forall c | 0 <= c < |lens| ensures ChunkTokens(l, r, c) == lens[c] {
      assert l.slots.cu[FirstChunkOf(l, r) + c] == offset + Sum(lens, c);
      assert l.slots.cu[FirstChunkOf(l, r) + (c + 1)] == offset + Sum(lens, c + 1);
    }
  }

  // ---------------------------------------------------------------------------------------------
  // Reading back what was stored
  // ---------------------------------------------------------------------------------------------

  /** The states of the row's slots occupy distinct cells of the cache. */
  ghost predicate DistinctCells(l: Launch, d: nat, row: seq<int>) {
    forall i, j, x, y | 0 <= i < |row| && 0 <= j < |row| && 0 <= x < l.dstate && 0 <= y < l.dstate ::
      SsmAddr(l, row[i], d, x) == SsmAddr(l, row[j], d, y) ==> i == j && x == y
  }

  lemma {:induction false} StoreLanesAt(l: Launch, ssm: seq<real>, d: nat, row: seq<int>, i: nat, v: Vec, n: nat, j: nat, x: nat)
    requires i < |row| && j < |row| && x < l.dstate && n <= l.dstate <= |v| && DistinctCells(l, d, row)
    requires SlotInBounds(l, row[i], d, |ssm|)
    ensures Load(StoreLanes(l, ssm, row[i], d, v, n), SsmAddr(l, row[j], d, x))
         == if i == j && x < n then v[x] else Load(ssm, SsmAddr(l, row[j], d, x))
  {
    if n > 0 {
      StoreLanesAt(l, ssm, d, row, i, v, n - 1, j, x);
      assert SsmAddr(l, row[i], d, n - 1) == SsmAddr(l, row[j], d, x) ==> i == j && x == n - 1;
    }
  }

  /** A stored state is read back lane for lane, and no other column of the row changes. */
  lemma StoreThenRead(l: Launch, ssm: seq<real>, d: nat, row: seq<int>, i: nat, v: Vec, j: nat)
    requires i < |row| && j < |row| && l.dstate <= |v| && DistinctCells(l, d, row) && SlotInBounds(l, row[i], d, |ssm|)
    ensures CachedState(l, StoreLanes(l, ssm, row[i], d, v, l.dstate), row[j], d)
         == if i == j then v[..l.dstate] else CachedState(l, ssm, row[j], d)
  {
    hide SsmAddr, StoreLanes, DistinctCells;
    forall x | 0 <= x < l.dstate
      ensures Load(StoreLanes(l, ssm, row[i], d, v, l.dstate), SsmAddr(l, row[j], d, x))
           == if i == j then v[x] else Load(ssm, SsmAddr(l, row[j], d, x))
    {
      StoreLanesAt(l, ssm, d, row, i, v, l.dstate, j, x);
    }
  }

  // ---------------------------------------------------------------------------------------------
  // One call
  // ---------------------------------------------------------------------------------------------

  /** The uninterrupted, unpadded scan of the whole sequence, from no state at all. */
  function Exact(ch: Channel, all: seq<Token>, n: nat): Vec
    requires n <= |all|
  {
    StateAt(ch, Zeros(ch.width), all, n)
  }

  function Zeros(n: nat): Vec { seq(n, _ => 0.0) }

  /** Batch entry b of the launch is the request (done, due) with block-table row `row`, as the scheduler presents it. */
  ghost predicate Scheduled(l: Launch, b: nat, row: seq<int>, size: nat, done: nat, due: nat) {
    && l.slots.Checkpointed? && l.slots.blockSize == size > 0 && due > 0
    && ForwardChunks(l, b) && Lens(l, b) == ChunkLens(size, done, due)
    && EntryNat(l.slots.firstBlock, b) == FirstColumn(size, done)
    && EntryNat(l.slots.lastBlock, b) == LastColumn(size, done + due) < |row|
    && Entry(l.slots.loadColumn, b) == LastColumn(size, done)
    && (forall j :: 0 <= j < |row| ==> Entry(l.slots.table, b * l.slots.rowStride + j) == row[j])
    && l.hasInitial.Some? && b < |l.hasInitial.value| && l.hasInitial.value[b] == (done > 0)
  }

  /** Entry r of the launch carries the chunks and the block indices of a request (done, due). */
  ghost predicate BuiltEntry(l: Launch, size: nat, lens: seq<nat>, offset: nat, owner: seq<nat>, r: nat, done: nat, due: nat)
    requires size > 0
  {
    && l.slots.Checkpointed? && l.slots.blockSize == size && r < |l.slots.lastChunk|
    && Describes(lens, offset, l.slots.cu, owner, l.slots.lastChunk, r)
    && EntryNat(l.slots.firstBlock, r) == FirstColumn(size, done)
    && EntryNat(l.slots.lastBlock, r) == LastColumn(size, done + due)
    && Entry(l.slots.loadColumn, r) == LastColumn(size, done)
    && l.hasInitial.Some? && r < |l.hasInitial.value| && l.hasInitial.value[r] == (done > 0)
  }

  /** The launch carries the metadata that the builder makes for a batch. */
  ghost predicate BuiltFor(l: Launch, size: nat, done: seq<nat>, start: seq<nat>, owner: seq<nat>)
    requires size > 0 && |start| == |done| + 1 && Sorted(start)
  {
    forall r :: 0 <= r < |done| ==>
      BuiltEntry(l, size, Plan(size, done, start)[r], start[r] - start[0], owner, r, done[r], start[r + 1] - start[r])
  }

  lemma EntryIsScheduled(l: Launch, size: nat, offset: nat, owner: seq<nat>, r: nat, done: nat, due: nat, row: seq<int>)
    requires size > 0 && due > 0 && BuiltEntry(l, size, ChunkLens(size, done, due), offset, owner, r, done, due)
    requires LastColumn(size, done + due) < |row|
    requires forall j :: 0 <= j < |row| ==> Entry(l.slots.table, r * l.slots.rowStride + j) == row[j]
    ensures Scheduled(l, r, row, size, done, due)
  {
    hide Describes, ChunkLens, FirstColumn, LastColumn, ForwardChunks, Lens;
    KernelSeesChunks(l, r, ChunkLens(size, done, due), offset, owner);
  }

  /** From the builder's lists to what the theorems about calls assume of a request with something to compute. */
  lemma BuilderSchedules(l: Launch, size: nat, done: seq<nat>, start: seq<nat>, owner: seq<nat>, r: nat, row: seq<int>)
    requires size > 0 && |start| == |done| + 1 && Sorted(start) && r < |done| && start[r] < start[r + 1]
    requires l.slots.Checkpointed? && BuiltFor(l, size, done, start, owner)
    requires LastColumn(size, done[r] + (start[r + 1] - start[r])) < |row|
    requires forall j :: 0 <= j < |row| ==> Entry(l.slots.table, r * l.slots.rowStride + j) == row[j]
    ensures Scheduled(l, r, row, size, done[r], start[r + 1] - start[r])
  {
    hide BuiltEntry, Plan, ChunkLens, LastColumn, Scheduled;
    PlanAt(size, done, start, r);
    EntryIsScheduled(l, size, start[r] - start[0], owner, r, done[r], start[r + 1] - start[r], row);
  }

  /**
   After n tokens the cache holds, for the columns of the row from `from` on: in each completed block's column the state at
   the end of that block, and in the column of the last token the state after all n.
   */
  ghost predicate CacheHolds(l: Launch, ssm: seq<real>, d: nat, row: seq<int>, from: nat, ch: Channel, all: seq<Token>,
                             size: nat, n: nat)
    requires size > 0 && n <= |all|
  {
    && (n > 0 ==> LastColumn(size, n) < |row| && CachedState(l, ssm, row[LastColumn(size, n)], d) == Exact(ch, all, n))
    && forall j :: from <= j < |row| && (j + 1) * size <= n ==>
         CachedState(l, ssm, row[j], d) == Exact(ch, all, (j + 1) * size)
  }

  /** The columns from `from` on have cells of their own. Those before may repeat, as null blocks do. */
  ghost predicate DistinctFrom(l: Launch, d: nat, row: seq<int>, from: nat) {
    from <= |row| && DistinctCells(l, d, row[from..])
  }

  /** Chunk c's state goes to column done / size + c of the row. */
  lemma StoreSlotIs(l: Launch, b: nat, row: seq<int>, size: nat, done: nat, due: nat, c: nat)
    requires size > 0 && ForwardChunks(l, b) && c < |Lens(l, b)| && Scheduled(l, b, row, size, done, due)
    ensures BlockOf(size, done) + c < |row| && StoreSlot(l, b, c) == row[BlockOf(size, done) + c]
  {
    hide ChunkLens, Lens, ForwardChunks;
    BuilderLayout(size, done, due, c);
    LastColumnIs(size, done, due);
  }

  /** Once the first n chunks are stored, their columns hold their states and the others hold what they held. */
  lemma {:induction false} CheckpointColumns(l: Launch, b: nat, d: nat, row: seq<int>, size: nat, done: nat, due: nat,
                                             ssm: seq<real>, s0: Vec, toks: seq<Token>, n: nat, from: nat, j: nat)
    requires size > 0 && ForwardChunks(l, b) && from <= j < |row| && Scheduled(l, b, row, size, done, due)
    requires DistinctFrom(l, d, row, from) && from <= BlockOf(size, done)
    requires n <= |Lens(l, b)| && TokenCount(l, b) <= |toks| && |s0| == NextPowerOf2(l.dstate)
    requires forall c :: 0 <= c < |Lens(l, b)| ==> SlotInBounds(l, StoreSlot(l, b, c), d, |ssm|)
    ensures var q := BlockOf(size, done);
            CachedState(l, Checkpoints(l, b, d, ssm, s0, toks, n), row[j], d)
            == if q <= j < q + n && Sum(Lens(l, b), j - q + 1) <= |toks|
               then PadTo(StateAt(ChannelOf(l, d), s0, toks, Sum(Lens(l, b), j - q + 1)), l.dstate)
               else CachedState(l, ssm, row[j], d)
  {
    hide *;
    if n == 0 {
      FirstChunkStart(l, b, d, ssm, s0, toks);
    } else {
      var q := BlockOf(size, done);
      CheckpointColumns(l, b, d, row, size, done, due, ssm, s0, toks, n - 1, from, j);
      NextChunk(l, b, d, ssm, s0, toks, n - 1);
      StoreSlotIs(l, b, row, size, done, due, n - 1);
      var v := StateAt(ChannelOf(l, d), s0, toks, Sum(Lens(l, b), n));
      StoreThenReadFrom(l, Checkpoints(l, b, d, ssm, s0, toks, n - 1), d, row, from, q + n - 1, v, j);
      TruncateIsPad(v, l.dstate);
    }
  }

  lemma StoreThenReadFrom(l: Launch, ssm: seq<real>, d: nat, row: seq<int>, from: nat, i: nat, v: Vec, j: nat)
    requires from <= i < |row| && from <= j < |row| && l.dstate <= |v| && DistinctFrom(l, d, row, from)
    requires SlotInBounds(l, row[i], d, |ssm|)
    ensures CachedState(l, StoreLanes(l, ssm, row[i], d, v, l.dstate), row[j], d)
         == if i == j then v[..l.dstate] else CachedState(l, ssm, row[j], d)
  {
    hide CachedState, StoreLanes, DistinctCells, SlotInBounds;
    StoreThenRead(l, ssm, d, row[from..], i - from, v, j - from);
  }

  lemma TruncateIsPad(v: Vec, n: nat)
    requires n <= |v|
    ensures v[..n] == PadTo(v, n)
  {
  }

  /** Resuming the exact scan at token `done` continues it. */
  lemma ExactResume(ch: Channel, all: seq<Token>, done: nat, due: nat, t: nat)
    requires done + due <= |all| && t <= due
    ensures StateAt(ch, Exact(ch, all, done), all[done..done + due], t) == Exact(ch, all, done + t)
  {
    hide StepOf;
    var xs, ys := all[..done], all[done..done + due];
    FoldSplit(StepOf(ch), Zeros(ch.width), xs, ys, t);
    FoldPrefix(StepOf(ch), Zeros(ch.width), xs, all, done);
    FoldPrefix(StepOf(ch), Zeros(ch.width), xs + ys, all, done + t);
  }

  /** The channel as the kernel runs it, padded, against the channel of the exact scan. */
  ghost predicate SameChannel(l: Launch, d: nat, ch: Channel) {
    l.dstate == ch.width && ChannelOf(l, d) == ch.(width := NextPowerOf2(ch.width))
  }

  /** A program that starts from the exact state at `done` passes through the exact states and outputs after it. */
  lemma PaddedResume(wide: Channel, ch: Channel, all: seq<Token>, done: nat, due: nat, s0: Vec, toks: seq<Token>, t: nat)
    requires done + due <= |all| && t <= due && toks == all[done..done + due]
    requires wide == ch.(width := wide.width) && ch.width <= wide.width && HasLanes(ch, all, ch.width)
    requires |Exact(ch, all, done)| == ch.width && s0 == PadTo(Exact(ch, all, done), wide.width)
    ensures PadTo(StateAt(wide, s0, toks, t), ch.width) == Exact(ch, all, done + t)
    ensures t < due ==> OutputAt(wide, s0, toks, t) == OutputAt(ch, Zeros(ch.width), all, done + t)
    ensures t < due ==> GatedAt(wide, s0, toks, t) == GatedAt(ch, Zeros(ch.width), all, done + t)
  {
    hide Exact, Output, Gate, StepOf;
    var r0 := Exact(ch, all, done);
    PaddedState(wide, s0, r0, toks, t);
    ExactResume(ch, all, done, due, t);
    assert wide.(width := |r0|) == ch;
    assert PadTo(StateAt(wide, s0, toks, t), ch.width) == Exact(ch, all, done + t);
    if t < due {
      PaddedOutput(wide, s0, r0, toks, t);
      ResumedOutput(ch, all, done, due, t);
    }
  }

  lemma ResumedOutput(ch: Channel, all: seq<Token>, done: nat, due: nat, t: nat)
    requires done + due <= |all| && t < due
    ensures OutputAt(ch, Exact(ch, all, done), all[done..done + due], t) == OutputAt(ch, Zeros(ch.width), all, done + t)
    ensures GatedAt(ch, Exact(ch, all, done), all[done..done + due], t) == GatedAt(ch, Zeros(ch.width), all, done + t)
  {
    hide Output, Gate;
    ExactResume(ch, all, done, due, t + 1);
  }

  lemma {:induction false} ExactWidth(ch: Channel, all: seq<Token>, n: nat)
    requires n <= |all|
    ensures |Exact(ch, all, n)| == ch.width
  {
    StateWidth(ch, Zeros(ch.width), all, n);
  }

  /** A call of a request: its launch entry, and the mutable tensors before and after it. */
  datatype Call = Call(l: Launch, b: nat, due: nat, delta: seq<real>, z: seq<real>, ssm: seq<real>,
                       delta': seq<real>, z': seq<real>, ssm': seq<real>)

  /**
   The call is well formed for a request that has computed `done` tokens of the sequence `all`, and whose columns from
   `from` on are its own or hold what it started from.
   */
  ghost predicate CallOf(k: Call, d: nat, row: seq<int>, from: nat, ch: Channel, all: seq<Token>, size: nat, done: nat) {
    && Scheduled(k.l, k.b, row, size, done, k.due)
    && SameChannel(k.l, d, ch) && DistinctFrom(k.l, d, row, from) && from <= BlockOf(size, done)
    && InBounds(k.l, k.b, d, |k.delta|, |k.z|, |k.ssm|)
    && done + k.due <= |all|
    && ProgramOf(k.l, k.b, d, k.delta, k.z, k.ssm).toks == all[done..done + k.due]
    && Finished(k.l, k.b, d, k.delta, k.z, k.ssm, k.delta', k.z', k.ssm')
  }

  /** Running the kernel on a scheduled request is such a call. */
  method ServeCall(l: Launch, b: nat, d: nat, due: nat, delta: array<real>, z: array<real>, ssm: array<real>,
                   ghost row: seq<int>, ghost from: nat, ghost ch: Channel, ghost all: seq<Token>, ghost size: nat, ghost done: nat)
    returns (ghost k: Call)
    requires delta != z && delta != ssm && z != ssm && !Skipped(l, b)
    requires Scheduled(l, b, row, size, done, due) && SameChannel(l, d, ch)
    requires DistinctFrom(l, d, row, from) && from <= BlockOf(size, done)
    requires InBounds(l, b, d, delta.Length, z.Length, ssm.Length) && done + due <= |all|
    requires ProgramOf(l, b, d, delta[..], z[..], ssm[..]).toks == all[done..done + due]
    modifies delta, z, ssm
    ensures k == Call(l, b, due, old(delta[..]), old(z[..]), old(ssm[..]), delta[..], z[..], ssm[..])
    ensures CallOf(k, d, row, from, ch, all, size, done)
  {
    hide InBounds, Finished, SameChannel, DistinctFrom, LoadSlot, Lens, ChunkLens, FirstColumn, LastColumn, ProgramOf;
    ghost var delta0, z0, ssm0 := delta[..], z[..], ssm[..];
    ScanProgram(l, b, d, delta, z, ssm);
    k := Call(l, b, due, delta0, z0, ssm0, delta[..], z[..], ssm[..]);
  }

  /** The program starts from the exact state: the cached one, or zeros for a new sequence. */
  lemma StartsExact(k: Call, d: nat, row: seq<int>, from: nat, ch: Channel, all: seq<Token>, size: nat, done: nat)
    requires CallOf(k, d, row, from, ch, all, size, done) && size > 0 && done <= |all|
    requires k.l.groupSize > 0 && ForwardChunks(k.l, k.b)
    requires CacheHolds(k.l, k.ssm, d, row, from, ch, all, size, done)
    ensures ProgramOf(k.l, k.b, d, k.delta, k.z, k.ssm).s0 == PadTo(Exact(ch, all, done), NextPowerOf2(ch.width))
  {
    hide ChannelOf, Finished, InBounds, CachedState, Tokens, ForwardChunks, Lens, ChunkLens, BasesOf, TokenCount, PadTo,
      NextPowerOf2, FirstColumn, StepOf;
    var l := k.l;
    if done > 0 {
      assert LoadSlot(l, k.b) == row[LastColumn(size, done)];
    } else {
      assert Exact(ch, all, 0) == Zeros(ch.width);
    }
  }

  /** Outputs of a resumed call are the outputs of the uninterrupted scan. */
  lemma CallOutputs(k: Call, d: nat, row: seq<int>, from: nat, ch: Channel, all: seq<Token>, size: nat, done: nat, t: nat)
    requires CallOf(k, d, row, from, ch, all, size, done) && size > 0 && done <= |all| && HasLanes(ch, all, ch.width) && t < k.due
    requires k.l.groupSize > 0 && ForwardChunks(k.l, k.b)
    requires CacheHolds(k.l, k.ssm, d, row, from, ch, all, size, done)
    ensures var at := BasesOf(k.l, k.b, d);
            && 0 <= at.delta + t < |k.delta'| && k.delta'[at.delta + t] == OutputAt(ch, Zeros(ch.width), all, done + t)
            && (k.l.gated ==> 0 <= at.z + t < |k.z'| && k.z'[at.z + t] == GatedAt(ch, Zeros(ch.width), all, done + t))
  {
    hide ChannelOf, Scheduled, CacheHolds, Exact, OutputAt, GatedAt, Tokens, Checkpoints, StoreSlot, DistinctFrom,
      NextPowerOf2, ForwardChunks, TokenCount, PadTo, InitialVector, BasesOf, SlotInBounds;
    var p := ProgramOf(k.l, k.b, d, k.delta, k.z, k.ssm);
    StartsExact(k, d, row, from, ch, all, size, done);
    ExactWidth(ch, all, done);
    assert |p.toks| == k.due;
    PaddedResume(p.ch, ch, all, done, k.due, p.s0, p.toks, t);
    assert k.delta'[p.at.delta + t] == Outs(p.ch, p.s0, p.toks, |p.toks|)[t];
    assert p.gated ==> k.z'[p.at.z + t] == GatedOuts(p.ch, p.s0, p.toks, |p.toks|)[t];
  }

  /** After the call, column j holds the exact state at the end of chunk j - done / size, or what it held before. */
  lemma CallColumn(k: Call, d: nat, row: seq<int>, from: nat, ch: Channel, all: seq<Token>, size: nat, done: nat, j: nat)
    requires CallOf(k, d, row, from, ch, all, size, done) && size > 0 && done <= |all| && HasLanes(ch, all, ch.width)
    requires from <= j < |row| && from <= BlockOf(size, done)
    requires k.l.groupSize > 0 && ForwardChunks(k.l, k.b)
    requires CacheHolds(k.l, k.ssm, d, row, from, ch, all, size, done)
    ensures var q := BlockOf(size, done); var lens := ChunkLens(size, done, k.due);
            && (q <= j < q + |lens| ==>
                  && done + Sum(lens, j - q + 1) <= |all|
                  && CachedState(k.l, k.ssm', row[j], d) == Exact(ch, all, done + Sum(lens, j - q + 1)))
            && (j < q ==> CachedState(k.l, k.ssm', row[j], d) == CachedState(k.l, k.ssm, row[j], d))
  {
    hide ChannelOf, CacheHolds, Exact, Tokens, Checkpoints, StoreSlot, DistinctFrom, CachedState, Written, ChunkLens, Lens,
      NextPowerOf2, ForwardChunks, PadTo, InitialVector, BasesOf, SlotInBounds, FirstColumn, LastColumn, StateAt;
    var p := ProgramOf(k.l, k.b, d, k.delta, k.z, k.ssm);
    var lens := ChunkLens(size, done, k.due);
    var q := BlockOf(size, done);
    StartsExact(k, d, row, from, ch, all, size, done);
    ExactWidth(ch, all, done);
    ChunksCover(size, done, k.due);
    InitialWidth(k.l, k.b, d, k.delta, k.z, k.ssm);
    CheckpointColumns(k.l, k.b, d, row, size, done, k.due, k.ssm, p.s0, p.toks, |lens|, from, j);
    if q <= j < q + |lens| {
      SumMonotone(lens, j - q + 1, |lens|);
      PaddedResume(p.ch, ch, all, done, k.due, p.s0, p.toks, Sum(lens, j - q + 1));
    }
  }

  lemma InitialWidth(l: Launch, b: nat, d: nat, delta: seq<real>, z: seq<real>, ssm: seq<real>)
    requires l.groupSize > 0 && ForwardChunks(l, b)
    ensures |ProgramOf(l, b, d, delta, z, ssm).s0| == NextPowerOf2(l.dstate)
    ensures ProgramOf(l, b, d, delta, z, ssm).ch == ChannelOf(l, d)
  {
  }

  /** The end of block j was passed by an earlier call, or it is the end of one of this call's chunks. */
  lemma BoundaryCase(size: nat, done: nat, due: nat, j: nat)
    requires size > 0 && (j + 1) * size <= done + due
    ensures var q := BlockOf(size, done); var lens := ChunkLens(size, done, due);
            if (j + 1) * size <= done then j < q else q <= j < q + |lens| && done + Sum(lens, j - q + 1) == (j + 1) * size
  {
    hide ChunkLens;
    if (j + 1) * size > done {
      BoundaryIsChunkEnd(size, done, due, j + 1);
    } else {
      var q := BlockOf(size, done);
      assert done == q * size + done % size && (q + 1) * size == q * size + size;
      MulCancel(j + 1, q + 1, size);
    }
  }

  /** A block boundary the call has passed is in the cache, whether this call passed it or an earlier one did. */
  lemma BoundaryColumn(k: Call, d: nat, row: seq<int>, from: nat, ch: Channel, all: seq<Token>, size: nat, done: nat, j: nat, end: nat)
    requires CallOf(k, d, row, from, ch, all, size, done) && size > 0 && done + k.due <= |all| && HasLanes(ch, all, ch.width)
    requires k.l.groupSize > 0 && ForwardChunks(k.l, k.b) && from <= j < |row| && end == (j + 1) * size <= done + k.due
    requires from <= BlockOf(size, done)
    requires CacheHolds(k.l, k.ssm, d, row, from, ch, all, size, done)
    ensures CachedState(k.l, k.ssm', row[j], d) == Exact(ch, all, end)
  {
    hide ChunkLens, CallOf, CachedState, Exact, ForwardChunks, HasLanes, LastColumn, BlockOf;
    CallColumn(k, d, row, from, ch, all, size, done, j);
    BoundaryCase(size, done, k.due, j);
  }

  /** One call keeps the cache exact: every block boundary it passes, and its own end, are in the cache afterwards. */
  lemma CallKeepsCache(k: Call, d: nat, row: seq<int>, from: nat, ch: Channel, all: seq<Token>, size: nat, done: nat)
    requires CallOf(k, d, row, from, ch, all, size, done) && size > 0 && done + k.due <= |all| && HasLanes(ch, all, ch.width)
    requires k.l.groupSize > 0 && ForwardChunks(k.l, k.b) && k.due > 0
    requires CacheHolds(k.l, k.ssm, d, row, from, ch, all, size, done)
    requires LastColumn(size, done + k.due) < |row| && from <= BlockOf(size, done)
    ensures CacheHolds(k.l, k.ssm', d, row, from, ch, all, size, done + k.due)
  {
    hide ChunkLens, CallOf, CachedState, Exact, ForwardChunks, HasLanes, LastColumn;
    LastColumnIs(size, done, k.due);
    CallColumn(k, d, row, from, ch, all, size, done, LastColumn(size, done + k.due));
    ChunksCover(size, done, k.due);
    forall j | from <= j < |row| && (j + 1) * size <= done + k.due
      ensures CachedState(k.l, k.ssm', row[j], d) == Exact(ch, all, (j + 1) * size)
    {
      BoundaryColumn(k, d, row, from, ch, all, size, done, j, (j + 1) * size);
    }
  }

  // ---------------------------------------------------------------------------------------------
  // Any number of calls
  // ---------------------------------------------------------------------------------------------

  /** Tokens computed before call i, when the run starts with `start` of them. */
  function Done(calls: seq<Call>, start: nat, i: nat): nat
    requires i <= |calls|
  {
    if i == 0 then start else Done(calls, start, i - 1) + calls[i - 1].due
  }

  lemma {:induction false} DoneGrows(calls: seq<Call>, start: nat, i: nat)
    requires i <= |calls|
    ensures start <= Done(calls, start, i)
  {
    if i > 0 { DoneGrows(calls, start, i - 1); }
  }

  ghost predicate SameCache(l: Launch, l': Launch) {
    l.dstate == l'.dstate && l.ssmSlot == l'.ssmSlot && l.ssmDim == l'.ssmDim && l.ssmLane == l'.ssmLane
  }

  /**
   The calls serve one sequence in order, starting at token `start`. Between two of them other requests may write to the
   cache, but not to this row's slots from the column on that the first call loads.
   */
  ghost predicate InOrder(calls: seq<Call>, d: nat, row: seq<int>, ch: Channel, all: seq<Token>, size: nat, start: nat) {
    && size > 0 && HasLanes(ch, all, ch.width)
    && (forall i :: 0 <= i < |calls| ==>
          CallOf(calls[i], d, row, LastColumn(size, start), ch, all, size, Done(calls, start, i)))
    && (forall i :: 0 < i < |calls| ==>
          && SameCache(calls[i - 1].l, calls[i].l)
          && SameFrom(calls[i].l, calls[i - 1].ssm', calls[i].ssm, d, row, LastColumn(size, start)))
  }

  /** The columns from `from` on hold the same in both. */
  ghost predicate SameFrom(l: Launch, ssm: seq<real>, ssm': seq<real>, d: nat, row: seq<int>, from: nat) {
    forall j :: from <= j < |row| ==> CachedState(l, ssm', row[j], d) == CachedState(l, ssm, row[j], d)
  }

  /** What the first call loads, if it loads anything: the state after the tokens it skips. */
  ghost predicate StartsCached(calls: seq<Call>, d: nat, row: seq<int>, ch: Channel, all: seq<Token>, size: nat, start: nat)
    requires size > 0
  {
    calls != [] && start > 0 ==>
      && LastColumn(size, start) < |row| && start <= |all|
      && CachedState(calls[0].l, calls[0].ssm, row[LastColumn(size, start)], d) == Exact(ch, all, start)
  }

  /** A run of calls: a new sequence, or one whose first tokens are in the cache already. */
  ghost predicate Serves(calls: seq<Call>, d: nat, row: seq<int>, ch: Channel, all: seq<Token>, size: nat, start: nat) {
    InOrder(calls, d, row, ch, all, size, start) && StartsCached(calls, d, row, ch, all, size, start)
  }

  lemma SameView(l: Launch, l': Launch, ssm: seq<real>, slot: int, d: nat)
    requires SameCache(l, l')
    ensures CachedState(l, ssm, slot, d) == CachedState(l', ssm, slot, d)
  {
  }

  lemma CallFacts(k: Call, d: nat, row: seq<int>, from: nat, ch: Channel, all: seq<Token>, size: nat, done: nat)
    requires CallOf(k, d, row, from, ch, all, size, done)
    ensures size > 0 && done + k.due <= |all| && k.l.groupSize > 0 && ForwardChunks(k.l, k.b) && k.due > 0
    ensures LastColumn(size, done + k.due) < |row| && from <= BlockOf(size, done)
  {
    hide Finished, ForwardChunks, ChannelOf, DistinctFrom, Tokens;
  }

  /** Only one column at or after the one of the last token can belong to a completed block, and only at its boundary. */
  lemma LastColumnBounds(size: nat, n: nat, j: nat)
    requires size > 0 && n > 0 && LastColumn(size, n) <= j && (j + 1) * size <= n
    ensures j == LastColumn(size, n) && (j + 1) * size == n
  {
    hide Cdiv;
    var c := Cdiv(n, size);
    CdivBounds(n, size);
    PositiveFactor(c, size);
    assert (j + 2) * size == (j + 1) * size + size;
    MulCancel(c, j + 2, size);
  }

  lemma CacheAtStart(l: Launch, ssm: seq<real>, d: nat, row: seq<int>, from: nat, ch: Channel, all: seq<Token>, size: nat, n: nat)
    requires size > 0 && n <= |all| && from == LastColumn(size, n)
    requires n > 0 ==> from < |row| && CachedState(l, ssm, row[from], d) == Exact(ch, all, n)
    ensures CacheHolds(l, ssm, d, row, from, ch, all, size, n)
  {
    hide CachedState, Exact, LastColumn;
    forall j | from <= j < |row| && (j + 1) * size <= n
      ensures CachedState(l, ssm, row[j], d) == Exact(ch, all, (j + 1) * size)
    {
      if n == 0 { PositiveFactor(j + 1, size); }
      LastColumnBounds(size, n, j);
    }
  }

  lemma SameColumns(l: Launch, ssm: seq<real>, l': Launch, ssm': seq<real>, d: nat, row: seq<int>, from: nat, ch: Channel,
                    all: seq<Token>, size: nat, n: nat)
    requires size > 0 && n <= |all| && CacheHolds(l, ssm, d, row, from, ch, all, size, n) && SameCache(l, l')
    requires SameFrom(l', ssm, ssm', d, row, from) && (n > 0 ==> from <= LastColumn(size, n))
    ensures CacheHolds(l', ssm', d, row, from, ch, all, size, n)
  {
    hide CachedState, Exact, LastColumn, SameCache;
    forall j | 0 <= j < |row| ensures CachedState(l, ssm, row[j], d) == CachedState(l', ssm, row[j], d) {
      SameView(l, l', ssm, row[j], d);
    }
  }

  /** If the cache is exact before call i - 1, it is exact before call i. */
  lemma CacheExactNext(k: Call, next: Call, d: nat, row: seq<int>, from: nat, ch: Channel, all: seq<Token>, size: nat, start: nat,
                       done: nat)
    requires CallOf(k, d, row, from, ch, all, size, done) && HasLanes(ch, all, ch.width) && size > 0 && done + k.due <= |all|
    requires CacheHolds(k.l, k.ssm, d, row, from, ch, all, size, done)
    requires from == LastColumn(size, start) && start <= done && SameCache(k.l, next.l)
    requires SameFrom(next.l, k.ssm', next.ssm, d, row, from)
    ensures CacheHolds(next.l, next.ssm, d, row, from, ch, all, size, done + k.due)
  {
    hide *;
    CallFacts(k, d, row, from, ch, all, size, done);
    CallKeepsCache(k, d, row, from, ch, all, size, done);
    LastColumnMonotone(size, start, done + k.due);
    SameColumns(k.l, k.ssm', next.l, next.ssm, d, row, from, ch, all, size, done + k.due);
  }

  lemma RunFacts(calls: seq<Call>, d: nat, row: seq<int>, ch: Channel, all: seq<Token>, size: nat, start: nat, i: nat)
    requires Serves(calls, d, row, ch, all, size, start) && i < |calls| && size > 0
    ensures HasLanes(ch, all, ch.width) && Done(calls, start, i) + calls[i].due <= |all|
    ensures CallOf(calls[i], d, row, LastColumn(size, start), ch, all, size, Done(calls, start, i))
    ensures i > 0 ==> SameCache(calls[i - 1].l, calls[i].l)
    ensures i > 0 ==> SameFrom(calls[i].l, calls[i - 1].ssm', calls[i].ssm, d, row, LastColumn(size, start))
    ensures i > 0 ==> Done(calls, start, i) == Done(calls, start, i - 1) + calls[i - 1].due
    ensures i == 0 ==> StartsCached(calls, d, row, ch, all, size, start) && Done(calls, start, 0) == start
  {
    hide CallOf, HasLanes, SameFrom, SameCache, LastColumn, StartsCached;
    CallFacts(calls[i], d, row, LastColumn(size, start), ch, all, size, Done(calls, start, i));
  }

  /** Before every call of the run the cache is exact for the tokens computed so far. */
  lemma {:induction false} CacheExactBefore(calls: seq<Call>, d: nat, row: seq<int>, ch: Channel, all: seq<Token>, size: nat,
                                            start: nat, i: nat)
    requires Serves(calls, d, row, ch, all, size, start) && i < |calls| && size > 0
    ensures Done(calls, start, i) <= |all|
    ensures CacheHolds(calls[i].l, calls[i].ssm, d, row, LastColumn(size, start), ch, all, size, Done(calls, start, i))
  {
    hide *;
    var from := LastColumn(size, start);
    RunFacts(calls, d, row, ch, all, size, start, i);
    if i == 0 {
      StartIsExact(calls, d, row, ch, all, size, start);
    } else {
      RunFacts(calls, d, row, ch, all, size, start, i - 1);
      CacheExactBefore(calls, d, row, ch, all, size, start, i - 1);
      DoneGrows(calls, start, i - 1);
      CacheExactNext(calls[i - 1], calls[i], d, row, from, ch, all, size, start, Done(calls, start, i - 1));
    }
  }

  lemma StartIsExact(calls: seq<Call>, d: nat, row: seq<int>, ch: Channel, all: seq<Token>, size: nat, start: nat)
    requires size > 0 && calls != [] && start <= |all| && StartsCached(calls, d, row, ch, all, size, start)
    ensures CacheHolds(calls[0].l, calls[0].ssm, d, row, LastColumn(size, start), ch, all, size, start)
  {
    hide CachedState, Exact, LastColumn, CacheHolds;
    CacheAtStart(calls[0].l, calls[0].ssm, d, row, LastColumn(size, start), ch, all, size, start);
  }

  /** Token t of call i has the output, and the gated output, of token n of the sequence. */
  ghost predicate PutsOut(k: Call, d: nat, t: nat, ch: Channel, all: seq<Token>, n: nat) {
    && k.l.groupSize > 0 && n < |all|
    && var at := BasesOf(k.l, k.b, d);
       && 0 <= at.delta + t < |k.delta'| && k.delta'[at.delta + t] == OutputAt(ch, Zeros(ch.width), all, n)
       && (k.l.gated ==> 0 <= at.z + t < |k.z'| && k.z'[at.z + t] == GatedAt(ch, Zeros(ch.width), all, n))
  }

  /**
   Resuming from the cache equals never stopping. For every way of cutting a sequence, or what is left of it after a prefix
   found in the cache, into calls, token t of call i gets the output that the uninterrupted, unpadded scan of the whole
   sequence gives it, and after the call the cache is exact again.
   */
  lemma ResumingEqualsNeverStopping(calls: seq<Call>, d: nat, row: seq<int>, ch: Channel, all: seq<Token>, size: nat, start: nat,
                                    i: nat, t: nat)
    requires Serves(calls, d, row, ch, all, size, start) && i < |calls| && t < calls[i].due && size > 0
    ensures PutsOut(calls[i], d, t, ch, all, Done(calls, start, i) + t)
    ensures Done(calls, start, i + 1) <= |all|
    ensures CacheHolds(calls[i].l, calls[i].ssm', d, row, LastColumn(size, start), ch, all, size, Done(calls, start, i + 1))
  {
    hide CallOf, CacheHolds, HasLanes, LastColumn, OutputAt, GatedAt, BasesOf, Serves, SameFrom, SameCache, StartsCached,
      ForwardChunks, BlockOf;
    var from := LastColumn(size, start);
    var done := Done(calls, start, i);
    RunFacts(calls, d, row, ch, all, size, start, i);
    CallFacts(calls[i], d, row, from, ch, all, size, done);
    CacheExactBefore(calls, d, row, ch, all, size, start, i);
    CallOutputs(calls[i], d, row, from, ch, all, size, done, t);
    CallKeepsCache(calls[i], d, row, from, ch, all, size, done);
  }

  // ---------------------------------------------------------------------------------------------
  // A prefix found in the cache
  // ---------------------------------------------------------------------------------------------

  lemma ExactPrefix(ch: Channel, all: seq<Token>, all': seq<Token>, n: nat)
    requires n <= |all| && n <= |all'| && all[..n] == all'[..n]
    ensures Exact(ch, all, n) == Exact(ch, all', n)
  {
    hide StepOf;
    forall i | 0 <= i < n ensures all[i] == all'[i] {
      assert all[..n][i] == all'[..n][i];
    }
    FoldPrefix(StepOf(ch), Zeros(ch.width), all, all', n);
  }

  /**
   Another sequence has the first n == (j + 1) * size tokens in common with this one, and its row names in column j the
   slot in which a call of this run left its checkpoint. Then its own run starts from the right state.
   */
  lemma PrefixHit(calls: seq<Call>, d: nat, row: seq<int>, ch: Channel, all: seq<Token>, size: nat, start: nat, i: nat, j: nat,
                  calls': seq<Call>, row': seq<int>, all': seq<Token>, n: nat)
    requires Serves(calls, d, row, ch, all, size, start) && i < |calls| && size > 0
    requires LastColumn(size, start) <= j < |row| && n == (j + 1) * size <= Done(calls, start, i + 1)
    requires InOrder(calls', d, row', ch, all', size, n) && calls' != []
    requires n <= |all| && n <= |all'| && all[..n] == all'[..n]
    requires SameCache(calls[i].l, calls'[0].l) && j < |row'|
    requires CachedState(calls'[0].l, calls'[0].ssm, row'[j], d) == CachedState(calls'[0].l, calls[i].ssm', row[j], d)
    ensures Serves(calls', d, row', ch, all', size, n)
  {
    hide CallOf, HasLanes, Exact, CachedState, SameCache, LastColumn, InOrder, Serves;
    RunFacts(calls, d, row, ch, all, size, start, i);
    CallFacts(calls[i], d, row, LastColumn(size, start), ch, all, size, Done(calls, start, i));
    ResumingEqualsNeverStopping(calls, d, row, ch, all, size, start, i, 0);
    SameView(calls[i].l, calls'[0].l, calls[i].ssm', row[j], d);
    ExactPrefix(ch, all, all', n);
    assert (j + 1) * size == j * size + size;
    LastColumnFrom(size, n, j);
    ServesFrom(calls', d, row', ch, all', size, n);
  }

  lemma ServesFrom(calls: seq<Call>, d: nat, row: seq<int>, ch: Channel, all: seq<Token>, size: nat, start: nat)
    requires size > 0 && InOrder(calls, d, row, ch, all, size, start) && StartsCached(calls, d, row, ch, all, size, start)
    ensures Serves(calls, d, row, ch, all, size, start)
  {
    hide InOrder, StartsCached;
  }

  /** So a request that resumes from another request's checkpoint gets the outputs of its own uninterrupted scan. */
  lemma SharedPrefixEqualsOwnScan(calls: seq<Call>, d: nat, row: seq<int>, ch: Channel, all: seq<Token>, size: nat, start: nat,
                                  i: nat, j: nat, calls': seq<Call>, row': seq<int>, all': seq<Token>, n: nat, i': nat, t: nat)
    requires Serves(calls, d, row, ch, all, size, start) && i < |calls| && size > 0
    requires LastColumn(size, start) <= j < |row| && n == (j + 1) * size <= Done(calls, start, i + 1)
    requires InOrder(calls', d, row', ch, all', size, n) && i' < |calls'| && t < calls'[i'].due
    requires n <= |all| && n <= |all'| && all[..n] == all'[..n]
    requires SameCache(calls[i].l, calls'[0].l) && j < |row'|
    requires CachedState(calls'[0].l, calls'[0].ssm, row'[j], d) == CachedState(calls'[0].l, calls[i].ssm', row[j], d)
    ensures PutsOut(calls'[i'], d, t, ch, all', Done(calls', n, i') + t)
  {
    hide *;
    PrefixHit(calls, d, row, ch, all, size, start, i, j, calls', row', all', n);
    ResumingEqualsNeverStopping(calls', d, row', ch, all', size, n, i', t);
  }
}
