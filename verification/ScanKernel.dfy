/**
 One program (batch, dim) of the selective-scan kernel, working in place.

 `out` is the memory of `delta` and `out_z` is the memory of `z`, so the kernel overwrites its own inputs as it
 goes. Tensors are flat memories addressed through strides. The read-only ones are sequences; `delta`, `z` and
 `ssm_states` are arrays. A load outside a read-only tensor reads as zero: a launch that respects its tensors'
 extents never performs one.
 */
module ScanKernel {
  import opened Basics
  import opened ScanRecurrence
  import opened ChunkMetadata

  // ---------------------------------------------------------------------------------------------
  // The launch
  // ---------------------------------------------------------------------------------------------

  /** Strides of a tensor over (batch, dim, token) or, for variable-length batches, (dim, token). */
  datatype Strides = Strides(batch: int, dim: int)

  /** Where a program finds its states. */
  datatype Slots =
    | Checkpointed(table: seq<int>, rowStride: int, loadColumn: seq<int>, firstBlock: seq<nat>, lastBlock: seq<nat>,
                   cu: seq<nat>, lastChunk: seq<int>, blockSize: nat)
    | Indexed(table: seq<int>)
    | PerBatch

  datatype Launch = Launch(
    fn: Functions, softplus: bool, gated: bool,
    u: seq<real>, a: seq<real>, b: seq<real>, c: seq<real>, skip: Option<seq<real>>, bias: Option<seq<real>>,
    dstate: nat, groupSize: nat, seqlen: nat, queryStart: Option<seq<nat>>, hasInitial: Option<seq<bool>>,
    uStrides: Strides, deltaStrides: Strides, zStrides: Strides, aDim: int, aLane: int,
    bStrides: Strides, bLane: int, cStrides: Strides, cLane: int,
    ssmSlot: int, ssmDim: int, ssmLane: int, nullSlot: int, slots: Slots)

  function Load(mem: seq<real>, i: int): real { if 0 <= i < |mem| then mem[i] else 0.0 }

  function Entry(mem: seq<int>, i: int): int { if 0 <= i < |mem| then mem[i] else 0 }

  /** Base address of row `row` of a tensor for batch b. */
  function Base(l: Launch, st: Strides, b: nat, row: nat): int {
    if l.queryStart.Some? then row * st.dim + Entry(l.queryStart.value, b) * st.batch
    else b * st.batch + row * st.dim
  }

  function SsmAddr(l: Launch, slot: int, d: nat, lane: nat): int {
    slot * l.ssmSlot + d * l.ssmDim + lane * l.ssmLane
  }

  function LoadSlot(l: Launch, b: nat): int {
    match l.slots
    case Checkpointed(table, stride, column, _, _, _, _, _) => Entry(table, b * stride + Entry(column, b))
    case Indexed(table) => Entry(table, b)
    case PerBatch => b
  }

  /** A null slot marks a padding entry of the batch; the program returns at once. */
  predicate Skipped(l: Launch, b: nat) {
    !l.slots.PerBatch? && LoadSlot(l, b) == l.nullSlot
  }

  // ---------------------------------------------------------------------------------------------
  // The chunks of a program and where their states go
  // ---------------------------------------------------------------------------------------------

  function FirstChunkOf(l: Launch, b: nat): int
    requires l.slots.Checkpointed?
  {
    if b == 0 then 0 else Entry(l.slots.lastChunk, b - 1) + 1
  }

  function ChunkCount(l: Launch, b: nat): nat {
    if l.slots.Checkpointed? then
      var n := Entry(l.slots.lastChunk, b) - FirstChunkOf(l, b) + 1;
      if n >= 0 then n else 0
    else 1
  }

  function ActualSeqlen(l: Launch, b: nat): int {
    if l.queryStart.Some? then Entry(l.queryStart.value, b + 1) - Entry(l.queryStart.value, b) else l.seqlen
  }

  function ChunkTokens(l: Launch, b: nat, c: nat): int {
    if l.slots.Checkpointed? then
      Entry(l.slots.cu, FirstChunkOf(l, b) + c + 1) - Entry(l.slots.cu, FirstChunkOf(l, b) + c)
    else ActualSeqlen(l, b)
  }

  /** Chunk boundaries never run backwards. */
  predicate ForwardChunks(l: Launch, b: nat) {
    && (l.slots.Checkpointed? ==> l.slots.blockSize > 0)
    && forall c :: 0 <= c < ChunkCount(l, b) ==> ChunkTokens(l, b, c) >= 0
  }

  function Lens(l: Launch, b: nat): seq<nat>
    requires ForwardChunks(l, b)
  {
    seq(ChunkCount(l, b), c requires 0 <= c < ChunkCount(l, b) => ChunkTokens(l, b, c))
  }

  function TokenCount(l: Launch, b: nat): nat
    requires ForwardChunks(l, b)
  {
    Sum(Lens(l, b), |Lens(l, b)|)
  }

  /** The position the kernel believes its first chunk starts at, counted in the sequence. */
  function StartPosition(size: nat, firstBlock: nat, lens: seq<nat>): nat {
    firstBlock * size + if |lens| > 1 && lens[0] < size then size - lens[0] else 0
  }

  /** The block-table column of the state left by chunk c. */
  function Column(size: nat, firstBlock: nat, lastBlock: nat, lens: seq<nat>, c: nat): int
    requires size > 0 && c < |lens|
  {
    if c == |lens| - 1 then lastBlock
    else (StartPosition(size, firstBlock, lens) + Sum(lens, c) + lens[c] - 1) / size
  }

  function StoreSlot(l: Launch, b: nat, c: nat): int
    requires ForwardChunks(l, b) && c < |Lens(l, b)|
  {
    match l.slots
    case Checkpointed(table, stride, _, first, last, _, _, size) =>
      Entry(table, b * stride + Column(size, EntryNat(first, b), EntryNat(last, b), Lens(l, b), c))
    case _ => LoadSlot(l, b)
  }

  function EntryNat(mem: seq<nat>, i: int): nat { if 0 <= i < |mem| then mem[i] else 0 }

  /**
   Chunk layouts with at most one block in the first chunk and exactly one in each middle chunk put the state of
   chunk c in column firstBlock + c, and that of the last chunk in the lastBlock column.
   */
  lemma ColumnOfChunk(size: nat, firstBlock: nat, lastBlock: nat, lens: seq<nat>, c: nat)
    requires size > 0 && c < |lens| && lens[0] <= size
    requires forall i :: 0 < i < |lens| - 1 ==> lens[i] == size
    ensures Column(size, firstBlock, lastBlock, lens, c) == if c + 1 == |lens| then lastBlock else firstBlock + c
  {
    if c + 1 < |lens| {
      SumOfLayout(size, lens, c + 1);
      assert (firstBlock + c + 1) * size == firstBlock * size + c * size + size;
      assert (firstBlock + c) * size == firstBlock * size + c * size;
      QuotientIs(StartPosition(size, firstBlock, lens) + Sum(lens, c + 1) - 1, size, firstBlock + c);
    }
  }

  lemma {:induction false} SumOfLayout(size: nat, lens: seq<nat>, n: nat)
    requires 0 < n < |lens| && forall i :: 0 < i < |lens| - 1 ==> lens[i] == size
    ensures Sum(lens, n) == lens[0] + (n - 1) * size
  {
    if n > 1 {
      SumOfLayout(size, lens, n - 1);
      assert (n - 1) * size == (n - 2) * size + size;
    }
  }

  // ---------------------------------------------------------------------------------------------
  // What a program reads
  // ---------------------------------------------------------------------------------------------

  function ChannelOf(l: Launch, d: nat): Channel {
    Channel(l.fn, NextPowerOf2(l.dstate), seq(l.dstate, i => Load(l.a, d * l.aDim + i * l.aLane)),
            if l.skip.Some? then Some(Load(l.skip.value, d)) else None,
            if l.bias.Some? then Some(Load(l.bias.value, d)) else None,
            l.softplus)
  }

  function LoadLanes(l: Launch, mem: seq<real>, base: int, stride: int): Vec {
    seq(l.dstate, i requires 0 <= i => Load(mem, base + i * stride))
  }

  /** Base addresses of a program in the tensors it walks along. */
  datatype Bases = Bases(u: int, delta: int, z: int, b: int, c: int)

  function BasesOf(l: Launch, b: nat, d: nat): Bases
    requires l.groupSize > 0
  {
    var group := d / l.groupSize;
    Bases(Base(l, l.uStrides, b, d), Base(l, l.deltaStrides, b, d), Base(l, l.zStrides, b, d),
          Base(l, l.bStrides, b, group), Base(l, l.cStrides, b, group))
  }

  /** Everything the program loads at position t, given the values found in delta and z. */
  function TokenOf(l: Launch, at: Bases, t: nat, delta: real, z: real): Token {
    Token(Load(l.u, at.u + t), delta, z, LoadLanes(l, l.b, at.b + t, l.bLane), LoadLanes(l, l.c, at.c + t, l.cLane))
  }

  /** The tokens of the program, read from an untouched copy of delta and z. */
  function Tokens(l: Launch, at: Bases, delta: seq<real>, z: seq<real>, n: nat): seq<Token> {
    seq(n, t requires 0 <= t =>
      TokenOf(l, at, t, Load(delta, at.delta + t), if l.gated then Load(z, at.z + t) else 0.0))
  }

  /** State of (slot, d) in the cache: dstate lanes. */
  function CachedState(l: Launch, ssm: seq<real>, slot: int, d: nat): Vec {
    seq(l.dstate, i requires 0 <= i => Load(ssm, SsmAddr(l, slot, d, i)))
  }

  function PadTo(v: Vec, width: nat): Vec {
    seq(width, i requires 0 <= i => Lane(v, i))
  }

  function InitialVector(l: Launch, b: nat, d: nat, ssm: seq<real>): Vec {
    if l.hasInitial.Some? && 0 <= b < |l.hasInitial.value| && l.hasInitial.value[b]
    then CachedState(l, ssm, LoadSlot(l, b), d)
    else seq(l.dstate, _ => 0.0)
  }

  // ---------------------------------------------------------------------------------------------
  // What a program writes
  // ---------------------------------------------------------------------------------------------

  /** orig with the cells from base on replaced by vals. */
  function Patch(orig: seq<real>, base: nat, vals: seq<real>): seq<real>
    requires base + |vals| <= |orig|
  {
    orig[..base] + vals + orig[base + |vals|..]
  }

  function Outs(ch: Channel, s0: Vec, toks: seq<Token>, n: nat): (r: seq<real>)
    requires n <= |toks|
  {
    seq(n, t requires 0 <= t < n => OutputAt(ch, s0, toks, t))
  }

  function GatedOuts(ch: Channel, s0: Vec, toks: seq<Token>, n: nat): (r: seq<real>)
    requires n <= |toks|
  {
    seq(n, t requires 0 <= t < n => GatedAt(ch, s0, toks, t))
  }

  /** The masked store of the first n lanes of v to the state of (slot, d). */
  function StoreLanes(l: Launch, ssm: seq<real>, slot: int, d: nat, v: Vec, n: nat): (r: seq<real>)
    requires n <= |v|
    requires forall i :: 0 <= i < n ==> 0 <= SsmAddr(l, slot, d, i) < |ssm|
    ensures |r| == |ssm|
  {
    if n == 0 then ssm else StoreLanes(l, ssm, slot, d, v, n - 1)[SsmAddr(l, slot, d, n - 1) := v[n - 1]]
  }

  predicate SlotInBounds(l: Launch, slot: int, d: nat, size: nat) {
    forall i :: 0 <= i < l.dstate ==> 0 <= SsmAddr(l, slot, d, i) < size
  }

  /** Every address the program touches in the three mutable tensors exists. */
  predicate InBounds(l: Launch, b: nat, d: nat, deltaSize: nat, zSize: nat, ssmSize: nat)
    requires ForwardChunks(l, b)
  {
    && l.groupSize > 0
    && 0 <= BasesOf(l, b, d).delta && BasesOf(l, b, d).delta + TokenCount(l, b) <= deltaSize
    && (l.gated ==> 0 <= BasesOf(l, b, d).z && BasesOf(l, b, d).z + TokenCount(l, b) <= zSize)
    && forall c :: 0 <= c < |Lens(l, b)| ==> SlotInBounds(l, StoreSlot(l, b, c), d, ssmSize)
  }

  /** The cache after the states of the first n chunks have been stored. */
  function Checkpoints(l: Launch, b: nat, d: nat, ssm: seq<real>, s0: Vec, toks: seq<Token>, n: nat): (r: seq<real>)
    requires ForwardChunks(l, b) && n <= |Lens(l, b)| && TokenCount(l, b) <= |toks| && |s0| == NextPowerOf2(l.dstate)
    requires forall c :: 0 <= c < |Lens(l, b)| ==> SlotInBounds(l, StoreSlot(l, b, c), d, |ssm|)
    ensures |r| == |ssm|
  {
    if n == 0 then ssm
    else
      SumMonotone(Lens(l, b), n, |Lens(l, b)|);
      StateWidth(ChannelOf(l, d), s0, toks, Sum(Lens(l, b), n));
      StoreLanes(l, Checkpoints(l, b, d, ssm, s0, toks, n - 1), StoreSlot(l, b, n - 1), d,
                 StateAt(ChannelOf(l, d), s0, toks, Sum(Lens(l, b), n)), l.dstate)
  }

  lemma StateWidth(ch: Channel, s0: Vec, toks: seq<Token>, n: nat)
    requires n <= |toks| && |s0| == ch.width
    ensures |StateAt(ch, s0, toks, n)| == ch.width
  {
  }

  // ---------------------------------------------------------------------------------------------
  // Progress of a program
  // ---------------------------------------------------------------------------------------------

  /** What one program is to compute, fixed by the launch and an untouched copy of the mutable tensors. */
  datatype Program = Program(ch: Channel, gated: bool, at: Bases, s0: Vec, toks: seq<Token>)

  function ProgramOf(l: Launch, b: nat, d: nat, delta: seq<real>, z: seq<real>, ssm: seq<real>): Program
    requires l.groupSize > 0 && ForwardChunks(l, b)
  {
    Program(ChannelOf(l, d), l.gated, BasesOf(l, b, d),
            PadTo(InitialVector(l, b, d, ssm), NextPowerOf2(l.dstate)),
            Tokens(l, BasesOf(l, b, d), delta, z, TokenCount(l, b)))
  }

  predicate Fits(p: Program, deltaSize: nat, zSize: nat) {
    && 0 <= p.at.delta && p.at.delta + |p.toks| <= deltaSize
    && (p.gated ==> 0 <= p.at.z && p.at.z + |p.toks| <= zSize)
  }

  /** delta and z after n tokens, when they were delta0 and z0 at the start. */
  predicate Written(p: Program, delta0: seq<real>, z0: seq<real>, n: nat, delta: seq<real>, z: seq<real>)
    requires Fits(p, |delta0|, |z0|) && n <= |p.toks|
  {
    && delta == Patch(delta0, p.at.delta, Outs(p.ch, p.s0, p.toks, n))
    && z == if p.gated then Patch(z0, p.at.z, GatedOuts(p.ch, p.s0, p.toks, n)) else z0
  }

  lemma PatchNext(orig: seq<real>, base: nat, vals: seq<real>, v: real)
    requires base + |vals| < |orig|
    ensures Patch(orig, base, vals)[base + |vals|] == orig[base + |vals|]
    ensures Patch(orig, base, vals)[base + |vals| := v] == Patch(orig, base, vals + [v])
  {
  }

  lemma OutsNext(ch: Channel, s0: Vec, toks: seq<Token>, t: nat)
    requires t < |toks|
    ensures Outs(ch, s0, toks, t + 1) == Outs(ch, s0, toks, t) + [OutputAt(ch, s0, toks, t)]
    ensures GatedOuts(ch, s0, toks, t + 1) == GatedOuts(ch, s0, toks, t) + [GatedAt(ch, s0, toks, t)]
  {
    hide OutputAt, GatedAt;
  }

  /** Position n still holds its input when token n is reached; storing its output is one more token written. */
  lemma WrittenNext(p: Program, delta0: seq<real>, z0: seq<real>, n: nat, delta: seq<real>, z: seq<real>)
    requires Fits(p, |delta0|, |z0|) && n < |p.toks| && Written(p, delta0, z0, n, delta, z)
    ensures |delta| == |delta0| && |z| == |z0|
    ensures delta[p.at.delta + n] == delta0[p.at.delta + n]
    ensures p.gated ==> z[p.at.z + n] == z0[p.at.z + n]
    ensures Written(p, delta0, z0, n + 1, delta[p.at.delta + n := OutputAt(p.ch, p.s0, p.toks, n)],
                    if p.gated then z[p.at.z + n := GatedAt(p.ch, p.s0, p.toks, n)] else z)
  {
    OutsNext(p.ch, p.s0, p.toks, n);
    PatchNext(delta0, p.at.delta, Outs(p.ch, p.s0, p.toks, n), OutputAt(p.ch, p.s0, p.toks, n));
    if p.gated {
      PatchNext(z0, p.at.z, GatedOuts(p.ch, p.s0, p.toks, n), GatedAt(p.ch, p.s0, p.toks, n));
    }
  }

  // ---------------------------------------------------------------------------------------------
  // The kernel
  // ---------------------------------------------------------------------------------------------

  /** One position: load, advance the state, store the output over delta and the gated output over z. */
  method ScanToken(l: Launch, ch: Channel, at: Bases, t: nat, state: Vec, delta: array<real>, z: array<real>, ghost tok: Token)
    returns (next: Vec)
    requires delta != z
    requires 0 <= at.delta + t < delta.Length
    requires l.gated ==> 0 <= at.z + t < z.Length
    requires tok == TokenOf(l, at, t, delta[at.delta + t], if l.gated then z[at.z + t] else 0.0)
    modifies delta, z
    ensures next == Advance(ch, state, tok)
    ensures delta[..] == old(delta[..])[at.delta + t := Output(ch, next, tok)]
    ensures z[..] == if l.gated then old(z[..])[at.z + t := Gate(ch.fn, Output(ch, next, tok), tok.z)] else old(z[..])
  {
    var loaded := TokenOf(l, at, t, delta[at.delta + t], if l.gated then z[at.z + t] else 0.0);
    next := Advance(ch, state, loaded);
    var out := Output(ch, next, loaded);
    delta[at.delta + t] := out;
    if l.gated {
      z[at.z + t] := Gate(ch.fn, out, z[at.z + t]);
    }
  }

  /** The tokens of p are the ones found at its addresses in delta0 and z0. */
  ghost predicate ReadsFrom(l: Launch, p: Program, delta0: seq<real>, z0: seq<real>)
    requires Fits(p, |delta0|, |z0|)
  {
    && p.gated == l.gated
    && forall t :: 0 <= t < |p.toks| ==>
         p.toks[t] == TokenOf(l, p.at, t, delta0[p.at.delta + t], if p.gated then z0[p.at.z + t] else 0.0)
  }

  /** The tokens of one chunk, starting from position `from`. */
  method ScanChunk(l: Launch, ch: Channel, at: Bases, from: nat, count: nat, state: Vec,
                   delta: array<real>, z: array<real>, ghost p: Program, ghost delta0: seq<real>, ghost z0: seq<real>)
    returns (next: Vec)
    requires delta != z && from + count <= |p.toks| && p.ch == ch && p.at == at
    requires |delta0| == delta.Length && |z0| == z.Length && Fits(p, |delta0|, |z0|) && ReadsFrom(l, p, delta0, z0)
    requires state == StateAt(ch, p.s0, p.toks, from) && Written(p, delta0, z0, from, delta[..], z[..])
    modifies delta, z
    ensures next == StateAt(ch, p.s0, p.toks, from + count) && Written(p, delta0, z0, from + count, delta[..], z[..])
  {
    hide Outs, GatedOuts, Patch, Advance, Output, Gate, TokenOf;
    next := state;
    for i := 0 to count
      invariant next == StateAt(ch, p.s0, p.toks, from + i) && Written(p, delta0, z0, from + i, delta[..], z[..])
    {
      ghost var t := from + i;
      WrittenNext(p, delta0, z0, t, delta[..], z[..]);
      assert delta[at.delta + t] == delta[..][at.delta + t] == delta0[at.delta + t];
      assert l.gated ==> z[at.z + t] == z[..][at.z + t] == z0[at.z + t];
      next := ScanToken(l, ch, at, from + i, next, delta, z, p.toks[t]);
    }
  }

  /** The masked store of a state into the cache. */
  method StoreState(l: Launch, ssm: array<real>, slot: int, d: nat, state: Vec)
    requires l.dstate <= |state| && SlotInBounds(l, slot, d, ssm.Length)
    modifies ssm
    ensures ssm[..] == StoreLanes(l, old(ssm[..]), slot, d, state, l.dstate)
  {
    for i := 0 to l.dstate
      invariant ssm[..] == StoreLanes(l, old(ssm[..]), slot, d, state, i)
    {
      ssm[SsmAddr(l, slot, d, i)] := state[i];
    }
  }

  /** The initial state: zeros, or the cached state of the slot the program loads from. */
  method LoadInitialState(l: Launch, b: nat, d: nat, slot: int, ssm: array<real>) returns (state: Vec)
    requires slot == LoadSlot(l, b)
    ensures state == PadTo(InitialVector(l, b, d, ssm[..]), NextPowerOf2(l.dstate))
  {
    var width := NextPowerOf2(l.dstate);
    state := seq(width, _ => 0.0);
    if l.hasInitial.Some? && b < |l.hasInitial.value| && l.hasInitial.value[b] {
      var mem := ssm[..];
      state := seq(width, i requires 0 <= i => if i < l.dstate then Load(mem, SsmAddr(l, slot, d, i)) else 0.0);
      assert state == PadTo(InitialVector(l, b, d, mem), width);
    }
  }

  lemma FirstChunkStart(l: Launch, b: nat, d: nat, ssm: seq<real>, s0: Vec, toks: seq<Token>)
    requires ForwardChunks(l, b) && TokenCount(l, b) <= |toks| && |s0| == NextPowerOf2(l.dstate)
    requires forall c :: 0 <= c < |Lens(l, b)| ==> SlotInBounds(l, StoreSlot(l, b, c), d, |ssm|)
    ensures Sum(Lens(l, b), 0) == 0
    ensures StateAt(ChannelOf(l, d), s0, toks, 0) == s0 && Checkpoints(l, b, d, ssm, s0, toks, 0) == ssm
    ensures Sum(Lens(l, b), |Lens(l, b)|) == TokenCount(l, b)
  {
  }

  lemma NextChunk(l: Launch, b: nat, d: nat, ssm: seq<real>, s0: Vec, toks: seq<Token>, c: nat)
    requires ForwardChunks(l, b) && c < |Lens(l, b)| && TokenCount(l, b) <= |toks| && |s0| == NextPowerOf2(l.dstate)
    requires forall c :: 0 <= c < |Lens(l, b)| ==> SlotInBounds(l, StoreSlot(l, b, c), d, |ssm|)
    ensures Lens(l, b)[c] == ChunkTokens(l, b, c)
    ensures Sum(Lens(l, b), c + 1) == Sum(Lens(l, b), c) + Lens(l, b)[c] <= TokenCount(l, b)
    ensures var s := StateAt(ChannelOf(l, d), s0, toks, Sum(Lens(l, b), c + 1));
            && l.dstate <= |s| == NextPowerOf2(l.dstate)
            && SlotInBounds(l, StoreSlot(l, b, c), d, |ssm|)
            && Checkpoints(l, b, d, ssm, s0, toks, c + 1)
               == StoreLanes(l, Checkpoints(l, b, d, ssm, s0, toks, c), StoreSlot(l, b, c), d, s, l.dstate)
  {
    hide ChannelOf, StoreLanes, StoreSlot, Column;
    SumMonotone(Lens(l, b), c + 1, |Lens(l, b)|);
    assert ChannelOf(l, d).width == NextPowerOf2(l.dstate) by { ChannelWidth(l, d); }
    StateWidth(ChannelOf(l, d), s0, toks, Sum(Lens(l, b), c + 1));
  }

  lemma ChannelWidth(l: Launch, d: nat)
    ensures ChannelOf(l, d).width == NextPowerOf2(l.dstate)
  {
  }

  /** The slot for the state of chunk c, found through the block that the chunk has just completed. */
  method SlotFor(l: Launch, b: nat, c: nat, chunks: nat, position: nat, tokens: nat) returns (slot: int)
    requires ForwardChunks(l, b) && l.slots.Checkpointed? && c < chunks == |Lens(l, b)| && tokens == Lens(l, b)[c]
    requires position == StartPosition(l.slots.blockSize, EntryNat(l.slots.firstBlock, b), Lens(l, b)) + Sum(Lens(l, b), c)
    ensures slot == StoreSlot(l, b, c)
  {
    var column;
    if c == chunks - 1 {
      column := EntryNat(l.slots.lastBlock, b);
    } else {
      column := (position + tokens - 1) / l.slots.blockSize;
    }
    slot := Entry(l.slots.table, b * l.slots.rowStride + column);
  }

  /** The chunk loop: scan a chunk, then leave its state in the slot of its column. */
  method ScanChunks(l: Launch, b: nat, d: nat, ch: Channel, at: Bases, firstChunk: int, chunks: nat, start: nat, initial: Vec,
                    delta: array<real>, z: array<real>, ssm: array<real>,
                    ghost p: Program, ghost delta0: seq<real>, ghost z0: seq<real>)
    requires delta != z && delta != ssm && z != ssm && ForwardChunks(l, b) && l.slots.Checkpointed?
    requires p.ch == ch == ChannelOf(l, d) && p.at == at && p.s0 == initial && |p.toks| == TokenCount(l, b)
    requires |initial| == NextPowerOf2(l.dstate) && firstChunk == FirstChunkOf(l, b) && chunks == |Lens(l, b)|
    requires start == StartPosition(l.slots.blockSize, EntryNat(l.slots.firstBlock, b), Lens(l, b))
    requires |delta0| == delta.Length && |z0| == z.Length && Fits(p, |delta0|, |z0|) && ReadsFrom(l, p, delta0, z0)
    requires forall c :: 0 <= c < |Lens(l, b)| ==> SlotInBounds(l, StoreSlot(l, b, c), d, ssm.Length)
    requires Written(p, delta0, z0, 0, delta[..], z[..])
    modifies delta, z, ssm
    ensures Written(p, delta0, z0, |p.toks|, delta[..], z[..])
    ensures ssm[..] == Checkpoints(l, b, d, old(ssm[..]), initial, p.toks, chunks)
  {
    hide *;
    var state := initial;
    var position := start;
    var processed := 0;
    ghost var lens, ssm0 := Lens(l, b), ssm[..];
    FirstChunkStart(l, b, d, ssm0, initial, p.toks);
    for c := 0 to chunks
      invariant processed == Sum(lens, c) <= |p.toks| && position == start + processed
      invariant state == StateAt(ch, initial, p.toks, processed) && Written(p, delta0, z0, processed, delta[..], z[..])
      invariant ssm[..] == Checkpoints(l, b, d, ssm0, initial, p.toks, c)
    {
      NextChunk(l, b, d, ssm0, initial, p.toks, c);
      var tokens := ChunkTokens(l, b, c);
      state := ScanChunk(l, ch, at, processed, tokens, state, delta, z, p, delta0, z0);
      processed := processed + tokens;
      var slot := SlotFor(l, b, c, chunks, position, tokens);
      StoreState(l, ssm, slot, d, state);
      position := position + tokens;
    }
  }

  /** The position of the first chunk: its block, advanced past the part of the block earlier calls have filled. */
  method FirstPosition(l: Launch, b: nat, firstChunk: int, chunks: nat) returns (position: nat)
    requires ForwardChunks(l, b) && l.slots.Checkpointed? && firstChunk == FirstChunkOf(l, b) && chunks == |Lens(l, b)|
    ensures position == StartPosition(l.slots.blockSize, EntryNat(l.slots.firstBlock, b), Lens(l, b))
  {
    var firstTokens := Entry(l.slots.cu, firstChunk + 1) - Entry(l.slots.cu, firstChunk);
    var startOffset := 0;
    if chunks > 1 && firstTokens < l.slots.blockSize {
      startOffset := l.slots.blockSize - firstTokens;
    }
    position := EntryNat(l.slots.firstBlock, b) * l.slots.blockSize + startOffset;
  }

  /** What ScanProgram computes from an untouched copy of the mutable tensors. */
  ghost predicate Finished(l: Launch, b: nat, d: nat, delta0: seq<real>, z0: seq<real>, ssm0: seq<real>,
                           delta: seq<real>, z: seq<real>, ssm: seq<real>)
    requires ForwardChunks(l, b) && InBounds(l, b, d, |delta0|, |z0|, |ssm0|)
  {
    var p := ProgramOf(l, b, d, delta0, z0, ssm0);
    && Written(p, delta0, z0, |p.toks|, delta, z)
    && ssm == Checkpoints(l, b, d, ssm0, p.s0, p.toks, |Lens(l, b)|)
  }

  lemma ProgramReady(l: Launch, b: nat, d: nat, delta0: seq<real>, z0: seq<real>, ssm0: seq<real>)
    requires ForwardChunks(l, b) && InBounds(l, b, d, |delta0|, |z0|, |ssm0|)
    ensures var p := ProgramOf(l, b, d, delta0, z0, ssm0);
            && |p.toks| == TokenCount(l, b) && |p.s0| == NextPowerOf2(l.dstate) && p.ch == ChannelOf(l, d)
            && p.at == BasesOf(l, b, d)
            && Fits(p, |delta0|, |z0|) && ReadsFrom(l, p, delta0, z0) && Written(p, delta0, z0, 0, delta0, z0)
  {
    hide ChannelOf, TokenCount, ForwardChunks, Base, SlotInBounds, StoreSlot, OutputAt, GatedAt, InitialVector, NextPowerOf2,
      TokenOf;
    var p := ProgramOf(l, b, d, delta0, z0, ssm0);
    assert Patch(delta0, p.at.delta, Outs(p.ch, p.s0, p.toks, 0)) == delta0;
    assert l.gated ==> Patch(z0, p.at.z, GatedOuts(p.ch, p.s0, p.toks, 0)) == z0;
    forall t | 0 <= t < |p.toks|
      ensures p.toks[t] == TokenOf(l, p.at, t, delta0[p.at.delta + t], if l.gated then z0[p.at.z + t] else 0.0)
    {
      assert Load(delta0, p.at.delta + t) == delta0[p.at.delta + t];
      assert l.gated ==> Load(z0, p.at.z + t) == z0[p.at.z + t];
    }
  }

  /**
   The whole program. On return the outputs, the gated outputs and the checkpoints are those computed from an
   untouched copy of the inputs, although every output was written over the input it came from.
   */
  method ScanProgram(l: Launch, b: nat, d: nat, delta: array<real>, z: array<real>, ssm: array<real>)
    requires delta != z && delta != ssm && z != ssm && ForwardChunks(l, b)
    requires !Skipped(l, b) ==> InBounds(l, b, d, delta.Length, z.Length, ssm.Length)
    modifies delta, z, ssm
    ensures Skipped(l, b) ==> delta[..] == old(delta[..]) && z[..] == old(z[..]) && ssm[..] == old(ssm[..])
    ensures !Skipped(l, b) ==>
      Finished(l, b, d, old(delta[..]), old(z[..]), old(ssm[..]), delta[..], z[..], ssm[..])
  {
    hide StartPosition, Checkpoints, ChannelOf, Written, ReadsFrom, Fits, LoadSlot, StoreLanes, Tokens, Base, BasesOf;
    var loadSlot := LoadSlot(l, b);
    if !l.slots.PerBatch? && loadSlot == l.nullSlot {
      return;
    }
    ghost var delta0, z0, ssm0 := delta[..], z[..], ssm[..];
    ghost var p := ProgramOf(l, b, d, delta0, z0, ssm0);
    ProgramReady(l, b, d, delta0, z0, ssm0);
    var ch := ChannelOf(l, d);
    var state := LoadInitialState(l, b, d, loadSlot, ssm);
    var at := BasesOf(l, b, d);
    if l.slots.Checkpointed? {
      var firstChunk := if b == 0 then 0 else Entry(l.slots.lastChunk, b - 1) + 1;
      var chunks := ChunkCount(l, b);
      var position := FirstPosition(l, b, firstChunk, chunks);
      ScanChunks(l, b, d, ch, at, firstChunk, chunks, position, state, delta, z, ssm, p, delta0, z0);
    } else {
      FirstChunkStart(l, b, d, ssm0, state, p.toks);
      NextChunk(l, b, d, ssm0, state, p.toks, 0);
      state := ScanChunk(l, ch, at, 0, ActualSeqlen(l, b), state, delta, z, p, delta0, z0);
      assert loadSlot == StoreSlot(l, b, 0);
      StoreState(l, ssm, loadSlot, d, state);
    }
  }
}
