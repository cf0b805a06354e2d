/**
 The launcher, and what the kernel computes in terms of tensor elements. A tensor is a memory with a shape and strides; an
 element is named by its index. The kernel knows only addresses. Here every address it uses is shown to be that of the
 element it should be, and its outputs are the scan of these elements.
 */
module ScanTensors {
  import opened Basics
  import opened ScanRecurrence
  import opened ScanClosedForm
  import opened ChunkMetadata
  import opened ScanKernel
  import opened PrefixCache
  import opened ScanResume

  datatype View = View(shape: seq<nat>, strides: seq<int>)

  function Offset(strides: seq<int>, index: seq<nat>): int
    requires |strides| == |index|
  {
    if strides == [] then 0 else index[0] * strides[0] + Offset(strides[1..], index[1..])
  }

  function Element(v: View, mem: seq<real>, index: seq<nat>): real
    requires |v.strides| == |index|
  {
    Load(mem, Offset(v.strides, index))
  }

  /** The arguments of the call. Tensors that the kernel writes have their memory apart. */
  datatype Args = Args(
    fn: Functions, softplus: bool, u: View, uMem: seq<real>, delta: View, a: View, aMem: seq<real>,
    b: View, bMem: seq<real>, c: View, cMem: seq<real>, skip: Option<seq<real>>, z: Option<View>, bias: Option<seq<real>>,
    queryStart: Option<seq<nat>>, hasInitial: Option<seq<bool>>, ssm: View, nullSlot: int, slots: Slots)

  predicate HasRank(v: View, n: nat) { |v.shape| == n && |v.strides| == n }

  /** Tokens of all requests in one row, or one row for each request. */
  predicate Varlen(x: Args) { x.queryStart.Some? }

  predicate Ranks(x: Args) {
    var n := if Varlen(x) then 2 else 3;
    && HasRank(x.u, n) && HasRank(x.delta, n) && (x.z.Some? ==> HasRank(x.z.value, n))
    && HasRank(x.b, n + 1) && HasRank(x.c, n + 1) && HasRank(x.a, 2) && HasRank(x.ssm, 3)
  }

  function Dim(x: Args): nat
    requires Ranks(x)
  {
    if Varlen(x) then x.u.shape[0] else x.u.shape[1]
  }

  function Groups(x: Args): nat
    requires Ranks(x)
  {
    if Varlen(x) then x.b.shape[0] else x.b.shape[1]
  }

  /** Strides over requests, or tokens of the joint row, and over channels. */
  function RowStrides(x: Args, v: View): Strides
    requires HasRank(v, if Varlen(x) then 2 else 3)
  {
    if Varlen(x) then Strides(v.strides[1], v.strides[0]) else Strides(v.strides[0], v.strides[1])
  }

  function GroupStrides(x: Args, v: View): Strides
    requires HasRank(v, if Varlen(x) then 3 else 4)
  {
    if Varlen(x) then Strides(v.strides[2], v.strides[0]) else Strides(v.strides[0], v.strides[1])
  }

  function LaneStride(x: Args, v: View): int
    requires HasRank(v, if Varlen(x) then 3 else 4)
  {
    if Varlen(x) then v.strides[1] else v.strides[2]
  }

  /** selective_scan_fwd: the kernel's parameters from the tensors' shapes and strides. */
  function LaunchFor(x: Args): Launch
    requires Ranks(x) && Groups(x) > 0
  {
    Launch(x.fn, x.softplus, x.z.Some?, x.uMem, x.aMem, x.bMem, x.cMem, x.skip, x.bias,
           x.a.shape[1], Dim(x) / Groups(x), if Varlen(x) then x.u.shape[1] else x.u.shape[2], x.queryStart, x.hasInitial,
           RowStrides(x, x.u), RowStrides(x, x.delta), if x.z.Some? then RowStrides(x, x.z.value) else Strides(0, 0),
           x.a.strides[0], x.a.strides[1],
           GroupStrides(x, x.b), LaneStride(x, x.b), GroupStrides(x, x.c), LaneStride(x, x.c),
           x.ssm.strides[0], x.ssm.strides[1], x.ssm.strides[2], x.nullSlot, x.slots)
  }

  // ---------------------------------------------------------------------------------------------
  // Which element is meant
  // ---------------------------------------------------------------------------------------------

  /** Batch entry b exists. */
  predicate HasEntry(x: Args, b: nat) {
    Varlen(x) ==> b + 1 < |x.queryStart.value|
  }

  /** Token t of channel d of request b. */
  function TokenIndex(x: Args, b: nat, d: nat, t: nat): seq<nat>
    requires HasEntry(x, b)
  {
    if Varlen(x) then [d, x.queryStart.value[b] + t] else [b, d, t]
  }

  /** Lane i of group g at token t of request b. */
  function LaneIndex(x: Args, b: nat, g: nat, i: nat, t: nat): seq<nat>
    requires HasEntry(x, b)
  {
    if Varlen(x) then [g, i, x.queryStart.value[b] + t] else [b, g, i, t]
  }

  /** Channel d belongs to group g: the groups divide the channels evenly, in order. */
  predicate InGroup(x: Args, d: nat, g: nat)
    requires Ranks(x) && Groups(x) > 0
  {
    g * (Dim(x) / Groups(x)) <= d < (g + 1) * (Dim(x) / Groups(x))
  }

  function TokenAt(x: Args, b: nat, d: nat, g: nat, delta: seq<real>, z: seq<real>, t: nat): Token
    requires Ranks(x) && HasEntry(x, b)
  {
    Token(Element(x.u, x.uMem, TokenIndex(x, b, d, t)),
          Element(x.delta, delta, TokenIndex(x, b, d, t)),
          if x.z.Some? then Element(x.z.value, z, TokenIndex(x, b, d, t)) else 0.0,
          seq(x.a.shape[1], i requires 0 <= i => Element(x.b, x.bMem, LaneIndex(x, b, g, i, t))),
          seq(x.a.shape[1], i requires 0 <= i => Element(x.c, x.cMem, LaneIndex(x, b, g, i, t))))
  }

  function TokensAt(x: Args, b: nat, d: nat, g: nat, delta: seq<real>, z: seq<real>, n: nat): seq<Token>
    requires Ranks(x) && HasEntry(x, b)
  {
    seq(n, t requires 0 <= t => TokenAt(x, b, d, g, delta, z, t))
  }

  /** The vectors over channels, if given, have an entry for each. */
  predicate HasChannel(x: Args, d: nat) {
    (x.skip.Some? ==> d < |x.skip.value|) && (x.bias.Some? ==> d < |x.bias.value|)
  }

  function ChannelAt(x: Args, d: nat): Channel
    requires Ranks(x) && HasChannel(x, d)
  {
    Channel(x.fn, x.a.shape[1], seq(x.a.shape[1], i requires 0 <= i => Element(x.a, x.aMem, [d, i])),
            if x.skip.Some? then Some(x.skip.value[d]) else None,
            if x.bias.Some? then Some(x.bias.value[d]) else None, x.softplus)
  }

  /** The slot that request b loads its state from: through its row of the table, its own entry, or its own number. */
  predicate LoadsFrom(x: Args, b: nat, slot: nat) {
    match x.slots
    case Checkpointed(table, stride, column, _, _, _, _, _) =>
      && b < |column| && column[b] >= 0
      && 0 <= Offset([stride, 1], [b, column[b]]) < |table| && slot == table[Offset([stride, 1], [b, column[b]])]
    case Indexed(table) => b < |table| && slot == table[b]
    case PerBatch => slot == b
  }

  function StartAt(x: Args, b: nat, d: nat, ssm: seq<real>, slot: nat): Vec
    requires Ranks(x)
  {
    if x.hasInitial.Some? && b < |x.hasInitial.value| && x.hasInitial.value[b]
    then seq(x.a.shape[1], i requires 0 <= i => Element(x.ssm, ssm, [slot, d, i]))
    else seq(x.a.shape[1], _ => 0.0)
  }

  // ---------------------------------------------------------------------------------------------
  // Addresses
  // ---------------------------------------------------------------------------------------------

  lemma Offset2(s: seq<int>, index: seq<nat>)
    requires |s| == |index| == 2
    ensures Offset(s, index) == index[0] * s[0] + index[1] * s[1]
  {
    assert Offset(s[1..], index[1..]) == index[1] * s[1] + Offset(s[1..][1..], index[1..][1..]);
  }

  lemma Offset3(s: seq<int>, index: seq<nat>)
    requires |s| == |index| == 3
    ensures Offset(s, index) == index[0] * s[0] + index[1] * s[1] + index[2] * s[2]
  {
    Offset2(s[1..], index[1..]);
  }

  lemma Offset4(s: seq<int>, index: seq<nat>)
    requires |s| == |index| == 4
    ensures Offset(s, index) == index[0] * s[0] + index[1] * s[1] + index[2] * s[2] + index[3] * s[3]
  {
    Offset3(s[1..], index[1..]);
  }

  /** Tokens that follow each other in the tensor follow each other in memory. */
  predicate UnitStride(v: View) { |v.strides| > 0 && v.strides[|v.strides| - 1] == 1 }

  lemma Split(s: int, n: int, t: int)
    ensures (n + t) * s == n * s + t * s
  {
  }

  lemma StepsOfStride(t: nat, s: int)
    ensures t * s == t <==> t == 0 || s == 1
  {
    if t > 0 && t * s == t {
      assert t * (s - 1) == 0;
    }
  }

  /** The address the kernel uses for a token is that of its element exactly when it is the first or tokens have stride 1. */
  lemma TokenAddressExactly(x: Args, v: View, b: nat, d: nat, t: nat)
    requires Ranks(x) && Groups(x) > 0 && HasEntry(x, b) && HasRank(v, if Varlen(x) then 2 else 3)
    ensures Base(LaunchFor(x), RowStrides(x, v), b, d) + t == Offset(v.strides, TokenIndex(x, b, d, t)) <==> t == 0 || UnitStride(v)
  {
    if Varlen(x) {
      var start := x.queryStart.value[b];
      Offset2(v.strides, [d, start + t]);
      Split(v.strides[1], start, t);
      StepsOfStride(t, v.strides[1]);
    } else {
      Offset3(v.strides, [b, d, t]);
      StepsOfStride(t, v.strides[2]);
    }
  }

  lemma LaneAddress(x: Args, v: View, b: nat, g: nat, i: nat, t: nat)
    requires Ranks(x) && Groups(x) > 0 && HasEntry(x, b) && HasRank(v, if Varlen(x) then 3 else 4) && UnitStride(v)
    ensures Base(LaunchFor(x), GroupStrides(x, v), b, g) + t + i * LaneStride(x, v) == Offset(v.strides, LaneIndex(x, b, g, i, t))
  {
    if Varlen(x) {
      var start := x.queryStart.value[b];
      Offset3(v.strides, [g, i, start + t]);
      Split(v.strides[2], start, t);
    } else {
      Offset4(v.strides, [b, g, i, t]);
    }
  }

  ghost predicate UnitStrides(x: Args) {
    UnitStride(x.u) && UnitStride(x.delta) && (x.z.Some? ==> UnitStride(x.z.value)) && UnitStride(x.b) && UnitStride(x.c)
  }

  // ---------------------------------------------------------------------------------------------
  // What a program loads
  // ---------------------------------------------------------------------------------------------

  lemma GroupIs(x: Args, d: nat, g: nat)
    requires Ranks(x) && Groups(x) > 0 && InGroup(x, d, g)
    ensures LaunchFor(x).groupSize > 0 && d / LaunchFor(x).groupSize == g
  {
    var n := Dim(x) / Groups(x);
    assert (g + 1) * n == g * n + n;
    QuotientIs(d, n, g);
  }

  lemma LanesAreElements(x: Args, v: View, mem: seq<real>, b: nat, g: nat, t: nat)
    requires Ranks(x) && Groups(x) > 0 && HasEntry(x, b) && HasRank(v, if Varlen(x) then 3 else 4) && UnitStride(v)
    ensures LoadLanes(LaunchFor(x), mem, Base(LaunchFor(x), GroupStrides(x, v), b, g) + t, LaneStride(x, v))
         == seq(x.a.shape[1], i requires 0 <= i => Element(v, mem, LaneIndex(x, b, g, i, t)))
  {
    hide Base, GroupStrides, LaneStride, Offset;
    forall i: nat | i < x.a.shape[1]
      ensures Base(LaunchFor(x), GroupStrides(x, v), b, g) + t + i * LaneStride(x, v) == Offset(v.strides, LaneIndex(x, b, g, i, t))
    {
      LaneAddress(x, v, b, g, i, t);
    }
  }

  /** Token t of a program is made of the elements of token t of its request and channel. */
  lemma TokensAreElements(x: Args, b: nat, d: nat, g: nat, delta: seq<real>, z: seq<real>, n: nat)
    requires Ranks(x) && Groups(x) > 0 && HasEntry(x, b) && UnitStrides(x) && InGroup(x, d, g) && LaunchFor(x).groupSize > 0
    ensures Tokens(LaunchFor(x), BasesOf(LaunchFor(x), b, d), delta, z, n) == TokensAt(x, b, d, g, delta, z, n)
  {
    hide Base, RowStrides, GroupStrides, LaneStride, Offset, LoadLanes, TokenIndex, LaneIndex;
    var l := LaunchFor(x);
    var at := BasesOf(l, b, d);
    GroupIs(x, d, g);
    forall t: nat | t < n
      ensures TokenOf(l, at, t, Load(delta, at.delta + t), if l.gated then Load(z, at.z + t) else 0.0) == TokenAt(x, b, d, g, delta, z, t)
    {
      TokenAddressExactly(x, x.u, b, d, t);
      TokenAddressExactly(x, x.delta, b, d, t);
      if x.z.Some? { TokenAddressExactly(x, x.z.value, b, d, t); }
      LanesAreElements(x, x.b, x.bMem, b, g, t);
      LanesAreElements(x, x.c, x.cMem, b, g, t);
    }
  }

  lemma ChannelIsElements(x: Args, d: nat)
    requires Ranks(x) && Groups(x) > 0 && HasChannel(x, d)
    ensures SameChannel(LaunchFor(x), d, ChannelAt(x, d))
  {
    hide Offset, NextPowerOf2;
    forall i: nat | i < x.a.shape[1] ensures Offset(x.a.strides, [d, i]) == d * x.a.strides[0] + i * x.a.strides[1] {
      Offset2(x.a.strides, [d, i]);
    }
    assert ChannelOf(LaunchFor(x), d).a == ChannelAt(x, d).a;
  }

  lemma SlotIs(x: Args, b: nat, slot: nat)
    requires Ranks(x) && Groups(x) > 0 && LoadsFrom(x, b, slot)
    ensures LoadSlot(LaunchFor(x), b) == slot
  {
    if x.slots.Checkpointed? { Offset2([x.slots.rowStride, 1], [b, x.slots.loadColumn[b]]); }
  }

  /** A program returns at once exactly when slots are looked up and its own is the null slot. */
  lemma SkippedExactly(x: Args, b: nat, slot: nat)
    requires Ranks(x) && Groups(x) > 0 && LoadsFrom(x, b, slot)
    ensures Skipped(LaunchFor(x), b) <==> x.slots != PerBatch && slot == x.nullSlot
  {
    hide LoadSlot;
    SlotIs(x, b, slot);
  }

  lemma CacheIsElements(x: Args, ssm: seq<real>, slot: nat, d: nat)
    requires Ranks(x) && Groups(x) > 0
    ensures CachedState(LaunchFor(x), ssm, slot, d) == seq(x.a.shape[1], i requires 0 <= i => Element(x.ssm, ssm, [slot, d, i]))
  {
    hide Offset;
    forall i: nat | i < x.a.shape[1]
      ensures Offset(x.ssm.strides, [slot, d, i]) == SsmAddr(LaunchFor(x), slot, d, i)
    {
      Offset3(x.ssm.strides, [slot, d, i]);
    }
  }

  lemma StartIsElements(x: Args, b: nat, d: nat, ssm: seq<real>, slot: nat)
    requires Ranks(x) && Groups(x) > 0 && LoadsFrom(x, b, slot)
    ensures InitialVector(LaunchFor(x), b, d, ssm) == StartAt(x, b, d, ssm, slot)
  {
    hide CachedState, Offset, LoadSlot, LoadsFrom;
    SlotIs(x, b, slot);
    CacheIsElements(x, ssm, slot, d);
  }

  /** How many tokens a program scans, when its states are not checkpointed: all of its request. */
  lemma CountIs(x: Args, b: nat)
    requires Ranks(x) && Groups(x) > 0 && HasEntry(x, b) && !x.slots.Checkpointed? && ForwardChunks(LaunchFor(x), b)
    ensures if Varlen(x) then x.queryStart.value[b] + TokenCount(LaunchFor(x), b) == x.queryStart.value[b + 1]
            else TokenCount(LaunchFor(x), b) == x.u.shape[2]
  {
    var l := LaunchFor(x);
    assert Lens(l, b) == [ActualSeqlen(l, b)];
    assert Sum(Lens(l, b), 1) == ActualSeqlen(l, b);
  }

  // ---------------------------------------------------------------------------------------------
  // What a program leaves
  // ---------------------------------------------------------------------------------------------

  /** k is a run of the kernel for channel d of a request, launched with these arguments. */
  ghost predicate RunOf(x: Args, k: Run, d: nat, g: nat, slot: nat) {
    && Ranks(x) && Groups(x) > 0 && UnitStrides(x) && HasEntry(x, k.b) && HasChannel(x, d) && InGroup(x, d, g)
    && LoadsFrom(x, k.b, slot) && k.l == LaunchFor(x) && Ran(k, d, ChannelAt(x, d)) && ForwardChunks(k.l, k.b)
  }

  ghost function TokensOfRun(x: Args, k: Run, d: nat, g: nat): seq<Token>
    requires Ranks(x) && HasEntry(x, k.b) && ForwardChunks(k.l, k.b)
  {
    TokensAt(x, k.b, d, g, k.delta, k.z, TokenCount(k.l, k.b))
  }

  lemma ScannedAreElements(x: Args, k: Run, d: nat, g: nat, slot: nat)
    requires RunOf(x, k, d, g, slot)
    ensures k.l.groupSize > 0 && |Lens(k.l, k.b)| > 0 && Scanned(k, d) == TokensOfRun(x, k, d, g)
    ensures From(k, d) == StartAt(x, k.b, d, k.ssm, slot)
  {
    hide Tokens, TokensAt, Base, TokenCount, InBounds, Finished, ChannelOf, LoadsFrom, Ranks, InGroup, UnitStrides, ChannelAt,
      LaunchFor, InitialVector, StartAt, ForwardChunks, DistinctCells, BasesOf;
    ScanResume.RunFacts(k, d, ChannelAt(x, d));
    TokensAreElements(x, k.b, d, g, k.delta, k.z, TokenCount(k.l, k.b));
    StartIsElements(x, k.b, d, k.ssm, slot);
  }

  lemma OutputAddress(x: Args, b: nat, d: nat, t: nat)
    requires Ranks(x) && Groups(x) > 0 && UnitStrides(x) && HasEntry(x, b) && LaunchFor(x).groupSize > 0
    ensures BasesOf(LaunchFor(x), b, d).delta + t == Offset(x.delta.strides, TokenIndex(x, b, d, t))
    ensures x.z.Some? ==> BasesOf(LaunchFor(x), b, d).z + t == Offset(x.z.value.strides, TokenIndex(x, b, d, t))
  {
    hide Base, RowStrides, Offset, TokenIndex;
    TokenAddressExactly(x, x.delta, b, d, t);
    if x.z.Some? { TokenAddressExactly(x, x.z.value, b, d, t); }
  }

  lemma GatedIfZ(x: Args)
    requires Ranks(x) && Groups(x) > 0
    ensures LaunchFor(x).gated == x.z.Some?
  {
  }

  /**
   In place of element (b, d, t) of delta the kernel leaves the output of the unpadded scan of the elements of channel d of
   request b, in place of that of z the gated output, and in the last slot the state after all tokens.
   */
  lemma KernelScansElements(x: Args, k: Run, d: nat, g: nat, slot: nat, t: nat)
    requires RunOf(x, k, d, g, slot) && t < |TokensOfRun(x, k, d, g)|
    ensures var ch, s0, toks := ChannelAt(x, d), StartAt(x, k.b, d, k.ssm, slot), TokensOfRun(x, k, d, g);
      && Element(x.delta, k.delta', TokenIndex(x, k.b, d, t)) == OutputAt(ch, s0, toks, t)
      && (x.z.Some? ==> Element(x.z.value, k.z', TokenIndex(x, k.b, d, t)) == GatedAt(ch, s0, toks, t))
  {
    hide Ranks, LoadsFrom, InGroup, UnitStrides, LaunchFor, Ran, ForwardChunks, OutputAt, GatedAt, TokensOfRun, StartAt, ChannelAt,
      BasesOf, Offset, TokenIndex, Scanned, From;
    ScannedAreElements(x, k, d, g, slot);
    RunOutputs(k, d, ChannelAt(x, d), t);
    RanksOfOutputs(x, k.b, d, t);
    OutputAddress(x, k.b, d, t);
    GatedIfZ(x);
  }

  lemma RanksOfOutputs(x: Args, b: nat, d: nat, t: nat)
    requires Ranks(x) && HasEntry(x, b)
    ensures |x.delta.strides| == |TokenIndex(x, b, d, t)| && (x.z.Some? ==> |x.z.value.strides| == |TokenIndex(x, b, d, t)|)
  {
  }

  /** The last slot holds the state after all tokens; without checkpoints it is the slot the program loaded from. */
  lemma KernelStoresState(x: Args, k: Run, d: nat, g: nat, slot: nat, last: nat, i: nat)
    requires RunOf(x, k, d, g, slot) && i < x.a.shape[1] && |Lens(k.l, k.b)| > 0 && last == LastSlot(k.l, k.b)
    ensures var toks := TokensOfRun(x, k, d, g);
            Element(x.ssm, k.ssm', [last, d, i]) == Lane(StateAt(ChannelAt(x, d), StartAt(x, k.b, d, k.ssm, slot), toks, |toks|), i)
    ensures !x.slots.Checkpointed? ==> last == slot
  {
    hide LoadsFrom, InGroup, UnitStrides, Ran, ForwardChunks, TokensOfRun, StartAt, ChannelAt, Offset, Scanned, From, StateAt, CachedState,
      LaunchFor;
    ScannedAreElements(x, k, d, g, slot);
    LastStateIsCached(k, d, ChannelAt(x, d));
    CacheIsElements(x, k.ssm', last, d);
    LastSlotIs(x, k.b, slot);
  }

  lemma LastSlotIs(x: Args, b: nat, slot: nat)
    requires Ranks(x) && Groups(x) > 0 && LoadsFrom(x, b, slot) && ForwardChunks(LaunchFor(x), b) && |Lens(LaunchFor(x), b)| > 0
    ensures !x.slots.Checkpointed? ==> LastSlot(LaunchFor(x), b) == slot
  {
    hide Lens, ForwardChunks;
    SlotIs(x, b, slot);
  }

  /** Running the kernel gives such a run. */
  method RunKernel(x: Args, b: nat, d: nat, delta: array<real>, z: array<real>, ssm: array<real>, ghost g: nat, ghost slot: nat)
    returns (ghost k: Run)
    requires Ranks(x) && Groups(x) > 0 && UnitStrides(x) && HasEntry(x, b) && HasChannel(x, d) && InGroup(x, d, g)
    requires LoadsFrom(x, b, slot) && !Skipped(LaunchFor(x), b) && delta != z && delta != ssm && z != ssm
    requires CanRun(LaunchFor(x), b, d, ChannelAt(x, d), delta.Length, z.Length, ssm.Length)
    modifies delta, z, ssm
    ensures k == Run(LaunchFor(x), b, old(delta[..]), old(z[..]), old(ssm[..]), delta[..], z[..], ssm[..])
    ensures RunOf(x, k, d, g, slot)
  {
    hide Ranks, LoadsFrom, InGroup, UnitStrides, LaunchFor, ForwardChunks, Finished, InBounds, SameChannel, DistinctCells, Skipped,
      ChannelAt;
    ghost var delta0, z0, ssm0 := delta[..], z[..], ssm[..];
    ScanProgram(LaunchFor(x), b, d, delta, z, ssm);
    k := Run(LaunchFor(x), b, delta0, z0, ssm0, delta[..], z[..], ssm[..]);
  }

  /** The same, solved: every output is a sum over lanes and earlier tokens of products of tensor elements. */
  lemma KernelSolvesRecurrence(x: Args, k: Run, d: nat, g: nat, slot: nat, t: nat, dts: seq<real>, h: Vec)
    requires RunOf(x, k, d, g, slot) && t < |TokensOfRun(x, k, d, g)|
    requires StepSizes(ChannelAt(x, d), TokensOfRun(x, k, d, g), dts) && |h| == x.a.shape[1]
    requires forall i :: 0 <= i < |h| ==>
      h[i] == Solution(ChannelAt(x, d), StartAt(x, k.b, d, k.ssm, slot), dts, TokensOfRun(x, k, d, g), i, t + 1)
    ensures var tok := TokenAt(x, k.b, d, g, k.delta, k.z, t);
      var y := Contract(h, tok.c, 0) + if x.skip.Some? then x.skip.value[d] * tok.u else 0.0;
      && Element(x.delta, k.delta', TokenIndex(x, k.b, d, t)) == y
      && (x.z.Some? && 1.0 + x.fn.exp(-tok.z) != 0.0 ==>
            Element(x.z.value, k.z', TokenIndex(x, k.b, d, t)) * (1.0 + x.fn.exp(-tok.z)) == y * tok.z)
  {
    hide LoadsFrom, InGroup, UnitStrides, Ran, ForwardChunks, StartAt, OutputAt, GatedAt, Offset, TokenIndex, TokenAt, StepSizes, Contract,
      Solution, LaunchFor, TokenCount, Element, Ranks;
    KernelScansElements(x, k, d, g, slot, t);
    ChannelParts(x, d);
    OutputsInClosedForm(ChannelAt(x, d), StartAt(x, k.b, d, k.ssm, slot), dts, TokensOfRun(x, k, d, g), t, h);
  }

  lemma ChannelParts(x: Args, d: nat)
    requires Ranks(x) && HasChannel(x, d)
    ensures var ch := ChannelAt(x, d);
            ch.fn == x.fn && ch.width == x.a.shape[1] && ch.skip == if x.skip.Some? then Some(x.skip.value[d]) else None
  {
  }
}
