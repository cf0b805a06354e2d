/** A run of two calls, to show that the assumptions of the theorems about runs can be met together. */
module PrefixCacheExample {
  import opened Basics
  import opened Folds
  import opened ScanRecurrence
  import opened ChunkMetadata
  import opened ScanKernel
  import opened PrefixCache

  /** The call that running the kernel on the launch makes. */
  ghost function CallFor(l: Launch, b: nat, d: nat, due: nat, delta: seq<real>, z: seq<real>, ssm: seq<real>): Call
    requires ForwardChunks(l, b) && InBounds(l, b, d, |delta|, |z|, |ssm|) && !l.gated
  {
    ProgramReady(l, b, d, delta, z, ssm);
    var p := ProgramOf(l, b, d, delta, z, ssm);
    Call(l, b, due, delta, z, ssm, Patch(delta, p.at.delta, Outs(p.ch, p.s0, p.toks, |p.toks|)), z,
         Checkpoints(l, b, d, ssm, p.s0, p.toks, |Lens(l, b)|))
  }

  lemma CallForIsFinished(l: Launch, b: nat, d: nat, due: nat, delta: seq<real>, z: seq<real>, ssm: seq<real>)
    requires ForwardChunks(l, b) && InBounds(l, b, d, |delta|, |z|, |ssm|) && !l.gated
    ensures var k := CallFor(l, b, d, due, delta, z, ssm); Finished(l, b, d, delta, z, ssm, k.delta', k.z', k.ssm')
  {
    hide ForwardChunks, InBounds, Checkpoints, Outs, Tokens, InitialVector;
    ProgramReady(l, b, d, delta, z, ssm);
  }

  /** Blocks of one token, one channel with one lane: call i scans token i and stores its state in slot i. */
  function LaunchOf(i: nat): Launch
    requires i < 2
  {
    var none := Strides(0, 0);
    Launch(Functions(x => 1.0, x => 0.0, x => 0.0), false, false,
           [1.0], [2.0], [3.0], [4.0], None, None,
           1, 1, 1, None, Some([i > 0]),
           none, none, none, 1, 1,
           none, 1, none, 1,
           1, 1, 1, 7,
           Checkpointed([0, 1], 2, [0], [i], [i], [0, 1], [0], 1))
  }

  lemma ChunksOf(i: nat)
    requires i < 2
    ensures ForwardChunks(LaunchOf(i), 0) && Lens(LaunchOf(i), 0) == [1]
  {
    var l := LaunchOf(i);
    assert l.slots.cu == [0, 1] && l.slots.lastChunk == [0];
    assert ChunkCount(l, 0) == 1 && ChunkTokens(l, 0, 0) == 1;
  }

  lemma PlannedChunks(i: nat)
    requires i < 2
    ensures ChunkLens(1, i, 1) == [1] && FirstColumn(1, i) == i && LastColumn(1, i + 1) == i && LastColumn(1, i) == 0
  {
    assert Cdiv(1, 1) == 1 && Cdiv(2, 1) == 2 && Cdiv(0, 1) == 0;
    assert Blocks(1, 1) == [1];
  }

  lemma LaunchIsScheduled(i: nat)
    requires i < 2
    ensures Scheduled(LaunchOf(i), 0, [0, 1], 1, i, 1)
  {
    hide ForwardChunks, Lens, ChunkLens, FirstColumn, LastColumn;
    ChunksOf(i);
    PlannedChunks(i);
  }

  lemma OneCellPerSlot(i: nat, slot: int)
    requires i < 2
    ensures SsmAddr(LaunchOf(i), slot, 0, 0) == slot && LaunchOf(i).dstate == 1
  {
  }

  lemma SlotsFit(i: nat)
    requires i < 2
    ensures DistinctCells(LaunchOf(i), 0, [0, 1]) && SlotInBounds(LaunchOf(i), 0, 0, 2) && SlotInBounds(LaunchOf(i), 1, 0, 2)
  {
    hide SsmAddr, LaunchOf;
    OneCellPerSlot(i, 0);
    OneCellPerSlot(i, 1);
  }

  lemma StoresInOwnSlot(i: nat)
    requires i < 2
    ensures ForwardChunks(LaunchOf(i), 0) && |Lens(LaunchOf(i), 0)| == 1 && StoreSlot(LaunchOf(i), 0, 0) == i
  {
    hide *;
    ChunksOf(i);
    LaunchIsScheduled(i);
    BlockIs(i);
    StoreSlotIs(LaunchOf(i), 0, [0, 1], 1, i, 1, 0);
  }

  lemma BlockIs(i: nat)
    ensures BlockOf(1, i) == i
  {
  }

  lemma TokensFit(i: nat)
    requires i < 2
    ensures ForwardChunks(LaunchOf(i), 0) && TokenCount(LaunchOf(i), 0) == 1
    ensures LaunchOf(i).groupSize == 1 && !LaunchOf(i).gated && BasesOf(LaunchOf(i), 0, 0) == Bases(0, 0, 0, 0, 0)
  {
    hide ForwardChunks, Lens;
    ChunksOf(i);
    assert Sum([1], 1) == 1;
  }

  lemma LaunchFits(i: nat)
    requires i < 2
    ensures ForwardChunks(LaunchOf(i), 0) && InBounds(LaunchOf(i), 0, 0, 1, 0, 2)
  {
    hide ForwardChunks, Lens, LaunchOf, SlotInBounds, StoreSlot, TokenCount, BasesOf;
    TokensFit(i);
    SlotsFit(i);
    StoresInOwnSlot(i);
  }

  // ---------------------------------------------------------------------------------------------
  // The two calls
  // ---------------------------------------------------------------------------------------------

  /** What the launch's channel and the one token are. */
  function ChannelUsed(): Channel { ChannelOf(LaunchOf(0), 0).(width := 1) }

  ghost function TokenUsed(): Token { TokenOf(LaunchOf(0), Bases(0, 0, 0, 0, 0), 0, 5.0, 0.0) }

  ghost function CallNumber(i: nat, ssm: seq<real>): Call
    requires i < 2 && |ssm| == 2
  {
    LaunchFits(i);
    TokensFit(i);
    CallFor(LaunchOf(i), 0, 0, 1, [5.0], [], ssm)
  }

  lemma CallNumberIsCall(i: nat, ssm: seq<real>)
    requires i < 2 && |ssm| == 2
    ensures CallOf(CallNumber(i, ssm), 0, [0, 1], 0, ChannelUsed(), [TokenUsed(), TokenUsed()], 1, i)
    ensures |CallNumber(i, ssm).ssm'| == 2 && CallNumber(i, ssm).ssm == ssm && CallNumber(i, ssm).due == 1
  {
    hide Scheduled, SameChannel, DistinctCells, BlockOf, InBounds, ProgramOf, Finished, LaunchOf, CallFor, TokenUsed, ChannelUsed,
      CallNumber, ForwardChunks;
    LaunchFits(i);
    TokensFit(i);
    LaunchIsScheduled(i);
    SlotsFit(i);
    SameChannelUsed(i);
    SameTokenUsed(i, ssm);
    CallForIsFinished(LaunchOf(i), 0, 0, 1, [5.0], [], ssm);
    CallParts(i, ssm);
    BlockIs(i);
    assert [0, 1][0..] == [0, 1];
  }

  lemma CallParts(i: nat, ssm: seq<real>)
    requires i < 2 && |ssm| == 2 && ForwardChunks(LaunchOf(i), 0) && InBounds(LaunchOf(i), 0, 0, 1, 0, 2) && !LaunchOf(i).gated
    ensures CallNumber(i, ssm) == CallFor(LaunchOf(i), 0, 0, 1, [5.0], [], ssm)
    ensures var k := CallNumber(i, ssm);
            k.l == LaunchOf(i) && k.b == 0 && k.due == 1 && k.delta == [5.0] && k.z == [] && k.ssm == ssm && |k.ssm'| == 2
  {
    hide ForwardChunks, InBounds, Checkpoints, Outs, Tokens, InitialVector, LaunchOf, ChannelOf;
  }

  lemma SameChannelUsed(i: nat)
    requires i < 2
    ensures SameChannel(LaunchOf(i), 0, ChannelUsed())
  {
    assert Pow2(0) == 1 && NextPowerOf2(1) == 1;
    assert ChannelOf(LaunchOf(i), 0) == ChannelOf(LaunchOf(0), 0);
  }

  lemma SameTokenUsed(i: nat, ssm: seq<real>)
    requires i < 2 && LaunchOf(i).groupSize > 0 && ForwardChunks(LaunchOf(i), 0)
    ensures ProgramOf(LaunchOf(i), 0, 0, [5.0], [], ssm).toks == [TokenUsed(), TokenUsed()][i..i + 1]
  {
    hide ForwardChunks, ChannelOf, InitialVector, TokenCount;
    TokensFit(i);
    assert [TokenUsed(), TokenUsed()][i..i + 1] == [TokenUsed()];
  }

  lemma LanesUsed()
    ensures HasLanes(ChannelUsed(), [TokenUsed(), TokenUsed()], ChannelUsed().width) && ChannelUsed().width == 1
  {
  }

  lemma SameCacheUsed()
    ensures SameCache(LaunchOf(0), LaunchOf(1))
  {
  }

  /** Two calls, each of one token, serve a sequence of two: the second resumes from the slot the first stored. */
  lemma TwoCallsServe() returns (calls: seq<Call>)
    ensures |calls| == 2 && calls[1].ssm == calls[0].ssm'
    ensures Serves(calls, 0, [0, 1], ChannelUsed(), [TokenUsed(), TokenUsed()], 1, 0)
  {
    hide CallOf, LaunchOf, CallFor, CallNumber, TokenUsed, ChannelUsed, SameCache, HasLanes, CachedState;
    var ssm := [0.0, 0.0];
    var first := CallNumber(0, ssm);
    CallNumberIsCall(0, ssm);
    var second := CallNumber(1, first.ssm');
    CallNumberIsCall(1, first.ssm');
    LaunchesUsed(ssm);
    LaunchesUsed(first.ssm');
    LanesUsed();
    SameCacheUsed();
    calls := [first, second];
    assert Done(calls, 0, 1) == 1;
    assert LastColumn(1, 0) == 0;
  }

  lemma LaunchesUsed(ssm: seq<real>)
    requires |ssm| == 2
    ensures CallNumber(0, ssm).l == LaunchOf(0) && CallNumber(1, ssm).l == LaunchOf(1)
  {
    hide LaunchOf, InBounds, ForwardChunks;
    LaunchFits(0);
    TokensFit(0);
    CallParts(0, ssm);
    LaunchFits(1);
    TokensFit(1);
    CallParts(1, ssm);
  }

  /** Another request that starts behind the first block and finds the state of the first request in the slot they share. */
  lemma SecondRequestHits() returns (calls: seq<Call>, calls': seq<Call>)
    ensures |calls| == 1 && |calls'| == 1 && Done(calls, 0, 1) == 1
    ensures Serves(calls, 0, [0, 1], ChannelUsed(), [TokenUsed(), TokenUsed()], 1, 0)
    ensures InOrder(calls', 0, [0, 1], ChannelUsed(), [TokenUsed(), TokenUsed()], 1, 1)
    ensures SameCache(calls[0].l, calls'[0].l) && calls'[0].ssm == calls[0].ssm'
    ensures PutsOut(calls'[0], 0, 0, ChannelUsed(), [TokenUsed(), TokenUsed()], 1)
  {
    hide CallOf, LaunchOf, CallFor, CallNumber, TokenUsed, ChannelUsed, SameCache, HasLanes, CachedState, PutsOut;
    var ssm, row, all := [0.0, 0.0], [0, 1], [TokenUsed(), TokenUsed()];
    var first := CallNumber(0, ssm);
    CallNumberIsCall(0, ssm);
    var second := CallNumber(1, first.ssm');
    CallNumberIsCall(1, first.ssm');
    LaunchesUsed(ssm);
    LaunchesUsed(first.ssm');
    LanesUsed();
    SameCacheUsed();
    calls, calls' := [first], [second];
    assert LastColumn(1, 0) == 0 && LastColumn(1, 1) == 0;
    assert Done(calls, 0, 1) == 1 && Done(calls', 1, 0) == 1;
    SharedPrefixEqualsOwnScan(calls, 0, row, ChannelUsed(), all, 1, 0, 0, 0, calls', row, all, 1, 0, 0);
  }
}
