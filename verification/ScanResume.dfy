/**
 Stopping and resuming a scan, whatever the mode and whatever the chunks: a second run that loads the slot in which the
 first one left its last state continues the scan as if it had never stopped.
 */
module ScanResume {
  import opened Basics
  import opened Folds
  import opened ScanRecurrence
  import opened ChunkMetadata
  import opened ScanKernel
  import opened PrefixCache

  /** One program run to its end: launch and batch entry, and the mutable tensors before and after it. */
  datatype Run = Run(l: Launch, b: nat, delta: seq<real>, z: seq<real>, ssm: seq<real>,
                     delta': seq<real>, z': seq<real>, ssm': seq<real>)

  /** The program can run: its chunks are well formed, its addresses exist, and its last state has a place of its own. */
  ghost predicate CanRun(l: Launch, b: nat, d: nat, ch: Channel, deltaSize: nat, zSize: nat, ssmSize: nat) {
    && ForwardChunks(l, b) && |Lens(l, b)| > 0 && SameChannel(l, d, ch)
    && InBounds(l, b, d, deltaSize, zSize, ssmSize) && DistinctCells(l, d, [LastSlot(l, b)])
  }

  ghost predicate Ran(k: Run, d: nat, ch: Channel) {
    && CanRun(k.l, k.b, d, ch, |k.delta|, |k.z|, |k.ssm|)
    && Finished(k.l, k.b, d, k.delta, k.z, k.ssm, k.delta', k.z', k.ssm')
  }

  /** The slot of the last chunk's state. */
  function LastSlot(l: Launch, b: nat): int
    requires ForwardChunks(l, b) && |Lens(l, b)| > 0
  {
    StoreSlot(l, b, |Lens(l, b)| - 1)
  }

  /** The state the run starts from, and the tokens it scans. */
  ghost function From(k: Run, d: nat): Vec { InitialVector(k.l, k.b, d, k.ssm) }

  ghost function Scanned(k: Run, d: nat): seq<Token>
    requires k.l.groupSize > 0 && ForwardChunks(k.l, k.b)
  {
    ProgramOf(k.l, k.b, d, k.delta, k.z, k.ssm).toks
  }

  lemma RunFacts(k: Run, d: nat, ch: Channel)
    requires Ran(k, d, ch)
    ensures k.l.groupSize > 0 && ForwardChunks(k.l, k.b) && |Lens(k.l, k.b)| > 0 && |From(k, d)| == ch.width == k.l.dstate
    ensures ChannelOf(k.l, d) == ch.(width := NextPowerOf2(ch.width)) && HasLanes(ChannelOf(k.l, d), Scanned(k, d), ch.width)
    ensures var p := ProgramOf(k.l, k.b, d, k.delta, k.z, k.ssm);
            && p.ch == ChannelOf(k.l, d) && p.at == BasesOf(k.l, k.b, d) && p.gated == k.l.gated && p.toks == Scanned(k, d)
            && |p.toks| == TokenCount(k.l, k.b) && |p.s0| == NextPowerOf2(k.l.dstate)
            && Padded(p.s0, From(k, d), NextPowerOf2(ch.width))
  {
    hide ForwardChunks, TokenCount, Base, SlotInBounds, StoreSlot, Finished, NextPowerOf2, LoadSlot, DistinctCells, BasesOf;
    ProgramReady(k.l, k.b, d, k.delta, k.z, k.ssm);
  }

  lemma TruncatedIsExact(s: Vec, r: Vec, width: nat)
    requires Padded(s, r, width)
    ensures s[..|r|] == r
  {
  }

  /** A run leaves in its last slot the exact state after all its tokens, however they were cut into chunks. */
  lemma LastStateIsCached(k: Run, d: nat, ch: Channel)
    requires Ran(k, d, ch) && ForwardChunks(k.l, k.b) && |Lens(k.l, k.b)| > 0 && k.l.groupSize > 0
    ensures CachedState(k.l, k.ssm', LastSlot(k.l, k.b), d) == StateAt(ch, From(k, d), Scanned(k, d), |Scanned(k, d)|)
  {
    hide *;
    RunFacts(k, d, ch);
    var p := ProgramOf(k.l, k.b, d, k.delta, k.z, k.ssm);
    var n := |Lens(k.l, k.b)|;
    RunSlots(k, d, ch);
    FirstChunkStart(k.l, k.b, d, k.ssm, p.s0, p.toks);
    NextChunk(k.l, k.b, d, k.ssm, p.s0, p.toks, n - 1);
    var s := StateAt(p.ch, p.s0, p.toks, |p.toks|);
    StoreThenRead(k.l, Checkpoints(k.l, k.b, d, k.ssm, p.s0, p.toks, n - 1), d, [LastSlot(k.l, k.b)], 0, s, 0);
    PaddedState(p.ch, p.s0, From(k, d), p.toks, |p.toks|);
    assert p.ch.(width := ch.width) == ch;
    TruncatedIsExact(s, StateAt(ch, From(k, d), p.toks, |p.toks|), p.ch.width);
  }

  lemma RunSlots(k: Run, d: nat, ch: Channel)
    requires Ran(k, d, ch) && ForwardChunks(k.l, k.b) && |Lens(k.l, k.b)| > 0 && k.l.groupSize > 0
    ensures forall c :: 0 <= c < |Lens(k.l, k.b)| ==> SlotInBounds(k.l, StoreSlot(k.l, k.b, c), d, |k.ssm|)
    ensures LastSlot(k.l, k.b) == StoreSlot(k.l, k.b, |Lens(k.l, k.b)| - 1) && DistinctCells(k.l, d, [LastSlot(k.l, k.b)])
    ensures var p := ProgramOf(k.l, k.b, d, k.delta, k.z, k.ssm);
            && TokenCount(k.l, k.b) <= |p.toks| && |p.s0| == NextPowerOf2(k.l.dstate)
            && k.ssm' == Checkpoints(k.l, k.b, d, k.ssm, p.s0, p.toks, |Lens(k.l, k.b)|)
  {
    hide ForwardChunks, TokenCount, Base, SlotInBounds, StoreSlot, NextPowerOf2, DistinctCells, BasesOf, Checkpoints, Written,
      ChannelOf, InitialVector, Tokens, PadTo;
    RunFacts(k, d, ch);
  }

  /** A run puts out the exact outputs, in place of its inputs. */
  lemma RunOutputs(k: Run, d: nat, ch: Channel, t: nat)
    requires Ran(k, d, ch) && ForwardChunks(k.l, k.b) && k.l.groupSize > 0 && t < |Scanned(k, d)|
    ensures var at := BasesOf(k.l, k.b, d);
            && 0 <= at.delta + t < |k.delta'| && k.delta'[at.delta + t] == OutputAt(ch, From(k, d), Scanned(k, d), t)
            && (k.l.gated ==> 0 <= at.z + t < |k.z'| && k.z'[at.z + t] == GatedAt(ch, From(k, d), Scanned(k, d), t))
  {
    hide ForwardChunks, TokenCount, Base, SlotInBounds, StoreSlot, NextPowerOf2, DistinctCells, BasesOf, Checkpoints,
      ChannelOf, InitialVector, Tokens, PadTo, OutputAt, GatedAt, Padded, HasLanes;
    RunFacts(k, d, ch);
    var p := ProgramOf(k.l, k.b, d, k.delta, k.z, k.ssm);
    PaddedOutput(p.ch, p.s0, From(k, d), p.toks, t);
    assert p.ch.(width := ch.width) == ch;
    assert k.delta'[p.at.delta + t] == Outs(p.ch, p.s0, p.toks, |p.toks|)[t];
    assert p.gated ==> k.z'[p.at.z + t] == GatedOuts(p.ch, p.s0, p.toks, |p.toks|)[t];
  }

  /** Run j resumes run k: it is told to load an initial state, and finds in its slot what k left in its last one. */
  ghost predicate Resumes(k: Run, j: Run, d: nat, ch: Channel) {
    && Ran(k, d, ch) && Ran(j, d, ch)
    && j.l.hasInitial.Some? && j.b < |j.l.hasInitial.value| && j.l.hasInitial.value[j.b]
    && CachedState(j.l, j.ssm, LoadSlot(j.l, j.b), d) == CachedState(k.l, k.ssm', LastSlot(k.l, k.b), d)
  }

  lemma StartsWhereTheOtherStopped(k: Run, j: Run, d: nat, ch: Channel)
    requires Resumes(k, j, d, ch) && ForwardChunks(k.l, k.b) && |Lens(k.l, k.b)| > 0 && k.l.groupSize > 0
    ensures From(j, d) == StateAt(ch, From(k, d), Scanned(k, d), |Scanned(k, d)|)
  {
    hide ForwardChunks, Ran, CachedState, LastSlot, StateAt, ProgramOf, LoadSlot;
    LastStateIsCached(k, d, ch);
  }

  /**
   Stopping and resuming equals never stopping, for both runs' outputs and for the state the second one leaves, whatever
   the mode and the chunking of either run.
   */
  lemma ResumeWithAnyChunks(k: Run, j: Run, d: nat, ch: Channel, t: nat)
    requires Resumes(k, j, d, ch)
    requires k.l.groupSize > 0 && ForwardChunks(k.l, k.b) && j.l.groupSize > 0 && ForwardChunks(j.l, j.b) && |Lens(j.l, j.b)| > 0
    ensures var all, m := Scanned(k, d) + Scanned(j, d), |Scanned(k, d)|;
            var atK, atJ := BasesOf(k.l, k.b, d), BasesOf(j.l, j.b, d);
            && (t < m ==>
                  && 0 <= atK.delta + t < |k.delta'|
                  && k.delta'[atK.delta + t] == OutputAt(ch, From(k, d), all, t))
            && (t < m && k.l.gated ==>
                  && 0 <= atK.z + t < |k.z'|
                  && k.z'[atK.z + t] == GatedAt(ch, From(k, d), all, t))
            && (t < |Scanned(j, d)| ==>
                  && 0 <= atJ.delta + t < |j.delta'|
                  && j.delta'[atJ.delta + t] == OutputAt(ch, From(k, d), all, m + t))
            && (t < |Scanned(j, d)| && j.l.gated ==>
                  && 0 <= atJ.z + t < |j.z'|
                  && j.z'[atJ.z + t] == GatedAt(ch, From(k, d), all, m + t))
            && CachedState(j.l, j.ssm', LastSlot(j.l, j.b), d) == StateAt(ch, From(k, d), all, |all|)
  {
    hide *;
    ResumeFacts(k, j, d, ch);
    StartsWhereTheOtherStopped(k, j, d, ch);
    var xs, ys := Scanned(k, d), Scanned(j, d);
    if t < |xs| {
      RunOutputs(k, d, ch, t);
      OutputPrefix(ch, From(k, d), xs, ys, t);
    }
    if t < |ys| {
      RunOutputs(j, d, ch, t);
      OutputSplit(ch, From(k, d), xs, ys, t);
    }
    LastStateIsCached(j, d, ch);
    StateSplit(ch, From(k, d), xs, ys);
  }

  lemma ResumeFacts(k: Run, j: Run, d: nat, ch: Channel)
    requires Resumes(k, j, d, ch)
    ensures Ran(k, d, ch) && Ran(j, d, ch) && |Lens(k.l, k.b)| > 0
  {
    hide ForwardChunks, InBounds, Finished, SameChannel, DistinctCells, LastSlot, CachedState;
  }

  lemma OutputPrefix(ch: Channel, s0: Vec, xs: seq<Token>, ys: seq<Token>, t: nat)
    requires t < |xs|
    ensures OutputAt(ch, s0, xs, t) == OutputAt(ch, s0, xs + ys, t) && GatedAt(ch, s0, xs, t) == GatedAt(ch, s0, xs + ys, t)
  {
    hide Output, Gate, StepOf;
    FoldPrefix(StepOf(ch), s0, xs, xs + ys, t + 1);
  }

  lemma StateSplit(ch: Channel, s0: Vec, xs: seq<Token>, ys: seq<Token>)
    ensures StateAt(ch, StateAt(ch, s0, xs, |xs|), ys, |ys|) == StateAt(ch, s0, xs + ys, |xs + ys|)
  {
    hide StepOf;
    FoldSplit(StepOf(ch), s0, xs, ys, |ys|);
  }

  /** Two runs of the kernel on one cache, the second loading from where the first stored, are such a pair. */
  method ScanTwice(l: Launch, b: nat, l': Launch, b': nat, d: nat, ghost ch: Channel, delta: array<real>, z: array<real>,
                   delta': array<real>, z': array<real>, ssm: array<real>)
    returns (ghost k: Run, ghost j: Run)
    requires delta != z && delta != ssm && z != ssm && delta' != z' && delta' != ssm && z' != ssm
    requires delta != delta' && delta != z' && z != delta' && z != z'
    requires CanRun(l, b, d, ch, delta.Length, z.Length, ssm.Length) && !Skipped(l, b)
    requires CanRun(l', b', d, ch, delta'.Length, z'.Length, ssm.Length) && !Skipped(l', b')
    requires SameCache(l, l') && LoadSlot(l', b') == LastSlot(l, b)
    requires l'.hasInitial.Some? && b' < |l'.hasInitial.value| && l'.hasInitial.value[b']
    modifies delta, z, delta', z', ssm
    ensures Resumes(k, j, d, ch)
    ensures k.l == l && k.b == b && j.l == l' && j.b == b'
    ensures k.delta == old(delta[..]) && k.z == old(z[..]) && k.ssm == old(ssm[..]) && k.delta' == delta[..] && k.z' == z[..]
    ensures j.delta == old(delta'[..]) && j.z == old(z'[..]) && j.delta' == delta'[..] && j.z' == z'[..] && j.ssm' == ssm[..]
  {
    hide ForwardChunks, InBounds, Finished, SameChannel, DistinctCells, LastSlot, CachedState, LoadSlot, Lens;
    ghost var delta0, z0, ssm0 := delta[..], z[..], ssm[..];
    ScanProgram(l, b, d, delta, z, ssm);
    k := Run(l, b, delta0, z0, ssm0, delta[..], z[..], ssm[..]);
    ghost var delta1, z1, ssm1 := delta'[..], z'[..], ssm[..];
    ScanProgram(l', b', d, delta', z', ssm);
    j := Run(l', b', delta1, z1, ssm1, delta'[..], z'[..], ssm[..]);
    SameView(l, l', ssm1, LastSlot(l, b), d);
  }
}
