/** A call with one token, to show that the assumptions of the theorems about tensor elements can be met together. */
module ScanTensorsExample {
  import opened Basics
  import opened ScanRecurrence
  import opened ScanKernel
  import opened PrefixCache
  import opened PrefixCacheExample
  import opened ScanResume
  import opened ScanTensors

  /** One request with one token, one channel in one group, and one lane. */
  function OneToken(): Args {
    var l := LaunchOf(0);
    Args(l.fn, false, View([1, 1, 1], [0, 0, 1]), l.u, View([1, 1, 1], [0, 0, 1]), View([1, 1], [1, 1]), l.a,
         View([1, 1, 1, 1], [0, 0, 1, 1]), l.b, View([1, 1, 1, 1], [0, 0, 1, 1]), l.c, None, None, None,
         None, l.hasInitial, View([2, 1, 1], [1, 1, 1]), l.nullSlot, l.slots)
  }

  lemma ArgsFit()
    ensures var x := OneToken();
            && Ranks(x) && Groups(x) > 0 && UnitStrides(x) && HasEntry(x, 0) && HasChannel(x, 0) && InGroup(x, 0, 0)
            && LaunchFor(x) == LaunchOf(0)
  {
  }

  lemma LoadsSlotZero()
    ensures LoadsFrom(OneToken(), 0, 0)
  {
    Offset2([2, 1], [0, 0]);
  }

  ghost function RunOnce(ssm: seq<real>): Run
    requires |ssm| == 2
  {
    var k := CallNumber(0, ssm);
    Run(k.l, 0, k.delta, k.z, k.ssm, k.delta', k.z', k.ssm')
  }

  lemma OneCell(l: Launch, slot: int)
    requires l.dstate == 1
    ensures DistinctCells(l, 0, [slot])
  {
    hide SsmAddr;
  }

  lemma CanRunOnce()
    ensures Ranks(OneToken()) && HasChannel(OneToken(), 0)
    ensures ForwardChunks(LaunchOf(0), 0) && CanRun(LaunchOf(0), 0, 0, ChannelAt(OneToken(), 0), 1, 0, 2)
  {
    hide Ranks, LaunchFor, OneToken, LaunchOf, ForwardChunks, InBounds, SameChannel, ChannelAt, DistinctCells, StoreSlot, Lens,
      HasChannel, InGroup, UnitStrides, HasEntry, Groups, Dim, SsmAddr, LastSlot;
    ArgsFit();
    ChunksOf(0);
    LaunchFits(0);
    ChannelIsElements(OneToken(), 0);
    OneCellPerSlot(0, 0);
    OneCell(LaunchOf(0), LastSlot(LaunchOf(0), 0));
  }

  lemma PartsOfRun(ssm: seq<real>)
    requires |ssm| == 2 && ForwardChunks(LaunchOf(0), 0) && InBounds(LaunchOf(0), 0, 0, 1, 0, 2)
    ensures var k := RunOnce(ssm); k.l == LaunchOf(0) && k.b == 0 && |k.delta| == 1 && |k.z| == 0 && |k.ssm| == 2
    ensures var k := RunOnce(ssm); Finished(LaunchOf(0), 0, 0, k.delta, k.z, k.ssm, k.delta', k.z', k.ssm')
  {
    hide ForwardChunks, InBounds, Finished, LaunchOf, CallFor, CallNumber;
    TokensFit(0);
    CallParts(0, ssm);
    CallForIsFinished(LaunchOf(0), 0, 0, 1, [5.0], [], ssm);
  }

  /** It runs from any cache with two cells. */
  lemma OneTokenRuns(ssm: seq<real>)
    requires |ssm| == 2
    ensures RunOf(OneToken(), RunOnce(ssm), 0, 0, 0)
  {
    hide Ranks, UnitStrides, InGroup, LoadsFrom, LaunchFor, OneToken, LaunchOf, ForwardChunks, Finished, CanRun, ChannelAt, RunOnce,
      HasEntry, HasChannel, InBounds;
    ArgsFit();
    LoadsSlotZero();
    LaunchFits(0);
    CanRunOnce();
    PartsOfRun(ssm);
  }
}
