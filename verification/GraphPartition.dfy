/**
 Signatures of graph partitions: a backward liveness pass over the partitions of a compiled graph.

 For each partition the pass decides which buffers it takes in, which of those it frees, and which buffers it hands on.
 A buffer written in place has several names; `realName` maps such an alias to the buffer it stands for. A buffer with
 no layout is never allocated. The order of names within a signature is not modelled: names are kept in sets.
 */
module GraphPartition {
  import opened Basics

  type Name = string

  datatype Node = Node(outputs: set<Name>, loads: set<Name>, stores: set<Name>, lastUsage: set<Name>)

  type Partition = seq<Node>

  datatype Buffer = Buffer(noneLayout: bool, mutationOutput: bool)

  datatype Graph = Graph(nodes: set<Name>, buffers: map<Name, Buffer>, realName: map<Name, Name>,
                         outputs: set<Name>, constants: set<Name>)

  datatype Signature = Signature(inputs: set<Name>, outputs: set<Name>, frees: map<Name, bool>, skipCudagraph: bool,
                                 constants: set<Name>)

  // ---------------------------------------------------------------------------------------------
  // Buffers without layout
  // ---------------------------------------------------------------------------------------------

  predicate FollowsMutation(g: Graph, n: Name) {
    && n in g.buffers && g.buffers[n].noneLayout && g.buffers[n].mutationOutput
    && n in g.realName && g.realName[n] != ""
  }

  /** is_none_layout, or None when the chain of mutations runs in a circle and the recursion would not end. */
  function LayoutOf(g: Graph, n: Name, seen: set<Name>): Option<bool>
    decreases g.realName.Keys - seen
  {
    if FollowsMutation(g, n) then
      if n in seen then None else LayoutOf(g, g.realName[n], seen + {n})
    else Some(n in g.buffers && g.buffers[n].noneLayout)
  }

  /** Every chain of mutations ends. */
  ghost predicate Resolves(g: Graph) {
    forall n :: LayoutOf(g, n, {}).Some?
  }

  predicate IsNone(g: Graph, n: Name)
    requires Resolves(g)
  {
    LayoutOf(g, n, {}).value
  }

  lemma {:induction false} LayoutIgnoresSeen(g: Graph, n: Name, seen: set<Name>, more: set<Name>)
    requires seen <= more && LayoutOf(g, n, more).Some?
    ensures LayoutOf(g, n, seen) == LayoutOf(g, n, more)
    decreases g.realName.Keys - more
  {
    if FollowsMutation(g, n) {
      LayoutIgnoresSeen(g, g.realName[n], seen + {n}, more + {n});
    }
  }

  /** An alias has a layout exactly when the buffer it stands for has one. */
  lemma NoneFollowsAlias(g: Graph, n: Name)
    requires Resolves(g)
    ensures IsNone(g, n) == if FollowsMutation(g, n) then IsNone(g, g.realName[n]) else n in g.buffers && g.buffers[n].noneLayout
  {
    if FollowsMutation(g, n) {
      assert LayoutOf(g, n, {}) == LayoutOf(g, g.realName[n], {} + {n});
      LayoutIgnoresSeen(g, g.realName[n], {}, {} + {n});
    }
  }

  // ---------------------------------------------------------------------------------------------
  // One partition
  // ---------------------------------------------------------------------------------------------

  function Produced(p: Partition): set<Name> { set i, n | 0 <= i < |p| && n in p[i].outputs :: n }

  function Used(p: Partition): set<Name> { set i, n | 0 <= i < |p| && n in p[i].loads + p[i].stores :: n }

  function Freed(p: Partition): set<Name> { set i, n | 0 <= i < |p| && n in p[i].lastUsage :: n }

  function Real(g: Graph, n: Name): Name { if n in g.realName then g.realName[n] else n }

  function Rename(g: Graph, names: set<Name>): set<Name> { set n | n in names :: Real(g, n) }

  /** partition_input_names */
  function Inputs(g: Graph, p: Partition): set<Name>
    requires Resolves(g)
  {
    Rename(g, (set n | n in Used(p) && !IsNone(g, n)) - Produced(p)) + ((Freed(p) - Produced(p)) * g.nodes)
  }

  /** returned_output_names */
  function Returned(g: Graph, p: Partition, unmet: set<Name>): set<Name>
    requires Resolves(g)
  {
    Rename(g, Produced(p) * unmet + (Inputs(g, p) * g.nodes - Freed(p)))
  }

  /** The names still to be provided by earlier partitions. */
  function Demand(g: Graph, p: Partition, unmet: set<Name>): set<Name>
    requires Resolves(g)
  {
    Inputs(g, p) + (unmet - Returned(g, p, unmet))
  }

  function SignatureOf(g: Graph, p: Partition, skip: bool, unmet: set<Name>): Signature
    requires Resolves(g)
  {
    Signature(Inputs(g, p) * g.nodes,
              set n | n in Returned(g, p, unmet) && !IsNone(g, n),
              map n | n in Inputs(g, p) * g.nodes :: n in Freed(p),
              skip,
              Inputs(g, p) * g.constants)
  }

  /** Looking up an output node fails. */
  predicate MissingOutput(g: Graph, p: Partition, unmet: set<Name>)
    requires Resolves(g)
  {
    exists n :: n in Returned(g, p, unmet) && !IsNone(g, n) && n !in g.nodes
  }

  // ---------------------------------------------------------------------------------------------
  // The backward pass
  // ---------------------------------------------------------------------------------------------

  /** unmet_output_names once partitions i, i+1, ... have been processed. */
  function Unmet(g: Graph, parts: seq<Partition>, i: nat): set<Name>
    requires Resolves(g) && i <= |parts|
    decreases |parts| - i
  {
    if i == |parts| then g.outputs else Demand(g, parts[i], Unmet(g, parts, i + 1))
  }

  function Sig(g: Graph, parts: seq<Partition>, skips: seq<bool>, i: nat): Signature
    requires Resolves(g) && i < |parts| == |skips|
  {
    SignatureOf(g, parts[i], skips[i], Unmet(g, parts, i + 1))
  }

  /** The merged outputs, reads, writes and frees of a partition. */
  method Gather(p: Partition) returns (produced: set<Name>, used: set<Name>, freed: set<Name>)
    ensures produced == Produced(p) && used == Used(p) && freed == Freed(p)
  {
    produced, used, freed := {}, {}, {};
    for i := 0 to |p|
      invariant produced == Produced(p[..i]) && used == Used(p[..i]) && freed == Freed(p[..i])
    {
      assert p[..i + 1] == p[..i] + [p[i]];
      MergeOne(p[..i], p[i]);
      produced := produced + p[i].outputs;
      used := used + (p[i].loads + p[i].stores);
      freed := freed + p[i].lastUsage;
    }
    assert p[..|p|] == p;
  }

  lemma MergeOne(p: Partition, x: Node)
    ensures Produced(p + [x]) == Produced(p) + x.outputs
    ensures Used(p + [x]) == Used(p) + (x.loads + x.stores)
    ensures Freed(p + [x]) == Freed(p) + x.lastUsage
  {
    var q := p + [x];
    assert forall i :: 0 <= i < |p| ==> q[i] == p[i];
    assert q[|p|] == x;
    forall n | n in Produced(p) + x.outputs ensures n in Produced(q) {
      if n in Produced(p) { var i :| 0 <= i < |p| && n in p[i].outputs; assert n in q[i].outputs; }
    }
    forall n | n in Used(p) + (x.loads + x.stores) ensures n in Used(q) {
      if n in Used(p) { var i :| 0 <= i < |p| && n in p[i].loads + p[i].stores; assert n in q[i].loads + q[i].stores; }
    }
    forall n | n in Freed(p) + x.lastUsage ensures n in Freed(q) {
      if n in Freed(p) { var i :| 0 <= i < |p| && n in p[i].lastUsage; assert n in q[i].lastUsage; }
    }
  }

  function Reversed<T>(s: seq<T>): (r: seq<T>) {
    seq(|s|, i requires 0 <= i < |s| => s[|s| - 1 - i])
  }

  /** One turn of the loop: the partition's signature and the names it leaves to earlier partitions. */
  method ProcessPartition(g: Graph, p: Partition, skip: bool, unmet: set<Name>)
    returns (missing: bool, signature: Signature, unmet': set<Name>)
    requires Resolves(g)
    ensures missing == MissingOutput(g, p, unmet)
    ensures signature == SignatureOf(g, p, skip, unmet) && unmet' == Demand(g, p, unmet)
  {
    hide Produced, Used, Freed, Real, IsNone;
    var produced, used, freed := Gather(p);
    var returned := produced * unmet;
    var inputs := (set n | n in used && !IsNone(g, n)) - produced;
    inputs := set n | n in inputs :: Real(g, n);
    inputs := inputs + (set n | n in freed - produced && n in g.nodes);
    assert inputs == Inputs(g, p);
    var inputNodes := set n | n in inputs && n in g.nodes;
    var frees := map n | n in inputNodes :: n in freed;
    returned := returned + (set n | n in inputs && n in g.nodes && n !in freed);
    assert returned == produced * unmet + (inputs * g.nodes - freed);
    returned := set n | n in returned :: Real(g, n);
    assert returned == Returned(g, p, unmet);
    var outputs := set n | n in returned && !IsNone(g, n);
    missing := exists n :: n in outputs && n !in g.nodes;
    signature := Signature(inputNodes, outputs, frees, skip, inputs * g.constants);
    unmet' := inputs + (unmet - returned);
  }

  /** The pass fails on some partition. */
  ghost predicate SomeMissing(g: Graph, parts: seq<Partition>)
    requires Resolves(g)
  {
    exists i :: 0 <= i < |parts| && MissingOutput(g, parts[i], Unmet(g, parts, i + 1))
  }

  ghost predicate SignaturesOf(g: Graph, parts: seq<Partition>, skips: seq<bool>, sigs: seq<Signature>)
    requires Resolves(g) && |parts| == |skips|
  {
    |sigs| == |parts| && forall i :: 0 <= i < |parts| ==> sigs[i] == Sig(g, parts, skips, i)
  }

  /** The loop: the signatures of all partitions, or None when an output to be returned has no node. */
  method ProcessBackwards(g: Graph, parts: seq<Partition>, skips: seq<bool>) returns (r: Option<seq<Signature>>)
    requires Resolves(g) && |parts| == |skips|
    ensures r.None? <==> SomeMissing(g, parts)
    ensures r.Some? ==> SignaturesOf(g, parts, skips, r.value)
  {
    hide MissingOutput, SignatureOf, Demand, Resolves;
    var signatures: seq<Signature> := [];
    var unmet := g.outputs;
    var i := |parts|;
    while i > 0
      invariant 0 <= i <= |parts| && unmet == Unmet(g, parts, i) && |signatures| == |parts| - i
      invariant forall k :: i <= k < |parts| ==> signatures[|parts| - 1 - k] == Sig(g, parts, skips, k)
      invariant forall k :: i <= k < |parts| ==> !MissingOutput(g, parts[k], Unmet(g, parts, k + 1))
    {
      i := i - 1;
      var missing, signature, unmet' := ProcessPartition(g, parts[i], skips[i], unmet);
      if missing {
        return None;
      }
      signatures, unmet := signatures + [signature], unmet';
    }
    r := Some(Reversed(signatures));
  }

  /** Zipping two reversed lists pairs their last elements and drops what is left over. */
  function Paired(parts: seq<Partition>, skips: seq<bool>): (n: nat)
    ensures n <= |parts| && n <= |skips| && (n == |parts| || n == |skips|)
  {
    if |parts| <= |skips| then |parts| else |skips|
  }

  /** The last n elements. */
  function Last<T>(s: seq<T>, n: nat): (r: seq<T>)
    requires n <= |s|
    ensures |r| == n && forall i :: 0 <= i < n ==> r[i] == s[|s| - n + i]
  {
    s[|s| - n..]
  }

  /** A signature has an output for which there is no node. */
  ghost predicate LacksNode(g: Graph, s: Signature) {
    exists n :: n in s.outputs && n !in g.nodes
  }

  lemma MissingExactly(g: Graph, parts: seq<Partition>, skips: seq<bool>, i: nat)
    requires Resolves(g) && i < |parts| == |skips|
    ensures MissingOutput(g, parts[i], Unmet(g, parts, i + 1)) <==> LacksNode(g, Sig(g, parts, skips, i))
  {
    hide IsNone, Inputs, Returned, Unmet;
  }

  ghost predicate SomeLacks(g: Graph, parts: seq<Partition>, skips: seq<bool>)
    requires Resolves(g) && |parts| == |skips|
  {
    exists i :: 0 <= i < |parts| && LacksNode(g, Sig(g, parts, skips, i))
  }

  lemma SomeMissingExactly(g: Graph, parts: seq<Partition>, skips: seq<bool>)
    requires Resolves(g) && |parts| == |skips|
    ensures SomeMissing(g, parts) <==> SomeLacks(g, parts, skips)
  {
    hide MissingOutput, Unmet, Sig, Resolves, LacksNode;
    if SomeMissing(g, parts) {
      var i :| 0 <= i < |parts| && MissingOutput(g, parts[i], Unmet(g, parts, i + 1));
      MissingExactly(g, parts, skips, i);
    }
    if SomeLacks(g, parts, skips) {
      var i :| 0 <= i < |parts| && LacksNode(g, Sig(g, parts, skips, i));
      MissingExactly(g, parts, skips, i);
    }
  }

  /** The signatures of the partitions that have a skip flag; a failure if one of them would return a buffer without node. */
  method PartitionSignatures(g: Graph, partitions: seq<Partition>, skipCudagraphs: seq<bool>) returns (r: Option<seq<Signature>>)
    requires Resolves(g)
    ensures var n := Paired(partitions, skipCudagraphs);
            var parts, skips := Last(partitions, n), Last(skipCudagraphs, n);
            && (r.None? <==> SomeLacks(g, parts, skips))
            && (r.Some? ==> SignaturesOf(g, parts, skips, r.value))
  {
    hide SomeMissing, SomeLacks, SignaturesOf, Resolves, Last, Paired;
    var n := Paired(partitions, skipCudagraphs);
    var parts, skips := Last(partitions, n), Last(skipCudagraphs, n);
    r := ProcessBackwards(g, parts, skips);
    SomeMissingExactly(g, parts, skips);
  }
}
