/**
 Why the backward pass is right: run the partitions forward with the signatures it computed, and every partition finds
 its inputs, nothing freed is asked for again, and the graph's outputs are there at the end. Aliases made by in-place
 writes and buffers without layout are part of the statement.
 */
module PartitionSoundness {
  import opened Basics
  import opened GraphPartition

  /** Partition p takes the buffer n from outside. */
  ghost predicate Takes(g: Graph, p: Partition, n: Name)
    requires Resolves(g)
  {
    n in Used(p) && !IsNone(g, n) && n !in Produced(p)
  }

  ghost predicate ProducedFrom(parts: seq<Partition>, i: nat, n: Name) {
    exists j :: i <= j < |parts| && n in Produced(parts[j])
  }

  /** What the scheduler guarantees about names: aliases are outputs, resolve in one step, and stay within the graph. */
  ghost predicate LawfulNames(g: Graph, parts: seq<Partition>) {
    && (forall n :: Real(g, Real(g, n)) == Real(g, n))
    && (forall n :: Real(g, n) != n ==> ProducedFrom(parts, 0, n))
    && (forall n :: n in g.nodes ==> Real(g, n) in g.nodes)
    && (forall i :: 0 <= i < |parts| ==> Produced(parts[i]) <= g.nodes)
  }

  /** ... about aliases: the partition that produces one has the buffer it stands for, made inside or taken from outside. */
  ghost predicate LawfulAliases(g: Graph, parts: seq<Partition>)
    requires Resolves(g)
  {
    forall i, n :: 0 <= i < |parts| && n in Produced(parts[i]) && Real(g, n) != n ==> HasReal(g, parts[i], n)
  }

  ghost predicate HasReal(g: Graph, p: Partition, n: Name)
    requires Resolves(g)
  {
    Real(g, n) in Produced(p) || exists m :: Takes(g, p, m) && Real(g, m) == Real(g, n)
  }

  /** ... about order: one producer each, and a buffer taken from outside was there before. */
  ghost predicate LawfulOrder(g: Graph, parts: seq<Partition>)
    requires Resolves(g)
  {
    && (forall i, j :: 0 <= i < j < |parts| ==> Produced(parts[i]) !! Produced(parts[j]))
    && (forall i, n :: 0 <= i < |parts| && Takes(g, parts[i], n) ==>
          !ProducedFrom(parts, i, Real(g, n)))
  }

  /** ... and about last uses: they name real buffers that nobody needs afterwards. */
  ghost predicate LawfulFrees(g: Graph, parts: seq<Partition>)
    requires Resolves(g)
  {
    && (forall i, n :: 0 <= i < |parts| && n in Freed(parts[i]) ==> Real(g, n) == n)
    && (forall i, n :: 0 <= i < |parts| && n in Freed(parts[i]) && n !in Produced(parts[i]) ==> !ProducedFrom(parts, i, n))
    && (forall i, j, n :: 0 <= i < j < |parts| && n in Freed(parts[i]) ==>
          n !in Freed(parts[j]) && n !in Rename(g, Used(parts[j])))
    && (forall i, n, m :: 0 <= i < |parts| && n in Freed(parts[i]) && m in g.outputs ==> Real(g, m) != n)
  }

  ghost predicate Lawful(g: Graph, parts: seq<Partition>) {
    && Resolves(g) && LawfulNames(g, parts) && LawfulAliases(g, parts) && LawfulOrder(g, parts) && LawfulFrees(g, parts)
    && forall n :: n in g.outputs ==> !IsNone(g, Real(g, n))
  }

  // ---------------------------------------------------------------------------------------------
  // Running forward
  // ---------------------------------------------------------------------------------------------

  /** What a partition has in its hands at its end: what it made and what it was given, except for what it freed. */
  function Held(p: Partition, s: Signature, avail: set<Name>): set<Name> {
    Produced(p) + s.inputs * avail - Freed(p)
  }

  /** After the call: freed inputs are gone, and those outputs are there that the partition has. */
  function After(p: Partition, s: Signature, avail: set<Name>): set<Name> {
    (avail - (set n | n in s.frees && s.frees[n])) + s.outputs * Held(p, s, avail)
  }

  function AllProduced(parts: seq<Partition>): set<Name> {
    set i, n | 0 <= i < |parts| && n in Produced(parts[i]) :: n
  }

  /** Buffers available before partition i runs. The graph's own inputs are the nodes no partition produces. */
  function Avail(g: Graph, parts: seq<Partition>, skips: seq<bool>, i: nat): set<Name>
    requires Resolves(g) && i <= |parts| == |skips|
  {
    if i == 0 then g.nodes - AllProduced(parts)
    else After(parts[i - 1], Sig(g, parts, skips, i - 1), Avail(g, parts, skips, i - 1))
  }

  // ---------------------------------------------------------------------------------------------
  // The invariant
  // ---------------------------------------------------------------------------------------------

  lemma InputFacts(g: Graph, parts: seq<Partition>, i: nat, n: Name)
    requires Lawful(g, parts) && i < |parts| && n in Inputs(g, parts[i])
    ensures Real(g, n) == n && !ProducedFrom(parts, i, n)
    ensures n in Freed(parts[i]) || n in Rename(g, Used(parts[i]))
  {
    hide Produced, Used, Freed, Real, IsNone, ProducedFrom;
    if n !in Freed(parts[i]) || n in Produced(parts[i]) {
      var m :| m in ((set n | n in Used(parts[i]) && !IsNone(g, n)) - Produced(parts[i])) && n == Real(g, m);
      assert Takes(g, parts[i], m);
    }
  }

  /** A name is unmet because the graph returns it or a later partition takes it. */
  lemma {:induction false} UnmetOrigin(g: Graph, parts: seq<Partition>, i: nat, n: Name)
    requires Resolves(g) && i <= |parts| && n in Unmet(g, parts, i)
    ensures n in g.outputs || exists j :: i <= j < |parts| && n in Inputs(g, parts[j])
    decreases |parts| - i
  {
    hide Inputs, Returned, Resolves;
    if i < |parts| && n !in Inputs(g, parts[i]) {
      UnmetOrigin(g, parts, i + 1, n);
    }
  }

  /** An unmet name stands for a buffer that no partition before i has freed. */
  lemma UnmetFacts(g: Graph, parts: seq<Partition>, i: nat, n: Name)
    requires Lawful(g, parts) && i <= |parts| && n in Unmet(g, parts, i)
    ensures forall k :: 0 <= k < i ==> Real(g, n) !in Freed(parts[k])
  {
    hide Produced, Used, Freed, Real, IsNone, ProducedFrom, Inputs, Unmet;
    UnmetOrigin(g, parts, i, n);
    if n !in g.outputs {
      var j :| i <= j < |parts| && n in Inputs(g, parts[j]);
      InputFacts(g, parts, j, n);
    }
  }

  /** Every allocated buffer that is unmet, and that no partition from i on produces, is available before partition i. */
  ghost predicate Met(g: Graph, parts: seq<Partition>, skips: seq<bool>, i: nat)
    requires Resolves(g) && i <= |parts| == |skips|
  {
    forall n :: n in Unmet(g, parts, i) && !ProducedFrom(parts, i, n) && Real(g, n) in g.nodes && !IsNone(g, Real(g, n)) ==>
      Real(g, n) in Avail(g, parts, skips, i)
  }

  /** The inputs of partition i that are allocated are available. */
  ghost predicate FindsAllocated(g: Graph, parts: seq<Partition>, skips: seq<bool>, i: nat)
    requires Resolves(g) && i < |parts| == |skips|
  {
    forall n :: n in Sig(g, parts, skips, i).inputs && !IsNone(g, n) ==> n in Avail(g, parts, skips, i)
  }

  lemma MetAtStart(g: Graph, parts: seq<Partition>, skips: seq<bool>)
    requires Lawful(g, parts) && |parts| == |skips|
    ensures Met(g, parts, skips, 0)
  {
    hide Produced, Unmet, LawfulOrder, LawfulFrees, IsNone;
    forall n | !ProducedFrom(parts, 0, n) ensures n !in AllProduced(parts) {
    }
  }

  /** An output was made by the partition or given to it, and the partition does not free it. */
  lemma OutputIsOwn(g: Graph, parts: seq<Partition>, skips: seq<bool>, i: nat, n: Name)
    requires Lawful(g, parts) && i < |parts| == |skips| && n in Sig(g, parts, skips, i).outputs
    ensures n in Produced(parts[i]) || n in Sig(g, parts, skips, i).inputs
    ensures n !in Freed(parts[i])
  {
    hide Produced, Used, Freed, IsNone, LawfulOrder, LawfulFrees, LawfulAliases, Real, Resolves, Unmet, Takes;
    var p, unmet := parts[i], Unmet(g, parts, i + 1);
    var m :| m in Produced(p) * unmet + (Inputs(g, p) * g.nodes - Freed(p)) && n == Real(g, m);
    if m in Produced(p) * unmet {
      UnmetFacts(g, parts, i + 1, m);
      if Real(g, m) != m { AliasIsOwn(g, parts, i, m); }
    } else {
      InputFacts(g, parts, i, m);
    }
  }

  lemma AliasIsOwn(g: Graph, parts: seq<Partition>, i: nat, m: Name)
    requires Lawful(g, parts) && i < |parts| && m in Produced(parts[i]) && Real(g, m) != m
    ensures Real(g, m) in Produced(parts[i]) || Real(g, m) in Inputs(g, parts[i]) * g.nodes
  {
    hide Produced, Used, Freed, IsNone, LawfulOrder, LawfulFrees, Real, Resolves;
    assert HasReal(g, parts[i], m);
    if Real(g, m) !in Produced(parts[i]) {
      var u :| Takes(g, parts[i], u) && Real(g, u) == Real(g, m);
      assert u in ((set n | n in Used(parts[i]) && !IsNone(g, n)) - Produced(parts[i]));
    }
  }

  /** A partition that finds its allocated inputs hands on all of its outputs, and its signature frees none of them. */
  lemma OutputsAreHandedOn(g: Graph, parts: seq<Partition>, skips: seq<bool>, i: nat)
    requires Lawful(g, parts) && i < |parts| == |skips| && FindsAllocated(g, parts, skips, i)
    ensures var s := Sig(g, parts, skips, i);
            && s.outputs <= Held(parts[i], s, Avail(g, parts, skips, i))
            && (forall n :: n in s.outputs && n in s.frees ==> !s.frees[n])
            && s.outputs <= Avail(g, parts, skips, i + 1)
  {
    hide Produced, Freed, Inputs, Returned, LawfulNames, LawfulOrder, LawfulFrees, LawfulAliases, Unmet, IsNone;
    var s, avail := Sig(g, parts, skips, i), Avail(g, parts, skips, i);
    forall n | n in s.outputs ensures n in Held(parts[i], s, avail) && (n in s.frees ==> !s.frees[n]) {
      OutputIsOwn(g, parts, skips, i, n);
    }
  }

  /** If everything due is available before partition i, so are its allocated inputs. */
  lemma InputsAreMet(g: Graph, parts: seq<Partition>, skips: seq<bool>, i: nat)
    requires Lawful(g, parts) && i < |parts| == |skips| && Met(g, parts, skips, i)
    ensures FindsAllocated(g, parts, skips, i)
  {
    hide Inputs, Returned, Avail, Real, LawfulNames, LawfulOrder, LawfulFrees, LawfulAliases;
    forall n | n in Sig(g, parts, skips, i).inputs && !IsNone(g, n) ensures n in Avail(g, parts, skips, i) {
      InputFacts(g, parts, i, n);
      assert n in Unmet(g, parts, i);
    }
  }

  lemma MetStep(g: Graph, parts: seq<Partition>, skips: seq<bool>, i: nat, n: Name)
    requires Lawful(g, parts) && i < |parts| == |skips| && Met(g, parts, skips, i)
    requires n in Unmet(g, parts, i + 1) && !ProducedFrom(parts, i + 1, n) && Real(g, n) in g.nodes && !IsNone(g, Real(g, n))
    ensures Real(g, n) in Avail(g, parts, skips, i + 1)
  {
    hide Produced, Used, Freed, IsNone, Inputs, LawfulOrder, LawfulFrees, LawfulAliases, Real, Resolves, Held;
    var p, unmet := parts[i], Unmet(g, parts, i + 1);
    UnmetFacts(g, parts, i + 1, n);
    InputsAreMet(g, parts, skips, i);
    OutputsAreHandedOn(g, parts, skips, i);
    if n in Produced(p) {
      assert Real(g, n) in Returned(g, p, unmet);
    } else if n in Returned(g, p, unmet) {
      var m :| m in Produced(p) * unmet + (Inputs(g, p) * g.nodes - Freed(p)) && n == Real(g, m);
      assert Real(g, n) == n;
    } else {
      assert !ProducedFrom(parts, i, n);
      assert n in Unmet(g, parts, i);
      assert Real(g, n) !in Freed(p);
    }
  }

  lemma {:induction false} MetAlways(g: Graph, parts: seq<Partition>, skips: seq<bool>, i: nat)
    requires Lawful(g, parts) && i <= |parts| == |skips|
    ensures Met(g, parts, skips, i)
  {
    hide Unmet, Avail, Real, LawfulNames, LawfulOrder, LawfulFrees, ProducedFrom;
    if i == 0 {
      MetAtStart(g, parts, skips);
    } else {
      MetAlways(g, parts, skips, i - 1);
      forall n | n in Unmet(g, parts, i) && !ProducedFrom(parts, i, n) && Real(g, n) in g.nodes && !IsNone(g, Real(g, n))
        ensures Real(g, n) in Avail(g, parts, skips, i)
      {
        MetStep(g, parts, skips, i - 1, n);
      }
    }
  }

  // ---------------------------------------------------------------------------------------------
  // The results
  // ---------------------------------------------------------------------------------------------

  /** A buffer without layout that partition p gets as an input: a last use it did not make, or what it takes stands for it. */
  ghost predicate Unallocated(g: Graph, p: Partition, n: Name)
    requires Resolves(g)
  {
    && IsNone(g, n) && n in g.nodes
    && ((n in Freed(p) && n !in Produced(p)) || exists m :: Takes(g, p, m) && Real(g, m) == n)
  }

  /**
   Unallocated buffers are never outputs of a signature. They are not meant to be inputs either, but names are filtered
   before they are renamed and before the last uses are added. These are exactly the ones that get through.
   */
  lemma UnallocatedInputExactly(g: Graph, p: Partition, skip: bool, unmet: set<Name>, n: Name)
    requires Resolves(g)
    ensures n in SignatureOf(g, p, skip, unmet).outputs ==> !IsNone(g, n)
    ensures n in SignatureOf(g, p, skip, unmet).inputs && IsNone(g, n) <==> Unallocated(g, p, n)
  {
    hide Produced, Used, Freed, Real, IsNone, Returned;
    var taken := (set n | n in Used(p) && !IsNone(g, n)) - Produced(p);
    assert forall m :: m in taken <==> Takes(g, p, m);
  }

  /** A buffer without layout that some partition makes is never available: nobody hands it on. */
  lemma {:induction false} NeverHandedOn(g: Graph, parts: seq<Partition>, skips: seq<bool>, i: nat, n: Name)
    requires Resolves(g) && i <= |parts| == |skips| && IsNone(g, n) && ProducedFrom(parts, 0, n)
    ensures n !in Avail(g, parts, skips, i)
  {
    hide Produced, Freed, Inputs, Returned, IsNone, Held, Resolves;
    if i == 0 {
      var j :| 0 <= j < |parts| && n in Produced(parts[j]);
    } else {
      NeverHandedOn(g, parts, skips, i - 1, n);
    }
  }

  /** A node that no partition makes is available until it is freed. */
  lemma {:induction false} StaysAvailable(g: Graph, parts: seq<Partition>, skips: seq<bool>, i: nat, n: Name)
    requires Resolves(g) && i <= |parts| == |skips| && n in g.nodes && !ProducedFrom(parts, 0, n)
    requires forall k :: 0 <= k < i ==> n !in Freed(parts[k])
    ensures n in Avail(g, parts, skips, i)
  {
    hide Produced, Freed, Inputs, Returned, IsNone, Held, Resolves;
    if i > 0 { StaysAvailable(g, parts, skips, i - 1, n); }
  }

  /** ... before partition i, an unallocated input is available exactly when no partition makes it. */
  lemma UnallocatedAvailableExactly(g: Graph, parts: seq<Partition>, skips: seq<bool>, i: nat, n: Name)
    requires Lawful(g, parts) && i < |parts| == |skips| && n in Sig(g, parts, skips, i).inputs && IsNone(g, n)
    ensures n in Avail(g, parts, skips, i) <==> !ProducedFrom(parts, 0, n)
  {
    hide Returned, Avail, Real, LawfulNames, LawfulOrder, LawfulFrees, LawfulAliases, IsNone, Freed, ProducedFrom, Inputs;
    if ProducedFrom(parts, 0, n) {
      NeverHandedOn(g, parts, skips, i, n);
    } else {
      assert n in Unmet(g, parts, i);
      UnmetFacts(g, parts, i, n);
      InputFacts(g, parts, i, n);
      StaysAvailable(g, parts, skips, i, n);
    }
  }

  /**
   Forward execution with the computed signatures: partition i finds every input of its signature if and only if none of its
   inputs is a buffer without layout that some partition makes.
   */
  lemma InputsAreAvailableExactly(g: Graph, parts: seq<Partition>, skips: seq<bool>, i: nat)
    requires Lawful(g, parts) && i < |parts| == |skips|
    ensures Sig(g, parts, skips, i).inputs <= Avail(g, parts, skips, i)
       <==> forall n :: Unallocated(g, parts[i], n) ==> !ProducedFrom(parts, 0, n)
  {
    hide SignatureOf, Avail, LawfulNames, LawfulOrder, LawfulFrees, LawfulAliases, IsNone, ProducedFrom, Unallocated;
    MetAlways(g, parts, skips, i);
    InputsAreMet(g, parts, skips, i);
    forall n
      ensures n in Sig(g, parts, skips, i).inputs && IsNone(g, n) <==> Unallocated(g, parts[i], n)
    {
      UnallocatedInputExactly(g, parts[i], skips[i], Unmet(g, parts, i + 1), n);
    }
    forall n | n in Sig(g, parts, skips, i).inputs && IsNone(g, n)
      ensures n in Avail(g, parts, skips, i) <==> !ProducedFrom(parts, 0, n)
    {
      UnallocatedAvailableExactly(g, parts, skips, i, n);
    }
  }

  /** So a partition whose inputs are all allocated finds all of them. */
  lemma InputsAreAvailable(g: Graph, parts: seq<Partition>, skips: seq<bool>, i: nat)
    requires Lawful(g, parts) && i < |parts| == |skips| && forall n :: !Unallocated(g, parts[i], n)
    ensures Sig(g, parts, skips, i).inputs <= Avail(g, parts, skips, i)
  {
    hide Sig, Avail, Lawful, ProducedFrom, Unallocated;
    InputsAreAvailableExactly(g, parts, skips, i);
  }

  /** In any case it has every output of its signature to hand on, and frees none of them. */
  lemma OutputsAreHeld(g: Graph, parts: seq<Partition>, skips: seq<bool>, i: nat)
    requires Lawful(g, parts) && i < |parts| == |skips|
    ensures var s := Sig(g, parts, skips, i);
            && s.outputs <= Held(parts[i], s, Avail(g, parts, skips, i))
            && (forall n :: n in s.outputs && n in s.frees ==> !s.frees[n])
  {
    hide *;
    MetAlways(g, parts, skips, i);
    InputsAreMet(g, parts, skips, i);
    OutputsAreHandedOn(g, parts, skips, i);
  }

  /** ... and everything the partition uses is among them, produced inside, or outside the graph's nodes. */
  lemma UsesAreCovered(g: Graph, parts: seq<Partition>, skips: seq<bool>, i: nat, x: nat, n: Name)
    requires Resolves(g) && i < |parts| == |skips| && x < |parts[i]|
    requires (n in parts[i][x].loads || n in parts[i][x].stores) && !IsNone(g, n)
    ensures n in Produced(parts[i]) || Real(g, n) !in g.nodes || Real(g, n) in Sig(g, parts, skips, i).inputs
  {
    hide Produced, Freed, Real, IsNone, Returned;
    assert n in parts[i][x].loads + parts[i][x].stores;
    if n !in Produced(parts[i]) {
      assert n in ((set n | n in Used(parts[i]) && !IsNone(g, n)) - Produced(parts[i]));
    }
  }

  /** ... and after the last partition every output of the graph is available, under its real name. */
  lemma OutputsAreAvailable(g: Graph, parts: seq<Partition>, skips: seq<bool>, n: Name)
    requires Lawful(g, parts) && |parts| == |skips| && n in g.outputs && Real(g, n) in g.nodes
    ensures Real(g, n) in Avail(g, parts, skips, |parts|)
  {
    hide Avail, LawfulNames, LawfulOrder, LawfulFrees;
    MetAlways(g, parts, skips, |parts|);
  }

  /** No output lookup fails, so the pass returns signatures. */
  lemma NoMissingOutput(g: Graph, parts: seq<Partition>, i: nat)
    requires Lawful(g, parts) && i < |parts|
    ensures !MissingOutput(g, parts[i], Unmet(g, parts, i + 1))
  {
    hide Produced, Used, Freed, Real, IsNone, Inputs, Unmet, LawfulOrder, LawfulFrees;
    forall n | n in Returned(g, parts[i], Unmet(g, parts, i + 1)) ensures n in g.nodes {
      var m :| m in Produced(parts[i]) * Unmet(g, parts, i + 1) + (Inputs(g, parts[i]) * g.nodes - Freed(parts[i])) && n == Real(g, m);
    }
  }

  // ---------------------------------------------------------------------------------------------
  // What is freed is gone
  // ---------------------------------------------------------------------------------------------

  lemma AvailAtStart(g: Graph, parts: seq<Partition>, skips: seq<bool>, n: Name)
    requires Resolves(g) && |parts| == |skips| && n in Avail(g, parts, skips, 0)
    ensures n in g.nodes && forall k :: 0 <= k < |parts| ==> n !in Produced(parts[k])
  {
    hide Produced, Resolves;
  }

  /** A partition makes available only what was available or what it made. */
  lemma NothingFromNowhere(g: Graph, parts: seq<Partition>, skips: seq<bool>, i: nat)
    requires Resolves(g) && i < |parts| == |skips|
    ensures Avail(g, parts, skips, i + 1) <= Avail(g, parts, skips, i) + Produced(parts[i])
  {
    hide Produced, Freed, Sig, Resolves;
  }

  /** A buffer is not available before the partition that makes it has run. */
  lemma {:induction false} NotBeforeMade(g: Graph, parts: seq<Partition>, skips: seq<bool>, j: nat, k: nat, n: Name)
    requires Lawful(g, parts) && j <= k < |parts| == |skips| && n in Produced(parts[k])
    ensures n !in Avail(g, parts, skips, j)
  {
    hide Produced, Avail, LawfulNames, LawfulAliases, LawfulFrees, Resolves, IsNone;
    if j == 0 {
      if n in Avail(g, parts, skips, 0) { AvailAtStart(g, parts, skips, n); }
    } else {
      NotBeforeMade(g, parts, skips, j - 1, k, n);
      NothingFromNowhere(g, parts, skips, j - 1);
      assert Produced(parts[j - 1]) !! Produced(parts[k]);
    }
  }

  lemma {:induction false} OnlyNodes(g: Graph, parts: seq<Partition>, skips: seq<bool>, j: nat)
    requires Lawful(g, parts) && j <= |parts| == |skips|
    ensures Avail(g, parts, skips, j) <= g.nodes
  {
    hide Produced, Avail, Real, LawfulOrder, LawfulAliases, LawfulFrees, Resolves, IsNone;
    if j == 0 {
      forall n | n in Avail(g, parts, skips, 0) ensures n in g.nodes { AvailAtStart(g, parts, skips, n); }
    } else {
      OnlyNodes(g, parts, skips, j - 1);
      NothingFromNowhere(g, parts, skips, j - 1);
    }
  }

  /** What is gone and not made again stays gone. */
  lemma {:induction false} StaysGone(g: Graph, parts: seq<Partition>, skips: seq<bool>, i: nat, j: nat, n: Name)
    requires Resolves(g) && i <= j <= |parts| == |skips| && n !in Avail(g, parts, skips, i)
    requires forall k :: i <= k < |parts| ==> n !in Produced(parts[k])
    ensures n !in Avail(g, parts, skips, j)
  {
    hide Produced, Avail, Resolves;
    if j > i {
      StaysGone(g, parts, skips, i, j - 1, n);
      NothingFromNowhere(g, parts, skips, j - 1);
    }
  }

  lemma GoneAtOnce(g: Graph, parts: seq<Partition>, skips: seq<bool>, i: nat, n: Name)
    requires Lawful(g, parts) && i < |parts| == |skips| && n in Freed(parts[i])
    ensures n !in Avail(g, parts, skips, i + 1)
  {
    hide Produced, Used, Freed, Returned, LawfulNames, LawfulOrder, LawfulAliases, LawfulFrees, Resolves, IsNone, Real;
    if n in Produced(parts[i]) {
      NotBeforeMade(g, parts, skips, i, i, n);
    } else {
      OnlyNodes(g, parts, skips, i);
      if n in g.nodes {
        assert n in Inputs(g, parts[i]) * g.nodes;
      }
    }
  }

  lemma NotMadeAgain(g: Graph, parts: seq<Partition>, i: nat, k: nat, n: Name)
    requires Lawful(g, parts) && i < k < |parts| && n in Freed(parts[i])
    ensures n !in Produced(parts[k])
  {
    hide Produced, Freed, LawfulNames, LawfulAliases, Resolves, IsNone, Real;
    if n in Produced(parts[i]) {
      assert Produced(parts[i]) !! Produced(parts[k]);
    } else {
      assert !ProducedFrom(parts, i, n);
    }
  }

  /** The other half of liveness: a buffer that some node of partition i uses for the last time is available to nobody later. */
  lemma FreedIsGone(g: Graph, parts: seq<Partition>, skips: seq<bool>, i: nat, x: nat, n: Name, j: nat)
    requires Lawful(g, parts) && i < j <= |parts| == |skips| && x < |parts[i]| && n in parts[i][x].lastUsage
    ensures n !in Avail(g, parts, skips, j)
  {
    hide Avail, Produced, LawfulNames, LawfulOrder, LawfulAliases, LawfulFrees, Resolves, IsNone, Real;
    assert n in Freed(parts[i]);
    GoneAtOnce(g, parts, skips, i, n);
    forall k | i + 1 <= k < |parts| ensures n !in Produced(parts[k]) {
      NotMadeAgain(g, parts, i, k, n);
    }
    StaysGone(g, parts, skips, i + 1, j, n);
  }

  // ---------------------------------------------------------------------------------------------
  // The signatures, without the backward pass
  // ---------------------------------------------------------------------------------------------

  ghost predicate Makes(p: Partition, n: Name) { exists x :: 0 <= x < |p| && n in p[x].outputs }

  ghost predicate Touches(p: Partition, n: Name) { exists x :: 0 <= x < |p| && (n in p[x].loads || n in p[x].stores) }

  ghost predicate LastUses(p: Partition, n: Name) { exists x :: 0 <= x < |p| && n in p[x].lastUsage }

  /** Partition p needs the buffer n from outside: it reads or writes it under some name, or is the last to use it. */
  ghost predicate Needs(g: Graph, p: Partition, n: Name)
    requires Resolves(g)
  {
    || (exists m :: Touches(p, m) && !IsNone(g, m) && !Makes(p, m) && Real(g, m) == n)
    || (n in g.nodes && LastUses(p, n) && !Makes(p, n))
  }

  lemma NamesExactly(p: Partition, n: Name)
    ensures n in Produced(p) <==> Makes(p, n)
    ensures n in Used(p) <==> Touches(p, n)
    ensures n in Freed(p) <==> LastUses(p, n)
  {
    if x :| 0 <= x < |p| && (n in p[x].loads || n in p[x].stores) {
      assert n in p[x].loads + p[x].stores;
    }
  }

  lemma NeedsExactly(g: Graph, p: Partition, n: Name)
    requires Resolves(g)
    ensures n in Inputs(g, p) <==> Needs(g, p, n)
  {
    hide Produced, Used, Freed, Real, IsNone, Makes, Touches, LastUses;
    forall m ensures (m in Produced(p) <==> Makes(p, m)) && (m in Used(p) <==> Touches(p, m)) && (m in Freed(p) <==> LastUses(p, m)) {
      NamesExactly(p, m);
    }
    var taken := (set n | n in Used(p) && !IsNone(g, n)) - Produced(p);
    assert forall m :: m in taken <==> Touches(p, m) && !IsNone(g, m) && !Makes(p, m);
  }

  lemma NotReturned(g: Graph, parts: seq<Partition>, i: nat, m: nat, n: Name)
    requires Lawful(g, parts) && i < m < |parts| && n in Produced(parts[i]) && n !in Inputs(g, parts[m])
    ensures n !in Returned(g, parts[m], Unmet(g, parts, m + 1))
  {
    hide Produced, Used, Freed, IsNone, Inputs, LawfulNames, LawfulFrees, LawfulAliases, Real, Resolves, Unmet;
    var p, unmet := parts[m], Unmet(g, parts, m + 1);
    assert Produced(parts[i]) !! Produced(p);
    if n in Returned(g, p, unmet) {
      var o :| o in Produced(p) * unmet + (Inputs(g, p) * g.nodes - Freed(p)) && n == Real(g, o);
      if o in Produced(p) {
        if Real(g, o) != o { AliasIsOwn(g, parts, m, o); }
      } else {
        InputFacts(g, parts, m, o);
      }
    }
  }

  /** A name made by partition i is unmet later exactly when the graph returns it or a later partition needs it. */
  lemma {:induction false} UnmetExactly(g: Graph, parts: seq<Partition>, i: nat, m: nat, n: Name)
    requires Lawful(g, parts) && i < m <= |parts| && n in Produced(parts[i])
    ensures n in Unmet(g, parts, m) <==> n in g.outputs || exists j :: m <= j < |parts| && n in Inputs(g, parts[j])
    decreases |parts| - m
  {
    hide Produced, Inputs, Returned, LawfulNames, LawfulOrder, LawfulAliases, LawfulFrees, Resolves, IsNone, Real;
    if m < |parts| && n !in Inputs(g, parts[m]) {
      UnmetExactly(g, parts, i, m + 1, n);
      NotReturned(g, parts, i, m, n);
    }
  }

  /** Partition i hands on what it made under the name m if the graph returns m or a later partition needs it. */
  ghost predicate HandsOn(g: Graph, parts: seq<Partition>, i: nat, m: Name)
    requires Resolves(g) && i < |parts|
  {
    Makes(parts[i], m) && (m in g.outputs || exists j :: i < j < |parts| && Needs(g, parts[j], m))
  }

  lemma HandsOnExactly(g: Graph, parts: seq<Partition>, i: nat, m: Name)
    requires Lawful(g, parts) && i < |parts|
    ensures m in Produced(parts[i]) * Unmet(g, parts, i + 1) <==> HandsOn(g, parts, i, m)
  {
    hide Produced, Inputs, Unmet, LawfulNames, LawfulOrder, LawfulAliases, LawfulFrees, Resolves, Makes, Needs, IsNone, Real;
    NamesExactly(parts[i], m);
    if m in Produced(parts[i]) { UnmetExactly(g, parts, i, i + 1, m); }
    forall j | 0 <= j < |parts| ensures m in Inputs(g, parts[j]) <==> Needs(g, parts[j], m) {
      NeedsExactly(g, parts[j], m);
    }
  }

  /**
   Each field of a signature, told from the nodes alone. The inputs are the buffers the partition needs; an input is freed
   exactly if some node of the partition uses it for the last time. In a lawful graph the outputs are the allocated buffers
   among the inputs that are not freed and the ones made here that the graph returns or a later partition needs.
   */
  lemma SignatureExactly(g: Graph, parts: seq<Partition>, skips: seq<bool>, i: nat, n: Name)
    requires Resolves(g) && i < |parts| == |skips|
    ensures var p, s := parts[i], Sig(g, parts, skips, i);
      && (n in s.inputs <==> n in g.nodes && Needs(g, p, n))
      && (n in s.frees <==> n in s.inputs)
      && (n in s.frees ==> (s.frees[n] <==> LastUses(p, n)))
      && (n in s.constants <==> n in g.constants && Needs(g, p, n))
      && s.skipCudagraph == skips[i]
      && (Lawful(g, parts) ==>
            (n in s.outputs <==> !IsNone(g, n) && ((n in s.inputs && !LastUses(p, n)) || exists m :: HandsOn(g, parts, i, m) && Real(g, m) == n)))
  {
    hide Produced, Used, Freed, Inputs, Real, IsNone, Makes, LastUses, Needs, Unmet, HandsOn, LawfulNames, LawfulOrder, LawfulAliases,
      LawfulFrees, Resolves;
    NeedsExactly(g, parts[i], n);
    NamesExactly(parts[i], n);
    if Lawful(g, parts) { ReturnedExactly(g, parts, i, n); }
  }

  lemma ReturnedExactly(g: Graph, parts: seq<Partition>, i: nat, n: Name)
    requires Lawful(g, parts) && i < |parts|
    ensures n in Returned(g, parts[i], Unmet(g, parts, i + 1)) <==>
      || (n in Inputs(g, parts[i]) && n in g.nodes && n !in Freed(parts[i]))
      || exists m :: HandsOn(g, parts, i, m) && Real(g, m) == n
  {
    hide Produced, Used, Freed, Inputs, Real, IsNone, Unmet, HandsOn, LawfulNames, LawfulOrder, LawfulAliases, LawfulFrees, Resolves;
    var p, unmet := parts[i], Unmet(g, parts, i + 1);
    forall m ensures m in Produced(p) * unmet <==> HandsOn(g, parts, i, m) {
      HandsOnExactly(g, parts, i, m);
    }
    forall m | m in Inputs(g, p) ensures Real(g, m) == m {
      InputFacts(g, parts, i, m);
    }
  }

  // ---------------------------------------------------------------------------------------------
  // Names the pass leaves over
  // ---------------------------------------------------------------------------------------------

  lemma ReturnedIsReal(g: Graph, parts: seq<Partition>, p: Partition, unmet: set<Name>, n: Name)
    requires Resolves(g) && LawfulNames(g, parts) && n in Returned(g, p, unmet)
    ensures Real(g, n) == n
  {
    hide Produced, Used, Freed, Real, IsNone, Inputs;
    var m :| m in Produced(p) * unmet + (Inputs(g, p) * g.nodes - Freed(p)) && n == Real(g, m);
  }

  /** An alias is never taken and never returned under its own name: it stays unmet exactly when the graph returns it. */
  lemma {:induction false} AliasStaysUnmet(g: Graph, parts: seq<Partition>, i: nat, n: Name)
    requires Lawful(g, parts) && i <= |parts| && Real(g, n) != n
    ensures n in Unmet(g, parts, i) <==> n in g.outputs
    decreases |parts| - i
  {
    hide Produced, Used, Freed, Real, IsNone, Inputs, Returned, LawfulOrder, LawfulFrees;
    if i < |parts| {
      AliasStaysUnmet(g, parts, i + 1, n);
      if n in Inputs(g, parts[i]) {
        InputFacts(g, parts, i, n);
      }
      if n in Returned(g, parts[i], Unmet(g, parts, i + 1)) {
        ReturnedIsReal(g, parts, parts[i], Unmet(g, parts, i + 1), n);
      }
    }
  }

  /** A buffer's own producer settles every demand for it. */
  lemma {:induction false} ProducerSettles(g: Graph, parts: seq<Partition>, i: nat, k: nat, n: Name)
    requires Lawful(g, parts) && i <= k < |parts| && n in Produced(parts[k]) && Real(g, n) == n
    ensures n !in Unmet(g, parts, i)
    decreases k - i
  {
    hide Produced, Used, Freed, IsNone, Inputs, LawfulNames, LawfulOrder, LawfulFrees, Resolves;
    var unmet := Unmet(g, parts, i + 1);
    assert ProducedFrom(parts, i, n);
    if n in Inputs(g, parts[i]) {
      InputFacts(g, parts, i, n);
    }
    if i == k {
      if n in unmet {
        assert n in Produced(parts[i]) * unmet;
        assert Real(g, n) in Returned(g, parts[i], unmet);
      }
    } else {
      ProducerSettles(g, parts, i + 1, k, n);
    }
  }

  /**
   What the pass leaves unmet in the end. A produced name is left over exactly when the graph returns it and it is an
   alias of another buffer; with no aliases among the outputs, only names no partition produces are left.
   */
  lemma LeftOverExactly(g: Graph, parts: seq<Partition>, n: Name)
    requires Lawful(g, parts) && ProducedFrom(parts, 0, n)
    ensures n in Unmet(g, parts, 0) <==> n in g.outputs && Real(g, n) != n
  {
    hide Produced, Used, Freed, IsNone, Inputs, LawfulNames, LawfulOrder, LawfulFrees, Resolves, Unmet, Real;
    if Real(g, n) != n {
      AliasStaysUnmet(g, parts, 0, n);
    } else {
      var k :| 0 <= k < |parts| && n in Produced(parts[k]);
      ProducerSettles(g, parts, 0, k, n);
    }
  }

  // ---------------------------------------------------------------------------------------------
  // A buffer without layout as an input
  // ---------------------------------------------------------------------------------------------

  function NoneGraph(): Graph {
    Graph({"b"}, map["b" := Buffer(true, false)], map[], {}, {})
  }

  function MakesB(): Partition { [Node({"b"}, {}, {}, {})] }

  function ReadsB(): Partition { [Node({}, {"b"}, {}, {"b"})] }

  lemma NamesOfNoneGraph()
    ensures Produced(MakesB()) == {"b"} && Used(MakesB()) == {} && Freed(MakesB()) == {}
    ensures Produced(ReadsB()) == {} && Used(ReadsB()) == {"b"} && Freed(ReadsB()) == {"b"}
    ensures Resolves(NoneGraph()) && IsNone(NoneGraph(), "b") && forall n :: Real(NoneGraph(), n) == n
  {
    assert MakesB()[0].outputs == {"b"} && ReadsB()[0].loads + ReadsB()[0].stores == {"b"} && ReadsB()[0].lastUsage == {"b"};
  }

  lemma NoneGraphIsLawful()
    ensures Lawful(NoneGraph(), [MakesB(), ReadsB()])
  {
    hide Produced, Used, Freed, Real, IsNone, Resolves, MakesB, ReadsB;
    NamesOfNoneGraph();
    var g, parts := NoneGraph(), [MakesB(), ReadsB()];
    assert forall i, n :: 0 <= i < |parts| && Takes(g, parts[i], n) ==> i == 1 && n == "b";
  }

  /** One partition makes a buffer without layout, the next reads it for the last time: it gets it as an input it cannot find. */
  lemma UnallocatedInputHappens()
    ensures var g, parts := NoneGraph(), [MakesB(), ReadsB()];
            && Lawful(g, parts) && "b" in Used(parts[1]) && IsNone(g, "b")
            && "b" in Sig(g, parts, [false, false], 1).inputs && "b" !in Avail(g, parts, [false, false], 1)
  {
    hide Produced, Used, Freed, Real, IsNone, MakesB, ReadsB, Returned, Avail, Lawful;
    var g, parts, skips := NoneGraph(), [MakesB(), ReadsB()], [false, false];
    NamesOfNoneGraph();
    NoneGraphIsLawful();
    assert Unallocated(g, parts[1], "b");
    UnallocatedInputExactly(g, parts[1], false, Unmet(g, parts, 2), "b");
    assert "b" in Produced(parts[0]);
    assert ProducedFrom(parts, 0, "b");
    NeverHandedOn(g, parts, skips, 1, "b");
  }

  // ---------------------------------------------------------------------------------------------
  // An alias that is left over
  // ---------------------------------------------------------------------------------------------

  /** Buffer "a" is written in place under the name "n", which the graph returns. */
  function AliasGraph(): Graph {
    Graph({"a", "n"}, map["a" := Buffer(false, false), "n" := Buffer(true, true)], map["n" := "a"], {"n"}, {})
  }

  function MakesA(): Partition { [Node({"a"}, {}, {}, {})] }

  function WritesA(): Partition { [Node({"n"}, {"a"}, {"a"}, {})] }

  lemma NamesOfParts()
    ensures Produced(MakesA()) == {"a"} && Used(MakesA()) == {} && Freed(MakesA()) == {}
    ensures Produced(WritesA()) == {"n"} && Used(WritesA()) == {"a"} && Freed(WritesA()) == {}
  {
    assert MakesA()[0].outputs == {"a"} && WritesA()[0].outputs == {"n"} && "a" in WritesA()[0].loads + WritesA()[0].stores;
  }

  lemma AliasGraphResolves()
    ensures var g := AliasGraph();
            Resolves(g) && !IsNone(g, "a") && !IsNone(g, "n") && Real(g, "n") == "a" && forall n :: n != "n" ==> Real(g, n) == n
  {
    var g := AliasGraph();
    assert "a" != "n";
    assert !FollowsMutation(g, "a") && FollowsMutation(g, "n");
    assert LayoutOf(g, "a", {"n"}) == Some(false);
    assert LayoutOf(g, "n", {}) == LayoutOf(g, "a", {} + {"n"});
    forall n ensures LayoutOf(g, n, {}).Some? {
      if n != "n" { assert !FollowsMutation(g, n); }
    }
  }

  lemma AliasGraphNames()
    ensures LawfulNames(AliasGraph(), [MakesA(), WritesA()])
  {
    hide Produced, Used, Freed, IsNone, Real, MakesA, WritesA;
    var g, parts := AliasGraph(), [MakesA(), WritesA()];
    NamesOfParts();
    AliasGraphResolves();
    assert "n" in Produced(parts[1]);
    assert ProducedFrom(parts, 0, "n");
  }

  lemma AliasGraphOrder()
    ensures var g, parts := AliasGraph(), [MakesA(), WritesA()];
            Resolves(g) && LawfulAliases(g, parts) && LawfulOrder(g, parts)
  {
    hide Produced, Used, Freed, IsNone, Real, MakesA, WritesA, Resolves, AliasGraph;
    var g, parts := AliasGraph(), [MakesA(), WritesA()];
    NamesOfParts();
    AliasGraphResolves();
    assert Takes(g, parts[1], "a");
    assert HasReal(g, parts[1], "n");
    forall i, n | 0 <= i < |parts| && Takes(g, parts[i], n)
      ensures !ProducedFrom(parts, i, Real(g, n))
    {
      assert i == 1 && n == "a";
    }
  }

  lemma AliasGraphFrees()
    ensures var g, parts := AliasGraph(), [MakesA(), WritesA()];
            Resolves(g) && LawfulFrees(g, parts) && forall n :: n in g.outputs ==> !IsNone(g, Real(g, n))
  {
    hide Produced, Used, Freed, IsNone, Real, MakesA, WritesA, Resolves;
    NamesOfParts();
    AliasGraphResolves();
  }

  lemma AliasGraphIsLawful()
    ensures Lawful(AliasGraph(), [MakesA(), WritesA()])
  {
    hide LawfulNames, LawfulAliases, LawfulOrder, LawfulFrees, AliasGraph, MakesA, WritesA, Resolves, IsNone, Real;
    AliasGraphNames();
    AliasGraphOrder();
    AliasGraphFrees();
  }

  /** Its alias stays unmet, although a partition produces it. */
  lemma LeftOverHappens()
    ensures var g, parts := AliasGraph(), [MakesA(), WritesA()];
            Lawful(g, parts) && ProducedFrom(parts, 0, "n") && "n" in Unmet(g, parts, 0)
  {
    hide Unmet, Lawful, Real, AliasGraph, MakesA, WritesA;
    var g, parts := AliasGraph(), [MakesA(), WritesA()];
    AliasGraphIsLawful();
    AliasGraphResolves();
    NamesOfParts();
    assert "n" in Produced(parts[1]);
    OutputOfAliasGraph();
    LeftOverExactly(g, parts, "n");
  }

  lemma OutputOfAliasGraph()
    ensures "n" in AliasGraph().outputs
  {
  }
}
