/**
 The memory-planning pass over the lines of generated wrapper code.

 Lines that allocate or free a buffer are planned against a planning state. Each subgraph has a state of its own. The
 pass keeps the states on a stack while it walks a flat list of lines; what it means is the recursion over the nested
 subgraphs.
 */
module MemoryPlan {

  /** A planning line names its buffer; `L` is the content of any other line. */
  datatype Line<L> = Plan(name: string, content: L) | Enter(content: L) | Exit(content: L) | Other(content: L)

  /** What planning one line does: the planned line and the new state. Planning states start as `initial`. */
  datatype Planner<!S, !L> = Planner(initial: S, plan: (Line<L>, S) -> (Line<L>, S))

  datatype Result<+T> = Ok(value: T) | IndexError | AssertionError

  // ---------------------------------------------------------------------------------------------
  // The pass
  // ---------------------------------------------------------------------------------------------

  predicate Pointless<L>(line: Line<L>, outputs: set<string>) {
    line.Plan? && line.name !in outputs
  }

  /** Trailing planning lines of buffers that are not outputs are dropped. */
  function Trim<L>(lines: seq<Line<L>>, outputs: set<string>): seq<Line<L>> {
    if lines != [] && Pointless(lines[|lines| - 1], outputs) then Trim(lines[..|lines| - 1], outputs) else lines
  }

  datatype Machine<S, L> = Machine(lines: seq<Line<L>>, stack: seq<S>, past: seq<S>)

  /** One line against the stack of planning states; None when the stack has run empty. */
  function Step<S, L>(pl: Planner<S, L>, m: Machine<S, L>, line: Line<L>): Result<Machine<S, L>> {
    match line
    case Plan(_, _) =>
      if m.stack == [] then IndexError
      else
        var top := |m.stack| - 1;
        var (line', state') := pl.plan(line, m.stack[top]);
        Ok(Machine(m.lines + [line'], m.stack[..top] + [state'], m.past))
    case Enter(_) => Ok(Machine(m.lines + [line], m.stack + [pl.initial], m.past))
    case Exit(_) =>
      if m.stack == [] then IndexError
      else Ok(Machine(m.lines + [line], m.stack[..|m.stack| - 1], m.past + [m.stack[|m.stack| - 1]]))
    case Other(_) => Ok(Machine(m.lines + [line], m.stack, m.past))
  }

  function Run<S, L>(pl: Planner<S, L>, m: Machine<S, L>, lines: seq<Line<L>>): Result<Machine<S, L>>
    decreases |lines|
  {
    if lines == [] then Ok(m)
    else
      match Step(pl, m, lines[0])
      case Ok(m') => Run(pl, m', lines[1..])
      case IndexError => IndexError
      case AssertionError => AssertionError
  }

  /** The end of the pass: the root state is popped, and the stack must be empty then. */
  function Close<S, L>(m: Machine<S, L>): Result<(seq<Line<L>>, seq<S>)> {
    if m.stack == [] then IndexError
    else if |m.stack| > 1 then AssertionError
    else Ok((m.lines, m.past + [m.stack[0]]))
  }

  function Pass<S, L>(pl: Planner<S, L>, lines: seq<Line<L>>, outputs: set<string>): Result<(seq<Line<L>>, seq<S>)> {
    match Run(pl, Machine([], [pl.initial], []), Trim(lines, outputs))
    case Ok(m) => Close(m)
    case IndexError => IndexError
    case AssertionError => AssertionError
  }

  /** The lines as the pass leaves them, also when it stops at a line it cannot handle. */
  function LinesAfter<S, L>(pl: Planner<S, L>, m: Machine<S, L>, lines: seq<Line<L>>): seq<Line<L>>
    decreases |lines|
  {
    if lines == [] then m.lines
    else if Step(pl, m, lines[0]).Ok? then LinesAfter(pl, Step(pl, m, lines[0]).value, lines[1..])
    else m.lines + lines
  }

  class Wrapper<L> {
    var lines: seq<Line<L>>

    constructor (lines: seq<Line<L>>)
      ensures this.lines == lines
    {
      this.lines := lines;
    }

    method DropPointless(outputs: set<string>)
      modifies this
      ensures lines == Trim(old(lines), outputs)
    {
      while lines != [] && Pointless(lines[|lines| - 1], outputs)
        invariant Trim(lines, outputs) == Trim(old(lines), outputs)
        decreases |lines|
      {
        lines := lines[..|lines| - 1];
      }
    }

    /** What the loop body does with one line. */
    static method PlanLine<S>(pl: Planner<S, L>, line: Line<L>, stack: seq<S>, past: seq<S>, ghost before: seq<Line<L>>)
      returns (ok: bool, line': Line<L>, stack': seq<S>, past': seq<S>)
      ensures Step(pl, Machine(before, stack, past), line) == if ok then Ok(Machine(before + [line'], stack', past')) else IndexError
    {
      ok, line', stack', past' := true, line, stack, past;
      match line {
        case Plan(_, _) =>
          if stack == [] { ok := false; return; }
          var top := |stack| - 1;
          var (planned, state) := pl.plan(line, stack[top]);
          line', stack' := planned, stack[..top] + [state];
        case Enter(_) =>
          stack' := stack + [pl.initial];
        case Exit(_) =>
          if stack == [] { ok := false; return; }
          past', stack' := past + [stack[|stack| - 1]], stack[..|stack| - 1];
        case Other(_) =>
      }
    }

    /** The whole pass, in place. The result is the list of finished planning states, or the exception raised. */
    method MemoryPlanReuse<S>(pl: Planner<S, L>, outputs: set<string>) returns (r: Result<seq<S>>)
      modifies this
      ensures match Pass(pl, old(lines), outputs)
              case Ok((planned, past)) => r == Ok(past) && lines == planned
              case IndexError => r == IndexError
              case AssertionError => r == AssertionError
      ensures lines == LinesAfter(pl, Machine([], [pl.initial], []), Trim(old(lines), outputs))
    {
      hide Step, Trim;
      DropPointless(outputs);
      var stack, past := [pl.initial], [];
      ghost var trimmed := lines;
      ghost var start := Machine([], [pl.initial], []);
      assert trimmed[0..] == trimmed;
      for i := 0 to |lines|
        invariant |lines| == |trimmed| && lines[i..] == trimmed[i..]
        invariant Run(pl, start, trimmed) == Run(pl, Machine(lines[..i], stack, past), trimmed[i..])
        invariant LinesAfter(pl, start, trimmed) == LinesAfter(pl, Machine(lines[..i], stack, past), trimmed[i..])
      {
        assert lines[i] == trimmed[i..][0] && trimmed[i..][1..] == trimmed[i + 1..];
        ghost var before := lines[..i];
        var ok, line', stack', past' := PlanLine(pl, lines[i], stack, past, before);
        if !ok {
          assert lines == before + lines[i..];
          return IndexError;
        }
        lines := lines[i := line'];
        stack, past := stack', past';
        assert lines[..i + 1] == before + [line'];
      }
      assert lines[..|lines|] == lines;
      if stack == [] { return IndexError; }
      past := past + [stack[|stack| - 1]];
      stack := stack[..|stack| - 1];
      if |stack| != 0 { return AssertionError; }
      return Ok(past);
    }
  }

  // ---------------------------------------------------------------------------------------------
  // Nesting
  // ---------------------------------------------------------------------------------------------

  function Delta<L>(line: Line<L>): int {
    match line case Enter(_) => 1 case Exit(_) => -1 case _ => 0
  }

  /** Subgraphs entered and not yet left after the first n lines. */
  function Depth<L>(lines: seq<Line<L>>, n: nat): int
    requires n <= |lines|
  {
    if n == 0 then 0 else Depth(lines, n - 1) + Delta(lines[n - 1])
  }

  ghost predicate Balanced<L>(lines: seq<Line<L>>) {
    && (forall n :: 0 <= n <= |lines| ==> Depth(lines, n) >= 0)
    && Depth(lines, |lines|) == 0
  }

  /** Lines as they are nested: a line of its own, or a subgraph with its body. */
  datatype Tree<L> = Empty | Leaf(line: Line<L>, next: Tree<L>) | Sub(enter: L, body: Tree<L>, exit: L, next: Tree<L>)

  function Flatten<L>(t: Tree<L>): seq<Line<L>> {
    match t
    case Empty => []
    case Leaf(line, next) => [line] + Flatten(next)
    case Sub(enter, body, exit, next) => [Enter(enter)] + Flatten(body) + [Exit(exit)] + Flatten(next)
  }

  /** Leaves are lines that neither enter nor leave a subgraph. */
  predicate Proper<L>(t: Tree<L>) {
    match t
    case Empty => true
    case Leaf(line, next) => !line.Enter? && !line.Exit? && Proper(next)
    case Sub(_, body, _, next) => Proper(body) && Proper(next)
  }

  datatype Planned<S, L> = Planned(tree: Tree<L>, state: S, past: seq<S>)

  /** Planning by nesting: every subgraph is planned from a fresh state of its own, seen by no other subgraph. */
  function PlanTree<S, L>(pl: Planner<S, L>, t: Tree<L>, s: S): Planned<S, L> {
    match t
    case Empty => Planned(Empty, s, [])
    case Leaf(line, next) =>
      if line.Plan? then
        var (line', s') := pl.plan(line, s);
        var rest := PlanTree(pl, next, s');
        Planned(Leaf(line', rest.tree), rest.state, rest.past)
      else
        var rest := PlanTree(pl, next, s);
        Planned(Leaf(line, rest.tree), rest.state, rest.past)
    case Sub(enter, body, exit, next) =>
      var inner := PlanTree(pl, body, pl.initial);
      var rest := PlanTree(pl, next, s);
      Planned(Sub(enter, inner.tree, exit, rest.tree), rest.state, inner.past + [inner.state] + rest.past)
  }

  lemma {:induction false} RunAppend<S, L>(pl: Planner<S, L>, m: Machine<S, L>, xs: seq<Line<L>>, ys: seq<Line<L>>)
    ensures Run(pl, m, xs + ys) == match Run(pl, m, xs) case Ok(m') => Run(pl, m', ys) case r => r
    decreases |xs|
  {
    if xs == [] {
      assert xs + ys == ys;
    } else {
      assert (xs + ys)[0] == xs[0] && (xs + ys)[1..] == xs[1..] + ys;
      var r := Step(pl, m, xs[0]);
      if r.Ok? {
        RunAppend(pl, r.value, xs[1..], ys);
      }
    }
  }

  lemma RunOne<S, L>(pl: Planner<S, L>, m: Machine<S, L>, line: Line<L>, m': Machine<S, L>)
    requires Step(pl, m, line) == Ok(m')
    ensures Run(pl, m, [line]) == Ok(m')
  {
    assert [line][1..] == [];
  }

  lemma RunNothing<S, L>(pl: Planner<S, L>, m: Machine<S, L>)
    ensures Run(pl, m, []) == Ok(m)
  {
  }

  lemma RunLeaf<S, L>(pl: Planner<S, L>, m: Machine<S, L>, below: seq<S>, s: S, line: Line<L>)
    requires !line.Enter? && !line.Exit? && m.stack == below + [s]
    ensures var (line', s') := if line.Plan? then pl.plan(line, s) else (line, s);
            Run(pl, m, [line]) == Ok(Machine(m.lines + [line'], below + [s'], m.past))
  {
    var (line', s') := if line.Plan? then pl.plan(line, s) else (line, s);
    assert m.stack[..|below|] == below;
    RunOne(pl, m, line, Machine(m.lines + [line'], below + [s'], m.past));
  }

  /** What the tree with a leaf, or a subgraph, in front flattens to and is planned as. */
  lemma LeafUnfolds<S, L>(pl: Planner<S, L>, line: Line<L>, next: Tree<L>, s: S)
    ensures Flatten(Leaf(line, next)) == [line] + Flatten(next)
    ensures var (line', s') := if line.Plan? then pl.plan(line, s) else (line, s);
            var rest := PlanTree(pl, next, s');
            PlanTree(pl, Leaf(line, next), s) == Planned(Leaf(line', rest.tree), rest.state, rest.past)
  {
  }

  lemma SubUnfolds<S, L>(pl: Planner<S, L>, enter: L, body: Tree<L>, exit: L, next: Tree<L>, s: S)
    ensures Flatten(Sub(enter, body, exit, next)) == [Enter(enter)] + Flatten(body) + [Exit(exit)] + Flatten(next)
    ensures var inner := PlanTree(pl, body, pl.initial);
            var rest := PlanTree(pl, next, s);
            PlanTree(pl, Sub(enter, body, exit, next), s)
            == Planned(Sub(enter, inner.tree, exit, rest.tree), rest.state, inner.past + [inner.state] + rest.past)
  {
  }

  lemma EmptyUnfolds<S, L>(pl: Planner<S, L>, s: S)
    ensures Flatten<L>(Empty) == [] && PlanTree(pl, Empty, s) == Planned(Empty, s, [])
  {
  }

  /** The stack machine computes planning by nesting, and never touches the states below the one it started on. */
  lemma {:induction false} MachineFollowsNesting<S, L>(pl: Planner<S, L>, m: Machine<S, L>, below: seq<S>, s: S, t: Tree<L>)
    requires Proper(t) && m.stack == below + [s]
    ensures var p := PlanTree(pl, t, s);
            Run(pl, m, Flatten(t)) == Ok(Machine(m.lines + Flatten(p.tree), below + [p.state], m.past + p.past))
    decreases t, 0
  {
    hide Step, Run, PlanTree, Flatten;
    match t
    case Empty =>
      EmptyUnfolds(pl, s);
      RunNothing(pl, m);
      assert m.lines + [] == m.lines && m.past + [] == m.past;
    case Leaf(line, next) =>
      LeafUnfolds(pl, line, next, s);
      var (line', s') := if line.Plan? then pl.plan(line, s) else (line, s);
      var rest := PlanTree(pl, next, s');
      LeafUnfolds(pl, line', rest.tree, s);
      var m' := Machine(m.lines + [line'], below + [s'], m.past);
      RunLeaf(pl, m, below, s, line);
      RunAppend(pl, m, [line], Flatten(next));
      MachineFollowsNesting(pl, m', below, s', next);
      assert m'.lines + Flatten(rest.tree) == m.lines + ([line'] + Flatten(rest.tree));
    case Sub(enter, body, exit, next) =>
      SubUnfolds(pl, enter, body, exit, next, s);
      SubgraphFollowsNesting(pl, m, below, s, enter, body, exit);
      var inner, rest := PlanTree(pl, body, pl.initial), PlanTree(pl, next, s);
      SubUnfolds(pl, enter, inner.tree, exit, rest.tree, s);
      var whole, whole' := [Enter(enter)] + Flatten(body) + [Exit(exit)], [Enter(enter)] + Flatten(inner.tree) + [Exit(exit)];
      var m' := Machine(m.lines + whole', below + [s], m.past + (inner.past + [inner.state]));
      RunAppend(pl, m, whole, Flatten(next));
      MachineFollowsNesting(pl, m', below, s, next);
      assert m'.lines + Flatten(rest.tree) == m.lines + (whole' + Flatten(rest.tree));
      assert m'.past + rest.past == m.past + (inner.past + [inner.state] + rest.past);
  }

  lemma {:induction false} SubgraphFollowsNesting<S, L>(pl: Planner<S, L>, m: Machine<S, L>, below: seq<S>, s: S,
                                                        enter: L, body: Tree<L>, exit: L)
    requires Proper(body) && m.stack == below + [s]
    ensures var inner := PlanTree(pl, body, pl.initial);
            Run(pl, m, [Enter(enter)] + Flatten(body) + [Exit(exit)])
            == Ok(Machine(m.lines + ([Enter(enter)] + Flatten(inner.tree) + [Exit(exit)]), below + [s], m.past + (inner.past + [inner.state])))
    decreases body, 1
  {
    hide Run;
    var inner := PlanTree(pl, body, pl.initial);
    var m1 := Machine(m.lines + [Enter(enter)], m.stack + [pl.initial], m.past);
    RunOne(pl, m, Enter(enter), m1);
    MachineFollowsNesting(pl, m1, m.stack, pl.initial, body);
    var m2 := Machine(m1.lines + Flatten(inner.tree), m.stack + [inner.state], m1.past + inner.past);
    assert m2.stack[..|m.stack|] == m.stack;
    var m3 := Machine(m2.lines + [Exit(exit)], m.stack, m2.past + [inner.state]);
    RunOne(pl, m2, Exit(exit), m3);
    RunAppend(pl, m, [Enter(enter)], Flatten(body));
    RunAppend(pl, m, [Enter(enter)] + Flatten(body), [Exit(exit)]);
    assert m3.lines == m.lines + ([Enter(enter)] + Flatten(inner.tree) + [Exit(exit)]);
    assert m3.past == m.past + (inner.past + [inner.state]);
  }

  // ---------------------------------------------------------------------------------------------
  // Balanced lines are nested lines
  // ---------------------------------------------------------------------------------------------

  lemma {:induction false} DepthPrefix<L>(xs: seq<Line<L>>, ys: seq<Line<L>>, n: nat)
    requires n <= |xs|
    ensures Depth(xs + ys, n) == Depth(xs, n)
  {
    if n > 0 { DepthPrefix(xs, ys, n - 1); }
  }

  lemma {:induction false} DepthAppend<L>(xs: seq<Line<L>>, ys: seq<Line<L>>, n: nat)
    requires n <= |ys|
    ensures Depth(xs + ys, |xs| + n) == Depth(xs, |xs|) + Depth(ys, n)
  {
    if n == 0 { DepthPrefix(xs, ys, |xs|); } else { DepthAppend(xs, ys, n - 1); }
  }

  /** The first line at which a walk that starts above 0 comes back to 0. */
  lemma FirstReturn<L>(lines: seq<Line<L>>, from: nat) returns (k: nat)
    requires from <= |lines| && Depth(lines, from) > 0 && Depth(lines, |lines|) <= 0
    ensures from < k <= |lines| && Depth(lines, k) == 0 && forall n :: from <= n < k ==> Depth(lines, n) > 0
  {
    k := from;
    while Depth(lines, k) > 0
      invariant from <= k <= |lines|
      invariant forall n :: from <= n < k ==> Depth(lines, n) > 0
      invariant Depth(lines, k) >= 0
      decreases |lines| - k
    {
      k := k + 1;
    }
  }

  lemma BalancedSuffix<L>(xs: seq<Line<L>>, ys: seq<Line<L>>)
    requires Balanced(xs + ys) && Depth(xs, |xs|) == 0
    ensures Balanced(ys)
  {
    forall n | 0 <= n <= |ys| ensures Depth(ys, n) >= 0 && (n == |ys| ==> Depth(ys, n) == 0) {
      DepthAppend(xs, ys, n);
    }
  }

  /** Inside the first subgraph the lines are balanced: its exit is where the depth first comes back to 0. */
  lemma BodyIsBalanced<L>(enter: Line<L>, body: seq<Line<L>>, rest: seq<Line<L>>)
    requires enter.Enter? && var lines := [enter] + (body + rest);
      forall n :: 1 <= n <= |body| + 1 ==> Depth(lines, n) > 0
    requires Depth([enter] + (body + rest), |body| + 1) == 1
    ensures Balanced(body)
  {
    assert Depth([enter], 1) == 1 by { OneLine(enter); }
    forall n | 0 <= n <= |body| ensures Depth(body, n) >= 0 && (n == |body| ==> Depth(body, n) == 0) {
      DepthAppend([enter], body + rest, n);
      DepthPrefix(body, rest, n);
    }
  }

  lemma OneLine<L>(line: Line<L>)
    ensures Depth([line], 1) == Delta(line)
  {
  }

  /** A balanced sequence that starts with a subgraph splits into its body and the rest, both balanced. */
  lemma FirstSubgraph<L>(lines: seq<Line<L>>) returns (k: nat)
    requires Balanced(lines) && lines != [] && lines[0].Enter?
    ensures 2 <= k <= |lines| && lines[k - 1].Exit? && Balanced(lines[1..k - 1]) && Balanced(lines[k..])
  {
    assert Depth(lines, 1) == 1;
    k := FirstReturn(lines, 1);
    assert Depth(lines, k) == Depth(lines, k - 1) + Delta(lines[k - 1]);
    assert Depth(lines, k - 1) == 1 && lines[k - 1].Exit?;
    var body, rest := lines[1..k - 1], lines[k..];
    assert lines == [lines[0]] + (body + lines[k - 1..]) && lines == lines[..k] + rest;
    BodyIsBalanced(lines[0], body, lines[k - 1..]);
    DepthPrefix(lines[..k], rest, k);
    BalancedSuffix(lines[..k], rest);
  }

  /** Every balanced sequence of lines is nested, so the results about trees are about all balanced sequences. */
  lemma {:induction false} BalancedIsNested<L>(lines: seq<Line<L>>) returns (t: Tree<L>)
    requires Balanced(lines)
    ensures Proper(t) && Flatten(t) == lines
    decreases |lines|
  {
    hide Balanced;
    if lines == [] {
      t := Empty;
    } else if lines[0].Enter? {
      var k := FirstSubgraph(lines);
      var inner := BalancedIsNested(lines[1..k - 1]);
      var next := BalancedIsNested(lines[k..]);
      t := Sub(lines[0].content, inner, lines[k - 1].content, next);
      assert lines == [lines[0]] + lines[1..k - 1] + [lines[k - 1]] + lines[k..];
    } else {
      RestIsBalanced(lines);
      var next := BalancedIsNested(lines[1..]);
      t := Leaf(lines[0], next);
    }
  }

  lemma RestIsBalanced<L>(lines: seq<Line<L>>)
    requires Balanced(lines) && lines != [] && !lines[0].Enter?
    ensures !lines[0].Exit? && Balanced(lines[1..])
  {
    assert Depth(lines, 1) == Delta(lines[0]);
    assert lines == [lines[0]] + lines[1..];
    OneLine(lines[0]);
    BalancedSuffix([lines[0]], lines[1..]);
  }

  // ---------------------------------------------------------------------------------------------
  // The results
  // ---------------------------------------------------------------------------------------------

  /** Trimming removes a tail of planning lines none of which names an output, and all of that tail. */
  lemma {:induction false} TrimDropsExactly<L>(lines: seq<Line<L>>, outputs: set<string>)
    ensures var kept := Trim(lines, outputs);
            && kept <= lines
            && (forall i :: |kept| <= i < |lines| ==> lines[i].Plan? && lines[i].name !in outputs)
            && (kept != [] ==> !(kept[|kept| - 1].Plan? && kept[|kept| - 1].name !in outputs))
  {
    if lines != [] && Pointless(lines[|lines| - 1], outputs) {
      TrimDropsExactly(lines[..|lines| - 1], outputs);
    }
  }

  lemma {:induction false} TrimKeepsBalance<L>(lines: seq<Line<L>>, outputs: set<string>)
    requires Balanced(lines)
    ensures Balanced(Trim(lines, outputs))
  {
    if lines != [] && Pointless(lines[|lines| - 1], outputs) {
      var front := lines[..|lines| - 1];
      assert lines == front + [lines[|lines| - 1]];
      forall n | 0 <= n <= |front| ensures Depth(front, n) == Depth(lines, n) {
        DepthPrefix(front, [lines[|lines| - 1]], n);
      }
      TrimKeepsBalance(front, outputs);
    }
  }

  /**
   For every balanced list of lines the pass raises nothing and plans by nesting: each planning line is planned against
   the state of its innermost subgraph, which sees the lines of that subgraph only. The finished states come out innermost
   first, the root's last.
   */
  lemma PassPlansByNesting<S, L>(pl: Planner<S, L>, lines: seq<Line<L>>, outputs: set<string>) returns (t: Tree<L>)
    requires Balanced(lines)
    ensures Proper(t) && Flatten(t) == Trim(lines, outputs)
    ensures var p := PlanTree(pl, t, pl.initial);
            Pass(pl, lines, outputs) == Ok((Flatten(p.tree), p.past + [p.state]))
  {
    hide Trim, Balanced, Run, Flatten, PlanTree, Step;
    TrimKeepsBalance(lines, outputs);
    t := BalancedIsNested(Trim(lines, outputs));
    var start := Machine([], [pl.initial], []);
    assert start.stack == [] + [pl.initial];
    MachineFollowsNesting(pl, start, [], pl.initial, t);
    var p := PlanTree(pl, t, pl.initial);
    assert [] + Flatten(p.tree) == Flatten(p.tree) && [] + p.past == p.past;
  }

  /** Line n needs a planning state: it is planned against one, or it finishes one. */
  predicate NeedsState<L>(line: Line<L>) {
    line.Plan? || line.Exit?
  }

  lemma DepthTail<L>(lines: seq<Line<L>>, n: nat)
    requires 0 < n <= |lines|
    ensures Depth(lines, n) == Delta(lines[0]) + Depth(lines[1..], n - 1)
  {
    assert lines == [lines[0]] + lines[1..];
    assert Depth([lines[0]], 1) == Delta(lines[0]);
    DepthAppend([lines[0]], lines[1..], n - 1);
  }

  /** With k states below the first line, every line that needs a state finds one. */
  ghost predicate Supported<L>(k: int, lines: seq<Line<L>>) {
    forall n :: 0 <= n < |lines| && NeedsState(lines[n]) ==> k + Depth(lines, n) > 0
  }

  lemma SupportedTail<L>(k: int, lines: seq<Line<L>>)
    requires lines != []
    ensures Supported(k, lines) <==> (NeedsState(lines[0]) ==> k > 0) && Supported(k + Delta(lines[0]), lines[1..])
  {
    hide NeedsState, Delta;
    var tail := lines[1..];
    assert Depth(lines, 0) == 0;
    forall n | 0 <= n < |tail| ensures tail[n] == lines[n + 1] && Depth(lines, n + 1) == Delta(lines[0]) + Depth(tail, n) {
      DepthTail(lines, n + 1);
    }
    if Supported(k, lines) {
      forall n | 0 <= n < |tail| && NeedsState(tail[n]) ensures k + Delta(lines[0]) + Depth(tail, n) > 0 {
        assert NeedsState(lines[n + 1]);
      }
    }
    if (NeedsState(lines[0]) ==> k > 0) && Supported(k + Delta(lines[0]), tail) {
      forall n | 0 <= n < |lines| && NeedsState(lines[n]) ensures k + Depth(lines, n) > 0 {
        if n > 0 { assert NeedsState(tail[n - 1]) && Depth(lines, (n - 1) + 1) == Delta(lines[0]) + Depth(tail, n - 1); }
      }
    }
  }

  lemma StepByDepth<S, L>(pl: Planner<S, L>, m: Machine<S, L>, line: Line<L>)
    ensures Step(pl, m, line).Ok? <==> (NeedsState(line) ==> |m.stack| > 0)
    ensures Step(pl, m, line).Ok? ==> |Step(pl, m, line).value.stack| == |m.stack| + Delta(line)
  {
  }

  /** The stack is as deep as the nesting, and running out of it is the only way to fail. */
  lemma {:induction false} RunByDepth<S, L>(pl: Planner<S, L>, m: Machine<S, L>, lines: seq<Line<L>>)
    ensures Run(pl, m, lines).Ok? <==> Supported(|m.stack|, lines)
    ensures Run(pl, m, lines).Ok? ==> |Run(pl, m, lines).value.stack| == |m.stack| + Depth(lines, |lines|)
    decreases |lines|
  {
    hide Step, NeedsState, Delta;
    if lines != [] {
      StepByDepth(pl, m, lines[0]);
      SupportedTail(|m.stack|, lines);
      DepthTail(lines, |lines|);
      if Step(pl, m, lines[0]).Ok? {
        RunByDepth(pl, Step(pl, m, lines[0]).value, lines[1..]);
      }
    }
  }

  lemma {:induction false} NoAssertionOnTheWay<S, L>(pl: Planner<S, L>, m: Machine<S, L>, lines: seq<Line<L>>)
    ensures !Run(pl, m, lines).AssertionError?
    decreases |lines|
  {
    if lines != [] && Step(pl, m, lines[0]).Ok? { NoAssertionOnTheWay(pl, Step(pl, m, lines[0]).value, lines[1..]); }
  }

  /** The pass tolerates one subgraph exit too many, as long as no line needs a state before the next entry. */
  ghost predicate Tolerated<L>(lines: seq<Line<L>>) {
    && (forall n :: 0 <= n < |lines| && NeedsState(lines[n]) ==> Depth(lines, n) >= 0)
    && Depth(lines, |lines|) == 0
  }

  /** Exactly when the pass raises nothing, and when it is the closing assertion that it raises: a subgraph is left open. */
  lemma PassSucceedsExactly<S, L>(pl: Planner<S, L>, lines: seq<Line<L>>, outputs: set<string>)
    ensures Pass(pl, lines, outputs).Ok? <==> Tolerated(Trim(lines, outputs))
    ensures Pass(pl, lines, outputs).AssertionError? <==>
      var kept := Trim(lines, outputs);
      && (forall n :: 0 <= n < |kept| && NeedsState(kept[n]) ==> Depth(kept, n) >= 0)
      && Depth(kept, |kept|) > 0
  {
    hide Trim, Step;
    var kept := Trim(lines, outputs);
    RunByDepth(pl, Machine([], [pl.initial], []), kept);
    NoAssertionOnTheWay(pl, Machine([], [pl.initial], []), kept);
    assert Supported(1, kept) <==> forall n :: 0 <= n < |kept| && NeedsState(kept[n]) ==> Depth(kept, n) >= 0;
  }

  /** The closing assertion does not detect every unbalanced list. */
  lemma UnbalancedButAccepted<S, L>(pl: Planner<S, L>, x: L)
    ensures !Balanced([Exit(x), Enter(x)]) && Pass(pl, [Exit(x), Enter(x)], {}).Ok?
  {
    var lines := [Exit(x), Enter(x)];
    assert Depth(lines, 0) == 0 && Depth(lines, 1) == -1 && Depth(lines, 2) == 0;
    PassSucceedsExactly(pl, lines, {});
  }
}
