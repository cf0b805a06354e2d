/**
 The recurrence solved: states and outputs as sums and products over the fields of the tokens, with no recursion over
 states. Everything that is proved of the scan speaks of the same steps; this says what the steps are.
 */
module ScanClosedForm {
  import opened Basics
  import opened Folds
  import opened ScanRecurrence

  /** delta plus bias; under softplus, log(exp(x) + 1) up to 20 and x itself above. */
  predicate IsStepSize(ch: Channel, tok: Token, dt: real) {
    var x := match ch.bias case Some(bias) => tok.delta + bias case None => tok.delta;
    if ch.softplus && !(x > 20.0) then dt == ch.fn.log(ch.fn.exp(x) + 1.0) else dt == x
  }

  ghost predicate StepSizes(ch: Channel, toks: seq<Token>, dts: seq<real>) {
    |dts| == |toks| && forall t :: 0 <= t < |toks| ==> IsStepSize(ch, toks[t], dts[t])
  }

  lemma StepSizeIs(ch: Channel, tok: Token, dt: real)
    requires IsStepSize(ch, tok, dt)
    ensures StepSize(ch, tok) == dt
  {
  }

  /** exp(dt * a): what is left of a lane after one token. */
  function Factor(fn: Functions, dt: real, a: real): real { fn.exp(dt * a) }

  /** The product of exp(dt * a) over the tokens from `from` up to, not including, `to`. */
  function Decay(fn: Functions, dts: seq<real>, a: real, from: nat, to: nat): real
    requires from <= to <= |dts|
  {
    if from == to then 1.0 else Decay(fn, dts, a, from, to - 1) * Factor(fn, dts[to - 1], a)
  }

  /** What token t puts into lane i. */
  function Feed(dts: seq<real>, toks: seq<Token>, i: nat, t: nat): real
    requires t < |toks| == |dts|
  {
    dts[t] * toks[t].u * Lane(toks[t].b, i)
  }

  /** What is left after n tokens of what the first m of them have put into lane i. */
  function Fed(fn: Functions, dts: seq<real>, toks: seq<Token>, a: real, i: nat, m: nat, n: nat): real
    requires m <= n <= |toks| == |dts|
  {
    if m == 0 then 0.0
    else Fed(fn, dts, toks, a, i, m - 1, n) + Feed(dts, toks, i, m - 1) * Decay(fn, dts, a, m, n)
  }

  /** Lane i of the state after n tokens. */
  function Solution(ch: Channel, s0: Vec, dts: seq<real>, toks: seq<Token>, i: nat, n: nat): real
    requires n <= |toks| == |dts|
  {
    Lane(s0, i) * Decay(ch.fn, dts, Lane(ch.a, i), 0, n) + Fed(ch.fn, dts, toks, Lane(ch.a, i), i, n, n)
  }

  lemma Associate(f: real, x: real, d: real, e: real)
    ensures (f + x * d) * e == f * e + x * (d * e)
  {
  }

  lemma {:induction false} FedDecays(fn: Functions, dts: seq<real>, toks: seq<Token>, a: real, i: nat, m: nat, n: nat)
    requires m < n <= |toks| == |dts|
    ensures Fed(fn, dts, toks, a, i, m, n) == Fed(fn, dts, toks, a, i, m, n - 1) * Factor(fn, dts[n - 1], a)
  {
    hide Feed, Factor;
    if m > 0 {
      FedDecays(fn, dts, toks, a, i, m - 1, n);
      Associate(Fed(fn, dts, toks, a, i, m - 1, n - 1), Feed(dts, toks, i, m - 1), Decay(fn, dts, a, m, n - 1), Factor(fn, dts[n - 1], a));
    }
  }

  lemma Regroup(e: real, s: real, d: real, f: real)
    ensures e * (s * d + f) == s * (d * e) + f * e
  {
  }

  /** One more token: what is there decays, and what the token feeds is added. */
  lemma SolutionNext(ch: Channel, s0: Vec, dts: seq<real>, toks: seq<Token>, i: nat, n: nat)
    requires n < |toks| == |dts|
    ensures Solution(ch, s0, dts, toks, i, n + 1)
         == Factor(ch.fn, dts[n], Lane(ch.a, i)) * Solution(ch, s0, dts, toks, i, n) + Feed(dts, toks, i, n)
  {
    hide Feed, Fed, Factor;
    var a := Lane(ch.a, i);
    var e := Factor(ch.fn, dts[n], a);
    FedDecays(ch.fn, dts, toks, a, i, n, n + 1);
    FedNext(ch.fn, dts, toks, a, i, n);
    var d, f := Decay(ch.fn, dts, a, 0, n), Fed(ch.fn, dts, toks, a, i, n, n);
    Regroup(e, Lane(s0, i), d, f);
    assert Decay(ch.fn, dts, a, 0, n + 1) == d * e;
    assert Solution(ch, s0, dts, toks, i, n + 1) == Lane(s0, i) * (d * e) + (f * e + Feed(dts, toks, i, n));
  }

  lemma FedNext(fn: Functions, dts: seq<real>, toks: seq<Token>, a: real, i: nat, n: nat)
    requires n < |toks| == |dts|
    ensures Fed(fn, dts, toks, a, i, n + 1, n + 1) == Fed(fn, dts, toks, a, i, n, n + 1) + Feed(dts, toks, i, n)
  {
    hide Feed;
  }

  lemma LaneStepIs(fn: Functions, dt: real, u: real, a: real, s: real, b: real)
    ensures LaneStep(fn, dt, u, a, s, b) == Factor(fn, dt, a) * s + dt * u * b
  {
  }

  lemma LaneNext(ch: Channel, s: Vec, tok: Token, dt: real, i: nat)
    requires IsStepSize(ch, tok, dt) && i < ch.width
    ensures Lane(Advance(ch, s, tok), i) == Factor(ch.fn, dt, Lane(ch.a, i)) * Lane(s, i) + dt * tok.u * Lane(tok.b, i)
  {
    hide StepSize, IsStepSize, Factor, LaneStep;
    StepSizeIs(ch, tok, dt);
    assert Advance(ch, s, tok)[i] == AdvanceLane(ch, s, tok, i);
    LaneStepIs(ch.fn, dt, tok.u, Lane(ch.a, i), Lane(s, i), Lane(tok.b, i));
  }

  /**
   The state in closed form, for every number of tokens and every lane: the initial state times the product of all decays,
   plus, for every token, step size times u times B times the product of the decays after it.
   */
  lemma {:induction false} StateInClosedForm(ch: Channel, s0: Vec, dts: seq<real>, toks: seq<Token>, i: nat, n: nat)
    requires StepSizes(ch, toks, dts) && n <= |toks| && i < ch.width
    ensures Lane(StateAt(ch, s0, toks, n), i) == Solution(ch, s0, dts, toks, i, n)
  {
    hide Advance, StateAt, IsStepSize, Solution, Factor;
    if n == 0 {
      StateStart(ch, s0, toks);
      NothingSolved(ch, s0, dts, toks, i);
    } else {
      StateInClosedForm(ch, s0, dts, toks, i, n - 1);
      StateNext(ch, s0, toks, n - 1);
      LaneNext(ch, StateAt(ch, s0, toks, n - 1), toks[n - 1], dts[n - 1], i);
      SolutionNext(ch, s0, dts, toks, i, n - 1);
    }
  }

  lemma NothingSolved(ch: Channel, s0: Vec, dts: seq<real>, toks: seq<Token>, i: nat)
    requires |toks| == |dts|
    ensures Solution(ch, s0, dts, toks, i, 0) == Lane(s0, i)
  {
  }

  /** The sum of h * c over all lanes, c being 0 where it has no lane. */
  function Contract(h: Vec, c: Vec, from: nat): real
    requires from <= |h|
    decreases |h| - from
  {
    if from == |h| then 0.0 else h[from] * Lane(c, from) + Contract(h, c, from + 1)
  }

  lemma {:induction false} DotIsContract(h: Vec, c: Vec, n: nat)
    requires n <= |h|
    ensures Dot(h, c, n) + Contract(h, c, n) == Contract(h, c, 0)
  {
    if n > 0 { DotIsContract(h, c, n - 1); }
  }

  /** The outputs: the lane sum of the state times C, plus D * u; gated, that times z / (1 + exp(-z)). */
  lemma OutputsInClosedForm(ch: Channel, s0: Vec, dts: seq<real>, toks: seq<Token>, t: nat, h: Vec)
    requires StepSizes(ch, toks, dts) && t < |toks|
    requires |h| == ch.width && forall i :: 0 <= i < ch.width ==> h[i] == Solution(ch, s0, dts, toks, i, t + 1)
    ensures var y := OutputAt(ch, s0, toks, t);
      && y == Contract(h, toks[t].c, 0) + (match ch.skip case Some(skip) => skip * toks[t].u case None => 0.0)
      && (1.0 + ch.fn.exp(-toks[t].z) != 0.0 ==> GatedAt(ch, s0, toks, t) * (1.0 + ch.fn.exp(-toks[t].z)) == y * toks[t].z)
  {
    hide StateAt, Solution, StepSizes;
    var s := StateAt(ch, s0, toks, t + 1);
    StateLanes(ch, s0, toks, t);
    forall i | 0 <= i < ch.width ensures s[i] == h[i] {
      StateInClosedForm(ch, s0, dts, toks, i, t + 1);
    }
    assert s == h;
    DotIsContract(h, toks[t].c, ch.width);
  }

  lemma StateLanes(ch: Channel, s0: Vec, toks: seq<Token>, t: nat)
    requires t < |toks|
    ensures |StateAt(ch, s0, toks, t + 1)| == ch.width
  {
    hide Advance;
    StateNext(ch, s0, toks, t);
  }
}
