/** A left fold over the first n elements of a sequence, and how it splits. */
module Folds {

  function Fold<S, T>(f: (S, T) -> S, s: S, xs: seq<T>, n: nat): S
    requires n <= |xs|
  {
    if n == 0 then s else f(Fold(f, s, xs, n - 1), xs[n - 1])
  }

  /** The first n steps depend on the first n elements only. */
  lemma {:induction false} FoldPrefix<S, T>(f: (S, T) -> S, s: S, xs: seq<T>, ys: seq<T>, n: nat)
    requires n <= |xs| && n <= |ys| && forall i :: 0 <= i < n ==> xs[i] == ys[i]
    ensures Fold(f, s, xs, n) == Fold(f, s, ys, n)
  {
    if n > 0 {
      FoldPrefix(f, s, xs, ys, n - 1);
    }
  }

  lemma {:induction false} FoldSplit<S, T>(f: (S, T) -> S, s: S, xs: seq<T>, ys: seq<T>, n: nat)
    requires n <= |ys|
    ensures Fold(f, s, xs + ys, |xs| + n) == Fold(f, Fold(f, s, xs, |xs|), ys, n)
  {
    if n == 0 {
      FoldPrefix(f, s, xs, xs + ys, |xs|);
    } else {
      FoldSplit(f, s, xs, ys, n - 1);
    }
  }
}

/**
 The state-space recurrence that the selective-scan kernel computes, over exact reals.

 A *channel* is one `dim` index: its decay vector A, skip weight D, delta bias and the softplus switch, with
 the number of lanes its state vector has. A *token* is everything the kernel loads at one position.
 Reading past the end of a vector yields 0.0, which is what a masked load with `other=0.0` returns.
 */
module ScanRecurrence {
  import opened Basics
  import opened Folds

  type Vec = seq<real>

  /** Any functions will do for exp and log, and any value for a division by zero: nothing about them is ever used. */
  datatype Functions = Functions(exp: real -> real, log: real -> real, overZero: real -> real)

  datatype Channel = Channel(
    fn: Functions, width: nat, a: Vec, skip: Option<real>, bias: Option<real>, softplus: bool)

  datatype Token = Token(u: real, delta: real, z: real, b: Vec, c: Vec)

  /** Masked load: lane i of v, or 0.0 for a lane the mask switches off. */
  function Lane(v: Vec, i: nat): real {
    if i < |v| then v[i] else 0.0
  }

  function Softplus(fn: Functions, x: real): real {
    if x <= 20.0 then fn.log(fn.exp(x) + 1.0) else x
  }

  /** delta after the optional bias and the optional softplus. */
  function StepSize(ch: Channel, tok: Token): real {
    var biased := if ch.bias.Some? then tok.delta + ch.bias.value else tok.delta;
    if ch.softplus then Softplus(ch.fn, biased) else biased
  }

  /** dA * s + (delta * u) * b on one lane, with dA = exp(delta * a). */
  function LaneStep(fn: Functions, dt: real, u: real, a: real, s: real, b: real): real {
    fn.exp(dt * a) * s + dt * u * b
  }

  function AdvanceLane(ch: Channel, s: Vec, tok: Token, i: nat): real {
    LaneStep(ch.fn, StepSize(ch, tok), tok.u, Lane(ch.a, i), Lane(s, i), Lane(tok.b, i))
  }

  /** state = dA * state + delta * u * B, on all lanes. */
  function Advance(ch: Channel, s: Vec, tok: Token): (r: Vec)
    ensures |r| == ch.width
  {
    seq(ch.width, i requires 0 <= i < ch.width => AdvanceLane(ch, s, tok, i))
  }

  /** The lane sum of s * c over the first n lanes. */
  function Dot(s: Vec, c: Vec, n: nat): real {
    if n == 0 then 0.0 else Dot(s, c, n - 1) + Lane(s, n - 1) * Lane(c, n - 1)
  }

  /** out = sum(state * C) + D * u, for the state *after* this token. */
  function Output(ch: Channel, s: Vec, tok: Token): real {
    var y := Dot(s, tok.c, ch.width);
    if ch.skip.Some? then y + ch.skip.value * tok.u else y
  }

  function Divide(fn: Functions, x: real, y: real): real {
    if y != 0.0 then x / y else fn.overZero(x)
  }

  /** The gated output out * silu(z). */
  function Gate(fn: Functions, y: real, z: real): real {
    Divide(fn, y * z, 1.0 + fn.exp(-z))
  }

  function StepOf(ch: Channel): (Vec, Token) -> Vec {
    (s, tok) => Advance(ch, s, tok)
  }

  /** The state after the first n tokens: the flat token-by-token fold. */
  function StateAt(ch: Channel, s0: Vec, toks: seq<Token>, n: nat): Vec
    requires n <= |toks|
  {
    Fold(StepOf(ch), s0, toks, n)
  }

  function OutputAt(ch: Channel, s0: Vec, toks: seq<Token>, t: nat): real
    requires t < |toks|
  {
    Output(ch, StateAt(ch, s0, toks, t + 1), toks[t])
  }

  function GatedAt(ch: Channel, s0: Vec, toks: seq<Token>, t: nat): real
    requires t < |toks|
  {
    Gate(ch.fn, OutputAt(ch, s0, toks, t), toks[t].z)
  }

  /** Scanning xs and then ys from where xs ended is scanning xs + ys: states, outputs and gated outputs. */
  lemma OutputSplit(ch: Channel, s0: Vec, xs: seq<Token>, ys: seq<Token>, t: nat)
    requires t < |ys|
    ensures OutputAt(ch, s0, xs + ys, |xs| + t) == OutputAt(ch, StateAt(ch, s0, xs, |xs|), ys, t)
    ensures GatedAt(ch, s0, xs + ys, |xs| + t) == GatedAt(ch, StateAt(ch, s0, xs, |xs|), ys, t)
  {
    FoldSplit(StepOf(ch), s0, xs, ys, t + 1);
    assert (xs + ys)[|xs| + t] == ys[t];
  }

  // ---------------------------------------------------------------------------------------------
  // Padding to a power of two
  // ---------------------------------------------------------------------------------------------

  /** s is the unpadded vector r followed by zero lanes. */
  predicate Padded(s: Vec, r: Vec, width: nat) {
    && |s| == width
    && |r| <= width
    && forall i :: 0 <= i < width ==> s[i] == Lane(r, i)
  }

  /** A masked-off lane that holds 0.0 keeps holding 0.0, whatever exp returns there. */
  lemma AdvancePadded(ch: Channel, s: Vec, r: Vec, tok: Token)
    requires |ch.a| == |r| == |tok.b| && Padded(s, r, ch.width)
    ensures Padded(Advance(ch, s, tok), Advance(ch.(width := |r|), r, tok), ch.width)
  {
    var narrow := ch.(width := |r|);
    forall i | 0 <= i < ch.width
      ensures AdvanceLane(ch, s, tok, i) == if i < |r| then AdvanceLane(narrow, r, tok, i) else 0.0
    {
      assert s[i] == Lane(r, i);
      if i < |r| {
        SameLane(ch, s, r, tok, i, |r|);
      } else {
        ZeroLane(ch, s, tok, i);
      }
    }
  }

  lemma SameLane(ch: Channel, s: Vec, r: Vec, tok: Token, i: nat, w: nat)
    requires Lane(s, i) == Lane(r, i)
    ensures AdvanceLane(ch, s, tok, i) == AdvanceLane(ch.(width := w), r, tok, i)
  {
    assert StepSize(ch, tok) == StepSize(ch.(width := w), tok);
  }

  lemma ZeroLane(ch: Channel, s: Vec, tok: Token, i: nat)
    requires Lane(s, i) == 0.0 && Lane(tok.b, i) == 0.0
    ensures AdvanceLane(ch, s, tok, i) == 0.0
  {
    var dt := StepSize(ch, tok);
    assert dt * tok.u * Lane(tok.b, i) == 0.0;
  }

  lemma {:induction false} DotPadded(s: Vec, r: Vec, c: Vec, n: nat)
    requires n <= |s| && Padded(s, r, |s|)
    ensures Dot(s, c, n) == Dot(r, c, if n <= |r| then n else |r|)
  {
    if n > 0 {
      DotPadded(s, r, c, n - 1);
      assert Lane(s, n - 1) == Lane(r, n - 1);
    }
  }

  /** Every load of the scan has exactly `dstate` real lanes. */
  predicate HasLanes(ch: Channel, toks: seq<Token>, dstate: nat) {
    && |ch.a| == dstate
    && forall t :: 0 <= t < |toks| ==> |toks[t].b| == dstate
  }

  lemma StateStart(ch: Channel, s0: Vec, toks: seq<Token>)
    ensures StateAt(ch, s0, toks, 0) == s0
  {
  }

  lemma StateNext(ch: Channel, s0: Vec, toks: seq<Token>, n: nat)
    requires n < |toks|
    ensures StateAt(ch, s0, toks, n + 1) == Advance(ch, StateAt(ch, s0, toks, n), toks[n])
  {
    hide Advance;
  }

  /** Padding lanes never matter for states: the padded state is the unpadded state followed by zeros. */
  lemma {:induction false} PaddedState(ch: Channel, s0: Vec, r0: Vec, toks: seq<Token>, n: nat)
    requires n <= |toks| && HasLanes(ch, toks, |r0|) && Padded(s0, r0, ch.width)
    ensures |StateAt(ch.(width := |r0|), r0, toks, n)| == |r0|
    ensures Padded(StateAt(ch, s0, toks, n), StateAt(ch.(width := |r0|), r0, toks, n), ch.width)
  {
    hide StateAt, Advance, Padded;
    var narrow := ch.(width := |r0|);
    if n == 0 {
      StateStart(ch, s0, toks);
      StateStart(narrow, r0, toks);
    } else {
      PaddedState(ch, s0, r0, toks, n - 1);
      StateNext(ch, s0, toks, n - 1);
      StateNext(narrow, r0, toks, n - 1);
      AdvancePadded(ch, StateAt(ch, s0, toks, n - 1), StateAt(narrow, r0, toks, n - 1), toks[n - 1]);
    }
  }

  lemma PaddedOutputOf(ch: Channel, s: Vec, r: Vec, tok: Token)
    requires Padded(s, r, ch.width)
    ensures Output(ch, s, tok) == Output(ch.(width := |r|), r, tok)
  {
    DotPadded(s, r, tok.c, ch.width);
  }

  /** ... and they never matter for outputs, gated or not. Any width >= dstate will do. */
  lemma PaddedOutput(ch: Channel, s0: Vec, r0: Vec, toks: seq<Token>, t: nat)
    requires t < |toks| && HasLanes(ch, toks, |r0|) && Padded(s0, r0, ch.width)
    ensures OutputAt(ch, s0, toks, t) == OutputAt(ch.(width := |r0|), r0, toks, t)
    ensures GatedAt(ch, s0, toks, t) == GatedAt(ch.(width := |r0|), r0, toks, t)
  {
    PaddedState(ch, s0, r0, toks, t + 1);
    PaddedOutputOf(ch, StateAt(ch, s0, toks, t + 1), StateAt(ch.(width := |r0|), r0, toks, t + 1), toks[t]);
  }

  // ---------------------------------------------------------------------------------------------
  // The width the launcher picks
  // ---------------------------------------------------------------------------------------------

  /** triton.next_power_of_2: the least power of two that is at least n. */
  function NextPowerOf2(n: nat): (w: nat)
    ensures w >= n && IsLeastPower(w, n)
  {
    PowerFrom(n, 0)
  }

  ghost predicate IsLeastPower(w: nat, n: nat) {
    exists k: nat :: w == Pow2(k) && forall j: nat :: Pow2(j) >= n ==> j >= k
  }

  function PowerFrom(n: nat, k: nat): (w: nat)
    requires forall j: nat :: Pow2(j) >= n ==> j >= k
    ensures w >= n && IsLeastPower(w, n)
    decreases n - k
  {
    if Pow2(k) >= n then Pow2(k) else PowerFrom(n, k + 1)
  }
}
