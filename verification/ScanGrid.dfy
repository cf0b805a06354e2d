/**
 The whole grid of scan programs, interleaved in any way at all.

 The programs of a launch run concurrently on one memory, overwriting their inputs. A step of a program is its initial
 load, one token, or the store of one chunk's state; a schedule is any sequence of program names. If the programs
 touch disjoint cells, every schedule that lets them all finish leaves the same memory: each cell holds what its
 program computes from an untouched copy of the inputs.
 */
module ScanGrid {
  import opened Basics
  import opened ScanRecurrence
  import opened ChunkMetadata
  import opened ScanKernel

  datatype Pid = Pid(b: nat, d: nat)

  datatype Memory = Memory(delta: seq<real>, z: seq<real>, ssm: seq<real>)

  /** A program that has not started, or one that has scanned `pos` tokens and stored the states of `chunk` chunks. */
  datatype Local = Idle | Running(chunk: nat, pos: nat, state: Vec)

  datatype Config = Config(mem: Memory, locals: map<Pid, Local>)

  /** The launch can run pid within the extents of the memory. */
  ghost predicate Runnable(l: Launch, pid: Pid, mem: Memory) {
    && ForwardChunks(l, pid.b) && !Skipped(l, pid.b)
    && InBounds(l, pid.b, pid.d, |mem.delta|, |mem.z|, |mem.ssm|)
  }

  predicate Done(l: Launch, pid: Pid, local: Local)
    requires ForwardChunks(l, pid.b)
  {
    local.Running? && local.chunk == |Lens(l, pid.b)|
  }

  /** The program has not run past its chunks or its tokens, and its state has the padded width. */
  predicate Within(l: Launch, pid: Pid, local: Local)
    requires ForwardChunks(l, pid.b)
  {
    local.Running? ==>
      && local.chunk <= |Lens(l, pid.b)|
      && local.pos <= TokenCount(l, pid.b)
      && |local.state| == NextPowerOf2(l.dstate)
  }

  /** One step of one program. A program that is done has no step left. */
  ghost function Step(l: Launch, pid: Pid, mem: Memory, local: Local): (r: (Memory, Local))
    requires Runnable(l, pid, mem)
    requires Within(l, pid, local)
    ensures |r.0.delta| == |mem.delta| && |r.0.z| == |mem.z| && |r.0.ssm| == |mem.ssm|
  {
    match local
    case Idle => (mem, Running(0, 0, PadTo(InitialVector(l, pid.b, pid.d, mem.ssm), NextPowerOf2(l.dstate))))
    case Running(chunk, pos, state) =>
      if chunk == |Lens(l, pid.b)| then (mem, local)
      else if pos < Sum(Lens(l, pid.b), chunk + 1) && pos < TokenCount(l, pid.b) then
        var at := BasesOf(l, pid.b, pid.d);
        var ch := ChannelOf(l, pid.d);
        var tok := TokenOf(l, at, pos, mem.delta[at.delta + pos], if l.gated then mem.z[at.z + pos] else 0.0);
        var next := Advance(ch, state, tok);
        var out := Output(ch, next, tok);
        (mem.(delta := mem.delta[at.delta + pos := out],
              z := if l.gated then mem.z[at.z + pos := Gate(ch.fn, out, tok.z)] else mem.z),
         Running(chunk, pos + 1, next))
      else
        (mem.(ssm := StoreLanes(l, mem.ssm, StoreSlot(l, pid.b, chunk), pid.d, state, l.dstate)),
         Running(chunk + 1, pos, state))
  }

  // ---------------------------------------------------------------------------------------------
  // Footprints
  // ---------------------------------------------------------------------------------------------

  /** The programs of entry b load an initial state, so they read cells of its load slot. */
  predicate Loads(l: Launch, b: nat) {
    l.hasInitial.Some? && b < |l.hasInitial.value| && l.hasInitial.value[b]
  }

  ghost predicate ReadsCell(l: Launch, pid: Pid, a: int) {
    Loads(l, pid.b) && exists i :: 0 <= i < l.dstate && a == SsmAddr(l, LoadSlot(l, pid.b), pid.d, i)
  }

  ghost predicate WritesSlot(l: Launch, pid: Pid, slot: int)
    requires ForwardChunks(l, pid.b)
  {
    exists c :: 0 <= c < |Lens(l, pid.b)| && slot == StoreSlot(l, pid.b, c)
  }

  /** pid stores a state over this cell of the cache. */
  ghost predicate WritesCell(l: Launch, pid: Pid, a: int)
    requires ForwardChunks(l, pid.b)
  {
    exists slot, i | 0 <= i < l.dstate :: WritesSlot(l, pid, slot) && a == SsmAddr(l, slot, pid.d, i)
  }

  ghost predicate UsesCell(l: Launch, pid: Pid, a: int)
    requires ForwardChunks(l, pid.b)
  {
    ReadsCell(l, pid, a) || WritesCell(l, pid, a)
  }

  ghost predicate OwnsToken(l: Launch, pid: Pid, base: int, a: int)
    requires ForwardChunks(l, pid.b)
  {
    base <= a < base + TokenCount(l, pid.b)
  }

  /** Two programs have no token in common, and neither writes a cell of the cache that the other reads or writes. */
  ghost predicate Separate(l: Launch, p: Pid, q: Pid)
    requires l.groupSize > 0 && ForwardChunks(l, p.b) && ForwardChunks(l, q.b)
  {
    && (forall a :: !(OwnsToken(l, p, BasesOf(l, p.b, p.d).delta, a) && OwnsToken(l, q, BasesOf(l, q.b, q.d).delta, a)))
    && (l.gated ==> forall a :: !(OwnsToken(l, p, BasesOf(l, p.b, p.d).z, a) && OwnsToken(l, q, BasesOf(l, q.b, q.d).z, a)))
    && (forall a :: !(UsesCell(l, p, a) && WritesCell(l, q, a)) && !(WritesCell(l, p, a) && UsesCell(l, q, a)))
  }

  // ---------------------------------------------------------------------------------------------
  // What a program has done so far, by an untouched copy of the memory
  // ---------------------------------------------------------------------------------------------

  ghost function Solo(l: Launch, pid: Pid, mem0: Memory): Program
    requires Runnable(l, pid, mem0)
  {
    ProgramOf(l, pid.b, pid.d, mem0.delta, mem0.z, mem0.ssm)
  }

  ghost function DeltaCell(p: Program, mem0: Memory, pos: nat, t: nat): real
    requires t < |p.toks| && Fits(p, |mem0.delta|, |mem0.z|)
  {
    if t < pos then OutputAt(p.ch, p.s0, p.toks, t) else mem0.delta[p.at.delta + t]
  }

  ghost function ZCell(p: Program, mem0: Memory, pos: nat, t: nat): real
    requires t < |p.toks| && Fits(p, |mem0.delta|, |mem0.z|) && p.gated
  {
    if t < pos then GatedAt(p.ch, p.s0, p.toks, t) else mem0.z[p.at.z + t]
  }

  /** Tokens before pos hold outputs, the rest still hold inputs. */
  ghost predicate TokensAt(p: Program, mem0: Memory, delta: seq<real>, z: seq<real>, pos: nat)
    requires pos <= |p.toks| && Fits(p, |mem0.delta|, |mem0.z|) && |delta| == |mem0.delta| && |z| == |mem0.z|
  {
    && (forall t :: 0 <= t < |p.toks| ==> delta[p.at.delta + t] == DeltaCell(p, mem0, pos, t))
    && (p.gated ==> forall t :: 0 <= t < |p.toks| ==> z[p.at.z + t] == ZCell(p, mem0, pos, t))
  }

  /** The cells of the cache that pid reads or writes are those of `expected`. */
  ghost predicate CellsAgree(l: Launch, pid: Pid, expected: seq<real>, ssm: seq<real>)
    requires ForwardChunks(l, pid.b) && |expected| == |ssm|
  {
    forall a :: 0 <= a < |ssm| && UsesCell(l, pid, a) ==> ssm[a] == expected[a]
  }

  ghost predicate OnTrack(l: Launch, pid: Pid, mem0: Memory, mem: Memory, local: Local)
    requires Runnable(l, pid, mem0) && |mem.delta| == |mem0.delta| && |mem.z| == |mem0.z| && |mem.ssm| == |mem0.ssm|
  {
    var p := Solo(l, pid, mem0);
    var lens := Lens(l, pid.b);
    match local
    case Idle => TokensAt(p, mem0, mem.delta, mem.z, 0) && CellsAgree(l, pid, mem0.ssm, mem.ssm)
    case Running(chunk, pos, state) =>
      && chunk <= |lens| && Sum(lens, chunk) <= pos <= |p.toks| && (chunk < |lens| ==> pos <= Sum(lens, chunk + 1))
      && state == StateAt(p.ch, p.s0, p.toks, pos)
      && |p.s0| == NextPowerOf2(l.dstate)
      && TokensAt(p, mem0, mem.delta, mem.z, pos)
      && CellsAgree(l, pid, Checkpoints(l, pid.b, pid.d, mem0.ssm, p.s0, p.toks, chunk), mem.ssm)
  }

  // ---------------------------------------------------------------------------------------------
  // A step keeps its own program on track
  // ---------------------------------------------------------------------------------------------

  lemma {:induction false} StoreLanesFrame(l: Launch, ssm: seq<real>, slot: int, d: nat, v: Vec, n: nat, a: int)
    requires n <= |v| && n <= l.dstate && SlotInBounds(l, slot, d, |ssm|) && 0 <= a < |ssm|
    requires forall i :: 0 <= i < n ==> a != SsmAddr(l, slot, d, i)
    ensures StoreLanes(l, ssm, slot, d, v, n)[a] == ssm[a]
  {
    if n > 0 { StoreLanesFrame(l, ssm, slot, d, v, n - 1, a); }
  }

  /** The same store on two memories that agree at a cell leaves them agreeing at that cell. */
  lemma {:induction false} StoreLanesAgree(l: Launch, s: seq<real>, r: seq<real>, slot: int, d: nat, v: Vec, n: nat, a: int)
    requires n <= |v| && n <= l.dstate && |s| == |r| && SlotInBounds(l, slot, d, |s|) && 0 <= a < |s| && s[a] == r[a]
    ensures StoreLanes(l, s, slot, d, v, n)[a] == StoreLanes(l, r, slot, d, v, n)[a]
  {
    if n > 0 { StoreLanesAgree(l, s, r, slot, d, v, n - 1, a); }
  }

  /** A program loads the initial state of the untouched copy. */
  lemma InitialAgree(l: Launch, pid: Pid, ssm0: seq<real>, ssm: seq<real>)
    requires ForwardChunks(l, pid.b) && |ssm0| == |ssm| && CellsAgree(l, pid, ssm0, ssm)
    ensures InitialVector(l, pid.b, pid.d, ssm) == InitialVector(l, pid.b, pid.d, ssm0)
  {
    hide ForwardChunks, SsmAddr, LoadSlot, WritesCell;
    if Loads(l, pid.b) {
      var slot := LoadSlot(l, pid.b);
      forall i | 0 <= i < l.dstate ensures Load(ssm, SsmAddr(l, slot, pid.d, i)) == Load(ssm0, SsmAddr(l, slot, pid.d, i)) {
        assert ReadsCell(l, pid, SsmAddr(l, slot, pid.d, i));
        assert UsesCell(l, pid, SsmAddr(l, slot, pid.d, i));
      }
    }
  }

  /** One token: the input is still there, and its output takes its place. */
  lemma TokenStep(l: Launch, p: Program, mem0: Memory, mem: Memory, pos: nat, state: Vec)
    requires pos < |p.toks| && Fits(p, |mem0.delta|, |mem0.z|) && |mem.delta| == |mem0.delta| && |mem.z| == |mem0.z|
    requires ReadsFrom(l, p, mem0.delta, mem0.z) && TokensAt(p, mem0, mem.delta, mem.z, pos) && state == StateAt(p.ch, p.s0, p.toks, pos)
    ensures var tok := TokenOf(l, p.at, pos, mem.delta[p.at.delta + pos], if l.gated then mem.z[p.at.z + pos] else 0.0);
            var next := Advance(p.ch, state, tok);
            var out := Output(p.ch, next, tok);
            && next == StateAt(p.ch, p.s0, p.toks, pos + 1)
            && TokensAt(p, mem0, mem.delta[p.at.delta + pos := out],
                        if l.gated then mem.z[p.at.z + pos := Gate(p.ch.fn, out, tok.z)] else mem.z, pos + 1)
  {
    hide Advance, Output, Gate, TokenOf;
    var tok := TokenOf(l, p.at, pos, mem.delta[p.at.delta + pos], if l.gated then mem.z[p.at.z + pos] else 0.0);
    assert mem.delta[p.at.delta + pos] == DeltaCell(p, mem0, pos, pos);
    assert l.gated ==> mem.z[p.at.z + pos] == ZCell(p, mem0, pos, pos);
    assert tok == p.toks[pos];
    var next := StateAt(p.ch, p.s0, p.toks, pos + 1);
    assert next == Advance(p.ch, state, tok);
    var y, gated := OutputAt(p.ch, p.s0, p.toks, pos), GatedAt(p.ch, p.s0, p.toks, pos);
    var delta', z' := mem.delta[p.at.delta + pos := y], if l.gated then mem.z[p.at.z + pos := gated] else mem.z;
    var n := pos + 1;
    forall t | 0 <= t < |p.toks|
      ensures delta'[p.at.delta + t] == DeltaCell(p, mem0, n, t)
    {
      assert mem.delta[p.at.delta + t] == DeltaCell(p, mem0, pos, t);
    }
    forall t | 0 <= t < |p.toks| && p.gated
      ensures z'[p.at.z + t] == ZCell(p, mem0, n, t)
    {
      assert mem.z[p.at.z + t] == ZCell(p, mem0, pos, t);
    }
  }

  ghost predicate SameSize(mem0: Memory, mem: Memory) {
    |mem.delta| == |mem0.delta| && |mem.z| == |mem0.z| && |mem.ssm| == |mem0.ssm|
  }

  lemma OnTrackFacts(l: Launch, pid: Pid, mem0: Memory, mem: Memory, local: Local)
    requires Runnable(l, pid, mem0) && SameSize(mem0, mem) && OnTrack(l, pid, mem0, mem, local)
    ensures Runnable(l, pid, mem)
    ensures Within(l, pid, local)
  {
    hide ForwardChunks, SlotInBounds, StoreSlot, ChannelOf, TokensAt, CellsAgree, Checkpoints;
    ProgramReady(l, pid.b, pid.d, mem0.delta, mem0.z, mem0.ssm);
    if local.Running? {
      ChannelWidth(l, pid.d);
      var p := Solo(l, pid, mem0);
      StateWidth(p.ch, p.s0, p.toks, local.pos);
    }
  }

  lemma StoreKeepsOnTrack(l: Launch, pid: Pid, mem0: Memory, ssm: seq<real>, chunk: nat)
    requires Runnable(l, pid, mem0) && |ssm| == |mem0.ssm| && chunk < |Lens(l, pid.b)|
    requires var p := Solo(l, pid, mem0);
             && |p.s0| == NextPowerOf2(l.dstate) && TokenCount(l, pid.b) <= |p.toks|
             && CellsAgree(l, pid, Checkpoints(l, pid.b, pid.d, mem0.ssm, p.s0, p.toks, chunk), ssm)
    ensures var p := Solo(l, pid, mem0); var lens := Lens(l, pid.b);
            && Sum(lens, chunk + 1) <= |p.toks|
            && SlotInBounds(l, StoreSlot(l, pid.b, chunk), pid.d, |ssm|)
            && |StateAt(p.ch, p.s0, p.toks, Sum(lens, chunk + 1))| >= l.dstate
            && CellsAgree(l, pid, Checkpoints(l, pid.b, pid.d, mem0.ssm, p.s0, p.toks, chunk + 1),
                 StoreLanes(l, ssm, StoreSlot(l, pid.b, chunk), pid.d, StateAt(p.ch, p.s0, p.toks, Sum(lens, chunk + 1)), l.dstate))
  {
    hide ForwardChunks, StoreSlot, ChannelOf, Checkpoints, Lens, Tokens, InitialVector, StoreLanes, UsesCell, BasesOf, TokenCount;
    var p := Solo(l, pid, mem0);
    NextChunk(l, pid.b, pid.d, mem0.ssm, p.s0, p.toks, chunk);
    var before := Checkpoints(l, pid.b, pid.d, mem0.ssm, p.s0, p.toks, chunk);
    var v := StateAt(p.ch, p.s0, p.toks, Sum(Lens(l, pid.b), chunk + 1));
    var slot := StoreSlot(l, pid.b, chunk);
    forall a | 0 <= a < |ssm| && UsesCell(l, pid, a)
      ensures StoreLanes(l, ssm, slot, pid.d, v, l.dstate)[a] == StoreLanes(l, before, slot, pid.d, v, l.dstate)[a]
    {
      StoreLanesAgree(l, ssm, before, slot, pid.d, v, l.dstate, a);
    }
  }

  lemma OwnStep(l: Launch, pid: Pid, mem0: Memory, mem: Memory, local: Local)
    requires Runnable(l, pid, mem0) && SameSize(mem0, mem) && OnTrack(l, pid, mem0, mem, local) && Runnable(l, pid, mem)
    requires Within(l, pid, local)
    ensures var (mem', local') := Step(l, pid, mem, local); OnTrack(l, pid, mem0, mem', local')
  {
    hide ForwardChunks, StoreSlot, ChannelOf, Checkpoints, Lens, Tokens, InitialVector, StoreLanes, UsesCell, BasesOf,
      TokensAt, CellsAgree, SlotInBounds, Advance, Output, Gate, TokenOf, Fits, ReadsFrom, PadTo, NextPowerOf2, Sum;
    var p := Solo(l, pid, mem0);
    ProgramReady(l, pid.b, pid.d, mem0.delta, mem0.z, mem0.ssm);
    FirstChunkStart(l, pid.b, pid.d, mem0.ssm, p.s0, p.toks);
    match local
    case Idle =>
      InitialAgree(l, pid, mem0.ssm, mem.ssm);
      if |Lens(l, pid.b)| > 0 {
        NextChunk(l, pid.b, pid.d, mem0.ssm, p.s0, p.toks, 0);
      }
    case Running(chunk, pos, state) =>
      if chunk < |Lens(l, pid.b)| {
        NextChunk(l, pid.b, pid.d, mem0.ssm, p.s0, p.toks, chunk);
        if pos < Sum(Lens(l, pid.b), chunk + 1) {
          TokenStep(l, p, mem0, mem, pos, state);
        } else {
          StoreKeepsOnTrack(l, pid, mem0, mem.ssm, chunk);
          if chunk + 1 < |Lens(l, pid.b)| {
            NextChunk(l, pid.b, pid.d, mem0.ssm, p.s0, p.toks, chunk + 1);
          }
        }
      }
  }

  // ---------------------------------------------------------------------------------------------
  // A step leaves the other programs alone
  // ---------------------------------------------------------------------------------------------

  /** mem' differs from mem at most in tokens of q and cells that q writes. */
  ghost predicate Frame(l: Launch, q: Pid, mem: Memory, mem': Memory)
    requires l.groupSize > 0 && ForwardChunks(l, q.b) && SameSize(mem, mem')
  {
    && (forall a :: 0 <= a < |mem.delta| && !OwnsToken(l, q, BasesOf(l, q.b, q.d).delta, a) ==> mem'.delta[a] == mem.delta[a])
    && (forall a :: 0 <= a < |mem.z| && !(l.gated && OwnsToken(l, q, BasesOf(l, q.b, q.d).z, a)) ==> mem'.z[a] == mem.z[a])
    && (forall a :: 0 <= a < |mem.ssm| && !WritesCell(l, q, a) ==> mem'.ssm[a] == mem.ssm[a])
  }

  lemma StoreFrame(l: Launch, q: Pid, ssm: seq<real>, chunk: nat, state: Vec, a: int)
    requires ForwardChunks(l, q.b) && chunk < |Lens(l, q.b)| && l.dstate <= |state| && 0 <= a < |ssm|
    requires SlotInBounds(l, StoreSlot(l, q.b, chunk), q.d, |ssm|) && !WritesCell(l, q, a)
    ensures StoreLanes(l, ssm, StoreSlot(l, q.b, chunk), q.d, state, l.dstate)[a] == ssm[a]
  {
    hide ForwardChunks, StoreSlot, SsmAddr, StoreLanes, SlotInBounds, Lens;
    var slot := StoreSlot(l, q.b, chunk);
    assert WritesSlot(l, q, slot);
    forall i | 0 <= i < l.dstate ensures a != SsmAddr(l, slot, q.d, i) {
      assert WritesCell(l, q, SsmAddr(l, slot, q.d, i));
    }
    StoreLanesFrame(l, ssm, slot, q.d, state, l.dstate, a);
  }

  lemma StepFrame(l: Launch, q: Pid, mem: Memory, local: Local)
    requires Runnable(l, q, mem)
    requires Within(l, q, local)
    ensures Frame(l, q, mem, Step(l, q, mem, local).0)
  {
    hide ForwardChunks, StoreSlot, ChannelOf, Lens, Tokens, InitialVector, StoreLanes, UsesCell, BasesOf,
      Advance, Output, Gate, TokenOf, PadTo, SlotInBounds, Sum, TokenCount;
    var mem' := Step(l, q, mem, local).0;
    if local.Running? && local.chunk < |Lens(l, q.b)|
       && !(local.pos < Sum(Lens(l, q.b), local.chunk + 1) && local.pos < TokenCount(l, q.b)) {
      forall a | 0 <= a < |mem.ssm| && !WritesCell(l, q, a) ensures mem'.ssm[a] == mem.ssm[a] {
        StoreFrame(l, q, mem.ssm, local.chunk, local.state, a);
      }
    }
  }

  lemma OtherStep(l: Launch, p: Pid, q: Pid, mem0: Memory, mem: Memory, mem': Memory, local: Local)
    requires Runnable(l, p, mem0) && ForwardChunks(l, q.b) && SameSize(mem0, mem) && SameSize(mem, mem')
    requires OnTrack(l, p, mem0, mem, local) && Separate(l, p, q) && Frame(l, q, mem, mem')
    ensures OnTrack(l, p, mem0, mem', local)
  {
    hide ForwardChunks, ChannelOf, Lens, Tokens, InitialVector, UsesCell, BasesOf, Checkpoints, TokenCount, NextPowerOf2,
      StateAt, Sum, InBounds, DeltaCell, ZCell, PadTo;
    ProgramReady(l, p.b, p.d, mem0.delta, mem0.z, mem0.ssm);
    var prog := Solo(l, p, mem0);
    var pos := if local.Running? then local.pos else 0;
    forall t | 0 <= t < |prog.toks|
      ensures mem'.delta[prog.at.delta + t] == DeltaCell(prog, mem0, pos, t)
    {
      assert OwnsToken(l, p, prog.at.delta, prog.at.delta + t);
    }
    forall t | 0 <= t < |prog.toks| && prog.gated
      ensures mem'.z[prog.at.z + t] == ZCell(prog, mem0, pos, t)
    {
      assert OwnsToken(l, p, prog.at.z, prog.at.z + t);
    }
  }

  // ---------------------------------------------------------------------------------------------
  // Every schedule
  // ---------------------------------------------------------------------------------------------

  /** The programs can run side by side on the memory. */
  ghost predicate Grid(l: Launch, pids: set<Pid>, mem: Memory) {
    && (forall p :: p in pids ==> Runnable(l, p, mem))
    && forall p, q :: p in pids && q in pids && p != q ==> l.groupSize > 0 && Separate(l, p, q)
  }

  function Start(pids: set<Pid>, mem: Memory): Config {
    Config(mem, map p | p in pids :: Idle)
  }

  /** Every program is on track, and a cell no program owns holds what it held. */
  ghost predicate Invariant(l: Launch, pids: set<Pid>, mem0: Memory, c: Config)
    requires Grid(l, pids, mem0)
  {
    && SameSize(mem0, c.mem)
    && c.locals.Keys == pids
    && (forall p :: p in pids ==> OnTrack(l, p, mem0, c.mem, c.locals[p]))
    && Untouched(l, pids, mem0, c.mem)
  }

  ghost predicate Untouched(l: Launch, pids: set<Pid>, mem0: Memory, mem: Memory)
    requires Grid(l, pids, mem0) && SameSize(mem0, mem)
  {
    && (forall a :: 0 <= a < |mem.delta| && (forall p :: p in pids ==> !OwnsToken(l, p, BasesOf(l, p.b, p.d).delta, a)) ==>
          mem.delta[a] == mem0.delta[a])
    && (forall a :: 0 <= a < |mem.z| && (forall p :: p in pids ==> !(l.gated && OwnsToken(l, p, BasesOf(l, p.b, p.d).z, a))) ==>
          mem.z[a] == mem0.z[a])
    && (forall a :: 0 <= a < |mem.ssm| && (forall p :: p in pids ==> !WritesCell(l, p, a)) ==> mem.ssm[a] == mem0.ssm[a])
  }

  ghost predicate ScheduleOf(pids: set<Pid>, schedule: seq<Pid>) {
    forall i :: 0 <= i < |schedule| ==> schedule[i] in pids
  }

  /** The programs of the schedule take one step each, in the order it names them. */
  ghost function Exec(l: Launch, pids: set<Pid>, mem0: Memory, schedule: seq<Pid>): (c: Config)
    requires Grid(l, pids, mem0) && ScheduleOf(pids, schedule)
    ensures Invariant(l, pids, mem0, c)
  {
    if schedule == [] then StartOnTrack(l, pids, mem0); Start(pids, mem0)
    else
      var q := schedule[|schedule| - 1];
      var c := Exec(l, pids, mem0, schedule[..|schedule| - 1]);
      StepInvariant(l, pids, mem0, c, q);
      var (mem', local') := Step(l, q, c.mem, c.locals[q]);
      Config(mem', c.locals[q := local'])
  }

  lemma StartOnTrack(l: Launch, pids: set<Pid>, mem0: Memory)
    requires Grid(l, pids, mem0)
    ensures Invariant(l, pids, mem0, Start(pids, mem0))
  {
    hide ForwardChunks, ChannelOf, Lens, Tokens, InitialVector, UsesCell, BasesOf, TokenCount, NextPowerOf2, InBounds, PadTo,
      OutputAt, GatedAt, Separate;
    forall p | p in pids ensures OnTrack(l, p, mem0, mem0, Idle) {
      ProgramReady(l, p.b, p.d, mem0.delta, mem0.z, mem0.ssm);
    }
  }

  lemma StepInvariant(l: Launch, pids: set<Pid>, mem0: Memory, c: Config, q: Pid)
    requires Grid(l, pids, mem0) && Invariant(l, pids, mem0, c) && q in pids
    ensures var local := c.locals[q];
            && Runnable(l, q, c.mem)
            && Within(l, q, local)
            && var (mem', local') := Step(l, q, c.mem, local); Invariant(l, pids, mem0, Config(mem', c.locals[q := local']))
  {
    hide InBounds, OnTrack, Step, Separate, UsesCell, OwnsToken, NextPowerOf2, Lens, TokenCount, BasesOf, ForwardChunks;
    var local := c.locals[q];
    OnTrackFacts(l, q, mem0, c.mem, local);
    OwnStep(l, q, mem0, c.mem, local);
    StepFrame(l, q, c.mem, local);
    var (mem', local') := Step(l, q, c.mem, local);
    forall p | p in pids && p != q ensures OnTrack(l, p, mem0, mem', c.locals[p]) {
      OtherStep(l, p, q, mem0, c.mem, mem', c.locals[p]);
    }
  }

  /** pid's cells hold what pid computes from mem0 alone. */
  ghost predicate Computed(l: Launch, pid: Pid, mem0: Memory, mem: Memory)
    requires Runnable(l, pid, mem0) && SameSize(mem0, mem)
  {
    var p := Solo(l, pid, mem0);
    && |p.toks| == TokenCount(l, pid.b) && |p.s0| == NextPowerOf2(l.dstate)
    && (forall t :: 0 <= t < |p.toks| ==>
          0 <= p.at.delta + t < |mem.delta| && mem.delta[p.at.delta + t] == OutputAt(p.ch, p.s0, p.toks, t))
    && (l.gated ==> forall t :: 0 <= t < |p.toks| ==>
          0 <= p.at.z + t < |mem.z| && mem.z[p.at.z + t] == GatedAt(p.ch, p.s0, p.toks, t))
    && CellsAgree(l, pid, Checkpoints(l, pid.b, pid.d, mem0.ssm, p.s0, p.toks, |Lens(l, pid.b)|), mem.ssm)
  }

  lemma DoneIsComputed(l: Launch, pid: Pid, mem0: Memory, mem: Memory, local: Local)
    requires Runnable(l, pid, mem0) && SameSize(mem0, mem) && OnTrack(l, pid, mem0, mem, local) && Done(l, pid, local)
    ensures Computed(l, pid, mem0, mem)
  {
    hide ForwardChunks, ChannelOf, Lens, Tokens, InitialVector, UsesCell, BasesOf, Checkpoints, NextPowerOf2,
      StateAt, InBounds, PadTo, OutputAt, GatedAt, CellsAgree;
    ProgramReady(l, pid.b, pid.d, mem0.delta, mem0.z, mem0.ssm);
    var p := Solo(l, pid, mem0);
    forall t | 0 <= t < |p.toks| ensures mem.delta[p.at.delta + t] == OutputAt(p.ch, p.s0, p.toks, t) {
      assert mem.delta[p.at.delta + t] == DeltaCell(p, mem0, local.pos, t);
    }
    forall t | 0 <= t < |p.toks| && p.gated ensures mem.z[p.at.z + t] == GatedAt(p.ch, p.s0, p.toks, t) {
      assert mem.z[p.at.z + t] == ZCell(p, mem0, local.pos, t);
    }
  }

  ghost predicate Complete(l: Launch, pids: set<Pid>, mem0: Memory, c: Config)
    requires Grid(l, pids, mem0) && c.locals.Keys == pids
  {
    forall p :: p in pids ==> Done(l, p, c.locals[p])
  }

  /**
   In-place refines out-of-place, under every interleaving: once all programs are done, each has computed what it
   computes from an untouched copy of the inputs, and nothing else has changed.
   */
  lemma EveryScheduleComputesTheScan(l: Launch, pids: set<Pid>, mem0: Memory, schedule: seq<Pid>)
    requires Grid(l, pids, mem0) && ScheduleOf(pids, schedule)
    requires Complete(l, pids, mem0, Exec(l, pids, mem0, schedule))
    ensures var mem := Exec(l, pids, mem0, schedule).mem;
            && SameSize(mem0, mem)
            && (forall p :: p in pids ==> Computed(l, p, mem0, mem))
            && Untouched(l, pids, mem0, mem)
  {
    hide Runnable, Exec, Separate, OnTrack, Done, Computed;
    var c := Exec(l, pids, mem0, schedule);
    forall p | p in pids ensures Computed(l, p, mem0, c.mem) {
      DoneIsComputed(l, p, mem0, c.mem, c.locals[p]);
    }
  }

  lemma GridFacts(l: Launch, pids: set<Pid>, mem0: Memory)
    requires Grid(l, pids, mem0)
    ensures forall p :: p in pids ==> ForwardChunks(l, p.b) && l.groupSize > 0
  {
    hide ForwardChunks, Separate;
  }

  /** The memory is determined cell by cell, so any two complete schedules end in the same memory. */
  lemma SchedulesAgree(l: Launch, pids: set<Pid>, mem0: Memory, m1: Memory, m2: Memory)
    requires Grid(l, pids, mem0) && SameSize(mem0, m1) && SameSize(mem0, m2)
    requires forall p :: p in pids ==> Computed(l, p, mem0, m1) && Computed(l, p, mem0, m2)
    requires Untouched(l, pids, mem0, m1) && Untouched(l, pids, mem0, m2)
    ensures m1 == m2
  {
    hide Runnable, Separate, Computed, UsesCell, OwnsToken, BasesOf, ForwardChunks;
    GridFacts(l, pids, mem0);
    forall a | 0 <= a < |mem0.delta| ensures m1.delta[a] == m2.delta[a] {
      if p :| p in pids && OwnsToken(l, p, BasesOf(l, p.b, p.d).delta, a) {
        SameDelta(l, p, mem0, m1, m2, a);
      }
    }
    forall a | 0 <= a < |mem0.z| ensures m1.z[a] == m2.z[a] {
      if p :| p in pids && l.gated && OwnsToken(l, p, BasesOf(l, p.b, p.d).z, a) {
        SameZ(l, p, mem0, m1, m2, a);
      }
    }
    forall a | 0 <= a < |mem0.ssm| ensures m1.ssm[a] == m2.ssm[a] {
      if p :| p in pids && WritesCell(l, p, a) {
        SameSsm(l, p, mem0, m1, m2, a);
      }
    }
    assert m1.delta == m2.delta && m1.z == m2.z && m1.ssm == m2.ssm;
  }

  lemma SameDelta(l: Launch, p: Pid, mem0: Memory, m1: Memory, m2: Memory, a: int)
    requires Runnable(l, p, mem0) && SameSize(mem0, m1) && SameSize(mem0, m2) && 0 <= a < |mem0.delta|
    requires Computed(l, p, mem0, m1) && Computed(l, p, mem0, m2) && OwnsToken(l, p, BasesOf(l, p.b, p.d).delta, a)
    ensures m1.delta[a] == m2.delta[a]
  {
    hide Runnable, ForwardChunks, BasesOf, CellsAgree, OutputAt, GatedAt, Tokens, TokenCount, Checkpoints, InitialVector;
    var prog := Solo(l, p, mem0);
    assert m1.delta[prog.at.delta + (a - prog.at.delta)] == OutputAt(prog.ch, prog.s0, prog.toks, a - prog.at.delta);
  }

  lemma SameZ(l: Launch, p: Pid, mem0: Memory, m1: Memory, m2: Memory, a: int)
    requires Runnable(l, p, mem0) && SameSize(mem0, m1) && SameSize(mem0, m2) && 0 <= a < |mem0.z| && l.gated
    requires Computed(l, p, mem0, m1) && Computed(l, p, mem0, m2) && OwnsToken(l, p, BasesOf(l, p.b, p.d).z, a)
    ensures m1.z[a] == m2.z[a]
  {
    hide Runnable, ForwardChunks, BasesOf, CellsAgree, OutputAt, GatedAt, Tokens, TokenCount, Checkpoints, InitialVector;
    var prog := Solo(l, p, mem0);
    assert m1.z[prog.at.z + (a - prog.at.z)] == GatedAt(prog.ch, prog.s0, prog.toks, a - prog.at.z);
  }

  lemma SameSsm(l: Launch, p: Pid, mem0: Memory, m1: Memory, m2: Memory, a: int)
    requires Runnable(l, p, mem0) && SameSize(mem0, m1) && SameSize(mem0, m2) && 0 <= a < |mem0.ssm|
    requires Computed(l, p, mem0, m1) && Computed(l, p, mem0, m2) && WritesCell(l, p, a)
    ensures m1.ssm[a] == m2.ssm[a]
  {
    hide ForwardChunks, BasesOf, OutputAt, GatedAt, Tokens, Checkpoints, InitialVector, ReadsCell, WritesCell;
    assert UsesCell(l, p, a);
  }

  /** The sequential program ScanProgram, run alone, is one of these computations. */
  lemma FinishedIsComputed(l: Launch, pid: Pid, mem0: Memory, mem: Memory)
    requires Runnable(l, pid, mem0) && SameSize(mem0, mem)
    requires Finished(l, pid.b, pid.d, mem0.delta, mem0.z, mem0.ssm, mem.delta, mem.z, mem.ssm)
    ensures Computed(l, pid, mem0, mem)
  {
    hide ForwardChunks, ChannelOf, Lens, Tokens, InitialVector, UsesCell, BasesOf, Checkpoints, NextPowerOf2,
      InBounds, PadTo, OutputAt, GatedAt;
    ProgramReady(l, pid.b, pid.d, mem0.delta, mem0.z, mem0.ssm);
    var p := Solo(l, pid, mem0);
    forall t | 0 <= t < |p.toks| ensures mem.delta[p.at.delta + t] == OutputAt(p.ch, p.s0, p.toks, t) {
      assert mem.delta[p.at.delta + t] == Outs(p.ch, p.s0, p.toks, |p.toks|)[t];
    }
    forall t | 0 <= t < |p.toks| && p.gated ensures mem.z[p.at.z + t] == GatedAt(p.ch, p.s0, p.toks, t) {
      assert mem.z[p.at.z + t] == GatedOuts(p.ch, p.s0, p.toks, |p.toks|)[t];
    }
  }

  /** Any two schedules that let every program finish end in the same memory. */
  lemma AnyTwoSchedulesAgree(l: Launch, pids: set<Pid>, mem0: Memory, s1: seq<Pid>, s2: seq<Pid>)
    requires Grid(l, pids, mem0)
    requires ScheduleOf(pids, s1) && ScheduleOf(pids, s2)
    requires Complete(l, pids, mem0, Exec(l, pids, mem0, s1)) && Complete(l, pids, mem0, Exec(l, pids, mem0, s2))
    ensures Exec(l, pids, mem0, s1).mem == Exec(l, pids, mem0, s2).mem
  {
    hide *;
    EveryScheduleComputesTheScan(l, pids, mem0, s1);
    EveryScheduleComputesTheScan(l, pids, mem0, s2);
    SchedulesAgree(l, pids, mem0, Exec(l, pids, mem0, s1).mem, Exec(l, pids, mem0, s2).mem);
  }

  // ---------------------------------------------------------------------------------------------
  // Progress, and a layout that is separate
  // ---------------------------------------------------------------------------------------------

  /** Steps a program still has to take. */
  function Remaining(l: Launch, pid: Pid, local: Local): int
    requires ForwardChunks(l, pid.b)
  {
    match local
    case Idle => 1 + TokenCount(l, pid.b) + |Lens(l, pid.b)|
    case Running(chunk, pos, _) => TokenCount(l, pid.b) - pos + |Lens(l, pid.b)| - chunk
  }

  /** Each step of a program that is not done brings it one step closer. */
  lemma StepsAreProgress(l: Launch, pid: Pid, mem0: Memory, mem: Memory, local: Local)
    requires Runnable(l, pid, mem0) && SameSize(mem0, mem) && OnTrack(l, pid, mem0, mem, local) && Runnable(l, pid, mem)
    requires Within(l, pid, local)
    ensures Remaining(l, pid, local) >= 0 && (Remaining(l, pid, local) == 0 <==> Done(l, pid, local))
    ensures !Done(l, pid, local) ==> Remaining(l, pid, Step(l, pid, mem, local).1) == Remaining(l, pid, local) - 1
  {
    hide ForwardChunks, ChannelOf, Lens, Tokens, InitialVector, UsesCell, BasesOf, Checkpoints, NextPowerOf2,
      StateAt, InBounds, PadTo, CellsAgree, TokensAt, Advance, Output, Gate, TokenOf, StoreLanes, StoreSlot;
    ProgramReady(l, pid.b, pid.d, mem0.delta, mem0.z, mem0.ssm);
  }

  /** One more step of q. */
  lemma OneMore(l: Launch, pids: set<Pid>, mem0: Memory, schedule: seq<Pid>, q: Pid)
    requires Grid(l, pids, mem0) && ScheduleOf(pids, schedule) && q in pids && ForwardChunks(l, q.b)
    ensures ScheduleOf(pids, schedule + [q])
    ensures var c, c' := Exec(l, pids, mem0, schedule), Exec(l, pids, mem0, schedule + [q]);
            && (forall p :: p in pids && p != q ==> c'.locals[p] == c.locals[p])
            && Remaining(l, q, c.locals[q]) >= 0
            && (!Done(l, q, c.locals[q]) ==> Remaining(l, q, c'.locals[q]) == Remaining(l, q, c.locals[q]) - 1)
  {
    hide Grid, Done, Remaining, Step, Within, OnTrack, Untouched, Runnable, ForwardChunks;
    var c := Exec(l, pids, mem0, schedule);
    assert (schedule + [q])[..|schedule|] == schedule;
    StepInvariant(l, pids, mem0, c, q);
    GridRuns(l, pids, mem0, q);
    StepsAreProgress(l, q, mem0, c.mem, c.locals[q]);
  }

  lemma GridRuns(l: Launch, pids: set<Pid>, mem0: Memory, q: Pid)
    requires Grid(l, pids, mem0) && q in pids
    ensures Runnable(l, q, mem0)
  {
  }

  /** Any schedule can be continued until q is done, without moving the other programs. */
  lemma {:induction false} RunToEnd(l: Launch, pids: set<Pid>, mem0: Memory, schedule: seq<Pid>, q: Pid) returns (longer: seq<Pid>)
    requires Grid(l, pids, mem0) && ScheduleOf(pids, schedule) && q in pids && ForwardChunks(l, q.b)
    ensures ScheduleOf(pids, longer)
    ensures var c, c' := Exec(l, pids, mem0, schedule), Exec(l, pids, mem0, longer);
            Done(l, q, c'.locals[q]) && forall p :: p in pids && p != q ==> c'.locals[p] == c.locals[p]
    decreases Remaining(l, q, Exec(l, pids, mem0, schedule).locals[q])
  {
    hide Grid, Done, Remaining, Exec, Invariant, ForwardChunks;
    OneMore(l, pids, mem0, schedule, q);
    KeysOf(l, pids, mem0, schedule);
    if Done(l, q, Exec(l, pids, mem0, schedule).locals[q]) {
      longer := schedule;
    } else {
      KeysOf(l, pids, mem0, schedule + [q]);
      longer := RunToEnd(l, pids, mem0, schedule + [q], q);
      KeysOf(l, pids, mem0, longer);
    }
  }

  lemma KeysOf(l: Launch, pids: set<Pid>, mem0: Memory, schedule: seq<Pid>)
    requires Grid(l, pids, mem0) && ScheduleOf(pids, schedule)
    ensures Exec(l, pids, mem0, schedule).locals.Keys == pids
  {
  }

  lemma {:induction false} FinishAll(l: Launch, pids: set<Pid>, mem0: Memory, todo: set<Pid>, schedule: seq<Pid>)
    returns (longer: seq<Pid>)
    requires Grid(l, pids, mem0) && ScheduleOf(pids, schedule) && todo <= pids
    requires forall p :: p in pids ==> ForwardChunks(l, p.b)
    ensures ScheduleOf(pids, longer) && Exec(l, pids, mem0, longer).locals.Keys == pids
    ensures forall p :: p in pids - todo ==> Exec(l, pids, mem0, longer).locals[p] == Exec(l, pids, mem0, schedule).locals[p]
    ensures forall p :: p in todo ==> Done(l, p, Exec(l, pids, mem0, longer).locals[p])
    decreases todo
  {
    hide Grid, Done, Remaining, Exec, Invariant, ForwardChunks;
    KeysOf(l, pids, mem0, schedule);
    if todo == {} {
      longer := schedule;
    } else {
      var q :| q in todo;
      var next := RunToEnd(l, pids, mem0, schedule, q);
      KeysOf(l, pids, mem0, next);
      longer := FinishAll(l, pids, mem0, todo - {q}, next);
      KeysOf(l, pids, mem0, longer);
    }
  }

  /** Every schedule can be continued until all programs are done, so there is always a complete one. */
  lemma CompleteScheduleExists(l: Launch, pids: set<Pid>, mem0: Memory, schedule: seq<Pid>) returns (longer: seq<Pid>)
    requires Grid(l, pids, mem0) && ScheduleOf(pids, schedule)
    ensures ScheduleOf(pids, longer) && Complete(l, pids, mem0, Exec(l, pids, mem0, longer))
  {
    hide Done, Exec, Invariant, ForwardChunks, Separate;
    GridFacts(l, pids, mem0);
    longer := FinishAll(l, pids, mem0, pids, schedule);
  }

  /** A packed variable-length tensor: unit token stride, one row of at least `total` tokens per dim. */
  ghost predicate Packed(l: Launch, st: Strides, total: nat) {
    && l.queryStart.Some? && st.batch == 1 && st.dim >= total
    && Sorted(l.queryStart.value)
    && forall i :: 0 <= i < |l.queryStart.value| ==> l.queryStart.value[i] <= total
  }

  /** In a packed batch no token position belongs to two programs. */
  lemma PackedRangesAreDisjoint(l: Launch, st: Strides, total: nat, p: Pid, q: Pid, a: int)
    requires ForwardChunks(l, p.b) && ForwardChunks(l, q.b) && Packed(l, st, total) && p != q
    requires p.b + 1 < |l.queryStart.value| && q.b + 1 < |l.queryStart.value|
    requires TokenCount(l, p.b) == ActualSeqlen(l, p.b) && TokenCount(l, q.b) == ActualSeqlen(l, q.b)
    ensures !(OwnsToken(l, p, Base(l, st, p.b, p.d), a) && OwnsToken(l, q, Base(l, st, q.b, q.d), a))
  {
    hide TokenCount, ForwardChunks;
    var qs := l.queryStart.value;
    if p.d < q.d {
      RowsApart(st.dim, p.d, q.d);
    } else if q.d < p.d {
      RowsApart(st.dim, q.d, p.d);
    } else if p.b < q.b {
      assert qs[p.b + 1] <= qs[q.b];
    } else {
      assert qs[q.b + 1] <= qs[p.b];
    }
  }

  lemma RowsApart(width: nat, d: nat, e: nat)
    requires d < e
    ensures d * width + width <= e * width
  {
    MulMonotone(d + 1, e, width);
  }
}
