/**
 The monitor/wait spin loop, interleaved with writers.

 The waiter polls a condition on a buffer. Where the processor supports it, it arms a hardware monitor on the buffer's
 address, polls once more, and then waits until the monitored line is written. Reading the buffer takes one step per
 byte, and other threads may write between any two steps. A run is any sequence of steps.
 */
module SpinLoop {

  /** `maxLine` is the largest line the processor may watch, which is what the loop asks for; `lineSize` the one it watches. */
  datatype Config = Config(
    len: nat, addr: nat, maxLine: nat, lineSize: nat, monitorx: bool, timeout: real, start: real,
    condition: seq<int> -> bool)

  /** Where the waiter is. While it evaluates the callback it holds the bytes read so far. */
  datatype Phase =
    | Poll(bytes: seq<int>)
    | Clock
    | Arm
    | Recheck(bytes: seq<int>)
    | Wait
    | Pause
    | Returned(result: bool)
    | Failed

  datatype State = State(buffer: seq<int>, armed: bool, triggered: bool, now: real, iteration: nat, phase: Phase)

  const WORD: nat := 0x1_0000_0000

  /** The unsigned counter. */
  function Wrapped(n: nat): nat { n % WORD }

  /** buffer.len <= max_monitor_line_size */
  predicate Qualifies(c: Config) {
    c.len <= c.maxLine
  }

  /** The loop uses the monitor. */
  predicate Monitors(c: Config) {
    Qualifies(c) && c.monitorx
  }

  /** Byte i of the buffer lies in the line that contains the buffer's first byte: the line monitorx watches. */
  predicate InLine(c: Config, i: nat) {
    c.lineSize > 0 && c.addr % c.lineSize + i < c.lineSize
  }

  /** The whole buffer lies in that line. */
  predicate Covered(c: Config) {
    forall i :: 0 <= i < c.len ==> InLine(c, i)
  }

  /** A timeout of a nanosecond or less stands for none. */
  predicate HasTimeout(c: Config) {
    c.timeout > 0.000000001
  }

  /** The deadline, if there is one, has passed. */
  predicate Expired(c: Config, now: real) {
    HasTimeout(c) && now - c.start >= c.timeout
  }

  // ---------------------------------------------------------------------------------------------
  // Steps
  // ---------------------------------------------------------------------------------------------

  /** The clock check of the iteration reads the clock. */
  predicate ReadsClock(c: Config, s: State) {
    HasTimeout(c) && s.iteration % 16 == 0
  }

  /** The waiter's next step. Failure of the callback or of the clock is a separate step. */
  function Waiter(c: Config, s: State): State
    requires |s.buffer| == c.len
  {
    match s.phase
    case Poll(bytes) =>
      if |bytes| < c.len then s.(phase := Poll(bytes + [s.buffer[|bytes|]]))
      else if c.condition(bytes) then s.(phase := Returned(true))
      else s.(phase := Clock)
    case Clock =>
      if ReadsClock(c, s) && Expired(c, s.now) then s.(phase := Returned(false))
      else s.(iteration := Wrapped(s.iteration + 1),
              phase := if Monitors(c) then Arm else Pause)
    case Arm => s.(armed := true, triggered := false, phase := Recheck([]))
    case Recheck(bytes) =>
      if |bytes| < c.len then s.(phase := Recheck(bytes + [s.buffer[|bytes|]]))
      else if c.condition(bytes) then s.(phase := Returned(true))
      else s.(phase := Wait)
    case Wait => s.(armed := false, phase := Poll([]))
    case Pause => s.(phase := Poll([]))
    case Returned(_) => s
    case Failed => s
  }

  /** The waiter uses something that may fail: the callback, or the clock when it is read. */
  predicate MayFail(c: Config, s: State) {
    s.phase.Poll? || s.phase.Recheck? || (s.phase.Clock? && ReadsClock(c, s))
  }

  ghost predicate WaiterFails(c: Config, s: State, s': State) {
    MayFail(c, s) && s' == s.(phase := Failed)
  }

  /** Another thread writes a byte of the buffer; a write to the monitored line triggers an armed monitor. */
  ghost predicate Writes(c: Config, s: State, s': State, i: nat, v: int)
    requires |s.buffer| == c.len
  {
    i < c.len && s' == s.(buffer := s.buffer[i := v], triggered := s.triggered || (s.armed && InLine(c, i)))
  }

  /** A write to some other byte of the line, or an interrupt. */
  ghost predicate Spurious(s: State, s': State) {
    s.armed && s' == s.(triggered := true)
  }

  ghost predicate Ticks(s: State, s': State) {
    s'.now >= s.now && s' == s.(now := s'.now)
  }

  ghost predicate Next(c: Config, s: State, s': State)
    requires |s.buffer| == c.len
  {
    || s' == Waiter(c, s)
    || WaiterFails(c, s, s')
    || (exists i: nat, v :: Writes(c, s, s', i, v))
    || Spurious(s, s')
    || Ticks(s, s')
  }

  ghost predicate Init(c: Config, s: State) {
    |s.buffer| == c.len && !s.armed && !s.triggered && s.now >= c.start && s.iteration == 0 && s.phase == Poll([])
  }

  ghost predicate IsRun(c: Config, run: seq<State>) {
    && |run| > 0 && Init(c, run[0])
    && (forall k :: 0 <= k < |run| ==> |run[k].buffer| == c.len)
    && forall k :: 0 <= k < |run| - 1 ==> Next(c, run[k], run[k + 1])
  }

  // ---------------------------------------------------------------------------------------------
  // No lost wakeup
  // ---------------------------------------------------------------------------------------------

  /** The waiter sleeps on an untriggered monitor although the condition holds. */
  ghost predicate Lost(c: Config, s: State) {
    s.phase.Wait? && !s.triggered && c.condition(s.buffer)
  }

  /** While an armed monitor is untriggered, the bytes read since arming are still the buffer's bytes. */
  ghost predicate Faithful(c: Config, s: State) {
    && |s.buffer| == c.len
    && (s.phase.Recheck? ==> s.armed && |s.phase.bytes| <= c.len && (!s.triggered ==> s.phase.bytes == s.buffer[..|s.phase.bytes|]))
    && (s.phase.Wait? ==> s.armed && (!s.triggered ==> !c.condition(s.buffer)))
  }

  lemma FaithfulStep(c: Config, s: State, s': State)
    requires Covered(c) && Faithful(c, s) && Next(c, s, s')
    ensures Faithful(c, s')
  {
    if s.phase.Recheck? && s' == Waiter(c, s) {
      if |s.phase.bytes| < c.len {
        assert s.buffer[..|s.phase.bytes| + 1] == s.buffer[..|s.phase.bytes|] + [s.buffer[|s.phase.bytes|]];
      } else {
        assert s.buffer[..|s.buffer|] == s.buffer;
      }
    }
  }

  lemma {:induction false} FaithfulAlways(c: Config, run: seq<State>, k: nat)
    requires Covered(c) && IsRun(c, run) && k < |run|
    ensures Faithful(c, run[k])
  {
    if k > 0 {
      FaithfulAlways(c, run, k - 1);
      assert Next(c, run[k - 1], run[k - 1 + 1]);
      FaithfulStep(c, run[k - 1], run[k]);
    }
  }

  /** If the buffer lies within one monitored line, no interleaving loses a wakeup. */
  lemma NoLostWakeup(c: Config, run: seq<State>, k: nat)
    requires Covered(c) && IsRun(c, run) && k < |run|
    ensures !Lost(c, run[k])
  {
    FaithfulAlways(c, run, k);
  }

  // ---------------------------------------------------------------------------------------------
  // ... and only then
  // ---------------------------------------------------------------------------------------------

  /** The state after n steps of the waiter alone. */
  function After(c: Config, s: State, n: nat): (r: State)
    requires |s.buffer| == c.len
    ensures r.buffer == s.buffer
  {
    if n == 0 then s else Waiter(c, After(c, s, n - 1))
  }

  function Alone(c: Config, s: State, n: nat): seq<State>
    requires |s.buffer| == c.len
  {
    seq(n + 1, k requires 0 <= k <= n => After(c, s, k))
  }

  lemma {:induction false} AfterAfter(c: Config, s: State, m: nat, n: nat)
    requires |s.buffer| == c.len
    ensures After(c, s, m + n) == After(c, After(c, s, m), n)
  {
    hide Waiter;
    if n > 0 { AfterAfter(c, s, m, n - 1); }
  }

  lemma ReadOne(c: Config, s: State)
    requires |s.buffer| == c.len && (s.phase.Poll? || s.phase.Recheck?) && |s.phase.bytes| < c.len
    ensures var bytes := s.phase.bytes + [s.buffer[|s.phase.bytes|]];
            Waiter(c, s) == s.(phase := if s.phase.Poll? then Poll(bytes) else Recheck(bytes))
  {
  }

  lemma {:induction false} PollReads(c: Config, s: State, n: nat)
    requires |s.buffer| == c.len && n <= c.len && s.phase == Poll([])
    ensures After(c, s, n) == s.(phase := Poll(s.buffer[..n]))
  {
    hide Waiter;
    if n > 0 {
      PollReads(c, s, n - 1);
      ReadOne(c, s.(phase := Poll(s.buffer[..n - 1])));
      assert s.buffer[..n] == s.buffer[..n - 1] + [s.buffer[n - 1]];
    }
  }

  lemma {:induction false} RecheckReads(c: Config, s: State, n: nat)
    requires |s.buffer| == c.len && n <= c.len && s.phase == Recheck([])
    ensures After(c, s, n) == s.(phase := Recheck(s.buffer[..n]))
  {
    hide Waiter;
    if n > 0 {
      RecheckReads(c, s, n - 1);
      ReadOne(c, s.(phase := Recheck(s.buffer[..n - 1])));
      assert s.buffer[..n] == s.buffer[..n - 1] + [s.buffer[n - 1]];
    }
  }

  /** The steps between the two readings, and into the wait. */
  lemma BetweenReadings(c: Config, s: State)
    requires |s.buffer| == c.len && s.iteration == 0 && Monitors(c) && !c.condition(s.buffer) && !Expired(c, s.now)
    ensures Waiter(c, s.(phase := Poll(s.buffer))) == s.(phase := Clock)
    ensures Waiter(c, s.(phase := Clock)) == s.(iteration := 1, phase := Arm)
    ensures Waiter(c, s.(iteration := 1, phase := Arm)) == s.(armed := true, triggered := false, iteration := 1, phase := Recheck([]))
    ensures Waiter(c, s.(armed := true, triggered := false, iteration := 1, phase := Recheck(s.buffer)))
         == s.(armed := true, triggered := false, iteration := 1, phase := Wait)
  {
  }

  /** Undisturbed, with a false condition and time left, the waiter arrives in the wait. */
  lemma ReachesWait(c: Config, s: State) returns (n: nat)
    requires |s.buffer| == c.len && s.phase == Poll([]) && s.iteration == 0 && Monitors(c)
    requires !c.condition(s.buffer) && !Expired(c, s.now)
    ensures After(c, s, n) == s.(armed := true, triggered := false, iteration := 1, phase := Wait)
  {
    hide Waiter;
    PollReads(c, s, c.len);
    assert s.buffer[..c.len] == s.buffer;
    BetweenReadings(c, s);
    var armed := s.(armed := true, triggered := false, iteration := 1, phase := Recheck([]));
    assert After(c, s, c.len + 1) == s.(phase := Clock);
    assert After(c, s, c.len + 2) == s.(iteration := 1, phase := Arm);
    assert After(c, s, c.len + 3) == armed;
    RecheckReads(c, armed, c.len);
    assert After(c, armed, c.len + 1) == s.(armed := true, triggered := false, iteration := 1, phase := Wait);
    AfterAfter(c, s, c.len + 3, c.len + 1);
    n := c.len + 3 + (c.len + 1);
  }

  /** A buffer that straddles the line can be written without waking the waiter. */
  lemma LostWakeupHappens(c: Config, i: nat) returns (condition: seq<int> -> bool, run: seq<State>)
    requires Monitors(c) && i < c.len && !InLine(c, i)
    ensures var c' := c.(condition := condition); IsRun(c', run) && Lost(c', run[|run| - 1])
  {
    hide Waiter;
    condition := b => i < |b| && b[i] == 1;
    var c' := c.(condition := condition);
    var s := State(seq(c.len, _ => 0), false, false, c.start, 0, Poll([]));
    var n := ReachesWait(c', s);
    var asleep := After(c', s, n);
    var written := asleep.(buffer := asleep.buffer[i := 1]);
    assert Writes(c', asleep, written, i, 1);
    run := Alone(c', s, n) + [written];
    forall k | 0 <= k < |run| - 1 ensures Next(c', run[k], run[k + 1]) {
      if k < n { assert run[k + 1] == Waiter(c', run[k]); }
    }
  }

  /** Without the monitor the waiter only polls. */
  lemma {:induction false} OnlyPolls(c: Config, run: seq<State>, k: nat)
    requires !(c.monitorx && c.len <= c.maxLine) && IsRun(c, run) && k < |run|
    ensures !run[k].phase.Arm? && !run[k].phase.Recheck? && !run[k].phase.Wait?
  {
    if k > 0 {
      OnlyPolls(c, run, k - 1);
      assert Next(c, run[k - 1], run[k - 1 + 1]);
    }
  }

  /** The buffer does not reach past the end of the line its first byte is in. */
  predicate WithinLine(c: Config) {
    c.len == 0 || (c.lineSize > 0 && c.addr % c.lineSize + c.len <= c.lineSize)
  }

  /**
   The exact condition. Every condition on the buffer is safe from lost wakeups if and only if the monitor is not used or
   the buffer lies within one line. The loop's own test, on the length alone, does not ensure this.
   */
  lemma NoLostWakeupExactly(c: Config)
    ensures (forall condition: seq<int> -> bool, run: seq<State>, k: nat ::
               var c' := c.(condition := condition); IsRun(c', run) && k < |run| ==> !Lost(c', run[k]))
       <==> (c.monitorx && 0 < c.len <= c.maxLine ==> c.lineSize > 0 && c.addr % c.lineSize + c.len <= c.lineSize)
  {
    if Monitors(c) ==> WithinLine(c) {
      forall condition: seq<int> -> bool, run: seq<State>, k: nat | IsRun(c.(condition := condition), run) && k < |run|
        ensures !Lost(c.(condition := condition), run[k])
      {
        if Monitors(c) {
          assert Covered(c);
          NoLostWakeup(c.(condition := condition), run, k);
        } else {
          OnlyPolls(c.(condition := condition), run, k);
        }
      }
    } else {
      var condition, run := LostWakeupHappens(c, c.len - 1);
      assert Lost(c.(condition := condition), run[|run| - 1]);
    }
  }

  // ---------------------------------------------------------------------------------------------
  // The condition is noticed, and nothing else is taken for it
  // ---------------------------------------------------------------------------------------------

  lemma ReadingEnds(c: Config, s: State)
    requires |s.buffer| == c.len && (s.phase == Poll(s.buffer) || s.phase == Recheck(s.buffer)) && c.condition(s.buffer)
    ensures Waiter(c, s).phase == Returned(true)
  {
  }

  /** Undisturbed, a reading of a buffer on which the condition holds ends the loop, before the monitor is armed and after. */
  lemma ConditionIsNoticed(c: Config, s: State)
    requires |s.buffer| == c.len && (s.phase == Poll([]) || s.phase == Recheck([])) && c.condition(s.buffer)
    ensures After(c, s, c.len + 1).phase == Returned(true)
  {
    hide Waiter;
    if s.phase == Poll([]) { PollReads(c, s, c.len); } else { RecheckReads(c, s, c.len); }
    assert s.buffer[..c.len] == s.buffer;
    ReadingEnds(c, After(c, s, c.len));
  }

  /** The waiter is in the middle of a reading that agrees with the buffer, or done with it. */
  ghost predicate Noticing(s: State) {
    match s.phase
    case Poll(bytes) => |bytes| <= |s.buffer| && bytes == s.buffer[..|bytes|]
    case Recheck(bytes) => |bytes| <= |s.buffer| && bytes == s.buffer[..|bytes|]
    case Returned(result) => result
    case Failed => true
    case _ => false
  }

  lemma NoticingStep(c: Config, s: State, s': State)
    requires |s.buffer| == c.len && Next(c, s, s') && s'.buffer == s.buffer && c.condition(s.buffer) && Noticing(s)
    ensures Noticing(s')
  {
    if s' == Waiter(c, s) && (s.phase.Poll? || s.phase.Recheck?) {
      var n := |s.phase.bytes|;
      if n < c.len {
        assert s.buffer[..n + 1] == s.buffer[..n] + [s.buffer[n]];
      } else {
        assert s.buffer[..n] == s.buffer;
      }
    }
  }

  /** In every run: while the buffer keeps satisfying the condition, a reading begun on it goes nowhere but to the end. */
  lemma {:induction false} NeverOverlooked(c: Config, run: seq<State>, j: nat, k: nat)
    requires IsRun(c, run) && j <= k < |run| && (run[j].phase == Poll([]) || run[j].phase == Recheck([]))
    requires c.condition(run[j].buffer) && forall m :: j <= m <= k ==> run[m].buffer == run[j].buffer
    ensures Noticing(run[k])
  {
    hide Next;
    if k > j {
      NeverOverlooked(c, run, j, k - 1);
      assert Next(c, run[k - 1], run[k - 1 + 1]);
      NoticingStep(c, run[k - 1], run[k]);
    }
  }

  /** The callback or the clock may fail whenever they are used, and that ends the loop at once. */
  lemma FailureEndsLoop(c: Config, s: State)
    requires |s.buffer| == c.len
    ensures Next(c, s, s.(phase := Failed)) <==>
      || s.phase.Failed? || s.phase.Poll? || s.phase.Recheck?
      || (s.phase.Clock? && c.timeout > 0.000000001 && s.iteration % 16 == 0)
  {
    if s.phase == Failed { assert s == s.(phase := Failed) == Waiter(c, s); }
  }

  /** In every run the end is final. */
  lemma {:induction false} EndIsFinal(c: Config, run: seq<State>, j: nat, k: nat)
    requires IsRun(c, run) && j <= k < |run| && (run[j].phase.Returned? || run[j].phase.Failed?)
    ensures run[k].phase == run[j].phase
  {
    if k > j {
      EndIsFinal(c, run, j, k - 1);
      assert Next(c, run[k - 1], run[k - 1 + 1]);
    }
  }

  /** The bytes were read from the buffer one after the other, byte i in state at[i] of the run, before state k. */
  ghost predicate ReadAt(run: seq<State>, k: nat, bytes: seq<int>, at: seq<nat>)
    requires k <= |run|
  {
    && |at| == |bytes|
    && (forall i :: 0 <= i < |at| ==> at[i] < k && i < |run[at[i]].buffer| && bytes[i] == run[at[i]].buffer[i])
    && forall i, j :: 0 <= i < j < |at| ==> at[i] < at[j]
  }

  ghost predicate WasRead(run: seq<State>, k: nat, bytes: seq<int>)
    requires k <= |run|
  {
    exists at: seq<nat> :: ReadAt(run, k, bytes, at)
  }

  lemma ReadMore(run: seq<State>, k: nat, bytes: seq<int>)
    requires k < |run| && WasRead(run, k, bytes)
    ensures WasRead(run, k + 1, bytes)
    ensures |bytes| < |run[k].buffer| ==> WasRead(run, k + 1, bytes + [run[k].buffer[|bytes|]])
  {
    var at: seq<nat> :| ReadAt(run, k, bytes, at);
    assert ReadAt(run, k + 1, bytes, at);
    if |bytes| < |run[k].buffer| {
      assert ReadAt(run, k + 1, bytes + [run[k].buffer[|bytes|]], at + [k]);
    }
  }

  lemma NothingRead(run: seq<State>, k: nat)
    requires k <= |run|
    ensures WasRead(run, k, [])
  {
    assert ReadAt(run, k, [], []);
  }

  /** What the phase says about readings: the one going on, and the one that ended the loop. */
  ghost predicate Founded(c: Config, run: seq<State>, k: nat)
    requires k < |run|
  {
    match run[k].phase
    case Poll(bytes) => |bytes| <= c.len && WasRead(run, k, bytes)
    case Recheck(bytes) => |bytes| <= c.len && WasRead(run, k, bytes)
    case Returned(result) => result ==> exists bytes :: |bytes| == c.len && c.condition(bytes) && WasRead(run, k, bytes)
    case _ => true
  }

  lemma FoundedStep(c: Config, run: seq<State>, k: nat)
    requires k + 1 < |run| && |run[k].buffer| == c.len && Next(c, run[k], run[k + 1]) && Founded(c, run, k)
    ensures Founded(c, run, k + 1)
  {
    hide WasRead;
    NothingRead(run, k + 1);
    var p := run[k].phase;
    if p.Poll? || p.Recheck? {
      ReadMore(run, k, p.bytes);
    } else if p == Returned(true) {
      var bytes :| |bytes| == c.len && c.condition(bytes) && WasRead(run, k, bytes);
      ReadMore(run, k, bytes);
    }
  }

  /** In every run, the loop returns true only on bytes it has read one after the other and of which the condition holds. */
  lemma {:induction false} TrueIsFounded(c: Config, run: seq<State>, k: nat)
    requires IsRun(c, run) && k < |run|
    ensures Founded(c, run, k)
  {
    hide Next, WasRead;
    if k == 0 {
      NothingRead(run, 0);
    } else {
      TrueIsFounded(c, run, k - 1);
      assert Next(c, run[k - 1], run[k - 1 + 1]);
      FoundedStep(c, run, k - 1);
    }
  }

  // ---------------------------------------------------------------------------------------------
  // The timeout
  // ---------------------------------------------------------------------------------------------

  /** Step k of the run passes the clock check, so the iteration goes on. */
  ghost predicate Passes(run: seq<State>, k: nat) {
    k + 1 < |run| && run[k].phase.Clock? && (run[k + 1].phase.Arm? || run[k + 1].phase.Pause?)
  }

  /** Iterations that have passed the clock check before state k. */
  ghost function Passed(run: seq<State>, k: nat): nat {
    if k == 0 then 0 else Passed(run, k - 1) + if Passes(run, k - 1) then 1 else 0
  }

  lemma StepOfRun(c: Config, run: seq<State>, k: nat)
    requires IsRun(c, run) && 0 < k < |run|
    ensures |run[k - 1].buffer| == c.len && Next(c, run[k - 1], run[k])
  {
    hide Next;
    assert Next(c, run[k - 1], run[k - 1 + 1]);
  }

  /** The counter counts these iterations, modulo its word. */
  lemma {:induction false} CounterCounts(c: Config, run: seq<State>, k: nat)
    requires IsRun(c, run) && k < |run|
    ensures run[k].iteration == Wrapped(Passed(run, k))
  {
    hide Next, Wrapped;
    WordNext(Passed(run, 0));
    if k > 0 {
      CounterCounts(c, run, k - 1);
      StepOfRun(c, run, k);
      StepCounts(c, run[k - 1], run[k]);
      WordNext(Passed(run, k - 1));
    }
  }

  lemma StepCounts(c: Config, s: State, s': State)
    requires |s.buffer| == c.len && Next(c, s, s')
    ensures s'.iteration
         == if s.phase.Clock? && (s'.phase.Arm? || s'.phase.Pause?) then Wrapped(s.iteration + 1) else s.iteration
  {
  }

  lemma WrappedIs(n: nat, q: nat, r: nat)
    requires n == q * WORD + r && r < WORD
    ensures Wrapped(n) == r
  {
  }

  lemma WrappedParts(n: nat) returns (q: nat)
    ensures n == q * WORD + Wrapped(n) && Wrapped(n) < WORD
  {
    q := n / WORD;
  }

  lemma Modulo16(q: nat, r: nat)
    ensures (q * WORD + r) % 16 == r % 16
  {
    assert q * WORD + r == 16 * (q * 0x1000_0000) + r;
  }

  lemma WordNext(n: nat)
    ensures Wrapped(0) == 0 && Wrapped(Wrapped(n) + 1) == Wrapped(n + 1) && Wrapped(n) % 16 == n % 16
  {
    hide Wrapped;
    WrappedIs(0, 0, 0);
    var q := WrappedParts(n);
    var r := Wrapped(n);
    Modulo16(q, r);
    if r + 1 < WORD {
      WrappedIs(r + 1, 0, r + 1);
      WrappedIs(n + 1, q, r + 1);
    } else {
      WrappedIs(r + 1, 1, 0);
      WrappedIs(n + 1, q + 1, 0);
    }
  }

  /** Between two consecutive passes nothing is counted. */
  lemma {:induction false} PassedBetween(run: seq<State>, j: nat, k: nat)
    requires j < k < |run| && Passes(run, j) && forall i :: j < i < k ==> !Passes(run, i)
    ensures Passed(run, k) == Passed(run, j) + 1
  {
    if k > j + 1 { PassedBetween(run, j, k - 1); }
  }

  /** ks names 16 consecutive iterations of the run by the steps in which they pass the clock check. */
  ghost predicate Consecutive(run: seq<State>, ks: seq<nat>) {
    && |ks| == 16 && (forall j :: 0 <= j < 16 ==> Passes(run, ks[j]))
    && (forall j :: 0 <= j < 15 ==> ks[j] < ks[j + 1])
    && (forall j, i: nat :: 0 <= j < 15 && ks[j] < i < ks[j + 1] ==> !Passes(run, i))
  }

  lemma {:induction false} PassedAt(run: seq<State>, ks: seq<nat>, j: nat)
    requires Consecutive(run, ks) && j < 16
    ensures ks[j] < |run| && Passed(run, ks[j]) == Passed(run, ks[0]) + j
  {
    hide Passed;
    if j > 0 {
      PassedAt(run, ks, j - 1);
      assert Passes(run, ks[j - 1]) && Passes(run, ks[j]) && ks[j - 1] < ks[j - 1 + 1];
      PassedBetween(run, ks[j - 1], ks[j]);
    }
  }

  /** With a timeout set, exactly one of any 16 consecutive iterations of a run reads the clock, also where the counter wraps around. */
  lemma CadenceAcrossWrap(c: Config, run: seq<State>, ks: seq<nat>) returns (j: nat)
    requires IsRun(c, run) && HasTimeout(c) && Consecutive(run, ks)
    ensures j < 16 && forall i :: 0 <= i < 16 ==> ks[i] < |run| && (ReadsClock(c, run[ks[i]]) <==> i == j)
  {
    hide IsRun, Passed, Wrapped;
    var n := Passed(run, ks[0]);
    j := (16 - n % 16) % 16;
    forall i | 0 <= i < 16 ensures ks[i] < |run| && (ReadsClock(c, run[ks[i]]) <==> i == j) {
      PassedAt(run, ks, i);
      CounterCounts(c, run, ks[i]);
      WordNext(n + i);
      OnceIn16(n, i);
    }
  }

  lemma OnceIn16(n: nat, i: nat)
    requires i < 16
    ensures (n + i) % 16 == 0 <==> i == (16 - n % 16) % 16
  {
  }

  /** How many iterations ago the clock was checked last, for the iteration with this count. */
  function SinceCheck(i: nat): nat { (i + 15) % 16 }

  /** Step k passes the clock check although the deadline has passed. */
  ghost predicate PassesLate(c: Config, run: seq<State>, k: nat) {
    Passes(run, k) && c.timeout > 0.000000001 && run[k].now - c.start >= c.timeout
  }

  /** Iterations that have passed the clock check after the deadline, before state k. */
  ghost function Late(c: Config, run: seq<State>, k: nat): nat {
    if k == 0 then 0 else Late(c, run, k - 1) + if PassesLate(c, run, k - 1) then 1 else 0
  }

  ghost predicate OnTime(c: Config, s: State, late: nat) {
    && s.iteration < WORD
    && late <= SinceCheck(s.iteration)
    && (late > 0 ==> Expired(c, s.now))
    && (s.phase == Returned(false) ==> Expired(c, s.now))
  }

  lemma OnTimeStep(c: Config, s: State, s': State, late: nat)
    requires |s.buffer| == c.len && OnTime(c, s, late) && Next(c, s, s')
    ensures var passes := s.phase.Clock? && (s'.phase.Arm? || s'.phase.Pause?);
            OnTime(c, s', late + if passes && c.timeout > 0.000000001 && s.now - c.start >= c.timeout then 1 else 0)
  {
    hide Waiter, InLine;
    if s' == Waiter(c, s) {
      WaiterOnTime(c, s, late);
    }
  }

  lemma SinceIs(i: nat)
    ensures SinceCheck(i) == if i % 16 == 0 then 15 else i % 16 - 1
  {
  }

  lemma NextModulo(i: nat)
    ensures (i + 1) % 16 == if i % 16 == 15 then 0 else i % 16 + 1
  {
  }

  lemma LateOnce(i: nat, late: nat)
    requires i % 16 != 0 && late <= SinceCheck(i)
    ensures late + 1 <= SinceCheck(Wrapped(i + 1))
  {
    hide SinceCheck, Wrapped;
    SinceIs(i);
    NextModulo(i);
    WordNext(i + 1);
    SinceIs(Wrapped(i + 1));
  }

  lemma WrappedBound(n: nat)
    ensures Wrapped(n) < WORD
  {
  }

  lemma WaiterOnTime(c: Config, s: State, late: nat)
    requires |s.buffer| == c.len && OnTime(c, s, late)
    ensures var s' := Waiter(c, s);
            var passes := s.phase.Clock? && (s'.phase.Arm? || s'.phase.Pause?);
            OnTime(c, s', late + if passes && c.timeout > 0.000000001 && s.now - c.start >= c.timeout then 1 else 0)
  {
    hide Monitors, SinceCheck, Wrapped;
    if s.phase.Clock? {
      WrappedBound(s.iteration + 1);
      SinceIs(s.iteration);
      if s.iteration % 16 != 0 { LateOnce(s.iteration, late); }
    }
  }

  lemma {:induction false} OnTimeAlways(c: Config, run: seq<State>, k: nat)
    requires IsRun(c, run) && k < |run|
    ensures OnTime(c, run[k], Late(c, run, k))
  {
    hide OnTime, Next;
    if k > 0 {
      OnTimeAlways(c, run, k - 1);
      assert Next(c, run[k - 1], run[k - 1 + 1]);
      OnTimeStep(c, run[k - 1], run[k], Late(c, run, k - 1));
    } else {
      OnTimeAtStart(c, run[0]);
    }
  }

  lemma OnTimeAtStart(c: Config, s: State)
    requires Init(c, s)
    ensures OnTime(c, s, 0)
  {
  }

  /**
   At most 15 iterations go on after the deadline, however long the run and however often the counter wraps; and the loop
   gives up only when there is a deadline, more than a nanosecond after its start, and it has passed.
   */
  lemma DeadlineIsKept(c: Config, run: seq<State>, k: nat)
    requires IsRun(c, run) && k < |run|
    ensures Late(c, run, k) <= 15
    ensures run[k].phase == Returned(false) ==> c.timeout > 0.000000001 && run[k].now - c.start >= c.timeout
  {
    OnTimeAlways(c, run, k);
  }

  // ---------------------------------------------------------------------------------------------
  // ... and the deadline is noticed
  // ---------------------------------------------------------------------------------------------

  /** A state at the top of the loop. */
  ghost predicate AtTop(c: Config, s: State) {
    |s.buffer| == c.len && s.phase == Poll([]) && s.iteration < WORD
  }

  lemma ReachesClock(c: Config, s: State)
    requires AtTop(c, s) && !c.condition(s.buffer)
    ensures After(c, s, c.len + 1) == s.(phase := Clock)
  {
    hide Waiter;
    PollReads(c, s, c.len);
    assert s.buffer[..c.len] == s.buffer;
    ClockNext(c, s.(phase := Poll(s.buffer)));
  }

  lemma ClockNext(c: Config, s: State)
    requires |s.buffer| == c.len && s.phase == Poll(s.buffer) && !c.condition(s.buffer)
    ensures Waiter(c, s) == s.(phase := Clock)
  {
  }

  lemma OneStep(c: Config, s: State)
    requires |s.buffer| == c.len
    ensures After(c, s, 1) == Waiter(c, s)
  {
    assert After(c, s, 0) == s;
  }

  lemma Pauses(c: Config, s: State)
    requires |s.buffer| == c.len && s.phase == Pause
    ensures Waiter(c, s) == s.(phase := Poll([]))
  {
  }

  lemma Arms(c: Config, s: State)
    requires |s.buffer| == c.len && s.phase == Arm
    ensures Waiter(c, s) == s.(armed := true, triggered := false, phase := Recheck([]))
  {
  }

  lemma WaitsAndWakes(c: Config, s: State)
    requires |s.buffer| == c.len && !c.condition(s.buffer)
    ensures Waiter(c, s.(phase := Recheck(s.buffer))) == s.(phase := Wait)
    ensures Waiter(c, s.(phase := Wait)) == s.(armed := false, phase := Poll([]))
  {
  }

  lemma Rechecks(c: Config, s: State)
    requires |s.buffer| == c.len && s.phase == Recheck([]) && !c.condition(s.buffer)
    ensures After(c, s, c.len + 2) == s.(armed := false, phase := Poll([]))
  {
    hide Waiter;
    RecheckReads(c, s, c.len);
    assert s.buffer[..c.len] == s.buffer;
    WaitsAndWakes(c, s);
    assert After(c, s, c.len + 1) == s.(phase := Wait);
  }

  /** After the clock check a round without the monitor pauses; one with it arms, reads again, and waits. */
  lemma Rest(c: Config, s: State) returns (n: nat)
    requires |s.buffer| == c.len && s.phase == (if Monitors(c) then Arm else Pause) && !c.condition(s.buffer)
    ensures After(c, s, n).phase == Poll([]) && After(c, s, n).iteration == s.iteration && After(c, s, n).now == s.now
  {
    hide Waiter, After, Monitors;
    OneStep(c, s);
    if s.phase == Arm {
      Arms(c, s);
      var armed := s.(armed := true, triggered := false, phase := Recheck([]));
      Rechecks(c, armed);
      AfterAfter(c, s, 1, c.len + 2);
      n := 1 + (c.len + 2);
    } else {
      Pauses(c, s);
      n := 1;
    }
  }

  lemma PastClock(c: Config, s: State)
    requires |s.buffer| == c.len && s.phase == Clock
    ensures Waiter(c, s) == if ReadsClock(c, s) && Expired(c, s.now) then s.(phase := Returned(false))
                            else s.(iteration := Wrapped(s.iteration + 1), phase := if Monitors(c) then Arm else Pause)
  {
  }

  /** One undisturbed round after the deadline gives up if it is its turn to look at the clock, and else goes on to the next. */
  lemma OneRound(c: Config, s: State) returns (n: nat)
    requires AtTop(c, s) && !c.condition(s.buffer) && c.timeout > 0.000000001 && s.now - c.start >= c.timeout
    ensures s.iteration % 16 == 0 ==> After(c, s, n).phase == Returned(false)
    ensures s.iteration % 16 != 0 ==>
      var t := After(c, s, n);
      AtTop(c, t) && t.iteration == Wrapped(s.iteration + 1) && t.buffer == s.buffer && t.now == s.now
  {
    hide Waiter, Wrapped;
    ReachesClock(c, s);
    PastClock(c, s.(phase := Clock));
    n := c.len + 2;
    if s.iteration % 16 != 0 {
      var t := After(c, s, n);
      var m := Rest(c, t);
      AfterAfter(c, s, n, m);
      WrappedBound(s.iteration + 1);
      n := n + m;
    }
  }

  /** Undisturbed, a waiter whose deadline has passed gives up: the loop runs out at the next look at the clock. */
  lemma {:induction false} DeadlineIsNoticed(c: Config, s: State) returns (n: nat)
    requires AtTop(c, s) && !c.condition(s.buffer) && c.timeout > 0.000000001 && s.now - c.start >= c.timeout
    ensures After(c, s, n).phase == Returned(false)
    decreases 15 - SinceCheck(s.iteration)
  {
    hide Waiter, Wrapped, SinceCheck;
    n := OneRound(c, s);
    if s.iteration % 16 != 0 {
      NextModulo(s.iteration);
      WordNext(s.iteration + 1);
      SinceIs(s.iteration);
      var t := After(c, s, n);
      SinceIs(t.iteration);
      var m := DeadlineIsNoticed(c, t);
      AfterAfter(c, s, n, m);
      n := n + m;
    }
  }
}
