/**
 The pool of benchmark clients: a queue of prompts followed by one sentinel per client, and clients that take items from
 it until they meet a sentinel. Clients interleave in any way, and one may crash while it works on a prompt.
 */
module ClientPool {

  type Prompt = nat

  datatype Item = Work(prompt: Prompt) | Sentinel

  /** A client waits at the queue, works on a prompt, has met its sentinel, or has died of an exception. */
  datatype Client = Ready | Working(prompt: Prompt) | Stopped | Crashed(prompt: Prompt)

  datatype Pool = Pool(queue: seq<Item>, clients: seq<Client>, results: seq<Prompt>, unfinished: int)

  function Works(n: nat): seq<Item> { seq(n, i requires 0 <= i => Work(i)) }

  function Sentinels(n: nat): seq<Item> { seq(n, _ => Sentinel) }

  /** The queue as it is filled: prompts 0 .. prompts - 1, then a sentinel for each client. */
  function Initial(prompts: nat, clients: nat): Pool {
    Pool(Works(prompts) + Sentinels(clients),
         seq(clients, _ => Ready), [], prompts + clients)
  }

  // ---------------------------------------------------------------------------------------------
  // Steps
  // ---------------------------------------------------------------------------------------------

  /** Client c takes the first item. A sentinel is acknowledged at once and stops the client. */
  ghost predicate Takes(p: Pool, p': Pool, c: nat) {
    && c < |p.clients| && p.clients[c].Ready? && p.queue != []
    && match p.queue[0]
       case Work(prompt) => p' == p.(queue := p.queue[1..], clients := p.clients[c := Working(prompt)])
       case Sentinel => p' == p.(queue := p.queue[1..], clients := p.clients[c := Stopped], unfinished := p.unfinished - 1)
  }

  /** Client c appends the result of its prompt and acknowledges the item. */
  ghost predicate Finishes(p: Pool, p': Pool, c: nat) {
    && c < |p.clients| && p.clients[c].Working?
    && p' == p.(clients := p.clients[c := Ready], results := p.results + [p.clients[c].prompt], unfinished := p.unfinished - 1)
  }

  ghost predicate Crashes(p: Pool, p': Pool, c: nat) {
    && c < |p.clients| && p.clients[c].Working?
    && p' == p.(clients := p.clients[c := Crashed(p.clients[c].prompt)])
  }

  ghost predicate Next(p: Pool, p': Pool) {
    exists c: nat :: Takes(p, p', c) || Finishes(p, p', c) || Crashes(p, p', c)
  }

  ghost predicate IsRun(prompts: nat, clients: nat, run: seq<Pool>) {
    && |run| > 0 && run[0] == Initial(prompts, clients)
    && forall k :: 0 <= k < |run| - 1 ==> Next(run[k], run[k + 1])
  }

  /** No client can move. */
  ghost predicate Quiet(p: Pool) {
    forall p' :: !Next(p, p')
  }

  // ---------------------------------------------------------------------------------------------
  // Counting
  // ---------------------------------------------------------------------------------------------

  function Count(clients: seq<Client>, p: Client -> bool): nat {
    if clients == [] then 0
    else Count(clients[..|clients| - 1], p) + if p(clients[|clients| - 1]) then 1 else 0
  }

  function IsActive(): Client -> bool { (c: Client) => c.Ready? || c.Working? }
  function IsWorking(): Client -> bool { (c: Client) => c.Working? }
  function IsCrashed(): Client -> bool { (c: Client) => c.Crashed? }
  function IsStopped(): Client -> bool { (c: Client) => c.Stopped? }
  function HasPrompt(x: Prompt): Client -> bool { (c: Client) => (c.Working? || c.Crashed?) && c.prompt == x }

  lemma {:induction false} CountUpdate(clients: seq<Client>, p: Client -> bool, i: nat, x: Client)
    requires i < |clients|
    ensures Count(clients[i := x], p) + (if p(clients[i]) then 1 else 0) == Count(clients, p) + (if p(x) then 1 else 0)
  {
    var n := |clients| - 1;
    if i < n {
      CountUpdate(clients[..n], p, i, x);
      assert clients[i := x][..n] == clients[..n][i := x];
    } else {
      assert clients[i := x][..n] == clients[..n];
    }
  }

  lemma {:induction false} CountNone(clients: seq<Client>, p: Client -> bool)
    ensures Count(clients, p) == 0 <==> forall i :: 0 <= i < |clients| ==> !p(clients[i])
  {
    if clients != [] {
      var n := |clients| - 1;
      CountNone(clients[..n], p);
      if forall i :: 0 <= i < n ==> !p(clients[..n][i]) {
        assert forall i :: 0 <= i < n ==> clients[i] == clients[..n][i];
      }
    }
  }

  /** Every client is active, crashed or stopped. */
  lemma {:induction false} CountAll(clients: seq<Client>)
    ensures Count(clients, IsActive()) + Count(clients, IsCrashed()) + Count(clients, IsStopped()) == |clients|
  {
    if clients != [] { CountAll(clients[..|clients| - 1]); }
  }

  // ---------------------------------------------------------------------------------------------
  // The invariant
  // ---------------------------------------------------------------------------------------------

  /** Copies of prompt x in the pool: queued, held by a client, or among the results. */
  function Copies(p: Pool, x: Prompt): nat {
    multiset(p.queue)[Work(x)] + Count(p.clients, HasPrompt(x)) + multiset(p.results)[x]
  }

  /** Prompts come before sentinels, and once a client has stopped only sentinels are left. */
  ghost predicate InOrder(p: Pool) {
    && (forall i, j :: 0 <= i < j < |p.queue| && p.queue[i].Sentinel? ==> p.queue[j].Sentinel?)
    && (Count(p.clients, IsStopped()) > 0 ==> forall i :: 0 <= i < |p.queue| ==> p.queue[i].Sentinel?)
  }

  ghost predicate Invariant(prompts: nat, clients: nat, p: Pool) {
    && |p.clients| == clients
    && (forall x: Prompt :: Copies(p, x) == if x < prompts then 1 else 0)
    && multiset(p.queue)[Sentinel] + Count(p.clients, IsStopped()) == clients
    && p.unfinished == |p.queue| + Count(p.clients, IsWorking()) + Count(p.clients, IsCrashed())
    && InOrder(p)
  }

  /** Work left: it shrinks with every step. */
  function Measure(p: Pool): nat {
    2 * |p.queue| + Count(p.clients, IsWorking())
  }

  lemma {:induction false} CopiesInWorks(n: nat, x: Prompt)
    ensures multiset(Works(n))[Work(x)] == (if x < n then 1 else 0) && multiset(Works(n))[Sentinel] == 0
  {
    if n > 0 {
      CopiesInWorks(n - 1, x);
      assert Works(n) == Works(n - 1) + [Work(n - 1)];
    }
  }

  lemma {:induction false} CopiesInSentinels(n: nat, x: Prompt)
    ensures multiset(Sentinels(n))[Work(x)] == 0 && multiset(Sentinels(n))[Sentinel] == n
  {
    if n > 0 {
      CopiesInSentinels(n - 1, x);
      assert Sentinels(n) == Sentinels(n - 1) + [Sentinel];
    }
  }

  lemma InitialQueue(prompts: nat, clients: nat, x: Prompt)
    ensures multiset(Initial(prompts, clients).queue)[Work(x)] == if x < prompts then 1 else 0
    ensures multiset(Initial(prompts, clients).queue)[Sentinel] == clients
  {
    hide Works, Sentinels;
    CopiesInWorks(prompts, x);
    CopiesInSentinels(clients, x);
  }

  lemma InitialHolds(prompts: nat, clients: nat)
    ensures Invariant(prompts, clients, Initial(prompts, clients))
  {
    var p := Initial(prompts, clients);
    InitialQueue(prompts, clients, 0);
    CountNone(p.clients, IsStopped());
    CountNone(p.clients, IsWorking());
    CountNone(p.clients, IsCrashed());
    forall x: Prompt ensures Copies(p, x) == if x < prompts then 1 else 0 {
      InitialQueue(prompts, clients, x);
      CountNone(p.clients, HasPrompt(x));
    }
  }

  lemma CountsAfter(clients: seq<Client>, c: nat, x: Client)
    requires c < |clients|
    ensures var clients' := clients[c := x];
            && Count(clients', IsStopped()) == Count(clients, IsStopped()) - (if clients[c].Stopped? then 1 else 0) + (if x.Stopped? then 1 else 0)
            && Count(clients', IsWorking()) == Count(clients, IsWorking()) - (if clients[c].Working? then 1 else 0) + (if x.Working? then 1 else 0)
            && Count(clients', IsCrashed()) == Count(clients, IsCrashed()) - (if clients[c].Crashed? then 1 else 0) + (if x.Crashed? then 1 else 0)
  {
    CountUpdate(clients, IsStopped(), c, x);
    CountUpdate(clients, IsWorking(), c, x);
    CountUpdate(clients, IsCrashed(), c, x);
  }

  lemma QueueTail(queue: seq<Item>)
    requires queue != []
    ensures multiset(queue) == multiset{queue[0]} + multiset(queue[1..])
  {
    assert queue == [queue[0]] + queue[1..];
  }

  lemma TakeKeepsCopies(p: Pool, p': Pool, c: nat, x: Prompt)
    requires Takes(p, p', c)
    ensures Copies(p', x) == Copies(p, x)
  {
    hide Count;
    CountUpdate(p.clients, HasPrompt(x), c, p'.clients[c]);
    QueueTail(p.queue);
  }

  lemma FinishKeepsCopies(p: Pool, p': Pool, c: nat, x: Prompt)
    requires Finishes(p, p', c) || Crashes(p, p', c)
    ensures Copies(p', x) == Copies(p, x)
  {
    hide Count;
    CountUpdate(p.clients, HasPrompt(x), c, p'.clients[c]);
  }

  /** A step moves a prompt, and never makes or loses one. */
  lemma CopiesKept(p: Pool, p': Pool, x: Prompt)
    requires Next(p, p')
    ensures Copies(p', x) == Copies(p, x)
  {
    hide Copies, Takes, Finishes, Crashes;
    var c: nat :| Takes(p, p', c) || Finishes(p, p', c) || Crashes(p, p', c);
    if Takes(p, p', c) {
      TakeKeepsCopies(p, p', c, x);
    } else {
      FinishKeepsCopies(p, p', c, x);
    }
  }

  lemma OrderKept(p: Pool, p': Pool, c: nat)
    requires InOrder(p) && (Takes(p, p', c) || Finishes(p, p', c) || Crashes(p, p', c))
    ensures InOrder(p')
  {
    hide Count;
    CountsAfter(p.clients, c, p'.clients[c]);
    if Takes(p, p', c) {
      assert forall i :: 0 <= i < |p'.queue| ==> p'.queue[i] == p.queue[i + 1];
    }
  }

  lemma StepKeeps(prompts: nat, clients: nat, p: Pool, p': Pool)
    requires Invariant(prompts, clients, p) && Next(p, p')
    ensures Invariant(prompts, clients, p') && Measure(p') < Measure(p)
  {
    hide Copies, Count, InOrder;
    forall x: Prompt ensures Copies(p', x) == if x < prompts then 1 else 0 { CopiesKept(p, p', x); }
    var c: nat :| Takes(p, p', c) || Finishes(p, p', c) || Crashes(p, p', c);
    CountsAfter(p.clients, c, p'.clients[c]);
    OrderKept(p, p', c);
    if Takes(p, p', c) {
      QueueTail(p.queue);
    }
  }

  lemma {:induction false} AlwaysHolds(prompts: nat, clients: nat, run: seq<Pool>, k: nat)
    requires IsRun(prompts, clients, run) && k < |run|
    ensures Invariant(prompts, clients, run[k])
  {
    hide Invariant, Next;
    if k == 0 {
      InitialHolds(prompts, clients);
    } else {
      AlwaysHolds(prompts, clients, run, k - 1);
      assert Next(run[k - 1], run[k - 1 + 1]);
      StepKeeps(prompts, clients, run[k - 1], run[k]);
    }
  }

  // ---------------------------------------------------------------------------------------------
  // The results
  // ---------------------------------------------------------------------------------------------

  lemma SomeClient(clients: seq<Client>, p: Client -> bool) returns (c: nat)
    requires Count(clients, p) > 0
    ensures c < |clients| && p(clients[c])
  {
    CountNone(clients, p);
    var i :| 0 <= i < |clients| && p(clients[i]);
    c := i;
  }

  /** No client waits for ever: as long as one is active, some client can move. */
  lemma NeverStuck(prompts: nat, clients: nat, p: Pool) returns (p': Pool)
    requires Invariant(prompts, clients, p) && Count(p.clients, IsActive()) > 0
    ensures Next(p, p')
  {
    var c := SomeClient(p.clients, IsActive());
    if p.clients[c].Working? {
      p' := p.(clients := p.clients[c := Ready], results := p.results + [p.clients[c].prompt], unfinished := p.unfinished - 1);
      assert Finishes(p, p', c);
    } else {
      CountAll(p.clients);
      assert Sentinel in multiset(p.queue) && p.queue != [];
      match p.queue[0]
      case Work(prompt) =>
        p' := p.(queue := p.queue[1..], clients := p.clients[c := Working(prompt)]);
        assert Takes(p, p', c);
      case Sentinel =>
        p' := p.(queue := p.queue[1..], clients := p.clients[c := Stopped], unfinished := p.unfinished - 1);
        assert Takes(p, p', c);
    }
  }

  /** A run ends: it takes at most two steps per item. */
  lemma {:induction false} RunsAreBounded(prompts: nat, clients: nat, run: seq<Pool>, k: nat)
    requires IsRun(prompts, clients, run) && k < |run|
    ensures k + Measure(run[k]) <= 2 * (prompts + clients)
  {
    hide Invariant, Next;
    if k == 0 {
      CountNone(run[0].clients, IsWorking());
    } else {
      RunsAreBounded(prompts, clients, run, k - 1);
      AlwaysHolds(prompts, clients, run, k - 1);
      assert Next(run[k - 1], run[k - 1 + 1]);
      StepKeeps(prompts, clients, run[k - 1], run[k]);
    }
  }

  /** When no client can move, none is active: each has met its own sentinel or crashed, and crashed clients leave theirs. */
  lemma QuietMeansDrained(prompts: nat, clients: nat, p: Pool)
    requires Invariant(prompts, clients, p) && Quiet(p)
    ensures Count(p.clients, IsActive()) == 0
    ensures multiset(p.queue)[Sentinel] == Count(p.clients, IsCrashed())
    ensures Count(p.clients, IsStopped()) == clients - Count(p.clients, IsCrashed())
    ensures Count(p.clients, IsStopped()) > 0 ==> |p.queue| == Count(p.clients, IsCrashed())
  {
    hide Next, Copies;
    if Count(p.clients, IsActive()) > 0 {
      var p' := NeverStuck(prompts, clients, p);
    }
    CountAll(p.clients);
    if Count(p.clients, IsStopped()) > 0 {
      OnlySentinels(p.queue);
    }
  }

  lemma {:induction false} OnlySentinels(queue: seq<Item>)
    requires forall i :: 0 <= i < |queue| ==> queue[i].Sentinel?
    ensures multiset(queue)[Sentinel] == |queue|
  {
    if queue != [] {
      QueueTail(queue);
      OnlySentinels(queue[1..]);
    }
  }

  lemma {:induction false} WorkingIsActive(clients: seq<Client>)
    ensures Count(clients, IsWorking()) <= Count(clients, IsActive())
  {
    if clients != [] { WorkingIsActive(clients[..|clients| - 1]); }
  }

  /**
   Exactly-once delivery, for every number of prompts and clients and every interleaving. When the pool has come to
   rest, each prompt has exactly one result if and only if no client crashed; then the queue is empty, every client has met
   one sentinel and every item has been acknowledged.
   */
  lemma ExactlyOnceExactlyWhenNoCrash(prompts: nat, clients: nat, run: seq<Pool>)
    requires clients > 0 && IsRun(prompts, clients, run) && Quiet(run[|run| - 1])
    ensures var p := run[|run| - 1];
            && ((forall x: Prompt :: multiset(p.results)[x] == if x < prompts then 1 else 0) <==> Count(p.clients, IsCrashed()) == 0)
            && (Count(p.clients, IsCrashed()) == 0 ==>
                  p.queue == [] && p.unfinished == 0 && Count(p.clients, IsStopped()) == clients)
  {
    var p := run[|run| - 1];
    AlwaysHolds(prompts, clients, run, |run| - 1);
    QuietMeansDrained(prompts, clients, p);
    WorkingIsActive(p.clients);
    if Count(p.clients, IsCrashed()) == 0 {
      forall x: Prompt ensures multiset(p.results)[x] == if x < prompts then 1 else 0 {
        assert Copies(p, x) == if x < prompts then 1 else 0;
        NobodyHolds(p.clients, x);
      }
    } else {
      var c := SomeClient(p.clients, IsCrashed());
      var x := p.clients[c].prompt;
      CountNone(p.clients, HasPrompt(x));
      assert Count(p.clients, HasPrompt(x)) > 0;
      assert Copies(p, x) == if x < prompts then 1 else 0;
    }
  }

  lemma NobodyHolds(clients: seq<Client>, x: Prompt)
    requires Count(clients, IsWorking()) == 0 && Count(clients, IsCrashed()) == 0
    ensures Count(clients, HasPrompt(x)) == 0
  {
    CountNone(clients, IsWorking());
    CountNone(clients, IsCrashed());
    CountNone(clients, HasPrompt(x));
    forall i | 0 <= i < |clients| ensures !HasPrompt(x)(clients[i]) {
      assert !IsWorking()(clients[i]) && !IsCrashed()(clients[i]);
    }
  }

  /** With crashes, a prompt without a result was in a crashed client's hands, or every client has crashed. */
  lemma LostPrompts(prompts: nat, clients: nat, p: Pool, x: Prompt)
    requires Invariant(prompts, clients, p) && Quiet(p) && x < prompts && multiset(p.results)[x] == 0
    ensures Count(p.clients, HasPrompt(x)) == 1 || Count(p.clients, IsCrashed()) == clients
  {
    hide Next;
    QuietMeansDrained(prompts, clients, p);
    assert Copies(p, x) == 1;
    if multiset(p.queue)[Work(x)] > 0 {
      assert Work(x) in p.queue;
    }
  }

  /** One prompt and two clients: the first takes the prompt and crashes, the second stops, and the prompt has no result. */
  lemma CrashLosesPrompt() returns (run: seq<Pool>)
    ensures IsRun(1, 2, run) && Quiet(run[|run| - 1])
    ensures Count(run[|run| - 1].clients, IsCrashed()) == 1 && multiset(run[|run| - 1].results)[0] == 0
  {
    var start := Initial(1, 2);
    assert start.queue == [Work(0), Sentinel, Sentinel] && start.clients == [Ready, Ready];
    var taken := Pool([Sentinel, Sentinel], [Working(0), Ready], [], 3);
    var crashed := Pool([Sentinel, Sentinel], [Crashed(0), Ready], [], 3);
    var end := Pool([Sentinel], [Crashed(0), Stopped], [], 2);
    assert Takes(start, taken, 0);
    assert Crashes(taken, crashed, 0);
    assert Takes(crashed, end, 1);
    run := [start, taken, crashed, end];
    assert end.clients[..1] == [Crashed(0)] && end.clients[..1][..0] == [];
  }
}
