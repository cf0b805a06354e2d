/**
 How a batch of prefill requests is cut into chunks, and which prefix-cache columns a request uses.

 A request has `done` tokens already computed and schedules `due` more. Its chunks must let the scan kernel
 leave a state behind every `size` tokens, counted from the start of the *sequence*, not of the call.
 */
module ChunkMetadata {
  import opened Basics

  function Min(a: nat, b: nat): nat { if a <= b then a else b }

  /** Ceiling division. */
  function Cdiv(a: nat, b: nat): nat
    requires b > 0
  {
    (a + b - 1) / b
  }

  // ---------------------------------------------------------------------------------------------
  // Arithmetic
  // ---------------------------------------------------------------------------------------------

  lemma PositiveFactor(x: int, b: int)
    requires b > 0 && x * b > 0
    ensures x > 0
  {
  }

  lemma MulCancel(x: int, y: int, b: int)
    requires b > 0 && x * b < y * b
    ensures x < y
  {
    assert (y - x) * b == y * b - x * b;
    PositiveFactor(y - x, b);
  }

  lemma QuotientIs(a: int, b: int, q: int)
    requires b > 0 && q * b <= a < (q + 1) * b
    ensures a / b == q
  {
    var k := a / b;
    assert a == k * b + a % b && 0 <= a % b < b;
    assert (k + 1 - q) * b > 0;
    PositiveFactor(k + 1 - q, b);
    assert (q + 1 - k) * b > 0;
    PositiveFactor(q + 1 - k, b);
  }

  /** Cdiv(a, b) is the least number of b's that covers a. */
  lemma CdivBounds(a: nat, b: nat)
    requires b > 0
    ensures a <= Cdiv(a, b) * b < a + b
  {
    var k := (a + b - 1) / b;
    assert a + b - 1 == k * b + (a + b - 1) % b;
  }

  lemma CdivIs(a: nat, b: nat, q: nat)
    requires b > 0 && a <= q * b < a + b
    ensures Cdiv(a, b) == q
  {
    assert (q + 1) * b == q * b + b;
    QuotientIs(a + b - 1, b, q);
  }

  lemma {:induction false} SumCons(x: nat, xs: seq<nat>, n: nat)
    requires n <= |xs|
    ensures Sum([x] + xs, n + 1) == x + Sum(xs, n)
  {
    if n > 0 { SumCons(x, xs, n - 1); }
  }

  // ---------------------------------------------------------------------------------------------
  // The chunks of one request
  // ---------------------------------------------------------------------------------------------

  /** Tokens of the call that finish the block a previous call left unfinished. */
  function Head(size: nat, done: nat, due: nat): nat
    requires size > 0
  {
    CdivBounds(done, size);
    Min(Cdiv(done, size) * size - done, due)
  }

  /** Full blocks and then the remainder. */
  function Blocks(size: nat, due: nat): seq<nat>
    requires size > 0
  {
    seq(Cdiv(due, size), c requires 0 <= c => if c * size <= due then Min(size, due - c * size) else 0)
  }

  /** Every chunk a request is cut into, in order. */
  function ChunkLens(size: nat, done: nat, due: nat): seq<nat>
    requires size > 0
  {
    if done % size != 0 then [Head(size, done, due)] + Blocks(size, due - Head(size, done, due))
    else Blocks(size, due)
  }

  lemma BlockAt(size: nat, due: nat, c: nat)
    requires size > 0 && c < Cdiv(due, size)
    ensures c * size < due && Blocks(size, due)[c] == Min(size, due - c * size) > 0
    ensures c + 1 < Cdiv(due, size) ==> Blocks(size, due)[c] == size && (c + 1) * size < due
    ensures c + 1 == Cdiv(due, size) ==> due <= (c + 1) * size
  {
    var k := Cdiv(due, size);
    CdivBounds(due, size);
    MulMonotone(c + 1, k, size);
    assert (c + 1) * size == c * size + size;
    if c + 1 < k {
      MulMonotone(c + 2, k, size);
      assert (c + 2) * size == (c + 1) * size + size;
    }
  }

  lemma {:induction false} BlocksSum(size: nat, due: nat, c: nat)
    requires size > 0 && c <= Cdiv(due, size)
    ensures Sum(Blocks(size, due), c) == Min(c * size, due)
  {
    if c > 0 {
      BlockAt(size, due, c - 1);
      BlocksSum(size, due, c - 1);
      assert c * size == (c - 1) * size + size;
    }
  }

  lemma UnalignedHead(size: nat, done: nat, due: nat)
    requires size > 0 && done % size != 0
    ensures Head(size, done, due) == Min((done / size + 1) * size - done, due)
    ensures done < (done / size + 1) * size < done + size
  {
    var q := done / size;
    assert done == q * size + done % size && (q + 1) * size == q * size + size;
    CdivIs(done, size, q + 1);
  }

  /** The chunks cover exactly the scheduled tokens. */
  lemma ChunksCover(size: nat, done: nat, due: nat)
    requires size > 0
    ensures var lens := ChunkLens(size, done, due); Sum(lens, |lens|) == due
  {
    var head := if done % size != 0 then Head(size, done, due) else 0;
    var rest := Blocks(size, due - head);
    BlocksSum(size, due - head, |rest|);
    CdivBounds(due - head, size);
    SumCons(head, rest, |rest|);
  }

  /** The block that holds token number n. */
  function BlockOf(size: nat, n: nat): nat
    requires size > 0
  {
    n / size
  }

  /** Where block k begins. */
  function Boundary(size: nat, k: nat): nat {
    k * size
  }

  /** Where chunk c of the request ends, counted from the start of the sequence. */
  ghost predicate EndsAt(size: nat, done: nat, due: nat, c: nat)
    requires size > 0 && c < |ChunkLens(size, done, due)|
  {
    var lens := ChunkLens(size, done, due);
    var end := done + Sum(lens, c + 1);
    && lens[c] <= size
    && (c + 1 < |lens| ==> end == Boundary(size, BlockOf(size, done) + c + 1) < done + due)
    && (c + 1 == |lens| ==> end == done + due <= Boundary(size, BlockOf(size, done) + c + 1))
  }

  lemma AlignedEnds(size: nat, done: nat, due: nat, c: nat)
    requires size > 0 && done % size == 0 && c < |ChunkLens(size, done, due)|
    ensures EndsAt(size, done, due, c)
  {
    var q := done / size;
    assert done == q * size;
    assert (q + c + 1) * size == q * size + (c + 1) * size;
    BlockAt(size, due, c);
    BlocksSum(size, due, c + 1);
  }

  lemma HeadEnds(size: nat, done: nat, due: nat)
    requires size > 0 && done % size != 0
    ensures EndsAt(size, done, due, 0)
  {
    var head := Head(size, done, due);
    UnalignedHead(size, done, due);
    var rest := Blocks(size, due - head);
    SumCons(head, rest, 0);
    if |rest| > 0 {
      BlockAt(size, due - head, 0);
    } else {
      CdivBounds(due - head, size);
    }
  }

  /** Where chunk c - 1 of the blocks ends. */
  lemma BlockEnds(size: nat, due: nat, c: nat)
    requires size > 0 && 0 < c <= |Blocks(size, due)|
    ensures due > 0 && Blocks(size, due)[c - 1] <= size
    ensures c < |Blocks(size, due)| ==> Sum(Blocks(size, due), c) == Boundary(size, c) < due
    ensures c == |Blocks(size, due)| ==> Sum(Blocks(size, due), c) == due <= Boundary(size, c)
  {
    BlockAt(size, due, c - 1);
    BlocksSum(size, due, c);
  }

  lemma Boundaries(size: nat, q: nat, c: nat)
    ensures Boundary(size, q + c) == Boundary(size, q) + Boundary(size, c)
  {
  }

  /** The head of an unaligned request that leaves something over ends on the next boundary. */
  lemma HeadFills(size: nat, done: nat, due: nat)
    requires size > 0 && done % size != 0
    ensures Head(size, done, due) <= due
    ensures Head(size, done, due) < due ==> Head(size, done, due) == Boundary(size, BlockOf(size, done) + 1) - done
  {
    UnalignedHead(size, done, due);
  }

  lemma UnalignedEnds(size: nat, done: nat, due: nat, c: nat)
    requires size > 0 && done % size != 0 && 0 < c < |ChunkLens(size, done, due)|
    ensures EndsAt(size, done, due, c)
  {
    hide Cdiv, Head, Boundary, Blocks, BlockOf;
    HeadFills(size, done, due);
    var head := Head(size, done, due);
    var rest := Blocks(size, due - head);
    SumCons(head, rest, c);
    BlockEnds(size, due - head, c);
    Boundaries(size, BlockOf(size, done) + 1, c);
  }

  /**
   Every chunk but the last ends on a block boundary of the sequence: chunk c ends at the end of block
   done / size + c. The last one ends where the call ends.
   */
  lemma ChunkEnds(size: nat, done: nat, due: nat, c: nat)
    requires size > 0 && c < |ChunkLens(size, done, due)|
    ensures EndsAt(size, done, due, c)
  {
    if done % size == 0 {
      AlignedEnds(size, done, due, c);
    } else if c == 0 {
      HeadEnds(size, done, due);
    } else {
      UnalignedEnds(size, done, due, c);
    }
  }

  /**
   The builder's promise, "the state can be retrieved every chunk_size tokens": each block boundary k * size that
   the call reaches is the end of one of its chunks, namely of chunk k - 1 - done / size.
   */
  lemma BoundaryIsChunkEnd(size: nat, done: nat, due: nat, k: nat)
    requires size > 0 && done < k * size <= done + due
    ensures var lens := ChunkLens(size, done, due); var c := k - 1 - BlockOf(size, done);
            0 <= c < |lens| && done + Sum(lens, c + 1) == k * size
  {
    hide ChunkLens, BlockOf, Boundary;
    var lens := ChunkLens(size, done, due);
    var q := BlockOf(size, done);
    BlockBounds(size, done);
    assert Boundary(size, k) == k * size by { BoundaryIs(size, k); }
    BoundaryOrder(size, q, k);
    ChunksCover(size, done, due);
    var n := |lens|;
    ChunkEnds(size, done, due, n - 1);
    BoundaryOrder(size, k, q + n + 1);
    ChunkEnds(size, done, due, k - 1 - q);
  }

  lemma BoundaryIs(size: nat, k: nat)
    ensures Boundary(size, k) == k * size
  {
  }

  /** Blocks begin in order. */
  lemma BoundaryOrder(size: nat, j: nat, k: nat)
    requires size > 0
    ensures Boundary(size, j) < Boundary(size, k) <==> j < k
    ensures k > 0 ==> Boundary(size, k - 1) < Boundary(size, k)
  {
    if j < k { MulMonotone(j + 1, k, size); } else { MulMonotone(k, j, size); }
    assert k > 0 ==> k * size == (k - 1) * size + size;
    assert (j + 1) * size == j * size + size;
  }

  lemma BlockBounds(size: nat, n: nat)
    requires size > 0
    ensures Boundary(size, BlockOf(size, n)) <= n < Boundary(size, BlockOf(size, n) + 1)
  {
    var q := n / size;
    assert n == q * size + n % size && (q + 1) * size == q * size + size;
  }

  // ---------------------------------------------------------------------------------------------
  // The metadata of a whole batch
  // ---------------------------------------------------------------------------------------------

  /** Offsets at which the chunks of one request start, when the request starts at pos. */
  function Starts(pos: nat, lens: seq<nat>): seq<nat> {
    seq(|lens|, c requires 0 <= c < |lens| => pos + Sum(lens, c))
  }

  /**
   What the kernel finds in the metadata for request r: its chunks are numbered from one past the previous
   request's last chunk, their lengths are `lens`, they belong to r alone, and their offsets are those of r's
   tokens in the batch, which start at `offset`.
   */
  ghost predicate Describes(lens: seq<nat>, offset: nat, cu: seq<nat>, owner: seq<nat>, last: seq<int>, r: nat)
    requires r < |last|
  {
    var first := FirstChunk(last, r);
    && 0 <= first
    && last[r] == first + |lens| - 1
    && first + |lens| < |cu|
    && first + |lens| <= |owner|
    && (forall c :: 0 <= c <= |lens| ==> cu[first + c] == offset + Sum(lens, c))
    && (forall c :: first <= c < first + |lens| ==> owner[c] == r)
  }

  function FirstChunk(last: seq<int>, r: nat): int
    requires r <= |last|
  {
    if r == 0 then 0 else last[r - 1] + 1
  }

  lemma StartsCons(pos: nat, x: nat, xs: seq<nat>)
    ensures Starts(pos, [x] + xs) == [pos] + Starts(pos + x, xs)
  {
    forall c | 0 < c <= |xs| ensures Starts(pos, [x] + xs)[c] == pos + x + Sum(xs, c - 1) {
      SumCons(x, xs, c - 1);
    }
  }

  /** The block-sized chunks of a request, appended to the lists built so far. */
  method AppendBlocks(size: nat, due: nat, r: nat, cu: seq<nat>, owner: seq<nat>, pos: nat)
    returns (cu': seq<nat>, owner': seq<nat>, pos': nat)
    requires size > 0
    ensures cu' == cu + Starts(pos, Blocks(size, due))
    ensures owner' == owner + seq(Cdiv(due, size), _ => r)
    ensures pos' == pos + due
  {
    cu', owner', pos' := cu, owner, pos;
    var left := due;
    var chunks := Cdiv(due, size);
    ghost var lens := Blocks(size, due);
    for chunk := 0 to chunks
      invariant left == due - Min(chunk * size, due) && pos' == pos + due - left
      invariant cu' == cu + Starts(pos, lens)[..chunk]
      invariant owner' == owner + seq(chunk, _ => r)
    {
      BlockAt(size, due, chunk);
      BlocksSum(size, due, chunk);
      assert (chunk + 1) * size == chunk * size + size;
      assert Starts(pos, lens)[chunk] == pos';
      owner' := owner' + [r];
      cu' := cu' + [pos'];
      pos' := pos' + Min(size, left);
      left := left - Min(size, left);
    }
    CdivBounds(due, size);
    assert left == 0;
  }

  /** The chunks of request r, appended to the lists built so far. */
  method AppendRequest(size: nat, done: nat, due: nat, r: nat, cu: seq<nat>, owner: seq<nat>, pos: nat, ghost lens: seq<nat>)
    returns (cu': seq<nat>, owner': seq<nat>, pos': nat)
    requires size > 0 && lens == ChunkLens(size, done, due)
    ensures cu' == cu + Starts(pos, lens)
    ensures owner' == owner + seq(|lens|, _ => r)
    ensures pos' == pos + due
  {
    if done % size != 0 {
      CdivBounds(done, size);
      var head := Min(Cdiv(done, size) * size - done, due);
      StartsCons(pos, head, Blocks(size, due - head));
      cu', owner', pos' := AppendBlocks(size, due - head, r, cu + [pos], owner + [r], pos + head);
    } else {
      cu', owner', pos' := AppendBlocks(size, due, r, cu, owner, pos);
    }
  }

  predicate Sorted(start: seq<nat>) {
    forall i, j :: 0 <= i <= j < |start| ==> start[i] <= start[j]
  }

  /** The chunk lengths of every request of the batch. */
  function Plan(size: nat, done: seq<nat>, start: seq<nat>): seq<seq<nat>>
    requires size > 0 && |start| == |done| + 1 && Sorted(start)
  {
    seq(|done|, r requires 0 <= r < |done| => ChunkLens(size, done[r], start[r + 1] - start[r]))
  }

  lemma PlanAt(size: nat, done: seq<nat>, start: seq<nat>, r: nat)
    requires size > 0 && |start| == |done| + 1 && Sorted(start) && r < |done|
    ensures |Plan(size, done, start)| == |done|
    ensures Plan(size, done, start)[r] == ChunkLens(size, done[r], start[r + 1] - start[r])
    ensures Sum(Plan(size, done, start)[r], |Plan(size, done, start)[r]|) == start[r + 1] - start[r]
  {
    hide ChunkLens, Sum;
    ChunksCover(size, done[r], start[r + 1] - start[r]);
  }

  /** The lists, closed by the next offset pos, describe the first n requests and nothing more. */
  ghost predicate DescribesFirst(plan: seq<seq<nat>>, start: seq<nat>, cu: seq<nat>, owner: seq<nat>, last: seq<int>,
                                 pos: nat, n: nat)
    requires |start| == |plan| + 1 && Sorted(start) && n <= |plan|
  {
    && |last| == n && |cu| == |owner| == FirstChunk(last, n) && pos == start[n] - start[0]
    && forall r :: 0 <= r < n ==> Describes(plan[r], start[r] - start[0], cu + [pos], owner, last, r)
  }

  lemma DescribesNext(plan: seq<seq<nat>>, start: seq<nat>, cu: seq<nat>, owner: seq<nat>, last: seq<int>,
                      pos: nat, n: nat, cu': seq<nat>, owner': seq<nat>, last': seq<int>, pos': nat)
    requires |start| == |plan| + 1 && Sorted(start) && n < |plan|
    requires DescribesFirst(plan, start, cu, owner, last, pos, n)
    requires Sum(plan[n], |plan[n]|) == start[n + 1] - start[n] == pos' - pos
    requires cu' == cu + Starts(pos, plan[n]) && owner' == owner + seq(|plan[n]|, _ => n) && last' == last + [|cu'| - 1]
    ensures DescribesFirst(plan, start, cu', owner', last', pos', n + 1)
  {
    assert cu + [pos] <= cu' + [pos'];
    forall r | 0 <= r < n ensures Describes(plan[r], start[r] - start[0], cu' + [pos'], owner', last', r) {
      var first := FirstChunk(last', r);
      forall c | 0 <= c <= |plan[r]|
        ensures first + |plan[r]| < |cu' + [pos']| && (cu' + [pos'])[first + c] == start[r] - start[0] + Sum(plan[r], c)
      {
        assert (cu + [pos])[first + c] == start[r] - start[0] + Sum(plan[r], c);
      }
    }
  }

  /** The metadata of a batch of prefill requests describes each of them. */
  method ComputeChunkMetadata(size: nat, done: seq<nat>, start: seq<nat>)
    returns (cu: seq<nat>, owner: seq<nat>, last: seq<int>)
    requires size > 0 && |start| == |done| + 1 && Sorted(start)
    ensures |last| == |done| && |cu| == |owner| + 1
    ensures forall r :: 0 <= r < |done| ==>
      Describes(Plan(size, done, start)[r], start[r] - start[0], cu, owner, last, r)
  {
    cu, owner, last := [], [], [];
    var pos := 0;
    ghost var plan := Plan(size, done, start);
    for req := 0 to |done|
      invariant DescribesFirst(plan, start, cu, owner, last, pos, req)
    {
      ghost var cu0, owner0, last0, pos0 := cu, owner, last, pos;
      PlanAt(size, done, start, req);
      cu, owner, pos := AppendRequest(size, done[req], start[req + 1] - start[req], req, cu, owner, pos, plan[req]);
      last := last + [|cu| - 1];
      DescribesNext(plan, start, cu0, owner0, last0, pos0, req, cu, owner, last, pos);
    }
    cu := cu + [pos];
  }
}
