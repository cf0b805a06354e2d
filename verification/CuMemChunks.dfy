/**
 Chunk arithmetic of the ROCm allocator: an allocation is rounded up to the hardware granularity, and its reservation is
 covered by chunks that are created and mapped one by one. All quantities are 64-bit machine words.
 */
module CuMemChunks {
  import opened Basics

  const WORD: nat := 0x1_0000_0000_0000_0000

  const MB: nat := 1024 * 1024

  const DEFAULT_CHUNK: nat := 256 * 1024 * 1024

  /** The environment gives a number of megabytes that is not 0 and fits a word as bytes. */
  predicate Configured(parsed: Option<nat>) {
    parsed.Some? && 0 < parsed.value <= 17592186044415
  }

  /** The configured chunk size: megabytes from the environment, when they parse, are not 0 and fit a word as bytes. */
  function BaseChunk(parsed: Option<nat>): (bytes: nat)
    requires parsed.Some? ==> parsed.value < WORD
    ensures 0 < bytes < WORD && bytes % 1048576 == 0
    ensures bytes / 1048576 == if Configured(parsed) then parsed.value else 256
  {
    if parsed.None? || parsed.value == 0 || parsed.value > (WORD - 1) / MB then DEFAULT_CHUNK
    else parsed.value * MB
  }

  function Quotient(a: nat, b: nat): (q: nat)
    requires b > 0
    ensures q * b <= a < q * b + b
  {
    a / b
  }

  function Times(k: nat, g: nat): (r: nat) { k * g }

  ghost predicate Multiple(x: nat, g: nat) {
    exists k: nat :: x == Times(k, g)
  }

  /** A word-sized sum. */
  function Add(x: nat, y: nat): (r: nat)
    ensures r < WORD
    ensures x + y < WORD ==> r == x + y
    ensures x < WORD && WORD <= x + y < 2 * WORD ==> r == x + y - WORD
  {
    (x + y) % WORD
  }

  /** ((x + g - 1) / g) * g on machine words. */
  function RoundUp(x: nat, g: nat): (r: nat)
    requires 0 < g
    ensures Multiple(r, g) && r < WORD
  {
    Times(Quotient(Add(x, g - 1), g), g)
  }

  lemma RoundUpExact(x: nat, g: nat)
    requires 0 < g && x + g - 1 < WORD
    ensures x <= RoundUp(x, g) < x + g
  {
  }

  /** The rounded size covers the request exactly when the rounding does not overflow the word; otherwise it is 0. */
  lemma RoundUpCoversExactly(x: nat, g: nat)
    requires 0 < g < WORD && 0 < x < WORD
    ensures RoundUp(x, g) >= x <==> x + g - 1 < WORD
    ensures RoundUp(x, g) == 0 <==> x + g - 1 >= WORD
  {
    if x + g - 1 >= WORD { NoQuotient(Add(x, g - 1), g); }
  }

  // ---------------------------------------------------------------------------------------------
  // The chunks of a reservation
  // ---------------------------------------------------------------------------------------------

  function NumChunks(aligned: nat, chunk: nat): nat
    requires chunk > 0
  {
    Quotient(Add(aligned, chunk - 1), chunk)
  }

  /**
   The chunks tile the reservation: positive multiples of the granularity, laid end to end, that end where it ends. All
   but the last have the full chunk size.
   */
  ghost predicate Tiles(sizes: seq<nat>, aligned: nat, chunk: nat, g: nat) {
    && (forall i :: 0 <= i < |sizes| ==> 0 < sizes[i] <= chunk && Multiple(sizes[i], g))
    && (forall i :: 0 <= i < |sizes| - 1 ==> sizes[i] == chunk)
    && Sum(sizes, |sizes|) == aligned
  }

  /** Chunks of this many bytes, rounded up to the granularity; the last may be smaller. */
  ghost predicate ChunksOf(sizes: seq<nat>, bytes: nat, g: nat) {
    && (forall i :: 0 <= i < |sizes| - 1 ==> bytes <= sizes[i])
    && forall i :: 0 <= i < |sizes| ==> sizes[i] < bytes + g
  }

  /** So many megabytes as the environment says, or 256. */
  ghost predicate AsConfigured(sizes: seq<nat>, env: Option<nat>, g: nat) {
    if Configured(env) then ChunksOf(sizes, env.value * 1048576, g) else ChunksOf(sizes, 268435456, g)
  }

  lemma ConfiguredTiles(sizes: seq<nat>, env: Option<nat>, aligned: nat, g: nat)
    requires 0 < g < WORD && (env.Some? ==> env.value < WORD) && 0 < RoundUp(BaseChunk(env), g)
    requires Tiles(sizes, aligned, RoundUp(BaseChunk(env), g), g)
    ensures AsConfigured(sizes, env, g)
  {
    hide Multiple, BaseChunk;
    var bytes := BaseChunk(env);
    assert bytes == (bytes / 1048576) * 1048576;
    RoundUpCoversExactly(bytes, g);
    RoundUpExact(bytes, g);
  }

  lemma MultipleMinus(x: nat, y: nat, g: nat)
    requires Multiple(x, g) && Multiple(y, g) && x >= y && g > 0
    ensures Multiple(x - y, g)
  {
    var k: nat :| x == Times(k, g);
    var m: nat :| y == Times(m, g);
    if k < m {
      assert Times(m, g) == Times(k, g) + (m - k) * g;
      assert x - y == Times(0, g);
    } else {
      assert x - y == Times(k - m, g);
    }
  }

  lemma MultipleTimes(c: nat, i: nat, g: nat)
    requires Multiple(c, g)
    ensures Multiple(Times(i, c), g)
  {
    var k: nat :| c == Times(k, g);
    assert Times(i, c) == Times(i * k, g);
  }

  /** my_min(alignedSize - i * chunk, chunk) */
  function ChunkSize(aligned: nat, chunk: nat, i: nat): nat
    requires Times(i, chunk) <= aligned
  {
    if aligned - Times(i, chunk) < chunk then aligned - Times(i, chunk) else chunk
  }

  lemma ChunkBounds(aligned: nat, chunk: nat, i: nat)
    requires 0 < chunk < WORD && aligned + chunk - 1 < WORD && i < NumChunks(aligned, chunk)
    ensures Times(i, chunk) < aligned && Times(i + 1, chunk) == Times(i, chunk) + chunk
    ensures i + 1 < NumChunks(aligned, chunk) ==> Times(i + 1, chunk) < aligned
    ensures i + 1 == NumChunks(aligned, chunk) ==> aligned <= Times(i + 1, chunk)
  {
    var n := NumChunks(aligned, chunk);
    assert n * chunk <= aligned + chunk - 1 < n * chunk + chunk;
    assert (i + 1) * chunk == i * chunk + chunk;
    MulMonotone(i + 1, n, chunk);
    if i + 1 < n {
      assert (i + 2) * chunk == (i + 1) * chunk + chunk;
      MulMonotone(i + 2, n, chunk);
    }
  }

  lemma ChunkMultiple(aligned: nat, chunk: nat, g: nat, i: nat)
    requires 0 < g && Multiple(aligned, g) && Multiple(chunk, g) && Times(i, chunk) <= aligned
    ensures Multiple(ChunkSize(aligned, chunk, i), g)
  {
    hide Multiple, Times;
    MultipleTimes(chunk, i, g);
    MultipleMinus(aligned, Times(i, chunk), g);
  }

  /** No sum in the plan overflows a word. */
  predicate PlanFits(size: nat, g: nat, chunk: nat)
    requires 0 < g && 0 < chunk
  {
    size + g - 1 < WORD && RoundUp(size, g) + chunk - 1 < WORD
  }

  lemma NoQuotient(a: nat, b: nat)
    requires a < b
    ensures Quotient(a, b) == 0
  {
  }

  lemma WrappedCount(aligned: nat, chunk: nat)
    requires 0 < chunk < WORD && aligned < WORD && aligned + chunk - 1 >= WORD
    ensures NumChunks(aligned, chunk) == 0
  {
    NoQuotient(Add(aligned, chunk - 1), chunk);
  }

  /** The plan has no chunks, and the allocation is made of nothing, exactly when it is empty or one does. */
  lemma OverflowPlansNothing(size: nat, g: nat, chunk: nat)
    requires 0 < g < WORD && 0 < chunk < WORD && size < WORD
    ensures NumChunks(RoundUp(size, g), chunk) == 0 <==> size == 0 || !PlanFits(size, g, chunk)
  {
    hide NumChunks;
    if size + g - 1 >= WORD || size == 0 {
      NoQuotient(Add(size, g - 1), g);
      NoChunks(0, chunk);
    } else if RoundUp(size, g) + chunk - 1 >= WORD {
      WrappedCount(RoundUp(size, g), chunk);
    } else {
      RoundUpExact(size, g);
      NoChunks(RoundUp(size, g), chunk);
    }
  }

  /** The sizes my_malloc records: the rest of the reservation, but at most one chunk. */
  method ChunkSizes(aligned: nat, chunk: nat, ghost g: nat) returns (sizes: seq<nat>)
    requires 0 < g && 0 < chunk < WORD && Multiple(aligned, g) && Multiple(chunk, g) && aligned < WORD
    ensures |sizes| == NumChunks(aligned, chunk)
    ensures if aligned + chunk - 1 < WORD then Tiles(sizes, aligned, chunk, g) else sizes == []
  {
    hide Multiple, NumChunks, Times;
    sizes := [];
    var n := NumChunks(aligned, chunk);
    if aligned + chunk - 1 >= WORD {
      WrappedCount(aligned, chunk);
      return;
    }
    NoChunks(aligned, chunk);
    for i := 0 to n
      invariant |sizes| == i
      invariant Sum(sizes, i) == if i < n then Times(i, chunk) else aligned
      invariant forall k :: 0 <= k < i ==> 0 < sizes[k] <= chunk && Multiple(sizes[k], g)
      invariant forall k :: 0 <= k < i && k + 1 < n ==> sizes[k] == chunk
    {
      ChunkBounds(aligned, chunk, i);
      ChunkMultiple(aligned, chunk, g, i);
      SumAppend(sizes, ChunkSize(aligned, chunk, i), i);
      sizes := sizes + [ChunkSize(aligned, chunk, i)];
    }
  }

  lemma NoChunks(aligned: nat, chunk: nat)
    requires 0 < chunk && aligned + chunk - 1 < WORD
    ensures NumChunks(aligned, chunk) == 0 <==> aligned == 0
    ensures Times(0, chunk) == 0
  {
    var n := NumChunks(aligned, chunk);
    assert n * chunk <= aligned + chunk - 1 < n * chunk + chunk;
    if n > 0 { MulMonotone(1, n, chunk); }
  }

  lemma {:induction false} SumAppend(sizes: seq<nat>, x: nat, n: nat)
    requires n <= |sizes|
    ensures Sum(sizes + [x], n) == Sum(sizes, n)
    ensures Sum(sizes + [x], |sizes| + 1) == Sum(sizes + [x], |sizes|) + x
  {
    if n > 0 { SumAppend(sizes, x, n - 1); }
  }

  /** Laid end to end, the chunks cover every byte of the reservation, and each byte once. */
  lemma {:induction false} ByteInOneChunk(sizes: seq<nat>, n: nat, x: nat) returns (i: nat)
    requires n <= |sizes| && x < Sum(sizes, n)
    ensures i < n && Sum(sizes, i) <= x < Sum(sizes, i + 1)
    ensures forall j :: 0 <= j < |sizes| && Sum(sizes, j) <= x < Sum(sizes, j) + sizes[j] ==> j == i
  {
    if Sum(sizes, n - 1) <= x {
      i := n - 1;
      forall j | 0 <= j < |sizes| && Sum(sizes, j) <= x < Sum(sizes, j) + sizes[j] ensures j == i {
        if j < i { SumMonotone(sizes, j + 1, i); }
        if i < j { SumMonotone(sizes, i + 1, j); }
      }
    } else {
      i := ByteInOneChunk(sizes, n - 1, x);
    }
  }
}
