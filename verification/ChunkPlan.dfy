/** The sleep-mode allocator on ROCm: chunk planning, staged create-and-map with rollback, and the
    reserve / map / unmap / placeholder life of an allocation. */
module ChunkPlan {
  import opened Wrappers
  import opened Arith

  const TWO64: int := 0x1_0000_0000_0000_0000
  const MB: int := 1024 * 1024
  const DEFAULT_CHUNK: int := 256 * 1024 * 1024

  /** The chunk size in bytes from the parsed environment value in megabytes, if it parsed. */
  function BaseChunk(parsed: Option<int>): (c: int)
    requires parsed.Some? ==> 0 <= parsed.value < TWO64
    ensures 0 < c < TWO64 && c % MB == 0
    ensures c == if parsed.Some? && 0 < parsed.value * MB < TWO64 then parsed.value * MB else 256 * MB
  {
    if parsed.None? || parsed.value == 0 || parsed.value > (TWO64 - 1) / MB then DEFAULT_CHUNK
    else MulMod(parsed.value, MB); parsed.value * MB
  }

  lemma {:induction false} MulMod(x: int, m: int)
    requires m > 0
    ensures (x * m) % m == 0
  {
    DivUnique(x * m, m, x, 0);
  }

  /** Round up to a multiple of the granularity. */
  function AlignUp(size: int, g: int): int
    requires g > 0
  {
    ((size + g - 1) / g) * g
  }

  /** The same in 64-bit unsigned arithmetic. */
  function AlignUp64(size: int, g: int): int
    requires 0 < g < TWO64
  {
    ((((size + g - 1) % TWO64) / g) * g) % TWO64
  }

  lemma {:induction false} AlignUpIsLeast(size: int, g: int)
    requires g > 0
    ensures size <= AlignUp(size, g) < size + g && AlignUp(size, g) % g == 0
  {
    var q := (size + g - 1) / g;
    assert size + g - 1 == q * g + (size + g - 1) % g;
    MulMod(q, g);
  }

  lemma {:induction false} SmallMod(x: int, m: int)
    requires 0 <= x < m
    ensures x % m == x
  {
  }

  /** The 64-bit form rounds up properly exactly when the addition does not wrap. */
  lemma {:induction false} AlignUpWraps(size: int, g: int)
    requires 0 < size < TWO64 && 0 < g < TWO64
    ensures size + g - 1 < TWO64 <==> AlignUp64(size, g) == AlignUp(size, g)
    ensures size + g - 1 >= TWO64 ==> AlignUp64(size, g) < size
  {
    AlignUpIsLeast(size, g);
    var sum := size + g - 1;
    if sum < TWO64 {
      var q := sum / g;
      assert sum == q * g + sum % g;
      MulOrder(0, q, g);
      SmallMod(sum, TWO64);
      SmallMod(q * g, TWO64);
    } else {
      DivUnique(sum, TWO64, 1, sum - TWO64);
      DivUnique(sum - TWO64, g, 0, sum - TWO64);
      SmallMod(0, TWO64);
    }
  }

  // ---------------------------------------------------------------- chunks

  /** What the chunk loop fills in: full chunks and a possibly shorter last one. */
  function ChunkAt(aligned: int, chunk: int, i: int): int {
    if aligned - i * chunk < chunk then aligned - i * chunk else chunk
  }

  /** A plan tiles the allocation: positive chunks, whole granules, adding up to the aligned size. */
  ghost predicate Tiles(sizes: seq<int>, aligned: int, g: int)
    requires g > 0
  {
    && sizes != [] && Sum(sizes) == aligned
    && (forall i :: 0 <= i < |sizes| ==> sizes[i] > 0 && sizes[i] % g == 0)
  }

  lemma {:induction false} CountBounds(aligned: int, chunk: int)
    requires aligned > 0 && chunk > 0
    ensures var n := (aligned + chunk - 1) / chunk; n >= 1 && (n - 1) * chunk < aligned <= n * chunk
  {
    var n := (aligned + chunk - 1) / chunk;
    assert aligned + chunk - 1 == n * chunk + (aligned + chunk - 1) % chunk;
    assert (n - 1) * chunk == n * chunk - chunk;
    if n <= 0 { MulOrder(n, 0, chunk); }
  }

  lemma {:induction false} ModDifference(x: int, y: int, g: int)
    requires g > 0 && x % g == 0 && y % g == 0
    ensures (x - y) % g == 0
  {
    assert x == (x / g) * g && y == (y / g) * g;
    assert x - y == (x / g - y / g) * g;
    MulMod(x / g - y / g, g);
  }

  lemma {:induction false} ModMultiple(x: int, k: int, g: int)
    requires g > 0 && x % g == 0
    ensures (k * x) % g == 0
  {
    assert x == (x / g) * g;
    assert k * x == (k * (x / g)) * g;
    MulMod(k * (x / g), g);
  }

  /** The number of chunks in 64-bit unsigned arithmetic. */
  function Count64(aligned: int, chunk: int): int
    requires chunk > 0
  {
    ((aligned + chunk - 1) % TWO64) / chunk
  }

  /** The 64-bit count is the least number of chunks that hold the allocation exactly when its
      addition does not wrap; when it wraps there are no chunks at all. */
  lemma {:induction false} Count64Wraps(aligned: int, chunk: int)
    requires 0 < aligned < TWO64 && 0 < chunk < TWO64
    ensures aligned + chunk - 1 < TWO64 <==> Count64(aligned, chunk) >= 1
    ensures aligned + chunk - 1 < TWO64 ==>
              (Count64(aligned, chunk) - 1) * chunk < aligned <= Count64(aligned, chunk) * chunk
    ensures aligned + chunk - 1 >= TWO64 ==> Count64(aligned, chunk) == 0
  {
    var sum := aligned + chunk - 1;
    CountBounds(aligned, chunk);
    if sum < TWO64 {
      SmallMod(sum, TWO64);
    } else {
      DivUnique(sum, TWO64, 1, sum - TWO64);
      DivUnique(sum - TWO64, chunk, 0, sum - TWO64);
    }
  }

  lemma {:induction false} AlignUp64Multiple(size: int, g: int)
    requires 0 < g < TWO64
    ensures 0 <= AlignUp64(size, g) < TWO64 && AlignUp64(size, g) % g == 0
  {
    var x := (size + g - 1) % TWO64;
    var q := x / g;
    assert x == q * g + x % g;
    MulOrder(0, q, g);
    SmallMod(q * g, TWO64);
    MulMod(q, g);
  }

  /** The rounded chunk size is a usable divisor exactly when rounding the configured size up does
      not wrap. */
  lemma {:induction false} ChunkSizeUsable(base: int, g: int)
    requires 0 < base < TWO64 && 0 < g < TWO64
    ensures AlignUp64(base, g) > 0 <==> base + g - 1 < TWO64
  {
    AlignUpWraps(base, g);
    AlignUpIsLeast(base, g);
    var sum := base + g - 1;
    if sum >= TWO64 {
      DivUnique(sum, TWO64, 1, sum - TWO64);
      DivUnique(sum - TWO64, g, 0, sum - TWO64);
      SmallMod(0, TWO64);
    }
  }

  /** Fill the chunk sizes of an aligned allocation. Every chunk but the last is full, so chunk i
      starts at i times the chunk size. */
  method PlanChunks(aligned: int, chunk: int, g: int) returns (sizes: seq<int>)
    requires g > 0 && 0 < aligned < TWO64 && 0 < chunk < TWO64 && aligned % g == 0 && chunk % g == 0
    ensures aligned + chunk - 1 < TWO64 ==>
              && Tiles(sizes, aligned, g) && (|sizes| - 1) * chunk < aligned <= |sizes| * chunk
              && (forall i :: 0 <= i < |sizes| ==> sizes[i] <= chunk && Sum(sizes[..i]) == i * chunk)
    ensures aligned + chunk - 1 >= TWO64 ==> sizes == []
  {
    var count := Count64(aligned, chunk);
    Count64Wraps(aligned, chunk);
    sizes := [];
    for i := 0 to count
      invariant |sizes| == i
      invariant Sum(sizes) == if i < count || count == 0 then i * chunk else aligned
      invariant forall k :: 0 <= k < i ==> 0 < sizes[k] <= chunk && sizes[k] % g == 0
      invariant forall k :: 0 <= k < i ==> Sum(sizes[..k]) == k * chunk
    {
      ghost var before := sizes;
      var size := ChunkAt(aligned, chunk, i);
      ChunkFacts(aligned, chunk, g, count, i);
      sizes := sizes + [size];
      assert sizes[..i] == before;
      assert forall k :: 0 <= k < i ==> sizes[..k] == before[..k];
    }
  }

  lemma {:induction false} ChunkFacts(aligned: int, chunk: int, g: int, count: int, i: nat)
    requires g > 0 && aligned > 0 && chunk > 0 && aligned % g == 0 && chunk % g == 0 && i < count
    requires (count - 1) * chunk < aligned <= count * chunk
    ensures 0 < ChunkAt(aligned, chunk, i) <= chunk && ChunkAt(aligned, chunk, i) % g == 0
    ensures i * chunk + ChunkAt(aligned, chunk, i) == if i + 1 < count then (i + 1) * chunk else aligned
  {
    ModMultiple(chunk, i, g);
    ModDifference(aligned, i * chunk, g);
    assert (i + 1) * chunk == i * chunk + chunk;
    MulOrder(i, count - 1, chunk);
    if i + 1 < count { MulOrder(i + 1, count - 1, chunk); }
    assert i + 1 == count ==> count * chunk == (i + 1) * chunk;
  }
}
