/** Prefix caching for the selective scan: the chunk metadata the attention backend builds, where
    the kernel's checkpoints land under it, and why cutting a sequence into launches is invisible. */
module ScanResume {
  import opened SelectiveScan
  import opened Arith
  import opened Wrappers

  // ---------------------------------------------------------------- the metadata builder

  ghost predicate Rising(xs: seq<nat>) {
    forall i, j :: 0 <= i <= j < |xs| ==> xs[i] <= xs[j]
  }

  function CDiv(x: nat, y: nat): nat
    requires y > 0
  {
    (x + y - 1) / y
  }

  function Min(x: int, y: int): int { if x < y then x else y }
  function Max(x: int, y: int): int { if x > y then x else y }

  function LastComputedBlock(computed: nat, bs: nat): int
    requires bs > 0
  {
    Max((computed + bs - 1) / bs - 1, 0)
  }

  function FirstScheduledBlock(computed: nat, bs: nat): int
    requires bs > 0
  {
    (computed + bs) / bs - 1
  }

  function LastScheduledBlock(total: nat, bs: nat): int
    requires bs > 0
  {
    Max((total + bs - 1) / bs - 1, 0)
  }

  /** Full chunks of bs tokens, the last one possibly short. */
  function Blocks(n: nat, bs: nat): (t: seq<int>)
    requires bs > 0
    ensures forall i :: 0 <= i < |t| ==> 0 < t[i] <= bs
  {
    if n == 0 then [] else [Min(bs, n)] + Blocks(n - Min(bs, n), bs)
  }

  predicate InsideChunk(computed: nat, bs: nat)
    requires bs > 0
  {
    computed % bs != 0
  }

  function RestOfChunk(computed: nat, bs: nat): int
    requires bs > 0
  {
    CDiv(computed, bs) * bs - computed
  }

  /** The tokens that finish a chunk begun by an earlier launch. */
  function Head(computed: nat, n: nat, bs: nat): (t: seq<int>)
    requires bs > 0
  {
    if InsideChunk(computed, bs) then [Min(RestOfChunk(computed, bs), n)] else []
  }

  function RequestChunks(computed: nat, n: nat, bs: nat): seq<int>
    requires bs > 0
  {
    HeadFits(computed, n, bs);
    Head(computed, n, bs) + Blocks(n - Sum(Head(computed, n, bs)), bs)
  }

  lemma {:induction false} HeadFits(computed: nat, n: nat, bs: nat)
    requires bs > 0
    ensures 0 <= Sum(Head(computed, n, bs)) <= n
    ensures computed % bs != 0 ==>
              Head(computed, n, bs) == [Min(bs - computed % bs, n)] &&
                  Sum(Head(computed, n, bs)) == Min(bs - computed % bs, n)
  {
    if computed % bs != 0 {
      CeilOfPartial(computed, bs);
      SumOne(Min(bs - computed % bs, n));
    }
  }

  lemma {:induction false} SumOne(x: int)
    ensures Sum([x]) == x
  {
    assert [x][..0] == [];
  }

  lemma {:induction false} CeilOfPartial(x: nat, bs: nat)
    requires bs > 0 && x % bs != 0
    ensures CDiv(x, bs) == x / bs + 1
    ensures CDiv(x, bs) * bs - x == bs - x % bs
  {
    assert x == bs * (x / bs) + x % bs;
    DivUnique(x + bs - 1, bs, x / bs + 1, x % bs - 1);
  }

  lemma {:induction false} SumCons(x: int, xs: seq<int>)
    ensures Sum([x] + xs) == x + Sum(xs)
  {
    if xs == [] {
      assert ([x] + xs)[..0] == [];
    } else {
      assert ([x] + xs)[..|xs|] == [x] + xs[..|xs|-1];
      SumCons(x, xs[..|xs|-1]);
    }
  }

  lemma {:induction false} SumAppend(xs: seq<int>, ys: seq<int>)
    ensures Sum(xs + ys) == Sum(xs) + Sum(ys)
  {
    if ys == [] {
      assert xs + ys == xs;
    } else {
      assert (xs + ys)[..|xs + ys|-1] == xs + ys[..|ys|-1];
      SumAppend(xs, ys[..|ys|-1]);
    }
  }

  /** The reference: cut n tokens that start `phase` tokens into a block at every block boundary. */
  function Aligned(phase: nat, n: nat, bs: nat): (t: seq<int>)
    requires phase < bs
    ensures forall i :: 0 <= i < |t| ==> 0 < t[i]
    decreases n
  {
    if n == 0 then [] else [Min(bs - phase, n)] + Aligned(0, n - Min(bs - phase, n), bs)
  }

  lemma {:induction false} BlocksAreAligned(n: nat, bs: nat)
    requires bs > 0
    ensures Blocks(n, bs) == Aligned(0, n, bs)
  {
    if n > 0 { BlocksAreAligned(n - Min(bs, n), bs); }
  }

  /** The builder cuts at absolute block boundaries, whatever was computed before. */
  lemma {:induction false} ChunksAreAligned(computed: nat, n: nat, bs: nat)
    requires bs > 0 && n > 0
    ensures RequestChunks(computed, n, bs) == Aligned(computed % bs, n, bs)
  {
    HeadFits(computed, n, bs);
    if computed % bs == 0 {
      BlocksAreAligned(n, bs);
      assert RequestChunks(computed, n, bs) == [] + Blocks(n, bs) == Blocks(n, bs);
    } else {
      BlocksAreAligned(n - Min(bs - computed % bs, n), bs);
    }
  }

  /** Where chunk k ends: with its block or with the request. */
  function ChunkEnd(k: int, bs: int, phase: int, n: int): int {
    Min((k + 1) * bs - phase, n)
  }

  lemma {:induction false} MinShift(k: nat, bs: nat, phase: nat, n: int)
    requires k > 0 && phase < bs
    ensures bs - phase + ChunkEnd(k - 1, bs, 0, n - (bs - phase)) == ChunkEnd(k, bs, phase, n)
  {
    assert (k + 1) * bs == k * bs + bs;
  }

  /** Chunk k ends at the end of its block, or with the request. */
  lemma {:induction false} ChunkEnds(phase: nat, n: nat, bs: nat, k: nat)
    requires phase < bs && k < |Aligned(phase, n, bs)|
    ensures Sum(Aligned(phase, n, bs)[..k+1]) == ChunkEnd(k, bs, phase, n)
    decreases n
  {
    hide Sum, ChunkEnd;
    var t, all := Min(bs - phase, n), Aligned(phase, n, bs);
    if k == 0 {
      assert all[..1] == [t];
      SumOne(t);
      FirstEnd(bs, phase, n);
    } else {
      var rest := Aligned(0, n - t, bs);
      ChunkEnds(0, n - t, bs, k - 1);
      assert all[..k+1] == [t] + rest[..k];
      SumCons(t, rest[..k]);
      MinShift(k, bs, phase, n);
    }
  }

  lemma {:induction false} FirstEnd(bs: int, phase: int, n: int)
    ensures ChunkEnd(0, bs, phase, n) == Min(bs - phase, n)
  {
  }

  /** The last chunk is the one whose block holds the last token. */
  lemma {:induction false} LastChunkBlock(phase: nat, n: nat, bs: nat)
    requires phase < bs && n > 0
    ensures var q := |Aligned(phase, n, bs)| - 1; q >= 0 && q * bs < phase + n <= (q + 1) * bs
    decreases n
  {
    var t := Min(bs - phase, n);
    if t < n {
      LastChunkBlock(0, n - t, bs);
      var q := |Aligned(0, n - t, bs)| - 1;
      assert (q + 1) * bs == q * bs + bs && (q + 2) * bs == (q + 1) * bs + bs;
    }
  }

  lemma {:induction false} AlignedTotal(phase: nat, n: nat, bs: nat)
    requires phase < bs
    ensures Sum(Aligned(phase, n, bs)) == n
    decreases n
  {
    if n > 0 {
      var t := Min(bs - phase, n);
      AlignedTotal(0, n - t, bs);
      SumCons(t, Aligned(0, n - t, bs));
    }
  }

  /** The chunks of every request. */
  function ChunkLists(bs: nat, computed: seq<nat>, queryStart: seq<nat>): (lists: seq<seq<int>>)
    requires bs > 0 && |queryStart| == |computed| + 1 && Rising(queryStart)
    ensures |lists| == |computed|
  {
    seq(|computed|, i requires 0 <= i < |computed| => RequestChunks(computed[i], queryStart[i+1] - queryStart[i], bs))
  }

  function Flat(lists: seq<seq<int>>): seq<int> {
    if lists == [] then [] else Flat(lists[..|lists|-1]) + lists[|lists|-1]
  }

  function Owners(lists: seq<seq<int>>): seq<int> {
    if lists == [] then [] else Owners(lists[..|lists|-1]) + Owned(|lists[|lists|-1]|, |lists| - 1)
  }

  function Owned(count: nat, r: int): seq<int> {
    seq(count, _ => r)
  }

  /** cu holds where every chunk of `all` starts, and pos where the next one would. */
  ghost predicate Starts(cu: seq<int>, all: seq<int>, pos: int) {
    && |cu| == |all| && pos == Sum(all)
    && forall i :: 0 <= i < |all| ==> cu[i] == Sum(all[..i])
  }

  lemma {:induction false} AddChunk(cu: seq<int>, all: seq<int>, pos: int, t: int)
    requires Starts(cu, all, pos)
    ensures Starts(cu + [pos], all + [t], pos + t)
  {
    assert (all + [t])[..|all|] == all;
    assert forall i :: 0 <= i < |all| ==> (all + [t])[..i] == all[..i];
  }

  /** The aligned chunks of one request. */
  method AddBlocks(bs: nat, newTokens: nat, r: int, cuChunk: seq<int>, seqIdx: seq<int>, seqlenPos: int,
                   ghost all: seq<int>)
    returns (cu: seq<int>, idx: seq<int>, pos: int)
    requires bs > 0 && Starts(cuChunk, all, seqlenPos)
    ensures Starts(cu, all + Blocks(newTokens, bs), pos)
    ensures idx == seqIdx + Owned(|Blocks(newTokens, bs)|, r)
  {
    hide *;
    cu, idx, pos := cuChunk, seqIdx, seqlenPos;
    var left := newTokens;
    ghost var made: seq<int> := [];
    assert all + made == all && made + Blocks(left, bs) == Blocks(left, bs);
    NoneOwned(seqIdx, r);
    BlockCount(left, bs);
    var chunkCount := CDiv(left, bs);
    for chunk := 0 to chunkCount
      invariant 0 <= left && |Blocks(left, bs)| == chunkCount - chunk
      invariant Blocks(newTokens, bs) == made + Blocks(left, bs)
      invariant Starts(cu, all + made, pos)
      invariant idx == seqIdx + Owned(|made|, r)
    {
      var chunkLen := Min(bs, left);
      BlocksStep(left, bs);
      AddChunk(cu, all + made, pos, chunkLen);
      OneMoreOwned(seqIdx, |made|, r);
      assert all + (made + [chunkLen]) == all + made + [chunkLen];
      assert made + ([chunkLen] + Blocks(left - chunkLen, bs)) == (made + [chunkLen]) + Blocks(left - chunkLen, bs);
      cu, idx := cu + [pos], idx + [r];
      pos, left := pos + chunkLen, left - chunkLen;
      made := made + [chunkLen];
    }
    assert made == Blocks(newTokens, bs);
  }

  lemma {:induction false} BlocksStep(left: nat, bs: nat)
    requires bs > 0 && |Blocks(left, bs)| > 0
    ensures 0 < Min(bs, left) <= left && Blocks(left, bs) == [Min(bs, left)] + Blocks(left - Min(bs, left), bs)
  {
  }

  lemma {:induction false} NoneOwned(idx: seq<int>, r: int)
    ensures idx == idx + Owned(0, r)
  {
  }

  lemma {:induction false} OneMoreOwned(idx: seq<int>, count: nat, r: int)
    ensures idx + Owned(count, r) + [r] == idx + Owned(count + 1, r)
  {
  }

  /** The chunks of one request: first the rest of a chunk begun earlier, then whole ones. */
  method AddRequest(bs: nat, computed: nat, newTokens: nat, r: int, cuChunk: seq<int>, seqIdx: seq<int>, seqlenPos: int,
                    ghost all: seq<int>, ghost want: seq<int>)
    returns (cu: seq<int>, idx: seq<int>, pos: int)
    requires bs > 0 && Starts(cuChunk, all, seqlenPos) && want == RequestChunks(computed, newTokens, bs)
    ensures Starts(cu, all + want, pos) && |cu| == |all| + |want|
    ensures idx == seqIdx + Owned(|want|, r)
  {
    RequestSplits(computed, newTokens, bs);
    hide Sum, Blocks, RequestChunks, Starts, InsideChunk, RestOfChunk, Owned;
    if InsideChunk(computed, bs) {
      var chunkLen := Min(RestOfChunk(computed, bs), newTokens);
      AddChunk(cuChunk, all, seqlenPos, chunkLen);
      cu, idx, pos := AddBlocks(bs, newTokens - chunkLen, r, cuChunk + [seqlenPos],
                                seqIdx + [r], seqlenPos + chunkLen, all + [chunkLen]);
      ghost var rest := Blocks(newTokens - chunkLen, bs);
      Regroup(all, chunkLen, rest);
      Regroup(seqIdx, r, Owned(|rest|, r));
      OwnedCons(|rest|, r);
    } else {
      cu, idx, pos := AddBlocks(bs, newTokens, r, cuChunk, seqIdx, seqlenPos, all);
    }
    StartsAlike(cu, all + want, pos);
  }

  lemma {:induction false} Regroup(xs: seq<int>, y: int, zs: seq<int>)
    ensures xs + [y] + zs == xs + ([y] + zs)
  {
  }

  lemma {:induction false} OwnedCons(count: nat, r: int)
    ensures [r] + Owned(count, r) == Owned(count + 1, r)
  {
  }

  lemma {:induction false} StartsAlike(cu: seq<int>, all: seq<int>, pos: int)
    requires Starts(cu, all, pos)
    ensures |cu| == |all|
  {
  }

  /** What the loop makes of a request are its chunks. */
  lemma {:induction false} RequestSplits(computed: nat, n: nat, bs: nat)
    requires bs > 0
    ensures !InsideChunk(computed, bs) ==> RequestChunks(computed, n, bs) == Blocks(n, bs)
    ensures var t := Min(RestOfChunk(computed, bs), n);
            InsideChunk(computed, bs) ==> 0 <= t <= n && RequestChunks(computed, n, bs) == [t] + Blocks(n - t, bs)
  {
    HeadFits(computed, n, bs);
    if computed % bs != 0 {
      SumOne(Min(RestOfChunk(computed, bs), n));
    } else {
      assert [] + Blocks(n, bs) == Blocks(n, bs);
    }
  }

  /** What the builder promises the kernel: prefix sums over all chunks, and where each request's end. */
  ghost predicate Built(lists: seq<seq<int>>, cuChunk: seq<int>, lastChunk: seq<int>) {
    var all := Flat(lists);
    && |cuChunk| == |all| + 1 && (forall i :: 0 <= i <= |all| ==> cuChunk[i] == Sum(all[..i]))
    && Ends(lastChunk, lists, |lists|)
  }

  /** lastChunk holds the index of the last chunk of each of the first r requests. */
  ghost predicate Ends(lastChunk: seq<int>, lists: seq<seq<int>>, r: int) {
    && |lastChunk| == r <= |lists|
    && forall q :: 0 <= q < r ==> lastChunk[q] == |Flat(lists[..q+1])| - 1
  }

  lemma {:induction false} EndsStep(lastChunk: seq<int>, lists: seq<seq<int>>, r: nat)
    requires Ends(lastChunk, lists, r) && r < |lists|
    ensures Ends(lastChunk + [|Flat(lists[..r+1])| - 1], lists, r + 1)
  {
  }

  lemma {:induction false} FlatStep(lists: seq<seq<int>>, r: nat)
    requires r < |lists|
    ensures Flat(lists[..r+1]) == Flat(lists[..r]) + lists[r]
    ensures Owners(lists[..r+1]) == Owners(lists[..r]) + Owned(|lists[r]|, r)
  {
    assert lists[..r+1][..r] == lists[..r];
  }

  /** The builder: cumulative chunk boundaries, the request of every chunk, each request's last chunk. */
  method ComputeChunkMetadata(bs: nat, computed: seq<nat>, queryStart: seq<nat>)
    returns (cuChunk: seq<int>, seqIdx: seq<int>, lastChunk: seq<int>)
    requires bs > 0 && |queryStart| == |computed| + 1 && Rising(queryStart)
    ensures Built(ChunkLists(bs, computed, queryStart), cuChunk, lastChunk)
    ensures seqIdx == Owners(ChunkLists(bs, computed, queryStart))
    ensures |seqIdx| == |cuChunk| - 1 && Marked(seqIdx, lastChunk)
  {
    hide *;
    cuChunk, seqIdx, lastChunk := [], [], [];
    var seqlenPos := 0;
    ghost var lists := ChunkLists(bs, computed, queryStart);
    ghost var flat: seq<int> := [];
    NothingBuilt(lists);
    for r := 0 to |computed|
      invariant flat == Flat(lists[..r]) && Starts(cuChunk, flat, seqlenPos)
      invariant seqIdx == Owners(lists[..r])
      invariant Ends(lastChunk, lists, r)
    {
      ChunkListAt(bs, computed, queryStart, r);
      ghost var list := lists[r];
      cuChunk, seqIdx, seqlenPos := AddRequest(bs, computed[r], queryStart[r+1] - queryStart[r], r,
                                               cuChunk, seqIdx, seqlenPos, flat, list);
      FlatStep(lists, r);
      EndsStep(lastChunk, lists, r);
      flat := flat + list;
      lastChunk := lastChunk + [|cuChunk| - 1];
    }
    assert lists[..|computed|] == lists;
    FinishBuild(lists, cuChunk, lastChunk, seqlenPos);
    cuChunk := cuChunk + [seqlenPos];
    OwnersFollow(lists, cuChunk, lastChunk);
  }

  /** Chunk i belongs to request b, by where the requests end. */
  ghost predicate ChunkOf(lastChunk: seq<int>, b: int, i: int)
    requires 0 <= b < |lastChunk|
  {
    (if b == 0 then 0 else lastChunk[b-1] + 1) <= i <= lastChunk[b]
  }

  /** Every chunk of a request is marked as its own. */
  ghost predicate Marked(seqIdx: seq<int>, lastChunk: seq<int>) {
    forall b, i :: 0 <= b < |lastChunk| && ChunkOf(lastChunk, b, i) ==> 0 <= i < |seqIdx| && seqIdx[i] == b
  }

  lemma {:induction false} OwnersFollow(lists: seq<seq<int>>, cuChunk: seq<int>, lastChunk: seq<int>)
    requires Built(lists, cuChunk, lastChunk)
    ensures |Owners(lists)| == |cuChunk| - 1 && Marked(Owners(lists), lastChunk)
  {
    assert lists[..|lists|] == lists;
    OwnersSize(lists, |lists|);
    forall b, i | 0 <= b < |lastChunk| && ChunkOf(lastChunk, b, i)
      ensures 0 <= i < |Owners(lists)| && Owners(lists)[i] == b
    {
      OwnerAt(lists, |lists|, b, i);
    }
  }

  lemma {:induction false} OwnersSize(lists: seq<seq<int>>, r: nat)
    requires r <= |lists|
    ensures |Owners(lists[..r])| == |Flat(lists[..r])|
  {
    if r > 0 {
      OwnersSize(lists, r - 1);
      FlatStep(lists, r - 1);
    }
  }

  lemma {:induction false} OwnerAt(lists: seq<seq<int>>, r: nat, b: nat, i: int)
    requires b < r <= |lists| && |Flat(lists[..b])| <= i < |Flat(lists[..b+1])|
    ensures 0 <= i < |Owners(lists[..r])| && Owners(lists[..r])[i] == b
  {
    OwnersSize(lists, r);
    OwnersSize(lists, r - 1);
    FlatStep(lists, r - 1);
    if b < r - 1 {
      OwnerAt(lists, r - 1, b, i);
    }
  }

  lemma {:induction false} NothingBuilt(lists: seq<seq<int>>)
    ensures Flat(lists[..0]) == [] && Owners(lists[..0]) == [] && Starts([], [], 0) && Ends([], lists, 0)
  {
  }

  lemma {:induction false} ChunkListAt(bs: nat, computed: seq<nat>, queryStart: seq<nat>, r: nat)
    requires bs > 0 && |queryStart| == |computed| + 1 && Rising(queryStart) && r < |computed|
    ensures queryStart[r] <= queryStart[r+1]
    ensures ChunkLists(bs, computed, queryStart)[r] == RequestChunks(computed[r], queryStart[r+1] - queryStart[r], bs)
  {
  }

  lemma {:induction false} FinishBuild(lists: seq<seq<int>>, cuChunk: seq<int>, lastChunk: seq<int>, pos: int)
    requires Starts(cuChunk, Flat(lists), pos) && Ends(lastChunk, lists, |lists|)
    ensures Built(lists, cuChunk + [pos], lastChunk)
  {
    assert Flat(lists)[..|Flat(lists)|] == Flat(lists);
  }

  lemma {:induction false} BlockCount(n: nat, bs: nat)
    requires bs > 0
    ensures |Blocks(n, bs)| == CDiv(n, bs)
  {
    if n == 0 {
      DivUnique(bs - 1, bs, 0, bs - 1);
    } else if n <= bs {
      DivUnique(n + bs - 1, bs, 1, n - 1);
      BlockCount(0, bs);
    } else {
      BlockCount(n - bs, bs);
      var q := CDiv(n - bs, bs);
      assert n - 1 == q * bs + (n - 1) % bs;
      DivUnique(n + bs - 1, bs, q + 1, (n - 1) % bs);
    }
  }

  // ---------------------------------------------------------------- where checkpoints land

  /** Entry b's metadata is what the backend builds for a request with f full blocks and `phase`
      more tokens in the cache, n more to scan and the slots `row` for its blocks. */
  ghost predicate Describes(a: Args, b: nat, bs: nat, row: seq<int>, f: nat, phase: nat, n: nat) {
    && phase < bs && n > 0 && a.cache.Prefix?
    && (a.varlen ==> b + 1 < |a.queryStart| && a.queryStart[b] + n == a.queryStart[b+1])
    && (!a.varlen ==> a.seqlen == n)
    && a.hasInit.Some? && b < |a.hasInit.value| && a.hasInit.value[b] == (f * bs + phase > 0)
    && var c, computed, chunks := a.cache, f * bs + phase, Aligned(phase, n, bs);
       && 0 <= computed && c.blockSize == bs
       && b < |c.table| && b < |c.firstBlock| && b < |c.lastBlock| && b < |c.initBlock| && b < |c.lastChunk|
       && c.table[b] == row && LastScheduledBlock(computed + n, bs) < |row|
       && c.firstBlock[b] == FirstScheduledBlock(computed, bs)
       && c.lastBlock[b] == LastScheduledBlock(computed + n, bs)
       && c.initBlock[b] == LastComputedBlock(computed, bs)
       && 0 <= FirstChunk(c, b) && c.lastChunk[b] + 1 < |c.cuChunk| && NumChunks(c, b) == |chunks|
       && (forall k :: 0 <= k <= |chunks| ==>
             c.cuChunk[FirstChunk(c, b) + k] - c.cuChunk[FirstChunk(c, b)] == Sum(chunks[..k]))
  }

  lemma {:induction false} BlockIndices(bs: nat, f: nat, phase: nat, n: nat, q: nat)
    requires phase < bs && n > 0 && q * bs < phase + n <= (q + 1) * bs
    ensures var computed := f * bs + phase;
            && 0 <= computed
            && FirstScheduledBlock(computed, bs) == f
            && LastScheduledBlock(computed + n, bs) == f + q
            && LastComputedBlock(computed, bs) == if phase > 0 then f else if f > 0 then f - 1 else 0
  {
    var computed := f * bs + phase;
    assert (f + 1) * bs == f * bs + bs && (q + 1) * bs == q * bs + bs;
    DivUnique(computed + bs, bs, f + 1, phase);
    assert (f + q + 1) * bs == f * bs + q * bs + bs;
    DivUnique(computed + n + bs - 1, bs, f + q + 1, phase + n - 1 - q * bs);
    if phase > 0 {
      DivUnique(computed + bs - 1, bs, f + 1, phase - 1);
    } else {
      DivUnique(computed + bs - 1, bs, f, bs - 1);
    }
  }

  lemma {:induction false} EndOfBlock(block: int, bs: int)
    requires bs > 0
    ensures ((block + 1) * bs - 1) / bs == block
  {
    assert (block + 1) * bs - 1 == block * bs + (bs - 1);
    DivUnique((block + 1) * bs - 1, bs, block, bs - 1);
  }

  /** The chunks of request b sit between those of its neighbours in what the builder returns. */
  lemma {:induction false} BuiltEntry(lists: seq<seq<int>>, c: Cache, b: nat)
    requires b < |lists| && c.Prefix? && Built(lists, c.cuChunk, c.lastChunk)
    ensures && 0 <= FirstChunk(c, b) && c.lastChunk[b] + 1 < |c.cuChunk| && NumChunks(c, b) == |lists[b]|
            && forall k :: 0 <= k <= |lists[b]| ==>
                 c.cuChunk[FirstChunk(c, b) + k] - c.cuChunk[FirstChunk(c, b)] == Sum(lists[b][..k])
  {
    var before := Flat(lists[..b]);
    FlatStep(lists, b);
    FlatPrefix(lists, b + 1);
    assert b == 0 ==> lists[..b] == [];
    assert FirstChunk(c, b) == |before|;
    SumsInside(Flat(lists), before, lists[b], c.cuChunk);
  }

  lemma {:induction false} SumsInside(all: seq<int>, before: seq<int>, mine: seq<int>, cu: seq<int>)
    requires before + mine <= all && |cu| == |all| + 1
    requires forall i :: 0 <= i <= |all| ==> cu[i] == Sum(all[..i])
    ensures forall k :: 0 <= k <= |mine| ==> cu[|before| + k] - cu[|before|] == Sum(mine[..k])
  {
    forall k | 0 <= k <= |mine|
      ensures cu[|before| + k] - cu[|before|] == Sum(mine[..k])
    {
      assert all[..|before| + k] == before + mine[..k];
      assert all[..|before|] == before;
      SumAppend(before, mine[..k]);
    }
  }

  lemma {:induction false} FlatPrefix(lists: seq<seq<int>>, r: nat)
    requires r <= |lists|
    ensures Flat(lists[..r]) <= Flat(lists)
    decreases |lists| - r
  {
    if r < |lists| {
      FlatPrefix(lists, r + 1);
      FlatStep(lists, r);
    } else {
      assert lists[..r] == lists;
    }
  }

  /** Entry b's block indices are the backend's, for `computed` cached tokens and n scheduled ones. */
  ghost predicate IndicesFor(a: Args, b: nat, bs: nat, computed: nat, n: nat) {
    && bs > 0 && a.cache.Prefix? && a.cache.blockSize == bs
    && a.hasInit.Some? && b < |a.hasInit.value| && a.hasInit.value[b] == (computed > 0)
    && b < |a.cache.table| && b < |a.cache.firstBlock| && b < |a.cache.lastBlock| && b < |a.cache.initBlock|
    && LastScheduledBlock(computed + n, bs) < |a.cache.table[b]|
    && a.cache.firstBlock[b] == FirstScheduledBlock(computed, bs)
    && a.cache.lastBlock[b] == LastScheduledBlock(computed + n, bs)
    && a.cache.initBlock[b] == LastComputedBlock(computed, bs)
  }

  /** The builder's chunk metadata and the backend's block indices describe every request that has
      tokens to scan. */
  lemma {:induction false} BuilderDescribes(a: Args, b: nat, bs: nat, computed: seq<nat>, queryStart: seq<nat>, f: nat,
                                            phase: nat)
    requires |queryStart| == |computed| + 1 && Rising(queryStart) && b < |computed| && queryStart[b] < queryStart[b+1]
    requires phase < bs && computed[b] == f * bs + phase
    requires a.varlen && a.queryStart == queryStart
    requires IndicesFor(a, b, bs, computed[b], queryStart[b+1] - queryStart[b])
    requires Built(ChunkLists(bs, computed, queryStart), a.cache.cuChunk, a.cache.lastChunk)
    ensures Describes(a, b, bs, a.cache.table[b], f, phase, queryStart[b+1] - queryStart[b])
  {
    hide RequestChunks, Flat, Aligned;
    var lists, n := ChunkLists(bs, computed, queryStart), queryStart[b+1] - queryStart[b];
    BuiltEntry(lists, a.cache, b);
    ChunksAreAligned(computed[b], n, bs);
    DivUnique(computed[b], bs, f, phase);
    assert lists[b] == Aligned(phase, n, bs);
    assert b < |a.cache.lastChunk|;
  }

  /** A non-final chunk fills its block, and the first of several chunks reaches the next boundary. */
  lemma {:induction false} NonFinalChunk(phase: nat, n: nat, bs: nat, k: nat)
    requires phase < bs && n > 0 && k < |Aligned(phase, n, bs)| - 1
    ensures Aligned(phase, n, bs)[0] == bs - phase
    ensures Sum(Aligned(phase, n, bs)[..k+1]) == (k + 1) * bs - phase
  {
    var q := |Aligned(phase, n, bs)| - 1;
    LastChunkBlock(phase, n, bs);
    ChunkEnds(phase, n, bs, k);
    MulOrder(k + 1, q, bs);
  }

  /** The kernel's position arithmetic puts the checkpoint of every non-final chunk k into block
      f + k: it counts from the number of tokens already computed, though it is never told it. */
  lemma {:induction false} CheckpointPlacement(a: Args, b: nat, bs: nat, row: seq<int>, f: nat, phase: nat, n: nat,
                                               k: nat)
    requires Describes(a, b, bs, row, f, phase, n) && k < |Aligned(phase, n, bs)| - 1
    ensures StartPosition(a.cache, b) == f * bs + phase
    ensures DoneBlock(a.cache, b, k) == f + k
  {
    var chunks := Aligned(phase, n, bs);
    NonFinalChunk(phase, n, bs, k);
    LastChunkBlock(phase, n, bs);
    BlockIndices(bs, f, phase, n, |chunks| - 1);
    assert chunks[..1] == [chunks[0]];
    SumOne(chunks[0]);
    assert StartPosition(a.cache, b) == f * bs + phase;
    EndOfBlock(f + k, bs);
    assert (f + k + 1) * bs == f * bs + (k + 1) * bs;
  }

  lemma {:induction false} RisingSums(chunks: seq<int>, cu: seq<int>, first: int)
    requires 0 <= first && first + |chunks| < |cu|
    requires forall k :: 0 <= k < |chunks| ==> chunks[k] >= 0
    requires forall k :: 0 <= k <= |chunks| ==> cu[first + k] - cu[first] == Sum(chunks[..k])
    ensures forall i, j :: first <= i <= j <= first + |chunks| ==> cu[i] <= cu[j]
    ensures forall k :: 0 <= k < |chunks| ==> cu[first+k+1] - cu[first+k] == chunks[k]
  {
    forall i, j | first <= i <= j <= first + |chunks|
      ensures cu[i] <= cu[j]
    {
      SumMonotone(chunks, i - first, j - first);
      assert cu[first + (i - first)] - cu[first] == Sum(chunks[..i - first]);
      assert cu[first + (j - first)] - cu[first] == Sum(chunks[..j - first]);
    }
    forall k | 0 <= k < |chunks|
      ensures cu[first+k+1] - cu[first+k] == chunks[k]
    {
      SumStep(chunks, k);
      assert cu[first + (k + 1)] - cu[first] == Sum(chunks[..k+1]);
    }
  }

  /** The same in terms of plain block numbers: f first, l last, i the one to load. */
  lemma {:induction false} PlanOfSums(a: Args, b: nat, row: seq<int>, chunks: seq<int>, f: int, l: int, i: int)
    requires a.cache.Prefix? && 0 < a.cache.blockSize
    requires a.varlen ==> b + 1 < |a.queryStart| && a.queryStart[b] <= a.queryStart[b+1]
    requires !a.varlen ==> 0 <= a.seqlen
    requires a.hasInit.Some? && b < |a.hasInit.value|
    requires var c := a.cache;
             && b < |c.table| && b < |c.firstBlock| && b < |c.lastBlock| && b < |c.initBlock| && b < |c.lastChunk|
             && c.table[b] == row && c.firstBlock[b] == f && c.lastBlock[b] == l && c.initBlock[b] == i
             && 0 <= FirstChunk(c, b) && c.lastChunk[b] + 1 < |c.cuChunk| && NumChunks(c, b) == |chunks|
             && (forall k :: 0 <= k <= |chunks| ==>
                   c.cuChunk[FirstChunk(c, b) + k] - c.cuChunk[FirstChunk(c, b)] == Sum(chunks[..k]))
             && (forall k :: 0 <= k < |chunks| - 1 ==> DoneBlock(c, b, k) == f + k)
    requires 0 <= f <= l < |row| && 0 <= i <= l && |chunks| == l - f + 1
    requires forall k :: 0 <= k < |chunks| ==> chunks[k] >= 0
    ensures ValidEntry(a, b)
    ensures Chunks(a, b) == chunks
    ensures forall k :: 0 <= k < |chunks| ==> Slots(a, b)[k] == row[f + k]
    ensures LoadSlot(a, b) == row[i]
  {
    RisingSums(chunks, a.cache.cuChunk, FirstChunk(a.cache, b));
    assert ValidEntry(a, b);
    assert Chunks(a, b) == chunks;
  }

  /** The kernel accepts the built metadata, scans exactly the request's chunks, and stores chunk k,
      final or not, in the slot of block f + k. */
  lemma {:induction false} DescribedPlan(a: Args, b: nat, bs: nat, row: seq<int>, f: nat, phase: nat, n: nat)
    requires Describes(a, b, bs, row, f, phase, n)
    ensures ValidEntry(a, b)
    ensures Chunks(a, b) == Aligned(phase, n, bs)
    ensures |Slots(a, b)| == |Aligned(phase, n, bs)| && f + |Slots(a, b)| <= |row|
    ensures forall k :: 0 <= k < |Slots(a, b)| ==> Slots(a, b)[k] == row[f + k]
    ensures HasInit(a, b) == (f * bs + phase > 0)
    ensures LoadSlot(a, b) == row[if phase > 0 then f else if f > 0 then f - 1 else 0]
  {
    var chunks := Aligned(phase, n, bs);
    LastChunkBlock(phase, n, bs);
    BlockIndices(bs, f, phase, n, |chunks| - 1);
    forall k | 0 <= k < |chunks| - 1
      ensures DoneBlock(a.cache, b, k) == f + k
    {
      CheckpointPlacement(a, b, bs, row, f, phase, n, k);
    }
    PlanOfSums(a, b, row, chunks, f, f + |chunks| - 1, if phase > 0 then f else if f > 0 then f - 1 else 0);
  }

  // ---------------------------------------------------------------- resuming

  lemma {:induction false} StateShift<S, V, T>(ops: Ops<S, V, T>, toks: seq<T>, deltas: seq<V>, start: S, c: nat,
                                               n: nat, m: nat)
    requires |deltas| == |toks| && c + n <= |toks| && m <= n
    ensures StateAt(ops, toks[c..c+n], deltas[c..c+n], StateAt(ops, toks, deltas, start, c), m)
            == StateAt(ops, toks, deltas, start, c + m)
  {
    if m > 0 {
      StateShift(ops, toks, deltas, start, c, n, m - 1);
    }
  }

  ghost predicate Distinct(xs: seq<int>) {
    forall i, j :: 0 <= i < j < |xs| ==> xs[i] != xs[j]
  }

  lemma {:induction false} StoredLookup<S, V, T>(ops: Ops<S, V, T>, job: Job<S, V, T>, states: map<(int, int), S>,
                                                 c: nat)
    requires job.Valid() && c <= |job.chunks| && Distinct(job.slots)
    requires forall k :: 0 <= k <= |job.chunks| ==> 0 <= Sum(job.chunks[..k]) <= |job.toks|
    ensures forall k :: 0 <= k < c ==>
              && (job.slots[k], job.d) in Stored(ops, job, states, c)
              && Stored(ops, job, states, c)[(job.slots[k], job.d)] ==
                 StateAt(ops, job.toks, job.deltas, job.start, Sum(job.chunks[..k+1]))
    ensures forall key :: key in states && (key.1 == job.d ==> key.0 !in job.slots[..c]) ==>
              key in Stored(ops, job, states, c) && Stored(ops, job, states, c)[key] == states[key]
  {
    hide StateAt, Sum;
    if c > 0 {
      StoredLookup(ops, job, states, c - 1);
      assert job.slots[..c] == job.slots[..c-1] + [job.slots[c-1]];
    }
  }

  /** A request on one channel: its tokens and deltas, and the slots of its blocks. */
  datatype Request<T, V> = Request(toks: seq<T>, deltas: seq<V>, d: nat, row: seq<int>, bs: nat) {
    ghost predicate Valid() {
      bs > 0 && |deltas| == |toks| && Distinct(row)
    }
  }

  ghost predicate CellHolds<S, V, T>(ops: Ops<S, V, T>, req: Request<T, V>, states: map<(int, int), S>, slot: int,
                                     m: int) {
    && |req.deltas| == |req.toks| && 0 <= m <= |req.toks|
    && (slot, req.d as int) in states && states[(slot, req.d as int)] == StateAt(ops, req.toks, req.deltas, ops.zero, m)
  }

  ghost predicate BlockHolds<S, V, T>(ops: Ops<S, V, T>, req: Request<T, V>, states: map<(int, int), S>, k: nat) {
    k < |req.row| && CellHolds(ops, req, states, req.row[k], (k + 1) * req.bs)
  }

  /** The cache knows the request up to f full blocks and `phase` tokens of the next: the slot of
      every full block holds the state at its end, and the slot of a begun block the state reached. */
  ghost predicate CacheHolds<S, V, T>(ops: Ops<S, V, T>, req: Request<T, V>, states: map<(int, int), S>, f: nat,
                                      phase: nat) {
    && (forall k :: 0 <= k < f ==> BlockHolds(ops, req, states, k))
    && (phase > 0 ==> f < |req.row| && CellHolds(ops, req, states, req.row[f], f * req.bs + phase))
  }

  /** A launch for n more tokens of a request, after f full blocks and `phase` tokens, as entry b of
      some batch. */
  datatype Launch<!S, !V, !T> = Launch(a: Args, tok: (int, int, int) -> T, img: Image<S, V>,
                                       b: nat, f: nat, phase: nat, n: nat)

  ghost predicate Runnable<S, V, T>(l: Launch<S, V, T>, d: nat) {
    ValidEntry(l.a, l.b) && Fits(l.a, l.b, d, l.img)
  }

  ghost function Result<S, V, T>(ops: Ops<S, V, T>, l: Launch<S, V, T>, d: nat): Image<S, V> {
    if Runnable(l, d) then RunProgram(ops, l.a, l.tok, l.img, l.b, d) else l.img
  }

  ghost function DeltaBase<S, V, T>(l: Launch<S, V, T>, d: nat): int {
    if Runnable(l, d) then RowBase(l.a, l.b, d, l.a.deltaBatch, l.a.deltaDim) else 0
  }

  ghost function ZBase<S, V, T>(l: Launch<S, V, T>, d: nat): int {
    if Runnable(l, d) then RowBase(l.a, l.b, d, l.a.zBatch, l.a.zDim) else 0
  }

  /** The launch continues the request: its metadata is the builder's, and its token inputs and its
      delta row are the request's next n from token `computed` on. */
  ghost predicate Continues<S, V, T>(l: Launch<S, V, T>, req: Request<T, V>, computed: int) {
    && req.Valid() && computed == l.f * req.bs + l.phase
    && Describes(l.a, l.b, req.bs, req.row, l.f, l.phase, l.n)
    && Runnable(l, req.d) && !IsNull(l.a, l.b)
    && 0 <= computed && computed + l.n <= |req.toks|
    && Sum(Chunks(l.a, l.b)) == l.n
    && (forall i :: 0 <= i < l.n ==> l.tok(l.b, req.d, i) == req.toks[computed + i])
    && l.img.delta[DeltaBase(l, req.d)..DeltaBase(l, req.d) + l.n] == req.deltas[computed..computed + l.n]
  }

  /** The program's job is the request's next n tokens from the state of the uninterrupted scan. */
  ghost predicate JobContinues<S, V, T>(ops: Ops<S, V, T>, job: Job<S, V, T>, req: Request<T, V>, computed: int,
                                        n: int) {
    && req.Valid() && job.Valid() && job.d == req.d && 0 <= computed && 0 <= n && computed + n <= |req.toks|
    && job.toks == req.toks[computed..computed + n] && job.deltas == req.deltas[computed..computed + n]
    && job.start == StateAt(ops, req.toks, req.deltas, ops.zero, computed)
  }

  lemma {:induction false} ContinuedJob<S, V, T>(ops: Ops<S, V, T>, l: Launch<S, V, T>, req: Request<T, V>,
                                                 computed: int)
    requires Continues(l, req, computed) && CacheHolds(ops, req, l.img.states, l.f, l.phase)
    ensures JobContinues(ops, JobOf(ops, l.a, l.tok, l.img, l.b, req.d), req, computed, l.n)
  {
    ContinuedStart(ops, l, req, computed);
    JobRows(ops, l, req, computed);
    hide JobOf, Continues, CacheHolds, StateAt, HasInit, LoadSlot;
  }

  /** The job of a launch that continues a request: the next tokens and deltas, from the loaded state. */
  lemma {:induction false} JobRows<S, V, T>(ops: Ops<S, V, T>, l: Launch<S, V, T>, req: Request<T, V>, computed: int)
    requires Continues(l, req, computed)
    ensures var job := JobOf(ops, l.a, l.tok, l.img, l.b, req.d);
            && req.Valid() && job.d == req.d && 0 <= computed && 0 <= l.n && computed + l.n <= |req.toks|
            && job.toks == req.toks[computed..computed + l.n] && job.deltas == req.deltas[computed..computed + l.n]
            && job.start == if HasInit(l.a, l.b) then l.img.states[(LoadSlot(l.a, l.b), req.d as int)] else ops.zero
  {
    assert l.n > 0 by { DescribedSize(l, req, computed); }
    hide Describes, ValidEntry, Slots, LoadSlot, HasInit, Chunks, Sum, IsNull, RowBase;
    JobTokens(ops, l, req, computed);
  }

  lemma {:induction false} JobTokens<S, V, T>(ops: Ops<S, V, T>, l: Launch<S, V, T>, req: Request<T, V>, computed: int)
    requires Continues(l, req, computed)
    ensures JobOf(ops, l.a, l.tok, l.img, l.b, req.d).toks == req.toks[computed..computed + l.n]
  {
    hide Describes, ValidEntry, Slots, LoadSlot, HasInit, Chunks, Sum, IsNull, RowBase;
    var toks := JobOf(ops, l.a, l.tok, l.img, l.b, req.d).toks;
    assert |toks| == l.n && forall i :: 0 <= i < l.n ==> toks[i] == req.toks[computed + i];
  }

  /** The state a launch loads is the state of the uninterrupted scan where it continues. */
  lemma {:induction false} ContinuedStart<S, V, T>(ops: Ops<S, V, T>, l: Launch<S, V, T>, req: Request<T, V>,
                                                   computed: int)
    requires Continues(l, req, computed) && CacheHolds(ops, req, l.img.states, l.f, l.phase)
    ensures (if HasInit(l.a, l.b) then l.img.states[(LoadSlot(l.a, l.b), req.d as int)] else ops.zero) ==
            StateAt(ops, req.toks, req.deltas, ops.zero, computed)
  {
    WhatIsLoaded(l, req, computed);
    hide Continues, ValidEntry, LoadSlot, HasInit, CacheHolds;
    if l.f > 0 || l.phase > 0 { ReachedCell(ops, req, l.img.states, l.f, l.phase); }
  }

  /** A launch that is not the first of its request loads the slot of the state reached last. */
  lemma {:induction false} WhatIsLoaded<S, V, T>(l: Launch<S, V, T>, req: Request<T, V>, computed: int)
    requires Continues(l, req, computed)
    ensures req.Valid() && computed == l.f * req.bs + l.phase && 0 <= computed <= |req.toks| && ValidEntry(l.a, l.b)
    ensures (l.f == 0 && l.phase == 0 ==> computed == 0) && HasInit(l.a, l.b) == (l.f > 0 || l.phase > 0)
    ensures l.f > 0 || l.phase > 0 ==>
              var k := if l.phase > 0 then l.f else l.f - 1; k < |req.row| && LoadSlot(l.a, l.b) == req.row[k]
    ensures (LoadSlot(l.a, l.b), req.d as int) in l.img.states
  {
    DescribedSize(l, req, computed);
    DescribedPlan(l.a, l.b, req.bs, req.row, l.f, l.phase, l.n);
    AlignedSome(l.phase, l.n, req.bs);
    hide Aligned, Sum, Describes, Slots, LoadSlot, HasInit, ValidEntry, Chunks;
    if l.f > 0 { MulOrder(1, l.f, req.bs); }
  }

  lemma {:induction false} AlignedSome(phase: nat, n: nat, bs: nat)
    requires phase < bs && n > 0
    ensures |Aligned(phase, n, bs)| > 0
  {
  }

  /** The state reached last is in the slot of the block begun or, at a boundary, of the block before. */
  lemma {:induction false} ReachedCell<S, V, T>(ops: Ops<S, V, T>, req: Request<T, V>, states: map<(int, int), S>,
                                                f: nat, phase: nat)
    requires CacheHolds(ops, req, states, f, phase) && (f > 0 || phase > 0)
    ensures var k := if phase > 0 then f else f - 1;
            k < |req.row| && CellHolds(ops, req, states, req.row[k], f * req.bs + phase)
  {
    hide CellHolds;
    if phase == 0 { CacheAt(ops, req, states, f, phase, f - 1); }
  }

  lemma {:induction false} JobOutput<S, V, T>(ops: Ops<S, V, T>, job: Job<S, V, T>, req: Request<T, V>, computed: int,
                                              n: int, i: nat)
    requires JobContinues(ops, job, req, computed, n) && i < n
    ensures OutAt(ops, job.toks, job.deltas, job.start, i) == OutAt(ops, req.toks, req.deltas, ops.zero, computed + i)
  {
    StateShift(ops, req.toks, req.deltas, ops.zero, computed, n, i + 1);
  }

  /** Every checkpoint of the job is a state of the uninterrupted scan. */
  lemma {:induction false} JobCheckpoint<S, V, T>(ops: Ops<S, V, T>, job: Job<S, V, T>, states: map<(int, int), S>,
                                                  req: Request<T, V>, computed: int, n: int, k: nat)
    requires JobContinues(ops, job, req, computed, n) && Distinct(job.slots) && k < |job.slots|
    ensures CellHolds(ops, req, Stored(ops, job, states, |job.chunks|), job.slots[k], computed + Sum(job.chunks[..k+1]))
  {
    hide Sum, Stored, StateAt;
    SumsInRange(job);
    StoredLookup(ops, job, states, |job.chunks|);
    StateShift(ops, req.toks, req.deltas, ops.zero, computed, n, Sum(job.chunks[..k+1]));
  }

  lemma {:induction false} SlotsDistinct(slots: seq<int>, row: seq<int>, f: int)
    requires 0 <= f && f + |slots| <= |row| && Distinct(row)
    requires forall k :: 0 <= k < |slots| ==> slots[k] == row[f + k]
    ensures Distinct(slots)
    ensures forall j :: 0 <= j < |row| && !(f <= j < f + |slots|) ==> row[j] !in slots
  {
    forall i, j | 0 <= i < j < |slots| ensures slots[i] != slots[j] {
      assert row[f + i] != row[f + j];
    }
  }

  lemma {:induction false} SumsInRange<S, V, T>(job: Job<S, V, T>)
    requires job.Valid()
    ensures forall k :: 0 <= k <= |job.chunks| ==> 0 <= Sum(job.chunks[..k]) <= |job.toks|
  {
    forall k | 0 <= k <= |job.chunks| ensures 0 <= Sum(job.chunks[..k]) <= |job.toks| {
      SumMonotone(job.chunks, k, k);
    }
  }

  lemma {:induction false} ResultStates<S, V, T>(ops: Ops<S, V, T>, l: Launch<S, V, T>, d: nat)
    requires Runnable(l, d) && !IsNull(l.a, l.b)
    ensures var job := JobOf(ops, l.a, l.tok, l.img, l.b, d);
            && Result(ops, l, d).states == Stored(ops, job, l.img.states, |job.chunks|)
            && job.chunks == Chunks(l.a, l.b) && job.slots == Slots(l.a, l.b) && job.d == d
  {
  }

  /** After the launch, block f + k holds the state at its end or at the launch's. */
  lemma {:induction false} TouchedBlock<S, V, T>(ops: Ops<S, V, T>, l: Launch<S, V, T>, req: Request<T, V>,
                                                 computed: int, k: nat)
    requires Continues(l, req, computed) && CacheHolds(ops, req, l.img.states, l.f, l.phase)
    requires k < |Aligned(l.phase, l.n, req.bs)|
    ensures l.f + k < |req.row|
    ensures CellHolds(ops, req, Result(ops, l, req.d).states, req.row[l.f + k],
                      computed + Min((k + 1) * req.bs - l.phase, l.n))
  {
    hide Describes, ValidEntry, Fits, CellHolds, CacheHolds, StateAt, Result, JobOf, Stored, Chunks, Slots;
    DescribedSize(l, req, computed);
    ResultStates(ops, l, req.d);
    var job := JobOf(ops, l.a, l.tok, l.img, l.b, req.d);
    DescribedPlan(l.a, l.b, req.bs, req.row, l.f, l.phase, l.n);
    ContinuedJob(ops, l, req, computed);
    SlotsDistinct(job.slots, req.row, l.f);
    JobCheckpoint(ops, job, l.img.states, req, computed, l.n, k);
    ChunkEnds(l.phase, l.n, req.bs, k);
    assert job.slots[k] == req.row[l.f + k];
  }

  /** The blocks before f are as they were. */
  lemma {:induction false} EarlierBlock<S, V, T>(ops: Ops<S, V, T>, l: Launch<S, V, T>, req: Request<T, V>,
                                                 computed: int, k: nat)
    requires Continues(l, req, computed) && CacheHolds(ops, req, l.img.states, l.f, l.phase)
    requires k < l.f
    ensures k < |req.row|
    ensures CellHolds(ops, req, Result(ops, l, req.d).states, req.row[k], (k + 1) * req.bs)
  {
    hide Describes, ValidEntry, Fits, StateAt, Result, JobOf, Stored, Chunks, Slots, CacheHolds;
    CacheAt(ops, req, l.img.states, l.f, l.phase, k);
    ResultStates(ops, l, req.d);
    var job := JobOf(ops, l.a, l.tok, l.img, l.b, req.d);
    DescribedPlan(l.a, l.b, req.bs, req.row, l.f, l.phase, l.n);
    SlotsDistinct(job.slots, req.row, l.f);
    SumsInRange(job);
    StoredLookup(ops, job, l.img.states, |job.chunks|);
    assert job.slots[..|job.chunks|] == job.slots;
  }

  lemma {:induction false} NextPosition(bs: nat, f: nat, phase: nat, n: nat, q: nat, f': nat, phase': nat)
    requires phase < bs && phase' < bs && f' * bs + phase' == f * bs + phase + n
    requires q * bs < phase + n <= (q + 1) * bs
    ensures f' - f == if phase' > 0 then q else q + 1
  {
    var g := f' - f;
    assert g * bs == f' * bs - f * bs && (g + 1) * bs == g * bs + bs;
    assert (q + 1) * bs == q * bs + bs && (q + 2) * bs == (q + 1) * bs + bs;
    if g < q { MulOrder(g + 1, q, bs); }
    if g > q + 1 { MulOrder(q + 2, g, bs); }
  }

  lemma {:induction false} FullBlock(bs: nat, f: nat, phase: nat, n: nat, f': nat, phase': nat, k: nat)
    requires phase < bs && f' * bs + phase' == f * bs + phase + n && f <= k < f'
    ensures f * bs + phase + Min((k - f + 1) * bs - phase, n) == (k + 1) * bs
  {
    assert (k - f + 1) * bs == (k + 1) * bs - f * bs;
    MulOrder(k + 1, f', bs);
  }

  lemma {:induction false} DescribedSize<S, V, T>(l: Launch<S, V, T>, req: Request<T, V>, computed: int)
    requires Continues(l, req, computed)
    ensures l.phase < req.bs && l.n > 0
  {
  }

  lemma {:induction false} FullBlockHolds<S, V, T>(ops: Ops<S, V, T>, l: Launch<S, V, T>, req: Request<T, V>,
                                                   computed: int, f': nat, phase': nat, k: nat)
    requires Continues(l, req, computed) && CacheHolds(ops, req, l.img.states, l.f, l.phase)
    requires phase' < req.bs && f' * req.bs + phase' == computed + l.n && k < f'
    ensures BlockHolds(ops, req, Result(ops, l, req.d).states, k)
  {
    hide Describes, Runnable, CellHolds, Aligned, Result;
    assert l.phase < req.bs && l.n > 0 by { DescribedSize(l, req, computed); }
    if k < l.f {
      EarlierBlock(ops, l, req, computed, k);
    } else {
      LastChunkBlock(l.phase, l.n, req.bs);
      NextPosition(req.bs, l.f, l.phase, l.n, |Aligned(l.phase, l.n, req.bs)| - 1, f', phase');
      TouchedBlock(ops, l, req, computed, k - l.f);
      FullBlock(req.bs, l.f, l.phase, l.n, f', phase', k);
    }
  }

  /** One launch carries the cache on by exactly its tokens. */
  lemma {:induction false} ContinuedCache<S, V, T>(ops: Ops<S, V, T>, l: Launch<S, V, T>, req: Request<T, V>,
                                                   computed: int, f': nat, phase': nat)
    requires Continues(l, req, computed) && CacheHolds(ops, req, l.img.states, l.f, l.phase)
    requires phase' < req.bs && f' * req.bs + phase' == computed + l.n
    ensures CacheHolds(ops, req, Result(ops, l, req.d).states, f', phase')
  {
    hide Continues, CellHolds, BlockHolds, Result;
    forall k | 0 <= k < f' ensures BlockHolds(ops, req, Result(ops, l, req.d).states, k) {
      FullBlockHolds(ops, l, req, computed, f', phase', k);
    }
    if phase' > 0 { BegunBlockHolds(ops, l, req, computed, f', phase'); }
  }

  lemma {:induction false} BegunBlockHolds<S, V, T>(ops: Ops<S, V, T>, l: Launch<S, V, T>, req: Request<T, V>,
                                                    computed: int, f': nat, phase': nat)
    requires Continues(l, req, computed) && CacheHolds(ops, req, l.img.states, l.f, l.phase)
    requires 0 < phase' < req.bs && f' * req.bs + phase' == computed + l.n
    ensures f' < |req.row| && CellHolds(ops, req, Result(ops, l, req.d).states, req.row[f'], computed + l.n)
  {
    hide Describes, Runnable, CellHolds, CacheHolds, Aligned, Result;
    assert l.phase < req.bs && l.n > 0 by { DescribedSize(l, req, computed); }
    var q := |Aligned(l.phase, l.n, req.bs)| - 1;
    LastChunkBlock(l.phase, l.n, req.bs);
    NextPosition(req.bs, l.f, l.phase, l.n, q, f', phase');
    TouchedBlock(ops, l, req, computed, q);
  }

  // ---------------------------------------------------------------- whole runs

  /** In the buffers `now` that a launch leaves, its outputs are, from token `computed` on, those of the
      uninterrupted scan. */
  ghost predicate OutputsAre<S, V, T>(ops: Ops<S, V, T>, l: Launch<S, V, T>, now: Image<S, V>, req: Request<T, V>,
                                      computed: int) {
    forall i :: 0 <= i < l.n ==> OutputIs(ops, l, now, req, computed, i)
  }

  ghost predicate OutputIs<S, V, T>(ops: Ops<S, V, T>, l: Launch<S, V, T>, now: Image<S, V>, req: Request<T, V>,
                                    computed: int, i: int) {
    && |req.deltas| == |req.toks| && 0 <= computed + i < |req.toks|
    && var out := OutAt(ops, req.toks, req.deltas, ops.zero, computed + i);
       var at, zAt := DeltaBase(l, req.d) + i, ZBase(l, req.d) + i;
       && 0 <= at < |now.delta| && now.delta[at] == out
       && (l.a.hasZ ==> 0 <= zAt < |l.img.z| == |now.z| && now.z[zAt] == ops.gate(out, l.img.z[zAt]))
  }

  lemma {:induction false} ContinuedOutputs<S, V, T>(ops: Ops<S, V, T>, l: Launch<S, V, T>, req: Request<T, V>,
                                                     computed: int)
    requires Continues(l, req, computed) && CacheHolds(ops, req, l.img.states, l.f, l.phase)
    ensures OutputsAre(ops, l, Result(ops, l, req.d), req, computed)
  {
    hide Describes, Fits, ValidEntry, RunProgram, CacheHolds, OutAt;
    ContinuedJob(ops, l, req, computed);
    forall i | 0 <= i < l.n ensures OutputIs(ops, l, Result(ops, l, req.d), req, computed, i) {
      ProgramOutputs(ops, l.a, l.tok, l.img, l.b, req.d, i);
      JobOutput(ops, JobOf(ops, l.a, l.tok, l.img, l.b, req.d), req, computed, l.n, i);
    }
  }

  ghost predicate KeepsRow<S>(before: map<(int, int), S>, after: map<(int, int), S>, d: nat, row: seq<int>) {
    forall k :: 0 <= k < |row| && (row[k], d as int) in before ==>
      (row[k], d as int) in after && after[(row[k], d as int)] == before[(row[k], d as int)]
  }

  ghost function Start<S, V, T>(l: Launch<S, V, T>, bs: nat): int {
    l.f * bs + l.phase
  }

  /** A run: launches that continue one another. Between launches the buffers may change at will,
      except that the request's cached states stay. */
  ghost predicate Served<S, V, T>(ops: Ops<S, V, T>, run: seq<Launch<S, V, T>>, req: Request<T, V>) {
    && (forall j :: 0 <= j < |run| ==> Continues(run[j], req, Start(run[j], req.bs)))
    && (forall i, j :: 0 <= i && j == i + 1 < |run| ==>
          && Start(run[j], req.bs) == Start(run[i], req.bs) + run[i].n
          && KeepsRow(Result(ops, run[i], req.d).states, run[j].img.states, req.d, req.row))
  }

  lemma {:induction false} CacheKept<S, V, T>(ops: Ops<S, V, T>, req: Request<T, V>, before: map<(int, int), S>,
                                              after: map<(int, int), S>, f: nat, phase: nat)
    requires CacheHolds(ops, req, before, f, phase) && KeepsRow(before, after, req.d, req.row)
    ensures CacheHolds(ops, req, after, f, phase)
  {
    hide CellHolds, KeepsRow;
    forall k | 0 <= k < f ensures BlockHolds(ops, req, after, k) {
      CacheAt(ops, req, before, f, phase, k);
      CellKept(ops, req, before, after, k, (k + 1) * req.bs);
    }
    if phase > 0 { CellKept(ops, req, before, after, f, f * req.bs + phase); }
  }

  lemma {:induction false} CacheAt<S, V, T>(ops: Ops<S, V, T>, req: Request<T, V>, states: map<(int, int), S>, f: nat,
                                            phase: nat, k: nat)
    requires CacheHolds(ops, req, states, f, phase) && k < f
    ensures k < |req.row| && CellHolds(ops, req, states, req.row[k], (k + 1) * req.bs)
  {
    hide CellHolds;
    assert BlockHolds(ops, req, states, k);
  }

  lemma {:induction false} CellKept<S, V, T>(ops: Ops<S, V, T>, req: Request<T, V>, before: map<(int, int), S>,
                                             after: map<(int, int), S>, k: nat, m: int)
    requires k < |req.row| && CellHolds(ops, req, before, req.row[k], m) && KeepsRow(before, after, req.d, req.row)
    ensures CellHolds(ops, req, after, req.row[k], m)
  {
  }

  lemma {:induction false} CacheThroughout<S, V, T>(ops: Ops<S, V, T>, run: seq<Launch<S, V, T>>, req: Request<T, V>,
                                                    j: nat)
    requires Served(ops, run, req) && j < |run|
    requires CacheHolds(ops, req, run[0].img.states, run[0].f, run[0].phase)
    ensures CacheHolds(ops, req, run[j].img.states, run[j].f, run[j].phase)
  {
    hide Continues, CellHolds, Result, CacheHolds;
    if j > 0 {
      CacheThroughout(ops, run, req, j - 1);
      DescribedSize(run[j], req, Start(run[j], req.bs));
      ContinuedCache(ops, run[j-1], req, Start(run[j-1], req.bs), run[j].f, run[j].phase);
      CacheKept(ops, req, Result(ops, run[j-1], req.d).states, run[j].img.states, run[j].f, run[j].phase);
    }
  }

  /** Resuming is invisible: however a request is cut into launches, at block boundaries or inside
      blocks, each launch's outputs are those of the one uninterrupted scan, and the cache ends with
      the uninterrupted scan's states. A fresh request, at position zero, needs nothing cached. */
  lemma {:induction false} ResumingIsInvisible<S, V, T>(ops: Ops<S, V, T>, run: seq<Launch<S, V, T>>,
                                                        req: Request<T, V>, f': nat, phase': nat)
    requires Served(ops, run, req) && run != []
    requires Start(run[0], req.bs) > 0 ==> CacheHolds(ops, req, run[0].img.states, run[0].f, run[0].phase)
    requires phase' < req.bs && f' * req.bs + phase' == Start(run[|run|-1], req.bs) + run[|run|-1].n
    ensures forall j :: 0 <= j < |run| ==>
              OutputsAre(ops, run[j], Result(ops, run[j], req.d), req, Start(run[j], req.bs))
    ensures CacheHolds(ops, req, Result(ops, run[|run|-1], req.d).states, f', phase')
  {
    hide Continues, CellHolds, OutputsAre, Result;
    if run[0].f > 0 { MulOrder(1, run[0].f, req.bs); }
    assert CacheHolds(ops, req, run[0].img.states, run[0].f, run[0].phase);
    forall j | 0 <= j < |run|
      ensures OutputsAre(ops, run[j], Result(ops, run[j], req.d), req, Start(run[j], req.bs))
    {
      CacheThroughout(ops, run, req, j);
      ContinuedOutputs(ops, run[j], req, Start(run[j], req.bs));
    }
    CacheThroughout(ops, run, req, |run| - 1);
    ContinuedCache(ops, run[|run|-1], req, Start(run[|run|-1], req.bs), f', phase');
  }

  // ---------------------------------------------------------------- any piece can be launched

  /** The slots of the request's blocks exist on all channels up to its own. */
  ghost predicate RowPresent<S, V, T>(req: Request<T, V>, states: map<(int, int), S>) {
    forall slot, d: int :: slot in req.row && 0 <= d <= req.d ==> (slot, d) in states
  }

  /** The metadata of a packed batch that holds just this launch. */
  ghost function LoneArgs(row: seq<int>, bs: nat, f: nat, phase: nat, n: nat): Args
    requires phase < bs && row != [] && LastComputedBlock(f * bs + phase, bs) < |row|
  {
    var computed, chunks := f * bs + phase, Aligned(phase, n, bs);
    var init := LastComputedBlock(computed, bs);
    Args(true, 0, [0, n], 1, n, 1, n, false, Some([computed > 0]), row[init] + 1,
         Prefix(bs, [row], [FirstScheduledBlock(computed, bs)], [LastScheduledBlock(computed + n, bs)], [init],
                seq(|chunks| + 1, i requires 0 <= i <= |chunks| => Sum(chunks[..i])), [|chunks| - 1]))
  }

  lemma {:induction false} BlocksFit(bs: nat, f: nat, phase: nat, n: nat, rows: nat)
    requires phase < bs && n > 0 && f * bs + phase + n <= rows * bs
    ensures LastScheduledBlock(f * bs + phase + n, bs) < rows && 0 <= LastComputedBlock(f * bs + phase, bs) < rows
  {
    hide Aligned, LastScheduledBlock, LastComputedBlock, FirstScheduledBlock;
    var q := |Aligned(phase, n, bs)| - 1;
    LastChunkBlock(phase, n, bs);
    BlockIndices(bs, f, phase, n, q);
    assert (f + q) * bs == f * bs + q * bs;
    if rows <= f + q { MulOrder(rows, f + q, bs); }
  }

  lemma {:induction false} LoneDescribes(row: seq<int>, bs: nat, f: nat, phase: nat, n: nat)
    requires phase < bs && n > 0 && row != [] && f * bs + phase + n <= |row| * bs
    ensures LastComputedBlock(f * bs + phase, bs) < |row|
    ensures Describes(LoneArgs(row, bs, f, phase, n), 0, bs, row, f, phase, n)
  {
    BlocksFit(bs, f, phase, n, |row|);
    LastChunkBlock(phase, n, bs);
    hide Aligned, LastScheduledBlock, FirstScheduledBlock, LastComputedBlock;
    var chunks := Aligned(phase, n, bs);
    assert Sum(chunks[..0]) == 0 by { SumNone(chunks); }
  }

  /** The launch is laid out like one packed sequence of n tokens on every channel. */
  ghost predicate LoneLayout(a: Args, n: nat) {
    a.varlen && a.queryStart == [0, n] && !a.hasZ && a.deltaBatch == 1 && a.deltaDim == n
  }

  lemma {:induction false} LoneShape(row: seq<int>, bs: nat, f: nat, phase: nat, n: nat)
    requires phase < bs && row != [] && LastComputedBlock(f * bs + phase, bs) < |row|
    ensures var a := LoneArgs(row, bs, f, phase, n);
            && LoneLayout(a, n) && a.cache.Prefix?
            && a.cache.table == [row] && a.cache.initBlock == [LastComputedBlock(f * bs + phase, bs)]
            && a.nullBlock == row[LastComputedBlock(f * bs + phase, bs)] + 1
  {
  }

  /** One program of the launch fits the buffers. */
  lemma {:induction false} LoneFits<S, V, T>(a: Args, req: Request<T, V>, d: nat, n: nat, img: Image<S, V>)
    requires ValidEntry(a, 0) && LoneLayout(a, n) && d <= req.d && |img.delta| == (req.d + 1) * n
    requires Sum(Chunks(a, 0)) == n && RowPresent(req, img.states) && LoadSlot(a, 0) in req.row
    requires forall k :: 0 <= k < |Slots(a, 0)| ==> Slots(a, 0)[k] in req.row
    ensures Fits(a, 0, d, img) && RowBase(a, 0, d, a.deltaBatch, a.deltaDim) == d * n && 0 <= d * n
    ensures d * n + n <= |img.delta|
  {
    hide Chunks, Slots, LoadSlot, Sum, ValidEntry;
    assert forall slot :: slot in req.row ==> (slot, d as int) in img.states;
    if n > 0 {
      MulOrder(0, d, n);
      MulOrder(d + 1, req.d + 1, n);
    }
    assert (d + 1) * n == d * n + n;
  }

  /** Any next piece of a request can be launched, on any cache that has its slots. */
  lemma {:induction false} LaunchExists<S, V, T>(req: Request<T, V>, f: nat, phase: nat, n: nat,
                                                 states: map<(int, int), S>)
    returns (l: Launch<S, V, T>)
    requires req.Valid() && phase < req.bs && n > 0 && req.row != [] && RowPresent(req, states)
    requires f * req.bs + phase + n <= |req.toks| && f * req.bs + phase + n <= |req.row| * req.bs
    ensures Continues(l, req, f * req.bs + phase) && l.f == f && l.phase == phase && l.n == n && l.img.states == states
    ensures l.b == 0 && LoneLayout(l.a, n) && |l.img.delta| == (req.d + 1) * n && Sum(Chunks(l.a, 0)) == n
    ensures LoadSlot(l.a, 0) in req.row && forall k :: 0 <= k < |Slots(l.a, 0)| ==> Slots(l.a, 0)[k] in req.row
  {
    hide Describes, ValidEntry, Fits, Chunks, Aligned, LoneArgs, IsNull, RowBase, RowPresent, Sum, LastComputedBlock,
      Slots, LoneLayout;
    var computed, bs := f * req.bs + phase, req.bs;
    LoneDescribes(req.row, bs, f, phase, n);
    var a := LoneArgs(req.row, bs, f, phase, n);
    var toks := req.toks;
    var tok := (b: int, d: int, i: int) => if 0 <= computed + i < |toks| then toks[computed + i] else toks[0];
    var delta := LoneDelta(req, computed, n);
    l := Launch(a, tok, Image(delta, [], states), 0, f, phase, n);
    DescribedPlan(a, 0, bs, req.row, f, phase, n);
    AlignedTotal(phase, n, bs);
    LoneShape(req.row, bs, f, phase, n);
    LoneFits(a, req, req.d, n, l.img);
    assert !IsNull(a, 0) by { LoneIsLive(a); }
  }

  lemma {:induction false} LoneIsLive(a: Args)
    requires ValidEntry(a, 0) && LoadSlot(a, 0) != a.nullBlock
    ensures !IsNull(a, 0)
  {
  }

  /** A buffer with the request's next deltas on its channel. */
  lemma {:induction false} LoneDelta<V, T>(req: Request<T, V>, computed: nat, n: nat) returns (delta: seq<V>)
    requires |req.deltas| == |req.toks| && n > 0 && computed + n <= |req.toks|
    ensures |delta| == (req.d + 1) * n && 0 <= req.d * n && req.d * n + n == |delta|
    ensures delta[req.d * n..req.d * n + n] == req.deltas[computed..computed+n]
  {
    MulOrder(0, req.d, n);
    assert (req.d + 1) * n == req.d * n + n;
    var base, deltas := req.d * n, req.deltas;
    delta := seq(base, i => deltas[computed]) + deltas[computed..computed+n];
  }
}
