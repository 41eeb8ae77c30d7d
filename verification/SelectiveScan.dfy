/** The chunked, cached, in-place selective scan: one program per (batch entry, channel) runs a
    recurrence over its tokens, overwrites delta with the outputs and z with the gated outputs, and
    stores the running state into a cache slot after every chunk. */
module SelectiveScan {
  import opened Wrappers
  import opened Arith

  /** The floating-point arithmetic of one position, left uninterpreted. A token carries what is
      read and never written at a position: u, B and C, with A, D and the bias of the channel. */
  datatype Ops<!S, !V, !T> = Ops(
    zero: S,                 // the state before any token
    next: (T, V, S) -> S,    // token, delta, state: the state after the token
    emit: (T, S) -> V,       // token, state after it: the output
    gate: (V, V) -> V)       // output, z: the gated output

  /** How a batch entry finds its state slots. */
  datatype Cache =
    | Unindexed
    | Indexed(slots: seq<int>)
    | Prefix(blockSize: int, table: seq<seq<int>>, firstBlock: seq<int>, lastBlock: seq<int>, initBlock: seq<int>,
             cuChunk: seq<int>, lastChunk: seq<int>)

  datatype Args = Args(
    varlen: bool, seqlen: int, queryStart: seq<int>,
    deltaBatch: int, deltaDim: int, zBatch: int, zDim: int,
    hasZ: bool, hasInit: Option<seq<bool>>, nullBlock: int, cache: Cache)

  /** The three buffers a launch may write. The state of one slot and channel is one cell. */
  datatype Image<S, V> = Image(delta: seq<V>, z: seq<V>, states: map<(int, int), S>)

  // ---------------------------------------------------------------- index arithmetic

  function RowBase(a: Args, b: nat, d: nat, batchStride: int, dimStride: int): int
    requires a.varlen ==> b < |a.queryStart|
  {
    if a.varlen then d * dimStride + a.queryStart[b] * batchStride else b * batchStride + d * dimStride
  }

  function FirstChunk(c: Cache, b: nat): int
    requires c.Prefix? && b < |c.lastChunk|
  {
    if b == 0 then 0 else c.lastChunk[b-1] + 1
  }

  function NumChunks(c: Cache, b: nat): int
    requires c.Prefix? && b < |c.lastChunk|
  {
    c.lastChunk[b] - FirstChunk(c, b) + 1
  }

  /** The metadata of batch entry `b` is present and its chunk boundaries rise. */
  ghost predicate ValidEntry(a: Args, b: nat) {
    && (a.varlen ==> b + 1 < |a.queryStart| && a.queryStart[b] <= a.queryStart[b+1])
    && (!a.varlen ==> 0 <= a.seqlen)
    && (a.hasInit.Some? ==> b < |a.hasInit.value|)
    && (a.cache.Indexed? ==> b < |a.cache.slots|)
    && (a.cache.Prefix? ==>
          var c := a.cache;
          && 0 < c.blockSize
          && b < |c.table| && b < |c.firstBlock| && b < |c.lastBlock| && b < |c.initBlock| && b < |c.lastChunk|
          && 0 <= c.initBlock[b] < |c.table[b]| && 0 <= c.lastBlock[b] < |c.table[b]| && 0 <= c.firstBlock[b]
          && 0 <= FirstChunk(c, b) <= c.lastChunk[b] + 1 < |c.cuChunk|
          && (forall i, j :: FirstChunk(c, b) <= i <= j <= c.lastChunk[b] + 1 ==> c.cuChunk[i] <= c.cuChunk[j])
          && (forall k :: 0 <= k < NumChunks(c, b) - 1 ==> 0 <= DoneBlock(c, b, k) < |c.table[b]|))
  }

  function LoadSlot(a: Args, b: nat): int
    requires ValidEntry(a, b)
  {
    match a.cache
    case Unindexed => b
    case Indexed(slots) => slots[b]
    case Prefix(_, table, _, _, init, _, _) => table[b][init[b]]
  }

  predicate IsNull(a: Args, b: nat)
    requires ValidEntry(a, b)
  {
    !a.cache.Unindexed? && LoadSlot(a, b) == a.nullBlock
  }

  predicate HasInit(a: Args, b: nat)
    requires ValidEntry(a, b)
  {
    a.hasInit.Some? && a.hasInit.value[b]
  }

  /** The position the kernel starts counting at: it places a short first chunk of several at the
      end of its block. The length of the first chunk matters only if there are several. */
  function StartPosition(c: Cache, b: nat): int
    requires c.Prefix? && b < |c.lastChunk| && b < |c.firstBlock|
    requires 0 <= FirstChunk(c, b) && (NumChunks(c, b) > 1 ==> FirstChunk(c, b) + 1 < |c.cuChunk|)
  {
    var first := FirstChunk(c, b);
    var tokens := if NumChunks(c, b) > 1 then c.cuChunk[first+1] - c.cuChunk[first] else c.blockSize;
    c.firstBlock[b] * c.blockSize + (if tokens < c.blockSize then c.blockSize - tokens else 0)
  }

  /** The block index the kernel computes for the checkpoint after a non-final chunk. */
  function DoneBlock(c: Cache, b: nat, k: nat): int
    requires c.Prefix? && 0 < c.blockSize && b < |c.lastChunk| && b < |c.firstBlock|
    requires 0 <= FirstChunk(c, b) && c.lastChunk[b] + 1 < |c.cuChunk| && k < NumChunks(c, b)
  {
    var first := FirstChunk(c, b);
    (StartPosition(c, b) + c.cuChunk[first+k+1] - c.cuChunk[first] - 1) / c.blockSize
  }

  /** Tokens per chunk; without prefix caching the whole sequence is one chunk. */
  function Chunks(a: Args, b: nat): (t: seq<int>)
    requires ValidEntry(a, b)
    ensures forall k :: 0 <= k < |t| ==> t[k] >= 0
  {
    if a.cache.Prefix? then
      var c, first := a.cache, FirstChunk(a.cache, b);
      seq(NumChunks(c, b), k requires 0 <= k < NumChunks(c, b) => c.cuChunk[first+k+1] - c.cuChunk[first+k])
    else [if a.varlen then a.queryStart[b+1] - a.queryStart[b] else a.seqlen]
  }

  /** The slot the state goes to after each chunk. */
  function Slots(a: Args, b: nat): (s: seq<int>)
    requires ValidEntry(a, b)
    ensures |s| == |Chunks(a, b)|
  {
    if a.cache.Prefix? then
      var c := a.cache;
      seq(NumChunks(c, b), k requires 0 <= k < NumChunks(c, b) =>
        if k == NumChunks(c, b) - 1 then c.table[b][c.lastBlock[b]] else c.table[b][DoneBlock(c, b, k)])
    else [LoadSlot(a, b)]
  }

  // ---------------------------------------------------------------- the recurrence

  /** One program's work: its tokens, what delta and z held, where it stores. */
  datatype Job<S, V, T> = Job(
    base: int, zBase: int, d: int, hasZ: bool,
    toks: seq<T>, deltas: seq<V>, zs: seq<V>, start: S,
    chunks: seq<int>, slots: seq<int>)
  {
    ghost predicate Valid() {
      && |deltas| == |toks| && (hasZ ==> |zs| == |toks|)
      && |chunks| == |slots| && Sum(chunks) == |toks|
      && forall k :: 0 <= k < |chunks| ==> chunks[k] >= 0
    }
  }

  /** The state after the first n tokens. */
  ghost function StateAt<S, V, T>(ops: Ops<S, V, T>, toks: seq<T>, deltas: seq<V>, start: S, n: nat): S
    requires n <= |toks| && |deltas| == |toks|
  {
    if n == 0 then start else ops.next(toks[n-1], deltas[n-1], StateAt(ops, toks, deltas, start, n - 1))
  }

  ghost function OutAt<S, V, T>(ops: Ops<S, V, T>, toks: seq<T>, deltas: seq<V>, start: S, i: nat): V
    requires i < |toks| && |deltas| == |toks|
  {
    ops.emit(toks[i], StateAt(ops, toks, deltas, start, i + 1))
  }

  lemma {:induction false} SumMonotone(xs: seq<int>, j: nat, k: nat)
    requires j <= k <= |xs| && forall i :: 0 <= i < |xs| ==> xs[i] >= 0
    ensures 0 <= Sum(xs[..j]) <= Sum(xs[..k]) <= Sum(xs)
    decreases |xs| - j
  {
    assert xs[..|xs|] == xs;
    if j > 0 { SumMonotone0(xs, j); }
    if j < k {
      SumStep(xs, j);
      SumMonotone(xs, j + 1, k);
    } else if k < |xs| {
      SumStep(xs, k);
      SumMonotone(xs, k + 1, k + 1);
    }
  }

  lemma {:induction false} SumMonotone0(xs: seq<int>, j: nat)
    requires j <= |xs| && forall i :: 0 <= i < |xs| ==> xs[i] >= 0
    ensures 0 <= Sum(xs[..j])
  {
    if j > 0 {
      SumStep(xs, j - 1);
      SumMonotone0(xs, j - 1);
    }
  }

  /** The states map after the checkpoints of the first c chunks. */
  ghost function Stored<S, V, T>(ops: Ops<S, V, T>, job: Job<S, V, T>, states: map<(int, int), S>,
                                 c: nat): map<(int, int), S>
    requires job.Valid() && c <= |job.chunks|
  {
    if c == 0 then states
    else
      SumMonotone(job.chunks, c, c);
      Stored(ops, job, states, c - 1)[(job.slots[c-1], job.d) :=
        StateAt(ops, job.toks, job.deltas, job.start, Sum(job.chunks[..c]))]
  }

  /** The buffers after a program has handled p tokens and stored c checkpoints. */
  ghost function Partial<S, V, T>(ops: Ops<S, V, T>, job: Job<S, V, T>, img: Image<S, V>, p: nat, c: nat): Image<S, V>
    requires job.Valid() && p <= |job.toks| && c <= |job.chunks|
  {
    Image(
      seq(|img.delta|, i requires 0 <= i < |img.delta| =>
        if job.base <= i < job.base + p
        then OutAt(ops, job.toks, job.deltas, job.start, i - job.base)
        else img.delta[i]),
      seq(|img.z|, i requires 0 <= i < |img.z| =>
        if job.hasZ && job.zBase <= i < job.zBase + p
        then ops.gate(OutAt(ops, job.toks, job.deltas, job.start, i - job.zBase), job.zs[i - job.zBase])
        else img.z[i]),
      Stored(ops, job, img.states, c))
  }

  /** The rows of entry b and channel d lie inside the buffers, and its slots inside the cache. */
  ghost predicate Fits<S, V>(a: Args, b: nat, d: nat, img: Image<S, V>)
    requires ValidEntry(a, b)
  {
    var n := Sum(Chunks(a, b));
    && 0 <= n
    && 0 <= RowBase(a, b, d, a.deltaBatch, a.deltaDim) && RowBase(a, b, d, a.deltaBatch, a.deltaDim) + n <= |img.delta|
    && (a.hasZ ==> 0 <= RowBase(a, b, d, a.zBatch, a.zDim) && RowBase(a, b, d, a.zBatch, a.zDim) + n <= |img.z|)
    && (LoadSlot(a, b), d as int) in img.states
    && (forall k :: 0 <= k < |Slots(a, b)| ==> (Slots(a, b)[k], d as int) in img.states)
  }

  ghost function JobOf<S, V, T>(ops: Ops<S, V, T>, a: Args, tok: (int, int, int) -> T, img: Image<S, V>, b: nat, d: nat)
    : (job: Job<S, V, T>)
    requires ValidEntry(a, b) && Fits(a, b, d, img)
    ensures job.Valid()
  {
    var n, base := Sum(Chunks(a, b)), RowBase(a, b, d, a.deltaBatch, a.deltaDim);
    var zBase := RowBase(a, b, d, a.zBatch, a.zDim);
    Job(base, zBase, d, a.hasZ,
        seq(n, i => tok(b, d, i)), img.delta[base..base+n],
        if a.hasZ then img.z[zBase..zBase+n] else [],
        if HasInit(a, b) then img.states[(LoadSlot(a, b), d as int)] else ops.zero,
        Chunks(a, b), Slots(a, b))
  }

  /** What one program leaves behind: every output from the original buffers, every checkpoint. */
  ghost function RunProgram<S, V, T>(ops: Ops<S, V, T>, a: Args, tok: (int, int, int) -> T, img: Image<S, V>, b: nat,
                                     d: nat)
    : Image<S, V>
    requires ValidEntry(a, b) && Fits(a, b, d, img)
  {
    if IsNull(a, b) then img
    else
      var job := JobOf(ops, a, tok, img, b, d);
      Partial(ops, job, img, |job.toks|, |job.chunks|)
  }

  lemma {:induction false} ProgramOutputs<S, V, T>(ops: Ops<S, V, T>, a: Args, tok: (int, int, int) -> T,
                                                   img: Image<S, V>, b: nat, d: nat, i: nat)
    requires ValidEntry(a, b) && Fits(a, b, d, img) && !IsNull(a, b) && i < Sum(Chunks(a, b))
    ensures var job, now := JobOf(ops, a, tok, img, b, d), RunProgram(ops, a, tok, img, b, d);
            && |now.delta| == |img.delta| && |now.z| == |img.z|
            && 0 <= job.base && job.base + i < |img.delta|
            && now.delta[job.base + i] == OutAt(ops, job.toks, job.deltas, job.start, i)
            && (a.hasZ ==>
                  && 0 <= job.zBase && job.zBase + i < |img.z|
                  && now.z[job.zBase + i] == ops.gate(OutAt(ops, job.toks, job.deltas, job.start, i),
                                                      img.z[job.zBase + i]))
  {
  }

  // ---------------------------------------------------------------- the kernel

  ghost function View<S, V>(delta: array<V>, z: array<V>, states: array2<S>): Image<S, V>
    reads delta, z, states
  {
    Image(delta[..], z[..],
          map s: int, d: int | 0 <= s < states.Length0 && 0 <= d < states.Length1 :: (s, d) := states[s, d])
  }

  /** Whether the buffers and the running state are where job `job` has them after p tokens and c
      checkpoints, starting from `img`. */
  ghost predicate At<S, V, T>(ops: Ops<S, V, T>, job: Job<S, V, T>, img: Image<S, V>, now: Image<S, V>, state: S,
                              p: int, c: int) {
    && job.Valid() && 0 <= p <= |job.toks| && 0 <= c <= |job.chunks|
    && 0 <= job.base && job.base + |job.toks| <= |img.delta| && job.deltas == img.delta[job.base..job.base+|job.toks|]
    && (job.hasZ ==>
          0 <= job.zBase && job.zBase + |job.toks| <= |img.z| && job.zs == img.z[job.zBase..job.zBase+|job.toks|])
    && state == StateAt(ops, job.toks, job.deltas, job.start, p)
    && now == Partial(ops, job, img, p, c)
  }

  method ScanToken<S, V, T>(ops: Ops<S, V, T>, t: T, base: int, zBase: int, hasZ: bool, pos: int, state: S,
                            delta: array<V>, z: array<V>, states: array2<S>,
                            ghost job: Job<S, V, T>, ghost img: Image<S, V>, ghost c: int)
    returns (state': S)
    requires delta != z && At(ops, job, img, View(delta, z, states), state, pos, c) && pos < |job.toks|
    requires t == job.toks[pos] && base == job.base && hasZ == job.hasZ && zBase == job.zBase
    modifies delta, z
    ensures At(ops, job, img, View(delta, z, states), state', pos + 1, c)
  {
    ghost var before := View(delta, z, states);
    assert |before.delta| == |img.delta| && |before.z| == |img.z|;
    assert before.delta[base+pos] == delta[base+pos] == job.deltas[pos];
    state' := ops.next(t, delta[base+pos], state);
    var out := ops.emit(t, state');
    delta[base+pos] := out;
    if hasZ {
      assert before.z[zBase+pos] == z[zBase+pos] == job.zs[pos];
      z[zBase+pos] := ops.gate(out, z[zBase+pos]);
    }
    ghost var now, want := View(delta, z, states), Partial(ops, job, img, pos + 1, c);
    assert out == OutAt(ops, job.toks, job.deltas, job.start, pos);
    forall i | 0 <= i < |img.delta|
      ensures now.delta[i] == want.delta[i]
    {
      assert i != base + pos ==> now.delta[i] == before.delta[i];
    }
    assert now.delta == want.delta;
    assert now.z == want.z;
    assert now.states == before.states;
  }

  method StoreState<S, V, T>(ops: Ops<S, V, T>, slot: int, d: nat, state: S,
                             delta: array<V>, z: array<V>, states: array2<S>,
                             ghost job: Job<S, V, T>, ghost img: Image<S, V>, ghost p: int, ghost c: int)
    requires At(ops, job, img, View(delta, z, states), state, p, c) && c < |job.chunks|
    requires slot == job.slots[c] && d == job.d && p == Sum(job.chunks[..c+1])
    requires 0 <= slot < states.Length0 && d < states.Length1
    modifies states
    ensures At(ops, job, img, View(delta, z, states), state, p, c + 1)
  {
    ghost var before := View(delta, z, states);
    states[slot, d] := state;
    assert View(delta, z, states).states == before.states[(slot, d as int) := state];
  }

  method ScanChunk<S, V, T>(ops: Ops<S, V, T>, tok: (int, int, int) -> T, b: nat, d: nat, base: int, zBase: int,
                            hasZ: bool, processed: int, chunkTokens: int, state: S,
                            delta: array<V>, z: array<V>, states: array2<S>,
                            ghost job: Job<S, V, T>, ghost img: Image<S, V>, ghost c: int)
    returns (state': S)
    requires delta != z && At(ops, job, img, View(delta, z, states), state, processed, c)
    requires 0 <= chunkTokens && processed + chunkTokens <= |job.toks|
    requires forall i :: 0 <= i < |job.toks| ==> job.toks[i] == tok(b, d, i)
    requires base == job.base && hasZ == job.hasZ && zBase == job.zBase
    modifies delta, z
    ensures At(ops, job, img, View(delta, z, states), state', processed + chunkTokens, c)
  {
    state' := state;
    for localPos := 0 to chunkTokens
      invariant At(ops, job, img, View(delta, z, states), state', processed + localPos, c)
    {
      var pos := processed + localPos;
      state' := ScanToken(ops, tok(b, d, pos), base, zBase, hasZ, pos, state', delta, z, states, job, img, c);
    }
  }

  method InitialState<S, V, T>(ops: Ops<S, V, T>, a: Args, tok: (int, int, int) -> T, loadSlot: int, b: nat, d: nat,
                               delta: array<V>, z: array<V>, states: array2<S>)
    returns (state: S)
    requires ValidEntry(a, b) && Fits(a, b, d, View(delta, z, states)) && loadSlot == LoadSlot(a, b)
    ensures At(ops, JobOf(ops, a, tok, View(delta, z, states), b, d), View(delta, z, states),
               View(delta, z, states), state, 0, 0)
  {
    ghost var img := View(delta, z, states);
    assert (loadSlot, d as int) in img.states;
    state := if HasInit(a, b) then states[loadSlot, d] else ops.zero;
    ghost var start := Partial(ops, JobOf(ops, a, tok, img, b, d), img, 0, 0);
    assert start.delta == img.delta && start.z == img.z;
  }

  function ChunkTokens(a: Args, b: nat, k: nat): (t: int)
    requires ValidEntry(a, b) && k < |Chunks(a, b)|
    ensures t == Chunks(a, b)[k]
  {
    if a.cache.Prefix? then
      var first := FirstChunk(a.cache, b);
      a.cache.cuChunk[first+k+1] - a.cache.cuChunk[first+k]
    else if a.varlen then a.queryStart[b+1] - a.queryStart[b] else a.seqlen
  }

  /** Where the kernel stores after chunk k, from its running position. */
  function StoreSlot(a: Args, b: nat, k: nat, position: int): (slot: int)
    requires ValidEntry(a, b) && a.cache.Prefix? && k < |Chunks(a, b)|
    requires position == StartPosition(a.cache, b) + Sum(Chunks(a, b)[..k])
    ensures slot == Slots(a, b)[k]
  {
    var c := a.cache;
    if k == NumChunks(c, b) - 1 then c.table[b][c.lastBlock[b]]
    else
      ChunkSum(a, b, k); SumStep(Chunks(a, b), k);
      assert (position + ChunkTokens(a, b, k) - 1) / c.blockSize == DoneBlock(c, b, k);
      c.table[b][(position + ChunkTokens(a, b, k) - 1) / c.blockSize]
  }

  lemma {:induction false} SlotsInRange<S, V>(a: Args, b: nat, d: nat, delta: array<V>, z: array<V>, states: array2<S>)
    requires ValidEntry(a, b) && Fits(a, b, d, View(delta, z, states))
    ensures d < states.Length1
    ensures forall k :: 0 <= k < |Slots(a, b)| ==> 0 <= Slots(a, b)[k] < states.Length0
  {
    var img := View(delta, z, states);
    assert (LoadSlot(a, b), d as int) in img.states;
    forall k | 0 <= k < |Slots(a, b)|
      ensures 0 <= Slots(a, b)[k] < states.Length0
    {
      assert (Slots(a, b)[k], d as int) in img.states;
    }
  }

  /** The job is the one batch entry b and channel d ask for, and its slots exist. */
  ghost predicate Serves<S, V, T>(a: Args, tok: (int, int, int) -> T, b: nat, d: nat, job: Job<S, V, T>, slotCount: int,
                                  dims: int)
    requires ValidEntry(a, b)
  {
    && job.chunks == Chunks(a, b) && job.slots == Slots(a, b) && job.d == d && job.hasZ == a.hasZ
    && job.base == RowBase(a, b, d, a.deltaBatch, a.deltaDim) && job.zBase == RowBase(a, b, d, a.zBatch, a.zDim)
    && (forall i :: 0 <= i < |job.toks| ==> job.toks[i] == tok(b, d, i))
    && d < dims && (forall k :: 0 <= k < |job.slots| ==> 0 <= job.slots[k] < slotCount)
  }

  /** One chunk and, under prefix caching, its checkpoint. */
  method ScanChunkAndStore<S, V, T>(ops: Ops<S, V, T>, a: Args, tok: (int, int, int) -> T, b: nat, d: nat,
                                    chunk: nat, processed: int, position: int, state: S,
                                    delta: array<V>, z: array<V>, states: array2<S>,
                                    ghost job: Job<S, V, T>, ghost img: Image<S, V>)
    returns (chunkTokens: int, state': S)
    requires delta != z && ValidEntry(a, b) && Serves(a, tok, b, d, job, states.Length0, states.Length1)
    requires chunk < |job.chunks| && processed == Sum(job.chunks[..chunk])
    requires a.cache.Prefix? ==> position == StartPosition(a.cache, b) + processed
    requires At(ops, job, img, View(delta, z, states), state, processed, if a.cache.Prefix? then chunk else 0)
    modifies delta, z, states
    ensures processed + chunkTokens == Sum(job.chunks[..chunk+1])
    ensures At(ops, job, img, View(delta, z, states), state', Sum(job.chunks[..chunk+1]),
               if a.cache.Prefix? then chunk + 1 else 0)
  {
    chunkTokens := ChunkTokens(a, b, chunk);
    SumStep(job.chunks, chunk);
    SumMonotone(job.chunks, chunk, chunk + 1);
    state' := ScanChunk(ops, tok, b, d, RowBase(a, b, d, a.deltaBatch, a.deltaDim), RowBase(a, b, d, a.zBatch, a.zDim),
                        a.hasZ, processed, chunkTokens, state, delta, z, states,
                        job, img, if a.cache.Prefix? then chunk else 0);
    if a.cache.Prefix? {
      var slot := StoreSlot(a, b, chunk, position);
      StoreState(ops, slot, d, state', delta, z, states, job, img, processed + chunkTokens, chunk);
    }
  }

  /** The sequential scan over all chunks. */
  method ScanChunks<S, V, T>(ops: Ops<S, V, T>, a: Args, tok: (int, int, int) -> T, b: nat, d: nat, start: S,
                             delta: array<V>, z: array<V>, states: array2<S>,
                             ghost job: Job<S, V, T>, ghost img: Image<S, V>)
    returns (state: S)
    requires delta != z && ValidEntry(a, b) && Serves(a, tok, b, d, job, states.Length0, states.Length1)
    requires At(ops, job, img, View(delta, z, states), start, 0, 0)
    modifies delta, z, states
    ensures At(ops, job, img, View(delta, z, states), state, |job.toks|, if a.cache.Prefix? then |job.chunks| else 0)
  {
    state := start;
    var chunkCount := if a.cache.Prefix? then NumChunks(a.cache, b) else 1;
    var position := if a.cache.Prefix? then StartPosition(a.cache, b) else 0;
    var processed := 0;
    for chunk := 0 to chunkCount
      invariant processed == Sum(job.chunks[..chunk])
      invariant a.cache.Prefix? ==> position == StartPosition(a.cache, b) + processed
      invariant At(ops, job, img, View(delta, z, states), state, Sum(job.chunks[..chunk]),
                   if a.cache.Prefix? then chunk else 0)
    {
      var chunkTokens;
      chunkTokens, state := ScanChunkAndStore(ops, a, tok, b, d, chunk, processed,
                                              position, state, delta, z, states, job, img);
      processed := processed + chunkTokens;
      position := position + chunkTokens;
    }
    assert job.chunks[..chunkCount] == job.chunks;
  }

  /** One program of the launch grid, in place: out is delta and out_z is z. */
  method Program<S, V, T>(ops: Ops<S, V, T>, a: Args, tok: (int, int, int) -> T,
                          delta: array<V>, z: array<V>, states: array2<S>, b: nat, d: nat)
    requires delta != z && ValidEntry(a, b) && Fits(a, b, d, View(delta, z, states))
    modifies delta, z, states
    ensures View(delta, z, states) == RunProgram(ops, a, tok, old(View(delta, z, states)), b, d)
  {
    if IsNull(a, b) {
      return;
    }
    ghost var img := View(delta, z, states);
    ghost var job := JobOf(ops, a, tok, img, b, d);
    SlotsInRange(a, b, d, delta, z, states);
    var loadSlot := LoadSlot(a, b);
    var state := InitialState(ops, a, tok, loadSlot, b, d, delta, z, states);
    state := ScanChunks(ops, a, tok, b, d, state, delta, z, states, job, img);
    if !a.cache.Prefix? {
      assert job.chunks[..1] == job.chunks;
      StoreState(ops, loadSlot, d, state, delta, z, states, job, img, |job.toks|, 0);
    }
  }

  /** An entry without new tokens has no chunks, and its programs change nothing. */
  lemma {:induction false} IdleProgram<S, V, T>(ops: Ops<S, V, T>, a: Args, tok: (int, int, int) -> T,
                                                img: Image<S, V>, b: nat, d: nat)
    requires ValidEntry(a, b) && Fits(a, b, d, img) && a.cache.Prefix? && NumChunks(a.cache, b) == 0
    ensures RunProgram(ops, a, tok, img, b, d) == img
  {
    var after := RunProgram(ops, a, tok, img, b, d);
    assert Chunks(a, b) == [];
    assert after.delta == img.delta && after.z == img.z;
  }

  /** Running totals of the chunk lengths are differences of the cumulative boundaries. */
  lemma {:induction false} ChunkSum(a: Args, b: nat, k: nat)
    requires ValidEntry(a, b) && a.cache.Prefix? && k < |Chunks(a, b)|
    ensures var first := FirstChunk(a.cache, b);
            Sum(Chunks(a, b)[..k+1]) == a.cache.cuChunk[first+k+1] - a.cache.cuChunk[first]
  {
    SumStep(Chunks(a, b), k);
    if k > 0 {
      ChunkSum(a, b, k - 1);
    }
  }
}
