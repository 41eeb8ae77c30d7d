/** The selective scan without prefix caching: every batch entry has one slot, where its state is
    loaded from and stored to. */
module PlainScan {
  import opened Wrappers
  import opened Arith
  import opened SelectiveScan
  import R = ScanResume

  /** Entry b has n tokens and keeps its state in this slot, which is not the null block. */
  ghost predicate PlainEntry(a: Args, b: nat, n: nat, slot: int) {
    && (if a.varlen then b + 1 < |a.queryStart| && a.queryStart[b+1] - a.queryStart[b] == n else a.seqlen == n)
    && (a.hasInit.Some? ==> b < |a.hasInit.value|)
    && match a.cache
       case Unindexed => slot == b
       case Indexed(slots) => b < |slots| && slot == slots[b] != a.nullBlock
       case Prefix(_, _, _, _, _, _, _) => false
  }

  /** Where the row of entry b and channel d starts in a buffer. */
  ghost function Row(a: Args, b: nat, d: nat, batchStride: int, dimStride: int): int
    requires a.varlen ==> b < |a.queryStart|
  {
    if a.varlen then d * dimStride + a.queryStart[b] * batchStride else b * batchStride + d * dimStride
  }

  /** The rows lie inside the buffers, and the slot inside the cache. */
  ghost predicate RowsFit<S, V>(a: Args, b: nat, d: nat, n: nat, slot: int, img: Image<S, V>)
    requires a.varlen ==> b < |a.queryStart|
  {
    && 0 <= Row(a, b, d, a.deltaBatch, a.deltaDim) && Row(a, b, d, a.deltaBatch, a.deltaDim) + n <= |img.delta|
    && (a.hasZ ==> 0 <= Row(a, b, d, a.zBatch, a.zDim) && Row(a, b, d, a.zBatch, a.zDim) + n <= |img.z|)
    && (slot, d as int) in img.states
  }

  /** One launch of a request: entry b of some batch, n tokens. */
  datatype Piece<!S, !V, !T> = Piece(a: Args, tok: (int, int, int) -> T, img: Image<S, V>, b: nat, slot: int, n: nat)

  ghost function DeltaRow<S, V, T>(l: Piece<S, V, T>, d: nat, img: Image<S, V>): seq<V>
    requires l.a.varlen ==> l.b < |l.a.queryStart|
    requires RowsFit(l.a, l.b, d, l.n, l.slot, img)
  {
    var at := Row(l.a, l.b, d, l.a.deltaBatch, l.a.deltaDim);
    img.delta[at..at + l.n]
  }

  ghost function ZRow<S, V, T>(l: Piece<S, V, T>, d: nat, img: Image<S, V>): seq<V>
    requires l.a.varlen ==> l.b < |l.a.queryStart|
    requires RowsFit(l.a, l.b, d, l.n, l.slot, img) && l.a.hasZ
  {
    var at := Row(l.a, l.b, d, l.a.zBatch, l.a.zDim);
    img.z[at..at + l.n]
  }

  /** The tokens and the delta row of the piece are the next n of the request. */
  ghost predicate Presents<S, V, T>(l: Piece<S, V, T>, d: nat, toks: seq<T>, deltas: seq<V>, computed: nat) {
    && PlainEntry(l.a, l.b, l.n, l.slot) && RowsFit(l.a, l.b, d, l.n, l.slot, l.img)
    && |deltas| == |toks| && computed + l.n <= |toks|
    && (forall i :: 0 <= i < l.n ==> l.tok(l.b, d, i) == toks[computed + i])
    && DeltaRow(l, d, l.img) == deltas[computed..computed + l.n]
  }

  ghost predicate Loads<S, V, T>(l: Piece<S, V, T>)
    requires l.a.hasInit.Some? ==> l.b < |l.a.hasInit.value|
  {
    l.a.hasInit.Some? && l.a.hasInit.value[l.b]
  }

  /** The piece continues the request after `computed` tokens: it loads the state reached, or starts
      afresh at token zero. */
  ghost predicate Continues<S, V, T>(ops: Ops<S, V, T>, l: Piece<S, V, T>, d: nat, toks: seq<T>, deltas: seq<V>,
                                     computed: nat) {
    && Presents(l, d, toks, deltas, computed)
    && if Loads(l) then l.img.states[(l.slot, d as int)] == StateAt(ops, toks, deltas, ops.zero, computed)
       else computed == 0
  }

  lemma {:induction false} IsEntry<S, V>(a: Args, b: nat, d: nat, n: nat, slot: int, img: Image<S, V>)
    requires PlainEntry(a, b, n, slot) && RowsFit(a, b, d, n, slot, img)
    ensures ValidEntry(a, b) && !IsNull(a, b) && Chunks(a, b) == [n] && Slots(a, b) == [slot] && LoadSlot(a, b) == slot
    ensures Sum([n]) == n && Fits(a, b, d, img)
  {
    R.SumOne(n);
  }

  /** What the program leaves behind. */
  ghost function After<S, V, T>(ops: Ops<S, V, T>, l: Piece<S, V, T>, d: nat): Image<S, V> {
    if ValidEntry(l.a, l.b) && Fits(l.a, l.b, d, l.img) then RunProgram(ops, l.a, l.tok, l.img, l.b, d) else l.img
  }

  /** The outputs of the piece are those of the uninterrupted scan, and its slot holds the state reached;
      all other cells are as they were. */
  ghost predicate Continued<S, V, T>(ops: Ops<S, V, T>, l: Piece<S, V, T>, now: Image<S, V>, d: nat, toks: seq<T>,
                                     deltas: seq<V>, computed: nat)
    requires Continues(ops, l, d, toks, deltas, computed)
  {
    && |now.delta| == |l.img.delta| && |now.z| == |l.img.z|
    && now.states == l.img.states[(l.slot, d as int) := StateAt(ops, toks, deltas, ops.zero, computed + l.n)]
    && (forall i :: 0 <= i < l.n ==> DeltaRow(l, d, now)[i] == OutAt(ops, toks, deltas, ops.zero, computed + i))
    && (l.a.hasZ ==> forall i :: 0 <= i < l.n ==>
          ZRow(l, d, now)[i] == ops.gate(OutAt(ops, toks, deltas, ops.zero, computed + i), ZRow(l, d, l.img)[i]))
  }

  /** The job of the piece, in terms of the request. */
  ghost predicate IsJob<S, V, T>(ops: Ops<S, V, T>, l: Piece<S, V, T>, d: nat, toks: seq<T>, deltas: seq<V>,
                                 computed: nat, job: Job<S, V, T>)
    requires Continues(ops, l, d, toks, deltas, computed)
  {
    && job.Valid() && job.base == Row(l.a, l.b, d, l.a.deltaBatch, l.a.deltaDim)
    && job.zBase == Row(l.a, l.b, d, l.a.zBatch, l.a.zDim) && job.hasZ == l.a.hasZ && job.d == d
    && job.toks == toks[computed..computed + l.n] && job.deltas == deltas[computed..computed + l.n]
    && job.start == StateAt(ops, toks, deltas, ops.zero, computed)
    && job.chunks == [l.n] && job.slots == [l.slot] && (l.a.hasZ ==> job.zs == ZRow(l, d, l.img))
  }

  lemma {:induction false} PieceJob<S, V, T>(ops: Ops<S, V, T>, l: Piece<S, V, T>, d: nat, toks: seq<T>, deltas: seq<V>,
                                             computed: nat)
    requires Continues(ops, l, d, toks, deltas, computed)
    requires ValidEntry(l.a, l.b) && Fits(l.a, l.b, d, l.img)
    requires Chunks(l.a, l.b) == [l.n] && Slots(l.a, l.b) == [l.slot]
    requires LoadSlot(l.a, l.b) == l.slot && Sum([l.n]) == l.n
    ensures IsJob(ops, l, d, toks, deltas, computed, JobOf(ops, l.a, l.tok, l.img, l.b, d))
  {
    hide ValidEntry, Fits, Chunks, Slots, LoadSlot;
    var job := JobOf(ops, l.a, l.tok, l.img, l.b, d);
    assert |job.toks| == l.n && |job.deltas| == l.n;
  }

  /** The rows and states a whole job leaves. */
  ghost predicate LeftBy<S, V, T>(ops: Ops<S, V, T>, job: Job<S, V, T>, img: Image<S, V>, n: nat, now: Image<S, V>)
    requires job.Valid() && |job.toks| == n && |job.chunks| == 1 && 0 <= job.base && job.base + n <= |img.delta|
    requires job.hasZ ==> 0 <= job.zBase && job.zBase + n <= |img.z|
  {
    && |now.delta| == |img.delta| && |now.z| == |img.z| && now.states == Stored(ops, job, img.states, 1)
    && (forall i :: 0 <= i < n ==>
          now.delta[job.base..job.base+n][i] == OutAt(ops, job.toks, job.deltas, job.start, i))
    && (job.hasZ ==> forall i :: 0 <= i < n ==>
          now.z[job.zBase..job.zBase+n][i] == ops.gate(OutAt(ops, job.toks, job.deltas, job.start, i), job.zs[i]))
  }

  lemma {:induction false} JobLeaves<S, V, T>(ops: Ops<S, V, T>, job: Job<S, V, T>, img: Image<S, V>, n: nat)
    requires job.Valid() && |job.toks| == n && |job.chunks| == 1 && 0 <= job.base && job.base + n <= |img.delta|
    requires job.hasZ ==> 0 <= job.zBase && job.zBase + n <= |img.z|
    ensures LeftBy(ops, job, img, n, Partial(ops, job, img, n, 1))
  {
    hide Stored, OutAt;
  }

  /** One launch without prefix caching carries its request on. */
  lemma {:induction false} PieceContinues<S, V, T>(ops: Ops<S, V, T>, l: Piece<S, V, T>, d: nat, toks: seq<T>,
                                                   deltas: seq<V>, computed: nat)
    requires Continues(ops, l, d, toks, deltas, computed)
    ensures Continued(ops, l, After(ops, l, d), d, toks, deltas, computed)
  {
    IsEntry(l.a, l.b, d, l.n, l.slot, l.img);
    PieceJob(ops, l, d, toks, deltas, computed);
    hide ValidEntry, Fits, Chunks, Slots, LoadSlot, JobOf, RowBase, StateAt, OutAt, Stored, Partial, LeftBy, Continued;
    var job := JobOf(ops, l.a, l.tok, l.img, l.b, d);
    JobLeaves(ops, job, l.img, l.n);
    LeftIsContinued(ops, l, d, toks, deltas, computed, job, After(ops, l, d));
  }

  lemma {:induction false} LeftIsContinued<S, V, T>(ops: Ops<S, V, T>, l: Piece<S, V, T>, d: nat, toks: seq<T>,
                                                    deltas: seq<V>, computed: nat, job: Job<S, V, T>, now: Image<S, V>)
    requires Continues(ops, l, d, toks, deltas, computed) && IsJob(ops, l, d, toks, deltas, computed, job)
    requires LeftBy(ops, job, l.img, l.n, now)
    ensures Continued(ops, l, now, d, toks, deltas, computed)
  {
    hide StateAt, OutAt, Stored, Row;
    OneCheckpoint(ops, job, l.img.states, l.n, l.slot);
    R.StateShift(ops, toks, deltas, ops.zero, computed, l.n, l.n);
    assert RowsFit(l.a, l.b, d, l.n, l.slot, now);
    forall i | 0 <= i < l.n
      ensures DeltaRow(l, d, now)[i] == OutAt(ops, toks, deltas, ops.zero, computed + i)
      ensures l.a.hasZ ==>
                ZRow(l, d, now)[i] == ops.gate(OutAt(ops, toks, deltas, ops.zero, computed + i), ZRow(l, d, l.img)[i])
    {
      SameOut(ops, toks, deltas, computed, l.n, i);
      assert DeltaRow(l, d, now) == now.delta[job.base..job.base + l.n];
    }
  }

  lemma {:induction false} SameOut<S, V, T>(ops: Ops<S, V, T>, toks: seq<T>, deltas: seq<V>, c: nat, n: nat, i: nat)
    requires |deltas| == |toks| && c + n <= |toks| && i < n
    ensures OutAt(ops, toks[c..c+n], deltas[c..c+n], StateAt(ops, toks, deltas, ops.zero, c), i) ==
            OutAt(ops, toks, deltas, ops.zero, c + i)
  {
    R.StateShift(ops, toks, deltas, ops.zero, c, n, i + 1);
  }

  lemma {:induction false} OneCheckpoint<S, V, T>(ops: Ops<S, V, T>, job: Job<S, V, T>, states: map<(int, int), S>,
                                                  n: nat, slot: int)
    requires job.Valid() && job.chunks == [n] && job.slots == [slot] && |job.toks| == n
    ensures Stored(ops, job, states, 1) ==
            states[(slot, job.d) := StateAt(ops, job.toks, job.deltas, job.start, n)]
  {
    assert [n][..1] == [n];
    assert Stored(ops, job, states, 0) == states;
  }

  /** The first token of each piece. */
  ghost function Start<S, V, T>(run: seq<Piece<S, V, T>>, j: nat): nat
    requires j <= |run|
  {
    if j == 0 then 0 else Start(run, j - 1) + run[j-1].n
  }

  /** A run of launches that continue one another for the request. Between launches anything may change
      except the cell with its state, which may also move to another slot. */
  ghost predicate Served<S, V, T>(ops: Ops<S, V, T>, run: seq<Piece<S, V, T>>, d: nat, toks: seq<T>, deltas: seq<V>) {
    && |deltas| == |toks|
    && forall j :: 0 <= j < |run| ==> ServedAt(ops, run, d, toks, deltas, j)
  }

  ghost predicate ServedAt<S, V, T>(ops: Ops<S, V, T>, run: seq<Piece<S, V, T>>, d: nat, toks: seq<T>, deltas: seq<V>,
                                    j: nat)
    requires j < |run|
  {
    && Presents(run[j], d, toks, deltas, Start(run, j)) && (j == 0 <==> !Loads(run[j]))
    && (j > 0 ==>
          && (run[j-1].slot, d as int) in After(ops, run[j-1], d).states
          && run[j].img.states[(run[j].slot, d as int)] == After(ops, run[j-1], d).states[(run[j-1].slot, d as int)])
  }

  /** Resuming is invisible without prefix caching too: however a request is cut into launches, every
      launch has the outputs of the one uninterrupted scan, and leaves its state in the slot. */
  lemma {:induction false} ResumingPlainly<S, V, T>(ops: Ops<S, V, T>, run: seq<Piece<S, V, T>>, d: nat, toks: seq<T>,
                                                    deltas: seq<V>, j: nat)
    requires Served(ops, run, d, toks, deltas) && j < |run|
    ensures Continues(ops, run[j], d, toks, deltas, Start(run, j))
    ensures Continued(ops, run[j], After(ops, run[j], d), d, toks, deltas, Start(run, j))
  {
    hide After, Continued, Presents;
    assert ServedAt(ops, run, d, toks, deltas, j);
    if j > 0 {
      ResumingPlainly(ops, run, d, toks, deltas, j - 1);
      StateLeft(ops, run[j-1], d, toks, deltas, Start(run, j - 1));
    }
    PieceContinues(ops, run[j], d, toks, deltas, Start(run, j));
  }

  lemma {:induction false} StateLeft<S, V, T>(ops: Ops<S, V, T>, l: Piece<S, V, T>, d: nat, toks: seq<T>,
                                              deltas: seq<V>, computed: nat)
    requires Continues(ops, l, d, toks, deltas, computed)
    requires Continued(ops, l, After(ops, l, d), d, toks, deltas, computed)
    ensures (l.slot, d as int) in After(ops, l, d).states
    ensures After(ops, l, d).states[(l.slot, d as int)] == StateAt(ops, toks, deltas, ops.zero, computed + l.n)
  {
    hide After, Continues;
  }

  /** A program whose slot is the null block changes nothing. */
  lemma {:induction false} NullProgram<S, V, T>(ops: Ops<S, V, T>, a: Args, tok: (int, int, int) -> T,
                                                img: Image<S, V>, b: nat, d: nat)
    requires ValidEntry(a, b) && Fits(a, b, d, img)
    requires match a.cache
             case Unindexed => false
             case Indexed(slots) => slots[b] == a.nullBlock
             case Prefix(_, table, _, _, init, _, _) => table[b][init[b]] == a.nullBlock
    ensures RunProgram(ops, a, tok, img, b, d) == img
  {
  }
}
