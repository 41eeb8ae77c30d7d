/** Token counts under sequence parallelism, and the global forward context under nested overrides. */
module ForwardContext {
  import opened Arith

  // ---------------------------------------------------------------- sequence-parallel sizes

  function RepeatEach(xs: seq<int>, times: nat): seq<int> {
    if xs == [] then [] else RepeatEach(xs[..|xs|-1], times) + seq(times, _ => xs[|xs|-1])
  }

  /** Tokens per sequence-parallel rank, rounded up. */
  function SpNumTokens(tokens: seq<int>, sp: nat): seq<int>
    requires sp > 0
  {
    RepeatEach(seq(|tokens|, i requires 0 <= i < |tokens| => (tokens[i] + sp - 1) / sp), sp)
  }

  function CumSum(xs: seq<int>): seq<int> {
    if xs == [] then []
    else
      var before := CumSum(xs[..|xs|-1]);
      before + [xs[|xs|-1] + if before == [] then 0 else before[|before|-1]]
  }

  /** Cumulative tokens, written independently. */
  function CuTokensAcrossSp(tokens: seq<int>, sp: nat): seq<int>
    requires sp > 0
  {
    CumSum(RepeatEach(seq(|tokens|, i requires 0 <= i < |tokens| => (tokens[i] - 1 + sp) / sp), sp))
  }

  lemma {:induction false} CumSumSteps(xs: seq<int>, k: nat)
    requires k < |xs|
    ensures |CumSum(xs)| == |xs| && CumSum(xs)[k] - (if k == 0 then 0 else CumSum(xs)[k-1]) == xs[k]
    decreases |xs|
  {
    var n := |xs| - 1;
    if n > 0 { CumSumSteps(xs[..n], if k < n then k else n - 1); }
  }

  lemma {:induction false} RepeatAt(xs: seq<int>, times: nat, i: nat, j: nat)
    requires i < |xs| && j < times
    ensures |RepeatEach(xs, times)| == |xs| * times && i * times + j < |xs| * times
    ensures RepeatEach(xs, times)[i * times + j] == xs[i]
    decreases |xs|
  {
    var n := |xs| - 1;
    assert |xs| * times == n * times + times;
    RepeatSize(xs[..n], times);
    if i < n {
      RepeatAt(xs[..n], times, i, j);
    }
  }

  lemma {:induction false} RepeatSize(xs: seq<int>, times: nat)
    ensures |RepeatEach(xs, times)| == |xs| * times
    decreases |xs|
  {
    if xs != [] {
      RepeatSize(xs[..|xs|-1], times);
      assert |xs| * times == (|xs| - 1) * times + times;
    }
  }

  /** The two forms agree: sizes are the differences of the cumulative counts. */
  lemma {:induction false} SizesAreDifferences(tokens: seq<int>, sp: nat, k: nat)
    requires sp > 0 && k < |SpNumTokens(tokens, sp)|
    ensures var cu := CuTokensAcrossSp(tokens, sp);
            |cu| == |SpNumTokens(tokens, sp)| == |tokens| * sp &&
                SpNumTokens(tokens, sp)[k] == cu[k] - if k == 0 then 0 else cu[k-1]
  {
    var a := seq(|tokens|, i requires 0 <= i < |tokens| => (tokens[i] + sp - 1) / sp);
    var b := seq(|tokens|, i requires 0 <= i < |tokens| => (tokens[i] - 1 + sp) / sp);
    assert a == b;
    RepeatSize(a, sp);
    CumSumSteps(RepeatEach(b, sp), k);
  }

  lemma {:induction false} SumOfEqual(xs: seq<int>, v: int)
    requires forall i :: 0 <= i < |xs| ==> xs[i] == v
    ensures Sum(xs) == |xs| * v
    decreases |xs|
  {
    if xs != [] {
      SumOfEqual(xs[..|xs|-1], v);
      assert (|xs| - 1) * v + v == |xs| * v;
    }
  }

  /** m is the least multiple of sp that is not below t. */
  ghost predicate LeastMultiple(m: int, t: int, sp: int)
    requires sp > 0
  {
    t <= m && m % sp == 0 && forall k :: t <= Times(k, sp) ==> m <= Times(k, sp)
  }

  function Times(k: int, sp: int): int {
    k * sp
  }

  lemma {:induction false} RoundUp(t: int, sp: nat)
    requires sp > 0
    ensures LeastMultiple(sp * ((t + sp - 1) / sp), t, sp)
  {
    var q := (t + sp - 1) / sp;
    assert t + sp - 1 == sp * q + (t + sp - 1) % sp;
    assert q * sp == sp * q;
    DivUnique(q * sp, sp, q, 0);
    assert (q - 1) * sp == q * sp - sp;
    forall k | t <= Times(k, sp) ensures sp * q <= Times(k, sp) {
      if k < q { MulOrder(k, q - 1, sp); } else { MulOrder(q, k, sp); }
    }
  }

  /** The entries of one data-parallel rank are equal, and they add up to the least multiple of the
      group size that holds its tokens. */
  lemma {:induction false} RankHoldsItsTokens(tokens: seq<int>, sp: nat, rank: nat)
    requires sp > 0 && rank < |tokens|
    ensures var sizes := SpNumTokens(tokens, sp);
            && 0 <= rank * sp <= (rank + 1) * sp <= |sizes|
            && var mine := sizes[rank * sp..(rank + 1) * sp];
               && |mine| == sp && (forall j :: 0 <= j < |mine| ==> mine[j] == (tokens[rank] + sp - 1) / sp)
               && LeastMultiple(Sum(mine), tokens[rank], sp)
  {
    var a := seq(|tokens|, i requires 0 <= i < |tokens| => (tokens[i] + sp - 1) / sp);
    var sizes := SpNumTokens(tokens, sp);
    var v := (tokens[rank] + sp - 1) / sp;
    MulOrder(0, rank, sp);
    MulOrder(rank + 1, |tokens|, sp);
    RepeatSize(a, sp);
    assert (rank + 1) * sp == rank * sp + sp;
    var mine := sizes[rank * sp..(rank + 1) * sp];
    forall j | 0 <= j < sp ensures mine[j] == v {
      RepeatAt(a, sp, rank, j);
    }
    SumOfEqual(mine, v);
    RoundUp(tokens[rank], sp);
  }

  // ---------------------------------------------------------------- nested overrides

  /** Code that runs under the global context: it may look at it, raise, run pieces in turn, override
      the context for a body, or catch what a body raises. */
  datatype Code =
    | Look
    | Raise
    | Then(first: Code, second: Code)
    | Override(context: int, body: Code)
    | Try(body: Code, handler: Code)

  /** The context after, whether the code raised, and the contexts it saw. */
  datatype Effect = Effect(context: int, raised: bool, seen: seq<int>)

  function Exec(code: Code, global: int): Effect {
    match code
    case Look => Effect(global, false, [global])
    case Raise => Effect(global, true, [])
    case Then(first, second) =>
      var e := Exec(first, global);
      if e.raised then e
      else
        var e' := Exec(second, e.context);
        e'.(seen := e.seen + e'.seen)
    case Override(context, body) =>
      var previous := global;
      Exec(body, context).(context := previous)
    case Try(body, handler) =>
      var e := Exec(body, global);
      if !e.raised then e
      else
        var e' := Exec(handler, e.context);
        e'.(seen := e.seen + e'.seen)
  }

  /** What the code should see: every look finds the innermost override around it. */
  ghost function Scoped(code: Code, context: int): (seq<int>, bool) {
    match code
    case Look => ([context], false)
    case Raise => ([], true)
    case Then(first, second) =>
      var s := Scoped(first, context);
      if s.1 then s else (s.0 + Scoped(second, context).0, Scoped(second, context).1)
    case Override(inner, body) => Scoped(body, inner)
    case Try(body, handler) =>
      var s := Scoped(body, context);
      if !s.1 then s else (s.0 + Scoped(handler, context).0, Scoped(handler, context).1)
  }

  /** Any nesting of overrides, raising or not, leaves the context as it found it, and every look sees
      the innermost one. */
  lemma {:induction false} OverridesRestore(code: Code, global: int)
    ensures var e := Exec(code, global); e.context == global && (e.seen, e.raised) == Scoped(code, global)
  {
    match code
    case Look =>
    case Raise =>
    case Then(first, second) =>
      OverridesRestore(first, global);
      OverridesRestore(second, global);
    case Override(context, body) =>
      OverridesRestore(body, context);
    case Try(body, handler) =>
      OverridesRestore(body, global);
      OverridesRestore(handler, global);
  }
}
