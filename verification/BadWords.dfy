/** The bad-words mask on logits, and what it means for whole generations. Logits are finite or minus
    infinity. */
module BadWords {
  import opened Wrappers

  datatype Logit = NegInf | Fin(value: real)

  datatype Outcome = Masked(logits: seq<Logit>) | ValueError | IndexError | ShapeError

  function Add(x: Logit, y: Logit): Logit {
    if x.NegInf? || y.NegInf? then NegInf else Fin(x.value + y.value)
  }

  type Word = seq<int>

  // ---------------------------------------------------------------- what a mask should do

  /** Token t after this history ends in the word. */
  ghost predicate Completes(word: Word, past: seq<int>, t: int) {
    && word != [] && word[|word|-1] == t && |word| - 1 <= |past|
    && past[|past| - (|word| - 1)..] == word[..|word|-1]
  }

  ghost predicate Forbidden(words: seq<Word>, past: seq<int>, t: int) {
    exists i :: 0 <= i < |words| && Completes(words[i], past, t)
  }

  /** Exactly the tokens that would complete a bad word are masked; all others stay as they are. */
  ghost function Mask(words: seq<Word>, past: seq<int>, logits: seq<Logit>): seq<Logit> {
    seq(|logits|, t requires 0 <= t < |logits| => if Forbidden(words, past, t) then NegInf else logits[t])
  }

  // ---------------------------------------------------------------- the processor

  predicate InRange(words: seq<Word>, size: int) {
    forall i, j :: 0 <= i < |words| && 0 <= j < |words[i]| ==> 0 <= words[i][j] < size
  }

  /** The bias of the one-token words among the first n. */
  ghost predicate SingleBias(words: seq<Word>, n: nat, bias: seq<Logit>)
    requires n <= |words|
  {
    forall t :: 0 <= t < |bias| ==> bias[t] == if SingleHit(words, n, t) then NegInf else Fin(0.0)
  }

  ghost predicate SingleHit(words: seq<Word>, n: nat, t: int)
    requires n <= |words|
  {
    exists i :: 0 <= i < n && words[i] == [t]
  }

  /** The bias of the longer words among the first n that the history is about to complete. */
  ghost predicate LongBias(words: seq<Word>, n: nat, past: seq<int>, bias: seq<Logit>)
    requires n <= |words|
  {
    forall t :: 0 <= t < |bias| ==> bias[t] == if LongHit(words, n, past, t) then NegInf else Fin(0.0)
  }

  ghost predicate LongHit(words: seq<Word>, n: nat, past: seq<int>, t: int)
    requires n <= |words|
  {
    exists i :: 0 <= i < n && |words[i]| > 1 && Completes(words[i], past, t)
  }

  lemma {:induction false} LongHitStep(words: seq<Word>, i: nat, past: seq<int>, t: int)
    requires i < |words|
    ensures LongHit(words, i + 1, past, t) <==>
            LongHit(words, i, past, t) || (|words[i]| > 1 && Completes(words[i], past, t))
  {
    hide Completes;
  }

  lemma {:induction false} NoBiasYet(words: seq<Word>, past: seq<int>, bias: seq<Logit>)
    requires forall t :: 0 <= t < |bias| ==> bias[t] == Fin(0.0)
    ensures LongBias(words, 0, past, bias)
  {
  }

  /** The loop looks at the word: it has several tokens and the history is long enough for it. */
  predicate Reached(word: Word, past: seq<int>) {
    1 < |word| <= |past| + 1
  }

  /** The last token of a word that is looked at has a place in the bias. */
  predicate LastFits(word: Word, past: seq<int>, size: int) {
    Reached(word, past) ==> 0 <= word[|word|-1] < size
  }

  predicate Matches(word: Word, past: seq<int>)
    requires Reached(word, past)
  {
    var n := |word| - 1;
    past[|past|-n..] == word[..n]
  }

  lemma {:induction false} CompletesIsMatch(word: Word, past: seq<int>, t: int)
    ensures |word| > 1 && Completes(word, past, t) <==>
            Reached(word, past) && t == word[|word|-1] && Matches(word, past)
  {
  }

  /** The bias after one more word: nothing changes if it has one token or is too long, else its last
      token is biased. */
  function Biased(bias: seq<Logit>, word: Word, past: seq<int>): seq<Logit> {
    if Reached(word, past) && 0 <= word[|word|-1] < |bias|
    then bias[word[|word|-1] := Add(bias[word[|word|-1]], if Matches(word, past) then NegInf else Fin(0.0))]
    else bias
  }

  lemma {:induction false} AddFacts(x: Logit)
    ensures Add(x, Fin(0.0)) == x && Add(x, NegInf) == NegInf
  {
  }

  lemma {:induction false} BiasedAt(bias: seq<Logit>, word: Word, past: seq<int>, t: nat)
    requires t < |bias| && LastFits(word, past, |bias|)
    ensures |Biased(bias, word, past)| == |bias|
    ensures Biased(bias, word, past)[t] == if |word| > 1 && Completes(word, past, t) then NegInf else bias[t]
  {
    CompletesIsMatch(word, past, t);
    AddFacts(bias[t]);
    hide Completes, Matches, Add;
  }

  lemma {:induction false} LongBiasStep(words: seq<Word>, i: nat, past: seq<int>, bias: seq<Logit>)
    requires i < |words| && LongBias(words, i, past, bias) && LastFits(words[i], past, |bias|)
    ensures LongBias(words, i + 1, past, Biased(bias, words[i], past))
  {
    var word, after := words[i], Biased(bias, words[i], past);
    hide LongHit, Completes, Biased, LastFits;
    forall t | 0 <= t < |after| ensures after[t] == if LongHit(words, i + 1, past, t) then NegInf else Fin(0.0) {
      SameSize(bias, word, past);
      BiasedAt(bias, word, past, t);
      LongHitStep(words, i, past, t);
    }
  }

  lemma {:induction false} BiasedCases(bias: seq<Logit>, word: Word, past: seq<int>)
    requires LastFits(word, past, |bias|)
    ensures !Reached(word, past) ==> Biased(bias, word, past) == bias
    ensures Reached(word, past) ==>
              var last := word[|word|-1];
              Biased(bias, word, past) ==
              bias[last := Add(bias[last], if Matches(word, past) then NegInf else Fin(0.0))]
  {
  }

  function Zeros(size: nat): (bias: seq<Logit>)
    ensures |bias| == size && forall t :: 0 <= t < size ==> bias[t] == Fin(0.0)
  {
    seq(size, _ => Fin(0.0))
  }

  lemma {:induction false} SameSize(bias: seq<Logit>, word: Word, past: seq<int>)
    ensures |Biased(bias, word, past)| == |bias|
  {
  }

  /** A token is forbidden when it is a bad word itself or completes a longer one. */
  lemma {:induction false} ForbiddenIsHit(words: seq<Word>, past: seq<int>, t: int)
    ensures Forbidden(words, past, t) <==> SingleHit(words, |words|, t) || LongHit(words, |words|, past, t)
  {
    assert past[|past|..] == [];
    if Forbidden(words, past, t) {
      var i :| 0 <= i < |words| && Completes(words[i], past, t);
      if |words[i]| == 1 { assert words[i] == [t]; }
    }
    if i :| 0 <= i < |words| && words[i] == [t] {
      assert Completes(words[i], past, t);
    }
  }

  /** The place of entry t in a vector that is stretched if it has one entry. */
  function Place(size: nat, t: nat): nat {
    if size == 1 then 0 else t
  }

  /** Vectors can be added if they have the same size or one of them has one entry. */
  predicate Addable(n: nat, m: nat) {
    n == m || n == 1 || m == 1
  }

  function AddAll(x: seq<Logit>, y: seq<Logit>): (z: seq<Logit>)
    requires Addable(|x|, |y|)
    ensures |z| == if |x| == 1 then |y| else |x|
    ensures forall t :: 0 <= t < |z| ==> z[t] == Add(x[Place(|x|, t)], y[Place(|y|, t)])
  {
    var n := if |x| == 1 then |y| else |x|;
    seq(n, t requires 0 <= t < n => Add(x[Place(|x|, t)], y[Place(|y|, t)]))
  }

  /** The masked logits for a cached bias of any size: entry t looks at its own place in the logits, and
      in the cached bias. With equal sizes this is the mask. */
  ghost function Stretched(words: seq<Word>, past: seq<int>, logits: seq<Logit>, size: nat): (z: seq<Logit>)
    requires Addable(|logits|, size)
    ensures |z| == if |logits| == 1 then size else |logits|
  {
    var n := if |logits| == 1 then size else |logits|;
    seq(n, t requires 0 <= t < n =>
      if SingleHit(words, |words|, Place(size, t)) || LongHit(words, |words|, past, Place(|logits|, t))
      then NegInf else logits[Place(|logits|, t)])
  }

  lemma {:induction false} StretchedIsMask(words: seq<Word>, past: seq<int>, logits: seq<Logit>)
    ensures Stretched(words, past, logits, |logits|) == Mask(words, past, logits)
  {
    var z := Stretched(words, past, logits, |logits|);
    forall t | 0 <= t < |z| ensures z[t] == Mask(words, past, logits)[t] {
      ForbiddenIsHit(words, past, t);
      assert Place(|logits|, t) == t;
    }
  }

  /** Adding both biases masks exactly the hits and leaves the other logits as they are. */
  lemma {:induction false} BothBiases(words: seq<Word>, past: seq<int>, single: seq<Logit>, long: seq<Logit>,
                                      logits: seq<Logit>)
    requires |long| == |logits| && Addable(|logits|, |single|)
    requires SingleBias(words, |words|, single) && LongBias(words, |words|, past, long)
    ensures Addable(|AddAll(logits, single)|, |long|)
    ensures AddAll(AddAll(logits, single), long) == Stretched(words, past, logits, |single|)
  {
    hide SingleHit, LongHit, AddAll;
    var sum := AddAll(logits, single);
    var z := AddAll(sum, long);
    forall t | 0 <= t < |z| ensures z[t] == Stretched(words, past, logits, |single|)[t] {
      AddFacts(logits[Place(|logits|, t)]);
    }
  }

  class NoBadWordsProcessor {
    const words: seq<Word>
    var wordBias: Option<seq<Logit>>

    ghost predicate Valid()
      reads this
    {
      wordBias.Some? ==> InRange(words, |wordBias.value|) && SingleBias(words, |words|, wordBias.value)
    }

    constructor (words: seq<Word>)
      ensures this.words == words && wordBias == None && Valid()
    {
      this.words := words;
      wordBias := None;
    }

    method CheckTokenIdsBounds(size: int) returns (ok: bool)
      ensures ok <==> InRange(words, size)
    {
      var invalid: seq<int> := [];
      for i := 0 to |words|
        invariant invalid == [] <==> InRange(words[..i], size)
      {
        assert words[..i+1] == words[..i] + [words[i]];
        for j := 0 to |words[i]|
          invariant invalid == [] <==> InRange(words[..i], size) && forall k :: 0 <= k < j ==> 0 <= words[i][k] < size
        {
          if words[i][j] < 0 || words[i][j] >= size {
            invalid := invalid + [words[i][j]];
          }
        }
      }
      assert words[..|words|] == words;
      ok := invalid == [];
    }

    /** Compute the cached bias; out-of-range ids raise an error and leave nothing cached. */
    method InitWordBias(size: nat) returns (ok: bool)
      requires wordBias.None?
      modifies this
      ensures Valid() && (ok <==> InRange(words, size))
      ensures if ok then wordBias.Some? && |wordBias.value| == size else wordBias.None?
    {
      ok := CheckTokenIdsBounds(size);
      if !ok {
        return;
      }
      var bias := Zeros(size);
      for i := 0 to |words|
        invariant |bias| == size && SingleBias(words, i, bias)
      {
        if |words[i]| == 1 {
          var id := words[i][|words[i]|-1];
          assert words[i] == [id];
          bias := bias[id := NegInf];
        }
      }
      wordBias := Some(bias);
    }

    /** The bias for the history, word by word; an empty word has no last token. */
    method LastTokenBias(past: seq<int>, size: nat) returns (bias: seq<Logit>, ok: bool)
      requires forall i :: 0 <= i < |words| && words[i] != [] ==> words[i][|words[i]|-1] >= 0
      ensures ok <==> forall i :: 0 <= i < |words| ==> words[i] != [] && LastFits(words[i], past, size)
      ensures ok ==> |bias| == size && LongBias(words, |words|, past, bias)
    {
      hide LongBias, Biased, Matches, Add;
      bias := Zeros(size);
      NoBiasYet(words, past, bias);
      for i := 0 to |words|
        invariant |bias| == size && LongBias(words, i, past, bias)
        invariant forall k :: 0 <= k < i ==> words[k] != [] && LastFits(words[k], past, size)
      {
        var word := words[i];
        if LastFits(word, past, size) {
          LongBiasStep(words, i, past, bias);
          BiasedCases(bias, word, past);
        }
        if |word| == 1 {
          continue;
        }
        if |word| > |past| + 1 {
          continue;
        }
        if word == [] {
          return bias, false;
        }
        var last := word[|word|-1];
        if last >= size {
          return bias, false;
        }
        bias := bias[last := Add(bias[last], if Matches(word, past) then NegInf else Fin(0.0))];
      }
      ok := true;
    }

    /** Mask the logits for the next token. The first call computes the one-token bias, later calls
        use it; for logits of the same size the result is the same mask either way. Logits of another
        size raise an error, unless one of the two has a single entry and is stretched. */
    method Call(past: seq<int>, logits: seq<Logit>) returns (r: Outcome)
      requires Valid()
      modifies this
      ensures Valid()
      ensures r.ValueError? <==> old(wordBias).None? && !InRange(words, |logits|)
      ensures r.ValueError? ==> wordBias == old(wordBias)
      ensures !r.ValueError? ==>
                && wordBias.Some?
                && if old(wordBias).Some? then wordBias == old(wordBias) else |wordBias.value| == |logits|
      ensures r.IndexError? <==>
                !r.ValueError? && exists i ::
                    0 <= i < |words| && !(words[i] != [] && LastFits(words[i], past, |logits|))
      ensures r.ShapeError? <==> !r.ValueError? && !r.IndexError? && !Addable(|logits|, |wordBias.value|)
      ensures r.Masked? ==> r.logits == Stretched(words, past, logits, |wordBias.value|)
      ensures r.Masked? && |wordBias.value| == |logits| ==> r.logits == Mask(words, past, logits)
    {
      if wordBias.None? {
        var ok := InitWordBias(|logits|);
        if !ok {
          return ValueError;
        }
      }
      assert forall i :: 0 <= i < |words| && words[i] != [] ==> words[i][|words[i]|-1] >= 0;
      var long, ok := LastTokenBias(past, |logits|);
      if !ok {
        return IndexError;
      }
      if !Addable(|logits|, |wordBias.value|) {
        return ShapeError;
      }
      BothBiases(words, past, wordBias.value, long, logits);
      StretchedIsMask(words, past, logits);
      r := Masked(AddAll(AddAll(logits, wordBias.value), long));
    }
  }

  // ---------------------------------------------------------------- whole generations

  ghost predicate Occurs(word: Word, history: seq<int>, i: int) {
    0 <= i && i + |word| <= |history| && history[i..i+|word|] == word
  }

  /** No bad word is a contiguous run of the history. */
  ghost predicate Clean(words: seq<Word>, history: seq<int>) {
    forall w, i :: 0 <= w < |words| ==> !Occurs(words[w], history, i)
  }

  /** At every step the chosen token has a masked logit above minus infinity. */
  ghost predicate Generated(words: seq<Word>, size: nat, supply: seq<seq<Logit>>, history: seq<int>) {
    && |supply| == |history|
    && forall k :: 0 <= k < |history| ==>
         && |supply[k]| == size && 0 <= history[k] < size
         && Mask(words, history[..k], supply[k])[history[k]] != NegInf
  }

  ghost predicate Finite(supply: seq<seq<Logit>>, size: nat) {
    forall k, t :: 0 <= k < |supply| && 0 <= t < |supply[k]| ==> |supply[k]| == size && supply[k][t].Fin?
  }

  /** A word ends with the token at position k just when that token completes it. */
  lemma {:induction false} EndsAt(word: Word, history: seq<int>, k: nat)
    requires k < |history| && word != []
    ensures Completes(word, history[..k], history[k]) <==> Occurs(word, history, k + 1 - |word|)
  {
    var n, past := |word| - 1, history[..k];
    if n <= k {
      var run := history[k-n..k+1];
      assert past[k-n..] == history[k-n..k] == run[..n];
      assert run == run[..n] + [history[k]];
      assert word == word[..n] + [word[n]];
    }
  }

  /** A bad word is never generated, whatever logits come in. */
  lemma {:induction false} NeverGenerated(words: seq<Word>, size: nat, supply: seq<seq<Logit>>, history: seq<int>)
    requires Generated(words, size, supply, history) && forall w :: 0 <= w < |words| ==> words[w] != []
    ensures Clean(words, history)
  {
    forall w, i | 0 <= w < |words| ensures !Occurs(words[w], history, i) {
      var k := i + |words[w]| - 1;
      if 0 <= k < |history| {
        EndsAt(words[w], history, k);
        assert Mask(words, history[..k], supply[k])[history[k]] != NegInf;
      }
    }
  }

  /** Nothing else is ruled out: with finite logits, exactly the clean histories over the vocabulary
      can be generated. */
  lemma {:induction false} ExactlyTheClean(words: seq<Word>, size: nat, supply: seq<seq<Logit>>, history: seq<int>)
    requires |supply| == |history| && Finite(supply, size) && forall w :: 0 <= w < |words| ==> words[w] != []
    requires forall k :: 0 <= k < |supply| ==> |supply[k]| == size
    ensures Generated(words, size, supply, history) <==>
            Clean(words, history) && forall k :: 0 <= k < |history| ==> 0 <= history[k] < size
  {
    if Generated(words, size, supply, history) {
      NeverGenerated(words, size, supply, history);
    }
    if Clean(words, history) && forall k :: 0 <= k < |history| ==> 0 <= history[k] < size {
      forall k | 0 <= k < |history| ensures Mask(words, history[..k], supply[k])[history[k]] != NegInf {
        assert supply[k][history[k]].Fin?;
        if w :| 0 <= w < |words| && Completes(words[w], history[..k], history[k]) {
          EndsAt(words[w], history, k);
        }
      }
    }
  }

  ghost predicate NoneEmpty(words: seq<Word>) {
    forall w :: 0 <= w < |words| ==> words[w] != []
  }

  /** Generate with one processor, which computes its bias at the first call and keeps it: at each step
      take any token whose masked logit is above minus infinity, until the logits run out or nothing
      is left to take. No history that comes about this way contains a bad word. Ids out of range and
      empty words raise at the first call. */
  method Generate(words: seq<Word>, size: nat, supply: seq<seq<Logit>>) returns (history: seq<int>, raised: bool)
    requires forall k :: 0 <= k < |supply| ==> |supply[k]| == size
    ensures raised <==> supply != [] && !(InRange(words, size) && NoneEmpty(words))
    ensures raised ==> history == []
    ensures |history| <= |supply| && Generated(words, size, supply[..|history|], history)
    ensures NoneEmpty(words) ==> Clean(words, history)
    ensures !raised && |history| < |supply| ==>
              forall t :: 0 <= t < size ==> Mask(words, history, supply[|history|])[t] == NegInf
  {
    assert Generated(words, size, supply[..0], []);
    hide Generated, Clean, Forbidden, Stretched, LastFits, SingleBias, InRange;
    var processor := new NoBadWordsProcessor(words);
    history, raised := [], false;
    for k := 0 to |supply|
      invariant processor.Valid() && fresh(processor) && processor.words == words && |history| == k
      invariant k > 0 ==> processor.wordBias.Some? && |processor.wordBias.value| == size && NoneEmpty(words)
      invariant k == 0 ==> processor.wordBias.None?
      invariant Generated(words, size, supply[..k], history)
    {
      LastTokensFit(words, size, history);
      var r := processor.Call(history, supply[k]);
      if !r.Masked? {
        raised := true;
        break;
      }
      assert NoneEmpty(words);
      if t :| 0 <= t < |r.logits| && r.logits[t] != NegInf {
        OneMoreToken(words, size, supply[..k], supply[k], history, t);
        assert supply[..k+1] == supply[..k] + [supply[k]];
        history := history + [t];
      } else {
        break;
      }
    }
    if NoneEmpty(words) { NeverGenerated(words, size, supply[..|history|], history); }
  }

  lemma {:induction false} LastTokensFit(words: seq<Word>, size: nat, past: seq<int>)
    ensures InRange(words, size) && NoneEmpty(words) ==>
              forall i :: 0 <= i < |words| ==> words[i] != [] && LastFits(words[i], past, size)
  {
  }

  lemma {:induction false} OneMoreToken(words: seq<Word>, size: nat, supply: seq<seq<Logit>>, logits: seq<Logit>,
                                        history: seq<int>, t: int)
    requires Generated(words, size, supply, history) && |logits| == size && 0 <= t < size
    requires Mask(words, history, logits)[t] != NegInf
    ensures Generated(words, size, supply + [logits], history + [t])
  {
    var longer := history + [t];
    forall k | 0 <= k < |longer|
      ensures Mask(words, longer[..k], (supply + [logits])[k])[longer[k]] != NegInf
    {
      assert longer[..k] == if k < |history| then history[..k] else history;
    }
  }
}
