/** Log-probabilities of many positions kept in six flat lists, against the plain picture: one
    dictionary per position. */
module PyValues {
  import opened Wrappers
  import opened Arith

  datatype Result<+T> = Ok(value: T) | IndexError | ValueError

  datatype Logprob = Logprob(logprob: real, rank: Option<int>, token: Option<string>)

  type Pair = (int, Logprob)

  /** A dictionary in insertion order. */
  type Dict = seq<Pair>

  ghost predicate DistinctKeys(d: Dict) {
    forall i, j :: 0 <= i < j < |d| ==> d[i].0 != d[j].0
  }

  /** Setting a key keeps its place if it is there, and appends it otherwise. */
  function Put(d: Dict, key: int, value: Logprob): Dict {
    if d == [] then [(key, value)]
    else if d[|d|-1].0 == key then d[..|d|-1] + [(key, value)]
    else if HasKey(d[..|d|-1], key) then Put(d[..|d|-1], key, value) + [d[|d|-1]]
    else d + [(key, value)]
  }

  predicate HasKey(d: Dict, key: int) {
    exists i :: 0 <= i < |d| && d[i].0 == key
  }

  /** A dictionary built from pairs one after the other: the last value of a key wins. */
  function FromPairs(pairs: seq<Pair>): Dict {
    if pairs == [] then [] else Put(FromPairs(pairs[..|pairs|-1]), pairs[|pairs|-1].0, pairs[|pairs|-1].1)
  }

  lemma {:induction false} PutNew(d: Dict, key: int, value: Logprob)
    requires !HasKey(d, key)
    ensures Put(d, key, value) == d + [(key, value)]
  {
    if d != [] {
      assert forall i :: 0 <= i < |d| - 1 ==> d[..|d|-1][i] == d[i];
    }
  }

  function Keys(d: Dict): seq<int> {
    seq(|d|, i requires 0 <= i < |d| => d[i].0)
  }

  /** Setting a key leaves the keys as they stand, or adds it behind them. */
  lemma {:induction false} PutKeepsPlaces(d: Dict, key: int, value: Logprob)
    ensures Keys(Put(d, key, value)) == if key in Keys(d) then Keys(d) else Keys(d) + [key]
    decreases |d|
  {
    if d != [] {
      var rest := d[..|d|-1];
      PutKeepsPlaces(rest, key, value);
      assert Keys(d) == Keys(rest) + [d[|d|-1].0];
      assert HasKey(rest, key) <==> key in Keys(rest) by {
        if HasKey(rest, key) { var i :| 0 <= i < |rest| && rest[i].0 == key; assert Keys(rest)[i] == key; }
        if key in Keys(rest) { var i :| 0 <= i < |rest| && Keys(rest)[i] == key; assert rest[i].0 == key; }
      }
      if d[|d|-1].0 != key && !HasKey(rest, key) { assert Keys(d + [(key, value)]) == Keys(d) + [key]; }
    }
  }

  /** Pairs with distinct keys already are their dictionary. */
  lemma {:induction false} FromDistinct(d: Dict)
    requires DistinctKeys(d)
    ensures FromPairs(d) == d
    decreases |d|
  {
    if d != [] {
      FromDistinct(d[..|d|-1]);
      PutNew(d[..|d|-1], d[|d|-1].0, d[|d|-1].1);
    }
  }

  /** What a key maps to: the value of its last pair. */
  function Lookup(pairs: seq<Pair>, key: int): Option<Logprob> {
    if pairs == [] then None
    else if pairs[|pairs|-1].0 == key then Some(pairs[|pairs|-1].1)
    else Lookup(pairs[..|pairs|-1], key)
  }

  /** One pair more at the end. */
  lemma {:induction false} SnocFacts(d: Dict, pair: Pair)
    ensures forall k :: HasKey(d + [pair], k) <==> HasKey(d, k) || k == pair.0
    ensures forall k :: Lookup(d + [pair], k) == if k == pair.0 then Some(pair.1) else Lookup(d, k)
    ensures DistinctKeys(d + [pair]) <==> DistinctKeys(d) && !HasKey(d, pair.0)
  {
    var whole := d + [pair];
    KeysSplit(whole);
    assert whole[..|d|] == d && forall i :: 0 <= i < |d| ==> whole[i] == d[i];
    if DistinctKeys(whole) {
      assert forall i :: 0 <= i < |d| ==> d[i].0 != whole[|d|].0;
    }
  }

  lemma {:induction false} PutFacts(d: Dict, key: int, value: Logprob)
    requires DistinctKeys(d)
    ensures DistinctKeys(Put(d, key, value))
    ensures forall k :: HasKey(Put(d, key, value), k) <==> HasKey(d, k) || k == key
    ensures forall k :: Lookup(Put(d, key, value), k) == if k == key then Some(value) else Lookup(d, k)
    decreases |d|
  {
    assert !HasKey([], key);
    hide DistinctKeys, HasKey, Lookup;
    if d == [] {
      SnocFacts([], (key, value));
      assert [] + [(key, value)] == [(key, value)];
    } else {
      var n := |d| - 1;
      var rest := d[..n];
      assert d == rest + [d[n]];
      SnocFacts(rest, d[n]);
      if d[n].0 == key {
        SnocFacts(rest, (key, value));
      } else if HasKey(rest, key) {
        PutFacts(rest, key, value);
        SnocFacts(Put(rest, key, value), d[n]);
      } else {
        SnocFacts(d, (key, value));
      }
    }
  }

  lemma {:induction false} KeysSplit(d: Dict)
    requires d != []
    ensures forall k :: HasKey(d, k) <==> HasKey(d[..|d|-1], k) || d[|d|-1].0 == k
  {
    var n := |d| - 1;
    forall k ensures HasKey(d, k) <==> HasKey(d[..n], k) || d[n].0 == k {
      if HasKey(d, k) {
        var i :| 0 <= i < |d| && d[i].0 == k;
        assert i < n ==> d[..n][i].0 == k;
      }
      if HasKey(d[..n], k) {
        var i :| 0 <= i < n && d[..n][i].0 == k;
        assert d[i].0 == k;
      }
    }
  }

  /** Duplicate keys: the dictionary holds each key once, with the value of its last pair. */
  lemma {:induction false} LastValueWins(pairs: seq<Pair>)
    ensures DistinctKeys(FromPairs(pairs))
    ensures forall k :: Lookup(FromPairs(pairs), k) == Lookup(pairs, k)
    decreases |pairs|
  {
    if pairs != [] {
      LastValueWins(pairs[..|pairs|-1]);
      PutFacts(FromPairs(pairs[..|pairs|-1]), pairs[|pairs|-1].0, pairs[|pairs|-1].1);
    }
  }

  lemma {:induction false} PutNotEmpty(d: Dict, key: int, value: Logprob)
    ensures Put(d, key, value) != []
  {
  }

  // ---------------------------------------------------------------- indexing

  /** A list index, counted from the end if negative. */
  function Normal(n: nat, index: int): Option<nat> {
    if 0 <= index < n then Some(index)
    else if 0 <= index + n < n then Some(index + n)
    else None
  }

  function Clamp(x: int, lo: int, hi: int): int {
    if x < lo then lo else if x > hi then hi else x
  }

  /** One bound of a slice for a list of length n. */
  function Bound(n: nat, bound: Option<int>, missing: int, step: int): int {
    var lo, hi := if step > 0 then 0 else -1, if step > 0 then n else n - 1;
    match bound
    case None => missing
    case Some(b) => Clamp(if b < 0 then b + n else b, lo, hi)
  }

  function From(i: int, stop: int, step: int): seq<int>
    requires step != 0
    decreases if step > 0 then stop - i else i - stop
  {
    if (step > 0 && i < stop) || (step < 0 && i > stop) then [i] + From(i + step, stop, step) else []
  }

  datatype Slice = Slice(start: Option<int>, stop: Option<int>, step: int)

  /** The indices a slice selects. */
  function Selected(n: nat, s: Slice): seq<int>
    requires s.step != 0
  {
    From(Bound(n, s.start, if s.step > 0 then 0 else n - 1, s.step),
         Bound(n, s.stop, if s.step > 0 then n else -1, s.step), s.step)
  }

  /** All indices in range, going up or down. */
  ghost predicate Walks(idxs: seq<int>, n: nat, up: bool) {
    && (forall k :: 0 <= k < |idxs| ==> 0 <= idxs[k] < n)
    && (forall j, k :: 0 <= j < k < |idxs| ==> if up then idxs[j] < idxs[k] else idxs[j] > idxs[k])
  }

  lemma {:induction false} FromWalks(i: int, stop: int, step: int, n: nat)
    requires step != 0
    requires if step > 0 then 0 <= i && stop <= n else i < n && -1 <= stop
    ensures Walks(From(i, stop, step), n, step > 0)
    ensures forall k :: 0 <= k < |From(i, stop, step)| ==>
              if step > 0 then i <= From(i, stop, step)[k] else From(i, stop, step)[k] <= i
    decreases if step > 0 then stop - i else i - stop
  {
    if (step > 0 && i < stop) || (step < 0 && i > stop) {
      FromWalks(i + step, stop, step, n);
    }
  }

  lemma {:induction false} SelectedWalks(n: nat, s: Slice)
    requires s.step != 0
    ensures Walks(Selected(n, s), n, s.step > 0)
  {
    FromWalks(Bound(n, s.start, if s.step > 0 then 0 else n - 1, s.step),
              Bound(n, s.stop, if s.step > 0 then n else -1, s.step), s.step, n);
  }

  /** The place a slice bound stands for in a list of n: places are counted from the end if negative,
      and places beyond either end are brought to `first` or `last`. */
  ghost predicate Means(n: nat, bound: Option<int>, missing: int, first: int, last: int, place: int) {
    match bound
    case None => place == missing
    case Some(b) =>
      if b + n < 0 then place == first
      else if b < 0 then place == n + b
      else if b < n then place == b
      else place == last
  }

  ghost predicate WholeSteps(distance: int, step: int)
    requires step > 0
  {
    distance % step == 0
  }

  lemma {:induction false} OneStepLess(distance: int, step: int)
    requires step > 0
    ensures WholeSteps(distance - step, step) <==> WholeSteps(distance, step)
    ensures -step < distance < step ==> (WholeSteps(distance, step) <==> distance == 0)
  {
    DivUnique(distance - step, step, distance / step - 1, distance % step);
    if 0 <= distance < step { DivUnique(distance, step, 0, distance); }
    if -step < distance < 0 { DivUnique(distance, step, -1, distance + step); }
  }

  lemma {:induction false} FromHas(i: int, stop: int, step: int, x: int)
    requires step != 0
    ensures step > 0 ==> (x in From(i, stop, step) <==> i <= x < stop && WholeSteps(x - i, step))
    ensures step < 0 ==> (x in From(i, stop, step) <==> stop < x <= i && WholeSteps(i - x, -step))
    decreases if step > 0 then stop - i else i - stop
  {
    hide WholeSteps;
    if step > 0 { OneStepLess(x - i, step); } else { OneStepLess(i - x, -step); }
    if (step > 0 && i < stop) || (step < 0 && i > stop) {
      FromHas(i + step, stop, step, x);
      if step > 0 {
        assert x - (i + step) == x - i - step;
      } else {
        assert i + step - x == i - x - -step;
      }
    }
  }

  /** Which indices a slice selects: those from `lo` to before `hi` that are whole steps away from `lo`,
      going up or down, where the two bounds mean what they mean for lists. */
  lemma {:induction false} SelectedExactly(n: nat, s: Slice, lo: int, hi: int, i: int)
    requires s.step != 0
    requires if s.step > 0 then Means(n, s.start, 0, 0, n, lo) else Means(n, s.start, n - 1, -1, n - 1, lo)
    requires if s.step > 0 then Means(n, s.stop, n, 0, n, hi) else Means(n, s.stop, -1, -1, n - 1, hi)
    ensures s.step > 0 ==> (i in Selected(n, s) <==> lo <= i < hi && (i - lo) % s.step == 0)
    ensures s.step < 0 ==> (i in Selected(n, s) <==> hi < i <= lo && (lo - i) % -s.step == 0)
    ensures Walks(Selected(n, s), n, s.step > 0)
  {
    FromHas(lo, hi, s.step, i);
    SelectedWalks(n, s);
  }

  /** The last m positions of a list, the way they are usually asked for. */
  lemma {:induction false} LastPositions(n: nat, m: nat)
    requires 0 < m <= n
    ensures Selected(n, Slice(Some(0 - m), None, 1)) == seq(m, k => n - m + k)
  {
    FromIsRange(n - m, n);
  }

  lemma {:induction false} FromIsRange(i: int, stop: int)
    requires i <= stop
    ensures From(i, stop, 1) == seq(stop - i, k => i + k)
    decreases stop - i
  {
    if i < stop { FromIsRange(i + 1, stop); }
  }
}

module FlatLogprobs {
  import opened PyValues
  import opened Wrappers

  datatype Flat = Flat(starts: seq<int>, ends: seq<int>, ids: seq<int>, logprobs: seq<real>,
                       ranks: seq<Option<int>>, tokens: seq<Option<string>>)

  const EMPTY := Flat([], [], [], [], [], [])

  ghost predicate SameLengths(f: Flat) {
    |f.starts| == |f.ends| && |f.ids| == |f.logprobs| == |f.ranks| == |f.tokens|
  }

  /** The ranges of the positions follow each other without overlap, and the last one ends the lists. */
  ghost predicate Valid(f: Flat) {
    && SameLengths(f)
    && (forall i :: 0 <= i < |f.starts| ==> 0 <= f.starts[i] <= f.ends[i] <= |f.ids|)
    && (forall i, j :: 0 <= i < j < |f.starts| ==> f.ends[i] <= f.starts[j])
    && (if f.starts == [] then f.ids == [] else f.ends[|f.ends|-1] == |f.ids|)
  }

  function Items(f: Flat): (items: seq<Pair>)
    requires |f.ids| == |f.logprobs| == |f.ranks| == |f.tokens|
    ensures |items| == |f.ids|
  {
    seq(|f.ids|, i requires 0 <= i < |f.ids| => (f.ids[i], Logprob(f.logprobs[i], f.ranks[i], f.tokens[i])))
  }

  function Position(f: Flat, i: nat): Dict
    requires i < |f.starts| && i < |f.ends| && |f.ids| == |f.logprobs| == |f.ranks| == |f.tokens|
    requires 0 <= f.starts[i] <= f.ends[i] <= |f.ids|
  {
    FromPairs(Items(f)[f.starts[i]..f.ends[i]])
  }

  /** The list of dictionaries a flat container stands for. */
  ghost function Abs(f: Flat): seq<Dict>
    requires Valid(f)
  {
    seq(|f.starts|, i requires 0 <= i < |f.starts| => Position(f, i))
  }

  // ---------------------------------------------------------------- appending

  function PushItem(f: Flat, item: Pair): Flat {
    f.(ids := f.ids + [item.0], logprobs := f.logprobs + [item.1.logprob],
       ranks := f.ranks + [item.1.rank], tokens := f.tokens + [item.1.token])
  }

  function PushItems(f: Flat, items: seq<Pair>): Flat {
    if items == [] then f else PushItem(PushItems(f, items[..|items|-1]), items[|items|-1])
  }

  /** The items of one more position at the end. */
  function AppendItems(f: Flat, items: seq<Pair>): Flat {
    var pushed := PushItems(f.(starts := f.starts + [|f.logprobs|]), items);
    pushed.(ends := pushed.ends + [|pushed.logprobs|])
  }

  lemma {:induction false} PushFacts(f: Flat, items: seq<Pair>)
    requires |f.ids| == |f.logprobs| == |f.ranks| == |f.tokens|
    ensures var p := PushItems(f, items);
            && p.starts == f.starts && p.ends == f.ends
            && |p.ids| == |p.logprobs| == |p.ranks| == |p.tokens| == |f.ids| + |items|
            && Items(p) == Items(f) + items
    decreases |items|
  {
    if items != [] {
      PushFacts(f, items[..|items|-1]);
      var q := PushItems(f, items[..|items|-1]);
      assert Items(PushItem(q, items[|items|-1])) == Items(q) + [items[|items|-1]];
      assert items[..|items|-1] + [items[|items|-1]] == items;
    }
  }

  lemma {:induction false} AppendShape(f: Flat, items: seq<Pair>)
    requires SameLengths(f)
    ensures var r := AppendItems(f, items);
            && SameLengths(r) && |r.ids| == |f.ids| + |items| && Items(r) == Items(f) + items
            && r.starts == f.starts + [|f.ids|] && r.ends == f.ends + [|f.ids| + |items|]
  {
    var f1 := f.(starts := f.starts + [|f.logprobs|]);
    PushFacts(f1, items);
    assert Items(f1) == Items(f);
    assert Items(AppendItems(f, items)) == Items(PushItems(f1, items));
  }

  /** Appending refines appending a dictionary built from the items. */
  lemma {:induction false} AppendRefines(f: Flat, items: seq<Pair>)
    requires Valid(f)
    ensures Valid(AppendItems(f, items)) && Abs(AppendItems(f, items)) == Abs(f) + [FromPairs(items)]
  {
    hide AppendItems, FromPairs, Items;
    AppendShape(f, items);
    var r, n := AppendItems(f, items), |f.starts|;
    assert Valid(r);
    forall i | 0 <= i < n ensures Position(r, i) == Position(f, i) {
      assert Items(r)[r.starts[i]..r.ends[i]] == Items(f)[f.starts[i]..f.ends[i]];
    }
    assert Items(r)[r.starts[n]..r.ends[n]] == items;
  }

  // ---------------------------------------------------------------- reading

  /** Read the items lo to hi of the lists, each by its own list index. */
  function ReadItems(f: Flat, lo: int, hi: int): Result<seq<Pair>>
    requires |f.ids| == |f.logprobs| == |f.ranks| == |f.tokens|
    decreases hi - lo
  {
    if hi <= lo then Ok([])
    else
      var before, at := ReadItems(f, lo, hi - 1), Normal(|f.ids|, hi - 1);
      if before.Ok? && at.Some? then Ok(before.value + [Items(f)[at.value]]) else IndexError
  }

  /** One position as a dictionary. */
  function GetItem(f: Flat, index: int): Result<Dict>
    requires SameLengths(f)
  {
    var at := Normal(|f.starts|, index);
    if at.None? then IndexError
    else
      var items := ReadItems(f, f.starts[at.value], f.ends[at.value]);
      if items.Ok? then Ok(FromPairs(items.value)) else IndexError
  }

  lemma {:induction false} ReadInRange(f: Flat, lo: nat, hi: nat)
    requires |f.ids| == |f.logprobs| == |f.ranks| == |f.tokens| && lo <= hi <= |f.ids|
    ensures ReadItems(f, lo, hi) == Ok(Items(f)[lo..hi])
    decreases hi - lo
  {
    if lo == hi {
      assert Items(f)[lo..hi] == [];
    } else {
      ReadInRange(f, lo, hi - 1);
      assert Items(f)[lo..hi-1] + [Items(f)[hi-1]] == Items(f)[lo..hi];
    }
  }

  /** Reading refines reading the list, negative indices and errors included. */
  lemma {:induction false} GetItemRefines(f: Flat, index: int)
    requires Valid(f)
    ensures GetItem(f, index) ==
            var n := |Abs(f)|;
            if 0 <= index < n then Ok(Abs(f)[index])
            else if 0 <= n + index < n then Ok(Abs(f)[n + index])
            else IndexError
  {
    var at := Normal(|f.starts|, index);
    if at.Some? { ReadInRange(f, f.starts[at.value], f.ends[at.value]); }
  }

  // ---------------------------------------------------------------- slicing

  /** A list slice by two bounds, empty when they cross. */
  function Cut<T>(xs: seq<T>, lo: int, hi: int): seq<T>
    requires 0 <= lo && 0 <= hi <= |xs|
  {
    if lo <= hi then xs[lo..hi] else []
  }

  function Pick(xs: seq<int>, idxs: seq<int>, shift: int): seq<int>
    requires forall k :: 0 <= k < |idxs| ==> 0 <= idxs[k] < |xs|
  {
    seq(|idxs|, k requires 0 <= k < |idxs| => xs[idxs[k]] - shift)
  }

  /** The slice of the container for a non-empty list of indices. */
  function SliceAt(f: Flat, idxs: seq<int>): Flat
    requires Valid(f) && idxs != [] && forall k :: 0 <= k < |idxs| ==> 0 <= idxs[k] < |f.starts|
  {
    var lo, hi := f.starts[idxs[0]], f.ends[idxs[|idxs|-1]];
    Flat(Pick(f.starts, idxs, lo), Pick(f.ends, idxs, lo),
         Cut(f.ids, lo, hi), Cut(f.logprobs, lo, hi), Cut(f.ranks, lo, hi), Cut(f.tokens, lo, hi))
  }

  /** The same indices of the plain list. */
  ghost function PickAll(ds: seq<Dict>, idxs: seq<int>): seq<Dict>
    requires forall k :: 0 <= k < |idxs| ==> 0 <= idxs[k] < |ds|
  {
    seq(|idxs|, k requires 0 <= k < |idxs| => ds[idxs[k]])
  }

  function GetSlice(f: Flat, s: Slice): (r: Result<Flat>)
    requires Valid(f)
  {
    if s.step == 0 then ValueError
    else
      SelectedWalks(|f.starts|, s);
      var idxs := Selected(|f.starts|, s);
      if idxs == [] then IndexError else Ok(SliceAt(f, idxs))
  }

  lemma {:induction false} SliceShape(f: Flat, idxs: seq<int>)
    requires Valid(f) && idxs != [] && forall k :: 0 <= k < |idxs| ==> 0 <= idxs[k] < |f.starts|
    ensures var r, lo, hi := SliceAt(f, idxs), f.starts[idxs[0]], f.ends[idxs[|idxs|-1]];
            && SameLengths(r) && |r.starts| == |idxs|
            && (forall k :: 0 <= k < |idxs| ==>
                  r.starts[k] == f.starts[idxs[k]] - lo && r.ends[k] == f.ends[idxs[k]] - lo)
            && Items(r) == Cut(Items(f), lo, hi)
  {
    var r, lo, hi := SliceAt(f, idxs), f.starts[idxs[0]], f.ends[idxs[|idxs|-1]];
    if lo <= hi { assert Items(r) == Items(f)[lo..hi]; }
  }

  lemma {:induction false} SubSlice<T>(xs: seq<T>, lo: int, hi: int, a: int, b: int)
    requires 0 <= lo <= a <= b <= hi <= |xs|
    ensures xs[lo..hi][a-lo..b-lo] == xs[a..b]
  {
    var part := xs[lo..hi];
    assert forall k :: 0 <= k < b - a ==> part[a-lo..b-lo][k] == part[a-lo+k] == xs[a+k] == xs[a..b][k];
  }

  lemma {:induction false} SliceUpRange(f: Flat, idxs: seq<int>, k: nat)
    requires Valid(f) && k < |idxs| && Walks(idxs, |f.starts|, true)
    ensures f.starts[idxs[0]] <= f.starts[idxs[k]] <= f.ends[idxs[k]] <= f.ends[idxs[|idxs|-1]]
  {
    InOrder(f, idxs[0], idxs[k]);
    InOrder(f, idxs[k], idxs[|idxs|-1]);
  }

  lemma {:induction false} SliceUpValid(f: Flat, idxs: seq<int>)
    requires Valid(f) && idxs != [] && Walks(idxs, |f.starts|, true)
    ensures Valid(SliceAt(f, idxs))
  {
    hide SliceAt, Items;
    SliceShape(f, idxs);
    var r, m := SliceAt(f, idxs), |idxs|;
    SliceUpRange(f, idxs, 0);
    forall k | 0 <= k < m ensures 0 <= r.starts[k] <= r.ends[k] <= |r.ids| {
      SliceUpRange(f, idxs, k);
    }
  }

  lemma {:induction false} CutPosition(f: Flat, r: Flat, lo: int, hi: int, i: nat, k: nat)
    requires SameLengths(f) && SameLengths(r) && i < |f.starts| && k < |r.starts|
    requires r.starts[k] == f.starts[i] - lo && r.ends[k] == f.ends[i] - lo
    requires 0 <= lo <= f.starts[i] <= f.ends[i] <= hi <= |f.ids| && Items(r) == Cut(Items(f), lo, hi)
    ensures r.ends[k] <= |r.ids| && Position(r, k) == Position(f, i)
  {
    hide Items, FromPairs;
    SubSlice(Items(f), lo, hi, f.starts[i], f.ends[i]);
  }

  lemma {:induction false} SlicePosition(f: Flat, idxs: seq<int>, k: nat)
    requires Valid(f) && k < |idxs| && Walks(idxs, |f.starts|, true) && Valid(SliceAt(f, idxs))
    requires |SliceAt(f, idxs).starts| == |idxs|
    ensures Position(SliceAt(f, idxs), k) == Position(f, idxs[k])
  {
    hide SliceAt, Items, FromPairs, Position, Cut;
    SliceShape(f, idxs);
    SliceUpRange(f, idxs, k);
    InBounds(f, idxs[0]);
    InBounds(f, idxs[|idxs|-1]);
    CutPosition(f, SliceAt(f, idxs), f.starts[idxs[0]], f.ends[idxs[|idxs|-1]], idxs[k], k);
  }

  /** Slicing upwards refines slicing the list; the result is again a valid container. */
  lemma {:induction false} SliceUpRefines(f: Flat, idxs: seq<int>)
    requires Valid(f) && idxs != [] && Walks(idxs, |f.starts|, true)
    ensures Valid(SliceAt(f, idxs)) && Abs(SliceAt(f, idxs)) == PickAll(Abs(f), idxs)
  {
    SliceUpValid(f, idxs);
    hide Items, Position;
    forall k | 0 <= k < |idxs| ensures Abs(SliceAt(f, idxs))[k] == Abs(f)[idxs[k]] {
      SlicePosition(f, idxs, k);
    }
  }

  lemma {:induction false} InBounds(f: Flat, i: nat)
    requires Valid(f) && i < |f.starts|
    ensures 0 <= f.starts[i] <= f.ends[i] <= |f.ids|
  {
  }

  lemma {:induction false} InOrder(f: Flat, i: int, j: int)
    requires Valid(f) && 0 <= i <= j < |f.starts|
    ensures f.starts[i] <= f.starts[j] && f.ends[i] <= f.ends[j] && f.starts[i] <= f.ends[i]
  {
  }

  lemma {:induction false} FromPairsEmpty(pairs: seq<Pair>)
    ensures FromPairs(pairs) == [] <==> pairs == []
  {
    if pairs != [] { PutNotEmpty(FromPairs(pairs[..|pairs|-1]), pairs[|pairs|-1].0, pairs[|pairs|-1].1); }
  }

  /** The slice reads back as the chosen positions of the list. */
  ghost predicate ReadsBack(f: Flat, idxs: seq<int>)
    requires Valid(f) && idxs != [] && forall k :: 0 <= k < |idxs| ==> 0 <= idxs[k] < |f.starts|
  {
    SliceShape(f, idxs);
    forall k :: 0 <= k < |idxs| ==> GetItem(SliceAt(f, idxs), k) == Ok(Abs(f)[idxs[k]])
  }

  lemma {:induction false} SliceUpReadsBack(f: Flat, idxs: seq<int>)
    requires Valid(f) && idxs != [] && Walks(idxs, |f.starts|, true)
    ensures ReadsBack(f, idxs)
  {
    SliceUpRefines(f, idxs);
    SliceShape(f, idxs);
    hide SliceAt, GetItem, Position;
    forall k | 0 <= k < |idxs| ensures GetItem(SliceAt(f, idxs), k) == Ok(Abs(f)[idxs[k]]) {
      GetItemRefines(SliceAt(f, idxs), k);
    }
  }

  /** With the bounds crossed nothing is left to read, so a chosen position comes back just when it is empty. */
  lemma {:induction false} DownReads(f: Flat, idxs: seq<int>, k: nat)
    requires Valid(f) && |idxs| >= 2 && Walks(idxs, |f.starts|, false) && k < |idxs|
    ensures SameLengths(SliceAt(f, idxs))
    ensures GetItem(SliceAt(f, idxs), k) == Ok(Abs(f)[idxs[k]]) <==> Abs(f)[idxs[k]] == []
  {
    hide FromPairs;
    SliceShape(f, idxs);
    var r, i := SliceAt(f, idxs), idxs[k];
    assert f.ends[idxs[|idxs|-1]] <= f.starts[idxs[0]];
    assert |Items(r)| == 0 && |r.ids| == 0;
    FromPairsEmpty(Items(f)[f.starts[i]..f.ends[i]]);
    FromPairsEmpty([]);
    assert GetItem(r, k) == if f.ends[i] <= f.starts[i] then Ok(FromPairs([])) else IndexError;
  }

  /** Slicing downwards is right exactly when one position is chosen or all chosen ones are empty. */
  lemma {:induction false} SliceDownExact(f: Flat, idxs: seq<int>)
    requires Valid(f) && idxs != [] && Walks(idxs, |f.starts|, false)
    ensures ReadsBack(f, idxs) <==> |idxs| == 1 || forall k :: 0 <= k < |idxs| ==> Abs(f)[idxs[k]] == []
  {
    hide SliceAt, GetItem, Position;
    if |idxs| == 1 {
      SliceUpReadsBack(f, idxs);
    } else {
      forall k | 0 <= k < |idxs|
        ensures SameLengths(SliceAt(f, idxs))
        ensures GetItem(SliceAt(f, idxs), k) == Ok(Abs(f)[idxs[k]]) <==> Abs(f)[idxs[k]] == []
      {
        DownReads(f, idxs, k);
      }
    }
  }

  /** A slice of the container agrees with the slice of the list exactly when it chooses something
      and goes up, or chooses one position, or only empty ones. A slice that chooses nothing raises an
      error where the list would give an empty list. */
  lemma {:induction false} SliceAgreesExactly(f: Flat, s: Slice)
    requires Valid(f) && s.step != 0
    ensures var idxs := Selected(|f.starts|, s);
            && Walks(idxs, |f.starts|, s.step > 0)
            && (idxs == [] <==> GetSlice(f, s) == IndexError)
            && (idxs != [] ==> GetSlice(f, s) == Ok(SliceAt(f, idxs)))
            && (idxs != [] ==>
                  (ReadsBack(f, idxs) <==>
                   s.step > 0 || |idxs| == 1 || forall k :: 0 <= k < |idxs| ==> Abs(f)[idxs[k]] == []))
  {
    hide Selected, SliceAt, Position;
    SelectedWalks(|f.starts|, s);
    var idxs := Selected(|f.starts|, s);
    if idxs != [] {
      if s.step > 0 { SliceUpReadsBack(f, idxs); } else { SliceDownExact(f, idxs); }
    }
  }

  // ---------------------------------------------------------------- whole runs

  /** What is appended for a position: a missing dictionary reads as an empty one. */
  function ItemsOf(d: Option<Dict>): Dict {
    if d.Some? then d.value else []
  }

  function Shortest(a: nat, b: nat, c: nat, d: nat): nat {
    var ab, cd := if a <= b then a else b, if c <= d then c else d;
    if ab <= cd then ab else cd
  }

  /** Four columns side by side, as long as the shortest. */
  function Zip(ids: seq<int>, logprobs: seq<real>, ranks: seq<int>, tokens: seq<Option<string>>): seq<Pair> {
    var n := Shortest(|ids|, |logprobs|, |ranks|, |tokens|);
    seq(n, i requires 0 <= i < n => (ids[i], Logprob(logprobs[i], Some(ranks[i]), tokens[i])))
  }

  function ExtendAll(f: Flat, ds: seq<Option<Dict>>): Flat {
    if ds == [] then f else AppendItems(ExtendAll(f, ds[..|ds|-1]), ItemsOf(ds[|ds|-1]))
  }

  datatype Op =
    | Append(d: Option<Dict>)
    | AppendFast(ids: seq<int>, logprobs: seq<real>, ranks: seq<int>, tokens: seq<Option<string>>)
    | Extend(ds: seq<Option<Dict>>)
    | Take(s: Slice)

  ghost predicate Dictionary(d: Option<Dict>) {
    d.Some? ==> DistinctKeys(d.value)
  }

  /** The operation on the list of dictionaries, if it is one the container supports: a slice must go
      up and choose something. */
  ghost function OnList(list: seq<Dict>, op: Op): Option<seq<Dict>> {
    match op
    case Append(d) => if Dictionary(d) then Some(list + [if d.Some? then d.value else []]) else None
    case AppendFast(ids, logprobs, ranks, tokens) => Some(list + [FromPairs(Zip(ids, logprobs, ranks, tokens))])
    case Extend(ds) =>
      if forall i :: 0 <= i < |ds| ==> Dictionary(ds[i])
      then Some(list + seq(|ds|, i requires 0 <= i < |ds| => if ds[i].Some? then ds[i].value else [])) else None
    case Take(s) =>
      if s.step <= 0 || Selected(|list|, s) == [] then None
      else
        SelectedWalks(|list|, s);
        Some(PickAll(list, Selected(|list|, s)))
  }

  /** The operation on the container. */
  function OnFlat(f: Flat, op: Op): Result<Flat>
    requires Valid(f)
  {
    match op
    case Append(d) => Ok(AppendItems(f, ItemsOf(d)))
    case AppendFast(ids, logprobs, ranks, tokens) => Ok(AppendItems(f, Zip(ids, logprobs, ranks, tokens)))
    case Extend(ds) => Ok(ExtendAll(f, ds))
    case Take(s) => GetSlice(f, s)
  }

  lemma {:induction false} ExtendRefines(f: Flat, ds: seq<Option<Dict>>)
    requires Valid(f) && forall i :: 0 <= i < |ds| ==> Dictionary(ds[i])
    ensures Valid(ExtendAll(f, ds))
    ensures Abs(ExtendAll(f, ds)) == Abs(f) + seq(|ds|, i requires 0 <= i < |ds| => ItemsOf(ds[i]))
    decreases |ds|
  {
    hide AppendItems, Valid, Abs, FromPairs, DistinctKeys;
    if ds != [] {
      var n := |ds| - 1;
      ExtendRefines(f, ds[..n]);
      AppendRefines(ExtendAll(f, ds[..n]), ItemsOf(ds[n]));
      FromItems(ds[n]);
      assert seq(n + 1, i requires 0 <= i < n + 1 => ItemsOf(ds[i])) ==
             seq(n, i requires 0 <= i < n => ItemsOf(ds[..n][i])) + [ItemsOf(ds[n])];
    }
  }

  lemma {:induction false} FromItems(d: Option<Dict>)
    requires Dictionary(d)
    ensures FromPairs(ItemsOf(d)) == ItemsOf(d)
  {
    FromDistinct(ItemsOf(d));
  }

  /** One operation on the container does what it does on the list. */
  lemma {:induction false} OpRefines(f: Flat, op: Op)
    requires Valid(f) && OnList(Abs(f), op).Some?
    ensures OnFlat(f, op).Ok? && Valid(OnFlat(f, op).value) && Abs(OnFlat(f, op).value) == OnList(Abs(f), op).value
  {
    hide AppendItems, Selected, SliceAt, FromPairs, Position, ExtendAll, DistinctKeys;
    match op
    case Append(d) =>
      AppendRefines(f, ItemsOf(d));
      FromItems(d);
    case AppendFast(ids, logprobs, ranks, tokens) =>
      AppendRefines(f, Zip(ids, logprobs, ranks, tokens));
    case Extend(ds) =>
      ExtendRefines(f, ds);
    case Take(s) =>
      SelectedWalks(|f.starts|, s);
      SliceUpRefines(f, Selected(|f.starts|, s));
  }

  ghost function RunList(list: seq<Dict>, ops: seq<Op>): Option<seq<Dict>>
    decreases |ops|
  {
    if ops == [] then Some(list)
    else
      var next := OnList(list, ops[0]);
      if next.None? then None else RunList(next.value, ops[1..])
  }

  /** The container reached by the operations. */
  ghost predicate RunFlat(f: Flat, ops: seq<Op>, g: Flat)
    decreases |ops|
  {
    if ops == [] then f == g
    else Valid(f) && OnFlat(f, ops[0]).Ok? && RunFlat(OnFlat(f, ops[0]).value, ops[1..], g)
  }

  /** Any run of appends, fast appends, extends and upward slices, slices of slices included, keeps
      the container equal to the list of dictionaries. */
  lemma {:induction false} RunRefines(f: Flat, ops: seq<Op>) returns (g: Flat)
    requires Valid(f) && RunList(Abs(f), ops).Some?
    ensures RunFlat(f, ops, g) && Valid(g) && Abs(g) == RunList(Abs(f), ops).value
    decreases |ops|
  {
    hide OnFlat, OnList, Abs, Valid;
    if ops == [] {
      g := f;
    } else {
      OpRefines(f, ops[0]);
      g := RunRefines(OnFlat(f, ops[0]).value, ops[1..]);
    }
  }

  // ---------------------------------------------------------------- the next position

  /** The rank of the sampled token, then 1, 2, 3 and so on. */
  function Ranks(rank: int, count: int): seq<int> {
    [rank] + seq(if count > 0 then count else 0, i => i + 1)
  }

  /** The columns of the next position; -1 asks for as many ranks as there are log-probabilities. */
  function NextItems(ids: seq<int>, logprobs: seq<real>, tokens: seq<Option<string>>, rank: int,
                     count: int): seq<Pair> {
    Zip(ids, logprobs, Ranks(rank, if count == -1 then |logprobs| else count), tokens)
  }

  /** Column k of the next position: the sampled token with its own rank first, then the tokens of
      rank 1, 2, 3 and so on, as far as all columns and the wanted number reach. */
  lemma {:induction false} NextItemsAre(ids: seq<int>, logprobs: seq<real>, tokens: seq<Option<string>>, rank: int,
                                        count: int, k: nat)
    ensures var items := NextItems(ids, logprobs, tokens, rank, count);
            var wanted := if count == -1 then |logprobs| else count;
            && (k < |items| <==> k < |ids| && k < |logprobs| && k < |tokens| && (k == 0 || k <= wanted))
            && (k < |items| ==> items[k] == (ids[k], Logprob(logprobs[k], Some(if k == 0 then rank else k), tokens[k])))
  {
    var wanted := if count == -1 then |logprobs| else count;
    assert |Ranks(rank, wanted)| == 1 + if wanted > 0 then wanted else 0;
  }

  /** Both kinds of container get the same next position: each token once, with the log-probability
      and rank of its last column. */
  lemma {:induction false} NextPositionAgrees(f: Flat, ids: seq<int>, logprobs: seq<real>, tokens: seq<Option<string>>,
                                              rank: int, count: int)
    requires Valid(f)
    ensures var items := NextItems(ids, logprobs, tokens, rank, count);
            var r := AppendItems(f, items);
            && Valid(r) && Abs(r) == Abs(f) + [FromPairs(items)] && DistinctKeys(FromPairs(items))
            && (forall k :: Lookup(FromPairs(items), k) == Lookup(items, k))
  {
    var items := NextItems(ids, logprobs, tokens, rank, count);
    AppendRefines(f, items);
    LastValueWins(items);
  }

  // ---------------------------------------------------------------- the container itself

  class Container {
    var starts: seq<int>
    var ends: seq<int>
    var ids: seq<int>
    var logprobs: seq<real>
    var ranks: seq<Option<int>>
    var tokens: seq<Option<string>>

    function View(): Flat
      reads this
    {
      Flat(starts, ends, ids, logprobs, ranks, tokens)
    }

    constructor (f: Flat)
      ensures View() == f
    {
      starts, ends, ids, logprobs, ranks, tokens := f.starts, f.ends, f.ids, f.logprobs, f.ranks, f.tokens;
    }

    method Append(d: Option<Dict>)
      modifies this
      ensures View() == AppendItems(old(View()), ItemsOf(d))
    {
      starts := starts + [|logprobs|];
      ghost var f := View();
      if d.Some? && d.value != [] {
        for i := 0 to |d.value|
          invariant View() == PushItems(f, d.value[..i])
        {
          ids := ids + [d.value[i].0];
          logprobs := logprobs + [d.value[i].1.logprob];
          ranks := ranks + [d.value[i].1.rank];
          tokens := tokens + [d.value[i].1.token];
          assert d.value[..i+1][..i] == d.value[..i];
        }
        assert d.value[..|d.value|] == d.value;
      }
      ends := ends + [|logprobs|];
    }

    method AppendFast(ids': seq<int>, logprobs': seq<real>, ranks': seq<int>, tokens': seq<Option<string>>)
      modifies this
      ensures View() == AppendItems(old(View()), Zip(ids', logprobs', ranks', tokens'))
    {
      starts := starts + [|logprobs|];
      ghost var f, items := View(), Zip(ids', logprobs', ranks', tokens');
      var i := 0;
      assert items[..0] == [];
      while i < |ids'| && i < |logprobs'| && i < |ranks'| && i < |tokens'|
        invariant i <= |items| && View() == PushItems(f, items[..i])
      {
        ids := ids + [ids'[i]];
        logprobs := logprobs + [logprobs'[i]];
        ranks := ranks + [Some(ranks'[i])];
        tokens := tokens + [tokens'[i]];
        assert items[..i+1][..i] == items[..i];
        i := i + 1;
      }
      assert items[..i] == items;
      ends := ends + [|logprobs|];
    }

    method Extend(ds: seq<Option<Dict>>)
      modifies this
      ensures View() == ExtendAll(old(View()), ds)
    {
      for i := 0 to |ds|
        invariant View() == ExtendAll(old(View()), ds[..i])
      {
        Append(ds[i]);
        assert ds[..i+1][..i] == ds[..i];
      }
      assert ds[..|ds|] == ds;
    }

    method AppendForNextPosition(ids': seq<int>, logprobs': seq<real>, tokens': seq<Option<string>>, rank: int,
                                 count: int)
      modifies this
      ensures View() == AppendItems(old(View()), NextItems(ids', logprobs', tokens', rank, count))
    {
      var n := if count == -1 then |logprobs'| else count;
      AppendFast(ids', logprobs', Ranks(rank, n), tokens');
    }

    /** One position, by its index from either end. */
    method At(index: int) returns (r: Result<Dict>)
      requires Valid(View())
      ensures r == GetItem(View(), index)
      ensures r == var list := Abs(View());
                   if 0 <= index < |list| then Ok(list[index])
                   else if 0 <= |list| + index < |list| then Ok(list[|list| + index])
                   else IndexError
    {
      GetItemRefines(View(), index);
      r := GetItem(View(), index);
    }

    /** A new container for the slice. It agrees with the slice of the list exactly in the cases stated:
        something is selected, and the slice goes up, or selects one position, or only empty ones. */
    method SliceOf(s: Slice) returns (r: Result<Container>)
      requires Valid(View())
      ensures r.ValueError? <==> s.step == 0
      ensures r.IndexError? <==> s.step != 0 && Selected(|Abs(View())|, s) == []
      ensures r.Ok? ==>
                var idxs := Selected(|starts|, s);
                && fresh(r.value) && idxs != [] && Walks(idxs, |starts|, s.step > 0)
                && r.value.View() == SliceAt(View(), idxs)
                && (s.step > 0 ==> Valid(r.value.View()) && Abs(r.value.View()) == PickAll(Abs(View()), idxs))
                && (ReadsBack(View(), idxs) <==>
                    s.step > 0 || |idxs| == 1 || forall k :: 0 <= k < |idxs| ==> Abs(View())[idxs[k]] == [])
    {
      hide Selected, SliceAt, Position;
      var f := GetSlice(View(), s);
      if s.step != 0 {
        SliceAgreesExactly(View(), s);
        if s.step > 0 && f.Ok? { SliceUpRefines(View(), Selected(|starts|, s)); }
      }
      if f.Ok? {
        var c := new Container(f.value);
        r := Ok(c);
      } else {
        r := if s.step == 0 then ValueError else IndexError;
      }
    }

    /** All positions in order. */
    method Iterate() returns (ds: seq<Dict>)
      requires Valid(View())
      ensures ds == Abs(View())
    {
      ds := [];
      for i := 0 to |starts|
        invariant ds == Abs(View())[..i]
      {
        GetItemRefines(View(), i);
        ds := ds + [GetItem(View(), i).value];
      }
    }
  }
}
