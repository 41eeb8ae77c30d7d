/** The build-time report: sweeping over task starts and stops, sharing every moment fairly between
    the tasks that run, and picking one build out of a log. Seconds are real numbers. */
module FairShare {

  datatype Task = Task(start: real, end: real)

  // ---------------------------------------------------------------- the reference: gaps between points

  ghost predicate Ascending(points: seq<real>) {
    forall i, j :: 0 <= i <= j < |points| ==> points[i] <= points[j]
  }

  ghost predicate Covers(t: Task, a: real, b: real) {
    t.start <= a && b <= t.end
  }

  /** How many of the first n tasks run all through the gap. */
  ghost function Count(tasks: seq<Task>, n: nat, a: real, b: real): nat
    requires n <= |tasks|
  {
    if n == 0 then 0 else Count(tasks, n - 1, a, b) + if Covers(tasks[n-1], a, b) then 1 else 0
  }

  /** What one task gets of the gap: an equal part if it runs. */
  ghost function Part(tasks: seq<Task>, i: nat, a: real, b: real): real
    requires i < |tasks|
  {
    if a < b && Covers(tasks[i], a, b) then
      CoversCounted(tasks, |tasks|, i, a, b);
      (b - a) / (Count(tasks, |tasks|, a, b) as real)
    else 0.0
  }

  lemma {:induction false} CoversCounted(tasks: seq<Task>, n: nat, i: nat, a: real, b: real)
    requires i < n <= |tasks| && Covers(tasks[i], a, b)
    ensures Count(tasks, n, a, b) >= 1
  {
    if i < n - 1 { CoversCounted(tasks, n - 1, i, a, b); }
  }

  lemma {:induction false} CountedCovers(tasks: seq<Task>, n: nat, a: real, b: real)
    requires n <= |tasks| && Count(tasks, n, a, b) >= 1
    ensures exists i :: 0 <= i < n && Covers(tasks[i], a, b)
  {
    if !Covers(tasks[n-1], a, b) { CountedCovers(tasks, n - 1, a, b); }
  }

  /** A task's fair share of the time spanned by the points. */
  ghost function Share(points: seq<real>, tasks: seq<Task>, i: nat): real
    requires i < |tasks|
  {
    if |points| < 2 then 0.0
    else Share(points[..|points|-1], tasks, i) + Part(tasks, i, points[|points|-2], points[|points|-1])
  }

  /** The time spanned by the points during which some task runs: with all starts and ends among the
      points, the length of the union of the tasks. */
  ghost function Covered(points: seq<real>, tasks: seq<Task>): real {
    if |points| < 2 then 0.0
    else
      var a, b := points[|points|-2], points[|points|-1];
      Covered(points[..|points|-1], tasks) + if a < b && Count(tasks, |tasks|, a, b) > 0 then b - a else 0.0
  }

  ghost function SumShares(points: seq<real>, tasks: seq<Task>, n: nat): real
    requires n <= |tasks|
  {
    if n == 0 then 0.0 else SumShares(points, tasks, n - 1) + Share(points, tasks, n - 1)
  }

  ghost function SumParts(tasks: seq<Task>, n: nat, a: real, b: real): real
    requires n <= |tasks|
  {
    if n == 0 then 0.0 else SumParts(tasks, n - 1, a, b) + Part(tasks, n - 1, a, b)
  }

  /** The parts of a gap add up to the gap. */
  lemma {:induction false} PartsAddUp(tasks: seq<Task>, n: nat, a: real, b: real)
    requires n <= |tasks| && a < b && Count(tasks, |tasks|, a, b) > 0
    ensures SumParts(tasks, n, a, b) ==
            Count(tasks, n, a, b) as real * ((b - a) / (Count(tasks, |tasks|, a, b) as real))
  {
    if n > 0 {
      PartsAddUp(tasks, n - 1, a, b);
      var d := (b - a) / (Count(tasks, |tasks|, a, b) as real);
      Distribute(Count(tasks, n - 1, a, b), d);
    }
  }

  lemma {:induction false} Distribute(c: nat, d: real)
    ensures (c + 1) as real * d == c as real * d + d
  {
  }

  lemma {:induction false} NoParts(tasks: seq<Task>, n: nat, a: real, b: real)
    requires n <= |tasks| && !(a < b && Count(tasks, |tasks|, a, b) > 0)
    ensures SumParts(tasks, n, a, b) == 0.0
  {
    if n > 0 {
      NoParts(tasks, n - 1, a, b);
      if a < b && Covers(tasks[n-1], a, b) { CoversCounted(tasks, |tasks|, n - 1, a, b); }
    }
  }

  lemma {:induction false} Cancel(x: real, c: nat)
    requires c > 0
    ensures c as real * (x / c as real) == x
  {
  }

  lemma {:induction false} SharesByGap(points: seq<real>, tasks: seq<Task>, n: nat)
    requires n <= |tasks| && |points| >= 2
    ensures SumShares(points, tasks, n) ==
            SumShares(points[..|points|-1], tasks, n) + SumParts(tasks, n, points[|points|-2], points[|points|-1])
  {
    if n > 0 { SharesByGap(points, tasks, n - 1); }
  }

  lemma {:induction false} NoShares(points: seq<real>, tasks: seq<Task>, n: nat)
    requires n <= |tasks| && |points| < 2
    ensures SumShares(points, tasks, n) == 0.0
  {
    if n > 0 { NoShares(points, tasks, n - 1); }
  }

  /** Fair shares add up to exactly the covered time: the sum by task equals the sum by gap. */
  lemma {:induction false} SharesAddUp(points: seq<real>, tasks: seq<Task>)
    ensures SumShares(points, tasks, |tasks|) == Covered(points, tasks)
    decreases |points|
  {
    if |points| < 2 {
      NoShares(points, tasks, |tasks|);
    } else {
      var a, b := points[|points|-2], points[|points|-1];
      SharesByGap(points, tasks, |tasks|);
      SharesAddUp(points[..|points|-1], tasks);
      if a < b && Count(tasks, |tasks|, a, b) > 0 {
        PartsAddUp(tasks, |tasks|, a, b);
        Cancel(b - a, Count(tasks, |tasks|, a, b));
      } else {
        NoParts(tasks, |tasks|, a, b);
      }
    }
  }

  // ---------------------------------------------------------------- what shares and covered time are

  function Max(x: real, y: real): real { if x >= y then x else y }
  function Min(x: real, y: real): real { if x <= y then x else y }

  lemma {:induction false} PartBounds(tasks: seq<Task>, i: nat, a: real, b: real)
    requires i < |tasks| && a <= b
    ensures 0.0 <= Part(tasks, i, a, b) <= b - a
  {
    if a < b && Covers(tasks[i], a, b) {
      CoversCounted(tasks, |tasks|, i, a, b);
      DivideDown(b - a, Count(tasks, |tasks|, a, b));
    }
  }

  lemma {:induction false} DivideDown(x: real, c: nat)
    requires c >= 1 && x >= 0.0
    ensures 0.0 <= x / c as real <= x
  {
    assert x / c as real * c as real == x;
  }

  /** Nothing is shared out to a task before it starts or after it ends: up to a point p its share is at most the
      part of its own duration up to p. */
  lemma {:induction false} ShareBounds(points: seq<real>, tasks: seq<Task>, i: nat)
    requires Ascending(points) && i < |tasks| && points != []
    ensures 0.0 <= Share(points, tasks, i) <= Max(0.0, Min(points[|points|-1], tasks[i].end) - tasks[i].start)
    decreases |points|
  {
    if |points| >= 2 {
      var a, b := points[|points|-2], points[|points|-1];
      assert a <= b;
      ShareBounds(points[..|points|-1], tasks, i);
      PartBounds(tasks, i, a, b);
    }
  }

  lemma {:induction false} CoveredBounds(points: seq<real>, tasks: seq<Task>)
    requires Ascending(points) && points != []
    ensures 0.0 <= Covered(points, tasks) <= points[|points|-1] - points[0]
    decreases |points|
  {
    if |points| >= 2 {
      var a, b := points[|points|-2], points[|points|-1];
      assert a <= b;
      CoveredBounds(points[..|points|-1], tasks);
    }
  }

  /** No start or end lies strictly inside a gap. */
  ghost predicate Clear(tasks: seq<Task>, a: real, b: real) {
    forall i :: 0 <= i < |tasks| ==> !(a < tasks[i].start < b) && !(a < tasks[i].end < b)
  }

  lemma {:induction false} CountSplits(tasks: seq<Task>, n: nat, a: real, x: real, b: real)
    requires n <= |tasks| && Clear(tasks, a, b) && a < x < b
    ensures Count(tasks, n, a, b) == Count(tasks, n, a, x) == Count(tasks, n, x, b)
  {
    if n > 0 { CountSplits(tasks, n - 1, a, x, b); }
  }

  ghost predicate GapsClear(points: seq<real>, tasks: seq<Task>) {
    forall k, m :: 0 <= k && m == k + 1 < |points| ==> Clear(tasks, points[k], points[m])
  }

  /** What the last gap adds. */
  ghost function LastGap(tasks: seq<Task>, a: real, b: real): real {
    if a < b && Count(tasks, |tasks|, a, b) > 0 then b - a else 0.0
  }

  lemma {:induction false} GapSplits(tasks: seq<Task>, a: real, x: real, b: real)
    requires Clear(tasks, a, b) && a < x < b
    ensures LastGap(tasks, a, b) == LastGap(tasks, a, x) + LastGap(tasks, x, b) && Clear(tasks, a, x)
  {
    CountSplits(tasks, |tasks|, a, x, b);
  }

  /** Replacing the last point x by an earlier one y inside the last gap. */
  lemma {:induction false} Shorten(points: seq<real>, tasks: seq<Task>, y: real)
    requires |points| >= 2 && Ascending(points) && GapsClear(points, tasks)
    requires points[|points|-2] < y < points[|points|-1]
    ensures var shorter := points[..|points|-1] + [y];
            && Ascending(shorter) && GapsClear(shorter, tasks) && shorter[0] == points[0]
            && Covered(points, tasks) == Covered(shorter, tasks) + LastGap(tasks, y, points[|points|-1])
  {
    hide Clear, Count;
    var n := |points| - 1;
    var shorter := points[..n] + [y];
    assert Clear(tasks, points[n-1], points[n]);
    GapSplits(tasks, points[n-1], y, points[n]);
    assert shorter[..n] == points[..n];
    forall k, m | 0 <= k && m == k + 1 < |shorter| ensures Clear(tasks, shorter[k], shorter[m]) {
      if m < n { assert Clear(tasks, points[k], points[m]); }
    }
  }

  lemma {:induction false} Dropped(points: seq<real>, tasks: seq<Task>)
    requires |points| >= 2 && Ascending(points) && GapsClear(points, tasks)
    ensures var shorter := points[..|points|-1];
            && Ascending(shorter) && GapsClear(shorter, tasks) && shorter[0] == points[0]
            && Covered(points, tasks) ==
                 Covered(shorter, tasks) + LastGap(tasks, points[|points|-2], points[|points|-1])
  {
    hide Clear, Count;
    var n := |points| - 1;
    forall k, m | 0 <= k && m == k + 1 < n ensures Clear(tasks, points[..n][k], points[..n][m]) {
      assert Clear(tasks, points[k], points[m]);
    }
  }

  lemma {:induction false} SameCovered(ps: seq<real>, qs: seq<real>, tasks: seq<Task>)
    requires ps != [] && qs != [] && Ascending(ps) && Ascending(qs) && GapsClear(ps, tasks) && GapsClear(qs, tasks)
    requires ps[0] == qs[0] && ps[|ps|-1] == qs[|qs|-1]
    ensures Covered(ps, tasks) == Covered(qs, tasks)
    decreases |ps| + |qs|
  {
    if |ps| == 1 || |qs| == 1 {
      CoveredBounds(ps, tasks);
      CoveredBounds(qs, tasks);
    } else {
      hide Covered, GapsClear, Ascending;
      var p, q, x := ps[|ps|-2], qs[|qs|-2], ps[|ps|-1];
      InLastGap(ps);
      InLastGap(qs);
      Dropped(ps, tasks);
      Dropped(qs, tasks);
      if p == x {
        SameCovered(ps[..|ps|-1], qs, tasks);
      } else if q == x {
        SameCovered(ps, qs[..|qs|-1], tasks);
      } else if p == q {
        SameCovered(ps[..|ps|-1], qs[..|qs|-1], tasks);
      } else if p < q {
        Shorten(ps, tasks, q);
        SameCovered(ps[..|ps|-1] + [q], qs[..|qs|-1], tasks);
      } else {
        Shorten(qs, tasks, p);
        SameCovered(ps[..|ps|-1], qs[..|qs|-1] + [p], tasks);
      }
    }
  }

  lemma {:induction false} InLastGap(points: seq<real>)
    requires |points| >= 2 && Ascending(points)
    ensures points[|points|-2] <= points[|points|-1]
  {
  }

  /** Every start and every end is among the points. */
  ghost predicate AllAmong(points: seq<real>, tasks: seq<Task>) {
    forall i :: 0 <= i < |tasks| ==> tasks[i].start in points && tasks[i].end in points
  }

  lemma {:induction false} AmongIsClear(points: seq<real>, tasks: seq<Task>)
    requires Ascending(points) && AllAmong(points, tasks)
    ensures GapsClear(points, tasks)
  {
    forall k, m | 0 <= k && m == k + 1 < |points| ensures Clear(tasks, points[k], points[m]) {
      forall x | x in points ensures !(points[k] < x < points[m]) {
        var j :| 0 <= j < |points| && points[j] == x;
      }
    }
  }

  /** Covered time does not depend on the choice of points: any two ascending lists that have every
      start and end among them and the same first and last point give the same. */
  lemma {:induction false} PointsDoNotMatter(ps: seq<real>, qs: seq<real>, tasks: seq<Task>)
    requires ps != [] && qs != [] && Ascending(ps) && Ascending(qs) && AllAmong(ps, tasks) && AllAmong(qs, tasks)
    requires ps[0] == qs[0] && ps[|ps|-1] == qs[|qs|-1]
    ensures Covered(ps, tasks) == Covered(qs, tasks)
  {
    AmongIsClear(ps, tasks);
    AmongIsClear(qs, tasks);
    SameCovered(ps, qs, tasks);
  }

  ghost predicate RunsAt(t: Task, x: real) {
    t.start <= x <= t.end
  }

  /** A gap counts as covered exactly when the moments inside it lie in the union of the tasks. */
  lemma {:induction false} GapIsCovered(tasks: seq<Task>, a: real, b: real, x: real)
    requires a < x < b && Clear(tasks, a, b)
    ensures Count(tasks, |tasks|, a, b) > 0 <==> exists i :: 0 <= i < |tasks| && RunsAt(tasks[i], x)
  {
    if Count(tasks, |tasks|, a, b) > 0 {
      CountedCovers(tasks, |tasks|, a, b);
      var i :| 0 <= i < |tasks| && Covers(tasks[i], a, b);
      assert RunsAt(tasks[i], x);
    }
    if i :| 0 <= i < |tasks| && RunsAt(tasks[i], x) {
      CoversCounted(tasks, |tasks|, i, a, b);
    }
  }
}

module NinjaSweep {
  import opened FairShare

  datatype Event = Event(time: real, stop: bool, task: nat)

  /** Order by time, starts before stops. */
  predicate Before(d: Event, e: Event) {
    d.time < e.time || (d.time == e.time && (!d.stop || e.stop))
  }

  ghost predicate Sorted(es: seq<Event>) {
    forall i, j :: 0 <= i < j < |es| ==> Before(es[i], es[j])
  }

  ghost predicate Distinct(es: seq<Event>) {
    forall i, j :: 0 <= i < j < |es| ==> es[i] != es[j]
  }

  function Insert(es: seq<Event>, e: Event): seq<Event> {
    if es == [] || Before(es[|es|-1], e) then es + [e]
    else Insert(es[..|es|-1], e) + [es[|es|-1]]
  }

  /** Stable sorting by key, one element after the other. */
  function SortEvents(es: seq<Event>): seq<Event> {
    if es == [] then [] else Insert(SortEvents(es[..|es|-1]), es[|es|-1])
  }

  lemma {:induction false} InsertFacts(es: seq<Event>, e: Event)
    requires Sorted(es)
    ensures Sorted(Insert(es, e)) && |Insert(es, e)| == |es| + 1
    ensures forall d :: d in Insert(es, e) <==> d in es || d == e
    ensures Distinct(es) && e !in es ==> Distinct(Insert(es, e))
    decreases |es|
  {
    if es != [] && !Before(es[|es|-1], e) {
      var n := |es| - 1;
      InsertFacts(es[..n], e);
      assert es == es[..n] + [es[n]];
      LastIsLast(es, Insert(es[..n], e), e);
    }
  }

  /** Putting the last element back behind the others with e among them. */
  lemma {:induction false} LastIsLast(es: seq<Event>, r: seq<Event>, e: Event)
    requires es != [] && Sorted(es) && !Before(es[|es|-1], e) && Sorted(r)
    requires forall d :: d in r <==> d in es[..|es|-1] || d == e
    requires Distinct(es[..|es|-1]) && e !in es[..|es|-1] ==> Distinct(r)
    ensures Sorted(r + [es[|es|-1]]) && (forall d :: d in r + [es[|es|-1]] <==> d in es || d == e)
    ensures Distinct(es) && e !in es ==> Distinct(r + [es[|es|-1]])
  {
    var last := es[|es|-1];
    assert es == es[..|es|-1] + [last];
    forall k | 0 <= k < |r| ensures Before(r[k], last) && (Distinct(es) && e !in es ==> r[k] != last) {
      assert r[k] in r;
    }
  }

  lemma {:induction false} SortFacts(es: seq<Event>)
    ensures Sorted(SortEvents(es)) && |SortEvents(es)| == |es|
    ensures forall d :: d in SortEvents(es) <==> d in es
    ensures Distinct(es) ==> Distinct(SortEvents(es))
    decreases |es|
  {
    if es != [] {
      var n := |es| - 1;
      SortFacts(es[..n]);
      assert es == es[..n] + [es[n]];
      InsertFacts(SortEvents(es[..n]), es[n]);
    }
  }

  /** The event is the start or the stop of a task. */
  ghost predicate IsEvent(tasks: seq<Task>, e: Event) {
    e.task < |tasks| && e.time == if e.stop then tasks[e.task].end else tasks[e.task].start
  }

  function StartOf(tasks: seq<Task>, i: nat): Event
    requires i < |tasks|
  {
    Event(tasks[i].start, false, i)
  }

  function StopOf(tasks: seq<Task>, i: nat): Event
    requires i < |tasks|
  {
    Event(tasks[i].end, true, i)
  }

  /** The events are those of the tasks, each once, in order. */
  ghost predicate Timeline(es: seq<Event>, tasks: seq<Task>) {
    && Sorted(es) && Distinct(es)
    && (forall e :: e in es ==> IsEvent(tasks, e))
    && (forall i :: 0 <= i < |tasks| ==> StartOf(tasks, i) in es && StopOf(tasks, i) in es)
  }

  ghost function Times(es: seq<Event>): seq<real> {
    seq(|es|, k requires 0 <= k < |es| => es[k].time)
  }

  /** The tasks that have started and not stopped in the first k events. */
  ghost predicate RunsAfter(es: seq<Event>, tasks: seq<Task>, k: nat, i: nat)
    requires k <= |es|
  {
    i < |tasks| && StartOf(tasks, i) in es[..k] && StopOf(tasks, i) !in es[..k]
  }

  /** Over a gap of positive length, the running tasks are those that cover it. */
  lemma {:induction false} RunningCovers(es: seq<Event>, tasks: seq<Task>, k: nat, i: nat)
    requires Timeline(es, tasks) && 0 < k < |es| && i < |tasks| && es[k-1].time < es[k].time
    ensures RunsAfter(es, tasks, k, i) <==> Covers(tasks[i], es[k-1].time, es[k].time)
  {
    var p :| 0 <= p < |es| && es[p] == StartOf(tasks, i);
    var q :| 0 <= q < |es| && es[q] == StopOf(tasks, i);
    Position(es, k, p);
    Position(es, k, q);
    Ordered(es, k, p);
    Ordered(es, k, q);
  }

  lemma {:induction false} Position(es: seq<Event>, k: nat, p: nat)
    requires Distinct(es) && k <= |es| && p < |es|
    ensures es[p] in es[..k] <==> p < k
  {
    if es[p] in es[..k] {
      var j :| 0 <= j < k && es[..k][j] == es[p];
      assert es[j] == es[p];
    }
    if p < k { assert es[..k][p] == es[p]; }
  }

  lemma {:induction false} Ordered(es: seq<Event>, k: nat, p: nat)
    requires Sorted(es) && 0 < k < |es| && p < |es| && es[k-1].time < es[k].time
    ensures p < k <==> es[p].time <= es[k-1].time
    ensures p >= k <==> es[p].time >= es[k].time
  {
    if p < k - 1 { assert Before(es[p], es[k-1]); }
    if p > k { assert Before(es[k], es[p]); }
  }

  lemma {:induction false} CountIsSize(tasks: seq<Task>, n: nat, a: real, b: real)
    requires n <= |tasks|
    ensures |set i | 0 <= i < n && Covers(tasks[i], a, b)| == Count(tasks, n, a, b)
  {
    var s := set i | 0 <= i < n && Covers(tasks[i], a, b);
    if n > 0 {
      CountIsSize(tasks, n - 1, a, b);
      var s' := set i | 0 <= i < n - 1 && Covers(tasks[i], a, b);
      assert s == s' + if Covers(tasks[n-1], a, b) then {n - 1} else {};
    } else {
      assert s == {};
    }
  }

  // ---------------------------------------------------------------- the sweep

  ghost predicate Stopped(es: seq<Event>, tasks: seq<Task>, k: nat, i: nat)
    requires k <= |es|
  {
    i < |tasks| && StopOf(tasks, i) in es[..k]
  }

  /** After k events, with the time of the first m points shared out: the running tasks carry the
      weighted time at which they started, the stopped ones have their share. */
  ghost predicate Shared(es: seq<Event>, tasks: seq<Task>, k: nat, m: nat, now: real, running: map<nat, real>,
                         weights: seq<real>) {
    && k <= |es| && m <= |es| && |weights| == |tasks|
    && (forall i :: i in running <==> RunsAfter(es, tasks, k, i))
    && (forall i :: i in running ==> now - running[i] == Share(Times(es)[..m], tasks, i))
    && (forall i: nat :: Stopped(es, tasks, k, i) ==>
          weights[i] == Share(Times(es)[..m], tasks, i) && tasks[i].start <= tasks[i].end)
  }

  lemma {:induction false} RunningCount(es: seq<Event>, tasks: seq<Task>, k: nat, running: map<nat, real>)
    requires Timeline(es, tasks) && 0 < k < |es| && es[k-1].time < es[k].time
    requires forall i :: i in running <==> RunsAfter(es, tasks, k, i)
    ensures |running| == Count(tasks, |tasks|, es[k-1].time, es[k].time)
  {
    var a, b := es[k-1].time, es[k].time;
    var s := set i: nat | 0 <= i < |tasks| && Covers(tasks[i], a, b);
    forall i: nat ensures i in running <==> i in s {
      if i < |tasks| { RunningCovers(es, tasks, k, i); }
    }
    assert running.Keys == s;
    CountIsSize(tasks, |tasks|, a, b);
    assert s == set i | 0 <= i < |tasks| && Covers(tasks[i], a, b);
  }

  lemma {:induction false} ShareStep(es: seq<Event>, tasks: seq<Task>, k: nat, i: nat)
    requires 0 < k < |es| && i < |tasks|
    ensures Share(Times(es)[..k+1], tasks, i) ==
            Share(Times(es)[..k], tasks, i) + Part(tasks, i, es[k-1].time, es[k].time)
  {
    assert Times(es)[..k+1][..k] == Times(es)[..k];
  }

  /** Sharing out the time up to the next event. */
  lemma {:induction false} Advance(es: seq<Event>, tasks: seq<Task>, k: nat, now: real, running: map<nat, real>,
                                   weights: seq<real>)
    requires Timeline(es, tasks) && 0 < k < |es| && Shared(es, tasks, k, k, now, running, weights)
    ensures Shared(es, tasks, k, k + 1,
                   if |running| > 0 then now + (es[k].time - es[k-1].time) / |running| as real else now,
                   running, weights)
  {
    hide Sorted, Distinct, Share, Part, Count;
    var a, b := es[k-1].time, es[k].time;
    var later := if |running| > 0 then now + (b - a) / |running| as real else now;
    assert a <= b by { Consecutive(es, k); }
    if a < b { RunningCount(es, tasks, k, running); }
    forall i | i in running ensures later - running[i] == Share(Times(es)[..k+1], tasks, i) {
      RunningPart(es, tasks, k, i, |running|);
      ShareStep(es, tasks, k, i);
      assert running.Keys != {};
    }
    forall i: nat | Stopped(es, tasks, k, i) ensures weights[i] == Share(Times(es)[..k+1], tasks, i) {
      StoppedPart(es, tasks, k, i);
      ShareStep(es, tasks, k, i);
    }
  }

  lemma {:induction false} Consecutive(es: seq<Event>, k: nat)
    requires Sorted(es) && 0 < k < |es|
    ensures es[k-1].time <= es[k].time
  {
    assert Before(es[k-1], es[k]);
  }

  lemma {:induction false} RunningPart(es: seq<Event>, tasks: seq<Task>, k: nat, i: nat, n: nat)
    requires Timeline(es, tasks) && 0 < k < |es| && RunsAfter(es, tasks, k, i) && n > 0
    requires es[k-1].time < es[k].time ==> n == Count(tasks, |tasks|, es[k-1].time, es[k].time)
    ensures i < |tasks| && Part(tasks, i, es[k-1].time, es[k].time) == (es[k].time - es[k-1].time) / n as real
  {
    Consecutive(es, k);
    if es[k-1].time < es[k].time { RunningCovers(es, tasks, k, i); }
  }

  lemma {:induction false} StoppedPart(es: seq<Event>, tasks: seq<Task>, k: nat, i: nat)
    requires Timeline(es, tasks) && 0 < k < |es| && Stopped(es, tasks, k, i)
    ensures i < |tasks| && Part(tasks, i, es[k-1].time, es[k].time) == 0.0
  {
    if es[k-1].time < es[k].time { RunningCovers(es, tasks, k, i); }
  }

  lemma {:induction false} EventAt(es: seq<Event>, tasks: seq<Task>, k: nat, i: nat)
    requires Timeline(es, tasks) && k < |es| && i < |tasks|
    ensures RunsAfter(es, tasks, k + 1, i) <==>
            (RunsAfter(es, tasks, k, i) || (es[k] == StartOf(tasks, i) && StopOf(tasks, i) !in es[..k])) &&
                es[k] != StopOf(tasks, i)
    ensures Stopped(es, tasks, k + 1, i) <==> Stopped(es, tasks, k, i) || es[k] == StopOf(tasks, i)
  {
    assert es[..k+1] == es[..k] + [es[k]];
  }

  /** A task's start is not seen twice, and comes before its stop just when the task ends no earlier
      than it starts. */
  lemma {:induction false} StartFirst(es: seq<Event>, tasks: seq<Task>, k: nat, i: nat)
    requires Timeline(es, tasks) && k < |es| && i < |tasks|
    ensures es[k] == StartOf(tasks, i) ==>
              !RunsAfter(es, tasks, k, i) && (StopOf(tasks, i) in es[..k] ==> tasks[i].end < tasks[i].start)
    ensures es[k] == StopOf(tasks, i) ==> (RunsAfter(es, tasks, k, i) <==> tasks[i].start <= tasks[i].end)
  {
    var p :| 0 <= p < |es| && es[p] == StartOf(tasks, i);
    var q :| 0 <= q < |es| && es[q] == StopOf(tasks, i);
    Position(es, k, p);
    Position(es, k, q);
    if p < q {
      assert Before(es[p], es[q]);
    } else {
      assert p != q;
      assert Before(es[q], es[p]);
    }
  }

  lemma {:induction false} StartKeeps(es: seq<Event>, tasks: seq<Task>, k: nat, now: real, running: map<nat, real>,
                                      weights: seq<real>)
    requires Timeline(es, tasks) && k < |es| && !es[k].stop && Shared(es, tasks, k, k + 1, now, running, weights)
    ensures Shared(es, tasks, k + 1, k + 1, now, running[es[k].task := now], weights)
  {
    hide Sorted, Distinct, Share, RunsAfter, Stopped;
    var i := es[k].task;
    assert es[k] in es && es[k] == StartOf(tasks, i);
    StartFirst(es, tasks, k, i);
    assert Share(Times(es)[..k+1], tasks, i) == 0.0 by {
      TimesAscend(es, k + 1);
      ShareBounds(Times(es)[..k+1], tasks, i);
    }
    StartNotStopped(es, tasks, k, i, now, running, weights);
    RunningIsTask(es, tasks, k);
    RunningIsTask(es, tasks, k + 1);
    forall j: nat | j < |tasks|
      ensures RunsAfter(es, tasks, k + 1, j) <==> j == i || RunsAfter(es, tasks, k, j)
      ensures Stopped(es, tasks, k + 1, j) <==> Stopped(es, tasks, k, j)
    {
      EventAt(es, tasks, k, j);
    }
  }

  lemma {:induction false} RunningIsTask(es: seq<Event>, tasks: seq<Task>, k: nat)
    requires k <= |es|
    ensures forall j: nat :: RunsAfter(es, tasks, k, j) ==> j < |tasks|
    ensures forall j: nat :: Stopped(es, tasks, k, j) ==> j < |tasks|
  {
  }

  lemma {:induction false} StartNotStopped(es: seq<Event>, tasks: seq<Task>, k: nat, i: nat, now: real,
                                           running: map<nat, real>, weights: seq<real>)
    requires Timeline(es, tasks) && k < |es| && i < |tasks| && es[k] == StartOf(tasks, i)
    requires Shared(es, tasks, k, k + 1, now, running, weights)
    ensures StopOf(tasks, i) !in es[..k]
  {
    StartFirst(es, tasks, k, i);
    assert Stopped(es, tasks, k, i) ==> tasks[i].start <= tasks[i].end;
  }

  lemma {:induction false} TimesAscend(es: seq<Event>, m: nat)
    requires Sorted(es) && m <= |es|
    ensures Ascending(Times(es)[..m])
  {
    var points := Times(es)[..m];
    forall i, j | 0 <= i <= j < |points| ensures points[i] <= points[j] {
      if i < j { assert Before(es[i], es[j]); }
    }
  }

  lemma {:induction false} StopKeeps(es: seq<Event>, tasks: seq<Task>, k: nat, now: real, running: map<nat, real>,
                                     weights: seq<real>)
    requires Timeline(es, tasks) && k < |es| && es[k].stop && Shared(es, tasks, k, k + 1, now, running, weights)
    requires es[k].task in running
    ensures es[k].task < |tasks|
    ensures Shared(es, tasks, k + 1, k + 1, now, running - {es[k].task},
                   weights[es[k].task := now - running[es[k].task]])
  {
    hide Sorted, Distinct, Share, RunsAfter, Stopped;
    var i := es[k].task;
    assert es[k] in es && es[k] == StopOf(tasks, i);
    StartFirst(es, tasks, k, i);
    RunningIsTask(es, tasks, k);
    RunningIsTask(es, tasks, k + 1);
    forall j: nat | j < |tasks|
      ensures RunsAfter(es, tasks, k + 1, j) <==> j != i && RunsAfter(es, tasks, k, j)
      ensures Stopped(es, tasks, k + 1, j) <==> j == i || Stopped(es, tasks, k, j)
    {
      EventAt(es, tasks, k, j);
    }
  }

  /** The stopped tasks' weights added up. */
  ghost function StoppedSum(es: seq<Event>, tasks: seq<Task>, k: nat, weights: seq<real>, n: nat): real
    requires k <= |es| && n <= |tasks| == |weights|
  {
    if n == 0 then 0.0
    else StoppedSum(es, tasks, k, weights, n - 1) + if Stopped(es, tasks, k, n - 1) then weights[n-1] else 0.0
  }

  /** Stopping task i (index w, or nobody) adds its weight. */
  lemma {:induction false} StoppedSumStep(es: seq<Event>, tasks: seq<Task>, k: nat, weights: seq<real>, n: nat, w: real)
    requires Timeline(es, tasks) && k < |es| && n <= |tasks| == |weights|
    requires es[k].stop ==> es[k].task < |tasks| && !Stopped(es, tasks, k, es[k].task)
    ensures StoppedSum(es, tasks, k + 1, if es[k].stop then weights[es[k].task := w] else weights, n) ==
            StoppedSum(es, tasks, k, weights, n) + if es[k].stop && es[k].task < n then w else 0.0
  {
    hide Sorted, Distinct, RunsAfter, Stopped;
    if n > 0 {
      StoppedSumStep(es, tasks, k, weights, n - 1, w);
      assert es[k] in es && IsEvent(tasks, es[k]);
      assert es[k] == StopOf(tasks, n - 1) <==> es[k].stop && es[k].task == n - 1;
      EventAt(es, tasks, k, n - 1);
    }
  }

  lemma {:induction false} AllStopped(es: seq<Event>, tasks: seq<Task>, weights: seq<real>, n: nat)
    requires Timeline(es, tasks) && n <= |tasks| == |weights|
    requires forall i :: 0 <= i < |tasks| ==> weights[i] == Share(Times(es), tasks, i)
    ensures StoppedSum(es, tasks, |es|, weights, n) == SumShares(Times(es), tasks, n)
  {
    hide Share, Sorted, Distinct, Times;
    if n > 0 {
      AllStopped(es, tasks, weights, n - 1);
      assert es[..|es|] == es;
      assert StopOf(tasks, n - 1) in es;
    }
  }

  datatype SweepResult = KeyError | Swept(weights: seq<real>, total: real)

  /** The sweep. It fails exactly when some task ends before it starts; otherwise every task gets its
      fair share, the shares add up to the covered time, and nothing is left running. */
  method Sweep(es: seq<Event>, tasks: seq<Task>) returns (r: SweepResult)
    requires Timeline(es, tasks) && es != []
    ensures r.Swept? <==> forall i :: 0 <= i < |tasks| ==> tasks[i].start <= tasks[i].end
    ensures r.Swept? ==>
              && |r.weights| == |tasks| && r.total == Covered(Times(es), tasks)
              && (forall i :: 0 <= i < |tasks| ==> r.weights[i] == Share(Times(es), tasks, i))
  {
    hide Timeline, Shared, RunsAfter, Stopped, Times, Share, StoppedSum, Covered;
    var running: map<nat, real> := map[];
    var weights := seq(|tasks|, _ => 0.0);
    var lastTime := es[0].time;
    var now, total := 0.0, 0.0;
    NothingYet(es, tasks, weights);
    for k := 0 to |es|
      invariant |weights| == |tasks| && Shared(es, tasks, k, k, now, running, weights)
      invariant lastTime == if k == 0 then es[0].time else es[k-1].time
      invariant total == StoppedSum(es, tasks, k, weights, |tasks|)
    {
      var event := es[k];
      if k > 0 {
        Advance(es, tasks, k, now, running, weights);
      } else {
        FirstPoint(es, tasks, now, running, weights);
      }
      if |running| > 0 {
        now := now + (event.time - lastTime) / |running| as real;
      }
      EventFacts(es, tasks, k, k + 1, now, running, weights);
      StoppedSumStep(es, tasks, k, weights, |tasks|, if event.task in running then now - running[event.task] else 0.0);
      if !event.stop {
        StartKeeps(es, tasks, k, now, running, weights);
        running := running[event.task := now];
      } else {
        if event.task !in running {
          return KeyError;
        }
        StopKeeps(es, tasks, k, now, running, weights);
        var weighted := now - running[event.task];
        weights := weights[event.task := weighted];
        total := total + weighted;
        running := running - {event.task};
      }
      lastTime := event.time;
    }
    AllSwept(es, tasks, now, running, weights);
    r := Swept(weights, total);
  }

  /** A stop finds its task running exactly when the task ends no earlier than it starts. */
  lemma {:induction false} EventFacts(es: seq<Event>, tasks: seq<Task>, k: nat, m: nat, now: real,
                                      running: map<nat, real>, weights: seq<real>)
    requires Timeline(es, tasks) && k < |es| && Shared(es, tasks, k, m, now, running, weights)
    ensures es[k].task < |tasks|
    ensures es[k].stop ==> !Stopped(es, tasks, k, es[k].task)
    ensures es[k].stop ==> (es[k].task in running <==> tasks[es[k].task].start <= tasks[es[k].task].end)
  {
    assert es[k] in es;
    var i := es[k].task;
    StartFirst(es, tasks, k, i);
    if es[k].stop {
      assert es[k] == StopOf(tasks, i);
      Position(es, k, k);
    }
  }

  lemma {:induction false} NothingYet(es: seq<Event>, tasks: seq<Task>, weights: seq<real>)
    requires |weights| == |tasks|
    ensures Shared(es, tasks, 0, 0, 0.0, map[], weights) && StoppedSum(es, tasks, 0, weights, |tasks|) == 0.0
  {
    NoneStopped(es, tasks, weights, |tasks|);
  }

  lemma {:induction false} NoneStopped(es: seq<Event>, tasks: seq<Task>, weights: seq<real>, n: nat)
    requires n <= |weights| == |tasks|
    ensures StoppedSum(es, tasks, 0, weights, n) == 0.0
  {
    if n > 0 { NoneStopped(es, tasks, weights, n - 1); }
  }

  lemma {:induction false} FirstPoint(es: seq<Event>, tasks: seq<Task>, now: real, running: map<nat, real>,
                                      weights: seq<real>)
    requires es != [] && Shared(es, tasks, 0, 0, now, running, weights)
    ensures Shared(es, tasks, 0, 1, now, running, weights) && |running| == 0
  {
    assert running == map[];
  }

  lemma {:induction false} AllSwept(es: seq<Event>, tasks: seq<Task>, now: real, running: map<nat, real>,
                                    weights: seq<real>)
    requires Timeline(es, tasks) && Shared(es, tasks, |es|, |es|, now, running, weights)
    ensures running == map[] && |weights| == |tasks|
    ensures forall i :: 0 <= i < |tasks| ==> weights[i] == Share(Times(es), tasks, i) && tasks[i].start <= tasks[i].end
    ensures StoppedSum(es, tasks, |es|, weights, |tasks|) == Covered(Times(es), tasks)
  {
    assert es[..|es|] == es && Times(es)[..|es|] == Times(es);
    assert forall i: nat :: i < |tasks| ==> Stopped(es, tasks, |es|, i) && !RunsAfter(es, tasks, |es|, i);
    assert running.Keys == {};
    AllStopped(es, tasks, weights, |tasks|);
    SharesAddUp(Times(es), tasks);
  }

  // ---------------------------------------------------------------- the report

  datatype Report =
    | IndexError
    | BadTask
    | Report(weights: seq<real>, total: real, length: real, cpuTime: real, warn: bool)

  ghost predicate LoggedTimes(tasks: seq<Task>) {
    forall i :: 0 <= i < |tasks| ==> 0.0 <= tasks[i].start <= tasks[i].end
  }

  ghost function SumDurations(tasks: seq<Task>): real {
    if tasks == [] then 0.0 else SumDurations(tasks[..|tasks|-1]) + tasks[|tasks|-1].end - tasks[|tasks|-1].start
  }

  /** The first and last moment of a build, as long as no time is negative. */
  ghost predicate Spans(tasks: seq<Task>, n: nat, earliest: real, latest: real)
    requires n <= |tasks|
  {
    && (exists i :: 0 <= i < n && tasks[i].start == earliest) && (exists i :: 0 <= i < n && tasks[i].end == latest)
    && (forall i :: 0 <= i < n ==> earliest <= tasks[i].start && tasks[i].end <= latest)
  }

  /** Start and stop of every task, in list order. */
  function AllEvents(tasks: seq<Task>, n: nat): seq<Event>
    requires n <= |tasks|
  {
    if n == 0 then [] else AllEvents(tasks, n - 1) + [StartOf(tasks, n - 1)] + [StopOf(tasks, n - 1)]
  }

  lemma {:induction false} AllEventsFacts(tasks: seq<Task>, n: nat)
    requires n <= |tasks|
    ensures Distinct(AllEvents(tasks, n))
    ensures forall e :: e in AllEvents(tasks, n) <==> IsEvent(tasks, e) && e.task < n
  {
    if n > 0 {
      AllEventsFacts(tasks, n - 1);
      var before := AllEvents(tasks, n - 1);
      assert forall k :: 0 <= k < |before| ==> before[k] in before;
    }
  }

  /** All events of the tasks in list order, and the totals. */
  method CollectEvents(tasks: seq<Task>) returns (es: seq<Event>, earliest: real, latest: real, cpuTime: real)
    ensures es == AllEvents(tasks, |tasks|) && cpuTime == SumDurations(tasks)
    ensures LoggedTimes(tasks) && tasks != [] ==> Spans(tasks, |tasks|, earliest, latest)
  {
    es, earliest, latest, cpuTime := [], -1.0, 0.0, 0.0;
    for n := 0 to |tasks|
      invariant es == AllEvents(tasks, n) && cpuTime == SumDurations(tasks[..n])
      invariant LoggedTimes(tasks) ==>
                  if n == 0 then earliest == -1.0 && latest == 0.0
                      else earliest >= 0.0 && Spans(tasks, n, earliest, latest)
    {
      var t := tasks[n];
      if earliest < 0.0 || t.start < earliest {
        earliest := t.start;
      }
      if t.end > latest {
        latest := t.end;
      }
      cpuTime := cpuTime + (t.end - t.start);
      es := es + [StartOf(tasks, n)] + [StopOf(tasks, n)];
      assert tasks[..n+1][..n] == tasks[..n];
    }
    assert tasks[..|tasks|] == tasks;
  }

  /** The points of the report: all starts and ends in order. */
  ghost function PointsOf(tasks: seq<Task>): seq<real> {
    Times(SortEvents(AllEvents(tasks, |tasks|)))
  }

  /** The whole report. Weighted time is conserved: the weights add up to the length of the union of
      the tasks, which is never longer than the build; no weight is negative or longer than its task. */
  method SummarizeEntries(tasks: seq<Task>) returns (r: Report)
    ensures r.IndexError? <==> tasks == []
    ensures r.BadTask? <==> exists i :: 0 <= i < |tasks| && tasks[i].end < tasks[i].start
    ensures r.Report? ==>
              && |r.weights| == |tasks| && r.total == Covered(PointsOf(tasks), tasks) &&
                  r.cpuTime == SumDurations(tasks)
              && (forall i :: 0 <= i < |tasks| ==>
                    r.weights[i] == Share(PointsOf(tasks), tasks, i) &&
                        0.0 <= r.weights[i] <= tasks[i].end - tasks[i].start)
              && (r.warn <==> r.length - r.total > 500.0 || r.total - r.length > 500.0)
    ensures r.Report? && LoggedTimes(tasks) ==>
              0.0 <= r.total <= r.length && exists earliest, latest ::
                  Spans(tasks, |tasks|, earliest, latest) && r.length == latest - earliest
  {
    hide Sorted, Distinct, Share, Covered, Spans, SumDurations, AllEvents, SortEvents, Times;
    var es, earliest, latest, cpuTime := CollectEvents(tasks);
    var length := latest - earliest;
    var sorted := SortEvents(es);
    if tasks == [] {
      return IndexError;
    }
    SortedTimeline(tasks);
    var swept := Sweep(sorted, tasks);
    if swept.KeyError? {
      return BadTask;
    }
    var off := if length >= swept.total then length - swept.total else swept.total - length;
    forall i | 0 <= i < |tasks| ensures 0.0 <= swept.weights[i] <= tasks[i].end - tasks[i].start {
      WeightBounds(sorted, tasks, i);
    }
    if LoggedTimes(tasks) {
      TotalBounds(sorted, tasks, earliest, latest);
    }
    r := Report(swept.weights, swept.total, length, cpuTime, off > 500.0);
  }

  lemma {:induction false} SortedTimeline(tasks: seq<Task>)
    requires tasks != []
    ensures var es := SortEvents(AllEvents(tasks, |tasks|)); Timeline(es, tasks) && es != []
  {
    hide AllEvents, SortEvents;
    AllEventsFacts(tasks, |tasks|);
    SortFacts(AllEvents(tasks, |tasks|));
    assert IsEvent(tasks, StartOf(tasks, 0));
    assert forall i :: 0 <= i < |tasks| ==> IsEvent(tasks, StartOf(tasks, i)) && IsEvent(tasks, StopOf(tasks, i));
  }

  lemma {:induction false} WeightBounds(es: seq<Event>, tasks: seq<Task>, i: nat)
    requires Timeline(es, tasks) && i < |tasks| && tasks[i].start <= tasks[i].end && es != []
    ensures 0.0 <= Share(Times(es), tasks, i) <= tasks[i].end - tasks[i].start
  {
    TimesAscend(es, |es|);
    assert Times(es)[..|es|] == Times(es);
    ShareBounds(Times(es), tasks, i);
  }

  lemma {:induction false} TotalBounds(es: seq<Event>, tasks: seq<Task>, earliest: real, latest: real)
    requires Timeline(es, tasks) && es != [] && LoggedTimes(tasks) && Spans(tasks, |tasks|, earliest, latest)
    ensures 0.0 <= Covered(Times(es), tasks) <= latest - earliest
  {
    TimesAscend(es, |es|);
    var points := Times(es);
    assert points[..|es|] == points;
    CoveredBounds(points, tasks);
    assert es[0] in es && es[|es|-1] in es;
  }

  /** The points of the report have every start and end among them, so its total is the length of the
      union of the tasks, on whatever points that is measured. */
  lemma {:induction false} ReportMeasuresUnion(tasks: seq<Task>, qs: seq<real>)
    requires tasks != [] && qs != [] && Ascending(qs) && AllAmong(qs, tasks)
    requires PointsOf(tasks) != [] && qs[0] == PointsOf(tasks)[0] && qs[|qs|-1] == PointsOf(tasks)[|PointsOf(tasks)|-1]
    ensures Covered(PointsOf(tasks), tasks) == Covered(qs, tasks)
  {
    SortedTimeline(tasks);
    var es := SortEvents(AllEvents(tasks, |tasks|));
    TimesAscend(es, |es|);
    var ps := Times(es);
    assert ps[..|es|] == ps;
    forall i | 0 <= i < |tasks| ensures tasks[i].start in ps && tasks[i].end in ps {
      var k :| 0 <= k < |es| && es[k] == StartOf(tasks, i);
      var m :| 0 <= m < |es| && es[m] == StopOf(tasks, i);
      assert ps[k] == tasks[i].start && ps[m] == tasks[i].end;
    }
    PointsDoNotMatter(ps, qs, tasks);
  }
}

/** Reading the log: one build is kept, its lines grouped by command. */
module NinjaLog {

  /** A line of the log after its header, times in seconds; lines without five fields are corrupt. */
  datatype Line = Corrupt | Line(start: real, end: real, name: string, hash: string)

  datatype Target = Target(hash: string, start: real, end: real, names: seq<string>)

  // ---------------------------------------------------------------- grouping

  /** The position of a command among the targets, or their number. */
  function Find(ts: seq<Target>, hash: string): (k: nat)
    ensures k <= |ts| && (k < |ts| ==> ts[k].hash == hash)
    ensures forall i :: 0 <= i < k ==> ts[i].hash != hash
  {
    if ts == [] then 0
    else
      var k := Find(ts[..|ts|-1], hash);
      if k < |ts| - 1 || ts[|ts|-1].hash == hash then k else |ts|
  }

  function AddLine(ts: seq<Target>, line: Line): seq<Target> {
    if line.Corrupt? then ts
    else
      var k := Find(ts, line.hash);
      if k < |ts| then ts[k := ts[k].(names := ts[k].names + [line.name])]
      else ts + [Target(line.hash, line.start, line.end, [line.name])]
  }

  /** The targets of a build, in the order in which their commands first finish. */
  function Group(lines: seq<Line>): seq<Target> {
    if lines == [] then [] else AddLine(Group(lines[..|lines|-1]), lines[|lines|-1])
  }

  /** The names on the lines of one command. */
  ghost function NamesOf(lines: seq<Line>, hash: string): seq<string> {
    if lines == [] then []
    else
      var line := lines[|lines|-1];
      NamesOf(lines[..|lines|-1], hash) + if line.Line? && line.hash == hash then [line.name] else []
  }

  /** Line i is the first of its command and has these times. */
  ghost predicate FirstOf(lines: seq<Line>, i: int, t: Target) {
    && 0 <= i < |lines| && lines[i].Line? && lines[i].hash == t.hash && lines[i].start == t.start &&
        lines[i].end == t.end
    && forall j :: 0 <= j < i && lines[j].Line? ==> lines[j].hash != t.hash
  }

  ghost predicate TargetOf(lines: seq<Line>, t: Target) {
    t.names == NamesOf(lines, t.hash) && exists i :: FirstOf(lines, i, t)
  }

  /** One target per command, with all its names in order and the times of its first line. */
  ghost predicate Grouped(lines: seq<Line>, ts: seq<Target>) {
    && (forall k :: 0 <= k < |ts| ==> TargetOf(lines, ts[k]))
    && (forall i, j :: 0 <= i < j < |ts| ==> ts[i].hash != ts[j].hash)
    && (forall i :: 0 <= i < |lines| && lines[i].Line? ==> Known(ts, lines[i].hash))
  }

  ghost predicate Known(ts: seq<Target>, hash: string) {
    exists k :: 0 <= k < |ts| && ts[k].hash == hash
  }

  /** A target of the lines so far, after one more line. */
  lemma {:induction false} TargetGrows(lines: seq<Line>, t: Target)
    requires lines != [] && TargetOf(lines[..|lines|-1], t)
    ensures var line := lines[|lines|-1];
            TargetOf(lines, if line.Line? && line.hash == t.hash then t.(names := t.names + [line.name]) else t)
  {
    var n := |lines| - 1;
    var line := lines[n];
    var t' := if line.Line? && line.hash == t.hash then t.(names := t.names + [line.name]) else t;
    var i :| FirstOf(lines[..n], i, t);
    assert FirstOf(lines, i, t');
  }

  lemma {:induction false} NewTarget(lines: seq<Line>, ts: seq<Target>)
    requires lines != [] && lines[|lines|-1].Line? && Grouped(lines[..|lines|-1], ts)
    requires !Known(ts, lines[|lines|-1].hash)
    ensures var line := lines[|lines|-1]; TargetOf(lines, Target(line.hash, line.start, line.end, [line.name]))
  {
    var n := |lines| - 1;
    var line := lines[n];
    forall j | 0 <= j < n && lines[j].Line? ensures lines[j].hash != line.hash {
      assert lines[..n][j].Line?;
    }
    NoNames(lines[..n], line.hash);
    assert FirstOf(lines, n, Target(line.hash, line.start, line.end, [line.name]));
  }

  lemma {:induction false} AddLineGroups(lines: seq<Line>, ts: seq<Target>)
    requires lines != [] && Grouped(lines[..|lines|-1], ts)
    ensures Grouped(lines, AddLine(ts, lines[|lines|-1]))
  {
    hide TargetOf;
    var n := |lines| - 1;
    var line := lines[n];
    var ts' := AddLine(ts, line);
    assert forall i :: 0 <= i < |ts| ==> ts'[i].hash == ts[i].hash;
    forall k | 0 <= k < |ts'| ensures TargetOf(lines, ts'[k]) {
      if k < |ts| {
        TargetGrows(lines, ts[k]);
      } else {
        NewTarget(lines, ts);
      }
    }
    forall i | 0 <= i < |lines| && lines[i].Line? ensures Known(ts', lines[i].hash) {
      if i < n {
        assert lines[..n][i].Line?;
        var k :| 0 <= k < |ts| && ts[k].hash == lines[i].hash;
        assert ts'[k].hash == lines[i].hash;
      } else {
        var k := Find(ts, line.hash);
        assert ts'[k].hash == line.hash;
      }
    }
  }

  lemma {:induction false} GroupFacts(lines: seq<Line>)
    ensures Grouped(lines, Group(lines))
    decreases |lines|
  {
    if lines != [] {
      GroupFacts(lines[..|lines|-1]);
      AddLineGroups(lines, Group(lines[..|lines|-1]));
    }
  }

  lemma {:induction false} NoNames(lines: seq<Line>, hash: string)
    requires forall i :: 0 <= i < |lines| && lines[i].Line? ==> lines[i].hash != hash
    ensures NamesOf(lines, hash) == []
    decreases |lines|
  {
    if lines != [] { NoNames(lines[..|lines|-1], hash); }
  }

  // ---------------------------------------------------------------- one build

  /** Two lines of one build: records are written as commands end, and a command runs once. */
  ghost predicate Agree(d: Line, e: Line) {
    d.Line? && e.Line? ==> d.end <= e.end && (d.hash == e.hash ==> d.start == e.start && d.end == e.end)
  }

  ghost predicate OneBuild(lines: seq<Line>) {
    forall i, j :: 0 <= i < j < |lines| ==> Agree(lines[i], lines[j])
  }

  /** Where the last build begins: at every line that cannot belong to the build so far, the reader
      starts afresh. */
  ghost function BuildStart(lines: seq<Line>): (r: nat)
    ensures r <= |lines| && (lines != [] ==> r < |lines|)
    decreases |lines|
  {
    if lines == [] then 0
    else
      var r := BuildStart(lines[..|lines|-1]);
      if OneBuild(lines[r..]) then r else |lines| - 1
  }

  lemma {:induction false} BuildIsOne(lines: seq<Line>)
    ensures OneBuild(lines[BuildStart(lines)..])
  {
  }

  /** The last end time seen. */
  ghost function LastEnd(lines: seq<Line>): real {
    if lines == [] then 0.0
    else if lines[|lines|-1].Line? then lines[|lines|-1].end
    else LastEnd(lines[..|lines|-1])
  }

  /** In one build no end is later than the last one seen, and the last one is among its lines. */
  lemma {:induction false} LastEndIsLatest(lines: seq<Line>, r: nat)
    requires r <= |lines| && OneBuild(lines[r..])
    ensures forall i :: r <= i < |lines| && lines[i].Line? ==> lines[i].end <= LastEnd(lines)
    ensures (exists i :: r <= i < |lines| && lines[i].Line?) ==>
              exists i :: r <= i < |lines| && lines[i].Line? && lines[i].end == LastEnd(lines)
    decreases |lines|
  {
    if r < |lines| {
      var n := |lines| - 1;
      if lines[n].Line? {
        forall i | r <= i < n ensures Agree(lines[i], lines[n]) {
          assert lines[r..][i-r] == lines[i] && lines[r..][n-r] == lines[n];
        }
      } else {
        assert lines[..n][r..] == lines[r..][..n-r];
        LastEndIsLatest(lines[..n], r);
        if i :| r <= i < |lines| && lines[i].Line? {
          assert lines[..n][i].Line?;
          var j :| r <= j < n && lines[..n][j].Line? && lines[..n][j].end == LastEnd(lines[..n]);
          assert lines[j].Line? && lines[j].end == LastEnd(lines);
        }
      }
    }
  }

  /** The two signs of a new build that the reader looks for. */
  ghost predicate Breaks(lastEnd: real, ts: seq<Target>, line: Line)
    requires line.Line?
  {
    || line.end < lastEnd
    || (var k := Find(ts, line.hash); k < |ts| && (ts[k].start != line.start || ts[k].end != line.end))
  }

  lemma {:induction false} OneMoreLine(seg: seq<Line>, line: Line)
    requires OneBuild(seg)
    ensures OneBuild(seg + [line]) <==> forall i :: 0 <= i < |seg| ==> Agree(seg[i], line)
  {
    var more := seg + [line];
    assert forall i :: 0 <= i < |seg| ==> more[i] == seg[i];
    if OneBuild(more) {
      forall i | 0 <= i < |seg| ensures Agree(seg[i], line) {
        assert Agree(more[i], more[|seg|]);
      }
    }
  }

  /** A line that shows a sign does not belong to the build, unless nothing was read yet. */
  lemma {:induction false} SignMeansBreak(pre: seq<Line>, r: nat, line: Line)
    requires r <= |pre| && OneBuild(pre[r..]) && line.Line? && Breaks(LastEnd(pre), Group(pre[r..]), line)
    ensures !OneBuild(pre[r..] + [line]) || Group(pre[r..]) == []
  {
    var seg := pre[r..];
    var ts := Group(seg);
    GroupFacts(seg);
    OneMoreLine(seg, line);
    if ts != [] {
      assert TargetOf(seg, ts[0]);
      var i0 :| FirstOf(seg, i0, ts[0]);
      assert seg[i0] == pre[r+i0];
      LastEndIsLatest(pre, r);
      if line.end < LastEnd(pre) {
        var i :| r <= i < |pre| && pre[i].Line? && pre[i].end == LastEnd(pre);
        assert seg[i-r] == pre[i] && !Agree(seg[i-r], line);
      } else {
        var k := Find(ts, line.hash);
        assert TargetOf(seg, ts[k]);
        var i :| FirstOf(seg, i, ts[k]);
        assert !Agree(seg[i], line);
      }
    }
  }

  lemma {:induction false} NoSignMeansSame(pre: seq<Line>, r: nat, line: Line)
    requires r <= |pre| && OneBuild(pre[r..]) && line.Line? && !Breaks(LastEnd(pre), Group(pre[r..]), line)
    ensures OneBuild(pre[r..] + [line])
  {
    var seg := pre[r..];
    var ts := Group(seg);
    GroupFacts(seg);
    OneMoreLine(seg, line);
    LastEndIsLatest(pre, r);
    forall i | 0 <= i < |seg| ensures Agree(seg[i], line) {
      assert seg[i] == pre[r+i];
      if seg[i].Line? && seg[i].hash == line.hash {
        var k := Find(ts, line.hash);
        assert Known(ts, seg[i].hash);
        assert TargetOf(seg, ts[k]);
        var j :| FirstOf(seg, j, ts[k]);
        assert j <= i && (j < i ==> Agree(seg[j], seg[i]));
      }
    }
  }

  /** What one line does to the targets of the last build. */
  lemma {:induction false} LineStep(lines: seq<Line>, k: nat)
    requires k < |lines|
    ensures var r, r' := BuildStart(lines[..k]), BuildStart(lines[..k+1]);
            var ts, line := Group(lines[r..k]), lines[k];
            Group(lines[r'..k+1]) ==
              if line.Line? && Breaks(LastEnd(lines[..k]), ts, line) then AddLine([], line) else AddLine(ts, line)
  {
    hide Breaks, AddLine, OneBuild;
    var pre, line := lines[..k], lines[k];
    var r := BuildStart(pre);
    BuildIsOne(pre);
    assert lines[..k+1][..k] == pre && lines[..k+1][r..] == pre[r..] + [line] && pre[r..] == lines[r..k];
    assert lines[r..k+1] == pre[r..] + [line] && (pre[r..] + [line])[..k-r] == pre[r..];
    assert lines[k..k+1] == [line] && [line][..0] == [];
    OneMoreLine(pre[r..], line);
    if line.Corrupt? {
      assert OneBuild(pre[r..] + [line]);
    } else if Breaks(LastEnd(pre), Group(pre[r..]), line) {
      SignMeansBreak(pre, r, line);
    } else {
      NoSignMeansSame(pre, r, line);
    }
  }

  /** Take in one well-formed line. */
  method ReadLine(targets: seq<Target>, line: Line, lastEnd: real, showAll: bool) returns (ts: seq<Target>)
    requires line.Line?
    ensures ts == AddLine(if !showAll && Breaks(lastEnd, targets, line) then [] else targets, line)
  {
    ts := targets;
    if !showAll && line.end < lastEnd {
      ts := [];
    }
    var at := Find(ts, line.hash);
    if at < |ts| && !showAll && (ts[at].start != line.start || ts[at].end != line.end) {
      ts := [];
      at := 0;
    }
    ghost var kept := ts;
    assert at == Find(kept, line.hash);
    assert [] + [line.name] == [line.name];
    if at == |ts| {
      ts := ts + [Target(line.hash, line.start, line.end, [])];
    }
    ts := ts[at := ts[at].(names := ts[at].names + [line.name])];
    assert ts == AddLine(kept, line);
  }

  /** Read the log. Without `showAll`, exactly the lines of the last build are kept. */
  method ReadTargets(lines: seq<Line>, showAll: bool) returns (ts: seq<Target>)
    ensures showAll ==> ts == Group(lines)
    ensures !showAll ==> ts == Group(lines[BuildStart(lines)..])
  {
    hide OneBuild, Breaks, AddLine;
    ts := [];
    var lastEnd := 0.0;
    for k := 0 to |lines|
      invariant lastEnd == LastEnd(lines[..k])
      invariant showAll ==> ts == Group(lines[..k])
      invariant !showAll ==> ts == Group(lines[BuildStart(lines[..k])..k])
    {
      LineStep(lines, k);
      assert lines[..k+1][..k] == lines[..k];
      if lines[k].Line? {
        ts := ReadLine(ts, lines[k], lastEnd, showAll);
        lastEnd := lines[k].end;
      } else {
        CorruptIsSkipped(ts);
      }
    }
    assert lines[..|lines|] == lines;
  }

  lemma {:induction false} CorruptIsSkipped(ts: seq<Target>)
    ensures AddLine(ts, Corrupt) == ts
  {
  }

  /** A log that ends in a build whose first line cannot belong to what came before shows just that
      build. */
  lemma {:induction false} LastBuildWins(before: seq<Line>, build: seq<Line>, i: nat)
    requires build != [] && OneBuild(build) && BuildStart(before) <= i < |before| && !Agree(before[i], build[0])
    ensures BuildStart(before + build) == |before|
    decreases |build|
  {
    hide Agree;
    var all, n := before + build, |build|;
    assert all[..|all|-1] == before + build[..n-1];
    if n == 1 {
      assert all[..|all|-1] == before;
      var r := BuildStart(before);
      assert all[r..][i-r] == before[i] && all[r..][|before|-r] == build[0];
      assert !OneBuild(all[r..]);
    } else {
      assert OneBuild(build[..n-1]);
      LastBuildWins(before, build[..n-1], i);
      assert all[|before|..] == build;
    }
  }
}
