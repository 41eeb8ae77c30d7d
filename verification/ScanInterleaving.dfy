/** The programs of one scan launch run concurrently and in place. Under any interleaving of their
    token steps and checkpoint stores they leave what each of them alone would compute from the
    original buffers. */
module ScanInterleaving {
  import opened SelectiveScan
  import opened Arith

  /** A program of the grid: batch entry and channel. */
  type Prog = (nat, nat)

  /** What a program does, whatever the buffers hold: its rows, tokens, chunks and slots. */
  datatype Work<T> = Work(base: int, zBase: int, d: int, hasZ: bool, toks: seq<T>, chunks: seq<int>, slots: seq<int>,
                          load: int, init: bool)
  {
    ghost predicate OwnsDelta(i: int) { base <= i < base + |toks| }
    ghost predicate OwnsZ(i: int) { hasZ && zBase <= i < zBase + |toks| }
    ghost predicate Writes(cell: (int, int)) { cell.1 == d && cell.0 in slots }
    ghost predicate Uses(cell: (int, int)) { Writes(cell) || cell == (load, d) }

    ghost predicate Fits<S, V>(img: Image<S, V>) {
      && |chunks| == |slots| && Sum(chunks) == |toks| && (forall k :: 0 <= k < |chunks| ==> chunks[k] >= 0)
      && 0 <= base && base + |toks| <= |img.delta|
      && (hasZ ==> 0 <= zBase && zBase + |toks| <= |img.z|)
      && (load, d) in img.states && (forall k :: 0 <= k < |slots| ==> (slots[k], d) in img.states)
    }
  }

  /** Where a program stands: not started, p tokens scanned and c checkpoints stored, or finished. */
  datatype Local<S> = Fresh | Busy(p: nat, c: nat, state: S) | Done

  /** The launch: the programs with something to do, and the original buffers. */
  datatype Grid<!S, !V, !T> = Grid(ops: Ops<S, V, T>, works: map<Prog, Work<T>>, img: Image<S, V>)

  datatype Config<S, V> = Config(img: Image<S, V>, locals: map<Prog, Local<S>>)

  /** Rows of different programs do not overlap, and no program uses a cell another one writes.
      Reading a shared slot is allowed. */
  ghost predicate Apart<S, V, T>(g: Grid<S, V, T>) {
    && (forall q :: q in g.works ==> g.works[q].Fits(g.img))
    && (forall q, r :: q in g.works && r in g.works && q != r ==> Separate(g.works[q], g.works[r]))
  }

  ghost predicate Separate<T>(w: Work<T>, v: Work<T>) {
    && (forall i :: w.OwnsDelta(i) ==> !v.OwnsDelta(i))
    && (forall i :: w.OwnsZ(i) ==> !v.OwnsZ(i))
    && (forall cell :: w.Writes(cell) ==> !v.Uses(cell))
  }

  // ---------------------------------------------------------------- steps

  ghost predicate SameShape<S, V>(x: Image<S, V>, y: Image<S, V>) {
    |x.delta| == |y.delta| && |x.z| == |y.z| && x.states.Keys == y.states.Keys
  }

  /** Kernel order: a program is inside chunk c, or between it and its checkpoint. */
  ghost predicate InBounds<S, T>(w: Work<T>, l: Local<S>) {
    l.Busy? ==>
      && l.c <= |w.chunks| && l.p <= |w.toks| && Sum(w.chunks[..l.c]) <= l.p
      && (l.c < |w.chunks| ==> l.p <= Sum(w.chunks[..l.c+1]))
  }

  /** One step of a program on the current buffers: look up the initial state, scan one token in
      place, store one checkpoint, or stop. */
  ghost function Step<S, V, T>(ops: Ops<S, V, T>, w: Work<T>, img: Image<S, V>, l: Local<S>): (Image<S, V>, Local<S>)
    requires w.Fits(img) && InBounds(w, l)
  {
    match l
    case Done => (img, Done)
    case Fresh => (img, Busy(0, 0, if w.init then img.states[(w.load, w.d)] else ops.zero))
    case Busy(p, c, state) =>
      if c == |w.chunks| then (img, Done)
      else if p == Sum(w.chunks[..c+1]) then
        (img.(states := img.states[(w.slots[c], w.d) := state]), Busy(p, c + 1, state))
      else if p < |w.toks| then
        var state' := ops.next(w.toks[p], img.delta[w.base + p], state);
        var out := ops.emit(w.toks[p], state');
        (Image(img.delta[w.base + p := out],
               if w.hasZ then img.z[w.zBase + p := ops.gate(out, img.z[w.zBase + p])] else img.z,
               img.states),
         Busy(p + 1, c, state'))
      else (img, l)
  }

  // ---------------------------------------------------------------- what a program shows

  ghost function JobFor<S, V, T>(ops: Ops<S, V, T>, w: Work<T>, img: Image<S, V>): (job: Job<S, V, T>)
    requires w.Fits(img)
    ensures job.Valid()
  {
    Job(w.base, w.zBase, w.d, w.hasZ, w.toks, img.delta[w.base..w.base + |w.toks|],
        if w.hasZ then img.z[w.zBase..w.zBase + |w.toks|] else [],
        if w.init then img.states[(w.load, w.d)] else ops.zero, w.chunks, w.slots)
  }

  ghost function DoneTokens<S, T>(w: Work<T>, l: Local<S>): (p: nat)
    requires InBounds(w, l)
    ensures p <= |w.toks|
  {
    if l.Fresh? then 0 else if l.Busy? then l.p else |w.toks|
  }

  ghost function DoneStores<S, T>(w: Work<T>, l: Local<S>): (c: nat)
    requires InBounds(w, l)
    ensures c <= |w.chunks|
  {
    if l.Fresh? then 0 else if l.Busy? then l.c else |w.chunks|
  }

  /** The buffers program w alone would have made of `start` by the time it stands at l. */
  ghost function Alone<S, V, T>(ops: Ops<S, V, T>, w: Work<T>, start: Image<S, V>, l: Local<S>): Image<S, V>
    requires w.Fits(start) && InBounds(w, l)
  {
    Partial(ops, JobFor(ops, w, start), start, DoneTokens(w, l), DoneStores(w, l))
  }

  /** Two images look the same to w: on its rows and on the cells it uses. */
  ghost predicate SameTo<S, V, T>(w: Work<T>, x: Image<S, V>, y: Image<S, V>) {
    && SameShape(x, y)
    && (forall i :: w.OwnsDelta(i) && 0 <= i < |x.delta| ==> x.delta[i] == y.delta[i])
    && (forall i :: w.OwnsZ(i) && 0 <= i < |x.z| ==> x.z[i] == y.z[i])
    && (forall cell :: w.Uses(cell) && cell in x.states ==> x.states[cell] == y.states[cell])
  }

  /** x and y differ at most where w writes. */
  ghost predicate OnlyWrites<S, V, T>(w: Work<T>, x: Image<S, V>, y: Image<S, V>) {
    && SameShape(x, y)
    && (forall i :: !w.OwnsDelta(i) && 0 <= i < |x.delta| ==> x.delta[i] == y.delta[i])
    && (forall i :: !w.OwnsZ(i) && 0 <= i < |x.z| ==> x.z[i] == y.z[i])
    && (forall cell :: !w.Writes(cell) && cell in x.states ==> x.states[cell] == y.states[cell])
  }

  /** The program stands where running alone from `start` would have brought it. */
  ghost predicate Tracks<S, V, T>(ops: Ops<S, V, T>, w: Work<T>, start: Image<S, V>, now: Image<S, V>, l: Local<S>)
    requires w.Fits(start)
  {
    && InBounds(w, l)
    && SameTo(w, now, Alone(ops, w, start, l))
    && (l.Busy? ==> l.state == StateAt(ops, w.toks, JobFor(ops, w, start).deltas, JobFor(ops, w, start).start, l.p))
  }

  // ---------------------------------------------------------------- one step

  /** A step depends only on what the program sees and changes only what it writes. */
  lemma {:induction false} StepIsLocal<S, V, T>(ops: Ops<S, V, T>, w: Work<T>, x: Image<S, V>, y: Image<S, V>,
                                                l: Local<S>)
    requires w.Fits(x) && w.Fits(y) && InBounds(w, l) && SameTo(w, x, y)
    ensures Step(ops, w, x, l).1 == Step(ops, w, y, l).1
    ensures SameTo(w, Step(ops, w, x, l).0, Step(ops, w, y, l).0)
    ensures OnlyWrites(w, x, Step(ops, w, x, l).0)
  {
  }

  lemma {:induction false} AloneKeepsShape<S, V, T>(ops: Ops<S, V, T>, w: Work<T>, start: Image<S, V>, p: nat, c: nat)
    requires w.Fits(start) && p <= |w.toks| && c <= |w.chunks|
    ensures SameShape(start, Partial(ops, JobFor(ops, w, start), start, p, c))
  {
    StoredKeys(ops, w, start, c);
  }

  lemma {:induction false} StoredKeys<S, V, T>(ops: Ops<S, V, T>, w: Work<T>, start: Image<S, V>, c: nat)
    requires w.Fits(start) && c <= |w.chunks|
    ensures Stored(ops, JobFor(ops, w, start), start.states, c).Keys == start.states.Keys
  {
    if c > 0 { StoredKeys(ops, w, start, c - 1); }
  }

  lemma {:induction false} LastChunkEnds<T>(w: Work<T>, c: nat)
    requires Sum(w.chunks) == |w.toks| && (forall k :: 0 <= k < |w.chunks| ==> w.chunks[k] >= 0) && c <= |w.chunks|
    ensures 0 <= Sum(w.chunks[..c]) <= |w.toks|
    ensures c == |w.chunks| ==> Sum(w.chunks[..c]) == |w.toks|
    ensures c < |w.chunks| ==> Sum(w.chunks[..c]) <= Sum(w.chunks[..c+1]) <= |w.toks|
  {
    SumMonotone(w.chunks, c, c);
    if c < |w.chunks| { SumMonotone(w.chunks, c, c + 1); }
    assert w.chunks[..|w.chunks|] == w.chunks;
  }

  ghost function Remaining<S, T>(w: Work<T>, l: Local<S>): int {
    match l
    case Fresh => |w.toks| + |w.chunks| + 2
    case Busy(p, c, _) => |w.toks| - p + |w.chunks| - c + 1
    case Done => 0
  }

  /** Every step moves a program on and keeps kernel order, so a program that is scheduled often
      enough finishes. */
  lemma {:induction false} StepAdvances<S, V, T>(ops: Ops<S, V, T>, w: Work<T>, img: Image<S, V>, l: Local<S>)
    requires w.Fits(img) && InBounds(w, l)
    ensures InBounds(w, Step(ops, w, img, l).1)
    ensures !l.Done? ==> Remaining(w, Step(ops, w, img, l).1) == Remaining(w, l) - 1 || Step(ops, w, img, l).1.Done?
    ensures l.Done? ==> Step(ops, w, img, l).1.Done?
    ensures Remaining(w, l) >= 0 && (Remaining(w, l) == 0 ==> l.Done?)
  {
    if l.Busy? {
      LastChunkEnds(w, l.c);
      if l.c < |w.chunks| { LastChunkEnds(w, l.c + 1); }
    } else {
      LastChunkEnds(w, 0);
      assert w.chunks[..0] == [];
    }
  }

  /** Alone, a program's step takes the closed form of its buffers to the next closed form. */
  lemma {:induction false} AloneStep<S, V, T>(ops: Ops<S, V, T>, w: Work<T>, start: Image<S, V>, l: Local<S>)
    requires w.Fits(start) && InBounds(w, l)
    requires l.Busy? ==> l.state == StateAt(ops, w.toks, JobFor(ops, w, start).deltas, JobFor(ops, w, start).start, l.p)
    ensures w.Fits(Alone(ops, w, start, l))
    ensures var next := Step(ops, w, Alone(ops, w, start, l), l);
            && InBounds(w, next.1) && next.0 == Alone(ops, w, start, next.1)
            && (next.1.Busy? ==>
                  next.1.state == StateAt(ops, w.toks, JobFor(ops, w, start).deltas,
                                          JobFor(ops, w, start).start, next.1.p))
  {
    hide Partial;
    AloneKeepsShape(ops, w, start, DoneTokens(w, l), DoneStores(w, l));
    StepAdvances(ops, w, Alone(ops, w, start, l), l);
    match l {
      case Fresh => AloneFresh(ops, w, start);
      case Done =>
      case Busy(p, c, state) =>
        LastChunkEnds(w, c);
        if c < |w.chunks| {
          if p < Sum(w.chunks[..c+1]) {
            AloneToken(ops, w, start, p, c, state);
          } else {
            AloneStore(ops, w, start, p, c, state);
          }
        }
    }
  }

  lemma {:induction false} AloneFresh<S, V, T>(ops: Ops<S, V, T>, w: Work<T>, start: Image<S, V>)
    requires w.Fits(start)
    ensures Alone(ops, w, start, Fresh) == start
  {
    var alone := Alone(ops, w, start, Fresh);
    assert alone.delta == start.delta && alone.z == start.z;
  }

  lemma {:induction false} AloneStore<S, V, T>(ops: Ops<S, V, T>, w: Work<T>, start: Image<S, V>, p: nat, c: nat,
                                               state: S)
    requires w.Fits(start) && c < |w.chunks| && InBounds(w, Busy(p, c, state)) && p == Sum(w.chunks[..c+1])
    requires w.Fits(Alone(ops, w, start, Busy(p, c, state)))
    requires state == StateAt(ops, w.toks, JobFor(ops, w, start).deltas, JobFor(ops, w, start).start, p)
    ensures Step(ops, w, Alone(ops, w, start, Busy(p, c, state)), Busy(p, c, state)) ==
            (Partial(ops, JobFor(ops, w, start), start, p, c + 1), Busy(p, c + 1, state))
  {
  }

  lemma {:induction false} AloneToken<S, V, T>(ops: Ops<S, V, T>, w: Work<T>, start: Image<S, V>, p: nat, c: nat,
                                               state: S)
    requires w.Fits(start) && p < |w.toks| && c < |w.chunks| && InBounds(w, Busy(p, c, state))
    requires p < Sum(w.chunks[..c+1])
    requires w.Fits(Alone(ops, w, start, Busy(p, c, state)))
    requires state == StateAt(ops, w.toks, JobFor(ops, w, start).deltas, JobFor(ops, w, start).start, p)
    ensures var next := Step(ops, w, Alone(ops, w, start, Busy(p, c, state)), Busy(p, c, state));
            var job := JobFor(ops, w, start);
            && next.1 == Busy(p + 1, c, StateAt(ops, w.toks, job.deltas, job.start, p + 1))
            && next.0 == Partial(ops, job, start, p + 1, c)
  {
    hide Partial;
    PartialToken(ops, w, start, p, c);
  }

  /** One more token changes one entry of each row. */
  lemma {:induction false} PartialToken<S, V, T>(ops: Ops<S, V, T>, w: Work<T>, start: Image<S, V>, p: nat, c: nat)
    requires w.Fits(start) && p < |w.toks| && c <= |w.chunks|
    ensures var job := JobFor(ops, w, start);
            var here, next := Partial(ops, job, start, p, c), Partial(ops, job, start, p + 1, c);
            var out := OutAt(ops, w.toks, job.deltas, job.start, p);
            && |here.delta| == |start.delta| && |here.z| == |start.z|
            && here.delta[w.base + p] == job.deltas[p]
            && next.delta == here.delta[w.base + p := out]
            && (w.hasZ ==>
                  here.z[w.zBase + p] == job.zs[p] && next.z == here.z[w.zBase + p := ops.gate(out, job.zs[p])])
            && (!w.hasZ ==> next.z == here.z) && next.states == here.states
  {
    var job := JobFor(ops, w, start);
    var here, next := Partial(ops, job, start, p, c), Partial(ops, job, start, p + 1, c);
    var out := OutAt(ops, w.toks, job.deltas, job.start, p);
    assert next.delta == here.delta[w.base + p := out];
    if w.hasZ {
      assert next.z == here.z[w.zBase + p := ops.gate(out, job.zs[p])];
    } else {
      assert next.z == here.z;
    }
  }

  lemma {:induction false} TracksSelf<S, V, T>(ops: Ops<S, V, T>, w: Work<T>, start: Image<S, V>, now: Image<S, V>,
                                               l: Local<S>)
    requires w.Fits(start) && Tracks(ops, w, start, now, l) && w.Fits(now)
    ensures Tracks(ops, w, start, Step(ops, w, now, l).0, Step(ops, w, now, l).1)
  {
    AloneStep(ops, w, start, l);
    StepIsLocal(ops, w, now, Alone(ops, w, start, l), l);
  }

  lemma {:induction false} TracksOther<S, V, T>(ops: Ops<S, V, T>, w: Work<T>, v: Work<T>, start: Image<S, V>,
                                                now: Image<S, V>, next: Image<S, V>, l: Local<S>)
    requires v.Fits(start) && Tracks(ops, v, start, now, l)
    requires Separate(w, v) && OnlyWrites(w, now, next)
    ensures Tracks(ops, v, start, next, l)
  {
  }

  // ---------------------------------------------------------------- all programs together

  /** Nobody's cells are as they were. */
  ghost predicate Untouched<S, V, T>(g: Grid<S, V, T>, now: Image<S, V>) {
    && SameShape(g.img, now)
    && (forall i :: 0 <= i < |now.delta| && (forall q :: q in g.works ==> !g.works[q].OwnsDelta(i)) ==>
          now.delta[i] == g.img.delta[i])
    && (forall i :: 0 <= i < |now.z| && (forall q :: q in g.works ==> !g.works[q].OwnsZ(i)) ==> now.z[i] == g.img.z[i])
    && (forall cell :: cell in now.states && (forall q :: q in g.works ==> !g.works[q].Writes(cell)) ==>
          now.states[cell] == g.img.states[cell])
  }

  ghost predicate Inv<S, V, T>(g: Grid<S, V, T>, cfg: Config<S, V>) {
    && Apart(g) && cfg.locals.Keys == g.works.Keys
    && Untouched(g, cfg.img)
    && (forall q :: q in g.works ==> Tracks(g.ops, g.works[q], g.img, cfg.img, cfg.locals[q]))
  }

  ghost function Initial<S, V, T>(g: Grid<S, V, T>): Config<S, V> {
    Config(g.img, map q | q in g.works :: Fresh)
  }

  ghost function After<S, V, T>(g: Grid<S, V, T>, cfg: Config<S, V>, q: Prog): Config<S, V>
    requires Inv(g, cfg) && q in g.works
  {
    FitsNow(g, cfg, q);
    var next := Step(g.ops, g.works[q], cfg.img, cfg.locals[q]);
    Config(next.0, cfg.locals[q := next.1])
  }

  lemma {:induction false} FitsNow<S, V, T>(g: Grid<S, V, T>, cfg: Config<S, V>, q: Prog)
    requires Inv(g, cfg) && q in g.works
    ensures q in cfg.locals && g.works[q].Fits(cfg.img) && InBounds(g.works[q], cfg.locals[q])
  {
  }

  lemma {:induction false} InitialInv<S, V, T>(g: Grid<S, V, T>)
    requires Apart(g)
    ensures Inv(g, Initial(g))
  {
    forall q | q in g.works
      ensures Tracks(g.ops, g.works[q], g.img, g.img, Fresh)
    {
      var alone := Alone(g.ops, g.works[q], g.img, Fresh);
      assert alone.delta == g.img.delta && alone.z == g.img.z;
    }
  }

  lemma {:induction false} SameToItself<S, V, T>(w: Work<T>, x: Image<S, V>)
    ensures SameTo(w, x, x)
  {
  }

  lemma {:induction false} UntouchedStep<S, V, T>(g: Grid<S, V, T>, q: Prog, now: Image<S, V>, next: Image<S, V>)
    requires q in g.works && Untouched(g, now) && OnlyWrites(g.works[q], now, next)
    ensures Untouched(g, next)
  {
  }

  lemma {:induction false} StepInv<S, V, T>(g: Grid<S, V, T>, cfg: Config<S, V>, q: Prog)
    requires Inv(g, cfg) && q in g.works
    ensures Inv(g, After(g, cfg, q))
  {
    hide Tracks, Step, SameTo, Untouched, OnlyWrites, Separate, InBounds;
    FitsNow(g, cfg, q);
    var w, next := g.works[q], After(g, cfg, q);
    SameToItself(w, cfg.img);
    StepIsLocal(g.ops, w, cfg.img, cfg.img, cfg.locals[q]);
    TracksSelf(g.ops, w, g.img, cfg.img, cfg.locals[q]);
    UntouchedStep(g, q, cfg.img, next.img);
    forall r | r in g.works
      ensures Tracks(g.ops, g.works[r], g.img, next.img, next.locals[r])
    {
      if r != q {
        TracksOther(g.ops, w, g.works[r], g.img, cfg.img, next.img, cfg.locals[r]);
      }
    }
  }

  /** A schedule: which program moves next, as often and in whatever order. */
  ghost function Run<S, V, T>(g: Grid<S, V, T>, schedule: seq<Prog>): (cfg: Config<S, V>)
    requires Apart(g) && forall q :: q in schedule ==> q in g.works
    ensures Inv(g, cfg)
  {
    if schedule == [] then InitialInv(g); Initial(g)
    else
      var before := Run(g, schedule[..|schedule|-1]);
      StepInv(g, before, schedule[|schedule|-1]);
      After(g, before, schedule[|schedule|-1])
  }

  // ---------------------------------------------------------------- main results

  /** What the launch should leave: on each program's rows and cells, what it alone would make of
      the original buffers; elsewhere, the original. */
  ghost predicate OutOfPlace<S, V, T>(g: Grid<S, V, T>, now: Image<S, V>)
    requires Apart(g)
  {
    && Untouched(g, now)
    && forall q :: q in g.works ==> SameTo(g.works[q], now, Alone(g.ops, g.works[q], g.img, Done))
  }

  /** That describes the buffers completely. */
  lemma {:induction false} OutOfPlaceIsUnique<S, V, T>(g: Grid<S, V, T>, x: Image<S, V>, y: Image<S, V>)
    requires Apart(g) && OutOfPlace(g, x) && OutOfPlace(g, y)
    ensures x == y
  {
    forall q | q in g.works ensures SameTo(g.works[q], x, y) {
      SameToBoth(g.works[q], x, y, Alone(g.ops, g.works[q], g.img, Done));
    }
    Pointwise(g, x, y);
  }

  lemma {:induction false} SameToBoth<S, V, T>(w: Work<T>, x: Image<S, V>, y: Image<S, V>, z: Image<S, V>)
    requires SameTo(w, x, z) && SameTo(w, y, z)
    ensures SameTo(w, x, y)
  {
  }

  lemma {:induction false} Pointwise<S, V, T>(g: Grid<S, V, T>, x: Image<S, V>, y: Image<S, V>)
    requires Untouched(g, x) && Untouched(g, y) && forall q :: q in g.works ==> SameTo(g.works[q], x, y)
    ensures x == y
  {
    forall i | 0 <= i < |x.delta| ensures x.delta[i] == y.delta[i] {
      if q :| q in g.works && g.works[q].OwnsDelta(i) { }
    }
    forall i | 0 <= i < |x.z| ensures x.z[i] == y.z[i] {
      if q :| q in g.works && g.works[q].OwnsZ(i) { }
    }
    forall cell | cell in x.states ensures x.states[cell] == y.states[cell] {
      if q :| q in g.works && g.works[q].Writes(cell) {
        assert g.works[q].Uses(cell);
      }
    }
  }

  /** In-place scanning is safe: any schedule that lets every program finish leaves the one image
      the out-of-place computation defines. */
  lemma {:induction false} AnyScheduleIsOutOfPlace<S, V, T>(g: Grid<S, V, T>, schedule: seq<Prog>)
    requires Apart(g) && forall q :: q in schedule ==> q in g.works
    requires forall q :: q in g.works ==> Run(g, schedule).locals[q].Done?
    ensures OutOfPlace(g, Run(g, schedule).img)
  {
    var cfg := Run(g, schedule);
    assert forall q :: q in g.works ==> cfg.locals[q] == Done;
  }

  /** A program finishes once it has been scheduled for its tokens, its checkpoints and two more. */
  lemma {:induction false} EnoughStepsFinish<S, V, T>(g: Grid<S, V, T>, schedule: seq<Prog>, q: Prog)
    requires Apart(g) && (forall r :: r in schedule ==> r in g.works) && q in g.works
    ensures var l := Run(g, schedule).locals[q];
            l.Done? || Remaining(g.works[q], l) == |g.works[q].toks| + |g.works[q].chunks| + 2 - multiset(schedule)[q]
    ensures multiset(schedule)[q] >= |g.works[q].toks| + |g.works[q].chunks| + 2 ==> Run(g, schedule).locals[q].Done?
  {
    hide Inv, Step, InBounds, Apart;
    var w := g.works[q];
    if schedule != [] {
      var front, r := schedule[..|schedule|-1], schedule[|schedule|-1];
      assert schedule == front + [r];
      EnoughStepsFinish(g, front, q);
      var before := Run(g, front);
      FitsNow(g, before, q);
      StepAdvances(g.ops, w, before.img, before.locals[q]);
    }
    var cfg := Run(g, schedule);
    FitsNow(g, cfg, q);
    StepAdvances(g.ops, w, cfg.img, cfg.locals[q]);
  }

  /** Some schedule lets every program finish. */
  lemma {:induction false} EveryGridFinishes<S, V, T>(g: Grid<S, V, T>) returns (schedule: seq<Prog>)
    requires Apart(g)
    ensures forall q :: q in schedule ==> q in g.works
    ensures forall q :: q in g.works ==> Run(g, schedule).locals[q].Done?
  {
    schedule := FullTurns(g, g.works.Keys);
    forall q | q in g.works ensures Run(g, schedule).locals[q].Done? {
      EnoughStepsFinish(g, schedule, q);
    }
  }

  ghost function Turns(q: Prog, n: nat): (t: seq<Prog>)
    ensures |t| == n && multiset(t)[q] == n && forall r :: r in t ==> r == q
  {
    if n == 0 then [] else Turns(q, n - 1) + [q]
  }

  lemma {:induction false} FullTurns<S, V, T>(g: Grid<S, V, T>, qs: set<Prog>) returns (schedule: seq<Prog>)
    requires qs <= g.works.Keys
    ensures forall q :: q in schedule ==> q in g.works
    ensures forall q :: q in qs ==> multiset(schedule)[q] >= |g.works[q].toks| + |g.works[q].chunks| + 2
    decreases |qs|
  {
    if qs == {} {
      schedule := [];
    } else {
      var q :| q in qs;
      var rest := FullTurns(g, qs - {q});
      schedule := rest + Turns(q, |g.works[q].toks| + |g.works[q].chunks| + 2);
    }
  }

  // ---------------------------------------------------------------- from launch arguments

  ghost function WorkOf<T>(a: Args, tok: (int, int, int) -> T, b: nat, d: nat): Work<T>
    requires ValidEntry(a, b) && Sum(Chunks(a, b)) >= 0
  {
    Work(RowBase(a, b, d, a.deltaBatch, a.deltaDim), RowBase(a, b, d, a.zBatch, a.zDim), d, a.hasZ,
         seq(Sum(Chunks(a, b)), i => tok(b, d, i)), Chunks(a, b), Slots(a, b), LoadSlot(a, b), HasInit(a, b))
  }

  /** Alone to the end is exactly the kernel's own result. */
  lemma {:induction false} AloneIsRunProgram<S, V, T>(ops: Ops<S, V, T>, a: Args, tok: (int, int, int) -> T,
                                                      img: Image<S, V>, b: nat, d: nat)
    requires ValidEntry(a, b) && Fits(a, b, d, img) && !IsNull(a, b)
    ensures WorkOf(a, tok, b, d).Fits(img)
    ensures Alone(ops, WorkOf(a, tok, b, d), img, Done) == RunProgram(ops, a, tok, img, b, d)
  {
    WorkFits(a, tok, img, b, d);
    hide ValidEntry, Fits, Chunks, Slots, RowBase, Partial, IsNull;
    assert JobFor(ops, WorkOf(a, tok, b, d), img) == JobOf(ops, a, tok, img, b, d);
  }

  lemma {:induction false} WorkFits<S, V, T>(a: Args, tok: (int, int, int) -> T, img: Image<S, V>, b: nat, d: nat)
    requires ValidEntry(a, b) && Fits(a, b, d, img)
    ensures WorkOf(a, tok, b, d).Fits(img) && |WorkOf(a, tok, b, d).toks| == Sum(Chunks(a, b))
  {
    hide ValidEntry, RowBase, LoadSlot;
  }

  /** The grid of a launch; entries with a null block have nothing to do. */
  ghost function GridOf<S, V, T>(ops: Ops<S, V, T>, a: Args, tok: (int, int, int) -> T, img: Image<S, V>, batch: nat,
                                 dims: nat): Grid<S, V, T>
    requires LaunchFits(a, img, batch, dims)
  {
    Grid(ops,
         map b: nat, d: nat | b < batch && d < dims && ActiveEntry(a, b) :: (b, d) := WorkOf(a, tok, b, d),
         img)
  }

  ghost predicate ActiveEntry(a: Args, b: nat) {
    ValidEntry(a, b) && !IsNull(a, b) && Sum(Chunks(a, b)) >= 0
  }

  ghost predicate LaunchFits<S, V>(a: Args, img: Image<S, V>, batch: nat, dims: nat) {
    forall b, d :: 0 <= b < batch && 0 <= d < dims ==> ValidEntry(a, b) && Fits(a, b, d, img)
  }

  /** Packed sequences: unit last-axis stride, sequences one after the other inside each channel's
      row, or one padded row per entry and channel. */
  ghost predicate PackedRows(a: Args, batch: nat, dims: nat, batchStride: int, dimStride: int) {
    && (forall b :: 0 <= b < batch ==> ValidEntry(a, b) && Sum(Chunks(a, b)) <= EntryTokens(a, b))
    && (a.varlen ==>
          && batchStride == 1 && batch < |a.queryStart| && 0 <= a.queryStart[0] && a.queryStart[batch] <= dimStride
          && (forall i, j :: 0 <= i <= j <= batch ==> a.queryStart[i] <= a.queryStart[j]))
    && (!a.varlen ==> a.seqlen <= dimStride && 0 <= dimStride && dims * dimStride <= batchStride)
  }

  ghost function EntryTokens(a: Args, b: nat): int
    requires ValidEntry(a, b)
  {
    if a.varlen then a.queryStart[b+1] - a.queryStart[b] else a.seqlen
  }

  lemma {:induction false} MulGap(x: int, y: int, k: int)
    requires x < y && 0 <= k
    ensures x * k + k <= y * k
  {
    if k > 0 { MulOrder(x + 1, y, k); }
    assert (x + 1) * k == x * k + k;
  }

  /** Packed rows of different programs do not overlap. */
  lemma {:induction false} PackedRowsApart(a: Args, batch: nat, dims: nat, batchStride: int, dimStride: int,
                                           b: nat, d: nat, b': nat, d': nat, i: int)
    requires PackedRows(a, batch, dims, batchStride, dimStride)
    requires b < batch && b' < batch && d < dims && d' < dims && (b, d) != (b', d')
    requires RowBase(a, b, d, batchStride, dimStride) <= i <
             RowBase(a, b, d, batchStride, dimStride) + Sum(Chunks(a, b))
    ensures !(RowBase(a, b', d', batchStride, dimStride) <= i <
              RowBase(a, b', d', batchStride, dimStride) + Sum(Chunks(a, b')))
  {
    if a.varlen {
      VarlenRow(a, batch, dims, batchStride, dimStride, b, d);
      VarlenRow(a, batch, dims, batchStride, dimStride, b', d');
      if d < d' { MulGap(d, d', dimStride); }
      if d' < d { MulGap(d', d, dimStride); }
    } else {
      PaddedRow(a, batch, dims, batchStride, dimStride, b, d);
      PaddedRow(a, batch, dims, batchStride, dimStride, b', d');
      if b < b' { MulGap(b, b', batchStride); }
      if b' < b { MulGap(b', b, batchStride); }
      if d < d' { MulGap(d, d', dimStride); }
      if d' < d { MulGap(d', d, dimStride); }
    }
  }

  lemma {:induction false} VarlenRow(a: Args, batch: nat, dims: nat, batchStride: int, dimStride: int, b: nat, d: nat)
    requires PackedRows(a, batch, dims, batchStride, dimStride) && a.varlen && b < batch && d < dims
    ensures RowBase(a, b, d, batchStride, dimStride) == d * dimStride + a.queryStart[b]
    ensures 0 <= a.queryStart[b] && a.queryStart[b] + Sum(Chunks(a, b)) <= a.queryStart[b+1] <= dimStride
  {
  }

  lemma {:induction false} PaddedRow(a: Args, batch: nat, dims: nat, batchStride: int, dimStride: int, b: nat, d: nat)
    requires PackedRows(a, batch, dims, batchStride, dimStride) && !a.varlen && b < batch && d < dims
    ensures RowBase(a, b, d, batchStride, dimStride) == b * batchStride + d * dimStride
    ensures Sum(Chunks(a, b)) <= dimStride && 0 <= d * dimStride && d * dimStride + dimStride <= batchStride
    ensures 0 <= batchStride
  {
    MulGap(d, dims, dimStride);
    assert d * dimStride >= 0;
  }

  /** No entry stores into a slot another active entry stores into or starts from. */
  ghost predicate SlotsApart(a: Args, batch: nat)
    requires forall b :: 0 <= b < batch ==> ValidEntry(a, b)
  {
    forall b, b' :: 0 <= b < batch && 0 <= b' < batch && b != b' && !IsNull(a, b) && !IsNull(a, b') ==>
      StoresApart(a, b, b')
  }

  ghost predicate StoresApart(a: Args, b: nat, b': nat)
    requires ValidEntry(a, b) && ValidEntry(a, b')
  {
    forall s :: s in Slots(a, b) ==> s !in Slots(a, b') && s != LoadSlot(a, b')
  }

  lemma {:induction false} OtherSlot(a: Args, b: nat, b': nat, s: int)
    requires ValidEntry(a, b) && ValidEntry(a, b') && StoresApart(a, b, b') && s in Slots(a, b)
    ensures s !in Slots(a, b') && s != LoadSlot(a, b')
  {
  }

  lemma {:induction false} WorksSeparate<T>(a: Args, tok: (int, int, int) -> T, batch: nat, dims: nat, b: nat, d: nat,
                                            b': nat, d': nat)
    requires PackedRows(a, batch, dims, a.deltaBatch, a.deltaDim)
    requires a.hasZ ==> PackedRows(a, batch, dims, a.zBatch, a.zDim)
    requires SlotsApart(a, batch) && b < batch && b' < batch && d < dims && d' < dims && (b, d) != (b', d')
    requires ActiveEntry(a, b) && ActiveEntry(a, b')
    ensures Separate(WorkOf(a, tok, b, d), WorkOf(a, tok, b', d'))
  {
    hide ValidEntry, PackedRows, RowBase, Chunks, Slots;
    var w, v := WorkOf(a, tok, b, d), WorkOf(a, tok, b', d');
    forall i | w.OwnsDelta(i) ensures !v.OwnsDelta(i) {
      PackedRowsApart(a, batch, dims, a.deltaBatch, a.deltaDim, b, d, b', d', i);
    }
    forall i | w.OwnsZ(i) ensures !v.OwnsZ(i) {
      PackedRowsApart(a, batch, dims, a.zBatch, a.zDim, b, d, b', d', i);
    }
    forall cell: (int, int) | w.Writes(cell) ensures !v.Uses(cell) {
      if b != b' {
        assert StoresApart(a, b, b');
        OtherSlot(a, b, b', cell.0);
      }
    }
  }

  /** A launch over packed rows whose entries keep to their own slots meets the conditions above. */
  lemma {:induction false} LaunchIsApart<S, V, T>(ops: Ops<S, V, T>, a: Args, tok: (int, int, int) -> T,
                                                  img: Image<S, V>, batch: nat, dims: nat)
    requires LaunchFits(a, img, batch, dims)
    requires PackedRows(a, batch, dims, a.deltaBatch, a.deltaDim)
    requires a.hasZ ==> PackedRows(a, batch, dims, a.zBatch, a.zDim)
    requires SlotsApart(a, batch)
    ensures Apart(GridOf(ops, a, tok, img, batch, dims))
  {
    hide Separate, PackedRows, SlotsApart, WorkOf;
    var g := GridOf(ops, a, tok, img, batch, dims);
    forall q | q in g.works ensures g.works[q].Fits(g.img) {
      assert ValidEntry(a, q.0) && Fits(a, q.0, q.1, img);
      AloneIsRunProgram(ops, a, tok, img, q.0, q.1);
    }
    forall q, r | q in g.works && r in g.works && q != r ensures Separate(g.works[q], g.works[r]) {
      WorksSeparate(a, tok, batch, dims, q.0, q.1, r.0, r.1);
    }
  }
}
