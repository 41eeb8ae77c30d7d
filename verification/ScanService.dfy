/** Resuming when whole launches run: every program of every launch at once, in any interleaving, with
    other requests in the same batches. */
module ScanService {
  import opened SelectiveScan
  import opened Arith
  import R = ScanResume
  import I = ScanInterleaving

  /** A launch of a batch over all channels, and the order in which its programs happened to move. */
  datatype Service<!S, !V, !T> = Service(launch: R.Launch<S, V, T>, batch: nat, dims: nat, schedule: seq<I.Prog>)

  /** The launch is laid out as the launcher does it: rows packed, and every entry with its own slots. */
  ghost predicate LaidOut<S, V, T>(v: Service<S, V, T>) {
    var a := v.launch.a;
    && I.LaunchFits(a, v.launch.img, v.batch, v.dims)
    && I.PackedRows(a, v.batch, v.dims, a.deltaBatch, a.deltaDim)
    && (a.hasZ ==> I.PackedRows(a, v.batch, v.dims, a.zBatch, a.zDim))
    && (forall b :: 0 <= b < v.batch ==> ValidEntry(a, b)) && I.SlotsApart(a, v.batch)
  }

  ghost function GridFor<S, V, T>(ops: Ops<S, V, T>, v: Service<S, V, T>): (g: I.Grid<S, V, T>)
    requires LaidOut(v)
    ensures I.Apart(g)
  {
    I.LaunchIsApart(ops, v.launch.a, v.launch.tok, v.launch.img, v.batch, v.dims);
    I.GridOf(ops, v.launch.a, v.launch.tok, v.launch.img, v.batch, v.dims)
  }

  /** Only programs of the grid move, and all of them finish. */
  ghost predicate Finished<S, V, T>(ops: Ops<S, V, T>, v: Service<S, V, T>)
    requires LaidOut(v)
  {
    var g := GridFor(ops, v);
    && (forall q :: q in v.schedule ==> q in g.works)
    && (forall q :: q in g.works ==> I.Run(g, v.schedule).locals[q].Done?)
  }

  /** The buffers the launch leaves. */
  ghost function Final<S, V, T>(ops: Ops<S, V, T>, v: Service<S, V, T>): Image<S, V>
    requires LaidOut(v) && Finished(ops, v)
  {
    I.Run(GridFor(ops, v), v.schedule).img
  }

  /** No other entry of the batch stores into the slots of this row. */
  ghost predicate RowIsOwn<S, V, T>(v: Service<S, V, T>, row: seq<int>)
    requires LaidOut(v)
  {
    forall b, s :: 0 <= b < v.batch && b != v.launch.b && !IsNull(v.launch.a, b) && s in Slots(v.launch.a, b) ==>
      s !in row
  }

  /** The service is a whole launch in which the request is entry b on one of the channels. */
  ghost predicate Serves<S, V, T>(ops: Ops<S, V, T>, v: Service<S, V, T>, req: R.Request<T, V>) {
    && LaidOut(v) && Finished(ops, v) && RowIsOwn(v, req.row) && v.launch.b < v.batch && req.d < v.dims
  }

  /** Cells a program does not store into keep their state. */
  lemma {:induction false} StoredElsewhere<S, V, T>(ops: Ops<S, V, T>, job: Job<S, V, T>, states: map<(int, int), S>,
                                                    c: nat, cell: (int, int))
    requires job.Valid() && c <= |job.chunks| && cell in states && !(cell.1 == job.d && cell.0 in job.slots)
    ensures cell in Stored(ops, job, states, c) && Stored(ops, job, states, c)[cell] == states[cell]
  {
    if c > 0 { StoredElsewhere(ops, job, states, c - 1, cell); }
  }

  /** For the request, the launch leaves what its own program alone would, on its rows and in its blocks' slots. */
  ghost predicate AsAlone<S, V, T>(ops: Ops<S, V, T>, v: Service<S, V, T>, req: R.Request<T, V>, now: Image<S, V>) {
    var l, alone := v.launch, R.Result(ops, v.launch, req.d);
    && |now.delta| == |alone.delta| && |now.z| == |alone.z|
    && (forall i :: R.DeltaBase(l, req.d) <= i < R.DeltaBase(l, req.d) + l.n && 0 <= i < |now.delta| ==>
          now.delta[i] == alone.delta[i])
    && (forall i :: l.a.hasZ && R.ZBase(l, req.d) <= i < R.ZBase(l, req.d) + l.n && 0 <= i < |now.z| ==>
          now.z[i] == alone.z[i])
    && R.KeepsRow(alone.states, now.states, req.d, req.row)
  }

  lemma {:induction false} OwnProgram<S, V, T>(ops: Ops<S, V, T>, v: Service<S, V, T>, req: R.Request<T, V>,
                                               computed: int)
    requires Serves(ops, v, req) && R.Continues(v.launch, req, computed)
    ensures var l, g := v.launch, GridFor(ops, v);
            && (l.b, req.d) in g.works && g.works[(l.b, req.d)] == I.WorkOf(l.a, l.tok, l.b, req.d)
            && |g.works[(l.b, req.d)].toks| == l.n && g.works[(l.b, req.d)].Fits(g.img)
            && I.Alone(ops, g.works[(l.b, req.d)], l.img, I.Done) == R.Result(ops, l, req.d)
            && g.img == l.img && g.ops == ops
  {
    hide ValidEntry, R.Describes, I.PackedRows, I.SlotsApart, Finished, RowIsOwn;
    var l := v.launch;
    assert I.ActiveEntry(l.a, l.b);
    I.AloneIsRunProgram(ops, l.a, l.tok, l.img, l.b, req.d);
  }

  /** A slot of the request's row that its own program does not store into is stored into by nobody. */
  lemma {:induction false} NobodyElseStores<S, V, T>(ops: Ops<S, V, T>, v: Service<S, V, T>, req: R.Request<T, V>,
                                                     slot: int, q: I.Prog)
    requires Serves(ops, v, req) && slot in req.row && ValidEntry(v.launch.a, v.launch.b)
    requires slot !in Slots(v.launch.a, v.launch.b) && q in GridFor(ops, v).works
    ensures !GridFor(ops, v).works[q].Writes((slot, req.d as int))
  {
    GridEntry(ops, v, q);
    hide *;
    if q.0 != v.launch.b { OthersKeepOff(v, req.row, q.0, slot); }
  }

  lemma {:induction false} GridEntry<S, V, T>(ops: Ops<S, V, T>, v: Service<S, V, T>, q: I.Prog)
    requires LaidOut(v) && q in GridFor(ops, v).works
    ensures q.0 < v.batch && ValidEntry(v.launch.a, q.0) && !IsNull(v.launch.a, q.0)
    ensures forall cell :: GridFor(ops, v).works[q].Writes(cell) <==> cell.1 == q.1 && cell.0 in Slots(v.launch.a, q.0)
  {
    hide ValidEntry, I.PackedRows, I.SlotsApart, Chunks, Slots, IsNull;
    assert GridFor(ops, v).works[q] == I.WorkOf(v.launch.a, v.launch.tok, q.0, q.1);
  }

  lemma {:induction false} OthersKeepOff<S, V, T>(v: Service<S, V, T>, row: seq<int>, b: nat, slot: int)
    requires LaidOut(v) && RowIsOwn(v, row) && b < v.batch && b != v.launch.b && slot in row
    requires ValidEntry(v.launch.a, b) && !IsNull(v.launch.a, b)
    ensures slot !in Slots(v.launch.a, b)
  {
    hide LaidOut, ValidEntry, Slots, IsNull;
  }

  lemma {:induction false} RowAsAlone<S, V, T>(ops: Ops<S, V, T>, v: Service<S, V, T>, req: R.Request<T, V>,
                                               computed: int)
    requires Serves(ops, v, req) && R.Continues(v.launch, req, computed)
    ensures R.KeepsRow(R.Result(ops, v.launch, req.d).states, Final(ops, v).states, req.d, req.row)
  {
    var l, g, now := v.launch, GridFor(ops, v), Final(ops, v);
    var alone := R.Result(ops, l, req.d);
    OwnProgram(ops, v, req, computed);
    I.AnyScheduleIsOutOfPlace(g, v.schedule);
    var w := g.works[(l.b, req.d)];
    assert I.SameTo(w, now, alone);
    forall k | 0 <= k < |req.row| && (req.row[k], req.d as int) in alone.states
      ensures (req.row[k], req.d as int) in now.states
      ensures now.states[(req.row[k], req.d as int)] == alone.states[(req.row[k], req.d as int)]
    {
      CellAsAlone(ops, v, req, computed, k);
    }
  }

  lemma {:induction false} CellAsAlone<S, V, T>(ops: Ops<S, V, T>, v: Service<S, V, T>, req: R.Request<T, V>,
                                                computed: int, k: nat)
    requires Serves(ops, v, req) && R.Continues(v.launch, req, computed) && k < |req.row|
    requires (req.row[k], req.d as int) in R.Result(ops, v.launch, req.d).states
    ensures (req.row[k], req.d as int) in Final(ops, v).states
    ensures Final(ops, v).states[(req.row[k], req.d as int)] ==
            R.Result(ops, v.launch, req.d).states[(req.row[k], req.d as int)]
  {
    hide R.Describes, I.PackedRows, I.SlotsApart, RowIsOwn, ValidEntry, Fits, Chunks, Slots, R.Continues;
    var l, g, now := v.launch, GridFor(ops, v), Final(ops, v);
    var cell, alone := (req.row[k], req.d as int), R.Result(ops, l, req.d);
    OwnProgram(ops, v, req, computed);
    I.AnyScheduleIsOutOfPlace(g, v.schedule);
    var w := g.works[(l.b, req.d)];
    assert I.SameTo(w, now, alone) && cell in now.states;
    if w.Writes(cell) {
      assert w.Uses(cell);
    } else {
      LaunchFacts(l, req, computed);
      assert req.row[k] in req.row;
      forall q | q in g.works ensures !g.works[q].Writes(cell) {
        NobodyElseStores(ops, v, req, req.row[k], q);
      }
      AloneElsewhere(ops, l, req, computed, cell);
    }
  }

  lemma {:induction false} LaunchFacts<S, V, T>(l: R.Launch<S, V, T>, req: R.Request<T, V>, computed: int)
    requires R.Continues(l, req, computed)
    ensures ValidEntry(l.a, l.b) && Fits(l.a, l.b, req.d, l.img) && !IsNull(l.a, l.b)
  {
  }

  lemma {:induction false} AloneElsewhere<S, V, T>(ops: Ops<S, V, T>, l: R.Launch<S, V, T>, req: R.Request<T, V>,
                                                   computed: int, cell: (int, int))
    requires R.Continues(l, req, computed) && ValidEntry(l.a, l.b) && cell in l.img.states
    requires !(cell.1 == req.d && cell.0 in Slots(l.a, l.b))
    ensures cell in R.Result(ops, l, req.d).states && R.Result(ops, l, req.d).states[cell] == l.img.states[cell]
  {
    hide R.Describes, ValidEntry, Fits, Chunks, Slots;
    LaunchFacts(l, req, computed);
    var job := JobOf(ops, l.a, l.tok, l.img, l.b, req.d);
    StoredElsewhere(ops, job, l.img.states, |job.chunks|, cell);
  }

  lemma {:induction false} SameAsAlone<S, V, T>(ops: Ops<S, V, T>, v: Service<S, V, T>, req: R.Request<T, V>,
                                                computed: int)
    requires Serves(ops, v, req) && R.Continues(v.launch, req, computed)
    ensures ValidEntry(v.launch.a, v.launch.b) && Sum(Chunks(v.launch.a, v.launch.b)) >= 0
    ensures I.SameTo(I.WorkOf(v.launch.a, v.launch.tok, v.launch.b, req.d),
                     Final(ops, v), R.Result(ops, v.launch, req.d))
  {
    hide ValidEntry, Fits, Chunks, Slots, I.PackedRows, I.SlotsApart, RowIsOwn, R.Describes, R.Result, I.SameTo;
    OwnProgram(ops, v, req, computed);
    I.AnyScheduleIsOutOfPlace(GridFor(ops, v), v.schedule);
  }

  lemma {:induction false} RowsFromSame<S, V, T>(l: R.Launch<S, V, T>, req: R.Request<T, V>, computed: int,
                                                 now: Image<S, V>, alone: Image<S, V>)
    requires R.Continues(l, req, computed) && ValidEntry(l.a, l.b) && Sum(Chunks(l.a, l.b)) >= 0
    requires I.SameTo(I.WorkOf(l.a, l.tok, l.b, req.d), now, alone)
    ensures |now.delta| == |alone.delta| && |now.z| == |alone.z|
    ensures forall i :: R.DeltaBase(l, req.d) <= i < R.DeltaBase(l, req.d) + l.n && 0 <= i < |now.delta| ==>
              now.delta[i] == alone.delta[i]
    ensures forall i :: l.a.hasZ && R.ZBase(l, req.d) <= i < R.ZBase(l, req.d) + l.n && 0 <= i < |now.z| ==>
              now.z[i] == alone.z[i]
  {
    hide ValidEntry, Chunks, Slots, RowBase, R.Describes;
    var w := I.WorkOf(l.a, l.tok, l.b, req.d);
    forall i | R.DeltaBase(l, req.d) <= i < R.DeltaBase(l, req.d) + l.n && 0 <= i < |now.delta|
      ensures now.delta[i] == alone.delta[i]
    {
      assert w.OwnsDelta(i);
    }
    forall i | l.a.hasZ && R.ZBase(l, req.d) <= i < R.ZBase(l, req.d) + l.n && 0 <= i < |now.z|
      ensures now.z[i] == alone.z[i]
    {
      assert w.OwnsZ(i);
    }
  }

  lemma {:induction false} ActsAlone<S, V, T>(ops: Ops<S, V, T>, v: Service<S, V, T>, req: R.Request<T, V>,
                                              computed: int)
    requires Serves(ops, v, req) && R.Continues(v.launch, req, computed)
    ensures AsAlone(ops, v, req, Final(ops, v))
  {
    ServesFacts(ops, v, req);
    hide R.Continues, Serves, LaidOut, Finished, Final, R.Result, R.KeepsRow, R.DeltaBase, R.ZBase, I.SameTo, I.WorkOf;
    SameAsAlone(ops, v, req, computed);
    RowAsAlone(ops, v, req, computed);
    RowsFromSame(v.launch, req, computed, Final(ops, v), R.Result(ops, v.launch, req.d));
  }

  /** A run of whole launches that continue one another for this request. Between launches the buffers may
      change at will, except that the request's cached states stay. */
  ghost predicate Serviced<S, V, T>(ops: Ops<S, V, T>, run: seq<Service<S, V, T>>, req: R.Request<T, V>) {
    && (forall j :: 0 <= j < |run| ==>
          Serves(ops, run[j], req) && R.Continues(run[j].launch, req, R.Start(run[j].launch, req.bs)))
    && (forall i, j :: 0 <= i && j == i + 1 < |run| ==> Follows(ops, run[i], run[j], req))
  }

  /** The second launch goes on where the first ended, on a cache that still has the request's states. */
  ghost predicate Follows<S, V, T>(ops: Ops<S, V, T>, v: Service<S, V, T>, v': Service<S, V, T>, req: R.Request<T, V>) {
    && Serves(ops, v, req) && R.Start(v'.launch, req.bs) == R.Start(v.launch, req.bs) + v.launch.n
    && R.KeepsRow(Final(ops, v).states, v'.launch.img.states, req.d, req.row)
  }

  ghost function Launches<S, V, T>(run: seq<Service<S, V, T>>): seq<R.Launch<S, V, T>> {
    seq(|run|, j requires 0 <= j < |run| => run[j].launch)
  }

  lemma {:induction false} KeepsThrough<S>(x: map<(int, int), S>, y: map<(int, int), S>, z: map<(int, int), S>, d: nat,
                                           row: seq<int>)
    requires R.KeepsRow(x, y, d, row) && R.KeepsRow(y, z, d, row)
    ensures R.KeepsRow(x, z, d, row)
  {
  }

  lemma {:induction false} ServicedIsServed<S, V, T>(ops: Ops<S, V, T>, run: seq<Service<S, V, T>>,
                                                     req: R.Request<T, V>)
    requires Serviced(ops, run, req)
    ensures R.Served(ops, Launches(run), req)
  {
    hide R.Continues, LaidOut, Finished, RowIsOwn, R.KeepsRow, R.Result, R.Start;
    var ls := Launches(run);
    forall i, j | 0 <= i && j == i + 1 < |ls|
      ensures R.Start(ls[j], req.bs) == R.Start(ls[i], req.bs) + ls[i].n
      ensures R.KeepsRow(R.Result(ops, ls[i], req.d).states, ls[j].img.states, req.d, req.row)
    {
      assert Follows(ops, run[i], run[j], req);
      assert Serves(ops, run[i], req) && R.Continues(run[i].launch, req, R.Start(run[i].launch, req.bs));
      RowAsAlone(ops, run[i], req, R.Start(run[i].launch, req.bs));
      KeepsThrough(R.Result(ops, ls[i], req.d).states, Final(ops, run[i]).states, ls[j].img.states, req.d, req.row);
    }
  }

  lemma {:induction false} OutputsAsAlone<S, V, T>(ops: Ops<S, V, T>, v: Service<S, V, T>, req: R.Request<T, V>,
                                                   now: Image<S, V>, computed: int)
    requires AsAlone(ops, v, req, now)
    requires R.OutputsAre(ops, v.launch, R.Result(ops, v.launch, req.d), req, computed)
    ensures R.OutputsAre(ops, v.launch, now, req, computed)
  {
    hide R.Result, R.DeltaBase, R.ZBase, R.KeepsRow, OutAt;
    forall i | 0 <= i < v.launch.n ensures R.OutputIs(ops, v.launch, now, req, computed, i) {
      assert R.OutputIs(ops, v.launch, R.Result(ops, v.launch, req.d), req, computed, i);
    }
  }

  /** Resuming is invisible in a serving system: however a request is cut into launches, whatever other
      requests share its batches as long as they store into their own slots, and however the programs of each
      launch interleave, every launch leaves the request's outputs of the one uninterrupted scan, and the cache
      ends with its states. */
  lemma {:induction false} ResumingIsInvisibleInService<S, V, T>(ops: Ops<S, V, T>, run: seq<Service<S, V, T>>,
                                                                 req: R.Request<T, V>, f': nat, phase': nat)
    requires Serviced(ops, run, req) && run != []
    requires var first := run[0].launch;
             R.Start(first, req.bs) > 0 ==> R.CacheHolds(ops, req, first.img.states, first.f, first.phase)
    requires var last := run[|run|-1].launch;
             phase' < req.bs && f' * req.bs + phase' == R.Start(last, req.bs) + last.n
    ensures forall j :: 0 <= j < |run| ==>
              && LaidOut(run[j]) && Finished(ops, run[j])
              && R.OutputsAre(ops, run[j].launch, Final(ops, run[j]), req, R.Start(run[j].launch, req.bs))
    ensures LaidOut(run[|run|-1]) && Finished(ops, run[|run|-1])
    ensures R.CacheHolds(ops, req, Final(ops, run[|run|-1]).states, f', phase')
  {
    hide R.Continues, R.KeepsRow, R.Result, R.OutputsAre, R.CacheHolds, R.Served, AsAlone, LaidOut, Finished, RowIsOwn;
    var ls := Launches(run);
    ServicedIsServed(ops, run, req);
    R.ResumingIsInvisible(ops, ls, req, f', phase');
    forall j | 0 <= j < |run|
      ensures LaidOut(run[j]) && Finished(ops, run[j])
      ensures R.OutputsAre(ops, run[j].launch, Final(ops, run[j]), req, R.Start(run[j].launch, req.bs))
    {
      assert Serves(ops, run[j], req) && ls[j] == run[j].launch;
      ActsAlone(ops, run[j], req, R.Start(run[j].launch, req.bs));
      OutputsAsAlone(ops, run[j], req, Final(ops, run[j]), R.Start(run[j].launch, req.bs));
    }
    var last := run[|run|-1];
    RowAsAlone(ops, last, req, R.Start(last.launch, req.bs));
    R.CacheKept(ops, req, R.Result(ops, last.launch, req.d).states, Final(ops, last).states, f', phase');
  }

  // ---------------------------------------------------------------- every cutting is a run

  /** The launches are those pieces, one after the other. */
  ghost predicate Pieces<S, V, T>(run: seq<Service<S, V, T>>, cuts: seq<int>, bs: nat) {
    && |run| == |cuts|
    && forall j :: 0 <= j < |run| ==> run[j].launch.n == cuts[j] && R.Start(run[j].launch, bs) == Sum(cuts[..j])
  }

  lemma {:induction false} PiecesEnd<S, V, T>(run: seq<Service<S, V, T>>, cuts: seq<int>, bs: nat, m: nat)
    requires 0 < m <= |cuts| && Pieces(run, cuts[..m], bs)
    ensures |run| == m && R.Start(run[m-1].launch, bs) + run[m-1].launch.n == Sum(cuts[..m])
  {
    hide R.Start;
    SumStep(cuts, m - 1);
    assert cuts[..m][..m-1] == cuts[..m-1];
  }

  lemma {:induction false} OneMorePiece<S, V, T>(run: seq<Service<S, V, T>>, cuts: seq<int>, bs: nat,
                                                 v: Service<S, V, T>)
    requires cuts != [] && Pieces(run, cuts[..|cuts|-1], bs)
    requires v.launch.n == cuts[|cuts|-1] && R.Start(v.launch, bs) == Sum(cuts[..|cuts|-1])
    ensures Pieces(run + [v], cuts, bs)
  {
    hide R.Start, Sum;
    var m := |cuts| - 1;
    forall j | 0 <= j < m ensures run[j].launch.n == cuts[j] && R.Start(run[j].launch, bs) == Sum(cuts[..j]) {
      assert cuts[..m][..j] == cuts[..j];
    }
  }

  /** A launch alone in its batch is laid out as required. */
  lemma {:induction false} LoneIsLaidOut<S, V, T>(l: R.Launch<S, V, T>, req: R.Request<T, V>, schedule: seq<I.Prog>)
    requires ValidEntry(l.a, 0) && R.LoneLayout(l.a, l.n) && |l.img.delta| == (req.d + 1) * l.n
    requires Sum(Chunks(l.a, 0)) == l.n && R.RowPresent(req, l.img.states) && LoadSlot(l.a, 0) in req.row
    requires forall k :: 0 <= k < |Slots(l.a, 0)| ==> Slots(l.a, 0)[k] in req.row
    ensures LaidOut(Service(l, 1, req.d + 1, schedule))
  {
    hide ValidEntry, Fits, Chunks, Slots, LoadSlot, R.RowPresent, Sum;
    forall b, d | 0 <= b < 1 && 0 <= d < req.d + 1 ensures ValidEntry(l.a, b) && Fits(l.a, b, d, l.img) {
      R.LoneFits(l.a, req, d, l.n, l.img);
    }
  }

  /** Any next piece of a request can be served by a whole launch. */
  lemma {:induction false} ServiceExists<S, V, T>(ops: Ops<S, V, T>, req: R.Request<T, V>, computed: nat, n: nat,
                                                  states: map<(int, int), S>)
    returns (v: Service<S, V, T>)
    requires req.Valid() && n > 0 && req.row != [] && R.RowPresent(req, states)
    requires computed + n <= |req.toks| && computed + n <= |req.row| * req.bs
    ensures Serves(ops, v, req) && R.Start(v.launch, req.bs) == computed && R.Continues(v.launch, req, computed)
    ensures v.launch.n == n && v.launch.img.states == states && R.RowPresent(req, Final(ops, v).states)
  {
    hide R.RowPresent, R.Continues, R.LoneLayout, ValidEntry, Chunks, Slots, Sum, LoadSlot, LaidOut, I.Apart, I.Inv;
    var f, phase := computed / req.bs, computed % req.bs;
    assert f * req.bs + phase == computed;
    var l := R.LaunchExists(req, f, phase, n, states);
    LaunchFacts(l, req, computed);
    LoneIsLaidOut(l, req, []);
    var idle := Service(l, 1, req.d + 1, []);
    var schedule := I.EveryGridFinishes(GridFor(ops, idle));
    v := Service(l, 1, req.d + 1, schedule);
    LoneIsLaidOut(l, req, schedule);
    SameGrid(ops, idle, v);
    OwnRow(v, req.row);
    FinalKeepsRow(ops, v, req);
  }

  lemma {:induction false} SameGrid<S, V, T>(ops: Ops<S, V, T>, v: Service<S, V, T>, v': Service<S, V, T>)
    requires LaidOut(v) && LaidOut(v') && v'.launch == v.launch && v'.batch == v.batch && v'.dims == v.dims
    ensures GridFor(ops, v') == GridFor(ops, v)
  {
    hide LaidOut;
  }

  lemma {:induction false} OwnRow<S, V, T>(v: Service<S, V, T>, row: seq<int>)
    requires LaidOut(v) && v.batch == 1 && v.launch.b == 0
    ensures RowIsOwn(v, row)
  {
    hide LaidOut, Slots, IsNull;
  }

  lemma {:induction false} FinalKeepsRow<S, V, T>(ops: Ops<S, V, T>, v: Service<S, V, T>, req: R.Request<T, V>)
    requires LaidOut(v) && Finished(ops, v) && R.RowPresent(req, v.launch.img.states)
    ensures R.RowPresent(req, Final(ops, v).states)
  {
    hide I.Tracks, I.Apart, LaidOut;
    assert I.Inv(GridFor(ops, v), I.Run(GridFor(ops, v), v.schedule));
    assert GridFor(ops, v).img == v.launch.img;
  }

  /** However a request is cut, a run of whole launches serves exactly those pieces: the theorem above speaks
      about every cutting of every request whose blocks have slots. */
  lemma {:induction false} EveryCuttingRuns<S, V, T>(ops: Ops<S, V, T>, req: R.Request<T, V>, cuts: seq<int>,
                                                     states: map<(int, int), S>)
    returns (run: seq<Service<S, V, T>>)
    requires req.Valid() && req.row != [] && R.RowPresent(req, states) && (forall j :: 0 <= j < |cuts| ==> cuts[j] > 0)
    requires Sum(cuts) <= |req.toks| && Sum(cuts) <= |req.row| * req.bs
    ensures Serviced(ops, run, req) && Pieces(run, cuts, req.bs) && |run| == |cuts|
    ensures run != [] ==>
              Serves(ops, run[|run|-1], req) && R.RowPresent(req, Final(ops, run[|run|-1]).states)
    decreases |cuts|
  {
    if cuts == [] {
      run := [];
    } else {
      hide R.RowPresent, R.Continues, Serviced, Pieces, R.Start, Serves, LaidOut, Finished, Sum;
      var m := |cuts| - 1;
      assert cuts[..m+1] == cuts;
      SumStep(cuts, m);
      SumMonotone0(cuts, m);
      run := EveryCuttingRuns(ops, req, cuts[..m], states);
      if m > 0 { PiecesEnd(run, cuts, req.bs, m); } else { SumNone(cuts); }
      var computed: nat := Sum(cuts[..m]);
      var before := states;
      if m > 0 {
        assert LaidOut(run[m-1]) && Finished(ops, run[m-1]) by { ServesFacts(ops, run[m-1], req); }
        before := Final(ops, run[m-1]).states;
      }
      var v := ServiceExists(ops, req, computed, cuts[m], before);
      ExtendRun(ops, req, run, v);
      OneMorePiece(run, cuts, req.bs, v);
      run := run + [v];
    }
  }

  lemma {:induction false} ServesFacts<S, V, T>(ops: Ops<S, V, T>, v: Service<S, V, T>, req: R.Request<T, V>)
    requires Serves(ops, v, req)
    ensures LaidOut(v) && Finished(ops, v)
  {
  }

  lemma {:induction false} ExtendRun<S, V, T>(ops: Ops<S, V, T>, req: R.Request<T, V>, run: seq<Service<S, V, T>>,
                                              v: Service<S, V, T>)
    requires Serviced(ops, run, req) && Serves(ops, v, req) && R.Continues(v.launch, req, R.Start(v.launch, req.bs))
    requires run != [] ==>
               var last := run[|run|-1];
               && Serves(ops, last, req)
               && R.Start(v.launch, req.bs) == R.Start(last.launch, req.bs) + last.launch.n
               && v.launch.img.states == Final(ops, last).states
    ensures Serviced(ops, run + [v], req)
  {
    hide R.Continues, Serves, Follows, R.Start, Final, LaidOut, Finished;
    var longer, n := run + [v], |run|;
    if run != [] { FollowsLast(ops, run[n-1], v, req); }
    forall i, j | 0 <= i && j == i + 1 < |longer| ensures Follows(ops, longer[i], longer[j], req) {
      assert longer[i] == run[i];
      if j < n { assert longer[j] == run[j]; }
    }
  }

  lemma {:induction false} FollowsLast<S, V, T>(ops: Ops<S, V, T>, v: Service<S, V, T>, v': Service<S, V, T>,
                                                req: R.Request<T, V>)
    requires Serves(ops, v, req) && R.Start(v'.launch, req.bs) == R.Start(v.launch, req.bs) + v.launch.n
    requires v'.launch.img.states == Final(ops, v).states
    ensures Follows(ops, v, v', req)
  {
    hide LaidOut, Finished, RowIsOwn, R.KeepsRow, R.Start;
    KeepsItself(v'.launch.img.states, req.d, req.row);
  }

  lemma {:induction false} KeepsItself<S>(states: map<(int, int), S>, d: nat, row: seq<int>)
    ensures R.KeepsRow(states, states, d, row)
  {
  }
}
