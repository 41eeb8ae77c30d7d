/** The driver as the allocator sees it, and the allocator on top of it. */
module RocmAllocator {
  import opened ChunkPlan
  import opened Wrappers
  import opened Arith

  datatype Mapping = Mapping(size: int, handle: int)

  ghost predicate Overlap(p: int, size: int, q: int, size': int) {
    p < q + size' && q < p + size
  }

  ghost predicate Disjoint(ranges: map<int, int>) {
    forall p, q :: p in ranges && q in ranges && p != q ==> !Overlap(p, ranges[p], q, ranges[q])
  }

  /** Virtual-memory driver state. Creating, mapping, reserving and granting access may fail at any
      time; undoing succeeds whenever it names something that is there. */
  class Driver {
    const granularity: int           // smallest unit of physical memory
    const honoursHints: bool         // reserves the very address it is asked for, or fails
    var reserved: map<int, int>      // address -> size of the reservation
    var handles: map<int, int>       // live physical handle -> size
    var mapped: map<int, Mapping>    // address -> what is mapped there
    ghost var faults: nat            // calls that returned an error
    ghost var wanted: int            // address the last reservation asked for
    ghost var offered: int           // address the last successful reservation was given

    constructor (granularity: int, honoursHints: bool)
      ensures this.granularity == granularity && this.honoursHints == honoursHints
      ensures reserved == map[] && handles == map[] && mapped == map[] && faults == 0
    {
      this.granularity, this.honoursHints := granularity, honoursHints;
      reserved, handles, mapped, faults := map[], map[], map[], 0;
      wanted, offered := 0, 0;
    }

    ghost method Count(status: int)
      modifies this`faults
      ensures faults == old(faults) + if status == 0 then 0 else 1
    {
      faults := faults + if status == 0 then 0 else 1;
    }

    /** Reserve a range disjoint from all others. A non-zero `hint` may be ignored. */
    method AddressReserve(size: int, alignment: int, hint: int) returns (status: int, p: int)
      modifies this`reserved, this`faults, this`wanted, this`offered
      ensures faults == old(faults) + if status == 0 then 0 else 1
      ensures wanted == hint && offered == if status == 0 then p else old(offered)
      ensures status != 0 ==> reserved == old(reserved)
      ensures status == 0 ==>
                && size > 0 && p != 0 && p !in old(reserved) && reserved == old(reserved)[p := size]
                && (alignment > 0 ==> p % alignment == 0) && (honoursHints && hint != 0 ==> p == hint)
                && (forall q :: q in old(reserved) ==> !Overlap(p, size, q, old(reserved)[q]))
    {
      status, p := *, *;
      if status == 0 {
        if size <= 0 || p == 0 || p in reserved || (alignment > 0 && p % alignment != 0) ||
           (honoursHints && hint != 0 && p != hint) ||
           exists q :: q in reserved && p < q + reserved[q] && q < p + size {
          status := 1;
        } else {
          reserved := reserved[p := size];
          offered := p;
        }
      }
      wanted := hint;
      Count(status);
    }

    /** Give a whole reservation back, once nothing is mapped in it. */
    method AddressFree(p: int, size: int) returns (status: int)
      modifies this`reserved, this`faults
      ensures faults == old(faults) + if status == 0 then 0 else 1
      ensures status == 0 <==>
              old(p in reserved && reserved[p] == size && !exists a :: a in mapped && p <= a < p + size)
      ensures reserved == if status == 0 then old(reserved) - {p} else old(reserved)
    {
      if p in reserved && reserved[p] == size && !exists a :: a in mapped && p <= a < p + size {
        reserved := reserved - {p};
        status := 0;
      } else {
        status := 1;
      }
      Count(status);
    }

    method MemCreate(size: int) returns (status: int, h: int)
      modifies this`handles, this`faults
      ensures faults == old(faults) + if status == 0 then 0 else 1
      ensures status == 0 ==> h !in old(handles) && handles == old(handles)[h := size]
      ensures status != 0 ==> handles == old(handles)
    {
      status, h := *, *;
      if status == 0 {
        if h in handles {
          status := 1;
        } else {
          handles := handles[h := size];
        }
      }
      Count(status);
    }

    method MemRelease(h: int) returns (status: int)
      modifies this`handles, this`faults
      ensures faults == old(faults) + if status == 0 then 0 else 1
      ensures status == 0 <==> h in old(handles)
      ensures handles == old(handles) - {h}
    {
      status := if h in handles then 0 else 1;
      handles := handles - {h};
      Count(status);
    }

    /** Map a live handle of that size where nothing is mapped yet. */
    method MemMap(a: int, size: int, h: int) returns (status: int)
      modifies this`mapped, this`faults
      ensures faults == old(faults) + if status == 0 then 0 else 1
      ensures status == 0 ==>
                && a !in old(mapped) && h in handles && handles[h] == size &&
                    mapped == old(mapped)[a := Mapping(size, h)]
                && (forall b :: b in old(mapped) ==> !Overlap(a, size, b, old(mapped)[b].size))
      ensures status != 0 ==> mapped == old(mapped)
    {
      status := *;
      if status == 0 {
        if a in mapped || h !in handles || handles[h] != size ||
           exists b :: b in mapped && a < b + mapped[b].size && b < a + size {
          status := 1;
        } else {
          mapped := mapped[a := Mapping(size, h)];
        }
      }
      Count(status);
    }

    method MemUnmap(a: int, size: int) returns (status: int)
      modifies this`mapped, this`faults
      ensures faults == old(faults) + if status == 0 then 0 else 1
      ensures status == 0 <==> old(a in mapped && mapped[a].size == size)
      ensures mapped == if status == 0 then old(mapped) - {a} else old(mapped)
    {
      if a in mapped && mapped[a].size == size {
        mapped := mapped - {a};
        status := 0;
      } else {
        status := 1;
      }
      Count(status);
    }

    /** Grant access to a range, which must have memory behind it. */
    method SetAccess(p: int, size: int) returns (status: int)
      modifies this`faults
      ensures faults == old(faults) + if status == 0 then 0 else 1
      ensures status == 0 ==> p in mapped
    {
      status := *;
      if status == 0 && p !in mapped { status := 1; }
      Count(status);
    }
  }

  // ---------------------------------------------------------------- chunk by chunk

  /** Where chunk i of an allocation at p lies. */
  function Addr(p: int, sizes: seq<int>, i: nat): int
    requires i <= |sizes|
  {
    p + Sum(sizes[..i])
  }

  ghost predicate Positive(sizes: seq<int>) {
    forall i :: 0 <= i < |sizes| ==> sizes[i] > 0
  }

  ghost function Addrs(p: int, sizes: seq<int>, n: nat): set<int>
    requires n <= |sizes|
  {
    set i | 0 <= i < n :: Addr(p, sizes, i)
  }

  ghost function Prefix(hs: seq<int>, n: nat): set<int>
    requires n <= |hs|
  {
    set i | 0 <= i < n :: hs[i]
  }

  ghost function WithHandles(base: map<int, int>, sizes: seq<int>, hs: seq<int>, n: nat): map<int, int>
    requires n <= |hs| && n <= |sizes|
  {
    if n == 0 then base else WithHandles(base, sizes, hs, n - 1)[hs[n-1] := sizes[n-1]]
  }

  ghost function WithMaps(base: map<int, Mapping>, p: int, sizes: seq<int>, hs: seq<int>, n: nat): map<int, Mapping>
    requires n <= |hs| && n <= |sizes|
  {
    if n == 0 then base
    else WithMaps(base, p, sizes, hs, n - 1)[Addr(p, sizes, n - 1) := Mapping(sizes[n-1], hs[n-1])]
  }

  /** The handles are new and pairwise different. */
  ghost predicate NewHandles(base: map<int, int>, hs: seq<int>) {
    && (forall i :: 0 <= i < |hs| ==> hs[i] !in base)
    && (forall i, j :: 0 <= i < j < |hs| ==> hs[i] != hs[j])
  }

  lemma {:induction false} AddrOrder(p: int, sizes: seq<int>, i: nat, j: nat)
    requires Positive(sizes) && i < j <= |sizes|
    ensures Addr(p, sizes, i) + sizes[i] <= Addr(p, sizes, j)
  {
    if j == i + 1 {
      SumStep(sizes, i);
    } else {
      AddrOrder(p, sizes, i, j - 1);
      SumStep(sizes, j - 1);
    }
  }

  lemma {:induction false} AddrRange(p: int, sizes: seq<int>, i: nat)
    requires Positive(sizes) && i < |sizes|
    ensures p <= Addr(p, sizes, i) && Addr(p, sizes, i) + sizes[i] <= p + Sum(sizes)
  {
    assert sizes[..|sizes|] == sizes && sizes[..0] == [];
    AddrOrder(p, sizes, i, |sizes|);
    if i > 0 { AddrOrder(p, sizes, 0, i); }
  }

  lemma {:induction false} HandlesFacts(base: map<int, int>, sizes: seq<int>, hs: seq<int>, n: nat)
    requires n <= |hs| && n <= |sizes| && NewHandles(base, hs)
    ensures WithHandles(base, sizes, hs, n).Keys == base.Keys + Prefix(hs, n)
    ensures WithHandles(base, sizes, hs, n) - Prefix(hs, n) == base
    ensures forall i :: 0 <= i < n ==> WithHandles(base, sizes, hs, n)[hs[i]] == sizes[i]
  {
    if n > 0 {
      HandlesFacts(base, sizes, hs, n - 1);
      assert Prefix(hs, n) == Prefix(hs, n - 1) + {hs[n-1]};
    }
  }

  lemma {:induction false} MapsFacts(base: map<int, Mapping>, p: int, sizes: seq<int>, hs: seq<int>, n: nat)
    requires n <= |hs| && n <= |sizes| && Positive(sizes) && Addrs(p, sizes, n) !! base.Keys
    ensures WithMaps(base, p, sizes, hs, n).Keys == base.Keys + Addrs(p, sizes, n)
    ensures WithMaps(base, p, sizes, hs, n) - Addrs(p, sizes, n) == base
    ensures forall i :: 0 <= i < n ==> WithMaps(base, p, sizes, hs, n)[Addr(p, sizes, i)] == Mapping(sizes[i], hs[i])
  {
    hide Sum, Positive, Addr;
    if n > 0 {
      AddrsStep(p, sizes, n - 1);
      MapsFacts(base, p, sizes, hs, n - 1);
      hide Addrs;
      var before, now, a := WithMaps(base, p, sizes, hs, n - 1), WithMaps(base, p, sizes, hs, n), Addr(p, sizes, n - 1);
      assert a !in before && now == before[a := Mapping(sizes[n-1], hs[n-1])];
      assert now - Addrs(p, sizes, n) == before - Addrs(p, sizes, n - 1);
    }
  }

  lemma {:induction false} AddrsStep(p: int, sizes: seq<int>, n: nat)
    requires n < |sizes| && Positive(sizes)
    ensures Addrs(p, sizes, n + 1) == Addrs(p, sizes, n) + {Addr(p, sizes, n)}
    ensures forall i :: 0 <= i < n ==> Addr(p, sizes, i) != Addr(p, sizes, n)
  {
    forall i | 0 <= i < n ensures Addr(p, sizes, i) != Addr(p, sizes, n) {
      AddrOrder(p, sizes, i, n);
    }
  }

  /** Unmapping the first k mapped chunks, and releasing the first k handles. */
  lemma {:induction false} UnmapStep(base: map<int, Mapping>, p: int, sizes: seq<int>, hs: seq<int>, n: nat, k: nat)
    requires k < n <= |hs| && n <= |sizes| && Positive(sizes) && Addrs(p, sizes, n) !! base.Keys
    ensures var now := WithMaps(base, p, sizes, hs, n) - Addrs(p, sizes, k);
            && Addr(p, sizes, k) in now && now[Addr(p, sizes, k)].size == sizes[k]
            && now - {Addr(p, sizes, k)} == WithMaps(base, p, sizes, hs, n) - Addrs(p, sizes, k + 1)
  {
    MapsFacts(base, p, sizes, hs, n);
    AddrsStep(p, sizes, k);
    assert Addr(p, sizes, k) in Addrs(p, sizes, n);
  }

  lemma {:induction false} ReleaseStep(base: map<int, int>, sizes: seq<int>, hs: seq<int>, n: nat, k: nat)
    requires k < n <= |hs| && n <= |sizes| && NewHandles(base, hs[..n])
    ensures WithHandles(base, sizes, hs, n) - Prefix(hs, k) - {hs[k]} ==
            WithHandles(base, sizes, hs, n) - Prefix(hs, k + 1)
    ensures hs[k] in WithHandles(base, sizes, hs, n) - Prefix(hs, k)
  {
    assert Prefix(hs, k + 1) == Prefix(hs, k) + {hs[k]};
    HandlesFactsUpTo(base, sizes, hs, n);
    assert hs[k] == hs[..n][k] && hs[k] in Prefix(hs, n);
    forall i | 0 <= i < k ensures hs[i] != hs[k] {
      assert hs[..n][i] != hs[..n][k];
    }
  }

  lemma {:induction false} HandlesFactsUpTo(base: map<int, int>, sizes: seq<int>, hs: seq<int>, n: nat)
    requires n <= |hs| && n <= |sizes| && NewHandles(base, hs[..n])
    ensures WithHandles(base, sizes, hs, n).Keys == base.Keys + Prefix(hs, n)
    ensures WithHandles(base, sizes, hs, n) - Prefix(hs, n) == base
  {
    SameHandles(base, sizes, hs, hs[..n], n);
    HandlesFacts(base, sizes, hs[..n], n);
    assert Prefix(hs, n) == Prefix(hs[..n], n);
  }

  lemma {:induction false} SameHandles(base: map<int, int>, sizes: seq<int>, hs: seq<int>, hs': seq<int>, n: nat)
    requires n <= |hs| && n <= |hs'| && n <= |sizes| && hs[..n] == hs'[..n]
    ensures WithHandles(base, sizes, hs, n) == WithHandles(base, sizes, hs', n)
  {
    if n > 0 {
      assert hs[..n-1] == hs[..n][..n-1] == hs'[..n][..n-1] == hs'[..n-1];
      assert hs[n-1] == hs[..n][n-1] == hs'[n-1];
      SameHandles(base, sizes, hs, hs', n - 1);
    }
  }

  // ---------------------------------------------------------------- who owns what

  /** What the Python side remembers of an allocation: its size, its chunks and their handles, and
      whether it is asleep. */
  datatype Entry = Entry(size: int, chunks: seq<int>, handles: seq<int>, asleep: bool)

  /** Where the memory of an entry really is: mapped, held as an empty reservation, or nowhere. */
  datatype Residence = Resident | Placeholder | Gone

  /** The driver state as a value. */
  datatype World = World(reserved: map<int, int>, handles: map<int, int>, mapped: map<int, Mapping>)

  ghost predicate WellFormed(e: Entry) {
    e.chunks != [] && Positive(e.chunks) && Sum(e.chunks) == e.size && |e.handles| == |e.chunks|
  }

  ghost predicate IsResident(t: map<int, Entry>, res: map<int, Residence>, p: int) {
    p in t && p in res && res[p].Resident? && WellFormed(t[p])
  }

  ghost predicate Owns(t: map<int, Entry>, res: map<int, Residence>, p: int, i: int) {
    IsResident(t, res, p) && 0 <= i < |t[p].chunks|
  }

  ghost predicate OwnerOf(t: map<int, Entry>, res: map<int, Residence>, p: int, i: int, a: int) {
    Owns(t, res, p, i) && a == Addr(p, t[p].chunks, i)
  }

  /** Reservations are exactly those of the entries that are not gone, and never overlap. */
  ghost predicate Reservations(t: map<int, Entry>, res: map<int, Residence>, reserved: map<int, int>) {
    && t.Keys == res.Keys && Disjoint(reserved)
    && (forall p :: p in reserved <==> p in res && !res[p].Gone?)
    && (forall p :: p in reserved ==> WellFormed(t[p]) && reserved[p] == t[p].size)
  }

  /** The mappings are exactly the chunks of the resident entries. */
  ghost predicate Mappings(t: map<int, Entry>, res: map<int, Residence>, mapped: map<int, Mapping>) {
    && (forall p, i :: Owns(t, res, p, i) ==>
          Addr(p, t[p].chunks, i) in mapped &&
              mapped[Addr(p, t[p].chunks, i)] == Mapping(t[p].chunks[i], t[p].handles[i]))
    && (forall a :: a in mapped ==> exists p, i :: OwnerOf(t, res, p, i, a))
  }

  ghost predicate HoldsHandle(mapped: map<int, Mapping>, a: int, h: int) {
    a in mapped && mapped[a].handle == h
  }

  /** Every live handle is mapped exactly once, with its size. */
  ghost predicate Bijection(mapped: map<int, Mapping>, handles: map<int, int>) {
    && (forall a :: a in mapped ==> mapped[a].handle in handles && handles[mapped[a].handle] == mapped[a].size)
    && (forall a, b :: a in mapped && b in mapped && a != b ==> mapped[a].handle != mapped[b].handle)
    && (forall h :: h in handles ==> exists a :: HoldsHandle(mapped, a, h))
  }

  ghost predicate Consistent(t: map<int, Entry>, res: map<int, Residence>, w: World) {
    Reservations(t, res, w.reserved) && Mappings(t, res, w.mapped) && Bijection(w.mapped, w.handles)
  }

  /** All mapped memory lies inside reservations. */
  ghost predicate MapsInside(w: World) {
    forall a :: a in w.mapped ==> exists p :: p in w.reserved && p <= a < p + w.reserved[p]
  }

  lemma {:induction false} ConsistentInside(t: map<int, Entry>, res: map<int, Residence>, w: World)
    requires Consistent(t, res, w)
    ensures MapsInside(w)
  {
    forall a | a in w.mapped ensures exists p :: p in w.reserved && p <= a < p + w.reserved[p] {
      var p, i :| OwnerOf(t, res, p, i, a);
      AddrRange(p, t[p].chunks, i);
      assert p in w.reserved;
    }
  }

  /** Nothing is mapped in a range that avoids all reservations. */
  lemma {:induction false} FreshIsEmpty(w: World, p: int, size: int)
    requires MapsInside(w) && FreshRange(w, p, size)
    ensures forall a :: a in w.mapped ==> !(p <= a < p + size)
  {
  }

  /** Chunks of different owners, and different chunks of one owner, lie apart. */
  lemma {:induction false} OwnersApart(t: map<int, Entry>, res: map<int, Residence>, reserved: map<int, int>, p: int,
                                       i: int, q: int, j: int)
    requires Reservations(t, res, reserved) && Owns(t, res, p, i) && Owns(t, res, q, j) && (p != q || i != j)
    ensures Addr(p, t[p].chunks, i) != Addr(q, t[q].chunks, j)
  {
    AddrRange(p, t[p].chunks, i);
    AddrRange(q, t[q].chunks, j);
    if p != q {
      assert p in reserved && q in reserved && !Overlap(p, reserved[p], q, reserved[q]);
    } else if i < j {
      AddrOrder(p, t[p].chunks, i, j);
    } else {
      AddrOrder(p, t[p].chunks, j, i);
    }
  }

  /** A new reservation, empty so far. */
  lemma {:induction false} ReserveKeeps(t: map<int, Entry>, res: map<int, Residence>, w: World, p: int, e: Entry)
    requires Consistent(t, res, w) && FreshRange(w, p, e.size) && WellFormed(e)
    ensures Consistent(t[p := e], res[p := Placeholder], w.(reserved := w.reserved[p := e.size]))
  {
    hide Bijection, WellFormed;
    var t', res' := t[p := e], res[p := Placeholder];
    SameOwners(t, res, t', res', w.mapped);
    var r' := w.reserved[p := e.size];
    forall q, q' | q in r' && q' in r' && q != q' ensures !Overlap(q, r'[q], q', r'[q']) {
    }
  }

  /** The same entries are resident, with the same chunks and handles. */
  ghost predicate SameResidents(t: map<int, Entry>, res: map<int, Residence>, t': map<int, Entry>,
                                res': map<int, Residence>) {
    forall q :: IsResident(t, res, q) || IsResident(t', res', q) ==>
      && IsResident(t, res, q) && IsResident(t', res', q)
      && t[q].chunks == t'[q].chunks && t[q].handles == t'[q].handles
  }

  /** Mappings depend only on the resident entries. */
  lemma {:induction false} SameOwners(t: map<int, Entry>, res: map<int, Residence>, t': map<int, Entry>,
                                      res': map<int, Residence>, mapped: map<int, Mapping>)
    requires Mappings(t, res, mapped) && SameResidents(t, res, t', res')
    ensures Mappings(t', res', mapped)
  {
    hide Sum, Positive;
    forall p, i | Owns(t', res', p, i)
      ensures Addr(p, t'[p].chunks, i) in mapped
      ensures mapped[Addr(p, t'[p].chunks, i)] == Mapping(t'[p].chunks[i], t'[p].handles[i])
    {
      assert Owns(t, res, p, i);
    }
    forall a | a in mapped ensures exists p, i :: OwnerOf(t', res', p, i, a) {
      var p, i :| OwnerOf(t, res, p, i, a);
      assert OwnerOf(t', res', p, i, a);
    }
  }

  /** An empty reservation given back. */
  lemma {:induction false} UnreserveKeeps(t: map<int, Entry>, res: map<int, Residence>, w: World, p: int, e: Entry)
    requires Consistent(t, res, w) && p in res && res[p].Placeholder?
    ensures Consistent(t - {p}, res - {p}, w.(reserved := w.reserved - {p}))
    ensures Consistent(t[p := e], res[p := Gone], w.(reserved := w.reserved - {p}))
  {
    hide Bijection, WellFormed;
    SameOwners(t, res, t - {p}, res - {p}, w.mapped);
    SameOwners(t, res, t[p := e], res[p := Gone], w.mapped);
  }

  /** An entry without any memory. */
  lemma {:induction false} GoneKeeps(t: map<int, Entry>, res: map<int, Residence>, w: World, p: int, e: Entry)
    requires Consistent(t, res, w) && p !in w.reserved
    ensures Consistent(t[p := e], res[p := Gone], w)
  {
    hide Bijection, WellFormed;
    SameOwners(t, res, t[p := e], res[p := Gone], w.mapped);
  }

  /** What stays and what comes when an allocation is mapped. */
  lemma {:induction false} MapsGrow(base: map<int, Mapping>, p: int, sizes: seq<int>, hs: seq<int>)
    requires |hs| == |sizes| && Positive(sizes) && Addrs(p, sizes, |sizes|) !! base.Keys
    ensures var now := WithMaps(base, p, sizes, hs, |sizes|);
            && (forall a :: a in base ==> a in now && now[a] == base[a])
            && (forall a :: a in now && a !in base ==> exists i :: 0 <= i < |sizes| && a == Addr(p, sizes, i))
            && (forall i :: 0 <= i < |sizes| ==>
                  Addr(p, sizes, i) in now && Addr(p, sizes, i) !in base &&
                      now[Addr(p, sizes, i)] == Mapping(sizes[i], hs[i]))
  {
    hide Sum, Positive, Addr, WithMaps;
    var n := |sizes|;
    MapsFacts(base, p, sizes, hs, n);
    var now := WithMaps(base, p, sizes, hs, n);
    forall a | a in base ensures a in now && now[a] == base[a] {
      assert a in (now - Addrs(p, sizes, n));
    }
    assert forall i :: 0 <= i < n ==> Addr(p, sizes, i) in Addrs(p, sizes, n);
  }

  lemma {:induction false} BijectionGrows(base: map<int, Mapping>, handles: map<int, int>, p: int, sizes: seq<int>,
                                          hs: seq<int>)
    requires Bijection(base, handles) && NewHandles(handles, hs)
    requires |hs| == |sizes| && Positive(sizes) && Addrs(p, sizes, |sizes|) !! base.Keys
    ensures Bijection(WithMaps(base, p, sizes, hs, |sizes|), WithHandles(handles, sizes, hs, |sizes|))
  {
    hide Sum, Positive, Addr, Addrs, WithMaps, WithHandles;
    var n := |sizes|;
    var now, live := WithMaps(base, p, sizes, hs, n), WithHandles(handles, sizes, hs, n);
    MapsGrow(base, p, sizes, hs);
    HandlesFacts(handles, sizes, hs, n);
    assert forall h :: h in handles ==> h in live && live[h] == handles[h] by {
      forall h | h in handles ensures h in live && live[h] == handles[h] {
        assert h in live - Prefix(hs, n);
      }
    }
    forall h | h in live ensures exists a :: HoldsHandle(now, a, h) {
      if h in handles {
        var a :| HoldsHandle(base, a, h);
        assert HoldsHandle(now, a, h);
      } else {
        var i :| 0 <= i < n && hs[i] == h;
        assert HoldsHandle(now, Addr(p, sizes, i), h);
      }
    }
  }

  lemma {:induction false} BijectionShrinks(mapped: map<int, Mapping>, handles: map<int, int>, p: int, sizes: seq<int>,
                                            hs: seq<int>)
    requires Bijection(mapped, handles) && |hs| == |sizes|
    requires forall i :: 0 <= i < |sizes| ==> Addr(p, sizes, i) in mapped && mapped[Addr(p, sizes, i)].handle == hs[i]
    ensures Bijection(mapped - Addrs(p, sizes, |sizes|), handles - Prefix(hs, |hs|))
  {
    hide Sum, Addr;
    var n := |sizes|;
    var now, live := mapped - Addrs(p, sizes, n), handles - Prefix(hs, n);
    forall a | a in now ensures mapped[a].handle !in Prefix(hs, n) {
      assert forall i :: 0 <= i < n ==> a != Addr(p, sizes, i);
    }
    forall h | h in live ensures exists a :: HoldsHandle(now, a, h) {
      var a :| HoldsHandle(mapped, a, h);
      assert HoldsHandle(now, a, h);
    }
  }

  /** Memory mapped into an empty reservation. */
  lemma {:induction false} MapInKeeps(t: map<int, Entry>, res: map<int, Residence>, w: World, p: int, hs: seq<int>,
                                      asleep: bool)
    requires Consistent(t, res, w) && p in res && res[p].Placeholder?
    requires |hs| == |t[p].chunks| && NewHandles(w.handles, hs) && Addrs(p, t[p].chunks, |hs|) !! w.mapped.Keys
    ensures var e := t[p].(handles := hs, asleep := asleep);
            Consistent(t[p := e], res[p := Resident],
              World(w.reserved, WithHandles(w.handles, e.chunks, hs, |hs|), WithMaps(w.mapped, p, e.chunks, hs, |hs|)))
  {
    hide Sum, Positive, Addr, Addrs, WithMaps, WithHandles, Bijection, NewHandles, Disjoint;
    var e := t[p].(handles := hs, asleep := asleep);
    var t', res' := t[p := e], res[p := Resident];
    assert Reservations(t', res', w.reserved);
    BijectionGrows(w.mapped, w.handles, p, e.chunks, hs);
    MapsGrow(w.mapped, p, e.chunks, hs);
    MappingsGrow(t, res, w.mapped, p, e, WithMaps(w.mapped, p, e.chunks, hs, |hs|));
  }

  lemma {:induction false} MappingsGrow(t: map<int, Entry>, res: map<int, Residence>, mapped: map<int, Mapping>, p: int,
                                        e: Entry, now: map<int, Mapping>)
    requires Mappings(t, res, mapped) && p in res && res[p].Placeholder? && WellFormed(e)
    requires forall a :: a in mapped ==> a in now && now[a] == mapped[a]
    requires forall a :: a in now && a !in mapped ==> exists i :: 0 <= i < |e.chunks| && a == Addr(p, e.chunks, i)
    requires forall i :: 0 <= i < |e.chunks| ==>
               Addr(p, e.chunks, i) in now && now[Addr(p, e.chunks, i)] == Mapping(e.chunks[i], e.handles[i])
    ensures Mappings(t[p := e], res[p := Resident], now)
  {
    hide Sum, Positive, Addr;
    var t', res' := t[p := e], res[p := Resident];
    forall q, i | Owns(t', res', q, i)
      ensures Addr(q, t'[q].chunks, i) in now
      ensures now[Addr(q, t'[q].chunks, i)] == Mapping(t'[q].chunks[i], t'[q].handles[i])
    {
      assert q == p || Owns(t, res, q, i);
    }
    forall a | a in now ensures exists q, i :: OwnerOf(t', res', q, i, a) {
      if a in mapped {
        var q, i :| OwnerOf(t, res, q, i, a);
        assert OwnerOf(t', res', q, i, a);
      } else {
        var i :| 0 <= i < |e.chunks| && a == Addr(p, e.chunks, i);
        assert OwnerOf(t', res', p, i, a);
      }
    }
  }

  /** All memory of an allocation unmapped and released, the reservation kept. */
  lemma {:induction false} MapOutKeeps(t: map<int, Entry>, res: map<int, Residence>, w: World, p: int, asleep: bool)
    requires Consistent(t, res, w) && IsResident(t, res, p)
    ensures Consistent(t[p := t[p].(asleep := asleep)], res[p := Placeholder], Shrunk(w, p, t[p]))
  {
    hide Sum, Positive, Addr, Addrs, Bijection, Disjoint;
    var e := t[p].(asleep := asleep);
    assert Reservations(t[p := e], res[p := Placeholder], w.reserved);
    assert forall i :: 0 <= i < |e.chunks| ==> Owns(t, res, p, i);
    BijectionShrinks(w.mapped, w.handles, p, e.chunks, e.handles);
    MappingsShrink(t, res, w, p, e);
  }

  lemma {:induction false} MappingsShrink(t: map<int, Entry>, res: map<int, Residence>, w: World, p: int, e: Entry)
    requires Consistent(t, res, w) && IsResident(t, res, p) && e.chunks == t[p].chunks && e.handles == t[p].handles
    ensures Mappings(t[p := e], res[p := Placeholder], w.mapped - Addrs(p, e.chunks, |e.chunks|))
  {
    hide Sum, Positive, Addr, Bijection;
    var t', res' := t[p := e], res[p := Placeholder];
    var now := w.mapped - Addrs(p, e.chunks, |e.chunks|);
    forall q, j | Owns(t', res', q, j)
      ensures Addr(q, t'[q].chunks, j) in now
      ensures now[Addr(q, t'[q].chunks, j)] == Mapping(t'[q].chunks[j], t'[q].handles[j])
    {
      assert Owns(t, res, q, j) && q != p;
      forall i | 0 <= i < |e.chunks| ensures Addr(p, e.chunks, i) != Addr(q, t[q].chunks, j) {
        assert Owns(t, res, p, i);
        OwnersApart(t, res, w.reserved, p, i, q, j);
      }
    }
    forall a | a in now ensures exists q, i :: OwnerOf(t', res', q, i, a) {
      var q, i :| OwnerOf(t, res, q, i, a);
      assert q != p;
      assert OwnerOf(t', res', q, i, a);
    }
  }

  /** A range that no reservation touches. */
  ghost predicate FreshRange(w: World, p: int, size: int) {
    size > 0 && p !in w.reserved && forall q :: q in w.reserved ==> !Overlap(p, size, q, w.reserved[q])
  }

  /** Only sleeping entries are without memory, and a sleeper that lost its address still has its
      handle cells. */
  ghost predicate SleepersMarked(t: map<int, Entry>, res: map<int, Residence>) {
    forall p :: p in t && p in res ==>
      && (res[p].Placeholder? ==> t[p].asleep)
      && (res[p].Gone? && t[p].asleep ==> WellFormed(t[p]))
  }

  /** An empty reservation has nothing mapped in it. */
  lemma {:induction false} PlaceholderEmpty(t: map<int, Entry>, res: map<int, Residence>, w: World, p: int)
    requires Consistent(t, res, w) && p in res && res[p].Placeholder?
    ensures p in w.reserved && t[p].size == w.reserved[p] && forall a :: a in w.mapped ==> !(p <= a < p + t[p].size)
  {
    hide Bijection, Sum, Positive, Addr;
    forall a | a in w.mapped ensures !(p <= a < p + w.reserved[p]) {
      var q, i :| OwnerOf(t, res, q, i, a);
      AddrRange(q, t[q].chunks, i);
      assert t[q].chunks[i] > 0 by { ChunkPositive(t[q].chunks, i); }
      assert q != p && !Overlap(p, w.reserved[p], q, w.reserved[q]);
    }
  }

  lemma {:induction false} ChunkPositive(chunks: seq<int>, i: nat)
    requires Positive(chunks) && i < |chunks|
    ensures chunks[i] > 0
  {
  }

  /** What a resident entry holds. */
  lemma {:induction false} ResidentHolds(t: map<int, Entry>, res: map<int, Residence>, w: World, p: int)
    requires Consistent(t, res, w) && p in res && res[p].Resident?
    ensures p in w.reserved && t[p].size == w.reserved[p] > 0 && IsResident(t, res, p) && p in w.mapped
  {
    assert p in w.reserved && Owns(t, res, p, 0);
    SumNone(t[p].chunks);
    AddrRange(p, t[p].chunks, 0);
    assert Addr(p, t[p].chunks, 0) == p;
  }

  /** Some chunk of the first n holds the offset. */
  lemma {:induction false} ChunkHolding(sizes: seq<int>, n: nat, x: int) returns (i: nat)
    requires Positive(sizes) && n <= |sizes| && 0 <= x < Sum(sizes[..n])
    ensures i < n && Sum(sizes[..i]) <= x < Sum(sizes[..i]) + sizes[i]
  {
    SumNone(sizes);
    assert n > 0;
    SumStep(sizes, n - 1);
    if x < Sum(sizes[..n-1]) {
      i := ChunkHolding(sizes, n - 1, x);
    } else {
      i := n - 1;
    }
  }

  /** A resident allocation is mapped over its whole range: every address in it lies in one of its
      chunks. */
  lemma {:induction false} ResidentIsCovered(t: map<int, Entry>, res: map<int, Residence>, w: World, p: int,
                                             x: int) returns (a: int)
    requires Consistent(t, res, w) && p in t && p in res && res[p].Resident? && p <= x < p + t[p].size
    ensures a in w.mapped && a <= x < a + w.mapped[a].size && w.mapped[a].handle in w.handles
  {
    ResidentHolds(t, res, w, p);
    var chunks := t[p].chunks;
    assert chunks[..|chunks|] == chunks;
    var i := ChunkHolding(chunks, |chunks|, x - p);
    assert Owns(t, res, p, i);
    a := Addr(p, chunks, i);
  }

  /** Once the memory is gone and the address given back, nothing of the entry is left. */
  lemma {:induction false} FreeKeeps(t: map<int, Entry>, res: map<int, Residence>, w: World, p: int)
    requires Consistent(t, res, w) && p in t && p in res && !res[p].Gone?
    ensures var now := if res[p].Resident? then Shrunk(w, p, t[p]) else w;
            && Consistent(t - {p}, res - {p}, now.(reserved := now.reserved - {p}))
            && (forall a :: a in now.mapped ==> !(p <= a < p + t[p].size))
  {
    hide *;
    if res[p].Resident? {
      FreeResidentKeeps(t, res, w, p);
    } else {
      PlaceholderEmpty(t, res, w, p);
      UnreserveKeeps(t, res, w, p, t[p]);
    }
  }

  lemma {:induction false} FreeResidentKeeps(t: map<int, Entry>, res: map<int, Residence>, w: World, p: int)
    requires Consistent(t, res, w) && p in t && p in res && res[p].Resident?
    ensures var now := Shrunk(w, p, t[p]);
            && Consistent(t - {p}, res - {p}, now.(reserved := now.reserved - {p}))
            && (forall a :: a in now.mapped ==> !(p <= a < p + t[p].size))
  {
    hide *;
    var e := t[p].(asleep := true);
    ResidentHolds(t, res, w, p);
    MapOutKeeps(t, res, w, p, true);
    var t', res' := t[p := e], res[p := Placeholder];
    PlaceholderEmpty(t', res', Shrunk(w, p, t[p]), p);
    UnreserveKeeps(t', res', Shrunk(w, p, t[p]), p, e);
    assert t' - {p} == t - {p} && res' - {p} == res - {p};
  }

  lemma {:induction false} EntryFacts(t: map<int, Entry>, res: map<int, Residence>, w: World, p: int)
    requires Consistent(t, res, w) && SleepersMarked(t, res) && p in t && p in res && (res[p].Gone? ==> t[p].asleep)
    ensures WellFormed(t[p]) && Positive(t[p].chunks) && t[p].chunks != [] && |t[p].handles| == |t[p].chunks|
    ensures if res[p].Gone? then p !in w.reserved else p in w.reserved && w.reserved[p] == t[p].size > 0
    ensures res[p].Resident? ==> IsResident(t, res, p) && p in w.mapped
    ensures res[p].Placeholder? ==> t[p].asleep
    ensures SleepersMarked(t - {p}, res - {p})
  {
    if res[p].Resident? { ResidentHolds(t, res, w, p); }
    AddrRange(p, t[p].chunks, 0);
  }

  lemma {:induction false} SleepKeeps(t: map<int, Entry>, res: map<int, Residence>, w: World, p: int)
    requires Consistent(t, res, w) && p in t && IsResident(t, res, p)
    ensures var e, now := t[p].(asleep := true), Shrunk(w, p, t[p]);
            && Consistent(t[p := e], res[p := Placeholder], now)
            && Consistent(t[p := e], res[p := Gone], now.(reserved := now.reserved - {p}))
  {
    hide Consistent, Shrunk;
    MapOutKeeps(t, res, w, p, true);
    var e := t[p].(asleep := true);
    UnreserveKeeps(t[p := e], res[p := Placeholder], Shrunk(w, p, t[p]), p, e);
    assert t[p := e][p := e] == t[p := e] && res[p := Placeholder][p := Gone] == res[p := Gone];
  }

  /** A resident entry has no room for another mapping. */
  lemma {:induction false} WakeFindsRoom(t: map<int, Entry>, res: map<int, Residence>, w: World, p: int)
    requires Consistent(t, res, w) && p in t && p in res
    requires Addrs(p, t[p].chunks, |t[p].chunks|) !! w.mapped.Keys
    ensures !res[p].Resident?
  {
    hide *;
    if res[p].Resident? {
      ResidentOccupies(t, res, w, p);
    }
  }

  lemma {:induction false} ResidentOccupies(t: map<int, Entry>, res: map<int, Residence>, w: World, p: int)
    requires Consistent(t, res, w) && p in t && p in res && res[p].Resident?
    ensures !(Addrs(p, t[p].chunks, |t[p].chunks|) !! w.mapped.Keys)
  {
    hide Sum, Positive, Addr, Bijection;
    ResidentHolds(t, res, w, p);
    assert Owns(t, res, p, 0);
    assert Addr(p, t[p].chunks, 0) in Addrs(p, t[p].chunks, |t[p].chunks|);
  }

  lemma {:induction false} WakeKeeps(t: map<int, Entry>, res: map<int, Residence>, w: World, p: int, hs: seq<int>,
                                     asleep: bool)
    requires Consistent(t, res, w) && p in t && p in res && res[p].Placeholder?
    requires |hs| == |t[p].chunks| && NewHandles(w.handles, hs) && Addrs(p, t[p].chunks, |t[p].chunks|) !! w.mapped.Keys
    ensures Consistent(t[p := t[p].(handles := hs, asleep := asleep)], res[p := Resident],
                       Grown(w, p, t[p].size, t[p].chunks, hs))
    ensures w.reserved[p := t[p].size] == w.reserved
  {
    hide Mappings, Bijection, WithMaps, WithHandles, Disjoint;
    assert w.reserved[p := t[p].size] == w.reserved;
    MapInKeeps(t, res, w, p, hs, asleep);
  }

  /** The handle cells of an empty reservation mean nothing. */
  lemma {:induction false} CellsKeep(t: map<int, Entry>, res: map<int, Residence>, w: World, p: int, e: Entry)
    requires Consistent(t, res, w) && SleepersMarked(t, res) && p in t && p in res && !res[p].Resident?
    requires WellFormed(t[p]) && WellFormed(e) && e.size == t[p].size && (res[p].Placeholder? ==> e.asleep)
    ensures Consistent(t[p := e], res, w) && SleepersMarked(t[p := e], res) && SameResidents(t, res, t[p := e], res)
  {
    hide Bijection;
    SameOwners(t, res, t[p := e], res, w.mapped);
  }

  /** The books determine the driver: with the same residents there is one set of mappings and handles
      that fits. */
  lemma {:induction false} DriverIsDetermined(t: map<int, Entry>, res: map<int, Residence>, w: World,
                                              t': map<int, Entry>, w': World)
    requires Consistent(t, res, w) && Consistent(t', res, w') && SameResidents(t, res, t', res)
    ensures w.mapped == w'.mapped && w.handles == w'.handles
  {
    hide Reservations, Bijection, Sum, Positive;
    MappingsDetermined(t, res, w.mapped, t', w'.mapped);
    HandlesDetermined(w.mapped, w.handles, w'.handles);
  }

  lemma {:induction false} MappingsDetermined(t: map<int, Entry>, res: map<int, Residence>, m: map<int, Mapping>,
                                              t': map<int, Entry>, m': map<int, Mapping>)
    requires Mappings(t, res, m) && Mappings(t', res, m') && SameResidents(t, res, t', res)
    ensures m == m'
  {
    hide Sum, Positive, Addr;
    forall a | a in m ensures a in m' && m'[a] == m[a] {
      var p, i :| OwnerOf(t, res, p, i, a);
      assert Owns(t', res, p, i);
    }
    forall a | a in m' ensures a in m {
      var p, i :| OwnerOf(t', res, p, i, a);
      assert Owns(t, res, p, i);
    }
  }

  lemma {:induction false} HandlesDetermined(m: map<int, Mapping>, h: map<int, int>, h': map<int, int>)
    requires Bijection(m, h) && Bijection(m, h')
    ensures h == h'
  {
    forall x | x in h ensures x in h' && h'[x] == h[x] {
      var a :| HoldsHandle(m, a, x);
    }
    forall x | x in h' ensures x in h {
      var a :| HoldsHandle(m, a, x);
    }
  }

  /** The cells of a resident entry are determined too. */
  lemma {:induction false} CellsDetermined(t: map<int, Entry>, res: map<int, Residence>, m: map<int, Mapping>,
                                           p: int, e: Entry)
    requires Mappings(t, res, m) && IsResident(t, res, p) && WellFormed(e) && e.chunks == t[p].chunks
    requires Mappings(t[p := e], res, m)
    ensures e.handles == t[p].handles
  {
    hide Sum, Positive, Addr;
    forall i | 0 <= i < |e.handles| ensures e.handles[i] == t[p].handles[i] {
      assert Owns(t, res, p, i) && Owns(t[p := e], res, p, i);
    }
  }

  /** An entry without any memory dropped from the books. */
  lemma {:induction false} DropGone(t: map<int, Entry>, res: map<int, Residence>, w: World, p: int)
    requires Consistent(t, res, w) && p in t && p in res && res[p].Gone?
    ensures Consistent(t - {p}, res - {p}, w)
  {
    hide Bijection, WellFormed;
    SameOwners(t, res, t - {p}, res - {p}, w.mapped);
  }

  /** A reservation that stays when its entry goes makes the books inconsistent. */
  lemma {:induction false} KeptIsStray(t: map<int, Entry>, res: map<int, Residence>, w: World, p: int, w': World)
    requires Consistent(t, res, w) && p in res && !res[p].Gone? && w'.reserved == w.reserved
    ensures !Consistent(t - {p}, res - {p}, w')
  {
    assert p in w.reserved && p !in (res - {p});
  }

  /** The books determine the reserved addresses: one that no entry has makes them inconsistent. */
  lemma {:induction false} NoStray(t: map<int, Entry>, res: map<int, Residence>, w: World, w': World)
    requires Consistent(t, res, w) && w.reserved.Keys != w'.reserved.Keys
    ensures !Consistent(t, res, w')
  {
    hide Consistent;
    if Consistent(t, res, w') {
      SameReserved(t, res, w, w');
    }
  }

  lemma {:induction false} SameReserved(t: map<int, Entry>, res: map<int, Residence>, w: World, w': World)
    requires Consistent(t, res, w) && Consistent(t, res, w')
    ensures w.reserved.Keys == w'.reserved.Keys
  {
    hide Mappings, Bijection, WellFormed, Disjoint;
    forall p ensures p in w.reserved.Keys <==> p in w'.reserved.Keys {
      assert p in w.reserved <==> p in w'.reserved;
    }
  }

  lemma {:induction false} IsFreshRange(w: World, p: int, size: int)
    requires size > 0 && p !in w.reserved
    requires forall q :: q in w.reserved ==> !Overlap(p, size, q, w.reserved[q])
    ensures FreshRange(w, p, size)
  {
  }

  lemma {:induction false} PlanIsPositive(chunks: seq<int>, size: int, g: int)
    requires g > 0 && (chunks == [] || Tiles(chunks, size, g))
    ensures Positive(chunks) && (chunks != [] ==> Sum(chunks) == size)
  {
  }

  lemma {:induction false} StillMarked(t: map<int, Entry>, res: map<int, Residence>, p: int, e: Entry, r: Residence)
    requires SleepersMarked(t, res) && (r.Placeholder? ==> e.asleep) && (r.Gone? && e.asleep ==> WellFormed(e))
    ensures SleepersMarked(t[p := e], res[p := r])
  {
  }

  /** The driver with the chunks of one more allocation at p. */
  ghost function Grown(w: World, p: int, size: int, chunks: seq<int>, hs: seq<int>): World
    requires |hs| == |chunks|
  {
    World(w.reserved[p := size], WithHandles(w.handles, chunks, hs, |hs|), WithMaps(w.mapped, p, chunks, hs, |hs|))
  }

  /** The driver without the memory of an entry, its reservation kept. */
  ghost function Shrunk(w: World, p: int, e: Entry): World {
    World(w.reserved, w.handles - Prefix(e.handles, |e.handles|), w.mapped - Addrs(p, e.chunks, |e.chunks|))
  }

  /** Freeing an allocation right after making it gives back exactly the old driver state. */
  lemma {:induction false} FreeUndoesMalloc(w: World, p: int, e: Entry)
    requires p !in w.reserved && WellFormed(e) && NewHandles(w.handles, e.handles)
    requires Addrs(p, e.chunks, |e.chunks|) !! w.mapped.Keys
    ensures var now := Shrunk(Grown(w, p, e.size, e.chunks, e.handles), p, e);
            now.(reserved := now.reserved - {p}) == w
  {
    HandlesFacts(w.handles, e.chunks, e.handles, |e.handles|);
    MapsFacts(w.mapped, p, e.chunks, e.handles, |e.handles|);
  }

  lemma {:induction false} MallocKeeps(t: map<int, Entry>, res: map<int, Residence>, w: World, p: int, e: Entry)
    requires Consistent(t, res, w) && FreshRange(w, p, e.size) && WellFormed(e) && |e.handles| == |e.chunks|
    requires NewHandles(w.handles, e.handles) && Addrs(p, e.chunks, |e.chunks|) !! w.mapped.Keys
    ensures Consistent(t[p := e], res[p := Resident], Grown(w, p, e.size, e.chunks, e.handles))
  {
    hide *;
    ReserveKeeps(t, res, w, p, e);
    MallocKeepsFrom(t[p := e], res[p := Placeholder], w.(reserved := w.reserved[p := e.size]), p);
    assert t[p := e][p := e] == t[p := e] && res[p := Placeholder][p := Resident] == res[p := Resident];
    assert w.reserved[p := e.size][p := e.size] == w.reserved[p := e.size];
    GrownAgain(w, p, e);
  }

  lemma {:induction false} NoChunks(w: World, p: int)
    ensures WithHandles(w.handles, [], [], 0) == w.handles && WithMaps(w.mapped, p, [], [], 0) == w.mapped
  {
  }

  lemma {:induction false} FirstChunkMapped(base: map<int, Mapping>, p: int, sizes: seq<int>, hs: seq<int>)
    requires |hs| == |sizes| && sizes != [] && Positive(sizes) && Addrs(p, sizes, |sizes|) !! base.Keys
    ensures p in WithMaps(base, p, sizes, hs, |hs|)
  {
    MapsGrow(base, p, sizes, hs);
    SumNone(sizes);
    assert Addr(p, sizes, 0) == p;
  }

  lemma {:induction false} GrownAgain(w: World, p: int, e: Entry)
    requires |e.handles| == |e.chunks|
    ensures Grown(w.(reserved := w.reserved[p := e.size]), p, e.size, e.chunks, e.handles) ==
            Grown(w, p, e.size, e.chunks, e.handles)
  {
    assert w.reserved[p := e.size][p := e.size] == w.reserved[p := e.size];
  }

  lemma {:induction false} MallocKeepsFrom(t: map<int, Entry>, res: map<int, Residence>, w: World, p: int)
    requires Consistent(t, res, w) && p in res && res[p].Placeholder?
    requires NewHandles(w.handles, t[p].handles) && Addrs(p, t[p].chunks, |t[p].chunks|) !! w.mapped.Keys
    ensures Consistent(t[p := t[p]], res[p := Resident], Grown(w, p, t[p].size, t[p].chunks, t[p].handles))
  {
    hide Bijection, Mappings, Disjoint, NewHandles, Addrs, WithMaps, WithHandles;
    var e := t[p];
    assert w.reserved[p := e.size] == w.reserved;
    MapInKeeps(t, res, w, p, e.handles, e.asleep);
    assert e == t[p].(handles := e.handles, asleep := e.asleep);
  }

  // ---------------------------------------------------------------- fault-free runs

  /** What the allocator remembers, where the memory is, and the driver. */
  datatype Books = Books(t: map<int, Entry>, res: map<int, Residence>, w: World)

  /** A successful malloc, sleep, wake or free. */
  datatype Act = Alloc(p: int, e: Entry) | Rest(p: int) | Rouse(p: int, handles: seq<int>) | Drop(p: int)

  /** The act can succeed: fresh memory comes from the driver, sleep needs memory, wake a placeholder. */
  ghost predicate Enabled(b: Books, act: Act) {
    match act
    case Alloc(p, e) =>
      && FreshRange(b.w, p, e.size) && WellFormed(e) && !e.asleep
      && NewHandles(b.w.handles, e.handles) && Addrs(p, e.chunks, |e.chunks|) !! b.w.mapped.Keys
    case Rest(p) => p in b.t && p in b.res && b.res[p].Resident?
    case Rouse(p, hs) =>
      && p in b.t && p in b.res && b.res[p].Placeholder? && |hs| == |b.t[p].chunks|
      && NewHandles(b.w.handles, hs) && Addrs(p, b.t[p].chunks, |b.t[p].chunks|) !! b.w.mapped.Keys
    case Drop(p) => p in b.t && p in b.res && !b.res[p].Gone?
  }

  ghost function After(b: Books, act: Act): Books
    requires Enabled(b, act)
  {
    match act
    case Alloc(p, e) => Books(b.t[p := e], b.res[p := Resident], Grown(b.w, p, e.size, e.chunks, e.handles))
    case Rest(p) => Books(b.t[p := b.t[p].(asleep := true)], b.res[p := Placeholder], Shrunk(b.w, p, b.t[p]))
    case Rouse(p, hs) =>
      Books(b.t[p := b.t[p].(handles := hs, asleep := false)], b.res[p := Resident],
            Grown(b.w, p, b.t[p].size, b.t[p].chunks, hs))
    case Drop(p) =>
      var w := if b.res[p].Resident? then Shrunk(b.w, p, b.t[p]) else b.w;
      Books(b.t - {p}, b.res - {p}, w.(reserved := w.reserved - {p}))
  }

  /** The act takes the books from b to b'. */
  ghost predicate Takes(b: Books, act: Act, b': Books) {
    Enabled(b, act) && b' == After(b, act)
  }

  ghost predicate Runs(b: Books, acts: seq<Act>, b': Books)
    decreases |acts|
  {
    if acts == [] then b == b' else Enabled(b, acts[0]) && Runs(After(b, acts[0]), acts[1..], b')
  }

  lemma {:induction false} ActKeeps(b: Books, act: Act)
    requires Consistent(b.t, b.res, b.w) && Enabled(b, act)
    ensures var b' := After(b, act); Consistent(b'.t, b'.res, b'.w)
  {
    hide Consistent, Grown, Shrunk, NewHandles, Addrs, FreshRange;
    match act
    case Alloc(p, e) => MallocKeeps(b.t, b.res, b.w, p, e);
    case Rest(p) =>
      ResidentHolds(b.t, b.res, b.w, p);
      SleepKeeps(b.t, b.res, b.w, p);
    case Rouse(p, hs) => WakeKeeps(b.t, b.res, b.w, p, hs, false);
    case Drop(p) => FreeKeeps(b.t, b.res, b.w, p);
  }

  /** Over every fault-free run an allocation that is not freed keeps its address, its size and its
      chunks and stays reserved, and the books stay consistent: reservations disjoint, awake ones
      mapped exactly, handles in one-to-one use. */
  lemma {:induction false} RunKeeps(b: Books, acts: seq<Act>, b': Books, p: int)
    requires Consistent(b.t, b.res, b.w) && Runs(b, acts, b')
    ensures Consistent(b'.t, b'.res, b'.w)
    ensures p in b.w.reserved && Drop(p) !in acts ==>
              p in b.t && p in b'.t && p in b'.w.reserved && b'.t[p].size == b.t[p].size &&
                  b'.t[p].chunks == b.t[p].chunks
    decreases |acts|
  {
    if acts != [] {
      ActKeeps(b, acts[0]);
      if p in b.w.reserved && acts[0] != Drop(p) { ActKeepsAddress(b, acts[0], p); }
      RunKeeps(After(b, acts[0]), acts[1..], b', p);
    }
  }

  lemma {:induction false} ActKeepsAddress(b: Books, act: Act, p: int)
    requires Consistent(b.t, b.res, b.w) && Enabled(b, act) && p in b.w.reserved && act != Drop(p)
    ensures var b' := After(b, act);
            p in b.t && p in b'.t && p in b'.w.reserved && b'.t[p].size == b.t[p].size &&
                b'.t[p].chunks == b.t[p].chunks
  {
    hide Mappings, Bijection, NewHandles, Addrs, WithMaps, WithHandles, Disjoint, WellFormed;
  }

  /** Successful calls, one after the other, make a run. */
  lemma {:induction false} CallsMakeRuns(b: Books, acts: seq<Act>, b': Books, act: Act, b'': Books)
    requires Runs(b, acts, b') && Takes(b', act, b'')
    ensures Runs(b, acts + [act], b'')
    decreases |acts|
  {
    hide Enabled, After;
    var more := acts + [act];
    if acts == [] {
      assert more[1..] == [];
    } else {
      assert more[0] == acts[0] && more[1..] == acts[1..] + [act];
      CallsMakeRuns(After(b, acts[0]), acts[1..], b', act, b'');
    }
  }

  /** Whatever the driver holds belongs to some entry. */
  lemma {:induction false} HeldHasEntry(b: Books)
    requires Consistent(b.t, b.res, b.w)
    ensures b.w.reserved.Keys <= b.t.Keys
    ensures forall a :: a in b.w.mapped ==> b.t.Keys != {}
    ensures forall h :: h in b.w.handles ==> b.w.mapped.Keys != {}
  {
    assert forall p :: p in b.w.reserved ==> p in b.res.Keys;
    forall a | a in b.w.mapped ensures b.t.Keys != {} {
      var p, i :| OwnerOf(b.t, b.res, p, i, a);
      assert p in b.t.Keys;
    }
    forall h | h in b.w.handles ensures b.w.mapped.Keys != {} {
      var a :| HoldsHandle(b.w.mapped, a, h);
      assert a in b.w.mapped.Keys;
    }
  }

  /** Once everything is freed the driver holds nothing: no reservation, no mapping, no handle. */
  lemma {:induction false} NothingLeft(b: Books)
    requires Consistent(b.t, b.res, b.w) && b.t == map[]
    ensures b.w == World(map[], map[], map[])
  {
    hide Consistent;
    HeldHasEntry(b);
    assert forall a :: a !in b.w.mapped.Keys;
    assert forall h :: h !in b.w.handles.Keys;
    assert b.w.reserved.Keys == {} && b.w.mapped.Keys == {} && b.w.handles.Keys == {};
  }

  // ---------------------------------------------------------------- the allocator

  /** How far a call came. */
  datatype Stage = Refused | NoAddress | Divided | HostFailed | CreateFailed | MapFailed | AccessFailed | Stale | Mapped

  /** The memory stays mapped: on success, and when only the access grant failed. */
  ghost predicate Keeps(stage: Stage, chunks: seq<int>) {
    stage.Mapped? || (stage.AccessFailed? && chunks != [])
  }

  /** Chunk i is mapped with its size. */
  ghost predicate ChunkMapped(mapped: map<int, Mapping>, p: int, sizes: seq<int>, i: int) {
    0 <= i < |sizes| && Addr(p, sizes, i) in mapped && mapped[Addr(p, sizes, i)].size == sizes[i]
  }

  ghost function MappedAddrs(mapped: map<int, Mapping>, p: int, sizes: seq<int>, n: nat): set<int>
    requires n <= |sizes|
  {
    set i | 0 <= i < n && ChunkMapped(mapped, p, sizes, i) :: Addr(p, sizes, i)
  }

  /** No recorded handle and no chunk address of the entry is in use. */
  ghost predicate NoneInUse(w: World, p: int, e: Entry) {
    && (forall i :: 0 <= i < |e.handles| ==> e.handles[i] !in w.handles)
    && (forall i :: 0 <= i < |e.chunks| ==> !ChunkMapped(w.mapped, p, e.chunks, i))
  }

  /** What unmap-and-release leaves of the driver, whatever of the entry is there. */
  ghost function Undone(w: World, p: int, e: Entry): World {
    World(w.reserved, w.handles - Prefix(e.handles, |e.handles|),
          w.mapped - MappedAddrs(w.mapped, p, e.chunks, |e.chunks|))
  }

  /** Undoing an entry leaves the driver as it is exactly when nothing of it is in use. */
  lemma {:induction false} UndoesNothing(w: World, p: int, e: Entry)
    ensures Undone(w, p, e) == w <==> NoneInUse(w, p, e)
  {
    if i :| 0 <= i < |e.handles| && e.handles[i] in w.handles {
      assert e.handles[i] in Prefix(e.handles, |e.handles|);
    } else if i :| 0 <= i < |e.chunks| && ChunkMapped(w.mapped, p, e.chunks, i) {
      assert Addr(p, e.chunks, i) in MappedAddrs(w.mapped, p, e.chunks, |e.chunks|);
    } else {
      assert Undone(w, p, e).handles == w.handles && Undone(w, p, e).mapped == w.mapped;
    }
  }

  /** Putting an entry without memory to sleep does harm exactly when something of it is in use. */
  lemma {:induction false} SleepOfEmpty(t: map<int, Entry>, res: map<int, Residence>, w: World, p: int, e: Entry)
    requires Consistent(t, res, w) && SleepersMarked(t, res) && p in t && p in res && !res[p].Resident?
    requires WellFormed(t[p]) && e == t[p].(asleep := true)
    ensures Consistent(t[p := e], res, Undone(w, p, t[p])) && SleepersMarked(t[p := e], res) <==> NoneInUse(w, p, t[p])
  {
    hide Consistent, SleepersMarked, WellFormed;
    assert WellFormed(e) by { SameForm(t[p], e); }
    CellsKeep(t, res, w, p, e);
    UndoesNothing(w, p, t[p]);
    if Consistent(t[p := e], res, Undone(w, p, t[p])) {
      DriverIsDetermined(t, res, w, t[p := e], Undone(w, p, t[p]));
    }
  }

  lemma {:induction false} SameForm(e: Entry, e': Entry)
    requires WellFormed(e) && e' == e.(asleep := true)
    ensures WellFormed(e')
  {
  }

  /** Everything unmap-and-release is about to undo is there. */
  ghost predicate AllThere(mapped: map<int, Mapping>, handles: map<int, int>, p: int, sizes: seq<int>, hs: seq<int>) {
    && (forall i :: 0 <= i < |sizes| ==> ChunkMapped(mapped, p, sizes, i))
    && (forall i :: 0 <= i < |hs| ==> hs[i] in handles)
    && (forall i, j :: 0 <= i < j < |hs| ==> hs[i] != hs[j])
  }

  lemma {:induction false} ResidentIsThere(t: map<int, Entry>, res: map<int, Residence>, w: World, p: int)
    requires Consistent(t, res, w) && IsResident(t, res, p)
    ensures AllThere(w.mapped, w.handles, p, t[p].chunks, t[p].handles)
    ensures MappedAddrs(w.mapped, p, t[p].chunks, |t[p].chunks|) == Addrs(p, t[p].chunks, |t[p].chunks|)
  {
    hide Sum, Positive, Addr;
    var e := t[p];
    assert forall i :: 0 <= i < |e.chunks| ==> Owns(t, res, p, i) && ChunkMapped(w.mapped, p, e.chunks, i);
    forall i, j | 0 <= i < j < |e.handles| ensures e.handles[i] != e.handles[j] {
      assert Owns(t, res, p, i) && Owns(t, res, p, j);
      OwnersApart(t, res, w.reserved, p, i, p, j);
    }
  }

  lemma {:induction false} MappedAddrsStep(mapped: map<int, Mapping>, p: int, sizes: seq<int>, k: nat)
    requires k < |sizes| && Positive(sizes)
    ensures MappedAddrs(mapped, p, sizes, k + 1) ==
            MappedAddrs(mapped, p, sizes, k) + if ChunkMapped(mapped, p, sizes, k) then {Addr(p, sizes, k)} else {}
    ensures Addr(p, sizes, k) !in MappedAddrs(mapped, p, sizes, k)
  {
    hide Sum, Positive, Addr;
    AddrsStep(p, sizes, k);
  }

  /** Nothing of an empty reservation is there to undo. */
  lemma {:induction false} NothingThere(t: map<int, Entry>, res: map<int, Residence>, w: World, p: int)
    requires Consistent(t, res, w) && p in t && p in res && res[p].Placeholder?
    ensures w.mapped - MappedAddrs(w.mapped, p, t[p].chunks, |t[p].chunks|) == w.mapped
    ensures !AllThere(w.mapped, w.handles, p, t[p].chunks, t[p].handles)
  {
    hide Bijection, Mappings, Sum, Addr;
    PlaceholderEmpty(t, res, w, p);
    var chunks := t[p].chunks;
    forall i | 0 <= i < |chunks| ensures !ChunkMapped(w.mapped, p, chunks, i) {
      AddrRange(p, chunks, i);
    }
    assert MappedAddrs(w.mapped, p, chunks, |chunks|) == {};
    assert !ChunkMapped(w.mapped, p, chunks, 0);
  }

  lemma {:induction false} WakeTakes(t: map<int, Entry>, res: map<int, Residence>, w: World, p: int, hs: seq<int>)
    requires Consistent(t, res, w) && p in t && p in res && res[p].Placeholder? && |hs| == |t[p].chunks|
    requires NewHandles(w.handles, hs) && Addrs(p, t[p].chunks, |t[p].chunks|) !! w.mapped.Keys
    ensures Takes(Books(t, res, w), Rouse(p, hs),
              Books(t[p := t[p].(handles := hs, asleep := false)], res[p := Resident],
                    Grown(w, p, t[p].size, t[p].chunks, hs)))
  {
    hide Consistent, NewHandles, Addrs, Grown;
  }

  lemma {:induction false} FirstIsNew(base: map<int, Mapping>, p: int, e: Entry)
    requires WellFormed(e) && Addrs(p, e.chunks, |e.chunks|) !! base.Keys
    ensures p !in base && p in WithMaps(base, p, e.chunks, e.handles, |e.handles|)
  {
    FirstChunkMapped(base, p, e.chunks, e.handles);
    SumNone(e.chunks);
    hide Sum, WithMaps;
    assert Addr(p, e.chunks, 0) == p && p in Addrs(p, e.chunks, |e.chunks|);
    assert p !in base.Keys;
  }

  lemma {:induction false} OthersResident(t: map<int, Entry>, res: map<int, Residence>, p: int, e: Entry)
    requires p in t && p in res && !res[p].Resident?
    ensures SameResidents(t, res, t[p := e], res)
  {
    hide WellFormed;
  }

  /** Mapping for an entry that lost its address leaves memory nobody owns. */
  lemma {:induction false} WakeOfGone(t: map<int, Entry>, res: map<int, Residence>, w: World, p: int, e: Entry,
                                      w': World)
    requires Consistent(t, res, w) && p in t && p in res && res[p].Gone? && WellFormed(e)
    requires Addrs(p, e.chunks, |e.chunks|) !! w.mapped.Keys
    requires w'.mapped == WithMaps(w.mapped, p, e.chunks, e.handles, |e.handles|)
    ensures !Consistent(t[p := e], res, w')
  {
    FirstIsNew(w.mapped, p, e);
    OthersResident(t, res, p, e);
    hide *;
    if Consistent(t[p := e], res, w') {
      DriverIsDetermined(t, res, w, t[p := e], w');
    }
  }

  /** A wake that starts with a stale error does harm exactly when the driver hands out a handle. */
  lemma {:induction false} StaleWake(t: map<int, Entry>, res: map<int, Residence>, w: World, p: int, hs: seq<int>,
                                     e: Entry, w': World)
    requires Consistent(t, res, w) && SleepersMarked(t, res) && p in t && p in res && WellFormed(t[p]) && |hs| <= 1
    requires e == t[p].(handles := hs + t[p].handles[|hs|..]) && NewHandles(w.handles, hs)
    requires w' == w.(handles := WithHandles(w.handles, t[p].chunks, hs, |hs|))
    ensures Consistent(t[p := e], res, w') && SleepersMarked(t[p := e], res) <==> hs == []
  {
    hide Reservations, Mappings, SleepersMarked;
    if hs == [] {
      assert e == t[p] && t[p := e] == t && w' == w;
    } else {
      HandlesFacts(w.handles, t[p].chunks, hs, 1);
      assert hs[0] in w'.handles && hs[0] !in w.handles;
      hide Bijection;
      if Consistent(t[p := e], res, w') {
        HandlesDetermined(w.mapped, w.handles, w'.handles);
      }
    }
  }

  /** A wake that fails to create or map does harm exactly when the entry was awake and a cell was
      written. */
  lemma {:induction false} FailedWake(t: map<int, Entry>, res: map<int, Residence>, w: World, p: int, hs: seq<int>,
                                      e: Entry)
    requires Consistent(t, res, w) && SleepersMarked(t, res) && p in t && p in res && WellFormed(t[p])
    requires |hs| <= |t[p].handles| && NewHandles(w.handles, hs) && e == t[p].(handles := hs + t[p].handles[|hs|..])
    ensures Consistent(t[p := e], res, w) && SleepersMarked(t[p := e], res) <==> hs == [] || !res[p].Resident?
  {
    hide Reservations, Mappings, Bijection, SleepersMarked;
    if hs == [] {
      assert e == t[p] && t[p := e] == t;
    } else if !res[p].Resident? {
      PlaceholderAsleep(t, res, p);
      CellsKeep(t, res, w, p, e);
    } else {
      ResidentHolds(t, res, w, p);
      ResidentIsThere(t, res, w, p);
      assert e.handles[0] == hs[0] && hs[0] !in w.handles && t[p].handles[0] in w.handles;
      if Consistent(t[p := e], res, w) {
        CellsDetermined(t, res, w.mapped, p, e);
      }
    }
  }

  lemma {:induction false} PlaceholderAsleep(t: map<int, Entry>, res: map<int, Residence>, p: int)
    requires SleepersMarked(t, res) && p in t && p in res
    ensures res[p].Placeholder? ==> t[p].asleep
  {
  }

  class Allocator {
    const driver: Driver
    var errorCode: int
    var table: map<int, Entry>
    ghost var residence: map<int, Residence>

    constructor (driver: Driver)
      requires driver.reserved == map[] && driver.handles == map[] && driver.mapped == map[]
      ensures this.driver == driver && errorCode == 0 && table == map[] && Valid()
    {
      this.driver := driver;
      errorCode, table, residence := 0, map[], map[];
    }

    ghost function Now(): World
      reads this, driver
    {
      World(driver.reserved, driver.handles, driver.mapped)
    }

    ghost function Ledger(): Books
      reads this, driver
    {
      Books(table, residence, Now())
    }

    ghost predicate Valid()
      reads this, driver
    {
      && Consistent(table, residence, Now())
      && SleepersMarked(table, residence)
    }

    /** Release the first n of the handles just created. */
    method ReleaseHandles(hs: seq<int>, n: nat, ghost base: map<int, int>, ghost sizes: seq<int>)
      requires n <= |hs| && n <= |sizes| && NewHandles(base, hs[..n])
      requires driver.handles == WithHandles(base, sizes, hs, n)
      modifies driver`handles, driver`faults
      ensures driver.faults >= old(driver.faults)
      ensures driver.handles == base
    {
      assert driver.handles - Prefix(hs, 0) == driver.handles;
      for j := 0 to n
        invariant driver.handles == WithHandles(base, sizes, hs, n) - Prefix(hs, j)
        invariant driver.faults >= old(driver.faults)
      {
        ReleaseStep(base, sizes, hs, n, j);
        var ignored := driver.MemRelease(hs[j]);
      }
      HandlesFactsUpTo(base, sizes, hs, n);
    }

    /** Unmap the first n chunks just mapped. */
    method UnmapChunks(p: int, sizes: seq<int>, n: nat, ghost base: map<int, Mapping>, ghost hs: seq<int>)
      requires n <= |hs| && n <= |sizes| && Positive(sizes) && Addrs(p, sizes, n) !! base.Keys
      requires driver.mapped == WithMaps(base, p, sizes, hs, n)
      modifies driver`mapped, driver`faults
      ensures driver.faults >= old(driver.faults)
      ensures driver.mapped == base
    {
      var unmapped := 0;
      assert sizes[..0] == [] && driver.mapped - Addrs(p, sizes, 0) == driver.mapped;
      for j := 0 to n
        invariant unmapped == Sum(sizes[..j])
        invariant driver.mapped == WithMaps(base, p, sizes, hs, n) - Addrs(p, sizes, j)
        invariant driver.faults >= old(driver.faults)
      {
        UnmapStep(base, p, sizes, hs, n, j);
        var ignored := driver.MemUnmap(p + unmapped, sizes[j]);
        SumStep(sizes, j);
        unmapped := unmapped + sizes[j];
      }
      MapsFacts(base, p, sizes, hs, n);
    }

    /** The create loop. With a stale error it gives up after the first handle, which stays. */
    method CreateHandles(sizes: seq<int>) returns (hs: seq<int>)
      modifies this`errorCode, driver`handles, driver`faults
      ensures driver.faults >= old(driver.faults)
      ensures old(errorCode) == 0 ==> (errorCode == 0 <==> driver.faults == old(driver.faults))
      ensures |hs| <= |sizes| && NewHandles(old(driver.handles), hs)
      ensures old(errorCode) != 0 ==> errorCode != 0 && |hs| <= 1
      ensures errorCode == 0 ==> |hs| == |sizes|
      ensures driver.handles == if old(errorCode) == 0 && errorCode != 0 then old(driver.handles)
                                else WithHandles(old(driver.handles), sizes, hs, |hs|)
    {
      hs := [];
      for i := 0 to |sizes|
        invariant |hs| == i && NewHandles(old(driver.handles), hs)
        invariant driver.handles == WithHandles(old(driver.handles), sizes, hs, i)
        invariant i > 0 ==> errorCode == 0 == old(errorCode)
        invariant i == 0 ==> errorCode == old(errorCode)
        invariant driver.faults == old(driver.faults)
      {
        ghost var before := hs;
        HandlesFacts(old(driver.handles), sizes, hs, i);
        var status, h := driver.MemCreate(sizes[i]);
        if status != 0 {
          errorCode := status;
        } else {
          hs := hs + [h];
          assert hs[..i] == before[..i];
          SameHandles(old(driver.handles), sizes, before, hs, i);
          assert h !in Prefix(before, i);
        }
        if errorCode != 0 {
          if i > 0 {
            assert hs[..i] == hs;
            ReleaseHandles(hs, i, old(driver.handles), sizes);
          }
          return;
        }
      }
    }

    /** The map loop: a failure undoes the mappings made so far and releases all handles. */
    method MapChunks(p: int, sizes: seq<int>, hs: seq<int>, ghost base: map<int, int>)
      requires errorCode == 0 && Positive(sizes) && |hs| == |sizes| && NewHandles(base, hs)
      requires driver.handles == WithHandles(base, sizes, hs, |hs|)
      modifies this`errorCode, driver`handles, driver`mapped, driver`faults
      ensures driver.faults >= old(driver.faults)
      ensures errorCode == 0 <==> driver.faults == old(driver.faults)
      ensures errorCode == 0 ==>
                && driver.handles == old(driver.handles) && Addrs(p, sizes, |sizes|) !! old(driver.mapped).Keys
                && driver.mapped == WithMaps(old(driver.mapped), p, sizes, hs, |sizes|)
      ensures errorCode != 0 ==> driver.handles == base && driver.mapped == old(driver.mapped)
    {
      hide WithHandles, NewHandles, Sum;
      var mappedSize := 0;
      assert Sum(sizes[..0]) == 0 by { SumNone(sizes); }
      assert hs[..|hs|] == hs;
      for i := 0 to |sizes|
        invariant errorCode == 0 && mappedSize == Sum(sizes[..i]) && driver.handles == old(driver.handles)
        invariant driver.faults == old(driver.faults)
        invariant Addrs(p, sizes, i) !! old(driver.mapped).Keys
        invariant driver.mapped == WithMaps(old(driver.mapped), p, sizes, hs, i)
      {
        MapsFacts(old(driver.mapped), p, sizes, hs, i);
        var status := driver.MemMap(p + mappedSize, sizes[i], hs[i]);
        if status != 0 {
          errorCode := status;
        }
        if errorCode != 0 {
          UnmapChunks(p, sizes, i, old(driver.mapped), hs);
          ReleaseHandles(hs, |hs|, base, sizes);
          return;
        }
        AddrsStep(p, sizes, i);
        SumStep(sizes, i);
        mappedSize := mappedSize + sizes[i];
      }
    }

    /** Create a handle per chunk, map them one after the other, grant access. Started with a clear
        error, a failed create or map leaves the driver exactly as it was; a failed access grant
        leaves everything mapped. Started with a stale error, the call fails but keeps the first
        handle if the driver hands one out. */
    method CreateAndMap(p: int, size: int, sizes: seq<int>) returns (hs: seq<int>, ghost stage: Stage)
      requires Positive(sizes) && (sizes != [] || errorCode == 0)
      modifies this`errorCode, driver`handles, driver`mapped, driver`faults
      ensures driver.faults >= old(driver.faults)
      ensures stage.Mapped? <==> old(errorCode) == 0 && driver.faults == old(driver.faults)
      ensures errorCode == 0 <==> stage.Mapped?
      ensures !stage.Refused? && !stage.NoAddress? && !stage.Divided? && !stage.HostFailed?
      ensures stage.Mapped? ==> p in driver.mapped
      ensures stage.Stale? <==> old(errorCode) != 0
      ensures |hs| <= |sizes| && NewHandles(old(driver.handles), hs)
      ensures stage.CreateFailed? || stage.MapFailed? ==>
                driver.handles == old(driver.handles) && driver.mapped == old(driver.mapped)
      ensures stage.MapFailed? ==> |hs| == |sizes|
      ensures stage.Mapped? || stage.AccessFailed? ==>
                && |hs| == |sizes| && Addrs(p, sizes, |sizes|) !! old(driver.mapped).Keys
                && driver.handles == WithHandles(old(driver.handles), sizes, hs, |hs|)
                && driver.mapped == WithMaps(old(driver.mapped), p, sizes, hs, |hs|)
      ensures stage.Stale? ==>
                && driver.mapped == old(driver.mapped) && |hs| <= 1
                && driver.handles == WithHandles(old(driver.handles), sizes, hs, |hs|)
    {
      hs := CreateHandles(sizes);
      if errorCode != 0 {
        stage := if old(errorCode) == 0 then CreateFailed else Stale;
        return;
      }
      MapChunks(p, sizes, hs, old(driver.handles));
      if errorCode != 0 {
        stage := MapFailed;
        return;
      }
      var status := driver.SetAccess(p, size);
      if status != 0 {
        errorCode := status;
      }
      stage := if errorCode == 0 then Mapped else AccessFailed;
    }

    /** Try the wanted alignment, then the default one; keep an address only if it is aligned. So one
        failure is made good whenever the second try happens to be aligned. */
    method ReserveRocmAddress(size: int, alignment: int, hint: int) returns (status: int, p: int)
      requires MapsInside(Now()) && alignment >= 0
      modifies driver`reserved, driver`faults, driver`wanted, driver`offered
      ensures driver.faults >= old(driver.faults) && driver.wanted == hint
      ensures driver.faults == old(driver.faults) ==> status == 0
      ensures driver.faults == old(driver.faults) + 1 ==>
                if alignment == 0 then status != 0 else status == if driver.offered % alignment == 0 then 0 else 801
      ensures driver.faults > old(driver.faults) + 1 ==> status != 0
      ensures status == 0 ==> p == driver.offered
      ensures status == 0 && driver.honoursHints && hint != 0 ==> p == hint
      ensures status != 0 ==> driver.reserved == old(driver.reserved)
      ensures status == 0 ==>
                && size > 0 && p != 0 && p !in old(driver.reserved) &&
                    driver.reserved == old(driver.reserved)[p := size]
                && (alignment > 0 ==> p % alignment == 0)
                && (forall q :: q in old(driver.reserved) ==> !Overlap(p, size, q, old(driver.reserved)[q]))
    {
      ghost var w := Now();
      status, p := driver.AddressReserve(size, alignment, hint);
      if status == 0 || alignment == 0 {
        return;
      }
      status, p := driver.AddressReserve(size, 0, hint);
      if status != 0 {
        return;
      }
      if p % alignment == 0 {
        return;
      }
      FreshIsEmpty(w, p, size);
      status := driver.AddressFree(p, size);
      status := 801;
    }

    /** Unmap every chunk, then release every handle, going on after a failure; the error is set
        exactly when something to undo was missing. */
    method UnmapAndRelease(p: int, sizes: seq<int>, hs: seq<int>)
      requires Positive(sizes) && |hs| == |sizes|
      modifies this`errorCode, driver`handles, driver`mapped, driver`faults
      ensures driver.faults >= old(driver.faults)
      ensures driver.mapped == old(driver.mapped) - MappedAddrs(old(driver.mapped), p, sizes, |sizes|)
      ensures driver.handles == old(driver.handles) - Prefix(hs, |hs|)
      ensures AllThere(old(driver.mapped), old(driver.handles), p, sizes, hs) ==> errorCode == old(errorCode)
      ensures !AllThere(old(driver.mapped), old(driver.handles), p, sizes, hs) ==> errorCode != 0
    {
      hide Sum, Positive;
      var released := 0;
      var firstError := 0;
      ghost var was := driver.mapped;
      assert Sum(sizes[..0]) == 0 by { SumNone(sizes); }
      for i := 0 to |sizes|
        invariant released == Sum(sizes[..i]) && driver.handles == old(driver.handles) && errorCode == old(errorCode)
        invariant driver.mapped == was - MappedAddrs(was, p, sizes, i) && driver.faults >= old(driver.faults)
        invariant firstError == 0 <==> forall k :: 0 <= k < i ==> ChunkMapped(was, p, sizes, k)
      {
        MappedAddrsStep(was, p, sizes, i);
        var status := driver.MemUnmap(p + released, sizes[i]);
        if status != 0 && firstError == 0 {
          firstError := status;
        }
        SumStep(sizes, i);
        released := released + sizes[i];
      }
      ghost var unmapError := firstError;
      for i := 0 to |hs|
        invariant driver.mapped == was - MappedAddrs(was, p, sizes, |sizes|) && errorCode == old(errorCode)
        invariant driver.handles == old(driver.handles) - Prefix(hs, i) && driver.faults >= old(driver.faults)
        invariant firstError == 0 <==>
                    && unmapError == 0 && (forall k :: 0 <= k < i ==> hs[k] in old(driver.handles))
                    && (forall k, j :: 0 <= k < j < i ==> hs[k] != hs[j])
      {
        assert Prefix(hs, i + 1) == Prefix(hs, i) + {hs[i]};
        var status := driver.MemRelease(hs[i]);
        if status != 0 && firstError == 0 {
          firstError := status;
        }
      }
      if firstError != 0 {
        errorCode := firstError;
      }
    }

    /** The state an allocation at a fresh address ends in. */
    ghost predicate Settled(t: map<int, Entry>, res: map<int, Residence>, w: World, p: int, size: int, chunks: seq<int>,
                            stage: Stage)
      reads this, driver
    {
      && p in table && table == t[p := table[p]] && p in residence && residence == res[p := residence[p]]
      && table[p].size == size && table[p].chunks == chunks && !table[p].asleep
      && if Keeps(stage, chunks)
         then residence[p].Resident? && |table[p].handles| == |chunks| &&
              Now() == Grown(w, p, size, chunks, table[p].handles)
         else residence[p].Gone? && Now() == w
    }

    /** Give the address of a failed allocation back, unless memory is still mapped there. */
    method GiveBack(p: int, size: int)
      requires errorCode != 0 && p in driver.reserved && driver.reserved[p] == size > 0
      requires p in driver.mapped || forall a :: a in driver.mapped ==> !(p <= a < p + size)
      modifies this`errorCode, driver`reserved, driver`faults
      ensures driver.faults >= old(driver.faults)
      ensures errorCode != 0 && (p !in driver.mapped ==> errorCode == old(errorCode))
      ensures driver.reserved == if p in driver.mapped then old(driver.reserved) else old(driver.reserved) - {p}
    {
      var status := driver.AddressFree(p, size);
      if status != 0 {
        errorCode := status;
      }
    }

    /** Record a fresh reservation and map it; if that fails give the address back. `w` is the driver
        before the reservation. */
    method RecordAndMap(p: int, size: int, chunks: seq<int>, ghost w: World) returns (hs: seq<int>, ghost stage: Stage)
      requires MapsInside(w) && FreshRange(w, p, size) && p !in w.reserved && size > 0
      requires Now() == w.(reserved := w.reserved[p := size]) && errorCode == 0 && Positive(chunks)
      modifies this`errorCode, this`table, driver
      ensures table == old(table)[p := Entry(size, chunks, hs, false)]
      ensures (errorCode == 0 <==> stage.Mapped?) && (stage.Mapped? ==> chunks != [])
      ensures driver.faults >= old(driver.faults) && (driver.faults == old(driver.faults) ==> stage.Mapped?)
      ensures driver.wanted == old(driver.wanted)
      ensures stage.Mapped? || stage.CreateFailed? || stage.MapFailed? || stage.AccessFailed?
      ensures Keeps(stage, chunks) ==>
                && |hs| == |chunks| && NewHandles(w.handles, hs) && Addrs(p, chunks, |chunks|) !! w.mapped.Keys
                && Now() == Grown(w, p, size, chunks, hs)
      ensures !Keeps(stage, chunks) ==> Now() == w
    {
      hide WithMaps, WithHandles, Positive, Sum, NewHandles, MapsInside, Disjoint, Addrs, FreshRange;
      FreshIsEmpty(w, p, size);
      table := table[p := Entry(size, chunks, [], false)];
      hs, stage := CreateAndMap(p, size, chunks);
      table := table[p := table[p].(handles := hs)];
      NoChunks(w, p);
      assert w.reserved[p := size] - {p} == w.reserved;
      if chunks != [] && Keeps(stage, chunks) {
        FirstChunkMapped(w.mapped, p, chunks, hs);
      }
      if errorCode != 0 {
        GiveBack(p, size);
      }
    }

    /** The same on the books: whatever happens, the allocator stays valid. */
    method MapNew(p: int, size: int, chunks: seq<int>, ghost w: World) returns (ghost stage: Stage)
      requires Consistent(table, residence, w) && SleepersMarked(table, residence) && errorCode == 0
      requires FreshRange(w, p, size) && p !in w.reserved && size > 0
      requires Now() == w.(reserved := w.reserved[p := size])
      requires Positive(chunks) && (chunks != [] ==> Sum(chunks) == size)
      modifies this, driver
      ensures Valid() && (errorCode == 0 <==> stage.Mapped?) && (stage.Mapped? ==> chunks != [])
      ensures driver.faults >= old(driver.faults) && (driver.faults == old(driver.faults) ==> stage.Mapped?)
      ensures driver.wanted == old(driver.wanted)
      ensures stage.Mapped? || stage.CreateFailed? || stage.MapFailed? || stage.AccessFailed?
      ensures Settled(old(table), old(residence), w, p, size, chunks, stage)
      ensures stage.Mapped? ==> Takes(Books(old(table), old(residence), w), Alloc(p, table[p]), Ledger())
    {
      hide Consistent, WithMaps, WithHandles, Positive, Sum, NewHandles, MapsInside, Disjoint, Addrs, FreshRange,
        SleepersMarked;
      ghost var t, res := table, residence;
      ConsistentInside(t, res, w);
      var hs;
      hs, stage := RecordAndMap(p, size, chunks, w);
      ghost var e := Entry(size, chunks, hs, false);
      ghost var r := if Keeps(stage, chunks) then Resident else Gone;
      residence := res[p := r];
      if Keeps(stage, chunks) {
        MallocKeeps(t, res, w, p, e);
      } else {
        GoneKeeps(t, res, w, p, e);
      }
      StillMarked(t, res, p, e, r);
    }

    /** Allocate. The size is rounded up to whole granules and cut into chunks; a stale error refuses
        the call outright. A chunk size that wrapped to zero is divided by, with the address reserved
        and nothing else done. `probe` is the status of the granularity query; `hostFails` says that the
        host has no cells for the handles, or that the callback raises. When none of that happens and no
        driver call fails, the allocation succeeds. */
    method Malloc(size: int, parsed: Option<int>, probe: int, hostFails: bool)
      returns (p: int, ghost at: int, ghost stage: Stage)
      requires Valid() && 0 < driver.granularity < TWO64
      requires parsed.Some? ==> 0 <= parsed.value < TWO64
      modifies this, driver
      ensures (Valid() <==> !stage.HostFailed? && !stage.Divided?) && !stage.Stale?
      ensures errorCode == 0 <==> stage.Mapped? || stage.HostFailed? || stage.Divided?
      ensures !stage.Refused? && !stage.NoAddress? ==>
                (stage.Divided? <==> AlignUp64(BaseChunk(parsed), driver.granularity) == 0)
      ensures p == if stage.Mapped? then at else 0
      ensures (&& old(errorCode) == 0 && probe == 0 && driver.faults == old(driver.faults) && !hostFails
               && AlignUp64(BaseChunk(parsed), driver.granularity) > 0) ==> stage.Mapped? && p != 0
      ensures (stage.HostFailed? ==> hostFails) && (stage.Mapped? ==> !hostFails)
      ensures stage.Refused? <==> old(errorCode) != 0 || probe != 0
      ensures stage.Refused? ==> errorCode == if probe != 0 then probe else old(errorCode)
      ensures !stage.Refused? ==> driver.wanted == 0
      ensures stage.Refused? || stage.NoAddress? ==>
                Now() == old(Now()) && table == old(table) && residence == old(residence)
      ensures stage.HostFailed? || stage.Divided? ==>
                && at !in old(driver.reserved) && table == old(table) && residence == old(residence)
                && Now() == old(Now()).(reserved := old(driver.reserved)[at := AlignUp64(size, driver.granularity)])
      ensures stage.Mapped? ==> at in table && Takes(old(Ledger()), Alloc(at, table[at]), Ledger())
      ensures !stage.Refused? && !stage.NoAddress? && !stage.HostFailed? && !stage.Divided? ==>
                && at != 0 && at % driver.granularity == 0 && at !in old(driver.reserved) && at in table
                && Settled(old(table), old(residence), old(Now()), at, AlignUp64(size, driver.granularity),
                           table[at].chunks, stage)
                && (if table[at].size + AlignUp64(BaseChunk(parsed), driver.granularity) - 1 < TWO64
                    then Tiles(table[at].chunks, table[at].size, driver.granularity)
                    else table[at].chunks == [])
      ensures stage.Mapped? ==> table[at].chunks != []
    {
      hide Consistent, Sum, FreshRange, SleepersMarked, MapsInside, AlignUp64, BaseChunk, Tiles, Takes;
      ghost var w := Now();
      at := 0;
      if probe != 0 {
        errorCode := probe;
      }
      if errorCode != 0 {
        return 0, 0, Refused;
      }
      var g := driver.granularity;
      var aligned := AlignUp64(size, g);
      ConsistentInside(table, residence, w);
      var status;
      status, p := ReserveRocmAddress(aligned, g, 0);
      if status != 0 {
        errorCode := status;
        return 0, 0, NoAddress;
      }
      at := p;
      var chunk := AlignUp64(BaseChunk(parsed), g);
      AlignUp64Multiple(size, g);
      AlignUp64Multiple(BaseChunk(parsed), g);
      if chunk == 0 {
        NoStray(table, residence, w, Now());
        return 0, p, Divided;
      }
      var chunks := PlanChunks(aligned, chunk, g);
      assert FreshRange(w, p, aligned) by { IsFreshRange(w, p, aligned); }
      PlanIsPositive(chunks, aligned, g);
      if hostFails {
        NoStray(table, residence, w, Now());
        return 0, p, HostFailed;
      }
      stage := MapNew(p, aligned, chunks, w);
      if errorCode != 0 {
        p := 0;
      }
    }

    /** Free: an awake allocation is unmapped and released first, a sleeping one has only its
        reservation. Everything comes back exactly when the size is the recorded one and the entry is
        marked asleep just when it holds no memory. */
    method Free(p: int, size: int)
      requires Valid() && p in table && p in residence && (residence[p].Gone? ==> table[p].asleep)
      modifies this, driver
      ensures table == old(table) - {p} && residence == old(residence) - {p}
      ensures driver.handles == if old(table[p].asleep) then old(driver.handles)
                                else Shrunk(old(Now()), p, old(table[p])).handles
      ensures driver.mapped == if old(table[p].asleep) then old(driver.mapped)
                               else Shrunk(old(Now()), p, old(table[p])).mapped
      ensures var clean := size == old(table[p].size) && (old(table[p].asleep) <==> old(residence[p]).Placeholder?);
              if clean
              then Valid() && errorCode == old(errorCode) && Takes(old(Ledger()), Drop(p), Ledger())
              else driver.reserved == old(driver.reserved) && errorCode != 0 && (Valid() <==> old(residence[p]).Gone?)
    {
      hide Consistent, Sum, Positive, Prefix, Addrs, MappedAddrs, AllThere, SleepersMarked;
      ghost var t, res, w := table, residence, Now();
      EntryFacts(t, res, w, p);
      if res[p].Gone? { DropGone(t, res, w, p); } else { FreeKeeps(t, res, w, p); }
      var e := table[p];
      table := table - {p};
      residence := residence - {p};
      if !e.asleep {
        ResidentIsThere(t, res, w, p);
        UnmapAndRelease(p, e.chunks, e.handles);
      }
      var status := driver.AddressFree(p, size);
      if status != 0 {
        errorCode := status;
      }
      if !res[p].Gone? && status != 0 { KeptIsStray(t, res, w, p, Now()); }
    }

    /** Hold the address of a sleeping allocation: free it, then take the very same one again. */
    method HoldPlaceholder(p: int, size: int, ghost w: World)
      requires errorCode == 0 && Now() == w && (p in w.reserved ==> w.reserved[p] == size > 0)
      requires p in w.reserved ==>
                 MapsInside(w.(reserved := w.reserved - {p})) && forall a :: a in w.mapped ==> !(p <= a < p + size)
      modifies this`errorCode, driver`reserved, driver`faults, driver`wanted, driver`offered
      ensures driver.faults >= old(driver.faults)
      ensures driver.honoursHints && p != 0 && driver.faults == old(driver.faults) ==> errorCode == 0
      ensures p !in w.reserved ==> errorCode != 0 && driver.reserved == w.reserved
      ensures p in w.reserved ==> driver.reserved == if errorCode == 0 then w.reserved else w.reserved - {p}
    {
      hide MapsInside;
      var status := driver.AddressFree(p, size);
      if status != 0 {
        errorCode := status;
        return;
      }
      ghost var w' := Now();
      assert w' == w.(reserved := w.reserved - {p});
      var q;
      status, q := ReserveRocmAddress(size, 0, p);
      if status != 0 {
        errorCode := status;
      } else if q != p {
        IsFreshRange(w', q, size);
        FreshIsEmpty(w', q, size);
        status := driver.AddressFree(q, size);
        errorCode := 1;
        assert w'.reserved[q := size] - {q} == w'.reserved;
      } else {
        assert w'.reserved[p := size] == w.reserved;
      }
    }

    /** Put an allocation to sleep: its memory goes, its address stays reserved. The error is cleared
        and reported by `ok`; a stale error or an address lost to someone else makes the call fail. So
        does putting to sleep one without memory, which releases its old handles again: the books stay
        right exactly when none of them, and none of its chunk addresses, is in use by another. */
    method Sleep(p: int) returns (ok: bool)
      requires Valid() && p in table && p in residence && (residence[p].Gone? ==> table[p].asleep)
      modifies this, driver
      ensures errorCode == 0 && table == old(table)[p := old(table[p]).(asleep := true)]
      ensures ok ==> Takes(old(Ledger()), Rest(p), Ledger())
      ensures (&& old(residence[p]).Resident? && old(errorCode) == 0 && p != 0 && driver.honoursHints
               && driver.faults == old(driver.faults)) ==> ok
      ensures old(errorCode) != 0 || !old(residence[p]).Resident? ==> !ok
      ensures driver.handles == Shrunk(old(Now()), p, old(table[p])).handles
      ensures old(residence[p]).Resident? ==>
                && Valid() && driver.mapped == Shrunk(old(Now()), p, old(table[p])).mapped
                && if ok || old(errorCode) != 0
                   then residence == old(residence)[p := Placeholder] && driver.reserved == old(driver.reserved)
                   else residence == old(residence)[p := Gone] && driver.reserved == old(driver.reserved) - {p}
      ensures !old(residence[p]).Resident? ==>
                && residence == old(residence) && driver.reserved == old(driver.reserved)
                && driver.mapped == old(driver.mapped) -
                                    MappedAddrs(old(driver.mapped), p, table[p].chunks, |table[p].chunks|)
                && (Valid() <==> NoneInUse(old(Now()), p, old(table[p])))
      ensures old(residence[p]).Placeholder? ==> driver.mapped == old(driver.mapped)
    {
      hide Consistent, Sum, Positive, Prefix, Addrs, MappedAddrs, AllThere, SleepersMarked, MapsInside, NoneInUse;
      ghost var t, res, w := table, residence, Now();
      EntryFacts(t, res, w, p);
      ghost var e' := t[p].(asleep := true);
      ghost var w1 := Shrunk(w, p, t[p]);
      if res[p].Resident? {
        ResidentIsThere(t, res, w, p);
        FreeKeeps(t, res, w, p);
        ConsistentInside(t - {p}, res - {p}, w1.(reserved := w1.reserved - {p}));
        SleepKeeps(t, res, w, p);
      } else {
        SleepOfEmpty(t, res, w, p, e');
        if res[p].Placeholder? { NothingThere(t, res, w, p); }
      }
      var e := table[p];
      UnmapAndRelease(p, e.chunks, e.handles);
      if errorCode == 0 {
        HoldPlaceholder(p, e.size, Now());
      }
      ok := errorCode == 0;
      errorCode := 0;
      table := table[p := e.(asleep := true)];
      if res[p].Resident? {
        ghost var r := if ok || old(errorCode) != 0 then Placeholder else Gone;
        residence := res[p := r];
        StillMarked(t, res, p, e', r);
      }
    }

    /** Wake an allocation: map fresh memory into the placeholder. Waking one that is awake fails at the
        latest at the first map, and the cells already written lose the true handles: the books stay
        right exactly when no handle was made. `made` are the handles made. */
    method Wake(p: int) returns (ok: bool, ghost stage: Stage, ghost made: seq<int>)
      requires Valid() && p in table && p in residence && (residence[p].Gone? ==> table[p].asleep)
      modifies this, driver
      ensures errorCode == 0 && (ok <==> stage.Mapped?) && driver.reserved == old(driver.reserved)
      ensures |made| <= |old(table[p]).handles| && NewHandles(old(driver.handles), made)
      ensures table == old(table)[p := old(table[p]).(handles := made + old(table[p]).handles[|made|..],
                                                      asleep := old(table[p]).asleep && !ok)]
      ensures stage.Stale? <==> old(errorCode) != 0
      ensures !stage.Refused? && !stage.NoAddress? && !stage.Divided? && !stage.HostFailed?
      ensures old(errorCode) == 0 && old(residence[p]).Placeholder? ==> Valid()
      ensures ok <==> old(errorCode) == 0 && driver.faults == old(driver.faults)
      ensures ok && old(residence[p]).Placeholder? ==> Takes(old(Ledger()), Rouse(p, made), Ledger())
      ensures stage.Mapped? || stage.AccessFailed? ==>
                && !old(residence[p]).Resident? && |made| == |table[p].chunks|
                && driver.handles == WithHandles(old(driver.handles), table[p].chunks, made, |made|)
                && driver.mapped == WithMaps(old(driver.mapped), p, table[p].chunks, made, |made|)
                && residence == (if old(residence[p]).Placeholder? then old(residence)[p := Resident]
                                 else old(residence))
                && (Valid() <==> old(residence[p]).Placeholder?)
      ensures stage.CreateFailed? || stage.MapFailed? ==>
                && Now() == old(Now()) && residence == old(residence)
                && (Valid() <==> made == [] || !old(residence[p]).Resident?)
      ensures stage.MapFailed? ==> |made| == |table[p].chunks|
      ensures stage.Stale? ==>
                && driver.mapped == old(driver.mapped) && residence == old(residence) && |made| <= 1
                && driver.handles == WithHandles(old(driver.handles), table[p].chunks, made, |made|)
                && (Valid() <==> made == [])
    {
      hide Consistent, Sum, Positive, Addrs, SleepersMarked, WithMaps, WithHandles, NewHandles, Takes;
      ghost var t, res, w := table, residence, Now();
      EntryFacts(t, res, w, p);
      var e := table[p];
      var hs;
      hs, stage := CreateAndMap(p, e.size, e.chunks);
      made := hs;
      ok := errorCode == 0;
      errorCode := 0;
      ghost var e' := e.(handles := hs + e.handles[|hs|..], asleep := e.asleep && !ok);
      assert |hs| == |e.handles| ==> e'.handles == hs;
      table := table[p := e.(handles := hs + e.handles[|hs|..], asleep := e.asleep && !ok)];
      if stage.Mapped? || stage.AccessFailed? {
        WakeFindsRoom(t, res, w, p);
        if res[p].Placeholder? {
          WakeKeeps(t, res, w, p, hs, e'.asleep);
          residence := res[p := Resident];
          StillMarked(t, res, p, e', Resident);
          if ok { WakeTakes(t, res, w, p, hs); }
        } else {
          WakeOfGone(t, res, w, p, e', Now());
        }
      } else if stage.Stale? {
        StaleWake(t, res, w, p, hs, e', Now());
      } else {
        FailedWake(t, res, w, p, hs, e');
      }
    }
  }
}
