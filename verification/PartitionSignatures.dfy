/** Graph-partition signatures: a backward liveness pass decides what every partition of a
    scheduled graph takes, returns and frees. The theorem is that calling the partitions through
    these signatures computes what the unpartitioned graph computes. */
module PartitionSignatures {
  import opened Wrappers

  type Name = string

  /** What the scheduler knows about a buffer: whether it has a NoneLayout (nothing is allocated),
      and whether it stands for the result of an in-place write. */
  datatype Buffer = Buffer(noneLayout: bool, mutationOutput: bool)

  /** A scheduled node, with the names it defines, touches and uses for the last time. */
  datatype Node = Node(id: nat, outputs: set<Name>, loads: set<Name>, stores: set<Name>, lastUsage: set<Name>)

  type Partition = seq<Node>

  /** The scheduler state the pass consults. `nodeNames` are the keys of the name-to-node table,
      `realName` maps the name an in-place write introduces to the buffer it writes. */
  datatype Graph = Graph(
    outputNames: set<Name>,
    nodeNames: set<Name>,
    buffers: map<Name, Buffer>,
    realName: map<Name, Name>,
    constants: set<Name>)

  datatype Signature = Signature(
    inputs: set<Name>,
    deallocation: map<Name, bool>,
    outputs: set<Name>,
    skipCudagraph: bool,
    constantNames: set<Name>)

  datatype Result = Signatures(value: seq<Signature>) | KeyError

  // ---------------------------------------------------------------- the alias walk

  ghost predicate Ranks(g: Graph, rank: Name -> nat) {
    forall n :: n in g.realName ==> rank(g.realName[n]) < rank(n)
  }

  /** Renaming never runs in a circle, so the alias walk ends. */
  ghost predicate Acyclic(g: Graph) {
    exists rank: Name -> nat :: Ranks(g, rank)
  }

  ghost function Depth(g: Graph, n: Name): nat
    requires Acyclic(g)
  {
    var rank: Name -> nat :| Ranks(g, rank);
    rank(n)
  }

  function Real(g: Graph, n: Name): Name {
    if n in g.realName then g.realName[n] else n
  }

  function RealSet(g: Graph, names: set<Name>): set<Name> {
    set n | n in names :: Real(g, n)
  }

  /** True when nothing is allocated under this name. An empty real name counts as absent. */
  predicate IsNoneLayout(g: Graph, n: Name)
    requires Acyclic(g)
    decreases Depth(g, n)
  {
    n in g.buffers && g.buffers[n].noneLayout &&
    (if g.buffers[n].mutationOutput && n in g.realName && g.realName[n] != ""
     then IsNoneLayout(g, g.realName[n])
     else true)
  }

  // ---------------------------------------------------------------- one partition

  function Defined(p: Partition): set<Name> {
    set nd, n | nd in p && n in nd.outputs :: n
  }

  function Accessed(p: Partition): set<Name> {
    set nd, n | nd in p && n in nd.loads + nd.stores :: n
  }

  function Freed(p: Partition): set<Name> {
    set nd, n | nd in p && n in nd.lastUsage :: n
  }

  function Allocated(g: Graph, names: set<Name>): set<Name>
    requires Acyclic(g)
  {
    set n | n in names && !IsNoneLayout(g, n)
  }

  /** What a partition takes: everything it touches but does not define, under its real name, and
      the earlier buffers it is the last to use. */
  function Inputs(g: Graph, p: Partition): set<Name>
    requires Acyclic(g)
  {
    RealSet(g, Allocated(g, Accessed(p)) - Defined(p)) + ((Freed(p) - Defined(p)) * g.nodeNames)
  }

  /** What a partition hands back when `live` is needed after it: the live names it defines and
      every input it does not free. */
  function Returned(g: Graph, p: Partition, live: set<Name>): set<Name>
    requires Acyclic(g)
  {
    RealSet(g, Defined(p) * live + (Inputs(g, p) * g.nodeNames - Freed(p)))
  }

  function SignatureOf(g: Graph, p: Partition, skip: bool, live: set<Name>): Signature
    requires Acyclic(g)
  {
    var inputs := Inputs(g, p) * g.nodeNames;
    Signature(
      inputs,
      map n | n in inputs :: n in Freed(p),
      Allocated(g, Returned(g, p, live)),
      skip,
      Inputs(g, p) * g.constants)
  }

  // ---------------------------------------------------------------- the backward pass

  /** The names still unmet when the pass has handled every partition of `parts`. */
  function Live(g: Graph, parts: seq<Partition>): set<Name>
    requires Acyclic(g)
  {
    if parts == [] then g.outputNames
    else
      var later := Live(g, parts[1..]);
      Inputs(g, parts[0]) + (later - Returned(g, parts[0], later))
  }

  function SignaturesOf(g: Graph, parts: seq<Partition>, skip: seq<bool>): (s: seq<Signature>)
    requires Acyclic(g) && |parts| == |skip|
    ensures |s| == |parts|
  {
    if parts == [] then []
    else [SignatureOf(g, parts[0], skip[0], Live(g, parts[1..]))] + SignaturesOf(g, parts[1..], skip[1..])
  }

  /** Some partition would return a name that has no node. */
  predicate Unresolved(g: Graph, parts: seq<Partition>)
    requires Acyclic(g)
  {
    parts != [] &&
    (Unresolved(g, parts[1..]) ||
     !(Allocated(g, Returned(g, parts[0], Live(g, parts[1..]))) <= g.nodeNames))
  }

  lemma {:induction false} UnresolvedSuffix(g: Graph, parts: seq<Partition>, k: nat)
    requires Acyclic(g) && k <= |parts| && Unresolved(g, parts[k..])
    ensures Unresolved(g, parts)
    decreases k
  {
    if k > 0 {
      assert parts[k-1..][1..] == parts[k..];
      UnresolvedSuffix(g, parts, k - 1);
    } else {
      assert parts[0..] == parts;
    }
  }

  /** The partitions and flags the pass pairs up: both lists are read from the end, as far as the
      shorter one reaches. */
  function Tail<T>(xs: seq<T>, n: nat): (t: seq<T>)
    ensures |t| == if n <= |xs| then n else |xs|
  {
    if n <= |xs| then xs[|xs|-n..] else xs
  }

  /** The pass itself: it walks the partitions from last to first, carrying the unmet names. */
  method ComputeSignatures(g: Graph, partitions: seq<Partition>, skipCudagraphs: seq<bool>) returns (r: Result)
    requires Acyclic(g)
    ensures r.KeyError? <==> Unresolved(g, Tail(partitions, |skipCudagraphs|))
    ensures r.Signatures? ==>
              r.value == SignaturesOf(g, Tail(partitions, |skipCudagraphs|), Tail(skipCudagraphs, |partitions|))
  {
    var parts, skip := Tail(partitions, |skipCudagraphs|), Tail(skipCudagraphs, |partitions|);
    var signatures := [];
    var unmet := g.outputNames;
    var k := |parts|;
    while k > 0
      invariant 0 <= k <= |parts|
      invariant unmet == Live(g, parts[k..])
      invariant signatures == SignaturesOf(g, parts[k..], skip[k..])
      invariant !Unresolved(g, parts[k..])
    {
      k := k - 1;
      var p := parts[k];
      assert parts[k..][0] == p && parts[k..][1..] == parts[k+1..] && skip[k..][1..] == skip[k+1..];
      var returned := Returned(g, p, unmet);
      if !(Allocated(g, returned) <= g.nodeNames) {
        UnresolvedSuffix(g, parts, k);
        return KeyError;
      }
      signatures := [SignatureOf(g, p, skip[k], unmet)] + signatures;
      unmet := Inputs(g, p) + (unmet - returned);
    }
    assert parts[0..] == parts && skip[0..] == skip;
    return Signatures(signatures);
  }

  // ---------------------------------------------------------------- the meaning of a graph

  /** What node `nd` writes into buffer `t`, given the buffers it needs. Left uninterpreted. */
  type Exec<!V> = (Node, map<Name, V>, Name) -> V

  /** The allocated buffers, by real name, that a node touches in any way. */
  ghost function Touches(g: Graph, nd: Node): set<Name>
    requires Acyclic(g)
  {
    RealSet(g, Allocated(g, nd.loads + nd.stores + nd.outputs)) * g.nodeNames
  }

  ghost function Written(g: Graph, nd: Node): set<Name>
    requires Acyclic(g)
  {
    RealSet(g, Allocated(g, nd.stores + nd.outputs)) * g.nodeNames
  }

  /** The touched buffers a node does not create itself. */
  ghost function Needs(g: Graph, nd: Node): set<Name>
    requires Acyclic(g)
  {
    Touches(g, nd) - (nd.outputs - g.realName.Keys)
  }

  ghost function Restrict<V>(s: map<Name, V>, names: set<Name>): map<Name, V> {
    map n | n in s && n in names :: s[n]
  }

  ghost function Apply<V>(g: Graph, exec: Exec<V>, nd: Node, s: map<Name, V>): map<Name, V>
    requires Acyclic(g)
  {
    s + map t | t in Written(g, nd) :: exec(nd, Restrict(s, Needs(g, nd)), t)
  }

  /** Run nodes in order; `frees` drops every buffer at its last usage. A missing buffer is a crash. */
  ghost function RunNodes<V>(g: Graph, exec: Exec<V>, nodes: Partition, s: map<Name, V>, frees: bool)
    : Option<map<Name, V>>
    requires Acyclic(g)
  {
    if nodes == [] then Some(s)
    else if !(Needs(g, nodes[0]) <= s.Keys) then None
    else
      var t := Apply(g, exec, nodes[0], s);
      RunNodes(g, exec, nodes[1..], if frees then t - nodes[0].lastUsage else t, frees)
  }

  /** The reference: the whole graph, node by node, with nothing ever freed. */
  ghost function RunGraph<V>(g: Graph, exec: Exec<V>, parts: seq<Partition>, s: map<Name, V>)
    : Option<map<Name, V>>
    requires Acyclic(g)
  {
    if parts == [] then Some(s)
    else
      var r := RunNodes(g, exec, parts[0], s, false);
      if r.None? then None else RunGraph(g, exec, parts[1..], r.value)
  }

  /** One partition call: the body sees only the named inputs, frees as it goes, and the caller's
      store loses the deallocated inputs and gains the returned outputs. */
  ghost function Call<V>(g: Graph, exec: Exec<V>, sig: Signature, p: Partition, s: map<Name, V>)
    : Option<map<Name, V>>
    requires Acyclic(g)
  {
    if !(sig.inputs <= s.Keys) then None
    else
      var r := RunNodes(g, exec, p, Restrict(s, sig.inputs), true);
      if r.None? || !(sig.outputs <= r.value.Keys) then None
      else
        var gone := set n | n in sig.deallocation && sig.deallocation[n];
        Some((s - gone) + Restrict(r.value, sig.outputs))
  }

  /** The partitioned program: the calls in order, then a read of the graph outputs. */
  ghost function RunCalls<V>(g: Graph, exec: Exec<V>, sigs: seq<Signature>, parts: seq<Partition>, s: map<Name, V>)
    : Option<map<Name, V>>
    requires Acyclic(g) && |sigs| == |parts|
  {
    if parts == [] then (if g.outputNames * g.nodeNames <= s.Keys then Some(s) else None)
    else
      var r := Call(g, exec, sigs[0], parts[0], s);
      if r.None? then None else RunCalls(g, exec, sigs[1..], parts[1..], r.value)
  }

  // ---------------------------------------------------------------- what the scheduler guarantees

  /** A buffer under its own name, with memory of its own. */
  ghost predicate IsReal(g: Graph, n: Name)
    requires Acyclic(g)
  {
    n !in g.realName && !IsNoneLayout(g, n)
  }

  /** m is the buffer that the in-place write a goes to, under its own or another name. */
  ghost predicate Overwrites(g: Graph, m: Name, a: Name) {
    m == Real(g, a) || Real(g, m) == Real(g, a)
  }

  /** A node defines new names only, touches names that exist, and an in-place write touches the
      buffer it overwrites. */
  ghost predicate NodeInOrder(g: Graph, nd: Node, named: set<Name>)
    requires Acyclic(g)
  {
    && nd.outputs !! named
    && nd.outputs <= g.nodeNames
    && (forall n :: n in Allocated(g, nd.loads + nd.stores) - nd.outputs && Real(g, n) in g.nodeNames ==> n in named)
    && (forall a :: a in nd.outputs && a in g.realName && !IsNoneLayout(g, a) && Real(g, a) in g.nodeNames ==>
          exists m :: m in named * Allocated(g, nd.loads + nd.stores) && Overwrites(g, m, a))
    && nd.lastUsage * g.nodeNames <= named + nd.outputs
  }

  ghost predicate NodesInOrder(g: Graph, nodes: Partition, named: set<Name>)
    requires Acyclic(g)
  {
    nodes == [] || (NodeInOrder(g, nodes[0], named) && NodesInOrder(g, nodes[1..], named + nodes[0].outputs))
  }

  /** Topological order of the whole schedule, given the names that exist before it. */
  ghost predicate InOrder(g: Graph, parts: seq<Partition>, named: set<Name>)
    requires Acyclic(g)
  {
    if parts == [] then g.outputNames * g.nodeNames <= named
    else NodesInOrder(g, parts[0], named) && InOrder(g, parts[1..], named + Defined(parts[0]))
  }

  ghost function UsedBy(g: Graph, nodes: Partition): set<Name>
    requires Acyclic(g)
  {
    set nd, n | nd in nodes && n in Touches(g, nd) + nd.lastUsage :: n
  }

  ghost function UsedLater(g: Graph, parts: seq<Partition>): set<Name>
    requires Acyclic(g)
  {
    if parts == [] then g.outputNames else UsedBy(g, parts[0]) + UsedLater(g, parts[1..])
  }

  /** Every last usage really is the last, and names an allocated real buffer. */
  ghost predicate NodesFreeLast(g: Graph, nodes: Partition, after: set<Name>)
    requires Acyclic(g)
  {
    nodes == [] ||
    (&& nodes[0].lastUsage !! UsedBy(g, nodes[1..]) + after
     && (forall n :: n in nodes[0].lastUsage * g.nodeNames ==> IsReal(g, n))
     && NodesFreeLast(g, nodes[1..], after))
  }

  ghost predicate FreesLast(g: Graph, parts: seq<Partition>)
    requires Acyclic(g)
  {
    parts == [] || (NodesFreeLast(g, parts[0], UsedLater(g, parts[1..])) && FreesLast(g, parts[1..]))
  }

  ghost predicate OutputsReal(g: Graph)
    requires Acyclic(g)
  {
    forall n :: n in g.outputNames * g.nodeNames ==> IsReal(g, n)
  }

  /** Whatever the partition uses from outside stands for a real buffer, and its in-place writes go to
      names that are not renamed once more. */
  ghost predicate UsesReal(g: Graph, p: Partition)
    requires Acyclic(g)
  {
    && (forall n :: n in Allocated(g, Accessed(p)) - Defined(p) && Real(g, n) in g.nodeNames ==> IsReal(g, Real(g, n)))
    && (forall n :: n in Allocated(g, Defined(p)) && Real(g, n) in g.nodeNames ==> Real(g, n) !in g.realName)
  }

  /** Renaming gives real buffers wherever it counts: at graph outputs, between partitions, and for
      in-place writes. */
  ghost predicate CleanRenaming(g: Graph, parts: seq<Partition>)
    requires Acyclic(g)
  {
    OutputsReal(g) && forall p :: p in parts ==> UsesReal(g, p)
  }

  /** The schedule frees in the right places and renames cleanly. */
  ghost predicate Sound(g: Graph, parts: seq<Partition>)
    requires Acyclic(g)
  {
    FreesLast(g, parts) && CleanRenaming(g, parts)
  }

  lemma {:induction false} SoundRest(g: Graph, p: Partition, rest: seq<Partition>)
    requires Acyclic(g) && Sound(g, [p] + rest)
    ensures Sound(g, rest) && UsesReal(g, p) && NodesFreeLast(g, p, UsedLater(g, rest))
  {
    assert ([p] + rest)[0] == p && ([p] + rest)[1..] == rest;
    assert p in [p] + rest && forall q :: q in rest ==> q in [p] + rest;
  }

  /** Every existing allocated name has its buffer existing too. */
  ghost predicate Closed(g: Graph, named: set<Name>)
    requires Acyclic(g)
  {
    forall n :: n in named && !IsNoneLayout(g, n) && Real(g, n) in g.nodeNames ==> Real(g, n) in named
  }

  // ---------------------------------------------------------------- liveness

  lemma {:induction false} FreedIsReal(g: Graph, nodes: Partition, after: set<Name>)
    requires Acyclic(g) && NodesFreeLast(g, nodes, after)
    ensures forall n :: n in Freed(nodes) * g.nodeNames ==> IsReal(g, n)
    ensures Freed(nodes) !! after
  {
    if nodes != [] {
      FreedIsReal(g, nodes[1..], after);
      assert forall nd :: nd in nodes ==> nd == nodes[0] || nd in nodes[1..];
    }
  }

  lemma {:induction false} InputsAreUsed(g: Graph, p: Partition)
    requires Acyclic(g)
    ensures Inputs(g, p) * g.nodeNames <= UsedBy(g, p)
  {
    forall n | n in Inputs(g, p) * g.nodeNames
      ensures n in UsedBy(g, p)
    {
      if n !in Freed(p) {
        var m :| m in Allocated(g, Accessed(p)) - Defined(p) && n == Real(g, m);
        var nd :| nd in p && m in nd.loads + nd.stores;
        assert n in Touches(g, nd) + nd.lastUsage;
      } else {
        var nd :| nd in p && n in nd.lastUsage;
        assert n in Touches(g, nd) + nd.lastUsage;
      }
    }
  }

  lemma {:induction false} InputsAreReal(g: Graph, p: Partition, after: set<Name>)
    requires Acyclic(g) && NodesFreeLast(g, p, after) && UsesReal(g, p)
    ensures forall n :: n in Inputs(g, p) * g.nodeNames ==> IsReal(g, n)
  {
    FreedIsReal(g, p, after);
    forall n | n in Inputs(g, p) * g.nodeNames
      ensures IsReal(g, n)
    {
      if n !in Freed(p) {
        var m :| m in Allocated(g, Accessed(p)) - Defined(p) && n == Real(g, m);
      }
    }
  }

  lemma {:induction false} LiveIsUsed(g: Graph, parts: seq<Partition>)
    requires Acyclic(g) && Sound(g, parts)
    ensures Live(g, parts) * g.nodeNames <= UsedLater(g, parts)
    ensures forall n :: n in Live(g, parts) * g.nodeNames ==> IsReal(g, n)
  {
    if parts != [] {
      assert parts == [parts[0]] + parts[1..];
      SoundRest(g, parts[0], parts[1..]);
      LiveIsUsed(g, parts[1..]);
      InputsAreUsed(g, parts[0]);
      InputsAreReal(g, parts[0], UsedLater(g, parts[1..]));
    }
  }

  /** Live names survive the partition before them: none is freed there, and those the partition
      defines or takes are handed back. */
  lemma {:induction false} LiveSurvives(g: Graph, p: Partition, rest: seq<Partition>, skip: bool, n: Name)
    requires Acyclic(g) && Sound(g, [p] + rest)
    requires n in Live(g, rest) && n in g.nodeNames
    ensures n !in Freed(p)
    ensures n in Inputs(g, p) || n in Defined(p) ==> n in SignatureOf(g, p, skip, Live(g, rest)).outputs
  {
    SoundRest(g, p, rest);
    LiveIsUsed(g, rest);
    FreedIsReal(g, p, UsedLater(g, rest));
    if n in Inputs(g, p) || n in Defined(p) {
      assert n in Defined(p) * Live(g, rest) + (Inputs(g, p) * g.nodeNames - Freed(p));
      assert n in Live(g, rest) * g.nodeNames && IsReal(g, n);
    }
  }

  lemma {:induction false} DefinedSplit(p: Partition)
    requires p != []
    ensures Defined(p) == p[0].outputs + Defined(p[1..])
    ensures Freed(p) == p[0].lastUsage + Freed(p[1..])
  {
    assert forall nd :: nd in p <==> nd == p[0] || nd in p[1..];
  }

  lemma {:induction false} NodeCloses(g: Graph, nd: Node, named: set<Name>)
    requires Acyclic(g) && NodeInOrder(g, nd, named) && Closed(g, named)
    ensures Closed(g, named + nd.outputs)
  {
    forall n | n in nd.outputs && !IsNoneLayout(g, n) && Real(g, n) in g.nodeNames
      ensures Real(g, n) in named + nd.outputs
    {
      if n in g.realName {
        var m :| m in named * Allocated(g, nd.loads + nd.stores) && Overwrites(g, m, n);
        assert m in named;
      }
    }
  }

  lemma {:induction false} OrderFacts(g: Graph, p: Partition, named: set<Name>)
    requires Acyclic(g) && NodesInOrder(g, p, named)
    ensures Defined(p) !! named
    ensures Defined(p) <= g.nodeNames
    ensures Freed(p) * g.nodeNames <= named + Defined(p)
    ensures forall n :: n in Allocated(g, Accessed(p)) && Real(g, n) in g.nodeNames ==> n in named + Defined(p)
    ensures Closed(g, named) ==> Closed(g, named + Defined(p))
  {
    if p == [] {
      assert named + Defined(p) == named;
    } else {
      DefinedSplit(p);
      OrderFacts(g, p[1..], named + p[0].outputs);
      assert named + p[0].outputs + Defined(p[1..]) == named + Defined(p);
      if Closed(g, named) { NodeCloses(g, p[0], named); }
      forall n | n in Allocated(g, Accessed(p)) && Real(g, n) in g.nodeNames
        ensures n in named + Defined(p)
      {
        var nd :| nd in p && n in nd.loads + nd.stores;
        if nd == p[0] {
          assert n in nd.outputs || n in Allocated(g, nd.loads + nd.stores) - nd.outputs;
        } else {
          assert nd in p[1..] && n in Accessed(p[1..]);
          assert n in Allocated(g, Accessed(p[1..]));
        }
      }
    }
  }

  /** What the pass still wants before a schedule already exists by then. */
  lemma {:induction false} LiveExists(g: Graph, parts: seq<Partition>, named: set<Name>)
    requires Acyclic(g) && Sound(g, parts)
    requires InOrder(g, parts, named) && Closed(g, named)
    ensures Live(g, parts) * g.nodeNames <= named
  {
    if parts != [] {
      var p, rest := parts[0], parts[1..];
      assert parts == [p] + rest;
      OrderFacts(g, p, named);
      SoundRest(g, p, rest);
      LiveExists(g, rest, named + Defined(p));
      forall n | n in Live(g, parts) * g.nodeNames
        ensures n in named
      {
        if n in Inputs(g, p) {
          if n !in Freed(p) - Defined(p) {
            var m :| m in Allocated(g, Accessed(p)) - Defined(p) && n == Real(g, m);
            assert m in named;
          }
        } else {
          assert n in Live(g, rest) * g.nodeNames;
          LiveSurvives(g, p, rest, false, n);
        }
      }
    }
  }

  lemma {:induction false} ReturnedHaveNodes(g: Graph, p: Partition, live: set<Name>, after: set<Name>)
    requires Acyclic(g) && NodesFreeLast(g, p, after) && UsesReal(g, p)
    requires Defined(p) <= g.nodeNames && forall n :: n in live * g.nodeNames ==> IsReal(g, n)
    ensures Returned(g, p, live) <= g.nodeNames
  {
    InputsAreReal(g, p, after);
    forall n | n in Defined(p) * live + (Inputs(g, p) * g.nodeNames - Freed(p))
      ensures Real(g, n) in g.nodeNames
    {
      assert n in live * g.nodeNames || n in Inputs(g, p) * g.nodeNames;
    }
  }

  /** No partition is ever asked to return a name without a node. */
  lemma {:induction false} NeverUnresolved(g: Graph, parts: seq<Partition>, named: set<Name>)
    requires Acyclic(g) && Sound(g, parts) && InOrder(g, parts, named)
    ensures !Unresolved(g, parts)
  {
    if parts != [] {
      var p, rest := parts[0], parts[1..];
      assert parts == [p] + rest;
      SoundRest(g, p, rest);
      NeverUnresolved(g, rest, named + Defined(p));
      OrderFacts(g, p, named);
      LiveIsUsed(g, rest);
      ReturnedHaveNodes(g, p, Live(g, rest), UsedLater(g, rest));
    }
  }

  /** Every name a partition defines and returns is taken by a later partition or is a graph output. */
  ghost predicate TakenLater(g: Graph, parts: seq<Partition>, n: Name)
    requires Acyclic(g)
  {
    n in g.outputNames || exists p :: p in parts && n in Inputs(g, p)
  }

  lemma {:induction false} LiveIsTaken(g: Graph, parts: seq<Partition>, n: Name)
    requires Acyclic(g) && n in Live(g, parts)
    ensures TakenLater(g, parts, n)
  {
    if parts != [] {
      if n in Inputs(g, parts[0]) {
        assert parts[0] in parts;
      } else {
        LiveIsTaken(g, parts[1..], n);
        if n !in g.outputNames {
          var p :| p in parts[1..] && n in Inputs(g, p);
          assert p in parts;
        }
      }
    }
  }

  // ---------------------------------------------------------------- simulation

  ghost predicate Agrees<V>(s: map<Name, V>, t: map<Name, V>) {
    forall n :: n in s ==> n in t && s[n] == t[n]
  }

  /** Every allocated name defined inside the partition so far has its buffer at hand. */
  ghost predicate LocallyClosed(g: Graph, local: set<Name>, have: set<Name>)
    requires Acyclic(g)
  {
    forall n :: n in local && !IsNoneLayout(g, n) && Real(g, n) in g.nodeNames ==> Real(g, n) in have
  }

  lemma {:induction false} AccessIsAtHand(g: Graph, p: Partition, nd: Node, named0: set<Name>, local: set<Name>,
                                          have: set<Name>, n: Name)
    requires Acyclic(g) && nd in p
    requires Defined(p) !! named0 && NodeInOrder(g, nd, named0 + local)
    requires Inputs(g, p) * g.nodeNames <= have && LocallyClosed(g, local, have)
    requires n in Allocated(g, nd.loads + nd.stores) - nd.outputs && Real(g, n) in g.nodeNames
    ensures Real(g, n) in have
  {
    assert n in named0 + local;
    if n !in local {
      assert n in Accessed(p);
      assert n in Allocated(g, Accessed(p)) - Defined(p);
      assert Real(g, n) in Inputs(g, p);
    }
  }

  /** The buffers a node makes. */
  ghost function Made(g: Graph, nd: Node): set<Name>
    requires Acyclic(g)
  {
    set n | n in nd.outputs * g.nodeNames && IsReal(g, n)
  }

  /** The buffers a node needs are the partition's inputs or were made inside it. */
  lemma {:induction false} NeedsAreAtHand(g: Graph, p: Partition, nd: Node, named0: set<Name>, local: set<Name>,
                                          have: set<Name>)
    requires Acyclic(g) && nd in p && UsesReal(g, p)
    requires Defined(p) !! named0 && NodeInOrder(g, nd, named0 + local)
    requires Inputs(g, p) * g.nodeNames <= have && LocallyClosed(g, local, have)
    ensures Needs(g, nd) <= have
    ensures LocallyClosed(g, local + nd.outputs, have + Made(g, nd))
    ensures Touches(g, nd) <= have + Made(g, nd)
  {
    forall n | n in Allocated(g, nd.loads + nd.stores + nd.outputs) && Real(g, n) in g.nodeNames
      ensures Real(g, n) in have + Made(g, nd)
    {
      if n !in nd.outputs {
        assert n in Allocated(g, nd.loads + nd.stores) - nd.outputs;
        AccessIsAtHand(g, p, nd, named0, local, have, n);
      } else if n in g.realName {
        var m :| m in (named0 + local) * Allocated(g, nd.loads + nd.stores) && Overwrites(g, m, n);
        assert n in Allocated(g, Defined(p)) && Real(g, m) == Real(g, n);
        AccessIsAtHand(g, p, nd, named0, local, have, m);
      }
    }
    assert forall n :: n in nd.outputs && !IsNoneLayout(g, n) ==> n in Allocated(g, nd.loads + nd.stores + nd.outputs);
  }

  lemma {:induction false} MadeIsWritten(g: Graph, nd: Node)
    requires Acyclic(g)
    ensures Made(g, nd) <= Written(g, nd) <= Touches(g, nd)
  {
    forall n | n in Made(g, nd)
      ensures n in Written(g, nd)
    {
      assert n in Allocated(g, nd.stores + nd.outputs) && Real(g, n) == n;
    }
  }

  lemma {:induction false} UsedSplit(g: Graph, p: Partition)
    requires Acyclic(g) && p != []
    ensures Touches(g, p[0]) + p[0].lastUsage + UsedBy(g, p[1..]) <= UsedBy(g, p)
  {
    forall n | n in Touches(g, p[0]) + p[0].lastUsage
      ensures n in UsedBy(g, p)
    {
      assert p[0] in p && n in Touches(g, p[0]) + p[0].lastUsage;
    }
  }

  lemma {:induction false} SimNode<V>(g: Graph, exec: Exec<V>, nd: Node, have: set<Name>, later: set<Name>,
                                      s: map<Name, V>, t: map<Name, V>)
    requires Acyclic(g)
    requires Needs(g, nd) <= s.Keys && Agrees(s, t)
    requires have * later <= s.Keys && nd.lastUsage !! later
    ensures Agrees(Apply(g, exec, nd, s) - nd.lastUsage, Apply(g, exec, nd, t))
    ensures (have + Made(g, nd)) * later <= (Apply(g, exec, nd, s) - nd.lastUsage).Keys
  {
    MadeIsWritten(g, nd);
    assert Restrict(s, Needs(g, nd)) == Restrict(t, Needs(g, nd));
  }

  /** `a` is what a partition ends with and `b` what the whole graph ends with after the same nodes:
      they agree, `a` holds what is wanted after, and `b` only changed what was at hand or made. */
  ghost predicate Tracks<V>(g: Graph, have: set<Name>, made: set<Name>, after: set<Name>,
                            t: map<Name, V>, a: map<Name, V>, b: map<Name, V>)
    requires Acyclic(g)
  {
    && Agrees(a, b)
    && (forall n :: n in after && (n in have || (n in made && IsReal(g, n))) ==> n in a)
    && (forall n :: n in t && n !in have + made ==> n in b && b[n] == t[n])
  }

  lemma {:induction false} TracksStep<V>(g: Graph, exec: Exec<V>, nd: Node, have: set<Name>, made: set<Name>,
                                         after: set<Name>, t: map<Name, V>, a: map<Name, V>, b: map<Name, V>)
    requires Acyclic(g) && nd.outputs <= g.nodeNames
    requires Touches(g, nd) <= have + Made(g, nd)
    requires Tracks(g, have + Made(g, nd), made, after, Apply(g, exec, nd, t), a, b)
    ensures Tracks(g, have, nd.outputs + made, after, t, a, b)
  {
    MadeIsWritten(g, nd);
  }

  /** Inside a partition: running on the inputs alone, freeing as it goes, tracks the whole graph. */
  lemma {:induction false} SimNodes<V>(g: Graph, exec: Exec<V>, p: Partition, rest: Partition, named0: set<Name>,
                                       local: set<Name>,
                                       have: set<Name>, after: set<Name>, s: map<Name, V>, t: map<Name, V>)
    requires Acyclic(g) && UsesReal(g, p)
    requires forall nd :: nd in rest ==> nd in p
    requires Defined(p) !! named0 && NodesInOrder(g, rest, named0 + local)
    requires Inputs(g, p) * g.nodeNames <= have && LocallyClosed(g, local, have)
    requires NodesFreeLast(g, rest, after)
    requires have * (UsedBy(g, rest) + after) <= s.Keys && Agrees(s, t)
    ensures var a, b := RunNodes(g, exec, rest, s, true), RunNodes(g, exec, rest, t, false);
            a.Some? && b.Some? && Tracks(g, have, Defined(rest), after, t, a.value, b.value)
    decreases rest
  {
    if rest != [] {
      hide UsesReal, NodeInOrder, Inputs, Defined, UsedBy, LocallyClosed, Touches, Made, Apply, Tracks, IsNoneLayout;
      var nd, tail := rest[0], rest[1..];
      NeedsAreAtHand(g, p, nd, named0, local, have);
      UsedSplit(g, rest);
      DefinedSplit(rest);
      SimNode(g, exec, nd, have, UsedBy(g, tail) + after, s, t);
      assert named0 + local + nd.outputs == named0 + (local + nd.outputs);
      var s', t' := Apply(g, exec, nd, s) - nd.lastUsage, Apply(g, exec, nd, t);
      SimNodes(g, exec, p, tail, named0, local + nd.outputs, have + Made(g, nd), after, s', t');
      TracksStep(g, exec, nd, have, Defined(tail), after, t,
                 RunNodes(g, exec, tail, s', true).value, RunNodes(g, exec, tail, t', false).value);
    }
  }

  lemma {:induction false} FreeLastWiden(g: Graph, nodes: Partition, after: set<Name>, kept: set<Name>)
    requires Acyclic(g) && NodesFreeLast(g, nodes, after) && kept !! Freed(nodes)
    ensures NodesFreeLast(g, nodes, after + kept)
  {
    if nodes != [] {
      DefinedSplit(nodes);
      FreeLastWiden(g, nodes[1..], after, kept);
    }
  }

  /** One call: from stores that agree on what is live before it to stores that agree on what is
      live after it. */
  lemma {:induction false} SimCall<V>(g: Graph, exec: Exec<V>, p: Partition, rest: seq<Partition>, skip: bool,
                                      named: set<Name>, s: map<Name, V>, t: map<Name, V>)
    requires Acyclic(g) && Sound(g, [p] + rest) && NodesInOrder(g, p, named)
    requires Live(g, [p] + rest) * g.nodeNames <= s.Keys
    requires Agrees(Restrict(s, Live(g, [p] + rest) * g.nodeNames), t)
    ensures var call := Call(g, exec, SignatureOf(g, p, skip, Live(g, rest)), p, s);
            var ref := RunNodes(g, exec, p, t, false);
            && call.Some? && ref.Some?
            && Live(g, rest) * g.nodeNames <= call.value.Keys
            && Agrees(Restrict(call.value, Live(g, rest) * g.nodeNames), ref.value)
  {
    var parts := [p] + rest;
    assert parts[0] == p && parts[1..] == rest;
    var live, kept := Live(g, rest), Inputs(g, p) * g.nodeNames - Freed(p);
    var sig := SignatureOf(g, p, skip, live);
    var s0 := Restrict(s, sig.inputs);
    OrderFacts(g, p, named);
    SoundRest(g, p, rest);
    LiveIsUsed(g, rest);
    FreeLastWiden(g, p, UsedLater(g, rest), kept);
    assert named + {} == named;
    SimNodes(g, exec, p, p, named, {}, sig.inputs, UsedLater(g, rest) + kept, s0, t);
    OutputsAreMade(g, p, rest, skip, named);
    JoinCall(g, exec, p, rest, skip, s, t);
  }

  lemma {:induction false} JoinCall<V>(g: Graph, exec: Exec<V>, p: Partition, rest: seq<Partition>, skip: bool,
                                       s: map<Name, V>, t: map<Name, V>)
    requires Acyclic(g) && Sound(g, [p] + rest)
    requires Live(g, [p] + rest) * g.nodeNames <= s.Keys
    requires Agrees(Restrict(s, Live(g, [p] + rest) * g.nodeNames), t)
    requires forall n :: n in SignatureOf(g, p, skip, Live(g, rest)).outputs ==>
              n in Inputs(g, p) * g.nodeNames - Freed(p) ||
              (n in Defined(p) * Live(g, rest) * g.nodeNames && IsReal(g, n))
    requires var inputs := Inputs(g, p) * g.nodeNames;
             var a, b := RunNodes(g, exec, p, Restrict(s, inputs), true), RunNodes(g, exec, p, t, false);
             && a.Some? && b.Some?
             && Tracks(g, inputs, Defined(p), UsedLater(g, rest) + (inputs - Freed(p)), t, a.value, b.value)
    ensures var call := Call(g, exec, SignatureOf(g, p, skip, Live(g, rest)), p, s);
            var ref := RunNodes(g, exec, p, t, false);
            && call.Some? && ref.Some?
            && Live(g, rest) * g.nodeNames <= call.value.Keys
            && Agrees(Restrict(call.value, Live(g, rest) * g.nodeNames), ref.value)
  {
    hide Sound, UsedLater, RunNodes, Inputs, Defined, Freed, Allocated, Returned, Live, IsReal;
    var live, inputs := Live(g, rest), Inputs(g, p) * g.nodeNames;
    var sig := SignatureOf(g, p, skip, live);
    var a, b := RunNodes(g, exec, p, Restrict(s, inputs), true).value, RunNodes(g, exec, p, t, false).value;
    LiveIsUsedAfter(g, p, rest);
    assert sig.inputs <= s.Keys;
    assert sig.outputs <= a.Keys;
    var call := Call(g, exec, sig, p, s).value;
    forall n | n in live * g.nodeNames
      ensures n in call && n in b && call[n] == b[n]
    {
      LiveBefore(g, p, rest, skip, n);
      if n !in sig.outputs {
        assert n in Restrict(s, Live(g, [p] + rest) * g.nodeNames);
      }
    }
  }

  lemma {:induction false} LiveIsUsedAfter(g: Graph, p: Partition, rest: seq<Partition>)
    requires Acyclic(g) && Sound(g, [p] + rest)
    ensures Live(g, rest) * g.nodeNames <= UsedLater(g, rest) && Inputs(g, p) <= Live(g, [p] + rest)
  {
    assert ([p] + rest)[0] == p && ([p] + rest)[1..] == rest;
    SoundRest(g, p, rest);
    LiveIsUsed(g, rest);
  }

  /** A live name that a partition does not hand back was live before it and is none of its business. */
  lemma {:induction false} LiveBefore(g: Graph, p: Partition, rest: seq<Partition>, skip: bool, n: Name)
    requires Acyclic(g) && Sound(g, [p] + rest)
    requires n in Live(g, rest) && n in g.nodeNames
    ensures n !in Freed(p)
    ensures n !in SignatureOf(g, p, skip, Live(g, rest)).outputs ==>
              n in Live(g, [p] + rest) && n !in Inputs(g, p) && n !in Defined(p)
  {
    var parts := [p] + rest;
    assert parts[0] == p && parts[1..] == rest;
    LiveSurvives(g, p, rest, skip, n);
    SoundRest(g, p, rest);
    LiveIsUsed(g, rest);
    assert n in Live(g, rest) * g.nodeNames && IsReal(g, n);
  }

  /** What a signature returns is an input kept alive or a live buffer the partition creates. */
  lemma {:induction false} OutputsAreMade(g: Graph, p: Partition, rest: seq<Partition>, skip: bool, named: set<Name>)
    requires Acyclic(g) && Sound(g, [p] + rest) && NodesInOrder(g, p, named)
    ensures forall n :: n in SignatureOf(g, p, skip, Live(g, rest)).outputs ==>
              n in Inputs(g, p) * g.nodeNames - Freed(p) ||
              (n in Defined(p) * Live(g, rest) * g.nodeNames && IsReal(g, n))
  {
    var parts := [p] + rest;
    assert parts[0] == p && parts[1..] == rest;
    OrderFacts(g, p, named);
    SoundRest(g, p, rest);
    LiveIsUsed(g, rest);
    InputsAreReal(g, p, UsedLater(g, rest));
    forall n | n in SignatureOf(g, p, skip, Live(g, rest)).outputs
      ensures n in Inputs(g, p) * g.nodeNames - Freed(p) ||
              (n in Defined(p) * Live(g, rest) * g.nodeNames && IsReal(g, n))
    {
      var m :| m in Defined(p) * Live(g, rest) + (Inputs(g, p) * g.nodeNames - Freed(p)) && n == Real(g, m);
      assert m in Live(g, rest) * g.nodeNames || m in Inputs(g, p) * g.nodeNames;
    }
  }

  // ---------------------------------------------------------------- main results

  lemma {:induction false} SimParts<V>(g: Graph, exec: Exec<V>, parts: seq<Partition>, skip: seq<bool>,
                                       named: set<Name>, s: map<Name, V>, t: map<Name, V>)
    requires Acyclic(g) && Sound(g, parts) && InOrder(g, parts, named) && |skip| == |parts|
    requires Live(g, parts) * g.nodeNames <= s.Keys
    requires Agrees(Restrict(s, Live(g, parts) * g.nodeNames), t)
    ensures var calls, ref := RunCalls(g, exec, SignaturesOf(g, parts, skip), parts, s), RunGraph(g, exec, parts, t);
            calls.Some? && ref.Some? && Agrees(Restrict(calls.value, g.outputNames * g.nodeNames), ref.value)
  {
    if parts != [] {
      var p, rest := parts[0], parts[1..];
      assert parts == [p] + rest;
      SimCall(g, exec, p, rest, skip[0], named, s, t);
      SoundRest(g, p, rest);
      SimParts(g, exec, rest, skip[1..], named + Defined(p),
               Call(g, exec, SignatureOf(g, p, skip[0], Live(g, rest)), p, s).value,
                   RunNodes(g, exec, p, t, false).value);
    }
  }

  /** Calling the partitions through the computed signatures, which see only their named inputs and
      free what they are told to free, never lacks a buffer and leaves in every graph output what
      running the whole graph without partitions or frees leaves there. */
  lemma {:induction false} PartitioningPreservesMeaning<V>(g: Graph, exec: Exec<V>, parts: seq<Partition>,
                                                           skip: seq<bool>, graphInputs: set<Name>, s: map<Name, V>)
    requires Acyclic(g) && Sound(g, parts) && InOrder(g, parts, graphInputs)
    requires |skip| == |parts| && graphInputs !! g.realName.Keys
    requires graphInputs * g.nodeNames <= s.Keys
    ensures !Unresolved(g, parts)
    ensures var calls, ref := RunCalls(g, exec, SignaturesOf(g, parts, skip), parts, s), RunGraph(g, exec, parts, s);
            && calls.Some? && ref.Some?
            && forall n :: n in g.outputNames * g.nodeNames ==>
                 n in calls.value && n in ref.value && calls.value[n] == ref.value[n]
  {
    assert Closed(g, graphInputs);
    LiveExists(g, parts, graphInputs);
    NeverUnresolved(g, parts, graphInputs);
    SimParts(g, exec, parts, skip, graphInputs, s, s);
    CallsEndWithOutputs(g, exec, SignaturesOf(g, parts, skip), parts, s);
    var calls := RunCalls(g, exec, SignaturesOf(g, parts, skip), parts, s).value;
    assert forall n :: n in g.outputNames * g.nodeNames ==> n in Restrict(calls, g.outputNames * g.nodeNames);
  }

  lemma {:induction false} CallsEndWithOutputs<V>(g: Graph, exec: Exec<V>, sigs: seq<Signature>, parts: seq<Partition>,
                                                  s: map<Name, V>)
    requires Acyclic(g) && |sigs| == |parts|
    requires RunCalls(g, exec, sigs, parts, s).Some?
    ensures g.outputNames * g.nodeNames <= RunCalls(g, exec, sigs, parts, s).value.Keys
  {
    if parts != [] {
      CallsEndWithOutputs(g, exec, sigs[1..], parts[1..], Call(g, exec, sigs[0], parts[0], s).value);
    }
  }

  lemma {:induction false} CallGainsOutputsOnly<V>(g: Graph, exec: Exec<V>, sig: Signature, p: Partition,
                                                   s: map<Name, V>)
    requires Acyclic(g) && Call(g, exec, sig, p, s).Some?
    ensures sig.inputs <= s.Keys
    ensures Call(g, exec, sig, p, s).value.Keys <= s.Keys + sig.outputs
  {
  }

  /** Nothing less than the unmet names will do: on any graph at all, a run that succeeds started
      with every one of them. */
  lemma {:induction false} LiveIsNecessary<V>(g: Graph, exec: Exec<V>, parts: seq<Partition>, skip: seq<bool>,
                                              s: map<Name, V>)
    requires Acyclic(g) && |skip| == |parts|
    requires RunCalls(g, exec, SignaturesOf(g, parts, skip), parts, s).Some?
    ensures Live(g, parts) * g.nodeNames <= s.Keys
  {
    if parts != [] {
      var p, rest := parts[0], parts[1..];
      var sig := SignatureOf(g, p, skip[0], Live(g, rest));
      CallGainsOutputsOnly(g, exec, sig, p, s);
      var s' := Call(g, exec, sig, p, s).value;
      assert SignaturesOf(g, parts, skip)[1..] == SignaturesOf(g, rest, skip[1..]);
      LiveIsNecessary(g, exec, rest, skip[1..], s');
      assert sig.outputs <= Returned(g, p, Live(g, rest)) && sig.inputs == Inputs(g, p) * g.nodeNames;
      assert (Live(g, rest) - Returned(g, p, Live(g, rest))) * g.nodeNames <= s.Keys;
    }
  }

  /** The set the backward pass ends with is the weakest requirement on the store: the partitioned
      program runs from a store exactly when the store holds it. */
  lemma {:induction false} LiveIsExact<V>(g: Graph, exec: Exec<V>, parts: seq<Partition>, skip: seq<bool>,
                                          named: set<Name>, s: map<Name, V>)
    requires Acyclic(g) && Sound(g, parts) && InOrder(g, parts, named) && |skip| == |parts|
    ensures RunCalls(g, exec, SignaturesOf(g, parts, skip), parts, s).Some? <==> Live(g, parts) * g.nodeNames <= s.Keys
  {
    if RunCalls(g, exec, SignaturesOf(g, parts, skip), parts, s).Some? {
      LiveIsNecessary(g, exec, parts, skip, s);
    }
    if Live(g, parts) * g.nodeNames <= s.Keys {
      SimParts(g, exec, parts, skip, named, s, s);
    }
  }

  /** A partition returns nothing superfluous of its own: a name it defines and returns is taken by
      a later partition or is a graph output. */
  lemma {:induction false} ReturnedIsNeeded(g: Graph, p: Partition, rest: seq<Partition>, skip: bool, named: set<Name>,
                                            n: Name)
    requires Acyclic(g) && Sound(g, [p] + rest)
    requires NodesInOrder(g, p, named) && Closed(g, named)
    requires n in SignatureOf(g, p, skip, Live(g, rest)).outputs && n in Defined(p)
    ensures TakenLater(g, rest, n)
  {
    var parts := [p] + rest;
    assert parts[0] == p && parts[1..] == rest;
    OutputsAreMade(g, p, rest, skip, named);
    if n in Live(g, rest) {
      LiveIsTaken(g, rest, n);
    } else {
      InputsComeFromBefore(g, p, named, n);
    }
  }

  lemma {:induction false} InputsComeFromBefore(g: Graph, p: Partition, named: set<Name>, n: Name)
    requires Acyclic(g) && NodesInOrder(g, p, named) && Closed(g, named)
    requires n in Inputs(g, p) * g.nodeNames
    ensures n in named && n !in Defined(p)
  {
    OrderFacts(g, p, named);
    if n !in Freed(p) - Defined(p) {
      var m :| m in Allocated(g, Accessed(p)) - Defined(p) && n == Real(g, m);
      assert m in named;
    }
  }

  // ---------------------------------------------------------------- when the program runs

  /** A renamed name never appears by running nodes, because it is needed before it is written; so a
      run that succeeds without it never needed it. */
  lemma {:induction false} RenamedNeverAppears<V>(g: Graph, exec: Exec<V>, nodes: Partition, s: map<Name, V>,
                                                  frees: bool, n: Name)
    requires Acyclic(g) && n in g.realName && n !in s && RunNodes(g, exec, nodes, s, frees).Some?
    ensures n !in RunNodes(g, exec, nodes, s, frees).value && forall nd :: nd in nodes ==> n !in Needs(g, nd)
  {
    if nodes != [] {
      var nd, t := nodes[0], Apply(g, exec, nodes[0], s);
      assert Written(g, nd) <= Touches(g, nd) <= Needs(g, nd) + (nd.outputs - g.realName.Keys);
      RenamedNeverAppears(g, exec, nodes[1..], if frees then t - nd.lastUsage else t, frees, n);
      assert forall x :: x in nodes ==> x == nd || x in nodes[1..];
    }
  }

  /** The partition needs the name, as an input or for one of its nodes. */
  ghost predicate NeededBy(g: Graph, p: Partition, n: Name)
    requires Acyclic(g)
  {
    n in Inputs(g, p) * g.nodeNames || (n in g.realName && exists nd :: nd in p && n in Needs(g, nd))
  }

  /** A call neither gets by without a name it needs nor brings in one that is no real buffer. */
  lemma {:induction false} UnrealNeverReturned<V>(g: Graph, exec: Exec<V>, p: Partition, skip: bool, live: set<Name>,
                                                  s: map<Name, V>, n: Name)
    requires Acyclic(g) && !IsReal(g, n) && n !in s && Call(g, exec, SignatureOf(g, p, skip, live), p, s).Some?
    ensures n !in Call(g, exec, SignatureOf(g, p, skip, live), p, s).value && !NeededBy(g, p, n)
  {
    var sig := SignatureOf(g, p, skip, live);
    if n in g.realName { RenamedNeverAppears(g, exec, p, Restrict(s, sig.inputs), true, n); }
  }

  /** On any graph: a name that is no real buffer and that the store lacks is lost. If a partition needs
      it, or the graph returns it, the program does not run. */
  lemma {:induction false} UnrealIsLost<V>(g: Graph, exec: Exec<V>, parts: seq<Partition>, skip: seq<bool>,
                                           s: map<Name, V>, n: Name)
    requires Acyclic(g) && |skip| == |parts| && !IsReal(g, n) && n !in s
    requires n in g.outputNames * g.nodeNames || exists p :: p in parts && NeededBy(g, p, n)
    ensures RunCalls(g, exec, SignaturesOf(g, parts, skip), parts, s).None?
  {
    if parts != [] {
      var p, rest := parts[0], parts[1..];
      var sig := SignatureOf(g, p, skip[0], Live(g, rest));
      assert SignaturesOf(g, parts, skip)[1..] == SignaturesOf(g, rest, skip[1..]);
      if Call(g, exec, sig, p, s).Some? {
        UnrealNeverReturned(g, exec, p, skip[0], Live(g, rest), s, n);
        assert forall q :: q in parts ==> q == p || q in rest;
        UnrealIsLost(g, exec, rest, skip[1..], Call(g, exec, sig, p, s).value, n);
      }
    }
  }

  /** A partition that does not use real buffers only needs some name that is none. */
  lemma {:induction false} UnrealIsNeeded(g: Graph, p: Partition) returns (n: Name)
    requires Acyclic(g) && !UsesReal(g, p)
    ensures !IsReal(g, n) && NeededBy(g, p, n)
  {
    if a :| a in Allocated(g, Accessed(p)) - Defined(p) && Real(g, a) in g.nodeNames && !IsReal(g, Real(g, a)) {
      n := Real(g, a);
    } else {
      var a :| a in Allocated(g, Defined(p)) && Real(g, a) in g.nodeNames && Real(g, a) in g.realName;
      n := Real(g, a);
      var nd :| nd in p && a in nd.outputs;
      assert a in Allocated(g, nd.loads + nd.stores + nd.outputs) && n in Needs(g, nd);
    }
  }

  /** Exactly when the partitioned program runs: started from the graph inputs, and with nothing but
      real buffers in the store, it never lacks a buffer if and only if renaming gives real buffers
      wherever it counts. */
  lemma {:induction false} RunsExactly<V>(g: Graph, exec: Exec<V>, parts: seq<Partition>, skip: seq<bool>,
                                          graphInputs: set<Name>, s: map<Name, V>)
    requires Acyclic(g) && FreesLast(g, parts) && InOrder(g, parts, graphInputs)
    requires |skip| == |parts| && graphInputs !! g.realName.Keys
    requires graphInputs * g.nodeNames <= s.Keys && forall n :: n in s ==> IsReal(g, n)
    ensures RunCalls(g, exec, SignaturesOf(g, parts, skip), parts, s).Some? <==> CleanRenaming(g, parts)
  {
    if CleanRenaming(g, parts) {
      PartitioningPreservesMeaning(g, exec, parts, skip, graphInputs, s);
    } else if !OutputsReal(g) {
      var n :| n in g.outputNames * g.nodeNames && !IsReal(g, n);
      UnrealIsLost(g, exec, parts, skip, s, n);
    } else {
      var p :| p in parts && !UsesReal(g, p);
      var n := UnrealIsNeeded(g, p);
      UnrealIsLost(g, exec, parts, skip, s, n);
    }
  }

  lemma {:induction false} NothingFreed(g: Graph, nodes: Partition, after: set<Name>)
    requires Acyclic(g) && forall nd :: nd in nodes ==> nd.lastUsage == {}
    ensures NodesFreeLast(g, nodes, after)
  {
    if nodes != [] { NothingFreed(g, nodes[1..], after); }
  }

  lemma {:induction false} LoneSchedule(g: Graph, p: Partition, named: set<Name>)
    requires Acyclic(g) && NodesInOrder(g, p, named) && g.outputNames <= named + Defined(p)
    requires forall nd :: nd in p ==> nd.lastUsage == {}
    ensures FreesLast(g, [p]) && InOrder(g, [p], named)
  {
    var parts := [p];
    assert parts[1..] == [];
    NothingFreed(g, p, UsedLater(g, parts[1..]));
  }

  /** The node that writes a buffer in place and gives the result a name of its own. */
  function InPlace(id: nat, buffer: Name, result: Name): Node {
    Node(id, {result}, {buffer}, {}, {})
  }

  /** A schedule that fails: c is a graph input, one node writes it in place as b, and the graph returns
      b. Everything else is as the scheduler should have it. */
  lemma {:induction false} RenamedOutputFails<V>(exec: Exec<V>, b: Name, c: Name, v: V)
    requires b != c && c != ""
    ensures var g := Graph({b}, {b, c}, map[b := Buffer(true, true)], map[b := c], {});
            var p := [InPlace(0, c, b)];
            && Acyclic(g) && FreesLast(g, [p]) && InOrder(g, [p], {c}) && UsesReal(g, p)
            && RunCalls(g, exec, SignaturesOf(g, [p], [false]), [p], map[c := v]).None?
  {
    var g := Graph({b}, {b, c}, map[b := Buffer(true, true)], map[b := c], {});
    var nd := InPlace(0, c, b);
    OneStepIsAcyclic(g);
    assert c in {c} * Allocated(g, nd.loads + nd.stores) && Overwrites(g, c, b);
    assert NodeInOrder(g, nd, {c}) && nd in [nd];
    LoneSchedule(g, [nd], {c});
    UnrealIsLost(g, exec, [[nd]], [false], map[c := v], b);
  }

  ghost function TwoStepGraph(a: Name, b: Name, c: Name): Graph {
    Graph({c}, {a, b, c}, map[a := Buffer(true, true), b := Buffer(true, true)], map[a := b, b := c], {})
  }

  lemma {:induction false} TwoStepLayouts(a: Name, b: Name, c: Name)
    requires a != b && a != c && b != c && b != "" && c != ""
    ensures var g := TwoStepGraph(a, b, c);
            Acyclic(g) && !IsNoneLayout(g, a) && !IsNoneLayout(g, b) && !IsNoneLayout(g, c)
  {
    var g := TwoStepGraph(a, b, c);
    var rank := (n: Name) => if n == a then 2 else if n == b then 1 else 0;
    assert Ranks(g, rank);
    assert !IsNoneLayout(g, c) && !IsNoneLayout(g, b);
  }

  /** Another: the write b of c is itself written in place, as a, and that is recorded as standing for
      b and not for c. The second node asks for a buffer b that nobody makes. */
  lemma {:induction false} TwoStepFails<V>(exec: Exec<V>, a: Name, b: Name, c: Name, v: V)
    requires a != b && a != c && b != c && b != "" && c != ""
    ensures var g, p := TwoStepGraph(a, b, c), [InPlace(0, c, b), InPlace(1, b, a)];
            && Acyclic(g) && FreesLast(g, [p]) && InOrder(g, [p], {c}) && OutputsReal(g)
            && RunCalls(g, exec, SignaturesOf(g, [p], [false]), [p], map[c := v]).None?
  {
    TwoStepLayouts(a, b, c);
    hide IsNoneLayout, RunCalls;
    var g, first, second := TwoStepGraph(a, b, c), InPlace(0, c, b), InPlace(1, b, a);
    var p := [first, second];
    assert c in {c} * Allocated(g, first.loads + first.stores) && Overwrites(g, c, b);
    assert b in {c, b} * Allocated(g, second.loads + second.stores) && Overwrites(g, b, a);
    assert NodeInOrder(g, first, {c}) && NodeInOrder(g, second, {c, b});
    assert p[1..] == [second] && {c} + first.outputs == {c, b};
    LoneSchedule(g, p, {c});
    assert a in Allocated(g, second.loads + second.stores + second.outputs);
    assert second in p && b in Needs(g, second);
    assert p in [p] && NeededBy(g, p, b);
    UnrealIsLost(g, exec, [p], [false], map[c := v], b);
  }

  // ---------------------------------------------------------------- what a call frees

  /** Running nodes brings in nothing but what they define. */
  lemma {:induction false} OnlyDefinedAppears<V>(g: Graph, exec: Exec<V>, nodes: Partition, s: map<Name, V>,
                                                 frees: bool)
    requires Acyclic(g) && RunNodes(g, exec, nodes, s, frees).Some?
    ensures RunNodes(g, exec, nodes, s, frees).value.Keys <= s.Keys + Defined(nodes)
  {
    if nodes != [] {
      var nd, t := nodes[0], Apply(g, exec, nodes[0], s);
      DefinedSplit(nodes);
      assert Written(g, nd) <= Touches(g, nd) <= Needs(g, nd) + nd.outputs;
      OnlyDefinedAppears(g, exec, nodes[1..], if frees then t - nd.lastUsage else t, frees);
    }
  }

  /** A buffer is gone after its last usage, and stays away while nobody uses or defines it. */
  lemma {:induction false} AwayStaysAway<V>(g: Graph, exec: Exec<V>, nodes: Partition, s: map<Name, V>, n: Name)
    requires Acyclic(g) && RunNodes(g, exec, nodes, s, true).Some? && n !in s && n !in UsedBy(g, nodes)
    ensures n !in RunNodes(g, exec, nodes, s, true).value
  {
    if nodes != [] {
      var nd := nodes[0];
      UsedSplit(g, nodes);
      assert Written(g, nd) <= Touches(g, nd);
      AwayStaysAway(g, exec, nodes[1..], Apply(g, exec, nd, s) - nd.lastUsage, n);
    }
  }

  lemma {:induction false} FreedInside<V>(g: Graph, exec: Exec<V>, nodes: Partition, after: set<Name>, s: map<Name, V>,
                                          last: Node, n: Name)
    requires Acyclic(g) && RunNodes(g, exec, nodes, s, true).Some? && NodesFreeLast(g, nodes, after)
    requires last in nodes && n in last.lastUsage
    ensures n !in RunNodes(g, exec, nodes, s, true).value
  {
    var nd, t := nodes[0], Apply(g, exec, nodes[0], s) - nodes[0].lastUsage;
    if n in nd.lastUsage {
      AwayStaysAway(g, exec, nodes[1..], t, n);
    } else {
      FreedInside(g, exec, nodes[1..], after, t, last, n);
    }
  }

  /** After the last usage: some node of the partition is the last to use the name. */
  ghost predicate LastUsedIn(p: Partition, n: Name) {
    exists nd :: nd in p && n in nd.lastUsage
  }

  /** A call frees exactly what it should: of the buffers that were there, those go whose last usage
      is inside it, and nothing with a last usage inside it is left. */
  lemma {:induction false} CallFrees<V>(g: Graph, exec: Exec<V>, p: Partition, skip: bool, live: set<Name>,
                                        after: set<Name>, named: set<Name>, s: map<Name, V>, n: Name)
    requires Acyclic(g) && NodesInOrder(g, p, named) && NodesFreeLast(g, p, after) && s.Keys <= named
    requires Call(g, exec, SignatureOf(g, p, skip, live), p, s).Some? && n in g.nodeNames
    ensures LastUsedIn(p, n) ==> n !in Call(g, exec, SignatureOf(g, p, skip, live), p, s).value
    ensures n in s && !LastUsedIn(p, n) ==> n in Call(g, exec, SignatureOf(g, p, skip, live), p, s).value
    ensures Call(g, exec, SignatureOf(g, p, skip, live), p, s).value.Keys <= named + Defined(p)
  {
    var sig := SignatureOf(g, p, skip, live);
    var s0 := Restrict(s, sig.inputs);
    OrderFacts(g, p, named);
    OnlyDefinedAppears(g, exec, p, s0, true);
    if LastUsedIn(p, n) {
      var nd :| nd in p && n in nd.lastUsage;
      FreedInside(g, exec, p, after, s0, nd, n);
      assert n in Freed(p);
    }
  }

  /** What has had its last usage does not come back. */
  lemma {:induction false} NamedOrDefined<V>(g: Graph, exec: Exec<V>, parts: seq<Partition>, skip: seq<bool>,
                                             named: set<Name>, s: map<Name, V>, n: Name)
    requires Acyclic(g) && FreesLast(g, parts) && InOrder(g, parts, named) && |skip| == |parts|
    requires RunCalls(g, exec, SignaturesOf(g, parts, skip), parts, s).Some? && s.Keys <= named
    requires n in named && n !in s && n in g.nodeNames
    ensures n !in RunCalls(g, exec, SignaturesOf(g, parts, skip), parts, s).value
  {
    if parts != [] {
      var p, rest := parts[0], parts[1..];
      var sig := SignatureOf(g, p, skip[0], Live(g, rest));
      assert SignaturesOf(g, parts, skip)[1..] == SignaturesOf(g, rest, skip[1..]);
      OrderFacts(g, p, named);
      CallFrees(g, exec, p, skip[0], Live(g, rest), UsedLater(g, rest), named, s, n);
      var s0 := Restrict(s, sig.inputs);
      OnlyDefinedAppears(g, exec, p, s0, true);
      NamedOrDefined(g, exec, rest, skip[1..], named + Defined(p), Call(g, exec, sig, p, s).value, n);
    }
  }

  /** The partitioned program keeps nothing it no longer needs: in the end no buffer is left that had
      its last usage in any partition. */
  lemma {:induction false} RunFrees<V>(g: Graph, exec: Exec<V>, parts: seq<Partition>, skip: seq<bool>,
                                       named: set<Name>, s: map<Name, V>, k: nat, n: Name)
    requires Acyclic(g) && FreesLast(g, parts) && InOrder(g, parts, named) && |skip| == |parts|
    requires RunCalls(g, exec, SignaturesOf(g, parts, skip), parts, s).Some? && s.Keys <= named
    requires k < |parts| && LastUsedIn(parts[k], n) && n in g.nodeNames
    ensures n !in RunCalls(g, exec, SignaturesOf(g, parts, skip), parts, s).value
  {
    var p, rest := parts[0], parts[1..];
    var sig := SignatureOf(g, p, skip[0], Live(g, rest));
    assert SignaturesOf(g, parts, skip)[1..] == SignaturesOf(g, rest, skip[1..]);
    var s' := Call(g, exec, sig, p, s).value;
    CallFrees(g, exec, p, skip[0], Live(g, rest), UsedLater(g, rest), named, s, n);
    if k == 0 {
      OrderFacts(g, p, named);
      var nd :| nd in p && n in nd.lastUsage;
      assert n in Freed(p);
      NamedOrDefined(g, exec, rest, skip[1..], named + Defined(p), s', n);
    } else {
      RunFrees(g, exec, rest, skip[1..], named + Defined(p), s', k - 1, n);
    }
  }

  /** The partition uses n from outside: n is the buffer behind an allocated name that one of its nodes
      reads or writes and none defines, or n has a node, is last used there and not defined there. */
  ghost predicate TakenBy(g: Graph, p: Partition, n: Name)
    requires Acyclic(g)
  {
    || (exists nd, m ::
          nd in p && m in nd.loads + nd.stores && !DefinedIn(p, m) && !IsNoneLayout(g, m) && Real(g, m) == n)
    || (n in g.nodeNames && LastUsedIn(p, n) && !DefinedIn(p, n))
  }

  ghost predicate DefinedIn(p: Partition, n: Name) {
    exists nd :: nd in p && n in nd.outputs
  }

  lemma {:induction false} TakenIsInput(g: Graph, p: Partition, n: Name)
    requires Acyclic(g)
    ensures n in Inputs(g, p) <==> TakenBy(g, p, n)
  {
    assert forall m :: m in Defined(p) <==> DefinedIn(p, m);
    assert n in Freed(p) <==> LastUsedIn(p, n);
    if n in RealSet(g, Allocated(g, Accessed(p)) - Defined(p)) {
      var m :| m in Allocated(g, Accessed(p)) - Defined(p) && Real(g, m) == n;
      var nd :| nd in p && m in nd.loads + nd.stores;
      assert !DefinedIn(p, m);
    }
    if nd, m :| nd in p && m in nd.loads + nd.stores && !DefinedIn(p, m) && !IsNoneLayout(g, m) && Real(g, m) == n {
      assert m in Allocated(g, Accessed(p)) - Defined(p);
    }
  }

  /** What the signature of each partition says, name by name: what it takes, which of that it frees,
      which constants it uses, and its own flag. */
  lemma {:induction false} SignatureSays(g: Graph, parts: seq<Partition>, skip: seq<bool>, k: nat, n: Name)
    requires Acyclic(g) && |skip| == |parts| && k < |parts|
    ensures var sig := SignaturesOf(g, parts, skip)[k];
            && sig.skipCudagraph == skip[k]
            && (n in sig.inputs <==> n in g.nodeNames && TakenBy(g, parts[k], n))
            && (n in sig.deallocation <==> n in sig.inputs)
            && (n in sig.inputs ==> (sig.deallocation[n] <==> LastUsedIn(parts[k], n)))
            && (n in sig.constantNames <==> n in g.constants && TakenBy(g, parts[k], n))
  {
    if k > 0 {
      SignatureSays(g, parts[1..], skip[1..], k - 1, n);
    } else {
      TakenIsInput(g, parts[0], n);
      assert n in Freed(parts[0]) <==> LastUsedIn(parts[0], n);
    }
  }

  // ---------------------------------------------------------------- one-step renaming

  /** Renaming takes one step: the buffer an in-place write stands for is no renamed name itself. */
  ghost predicate OneStep(g: Graph) {
    forall n :: n in g.realName ==> g.realName[n] !in g.realName
  }

  ghost predicate NoneBuffer(g: Graph, n: Name) {
    n in g.buffers && g.buffers[n].noneLayout
  }

  /** What a renamed name must look like for the alias walk to give it the layout of its buffer: if
      nothing is allocated for it, either the walk goes on to the buffer or nothing is allocated for
      the buffer either; if something is, so it is for the buffer. */
  ghost predicate LayoutKept(g: Graph, n: Name)
    requires n in g.realName
  {
    if NoneBuffer(g, n)
    then (g.buffers[n].mutationOutput && g.realName[n] != "") || NoneBuffer(g, g.realName[n])
    else !NoneBuffer(g, g.realName[n])
  }

  lemma {:induction false} OneStepIsAcyclic(g: Graph)
    requires OneStep(g)
    ensures Acyclic(g)
  {
    var rank := (n: Name) => if n in g.realName then 1 else 0;
    assert Ranks(g, rank);
  }

  /** The condition on layouts is exact: with one-step renaming the alias walk answers the same for a
      renamed name and its buffer if and only if it holds. */
  lemma {:induction false} LayoutKeptExactly(g: Graph, n: Name)
    requires OneStep(g) && Acyclic(g) && n in g.realName
    ensures LayoutKept(g, n) <==> IsNoneLayout(g, g.realName[n]) == IsNoneLayout(g, n)
  {
    assert g.realName[n] !in g.realName;
  }

  /** With one-step renaming that keeps layouts, as the scheduler does it, only the graph outputs are
      left to ask about. */
  lemma {:induction false} OneStepRunsExactly<V>(g: Graph, exec: Exec<V>, parts: seq<Partition>, skip: seq<bool>,
                                                 graphInputs: set<Name>, s: map<Name, V>)
    requires OneStep(g) && (forall n :: n in g.realName ==> LayoutKept(g, n)) && Acyclic(g)
    requires FreesLast(g, parts) && InOrder(g, parts, graphInputs)
    requires |skip| == |parts| && graphInputs !! g.realName.Keys
    requires graphInputs * g.nodeNames <= s.Keys && forall n :: n in s ==> IsReal(g, n)
    ensures RunCalls(g, exec, SignaturesOf(g, parts, skip), parts, s).Some? <==> OutputsReal(g)
  {
    RunsExactly(g, exec, parts, skip, graphInputs, s);
    forall p | p in parts ensures UsesReal(g, p) {
      OneStepUsesReal(g, p);
    }
  }

  lemma {:induction false} OneStepUsesReal(g: Graph, p: Partition)
    requires OneStep(g) && (forall n :: n in g.realName ==> LayoutKept(g, n)) && Acyclic(g)
    ensures UsesReal(g, p)
  {
    forall n | n in Allocated(g, Accessed(p)) - Defined(p) ensures IsReal(g, Real(g, n)) {
      if n in g.realName { LayoutKeptExactly(g, n); }
    }
    assert forall n :: Real(g, n) !in g.realName;
  }
}
