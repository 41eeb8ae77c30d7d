/** A directory of paths over inodes, as far as the block store uses it. Open files keep their inode
    when the path goes away, and renaming replaces the target in one step (POSIX.1-2017, System
    Interfaces, chapter 3, open, rename and unlink). */
module FileSystem {

  type Byte = b: int | 0 <= b < 256

  datatype Fs = Fs(dir: map<string, nat>, data: map<nat, seq<Byte>>)

  function Create(fs: Fs, path: string, ino: nat): Fs {
    Fs(fs.dir[path := ino], fs.data[ino := []])
  }

  function Append(fs: Fs, ino: nat, bytes: seq<Byte>): Fs
    requires ino in fs.data
  {
    fs.(data := fs.data[ino := fs.data[ino] + bytes])
  }

  function Rename(fs: Fs, from: string, to: string): Fs {
    if from in fs.dir then fs.(dir := (fs.dir - {from})[to := fs.dir[from]]) else fs
  }

  function Unlink(fs: Fs, path: string): Fs {
    fs.(dir := fs.dir - {path})
  }

  /** Every path leads to data, and no inode has two paths. */
  ghost predicate WellFormed(fs: Fs) {
    && (forall p :: p in fs.dir ==> fs.dir[p] in fs.data)
    && (forall p, q :: p in fs.dir && q in fs.dir && p != q ==> fs.dir[p] != fs.dir[q])
  }

  lemma {:induction false} FreeInode(taken: set<nat>) returns (ino: nat)
    ensures ino !in taken
  {
    var top := Bound(taken);
    ino := top;
  }

  ghost function Bound(taken: set<nat>): (top: nat)
    ensures forall x :: x in taken ==> x < top
  {
    if taken == {} then 0
    else
      var x :| x in taken;
      assert forall y :: y in taken ==> y == x || y in taken - {x};
      var rest := Bound(taken - {x});
      if x < rest then rest else x + 1
  }
}

/** Many storers and loaders of blocks at once, one system call (or part of one) at a time. */
module BlockProtocol {
  import opened FileSystem

  datatype StoreState =
    | Begin
    | Creating
    | Writing(ino: nat, n: nat)
    | Closing(ino: nat)
    | Renaming(ino: nat)
    | Cleaning(ino: nat)
    | Stored(ok: bool)

  datatype LoadState =
    | Opening
    | Reading(ino: nat, got: seq<Byte>)
    | Finishing(ino: nat, got: seq<Byte>)
    | Removing
    | Loaded(ok: bool, got: seq<Byte>)

  datatype Agent =
    | Storer(tmp: string, dest: string, src: seq<Byte>, store: StoreState)
    | Loader(source: string, size: nat, load: LoadState)

  /** What the world decides at a step: whether the call succeeds, the inode it hands out, how much
      it moves. */
  datatype Choice = Choice(ok: bool, ino: nat, count: nat)

  function Min(x: nat, y: nat): nat {
    if x <= y then x else y
  }

  /** One step of a storer. A write moves some bytes, ends when all are written, or fails short. */
  function StepStorer(fs: Fs, a: Agent, c: Choice): (Fs, Agent)
    requires a.Storer?
  {
    match a.store
    case Begin =>
      (fs, a.(store := if a.dest in fs.dir then Stored(true) else Creating))
    case Creating =>
      if c.ok && a.tmp !in fs.dir && c.ino !in fs.data
      then (Create(fs, a.tmp, c.ino), a.(store := Writing(c.ino, 0)))
      else (fs, a.(store := Stored(false)))
    case Writing(ino, n) =>
      if !c.ok || ino !in fs.data || n > |a.src| then (fs, a.(store := Cleaning(ino)))
      else if n == |a.src| then (fs, a.(store := Closing(ino)))
      else
        var m := Min(n + c.count, |a.src|);
        (Append(fs, ino, a.src[n..m]), a.(store := Writing(ino, m)))
    case Closing(ino) =>
      (fs, a.(store := if c.ok then Renaming(ino) else Cleaning(ino)))
    case Renaming(ino) =>
      if c.ok then (Rename(fs, a.tmp, a.dest), a.(store := Stored(true)))
      else (fs, a.(store := Cleaning(ino)))
    case Cleaning(_) =>
      (if c.ok then Unlink(fs, a.tmp) else fs, a.(store := Stored(false)))
    case Stored(_) => (fs, a)
  }

  /** One step of a loader. A read moves some bytes, up to the end of the file or of the buffer. */
  function StepLoader(fs: Fs, a: Agent, c: Choice): (Fs, Agent)
    requires a.Loader?
  {
    match a.load
    case Opening =>
      (fs, a.(load := if c.ok && a.source in fs.dir then Reading(fs.dir[a.source], []) else Removing))
    case Reading(ino, got) =>
      if !c.ok || ino !in fs.data || |got| > |fs.data[ino]| then (fs, a.(load := Removing))
      else if |got| == a.size then (fs, a.(load := Finishing(ino, got)))
      else if |got| == |fs.data[ino]| then (fs, a.(load := Removing))
      else
        var m := Min(|got| + c.count, Min(a.size, |fs.data[ino]|));
        (fs, a.(load := if m < |got| then Removing else Reading(ino, got + fs.data[ino][|got|..m])))
    case Finishing(_, got) =>
      (fs, a.(load := if c.ok then Loaded(true, got) else Removing))
    case Removing =>
      (if c.ok then Unlink(fs, a.source) else fs, a.(load := Loaded(false, [])))
    case Loaded(_, _) => (fs, a)
  }

  function StepAgent(fs: Fs, a: Agent, c: Choice): (Fs, Agent) {
    if a.Storer? then StepStorer(fs, a, c) else StepLoader(fs, a, c)
  }

  datatype System = System(fs: Fs, agents: seq<Agent>)

  function Step(s: System, i: nat, c: Choice): System {
    if i < |s.agents| then
      var next := StepAgent(s.fs, s.agents[i], c);
      System(next.0, s.agents[i := next.1])
    else s
  }

  function Run(s: System, schedule: seq<(nat, Choice)>): System
    decreases |schedule|
  {
    if schedule == [] then s
    else Run(Step(s, schedule[0].0, schedule[0].1), schedule[1..])
  }

  // ---------------------------------------------------------------- the invariant

  /** Whole blocks: which content may stand under which path. */
  type Book = set<(string, seq<Byte>)>

  /** The agent has the temp file with this inode open for writing, or still has to publish or remove it. */
  ghost predicate Owns(a: Agent, ino: nat) {
    a.Storer? && match a.store
                 case Writing(k, _) => k == ino
                 case Closing(k) => k == ino
                 case Renaming(k) => k == ino
                 case Cleaning(k) => k == ino
                 case _ => false
  }

  ghost predicate Reads(a: Agent, ino: nat) {
    a.Loader? && match a.load
                 case Reading(k, _) => k == ino
                 case Finishing(k, _) => k == ino
                 case _ => false
  }

  /** The first `size` bytes of a whole block of that path. */
  ghost predicate PrefixOfWhole(book: Book, path: string, got: seq<Byte>, bytes: seq<Byte>) {
    (path, bytes) in book && |got| <= |bytes| && got == bytes[..|got|]
  }

  ghost predicate StorerOk(fs: Fs, book: Book, temps: set<string>, a: Agent)
    requires a.Storer?
  {
    && a.tmp in temps && a.dest !in temps && (a.dest, a.src) in book
    && match a.store
       case Writing(ino, n) => Holds(fs, a.tmp, ino) && n <= |a.src| && fs.data[ino] == a.src[..n]
       case Closing(ino) => Holds(fs, a.tmp, ino) && fs.data[ino] == a.src
       case Renaming(ino) => Holds(fs, a.tmp, ino) && fs.data[ino] == a.src
       case Cleaning(ino) => Holds(fs, a.tmp, ino)
       case _ => true
  }

  ghost predicate Holds(fs: Fs, path: string, ino: nat) {
    path in fs.dir && fs.dir[path] == ino && ino in fs.data
  }

  ghost predicate LoaderOk(fs: Fs, book: Book, temps: set<string>, a: Agent)
    requires a.Loader?
  {
    && a.source !in temps
    && match a.load
       case Reading(ino, got) => ino in fs.data && PrefixOfWhole(book, a.source, got, fs.data[ino]) && |got| <= a.size
       case Finishing(ino, got) => ino in fs.data && PrefixOfWhole(book, a.source, got, fs.data[ino]) && |got| == a.size
       case Loaded(ok, got) => ok ==> |got| == a.size && exists bytes :: PrefixOfWhole(book, a.source, got, bytes)
       case _ => true
  }

  ghost predicate AgentOk(fs: Fs, book: Book, temps: set<string>, a: Agent) {
    if a.Storer? then StorerOk(fs, book, temps, a) else LoaderOk(fs, book, temps, a)
  }

  /** Whoever owns an inode is alone with it. */
  ghost predicate Apart(a: Agent, b: Agent) {
    forall ino :: Owns(a, ino) ==> !Owns(b, ino) && !Reads(b, ino)
  }

  /** Every file that is not a temp file is a whole block. */
  ghost predicate Published(fs: Fs, book: Book, temps: set<string>) {
    forall p :: p in fs.dir && p !in temps && fs.dir[p] in fs.data ==> (p, fs.data[fs.dir[p]]) in book
  }

  ghost predicate Inv(s: System, book: Book, temps: set<string>) {
    && WellFormed(s.fs) && Published(s.fs, book, temps)
    && (forall i :: 0 <= i < |s.agents| ==> AgentOk(s.fs, book, temps, s.agents[i]))
    && (forall i, j :: 0 <= i < |s.agents| && 0 <= j < |s.agents| && i != j ==> Apart(s.agents[i], s.agents[j]))
  }

  // ---------------------------------------------------------------- what a step of one agent does

  /** What a step may do to the files, seen by everybody else. */
  ghost predicate Harmless(fs: Fs, fs': Fs, a: Agent, temps: set<string>) {
    && fs.data.Keys <= fs'.data.Keys
    && (forall ino :: ino in fs.data && fs'.data[ino] != fs.data[ino] ==> Owns(a, ino))
    && (forall p :: p in temps && p in fs.dir && !(p in fs'.dir && fs'.dir[p] == fs.dir[p]) ==> Owns(a, fs.dir[p]))
  }

  /** The inode an agent has after the step is the one it had, a new one, or one it just opened. */
  ghost predicate SameInode(fs: Fs, a: Agent, a': Agent, temps: set<string>) {
    && (forall ino :: Owns(a', ino) ==> Owns(a, ino) || ino !in fs.data)
    && (forall ino :: Reads(a', ino) ==> Reads(a, ino) || exists p :: p in fs.dir && p !in temps && fs.dir[p] == ino)
  }

  lemma {:induction false} StorerStep(fs: Fs, book: Book, temps: set<string>, a: Agent, c: Choice)
    requires a.Storer? && WellFormed(fs) && Published(fs, book, temps) && StorerOk(fs, book, temps, a)
    ensures var next := StepStorer(fs, a, c);
            && next.1.Storer? && WellFormed(next.0) && StorerOk(next.0, book, temps, next.1)
            && Harmless(fs, next.0, a, temps) && SameInode(fs, a, next.1, temps)
  {
    match a.store
    case Writing(ino, n) =>
      var m := Min(n + c.count, |a.src|);
      assert a.src[..n] + a.src[n..m] == a.src[..m];
      assert a.src[..|a.src|] == a.src;
    case _ =>
  }

  lemma {:induction false} StorerPublishes(fs: Fs, book: Book, temps: set<string>, a: Agent, c: Choice)
    requires a.Storer? && WellFormed(fs) && Published(fs, book, temps) && StorerOk(fs, book, temps, a)
    ensures Published(StepStorer(fs, a, c).0, book, temps)
  {
  }

  lemma {:induction false} LoaderStep(fs: Fs, book: Book, temps: set<string>, a: Agent, c: Choice)
    requires a.Loader? && WellFormed(fs) && Published(fs, book, temps) && LoaderOk(fs, book, temps, a)
    ensures var next := StepLoader(fs, a, c);
            && next.1.Loader? && WellFormed(next.0) && Published(next.0, book, temps) &&
                LoaderOk(next.0, book, temps, next.1)
            && Harmless(fs, next.0, a, temps) && SameInode(fs, a, next.1, temps)
  {
  }

  /** An agent that does not step is not disturbed. */
  lemma {:induction false} OthersUndisturbed(fs: Fs, fs': Fs, book: Book, temps: set<string>, a: Agent, b: Agent)
    requires AgentOk(fs, book, temps, b) && Apart(a, b) && Harmless(fs, fs', a, temps)
    ensures AgentOk(fs', book, temps, b)
  {
  }

  lemma {:induction false} StaysApart(fs: Fs, book: Book, temps: set<string>, a: Agent, a': Agent, b: Agent)
    requires WellFormed(fs) && AgentOk(fs, book, temps, b) && Apart(a, b) && Apart(b, a) && SameInode(fs, a, a', temps)
    ensures Apart(a', b) && Apart(b, a')
  {
  }

  lemma {:induction false} StepInv(s: System, i: nat, c: Choice, book: Book, temps: set<string>)
    requires Inv(s, book, temps)
    ensures Inv(Step(s, i, c), book, temps)
  {
    hide StepStorer, StepLoader, Harmless, SameInode, Apart, StorerOk, LoaderOk, Published;
    if i < |s.agents| {
      var a := s.agents[i];
      var next := StepAgent(s.fs, a, c);
      if a.Storer? {
        StorerStep(s.fs, book, temps, a, c);
        StorerPublishes(s.fs, book, temps, a, c);
      } else {
        LoaderStep(s.fs, book, temps, a, c);
      }
      var agents' := s.agents[i := next.1];
      forall j | 0 <= j < |agents'| && j != i
        ensures AgentOk(next.0, book, temps, agents'[j]) && Apart(next.1, agents'[j]) && Apart(agents'[j], next.1)
      {
        OthersUndisturbed(s.fs, next.0, book, temps, a, s.agents[j]);
        StaysApart(s.fs, book, temps, a, next.1, s.agents[j]);
      }
    }
  }

  lemma {:induction false} RunInv(s: System, schedule: seq<(nat, Choice)>, book: Book, temps: set<string>)
    requires Inv(s, book, temps)
    ensures Inv(Run(s, schedule), book, temps)
    decreases |schedule|
  {
    if schedule != [] {
      StepInv(s, schedule[0].0, schedule[0].1, book, temps);
      RunInv(Step(s, schedule[0].0, schedule[0].1), schedule[1..], book, temps);
    }
  }

  // ---------------------------------------------------------------- whole runs

  ghost predicate Fresh(a: Agent) {
    if a.Storer? then a.store.Begin? else a.load.Opening?
  }

  /** Nobody has started; temp names are not destination or source names. Files of earlier runs may
      already be there. */
  ghost predicate Initial(s: System, temps: set<string>) {
    && WellFormed(s.fs)
    && forall i :: 0 <= i < |s.agents| ==>
         && Fresh(s.agents[i])
         && (s.agents[i].Storer? ==> s.agents[i].tmp in temps && s.agents[i].dest !in temps)
         && (s.agents[i].Loader? ==> s.agents[i].source !in temps)
  }

  /** The whole blocks of a run: what stood under a path at the start, and what some storer was
      given for it. */
  ghost predicate Whole(s: System, path: string, bytes: seq<Byte>) {
    || (path in s.fs.dir && s.fs.dir[path] in s.fs.data && s.fs.data[s.fs.dir[path]] == bytes)
    || (exists i :: 0 <= i < |s.agents| && GivenTo(s.agents[i], path, bytes))
  }

  ghost predicate GivenTo(a: Agent, path: string, bytes: seq<Byte>) {
    a.Storer? && a.dest == path && a.src == bytes
  }

  ghost function BookOf(s: System): Book
    requires WellFormed(s.fs)
  {
    (set p | p in s.fs.dir :: (p, s.fs.data[s.fs.dir[p]])) +
    (set i | 0 <= i < |s.agents| && s.agents[i].Storer? :: (s.agents[i].dest, s.agents[i].src))
  }

  lemma {:induction false} BookIsWhole(s: System, path: string, bytes: seq<Byte>)
    requires WellFormed(s.fs)
    ensures (path, bytes) in BookOf(s) <==> Whole(s, path, bytes)
  {
    if (path, bytes) in BookOf(s) {
      if i :| 0 <= i < |s.agents| && s.agents[i].Storer? && (s.agents[i].dest, s.agents[i].src) == (path, bytes) {
        assert GivenTo(s.agents[i], path, bytes);
      }
    }
    if Whole(s, path, bytes) {
      if i :| 0 <= i < |s.agents| && GivenTo(s.agents[i], path, bytes) {
        assert (s.agents[i].dest, s.agents[i].src) in BookOf(s);
      }
    }
  }

  lemma {:induction false} InitialInv(s: System, temps: set<string>)
    requires Initial(s, temps)
    ensures Inv(s, BookOf(s), temps)
  {
    forall i | 0 <= i < |s.agents| ensures AgentOk(s.fs, BookOf(s), temps, s.agents[i]) {
      var a := s.agents[i];
      if a.Storer? {
        assert GivenTo(a, a.dest, a.src);
        BookIsWhole(s, a.dest, a.src);
      }
    }
    forall p | p in s.fs.dir ensures (p, s.fs.data[s.fs.dir[p]]) in BookOf(s) {
      BookIsWhole(s, p, s.fs.data[s.fs.dir[p]]);
    }
  }

  /** Published blocks are always whole: however storers and loaders interleave, stop or fail, every
      file that is not a temp file holds its first content or the complete buffer of a storer for
      that path. */
  lemma {:induction false} PublishedAreWhole(s: System, temps: set<string>, schedule: seq<(nat, Choice)>, path: string)
    requires Initial(s, temps)
    requires path !in temps && path in Run(s, schedule).fs.dir
    ensures var fs := Run(s, schedule).fs; fs.dir[path] in fs.data && Whole(s, path, fs.data[fs.dir[path]])
  {
    InitialInv(s, temps);
    RunInv(s, schedule, BookOf(s), temps);
    var fs := Run(s, schedule).fs;
    BookIsWhole(s, path, fs.data[fs.dir[path]]);
  }

  /** A load that reports success has filled its whole buffer with the beginning of one whole block,
      even when the path was replaced or removed under it. */
  lemma {:induction false} LoadsAreWhole(s: System, temps: set<string>, schedule: seq<(nat, Choice)>, i: nat)
    requires Initial(s, temps) && i < |Run(s, schedule).agents|
    requires var a := Run(s, schedule).agents[i]; a.Loader? && a.load.Loaded? && a.load.ok
    ensures var a := Run(s, schedule).agents[i];
            |a.load.got| == a.size && exists bytes :: Whole(s, a.source, bytes) && a.load.got <= bytes
  {
    InitialInv(s, temps);
    RunInv(s, schedule, BookOf(s), temps);
    var a := Run(s, schedule).agents[i];
    assert AgentOk(Run(s, schedule).fs, BookOf(s), temps, a);
    var bytes :| PrefixOfWhole(BookOf(s), a.source, a.load.got, bytes);
    BookIsWhole(s, a.source, bytes);
  }

  /** Exclusive creation: whoever is about to rename or remove its temp file finds its own inode
      there, and nobody else owns that inode or that path. */
  lemma {:induction false} TempHasOneOwner(s: System, temps: set<string>, schedule: seq<(nat, Choice)>, i: nat,
                                           ino: nat)
    requires Initial(s, temps) && i < |Run(s, schedule).agents| && Owns(Run(s, schedule).agents[i], ino)
    ensures var now := Run(s, schedule);
            && Holds(now.fs, now.agents[i].tmp, ino)
            && (forall j, k :: 0 <= j < |now.agents| && j != i && Owns(now.agents[j], k) ==>
                  k != ino && now.agents[j].tmp != now.agents[i].tmp)
  {
    InitialInv(s, temps);
    RunInv(s, schedule, BookOf(s), temps);
    var now := Run(s, schedule);
    assert AgentOk(now.fs, BookOf(s), temps, now.agents[i]);
    forall j, k | 0 <= j < |now.agents| && j != i && Owns(now.agents[j], k)
      ensures k != ino && now.agents[j].tmp != now.agents[i].tmp
    {
      assert AgentOk(now.fs, BookOf(s), temps, now.agents[j]);
      assert Apart(now.agents[i], now.agents[j]);
    }
  }

  /** A published file goes away in exactly one way: a loader that gave up on that path removes it. */
  lemma {:induction false} LostOnlyToLoaders(s: System, temps: set<string>, schedule: seq<(nat, Choice)>, i: nat,
                                             c: Choice, path: string)
    requires Initial(s, temps) && path !in temps && path in Run(s, schedule).fs.dir
    ensures var now := Run(s, schedule);
            path !in Step(now, i, c).fs.dir <==>
            i < |now.agents| && now.agents[i].Loader? && now.agents[i].load.Removing? &&
                now.agents[i].source == path && c.ok
  {
    InitialInv(s, temps);
    RunInv(s, schedule, BookOf(s), temps);
    var now := Run(s, schedule);
    if i < |now.agents| {
      assert AgentOk(now.fs, BookOf(s), temps, now.agents[i]);
    }
  }

  // ---------------------------------------------------------------- failures are reported

  /** The agent is in the middle of its system calls. */
  ghost predicate Underway(a: Agent) {
    if a.Storer?
    then a.store.Creating? || a.store.Writing? || a.store.Closing? || a.store.Renaming?
    else a.load.Opening? || a.load.Reading? || a.load.Finishing?
  }

  /** The agent has failed, or is about to say so. */
  ghost predicate Fails(a: Agent) {
    if a.Storer? then a.store.Cleaning? || a.store == Stored(false)
    else a.load.Removing? || (a.load.Loaded? && !a.load.ok)
  }

  lemma {:induction false} FailsForGood(s: System, i: nat, schedule: seq<(nat, Choice)>)
    requires i < |s.agents| && Fails(s.agents[i])
    ensures i < |Run(s, schedule).agents| && Fails(Run(s, schedule).agents[i])
    decreases |schedule|
  {
    if schedule != [] { FailsForGood(Step(s, schedule[0].0, schedule[0].1), i, schedule[1..]); }
  }

  /** One failing system call, at whatever point of whatever interleaving, and the agent never reports
      success. */
  lemma {:induction false} FailureIsReported(s: System, i: nat, c: Choice, first: seq<(nat, Choice)>,
                                             second: seq<(nat, Choice)>)
    requires i < |Run(s, first).agents| && Underway(Run(s, first).agents[i]) && !c.ok
    ensures var now := Run(s, first + [(i, c)] + second); i < |now.agents| && Fails(now.agents[i])
  {
    var s1 := Run(s, first);
    RunAppends(s, first + [(i, c)], second);
    RunAppends(s, first, [(i, c)]);
    assert [(i, c)][1..] == [];
    assert Run(s1, [(i, c)]) == Run(Step(s1, i, c), []) == Step(s1, i, c);
    FailsForGood(Step(s1, i, c), i, second);
  }

  // ---------------------------------------------------------------- when a stored block stays

  ghost predicate SameJob(a: Agent, b: Agent) {
    if a.Storer? then b.Storer? && a.tmp == b.tmp && a.dest == b.dest && a.src == b.src
    else b.Loader? && a.source == b.source && a.size == b.size
  }

  lemma {:induction false} RunKeepsJobs(s: System, schedule: seq<(nat, Choice)>, i: nat)
    requires i < |s.agents|
    ensures |Run(s, schedule).agents| == |s.agents| && SameJob(s.agents[i], Run(s, schedule).agents[i])
    decreases |schedule|
  {
    if schedule != [] {
      var s' := Step(s, schedule[0].0, schedule[0].1);
      assert SameJob(s.agents[i], s'.agents[i]);
      RunKeepsJobs(s', schedule[1..], i);
    }
  }

  lemma {:induction false} RunAppends(s: System, first: seq<(nat, Choice)>, second: seq<(nat, Choice)>)
    ensures Run(s, first + second) == Run(Run(s, first), second)
    decreases |first|
  {
    if first == [] {
      assert first + second == second;
    } else {
      assert (first + second)[0] == first[0] && (first + second)[1..] == first[1..] + second;
      RunAppends(Step(s, first[0].0, first[0].1), first[1..], second);
    }
  }

  ghost predicate NobodyLoads(s: System, path: string) {
    forall i :: 0 <= i < |s.agents| && s.agents[i].Loader? ==> s.agents[i].source != path
  }

  /** A file that nobody loads is never lost, and a storer that reports success has left its file. */
  ghost predicate Kept(s: System, path: string, present: bool) {
    && NobodyLoads(s, path) && (present ==> path in s.fs.dir)
    && forall i :: 0 <= i < |s.agents| && HasStored(s.agents[i], path) ==> path in s.fs.dir
  }

  ghost predicate HasStored(a: Agent, path: string) {
    a.Storer? && a.dest == path && a.store == Stored(true)
  }

  lemma {:induction false} KeptStep(s: System, book: Book, temps: set<string>, path: string, present: bool,
                                    i: nat, c: Choice)
    requires Inv(s, book, temps) && path !in temps && Kept(s, path, present)
    ensures Kept(Step(s, i, c), path, present)
  {
    hide StepLoader, Published, Apart, WellFormed;
    if i < |s.agents| {
      var a := s.agents[i];
      assert AgentOk(s.fs, book, temps, a);
      var next := StepAgent(s.fs, a, c);
      assert SameJob(a, next.1) by { AgentKeepsJob(s.fs, a, c); }
      if path in s.fs.dir { StepKeepsPath(s.fs, book, temps, a, c, path); }
      if a.Storer? && a.dest == path { StoredIsThere(s.fs, book, temps, a, c); }
    }
  }

  lemma {:induction false} AgentKeepsJob(fs: Fs, a: Agent, c: Choice)
    ensures SameJob(a, StepAgent(fs, a, c).1)
  {
  }

  lemma {:induction false} StepKeepsPath(fs: Fs, book: Book, temps: set<string>, a: Agent, c: Choice, path: string)
    requires AgentOk(fs, book, temps, a) && path !in temps && path in fs.dir && (a.Loader? ==> a.source != path)
    ensures path in StepAgent(fs, a, c).0.dir
  {
  }

  lemma {:induction false} StoredIsThere(fs: Fs, book: Book, temps: set<string>, a: Agent, c: Choice)
    requires a.Storer? && AgentOk(fs, book, temps, a) && (a.store == Stored(true) ==> a.dest in fs.dir)
    ensures StepAgent(fs, a, c).1.store == Stored(true) ==> a.dest in StepAgent(fs, a, c).0.dir
  {
  }

  lemma {:induction false} KeptRun(s: System, book: Book, temps: set<string>, path: string, present: bool,
                                   schedule: seq<(nat, Choice)>)
    requires Inv(s, book, temps) && path !in temps && Kept(s, path, present)
    ensures Kept(Run(s, schedule), path, present)
    decreases |schedule|
  {
    hide Inv, Kept, Step;
    if schedule != [] {
      StepInv(s, schedule[0].0, schedule[0].1, book, temps);
      KeptStep(s, book, temps, path, present, schedule[0].0, schedule[0].1);
      KeptRun(Step(s, schedule[0].0, schedule[0].1), book, temps, path, present, schedule[1..]);
    }
  }

  /** A path that nobody loads, once there, stays there under every schedule. */
  lemma {:induction false} UnloadedStays(s: System, temps: set<string>, path: string, first: seq<(nat, Choice)>,
                                         second: seq<(nat, Choice)>)
    requires Initial(s, temps) && path !in temps && NobodyLoads(s, path) && path in Run(s, first).fs.dir
    ensures path in Run(s, first + second).fs.dir
  {
    InitialInv(s, temps);
    RunInv(s, first, BookOf(s), temps);
    KeptRun(s, BookOf(s), temps, path, false, first);
    KeptRun(Run(s, first), BookOf(s), temps, path, true, second);
    RunAppends(s, first, second);
  }

  /** The same agent n times with the same choice. */
  ghost function Again(i: nat, c: Choice, n: nat): seq<(nat, Choice)> {
    if n == 0 then [] else [(i, c)] + Again(i, c, n - 1)
  }

  ghost function Iterate(fs: Fs, a: Agent, c: Choice, n: nat): (Fs, Agent)
    decreases n
  {
    if n == 0 then (fs, a) else var next := StepAgent(fs, a, c); Iterate(next.0, next.1, c, n - 1)
  }

  /** An agent that steps alone changes the files and itself. */
  lemma {:induction false} AloneRuns(s: System, i: nat, c: Choice, n: nat)
    requires i < |s.agents|
    ensures Run(s, Again(i, c, n)) ==
            var end := Iterate(s.fs, s.agents[i], c, n); System(end.0, s.agents[i := end.1])
    decreases n
  {
    hide StepAgent;
    if n > 0 {
      var next := StepAgent(s.fs, s.agents[i], c);
      var s' := System(next.0, s.agents[i := next.1]);
      assert Again(i, c, n)[1..] == Again(i, c, n - 1);
      AloneRuns(s', i, c, n - 1);
      var end := Iterate(next.0, next.1, c, n - 1);
      assert s.agents[i := next.1][i := end.1] == s.agents[i := end.1];
    } else {
      assert s.agents[i := s.agents[i]] == s.agents;
    }
  }

  /** A storer with a free temp name that meets no failure is done in six steps. */
  lemma {:induction false} StoreSucceeds(fs: Fs, a: Agent, c: Choice)
    requires a.Storer? && a.store.Begin? && a.dest !in fs.dir && a.tmp !in fs.dir
    requires c.ok && c.ino !in fs.data && c.count >= |a.src|
    ensures Iterate(fs, a, c, 6).1 == a.(store := Stored(true)) && a.dest in Iterate(fs, a, c, 6).0.dir
  {
    var fs2 := Create(fs, a.tmp, c.ino);
    var a2 := a.(store := Writing(c.ino, 0));
    assert Iterate(fs, a, c, 6) == Iterate(fs, a.(store := Creating), c, 5) == Iterate(fs2, a2, c, 4);
    if a.src == [] {
      assert StepAgent(fs2, a2, c) == (fs2, a.(store := Closing(c.ino)));
      Publishes(fs2, a.(store := Closing(c.ino)), c, 3);
    } else {
      var fs3 := Append(fs2, c.ino, a.src[0..|a.src|]);
      assert StepAgent(fs2, a2, c) == (fs3, a.(store := Writing(c.ino, |a.src|)));
      assert StepAgent(fs3, a.(store := Writing(c.ino, |a.src|)), c) == (fs3, a.(store := Closing(c.ino)));
      assert Iterate(fs2, a2, c, 4) == Iterate(fs3, a.(store := Writing(c.ino, |a.src|)), c, 3);
      Publishes(fs3, a.(store := Closing(c.ino)), c, 2);
    }
  }

  lemma {:induction false} Publishes(fs: Fs, a: Agent, c: Choice, n: nat)
    requires a.Storer? && a.store.Closing? && a.tmp in fs.dir && c.ok && n >= 2
    ensures Iterate(fs, a, c, n).1 == a.(store := Stored(true)) && a.dest in Iterate(fs, a, c, n).0.dir
  {
    var fs', a' := Rename(fs, a.tmp, a.dest), a.(store := Stored(true));
    assert Iterate(fs, a, c, n) == Iterate(fs, a.(store := Renaming(a.store.ino)), c, n - 1);
    assert Iterate(fs, a.(store := Renaming(a.store.ino)), c, n - 1) == Iterate(fs', a', c, n - 2);
    StaysStored(fs', a', c, n - 2);
  }

  /** A loader of a file that is long enough and that meets no failure is done in four steps, has the
      beginning of the file, and leaves everything as it is. */
  lemma {:induction false} LoadSucceeds(fs: Fs, a: Agent, c: Choice)
    requires a.Loader? && a.load.Opening? && a.source in fs.dir && fs.dir[a.source] in fs.data
    requires a.size <= |fs.data[fs.dir[a.source]]| && c.ok && c.count >= a.size
    ensures Iterate(fs, a, c, 4) == (fs, a.(load := Loaded(true, fs.data[fs.dir[a.source]][..a.size])))
  {
    var ino := fs.dir[a.source];
    var got := fs.data[ino][..a.size];
    var a1, a3, a4 := a.(load := Reading(ino, [])), a.(load := Finishing(ino, got)), a.(load := Loaded(true, got));
    assert StepAgent(fs, a, c) == (fs, a1) && StepAgent(fs, a3, c) == (fs, a4) && StepAgent(fs, a4, c) == (fs, a4);
    if a.size == 0 {
      assert StepAgent(fs, a1, c) == (fs, a3);
      assert Iterate(fs, a, c, 4) == Iterate(fs, a1, c, 3) == Iterate(fs, a3, c, 2) == Iterate(fs, a4, c, 1);
    } else {
      var a2 := a.(load := Reading(ino, got));
      assert [] + fs.data[ino][0..a.size] == got;
      assert StepAgent(fs, a1, c) == (fs, a2) && StepAgent(fs, a2, c) == (fs, a3);
      assert Iterate(fs, a, c, 4) == Iterate(fs, a1, c, 3) == Iterate(fs, a2, c, 2) == Iterate(fs, a3, c, 1);
    }
    assert Iterate(fs, a4, c, 0) == (fs, a4);
  }

  lemma {:induction false} StaysStored(fs: Fs, a: Agent, c: Choice, n: nat)
    requires a.Storer? && a.store.Stored?
    ensures Iterate(fs, a, c, n) == (fs, a)
  {
    if n > 0 { StaysStored(fs, a, c, n - 1); }
  }

  /** A loader of an absent path can look first and remove the block once storer k has published it;
      storer i of the same block, k itself or another, has reported success by then. */
  lemma {:induction false} LoaderUndoesStore(s: System, temps: set<string>, i: nat, k: nat, j: nat)
    returns (schedule: seq<(nat, Choice)>)
    requires Initial(s, temps) && i < |s.agents| && k < |s.agents| && j < |s.agents|
    requires s.agents[i].Storer? && s.agents[k].Storer? && s.agents[j].Loader?
    requires s.agents[i].dest == s.agents[k].dest == s.agents[j].source
    requires s.agents[i].dest !in s.fs.dir && s.agents[k].tmp !in s.fs.dir
    ensures StoredAfter(s, schedule, i) && s.agents[i].dest !in Run(s, schedule).fs.dir
  {
    var ino := FreeInode(s.fs.data.Keys);
    var c := Choice(true, ino, |s.agents[k].src|);
    var gone := s.agents[j].(load := Removing);
    var s1 := System(s.fs, s.agents[j := gone]);
    AloneRuns(s, j, c, 1);
    assert Iterate(s.fs, s.agents[j], c, 1) == Iterate(s.fs, gone, c, 0);
    AloneRuns(s1, k, c, 6);
    StoreSucceeds(s.fs, s.agents[k], c);
    var s2 := Run(s1, Again(k, c, 6));
    var last := LookThenRemove(s2, i, j, c);
    schedule := Again(j, c, 1) + Again(k, c, 6) + last;
    RunAppends(s, Again(j, c, 1) + Again(k, c, 6), last);
    RunAppends(s, Again(j, c, 1), Again(k, c, 6));
  }

  /** With the block there, a storer that starts or is done with it reports success; then a loader that
      gave up removes it. */
  lemma {:induction false} LookThenRemove(s: System, i: nat, j: nat, c: Choice) returns (schedule: seq<(nat, Choice)>)
    requires i < |s.agents| && j < |s.agents| && c.ok && s.agents[i].Storer? && s.agents[j].Loader?
    requires s.agents[i].store.Begin? || s.agents[i].store == Stored(true)
    requires s.agents[j].load.Removing? && s.agents[i].dest == s.agents[j].source && s.agents[i].dest in s.fs.dir
    ensures StoredAfter(s, schedule, i) && s.agents[i].dest !in Run(s, schedule).fs.dir
  {
    var done, gone := s.agents[i].(store := Stored(true)), s.agents[j].(load := Loaded(false, []));
    var s1 := System(s.fs, s.agents[i := done]);
    AloneRuns(s, i, c, 1);
    assert Iterate(s.fs, s.agents[i], c, 1) == Iterate(s.fs, done, c, 0);
    AloneRuns(s1, j, c, 1);
    assert Iterate(s.fs, s.agents[j], c, 1) == Iterate(Unlink(s.fs, s.agents[j].source), gone, c, 0);
    schedule := Again(i, c, 1) + Again(j, c, 1);
    RunAppends(s, Again(i, c, 1), Again(j, c, 1));
  }

  /** A block that is there from the start can be lost as well: its loader fails and removes it. */
  lemma {:induction false} LoaderRemovesPresent(s: System, temps: set<string>, i: nat, j: nat)
    returns (schedule: seq<(nat, Choice)>)
    requires Initial(s, temps) && i < |s.agents| && j < |s.agents| && s.agents[i].Storer? && s.agents[j].Loader?
    requires s.agents[i].dest == s.agents[j].source && s.agents[i].dest in s.fs.dir
    ensures StoredAfter(s, schedule, i) && s.agents[i].dest !in Run(s, schedule).fs.dir
  {
    var fails := Choice(false, 0, 0);
    var gone := s.agents[j].(load := Removing);
    AloneRuns(s, j, fails, 1);
    assert Iterate(s.fs, s.agents[j], fails, 1) == Iterate(s.fs, gone, fails, 0);
    var last := LookThenRemove(Run(s, Again(j, fails, 1)), i, j, Choice(true, 0, 0));
    schedule := Again(j, fails, 1) + last;
    RunAppends(s, Again(j, fails, 1), last);
  }

  /** A storer of this path whose temp name is taken by a file of nobody's gets nowhere. */
  ghost predicate Stuck(s: System, i: int)
    requires 0 <= i < |s.agents| && s.agents[i].Storer?
  {
    var a := s.agents[i];
    && a.tmp in s.fs.dir && (a.store.Begin? || a.store.Creating? || a.store == Stored(false))
    && forall j :: 0 <= j < |s.agents| ==> !Owns(s.agents[j], s.fs.dir[a.tmp])
  }

  ghost predicate Blocked(s: System, path: string) {
    path !in s.fs.dir && forall i :: 0 <= i < |s.agents| && StoresTo(s.agents[i], path) ==> Stuck(s, i)
  }

  ghost predicate StoresTo(a: Agent, path: string) {
    a.Storer? && a.dest == path
  }

  lemma {:induction false} BlockedStep(s: System, book: Book, temps: set<string>, path: string, x: nat, c: Choice)
    requires Inv(s, book, temps) && path !in temps && Blocked(s, path) && x < |s.agents|
    ensures Blocked(Step(s, x, c), path)
  {
    var a, s' := s.agents[x], Step(s, x, c);
    assert AgentOk(s.fs, book, temps, a);
    if StoresTo(a, path) { assert Stuck(s, x); }
    NeverAppears(s.fs, book, temps, a, c, path);
    if a.Storer? { StorerStep(s.fs, book, temps, a, c); } else { LoaderStep(s.fs, book, temps, a, c); }
    hide Inv, StepStorer, StepLoader, AgentOk;
    forall i | 0 <= i < |s'.agents| && StoresTo(s'.agents[i], path) ensures Stuck(s', i) {
      AgentKeepsJob(s.fs, a, c);
      assert StoresTo(s.agents[i], path) && Stuck(s, i);
      StaysStuck(s, book, temps, path, x, c, i);
    }
  }

  lemma {:induction false} NeverAppears(fs: Fs, book: Book, temps: set<string>, a: Agent, c: Choice, path: string)
    requires AgentOk(fs, book, temps, a) && path !in temps && path !in fs.dir
    requires StoresTo(a, path) ==> a.store.Begin? || a.store.Creating? || a.store == Stored(false)
    ensures path !in StepAgent(fs, a, c).0.dir
  {
  }

  lemma {:induction false} StaysStuck(s: System, book: Book, temps: set<string>, path: string, x: nat, c: Choice,
                                      i: nat)
    requires Inv(s, book, temps) && x < |s.agents| && i < |s.agents| && path !in s.fs.dir
    requires StoresTo(s.agents[i], path) && Stuck(s, i)
    ensures StoresTo(Step(s, x, c).agents[i], path) && Stuck(Step(s, x, c), i)
  {
    var a, b := s.agents[x], s.agents[i];
    assert AgentOk(s.fs, book, temps, a) && AgentOk(s.fs, book, temps, b);
    if a.Storer? { StorerStep(s.fs, book, temps, a, c); } else { LoaderStep(s.fs, book, temps, a, c); }
    assert b.tmp in temps && s.fs.dir[b.tmp] in s.fs.data;
  }

  lemma {:induction false} BlockedRun(s: System, book: Book, temps: set<string>, path: string,
                                      schedule: seq<(nat, Choice)>)
    requires Inv(s, book, temps) && path !in temps && Blocked(s, path)
    ensures Blocked(Run(s, schedule), path)
    decreases |schedule|
  {
    hide Inv, Blocked;
    if schedule != [] {
      StepInv(s, schedule[0].0, schedule[0].1, book, temps);
      if schedule[0].0 < |s.agents| { BlockedStep(s, book, temps, path, schedule[0].0, schedule[0].1); }
      BlockedRun(Step(s, schedule[0].0, schedule[0].1), book, temps, path, schedule[1..]);
    }
  }

  /** Whatever happens after a storer reports success, its destination is there. */
  ghost predicate StoreStays(s: System, i: nat)
    requires i < |s.agents| && s.agents[i].Storer?
  {
    forall schedule :: StoredAfter(s, schedule, i) ==> s.agents[i].dest in Run(s, schedule).fs.dir
  }

  ghost predicate StoredAfter(s: System, schedule: seq<(nat, Choice)>, i: nat) {
    && i < |Run(s, schedule).agents| && Run(s, schedule).agents[i].Storer?
    && Run(s, schedule).agents[i].store == Stored(true)
  }

  /** The block is there, or some storer has a free temp name to bring it there. */
  ghost predicate CanAppear(s: System, path: string) {
    path in s.fs.dir || exists k :: 0 <= k < |s.agents| && StoresTo(s.agents[k], path) && s.agents[k].tmp !in s.fs.dir
  }

  /** A stored block stays, in every interleaving, if and only if nobody loads its path, or nobody can
      store it in the first place. */
  lemma {:induction false} StoreStaysExactly(s: System, temps: set<string>, i: nat)
    requires Initial(s, temps) && i < |s.agents| && s.agents[i].Storer?
    ensures StoreStays(s, i) <==> NobodyLoads(s, s.agents[i].dest) || !CanAppear(s, s.agents[i].dest)
  {
    var path := s.agents[i].dest;
    if NobodyLoads(s, path) {
      InitialInv(s, temps);
      forall schedule | StoredAfter(s, schedule, i) ensures path in Run(s, schedule).fs.dir {
        KeptRun(s, BookOf(s), temps, path, false, schedule);
        RunKeepsJobs(s, schedule, i);
      }
    } else if !CanAppear(s, path) {
      NothingToLose(s, temps, i);
    } else {
      var j :| 0 <= j < |s.agents| && s.agents[j].Loader? && s.agents[j].source == path;
      if path in s.fs.dir {
        var schedule := LoaderRemovesPresent(s, temps, i, j);
        assert StoredAfter(s, schedule, i);
      } else {
        var k :| 0 <= k < |s.agents| && StoresTo(s.agents[k], path) && s.agents[k].tmp !in s.fs.dir;
        var schedule := LoaderUndoesStore(s, temps, i, k, j);
        assert StoredAfter(s, schedule, i);
      }
    }
  }

  lemma {:induction false} NothingToLose(s: System, temps: set<string>, i: nat)
    requires Initial(s, temps) && i < |s.agents| && s.agents[i].Storer? && !CanAppear(s, s.agents[i].dest)
    ensures forall schedule :: !StoredAfter(s, schedule, i)
  {
    var path := s.agents[i].dest;
    InitialInv(s, temps);
    assert Blocked(s, path);
    forall schedule ensures !StoredAfter(s, schedule, i) {
      BlockedRun(s, BookOf(s), temps, path, schedule);
      RunKeepsJobs(s, schedule, i);
      assert StoresTo(Run(s, schedule).agents[i], path) && Stuck(Run(s, schedule), i);
    }
  }
}

/** The calls themselves, one after the other: single blocks and batches. */
module BlockStore {
  import opened FileSystem

  /** The files as a caller sees them. */
  ghost function Files(fs: Fs): map<string, seq<Byte>>
    requires WellFormed(fs)
  {
    map p | p in fs.dir :: fs.data[fs.dir[p]]
  }

  lemma {:induction false} AbortedStore(fs: Fs, tmp: string, ino: nat, bytes: seq<Byte>)
    requires WellFormed(fs) && tmp !in fs.dir && ino !in fs.data
    ensures var after := Unlink(Append(Create(fs, tmp, ino), ino, bytes), tmp);
            WellFormed(after) && Files(after) == Files(fs) && fs.data.Keys <= after.data.Keys
  {
  }

  /** The temp file as it is when its removal fails. */
  lemma {:induction false} LeftTemp(fs: Fs, tmp: string, ino: nat, bytes: seq<Byte>)
    requires WellFormed(fs) && tmp !in fs.dir && ino !in fs.data
    ensures var after := Append(Create(fs, tmp, ino), ino, bytes);
            WellFormed(after) && Files(after) == Files(fs)[tmp := bytes] && fs.data.Keys <= after.data.Keys
  {
    assert [] + bytes == bytes;
  }

  /** What a failed store leaves: nothing, or, if the removal fails too, a part of the block under the
      temp name. */
  ghost predicate AfterFailure(before: map<string, seq<Byte>>, after: map<string, seq<Byte>>, tmp: string,
                               src: seq<Byte>)
  {
    after == before || (tmp !in before && exists k :: 0 <= k <= |src| && after == before[tmp := src[..k]])
  }

  lemma {:induction false} NothingLeftBehind(files: map<string, seq<Byte>>, tmp: string, src: seq<Byte>)
    ensures AfterFailure(files, files, tmp, src)
  {
  }

  lemma {:induction false} IsAfterFailure(before: map<string, seq<Byte>>, tmp: string, src: seq<Byte>, k: nat)
    requires tmp !in before && k <= |src|
    ensures AfterFailure(before, before[tmp := src[..k]], tmp, src)
  {
  }

  lemma {:induction false} CompletedStore(fs: Fs, tmp: string, dest: string, ino: nat, bytes: seq<Byte>)
    requires WellFormed(fs) && tmp !in fs.dir && dest !in fs.dir && ino !in fs.data
    ensures var after := Rename(Append(Create(fs, tmp, ino), ino, bytes), tmp, dest);
            WellFormed(after) && Files(after) == Files(fs)[dest := bytes] && fs.data.Keys <= after.data.Keys
  {
    assert [] + bytes == bytes;
    var after := Rename(Append(Create(fs, tmp, ino), ino, bytes), tmp, dest);
    assert after.dir == fs.dir[dest := ino] && after.data == fs.data[ino := bytes];
  }

  /** What storing one block leaves: an existing destination is kept; otherwise the block appears whole,
      or the store fails. A temp name that is taken makes it fail and change nothing. */
  ghost predicate StoreOutcome(before: map<string, seq<Byte>>, after: map<string, seq<Byte>>, tmp: string,
                               dest: string, src: seq<Byte>, ok: bool)
  {
    && (ok ==> after == if dest in before then before else before[dest := src])
    && (!ok ==> dest !in before && AfterFailure(before, after, tmp, src))
    && (tmp in before && dest !in before ==> !ok && after == before)
  }

  /** What loading one block leaves: success means the beginning of the file and no change; a failure
      costs at most that file. */
  ghost predicate LoadOutcome(before: map<string, seq<Byte>>, after: map<string, seq<Byte>>, source: string,
                              size: nat, got: seq<Byte>, ok: bool)
  {
    && (ok ==> after == before && source in before && |got| == size && got <= before[source])
    && (!ok ==> after == before - {source} || after == before)
  }

  datatype BatchResult = LengthMismatch | Done | FailedAt(index: nat, error: int)

  /** What a batch of stores leaves behind: a destination that is there keeps its content. */
  ghost function StoreAll(files: map<string, seq<Byte>>, dests: seq<string>,
                          bufs: seq<seq<Byte>>): map<string, seq<Byte>>
    requires |dests| == |bufs|
  {
    if dests == [] then files
    else
      var before := StoreAll(files, dests[..|dests|-1], bufs[..|bufs|-1]);
      var dest := dests[|dests|-1];
      if dest in before then before else before[dest := bufs[|bufs|-1]]
  }

  /** The k-th store of the batch goes well on what the earlier ones leave. */
  ghost predicate StoreInBatch(files: map<string, seq<Byte>>, tmps: seq<string>, dests: seq<string>,
                               bufs: seq<seq<Byte>>, calls: seq<StoreCalls>, k: nat)
    requires |dests| == |tmps| == |bufs| == |calls| && k < |tmps|
  {
    StoreGoesWell(StoreAll(files, dests[..k], bufs[..k]).Keys, tmps[k], dests[k], bufs[k], calls[k])
  }

  /** No load before hi goes into buffer k. */
  ghost predicate NotUsed(dsts: seq<array<Byte>>, hi: int, k: nat)
    requires k < |dsts|
  {
    forall j :: 0 <= j < |dsts| && j < hi ==> dsts[j] != dsts[k]
  }

  /** No load after the k-th and before hi goes into buffer k. */
  ghost predicate NotReused(dsts: seq<array<Byte>>, hi: int, k: nat)
    requires k < |dsts|
  {
    forall j :: k < j < |dsts| && j < hi ==> dsts[j] != dsts[k]
  }

  lemma {:induction false} OneMoreLoad(dsts: seq<array<Byte>>, hi: nat, k: nat)
    requires k < |dsts|
    ensures NotUsed(dsts, hi + 1, k) ==> NotUsed(dsts, hi, k) && (hi < |dsts| ==> dsts[k] != dsts[hi])
    ensures NotReused(dsts, hi + 1, k) ==> NotReused(dsts, hi, k) && (k < hi < |dsts| ==> dsts[k] != dsts[hi])
  {
  }

  /** How the system calls of one store turn out: zero or an error for creating directories, opening,
      closing and renaming, how much can be written (or a negative error), whether a removal works. */
  datatype StoreCalls = StoreCalls(dirs: int, open: int, written: int, close: int, rename: int, unlink: bool)

  /** The same for one load. */
  datatype LoadCalls = LoadCalls(open: int, count: int, close: int, unlink: bool)

  /** The error of the earlier call if it has one, else what comes later. */
  function Earlier(error: int, later: int): int {
    if error != 0 then error else later
  }

  function Least(x: int, y: int): int {
    if x <= y then x else y
  }

  /** What a transfer of n bytes reports: its own error, the input/output error when it is short, or zero. */
  function TransferError(moved: int, n: nat): int {
    if moved < 0 then -moved else if moved < n then 5 else 0
  }

  /** The store of one block goes well: it is there already, or the temp name is free and no call fails. */
  predicate StoreGoesWell(paths: set<string>, tmp: string, dest: string, src: seq<Byte>, calls: StoreCalls) {
    dest in paths ||
    (&& tmp !in paths && calls.dirs == 0 && calls.open == 0 && calls.written >= |src| && calls.close == 0
     && calls.rename == 0)
  }

  /** The load of one block goes well: the file is there and long enough, and no call fails. */
  ghost predicate LoadGoesWell(files: map<string, seq<Byte>>, source: string, size: nat, calls: LoadCalls) {
    && source in files && size <= |files[source]|
    && calls.open == 0 && calls.count >= size && calls.close == 0
  }

  class Disk {
    var fs: Fs

    constructor ()
      ensures fs == Fs(map[], map[])
    {
      fs := Fs(map[], map[]);
    }

    /** Remove a file after a failure. The result of the call is ignored, and it may fail. */
    method Cleanup(path: string, works: bool)
      modifies this
      ensures fs == if works then Unlink(old(fs), path) else old(fs)
    {
      if works {
        fs := Unlink(fs, path);
      }
    }

    /** Store one block unless its destination exists. The new file appears whole or not at all; a
        failure leaves at most a part of it under the temp name, and only if its removal fails too. */
    method StoreBlock(tmp: string, dest: string, src: seq<Byte>, calls: StoreCalls) returns (err: int)
      requires WellFormed(fs)
      modifies this
      ensures WellFormed(fs) && old(fs).data.Keys <= fs.data.Keys
      ensures err == 0 <==> StoreGoesWell(old(fs).dir.Keys, tmp, dest, src, calls)
      ensures StoreOutcome(old(Files(fs)), Files(fs), tmp, dest, src, err == 0)
      ensures err != 0 && calls.unlink ==> Files(fs) == old(Files(fs))
      ensures dest !in old(fs).dir ==>
                err == Earlier(calls.dirs, Earlier(calls.open, Earlier(if tmp in old(fs).dir then 17 else 0,
                         Earlier(TransferError(calls.written, |src|), Earlier(calls.close, calls.rename)))))
    {
      hide WellFormed, Files, AfterFailure;
      FilesKeys(fs);
      assert AfterFailure(Files(fs), Files(fs), tmp, src) by { NothingLeftBehind(Files(fs), tmp, src); }
      if dest in fs.dir {
        return 0;
      }
      if calls.dirs != 0 {
        return calls.dirs;
      }
      if tmp in fs.dir || calls.open != 0 {
        return if calls.open != 0 then calls.open else 17;
      }
      ghost var free := FreeInode(fs.data.Keys);
      var ino :| ino !in fs.data;
      var moved := if 0 <= calls.written <= |src| then calls.written else if calls.written < 0 then 0 else |src|;
      AbortedStore(fs, tmp, ino, src[..moved]);
      LeftTemp(fs, tmp, ino, src[..moved]);
      IsAfterFailure(Files(fs), tmp, src, moved);
      fs := Create(fs, tmp, ino);
      fs := Append(fs, ino, src[..moved]);
      if moved != |src| || calls.written < 0 {
        err := if calls.written < 0 then -calls.written else 5;
        Cleanup(tmp, calls.unlink);
        return;
      }
      if calls.close != 0 {
        Cleanup(tmp, calls.unlink);
        return calls.close;
      }
      if calls.rename != 0 {
        Cleanup(tmp, calls.unlink);
        return calls.rename;
      }
      assert src[..moved] == src;
      CompletedStore(old(fs), tmp, dest, ino, src);
      fs := Rename(fs, tmp, dest);
      err := 0;
    }

    /** Load one block into a buffer of the wanted size; a failure removes the file, if it can. */
    method LoadBlock(source: string, dst: array<Byte>, calls: LoadCalls) returns (err: int)
      requires WellFormed(fs)
      modifies this, dst
      ensures WellFormed(fs)
      ensures err == 0 <==> LoadGoesWell(old(Files(fs)), source, dst.Length, calls)
      ensures err == Earlier(calls.open, if source !in old(fs).dir then 2 else
                       Earlier(TransferError(Least(calls.count, |old(Files(fs))[source]|), dst.Length), calls.close))
      ensures fs == if err != 0 && calls.unlink then Unlink(old(fs), source) else old(fs)
      ensures LoadOutcome(old(Files(fs)), Files(fs), source, dst.Length, dst[..], err == 0)
    {
      if source !in fs.dir || calls.open != 0 {
        Cleanup(source, calls.unlink);
        return if calls.open != 0 then calls.open else 2;
      }
      var content := fs.data[fs.dir[source]];
      var limit := if dst.Length < |content| then dst.Length else |content|;
      var moved := if 0 <= calls.count <= limit then calls.count else if calls.count < 0 then 0 else limit;
      for k := 0 to moved
        invariant fs == old(fs) && dst[..k] == content[..k]
      {
        dst[k] := content[k];
      }
      if moved != dst.Length || calls.count < 0 {
        Cleanup(source, calls.unlink);
        return if calls.count < 0 then -calls.count else 5;
      }
      if calls.close != 0 {
        Cleanup(source, calls.unlink);
      }
      assert dst[..] == dst[..moved];
      err := calls.close;
    }

    method BatchLookup(paths: seq<string>) returns (flags: seq<bool>)
      ensures |flags| == |paths| && forall i :: 0 <= i < |paths| ==> (flags[i] <==> paths[i] in fs.dir)
    {
      flags := [];
      for i := 0 to |paths|
        invariant |flags| == i && forall k :: 0 <= k < i ==> (flags[k] <==> paths[k] in fs.dir)
      {
        flags := flags + [paths[i] in fs.dir];
      }
    }

    /** Store blocks in order up to the first failure: the earlier ones are done, the later ones not
        touched. */
    method BatchStore(tmps: seq<string>, dests: seq<string>, bufs: seq<seq<Byte>>, calls: seq<StoreCalls>)
      returns (r: BatchResult)
      requires WellFormed(fs) && |calls| == |tmps|
      modifies this
      ensures WellFormed(fs)
      ensures r.LengthMismatch? <==> |dests| != |tmps| || |bufs| != |tmps|
      ensures r.LengthMismatch? ==> fs == old(fs)
      ensures r.Done? ==> Files(fs) == StoreAll(old(Files(fs)), dests, bufs)
      ensures r.FailedAt? ==>
                && r.index < |dests| && r.error != 0
                && !StoreInBatch(old(Files(fs)), tmps, dests, bufs, calls, r.index)
                && AfterFailure(StoreAll(old(Files(fs)), dests[..r.index], bufs[..r.index]), Files(fs),
                                tmps[r.index], bufs[r.index])
      ensures !r.LengthMismatch? ==>
                forall k :: 0 <= k < (if r.Done? then |dests| else r.index) ==>
                  StoreInBatch(old(Files(fs)), tmps, dests, bufs, calls, k)
    {
      hide WellFormed, Files, AfterFailure;
      if |dests| != |tmps| || |bufs| != |tmps| {
        return LengthMismatch;
      }
      for i := 0 to |tmps|
        invariant WellFormed(fs) && Files(fs) == StoreAll(old(Files(fs)), dests[..i], bufs[..i])
        invariant forall k :: 0 <= k < i ==> StoreInBatch(old(Files(fs)), tmps, dests, bufs, calls, k)
      {
        FilesKeys(fs);
        var err := StoreBlock(tmps[i], dests[i], bufs[i], calls[i]);
        if err != 0 {
          return FailedAt(i, err);
        }
        assert dests[..i+1][..i] == dests[..i] && bufs[..i+1][..i] == bufs[..i];
      }
      assert dests[..|tmps|] == dests && bufs[..|tmps|] == bufs;
      return Done;
    }

    /** Load blocks in order up to the first failure, which costs at most the failing file. A buffer
        that is given twice ends with what was loaded into it last. */
    method BatchLoad(sources: seq<string>, dsts: seq<array<Byte>>, calls: seq<LoadCalls>) returns (r: BatchResult)
      requires WellFormed(fs) && |calls| == |sources|
      modifies this, dsts
      ensures WellFormed(fs)
      ensures r.LengthMismatch? <==> |dsts| != |sources|
      ensures r.LengthMismatch? || r.Done? ==> fs == old(fs)
      ensures r.FailedAt? ==>
                && r.index < |sources| && r.error != 0
                && !LoadGoesWell(old(Files(fs)), sources[r.index], dsts[r.index].Length, calls[r.index])
                && fs == if calls[r.index].unlink then Unlink(old(fs), sources[r.index]) else old(fs)
      ensures !r.LengthMismatch? ==>
                var done := if r.Done? then |sources| else r.index;
                && (forall k :: 0 <= k < done ==> LoadGoesWell(old(Files(fs)), sources[k], dsts[k].Length, calls[k]))
                && (forall k :: 0 <= k < done && NotReused(dsts, done + 1, k) ==>
                      dsts[k][..] <= old(Files(fs))[sources[k]])
                && (forall k :: done < k < |dsts| && NotUsed(dsts, done + 1, k) ==>
                      dsts[k][..] == old(dsts[k][..]))
      ensures r.LengthMismatch? ==> forall k :: 0 <= k < |dsts| ==> dsts[k][..] == old(dsts[k][..])
    {
      hide NotUsed, NotReused, WellFormed, Earlier, TransferError, Least, Unlink;
      if |dsts| != |sources| {
        return LengthMismatch;
      }
      for i := 0 to |sources|
        invariant fs == old(fs)
        invariant forall k :: 0 <= k < i ==> LoadGoesWell(old(Files(fs)), sources[k], dsts[k].Length, calls[k])
        invariant forall k :: 0 <= k < i && NotReused(dsts, i, k) ==> dsts[k][..] <= old(Files(fs))[sources[k]]
        invariant forall k :: 0 <= k < |dsts| && NotUsed(dsts, i, k) ==> dsts[k][..] == old(dsts[k][..])
      {
        forall k | 0 <= k < |dsts|
          ensures NotUsed(dsts, i + 1, k) ==> NotUsed(dsts, i, k) && dsts[k] != dsts[i]
          ensures NotReused(dsts, i + 1, k) ==> NotReused(dsts, i, k) && (k < i ==> dsts[k] != dsts[i])
        {
          OneMoreLoad(dsts, i, k);
        }
        label before:
        var err := LoadBlock(sources[i], dsts[i], calls[i]);
        assert forall k :: 0 <= k < |dsts| && dsts[k] != dsts[i] ==> dsts[k][..] == old@before(dsts[k][..]);
        if err != 0 {
          return FailedAt(i, err);
        }
      }
      forall k | 0 <= k < |dsts| ensures NotReused(dsts, |dsts| + 1, k) ==> NotReused(dsts, |dsts|, k) {
        OneMoreLoad(dsts, |dsts|, k);
      }
      return Done;
    }

    /** A batch store, then a batch load of the same destinations into buffers of the same sizes. When
        both report success, every buffer comes back; after a successful store the load succeeds if none
        of its calls fails. */
    method StoreThenLoad(tmps: seq<string>, dests: seq<string>, bufs: seq<seq<Byte>>, dsts: seq<array<Byte>>,
                         stores: seq<StoreCalls>, loads: seq<LoadCalls>)
      returns (stored: BatchResult, loaded: BatchResult)
      requires |stores| == |tmps| && |loads| == |dests|
      requires WellFormed(fs) && Determined(Files(fs), dests, bufs) && |dsts| == |dests|
      requires forall i, j :: 0 <= i < j < |dsts| ==> dsts[i] != dsts[j]
      requires forall i :: 0 <= i < |dsts| ==> dsts[i].Length == |bufs[i]|
      modifies this, dsts
      ensures WellFormed(fs)
      ensures stored.Done? && loaded.Done? ==> forall i :: 0 <= i < |dsts| ==> dsts[i][..] == bufs[i]
      ensures stored.Done? ==>
                (loaded.Done? <==> forall i :: 0 <= i < |loads| ==>
                   loads[i].open == 0 && loads[i].count >= |bufs[i]| && loads[i].close == 0)
    {
      hide StoreAll, Determined, StoreInBatch, AfterFailure, WellFormed, Files;
      ghost var files := Files(fs);
      assert |bufs| == |dests| by { SameCount(files, dests, bufs); }
      stored := BatchStore(tmps, dests, bufs, stores);
      loaded := LengthMismatch;
      if stored.Done? {
        forall i | 0 <= i < |dests|
          ensures dests[i] in StoreAll(files, dests, bufs) && StoreAll(files, dests, bufs)[dests[i]] == bufs[i]
        {
          RoundTrip(files, dests, bufs, i);
        }
        ghost var now := Files(fs);
        loaded := BatchLoad(dests, dsts, loads);
        if loaded.Done? {
          forall i | 0 <= i < |dsts| ensures dsts[i][..] == bufs[i] {
            assert NotReused(dsts, |dests| + 1, i);
            assert dsts[i][..] <= now[dests[i]] && |dsts[i][..]| == |bufs[i]|;
          }
        }
      }
    }
  }

  lemma {:induction false} FilesKeys(fs: Fs)
    requires WellFormed(fs)
    ensures Files(fs).Keys == fs.dir.Keys
  {
  }

  /** Index k is the first store for path p in a batch. */
  ghost predicate FirstStore(dests: seq<string>, p: string, k: int) {
    0 <= k < |dests| && dests[k] == p && p !in dests[..k]
  }

  /** In a batch the content already there wins, then the first store. */
  lemma {:induction false} StoredLookup(files: map<string, seq<Byte>>, dests: seq<string>, bufs: seq<seq<Byte>>,
                                        p: string)
    requires |dests| == |bufs|
    ensures p in StoreAll(files, dests, bufs) <==> p in files || p in dests
    ensures p in files ==> StoreAll(files, dests, bufs)[p] == files[p]
    ensures p !in files && p in dests ==>
              exists k :: FirstStore(dests, p, k) && StoreAll(files, dests, bufs)[p] == bufs[k]
    decreases |dests|
  {
    if dests != [] {
      var n := |dests| - 1;
      StoredLookup(files, dests[..n], bufs[..n], p);
      assert dests == dests[..n] + [dests[n]];
      if p !in files && p in dests {
        if p in dests[..n] {
          var k :| FirstStore(dests[..n], p, k) && StoreAll(files, dests[..n], bufs[..n])[p] == bufs[..n][k];
          assert dests[..n][..k] == dests[..k];
          assert FirstStore(dests, p, k);
        } else {
          assert FirstStore(dests, p, n);
        }
      }
    }
  }

  /** Each destination determines its content: equal names carry equal buffers, and a file that is
      already there is the block. */
  ghost predicate Determined(files: map<string, seq<Byte>>, dests: seq<string>, bufs: seq<seq<Byte>>) {
    && |dests| == |bufs|
    && (forall i, j :: 0 <= i < |dests| && 0 <= j < |dests| && dests[i] == dests[j] ==> bufs[i] == bufs[j])
    && (forall i :: 0 <= i < |dests| && dests[i] in files ==> files[dests[i]] == bufs[i])
  }

  lemma {:induction false} SameCount(files: map<string, seq<Byte>>, dests: seq<string>, bufs: seq<seq<Byte>>)
    requires Determined(files, dests, bufs)
    ensures |dests| == |bufs|
  {
  }

  /** What was stored comes back whenever the destinations determine their content. */
  lemma {:induction false} RoundTrip(files: map<string, seq<Byte>>, dests: seq<string>, bufs: seq<seq<Byte>>, i: nat)
    requires Determined(files, dests, bufs) && i < |dests|
    ensures dests[i] in StoreAll(files, dests, bufs) && StoreAll(files, dests, bufs)[dests[i]] == bufs[i]
  {
    StoredLookup(files, dests, bufs, dests[i]);
  }
}

/** The step-by-step agents and the calls are the same functions: an agent that runs alone, whatever
    its system calls do, ends as the call says. */
module BlockAlone {
  import opened FileSystem
  import opened BlockProtocol
  import opened BlockStore

  ghost function RunAlone(fs: Fs, a: Agent, choices: seq<Choice>): (Fs, Agent)
    decreases |choices|
  {
    if choices == [] then (fs, a)
    else
      var next := StepAgent(fs, a, choices[0]);
      RunAlone(next.0, next.1, choices[1..])
  }

  /** The temp file with the first n bytes, and nothing else new. */
  ghost predicate Begun(start: Fs, fs: Fs, tmp: string, dest: string, src: seq<Byte>, ino: nat, n: nat) {
    && ino !in start.data && tmp !in start.dir && dest !in start.dir && n <= |src|
    && fs == Append(Create(start, tmp, ino), ino, src[..n])
  }

  lemma {:induction false} MoreWritten(start: Fs, fs: Fs, tmp: string, dest: string, src: seq<Byte>, ino: nat, n: nat,
                                       m: nat)
    requires Begun(start, fs, tmp, dest, src, ino, n) && n <= m <= |src|
    ensures ino in fs.data && Begun(start, Append(fs, ino, src[n..m]), tmp, dest, src, ino, m)
  {
    assert [] + src[..n] + src[n..m] == [] + src[..m];
    assert Append(fs, ino, src[n..m]).data == Append(Create(start, tmp, ino), ino, src[..m]).data;
  }

  ghost predicate StorerAt(start: Fs, fs: Fs, a: Agent)
    requires a.Storer? && WellFormed(start)
  {
    match a.store
    case Begin => fs == start
    case Creating => fs == start && a.dest !in start.dir
    case Writing(ino, n) => Begun(start, fs, a.tmp, a.dest, a.src, ino, n)
    case Closing(ino) => Begun(start, fs, a.tmp, a.dest, a.src, ino, |a.src|)
    case Renaming(ino) => Begun(start, fs, a.tmp, a.dest, a.src, ino, |a.src|)
    case Cleaning(ino) => exists n: nat :: Begun(start, fs, a.tmp, a.dest, a.src, ino, n)
    case Stored(ok) => WellFormed(fs) && StoreOutcome(Files(start), Files(fs), a.tmp, a.dest, a.src, ok)
  }

  lemma {:induction false} StorerStays(start: Fs, fs: Fs, a: Agent, c: Choice)
    requires a.Storer? && WellFormed(start) && StorerAt(start, fs, a)
    ensures StepStorer(fs, a, c).1.Storer? && StorerAt(start, StepStorer(fs, a, c).0, StepStorer(fs, a, c).1)
  {
    hide Files, AfterFailure, WellFormed, Rename, Unlink;
    FilesKeys(start);
    NothingLeftBehind(Files(start), a.tmp, a.src);
    match a.store
    case Creating =>
      assert Append(Create(start, a.tmp, c.ino), c.ino, a.src[..0]) == Create(start, a.tmp, c.ino);
    case Writing(ino, n) =>
      if n < |a.src| { MoreWritten(start, fs, a.tmp, a.dest, a.src, ino, n, Min(n + c.count, |a.src|)); }
    case Renaming(ino) =>
      Renamed(start, fs, a.tmp, a.dest, a.src, ino);
    case Cleaning(ino) =>
      var n: nat :| Begun(start, fs, a.tmp, a.dest, a.src, ino, n);
      Cleaned(start, fs, a.tmp, a.dest, a.src, ino, n);
    case _ =>
  }

  lemma {:induction false} Renamed(start: Fs, fs: Fs, tmp: string, dest: string, src: seq<Byte>, ino: nat)
    requires WellFormed(start) && Begun(start, fs, tmp, dest, src, ino, |src|)
    ensures WellFormed(Rename(fs, tmp, dest))
    ensures StoreOutcome(Files(start), Files(Rename(fs, tmp, dest)), tmp, dest, src, true)
  {
    assert src[..|src|] == src;
    FilesKeys(start);
    hide Files, WellFormed, Append, Create, Rename;
    CompletedStore(start, tmp, dest, ino, src);
  }

  lemma {:induction false} Cleaned(start: Fs, fs: Fs, tmp: string, dest: string, src: seq<Byte>, ino: nat, n: nat)
    requires WellFormed(start) && Begun(start, fs, tmp, dest, src, ino, n)
    ensures WellFormed(fs) && StoreOutcome(Files(start), Files(fs), tmp, dest, src, false)
    ensures WellFormed(Unlink(fs, tmp)) && StoreOutcome(Files(start), Files(Unlink(fs, tmp)), tmp, dest, src, false)
  {
    FilesKeys(start);
    hide Files, WellFormed, Append, Create, Unlink, AfterFailure;
    NothingLeftBehind(Files(start), tmp, src);
    AbortedStore(start, tmp, ino, src[..n]);
    LeftTemp(start, tmp, ino, src[..n]);
    IsAfterFailure(Files(start), tmp, src, n);
  }

  /** A storer that is done leaves what storing the block promises. */
  lemma {:induction false} StorerIsStoreBlock(start: Fs, fs: Fs, a: Agent, choices: seq<Choice>)
    requires a.Storer? && WellFormed(start) && StorerAt(start, fs, a)
    ensures var end := RunAlone(fs, a, choices);
            && end.1.Storer? && end.1.(store := a.store) == a
            && (end.1.store.Stored? ==>
                  && WellFormed(end.0)
                  && StoreOutcome(Files(start), Files(end.0), a.tmp, a.dest, a.src, end.1.store.ok))
    decreases |choices|
  {
    if choices != [] {
      StorerStays(start, fs, a, choices[0]);
      var next := StepStorer(fs, a, choices[0]);
      StorerIsStoreBlock(start, next.0, next.1, choices[1..]);
    }
  }

  ghost predicate LoaderAt(start: Fs, fs: Fs, a: Agent)
    requires a.Loader? && WellFormed(start)
  {
    match a.load
    case Opening => fs == start
    case Reading(ino, got) => fs == start && Begins(start, a, ino, got)
    case Finishing(ino, got) => fs == start && Begins(start, a, ino, got) && |got| == a.size
    case Removing => fs == start
    case Loaded(ok, got) => WellFormed(fs) && LoadOutcome(Files(start), Files(fs), a.source, a.size, got, ok)
  }

  /** What was read is the beginning of the file the path led to. */
  ghost predicate Begins(start: Fs, a: Agent, ino: nat, got: seq<Byte>)
    requires a.Loader? && WellFormed(start)
  {
    && a.source in start.dir && start.dir[a.source] == ino && |got| <= a.size && |got| <= |start.data[ino]|
    && got == start.data[ino][..|got|]
  }

  lemma {:induction false} LoaderStays(start: Fs, fs: Fs, a: Agent, c: Choice)
    requires a.Loader? && WellFormed(start) && LoaderAt(start, fs, a)
    ensures StepLoader(fs, a, c).1.Loader? && LoaderAt(start, StepLoader(fs, a, c).0, StepLoader(fs, a, c).1)
  {
    if a.load.Removing? {
      assert WellFormed(Unlink(start, a.source)) && Files(Unlink(start, a.source)) == Files(start) - {a.source};
    }
  }

  /** A loader that is done leaves and has what loading the block promises. */
  lemma {:induction false} LoaderIsLoadBlock(start: Fs, fs: Fs, a: Agent, choices: seq<Choice>)
    requires a.Loader? && WellFormed(start) && LoaderAt(start, fs, a)
    ensures var end := RunAlone(fs, a, choices);
            && end.1.Loader? && end.1.(load := a.load) == a
            && (end.1.load.Loaded? ==>
                  && WellFormed(end.0)
                  && LoadOutcome(Files(start), Files(end.0), a.source, a.size, end.1.load.got, end.1.load.ok))
    decreases |choices|
  {
    if choices != [] {
      LoaderStays(start, fs, a, choices[0]);
      var next := StepLoader(fs, a, choices[0]);
      LoaderIsLoadBlock(start, next.0, next.1, choices[1..]);
    }
  }

  // ---------------------------------------------------------------- when they succeed

  ghost predicate NoneFails(choices: seq<Choice>, fs: Fs) {
    forall k :: 0 <= k < |choices| ==> choices[k].ok && choices[k].ino !in fs.data
  }

  ghost predicate Loadable(start: Fs, a: Agent)
    requires a.Loader? && WellFormed(start)
  {
    a.source in start.dir && a.size <= |start.data[start.dir[a.source]]|
  }

  ghost predicate LoaderOnCourse(start: Fs, a: Agent)
    requires a.Loader? && WellFormed(start)
  {
    && (a.load.Finishing? ==> Loadable(start, a))
    && (a.load.Removing? ==> !Loadable(start, a))
    && (a.load.Loaded? ==> (a.load.ok <==> Loadable(start, a)))
  }

  /** A loader whose calls do not fail succeeds exactly when the file is there and long enough. */
  lemma {:induction false} LoaderSucceedsExactly(start: Fs, fs: Fs, a: Agent, choices: seq<Choice>)
    requires a.Loader? && WellFormed(start) && LoaderAt(start, fs, a) && LoaderOnCourse(start, a)
    requires NoneFails(choices, start)
    ensures var end := RunAlone(fs, a, choices).1;
            end.Loader? && (end.load.Loaded? ==> (end.load.ok <==> Loadable(start, a)))
    decreases |choices|
  {
    if choices != [] {
      LoaderStays(start, fs, a, choices[0]);
      var next := StepLoader(fs, a, choices[0]);
      LoaderSucceedsExactly(start, next.0, next.1, choices[1..]);
    }
  }

  ghost predicate StorerOnCourse(start: Fs, a: Agent)
    requires a.Storer?
  {
    && !a.store.Cleaning? && (a.store.Creating? ==> a.dest !in start.dir)
    && (a.store.Stored? ==> (a.store.ok <==> a.dest in start.dir || a.tmp !in start.dir))
  }

  /** A storer whose calls do not fail succeeds exactly when the block is there or its temp name is free. */
  lemma {:induction false} StorerSucceedsExactly(start: Fs, fs: Fs, a: Agent, choices: seq<Choice>)
    requires a.Storer? && WellFormed(start) && StorerAt(start, fs, a) && StorerOnCourse(start, a)
    requires NoneFails(choices, start)
    ensures var end := RunAlone(fs, a, choices).1;
            end.Storer? && (end.store.Stored? ==> (end.store.ok <==> a.dest in start.dir || a.tmp !in start.dir))
    decreases |choices|
  {
    hide StoreOutcome, Files;
    if choices != [] {
      StorerStays(start, fs, a, choices[0]);
      var next := StepStorer(fs, a, choices[0]);
      StorerSucceedsExactly(start, next.0, next.1, choices[1..]);
    }
  }

  /** A storer that has to clean up leaves the files as they were, or, if the removal fails, the bytes it
      wrote under its temp name. */
  lemma {:induction false} StorerCleansUp(start: Fs, a: Agent, choices: seq<Choice>, c: Choice) returns (n: nat)
    requires a.Storer? && a.store.Begin? && WellFormed(start)
    requires RunAlone(start, a, choices).1.Storer? && RunAlone(start, a, choices).1.store.Cleaning?
    ensures n <= |a.src| && a.tmp !in start.dir
    ensures var end := RunAlone(start, a, choices);
            var last := StepAgent(end.0, end.1, c);
            && last.1 == a.(store := Stored(false)) && WellFormed(last.0)
            && Files(last.0) == if c.ok then Files(start) else Files(start)[a.tmp := a.src[..n]]
  {
    var end := RunAlone(start, a, choices);
    StorerIsStoreBlock(start, start, a, choices);
    StorerAtEnd(start, start, a, choices);
    n :| Begun(start, end.0, a.tmp, a.dest, a.src, end.1.store.ino, n);
    AbortedStore(start, a.tmp, end.1.store.ino, a.src[..n]);
    LeftTemp(start, a.tmp, end.1.store.ino, a.src[..n]);
  }

  lemma {:induction false} StorerAtEnd(start: Fs, fs: Fs, a: Agent, choices: seq<Choice>)
    requires a.Storer? && WellFormed(start) && StorerAt(start, fs, a)
    ensures var end := RunAlone(fs, a, choices); end.1.Storer? && StorerAt(start, end.0, end.1)
    decreases |choices|
  {
    hide StorerAt;
    if choices != [] {
      StorerStays(start, fs, a, choices[0]);
      var next := StepStorer(fs, a, choices[0]);
      StorerAtEnd(start, next.0, next.1, choices[1..]);
    }
  }

  /** How many steps are left at most, as long as every transfer moves something. */
  ghost function StepsLeft(a: Agent): int {
    if a.Storer? then
      match a.store
      case Begin => |a.src| + 6
      case Creating => |a.src| + 5
      case Writing(_, n) => |a.src| - n + 4
      case Closing(_) => 3
      case Renaming(_) => 2
      case Cleaning(_) => 1
      case Stored(_) => 0
    else
      match a.load
      case Opening => a.size + 4
      case Reading(_, got) => a.size - |got| + 3
      case Finishing(_, _) => 2
      case Removing => 1
      case Loaded(_, _) => 0
  }

  /** A storer ends: alone, with transfers that move at least a byte, it is done after its bytes and six
      steps. */
  lemma {:induction false} StorerEnds(start: Fs, fs: Fs, a: Agent, choices: seq<Choice>)
    requires a.Storer? && WellFormed(start) && StorerAt(start, fs, a) && |choices| >= StepsLeft(a)
    requires forall k :: 0 <= k < |choices| ==> choices[k].count > 0
    ensures RunAlone(fs, a, choices).1.Storer? && RunAlone(fs, a, choices).1.store.Stored?
    decreases |choices|
  {
    hide StoreOutcome, Files;
    if choices != [] {
      StorerStays(start, fs, a, choices[0]);
      var next := StepStorer(fs, a, choices[0]);
      assert StepsLeft(next.1) < StepsLeft(a) || next.1.store.Stored?;
      StorerEnds(start, next.0, next.1, choices[1..]);
    }
  }

  /** A loader ends, too, after its bytes and four steps, also when the file is too short. */
  lemma {:induction false} LoaderEnds(start: Fs, fs: Fs, a: Agent, choices: seq<Choice>)
    requires a.Loader? && WellFormed(start) && LoaderAt(start, fs, a) && |choices| >= StepsLeft(a)
    requires forall k :: 0 <= k < |choices| ==> choices[k].count > 0
    ensures RunAlone(fs, a, choices).1.Loader? && RunAlone(fs, a, choices).1.load.Loaded?
    decreases |choices|
  {
    if choices != [] {
      LoaderStays(start, fs, a, choices[0]);
      var next := StepLoader(fs, a, choices[0]);
      assert StepsLeft(next.1) < StepsLeft(a) || next.1.load.Loaded?;
      LoaderEnds(start, next.0, next.1, choices[1..]);
    }
  }
}
