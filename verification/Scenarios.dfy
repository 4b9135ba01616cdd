/** Concrete runs of the runtime that show where expected properties fail. */
module Scenarios {
  import opened Base
  import opened Cache
  import opened Copy
  import opened Disk
  import opened Lifecycle
  import opened MaterializeJob
  import opened MaterializeNode
  import opened Paging
  import opened Paths
  import opened Planner
  import opened Runtime
  import opened TargetPlan
  import opened Tree
  import opened Walk

  // ---- one promise with one file -------------------------------------------

  const FILE: string := "f"
  const PROMISE: string := "promise-1"

  function FileSpec(size: U64, id: string): NodeSpec {
    NodeSpec(File, FILE, id, NodeAttr(0, size, 0))
  }

  /** The builder accepts every nonempty provider node id, also one that holds a NUL. */
  lemma FileAdmitted(size: U64, id: string)
    requires id != ""
    ensures Admitted(Fresh(1).tree, FileSpec(size, id)) == Ok(FILE)
    ensures Added(Fresh(1), FileSpec(size, id)).Ok? && BuilderValid(Added(Fresh(1), FileSpec(size, id)).value)
  {
    assert LastSlash(FILE) == None;
    assert Normal(FILE);
    NormalizedFixpoint(FILE);
    FreshValid(1);
    AddedValid(Fresh(1), FileSpec(size, id));
  }

  /** The runtime holds one available promise with an uncached file of the given size. */
  ghost predicate HoldsFile(s: State, size: U64, id: string) {
    && NodeAt(s, PROMISE, FILE) && s.files == map[]
    && var node, promise := Node(s, PROMISE, FILE), s.promises[PROMISE];
       && node.kind.File? && node.relativePath == FILE && node.providerNodeId == id && node.attr.size == size
       && node.materializedPath.None?
       && promise.promiseId == PROMISE && promise.providerId == 1 && promise.state.Available? && HasProvider(s, 1)
  }

  lemma FileBuilder(size: U64, id: string) returns (b: BuilderState)
    requires id != ""
    ensures BuilderValid(b) && b.providerId == 1 && |b.tree.nodes| == 2 && FILE in b.tree.nodes
    ensures b.tree.nodes[FILE] == PromiseNode(2, 2, FILE, Some(""), FILE, id, None, File, NodeAttr(0, size, 0))
  {
    FileAdmitted(size, id);
    b := Added(Fresh(1), FileSpec(size, id)).value;
    assert b.tree.nodes == map["" := ROOT, FILE := NodeFrom(Fresh(1), FileSpec(size, id), FILE)];
    assert b.tree.nodes.Keys == {"", FILE};
  }

  lemma ProviderReached()
    ensures Reaches(Registered(Initial()))
  {
    InitialReached();
    ReachesStep(Initial(), Register, Registered(Initial()));
  }

  lemma OneFileCommitted(size: U64, id: string) returns (s: State)
    requires id != ""
    ensures Reaches(s) && HoldsFile(s, size, id)
  {
    ProviderReached();
    var b := FileBuilder(size, id);
    var registered := Registered(Initial());
    var committed, nodes := CommitReached(registered, b);
    s := committed;
    FileCommitted(b, s, nodes, size, id);
  }

  lemma FileCommitted(b: BuilderState, s: State, nodes: map<string, PromiseNode>, size: U64, id: string)
    requires b.providerId == 1 && FILE in b.tree.nodes && Committed(Registered(Initial()), b, s, nodes)
    requires b.tree.nodes[FILE] == PromiseNode(2, 2, FILE, Some(""), FILE, id, None, File, NodeAttr(0, size, 0))
    ensures HoldsFile(s, size, id)
  {
    var i := RenumberedAt(b.tree.nodes, nodes, Registered(Initial()).nextNodeId, Registered(Initial()).nextInode, FILE);
    assert PromiseName(1) == PROMISE by { assert Decimal(1) == "1"; }
  }

  lemma OneFileReached(size: U64, id: string, policy: CachePolicy) returns (s: State)
    requires id != "" && policy != ReadThrough(0)
    ensures Reaches(s) && Valid(s) && s.cachePolicy == policy && HoldsFile(s, size, id)
  {
    var committed := OneFileCommitted(size, id);
    s := PolicySet(committed, policy);
    ReachesStep(committed, SetPolicy(policy), s);
    ReachedValid(s);
  }

  /** The plan of a read of that file. */
  ghost function FilePlan(id: string, offset: U64, length: U32): ProviderReadPlan {
    ProviderReadPlan(1, PROMISE, FILE, id, offset, length)
  }

  lemma FilePlanned(s: State, size: U64, id: string, offset: U64, length: U32)
    requires Valid(s) && HoldsFile(s, size, id) && length > 0 && offset + length <= size
    ensures PlanRead(Uncached(s), PROMISE, FILE, offset, length) == Ok(Request(FilePlan(id, offset, length)))
    ensures PlanProviderRead(s, PROMISE, FILE, offset, length) == Ok(FilePlan(id, offset, length))
    ensures InsideFile(s, FilePlan(id, offset, length))
  {
    StoredNode(s, PROMISE, FILE);
  }

  // ---- the refused reads ---------------------------------------------------

  /** With 256 KiB chunks the last bytes of a maximal file are served without the cache but not through it. */
  lemma CoalesceFailsAtTop() returns (s: State)
    ensures Reaches(s) && s.cachePolicy == ReadThrough(MAX_PROVIDER_READ_LEN)
    ensures Serves(Uncached(s), 1, PROMISE, FILE, MAX_U64 - 1, 1) && !Serves(s, 1, PROMISE, FILE, MAX_U64 - 1, 1)
    ensures PlanCoalesced(s, FilePlan("n", MAX_U64 - 1, 1)).Err?
  {
    s := OneFileReached(MAX_U64, "n", ReadThrough(MAX_PROVIDER_READ_LEN));
    LastChunkEnds();
    RefusedThroughChunks(s, MAX_U64, MAX_U64 - 1);
    CoalesceOkIff(s, FilePlan("n", MAX_U64 - 1, 1));
  }

  lemma LastChunkEnds()
    ensures ChunkBase(MAX_U64 - 1, MAX_PROVIDER_READ_LEN) + MAX_PROVIDER_READ_LEN > MAX_U64
  {
    assert ChunkBase(MAX_U64 - 1, MAX_PROVIDER_READ_LEN) == 0xFFFF_FFFF_FFFC_0000;
  }

  /** With 512 KiB chunks the coalesced request for the first byte of a large file is too long for the encoder. */
  lemma LargeChunkRefused() returns (s: State)
    ensures Reaches(s) && s.cachePolicy == ReadThrough(0x80000)
    ensures Serves(Uncached(s), 1, PROMISE, FILE, 0, 1) && !Serves(s, 1, PROMISE, FILE, 0, 1)
    ensures PlanCoalesced(s, FilePlan("n", 0, 1)).Ok?
  {
    s := OneFileReached(0x80000, "n", ReadThrough(0x80000));
    assert ChunkBase(0, 0x80000) == 0;
    RefusedThroughChunks(s, 0x80000, 0);
    CoalesceOkIff(s, FilePlan("n", 0, 1));
  }

  lemma RefusedThroughChunks(s: State, size: U64, offset: U64)
    requires Valid(s) && HoldsFile(s, size, "n") && offset < size && !Coalescible(s.cachePolicy.ChunkSize(), offset, 1, size)
    ensures Serves(Uncached(s), 1, PROMISE, FILE, offset, 1) && !Serves(s, 1, PROMISE, FILE, offset, 1)
    ensures InsideFile(s, FilePlan("n", offset, 1))
  {
    var plan := FilePlan("n", offset, 1);
    FilePlanned(s, size, "n", offset, 1);
    RequestAcceptedIff(s, 1, plan);
    ReadThroughServes(s, 1, PROMISE, FILE, offset, 1, plan);
    assert PlanCoalesced(Uncached(s), plan) == Ok(CoalescedPlan(plan, 0, 1));
  }

  /** A file declared with a NUL in its provider node id is committed, planned for, and never asked for. */
  lemma NulNodeRefused() returns (s: State)
    ensures Reaches(s) && s.cachePolicy.NoCache? && NUL in "\0"
    ensures PlanProviderRead(s, PROMISE, FILE, 0, 1) == Ok(FilePlan("\0", 0, 1)) && !RequestAccepted(1, FilePlan("\0", 0, 1))
  {
    s := OneFileReached(1, "\0", NoCache);
    FilePlanned(s, 1, "\0", 0, 1);
    RequestAcceptedIff(s, 1, FilePlan("\0", 0, 1));
  }

  // ---- ten promises --------------------------------------------------------

  ghost predicate Counted(s: State, n: nat) {
    && HasProvider(s, 1) && s.nextPromiseId == n + 1 && s.nextNodeId == n + 1 && s.nextInode == n + 2
    && forall pid :: pid in s.promises <==> exists i :: 1 <= i <= n && pid == PromiseName(i)
  }

  lemma CommitEmpty(s: State, n: nat) returns (t: State)
    requires Reaches(s) && Counted(s, n) && n < 100
    ensures Reaches(t) && Next(s, Commit(Fresh(1)), t) && Counted(t, n + 1)
  {
    FreshValid(1);
    assert |Fresh(1).tree.nodes| == 1;
    var committed, nodes := CommitReached(s, Fresh(1));
    t := committed;
    CountedNext(s, t, nodes, n);
  }

  lemma CountedNext(s: State, t: State, nodes: map<string, PromiseNode>, n: nat)
    requires Counted(s, n) && Committed(s, Fresh(1), t, nodes)
    ensures Counted(t, n + 1)
  {
    assert |Fresh(1).tree.nodes| == 1;
    forall pid ensures pid in t.promises <==> exists i :: 1 <= i <= n + 1 && pid == PromiseName(i) {
      if i :| 1 <= i <= n + 1 && pid == PromiseName(i) {
        assert i <= n ==> pid in s.promises;
      }
    }
  }

  /** Any small number of promises, each just a root directory. */
  lemma {:induction false} PromisesReached(n: nat) returns (s: State)
    requires n < 100
    ensures Reaches(s) && Counted(s, n)
  {
    if n == 0 {
      ProviderReached();
      s := Registered(Initial());
    } else {
      var earlier := PromisesReached(n - 1);
      s := CommitEmpty(earlier, n - 1);
    }
  }

  /**
    With nine promises, a call that has listed up to the second and a call after the tenth commit do
    not deliver a prefix of the listing, whatever the second call has room for.
   */
  lemma TenthPromiseShiftsRoot(room: nat) returns (a: State, b: State, k: nat)
    ensures Reaches(a) && Reaches(b) && Next(a, Commit(Fresh(1)), b) && k <= |InOrder(a.promises.Keys)|
    ensures !(DeliveredBy([ViewOf(a), ViewOf(b)], [k + 2, room], 2) <= ViewOf(b).entries)
  {
    a := PromisesReached(9);
    b := CommitEmpty(a, 9);
    NamesOfTwoAndTen(a, b);
    k := InOrderIndex(a.promises.Keys, "promise-2");
    k := k + 1;
    ReachedValid(a);
    FreshValid(1);
    NextKeeps(a, Commit(Fresh(1)), b);
    TenBelowTwo();
    NewcomerShifts(a, b, k, room, "promise-10");
  }

  lemma NamesOfTwoAndTen(a: State, b: State)
    requires Counted(a, 9) && Counted(b, 10)
    ensures "promise-2" in a.promises && "promise-10" !in a.promises && "promise-10" in b.promises
  {
    assert Decimal(2) == "2" && Decimal(10) == Decimal(1) + "0" == "10";
    assert PromiseName(2) == "promise-2" && PromiseName(10) == "promise-10";
    forall i | 1 <= i <= 9 ensures PromiseName(i) != PromiseName(10) {
      PromiseNames(i, 10);
    }
  }

  // ---- a closed directory --------------------------------------------------

  function ClosedSpecs(): seq<NodeSpec> {
    [NodeSpec(Directory, "a", "n", NodeAttr(0, 0, 0)), NodeSpec(Directory, "a/d", "n", NodeAttr(0x1ED, 0, 0))]
  }

  lemma OuterPath()
    ensures Normal("a") && ParentPath("a") == "" && LeafName("a") == "a" && Normalized("a") == Ok("a")
  {
    ChildSplits("", "a");
    assert ChildPath("", "a") == "a";
    ChildNormal("", "a");
    NormalizedFixpoint("a");
  }

  lemma InnerPath()
    ensures Normal("a/d") && ParentPath("a/d") == "a" && LeafName("a/d") == "d" && Normalized("a/d") == Ok("a/d")
  {
    OuterPath();
    ChildSplits("a", "d");
    assert ChildPath("a", "d") == "a/d";
    ChildNormal("a", "d");
    NormalizedFixpoint("a/d");
  }

  /** The builder accepts a directory of mode 0 with another one inside it. */
  lemma ClosedBuilder() returns (b: BuilderState)
    ensures Replay(Fresh(1), ClosedSpecs()) == Ok(b) && BuilderValid(b) && b.providerId == 1
    ensures b.tree.nodes.Keys == {"", "a", "a/d"} && |b.tree.nodes| == 3
    ensures b.tree.nodes["a"].kind.Directory? && b.tree.nodes["a"].attr == NodeAttr(0, 0, 0)
    ensures b.tree.nodes["a/d"].kind.Directory? && b.tree.nodes["a/d"].attr == NodeAttr(0x1ED, 0, 0)
  {
    var first := ClosedOuter();
    b := ClosedInner(first);
    var specs := ClosedSpecs();
    assert specs[..1] == [specs[0]] && specs[..1][..0] == [];
    assert Replay(Fresh(1), []) == Ok(Fresh(1));
    assert Replay(Fresh(1), specs[..1]) == Ok(first);
    FreshValid(1);
    ReplayValid(Fresh(1), specs);
    assert |b.tree.nodes| == |b.tree.nodes.Keys|;
  }

  lemma ClosedOuter() returns (b: BuilderState)
    ensures Added(Fresh(1), ClosedSpecs()[0]) == Ok(b) && b.providerId == 1 && b.tree.nodes.Keys == {"", "a"}
    ensures b.tree.nodes["a"].kind.Directory? && b.tree.nodes["a"].attr == NodeAttr(0, 0, 0)
  {
    OuterPath();
    assert Admitted(Fresh(1).tree, ClosedSpecs()[0]) == Ok("a");
    b := Added(Fresh(1), ClosedSpecs()[0]).value;
    assert b.tree.nodes == map["" := ROOT, "a" := NodeFrom(Fresh(1), ClosedSpecs()[0], "a")];
  }

  lemma ClosedInner(first: BuilderState) returns (b: BuilderState)
    requires first.providerId == 1 && first.tree.nodes.Keys == {"", "a"} && first.tree.nodes["a"].kind.Directory?
    ensures Added(first, ClosedSpecs()[1]) == Ok(b) && b.providerId == 1
    ensures b.tree.nodes.Keys == {"", "a", "a/d"} && b.tree.nodes["a"] == first.tree.nodes["a"]
    ensures b.tree.nodes["a/d"].kind.Directory? && b.tree.nodes["a/d"].attr == NodeAttr(0x1ED, 0, 0)
  {
    InnerPath();
    assert Admitted(first.tree, ClosedSpecs()[1]) == Ok("a/d");
    b := Added(first, ClosedSpecs()[1]).value;
    assert b.tree.nodes.Keys == {"", "a", "a/d"};
  }

  ghost predicate HoldsClosed(t: Tree) {
    && TreeValid(t) && t.nodes.Keys == {"", "a", "a/d"}
    && t.nodes["a"].kind.Directory? && t.nodes["a"].attr == NodeAttr(0, 0, 0)
    && t.nodes["a/d"].kind.Directory? && t.nodes["a/d"].attr == NodeAttr(0x1ED, 0, 0)
  }

  lemma ClosedReached() returns (s: State)
    ensures Reaches(s) && Valid(s) && PROMISE in s.promises && HoldsClosed(s.promises[PROMISE].tree)
    ensures s.promises[PROMISE].state.Available? && HasProvider(s, s.promises[PROMISE].providerId)
  {
    ProviderReached();
    var b := ClosedBuilder();
    var registered := Registered(Initial());
    var committed, nodes := CommitReached(registered, b);
    s := committed;
    ReachedValid(s);
    ClosedCommitted(b, s, nodes);
  }

  lemma ClosedCommitted(b: BuilderState, s: State, nodes: map<string, PromiseNode>)
    requires b.providerId == 1 && b.tree.nodes.Keys == {"", "a", "a/d"} && Valid(s)
    requires b.tree.nodes["a"].kind.Directory? && b.tree.nodes["a"].attr == NodeAttr(0, 0, 0)
    requires b.tree.nodes["a/d"].kind.Directory? && b.tree.nodes["a/d"].attr == NodeAttr(0x1ED, 0, 0)
    requires Committed(Registered(Initial()), b, s, nodes)
    ensures PROMISE in s.promises && HoldsClosed(s.promises[PROMISE].tree)
    ensures s.promises[PROMISE].state.Available? && HasProvider(s, s.promises[PROMISE].providerId)
  {
    assert PromiseName(1) == PROMISE by { assert Decimal(1) == "1"; }
    var i := RenumberedAt(b.tree.nodes, nodes, 1, 2, "a");
    var j := RenumberedAt(b.tree.nodes, nodes, 1, 2, "a/d");
    assert PromiseValid(s, PROMISE);
  }

  /** Materializing the closed directory over an existing one plans exactly the entries of the locked job. */
  lemma ClosedPlanned(t: Tree, read: Reader) returns (nodes: seq<PromiseNode>)
    requires HoldsClosed(t)
    ensures SubtreeOf(t, "a", nodes) && EntriesFor(["a"], "a", nodes, LockedJob(read).entries)
  {
    nodes := [t.nodes["a"], t.nodes["a/d"]];
    assert NodeValid(t, "a") && NodeValid(t, "a/d");
    assert PathsOf(nodes) == ["a", "a/d"];
    ClosedSubtree(t);
    ClosedEntries(nodes, read);
  }

  lemma ClosedEntries(nodes: seq<PromiseNode>, read: Reader)
    requires |nodes| == 2 && nodes[0].relativePath == "a" && nodes[1].relativePath == "a/d"
    requires nodes[0].kind.Directory? && nodes[0].attr == NodeAttr(0, 0, 0)
    requires nodes[1].kind.Directory? && nodes[1].attr == NodeAttr(0x1ED, 0, 0)
    ensures EntriesFor(["a"], "a", nodes, LockedJob(read).entries)
  {
    var entries := LockedJob(read).entries;
    ClosedSuffixes();
    assert EntryFor(["a"], "a", nodes[0], entries[0]) && EntryFor(["a"], "a", nodes[1], entries[1]);
  }

  lemma ClosedSuffixes()
    ensures Suffix("a", "a") == Ok("") && Suffix("a", "a/d") == Ok("d")
    ensures TargetOf(["a"], "a", "a") == ["a"] && TargetOf(["a"], "a", "a/d") == ["a", "d"]
  {
    assert LastSlash("d") == None;
    assert Split("d") == ["d"];
    assert ["a"] + ["d"] == ["a", "d"];
  }

  lemma ClosedSubtree(t: Tree)
    requires HoldsClosed(t)
    ensures ExactSubtree(t, "a", ["a", "a/d"])
  {
    OuterPath();
    InnerPath();
    var paths := ["a", "a/d"];
    assert !Under("a", "") && Under("a", "a") && Under("a", "a/d");
    forall q ensures Listed(paths, q, q in t.nodes && Under("a", q)) {
    }
    assert ParentsFirst(paths, "a");
  }

  ghost function NoTrouble(): Trouble {
    (p: LocalPath) => None
  }

  /**
    A real request whose rollback can fail: a reachable promise, a disk where its directory exists,
    and the plan of the locked job, whose declared modes do not stay open.
   */
  lemma ClosedDirectoryIsReal(read: Reader) returns (s: State, nodes: seq<PromiseNode>)
    ensures Reaches(s) && !StaysOpen(LockedJob(read))
    ensures PlannedWell(s, LockedJob(read).before, NoTrouble(), PROMISE, "a", [], Overwrite, nodes, LockedJob(read).entries)
  {
    s := ClosedReached();
    var t, job := s.promises[PROMISE].tree, LockedJob(read);
    nodes := ClosedPlanned(t, read);
    PlanIsSound(t, "a", nodes, ["a"], job.entries);
    LockedNotOpen(read);
    LockedUnblocked(read);
    assert ParentOf(["a"]) == [];
  }

  lemma LockedUnblocked(read: Reader)
    ensures forall e :: e in LockedJob(read).entries ==> !Blocked(LockedJob(read).before, NoTrouble(), e, Overwrite)
  {
  }

  lemma LockedNotOpen(read: Reader)
    ensures !StaysOpen(LockedJob(read))
  {
    var job := LockedJob(read);
    var e := job.entries[1];
    assert e in job.entries && ParentOf(["a", "d"]) == ["a"] && ParentOf(["a"]) == [];
    assert Reachable(job.before, []) && Reachable(job.before, ["a"]) && Editable(job.before, e.target);
    assert job.entries[..1] == [job.entries[0]];
    assert DeclaredMode(job.entries, ["a"]) == DeclaredMode(job.entries[..1], ["a"]) == Some(0);
    assert !Searchable(Declared(job)[["a"]]);
    assert !EntryStaysOpen(job, e);
  }
}
