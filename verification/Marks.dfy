/** The last step of a materialize run: every planned node is marked with its local path. */
module Marks {
  import opened Base
  import opened Cache
  import opened Copy
  import opened Disk
  import opened Lifecycle
  import opened MaterializeJob
  import opened MaterializeNode
  import opened Paths
  import opened ReadRun
  import opened Runtime
  import opened TargetPlan
  import opened Tree

  function Rendered(p: LocalPath): string {
    if p == [] then "" else Rendered(ParentOf(p)) + "/" + p[|p| - 1]
  }

  /** What the entries mark a path with, if they do. */
  function LastMark(entries: seq<Entry>, p: string): Option<string> {
    if entries == [] then None
    else
      var last := entries[|entries| - 1];
      if last.relativePath == p then Some(Rendered(last.target)) else LastMark(entries[..|entries| - 1], p)
  }

  ghost predicate MarkMade(before: State, after: State, pid: string, entries: seq<Entry>, p: string)
    requires NodeAt(before, pid, p)
  {
    && NodeAt(after, pid, p)
    && var mark, node := LastMark(entries, p), Node(before, pid, p);
       Node(after, pid, p) == if mark.Some? then node.(materializedPath := mark) else node
  }

  /** The entries' nodes carry their marks and every other node of the promise is untouched. */
  ghost predicate MarksMade(before: State, after: State, pid: string, entries: seq<Entry>) {
    forall p {:trigger MarkMade(before, after, pid, entries, p)} :: NodeAt(before, pid, p) ==> MarkMade(before, after, pid, entries, p)
  }

  lemma MarkOne(before: State, now: State, next: State, pid: string, entries: seq<Entry>, i: nat)
    requires i < |entries| && MarksMade(before, now, pid, entries[..i])
    requires MarkStatus(now, pid, entries[i].relativePath).None?
    requires Normalized(entries[i].relativePath) == Ok(entries[i].relativePath)
    requires next == Marked(now, pid, entries[i].relativePath, Rendered(entries[i].target))
    ensures MarksMade(before, next, pid, entries[..i + 1])
  {
    assert entries[..i + 1][..i] == entries[..i];
    forall p {:trigger MarkMade(before, next, pid, entries[..i + 1], p)} | NodeAt(before, pid, p)
      ensures MarkMade(before, next, pid, entries[..i + 1], p)
    {
      assert MarkMade(before, now, pid, entries[..i], p);
    }
  }

  /** The entries were planned for a promise of that runtime. */
  ghost predicate PlannedIn(planned: State, pid: string, entries: seq<Entry>) {
    Valid(planned) && pid in planned.promises && forall e :: e in entries ==> PlannedEntry(planned, pid, e)
  }

  ghost predicate PlannedEntry(planned: State, pid: string, e: Entry) {
    forall later :: Valid(later) && Evolves(planned, later) ==> Markable(later, pid, e)
  }

  ghost predicate Markable(s: State, pid: string, e: Entry) {
    && MarkStatus(s, pid, e.relativePath).None? && Normalized(e.relativePath) == Ok(e.relativePath)
    && NodeAt(s, pid, e.relativePath)
  }

  lemma PlanIsMarkable(planned: State, pid: string, source: string, nodes: seq<PromiseNode>, root: LocalPath, entries: seq<Entry>)
    requires Valid(planned) && pid in planned.promises && SubtreeOf(planned.promises[pid].tree, source, nodes)
    requires EntriesFor(root, source, nodes, entries)
    ensures PlannedIn(planned, pid, entries)
  {
    forall e, later | e in entries && Valid(later) && Evolves(planned, later) ensures Markable(later, pid, e) {
      MarkCannotFail(planned, later, pid, source, nodes, root, entries, e);
    }
  }

  /** The first `i` entries are marked, and the runtime is still a later one of the planned runtime. */
  ghost predicate MarkedUpTo(planned: State, start: State, now: State, pid: string, entries: seq<Entry>, i: nat)
    requires i <= |entries|
  {
    Valid(now) && Evolves(planned, now) && MarksMade(start, now, pid, entries[..i])
  }

  lemma MarkStep(planned: State, start: State, now: State, next: State, pid: string, entries: seq<Entry>, i: nat)
    requires i < |entries| && PlannedIn(planned, pid, entries) && MarkedUpTo(planned, start, now, pid, entries, i)
    requires Next(now, Mark(pid, entries[i].relativePath, Rendered(entries[i].target)), next)
    ensures MarkStatus(now, pid, entries[i].relativePath).None? && MarkedUpTo(planned, start, next, pid, entries, i + 1)
  {
    assert PlannedEntry(planned, pid, entries[i]);
    assert Markable(now, pid, entries[i]);
    NextKeeps(now, Mark(pid, entries[i].relativePath, Rendered(entries[i].target)), next);
    EvolvesTransitive(planned, now, next);
    MarkOne(start, now, next, pid, entries, i);
  }

  /** Whatever happened to the runtime since planning, no mark fails. */
  method MarkAll(runtime: Runtime, pid: string, entries: seq<Entry>, ghost planned: State) returns (r: Result<()>)
    requires PlannedIn(planned, pid, entries) && Valid(runtime.View()) && Evolves(planned, runtime.View())
    modifies runtime
    ensures r == Ok(()) && Valid(runtime.View()) && Evolves(planned, runtime.View())
    ensures MarksMade(old(runtime.View()), runtime.View(), pid, entries)
  {
    for i := 0 to |entries|
      invariant MarkedUpTo(planned, old(runtime.View()), runtime.View(), pid, entries, i)
    {
      ghost var now := runtime.View();
      r := runtime.MarkNodeMaterialized(pid, entries[i].relativePath, Rendered(entries[i].target));
      MarkStep(planned, old(runtime.View()), now, runtime.View(), pid, entries, i);
      if r.Err? {
        assert false;
      }
    }
    assert entries[..|entries|] == entries;
    return Ok(());
  }

  /** In a plan each node is marked once, with its own target. */
  lemma {:induction false} MarkedWithTarget(entries: seq<Entry>, i: nat)
    requires i < |entries|
    requires forall j, k :: 0 <= j < k < |entries| ==> entries[j].relativePath != entries[k].relativePath
    ensures LastMark(entries, entries[i].relativePath) == Some(Rendered(entries[i].target))
  {
    if i < |entries| - 1 {
      MarkedWithTarget(entries[..|entries| - 1], i);
    }
  }

  // ---- marks tell the truth ------------------------------------------------

  lemma Appended(q: LocalPath, n: string, p: LocalPath)
    requires p != [] && q == ParentOf(p) && n == p[|p| - 1]
    ensures [""] + q + [n] == [""] + p
  {
  }

  /** A rendered path is absolute and splits into the path's own components. */
  lemma {:induction false} RenderedSplits(p: LocalPath)
    requires PlainPath(p)
    ensures Split(Rendered(p)) == [""] + p
    decreases |p|
  {
    if p != [] {
      var q, n := ParentOf(p), p[|p| - 1];
      RenderedSplits(q);
      SplitSnoc(Rendered(q), n);
      Appended(q, n, p);
    }
  }

  /** Rendering keeps plain paths apart. */
  lemma RenderedInjective(p: LocalPath, q: LocalPath)
    requires PlainPath(p) && PlainPath(q) && Rendered(p) == Rendered(q)
    ensures p == q
  {
    RenderedSplits(p);
    RenderedSplits(q);
    assert p == ([""] + p)[1..] && q == ([""] + q)[1..];
  }

  /** `files` holds the content of every file of the disk under its rendered path. */
  ghost predicate Reflects(files: map<string, seq<Byte>>, disk: Nodes) {
    forall p {:trigger Rendered(p)} :: p in disk && disk[p].FileNode? ==> Rendered(p) in files && files[Rendered(p)] == disk[p].content
  }

  ghost predicate AllPlain(disk: Nodes) {
    forall p :: p in disk ==> PlainPath(p)
  }

  ghost function FilePaths(disk: Nodes): set<LocalPath> {
    set p | p in disk && disk[p].FileNode?
  }

  /** A disk of plain paths can be read as a map from rendered paths to contents. */
  lemma {:induction false} ReflectionExists(disk: Nodes, paths: set<LocalPath>) returns (files: map<string, seq<Byte>>)
    requires AllPlain(disk) && paths <= FilePaths(disk)
    ensures forall p {:trigger Rendered(p)} :: p in paths ==> Rendered(p) in files && files[Rendered(p)] == disk[p].content
    ensures forall r :: r in files ==> exists p :: p in paths && Rendered(p) == r
    ensures paths == FilePaths(disk) ==> Reflects(files, disk)
    decreases paths
  {
    if paths == {} {
      files := map[];
    } else {
      var q :| q in paths;
      var fewer := ReflectionExists(disk, paths - {q});
      files := fewer[Rendered(q) := disk[q].content];
      forall p {:trigger Rendered(p)} | p in paths ensures Rendered(p) in files && files[Rendered(p)] == disk[p].content {
        if p != q && Rendered(p) == Rendered(q) {
          RenderedInjective(p, q);
        }
      }
    }
  }

  /** Every file of the plan is read from chunks that are true to its content. */
  ghost predicate TrueChunks(read: Reader, pid: string, entries: seq<Entry>, content: Contents) {
    forall e :: e in entries && e.kind.File? ==> TrueSource(read, e.relativePath, content(CacheKey(pid, e.relativePath)))
  }

  /**
    After a successful run on true chunks every mark is honest: in every later runtime whose declared
    sizes are true and every file system that holds what the run placed, the marked file has its content.
   */
  lemma MarksAreHonest(planned: State, job: Job, disk: Nodes, pid: string, w: World, next: State, content: Contents, e: Entry)
    requires PlannedIn(planned, pid, job.entries) && Placed(job, disk) && TrueChunks(job.read, pid, job.entries, content)
    requires Valid(w.runtime) && Evolves(planned, w.runtime) && SizesMatch(w.runtime, content) && Reflects(w.disk, disk)
    requires e in job.entries && Carries(w.runtime, pid, e)
    ensures Honest(w, Mark(pid, e.relativePath, Rendered(e.target)), next, content)
  {
    assert PlannedEntry(planned, pid, e);
    assert Markable(w.runtime, pid, e);
    if e.kind.File? {
      MarkedSize(w.runtime, content, pid, e);
      PlacedIsExact(job, disk, e, content(CacheKey(pid, e.relativePath)));
      assert Rendered(e.target) in w.disk;
    }
  }

  /** The runtime's node is the one that was planned for. */
  ghost predicate Carries(s: State, pid: string, e: Entry) {
    && NodeAt(s, pid, e.relativePath)
    && Node(s, pid, e.relativePath).kind == e.kind && Node(s, pid, e.relativePath).attr.size == e.size
  }

  lemma MarkedSize(s: State, content: Contents, pid: string, e: Entry)
    requires SizesMatch(s, content) && Carries(s, pid, e) && e.kind.File?
    ensures |content(CacheKey(pid, e.relativePath))| == e.size
  {
  }

  /** A successful request on true chunks: in every later world that holds its files, each of its marks is honest. */
  lemma RequestMarksHonestly(s: State, before: Nodes, trouble: Trouble, pid: string, source: string, dir: LocalPath,
                             policy: ConflictPolicy, nodes: seq<PromiseNode>, entries: seq<Entry>, read: Reader, after: Nodes,
                             w: World, next: State, content: Contents, e: Entry)
    requires Valid(s) && PlannedWell(s, before, trouble, pid, source, dir, policy, nodes, entries)
    requires Placed(Job(before, entries, policy, read), after) && TrueChunks(read, pid, entries, content)
    requires Valid(w.runtime) && Evolves(s, w.runtime) && SizesMatch(w.runtime, content) && Reflects(w.disk, after)
    requires e in entries
    ensures Honest(w, Mark(pid, e.relativePath, Rendered(e.target)), next, content)
  {
    PlanIsMarkable(s, pid, source, nodes, entries[0].target, entries);
    MarkCannotFail(s, w.runtime, pid, source, nodes, entries[0].target, entries, e);
    MarksAreHonest(s, Job(before, entries, policy, read), after, pid, w, next, content, e);
  }

  /** The disk after such a request can be held by a world: its paths are plain if they were before. */
  lemma RequestStaysPlain(s: State, before: Nodes, trouble: Trouble, pid: string, source: string, dir: LocalPath,
                          policy: ConflictPolicy, nodes: seq<PromiseNode>, entries: seq<Entry>, read: Reader, after: Nodes)
    requires Valid(s) && PlannedWell(s, before, trouble, pid, source, dir, policy, nodes, entries)
    requires Placed(Job(before, entries, policy, read), after) && AllPlain(before)
    ensures AllPlain(after) && exists files :: Reflects(files, after)
  {
    var root := entries[0].target;
    assert PromiseValid(s, pid);
    assert PlainPath(root) by {
      assert root == dir + [root[|root| - 1]];
    }
    forall p | p in after ensures PlainPath(p) {
      if p in Targets(entries) {
        var e :| e in entries && e.target == p;
        PlanIsPlain(s.promises[pid].tree, source, nodes, root, entries, e);
      }
    }
    var files := ReflectionExists(after, FilePaths(after));
  }
}
