/** A whole materialize request: plan against the runtime and the disk, then run. */
module MaterializeNode {
  import opened Base
  import opened Copy
  import opened Disk
  import opened Materialize
  import opened MaterializeJob
  import opened Paths
  import opened Runtime
  import opened TargetPlan
  import opened Tree
  import opened Walk

  /** A component as the source path is split into: never empty, never '.' or '..'. */
  predicate Component(part: string) {
    part != "" && part != "." && part != ".." && '/' !in part
  }

  lemma {:induction false} JoinKeepsNul(parts: seq<string>)
    requires NUL !in Join(parts)
    ensures forall part :: part in parts ==> NUL !in part
  {
    if parts != [] {
      var init, last := parts[..|parts| - 1], parts[|parts| - 1];
      assert parts == init + [last];
      assert forall c :: c in Join(init) || c in last ==> c in Join(parts) by {
        if Join(init) != "" {
          assert Join(parts) == Join(init) + "/" + last;
        }
      }
      JoinKeepsNul(init);
    }
  }

  /** The joined source path is its own normal form, unless it is refused. */
  lemma SourceIsNormal(parts: seq<string>)
    requires forall part :: part in parts ==> Component(part)
    ensures Normalized(Join(parts)).Ok? ==> Normalized(Join(parts)) == Ok(Join(parts))
  {
    if Normalized(Join(parts)).Ok? {
      JoinKeepsNul(parts);
      JoinNormal(parts);
      NormalizedFixpoint(Join(parts));
    }
  }

  /** What the request needs before anything about targets matters. */
  ghost predicate Plannable(s: State, disk: Nodes, pid: string, source: string, dir: LocalPath) {
    && dir in disk && disk[dir].DirectoryNode?
    && pid in s.promises && s.promises[pid].state.Available? && HasProvider(s, s.promises[pid].providerId)
    && source in s.promises[pid].tree.nodes
  }

  /** What the request asks for by name: the last component of its path, or the promise itself. */
  function Leaf(pid: string, parts: seq<string>): string {
    if parts == [] then pid else parts[|parts| - 1]
  }

  lemma JoinLeaf(pid: string, parts: seq<string>)
    requires forall part :: part in parts ==> Component(part)
    ensures Leaf(pid, parts) == if Join(parts) == "" then pid else LeafName(Join(parts))
  {
    if parts != [] {
      assert Component(parts[|parts| - 1]);
      ChildSplits(Join(parts[..|parts| - 1]), parts[|parts| - 1]);
    }
  }

  /** The subtree goes under the asked name or, under Rename, under its first candidate that is not taken. */
  ghost predicate RootNamed(disk: Nodes, trouble: Trouble, dir: LocalPath, leaf: string, kind: NodeKind, policy: ConflictPolicy, root: LocalPath) {
    if policy.Rename? then
      root !in disk && exists n :: 0 <= n < RENAME_ATTEMPTS && root == CandidatePath(dir, leaf, kind, n) && TakenUpTo(disk, trouble, dir, leaf, kind, n)
    else root == dir + [leaf]
  }

  /** The entries are the subtree in pre-order, soundly placed under one plain name, with nothing in the way. */
  ghost predicate PlannedWell(s: State, disk: Nodes, trouble: Trouble, pid: string, source: string, dir: LocalPath, policy: ConflictPolicy,
                              nodes: seq<PromiseNode>, entries: seq<Entry>)
  {
    && Plannable(s, disk, pid, source, dir) && entries != []
    && var root := entries[0].target;
       && root != [] && ParentOf(root) == dir && PlainName(root[|root| - 1])
       && SubtreeOf(s.promises[pid].tree, source, nodes) && EntriesFor(root, source, nodes, entries) && SoundPlan(root, entries)
       && (forall e :: e in entries ==> !Blocked(disk, trouble, e, policy))
       && (!policy.Overwrite? ==> root !in disk)
  }

  /** Something else than the node is where it belongs: a symlink, or the other kind. */
  ghost predicate Clash(disk: Nodes, root: LocalPath, source: string, node: PromiseNode) {
    && Suffix(source, node.relativePath).Ok? && TargetOf(root, source, node.relativePath) in disk
    && var there := disk[TargetOf(root, source, node.relativePath)];
       !(if node.kind.Directory? then there.DirectoryNode? else there.FileNode?)
  }

  ghost predicate Clashes(disk: Nodes, root: LocalPath, source: string, nodes: seq<PromiseNode>) {
    exists i :: 0 <= i < |nodes| && Clash(disk, root, source, nodes[i])
  }

  /** The node's target cannot be examined, or what is there must not be replaced by it. */
  ghost predicate InTheWay(disk: Nodes, trouble: Trouble, root: LocalPath, source: string, node: PromiseNode, policy: ConflictPolicy) {
    && Suffix(source, node.relativePath).Ok?
    && Obstacle(disk, trouble, TargetOf(root, source, node.relativePath), node.kind, policy).Some?
  }

  ghost predicate SomethingInTheWay(disk: Nodes, trouble: Trouble, root: LocalPath, source: string, nodes: seq<PromiseNode>,
                                    policy: ConflictPolicy)
  {
    exists i :: 0 <= i < |nodes| && InTheWay(disk, trouble, root, source, nodes[i], policy)
  }

  lemma BlockedIff(disk: Nodes, trouble: Trouble, root: LocalPath, source: string, nodes: seq<PromiseNode>, entries: seq<Entry>,
                   policy: ConflictPolicy)
    requires EntriesFor(root, source, nodes, entries)
    ensures (exists e :: e in entries && Blocked(disk, trouble, e, policy)) <==>
            SomethingInTheWay(disk, trouble, root, source, nodes, policy)
  {
    if e :| e in entries && Blocked(disk, trouble, e, policy) {
      var i :| 0 <= i < |entries| && entries[i] == e;
      assert EntryFor(root, source, nodes[i], entries[i]);
      assert InTheWay(disk, trouble, root, source, nodes[i], policy);
    }
    if i :| 0 <= i < |nodes| && InTheWay(disk, trouble, root, source, nodes[i], policy) {
      assert EntryFor(root, source, nodes[i], entries[i]);
      assert entries[i] in entries && Blocked(disk, trouble, entries[i], policy);
    }
  }

  /** Everything in and below the directory can be examined. */
  ghost predicate Untroubled(trouble: Trouble, dir: LocalPath) {
    forall p {:trigger trouble(p)} :: dir <= p ==> trouble(p).None?
  }

  /** `materialize_target_path`. */
  method RootTarget(disk: Nodes, trouble: Trouble, dir: LocalPath, name: string, kind: NodeKind, policy: ConflictPolicy)
    returns (r: Result<LocalPath>)
    requires PlainName(name)
    ensures r.Ok? ==> r.value != [] && ParentOf(r.value) == dir && PlainName(r.value[|r.value| - 1])
    ensures r.Ok? ==> RootNamed(disk, trouble, dir, name, kind, policy, r.value)
    ensures r.Err? ==> policy.Rename? && NoCandidate(disk, trouble, dir, name, kind, r.status)
  {
    if !policy.Rename? {
      return Ok(dir + [name]);
    }
    r := UniqueTarget(disk, trouble, dir, name, kind);
    if r.Ok? {
      ghost var n :| 0 <= n < RENAME_ATTEMPTS && r.value == CandidatePath(dir, name, kind, n);
      CandidateIsPlain(name, kind, n);
    }
  }

  /** Under Rename: why a plannable request is refused. */
  ghost predicate NoRoom(disk: Nodes, trouble: Trouble, dir: LocalPath, name: string, kind: NodeKind, source: string,
                         nodes: seq<PromiseNode>, status: Status)
  {
    || NoCandidate(disk, trouble, dir, name, kind, status)
    || exists root :: root !in disk && root != [] && ParentOf(root) == dir && SomethingInTheWay(disk, trouble, root, source, nodes, Rename)
  }

  /**
    `plan_materialize`.  A plannable request is refused, without Rename, exactly when a target cannot
    be examined or is in the way; with nothing wrong with the disk that is under Fail when the root
    target exists, under Overwrite when a target is a symlink or of the other kind, and under Rename
    when all 1024 names are taken.
   */
  method PlanMaterialize(s: State, disk: Nodes, trouble: Trouble, pid: string, parts: seq<string>, dir: LocalPath, policy: ConflictPolicy)
    returns (r: Result<seq<Entry>>, ghost nodes: seq<PromiseNode>)
    requires Valid(s) && DiskValid(disk) && forall part :: part in parts ==> Component(part)
    ensures r.Ok? ==> PlannedWell(s, disk, trouble, pid, Join(parts), dir, policy, nodes, r.value)
    ensures r.Ok? ==> Plannable(s, disk, pid, Join(parts), dir) && r.value != [] && SoundPlan(r.value[0].target, r.value)
    ensures r.Ok? ==> var kind := s.promises[pid].tree.nodes[Join(parts)].kind;
                      RootNamed(disk, trouble, dir, Leaf(pid, parts), kind, policy, r.value[0].target)
    ensures trouble(dir).Some? ==> r == Err(trouble(dir).value)
    ensures Plannable(s, disk, pid, Join(parts), dir) && trouble(dir).None? ==>
      && SubtreeOf(s.promises[pid].tree, Join(parts), nodes)
      && PlanAnswer(disk, trouble, Leaf(pid, parts), Join(parts), dir, policy, s.promises[pid].tree.nodes[Join(parts)].kind, nodes, r)
  {
    nodes := [];
    var failure := trouble(dir);
    if failure.Some? {
      return Err(failure.value), nodes;
    }
    if dir !in disk {
      return Err(NotFound), nodes;
    }
    if !disk[dir].DirectoryNode? {
      return Err(InvalidArgument), nodes;
    }
    var source := Join(parts);
    if pid !in s.promises {
      return Err(NotFound), nodes;
    }
    var promise := s.promises[pid];
    if !promise.state.Available? || !HasProvider(s, promise.providerId) {
      return Err(Status.ProviderGone), nodes;
    }
    assert PromiseValid(s, pid);
    SourceIsNormal(parts);
    if source in promise.tree.nodes {
      assert NodeValid(promise.tree, source);
      NormalizedFixpoint(source);
    }
    var walked := SubtreeNodes(promise.tree, source);
    if walked.Err? {
      return Err(walked.status), nodes;
    }
    nodes := walked.value;
    PromiseIsPlain(s, pid);
    JoinLeaf(pid, parts);
    r := PlanTargets(s, disk, trouble, pid, source, dir, policy, walked.value, Leaf(pid, parts));
  }

  lemma PromiseIsPlain(s: State, pid: string)
    requires Valid(s) && pid in s.promises
    ensures PlainName(pid)
  {
    var n :| Numbered(s, pid, n);
    PromiseNames(n, n);
  }

  /** When and why targets cannot be planned for the walked nodes. */
  ghost predicate PlanAnswer(disk: Nodes, trouble: Trouble, name: string, source: string, dir: LocalPath, policy: ConflictPolicy,
                             kind: NodeKind, nodes: seq<PromiseNode>, r: Result<seq<Entry>>)
  {
    && (!policy.Rename? ==> (r.Err? <==> SomethingInTheWay(disk, trouble, dir + [name], source, nodes, policy)))
    && (policy.Rename? && r.Err? ==> NoRoom(disk, trouble, dir, name, kind, source, nodes, r.status))
    && (Untroubled(trouble, dir) && policy.Fail? ==> (r.Err? <==> dir + [name] in disk))
    && (Untroubled(trouble, dir) && policy.Overwrite? ==> (r.Err? <==> Clashes(disk, dir + [name], source, nodes)))
    && (Untroubled(trouble, dir) && policy.Rename? && r.Err? ==> TakenUpTo(disk, trouble, dir, name, kind, RENAME_ATTEMPTS))
  }

  method PlanTargets(s: State, disk: Nodes, trouble: Trouble, pid: string, source: string, dir: LocalPath, policy: ConflictPolicy,
                     nodes: seq<PromiseNode>, ghost leaf: string)
    returns (r: Result<seq<Entry>>)
    requires leaf == if source == "" then pid else LeafName(source)
    requires DiskValid(disk) && Plannable(s, disk, pid, source, dir) && PlainName(pid)
    requires TreeValid(s.promises[pid].tree) && SubtreeOf(s.promises[pid].tree, source, nodes)
    ensures r.Ok? ==> PlannedWell(s, disk, trouble, pid, source, dir, policy, nodes, r.value)
    ensures r.Ok? ==> RootNamed(disk, trouble, dir, leaf, s.promises[pid].tree.nodes[source].kind, policy, r.value[0].target)
    ensures PlanAnswer(disk, trouble, leaf, source, dir, policy, s.promises[pid].tree.nodes[source].kind, nodes, r)
  {
    ghost var t := s.promises[pid].tree;
    FirstIsSource(t, source, nodes);
    var name := if nodes[0].relativePath == "" then pid else nodes[0].name;
    var root := RootTarget(disk, trouble, dir, name, nodes[0].kind, policy);
    if root.Err? {
      NoCandidateUntroubled(disk, trouble, dir, name, nodes[0].kind, root.status);
      return Err(root.status);
    }
    SubtreeSuffixes(t, source, nodes);
    var entries := PlanEntries(root.value, source, nodes);
    if entries.Err? {
      assert false;
    }
    PlanIsSound(t, source, nodes, root.value, entries.value);
    if !policy.Overwrite? {
      PreflightIffRootFree(disk, trouble, t, source, nodes, root.value, entries.value, policy);
      BelowDirectory(trouble, dir, root.value, source, nodes, entries.value);
    } else {
      OverwriteStopsAtClash(disk, trouble, dir, root.value, source, nodes);
    }
    BlockedIff(disk, trouble, root.value, source, nodes, entries.value, policy);
    var conflict := Preflight(disk, trouble, entries.value, policy);
    if conflict.Some? {
      return Err(conflict.value);
    }
    return Ok(entries.value);
  }

  lemma FirstIsSource(t: Tree, source: string, nodes: seq<PromiseNode>)
    requires TreeValid(t) && SubtreeOf(t, source, nodes)
    ensures nodes != [] && source in t.nodes && nodes[0] == t.nodes[source] && nodes[0].relativePath == source
    ensures source != "" ==> nodes[0].name == LeafName(source) && PlainName(LeafName(source))
  {
    assert PathsOf(nodes)[0] == source && nodes[0] in nodes;
    assert NodeValid(t, source);
    if source != "" {
      LeafIsPlain(source);
    }
  }

  lemma NoCandidateUntroubled(disk: Nodes, trouble: Trouble, dir: LocalPath, name: string, kind: NodeKind, status: Status)
    ensures NoCandidate(disk, trouble, dir, name, kind, status) && Untroubled(trouble, dir) ==>
            TakenUpTo(disk, trouble, dir, name, kind, RENAME_ATTEMPTS)
  {
    forall n: nat ensures dir <= CandidatePath(dir, name, kind, n) {
    }
  }

  lemma PathBelow(dir: LocalPath, root: LocalPath, more: seq<string>)
    requires root != [] && ParentOf(root) == dir
    ensures dir <= root + more
  {
    assert root == dir + [root[|root| - 1]];
  }

  lemma BelowDirectory(trouble: Trouble, dir: LocalPath, root: LocalPath, source: string, nodes: seq<PromiseNode>, entries: seq<Entry>)
    requires EntriesFor(root, source, nodes, entries) && root != [] && ParentOf(root) == dir
    ensures Untroubled(trouble, dir) ==> forall e :: e in entries ==> trouble(e.target).None?
  {
    if Untroubled(trouble, dir) {
      forall e | e in entries ensures trouble(e.target).None? {
        var i :| 0 <= i < |entries| && entries[i] == e;
        assert EntryFor(root, source, nodes[i], entries[i]);
        PathBelow(dir, root, Parts(Suffix(source, e.relativePath).value));
      }
    }
  }

  lemma OverwriteStopsAtClash(disk: Nodes, trouble: Trouble, dir: LocalPath, root: LocalPath, source: string, nodes: seq<PromiseNode>)
    requires root != [] && ParentOf(root) == dir
    ensures Untroubled(trouble, dir) ==>
      (SomethingInTheWay(disk, trouble, root, source, nodes, Overwrite) <==> Clashes(disk, root, source, nodes))
  {
    if Untroubled(trouble, dir) {
      forall i | 0 <= i < |nodes| ensures InTheWay(disk, trouble, root, source, nodes[i], Overwrite) <==> Clash(disk, root, source, nodes[i]) {
        if Suffix(source, nodes[i].relativePath).Ok? {
          PathBelow(dir, root, Parts(Suffix(source, nodes[i].relativePath).value));
        }
      }
    }
  }

  /** Entries may be made in the directory. */
  ghost predicate OpenDirectory(disk: Nodes, dir: LocalPath) {
    dir in disk && Searchable(disk[dir]) && Writable(disk[dir]) && Reachable(disk, dir)
  }

  /**
    `materialize_node_in_state` from the request on.  A failed plan leaves the disk alone; after
    that success places the whole subtree and failure rolls back, for every failure point, unless a
    declared mode shuts the owner out of a reused directory; a planned request fails only if a call,
    a report or a chunk fails or, under Overwrite, the disk does not allow it.
   */
  method MaterializeRequest(engine: Engine, s: State, trouble: Trouble, pid: string, parts: seq<string>, dir: LocalPath,
                            policy: ConflictPolicy, read: Reader, stuck: set<LocalPath>)
    returns (r: Result<Progress>, ghost nodes: seq<PromiseNode>, ghost entries: seq<Entry>, ghost late: bool)
    requires Valid(s) && DiskValid(engine.nodes) && Bounded(read) && forall part :: part in parts ==> Component(part)
    requires engine.created == [] && engine.stray == {}
    modifies engine
    ensures r.Ok? ==> entries != [] && Placed(Job(old(engine.nodes), entries, policy, read), engine.nodes)
    ensures entries != [] ==> PlannedWell(s, old(engine.nodes), trouble, pid, Join(parts), dir, policy, nodes, entries)
    ensures entries != [] ==> var kind := s.promises[pid].tree.nodes[Join(parts)].kind;
                              RootNamed(old(engine.nodes), trouble, dir, Leaf(pid, parts), kind, policy, entries[0].target)
    ensures entries == [] ==> r.Err? && engine.nodes == old(engine.nodes)
    ensures var job := Job(old(engine.nodes), entries, policy, read);
            && (r.Err? && engine.stray == {} && stuck == {} && StaysOpen(job) ==> RolledBack(job, engine.nodes))
            && (r.Err? && late && stuck == {} ==> (RolledBack(job, engine.nodes) <==> StaysOpen(job)))
            && (engine.smooth && entries != [] && Favourable(job, entries[0].target, engine.processId) ==> r.Ok?)
    ensures r.Err? && !policy.Overwrite? && engine.stray == {} && stuck == {} ==> engine.nodes == old(engine.nodes)
    ensures engine.smooth && !policy.Overwrite? && entries != [] && OpenDirectory(old(engine.nodes), dir) && AllReadable(entries, read) ==>
      r.Ok?
  {
    entries, late := [], false;
    ghost var before := engine.nodes;
    var plan;
    plan, nodes := PlanMaterialize(s, engine.nodes, trouble, pid, parts, dir, policy);
    if plan.Err? {
      NothingDone(Job(engine.nodes, [], policy, read));
      return Err(plan.status), nodes, entries, late;
    }
    entries := plan.value;
    r, late := engine.Run(plan.value, policy, read, stuck);
    if !policy.Overwrite? {
      FreshRequest(engine.processId, s, before, trouble, pid, Join(parts), dir, policy, nodes, entries, read);
    }
  }

  /** Without Overwrite nothing can shut the owner out, and an open directory is all that a plan needs. */
  lemma FreshRequest(processId: nat, s: State, disk: Nodes, trouble: Trouble, pid: string, source: string, dir: LocalPath,
                     policy: ConflictPolicy, nodes: seq<PromiseNode>, entries: seq<Entry>, read: Reader)
    requires DiskValid(disk) && PlannedWell(s, disk, trouble, pid, source, dir, policy, nodes, entries) && !policy.Overwrite?
    ensures StaysOpen(Job(disk, entries, policy, read))
    ensures OpenDirectory(disk, dir) && AllReadable(entries, read) ==>
            Favourable(Job(disk, entries, policy, read), entries[0].target, processId)
  {
    var job, root := Job(disk, entries, policy, read), entries[0].target;
    WithoutOverwriteStaysOpen(job);
    if OpenDirectory(disk, dir) && AllReadable(entries, read) {
      FreeRootIsFavourable(job, root, processId);
    }
  }

  lemma NothingDone(job: Job)
    ensures RolledBack(job, job.before)
  {
  }

  lemma SubtreeHas(t: Tree, source: string, nodes: seq<PromiseNode>, p: string) returns (i: nat)
    requires SubtreeOf(t, source, nodes) && p in t.nodes && Under(source, p)
    ensures i < |nodes| && nodes[i] == t.nodes[p] && nodes[i].relativePath == p
  {
    var paths := PathsOf(nodes);
    assert Listed(paths, p, p in t.nodes && Under(source, p));
    assert p in paths;
    i :| 0 <= i < |paths| && paths[i] == p;
    assert nodes[i] in nodes;
  }

  lemma EntryPlaced(job: Job, now: Nodes, e: Entry)
    requires Placed(job, now) && e in job.entries && e.mode <= 0xFFF
    ensures e.target in now && (if e.kind.Directory? then now[e.target].DirectoryNode? else now[e.target].FileNode?)
    ensures now[e.target].mode == e.mode
  {
    assert if e.kind.File? then FilePlaced(job, now, e) else DirectoryPlaced(now, e);
  }

  /** After a successful run every node of the subtree is there, below the root target, of its kind and with its declared mode. */
  lemma PlacedAsDeclared(s: State, job: Job, trouble: Trouble, pid: string, source: string, dir: LocalPath, nodes: seq<PromiseNode>,
                         now: Nodes, p: string)
    requires Valid(s) && PlannedWell(s, job.before, trouble, pid, source, dir, job.policy, nodes, job.entries) && Placed(job, now)
    requires NodeAt(s, pid, p) && Under(source, p)
    ensures Suffix(source, p).Ok?
    ensures var node, target := Node(s, pid, p), TargetOf(job.entries[0].target, source, p);
            && target in now && (if node.kind.Directory? then now[target].DirectoryNode? else now[target].FileNode?)
            && now[target].mode == node.attr.mode
  {
    var i := SubtreeHas(s.promises[pid].tree, source, nodes, p);
    var e := job.entries[i];
    assert EntryFor(job.entries[0].target, source, nodes[i], e) && e in job.entries;
    assert PromiseValid(s, pid) && NodeValid(s.promises[pid].tree, p);
    EntryPlaced(job, now, e);
  }

  /** After a successful run a file whose chunks were true holds exactly the promised content, at the declared size. */
  lemma PlacedIsExact(job: Job, now: Nodes, e: Entry, content: seq<Byte>)
    requires Placed(job, now) && e in job.entries && e.kind.File?
    requires TrueSource(job.read, e.relativePath, content) && |content| == e.size
    ensures e.target in now && now[e.target].FileNode? && now[e.target].content == content
  {
    assert FilePlaced(job, now, e);
    CopyExact(job.read, e.relativePath, content, 0);
    assert content[0..] == content;
  }
}
