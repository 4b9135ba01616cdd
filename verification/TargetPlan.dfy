/** Planning a materialize run: the target of every node, the free root name, and the preflight. */
module TargetPlan {
  import opened Base
  import opened Disk
  import opened Lifecycle
  import opened MaterializeJob
  import opened Paths
  import opened Planner
  import opened Runtime
  import opened Tree
  import opened Walk

  // ---- where a node goes ---------------------------------------------------

  /** `subtree_target_suffix`. */
  function Suffix(source: string, path: string): Result<string> {
    if path == source then Ok("")
    else if source == "" then Ok(path)
    else if source + "/" <= path then Ok(path[|source| + 1..])
    else Err(InvalidArgument)
  }

  ghost predicate Extends(source: string, suffix: string, path: string) {
    path == if suffix == "" then source else ChildPath(source, suffix)
  }

  lemma SuffixOfChild(source: string, suffix: string, d: string, n: string)
    requires n != "" && Extends(source, suffix, d)
    ensures Extends(source, ChildPath(suffix, n), ChildPath(d, n))
    ensures Suffix(source, ChildPath(d, n)) == Ok(ChildPath(suffix, n))
  {
    var path, longer := ChildPath(d, n), ChildPath(suffix, n);
    if source != "" {
      assert path == source + "/" + longer;
      assert source + "/" <= path && path[|source| + 1..] == longer;
    }
  }

  /** Below the source every suffix exists, and it grows by a name from parent to child. */
  lemma {:induction false} SuffixGrows(source: string, path: string)
    requires Normal(path) && Under(source, path)
    ensures Suffix(source, path).Ok? && Normal(Suffix(source, path).value) && Extends(source, Suffix(source, path).value, path)
    ensures path != source ==>
      && Suffix(source, ParentPath(path)).Ok?
      && Suffix(source, path).value == ChildPath(Suffix(source, ParentPath(path)).value, LeafName(path))
    decreases |path|
  {
    if path != source {
      var d, n := ParentPath(path), LeafName(path);
      SuffixGrows(source, d);
      SuffixOfChild(source, Suffix(source, d).value, d, n);
      ChildNormal(Suffix(source, d).value, n);
    }
  }

  lemma {:induction false} PartsArePlain(path: string)
    requires Normal(path)
    ensures PlainPath(Parts(path))
    decreases |path|
  {
    if path != "" {
      LeafIsPlain(path);
      PartsArePlain(ParentPath(path));
      PartsSnoc(ParentPath(path), LeafName(path));
    }
  }

  function TargetOf(root: LocalPath, source: string, path: string): LocalPath
    requires Suffix(source, path).Ok?
  {
    root + Parts(Suffix(source, path).value)
  }

  lemma SuffixParts(source: string, path: string)
    requires Normal(path) && Under(source, path) && path != source
    ensures Suffix(source, path).Ok? && Suffix(source, ParentPath(path)).Ok?
    ensures Parts(Suffix(source, path).value) == Parts(Suffix(source, ParentPath(path)).value) + [LeafName(path)]
  {
    SuffixGrows(source, path);
    LeafIsPlain(path);
    PartsSnoc(Suffix(source, ParentPath(path)).value, LeafName(path));
  }

  lemma LeafIsPlain(path: string)
    requires Normal(path) && path != ""
    ensures LeafName(path) != "" && '/' !in LeafName(path)
  {
  }

  lemma TargetParent(root: LocalPath, source: string, path: string)
    requires Normal(path) && Under(source, path) && path != source
    ensures Suffix(source, path).Ok? && Suffix(source, ParentPath(path)).Ok?
    ensures TargetOf(root, source, path) == TargetOf(root, source, ParentPath(path)) + [LeafName(path)]
  {
    SuffixParts(source, path);
    AppendTwice(root, Parts(Suffix(source, ParentPath(path)).value), LeafName(path));
  }

  lemma AppendTwice(root: LocalPath, parts: seq<string>, name: string)
    ensures root + (parts + [name]) == root + parts + [name]
  {
  }

  lemma TargetIsPlain(root: LocalPath, source: string, path: string)
    requires Normal(path) && Under(source, path) && PlainPath(root)
    ensures Suffix(source, path).Ok? && PlainPath(TargetOf(root, source, path))
  {
    SuffixGrows(source, path);
    PartsArePlain(Suffix(source, path).value);
  }

  lemma TargetsDiffer(root: LocalPath, source: string, a: string, b: string)
    requires Normal(a) && Under(source, a) && Normal(b) && Under(source, b) && a != b
    ensures Suffix(source, a).Ok? && Suffix(source, b).Ok? && TargetOf(root, source, a) != TargetOf(root, source, b)
  {
    SuffixGrows(source, a);
    SuffixGrows(source, b);
    var s, t := Suffix(source, a).value, Suffix(source, b).value;
    if TargetOf(root, source, a) == TargetOf(root, source, b) {
      assert Parts(s) == TargetOf(root, source, a)[|root|..] == Parts(t);
      PartsInjective(s, t);
    }
  }

  // ---- the entries ---------------------------------------------------------

  ghost predicate EntryFor(root: LocalPath, source: string, node: PromiseNode, e: Entry) {
    && Suffix(source, node.relativePath).Ok? && e.relativePath == node.relativePath
    && e.target == TargetOf(root, source, node.relativePath)
    && e.kind == node.kind && e.size == node.attr.size && e.mode == node.attr.mode
  }

  ghost predicate EntriesFor(root: LocalPath, source: string, nodes: seq<PromiseNode>, entries: seq<Entry>) {
    |entries| == |nodes| && forall i {:trigger entries[i]} :: 0 <= i < |nodes| ==> EntryFor(root, source, nodes[i], entries[i])
  }

  /** The entry loop of `plan_materialize`; it fails exactly when a node is not below the source. */
  method PlanEntries(root: LocalPath, source: string, nodes: seq<PromiseNode>) returns (r: Result<seq<Entry>>)
    ensures r.Ok? ==> EntriesFor(root, source, nodes, r.value)
    ensures r.Err? <==> exists node :: node in nodes && Suffix(source, node.relativePath).Err?
  {
    var entries: seq<Entry> := [];
    for i := 0 to |nodes|
      invariant EntriesFor(root, source, nodes[..i], entries)
      invariant forall node :: node in nodes[..i] ==> Suffix(source, node.relativePath).Ok?
    {
      var node := nodes[i];
      assert node in nodes;
      var suffix := Suffix(source, node.relativePath);
      if suffix.Err? {
        return Err(suffix.status);
      }
      entries := entries + [Entry(node.relativePath, root + Parts(suffix.value), node.kind, node.attr.size, node.attr.mode)];
      assert nodes[..i + 1] == nodes[..i] + [node];
    }
    assert nodes[..|nodes|] == nodes;
    return Ok(entries);
  }

  /** The nodes of a subtree, as `SubtreeNodes` lists them. */
  ghost predicate SubtreeOf(t: Tree, source: string, nodes: seq<PromiseNode>) {
    && ExactSubtree(t, source, PathsOf(nodes))
    && forall node :: node in nodes ==> node.relativePath in t.nodes && t.nodes[node.relativePath] == node
  }

  lemma SubtreeNode(t: Tree, source: string, nodes: seq<PromiseNode>, i: nat)
    requires TreeValid(t) && SubtreeOf(t, source, nodes) && i < |nodes|
    ensures var p := nodes[i].relativePath;
            && p in t.nodes && t.nodes[p] == nodes[i] && Normal(p) && Under(source, p)
            && (forall j :: 0 <= j < |nodes| && nodes[j].relativePath == p ==> j == i)
  {
    var paths, p := PathsOf(nodes), nodes[i].relativePath;
    assert nodes[i] in nodes && paths[i] == p;
    assert NodeValid(t, p);
    assert p in multiset(paths);
    assert Listed(paths, p, p in t.nodes && Under(source, p));
    forall j | 0 <= j < |nodes| && nodes[j].relativePath == p ensures j == i {
      if j != i {
        ListedOnceOnly(paths, if i < j then i else j, if i < j then j else i);
      }
    }
  }

  lemma ListedOnceOnly(s: seq<string>, i: nat, j: nat)
    requires i < j < |s| && s[i] == s[j]
    ensures multiset(s)[s[i]] >= 2
  {
    assert s == s[..j] + s[j..] && s[i] in s[..j] && s[j] in s[j..];
    assert multiset(s) == multiset(s[..j]) + multiset(s[j..]);
  }

  lemma SubtreeSuffixes(t: Tree, source: string, nodes: seq<PromiseNode>)
    requires TreeValid(t) && SubtreeOf(t, source, nodes)
    ensures forall node :: node in nodes ==> Suffix(source, node.relativePath).Ok?
  {
    forall node | node in nodes ensures Suffix(source, node.relativePath).Ok? {
      var i :| 0 <= i < |nodes| && nodes[i] == node;
      SubtreeNode(t, source, nodes, i);
      SuffixGrows(source, node.relativePath);
    }
  }

  lemma PlanIsSound(t: Tree, source: string, nodes: seq<PromiseNode>, root: LocalPath, entries: seq<Entry>)
    requires TreeValid(t) && SubtreeOf(t, source, nodes) && EntriesFor(root, source, nodes, entries)
    ensures SoundPlan(root, entries)
  {
    assert PathsOf(nodes)[0] == source && EntryFor(root, source, nodes[0], entries[0]);
    forall i, j | 0 <= i < j < |entries| ensures entries[i].target != entries[j].target {
      SubtreeNode(t, source, nodes, i);
      SubtreeNode(t, source, nodes, j);
      assert EntryFor(root, source, nodes[i], entries[i]) && EntryFor(root, source, nodes[j], entries[j]);
      TargetsDiffer(root, source, nodes[i].relativePath, nodes[j].relativePath);
    }
    forall i {:trigger InEarlierDirectory(entries, i)} | 0 < i < |entries| ensures InEarlierDirectory(entries, i) {
      PlannedInDirectory(t, source, nodes, root, entries, i);
    }
  }

  lemma PlannedInDirectory(t: Tree, source: string, nodes: seq<PromiseNode>, root: LocalPath, entries: seq<Entry>, i: nat)
    requires TreeValid(t) && SubtreeOf(t, source, nodes) && EntriesFor(root, source, nodes, entries) && 0 < i < |entries|
    ensures InEarlierDirectory(entries, i)
  {
    var j := ParentListed(t, source, nodes, i);
    assert EntryFor(root, source, nodes[i], entries[i]) && EntryFor(root, source, nodes[j], entries[j]);
    TargetParent(root, source, nodes[i].relativePath);
    assert entries[i].target[..|entries[i].target| - 1] == entries[j].target;
  }

  /** The parent of a listed node is listed before it, and is a directory. */
  lemma ParentListed(t: Tree, source: string, nodes: seq<PromiseNode>, i: nat) returns (j: nat)
    requires TreeValid(t) && SubtreeOf(t, source, nodes) && 0 < i < |nodes|
    ensures Normal(nodes[i].relativePath) && Under(source, nodes[i].relativePath) && nodes[i].relativePath != source
    ensures j < i && nodes[j].relativePath == ParentPath(nodes[i].relativePath) && nodes[j].kind.Directory?
  {
    var paths, p := PathsOf(nodes), nodes[i].relativePath;
    SubtreeNode(t, source, nodes, i);
    assert paths[0] == source && nodes[0].relativePath == source && paths[i] == p;
    assert ParentPath(paths[i]) in paths[..i];
    j :| 0 <= j < i && paths[j] == ParentPath(p);
    assert nodes[j].relativePath == ParentPath(p) && nodes[j] in nodes;
    assert NodeValid(t, p) && IsDirectory(t, ParentPath(p));
  }

  // ---- a free name for the root --------------------------------------------

  const RENAME_ATTEMPTS: nat := 1024

  /** The last '.', as `Path::extension` sees it: a leading one does not count. */
  function LastDot(name: string): (r: Option<nat>)
    ensures r.Some? ==> 0 < r.value < |name| && name[r.value] == '.'
  {
    if |name| < 2 then None
    else if name[|name| - 1] == '.' then Some(|name| - 1)
    else LastDot(name[..|name| - 1])
  }

  /** `rename_candidate_name`, and the name itself at the first attempt. */
  function Candidate(name: string, kind: NodeKind, attempt: nat): string {
    if attempt == 0 then name
    else if kind.Directory? || LastDot(name).None? then name + " (" + Decimal(attempt) + ")"
    else name[..LastDot(name).value] + " (" + Decimal(attempt) + ")." + name[LastDot(name).value + 1..]
  }

  /** A single path component. */
  predicate PlainName(name: string) {
    name != "" && '/' !in name
  }

  predicate PlainPath(p: LocalPath) {
    forall i :: 0 <= i < |p| ==> PlainName(p[i])
  }

  lemma CandidateIsPlain(name: string, kind: NodeKind, attempt: nat)
    requires PlainName(name)
    ensures PlainName(Candidate(name, kind, attempt))
  {
    DecimalDigits(attempt);
    assert '/' !in " (" && '/' !in ")" && '/' !in ").";
  }

  lemma {:induction false} LastDotAt(stem: string, ext: string)
    requires stem != "" && '.' !in ext
    ensures LastDot(stem + "." + ext) == Some(|stem|)
    decreases |ext|
  {
    var name := stem + "." + ext;
    if ext != "" {
      assert name[|name| - 1] == ext[|ext| - 1] && name[..|name| - 1] == stem + "." + ext[..|ext| - 1];
      LastDotAt(stem, ext[..|ext| - 1]);
    }
  }

  /** A taken file name is numbered before its extension, a directory's at its end. */
  lemma NumberedName(stem: string, ext: string, attempt: nat)
    requires stem != "" && '.' !in ext && attempt > 0
    ensures Candidate(stem + "." + ext, File, attempt) == stem + " (" + Decimal(attempt) + ")." + ext
    ensures Candidate(stem + "." + ext, Directory, attempt) == stem + "." + ext + " (" + Decimal(attempt) + ")"
  {
    var name := stem + "." + ext;
    LastDotAt(stem, ext);
    assert name[..|stem|] == stem && name[|stem| + 1..] == ext;
  }

  /** A name with no '.' after its first character is numbered at its end. */
  lemma {:induction false} NumberedPlainName(name: string, kind: NodeKind, attempt: nat)
    requires name != "" && '.' !in name[1..] && attempt > 0
    ensures LastDot(name).None? && Candidate(name, kind, attempt) == name + " (" + Decimal(attempt) + ")"
    decreases |name|
  {
    if |name| > 1 {
      assert name[|name| - 1] == name[1..][|name| - 2] && name[..|name| - 1][1..] == name[1..][..|name| - 2];
      NumberedPlainName(name[..|name| - 1], kind, attempt);
    }
  }

  lemma CandidatesDiffer(name: string, kind: NodeKind, a: nat, b: nat)
    requires Candidate(name, kind, a) == Candidate(name, kind, b)
    ensures a == b
  {
    var dot := if kind.Directory? || LastDot(name).None? then |name| else LastDot(name).value;
    var tail := if dot == |name| then "" else "." + name[dot + 1..];
    CandidateShape(name, kind, a, dot, tail);
    CandidateShape(name, kind, b, dot, tail);
    if a > 0 && b > 0 {
      var s, head := Candidate(name, kind, a), name[..dot] + " (";
      assert s[|head|..|s| - |tail| - 1] == Decimal(a);
      assert s[|head|..|s| - |tail| - 1] == Decimal(b);
      DecimalInjective(a, b);
    }
  }

  lemma CandidateShape(name: string, kind: NodeKind, a: nat, dot: nat, tail: string)
    requires dot == (if kind.Directory? || LastDot(name).None? then |name| else LastDot(name).value)
    requires tail == if dot == |name| then "" else "." + name[dot + 1..]
    ensures a > 0 ==> Candidate(name, kind, a) == name[..dot] + " (" + Decimal(a) + (")" + tail)
    ensures a > 0 ==> |Candidate(name, kind, a)| > |name|
  {
    assert name[..|name|] == name;
    if dot != |name| {
      assert ")." + name[dot + 1..] == ")" + tail;
      assert |tail| == |name| - dot;
    } else {
      assert ")" + tail == ")";
    }
  }

  /** What examining a path fails with, apart from finding nothing there. */
  type Trouble = LocalPath -> Option<Status>

  ghost function CandidatePath(dir: LocalPath, name: string, kind: NodeKind, attempt: nat): LocalPath {
    dir + [Candidate(name, kind, attempt)]
  }

  ghost predicate Taken(disk: Nodes, trouble: Trouble, dir: LocalPath, name: string, kind: NodeKind, attempt: nat) {
    CandidatePath(dir, name, kind, attempt) in disk && trouble(CandidatePath(dir, name, kind, attempt)).None?
  }

  /** The first `n` candidates are taken. */
  ghost predicate TakenUpTo(disk: Nodes, trouble: Trouble, dir: LocalPath, name: string, kind: NodeKind, n: nat) {
    forall m {:trigger Taken(disk, trouble, dir, name, kind, m)} :: 0 <= m < n ==> Taken(disk, trouble, dir, name, kind, m)
  }

  /** Why no candidate is found: all are taken, or one cannot be examined after all before it are taken. */
  ghost predicate NoCandidate(disk: Nodes, trouble: Trouble, dir: LocalPath, name: string, kind: NodeKind, status: Status) {
    || (status == AlreadyExists && TakenUpTo(disk, trouble, dir, name, kind, RENAME_ATTEMPTS))
    || exists n :: 0 <= n < RENAME_ATTEMPTS && TakenUpTo(disk, trouble, dir, name, kind, n)
                   && trouble(CandidatePath(dir, name, kind, n)) == Some(status)
  }

  /** `unique_materialize_target_path`: the first free candidate, or why there is none. */
  method UniqueTarget(disk: Nodes, trouble: Trouble, dir: LocalPath, name: string, kind: NodeKind) returns (r: Result<LocalPath>)
    ensures r.Ok? ==> r.value !in disk && exists n ::
      && 0 <= n < RENAME_ATTEMPTS && r.value == CandidatePath(dir, name, kind, n) && trouble(r.value).None?
      && TakenUpTo(disk, trouble, dir, name, kind, n)
    ensures r.Err? ==> NoCandidate(disk, trouble, dir, name, kind, r.status)
  {
    for n := 0 to RENAME_ATTEMPTS
      invariant TakenUpTo(disk, trouble, dir, name, kind, n)
    {
      var candidate := dir + [Candidate(name, kind, n)];
      assert candidate == CandidatePath(dir, name, kind, n);
      var failure := trouble(candidate);
      if failure.Some? {
        return Err(failure.value);
      }
      if candidate !in disk {
        return Ok(candidate);
      }
    }
    return Err(AlreadyExists);
  }

  // ---- preflight -----------------------------------------------------------

  /** Why a target cannot be used: examining it fails, or what is there must not be replaced. */
  function Obstacle(disk: Nodes, trouble: Trouble, target: LocalPath, kind: NodeKind, policy: ConflictPolicy): Option<Status> {
    if trouble(target).Some? then trouble(target)
    else if target in disk then Conflict(kind, disk[target], policy)
    else None
  }

  ghost predicate Blocked(disk: Nodes, trouble: Trouble, e: Entry, policy: ConflictPolicy) {
    Obstacle(disk, trouble, e.target, e.kind, policy).Some?
  }

  /** `preflight_materialize_targets`: passes exactly when no target is in the way, and reports one that is. */
  method Preflight(disk: Nodes, trouble: Trouble, entries: seq<Entry>, policy: ConflictPolicy) returns (r: Option<Status>)
    ensures r.None? <==> forall e :: e in entries ==> !Blocked(disk, trouble, e, policy)
    ensures r.Some? ==> exists e :: e in entries && Obstacle(disk, trouble, e.target, e.kind, policy) == r
  {
    for i := 0 to |entries|
      invariant forall e :: e in entries[..i] ==> !Blocked(disk, trouble, e, policy)
    {
      var e := entries[i];
      assert e in entries;
      r := trouble(e.target);
      if r.Some? {
        return;
      }
      if e.target in disk {
        r := Conflict(e.kind, disk[e.target], policy);
        if r.Some? {
          return;
        }
      }
    }
    return None;
  }

  lemma {:induction false} NothingBelowFree(disk: Nodes, root: LocalPath, more: seq<string>)
    requires DiskValid(disk) && root != [] && root !in disk
    ensures root + more !in disk
  {
    if more == [] {
      assert root + more == root;
    } else {
      NothingBelowFree(disk, root, more[..|more| - 1]);
      var p := root + more;
      assert ParentOf(p) == root + more[..|more| - 1];
      assert p in disk ==> Hung(disk, p);
    }
  }

  /** Every target of a plan below a plain directory is plain. */
  lemma PlanIsPlain(t: Tree, source: string, nodes: seq<PromiseNode>, root: LocalPath, entries: seq<Entry>, e: Entry)
    requires TreeValid(t) && SubtreeOf(t, source, nodes) && EntriesFor(root, source, nodes, entries) && PlainPath(root) && e in entries
    ensures PlainPath(e.target)
  {
    var i :| 0 <= i < |entries| && entries[i] == e;
    assert EntryFor(root, source, nodes[i], entries[i]);
    SubtreeNode(t, source, nodes, i);
    TargetIsPlain(root, source, nodes[i].relativePath);
  }

  /** Without Overwrite the preflight of a subtree passes if and only if its root target is free and every target can be examined. */
  lemma PreflightIffRootFree(disk: Nodes, trouble: Trouble, t: Tree, source: string, nodes: seq<PromiseNode>, root: LocalPath,
                             entries: seq<Entry>, policy: ConflictPolicy)
    requires DiskValid(disk) && TreeValid(t) && SubtreeOf(t, source, nodes) && EntriesFor(root, source, nodes, entries)
    requires root != [] && !policy.Overwrite?
    ensures (forall e :: e in entries ==> !Blocked(disk, trouble, e, policy)) <==>
            root !in disk && forall e :: e in entries ==> trouble(e.target).None?
  {
    PlanIsSound(t, source, nodes, root, entries);
    assert entries[0] in entries;
    if root !in disk && forall e :: e in entries ==> trouble(e.target).None? {
      forall e | e in entries ensures !Blocked(disk, trouble, e, policy) {
        var i :| 0 <= i < |entries| && entries[i] == e;
        assert EntryFor(root, source, nodes[i], entries[i]);
        NothingBelowFree(disk, root, Parts(Suffix(source, e.relativePath).value));
      }
    } else if root in disk {
      assert Blocked(disk, trouble, entries[0], policy);
    }
  }

  // ---- marks ---------------------------------------------------------------

  /** Whatever happened since planning, marking a planned entry succeeds and marks that very node. */
  lemma MarkCannotFail(s: State, later: State, pid: string, source: string, nodes: seq<PromiseNode>, root: LocalPath, entries: seq<Entry>,
                       e: Entry)
    requires Valid(s) && pid in s.promises && SubtreeOf(s.promises[pid].tree, source, nodes)
    requires EntriesFor(root, source, nodes, entries) && e in entries && Valid(later) && Evolves(s, later)
    ensures MarkStatus(later, pid, e.relativePath).None? && Normalized(e.relativePath) == Ok(e.relativePath)
    ensures NodeAt(later, pid, e.relativePath) && Node(later, pid, e.relativePath).kind == e.kind
    ensures Node(later, pid, e.relativePath).attr.size == e.size
  {
    var i :| 0 <= i < |entries| && entries[i] == e;
    assert EntryFor(root, source, nodes[i], entries[i]) && nodes[i] in nodes;
    assert NodeAt(s, pid, e.relativePath);
    assert PromiseKept(s.promises[pid], later.promises[pid]);
    assert NodeKept(Node(s, pid, e.relativePath), Node(later, pid, e.relativePath));
    StoredNode(later, pid, e.relativePath);
  }
}
