/**
  The local file system that materialize writes to: inodes by absolute path, owner permission
  bits, and the effects of the calls the engine makes.  A path is its list of components.
 */
module Disk {
  import opened Base

  type LocalPath = seq<string>

  datatype Inode =
    | FileNode(id: nat, mode: nat, content: seq<Byte>)
    | DirectoryNode(id: nat, mode: nat)
    | SymlinkNode(id: nat)
    | SpecialNode(id: nat)

  type Nodes = map<LocalPath, Inode>

  const PRIVATE_DIRECTORY: nat := 0x1C0
  const PRIVATE_FILE: nat := 0x180

  function ParentOf(p: LocalPath): LocalPath
    requires p != []
  {
    p[..|p| - 1]
  }

  predicate Searchable(node: Inode) {
    node.DirectoryNode? && (node.mode / 0x40) % 2 == 1
  }

  predicate Writable(node: Inode) {
    node.DirectoryNode? && (node.mode / 0x80) % 2 == 1
  }

  /** Every directory above `p` may be searched by its owner. */
  predicate Reachable(nodes: Nodes, p: LocalPath)
    decreases |p|
  {
    p == [] || (ParentOf(p) in nodes && Searchable(nodes[ParentOf(p)]) && Reachable(nodes, ParentOf(p)))
  }

  /** The entry `p` may be created in or removed from its directory. */
  predicate Editable(nodes: Nodes, p: LocalPath) {
    p != [] && Reachable(nodes, p) && Writable(nodes[ParentOf(p)])
  }

  /** Every entry lies in a directory. */
  ghost predicate Hung(nodes: Nodes, p: LocalPath) {
    p == [] || (ParentOf(p) in nodes && nodes[ParentOf(p)].DirectoryNode?)
  }

  ghost predicate DiskValid(nodes: Nodes) {
    forall p {:trigger Hung(nodes, p)} :: p in nodes ==> Hung(nodes, p)
  }

  predicate InDirectory(q: LocalPath, d: LocalPath) {
    q != [] && ParentOf(q) == d
  }

  predicate Empty(nodes: Nodes, d: LocalPath) {
    forall q :: q in nodes ==> !InDirectory(q, d)
  }

  // ---- cleanup calls -------------------------------------------------------

  /** A target the engine made or took over. */
  datatype CreatedTarget = CreatedTarget(path: LocalPath, identity: nat, isDirectory: bool, removable: bool)

  /** The entry at the target's path can be examined and is still the recorded inode. */
  predicate Recognized(nodes: Nodes, t: CreatedTarget) {
    t.path in nodes && Reachable(nodes, t.path) && nodes[t.path].id == t.identity
  }

  function Opened(node: Inode): Inode {
    if node.DirectoryNode? || node.FileNode? then node.(mode := PRIVATE_DIRECTORY) else node
  }

  /** `restore_created_directory_permissions`. */
  function Restored(nodes: Nodes, t: CreatedTarget): Nodes {
    if t.isDirectory && t.removable && Recognized(nodes, t) then nodes[t.path := Opened(nodes[t.path])] else nodes
  }

  /** One round of the removal loop; paths in `stuck` cannot be removed for reasons outside the model. */
  function Removed(nodes: Nodes, t: CreatedTarget, stuck: set<LocalPath>): Nodes {
    if !t.removable || !Recognized(nodes, t) then nodes
    else if t.path in stuck || !Editable(nodes, t.path) then nodes
    else if nodes[t.path].DirectoryNode? != t.isDirectory then nodes
    else if t.isDirectory && !Empty(nodes, t.path) then nodes
    else nodes - {t.path}
  }

  function RestoreAll(nodes: Nodes, created: seq<CreatedTarget>): Nodes {
    if created == [] then nodes
    else Restored(RestoreAll(nodes, created[..|created| - 1]), created[|created| - 1])
  }

  /** The targets from the last to the first. */
  function RemoveAll(nodes: Nodes, created: seq<CreatedTarget>, stuck: set<LocalPath>): Nodes
    decreases |created|
  {
    if created == [] then nodes
    else RemoveAll(Removed(nodes, created[|created| - 1], stuck), created[..|created| - 1], stuck)
  }

  function CleanedUp(nodes: Nodes, created: seq<CreatedTarget>, stuck: set<LocalPath>): Nodes {
    RemoveAll(RestoreAll(nodes, created), created, stuck)
  }

  // ---- what cleanup can touch, on any disk ---------------------------------

  ghost predicate Covers(created: seq<CreatedTarget>, p: LocalPath, id: nat) {
    exists t :: t in created && t.removable && t.path == p && t.identity == id
  }

  /** `p` is as before, up to the permissions of a directory the engine made. */
  ghost predicate Spared(a: Nodes, b: Nodes, created: seq<CreatedTarget>, p: LocalPath)
    requires p in a
  {
    if p in b then b[p] == a[p] || (Covers(created, p, a[p].id) && b[p] == Opened(a[p]))
    else Covers(created, p, a[p].id)
  }

  ghost predicate OnlyOwn(a: Nodes, b: Nodes, created: seq<CreatedTarget>) {
    b.Keys <= a.Keys && forall p {:trigger Spared(a, b, created, p)} :: p in a ==> Spared(a, b, created, p)
  }

  lemma OnlyOwnMore(a: Nodes, b: Nodes, created: seq<CreatedTarget>, more: seq<CreatedTarget>)
    requires OnlyOwn(a, b, created) && forall t :: t in created ==> t in more
    ensures OnlyOwn(a, b, more)
  {
    forall p {:trigger Spared(a, b, more, p)} | p in a ensures Spared(a, b, more, p) {
      assert Spared(a, b, created, p);
    }
  }

  lemma OnlyOwnTransitive(a: Nodes, b: Nodes, c: Nodes, created: seq<CreatedTarget>)
    requires OnlyOwn(a, b, created) && OnlyOwn(b, c, created)
    ensures OnlyOwn(a, c, created)
  {
    forall p {:trigger Spared(a, c, created, p)} | p in a ensures Spared(a, c, created, p) {
      assert Spared(a, b, created, p);
      if p in b {
        assert Spared(b, c, created, p);
      }
    }
  }

  lemma OneOnlyOwn(nodes: Nodes, created: seq<CreatedTarget>, t: CreatedTarget, stuck: set<LocalPath>)
    requires t in created
    ensures OnlyOwn(nodes, Restored(nodes, t), created) && OnlyOwn(nodes, Removed(nodes, t, stuck), created)
  {
    assert t.removable ==> Covers(created, t.path, t.identity);
  }

  lemma {:induction false} RestoreOnlyOwn(nodes: Nodes, created: seq<CreatedTarget>)
    ensures OnlyOwn(nodes, RestoreAll(nodes, created), created)
  {
    if created != [] {
      var init := created[..|created| - 1];
      RestoreOnlyOwn(nodes, init);
      OnlyOwnMore(nodes, RestoreAll(nodes, init), init, created);
      OneOnlyOwn(RestoreAll(nodes, init), created, created[|created| - 1], {});
      OnlyOwnTransitive(nodes, RestoreAll(nodes, init), RestoreAll(nodes, created), created);
    }
  }

  lemma {:induction false} RemoveOnlyOwn(nodes: Nodes, created: seq<CreatedTarget>, stuck: set<LocalPath>)
    ensures OnlyOwn(nodes, RemoveAll(nodes, created, stuck), created)
    decreases |created|
  {
    if created != [] {
      var init, last := created[..|created| - 1], created[|created| - 1];
      var once := Removed(nodes, last, stuck);
      OneOnlyOwn(nodes, created, last, stuck);
      RemoveOnlyOwn(once, init, stuck);
      OnlyOwnMore(once, RemoveAll(once, init, stuck), init, created);
      OnlyOwnTransitive(nodes, once, RemoveAll(nodes, created, stuck), created);
    }
  }

  /**
    On any disk, also one that other processes have changed since: cleanup removes and re-modes
    only inodes that the engine itself created, at the paths where it created them.
   */
  lemma CleanupOnlyOwn(nodes: Nodes, created: seq<CreatedTarget>, stuck: set<LocalPath>)
    ensures OnlyOwn(nodes, CleanedUp(nodes, created, stuck), created)
  {
    RestoreOnlyOwn(nodes, created);
    RemoveOnlyOwn(RestoreAll(nodes, created), created, stuck);
    OnlyOwnTransitive(nodes, RestoreAll(nodes, created), CleanedUp(nodes, created, stuck), created);
  }
}
