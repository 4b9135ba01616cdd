/** The inode namespace seen through FUSE: lookups, directory listings and their paging. */
module Namespace {
  import opened Base
  import opened Paths
  import opened Tree
  import opened Runtime
  import opened Lifecycle

  datatype Entry = MountRoot | NodeEntry(promiseId: string, node: PromiseNode)

  datatype DirectoryEntry = DirectoryEntry(name: string, inode: nat, kind: NodeKind)

  // ---- lookups -------------------------------------------------------------

  /** The first node in key order that carries the inode. */
  function FindNode(nodes: map<string, PromiseNode>, keys: seq<string>, inode: nat): Option<PromiseNode> {
    if keys == [] then None
    else if keys[0] in nodes && nodes[keys[0]].inode == inode then Some(nodes[keys[0]])
    else FindNode(nodes, keys[1..], inode)
  }

  function FindEntry(promises: map<string, Promise>, ids: seq<string>, inode: nat): Option<Entry> {
    if ids == [] then None
    else if ids[0] !in promises then FindEntry(promises, ids[1..], inode)
    else
      var promise := promises[ids[0]];
      var node := FindNode(promise.tree.nodes, InOrder(promise.tree.nodes.Keys), inode);
      if node.Some? then Some(NodeEntry(promise.promiseId, node.value))
      else FindEntry(promises, ids[1..], inode)
  }

  function LookupInode(s: State, inode: nat): Result<Entry> {
    if inode == FUSE_ROOT_INODE then Ok(MountRoot)
    else
      var entry := FindEntry(s.promises, InOrder(s.promises.Keys), inode);
      if entry.Some? then Ok(entry.value) else Err(NotFound)
  }

  function LookupChild(s: State, parentInode: nat, name: string): Result<Entry> {
    if !GoodName(name) then Err(InvalidArgument)
    else if parentInode == FUSE_ROOT_INODE then
      if name !in s.promises || "" !in s.promises[name].tree.nodes then Err(NotFound)
      else Ok(NodeEntry(s.promises[name].promiseId, s.promises[name].tree.nodes[""]))
    else
      var entry := LookupInode(s, parentInode);
      if entry.Err? || entry.value.MountRoot? then entry
      else
        var pid, parent := entry.value.promiseId, entry.value.node;
        if !parent.kind.Directory? then Err(InvalidArgument)
        else if pid !in s.promises then Err(NotFound)
        else
          var tree, path := s.promises[pid].tree, ChildPath(parent.relativePath, name);
          if parent.relativePath !in tree.children || path !in tree.children[parent.relativePath] then Err(NotFound)
          else if path !in tree.nodes then Err(NotFound)
          else Ok(NodeEntry(pid, tree.nodes[path]))
  }

  /** Directory entries of the listed child paths; a missing node fails the whole listing. */
  function ChildEntries(t: Tree, paths: seq<string>): Result<seq<DirectoryEntry>> {
    if paths == [] then Ok([])
    else
      var rest := ChildEntries(t, paths[1..]);
      if paths[0] !in t.nodes then Err(NotFound)
      else if rest.Err? then rest
      else
        var child := t.nodes[paths[0]];
        Ok([DirectoryEntry(child.name, child.inode, child.kind)] + rest.value)
  }

  function PromiseEntries(promises: map<string, Promise>, ids: seq<string>): Result<seq<DirectoryEntry>> {
    if ids == [] then Ok([])
    else
      var rest := PromiseEntries(promises, ids[1..]);
      if ids[0] !in promises || "" !in promises[ids[0]].tree.nodes then Err(NotFound)
      else if rest.Err? then rest
      else
        var promise := promises[ids[0]];
        Ok([DirectoryEntry(promise.promiseId, promise.tree.nodes[""].inode, Directory)] + rest.value)
  }

  function ReadDir(s: State, inode: nat): Result<seq<DirectoryEntry>> {
    if inode == FUSE_ROOT_INODE then PromiseEntries(s.promises, InOrder(s.promises.Keys))
    else
      var entry := LookupInode(s, inode);
      if entry.Err? then Err(entry.status)
      else if entry.value.MountRoot? then Err(NotFound)
      else
        var pid, node := entry.value.promiseId, entry.value.node;
        if !node.kind.Directory? then Err(InvalidArgument)
        else if pid !in s.promises then Err(NotFound)
        else
          var tree := s.promises[pid].tree;
          if node.relativePath !in tree.children then Err(NotFound)
          else ChildEntries(tree, InOrder(tree.children[node.relativePath]))
  }

  function ParentInode(s: State, entry: Entry): Result<nat> {
    match entry
    case MountRoot => Ok(FUSE_ROOT_INODE)
    case NodeEntry(pid, node) =>
      if node.parentPath.None? then Ok(FUSE_ROOT_INODE)
      else if pid !in s.promises || node.parentPath.value !in s.promises[pid].tree.nodes then Err(NotFound)
      else Ok(s.promises[pid].tree.nodes[node.parentPath.value].inode)
  }

  // ---- inodes name nodes exactly -------------------------------------------

  lemma {:induction false} FindNodeFound(nodes: map<string, PromiseNode>, keys: seq<string>, inode: nat)
    ensures var r := FindNode(nodes, keys, inode);
            && (r.Some? ==> exists k :: k in keys && k in nodes && nodes[k] == r.value && nodes[k].inode == inode)
            && (r.None? ==> forall k :: k in keys && k in nodes ==> nodes[k].inode != inode)
  {
    if keys != [] {
      assert keys == [keys[0]] + keys[1..];
      if !(keys[0] in nodes && nodes[keys[0]].inode == inode) {
        FindNodeFound(nodes, keys[1..], inode);
      }
    }
  }

  ghost predicate Carries(promise: Promise, k: string, inode: nat) {
    k in promise.tree.nodes && promise.tree.nodes[k].inode == inode
  }

  lemma FindInTree(promise: Promise, inode: nat)
    ensures var r := FindNode(promise.tree.nodes, InOrder(promise.tree.nodes.Keys), inode);
            && (r.Some? ==> exists k :: Carries(promise, k, inode) && promise.tree.nodes[k] == r.value)
            && (r.None? ==> forall k :: !Carries(promise, k, inode))
  {
    InOrderSorted(promise.tree.nodes.Keys);
    FindNodeFound(promise.tree.nodes, InOrder(promise.tree.nodes.Keys), inode);
    var r := FindNode(promise.tree.nodes, InOrder(promise.tree.nodes.Keys), inode);
    if r.Some? {
      var k :| k in promise.tree.nodes && promise.tree.nodes[k] == r.value && promise.tree.nodes[k].inode == inode;
      assert Carries(promise, k, inode);
    }
  }

  lemma {:induction false} FindEntryFound(promises: map<string, Promise>, ids: seq<string>, inode: nat)
    ensures var r := FindEntry(promises, ids, inode);
            && (r.Some? ==> exists pid, k :: FoundIn(promises, pid, k, inode, r.value))
            && (r.None? ==> forall pid, k :: pid in ids && pid in promises ==> !Carries(promises[pid], k, inode))
  {
    if ids != [] {
      assert ids == [ids[0]] + ids[1..];
      FindEntryFound(promises, ids[1..], inode);
      if ids[0] in promises {
        var promise := promises[ids[0]];
        FindInTree(promise, inode);
        var node := FindNode(promise.tree.nodes, InOrder(promise.tree.nodes.Keys), inode);
        if node.Some? {
          var k :| Carries(promise, k, inode) && promise.tree.nodes[k] == node.value;
          assert FoundIn(promises, ids[0], k, inode, NodeEntry(promise.promiseId, node.value));
        }
      }
    }
  }

  /** Looking up an inode finds exactly the node that carries it. */
  lemma LookupInodeExact(s: State, inode: nat, pid: string, p: string)
    requires Valid(s) && NodeAt(s, pid, p)
    ensures LookupInode(s, inode) == Ok(NodeEntry(pid, Node(s, pid, p))) <==> Node(s, pid, p).inode == inode
  {
    InOrderSorted(s.promises.Keys);
    FindEntryFound(s.promises, InOrder(s.promises.Keys), inode);
    assert IdsInRange(s, pid, p);
    assert PromiseValid(s, pid);
    if Node(s, pid, p).inode == inode {
      assert Carries(s.promises[pid], p, inode);
      var qid, q := FoundAt(s, inode);
      assert SameIdsSameNode(s, pid, p, qid, q);
    } else if LookupInode(s, inode) == Ok(NodeEntry(pid, Node(s, pid, p))) {
      var qid, q := FoundAt(s, inode);
    }
  }

  ghost predicate FoundIn(promises: map<string, Promise>, pid: string, k: string, inode: nat, entry: Entry) {
    && pid in promises && Carries(promises[pid], k, inode)
    && entry == NodeEntry(promises[pid].promiseId, promises[pid].tree.nodes[k])
  }

  lemma FoundAt(s: State, inode: nat) returns (pid: string, p: string)
    requires Valid(s) && inode != FUSE_ROOT_INODE && LookupInode(s, inode).Ok?
    ensures NodeAt(s, pid, p) && Node(s, pid, p).inode == inode
    ensures LookupInode(s, inode) == Ok(NodeEntry(pid, Node(s, pid, p)))
    ensures Node(s, pid, p).relativePath == p
  {
    FindEntryFound(s.promises, InOrder(s.promises.Keys), inode);
    var entry := FindEntry(s.promises, InOrder(s.promises.Keys), inode).value;
    var qid, q :| FoundIn(s.promises, qid, q, inode, entry);
    assert PromiseValid(s, qid);
    StoredPath(s.promises[qid].tree, q);
    pid, p := qid, q;
  }

  lemma StoredPath(t: Tree, p: string)
    requires TreeValid(t) && p in t.nodes
    ensures t.nodes[p].relativePath == p
  {
    assert NodeValid(t, p);
  }

  // ---- listings ------------------------------------------------------------

  function EntryOf(node: PromiseNode): DirectoryEntry {
    DirectoryEntry(node.name, node.inode, node.kind)
  }

  lemma {:induction false} ChildEntriesAre(t: Tree, paths: seq<string>)
    requires forall p :: p in paths ==> p in t.nodes
    ensures ChildEntries(t, paths).Ok? && |ChildEntries(t, paths).value| == |paths|
    ensures forall i :: 0 <= i < |paths| ==> ChildEntries(t, paths).value[i] == EntryOf(t.nodes[paths[i]])
  {
    if paths != [] {
      ChildEntriesAre(t, paths[1..]);
    }
  }

  lemma {:induction false} PromiseEntriesAre(promises: map<string, Promise>, ids: seq<string>)
    requires forall pid :: pid in ids ==> pid in promises && promises[pid].promiseId == pid && "" in promises[pid].tree.nodes
    ensures PromiseEntries(promises, ids).Ok? && |PromiseEntries(promises, ids).value| == |ids|
    ensures forall i :: 0 <= i < |ids| ==>
      PromiseEntries(promises, ids).value[i] == DirectoryEntry(ids[i], promises[ids[i]].tree.nodes[""].inode, Directory)
  {
    if ids != [] {
      PromiseEntriesAre(promises, ids[1..]);
    }
  }

  lemma RootListing(s: State)
    requires Valid(s)
    ensures var ids := InOrder(s.promises.Keys);
            && (forall pid :: pid in ids <==> pid in s.promises)
            && (forall pid :: pid in s.promises ==> s.promises[pid].promiseId == pid && NodeAt(s, pid, ""))
            && ReadDir(s, FUSE_ROOT_INODE).Ok? && |ReadDir(s, FUSE_ROOT_INODE).value| == |ids|
            && (forall i :: 0 <= i < |ids| ==> NodeAt(s, ids[i], "") && Node(s, ids[i], "").kind.Directory?)
            && (forall i :: 0 <= i < |ids| ==>
                  ReadDir(s, FUSE_ROOT_INODE).value[i] == DirectoryEntry(ids[i], Node(s, ids[i], "").inode, Directory))
  {
    var ids := InOrder(s.promises.Keys);
    InOrderSorted(s.promises.Keys);
    forall pid | pid in s.promises
      ensures s.promises[pid].promiseId == pid && NodeAt(s, pid, "") && Node(s, pid, "").kind.Directory?
    {
      assert PromiseValid(s, pid);
      assert NodeValid(s.promises[pid].tree, "");
    }
    PromiseEntriesAre(s.promises, ids);
  }

  lemma DirectoryListing(s: State, pid: string, d: string)
    requires Valid(s) && NodeAt(s, pid, d) && Node(s, pid, d).kind.Directory?
    ensures var tree, inode := s.promises[pid].tree, Node(s, pid, d).inode;
            && inode != FUSE_ROOT_INODE && d in tree.children && Node(s, pid, d).relativePath == d
            && var paths := InOrder(tree.children[d]);
               && (forall p :: p in paths <==> IsChild(tree, d, p))
               && ReadDir(s, inode).Ok? && |ReadDir(s, inode).value| == |paths|
               && forall i :: 0 <= i < |paths| ==> paths[i] in tree.nodes && ReadDir(s, inode).value[i] == EntryOf(tree.nodes[paths[i]])
  {
    var tree := s.promises[pid].tree;
    DirectoryFound(s, pid, d);
    ListedChildren(tree, d);
    ChildEntriesAre(tree, InOrder(tree.children[d]));
  }

  lemma DirectoryFound(s: State, pid: string, d: string)
    requires Valid(s) && NodeAt(s, pid, d)
    ensures Node(s, pid, d).inode != FUSE_ROOT_INODE && Node(s, pid, d).relativePath == d
    ensures LookupInode(s, Node(s, pid, d).inode) == Ok(NodeEntry(pid, Node(s, pid, d)))
    ensures TreeValid(s.promises[pid].tree)
  {
    assert PromiseValid(s, pid) && IdsInRange(s, pid, d);
    StoredPath(s.promises[pid].tree, d);
    LookupInodeExact(s, Node(s, pid, d).inode, pid, d);
  }

  lemma ListedChildren(t: Tree, d: string)
    requires TreeValid(t) && IsDirectory(t, d)
    ensures d in t.children && forall p :: p in InOrder(t.children[d]) <==> IsChild(t, d, p)
    ensures forall p :: p in InOrder(t.children[d]) ==> p in t.nodes
  {
    InOrderSorted(t.children[d]);
  }

  /** A child is stored under the join of its parent's path and its own good name. */
  lemma ChildStored(t: Tree, d: string, p: string)
    requires TreeValid(t) && IsChild(t, d, p)
    ensures t.nodes[p].name == LeafName(p) && GoodName(LeafName(p)) && p == ChildPath(d, LeafName(p))
    ensures t.nodes[p].parentPath == Some(d)
  {
    assert NodeValid(t, p);
  }

  // ---- agreement of lookup and listing -------------------------------------

  ghost predicate Lists(s: State, d: nat, e: DirectoryEntry) {
    ReadDir(s, d).Ok? && e in ReadDir(s, d).value
  }

  ghost predicate Finds(s: State, d: nat, e: DirectoryEntry) {
    exists pid, node :: LookupChild(s, d, e.name) == Ok(NodeEntry(pid, node)) && node.inode == e.inode && node.kind == e.kind
  }

  lemma AgreementAtRoot(s: State, e: DirectoryEntry)
    requires Valid(s)
    ensures Lists(s, FUSE_ROOT_INODE, e) <==> Finds(s, FUSE_ROOT_INODE, e)
  {
    RootListing(s);
    var ids := InOrder(s.promises.Keys);
    if Lists(s, FUSE_ROOT_INODE, e) {
      var i :| 0 <= i < |ids| && ReadDir(s, FUSE_ROOT_INODE).value[i] == e;
      assert ids[i] in ids;
      var n :| Numbered(s, ids[i], n);
      PromiseNames(n, n);
      assert LookupChild(s, FUSE_ROOT_INODE, e.name) == Ok(NodeEntry(ids[i], Node(s, ids[i], "")));
    }
    if Finds(s, FUSE_ROOT_INODE, e) {
      var i := InOrderIndex(s.promises.Keys, e.name);
      assert ReadDir(s, FUSE_ROOT_INODE).value[i] == e;
    }
  }

  lemma ListedIsFound(s: State, pid: string, d: string, p: string)
    requires Valid(s) && NodeAt(s, pid, d) && IsDirectory(s.promises[pid].tree, d) && IsChild(s.promises[pid].tree, d, p)
    ensures LookupChild(s, Node(s, pid, d).inode, LeafName(p)) == Ok(NodeEntry(pid, Node(s, pid, p)))
    ensures ParentInode(s, NodeEntry(pid, Node(s, pid, p))) == Ok(Node(s, pid, d).inode)
  {
    var tree := s.promises[pid].tree;
    DirectoryFound(s, pid, d);
    ChildStored(tree, d, p);
    assert p in tree.children[d] <==> IsChild(tree, d, p);
  }

  lemma FoundIsListed(s: State, d: nat, name: string) returns (pid: string, dir: string, p: string)
    requires Valid(s) && d != FUSE_ROOT_INODE && LookupChild(s, d, name).Ok?
    ensures NodeAt(s, pid, dir) && Node(s, pid, dir).inode == d && IsDirectory(s.promises[pid].tree, dir)
    ensures IsChild(s.promises[pid].tree, dir, p) && LeafName(p) == name
    ensures LookupChild(s, d, name) == Ok(NodeEntry(pid, Node(s, pid, p)))
  {
    pid, dir := FoundAt(s, d);
    p := ChildPath(dir, name);
    ChildSplits(dir, name);
    var tree := s.promises[pid].tree;
    assert PromiseValid(s, pid);
    assert p in tree.children[dir] <==> IsChild(tree, dir, p);
  }

  lemma AgreementInside(s: State, d: nat, e: DirectoryEntry)
    requires Valid(s) && d != FUSE_ROOT_INODE
    ensures Lists(s, d, e) <==> Finds(s, d, e)
  {
    if Lists(s, d, e) {
      var pid, dir := FoundAt(s, d);
      DirectoryListing(s, pid, dir);
      var tree := s.promises[pid].tree;
      var paths := InOrder(tree.children[dir]);
      var i :| 0 <= i < |paths| && ReadDir(s, d).value[i] == e;
      assert paths[i] in paths && PromiseValid(s, pid);
      ListedIsFound(s, pid, dir, paths[i]);
      ChildStored(tree, dir, paths[i]);
    }
    if Finds(s, d, e) {
      var pid, dir, p := FoundIsListed(s, d, e.name);
      DirectoryListing(s, pid, dir);
      var tree := s.promises[pid].tree;
      assert PromiseValid(s, pid);
      ChildStored(tree, dir, p);
      assert p in InOrder(tree.children[dir]);
      var i :| 0 <= i < |InOrder(tree.children[dir])| && InOrder(tree.children[dir])[i] == p;
      assert ReadDir(s, d).value[i] == e;
    }
  }

  /** A name is looked up with an inode and kind exactly when the listing holds that very entry. */
  lemma NamespaceAgreement(s: State, d: nat, e: DirectoryEntry)
    requires Valid(s)
    ensures Lists(s, d, e) <==> Finds(s, d, e)
  {
    if d == FUSE_ROOT_INODE {
      AgreementAtRoot(s, e);
    } else {
      AgreementInside(s, d, e);
    }
  }

  /** What was found in `d` has `d` as its parent inode. */
  lemma FoundHasParent(s: State, d: nat, name: string)
    requires Valid(s) && LookupChild(s, d, name).Ok?
    ensures ParentInode(s, LookupChild(s, d, name).value) == Ok(d)
  {
    if d == FUSE_ROOT_INODE {
      assert PromiseValid(s, name) && NodeValid(s.promises[name].tree, "");
    } else {
      var pid, dir, p := FoundIsListed(s, d, name);
      ListedIsFound(s, pid, dir, p);
    }
  }

  /** No listing holds a name twice. */
  lemma ListedOnce(s: State, d: nat, i: nat, j: nat)
    requires Valid(s) && ReadDir(s, d).Ok? && i < |ReadDir(s, d).value| && j < |ReadDir(s, d).value|
    ensures ReadDir(s, d).value[i].name == ReadDir(s, d).value[j].name ==> i == j
  {
    if d == FUSE_ROOT_INODE {
      RootListing(s);
      InOrderDistinct(s.promises.Keys, i, j);
    } else {
      var pid, dir := FoundAt(s, d);
      DirectoryListing(s, pid, dir);
      var tree := s.promises[pid].tree;
      assert PromiseValid(s, pid);
      var paths := InOrder(tree.children[dir]);
      assert paths[i] in paths && paths[j] in paths;
      ChildStored(tree, dir, paths[i]);
      ChildStored(tree, dir, paths[j]);
      InOrderDistinct(tree.children[dir], i, j);
    }
  }
}
