/**
  Promise trees: the builder that collects declared nodes, the subtree walk, and the
  commit transport that lists a builder in key order and replays it elsewhere.
 */
module Tree {
  import opened Base
  import opened Paths

  datatype NodeKind = File | Directory

  datatype NodeAttr = NodeAttr(mode: nat, size: U64, mtimeNsec: int)

  datatype PromiseNode = PromiseNode(
    nodeId: nat,
    inode: nat,
    relativePath: string,
    parentPath: Option<string>,
    name: string,
    providerNodeId: string,
    materializedPath: Option<string>,
    kind: NodeKind,
    attr: NodeAttr)

  /** The node map and the children index, keyed by relative path. */
  datatype Tree = Tree(nodes: map<string, PromiseNode>, children: map<string, set<string>>)

  predicate AttrAccepted(kind: NodeKind, attr: NodeAttr) {
    attr.mode <= 0xFFF && attr.mtimeNsec >= 0 && (kind.Directory? ==> attr.size == 0)
  }

  // ---- the tree invariant --------------------------------------------------

  ghost predicate IsDirectory(t: Tree, p: string) {
    p in t.nodes && t.nodes[p].kind.Directory?
  }

  ghost predicate IsChild(t: Tree, d: string, p: string) {
    p in t.nodes && p != "" && ParentPath(p) == d
  }

  /** What a stored node says about its own path. */
  ghost predicate Shape(node: PromiseNode, p: string) {
    && Normal(p) && node.relativePath == p && node.name == LeafName(p)
    && (if p == "" then node.parentPath.None? && node.kind.Directory? && node.attr.mode <= 0xFFF
        else node.parentPath == Some(ParentPath(p)) && node.providerNodeId != "" && AttrAccepted(node.kind, node.attr))
  }

  ghost predicate NodeValid(t: Tree, p: string)
    requires p in t.nodes
  {
    Shape(t.nodes[p], p) && (p == "" || IsDirectory(t, ParentPath(p)))
  }

  /** The children index is the parent relation, and its keys are the directories. */
  ghost predicate TreeValid(t: Tree) {
    && "" in t.nodes
    && (forall p {:trigger NodeValid(t, p)} :: p in t.nodes ==> NodeValid(t, p))
    && (forall d :: d in t.children <==> IsDirectory(t, d))
    && (forall d, p {:trigger IsChild(t, d, p)} :: d in t.children ==> (p in t.children[d] <==> IsChild(t, d, p)))
  }

  // ---- the builder ---------------------------------------------------------

  datatype BuilderState = BuilderState(providerId: nat, nextNodeId: nat, nextInode: nat, tree: Tree)

  const ROOT: PromiseNode := PromiseNode(1, 1, "", None, "", "", None, Directory, NodeAttr(0x1ED, 0, 0))

  function Fresh(providerId: nat): BuilderState {
    BuilderState(providerId, 2, 2, Tree(map["" := ROOT], map["" := {}]))
  }

  datatype NodeSpec = NodeSpec(kind: NodeKind, relativePath: string, providerNodeId: string, attr: NodeAttr)

  /** Why a declared node is refused, or the normalized path it is stored under. */
  function Admitted(t: Tree, spec: NodeSpec): Result<string> {
    if spec.providerNodeId == "" then Err(InvalidArgument)
    else if !AttrAccepted(spec.kind, spec.attr) then Err(InvalidArgument)
    else
      var path := Normalized(spec.relativePath);
      if path.Err? then path
      else if path.value == "" then Err(InvalidArgument)
      else if path.value in t.nodes then Err(AlreadyExists)
      else if ParentPath(path.value) !in t.nodes then Err(NotFound)
      else if !t.nodes[ParentPath(path.value)].kind.Directory? then Err(InvalidArgument)
      else path
  }

  /** The tree with one more node and the index entries that go with it. */
  function Attached(t: Tree, node: PromiseNode): Tree {
    var parent := ParentPath(node.relativePath);
    var siblings := if parent in t.children then t.children[parent] else {};
    var children := t.children[parent := siblings + {node.relativePath}];
    Tree(t.nodes[node.relativePath := node],
         if node.kind.File? || node.relativePath in children then children
         else children[node.relativePath := {}])
  }

  function NodeFrom(b: BuilderState, spec: NodeSpec, path: string): PromiseNode {
    PromiseNode(b.nextNodeId, b.nextInode, path, Some(ParentPath(path)), LeafName(path),
                spec.providerNodeId, None, spec.kind, spec.attr)
  }

  function Added(b: BuilderState, spec: NodeSpec): Result<BuilderState> {
    var path := Admitted(b.tree, spec);
    if path.Err? then Err(path.status)
    else Ok(BuilderState(b.providerId, b.nextNodeId + 1, b.nextInode + 1,
                         Attached(b.tree, NodeFrom(b, spec, path.value))))
  }

  class PromiseBuilder {
    var providerId: nat
    var nextNodeId: nat
    var nextInode: nat
    var nodes: map<string, PromiseNode>
    var children: map<string, set<string>>

    ghost function View(): BuilderState
      reads this
    {
      BuilderState(providerId, nextNodeId, nextInode, Tree(nodes, children))
    }

    constructor (providerId: nat)
      ensures View() == Fresh(providerId)
    {
      this.providerId := providerId;
      nextNodeId, nextInode := 2, 2;
      nodes, children := map["" := ROOT], map["" := {}];
    }

    method AddNode(relativePath: string, attr: NodeAttr, providerNodeId: string, kind: NodeKind)
      returns (r: Result<()>)
      modifies this
      ensures var next := Added(old(View()), NodeSpec(kind, relativePath, providerNodeId, attr));
              if next.Ok? then r == Ok(()) && View() == next.value
              else r == Err(next.status) && View() == old(View())
    {
      if providerNodeId == "" {
        return Err(InvalidArgument);
      }
      if !AttrAccepted(kind, attr) {
        return Err(InvalidArgument);
      }
      var normal := NormalizeRelativePath(relativePath);
      if normal.Err? {
        return Err(normal.status);
      }
      var path := normal.value;
      if path == "" {
        return Err(InvalidArgument);
      }
      if path in nodes {
        return Err(AlreadyExists);
      }
      var parent := ParentPath(path);
      if parent !in nodes {
        return Err(NotFound);
      }
      if nodes[parent].kind != Directory {
        return Err(InvalidArgument);
      }
      var nodeId := nextNodeId;
      nextNodeId := nextNodeId + 1;
      var inode := nextInode;
      nextInode := nextInode + 1;
      nodes := nodes[path := PromiseNode(nodeId, inode, path, Some(parent), LeafName(path), providerNodeId, None, kind, attr)];
      children := children[parent := (if parent in children then children[parent] else {}) + {path}];
      if kind == Directory && path !in children {
        children := children[path := {}];
      }
      return Ok(());
    }
  }

  /** The state of every builder that add_dir and add_file can produce. */
  ghost predicate BuilderValid(b: BuilderState) {
    && TreeValid(b.tree)
    && b.tree.nodes[""] == ROOT
    && (forall p :: p in b.tree.nodes ==> b.tree.nodes[p].materializedPath.None?)
  }

  lemma AttachedNodes(t: Tree, node: PromiseNode, q: string)
    requires TreeValid(t) && node.relativePath !in t.nodes
    requires Shape(node, node.relativePath) && IsDirectory(t, ParentPath(node.relativePath))
    requires q in Attached(t, node).nodes
    ensures NodeValid(Attached(t, node), q)
  {
    if q != node.relativePath {
      assert NodeValid(t, q);
    }
  }

  lemma AttachedChildren(t: Tree, node: PromiseNode, d: string, q: string)
    requires TreeValid(t) && node.relativePath !in t.nodes
    requires IsDirectory(t, ParentPath(node.relativePath)) && ParentPath(node.relativePath) != node.relativePath
    requires d in Attached(t, node).children
    ensures q in Attached(t, node).children[d] <==> IsChild(Attached(t, node), d, q)
  {
    var p, u := node.relativePath, Attached(t, node);
    var parent := ParentPath(p);
    assert parent in t.children && p !in t.children;
    if d == p {
      assert u.children[d] == {};
      assert q in t.nodes && q != "" ==> NodeValid(t, q);
    } else if d == parent {
      assert u.children[d] == t.children[d] + {p};
      assert q in t.children[d] <==> IsChild(t, d, q);
    } else {
      assert u.children[d] == t.children[d];
      assert q in t.children[d] <==> IsChild(t, d, q);
    }
  }

  lemma AttachedDirectories(t: Tree, node: PromiseNode, d: string)
    requires TreeValid(t) && node.relativePath !in t.nodes && IsDirectory(t, ParentPath(node.relativePath))
    ensures d in Attached(t, node).children <==> IsDirectory(Attached(t, node), d)
  {
    assert d in t.children <==> IsDirectory(t, d);
    assert IsDirectory(t, ParentPath(node.relativePath));
  }

  lemma AttachedValid(t: Tree, node: PromiseNode)
    requires TreeValid(t) && node.relativePath !in t.nodes
    requires Shape(node, node.relativePath) && IsDirectory(t, ParentPath(node.relativePath))
    ensures TreeValid(Attached(t, node))
  {
    var u := Attached(t, node);
    forall q {:trigger NodeValid(u, q)} | q in u.nodes ensures NodeValid(u, q) {
      AttachedNodes(t, node, q);
    }
    forall d ensures d in u.children <==> IsDirectory(u, d) {
      AttachedDirectories(t, node, d);
    }
    forall d, q {:trigger IsChild(u, d, q)} | d in u.children ensures q in u.children[d] <==> IsChild(u, d, q) {
      AttachedChildren(t, node, d, q);
    }
  }

  lemma NewNodeShape(b: BuilderState, spec: NodeSpec)
    requires Admitted(b.tree, spec).Ok?
    ensures var path := Admitted(b.tree, spec).value;
            && path !in b.tree.nodes && IsDirectory(b.tree, ParentPath(path))
            && Shape(NodeFrom(b, spec, path), path)
  {
    NormalizedIsNormal(spec.relativePath);
  }

  /**
    A declaration is accepted if and only if it names a provider node, its attributes are sound, its path
    may be normalized, and its components name no node yet while all but the last name a directory.
   */
  lemma AdmittedIff(t: Tree, spec: NodeSpec)
    ensures var input, parts := spec.relativePath, Meaningful(Split(spec.relativePath));
            && (Admitted(t, spec).Ok? <==>
                && spec.providerNodeId != "" && spec.attr.mode <= 0xFFF && spec.attr.mtimeNsec >= 0
                && (spec.kind.Directory? ==> spec.attr.size == 0)
                && NUL !in input && !("/" <= input) && ".." !in Split(input)
                && parts != [] && Join(parts) !in t.nodes && IsDirectory(t, Join(parts[..|parts| - 1])))
            && (Admitted(t, spec).Ok? ==> Admitted(t, spec).value == Join(parts))
  {
    var input, parts := spec.relativePath, Meaningful(Split(spec.relativePath));
    NormalizedExact(input);
    KeptExact(Split(input));
    if Normalized(input).Ok? {
      SplitPieces(input);
      KeptGood(Split(input));
      if parts != [] {
        assert GoodName(parts[|parts| - 1]);
        ChildSplits(Join(parts[..|parts| - 1]), parts[|parts| - 1]);
      }
    }
  }

  lemma AddedValid(b: BuilderState, spec: NodeSpec)
    requires BuilderValid(b) && Added(b, spec).Ok?
    ensures BuilderValid(Added(b, spec).value)
  {
    NewNodeShape(b, spec);
    var node := NodeFrom(b, spec, Admitted(b.tree, spec).value);
    var t, u := b.tree, Attached(b.tree, node);
    AttachedValid(t, node);
    assert u.nodes == t.nodes[node.relativePath := node] && node.relativePath != "";
  }

  /** Replays declared nodes one after another, stopping at the first refusal. */
  function Replay(b: BuilderState, specs: seq<NodeSpec>): Result<BuilderState> {
    if specs == [] then Ok(b)
    else
      var before := Replay(b, specs[..|specs| - 1]);
      if before.Err? then before else Added(before.value, specs[|specs| - 1])
  }

  /** Every sequence of declarations that is accepted leaves a valid builder. */
  lemma {:induction false} ReplayValid(b: BuilderState, specs: seq<NodeSpec>)
    requires BuilderValid(b) && Replay(b, specs).Ok?
    ensures BuilderValid(Replay(b, specs).value)
  {
    if specs != [] {
      ReplayValid(b, specs[..|specs| - 1]);
      AddedValid(Replay(b, specs[..|specs| - 1]).value, specs[|specs| - 1]);
    }
  }

  lemma FreshValid(providerId: nat)
    ensures BuilderValid(Fresh(providerId))
  {
    assert LeafName("") == "";
  }

  lemma {:induction false} ReplayStops(b: BuilderState, specs: seq<NodeSpec>, i: nat)
    requires i <= |specs| && Replay(b, specs[..i]).Err?
    ensures Replay(b, specs) == Replay(b, specs[..i])
    decreases |specs|
  {
    if i == |specs| {
      assert specs[..i] == specs;
    } else {
      assert specs[..|specs| - 1][..i] == specs[..i];
      ReplayStops(b, specs[..|specs| - 1], i);
    }
  }

  /** The commit handler's loop over the received nodes. */
  method ReplayCommit(providerId: nat, specs: seq<NodeSpec>) returns (r: Result<PromiseBuilder>)
    ensures var replayed := Replay(Fresh(providerId), specs);
            if replayed.Ok? then r.Ok? && r.value.View() == replayed.value else r == Err(replayed.status)
  {
    var builder := new PromiseBuilder(providerId);
    for i := 0 to |specs|
      invariant Replay(Fresh(providerId), specs[..i]) == Ok(builder.View())
    {
      assert specs[..i + 1][..i] == specs[..i];
      var added := builder.AddNode(specs[i].relativePath, specs[i].attr, specs[i].providerNodeId, specs[i].kind);
      if added.Err? {
        ReplayStops(Fresh(providerId), specs, i + 1);
        return Err(added.status);
      }
    }
    assert specs[..|specs|] == specs;
    return Ok(builder);
  }

  // ---- the commit transport ------------------------------------------------

  function SpecOf(node: PromiseNode): NodeSpec {
    NodeSpec(node.kind, node.relativePath, node.providerNodeId, node.attr)
  }

  /** The non-root nodes of a builder, in key order. */
  function Listing(t: Tree, keys: seq<string>): seq<NodeSpec>
    requires forall k :: k in keys ==> k in t.nodes
  {
    if keys == [] then []
    else
      var rest, k := Listing(t, keys[..|keys| - 1]), keys[|keys| - 1];
      if t.nodes[k].relativePath == "" then rest else rest + [SpecOf(t.nodes[k])]
  }

  function CommitRequest(t: Tree): seq<NodeSpec> {
    InOrderSorted(t.nodes.Keys);
    Listing(t, InOrder(t.nodes.Keys))
  }

  /** Equal except for the runtime identifiers. */
  ghost predicate SameNode(a: PromiseNode, b: PromiseNode) {
    a == b.(nodeId := a.nodeId, inode := a.inode)
  }

  ghost predicate SameTree(a: Tree, b: Tree) {
    && a.nodes.Keys == b.nodes.Keys
    && (forall p :: p in a.nodes ==> SameNode(a.nodes[p], b.nodes[p]))
    && a.children == b.children
  }

  /** `a` holds the root of `b` and those nodes of `b` whose keys are listed. */
  ghost predicate HoldsKeys(a: Tree, b: Tree, keys: seq<string>) {
    && (forall p :: p in a.nodes <==> p == "" || p in keys)
    && (forall p :: p in a.nodes ==> p in b.nodes && SameNode(a.nodes[p], b.nodes[p]))
  }

  /** One more listed key: the replayed builder admits it, because its parent sorts before it. */
  lemma ReplayOne(b: BuilderState, c: BuilderState, init: seq<string>, k: string)
    requires BuilderValid(b) && BuilderValid(c) && HoldsKeys(c.tree, b.tree, init)
    requires k in b.tree.nodes && k != "" && k !in init
    requires ParentPath(k) == "" || ParentPath(k) in init
    ensures var r := Added(c, SpecOf(b.tree.nodes[k]));
            r.Ok? && BuilderValid(r.value) && HoldsKeys(r.value.tree, b.tree, init + [k])
  {
    assert NodeValid(b.tree, k);
    var spec, d := SpecOf(b.tree.nodes[k]), ParentPath(k);
    NormalizedFixpoint(k);
    assert d in c.tree.nodes && SameNode(c.tree.nodes[d], b.tree.nodes[d]);
    assert Admitted(c.tree, spec) == Ok(k);
    AddedValid(c, spec);
    assert SameNode(NodeFrom(c, spec, k), b.tree.nodes[k]);
  }

  lemma {:induction false} ReplayPrefix(b: BuilderState, keys: seq<string>)
    requires BuilderValid(b)
    requires StrictlySorted(keys) && (forall k :: k in keys ==> k in b.tree.nodes)
    requires forall k, p :: k in keys && p in b.tree.nodes && Below(p, k) ==> p in keys
    ensures var r := Replay(Fresh(b.providerId), Listing(b.tree, keys));
            r.Ok? && BuilderValid(r.value) && HoldsKeys(r.value.tree, b.tree, keys)
    decreases |keys|
  {
    if keys == [] {
      FreshValid(b.providerId);
    } else {
      var n := |keys| - 1;
      var init, k := keys[..n], keys[n];
      assert keys == init + [k];
      PrefixClosed(b.tree, keys);
      ReplayPrefix(b, init);
      var specs := Listing(b.tree, init);
      var c := Replay(Fresh(b.providerId), specs).value;
      assert NodeValid(b.tree, k);
      if k != "" {
        LastNotBefore(keys);
        ParentBelow(k);
        ReplayOne(b, c, init, k);
        assert (specs + [SpecOf(b.tree.nodes[k])])[..|specs|] == specs;
      }
    }
  }

  lemma LastNotBefore(keys: seq<string>)
    requires keys != [] && StrictlySorted(keys)
    ensures keys[|keys| - 1] !in keys[..|keys| - 1]
  {
    var k := keys[|keys| - 1];
    BelowTotal(k, k);
    forall i | 0 <= i < |keys| - 1 ensures keys[i] != k {
      assert Below(keys[i], keys[|keys| - 1]);
    }
  }

  /** Dropping the last of the sorted keys keeps the list closed under smaller keys. */
  lemma PrefixClosed(t: Tree, keys: seq<string>)
    requires keys != [] && StrictlySorted(keys)
    requires forall k, p :: k in keys && p in t.nodes && Below(p, k) ==> p in keys
    ensures forall k, p :: k in keys[..|keys| - 1] && p in t.nodes && Below(p, k) ==> p in keys[..|keys| - 1]
    ensures StrictlySorted(keys[..|keys| - 1])
  {
    var n := |keys| - 1;
    forall k, p | k in keys[..n] && p in t.nodes && Below(p, k) ensures p in keys[..n] {
      var i :| 0 <= i < n && keys[i] == k;
      assert Below(keys[i], keys[n]);
      BelowTotal(p, k);
      assert keys == keys[..n] + [keys[n]];
    }
  }

  /** Listing a builder in key order and replaying it never fails and rebuilds the same tree. */
  lemma CommitRoundTrip(b: BuilderState)
    requires BuilderValid(b)
    ensures var r := Replay(Fresh(b.providerId), CommitRequest(b.tree));
            r.Ok? && r.value.providerId == b.providerId && SameTree(r.value.tree, b.tree)
  {
    var keys := InOrder(b.tree.nodes.Keys);
    InOrderSorted(b.tree.nodes.Keys);
    ReplayPrefix(b, keys);
    var c := Replay(Fresh(b.providerId), CommitRequest(b.tree)).value;
    ReplayProvider(Fresh(b.providerId), CommitRequest(b.tree));
    assert HoldsKeys(c.tree, b.tree, keys);
    assert c.tree.nodes.Keys == b.tree.nodes.Keys;
    SameChildren(c.tree, b.tree);
  }

  /** In valid trees the nodes determine the children index. */
  lemma SameChildren(a: Tree, b: Tree)
    requires TreeValid(a) && TreeValid(b) && a.nodes.Keys == b.nodes.Keys
    requires forall p :: p in a.nodes ==> SameNode(a.nodes[p], b.nodes[p])
    ensures a.children == b.children
  {
    assert forall d :: IsDirectory(a, d) <==> IsDirectory(b, d);
    forall d | d in a.children ensures a.children[d] == b.children[d] {
      assert IsDirectory(a, d) && IsDirectory(b, d);
      forall p ensures p in a.children[d] <==> p in b.children[d] {
        assert IsChild(a, d, p) <==> IsChild(b, d, p);
      }
    }
    assert a.children.Keys == b.children.Keys;
  }

  lemma {:induction false} ReplayProvider(b: BuilderState, specs: seq<NodeSpec>)
    requires Replay(b, specs).Ok?
    ensures Replay(b, specs).value.providerId == b.providerId
  {
    if specs != [] {
      ReplayProvider(b, specs[..|specs| - 1]);
    }
  }
}
