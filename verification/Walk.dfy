/** The subtree walk: pre-order, siblings in key order, and exact. */
module Walk {
  import opened Base
  import opened Paths
  import opened Tree

  /** `p` is `r` or lies below it. */
  ghost predicate Under(r: string, p: string)
    decreases |p|
  {
    p == r || (p != "" && Under(r, ParentPath(p)))
  }

  lemma {:induction false} UnderShorter(r: string, p: string)
    requires Under(r, p)
    ensures |r| <= |p|
    decreases |p|
  {
    if p != r {
      UnderShorter(r, ParentPath(p));
    }
  }

  lemma {:induction false} UnderTransitive(a: string, b: string, c: string)
    requires Under(a, b) && Under(b, c)
    ensures Under(a, c)
    decreases |c|
  {
    if b != c {
      UnderTransitive(a, b, ParentPath(c));
    }
  }

  /** Two paths above the same path are comparable. */
  lemma {:induction false} UnderLinear(a: string, b: string, c: string)
    requires Under(a, c) && Under(b, c)
    ensures Under(a, b) || Under(b, a)
    decreases |c|
  {
    if a != c && b != c {
      UnderLinear(a, b, ParentPath(c));
    }
  }

  lemma SiblingsApart(d: string, a: string, b: string, q: string)
    requires a != "" && b != "" && ParentPath(a) == d && ParentPath(b) == d
    requires Under(a, q) && Under(b, q)
    ensures a == b
  {
    UnderLinear(a, b, q);
    if a != b {
      if Under(a, b) { UnderShorter(a, d); } else { UnderShorter(b, d); }
    }
  }

  /** Below `p`, every node hangs under exactly one child of `p`. */
  lemma {:induction false} ChildToward(t: Tree, p: string, q: string) returns (c: string)
    requires TreeValid(t) && q in t.nodes && Under(p, q) && p != q
    ensures IsChild(t, p, c) && Under(c, q)
    decreases |q|
  {
    assert NodeValid(t, q);
    if ParentPath(q) == p {
      c := q;
    } else {
      c := ChildToward(t, p, ParentPath(q));
    }
  }

  lemma {:induction false} NothingUnderFile(t: Tree, p: string, q: string)
    requires TreeValid(t) && q in t.nodes && Under(p, q) && !IsDirectory(t, p)
    ensures q == p
    decreases |q|
  {
    if q != p {
      assert NodeValid(t, q);
      NothingUnderFile(t, p, ParentPath(q));
    }
  }

  /** Nodes at least as deep as `p`: shrinks strictly from a directory to its children. */
  ghost function Deeper(t: Tree, p: string): set<string> {
    set q | q in t.nodes && |q| >= |p|
  }

  lemma DeeperShrinks(t: Tree, d: string, c: string)
    requires d in t.nodes && IsChild(t, d, c)
    ensures Deeper(t, c) < Deeper(t, d)
  {
    assert d in Deeper(t, d) && d !in Deeper(t, c);
  }

  ghost predicate ChildrenOf(t: Tree, d: string, cs: seq<string>) {
    forall c :: c in cs ==> IsChild(t, d, c)
  }

  lemma SortedChildren(t: Tree, d: string)
    requires TreeValid(t) && IsDirectory(t, d)
    ensures d in t.children && ChildrenOf(t, d, InOrder(t.children[d]))
    ensures StrictlySorted(InOrder(t.children[d]))
    ensures forall c :: c in InOrder(t.children[d]) <==> IsChild(t, d, c)
  {
    InOrderSorted(t.children[d]);
  }

  ghost function Preorder(t: Tree, p: string): seq<string>
    requires TreeValid(t) && p in t.nodes
    decreases Deeper(t, p), 1, 0
  {
    if t.nodes[p].kind.File? then [p]
    else
      SortedChildren(t, p);
      [p] + PreorderAll(t, p, InOrder(t.children[p]))
  }

  ghost function PreorderAll(t: Tree, d: string, cs: seq<string>): seq<string>
    requires TreeValid(t) && d in t.nodes && ChildrenOf(t, d, cs)
    decreases Deeper(t, d), 0, |cs|
  {
    if cs == [] then []
    else
      var n := |cs| - 1;
      DeeperShrinks(t, d, cs[n]);
      PreorderAll(t, d, cs[..n]) + Preorder(t, cs[n])
  }

  // ---- exactness -----------------------------------------------------------

  /** A walk lists `q` once if it should and never otherwise. */
  ghost predicate Listed(s: seq<string>, q: string, wanted: bool) {
    multiset(s)[q] == if wanted then 1 else 0
  }

  ghost predicate AnyUnder(cs: seq<string>, q: string) {
    exists c :: c in cs && Under(c, q)
  }

  /** `q` hangs under at most one of the sorted siblings, so appending the last adds up. */
  lemma AnyUnderSnoc(t: Tree, d: string, cs: seq<string>, q: string)
    requires cs != [] && ChildrenOf(t, d, cs) && StrictlySorted(cs)
    ensures var n := |cs| - 1;
            && AnyUnder(cs, q) == (AnyUnder(cs[..n], q) || Under(cs[n], q))
            && !(AnyUnder(cs[..n], q) && Under(cs[n], q))
  {
    var n := |cs| - 1;
    var init, last := cs[..n], cs[n];
    assert cs == init + [last];
    assert IsChild(t, d, last);
    LastNotBefore(cs);
    forall c | c in init && Under(c, q) ensures !Under(last, q) {
      assert IsChild(t, d, c);
      if Under(last, q) { SiblingsApart(d, c, last, q); }
    }
  }

  /** A path is below a directory exactly when it is below one of its children, and never both it and below it. */
  lemma UnderDirectory(t: Tree, p: string, cs: seq<string>, q: string)
    requires TreeValid(t) && q in t.nodes && (forall c :: c in cs <==> IsChild(t, p, c))
    ensures Under(p, q) <==> q == p || AnyUnder(cs, q)
    ensures !(q == p && AnyUnder(cs, q))
  {
    forall c | c in cs && Under(c, q) ensures Under(p, q) && q != p {
      assert IsChild(t, p, c);
      UnderTransitive(p, c, q);
      if q == p { UnderShorter(c, p); }
    }
    if Under(p, q) && q != p {
      var c := ChildToward(t, p, q);
    }
  }

  lemma {:induction false} PreorderExact(t: Tree, p: string, q: string)
    requires TreeValid(t) && p in t.nodes
    ensures Listed(Preorder(t, p), q, q in t.nodes && Under(p, q))
    decreases Deeper(t, p), 1, 0
  {
    if t.nodes[p].kind.File? {
      if q in t.nodes && Under(p, q) {
        NothingUnderFile(t, p, q);
      }
    } else {
      SortedChildren(t, p);
      var cs := InOrder(t.children[p]);
      PreorderAllExact(t, p, cs, q);
      if q in t.nodes {
        UnderDirectory(t, p, cs, q);
      }
    }
  }

  lemma {:induction false} PreorderAllExact(t: Tree, d: string, cs: seq<string>, q: string)
    requires TreeValid(t) && d in t.nodes && ChildrenOf(t, d, cs) && StrictlySorted(cs)
    ensures Listed(PreorderAll(t, d, cs), q, q in t.nodes && AnyUnder(cs, q))
    decreases Deeper(t, d), 0, |cs|
  {
    if cs != [] {
      var n := |cs| - 1;
      assert IsChild(t, d, cs[n]);
      DeeperShrinks(t, d, cs[n]);
      PreorderAllExact(t, d, cs[..n], q);
      PreorderExact(t, cs[n], q);
      AnyUnderSnoc(t, d, cs, q);
    }
  }

  /** Every listed path other than `root` comes after its parent. */
  ghost predicate ParentsFirst(s: seq<string>, root: string) {
    forall j {:trigger s[j]} :: 0 <= j < |s| && s[j] != root ==> ParentPath(s[j]) in s[..j]
  }

  lemma {:induction false} PreorderParentsFirst(t: Tree, p: string)
    requires TreeValid(t) && p in t.nodes
    ensures Preorder(t, p)[0] == p && ParentsFirst(Preorder(t, p), p)
    decreases Deeper(t, p), 1, 0
  {
    if t.nodes[p].kind.Directory? {
      SortedChildren(t, p);
      var cs := InOrder(t.children[p]);
      PreorderAllParentsFirst(t, p, cs);
    }
  }

  lemma {:induction false} PreorderAllParentsFirst(t: Tree, d: string, cs: seq<string>)
    requires TreeValid(t) && d in t.nodes && ChildrenOf(t, d, cs)
    ensures ParentsFirst([d] + PreorderAll(t, d, cs), d)
    decreases Deeper(t, d), 0, |cs|
  {
    if cs != [] {
      var n := |cs| - 1;
      var init, last := cs[..n], cs[n];
      assert IsChild(t, d, last);
      DeeperShrinks(t, d, last);
      PreorderAllParentsFirst(t, d, init);
      PreorderParentsFirst(t, last);
      AppendParentsFirst([d] + PreorderAll(t, d, init), Preorder(t, last), d, last);
      PreorderSnoc(t, d, cs);
    }
  }

  lemma PreorderSnoc(t: Tree, d: string, cs: seq<string>)
    requires TreeValid(t) && d in t.nodes && ChildrenOf(t, d, cs) && cs != [] && IsChild(t, d, cs[|cs| - 1])
    ensures var n := |cs| - 1;
            [d] + PreorderAll(t, d, cs) == ([d] + PreorderAll(t, d, cs[..n])) + Preorder(t, cs[n])
  {
  }

  lemma AppendParentsFirst(a: seq<string>, b: seq<string>, d: string, last: string)
    requires ParentsFirst(a, d) && ParentsFirst(b, last) && ParentPath(last) == d && d in a
    ensures ParentsFirst(a + b, d)
  {
    var s := a + b;
    forall j {:trigger s[j]} | 0 <= j < |s| && s[j] != d ensures ParentPath(s[j]) in s[..j] {
      if j < |a| {
        assert s[..j] == a[..j] && s[j] == a[j];
      } else {
        assert s[..j] == a + b[..j - |a|] && s[j] == b[j - |a|];
      }
    }
  }

  // ---- the source's recursive collection -----------------------------------

  ghost function NodesAt(t: Tree, paths: seq<string>): (r: seq<PromiseNode>)
    requires forall p :: p in paths ==> p in t.nodes
    ensures |r| == |paths|
  {
    seq(|paths|, i requires 0 <= i < |paths| => t.nodes[paths[i]])
  }

  lemma NodesAtAppend(t: Tree, a: seq<string>, b: seq<string>)
    requires forall p :: p in a + b ==> p in t.nodes
    ensures NodesAt(t, a + b) == NodesAt(t, a) + NodesAt(t, b)
  {
  }

  lemma {:induction false} PreorderNodes(t: Tree, p: string)
    requires TreeValid(t) && p in t.nodes
    ensures forall q :: q in Preorder(t, p) ==> q in t.nodes && Under(p, q)
  {
    forall q | q in Preorder(t, p) ensures q in t.nodes && Under(p, q) {
      PreorderExact(t, p, q);
      assert q in multiset(Preorder(t, p));
    }
  }

  /** What the loop over the first `i` children has collected for `path`. */
  ghost predicate Visited(t: Tree, path: string, i: nat, nodes: seq<PromiseNode>)
    requires TreeValid(t) && IsDirectory(t, path) && path in t.children && i <= |InOrder(t.children[path])|
  {
    var cs := InOrder(t.children[path])[..i];
    && ChildrenOf(t, path, cs)
    && (forall q :: q in [path] + PreorderAll(t, path, cs) ==> q in t.nodes)
    && nodes == NodesAt(t, [path] + PreorderAll(t, path, cs))
  }

  lemma VisitedStart(t: Tree, path: string)
    requires TreeValid(t) && IsDirectory(t, path) && path in t.children
    ensures Visited(t, path, 0, [t.nodes[path]])
  {
    assert NodesAt(t, [path] + []) == [t.nodes[path]];
  }

  lemma VisitedStep(t: Tree, path: string, i: nat, nodes: seq<PromiseNode>)
    requires TreeValid(t) && IsDirectory(t, path) && path in t.children && i < |InOrder(t.children[path])|
    requires Visited(t, path, i, nodes)
    ensures var c := InOrder(t.children[path])[i];
            && IsChild(t, path, c) && (forall q :: q in Preorder(t, c) ==> q in t.nodes)
            && Visited(t, path, i + 1, nodes + NodesAt(t, Preorder(t, c)))
  {
    SortedChildren(t, path);
    var all := InOrder(t.children[path]);
    var cs, c := all[..i + 1], all[i];
    assert c in all && cs[..i] == all[..i] && cs == all[..i] + [c];
    PreorderNodes(t, c);
    PreorderSnoc(t, path, cs);
    NodesAtAppend(t, [path] + PreorderAll(t, path, all[..i]), Preorder(t, c));
  }

  lemma VisitedAll(t: Tree, path: string, nodes: seq<PromiseNode>)
    requires TreeValid(t) && IsDirectory(t, path) && path in t.children
    requires Visited(t, path, |InOrder(t.children[path])|, nodes)
    ensures (forall q :: q in Preorder(t, path) ==> q in t.nodes) && nodes == NodesAt(t, Preorder(t, path))
  {
    var cs := InOrder(t.children[path]);
    assert cs[..|cs|] == cs;
  }

  method CollectSubtreeNodes(t: Tree, path: string, nodes: seq<PromiseNode>) returns (r: Result<seq<PromiseNode>>)
    requires TreeValid(t)
    ensures path !in t.nodes ==> r == Err(NotFound)
    ensures path in t.nodes ==>
      (forall q :: q in Preorder(t, path) ==> q in t.nodes) && r == Ok(nodes + NodesAt(t, Preorder(t, path)))
    decreases Deeper(t, path)
  {
    if path !in t.nodes {
      return Err(NotFound);
    }
    var collected := nodes + [t.nodes[path]];
    if t.nodes[path].kind == Directory {
      if path !in t.children {
        assert IsDirectory(t, path);
        assert false;
      }
      var cs := InOrder(t.children[path]);
      ghost var visited := [t.nodes[path]];
      VisitedStart(t, path);
      for i := 0 to |cs|
        invariant Visited(t, path, i, visited) && collected == nodes + visited
      {
        VisitedStep(t, path, i, visited);
        DeeperShrinks(t, path, cs[i]);
        var sub := CollectSubtreeNodes(t, cs[i], collected);
        if sub.Err? {
          assert false;
        }
        collected := sub.value;
        visited := visited + NodesAt(t, Preorder(t, cs[i]));
      }
      VisitedAll(t, path, visited);
    } else {
      assert NodesAt(t, [path]) == [t.nodes[path]];
    }
    return Ok(collected);
  }

  /** The listed paths are the subtree of `root`, each once, the root first and parents before children. */
  ghost predicate ExactSubtree(t: Tree, root: string, paths: seq<string>) {
    && (forall q :: Listed(paths, q, q in t.nodes && Under(root, q)))
    && paths != [] && paths[0] == root && ParentsFirst(paths, root)
  }

  lemma PreorderExactSubtree(t: Tree, root: string)
    requires TreeValid(t) && root in t.nodes
    ensures ExactSubtree(t, root, Preorder(t, root))
  {
    PreorderParentsFirst(t, root);
    forall q ensures Listed(Preorder(t, root), q, q in t.nodes && Under(root, q)) {
      PreorderExact(t, root, q);
    }
  }

  ghost function PathsOf(nodes: seq<PromiseNode>): seq<string> {
    seq(|nodes|, i requires 0 <= i < |nodes| => nodes[i].relativePath)
  }

  lemma PathsOfPreorder(t: Tree, root: string)
    requires TreeValid(t) && root in t.nodes && forall q :: q in Preorder(t, root) ==> q in t.nodes
    ensures PathsOf(NodesAt(t, Preorder(t, root))) == Preorder(t, root)
  {
    forall i | 0 <= i < |Preorder(t, root)| ensures t.nodes[Preorder(t, root)[i]].relativePath == Preorder(t, root)[i] {
      var p := Preorder(t, root)[i];
      assert p in Preorder(t, root);
      assert NodeValid(t, p);
    }
  }

  /** On an existing path the walk never fails and lists its subtree exactly once, parents first. */
  method SubtreeNodes(t: Tree, relativePath: string) returns (r: Result<seq<PromiseNode>>)
    requires TreeValid(t)
    ensures Normalized(relativePath).Err? ==> r == Err(InvalidArgument)
    ensures Normalized(relativePath).Ok? && Normalized(relativePath).value !in t.nodes ==> r == Err(NotFound)
    ensures Normalized(relativePath).Ok? && Normalized(relativePath).value in t.nodes ==>
      && r.Ok? && ExactSubtree(t, Normalized(relativePath).value, PathsOf(r.value))
      && forall node :: node in r.value ==> node.relativePath in t.nodes && t.nodes[node.relativePath] == node
  {
    var normal := NormalizeRelativePath(relativePath);
    if normal.Err? {
      return Err(normal.status);
    }
    var root := normal.value;
    if root !in t.nodes {
      return Err(NotFound);
    }
    r := CollectSubtreeNodes(t, root, []);
    PreorderExactSubtree(t, root);
    PathsOfPreorder(t, root);
    assert r.value == NodesAt(t, Preorder(t, root));
    forall node | node in r.value ensures node.relativePath in t.nodes && t.nodes[node.relativePath] == node {
      var i :| 0 <= i < |r.value| && r.value[i] == node;
      assert PathsOf(r.value)[i] == Preorder(t, root)[i];
    }
  }
}
