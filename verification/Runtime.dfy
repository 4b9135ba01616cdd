/**
  The daemon's runtime: provider sessions, committed promises, global identifiers and the
  read cache.  Every mutating call is one event; the invariant and the evolution relation
  are proved for every event and so for every run.
 */
module Runtime {
  import opened Base
  import opened Paths
  import opened Tree
  import opened Cache

  const FUSE_ROOT_INODE: nat := 1

  datatype ProviderState = Live | Disconnected

  datatype PromiseState = Available | Gone | Materialized

  datatype CachePolicy = NoCache | ReadThrough(chunkSize: U32) {
    /** The chunk size in force; zero means that nothing is cached. */
    function ChunkSize(): U32 {
      if ReadThrough? then chunkSize else 0
    }
  }

  datatype Promise = Promise(promiseId: string, providerId: nat, state: PromiseState, tree: Tree)

  datatype State = State(
    nextProviderId: nat,
    nextPromiseId: nat,
    nextNodeId: nat,
    nextInode: nat,
    providers: map<nat, ProviderState>,
    promises: map<string, Promise>,
    cachePolicy: CachePolicy,
    files: CacheFiles)

  function Initial(): State {
    State(1, 1, 1, FUSE_ROOT_INODE + 1, map[], map[], NoCache, map[])
  }

  predicate HasProvider(s: State, provider: nat) {
    provider in s.providers && s.providers[provider].Live?
  }

  // ---- the invariant -------------------------------------------------------

  ghost predicate NodeAt(s: State, pid: string, p: string) {
    pid in s.promises && p in s.promises[pid].tree.nodes
  }

  ghost function Node(s: State, pid: string, p: string): PromiseNode
    requires NodeAt(s, pid, p)
  {
    s.promises[pid].tree.nodes[p]
  }

  /** A promise is available exactly while its provider is live. */
  ghost predicate PromiseValid(s: State, pid: string)
    requires pid in s.promises
  {
    var promise := s.promises[pid];
    && promise.promiseId == pid && TreeValid(promise.tree)
    && promise.providerId in s.providers
    && promise.state == (if s.providers[promise.providerId].Live? then Available else Gone)
  }

  ghost predicate Numbered(s: State, pid: string, n: nat) {
    1 <= n < s.nextPromiseId && pid == PromiseName(n)
  }

  ghost predicate IdsInRange(s: State, pid: string, p: string)
    requires NodeAt(s, pid, p)
  {
    2 <= Node(s, pid, p).inode < s.nextInode && 1 <= Node(s, pid, p).nodeId < s.nextNodeId
  }

  ghost predicate SameIdsSameNode(s: State, pid: string, p: string, qid: string, q: string)
    requires NodeAt(s, pid, p) && NodeAt(s, qid, q)
  {
    Node(s, pid, p).inode == Node(s, qid, q).inode || Node(s, pid, p).nodeId == Node(s, qid, q).nodeId ==>
      pid == qid && p == q
  }

  ghost predicate Valid(s: State) {
    && 1 <= s.nextProviderId && 1 <= s.nextPromiseId && 1 <= s.nextNodeId <= MAX_U64 && 2 <= s.nextInode <= MAX_U64
    && (forall provider :: provider in s.providers ==> 1 <= provider < s.nextProviderId)
    && (forall pid {:trigger PromiseValid(s, pid)} :: pid in s.promises ==> PromiseValid(s, pid))
    && (forall pid :: pid in s.promises ==> exists n :: Numbered(s, pid, n))
    && (forall pid, p {:trigger IdsInRange(s, pid, p)} :: NodeAt(s, pid, p) ==> IdsInRange(s, pid, p))
    && (forall pid, p, qid, q {:trigger SameIdsSameNode(s, pid, p, qid, q)} ::
          NodeAt(s, pid, p) && NodeAt(s, qid, q) ==> SameIdsSameNode(s, pid, p, qid, q))
    && CacheValid(s.files)
  }

  // ---- the events ----------------------------------------------------------

  datatype Event =
    | Register
    | Unregister(provider: nat)
    | Commit(builder: BuilderState)
    | Mark(promiseId: string, path: string, target: string)
    | SetPolicy(policy: CachePolicy)
    | Record(promiseId: string, path: string, offset: U64, bytes: seq<Byte>)

  function Registered(s: State): State {
    s.(nextProviderId := s.nextProviderId + 1, providers := s.providers[s.nextProviderId := Live])
  }

  function Retired(promise: Promise, provider: nat): Promise {
    if promise.providerId == provider && promise.state.Available? then promise.(state := Gone) else promise
  }

  function Unregistered(s: State, provider: nat): State {
    if provider !in s.providers then s
    else s.(providers := s.providers[provider := Disconnected],
            promises := map pid | pid in s.promises :: Retired(s.promises[pid], provider))
  }

  /** The nodes of a tree in key order received consecutive identifiers; nothing else changed. */
  ghost predicate Renumbered(before: map<string, PromiseNode>, after: map<string, PromiseNode>, firstId: nat, firstInode: nat) {
    && after.Keys == before.Keys
    && var keys := InOrder(before.Keys);
       forall i {:trigger keys[i]} :: 0 <= i < |keys| ==>
         && keys[i] in before
         && after[keys[i]] == before[keys[i]].(nodeId := firstId + i, inode := firstInode + i)
  }

  function CommitStatus(s: State, b: BuilderState): Option<Status> {
    if !HasProvider(s, b.providerId) then Some(Status.ProviderGone)
    else if s.nextNodeId + |b.tree.nodes| > MAX_U64 || s.nextInode + |b.tree.nodes| > MAX_U64 then Some(InvalidArgument)
    else None
  }

  ghost predicate Committed(s: State, b: BuilderState, t: State, nodes: map<string, PromiseNode>) {
    && Renumbered(b.tree.nodes, nodes, s.nextNodeId, s.nextInode)
    && t == s.(nextPromiseId := s.nextPromiseId + 1,
               nextNodeId := s.nextNodeId + |b.tree.nodes|, nextInode := s.nextInode + |b.tree.nodes|,
               promises := s.promises[PromiseName(s.nextPromiseId) :=
                 Promise(PromiseName(s.nextPromiseId), b.providerId, Available, Tree(nodes, b.tree.children))])
  }

  /** A commit that runs out of identifiers still uses up a promise number. */
  ghost predicate CommitExhausted(s: State, t: State) {
    && s.nextNodeId <= t.nextNodeId <= MAX_U64 && s.nextInode <= t.nextInode <= MAX_U64
    && t == s.(nextPromiseId := s.nextPromiseId + 1, nextNodeId := t.nextNodeId, nextInode := t.nextInode)
  }

  ghost predicate CommitNext(s: State, b: BuilderState, t: State) {
    match CommitStatus(s, b)
    case Some(ProviderGone) => t == s
    case Some(_) => CommitExhausted(s, t)
    case None => exists nodes :: Committed(s, b, t, nodes)
  }

  function MarkStatus(s: State, pid: string, path: string): Option<Status> {
    if Normalized(path).Err? then Some(Normalized(path).status)
    else if pid !in s.promises then Some(NotFound)
    else if Normalized(path).value !in s.promises[pid].tree.nodes then Some(NotFound)
    else None
  }

  function Marked(s: State, pid: string, p: string, target: string): State
    requires pid in s.promises && p in s.promises[pid].tree.nodes
  {
    var tree := s.promises[pid].tree;
    s.(promises := s.promises[pid := s.promises[pid].(tree :=
      tree.(nodes := tree.nodes[p := tree.nodes[p].(materializedPath := Some(target))]))])
  }

  function PolicySet(s: State, policy: CachePolicy): State {
    if policy.ReadThrough? && policy.chunkSize == 0 then s
    else s.(cachePolicy := policy, files := if policy.NoCache? then map[] else s.files)
  }

  /** `PromiseTree::get`: the node stored under the normalized path. */
  function GetNode(s: State, pid: string, path: string): Option<PromiseNode> {
    if pid !in s.promises then None
    else if Normalized(path).Err? || Normalized(path).value !in s.promises[pid].tree.nodes then None
    else Some(s.promises[pid].tree.nodes[Normalized(path).value])
  }

  /** Ok with None when there is nothing to store; otherwise the cache key to store under. */
  function RecordTarget(s: State, pid: string, path: string, offset: U64, bytes: seq<Byte>): Result<Option<CacheKey>> {
    if s.cachePolicy.ChunkSize() == 0 || bytes == [] then Ok(None)
    else
      var node := GetNode(s, pid, path);
      if node.None? then Err(NotFound)
      else if !node.value.kind.File? then Err(InvalidArgument)
      else if CheckedAdd(offset, |bytes|).None? then Err(InvalidArgument)
      else if offset + |bytes| > node.value.attr.size then Err(InvalidArgument)
      else Ok(Some(CacheKey(pid, node.value.relativePath)))
  }

  ghost predicate RecordNext(s: State, pid: string, path: string, offset: U64, bytes: seq<Byte>, t: State) {
    match RecordTarget(s, pid, path, offset, bytes)
    case Ok(Some(key)) =>
      && t == s.(files := t.files)
      && CacheValid(t.files) && CacheInserted(s.files, t.files, key, offset, bytes, s.cachePolicy.ChunkSize())
    case _ => t == s
  }

  ghost predicate Next(s: State, e: Event, t: State) {
    match e
    case Register => t == Registered(s)
    case Unregister(provider) => t == Unregistered(s, provider)
    case Commit(b) => CommitNext(s, b, t)
    case Mark(pid, path, target) =>
      t == (if MarkStatus(s, pid, path).None? then Marked(s, pid, Normalized(path).value, target) else s)
    case SetPolicy(policy) => t == PolicySet(s, policy)
    case Record(pid, path, offset, bytes) => RecordNext(s, pid, path, offset, bytes, t)
  }

  // ---- loops over ordered maps ---------------------------------------------

  /** The loop that retires promises has handled the first `i` of them. */
  ghost predicate RetiredUpTo(before: map<string, Promise>, after: map<string, Promise>, provider: nat, i: nat) {
    && after.Keys == before.Keys
    && var ids := InOrder(before.Keys);
       forall j {:trigger ids[j]} :: 0 <= j < |ids| ==>
         ids[j] in before && after[ids[j]] == if j < i then Retired(before[ids[j]], provider) else before[ids[j]]
  }

  lemma RetiredStart(before: map<string, Promise>, provider: nat)
    ensures RetiredUpTo(before, before, provider, 0)
  {
    InOrderSorted(before.Keys);
  }

  lemma RetiredStep(before: map<string, Promise>, after: map<string, Promise>, provider: nat, i: nat)
    requires i < |InOrder(before.Keys)| && RetiredUpTo(before, after, provider, i)
    ensures var pid := InOrder(before.Keys)[i];
            && pid in before && pid in after && after[pid] == before[pid]
            && RetiredUpTo(before, after[pid := Retired(before[pid], provider)], provider, i + 1)
  {
    var ids := InOrder(before.Keys);
    var next := after[ids[i] := Retired(before[ids[i]], provider)];
    forall j {:trigger ids[j]} | 0 <= j < |ids|
      ensures next[ids[j]] == if j < i + 1 then Retired(before[ids[j]], provider) else before[ids[j]]
    {
      InOrderDistinct(before.Keys, i, j);
    }
  }

  lemma RetiredAll(before: map<string, Promise>, after: map<string, Promise>, provider: nat)
    requires RetiredUpTo(before, after, provider, |InOrder(before.Keys)|)
    ensures after == map pid | pid in before :: Retired(before[pid], provider)
  {
    forall pid | pid in before ensures after[pid] == Retired(before[pid], provider) {
      var i := InOrderIndex(before.Keys, pid);
    }
  }

  /** The loop that assigns identifiers has handled the first `i` nodes. */
  ghost predicate NumberedUpTo(before: map<string, PromiseNode>, after: map<string, PromiseNode>, firstId: nat, firstInode: nat,
                               i: nat) {
    && after.Keys == before.Keys
    && var keys := InOrder(before.Keys);
       forall j {:trigger keys[j]} :: 0 <= j < |keys| ==>
         && keys[j] in before
         && after[keys[j]] == if j < i then before[keys[j]].(nodeId := firstId + j, inode := firstInode + j) else before[keys[j]]
  }

  lemma NumberedStart(before: map<string, PromiseNode>, firstId: nat, firstInode: nat)
    ensures NumberedUpTo(before, before, firstId, firstInode, 0)
    ensures |InOrder(before.Keys)| == |before|
  {
    InOrderSorted(before.Keys);
    assert |before.Keys| == |before|;
  }

  lemma NumberedStep(before: map<string, PromiseNode>, after: map<string, PromiseNode>, firstId: nat, firstInode: nat, i: nat)
    requires i < |InOrder(before.Keys)| && NumberedUpTo(before, after, firstId, firstInode, i)
    ensures var k := InOrder(before.Keys)[i];
            && k in after
            && NumberedUpTo(before, after[k := after[k].(nodeId := firstId + i, inode := firstInode + i)], firstId, firstInode, i + 1)
  {
    var keys := InOrder(before.Keys);
    var next := after[keys[i] := after[keys[i]].(nodeId := firstId + i, inode := firstInode + i)];
    forall j {:trigger keys[j]} | 0 <= j < |keys|
      ensures next[keys[j]] == if j < i + 1 then before[keys[j]].(nodeId := firstId + j, inode := firstInode + j) else before[keys[j]]
    {
      InOrderDistinct(before.Keys, i, j);
    }
  }

  // ---- the runtime object --------------------------------------------------

  class Runtime {
    var nextProviderId: nat
    var nextPromiseId: nat
    var nextNodeId: nat
    var nextInode: nat
    var providers: map<nat, ProviderState>
    var promises: map<string, Promise>
    var cachePolicy: CachePolicy
    var files: CacheFiles

    ghost function View(): State
      reads this
    {
      State(nextProviderId, nextPromiseId, nextNodeId, nextInode, providers, promises, cachePolicy, files)
    }

    constructor ()
      ensures View() == Initial()
    {
      nextProviderId, nextPromiseId, nextNodeId, nextInode := 1, 1, 1, FUSE_ROOT_INODE + 1;
      providers, promises, cachePolicy, files := map[], map[], NoCache, map[];
    }

    method SetCachePolicy(policy: CachePolicy) returns (r: Result<()>)
      modifies this
      ensures Next(old(View()), SetPolicy(policy), View())
      ensures r == if policy == ReadThrough(0) then Err(InvalidArgument) else Ok(())
    {
      if policy == ReadThrough(0) {
        return Err(InvalidArgument);
      }
      cachePolicy := policy;
      if policy == NoCache {
        var cache := new ReadCache(files);
        cache.Clear();
        files := cache.files;
      }
      return Ok(());
    }

    method RecordCachedRead(promiseId: string, relativePath: string, offset: U64, bytes: seq<Byte>)
      returns (r: Result<()>)
      requires CacheValid(files)
      modifies this
      ensures Next(old(View()), Record(promiseId, relativePath, offset, bytes), View())
      ensures var target := RecordTarget(old(View()), promiseId, relativePath, offset, bytes);
              r == if target.Ok? then Ok(()) else Err(target.status)
    {
      var chunkSize := cachePolicy.ChunkSize();
      if chunkSize == 0 || bytes == [] {
        return Ok(());
      }
      if promiseId !in promises {
        return Err(NotFound);
      }
      var path := NormalizeRelativePath(relativePath);
      if path.Err? || path.value !in promises[promiseId].tree.nodes {
        return Err(NotFound);
      }
      var node := promises[promiseId].tree.nodes[path.value];
      if node.kind != File {
        return Err(InvalidArgument);
      }
      var end := CheckedAdd(offset, |bytes|);
      if end.None? || end.value > node.attr.size {
        return Err(InvalidArgument);
      }
      var cache := new ReadCache(files);
      cache.Insert(promiseId, node.relativePath, offset, bytes, chunkSize);
      files := cache.files;
      return Ok(());
    }

    method RegisterProvider() returns (provider: nat)
      modifies this
      ensures Next(old(View()), Register, View()) && provider == old(nextProviderId)
    {
      provider := nextProviderId;
      nextProviderId := nextProviderId + 1;
      providers := providers[provider := Live];
    }

    method UnregisterProvider(provider: nat) returns (r: Result<()>)
      modifies this
      ensures Next(old(View()), Unregister(provider), View())
      ensures r == if provider in old(providers) then Ok(()) else Err(NotFound)
    {
      if provider !in providers {
        return Err(NotFound);
      }
      providers := providers[provider := Disconnected];
      var ids := InOrder(promises.Keys);
      ghost var before := promises;
      RetiredStart(before, provider);
      for i := 0 to |ids|
        modifies this`promises
        invariant RetiredUpTo(before, promises, provider, i)
      {
        RetiredStep(before, promises, provider, i);
        var promise := promises[ids[i]];
        promises := promises[ids[i] := Retired(promise, provider)];
      }
      RetiredAll(before, promises, provider);
      return Ok(());
    }

    /** Loops over the nodes in key order; fails when either counter cannot be advanced. */
    method AssignRuntimeIds(nodes: map<string, PromiseNode>) returns (r: Result<map<string, PromiseNode>>)
      requires nextNodeId <= MAX_U64 && nextInode <= MAX_U64
      modifies this`nextNodeId, this`nextInode
      ensures old(nextNodeId) <= nextNodeId <= MAX_U64 && old(nextInode) <= nextInode <= MAX_U64
      ensures r.Ok? <==> old(nextNodeId) + |nodes| <= MAX_U64 && old(nextInode) + |nodes| <= MAX_U64
      ensures r.Ok? ==> Renumbered(nodes, r.value, old(nextNodeId), old(nextInode))
      ensures r.Ok? ==> nextNodeId == old(nextNodeId) + |nodes| && nextInode == old(nextInode) + |nodes|
      ensures r.Err? ==> r == Err(InvalidArgument)
    {
      var keys := InOrder(nodes.Keys);
      NumberedStart(nodes, nextNodeId, nextInode);
      var after := nodes;
      for i := 0 to |keys|
        invariant nextNodeId == old(nextNodeId) + i <= MAX_U64 && nextInode == old(nextInode) + i <= MAX_U64
        invariant NumberedUpTo(nodes, after, old(nextNodeId), old(nextInode), i)
      {
        var nodeId := nextNodeId;
        if CheckedAdd(nextNodeId, 1).None? {
          return Err(InvalidArgument);
        }
        nextNodeId := nextNodeId + 1;
        var inode := nextInode;
        if CheckedAdd(nextInode, 1).None? {
          return Err(InvalidArgument);
        }
        nextInode := nextInode + 1;
        NumberedStep(nodes, after, old(nextNodeId), old(nextInode), i);
        after := after[keys[i] := after[keys[i]].(nodeId := nodeId, inode := inode)];
      }
      return Ok(after);
    }

    method CommitPromise(b: BuilderState) returns (r: Result<Promise>)
      requires nextNodeId <= MAX_U64 && nextInode <= MAX_U64
      modifies this
      ensures Next(old(View()), Commit(b), View())
      ensures var status := CommitStatus(old(View()), b);
              if status.Some? then r == Err(status.value)
              else r.Ok? && PromiseName(old(nextPromiseId)) in promises && r.value == promises[PromiseName(old(nextPromiseId))]
    {
      if !(b.providerId in providers && providers[b.providerId] == Live) {
        return Err(Status.ProviderGone);
      }
      var promiseId := PromiseName(nextPromiseId);
      nextPromiseId := nextPromiseId + 1;
      var nodes := AssignRuntimeIds(b.tree.nodes);
      if nodes.Err? {
        return Err(nodes.status);
      }
      var promise := Promise(promiseId, b.providerId, Available, Tree(nodes.value, b.tree.children));
      promises := promises[promiseId := promise];
      assert Committed(old(View()), b, View(), nodes.value);
      return Ok(promise);
    }

    method MarkNodeMaterialized(promiseId: string, relativePath: string, target: string) returns (r: Result<()>)
      modifies this
      ensures Next(old(View()), Mark(promiseId, relativePath, target), View())
      ensures var status := MarkStatus(old(View()), promiseId, relativePath);
              r == if status.Some? then Err(status.value) else Ok(())
    {
      var path := NormalizeRelativePath(relativePath);
      if path.Err? {
        return Err(path.status);
      }
      if promiseId !in promises {
        return Err(NotFound);
      }
      var tree := promises[promiseId].tree;
      if path.value !in tree.nodes {
        return Err(NotFound);
      }
      var node := tree.nodes[path.value].(materializedPath := Some(target));
      promises := promises[promiseId := promises[promiseId].(tree := tree.(nodes := tree.nodes[path.value := node]))];
      return Ok(());
    }
  }
}
