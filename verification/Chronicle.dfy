/** What the events of a run have brought about: which providers are live, which promises exist, what is cached. */
module Chronicle {
  import opened Base
  import opened Cache
  import opened Lifecycle
  import opened Paths
  import opened Runtime
  import opened Tree

  // ---- providers -----------------------------------------------------------

  /** The promise is as before, except that a lost provider makes it gone. */
  ghost predicate LosesProvider(before: Promise, after: Promise, provider: nat) {
    && after.promiseId == before.promiseId && after.providerId == before.providerId && after.tree == before.tree
    && (if before.providerId == provider then after.state.Gone? else after.state == before.state)
  }

  /**
    Unregistering ends a known provider: it is no longer live and each of its promises is gone; every
    other provider and promise, the counters and the cache stay.  An unknown provider changes nothing.
   */
  lemma UnregisterEnds(s: State, t: State, provider: nat)
    requires Valid(s) && Next(s, Unregister(provider), t)
    ensures provider !in s.providers ==> t == s
    ensures provider in s.providers ==>
      && !HasProvider(t, provider) && t.providers.Keys == s.providers.Keys && t.promises.Keys == s.promises.Keys
      && (forall q :: q in s.providers && q != provider ==> t.providers[q] == s.providers[q])
      && (forall pid :: pid in s.promises ==> LosesProvider(s.promises[pid], t.promises[pid], provider))
    ensures t == s.(providers := t.providers, promises := t.promises)
  {
    if provider in s.providers {
      forall pid | pid in s.promises ensures pid in t.promises && LosesProvider(s.promises[pid], t.promises[pid], provider) {
        assert PromiseValid(s, pid);
      }
    }
  }

  /** Event `i` registered the provider and nothing before step `j` has unregistered it since. */
  ghost predicate RegisteredSince(states: seq<State>, events: seq<Event>, i: nat, j: nat, provider: nat)
    requires i < j <= |events| < |states|
  {
    && events[i].Register? && states[i].nextProviderId == provider
    && forall k :: i < k < j ==> events[k] != Unregister(provider)
  }

  ghost predicate IsRegistered(states: seq<State>, events: seq<Event>, j: nat, provider: nat)
    requires j <= |events| < |states|
  {
    exists i :: 0 <= i < j && RegisteredSince(states, events, i, j, provider)
  }

  /** In every run a provider is live if and only if it was registered and has not been unregistered since. */
  lemma {:induction false} LiveIffRegistered(states: seq<State>, events: seq<Event>, j: nat, provider: nat)
    requires Run(states, events) && j < |states|
    ensures HasProvider(states[j], provider) <==> IsRegistered(states, events, j, provider)
  {
    if j > 0 {
      var s, e, t := states[j - 1], events[j - 1], states[j];
      LiveIffRegistered(states, events, j - 1, provider);
      RunValid(states, events, j - 1);
      assert Sensible(e) && Next(s, e, t);
      LiveStep(s, e, t, provider);
      RegisteredLater(states, events, j, provider);
    }
  }

  lemma LiveStep(s: State, e: Event, t: State, provider: nat)
    requires Valid(s) && Next(s, e, t)
    ensures HasProvider(t, provider) <==>
            (HasProvider(s, provider) && e != Unregister(provider)) || (e.Register? && s.nextProviderId == provider)
  {
  }

  lemma RegisteredLater(states: seq<State>, events: seq<Event>, j: nat, provider: nat)
    requires 0 < j <= |events| < |states|
    ensures IsRegistered(states, events, j, provider) <==>
            || (IsRegistered(states, events, j - 1, provider) && events[j - 1] != Unregister(provider))
            || (events[j - 1].Register? && states[j - 1].nextProviderId == provider)
  {
    if IsRegistered(states, events, j - 1, provider) && events[j - 1] != Unregister(provider) {
      var i :| 0 <= i < j - 1 && RegisteredSince(states, events, i, j - 1, provider);
      assert RegisteredSince(states, events, i, j, provider);
    }
    if events[j - 1].Register? && states[j - 1].nextProviderId == provider {
      assert RegisteredSince(states, events, j - 1, j, provider);
    }
    if IsRegistered(states, events, j, provider) {
      var i :| 0 <= i < j && RegisteredSince(states, events, i, j, provider);
      if i < j - 1 {
        assert RegisteredSince(states, events, i, j - 1, provider);
      }
    }
  }

  // ---- promises ------------------------------------------------------------

  /** The builder's provider is live and there are identifiers left for its nodes. */
  predicate Committable(s: State, b: BuilderState) {
    && HasProvider(s, b.providerId)
    && s.nextNodeId + |b.tree.nodes| <= MAX_U64 && s.nextInode + |b.tree.nodes| <= MAX_U64
  }

  /** Event `i` committed a builder, and this is the name it got. */
  ghost predicate CommittedAt(states: seq<State>, events: seq<Event>, i: nat, pid: string)
    requires i < |events| < |states|
  {
    events[i].Commit? && Committable(states[i], events[i].builder) && pid == PromiseName(states[i].nextPromiseId)
  }

  /** The promise is the builder's tree: same nodes, attributes and children, with runtime identifiers and marks. */
  ghost predicate BuiltFrom(promise: Promise, b: BuilderState) {
    && promise.providerId == b.providerId
    && promise.tree.children == b.tree.children && promise.tree.nodes.Keys == b.tree.nodes.Keys
    && forall p :: p in b.tree.nodes ==>
         var node := promise.tree.nodes[p];
         node == b.tree.nodes[p].(nodeId := node.nodeId, inode := node.inode, materializedPath := node.materializedPath)
  }

  ghost predicate CommittedBy(states: seq<State>, events: seq<Event>, j: nat, pid: string)
    requires j <= |events| < |states|
  {
    exists i :: 0 <= i < j && CommittedAt(states, events, i, pid)
  }

  /** In every run the promises are exactly those that a commit with a live provider and free identifiers has named. */
  lemma {:induction false} PromiseIffCommitted(states: seq<State>, events: seq<Event>, j: nat, pid: string)
    requires Run(states, events) && j < |states|
    ensures pid in states[j].promises <==> CommittedBy(states, events, j, pid)
  {
    if j > 0 {
      var s, e, t := states[j - 1], events[j - 1], states[j];
      PromiseIffCommitted(states, events, j - 1, pid);
      assert Sensible(e) && Next(s, e, t);
      PromiseStep(s, e, t, pid);
      assert CommittedBy(states, events, j, pid) <==> CommittedBy(states, events, j - 1, pid) || CommittedAt(states, events, j - 1, pid);
    }
  }

  lemma PromiseStep(s: State, e: Event, t: State, pid: string)
    requires Next(s, e, t)
    ensures pid in t.promises <==>
            pid in s.promises || (e.Commit? && Committable(s, e.builder) && pid == PromiseName(s.nextPromiseId))
  {
    match e
    case Commit(b) =>
      if CommitStatus(s, b).None? {
        var nodes :| Committed(s, b, t, nodes);
      }
    case _ =>
  }

  /** The promise that commit `i` named is ever after the tree that was committed. */
  lemma PromiseIsCommittedTree(states: seq<State>, events: seq<Event>, i: nat, j: nat, pid: string)
    requires Run(states, events) && i < |events| && i < j < |states| && CommittedAt(states, events, i, pid)
    ensures pid in states[j].promises && BuiltFrom(states[j].promises[pid], events[i].builder)
  {
    var s, b, t := states[i], events[i].builder, states[i + 1];
    assert Sensible(events[i]) && Next(s, events[i], t);
    var nodes :| Committed(s, b, t, nodes);
    CommittedIsBuilt(s, b, t, nodes);
    RunEvolves(states, events, i + 1, j);
    StaysBuilt(t.promises[pid], states[j].promises[pid], b);
  }

  lemma CommittedIsBuilt(s: State, b: BuilderState, t: State, nodes: map<string, PromiseNode>)
    requires Committed(s, b, t, nodes)
    ensures var pid := PromiseName(s.nextPromiseId);
            pid in t.promises && BuiltFrom(t.promises[pid], b)
  {
    forall p | p in b.tree.nodes
      ensures p in nodes && nodes[p] == b.tree.nodes[p].(nodeId := nodes[p].nodeId, inode := nodes[p].inode)
    {
      var i := RenumberedAt(b.tree.nodes, nodes, s.nextNodeId, s.nextInode, p);
    }
  }

  lemma StaysBuilt(before: Promise, after: Promise, b: BuilderState)
    requires BuiltFrom(before, b) && PromiseKept(before, after)
    ensures BuiltFrom(after, b)
  {
    forall p | p in b.tree.nodes
      ensures p in after.tree.nodes && after.tree.nodes[p] == b.tree.nodes[p].(nodeId := after.tree.nodes[p].nodeId,
        inode := after.tree.nodes[p].inode, materializedPath := after.tree.nodes[p].materializedPath)
    {
      assert NodeKept(before.tree.nodes[p], after.tree.nodes[p]);
    }
  }

  // ---- marks ---------------------------------------------------------------

  /** The target of the last mark that named the stored node before step `j`, if there is one. */
  ghost function LastMarked(states: seq<State>, events: seq<Event>, j: nat, pid: string, p: string): Option<string>
    requires j <= |events| < |states|
  {
    if j == 0 then None
    else
      var s, e := states[j - 1], events[j - 1];
      if e.Mark? && e.promiseId == pid && Normalized(e.path) == Ok(p) && NodeAt(s, pid, p) then Some(e.target)
      else LastMarked(states, events, j - 1, pid, p)
  }

  /** In every run a node carries the target of the latest mark that named it, and no other. */
  lemma {:induction false} MarkIsLatest(states: seq<State>, events: seq<Event>, j: nat, pid: string, p: string)
    requires Run(states, events) && j < |states|
    ensures NodeAt(states[j], pid, p) ==> Node(states[j], pid, p).materializedPath == LastMarked(states, events, j, pid, p)
    ensures !NodeAt(states[j], pid, p) ==> LastMarked(states, events, j, pid, p).None?
  {
    if j > 0 {
      var s, e, t := states[j - 1], events[j - 1], states[j];
      MarkIsLatest(states, events, j - 1, pid, p);
      RunValid(states, events, j - 1);
      assert Sensible(e) && Next(s, e, t);
      NextKeeps(s, e, t);
      NodeStays(s, t, pid, p);
      if e.Mark? {
        MarkStepExact(s, e, t, pid, p);
      } else {
        OtherStepsLeaveMarks(s, e, t, pid, p);
      }
    }
  }

  lemma NodeStays(s: State, t: State, pid: string, p: string)
    requires Evolves(s, t)
    ensures NodeAt(s, pid, p) ==> NodeAt(t, pid, p)
  {
    assert pid in s.promises ==> PromiseKept(s.promises[pid], t.promises[pid]);
  }

  ghost function MarkAt(s: State, pid: string, p: string): Option<string> {
    if NodeAt(s, pid, p) then Node(s, pid, p).materializedPath else None
  }

  lemma MarkStepExact(s: State, e: Event, t: State, pid: string, p: string)
    requires e.Mark? && Next(s, e, t)
    ensures NodeAt(t, pid, p) <==> NodeAt(s, pid, p)
    ensures var marks := e.promiseId == pid && Normalized(e.path) == Ok(p) && NodeAt(s, pid, p);
            && (marks ==> NodeAt(t, pid, p))
            && MarkAt(t, pid, p) == if marks then Some(e.target) else MarkAt(s, pid, p)
  {
  }

  lemma OtherStepsLeaveMarks(s: State, e: Event, t: State, pid: string, p: string)
    requires Valid(s) && Sensible(e) && !e.Mark? && Next(s, e, t)
    ensures MarkAt(t, pid, p) == MarkAt(s, pid, p)
  {
    if e.Commit? && CommitStatus(s, e.builder).None? {
      var nodes :| Committed(s, e.builder, t, nodes);
      CommitLeavesMarks(s, e.builder, t, nodes, pid, p);
    }
  }

  lemma CommitLeavesMarks(s: State, b: BuilderState, t: State, nodes: map<string, PromiseNode>, pid: string, p: string)
    requires Valid(s) && Committed(s, b, t, nodes) && BuilderValid(b)
    ensures MarkAt(t, pid, p) == MarkAt(s, pid, p)
  {
    FreshPromiseName(s);
    if pid == PromiseName(s.nextPromiseId) && p in b.tree.nodes {
      var i := RenumberedAt(b.tree.nodes, nodes, s.nextNodeId, s.nextInode, p);
    }
  }

  // ---- the cache -----------------------------------------------------------

  /** In every run nothing is cached while caching is off. */
  lemma {:induction false} OffMeansEmpty(states: seq<State>, events: seq<Event>, j: nat)
    requires Run(states, events) && j < |states|
    ensures states[j].cachePolicy.ChunkSize() == 0 ==> states[j].files == map[]
    ensures states[j].cachePolicy != ReadThrough(0)
  {
    if j > 0 {
      OffMeansEmpty(states, events, j - 1);
      assert Sensible(events[j - 1]) && Next(states[j - 1], events[j - 1], states[j]);
      PolicyStep(states[j - 1], events[j - 1], states[j]);
    }
  }

  /** Only a policy change touches the policy; it takes effect unless the chunk size is zero, and keeps or clears the cache whole. */
  lemma PolicyStep(s: State, e: Event, t: State)
    requires Next(s, e, t)
    ensures t.cachePolicy == if e.SetPolicy? && e.policy != ReadThrough(0) then e.policy else s.cachePolicy
    ensures !e.Record? ==> t.files == if e == SetPolicy(NoCache) then map[] else s.files
    ensures t.files != s.files ==> e == SetPolicy(NoCache) || (e.Record? && s.cachePolicy.ChunkSize() > 0)
  {
    match e
    case Commit(b) =>
      if CommitStatus(s, b).None? {
        var nodes :| Committed(s, b, t, nodes);
      }
    case _ =>
  }
}
