/** What every runtime event keeps, and what survives over whole runs. */
module Lifecycle {
  import opened Base
  import opened Paths
  import opened Tree
  import opened Cache
  import opened Runtime

  // ---- evolution -----------------------------------------------------------

  ghost predicate NodeKept(m: PromiseNode, n: PromiseNode) {
    && n == m.(materializedPath := n.materializedPath)
    && (m.materializedPath.Some? ==> n.materializedPath.Some?)
  }

  /** A committed promise keeps its shape, its identities and metadata; being gone is permanent. */
  ghost predicate PromiseKept(a: Promise, b: Promise) {
    && b.promiseId == a.promiseId && b.providerId == a.providerId
    && b.tree.children == a.tree.children && b.tree.nodes.Keys == a.tree.nodes.Keys
    && (forall p :: p in a.tree.nodes ==> NodeKept(a.tree.nodes[p], b.tree.nodes[p]))
    && (a.state.Gone? ==> b.state.Gone?)
  }

  ghost predicate Evolves(a: State, b: State) {
    && a.nextProviderId <= b.nextProviderId && a.nextPromiseId <= b.nextPromiseId
    && (forall provider :: provider in a.providers ==> provider in b.providers)
    && (forall provider :: provider in a.providers && a.providers[provider].Disconnected? ==> b.providers[provider].Disconnected?)
    && (forall pid :: pid in a.promises ==> pid in b.promises && PromiseKept(a.promises[pid], b.promises[pid]))
  }

  lemma PromiseKeptTransitive(a: Promise, b: Promise, c: Promise)
    requires PromiseKept(a, b) && PromiseKept(b, c)
    ensures PromiseKept(a, c)
  {
    forall p | p in a.tree.nodes ensures NodeKept(a.tree.nodes[p], c.tree.nodes[p]) {
      assert NodeKept(a.tree.nodes[p], b.tree.nodes[p]) && NodeKept(b.tree.nodes[p], c.tree.nodes[p]);
    }
  }

  lemma EvolvesTransitive(a: State, b: State, c: State)
    requires Evolves(a, b) && Evolves(b, c)
    ensures Evolves(a, c)
  {
    forall pid | pid in a.promises ensures pid in c.promises && PromiseKept(a.promises[pid], c.promises[pid]) {
      PromiseKeptTransitive(a.promises[pid], b.promises[pid], c.promises[pid]);
    }
  }

  // ---- one event -----------------------------------------------------------

  /** Builders only come from declarations, so a committed builder is valid. */
  ghost predicate Sensible(e: Event) {
    e.Commit? ==> BuilderValid(e.builder)
  }

  /** Counters and providers move forward. */
  ghost predicate Forward(s: State, t: State) {
    && s.nextProviderId <= t.nextProviderId && s.nextPromiseId <= t.nextPromiseId
    && s.nextNodeId <= t.nextNodeId <= MAX_U64 && s.nextInode <= t.nextInode <= MAX_U64
    && (forall provider :: provider in t.providers ==> 1 <= provider < t.nextProviderId)
    && (forall provider :: provider in s.providers ==> provider in t.providers)
    && (forall provider :: provider in s.providers && s.providers[provider].Disconnected? ==> t.providers[provider].Disconnected?)
    && CacheValid(t.files)
  }

  ghost predicate Carried(s: State, t: State, pid: string)
    requires pid in s.promises && pid in t.promises
  {
    PromiseKept(s.promises[pid], t.promises[pid]) && PromiseValid(t, pid)
  }

  /** An event that adds no promise keeps the invariant if each promise is carried over. */
  lemma CarryOver(s: State, t: State)
    requires Valid(s) && Forward(s, t) && t.promises.Keys == s.promises.Keys
    requires forall pid {:trigger Carried(s, t, pid)} :: pid in s.promises ==> Carried(s, t, pid)
    ensures Valid(t) && Evolves(s, t)
  {
    forall pid {:trigger PromiseValid(t, pid)} | pid in t.promises ensures PromiseValid(t, pid) {
      assert Carried(s, t, pid);
    }
    forall pid | pid in t.promises ensures exists n :: Numbered(t, pid, n) {
      var n :| Numbered(s, pid, n);
      assert Numbered(t, pid, n);
    }
    forall pid, p {:trigger IdsInRange(t, pid, p)} | NodeAt(t, pid, p) ensures IdsInRange(t, pid, p) {
      CarriedNode(s, t, pid, p);
      assert IdsInRange(s, pid, p);
    }
    forall pid, p, qid, q {:trigger SameIdsSameNode(t, pid, p, qid, q)} | NodeAt(t, pid, p) && NodeAt(t, qid, q)
      ensures SameIdsSameNode(t, pid, p, qid, q)
    {
      CarriedNode(s, t, pid, p);
      CarriedNode(s, t, qid, q);
      assert SameIdsSameNode(s, pid, p, qid, q);
    }
    CarryEvolves(s, t);
  }

  lemma CarriedNode(s: State, t: State, pid: string, p: string)
    requires pid in s.promises && NodeAt(t, pid, p) && Carried(s, t, pid)
    ensures NodeAt(s, pid, p) && NodeKept(Node(s, pid, p), Node(t, pid, p))
  {
  }

  lemma CarryEvolves(s: State, t: State)
    requires Forward(s, t) && t.promises.Keys == s.promises.Keys
    requires forall pid {:trigger Carried(s, t, pid)} :: pid in s.promises ==> Carried(s, t, pid)
    ensures Evolves(s, t)
  {
    forall pid | pid in s.promises ensures PromiseKept(s.promises[pid], t.promises[pid]) {
      assert Carried(s, t, pid);
    }
  }

  lemma UnregisteredKeeps(s: State, provider: nat)
    requires Valid(s)
    ensures Valid(Unregistered(s, provider)) && Evolves(s, Unregistered(s, provider))
  {
    var t := Unregistered(s, provider);
    forall pid {:trigger Carried(s, t, pid)} | pid in s.promises ensures Carried(s, t, pid) {
      RetiredCarried(s, t, provider, pid);
    }
    CarryOver(s, t);
  }

  lemma RetiredCarried(s: State, t: State, provider: nat, pid: string)
    requires t == Unregistered(s, provider) && pid in s.promises && PromiseValid(s, pid)
    ensures Carried(s, t, pid)
  {
  }

  lemma PromisesUntouched(s: State, t: State)
    requires Valid(s) && Forward(s, t) && t.promises == s.promises
    requires forall provider :: provider in s.providers ==> t.providers[provider] == s.providers[provider]
    ensures Valid(t) && Evolves(s, t)
  {
    forall pid {:trigger Carried(s, t, pid)} | pid in s.promises ensures Carried(s, t, pid) {
      assert PromiseValid(s, pid);
    }
    CarryOver(s, t);
  }

  lemma MarkedKeeps(s: State, pid: string, p: string, target: string)
    requires Valid(s) && NodeAt(s, pid, p)
    ensures Valid(Marked(s, pid, p, target)) && Evolves(s, Marked(s, pid, p, target))
  {
    var t := Marked(s, pid, p, target);
    forall q {:trigger Carried(s, t, q)} | q in s.promises ensures Carried(s, t, q) {
      assert PromiseValid(s, q);
      if q == pid {
        MarkedTreeValid(s.promises[pid].tree, t.promises[pid].tree, p, target);
      }
    }
    CarryOver(s, t);
  }

  lemma MarkedTreeValid(t: Tree, u: Tree, p: string, target: string)
    requires TreeValid(t) && p in t.nodes
    requires u == t.(nodes := t.nodes[p := t.nodes[p].(materializedPath := Some(target))])
    ensures TreeValid(u)
  {
    assert forall d :: IsDirectory(u, d) <==> IsDirectory(t, d);
    forall q {:trigger NodeValid(u, q)} | q in u.nodes ensures NodeValid(u, q) {
      assert NodeValid(t, q);
      assert q != "" ==> IsDirectory(u, ParentPath(q));
    }
    forall d, q {:trigger IsChild(u, d, q)} | d in u.children ensures q in u.children[d] <==> IsChild(u, d, q) {
      assert IsChild(u, d, q) <==> IsChild(t, d, q);
    }
  }

  // ---- commit --------------------------------------------------------------

  lemma RenumberedAt(before: map<string, PromiseNode>, after: map<string, PromiseNode>, firstId: nat, firstInode: nat, p: string)
    returns (i: nat)
    requires Renumbered(before, after, firstId, firstInode) && p in before
    ensures i < |before| && i < |InOrder(before.Keys)| && InOrder(before.Keys)[i] == p
    ensures after[p] == before[p].(nodeId := firstId + i, inode := firstInode + i)
  {
    i := InOrderIndex(before.Keys, p);
    InOrderSorted(before.Keys);
    assert |before.Keys| == |before|;
  }

  lemma RenumberedTreeValid(t: Tree, nodes: map<string, PromiseNode>, firstId: nat, firstInode: nat)
    requires TreeValid(t) && Renumbered(t.nodes, nodes, firstId, firstInode)
    ensures TreeValid(Tree(nodes, t.children))
  {
    var u := Tree(nodes, t.children);
    forall p | p in t.nodes ensures SameNode(u.nodes[p], t.nodes[p]) {
      var i := RenumberedAt(t.nodes, nodes, firstId, firstInode, p);
    }
    assert forall d :: IsDirectory(u, d) <==> IsDirectory(t, d);
    forall q {:trigger NodeValid(u, q)} | q in u.nodes ensures NodeValid(u, q) {
      assert NodeValid(t, q);
      assert q != "" ==> IsDirectory(u, ParentPath(q));
    }
    forall d, q {:trigger IsChild(u, d, q)} | d in u.children ensures q in u.children[d] <==> IsChild(u, d, q) {
      assert IsChild(u, d, q) <==> IsChild(t, d, q);
    }
  }

  lemma CommittedIds(s: State, b: BuilderState, t: State, nodes: map<string, PromiseNode>, pid: string, p: string)
    requires Valid(s) && CommitStatus(s, b).None? && Committed(s, b, t, nodes) && NodeAt(t, pid, p)
    ensures IdsInRange(t, pid, p)
    ensures pid == PromiseName(s.nextPromiseId) ==>
      Node(t, pid, p).inode >= s.nextInode && Node(t, pid, p).nodeId >= s.nextNodeId
    ensures pid != PromiseName(s.nextPromiseId) ==> NodeAt(s, pid, p) && Node(t, pid, p) == Node(s, pid, p) && IdsInRange(s, pid, p)
  {
    if pid == PromiseName(s.nextPromiseId) {
      var i := RenumberedAt(b.tree.nodes, nodes, s.nextNodeId, s.nextInode, p);
    } else {
      assert IdsInRange(s, pid, p);
    }
  }

  lemma CommittedDistinct(s: State, b: BuilderState, t: State, nodes: map<string, PromiseNode>,
                          pid: string, p: string, qid: string, q: string)
    requires Valid(s) && CommitStatus(s, b).None? && Committed(s, b, t, nodes) && NodeAt(t, pid, p) && NodeAt(t, qid, q)
    ensures SameIdsSameNode(t, pid, p, qid, q)
  {
    CommittedIds(s, b, t, nodes, pid, p);
    CommittedIds(s, b, t, nodes, qid, q);
    var newId := PromiseName(s.nextPromiseId);
    if pid == newId && qid == newId {
      var i := RenumberedAt(b.tree.nodes, nodes, s.nextNodeId, s.nextInode, p);
      var j := RenumberedAt(b.tree.nodes, nodes, s.nextNodeId, s.nextInode, q);
    } else if pid != newId && qid != newId {
      assert SameIdsSameNode(s, pid, p, qid, q);
    }
  }

  lemma FreshPromiseName(s: State)
    requires Valid(s)
    ensures PromiseName(s.nextPromiseId) !in s.promises
  {
    if PromiseName(s.nextPromiseId) in s.promises {
      var n :| Numbered(s, PromiseName(s.nextPromiseId), n);
      PromiseNames(n, s.nextPromiseId);
    }
  }

  lemma CommittedPromises(s: State, b: BuilderState, t: State, nodes: map<string, PromiseNode>, pid: string)
    requires Valid(s) && BuilderValid(b) && CommitStatus(s, b).None? && Committed(s, b, t, nodes) && pid in t.promises
    ensures PromiseValid(t, pid) && exists n :: Numbered(t, pid, n)
  {
    if pid == PromiseName(s.nextPromiseId) {
      RenumberedTreeValid(b.tree, nodes, s.nextNodeId, s.nextInode);
      assert Numbered(t, pid, s.nextPromiseId);
    } else {
      assert PromiseValid(s, pid);
      var n :| Numbered(s, pid, n);
      assert Numbered(t, pid, n);
    }
  }

  lemma CommittedKeeps(s: State, b: BuilderState, t: State, nodes: map<string, PromiseNode>)
    requires Valid(s) && BuilderValid(b) && CommitStatus(s, b).None? && Committed(s, b, t, nodes)
    ensures Valid(t) && Evolves(s, t)
  {
    FreshPromiseName(s);
    forall pid {:trigger PromiseValid(t, pid)} | pid in t.promises ensures PromiseValid(t, pid) {
      CommittedPromises(s, b, t, nodes, pid);
    }
    forall pid | pid in t.promises ensures exists n :: Numbered(t, pid, n) {
      CommittedPromises(s, b, t, nodes, pid);
    }
    forall pid, p {:trigger IdsInRange(t, pid, p)} | NodeAt(t, pid, p) ensures IdsInRange(t, pid, p) {
      CommittedIds(s, b, t, nodes, pid, p);
    }
    forall pid, p, qid, q {:trigger SameIdsSameNode(t, pid, p, qid, q)} | NodeAt(t, pid, p) && NodeAt(t, qid, q)
      ensures SameIdsSameNode(t, pid, p, qid, q)
    {
      CommittedDistinct(s, b, t, nodes, pid, p, qid, q);
    }
  }

  lemma CommitNextKeeps(s: State, b: BuilderState, t: State)
    requires Valid(s) && BuilderValid(b) && CommitNext(s, b, t)
    ensures Valid(t) && Evolves(s, t)
  {
    if CommitStatus(s, b).None? {
      var nodes :| Committed(s, b, t, nodes);
      CommittedKeeps(s, b, t, nodes);
    } else {
      PromisesUntouched(s, t);
    }
  }

  /** Every event keeps the invariant and evolves the state. */
  lemma NextKeeps(s: State, e: Event, t: State)
    requires Valid(s) && Sensible(e) && Next(s, e, t)
    ensures Valid(t) && Evolves(s, t)
  {
    match e
    case Register => PromisesUntouched(s, t);
    case Unregister(provider) => UnregisteredKeeps(s, provider);
    case Commit(b) => CommitNextKeeps(s, b, t);
    case Mark(pid, path, target) =>
      if MarkStatus(s, pid, path).None? {
        MarkedKeeps(s, pid, Normalized(path).value, target);
      } else {
        PromisesUntouched(s, t);
      }
    case SetPolicy(policy) => PromisesUntouched(s, t);
    case Record(pid, path, offset, bytes) => PromisesUntouched(s, t);
  }

  // ---- runs ----------------------------------------------------------------

  /** Any interleaving of events, each taken under the runtime lock, from the empty runtime. */
  ghost predicate Run(states: seq<State>, events: seq<Event>) {
    && |states| == |events| + 1 && states[0] == Initial()
    && forall i {:trigger events[i]} :: 0 <= i < |events| ==> Sensible(events[i]) && Next(states[i], events[i], states[i + 1])
  }

  lemma {:induction false} RunValid(states: seq<State>, events: seq<Event>, i: nat)
    requires Run(states, events) && i < |states|
    ensures Valid(states[i])
  {
    if i > 0 {
      RunValid(states, events, i - 1);
      assert Sensible(events[i - 1]);
      NextKeeps(states[i - 1], events[i - 1], states[i]);
    }
  }

  /** Later states evolve from earlier ones: identities are stable and provider-gone is permanent. */
  lemma {:induction false} RunEvolves(states: seq<State>, events: seq<Event>, i: nat, j: nat)
    requires Run(states, events) && i <= j < |states|
    ensures Evolves(states[i], states[j])
    decreases j
  {
    if i < j {
      RunEvolves(states, events, i, j - 1);
      RunValid(states, events, j - 1);
      assert Sensible(events[j - 1]);
      NextKeeps(states[j - 1], events[j - 1], states[j]);
      EvolvesTransitive(states[i], states[j - 1], states[j]);
    }
  }

  /**
    In every reachable runtime a promise is available if and only if its provider is live, and
    once its provider has been lost it is never available again.
   */
  lemma Liveness(states: seq<State>, events: seq<Event>, i: nat, j: nat, pid: string)
    requires Run(states, events) && i <= j < |states| && pid in states[i].promises
    ensures var promise := states[i].promises[pid];
            && (promise.state.Available? <==> HasProvider(states[i], promise.providerId))
            && (promise.state.Gone? <==> !HasProvider(states[i], promise.providerId))
            && (!promise.state.Available? ==> pid in states[j].promises && states[j].promises[pid].state.Gone?)
  {
    RunValid(states, events, i);
    RunValid(states, events, j);
    RunEvolves(states, events, i, j);
    assert PromiseValid(states[i], pid);
    assert PromiseKept(states[i].promises[pid], states[j].promises[pid]);
  }

  /**
    The gap between validating a provider and committing is harmless: whatever happened in
    between, the committed promise is available exactly when the provider is live at commit.
   */
  lemma CommitDecidesLiveness(states: seq<State>, events: seq<Event>, i: nat)
    requires Run(states, events) && i < |events| && events[i].Commit?
    requires CommitStatus(states[i], events[i].builder) != Some(InvalidArgument)
    ensures var pid, provider := PromiseName(states[i].nextPromiseId), events[i].builder.providerId;
            && pid !in states[i].promises
            && (pid in states[i + 1].promises <==> HasProvider(states[i], provider))
            && (pid in states[i + 1].promises ==>
                 states[i + 1].promises[pid].providerId == provider && states[i + 1].promises[pid].state.Available?)
  {
    RunValid(states, events, i);
    FreshPromiseName(states[i]);
  }

  // ---- reachable runtimes --------------------------------------------------

  ghost predicate Reaches(s: State) {
    exists states: seq<State>, events: seq<Event> :: Run(states, events) && states[|events|] == s
  }

  lemma InitialReached()
    ensures Reaches(Initial())
  {
    assert Run([Initial()], []) && [Initial()][0] == Initial();
  }

  lemma ReachesStep(s: State, e: Event, t: State)
    requires Reaches(s) && Sensible(e) && Next(s, e, t)
    ensures Reaches(t)
  {
    var states: seq<State>, events: seq<Event> :| Run(states, events) && states[|events|] == s;
    var more, steps := states + [t], events + [e];
    assert forall i {:trigger steps[i]} :: 0 <= i < |steps| ==> Sensible(steps[i]) && Next(more[i], steps[i], more[i + 1]);
    assert Run(more, steps);
  }

  lemma ReachedValid(s: State)
    requires Reaches(s)
    ensures Valid(s)
  {
    var states: seq<State>, events: seq<Event> :| Run(states, events) && states[|events|] == s;
    RunValid(states, events, |events|);
  }

  lemma {:induction false} NumberingExists(before: map<string, PromiseNode>, firstId: nat, firstInode: nat, i: nat)
    returns (after: map<string, PromiseNode>)
    requires i <= |InOrder(before.Keys)|
    ensures NumberedUpTo(before, after, firstId, firstInode, i)
  {
    if i == 0 {
      NumberedStart(before, firstId, firstInode);
      after := before;
    } else {
      var earlier := NumberingExists(before, firstId, firstInode, i - 1);
      NumberedStep(before, earlier, firstId, firstInode, i - 1);
      var k := InOrder(before.Keys)[i - 1];
      after := earlier[k := earlier[k].(nodeId := firstId + i - 1, inode := firstInode + i - 1)];
    }
  }

  /** Whenever nothing refuses a commit, it can happen. */
  lemma CommitReached(s: State, b: BuilderState) returns (t: State, nodes: map<string, PromiseNode>)
    requires Reaches(s) && BuilderValid(b) && CommitStatus(s, b).None?
    ensures Reaches(t) && Next(s, Commit(b), t) && Committed(s, b, t, nodes)
  {
    nodes := NumberingExists(b.tree.nodes, s.nextNodeId, s.nextInode, |InOrder(b.tree.nodes.Keys)|);
    var promise := Promise(PromiseName(s.nextPromiseId), b.providerId, Available, Tree(nodes, b.tree.children));
    t := s.(nextPromiseId := s.nextPromiseId + 1,
            nextNodeId := s.nextNodeId + |b.tree.nodes|, nextInode := s.nextInode + |b.tree.nodes|,
            promises := s.promises[PromiseName(s.nextPromiseId) := promise]);
    assert Renumbered(b.tree.nodes, nodes, s.nextNodeId, s.nextInode);
    assert Committed(s, b, t, nodes);
    ReachesStep(s, Commit(b), t);
  }
}
