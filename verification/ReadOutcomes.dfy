/** Why a FUSE read ends as it does: what each plan leads to, and what explains every failure of a run. */
module ReadOutcomes {
  import opened Base
  import opened Cache
  import opened Lifecycle
  import opened Namespace
  import opened Planner
  import opened ReadRun
  import opened ReadSafety
  import opened Runtime
  import opened Tree

  // ---- planning a call -----------------------------------------------------

  /** The length that a call of this size is planned for. */
  function CallLength(size: U32): U32 {
    Min(size, MAX_PROVIDER_READ_LEN)
  }

  ghost predicate AtEnd(s: State, pid: string, p: string, offset: U64, length: U32)
    requires NodeAt(s, pid, p)
  {
    length == 0 || offset >= Node(s, pid, p).attr.size
  }

  /** No source serves the node: a directory, or an unmarked and uncached file that its provider cannot be asked for. */
  ghost predicate Unserved(s: State, pid: string, p: string, offset: U64, length: U32)
    requires NodeAt(s, pid, p)
  {
    var node, c := Node(s, pid, p), s.cachePolicy.ChunkSize();
    || node.kind.Directory?
    || (&& !AtEnd(s, pid, p, offset, length) && node.materializedPath.None?
        && !InCache(s, CacheKey(pid, p), offset, CappedLength(length, offset, node.attr.size))
        && (!HasProvider(s, s.promises[pid].providerId) || (c > 0 && ChunkBase(offset, c) + c > MAX_U64)))
  }

  ghost predicate Carries(s: State, pid: string, p: string, inode: nat) {
    NodeAt(s, pid, p) && Node(s, pid, p).inode == inode
  }

  /** Nothing with this inode can be read; in particular nothing has it. */
  ghost predicate NoSource(s: State, inode: nat, offset: U64, size: U32) {
    forall pid, p {:trigger Carries(s, pid, p, inode)} :: Carries(s, pid, p, inode) ==> Unserved(s, pid, p, offset, CallLength(size))
  }

  lemma FilePhase(s: State, pid: string, p: string, offset: U64, length: U32)
    requires Valid(s) && NodeAt(s, pid, p) && Node(s, pid, p).kind.File?
    ensures var node, key, phase := Node(s, pid, p), CacheKey(pid, p), PhaseFor(s, CacheKey(pid, p), PlanRead(s, pid, p, offset, length));
            if AtEnd(s, pid, p, offset, length) then phase == Done(key, [])
            else
              var capped := CappedLength(length, offset, node.attr.size);
              if node.materializedPath.Some? then phase == Copying(key, node.materializedPath.value, offset, capped)
              else if InCache(s, key, offset, capped) then phase.Done? && phase.key == key && CachedBytes(s, key, offset, phase.reply) && |phase.reply| == capped
              else if Unserved(s, pid, p, offset, length) then phase == Failed(PlanFailed)
              else phase.Waiting? && phase.plan == ProviderReadPlan(s.promises[pid].providerId, pid, p, node.providerNodeId, offset, capped)
  {
    if AtEnd(s, pid, p, offset, length) {
      ReadNothing(s, pid, p, offset, length);
    } else {
      ReadSource(s, pid, p, offset, length);
      var plan := PlanRead(s, pid, p, offset, length);
      if plan.Ok? && plan.value.Request? {
        RequestInside(s, pid, p, offset, length, plan.value.plan);
        CoalesceOkIff(s, plan.value.plan);
      }
    }
  }

  lemma RequestInside(s: State, pid: string, p: string, offset: U64, length: U32, plan: ProviderReadPlan)
    requires Valid(s) && NodeAt(s, pid, p) && Node(s, pid, p).kind.File? && !AtEnd(s, pid, p, offset, length)
    requires plan == ProviderReadPlan(s.promises[pid].providerId, pid, p, Node(s, pid, p).providerNodeId, offset,
                                      CappedLength(length, offset, Node(s, pid, p).attr.size))
    ensures InsideFile(s, plan)
  {
    StoredNode(s, pid, p);
  }

  /** What planning a call on a node leads to. */
  lemma PlannedNode(s: State, inode: nat, pid: string, p: string, offset: U64, size: U32)
    requires Valid(s) && Carries(s, pid, p, inode)
    ensures Planned(s, inode, offset, size) == PhaseFor(s, CacheKey(pid, p), PlanRead(s, pid, p, offset, CallLength(size)))
  {
    LookupInodeExact(s, inode, pid, p);
    StoredNode(s, pid, p);
  }

  lemma NodeFailsIff(s: State, inode: nat, pid: string, p: string, offset: U64, size: U32)
    requires Valid(s) && Carries(s, pid, p, inode)
    ensures Planned(s, inode, offset, size) == Failed(PlanFailed) <==> Unserved(s, pid, p, offset, CallLength(size))
  {
    PlannedNode(s, inode, pid, p, offset, size);
    if Node(s, pid, p).kind.File? {
      FilePhase(s, pid, p, offset, CallLength(size));
    } else {
      ReadNothing(s, pid, p, offset, CallLength(size));
    }
  }

  lemma OneCarrier(s: State, inode: nat, pid: string, p: string, qid: string, q: string)
    requires Valid(s) && Carries(s, pid, p, inode) && Carries(s, qid, q, inode)
    ensures pid == qid && p == q
  {
    assert SameIdsSameNode(s, pid, p, qid, q);
  }

  /** Planning a call fails if and only if nothing with its inode has a source. */
  lemma PlanFailsIff(s: State, inode: nat, offset: U64, size: U32)
    requires Valid(s)
    ensures Planned(s, inode, offset, size) == Failed(PlanFailed) <==> NoSource(s, inode, offset, size)
  {
    if pid, p :| Carries(s, pid, p, inode) {
      NodeFailsIff(s, inode, pid, p, offset, size);
      forall qid, q {:trigger Carries(s, qid, q, inode)} | Carries(s, qid, q, inode) ensures qid == pid && q == p {
        OneCarrier(s, inode, pid, p, qid, q);
      }
    } else {
      NobodyPlanned(s, inode, offset, size);
    }
  }

  lemma NobodyPlanned(s: State, inode: nat, offset: U64, size: U32)
    requires Valid(s) && forall pid, p {:trigger Carries(s, pid, p, inode)} :: !Carries(s, pid, p, inode)
    ensures Planned(s, inode, offset, size) == Failed(PlanFailed)
  {
    if inode != FUSE_ROOT_INODE && LookupInode(s, inode).Ok? {
      var pid, p := FoundAt(s, inode);
      assert Carries(s, pid, p, inode);
    }
  }

  // ---- a read comes to an end ----------------------------------------------

  /** A bound on the steps that a read still takes. */
  ghost function StepsLeft(phase: Phase): nat {
    match phase
    case Started => 7
    case Waiting(_, _) => 6
    case Answered(_, _, _) => 5
    case Recorded(_, _, _) => 4
    case Prefetching(_, _, _, _) => 3
    case PrefetchAnswered(_, _, _, _, _) => 2
    case Slicing(_, _, _) => 1
    case Copying(_, _, _, _) => 1
    case Done(_, _) => 0
    case Failed(_) => 0
  }

  predicate IsStepOf(m: Move, id: nat) {
    !m.Env? && !m.DiskChange? && !m.Begin? && m.id == id
  }

  ghost predicate SameCall(a: Call, b: Call) {
    a.inode == b.inode && a.offset == b.offset && a.size == b.size
  }

  lemma OwnStep(w: World, m: Move, v: World, content: Contents, id: nat)
    requires Step(w, m, v, content) && id in w.calls
    ensures id in v.calls && SameCall(w.calls[id], v.calls[id])
    ensures if IsStepOf(m, id) then StepsLeft(v.calls[id].phase) < StepsLeft(w.calls[id].phase) else v.calls[id] == w.calls[id]
  {
  }

  ghost function StepsOf(moves: seq<Move>, i: nat, j: nat, id: nat): nat
    requires i <= j <= |moves|
  {
    if i == j then 0 else StepsOf(moves, i, j - 1, id) + if IsStepOf(moves[j - 1], id) then 1 else 0
  }

  /** In every run a read takes at most seven steps of its own, and nothing that others do moves it. */
  lemma {:induction false} ReadEnds(worlds: seq<World>, moves: seq<Move>, content: Contents, i: nat, j: nat, id: nat)
    requires WorldRun(worlds, moves, content) && i <= j < |worlds| && id in worlds[i].calls
    ensures id in worlds[j].calls && SameCall(worlds[i].calls[id], worlds[j].calls[id])
    ensures StepsOf(moves, i, j, id) + StepsLeft(worlds[j].calls[id].phase) <= StepsLeft(worlds[i].calls[id].phase) <= 7
    ensures StepsOf(moves, i, j, id) == 0 ==> worlds[j].calls[id] == worlds[i].calls[id]
    decreases j
  {
    if i < j {
      ReadEnds(worlds, moves, content, i, j - 1, id);
      assert Step(worlds[j - 1], moves[j - 1], worlds[j], content);
      OwnStep(worlds[j - 1], moves[j - 1], worlds[j], content, id);
    }
  }

  // ---- failures of a run ---------------------------------------------------

  ghost predicate Happened(moves: seq<Move>, n: nat, m: Move)
    requires n <= |moves|
  {
    exists j :: 0 <= j < n && moves[j] == m
  }

  /** When the call was planned, nothing could serve it. */
  ghost predicate PlannedInVain(worlds: seq<World>, moves: seq<Move>, n: nat, id: nat, call: Call)
    requires n <= |moves| < |worlds|
  {
    exists j :: 0 <= j < n && moves[j] == Plan(id) && NoSource(worlds[j].runtime, call.inode, call.offset, call.size)
  }

  ghost predicate Explained(worlds: seq<World>, moves: seq<Move>, n: nat, id: nat, call: Call, reason: Failure)
    requires n <= |moves| < |worlds|
  {
    match reason
    case PlanFailed => PlannedInVain(worlds, moves, n, id, call)
    case RouteFailed => Happened(moves, n, RouteFails(id))
    case CopyFailed => Happened(moves, n, ReadCopyFails(id))
    case SliceFailed => call.short
    case RecordFailed => false
  }

  lemma OwnFailure(w: World, m: Move, v: World, content: Contents, id: nat)
    requires Step(w, m, v, content) && id in w.calls && IsStepOf(m, id) && id in v.calls && v.calls[id].phase.Failed?
    requires CallValid(w, content, w.calls[id])
    ensures NewFailure(w, m, v, id)
  {
  }

  /** How a call can come to fail in one step. */
  lemma FailureStep(w: World, m: Move, v: World, content: Contents, id: nat)
    requires Step(w, m, v, content) && id in v.calls && v.calls[id].phase.Failed?
    requires id in w.calls ==> CallValid(w, content, w.calls[id])
    ensures id in w.calls && SameCall(w.calls[id], v.calls[id])
    ensures v.calls[id] == w.calls[id] || NewFailure(w, m, v, id)
  {
    if id in w.calls {
      OwnStep(w, m, v, content, id);
      if IsStepOf(m, id) {
        OwnFailure(w, m, v, content, id);
      }
    }
  }

  ghost predicate NewFailure(w: World, m: Move, v: World, id: nat)
    requires id in w.calls && id in v.calls && v.calls[id].phase.Failed?
  {
    match v.calls[id].phase.reason
    case PlanFailed => m == Plan(id) && Planned(w.runtime, w.calls[id].inode, w.calls[id].offset, w.calls[id].size) == Failed(PlanFailed)
    case RouteFailed => m == RouteFails(id)
    case CopyFailed => m == ReadCopyFails(id)
    case _ => true
  }

  /**
    In every run of honest events, every failed read has its cause: when it was planned nothing with its
    inode had a source, or routing it failed, or reading the local copy failed, or the provider answered
    short.  No read fails for any other reason.
   */
  lemma {:induction false} FailureExplained(worlds: seq<World>, moves: seq<Move>, content: Contents, i: nat, id: nat)
    requires WorldRun(worlds, moves, content) && i < |worlds| && id in worlds[i].calls && worlds[i].calls[id].phase.Failed?
    ensures Explained(worlds, moves, i, id, worlds[i].calls[id], worlds[i].calls[id].phase.reason)
  {
    WorldRunValid(worlds, moves, content, i);
    var call := worlds[i].calls[id];
    assert CallValid(worlds[i], content, call);
    if i > 0 && !call.phase.reason.RecordFailed? && !call.phase.reason.SliceFailed? {
      var w, m := worlds[i - 1], moves[i - 1];
      WorldRunValid(worlds, moves, content, i - 1);
      assert Step(w, m, worlds[i], content);
      assert id in w.calls ==> CallValid(w, content, w.calls[id]);
      FailureStep(w, m, worlds[i], content, id);
      if worlds[i].calls[id] == w.calls[id] {
        FailureExplained(worlds, moves, content, i - 1, id);
      } else if call.phase.reason.PlanFailed? {
        PlanFailsIff(w.runtime, call.inode, call.offset, call.size);
        assert moves[i - 1] == Plan(id) && NoSource(worlds[i - 1].runtime, call.inode, call.offset, call.size);
      }
    }
  }

  // ---- prefetching ---------------------------------------------------------

  /** After recording, a prefetch follows exactly when the answer was full and a prefetch is planned; else the reply is cut. */
  lemma PrefetchFollowsIff(s: State, phase: Phase)
    requires Valid(s) && phase.Recorded?
    requires var request := phase.coalesced.provider;
             NodeAt(s, request.promiseId, request.relativePath) && Node(s, request.promiseId, request.relativePath).kind.File?
    ensures var request, after := phase.coalesced.provider, AfterRecord(s, phase);
            var node, c, next := Node(s, request.promiseId, request.relativePath), s.cachePolicy.ChunkSize(), request.offset + request.length;
            && (after.Prefetching? <==>
                && |phase.bytes| == request.length && c > 0 && request.length > 0 && next < node.attr.size
                && node.materializedPath.None? && HasProvider(s, s.promises[request.promiseId].providerId)
                && !InCache(s, CacheKey(request.promiseId, request.relativePath), next, CappedLength(c, next, node.attr.size)))
            && (!after.Prefetching? ==> after == Slicing(phase.plan, phase.coalesced, phase.bytes))
  {
    var request := phase.coalesced.provider;
    PrefetchPlannedIff(s, request.promiseId, request.relativePath, request.offset, request.length);
  }
}
