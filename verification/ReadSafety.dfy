/** Every reply of every interleaving is true content: the invariant of ReadRun is kept by each step. */
module ReadSafety {
  import opened Base
  import opened Paths
  import opened Tree
  import opened Cache
  import opened Runtime
  import opened Lifecycle
  import opened Namespace
  import opened Planner
  import opened ReadRun

  // ---- stability -----------------------------------------------------------

  lemma NodeStays(s: State, t: State, pid: string, p: string)
    requires Evolves(s, t) && NodeAt(s, pid, p)
    ensures NodeAt(t, pid, p) && NodeKept(Node(s, pid, p), Node(t, pid, p))
  {
    assert PromiseKept(s.promises[pid], t.promises[pid]);
    assert NodeKept(s.promises[pid].tree.nodes[p], t.promises[pid].tree.nodes[p]);
  }

  lemma NamesStays(s: State, t: State, inode: nat, key: CacheKey)
    requires Evolves(s, t) && Names(s, inode, key)
    ensures Names(t, inode, key)
  {
    NodeStays(s, t, key.promiseId, key.relativePath);
  }

  lemma GotStays(s: State, t: State, content: Contents, call: Call, plan: ProviderReadPlan, coalesced: CoalescedPlan)
    requires Evolves(s, t) && Asked(s, content, call, plan, coalesced)
    ensures Asked(t, content, call, plan, coalesced)
  {
    NamesStays(s, t, call.inode, KeyOf(plan));
    InsideStays(s, t, coalesced.provider);
  }

  /** Recorded copies stay readable. */
  ghost predicate CopiesKept(w: World, v: World) {
    w.copies <= v.copies && forall path :: path in w.copies && path in w.disk ==> path in v.disk && v.disk[path] == w.disk[path]
  }

  lemma CallStays(w: World, v: World, content: Contents, call: Call)
    requires CallValid(w, content, call) && Evolves(w.runtime, v.runtime) && CopiesKept(w, v)
    ensures CallValid(v, content, call)
  {
    var s, t := w.runtime, v.runtime;
    match call.phase
    case Started =>
    case Waiting(plan, coalesced) => GotStays(s, t, content, call, plan, coalesced);
    case Answered(plan, coalesced, bytes) => GotStays(s, t, content, call, plan, coalesced);
    case Recorded(plan, coalesced, bytes) => GotStays(s, t, content, call, plan, coalesced);
    case Prefetching(plan, coalesced, bytes, next) =>
      GotStays(s, t, content, call, plan, coalesced);
      InsideStays(s, t, next);
    case PrefetchAnswered(plan, coalesced, bytes, next, more) =>
      GotStays(s, t, content, call, plan, coalesced);
      InsideStays(s, t, next);
    case Slicing(plan, coalesced, bytes) => GotStays(s, t, content, call, plan, coalesced);
    case Copying(key, path, offset, length) => NamesStays(s, t, call.inode, key);
    case Done(key, reply) => NamesStays(s, t, call.inode, key);
    case Failed(reason) =>
  }

  ghost predicate RuntimeTrue(w: World, content: Contents) {
    && Valid(w.runtime) && SizesMatch(w.runtime, content) && Truthful(w.runtime.files, content)
    && (forall pid, p {:trigger CopyHeld(w, content, pid, p)} :: NodeAt(w.runtime, pid, p) ==> CopyHeld(w, content, pid, p))
  }

  lemma AllCallsStay(w: World, v: World, content: Contents)
    requires WorldValid(w, content) && RuntimeTrue(v, content)
    requires Evolves(w.runtime, v.runtime) && CopiesKept(w, v) && v.calls == w.calls
    ensures WorldValid(v, content)
  {
    forall id {:trigger CallValid(v, content, v.calls[id])} | id in v.calls ensures CallValid(v, content, v.calls[id]) {
      assert CallValid(w, content, w.calls[id]);
      CallStays(w, v, content, w.calls[id]);
    }
  }

  lemma OneCallMoves(w: World, v: World, content: Contents, id: nat, call: Call)
    requires WorldValid(w, content) && RuntimeTrue(v, content)
    requires Evolves(w.runtime, v.runtime) && CopiesKept(w, v)
    requires v.calls == w.calls[id := call] && CallValid(v, content, call)
    ensures WorldValid(v, content)
  {
    forall k {:trigger CallValid(v, content, v.calls[k])} | k in v.calls ensures CallValid(v, content, v.calls[k]) {
      if k != id {
        assert CallValid(w, content, w.calls[k]);
        CallStays(w, v, content, w.calls[k]);
      }
    }
  }

  /** Only the calls changed. */
  lemma CallsOnly(w: World, v: World, content: Contents, id: nat, call: Call)
    requires WorldValid(w, content) && v == w.(calls := w.calls[id := call]) && CallValid(w, content, call)
    ensures WorldValid(v, content)
  {
    forall pid, p {:trigger CopyHeld(v, content, pid, p)} | NodeAt(v.runtime, pid, p) ensures CopyHeld(v, content, pid, p) {
      assert CopyHeld(w, content, pid, p);
    }
    EvolvesReflexive(w.runtime);
    CallStays(w, v, content, call);
    OneCallMoves(w, v, content, id, call);
  }

  lemma EvolvesReflexive(s: State)
    ensures Evolves(s, s)
  {
  }

  // ---- planning ------------------------------------------------------------

  lemma ExpectedSlice(file: seq<Byte>, offset: U64, size: U32)
    requires size > 0 && offset < |file| <= MAX_U64
    ensures var length := Min(Min(size, MAX_PROVIDER_READ_LEN), |file| - offset);
            && offset + length <= |file| && length > 0
            && file[offset..offset + length] == Expected(file, offset, size)
  {
  }

  /** What a plan says about the file it is for, by the source chosen. */
  ghost predicate PlanFits(s: State, pid: string, p: string, offset: U64, length: U32, plan: ReadPlan)
    requires NodeAt(s, pid, p)
  {
    var node := Node(s, pid, p);
    && node.kind.File?
    && (plan.Eof? <==> length == 0 || offset >= node.attr.size)
    && (!plan.Eof? ==>
         var capped := Min(length, node.attr.size - offset);
         match plan
         case FromFile(path, o, l) => node.materializedPath == Some(path) && o == offset && l == capped
         case FromCache(bytes) => s.cachePolicy.ChunkSize() > 0 &&
           Hit(s.files, CacheKey(pid, p), s.cachePolicy.ChunkSize(), offset, capped) == Some(bytes)
         case Request(r) => PlanProviderRead(s, pid, p, offset, capped) == Ok(r)
         case Eof => true)
  }

  lemma PlanReadCases(s: State, pid: string, p: string, offset: U64, length: U32)
    requires Valid(s) && NodeAt(s, pid, p) && PlanRead(s, pid, p, offset, length).Ok?
    ensures PlanFits(s, pid, p, offset, length, PlanRead(s, pid, p, offset, length).value)
  {
    StoredNode(s, pid, p);
  }

  lemma PlannedRequest(w: World, content: Contents, call: Call, pid: string, p: string, plan: ProviderReadPlan)
    requires RuntimeTrue(w, content) && Names(w.runtime, call.inode, CacheKey(pid, p)) && call.size > 0
    requires call.offset < Node(w.runtime, pid, p).attr.size
    requires var capped := Min(Min(call.size, MAX_PROVIDER_READ_LEN), Node(w.runtime, pid, p).attr.size - call.offset);
             PlanProviderRead(w.runtime, pid, p, call.offset, capped) == Ok(plan)
    requires PlanCoalesced(w.runtime, plan).Ok?
    ensures Asked(w.runtime, content, call, plan, PlanCoalesced(w.runtime, plan).value)
  {
    var s := w.runtime;
    var capped := Min(Min(call.size, MAX_PROVIDER_READ_LEN), Node(s, pid, p).attr.size - call.offset);
    StoredNode(s, pid, p);
    ProviderPlanInside(s, pid, p, call.offset, capped);
    CoalescedInside(s, plan);
    ExpectedSlice(content(CacheKey(pid, p)), call.offset, call.size);
  }

  /** The number of bytes a call is planned for, when it is not at the end of the file. */
  function Capped(call: Call, size: U64): nat
    requires call.offset < size
  {
    Min(Min(call.size, MAX_PROVIDER_READ_LEN), size - call.offset)
  }

  lemma PlannedHit(w: World, content: Contents, call: Call, pid: string, p: string, c: U32)
    requires RuntimeTrue(w, content) && Names(w.runtime, call.inode, CacheKey(pid, p)) && call.size > 0 && c > 0
    requires call.offset < Node(w.runtime, pid, p).attr.size
    requires Hit(w.runtime.files, CacheKey(pid, p), c, call.offset, Capped(call, Node(w.runtime, pid, p).attr.size)).Some?
    ensures Hit(w.runtime.files, CacheKey(pid, p), c, call.offset, Capped(call, Node(w.runtime, pid, p).attr.size)).value
         == Expected(content(CacheKey(pid, p)), call.offset, call.size)
  {
    var key, length := CacheKey(pid, p), Capped(call, Node(w.runtime, pid, p).attr.size);
    ExpectedSlice(content(key), call.offset, call.size);
    HitIsTrue(w.runtime.files, content, key, c, call.offset, length);
  }

  lemma PlannedCopy(w: World, content: Contents, call: Call, pid: string, p: string, path: string)
    requires RuntimeTrue(w, content) && Names(w.runtime, call.inode, CacheKey(pid, p)) && call.size > 0 && !call.short
    requires call.offset < Node(w.runtime, pid, p).attr.size && Node(w.runtime, pid, p).materializedPath == Some(path)
    ensures CallValid(w, content, call.(phase :=
              Copying(CacheKey(pid, p), path, call.offset, Capped(call, Node(w.runtime, pid, p).attr.size))))
  {
    assert CopyHeld(w, content, pid, p);
    ExpectedSlice(content(CacheKey(pid, p)), call.offset, call.size);
  }

  lemma PhaseValid(w: World, content: Contents, call: Call, pid: string, p: string, plan: ReadPlan)
    requires RuntimeTrue(w, content) && Names(w.runtime, call.inode, CacheKey(pid, p)) && !call.short
    requires PlanFits(w.runtime, pid, p, call.offset, Min(call.size, MAX_PROVIDER_READ_LEN), plan)
    ensures CallValid(w, content, call.(phase := PhaseFor(w.runtime, CacheKey(pid, p), Ok(plan))))
  {
    match plan
    case FromCache(bytes) => PlannedHit(w, content, call, pid, p, w.runtime.cachePolicy.ChunkSize());
    case FromFile(path, o, l) => PlannedCopy(w, content, call, pid, p, path);
    case Request(r) =>
      if PlanCoalesced(w.runtime, r).Ok? {
        PlannedRequest(w, content, call, pid, p, r);
      }
    case Eof =>
  }

  lemma PlannedFile(w: World, content: Contents, call: Call, pid: string, p: string)
    requires RuntimeTrue(w, content) && Names(w.runtime, call.inode, CacheKey(pid, p)) && !call.short
    requires LookupInode(w.runtime, call.inode) == Ok(NodeEntry(pid, Node(w.runtime, pid, p)))
    ensures CallValid(w, content, call.(phase := Planned(w.runtime, call.inode, call.offset, call.size)))
  {
    var s, size := w.runtime, Min(call.size, MAX_PROVIDER_READ_LEN);
    StoredNode(s, pid, p);
    var plan := PlanRead(s, pid, p, call.offset, size);
    if plan.Ok? {
      PlanReadCases(s, pid, p, call.offset, size);
      PhaseValid(w, content, call, pid, p, plan.value);
    }
  }

  lemma PlannedValid(w: World, content: Contents, call: Call)
    requires RuntimeTrue(w, content) && !call.short
    ensures CallValid(w, content, call.(phase := Planned(w.runtime, call.inode, call.offset, call.size)))
  {
    var s := w.runtime;
    if call.inode != FUSE_ROOT_INODE && LookupInode(s, call.inode).Ok? {
      var pid, p := FoundAt(s, call.inode);
      if Node(s, pid, p).kind.File? {
        PlannedFile(w, content, call, pid, p);
      } else {
        StoredNode(s, pid, p);
      }
    }
  }

  // ---- recording -----------------------------------------------------------

  lemma RecordKeepsTruth(w: World, v: World, content: Contents, request: ProviderReadPlan, bytes: seq<Byte>)
    requires RuntimeTrue(w, content) && InsideFile(w.runtime, request)
    requires TrueAnswer(content(KeyOf(request)), request, bytes)
    requires Records(w.runtime, v.runtime, request, bytes) && v.disk == w.disk && v.copies == w.copies
    ensures Accepted(w.runtime, request, bytes) && Evolves(w.runtime, v.runtime) && RuntimeTrue(v, content)
  {
    var s, t := w.runtime, v.runtime;
    EvolvesReflexive(s);
    RecordNeverRefused(s, s, request, bytes);
    NextKeeps(s, Record(request.promiseId, request.relativePath, request.offset, bytes), t);
    var key := RecordTarget(s, request.promiseId, request.relativePath, request.offset, bytes).value;
    if key.Some? {
      InsertKeepsTruth(s.files, t.files, content, KeyOf(request), request.offset, bytes, s.cachePolicy.ChunkSize());
    }
    SamePromisesTrue(w, v, content);
  }

  lemma SamePromisesTrue(w: World, v: World, content: Contents)
    requires RuntimeTrue(w, content) && v.runtime.promises == w.runtime.promises && CopiesKept(w, v)
    requires Valid(v.runtime) && Truthful(v.runtime.files, content)
    ensures RuntimeTrue(v, content)
  {
    forall pid, p {:trigger NodeAt(v.runtime, pid, p)} | NodeAt(v.runtime, pid, p) && Node(v.runtime, pid, p).kind.File?
      ensures |content(CacheKey(pid, p))| == Node(v.runtime, pid, p).attr.size
    {
      assert NodeAt(w.runtime, pid, p);
    }
    forall pid, p {:trigger CopyHeld(v, content, pid, p)} | NodeAt(v.runtime, pid, p) ensures CopyHeld(v, content, pid, p) {
      assert NodeAt(w.runtime, pid, p) && CopyHeld(w, content, pid, p);
    }
  }

  // ---- the environment -----------------------------------------------------

  lemma EnvSizes(w: World, e: Event, t: State, content: Contents)
    requires RuntimeTrue(w, content) && Sensible(e) && Next(w.runtime, e, t) && Honest(w, e, t, content)
    ensures SizesMatch(t, content)
  {
    if !e.Commit? {
      NextKeeps(w.runtime, e, t);
      forall pid, p {:trigger NodeAt(t, pid, p)} | NodeAt(t, pid, p) && Node(t, pid, p).kind.File?
        ensures |content(CacheKey(pid, p))| == Node(t, pid, p).attr.size
      {
        assert pid in w.runtime.promises;
        assert PromiseKept(w.runtime.promises[pid], t.promises[pid]);
        assert NodeAt(w.runtime, pid, p);
        NodeStays(w.runtime, t, pid, p);
      }
    }
  }

  lemma EnvTruth(w: World, e: Event, t: State, content: Contents)
    requires RuntimeTrue(w, content) && Next(w.runtime, e, t) && Honest(w, e, t, content)
    ensures Truthful(t.files, content)
  {
    assert t.files == w.runtime.files || t.files == map[];
  }

  /** A file's mark only changes when the event marks that very file. */
  lemma MarkOnly(s: State, e: Event, t: State, pid: string, p: string)
    requires Valid(s) && Sensible(e) && Next(s, e, t) && NodeAt(s, pid, p)
    ensures NodeAt(t, pid, p)
    ensures Node(t, pid, p).materializedPath == Node(s, pid, p).materializedPath ||
            (e.Mark? && e.promiseId == pid && Normalized(e.path) == Ok(p) && MarkStatus(s, pid, e.path).None?
             && Node(t, pid, p).materializedPath == Some(e.target))
  {
    if e.Commit? {
      CommitLeavesOld(s, e.builder, t, pid, p);
    }
  }

  lemma CommitLeavesOld(s: State, b: BuilderState, t: State, pid: string, p: string)
    requires Valid(s) && CommitNext(s, b, t) && NodeAt(s, pid, p)
    ensures NodeAt(t, pid, p) && Node(t, pid, p) == Node(s, pid, p)
  {
    FreshPromiseName(s);
    if CommitStatus(s, b).None? {
      var nodes :| Committed(s, b, t, nodes);
    }
  }

  /** A committed node starts without a mark. */
  lemma NewNodesUnmarked(s: State, e: Event, t: State, pid: string, p: string)
    requires Valid(s) && Sensible(e) && Next(s, e, t) && !NodeAt(s, pid, p) && NodeAt(t, pid, p)
    ensures Node(t, pid, p).materializedPath.None?
  {
    NextKeeps(s, e, t);
    assert pid in s.promises ==> PromiseKept(s.promises[pid], t.promises[pid]);
    assert e.Commit? && CommitStatus(s, e.builder).None?;
    CommittedUnmarked(s, e.builder, t, pid, p);
  }

  lemma CommittedUnmarked(s: State, b: BuilderState, t: State, pid: string, p: string)
    requires BuilderValid(b) && CommitStatus(s, b).None? && CommitNext(s, b, t) && pid !in s.promises && NodeAt(t, pid, p)
    ensures Node(t, pid, p).materializedPath.None?
  {
    var nodes :| Committed(s, b, t, nodes);
    var i := RenumberedAt(b.tree.nodes, nodes, s.nextNodeId, s.nextInode, p);
    assert b.tree.nodes[p].materializedPath.None?;
  }

  lemma EnvCopies(w: World, e: Event, v: World, content: Contents, pid: string, p: string)
    requires RuntimeTrue(w, content) && Sensible(e) && Next(w.runtime, e, v.runtime) && Honest(w, e, v.runtime, content)
    requires v == w.(runtime := v.runtime, copies := CopiesAfter(w, e)) && NodeAt(v.runtime, pid, p)
    ensures CopyHeld(v, content, pid, p)
  {
    if NodeAt(w.runtime, pid, p) {
      assert CopyHeld(w, content, pid, p);
      NextKeeps(w.runtime, e, v.runtime);
      NodeStays(w.runtime, v.runtime, pid, p);
      MarkOnly(w.runtime, e, v.runtime, pid, p);
    } else {
      NewNodesUnmarked(w.runtime, e, v.runtime, pid, p);
    }
  }

  lemma EnvKeeps(w: World, e: Event, v: World, content: Contents)
    requires WorldValid(w, content) && Step(w, Env(e), v, content)
    ensures WorldValid(v, content)
  {
    NextKeeps(w.runtime, e, v.runtime);
    EnvSizes(w, e, v.runtime, content);
    EnvTruth(w, e, v.runtime, content);
    forall pid, p {:trigger CopyHeld(v, content, pid, p)} | NodeAt(v.runtime, pid, p) ensures CopyHeld(v, content, pid, p) {
      EnvCopies(w, e, v, content, pid, p);
    }
    AllCallsStay(w, v, content);
  }

  lemma DiskKeeps(w: World, v: World, content: Contents)
    requires WorldValid(w, content) && Step(w, DiskChange, v, content)
    ensures WorldValid(v, content)
  {
    SamePromisesTrue(w, v, content);
    EvolvesReflexive(w.runtime);
    AllCallsStay(w, v, content);
  }

  // ---- the steps of a call -------------------------------------------------

  lemma RecordStepKeeps(w: World, v: World, content: Contents, id: nat, request: ProviderReadPlan, bytes: seq<Byte>, phase: Phase)
    requires WorldValid(w, content) && id in w.calls && InsideFile(w.runtime, request)
    requires TrueAnswer(content(KeyOf(request)), request, bytes)
    requires Records(w.runtime, v.runtime, request, bytes)
    requires v == Moved(w, id, phase).(runtime := v.runtime) && CallValid(w, content, w.calls[id].(phase := phase))
    ensures WorldValid(v, content)
  {
    var call := w.calls[id].(phase := phase);
    RecordKeepsTruth(w, v, content, request, bytes);
    CallStays(w, v, content, call);
    OneCallMoves(w, v, content, id, call);
  }

  lemma AfterRecordValid(w: World, content: Contents, call: Call)
    requires RuntimeTrue(w, content) && call.phase.Recorded? && CallValid(w, content, call)
    ensures CallValid(w, content, call.(phase := AfterRecord(w.runtime, call.phase)))
  {
    var s, request := w.runtime, call.phase.coalesced.provider;
    var next := PlanPrefetch(s, request.promiseId, request.relativePath, request.offset, request.length);
    if next.Ok? && next.value.Some? {
      PrefetchPlanInside(s, request.promiseId, request.relativePath, request.offset, request.length);
    }
  }

  lemma SlicedValid(w: World, content: Contents, call: Call)
    requires call.phase.Slicing? && CallValid(w, content, call)
    ensures CallValid(w, content, call.(phase := Sliced(call.phase)))
  {
    var phase := call.phase;
    assert KeyOf(phase.coalesced.provider) == KeyOf(phase.plan);
    ReplyIsTrue(content(KeyOf(phase.plan)), phase.coalesced, phase.plan, phase.bytes);
    var reply := ReplyBytes(phase.bytes, phase.coalesced.responseOffset, phase.coalesced.responseLength);
    if reply.Ok? {
      PrefixOfSlice(content(KeyOf(phase.plan)), phase.plan.offset, phase.plan.length, reply.value);
    }
  }

  lemma PrefixOfSlice(file: seq<Byte>, offset: nat, length: nat, reply: seq<Byte>)
    requires offset + length <= |file| && |reply| <= length && reply == file[offset..offset + |reply|]
    ensures reply <= file[offset..offset + length]
  {
  }

  /** Moves that only wait for or deliver something. */
  lemma DeliveryKeeps(w: World, m: Move, v: World, content: Contents)
    requires WorldValid(w, content) && Step(w, m, v, content)
    requires m.Begin? || m.RouteFails? || m.ProviderAnswers? || m.PrefetchFails? || m.PrefetchAnswers? || m.ReadCopyFails?
    ensures WorldValid(v, content)
  {
    if !m.Begin? {
      assert CallValid(w, content, w.calls[m.id]);
    }
    DeliveredCall(w, m, v, content);
    CallsOnly(w, v, content, m.id, v.calls[m.id]);
  }

  lemma DeliveredCall(w: World, m: Move, v: World, content: Contents)
    requires m.Begin? || m.RouteFails? || m.ProviderAnswers? || m.PrefetchFails? || m.PrefetchAnswers? || m.ReadCopyFails?
    requires Step(w, m, v, content) && (m.id in w.calls ==> CallValid(w, content, w.calls[m.id]))
    ensures m.id in v.calls && CallValid(w, content, v.calls[m.id])
  {
  }

  lemma CopiedValid(w: World, content: Contents, call: Call)
    requires call.phase.Copying? && CallValid(w, content, call)
    ensures CallValid(w, content, call.(phase := Copied(w.disk, call.phase)))
  {
  }

  /** Moves that compute the next phase of a call. */
  lemma ComputeKeeps(w: World, m: Move, v: World, content: Contents)
    requires WorldValid(w, content) && Step(w, m, v, content)
    requires m.Plan? || m.PlanNext? || m.Finish? || m.ReadCopy?
    ensures WorldValid(v, content)
  {
    var call := w.calls[m.id];
    assert CallValid(w, content, call);
    match m {
      case Plan(id) => PlannedValid(w, content, call);
      case PlanNext(id) => AfterRecordValid(w, content, call);
      case Finish(id) => SlicedValid(w, content, call);
      case ReadCopy(id) => CopiedValid(w, content, call);
    }
    CallsOnly(w, v, content, m.id, v.calls[m.id]);
  }

  lemma RecordAnswerKeeps(w: World, v: World, content: Contents, id: nat)
    requires WorldValid(w, content) && Step(w, RecordAnswer(id), v, content)
    ensures WorldValid(v, content)
  {
    var phase := w.calls[id].phase;
    assert CallValid(w, content, w.calls[id]);
    EvolvesReflexive(w.runtime);
    RecordNeverRefused(w.runtime, w.runtime, phase.coalesced.provider, phase.bytes);
    RecordStepKeeps(w, v, content, id, phase.coalesced.provider, phase.bytes, Recorded(phase.plan, phase.coalesced, phase.bytes));
  }

  lemma RecordPrefetchKeeps(w: World, v: World, content: Contents, id: nat)
    requires WorldValid(w, content) && Step(w, RecordPrefetch(id), v, content)
    ensures WorldValid(v, content)
  {
    var phase := w.calls[id].phase;
    assert CallValid(w, content, w.calls[id]);
    RecordStepKeeps(w, v, content, id, phase.next, phase.more, Slicing(phase.plan, phase.coalesced, phase.bytes));
  }

  lemma StepKeeps(w: World, m: Move, v: World, content: Contents)
    requires WorldValid(w, content) && Step(w, m, v, content)
    ensures WorldValid(v, content)
  {
    match m
    case Env(e) => EnvKeeps(w, e, v, content);
    case DiskChange => DiskKeeps(w, v, content);
    case RecordAnswer(id) => RecordAnswerKeeps(w, v, content, id);
    case RecordPrefetch(id) => RecordPrefetchKeeps(w, v, content, id);
    case Plan(_) => ComputeKeeps(w, m, v, content);
    case PlanNext(_) => ComputeKeeps(w, m, v, content);
    case Finish(_) => ComputeKeeps(w, m, v, content);
    case ReadCopy(_) => ComputeKeeps(w, m, v, content);
    case _ => DeliveryKeeps(w, m, v, content);
  }

  // ---- whole runs ----------------------------------------------------------

  ghost predicate WorldRun(worlds: seq<World>, moves: seq<Move>, content: Contents) {
    && |worlds| == |moves| + 1
    && worlds[0].runtime == Initial() && worlds[0].copies == {} && worlds[0].calls == map[]
    && forall i {:trigger moves[i]} :: 0 <= i < |moves| ==> Step(worlds[i], moves[i], worlds[i + 1], content)
  }

  lemma {:induction false} WorldRunValid(worlds: seq<World>, moves: seq<Move>, content: Contents, i: nat)
    requires WorldRun(worlds, moves, content) && i < |worlds|
    ensures WorldValid(worlds[i], content)
  {
    if i > 0 {
      WorldRunValid(worlds, moves, content, i - 1);
      assert Step(worlds[i - 1], moves[i - 1], worlds[i], content);
      StepKeeps(worlds[i - 1], moves[i - 1], worlds[i], content);
    }
  }

  /**
    In every interleaving, a successful reply names the file behind the inode and is a prefix of the
    expected bytes; it is all of them unless the provider answered short.  A reply never fails
    because its answer could not be recorded, and fails on slicing only after a short answer.
   */
  lemma ReadRefinement(worlds: seq<World>, moves: seq<Move>, content: Contents, i: nat, id: nat)
    requires WorldRun(worlds, moves, content) && i < |worlds| && id in worlds[i].calls
    ensures var call := worlds[i].calls[id];
            && (call.phase.Done? ==>
                 && Names(worlds[i].runtime, call.inode, call.phase.key)
                 && call.phase.reply <= Expected(content(call.phase.key), call.offset, call.size)
                 && (!call.short ==> call.phase.reply == Expected(content(call.phase.key), call.offset, call.size)))
            && call.phase != Failed(RecordFailed)
            && (call.phase == Failed(SliceFailed) ==> call.short)
  {
    WorldRunValid(worlds, moves, content, i);
    assert CallValid(worlds[i], content, worlds[i].calls[id]);
  }
}
