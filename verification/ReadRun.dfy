/**
  FUSE reads as they interleave with everything else: a read plans under the runtime lock, waits
  for the provider, records the answer, prefetches and replies, while other reads, commits,
  disconnects, policy changes and materializations happen in between.
 */
module ReadRun {
  import opened Base
  import opened Paths
  import opened Tree
  import opened Cache
  import opened Runtime
  import opened Lifecycle
  import opened Namespace
  import opened Planner

  datatype Failure = PlanFailed | RouteFailed | RecordFailed | SliceFailed | CopyFailed

  datatype Phase =
    | Started
    | Waiting(plan: ProviderReadPlan, coalesced: CoalescedPlan)
    | Answered(plan: ProviderReadPlan, coalesced: CoalescedPlan, bytes: seq<Byte>)
    | Recorded(plan: ProviderReadPlan, coalesced: CoalescedPlan, bytes: seq<Byte>)
    | Prefetching(plan: ProviderReadPlan, coalesced: CoalescedPlan, bytes: seq<Byte>, next: ProviderReadPlan)
    | PrefetchAnswered(plan: ProviderReadPlan, coalesced: CoalescedPlan, bytes: seq<Byte>, next: ProviderReadPlan, more: seq<Byte>)
    | Slicing(plan: ProviderReadPlan, coalesced: CoalescedPlan, bytes: seq<Byte>)
    | Copying(key: CacheKey, path: string, offset: U64, length: U32)
    | Done(key: CacheKey, reply: seq<Byte>)
    | Failed(reason: Failure)

  /** One read call; `short` tells whether the provider answered with fewer bytes than asked. */
  datatype Call = Call(inode: nat, offset: U64, size: U32, short: bool, phase: Phase)

  /** The runtime, the local files, the paths of materialized copies, and the read calls so far. */
  datatype World = World(runtime: State, disk: map<string, seq<Byte>>, copies: set<string>, calls: map<nat, Call>)

  // ---- steps ---------------------------------------------------------------

  datatype Move =
    | Env(event: Event)
    | DiskChange
    | Begin(id: nat, inode: nat, offset: U64, size: U32)
    | Plan(id: nat)
    | RouteFails(id: nat)
    | ProviderAnswers(id: nat, bytes: seq<Byte>)
    | RecordAnswer(id: nat)
    | PlanNext(id: nat)
    | PrefetchFails(id: nat)
    | PrefetchAnswers(id: nat, bytes: seq<Byte>)
    | RecordPrefetch(id: nat)
    | Finish(id: nat)
    | ReadCopy(id: nat)
    | ReadCopyFails(id: nat)

  /** The phase that a read plan leads to. */
  ghost function PhaseFor(s: State, key: CacheKey, plan: Result<ReadPlan>): Phase {
    match plan
    case Err(_) => Failed(PlanFailed)
    case Ok(Eof) => Done(key, [])
    case Ok(FromCache(bytes)) => Done(key, bytes)
    case Ok(FromFile(path, o, l)) => Copying(key, path, o, l)
    case Ok(Request(p)) =>
      var coalesced := PlanCoalesced(s, p);
      if coalesced.Err? then Failed(PlanFailed) else Waiting(p, coalesced.value)
  }

  ghost function Planned(s: State, inode: nat, offset: U64, size: U32): Phase {
    var entry := LookupInode(s, inode);
    if entry.Err? || entry.value.MountRoot? then Failed(PlanFailed)
    else
      var pid, node := entry.value.promiseId, entry.value.node;
      PhaseFor(s, CacheKey(pid, node.relativePath), PlanRead(s, pid, node.relativePath, offset, Min(size, MAX_PROVIDER_READ_LEN)))
  }

  /** Prefetching follows a full answer only, and any planning failure just skips it. */
  ghost function AfterRecord(s: State, phase: Phase): Phase
    requires phase.Recorded?
  {
    var request := phase.coalesced.provider;
    var next := PlanPrefetch(s, request.promiseId, request.relativePath, request.offset, request.length);
    if |phase.bytes| == request.length && next.Ok? && next.value.Some?
    then Prefetching(phase.plan, phase.coalesced, phase.bytes, next.value.value)
    else Slicing(phase.plan, phase.coalesced, phase.bytes)
  }

  function Sliced(phase: Phase): Phase
    requires phase.Slicing?
  {
    var reply := ReplyBytes(phase.bytes, phase.coalesced.responseOffset, phase.coalesced.responseLength);
    if reply.Err? then Failed(SliceFailed) else Done(CacheKey(phase.plan.promiseId, phase.plan.relativePath), reply.value)
  }

  /** A materialized read must return all the bytes it was planned for. */
  function Copied(disk: map<string, seq<Byte>>, phase: Phase): Phase
    requires phase.Copying?
  {
    if phase.path in disk && phase.offset + phase.length <= |disk[phase.path]|
    then Done(phase.key, disk[phase.path][phase.offset..phase.offset + phase.length])
    else Failed(CopyFailed)
  }

  /** The record call made for a provider answer, and the phase that follows. */
  ghost predicate Records(s: State, t: State, request: ProviderReadPlan, bytes: seq<Byte>) {
    Next(s, Record(request.promiseId, request.relativePath, request.offset, bytes), t)
  }

  predicate Accepted(s: State, request: ProviderReadPlan, bytes: seq<Byte>) {
    RecordTarget(s, request.promiseId, request.relativePath, request.offset, bytes).Ok?
  }

  ghost predicate SizesMatch(s: State, content: Contents) {
    forall pid, p {:trigger NodeAt(s, pid, p)} :: NodeAt(s, pid, p) && Node(s, pid, p).kind.File? ==>
      |content(CacheKey(pid, p))| == Node(s, pid, p).attr.size
  }

  /**
    What the environment may do: declare files of the true sizes, mark copies that hold the true
    content, and anything else except record cache contents behind the readers' back.
   */
  ghost predicate Honest(w: World, e: Event, t: State, content: Contents) {
    match e
    case Record(_, _, _, _) => false
    case Commit(_) => SizesMatch(t, content)
    case Mark(pid, path, target) =>
      MarkStatus(w.runtime, pid, path).None? && Node(w.runtime, pid, Normalized(path).value).kind.File? ==>
        target in w.disk && w.disk[target] == content(CacheKey(pid, Normalized(path).value))
    case _ => true
  }

  ghost function CopiesAfter(w: World, e: Event): set<string> {
    if e.Mark? && MarkStatus(w.runtime, e.promiseId, e.path).None? && Node(w.runtime, e.promiseId, Normalized(e.path).value).kind.File?
    then w.copies + {e.target}
    else w.copies
  }

  /** The world with call `id` in a new phase. */
  function Moved(w: World, id: nat, phase: Phase): World
    requires id in w.calls
  {
    w.(calls := w.calls[id := w.calls[id].(phase := phase)])
  }

  ghost predicate Step(w: World, m: Move, v: World, content: Contents) {
    match m
    case Env(e) =>
      && Sensible(e) && Next(w.runtime, e, v.runtime) && Honest(w, e, v.runtime, content)
      && v == w.(runtime := v.runtime, copies := CopiesAfter(w, e))
    case DiskChange =>
      && v == w.(disk := v.disk)
      && forall path :: path in w.copies ==> (path in w.disk <==> path in v.disk) && (path in w.disk ==> v.disk[path] == w.disk[path])
    case Begin(id, inode, offset, size) =>
      id !in w.calls && v == w.(calls := w.calls[id := Call(inode, offset, size, false, Started)])
    case Plan(id) =>
      && id in w.calls && w.calls[id].phase.Started?
      && v == Moved(w, id, Planned(w.runtime, w.calls[id].inode, w.calls[id].offset, w.calls[id].size))
    case RouteFails(id) =>
      id in w.calls && w.calls[id].phase.Waiting? && v == Moved(w, id, Failed(RouteFailed))
    case ProviderAnswers(id, bytes) =>
      && id in w.calls && w.calls[id].phase.Waiting?
      && var call, phase := w.calls[id], w.calls[id].phase;
         var request := phase.coalesced.provider;
         && TrueAnswer(content(CacheKey(request.promiseId, request.relativePath)), request, bytes)
         && v == w.(calls := w.calls[id := call.(short := |bytes| < request.length,
                                                 phase := Answered(phase.plan, phase.coalesced, bytes))])
    case RecordAnswer(id) =>
      && id in w.calls && w.calls[id].phase.Answered?
      && var phase := w.calls[id].phase;
         && Records(w.runtime, v.runtime, phase.coalesced.provider, phase.bytes)
         && v == Moved(w, id, if Accepted(w.runtime, phase.coalesced.provider, phase.bytes)
                              then Recorded(phase.plan, phase.coalesced, phase.bytes)
                              else Failed(RecordFailed)).(runtime := v.runtime)
    case PlanNext(id) =>
      id in w.calls && w.calls[id].phase.Recorded? && v == Moved(w, id, AfterRecord(w.runtime, w.calls[id].phase))
    case PrefetchFails(id) =>
      && id in w.calls && w.calls[id].phase.Prefetching?
      && var phase := w.calls[id].phase;
         v == Moved(w, id, Slicing(phase.plan, phase.coalesced, phase.bytes))
    case PrefetchAnswers(id, more) =>
      && id in w.calls && w.calls[id].phase.Prefetching?
      && var phase := w.calls[id].phase;
         && TrueAnswer(content(CacheKey(phase.next.promiseId, phase.next.relativePath)), phase.next, more)
         && v == Moved(w, id, PrefetchAnswered(phase.plan, phase.coalesced, phase.bytes, phase.next, more))
    case RecordPrefetch(id) =>
      && id in w.calls && w.calls[id].phase.PrefetchAnswered?
      && var phase := w.calls[id].phase;
         && Records(w.runtime, v.runtime, phase.next, phase.more)
         && v == Moved(w, id, Slicing(phase.plan, phase.coalesced, phase.bytes)).(runtime := v.runtime)
    case Finish(id) =>
      id in w.calls && w.calls[id].phase.Slicing? && v == Moved(w, id, Sliced(w.calls[id].phase))
    case ReadCopy(id) =>
      id in w.calls && w.calls[id].phase.Copying? && v == Moved(w, id, Copied(w.disk, w.calls[id].phase))
    case ReadCopyFails(id) =>
      id in w.calls && w.calls[id].phase.Copying? && v == Moved(w, id, Failed(CopyFailed))
  }

  // ---- the invariant -------------------------------------------------------

  ghost predicate Names(s: State, inode: nat, key: CacheKey) {
    && NodeAt(s, key.promiseId, key.relativePath)
    && Node(s, key.promiseId, key.relativePath).inode == inode && Node(s, key.promiseId, key.relativePath).kind.File?
  }

  /** The bytes a reader should see: the file from `offset` on, at most `size` and 256 KiB of it. */
  ghost function Expected(file: seq<Byte>, offset: U64, size: U32): seq<Byte> {
    if offset >= |file| then [] else file[offset..Min(offset + Min(size, MAX_PROVIDER_READ_LEN), |file|)]
  }

  ghost function KeyOf(plan: ProviderReadPlan): CacheKey {
    CacheKey(plan.promiseId, plan.relativePath)
  }

  /** The exact plan of a call: the expected range of the file its inode names. */
  ghost predicate PlanOf(s: State, content: Contents, call: Call, plan: ProviderReadPlan) {
    && Names(s, call.inode, KeyOf(plan)) && plan.offset == call.offset
    && plan.offset + plan.length <= |content(KeyOf(plan))|
    && content(KeyOf(plan))[plan.offset..plan.offset + plan.length] == Expected(content(KeyOf(plan)), call.offset, call.size)
  }

  ghost predicate Asked(s: State, content: Contents, call: Call, plan: ProviderReadPlan, coalesced: CoalescedPlan) {
    PlanOf(s, content, call, plan) && InsideFile(s, coalesced.provider) && Contains(coalesced, plan)
  }

  ghost predicate Got(s: State, content: Contents, call: Call, plan: ProviderReadPlan, coalesced: CoalescedPlan, bytes: seq<Byte>) {
    && Asked(s, content, call, plan, coalesced)
    && TrueAnswer(content(KeyOf(coalesced.provider)), coalesced.provider, bytes)
    && (call.short <==> |bytes| < coalesced.provider.length)
  }

  ghost predicate CallValid(w: World, content: Contents, call: Call) {
    var s := w.runtime;
    match call.phase
    case Started => !call.short
    case Waiting(plan, coalesced) => !call.short && Asked(s, content, call, plan, coalesced)
    case Answered(plan, coalesced, bytes) => Got(s, content, call, plan, coalesced, bytes)
    case Recorded(plan, coalesced, bytes) => Got(s, content, call, plan, coalesced, bytes)
    case Prefetching(plan, coalesced, bytes, next) => Got(s, content, call, plan, coalesced, bytes) && InsideFile(s, next)
    case PrefetchAnswered(plan, coalesced, bytes, next, more) =>
      Got(s, content, call, plan, coalesced, bytes) && InsideFile(s, next) && TrueAnswer(content(KeyOf(next)), next, more)
    case Slicing(plan, coalesced, bytes) => Got(s, content, call, plan, coalesced, bytes)
    case Copying(key, path, offset, length) =>
      && Names(s, call.inode, key) && !call.short && offset == call.offset
      && path in w.copies && path in w.disk && w.disk[path] == content(key)
      && offset + length <= |content(key)| && content(key)[offset..offset + length] == Expected(content(key), call.offset, call.size)
    case Done(key, reply) =>
      && Names(s, call.inode, key)
      && reply <= Expected(content(key), call.offset, call.size)
      && (!call.short ==> reply == Expected(content(key), call.offset, call.size))
    case Failed(reason) => !reason.RecordFailed? && (reason.SliceFailed? ==> call.short)
  }

  /** Every marked file has a local copy with the true content. */
  ghost predicate CopyHeld(w: World, content: Contents, pid: string, p: string)
    requires NodeAt(w.runtime, pid, p)
  {
    var node := Node(w.runtime, pid, p);
    node.kind.File? && node.materializedPath.Some? ==>
      && node.materializedPath.value in w.copies && node.materializedPath.value in w.disk
      && w.disk[node.materializedPath.value] == content(CacheKey(pid, p))
  }

  ghost predicate WorldValid(w: World, content: Contents) {
    && Valid(w.runtime) && SizesMatch(w.runtime, content) && Truthful(w.runtime.files, content)
    && (forall pid, p {:trigger CopyHeld(w, content, pid, p)} :: NodeAt(w.runtime, pid, p) ==> CopyHeld(w, content, pid, p))
    && (forall id {:trigger CallValid(w, content, w.calls[id])} :: id in w.calls ==> CallValid(w, content, w.calls[id]))
  }
}
