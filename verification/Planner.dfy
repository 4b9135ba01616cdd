/** Read planning: which source serves a read, and what is asked of the provider. */
module Planner {
  import opened Base
  import opened Paths
  import opened Tree
  import opened Cache
  import opened Runtime
  import opened Lifecycle

  const MAX_PROVIDER_READ_LEN: U32 := 0x40000

  datatype ProviderReadPlan = ProviderReadPlan(
    providerId: nat,
    promiseId: string,
    relativePath: string,
    providerNodeId: string,
    offset: U64,
    length: U32)

  datatype CoalescedPlan = CoalescedPlan(provider: ProviderReadPlan, responseOffset: U32, responseLength: U32)

  datatype ReadPlan =
    | Request(plan: ProviderReadPlan)
    | FromFile(path: string, offset: U64, length: U32)
    | FromCache(bytes: seq<Byte>)
    | Eof

  // ---- the planning functions ----------------------------------------------

  function PlanProviderRead(s: State, pid: string, path: string, offset: U64, length: U32): Result<ProviderReadPlan> {
    var found := GetNode(s, pid, path);
    if found.None? then Err(NotFound)
    else
      var node, promise := found.value, s.promises[pid];
      if !node.kind.File? then Err(InvalidArgument)
      else if length == 0 || offset >= node.attr.size then Err(InvalidArgument)
      else
        var capped := Min(length, node.attr.size - offset);
        if CheckedAdd(offset, capped).None? then Err(InvalidArgument)
        else if !promise.state.Available? || !HasProvider(s, promise.providerId) then Err(Status.ProviderGone)
        else Ok(ProviderReadPlan(promise.providerId, promise.promiseId, node.relativePath, node.providerNodeId, offset, capped))
  }

  ghost function PlanRead(s: State, pid: string, path: string, offset: U64, length: U32): Result<ReadPlan> {
    var found := GetNode(s, pid, path);
    if found.None? then Err(NotFound)
    else
      var node := found.value;
      if !node.kind.File? then Err(InvalidArgument)
      else if length == 0 || offset >= node.attr.size then Ok(Eof)
      else
        var capped: nat := Min(length, node.attr.size - offset);
        if CheckedAdd(offset, capped).None? then Err(InvalidArgument)
        else if node.materializedPath.Some? then Ok(FromFile(node.materializedPath.value, offset, capped))
        else
          var c := s.cachePolicy.ChunkSize();
          var hit := if c == 0 then None else Hit(s.files, CacheKey(pid, node.relativePath), c, offset, capped);
          if hit.Some? then Ok(FromCache(hit.value))
          else
            var plan := PlanProviderRead(s, pid, node.relativePath, offset, capped);
            if plan.Err? then Err(plan.status) else Ok(Request(plan.value))
  }

  function PlanCoalesced(s: State, plan: ProviderReadPlan): Result<CoalescedPlan> {
    var c := s.cachePolicy.ChunkSize();
    if c == 0 then Ok(CoalescedPlan(plan, 0, plan.length))
    else
      var found := GetNode(s, plan.promiseId, plan.relativePath);
      if found.None? then Err(NotFound)
      else if !found.value.kind.File? then Err(InvalidArgument)
      else
        var start := ChunkBase(plan.offset, c);
        if CheckedAdd(start, c).None? then Err(InvalidArgument)
        else if CheckedAdd(plan.offset, plan.length).None? then Err(InvalidArgument)
        else if plan.offset + plan.length > start + c then Ok(CoalescedPlan(plan, 0, plan.length))
        else
          var remaining := if found.value.attr.size >= start then found.value.attr.size - start else 0;
          Ok(CoalescedPlan(plan.(offset := start, length := Min(c, remaining)), plan.offset - start, plan.length))
  }

  ghost function PlanPrefetch(s: State, pid: string, path: string, completedOffset: U64, completedLength: U32)
    : Result<Option<ProviderReadPlan>>
  {
    var c := s.cachePolicy.ChunkSize();
    if c == 0 || completedLength == 0 then Ok(None)
    else
      var found := GetNode(s, pid, path);
      if found.None? then Err(NotFound)
      else
        var node, promise := found.value, s.promises[pid];
        if !node.kind.File? then Err(InvalidArgument)
        else if node.materializedPath.Some? then Ok(None)
        else if !promise.state.Available? || !HasProvider(s, promise.providerId) then Err(Status.ProviderGone)
        else if CheckedAdd(completedOffset, completedLength).None? then Err(InvalidArgument)
        else
          var offset := completedOffset + completedLength;
          if offset >= node.attr.size then Ok(None)
          else
            var length := Min(c, node.attr.size - offset);
            if Hit(s.files, CacheKey(pid, node.relativePath), c, offset, length).Some? then Ok(None)
            else Ok(Some(ProviderReadPlan(promise.providerId, promise.promiseId, node.relativePath, node.providerNodeId, offset, length)))
  }

  /** The slice of a provider answer that goes into the reply. */
  function ReplyBytes(bytes: seq<Byte>, responseOffset: U32, responseLength: U32): Result<seq<Byte>> {
    if responseOffset == 0 && |bytes| <= responseLength then Ok(bytes)
    else if responseOffset + responseLength > |bytes| then Err(Io)
    else Ok(bytes[responseOffset..responseOffset + responseLength])
  }

  // ---- validation of requests ----------------------------------------------

  predicate ValidRange(offset: U64, length: U32) {
    0 < length <= MAX_PROVIDER_READ_LEN && CheckedAdd(offset, length).Some?
  }

  predicate ValidToken(value: string) {
    value != "" && NUL !in value
  }

  /** What the request encoder demands before a read is routed. */
  predicate RequestAccepted(requestId: nat, plan: ProviderReadPlan) {
    && Normalized(plan.relativePath).Ok? && requestId != 0 && plan.providerId != 0
    && ValidToken(plan.promiseId) && ValidToken(plan.providerNodeId) && ValidRange(plan.offset, plan.length)
  }

  /** The plan asks for a nonempty range inside the file it names. */
  ghost predicate InsideFile(s: State, plan: ProviderReadPlan) {
    && NodeAt(s, plan.promiseId, plan.relativePath)
    && var node := Node(s, plan.promiseId, plan.relativePath);
       && node.kind.File? && node.relativePath == plan.relativePath && node.providerNodeId == plan.providerNodeId
       && plan.length > 0 && plan.offset + plan.length <= node.attr.size
       && s.promises[plan.promiseId].providerId == plan.providerId
  }

  lemma FoundNode(s: State, pid: string, path: string)
    requires Valid(s) && GetNode(s, pid, path).Some?
    ensures var node := GetNode(s, pid, path).value;
            && NodeAt(s, pid, node.relativePath) && Node(s, pid, node.relativePath) == node
            && Normalized(path) == Ok(node.relativePath) && GetNode(s, pid, node.relativePath) == Some(node)
            && s.promises[pid].promiseId == pid
  {
    var p := Normalized(path).value;
    assert PromiseValid(s, pid) && NodeValid(s.promises[pid].tree, p);
    NormalizedFixpoint(p);
  }

  lemma StoredNode(s: State, pid: string, p: string)
    requires Valid(s) && NodeAt(s, pid, p)
    ensures GetNode(s, pid, p) == Some(Node(s, pid, p)) && Node(s, pid, p).relativePath == p && Normalized(p) == Ok(p)
  {
    assert PromiseValid(s, pid) && NodeValid(s.promises[pid].tree, p);
    NormalizedFixpoint(p);
  }

  lemma ProviderPlanInside(s: State, pid: string, path: string, offset: U64, length: U32)
    requires Valid(s) && PlanProviderRead(s, pid, path, offset, length).Ok?
    ensures var plan := PlanProviderRead(s, pid, path, offset, length).value;
            && InsideFile(s, plan) && plan.promiseId == pid && Normalized(path) == Ok(plan.relativePath)
            && plan.offset == offset
            && plan.length == Min(length, Node(s, pid, plan.relativePath).attr.size - offset)
  {
    FoundNode(s, pid, path);
  }

  lemma PrefetchPlanInside(s: State, pid: string, path: string, offset: U64, length: U32)
    requires Valid(s) && PlanPrefetch(s, pid, path, offset, length).Ok? && PlanPrefetch(s, pid, path, offset, length).value.Some?
    ensures var plan := PlanPrefetch(s, pid, path, offset, length).value.value;
            && InsideFile(s, plan) && plan.promiseId == pid && Normalized(path) == Ok(plan.relativePath)
            && plan.offset == offset + length
            && plan.length == Min(s.cachePolicy.ChunkSize(), Node(s, pid, plan.relativePath).attr.size - plan.offset)
  {
    FoundNode(s, pid, path);
  }

  /** The request contains the planned range, at the response offset. */
  ghost predicate Contains(r: CoalescedPlan, plan: ProviderReadPlan) {
    && r.provider.(offset := plan.offset, length := plan.length) == plan
    && r.provider.offset + r.responseOffset == plan.offset && r.responseLength == plan.length
    && r.responseOffset + r.responseLength <= r.provider.length
  }

  /** A coalesced request still lies in the file and contains the range that was asked for. */
  lemma CoalescedInside(s: State, plan: ProviderReadPlan)
    requires Valid(s) && InsideFile(s, plan) && PlanCoalesced(s, plan).Ok?
    ensures var r := PlanCoalesced(s, plan).value;
            && InsideFile(s, r.provider) && Contains(r, plan)
            && (r.provider == plan || r.provider.length <= s.cachePolicy.ChunkSize())
  {
    StoredNode(s, plan.promiseId, plan.relativePath);
  }

  /** Coalescing fails exactly when the containing chunk would end beyond 64 bits. */
  lemma CoalesceOkIff(s: State, plan: ProviderReadPlan)
    requires Valid(s) && InsideFile(s, plan)
    ensures var c := s.cachePolicy.ChunkSize();
            PlanCoalesced(s, plan).Ok? <==> c == 0 || ChunkBase(plan.offset, c) + c <= MAX_U64
  {
    StoredNode(s, plan.promiseId, plan.relativePath);
  }

  lemma RequestAcceptedIff(s: State, requestId: nat, plan: ProviderReadPlan)
    requires Valid(s) && InsideFile(s, plan)
    ensures RequestAccepted(requestId, plan) <==> requestId != 0 && plan.length <= MAX_PROVIDER_READ_LEN && NUL !in plan.providerNodeId
  {
    StoredNode(s, plan.promiseId, plan.relativePath);
    PromiseTokens(s, plan.promiseId);
    FileHasProviderNode(s.promises[plan.promiseId].tree, plan.relativePath);
  }

  /**
    A request for at most 256 KiB, as a read without cache and a materialize chunk make it, is
    accepted by the encoder if and only if the declared provider node id holds no NUL.
   */
  lemma ExactRequestAccepted(s: State, requestId: nat, pid: string, path: string, offset: U64, length: U32)
    requires Valid(s) && length <= MAX_PROVIDER_READ_LEN && PlanProviderRead(s, pid, path, offset, length).Ok?
    ensures var plan := PlanProviderRead(s, pid, path, offset, length).value;
            RequestAccepted(requestId, plan) <==> requestId != 0 && NUL !in plan.providerNodeId
  {
    ProviderPlanInside(s, pid, path, offset, length);
    RequestAcceptedIff(s, requestId, PlanProviderRead(s, pid, path, offset, length).value);
  }

  /** A prefetch is accepted if and only if, in addition, no more than 256 KiB of the next chunk's worth are left. */
  lemma PrefetchRequestAccepted(s: State, requestId: nat, pid: string, path: string, offset: U64, length: U32)
    requires Valid(s)
    requires PlanPrefetch(s, pid, path, offset, length).Ok? && PlanPrefetch(s, pid, path, offset, length).value.Some?
    ensures var plan, c := PlanPrefetch(s, pid, path, offset, length).value.value, s.cachePolicy.ChunkSize();
            && NodeAt(s, pid, plan.relativePath)
            && (RequestAccepted(requestId, plan) <==>
                requestId != 0 && NUL !in plan.providerNodeId && Min(c, Node(s, pid, plan.relativePath).attr.size - plan.offset) <= MAX_PROVIDER_READ_LEN)
            && (c <= MAX_PROVIDER_READ_LEN ==> (RequestAccepted(requestId, plan) <==> requestId != 0 && NUL !in plan.providerNodeId))
  {
    PrefetchPlanInside(s, pid, path, offset, length);
    RequestAcceptedIff(s, requestId, PlanPrefetch(s, pid, path, offset, length).value.value);
  }

  /**
    When a range of a file of this size can be asked for through chunks: without chunks, or if its
    chunk ends within 64 bits and either it reaches beyond the chunk, so that it is asked for as it
    is, or what the file has of the chunk fits into one request.
   */
  predicate Coalescible(c: U32, offset: U64, length: nat, size: U64) {
    c == 0 ||
    (var base := ChunkBase(offset, c);
     base + c <= MAX_U64 && (offset + length > base + c || Min(c, size - base) <= MAX_PROVIDER_READ_LEN))
  }

  /** With chunks of at most 256 KiB only the end of the chunk matters. */
  lemma SmallChunksCoalesce(c: U32, offset: U64, length: nat, size: U64)
    requires c <= MAX_PROVIDER_READ_LEN
    ensures Coalescible(c, offset, length, size) <==> c == 0 || ChunkBase(offset, c) + c <= MAX_U64
  {
  }

  lemma CoalescedLength(s: State, plan: ProviderReadPlan)
    requires Valid(s) && InsideFile(s, plan) && PlanCoalesced(s, plan).Ok?
    ensures var c, size := s.cachePolicy.ChunkSize(), Node(s, plan.promiseId, plan.relativePath).attr.size;
            PlanCoalesced(s, plan).value.provider.length ==
              if c == 0 || plan.offset + plan.length > ChunkBase(plan.offset, c) + c then plan.length
              else Min(c, size - ChunkBase(plan.offset, c))
  {
    StoredNode(s, plan.promiseId, plan.relativePath);
  }

  /** The coalesced request of an accepted length is planned and accepted under exactly these conditions, for every chunk size. */
  lemma CoalescedRequestAccepted(s: State, requestId: nat, plan: ProviderReadPlan)
    requires Valid(s) && InsideFile(s, plan) && plan.length <= MAX_PROVIDER_READ_LEN
    ensures var c, size := s.cachePolicy.ChunkSize(), Node(s, plan.promiseId, plan.relativePath).attr.size;
            (PlanCoalesced(s, plan).Ok? && RequestAccepted(requestId, PlanCoalesced(s, plan).value.provider)) <==>
            (requestId != 0 && NUL !in plan.providerNodeId && Coalescible(c, plan.offset, plan.length, size))
  {
    CoalesceOkIff(s, plan);
    if PlanCoalesced(s, plan).Ok? {
      CoalescedInside(s, plan);
      CoalescedLength(s, plan);
      RequestAcceptedIff(s, requestId, PlanCoalesced(s, plan).value.provider);
    }
  }

  lemma PromiseTokens(s: State, pid: string)
    requires Valid(s) && pid in s.promises
    ensures ValidToken(pid) && s.promises[pid].providerId != 0 && TreeValid(s.promises[pid].tree)
  {
    assert PromiseValid(s, pid);
    var n :| Numbered(s, pid, n);
    PromiseNames(n, n);
  }

  lemma FileHasProviderNode(t: Tree, p: string)
    requires TreeValid(t) && p in t.nodes && t.nodes[p].kind.File?
    ensures t.nodes[p].providerNodeId != ""
  {
    assert NodeValid(t, p);
  }

  lemma InsideStays(s: State, t: State, plan: ProviderReadPlan)
    requires InsideFile(s, plan) && Evolves(s, t)
    ensures InsideFile(t, plan)
    ensures Node(t, plan.promiseId, plan.relativePath).attr == Node(s, plan.promiseId, plan.relativePath).attr
  {
    assert PromiseKept(s.promises[plan.promiseId], t.promises[plan.promiseId]);
    assert NodeKept(s.promises[plan.promiseId].tree.nodes[plan.relativePath], t.promises[plan.promiseId].tree.nodes[plan.relativePath]);
  }

  /** Whatever happened since, an answer within the requested length is never refused by the cache. */
  lemma RecordNeverRefused(s: State, t: State, plan: ProviderReadPlan, bytes: seq<Byte>)
    requires Valid(t) && InsideFile(s, plan) && Evolves(s, t) && |bytes| <= plan.length
    ensures RecordTarget(t, plan.promiseId, plan.relativePath, plan.offset, bytes).Ok?
    ensures var key := RecordTarget(t, plan.promiseId, plan.relativePath, plan.offset, bytes).value;
            key.None? || key == Some(CacheKey(plan.promiseId, plan.relativePath))
  {
    InsideStays(s, t, plan);
    StoredNode(t, plan.promiseId, plan.relativePath);
  }

  /** A full answer always covers the reply slice. */
  lemma FullAnswerCovers(r: CoalescedPlan, plan: ProviderReadPlan, bytes: seq<Byte>)
    requires Contains(r, plan) && |bytes| == r.provider.length
    ensures r.responseOffset + plan.length <= |bytes|
    ensures ReplyBytes(bytes, r.responseOffset, r.responseLength) == Ok(bytes[r.responseOffset..r.responseOffset + plan.length])
  {
    assert bytes[0..|bytes|] == bytes;
  }

  /** A provider answers with a prefix of the true bytes it was asked for. */
  ghost predicate TrueAnswer(content: seq<Byte>, plan: ProviderReadPlan, bytes: seq<Byte>) {
    && plan.offset + plan.length <= |content| && |bytes| <= plan.length
    && bytes == content[plan.offset..plan.offset + |bytes|]
  }

  /** Slicing is invisible: a reply cut from a true answer is a prefix of the planned range, all of it if the answer was full. */
  lemma ReplyIsTrue(content: seq<Byte>, r: CoalescedPlan, plan: ProviderReadPlan, bytes: seq<Byte>)
    requires Contains(r, plan) && TrueAnswer(content, r.provider, bytes)
    ensures var reply := ReplyBytes(bytes, r.responseOffset, r.responseLength);
            && (reply.Ok? ==> TrueAnswer(content, plan, reply.value))
            && (|bytes| == r.provider.length ==> reply == Ok(content[plan.offset..plan.offset + plan.length]))
  {
    var reply := ReplyBytes(bytes, r.responseOffset, r.responseLength);
    if |bytes| == r.provider.length {
      FullAnswerCovers(r, plan, bytes);
    }
    if reply.Ok? {
      forall i | 0 <= i < |reply.value| ensures reply.value[i] == content[plan.offset + i] {
        assert reply.value[i] == bytes[r.responseOffset + i];
      }
      assert reply.value == content[plan.offset..plan.offset + |reply.value|];
    }
  }

  // ---- where a read is served from -----------------------------------------

  /** The bytes a read asks for, when it is not at the end of the file. */
  function CappedLength(length: U32, offset: U64, size: U64): nat
    requires offset < size
  {
    Min(length, size - offset)
  }

  /** Every byte of the range is in the cache, in the chunk where the current chunk size looks for it. */
  ghost predicate InCache(s: State, key: CacheKey, offset: U64, length: nat) {
    var c := s.cachePolicy.ChunkSize();
    && c > 0 && key in s.files && offset + length <= MAX_U64
    && forall o :: offset <= o < offset + length ==> View(s.files[key], c, o).Some?
  }

  ghost predicate CachedBytes(s: State, key: CacheKey, offset: U64, bytes: seq<Byte>) {
    InCache(s, key, offset, |bytes|) &&
    forall o :: offset <= o < offset + |bytes| ==> View(s.files[key], s.cachePolicy.ChunkSize(), o) == Some(bytes[o - offset])
  }

  /**
    The source of a read of a nonempty range of a file.  A marked file is read from its mark and a
    cached range from the cache, whatever the state of the promise; otherwise the provider is asked
    for the range if and only if it is live.
   */
  lemma ReadSource(s: State, pid: string, p: string, offset: U64, length: U32)
    requires Valid(s) && NodeAt(s, pid, p) && Node(s, pid, p).kind.File? && length > 0 && offset < Node(s, pid, p).attr.size
    ensures var node, provider, r := Node(s, pid, p), s.promises[pid].providerId, PlanRead(s, pid, p, offset, length);
            var capped := CappedLength(length, offset, node.attr.size);
            if node.materializedPath.Some? then r == Ok(FromFile(node.materializedPath.value, offset, capped))
            else if InCache(s, CacheKey(pid, p), offset, capped) then
              r.Ok? && r.value.FromCache? && |r.value.bytes| == capped && CachedBytes(s, CacheKey(pid, p), offset, r.value.bytes)
            else if HasProvider(s, provider) then
              r == Ok(Request(ProviderReadPlan(provider, pid, p, node.providerNodeId, offset, capped)))
            else r == Err(Status.ProviderGone)
  {
    StoredNode(s, pid, p);
    assert PromiseValid(s, pid);
    var c, key, capped := s.cachePolicy.ChunkSize(), CacheKey(pid, p), CappedLength(length, offset, Node(s, pid, p).attr.size);
    if c > 0 {
      HitIsInCache(s, key, offset, capped);
    }
  }

  lemma HitIsInCache(s: State, key: CacheKey, offset: U64, length: nat)
    requires s.cachePolicy.ChunkSize() > 0
    ensures var hit := Hit(s.files, key, s.cachePolicy.ChunkSize(), offset, length);
            && (hit.Some? <==> InCache(s, key, offset, length))
            && (hit.Some? ==> |hit.value| == length && CachedBytes(s, key, offset, hit.value))
  {
    var c := s.cachePolicy.ChunkSize();
    AnswerIsHit(s.files, key, c, offset, length, Hit(s.files, key, c, offset, length));
  }

  /** A read that asks for nothing or starts at the end of the file has nothing to read, and a directory is refused. */
  lemma ReadNothing(s: State, pid: string, p: string, offset: U64, length: U32)
    requires Valid(s) && NodeAt(s, pid, p)
    ensures var node, r := Node(s, pid, p), PlanRead(s, pid, p, offset, length);
            && (node.kind.Directory? ==> r == Err(InvalidArgument))
            && (node.kind.File? && (length == 0 || offset >= node.attr.size) ==> r == Ok(Eof))
  {
    StoredNode(s, pid, p);
  }

  /**
    A prefetch is planned if and only if caching is on, the completed read was not empty and ended
    before the end of the file, the file is not marked, its provider is live and the next chunk's
    worth is not already cached; it asks for exactly that range.
   */
  lemma PrefetchPlannedIff(s: State, pid: string, p: string, offset: U64, length: U32)
    requires Valid(s) && NodeAt(s, pid, p) && Node(s, pid, p).kind.File?
    ensures var node, provider, c, next := Node(s, pid, p), s.promises[pid].providerId, s.cachePolicy.ChunkSize(), offset + length;
            var r := PlanPrefetch(s, pid, p, offset, length);
            && (r.Ok? && r.value.Some? <==>
                && c > 0 && length > 0 && next < node.attr.size && node.materializedPath.None? && HasProvider(s, provider)
                && !InCache(s, CacheKey(pid, p), next, CappedLength(c, next, node.attr.size)))
            && (r.Ok? && r.value.Some? ==>
                 r.value.value == ProviderReadPlan(provider, pid, p, node.providerNodeId, next, CappedLength(c, next, node.attr.size)))
  {
    StoredNode(s, pid, p);
    assert PromiseValid(s, pid);
    var c, size, next := s.cachePolicy.ChunkSize(), Node(s, pid, p).attr.size, offset + length;
    if c > 0 && next < size {
      HitIsInCache(s, CacheKey(pid, p), next, CappedLength(c, next, size));
    }
  }

  /** After an answer has been recorded with caching on, every range inside it is served from the cache with those bytes. */
  lemma RecordedIsCached(s: State, t: State, pid: string, p: string, offset: U64, bytes: seq<Byte>, o: U64, length: nat)
    requires Valid(s) && NodeAt(s, pid, p) && Node(s, pid, p).kind.File? && offset + |bytes| <= Node(s, pid, p).attr.size
    requires s.cachePolicy.ChunkSize() > 0 && Next(s, Record(pid, p, offset, bytes), t)
    requires length > 0 && offset <= o && o + length <= offset + |bytes|
    ensures CachedBytes(t, CacheKey(pid, p), o, bytes[o - offset..o - offset + length])
  {
    StoredNode(s, pid, p);
    var key, c, slice := CacheKey(pid, p), s.cachePolicy.ChunkSize(), bytes[o - offset..o - offset + length];
    forall q | o <= q < o + length ensures key in t.files && View(t.files[key], c, q) == Some(slice[q - o]) {
      RecordedByte(s.files, t.files, key, offset, bytes, c, q);
    }
    assert key in t.files && View(t.files[key], c, o) == Some(slice[o - o]);
  }

  lemma RecordedByte(before: CacheFiles, after: CacheFiles, key: CacheKey, offset: U64, bytes: seq<Byte>, c: U32, o: U64)
    requires c > 0 && CacheInserted(before, after, key, offset, bytes, c) && offset <= o < offset + |bytes| <= MAX_U64
    ensures key in after && View(after[key], c, o) == Some(bytes[o - offset])
  {
    assert Filed(offset, bytes, c, ChunkBase(o, c), o) == Some(bytes[o - offset]);
  }

  /** What a reply is cut to: it fails exactly when a short answer misses the middle of a chunk. */
  lemma ReplyExact(r: CoalescedPlan, plan: ProviderReadPlan, bytes: seq<Byte>)
    requires Contains(r, plan) && |bytes| <= r.provider.length
    ensures var reply, from := ReplyBytes(bytes, r.responseOffset, r.responseLength), r.responseOffset;
            && (reply.Ok? <==> from == 0 || from + plan.length <= |bytes|)
            && (reply.Ok? ==> reply.value == bytes[from..Min(from + plan.length, |bytes|)])
  {
    assert bytes[0..|bytes|] == bytes;
  }

  /** The planned call gets its bytes from the cache or by a request that the encoder accepts. */
  ghost predicate Serves(s: State, requestId: nat, pid: string, path: string, offset: U64, length: U32) {
    && PlanRead(s, pid, path, offset, length).Ok?
    && match PlanRead(s, pid, path, offset, length).value
       case FromCache(_) => true
       case Request(plan) => PlanCoalesced(s, plan).Ok? && RequestAccepted(requestId, PlanCoalesced(s, plan).value.provider)
       case _ => false
  }

  function Uncached(s: State): State {
    s.(cachePolicy := NoCache)
  }

  /** Where the uncached runtime asks the provider, the caching one hits or asks for the same range. */
  lemma SamePlanOrHit(s: State, pid: string, path: string, offset: U64, length: U32, plan: ProviderReadPlan)
    requires Valid(s) && PlanRead(Uncached(s), pid, path, offset, length) == Ok(Request(plan))
    ensures InsideFile(s, plan) && plan.promiseId == pid && plan.offset == offset
    ensures PlanRead(s, pid, path, offset, length).Ok?
    ensures var r := PlanRead(s, pid, path, offset, length).value;
            if InCache(s, CacheKey(pid, plan.relativePath), offset, plan.length) then r.FromCache? else r == Request(plan)
  {
    FoundNode(s, pid, path);
    var node := GetNode(s, pid, path).value;
    var capped: nat := Min(length, node.attr.size - offset);
    UncachedPlan(s, pid, node.relativePath, offset, capped);
    if s.cachePolicy.ChunkSize() > 0 {
      HitIsInCache(s, CacheKey(pid, node.relativePath), offset, capped);
    }
    ProviderPlanInside(s, pid, node.relativePath, offset, capped);
  }

  lemma UncachedPlan(s: State, pid: string, path: string, offset: U64, length: U32)
    ensures PlanProviderRead(Uncached(s), pid, path, offset, length) == PlanProviderRead(s, pid, path, offset, length)
  {
  }

  /**
    A read that the uncached runtime serves by a provider request is served by the caching runtime if
    and only if it hits the cache or its range can be asked for through chunks; with chunks of at most
    256 KiB, if and only if it hits or its chunk ends within 64 bits.
   */
  lemma ReadThroughServes(s: State, requestId: nat, pid: string, path: string, offset: U64, length: U32, plan: ProviderReadPlan)
    requires Valid(s)
    requires PlanRead(Uncached(s), pid, path, offset, length) == Ok(Request(plan)) && RequestAccepted(requestId, plan)
    ensures InsideFile(s, plan)
    ensures var c, size := s.cachePolicy.ChunkSize(), Node(s, plan.promiseId, plan.relativePath).attr.size;
            var hit := InCache(s, CacheKey(pid, plan.relativePath), offset, plan.length);
            && (Serves(s, requestId, pid, path, offset, length) <==> hit || Coalescible(c, offset, plan.length, size))
            && (c <= MAX_PROVIDER_READ_LEN ==>
                 (Serves(s, requestId, pid, path, offset, length) <==> hit || c == 0 || ChunkBase(offset, c) + c <= MAX_U64))
  {
    SamePlanOrHit(s, pid, path, offset, length, plan);
    RequestAcceptedIff(s, requestId, plan);
    CoalescedRequestAccepted(s, requestId, plan);
    if s.cachePolicy.ChunkSize() <= MAX_PROVIDER_READ_LEN {
      SmallChunksCoalesce(s.cachePolicy.ChunkSize(), offset, plan.length, Node(s, plan.promiseId, plan.relativePath).attr.size);
    }
  }

  /**
    Once planning a provider read has failed because the provider is gone, no later plan in the
    same runtime asks the provider again.
   */
  lemma NoRequestAfterGone(a: State, b: State, pid: string, path: string, offset: U64, length: U32)
    requires Valid(a) && Valid(b) && Evolves(a, b)
    requires PlanProviderRead(a, pid, path, offset, length) == Err(Status.ProviderGone)
    ensures !(PlanRead(b, pid, path, offset, length).Ok? && PlanRead(b, pid, path, offset, length).value.Request?)
  {
    GoneStays(a, b, pid);
    if PlanRead(b, pid, path, offset, length).Ok? && PlanRead(b, pid, path, offset, length).value.Request? {
      RequestNeedsAvailable(b, pid, path, offset, length);
    }
  }

  lemma RequestNeedsAvailable(s: State, pid: string, path: string, offset: U64, length: U32)
    requires PlanRead(s, pid, path, offset, length).Ok? && PlanRead(s, pid, path, offset, length).value.Request?
    ensures pid in s.promises && s.promises[pid].state.Available?
  {
  }

  lemma GoneStays(a: State, b: State, pid: string)
    requires Valid(a) && Evolves(a, b) && pid in a.promises
    requires !a.promises[pid].state.Available? || !HasProvider(a, a.promises[pid].providerId)
    ensures pid in b.promises && b.promises[pid].state.Gone?
  {
    assert PromiseValid(a, pid);
    assert PromiseKept(a.promises[pid], b.promises[pid]);
  }
}
