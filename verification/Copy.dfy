/** The copy loop of one file, and where its chunks come from. */
module Copy {
  import opened Base
  import opened Cache
  import opened Lifecycle
  import opened Paths
  import opened Planner
  import opened ReadRun
  import opened ReadSafety
  import opened Runtime

  /** What asking for `length` bytes of a node at an offset yields. */
  type Reader = (string, nat, nat) -> Result<seq<Byte>>

  function ChunkLength(size: nat, offset: nat): nat
    requires offset < size
  {
    Min(size - offset, MAX_PROVIDER_READ_LEN)
  }

  /** The bytes that copying from `offset` on collects, or the first failure. */
  function CopyFrom(read: Reader, path: string, size: nat, offset: nat): Result<seq<Byte>>
    decreases size - offset
  {
    if offset >= size then Ok([])
    else
      var chunk := read(path, offset, ChunkLength(size, offset));
      if chunk.Err? then chunk
      else if chunk.value == [] then Err(Io)
      else Continue(chunk.value, CopyFrom(read, path, size, offset + |chunk.value|))
  }

  function Continue(done: seq<Byte>, rest: Result<seq<Byte>>): Result<seq<Byte>> {
    if rest.Err? then rest else Ok(done + rest.value)
  }

  lemma ContinueNothing(rest: Result<seq<Byte>>)
    ensures Continue([], rest) == rest
  {
    if rest.Ok? {
      assert [] + rest.value == rest.value;
    }
  }

  lemma ContinueTwice(done: seq<Byte>, chunk: seq<Byte>, rest: Result<seq<Byte>>)
    ensures Continue(done, Continue(chunk, rest)) == Continue(done + chunk, rest)
  {
    if rest.Ok? {
      assert done + (chunk + rest.value) == done + chunk + rest.value;
    }
  }

  /** No answer is longer than what was asked for. */
  ghost predicate Bounded(read: Reader) {
    forall path: string, offset: nat, length: nat :: read(path, offset, length).Ok? ==> |read(path, offset, length).value| <= length
  }

  /** The bytes so far are the start of what the whole copy will be, if it succeeds. */
  ghost predicate CopiedSoFar(read: Reader, path: string, size: nat, done: seq<Byte>) {
    |done| <= size && Continue(done, CopyFrom(read, path, size, |done|)) == CopyFrom(read, path, size, 0)
  }

  lemma CopiedStart(read: Reader, path: string, size: nat)
    ensures CopiedSoFar(read, path, size, [])
  {
    ContinueNothing(CopyFrom(read, path, size, 0));
  }

  lemma CopiedMore(read: Reader, path: string, size: nat, done: seq<Byte>)
    requires Bounded(read) && CopiedSoFar(read, path, size, done) && |done| < size
    ensures var chunk := read(path, |done|, ChunkLength(size, |done|));
            if chunk.Ok? && chunk.value != [] then CopiedSoFar(read, path, size, done + chunk.value)
            else CopyFrom(read, path, size, 0).Err?
  {
    var chunk := read(path, |done|, ChunkLength(size, |done|));
    if chunk.Ok? && chunk.value != [] {
      ContinueTwice(done, chunk.value, CopyFrom(read, path, size, |done| + |chunk.value|));
    }
  }

  lemma CopiedAll(read: Reader, path: string, size: nat, done: seq<Byte>)
    requires CopiedSoFar(read, path, size, done) && |done| == size
    ensures CopyFrom(read, path, size, 0) == Ok(done)
  {
    assert done + [] == done;
  }

  /** Every answer is a piece of the content. */
  ghost predicate TrueSource(read: Reader, path: string, content: seq<Byte>) {
    forall offset: nat, length: nat ::
      0 < length <= MAX_PROVIDER_READ_LEN && offset + length <= |content| && read(path, offset, length).Ok? ==>
      IsPiece(content, offset, length, read(path, offset, length).value)
  }

  ghost predicate IsPiece(content: seq<Byte>, offset: nat, length: nat, bytes: seq<Byte>) {
    |bytes| <= length && offset + |bytes| <= |content| && bytes == content[offset..offset + |bytes|]
  }

  lemma {:induction false} CopyLength(read: Reader, path: string, size: nat, offset: nat)
    requires Bounded(read) && offset <= size && CopyFrom(read, path, size, offset).Ok?
    ensures |CopyFrom(read, path, size, offset).value| == size - offset
    decreases size - offset
  {
    if offset < size {
      var chunk := read(path, offset, ChunkLength(size, offset));
      CopyLength(read, path, size, offset + |chunk.value|);
    }
  }

  /** For any pattern of short chunks, a completed copy is the content from `offset` on. */
  lemma {:induction false} CopyExact(read: Reader, path: string, content: seq<Byte>, offset: nat)
    requires TrueSource(read, path, content) && offset <= |content| && CopyFrom(read, path, |content|, offset).Ok?
    ensures CopyFrom(read, path, |content|, offset).value == content[offset..]
    decreases |content| - offset
  {
    if offset < |content| {
      var length := ChunkLength(|content|, offset);
      var chunk := read(path, offset, length);
      assert IsPiece(content, offset, length, chunk.value);
      CopyExact(read, path, content, offset + |chunk.value|);
      assert content[offset..] == content[offset..offset + |chunk.value|] + content[offset + |chunk.value|..];
    }
  }

  /** Every chunk that the copy may ask for comes, and is not empty. */
  ghost predicate NeverDry(read: Reader, path: string, size: nat) {
    forall offset: nat {:trigger ChunkLength(size, offset)} :: offset < size ==>
      var chunk := read(path, offset, ChunkLength(size, offset));
      chunk.Ok? && chunk.value != []
  }

  /** A copy whose every chunk comes and is not empty completes. */
  lemma {:induction false} CopyCompletes(read: Reader, path: string, size: nat, offset: nat)
    requires NeverDry(read, path, size)
    ensures CopyFrom(read, path, size, offset).Ok?
    decreases size - offset
  {
    if offset < size {
      var chunk := read(path, offset, ChunkLength(size, offset));
      CopyCompletes(read, path, size, offset + |chunk.value|);
    }
  }

  /** A copy fails only with the failure of one of its chunks, or for an empty one. */
  lemma {:induction false} CopyFailure(read: Reader, path: string, size: nat, offset: nat) returns (o: nat)
    requires CopyFrom(read, path, size, offset).Err?
    ensures offset <= o < size
    ensures var chunk := read(path, o, ChunkLength(size, o));
            CopyFrom(read, path, size, offset).status == if chunk.Ok? then Io else chunk.status
    ensures var chunk := read(path, o, ChunkLength(size, o)); chunk.Ok? ==> chunk.value == []
    decreases size - offset
  {
    var chunk := read(path, offset, ChunkLength(size, offset));
    o := offset;
    if chunk.Ok? && chunk.value != [] {
      o := CopyFailure(read, path, size, offset + |chunk.value|);
    }
  }

  // ---- where a chunk comes from --------------------------------------------

  /**
    The runtime when the provider read is planned, the runtime and local files when the fallback is
    planned, and what the provider answers.
   */
  datatype Moment = Moment(first: State, second: World, answer: ProviderReadPlan -> Result<seq<Byte>>)

  function LocalChunk(disk: map<string, seq<Byte>>, path: string, offset: nat, length: nat): Result<seq<Byte>> {
    if path !in disk then Err(NotFound)
    else if offset + length > |disk[path]| then Err(Io)
    else Ok(disk[path][offset..offset + length])
  }

  /** `read_materialize_chunk`. */
  ghost function MaterializeChunk(m: Moment, pid: string, path: string, offset: U64, length: U32): Result<seq<Byte>> {
    match PlanProviderRead(m.first, pid, path, offset, length)
    case Ok(plan) => m.answer(plan)
    case Err(status) =>
      if !status.ProviderGone? then Err(status)
      else
        match PlanRead(m.second.runtime, pid, path, offset, length)
        case Err(failure) => Err(failure)
        case Ok(Request(plan)) => m.answer(plan)
        case Ok(FromFile(copy, o, l)) => LocalChunk(m.second.disk, copy, o, l)
        case Ok(FromCache(bytes)) => Ok(bytes)
        case Ok(Eof) => Err(Io)
  }

  /** The request for a chunk is accepted by the encoder if and only if the provider node id holds no NUL. */
  lemma ChunkRequestAccepted(s: State, requestId: nat, pid: string, path: string, size: nat, offset: U64)
    requires Valid(s) && offset < size && PlanProviderRead(s, pid, path, offset, ChunkLength(size, offset)).Ok?
    ensures var plan := PlanProviderRead(s, pid, path, offset, ChunkLength(size, offset)).value;
            RequestAccepted(requestId, plan) <==> requestId != 0 && NUL !in plan.providerNodeId
  {
    ExactRequestAccepted(s, requestId, pid, path, offset, ChunkLength(size, offset));
  }

  /** The caches and local copies are true, the provider answers truly, and the runtime only evolves. */
  ghost predicate TrueMoment(m: Moment, content: Contents, pid: string, p: string) {
    && Valid(m.first) && RuntimeTrue(m.second, content) && Evolves(m.first, m.second.runtime)
    && NodeAt(m.first, pid, p) && Node(m.first, pid, p).kind.File?
    && forall plan: ProviderReadPlan :: plan.promiseId == pid && plan.relativePath == p && m.answer(plan).Ok? ==>
         TrueAnswer(content(CacheKey(pid, p)), plan, m.answer(plan).value)
  }

  lemma SameNodeLater(m: Moment, content: Contents, pid: string, p: string)
    requires TrueMoment(m, content, pid, p)
    ensures NodeAt(m.second.runtime, pid, p) && Node(m.second.runtime, pid, p).kind.File?
    ensures Node(m.second.runtime, pid, p).attr == Node(m.first, pid, p).attr
    ensures Node(m.first, pid, p).attr.size == |content(CacheKey(pid, p))|
  {
    assert PromiseKept(m.first.promises[pid], m.second.runtime.promises[pid]);
    assert NodeKept(Node(m.first, pid, p), Node(m.second.runtime, pid, p));
    SizeMatches(m.second.runtime, content, pid, p);
  }

  lemma SizeMatches(s: State, content: Contents, pid: string, p: string)
    requires SizesMatch(s, content) && NodeAt(s, pid, p) && Node(s, pid, p).kind.File?
    ensures Node(s, pid, p).attr.size == |content(CacheKey(pid, p))|
  {
  }

  lemma ProviderChunkIsTrue(m: Moment, content: Contents, pid: string, p: string, offset: U64, length: U32)
    requires TrueMoment(m, content, pid, p) && PlanProviderRead(m.first, pid, p, offset, length).Ok?
    ensures var answer := m.answer(PlanProviderRead(m.first, pid, p, offset, length).value);
            answer.Ok? ==> IsPiece(content(CacheKey(pid, p)), offset, length, answer.value)
  {
    StoredNode(m.first, pid, p);
    ProviderPlanInside(m.first, pid, p, offset, length);
    var plan := PlanProviderRead(m.first, pid, p, offset, length).value;
    assert plan.promiseId == pid && plan.relativePath == p && plan.length <= length;
  }

  /** The fallback never asks the provider again, and whichever source is used the chunk is a piece of the content. */
  lemma ChunkIsTrue(m: Moment, content: Contents, pid: string, p: string, offset: U64, length: U32)
    requires TrueMoment(m, content, pid, p) && length > 0 && offset + length <= |content(CacheKey(pid, p))|
    ensures var chunk := MaterializeChunk(m, pid, p, offset, length);
            chunk.Ok? ==> IsPiece(content(CacheKey(pid, p)), offset, length, chunk.value)
    ensures PlanProviderRead(m.first, pid, p, offset, length) == Err(Status.ProviderGone) ==>
      var plan := PlanRead(m.second.runtime, pid, p, offset, length);
      plan.Ok? ==> plan.value.FromFile? || plan.value.FromCache?
  {
    var plan := PlanProviderRead(m.first, pid, p, offset, length);
    if plan.Ok? {
      ProviderChunkIsTrue(m, content, pid, p, offset, length);
    } else if plan == Err(Status.ProviderGone) {
      SameNodeLater(m, content, pid, p);
      NoRequestAfterGone(m.first, m.second.runtime, pid, p, offset, length);
      FallbackIsTrue(m.second, content, pid, p, offset, length);
    }
  }

  lemma FallbackIsTrue(w: World, content: Contents, pid: string, p: string, offset: U64, length: U32)
    requires RuntimeTrue(w, content) && NodeAt(w.runtime, pid, p) && Node(w.runtime, pid, p).kind.File?
    requires length > 0 && offset + length <= |content(CacheKey(pid, p))|
    ensures var plan, bytes := PlanRead(w.runtime, pid, p, offset, length), content(CacheKey(pid, p));
            plan.Ok? ==>
              match plan.value
              case Request(_) => true
              case FromFile(copy, o, l) => LocalChunk(w.disk, copy, o, l) == Ok(bytes[offset..offset + length])
              case FromCache(cached) => cached == bytes[offset..offset + length]
              case Eof => false
  {
    StoredNode(w.runtime, pid, p);
    assert CopyHeld(w, content, pid, p);
    var c, key := w.runtime.cachePolicy.ChunkSize(), CacheKey(pid, p);
    if c > 0 && Hit(w.runtime.files, key, c, offset, length).Some? {
      HitIsTrue(w.runtime.files, content, key, c, offset, length);
    }
  }

  /**
    Where a chunk comes from: a live provider's answer to exactly this range, else the marked copy or
    the cache, which hold the content, and without any of these the provider is reported gone.
   */
  lemma ChunkSource(m: Moment, content: Contents, pid: string, p: string, offset: U64, length: U32)
    requires TrueMoment(m, content, pid, p) && length > 0 && offset + length <= |content(CacheKey(pid, p))|
    ensures var bytes, chunk, later := content(CacheKey(pid, p)), MaterializeChunk(m, pid, p, offset, length), m.second.runtime;
            var provider, key := m.first.promises[pid].providerId, CacheKey(pid, p);
            if HasProvider(m.first, provider) then
              chunk == m.answer(ProviderReadPlan(provider, pid, p, Node(m.first, pid, p).providerNodeId, offset, length))
            else if NodeAt(later, pid, p) && (Node(later, pid, p).materializedPath.Some? || InCache(later, key, offset, length)) then
              chunk == Ok(bytes[offset..offset + length])
            else chunk == Err(Status.ProviderGone)
  {
    SameNodeLater(m, content, pid, p);
    ChunkPlan(m.first, pid, p, offset, length);
    if !HasProvider(m.first, m.first.promises[pid].providerId) {
      NoRequestAfterGone(m.first, m.second.runtime, pid, p, offset, length);
      FallbackIsTrue(m.second, content, pid, p, offset, length);
      ReadSource(m.second.runtime, pid, p, offset, length);
    }
  }

  lemma ChunkPlan(s: State, pid: string, p: string, offset: U64, length: U32)
    requires Valid(s) && NodeAt(s, pid, p) && Node(s, pid, p).kind.File? && length > 0 && offset + length <= Node(s, pid, p).attr.size
    ensures var provider := s.promises[pid].providerId;
            PlanProviderRead(s, pid, p, offset, length) ==
              if HasProvider(s, provider) then Ok(ProviderReadPlan(provider, pid, p, Node(s, pid, p).providerNodeId, offset, length))
              else Err(Status.ProviderGone)
  {
    StoredNode(s, pid, p);
    assert PromiseValid(s, pid);
  }

  /** A copy whose chunks come from the provider, the cache or an earlier copy, in any mix, is exact. */
  lemma CopyAcrossSources(read: Reader, at: nat -> Moment, content: Contents, pid: string, p: string)
    requires forall offset: nat {:trigger at(offset)} :: TrueMoment(at(offset), content, pid, p)
    requires forall offset: U64, length: U32 {:trigger read(p, offset, length)} ::
      read(p, offset, length) == MaterializeChunk(at(offset), pid, p, offset, length)
    requires CopyFrom(read, p, |content(CacheKey(pid, p))|, 0).Ok?
    ensures CopyFrom(read, p, |content(CacheKey(pid, p))|, 0) == Ok(content(CacheKey(pid, p)))
  {
    var bytes := content(CacheKey(pid, p));
    assert TrueMoment(at(0), content, pid, p);
    SameNodeLater(at(0), content, pid, p);
    forall offset: nat, length: nat | 0 < length <= MAX_PROVIDER_READ_LEN && offset + length <= |bytes| && read(p, offset, length).Ok?
      ensures IsPiece(bytes, offset, length, read(p, offset, length).value)
    {
      ChunkIsTrue(at(offset), content, pid, p, offset, length);
    }
    CopyExact(read, p, bytes, 0);
  }
}
