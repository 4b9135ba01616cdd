/**
  Routing provider traffic: a route table, a pending-read table and the provider states, each
  behind its own lock, and one reply channel per read.  Every step below holds one lock or none.
 */
module Routing {
  import opened Base
  import opened Planner

  /** A read request; `wellFormed` is the verdict of the request encoder. */
  datatype Request = Request(provider: nat, length: U32, wellFormed: bool)

  datatype Response = Response(id: nat, succeeded: bool, bytes: seq<Byte>)

  predicate WellFormed(r: Response) {
    r.id != 0 && |r.bytes| <= MAX_PROVIDER_READ_LEN && (r.succeeded || r.bytes == [])
  }

  /** `validate_provider_read_response_for_request`. */
  predicate Matches(id: nat, request: Request, r: Response) {
    r.id == id && (r.succeeded ==> |r.bytes| <= request.length) && WellFormed(r)
  }

  /** What travels through a reply channel: an answer and the connection it came from, or an error. */
  datatype Message = Answer(conn: nat, response: Response) | Refused | ProviderLost

  datatype Outcome = Received(message: Message) | Rejected | NotRouted | Duplicate | WriteFailed | TimedOut | ChannelClosed

  datatype Phase =
    | Allocated
    | RouteFound(conn: nat)
    | Inserted(conn: nat)
    | Waiting
    | WriteLost
    | Unpended
    | Disconnecting(op: nat)
    | Expired
    | Returned(outcome: Outcome)

  datatype Call = Call(request: Request, phase: Phase)

  /** A pending entry that one thread has taken out of the table and will answer. */
  datatype Hand = Completing(request: Request, conn: nat, owned: set<nat>, response: Response) | Failing(request: Request, op: nat)

  /** `disconnect_provider_id`: drop the route, unregister, fail the pending reads, then send. */
  datatype DisconnectPhase = Entered | RouteDropped | Unregistered | Sending(taken: set<nat>) | Finished(taken: set<nat>)

  datatype Disconnect = Disconnect(provider: nat, phase: DisconnectPhase)

  /** Everything about reads, by request id. */
  datatype Reads = Reads(
    nextId: nat,
    calls: map<nat, Call>,
    pending: map<nat, Request>,
    inHand: map<nat, Hand>,
    channels: map<nat, seq<Message>>,  // everything ever sent to a call
    inserted: map<nat, nat>)           // how often an id was put into the pending table

  /** Everything about providers. */
  datatype Providers = Providers(
    nextProvider: nat,
    live: set<nat>,                    // providers that the runtime holds as live
    registering: map<nat, nat>,        // connection -> provider registered but not yet routed
    registered: map<nat, set<nat>>,    // connection -> the providers it may answer for
    owner: map<nat, nat>,              // provider -> connection that registered its route
    routes: map<nat, nat>,             // provider -> connection
    dropped: set<nat>)                 // providers whose route has been removed

  datatype Net = Net(traffic: Reads, providers: Providers, ops: map<nat, Disconnect>)

  function Start(): Net {
    Net(Reads(1, map[], map[], map[], map[], map[]), Providers(1, {}, map[], map[], map[], map[], {}), map[])
  }

  // ---- the pending table ---------------------------------------------------

  /** The ids of a provider's pending reads. */
  function PendingOf(pending: map<nat, Request>, provider: nat): set<nat> {
    set id | id in pending && pending[id].provider == provider
  }

  function Without(pending: map<nat, Request>, provider: nat): map<nat, Request> {
    map id | id in pending && pending[id].provider != provider :: pending[id]
  }

  class PendingReads {
    var entries: map<nat, Request>

    constructor ()
      ensures entries == map[]
    {
      entries := map[];
    }

    /** Returns whether the id was already there; the new entry replaces it either way. */
    method Insert(id: nat, request: Request) returns (duplicate: bool)
      modifies this
      ensures entries == old(entries)[id := request] && duplicate == (id in old(entries))
    {
      duplicate := id in entries;
      entries := entries[id := request];
    }

    method Remove(id: nat) returns (entry: Option<Request>)
      modifies this
      ensures entries == old(entries) - {id}
      ensures entry == if id in old(entries) then Some(old(entries)[id]) else None
    {
      entry := if id in entries then Some(entries[id]) else None;
      entries := entries - {id};
    }

    /** Collects the ids of the provider first, then removes them one by one. */
    method TakeProvider(provider: nat) returns (taken: map<nat, Request>)
      modifies this
      ensures entries == Without(old(entries), provider)
      ensures taken.Keys == PendingOf(old(entries), provider)
      ensures forall id :: id in taken ==> taken[id] == old(entries)[id]
    {
      var ids := PendingOf(entries, provider);
      taken := map[];
      while ids != {}
        invariant ids <= PendingOf(old(entries), provider)
        invariant taken.Keys == PendingOf(old(entries), provider) - ids
        invariant forall id :: id in taken ==> taken[id] == old(entries)[id]
        invariant entries.Keys == old(entries).Keys - taken.Keys
        invariant forall id :: id in entries ==> entries[id] == old(entries)[id]
        decreases ids
      {
        var id :| id in ids;
        var entry := Remove(id);
        if entry.Some? {
          taken := taken[id := entry.value];
        }
        ids := ids - {id};
      }
    }
  }

  // ---- the row of one read -------------------------------------------------

  /** Everything the tables hold about one id. */
  datatype Slot = Slot(call: Call, pending: Option<Request>, hand: Option<Hand>, channel: seq<Message>, inserted: nat)

  ghost predicate Known(r: Reads, id: nat) {
    id in r.calls && id in r.channels && id in r.inserted
  }

  function SlotOf(r: Reads, id: nat): Slot
    requires id in r.calls && id in r.channels && id in r.inserted
  {
    Slot(r.calls[id],
         if id in r.pending then Some(r.pending[id]) else None,
         if id in r.inHand then Some(r.inHand[id]) else None,
         r.channels[id], r.inserted[id])
  }

  function SetSlot(r: Reads, id: nat, s: Slot): Reads {
    Reads(r.nextId, r.calls[id := s.call],
          if s.pending.Some? then r.pending[id := s.pending.value] else r.pending - {id},
          if s.hand.Some? then r.inHand[id := s.hand.value] else r.inHand - {id},
          r.channels[id := s.channel], r.inserted[id := s.inserted])
  }

  function Phased(s: Slot, phase: Phase): Slot {
    s.(call := s.call.(phase := phase))
  }

  function MessageOf(id: nat, hand: Hand): Message {
    match hand
    case Failing(_, _) => ProviderLost
    case Completing(request, conn, owned, response) =>
      if request.provider in owned && Matches(id, request, response) then Answer(conn, response) else Refused
  }

  // ---- steps ---------------------------------------------------------------

  /** Steps that a thread takes on one read. */
  datatype ReadAction =
    | LookUpRoute
    | InsertPending
    | WriteFrame(succeeded: bool)
    | RemovePending
    | FinishWriteError
    | Receive
    | Expire
    | Respond(conn: nat, response: Response)
    | Send

  function Owned(p: Providers, conn: nat): set<nat> {
    if conn in p.registered then p.registered[conn] else {}
  }

  ghost predicate OpFinished(n: Net, op: nat) {
    op in n.ops && n.ops[op].phase.Finished?
  }

  /** The row of read `id` after the action, or None when the action cannot happen. */
  ghost function After(n: Net, id: nat, a: ReadAction, s: Slot): Option<Slot> {
    var request, phase := s.call.request, s.call.phase;
    match a
    case LookUpRoute =>
      if !phase.Allocated? then None
      else if !request.wellFormed then Some(Phased(s, Returned(Rejected)))
      else if request.provider in n.providers.routes then Some(Phased(s, RouteFound(n.providers.routes[request.provider])))
      else Some(Phased(s, Returned(NotRouted)))
    case InsertPending =>
      if !phase.RouteFound? then None
      else
        var outcome := if s.pending.Some? then Returned(Duplicate) else Inserted(phase.conn);
        Some(Phased(s, outcome).(pending := Some(request), inserted := s.inserted + 1))
    case WriteFrame(succeeded) =>
      if !phase.Inserted? then None else Some(Phased(s, if succeeded then Waiting else WriteLost))
    case RemovePending =>
      if phase.WriteLost? then Some(Phased(s, Unpended).(pending := None))
      else if phase.Expired? then Some(Phased(s, Returned(TimedOut)).(pending := None))
      else None
    case FinishWriteError =>
      if phase.Disconnecting? && OpFinished(n, phase.op) then Some(Phased(s, Returned(WriteFailed))) else None
    case Receive =>
      if !phase.Waiting? then None
      else if s.channel != [] then Some(Phased(s, Returned(Received(s.channel[0]))))
      else if s.pending.None? && s.hand.None? then Some(Phased(s, Returned(ChannelClosed)))
      else None
    case Expire =>
      if phase.Waiting? && s.channel == [] then Some(Phased(s, Expired)) else None
    case Respond(conn, response) =>
      if WellFormed(response) && response.id == id && s.pending.Some?
      then Some(s.(pending := None, hand := Some(Completing(s.pending.value, conn, Owned(n.providers, conn), response))))
      else None
    case Send =>
      if s.hand.None? then None
      else Some(s.(hand := None, channel := s.channel + [MessageOf(id, s.hand.value)]))
  }

  datatype Action =
    | NewCall(request: Request)
    | OnRead(id: nat, action: ReadAction)
    | CallDisconnects(id: nat, op: nat)
    | RegisterProvider(conn: nat)
    | RegisterRoute(conn: nat)
    | AbandonRegistration(conn: nat)
    | Withdraw(conn: nat, provider: nat)
    | BeginDisconnect(op: nat, provider: nat)
    | DropRoute(op: nat)
    | Unregister(op: nat)
    | FailPending(op: nat)
    | EndDisconnect(op: nat)

  function Allocate(r: Reads, request: Request): Reads {
    r.(nextId := r.nextId + 1, calls := r.calls[r.nextId := Call(request, Allocated)],
       channels := r.channels[r.nextId := []], inserted := r.inserted[r.nextId := 0])
  }

  function RouteRegistered(p: Providers, conn: nat): Providers
    requires conn in p.registering
  {
    var provider := p.registering[conn];
    p.(registering := p.registering - {conn}, routes := p.routes[provider := conn],
       owner := p.owner[provider := conn], registered := p.registered[conn := Owned(p, conn) + {provider}])
  }

  function TakenFrom(r: Reads, provider: nat, op: nat): Reads {
    r.(pending := Without(r.pending, provider),
       inHand := r.inHand + (map id | id in PendingOf(r.pending, provider) :: Failing(r.pending[id], op)))
  }

  function Advance(n: Net, op: nat, phase: DisconnectPhase): map<nat, Disconnect>
    requires op in n.ops
  {
    n.ops[op := n.ops[op].(phase := phase)]
  }

  ghost predicate Step(n: Net, a: Action, m: Net) {
    match a
    case NewCall(request) => m == n.(traffic := Allocate(n.traffic, request))
    case OnRead(id, action) =>
      && Known(n.traffic, id) && After(n, id, action, SlotOf(n.traffic, id)).Some?
      && m == n.(traffic := SetSlot(n.traffic, id, After(n, id, action, SlotOf(n.traffic, id)).value))
    case CallDisconnects(id, op) =>
      && Known(n.traffic, id) && n.traffic.calls[id].phase.Unpended? && op !in n.ops
      && m == n.(traffic := SetSlot(n.traffic, id, Phased(SlotOf(n.traffic, id), Disconnecting(op))),
                 ops := n.ops[op := Disconnect(n.traffic.calls[id].request.provider, Entered)])
    case RegisterProvider(conn) =>
      && conn !in n.providers.registering
      && var p := n.providers;
         m == n.(providers := p.(nextProvider := p.nextProvider + 1, live := p.live + {p.nextProvider},
                                 registering := p.registering[conn := p.nextProvider]))
    case RegisterRoute(conn) =>
      conn in n.providers.registering && m == n.(providers := RouteRegistered(n.providers, conn))
    case AbandonRegistration(conn) =>
      && conn in n.providers.registering
      && m == n.(providers := n.providers.(registering := n.providers.registering - {conn}))
    case Withdraw(conn, provider) =>
      && provider in n.providers.owner
      && var p := n.providers;
         m == n.(providers := p.(live := p.live - {provider}, registered := p.registered[conn := Owned(p, conn) - {provider}]))
    case BeginDisconnect(op, provider) =>
      op !in n.ops && provider in n.providers.owner && m == n.(ops := n.ops[op := Disconnect(provider, Entered)])
    case DropRoute(op) =>
      && op in n.ops && n.ops[op].phase.Entered?
      && var p := n.providers;
         m == n.(providers := p.(routes := p.routes - {n.ops[op].provider}, dropped := p.dropped + {n.ops[op].provider}),
                 ops := Advance(n, op, RouteDropped))
    case Unregister(op) =>
      && op in n.ops && n.ops[op].phase.RouteDropped?
      && m == n.(providers := n.providers.(live := n.providers.live - {n.ops[op].provider}), ops := Advance(n, op, Unregistered))
    case FailPending(op) =>
      && op in n.ops && n.ops[op].phase.Unregistered?
      && m == n.(traffic := TakenFrom(n.traffic, n.ops[op].provider, op),
                 ops := Advance(n, op, Sending(PendingOf(n.traffic.pending, n.ops[op].provider))))
    case EndDisconnect(op) =>
      && op in n.ops && n.ops[op].phase.Sending?
      && (forall id :: id in n.ops[op].phase.taken ==> id !in n.traffic.inHand)
      && m == n.(ops := Advance(n, op, Finished(n.ops[op].phase.taken)))
  }

  // ---- the invariant -------------------------------------------------------

  /** How many places hold the right to answer, or the answer. */
  function Places(s: Slot): nat {
    (if s.pending.Some? then 1 else 0) + (if s.hand.Some? then 1 else 0) + |s.channel|
  }

  predicate BeforeInsert(phase: Phase) {
    phase.Allocated? || phase.RouteFound? || phase == Returned(Rejected) || phase == Returned(NotRouted)
  }

  predicate NeverRouted(phase: Phase) {
    phase.Allocated? || phase == Returned(Rejected) || phase == Returned(NotRouted)
  }

  /** The call still relies on being answered. */
  predicate Expecting(phase: Phase) {
    phase.Inserted? || phase.Waiting? || phase.WriteLost? || phase.Expired?
  }

  ghost predicate OwnedBy(owned: set<nat>, conn: nat, owner: map<nat, nat>) {
    forall p :: p in owned ==> p in owner && owner[p] == conn
  }

  /**
    An answer matches its request and came over the connection that registered the provider; a read
    is only failed as lost when the provider's route has been dropped.
   */
  ghost predicate GoodMessage(id: nat, message: Message, request: Request, p: Providers) {
    match message
    case Answer(conn, response) => Matches(id, request, response) && request.provider in p.owner && p.owner[request.provider] == conn
    case ProviderLost => request.provider in p.dropped
    case Refused => true
  }

  ghost predicate SlotValid(id: nat, s: Slot, p: Providers) {
    var phase := s.call.phase;
    && Places(s) <= 1
    && s.inserted == (if BeforeInsert(phase) then 0 else 1)
    && (BeforeInsert(phase) ==> Places(s) == 0)
    && (Expecting(phase) ==> Places(s) == 1)
    && (phase.Returned? || phase.Unpended? || phase.Disconnecting? ==> s.pending.None?)
    && (s.pending.Some? ==> s.pending.value == s.call.request)
    && (s.hand.Some? ==> s.hand.value.request == s.call.request)
    && (s.hand.Some? && s.hand.value.Completing? ==> OwnedBy(s.hand.value.owned, s.hand.value.conn, p.owner))
    && (s.hand.Some? && s.hand.value.Failing? ==> s.call.request.provider in p.dropped)
    && (!NeverRouted(phase) ==> s.call.request.provider in p.owner)
    && (phase.RouteFound? || phase.Inserted? ==> p.owner[s.call.request.provider] == phase.conn)
    && (s.channel != [] ==> GoodMessage(id, s.channel[0], s.call.request, p))
    && phase != Returned(Duplicate) && phase != Returned(ChannelClosed)
    && (phase.Returned? && phase.outcome.Received? ==> s.channel == [phase.outcome.message])
  }

  ghost predicate ReadValid(r: Reads, p: Providers, id: nat) {
    Known(r, id) && id < r.nextId && SlotValid(id, SlotOf(r, id), p)
  }

  ghost predicate ReadsValid(r: Reads, p: Providers) {
    && 1 <= r.nextId
    && (forall id {:trigger ReadValid(r, p, id)} :: id in r.calls ==> ReadValid(r, p, id))
    && r.pending.Keys <= r.calls.Keys && r.inHand.Keys <= r.calls.Keys
  }

  ghost predicate ProvidersValid(p: Providers) {
    && (forall conn :: conn in p.registering ==> p.registering[conn] < p.nextProvider && p.registering[conn] !in p.owner)
    && (forall c, d :: c in p.registering && d in p.registering && p.registering[c] == p.registering[d] ==> c == d)
    && (forall q :: q in p.owner ==> q < p.nextProvider)
    && (forall q :: q in p.live ==> q < p.nextProvider)
    && (forall conn {:trigger OwnedBy(p.registered[conn], conn, p.owner)} :: conn in p.registered ==> OwnedBy(p.registered[conn], conn, p.owner))
    && p.dropped <= p.owner.Keys && p.routes.Keys == p.owner.Keys - p.dropped
    && (forall q :: q in p.routes ==> p.routes[q] == p.owner[q])
  }

  /** The failure of a read taken by disconnect `op` is still in hand or has been delivered. */
  ghost predicate TakenBy(r: Reads, d: Disconnect, op: nat, id: nat) {
    && Known(r, id) && r.calls[id].request.provider == d.provider
    && ((d.phase.Sending? && id in r.inHand && r.inHand[id] == Failing(r.calls[id].request, op)) || r.channels[id] == [ProviderLost])
  }

  ghost predicate OpValid(r: Reads, p: Providers, d: Disconnect, op: nat) {
    && d.provider in p.owner
    && (!d.phase.Entered? ==> d.provider in p.dropped)
    && (!d.phase.Entered? && !d.phase.RouteDropped? ==> d.provider !in p.live)
    && (d.phase.Sending? || d.phase.Finished? ==> forall id {:trigger TakenBy(r, d, op, id)} :: id in d.phase.taken ==> TakenBy(r, d, op, id))
  }

  ghost predicate NetValid(n: Net) {
    && ReadsValid(n.traffic, n.providers) && ProvidersValid(n.providers)
    && (forall op {:trigger OpValid(n.traffic, n.providers, n.ops[op], op)} :: op in n.ops ==> OpValid(n.traffic, n.providers, n.ops[op], op))
  }
}
