/** The routing invariant is kept by every step of every thread, and what follows for whole runs. */
module RoutingSafety {
  import opened Base
  import opened Routing

  // ---- one row -------------------------------------------------------------

  /** Failures in hand are kept or delivered, delivered ones stay, requests never change. */
  ghost predicate SlotProgress(s: Slot, t: Slot) {
    && t.call.request == s.call.request
    && (s.channel == [ProviderLost] ==> t.channel == [ProviderLost])
    && (s.hand.Some? && s.hand.value.Failing? ==> t.hand == s.hand || t.channel == [ProviderLost])
  }

  lemma OwnedValid(p: Providers, conn: nat)
    requires ProvidersValid(p)
    ensures OwnedBy(Owned(p, conn), conn, p.owner)
  {
    if conn in p.registered {
      assert OwnedBy(p.registered[conn], conn, p.owner);
    }
  }

  lemma AfterValid(n: Net, id: nat, a: ReadAction, s: Slot)
    requires ProvidersValid(n.providers) && SlotValid(id, s, n.providers) && After(n, id, a, s).Some?
    ensures SlotValid(id, After(n, id, a, s).value, n.providers)
    ensures SlotProgress(s, After(n, id, a, s).value)
  {
    match a {
      case Respond(conn, response) => OwnedValid(n.providers, conn);
      case Send =>
        assert s.channel == [];
      case _ =>
    }
  }

  // ---- one row in the tables -----------------------------------------------

  lemma SetSlotAt(r: Reads, k: nat, s: Slot, id: nat)
    requires id == k || Known(r, id)
    ensures Known(SetSlot(r, k, s), id)
    ensures SlotOf(SetSlot(r, k, s), id) == if id == k then s else SlotOf(r, id)
  {
  }

  lemma SetSlotReads(r: Reads, p: Providers, k: nat, s: Slot)
    requires ReadsValid(r, p) && k in r.calls && SlotValid(k, s, p)
    ensures ReadsValid(SetSlot(r, k, s), p)
  {
    var q := SetSlot(r, k, s);
    assert ReadValid(r, p, k);
    forall id {:trigger ReadValid(q, p, id)} | id in q.calls ensures ReadValid(q, p, id) {
      assert ReadValid(r, p, id);
      SetSlotAt(r, k, s, id);
    }
  }

  lemma SetSlotOp(r: Reads, p: Providers, d: Disconnect, op: nat, k: nat, s: Slot)
    requires OpValid(r, p, d, op) && Known(r, k) && SlotProgress(SlotOf(r, k), s)
    ensures OpValid(SetSlot(r, k, s), p, d, op)
  {
    var q := SetSlot(r, k, s);
    if d.phase.Sending? || d.phase.Finished? {
      forall id {:trigger TakenBy(q, d, op, id)} | id in d.phase.taken ensures TakenBy(q, d, op, id) {
        assert TakenBy(r, d, op, id);
        SetSlotAt(r, k, s, id);
        SetSlotAt(r, k, s, k);
      }
    }
  }

  lemma SetSlotNet(n: Net, k: nat, s: Slot)
    requires NetValid(n) && Known(n.traffic, k) && SlotValid(k, s, n.providers) && SlotProgress(SlotOf(n.traffic, k), s)
    ensures NetValid(n.(traffic := SetSlot(n.traffic, k, s)))
  {
    var m := n.(traffic := SetSlot(n.traffic, k, s));
    SetSlotReads(n.traffic, n.providers, k, s);
    forall op {:trigger OpValid(m.traffic, m.providers, m.ops[op], op)} | op in m.ops ensures OpValid(m.traffic, m.providers, m.ops[op], op) {
      assert OpValid(n.traffic, n.providers, n.ops[op], op);
      SetSlotOp(n.traffic, n.providers, n.ops[op], op, k, s);
    }
  }

  lemma OnReadKeeps(n: Net, id: nat, a: ReadAction, m: Net)
    requires NetValid(n) && Step(n, OnRead(id, a), m)
    ensures NetValid(m)
  {
    assert ReadValid(n.traffic, n.providers, id);
    AfterValid(n, id, a, SlotOf(n.traffic, id));
    SetSlotNet(n, id, After(n, id, a, SlotOf(n.traffic, id)).value);
  }

  // ---- new reads -----------------------------------------------------------

  lemma AllocateReads(r: Reads, p: Providers, request: Request)
    requires ReadsValid(r, p)
    ensures ReadsValid(Allocate(r, request), p) && r.nextId !in r.calls
    ensures forall id :: id in r.calls ==> Known(r, id) && SlotOf(Allocate(r, request), id) == SlotOf(r, id)
  {
    var q, k := Allocate(r, request), r.nextId;
    assert k in r.calls ==> ReadValid(r, p, k);
    forall id {:trigger ReadValid(q, p, id)} | id in q.calls ensures ReadValid(q, p, id) {
      if id != k {
        assert ReadValid(r, p, id);
        assert SlotOf(q, id) == SlotOf(r, id);
      } else {
        assert SlotOf(q, k) == Slot(Call(request, Allocated), None, None, [], 0);
      }
    }
    forall id | id in r.calls ensures Known(r, id) && SlotOf(q, id) == SlotOf(r, id) {
      assert ReadValid(r, p, id);
    }
  }

  lemma NewCallKeeps(n: Net, request: Request, m: Net)
    requires NetValid(n) && Step(n, NewCall(request), m)
    ensures NetValid(m)
  {
    AllocateReads(n.traffic, n.providers, request);
    forall op {:trigger OpValid(m.traffic, m.providers, m.ops[op], op)} | op in m.ops ensures OpValid(m.traffic, m.providers, m.ops[op], op) {
      assert OpValid(n.traffic, n.providers, n.ops[op], op);
      AllocateOp(n.traffic, n.providers, n.ops[op], op, request);
    }
  }

  lemma AllocateOp(r: Reads, p: Providers, d: Disconnect, op: nat, request: Request)
    requires OpValid(r, p, d, op) && r.nextId !in r.calls
    ensures OpValid(Allocate(r, request), p, d, op)
  {
    var q := Allocate(r, request);
    if d.phase.Sending? || d.phase.Finished? {
      forall id {:trigger TakenBy(q, d, op, id)} | id in d.phase.taken ensures TakenBy(q, d, op, id) {
        assert TakenBy(r, d, op, id);
      }
    }
  }

  // ---- providers -----------------------------------------------------------

  /** Owners stay, dropped routes stay dropped, and only a provider without owner can become live. */
  ghost predicate OwnerGrows(a: Providers, b: Providers) {
    && (forall p :: p in a.owner ==> p in b.owner && b.owner[p] == a.owner[p])
    && (forall p :: p in a.owner && p in b.live ==> p in a.live) && a.dropped <= b.dropped
  }

  lemma SlotOwner(id: nat, s: Slot, a: Providers, b: Providers)
    requires OwnerGrows(a, b) && SlotValid(id, s, a)
    ensures SlotValid(id, s, b)
  {
  }

  lemma ProvidersMove(n: Net, m: Net)
    requires NetValid(n) && m.traffic == n.traffic && ProvidersValid(m.providers) && OwnerGrows(n.providers, m.providers)
    requires forall op {:trigger OpValid(m.traffic, m.providers, m.ops[op], op)} :: op in m.ops ==>
      (op in n.ops && m.ops[op] == n.ops[op]) || OpValid(m.traffic, m.providers, m.ops[op], op)
    ensures NetValid(m)
  {
    forall id {:trigger ReadValid(m.traffic, m.providers, id)} | id in m.traffic.calls ensures ReadValid(m.traffic, m.providers, id) {
      assert ReadValid(n.traffic, n.providers, id);
      SlotOwner(id, SlotOf(n.traffic, id), n.providers, m.providers);
    }
    forall op {:trigger OpValid(m.traffic, m.providers, m.ops[op], op)} | op in m.ops ensures OpValid(m.traffic, m.providers, m.ops[op], op) {
      if op in n.ops && m.ops[op] == n.ops[op] {
        assert OpValid(n.traffic, n.providers, n.ops[op], op);
      }
    }
  }

  lemma RouteRegisteredValid(p: Providers, conn: nat)
    requires ProvidersValid(p) && conn in p.registering
    ensures ProvidersValid(RouteRegistered(p, conn)) && OwnerGrows(p, RouteRegistered(p, conn))
  {
    var q, provider := RouteRegistered(p, conn), p.registering[conn];
    assert provider !in p.owner && provider < p.nextProvider;
    OwnedValid(p, conn);
    forall c {:trigger OwnedBy(q.registered[c], c, q.owner)} | c in q.registered ensures OwnedBy(q.registered[c], c, q.owner) {
      if c != conn {
        assert OwnedBy(p.registered[c], c, p.owner);
      }
    }
  }

  lemma WithdrawnValid(p: Providers, q: Providers, conn: nat, provider: nat)
    requires ProvidersValid(p)
    requires q == p.(live := p.live - {provider}, registered := p.registered[conn := Owned(p, conn) - {provider}])
    ensures ProvidersValid(q) && OwnerGrows(p, q)
  {
    OwnedValid(p, conn);
    forall c {:trigger OwnedBy(q.registered[c], c, q.owner)} | c in q.registered ensures OwnedBy(q.registered[c], c, q.owner) {
      if c != conn {
        assert OwnedBy(p.registered[c], c, p.owner);
      }
    }
  }

  lemma ProviderStepKeeps(n: Net, a: Action, m: Net)
    requires NetValid(n) && Step(n, a, m) && (a.RegisterProvider? || a.RegisterRoute? || a.AbandonRegistration? || a.Withdraw?)
    ensures NetValid(m)
  {
    if a.RegisterRoute? {
      RouteRegisteredValid(n.providers, a.conn);
    } else if a.Withdraw? {
      WithdrawnValid(n.providers, m.providers, a.conn, a.provider);
    }
    ProvidersMove(n, m);
  }

  // ---- disconnects ---------------------------------------------------------

  lemma OpStepKeeps(n: Net, a: Action, m: Net)
    requires NetValid(n) && Step(n, a, m) && (a.BeginDisconnect? || a.DropRoute? || a.Unregister? || a.EndDisconnect?)
    ensures NetValid(m)
  {
    if !a.BeginDisconnect? {
      assert OpValid(n.traffic, n.providers, n.ops[a.op], a.op);
    }
    if a.EndDisconnect? {
      var d, e := n.ops[a.op], m.ops[a.op];
      forall id {:trigger TakenBy(m.traffic, e, a.op, id)} | id in e.phase.taken ensures TakenBy(m.traffic, e, a.op, id) {
        assert TakenBy(n.traffic, d, a.op, id);
      }
    }
    assert OpValid(m.traffic, m.providers, m.ops[a.op], a.op);
    ProvidersMove(n, m);
  }

  lemma CallDisconnectsKeeps(n: Net, id: nat, op: nat, m: Net)
    requires NetValid(n) && Step(n, CallDisconnects(id, op), m)
    ensures NetValid(m)
  {
    var s := SlotOf(n.traffic, id);
    assert ReadValid(n.traffic, n.providers, id);
    SetSlotNet(n, id, Phased(s, Disconnecting(op)));
    var between := n.(traffic := SetSlot(n.traffic, id, Phased(s, Disconnecting(op))));
    assert OpValid(m.traffic, m.providers, m.ops[op], op);
    ProvidersMove(between, m);
  }

  lemma TakenSlot(r: Reads, provider: nat, op: nat, id: nat)
    requires Known(r, id)
    ensures var q, s := TakenFrom(r, provider, op), SlotOf(r, id);
            && Known(q, id)
            && SlotOf(q, id) == if s.pending.Some? && s.pending.value.provider == provider
                                then s.(pending := None, hand := Some(Failing(s.pending.value, op))) else s
  {
  }

  lemma TakenReads(r: Reads, p: Providers, provider: nat, op: nat)
    requires ReadsValid(r, p) && provider in p.dropped
    ensures ReadsValid(TakenFrom(r, provider, op), p)
  {
    var q := TakenFrom(r, provider, op);
    forall id {:trigger ReadValid(q, p, id)} | id in q.calls ensures ReadValid(q, p, id) {
      assert ReadValid(r, p, id);
      TakenSlot(r, provider, op, id);
    }
  }

  lemma TakenOp(r: Reads, p: Providers, d: Disconnect, o: nat, provider: nat, op: nat)
    requires ReadsValid(r, p) && OpValid(r, p, d, o)
    ensures OpValid(TakenFrom(r, provider, op), p, d, o)
  {
    var q := TakenFrom(r, provider, op);
    if d.phase.Sending? || d.phase.Finished? {
      forall id {:trigger TakenBy(q, d, o, id)} | id in d.phase.taken ensures TakenBy(q, d, o, id) {
        assert TakenBy(r, d, o, id) && ReadValid(r, p, id);
        TakenSlot(r, provider, op, id);
      }
    }
  }

  lemma FailPendingKeeps(n: Net, op: nat, m: Net)
    requires NetValid(n) && Step(n, FailPending(op), m)
    ensures NetValid(m)
  {
    var r, p, provider := n.traffic, n.providers, n.ops[op].provider;
    assert OpValid(r, p, n.ops[op], op);
    TakenReads(r, p, provider, op);
    forall id {:trigger TakenBy(m.traffic, m.ops[op], op, id)} | id in PendingOf(r.pending, provider) ensures TakenBy(m.traffic, m.ops[op], op, id) {
      assert ReadValid(r, p, id);
      TakenSlot(r, provider, op, id);
    }
    forall o {:trigger OpValid(m.traffic, m.providers, m.ops[o], o)} | o in m.ops ensures OpValid(m.traffic, m.providers, m.ops[o], o) {
      if o != op {
        assert OpValid(r, p, n.ops[o], o);
        TakenOp(r, p, n.ops[o], o, provider, op);
      }
    }
  }

  lemma StepKeeps(n: Net, a: Action, m: Net)
    requires NetValid(n) && Step(n, a, m)
    ensures NetValid(m)
  {
    match a
    case NewCall(request) => NewCallKeeps(n, request, m);
    case OnRead(id, action) => OnReadKeeps(n, id, action, m);
    case CallDisconnects(id, op) => CallDisconnectsKeeps(n, id, op, m);
    case RegisterProvider(_) => ProviderStepKeeps(n, a, m);
    case RegisterRoute(_) => ProviderStepKeeps(n, a, m);
    case AbandonRegistration(_) => ProviderStepKeeps(n, a, m);
    case Withdraw(_, _) => ProviderStepKeeps(n, a, m);
    case FailPending(op) => FailPendingKeeps(n, op, m);
    case _ => OpStepKeeps(n, a, m);
  }

  // ---- whole runs ----------------------------------------------------------

  ghost predicate NetRun(nets: seq<Net>, actions: seq<Action>) {
    && |nets| == |actions| + 1 && nets[0] == Start()
    && forall i {:trigger actions[i]} :: 0 <= i < |actions| ==> Step(nets[i], actions[i], nets[i + 1])
  }

  lemma {:induction false} NetRunValid(nets: seq<Net>, actions: seq<Action>, i: nat)
    requires NetRun(nets, actions) && i < |nets|
    ensures NetValid(nets[i])
  {
    if i > 0 {
      NetRunValid(nets, actions, i - 1);
      assert Step(nets[i - 1], actions[i - 1], nets[i]);
      StepKeeps(nets[i - 1], actions[i - 1], nets[i]);
    }
  }

  /**
    For every interleaving: no id enters the pending table twice, a channel carries at most one
    message, a returned call is no longer pending, a waiting call can still be answered, the
    duplicate and closed-channel errors never occur, a request is written to the connection that
    registered its provider, an answer returned to a caller matches its request and comes over that
    connection, and a read is lost only to a disconnect of its provider.
   */
  lemma RoutingSafe(nets: seq<Net>, actions: seq<Action>, i: nat, id: nat)
    requires NetRun(nets, actions) && i < |nets| && id in nets[i].traffic.calls
    ensures var r, p := nets[i].traffic, nets[i].providers;
            var request, phase := r.calls[id].request, r.calls[id].phase;
            && id in r.inserted && r.inserted[id] <= 1
            && id in r.channels && |r.channels[id]| <= 1
            && (phase.Returned? ==> id !in r.pending)
            && (phase.Waiting? ==> id in r.pending || id in r.inHand || |r.channels[id]| == 1)
            && phase != Returned(Duplicate) && phase != Returned(ChannelClosed)
            && (phase.RouteFound? || phase.Inserted? ==> request.provider in p.owner && p.owner[request.provider] == phase.conn)
            && (phase.Returned? && phase.outcome.Received? ==> GoodMessage(id, phase.outcome.message, request, p))
  {
    NetRunValid(nets, actions, i);
    assert ReadValid(nets[i].traffic, nets[i].providers, id);
  }

  /** A finished disconnect has delivered the failure of every read it took, and its provider is neither live nor routed. */
  lemma DisconnectDelivers(nets: seq<Net>, actions: seq<Action>, i: nat, op: nat)
    requires NetRun(nets, actions) && i < |nets| && op in nets[i].ops && nets[i].ops[op].phase.Finished?
    ensures forall id :: id in nets[i].ops[op].phase.taken ==>
      id in nets[i].traffic.channels && nets[i].traffic.channels[id] == [ProviderLost]
    ensures var provider := nets[i].ops[op].provider;
            provider !in nets[i].providers.live && provider !in nets[i].providers.routes
  {
    NetRunValid(nets, actions, i);
    var r, d := nets[i].traffic, nets[i].ops[op];
    assert OpValid(r, nets[i].providers, d, op);
    forall id | id in d.phase.taken ensures id in r.channels && r.channels[id] == [ProviderLost] {
      assert TakenBy(r, d, op, id);
    }
  }

  /** The disconnect has taken these reads from the pending table. */
  ghost predicate Took(n: Net, op: nat, provider: nat, taken: set<nat>) {
    op in n.ops && n.ops[op].provider == provider && (n.ops[op].phase == Sending(taken) || n.ops[op].phase == Finished(taken))
  }

  lemma TookStep(n: Net, a: Action, m: Net, op: nat, provider: nat, taken: set<nat>)
    requires Step(n, a, m) && Took(n, op, provider, taken)
    ensures Took(m, op, provider, taken)
  {
  }

  /** What a disconnect took never changes afterwards. */
  lemma {:induction false} TakenStays(nets: seq<Net>, actions: seq<Action>, i: nat, j: nat, op: nat, provider: nat, taken: set<nat>)
    requires NetRun(nets, actions) && i <= j < |nets| && Took(nets[i], op, provider, taken)
    ensures Took(nets[j], op, provider, taken)
    decreases j
  {
    if i < j {
      TakenStays(nets, actions, i, j - 1, op, provider, taken);
      assert Step(nets[j - 1], actions[j - 1], nets[j]);
      TookStep(nets[j - 1], actions[j - 1], nets[j], op, provider, taken);
    }
  }

  /**
    In every run: when disconnect `op` takes the pending lock at step `i` and is finished at step `j`,
    every read of its provider that was pending at that moment has received exactly the failure, no
    read of another provider was touched by that step, and the provider is neither live nor routed.
   */
  lemma DisconnectFailsAll(nets: seq<Net>, actions: seq<Action>, i: nat, j: nat, op: nat)
    requires NetRun(nets, actions) && i < |actions| && i < j < |nets| && actions[i] == FailPending(op)
    requires op in nets[j].ops && nets[j].ops[op].phase.Finished?
    ensures op in nets[i].ops
    ensures var provider, before, after := nets[i].ops[op].provider, nets[i].traffic, nets[i + 1].traffic;
            && (forall id :: id in before.pending && before.pending[id].provider == provider ==>
                  id in nets[j].traffic.channels && nets[j].traffic.channels[id] == [ProviderLost])
            && (forall id :: id in before.pending && before.pending[id].provider != provider ==>
                  id in after.pending && after.pending[id] == before.pending[id])
            && provider !in nets[j].providers.live && provider !in nets[j].providers.routes
  {
    assert Step(nets[i], actions[i], nets[i + 1]);
    var provider := nets[i].ops[op].provider;
    var taken := PendingOf(nets[i].traffic.pending, provider);
    assert Took(nets[i + 1], op, provider, taken);
    TakenStays(nets, actions, i + 1, j, op, provider, taken);
    DisconnectDelivers(nets, actions, j, op);
  }

  /**
    A pending read need not have a route.  Its provider is routed if and only if no disconnect has
    dropped the provider's route yet.
   */
  lemma PendingRoutedIff(nets: seq<Net>, actions: seq<Action>, i: nat, id: nat)
    requires NetRun(nets, actions) && i < |nets| && id in nets[i].traffic.pending
    ensures var provider := nets[i].traffic.pending[id].provider;
            provider in nets[i].providers.routes <==> provider !in nets[i].providers.dropped
  {
    NetRunValid(nets, actions, i);
    assert ReadValid(nets[i].traffic, nets[i].providers, id);
  }

  lemma DroppedStep(n: Net, a: Action, m: Net, provider: nat)
    requires Step(n, a, m) && provider in n.providers.dropped
    ensures provider in m.providers.dropped
  {
  }

  /** A dropped route never comes back. */
  lemma {:induction false} DroppedStays(nets: seq<Net>, actions: seq<Action>, i: nat, j: nat, provider: nat)
    requires NetRun(nets, actions) && i <= j < |nets| && provider in nets[i].providers.dropped
    ensures provider in nets[j].providers.dropped && provider !in nets[j].providers.routes
    decreases j
  {
    NetRunValid(nets, actions, j);
    if i < j {
      DroppedStays(nets, actions, i, j - 1, provider);
      assert Step(nets[j - 1], actions[j - 1], nets[j]);
      DroppedStep(nets[j - 1], actions[j - 1], nets[j], provider);
    }
  }

  ghost predicate UnroutedPending(n: Net) {
    exists id :: id in n.traffic.pending && n.traffic.pending[id].provider !in n.providers.routes
  }

  ghost predicate Reaches(n: Net) {
    exists nets: seq<Net>, actions: seq<Action> :: NetRun(nets, actions) && nets[|actions|] == n
  }

  lemma ReachesStep(n: Net, a: Action, m: Net)
    requires Reaches(n) && Step(n, a, m)
    ensures Reaches(m)
  {
    var nets: seq<Net>, actions: seq<Action> :| NetRun(nets, actions) && nets[|actions|] == n;
    var more, steps := nets + [m], actions + [a];
    assert forall i {:trigger steps[i]} :: 0 <= i < |steps| ==> Step(more[i], steps[i], more[i + 1]);
    assert NetRun(more, steps);
  }

  /** Connection 7 has registered provider 1. */
  ghost function OneProvider(): Providers {
    Providers(2, {1}, map[], map[7 := {1}], map[1 := 7], map[1 := 7], {})
  }

  lemma OneProviderReached()
    ensures Reaches(Net(Start().traffic, OneProvider(), map[]))
  {
    var registering := Start().(providers := Start().providers.(nextProvider := 2, live := {1}, registering := map[7 := 1]));
    assert NetRun([Start()], []) && [Start()][0] == Start();
    ReachesStep(Start(), RegisterProvider(7), registering);
    assert RouteRegistered(registering.providers, 7) == OneProvider();
    ReachesStep(registering, RegisterRoute(7), Net(Start().traffic, OneProvider(), map[]));
  }

  /** A read that loses the race with a disconnect ends up pending without a route. */
  lemma PendingWithoutRoute()
    ensures exists n :: Reaches(n) && UnroutedPending(n)
  {
    var request, p := Request(1, 1, true), OneProvider();
    var r1 := Allocate(Start().traffic, request);
    var r2 := SetSlot(r1, 1, Phased(SlotOf(r1, 1), RouteFound(7)));
    var r3 := SetSlot(r2, 1, Phased(SlotOf(r2, 1), Inserted(7)).(pending := Some(request), inserted := 1));
    var gone := p.(routes := map[], dropped := {1});
    var entered, dropped := map[0 := Disconnect(1, Entered)], map[0 := Disconnect(1, RouteDropped)];
    OneProviderReached();
    ReachesStep(Net(Start().traffic, p, map[]), NewCall(request), Net(r1, p, map[]));
    RouteLookedUp(Net(r1, p, map[]), Net(r2, p, map[]));
    ReachesStep(Net(r1, p, map[]), OnRead(1, LookUpRoute), Net(r2, p, map[]));
    ReachesStep(Net(r2, p, map[]), BeginDisconnect(0, 1), Net(r2, p, entered));
    assert p.routes - {1} == map[] && p.dropped + {1} == {1} && Advance(Net(r2, p, entered), 0, RouteDropped) == dropped;
    ReachesStep(Net(r2, p, entered), DropRoute(0), Net(r2, gone, dropped));
    PendingInserted(Net(r2, gone, dropped), Net(r3, gone, dropped));
    ReachesStep(Net(r2, gone, dropped), OnRead(1, InsertPending), Net(r3, gone, dropped));
    assert 1 in r3.pending && r3.pending[1].provider !in gone.routes;
    assert UnroutedPending(Net(r3, gone, dropped));
  }

  lemma RouteLookedUp(n: Net, m: Net)
    requires Known(n.traffic, 1) && n.traffic.calls[1] == Call(Request(1, 1, true), Allocated)
    requires 1 in n.providers.routes && n.providers.routes[1] == 7
    requires m == n.(traffic := SetSlot(n.traffic, 1, Phased(SlotOf(n.traffic, 1), RouteFound(7))))
    ensures Step(n, OnRead(1, LookUpRoute), m)
  {
    assert After(n, 1, LookUpRoute, SlotOf(n.traffic, 1)) == Some(Phased(SlotOf(n.traffic, 1), RouteFound(7)));
  }

  lemma PendingInserted(n: Net, m: Net)
    requires Known(n.traffic, 1) && n.traffic.calls[1] == Call(Request(1, 1, true), RouteFound(7))
    requires 1 !in n.traffic.pending && n.traffic.inserted[1] == 0
    requires m == n.(traffic := SetSlot(n.traffic, 1, Phased(SlotOf(n.traffic, 1), Inserted(7)).(pending := Some(Request(1, 1, true)), inserted := 1)))
    ensures Step(n, OnRead(1, InsertPending), m)
  {
  }
}
