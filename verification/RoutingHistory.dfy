/** What the state of a read tells about the run so far, and the run about the state. */
module RoutingHistory {
  import opened Base
  import opened Routing
  import opened RoutingSafety

  // ---- the row of one read over a step -------------------------------------

  ghost function Moved(n: Net, a: Action, id: nat, s: Slot): Slot {
    match a
    case OnRead(k, action) => if k == id && After(n, id, action, s).Some? then After(n, id, action, s).value else s
    case CallDisconnects(k, op) => if k == id then Phased(s, Disconnecting(op)) else s
    case FailPending(op) =>
      if op in n.ops && s.pending.Some? && s.pending.value.provider == n.ops[op].provider
      then s.(pending := None, hand := Some(Failing(s.pending.value, op))) else s
    case _ => s
  }

  lemma SlotMoves(n: Net, a: Action, m: Net, id: nat)
    requires NetValid(n) && Step(n, a, m) && id in n.traffic.calls
    ensures Known(n.traffic, id) && Known(m.traffic, id) && SlotValid(id, SlotOf(n.traffic, id), n.providers)
    ensures SlotOf(m.traffic, id) == Moved(n, a, id, SlotOf(n.traffic, id))
  {
    assert ReadValid(n.traffic, n.providers, id);
    match a
    case NewCall(request) => AllocateReads(n.traffic, n.providers, request);
    case OnRead(k, action) => SetSlotAt(n.traffic, k, After(n, k, action, SlotOf(n.traffic, k)).value, id);
    case CallDisconnects(k, op) => SetSlotAt(n.traffic, k, Phased(SlotOf(n.traffic, k), Disconnecting(op)), id);
    case FailPending(op) => TakenSlot(n.traffic, n.ops[op].provider, op, id);
    case _ =>
  }

  /** The step of a run, on a read it knows. */
  lemma RunMoves(nets: seq<Net>, actions: seq<Action>, i: nat, id: nat)
    requires NetRun(nets, actions) && i < |actions| && id in nets[i].traffic.calls
    ensures NetValid(nets[i]) && Step(nets[i], actions[i], nets[i + 1])
    ensures Known(nets[i].traffic, id) && Known(nets[i + 1].traffic, id) && SlotValid(id, SlotOf(nets[i].traffic, id), nets[i].providers)
    ensures SlotOf(nets[i + 1].traffic, id) == Moved(nets[i], actions[i], id, SlotOf(nets[i].traffic, id))
  {
    NetRunValid(nets, actions, i);
    assert Step(nets[i], actions[i], nets[i + 1]);
    SlotMoves(nets[i], actions[i], nets[i + 1], id);
  }

  // ---- who may answer, and who is routed -----------------------------------

  ghost predicate Registers(nets: seq<Net>, actions: seq<Action>, k: nat, conn: nat, provider: nat)
    requires NetRun(nets, actions) && k < |actions|
  {
    actions[k] == RegisterRoute(conn) && conn in nets[k].providers.registering && nets[k].providers.registering[conn] == provider
  }

  ghost predicate Drops(nets: seq<Net>, actions: seq<Action>, k: nat, provider: nat)
    requires NetRun(nets, actions) && k < |actions|
  {
    actions[k].DropRoute? && actions[k].op in nets[k].ops && nets[k].ops[actions[k].op].provider == provider
  }

  /** The connection registered the provider's route before step `i` and has not withdrawn the provider since. */
  ghost predicate RegisteredFor(nets: seq<Net>, actions: seq<Action>, i: nat, conn: nat, provider: nat)
    requires NetRun(nets, actions) && i < |nets|
  {
    exists k {:trigger Registers(nets, actions, k, conn, provider)} ::
      0 <= k < i && Registers(nets, actions, k, conn, provider) && forall m :: k < m < i ==> actions[m] != Withdraw(conn, provider)
  }

  /** The connection registered the provider's route before step `i` and no disconnect has dropped it since. */
  ghost predicate RoutedBy(nets: seq<Net>, actions: seq<Action>, i: nat, conn: nat, provider: nat)
    requires NetRun(nets, actions) && i < |nets|
  {
    exists k {:trigger Registers(nets, actions, k, conn, provider)} ::
      && 0 <= k < i && Registers(nets, actions, k, conn, provider)
      && forall m {:trigger Drops(nets, actions, m, provider)} :: k < m < i ==> !Drops(nets, actions, m, provider)
  }

  lemma OwnedStep(n: Net, a: Action, m: Net, conn: nat, provider: nat)
    requires Step(n, a, m)
    ensures provider in Owned(m.providers, conn) <==>
      || (a == RegisterRoute(conn) && n.providers.registering[conn] == provider)
      || (provider in Owned(n.providers, conn) && a != Withdraw(conn, provider))
  {
  }

  /** A connection may answer for exactly the providers that it registered and did not withdraw. */
  lemma {:induction false} AnswersForIff(nets: seq<Net>, actions: seq<Action>, i: nat, conn: nat, provider: nat)
    requires NetRun(nets, actions) && i < |nets|
    ensures provider in Owned(nets[i].providers, conn) <==> RegisteredFor(nets, actions, i, conn, provider)
  {
    if i > 0 {
      var j := i - 1;
      AnswersForIff(nets, actions, j, conn, provider);
      assert Step(nets[j], actions[j], nets[i]);
      OwnedStep(nets[j], actions[j], nets[i], conn, provider);
      if provider in Owned(nets[i].providers, conn) {
        if Registers(nets, actions, j, conn, provider) {
          assert RegisteredFor(nets, actions, i, conn, provider);
        } else {
          var k :| 0 <= k < j && Registers(nets, actions, k, conn, provider) && forall m :: k < m < j ==> actions[m] != Withdraw(conn, provider);
          assert RegisteredFor(nets, actions, i, conn, provider);
        }
      }
      if RegisteredFor(nets, actions, i, conn, provider) {
        var k :| 0 <= k < i && Registers(nets, actions, k, conn, provider) && forall m :: k < m < i ==> actions[m] != Withdraw(conn, provider);
        assert k < j ==> RegisteredFor(nets, actions, j, conn, provider);
      }
    }
  }

  ghost predicate Routed(p: Providers, conn: nat, provider: nat) {
    provider in p.routes && p.routes[provider] == conn
  }

  lemma RoutedStep(n: Net, a: Action, m: Net, conn: nat, provider: nat)
    requires NetValid(n) && Step(n, a, m)
    ensures Routed(m.providers, conn, provider) <==>
      || (a == RegisterRoute(conn) && n.providers.registering[conn] == provider)
      || (Routed(n.providers, conn, provider) && !(a.DropRoute? && n.ops[a.op].provider == provider))
  {
  }

  /** A route leads to the connection that registered it, from then on until a disconnect drops it. */
  lemma {:induction false} RoutedIff(nets: seq<Net>, actions: seq<Action>, i: nat, conn: nat, provider: nat)
    requires NetRun(nets, actions) && i < |nets|
    ensures Routed(nets[i].providers, conn, provider) <==> RoutedBy(nets, actions, i, conn, provider)
  {
    if i > 0 {
      var j := i - 1;
      RoutedIff(nets, actions, j, conn, provider);
      NetRunValid(nets, actions, j);
      assert Step(nets[j], actions[j], nets[i]);
      RoutedStep(nets[j], actions[j], nets[i], conn, provider);
      RoutedByStep(nets, actions, j, conn, provider);
    }
  }

  lemma RoutedByStep(nets: seq<Net>, actions: seq<Action>, j: nat, conn: nat, provider: nat)
    requires NetRun(nets, actions) && j < |actions|
    ensures RoutedBy(nets, actions, j + 1, conn, provider) <==>
      || Registers(nets, actions, j, conn, provider)
      || (RoutedBy(nets, actions, j, conn, provider) && !Drops(nets, actions, j, provider))
  {
    if RoutedBy(nets, actions, j, conn, provider) && !Drops(nets, actions, j, provider) {
      var k :| 0 <= k < j && Registers(nets, actions, k, conn, provider)
               && forall m {:trigger Drops(nets, actions, m, provider)} :: k < m < j ==> !Drops(nets, actions, m, provider);
      assert forall m {:trigger Drops(nets, actions, m, provider)} :: k < m < j + 1 ==> !Drops(nets, actions, m, provider);
    }
  }

  // ---- answers -------------------------------------------------------------

  /** The right to answer is in this hand, or its message has been sent. */
  ghost predicate Handled(id: nat, s: Slot, hand: Hand) {
    || (s.hand == Some(hand) && s.channel == [])
    || (s.hand.None? && s.channel == [MessageOf(id, hand)])
  }

  lemma HandledStep(n: Net, a: Action, id: nat, s: Slot, hand: Hand)
    requires SlotValid(id, s, n.providers) && Handled(id, s, hand)
    ensures Handled(id, Moved(n, a, id, s), hand) && Moved(n, a, id, s).call.request == s.call.request
  {
  }

  ghost predicate HandledIn(r: Reads, id: nat, request: Request, hand: Hand) {
    Known(r, id) && r.calls[id].request == request && Handled(id, SlotOf(r, id), hand)
  }

  lemma HandledRunStep(nets: seq<Net>, actions: seq<Action>, i: nat, id: nat, request: Request, hand: Hand)
    requires NetRun(nets, actions) && i < |actions| && HandledIn(nets[i].traffic, id, request, hand)
    ensures HandledIn(nets[i + 1].traffic, id, request, hand)
  {
    RunMoves(nets, actions, i, id);
    HandledStep(nets[i], actions[i], id, SlotOf(nets[i].traffic, id), hand);
    assert nets[i + 1].traffic.calls[id] == SlotOf(nets[i + 1].traffic, id).call;
  }

  lemma {:induction false} HandledStays(nets: seq<Net>, actions: seq<Action>, i: nat, j: nat, id: nat, request: Request, hand: Hand)
    requires NetRun(nets, actions) && i <= j < |nets| && HandledIn(nets[i].traffic, id, request, hand)
    ensures HandledIn(nets[j].traffic, id, request, hand)
    decreases j
  {
    if i < j {
      HandledStays(nets, actions, i, j - 1, id, request, hand);
      HandledRunStep(nets, actions, j - 1, id, request, hand);
    }
  }

  /**
    In every run: once the answer to a read that a connection gave at step `i` is dealt with, the
    channel holds that answer if the connection had registered the read's provider by then and the
    answer fits the read, and a refusal otherwise; a caller that receives gets exactly this message.
   */
  lemma AnswerDelivered(nets: seq<Net>, actions: seq<Action>, i: nat, j: nat, id: nat, conn: nat, response: Response)
    requires NetRun(nets, actions) && i < |actions| && i < j < |nets| && actions[i] == OnRead(id, Respond(conn, response))
    requires id !in nets[j].traffic.inHand
    ensures id in nets[j].traffic.calls && id in nets[j].traffic.channels
    ensures var request, phase := nets[j].traffic.calls[id].request, nets[j].traffic.calls[id].phase;
            var fits := response.id == id && (response.succeeded ==> |response.bytes| <= request.length);
            var message := if RegisteredFor(nets, actions, i, conn, request.provider) && fits then Answer(conn, response) else Refused;
            && nets[j].traffic.channels[id] == [message]
            && (phase.Returned? && phase.outcome.Received? ==> phase.outcome.message == message)
  {
    assert Step(nets[i], actions[i], nets[i + 1]);
    RunMoves(nets, actions, i, id);
    var s := SlotOf(nets[i].traffic, id);
    var hand := Completing(s.call.request, conn, Owned(nets[i].providers, conn), response);
    assert HandledIn(nets[i + 1].traffic, id, s.call.request, hand) by {
      assert nets[i + 1].traffic.calls[id] == SlotOf(nets[i + 1].traffic, id).call;
    }
    HandledStays(nets, actions, i + 1, j, id, s.call.request, hand);
    AnswersForIff(nets, actions, i, conn, s.call.request.provider);
    NetRunValid(nets, actions, j);
    assert ReadValid(nets[j].traffic, nets[j].providers, id);
  }

  // ---- outcomes ------------------------------------------------------------

  ghost predicate Did(actions: seq<Action>, i: nat, id: nat, action: ReadAction)
    requires i <= |actions|
  {
    exists k :: 0 <= k < i && actions[k] == OnRead(id, action)
  }

  /** The read looked for its provider's route, and whether there was one. */
  ghost predicate LookedUp(nets: seq<Net>, actions: seq<Action>, i: nat, id: nat, found: bool)
    requires NetRun(nets, actions) && i <= |actions|
  {
    exists k :: 0 <= k < i && actions[k] == OnRead(id, LookUpRoute) && id in nets[k].traffic.calls
                && (nets[k].traffic.calls[id].request.provider in nets[k].providers.routes) == found
  }

  predicate LosingWrite(phase: Phase) {
    phase.WriteLost? || phase.Unpended? || phase.Disconnecting? || phase == Returned(WriteFailed)
  }

  predicate Expiring(phase: Phase) {
    phase.Expired? || phase == Returned(TimedOut)
  }

  predicate Receiving(phase: Phase) {
    phase.Returned? && phase.outcome.Received?
  }

  /** The phase of a call says exactly which of these things have happened to it. */
  ghost predicate Tells(call: Call, found: bool, missed: bool, wrote: bool, lost: bool, expired: bool, received: bool) {
    var phase, wellFormed := call.phase, call.request.wellFormed;
    && (phase.Allocated? <==> !found && !missed)
    && (phase == Returned(Rejected) <==> (found || missed) && !wellFormed)
    && (phase == Returned(NotRouted) <==> missed && wellFormed)
    && (LosingWrite(phase) <==> lost)
    && (Expiring(phase) <==> expired)
    && (Receiving(phase) <==> received)
    && (phase.Waiting? || Expiring(phase) || Receiving(phase) <==> wrote)
  }

  ghost predicate Told(nets: seq<Net>, actions: seq<Action>, i: nat, id: nat)
    requires NetRun(nets, actions) && i <= |actions| && id in nets[i].traffic.calls
  {
    Tells(nets[i].traffic.calls[id], LookedUp(nets, actions, i, id, true), LookedUp(nets, actions, i, id, false),
          Did(actions, i, id, WriteFrame(true)), Did(actions, i, id, WriteFrame(false)), Did(actions, i, id, Expire), Did(actions, i, id, Receive))
  }

  ghost predicate Looks(n: Net, a: Action, id: nat, request: Request, found: bool) {
    a == OnRead(id, LookUpRoute) && (request.provider in n.providers.routes) == found
  }

  lemma TellsStep(n: Net, a: Action, id: nat, s: Slot, found: bool, missed: bool, wrote: bool, lost: bool, expired: bool, received: bool)
    requires SlotValid(id, s, n.providers) && Tells(s.call, found, missed, wrote, lost, expired, received)
    requires a.OnRead? && a.id == id ==> After(n, id, a.action, s).Some?
    requires a.CallDisconnects? && a.id == id ==> s.call.phase.Unpended?
    ensures Tells(Moved(n, a, id, s).call, found || Looks(n, a, id, s.call.request, true), missed || Looks(n, a, id, s.call.request, false),
                  wrote || a == OnRead(id, WriteFrame(true)), lost || a == OnRead(id, WriteFrame(false)),
                  expired || a == OnRead(id, Expire), received || a == OnRead(id, Receive))
  {
  }

  lemma DidStep(actions: seq<Action>, i: nat, id: nat, action: ReadAction)
    requires i < |actions|
    ensures Did(actions, i + 1, id, action) <==> Did(actions, i, id, action) || actions[i] == OnRead(id, action)
  {
  }

  lemma LookedUpStep(nets: seq<Net>, actions: seq<Action>, i: nat, id: nat, found: bool)
    requires NetRun(nets, actions) && i < |actions| && id in nets[i].traffic.calls
    ensures LookedUp(nets, actions, i + 1, id, found) <==>
            LookedUp(nets, actions, i, id, found) || Looks(nets[i], actions[i], id, nets[i].traffic.calls[id].request, found)
  {
  }

  lemma {:induction false} CallsStay(nets: seq<Net>, actions: seq<Action>, k: nat, i: nat, id: nat)
    requires NetRun(nets, actions) && k <= i < |nets| && id in nets[k].traffic.calls
    ensures id in nets[i].traffic.calls
    decreases i
  {
    if k < i {
      CallsStay(nets, actions, k, i - 1, id);
      assert Step(nets[i - 1], actions[i - 1], nets[i]);
    }
  }

  /** Nothing has been done to a read that does not exist yet. */
  lemma NothingYet(nets: seq<Net>, actions: seq<Action>, i: nat, id: nat)
    requires NetRun(nets, actions) && i < |nets| && id !in nets[i].traffic.calls
    ensures forall k, action :: 0 <= k < i ==> actions[k] != OnRead(id, action)
  {
    forall k, action | 0 <= k < i ensures actions[k] != OnRead(id, action) {
      if actions[k] == OnRead(id, action) {
        assert Step(nets[k], actions[k], nets[k + 1]);
        CallsStay(nets, actions, k, i, id);
      }
    }
  }

  lemma NewCallIsAllocated(n: Net, a: Action, m: Net, id: nat)
    requires Step(n, a, m) && id !in n.traffic.calls && id in m.traffic.calls
    ensures m.traffic.calls[id].phase.Allocated?
  {
  }

  lemma FirstTold(nets: seq<Net>, actions: seq<Action>, i: nat, id: nat)
    requires NetRun(nets, actions) && i < |actions| && id !in nets[i].traffic.calls && id in nets[i + 1].traffic.calls
    ensures Told(nets, actions, i + 1, id)
  {
    NothingYet(nets, actions, i, id);
    assert Step(nets[i], actions[i], nets[i + 1]);
    NewCallIsAllocated(nets[i], actions[i], nets[i + 1], id);
    assert forall k, action :: 0 <= k < i + 1 ==> actions[k] != OnRead(id, action);
  }

  /**
    In every run the phase of a read, and with it what its call returns, is fixed by what happened to
    it: it is rejected for its form, unrouted when the route was missing at its lookup, failed when
    its write was lost, timed out when it expired, answered when it received, and nothing else.
   */
  lemma {:induction false} OutcomeTold(nets: seq<Net>, actions: seq<Action>, i: nat, id: nat)
    requires NetRun(nets, actions) && i < |nets| && id in nets[i].traffic.calls
    ensures Told(nets, actions, i, id)
  {
    if i > 0 {
      var j := i - 1;
      if id in nets[j].traffic.calls {
        OutcomeTold(nets, actions, j, id);
        ToldStep(nets, actions, j, id);
      } else {
        FirstTold(nets, actions, j, id);
      }
    }
  }

  lemma ToldStep(nets: seq<Net>, actions: seq<Action>, j: nat, id: nat)
    requires NetRun(nets, actions) && j < |actions| && id in nets[j].traffic.calls && Told(nets, actions, j, id)
    ensures id in nets[j + 1].traffic.calls && Told(nets, actions, j + 1, id)
  {
    RunMoves(nets, actions, j, id);
    TellsStep(nets[j], actions[j], id, SlotOf(nets[j].traffic, id), LookedUp(nets, actions, j, id, true), LookedUp(nets, actions, j, id, false),
              Did(actions, j, id, WriteFrame(true)), Did(actions, j, id, WriteFrame(false)), Did(actions, j, id, Expire), Did(actions, j, id, Receive));
    LookedUpStep(nets, actions, j, id, true);
    LookedUpStep(nets, actions, j, id, false);
    DidStep(actions, j, id, WriteFrame(true));
    DidStep(actions, j, id, WriteFrame(false));
    DidStep(actions, j, id, Expire);
    DidStep(actions, j, id, Receive);
    assert nets[j + 1].traffic.calls[id] == SlotOf(nets[j + 1].traffic, id).call;
  }

  // ---- a lost write --------------------------------------------------------

  /** The disconnect that a lost write starts is that of the read's provider, and is over when the call returns. */
  ghost predicate Disconnects(n: Net, call: Call) {
    && (call.phase.Disconnecting? ==> call.phase.op in n.ops && n.ops[call.phase.op].provider == call.request.provider)
    && (call.phase == Returned(WriteFailed) ==> call.request.provider in n.providers.dropped && call.request.provider !in n.providers.live)
  }

  /** How a call comes to disconnect its provider and to return for it. */
  ghost predicate PhaseMove(n: Net, a: Action, id: nat, c: Call, d: Call) {
    && d.request == c.request
    && (d.phase.Disconnecting? ==> d.phase == c.phase || a == CallDisconnects(id, d.phase.op))
    && (d.phase == Returned(WriteFailed) ==> d.phase == c.phase || (c.phase.Disconnecting? && OpFinished(n, c.phase.op)))
  }

  lemma MovedPhase(n: Net, a: Action, id: nat, s: Slot)
    ensures PhaseMove(n, a, id, s.call, Moved(n, a, id, s).call)
  {
  }

  ghost predicate Gone(p: Providers, provider: nat) {
    provider in p.dropped && provider !in p.live
  }

  /** Disconnects keep their provider and end with it gone, and it stays gone. */
  ghost predicate GoneStays(n: Net, m: Net, op: nat, provider: nat) {
    && (op in n.ops ==> op in m.ops && m.ops[op].provider == n.ops[op].provider)
    && (OpFinished(n, op) ==> Gone(n.providers, n.ops[op].provider))
    && (Gone(n.providers, provider) ==> Gone(m.providers, provider))
  }

  lemma GoneStep(n: Net, a: Action, m: Net, op: nat, provider: nat)
    requires NetValid(n) && Step(n, a, m)
    ensures GoneStays(n, m, op, provider)
    ensures a.CallDisconnects? ==>
      a.id in n.traffic.calls && a.op in m.ops && m.ops[a.op].provider == n.traffic.calls[a.id].request.provider
  {
    if op in n.ops {
      assert OpValid(n.traffic, n.providers, n.ops[op], op);
    }
  }

  lemma DisconnectsFollows(n: Net, a: Action, m: Net, id: nat, c: Call, d: Call)
    requires Disconnects(n, c) && PhaseMove(n, a, id, c, d)
    requires GoneStays(n, m, if c.phase.Disconnecting? then c.phase.op else 0, c.request.provider)
    requires a.CallDisconnects? && a.id == id ==> a.op in m.ops && m.ops[a.op].provider == c.request.provider
    ensures Disconnects(m, d)
  {
  }

  lemma DisconnectsStep(n: Net, a: Action, m: Net, id: nat)
    requires NetValid(n) && Step(n, a, m) && id in n.traffic.calls && Disconnects(n, n.traffic.calls[id])
    ensures id in m.traffic.calls && Disconnects(m, m.traffic.calls[id])
  {
    SlotMoves(n, a, m, id);
    var c, d := SlotOf(n.traffic, id).call, SlotOf(m.traffic, id).call;
    MovedPhase(n, a, id, SlotOf(n.traffic, id));
    GoneStep(n, a, m, if c.phase.Disconnecting? then c.phase.op else 0, c.request.provider);
    DisconnectsFollows(n, a, m, id, c, d);
  }

  lemma {:induction false} DisconnectsAlways(nets: seq<Net>, actions: seq<Action>, i: nat, id: nat)
    requires NetRun(nets, actions) && i < |nets| && id in nets[i].traffic.calls
    ensures Disconnects(nets[i], nets[i].traffic.calls[id])
  {
    if i > 0 {
      var j := i - 1;
      assert Step(nets[j], actions[j], nets[i]);
      if id in nets[j].traffic.calls {
        DisconnectsAlways(nets, actions, j, id);
        NetRunValid(nets, actions, j);
        DisconnectsStep(nets[j], actions[j], nets[i], id);
      } else {
        NewCallIsAllocated(nets[j], actions[j], nets[i], id);
      }
    }
  }

  /** A call whose write was lost returns only when its provider is neither live nor routed. */
  lemma LostWriteDisconnects(nets: seq<Net>, actions: seq<Action>, i: nat, id: nat)
    requires NetRun(nets, actions) && i < |nets| && id in nets[i].traffic.calls
    requires nets[i].traffic.calls[id].phase == Returned(WriteFailed)
    ensures var provider := nets[i].traffic.calls[id].request.provider;
            provider !in nets[i].providers.live && provider !in nets[i].providers.routes
  {
    NetRunValid(nets, actions, i);
    DisconnectsAlways(nets, actions, i, id);
  }
}
