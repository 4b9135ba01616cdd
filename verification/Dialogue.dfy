/**
  The materialize exchange between a client and the daemon over one stream: progress frames, the
  client's answers, and the final frame, with the client free to cancel or to vanish at any time.
 */
module Dialogue {
  datatype Request = Start | Continue | Cancel

  datatype Response = Progress | Materialized | Failure

  /** `Working(n)`: at most `n` more reports will be made. */
  datatype Daemon = Idle | Working(left: nat) | Awaiting(left: nat) | Aborting | Finished

  /** `Draining` reads one more response after a cancellation; `Gone` has lost the connection. */
  datatype Client = Listening | Deciding | Draining | Returned | Gone

  /** Both parties, both directions of the stream, and counts of what has passed. */
  datatype Exchange = Exchange(
    daemon: Daemon,
    client: Client,
    toDaemon: seq<Request>,
    toClient: seq<Response>,
    progressSent: nat,
    controlsTaken: nat,
    finals: nat,
    misplaced: nat)  // control frames that the outer request loop had to reject

  ghost function Begun(): Exchange {
    Exchange(Idle, Listening, [Start], [], 0, 0, 0, 0)
  }

  datatype Move =
    | Accept(reports: nat)
    | Misplace
    | Report
    | TakeControl
    | Hangup
    | Succeed
    | Fail
    | ReceiveProgress
    | ReceiveFinal
    | Proceed
    | CallOff
    | Drain
    | Vanish

  ghost predicate Alive(client: Client) {
    client.Listening? || client.Deciding? || client.Draining?
  }

  /** Frames to a client that is no longer there are lost. */
  function Sent(x: Exchange, frame: Response): seq<Response> {
    if x.client.Gone? then [] else x.toClient + [frame]
  }

  ghost predicate Step(x: Exchange, move: Move, y: Exchange) {
    match move
    case Accept(reports) =>
      x.daemon.Idle? && x.toDaemon != [] && x.toDaemon[0].Start? && y == x.(daemon := Working(reports), toDaemon := x.toDaemon[1..])
    case Misplace =>
      && (x.daemon.Idle? || x.daemon.Finished?) && x.toDaemon != [] && !x.toDaemon[0].Start?
      && y == x.(toDaemon := x.toDaemon[1..], misplaced := x.misplaced + 1)
    case Report =>
      && x.daemon.Working? && x.daemon.left > 0
      && y == x.(daemon := Awaiting(x.daemon.left - 1), toClient := Sent(x, Progress), progressSent := x.progressSent + 1)
    case TakeControl =>
      && x.daemon.Awaiting? && x.toDaemon != []
      && y == x.(daemon := if x.toDaemon[0].Continue? then Working(x.daemon.left) else Aborting,
                 toDaemon := x.toDaemon[1..], controlsTaken := x.controlsTaken + 1)
    case Hangup =>
      x.daemon.Awaiting? && x.toDaemon == [] && x.client.Gone? && y == x.(daemon := Aborting, controlsTaken := x.controlsTaken + 1)
    case Succeed =>
      && x.daemon.Working? && x.daemon.left == 0
      && y == x.(daemon := Finished, toClient := Sent(x, Materialized), finals := x.finals + 1)
    case Fail =>
      && (x.daemon.Working? || x.daemon.Aborting?)
      && y == x.(daemon := Finished, toClient := Sent(x, Failure), finals := x.finals + 1)
    case ReceiveProgress =>
      x.client.Listening? && x.toClient != [] && x.toClient[0].Progress? && y == x.(client := Deciding, toClient := x.toClient[1..])
    case ReceiveFinal =>
      x.client.Listening? && x.toClient != [] && !x.toClient[0].Progress? && y == x.(client := Returned, toClient := x.toClient[1..])
    case Proceed => x.client.Deciding? && y == x.(client := Listening, toDaemon := x.toDaemon + [Continue])
    case CallOff => x.client.Deciding? && y == x.(client := Draining, toDaemon := x.toDaemon + [Cancel])
    case Drain => x.client.Draining? && x.toClient != [] && y == x.(client := Returned, toClient := x.toClient[1..])
    case Vanish => Alive(x.client) && y == x.(client := Gone, toClient := [])
  }

  // ---- lock-step -----------------------------------------------------------

  /** What is in flight, by where the two parties stand. */
  ghost predicate InStep(x: Exchange) {
    match x.daemon
    case Idle => x.toDaemon == [Start] && x.toClient == [] && (x.client.Listening? || x.client.Gone?)
    case Working(_) => x.toDaemon == [] && x.toClient == [] && (x.client.Listening? || x.client.Gone?)
    case Awaiting(_) =>
      match x.client {
        case Listening => (x.toClient == [Progress] && x.toDaemon == []) || (x.toClient == [] && x.toDaemon == [Continue])
        case Deciding => x.toClient == [] && x.toDaemon == []
        case Draining => x.toClient == [] && x.toDaemon == [Cancel]
        case Returned => false
        case Gone => x.toClient == [] && (x.toDaemon == [] || x.toDaemon == [Continue] || x.toDaemon == [Cancel])
      }
    case Aborting => x.toDaemon == [] && x.toClient == [] && (x.client.Draining? || x.client.Gone?)
    case Finished =>
      && x.toDaemon == []
      && match x.client {
           case Listening => x.toClient == [Materialized] || x.toClient == [Failure]
           case Deciding => false
           case Draining => x.toClient == [Failure]
           case Returned => x.toClient == []
           case Gone => x.toClient == []
         }
  }

  /** Every progress frame but the one being awaited has been answered once; one final frame ends it. */
  ghost predicate Counted(x: Exchange) {
    && x.progressSent == x.controlsTaken + (if x.daemon.Awaiting? then 1 else 0)
    && x.finals == (if x.daemon.Finished? then 1 else 0) && x.misplaced == 0
  }

  ghost predicate Proper(x: Exchange) {
    InStep(x) && Counted(x)
  }

  lemma StepKeepsProper(x: Exchange, move: Move, y: Exchange)
    requires Proper(x) && Step(x, move, y)
    ensures Proper(y) && !move.Misplace?
  {
  }

  // ---- no deadlock, and an end ---------------------------------------------

  ghost predicate Over(x: Exchange) {
    x.daemon.Finished? && (x.client.Returned? || x.client.Gone?)
  }

  ghost predicate CanMove(x: Exchange) {
    exists move: Move, y: Exchange :: !move.Vanish? && Step(x, move, y)
  }

  /** As long as the exchange is not over, someone can move, without the client having to vanish. */
  lemma NeverStuck(x: Exchange)
    requires Proper(x)
    ensures CanMove(x) <==> !Over(x)
  {
    if !Over(x) {
      var move := MoveFor(x);
    }
  }

  lemma MoveFor(x: Exchange) returns (move: Move)
    requires Proper(x) && !Over(x)
    ensures !move.Vanish? && exists y :: Step(x, move, y)
  {
    match x.daemon {
      case Idle =>
        move := Accept(0);
        assert Step(x, move, x.(daemon := Working(0), toDaemon := x.toDaemon[1..]));
      case Working(n) =>
        move := Fail;
        assert Step(x, move, x.(daemon := Finished, toClient := Sent(x, Failure), finals := x.finals + 1));
      case Aborting =>
        move := Fail;
        assert Step(x, move, x.(daemon := Finished, toClient := Sent(x, Failure), finals := x.finals + 1));
      case Awaiting(n) => move := MoveWhileAwaiting(x);
      case Finished =>
        move := if x.client.Draining? then Drain else ReceiveFinal;
        assert Step(x, move, x.(client := Returned, toClient := x.toClient[1..]));
    }
  }

  lemma MoveWhileAwaiting(x: Exchange) returns (move: Move)
    requires Proper(x) && x.daemon.Awaiting?
    ensures !move.Vanish? && exists y :: Step(x, move, y)
  {
    if x.toDaemon != [] {
      move := TakeControl;
      assert Step(x, move, x.(daemon := if x.toDaemon[0].Continue? then Working(x.daemon.left) else Aborting,
                              toDaemon := x.toDaemon[1..], controlsTaken := x.controlsTaken + 1));
    } else if x.client.Gone? {
      move := Hangup;
      assert Step(x, move, x.(daemon := Aborting, controlsTaken := x.controlsTaken + 1));
    } else if x.client.Deciding? {
      move := Proceed;
      assert Step(x, move, x.(client := Listening, toDaemon := x.toDaemon + [Continue]));
    } else {
      move := ReceiveProgress;
      assert Step(x, move, x.(client := Deciding, toClient := x.toClient[1..]));
    }
  }

  /** What is left of a round, from the frame sent to the answer given. */
  ghost function Round(x: Exchange): nat {
    (if x.toClient != [] then 3 else 0) + (if x.client.Deciding? then 2 else 0) + (if x.client.Returned? then 0 else 1)
  }

  /** A bound on the moves left once the daemon has begun. */
  ghost function Remaining(x: Exchange): nat {
    (if x.client.Gone? then 0 else 1)
    + match x.daemon
      case Idle => 0
      case Working(n) => 20 * n + 20
      case Awaiting(n) => 20 * n + 30 + Round(x)
      case Aborting => 10
      case Finished => Round(x)
  }

  lemma StepsRunOut(x: Exchange, move: Move, y: Exchange)
    requires Proper(x) && Step(x, move, y) && !x.daemon.Idle?
    ensures Remaining(y) < Remaining(x) && !y.daemon.Idle?
  {
  }

  // ---- whole exchanges -----------------------------------------------------

  ghost predicate DialogueRun(states: seq<Exchange>, moves: seq<Move>) {
    && |states| == |moves| + 1 && states[0] == Begun()
    && forall i {:trigger moves[i]} :: 0 <= i < |moves| ==> Step(states[i], moves[i], states[i + 1])
  }

  lemma {:induction false} RunProper(states: seq<Exchange>, moves: seq<Move>, i: nat)
    requires DialogueRun(states, moves) && i < |states|
    ensures Proper(states[i])
  {
    if i > 0 {
      RunProper(states, moves, i - 1);
      assert Step(states[i - 1], moves[i - 1], states[i]);
      StepKeepsProper(states[i - 1], moves[i - 1], states[i]);
    }
  }

  /**
    In every exchange: no control frame reaches the outer loop, each progress frame is answered
    exactly once, and when nobody can move any more exactly one final frame has been sent, both
    directions are empty and the client has returned or vanished.
   */
  lemma DialogueSafe(states: seq<Exchange>, moves: seq<Move>, i: nat)
    requires DialogueRun(states, moves) && i < |states|
    ensures states[i].misplaced == 0 && states[i].controlsTaken <= states[i].progressSent <= states[i].controlsTaken + 1
    ensures states[i].finals <= 1
    ensures !CanMove(states[i]) ==>
      && Over(states[i]) && states[i].finals == 1 && states[i].progressSent == states[i].controlsTaken
      && states[i].toClient == [] && states[i].toDaemon == []
  {
    RunProper(states, moves, i);
    NeverStuck(states[i]);
  }

  /** An exchange with `n` reports ends: after the daemon has begun, at most `20 * n + 21` moves follow. */
  lemma {:induction false} DialogueEnds(states: seq<Exchange>, moves: seq<Move>, i: nat, j: nat)
    requires DialogueRun(states, moves) && i <= j < |states| && states[i].daemon.Working?
    ensures !states[j].daemon.Idle? && j - i <= 20 * states[i].daemon.left + 21 - Remaining(states[j])
    decreases j
  {
    if i < j {
      DialogueEnds(states, moves, i, j - 1);
      RunProper(states, moves, j - 1);
      assert Step(states[j - 1], moves[j - 1], states[j]);
      StepsRunOut(states[j - 1], moves[j - 1], states[j]);
    }
  }

  // ---- what the client is told ---------------------------------------------

  ghost predicate Succeeds(moves: seq<Move>, n: nat)
    requires n <= |moves|
  {
    exists k :: 0 <= k < n && moves[k].Succeed?
  }

  ghost predicate Fails(moves: seq<Move>, n: nat)
    requires n <= |moves|
  {
    exists k :: 0 <= k < n && moves[k].Fail?
  }

  /** The daemon's answer to a report: the client called off, or is gone. */
  ghost predicate CallsOff(x: Exchange, move: Move) {
    move.Hangup? || (move.TakeControl? && x.toDaemon != [] && x.toDaemon[0].Cancel?)
  }

  /** The daemon is finished exactly after one of the two outcomes, and the frame on its way says which. */
  ghost predicate Told(x: Exchange, moves: seq<Move>, n: nat)
    requires n <= |moves|
  {
    && (x.daemon.Finished? <==> Succeeds(moves, n) || Fails(moves, n)) && !(Succeeds(moves, n) && Fails(moves, n))
    && (x.daemon.Finished? && x.toClient != [] ==>
         x.toClient == [if Succeeds(moves, n) then Materialized else Failure])
  }

  lemma MoreMoves(moves: seq<Move>, n: nat)
    requires n < |moves|
    ensures Succeeds(moves, n + 1) <==> Succeeds(moves, n) || moves[n].Succeed?
    ensures Fails(moves, n + 1) <==> Fails(moves, n) || moves[n].Fail?
  {
  }

  lemma {:induction false} RunTold(states: seq<Exchange>, moves: seq<Move>, i: nat)
    requires DialogueRun(states, moves) && i < |states|
    ensures Told(states[i], moves, i)
  {
    if i > 0 {
      RunTold(states, moves, i - 1);
      RunProper(states, moves, i - 1);
      assert Step(states[i - 1], moves[i - 1], states[i]);
      MoreMoves(moves, i - 1);
      ToldStep(states[i - 1], moves[i - 1], states[i], moves, i - 1);
    }
  }

  lemma ToldStep(x: Exchange, move: Move, y: Exchange, moves: seq<Move>, n: nat)
    requires Proper(x) && Step(x, move, y) && n < |moves| && moves[n] == move && Told(x, moves, n)
    requires Succeeds(moves, n + 1) <==> Succeeds(moves, n) || move.Succeed?
    requires Fails(moves, n + 1) <==> Fails(moves, n) || move.Fail?
    ensures Told(y, moves, n + 1)
  {
  }

  lemma {:induction false} FinishedStays(states: seq<Exchange>, moves: seq<Move>, i: nat, j: nat)
    requires DialogueRun(states, moves) && i <= j < |states| && states[i].daemon.Finished?
    ensures states[j].daemon.Finished?
    decreases j
  {
    if i < j {
      FinishedStays(states, moves, i, j - 1);
      assert Step(states[j - 1], moves[j - 1], states[j]);
    }
  }

  lemma OutcomesOver(states: seq<Exchange>, moves: seq<Move>, i: nat)
    requires DialogueRun(states, moves) && i < |states| && states[i].daemon.Finished?
    ensures Succeeds(moves, |moves|) <==> Succeeds(moves, i)
    ensures Fails(moves, |moves|) <==> Fails(moves, i)
  {
    forall k | i <= k < |moves| ensures !moves[k].Succeed? && !moves[k].Fail? {
      FinishedStays(states, moves, i, k);
      assert Step(states[k], moves[k], states[k + 1]);
    }
  }

  /**
    The final frame that a client takes, whether it waits for it or only drains it, says Materialized if
    and only if the daemon succeeded in this run, and Failure if and only if it failed.
   */
  lemma FinalFrameIsTrue(states: seq<Exchange>, moves: seq<Move>, i: nat)
    requires DialogueRun(states, moves) && i < |moves| && (moves[i].ReceiveFinal? || moves[i].Drain?)
    ensures states[i].toClient != []
    ensures states[i].toClient[0].Materialized? <==> Succeeds(moves, |moves|)
    ensures states[i].toClient[0].Failure? <==> Fails(moves, |moves|)
  {
    assert Step(states[i], moves[i], states[i + 1]);
    RunProper(states, moves, i);
    RunTold(states, moves, i);
    OutcomesOver(states, moves, i);
  }

  ghost predicate CalledOff(x: Exchange) {
    x.daemon.Aborting? || x.daemon.Finished?
  }

  lemma {:induction false} CalledOffStays(states: seq<Exchange>, moves: seq<Move>, i: nat, j: nat)
    requires DialogueRun(states, moves) && i <= j < |states| && CalledOff(states[i])
    ensures CalledOff(states[j])
    decreases j
  {
    if i < j {
      CalledOffStays(states, moves, i, j - 1);
      assert Step(states[j - 1], moves[j - 1], states[j]);
    }
  }

  /** Once the daemon has taken a cancellation or found the client gone, the run never succeeds. */
  lemma NoSuccessAfterCancel(states: seq<Exchange>, moves: seq<Move>, i: nat)
    requires DialogueRun(states, moves) && i < |moves| && CallsOff(states[i], moves[i])
    ensures !Succeeds(moves, |moves|)
  {
    assert Step(states[i], moves[i], states[i + 1]);
    RunTold(states, moves, i);
    forall k | 0 <= k < |moves| ensures !moves[k].Succeed? {
      if k > i {
        CalledOffStays(states, moves, i + 1, k);
        assert Step(states[k], moves[k], states[k + 1]);
      }
    }
  }

  /** Past the start, what was reported and what is left make up the accepted number of reports. */
  ghost predicate OnCourse(x: Exchange, reports: nat) {
    !x.daemon.Idle? && (x.daemon.Working? || x.daemon.Awaiting? ==> x.progressSent + x.daemon.left == reports)
  }

  lemma {:induction false} StaysOnCourse(states: seq<Exchange>, moves: seq<Move>, i: nat, j: nat, reports: nat)
    requires DialogueRun(states, moves) && i <= j < |states| && OnCourse(states[i], reports)
    ensures OnCourse(states[j], reports)
    decreases j
  {
    if i < j {
      StaysOnCourse(states, moves, i, j - 1, reports);
      assert Step(states[j - 1], moves[j - 1], states[j]);
    }
  }

  lemma {:induction false} NothingReportedBefore(states: seq<Exchange>, moves: seq<Move>, i: nat)
    requires DialogueRun(states, moves) && i < |states| && states[i].daemon.Idle?
    ensures states[i].progressSent == 0
  {
    if i > 0 {
      assert Step(states[i - 1], moves[i - 1], states[i]);
      NothingReportedBefore(states, moves, i - 1);
    }
  }

  /** Success comes only after every report of the accepted run has been made and answered. */
  lemma SuccessReportsAll(states: seq<Exchange>, moves: seq<Move>, i: nat, j: nat)
    requires DialogueRun(states, moves) && i < j < |moves| && moves[i].Accept? && moves[j].Succeed?
    ensures states[j].progressSent == states[j].controlsTaken == moves[i].reports
  {
    assert Step(states[i], moves[i], states[i + 1]) && Step(states[j], moves[j], states[j + 1]);
    NothingReportedBefore(states, moves, i);
    StaysOnCourse(states, moves, i + 1, j, moves[i].reports);
    RunProper(states, moves, j);
  }
}
