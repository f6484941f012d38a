/**
 A transfer through the relay: sender, the two lanes of its session among others on shared pools, and receiver. Frames
 travel in order over four sockets and through the relay's recycled buffers. Every run is a run of `Transfer`.
 */
module RelayedTransfer {
  import opened Wrappers
  import opened Bytes
  import opened BinaryHeader
  import opened Framing
  import opened Receiving
  import opened SlidingWindows
  import opened Transfer
  import TransferProgress
  import SenderLoop
  import P = PooledRelay

  /** `net` keeps every frame that was ever sent; what can still arrive is in the sockets and the lanes. */
  datatype World = World(
    net: Net, dataLanes: P.System, ackLanes: P.System,
    senderOut: seq<seq<byte>>, receiverIn: seq<seq<byte>>, receiverOut: seq<seq<byte>>, senderIn: seq<seq<byte>>)

  datatype Move =
    | SenderActs(step: Step, written: seq<seq<byte>>)
    | SenderReads(now: nat, written: seq<seq<byte>>)
    | DataRelay(relayStep: P.Step)
    | AckRelay(relayStep: P.Step)
    | ReceiverReads(ioOk: bool)
    | Verify(readOk: bool)
    | ReceiverStops
    | SocketsBreak(senderSide: bool)

  function Begin(job: Job, metadata: seq<byte>): World {
    var none := P.System(P.Memory(map[], {}), map[]);
    World(Initial(job, metadata), none, none, [], [], [], [])
  }

  /** The frames a socket took are among those the event makes the sender transmit. */
  ghost predicate WritesOutgoing(job: Job, src: seq<seq<byte>>, s: SenderLoop.Sender, e: SenderLoop.Event,
                                 written: seq<seq<byte>>)
    requires |src| == |job.offer.items|
  {
    forall f :: f in written ==>
      exists k: nat :: k in Outgoing(s, e) && k < |Chunks(job.offer.items)| && f == FrameOf(job, src, k)
  }

  function EventOf(step: Step): SenderLoop.Event
    requires step.SendChunk? || step.TimerTick?
  {
    if step.SendChunk? then SenderLoop.Send(step.now) else SenderLoop.Tick(step.now)
  }

  predicate FillsFrom(me: string, step: P.Step, out: seq<seq<byte>>) {
    step.On? && step.session == me && step.action.Fill? ==> out != [] && step.action.frame == out[0]
  }

  /** The pumps of this session read from and write to its own sockets; all other sessions are free. */
  ghost predicate CanMove(job: Job, src: seq<seq<byte>>, me: string, w: World, move: Move) {
    && WellSized(job, src, w.net)
    && match move
       case SenderActs(step, written) =>
         (step.SendChunk? || step.TimerTick?) && CanStep(job, w.net, step) &&
         WritesOutgoing(job, src, w.net.sender, EventOf(step), written)
       case SenderReads(now, written) =>
         w.senderIn != [] && SenderRuns(w.net) &&
         var e := ReplyEvent(job, w.senderIn[0], now);
         if e.None? then written == [] else WritesOutgoing(job, src, w.net.sender, e.value, written)
       case DataRelay(step) => P.CanStep(P.Forward, w.dataLanes, step) && FillsFrom(me, step, w.senderOut)
       case AckRelay(step) => P.CanStep(P.Backward, w.ackLanes, step) && FillsFrom(me, step, w.receiverOut)
       case ReceiverReads(_) => w.receiverIn != [] && w.net.receiver.phase == Running
       case Verify(_) => w.net.receiver.phase.Verifying?
       case ReceiverStops => w.net.receiver.phase == Running
       case SocketsBreak(_) => true
  }

  function AfterFill(me: string, step: P.Step, out: seq<seq<byte>>): seq<seq<byte>> {
    if step.On? && step.session == me && step.action.Fill? && out != [] then out[1..] else out
  }

  /** What a successful write of this session's writing pump puts into the socket. */
  function Written(kind: P.Kind, me: string, s: P.System, step: P.Step): seq<seq<byte>>
    requires P.CanStep(kind, s, step)
  {
    if step.On? && step.session == me && step.action.Write? && step.action.ok then
      [P.Content(s.memory.cells[s.lanes[me].writing.id])]
    else []
  }

  ghost function After(job: Job, src: seq<seq<byte>>, me: string, w: World, move: Move): World
    requires CanMove(job, src, me, w, move) && Carried(job, me, w)
  {
    match move
    case SenderActs(step, written) => w.(net := Next(job, src, w.net, step), senderOut := w.senderOut + written)
    case SenderReads(now, written) =>
      w.(net := Next(job, src, w.net, DeliverReply(w.senderIn[0], now)), senderIn := w.senderIn[1..],
         senderOut := w.senderOut + written)
    case DataRelay(step) =>
      w.(dataLanes := P.Next(P.Forward, w.dataLanes, step), senderOut := AfterFill(me, step, w.senderOut),
         receiverIn := w.receiverIn + Written(P.Forward, me, w.dataLanes, step))
    case AckRelay(step) =>
      w.(ackLanes := P.Next(P.Backward, w.ackLanes, step), receiverOut := AfterFill(me, step, w.receiverOut),
         senderIn := w.senderIn + Written(P.Backward, me, w.ackLanes, step))
    case ReceiverReads(ioOk) =>
      var replies := React(job, w.net.receiver, Inspect(job.suite, w.receiverIn[0]), ioOk).1;
      w.(net := Next(job, src, w.net, DeliverData(w.receiverIn[0], ioOk)), receiverIn := w.receiverIn[1..],
         receiverOut := w.receiverOut + replies)
    case Verify(readOk) => w.(net := Next(job, src, w.net, VerifyFile(readOk)))
    case ReceiverStops => w.(net := Next(job, src, w.net, ReceiverLost))
    case SocketsBreak(senderSide) =>
      if senderSide then w.(senderOut := [], senderIn := []) else w.(receiverOut := [], receiverIn := [])
  }

  // ----- what the sockets and buffers carry was sent -----

  ghost predicate AllIn(frames: seq<seq<byte>>, sent: set<seq<byte>>) {
    forall f :: f in frames ==> f in sent
  }

  ghost predicate LaneCarries(s: P.System, me: string, sent: set<seq<byte>>) {
    me in s.lanes ==>
      && AllIn(s.lanes[me].accepted, sent)
      && (s.lanes[me].reading.Filled? ==> s.lanes[me].reading.frame in sent)
  }

  ghost predicate Carried(job: Job, me: string, w: World) {
    && P.Inv(P.Forward, w.dataLanes) && P.Inv(P.Backward, w.ackLanes)
    && LaneCarries(w.dataLanes, me, w.net.forward) && LaneCarries(w.ackLanes, me, w.net.backward)
    && AllIn(w.senderOut, w.net.forward) && AllIn(w.receiverIn, w.net.forward)
    && AllIn(w.receiverOut, w.net.backward) && AllIn(w.senderIn, w.net.backward)
    && RepliesPass(w.net.backward)
  }

  /** Every reply passes the reverse pump and fits its buffer. */
  ghost predicate RepliesPass(backward: set<seq<byte>>) {
    forall f :: f in backward ==> P.Admits(P.Backward, f) && P.Fits(P.Backward, f)
  }

  /** The relay hands out only what it was given, byte for byte. */
  lemma RelayCarries(kind: P.Kind, me: string, s: P.System, step: P.Step, out: seq<seq<byte>>, sent: set<seq<byte>>)
    requires P.Inv(kind, s) && P.CanStep(kind, s, step) && FillsFrom(me, step, out)
    requires LaneCarries(s, me, sent) && AllIn(out, sent)
    ensures P.Inv(kind, P.Next(kind, s, step)) && LaneCarries(P.Next(kind, s, step), me, sent)
    ensures AllIn(AfterFill(me, step, out), sent) && AllIn(Written(kind, me, s, step), sent)
  {
    P.StepKeepsInv(kind, s, step);
    if step.On? && step.session == me {
      ActCarries(kind, s.memory, s.lanes[me], step.action, sent);
      if step.action.Write? {
        HandWasAccepted(kind, s.memory, s.lanes[me]);
      }
    }
  }

  lemma ActCarries(kind: P.Kind, m: P.Memory, l: P.Lane, a: P.Action, sent: set<seq<byte>>)
    requires P.CanAct(kind, m, l, a) && AllIn(l.accepted, sent)
    requires (l.reading.Filled? ==> l.reading.frame in sent) && (a.Fill? ==> a.frame in sent)
    ensures var l' := P.Act(kind, m, l, a).1;
            AllIn(l'.accepted, sent) && (l'.reading.Filled? ==> l'.reading.frame in sent)
  {
  }

  lemma HandWasAccepted(kind: P.Kind, m: P.Memory, l: P.Lane)
    requires P.LaneInv(kind, m, l) && l.writing.Taken?
    ensures l.writing.id in m.cells && P.Content(m.cells[l.writing.id]) in l.accepted
  {
    assert P.Owns(l, l.writing.id);
    assert P.Contents(m, P.InHand(l)) == [P.Content(m.cells[l.writing.id])];
    assert P.Contents(m, P.InHand(l))[0] in l.accepted;
  }

  // ----- one move -----

  /** The step of the abstract transfer that a move is, if any; the relay and lost connections are none. */
  function StepOf(w: World, move: Move): Option<Step>
    requires move.SenderReads? ==> w.senderIn != []
    requires move.ReceiverReads? ==> w.receiverIn != []
  {
    match move
    case SenderActs(step, _) => Some(step)
    case SenderReads(now, _) => Some(DeliverReply(w.senderIn[0], now))
    case ReceiverReads(ioOk) => Some(DeliverData(w.receiverIn[0], ioOk))
    case Verify(readOk) => Some(VerifyFile(readOk))
    case ReceiverStops => Some(ReceiverLost)
    case DataRelay(_) => None
    case AckRelay(_) => None
    case SocketsBreak(_) => None
  }

  lemma MoveIsStep(job: Job, src: seq<seq<byte>>, me: string, w: World, move: Move)
    requires CanMove(job, src, me, w, move) && Carried(job, me, w)
    ensures var step := StepOf(w, move);
            var w' := After(job, src, me, w, move);
            if step.Some? then CanStep(job, w.net, step.value) && w'.net == Next(job, src, w.net, step.value)
            else w'.net == w.net
  {
  }

  lemma SenderSends(job: Job, src: seq<seq<byte>>, n: Net, e: SenderLoop.Event, written: seq<seq<byte>>)
    requires WellSized(job, src, n) && SenderLoop.Enabled(n.sender, e)
    requires WritesOutgoing(job, src, n.sender, e, written)
    ensures var n' := SenderStep(job, src, n, e);
            n.forward <= n'.forward && AllIn(written, n'.forward) && n'.backward == n.backward
  {
    forall f | f in written
      ensures f in SenderStep(job, src, n, e).forward
    {
      var k: nat :| k in Outgoing(n.sender, e) && k < |Chunks(job.offer.items)| && f == FrameOf(job, src, k);
    }
  }

  lemma ReceiverReplies(job: Job, src: seq<seq<byte>>, n: Net, frame: seq<byte>, ioOk: bool)
    requires WellSized(job, src, n) && CanStep(job, n, DeliverData(frame, ioOk)) && RepliesPass(n.backward)
    ensures var n' := Next(job, src, n, DeliverData(frame, ioOk));
            var replies := React(job, n.receiver, Inspect(job.suite, frame), ioOk).1;
            && n'.forward == n.forward && n.backward <= n'.backward && AllIn(replies, n'.backward)
            && RepliesPass(n'.backward)
  {
    var verdict := Inspect(job.suite, frame);
    forall f | f in React(job, n.receiver, verdict, ioOk).1
      ensures P.Admits(P.Backward, f) && P.Fits(P.Backward, f)
    {
      TransferProgress.ReactReplies(job, n.receiver, verdict, ioOk, f);
      ReplyPasses(verdict, f);
    }
  }

  lemma ReplyPasses(verdict: Verdict, f: seq<byte>)
    requires match verdict
             case TooShort => false
             case BadHeader => false
             case BadChecksum(session, item, chunk) => f == Encode(NewReverse(Nack, session, item, chunk))
             case BadTag(session, item, chunk) => f == Encode(NewReverse(Nack, session, item, chunk))
             case Plaintext(h, _) => f == Encode(NewReverse(Ack, h.sessionId, h.itemIndex, h.chunkIndex))
    ensures P.Admits(P.Backward, f) && P.Fits(P.Backward, f)
  {
    match verdict
    case BadChecksum(session, item, chunk) => ReverseFramesFit(Nack, session, item, chunk);
    case BadTag(session, item, chunk) => ReverseFramesFit(Nack, session, item, chunk);
    case Plaintext(h, _) => ReverseFramesFit(Ack, h.sessionId, h.itemIndex, h.chunkIndex);
    case TooShort =>
    case BadHeader =>
  }

  lemma SenderActCarries(job: Job, src: seq<seq<byte>>, me: string, w: World, move: Move)
    requires CanMove(job, src, me, w, move) && Carried(job, me, w) && move.SenderActs?
    ensures Carried(job, me, After(job, src, me, w, move))
  {
    SenderSends(job, src, w.net, EventOf(move.step), move.written);
  }

  lemma SenderReadCarries(job: Job, src: seq<seq<byte>>, me: string, w: World, move: Move)
    requires CanMove(job, src, me, w, move) && Carried(job, me, w) && move.SenderReads?
    ensures Carried(job, me, After(job, src, me, w, move))
  {
    var e := ReplyEvent(job, w.senderIn[0], move.now);
    if e.Some? {
      SenderSends(job, src, w.net, e.value, move.written);
    }
  }

  lemma QuietMoveCarries(job: Job, src: seq<seq<byte>>, me: string, w: World, move: Move)
    requires CanMove(job, src, me, w, move) && Carried(job, me, w)
    requires move.Verify? || move.ReceiverStops? || move.SocketsBreak?
    ensures Carried(job, me, After(job, src, me, w, move))
  {
    SameWires(job, me, w, After(job, src, me, w, move));
  }

  lemma SameWires(job: Job, me: string, w: World, w': World)
    requires Carried(job, me, w) && w'.dataLanes == w.dataLanes && w'.ackLanes == w.ackLanes
    requires w'.net.forward == w.net.forward && w'.net.backward == w.net.backward
    requires w'.senderOut == w.senderOut || w'.senderOut == []
    requires w'.senderIn == w.senderIn || w'.senderIn == []
    requires w'.receiverOut == w.receiverOut || w'.receiverOut == []
    requires w'.receiverIn == w.receiverIn || w'.receiverIn == []
    ensures Carried(job, me, w')
  {
  }

  lemma MoveCarries(job: Job, src: seq<seq<byte>>, me: string, w: World, move: Move)
    requires CanMove(job, src, me, w, move) && Carried(job, me, w)
    ensures Carried(job, me, After(job, src, me, w, move))
  {
    if move.SenderActs? {
      SenderActCarries(job, src, me, w, move);
    } else if move.SenderReads? {
      SenderReadCarries(job, src, me, w, move);
    } else if move.DataRelay? || move.AckRelay? {
      RelayMoveCarries(job, src, me, w, move);
    } else if move.ReceiverReads? {
      ReceiverMoveCarries(job, src, me, w, move);
    } else {
      QuietMoveCarries(job, src, me, w, move);
    }
  }

  lemma RelayMoveCarries(job: Job, src: seq<seq<byte>>, me: string, w: World, move: Move)
    requires CanMove(job, src, me, w, move) && Carried(job, me, w) && (move.DataRelay? || move.AckRelay?)
    ensures Carried(job, me, After(job, src, me, w, move))
  {
    if move.DataRelay? {
      RelayCarries(P.Forward, me, w.dataLanes, move.relayStep, w.senderOut, w.net.forward);
    } else {
      RelayCarries(P.Backward, me, w.ackLanes, move.relayStep, w.receiverOut, w.net.backward);
    }
  }

  lemma ReceiverMoveCarries(job: Job, src: seq<seq<byte>>, me: string, w: World, move: Move)
    requires CanMove(job, src, me, w, move) && Carried(job, me, w) && move.ReceiverReads?
    ensures Carried(job, me, After(job, src, me, w, move))
  {
    ReceiverReplies(job, src, w.net, w.receiverIn[0], move.ioOk);
  }

  // ----- runs -----

  /** The state after a run, or None if some move was not possible; `Carried` always holds, see RunCarries. */
  ghost function RunMoves(job: Job, src: seq<seq<byte>>, metadata: seq<byte>, me: string, moves: seq<Move>)
    : Option<World>
  {
    if moves == [] then Some(Begin(job, metadata))
    else
      var before := RunMoves(job, src, metadata, me, moves[..|moves| - 1]);
      var move := moves[|moves| - 1];
      if before.Some? && CanMove(job, src, me, before.value, move) && Carried(job, me, before.value)
      then Some(After(job, src, me, before.value, move)) else None
  }

  lemma {:induction false} RunCarries(job: Job, src: seq<seq<byte>>, metadata: seq<byte>, me: string, moves: seq<Move>)
    ensures var w := RunMoves(job, src, metadata, me, moves); w.Some? ==> Carried(job, me, w.value)
  {
    if moves == [] {
    } else {
      var before := RunMoves(job, src, metadata, me, moves[..|moves| - 1]);
      var move := moves[|moves| - 1];
      if before.Some? && CanMove(job, src, me, before.value, move) && Carried(job, me, before.value) {
        MoveCarries(job, src, me, before.value, move);
      }
    }
  }

  function Reads(moves: seq<Move>): nat {
    if moves == [] then 0 else Reads(moves[..|moves| - 1]) + if moves[|moves| - 1].Verify? then 1 else 0
  }

  /** The last move of a run that was possible. */
  lemma LastMove(job: Job, src: seq<seq<byte>>, metadata: seq<byte>, me: string, moves: seq<Move>) returns (w: World)
    requires moves != [] && RunMoves(job, src, metadata, me, moves).Some?
    ensures var n := |moves| - 1;
            && RunMoves(job, src, metadata, me, moves[..n]) == Some(w)
            && CanMove(job, src, me, w, moves[n]) && Carried(job, me, w)
            && RunMoves(job, src, metadata, me, moves).value == After(job, src, me, w, moves[n])
  {
    w := RunMoves(job, src, metadata, me, moves[..|moves| - 1]).value;
  }

  lemma OneMoreMove(moves: seq<Move>)
    requires moves != []
    ensures var n := |moves| - 1;
            Verify(false) in moves <==> Verify(false) in moves[..n] || moves[n] == Verify(false)
  {
    assert moves == moves[..|moves| - 1] + [moves[|moves| - 1]];
  }

  /** Every run through the relay is, for sender and receiver, a run of the abstract transfer. */
  lemma {:induction false} ProjectsToTransfer(job: Job, src: seq<seq<byte>>, metadata: seq<byte>, me: string,
                                              moves: seq<Move>)
    returns (steps: seq<Step>)
    requires Setup(job, src) && RunMoves(job, src, metadata, me, moves).Some?
    ensures Run(job, src, metadata, steps) == Some(RunMoves(job, src, metadata, me, moves).value.net)
    ensures (VerifyFile(false) in steps <==> Verify(false) in moves) && Verifications(steps) == Reads(moves)
  {
    if moves == [] {
      steps := [];
    } else {
      var n := |moves| - 1;
      var w := LastMove(job, src, metadata, me, moves);
      steps := ProjectsToTransfer(job, src, metadata, me, moves[..n]);
      OneMoreMove(moves);
      steps := ProjectMove(job, src, metadata, me, w, moves[n], steps);
    }
  }

  /** One move more: the abstract run goes on with its step, if it is one. */
  lemma ProjectMove(job: Job, src: seq<seq<byte>>, metadata: seq<byte>, me: string, w: World, move: Move,
                    steps: seq<Step>)
    returns (longer: seq<Step>)
    requires Setup(job, src) && CanMove(job, src, me, w, move) && Carried(job, me, w)
    requires Run(job, src, metadata, steps) == Some(w.net)
    ensures Run(job, src, metadata, longer) == Some(After(job, src, me, w, move).net)
    ensures VerifyFile(false) in longer <==> VerifyFile(false) in steps || move == Verify(false)
    ensures Verifications(longer) == Verifications(steps) + if move.Verify? then 1 else 0
  {
    MoveIsStep(job, src, me, w, move);
    var step := StepOf(w, move);
    if step.Some? {
      longer := AppendStep(job, src, metadata, steps, step.value);
    } else {
      longer := steps;
    }
  }

  lemma AppendStep(job: Job, src: seq<seq<byte>>, metadata: seq<byte>, steps: seq<Step>, step: Step)
    returns (longer: seq<Step>)
    requires Setup(job, src)
    requires var n := Run(job, src, metadata, steps); n.Some? && CanStep(job, n.value, step)
    ensures Inv(job, src, metadata, Run(job, src, metadata, steps).value)
    ensures Run(job, src, metadata, longer) == Some(Next(job, src, Run(job, src, metadata, steps).value, step))
    ensures VerifyFile(false) in longer <==> VerifyFile(false) in steps || step == VerifyFile(false)
    ensures Verifications(longer) == Verifications(steps) + if step.VerifyFile? then 1 else 0
  {
    RunKeepsInv(job, src, metadata, steps);
    longer := steps + [step];
    assert longer[..|steps|] == steps;
    OneMoreStep(steps, step);
  }

  // ----- the theorems -----

  /**
   End to end through the relay's recycled buffers, with other sessions on the same pools and with handlers and
   connections that end: a complete sender window means what it means without a relay in between.
   */
  lemma CompleteThroughRelay(job: Job, src: seq<seq<byte>>, metadata: seq<byte>, me: string, moves: seq<Move>)
    requires Setup(job, src) && RunMoves(job, src, metadata, me, moves).Some?
    requires Complete(RunMoves(job, src, metadata, me, moves).value.net.sender.window)
    ensures var r := RunMoves(job, src, metadata, me, moves).value.net.receiver;
            var readFailed := Verify(false) in moves;
            && |r.received| == |src| == |job.offer.items| && AllItemsDone(job, r.received)
            && (EqualFiles(job, src, r) <==> !readFailed)
            && (r.phase == Failed <==> readFailed)
            && (r.phase == Completed <==> !readFailed && Reads(moves) == |src|)
  {
    var steps := ProjectsToTransfer(job, src, metadata, me, moves);
    CompleteMeansEqualFiles(job, src, metadata, steps);
  }

  /** The relay's checks stop neither end: what waits for a reading pump of this session is admitted and fits. */
  lemma HonestFramesPass(job: Job, src: seq<seq<byte>>, metadata: seq<byte>, me: string, moves: seq<Move>, f: seq<byte>)
    requires Setup(job, src) && RunMoves(job, src, metadata, me, moves).Some?
    ensures var w := RunMoves(job, src, metadata, me, moves).value;
            && (f in w.senderOut ==> P.Admits(P.Forward, f) && P.Fits(P.Forward, f))
            && (f in w.receiverOut ==> P.Admits(P.Backward, f) && P.Fits(P.Backward, f))
  {
    RunCarries(job, src, metadata, me, moves);
    var steps := ProjectsToTransfer(job, src, metadata, me, moves);
    RunKeepsInv(job, src, metadata, steps);
    var w := RunMoves(job, src, metadata, me, moves).value;
    if f in w.senderOut {
      var k :| 0 <= k < w.net.sender.next && f == FrameOf(job, src, k);
      DataFramePasses(job, src, k);
    }
  }

  lemma DataFramePasses(job: Job, src: seq<seq<byte>>, k: nat)
    requires Setup(job, src) && k < |Chunks(job.offer.items)|
    ensures P.Admits(P.Forward, FrameOf(job, src, k)) && P.Fits(P.Forward, FrameOf(job, src, k))
  {
    ChunkIs(job.offer.items, k);
    var ch := Chunks(job.offer.items)[k];
    var it := job.offer.items[ch.item];
    FramePassesRelay(job.suite, job.session, it.itemIndex, ch.index, it.totalChunks, PieceAt(job, src, k));
  }
}
