/**
 When a transfer can still finish: exactly if neither end gave up and each in-flight chunk has its ACK on the way, or,
 while the receiver still listens, its frame on the way or a retransmission left that does not exhaust its retries.
 */
module TransferProgress {
  import opened Wrappers
  import opened Bytes
  import opened Sets
  import opened BinaryHeader
  import opened Offers
  import opened Framing
  import opened Receiving
  import opened SlidingWindows
  import opened Transfer
  import SenderLoop

  /** Neither end has given up. */
  predicate Going(n: Net) {
    !RetriesExhausted(n.sender.window) && n.receiver.phase != Failed
  }

  ghost predicate Good(job: Job, src: seq<seq<byte>>, metadata: seq<byte>, n: Net) {
    Setup(job, src) && Inv(job, src, metadata, n)
  }

  // ----- continuing a run -----

  /** No damaged frame arrives. */
  predicate Plain(n: Net, step: Step) {
    && (step.DeliverData? ==> step.frame in n.forward)
    && (step.DeliverReply? ==> step.frame in n.backward)
  }

  /** A possible step; `damage` says whether damaged frames may arrive. */
  predicate Allowed(job: Job, n: Net, step: Step, damage: bool) {
    CanStep(job, n, step) && (damage || Plain(n, step))
  }

  ghost function Continue(job: Job, src: seq<seq<byte>>, n: Net, steps: seq<Step>, damage: bool): Option<Net>
    decreases |steps|
  {
    if steps == [] then Some(n)
    else if WellSized(job, src, n) && Allowed(job, n, steps[0], damage) then
      Continue(job, src, Next(job, src, n, steps[0]), steps[1..], damage)
    else None
  }

  ghost predicate Finished(n: Net) {
    Complete(n.sender.window) && n.receiver.phase == Completed
  }

  /** Some continuation delivers everything: the sender is complete and the receiver has verified all files. */
  ghost predicate CanFinish(job: Job, src: seq<seq<byte>>, n: Net, damage: bool) {
    exists steps :: FinishesBy(job, src, n, steps, damage)
  }

  ghost predicate FinishesBy(job: Job, src: seq<seq<byte>>, n: Net, steps: seq<Step>, damage: bool) {
    var end := Continue(job, src, n, steps, damage);
    end.Some? && Finished(end.value)
  }

  lemma StepBack(job: Job, src: seq<seq<byte>>, n: Net, step: Step, damage: bool)
    requires WellSized(job, src, n) && Allowed(job, n, step, damage)
    ensures CanFinish(job, src, Next(job, src, n, step), damage) ==> CanFinish(job, src, n, damage)
  {
    if CanFinish(job, src, Next(job, src, n, step), damage) {
      var steps :| FinishesBy(job, src, Next(job, src, n, step), steps, damage);
      assert ([step] + steps)[1..] == steps;
      assert Continue(job, src, n, [step] + steps, damage) ==
             Continue(job, src, Next(job, src, n, step), steps, damage);
      assert FinishesBy(job, src, n, [step] + steps, damage);
    }
  }

  // ----- which chunk a frame is about -----

  lemma {:induction false} FindIsComplete(items: seq<Item>, item: uint32, chunk: uint32, from: nat, k: nat)
    requires from <= k < |Chunks(items)|
    requires Chunks(items)[k].item < |items| && items[Chunks(items)[k].item].itemIndex == item &&
             Chunks(items)[k].index == chunk
    ensures Find(items, item, chunk, from).Some?
    decreases k - from
  {
    ChunkIs(items, from);
    if from == k {
    } else {
      FindIsComplete(items, item, chunk, from + 1, k);
    }
  }

  lemma FindExact(items: seq<Item>, item: uint32, chunk: uint32, k: nat)
    requires k < |Chunks(items)|
    requires forall i, j :: 0 <= i < j < |items| ==> items[i].itemIndex != items[j].itemIndex
    requires Chunks(items)[k].item < |items| && items[Chunks(items)[k].item].itemIndex == item &&
             Chunks(items)[k].index == chunk
    ensures Find(items, item, chunk, 0) == Some(k)
  {
    ChunkIs(items, k);
    FindIsComplete(items, item, chunk, 0, k);
    FindIsSound(items, item, chunk, 0);
    ChunkIs(items, Find(items, item, chunk, 0).value);
  }

  function ReverseFrame(job: Job, t: ChunkType, i: uint32, c: uint32): seq<byte> {
    Encode(NewReverse(t, job.session, i, c))
  }

  /** The receiver's ACK or NACK of the chunk at position `k` is understood as one of position `k`. */
  lemma ReplyNamesPosition(job: Job, src: seq<seq<byte>>, k: nat, now: nat)
    requires Setup(job, src) && k < |Chunks(job.offer.items)|
    ensures var ch := Chunks(job.offer.items)[k];
            && ch.item < |src| && ch.index < job.offer.items[ch.item].totalChunks
            && k == StartOf(job.offer.items, ch.item) + ch.index
            && ReplyEvent(job, ReverseFrame(job, Ack, ch.item, ch.index), now) == Some(SenderLoop.GotAck(k, now))
            && ReplyEvent(job, ReverseFrame(job, Nack, ch.item, ch.index), now) == Some(SenderLoop.GotNack(k, now))
  {
    var items := job.offer.items;
    ChunkIs(items, k);
    var ch := Chunks(items)[k];
    assert items[ch.item].itemIndex == ch.item;
    AckReadsBack(job.session, ch.item, ch.index);
    FindExact(items, ch.item, ch.index, k);
  }

  /** Frames of different chunks differ. */
  lemma FramesDiffer(job: Job, src: seq<seq<byte>>, j: nat, k: nat)
    requires Setup(job, src) && j < |Chunks(job.offer.items)| && k < |Chunks(job.offer.items)|
    ensures FrameOf(job, src, j) == FrameOf(job, src, k) ==> j == k
  {
    GenuineFrame(job, src, j);
    GenuineFrame(job, src, k);
  }

  // ----- what is on the way -----

  /** An ACK of the chunk at position `k` is on its way to the sender. */
  ghost predicate AckWaits(job: Job, backward: set<seq<byte>>, k: nat) {
    exists f :: f in backward && ReplyEvent(job, f, 0) == Some(SenderLoop.GotAck(k, 0))
  }

  /** Its frame is on the way to a receiver that still listens. */
  ghost predicate FrameWaits(job: Job, src: seq<seq<byte>>, n: Net, k: nat)
    requires |src| == |job.offer.items| && k < |Chunks(job.offer.items)|
  {
    n.receiver.phase == Running && FrameOf(job, src, k) in n.forward
  }

  /** The receiver still listens, and the chunk can be sent again without exhausting its retries. */
  predicate RetryLeft(n: Net, k: nat)
    requires k in n.sender.window.inFlight
  {
    n.receiver.phase == Running && n.sender.window.inFlight[k].retries < MAX_RETRIES - 1
  }

  ghost predicate Waits(job: Job, src: seq<seq<byte>>, n: Net, k: nat)
    requires |src| == |job.offer.items| && k < |Chunks(job.offer.items)|
  {
    AckWaits(job, n.backward, k) || FrameWaits(job, src, n, k)
  }

  ghost predicate InFlightIn(job: Job, src: seq<seq<byte>>, n: Net) {
    && |src| == |job.offer.items|
    && forall k :: k in n.sender.window.inFlight ==> k < |Chunks(job.offer.items)|
  }

  ghost predicate AllWait(job: Job, src: seq<seq<byte>>, n: Net)
    requires InFlightIn(job, src, n)
  {
    forall k :: k in n.sender.window.inFlight ==> Waits(job, src, n, k)
  }

  ghost predicate Hopeful(job: Job, src: seq<seq<byte>>, n: Net)
    requires InFlightIn(job, src, n)
  {
    forall k :: k in n.sender.window.inFlight ==> Waits(job, src, n, k) || RetryLeft(n, k)
  }

  lemma GoodIsSized(job: Job, src: seq<seq<byte>>, metadata: seq<byte>, n: Net)
    requires Good(job, src, metadata, n)
    ensures InFlightIn(job, src, n) && WellSized(job, src, n)
    ensures forall k :: k in n.sender.window.inFlight ==> k < n.sender.next && k !in n.sender.window.acked
  {
  }

  // ----- moves -----

  /** A reply that is an ACK changes the sender and nothing else. */
  lemma AckShape(job: Job, src: seq<seq<byte>>, n: Net, frame: seq<byte>, k: nat)
    requires WellSized(job, src, n) && CanStep(job, n, DeliverReply(frame, 0)) && k < n.sender.window.total
    requires ReplyEvent(job, frame, 0) == Some(SenderLoop.GotAck(k, 0))
    ensures Next(job, src, n, DeliverReply(frame, 0)) ==
            n.(sender := SenderLoop.Apply(n.sender, SenderLoop.GotAck(k, 0)))
  {
    assert Outgoing(n.sender, SenderLoop.GotAck(k, 0)) == {};
    TransmitNothing(job, src, n);
  }

  lemma TransmitNothing(job: Job, src: seq<seq<byte>>, n: Net)
    requires |src| == |job.offer.items|
    ensures Transmit(job, src, n, {}) == n
  {
  }

  lemma TransmitOne(job: Job, src: seq<seq<byte>>, n: Net, k: nat)
    requires |src| == |job.offer.items| && k < |Chunks(job.offer.items)|
    ensures var n' := Transmit(job, src, n, {k});
            && n'.forward == n.forward + {FrameOf(job, src, k)}
            && n'.backward == n.backward && n'.receiver == n.receiver && n'.sender == n.sender
  {
  }

  /** A NACK that is obeyed changes the sender and puts one frame on the way. */
  lemma NackShape(job: Job, src: seq<seq<byte>>, n: Net, frame: seq<byte>, k: nat)
    requires WellSized(job, src, n) && CanStep(job, n, DeliverReply(frame, 0)) && k < n.sender.window.total
    requires ReplyEvent(job, frame, 0) == Some(SenderLoop.GotNack(k, 0)) && NackRetransmits(n.sender.window, k)
    ensures var n' := Next(job, src, n, DeliverReply(frame, 0));
            && n'.sender == SenderLoop.Apply(n.sender, SenderLoop.GotNack(k, 0))
            && n'.forward == n.forward + {FrameOf(job, src, k)}
            && n'.backward == n.backward && n'.receiver == n.receiver
  {
    assert Outgoing(n.sender, SenderLoop.GotNack(k, 0)) == {k};
    TransmitOne(job, src, n, k);
  }

  lemma AckKeepsGoing(w: Window, k: nat, now: nat)
    requires !RetriesExhausted(w)
    ensures !RetriesExhausted(Acked(w, k, now))
  {
  }

  /** The ACK of an in-flight chunk arrives. */
  lemma AckMove(job: Job, src: seq<seq<byte>>, metadata: seq<byte>, n: Net, k: nat) returns (step: Step)
    requires Good(job, src, metadata, n) && Going(n) && !Complete(n.sender.window)
    requires k in n.sender.window.inFlight && AckWaits(job, n.backward, k)
    ensures CanStep(job, n, step) && Plain(n, step)
    ensures var n' := Next(job, src, n, step);
            && Good(job, src, metadata, n') && Going(n')
            && n'.sender.window.acked == n.sender.window.acked + {k} && n'.sender.next == n.sender.next
            && n'.sender.window.inFlight == n.sender.window.inFlight - {k}
            && n'.forward == n.forward && n'.backward == n.backward && n'.receiver == n.receiver
  {
    var frame :| frame in n.backward && ReplyEvent(job, frame, 0) == Some(SenderLoop.GotAck(k, 0));
    step := DeliverReply(frame, 0);
    GoodIsSized(job, src, metadata, n);
    AckShape(job, src, n, frame, k);
    StepKeepsInv(job, src, metadata, n, step);
    AckKeepsGoing(n.sender.window, k, 0);
  }

  /** What a listening receiver does with the frame of a sent chunk: the chunk is stored, and its ACK on the way. */
  lemma StoreMove(job: Job, src: seq<seq<byte>>, metadata: seq<byte>, n: Net, k: nat) returns (step: Step)
    requires Good(job, src, metadata, n) && Going(n) && k < n.sender.next && FrameWaits(job, src, n, k)
    ensures CanStep(job, n, step) && Plain(n, step)
    ensures var n' := Next(job, src, n, step);
            && Good(job, src, metadata, n') && Going(n')
            && n'.sender == n.sender && n'.forward == n.forward && n.backward <= n'.backward
            && AckWaits(job, n'.backward, k)
            && (forall j :: IsReceived(job.offer.items, n'.receiver.received, j) ==>
                  j == k || IsReceived(job.offer.items, n.receiver.received, j))
            && IsReceived(job.offer.items, n'.receiver.received, k)
            && (n'.receiver.phase == Running || AllItemsDone(job, n'.receiver.received))
            && (IsReceived(job.offer.items, n.receiver.received, k) ==> n'.receiver.received == n.receiver.received)
  {
    GenuineFrame(job, src, k);
    var verdict := Inspect(job.suite, FrameOf(job, src, k));
    step := DeliverData(FrameOf(job, src, k), true);
    StepKeepsInv(job, src, metadata, n, step);
    GenuineReaction(job, src, n.receiver, n.sender.next, verdict);
    StoreReceives(job, src, n.receiver.received, k);
    ReplyNamesPosition(job, src, k, 0);
    var ch := Chunks(job.offer.items)[k];
    var replies := React(job, n.receiver, verdict, true).1;
    assert replies[0] == ReverseFrame(job, Ack, ch.item, ch.index) && replies[0] in replies;
  }

  lemma StoreReceives(job: Job, src: seq<seq<byte>>, received: seq<set<nat>>, k: nat)
    requires Setup(job, src) && |received| == |src| && k < |Chunks(job.offer.items)|
    ensures var ch := Chunks(job.offer.items)[k];
            && ch.item < |src|
            && var received' := received[ch.item := received[ch.item] + {ch.index}];
               && (forall j :: IsReceived(job.offer.items, received', j) ==>
                     j == k || IsReceived(job.offer.items, received, j))
               && IsReceived(job.offer.items, received', k)
               && (IsReceived(job.offer.items, received, k) ==> received' == received)
  {
    var items := job.offer.items;
    ChunkIs(items, k);
    var ch := Chunks(items)[k];
    var received' := received[ch.item := received[ch.item] + {ch.index}];
    forall j | IsReceived(items, received', j)
      ensures j == k || IsReceived(items, received, j)
    {
      ChunkIs(items, j);
    }
    assert IsReceived(items, received, k) ==> received[ch.item] + {ch.index} == received[ch.item];
  }

  /** A copy of the chunk's frame with its checksum field damaged. */
  function Damaged(job: Job, src: seq<seq<byte>>, k: nat): seq<byte>
    requires |src| == |job.offer.items| && k < |Chunks(job.offer.items)|
  {
    ChunkIs(job.offer.items, k);
    var ch := Chunks(job.offer.items)[k];
    var it := job.offer.items[ch.item];
    DamagedFrame(job.suite, job.session, it.itemIndex, ch.index, it.totalChunks, PieceAt(job, src, k))
  }

  lemma DamageIsNacked(job: Job, src: seq<seq<byte>>, k: nat)
    requires Setup(job, src) && k < |Chunks(job.offer.items)|
    ensures var ch := Chunks(job.offer.items)[k];
            && ch.item < |src| && ch.index < job.offer.items[ch.item].totalChunks
            && Inspect(job.suite, Damaged(job, src, k)) == BadChecksum(job.session, ch.item, ch.index)
  {
    ChunkIs(job.offer.items, k);
    var ch := Chunks(job.offer.items)[k];
    var it := job.offer.items[ch.item];
    assert it.itemIndex == ch.item;
    DamageIsSeen(job.suite, job.session, it.itemIndex, ch.index, it.totalChunks, PieceAt(job, src, k));
  }

  lemma NackRetries(w: Window, k: nat, now: nat)
    requires !RetriesExhausted(w) && k in w.inFlight && w.inFlight[k].retries < MAX_RETRIES - 1
    ensures !RetriesExhausted(Nacked(w, k, now)) && NackRetransmits(w, k)
    ensures Nacked(w, k, now) == w.(inFlight := Nacked(w, k, now).inFlight)
    ensures Nacked(w, k, now).inFlight.Keys == w.inFlight.Keys
    ensures forall j :: j in w.inFlight && j != k ==> Nacked(w, k, now).inFlight[j] == w.inFlight[j]
  {
  }

  /** A damaged copy reaches the receiver, which asks for the chunk again. */
  lemma DamageMove(job: Job, src: seq<seq<byte>>, metadata: seq<byte>, n: Net, k: nat) returns (step: Step)
    requires Good(job, src, metadata, n) && Going(n) && k in n.sender.window.inFlight && RetryLeft(n, k)
    ensures CanStep(job, n, step)
    ensures var n' := Next(job, src, n, step);
            && Good(job, src, metadata, n') && n'.sender == n.sender && n'.forward == n.forward
            && n.backward <= n'.backward && n'.receiver == n.receiver
            && exists f :: f in n'.backward && ReplyEvent(job, f, 0) == Some(SenderLoop.GotNack(k, 0))
  {
    GoodIsSized(job, src, metadata, n);
    DamageIsNacked(job, src, k);
    ReplyNamesPosition(job, src, k, 0);
    step := DeliverData(Damaged(job, src, k), true);
    StepKeepsInv(job, src, metadata, n, step);
    var ch := Chunks(job.offer.items)[k];
    var replies := React(job, n.receiver, BadChecksum(job.session, ch.item, ch.index), true).1;
    assert replies[0] == ReverseFrame(job, Nack, ch.item, ch.index) && replies[0] in replies;
  }

  /** The sender obeys the NACK: the frame is on the way again. */
  lemma ResendMove(job: Job, src: seq<seq<byte>>, metadata: seq<byte>, n: Net, k: nat) returns (step: Step)
    requires Good(job, src, metadata, n) && Going(n) && k in n.sender.window.inFlight && RetryLeft(n, k)
    requires !Complete(n.sender.window)
    requires exists f :: f in n.backward && ReplyEvent(job, f, 0) == Some(SenderLoop.GotNack(k, 0))
    ensures CanStep(job, n, step)
    ensures Good(job, src, metadata, Next(job, src, n, step))
    ensures Resent(job, src, n, Next(job, src, n, step), k)
  {
    var frame :| frame in n.backward && ReplyEvent(job, frame, 0) == Some(SenderLoop.GotNack(k, 0));
    step := DeliverReply(frame, 0);
    GoodIsSized(job, src, metadata, n);
    ResentShape(job, src, n, frame, k);
    StepKeepsInv(job, src, metadata, n, step);
  }

  lemma ResentShape(job: Job, src: seq<seq<byte>>, n: Net, frame: seq<byte>, k: nat)
    requires WellSized(job, src, n) && CanStep(job, n, DeliverReply(frame, 0)) && k < n.sender.window.total
    requires ReplyEvent(job, frame, 0) == Some(SenderLoop.GotNack(k, 0))
    requires !RetriesExhausted(n.sender.window) && k in n.sender.window.inFlight && RetryLeft(n, k)
    ensures Resent(job, src, n, Next(job, src, n, DeliverReply(frame, 0)), k)
  {
    NackRetries(n.sender.window, k, 0);
    NackShape(job, src, n, frame, k);
  }

  /** The chunk was retransmitted and nothing else happened. */
  ghost predicate Resent(job: Job, src: seq<seq<byte>>, n: Net, n': Net, k: nat) {
    && |src| == |job.offer.items| && k < |Chunks(job.offer.items)|
    && !RetriesExhausted(n'.sender.window) && n'.receiver == n.receiver && n'.backward == n.backward
    && n'.forward == n.forward + {FrameOf(job, src, k)}
    && n'.sender.window == n.sender.window.(inFlight := n'.sender.window.inFlight)
    && n'.sender.window.inFlight.Keys == n.sender.window.inFlight.Keys
    && n'.sender.next == n.sender.next
    && (forall j :: j in n.sender.window.inFlight && j != k ==>
          n'.sender.window.inFlight[j] == n.sender.window.inFlight[j])
  }

  lemma SomethingMissing(job: Job, src: seq<seq<byte>>, metadata: seq<byte>, n: Net, k: nat)
    requires Good(job, src, metadata, n) && k < |Chunks(job.offer.items)|
    requires !IsReceived(job.offer.items, n.receiver.received, k)
    ensures !AllItemsDone(job, n.receiver.received)
  {
    ChunkIs(job.offer.items, k);
    var ch := Chunks(job.offer.items)[k];
    if AllItemsDone(job, n.receiver.received) {
      BelowSize(n.receiver.received[ch.item], job.offer.items[ch.item].totalChunks);
    }
  }

  /** The next chunk is sent for the first time. */
  lemma SendMove(job: Job, src: seq<seq<byte>>, metadata: seq<byte>, n: Net) returns (step: Step)
    requires Good(job, src, metadata, n) && Going(n) && !Complete(n.sender.window)
    requires n.sender.window.inFlight == map[]
    ensures CanStep(job, n, step) && Plain(n, step)
    ensures var n' := Next(job, src, n, step);
            && Good(job, src, metadata, n') && Going(n') && InFlightIn(job, src, n') && AllWait(job, src, n')
            && n'.sender.window.acked == n.sender.window.acked && n'.sender.next == n.sender.next + 1
  {
    forall k | k in n.sender.window.acked
      ensures k < n.sender.next
    {
      assert IsReceived(job.offer.items, n.receiver.received, k);
      ChunkIs(job.offer.items, k);
    }
    NoDeadlock(n.sender.window, n.sender.next);
    step := SendChunk(0);
    StepKeepsInv(job, src, metadata, n, step);
    GoodIsSized(job, src, metadata, Next(job, src, n, step));
    NextIsMissing(job, src, metadata, n);
    TransmitOne(job, src, n, n.sender.next);
  }

  lemma NextIsMissing(job: Job, src: seq<seq<byte>>, metadata: seq<byte>, n: Net)
    requires Good(job, src, metadata, n) && n.sender.next < |Chunks(job.offer.items)| && n.receiver.phase != Failed
    ensures n.receiver.phase == Running
  {
    ChunkIs(job.offer.items, n.sender.next);
    SomethingMissing(job, src, metadata, n, n.sender.next);
  }

  /** One more file is read back and passes. */
  lemma VerifyMove(job: Job, src: seq<seq<byte>>, metadata: seq<byte>, n: Net, damage: bool) returns (n': Net)
    requires Good(job, src, metadata, n) && n.receiver.phase.Verifying?
    ensures Good(job, src, metadata, n') && n'.sender == n.sender
    ensures n'.receiver.phase == Completed || n'.receiver.phase == Verifying(n.receiver.phase.checked + 1)
    ensures CanFinish(job, src, n', damage) ==> CanFinish(job, src, n, damage)
  {
    var step := VerifyFile(true);
    VerifyPasses(job, src, n.receiver);
    StepKeepsInv(job, src, metadata, n, step);
    n' := Next(job, src, n, step);
    StepBack(job, src, n, step, damage);
  }

  lemma {:induction false} VerifyingFinishes(job: Job, src: seq<seq<byte>>, metadata: seq<byte>, n: Net, damage: bool)
    requires Good(job, src, metadata, n) && Complete(n.sender.window)
    requires n.receiver.phase.Verifying? || n.receiver.phase == Completed
    ensures CanFinish(job, src, n, damage)
    decreases if n.receiver.phase.Verifying? then 1 else 0,
              if n.receiver.phase.Verifying? then |src| - n.receiver.phase.checked else 0
  {
    if n.receiver.phase == Completed {
      assert FinishesBy(job, src, n, [], damage);
    } else {
      var n' := VerifyMove(job, src, metadata, n, damage);
      VerifyingFinishes(job, src, metadata, n', damage);
    }
  }

  // ----- what is on the way is enough -----

  /** One more chunk gets acknowledged, and what the others wait for stays on the way. */
  lemma AckOne(job: Job, src: seq<seq<byte>>, metadata: seq<byte>, n: Net, damage: bool) returns (n': Net, k: nat)
    requires Good(job, src, metadata, n) && Going(n) && !Complete(n.sender.window)
    requires InFlightIn(job, src, n) && AllWait(job, src, n) && n.sender.window.inFlight != map[]
    ensures Good(job, src, metadata, n') && Going(n') && InFlightIn(job, src, n') && AllWait(job, src, n')
    ensures k in n.sender.window.inFlight && n'.sender.next == n.sender.next
    ensures n'.sender.window.acked == n.sender.window.acked + {k}
    ensures CanFinish(job, src, n', damage) ==> CanFinish(job, src, n, damage)
  {
    GoodIsSized(job, src, metadata, n);
    var m;
    m, k := GetAck(job, src, metadata, n, damage);
    var step := AckMove(job, src, metadata, m, k);
    GoodIsSized(job, src, metadata, m);
    n' := Next(job, src, m, step);
    GoodIsSized(job, src, metadata, n');
    StepBack(job, src, m, step, damage);
    forall j | j in n'.sender.window.inFlight
      ensures Waits(job, src, n', j)
    {
      assert Waits(job, src, m, j);
    }
  }

  /** An ACK gets on the way: one already is, or the receiver stores a chunk, those it has already first. */
  lemma GetAck(job: Job, src: seq<seq<byte>>, metadata: seq<byte>, n: Net, damage: bool) returns (m: Net, k: nat)
    requires Good(job, src, metadata, n) && Going(n)
    requires InFlightIn(job, src, n) && AllWait(job, src, n) && n.sender.window.inFlight != map[]
    ensures Good(job, src, metadata, m) && Going(m) && InFlightIn(job, src, m) && AllWait(job, src, m)
    ensures m.sender == n.sender && k in n.sender.window.inFlight && AckWaits(job, m.backward, k)
    ensures CanFinish(job, src, m, damage) ==> CanFinish(job, src, n, damage)
  {
    if j :| j in n.sender.window.inFlight && AckWaits(job, n.backward, j) {
      m, k := n, j;
    } else {
      k := Choose(job, src, metadata, n);
      GoodIsSized(job, src, metadata, n);
      assert Waits(job, src, n, k);
      var step := StoreMove(job, src, metadata, n, k);
      m := Next(job, src, n, step);
      StepBack(job, src, n, step, damage);
      GoodIsSized(job, src, metadata, m);
      forall j | j in m.sender.window.inFlight
        ensures Waits(job, src, m, j)
      {
        assert Waits(job, src, n, j);
        StoreLeavesWaiting(job, src, metadata, n, m, k, j);
      }
    }
  }

  /** An in-flight chunk that the receiver has stored, if there is one, else any. */
  lemma Choose(job: Job, src: seq<seq<byte>>, metadata: seq<byte>, n: Net) returns (k: nat)
    requires Good(job, src, metadata, n) && n.sender.window.inFlight != map[]
    ensures k in n.sender.window.inFlight
    ensures IsReceived(job.offer.items, n.receiver.received, k) ||
            forall j :: j in n.sender.window.inFlight ==> !IsReceived(job.offer.items, n.receiver.received, j)
  {
    if j :| j in n.sender.window.inFlight && IsReceived(job.offer.items, n.receiver.received, j) {
      k := j;
    } else {
      assert n.sender.window.inFlight.Keys != {};
      k :| k in n.sender.window.inFlight.Keys;
    }
  }

  /** Storing the chosen chunk ends the receiving phase only if no other in-flight chunk needs it. */
  lemma StoreLeavesWaiting(job: Job, src: seq<seq<byte>>, metadata: seq<byte>, n: Net, m: Net, k: nat, j: nat)
    requires Good(job, src, metadata, n) && Good(job, src, metadata, m) && m.sender == n.sender
    requires k in n.sender.window.inFlight && j in n.sender.window.inFlight
    requires k < |Chunks(job.offer.items)| && j < |Chunks(job.offer.items)|
    requires FrameWaits(job, src, n, j) && m.forward == n.forward && AckWaits(job, m.backward, k)
    requires IsReceived(job.offer.items, n.receiver.received, k) ||
             !IsReceived(job.offer.items, n.receiver.received, j)
    requires m.receiver.phase == Running || AllItemsDone(job, m.receiver.received)
    requires IsReceived(job.offer.items, m.receiver.received, j) ==>
             j == k || IsReceived(job.offer.items, n.receiver.received, j)
    requires IsReceived(job.offer.items, n.receiver.received, k) ==> m.receiver.received == n.receiver.received
    ensures Waits(job, src, m, j)
  {
    if j != k && m.receiver.phase != Running {
      if !IsReceived(job.offer.items, m.receiver.received, j) {
        SomethingMissing(job, src, metadata, m, j);
      }
    }
  }

  lemma AckCounts(total: nat, next: nat, w: Window, w': Window, k: nat)
    requires Tracks(w, next) && Tracks(w', next) && w.total == w'.total == total
    requires k in w.inFlight && w'.acked == w.acked + {k}
    ensures |w.acked| < |w'.acked| <= total
  {
    BelowSize(w'.acked, total);
  }

  /** If each in-flight chunk has its ACK or its frame on the way, deliveries and first sends finish the transfer. */
  lemma {:induction false} AllWaitFinishes(job: Job, src: seq<seq<byte>>, metadata: seq<byte>, n: Net, damage: bool)
    requires Good(job, src, metadata, n) && Going(n) && InFlightIn(job, src, n) && AllWait(job, src, n)
    ensures CanFinish(job, src, n, damage)
    decreases |Chunks(job.offer.items)| - |n.sender.window.acked|, |Chunks(job.offer.items)| - n.sender.next
  {
    if Complete(n.sender.window) {
      EverythingAckedIsDone(job, src, metadata, n);
      VerifyingFinishes(job, src, metadata, n, damage);
    } else if n.sender.window.inFlight == map[] {
      var step := SendMove(job, src, metadata, n);
      StepBack(job, src, n, step, damage);
      AllWaitFinishes(job, src, metadata, Next(job, src, n, step), damage);
    } else {
      var n', k := AckOne(job, src, metadata, n, damage);
      AckCounts(|Chunks(job.offer.items)|, n.sender.next, n.sender.window, n'.sender.window, k);
      AllWaitFinishes(job, src, metadata, n', damage);
    }
  }

  // ----- retransmission makes up for what was lost -----

  ghost function Missing(job: Job, src: seq<seq<byte>>, n: Net): set<nat>
    requires InFlightIn(job, src, n)
  {
    set k | k in n.sender.window.inFlight.Keys && !Waits(job, src, n, k)
  }

  /** A chunk of which nothing is on the way is sent again. */
  lemma RepairOne(job: Job, src: seq<seq<byte>>, metadata: seq<byte>, n: Net, k: nat) returns (n': Net)
    requires Good(job, src, metadata, n) && Going(n) && InFlightIn(job, src, n) && Hopeful(job, src, n)
    requires k in Missing(job, src, n)
    ensures Good(job, src, metadata, n') && Going(n') && InFlightIn(job, src, n') && Hopeful(job, src, n')
    ensures Missing(job, src, n') < Missing(job, src, n)
    ensures CanFinish(job, src, n', true) ==> CanFinish(job, src, n, true)
  {
    GoodIsSized(job, src, metadata, n);
    var damaged := DamageMove(job, src, metadata, n, k);
    var m := Next(job, src, n, damaged);
    StepBack(job, src, n, damaged, true);
    var resend := ResendMove(job, src, metadata, m, k);
    n' := Next(job, src, m, resend);
    StepBack(job, src, m, resend, true);
    GoodIsSized(job, src, metadata, n');
    ResentKeepsHope(job, src, n, m, n', k);
  }

  lemma ResentKeepsHope(job: Job, src: seq<seq<byte>>, n: Net, m: Net, n': Net, k: nat)
    requires InFlightIn(job, src, n) && InFlightIn(job, src, n') && Hopeful(job, src, n) && k in Missing(job, src, n)
    requires m.sender == n.sender && m.forward == n.forward && m.receiver == n.receiver && n.backward <= m.backward
    requires RetryLeft(n, k) && Resent(job, src, m, n', k)
    ensures Hopeful(job, src, n') && Missing(job, src, n') < Missing(job, src, n)
  {
    assert Waits(job, src, n', k);
    forall j | j in n.sender.window.inFlight && j != k
      ensures Waits(job, src, n, j) ==> Waits(job, src, n', j)
      ensures RetryLeft(n, j) ==> RetryLeft(n', j)
    {
      assert n'.sender.window.inFlight[j] == n.sender.window.inFlight[j];
    }
    assert n'.sender.window.inFlight.Keys == n.sender.window.inFlight.Keys;
    assert k !in Missing(job, src, n');
  }

  lemma {:induction false} HopefulFinishes(job: Job, src: seq<seq<byte>>, metadata: seq<byte>, n: Net)
    requires Good(job, src, metadata, n) && Going(n) && InFlightIn(job, src, n) && Hopeful(job, src, n)
    ensures CanFinish(job, src, n, true)
    decreases Missing(job, src, n)
  {
    if Missing(job, src, n) == {} {
      assert forall k :: k in n.sender.window.inFlight ==> k !in Missing(job, src, n);
      AllWaitFinishes(job, src, metadata, n, true);
    } else {
      var k :| k in Missing(job, src, n);
      var n' := RepairOne(job, src, metadata, n, k);
      HopefulFinishes(job, src, metadata, n');
    }
  }

  // ----- what is lost for good -----

  /** Nothing of the chunk is on the way and no retransmission is left that would not exhaust its retries. */
  ghost predicate Trapped(job: Job, src: seq<seq<byte>>, n: Net, k: nat)
    requires InFlightIn(job, src, n)
  {
    k in n.sender.window.inFlight && !Waits(job, src, n, k) && !RetryLeft(n, k)
  }

  ghost predicate Hopeless(job: Job, src: seq<seq<byte>>, n: Net) {
    && InFlightIn(job, src, n)
    && (n.receiver.phase == Failed
        || (RetriesExhausted(n.sender.window) && !Complete(n.sender.window))
        || exists k :: Trapped(job, src, n, k))
  }

  /** What a sender's event does to a chunk in flight that it does not acknowledge. */
  lemma EventKeepsInFlight(s: SenderLoop.Sender, e: SenderLoop.Event, k: nat)
    requires SenderLoop.Inv(s) && SenderLoop.Enabled(s, e) && k in s.window.inFlight
    requires e.GotAck? ==> e.pos != k
    ensures var w := SenderLoop.Apply(s, e).window;
            && k in w.inFlight && w.inFlight[k].retries >= s.window.inFlight[k].retries
            && (k in Outgoing(s, e) ==> w.inFlight[k].retries > s.window.inFlight[k].retries)
            && !Complete(w)
  {
    SenderLoop.StepKeepsInv(s, e);
  }

  lemma TransmittedFrames(job: Job, src: seq<seq<byte>>, n: Net, ks: set<nat>, k: nat)
    requires Setup(job, src) && k < |Chunks(job.offer.items)| && k !in ks
    requires forall j :: j in ks ==> j < |Chunks(job.offer.items)|
    requires FrameOf(job, src, k) !in n.forward
    ensures FrameOf(job, src, k) !in Transmit(job, src, n, ks).forward
  {
    forall j | j in ks
      ensures FrameOf(job, src, j) != FrameOf(job, src, k)
    {
      FramesDiffer(job, src, j, k);
    }
  }

  lemma SenderStepTrapped(job: Job, src: seq<seq<byte>>, n: Net, e: SenderLoop.Event, k: nat)
    requires Setup(job, src) && WellSized(job, src, n) && SenderLoop.Enabled(n.sender, e)
    requires InFlightIn(job, src, n) && Trapped(job, src, n, k) && (e.GotAck? ==> e.pos != k)
    requires InFlightIn(job, src, SenderStep(job, src, n, e))
    ensures Hopeless(job, src, SenderStep(job, src, n, e))
  {
    EventKeepsInFlight(n.sender, e, k);
    OutgoingWasSent(n.sender, e);
    var n' := SenderStep(job, src, n, e);
    if n.receiver.phase == Running && k in Outgoing(n.sender, e) {
      assert n'.sender.window.inFlight[k].retries >= MAX_RETRIES;
      assert RetriesExhausted(n'.sender.window);
    } else {
      if k !in Outgoing(n.sender, e) && FrameOf(job, src, k) !in n.forward {
        TransmittedFrames(job, src, n, Outgoing(n.sender, e), k);
      }
      assert Trapped(job, src, n', k);
    }
  }

  /** No reply the receiver gives on a delivery is an ACK of a chunk whose frame did not arrive. */
  lemma DeliveryTrapped(job: Job, src: seq<seq<byte>>, metadata: seq<byte>, n: Net, frame: seq<byte>, ioOk: bool,
                        k: nat)
    requires Good(job, src, metadata, n) && CanStep(job, n, DeliverData(frame, ioOk))
    requires InFlightIn(job, src, n) && Trapped(job, src, n, k)
    ensures var n' := Next(job, src, n, DeliverData(frame, ioOk));
            n'.sender == n.sender && n'.forward == n.forward &&
            (n'.receiver.phase == Failed || !AckWaits(job, n'.backward, k))
  {
    var verdict := Inspect(job.suite, frame);
    var (r, replies) := React(job, n.receiver, verdict, ioOk);
    if r.phase != Failed {
      forall f | f in replies
        ensures ReplyEvent(job, f, 0) != Some(SenderLoop.GotAck(k, 0))
      {
        ReplyIsNotAck(job, src, metadata, n, frame, ioOk, k, f);
      }
    }
  }

  /** What the receiver sends in answer to a message. */
  lemma ReactReplies(job: Job, r: Receiver, verdict: Verdict, ioOk: bool, f: seq<byte>)
    requires |r.received| == |job.offer.items| && f in React(job, r, verdict, ioOk).1
    ensures match verdict
            case TooShort => false
            case BadHeader => false
            case BadChecksum(session, item, chunk) => f == Encode(NewReverse(Nack, session, item, chunk))
            case BadTag(session, item, chunk) => f == Encode(NewReverse(Nack, session, item, chunk))
            case Plaintext(h, _) => f == Encode(NewReverse(Ack, h.sessionId, h.itemIndex, h.chunkIndex))
  {
  }

  lemma AckIsOfDelivered(job: Job, src: seq<seq<byte>>, r: Receiver, ioOk: bool, j: nat, f: seq<byte>)
    requires Setup(job, src) && j < |Chunks(job.offer.items)| && |r.received| == |src|
    requires f in React(job, r, Inspect(job.suite, FrameOf(job, src, j)), ioOk).1
    ensures ReplyEvent(job, f, 0) == Some(SenderLoop.GotAck(j, 0))
  {
    ReactReplies(job, r, Inspect(job.suite, FrameOf(job, src, j)), ioOk, f);
    GenuineFrame(job, src, j);
    ReplyNamesPosition(job, src, j, 0);
  }

  lemma NackIsNoAck(job: Job, session: Block16, item: uint32, chunk: uint32, k: nat)
    ensures ReplyEvent(job, Encode(NewReverse(Nack, session, item, chunk)), 0) != Some(SenderLoop.GotAck(k, 0))
  {
    AckReadsBack(session, item, chunk);
  }

  lemma ReplyIsNotAck(job: Job, src: seq<seq<byte>>, metadata: seq<byte>, n: Net, frame: seq<byte>, ioOk: bool, k: nat,
                      f: seq<byte>)
    requires Good(job, src, metadata, n) && CanStep(job, n, DeliverData(frame, ioOk))
    requires InFlightIn(job, src, n) && k < |Chunks(job.offer.items)| && !FrameWaits(job, src, n, k)
    requires f in React(job, n.receiver, Inspect(job.suite, frame), ioOk).1
    ensures ReplyEvent(job, f, 0) != Some(SenderLoop.GotAck(k, 0))
  {
    if frame in n.forward {
      var j :| 0 <= j < n.sender.next && frame == FrameOf(job, src, j);
      AckIsOfDelivered(job, src, n.receiver, ioOk, j, f);
    } else {
      var verdict := Inspect(job.suite, frame);
      ReactReplies(job, n.receiver, verdict, ioOk, f);
      NackIsNoAck(job, verdict.session, verdict.item, verdict.chunk, k);
    }
  }

  lemma ReplyIsTimeless(job: Job, frame: seq<byte>, now: nat, k: nat)
    ensures ReplyEvent(job, frame, now) == Some(SenderLoop.GotAck(k, now)) <==>
            ReplyEvent(job, frame, 0) == Some(SenderLoop.GotAck(k, 0))
  {
  }

  lemma ReplyStepTrapped(job: Job, src: seq<seq<byte>>, n: Net, frame: seq<byte>, now: nat, k: nat)
    requires Setup(job, src) && WellSized(job, src, n) && CanStep(job, n, DeliverReply(frame, now))
    requires InFlightIn(job, src, n) && Trapped(job, src, n, k)
    requires InFlightIn(job, src, Next(job, src, n, DeliverReply(frame, now)))
    ensures Hopeless(job, src, Next(job, src, n, DeliverReply(frame, now)))
  {
    var e := ReplyEvent(job, frame, now);
    if e.None? {
      assert Trapped(job, src, Next(job, src, n, DeliverReply(frame, now)), k);
    } else {
      ReplyIsTimeless(job, frame, now, k);
      SenderStepTrapped(job, src, n, e.value, k);
    }
  }

  lemma TrappedStays(job: Job, src: seq<seq<byte>>, metadata: seq<byte>, n: Net, step: Step, k: nat)
    requires Good(job, src, metadata, n) && CanStep(job, n, step)
    requires InFlightIn(job, src, n) && Trapped(job, src, n, k)
    requires InFlightIn(job, src, Next(job, src, n, step))
    ensures Hopeless(job, src, Next(job, src, n, step))
  {
    var n' := Next(job, src, n, step);
    match step
    case SendChunk(now) => SenderStepTrapped(job, src, n, SenderLoop.Send(now), k);
    case TimerTick(now) => SenderStepTrapped(job, src, n, SenderLoop.Tick(now), k);
    case DeliverReply(frame, now) => ReplyStepTrapped(job, src, n, frame, now, k);
    case DeliverData(frame, ioOk) =>
      DeliveryTrapped(job, src, metadata, n, frame, ioOk, k);
      assert n'.receiver.phase != Failed ==> Trapped(job, src, n', k);
    case DropData(frame) => assert Trapped(job, src, n', k);
    case DropReply(frame) => assert Trapped(job, src, n', k);
    case VerifyFile(readOk) => assert n'.receiver.phase != Failed ==> Trapped(job, src, n', k);
    case ReceiverLost =>
  }

  lemma HopelessStays(job: Job, src: seq<seq<byte>>, metadata: seq<byte>, n: Net, step: Step)
    requires Good(job, src, metadata, n) && CanStep(job, n, step) && Hopeless(job, src, n)
    ensures Good(job, src, metadata, Next(job, src, n, step)) && Hopeless(job, src, Next(job, src, n, step))
  {
    StepKeepsInv(job, src, metadata, n, step);
    GoodIsSized(job, src, metadata, Next(job, src, n, step));
    if k :| Trapped(job, src, n, k) {
      TrappedStays(job, src, metadata, n, step, k);
    } else if RetriesExhausted(n.sender.window) && !Complete(n.sender.window) {
      assert Next(job, src, n, step).sender == n.sender;
    } else {
      FailedStays(job, src, n, step);
    }
  }

  lemma FailedStays(job: Job, src: seq<seq<byte>>, n: Net, step: Step)
    requires WellSized(job, src, n) && CanStep(job, n, step) && n.receiver.phase == Failed
    ensures Next(job, src, n, step).receiver.phase == Failed
  {
  }

  lemma {:induction false} HopelessNeverFinishes(job: Job, src: seq<seq<byte>>, metadata: seq<byte>, n: Net,
                                                 steps: seq<Step>, damage: bool)
    requires Good(job, src, metadata, n) && Hopeless(job, src, n)
    ensures !FinishesBy(job, src, n, steps, damage)
    decreases |steps|
  {
    if steps == [] {
      if k :| Trapped(job, src, n, k) {
        EventuallyIncomplete(job, src, metadata, n, k);
      }
    } else if Allowed(job, n, steps[0], damage) {
      HopelessStays(job, src, metadata, n, steps[0]);
      HopelessNeverFinishes(job, src, metadata, Next(job, src, n, steps[0]), steps[1..], damage);
    }
  }

  lemma EventuallyIncomplete(job: Job, src: seq<seq<byte>>, metadata: seq<byte>, n: Net, k: nat)
    requires Good(job, src, metadata, n) && k in n.sender.window.inFlight
    ensures !Complete(n.sender.window)
  {
  }

  // ----- the theorems -----

  /**
   Exactly when a transfer can still finish: neither end has given up, and each in-flight chunk has its ACK on the way
   or, while the receiver listens, its frame on the way or fewer than four retransmissions behind it.
   */
  lemma CanFinishExactly(job: Job, src: seq<seq<byte>>, metadata: seq<byte>, run: seq<Step>)
    requires Setup(job, src)
    requires Run(job, src, metadata, run).Some?
    ensures var n := Run(job, src, metadata, run).value;
            InFlightIn(job, src, n) && (CanFinish(job, src, n, true) <==> Going(n) && Hopeful(job, src, n))
  {
    RunKeepsInv(job, src, metadata, run);
    CanFinishIff(job, src, metadata, Run(job, src, metadata, run).value);
  }

  lemma CanFinishIff(job: Job, src: seq<seq<byte>>, metadata: seq<byte>, n: Net)
    requires Good(job, src, metadata, n)
    ensures InFlightIn(job, src, n) && (CanFinish(job, src, n, true) <==> Going(n) && Hopeful(job, src, n))
  {
    GoodIsSized(job, src, metadata, n);
    if Going(n) && Hopeful(job, src, n) {
      HopefulFinishes(job, src, metadata, n);
    } else {
      NotHopefulIsHopeless(job, src, metadata, n);
      forall steps
        ensures !FinishesBy(job, src, n, steps, true)
      {
        HopelessNeverFinishes(job, src, metadata, n, steps, true);
      }
    }
  }

  lemma NotHopefulIsHopeless(job: Job, src: seq<seq<byte>>, metadata: seq<byte>, n: Net)
    requires Good(job, src, metadata, n) && InFlightIn(job, src, n) && !(Going(n) && Hopeful(job, src, n))
    ensures Hopeless(job, src, n)
  {
    if RetriesExhausted(n.sender.window) {
      var k :| k in n.sender.window.inFlight;
      EventuallyIncomplete(job, src, metadata, n, k);
    } else if n.receiver.phase != Failed {
      var k :| k in n.sender.window.inFlight && !(Waits(job, src, n, k) || RetryLeft(n, k));
      assert Trapped(job, src, n, k);
    }
  }

  // ----- timeouts alone -----

  /** A time at which everything in flight is late. */
  lemma {:induction false} LateTime(w: Window, ks: set<nat>) returns (now: nat)
    requires ks <= w.inFlight.Keys
    ensures forall k :: k in ks ==> Late(w, k, now)
    decreases ks
  {
    if ks == {} {
      now := 0;
    } else {
      var k :| k in ks;
      var earlier := LateTime(w, ks - {k});
      now := earlier + w.inFlight[k].sentAt + w.rtt.rto + 1;
      assert forall j :: j in ks ==> j == k || j in ks - {k};
    }
  }

  lemma TickRetries(w: Window, now: nat)
    requires forall k :: k in w.inFlight ==> Late(w, k, now) && w.inFlight[k].retries < MAX_RETRIES - 1
    ensures Retransmits(w, now) == w.inFlight.Keys && !RetriesExhausted(TimedOut(w, now))
    ensures TimedOut(w, now).inFlight.Keys == w.inFlight.Keys
  {
    assert forall k :: k in w.inFlight <==> k in Retransmits(w, now);
  }

  /** A timeout puts every in-flight frame on the way again. */
  lemma TickMove(job: Job, src: seq<seq<byte>>, metadata: seq<byte>, n: Net) returns (step: Step)
    requires Good(job, src, metadata, n) && Going(n) && !Complete(n.sender.window)
    requires forall k :: k in n.sender.window.inFlight ==> RetryLeft(n, k)
    ensures CanStep(job, n, step) && Plain(n, step)
    ensures var n' := Next(job, src, n, step);
            Good(job, src, metadata, n') && Going(n') && InFlightIn(job, src, n') && AllWait(job, src, n')
  {
    var w := n.sender.window;
    var now := LateTime(w, w.inFlight.Keys);
    step := TimerTick(now);
    TickRetries(w, now);
    StepKeepsInv(job, src, metadata, n, step);
    GoodIsSized(job, src, metadata, Next(job, src, n, step));
    AllSentAgain(job, src, n, now);
  }

  lemma AllSentAgain(job: Job, src: seq<seq<byte>>, n: Net, now: nat)
    requires WellSized(job, src, n) && CanStep(job, n, TimerTick(now))
    requires forall k :: k in n.sender.window.inFlight ==> RetryLeft(n, k) && k in Retransmits(n.sender.window, now)
    ensures forall k :: k in n.sender.window.inFlight ==>
              k < |Chunks(job.offer.items)| && FrameWaits(job, src, Next(job, src, n, TimerTick(now)), k)
  {
    forall k | k in n.sender.window.inFlight
      ensures k < |Chunks(job.offer.items)| && FrameWaits(job, src, Next(job, src, n, TimerTick(now)), k)
    {
      assert k in Outgoing(n.sender, SenderLoop.Tick(now)) && RetryLeft(n, k);
    }
  }

  /**
   Whatever was lost, timeouts without any damaged frame finish the transfer as long as each in-flight chunk has its ACK
   on the way or, while the receiver listens, fewer than four retransmissions behind it.
   */
  lemma {:induction false} TimeoutsSuffice(job: Job, src: seq<seq<byte>>, metadata: seq<byte>, n: Net)
    requires Good(job, src, metadata, n) && Going(n)
    requires forall k :: k in n.sender.window.inFlight ==> AckWaits(job, n.backward, k) || RetryLeft(n, k)
    ensures CanFinish(job, src, n, false)
    decreases |Chunks(job.offer.items)| - |n.sender.window.acked|
  {
    GoodIsSized(job, src, metadata, n);
    if Complete(n.sender.window) {
      assert forall k :: k in n.sender.window.inFlight ==> k in n.sender.window.acked;
      AllWaitFinishes(job, src, metadata, n, false);
    } else if k :| k in n.sender.window.inFlight && AckWaits(job, n.backward, k) {
      var step := AckMove(job, src, metadata, n, k);
      var n' := Next(job, src, n, step);
      StepBack(job, src, n, step, false);
      AckCounts(|Chunks(job.offer.items)|, n.sender.next, n.sender.window, n'.sender.window, k);
      TimeoutsSuffice(job, src, metadata, n');
    } else {
      var step := TickMove(job, src, metadata, n);
      StepBack(job, src, n, step, false);
      AllWaitFinishes(job, src, metadata, Next(job, src, n, step), false);
    }
  }
}
