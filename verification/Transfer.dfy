/**
 One transfer end to end: the sender's loop, a channel each way that may drop, repeat and reorder frames and
 may deliver damaged ones the checks reject, and the receiver's files.
 */
module Transfer {
  import opened Wrappers
  import opened Bytes
  import opened Sets
  import opened BinaryHeader
  import opened ChunkPlan
  import opened Offers
  import opened E2ee
  import opened Framing
  import opened Receiving
  import opened SlidingWindows
  import SenderLoop

  // ----- the sender's chunk list -----

  datatype Chunk = Chunk(item: nat, index: nat)

  function ItemChunks(item: nat, n: nat): seq<Chunk> {
    seq(n, c requires 0 <= c < n => Chunk(item, c))
  }

  /** All chunks of all items, in order. */
  function Chunks(items: seq<Item>): seq<Chunk> {
    if items == [] then []
    else
      var last := |items| - 1;
      Chunks(items[..last]) + ItemChunks(last, items[last].totalChunks)
  }

  /** The position of an item's first chunk. */
  function StartOf(items: seq<Item>, i: nat): nat
    requires i <= |items|
  {
    |Chunks(items[..i])|
  }

  lemma {:induction false} ChunkAt(items: seq<Item>, i: nat, c: nat)
    requires i < |items| && c < items[i].totalChunks
    ensures StartOf(items, i) + c < |Chunks(items)| && Chunks(items)[StartOf(items, i) + c] == Chunk(i, c)
  {
    var last := |items| - 1;
    if i < last {
      ChunkAt(items[..last], i, c);
      assert items[..last][..i] == items[..i];
    }
  }

  lemma {:induction false} ChunkIs(items: seq<Item>, k: nat)
    requires k < |Chunks(items)|
    ensures var ch := Chunks(items)[k];
            && ch.item < |items| && ch.index < items[ch.item].totalChunks
            && k == StartOf(items, ch.item) + ch.index
  {
    var last := |items| - 1;
    var front := Chunks(items[..last]);
    if k < |front| {
      ChunkIs(items[..last], k);
      assert items[..last][..front[k].item] == items[..front[k].item];
    }
  }

  /** `iter().position`: the first chunk from `k` on with these header indices. */
  function Find(items: seq<Item>, item: uint32, chunk: uint32, k: nat): (p: Option<nat>)
    ensures p.Some? ==> k <= p.value < |Chunks(items)|
    decreases |Chunks(items)| - k
  {
    if k >= |Chunks(items)| then None
    else
      ChunkIs(items, k);
      var ch := Chunks(items)[k];
      if items[ch.item].itemIndex == item && ch.index == chunk then Some(k) else Find(items, item, chunk, k + 1)
  }

  lemma {:induction false} FindIsSound(items: seq<Item>, item: uint32, chunk: uint32, k: nat)
    ensures var p := Find(items, item, chunk, k);
            p.Some? ==>
              var ch := Chunks(items)[p.value];
              ch.item < |items| && items[ch.item].itemIndex == item && ch.index == chunk
    decreases |Chunks(items)| - k
  {
    if k < |Chunks(items)| {
      ChunkIs(items, k);
      FindIsSound(items, item, chunk, k + 1);
    }
  }

  // ----- the whole system -----

  /** The checks are sound, the offer describes the source files, and no two files share a target path. */
  ghost predicate Setup(job: Job, src: seq<seq<byte>>) {
    && SoundSuite(job.suite)
    && Describes(job.offer, src, job.hash)
    && job.offer.encrypted == job.suite.cipher.Some?
    && src != []
    && (forall i, j :: 0 <= i < j < |src| ==> job.offer.items[i].relativePath != job.offer.items[j].relativePath)
    && (forall i :: 0 <= i < |src| ==> Countable(|src[i]|, ChunkLen(job.suite)))
    && job.offer.totalSize == TotalSize(src)
  }

  function TotalSize(src: seq<seq<byte>>): nat {
    if src == [] then 0 else TotalSize(src[..|src| - 1]) + |src[|src| - 1]|
  }

  datatype Net = Net(
    sender: SenderLoop.Sender, forward: set<seq<byte>>, backward: set<seq<byte>>, receiver: Receiver,
    seals: set<(Block12, seq<byte>)>)

  /** `metadata` is the plaintext the sender sealed into the offer, if the session is encrypted. */
  function Initial(job: Job, metadata: seq<byte>): Net {
    Net(SenderLoop.Start(|Chunks(job.offer.items)|), {}, {}, Begin(job),
        if job.suite.cipher.Some? then {(MetadataNonce(), metadata)} else {})
  }

  function PieceAt(job: Job, src: seq<seq<byte>>, k: nat): seq<byte>
    requires |src| == |job.offer.items| && k < |Chunks(job.offer.items)|
  {
    ChunkIs(job.offer.items, k);
    var ch := Chunks(job.offer.items)[k];
    Piece(src[ch.item], ch.index, ChunkLen(job.suite))
  }

  function FrameOf(job: Job, src: seq<seq<byte>>, k: nat): seq<byte>
    requires |src| == |job.offer.items| && k < |Chunks(job.offer.items)|
  {
    ChunkIs(job.offer.items, k);
    var ch := Chunks(job.offer.items)[k];
    var it := job.offer.items[ch.item];
    BuildFrame(job.suite, job.session, it.itemIndex, ch.index, it.totalChunks, PieceAt(job, src, k))
  }

  function SealOf(job: Job, src: seq<seq<byte>>, k: nat): (Block12, seq<byte>)
    requires |src| == |job.offer.items| && k < |Chunks(job.offer.items)|
  {
    ChunkIs(job.offer.items, k);
    var ch := Chunks(job.offer.items)[k];
    (DataNonce(job.offer.items[ch.item].itemIndex, ch.index), PieceAt(job, src, k))
  }

  /** Frames and puts on the wire the chunks at positions `ks`, first time or again. */
  function Transmit(job: Job, src: seq<seq<byte>>, n: Net, ks: set<nat>): Net
    requires |src| == |job.offer.items| && forall k :: k in ks ==> k < |Chunks(job.offer.items)|
  {
    n.(
      forward := n.forward + set k | k in ks :: FrameOf(job, src, k),
      seals := if job.suite.cipher.Some? then n.seals + set k | k in ks :: SealOf(job, src, k) else n.seals)
  }

  datatype Reply = Reply(ack: bool, item: uint32, chunk: uint32)

  /** What the sender reads from a binary message. */
  function ReplyOf(frame: seq<byte>): Option<Reply> {
    match Decode(frame)
    case Err(_) => None
    case Ok(h) =>
      if h.chunkType == Ack || h.chunkType == Nack then Some(Reply(h.chunkType.Ack?, h.itemIndex, h.chunkIndex))
      else None
  }

  datatype Step =
    | SendChunk(now: nat)
    | DeliverData(frame: seq<byte>, ioOk: bool)
    | DeliverReply(frame: seq<byte>, now: nat)
    | TimerTick(now: nat)
    | DropData(frame: seq<byte>)
    | DropReply(frame: seq<byte>)
    | VerifyFile(readOk: bool)
    | ReceiverLost

  predicate SenderRuns(n: Net) {
    !Complete(n.sender.window) && !RetriesExhausted(n.sender.window)
  }

  /** A delivered frame was sent and not lost since, or is damaged in a way the receiving end's checks see. */
  predicate CanStep(job: Job, n: Net, step: Step) {
    match step
    case SendChunk(now) => SenderLoop.Enabled(n.sender, SenderLoop.Send(now))
    case DeliverData(frame, _) =>
      n.receiver.phase == Running && (frame in n.forward || !Inspect(job.suite, frame).Plaintext?)
    case DeliverReply(frame, _) => SenderRuns(n) && (frame in n.backward || ReplyOf(frame).None?)
    case TimerTick(_) => SenderRuns(n)
    case DropData(frame) => frame in n.forward
    case DropReply(frame) => frame in n.backward
    case VerifyFile(_) => n.receiver.phase.Verifying?
    case ReceiverLost => n.receiver.phase == Running
  }

  /** The sender's reaction to a reply: the event for its window, if the reply names one of its chunks. */
  function ReplyEvent(job: Job, frame: seq<byte>, now: nat): Option<SenderLoop.Event> {
    match ReplyOf(frame)
    case None => None
    case Some(reply) =>
      match Find(job.offer.items, reply.item, reply.chunk, 0)
      case None => None
      case Some(pos) => Some(if reply.ack then SenderLoop.GotAck(pos, now) else SenderLoop.GotNack(pos, now))
  }

  /** The chunks an event makes the sender put on the wire. */
  function Outgoing(s: SenderLoop.Sender, e: SenderLoop.Event): set<nat> {
    match e
    case Send(_) => {s.next}
    case GotAck(_, _) => {}
    case GotNack(pos, _) => if NackRetransmits(s.window, pos) then {pos} else {}
    case Tick(now) => Retransmits(s.window, now)
  }

  ghost predicate WellSized(job: Job, src: seq<seq<byte>>, n: Net) {
    && |src| == |job.offer.items| == |n.receiver.received|
    && n.sender.window.total == |Chunks(job.offer.items)|
    && SenderLoop.Inv(n.sender)
  }

  function SenderStep(job: Job, src: seq<seq<byte>>, n: Net, e: SenderLoop.Event): Net
    requires WellSized(job, src, n) && SenderLoop.Enabled(n.sender, e)
  {
    Transmit(job, src, n, Outgoing(n.sender, e)).(sender := SenderLoop.Apply(n.sender, e))
  }

  function Answer(n: Net, r: Receiver, replies: seq<seq<byte>>): Net {
    n.(receiver := r, backward := n.backward + set f | f in replies)
  }

  /** The receiver handles a message the checks judged `verdict`. */
  function Deliver(job: Job, n: Net, verdict: Verdict, ioOk: bool): Net
    requires |n.receiver.received| == |job.offer.items|
  {
    var (r, replies) := React(job, n.receiver, verdict, ioOk);
    Answer(n, r, replies)
  }

  function Next(job: Job, src: seq<seq<byte>>, n: Net, step: Step): Net
    requires WellSized(job, src, n) && CanStep(job, n, step)
  {
    match step
    case SendChunk(now) => SenderStep(job, src, n, SenderLoop.Send(now))
    case TimerTick(now) => SenderStep(job, src, n, SenderLoop.Tick(now))
    case DeliverReply(frame, now) =>
      var e := ReplyEvent(job, frame, now);
      if e.None? then n else SenderStep(job, src, n, e.value)
    case DeliverData(frame, ioOk) => Deliver(job, n, Inspect(job.suite, frame), ioOk)
    case DropData(frame) => n.(forward := n.forward - {frame})
    case DropReply(frame) => n.(backward := n.backward - {frame})
    case VerifyFile(readOk) => n.(receiver := VerifyNext(job, n.receiver, readOk))
    case ReceiverLost => n.(receiver := Fail(n.receiver))
  }

  // ----- the invariant -----

  function TotalBytes(job: Job, src: seq<seq<byte>>, received: seq<set<nat>>, upto: nat): nat
    requires |src| == |job.offer.items| == |received| && upto <= |src|
  {
    if upto == 0 then 0
    else
      TotalBytes(job, src, received, upto - 1)
      + BytesOf(received[upto - 1], job.offer.items[upto - 1].totalChunks, ChunkLen(job.suite), |src[upto - 1]|)
  }

  ghost predicate ForwardHonest(job: Job, src: seq<seq<byte>>, n: Net)
    requires WellSized(job, src, n)
  {
    forall f :: f in n.forward ==> exists k :: 0 <= k < n.sender.next && f == FrameOf(job, src, k)
  }

  ghost predicate ReceivedWasSent(items: seq<Item>, received: seq<set<nat>>, next: nat)
    requires |received| == |items|
  {
    forall i, c :: 0 <= i < |items| && c in received[i] ==> c < items[i].totalChunks && StartOf(items, i) + c < next
  }

  ghost predicate AcksHonest(backward: set<seq<byte>>, received: seq<set<nat>>) {
    forall f :: f in backward && ReplyOf(f).Some? && ReplyOf(f).value.ack ==>
      ReplyOf(f).value.item < |received| && ReplyOf(f).value.chunk in received[ReplyOf(f).value.item]
  }

  predicate IsReceived(items: seq<Item>, received: seq<set<nat>>, k: nat)
    requires |received| == |items|
  {
    k < |Chunks(items)| &&
    (ChunkIs(items, k);
     var ch := Chunks(items)[k];
     ch.index in received[ch.item])
  }

  ghost predicate AckedWasReceived(items: seq<Item>, acked: set<nat>, received: seq<set<nat>>)
    requires |received| == |items|
  {
    forall k :: k in acked ==> IsReceived(items, received, k)
  }

  ghost predicate FilesRight(job: Job, src: seq<seq<byte>>, r: Receiver)
    requires |src| == |job.offer.items| == |r.received|
  {
    forall i :: 0 <= i < |src| ==>
      var file := Lookup(r.files, job.offer.items[i].relativePath);
      && (r.phase == Running ==> FileOk(src[i], ChunkLen(job.suite), r.received[i], file))
      && (r.phase.Verifying? || r.phase == Completed ==> file == Some(src[i]))
  }

  /** The receiving phase ends with the last chunk; only a failure can come without it. */
  ghost predicate PhaseRight(job: Job, r: Receiver)
    requires |r.received| == |job.offer.items|
  {
    && (r.phase == Running ==> !AllItemsDone(job, r.received))
    && (r.phase.Verifying? ==> AllItemsDone(job, r.received) && r.phase.checked < |job.offer.items|)
    && (r.phase == Completed ==> AllItemsDone(job, r.received))
    && (r.phase == Failed ==> r.files == map[])
  }

  ghost predicate SealsOnce(job: Job, src: seq<seq<byte>>, n: Net, metadata: seq<byte>)
    requires WellSized(job, src, n)
  {
    forall u :: u in n.seals ==>
      u == (MetadataNonce(), metadata) || exists k :: 0 <= k < n.sender.next && u == SealOf(job, src, k)
  }

  ghost predicate Inv(job: Job, src: seq<seq<byte>>, metadata: seq<byte>, n: Net) {
    && WellSized(job, src, n)
    && ForwardHonest(job, src, n)
    && ReceivedWasSent(job.offer.items, n.receiver.received, n.sender.next)
    && AcksHonest(n.backward, n.receiver.received)
    && AckedWasReceived(job.offer.items, n.sender.window.acked, n.receiver.received)
    && FilesRight(job, src, n.receiver)
    && PhaseRight(job, n.receiver)
    && n.receiver.bytes == TotalBytes(job, src, n.receiver.received, |src|)
    && SealsOnce(job, src, n, metadata)
  }

  // ----- it holds at the start -----

  lemma {:induction false} NoBytesYet(job: Job, src: seq<seq<byte>>, received: seq<set<nat>>, upto: nat)
    requires |src| == |job.offer.items| == |received| && upto <= |src|
    requires forall i :: 0 <= i < |received| ==> received[i] == {}
    ensures TotalBytes(job, src, received, upto) == 0
  {
    if upto == 0 {
    } else {
      NoBytesYet(job, src, received, upto - 1);
      EmptyHasNoBytes(job.offer.items[upto - 1].totalChunks, ChunkLen(job.suite), |src[upto - 1]|);
    }
  }

  lemma {:induction false} EmptyHasNoBytes(n: nat, chunkLen: nat, size: nat)
    ensures BytesOf({}, n, chunkLen, size) == 0
  {
    if n == 0 {
    } else {
      EmptyHasNoBytes(n - 1, chunkLen, size);
    }
  }

  lemma InitialInv(job: Job, src: seq<seq<byte>>, metadata: seq<byte>)
    requires Setup(job, src)
    ensures Inv(job, src, metadata, Initial(job, metadata))
  {
    var n := Initial(job, metadata);
    SenderLoop.RunKeepsInv(|Chunks(job.offer.items)|, []);
    NoBytesYet(job, src, n.receiver.received, |src|);
    CountIsCeiling(|src[0]|, ChunkLen(job.suite));
    assert |n.receiver.received[0]| == 0 < job.offer.items[0].totalChunks;
  }

  // ----- sender steps -----

  lemma OutgoingWasSent(n: SenderLoop.Sender, e: SenderLoop.Event)
    requires SenderLoop.Inv(n) && SenderLoop.Enabled(n, e)
    ensures forall k :: k in Outgoing(n, e) ==> k < SenderLoop.Apply(n, e).next
    ensures n.next <= SenderLoop.Apply(n, e).next <= n.window.total
    ensures SenderLoop.Apply(n, e).window.acked == if e.GotAck? then n.window.acked + {e.pos} else n.window.acked
  {
    SenderLoop.StepKeepsInv(n, e);
  }

  lemma TransmitKeepsHonest(job: Job, src: seq<seq<byte>>, metadata: seq<byte>, n: Net, s: SenderLoop.Sender,
                            ks: set<nat>)
    requires WellSized(job, src, n) && ForwardHonest(job, src, n) && SealsOnce(job, src, n, metadata)
    requires WellSized(job, src, n.(sender := s)) && n.sender.next <= s.next
    requires forall k :: k in ks ==> k < s.next && k < |Chunks(job.offer.items)|
    ensures ForwardHonest(job, src, Transmit(job, src, n, ks).(sender := s))
    ensures SealsOnce(job, src, Transmit(job, src, n, ks).(sender := s), metadata)
  {
    var n' := Transmit(job, src, n, ks).(sender := s);
    forall f | f in n'.forward
      ensures exists k :: 0 <= k < s.next && f == FrameOf(job, src, k)
    {
      if f in n.forward {
        var k :| 0 <= k < n.sender.next && f == FrameOf(job, src, k);
      } else {
        var k :| k in ks && f == FrameOf(job, src, k);
      }
    }
    forall u | u in n'.seals
      ensures u == (MetadataNonce(), metadata) || exists k :: 0 <= k < s.next && u == SealOf(job, src, k)
    {
      if u !in n.seals {
        var k :| k in ks && u == SealOf(job, src, k);
      } else if u != (MetadataNonce(), metadata) {
        var k :| 0 <= k < n.sender.next && u == SealOf(job, src, k);
      }
    }
  }

  lemma SenderStepKeepsInv(job: Job, src: seq<seq<byte>>, metadata: seq<byte>, n: Net, e: SenderLoop.Event)
    requires Inv(job, src, metadata, n) && SenderLoop.Enabled(n.sender, e)
    requires e.GotAck? ==> IsReceived(job.offer.items, n.receiver.received, e.pos)
    ensures Inv(job, src, metadata, SenderStep(job, src, n, e))
  {
    SenderLoop.StepKeepsInv(n.sender, e);
    OutgoingWasSent(n.sender, e);
    var s := SenderLoop.Apply(n.sender, e);
    assert WellSized(job, src, n.(sender := s));
    TransmitKeepsHonest(job, src, metadata, n, s, Outgoing(n.sender, e));
  }

  lemma ReplyStepKeepsInv(job: Job, src: seq<seq<byte>>, metadata: seq<byte>, n: Net, frame: seq<byte>, now: nat)
    requires Setup(job, src) && Inv(job, src, metadata, n) && CanStep(job, n, DeliverReply(frame, now))
    ensures Inv(job, src, metadata, Next(job, src, n, DeliverReply(frame, now)))
  {
    var e := ReplyEvent(job, frame, now);
    if e.Some? {
      var reply := ReplyOf(frame).value;
      FindIsSound(job.offer.items, reply.item, reply.chunk, 0);
      SenderStepKeepsInv(job, src, metadata, n, e.value);
    }
  }

  // ----- receiver steps -----

  lemma GenuineFrame(job: Job, src: seq<seq<byte>>, k: nat)
    requires Setup(job, src) && k < |Chunks(job.offer.items)|
    ensures var ch := Chunks(job.offer.items)[k];
            var v := Inspect(job.suite, FrameOf(job, src, k));
            && ch.item < |src| && ch.index < job.offer.items[ch.item].totalChunks
            && StartOf(job.offer.items, ch.item) + ch.index == k
            && v.Plaintext? && v.header.itemIndex == ch.item && v.header.chunkIndex == ch.index
            && v.payload == Piece(src[ch.item], ch.index, ChunkLen(job.suite))
            && v.header.sessionId == job.session
  {
    ChunkIs(job.offer.items, k);
    var ch := Chunks(job.offer.items)[k];
    var it := job.offer.items[ch.item];
    FrameReadsBack(job.suite, job.session, it.itemIndex, ch.index, it.totalChunks, PieceAt(job, src, k));
  }

  lemma {:induction false} TotalBytesOfInsert(job: Job, src: seq<seq<byte>>, received: seq<set<nat>>, upto: nat, i: nat,
                                              c: nat)
    requires |src| == |job.offer.items| == |received| && upto <= |src| && i < |src|
    requires c < job.offer.items[i].totalChunks
    ensures TotalBytes(job, src, received[i := received[i] + {c}], upto) ==
            TotalBytes(job, src, received, upto)
            + if i < upto && c !in received[i] then Length(c, ChunkLen(job.suite), |src[i]|) else 0
  {
    if upto == 0 {
    } else {
      TotalBytesOfInsert(job, src, received, upto - 1, i, c);
      if i == upto - 1 {
        BytesOfInsert(received[i], job.offer.items[i].totalChunks, ChunkLen(job.suite), |src[i]|, c);
      }
    }
  }

  lemma StoredFilesRight(job: Job, src: seq<seq<byte>>, r: Receiver, i: nat, c: nat)
    requires Setup(job, src) && |r.received| == |src| && FilesRight(job, src, r) && r.phase == Running
    requires i < |src| && c < job.offer.items[i].totalChunks
    ensures FilesRight(job, src, Stored(job, r, i, c, Piece(src[i], c, ChunkLen(job.suite))))
  {
    var path := job.offer.items[i].relativePath;
    WriteKeepsFileOk(src[i], ChunkLen(job.suite), r.received[i], Lookup(r.files, path), c);
    var r' := Stored(job, r, i, c, Piece(src[i], c, ChunkLen(job.suite)));
    forall j | 0 <= j < |src|
      ensures FileOk(src[j], ChunkLen(job.suite), r'.received[j], Lookup(r'.files, job.offer.items[j].relativePath))
    {
      if j != i {
        assert job.offer.items[j].relativePath != path;
      }
    }
  }

  /** Once every chunk of every item is stored, every file is its source and passes verification. */
  lemma AllDoneIsRight(job: Job, src: seq<seq<byte>>, r: Receiver)
    requires Setup(job, src) && |r.received| == |src| && FilesRight(job, src, r) && r.phase == Running
    requires AllItemsDone(job, r.received)
    requires forall i, c :: 0 <= i < |src| && c in r.received[i] ==> c < job.offer.items[i].totalChunks
    ensures forall i :: 0 <= i < |src| ==> Lookup(r.files, job.offer.items[i].relativePath) == Some(src[i])
    ensures forall i :: 0 <= i < |src| ==> FileVerifies(job, r.files, i)
  {
    forall i | 0 <= i < |src|
      ensures Lookup(r.files, job.offer.items[i].relativePath) == Some(src[i])
    {
      BelowSize(r.received[i], job.offer.items[i].totalChunks);
      FullFileIsSource(src[i], ChunkLen(job.suite), r.received[i], Lookup(r.files, job.offer.items[i].relativePath));
    }
  }

  lemma AckReadsBack(session: Block16, item: uint32, chunk: uint32)
    ensures ReplyOf(Encode(NewReverse(Ack, session, item, chunk))) == Some(Reply(true, item, chunk))
    ensures ReplyOf(Encode(NewReverse(Nack, session, item, chunk))) == Some(Reply(false, item, chunk))
  {
    ReverseReadsBack(Ack, session, item, chunk);
    ReverseReadsBack(Nack, session, item, chunk);
  }

  /** Storing a sent chunk keeps the bookkeeping of what was received. */
  lemma StoredBookkeeping(items: seq<Item>, received: seq<set<nat>>, next: nat, acked: set<nat>, i: nat, c: nat)
    requires |received| == |items| && i < |items| && c < items[i].totalChunks && StartOf(items, i) + c < next
    requires ReceivedWasSent(items, received, next) && AckedWasReceived(items, acked, received)
    ensures var received' := received[i := received[i] + {c}];
            ReceivedWasSent(items, received', next) && AckedWasReceived(items, acked, received')
  {
    var received' := received[i := received[i] + {c}];
    forall k | k in acked
      ensures IsReceived(items, received', k)
    {
      assert IsReceived(items, received, k);
      ChunkIs(items, k);
    }
  }

  lemma StoredAcks(backward: set<seq<byte>>, received: seq<set<nat>>, session: Block16, i: uint32, c: uint32,
                   replies: seq<seq<byte>>)
    requires replies == [Encode(NewReverse(Ack, session, i, c))]
    requires i < |received| && AcksHonest(backward, received)
    ensures AcksHonest(backward + (set f | f in replies), received[i := received[i] + {c}])
  {
    AckReadsBack(session, i, c);
  }

  /** The files after a stored chunk; with the last one they are all complete. */
  lemma FinishedFiles(job: Job, src: seq<seq<byte>>, r: Receiver, i: nat, c: nat)
    requires Setup(job, src) && |r.received| == |src| && FilesRight(job, src, r) && r.phase == Running
    requires i < |src| && c < job.offer.items[i].totalChunks
    requires forall j, d :: 0 <= j < |src| && d in r.received[j] ==> d < job.offer.items[j].totalChunks
    ensures var stored := Stored(job, r, i, c, Piece(src[i], c, ChunkLen(job.suite)));
            var r' := Finish(job, stored);
            && r'.received == stored.received && r'.bytes == stored.bytes
            && FilesRight(job, src, r')
            && PhaseRight(job, r') && r'.phase != Failed
  {
    StoredFilesRight(job, src, r, i, c);
    var stored := Stored(job, r, i, c, Piece(src[i], c, ChunkLen(job.suite)));
    if AllItemsDone(job, stored.received) {
      AllDoneIsRight(job, src, stored);
    }
  }

  /** The verdict is on a chunk the sender sent, with that chunk's bytes. */
  ghost predicate IsSentChunk(job: Job, src: seq<seq<byte>>, next: nat, verdict: Verdict)
    requires verdict.Plaintext? && |src| == |job.offer.items|
  {
    var i, c := verdict.header.itemIndex, verdict.header.chunkIndex;
    && i < |src| && c < job.offer.items[i].totalChunks
    && StartOf(job.offer.items, i) + c < next
    && verdict.payload == Piece(src[i], c, ChunkLen(job.suite))
    && verdict.header.sessionId == job.session
  }

  /** The parts of the invariant that a new receiver state and its replies can disturb. */
  lemma AnswerKeepsInv(job: Job, src: seq<seq<byte>>, metadata: seq<byte>, n: Net, r: Receiver, replies: seq<seq<byte>>)
    requires Inv(job, src, metadata, n) && |r.received| == |src|
    requires ReceivedWasSent(job.offer.items, r.received, n.sender.next)
    requires AcksHonest(n.backward + (set f | f in replies), r.received)
    requires AckedWasReceived(job.offer.items, n.sender.window.acked, r.received)
    requires FilesRight(job, src, r)
    requires PhaseRight(job, r)
    requires r.bytes == TotalBytes(job, src, r.received, |src|)
    ensures Inv(job, src, metadata, Answer(n, r, replies))
  {
  }

  /** What the receiver does with a sent chunk. */
  lemma GenuineReaction(job: Job, src: seq<seq<byte>>, r: Receiver, next: nat, verdict: Verdict)
    requires Setup(job, src) && |r.received| == |src| && FilesRight(job, src, r) && r.phase == Running
    requires forall j, d :: 0 <= j < |src| && d in r.received[j] ==> d < job.offer.items[j].totalChunks
    requires verdict.Plaintext? && IsSentChunk(job, src, next, verdict)
    ensures var (r', replies) := React(job, r, verdict, true);
            var h := verdict.header;
            var i, c := h.itemIndex, h.chunkIndex;
            && r'.received == r.received[i := r.received[i] + {c}]
            && r'.bytes == (if c in r.received[i] then r.bytes else r.bytes + Length(c, ChunkLen(job.suite), |src[i]|))
            && FilesRight(job, src, r')
            && PhaseRight(job, r') && r'.phase != Failed
            && replies == [Encode(NewReverse(Ack, h.sessionId, i, c))]
  {
    FinishedFiles(job, src, r, verdict.header.itemIndex, verdict.header.chunkIndex);
  }

  lemma GenuineKeepsInv(job: Job, src: seq<seq<byte>>, metadata: seq<byte>, n: Net, verdict: Verdict)
    requires Setup(job, src) && Inv(job, src, metadata, n) && n.receiver.phase == Running
    requires verdict.Plaintext? && IsSentChunk(job, src, n.sender.next, verdict)
    ensures Inv(job, src, metadata, Deliver(job, n, verdict, true))
  {
    var i, c := verdict.header.itemIndex, verdict.header.chunkIndex;
    var (r, replies) := React(job, n.receiver, verdict, true);
    GenuineReaction(job, src, n.receiver, n.sender.next, verdict);
    TotalBytesOfInsert(job, src, n.receiver.received, |src|, i, c);
    StoredBookkeeping(job.offer.items, n.receiver.received, n.sender.next, n.sender.window.acked, i, c);
    StoredAcks(n.backward, n.receiver.received, verdict.header.sessionId, i, c, replies);
    AnswerKeepsInv(job, src, metadata, n, r, replies);
  }

  lemma FailKeepsInv(job: Job, src: seq<seq<byte>>, metadata: seq<byte>, n: Net)
    requires Inv(job, src, metadata, n)
    ensures Inv(job, src, metadata, n.(receiver := Fail(n.receiver)))
  {
  }

  lemma NackKeepsInv(job: Job, src: seq<seq<byte>>, metadata: seq<byte>, n: Net, r: Receiver,
                     session: Block16, item: uint32, chunk: uint32, replies: seq<seq<byte>>)
    requires Inv(job, src, metadata, n)
    requires r == n.receiver.(tagFailures := r.tagFailures, tagTotal := r.tagTotal)
    requires replies == [Encode(NewReverse(Nack, session, item, chunk))] || replies == []
    ensures Inv(job, src, metadata, Answer(n, r, replies))
  {
    AckReadsBack(session, item, chunk);
    var n' := Answer(n, r, replies);
    assert AcksHonest(n'.backward, n.receiver.received);
  }

  /** Messages the checks reject change no file, no chunk set and no ACK. */
  lemma RejectedKeepsInv(job: Job, src: seq<seq<byte>>, metadata: seq<byte>, n: Net, verdict: Verdict, ioOk: bool)
    requires Inv(job, src, metadata, n) && n.receiver.phase == Running
    requires !verdict.Plaintext?
    ensures Inv(job, src, metadata, Deliver(job, n, verdict, ioOk))
  {
    var (r, replies) := React(job, n.receiver, verdict, ioOk);
    match verdict
    case TooShort =>
      NackKeepsInv(job, src, metadata, n, r, job.session, 0, 0, []);
    case BadHeader =>
      FailKeepsInv(job, src, metadata, n);
      assert Answer(n, r, []) == n.(receiver := r);
    case BadChecksum(session, item, chunk) =>
      NackKeepsInv(job, src, metadata, n, r, session, item, chunk, replies);
    case BadTag(session, item, chunk) =>
      var r' := RecordTagFailure(n.receiver, item, chunk).0;
      NackKeepsInv(job, src, metadata, n, r', session, item, chunk, replies);
      if replies == [] {
        FailKeepsInv(job, src, metadata, Answer(n, r', replies));
      }
    case Plaintext(_, _) =>
  }

  lemma WriteErrorKeepsInv(job: Job, src: seq<seq<byte>>, metadata: seq<byte>, n: Net, verdict: Verdict)
    requires Inv(job, src, metadata, n) && n.receiver.phase == Running
    requires verdict.Plaintext? && verdict.header.itemIndex < |src|
    ensures Inv(job, src, metadata, Deliver(job, n, verdict, false))
  {
    FailKeepsInv(job, src, metadata, n);
    assert Deliver(job, n, verdict, false) == n.(receiver := Fail(n.receiver));
  }

  lemma VerdictKeepsInv(job: Job, src: seq<seq<byte>>, metadata: seq<byte>, n: Net, verdict: Verdict, ioOk: bool)
    requires Setup(job, src) && Inv(job, src, metadata, n) && n.receiver.phase == Running
    requires verdict.Plaintext? ==> IsSentChunk(job, src, n.sender.next, verdict)
    ensures Inv(job, src, metadata, Deliver(job, n, verdict, ioOk))
  {
    if !verdict.Plaintext? {
      RejectedKeepsInv(job, src, metadata, n, verdict, ioOk);
    } else if ioOk {
      GenuineKeepsInv(job, src, metadata, n, verdict);
    } else {
      WriteErrorKeepsInv(job, src, metadata, n, verdict);
    }
  }

  lemma ForwardedIsSentChunk(job: Job, src: seq<seq<byte>>, n: Net, frame: seq<byte>)
    requires Setup(job, src) && WellSized(job, src, n) && ForwardHonest(job, src, n) && frame in n.forward
    ensures var verdict := Inspect(job.suite, frame);
            verdict.Plaintext? && IsSentChunk(job, src, n.sender.next, verdict)
  {
    var k :| 0 <= k < n.sender.next && frame == FrameOf(job, src, k);
    GenuineFrame(job, src, k);
  }

  lemma DataKeepsInv(job: Job, src: seq<seq<byte>>, metadata: seq<byte>, n: Net, frame: seq<byte>, ioOk: bool)
    requires Setup(job, src) && Inv(job, src, metadata, n) && CanStep(job, n, DeliverData(frame, ioOk))
    ensures Inv(job, src, metadata, Deliver(job, n, Inspect(job.suite, frame), ioOk))
  {
    if frame in n.forward {
      ForwardedIsSentChunk(job, src, n, frame);
    }
    VerdictKeepsInv(job, src, metadata, n, Inspect(job.suite, frame), ioOk);
  }

  /** A complete file that can be read passes: only a failing read ends a verification. */
  lemma VerifyPasses(job: Job, src: seq<seq<byte>>, r: Receiver)
    requires Setup(job, src) && |r.received| == |src| && FilesRight(job, src, r)
    requires r.phase.Verifying? && PhaseRight(job, r)
    ensures VerifyNext(job, r, true) ==
            r.(phase := if r.phase.checked + 1 == |src| then Completed else Verifying(r.phase.checked + 1))
    ensures VerifyNext(job, r, false) == Fail(r)
  {
    assert Lookup(r.files, job.offer.items[r.phase.checked].relativePath) == Some(src[r.phase.checked]);
  }

  lemma VerifyKeepsInv(job: Job, src: seq<seq<byte>>, metadata: seq<byte>, n: Net, readOk: bool)
    requires Setup(job, src) && Inv(job, src, metadata, n) && n.receiver.phase.Verifying?
    ensures Inv(job, src, metadata, n.(receiver := VerifyNext(job, n.receiver, readOk)))
  {
    VerifyPasses(job, src, n.receiver);
    if !readOk {
      FailKeepsInv(job, src, metadata, n);
    }
  }

  /** Losing frames takes nothing from what is known of those that are left. */
  lemma DropKeepsInv(job: Job, src: seq<seq<byte>>, metadata: seq<byte>, n: Net, forward: set<seq<byte>>,
                     backward: set<seq<byte>>)
    requires Inv(job, src, metadata, n) && forward <= n.forward && backward <= n.backward
    ensures Inv(job, src, metadata, n.(forward := forward, backward := backward))
  {
  }

  lemma StepKeepsInv(job: Job, src: seq<seq<byte>>, metadata: seq<byte>, n: Net, step: Step)
    requires Setup(job, src) && Inv(job, src, metadata, n) && CanStep(job, n, step)
    ensures Inv(job, src, metadata, Next(job, src, n, step))
  {
    match step
    case SendChunk(now) => SenderStepKeepsInv(job, src, metadata, n, SenderLoop.Send(now));
    case TimerTick(now) => SenderStepKeepsInv(job, src, metadata, n, SenderLoop.Tick(now));
    case DeliverReply(frame, now) => ReplyStepKeepsInv(job, src, metadata, n, frame, now);
    case DropData(frame) => DropKeepsInv(job, src, metadata, n, n.forward - {frame}, n.backward);
    case DropReply(frame) => DropKeepsInv(job, src, metadata, n, n.forward, n.backward - {frame});
    case VerifyFile(readOk) => VerifyKeepsInv(job, src, metadata, n, readOk);
    case ReceiverLost => FailKeepsInv(job, src, metadata, n);
    case DeliverData(frame, ioOk) => DataKeepsInv(job, src, metadata, n, frame, ioOk);
  }

  // ----- runs -----

  /** The state after a run, or None if some step was not possible. */
  ghost function Run(job: Job, src: seq<seq<byte>>, metadata: seq<byte>, steps: seq<Step>): Option<Net> {
    if steps == [] then Some(Initial(job, metadata))
    else
      var before := Run(job, src, metadata, steps[..|steps| - 1]);
      var step := steps[|steps| - 1];
      if before.Some? && WellSized(job, src, before.value) && CanStep(job, before.value, step)
      then Some(Next(job, src, before.value, step)) else None
  }

  lemma {:induction false} RunKeepsInv(job: Job, src: seq<seq<byte>>, metadata: seq<byte>, steps: seq<Step>)
    requires Setup(job, src)
    ensures var n := Run(job, src, metadata, steps); n.Some? ==> Inv(job, src, metadata, n.value)
  {
    if steps == [] {
      InitialInv(job, src, metadata);
    } else {
      RunKeepsInv(job, src, metadata, steps[..|steps| - 1]);
      var before := Run(job, src, metadata, steps[..|steps| - 1]);
      var step := steps[|steps| - 1];
      if before.Some? && CanStep(job, before.value, step) {
        StepKeepsInv(job, src, metadata, before.value, step);
      }
    }
  }

  // ----- the theorems -----

  /** How many verifications of a file the run holds, with its reads that succeeded or not. */
  function Verifications(steps: seq<Step>): nat {
    if steps == [] then 0
    else Verifications(steps[..|steps| - 1]) + if steps[|steps| - 1].VerifyFile? then 1 else 0
  }

  /** The receiver's phase read off the run's verifications. */
  ghost predicate PhaseFollows(job: Job, r: Receiver, steps: seq<Step>) {
    var failed := VerifyFile(false) in steps;
    && |r.received| == |job.offer.items|
    && match r.phase
       case Running => Verifications(steps) == 0 && !failed
       case Verifying(checked) => Verifications(steps) == checked && !failed
       case Completed => Verifications(steps) == |job.offer.items| && !failed
       case Failed => failed <==> AllItemsDone(job, r.received)
  }

  lemma PhaseStep(job: Job, src: seq<seq<byte>>, metadata: seq<byte>, n: Net, steps: seq<Step>, step: Step)
    requires Setup(job, src) && Inv(job, src, metadata, n) && CanStep(job, n, step)
    requires PhaseFollows(job, n.receiver, steps)
    ensures PhaseFollows(job, Next(job, src, n, step).receiver, steps + [step])
  {
    OneMoreStep(steps, step);
    match step
    case VerifyFile(readOk) => VerifyPasses(job, src, n.receiver);
    case DeliverData(frame, ioOk) => DataPhase(job, src, metadata, n, frame, ioOk);
    case SendChunk(now) => assert Next(job, src, n, step).receiver == n.receiver;
    case TimerTick(now) => assert Next(job, src, n, step).receiver == n.receiver;
    case DeliverReply(frame, now) => assert Next(job, src, n, step).receiver == n.receiver;
    case DropData(_) =>
    case DropReply(_) =>
    case ReceiverLost =>
  }

  lemma OneMoreStep(steps: seq<Step>, step: Step)
    ensures Verifications(steps + [step]) == Verifications(steps) + if step.VerifyFile? then 1 else 0
    ensures VerifyFile(false) in steps + [step] <==> VerifyFile(false) in steps || step == VerifyFile(false)
  {
    assert (steps + [step])[..|steps|] == steps;
  }

  /** A message can end the receiving phase only by its last chunk or by a failure that leaves chunks missing. */
  lemma DataPhase(job: Job, src: seq<seq<byte>>, metadata: seq<byte>, n: Net, frame: seq<byte>, ioOk: bool)
    requires Setup(job, src) && Inv(job, src, metadata, n) && CanStep(job, n, DeliverData(frame, ioOk))
    ensures var r := Deliver(job, n, Inspect(job.suite, frame), ioOk).receiver;
            && |r.received| == |src|
            && (r.phase == Running || r.phase == Verifying(0) || (r.phase == Failed && !AllItemsDone(job, r.received)))
  {
    ReactPhase(job, n.receiver, Inspect(job.suite, frame), ioOk);
  }

  lemma ReactPhase(job: Job, r: Receiver, verdict: Verdict, ioOk: bool)
    requires |r.received| == |job.offer.items| && r.phase == Running
    ensures var r' := React(job, r, verdict, ioOk).0;
            && |r'.received| == |r.received|
            && (r'.phase == Running || r'.phase == Verifying(0) || (r'.phase == Failed && r'.received == r.received))
  {
  }

  /** The last step of a run that was possible. */
  lemma LastStep(job: Job, src: seq<seq<byte>>, metadata: seq<byte>, steps: seq<Step>) returns (before: Net)
    requires Setup(job, src) && steps != []
    requires Run(job, src, metadata, steps).Some?
    ensures Run(job, src, metadata, steps[..|steps| - 1]) == Some(before) && Inv(job, src, metadata, before)
    ensures CanStep(job, before, steps[|steps| - 1])
    ensures Run(job, src, metadata, steps).value == Next(job, src, before, steps[|steps| - 1])
  {
    RunKeepsInv(job, src, metadata, steps[..|steps| - 1]);
    before := Run(job, src, metadata, steps[..|steps| - 1]).value;
  }

  lemma NothingVerifiedYet(job: Job, metadata: seq<byte>)
    ensures PhaseFollows(job, Initial(job, metadata).receiver, [])
  {
  }

  lemma PhaseOfLast(job: Job, src: seq<seq<byte>>, metadata: seq<byte>, before: Net, steps: seq<Step>)
    requires steps != [] && Setup(job, src) && Inv(job, src, metadata, before)
    requires CanStep(job, before, steps[|steps| - 1]) && PhaseFollows(job, before.receiver, steps[..|steps| - 1])
    ensures PhaseFollows(job, Next(job, src, before, steps[|steps| - 1]).receiver, steps)
  {
    var earlier, step := steps[..|steps| - 1], steps[|steps| - 1];
    assert steps == earlier + [step];
    PhaseStep(job, src, metadata, before, earlier, step);
  }

  lemma {:induction false} PhaseFollowsRun(job: Job, src: seq<seq<byte>>, metadata: seq<byte>, steps: seq<Step>)
    requires Setup(job, src)
    requires Run(job, src, metadata, steps).Some?
    ensures PhaseFollows(job, Run(job, src, metadata, steps).value.receiver, steps)
  {
    if steps == [] {
      NothingVerifiedYet(job, metadata);
    } else {
      var before := LastStep(job, src, metadata, steps);
      PhaseFollowsRun(job, src, metadata, steps[..|steps| - 1]);
      PhaseOfLast(job, src, metadata, before, steps);
    }
  }

  ghost predicate EqualFiles(job: Job, src: seq<seq<byte>>, r: Receiver)
    requires |src| == |job.offer.items|
  {
    forall i :: 0 <= i < |src| ==>
      var path := job.offer.items[i].relativePath;
      path in r.files && r.files[path] == src[i]
  }

  /**
   End to end: once the sender's window is complete, every chunk is stored and the receiver is verifying or done.
   Each file then equals its source, and the directory is removed if and only if a verifying read failed. The receiver
   is done exactly when it has read back every file and no read failed.
   */
  lemma CompleteMeansEqualFiles(job: Job, src: seq<seq<byte>>, metadata: seq<byte>, steps: seq<Step>)
    requires Setup(job, src)
    requires Run(job, src, metadata, steps).Some?
    requires Complete(Run(job, src, metadata, steps).value.sender.window)
    ensures var r := Run(job, src, metadata, steps).value.receiver;
            var readFailed := VerifyFile(false) in steps;
            && |r.received| == |src| == |job.offer.items| && AllItemsDone(job, r.received)
            && r.phase != Running
            && (EqualFiles(job, src, r) <==> !readFailed)
            && (r.phase == Failed <==> readFailed)
            && (readFailed ==> r.files == map[])
            && (r.phase == Completed <==> !readFailed && Verifications(steps) == |src|)
  {
    RunKeepsInv(job, src, metadata, steps);
    PhaseFollowsRun(job, src, metadata, steps);
    var n := Run(job, src, metadata, steps).value;
    EverythingAckedIsDone(job, src, metadata, n);
    if n.receiver.phase != Failed {
      assert forall i :: 0 <= i < |src| ==> Lookup(n.receiver.files, job.offer.items[i].relativePath) == Some(src[i]);
    } else {
      assert job.offer.items[0].relativePath !in n.receiver.files;
    }
  }

  lemma AckedChunkReceived(job: Job, received: seq<set<nat>>, acked: set<nat>, i: nat, c: nat)
    requires |received| == |job.offer.items| && AckedWasReceived(job.offer.items, acked, received)
    requires forall k :: 0 <= k < |Chunks(job.offer.items)| ==> k in acked
    requires i < |received| && c < job.offer.items[i].totalChunks
    ensures c in received[i]
  {
    ChunkAt(job.offer.items, i, c);
    assert IsReceived(job.offer.items, received, StartOf(job.offer.items, i) + c);
  }

  lemma EverythingAckedIsDone(job: Job, src: seq<seq<byte>>, metadata: seq<byte>, n: Net)
    requires Setup(job, src) && Inv(job, src, metadata, n) && Complete(n.sender.window)
    ensures AllItemsDone(job, n.receiver.received)
  {
    forall i | 0 <= i < |src|
      ensures |n.receiver.received[i]| == job.offer.items[i].totalChunks
    {
      forall c: nat | c < job.offer.items[i].totalChunks
        ensures c in n.receiver.received[i]
      {
        AckedChunkReceived(job, n.receiver.received, n.sender.window.acked, i, c);
      }
      assert n.receiver.received[i] == Range(job.offer.items[i].totalChunks);
      BelowSize(n.receiver.received[i], job.offer.items[i].totalChunks);
    }
  }

  /**
   Conservation: the receiver's counter is the size of the distinct chunks it holds, and the offer's total at the
   end.
   */
  lemma ReceivedBytesConserved(job: Job, src: seq<seq<byte>>, metadata: seq<byte>, steps: seq<Step>)
    requires Setup(job, src)
    requires Run(job, src, metadata, steps).Some?
    ensures var n := Run(job, src, metadata, steps).value;
            && |n.receiver.received| == |src| == |job.offer.items|
            && n.receiver.bytes == TotalBytes(job, src, n.receiver.received, |src|)
            && (AllItemsDone(job, n.receiver.received) ==> n.receiver.bytes == job.offer.totalSize)
  {
    RunKeepsInv(job, src, metadata, steps);
    var n := Run(job, src, metadata, steps).value;
    if AllItemsDone(job, n.receiver.received) {
      AllBytes(job, src, n.receiver.received, |src|);
      assert src[..|src|] == src;
    }
  }

  lemma {:induction false} AllBytes(job: Job, src: seq<seq<byte>>, received: seq<set<nat>>, upto: nat)
    requires Setup(job, src) && |received| == |src| && upto <= |src| && AllItemsDone(job, received)
    requires forall i, c :: 0 <= i < |src| && c in received[i] ==> c < job.offer.items[i].totalChunks
    ensures TotalBytes(job, src, received, upto) == TotalSize(src[..upto])
  {
    if upto == 0 {
    } else {
      var i := upto - 1;
      AllBytes(job, src, received, i);
      BelowSize(received[i], job.offer.items[i].totalChunks);
      BytesOfAll(received[i], job.offer.items[i].totalChunks, ChunkLen(job.suite), |src[i]|);
      CountIsCeiling(|src[i]|, ChunkLen(job.suite));
      assert src[..upto][..i] == src[..i];
    }
  }

  /**
   What of item `i` must be on disk: its file exists exactly if a chunk is stored, with the bytes of stored chunk
   `c`.
   */
  ghost predicate KeepsStored(job: Job, src: seq<seq<byte>>, r: Receiver, i: nat, c: nat, j: nat)
    requires i < |src| == |job.offer.items|
  {
    var path := job.offer.items[i].relativePath;
    && |r.received| == |src|
    && (path in r.files <==> r.received[i] != {})
    && (c in r.received[i] && Covers(c, ChunkLen(job.suite), |src[i]|, j) ==>
          path in r.files && j < |r.files[path]| && r.files[path][j] == src[i][j])
  }

  lemma FilesKeepStored(job: Job, src: seq<seq<byte>>, r: Receiver, i: nat, c: nat, j: nat)
    requires Setup(job, src) && i < |src| && |r.received| == |src|
    requires FilesRight(job, src, r) && PhaseRight(job, r) && r.phase != Failed
    ensures KeepsStored(job, src, r, i, c, j)
  {
    var file := Lookup(r.files, job.offer.items[i].relativePath);
    if r.phase == Running {
      assert FileOk(src[i], ChunkLen(job.suite), r.received[i], file);
    } else {
      CountIsCeiling(|src[i]|, ChunkLen(job.suite));
      assert file == Some(src[i]) && |r.received[i]| == job.offer.items[i].totalChunks;
    }
  }

  /** The truncate flag is raised only while the item has no stored chunk, and stored bytes stay as they are. */
  lemma TruncateDestroysNothing(job: Job, src: seq<seq<byte>>, metadata: seq<byte>, steps: seq<Step>, i: nat, c: nat,
                                j: nat)
    requires Setup(job, src) && i < |src|
    requires Run(job, src, metadata, steps).Some?
    ensures var r := Run(job, src, metadata, steps).value.receiver;
            r.phase != Failed ==> KeepsStored(job, src, r, i, c, j)
  {
    RunKeepsInv(job, src, metadata, steps);
    var r := Run(job, src, metadata, steps).value.receiver;
    if r.phase != Failed {
      FilesKeepStored(job, src, r, i, c, j);
    }
  }

  /** No deadlock: while work is left and nothing is in flight, the sender may send its next chunk. */
  lemma TransferNeverStalls(job: Job, src: seq<seq<byte>>, metadata: seq<byte>, steps: seq<Step>)
    requires Setup(job, src)
    requires Run(job, src, metadata, steps).Some?
    ensures var s := Run(job, src, metadata, steps).value.sender;
            && (forall k :: k in s.window.acked ==> k < s.next)
            && (!Complete(s.window) && s.window.inFlight == map[] ==> CanSend(s.window, s.next))
  {
    RunKeepsInv(job, src, metadata, steps);
    var n := Run(job, src, metadata, steps).value;
    forall k | k in n.sender.window.acked
      ensures k < n.sender.next
    {
      assert IsReceived(job.offer.items, n.receiver.received, k);
      ChunkIs(job.offer.items, k);
    }
    if !Complete(n.sender.window) && n.sender.window.inFlight == map[] {
      NoDeadlock(n.sender.window, n.sender.next);
    }
  }

  /** Work bound: at most 6 transmissions of any chunk, and at most 7 productive events per chunk. */
  lemma TransferWorkBounded(job: Job, src: seq<seq<byte>>, metadata: seq<byte>, steps: seq<Step>)
    requires Setup(job, src)
    requires Run(job, src, metadata, steps).Some?
    ensures var s := Run(job, src, metadata, steps).value.sender;
            && (forall k :: 0 <= k < |s.times| ==> s.times[k] <= 6)
            && s.next + s.newAcks + s.retryIncrements <= 7 * |Chunks(job.offer.items)|
            && MIN_RTO <= s.window.rtt.rto <= MAX_RTO
  {
    RunKeepsInv(job, src, metadata, steps);
    var s := Run(job, src, metadata, steps).value.sender;
    SenderLoop.ExtraBound(s.times, MAX_RETRIES);
    BelowSize(s.window.acked, s.window.total);
  }

  /** Nonce discipline: over metadata, first sends and every retransmission, one nonce never seals two plaintexts. */
  lemma NonceNeverReused(job: Job, src: seq<seq<byte>>, metadata: seq<byte>, steps: seq<Step>,
                         u: (Block12, seq<byte>), v: (Block12, seq<byte>))
    requires Setup(job, src)
    requires Run(job, src, metadata, steps).Some?
    requires u in Run(job, src, metadata, steps).value.seals && v in Run(job, src, metadata, steps).value.seals
    requires u.0 == v.0
    ensures u.1 == v.1
  {
    RunKeepsInv(job, src, metadata, steps);
    var n := Run(job, src, metadata, steps).value;
    if u != (MetadataNonce(), metadata) && v != (MetadataNonce(), metadata) {
      var k :| 0 <= k < n.sender.next && u == SealOf(job, src, k);
      var l :| 0 <= l < n.sender.next && v == SealOf(job, src, l);
      SameNonceSameChunk(job, src, k, l);
    } else if u != (MetadataNonce(), metadata) {
      var k :| 0 <= k < n.sender.next && u == SealOf(job, src, k);
      SameNonceSameChunk(job, src, k, k);
    } else if v != (MetadataNonce(), metadata) {
      var l :| 0 <= l < n.sender.next && v == SealOf(job, src, l);
      SameNonceSameChunk(job, src, l, l);
    }
  }

  lemma SameNonceSameChunk(job: Job, src: seq<seq<byte>>, k: nat, l: nat)
    requires Setup(job, src) && k < |Chunks(job.offer.items)| && l < |Chunks(job.offer.items)|
    ensures SealOf(job, src, k).0 == SealOf(job, src, l).0 <==> k == l
    ensures SealOf(job, src, k).0 != MetadataNonce()
  {
    ChunkIs(job.offer.items, k);
    ChunkIs(job.offer.items, l);
    var a, b := Chunks(job.offer.items)[k], Chunks(job.offer.items)[l];
    NoncesSeparate(job.offer.items[a.item].itemIndex, a.index, job.offer.items[b.item].itemIndex, b.index);
  }
}
