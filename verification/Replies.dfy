/** What the receiver does with each kind of message, and what the sender reads from its answer. */
module Replies {
  import opened Wrappers
  import opened Bytes
  import opened BinaryHeader
  import opened Framing
  import opened Receiving
  import opened Transfer

  // ----- the answer on the wire -----

  /** The sender reads a message exactly if it starts with an admitted header of an ACK (type 2) or a NACK (type 3). */
  lemma ReadsAckOrNack(frame: seq<byte>)
    ensures ReplyOf(frame).Some? <==> Decode(frame).Ok? && frame[3] in {2, 3}
    ensures ReplyOf(frame).Some? ==>
              ReplyOf(frame).value == Reply(frame[3] == 2, FromBe32(frame[20..24]), FromBe32(frame[24..28]))
  {
  }

  /** The one answer of a message, which the sender reads as an ACK or a NACK of this chunk. */
  predicate Answers(replies: seq<seq<byte>>, ack: bool, item: uint32, chunk: uint32) {
    |replies| == 1 && |replies[0]| == 64 && ReplyOf(replies[0]) == Some(Reply(ack, item, chunk))
  }

  lemma AnswerReadsBack(session: Block16, item: uint32, chunk: uint32)
    ensures Answers([Encode(NewReverse(Ack, session, item, chunk))], true, item, chunk)
    ensures Answers([Encode(NewReverse(Nack, session, item, chunk))], false, item, chunk)
  {
    AckReadsBack(session, item, chunk);
    WireFormat(NewReverse(Ack, session, item, chunk));
  }

  // ----- rejected messages -----

  /** No chunk failed more often than all together; every message keeps this. */
  predicate TagsCounted(r: Receiver) {
    forall k :: k in r.tagFailures ==> r.tagFailures[k] <= r.tagTotal
  }

  lemma ReactKeepsTags(job: Job, r: Receiver, verdict: Verdict, ioOk: bool)
    requires |r.received| == |job.offer.items| && TagsCounted(r)
    ensures TagsCounted(React(job, r, verdict, ioOk).0)
  {
  }

  lemma StepKeepsTags(job: Job, src: seq<seq<byte>>, n: Net, step: Step)
    requires WellSized(job, src, n) && CanStep(job, n, step) && TagsCounted(n.receiver)
    ensures TagsCounted(Next(job, src, n, step).receiver)
  {
    if step.DeliverData? {
      ReactKeepsTags(job, n.receiver, Inspect(job.suite, step.frame), step.ioOk);
    }
  }

  /** In every run the counts per chunk stay below the session's count. */
  lemma {:induction false} TagsCountedInRuns(job: Job, src: seq<seq<byte>>, metadata: seq<byte>, steps: seq<Step>)
    ensures var n := Run(job, src, metadata, steps); n.Some? ==> TagsCounted(n.value.receiver)
  {
    if steps == [] {
    } else {
      TagsCountedInRuns(job, src, metadata, steps[..|steps| - 1]);
      var before, step := Run(job, src, metadata, steps[..|steps| - 1]), steps[|steps| - 1];
      if before.Some? && WellSized(job, src, before.value) && CanStep(job, before.value, step) {
        StepKeepsTags(job, src, before.value, step);
      }
    }
  }

  /** What the receiver has and how far it is; the tag counters are left out. */
  predicate SameProgress(a: Receiver, b: Receiver) {
    a.files == b.files && a.received == b.received && a.bytes == b.bytes && a.phase == b.phase
  }

  /** A damaged chunk is asked for again, and nothing else happens. */
  lemma DamagedIsAskedFor(job: Job, r: Receiver, frame: seq<byte>, ioOk: bool)
    requires |r.received| == |job.offer.items|
    ensures var verdict := Inspect(job.suite, frame);
            var (r', replies) := React(job, r, verdict, ioOk);
            verdict.BadChecksum? ==> r' == r && Answers(replies, false, verdict.item, verdict.chunk)
  {
    var verdict := Inspect(job.suite, frame);
    if verdict.BadChecksum? {
      AnswerReadsBack(verdict.session, verdict.item, verdict.chunk);
    }
  }

  /** A wrong tag: the first two of a session ask for that very chunk again, the third ends the transfer silently. */
  lemma ThreeTagFailures(job: Job, r: Receiver, frame: seq<byte>, ioOk: bool)
    requires |r.received| == |job.offer.items| && TagsCounted(r)
    ensures var verdict := Inspect(job.suite, frame);
            var (r', replies) := React(job, r, verdict, ioOk);
            verdict.BadTag? ==>
              && r'.tagTotal == r.tagTotal + 1
              && (if r.tagTotal < 2 then SameProgress(r', r) && Answers(replies, false, verdict.item, verdict.chunk)
                  else r'.phase == Failed && r'.files == map[] && replies == [])
  {
    var verdict := Inspect(job.suite, frame);
    if verdict.BadTag? {
      AnswerReadsBack(verdict.session, verdict.item, verdict.chunk);
    }
  }

  /** Messages that leave no trace, and those that end the transfer; neither is answered. */
  lemma Unanswered(job: Job, r: Receiver, frame: seq<byte>, ioOk: bool)
    requires |r.received| == |job.offer.items|
    ensures var (r', replies) := React(job, r, Inspect(job.suite, frame), ioOk);
            && (|frame| < 64 ==> r' == r && replies == [])
            && (|frame| >= 64 && Decode(frame[..64]).Err? ==>
                  r'.phase == Failed && r'.files == map[] && replies == [])
  {
  }

  /** A sound chunk of an item that was not offered is ignored. */
  lemma ForeignItemIsIgnored(job: Job, r: Receiver, frame: seq<byte>, ioOk: bool)
    requires |r.received| == |job.offer.items|
    ensures var verdict := Inspect(job.suite, frame);
            verdict.Plaintext? && verdict.header.itemIndex >= |job.offer.items| ==>
              React(job, r, verdict, ioOk) == (r, [])
  {
  }

  // ----- stored chunks -----

  /** `g` is `f` with the payload laid over it at `offset`; a gap before it reads as zeros. */
  predicate Overlaid(f: seq<byte>, offset: nat, payload: seq<byte>, g: seq<byte>) {
    && |g| == (if payload != [] && offset + |payload| > |f| then offset + |payload| else |f|)
    && forall j :: 0 <= j < |g| ==>
         g[j] == if offset <= j < offset + |payload| then payload[j - offset] else if j < |f| then f[j] else 0
  }

  lemma WriteOverlays(f: seq<byte>, offset: nat, payload: seq<byte>)
    ensures Overlaid(f, offset, payload, WriteAt(f, offset, payload))
  {
  }

  /** A sound chunk: its bytes land at its place in its item's file and nothing else in any file changes. */
  lemma ChunkIsStored(job: Job, r: Receiver, frame: seq<byte>)
    requires |r.received| == |job.offer.items|
    requires Inspect(job.suite, frame).Plaintext?
    requires Inspect(job.suite, frame).header.itemIndex < |job.offer.items|
    ensures var verdict := Inspect(job.suite, frame);
            var item, chunk := verdict.header.itemIndex, verdict.header.chunkIndex;
            var path := job.offer.items[item].relativePath;
            var r' := React(job, r, verdict, true).0;
            && r'.files.Keys == r.files.Keys + {path}
            && (forall p :: p in r.files && p != path ==> r'.files[p] == r.files[p])
            && var chunkLen := 4 * 1024 * 1024 - if job.suite.cipher.Some? then 16 else 0;
               Overlaid(if path in r.files then r.files[path] else [], chunk * chunkLen, verdict.payload,
                        r'.files[path])
  {
    var verdict := Inspect(job.suite, frame);
    var path := job.offer.items[verdict.header.itemIndex].relativePath;
    WriteOverlays(if path in r.files then r.files[path] else [], verdict.header.chunkIndex * ChunkLen(job.suite),
                  verdict.payload);
  }

  /** Its chunk counts once; verification starts when every item has all its chunks. */
  lemma ChunkIsCounted(job: Job, r: Receiver, frame: seq<byte>)
    requires |r.received| == |job.offer.items|
    requires Inspect(job.suite, frame).Plaintext?
    requires Inspect(job.suite, frame).header.itemIndex < |job.offer.items|
    ensures var verdict := Inspect(job.suite, frame);
            var item, chunk := verdict.header.itemIndex, verdict.header.chunkIndex;
            var r' := React(job, r, verdict, true).0;
            && r'.received == r.received[item := r.received[item] + {chunk}]
            && r'.bytes == r.bytes + (if chunk in r.received[item] then 0 else |verdict.payload|)
            && (r'.tagFailures, r'.tagTotal) == (r.tagFailures, r.tagTotal)
            && r'.phase == if forall i :: 0 <= i < |r'.received| ==> |r'.received[i]| == job.offer.items[i].totalChunks
                           then Verifying(0) else r.phase
  {
  }

  /** It is acknowledged exactly if it was written; a failed write ends the transfer without an answer. */
  lemma WrittenIsAcknowledged(job: Job, r: Receiver, frame: seq<byte>, ioOk: bool)
    requires |r.received| == |job.offer.items|
    requires Inspect(job.suite, frame).Plaintext?
    requires Inspect(job.suite, frame).header.itemIndex < |job.offer.items|
    ensures var verdict := Inspect(job.suite, frame);
            var (r', replies) := React(job, r, verdict, ioOk);
            if ioOk then Answers(replies, true, verdict.header.itemIndex, verdict.header.chunkIndex)
            else r'.phase == Failed && r'.files == map[] && replies == []
  {
    var h := Inspect(job.suite, frame).header;
    AnswerReadsBack(h.sessionId, h.itemIndex, h.chunkIndex);
  }
}
