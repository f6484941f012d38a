/** Runs for which it matters: one file from first step to last, and the losses after which nothing can finish it. */
module TransferTraps {
  import opened Wrappers
  import opened Bytes
  import opened Sets
  import opened BinaryHeader
  import opened ChunkPlan
  import opened Offers
  import opened Framing
  import opened Receiving
  import opened SlidingWindows
  import opened Transfer
  import opened TransferProgress
  import SenderLoop

  // ----- one file -----

  /** The offer of one file. */
  function OneFileJob(session: Block16, suite: Suite, path: string, content: seq<byte>, hash: seq<byte> -> string): Job
    requires |content| < I64_HALF
  {
    var item := Item(0, path, |content|, false, hash(content), TotalChunks(|content|, ChunkLen(suite)));
    Job(session, suite, Offer("s", "FILES", |content|, 1, path, suite.cipher.Some?, None, None, [item]), hash)
  }

  lemma OneFileSetup(session: Block16, suite: Suite, path: string, content: seq<byte>, hash: seq<byte> -> string)
    requires SoundSuite(suite) && |content| < I64_HALF && Countable(|content|, ChunkLen(suite))
    ensures Setup(OneFileJob(session, suite, path, content, hash), [content])
  {
    assert [content][..0] == [] && TotalSize([content]) == |content|;
  }

  /** Nothing above is vacuous: any countable file, sealed or not, can be transferred from first step to last. */
  lemma OneFileCanFinish(session: Block16, suite: Suite, path: string, content: seq<byte>, hash: seq<byte> -> string,
                         metadata: seq<byte>)
    requires SoundSuite(suite) && |content| < I64_HALF && Countable(|content|, ChunkLen(suite))
    ensures var job := OneFileJob(session, suite, path, content, hash);
            Setup(job, [content]) && CanFinish(job, [content], Initial(job, metadata), false)
  {
    var job := OneFileJob(session, suite, path, content, hash);
    OneFileSetup(session, suite, path, content, hash);
    InitialInv(job, [content], metadata);
    TimeoutsSuffice(job, [content], metadata, Initial(job, metadata));
  }

  // ----- runs into the traps -----

  lemma Extend(job: Job, src: seq<seq<byte>>, metadata: seq<byte>, run: seq<Step>, step: Step)
    requires Setup(job, src)
    requires var n := Run(job, src, metadata, run); n.Some? && CanStep(job, n.value, step)
    ensures Inv(job, src, metadata, Run(job, src, metadata, run).value)
    ensures Run(job, src, metadata, run + [step]) == Some(Next(job, src, Run(job, src, metadata, run).value, step))
  {
    RunKeepsInv(job, src, metadata, run);
    assert (run + [step])[..|run|] == run;
  }

  /** The one chunk of a transfer is in flight, sent `retries` times again, and its frame is on the way. */
  ghost predicate OneInFlight(job: Job, src: seq<seq<byte>>, n: Net, retries: nat) {
    && |src| == |job.offer.items| && |Chunks(job.offer.items)| == 1
    && n.sender.window.inFlight.Keys == {0} && n.sender.window.inFlight[0].retries == retries
    && n.forward == {FrameOf(job, src, 0)} && n.backward == {} && n.receiver == Begin(job)
  }

  lemma SendShape(job: Job, src: seq<seq<byte>>, n: Net)
    requires WellSized(job, src, n) && CanStep(job, n, SendChunk(0)) && n.sender.next < |Chunks(job.offer.items)|
    ensures var n' := Next(job, src, n, SendChunk(0));
            && n'.sender == SenderLoop.Apply(n.sender, SenderLoop.Send(0))
            && n'.forward == n.forward + {FrameOf(job, src, n.sender.next)}
            && n'.backward == n.backward && n'.receiver == n.receiver
  {
    TransmitOne(job, src, n, n.sender.next);
    assert Outgoing(n.sender, SenderLoop.Send(0)) == {n.sender.next};
  }

  lemma SendOnly(job: Job, src: seq<seq<byte>>, metadata: seq<byte>) returns (run: seq<Step>)
    requires Setup(job, src) && |Chunks(job.offer.items)| == 1
    ensures Run(job, src, metadata, run).Some? && OneInFlight(job, src, Run(job, src, metadata, run).value, 0)
  {
    InitialInv(job, src, metadata);
    SendFirst(job, src, metadata);
    Extend(job, src, metadata, [], SendChunk(0));
    run := [] + [SendChunk(0)];
  }

  lemma SendFirst(job: Job, src: seq<seq<byte>>, metadata: seq<byte>)
    requires WellSized(job, src, Initial(job, metadata)) && |Chunks(job.offer.items)| == 1
    ensures CanStep(job, Initial(job, metadata), SendChunk(0))
    ensures OneInFlight(job, src, Next(job, src, Initial(job, metadata), SendChunk(0)), 0)
  {
    SendShape(job, src, Initial(job, metadata));
  }

  lemma OneChunkIsAll(job: Job, src: seq<seq<byte>>, metadata: seq<byte>, n: Net)
    requires Good(job, src, metadata, n) && |Chunks(job.offer.items)| == 1
    requires IsReceived(job.offer.items, n.receiver.received, 0)
    ensures AllItemsDone(job, n.receiver.received)
  {
    forall i | 0 <= i < |src|
      ensures |n.receiver.received[i]| == job.offer.items[i].totalChunks
    {
      forall c: nat | c < job.offer.items[i].totalChunks
        ensures c in n.receiver.received[i]
      {
        AckedChunkReceived(job, n.receiver.received, {0}, i, c);
      }
      assert n.receiver.received[i] == Range(job.offer.items[i].totalChunks);
      BelowSize(n.receiver.received[i], job.offer.items[i].totalChunks);
    }
  }

  /** Once the receiver has stopped listening, an in-flight chunk needs an ACK that is on the way. */
  lemma NoAckNoEnd(job: Job, src: seq<seq<byte>>, metadata: seq<byte>, n: Net, k: nat)
    requires Good(job, src, metadata, n) && k in n.sender.window.inFlight
    requires n.receiver.phase != Running && n.backward == {}
    ensures !CanFinish(job, src, n, true)
  {
    CanFinishIff(job, src, metadata, n);
    assert !AckWaits(job, n.backward, k);
  }

  lemma DeliverOnly(job: Job, src: seq<seq<byte>>, metadata: seq<byte>, run: seq<Step>) returns (longer: seq<Step>)
    requires Setup(job, src) && Run(job, src, metadata, run).Some?
    requires OneInFlight(job, src, Run(job, src, metadata, run).value, 0)
    ensures Run(job, src, metadata, longer).Some?
    ensures var n := Run(job, src, metadata, longer).value;
            Good(job, src, metadata, n) && Going(n) && 0 in n.sender.window.inFlight && n.receiver.phase != Running
  {
    var n := Run(job, src, metadata, run).value;
    RunKeepsInv(job, src, metadata, run);
    OneFrameWaits(job, src, n);
    var deliver := StoreMove(job, src, metadata, n, 0);
    Extend(job, src, metadata, run, deliver);
    longer := run + [deliver];
    OneChunkIsAll(job, src, metadata, Next(job, src, n, deliver));
  }

  lemma OneFrameWaits(job: Job, src: seq<seq<byte>>, n: Net)
    requires OneInFlight(job, src, n, 0)
    ensures FrameWaits(job, src, n, 0) && Going(n)
  {
  }

  /** Lost ACK: the one chunk is stored, the receiver stops listening, its ACK is lost. Neither end has given up. */
  lemma LostAckTraps(job: Job, src: seq<seq<byte>>, metadata: seq<byte>) returns (run: seq<Step>)
    requires Setup(job, src) && |Chunks(job.offer.items)| == 1
    ensures Run(job, src, metadata, run).Some?
    ensures var n := Run(job, src, metadata, run).value; Going(n) && !CanFinish(job, src, n, true)
  {
    run := SendOnly(job, src, metadata);
    run := DeliverOnly(job, src, metadata, run);
    var n := Run(job, src, metadata, run).value;
    run := DropAll(job, src, metadata, run);
    RunKeepsInv(job, src, metadata, run);
    NoAckNoEnd(job, src, metadata, n.(backward := {}), 0);
  }

  /** Every reply on the way is lost. */
  lemma {:induction false} DropAll(job: Job, src: seq<seq<byte>>, metadata: seq<byte>, run: seq<Step>)
    returns (longer: seq<Step>)
    requires Setup(job, src) && Run(job, src, metadata, run).Some?
    ensures Run(job, src, metadata, longer) == Some(Run(job, src, metadata, run).value.(backward := {}))
    decreases Run(job, src, metadata, run).value.backward
  {
    var n := Run(job, src, metadata, run).value;
    if n.backward == {} {
      longer := run;
    } else {
      var f :| f in n.backward;
      Extend(job, src, metadata, run, DropReply(f));
      longer := DropAll(job, src, metadata, run + [DropReply(f)]);
    }
  }

  lemma TickShape(job: Job, src: seq<seq<byte>>, n: Net, now: nat)
    requires |Chunks(job.offer.items)| == 1 && |src| == |job.offer.items| && n.forward == {FrameOf(job, src, 0)}
    requires WellSized(job, src, n) && CanStep(job, n, TimerTick(now)) && Retransmits(n.sender.window, now) == {0}
    ensures var n' := Next(job, src, n, TimerTick(now));
            && n'.sender == SenderLoop.Apply(n.sender, SenderLoop.Tick(now))
            && n'.forward == n.forward && n'.backward == n.backward && n'.receiver == n.receiver
  {
    TransmitOne(job, src, n, 0);
  }

  lemma TickOnce(job: Job, src: seq<seq<byte>>, metadata: seq<byte>, run: seq<Step>, retries: nat)
    returns (longer: seq<Step>)
    requires Setup(job, src) && Run(job, src, metadata, run).Some?
    requires OneInFlight(job, src, Run(job, src, metadata, run).value, retries) && retries < MAX_RETRIES - 1
    ensures Run(job, src, metadata, longer).Some?
    ensures OneInFlight(job, src, Run(job, src, metadata, longer).value, retries + 1)
  {
    var n := Run(job, src, metadata, run).value;
    var w := n.sender.window;
    RunKeepsInv(job, src, metadata, run);
    var now := LateTime(w, w.inFlight.Keys);
    TickKeepsOne(job, src, n, now, retries);
    Extend(job, src, metadata, run, TimerTick(now));
    longer := run + [TimerTick(now)];
  }

  lemma TickKeepsOne(job: Job, src: seq<seq<byte>>, n: Net, now: nat, retries: nat)
    requires WellSized(job, src, n) && OneInFlight(job, src, n, retries) && retries < MAX_RETRIES - 1
    requires forall k :: k in n.sender.window.inFlight ==> Late(n.sender.window, k, now)
    ensures CanStep(job, n, TimerTick(now)) && OneInFlight(job, src, Next(job, src, n, TimerTick(now)), retries + 1)
  {
    TickRetries(n.sender.window, now);
    assert 0 !in n.sender.window.acked;
    TickShape(job, src, n, now);
  }

  /** With nothing on the way and no retransmission left the transfer cannot finish. */
  lemma NothingLeft(job: Job, src: seq<seq<byte>>, metadata: seq<byte>, n: Net, k: nat)
    requires Good(job, src, metadata, n) && k in n.sender.window.inFlight
    requires n.sender.window.inFlight[k].retries >= MAX_RETRIES - 1 && n.forward == {} && n.backward == {}
    ensures !CanFinish(job, src, n, true)
  {
    CanFinishIff(job, src, metadata, n);
    assert !AckWaits(job, n.backward, k);
  }

  lemma TickFour(job: Job, src: seq<seq<byte>>, metadata: seq<byte>) returns (run: seq<Step>)
    requires Setup(job, src) && |Chunks(job.offer.items)| == 1
    ensures Run(job, src, metadata, run).Some?
    ensures OneInFlight(job, src, Run(job, src, metadata, run).value, MAX_RETRIES - 1)
  {
    run := SendOnly(job, src, metadata);
    for retries := 0 to MAX_RETRIES - 1
      invariant Run(job, src, metadata, run).Some?
      invariant OneInFlight(job, src, Run(job, src, metadata, run).value, retries)
    {
      run := TickOnce(job, src, metadata, run, retries);
    }
  }

  /** Last retransmission lost: the chunk was sent again four times, and the fifth frame is lost as well. */
  lemma LostRetryTraps(job: Job, src: seq<seq<byte>>, metadata: seq<byte>) returns (run: seq<Step>)
    requires Setup(job, src) && |Chunks(job.offer.items)| == 1
    ensures Run(job, src, metadata, run).Some?
    ensures var n := Run(job, src, metadata, run).value;
            Going(n) && n.receiver.phase == Running && !CanFinish(job, src, n, true)
  {
    run := TickFour(job, src, metadata);
    var n := Run(job, src, metadata, run).value;
    run := DropFrame(job, src, metadata, run);
    RunKeepsInv(job, src, metadata, run);
    NothingLeft(job, src, metadata, n.(forward := {}), 0);
  }

  /** The frame of the one chunk is lost, and neither end notices. */
  lemma DropFrame(job: Job, src: seq<seq<byte>>, metadata: seq<byte>, run: seq<Step>) returns (longer: seq<Step>)
    requires Setup(job, src) && Run(job, src, metadata, run).Some?
    requires OneInFlight(job, src, Run(job, src, metadata, run).value, MAX_RETRIES - 1)
    ensures Run(job, src, metadata, longer) == Some(Run(job, src, metadata, run).value.(forward := {}))
    ensures Going(Run(job, src, metadata, run).value)
  {
    var f := FrameOf(job, src, 0);
    var n := Run(job, src, metadata, run).value;
    StillGoing(job, src, n);
    RunKeepsInv(job, src, metadata, run);
    DropLast(job, src, n, f);
    Extend(job, src, metadata, run, DropData(f));
    longer := run + [DropData(f)];
  }

  lemma StillGoing(job: Job, src: seq<seq<byte>>, n: Net)
    requires OneInFlight(job, src, n, MAX_RETRIES - 1)
    ensures Going(n)
  {
    assert forall k :: k in n.sender.window.inFlight ==> k in {0};
  }

  lemma DropLast(job: Job, src: seq<seq<byte>>, n: Net, f: seq<byte>)
    requires WellSized(job, src, n) && n.forward == {f}
    ensures CanStep(job, n, DropData(f)) && Next(job, src, n, DropData(f)) == n.(forward := {})
  {
  }
}
