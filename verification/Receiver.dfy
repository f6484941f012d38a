/** The receiving side of a transfer: files written at chunk offsets, ACKs, counters and verification. */
module Receiving {
  import opened Wrappers
  import opened Bytes
  import opened BinaryHeader
  import opened ChunkPlan
  import opened Offers
  import opened Framing

  /** A transfer as both ends know it once the offer was accepted. */
  datatype Job = Job(session: Block16, suite: Suite, offer: Offer, hash: seq<byte> -> string)

  const TAG_FAIL_LIMIT: nat := 3

  /** `checked` is the number of files already verified. */
  datatype Phase = Running | Verifying(checked: nat) | Completed | Failed

  datatype Receiver = Receiver(
    files: map<string, seq<byte>>, received: seq<set<nat>>, bytes: int,
    tagFailures: map<(nat, nat), nat>, tagTotal: nat, phase: Phase)

  function Begin(job: Job): Receiver {
    Receiver(map[], seq(|job.offer.items|, _ => {}), 0, map[], 0, Running)
  }

  // ----- files -----

  function Zeros(n: nat): (z: seq<byte>)
    ensures |z| == n
  {
    seq(n, _ => 0 as byte)
  }

  /** Seek to `offset` and write: a gap reads as zeros, and writing nothing changes nothing. */
  function WriteAt(f: seq<byte>, offset: nat, payload: seq<byte>): seq<byte> {
    if payload == [] then f
    else
      var front := if |f| < offset then f + Zeros(offset - |f|) else f[..offset];
      var back := if offset + |payload| < |f| then f[offset + |payload|..] else [];
      front + payload + back
  }

  /** write_payload_chunk: create, optionally truncate, seek, write. */
  function WriteChunk(previous: Option<seq<byte>>, chunk: nat, payload: seq<byte>, truncate: bool,
                      chunkLen: nat): seq<byte> {
    WriteAt(if truncate || previous.None? then [] else previous.value, Offset(chunk, chunkLen), payload)
  }

  function Lookup(files: map<string, seq<byte>>, path: string): Option<seq<byte>> {
    if path in files then Some(files[path]) else None
  }

  // ----- one message -----

  function Fail(r: Receiver): Receiver {
    r.(files := map[], phase := Failed)
  }

  /** record_tag_failure: the raised counters and whether to abort. */
  function RecordTagFailure(r: Receiver, item: nat, chunk: nat): (Receiver, bool) {
    var per := (if (item, chunk) in r.tagFailures then r.tagFailures[(item, chunk)] else 0) + 1;
    var r' := r.(tagFailures := r.tagFailures[(item, chunk) := per], tagTotal := r.tagTotal + 1);
    (r', per >= TAG_FAIL_LIMIT || r'.tagTotal >= TAG_FAIL_LIMIT)
  }

  predicate AllItemsDone(job: Job, received: seq<set<nat>>)
    requires |received| == |job.offer.items|
  {
    forall i :: 0 <= i < |received| ==> |received[i]| == job.offer.items[i].totalChunks
  }

  /** After the last chunk the loop stops reading messages and verifies. */
  function Finish(job: Job, r: Receiver): Receiver
    requires |r.received| == |job.offer.items|
  {
    if AllItemsDone(job, r.received) then r.(phase := Verifying(0)) else r
  }

  predicate FileVerifies(job: Job, files: map<string, seq<byte>>, i: nat)
    requires i < |job.offer.items|
  {
    var it := job.offer.items[i];
    it.relativePath in files && job.hash(files[it.relativePath]) == it.sha256
  }

  /** Verifies one more file; `readOk` says whether it can be read. The first failure removes the directory. */
  function VerifyNext(job: Job, r: Receiver, readOk: bool): Receiver
    requires r.phase.Verifying?
  {
    var i := r.phase.checked;
    if i >= |job.offer.items| then r.(phase := Completed)
    else if !readOk || !FileVerifies(job, r.files, i) then Fail(r)
    else r.(phase := if i + 1 == |job.offer.items| then Completed else Verifying(i + 1))
  }

  /** The verification of all files in turn, up to the first that fails. */
  function VerifyAll(job: Job, r: Receiver, readOk: nat -> bool): Receiver
    requires r.phase.Verifying?
    decreases |job.offer.items| - r.phase.checked
  {
    var r' := VerifyNext(job, r, readOk(r.phase.checked));
    if r'.phase.Verifying? then VerifyAll(job, r', readOk) else r'
  }

  /** The files are kept exactly if each of them can be read and has its hash; otherwise the directory is removed. */
  lemma {:induction false} VerifyAllDecides(job: Job, r: Receiver, readOk: nat -> bool)
    requires r.phase.Verifying?
    ensures var r' := VerifyAll(job, r, readOk);
            if forall i :: r.phase.checked <= i < |job.offer.items| ==> readOk(i) && FileVerifies(job, r.files, i)
            then r' == r.(phase := Completed)
            else r' == Fail(r)
    decreases |job.offer.items| - r.phase.checked
  {
    var r' := VerifyNext(job, r, readOk(r.phase.checked));
    if r'.phase.Verifying? {
      VerifyAllDecides(job, r', readOk);
    }
  }

  function Stored(job: Job, r: Receiver, item: nat, chunk: nat, payload: seq<byte>): Receiver
    requires |r.received| == |job.offer.items| && item < |r.received|
  {
    var target := job.offer.items[item].relativePath;
    var truncate := chunk == 0 && target !in r.files;
    r.(
      files := r.files[target := WriteChunk(Lookup(r.files, target), chunk, payload, truncate, ChunkLen(job.suite))],
      received := r.received[item := r.received[item] + {chunk}],
      bytes := if chunk in r.received[item] then r.bytes else r.bytes + |payload|)
  }

  /**
   One pass of the receiver loop; `ioOk` is the outcome of the file write, `readOk` that of reading each file back.
   */
  function Receive(job: Job, r: Receiver, frame: seq<byte>, ioOk: bool, readOk: nat -> bool): (Receiver, seq<seq<byte>>)
    requires |r.received| == |job.offer.items|
  {
    var (r', replies) := React(job, r, Inspect(job.suite, frame), ioOk);
    (if r'.phase.Verifying? then VerifyAll(job, r', readOk) else r', replies)
  }

  /** A message up to its reply, once the checks have judged it. The ACK leaves before any verification. */
  function React(job: Job, r: Receiver, verdict: Verdict, ioOk: bool): (Receiver, seq<seq<byte>>)
    requires |r.received| == |job.offer.items|
  {
    match verdict
    case TooShort => (r, [])
    case BadHeader => (Fail(r), [])
    case BadChecksum(session, item, chunk) => (r, [Encode(NewReverse(Nack, session, item, chunk))])
    case BadTag(session, item, chunk) =>
      var (r', abort) := RecordTagFailure(r, item, chunk);
      if abort then (Fail(r'), []) else (r', [Encode(NewReverse(Nack, session, item, chunk))])
    case Plaintext(h, payload) =>
      if h.itemIndex >= |job.offer.items| then (r, [])
      else if !ioOk then (Fail(r), [])
      else
        (Finish(job, Stored(job, r, h.itemIndex, h.chunkIndex, payload)),
         [Encode(NewReverse(Ack, h.sessionId, h.itemIndex, h.chunkIndex))])
  }

  /** The per-chunk threshold is never the first to fire: the session count alone decides the abort. */
  lemma {:induction false} AbortIsThirdFailure(job: Job, failures: seq<(nat, nat)>)
    ensures var r := AfterFailures(job, failures);
            && r.tagTotal == |failures|
            && (forall k :: k in r.tagFailures ==> r.tagFailures[k] <= |failures|)
            && forall item: nat, chunk: nat :: RecordTagFailure(r, item, chunk).1 <==> |failures| + 1 >= TAG_FAIL_LIMIT
  {
    if failures == [] {
    } else {
      AbortIsThirdFailure(job, failures[..|failures| - 1]);
    }
  }

  function AfterFailures(job: Job, failures: seq<(nat, nat)>): Receiver {
    if failures == [] then Begin(job)
    else
      var last := failures[|failures| - 1];
      RecordTagFailure(AfterFailures(job, failures[..|failures| - 1]), last.0, last.1).0
  }

  // ----- a file under construction -----

  /** With chunks `got` written, the file holds exactly their bytes so far and never grows past the source. */
  ghost predicate FileOk(content: seq<byte>, chunkLen: nat, got: set<nat>, file: Option<seq<byte>>) {
    if got == {} then file.None?
    else
      && file.Some? && |file.value| <= |content|
      && forall c, j: nat :: c in got && Covers(c, chunkLen, |content|, j) ==>
          j < |file.value| && file.value[j] == content[j]
  }

  lemma WriteAtReads(f: seq<byte>, offset: nat, payload: seq<byte>)
    requires payload != []
    ensures var r := WriteAt(f, offset, payload);
            && |r| == (if |f| > offset + |payload| then |f| else offset + |payload|)
            && (forall j :: offset <= j < offset + |payload| ==> r[j] == payload[j - offset])
            && (forall j :: 0 <= j < |f| && !(offset <= j < offset + |payload|) ==> r[j] == f[j])
  {
  }

  lemma WriteKeepsFileOk(content: seq<byte>, chunkLen: nat, got: set<nat>, file: Option<seq<byte>>, c: nat)
    requires 0 < chunkLen <= MAX_PAYLOAD_LENGTH && Countable(|content|, chunkLen)
    requires FileOk(content, chunkLen, got, file) && c < TotalChunks(|content|, chunkLen)
    ensures var truncate := c == 0 && file.None?;
            var written := WriteChunk(file, c, Piece(content, c, chunkLen), truncate, chunkLen);
            FileOk(content, chunkLen, got + {c}, Some(written))
  {
    var offset, piece := Offset(c, chunkLen), Piece(content, c, chunkLen);
    CountIsCeiling(|content|, chunkLen);
    MulLe(c, TotalChunks(|content|, chunkLen) - 1, chunkLen);
    assert offset <= |content|;
    var f := if file.None? then [] else file.value;
    var r := WriteAt(f, offset, piece);
    if piece != [] {
      WriteAtReads(f, offset, piece);
    }
    assert |r| <= |content|;
    forall d, j: nat | d in got + {c} && Covers(d, chunkLen, |content|, j)
      ensures j < |r| && r[j] == content[j]
    {
      if d != c {
        assert d in got;
        ChunksDisjoint(d, c, chunkLen, |content|, j);
      }
    }
  }

  lemma ByteWritten(content: seq<byte>, chunkLen: nat, got: set<nat>, file: Option<seq<byte>>, j: nat)
    requires 0 < chunkLen <= MAX_PAYLOAD_LENGTH && Countable(|content|, chunkLen)
    requires FileOk(content, chunkLen, got, file) && j < |content|
    requires forall c :: 0 <= c < TotalChunks(|content|, chunkLen) ==> c in got
    ensures file.Some? && j < |file.value| && file.value[j] == content[j]
  {
    ChunkOfByte(|content|, chunkLen, j);
    assert j / chunkLen in got;
  }

  /** A file holding every counted chunk is the source, byte for byte. */
  lemma FullFileIsSource(content: seq<byte>, chunkLen: nat, got: set<nat>, file: Option<seq<byte>>)
    requires 0 < chunkLen <= MAX_PAYLOAD_LENGTH && Countable(|content|, chunkLen)
    requires FileOk(content, chunkLen, got, file)
    requires forall c :: 0 <= c < TotalChunks(|content|, chunkLen) ==> c in got
    ensures file == Some(content)
  {
    CountIsCeiling(|content|, chunkLen);
    assert 0 in got;
    var f := file.value;
    forall j | 0 <= j < |content|
      ensures j < |f| && f[j] == content[j]
    {
      ByteWritten(content, chunkLen, got, file, j);
    }
    if content != [] {
      ByteWritten(content, chunkLen, got, file, |content| - 1);
    }
    assert f == content;
  }

  // ----- bytes counted -----

  /** The bytes of the chunks below `n` that are in `got`. */
  function BytesOf(got: set<nat>, n: nat, chunkLen: nat, size: nat): nat {
    if n == 0 then 0
    else BytesOf(got, n - 1, chunkLen, size) + if n - 1 in got then Length(n - 1, chunkLen, size) else 0
  }

  lemma {:induction false} BytesOfInsert(got: set<nat>, n: nat, chunkLen: nat, size: nat, c: nat)
    ensures BytesOf(got + {c}, n, chunkLen, size) ==
            BytesOf(got, n, chunkLen, size) + if c < n && c !in got then Length(c, chunkLen, size) else 0
  {
    if n == 0 {
    } else {
      BytesOfInsert(got, n - 1, chunkLen, size, c);
    }
  }

  lemma {:induction false} BytesOfAll(got: set<nat>, n: nat, chunkLen: nat, size: nat)
    requires forall c :: 0 <= c < n ==> c in got
    ensures BytesOf(got, n, chunkLen, size) == Upto(n, chunkLen, size)
  {
    if n == 0 {
    } else {
      BytesOfAll(got, n - 1, chunkLen, size);
      UptoStep(n - 1, chunkLen, size);
    }
  }

  // ----- the loop body on fields -----

  class ReceiverTask {
    const job: Job
    var files: map<string, seq<byte>>
    var received: seq<set<nat>>
    var bytes: int
    var tagFailures: map<(nat, nat), nat>
    var tagTotal: nat
    var phase: Phase

    ghost function View(): Receiver
      reads this
    {
      Receiver(files, received, bytes, tagFailures, tagTotal, phase)
    }

    constructor (j: Job)
      ensures View() == Begin(j) && job == j
    {
      job := j;
      files, received, bytes := map[], seq(|j.offer.items|, _ => {}), 0;
      tagFailures, tagTotal, phase := map[], 0, Running;
    }

    method Abort()
      modifies this
      ensures View() == Fail(old(View()))
    {
      files, phase := map[], Failed;
    }

    method CountTagFailure(item: nat, chunk: nat) returns (abort: bool)
      modifies this`tagFailures, this`tagTotal
      ensures (View(), abort) == RecordTagFailure(old(View()), item, chunk)
    {
      tagTotal := tagTotal + 1;
      var per := if (item, chunk) in tagFailures then tagFailures[(item, chunk)] else 0;
      per := per + 1;
      tagFailures := tagFailures[(item, chunk) := per];
      abort := per >= TAG_FAIL_LIMIT || tagTotal >= TAG_FAIL_LIMIT;
    }

    /** Writes and counts; the last chunk ends the receiving phase. */
    method Store(item: nat, chunk: nat, payload: seq<byte>)
      requires |received| == |job.offer.items| && item < |received|
      modifies this
      ensures View() == Finish(job, Stored(job, old(View()), item, chunk, payload))
    {
      var target := job.offer.items[item].relativePath;
      var isFirst := chunk == 0 && target !in files;
      files := files[target := WriteChunk(Lookup(files, target), chunk, payload, isFirst, ChunkLen(job.suite))];
      var wasNew := chunk !in received[item];
      received := received[item := received[item] + {chunk}];
      if wasNew {
        bytes := bytes + |payload|;
      }
      assert View() == Stored(job, old(View()), item, chunk, payload);
      if AllItemsDone(job, received) {
        phase := Verifying(0);
      }
    }

    /** Verifies file after file and stops at the first that fails. */
    method VerifyFiles(readOk: nat -> bool)
      requires phase.Verifying?
      modifies this
      ensures View() == VerifyAll(job, old(View()), readOk)
    {
      ghost var result := VerifyAll(job, View(), readOk);
      while phase.Verifying?
        invariant if phase.Verifying? then VerifyAll(job, View(), readOk) == result else View() == result
        decreases if phase.Verifying? then 1 else 0, if phase.Verifying? then |job.offer.items| - phase.checked else 0
      {
        var i := phase.checked;
        if i >= |job.offer.items| {
          phase := Completed;
        } else if readOk(i) && FileVerifies(job, files, i) {
          phase := if i + 1 == |job.offer.items| then Completed else Verifying(i + 1);
        } else {
          Abort();
        }
      }
    }

    /** One pass of the loop. */
    method OnMessage(frame: seq<byte>, ioOk: bool, readOk: nat -> bool) returns (replies: seq<seq<byte>>)
      requires |received| == |job.offer.items| && phase == Running
      modifies this
      ensures (View(), replies) == Receive(job, old(View()), frame, ioOk, readOk)
    {
      replies := HandleMessage(frame, ioOk);
      if phase.Verifying? {
        VerifyFiles(readOk);
      }
    }

    /** Up to and including the reply. */
    method HandleMessage(frame: seq<byte>, ioOk: bool) returns (replies: seq<seq<byte>>)
      requires |received| == |job.offer.items|
      modifies this
      ensures (View(), replies) == React(job, old(View()), Inspect(job.suite, frame), ioOk)
    {
      replies := [];
      match Inspect(job.suite, frame) {
        case TooShort =>
        case BadHeader =>
          Abort();
        case BadChecksum(session, item, chunk) =>
          replies := [Encode(NewReverse(Nack, session, item, chunk))];
        case BadTag(session, item, chunk) =>
          var abort := CountTagFailure(item, chunk);
          if abort {
            Abort();
          } else {
            replies := [Encode(NewReverse(Nack, session, item, chunk))];
          }
        case Plaintext(h, payload) =>
          if h.itemIndex < |job.offer.items| {
            if ioOk {
              Store(h.itemIndex, h.chunkIndex, payload);
              replies := [Encode(NewReverse(Ack, h.sessionId, h.itemIndex, h.chunkIndex))];
            } else {
              Abort();
            }
          }
      }
    }
  }
}
