/** Data frames: how the sender builds them and what the receiver and the relay check. */
module Framing {
  import opened Wrappers
  import opened Bytes
  import opened BinaryHeader
  import opened ChunkPlan
  import opened E2ee

  /** The key of the session, if it is encrypted, and the checksum function. */
  datatype Suite = Suite(cipher: Option<Cipher>, crc: seq<byte> -> uint32)

  ghost predicate SoundSuite(s: Suite) {
    s.cipher.Some? ==> Sound(s.cipher.value)
  }

  function ChunkLen(s: Suite): nat {
    PlaintextChunkLen(s.cipher.Some?)
  }

  function WirePayload(s: Suite, item: uint32, chunk: uint32, plaintext: seq<byte>): seq<byte> {
    if s.cipher.Some? then s.cipher.value.seal(DataNonce(item, chunk), plaintext) else plaintext
  }

  function FrameHeader(s: Suite, session: Block16, item: uint32, chunk: uint32, total: uint32,
                       payload: seq<byte>): Header<ChunkType> {
    var h := NewData(session, item, chunk, total, payload, s.crc(payload));
    if s.cipher.Some? then h.(nonce := DataNonce(item, chunk), flags := h.flags + FLAG_ENCRYPTED) else h
  }

  /** build_data_frame. */
  function BuildFrame(s: Suite, session: Block16, item: uint32, chunk: uint32, total: uint32,
                      plaintext: seq<byte>): seq<byte> {
    var payload := WirePayload(s, item, chunk, plaintext);
    Encode(FrameHeader(s, session, item, chunk, total, payload)) + payload
  }

  /** What the receiver makes of a binary message before it touches any file. */
  datatype Verdict =
    | TooShort
    | BadHeader
    | BadChecksum(session: Block16, item: uint32, chunk: uint32)
    | BadTag(session: Block16, item: uint32, chunk: uint32)
    | Plaintext(header: Header<ChunkType>, payload: seq<byte>)

  function Inspect(s: Suite, frame: seq<byte>): Verdict {
    if |frame| < HEADER_SIZE then TooShort
    else
      match Decode(frame[..HEADER_SIZE])
      case Err(_) => BadHeader
      case Ok(h) =>
        var wire := frame[HEADER_SIZE..];
        if ToU32(|wire|) != h.payloadLen || s.crc(wire) != h.checksum then
          BadChecksum(h.sessionId, h.itemIndex, h.chunkIndex)
        else if s.cipher.None? then Plaintext(h, wire)
        else
          match Open(s.cipher.value, DataNonce(h.itemIndex, h.chunkIndex), wire)
          case None => Verdict.BadTag(h.sessionId, h.itemIndex, h.chunkIndex)
          case Some(plain) => Plaintext(h, plain)
  }

  // ----- the relay's checks -----

  const BUFFER_SIZE: nat := HEADER_SIZE + MAX_PAYLOAD_LENGTH
  const ACK_BUFFER_SIZE: nat := 64

  /** The forward pump's checks. */
  predicate RelayForwards(frame: seq<byte>) {
    && |frame| >= HEADER_SIZE
    && GoDecode(frame).Ok?
    && GoDecode(frame).value.chunkType == TypeByte(Data)
    && GoDecode(frame).value.payloadLen == |frame| - HEADER_SIZE
  }

  /** The reverse pump's checks; the frame's own length is compared with nothing. */
  predicate RelayReturns(frame: seq<byte>) {
    && |frame| >= HEADER_SIZE
    && GoDecode(frame).Ok?
    && 2 <= GoDecode(frame).value.chunkType <= 4
    && GoDecode(frame).value.payloadLen == 0
  }

  // ----- theorems -----

  lemma HeaderFits(s: Suite, session: Block16, item: uint32, chunk: uint32, total: uint32, plaintext: seq<byte>)
    requires SoundSuite(s) && |plaintext| <= ChunkLen(s)
    ensures var payload := WirePayload(s, item, chunk, plaintext);
            var h := FrameHeader(s, session, item, chunk, total, payload);
            Valid(h) && |payload| == h.payloadLen
  {
  }

  lemma Split<T>(a: seq<T>, b: seq<T>, n: nat)
    requires |a| == n
    ensures (a + b)[..n] == a && (a + b)[n..] == b
  {
  }

  lemma FrameParts(s: Suite, session: Block16, item: uint32, chunk: uint32, total: uint32, plaintext: seq<byte>)
    requires SoundSuite(s) && |plaintext| <= ChunkLen(s)
    ensures var payload := WirePayload(s, item, chunk, plaintext);
            var h := FrameHeader(s, session, item, chunk, total, payload);
            var f := BuildFrame(s, session, item, chunk, total, plaintext);
            && |payload| == h.payloadLen <= MAX_PAYLOAD_LENGTH && |f| == HEADER_SIZE + |payload|
            && f[HEADER_SIZE..] == payload
            && Decode(f[..HEADER_SIZE]) == Ok(h) && GoDecode(f) == Ok(Erase(h))
  {
    var payload := WirePayload(s, item, chunk, plaintext);
    var h := FrameHeader(s, session, item, chunk, total, payload);
    HeaderFits(s, session, item, chunk, total, plaintext);
    Split(Encode(h), payload, HEADER_SIZE);
    DecodeExact(h);
    DecodeEncode(h, payload);
  }

  /** The receiver gets back exactly the plaintext and indices the sender framed, sealed or not. */
  lemma FrameReadsBack(s: Suite, session: Block16, item: uint32, chunk: uint32, total: uint32, plaintext: seq<byte>)
    requires SoundSuite(s) && |plaintext| <= ChunkLen(s)
    ensures var v := Inspect(s, BuildFrame(s, session, item, chunk, total, plaintext));
            && v.Plaintext? && v.payload == plaintext
            && v.header.sessionId == session && v.header.itemIndex == item && v.header.chunkIndex == chunk
  {
    FrameParts(s, session, item, chunk, total, plaintext);
    var payload := WirePayload(s, item, chunk, plaintext);
    if s.cipher.Some? {
      assert Open(s.cipher.value, DataNonce(item, chunk), payload) == Some(plaintext);
    }
  }

  /** A data frame with its checksum field damaged. */
  function DamagedFrame(s: Suite, session: Block16, item: uint32, chunk: uint32, total: uint32,
                        plaintext: seq<byte>): seq<byte> {
    var wire := WirePayload(s, item, chunk, plaintext);
    var h := FrameHeader(s, session, item, chunk, total, wire);
    Encode(h.(checksum := ToU32(h.checksum + 1))) + wire
  }

  /** The receiver sees the damage and knows which chunk to ask for again. */
  lemma DamageIsSeen(s: Suite, session: Block16, item: uint32, chunk: uint32, total: uint32, plaintext: seq<byte>)
    requires SoundSuite(s) && |plaintext| <= ChunkLen(s)
    ensures Inspect(s, DamagedFrame(s, session, item, chunk, total, plaintext)) == BadChecksum(session, item, chunk)
  {
    var wire := WirePayload(s, item, chunk, plaintext);
    var h := FrameHeader(s, session, item, chunk, total, wire);
    HeaderFits(s, session, item, chunk, total, plaintext);
    BadSumIsSeen(s, h.(checksum := ToU32(h.checksum + 1)), wire);
  }

  lemma BadSumIsSeen(s: Suite, h: Header<ChunkType>, wire: seq<byte>)
    requires Valid(h) && h.checksum != s.crc(wire)
    ensures Inspect(s, Encode(h) + wire) == BadChecksum(h.sessionId, h.itemIndex, h.chunkIndex)
  {
    DecodeExact(h);
    Split(Encode(h), wire, HEADER_SIZE);
  }

  /** Every frame of a full or partial chunk passes the relay and fits its pool buffer; one more byte does not. */
  lemma FramePassesRelay(s: Suite, session: Block16, item: uint32, chunk: uint32, total: uint32, plaintext: seq<byte>)
    requires SoundSuite(s) && |plaintext| < U32_COUNT - GCM_TAG_LEN
    ensures var f := BuildFrame(s, session, item, chunk, total, plaintext);
            RelayForwards(f) && |f| <= BUFFER_SIZE <==> |plaintext| <= ChunkLen(s)
  {
    var payload := WirePayload(s, item, chunk, plaintext);
    if |plaintext| <= ChunkLen(s) {
      FrameParts(s, session, item, chunk, total, plaintext);
    } else {
      assert |payload| > MAX_PAYLOAD_LENGTH;
    }
  }

  /** Whatever the forward pump lets through fits the pool buffer it is copied into. */
  lemma ForwardedFits(frame: seq<byte>)
    requires RelayForwards(frame)
    ensures |frame| <= BUFFER_SIZE
  {
  }

  /** The client's own ACK and NACK frames pass the reverse pump and fit its 64-byte buffers. */
  lemma ReverseFramesFit(t: ChunkType, session: Block16, item: uint32, chunk: uint32)
    requires t == Ack || t == Nack
    ensures var f := Encode(NewReverse(t, session, item, chunk));
            RelayReturns(f) && |f| == ACK_BUFFER_SIZE
  {
    ReverseReadsBack(t, session, item, chunk);
    DecodersAgree(Encode(NewReverse(t, session, item, chunk)));
  }

  /**
   The reverse pump's checks do not bound the frame: what is appended to a frame that passes passes too. A frame that
   passes fits its 64-byte buffer exactly if nothing follows the header.
   */
  lemma ReverseChecksAdmitLonger(frame: seq<byte>, tail: seq<byte>)
    requires RelayReturns(frame)
    ensures RelayReturns(frame + tail)
    ensures |frame + tail| <= ACK_BUFFER_SIZE <==> |frame| == HEADER_SIZE && tail == []
  {
    HeaderOnly(frame, tail);
  }

  lemma HeaderOnly(frame: seq<byte>, tail: seq<byte>)
    requires |frame| >= HEADER_SIZE
    ensures GoDecode(frame + tail) == GoDecode(frame)
  {
    assert forall i, j :: 0 <= i <= j <= HEADER_SIZE ==> (frame + tail)[i..j] == frame[i..j];
  }

  // ----- what a frame says and which frames pass -----

  /** The header of a data frame names its chunk, the last one is flagged, and a sealed one carries flag and nonce. */
  lemma FrameSays(s: Suite, session: Block16, item: uint32, chunk: uint32, total: uint32, plaintext: seq<byte>)
    requires SoundSuite(s) && |plaintext| <= ChunkLen(s)
    ensures var f := BuildFrame(s, session, item, chunk, total, plaintext);
            && Decode(f[..HEADER_SIZE]).Ok?
            && var h := Decode(f[..HEADER_SIZE]).value;
               && h.chunkType == Data && h.sessionId == session
               && (h.itemIndex, h.chunkIndex, h.totalChunks) == (item, chunk, total)
               && h.payloadLen == |f| - 64 == |plaintext| + (if s.cipher.Some? then 16 else 0)
               && h.checksum == s.crc(f[HEADER_SIZE..])
               && h.flags == (if chunk + 1 == total then 4 else 0) + (if s.cipher.Some? then 1 else 0)
               && h.nonce == (if s.cipher.Some? then DataNonce(item, chunk) else ZERO12)
  {
    FrameParts(s, session, item, chunk, total, plaintext);
  }

  /** A frame whose length or checksum does not match its header is never taken for a chunk. */
  lemma MismatchIsSeen(s: Suite, frame: seq<byte>)
    requires |frame| >= HEADER_SIZE && Decode(frame[..HEADER_SIZE]).Ok? && |frame| < U32_COUNT
    ensures var h := Decode(frame[..HEADER_SIZE]).value;
            Inspect(s, frame) == BadChecksum(h.sessionId, h.itemIndex, h.chunkIndex) <==>
            |frame| - HEADER_SIZE != h.payloadLen || s.crc(frame[HEADER_SIZE..]) != h.checksum
  {
  }

  /** A frame that is too short is no message, and one whose header is refused is a bad header. */
  lemma ShortOrForeign(s: Suite, frame: seq<byte>)
    ensures Inspect(s, frame) == TooShort <==> |frame| < 64
    ensures Inspect(s, frame) == BadHeader <==> |frame| >= 64 && Decode(frame[..64]).Err?
  {
  }

  /** A sealed frame with a wrong tag is told from a damaged one. */
  lemma TagIsChecked(s: Suite, frame: seq<byte>)
    requires s.cipher.Some? && |frame| >= HEADER_SIZE && Decode(frame[..HEADER_SIZE]).Ok?
    requires ToU32(|frame| - HEADER_SIZE) == Decode(frame[..HEADER_SIZE]).value.payloadLen
    requires s.crc(frame[HEADER_SIZE..]) == Decode(frame[..HEADER_SIZE]).value.checksum
    ensures var h := Decode(frame[..HEADER_SIZE]).value;
            var plain := Open(s.cipher.value, DataNonce(h.itemIndex, h.chunkIndex), frame[HEADER_SIZE..]);
            Inspect(s, frame) == (if plain.Some? then Plaintext(h, plain.value)
                                  else Verdict.BadTag(h.sessionId, h.itemIndex, h.chunkIndex))
  {
  }

  /** The forward pump lets through exactly the admitted data headers followed by as many bytes as they declare. */
  lemma ForwardedExactly(frame: seq<byte>)
    ensures RelayForwards(frame) <==>
            exists h: Header<byte>, payload: seq<byte> :: IsDataFrame(frame, h, payload)
  {
    if RelayForwards(frame) {
      var h := GoDecode(frame).value;
      EncodeOfFields(frame[..HEADER_SIZE]);
      SameFields(frame);
      assert frame == frame[..HEADER_SIZE] + frame[HEADER_SIZE..];
      assert IsDataFrame(frame, h, frame[HEADER_SIZE..]);
    }
    if h: Header<byte>, payload: seq<byte> :| IsDataFrame(frame, h, payload) {
      FieldsOfEncoded(h, payload);
    }
  }

  ghost predicate IsDataFrame(frame: seq<byte>, h: Header<byte>, payload: seq<byte>) {
    Valid(h) && h.chunkType == 1 && frame == GoEncode(h) + payload && |payload| == h.payloadLen
  }

  lemma SameFields(frame: seq<byte>)
    requires |frame| >= HEADER_SIZE
    ensures Fields(frame[..HEADER_SIZE]) == Fields(frame)
  {
    assert forall i, j :: 0 <= i <= j <= HEADER_SIZE ==> frame[..HEADER_SIZE][i..j] == frame[i..j];
  }

  /** The reverse pump lets through exactly the admitted ACK, NACK and probe headers that declare no payload. */
  lemma ReturnedExactly(frame: seq<byte>)
    ensures RelayReturns(frame) <==>
            exists h: Header<byte>, rest: seq<byte> :: IsReverseFrame(frame, h, rest)
  {
    if RelayReturns(frame) {
      var h := GoDecode(frame).value;
      EncodeOfFields(frame[..HEADER_SIZE]);
      SameFields(frame);
      assert frame == frame[..HEADER_SIZE] + frame[HEADER_SIZE..];
      assert IsReverseFrame(frame, h, frame[HEADER_SIZE..]);
    }
    if h: Header<byte>, rest: seq<byte> :| IsReverseFrame(frame, h, rest) {
      FieldsOfEncoded(h, rest);
    }
  }

  ghost predicate IsReverseFrame(frame: seq<byte>, h: Header<byte>, rest: seq<byte>) {
    Valid(h) && h.chunkType in {2, 3, 4} && h.payloadLen == 0 && frame == GoEncode(h) + rest
  }
}
