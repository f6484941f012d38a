/** The 64-byte frame header, as both the Rust client and the Go relay read and write it. */
module BinaryHeader {
  import opened Wrappers
  import opened Bytes

  const HEADER_SIZE: nat := 64
  const MAGIC_NUMBER: uint16 := 0x5544
  const CURRENT_VERSION: byte := 0x01
  const MAX_PAYLOAD_LENGTH: uint32 := 4 * 1024 * 1024

  const FLAG_ENCRYPTED: uint32 := 1
  const FLAG_LAST_CHUNK: uint32 := 4

  type Block8 = s: seq<byte> | |s| == 8 witness [0, 0, 0, 0, 0, 0, 0, 0]
  type Block12 = s: seq<byte> | |s| == 12 witness [0, 0, 0, 0, 0, 0, 0, 0, 0, 0, 0, 0]
  type Block16 = s: seq<byte> | |s| == 16 witness [0, 0, 0, 0, 0, 0, 0, 0, 0, 0, 0, 0, 0, 0, 0, 0]

  const ZERO8: Block8 := [0, 0, 0, 0, 0, 0, 0, 0]
  const ZERO12: Block12 := [0, 0, 0, 0, 0, 0, 0, 0, 0, 0, 0, 0]

  datatype ChunkType = Data | Ack | Nack | Probe

  /** `T` is `ChunkType` on the Rust side and a raw byte on the Go side. */
  datatype Header<T> = Header(
    magic: uint16, version: byte, chunkType: T, sessionId: Block16,
    itemIndex: uint32, chunkIndex: uint32, totalChunks: uint32,
    payloadLen: uint32, checksum: uint32, nonce: Block12, flags: uint32, reserved: Block8)

  datatype DecodeError = BufferTooSmall | InvalidMagic | UnsupportedVersion | UnknownChunkType | PayloadTooLarge

  function TypeByte(t: ChunkType): byte {
    match t
    case Data => 1
    case Ack => 2
    case Nack => 3
    case Probe => 4
  }

  function TypeOf(b: byte): Option<ChunkType> {
    if b == 1 then Some(Data)
    else if b == 2 then Some(Ack)
    else if b == 3 then Some(Nack)
    else if b == 4 then Some(Probe)
    else None
  }

  /** Forgets that the chunk type is one of the four known ones. */
  function Erase(h: Header<ChunkType>): Header<byte> {
    Header(h.magic, h.version, TypeByte(h.chunkType), h.sessionId, h.itemIndex, h.chunkIndex, h.totalChunks,
           h.payloadLen, h.checksum, h.nonce, h.flags, h.reserved)
  }

  // ----- layout -----

  function Identity(h: Header<byte>): seq<byte> {
    Be16(h.magic) + [h.version, h.chunkType] + h.sessionId
  }

  function Numbers(h: Header<byte>): seq<byte> {
    Be32(h.itemIndex) + Be32(h.chunkIndex) + Be32(h.totalChunks) + Be32(h.payloadLen) + Be32(h.checksum)
  }

  function Trailer(h: Header<byte>): seq<byte> {
    h.nonce + Be32(h.flags) + h.reserved
  }

  function GoEncode(h: Header<byte>): (b: seq<byte>)
    ensures |b| == HEADER_SIZE
  {
    Identity(h) + Numbers(h) + Trailer(h)
  }

  function Encode(h: Header<ChunkType>): (b: seq<byte>)
    ensures |b| == HEADER_SIZE
  {
    GoEncode(Erase(h))
  }

  /** Reads the fields without judging them. */
  function Fields(b: seq<byte>): Header<byte>
    requires |b| >= HEADER_SIZE
  {
    Header(FromBe16(b[0..2]), b[2], b[3], b[4..20],
           FromBe32(b[20..24]), FromBe32(b[24..28]), FromBe32(b[28..32]),
           FromBe32(b[32..36]), FromBe32(b[36..40]), b[40..52], FromBe32(b[52..56]), b[56..64])
  }

  function GoDecode(b: seq<byte>): Result<Header<byte>, DecodeError> {
    if |b| < HEADER_SIZE then Err(BufferTooSmall)
    else
      var h := Fields(b);
      if h.magic != MAGIC_NUMBER then Err(InvalidMagic)
      else if h.version != CURRENT_VERSION then Err(UnsupportedVersion)
      else if h.payloadLen > MAX_PAYLOAD_LENGTH then Err(PayloadTooLarge)
      else Ok(h)
  }

  function Decode(b: seq<byte>): Result<Header<ChunkType>, DecodeError> {
    if |b| < HEADER_SIZE then Err(BufferTooSmall)
    else
      var h := Fields(b);
      if h.magic != MAGIC_NUMBER then Err(InvalidMagic)
      else if h.version != CURRENT_VERSION then Err(UnsupportedVersion)
      else if TypeOf(h.chunkType) == None then Err(UnknownChunkType)
      else if h.payloadLen > MAX_PAYLOAD_LENGTH then Err(PayloadTooLarge)
      else Ok(Header(h.magic, h.version, TypeOf(h.chunkType).value, h.sessionId, h.itemIndex, h.chunkIndex,
                     h.totalChunks, h.payloadLen, h.checksum, h.nonce, h.flags, h.reserved))
  }

  /** The headers the decoders accept. */
  predicate Valid<T>(h: Header<T>) {
    h.magic == MAGIC_NUMBER && h.version == CURRENT_VERSION && h.payloadLen <= MAX_PAYLOAD_LENGTH
  }

  // ----- the fields survive the layout, with anything after the header -----

  lemma NumbersRead(h: Header<byte>)
    ensures var n := Numbers(h);
            && |n| == 20
            && n[0..4] == Be32(h.itemIndex) && n[4..8] == Be32(h.chunkIndex) && n[8..12] == Be32(h.totalChunks)
            && n[12..16] == Be32(h.payloadLen) && n[16..20] == Be32(h.checksum)
  {
  }

  lemma SliceOfMiddle(a: seq<byte>, m: seq<byte>, c: seq<byte>, i: nat, j: nat)
    requires i <= j <= |m|
    ensures (a + m + c)[|a| + i..|a| + j] == m[i..j]
  {
  }

  lemma FieldsOfEncoded(h: Header<byte>, rest: seq<byte>)
    ensures Fields(GoEncode(h) + rest) == h
  {
    var b := GoEncode(h) + rest;
    var pre, n, post := Identity(h), Numbers(h), Trailer(h);
    assert b == pre + n + (post + rest);
    NumbersRead(h);
    SliceOfMiddle(pre, n, post + rest, 0, 4);
    SliceOfMiddle(pre, n, post + rest, 4, 8);
    SliceOfMiddle(pre, n, post + rest, 8, 12);
    SliceOfMiddle(pre, n, post + rest, 12, 16);
    SliceOfMiddle(pre, n, post + rest, 16, 20);
    assert b[0..2] == Be16(h.magic) && b[2] == h.version && b[3] == h.chunkType;
    assert b[4..20] == h.sessionId;
    assert b == pre + n + post + rest;
    SliceOfMiddle(pre + n, post, rest, 0, 12);
    SliceOfMiddle(pre + n, post, rest, 12, 16);
    SliceOfMiddle(pre + n, post, rest, 16, 24);
    assert post[0..12] == h.nonce && post[12..16] == Be32(h.flags) && post[16..24] == h.reserved;
    Be16RoundTrip(h.magic);
    Be32RoundTrip(h.itemIndex);
    Be32RoundTrip(h.chunkIndex);
    Be32RoundTrip(h.totalChunks);
    Be32RoundTrip(h.payloadLen);
    Be32RoundTrip(h.checksum);
    Be32RoundTrip(h.flags);
  }

  lemma TypeRoundTrip(t: ChunkType)
    ensures TypeOf(TypeByte(t)) == Some(t)
  {
  }

  /** decode(encode(h) ++ rest) is h exactly for the headers the format allows. */
  lemma DecodeEncode(h: Header<ChunkType>, rest: seq<byte>)
    ensures Decode(Encode(h) + rest) == Ok(h) <==> Valid(h)
    ensures GoDecode(Encode(h) + rest) == Ok(Erase(h)) <==> Valid(h)
  {
    FieldsOfEncoded(Erase(h), rest);
    TypeRoundTrip(h.chunkType);
  }

  lemma DecodeExact(h: Header<ChunkType>)
    requires Valid(h)
    ensures Decode(Encode(h)) == Ok(h)
  {
    DecodeEncode(h, []);
    assert Encode(h) + [] == Encode(h);
  }

  lemma EncodeOfFields(b: seq<byte>)
    requires |b| == HEADER_SIZE
    ensures GoEncode(Fields(b)) == b
  {
    Be32Surjective(b[20..24]);
    Be32Surjective(b[24..28]);
    Be32Surjective(b[28..32]);
    Be32Surjective(b[32..36]);
    Be32Surjective(b[36..40]);
    Be32Surjective(b[52..56]);
    var h := Fields(b);
    assert Identity(h) == b[0..20];
    assert Numbers(h) == b[20..24] + b[24..28] + b[28..32] + b[32..36] + b[36..40] == b[20..40];
    assert Trailer(h) == b[40..52] + b[52..56] + b[56..64] == b[40..64];
  }

  /** encode(decode(b)) gives the buffer back, in both languages. */
  lemma EncodeDecode(b: seq<byte>)
    requires |b| == HEADER_SIZE
    ensures Decode(b).Ok? ==> Valid(Decode(b).value) && Encode(Decode(b).value) == b
    ensures GoDecode(b).Ok? ==> Valid(GoDecode(b).value) && GoEncode(GoDecode(b).value) == b
  {
    EncodeOfFields(b);
  }

  /** What Rust accepts Go accepts with the same fields; Go accepts more only for unknown chunk types. */
  lemma DecodersAgree(b: seq<byte>)
    ensures Decode(b).Ok? ==> GoDecode(b) == Ok(Erase(Decode(b).value))
    ensures GoDecode(b).Ok? ==> (Decode(b).Ok? <==> 1 <= GoDecode(b).value.chunkType <= 4)
    ensures GoDecode(b).Err? ==> Decode(b).Err?
  {
  }

  // ----- constructors -----

  function NewData(session: Block16, item: uint32, chunk: uint32, total: uint32, payload: seq<byte>,
                   checksum: uint32): Header<ChunkType> {
    Header(MAGIC_NUMBER, CURRENT_VERSION, Data, session, item, chunk, total, ToU32(|payload|), checksum, ZERO12,
           if chunk + 1 == total then FLAG_LAST_CHUNK else 0, ZERO8)
  }

  function NewReverse(t: ChunkType, session: Block16, item: uint32, chunk: uint32): Header<ChunkType> {
    Header(MAGIC_NUMBER, CURRENT_VERSION, t, session, item, chunk, 0, 0, 0, ZERO12, 0, ZERO8)
  }

  /** An ACK or NACK frame reads back as the (type, item, chunk) it was built from. */
  lemma ReverseReadsBack(t: ChunkType, session: Block16, item: uint32, chunk: uint32)
    ensures Decode(Encode(NewReverse(t, session, item, chunk))) == Ok(NewReverse(t, session, item, chunk))
  {
    DecodeExact(NewReverse(t, session, item, chunk));
  }

  /** Writes a header into the front of a caller's buffer and touches nothing behind it. */
  method EncodeInto(h: Header<ChunkType>, dst: array<byte>) returns (r: Result<(), DecodeError>)
    modifies dst
    ensures r.Ok? <==> dst.Length >= HEADER_SIZE
    ensures r.Ok? ==> dst[..] == Encode(h) + old(dst[HEADER_SIZE..])
    ensures r.Err? ==> dst[..] == old(dst[..])
  {
    if dst.Length < HEADER_SIZE {
      return Err(BufferTooSmall);
    }
    var b := Encode(h);
    forall i | 0 <= i < HEADER_SIZE {
      dst[i] := b[i];
    }
    return Ok(());
  }

  // ----- the wire format, byte by byte -----

  /** Every field at its place in the 64 bytes, numbers most significant byte first. */
  lemma WireFormat(h: Header<ChunkType>)
    ensures var b := Encode(h);
            && b[0] as int * 256 + b[1] == h.magic && b[2] == h.version
            && b[3] == (match h.chunkType case Data => 1 case Ack => 2 case Nack => 3 case Probe => 4)
            && b[4..20] == h.sessionId
            && FromBe32(b[20..24]) == h.itemIndex && FromBe32(b[24..28]) == h.chunkIndex
            && FromBe32(b[28..32]) == h.totalChunks && FromBe32(b[32..36]) == h.payloadLen
            && FromBe32(b[36..40]) == h.checksum && b[40..52] == h.nonce
            && FromBe32(b[52..56]) == h.flags && b[56..64] == h.reserved
  {
    FieldsOfEncoded(Erase(h), []);
    assert GoEncode(Erase(h)) + [] == Encode(h);
    assert Encode(h)[0..2] == [Encode(h)[0], Encode(h)[1]];
  }

  /** Big-endian: the first byte counts 2^24. */
  lemma BigEndian(x: uint32)
    ensures var b := Be32(x);
            |b| == 4 && x == b[0] as int * 0x100_0000 + b[1] as int * 0x1_0000 + b[2] as int * 0x100 + b[3]
  {
  }

  /** A constructed data header starts with "UD", version 1 and type 1, and the last chunk of an item is flagged. */
  lemma DataHeader(session: Block16, item: uint32, chunk: uint32, total: uint32, payload: seq<byte>, checksum: uint32)
    ensures var h := NewData(session, item, chunk, total, payload, checksum);
            && Encode(h)[0] == 'U' as int && Encode(h)[1] == 'D' as int && Encode(h)[2] == 1 && Encode(h)[3] == 1
            && (h.itemIndex, h.chunkIndex, h.totalChunks, h.sessionId) == (item, chunk, total, session)
            && h.checksum == checksum && (|payload| < U32_COUNT ==> h.payloadLen == |payload|)
            && h.flags == (if chunk + 1 == total then 4 else 0)
            && h.nonce == [0, 0, 0, 0, 0, 0, 0, 0, 0, 0, 0, 0] && h.reserved == [0, 0, 0, 0, 0, 0, 0, 0]
  {
    WireFormat(NewData(session, item, chunk, total, payload, checksum));
  }

  /** A constructed ACK or NACK names the chunk and declares nothing else. */
  lemma ReverseHeader(t: ChunkType, session: Block16, item: uint32, chunk: uint32)
    ensures var h := NewReverse(t, session, item, chunk);
            && Encode(h)[0] == 'U' as int && Encode(h)[1] == 'D' as int && Encode(h)[2] == 1
            && (h.chunkType, h.itemIndex, h.chunkIndex, h.sessionId) == (t, item, chunk, session)
            && h.totalChunks == h.payloadLen == h.checksum == h.flags == 0
  {
    WireFormat(NewReverse(t, session, item, chunk));
  }

  /** Which buffers are refused, and for which first reason; a payload may have 4 MB and no byte more. */
  lemma RefusedBuffers(b: seq<byte>)
    ensures Decode(b) == Err(BufferTooSmall) <==> |b| < 64
    ensures |b| >= 64 ==>
              var marked := b[0] == 0x55 && b[1] == 0x44;
              && (Decode(b) == Err(InvalidMagic) <==> !marked)
              && (Decode(b) == Err(UnsupportedVersion) <==> marked && b[2] != 1)
              && (Decode(b) == Err(UnknownChunkType) <==> marked && b[2] == 1 && b[3] !in {1, 2, 3, 4})
              && (Decode(b) == Err(PayloadTooLarge) <==>
                    marked && b[2] == 1 && b[3] in {1, 2, 3, 4} && FromBe32(b[32..36]) > 4_194_304)
  {
    if |b| >= 64 {
      assert b[0..2] == [b[0], b[1]];
    }
  }
}
