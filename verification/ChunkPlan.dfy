/** How a file is cut into chunks, and why the cutting loses and repeats nothing. */
module ChunkPlan {
  import opened Bytes
  import opened BinaryHeader

  const GCM_TAG_LEN: nat := 16

  /** The plaintext chunk length every site must agree on. */
  function PlaintextChunkLen(encrypted: bool): (l: nat)
    ensures 0 < l <= MAX_PAYLOAD_LENGTH
    ensures encrypted ==> l + GCM_TAG_LEN == MAX_PAYLOAD_LENGTH
  {
    if encrypted then MAX_PAYLOAD_LENGTH - GCM_TAG_LEN else MAX_PAYLOAD_LENGTH
  }

  /** Rust's `/` on i64. */
  function TruncDiv(a: int, b: int): int
    requires b > 0
  {
    if a >= 0 then a / b else -(-a / b)
  }

  /** The `total_chunks` of an item, with the i64 addition and the u32 cast as the code has them. */
  function TotalChunks(size: int, chunkLen: nat): uint32
    requires chunkLen > 0
  {
    if size == 0 then 1 else ToU32(TruncDiv(WrapI64(size + chunkLen - 1), chunkLen))
  }

  function Offset(chunk: nat, chunkLen: nat): nat {
    chunk * chunkLen
  }

  function Length(chunk: nat, chunkLen: nat, size: nat): nat {
    var offset := Offset(chunk, chunkLen);
    if offset + chunkLen > size then (if size > offset then size - offset else 0) else chunkLen
  }

  /** The bytes the sender reads for one chunk. */
  function Piece(content: seq<byte>, chunk: nat, chunkLen: nat): (p: seq<byte>)
    ensures |p| == Length(chunk, chunkLen, |content|)
  {
    var offset := Offset(chunk, chunkLen);
    if offset > |content| then [] else content[offset..offset + Length(chunk, chunkLen, |content|)]
  }

  /** The first `n` pieces one after another. */
  function Pieces(content: seq<byte>, n: nat, chunkLen: nat): seq<byte> {
    if n == 0 then [] else Pieces(content, n - 1, chunkLen) + Piece(content, n - 1, chunkLen)
  }

  /** Byte `j` of a file belongs to chunk `chunk`. */
  predicate Covers(chunk: nat, chunkLen: nat, size: nat, j: nat) {
    Offset(chunk, chunkLen) <= j < Offset(chunk, chunkLen) + Length(chunk, chunkLen, size)
  }

  /** The sizes whose chunk count fits the u32 field. */
  predicate Countable(size: nat, chunkLen: nat) {
    size <= (U32_COUNT - 1) * chunkLen
  }

  lemma DivBounds(x: nat, d: nat)
    requires d > 0
    ensures (x / d) * d <= x < (x / d) * d + d
  {
    assert x == (x / d) * d + x % d;
  }

  lemma MulLe(a: nat, b: nat, d: nat)
    requires a <= b
    ensures a * d <= b * d
  {
  }

  /** For a countable file the count is the ceiling of size / chunkLen, and one for an empty file. */
  lemma CountIsCeiling(size: nat, chunkLen: nat)
    requires 0 < chunkLen <= MAX_PAYLOAD_LENGTH && Countable(size, chunkLen)
    ensures var n := TotalChunks(size, chunkLen);
            && n >= 1
            && size <= n * chunkLen
            && (size > 0 ==> (n - 1) * chunkLen < size)
  {
    if size > 0 {
      var x := size + chunkLen - 1;
      var n := x / chunkLen;
      MulLe(chunkLen, MAX_PAYLOAD_LENGTH, U32_COUNT);
      assert x < U32_COUNT * chunkLen == chunkLen * U32_COUNT;
      DivBounds(x, chunkLen);
      if n >= U32_COUNT {
        MulLe(U32_COUNT, n, chunkLen);
        assert false;
      }
      if n < 1 {
        MulLe(n, 0, chunkLen);
        assert false;
      }
      assert (n - 1) * chunkLen == n * chunkLen - chunkLen;
      assert WrapI64(x) == x && ToU32(n) == n;
    }
  }

  /** Consecutive chunks are disjoint intervals. */
  lemma ChunksDisjoint(c: nat, d: nat, chunkLen: nat, size: nat, j: nat)
    requires c != d && Covers(c, chunkLen, size, j)
    ensures !Covers(d, chunkLen, size, j)
  {
    if c < d {
      MulLe(c + 1, d, chunkLen);
      assert (c + 1) * chunkLen == c * chunkLen + chunkLen;
    } else {
      MulLe(d + 1, c, chunkLen);
      assert (d + 1) * chunkLen == d * chunkLen + chunkLen;
    }
  }

  lemma ChunkOfByte(size: nat, chunkLen: nat, j: nat)
    requires 0 < chunkLen <= MAX_PAYLOAD_LENGTH && Countable(size, chunkLen) && j < size
    ensures j / chunkLen < TotalChunks(size, chunkLen)
    ensures Covers(j / chunkLen, chunkLen, size, j)
  {
    var c := j / chunkLen;
    DivBounds(j, chunkLen);
    CountIsCeiling(size, chunkLen);
    var n := TotalChunks(size, chunkLen);
    if c >= n {
      MulLe(n, c, chunkLen);
    }
  }

  lemma OnlyChunkOfByte(size: nat, chunkLen: nat, j: nat, c: nat, d: nat)
    requires Covers(c, chunkLen, size, j)
    ensures Covers(d, chunkLen, size, j) <==> d == c
  {
    if d != c {
      ChunksDisjoint(c, d, chunkLen, size, j);
    }
  }

  /** Every byte lies in exactly one chunk, and that chunk is one of the counted ones. */
  lemma ByteHasOneChunk(size: nat, chunkLen: nat, j: nat)
    requires 0 < chunkLen <= MAX_PAYLOAD_LENGTH && Countable(size, chunkLen) && j < size
    ensures j / chunkLen < TotalChunks(size, chunkLen)
    ensures forall d: nat :: Covers(d, chunkLen, size, j) <==> d == j / chunkLen
  {
    var c := j / chunkLen;
    ChunkOfByte(size, chunkLen, j);
    forall d: nat
      ensures Covers(d, chunkLen, size, j) <==> d == c
    {
      OnlyChunkOfByte(size, chunkLen, j, c, d);
    }
  }

  /** The end of the first `n` chunks, cut at the end of the file. */
  function Upto(n: nat, chunkLen: nat, size: nat): (u: nat)
    ensures u <= size
  {
    if Offset(n, chunkLen) <= size then Offset(n, chunkLen) else size
  }

  lemma UptoStep(n: nat, chunkLen: nat, size: nat)
    ensures Offset(n + 1, chunkLen) == Offset(n, chunkLen) + chunkLen
    ensures Upto(n + 1, chunkLen, size) == Upto(n, chunkLen, size) + Length(n, chunkLen, size)
    ensures Offset(n, chunkLen) <= size ==> Upto(n, chunkLen, size) == Offset(n, chunkLen)
    ensures Offset(n, chunkLen) > size ==> Length(n, chunkLen, size) == 0
  {
  }

  lemma PieceIsSlice(content: seq<byte>, n: nat, chunkLen: nat)
    ensures Upto(n, chunkLen, |content|) <= Upto(n + 1, chunkLen, |content|)
    ensures Piece(content, n, chunkLen) == content[Upto(n, chunkLen, |content|)..Upto(n + 1, chunkLen, |content|)]
  {
    UptoStep(n, chunkLen, |content|);
  }

  lemma JoinSlices(content: seq<byte>, a: nat, b: nat)
    requires a <= b <= |content|
    ensures content[..a] + content[a..b] == content[..b]
  {
  }

  lemma {:induction false} PiecesArePrefix(content: seq<byte>, n: nat, chunkLen: nat)
    ensures Pieces(content, n, chunkLen) == content[..Upto(n, chunkLen, |content|)]
  {
    if n == 0 {
      assert Upto(0, chunkLen, |content|) == 0;
    } else {
      PiecesArePrefix(content, n - 1, chunkLen);
      PieceIsSlice(content, n - 1, chunkLen);
      var a, b := Upto(n - 1, chunkLen, |content|), Upto(n, chunkLen, |content|);
      JoinSlices(content, a, b);
    }
  }

  /** The counted pieces rebuild the file exactly when its chunk count fits in 32 bits. */
  lemma PiecesRebuildFile(content: seq<byte>, chunkLen: nat)
    requires 0 < chunkLen <= MAX_PAYLOAD_LENGTH
    ensures Pieces(content, TotalChunks(|content|, chunkLen), chunkLen) == content <==> Countable(|content|, chunkLen)
  {
    var n := TotalChunks(|content|, chunkLen);
    PiecesArePrefix(content, n, chunkLen);
    if Countable(|content|, chunkLen) {
      CountIsCeiling(|content|, chunkLen);
    } else {
      MulLe(n, U32_COUNT - 1, chunkLen);
      assert |Pieces(content, n, chunkLen)| < |content|;
    }
  }
}
