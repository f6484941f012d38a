/** Transfer offers and how the sender builds one from the selected files. */
module Offers {
  import opened Wrappers
  import opened Bytes
  import opened ChunkPlan

  datatype Item = Item(
    itemIndex: uint32, relativePath: string, size: int64, isDir: bool, sha256: string, totalChunks: uint32)

  datatype Offer = Offer(
    sessionId: string, dataType: string, totalSize: int64, totalItems: nat, previewSummary: string,
    encrypted: bool, e2eeVersion: Option<byte>, encryptedMetadata: Option<string>, items: seq<Item>)

  const E2EE_VERSION: byte := 1

  datatype SelectedFile = SelectedFile(path: string, relative: string)

  /** What the file system answers for a path. */
  datatype FileState = Unreadable | Directory | Unopenable(length: nat) | Regular(content: seq<byte>)

  predicate Usable(st: FileState) {
    st.Regular? || st.Unopenable?
  }

  /** `metadata.len() as i64`. */
  function SizeOf(st: FileState): int64
    requires Usable(st)
  {
    WrapI64(if st.Regular? then |st.content| else st.length)
  }

  /** The files the sender keeps: readable and not a directory. */
  function UsableFiles(files: seq<SelectedFile>, fs: string -> FileState): (u: seq<SelectedFile>)
    ensures forall f :: f in u ==> Usable(fs(f.path))
  {
    if files == [] then []
    else
      var rest := UsableFiles(files[..|files| - 1], fs);
      var f := files[|files| - 1];
      if Usable(fs(f.path)) then rest + [f] else rest
  }

  function Sizes(files: seq<SelectedFile>, fs: string -> FileState): (s: seq<int64>)
    requires forall f :: f in files ==> Usable(fs(f.path))
    ensures |s| == |files|
  {
    if files == [] then []
    else Sizes(files[..|files| - 1], fs) + [SizeOf(fs(files[|files| - 1].path))]
  }

  function Sum(s: seq<int64>): int {
    if s == [] then 0 else Sum(s[..|s| - 1]) + s[|s| - 1]
  }

  /** The running int64 sum, wrapping at every addition. */
  function WrappedSum(s: seq<int64>): int64 {
    if s == [] then 0 else WrapI64(WrappedSum(s[..|s| - 1]) + s[|s| - 1])
  }

  lemma {:induction false} WrappedSumIsSum(s: seq<int64>)
    ensures WrappedSum(s) == WrapI64(Sum(s))
  {
    if s == [] {
    } else {
      WrappedSumIsSum(s[..|s| - 1]);
      WrapAbsorbs(Sum(s[..|s| - 1]), s[|s| - 1]);
    }
  }

  /** The item the sender describes for file `f` at position `i`. */
  function ItemAt(f: SelectedFile, st: FileState, i: nat, chunkLen: nat, hash: seq<byte> -> string): Item
    requires st.Regular? && chunkLen > 0
  {
    Item(ToU32(i), f.relative, SizeOf(st), false, hash(st.content), TotalChunks(SizeOf(st), chunkLen))
  }

  /** What an offer for the given file contents must say, item by item, for the receiver to rebuild them. */
  ghost predicate Describes(offer: Offer, contents: seq<seq<byte>>, hash: seq<byte> -> string) {
    && |offer.items| == |contents|
    && forall i :: 0 <= i < |contents| ==>
         && offer.items[i].itemIndex == i
         && offer.items[i].size == |contents[i]|
         && offer.items[i].totalChunks == TotalChunks(|contents[i]|, PlaintextChunkLen(offer.encrypted))
         && offer.items[i].sha256 == hash(contents[i])
  }

  datatype PrepareError = NothingToSend | CannotOpen(path: string)

  /** Items and paths are index-aligned with the usable files `u`. */
  ghost predicate Aligned(items: seq<Item>, paths: seq<string>, u: seq<SelectedFile>, fs: string -> FileState,
                          chunkLen: nat, hash: seq<byte> -> string)
    requires chunkLen > 0
  {
    && |items| == |paths| == |u|
    && forall i :: 0 <= i < |u| ==>
         && paths[i] == u[i].path
         && fs(u[i].path).Regular?
         && items[i] == ItemAt(u[i], fs(u[i].path), i, chunkLen, hash)
  }

  lemma UsableStep(files: seq<SelectedFile>, fs: string -> FileState, n: nat)
    requires n < |files|
    ensures var u, f := UsableFiles(files[..n], fs), files[n];
            UsableFiles(files[..n + 1], fs) == if Usable(fs(f.path)) then u + [f] else u
  {
    assert files[..n + 1][..n] == files[..n];
  }

  lemma SizesStep(u: seq<SelectedFile>, fs: string -> FileState, f: SelectedFile)
    requires (forall g :: g in u ==> Usable(fs(g.path))) && Usable(fs(f.path))
    ensures Sizes(u + [f], fs) == Sizes(u, fs) + [SizeOf(fs(f.path))]
    ensures WrappedSum(Sizes(u + [f], fs)) == WrapI64(WrappedSum(Sizes(u, fs)) + SizeOf(fs(f.path)))
  {
    assert (u + [f])[..|u|] == u;
    var s := Sizes(u, fs) + [SizeOf(fs(f.path))];
    assert s[..|u|] == Sizes(u, fs);
  }

  lemma AlignedStep(items: seq<Item>, paths: seq<string>, u: seq<SelectedFile>, fs: string -> FileState,
                    chunkLen: nat, hash: seq<byte> -> string, f: SelectedFile)
    requires chunkLen > 0 && Aligned(items, paths, u, fs, chunkLen, hash)
    requires fs(f.path).Regular?
    ensures Aligned(items + [ItemAt(f, fs(f.path), |items|, chunkLen, hash)], paths + [f.path], u + [f], fs, chunkLen,
        hash)
  {
  }

  function TotalOf(files: seq<SelectedFile>, fs: string -> FileState): int64 {
    WrappedSum(Sizes(UsableFiles(files, fs), fs))
  }

  lemma TotalStep(files: seq<SelectedFile>, fs: string -> FileState, n: nat)
    requires n < |files|
    ensures TotalOf(files[..n + 1], fs) ==
            if Usable(fs(files[n].path)) then WrapI64(TotalOf(files[..n], fs) + SizeOf(fs(files[n].path)))
            else TotalOf(files[..n], fs)
  {
    UsableStep(files, fs, n);
    if Usable(fs(files[n].path)) {
      SizesStep(UsableFiles(files[..n], fs), fs, files[n]);
    }
  }

  /** The scan of prepare_offer: one item per usable file, in order, until one cannot be opened. */
  method ScanFiles(files: seq<SelectedFile>, fs: string -> FileState, chunkLen: nat, hash: seq<byte> -> string)
    returns (items: seq<Item>, validPaths: seq<string>, totalSize: int64, unopened: Option<string>)
    requires chunkLen > 0
    ensures unopened.None? ==> totalSize == TotalOf(files, fs)
    ensures unopened.None? ==> Aligned(items, validPaths, UsableFiles(files, fs), fs, chunkLen, hash)
    ensures unopened.Some? ==>
              exists f :: f in UsableFiles(files, fs) && f.path == unopened.value && fs(f.path).Unopenable?
  {
    items, validPaths, totalSize := [], [], 0;
    for n := 0 to |files|
      invariant totalSize == TotalOf(files[..n], fs)
      invariant Aligned(items, validPaths, UsableFiles(files[..n], fs), fs, chunkLen, hash)
    {
      var f := files[n];
      var st := fs(f.path);
      UsableStep(files, fs, n);
      TotalStep(files, fs, n);
      if !Usable(st) {
        continue;
      }
      totalSize := WrapI64(totalSize + SizeOf(st));
      if st.Unopenable? {
        UsableGrows(files, fs, n, f);
        return items, validPaths, totalSize, Some(f.path);
      }
      AlignedStep(items, validPaths, UsableFiles(files[..n], fs), fs, chunkLen, hash, f);
      items := items + [ItemAt(f, st, |items|, chunkLen, hash)];
      validPaths := validPaths + [f.path];
    }
    assert files[..|files|] == files;
    unopened := None;
  }

  /** prepare_offer. */
  method PrepareOffer(sessionId: string, files: seq<SelectedFile>, fs: string -> FileState, encrypted: bool,
                      summary: string, hash: seq<byte> -> string)
    returns (r: Result<(Offer, seq<string>), PrepareError>)
    ensures var u := UsableFiles(files, fs);
            match r
            case Ok((offer, paths)) =>
              && u != []
              && offer.totalItems == |u|
              && offer.dataType == "FILES" && offer.encrypted == encrypted
              && offer.totalSize == TotalOf(files, fs)
              && Aligned(offer.items, paths, u, fs, PlaintextChunkLen(encrypted), hash)
              && offer.sessionId == sessionId && offer.encryptedMetadata == None
              && offer.e2eeVersion == (if encrypted then Some(1) else None)
              && offer.previewSummary == (if |u| == 1 then u[0].relative else summary)
            case Err(NothingToSend) => u == []
            case Err(CannotOpen(p)) => exists f :: f in u && f.path == p && fs(p).Unopenable?
  {
    var items, validPaths, totalSize, unopened := ScanFiles(files, fs, PlaintextChunkLen(encrypted), hash);
    if unopened.Some? {
      return Err(CannotOpen(unopened.value));
    }
    if items == [] {
      return Err(NothingToSend);
    }
    var preview := if |items| == 1 then items[0].relativePath else summary;
    return Ok((Offer(sessionId, "FILES", totalSize, |items|, preview, encrypted,
                     if encrypted then Some(E2EE_VERSION) else None, None, items), validPaths));
  }

  lemma UsableGrows(files: seq<SelectedFile>, fs: string -> FileState, n: nat, f: SelectedFile)
    requires n < |files| && files[n] == f && Usable(fs(f.path))
    ensures f in UsableFiles(files, fs)
    decreases |files|
  {
    if n < |files| - 1 {
      UsableGrows(files[..|files| - 1], fs, n, f);
    }
  }

  /** An offer prepared from files whose sizes and number fit the wire's integers describes their contents. */
  lemma PreparedDescribes(offer: Offer, contents: seq<seq<byte>>, u: seq<SelectedFile>, fs: string -> FileState,
                          hash: seq<byte> -> string)
    requires |offer.items| == |u| == |contents|
    requires forall i :: 0 <= i < |u| ==>
               && fs(u[i].path) == Regular(contents[i])
               && offer.items[i] == ItemAt(u[i], fs(u[i].path), i, PlaintextChunkLen(offer.encrypted), hash)
    ensures Describes(offer, contents, hash) <==>
            |contents| <= U32_COUNT && forall i :: 0 <= i < |contents| ==> |contents[i]| < I64_HALF
  {
    if Describes(offer, contents, hash) {
      assert contents != [] ==> offer.items[|contents| - 1].itemIndex == |contents| - 1;
    }
  }

  // ----- what an offer says, in terms of the files -----

  /** The usable files keep their order, whatever stands between them. */
  lemma {:induction false} UsableConcat(a: seq<SelectedFile>, b: seq<SelectedFile>, fs: string -> FileState)
    ensures UsableFiles(a + b, fs) == UsableFiles(a, fs) + UsableFiles(b, fs)
  {
    if b == [] {
      assert a + b == a;
    } else {
      var n, ab := |b| - 1, a + b;
      UsableConcat(a, b[..n], fs);
      assert ab[..|ab| - 1] == a + b[..n] && ab[|ab| - 1] == b[n];
      if Usable(fs(b[n].path)) {
        assert UsableFiles(ab, fs) == UsableFiles(a, fs) + UsableFiles(b[..n], fs) + [b[n]];
      }
    }
  }

  /** A directory or a file without metadata is left out, any other file stays. */
  lemma UsableOne(f: SelectedFile, fs: string -> FileState)
    ensures UsableFiles([f], fs) == if fs(f.path) in {FileState.Unreadable, Directory} then [] else [f]
  {
    assert UsableFiles([f][..0], fs) == [];
  }

  function SizesOf(items: seq<Item>): (s: seq<int64>)
    ensures |s| == |items| && forall i :: 0 <= i < |items| ==> s[i] == items[i].size
  {
    seq(|items|, i requires 0 <= i < |items| => items[i].size)
  }

  lemma {:induction false} SizesAt(u: seq<SelectedFile>, fs: string -> FileState, i: nat)
    requires (forall f :: f in u ==> Usable(fs(f.path))) && i < |u|
    ensures Sizes(u, fs)[i] == SizeOf(fs(u[i].path))
    decreases |u|
  {
    if i < |u| - 1 {
      SizesAt(u[..|u| - 1], fs, i);
    }
  }

  lemma AlignedSizes(items: seq<Item>, paths: seq<string>, u: seq<SelectedFile>, fs: string -> FileState, chunkLen: nat,
                     hash: seq<byte> -> string)
    requires chunkLen > 0 && Aligned(items, paths, u, fs, chunkLen, hash)
    requires forall f :: f in u ==> Usable(fs(f.path))
    ensures SizesOf(items) == Sizes(u, fs)
  {
    forall i | 0 <= i < |u|
      ensures Sizes(u, fs)[i] == SizesOf(items)[i]
    {
      SizesAt(u, fs, i);
    }
  }

  /** The declared total is the sum of the items' declared sizes, wrapped once into 64 bits. */
  lemma TotalIsSumOfItems(items: seq<Item>, paths: seq<string>, files: seq<SelectedFile>, fs: string -> FileState,
                          chunkLen: nat, hash: seq<byte> -> string)
    requires chunkLen > 0 && Aligned(items, paths, UsableFiles(files, fs), fs, chunkLen, hash)
    ensures TotalOf(files, fs) == WrapI64(Sum(SizesOf(items)))
  {
    var u := UsableFiles(files, fs);
    AlignedSizes(items, paths, u, fs, chunkLen, hash);
    WrappedSumIsSum(Sizes(u, fs));
  }

  /** Each item names its own file: relative path, hash, and the size and count its content has. */
  lemma ItemsSay(items: seq<Item>, paths: seq<string>, u: seq<SelectedFile>, fs: string -> FileState, encrypted: bool,
                 hash: seq<byte> -> string, i: nat)
    requires Aligned(items, paths, u, fs, PlaintextChunkLen(encrypted), hash) && i < |u|
    ensures var content := fs(u[i].path).content;
            var chunkLen := 4 * 1024 * 1024 - if encrypted then 16 else 0;
            && paths[i] == u[i].path && items[i].relativePath == u[i].relative && !items[i].isDir
            && items[i].sha256 == hash(content)
            && (i < 0x1_0000_0000 ==> items[i].itemIndex == i)
            && (|content| <= 0xFFFF_FFFF * chunkLen ==>
                  && items[i].size == |content|
                  && items[i].totalChunks == if content == [] then 1 else (|content| + chunkLen - 1) / chunkLen)
  {
    var chunkLen := PlaintextChunkLen(encrypted);
    if |fs(u[i].path).content| <= 0xFFFF_FFFF * chunkLen {
      CountIsCeiling(|fs(u[i].path).content|, chunkLen);
    }
  }
}
