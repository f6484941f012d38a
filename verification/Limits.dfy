/** The server's limit check, the client's precheck, and the mathematical rule both stand for. */
module Limits {
  import opened Wrappers
  import opened Bytes
  import opened ChunkPlan
  import opened Offers
  import opened E2ee

  /** A limit that is not positive is switched off. */
  datatype ServerLimits = ServerLimits(
    maxSingleFile: int64, maxTotal: int64, maxImage: int64, maxText: int64, maxItems: int64)

  datatype Code = FileTooLarge | TotalTooLarge | ImageTooLarge | TextTooLarge | TooManyItems | MalformedOffer

  predicate Exceeds(limit: int, actual: int) {
    limit > 0 && actual > limit
  }

  predicate AnyNegative(sizes: seq<int64>) {
    exists i :: 0 <= i < |sizes| && sizes[i] < 0
  }

  predicate AnyExceeds(limit: int, sizes: seq<int64>) {
    exists i :: 0 <= i < |sizes| && Exceeds(limit, sizes[i])
  }

  // ----- the server -----

  /** The limit of the content tier and the code reported for it. */
  function ContentLimit(l: ServerLimits, dataType: string): (int64, Code) {
    match dataType
    case "IMAGE" => (l.maxImage, ImageTooLarge)
    case "TEXT" => (l.maxText, TextTooLarge)
    case _ => (l.maxSingleFile, FileTooLarge)
  }

  predicate IsClipboard(dataType: string) {
    dataType == "IMAGE" || dataType == "TEXT"
  }

  predicate ContentExceeds(l: ServerLimits, offer: Offer) {
    var limit := ContentLimit(l, offer.dataType).0;
    AnyExceeds(limit, SizesOf(offer.items)) || (IsClipboard(offer.dataType) && Exceeds(limit, offer.totalSize))
  }

  function Max(a: int64, b: int64): int64 {
    if a > b then a else b
  }

  /** The verdict of the limit check: the first rule broken, in the fixed order. */
  function Verdict(l: ServerLimits, offer: Offer): Option<Code> {
    if AnyNegative(SizesOf(offer.items)) || offer.totalSize < 0 then Some(MalformedOffer)
    else if Exceeds(l.maxItems, |offer.items|) then Some(TooManyItems)
    else if ContentExceeds(l, offer) then Some(ContentLimit(l, offer.dataType).1)
    else if Exceeds(l.maxTotal, Max(WrappedSum(SizesOf(offer.items)), offer.totalSize)) then Some(TotalTooLarge)
    else None
  }

  /** clipboardViolation. */
  method ClipboardViolation(offer: Offer, limit: int64, code: Code) returns (v: Option<Code>)
    ensures v == if AnyExceeds(limit, SizesOf(offer.items)) || Exceeds(limit, offer.totalSize) then Some(code) else None
  {
    if limit <= 0 {
      return None;
    }
    ghost var sizes := SizesOf(offer.items);
    var largest := offer.totalSize;
    for i := 0 to |offer.items|
      invariant largest > limit <==>
                (exists j :: 0 <= j < i && Exceeds(limit, sizes[j])) || Exceeds(limit, offer.totalSize)
      invariant forall j :: 0 <= j < i ==> sizes[j] <= largest
      invariant offer.totalSize <= largest
    {
      if offer.items[i].size > largest {
        largest := offer.items[i].size;
        assert sizes[i] == largest;
      }
    }
    v := if largest > limit then Some(code) else None;
  }

  /** checkContent. */
  method CheckContent(l: ServerLimits, offer: Offer) returns (v: Option<Code>)
    ensures v == if ContentExceeds(l, offer) then Some(ContentLimit(l, offer.dataType).1) else None
  {
    if offer.dataType == "IMAGE" {
      v := ClipboardViolation(offer, l.maxImage, ImageTooLarge);
      return;
    }
    if offer.dataType == "TEXT" {
      v := ClipboardViolation(offer, l.maxText, TextTooLarge);
      return;
    }
    if l.maxSingleFile <= 0 {
      return None;
    }
    ghost var sizes := SizesOf(offer.items);
    for i := 0 to |offer.items|
      invariant forall j :: 0 <= j < i ==> !Exceeds(l.maxSingleFile, sizes[j])
    {
      if offer.items[i].size > l.maxSingleFile {
        assert Exceeds(l.maxSingleFile, sizes[i]);
        return Some(FileTooLarge);
      }
    }
    v := None;
  }

  /** CheckOffer. */
  method CheckOffer(l: ServerLimits, offer: Offer) returns (v: Option<Code>)
    ensures v == Verdict(l, offer)
  {
    ghost var sizes := SizesOf(offer.items);
    for i := 0 to |offer.items|
      invariant forall j :: 0 <= j < i ==> sizes[j] >= 0
    {
      if offer.items[i].size < 0 {
        assert sizes[i] < 0;
        return Some(MalformedOffer);
      }
    }
    if offer.totalSize < 0 {
      return Some(MalformedOffer);
    }
    if l.maxItems > 0 && |offer.items| > l.maxItems {
      return Some(TooManyItems);
    }
    v := CheckContent(l, offer);
    if v.Some? {
      return;
    }
    var sum: int64 := 0;
    for i := 0 to |offer.items|
      invariant sum == WrappedSum(sizes[..i])
    {
      assert sizes[..i + 1][..i] == sizes[..i];
      sum := WrapI64(sum + offer.items[i].size);
    }
    assert sizes[..|sizes|] == sizes;
    var total := if sum > offer.totalSize then sum else offer.totalSize;
    v := if l.maxTotal > 0 && total > l.maxTotal then Some(TotalTooLarge) else None;
  }

  // ----- the rule in mathematical integers -----

  /** Everything but the sum of the item sizes. */
  predicate WithinButSum(l: ServerLimits, offer: Offer) {
    && !AnyNegative(SizesOf(offer.items)) && offer.totalSize >= 0
    && !Exceeds(l.maxItems, |offer.items|)
    && !ContentExceeds(l, offer)
    && !Exceeds(l.maxTotal, offer.totalSize)
  }

  predicate WithinLimits(l: ServerLimits, offer: Offer) {
    WithinButSum(l, offer) && !Exceeds(l.maxTotal, Sum(SizesOf(offer.items)))
  }

  /** The int64 sum hides an excess: it wraps to a value that is not above the limit. */
  predicate WrapHidesExcess(l: ServerLimits, offer: Offer) {
    var sum := Sum(SizesOf(offer.items));
    Exceeds(l.maxTotal, sum) && WrapI64(sum) <= l.maxTotal
  }

  lemma {:induction false} SumIsNatural(sizes: seq<int64>)
    requires !AnyNegative(sizes)
    ensures Sum(sizes) >= 0
  {
    if sizes == [] {
    } else {
      var m := |sizes| - 1;
      assert forall i :: 0 <= i < m ==> sizes[..m][i] == sizes[i];
      SumIsNatural(sizes[..m]);
    }
  }

  lemma {:induction false} SumIsBounded(sizes: seq<int64>, limit: nat)
    requires forall i :: 0 <= i < |sizes| ==> sizes[i] <= limit
    ensures Sum(sizes) <= |sizes| * limit
  {
    if sizes == [] {
    } else {
      var m := |sizes| - 1;
      SumIsBounded(sizes[..m], limit);
      assert |sizes| * limit == m * limit + limit;
    }
  }

  /** The check passes exactly the offers within the limits, and those whose excess the wrapping hides. */
  lemma CheckIsExact(l: ServerLimits, offer: Offer)
    ensures Verdict(l, offer) == None <==>
            WithinLimits(l, offer) || (WithinButSum(l, offer) && WrapHidesExcess(l, offer))
  {
    var sizes := SizesOf(offer.items);
    WrappedSumIsSum(sizes);
    if !AnyNegative(sizes) {
      SumIsNatural(sizes);
    }
  }

  /** With positive item and content limits whose product fits an int64, the check is the mathematical rule. */
  lemma BoundedLimitsNeverWrap(l: ServerLimits, offer: Offer)
    requires var limit := ContentLimit(l, offer.dataType).0;
             l.maxItems > 0 && limit > 0 && l.maxItems * limit < I64_HALF
    ensures Verdict(l, offer) == None <==> WithinLimits(l, offer)
  {
    CheckIsExact(l, offer);
    if WithinButSum(l, offer) {
      var sizes := SizesOf(offer.items);
      var limit := ContentLimit(l, offer.dataType).0;
      assert forall i :: 0 <= i < |sizes| ==> !Exceeds(limit, sizes[i]);
      SumIsBounded(sizes, limit);
      SumIsNatural(sizes);
      MulLe(|sizes|, l.maxItems, limit);
    }
  }

  lemma SumOf(s: seq<int64>, x: int64)
    ensures Sum(s + [x]) == Sum(s) + x
  {
    assert (s + [x])[..|s|] == s;
  }

  /**
   Three files of 3 * 2^62 bytes in all with only a total limit: the int64 sum turns negative and the offer passes.
   */
  lemma WrapAdmitsExcess(l: ServerLimits, offer: Offer, a: Item)
    requires l == ServerLimits(0, 1000, 0, 0, 0)
    requires a.size == I64_HALF / 2
    requires offer.items == [a, a, a] && offer.totalSize == 0
    ensures Verdict(l, offer) == None && !WithinLimits(l, offer)
  {
    var sizes := SizesOf(offer.items);
    assert sizes == [a.size, a.size, a.size];
    SumOf(sizes[..2], a.size);
    SumOf(sizes[..1], a.size);
    assert sizes == sizes[..2] + [a.size] && sizes[..2] == sizes[..1] + [a.size];
    assert sizes[..1] == [] + [a.size];
    SumOf([], a.size);
    CheckIsExact(l, offer);
  }

  /** Sealing an offer's metadata changes no verdict. */
  lemma SealedSameVerdict(l: ServerLimits, offer: Offer, cipher: Cipher, codec: Codec)
    ensures Verdict(l, SealedForWire(offer, cipher, codec)) == Verdict(l, offer)
  {
    assert SizesOf(Blanked(offer.items)) == SizesOf(offer.items);
  }

  // ----- the client -----

  datatype PrecheckError = SingleTooLarge(path: string) | NothingUsable | ItemsTooMany | SumTooLarge

  predicate PrecheckPasses(l: Option<ServerLimits>, files: seq<SelectedFile>, fs: string -> FileState) {
    var u := UsableFiles(files, fs);
    && u != []
    && NoneTooLarge(l, u, fs)
    && (l.Some? ==>
          && !Exceeds(l.value.maxItems, |u|)
          && !Exceeds(l.value.maxTotal, TotalOf(files, fs)))
  }

  ghost predicate NamesTooLarge(path: string, files: seq<SelectedFile>, fs: string -> FileState, limit: int64) {
    exists f :: f in UsableFiles(files, fs) && f.path == path && Exceeds(limit, SizeOf(fs(path)))
  }

  lemma NoneExceeds(u: seq<SelectedFile>, fs: string -> FileState, f: SelectedFile, limits: Option<ServerLimits>)
    requires (forall g :: g in u ==> Usable(fs(g.path))) && Usable(fs(f.path))
    requires NoneTooLarge(limits, u, fs)
    requires limits.Some? ==> !Exceeds(limits.value.maxSingleFile, SizeOf(fs(f.path)))
    ensures NoneTooLarge(limits, u + [f], fs)
  {
    SizesStep(u, fs, f);
    if limits.Some? {
      ExceedsAppend(limits.value.maxSingleFile, Sizes(u, fs), SizeOf(fs(f.path)));
    }
  }

  lemma ExceedsAppend(limit: int, s: seq<int64>, x: int64)
    requires !AnyExceeds(limit, s) && !Exceeds(limit, x)
    ensures !AnyExceeds(limit, s + [x])
  {
    forall i | 0 <= i < |s + [x]|
      ensures !Exceeds(limit, (s + [x])[i])
    {
      if i < |s| {
        assert (s + [x])[i] == s[i];
      }
    }
  }

  lemma ExceedingFile(files: seq<SelectedFile>, fs: string -> FileState, n: nat, l: ServerLimits)
    requires n < |files| && Usable(fs(files[n].path)) && Exceeds(l.maxSingleFile, SizeOf(fs(files[n].path)))
    ensures files[n] in UsableFiles(files, fs) && !NoneTooLarge(Some(l), UsableFiles(files, fs), fs)
    ensures NamesTooLarge(files[n].path, files, fs, l.maxSingleFile)
  {
    var f, u := files[n], UsableFiles(files, fs);
    UsableGrows(files, fs, n, f);
    SizeIsIn(u, fs, f);
  }

  /** No usable file is over the single-file limit. */
  predicate NoneTooLarge(limits: Option<ServerLimits>, u: seq<SelectedFile>, fs: string -> FileState)
    requires forall g :: g in u ==> Usable(fs(g.path))
  {
    limits.Some? ==> !AnyExceeds(limits.value.maxSingleFile, Sizes(u, fs))
  }

  /** The metadata pass of precheck_file_paths, until a file is too large. */
  method PrecheckScan(files: seq<SelectedFile>, limits: Option<ServerLimits>, fs: string -> FileState)
    returns (usable: seq<SelectedFile>, total: int64, tooLarge: Option<string>)
    ensures tooLarge.None? <==> NoneTooLarge(limits, UsableFiles(files, fs), fs)
    ensures tooLarge.None? ==> usable == UsableFiles(files, fs) && total == TotalOf(files, fs)
    ensures tooLarge.Some? ==> limits.Some? && NamesTooLarge(tooLarge.value, files, fs, limits.value.maxSingleFile)
  {
    usable, total := [], 0;
    for n := 0 to |files|
      invariant usable == UsableFiles(files[..n], fs) && total == TotalOf(files[..n], fs)
      invariant NoneTooLarge(limits, usable, fs)
    {
      var f := files[n];
      UsableStep(files, fs, n);
      TotalStep(files, fs, n);
      if !Usable(fs(f.path)) {
        continue;
      }
      var size := SizeOf(fs(f.path));
      if limits.Some? && Exceeds(limits.value.maxSingleFile, size) {
        ExceedingFile(files, fs, n, limits.value);
        return usable, total, Some(f.path);
      }
      NoneExceeds(usable, fs, f, limits);
      total := WrapI64(total + size);
      usable := usable + [f];
    }
    assert files[..|files|] == files;
    tooLarge := None;
  }

  /** precheck_file_paths. */
  method PrecheckFiles(files: seq<SelectedFile>, limits: Option<ServerLimits>, fs: string -> FileState)
    returns (r: Result<seq<SelectedFile>, PrecheckError>)
    ensures r.Ok? <==> PrecheckPasses(limits, files, fs)
    ensures r.Ok? ==> r.value == UsableFiles(files, fs)
    ensures r == Err(NothingUsable) ==> UsableFiles(files, fs) == []
    ensures r == Err(ItemsTooMany) ==> limits.Some? && Exceeds(limits.value.maxItems, |UsableFiles(files, fs)|)
    ensures r == Err(SumTooLarge) ==> limits.Some? && Exceeds(limits.value.maxTotal, TotalOf(files, fs))
    ensures r.Err? && r.error.SingleTooLarge? ==>
              limits.Some? && NamesTooLarge(r.error.path, files, fs, limits.value.maxSingleFile)
  {
    var usable, total, tooLarge := PrecheckScan(files, limits, fs);
    if tooLarge.Some? {
      return Err(SingleTooLarge(tooLarge.value));
    }
    if usable == [] {
      return Err(NothingUsable);
    }
    if limits.Some? {
      if limits.value.maxItems > 0 && |usable| > limits.value.maxItems {
        return Err(ItemsTooMany);
      }
      if Exceeds(limits.value.maxTotal, total) {
        return Err(SumTooLarge);
      }
    }
    return Ok(usable);
  }

  lemma SizeIsIn(u: seq<SelectedFile>, fs: string -> FileState, f: SelectedFile)
    requires (forall g :: g in u ==> Usable(fs(g.path))) && f in u
    ensures exists i :: 0 <= i < |u| && Sizes(u, fs)[i] == SizeOf(fs(f.path))
  {
    var i :| 0 <= i < |u| && u[i] == f;
    SizesAt(u, fs, i);
  }

  lemma {:induction false} UsableTwice(u: seq<SelectedFile>, fs: string -> FileState)
    requires forall f :: f in u ==> Usable(fs(f.path))
    ensures UsableFiles(u, fs) == u
  {
    if u == [] {
    } else {
      UsableTwice(u[..|u| - 1], fs);
    }
  }

  /** What prepare_offer returns for the files that the precheck kept. */
  ghost predicate PreparedFrom(offer: Offer, files: seq<SelectedFile>, fs: string -> FileState,
                               hash: seq<byte> -> string) {
    var u := UsableFiles(files, fs);
    && u != [] && offer.dataType == "FILES"
    && offer.totalSize == TotalOf(u, fs)
    && exists paths :: Aligned(offer.items, paths, u, fs, PlaintextChunkLen(offer.encrypted), hash)
  }

  lemma PreparedSizes(files: seq<SelectedFile>, fs: string -> FileState, offer: Offer, hash: seq<byte> -> string)
    requires PreparedFrom(offer, files, fs, hash)
    ensures SizesOf(offer.items) == Sizes(UsableFiles(files, fs), fs)
    ensures offer.totalSize == TotalOf(files, fs) == WrappedSum(SizesOf(offer.items))
    ensures forall f :: f in UsableFiles(files, fs) ==> fs(f.path).Regular?
  {
    var u := UsableFiles(files, fs);
    var paths :| Aligned(offer.items, paths, u, fs, PlaintextChunkLen(offer.encrypted), hash);
    AlignedSizes(offer.items, paths, u, fs, PlaintextChunkLen(offer.encrypted), hash);
    UsableTwice(u, fs);
  }

  /** For a file offer that declares the sum of its items, the verdict is about the sizes alone. */
  lemma FileVerdict(l: ServerLimits, offer: Offer)
    requires offer.dataType == "FILES" && offer.totalSize == WrappedSum(SizesOf(offer.items))
    ensures var sizes := SizesOf(offer.items);
            Verdict(l, offer) == None <==>
            && !AnyExceeds(l.maxSingleFile, sizes) && !Exceeds(l.maxItems, |sizes|)
            && !Exceeds(l.maxTotal, offer.totalSize)
            && !AnyNegative(sizes) && offer.totalSize >= 0
  {
  }

  /**
   A file offer passes the server exactly when the precheck passed and neither a size nor the total turned negative.
   */
  lemma PrecheckAgrees(l: ServerLimits, files: seq<SelectedFile>, fs: string -> FileState, offer: Offer,
                       hash: seq<byte> -> string)
    requires PreparedFrom(offer, files, fs, hash)
    ensures Verdict(l, offer) == None <==>
            && PrecheckPasses(Some(l), files, fs)
            && !AnyNegative(Sizes(UsableFiles(files, fs), fs)) && TotalOf(files, fs) >= 0
  {
    PreparedSizes(files, fs, offer, hash);
    FileVerdict(l, offer);
  }

  /** Within bounded limits no size and no sum of a file offer turns negative. */
  lemma BoundedSumFits(l: ServerLimits, sizes: seq<int64>)
    requires l.maxItems > 0 && l.maxSingleFile > 0 && l.maxItems * l.maxSingleFile < I64_HALF
    requires !AnyNegative(sizes) && !AnyExceeds(l.maxSingleFile, sizes) && !Exceeds(l.maxItems, |sizes|)
    ensures WrappedSum(sizes) == Sum(sizes) >= 0
  {
    assert forall i :: 0 <= i < |sizes| ==> !Exceeds(l.maxSingleFile, sizes[i]);
    SumIsBounded(sizes, l.maxSingleFile);
    SumIsNatural(sizes);
    MulLe(|sizes|, l.maxItems, l.maxSingleFile);
    WrappedSumIsSum(sizes);
  }

  lemma BoundedVerdict(l: ServerLimits, offer: Offer)
    requires offer.dataType == "FILES" && offer.totalSize == WrappedSum(SizesOf(offer.items))
    requires l.maxItems > 0 && l.maxSingleFile > 0 && l.maxItems * l.maxSingleFile < I64_HALF
    requires !AnyNegative(SizesOf(offer.items))
    ensures var sizes := SizesOf(offer.items);
            Verdict(l, offer) == None <==>
            && !AnyExceeds(l.maxSingleFile, sizes) && !Exceeds(l.maxItems, |sizes|)
            && !Exceeds(l.maxTotal, offer.totalSize)
  {
    FileVerdict(l, offer);
    var sizes := SizesOf(offer.items);
    if !AnyExceeds(l.maxSingleFile, sizes) && !Exceeds(l.maxItems, |sizes|) {
      BoundedSumFits(l, sizes);
    }
  }

  lemma RealSizes(u: seq<SelectedFile>, fs: string -> FileState)
    requires forall f :: f in u ==> fs(f.path).Regular? && |fs(f.path).content| < I64_HALF
    ensures !AnyNegative(Sizes(u, fs))
  {
    forall i | 0 <= i < |u|
      ensures Sizes(u, fs)[i] >= 0
    {
      SizesAt(u, fs, i);
      assert u[i] in u;
    }
  }

  /** With positive limits whose product fits an int64 and real file lengths, precheck, server and rule all agree. */
  lemma AllThreeAgree(l: ServerLimits, files: seq<SelectedFile>, fs: string -> FileState, offer: Offer,
                      hash: seq<byte> -> string)
    requires PreparedFrom(offer, files, fs, hash)
    requires l.maxItems > 0 && l.maxSingleFile > 0 && l.maxItems * l.maxSingleFile < I64_HALF
    requires forall f :: f in UsableFiles(files, fs) && fs(f.path).Regular? ==> |fs(f.path).content| < I64_HALF
    ensures PrecheckPasses(Some(l), files, fs) <==> Verdict(l, offer) == None
    ensures Verdict(l, offer) == None <==> WithinLimits(l, offer)
  {
    BoundedLimitsNeverWrap(l, offer);
    PreparedSizes(files, fs, offer, hash);
    RealSizes(UsableFiles(files, fs), fs);
    BoundedVerdict(l, offer);
  }

  lemma TwoUsable(fs: string -> FileState, f: SelectedFile, g: SelectedFile)
    requires Usable(fs(f.path)) && Usable(fs(g.path))
    ensures UsableFiles([f, g], fs) == [f, g]
  {
    var two := [f, g];
    assert two[..1] == [f] && [f][..0] == [];
    assert UsableFiles([f], fs) == [f];
  }

  lemma TwoFiles(fs: string -> FileState, f: SelectedFile, g: SelectedFile)
    requires Usable(fs(f.path)) && Usable(fs(g.path))
    ensures UsableFiles([f, g], fs) == [f, g]
    ensures TotalOf([f, g], fs) == WrapI64(WrapI64(SizeOf(fs(f.path))) + SizeOf(fs(g.path)))
  {
    TwoUsable(fs, f, g);
    assert [] + [f] == [f] && [f] + [g] == [f, g];
    SizesStep([], fs, f);
    SizesStep([f], fs, g);
  }

  /**
   Two files of 2^62 bytes with only a total limit: the precheck passes, the server refuses the negative total. Their
   paths may well differ, as those of an expanded selection do.
   */
  lemma PrecheckAdmitsNegativeTotal(l: ServerLimits, fs: string -> FileState, f: SelectedFile, g: SelectedFile,
                                    offer: Offer, hash: seq<byte> -> string)
    requires l == ServerLimits(0, 1000, 0, 0, 0)
    requires f.path != g.path && f.relative != g.relative
    requires fs(f.path).Regular? && |fs(f.path).content| == I64_HALF / 2
    requires fs(g.path).Regular? && |fs(g.path).content| == I64_HALF / 2
    requires PreparedFrom(offer, [f, g], fs, hash)
    ensures PrecheckPasses(Some(l), [f, g], fs) && Verdict(l, offer) == Some(MalformedOffer)
  {
    TwoFiles(fs, f, g);
    PreparedSizes([f, g], fs, offer, hash);
    FileVerdict(l, offer);
  }

  // ----- which limit governs which content -----

  /** With the item and total limits off, a well-formed offer of one item is judged by the limit of its kind alone. */
  lemma OneItemRule(l: ServerLimits, offer: Offer, it: Item)
    requires offer.items == [it] && it.size >= 0 && offer.totalSize >= 0 && l.maxItems <= 0 && l.maxTotal <= 0
    ensures offer.dataType == "IMAGE" ==>
              Verdict(l, offer) == (if l.maxImage > 0 && (it.size > l.maxImage || offer.totalSize > l.maxImage)
                                    then Some(ImageTooLarge) else None)
    ensures offer.dataType == "TEXT" ==>
              Verdict(l, offer) == (if l.maxText > 0 && (it.size > l.maxText || offer.totalSize > l.maxText)
                                    then Some(TextTooLarge) else None)
    ensures offer.dataType !in {"IMAGE", "TEXT"} ==>
              Verdict(l, offer) == (if l.maxSingleFile > 0 && it.size > l.maxSingleFile
                                    then Some(FileTooLarge) else None)
  {
    assert SizesOf(offer.items) == [it.size];
    assert SizesOf(offer.items)[0] == it.size;
  }

  /** The tiers exclude each other: the limits of the other kinds do not matter. */
  lemma TiersExclude(l: ServerLimits, offer: Offer, other: ServerLimits)
    requires other.maxItems == l.maxItems && other.maxTotal == l.maxTotal
    ensures offer.dataType == "IMAGE" && other.maxImage == l.maxImage ==> Verdict(other, offer) == Verdict(l, offer)
    ensures offer.dataType == "TEXT" && other.maxText == l.maxText ==> Verdict(other, offer) == Verdict(l, offer)
    ensures offer.dataType !in {"IMAGE", "TEXT"} && other.maxSingleFile == l.maxSingleFile ==>
              Verdict(other, offer) == Verdict(l, offer)
  {
  }

  predicate SomethingAbove(offer: Offer, limit: int64) {
    offer.totalSize > limit || exists i :: 0 <= i < |offer.items| && offer.items[i].size > limit
  }

  /** Each code has its cause, and the rules before it in the order were kept. */
  lemma CodeHasCause(l: ServerLimits, offer: Offer)
    ensures Verdict(l, offer) == Some(MalformedOffer) <==>
            offer.totalSize < 0 || exists i :: 0 <= i < |offer.items| && offer.items[i].size < 0
    ensures Verdict(l, offer) == Some(TooManyItems) <==>
            0 < l.maxItems < |offer.items| && Verdict(l, offer) != Some(MalformedOffer)
    ensures Verdict(l, offer) == Some(TotalTooLarge) ==>
            l.maxTotal > 0 && (offer.totalSize > l.maxTotal || WrapI64(Sum(SizesOf(offer.items))) > l.maxTotal)
    ensures Verdict(l, offer) == Some(ImageTooLarge) ==> l.maxImage > 0 && SomethingAbove(offer, l.maxImage)
    ensures Verdict(l, offer) == Some(TextTooLarge) ==> l.maxText > 0 && SomethingAbove(offer, l.maxText)
    ensures Verdict(l, offer) == Some(FileTooLarge) ==>
              l.maxSingleFile > 0 && exists i :: 0 <= i < |offer.items| && offer.items[i].size > l.maxSingleFile
  {
    WrappedSumIsSum(SizesOf(offer.items));
    var sizes := SizesOf(offer.items);
    assert forall i :: 0 <= i < |sizes| ==> sizes[i] == offer.items[i].size;
  }
}
