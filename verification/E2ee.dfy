/** Nonces, the abstract AEAD, and sealing and opening an offer's metadata. */
module E2ee {
  import opened Wrappers
  import opened Bytes
  import opened BinaryHeader
  import opened ChunkPlan
  import opened Offers

  // ----- nonces -----

  const DOMAIN_DATA: uint32 := 0
  const DOMAIN_METADATA: uint32 := 1

  function DataNonce(item: uint32, chunk: uint32): Block12 {
    Be32(item) + Be32(chunk) + Be32(DOMAIN_DATA)
  }

  function MetadataNonce(): Block12 {
    Be32(0) + Be32(0) + Be32(DOMAIN_METADATA)
  }

  /** Two data nonces are equal only for the same chunk, and none equals the metadata nonce. */
  lemma NoncesSeparate(i: uint32, c: uint32, j: uint32, d: uint32)
    ensures DataNonce(i, c) == DataNonce(j, d) <==> i == j && c == d
    ensures DataNonce(i, c) != MetadataNonce()
  {
    assert DataNonce(i, c)[0..4] == Be32(i) && DataNonce(j, d)[0..4] == Be32(j);
    assert DataNonce(i, c)[4..8] == Be32(c) && DataNonce(j, d)[4..8] == Be32(d);
    assert DataNonce(i, c)[8..12] == Be32(DOMAIN_DATA) && MetadataNonce()[8..12] == Be32(DOMAIN_METADATA);
    if DataNonce(i, c) == DataNonce(j, d) {
      Be32Injective(i, j);
      Be32Injective(c, d);
    }
    Be32RoundTrip(DOMAIN_DATA);
    Be32RoundTrip(DOMAIN_METADATA);
  }

  // ----- the abstract AEAD under one session key -----

  datatype Cipher = Cipher(
    seal: (Block12, seq<byte>) -> seq<byte>, openTagged: (Block12, seq<byte>) -> Option<seq<byte>>)

  /** What AES-GCM promises: opening undoes sealing, and the tag adds 16 bytes. */
  ghost predicate Sound(c: Cipher) {
    forall n: Block12, x: seq<byte> ::
      |c.seal(n, x)| == |x| + GCM_TAG_LEN && c.openTagged(n, c.seal(n, x)) == Some(x)
  }

  function Open(c: Cipher, n: Block12, b: seq<byte>): Option<seq<byte>> {
    if |b| < GCM_TAG_LEN then None else c.openTagged(n, b)
  }

  // ----- sealed metadata -----

  datatype ItemMeta = ItemMeta(itemIndex: uint32, relativePath: string, sha256: string, isDir: bool)

  datatype Metadata = Metadata(previewSummary: string, items: seq<ItemMeta>)

  /** JSON and base64, as pairs of inverse functions. */
  datatype Codec = Codec(
    toJson: Metadata -> seq<byte>, fromJson: seq<byte> -> Option<Metadata>,
    toBase64: seq<byte> -> string, fromBase64: string -> Option<seq<byte>>)

  ghost predicate Faithful(k: Codec) {
    && (forall m: Metadata :: k.fromJson(k.toJson(m)) == Some(m))
    && (forall b: seq<byte> :: k.fromBase64(k.toBase64(b)) == Some(b))
  }

  function MetaOf(it: Item): ItemMeta {
    ItemMeta(it.itemIndex, it.relativePath, it.sha256, it.isDir)
  }

  function Blank(it: Item): Item {
    it.(relativePath := "", sha256 := "")
  }

  function MetasOf(items: seq<Item>): (m: seq<ItemMeta>)
    ensures |m| == |items| && forall i :: 0 <= i < |items| ==> m[i] == MetaOf(items[i])
  {
    seq(|items|, i requires 0 <= i < |items| => MetaOf(items[i]))
  }

  function Blanked(items: seq<Item>): (b: seq<Item>)
    ensures |b| == |items| && forall i :: 0 <= i < |items| ==> b[i] == Blank(items[i])
  {
    seq(|items|, i requires 0 <= i < |items| => Blank(items[i]))
  }

  function MetadataPlaintext(offer: Offer, codec: Codec): seq<byte> {
    codec.toJson(Metadata(offer.previewSummary, MetasOf(offer.items)))
  }

  /** The copy of the offer that goes to the relay. */
  function SealedForWire(offer: Offer, cipher: Cipher, codec: Codec): Offer {
    offer.(
      previewSummary := "", items := Blanked(offer.items), encrypted := true, e2eeVersion := Some(E2EE_VERSION),
      encryptedMetadata := Some(codec.toBase64(cipher.seal(MetadataNonce(), MetadataPlaintext(offer, codec)))))
  }

  function Put(it: Item, m: ItemMeta): Item {
    it.(relativePath := m.relativePath, sha256 := m.sha256, isDir := m.isDir)
  }

  /** The position of the first item with this index, or the length. */
  function FirstWith(items: seq<Item>, index: uint32): (p: nat)
    ensures p <= |items|
    ensures forall i :: 0 <= i < p ==> items[i].itemIndex != index
    ensures p < |items| ==> items[p].itemIndex == index
  {
    if items == [] then 0
    else if items[0].itemIndex == index then 0
    else 1 + FirstWith(items[1..], index)
  }

  function PutFirst(items: seq<Item>, m: ItemMeta): seq<Item> {
    var p := FirstWith(items, m.itemIndex);
    if p < |items| then items[p := Put(items[p], m)] else items
  }

  function Restore(items: seq<Item>, metas: seq<ItemMeta>): seq<Item> {
    if metas == [] then items
    else PutFirst(Restore(items, metas[..|metas| - 1]), metas[|metas| - 1])
  }

  datatype OpenError = NoMetadata | BadBase64 | BadTag | BadJson

  /** open_offer_metadata. */
  function OpenMetadata(offer: Offer, cipher: Cipher, codec: Codec): Result<Offer, OpenError> {
    if offer.encryptedMetadata.None? then Err(NoMetadata)
    else
      var sealed := codec.fromBase64(offer.encryptedMetadata.value);
      if sealed.None? then Err(BadBase64)
      else
        var json := Open(cipher, MetadataNonce(), sealed.value);
        if json.None? then Err(BadTag)
        else
          var meta := codec.fromJson(json.value);
          if meta.None? then Err(BadJson)
          else Ok(offer.(previewSummary := meta.value.previewSummary, items := Restore(offer.items, meta.value.items)))
  }

  /** The in-place loop of open_offer_metadata, with its search by item index. */
  method RestoreInPlace(items: array<Item>, metas: seq<ItemMeta>)
    modifies items
    ensures items[..] == Restore(old(items[..]), metas)
  {
    for n := 0 to |metas|
      invariant items[..] == Restore(old(items[..]), metas[..n])
    {
      var m := metas[n];
      var p := 0;
      while p < items.Length && items[p].itemIndex != m.itemIndex
        invariant 0 <= p <= items.Length
        invariant forall i :: 0 <= i < p ==> items[i].itemIndex != m.itemIndex
      {
        p := p + 1;
      }
      FirstWithIs(items[..], m.itemIndex, p);
      assert metas[..n + 1][..n] == metas[..n];
      if p < items.Length {
        items[p] := Put(items[p], m);
      }
    }
    assert metas[..|metas|] == metas;
  }

  lemma FirstWithIs(items: seq<Item>, index: uint32, p: nat)
    requires p <= |items|
    requires forall i :: 0 <= i < p ==> items[i].itemIndex != index
    requires p < |items| ==> items[p].itemIndex == index
    ensures FirstWith(items, index) == p
  {
  }

  // ----- the round trip -----

  /** The last position below `n` whose item has this index, or -1. */
  function LastWith(items: seq<Item>, index: uint32, n: nat): (p: int)
    requires n <= |items|
    ensures -1 <= p < n
    ensures p >= 0 ==> items[p].itemIndex == index
    ensures forall i :: p < i < n ==> items[i].itemIndex != index
  {
    if n == 0 then -1
    else if items[n - 1].itemIndex == index then n - 1
    else LastWith(items, index, n - 1)
  }

  /** What item `j` holds after the metadata of the first `n` items was put back. */
  function RestoredItem(items: seq<Item>, n: nat, j: nat): Item
    requires n <= |items| && j < |items|
  {
    var last := LastWith(items, items[j].itemIndex, n);
    if FirstWith(items, items[j].itemIndex) == j && last >= 0 then Put(Blank(items[j]), MetaOf(items[last]))
    else Blank(items[j])
  }

  /** Items `r` are `items` with the metadata of the first `n` put back. */
  ghost predicate RestoredUpTo(items: seq<Item>, n: nat, r: seq<Item>)
    requires n <= |items|
  {
    |r| == |items| && forall j :: 0 <= j < |items| ==> r[j] == RestoredItem(items, n, j)
  }

  lemma PutFirstComputes(items: seq<Item>, n: nat, r: seq<Item>)
    requires n < |items| && RestoredUpTo(items, n, r)
    ensures RestoredUpTo(items, n + 1, PutFirst(r, MetaOf(items[n])))
  {
    var index := items[n].itemIndex;
    var p := FirstWith(items, index);
    assert p < |items|;
    FirstWithIs(r, index, p);
    var r' := r[p := Put(r[p], MetaOf(items[n]))];
    forall j | 0 <= j < |items|
      ensures r'[j] == RestoredItem(items, n + 1, j)
    {
      if items[j].itemIndex != index {
        assert LastWith(items, items[j].itemIndex, n + 1) == LastWith(items, items[j].itemIndex, n);
      } else {
        assert LastWith(items, index, n + 1) == n;
      }
    }
  }

  lemma RestoreStep(items: seq<Item>, n: nat)
    requires 0 < n <= |items|
    ensures Restore(Blanked(items), MetasOf(items)[..n]) ==
            PutFirst(Restore(Blanked(items), MetasOf(items)[..n - 1]), MetaOf(items[n - 1]))
  {
    var metas := MetasOf(items);
    assert metas[..n][..n - 1] == metas[..n - 1];
  }

  lemma {:induction false} RestoreComputes(items: seq<Item>, n: nat)
    requires n <= |items|
    ensures RestoredUpTo(items, n, Restore(Blanked(items), MetasOf(items)[..n]))
  {
    if n > 0 {
      RestoreComputes(items, n - 1);
      RestoreStep(items, n);
      PutFirstComputes(items, n - 1, Restore(Blanked(items), MetasOf(items)[..n - 1]));
    } else {
      assert forall j :: 0 <= j < |items| ==> RestoredItem(items, 0, j) == Blank(items[j]);
    }
  }

  /** Duplicated indices are harmless only if the first bearer matches the last and the others hold nothing. */
  predicate Recoverable(items: seq<Item>) {
    forall j :: 0 <= j < |items| ==>
      var last := LastWith(items, items[j].itemIndex, |items|);
      if FirstWith(items, items[j].itemIndex) == j then MetaOf(items[j]) == MetaOf(items[last])
      else items[j].relativePath == "" && items[j].sha256 == ""
  }

  predicate DistinctIndices(items: seq<Item>) {
    forall i, j :: 0 <= i < j < |items| ==> items[i].itemIndex != items[j].itemIndex
  }

  lemma RestoresExactly(items: seq<Item>)
    ensures Restore(Blanked(items), MetasOf(items)) == items <==> Recoverable(items)
  {
    var metas := MetasOf(items);
    RestoreComputes(items, |items|);
    assert metas[..|items|] == metas;
    forall j | 0 <= j < |items|
      ensures RestoredItem(items, |items|, j) == items[j] <==>
              var last := LastWith(items, items[j].itemIndex, |items|);
              if FirstWith(items, items[j].itemIndex) == j then MetaOf(items[j]) == MetaOf(items[last])
              else items[j].relativePath == "" && items[j].sha256 == ""
    {
      assert LastWith(items, items[j].itemIndex, |items|) >= j;
    }
    var r := Restore(Blanked(items), metas);
    assert r == items <==> forall j :: 0 <= j < |items| ==> r[j] == items[j];
  }

  /** Opening a sealed offer gives back every field the sealing took out, exactly when the indices allow it. */
  lemma SealThenOpen(offer: Offer, cipher: Cipher, codec: Codec)
    requires Sound(cipher) && Faithful(codec)
    ensures var wire := SealedForWire(offer, cipher, codec);
            var reopened := OpenMetadata(wire, cipher, codec);
            && reopened.Ok?
            && reopened.value.(items := wire.items) == wire.(previewSummary := offer.previewSummary)
            && (reopened.value.items == offer.items <==> Recoverable(offer.items))
  {
    var plain := MetadataPlaintext(offer, codec);
    assert Open(cipher, MetadataNonce(), cipher.seal(MetadataNonce(), plain)) == Some(plain);
    RestoresExactly(offer.items);
  }

  /** Distinct indices, which every prepared offer has, are always enough. */
  lemma DistinctIsRecoverable(items: seq<Item>)
    requires DistinctIndices(items)
    ensures Recoverable(items)
  {
    forall j | 0 <= j < |items|
      ensures FirstWith(items, items[j].itemIndex) == j == LastWith(items, items[j].itemIndex, |items|)
    {
    }
  }

  // ----- what the relay can see -----

  /** The offers agree on everything a sealed offer shows. */
  ghost predicate SameVisible(a: Offer, b: Offer) {
    && a.sessionId == b.sessionId && a.dataType == b.dataType
    && a.totalSize == b.totalSize && a.totalItems == b.totalItems && |a.items| == |b.items|
    && forall i :: 0 <= i < |a.items| ==>
         && a.items[i].itemIndex == b.items[i].itemIndex && a.items[i].size == b.items[i].size
         && a.items[i].totalChunks == b.items[i].totalChunks && a.items[i].isDir == b.items[i].isDir
  }

  /** Nothing leaks: but for the sealed blob the wire copies of two such offers are equal, and no name is left. */
  lemma WireCopyHides(a: Offer, b: Offer, cipher: Cipher, codec: Codec)
    requires SameVisible(a, b)
    ensures var wire := SealedForWire(a, cipher, codec);
            && wire.(encryptedMetadata := None) == SealedForWire(b, cipher, codec).(encryptedMetadata := None)
            && wire.previewSummary == ""
            && (forall i :: 0 <= i < |wire.items| ==> wire.items[i].relativePath == "" && wire.items[i].sha256 == "")
  {
    assert Blanked(a.items) == Blanked(b.items);
  }

  /** What the wire copy keeps, and that it is marked as sealed with version 1. */
  lemma WireCopyKeeps(offer: Offer, cipher: Cipher, codec: Codec)
    ensures var wire := SealedForWire(offer, cipher, codec);
            SameVisible(wire, offer) && wire.encrypted && wire.e2eeVersion == Some(1) && wire.encryptedMetadata.Some?
  {
  }

  /** Opening is refused exactly for a blob that is missing, undecodable, not sealed under this key, or no metadata. */
  lemma OpenRefuses(offer: Offer, cipher: Cipher, codec: Codec)
    ensures OpenMetadata(offer, cipher, codec).Ok? <==>
            exists blob: string, sealed: seq<byte>, json: seq<byte>, meta: Metadata ::
              offer.encryptedMetadata == Some(blob) && OpensTo(cipher, codec, blob, sealed, json, meta)
  {
    if OpenMetadata(offer, cipher, codec).Ok? {
      var blob := offer.encryptedMetadata.value;
      var sealed := codec.fromBase64(blob).value;
      var json := Open(cipher, MetadataNonce(), sealed).value;
      assert OpensTo(cipher, codec, blob, sealed, json, codec.fromJson(json).value);
    }
  }

  ghost predicate OpensTo(cipher: Cipher, codec: Codec, blob: string, sealed: seq<byte>, json: seq<byte>,
                          meta: Metadata) {
    && codec.fromBase64(blob) == Some(sealed) && |sealed| >= 16
    && cipher.openTagged(MetadataNonce(), sealed) == Some(json) && codec.fromJson(json) == Some(meta)
  }

  /** The nonce bytes: item, chunk, domain, each most significant byte first. */
  lemma NonceBytes(item: uint32, chunk: uint32)
    ensures var n := DataNonce(item, chunk);
            && n[0..4] == Be32(item) && n[4..8] == Be32(chunk) && (forall k :: 8 <= k < 12 ==> n[k] == 0)
    ensures MetadataNonce() == [0, 0, 0, 0, 0, 0, 0, 0, 0, 0, 0, 1]
  {
  }
}
