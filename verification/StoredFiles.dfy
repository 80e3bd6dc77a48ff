/** What it means for a manifest and a blob store to hold files, and that an upload
    establishes it (hippius_hub/file_upload.py, hippius_hub/file_download.py). */
module StoredFiles {
  import opened Basics
  import opened Text
  import opened Constants
  import opened Packing
  import opened PackingProperties
  import opened PackStore
  import opened Json
  import opened PointerBlob
  import opened Manifest
  import opened PullPacks
  import opened Upload

  predicate Listed(layers: seq<Layer>, pack: Digest) {
    exists j :: 0 <= j < |layers| && layers[j].mediaType == PackLayer && layers[j].digest == pack
  }

  /** A pack layer whose blob is there, as long as the layer says, and small enough to read. */
  predicate PackLayerOk(blobs: Blobs, l: Layer) {
    && l.mediaType == PackLayer && l.title.None?
    && l.digest in blobs && l.size == |blobs[l.digest]| && l.size <= MAX_PACK_BYTES
  }

  predicate HasBlob(blobs: Blobs, content: Bytes) {
    Sha256(content) in blobs && blobs[Sha256(content)] == content
  }

  /** The group stores `content` in chunks: its pointer is there and describes the content, and the
      packs listed in this very group are exactly those that its chunks refer to. */
  ghost predicate ChunkedGroup(blobs: Blobs, g: Group, content: Bytes, refs: seq<ChunkRef>, chunks: seq<Chunk>)
    requires Named(g.title)
  {
    && g.layers != [] && refs != []
    && g.layers[0] == PointerLayerFor(g.title.value, content, |refs|, refs)
    && HasBlob(blobs, PointerBytes(content, refs))
    && PlainRefs(refs)
    && RefsDescribe(blobs, refs, content, chunks)
    && (forall j :: 1 <= j < |g.layers| ==> PackLayerOk(blobs, g.layers[j]) && Names(refs, g.layers[j].digest))
    && (forall i :: 0 <= i < |refs| ==> Listed(g.layers[1..], refs[i].pack))
  }

  function PlainLayerFor(title: string, content: Bytes): Layer {
    Layer(OtherLayer, |content|, Sha256(content), Some(title), None)
  }

  predicate PlainGroup(blobs: Blobs, g: Group, content: Bytes)
    requires Named(g.title)
  {
    g.layers == [PlainLayerFor(g.title.value, content)] && HasBlob(blobs, content)
  }

  /** The group stores `content` cut at exactly these chunks. */
  ghost predicate CutAs(blobs: Blobs, g: Group, content: Bytes, chunks: seq<Chunk>)
    requires Named(g.title)
  {
    exists refs :: ChunkedGroup(blobs, g, content, refs, chunks)
  }

  /** The group's file can be read back as `content`. */
  ghost predicate GroupStores(blobs: Blobs, g: Group, content: Bytes) {
    && Named(g.title)
    && (PlainGroup(blobs, g, content) || exists refs, chunks :: ChunkedGroup(blobs, g, content, refs, chunks))
  }

  lemma RefsDescribeGrows(blobs: Blobs, blobs': Blobs, refs: seq<ChunkRef>, content: Bytes, chunks: seq<Chunk>)
    requires RefsDescribe(blobs, refs, content, chunks) && Grows(blobs, blobs')
    ensures RefsDescribe(blobs', refs, content, chunks)
  {
    forall i | 0 <= i < |chunks|
      ensures RefHolds(blobs', refs[i], Content(content, chunks[i]))
    {
      assert RefHolds(blobs, refs[i], Content(content, chunks[i]));
    }
  }

  lemma ChunkedGroupGrows(blobs: Blobs, blobs': Blobs, g: Group, content: Bytes, refs: seq<ChunkRef>, chunks: seq<Chunk>)
    requires Named(g.title) && ChunkedGroup(blobs, g, content, refs, chunks) && Grows(blobs, blobs')
    ensures ChunkedGroup(blobs', g, content, refs, chunks)
  {
    RefsDescribeGrows(blobs, blobs', refs, content, chunks);
    hide RefsDescribe, PointerLayerFor, PointerBytes, Names, Listed, Sha256;
  }

  /** A bigger store still stores the file. */
  lemma GroupStoresGrows(blobs: Blobs, blobs': Blobs, g: Group, content: Bytes)
    requires GroupStores(blobs, g, content) && Grows(blobs, blobs')
    ensures GroupStores(blobs', g, content)
  {
    if !PlainGroup(blobs, g, content) {
      hide ChunkedGroup, Grows;
      var refs, chunks :| ChunkedGroup(blobs, g, content, refs, chunks);
      ChunkedGroupGrows(blobs, blobs', g, content, refs, chunks);
    }
  }

  /** Every size is the true size of a stored pack that a reader accepts. */
  predicate SizesOk(blobs: Blobs, sizes: map<Digest, nat>) {
    forall d :: d in sizes ==> d in blobs && sizes[d] == |blobs[d]| && sizes[d] <= MAX_PACK_BYTES
  }

  /** Every pack that the index reuses has a known size. */
  predicate IndexSized(index: map<Digest, DedupEntry>, sizes: map<Digest, nat>) {
    forall d :: d in index ==> index[d].pack in sizes
  }

  lemma {:induction false} AllSizesOk(blobs: Blobs, packSizes: map<Digest, nat>, packs: seq<NewPack>, digests: seq<Digest>)
    requires |digests| == |packs| && SizesOk(blobs, packSizes)
    requires forall k :: 0 <= k < |packs| ==>
               digests[k] in blobs && |blobs[digests[k]]| == Size(packs[k]) <= MAX_PACK_BYTES
    ensures SizesOk(blobs, AllSizes(packSizes, packs, digests))
    ensures forall d :: d in AllSizes(packSizes, packs, digests) <==> d in packSizes || d in digests
  {
    if packs != [] {
      var n := |packs| - 1;
      AllSizesOk(blobs, packSizes, packs[..n], digests[..n]);
      assert digests == digests[..n] + [digests[n]];
    }
  }

  /** The chunker and the pack size stay within what a reader accepts. */
  predicate Sized(packSize: nat, chunks: seq<Chunk>) {
    && 0 < packSize <= MAX_PACK_BYTES - FASTCDC_MAXIMUM_MAX
    && forall c :: c in chunks ==> 0 < c.size <= FASTCDC_MAXIMUM_MAX
  }

  /** The size contract between writer and reader. Any pack size that the settings resolve to is
      within `Sized`, for chunks of at most the splitter's maximum; so every pack an upload
      builds passes the reader's ceiling, and all but the last reach the pack size. */
  lemma ResolvedPacksFit(raw: Option<int>, index: map<Digest, DedupEntry>, chunks: seq<Chunk>, k: nat)
    requires ResolvePackSize(raw).Ok? && forall c :: c in chunks ==> 0 < c.size <= FASTCDC_MAXIMUM_MAX
    requires ResolvePackSize(raw).value > 0 ==>
               && Plan(index, ResolvePackSize(raw).value, chunks).Ok?
               && k < |Plan(index, ResolvePackSize(raw).value, chunks).value.newPacks|
    ensures var packSize := ResolvePackSize(raw).value;
            && packSize > 0 && Sized(packSize, chunks)
            && Size(Plan(index, packSize, chunks).value.newPacks[k]) <= MAX_PACK_BYTES
            && (k + 1 < |Plan(index, packSize, chunks).value.newPacks| ==>
                  packSize <= Size(Plan(index, packSize, chunks).value.newPacks[k]))
  {
    PackSizeBounds(index, ResolvePackSize(raw).value, chunks, FASTCDC_MAXIMUM_MAX, k);
  }

  /** A pack that an upload builds is stored, and within the reader's ceiling. */
  lemma NewPackFits(blobs: Blobs, index: map<Digest, DedupEntry>, packSize: nat, file: Bytes, chunks: seq<Chunk>, k: nat)
    requires ContentAddressed(blobs) && Sized(packSize, chunks) && ChunksOf(file, chunks)
    requires Plan(index, packSize, chunks).Ok? && AllInFile(file, Plan(index, packSize, chunks).value.newPacks)
    requires k < |Plan(index, packSize, chunks).value.newPacks|
    ensures var packs := Plan(index, packSize, chunks).value.newPacks;
            var contents := PackBlobs(file, packs);
            && HasBlob(StoredAll(blobs, contents), contents[k])
            && |contents[k]| == Size(packs[k]) <= MAX_PACK_BYTES
  {
    var packs := Plan(index, packSize, chunks).value.newPacks;
    PackSizeBounds(index, packSize, chunks, FASTCDC_MAXIMUM_MAX, k);
    StoredAllGrows(blobs, PackBlobs(file, packs));
    assert PackBlobs(file, packs)[k] in PackBlobs(file, packs);
  }

  /** Every pack that a new chunk list refers to is a prior one of known size or one just built. */
  lemma RefPackSized(index: map<Digest, DedupEntry>, packSizes: map<Digest, nat>, chunks: seq<Chunk>, p: PackPlan,
                     digests: seq<Digest>, i: nat)
    requires IndexSized(index, packSizes) && IndexedInto(p) && |digests| == |p.newPacks|
    requires PlannedInv(index, chunks, p.newPacks, p.planned) && i < |p.planned|
    ensures var pack := ResolvePlanned(p.planned, digests)[i].pack;
            pack in packSizes || pack in digests
  {
    assert Describes(index, p.newPacks, chunks, chunks[i], p.planned[i]);
  }

  lemma RefsArePlain(blobs: Blobs, refs: seq<ChunkRef>, file: Bytes, chunks: seq<Chunk>)
    requires ContentAddressed(blobs) && RefsDescribe(blobs, refs, file, chunks)
    ensures PlainRefs(refs)
  {
    forall i | 0 <= i < |refs|
      ensures Plain(refs[i].digest) && Plain(refs[i].pack)
    {
      assert RefHolds(blobs, refs[i], Content(file, chunks[i]));
      DigestsArePlain(Content(file, chunks[i]));
      DigestsArePlain(blobs[refs[i].pack]);
    }
  }

  /** The pack layers of an upload list every pack that the chunks refer to, with its true size. */
  lemma PackLayersStore(blobs: Blobs, refs: seq<ChunkRef>, sizes: map<Digest, nat>)
    requires SizesOk(blobs, sizes)
    requires forall i :: 0 <= i < |refs| ==> refs[i].pack in sizes
    ensures PackLayers(PackOrder(refs), sizes).Ok?
    ensures forall j :: 0 <= j < |PackLayers(PackOrder(refs), sizes).value| ==>
              PackLayerOk(blobs, PackLayers(PackOrder(refs), sizes).value[j])
              && Names(refs, PackLayers(PackOrder(refs), sizes).value[j].digest)
    ensures forall i :: 0 <= i < |refs| ==> Listed(PackLayers(PackOrder(refs), sizes).value, refs[i].pack)
  {
    hide PackOrder, PackLayers;
    var order := PackOrder(refs);
    PackOrderSpec(refs);
    PackLayersShape(order, sizes);
    forall d | d in order
      ensures d in sizes
    {
      assert Names(refs, d);
    }
    var layers := PackLayers(order, sizes).value;
    forall j | 0 <= j < |layers|
      ensures PackLayerOk(blobs, layers[j]) && Names(refs, layers[j].digest)
    {
      assert order[j] in order;
    }
    forall i | 0 <= i < |refs|
      ensures Listed(layers, refs[i].pack)
    {
      assert Names(refs, refs[i].pack);
      var k :| 0 <= k < |order| && order[k] == refs[i].pack;
      assert layers[k].digest == refs[i].pack;
    }
  }

  lemma SizesOkGrows(blobs: Blobs, blobs': Blobs, sizes: map<Digest, nat>)
    requires SizesOk(blobs, sizes) && Grows(blobs, blobs')
    ensures SizesOk(blobs', sizes)
  {
  }

  /** The registry after an upload. */
  function AfterUpload(blobs: Blobs, o: Outcome): Blobs {
    Stored(StoredAll(blobs, o.contents), o.pointer)
  }

  ghost predicate Ready(blobs: Blobs, index: map<Digest, DedupEntry>, packSizes: map<Digest, nat>) {
    && ContentAddressed(blobs) && IndexOk(blobs, index)
    && SizesOk(blobs, packSizes) && IndexSized(index, packSizes)
  }

  /** The pack layers of an upload, against the store it leaves. */
  lemma UploadLists(blobs: Blobs, blobs': Blobs, index: map<Digest, DedupEntry>, packSizes: map<Digest, nat>,
                    packSize: nat, file: Bytes, chunks: seq<Chunk>, p: PackPlan)
    requires Ready(blobs, index, packSizes) && Sized(packSize, chunks) && ChunksOf(file, chunks)
    requires Plan(index, packSize, chunks) == Ok(p) && IndexedInto(p) && AllInFile(file, p.newPacks)
    requires Grows(StoredAll(blobs, PackBlobs(file, p.newPacks)), blobs')
    ensures var digests := Digests(PackBlobs(file, p.newPacks));
            var sizes := AllSizes(packSizes, p.newPacks, digests);
            && SizesOk(blobs', sizes)
            && forall i :: 0 <= i < |p.planned| ==> ResolvePlanned(p.planned, digests)[i].pack in sizes
  {
    var contents := PackBlobs(file, p.newPacks);
    var digests := Digests(contents);
    HonestChunksPlan(index, packSize, file, chunks);
    StoredAllGrows(blobs, contents);
    SizesOkGrows(blobs, blobs', packSizes);
    forall k | 0 <= k < |p.newPacks|
      ensures digests[k] in blobs' && |blobs'[digests[k]]| == Size(p.newPacks[k]) <= MAX_PACK_BYTES
    {
      NewPackFits(blobs, index, packSize, file, chunks, k);
    }
    AllSizesOk(blobs', packSizes, p.newPacks, digests);
    forall i | 0 <= i < |p.planned|
      ensures ResolvePlanned(p.planned, digests)[i].pack in AllSizes(packSizes, p.newPacks, digests)
    {
      RefPackSized(index, packSizes, chunks, p, digests, i);
    }
  }

  /** The group an upload contributes to the manifest. */
  function NewGroup(title: string, layers: seq<Layer>): Group {
    Group(Some(CleanTitle(title)), layers)
  }

  /** Uploading stores the file. Given the index and the sizes of any revision whose files are
      stored, an upload names only packs of known size, so it never fails on one; and the group
      it produces can be read back as the uploaded bytes. */
  lemma UploadStores(blobs: Blobs, index: map<Digest, DedupEntry>, packSizes: map<Digest, nat>,
                     packSize: nat, file: Bytes, title: string, chunks: seq<Chunk>, p: PackPlan)
    requires Ready(blobs, index, packSizes) && Sized(packSize, chunks) && ChunksOf(file, chunks)
    requires file != [] && title != ""
    requires Plan(index, packSize, chunks) == Ok(p) && IndexedInto(p) && AllInFile(file, p.newPacks)
    ensures var o := ChunkedOutcome(packSizes, file, title, |chunks|, p);
            && o.layers.Ok?
            && ContentAddressed(AfterUpload(blobs, o)) && Grows(blobs, AfterUpload(blobs, o))
            && GroupStores(AfterUpload(blobs, o), NewGroup(title, o.layers.value), file)
            && CutAs(AfterUpload(blobs, o), NewGroup(title, o.layers.value), file, chunks)
  {
    var o := ChunkedOutcome(packSizes, file, title, |chunks|, p);
    var stored, blobs' := StoredAll(blobs, o.contents), AfterUpload(blobs, o);
    var digests := Digests(o.contents);
    var refs, sizes := ResolvePlanned(p.planned, digests), AllSizes(packSizes, p.newPacks, digests);
    StoredAllGrows(blobs, o.contents);
    StoredGrows(stored, o.pointer);
    UploadDescribes(blobs, index, packSize, file, chunks);
    RefsDescribeGrows(stored, blobs', refs, file, chunks);
    RefsArePlain(blobs', refs, file, chunks);
    UploadLists(blobs, blobs', index, packSizes, packSize, file, chunks, p);
    PackLayersStore(blobs', refs, sizes);
    UploadGroup(blobs', title, file, refs, chunks, o.layers.value, PackLayers(PackOrder(refs), sizes).value);
  }

  lemma UploadGroup(blobs: Blobs, title: string, file: Bytes, refs: seq<ChunkRef>, chunks: seq<Chunk>,
                    layers: seq<Layer>, packLayers: seq<Layer>)
    requires title != "" && file != []
    requires layers == [PointerLayerFor(CleanTitle(title), file, |chunks|, refs)] + packLayers
    requires HasBlob(blobs, PointerBytes(file, refs)) && PlainRefs(refs) && RefsDescribe(blobs, refs, file, chunks)
    requires forall j :: 0 <= j < |packLayers| ==> PackLayerOk(blobs, packLayers[j]) && Names(refs, packLayers[j].digest)
    requires forall i :: 0 <= i < |refs| ==> Listed(packLayers, refs[i].pack)
    ensures GroupStores(blobs, NewGroup(title, layers), file)
    ensures CutAs(blobs, NewGroup(title, layers), file, chunks)
  {
    var g := NewGroup(title, layers);
    assert g.layers[1..] == packLayers;
    assert Named(g.title);
    assert ChunkedGroup(blobs, g, file, refs, chunks);
  }
}
