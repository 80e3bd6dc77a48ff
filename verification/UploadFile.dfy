/** Uploading one file end to end (the operation inside `upload_file` of
    hippius_hub/file_upload.py), as the code runs it, and that it is one commit of a history. */
module UploadFile {
  import opened Basics
  import opened Text
  import opened Packing
  import opened PackStore
  import opened Manifest
  import opened ManifestFiles
  import opened PullPacks
  import opened Upload
  import opened StoredFiles
  import opened Versions
  import opened DedupIndex
  import opened History

  /** From which size on files are stored in chunks, and whether that is switched on. */
  datatype Layout = Layout(threshold: nat, chunkedWrites: bool)

  /** The file as a commit sees it. */
  function AsUpload(title: string, content: Bytes, chunks: seq<Chunk>, layout: Layout): NewFile {
    if |content| >= layout.threshold && layout.chunkedWrites then Chunked(title, content, chunks) else Plain(title, content)
  }

  /** The manifest lists a group under the title: in chunks, cut exactly where the splitter cut, when
      the file is large enough and chunked writes are on, and as one blob otherwise. */
  ghost predicate StoredBySize(blobs: Blobs, layers: seq<Layer>, title: string, content: Bytes, chunks: seq<Chunk>,
                               layout: Layout)
  {
    exists g :: g in Partition(layers) && Named(g.title) && g.title == Some(CleanTitle(title))
      && (if |content| >= layout.threshold && layout.chunkedWrites then CutAs(blobs, g, content, chunks)
          else PlainGroup(blobs, g, content))
  }

  /** A lookup of the title finds a pointer in the one case and none in the other. */
  predicate FoundBySize(layers: seq<Layer>, title: string, content: Bytes, layout: Layout) {
    && Files(layers).Ok? && Resolved(Files(layers).value, CleanTitle(title)).Ok?
    && var f := Resolved(Files(layers).value, CleanTitle(title)).value;
       && f.size == |content| && f.digest == Sha256(content)
       && (f.pointer.Some? <==> |content| >= layout.threshold && layout.chunkedWrites)
  }

  lemma NotBoth(blobs: Blobs, g: Group, content: Bytes, chunks: seq<Chunk>)
    requires Named(g.title) && CutAs(blobs, g, content, chunks)
    ensures GroupStores(blobs, g, content) && !PlainGroup(blobs, g, content)
  {
    var refs :| ChunkedGroup(blobs, g, content, refs, chunks);
  }

  lemma SizeDecidesLookup(blobs: Blobs, layers: seq<Layer>, files: Contents, title: string, content: Bytes,
                          chunks: seq<Chunk>, layout: Layout)
    requires Stores(blobs, layers, files) && StoredBySize(blobs, layers, title, content, chunks, layout)
    ensures FoundBySize(layers, title, content, layout)
  {
    var g :| g in Partition(layers) && Named(g.title) && g.title == Some(CleanTitle(title))
      && (if |content| >= layout.threshold && layout.chunkedWrites then CutAs(blobs, g, content, chunks)
          else PlainGroup(blobs, g, content));
    if |content| >= layout.threshold && layout.chunkedWrites {
      NotBoth(blobs, g, content, chunks);
    }
    var k :| 0 <= k < |Partition(layers)| && Partition(layers)[k] == g;
    assert Matches(In(blobs), Partition(layers)[k], files);
    LookupStored(blobs, layers, files, CleanTitle(title));
    var h :| FoundIn(blobs, layers, files[CleanTitle(title)], CleanTitle(title), h);
    var l :| 0 <= l < |Partition(layers)| && Partition(layers)[l] == h;
    assert k == l;
    StoredHead(blobs, g, content);
  }

  /** A commit event of such a file brings it in the way its size demands. */
  lemma CommittedBySize(r: Repo, e: Event, i: nat, title: string, content: Bytes, chunks: seq<Chunk>, layout: Layout)
    requires Sound(r) && e.Commit? && Enabled(r, e) && i < |e.uploads|
    requires e.uploads[i] == AsUpload(title, content, chunks, layout)
    ensures Do(r, e).Ok? && Do(r, e).value.log != []
    ensures var after := Do(r, e).value;
            && StoredBySize(after.blobs, Head(after).layers, title, content, chunks, layout)
            && FoundBySize(Head(after).layers, title, content, layout)
  {
    CommitBrings(r, e, i);
    CommitKeepsSound(r, e);
    hide Do, Enabled, Partition, Stores, FoundBySize, CutAs, PlainGroup;
    var after := Do(r, e).value;
    assert Head(after) in after.log;
    SizeDecidesLookup(after.blobs, Head(after).layers, Head(after).files, title, content, chunks, layout);
  }

  function UploadEvent(r: Repo, packSize: nat, u: NewFile): Event
    requires r.log != []
  {
    Commit(packSize, |r.log| - 1, |r.log| - 1, [u], {})
  }

  /** What reading the current manifest gives: nothing at all when the revision is new. */
  predicate ReadOf(existing: Option<seq<Layer>>, head: Version) {
    match existing
    case None => head.layers == []
    case Some(layers) => layers == head.layers
  }

  lemma IndexOfRead(existing: Option<seq<Layer>>, head: Version, blobs: Blobs)
    requires ReadOf(existing, head)
    ensures BuildIndex(existing, blobs, {}) == BuildIndex(Some(head.layers), blobs, {})
  {
  }

  /** A commit of one file. */
  lemma OneUpload(blobs: Blobs, index: Index, sizes: map<Digest, nat>, packSize: nat, u: NewFile, after: Blobs, layers: seq<Layer>)
    requires Honest(packSize, u) && UploadOne(blobs, index, sizes, packSize, u) == (after, Ok(layers))
    ensures HonestAll(packSize, [u])
    ensures UploadAll(blobs, index, sizes, packSize, [u]) == (after, Ok([NewGroup(u.title, layers)]))
  {
    hide UploadOne, Honest;
    assert [u][..0] == [];
    assert [] + [NewGroup(u.title, layers)] == [NewGroup(u.title, layers)];
  }

  lemma CommitShape(r: Repo, packSize: nat, u: NewFile, index: Index, sizes: map<Digest, nat>)
    requires r.log != [] && Honest(packSize, u)
    requires BuildIndex(Some(Head(r).layers), r.blobs, {}) == Ok((index, sizes))
    requires UploadOne(r.blobs, index, sizes, packSize, u).1.Ok?
    ensures var e := UploadEvent(r, packSize, u);
            && Enabled(r, e) && Do(r, e).Ok?
            && Do(r, e).value.blobs == UploadOne(r.blobs, index, sizes, packSize, u).0
            && Do(r, e).value.log != []
            && Head(Do(r, e).value).layers ==
                 Merge(Head(r).layers, UploadOne(r.blobs, index, sizes, packSize, u).1.value, {})
  {
    hide UploadOne, UploadAll, BuildIndex, Merge, Honest;
    var (after, layers) := UploadOne(r.blobs, index, sizes, packSize, u);
    OneUpload(r.blobs, index, sizes, packSize, u, after, layers.value);
    OneGroupLayers(NewGroup(u.title, layers.value));
  }

  /** Store one small file as one blob. */
  method UploadPlain(title: string, content: Bytes, registry: Registry) returns (r: Result<seq<Layer>, UploadError>)
    modifies registry
    ensures r.Ok? ==> r.value == [PlainLayerFor(CleanTitle(title), content)]
                      && registry.blobs == Stored(old(registry.blobs), content)
    ensures r.Err? ==> r.error == PutFailed
    ensures registry.failures == old(registry.failures) + (if r.Err? then 1 else 0)
    ensures ContentAddressed(old(registry.blobs)) ==>
              ContentAddressed(registry.blobs) && Grows(old(registry.blobs), registry.blobs)
  {
    if ContentAddressed(registry.blobs) {
      StoredGrows(registry.blobs, content);
    }
    var ok := registry.PutBlob(content);
    if !ok {
      return Err(PutFailed);
    }
    return Ok([PlainLayerFor(CleanTitle(title), content)]);
  }

  /** What the splitter must have done, when the file is stored in chunks. */
  ghost predicate Splittable(packSize: nat, content: Bytes, chunks: seq<Chunk>, layout: Layout) {
    |content| >= layout.threshold && layout.chunkedWrites ==> packSize > 0 && ChunksOf(content, chunks)
  }

  lemma HonestSplittable(packSize: nat, title: string, content: Bytes, chunks: seq<Chunk>, layout: Layout)
    requires Honest(packSize, AsUpload(title, content, chunks, layout))
    ensures Splittable(packSize, content, chunks, layout)
  {
  }

  /** The layers are those of the file, stored the way its size demands, and what they head and what
      was uploaded is there: in chunks, a pointer and packs that are known or have just been
      uploaded, and otherwise one blob. */
  predicate LayersFor(layers: seq<Layer>, uploaded: seq<Digest>, after: Blobs, sizes: map<Digest, nat>, title: string,
                      content: Bytes, chunks: seq<Chunk>, layout: Layout)
  {
    && layers != [] && layers[0].title == Some(CleanTitle(title)) && layers[0].digest in after
    && (forall d :: d in uploaded ==> d in after)
    && if |content| >= layout.threshold && layout.chunkedWrites then
         && layers[0].mediaType == PointerLayer
         && layers[0].file == Some(FileAnnotations(|chunks|, |content|, Sha256(content)))
         && forall j :: 1 <= j < |layers| ==>
              layers[j].mediaType == PackLayer && (layers[j].digest in sizes || layers[j].digest in uploaded)
       else
         layers == [PlainLayerFor(CleanTitle(title), content)] && uploaded == [Sha256(content)] && HasBlob(after, content)
  }

  lemma {:induction false} AllSizesKeys(packSizes: map<Digest, nat>, packs: seq<NewPack>, digests: seq<Digest>)
    requires |digests| == |packs|
    ensures forall d :: d in AllSizes(packSizes, packs, digests) <==> d in packSizes || d in digests
  {
    if packs != [] {
      var n := |packs| - 1;
      AllSizesKeys(packSizes, packs[..n], digests[..n]);
      assert digests == digests[..n] + [digests[n]];
    }
  }

  /** A chunked upload lists only packs of known size and packs it has just built, and those and its
      pointer are in the registry. */
  lemma OutcomeLists(before: Blobs, sizes: map<Digest, nat>, content: Bytes, title: string, chunks: seq<Chunk>, p: PackPlan,
                     layout: Layout)
    requires ContentAddressed(before) && IndexedInto(p) && AllInFile(content, p.newPacks)
    requires |content| >= layout.threshold && layout.chunkedWrites
    requires ChunkedOutcome(sizes, content, title, |chunks|, p).layers.Ok?
    ensures var o := ChunkedOutcome(sizes, content, title, |chunks|, p);
            LayersFor(o.layers.value, Digests(o.contents), AfterUpload(before, o), sizes, title, content, chunks, layout)
  {
    hide Sha256, PointerBytes, Stored, StoredAll, PackOrder, PackLayers, AllSizes, ResolvePlanned, CleanTitle;
    var o := ChunkedOutcome(sizes, content, title, |chunks|, p);
    var digests := Digests(o.contents);
    AllSizesKeys(sizes, p.newPacks, digests);
    PackLayersShape(PackOrder(ResolvePlanned(p.planned, digests)), AllSizes(sizes, p.newPacks, digests));
    StoredAllGrows(before, o.contents);
    StoredGrows(StoredAll(before, o.contents), o.pointer);
    PointerThere(StoredAll(before, o.contents), o.pointer);
    forall d | d in digests
      ensures d in AfterUpload(before, o)
    {
      var k :| 0 <= k < |digests| && digests[k] == d;
      assert o.contents[k] in o.contents;
    }
  }

  lemma PointerThere(blobs: Blobs, content: Bytes)
    requires ContentAddressed(blobs)
    ensures HasBlob(Stored(blobs, content), content)
  {
    StoredGrows(blobs, content);
  }

  /** The file's layers, whichever way the file is stored. */
  method UploadFileLayers(title: string, content: Bytes, batches: seq<seq<Chunk>>, layout: Layout, packSize: nat,
                          registry: Registry, index: Index, sizes: map<Digest, nat>)
    returns (r: Result<seq<Layer>, UploadError>, ghost uploaded: seq<Digest>)
    requires ContentAddressed(registry.blobs) && Splittable(packSize, content, Concat(batches), layout)
    modifies registry
    ensures r != Err(PutFailed) && Honest(packSize, AsUpload(title, content, Concat(batches), layout)) ==>
              (registry.blobs, r) == UploadOne(old(registry.blobs), index, sizes, packSize,
                                               AsUpload(title, content, Concat(batches), layout))
    ensures r.Ok? ==> LayersFor(r.value, uploaded, registry.blobs, sizes, title, content, Concat(batches), layout)
    ensures r.Err? ==>
              r.error == PutFailed || (r.error.UnknownPack? && |content| >= layout.threshold && layout.chunkedWrites)
    ensures ContentAddressed(registry.blobs) && Grows(old(registry.blobs), registry.blobs)
    ensures registry.failures == old(registry.failures) + (if r == Err(PutFailed) then 1 else 0)
  {
    ghost var before := registry.blobs;
    uploaded := [];
    if |content| >= layout.threshold && layout.chunkedWrites {
      HonestChunksPlan(index, packSize, content, Concat(batches));
      r := UploadChunked(content, title, batches, registry, index, sizes, packSize);
      ghost var p := Plan(index, packSize, Concat(batches)).value;
      if r.Ok? {
        uploaded := Digests(PackBlobs(content, p.newPacks));
        OutcomeLists(before, sizes, content, title, Concat(batches), p, layout);
      } else if r.error != PutFailed {
        UnknownPackOfOutcome(sizes, content, title, |Concat(batches)|, p);
      }
    } else {
      r := UploadPlain(title, content, registry);
      uploaded := [Sha256(content)];
      PointerThere(before, content);
    }
  }

  lemma UnknownPackOfOutcome(sizes: map<Digest, nat>, content: Bytes, title: string, chunkCount: nat, p: PackPlan)
    requires IndexedInto(p) && AllInFile(content, p.newPacks)
    requires ChunkedOutcome(sizes, content, title, chunkCount, p).layers.Err?
    ensures ChunkedOutcome(sizes, content, title, chunkCount, p).layers.error.UnknownPack?
  {
    var digests := Digests(PackBlobs(content, p.newPacks));
    UnknownPackOnly(PackOrder(ResolvePlanned(p.planned, digests)), AllSizes(sizes, p.newPacks, digests));
  }

  /** The commit event that the operation below comes to. */
  lemma UploadEventShape(r: Repo, existing: Option<seq<Layer>>, packSize: nat, u: NewFile)
    returns (index: Index, sizes: map<Digest, nat>)
    requires Sound(r) && ReadOf(existing, Head(r)) && Honest(packSize, u)
    ensures BuildIndex(existing, r.blobs, {}) == Ok((index, sizes)) && ContentAddressed(r.blobs)
    ensures UploadOne(r.blobs, index, sizes, packSize, u).1.Ok?
    ensures u.Plain? ==> UploadOne(r.blobs, index, sizes, packSize, u) == UploadOne(r.blobs, map[], map[], packSize, u)
    ensures var e := UploadEvent(r, packSize, u);
            && Enabled(r, e) && Do(r, e).Ok? && Sound(Do(r, e).value)
            && Do(r, e).value.blobs == UploadOne(r.blobs, index, sizes, packSize, u).0
            && Head(Do(r, e).value).layers
               == Merge(Head(r).layers, UploadOne(r.blobs, index, sizes, packSize, u).1.value, {})
  {
    var head := Head(r);
    assert head in r.log;
    IndexOfRead(existing, head, r.blobs);
    StoredIndexReady(r.blobs, head.layers, head.files, {});
    var full := BuildIndex(existing, r.blobs, {}).value;
    index, sizes := full.0, full.1;
    UploadOneStores(r.blobs, index, sizes, packSize, u);
    CommitShape(r, packSize, u, index, sizes);
    CommitKeepsSound(r, UploadEvent(r, packSize, u));
  }

  /** The whole operation: read, index if the file is large, upload, merge. On a sound repository
      only a failing registry can stop it; and when it gets as far as a manifest, that manifest
      and the registry are those of one commit event, and the file is stored the way its size demands.
      However it ends, no blob is lost. */
  method UploadOp(ghost r: Repo, existing: Option<seq<Layer>>, title: string, content: Bytes, batches: seq<seq<Chunk>>,
                  layout: Layout, packSize: nat, registry: Registry)
    returns (merged: Result<seq<Layer>, UploadError>)
    requires Sound(r) && ReadOf(existing, Head(r)) && registry.blobs == r.blobs
    requires Honest(packSize, AsUpload(title, content, Concat(batches), layout))
    modifies registry
    ensures merged.Err? ==> merged.error == PutFailed
    ensures ContentAddressed(registry.blobs) && Grows(r.blobs, registry.blobs)
    ensures merged.Ok? ==>
              var e := UploadEvent(r, packSize, AsUpload(title, content, Concat(batches), layout));
              && Enabled(r, e) && Do(r, e).Ok? && Sound(Do(r, e).value)
              && registry.blobs == Do(r, e).value.blobs
              && merged.value == Head(Do(r, e).value).layers
    ensures merged.Ok? ==>
              && StoredBySize(registry.blobs, merged.value, title, content, Concat(batches), layout)
              && FoundBySize(merged.value, title, content, layout)
    ensures registry.failures == old(registry.failures) + (if merged.Err? then 1 else 0)
  {
    ghost var u := AsUpload(title, content, Concat(batches), layout);
    ghost var full, known := UploadEventShape(r, existing, packSize, u);
    CommittedBySize(r, UploadEvent(r, packSize, u), 0, title, content, Concat(batches), layout);
    HonestSplittable(packSize, title, content, Concat(batches), layout);
    hide Splittable, LayersFor, StoredBySize, FoundBySize, Do, UploadOne, BuildIndex, Merge, Sound, Honest, Grows, ContentAddressed;
    var index: Index, sizes: map<Digest, nat> := map[], map[];
    if |content| >= layout.threshold && layout.chunkedWrites {
      var built := BuildDedupIndex(existing, registry.blobs, {});
      index, sizes := built.value.0, built.value.1;
    }
    var layers;
    ghost var uploaded;
    layers, uploaded := UploadFileLayers(title, content, batches, layout, packSize, registry, index, sizes);
    if layers.Err? {
      return Err(layers.error);
    }
    var prior: seq<Layer> := if existing.Some? then existing.value else [];
    var result := MergeLayers(prior, layers.value, {});
    return Ok(result);
  }
}
