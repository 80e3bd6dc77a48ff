/** Running an upload again after its response was lost (hippius_hub/file_upload.py). The rerun
    takes its index from the manifest that the first run put, in which the file is now last. */
module Rerun {
  import opened Basics
  import opened Text
  import opened Packing
  import opened PackingProperties
  import opened PackStore
  import opened PointerBlob
  import opened Manifest
  import opened ManifestFiles
  import opened PullPacks
  import opened Upload
  import opened StoredFiles
  import opened Versions
  import opened DedupIndex
  import opened History
  import opened UploadFile

  /** The index and the pack sizes that an upload onto the current manifest works with. */
  ghost function HeadIndex(r: Repo): (built: (Index, map<Digest, nat>))
    requires Sound(r)
    ensures BuildIndex(Some(Head(r).layers), r.blobs, {}) == Ok(built)
    ensures Ready(r.blobs, built.0, built.1)
  {
    StoredIndexReady(r.blobs, Head(r).layers, Head(r).files, {});
    BuildIndex(Some(Head(r).layers), r.blobs, {}).value
  }

  lemma UploadEnabled(r: Repo, packSize: nat, u: NewFile)
    requires Sound(r) && Honest(packSize, u)
    ensures Enabled(r, UploadEvent(r, packSize, u))
    ensures Do(r, UploadEvent(r, packSize, u)).Ok? && Sound(Do(r, UploadEvent(r, packSize, u)).value)
  {
    CommitKeepsSound(r, UploadEvent(r, packSize, u));
  }

  /** The repository after one upload onto the current manifest. */
  ghost function Uploaded(r: Repo, packSize: nat, u: NewFile): (after: Repo)
    requires Sound(r) && Honest(packSize, u)
    ensures Sound(after) && after.log != []
  {
    UploadEnabled(r, packSize, u);
    Do(r, UploadEvent(r, packSize, u)).value
  }

  /** The group that such an upload brings. */
  ghost function GroupFor(r: Repo, packSize: nat, u: NewFile): Group
    requires Sound(r) && Honest(packSize, u)
  {
    var (index, sizes) := HeadIndex(r);
    UploadOneStores(r.blobs, index, sizes, packSize, u);
    NewGroup(u.title, UploadOne(r.blobs, index, sizes, packSize, u).1.value)
  }

  /** What the upload adds, and how its manifest is merged. */
  lemma UploadedShape(r: Repo, packSize: nat, u: NewFile)
    requires Sound(r) && Honest(packSize, u)
    ensures var after := Uploaded(r, packSize, u);
            && after.blobs == UploadOne(r.blobs, HeadIndex(r).0, HeadIndex(r).1, packSize, u).0
            && Grows(r.blobs, after.blobs)
            && GroupStores(after.blobs, GroupFor(r, packSize, u), u.content)
            && Head(after).layers == Merge(Head(r).layers, GroupFor(r, packSize, u).layers, {})
  {
    var (index, sizes) := HeadIndex(r);
    UploadOneStores(r.blobs, index, sizes, packSize, u);
    hide Sound, Honest, UploadOne, BuildIndex, Merge, GroupStores, Ready;
    CommitShape(r, packSize, u, index, sizes);
  }

  /** The new manifest: the groups of the other titles, then the uploaded one. */
  lemma UploadedHead(r: Repo, packSize: nat, u: NewFile)
    requires Sound(r) && Honest(packSize, u)
    ensures Partition(Head(Uploaded(r, packSize, u)).layers)
            == Surviving(Partition(Head(r).layers), {Titled(u)}) + [GroupFor(r, packSize, u)]
  {
    UploadedShape(r, packSize, u);
    var g := GroupFor(r, packSize, u);
    GroupOkOfStored(Uploaded(r, packSize, u).blobs, g, u.content);
    MergeOne(Head(r).layers, g);
  }

  lemma NewsOfOne(u: NewFile)
    ensures News([u]) == map[Titled(u) := u.content]
  {
    assert [u][..0] == [] && News([]) == map[];
  }

  lemma UpdatedByOne(files: Contents, title: string, content: Bytes)
    ensures Updated(files, map[title := content], {}) == files[title := content]
  {
  }

  lemma UploadedFiles(r: Repo, packSize: nat, u: NewFile)
    requires Sound(r) && Honest(packSize, u)
    ensures Head(Uploaded(r, packSize, u)).files == Head(r).files[Titled(u) := u.content]
  {
    hide Sound, Honest, News, Do, Enabled, Updated;
    UploadEnabled(r, packSize, u);
    NewsOfOne(u);
    DoHead(r, UploadEvent(r, packSize, u));
    UpdatedByOne(Head(r).files, Titled(u), u.content);
  }

  lemma KeepsOthers(groups: seq<Group>, g: Group, title: string)
    requires g.title == Some(title)
    ensures Surviving(Surviving(groups, {title}) + [g], {title}) == Surviving(groups, {title})
  {
    SurvivingAppend(Surviving(groups, {title}), [g], {title});
    SurvivingTwice(groups, {title});
    SurvivingNone([g], {title});
    assert Surviving(groups, {title}) + [] == Surviving(groups, {title});
  }

  /** So a rerun changes no layer exactly when it brings the very same group. */
  lemma SameGroup(r: Repo, packSize: nat, u: NewFile)
    requires Sound(r) && Honest(packSize, u)
    ensures var once := Uploaded(r, packSize, u);
            Head(Uploaded(once, packSize, u)).layers == Head(once).layers
            <==> GroupFor(once, packSize, u) == GroupFor(r, packSize, u)
  {
    var once := Uploaded(r, packSize, u);
    UploadedShape(r, packSize, u);
    UploadedHead(r, packSize, u);
    UploadedHead(once, packSize, u);
    var twice := Uploaded(once, packSize, u);
    hide Uploaded, GroupFor, Surviving, Partition, Sound, Honest, GroupStores;
    var gone := {Titled(u)};
    var kept, g, g2 := Surviving(Partition(Head(r).layers), gone), GroupFor(r, packSize, u), GroupFor(once, packSize, u);
    GroupOkOfStored(once.blobs, g, u.content);
    KeepsOthers(Partition(Head(r).layers), g, Titled(u));
    assert Partition(Head(twice).layers) == kept + [g2] && Partition(Head(once).layers) == kept + [g];
    PartitionSplits(Head(once).layers);
    PartitionSplits(Head(twice).layers);
    assert (kept + [g])[|kept|] == g && (kept + [g2])[|kept|] == g2;
  }

  /** The chunk list that the pointer of such an upload keeps. */
  ghost function RefsFor(r: Repo, packSize: nat, u: NewFile): seq<ChunkRef>
    requires Sound(r) && Honest(packSize, u) && u.Chunked?
  {
    var index := HeadIndex(r).0;
    HonestChunksPlan(index, packSize, u.content, u.chunks);
    var p := Plan(index, packSize, u.chunks).value;
    ResolvePlanned(p.planned, Digests(PackBlobs(u.content, p.newPacks)))
  }

  /** `refs` lists the chunks, and takes what it can from the index. */
  predicate Takes(index: Index, chunks: seq<Chunk>, refs: seq<ChunkRef>) {
    |refs| == |chunks| && forall i :: 0 <= i < |refs| ==>
      && refs[i].digest == chunks[i].digest && refs[i].size == chunks[i].size
      && (refs[i].digest in index ==> DedupEntry(refs[i].pack, refs[i].offset) == index[refs[i].digest])
  }

  lemma PlanTakes(index: Index, packs: seq<NewPack>, chunks: seq<Chunk>, planned: seq<PlannedChunk>, digests: seq<Digest>)
    requires PlannedInv(index, chunks, packs, planned)
    requires forall i :: 0 <= i < |planned| && planned[i].place.InNew? ==> planned[i].place.index < |digests|
    ensures Takes(index, chunks, ResolvePlanned(planned, digests))
  {
    var refs := ResolvePlanned(planned, digests);
    forall i | 0 <= i < |refs|
      ensures refs[i].digest == chunks[i].digest && refs[i].size == chunks[i].size
      ensures refs[i].digest in index ==> DedupEntry(refs[i].pack, refs[i].offset) == index[refs[i].digest]
    {
      assert Describes(index, packs, chunks, chunks[i], planned[i]);
    }
  }

  lemma RefsOfPlan(r: Repo, packSize: nat, u: NewFile)
    requires Sound(r) && Honest(packSize, u) && u.Chunked?
    ensures Takes(HeadIndex(r).0, u.chunks, RefsFor(r, packSize, u))
  {
    hide Sound, Plan, ChunksOf, GreedyCut, PlannedInv, Takes;
    var index := HeadIndex(r).0;
    HonestChunksPlan(index, packSize, u.content, u.chunks);
    var p := Plan(index, packSize, u.chunks).value;
    PlanTakes(index, p.newPacks, u.chunks, p.planned, Digests(PackBlobs(u.content, p.newPacks)));
  }

  /** The group of a chunked upload, with the true sizes of the packs it lists. */
  lemma ChunkedGroupFor(r: Repo, packSize: nat, u: NewFile) returns (sizes: map<Digest, nat>)
    requires Sound(r) && Honest(packSize, u) && u.Chunked?
    ensures var refs := RefsFor(r, packSize, u);
            && refs != [] && PlainRefs(refs) && HasBlob(Uploaded(r, packSize, u).blobs, PointerBytes(u.content, refs))
            && SizesOk(Uploaded(r, packSize, u).blobs, sizes)
            && PackLayers(PackOrder(refs), sizes).Ok?
            && GroupFor(r, packSize, u)
               == NewGroup(u.title, [PointerLayerFor(Titled(u), u.content, |refs|, refs)]
                                    + PackLayers(PackOrder(refs), sizes).value)
  {
    var (index, known) := HeadIndex(r);
    HonestChunksPlan(index, packSize, u.content, u.chunks);
    var p := Plan(index, packSize, u.chunks).value;
    var contents := PackBlobs(u.content, p.newPacks);
    var stored, after := StoredAll(r.blobs, contents), Uploaded(r, packSize, u).blobs;
    var refs := RefsFor(r, packSize, u);
    sizes := AllSizes(known, p.newPacks, Digests(contents));
    UploadedShape(r, packSize, u);
    StoredAllGrows(r.blobs, contents);
    UploadDescribes(r.blobs, index, packSize, u.content, u.chunks);
    RefsArePlain(stored, refs, u.content, u.chunks);
    StoredGrows(stored, PointerBytes(u.content, refs));
    assert after == AfterUpload(r.blobs, ChunkedOutcome(known, u.content, u.title, |u.chunks|, p));
    UploadLists(r.blobs, after, index, known, packSize, u.content, u.chunks, p);
    PackLayersStore(after, refs, sizes);
  }

  lemma SamePackLayers(blobs: Blobs, blobs': Blobs, order: seq<Digest>, sizes: map<Digest, nat>, sizes': map<Digest, nat>)
    requires SizesOk(blobs, sizes) && SizesOk(blobs', sizes') && Grows(blobs, blobs')
    requires PackLayers(order, sizes).Ok? && PackLayers(order, sizes').Ok?
    ensures PackLayers(order, sizes) == PackLayers(order, sizes')
  {
    PackLayersShape(order, sizes);
    PackLayersShape(order, sizes');
    var a, b := PackLayers(order, sizes).value, PackLayers(order, sizes').value;
    forall k | 0 <= k < |order|
      ensures a[k] == b[k]
    {
      assert order[k] in order;
    }
  }

  /** Two pointers of one file have the same digest only when their chunk lists agree. */
  lemma SamePointer(title: string, file: Bytes, a: seq<ChunkRef>, b: seq<ChunkRef>)
    requires PlainRefs(a) && PlainRefs(b)
    requires PointerLayerFor(title, file, |a|, a) == PointerLayerFor(title, file, |b|, b)
    ensures a == b
  {
    Sha256Injective(PointerBytes(file, a), PointerBytes(file, b));
    DigestsArePlain(file);
    PointerInjective(Hex(file), |file|, a, Hex(file), |file|, b);
  }

  lemma SameRefs(r: Repo, packSize: nat, u: NewFile)
    requires Sound(r) && Honest(packSize, u) && u.Chunked?
    ensures var once := Uploaded(r, packSize, u);
            GroupFor(once, packSize, u) == GroupFor(r, packSize, u)
            <==> RefsFor(once, packSize, u) == RefsFor(r, packSize, u)
  {
    var once := Uploaded(r, packSize, u);
    var refs, refs' := RefsFor(r, packSize, u), RefsFor(once, packSize, u);
    var sizes := ChunkedGroupFor(r, packSize, u);
    var sizes' := ChunkedGroupFor(once, packSize, u);
    UploadedShape(once, packSize, u);
    if refs == refs' {
      SamePackLayers(once.blobs, Uploaded(once, packSize, u).blobs, PackOrder(refs), sizes, sizes');
    } else if GroupFor(once, packSize, u) == GroupFor(r, packSize, u) {
      assert GroupFor(r, packSize, u).layers[0] == GroupFor(once, packSize, u).layers[0];
      SamePointer(Titled(u), u.content, refs, refs');
    }
  }

  /** The pointer of the last file is the last one fetched. */
  lemma LastPointer(blobs: Blobs, files: seq<FileGroup>, pointer: Digest)
    requires files != [] && files[|files| - 1].pointer == Some(pointer) && FetchAll(blobs, PointersOf(files)).Ok?
    ensures var fetched := FetchAll(blobs, PointersOf(files)).value;
            pointer in blobs && fetched != [] && fetched[|fetched| - 1] == blobs[pointer]
  {
  }

  /** The group's pointer is stored and keeps exactly this chunk list. */
  ghost predicate Keeps(blobs: Blobs, g: Group, content: Bytes, refs: seq<ChunkRef>) {
    && g.layers != [] && Named(g.title) && g.layers[0] == PointerLayerFor(g.title.value, content, |refs|, refs)
    && refs != [] && PlainRefs(refs) && HasBlob(blobs, PointerBytes(content, refs))
  }

  lemma KeptPointer(blobs: Blobs, g: Group, content: Bytes, refs: seq<ChunkRef>)
    requires Keeps(blobs, g, content, refs) && HeadOk(g)
    ensures FileOfGroup(g).pointer == Some(Sha256(PointerBytes(content, refs)))
    ensures var d := Sha256(PointerBytes(content, refs));
            d in blobs && ParsePointerV2(blobs[d]) == Ok(refs)
  {
    DigestsArePlain(content);
    ParsePrintedPointer(Hex(content), |content|, refs);
  }

  /** The chunks of the last file of a manifest are indexed. */
  lemma LastIndexed(blobs: Blobs, layers: seq<Layer>, files: Contents, g: Group, content: Bytes, refs: seq<ChunkRef>)
    requires ContentAddressed(blobs) && Stores(blobs, layers, files) && Keeps(blobs, g, content, refs)
    requires Partition(layers) != [] && Partition(layers)[|Partition(layers)| - 1] == g
    ensures BuildIndex(Some(layers), blobs, {}).Ok?
    ensures Indexed(BuildIndex(Some(layers), blobs, {}).value.0, refs, {})
  {
    StoredIndexReady(blobs, layers, files, {});
    PartitionSplits(layers);
    StoredHeads(blobs, Partition(layers), files);
    FilesOfGroups(Partition(layers));
    hide Partition, Stores, Named, HeadOk, ContentAddressed, Ready, Files, PointersOf, FetchAll, FileOfGroup, Keeps;
    var fs := Files(layers).value;
    KeptPointer(blobs, g, content, refs);
    LastPointer(blobs, fs, Sha256(PointerBytes(content, refs)));
    var pointers := FetchAll(blobs, PointersOf(fs)).value;
    IndexComplete(pointers, {}, |pointers| - 1);
  }

  lemma UploadedKeeps(r: Repo, packSize: nat, u: NewFile)
    requires Sound(r) && Honest(packSize, u) && u.Chunked?
    ensures Keeps(Uploaded(r, packSize, u).blobs, GroupFor(r, packSize, u), u.content, RefsFor(r, packSize, u))
  {
    var sizes := ChunkedGroupFor(r, packSize, u);
  }

  /** After an upload every chunk of the file is indexed. */
  lemma UploadedIndexed(r: Repo, packSize: nat, u: NewFile)
    requires Sound(r) && Honest(packSize, u) && u.Chunked?
    ensures Indexed(HeadIndex(Uploaded(r, packSize, u)).0, RefsFor(r, packSize, u), {})
  {
    var once, g, refs := Uploaded(r, packSize, u), GroupFor(r, packSize, u), RefsFor(r, packSize, u);
    UploadedKeeps(r, packSize, u);
    UploadedHead(r, packSize, u);
    assert Head(once) in once.log;
    assert Partition(Head(once).layers)[|Partition(Head(once).layers)| - 1] == g;
    hide Partition, Surviving, GroupFor, Uploaded, RefsFor, Stores, BuildIndex, Honest, Keeps;
    LastIndexed(once.blobs, Head(once).layers, Head(once).files, g, u.content, refs);
  }

  /** Every chunk is indexed where the chunk list has it. */
  predicate Agrees(index: Index, refs: seq<ChunkRef>) {
    forall i :: 0 <= i < |refs| ==>
      refs[i].digest in index && index[refs[i].digest] == DedupEntry(refs[i].pack, refs[i].offset)
  }

  lemma TakesAll(index: Index, chunks: seq<Chunk>, before: Index, refs: seq<ChunkRef>, refs': seq<ChunkRef>)
    requires Takes(before, chunks, refs) && Takes(index, chunks, refs') && Indexed(index, refs, {})
    ensures refs' == refs <==> Agrees(index, refs)
  {
    if Agrees(index, refs) {
      forall i | 0 <= i < |refs|
        ensures refs'[i] == refs[i]
      {
      }
    }
  }

  lemma SameRefsAgree(r: Repo, packSize: nat, u: NewFile)
    requires Sound(r) && Honest(packSize, u) && u.Chunked?
    ensures var once := Uploaded(r, packSize, u);
            RefsFor(once, packSize, u) == RefsFor(r, packSize, u) <==> Agrees(HeadIndex(once).0, RefsFor(r, packSize, u))
  {
    hide RefsFor, HeadIndex, Uploaded, Sound, Honest, Agrees, Takes, Indexed;
    var once := Uploaded(r, packSize, u);
    UploadedIndexed(r, packSize, u);
    RefsOfPlan(r, packSize, u);
    RefsOfPlan(once, packSize, u);
    TakesAll(HeadIndex(once).0, u.chunks, HeadIndex(r).0, RefsFor(r, packSize, u), RefsFor(once, packSize, u));
  }

  lemma PlainGroupFor(r: Repo, packSize: nat, u: NewFile)
    requires Sound(r) && Honest(packSize, u) && u.Plain?
    ensures GroupFor(r, packSize, u) == NewGroup(u.title, [PlainLayerFor(Titled(u), u.content)])
  {
  }

  /** Running an upload again, one writer at a time. The files are always the same. The layers are
      the same exactly for a plain file, or when the index of the manifest that the first run put
      has each chunk where the first pointer has it: the file now comes last, so another file that
      holds one of its chunks elsewhere takes precedence. */
  lemma RerunSameLayers(r: Repo, packSize: nat, u: NewFile)
    requires Sound(r) && Honest(packSize, u)
    ensures var once := Uploaded(r, packSize, u);
            var twice := Uploaded(once, packSize, u);
            && Head(twice).files == Head(once).files
            && (Head(twice).layers == Head(once).layers
                <==> u.Plain? || Agrees(HeadIndex(once).0, RefsFor(r, packSize, u)))
  {
    hide Uploaded, HeadIndex, GroupFor, RefsFor, Agrees, Sound, Honest;
    var once := Uploaded(r, packSize, u);
    UploadedFiles(r, packSize, u);
    UploadedFiles(once, packSize, u);
    SameGroup(r, packSize, u);
    if u.Chunked? {
      SameRefs(r, packSize, u);
      SameRefsAgree(r, packSize, u);
    } else {
      PlainGroupFor(r, packSize, u);
      PlainGroupFor(once, packSize, u);
    }
  }
}
