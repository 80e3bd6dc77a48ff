/** A repository in which running an upload again changes the layers: two files of one folder
    share a chunk, and each got it into a pack of its own. */
module RerunExample {
  import opened Basics
  import opened Text
  import opened Packing
  import opened PackStore
  import opened PointerBlob
  import opened Manifest
  import opened ManifestFiles
  import opened Upload
  import opened StoredFiles
  import opened Versions
  import opened DedupIndex
  import opened History
  import opened UploadFile
  import opened Rerun

  lemma TwoHeads(g: Group, h: Group)
    requires GroupOk(g) && GroupOk(h) && HeadOk(g) && HeadOk(h)
    ensures Files(LayersOf([g, h])) == Ok([FileOfGroup(g), FileOfGroup(h)])
  {
    assert LayersOf([]) == [] && Files([]) == Ok([]);
    hide GroupOk, HeadOk, FileOfGroup, Files, LayersOf;
    assert [] + [g] == [g] && [g] + [h] == [g, h];
    FilesOfSnoc([], g);
    FilesOfSnoc([g], h);
    assert [] + [FileOfGroup(g)] == [FileOfGroup(g)];
    assert [FileOfGroup(g)] + [FileOfGroup(h)] == [FileOfGroup(g), FileOfGroup(h)];
  }

  lemma TwoFiles(blobs: Blobs, layers: seq<Layer>, files: Contents, g: Group, h: Group)
    requires Stores(blobs, layers, files) && Partition(layers) == [g, h]
    ensures HeadOk(g) && HeadOk(h) && Files(layers) == Ok([FileOfGroup(g), FileOfGroup(h)])
  {
    hide HeadOk, Files, FileOfGroup, LayersOf, Partition, GroupOk;
    PartitionSplits(layers);
    StoredHeads(blobs, [g, h], files);
    assert HeadOk([g, h][0]) && HeadOk([g, h][1]) && GroupOk([g, h][0]) && GroupOk([g, h][1]);
    TwoHeads(g, h);
  }

  /** The index over a manifest of two chunked files: the first one's entries win. */
  lemma IndexOfTwo(blobs: Blobs, layers: seq<Layer>, files: Contents, g: Group, a: Bytes, refsG: seq<ChunkRef>,
                   h: Group, b: Bytes, refsH: seq<ChunkRef>)
    requires Stores(blobs, layers, files) && Partition(layers) == [g, h]
    requires Keeps(blobs, g, a, refsG) && Keeps(blobs, h, b, refsH)
    ensures BuildIndex(Some(layers), blobs, {}).Ok?
    ensures BuildIndex(Some(layers), blobs, {}).value.0 == AddRefs(AddRefs(map[], refsG, {}), refsH, {})
  {
    hide Partition, Stores, HeadOk, Files, FileOfGroup, Keeps, ParsePointerV2, AddRefs, PackSizes, AddAll, FetchAll;
    TwoFiles(blobs, layers, files, g, h);
    KeptPointer(blobs, g, a, refsG);
    KeptPointer(blobs, h, b, refsH);
    var p, q := FileOfGroup(g).pointer.value, FileOfGroup(h).pointer.value;
    TwoPointers(FileOfGroup(g), FileOfGroup(h));
    TwoFetched(blobs, p, q);
    TwoAdded(blobs[p], refsG, blobs[q], refsH);
  }

  lemma TwoPointers(f: FileGroup, h: FileGroup)
    requires f.pointer.Some? && h.pointer.Some?
    ensures PointersOf([f, h]) == [f.pointer.value, h.pointer.value]
  {
    assert [f, h][..1] == [f] && [f][..0] == [] && PointersOf([]) == [];
    assert PointersOf([f]) == [f.pointer.value];
  }

  lemma TwoFetched(blobs: Blobs, p: Digest, q: Digest)
    requires p in blobs && q in blobs
    ensures FetchAll(blobs, [p, q]) == Ok([blobs[p], blobs[q]])
  {
    assert [p, q][..1] == [p] && [p][..0] == [] && FetchAll(blobs, []) == Ok([]);
    assert [] + [blobs[p]] == [blobs[p]] && FetchAll(blobs, [p]) == Ok([blobs[p]]);
    assert [blobs[p]] + [blobs[q]] == [blobs[p], blobs[q]];
  }

  lemma TwoAdded(p: Bytes, refsP: seq<ChunkRef>, q: Bytes, refsQ: seq<ChunkRef>)
    requires ParsePointerV2(p) == Ok(refsP) && ParsePointerV2(q) == Ok(refsQ)
    ensures AddAll([p, q], {}) == Ok(AddRefs(AddRefs(map[], refsP, {}), refsQ, {}))
  {
    hide ParsePointerV2, AddRefs;
    assert [p, q][..1] == [p] && [p][..0] == [] && AddAll([], {}) == Ok(map[]);
    assert AddAll([p], {}) == Ok(AddRefs(map[], refsP, {}));
  }

  const ONE: Bytes := [1]
  const TWO: Bytes := [2]
  const BOTH: Bytes := [2, 1]

  const SMALL := Chunked("a", ONE, [Chunk(Sha256(ONE), 1, 0)])
  const LARGE := Chunked("b", BOTH, [Chunk(Sha256(TWO), 1, 0), Chunk(Sha256(ONE), 1, 1)])

  const PACK_SIZE := 10

  /** The folder upload that brings both files, with nothing indexed. */
  const FOLDER := Commit(PACK_SIZE, 0, 0, [SMALL, LARGE], {})

  lemma Titles()
    ensures Titled(SMALL) == "a" && Titled(LARGE) == "b"
  {
  }

  lemma BothHonest()
    ensures Honest(PACK_SIZE, SMALL) && Honest(PACK_SIZE, LARGE) && HonestAll(PACK_SIZE, [SMALL, LARGE])
  {
    Titles();
    assert ONE[0..1] == ONE && BOTH[0..1] == TWO && BOTH[1..2] == ONE;
    var c, d, e := SMALL.chunks[0], LARGE.chunks[0], LARGE.chunks[1];
    assert [c][..0] == [] && Tiled([], 0) && Tiled([c], 1);
    assert [d][..0] == [] && Tiled([d], 1) && [d, e][..1] == [d] && Tiled([d, e], 2);
    assert ChunksOf(ONE, SMALL.chunks) && ChunksOf(BOTH, LARGE.chunks);
  }

  lemma SmallPlan(index: Index)
    ensures Plan(index, PACK_SIZE, SMALL.chunks).Ok?
    ensures var (p, d) := (Plan(index, PACK_SIZE, SMALL.chunks).value, Sha256(ONE));
            if d in index then p == PackPlan([PlannedChunk(d, 1, index[d].offset, InPrior(index[d].pack))], [])
            else p == PackPlan([PlannedChunk(d, 1, 0, InNew(0))], [[Range(0, 1)]])
  {
    hide Sha256;
    var c := SMALL.chunks[0];
    assert [c][..0] == [] && FeedAll(index, PACK_SIZE, []) == Ok(EMPTY);
    assert [] + [Range(0, 1)] == [Range(0, 1)];
  }

  lemma LargePlan()
    ensures Plan(map[], PACK_SIZE, LARGE.chunks)
            == Ok(PackPlan([PlannedChunk(Sha256(TWO), 1, 0, InNew(0)), PlannedChunk(Sha256(ONE), 1, 1, InNew(0))],
                           [[Range(0, 1), Range(1, 1)]]))
  {
    if Sha256(ONE) == Sha256(TWO) {
      Sha256Injective(ONE, TWO);
    }
    hide Sha256;
    var c, d := LARGE.chunks[0], LARGE.chunks[1];
    var first, second := PlannedChunk(Sha256(TWO), 1, 0, InNew(0)), PlannedChunk(Sha256(ONE), 1, 1, InNew(0));
    assert [c][..0] == [] && FeedAll(map[], PACK_SIZE, []) == Ok(EMPTY);
    assert [] + [Range(0, 1)] == [Range(0, 1)];
    assert [] + [first] == [first];
    assert FeedAll(map[], PACK_SIZE, [c]) == Ok(Acc([first], [], [Range(0, 1)], 1, map[Sha256(TWO) := first], None));
    assert [c, d][..1] == [c] && [first] + [second] == [first, second];
    var ranges := [Range(0, 1), Range(1, 1)];
    assert [Range(0, 1)] + [Range(1, 1)] == ranges && [] + [ranges] == [ranges];
    assert FeedAll(map[], PACK_SIZE, [c, d])
           == Ok(Acc([first, second], [], ranges, 2, map[Sha256(TWO) := first, Sha256(ONE) := second], None));
  }

  lemma KeepsOfStored(blobs: Blobs, g: Group, content: Bytes, refs: seq<ChunkRef>)
    requires ContentAddressed(blobs) && GroupStores(blobs, g, content) && refs != [] && PlainRefs(refs)
    requires g.layers != [] && g.layers[0] == PointerLayerFor(g.title.value, content, |refs|, refs)
    ensures Keeps(blobs, g, content, refs)
  {
    hide Sha256, PointerV2Bytes, RefsDescribe, Listed, PackLayerOk;
    assert !PlainGroup(blobs, g, content);
    var kept, chunks :| ChunkedGroup(blobs, g, content, kept, chunks);
    SamePointer(g.title.value, content, refs, kept);
  }

  /** The chunk lists that the two uploads of the folder keep. */
  const SMALL_REFS := [ChunkRef(Sha256(ONE), 1, Sha256(ONE), 0)]
  const LARGE_REFS := [ChunkRef(Sha256(TWO), 1, Sha256(BOTH), 0), ChunkRef(Sha256(ONE), 1, Sha256(BOTH), 1)]

  lemma RefsPlain()
    ensures PlainRefs(SMALL_REFS) && PlainRefs(LARGE_REFS)
  {
    DigestsArePlain(ONE);
    DigestsArePlain(TWO);
    DigestsArePlain(BOTH);
  }

  lemma SmallRefs()
    ensures AllInFile(ONE, [[Range(0, 1)]])
    ensures ResolvePlanned([PlannedChunk(Sha256(ONE), 1, 0, InNew(0))], Digests(PackBlobs(ONE, [[Range(0, 1)]]))) == SMALL_REFS
  {
    var pack := [Range(0, 1)];
    assert pack[..0] == [] && PackBlob(ONE, []) == [] && ONE[0..1] == ONE && [] + ONE == ONE;
    assert PackBlob(ONE, pack) == ONE;
  }

  lemma LargeRefs()
    ensures AllInFile(BOTH, [[Range(0, 1), Range(1, 1)]])
    ensures ResolvePlanned([PlannedChunk(Sha256(TWO), 1, 0, InNew(0)), PlannedChunk(Sha256(ONE), 1, 1, InNew(0))],
                           Digests(PackBlobs(BOTH, [[Range(0, 1), Range(1, 1)]]))) == LARGE_REFS
  {
    var first, pack := [Range(0, 1)], [Range(0, 1), Range(1, 1)];
    assert first[..0] == [] && PackBlob(BOTH, []) == [] && BOTH[0..1] == TWO && [] + TWO == TWO;
    assert PackBlob(BOTH, first) == TWO;
    assert pack[..1] == first && BOTH[1..2] == ONE && TWO + ONE == BOTH;
    assert PackBlob(BOTH, pack) == BOTH;
  }

  /** The pointer layer of a chunked upload. */
  lemma OutcomeHead(blobs: Blobs, index: Index, sizes: map<Digest, nat>, u: NewFile, p: PackPlan)
    requires Honest(PACK_SIZE, u) && u.Chunked? && UploadOne(blobs, index, sizes, PACK_SIZE, u).1.Ok?
    requires Plan(index, PACK_SIZE, u.chunks) == Ok(p) && IndexedInto(p) && AllInFile(u.content, p.newPacks)
    ensures var layers := UploadOne(blobs, index, sizes, PACK_SIZE, u).1.value;
            && layers != []
            && layers[0] == PointerLayerFor(Titled(u), u.content, |u.chunks|,
                                            ResolvePlanned(p.planned, Digests(PackBlobs(u.content, p.newPacks))))
  {
    hide Plan, PointerLayerFor, PackLayers;
  }

  lemma Outcomes(blobs: Blobs)
    requires Honest(PACK_SIZE, SMALL) && Honest(PACK_SIZE, LARGE)
    ensures var r := UploadOne(blobs, map[], map[], PACK_SIZE, SMALL).1;
            r.Ok? ==> r.value != [] && r.value[0] == PointerLayerFor("a", ONE, 1, SMALL_REFS)
    ensures var r := UploadOne(blobs, map[], map[], PACK_SIZE, LARGE).1;
            r.Ok? ==> r.value != [] && r.value[0] == PointerLayerFor("b", BOTH, 2, LARGE_REFS)
  {
    Titles();
    SmallPlan(map[]);
    LargePlan();
    SmallRefs();
    LargeRefs();
    hide Honest, Plan, UploadOne, PointerLayerFor, AllInFile, Titled, Sha256, Digests, PackBlobs, ResolvePlanned;
    if UploadOne(blobs, map[], map[], PACK_SIZE, SMALL).1.Ok? {
      OutcomeHead(blobs, map[], map[], SMALL, Plan(map[], PACK_SIZE, SMALL.chunks).value);
    }
    if UploadOne(blobs, map[], map[], PACK_SIZE, LARGE).1.Ok? {
      OutcomeHead(blobs, map[], map[], LARGE, Plan(map[], PACK_SIZE, LARGE.chunks).value);
    }
  }

  /** The repository after the folder upload. */
  ghost function AfterFolder(): (r: Repo)
    ensures Sound(r)
  {
    BothHonest();
    EmptyIsSound();
    CommitKeepsSound(EMPTY_REPO, FOLDER);
    Do(EMPTY_REPO, FOLDER).value
  }

  lemma EmptyReady()
    ensures Ready(map[], map[], map[]) && BuildIndex(Some([]), map[], {}) == Ok((map[], map[]))
  {
    assert Files([]) == Ok([]) && PointersOf([]) == [] && FetchAll(map[], []) == Ok([]) && AddAll([], {}) == Ok(map[]);
    assert PackSizes([], {}) == map[];
  }

  lemma UploadTwo(u: NewFile, v: NewFile, one: Blobs, a: seq<Layer>, two: Blobs, b: seq<Layer>)
    requires HonestAll(PACK_SIZE, [u, v]) && Honest(PACK_SIZE, u) && Honest(PACK_SIZE, v)
    requires UploadOne(map[], map[], map[], PACK_SIZE, u) == (one, Ok(a))
    requires UploadOne(one, map[], map[], PACK_SIZE, v) == (two, Ok(b))
    ensures UploadAll(map[], map[], map[], PACK_SIZE, [u, v]) == (two, Ok([NewGroup(u.title, a), NewGroup(v.title, b)]))
  {
    hide UploadOne, Honest;
    OneUpload(map[], map[], map[], PACK_SIZE, u, one, a);
    assert [u, v][..1] == [u];
    assert [NewGroup(u.title, a)] + [NewGroup(v.title, b)] == [NewGroup(u.title, a), NewGroup(v.title, b)];
  }

  /** The two uploads, one after the other. */
  lemma FolderUploads() returns (g: Group, h: Group, blobs: Blobs)
    ensures HonestAll(PACK_SIZE, [SMALL, LARGE])
    ensures UploadAll(map[], map[], map[], PACK_SIZE, [SMALL, LARGE]) == (blobs, Ok([g, h]))
    ensures ContentAddressed(blobs) && GroupsStore(In(blobs), [g, h], News([SMALL, LARGE]))
    ensures g.title == Some("a") && g.layers != [] && g.layers[0] == PointerLayerFor("a", ONE, 1, SMALL_REFS)
    ensures h.title == Some("b") && h.layers != [] && h.layers[0] == PointerLayerFor("b", BOTH, 2, LARGE_REFS)
  {
    BothHonest();
    EmptyReady();
    Titles();
    hide UploadAll, HonestAll, Honest, Ready, UploadOne, GroupsStore, News, PointerLayerFor, CleanTitle, GroupStores;
    UploadAllStores(map[], map[], map[], PACK_SIZE, [SMALL, LARGE]);
    UploadOneStores(map[], map[], map[], PACK_SIZE, SMALL);
    var (one, a) := UploadOne(map[], map[], map[], PACK_SIZE, SMALL);
    ReadyGrows(map[], one, map[], map[]);
    UploadOneStores(one, map[], map[], PACK_SIZE, LARGE);
    var (two, b) := UploadOne(one, map[], map[], PACK_SIZE, LARGE);
    Outcomes(map[]);
    Outcomes(one);
    UploadTwo(SMALL, LARGE, one, a.value, two, b.value);
    g, h, blobs := NewGroup("a", a.value), NewGroup("b", b.value), two;
  }

  lemma MergeIntoNothing(groups: seq<Group>)
    requires WellGrouped(groups) && (groups != [] ==> Named(groups[0].title))
    ensures Partition(Merge([], LayersOf(groups), {})) == groups
  {
    assert Partition([]) == [] && Surviving([], {} + Manifest.Titles(groups)) == [] && [] + groups == groups;
    hide Partition, Merge, LayersOf, Surviving;
    MergeGroups([], groups, {});
  }

  /** The manifest lists the small file first. */
  lemma FolderHead() returns (g: Group, h: Group)
    ensures var r := AfterFolder();
            && r.log != [] && Partition(Head(r).layers) == [g, h] && g.title == Some("a") && h.title == Some("b")
            && Keeps(r.blobs, g, ONE, SMALL_REFS) && Keeps(r.blobs, h, BOTH, LARGE_REFS)
  {
    var blobs;
    g, h, blobs := FolderUploads();
    EmptyReady();
    var r := AfterFolder();
    hide UploadAll, HonestAll, Sound, News, BuildIndex, PointerLayerFor, LayersOf, Merge, Partition, CleanTitle;
    MergeIntoNothing([g, h]);
    assert r.blobs == blobs;
    NewsOfBoth();
    RefsPlain();
    assert Matches(In(blobs), [g, h][0], News([SMALL, LARGE])) && Matches(In(blobs), [g, h][1], News([SMALL, LARGE]));
    KeepsOfStored(blobs, g, ONE, SMALL_REFS);
    KeepsOfStored(blobs, h, BOTH, LARGE_REFS);
  }

  lemma NewsOfBoth()
    ensures News([SMALL, LARGE]) == map["a" := ONE, "b" := BOTH]
  {
    Titles();
    assert [SMALL, LARGE][..1] == [SMALL];
    NewsOfOne(SMALL);
  }

  /** Of two entries for one chunk, that of the first file is taken. */
  lemma FirstWins()
    ensures var index := AddRefs(AddRefs(map[], SMALL_REFS, {}), LARGE_REFS, {});
            Sha256(ONE) in index && index[Sha256(ONE)] == DedupEntry(Sha256(ONE), 0)
    ensures var index := AddRefs(AddRefs(map[], LARGE_REFS, {}), SMALL_REFS, {});
            Sha256(ONE) in index && index[Sha256(ONE)] == DedupEntry(Sha256(BOTH), 1)
  {
    if Sha256(ONE) == Sha256(TWO) {
      Sha256Injective(ONE, TWO);
    }
    hide Sha256;
    var a, b, c := SMALL_REFS[0], LARGE_REFS[0], LARGE_REFS[1];
    assert [a][..0] == [] && [b, c][..1] == [b] && [b][..0] == [];
    assert AddRefs(map[], [], {}) == map[];
    var small := AddRefs(map[], [a], {});
    assert small == map[a.digest := DedupEntry(a.pack, a.offset)];
    AddRefsIndexes(small, LARGE_REFS, {});
    assert AddRefs(map[], [b], {}) == map[b.digest := DedupEntry(b.pack, b.offset)];
    var large := AddRefs(map[], [b, c], {});
    assert large[c.digest] == DedupEntry(c.pack, c.offset);
    AddRefsIndexes(large, SMALL_REFS, {});
  }

  lemma FolderIsHistory()
    ensures History.After([FOLDER]) == Some(AfterFolder())
  {
    BothHonest();
    EmptyIsSound();
    CommitKeepsSound(EMPTY_REPO, FOLDER);
    hide Sound, Do, HonestAll;
    assert [FOLDER][..0] == [] && History.After([]) == Some(EMPTY_REPO);
  }

  lemma KeepsGrows(blobs: Blobs, blobs': Blobs, g: Group, content: Bytes, refs: seq<ChunkRef>)
    requires Keeps(blobs, g, content, refs) && Grows(blobs, blobs')
    ensures Keeps(blobs', g, content, refs)
  {
    hide PointerLayerFor, PointerBytes;
  }

  lemma LastSurvives(g: Group, h: Group, g': Group)
    requires g.title == Some("a") && h.title == Some("b")
    ensures Surviving([g, h], {"a"}) + [g'] == [h, g']
  {
    assert [g, h][..1] == [g] && [g][..0] == [] && Surviving([g], {"a"}) == [] && [] + [h] == [h];
    assert Surviving([g, h], {"a"}) == [h] && [h] + [g'] == [h, g'];
  }

  /** After the upload the large file comes first. */
  lemma SecondHead(g: Group, h: Group)
    requires var r := AfterFolder();
             && r.log != [] && Partition(Head(r).layers) == [g, h] && Honest(PACK_SIZE, SMALL)
             && g.title == Some("a") && h.title == Some("b") && Keeps(r.blobs, h, BOTH, LARGE_REFS)
    ensures var once := Uploaded(AfterFolder(), PACK_SIZE, SMALL);
            && Partition(Head(once).layers) == [h, GroupFor(AfterFolder(), PACK_SIZE, SMALL)]
            && Keeps(once.blobs, h, BOTH, LARGE_REFS)
  {
    hide Sound, Honest, Partition, Surviving, Keeps, GroupFor, Uploaded, AfterFolder;
    var r := AfterFolder();
    Titles();
    UploadedHead(r, PACK_SIZE, SMALL);
    UploadedShape(r, PACK_SIZE, SMALL);
    LastSurvives(g, h, GroupFor(r, PACK_SIZE, SMALL));
    KeepsGrows(r.blobs, Uploaded(r, PACK_SIZE, SMALL).blobs, h, BOTH, LARGE_REFS);
  }

  lemma IndexAt(r: Repo, g: Group, a: Bytes, refsG: seq<ChunkRef>, h: Group, b: Bytes, refsH: seq<ChunkRef>)
    requires Sound(r) && Partition(Head(r).layers) == [g, h]
    requires Keeps(r.blobs, g, a, refsG) && Keeps(r.blobs, h, b, refsH)
    ensures HeadIndex(r).0 == AddRefs(AddRefs(map[], refsG, {}), refsH, {})
  {
    hide Stores, Keeps, Partition, BuildIndex, AddRefs;
    assert Head(r) in r.log;
    IndexOfTwo(r.blobs, Head(r).layers, Head(r).files, g, a, refsG, h, b, refsH);
  }

  lemma FirstUpload(g: Group, h: Group)
    requires var r := AfterFolder();
             && r.log != [] && Partition(Head(r).layers) == [g, h] && Honest(PACK_SIZE, SMALL)
             && Keeps(r.blobs, g, ONE, SMALL_REFS) && Keeps(r.blobs, h, BOTH, LARGE_REFS)
    ensures RefsFor(AfterFolder(), PACK_SIZE, SMALL) == SMALL_REFS
  {
    hide Sound, Honest, Partition, Keeps, RefsFor, AfterFolder, HeadIndex, AddRefs, Sha256;
    var r := AfterFolder();
    IndexAt(r, g, ONE, SMALL_REFS, h, BOTH, LARGE_REFS);
    FirstWins();
    RefsOfPlan(r, PACK_SIZE, SMALL);
    var refs := RefsFor(r, PACK_SIZE, SMALL);
    assert refs[0] == SMALL_REFS[0];
  }

  lemma SecondUpload(g: Group, h: Group)
    requires var r := AfterFolder();
             && r.log != [] && Partition(Head(r).layers) == [g, h] && Honest(PACK_SIZE, SMALL)
             && g.title == Some("a") && h.title == Some("b")
             && Keeps(r.blobs, h, BOTH, LARGE_REFS) && RefsFor(r, PACK_SIZE, SMALL) == SMALL_REFS
    ensures var once := Uploaded(AfterFolder(), PACK_SIZE, SMALL);
            && Sha256(ONE) in HeadIndex(once).0 && HeadIndex(once).0[Sha256(ONE)] == DedupEntry(Sha256(BOTH), 1)
            && RefsFor(once, PACK_SIZE, SMALL) == [ChunkRef(Sha256(ONE), 1, Sha256(BOTH), 1)]
  {
    hide Sound, Honest, Partition, Keeps, RefsFor, AfterFolder, HeadIndex, AddRefs, Sha256, GroupFor, Uploaded;
    var r := AfterFolder();
    var once := Uploaded(r, PACK_SIZE, SMALL);
    SecondHead(g, h);
    UploadedKeeps(r, PACK_SIZE, SMALL);
    IndexAt(once, h, BOTH, LARGE_REFS, GroupFor(r, PACK_SIZE, SMALL), ONE, SMALL_REFS);
    FirstWins();
    RefsOfPlan(once, PACK_SIZE, SMALL);
    var refs := RefsFor(once, PACK_SIZE, SMALL);
    assert refs[0] == ChunkRef(Sha256(ONE), 1, Sha256(BOTH), 1);
  }

  /** Uploading the small file takes its chunk from its own pack; the manifest then lists the large
      file first, so a rerun takes the chunk from the other pack, and the layers change. */
  lemma RerunMoves()
    ensures History.After([FOLDER]) == Some(AfterFolder()) && Honest(PACK_SIZE, SMALL)
    ensures var r := AfterFolder();
            var once := Uploaded(r, PACK_SIZE, SMALL);
            var twice := Uploaded(once, PACK_SIZE, SMALL);
            && RefsFor(r, PACK_SIZE, SMALL) == SMALL_REFS
            && RefsFor(once, PACK_SIZE, SMALL) == [ChunkRef(Sha256(ONE), 1, Sha256(BOTH), 1)]
            && Head(twice).layers != Head(once).layers
  {
    hide Honest, Sound, Uploaded, RefsFor, HeadIndex, AfterFolder, Keeps, Partition;
    var r := AfterFolder();
    FolderIsHistory();
    BothHonest();
    var g, h := FolderHead();
    FirstUpload(g, h);
    SecondUpload(g, h);
    RerunSameLayers(r, PACK_SIZE, SMALL);
    if Sha256(ONE) == Sha256(BOTH) {
      Sha256Injective(ONE, BOTH);
    }
    hide Sha256;
    assert SMALL_REFS[0].pack != Sha256(BOTH);
  }
}
