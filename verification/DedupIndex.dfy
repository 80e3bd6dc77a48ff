/** The index of chunks that a prior revision already stores (hippius_hub/file_upload.py). */
module DedupIndex {
  import opened Basics
  import opened Text
  import opened Constants
  import opened Packing
  import opened PackStore
  import opened PointerBlob
  import opened Manifest
  import opened ManifestFiles
  import opened StoredFiles
  import opened Versions

  type Index = map<Digest, DedupEntry>

  datatype IndexError = BadManifest(error: ManifestError) | BlobGone(digest: Digest) | BadPointer(pointerError: PointerError)

  /** The listed size of every pack that is not excluded. */
  function PackSizes(layers: seq<Layer>, exclude: set<Digest>): map<Digest, nat> {
    if layers == [] then
      map[]
    else
      var sizes, last := PackSizes(layers[..|layers| - 1], exclude), layers[|layers| - 1];
      if last.mediaType == PackLayer && last.digest !in exclude then sizes[last.digest := last.size] else sizes
  }

  /** The index with the chunks of one more file; an entry that is there already wins. */
  function AddRefs(index: Index, refs: seq<ChunkRef>, exclude: set<Digest>): Index {
    if refs == [] then
      index
    else
      var before, ref := AddRefs(index, refs[..|refs| - 1], exclude), refs[|refs| - 1];
      if ref.pack in exclude || ref.digest in before then before
      else before[ref.digest := DedupEntry(ref.pack, ref.offset)]
  }

  function PointersOf(files: seq<FileGroup>): seq<Digest> {
    if files == [] then
      []
    else
      var rest, last := PointersOf(files[..|files| - 1]), files[|files| - 1];
      if last.pointer.Some? then rest + [last.pointer.value] else rest
  }

  /** Fetch every pointer blob. */
  function FetchAll(blobs: Blobs, digests: seq<Digest>): Result<seq<Bytes>, IndexError> {
    if digests == [] then
      Ok([])
    else
      match FetchAll(blobs, digests[..|digests| - 1])
      case Err(e) => Err(e)
      case Ok(bs) =>
        var d := digests[|digests| - 1];
        if d in blobs then Ok(bs + [blobs[d]]) else Err(BlobGone(d))
  }

  /** Parse the pointers and add their chunks, in order. */
  function AddAll(pointers: seq<Bytes>, exclude: set<Digest>): Result<Index, IndexError> {
    if pointers == [] then
      Ok(map[])
    else
      match AddAll(pointers[..|pointers| - 1], exclude)
      case Err(e) => Err(e)
      case Ok(index) =>
        match ParsePointerV2(pointers[|pointers| - 1])
        case Err(e) => Err(BadPointer(e))
        case Ok(refs) => Ok(AddRefs(index, refs, exclude))
  }

  function BuildIndex(existing: Option<seq<Layer>>, blobs: Blobs, exclude: set<Digest>)
    : Result<(Index, map<Digest, nat>), IndexError>
  {
    match existing
    case None => Ok((map[], map[]))
    case Some(layers) =>
      match Files(layers)
      case Err(e) => Err(BadManifest(e))
      case Ok(files) =>
        match FetchAll(blobs, PointersOf(files))
        case Err(e) => Err(e)
        case Ok(pointers) =>
          match AddAll(pointers, exclude)
          case Err(e) => Err(e)
          case Ok(index) => Ok((index, PackSizes(layers, exclude)))
  }

  method MergeRefs(index: Index, refs: seq<ChunkRef>, exclude: set<Digest>) returns (r: Index)
    ensures r == AddRefs(index, refs, exclude)
  {
    r := index;
    for i := 0 to |refs|
      invariant r == AddRefs(index, refs[..i], exclude)
    {
      assert refs[..i + 1][..i] == refs[..i];
      var ref := refs[i];
      if ref.pack in exclude {
        continue;
      }
      if ref.digest !in r {
        r := r[ref.digest := DedupEntry(ref.pack, ref.offset)];
      }
    }
    assert refs[..|refs|] == refs;
  }

  method FetchPointers(blobs: Blobs, digests: seq<Digest>) returns (r: Result<seq<Bytes>, IndexError>)
    ensures r == FetchAll(blobs, digests)
  {
    var bs: seq<Bytes> := [];
    for i := 0 to |digests|
      invariant FetchAll(blobs, digests[..i]) == Ok(bs)
    {
      assert digests[..i + 1][..i] == digests[..i];
      if digests[i] !in blobs {
        FetchAllErr(blobs, digests, i + 1);
        return Err(BlobGone(digests[i]));
      }
      bs := bs + [blobs[digests[i]]];
    }
    assert digests[..|digests|] == digests;
    return Ok(bs);
  }

  lemma {:induction false} FetchAllErr(blobs: Blobs, digests: seq<Digest>, n: nat)
    requires n <= |digests| && FetchAll(blobs, digests[..n]).Err?
    ensures FetchAll(blobs, digests) == FetchAll(blobs, digests[..n])
  {
    if n == |digests| {
      assert digests[..n] == digests;
    } else {
      assert digests[..|digests| - 1][..n] == digests[..n];
      FetchAllErr(blobs, digests[..|digests| - 1], n);
    }
  }

  method MergePointers(pointers: seq<Bytes>, exclude: set<Digest>) returns (r: Result<Index, IndexError>)
    ensures r == AddAll(pointers, exclude)
  {
    var index: Index := map[];
    for i := 0 to |pointers|
      invariant AddAll(pointers[..i], exclude) == Ok(index)
    {
      assert pointers[..i + 1][..i] == pointers[..i];
      var parsed := ParsePointerV2(pointers[i]);
      if parsed.Err? {
        AddAllErr(pointers, exclude, i + 1);
        return Err(BadPointer(parsed.error));
      }
      index := MergeRefs(index, parsed.value, exclude);
    }
    assert pointers[..|pointers|] == pointers;
    return Ok(index);
  }

  lemma {:induction false} AddAllErr(pointers: seq<Bytes>, exclude: set<Digest>, n: nat)
    requires n <= |pointers| && AddAll(pointers[..n], exclude).Err?
    ensures AddAll(pointers, exclude) == AddAll(pointers[..n], exclude)
  {
    if n == |pointers| {
      assert pointers[..n] == pointers;
    } else {
      assert pointers[..|pointers| - 1][..n] == pointers[..n];
      AddAllErr(pointers[..|pointers| - 1], exclude, n);
    }
  }

  method BuildDedupIndex(existing: Option<seq<Layer>>, blobs: Blobs, exclude: set<Digest>)
    returns (r: Result<(Index, map<Digest, nat>), IndexError>)
    ensures r == BuildIndex(existing, blobs, exclude)
  {
    if existing.None? {
      return Ok((map[], map[]));
    }
    var layers := existing.value;
    var sizes: map<Digest, nat> := map[];
    for i := 0 to |layers|
      invariant sizes == PackSizes(layers[..i], exclude)
    {
      assert layers[..i + 1][..i] == layers[..i];
      if layers[i].mediaType == PackLayer && layers[i].digest !in exclude {
        sizes := sizes[layers[i].digest := layers[i].size];
      }
    }
    assert layers[..|layers|] == layers;
    var files := GroupFiles(layers);
    if files.Err? {
      return Err(BadManifest(files.error));
    }
    var pointers := FetchPointers(blobs, PointersOf(files.value));
    if pointers.Err? {
      return Err(pointers.error);
    }
    var index := MergePointers(pointers.value, exclude);
    if index.Err? {
      return Err(index.error);
    }
    return Ok((index.value, sizes));
  }

  /** An entry that a reader could follow: it names an allowed pack and holds its content. */
  ghost predicate EntryOk(blobs: Blobs, index: Index, exclude: set<Digest>, sizes: map<Digest, nat>, d: Digest)
    requires d in index
  {
    && index[d].pack !in exclude && index[d].pack in sizes
    && exists content :: Sha256(content) == d && Holds(blobs, index[d].pack, index[d].offset, content)
  }

  ghost predicate EntriesOk(blobs: Blobs, index: Index, exclude: set<Digest>, sizes: map<Digest, nat>) {
    forall d :: d in index ==> EntryOk(blobs, index, exclude, sizes, d)
  }

  /** A chunk reference that can be followed, to a pack that is listed unless excluded. */
  ghost predicate RefOk(blobs: Blobs, ref: ChunkRef, exclude: set<Digest>, sizes: map<Digest, nat>) {
    && (exists content :: RefHolds(blobs, ref, content))
    && (ref.pack in exclude || ref.pack in sizes)
  }

  lemma AddRefOk(blobs: Blobs, index: Index, ref: ChunkRef, exclude: set<Digest>, sizes: map<Digest, nat>)
    requires EntriesOk(blobs, index, exclude, sizes) && RefOk(blobs, ref, exclude, sizes) && ref.pack !in exclude
    ensures EntriesOk(blobs, index[ref.digest := DedupEntry(ref.pack, ref.offset)], exclude, sizes)
  {
    var after := index[ref.digest := DedupEntry(ref.pack, ref.offset)];
    var content :| RefHolds(blobs, ref, content);
    forall d | d in after
      ensures EntryOk(blobs, after, exclude, sizes, d)
    {
      if d == ref.digest {
        assert Holds(blobs, after[d].pack, after[d].offset, content);
      } else {
        assert EntryOk(blobs, index, exclude, sizes, d);
      }
    }
  }

  /** The chunks of a file are indexed, apart from those in excluded packs. */
  predicate Indexed(index: Index, refs: seq<ChunkRef>, exclude: set<Digest>) {
    forall i :: 0 <= i < |refs| && refs[i].pack !in exclude ==> refs[i].digest in index
  }

  lemma {:induction false} AddRefsOk(blobs: Blobs, index: Index, refs: seq<ChunkRef>, exclude: set<Digest>,
                                     sizes: map<Digest, nat>)
    requires EntriesOk(blobs, index, exclude, sizes)
    requires forall i :: 0 <= i < |refs| ==> RefOk(blobs, refs[i], exclude, sizes)
    ensures EntriesOk(blobs, AddRefs(index, refs, exclude), exclude, sizes)
  {
    if refs != [] {
      var init, ref := refs[..|refs| - 1], refs[|refs| - 1];
      assert forall i :: 0 <= i < |init| ==> init[i] == refs[i];
      AddRefsOk(blobs, index, init, exclude, sizes);
      assert RefOk(blobs, refs[|refs| - 1], exclude, sizes);
      if ref.pack !in exclude {
        AddRefOk(blobs, AddRefs(index, init, exclude), ref, exclude, sizes);
      }
    }
  }

  lemma {:induction false} AddRefsIndexes(index: Index, refs: seq<ChunkRef>, exclude: set<Digest>)
    ensures Indexed(AddRefs(index, refs, exclude), refs, exclude)
    ensures forall d :: d in index ==> d in AddRefs(index, refs, exclude) && AddRefs(index, refs, exclude)[d] == index[d]
  {
    if refs != [] {
      AddRefsIndexes(index, refs[..|refs| - 1], exclude);
    }
  }

  /** A pointer blob that is there, parses, and names only chunks that can be followed. */
  ghost predicate PointerOk(blobs: Blobs, d: Digest, exclude: set<Digest>, sizes: map<Digest, nat>) {
    && d in blobs
    && ParsePointerV2(blobs[d]).Ok?
    && forall i :: 0 <= i < |ParsePointerV2(blobs[d]).value| ==> RefOk(blobs, ParsePointerV2(blobs[d]).value[i], exclude, sizes)
  }

  lemma {:induction false} FetchAllOk(blobs: Blobs, digests: seq<Digest>)
    requires forall d :: d in digests ==> d in blobs
    ensures FetchAll(blobs, digests).Ok? && |FetchAll(blobs, digests).value| == |digests|
    ensures forall k :: 0 <= k < |digests| ==> FetchAll(blobs, digests).value[k] == blobs[digests[k]]
  {
    if digests != [] {
      FetchAllOk(blobs, digests[..|digests| - 1]);
    }
  }

  lemma {:induction false} AddAllOk(blobs: Blobs, digests: seq<Digest>, pointers: seq<Bytes>, exclude: set<Digest>,
                                    sizes: map<Digest, nat>)
    requires |pointers| == |digests|
    requires forall k :: 0 <= k < |digests| ==>
               PointerOk(blobs, digests[k], exclude, sizes) && pointers[k] == blobs[digests[k]]
    ensures AddAll(pointers, exclude).Ok?
    ensures EntriesOk(blobs, AddAll(pointers, exclude).value, exclude, sizes)
  {
    if pointers != [] {
      var n := |pointers| - 1;
      AddAllOk(blobs, digests[..n], pointers[..n], exclude, sizes);
      assert PointerOk(blobs, digests[n], exclude, sizes);
      AddRefsOk(blobs, AddAll(pointers[..n], exclude).value, ParsePointerV2(pointers[n]).value, exclude, sizes);
    }
  }

  /** Nothing that is already stored, and may be reused, is left out of the index. */
  lemma {:induction false} IndexComplete(pointers: seq<Bytes>, exclude: set<Digest>, k: nat)
    requires AddAll(pointers, exclude).Ok? && k < |pointers|
    ensures ParsePointerV2(pointers[k]).Ok?
    ensures Indexed(AddAll(pointers, exclude).value, ParsePointerV2(pointers[k]).value, exclude)
  {
    var n := |pointers| - 1;
    var before, refs := AddAll(pointers[..n], exclude).value, ParsePointerV2(pointers[n]).value;
    AddRefsIndexes(before, refs, exclude);
    if k < n {
      IndexComplete(pointers[..n], exclude, k);
    }
  }

  /** The chunk `refs[i]` is the first of its digest that may be reused. */
  predicate FirstUsable(refs: seq<ChunkRef>, i: int, d: Digest, exclude: set<Digest>) {
    && 0 <= i < |refs| && refs[i].digest == d && refs[i].pack !in exclude
    && forall j :: 0 <= j < i ==> refs[j].digest != d || refs[j].pack in exclude
  }

  /** An entry that was there stays; any other is that of the first chunk that may be reused. */
  lemma {:induction false} FirstEntryWins(index: Index, refs: seq<ChunkRef>, exclude: set<Digest>, d: Digest)
    requires d in AddRefs(index, refs, exclude)
    ensures d in index ==> AddRefs(index, refs, exclude)[d] == index[d]
    ensures d !in index ==>
              exists i :: FirstUsable(refs, i, d, exclude)
                       && AddRefs(index, refs, exclude)[d] == DedupEntry(refs[i].pack, refs[i].offset)
  {
    if refs != [] {
      var n := |refs| - 1;
      var init, before := refs[..n], AddRefs(index, refs[..n], exclude);
      if d in before {
        FirstEntryWins(index, init, exclude, d);
        if d !in index {
          var i :| FirstUsable(init, i, d, exclude) && before[d] == DedupEntry(init[i].pack, init[i].offset);
          assert FirstUsable(refs, i, d, exclude);
        }
      } else {
        AddRefsIndexes(index, init, exclude);
        assert d !in index;
        assert forall j :: 0 <= j < n ==> refs[j] == init[j];
        assert FirstUsable(refs, n, d, exclude);
      }
    }
  }

  lemma {:induction false} PointerAmong(files: seq<FileGroup>, k: nat)
    requires k < |files| && files[k].pointer.Some?
    ensures exists i :: 0 <= i < |PointersOf(files)| && PointersOf(files)[i] == files[k].pointer.value
  {
    var init, last := files[..|files| - 1], files[|files| - 1];
    if k < |init| {
      PointerAmong(init, k);
      var i :| 0 <= i < |PointersOf(init)| && PointersOf(init)[i] == files[k].pointer.value;
      assert PointersOf(files)[i] == files[k].pointer.value;
    } else {
      assert PointersOf(files)[|PointersOf(init)|] == files[k].pointer.value;
    }
  }

  lemma {:induction false} FetchedAt(blobs: Blobs, digests: seq<Digest>, i: nat)
    requires FetchAll(blobs, digests).Ok? && i < |digests|
    ensures |FetchAll(blobs, digests).value| == |digests|
    ensures digests[i] in blobs && FetchAll(blobs, digests).value[i] == blobs[digests[i]]
  {
    var init := digests[..|digests| - 1];
    if init != [] {
      FetchedAt(blobs, init, if i < |init| then i else 0);
    } else {
      assert digests == [digests[0]] && FetchAll(blobs, []) == Ok([]);
    }
  }

  /** Whenever the index builds, the pointer of every chunked file of the manifest was there and
      could be read, and each of its chunks is indexed unless its pack is excluded. */
  lemma EveryFileIndexed(layers: seq<Layer>, blobs: Blobs, exclude: set<Digest>, k: nat)
    requires BuildIndex(Some(layers), blobs, exclude).Ok?
    requires k < |Files(layers).value| && Files(layers).value[k].pointer.Some?
    ensures var d := Files(layers).value[k].pointer.value;
            && d in blobs && ParsePointerV2(blobs[d]).Ok?
            && Indexed(BuildIndex(Some(layers), blobs, exclude).value.0, ParsePointerV2(blobs[d]).value, exclude)
  {
    var files := Files(layers).value;
    PointerAmong(files, k);
    var i :| 0 <= i < |PointersOf(files)| && PointersOf(files)[i] == files[k].pointer.value;
    FetchedAt(blobs, PointersOf(files), i);
    IndexComplete(FetchAll(blobs, PointersOf(files)).value, exclude, i);
  }

  lemma {:induction false} PackSizesSpec(layers: seq<Layer>, exclude: set<Digest>)
    ensures forall d :: d in PackSizes(layers, exclude) <==> d !in exclude && Listed(layers, d)
    ensures forall d :: d in PackSizes(layers, exclude) ==>
              exists j :: 0 <= j < |layers| && layers[j].mediaType == PackLayer && layers[j].digest == d
                && layers[j].size == PackSizes(layers, exclude)[d]
  {
    if layers != [] {
      var init, last := layers[..|layers| - 1], layers[|layers| - 1];
      PackSizesSpec(init, exclude);
      assert layers == init + [last];
      forall d
        ensures Listed(layers, d) <==> Listed(init, d) || (last.mediaType == PackLayer && last.digest == d)
      {
        ListedSnoc(init, last, d);
      }
    }
  }

  lemma ListedSnoc(init: seq<Layer>, last: Layer, d: Digest)
    ensures Listed(init + [last], d) <==> Listed(init, d) || (last.mediaType == PackLayer && last.digest == d)
  {
    var layers := init + [last];
    if Listed(init, d) {
      var j :| 0 <= j < |init| && init[j].mediaType == PackLayer && init[j].digest == d;
      assert layers[j].digest == d;
    }
    if last.mediaType == PackLayer && last.digest == d {
      assert layers[|init|].digest == d;
    }
  }

  lemma {:induction false} InLayersOf(groups: seq<Group>, l: Layer)
    ensures l in LayersOf(groups) <==> exists k :: 0 <= k < |groups| && l in groups[k].layers
  {
    if groups != [] {
      var init, g := groups[..|groups| - 1], groups[|groups| - 1];
      InLayersOf(init, l);
      assert groups == init + [g];
      if l in LayersOf(init) {
        var k :| 0 <= k < |init| && l in init[k].layers;
        assert l in groups[k].layers;
      }
      if l in g.layers {
        assert l in groups[|groups| - 1].layers;
      }
    }
  }

  /** In a stored group, every pack layer is right and every named pack is listed. */
  lemma GroupPacks(blobs: Blobs, g: Group, content: Bytes)
    requires GroupStores(blobs, g, content)
    ensures forall l :: l in g.layers && l.mediaType == PackLayer ==> PackLayerOk(blobs, l)
  {
    if !PlainGroup(blobs, g, content) {
      var refs, chunks :| ChunkedGroup(blobs, g, content, refs, chunks);
      forall l | l in g.layers && l.mediaType == PackLayer
        ensures PackLayerOk(blobs, l)
      {
        var j :| 0 <= j < |g.layers| && g.layers[j] == l;
      }
    }
  }

  lemma LayerPacks(blobs: Blobs, layers: seq<Layer>, files: Contents, l: Layer)
    requires Stores(blobs, layers, files) && l in layers && l.mediaType == PackLayer
    ensures PackLayerOk(blobs, l)
  {
    var groups := Partition(layers);
    PartitionSplits(layers);
    InLayersOf(groups, l);
    var k :| 0 <= k < |groups| && l in groups[k].layers;
    assert Matches(In(blobs), groups[k], files);
    GroupPacks(blobs, groups[k], files[groups[k].title.value]);
  }

  lemma SizesAreTrue(blobs: Blobs, layers: seq<Layer>, files: Contents, exclude: set<Digest>)
    requires Stores(blobs, layers, files)
    ensures SizesOk(blobs, PackSizes(layers, exclude))
  {
    var sizes := PackSizes(layers, exclude);
    PackSizesSpec(layers, exclude);
    forall d | d in sizes
      ensures d in blobs && sizes[d] == |blobs[d]| && sizes[d] <= MAX_PACK_BYTES
    {
      var j :| 0 <= j < |layers| && layers[j].mediaType == PackLayer && layers[j].digest == d && layers[j].size == sizes[d];
      LayerPacks(blobs, layers, files, layers[j]);
    }
  }

  /** The pointer of a stored chunked file is there, and reads back as its references. */
  lemma StoredPointer(blobs: Blobs, g: Group, content: Bytes) returns (refs: seq<ChunkRef>, chunks: seq<Chunk>)
    requires GroupStores(blobs, g, content) && HeadOk(g) && FileOfGroup(g).pointer.Some?
    ensures ChunkedGroup(blobs, g, content, refs, chunks)
    ensures FileOfGroup(g).pointer.value in blobs
    ensures ParsePointerV2(blobs[FileOfGroup(g).pointer.value]) == Ok(refs)
  {
    StoredHead(blobs, g, content);
    refs, chunks :| ChunkedGroup(blobs, g, content, refs, chunks);
    DigestsArePlain(content);
    ParsePrintedPointer(Hex(content), |content|, refs);
  }

  lemma ListedInGroup(layers: seq<Layer>, g: Group, pack: Digest)
    requires g in Partition(layers) && g.layers != [] && Listed(g.layers[1..], pack)
    ensures Listed(layers, pack)
  {
    var j :| 0 <= j < |g.layers[1..]| && g.layers[1..][j].mediaType == PackLayer && g.layers[1..][j].digest == pack;
    var l := g.layers[j + 1];
    PartitionSplits(layers);
    var k :| 0 <= k < |Partition(layers)| && Partition(layers)[k] == g;
    InLayersOf(Partition(layers), l);
    assert l in layers;
  }

  lemma GroupPointerOk(blobs: Blobs, layers: seq<Layer>, g: Group, content: Bytes, exclude: set<Digest>)
    requires g in Partition(layers) && GroupStores(blobs, g, content) && HeadOk(g) && FileOfGroup(g).pointer.Some?
    ensures PointerOk(blobs, FileOfGroup(g).pointer.value, exclude, PackSizes(layers, exclude))
  {
    var refs, chunks := StoredPointer(blobs, g, content);
    PackSizesSpec(layers, exclude);
    forall i | 0 <= i < |refs|
      ensures RefOk(blobs, refs[i], exclude, PackSizes(layers, exclude))
    {
      assert RefHolds(blobs, refs[i], Content(content, chunks[i]));
      ListedInGroup(layers, g, refs[i].pack);
    }
  }

  lemma {:induction false} PointersAmong(files: seq<FileGroup>, d: Digest)
    requires d in PointersOf(files)
    ensures exists k :: 0 <= k < |files| && files[k].pointer == Some(d)
  {
    if files != [] {
      var init, last := files[..|files| - 1], files[|files| - 1];
      if last.pointer == Some(d) {
        assert files[|files| - 1].pointer == Some(d);
      } else {
        PointersAmong(init, d);
        var k :| 0 <= k < |init| && init[k].pointer == Some(d);
        assert files[k].pointer == Some(d);
      }
    }
  }

  lemma StoredPointersOk(blobs: Blobs, layers: seq<Layer>, files: Contents, exclude: set<Digest>, d: Digest)
    requires Stores(blobs, layers, files) && Files(layers).Ok? && d in PointersOf(Files(layers).value)
    ensures PointerOk(blobs, d, exclude, PackSizes(layers, exclude))
  {
    var groups := Partition(layers);
    PartitionSplits(layers);
    StoredHeads(blobs, groups, files);
    FilesOfGroups(groups);
    PointersAmong(Files(layers).value, d);
    var k :| 0 <= k < |groups| && FileOfGroup(groups[k]).pointer == Some(d);
    assert Matches(In(blobs), groups[k], files);
    GroupPointerOk(blobs, layers, groups[k], files[groups[k].title.value], exclude);
  }

  lemma StoredHeads(blobs: Blobs, groups: seq<Group>, files: Contents)
    requires GroupsStore(In(blobs), groups, files)
    ensures forall k :: 0 <= k < |groups| ==> HeadOk(groups[k])
  {
    forall k | 0 <= k < |groups|
      ensures HeadOk(groups[k])
    {
      assert Matches(In(blobs), groups[k], files);
      StoredHead(blobs, groups[k], files[groups[k].title.value]);
    }
  }

  /** From a revision whose files are stored, the index always builds, and an upload may trust
      it: every entry holds its chunk's bytes, in a pack of known true size that is not
      excluded. */
  lemma StoredIndexReady(blobs: Blobs, layers: seq<Layer>, files: Contents, exclude: set<Digest>)
    requires ContentAddressed(blobs) && Stores(blobs, layers, files)
    ensures BuildIndex(Some(layers), blobs, exclude).Ok?
    ensures var (index, sizes) := BuildIndex(Some(layers), blobs, exclude).value;
            && Ready(blobs, index, sizes)
            && sizes == PackSizes(layers, exclude)
            && EntriesOk(blobs, index, exclude, sizes)
  {
    var sizes := PackSizes(layers, exclude);
    var index := StoredIndexBuilds(blobs, layers, files, exclude);
    SizesAreTrue(blobs, layers, files, exclude);
    EntriesReady(blobs, index, exclude, sizes);
  }

  lemma StoredIndexBuilds(blobs: Blobs, layers: seq<Layer>, files: Contents, exclude: set<Digest>) returns (index: Index)
    requires Stores(blobs, layers, files)
    ensures BuildIndex(Some(layers), blobs, exclude) == Ok((index, PackSizes(layers, exclude)))
    ensures EntriesOk(blobs, index, exclude, PackSizes(layers, exclude))
  {
    StoredFilesOk(blobs, layers, files);
    var pointers := PointersOf(Files(layers).value);
    forall d | d in pointers
      ensures PointerOk(blobs, d, exclude, PackSizes(layers, exclude))
    {
      StoredPointersOk(blobs, layers, files, exclude, d);
    }
    FetchAllOk(blobs, pointers);
    var fetched := FetchAll(blobs, pointers).value;
    AddAllOk(blobs, pointers, fetched, exclude, PackSizes(layers, exclude));
    index := AddAll(fetched, exclude).value;
  }

  lemma StoredFilesOk(blobs: Blobs, layers: seq<Layer>, files: Contents)
    requires Stores(blobs, layers, files)
    ensures Files(layers).Ok?
  {
    PartitionSplits(layers);
    StoredHeads(blobs, Partition(layers), files);
    FilesOfGroups(Partition(layers));
  }

  lemma EntriesReady(blobs: Blobs, index: Index, exclude: set<Digest>, sizes: map<Digest, nat>)
    requires EntriesOk(blobs, index, exclude, sizes)
    ensures IndexOk(blobs, index) && IndexSized(index, sizes)
  {
    forall d | d in index
      ensures index[d].pack in sizes
      ensures exists content :: Sha256(content) == d && Holds(blobs, index[d].pack, index[d].offset, content)
    {
      assert EntryOk(blobs, index, exclude, sizes, d);
    }
  }
}
