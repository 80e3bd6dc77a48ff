/** Every history of commits keeps every file readable (hippius_hub/file_upload.py,
    hippius_hub/file_download.py). */
module History {
  import opened Basics
  import opened Text
  import opened Packing
  import opened PackStore
  import opened Manifest
  import opened Upload
  import opened StoredFiles
  import opened Versions
  import opened DedupIndex

  /** A file handed to a commit: below the threshold it is one blob, above it is chunked. */
  datatype NewFile = Plain(title: string, content: Bytes) | Chunked(title: string, content: Bytes, chunks: seq<Chunk>)

  /** A manifest that was put, and the bytes it is meant to stand for. */
  datatype Version = Version(layers: seq<Layer>, files: Contents)

  /** The blob store and every manifest a writer may still be holding, the last one current. */
  datatype Repo = Repo(blobs: Blobs, log: seq<Version>)

  const EMPTY_REPO := Repo(map[], [Version([], map[])])

  datatype Event =
    | Commit(packSize: nat, indexFrom: nat, base: nat, uploads: seq<NewFile>, deletes: set<string>)
      // build the index from one manifest, merge into one, possibly another, and put the result
    | Collect(keep: set<Digest>)
      // with no writer at work, drop blobs that the current manifest does not list

  function Titled(u: NewFile): string {
    CleanTitle(u.title)
  }

  /** What a commit demands of its caller and of the chunker. */
  ghost predicate Honest(packSize: nat, u: NewFile) {
    && u.title != ""
    && (u.Chunked? ==> u.content != [] && ChunksOf(u.content, u.chunks) && Sized(packSize, u.chunks))
  }

  ghost predicate HonestAll(packSize: nat, uploads: seq<NewFile>) {
    && (forall i :: 0 <= i < |uploads| ==> Honest(packSize, uploads[i]))
    && (forall i, j :: 0 <= i < j < |uploads| ==> Titled(uploads[i]) != Titled(uploads[j]))
  }

  /** What uploading one file adds: blobs, and the layers of its group. */
  ghost function UploadOne(blobs: Blobs, index: Index, sizes: map<Digest, nat>, packSize: nat, u: NewFile)
    : (Blobs, Result<seq<Layer>, UploadError>)
    requires Honest(packSize, u)
  {
    match u
    case Plain(title, content) => (Stored(blobs, content), Ok([PlainLayerFor(CleanTitle(title), content)]))
    case Chunked(title, content, chunks) =>
      HonestChunksPlan(index, packSize, content, chunks);
      var o := ChunkedOutcome(sizes, content, title, |chunks|, Plan(index, packSize, chunks).value);
      (AfterUpload(blobs, o), o.layers)
  }

  /** Uploading every file of a commit, all with the same index. */
  ghost function UploadAll(blobs: Blobs, index: Index, sizes: map<Digest, nat>, packSize: nat, uploads: seq<NewFile>)
    : (Blobs, Result<seq<Group>, UploadError>)
    requires HonestAll(packSize, uploads)
  {
    if uploads == [] then
      (blobs, Ok([]))
    else
      var init, u := uploads[..|uploads| - 1], uploads[|uploads| - 1];
      match UploadAll(blobs, index, sizes, packSize, init)
      case (stored, Err(e)) => (stored, Err(e))
      case (stored, Ok(groups)) =>
        match UploadOne(stored, index, sizes, packSize, u)
        case (after, Err(e)) => (after, Err(e))
        case (after, Ok(layers)) => (after, Ok(groups + [NewGroup(u.title, layers)]))
  }

  function News(uploads: seq<NewFile>): Contents {
    if uploads == [] then map[]
    else News(uploads[..|uploads| - 1])[Titled(uploads[|uploads| - 1]) := uploads[|uploads| - 1].content]
  }

  function Head(r: Repo): Version
    requires r.log != []
  {
    r.log[|r.log| - 1]
  }

  ghost predicate Enabled(r: Repo, e: Event) {
    match e
    case Commit(packSize, indexFrom, base, uploads, _) =>
      HonestAll(packSize, uploads) && indexFrom < |r.log| && base < |r.log|
    case Collect(keep) =>
      r.log != [] && forall l :: l in Head(r).layers ==> l.digest in keep
  }

  datatype RepoError = IndexFailed(indexError: IndexError) | UploadFailed(uploadError: UploadError)

  ghost function Do(r: Repo, e: Event): Result<Repo, RepoError>
    requires Enabled(r, e)
  {
    match e
    case Commit(packSize, indexFrom, base, uploads, deletes) =>
      (match BuildIndex(Some(r.log[indexFrom].layers), r.blobs, {})
       case Err(error) => Err(IndexFailed(error))
       case Ok((index, sizes)) =>
         match UploadAll(r.blobs, index, sizes, packSize, uploads)
         case (_, Err(error)) => Err(UploadFailed(error))
         case (blobs, Ok(groups)) =>
           var layers := Merge(r.log[base].layers, LayersOf(groups), deletes);
           var files := Updated(r.log[base].files, News(uploads), deletes);
           Ok(Repo(blobs, r.log + [Version(layers, files)])))
    case Collect(keep) =>
      Ok(Repo(Kept(r.blobs, keep), [Head(r)]))
  }

  function Kept(blobs: Blobs, keep: set<Digest>): Blobs {
    map d | d in blobs && d in keep :: blobs[d]
  }

  /** Every manifest still in play stands for its files. */
  ghost predicate Sound(r: Repo) {
    && r.log != []
    && ContentAddressed(r.blobs)
    && forall v :: v in r.log ==> Stores(r.blobs, v.layers, v.files)
  }

  lemma PlainStores(blobs: Blobs, title: string, content: Bytes)
    requires title != "" && ContentAddressed(blobs)
    ensures GroupStores(Stored(blobs, content), NewGroup(title, [PlainLayerFor(CleanTitle(title), content)]), content)
  {
    assert PlainGroup(Stored(blobs, content), NewGroup(title, [PlainLayerFor(CleanTitle(title), content)]), content);
  }

  lemma ReadyGrows(blobs: Blobs, blobs': Blobs, index: Index, sizes: map<Digest, nat>)
    requires Ready(blobs, index, sizes) && Grows(blobs, blobs') && ContentAddressed(blobs')
    ensures Ready(blobs', index, sizes)
  {
    SizesOkGrows(blobs, blobs', sizes);
    forall d | d in index
      ensures exists content :: Sha256(content) == d && Holds(blobs', index[d].pack, index[d].offset, content)
    {
      var content :| Sha256(content) == d && Holds(blobs, index[d].pack, index[d].offset, content);
      HoldsGrows(blobs, blobs', index[d].pack, index[d].offset, content);
    }
  }

  /** The group stores the file the way it was handed over: whole, or cut at exactly its chunks. */
  ghost predicate GroupOf(blobs: Blobs, g: Group, u: NewFile)
    requires Named(g.title)
  {
    match u
    case Plain(_, content) => PlainGroup(blobs, g, content)
    case Chunked(_, content, chunks) => CutAs(blobs, g, content, chunks)
  }

  lemma GroupOfGrows(blobs: Blobs, blobs': Blobs, g: Group, u: NewFile)
    requires Named(g.title) && GroupOf(blobs, g, u) && Grows(blobs, blobs')
    ensures GroupOf(blobs', g, u)
  {
    if u.Chunked? {
      hide ChunkedGroup, Grows;
      var refs :| ChunkedGroup(blobs, g, u.content, refs, u.chunks);
      ChunkedGroupGrows(blobs, blobs', g, u.content, refs, u.chunks);
    }
  }

  /** One group an upload, under its title. */
  ghost predicate GroupsOf(blobs: Blobs, groups: seq<Group>, uploads: seq<NewFile>) {
    |groups| == |uploads| && forall i :: 0 <= i < |groups| ==>
      Named(groups[i].title) && groups[i].title == Some(Titled(uploads[i])) && GroupOf(blobs, groups[i], uploads[i])
  }

  lemma GroupsOfSnoc(blobs: Blobs, blobs': Blobs, groups: seq<Group>, uploads: seq<NewFile>, g: Group, u: NewFile)
    requires GroupsOf(blobs, groups, uploads) && Grows(blobs, blobs')
    requires Named(g.title) && g.title == Some(Titled(u)) && GroupOf(blobs', g, u)
    ensures GroupsOf(blobs', groups + [g], uploads + [u])
  {
    hide GroupOf, Grows;
    forall i | 0 <= i < |groups|
      ensures GroupOf(blobs', groups[i], uploads[i])
    {
      GroupOfGrows(blobs, blobs', groups[i], uploads[i]);
    }
  }

  /** Uploading every file of a commit gives one group a file, stored the way the file was handed
      over. */
  lemma {:induction false} UploadAllGroups(blobs: Blobs, index: Index, sizes: map<Digest, nat>, packSize: nat,
                                           uploads: seq<NewFile>)
    requires Ready(blobs, index, sizes) && HonestAll(packSize, uploads)
    ensures var (after, groups) := UploadAll(blobs, index, sizes, packSize, uploads);
            groups.Ok? && ContentAddressed(after) && Grows(blobs, after) && GroupsOf(after, groups.value, uploads)
  {
    hide UploadOne, GroupOf, ContentAddressed, Ready, GroupStores;
    if uploads != [] {
      var init, u := uploads[..|uploads| - 1], uploads[|uploads| - 1];
      UploadAllGroups(blobs, index, sizes, packSize, init);
      var (stored, groups) := UploadAll(blobs, index, sizes, packSize, init);
      ReadyGrows(blobs, stored, index, sizes);
      UploadOneStores(stored, index, sizes, packSize, u);
      var (after, layers) := UploadOne(stored, index, sizes, packSize, u);
      GroupsOfSnoc(stored, after, groups.value, init, NewGroup(u.title, layers.value), u);
      assert uploads == init + [u];
    } else {
      ReadyAsIs(blobs, index, sizes);
    }
  }

  lemma ReadyAsIs(blobs: Blobs, index: Index, sizes: map<Digest, nat>)
    requires Ready(blobs, index, sizes)
    ensures ContentAddressed(blobs) && Grows(blobs, blobs)
  {
  }

  /** One upload succeeds and stores its file. */
  lemma UploadOneStores(blobs: Blobs, index: Index, sizes: map<Digest, nat>, packSize: nat, u: NewFile)
    requires Ready(blobs, index, sizes) && Honest(packSize, u)
    ensures var (after, layers) := UploadOne(blobs, index, sizes, packSize, u);
            && layers.Ok?
            && ContentAddressed(after) && Grows(blobs, after)
            && GroupStores(after, NewGroup(u.title, layers.value), u.content)
            && GroupOf(after, NewGroup(u.title, layers.value), u)
  {
    match u {
      case Plain(title, content) =>
        StoredGrows(blobs, content);
        PlainStores(blobs, title, content);
      case Chunked(title, content, chunks) =>
        HonestChunksPlan(index, packSize, content, chunks);
        UploadStores(blobs, index, sizes, packSize, content, title, chunks, Plan(index, packSize, chunks).value);
    }
  }

  lemma GroupOkOfStored(blobs: Blobs, g: Group, content: Bytes)
    requires GroupStores(blobs, g, content)
    ensures GroupOk(g) && Named(g.title)
  {
    if !PlainGroup(blobs, g, content) {
      var refs, chunks :| ChunkedGroup(blobs, g, content, refs, chunks);
    }
  }

  lemma OneGroup(holds: Holding, g: Group, content: Bytes)
    requires GroupOk(g) && Named(g.title) && holds(g, content)
    ensures GroupsStore(holds, [g], map[g.title.value := content])
  {
    assert Matches(holds, g, map[g.title.value := content]);
    assert [g][0].title == Some(g.title.value);
  }

  lemma AddGroup(holds: Holding, groups: seq<Group>, files: Contents, g: Group, content: Bytes)
    requires GroupsStore(holds, groups, files)
    requires GroupOk(g) && Named(g.title) && holds(g, content) && g.title.value !in files
    ensures GroupsStore(holds, groups + [g], files[g.title.value := content])
  {
    OneGroup(holds, g, content);
    var one := map[g.title.value := content];
    JoinStore(holds, groups, files, [g], one);
    assert files[g.title.value := content] == files + one;
  }

  lemma GroupsStoreSnoc(blobs: Blobs, blobs': Blobs, groups: seq<Group>, files: Contents, g: Group, content: Bytes)
    requires GroupsStore(In(blobs), groups, files) && Grows(blobs, blobs')
    requires GroupStores(blobs', g, content) && g.title.value !in files
    ensures GroupsStore(In(blobs'), groups + [g], files[g.title.value := content])
  {
    StoresGrows(blobs, blobs', groups, files);
    GroupOkOfStored(blobs', g, content);
    AddGroup(In(blobs'), groups, files, g, content);
  }

  lemma {:induction false} NewsTitles(uploads: seq<NewFile>)
    ensures forall t :: t in News(uploads) <==> exists i :: 0 <= i < |uploads| && Titled(uploads[i]) == t
  {
    if uploads != [] {
      var init, u := uploads[..|uploads| - 1], uploads[|uploads| - 1];
      NewsTitles(init);
      assert uploads == init + [u];
      forall t | t in News(init)
        ensures exists i :: 0 <= i < |uploads| && Titled(uploads[i]) == t
      {
        var i :| 0 <= i < |init| && Titled(init[i]) == t;
        assert Titled(uploads[i]) == t;
      }
    }
  }

  lemma NewTitle(packSize: nat, uploads: seq<NewFile>)
    requires HonestAll(packSize, uploads) && uploads != []
    ensures Titled(uploads[|uploads| - 1]) !in News(uploads[..|uploads| - 1])
  {
    NewsTitles(uploads[..|uploads| - 1]);
    assert forall i :: 0 <= i < |uploads| - 1 ==> Titled(uploads[i]) != Titled(uploads[|uploads| - 1]);
  }

  /** All the files of a commit are uploaded and stored. */
  lemma {:induction false} UploadAllStores(blobs: Blobs, index: Index, sizes: map<Digest, nat>, packSize: nat,
                                           uploads: seq<NewFile>)
    requires Ready(blobs, index, sizes) && HonestAll(packSize, uploads)
    ensures var (after, groups) := UploadAll(blobs, index, sizes, packSize, uploads);
            && groups.Ok?
            && ContentAddressed(after) && Grows(blobs, after)
            && GroupsStore(In(after), groups.value, News(uploads))
  {
    if uploads != [] {
      var init, u := uploads[..|uploads| - 1], uploads[|uploads| - 1];
      UploadAllStores(blobs, index, sizes, packSize, init);
      var (stored, groups) := UploadAll(blobs, index, sizes, packSize, init);
      ReadyGrows(blobs, stored, index, sizes);
      UploadOneStores(stored, index, sizes, packSize, u);
      var (after, layers) := UploadOne(stored, index, sizes, packSize, u);
      NewTitle(packSize, uploads);
      GroupsStoreSnoc(stored, after, groups.value, News(init), NewGroup(u.title, layers.value), u.content);
    }
  }

  /** A commit on a sound repository succeeds and leaves it sound: neither an index built from
      an older manifest nor a merge into one can break any file. */
  lemma CommitKeepsSound(r: Repo, e: Event)
    requires Sound(r) && e.Commit? && Enabled(r, e)
    ensures Do(r, e).Ok? && Sound(Do(r, e).value)
  {
    var source, base := r.log[e.indexFrom], r.log[e.base];
    StoredIndexReady(r.blobs, source.layers, source.files, {});
    var (index, sizes) := BuildIndex(Some(source.layers), r.blobs, {}).value;
    UploadAllStores(r.blobs, index, sizes, e.packSize, e.uploads);
    var (after, groups) := UploadAll(r.blobs, index, sizes, e.packSize, e.uploads);
    forall v | v in r.log
      ensures Stores(after, v.layers, v.files)
    {
      StoresGrows(r.blobs, after, Partition(v.layers), v.files);
    }
    assert Stores(after, base.layers, base.files);
    MergeStores(In(after), base.layers, base.files, groups.value, News(e.uploads), e.deletes);
  }

  /** What a commit brings. Its manifest lists, under each uploaded title, a group that stores the
      file the way it was handed over. */
  lemma CommitBrings(r: Repo, e: Event, i: nat)
    requires Sound(r) && e.Commit? && Enabled(r, e) && i < |e.uploads|
    ensures Do(r, e).Ok? && Do(r, e).value.log != []
    ensures var after := Do(r, e).value;
            exists g :: g in Partition(Head(after).layers) && Named(g.title) && g.title == Some(Titled(e.uploads[i]))
              && GroupOf(after.blobs, g, e.uploads[i])
  {
    var source := r.log[e.indexFrom];
    StoredIndexReady(r.blobs, source.layers, source.files, {});
    var (index, sizes) := BuildIndex(Some(source.layers), r.blobs, {}).value;
    UploadAllStores(r.blobs, index, sizes, e.packSize, e.uploads);
    UploadAllGroups(r.blobs, index, sizes, e.packSize, e.uploads);
    var (after, groups) := UploadAll(r.blobs, index, sizes, e.packSize, e.uploads);
    hide UploadAll, BuildIndex, Merge, GroupOf, Stores, HonestAll, Partition, GroupStores;
    BroughtGroup(In(after), groups.value, News(e.uploads), r.log[e.base].layers, e.deletes, i);
  }

  lemma BroughtGroup(holds: Holding, groups: seq<Group>, news: Contents, existing: seq<Layer>, deletes: set<string>, i: nat)
    requires GroupsStore(holds, groups, news) && i < |groups|
    ensures groups[i] in Partition(Merge(existing, LayersOf(groups), deletes))
  {
    hide Partition, Merge, LayersOf, Surviving;
    assert Matches(holds, groups[0], news);
    MergeGroups(existing, groups, deletes);
    var kept := Surviving(Partition(existing), deletes + Titles(groups));
    assert (kept + groups)[|kept| + i] == groups[i];
  }

  lemma KeptGroup(blobs: Blobs, keep: set<Digest>, g: Group, content: Bytes)
    requires GroupStores(blobs, g, content)
    requires forall l :: l in g.layers ==> l.digest in keep
    ensures GroupStores(Kept(blobs, keep), g, content)
  {
    var blobs' := Kept(blobs, keep);
    if PlainGroup(blobs, g, content) {
      assert g.layers[0] in g.layers;
      assert PlainGroup(blobs', g, content);
    } else {
      var refs, chunks :| ChunkedGroup(blobs, g, content, refs, chunks);
      assert g.layers[0] in g.layers;
      KeptRefs(blobs, keep, g, refs, content, chunks);
      forall j | 1 <= j < |g.layers|
        ensures PackLayerOk(blobs', g.layers[j])
      {
        assert g.layers[j] in g.layers;
      }
      assert ChunkedGroup(blobs', g, content, refs, chunks);
    }
  }

  lemma KeptRefs(blobs: Blobs, keep: set<Digest>, g: Group, refs: seq<ChunkRef>, content: Bytes, chunks: seq<Chunk>)
    requires g.layers != [] && RefsDescribe(blobs, refs, content, chunks)
    requires forall i :: 0 <= i < |refs| ==> Listed(g.layers[1..], refs[i].pack)
    requires forall l :: l in g.layers ==> l.digest in keep
    ensures RefsDescribe(Kept(blobs, keep), refs, content, chunks)
  {
    forall i | 0 <= i < |chunks|
      ensures RefHolds(Kept(blobs, keep), refs[i], Content(content, chunks[i]))
    {
      assert RefHolds(blobs, refs[i], Content(content, chunks[i]));
      var j :| 0 <= j < |g.layers[1..]| && g.layers[1..][j].mediaType == PackLayer && g.layers[1..][j].digest == refs[i].pack;
      assert g.layers[j + 1] in g.layers;
    }
  }

  /** Collecting what the current manifest does not list breaks none of its files: every pack a
      pointer names is listed in that file's own group. */
  lemma CollectKeepsSound(r: Repo, e: Event)
    requires Sound(r) && e.Collect? && Enabled(r, e)
    ensures Do(r, e).Ok? && Sound(Do(r, e).value)
  {
    var head := Head(r);
    var groups, blobs' := Partition(head.layers), Kept(r.blobs, e.keep);
    assert head in r.log;
    PartitionSplits(head.layers);
    forall k | 0 <= k < |groups|
      ensures Matches(In(blobs'), groups[k], head.files)
    {
      assert Matches(In(r.blobs), groups[k], head.files);
      forall l | l in groups[k].layers
        ensures l.digest in e.keep
      {
        InLayersOf(groups, l);
      }
      KeptGroup(r.blobs, e.keep, groups[k], head.files[groups[k].title.value]);
    }
    assert GroupsStore(In(blobs'), groups, head.files);
  }

  /** The repository after a history from the empty one; `None` if some event was not enabled
      or failed. */
  ghost function After(history: seq<Event>): Option<Repo> {
    if history == [] then
      Some(EMPTY_REPO)
    else
      match After(history[..|history| - 1])
      case None => None
      case Some(r) =>
        var e := history[|history| - 1];
        if Enabled(r, e) && Do(r, e).Ok? then Some(Do(r, e).value) else None
  }

  lemma EmptyIsSound()
    ensures Sound(EMPTY_REPO)
  {
    assert Partition([]) == [];
    assert GroupsStore(In(map[]), [], map[]);
  }

  /** Over every history of commits, with indexes and merge bases as stale as can be, and of
      collections between them, every manifest still in play stands for exactly its files. */
  lemma {:induction false} HistoryIsSound(history: seq<Event>)
    requires After(history).Some?
    ensures Sound(After(history).value)
  {
    if history == [] {
      EmptyIsSound();
    } else {
      HistoryIsSound(history[..|history| - 1]);
      var r, e := After(history[..|history| - 1]).value, history[|history| - 1];
      match e {
        case Commit(_, _, _, _, _) => CommitKeepsSound(r, e);
        case Collect(_) => CollectKeepsSound(r, e);
      }
    }
  }

  /** And no commit on such a history can fail: the prior pointers all parse, and every pack
      they name has a known size. */
  lemma CommitNeverFails(history: seq<Event>, e: Event)
    requires After(history).Some? && Enabled(After(history).value, e)
    ensures After(history + [e]).Some?
  {
    HistoryIsSound(history);
    assert (history + [e])[..|history|] == history;
    match e {
      case Commit(_, _, _, _, _) => CommitKeepsSound(After(history).value, e);
      case Collect(_) => CollectKeepsSound(After(history).value, e);
    }
  }

  /** The bytes last uploaded under each title and not deleted since. */
  function LastUploads(history: seq<Event>): Contents {
    if history == [] then
      map[]
    else
      var before := LastUploads(history[..|history| - 1]);
      match history[|history| - 1]
      case Commit(_, _, _, uploads, deletes) => Updated(before, News(uploads), deletes)
      case Collect(_) => before
  }

  /** One writer at a time: every commit merges into the manifest that was current. */
  ghost predicate SingleWriter(history: seq<Event>) {
    history == [] || (
      var init, e := history[..|history| - 1], history[|history| - 1];
      && SingleWriter(init)
      && (e.Commit? && After(init).Some? ==> e.base == |After(init).value.log| - 1))
  }

  /** With one writer at a time, the current manifest stands for the last uploads. */
  lemma {:induction false} HeadIsLastUploads(history: seq<Event>)
    requires After(history).Some? && SingleWriter(history)
    ensures After(history).value.log != [] && Head(After(history).value).files == LastUploads(history)
  {
    if history != [] {
      var init, e := history[..|history| - 1], history[|history| - 1];
      HeadIsLastUploads(init);
      DoHead(After(init).value, e);
    }
  }

  lemma DoHead(r: Repo, e: Event)
    requires Enabled(r, e) && Do(r, e).Ok? && r.log != []
    ensures Do(r, e).value.log != []
    ensures Head(Do(r, e).value).files
            == match e
               case Commit(_, _, base, uploads, deletes) => Updated(r.log[base].files, News(uploads), deletes)
               case Collect(_) => Head(r).files
  {
  }
}
