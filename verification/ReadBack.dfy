/** What every history guarantees to a reader: each file comes back as the bytes last uploaded
    under its title (hippius_hub/file_download.py, src/chunk_fetcher/assemble.rs). */
module ReadBack {
  import opened Basics
  import opened Text
  import opened Constants
  import opened Retry
  import opened Packing
  import opened PackStore
  import opened PointerBlob
  import opened Manifest
  import opened ManifestFiles
  import opened StoredFiles
  import opened Versions
  import opened DedupIndex
  import opened PullPacks
  import opened PullProperties
  import PF = PackFetch
  import PW = ParallelWrite
  import FR = FullRuns
  import HS = HasherSoundness
  import FD = FileDigest
  import RR = RangeRebuild
  import H = History

  /** The tasks can come to an end, and whenever they do, the content is on disk and verified. */
  ghost predicate Downloads(plan: PW.Plan, content: Bytes) {
    && (exists run :: FR.Complete(plan, |content|, run))
    && (forall run :: FR.Complete(plan, |content|, run) ==> FD.Delivered(plan, content, run))
  }

  /** The pack is there, as long as the plan declares, and good for every target: a registry that
      serves it delivers the entry (`PackFetch.HonestFetch`). */
  predicate Fetchable(blobs: Blobs, e: PackEntry) {
    e.pack in blobs && e.size == |blobs[e.pack]| <= MAX_PACK_BYTES && PF.AllGood(blobs[e.pack], e.chunks)
  }

  /** The pointer blob parses, its pull plan passes validation, every target names a slice of the
      content, and downloading by that plan gives it. */
  ghost predicate PullsAs(blobs: Blobs, layers: seq<Layer>, pointer: Digest, content: Bytes) {
    && pointer in blobs && ParsePointerV2(blobs[pointer]).Ok?
    && var (refs, sizes) := (ParsePointerV2(blobs[pointer]).value, PackSizes(layers, {}));
       && RefsSize(refs) == |content|
       && PullPlan(refs, sizes).Ok?
       && (forall k :: 0 <= k < |PullPlan(refs, sizes).value| ==>
             && Acceptable(PullPlan(refs, sizes).value[k], |content|)
             && PF.TargetsOf(content, PullPlan(refs, sizes).value[k].chunks)
             && Fetchable(blobs, PullPlan(refs, sizes).value[k]))
       && Pulled(blobs, refs, sizes).Some?
       && Downloads(Pulled(blobs, refs, sizes).value, content)
  }

  /** The blob is there, and a Range download of it gives it, whatever the chunk size, as long as the
      chunks do not reach past 2^64; an empty one is answered at once with its digest. */
  ghost predicate FetchesAs(blobs: Blobs, digest: Digest, content: Bytes) {
    && digest in blobs && blobs[digest] == content
    && (forall chunkSize :: RR.Tileable(content, chunkSize) ==> Downloads(RR.DownloadPlan(content, chunkSize), content))
    && (content == [] ==>
          forall chunkSize :: RR.Answered(|content|, chunkSize) == Some(RR.Answer.Digest(Some(Sha256(content)))))
  }

  /** Looking the title up and downloading what it finds gives `content`. */
  ghost predicate ReadsAs(blobs: Blobs, layers: seq<Layer>, title: string, content: Bytes) {
    && Files(layers).Ok? && Resolved(Files(layers).value, title).Ok?
    && var f := Resolved(Files(layers).value, title).value;
       && f.title == title && f.size == |content| && f.digest == Sha256(content)
       && match f.pointer
          case None => FetchesAs(blobs, f.digest, content)
          case Some(pointer) => PullsAs(blobs, layers, pointer, content)
  }

  lemma RefTarget(blobs: Blobs, refs: seq<ChunkRef>, content: Bytes, chunks: seq<Chunk>, i: nat)
    requires RefsDescribe(blobs, refs, content, chunks) && i < |refs|
    ensures PF.TargetOf(content, TargetAt(refs, i))
  {
    RefSlice(blobs, refs, content, chunks, i);
  }

  lemma EntryTargets(blobs: Blobs, refs: seq<ChunkRef>, content: Bytes, chunks: seq<Chunk>, sizes: map<Digest, nat>, k: nat)
    requires RefsDescribe(blobs, refs, content, chunks) && PullPlan(refs, sizes).Ok?
    requires k < |PullPlan(refs, sizes).value|
    ensures PF.TargetsOf(content, PullPlan(refs, sizes).value[k].chunks)
  {
    var targets := PullPlan(refs, sizes).value[k].chunks;
    forall j | 0 <= j < |targets|
      ensures PF.TargetOf(content, targets[j])
    {
      PieceOf(blobs, refs, content, chunks, sizes, k, j);
      RefTarget(blobs, refs, content, chunks, RefIndex(refs, k, j));
    }
  }

  lemma EntryFetchable(blobs: Blobs, refs: seq<ChunkRef>, content: Bytes, chunks: seq<Chunk>, sizes: map<Digest, nat>, k: nat)
    requires RefsDescribe(blobs, refs, content, chunks) && PullPlan(refs, sizes).Ok? && SizesOk(blobs, sizes)
    requires k < |PullPlan(refs, sizes).value|
    ensures Fetchable(blobs, PullPlan(refs, sizes).value[k])
  {
    var e := PullPlan(refs, sizes).value[k];
    EntriesShape(refs, sizes, PackOrder(refs));
    EntryTargets(blobs, refs, content, chunks, sizes, k);
    forall j | 0 <= j < |e.chunks|
      ensures PF.Good(blobs[e.pack], e.chunks[j])
    {
      PieceOf(blobs, refs, content, chunks, sizes, k, j);
      assert PF.TargetOf(content, e.chunks[j]);
    }
  }

  lemma DescribedPulls(blobs: Blobs, refs: seq<ChunkRef>, content: Bytes, chunks: seq<Chunk>, sizes: map<Digest, nat>)
    requires RefsDescribe(blobs, refs, content, chunks) && |content| <= U64_MAX
    requires PullPlan(refs, sizes).Ok? && Pulled(blobs, refs, sizes).Some?
    ensures Downloads(Pulled(blobs, refs, sizes).value, content)
  {
    var plan := Pulled(blobs, refs, sizes).value;
    var ended := FR.SomeRunCompletes(plan, |content|);
    forall run | FR.Complete(plan, |content|, run)
      ensures FD.Delivered(plan, content, run)
    {
      FD.PullReadsBack(blobs, refs, content, chunks, sizes, plan, run);
    }
  }

  lemma PlainFetches(blobs: Blobs, digest: Digest, content: Bytes)
    requires digest in blobs && blobs[digest] == content
    ensures FetchesAs(blobs, digest, content)
  {
    forall chunkSize | RR.Tileable(content, chunkSize)
      ensures Downloads(RR.DownloadPlan(content, chunkSize), content)
    {
      var plan := RR.DownloadPlan(content, chunkSize);
      var ended := RR.RangeDownloadEnds(content, chunkSize);
      forall run | FR.Complete(plan, |content|, run)
        ensures FD.Delivered(plan, content, run)
      {
        RR.RangeDownloadDelivers(content, chunkSize, run);
      }
    }
  }

  /** The tasks write where the plan's targets ask, bytes of the size they ask for. */
  predicate WritesFor(plan: PW.Plan, entries: seq<PackEntry>) {
    && |plan| == |entries|
    && forall k :: 0 <= k < |plan| ==>
         && |plan[k]| == |entries[k].chunks|
         && forall j :: 0 <= j < |plan[k]| ==>
              plan[k][j].start == entries[k].chunks[j].fileOffset && |plan[k][j].data| == entries[k].chunks[j].size
  }

  /** A wrong pointer blob is caught in the end. Whatever bytes were served for the pointer, if they
      parse and their pull plan passes validation, then whatever the tasks write by that plan,
      verification passes exactly when the file is the expected content. */
  lemma WrongPointerCaught(served: Bytes, sizes: map<Digest, nat>, content: Bytes, plan: PW.Plan, run: seq<PW.Step>,
                           failure: Option<CoreError>)
    requires ParsePointerV2(served).Ok? && PullPlan(ParsePointerV2(served).value, sizes).Ok?
    requires var entries := PullPlan(ParsePointerV2(served).value, sizes).value;
             && (forall k :: 0 <= k < |entries| ==> Acceptable(entries[k], |content|))
             && WritesFor(plan, entries)
    requires PW.After(plan, |content|, run).Some? && PW.After(plan, |content|, run).value.outcome != PW.Hashing
    ensures var s := PW.After(plan, |content|, run).value;
            FD.Verified(FD.TaskOf(s), s.file, Sha256(content), failure)
            == if s.outcome == PW.GaveUp && failure.Some? then Err(failure.value)
               else if s.file == content then Ok(Sha256(content))
               else Err(Integrity)
  {
    var entries := PullPlan(ParsePointerV2(served).value, sizes).value;
    hide ParsePointerV2, PullPlan, PW.After;
    forall k, j | 0 <= k < |plan| && 0 <= j < |plan[k]|
      ensures HS.Fits(plan[k][j], |content|)
    {
      assert Acceptable(entries[k], |content|);
    }
    FD.VerifiedIsTrue(plan, |content|, run, Sha256(content), failure);
    var s := PW.After(plan, |content|, run).value;
    if Sha256(s.file) == Sha256(content) {
      Sha256Injective(s.file, content);
    }
  }

  lemma ListedSizes(blobs: Blobs, layers: seq<Layer>, files: Contents, g: Group, content: Bytes,
                    refs: seq<ChunkRef>, chunks: seq<Chunk>)
    requires Stores(blobs, layers, files) && g in Partition(layers) && Named(g.title)
    requires ChunkedGroup(blobs, g, content, refs, chunks)
    ensures forall i :: 0 <= i < |refs| ==>
              refs[i].pack in PackSizes(layers, {}) && PackSizes(layers, {})[refs[i].pack] <= MAX_PACK_BYTES
  {
    PackSizesSpec(layers, {});
    SizesAreTrue(blobs, layers, files, {});
    forall i | 0 <= i < |refs|
      ensures Listed(layers, refs[i].pack)
    {
      ListedInGroup(layers, g, refs[i].pack);
    }
  }

  lemma ChunkedPulls(blobs: Blobs, layers: seq<Layer>, files: Contents, g: Group, content: Bytes)
    requires Stores(blobs, layers, files) && g in Partition(layers) && |content| <= U64_MAX
    requires GroupStores(blobs, g, content) && HeadOk(g) && FileOfGroup(g).pointer.Some?
    ensures PullsAs(blobs, layers, FileOfGroup(g).pointer.value, content)
  {
    var refs, chunks := StoredPointer(blobs, g, content);
    var sizes := PackSizes(layers, {});
    ListedSizes(blobs, layers, files, g, content, refs, chunks);
    SizesAreTrue(blobs, layers, files, {});
    PullPlanExists(refs, sizes);
    DescribedOffsets(blobs, refs, content, chunks);
    PullPlanTiles(blobs, refs, content, chunks, sizes);
    PullPlanAcceptable(blobs, refs, content, chunks, sizes);
    forall k | 0 <= k < |PullPlan(refs, sizes).value|
      ensures PF.TargetsOf(content, PullPlan(refs, sizes).value[k].chunks) && Fetchable(blobs, PullPlan(refs, sizes).value[k])
    {
      EntryTargets(blobs, refs, content, chunks, sizes, k);
      EntryFetchable(blobs, refs, content, chunks, sizes, k);
    }
    DescribedPulls(blobs, refs, content, chunks, sizes);
  }

  /** In a stored manifest, every listed file reads back as its bytes, and no other title is
      found. */
  lemma StoredReadsBack(blobs: Blobs, layers: seq<Layer>, files: Contents, title: string)
    requires Stores(blobs, layers, files)
    ensures title in files && |files[title]| <= U64_MAX ==> ReadsAs(blobs, layers, title, files[title])
    ensures title !in files ==> Files(layers).Ok? && Resolved(Files(layers).value, title) == Err(EntryNotFound(title))
  {
    LookupStored(blobs, layers, files, title);
    if title in files && |files[title]| <= U64_MAX {
      var content := files[title];
      var g :| FoundIn(blobs, layers, content, title, g);
      StoredHead(blobs, g, content);
      if FileOfGroup(g).pointer.Some? {
        ChunkedPulls(blobs, layers, files, g, content);
      } else {
        PlainFetches(blobs, FileOfGroup(g).digest, content);
      }
    }
  }

  /** The main result. After any history of one writer at a time, of uploads that reuse each
      other's packs, replacements, deletions and collections, every title reads back as the
      bytes last uploaded under it, and a title that was never uploaded, or was deleted since,
      is not found. */
  lemma EveryFileReadsBack(history: seq<H.Event>, title: string)
    requires H.After(history).Some? && H.SingleWriter(history)
    ensures H.After(history).value.log != []
    ensures var (r, uploads) := (H.After(history).value, H.LastUploads(history));
            && (title in uploads && |uploads[title]| <= U64_MAX ==>
                  ReadsAs(r.blobs, H.Head(r).layers, title, uploads[title]))
            && (title !in uploads ==>
                  && Files(H.Head(r).layers).Ok?
                  && Resolved(Files(H.Head(r).layers).value, title) == Err(EntryNotFound(title)))
  {
    H.HistoryIsSound(history);
    H.HeadIsLastUploads(history);
    var r := H.After(history).value;
    assert H.Head(r) in r.log;
    StoredReadsBack(r.blobs, H.Head(r).layers, H.Head(r).files, title);
  }

  /** Reference closure. In every manifest that any history can still hold, a chunked file's own
      group lists every pack its pointer names, and lists nothing else, each with the true size
      of a blob that is there. */
  lemma ReferenceClosure(history: seq<H.Event>, v: H.Version, g: Group)
    requires H.After(history).Some? && v in H.After(history).value.log
    requires g in Partition(v.layers)
    ensures HeadOk(g)
    ensures var blobs := H.After(history).value.blobs;
            && (forall j :: 1 <= j < |g.layers| ==> PackLayerOk(blobs, g.layers[j]))
            && (forall l :: l in g.layers ==> l.digest in blobs && l.size == |blobs[l.digest]|)
            && (FileOfGroup(g).pointer.Some? ==>
                  var d := FileOfGroup(g).pointer.value;
                  && d in blobs && ParsePointerV2(blobs[d]).Ok?
                  && g.layers[0].file == Some(FileAnnotations(|ParsePointerV2(blobs[d]).value|, FileOfGroup(g).size,
                                                              FileOfGroup(g).digest))
                  && (forall i :: 0 <= i < |ParsePointerV2(blobs[d]).value| ==>
                        Listed(g.layers[1..], ParsePointerV2(blobs[d]).value[i].pack))
                  && (forall j :: 1 <= j < |g.layers| ==> Names(ParsePointerV2(blobs[d]).value, g.layers[j].digest)))
  {
    H.HistoryIsSound(history);
    var blobs := H.After(history).value.blobs;
    var k :| 0 <= k < |Partition(v.layers)| && Partition(v.layers)[k] == g;
    assert Matches(In(blobs), Partition(v.layers)[k], v.files);
    var content := v.files[g.title.value];
    StoredHead(blobs, g, content);
    GroupDescribed(blobs, g, content);
    if FileOfGroup(g).pointer.Some? {
      var refs, chunks := StoredPointer(blobs, g, content);
    }
  }

  /** Every layer of a stored group gives the true size of a blob that is there. */
  lemma GroupDescribed(blobs: Blobs, g: Group, content: Bytes)
    requires GroupStores(blobs, g, content)
    ensures forall l :: l in g.layers ==> l.digest in blobs && l.size == |blobs[l.digest]|
  {
    if !PlainGroup(blobs, g, content) {
      var refs, chunks :| ChunkedGroup(blobs, g, content, refs, chunks);
      hide RefsDescribe, PlainRefs;
      forall l | l in g.layers
        ensures l.digest in blobs && l.size == |blobs[l.digest]|
      {
        var j :| 0 <= j < |g.layers| && g.layers[j] == l;
      }
    }
  }
}
