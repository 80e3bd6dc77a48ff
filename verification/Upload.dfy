/** Uploading one file as a pointer and packs (hippius_hub/file_upload.py): chunks stream into
    the planner, completed packs leave while later chunks are still being read. */
module Upload {
  import opened Basics
  import opened Text
  import opened Packing
  import opened PackingProperties
  import opened PackStore
  import opened Json
  import opened PointerBlob
  import opened Manifest
  import opened PullPacks

  datatype UploadError = Planning(error: PackError) | PutFailed | UnknownPack(pack: Digest)

  /** The registry's blob store. */
  class Registry {
    var blobs: Blobs
    ghost var failures: nat  // how many requests have failed

    /** Store one blob under its digest; a failed request may or may not have stored it. */
    method PutBlob(content: Bytes) returns (ok: bool)
      modifies this
      ensures ok ==> blobs == Stored(old(blobs), content)
      ensures !ok ==> blobs == old(blobs) || blobs == Stored(old(blobs), content)
      ensures failures == old(failures) + (if ok then 0 else 1)
    {
      ok := *;
      if !ok {
        failures := failures + 1;
      }
      var stored: bool := *;
      if ok || stored {
        blobs := Stored(blobs, content);
      }
    }
  }

  /** The title a file is listed under. */
  function CleanTitle(path: string): (t: string)
    ensures |t| == |path| && '\\' !in t
  {
    seq(|path|, i requires 0 <= i < |path| => if path[i] == '\\' then '/' else path[i])
  }

  /** Every other character is kept, so a title without backslashes is its own clean title. */
  lemma CleanTitleKeeps(path: string)
    ensures forall i :: 0 <= i < |path| ==>
              CleanTitle(path)[i] == path[i] || (path[i] == '\\' && CleanTitle(path)[i] == '/')
    ensures '\\' !in path ==> CleanTitle(path) == path
    ensures CleanTitle(CleanTitle(path)) == CleanTitle(path)
  {
    assert '\\' !in path ==> CleanTitle(path) == path;
    assert CleanTitle(CleanTitle(path)) == CleanTitle(path);
  }

  function PointerBytes(file: Bytes, refs: seq<ChunkRef>): Bytes {
    PointerV2Bytes(Hex(file), |file|, refs)
  }

  /** The pointer blob of a file names that file. */
  lemma PointerOfFile(file: Bytes, refs: seq<ChunkRef>)
    requires PlainRefs(refs)
    ensures Decode(PointerBytes(file, refs)).Some?
    ensures var doc := Parse(Decode(PointerBytes(file, refs)).value);
            && doc.Some? && doc.value.Obj?
            && var part := Get(doc.value.fields, "file");
               && part.Some? && part.value.Obj?
               && StrField(part.value.fields, "digest") == Some(Sha256(file))
               && NatField(part.value.fields, "size") == Some(|file|)
  {
    DigestsArePlain(file);
    PointerNamesFile(Hex(file), |file|, refs);
  }

  function PointerLayerFor(title: string, file: Bytes, chunkCount: nat, refs: seq<ChunkRef>): Layer {
    var bytes := PointerBytes(file, refs);
    Layer(PointerLayer, |bytes|, Sha256(bytes), Some(title), Some(FileAnnotations(chunkCount, |file|, Sha256(file))))
  }

  /** The size of every pack a new pointer may name: those of the prior revision, then the
      ones just built. */
  function AllSizes(packSizes: map<Digest, nat>, packs: seq<NewPack>, digests: seq<Digest>): map<Digest, nat>
    requires |digests| == |packs|
  {
    if packs == [] then
      packSizes
    else
      var n := |packs| - 1;
      AllSizes(packSizes, packs[..n], digests[..n])[digests[n] := Size(packs[n])]
  }

  function PackLayerFor(pack: Digest, size: nat): Layer {
    Layer(PackLayer, size, pack, None, None)
  }

  /** One layer for each pack of `order`. */
  function PackLayers(order: seq<Digest>, sizes: map<Digest, nat>): Result<seq<Layer>, UploadError> {
    if order == [] then
      Ok([])
    else
      match PackLayers(order[..|order| - 1], sizes)
      case Err(e) => Err(e)
      case Ok(layers) =>
        var pack := order[|order| - 1];
        if pack !in sizes then Err(UnknownPack(pack)) else Ok(layers + [PackLayerFor(pack, sizes[pack])])
  }

  method ListPacks(refs: seq<ChunkRef>, sizes: map<Digest, nat>) returns (r: Result<seq<Layer>, UploadError>)
    ensures r == PackLayers(PackOrder(refs), sizes)
  {
    var referenced: seq<Digest> := [];
    var layers: seq<Layer> := [];
    for i := 0 to |refs|
      invariant referenced == PackOrder(refs[..i])
      invariant PackLayers(referenced, sizes) == Ok(layers)
    {
      assert refs[..i + 1][..i] == refs[..i];
      var pack := refs[i].pack;
      if pack !in referenced {
        assert (referenced + [pack])[..|referenced|] == referenced;
        if pack !in sizes {
          PackLayersErr(refs, sizes, i + 1);
          return Err(UnknownPack(pack));
        }
        referenced := referenced + [pack];
        layers := layers + [PackLayerFor(pack, sizes[pack])];
      }
    }
    assert refs[..|refs|] == refs;
    return Ok(layers);
  }

  lemma {:induction false} PackLayersErr(refs: seq<ChunkRef>, sizes: map<Digest, nat>, n: nat)
    requires n <= |refs| && PackLayers(PackOrder(refs[..n]), sizes).Err?
    ensures PackLayers(PackOrder(refs), sizes) == PackLayers(PackOrder(refs[..n]), sizes)
  {
    if n == |refs| {
      assert refs[..n] == refs;
    } else {
      var init := refs[..|refs| - 1];
      assert init[..n] == refs[..n];
      PackLayersErr(init, sizes, n);
      var r, last := PackOrder(init), refs[|refs| - 1].pack;
      assert (r + [last])[..|r|] == r;
    }
  }

  lemma {:induction false} PackLayersShape(order: seq<Digest>, sizes: map<Digest, nat>)
    ensures PackLayers(order, sizes).Ok? <==> forall d :: d in order ==> d in sizes
    ensures PackLayers(order, sizes).Ok? ==>
              && |PackLayers(order, sizes).value| == |order|
              && forall k :: 0 <= k < |order| ==>
                   order[k] in sizes && PackLayers(order, sizes).value[k] == PackLayerFor(order[k], sizes[order[k]])
  {
    if order != [] {
      var init, last := order[..|order| - 1], order[|order| - 1];
      PackLayersShape(init, sizes);
      assert order == init + [last];
    }
  }

  lemma {:induction false} UnknownPackOnly(order: seq<Digest>, sizes: map<Digest, nat>)
    requires PackLayers(order, sizes).Err?
    ensures PackLayers(order, sizes).error.UnknownPack? && PackLayers(order, sizes).error.pack in order
    ensures PackLayers(order, sizes).error.pack !in sizes
  {
    var init := order[..|order| - 1];
    if PackLayers(init, sizes).Err? {
      UnknownPackOnly(init, sizes);
    }
  }

  /** What an upload of `file` adds to the registry and the manifest. */
  datatype Outcome = Outcome(contents: seq<Bytes>, pointer: Bytes, layers: Result<seq<Layer>, UploadError>)

  function ChunkedOutcome(packSizes: map<Digest, nat>, file: Bytes, title: string,
                          chunkCount: nat, p: PackPlan): Outcome
    requires IndexedInto(p) && AllInFile(file, p.newPacks)
  {
    var contents := PackBlobs(file, p.newPacks);
    var digests := Digests(contents);
    var refs := ResolvePlanned(p.planned, digests);
    var head := PointerLayerFor(CleanTitle(title), file, chunkCount, refs);
    Outcome(contents, PointerBytes(file, refs),
            match PackLayers(PackOrder(refs), AllSizes(packSizes, p.newPacks, digests))
            case Err(e) => Err(e)
            case Ok(layers) => Ok([head] + layers))
  }

  /** `feed` hands out each pack as it is closed, and at most one at a time. */
  lemma FeedEmits(index: map<Digest, DedupEntry>, packSize: nat, a: Acc, c: Chunk)
    requires AfterFeed(index, packSize, a, c).Ok?
    ensures var (b, emitted) := AfterFeed(index, packSize, a, c).value;
            b.newPacks == a.newPacks + emitted && |emitted| <= 1
  {
  }

  /** So what `feed` has handed out is a prefix of the final pack list, missing at most the last
      pack; and that one is missing exactly when it fell short of the pack size. */
  lemma EmittedArePrefix(index: map<Digest, DedupEntry>, packSize: nat, chunks: seq<Chunk>)
    requires packSize > 0 && FeedAll(index, packSize, chunks).Ok?
    ensures var (emitted, packs) :=
              (FeedAll(index, packSize, chunks).value.newPacks, Plan(index, packSize, chunks).value.newPacks);
            && emitted <= packs <= emitted + packs[Min(|emitted|, |packs|)..]
            && |packs| <= |emitted| + 1
            && (emitted != packs <==> packs != [] && Size(packs[|packs| - 1]) < packSize)
  {
    FeedAllInv(index, packSize, chunks);
  }

  /** One chunk that fills a pack by itself: nothing is left to send at the end, so the prefix is
      not strict. */
  lemma AllPacksEmitted(c: Chunk, packSize: nat)
    requires 0 < packSize <= c.size
    ensures FeedAll(map[], packSize, [c]).Ok? && Plan(map[], packSize, [c]).Ok?
    ensures FeedAll(map[], packSize, [c]).value.newPacks == Plan(map[], packSize, [c]).value.newPacks
            == [[Range(c.offset, c.size)]]
  {
    assert [c][..0] == [] && FeedAll(map[], packSize, []) == Ok(EMPTY);
    assert [] + [Range(c.offset, c.size)] == [Range(c.offset, c.size)];
  }

  /** Fed these chunks, the planner is still planning, and its packs are ranges of the file. */
  predicate PlansInFile(index: map<Digest, DedupEntry>, packSize: nat, file: Bytes, fed: seq<Chunk>) {
    match FeedAll(index, packSize, fed)
    case Err(_) => false
    case Ok(a) => a.plan.None? && AllInFile(file, a.newPacks)
  }

  predicate AlwaysInFile(index: map<Digest, DedupEntry>, packSize: nat, file: Bytes, chunks: seq<Chunk>) {
    forall n :: 0 <= n <= |chunks| ==> PlansInFile(index, packSize, file, chunks[..n])
  }

  /** Fed honest chunks, the planner never fails and only ever reads the file. */
  lemma HonestChunksInFile(index: map<Digest, DedupEntry>, packSize: nat, file: Bytes, chunks: seq<Chunk>)
    requires packSize > 0 && ChunksOf(file, chunks)
    ensures AlwaysInFile(index, packSize, file, chunks)
  {
    forall n | 0 <= n <= |chunks|
      ensures PlansInFile(index, packSize, file, chunks[..n])
    {
      FedReadsFile(index, packSize, file, chunks, n);
    }
  }

  lemma FedReadsFile(index: map<Digest, DedupEntry>, packSize: nat, file: Bytes, chunks: seq<Chunk>, n: nat)
    requires packSize > 0 && ChunksOf(file, chunks) && n <= |chunks|
    ensures PlansInFile(index, packSize, file, chunks[..n])
  {
    HonestChunksConsistent(index, file, chunks);
    FeedAllInv(index, packSize, chunks[..n]);
    var a := FeedAll(index, packSize, chunks[..n]).value;
    FirstNewAmong(index, chunks[..n]);
    ConcatSnoc(a.newPacks, a.cur);
    NewsInFile(file, FirstNew(index, chunks[..n]), a.newPacks + [a.cur]);
    assert forall k :: 0 <= k < |a.newPacks| ==> (a.newPacks + [a.cur])[k] == a.newPacks[k];
  }

  /** `packs` have been uploaded to a registry that held `before`, under `digests`. */
  predicate Sent(file: Bytes, packs: seq<NewPack>, before: Blobs, after: Blobs, digests: seq<Digest>) {
    && AllInFile(file, packs)
    && after == StoredAll(before, PackBlobs(file, packs))
    && digests == Digests(PackBlobs(file, packs))
  }

  lemma SentNone(file: Bytes, blobs: Blobs)
    ensures Sent(file, [], blobs, blobs, [])
  {
  }

  lemma PackBlobsSnoc(file: Bytes, packs: seq<NewPack>, pack: NewPack)
    requires AllInFile(file, packs) && InFile(file, pack)
    ensures AllInFile(file, packs + [pack])
    ensures PackBlobs(file, packs + [pack]) == PackBlobs(file, packs) + [PackBlob(file, pack)]
  {
  }

  lemma StoredAllSnoc(blobs: Blobs, contents: seq<Bytes>, content: Bytes)
    ensures StoredAll(blobs, contents + [content]) == Stored(StoredAll(blobs, contents), content)
    ensures Digests(contents + [content]) == Digests(contents) + [Sha256(content)]
  {
    assert (contents + [content])[..|contents|] == contents;
  }

  lemma SentOne(file: Bytes, packs: seq<NewPack>, before: Blobs, after: Blobs, digests: seq<Digest>, pack: NewPack)
    requires Sent(file, packs, before, after, digests) && InFile(file, pack)
    ensures var blob := PackBlob(file, pack);
            Sent(file, packs + [pack], before, Stored(after, blob), digests + [Sha256(blob)])
  {
    PackBlobsSnoc(file, packs, pack);
    StoredAllSnoc(before, PackBlobs(file, packs), PackBlob(file, pack));
  }

  /** A registry that held `before` has since stored some blobs. */
  ghost predicate Reached(before: Blobs, after: Blobs) {
    exists contents :: after == StoredAll(before, contents)
  }

  lemma SentReached(file: Bytes, packs: seq<NewPack>, before: Blobs, after: Blobs, digests: seq<Digest>, content: Bytes)
    requires Sent(file, packs, before, after, digests)
    ensures Reached(before, after) && Reached(before, Stored(after, content))
  {
    var contents := PackBlobs(file, packs);
    StoredAllSnoc(before, contents, content);
    assert after == StoredAll(before, contents);
    assert Stored(after, content) == StoredAll(before, contents + [content]);
  }

  lemma ReachedGrows(before: Blobs, after: Blobs)
    requires Reached(before, after) && ContentAddressed(before)
    ensures ContentAddressed(after) && Grows(before, after)
  {
    var contents :| after == StoredAll(before, contents);
    StoredAllGrows(before, contents);
  }

  /** Upload one more pack. */
  method UploadPack(file: Bytes, ghost sent: seq<NewPack>, pack: NewPack, digests: seq<Digest>,
                    registry: Registry, ghost before: Blobs)
    returns (all: seq<Digest>, ok: bool)
    requires Sent(file, sent, before, registry.blobs, digests) && InFile(file, pack)
    modifies registry
    ensures ok ==> Sent(file, sent + [pack], before, registry.blobs, all)
    ensures !ok ==> Reached(before, registry.blobs)
    ensures registry.failures == old(registry.failures) + (if ok then 0 else 1)
  {
    var blob := PackBlob(file, pack);
    SentOne(file, sent, before, registry.blobs, digests, pack);
    SentReached(file, sent, before, registry.blobs, digests, blob);
    ok := registry.PutBlob(blob);
    all := digests + [Sha256(blob)];
  }

  /** Upload `packs`, after those already sent. */
  method UploadPacks(file: Bytes, ghost sent: seq<NewPack>, packs: seq<NewPack>, digests: seq<Digest>,
                     registry: Registry, ghost before: Blobs)
    returns (all: seq<Digest>, ok: bool)
    requires Sent(file, sent, before, registry.blobs, digests) && AllInFile(file, packs)
    modifies registry
    ensures ok ==> Sent(file, sent + packs, before, registry.blobs, all)
    ensures !ok ==> Reached(before, registry.blobs)
    ensures registry.failures == old(registry.failures) + (if ok then 0 else 1)
  {
    all, ok := digests, true;
    assert sent + packs[..0] == sent;
    for k := 0 to |packs|
      invariant Sent(file, sent + packs[..k], before, registry.blobs, all)
      invariant registry.failures == old(registry.failures)
    {
      assert (sent + packs[..k]) + [packs[k]] == sent + packs[..k + 1];
      all, ok := UploadPack(file, sent + packs[..k], packs[k], all, registry, before);
      if !ok {
        return;
      }
    }
    assert packs[..|packs|] == packs;
    ok := true;
  }

  /** The planner has been fed `fed`, and every pack it completed has been sent. */
  ghost predicate Streaming(file: Bytes, fed: seq<Chunk>, acc: PackAccumulator, digests: seq<Digest>,
                            registry: Registry, before: Blobs)
    reads acc, registry
  {
    && FeedAll(acc.dedupIndex, acc.packSize, fed) == Ok(acc.State())
    && Sent(file, acc.newPacks, before, registry.blobs, digests)
  }

  lemma StreamingStart(file: Bytes, acc: PackAccumulator, registry: Registry)
    requires acc.State() == EMPTY
    ensures Streaming(file, [], acc, [], registry, registry.blobs)
  {
    SentNone(file, registry.blobs);
  }

  /** Feed one chunk, uploading the pack it completes, if any. */
  method FeedOne(file: Bytes, ghost chunks: seq<Chunk>, ghost n: nat, c: Chunk, acc: PackAccumulator,
                 digests: seq<Digest>, registry: Registry, ghost before: Blobs)
    returns (all: seq<Digest>, ok: bool)
    requires AlwaysInFile(acc.dedupIndex, acc.packSize, file, chunks)
    requires n < |chunks| && c == chunks[n]
    requires Streaming(file, chunks[..n], acc, digests, registry, before)
    modifies acc, registry
    ensures ok ==> Streaming(file, chunks[..n + 1], acc, all, registry, before)
    ensures !ok ==> Reached(before, registry.blobs)
    ensures registry.failures == old(registry.failures) + (if ok then 0 else 1)
  {
    assert chunks[..n + 1][..n] == chunks[..n];
    assert PlansInFile(acc.dedupIndex, acc.packSize, file, chunks[..n + 1]);
    FeedEmits(acc.dedupIndex, acc.packSize, acc.State(), c);
    ghost var sent := acc.newPacks;
    var fed := acc.Feed(c);
    assert acc.newPacks == sent + fed.value;
    EmittedInFile(file, sent, fed.value);
    all, ok := UploadPacks(file, sent, fed.value, digests, registry, before);
  }

  method FeedBatch(file: Bytes, ghost chunks: seq<Chunk>, ghost n: nat, batch: seq<Chunk>, acc: PackAccumulator,
                   digests: seq<Digest>, registry: Registry, ghost before: Blobs)
    returns (all: seq<Digest>, ok: bool)
    requires AlwaysInFile(acc.dedupIndex, acc.packSize, file, chunks)
    requires n + |batch| <= |chunks| && batch == chunks[n..n + |batch|]
    requires Streaming(file, chunks[..n], acc, digests, registry, before)
    modifies acc, registry
    ensures ok ==> Streaming(file, chunks[..n + |batch|], acc, all, registry, before)
    ensures !ok ==> Reached(before, registry.blobs)
    ensures registry.failures == old(registry.failures) + (if ok then 0 else 1)
  {
    hide FeedAll, Sent;
    all, ok := digests, true;
    for i := 0 to |batch|
      invariant Streaming(file, chunks[..n + i], acc, all, registry, before)
      invariant registry.failures == old(registry.failures)
    {
      assert batch[i] == chunks[n + i];
      all, ok := FeedOne(file, chunks, n + i, batch[i], acc, all, registry, before);
      if !ok {
        return;
      }
    }
    ok := true;
  }

  method FeedBatches(file: Bytes, batches: seq<seq<Chunk>>, acc: PackAccumulator, registry: Registry, ghost before: Blobs)
    returns (digests: seq<Digest>, chunkCount: nat, ok: bool)
    requires acc.State() == EMPTY && registry.blobs == before
    requires AlwaysInFile(acc.dedupIndex, acc.packSize, file, Concat(batches))
    modifies acc, registry
    ensures ok ==> Streaming(file, Concat(batches), acc, digests, registry, before) && chunkCount == |Concat(batches)|
    ensures !ok ==> Reached(before, registry.blobs)
    ensures registry.failures == old(registry.failures) + (if ok then 0 else 1)
  {
    hide FeedAll, Sent, Concat;
    ghost var chunks := Concat(batches);
    ghost var starts := BatchStarts(batches);
    StreamingStart(file, acc, registry);
    assert chunks[..0] == [];
    digests, chunkCount, ok := [], 0, true;
    for b := 0 to |batches|
      invariant chunkCount == starts[b] <= |chunks|
      invariant Streaming(file, chunks[..starts[b]], acc, digests, registry, before)
      invariant registry.failures == old(registry.failures)
    {
      assert InBatch(batches, chunks, starts, b);
      digests, ok := FeedBatch(file, chunks, starts[b], batches[b], acc, digests, registry, before);
      if !ok {
        return;
      }
      chunkCount := chunkCount + |batches[b]|;
    }
    assert chunks[..|chunks|] == chunks;
    ok := true;
  }

  /** Batch `b` is the part of the chunk list between two starts. */
  predicate InBatch(batches: seq<seq<Chunk>>, chunks: seq<Chunk>, starts: seq<nat>, b: nat)
    requires b < |batches| && |starts| == |batches| + 1
  {
    && starts[b] + |batches[b]| == starts[b + 1] <= |chunks|
    && chunks[starts[b]..starts[b + 1]] == batches[b]
  }

  /** Where each batch starts in the chunk list. */
  lemma BatchStarts(batches: seq<seq<Chunk>>) returns (starts: seq<nat>)
    ensures |starts| == |batches| + 1 && starts[0] == 0 && starts[|batches|] == |Concat(batches)|
    ensures forall b :: 0 <= b < |batches| ==> InBatch(batches, Concat(batches), starts, b)
  {
    starts := seq(|batches| + 1, b requires 0 <= b <= |batches| => |Concat(batches[..b])|);
    assert batches[..0] == [] && batches[..|batches|] == batches;
    forall b | 0 <= b < |batches|
      ensures InBatch(batches, Concat(batches), starts, b)
    {
      BatchPosition(batches, b);
    }
  }

  lemma EmittedInFile(file: Bytes, sent: seq<NewPack>, emitted: seq<NewPack>)
    requires AllInFile(file, sent + emitted)
    ensures AllInFile(file, emitted)
  {
    assert forall k :: 0 <= k < |emitted| ==> emitted[k] == (sent + emitted)[|sent| + k];
  }

  lemma RestOfPacks(index: map<Digest, DedupEntry>, packSize: nat, chunks: seq<Chunk>, a: Acc, file: Bytes)
    requires packSize > 0 && FeedAll(index, packSize, chunks) == Ok(a)
    requires AllInFile(file, Plan(index, packSize, chunks).value.newPacks)
    ensures AfterFinish(a).plan == Some(Plan(index, packSize, chunks).value)
    ensures |a.newPacks| <= |Plan(index, packSize, chunks).value.newPacks|
    ensures var rest := Plan(index, packSize, chunks).value.newPacks[|a.newPacks|..];
            a.newPacks + rest == Plan(index, packSize, chunks).value.newPacks && AllInFile(file, rest)
  {
    FeedAllInv(index, packSize, chunks);
    FinishShape(a);
    EmittedArePrefix(index, packSize, chunks);
    var packs := Plan(index, packSize, chunks).value.newPacks;
    assert a.newPacks + packs[|a.newPacks|..] == packs;
    EmittedInFile(file, a.newPacks, packs[|a.newPacks|..]);
  }

  /** Finish planning and send the pack that was still open, if any. */
  method SendRest(file: Bytes, ghost chunks: seq<Chunk>, acc: PackAccumulator, digests: seq<Digest>,
                  registry: Registry, ghost before: Blobs)
    returns (plan: PackPlan, all: seq<Digest>, ok: bool)
    requires acc.packSize > 0 && Streaming(file, chunks, acc, digests, registry, before)
    requires Plan(acc.dedupIndex, acc.packSize, chunks).Ok?
    requires AllInFile(file, Plan(acc.dedupIndex, acc.packSize, chunks).value.newPacks)
    modifies acc, registry
    ensures plan == Plan(acc.dedupIndex, acc.packSize, chunks).value
    ensures ok ==> Sent(file, plan.newPacks, before, registry.blobs, all)
    ensures !ok ==> Reached(before, registry.blobs)
    ensures registry.failures == old(registry.failures) + (if ok then 0 else 1)
  {
    ghost var sent, a := acc.newPacks, acc.State();
    RestOfPacks(acc.dedupIndex, acc.packSize, chunks, a, file);
    plan := acc.Finish();
    var rest := plan.newPacks[|digests|..];
    all, ok := UploadPacks(file, sent, rest, digests, registry, before);
  }

  /** Stream the chunks in batches, uploading packs as they complete, then the pointer. The
      result is the one the batch planner describes, and a failure leaves the registry with
      some of the new blobs and everything it had. */
  method UploadChunked(file: Bytes, title: string, batches: seq<seq<Chunk>>, registry: Registry,
                       index: map<Digest, DedupEntry>, packSizes: map<Digest, nat>, packSize: nat)
    returns (r: Result<seq<Layer>, UploadError>)
    requires packSize > 0 && ChunksOf(file, Concat(batches)) && ContentAddressed(registry.blobs)
    modifies registry
    ensures Plan(index, packSize, Concat(batches)).Ok?
    ensures var p := Plan(index, packSize, Concat(batches)).value;
            && IndexedInto(p) && AllInFile(file, p.newPacks)
            && var o := ChunkedOutcome(packSizes, file, title, |Concat(batches)|, p);
               && (r != Err(PutFailed) ==>
                     && r == o.layers
                     && registry.blobs == Stored(StoredAll(old(registry.blobs), o.contents), o.pointer))
    ensures registry.failures == old(registry.failures) + (if r == Err(PutFailed) then 1 else 0)
    ensures ContentAddressed(registry.blobs) && Grows(old(registry.blobs), registry.blobs)
  {
    ghost var chunks, before := Concat(batches), registry.blobs;
    HonestChunksPlan(index, packSize, file, chunks);
    HonestChunksInFile(index, packSize, file, chunks);
    var acc := new PackAccumulator(index, packSize);
    var digests, chunkCount, ok := FeedBatches(file, batches, acc, registry, before);
    if !ok {
      ReachedGrows(before, registry.blobs);
      return Err(PutFailed);
    }
    var plan;
    plan, digests, ok := SendRest(file, chunks, acc, digests, registry, before);
    if !ok {
      ReachedGrows(before, registry.blobs);
      return Err(PutFailed);
    }
    r := FinishUpload(file, title, chunkCount, plan, digests, registry, packSizes, before);
  }

  /** The sizes of the packs just built, added to those of the prior revision. */
  method AddSizes(packSizes: map<Digest, nat>, packs: seq<NewPack>, digests: seq<Digest>) returns (sizes: map<Digest, nat>)
    requires |digests| == |packs|
    ensures sizes == AllSizes(packSizes, packs, digests)
  {
    sizes := packSizes;
    for k := 0 to |packs|
      invariant sizes == AllSizes(packSizes, packs[..k], digests[..k])
    {
      assert packs[..k + 1][..k] == packs[..k] && digests[..k + 1][..k] == digests[..k];
      sizes := sizes[digests[k] := Size(packs[k])];
    }
    assert packs[..|packs|] == packs && digests[..|digests|] == digests;
  }

  /** The end of an upload: resolve, store the pointer, list the packs. */
  method FinishUpload(file: Bytes, title: string, chunkCount: nat, plan: PackPlan, digests: seq<Digest>,
                      registry: Registry, packSizes: map<Digest, nat>, ghost before: Blobs)
    returns (r: Result<seq<Layer>, UploadError>)
    requires IndexedInto(plan) && ContentAddressed(before)
    requires Sent(file, plan.newPacks, before, registry.blobs, digests)
    modifies registry
    ensures var o := ChunkedOutcome(packSizes, file, title, chunkCount, plan);
            r != Err(PutFailed) ==> r == o.layers && registry.blobs == Stored(StoredAll(before, o.contents), o.pointer)
    ensures ContentAddressed(registry.blobs) && Grows(before, registry.blobs)
    ensures registry.failures == old(registry.failures) + (if r == Err(PutFailed) then 1 else 0)
  {
    hide PointerV2Bytes, PackLayers, AllSizes, PackOrder, ResolvePlanned, Sha256, StoredAll, AllInFile, ContentAddressed;
    StoredAllGrows(before, PackBlobs(file, plan.newPacks));
    var resolved := ResolvePointerChunks(plan, digests);
    var refs := resolved.value;
    var pointer := PointerBytes(file, refs);
    StoredGrows(registry.blobs, pointer);
    var ok := registry.PutBlob(pointer);
    if !ok {
      return Err(PutFailed);
    }
    var sizes := AddSizes(packSizes, plan.newPacks, digests);
    var packLayers := ListPacks(refs, sizes);
    if packLayers.Err? {
      UnknownPackOnly(PackOrder(refs), sizes);
      return Err(packLayers.error);
    }
    return Ok([PointerLayerFor(CleanTitle(title), file, chunkCount, refs)] + packLayers.value);
  }

  lemma BatchPosition(batches: seq<seq<Chunk>>, b: nat)
    requires b < |batches|
    ensures var n := |Concat(batches[..b])|;
            && n + |batches[b]| <= |Concat(batches)|
            && Concat(batches)[n..n + |batches[b]|] == batches[b]
            && |Concat(batches[..b + 1])| == n + |batches[b]|
  {
    assert batches[..b + 1] == batches[..b] + [batches[b]];
    ConcatSnoc(batches[..b], batches[b]);
    assert batches == batches[..b + 1] + batches[b + 1..];
    ConcatAppend(batches[..b + 1], batches[b + 1..]);
  }
}
