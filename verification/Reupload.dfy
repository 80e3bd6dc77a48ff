/** Committing again after the registry lost a blob (hippius_hub/file_upload.py). */
module Reupload {
  import opened Basics
  import opened Text
  import opened Packing
  import opened PackStore
  import opened Manifest
  import opened ManifestFiles
  import opened Upload
  import opened StoredFiles
  import opened Versions
  import opened DedupIndex
  import opened History
  import opened UploadFile
  import opened ReuploadHeals
  import C = Commit

  /** One file to upload, the settings in force, and how often its manifest's PUT is retried. */
  datatype Job = Job(title: string, content: Bytes, batches: seq<seq<Chunk>>, layout: Layout, packSize: nat,
                     putRetries: nat)

  function Chunks(job: Job): seq<Chunk> {
    Concat(job.batches)
  }

  function AsNew(job: Job): NewFile {
    AsUpload(job.title, job.content, Chunks(job), job.layout)
  }

  /** Where an attempt that was given up had got to. */
  datatype Stage = NoRead | NoIndex(indexError: IndexError) | NoUpload(uploadError: UploadError) | NotPut(put: C.PutResult)

  /** How one whole attempt ended. */
  datatype CommitResult = Committed | BlobUnknown(missing: set<Digest>) | CommitFailed(stage: Stage)

  /** One attempt: the packs it was told to avoid, what the registry held, the manifest it read, the
      layers it listed, what it uploaded, what its PUTs were answered, and what the registry held
      after it. */
  datatype Attempt = Attempt(
    exclude: set<Digest>,
    start: Blobs,
    read: Option<C.Read>,
    newLayers: seq<Layer>,
    uploaded: seq<Digest>,
    replies: seq<C.Reply>,
    after: Blobs,
    result: CommitResult)

  function PriorOf(a: Attempt): Option<seq<Layer>> {
    if a.read.Some? && a.read.value.doc.Some? then Some(a.read.value.doc.value.layers) else None
  }

  predicate ListedBy(prior: Option<seq<Layer>>, pack: Digest) {
    prior.Some? && Listed(prior.value, pack)
  }

  /** Every pack that the new layers list was uploaded in this attempt, or comes from the prior
      revision and is not excluded. */
  predicate Heals(a: Attempt) {
    forall j :: 1 <= j < |a.newLayers| ==>
      && a.newLayers[j].mediaType == PackLayer
      && (a.newLayers[j].digest in a.uploaded
          || (a.newLayers[j].digest !in a.exclude && ListedBy(PriorOf(a), a.newLayers[j].digest)))
  }

  /** The attempt got as far as its manifest. */
  predicate AtManifest(a: Attempt) {
    a.replies != []
  }

  /** How an attempt ends follows from its last reply, when there is one: it commits on a success
      only, and reports a missing blob only when the last of all retries was so answered. */
  predicate EndsRightly(job: Job, a: Attempt) {
    && (a.result == Committed <==> AtManifest(a) && C.ResultOf(a.replies[|a.replies| - 1]) == C.Published)
    && (a.result.BlobUnknown? <==> AtManifest(a) && C.ResultOf(a.replies[|a.replies| - 1]) == C.MissingBlob)
    && (a.result.BlobUnknown? ==>
          |a.replies| == job.putRetries + 1 && a.replies[job.putRetries] == C.Status(400, true))
    && (AtManifest(a) && a.result.CommitFailed? ==>
          a.result.stage == NotPut(C.ResultOf(a.replies[|a.replies| - 1])))
    && (!AtManifest(a) ==> a.result.CommitFailed? && !a.result.stage.NotPut?)
  }

  /** An attempt that reached its manifest had uploaded everything it lists anew: what it uploaded,
      and the blob that heads its layers, are in the registry. */
  predicate UploadedFirst(job: Job, a: Attempt) {
    AtManifest(a) ==>
      && a.newLayers != [] && a.newLayers[0].title == Some(CleanTitle(job.title)) && a.newLayers[0].digest in a.after
      && (forall d :: d in a.uploaded ==> d in a.after)
      && (a.newLayers[0].mediaType == PointerLayer <==>
            |job.content| >= job.layout.threshold && job.layout.chunkedWrites)
      && if a.newLayers[0].mediaType == PointerLayer then
           a.newLayers[0].file == Some(FileAnnotations(|Chunks(job)|, |job.content|, Sha256(job.content)))
         else
           a.newLayers == [PlainLayerFor(CleanTitle(job.title), job.content)] && HasBlob(a.after, job.content)
  }

  /** The manifest that was read once described stored files, none of their pointers is gone, and
      everything that is gone is excluded. */
  ghost predicate Covered(start: Blobs, layers: seq<Layer>, exclude: set<Digest>) {
    exists whole: Blobs, files :: CoveredBy(whole, files, start, layers, exclude)
  }

  ghost predicate CoveredBy(whole: Blobs, files: Contents, start: Blobs, layers: seq<Layer>, exclude: set<Digest>) {
    && ContentAddressed(whole) && Stores(whole, layers, files) && Files(layers).Ok?
    && PointersLeft(layers, whole.Keys - start.Keys)
    && whole.Keys - start.Keys <= exclude
  }

  /** Such an attempt gets past its index and its uploads unless a request fails, and then the new
      group can be read back from the registry, stored the way the file's size demands. */
  ghost predicate Healed(job: Job, a: Attempt) {
    Honest(job.packSize, AsNew(job)) && (PriorOf(a).Some? ==> Covered(a.start, PriorOf(a).value, a.exclude)) ==>
      && (a.result.CommitFailed? ==>
            a.result.stage.NoRead? || a.result.stage == NoUpload(PutFailed) || a.result.stage.NotPut?)
      && (AtManifest(a) ==>
            var g := NewGroup(job.title, a.newLayers);
            && GroupStores(a.after, g, job.content)
            && if |job.content| >= job.layout.threshold && job.layout.chunkedWrites
               then CutAs(a.after, g, job.content, Chunks(job))
               else PlainGroup(a.after, g, job.content))
  }

  /** All that an attempt keeps to. */
  ghost predicate Faithful(job: Job, a: Attempt) {
    && ContentAddressed(a.start) && ContentAddressed(a.after) && Grows(a.start, a.after)
    && Heals(a) && EndsRightly(job, a) && UploadedFirst(job, a) && Healed(job, a)
  }

  lemma IndexAvoids(prior: Option<seq<Layer>>, blobs: Blobs, exclude: set<Digest>)
    requires BuildIndex(prior, blobs, exclude).Ok?
    ensures forall d :: d in BuildIndex(prior, blobs, exclude).value.1 ==> d !in exclude && ListedBy(prior, d)
  {
    if prior.Some? {
      PackSizesSpec(prior.value, exclude);
    }
  }

  /** A larger store answers the same fetches. */
  lemma {:induction false} FetchGrows(blobs: Blobs, blobs': Blobs, digests: seq<Digest>)
    requires Grows(blobs, blobs') && FetchAll(blobs, digests).Ok?
    ensures FetchAll(blobs', digests) == FetchAll(blobs, digests)
  {
    if digests != [] {
      FetchGrows(blobs, blobs', digests[..|digests| - 1]);
    }
  }

  lemma IndexGrows(layers: seq<Layer>, blobs: Blobs, blobs': Blobs, exclude: set<Digest>)
    requires Grows(blobs, blobs') && BuildIndex(Some(layers), blobs, exclude).Ok?
    ensures BuildIndex(Some(layers), blobs', exclude) == BuildIndex(Some(layers), blobs, exclude)
  {
    hide Grows, FetchAll;
    FetchGrows(blobs, blobs', PointersOf(Files(layers).value));
  }

  /** Whatever is there still is what it was. */
  lemma RestGrows(whole: Blobs, start: Blobs)
    requires ContentAddressed(whole) && ContentAddressed(start)
    ensures Grows(whole - (whole.Keys - start.Keys), start)
  {
    hide Sha256;
    var gone := whole.Keys - start.Keys;
    forall d | d in whole - gone
      ensures d in start && start[d] == (whole - gone)[d]
    {
      assert Sha256(whole[d]) == Sha256(start[d]);
      Sha256Injective(whole[d], start[d]);
    }
  }

  /** With all that is gone excluded, the index builds and an upload may trust it. */
  lemma CoveredIndex(whole: Blobs, files: Contents, start: Blobs, layers: seq<Layer>, exclude: set<Digest>)
    requires ContentAddressed(start) && CoveredBy(whole, files, start, layers, exclude)
    ensures BuildIndex(Some(layers), start, exclude).Ok?
    ensures var (index, sizes) := BuildIndex(Some(layers), start, exclude).value; Ready(start, index, sizes)
  {
    hide Stores, BuildIndex, PointersLeft, Ready, Grows, ContentAddressed;
    var gone := whole.Keys - start.Keys;
    LostIndex(whole, layers, files, gone, exclude);
    RestGrows(whole, start);
    IndexGrows(layers, whole - gone, start, exclude);
    var (index, sizes) := BuildIndex(Some(layers), start, exclude).value;
    ReadyGrows(whole - gone, start, index, sizes);
  }

  /** An upload from there is stored. */
  lemma CoveredUpload(job: Job, start: Blobs, prior: Option<seq<Layer>>, exclude: set<Digest>)
    requires ContentAddressed(start) && Honest(job.packSize, AsNew(job))
    requires prior.Some? ==> Covered(start, prior.value, exclude)
    ensures BuildIndex(prior, start, exclude).Ok?
    ensures var (index, sizes) := BuildIndex(prior, start, exclude).value;
            var (after, layers) := UploadOne(start, index, sizes, job.packSize, AsNew(job));
            && layers.Ok?
            && GroupStores(after, NewGroup(job.title, layers.value), job.content)
            && if |job.content| >= job.layout.threshold && job.layout.chunkedWrites
               then CutAs(after, NewGroup(job.title, layers.value), job.content, Chunks(job))
               else PlainGroup(after, NewGroup(job.title, layers.value), job.content)
  {
    hide UploadOne, Honest, GroupStores, CutAs, PlainGroup, BuildIndex, Ready;
    if prior.Some? {
      var whole: Blobs, files :| CoveredBy(whole, files, start, prior.value, exclude);
      CoveredIndex(whole, files, start, prior.value, exclude);
    } else {
      NothingReady(start, exclude);
    }
    var (index, sizes) := BuildIndex(prior, start, exclude).value;
    UploadOneStores(start, index, sizes, job.packSize, AsNew(job));
  }

  lemma NothingReady(blobs: Blobs, exclude: set<Digest>)
    requires ContentAddressed(blobs)
    ensures BuildIndex(None, blobs, exclude) == Ok((map[], map[])) && Ready(blobs, map[], map[])
  {
  }

  /** A file stored whole needs no index. */
  lemma WholeIgnoresIndex(job: Job, start: Blobs, index: Index, sizes: map<Digest, nat>)
    requires Honest(job.packSize, AsNew(job))
    requires !(|job.content| >= job.layout.threshold && job.layout.chunkedWrites)
    ensures UploadOne(start, index, sizes, job.packSize, AsNew(job)) == UploadOne(start, map[], map[], job.packSize, AsNew(job))
  {
  }

  /** A PUT of the attempt carries the new layers merged into the manifest it read, and, when the
      read gave its digest, demands that the manifest is still that one. */
  predicate Carries(a: Attempt, q: C.Request) {
    && a.read.Some?
    && q.doc.layers == Merge(C.LayersIn(a.read.value.doc), a.newLayers, {})
    && q.ifMatch == (if a.read.value.header then a.read.value.doc else None)
  }

  /** What an attempt lists and stores is what uploading comes to with the index of the manifest it
      read, so a chunk that is stored there, in a pack it may use, is not uploaded again. */
  ghost predicate Reuses(job: Job, a: Attempt) {
    AtManifest(a) && a.read.Some? && a.read.value.doc.Some? && Honest(job.packSize, AsNew(job))
    && |job.content| >= job.layout.threshold && job.layout.chunkedWrites ==>
      var built := BuildIndex(Some(a.read.value.doc.value.layers), a.start, a.exclude);
      built.Ok? && UploadOne(a.start, built.value.0, built.value.1, job.packSize, AsNew(job)) == (a.after, Ok(a.newLayers))
  }

  lemma GivenUp(job: Job, a: Attempt)
    requires ContentAddressed(a.start) && ContentAddressed(a.after) && Grows(a.start, a.after)
    requires a.newLayers == [] && a.replies == [] && a.result.CommitFailed?
    requires match a.result.stage
             case NoRead => true
             case NoIndex(e) => BuildIndex(PriorOf(a), a.start, a.exclude) == Err(e)
             case NoUpload(e) => e == PutFailed || (
               && BuildIndex(PriorOf(a), a.start, a.exclude).Ok?
               && var (index, sizes) := BuildIndex(PriorOf(a), a.start, a.exclude).value;
                  Honest(job.packSize, AsNew(job)) ==>
                    UploadOne(a.start, index, sizes, job.packSize, AsNew(job)).1 == Err(e))
             case NotPut(_) => false
    ensures Faithful(job, a) && Reuses(job, a)
  {
    if Honest(job.packSize, AsNew(job)) && (PriorOf(a).Some? ==> Covered(a.start, PriorOf(a).value, a.exclude)) {
      CoveredUpload(job, a.start, PriorOf(a), a.exclude);
    }
  }

  /** The attempt as far as its uploads, before its result is known. */
  lemma UploadedAll(job: Job, a: Attempt, index: Index, sizes: map<Digest, nat>)
    requires ContentAddressed(a.start) && ContentAddressed(a.after) && Grows(a.start, a.after)
    requires AtManifest(a) && EndsRightly(job, a)
    requires LayersFor(a.newLayers, a.uploaded, a.after, sizes, job.title, job.content, Chunks(job), job.layout)
    requires if |job.content| >= job.layout.threshold && job.layout.chunkedWrites
             then BuildIndex(PriorOf(a), a.start, a.exclude) == Ok((index, sizes))
             else index == map[] && sizes == map[]
    requires a.read.Some?
    requires Honest(job.packSize, AsNew(job)) ==>
               UploadOne(a.start, index, sizes, job.packSize, AsNew(job)) == (a.after, Ok(a.newLayers))
    ensures Faithful(job, a) && Reuses(job, a)
  {
    hide BuildIndex, UploadOne, Honest, GroupStores, CutAs, Grows, ContentAddressed, Covered;
    if |job.content| >= job.layout.threshold && job.layout.chunkedWrites {
      IndexAvoids(PriorOf(a), a.start, a.exclude);
    }
    if Honest(job.packSize, AsNew(job)) && (PriorOf(a).Some? ==> Covered(a.start, PriorOf(a).value, a.exclude)) {
      CoveredUpload(job, a.start, PriorOf(a), a.exclude);
      if !(|job.content| >= job.layout.threshold && job.layout.chunkedWrites) {
        var built := BuildIndex(PriorOf(a), a.start, a.exclude).value;
        WholeIgnoresIndex(job, a.start, built.0, built.1);
      }
    }
  }

  lemma LosingShrinks(blobs: Blobs, lost: set<Digest>)
    requires ContentAddressed(blobs)
    ensures ContentAddressed(blobs - lost) && Grows(blobs - lost, blobs) && Grows(blobs - lost, blobs - lost)
  {
  }

  /** The manifest of the merged layers, and what its PUTs come to. */
  method Publish(job: Job, read: C.Read, newLayers: seq<Layer>, rev: C.Revision)
    returns (r: CommitResult, replies: seq<C.Reply>, ghost q: C.Request)
    modifies rev
    ensures replies != []
    ensures forall a: Attempt :: a.replies == replies && a.result == r ==> EndsRightly(job, a)
    ensures forall a: Attempt :: a.read == Some(read) && a.newLayers == newLayers ==> Carries(a, q)
    ensures C.SentOnly(old(rev.sent), rev.sent, |replies|, q) && (r == Committed ==> rev.tag == Some(q.doc))
    ensures r != CommitFailed(NoRead) && r != CommitFailed(NoUpload(PutFailed))
    ensures rev.seen == old(rev.seen) && rev.misses == old(rev.misses)
  {
    hide Merge, C.Transient, C.SentOnly;
    var merged := MergeLayers(C.LayersIn(read.doc), newLayers, {});
    var stamp: nat := *;
    var ifMatch := if read.header then read.doc else None;
    q := C.Request(C.Doc(merged, stamp), ifMatch);
    var put;
    put, replies := C.PutManifest(rev, C.Doc(merged, stamp), ifMatch, job.putRetries);
    if put == C.Published {
      r := Committed;
    } else if put == C.MissingBlob {
      var missing: set<Digest> := *;
      r := BlobUnknown(missing);
    } else {
      r := CommitFailed(NotPut(put));
    }
  }

  /** One attempt at a whole upload and commit. The registry may have lost blobs before it, and
      answers the manifest as it likes. */
  method RunCommit(job: Job, exclude: set<Digest>, rev: C.Revision, registry: Registry)
    returns (r: CommitResult, ghost attempt: Attempt)
    requires Splittable(job.packSize, job.content, Chunks(job), job.layout) && ContentAddressed(registry.blobs)
    modifies registry, rev
    ensures attempt.exclude == exclude && attempt.result == r && attempt.after == registry.blobs
    ensures Grows(attempt.start, old(registry.blobs))
    ensures Faithful(job, attempt) && Reuses(job, attempt)
    ensures rev.seen == old(rev.seen) + (if attempt.read.Some? then [attempt.read.value] else [])
    ensures rev.misses == old(rev.misses) + (if r == CommitFailed(NoRead) then 1 else 0)
    ensures registry.failures == old(registry.failures) + (if r == CommitFailed(NoUpload(PutFailed)) then 1 else 0)
    ensures AtManifest(attempt) ==>
              exists q ::
                && Carries(attempt, q) && C.SentOnly(old(rev.sent), rev.sent, |attempt.replies|, q)
                && (r == Committed ==> rev.tag == Some(q.doc))
    ensures !AtManifest(attempt) ==> rev.sent == old(rev.sent)
  {
    hide Faithful, Reuses, BuildIndex, UploadOne, LayersFor, Honest, Splittable, ContentAddressed, Grows, EndsRightly,
      Carries, C.SentOnly;
    var lost: set<Digest> := *;
    LosingShrinks(registry.blobs, lost);
    registry.blobs := registry.blobs - lost;
    ghost var start := registry.blobs;
    var read := rev.Fetch();
    if read.None? {
      r := CommitFailed(NoRead);
      attempt := Attempt(exclude, start, None, [], [], [], start, r);
      GivenUp(job, attempt);
      return;
    }
    var prior := if read.value.doc.Some? then Some(read.value.doc.value.layers) else None;
    var index: Index, sizes: map<Digest, nat> := map[], map[];
    if |job.content| >= job.layout.threshold && job.layout.chunkedWrites {
      var built := BuildDedupIndex(prior, registry.blobs, exclude);
      if built.Err? {
        r := CommitFailed(NoIndex(built.error));
        attempt := Attempt(exclude, start, read, [], [], [], start, r);
        GivenUp(job, attempt);
        return;
      }
      index, sizes := built.value.0, built.value.1;
    }
    var layers;
    ghost var uploaded;
    layers, uploaded := UploadFileLayers(job.title, job.content, job.batches, job.layout, job.packSize, registry, index, sizes);
    if layers.Err? {
      r := CommitFailed(NoUpload(layers.error));
      attempt := Attempt(exclude, start, read, [], [], [], registry.blobs, r);
      GivenUp(job, attempt);
      return;
    }
    var replies;
    ghost var q;
    r, replies, q := Publish(job, read.value, layers.value, rev);
    attempt := Attempt(exclude, start, read, layers.value, uploaded, replies, registry.blobs, r);
    UploadedAll(job, attempt, index, sizes);
  }

  /** The digests that failed attempts have named. */
  function NamedBy(attempts: seq<Attempt>): set<Digest> {
    if attempts == [] then
      {}
    else
      var last := attempts[|attempts| - 1].result;
      NamedBy(attempts[..|attempts| - 1]) + (if last.BlobUnknown? then last.missing else {})
  }

  predicate LostBlob(attempts: seq<Attempt>) {
    attempts != [] ==> attempts[|attempts| - 1].result.BlobUnknown?
  }

  /** What the registry held when the next attempt was made. */
  function LeftBy(initial: Blobs, attempts: seq<Attempt>): Blobs {
    if attempts == [] then initial else attempts[|attempts| - 1].after
  }

  /** Each attempt came after one that lost a blob, found at most what that one had left, avoided
      exactly the digests named so far, and was faithful. */
  ghost predicate GoodAttempts(job: Job, initial: Blobs, attempts: seq<Attempt>) {
    attempts == [] || (
      var init, last := attempts[..|attempts| - 1], attempts[|attempts| - 1];
      && GoodAttempts(job, initial, init) && LostBlob(init)
      && Grows(last.start, LeftBy(initial, init)) && last.exclude == NamedBy(init)
      && Faithful(job, last) && Reuses(job, last))
  }

  lemma OneMore(job: Job, initial: Blobs, attempts: seq<Attempt>, a: Attempt)
    requires GoodAttempts(job, initial, attempts) && LostBlob(attempts)
    requires Grows(a.start, LeftBy(initial, attempts)) && a.exclude == NamedBy(attempts)
    requires Faithful(job, a) && Reuses(job, a)
    ensures GoodAttempts(job, initial, attempts + [a])
    ensures NamedBy(attempts + [a]) == NamedBy(attempts) + (if a.result.BlobUnknown? then a.result.missing else {})
  {
    hide Faithful, Reuses, Grows;
    assert (attempts + [a])[..|attempts|] == attempts;
  }

  /** Read attempt by attempt: what is excluded only grows, and covers every digest that an
      earlier failure named. */
  lemma {:induction false} ExcludedGrows(job: Job, initial: Blobs, attempts: seq<Attempt>, j: nat, k: nat)
    requires GoodAttempts(job, initial, attempts) && j < k < |attempts|
    ensures attempts[j].result.BlobUnknown?
    ensures attempts[j].exclude + attempts[j].result.missing <= attempts[k].exclude
    ensures Faithful(job, attempts[k])
  {
    hide Faithful, Reuses, Grows;
    var init := attempts[..|attempts| - 1];
    if k < |init| {
      ExcludedGrows(job, initial, init, j, k);
    } else if j < |init| - 1 {
      ExcludedGrows(job, initial, init, j, |init| - 1);
    }
  }

  lemma {:induction false} GoodAt(job: Job, initial: Blobs, attempts: seq<Attempt>, k: nat)
    requires GoodAttempts(job, initial, attempts) && k < |attempts|
    ensures Faithful(job, attempts[k]) && attempts[k].exclude == NamedBy(attempts[..k])
  {
    hide Faithful, Reuses, Grows;
    var init := attempts[..|attempts| - 1];
    if k < |init| {
      GoodAt(job, initial, init, k);
      assert init[..k] == attempts[..k];
    }
  }

  /** Where the whole repair works. Let the manifest that an attempt read have described stored files
      at some time. If its pointers are all still there, and every blob that is gone since then was
      named by an earlier failure, then this attempt gets as far as its manifest unless a request
      fails; and what it lists for the file can be read back. */
  lemma NamedLossHeals(job: Job, initial: Blobs, attempts: seq<Attempt>, k: nat, whole: Blobs, files: Contents)
    requires GoodAttempts(job, initial, attempts) && k < |attempts| && Honest(job.packSize, AsNew(job))
    requires PriorOf(attempts[k]).Some? && ContentAddressed(whole) && Stores(whole, PriorOf(attempts[k]).value, files)
    requires Files(PriorOf(attempts[k]).value).Ok?
    requires PointersLeft(PriorOf(attempts[k]).value, whole.Keys - attempts[k].start.Keys)
    requires whole.Keys - attempts[k].start.Keys <= NamedBy(attempts[..k])
    ensures AtManifest(attempts[k]) || attempts[k].result in {CommitFailed(NoRead), CommitFailed(NoUpload(PutFailed))}
    ensures AtManifest(attempts[k]) ==>
              GroupStores(attempts[k].after, NewGroup(job.title, attempts[k].newLayers), job.content)
  {
    GoodAt(job, initial, attempts, k);
    hide GroupStores, CutAs, PlainGroup, Stores, Honest, PointersLeft, UploadOne, BuildIndex, Grows, ContentAddressed;
    assert CoveredBy(whole, files, attempts[k].start, PriorOf(attempts[k]).value, attempts[k].exclude);
  }

  /** And then the manifest that it puts stores every file exactly when what the other files list is
      there too. */
  lemma NamedLossManifest(job: Job, initial: Blobs, attempts: seq<Attempt>, k: nat, whole: Blobs, files: Contents, q: C.Request)
    requires GoodAttempts(job, initial, attempts) && k < |attempts| && Honest(job.packSize, AsNew(job))
    requires PriorOf(attempts[k]).Some? && ContentAddressed(whole) && Stores(whole, PriorOf(attempts[k]).value, files)
    requires Files(PriorOf(attempts[k]).value).Ok?
    requires PointersLeft(PriorOf(attempts[k]).value, whole.Keys - attempts[k].start.Keys)
    requires whole.Keys - attempts[k].start.Keys <= NamedBy(attempts[..k])
    requires AtManifest(attempts[k]) && Carries(attempts[k], q)
    ensures Stores(attempts[k].after, q.doc.layers, files[CleanTitle(job.title) := job.content])
            <==> OthersThere(attempts[k].after, PriorOf(attempts[k]).value, CleanTitle(job.title))
  {
    NamedLossHeals(job, initial, attempts, k, whole, files);
    GoodAt(job, initial, attempts, k);
    hide GroupStores, Stores, Honest, PointersLeft, Merge, Surviving, GroupsStore, OthersThere, ContentAddressed, Grows,
      Heals, EndsRightly, UploadedFirst, Healed, GoodAttempts, NamedBy, Files, Partition;
    var a := attempts[k];
    SurvivorsKept(whole, a.after, PriorOf(a).value, files, CleanTitle(job.title));
    AddToSurvivors(a.after, PriorOf(a).value, files, NewGroup(job.title, a.newLayers), job.content);
  }

  /** At most `maxRetries + 1` attempts; only a failure on a missing blob is retried, and the
      last such failure is surfaced. */
  method CommitWithBlobReupload(job: Job, maxRetries: nat, rev: C.Revision, registry: Registry)
    returns (r: CommitResult, ghost attempts: seq<Attempt>)
    requires Splittable(job.packSize, job.content, Chunks(job), job.layout) && ContentAddressed(registry.blobs)
    modifies registry, rev
    ensures 1 <= |attempts| <= maxRetries + 1
    ensures GoodAttempts(job, old(registry.blobs), attempts)
    ensures attempts[|attempts| - 1].result == r && attempts[|attempts| - 1].after == registry.blobs
    ensures r.BlobUnknown? ==> |attempts| == maxRetries + 1
    ensures r == Committed ==> exists q :: Carries(attempts[|attempts| - 1], q) && rev.tag == Some(q.doc)
  {
    hide Faithful, Reuses, Grows, Splittable, ContentAddressed;
    var exclude: set<Digest> := {};
    attempts := [];
    for reupload := 0 to maxRetries
      invariant |attempts| == reupload && GoodAttempts(job, old(registry.blobs), attempts) && LostBlob(attempts)
      invariant LeftBy(old(registry.blobs), attempts) == registry.blobs
      invariant exclude == NamedBy(attempts) && ContentAddressed(registry.blobs)
    {
      ghost var attempt;
      r, attempt := RunCommit(job, exclude, rev, registry);
      OneMore(job, old(registry.blobs), attempts, attempt);
      attempts := attempts + [attempt];
      FaithfulEnds(job, attempt);
      if !r.BlobUnknown? {
        return;
      }
      exclude := exclude + r.missing;
    }
    ghost var attempt;
    r, attempt := RunCommit(job, exclude, rev, registry);
    OneMore(job, old(registry.blobs), attempts, attempt);
    attempts := attempts + [attempt];
    FaithfulEnds(job, attempt);
  }

  lemma FaithfulEnds(job: Job, a: Attempt)
    requires Faithful(job, a)
    ensures ContentAddressed(a.after) && (a.result == Committed ==> AtManifest(a))
  {
  }
}
