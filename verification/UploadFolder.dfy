/** Uploading a folder (hippius_hub/file_upload.py): one index for every file, built from a read
    that may be older than the one the manifest is merged into. */
module UploadFolder {
  import opened Basics
  import opened Text
  import opened Packing
  import opened PackStore
  import opened Manifest
  import opened Upload
  import opened StoredFiles
  import opened DedupIndex
  import opened History
  import opened UploadFile

  datatype FolderFile = FolderFile(title: string, content: Bytes, batches: seq<seq<Chunk>>)

  /** The files as the commit sees them, in the order their uploads complete. */
  function Uploads(files: seq<FolderFile>, layout: Layout): (us: seq<NewFile>)
    ensures |us| == |files|
    ensures forall i :: 0 <= i < |files| ==>
              us[i] == AsUpload(files[i].title, files[i].content, Concat(files[i].batches), layout)
  {
    seq(|files|, i requires 0 <= i < |files| =>
      AsUpload(files[i].title, files[i].content, Concat(files[i].batches), layout))
  }

  lemma HonestPrefix(packSize: nat, uploads: seq<NewFile>, n: nat)
    requires HonestAll(packSize, uploads) && n <= |uploads|
    ensures HonestAll(packSize, uploads[..n])
  {
  }

  /** One more file of the folder. */
  lemma UploadNext(blobs: Blobs, index: Index, sizes: map<Digest, nat>, packSize: nat, uploads: seq<NewFile>, k: nat,
                   stored: Blobs, groups: seq<Group>, after: Blobs, layers: seq<Layer>)
    requires HonestAll(packSize, uploads) && k < |uploads| && HonestAll(packSize, uploads[..k])
    requires UploadAll(blobs, index, sizes, packSize, uploads[..k]) == (stored, Ok(groups))
    requires UploadOne(stored, index, sizes, packSize, uploads[k]) == (after, Ok(layers))
    ensures HonestAll(packSize, uploads[..k + 1])
    ensures UploadAll(blobs, index, sizes, packSize, uploads[..k + 1])
            == (after, Ok(groups + [NewGroup(uploads[k].title, layers)]))
    ensures LayersOf(groups + [NewGroup(uploads[k].title, layers)]) == LayersOf(groups) + layers
  {
    HonestPrefix(packSize, uploads, k + 1);
    hide UploadOne, HonestAll, Honest;
    assert uploads[..k + 1][..k] == uploads[..k];
    LayersOfSnoc(groups, NewGroup(uploads[k].title, layers));
  }

  /** A folder of small files does not use the index. */
  lemma {:induction false} PlainIgnoresIndex(blobs: Blobs, index: Index, sizes: map<Digest, nat>, packSize: nat,
                                             uploads: seq<NewFile>)
    requires HonestAll(packSize, uploads) && forall u :: u in uploads ==> u.Plain?
    ensures UploadAll(blobs, index, sizes, packSize, uploads) == UploadAll(blobs, map[], map[], packSize, uploads)
  {
    if uploads != [] {
      PlainIgnoresIndex(blobs, index, sizes, packSize, uploads[..|uploads| - 1]);
    }
  }

  /** Upload every file with the same index, collecting the layers. */
  method UploadEach(files: seq<FolderFile>, layout: Layout, packSize: nat, registry: Registry, index: Index,
                    sizes: map<Digest, nat>, ghost blobs: Blobs)
    returns (r: Result<seq<Layer>, UploadError>, ghost groups: seq<Group>)
    requires registry.blobs == blobs && Ready(blobs, index, sizes)
    requires HonestAll(packSize, Uploads(files, layout))
    modifies registry
    ensures r.Err? ==> r.error == PutFailed
    ensures ContentAddressed(registry.blobs) && Grows(blobs, registry.blobs)
    ensures registry.failures == old(registry.failures) + (if r.Err? then 1 else 0)
    ensures r.Ok? ==>
              && UploadAll(blobs, index, sizes, packSize, Uploads(files, layout)) == (registry.blobs, Ok(groups))
              && r.value == LayersOf(groups)
  {
    ghost var uploads := Uploads(files, layout);
    var newLayers: seq<Layer> := [];
    groups := [];
    HonestPrefix(packSize, uploads, 0);
    assert uploads[..0] == [];
    for k := 0 to |files|
      invariant HonestAll(packSize, uploads[..k])
      invariant UploadAll(blobs, index, sizes, packSize, uploads[..k]) == (registry.blobs, Ok(groups))
      invariant newLayers == LayersOf(groups)
      invariant ContentAddressed(registry.blobs) && Grows(blobs, registry.blobs)
      invariant registry.failures == old(registry.failures)
    {
      hide UploadAll, UploadOne, Honest, Splittable, LayersFor, Ready, LayersOf, Grows, ContentAddressed, HonestAll;
      ghost var stored := registry.blobs;
      StoreSoFar(blobs, index, sizes, packSize, uploads, k, stored, groups);
      var f := files[k];
      var layers;
      ghost var uploaded;
      HonestSplittable(packSize, f.title, f.content, Concat(f.batches), layout);
      layers, uploaded := UploadFileLayers(f.title, f.content, f.batches, layout, packSize, registry, index, sizes);
      GrowsOn(blobs, stored, registry.blobs);
      if layers.Err? {
        return Err(layers.error), groups;
      }
      UploadNext(blobs, index, sizes, packSize, uploads, k, stored, groups, registry.blobs, layers.value);
      groups := groups + [NewGroup(uploads[k].title, layers.value)];
      newLayers := newLayers + layers.value;
    }
    assert uploads[..|files|] == uploads;
    return Ok(newLayers), groups;
  }

  lemma GrowsOn(a: Blobs, b: Blobs, c: Blobs)
    requires Grows(a, b) && Grows(b, c)
    ensures Grows(a, c)
  {
  }

  lemma StoreSoFar(blobs: Blobs, index: Index, sizes: map<Digest, nat>, packSize: nat, uploads: seq<NewFile>, k: nat,
                   stored: Blobs, groups: seq<Group>)
    requires Ready(blobs, index, sizes) && HonestAll(packSize, uploads) && k < |uploads|
    requires HonestAll(packSize, uploads[..k])
    requires UploadAll(blobs, index, sizes, packSize, uploads[..k]) == (stored, Ok(groups))
    ensures ContentAddressed(stored) && Honest(packSize, uploads[k])
    ensures UploadOne(stored, index, sizes, packSize, uploads[k]).1 != Err(PutFailed)
    ensures UploadOne(stored, index, sizes, packSize, uploads[k]).1.Ok?
  {
    UploadAllStores(blobs, index, sizes, packSize, uploads[..k]);
    ReadyGrows(blobs, stored, index, sizes);
    UploadOneStores(stored, index, sizes, packSize, uploads[k]);
  }

  /** The whole folder operation. `prior` was read before the uploads and `existing` after them,
      and other writers may have committed in between; the result is one commit event that takes
      its index from the one and its base from the other. */
  method FolderOp(ghost r: Repo, ghost indexFrom: nat, ghost base: nat, prior: Option<seq<Layer>>,
                  existing: Option<seq<Layer>>, files: seq<FolderFile>, deletes: set<string>, layout: Layout,
                  packSize: nat, registry: Registry)
    returns (merged: Result<seq<Layer>, UploadError>)
    requires Sound(r) && registry.blobs == r.blobs && indexFrom < |r.log| && base < |r.log|
    requires ReadOf(prior, r.log[indexFrom]) && ReadOf(existing, r.log[base])
    requires HonestAll(packSize, Uploads(files, layout))
    modifies registry
    ensures merged.Err? ==> merged.error == PutFailed
    ensures ContentAddressed(registry.blobs) && Grows(r.blobs, registry.blobs)
    ensures merged.Ok? ==>
              var e := Commit(packSize, indexFrom, base, Uploads(files, layout), deletes);
              && Enabled(r, e) && Do(r, e).Ok? && Sound(Do(r, e).value)
              && registry.blobs == Do(r, e).value.blobs
              && merged.value == Head(Do(r, e).value).layers
    ensures merged.Ok? ==> forall i :: 0 <= i < |files| ==>
              && StoredBySize(registry.blobs, merged.value, files[i].title, files[i].content, Concat(files[i].batches), layout)
              && FoundBySize(merged.value, files[i].title, files[i].content, layout)
    ensures registry.failures == old(registry.failures) + (if merged.Err? then 1 else 0)
  {
    hide UploadAll, BuildIndex, Merge, LayersOf, HonestAll, Ready, Sound, Do, StoredBySize, FoundBySize;
    ghost var uploads := Uploads(files, layout);
    ghost var e := Commit(packSize, indexFrom, base, uploads, deletes);
    CommitKeepsSound(r, e);
    forall i | 0 <= i < |files|
      ensures var after := Do(r, e).value;
              && StoredBySize(after.blobs, Head(after).layers, files[i].title, files[i].content,
                              Concat(files[i].batches), layout)
              && FoundBySize(Head(after).layers, files[i].title, files[i].content, layout)
    {
      CommittedBySize(r, e, i, files[i].title, files[i].content, Concat(files[i].batches), layout);
    }
    var index: Index, sizes: map<Digest, nat> := map[], map[];
    var large := layout.chunkedWrites && exists i :: 0 <= i < |files| && |files[i].content| >= layout.threshold;
    FolderIndex(r, indexFrom, prior, packSize, uploads);
    if large {
      var built := BuildDedupIndex(prior, registry.blobs, {});
      index, sizes := built.value.0, built.value.1;
    }
    var newLayers;
    ghost var groups;
    newLayers, groups := UploadEach(files, layout, packSize, registry, index, sizes, r.blobs);
    if newLayers.Err? {
      return Err(newLayers.error);
    }
    FolderShape(r, e, registry.blobs, groups);
    var current: seq<Layer> := if existing.Some? then existing.value else [];
    var result := MergeLayers(current, newLayers.value, deletes);
    return Ok(result);
  }

  /** The index of the first read builds, may be trusted, and is not needed for small files. */
  lemma FolderIndex(r: Repo, indexFrom: nat, prior: Option<seq<Layer>>, packSize: nat, uploads: seq<NewFile>)
    requires Sound(r) && indexFrom < |r.log| && ReadOf(prior, r.log[indexFrom]) && HonestAll(packSize, uploads)
    ensures BuildIndex(prior, r.blobs, {}) == BuildIndex(Some(r.log[indexFrom].layers), r.blobs, {})
    ensures BuildIndex(prior, r.blobs, {}).Ok?
    ensures var (index, sizes) := BuildIndex(prior, r.blobs, {}).value;
            && Ready(r.blobs, index, sizes) && Ready(r.blobs, map[], map[])
            && ((forall u :: u in uploads ==> u.Plain?) ==>
                  UploadAll(r.blobs, index, sizes, packSize, uploads) == UploadAll(r.blobs, map[], map[], packSize, uploads))
  {
    var source := r.log[indexFrom];
    IndexOfRead(prior, source, r.blobs);
    StoredIndexReady(r.blobs, source.layers, source.files, {});
    var (index, sizes) := BuildIndex(prior, r.blobs, {}).value;
    if forall u :: u in uploads ==> u.Plain? {
      PlainIgnoresIndex(r.blobs, index, sizes, packSize, uploads);
    }
  }

  lemma FolderShape(r: Repo, e: Event, after: Blobs, groups: seq<Group>)
    requires e.Commit? && Enabled(r, e) && BuildIndex(Some(r.log[e.indexFrom].layers), r.blobs, {}).Ok?
    requires var (index, sizes) := BuildIndex(Some(r.log[e.indexFrom].layers), r.blobs, {}).value;
             UploadAll(r.blobs, index, sizes, e.packSize, e.uploads) == (after, Ok(groups))
    ensures Do(r, e).Ok? && Do(r, e).value.blobs == after && Do(r, e).value.log != []
    ensures Head(Do(r, e).value).layers == Merge(r.log[e.base].layers, LayersOf(groups), e.deletes)
  {
    hide UploadAll, BuildIndex, Merge, LayersOf, HonestAll;
  }
}
