/** What uploading again achieves after the registry lost blobs (hippius_hub/file_upload.py): with
    the lost packs excluded the index still builds, and the new revision can be read. */
module ReuploadHeals {
  import opened Basics
  import opened Text
  import opened PackStore
  import opened Manifest
  import opened ManifestFiles
  import opened Upload
  import opened StoredFiles
  import opened Versions
  import opened DedupIndex
  import opened History

  /** Every listed pointer is still there. */
  predicate PointersLeft(layers: seq<Layer>, lost: set<Digest>)
    requires Files(layers).Ok?
  {
    forall d :: d in PointersOf(Files(layers).value) ==> d !in lost
  }

  lemma {:induction false} FetchLeft(blobs: Blobs, lost: set<Digest>, digests: seq<Digest>)
    requires FetchAll(blobs, digests).Ok?
    ensures FetchAll(blobs - lost, digests).Ok? <==> forall d :: d in digests ==> d !in lost
    ensures FetchAll(blobs - lost, digests).Ok? ==> FetchAll(blobs - lost, digests) == FetchAll(blobs, digests)
  {
    if digests != [] {
      var init, d := digests[..|digests| - 1], digests[|digests| - 1];
      FetchLeft(blobs, lost, init);
      assert digests == init + [d];
    }
  }

  lemma EntryLeft(blobs: Blobs, lost: set<Digest>, exclude: set<Digest>, sizes: map<Digest, nat>, index: Index, d: Digest)
    requires d in index && EntryOk(blobs, index, exclude, sizes, d) && lost <= exclude
    ensures EntryOk(blobs - lost, index, exclude, sizes, d)
  {
    hide Sha256;
    var content :| Sha256(content) == d && Holds(blobs, index[d].pack, index[d].offset, content);
    assert Holds(blobs - lost, index[d].pack, index[d].offset, content);
  }

  /** What the index takes is still there, because what was lost is excluded. */
  lemma ReadyWithout(blobs: Blobs, lost: set<Digest>, exclude: set<Digest>, layers: seq<Layer>, index: Index)
    requires Ready(blobs, index, PackSizes(layers, exclude)) && lost <= exclude
    requires EntriesOk(blobs, index, exclude, PackSizes(layers, exclude))
    ensures Ready(blobs - lost, index, PackSizes(layers, exclude))
  {
    hide EntryOk, Sha256, IndexOk, PackSizes;
    var sizes := PackSizes(layers, exclude);
    PackSizesSpec(layers, exclude);
    forall d | d in index
      ensures EntryOk(blobs - lost, index, exclude, sizes, d)
    {
      assert EntryOk(blobs, index, exclude, sizes, d);
      EntryLeft(blobs, lost, exclude, sizes, index, d);
    }
    EntriesReady(blobs - lost, index, exclude, sizes);
  }

  /** From a stored revision of which some blobs are lost, the index builds exactly when no pointer
      is lost; and when everything lost is excluded, an upload may trust it. */
  lemma LostIndex(blobs: Blobs, layers: seq<Layer>, files: Contents, lost: set<Digest>, exclude: set<Digest>)
    requires ContentAddressed(blobs) && Stores(blobs, layers, files)
    ensures Files(layers).Ok?
    ensures BuildIndex(Some(layers), blobs - lost, exclude).Ok? <==> PointersLeft(layers, lost)
    ensures PointersLeft(layers, lost) && lost <= exclude ==>
              var (index, sizes) := BuildIndex(Some(layers), blobs - lost, exclude).value;
              Ready(blobs - lost, index, sizes)
  {
    StoredIndexReady(blobs, layers, files, exclude);
    StoredFilesOk(blobs, layers, files);
    FetchLeft(blobs, lost, PointersOf(Files(layers).value));
    if PointersLeft(layers, lost) && lost <= exclude {
      var index := BuildIndex(Some(layers), blobs, exclude).value.0;
      ReadyWithout(blobs, lost, exclude, layers, index);
    }
  }

  /** So uploading again heals: with the lost packs excluded it succeeds, and its group can be read
      back from what the registry then has. */
  lemma UploadHeals(blobs: Blobs, layers: seq<Layer>, files: Contents, lost: set<Digest>, exclude: set<Digest>,
                    packSize: nat, u: NewFile)
    requires ContentAddressed(blobs) && Stores(blobs, layers, files)
    requires Files(layers).Ok? && PointersLeft(layers, lost) && lost <= exclude && Honest(packSize, u)
    ensures BuildIndex(Some(layers), blobs - lost, exclude).Ok?
    ensures var (index, sizes) := BuildIndex(Some(layers), blobs - lost, exclude).value;
            var (after, added) := UploadOne(blobs - lost, index, sizes, packSize, u);
            && added.Ok? && ContentAddressed(after) && Grows(blobs - lost, after)
            && GroupStores(after, NewGroup(u.title, added.value), u.content)
  {
    hide Stores, Honest, UploadOne, GroupStores, BuildIndex, PointersLeft;
    LostIndex(blobs, layers, files, lost, exclude);
    var (index, sizes) := BuildIndex(Some(layers), blobs - lost, exclude).value;
    UploadOneStores(blobs - lost, index, sizes, packSize, u);
  }

  /** No group but that of `title` lists a lost blob. */
  predicate OnlyLostBy(layers: seq<Layer>, lost: set<Digest>, title: string) {
    forall g, l :: g in Partition(layers) && g.title != Some(title) && l in g.layers ==> l.digest !in lost
  }

  /** Everything that the groups of other titles list is there. */
  predicate OthersThere(blobs: Blobs, layers: seq<Layer>, title: string) {
    forall g, l :: g in Partition(layers) && g.title != Some(title) && l in g.layers ==> l.digest in blobs
  }

  /** A stored group lists only blobs that are there. */
  lemma ListedThere(blobs: Blobs, g: Group, content: Bytes)
    requires GroupStores(blobs, g, content)
    ensures forall l :: l in g.layers ==> l.digest in blobs
  {
    if !PlainGroup(blobs, g, content) {
      var refs, chunks :| ChunkedGroup(blobs, g, content, refs, chunks);
      hide RefsDescribe, PointerLayerFor;
      forall l | l in g.layers
        ensures l.digest in blobs
      {
        var j :| 0 <= j < |g.layers| && g.layers[j] == l;
        if j == 0 {
          HeadThere(blobs, g, content, refs);
        }
      }
    }
  }

  lemma HeadThere(blobs: Blobs, g: Group, content: Bytes, refs: seq<ChunkRef>)
    requires Named(g.title) && g.layers != []
    requires g.layers[0] == PointerLayerFor(g.title.value, content, |refs|, refs)
    requires HasBlob(blobs, PointerBytes(content, refs))
    ensures g.layers[0].digest in blobs
  {
  }

  /** And wherever all of them are, the group is stored. */
  lemma ThereStores(blobs: Blobs, after: Blobs, g: Group, content: Bytes)
    requires ContentAddressed(blobs) && ContentAddressed(after) && GroupStores(blobs, g, content)
    requires forall l :: l in g.layers ==> l.digest in after
    ensures GroupStores(after, g, content)
  {
    var keep := set l | l in g.layers :: l.digest;
    KeptGroup(blobs, keep, g, content);
    hide GroupStores, Sha256;
    forall d | d in Kept(blobs, keep)
      ensures d in after && after[d] == Kept(blobs, keep)[d]
    {
      assert Sha256(after[d]) == Sha256(blobs[d]);
      Sha256Injective(after[d], blobs[d]);
    }
    GroupStoresGrows(Kept(blobs, keep), after, g, content);
  }

  lemma OthersStored(blobs: Blobs, after: Blobs, layers: seq<Layer>, files: Contents, title: string)
    requires ContentAddressed(blobs) && ContentAddressed(after) && OthersThere(after, layers, title)
    requires var kept := Surviving(Partition(layers), {title});
             && GroupsStore(In(blobs), kept, files - {title})
             && forall g :: g in kept ==> g in Partition(layers) && g.title != Some(title)
    ensures GroupsStore(In(after), Surviving(Partition(layers), {title}), files - {title})
  {
    hide Partition, Surviving, GroupStores, ContentAddressed;
    var kept := Surviving(Partition(layers), {title});
    forall k | 0 <= k < |kept|
      ensures Matches(In(after), kept[k], files - {title})
    {
      assert Matches(In(blobs), kept[k], files - {title}) && kept[k] in kept;
      ThereStores(blobs, after, kept[k], (files - {title})[kept[k].title.value]);
    }
  }

  lemma StoredOthers(after: Blobs, layers: seq<Layer>, files: Contents, title: string)
    requires var kept := Surviving(Partition(layers), {title});
             && GroupsStore(In(after), kept, files - {title})
             && forall g :: g in Partition(layers) && g.title != Some(title) ==> g in kept
    ensures OthersThere(after, layers, title)
  {
    hide Partition, Surviving, GroupStores;
    var kept := Surviving(Partition(layers), {title});
    forall g, l | g in Partition(layers) && g.title != Some(title) && l in g.layers
      ensures l.digest in after
    {
      var k :| 0 <= k < |kept| && kept[k] == g;
      assert Matches(In(after), kept[k], files - {title});
      ListedThere(after, g, (files - {title})[g.title.value]);
    }
  }

  /** The groups that survive are those of the other titles. */
  lemma SurvivingOthers(layers: seq<Layer>, title: string)
    ensures WellGrouped(Surviving(Partition(layers), {title}))
    ensures forall g :: g in Surviving(Partition(layers), {title}) <==> g in Partition(layers) && g.title != Some(title)
  {
    PartitionSplits(layers);
    SurvivingWellGrouped(Partition(layers), {title});
  }

  /** The files of the other titles are still stored exactly when what they list is there. */
  lemma SurvivorsKept(blobs: Blobs, after: Blobs, layers: seq<Layer>, files: Contents, title: string)
    requires ContentAddressed(blobs) && ContentAddressed(after) && Stores(blobs, layers, files)
    ensures GroupsStore(In(after), Surviving(Partition(layers), {title}), files - {title})
            <==> OthersThere(after, layers, title)
  {
    SurvivingOthers(layers, title);
    hide Surviving, Partition, GroupsStore, OthersThere, ContentAddressed;
    KeptStore(In(blobs), Partition(layers), files, {title});
    if OthersThere(after, layers, title) {
      OthersStored(blobs, after, layers, files, title);
    }
    if GroupsStore(In(after), Surviving(Partition(layers), {title}), files - {title}) {
      StoredOthers(after, layers, files, title);
    }
  }

  lemma LastRemoved(holds: Holding, kept: seq<Group>, files: Contents, g: Group, content: Bytes)
    requires Named(g.title) && WellGrouped(kept)
    requires GroupsStore(holds, kept + [g], files[g.title.value := content])
    ensures GroupsStore(holds, kept, files - {g.title.value})
  {
    var groups, t := kept + [g], g.title.value;
    forall k | 0 <= k < |kept|
      ensures Matches(holds, kept[k], files - {t})
    {
      assert groups[k] == kept[k] && Matches(holds, groups[k], files[t := content]);
      assert groups[k].title != groups[|kept|].title;
    }
    forall i, j | 0 <= i < j < |kept|
      ensures kept[i].title != kept[j].title
    {
      assert groups[i].title != groups[j].title;
    }
    forall s | s in files - {t}
      ensures exists k :: 0 <= k < |kept| && kept[k].title == Some(s)
    {
      assert s in files[t := content];
      var k :| 0 <= k < |groups| && groups[k].title == Some(s);
      assert kept[k].title == Some(s);
    }
  }

  lemma AddBack(holds: Holding, kept: seq<Group>, files: Contents, g: Group, content: Bytes)
    requires WellGrouped(kept) && GroupOk(g) && Named(g.title) && holds(g, content)
    ensures GroupsStore(holds, kept + [g], files[g.title.value := content])
            <==> GroupsStore(holds, kept, files - {g.title.value})
  {
    var t := g.title.value;
    hide GroupsStore;
    if GroupsStore(holds, kept, files - {t}) {
      AddGroup(holds, kept, files - {t}, g, content);
      assert (files - {t})[t := content] == files[t := content];
    }
    if GroupsStore(holds, kept + [g], files[t := content]) {
      LastRemoved(holds, kept, files, g, content);
    }
  }

  /** With the new group added, the manifest stores every file exactly when the survivors do. */
  lemma AddToSurvivors(after: Blobs, layers: seq<Layer>, files: Contents, g: Group, content: Bytes)
    requires GroupStores(after, g, content)
    ensures Stores(after, Merge(layers, g.layers, {}), files[g.title.value := content])
            <==> GroupsStore(In(after), Surviving(Partition(layers), {g.title.value}), files - {g.title.value})
  {
    hide GroupStores, Surviving, Partition, Merge, GroupsStore;
    GroupOkOfStored(after, g, content);
    MergeOne(layers, g);
    SurvivingOthers(layers, g.title.value);
    AddBack(In(after), Surviving(Partition(layers), {g.title.value}), files, g, content);
  }

  /** What lost nothing has it still. */
  lemma LostOnlyBy(blobs: Blobs, layers: seq<Layer>, files: Contents, lost: set<Digest>, title: string, after: Blobs)
    requires Stores(blobs, layers, files) && OnlyLostBy(layers, lost, title) && Grows(blobs - lost, after)
    ensures OthersThere(after, layers, title)
  {
    forall g, l | g in Partition(layers) && g.title != Some(title) && l in g.layers
      ensures l.digest in after
    {
      var k :| 0 <= k < |Partition(layers)| && Partition(layers)[k] == g;
      assert Matches(In(blobs), Partition(layers)[k], files);
      ListedThere(blobs, g, files[g.title.value]);
      assert l.digest in blobs - lost;
    }
  }

  /** The new manifest stores every file again exactly when the upload, or luck, brought back whatever
      the other files list; so it does when they list nothing that was lost, and does not when one of
      them lists a lost pack that this file no longer needs. */
  lemma ManifestHeals(blobs: Blobs, layers: seq<Layer>, files: Contents, lost: set<Digest>, exclude: set<Digest>,
                      packSize: nat, u: NewFile)
    requires ContentAddressed(blobs) && Stores(blobs, layers, files)
    requires Files(layers).Ok? && PointersLeft(layers, lost) && lost <= exclude && Honest(packSize, u)
    ensures BuildIndex(Some(layers), blobs - lost, exclude).Ok?
    ensures var (index, sizes) := BuildIndex(Some(layers), blobs - lost, exclude).value;
            var (after, added) := UploadOne(blobs - lost, index, sizes, packSize, u);
            && added.Ok?
            && (Stores(after, Merge(layers, added.value, {}), files[Titled(u) := u.content])
                <==> OthersThere(after, layers, Titled(u)))
            && (OnlyLostBy(layers, lost, Titled(u)) ==> OthersThere(after, layers, Titled(u)))
  {
    hide Stores, PointersLeft, OnlyLostBy, OthersThere, UploadOne, BuildIndex, GroupStores, Merge, Partition, Surviving,
      GroupsStore, ContentAddressed, Grows;
    UploadHeals(blobs, layers, files, lost, exclude, packSize, u);
    var (index, sizes) := BuildIndex(Some(layers), blobs - lost, exclude).value;
    var (after, added) := UploadOne(blobs - lost, index, sizes, packSize, u);
    SurvivorsKept(blobs, after, layers, files, Titled(u));
    AddToSurvivors(after, layers, files, NewGroup(u.title, added.value), u.content);
    if OnlyLostBy(layers, lost, Titled(u)) {
      LostOnlyBy(blobs, layers, files, lost, Titled(u), after);
    }
  }
}
