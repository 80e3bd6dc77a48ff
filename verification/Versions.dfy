/** A manifest whose files are all stored, and what a commit does to it
    (hippius_hub/file_upload.py). */
module Versions {
  import opened Basics
  import opened Text
  import opened PackStore
  import opened Manifest
  import opened ManifestFiles
  import opened StoredFiles

  /** The bytes of every file, by title. */
  type Contents = map<string, Bytes>

  /** What a group must hold for a file's bytes. */
  type Holding = (Group, Bytes) -> bool

  ghost function In(blobs: Blobs): Holding {
    (g, content) => GroupStores(blobs, g, content)
  }

  ghost predicate Matches(holds: Holding, g: Group, files: Contents) {
    && Named(g.title)
    && g.title.value in files
    && holds(g, files[g.title.value])
  }

  predicate DistinctGroups(groups: seq<Group>) {
    forall i, j :: 0 <= i < j < |groups| ==> groups[i].title != groups[j].title
  }

  /** One group for each file, storing its bytes, and no other group. */
  ghost predicate GroupsStore(holds: Holding, groups: seq<Group>, files: Contents) {
    && WellGrouped(groups)
    && DistinctGroups(groups)
    && (forall k :: 0 <= k < |groups| ==> Matches(holds, groups[k], files))
    && (forall t :: t in files ==> exists k :: 0 <= k < |groups| && groups[k].title == Some(t))
  }

  /** The manifest lists exactly `files`, and each can be read back. */
  ghost predicate Stores(blobs: Blobs, layers: seq<Layer>, files: Contents) {
    GroupsStore(In(blobs), Partition(layers), files)
  }

  lemma StoresGrows(blobs: Blobs, blobs': Blobs, groups: seq<Group>, files: Contents)
    requires GroupsStore(In(blobs), groups, files) && Grows(blobs, blobs')
    ensures GroupsStore(In(blobs'), groups, files)
  {
    forall k | 0 <= k < |groups|
      ensures Matches(In(blobs'), groups[k], files)
    {
      assert Matches(In(blobs), groups[k], files);
      GroupStoresGrows(blobs, blobs', groups[k], files[groups[k].title.value]);
    }
  }

  /** The files after a commit that brings `news` and deletes `deletes`. */
  function Updated(before: Contents, news: Contents, deletes: set<string>): Contents {
    (before - deletes) + news
  }

  lemma TitlesAreFiles(holds: Holding, groups: seq<Group>, files: Contents)
    requires GroupsStore(holds, groups, files)
    ensures Titles(groups) == files.Keys
  {
    forall t | t in files
      ensures t in Titles(groups)
    {
      var k :| 0 <= k < |groups| && groups[k].title == Some(t);
      assert groups[k] in groups && Matches(holds, groups[k], files);
    }
    forall t | t in Titles(groups)
      ensures t in files
    {
      var g :| g in groups && Named(g.title) && g.title.value == t;
      var k :| 0 <= k < |groups| && groups[k] == g;
      assert Matches(holds, groups[k], files);
    }
  }

  lemma {:induction false} SurvivingDistinct(groups: seq<Group>, titles: set<string>)
    requires DistinctGroups(groups)
    ensures DistinctGroups(Surviving(groups, titles))
    ensures forall g :: g in Surviving(groups, titles) ==> g in groups
  {
    if groups != [] {
      var init, last := groups[..|groups| - 1], groups[|groups| - 1];
      SurvivingDistinct(init, titles);
      assert groups == init + [last];
      forall g | g in Surviving(init, titles)
        ensures g.title != last.title
      {
        var i :| 0 <= i < |init| && init[i] == g;
        assert groups[i].title != groups[|groups| - 1].title;
      }
    }
  }

  /** Merging in whole titled groups: the surviving old groups, then the new ones. */
  lemma MergeGroups(existing: seq<Layer>, newGroups: seq<Group>, deletes: set<string>)
    requires WellGrouped(newGroups) && (newGroups != [] ==> Named(newGroups[0].title))
    ensures Partition(Merge(existing, LayersOf(newGroups), deletes))
            == Surviving(Partition(existing), deletes + Titles(newGroups)) + newGroups
  {
    PartitionUnique(newGroups);
    if newGroups != [] {
      FirstLayer(newGroups);
      assert GroupOk(newGroups[0]);
    }
    MergePartition(existing, LayersOf(newGroups), deletes);
  }

  lemma TitleOfOne(g: Group, title: string)
    requires g.title == Some(title) && title != ""
    ensures Titles([g]) == {title}
  {
    assert g in [g];
  }

  lemma MergeOne(existing: seq<Layer>, g: Group)
    requires GroupOk(g) && Named(g.title)
    ensures Partition(Merge(existing, g.layers, {})) == Surviving(Partition(existing), {g.title.value}) + [g]
  {
    TitleOfOne(g, g.title.value);
    OneGroupLayers(g);
    MergeGroups(existing, [g], {});
    assert {} + {g.title.value} == {g.title.value};
  }

  /** A commit keeps every file stored: those it leaves alone, in their own untouched groups,
      and those it brings. */
  lemma MergeStores(holds: Holding, existing: seq<Layer>, files: Contents, newGroups: seq<Group>, news: Contents,
                    deletes: set<string>)
    requires GroupsStore(holds, Partition(existing), files) && GroupsStore(holds, newGroups, news)
    ensures GroupsStore(holds, Partition(Merge(existing, LayersOf(newGroups), deletes)), Updated(files, news, deletes))
  {
    assert newGroups != [] ==> Matches(holds, newGroups[0], news);
    MergeGroups(existing, newGroups, deletes);
    TitlesAreFiles(holds, newGroups, news);
    var gone := deletes + news.Keys;
    UpdatedApart(files, news, deletes);
    KeptStore(holds, Partition(existing), files, gone);
    JoinStore(holds, Surviving(Partition(existing), gone), files - gone, newGroups, news);
  }

  lemma UpdatedApart(files: Contents, news: Contents, deletes: set<string>)
    ensures var kept := files - (deletes + news.Keys);
            kept.Keys !! news.Keys && Updated(files, news, deletes) == kept + news
  {
  }

  lemma KeptStore(holds: Holding, groups: seq<Group>, files: Contents, gone: set<string>)
    requires GroupsStore(holds, groups, files)
    ensures GroupsStore(holds, Surviving(groups, gone), files - gone)
  {
    var kept := Surviving(groups, gone);
    SurvivingWellGrouped(groups, gone);
    SurvivingDistinct(groups, gone);
    forall k | 0 <= k < |kept|
      ensures Matches(holds, kept[k], files - gone)
    {
      assert kept[k] in kept;
      var i :| 0 <= i < |groups| && groups[i] == kept[k];
      assert Matches(holds, groups[i], files) && !Dropped(kept[k], gone);
    }
    forall t | t in files - gone
      ensures exists k :: 0 <= k < |kept| && kept[k].title == Some(t)
    {
      var i :| 0 <= i < |groups| && groups[i].title == Some(t);
      assert groups[i] in groups && !Dropped(groups[i], gone);
      assert groups[i] in kept;
    }
  }

  lemma JoinStore(holds: Holding, kept: seq<Group>, files: Contents, newGroups: seq<Group>, news: Contents)
    requires GroupsStore(holds, kept, files) && GroupsStore(holds, newGroups, news)
    requires files.Keys !! news.Keys
    ensures GroupsStore(holds, kept + newGroups, files + news)
  {
    var groups := kept + newGroups;
    if kept != [] && newGroups != [] {
      assert Matches(holds, newGroups[0], news);
    }
    JoinWellGrouped(kept, newGroups);
    forall k | 0 <= k < |groups|
      ensures Matches(holds, groups[k], files + news)
    {
      if k < |kept| {
        assert Matches(holds, kept[k], files);
      } else {
        assert Matches(holds, newGroups[k - |kept|], news);
      }
    }
    forall i, j | 0 <= i < j < |groups|
      ensures groups[i].title != groups[j].title
    {
      if i < |kept| <= j {
        assert Matches(holds, kept[i], files) && Matches(holds, newGroups[j - |kept|], news);
      }
    }
    forall t | t in files + news
      ensures exists k :: 0 <= k < |groups| && groups[k].title == Some(t)
    {
      if t in news {
        var k :| 0 <= k < |newGroups| && newGroups[k].title == Some(t);
        assert groups[|kept| + k].title == Some(t);
      } else {
        var k :| 0 <= k < |kept| && kept[k].title == Some(t);
        assert groups[k].title == Some(t);
      }
    }
  }

  /** The head of a group can be read as a file entry. */
  predicate HeadOk(g: Group) {
    g.layers != [] && Named(g.title) && g.layers[0].title == g.title && FileOf(g.layers[0]).Ok?
  }

  /** The file that the manifest lists for a group. */
  function FileOfGroup(g: Group): FileGroup
    requires HeadOk(g)
  {
    FileOf(g.layers[0]).value
  }

  lemma StoredHead(blobs: Blobs, g: Group, content: Bytes)
    requires GroupStores(blobs, g, content)
    ensures HeadOk(g)
    ensures var f := FileOfGroup(g);
            && f.title == g.title.value && f.size == |content| && f.digest == Sha256(content)
            && (f.pointer.Some? <==> !PlainGroup(blobs, g, content))
  {
  }

  lemma {:induction false} HeadFile(g: Group)
    requires GroupOk(g) && HeadOk(g)
    ensures Files(g.layers) == Ok([FileOfGroup(g)])
    decreases |g.layers|
  {
    var init := g.layers[..|g.layers| - 1];
    if |g.layers| == 1 {
      assert init == [] && [] + [FileOfGroup(g)] == [FileOfGroup(g)];
    } else {
      HeadFile(Group(g.title, init));
    }
  }

  lemma FilesOfSnoc(init: seq<Group>, g: Group)
    requires Files(LayersOf(init)).Ok? && GroupOk(g) && HeadOk(g)
    ensures Files(LayersOf(init + [g])) == Ok(Files(LayersOf(init)).value + [FileOfGroup(g)])
  {
    hide Files, FileOfGroup, HeadOk, GroupOk;
    HeadFile(g);
    LayersOfSnoc(init, g);
    FilesAppend(LayersOf(init), g.layers);
  }

  /** The manifest's file list is exactly its groups' heads. */
  lemma {:induction false} FilesOfGroups(groups: seq<Group>)
    requires WellGrouped(groups) && forall k :: 0 <= k < |groups| ==> HeadOk(groups[k])
    ensures Files(LayersOf(groups)).Ok?
    ensures |Files(LayersOf(groups)).value| == |groups|
    ensures forall k :: 0 <= k < |groups| ==> Files(LayersOf(groups)).value[k] == FileOfGroup(groups[k])
  {
    if groups != [] {
      var init, g := groups[..|groups| - 1], groups[|groups| - 1];
      hide Files, LayersOf, FileOfGroup, HeadOk, GroupOk;
      FilesOfGroups(init);
      assert groups == init + [g];
      FilesOfSnoc(init, g);
    } else {
      assert LayersOf(groups) == [];
    }
  }

  lemma HeadTitle(g: Group)
    requires HeadOk(g)
    ensures FileOfGroup(g).title == g.title.value
  {
  }

  /** Looking a title up in a file list made of distinct groups. */
  lemma LookupGroup(groups: seq<Group>, title: string)
    requires WellGrouped(groups) && DistinctGroups(groups) && forall k :: 0 <= k < |groups| ==> HeadOk(groups[k])
    ensures Files(LayersOf(groups)).Ok?
    ensures (forall k :: 0 <= k < |groups| ==> groups[k].title != Some(title)) ==>
              Find(Files(LayersOf(groups)).value, title) == None
    ensures forall k :: 0 <= k < |groups| && groups[k].title == Some(title) ==>
              Find(Files(LayersOf(groups)).value, title) == Some(FileOfGroup(groups[k]))
  {
    FilesOfGroups(groups);
    var fs := Files(LayersOf(groups)).value;
    forall k | 0 <= k < |groups|
      ensures fs[k].title == groups[k].title.value
    {
      HeadTitle(groups[k]);
    }
    FindNone(fs, title);
    forall k | 0 <= k < |groups| && groups[k].title == Some(title)
      ensures Find(fs, title) == Some(FileOfGroup(groups[k]))
    {
      FindAt(fs, k);
      assert forall i :: 0 <= i < k ==> fs[i].title != fs[k].title;
    }
  }

  /** Looking a title up in a stored manifest finds its group, and nothing else. */
  lemma LookupStored(blobs: Blobs, layers: seq<Layer>, files: Contents, title: string)
    requires Stores(blobs, layers, files)
    ensures Files(layers).Ok?
    ensures title !in files ==> Resolved(Files(layers).value, title) == Err(EntryNotFound(title))
    ensures title in files ==> exists g :: FoundIn(blobs, layers, files[title], title, g)
  {
    var groups := Partition(layers);
    PartitionSplits(layers);
    forall k | 0 <= k < |groups|
      ensures HeadOk(groups[k]) && groups[k].title.value in files
    {
      assert Matches(In(blobs), groups[k], files);
      StoredHead(blobs, groups[k], files[groups[k].title.value]);
    }
    LookupGroup(groups, title);
    if title in files {
      var k :| 0 <= k < |groups| && groups[k].title == Some(title);
      assert Matches(In(blobs), groups[k], files);
      StoredHead(blobs, groups[k], files[title]);
      Sha256NotEmpty(files[title]);
      assert FoundIn(blobs, layers, files[title], title, groups[k]);
    }
  }

  lemma Sha256NotEmpty(content: Bytes)
    ensures Sha256(content) != ""
  {
    assert |Sha256(content)| >= |DIGEST_PREFIX|;
  }

  /** `g` is the group of `title` in the manifest, stores `content`, and is what a lookup finds. */
  ghost predicate FoundIn(blobs: Blobs, layers: seq<Layer>, content: Bytes, title: string, g: Group) {
    && g in Partition(layers)
    && g.title == Some(title)
    && GroupStores(blobs, g, content)
    && HeadOk(g)
    && Files(layers).Ok? && Resolved(Files(layers).value, title) == Ok(FileOfGroup(g))
  }

  lemma {:induction false} FindAt(files: seq<FileGroup>, k: nat)
    requires k < |files|
    ensures (forall i :: 0 <= i < k ==> files[i].title != files[k].title) ==> Find(files, files[k].title) == Some(files[k])
  {
    if k > 0 && forall i :: 0 <= i < k ==> files[i].title != files[k].title {
      FindAt(files[1..], k - 1);
    }
  }
}
