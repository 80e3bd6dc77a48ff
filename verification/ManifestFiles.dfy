/** The logical view of a manifest, one entry a file (hippius_hub/_oci.py,
    hippius_hub/file_download.py), and what a merge does to it. */
module ManifestFiles {
  import opened Basics
  import opened Text
  import opened Manifest

  /** A file of the manifest; a chunked one names its pointer blob. */
  datatype FileGroup = FileGroup(title: string, size: int, digest: Digest, pointer: Option<Digest>)

  datatype ManifestError = MissingAnnotations(title: string) | BadChunkCount(title: string) | EntryNotFound(title: string)

  function FileOf(layer: Layer): Result<FileGroup, ManifestError>
    requires Named(layer.title)
  {
    var title := layer.title.value;
    if layer.mediaType == PointerLayer then
      match layer.file
      case None => Err(MissingAnnotations(title))
      case Some(ann) =>
        if ann.chunkCount < 1 then Err(BadChunkCount(title))
        else Ok(FileGroup(title, ann.size, ann.digest, Some(layer.digest)))
    else
      Ok(FileGroup(title, layer.size, layer.digest, None))
  }

  /** One file for each titled layer, in order; untitled layers are skipped. */
  function Files(layers: seq<Layer>): Result<seq<FileGroup>, ManifestError> {
    if layers == [] then
      Ok([])
    else
      match Files(layers[..|layers| - 1])
      case Err(e) => Err(e)
      case Ok(files) =>
        var last := layers[|layers| - 1];
        if !Named(last.title) then
          Ok(files)
        else
          match FileOf(last)
          case Err(e) => Err(e)
          case Ok(f) => Ok(files + [f])
  }

  /** What one layer stands for: a pointer layer a chunked file, with the size and digest of its
      annotations, which must be there and count at least one chunk; any other titled layer a plain
      file; a layer without a title, or with an empty one, no file. */
  lemma LayerTable(layer: Layer)
    ensures layer.title in {None, Some("")} ==> Files([layer]) == Ok([])
    ensures layer.title !in {None, Some("")} && layer.mediaType != PointerLayer ==>
              Files([layer]) == Ok([FileGroup(layer.title.value, layer.size, layer.digest, None)])
    ensures layer.title !in {None, Some("")} && layer.mediaType == PointerLayer && layer.file.None? ==>
              Files([layer]) == Err(MissingAnnotations(layer.title.value))
    ensures layer.title !in {None, Some("")} && layer.mediaType == PointerLayer && layer.file.Some? ==>
              var a := layer.file.value;
              Files([layer]) == if a.chunkCount < 1 then Err(BadChunkCount(layer.title.value))
                                else Ok([FileGroup(layer.title.value, a.size, a.digest, Some(layer.digest))])
  {
    assert [layer][..0] == [] && Files([]) == Ok([]);
    assert forall f: FileGroup :: [] + [f] == [f];
  }

  method GroupFiles(layers: seq<Layer>) returns (r: Result<seq<FileGroup>, ManifestError>)
    ensures r == Files(layers)
  {
    var groups: seq<FileGroup> := [];
    var i := 0;
    while i < |layers|
      invariant 0 <= i <= |layers|
      invariant Files(layers[..i]) == Ok(groups)
    {
      assert layers[..i + 1][..i] == layers[..i];
      var layer := layers[i];
      if !Named(layer.title) {
        i := i + 1;
        continue;
      }
      var f := FileOf(layer);
      if f.Err? {
        FilesErr(layers, i + 1);
        return Err(f.error);
      }
      groups := groups + [f.value];
      i := i + 1;
    }
    assert layers[..|layers|] == layers;
    return Ok(groups);
  }

  lemma {:induction false} FilesErr(layers: seq<Layer>, n: nat)
    requires n <= |layers| && Files(layers[..n]).Err?
    ensures Files(layers) == Files(layers[..n])
  {
    if n == |layers| {
      assert layers[..n] == layers;
    } else {
      var init := layers[..|layers| - 1];
      assert init[..n] == layers[..n];
      FilesErr(init, n);
    }
  }

  lemma {:induction false} FilesAppend(a: seq<Layer>, b: seq<Layer>)
    requires Files(a).Ok?
    ensures Files(b).Ok? ==> Files(a + b) == Ok(Files(a).value + Files(b).value)
    ensures Files(b).Err? ==> Files(a + b) == Files(b)
  {
    if b == [] {
      assert a + b == a && Files(a).value + [] == Files(a).value;
    } else {
      var init := b[..|b| - 1];
      FilesAppend(a, init);
      assert (a + b)[..|a + b| - 1] == a + init && (a + b)[|a + b| - 1] == b[|b| - 1];
      if Files(b).Ok? && Named(b[|b| - 1].title) {
        var f := FileOf(b[|b| - 1]).value;
        assert Files(a).value + (Files(init).value + [f]) == (Files(a).value + Files(init).value) + [f];
      }
    }
  }

  /** The first file of that title. */
  function Find(files: seq<FileGroup>, title: string): Option<FileGroup> {
    if files == [] then None else if files[0].title == title then Some(files[0]) else Find(files[1..], title)
  }

  lemma {:induction false} FindAppend(a: seq<FileGroup>, b: seq<FileGroup>, title: string)
    ensures Find(a + b, title) == if Find(a, title).Some? then Find(a, title) else Find(b, title)
  {
    if a == [] {
      assert a + b == b;
    } else {
      assert (a + b)[1..] == a[1..] + b;
      FindAppend(a[1..], b, title);
    }
  }

  lemma {:induction false} FindNone(files: seq<FileGroup>, title: string)
    ensures Find(files, title).None? <==> forall f :: f in files ==> f.title != title
    ensures Find(files, title).Some? ==> Find(files, title).value in files && Find(files, title).value.title == title
  {
    if files != [] {
      FindNone(files[1..], title);
      assert files == [files[0]] + files[1..];
    }
  }

  /** Looking up one file: chunked, or plain with a digest; anything else is not found. */
  function Resolved(files: seq<FileGroup>, filename: string): Result<FileGroup, ManifestError> {
    match Find(files, filename)
    case None => Err(EntryNotFound(filename))
    case Some(f) => if f.pointer.Some? || f.digest != "" then Ok(f) else Err(EntryNotFound(filename))
  }

  predicate FirstNamed(files: seq<FileGroup>, k: int, title: string) {
    0 <= k < |files| && files[k].title == title && forall i :: 0 <= i < k ==> files[i].title != title
  }

  /** When a lookup fails: no file has the name, or the first that has it is plain without a digest. */
  lemma LookupTable(files: seq<FileGroup>, filename: string)
    ensures Resolved(files, filename).Err? <==>
            (forall f :: f in files ==> f.title != filename)
            || exists k :: FirstNamed(files, k, filename) && files[k].pointer.None? && files[k].digest == ""
    ensures Resolved(files, filename).Ok? ==>
              exists k :: FirstNamed(files, k, filename) && Resolved(files, filename) == Ok(files[k])
    ensures Resolved(files, filename).Err? ==> Resolved(files, filename) == Err(EntryNotFound(filename))
  {
    FindFirst(files, filename);
    FindNone(files, filename);
  }

  /** The file found is the first of its name. */
  lemma {:induction false} FindFirst(files: seq<FileGroup>, title: string)
    ensures Find(files, title).Some? ==> exists k :: FirstNamed(files, k, title) && Find(files, title) == Some(files[k])
  {
    if files != [] && files[0].title != title && Find(files, title).Some? {
      FindFirst(files[1..], title);
      var k :| FirstNamed(files[1..], k, title) && Find(files[1..], title) == Some(files[1..][k]);
      assert files[k + 1] == files[1..][k];
      assert forall i :: 1 <= i < k + 1 ==> files[i] == files[1..][i - 1];
      assert FirstNamed(files, k + 1, title);
    } else if files != [] && files[0].title == title {
      assert FirstNamed(files, 0, title);
    }
  }

  method ResolveFileGroup(layers: seq<Layer>, filename: string) returns (r: Result<FileGroup, ManifestError>)
    ensures Files(layers).Err? ==> r == Err(Files(layers).error)
    ensures Files(layers).Ok? ==> r == Resolved(Files(layers).value, filename)
  {
    var files := GroupFiles(layers);
    if files.Err? {
      return Err(files.error);
    }
    var groups := files.value;
    for i := 0 to |groups|
      invariant Find(groups, filename) == Find(groups[i..], filename)
    {
      if groups[i].title == filename {
        if groups[i].pointer.Some? || groups[i].digest != "" {
          return Ok(groups[i]);
        }
        break;
      }
    }
    return Err(EntryNotFound(filename));
  }

  function Without(files: seq<FileGroup>, titles: set<string>): seq<FileGroup> {
    if files == [] then
      []
    else
      var rest, last := Without(files[..|files| - 1], titles), files[|files| - 1];
      if last.title in titles then rest else rest + [last]
  }

  lemma {:induction false} WithoutAppend(a: seq<FileGroup>, b: seq<FileGroup>, titles: set<string>)
    ensures Without(a + b, titles) == Without(a, titles) + Without(b, titles)
  {
    if b == [] {
      assert a + b == a;
    } else {
      var init := b[..|b| - 1];
      WithoutAppend(a, init, titles);
      assert (a + b)[..|a + b| - 1] == a + init;
    }
  }

  lemma {:induction false} FindWithout(files: seq<FileGroup>, titles: set<string>, title: string)
    ensures Find(Without(files, titles), title) == if title in titles then None else Find(files, title)
  {
    if files != [] {
      var init, last := files[..|files| - 1], files[|files| - 1];
      FindWithout(init, titles, title);
      assert files == init + [last];
      FindAppend(init, [last], title);
      FindAppend(Without(init, titles), [last], title);
    }
  }

  /** A group stands for one file when it is titled, and for none otherwise. */
  lemma {:induction false} FilesOfGroup(g: Group)
    requires GroupOk(g) && Files(g.layers).Ok?
    ensures !Named(g.title) ==> Files(g.layers).value == []
    ensures Named(g.title) ==> |Files(g.layers).value| == 1 && Files(g.layers).value[0].title == g.title.value
    decreases |g.layers|
  {
    var init := g.layers[..|g.layers| - 1];
    if |g.layers| == 1 {
      assert init == [] && Files(init) == Ok([]);
    } else {
      FilesOfGroup(Group(g.title, init));
    }
  }

  lemma {:induction false} FilesOfSurviving(groups: seq<Group>, titles: set<string>)
    requires WellGrouped(groups) && Files(LayersOf(groups)).Ok?
    ensures Files(LayersOf(Surviving(groups, titles))) == Ok(Without(Files(LayersOf(groups)).value, titles))
  {
    if groups != [] {
      var init, g := groups[..|groups| - 1], groups[|groups| - 1];
      FilesPrefixOk(LayersOf(init), g.layers);
      FilesOfSurviving(init, titles);
      FilesAppend(LayersOf(init), g.layers);
      FilesOfGroup(g);
      var own := Files(g.layers).value;
      WithoutAppend(Files(LayersOf(init)).value, own, titles);
      OneWithout(own, titles);
      if !Dropped(g, titles) {
        LayersOfSnoc(Surviving(init, titles), g);
        FilesAppend(LayersOf(Surviving(init, titles)), g.layers);
      }
    }
  }

  lemma OneWithout(files: seq<FileGroup>, titles: set<string>)
    requires |files| <= 1
    ensures Without(files, titles) == if |files| == 1 && files[0].title in titles then [] else files
  {
  }

  lemma {:induction false} FilesPrefixOk(a: seq<Layer>, b: seq<Layer>)
    requires Files(a + b).Ok?
    ensures Files(a).Ok?
  {
    if b == [] {
      assert a + b == a;
    } else {
      assert (a + b)[..|a + b| - 1] == a + b[..|b| - 1];
      FilesPrefixOk(a, b[..|b| - 1]);
    }
  }

  /** The file list commutes with a merge: the old files that are not replaced or deleted,
      then the new ones. */
  lemma FilesOfMerge(existing: seq<Layer>, newLayers: seq<Layer>, deletes: set<string>)
    requires Files(existing).Ok? && Files(newLayers).Ok?
    ensures Files(Merge(existing, newLayers, deletes))
            == Ok(Without(Files(existing).value, Gone(newLayers, deletes)) + Files(newLayers).value)
  {
    var gone := Gone(newLayers, deletes);
    PartitionSplits(existing);
    FilesOfSurviving(Partition(existing), gone);
    FilesAppend(LayersOf(Surviving(Partition(existing), gone)), newLayers);
  }

  lemma {:induction false} TitlesOfFiles(groups: seq<Group>, title: string)
    requires WellGrouped(groups) && Files(LayersOf(groups)).Ok?
    ensures title in Titles(groups) <==> Find(Files(LayersOf(groups)).value, title).Some?
  {
    if groups != [] {
      var init, g := groups[..|groups| - 1], groups[|groups| - 1];
      FilesPrefixOk(LayersOf(init), g.layers);
      TitlesOfFiles(init, title);
      FilesAppend(LayersOf(init), g.layers);
      FilesOfGroup(g);
      FindAppend(Files(LayersOf(init)).value, Files(g.layers).value, title);
      TitlesSnoc(groups, title);
    }
  }

  lemma TitlesSnoc(groups: seq<Group>, title: string)
    requires groups != []
    ensures title in Titles(groups) <==>
            title in Titles(groups[..|groups| - 1]) || (title != "" && groups[|groups| - 1].title == Some(title))
  {
    var init, g := groups[..|groups| - 1], groups[|groups| - 1];
    assert groups == init + [g];
    if title in Titles(init) {
      var h :| h in init && Named(h.title) && h.title.value == title;
      assert h in groups;
    }
  }

  /** A commit is a map update: looking a title up afterwards gives the new file if the commit
      brings one, nothing if it deletes it, and the old file otherwise. */
  lemma MergeIsMapUpdate(existing: seq<Layer>, newLayers: seq<Layer>, deletes: set<string>, title: string)
    requires Files(existing).Ok? && Files(newLayers).Ok?
    ensures Files(Merge(existing, newLayers, deletes)).Ok?
    ensures Find(Files(Merge(existing, newLayers, deletes)).value, title)
            == if Find(Files(newLayers).value, title).Some? then Find(Files(newLayers).value, title)
               else if title in deletes then None
               else Find(Files(existing).value, title)
  {
    var gone := Gone(newLayers, deletes);
    FilesOfMerge(existing, newLayers, deletes);
    FindAppend(Without(Files(existing).value, gone), Files(newLayers).value, title);
    FindWithout(Files(existing).value, gone, title);
    PartitionSplits(newLayers);
    TitlesOfFiles(Partition(newLayers), title);
  }

  predicate DistinctTitles(files: seq<FileGroup>) {
    forall i, j :: 0 <= i < j < |files| ==> files[i].title != files[j].title
  }

  lemma {:induction false} WithoutTitles(files: seq<FileGroup>, titles: set<string>)
    ensures forall f :: f in Without(files, titles) ==> f in files && f.title !in titles
  {
    if files != [] {
      WithoutTitles(files[..|files| - 1], titles);
    }
  }

  lemma {:induction false} WithoutDistinct(files: seq<FileGroup>, titles: set<string>)
    requires DistinctTitles(files)
    ensures DistinctTitles(Without(files, titles))
  {
    if files != [] {
      WithoutDistinct(files[..|files| - 1], titles);
      WithoutTitles(files[..|files| - 1], titles);
    }
  }

  lemma DistinctAppend(a: seq<FileGroup>, b: seq<FileGroup>)
    ensures DistinctTitles(a + b) <==>
            && DistinctTitles(a) && DistinctTitles(b)
            && forall i, j :: 0 <= i < |a| && 0 <= j < |b| ==> a[i].title != b[j].title
  {
    var c := a + b;
    if DistinctTitles(c) {
      forall i, j | 0 <= i < j < |a|
        ensures a[i].title != a[j].title
      {
        assert c[i].title != c[j].title;
      }
      forall i, j | 0 <= i < j < |b|
        ensures b[i].title != b[j].title
      {
        assert c[|a| + i].title != c[|a| + j].title;
      }
      forall i, j | 0 <= i < |a| && 0 <= j < |b|
        ensures a[i].title != b[j].title
      {
        assert c[i].title != c[|a| + j].title;
      }
    }
  }

  /** Titles are distinct after a commit exactly when those of the survivors are and those of the new
      layers are: a survivor never clashes with a new file. So they stay distinct across commits that
      each bring distinct ones. */
  lemma MergeDistinct(existing: seq<Layer>, newLayers: seq<Layer>, deletes: set<string>)
    requires Files(existing).Ok? && Files(newLayers).Ok?
    ensures Files(Merge(existing, newLayers, deletes)).Ok?
    ensures DistinctTitles(Files(Merge(existing, newLayers, deletes)).value) <==>
            && DistinctTitles(Without(Files(existing).value, Gone(newLayers, deletes)))
            && DistinctTitles(Files(newLayers).value)
    ensures DistinctTitles(Files(existing).value) && DistinctTitles(Files(newLayers).value) ==>
              DistinctTitles(Files(Merge(existing, newLayers, deletes)).value)
  {
    var gone := Gone(newLayers, deletes);
    var kept, added := Without(Files(existing).value, gone), Files(newLayers).value;
    FilesOfMerge(existing, newLayers, deletes);
    WithoutTitles(Files(existing).value, gone);
    if DistinctTitles(Files(existing).value) {
      WithoutDistinct(Files(existing).value, gone);
    }
    DistinctAppend(kept, added);
    forall i, j | 0 <= i < |kept| && 0 <= j < |added|
      ensures kept[i].title != added[j].title
    {
      PartitionSplits(newLayers);
      TitlesOfFiles(Partition(newLayers), added[j].title);
      FindNone(added, added[j].title);
      assert kept[i] in kept && added[j] in added;
    }
  }
}
