/** Manifests: a flat layer list that stands for a set of files (hippius_hub/_oci.py), and
    the merge that edits it a whole file at a time (hippius_hub/file_upload.py). */
module Manifest {
  import opened Basics
  import opened Text

  datatype MediaType = PointerLayer | PackLayer | OtherLayer

  /** The whole-file annotations of a pointer layer. */
  datatype FileAnnotations = FileAnnotations(chunkCount: int, size: int, digest: Digest)

  datatype Layer = Layer(
    mediaType: MediaType,
    size: nat,
    digest: Digest,
    title: Option<string>,
    file: Option<FileAnnotations>)

  /** A title that is present and not empty. */
  predicate Named(title: Option<string>) {
    title.Some? && title.value != ""
  }

  /** A file's layers: a titled head and the untitled layers attached to it. */
  datatype Group = Group(title: Option<string>, layers: seq<Layer>)

  /** A titled layer starts a group; any other joins the last one. */
  function AddLayer(groups: seq<Group>, layer: Layer): seq<Group> {
    if Named(layer.title) || groups == [] then
      groups + [Group(layer.title, [layer])]
    else
      var g := groups[|groups| - 1];
      groups[..|groups| - 1] + [Group(g.title, g.layers + [layer])]
  }

  function Partition(layers: seq<Layer>): seq<Group> {
    if layers == [] then [] else AddLayer(Partition(layers[..|layers| - 1]), layers[|layers| - 1])
  }

  method PartitionGroups(layers: seq<Layer>) returns (groups: seq<Group>)
    ensures groups == Partition(layers)
  {
    groups := [];
    for i := 0 to |layers|
      invariant groups == Partition(layers[..i])
    {
      assert layers[..i + 1][..i] == layers[..i];
      var layer := layers[i];
      if Named(layer.title) || groups == [] {
        groups := groups + [Group(layer.title, [layer])];
      } else {
        var g := groups[|groups| - 1];
        groups := groups[|groups| - 1 := Group(g.title, g.layers + [layer])];
      }
    }
    assert layers[..|layers|] == layers;
  }

  function LayersOf(groups: seq<Group>): seq<Layer> {
    if groups == [] then [] else LayersOf(groups[..|groups| - 1]) + groups[|groups| - 1].layers
  }

  /** A head layer that gives the group its title, and no other titled layer. */
  predicate GroupOk(g: Group) {
    && g.layers != []
    && g.title == g.layers[0].title
    && forall j :: 1 <= j < |g.layers| ==> !Named(g.layers[j].title)
  }

  /** Every group is whole, and only the first may lack a title. */
  predicate WellGrouped(groups: seq<Group>) {
    forall k :: 0 <= k < |groups| ==> GroupOk(groups[k]) && (k > 0 ==> Named(groups[k].title))
  }

  lemma LayersOfSnoc(groups: seq<Group>, g: Group)
    ensures LayersOf(groups + [g]) == LayersOf(groups) + g.layers
  {
    assert (groups + [g])[..|groups|] == groups;
  }

  lemma OneGroupLayers(g: Group)
    ensures LayersOf([g]) == g.layers
  {
    assert [g][..0] == [];
  }

  lemma {:induction false} LayersOfAppend(a: seq<Group>, b: seq<Group>)
    ensures LayersOf(a + b) == LayersOf(a) + LayersOf(b)
  {
    if b == [] {
      assert a + b == a;
    } else {
      var init, last := b[..|b| - 1], b[|b| - 1];
      LayersOfAppend(a, init);
      LayersOfSnoc(a + init, last);
      assert a + b == (a + init) + [last];
      Associative(LayersOf(a), LayersOf(init), last.layers);
    }
  }

  lemma AddLayerKeeps(groups: seq<Group>, layer: Layer)
    requires WellGrouped(groups)
    ensures WellGrouped(AddLayer(groups, layer))
    ensures LayersOf(AddLayer(groups, layer)) == LayersOf(groups) + [layer]
  {
    if Named(layer.title) || groups == [] {
      LayersOfSnoc(groups, Group(layer.title, [layer]));
    } else {
      var init, g := groups[..|groups| - 1], groups[|groups| - 1];
      LayersOfSnoc(init, Group(g.title, g.layers + [layer]));
      assert LayersOf(init) + (g.layers + [layer]) == (LayersOf(init) + g.layers) + [layer];
    }
  }

  /** `groups` splits `layers` losing nothing and cutting only at titles. */
  predicate Splits(groups: seq<Group>, layers: seq<Layer>) {
    LayersOf(groups) == layers && WellGrouped(groups)
  }

  lemma AddLayerSplits(groups: seq<Group>, layers: seq<Layer>, layer: Layer)
    requires Splits(groups, layers)
    ensures Splits(AddLayer(groups, layer), layers + [layer])
  {
    AddLayerKeeps(groups, layer);
  }

  /** Partitioning splits any layer list. */
  lemma {:induction false} PartitionSplits(layers: seq<Layer>)
    ensures Splits(Partition(layers), layers)
  {
    if layers != [] {
      var init, last := layers[..|layers| - 1], layers[|layers| - 1];
      PartitionSplits(init);
      AddLayerSplits(Partition(init), init, last);
      assert layers == init + [last];
    }
  }

  /** The groups before the last layer was added. */
  function WithoutLast(groups: seq<Group>): seq<Group>
    requires groups != []
  {
    var init, g := groups[..|groups| - 1], groups[|groups| - 1];
    if |g.layers| <= 1 then init else init + [Group(g.title, g.layers[..|g.layers| - 1])]
  }

  lemma WithoutLastAdds(groups: seq<Group>)
    requires groups != [] && WellGrouped(groups)
    ensures WellGrouped(WithoutLast(groups))
    ensures var g := groups[|groups| - 1];
            var last := g.layers[|g.layers| - 1];
            && AddLayer(WithoutLast(groups), last) == groups
            && LayersOf(groups) == LayersOf(WithoutLast(groups)) + [last]
  {
    var init, g := groups[..|groups| - 1], groups[|groups| - 1];
    var last := g.layers[|g.layers| - 1];
    assert groups == init + [g];
    if |g.layers| == 1 {
      assert g == Group(last.title, [last]);
    } else {
      var shorter := Group(g.title, g.layers[..|g.layers| - 1]);
      assert shorter.layers + [last] == g.layers;
      assert WithoutLast(groups)[..|groups| - 1] == init;
    }
    AddLayerKeeps(WithoutLast(groups), last);
  }

  /** And it is the only way to do so. */
  lemma {:induction false} PartitionUnique(groups: seq<Group>)
    requires WellGrouped(groups)
    ensures Partition(LayersOf(groups)) == groups
    decreases |LayersOf(groups)|
  {
    if groups != [] {
      var layers := LayersOf(groups);
      WithoutLastAdds(groups);
      assert layers[..|layers| - 1] == LayersOf(WithoutLast(groups));
      PartitionUnique(WithoutLast(groups));
    }
  }

  /** Titles that name a group of the list. */
  function Titles(groups: seq<Group>): set<string> {
    set g | g in groups && Named(g.title) :: g.title.value
  }

  predicate Dropped(g: Group, titles: set<string>) {
    g.title.Some? && g.title.value in titles
  }

  /** The groups whose title is not in `titles`, in order. */
  function Surviving(groups: seq<Group>, titles: set<string>): seq<Group> {
    if groups == [] then
      []
    else
      var rest, g := Surviving(groups[..|groups| - 1], titles), groups[|groups| - 1];
      if Dropped(g, titles) then rest else rest + [g]
  }

  /** What a commit replaces or deletes. */
  function Gone(newLayers: seq<Layer>, deletes: set<string>): set<string> {
    deletes + Titles(Partition(newLayers))
  }

  function Merge(existing: seq<Layer>, newLayers: seq<Layer>, deletes: set<string>): seq<Layer> {
    LayersOf(Surviving(Partition(existing), Gone(newLayers, deletes))) + newLayers
  }

  method MergeLayers(existing: seq<Layer>, newLayers: seq<Layer>, deletes: set<string>) returns (result: seq<Layer>)
    ensures result == Merge(existing, newLayers, deletes)
  {
    var newGroups := PartitionGroups(newLayers);
    var newTitles := set g | g in newGroups && Named(g.title) :: g.title.value;
    ghost var gone := deletes + newTitles;
    result := [];
    var groups := PartitionGroups(existing);
    for i := 0 to |groups|
      invariant result == LayersOf(Surviving(groups[..i], gone))
    {
      SurvivingSnoc(groups, i, gone);
      var g := groups[i];
      if g.title.Some? && (g.title.value in deletes || g.title.value in newTitles) {
        continue;
      }
      result := result + g.layers;
    }
    assert groups[..|groups|] == groups;
    result := result + newLayers;
  }

  lemma SurvivingSnoc(groups: seq<Group>, i: nat, titles: set<string>)
    requires i < |groups|
    ensures Surviving(groups[..i + 1], titles) ==
            if Dropped(groups[i], titles) then Surviving(groups[..i], titles)
            else Surviving(groups[..i], titles) + [groups[i]]
    ensures LayersOf(Surviving(groups[..i], titles) + [groups[i]])
            == LayersOf(Surviving(groups[..i], titles)) + groups[i].layers
  {
    assert groups[..i + 1][..i] == groups[..i];
    LayersOfSnoc(Surviving(groups[..i], titles), groups[i]);
  }

  lemma {:induction false} SurvivingWellGrouped(groups: seq<Group>, titles: set<string>)
    requires WellGrouped(groups)
    ensures WellGrouped(Surviving(groups, titles))
    ensures forall g :: g in Surviving(groups, titles) <==> g in groups && !Dropped(g, titles)
  {
    if groups != [] {
      var init, last := groups[..|groups| - 1], groups[|groups| - 1];
      SurvivingWellGrouped(init, titles);
      assert groups == init + [last];
      if init == [] {
        assert Surviving(init, titles) == [];
      }
    }
  }

  lemma {:induction false} SurvivingAppend(a: seq<Group>, b: seq<Group>, titles: set<string>)
    ensures Surviving(a + b, titles) == Surviving(a, titles) + Surviving(b, titles)
  {
    if b == [] {
      assert a + b == a;
    } else {
      var init := b[..|b| - 1];
      assert (a + b)[..|a + b| - 1] == a + init;
      SurvivingAppend(a, init, titles);
    }
  }

  lemma {:induction false} SurvivingTwice(groups: seq<Group>, titles: set<string>)
    ensures Surviving(Surviving(groups, titles), titles) == Surviving(groups, titles)
  {
    if groups != [] {
      var init, last := groups[..|groups| - 1], groups[|groups| - 1];
      SurvivingTwice(init, titles);
      var kept := Surviving(init, titles);
      assert (kept + [last])[..|kept|] == kept;
    }
  }

  lemma {:induction false} SurvivingNone(groups: seq<Group>, titles: set<string>)
    requires forall g :: g in groups ==> Dropped(g, titles)
    ensures Surviving(groups, titles) == []
  {
    if groups != [] {
      SurvivingNone(groups[..|groups| - 1], titles);
    }
  }

  /** A merge keeps every surviving group whole and in order, and adds the new groups after
      them, exactly when the new layers do not begin with a layer that would attach to the
      last survivor. */
  lemma MergePartition(existing: seq<Layer>, newLayers: seq<Layer>, deletes: set<string>)
    ensures var kept := Surviving(Partition(existing), Gone(newLayers, deletes));
            Partition(Merge(existing, newLayers, deletes)) == kept + Partition(newLayers)
            <==> newLayers == [] || kept == [] || Named(newLayers[0].title)
  {
    PartitionSplits(existing);
    SurvivingWellGrouped(Partition(existing), Gone(newLayers, deletes));
    AppendLayers(Surviving(Partition(existing), Gone(newLayers, deletes)), newLayers);
  }

  lemma AppendLayers(kept: seq<Group>, newLayers: seq<Layer>)
    requires WellGrouped(kept)
    ensures Partition(LayersOf(kept) + newLayers) == kept + Partition(newLayers)
            <==> newLayers == [] || kept == [] || Named(newLayers[0].title)
  {
    var added := Partition(newLayers);
    PartitionSplits(newLayers);
    LayersOfAppend(kept, added);
    PartitionHead(newLayers);
    if newLayers == [] || kept == [] || Named(newLayers[0].title) {
      JoinWellGrouped(kept, added);
      PartitionUnique(kept + added);
    } else {
      PartitionSplits(LayersOf(kept) + newLayers);
      assert (kept + added)[|kept|] == added[0];
    }
  }

  lemma JoinWellGrouped(a: seq<Group>, b: seq<Group>)
    requires WellGrouped(a) && WellGrouped(b)
    requires a == [] || b == [] || Named(b[0].title)
    ensures WellGrouped(a + b)
  {
  }

  lemma PartitionHead(layers: seq<Layer>)
    ensures layers == [] <==> Partition(layers) == []
    ensures layers != [] ==> Partition(layers)[0].title == layers[0].title
  {
    PartitionSplits(layers);
    if Partition(layers) != [] {
      FirstLayer(Partition(layers));
    }
  }

  lemma {:induction false} FirstLayer(groups: seq<Group>)
    requires groups != [] && WellGrouped(groups)
    ensures LayersOf(groups) != [] && LayersOf(groups)[0] == groups[0].layers[0]
  {
    var init := groups[..|groups| - 1];
    if init == [] {
      assert LayersOf(init) == [];
    } else {
      FirstLayer(init);
    }
  }
}
