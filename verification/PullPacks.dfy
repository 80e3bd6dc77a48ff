/** Turning a pointer into a pack download plan (hippius_hub/file_download.py), checking it
    (src/chunk_fetcher/assemble.rs), and why it rebuilds the file. */
module PullPacks {
  import opened Basics
  import opened Text
  import opened Constants
  import opened PackStore
  import opened ParallelWrite

  /** One chunk to carve out of a pack: where it sits there, and where it goes in the file. */
  datatype Target = Target(offsetInPack: nat, size: nat, fileOffset: nat, digest: Digest)

  datatype PackEntry = PackEntry(pack: Digest, size: nat, chunks: seq<Target>)

  datatype PullError =
    | UnlistedPack(pack: Digest)
    | PackOverCeiling(pack: Digest)
    | OffsetOverflow(fileOffset: nat)
    | OverrunsFile(fileOffset: nat)

  /** A chunk's file offset is the total size of the chunks before it. */
  function TargetAt(refs: seq<ChunkRef>, i: nat): Target
    requires i < |refs|
  {
    Target(refs[i].offset, refs[i].size, RefsSize(refs[..i]), refs[i].digest)
  }

  /** The positions of the chunks that live in `pack`, in file order. */
  function Indices(refs: seq<ChunkRef>, pack: Digest): (r: seq<nat>)
    ensures forall k :: 0 <= k < |r| ==> r[k] < |refs|
  {
    if refs == [] then
      []
    else
      var init, n := refs[..|refs| - 1], |refs| - 1;
      var r := Indices(init, pack);
      if refs[n].pack == pack then r + [n] else r
  }

  lemma {:induction false} IndicesSpec(refs: seq<ChunkRef>, pack: Digest)
    ensures forall k :: 0 <= k < |Indices(refs, pack)| ==> refs[Indices(refs, pack)[k]].pack == pack
    ensures forall k, l :: 0 <= k < l < |Indices(refs, pack)| ==> Indices(refs, pack)[k] < Indices(refs, pack)[l]
    ensures forall i :: 0 <= i < |refs| && refs[i].pack == pack ==> i in Indices(refs, pack)
  {
    if refs != [] {
      IndicesSpec(refs[..|refs| - 1], pack);
    }
  }

  function TargetsIn(refs: seq<ChunkRef>, pack: Digest): seq<Target> {
    var r := Indices(refs, pack);
    seq(|r|, k requires 0 <= k < |r| => TargetAt(refs, r[k]))
  }

  /** The packs in order of first appearance. */
  function PackOrder(refs: seq<ChunkRef>): seq<Digest> {
    if refs == [] then
      []
    else
      var r, last := PackOrder(refs[..|refs| - 1]), refs[|refs| - 1];
      if last.pack in r then r else r + [last.pack]
  }

  ghost predicate Names(refs: seq<ChunkRef>, pack: Digest) {
    exists i :: 0 <= i < |refs| && refs[i].pack == pack
  }

  /** A pack that appears later comes later: more chunks only add packs at the end. */
  lemma {:induction false} PackOrderGrows(refs: seq<ChunkRef>, n: nat)
    requires n <= |refs|
    ensures PackOrder(refs[..n]) <= PackOrder(refs)
  {
    if n == |refs| {
      assert refs[..n] == refs;
    } else {
      var init := refs[..|refs| - 1];
      PackOrderGrows(init, n);
      assert init[..n] == refs[..n];
    }
  }

  lemma {:induction false} PackOrderSpec(refs: seq<ChunkRef>)
    ensures forall k, l :: 0 <= k < l < |PackOrder(refs)| ==> PackOrder(refs)[k] != PackOrder(refs)[l]
    ensures forall d :: d in PackOrder(refs) <==> Names(refs, d)
  {
    if refs != [] {
      var init, last := refs[..|refs| - 1], refs[|refs| - 1];
      PackOrderSpec(init);
      assert refs == init + [last];
      forall d
        ensures Names(refs, d) <==> Names(init, d) || last.pack == d
      {
        NamesSnoc(init, last, d);
      }
    }
  }

  lemma NamesSnoc(init: seq<ChunkRef>, last: ChunkRef, d: Digest)
    ensures Names(init + [last], d) <==> Names(init, d) || last.pack == d
  {
    var refs := init + [last];
    if Names(init, d) {
      var i :| 0 <= i < |init| && init[i].pack == d;
      assert refs[i].pack == d;
    }
    if last.pack == d {
      assert refs[|init|].pack == d;
    }
  }

  /** A pack that no chunk names has no targets. */
  lemma {:induction false} NoIndices(refs: seq<ChunkRef>, pack: Digest)
    requires pack !in PackOrder(refs)
    ensures Indices(refs, pack) == []
  {
    if refs != [] {
      NoIndices(refs[..|refs| - 1], pack);
    }
  }

  lemma TargetsSnoc(refs: seq<ChunkRef>, n: nat, pack: Digest)
    requires n < |refs|
    ensures TargetsIn(refs[..n + 1], pack) ==
            if refs[n].pack == pack then TargetsIn(refs[..n], pack) + [TargetAt(refs, n)]
            else TargetsIn(refs[..n], pack)
  {
    var before, after := refs[..n], refs[..n + 1];
    assert after[..n] == before;
    var r := Indices(before, pack);
    forall k | 0 <= k < |r|
      ensures TargetAt(after, r[k]) == TargetAt(before, r[k])
    {
      assert after[..r[k]] == before[..r[k]];
    }
  }

  /** The entries of the plan, when every pack has a listed size. */
  function Entries(refs: seq<ChunkRef>, sizes: map<Digest, nat>, order: seq<Digest>): Result<seq<PackEntry>, PullError> {
    if order == [] then
      Ok([])
    else
      match Entries(refs, sizes, order[..|order| - 1])
      case Err(e) => Err(e)
      case Ok(entries) =>
        var pack := order[|order| - 1];
        if pack !in sizes then Err(UnlistedPack(pack))
        else Ok(entries + [PackEntry(pack, sizes[pack], TargetsIn(refs, pack))])
  }

  function PullPlan(refs: seq<ChunkRef>, sizes: map<Digest, nat>): Result<seq<PackEntry>, PullError> {
    Entries(refs, sizes, PackOrder(refs))
  }

  /** `byPack`, with its keys in the order they were added, groups the first `n` chunks. */
  ghost predicate Grouped(refs: seq<ChunkRef>, n: nat, order: seq<Digest>, byPack: map<Digest, seq<Target>>)
    requires n <= |refs|
  {
    && order == PackOrder(refs[..n])
    && (forall d :: d in byPack <==> d in order)
    && (forall d :: d in byPack ==> byPack[d] == TargetsIn(refs[..n], d))
  }

  /** One more chunk adds its target to its own pack, and changes no other. */
  lemma TargetsNext(refs: seq<ChunkRef>, n: nat)
    requires n < |refs|
    ensures forall d :: TargetsIn(refs[..n + 1], d) ==
              if d == refs[n].pack then TargetsIn(refs[..n], d) + [TargetAt(refs, n)] else TargetsIn(refs[..n], d)
  {
    forall d
      ensures TargetsIn(refs[..n + 1], d) ==
              if d == refs[n].pack then TargetsIn(refs[..n], d) + [TargetAt(refs, n)] else TargetsIn(refs[..n], d)
    {
      TargetsSnoc(refs, n, d);
    }
  }

  lemma OrderNext(refs: seq<ChunkRef>, n: nat)
    requires n < |refs|
    ensures PackOrder(refs[..n + 1]) ==
            if refs[n].pack in PackOrder(refs[..n]) then PackOrder(refs[..n]) else PackOrder(refs[..n]) + [refs[n].pack]
  {
    assert refs[..n + 1][..n] == refs[..n];
  }

  lemma GroupOld(refs: seq<ChunkRef>, n: nat, order: seq<Digest>, byPack: map<Digest, seq<Target>>)
    requires n < |refs| && Grouped(refs, n, order, byPack) && refs[n].pack in byPack
    ensures Grouped(refs, n + 1, order, byPack[refs[n].pack := byPack[refs[n].pack] + [TargetAt(refs, n)]])
  {
    OrderNext(refs, n);
    TargetsNext(refs, n);
  }

  lemma GroupNew(refs: seq<ChunkRef>, n: nat, order: seq<Digest>, byPack: map<Digest, seq<Target>>)
    requires n < |refs| && Grouped(refs, n, order, byPack) && refs[n].pack !in byPack
    ensures Grouped(refs, n + 1, order + [refs[n].pack], byPack[refs[n].pack := [TargetAt(refs, n)]])
  {
    OrderNext(refs, n);
    TargetsNext(refs, n);
    NoIndices(refs[..n], refs[n].pack);
    assert TargetsIn(refs[..n], refs[n].pack) == [];
    assert [] + [TargetAt(refs, n)] == [TargetAt(refs, n)];
  }

  method GroupByPack(refs: seq<ChunkRef>)
    returns (order: seq<Digest>, byPack: map<Digest, seq<Target>>, totalSize: nat)
    ensures totalSize == RefsSize(refs)
    ensures Grouped(refs, |refs|, order, byPack)
  {
    order, byPack, totalSize := [], map[], 0;
    for i := 0 to |refs|
      invariant totalSize == RefsSize(refs[..i])
      invariant Grouped(refs, i, order, byPack)
    {
      assert refs[..i + 1][..i] == refs[..i];
      var ref := refs[i];
      var t := Target(ref.offset, ref.size, totalSize, ref.digest);
      if ref.pack in byPack {
        GroupOld(refs, i, order, byPack);
        byPack := byPack[ref.pack := byPack[ref.pack] + [t]];
      } else {
        GroupNew(refs, i, order, byPack);
        order := order + [ref.pack];
        byPack := byPack[ref.pack := [t]];
      }
      totalSize := totalSize + ref.size;
    }
    assert refs[..|refs|] == refs;
  }

  method PlanPull(refs: seq<ChunkRef>, sizes: map<Digest, nat>)
    returns (r: Result<seq<PackEntry>, PullError>, totalSize: nat)
    ensures totalSize == RefsSize(refs)
    ensures r == PullPlan(refs, sizes)
  {
    var order, byPack;
    order, byPack, totalSize := GroupByPack(refs);
    assert refs[..|refs|] == refs;
    r := ListEntries(refs, sizes, order, byPack);
  }

  method ListEntries(refs: seq<ChunkRef>, sizes: map<Digest, nat>, order: seq<Digest>, byPack: map<Digest, seq<Target>>)
    returns (r: Result<seq<PackEntry>, PullError>)
    requires forall k :: 0 <= k < |order| ==> order[k] in byPack && byPack[order[k]] == TargetsIn(refs, order[k])
    ensures r == Entries(refs, sizes, order)
  {
    var entries: seq<PackEntry> := [];
    for k := 0 to |order|
      invariant Entries(refs, sizes, order[..k]) == Ok(entries)
    {
      assert order[..k + 1][..k] == order[..k];
      var pack := order[k];
      if pack !in sizes {
        EntriesErr(refs, sizes, order, k + 1);
        return Err(UnlistedPack(pack));
      }
      entries := entries + [PackEntry(pack, sizes[pack], byPack[pack])];
    }
    assert order[..|order|] == order;
    return Ok(entries);
  }

  lemma {:induction false} EntriesErr(refs: seq<ChunkRef>, sizes: map<Digest, nat>, order: seq<Digest>, n: nat)
    requires n <= |order| && Entries(refs, sizes, order[..n]).Err?
    ensures Entries(refs, sizes, order) == Entries(refs, sizes, order[..n])
  {
    if n == |order| {
      assert order[..n] == order;
    } else {
      assert order[..|order| - 1][..n] == order[..n];
      EntriesErr(refs, sizes, order[..|order| - 1], n);
    }
  }

  /** What plan validation accepts. */
  predicate Acceptable(e: PackEntry, totalSize: nat) {
    e.size <= MAX_PACK_BYTES
    && forall j :: 0 <= j < |e.chunks| ==>
         e.chunks[j].fileOffset + e.chunks[j].size <= U64_MAX && e.chunks[j].fileOffset + e.chunks[j].size <= totalSize
  }

  /** One pack of one chunk: accepted exactly within the ceiling of 1 GiB, 64 bits and the file. */
  lemma ValidationTable(pack: Digest, size: nat, t: Target, totalSize: nat)
    ensures Acceptable(PackEntry(pack, size, [t]), totalSize) <==>
            size <= 1_073_741_824 && t.fileOffset + t.size <= 0xFFFF_FFFF_FFFF_FFFF && t.fileOffset + t.size <= totalSize
  {
    assert [t][0] == t;
  }

  method ValidatePackPlan(entries: seq<PackEntry>, totalSize: nat) returns (r: Option<PullError>)
    ensures r.None? <==> forall k :: 0 <= k < |entries| ==> Acceptable(entries[k], totalSize)
  {
    for k := 0 to |entries|
      invariant forall l :: 0 <= l < k ==> Acceptable(entries[l], totalSize)
    {
      var e := entries[k];
      if e.size > MAX_PACK_BYTES {
        return Some(PackOverCeiling(e.pack));
      }
      for j := 0 to |e.chunks|
        invariant forall i :: 0 <= i < j ==>
          e.chunks[i].fileOffset + e.chunks[i].size <= U64_MAX && e.chunks[i].fileOffset + e.chunks[i].size <= totalSize
      {
        var c := e.chunks[j];
        if c.fileOffset + c.size > U64_MAX {
          return Some(OffsetOverflow(c.fileOffset));
        }
        if c.fileOffset + c.size > totalSize {
          return Some(OverrunsFile(c.fileOffset));
        }
      }
    }
    return None;
  }

  /** A target's bytes, as the pack blob holds them. */
  predicate Carvable(blobs: Blobs, e: PackEntry) {
    e.pack in blobs
    && forall j :: 0 <= j < |e.chunks| ==> e.chunks[j].offsetInPack + e.chunks[j].size <= |blobs[e.pack]|
  }

  function Carved(blobs: Blobs, e: PackEntry): (ps: seq<Piece>)
    requires Carvable(blobs, e)
    ensures |ps| == |e.chunks|
    ensures forall j :: 0 <= j < |ps| ==>
      var t := e.chunks[j];
      ps[j] == Piece(t.fileOffset, blobs[e.pack][t.offsetInPack..t.offsetInPack + t.size])
  {
    seq(|e.chunks|, j requires 0 <= j < |e.chunks| =>
      var t := e.chunks[j];
      Piece(t.fileOffset, blobs[e.pack][t.offsetInPack..t.offsetInPack + t.size]))
  }

  /** What the tasks of the assembler write: one task a pack, one piece a chunk. */
  function AssemblyPlan(blobs: Blobs, entries: seq<PackEntry>): (plan: Plan)
    requires forall k :: 0 <= k < |entries| ==> Carvable(blobs, entries[k])
    ensures |plan| == |entries|
    ensures forall k :: 0 <= k < |entries| ==> plan[k] == Carved(blobs, entries[k])
  {
    seq(|entries|, k requires 0 <= k < |entries| => Carved(blobs, entries[k]))
  }

  /** The writes that pulling a pointer stands for, when every pack is listed and long enough. */
  function Pulled(blobs: Blobs, refs: seq<ChunkRef>, sizes: map<Digest, nat>): Option<Plan> {
    match PullPlan(refs, sizes)
    case Err(_) => None
    case Ok(entries) =>
      if forall k :: 0 <= k < |entries| ==> Carvable(blobs, entries[k]) then Some(AssemblyPlan(blobs, entries)) else None
  }
}
