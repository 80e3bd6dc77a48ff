/** Scatter after plan is the identity: a pull plan made from references that describe a file
    tiles that file, so assembling it gives the file back. */
module PullProperties {
  import opened Basics
  import opened Text
  import opened Constants
  import opened Packing
  import opened PackStore
  import opened ParallelWrite
  import opened AssembledFile
  import opened HasherCompleteness
  import opened PullPacks

  predicate AllPositive(refs: seq<ChunkRef>) {
    forall i :: 0 <= i < |refs| ==> refs[i].size > 0
  }

  lemma OffsetNext(refs: seq<ChunkRef>, i: nat)
    requires i < |refs|
    ensures RefsSize(refs[..i + 1]) == RefsSize(refs[..i]) + refs[i].size
  {
    assert refs[..i + 1][..i] == refs[..i];
  }

  lemma {:induction false} OffsetsIncrease(refs: seq<ChunkRef>, i: nat, j: nat)
    requires i <= j <= |refs| && AllPositive(refs)
    ensures RefsSize(refs[..i]) + j - i <= RefsSize(refs[..j])
    decreases j - i
  {
    if i < j {
      OffsetsIncrease(refs, i, j - 1);
      OffsetNext(refs, j - 1);
    }
  }

  /** The size of the chunk that starts at each file offset. */
  function SizesAt(refs: seq<ChunkRef>): map<nat, nat> {
    if refs == [] then map[] else SizesAt(refs[..|refs| - 1])[RefsSize(refs[..|refs| - 1]) := refs[|refs| - 1].size]
  }

  lemma {:induction false} SizesAtOffset(refs: seq<ChunkRef>, i: nat)
    requires i < |refs| && AllPositive(refs)
    ensures RefsSize(refs[..i]) in SizesAt(refs) && SizesAt(refs)[RefsSize(refs[..i])] == refs[i].size
  {
    var init := refs[..|refs| - 1];
    if i < |init| {
      SizesAtOffset(init, i);
      assert init[..i] == refs[..i];
      OffsetsIncrease(refs, i, |init|);
    }
  }

  function OffsetsFrom(refs: seq<ChunkRef>, i: nat): set<nat> {
    set j | i <= j < |refs| :: RefsSize(refs[..j])
  }

  /** The chunks of a pointer, in file order, chain from any of them to the end. */
  lemma {:induction false} OffsetsChain(refs: seq<ChunkRef>, i: nat)
    requires i <= |refs| && AllPositive(refs)
    ensures Chain(SizesAt(refs), OffsetsFrom(refs, i), RefsSize(refs[..i]), RefsSize(refs))
    decreases |refs| - i
  {
    assert refs[..|refs|] == refs;
    if i < |refs| {
      var w := RefsSize(refs[..i]);
      SizesAtOffset(refs, i);
      OffsetNext(refs, i);
      OffsetsIncrease(refs, i, |refs|);
      OffsetsIncrease(refs, i + 1, |refs|);
      OffsetsChain(refs, i + 1);
      OffsetsApart(refs, i);
    }
  }

  lemma OffsetsApart(refs: seq<ChunkRef>, i: nat)
    requires i < |refs| && AllPositive(refs)
    ensures RefsSize(refs[..i]) in OffsetsFrom(refs, i)
    ensures OffsetsFrom(refs, i) - {RefsSize(refs[..i])} == OffsetsFrom(refs, i + 1)
  {
    var w := RefsSize(refs[..i]);
    forall k
      ensures k in OffsetsFrom(refs, i) - {w} <==> k in OffsetsFrom(refs, i + 1)
    {
      if k in OffsetsFrom(refs, i) && k != w {
        var j :| i <= j < |refs| && RefsSize(refs[..j]) == k;
        assert j != i;
      }
      if k in OffsetsFrom(refs, i + 1) {
        var j :| i + 1 <= j < |refs| && RefsSize(refs[..j]) == k;
        OffsetsIncrease(refs, i, j);
      }
    }
  }

  /** Every entry carries one pack of the order, all its targets, and its listed size. */
  lemma {:induction false} EntriesShape(refs: seq<ChunkRef>, sizes: map<Digest, nat>, order: seq<Digest>)
    ensures Entries(refs, sizes, order).Ok? <==> forall d :: d in order ==> d in sizes
    ensures Entries(refs, sizes, order).Ok? ==>
              var es := Entries(refs, sizes, order).value;
              && |es| == |order|
              && forall k :: 0 <= k < |es| ==>
                   order[k] in sizes && es[k] == PackEntry(order[k], sizes[order[k]], TargetsIn(refs, order[k]))
  {
    if order != [] {
      var init, last := order[..|order| - 1], order[|order| - 1];
      EntriesShape(refs, sizes, init);
      assert order == init + [last];
    }
  }

  /** A pull plan exists exactly when every pack that its chunks refer to is listed. */
  lemma PullPlanExists(refs: seq<ChunkRef>, sizes: map<Digest, nat>)
    ensures PullPlan(refs, sizes).Ok? <==> forall i :: 0 <= i < |refs| ==> refs[i].pack in sizes
  {
    var order := PackOrder(refs);
    EntriesShape(refs, sizes, order);
    PackOrderSpec(refs);
    forall d | d in order
      ensures exists i :: 0 <= i < |refs| && refs[i].pack == d
    {
      assert Names(refs, d);
    }
    forall i | 0 <= i < |refs|
      ensures refs[i].pack in order
    {
      assert Names(refs, refs[i].pack);
    }
  }

  /** Which chunk a target stands for. */
  function RefIndex(refs: seq<ChunkRef>, k: nat, j: nat): (i: nat)
    requires k < |PackOrder(refs)| && j < |Indices(refs, PackOrder(refs)[k])|
    ensures i < |refs|
  {
    Indices(refs, PackOrder(refs)[k])[j]
  }

  /** Grouping by pack loses no chunk and repeats none. */
  lemma RefIndexInjective(refs: seq<ChunkRef>, k: nat, j: nat, k': nat, j': nat)
    requires k < |PackOrder(refs)| && j < |Indices(refs, PackOrder(refs)[k])|
    requires k' < |PackOrder(refs)| && j' < |Indices(refs, PackOrder(refs)[k'])|
    requires RefIndex(refs, k, j) == RefIndex(refs, k', j')
    ensures k == k' && j == j'
  {
    var order := PackOrder(refs);
    PackOrderSpec(refs);
    IndicesSpec(refs, order[k]);
    IndicesSpec(refs, order[k']);
    assert order[k] == refs[RefIndex(refs, k, j)].pack == order[k'];
    var indices := Indices(refs, order[k]);
    assert indices[j] == indices[j'];
  }

  lemma RefIndexOnto(refs: seq<ChunkRef>, i: nat) returns (k: nat, j: nat)
    requires i < |refs|
    ensures k < |PackOrder(refs)| && j < |Indices(refs, PackOrder(refs)[k])|
    ensures RefIndex(refs, k, j) == i
  {
    PackOrderSpec(refs);
    IndicesSpec(refs, refs[i].pack);
    assert Names(refs, refs[i].pack);
    k :| 0 <= k < |PackOrder(refs)| && PackOrder(refs)[k] == refs[i].pack;
    assert i in Indices(refs, refs[i].pack);
    j :| 0 <= j < |Indices(refs, refs[i].pack)| && Indices(refs, refs[i].pack)[j] == i;
  }

  /** The offsets computed by the reader are the ones the chunker cut at. */
  lemma {:induction false} OffsetsAgree(chunks: seq<Chunk>, refs: seq<ChunkRef>, n: nat)
    requires Tiled(chunks, n) && |refs| == |chunks|
    requires forall i :: 0 <= i < |refs| ==> refs[i].size == chunks[i].size
    ensures RefsSize(refs) == n && AllPositive(refs)
    ensures forall i :: 0 <= i < |refs| ==> RefsSize(refs[..i]) == chunks[i].offset
  {
    if chunks != [] {
      var init, last := chunks[..|chunks| - 1], chunks[|chunks| - 1];
      OffsetsAgree(init, refs[..|refs| - 1], last.offset);
      forall i | 0 <= i < |refs|
        ensures RefsSize(refs[..i]) == chunks[i].offset
      {
        if i < |init| {
          assert refs[..|refs| - 1][..i] == refs[..i];
        }
      }
    }
  }

  lemma DescribedOffsets(blobs: Blobs, refs: seq<ChunkRef>, file: Bytes, chunks: seq<Chunk>)
    requires RefsDescribe(blobs, refs, file, chunks)
    ensures RefsSize(refs) == |file| && AllPositive(refs)
    ensures forall i :: 0 <= i < |refs| ==> RefsSize(refs[..i]) == chunks[i].offset && refs[i].size == chunks[i].size
  {
    forall i | 0 <= i < |refs|
      ensures refs[i].size == chunks[i].size
    {
      assert RefHolds(blobs, refs[i], Content(file, chunks[i]));
    }
    OffsetsAgree(chunks, refs, |file|);
  }

  /** A target asks for the slice of the file that its chunk is. */
  lemma RefSlice(blobs: Blobs, refs: seq<ChunkRef>, file: Bytes, chunks: seq<Chunk>, i: nat)
    requires RefsDescribe(blobs, refs, file, chunks) && i < |refs|
    ensures chunks[i].offset + chunks[i].size <= |file|
    ensures TargetAt(refs, i).fileOffset == chunks[i].offset && TargetAt(refs, i).size == chunks[i].size
    ensures TargetAt(refs, i).digest == Sha256(Content(file, chunks[i]))
  {
    DescribedOffsets(blobs, refs, file, chunks);
    assert RefHolds(blobs, refs[i], Content(file, chunks[i]));
  }

  /** What the target asks of the pack is the slice of the file that it fills. */
  predicate FillsFrom(blobs: Blobs, pack: Digest, t: Target, file: Bytes) {
    && pack in blobs
    && t.fileOffset + t.size <= |file|
    && t.offsetInPack + t.size <= |blobs[pack]|
    && blobs[pack][t.offsetInPack..t.offsetInPack + t.size] == file[t.fileOffset..t.fileOffset + t.size]
  }

  lemma RefPiece(blobs: Blobs, refs: seq<ChunkRef>, file: Bytes, chunks: seq<Chunk>, i: nat)
    requires RefsDescribe(blobs, refs, file, chunks) && i < |refs|
    ensures FillsFrom(blobs, refs[i].pack, TargetAt(refs, i), file)
  {
    RefSlice(blobs, refs, file, chunks, i);
    assert RefHolds(blobs, refs[i], Content(file, chunks[i]));
  }

  /** Target `j` of entry `k` stands for one chunk of the pointer. */
  lemma EntryTarget(refs: seq<ChunkRef>, sizes: map<Digest, nat>, k: nat, j: nat)
    requires PullPlan(refs, sizes).Ok?
    requires k < |PullPlan(refs, sizes).value| && j < |PullPlan(refs, sizes).value[k].chunks|
    ensures k < |PackOrder(refs)| && j < |Indices(refs, PackOrder(refs)[k])|
    ensures PullPlan(refs, sizes).value[k].chunks[j] == TargetAt(refs, RefIndex(refs, k, j))
    ensures PullPlan(refs, sizes).value[k].pack == refs[RefIndex(refs, k, j)].pack
  {
    EntriesShape(refs, sizes, PackOrder(refs));
    IndicesSpec(refs, PackOrder(refs)[k]);
  }

  /** Target `j` of entry `k`, as a piece of the file. */
  lemma PieceOf(blobs: Blobs, refs: seq<ChunkRef>, file: Bytes, chunks: seq<Chunk>, sizes: map<Digest, nat>, k: nat, j: nat)
    requires RefsDescribe(blobs, refs, file, chunks) && PullPlan(refs, sizes).Ok?
    requires k < |PullPlan(refs, sizes).value| && j < |PullPlan(refs, sizes).value[k].chunks|
    ensures k < |PackOrder(refs)| && j < |Indices(refs, PackOrder(refs)[k])|
    ensures PullPlan(refs, sizes).value[k].chunks[j] == TargetAt(refs, RefIndex(refs, k, j))
    ensures FillsFrom(blobs, PullPlan(refs, sizes).value[k].pack, PullPlan(refs, sizes).value[k].chunks[j], file)
  {
    EntryTarget(refs, sizes, k, j);
    RefPiece(blobs, refs, file, chunks, RefIndex(refs, k, j));
  }

  lemma PlanCarvable(blobs: Blobs, refs: seq<ChunkRef>, file: Bytes, chunks: seq<Chunk>, sizes: map<Digest, nat>)
    requires RefsDescribe(blobs, refs, file, chunks) && PullPlan(refs, sizes).Ok?
    ensures forall k :: 0 <= k < |PullPlan(refs, sizes).value| ==> Carvable(blobs, PullPlan(refs, sizes).value[k])
  {
    var entries := PullPlan(refs, sizes).value;
    EntriesShape(refs, sizes, PackOrder(refs));
    PackOrderSpec(refs);
    forall k | 0 <= k < |entries|
      ensures Carvable(blobs, entries[k])
    {
      assert Names(refs, PackOrder(refs)[k]);
      var i :| 0 <= i < |refs| && refs[i].pack == PackOrder(refs)[k];
      assert RefHolds(blobs, refs[i], Content(file, chunks[i]));
      forall j | 0 <= j < |entries[k].chunks|
        ensures entries[k].chunks[j].offsetInPack + entries[k].chunks[j].size <= |blobs[entries[k].pack]|
      {
        PieceOf(blobs, refs, file, chunks, sizes, k, j);
      }
    }
  }

  lemma PlanStarts(blobs: Blobs, refs: seq<ChunkRef>, file: Bytes, chunks: seq<Chunk>, sizes: map<Digest, nat>, plan: Plan)
    requires RefsDescribe(blobs, refs, file, chunks) && PullPlan(refs, sizes).Ok?
    requires forall k :: 0 <= k < |PullPlan(refs, sizes).value| ==> Carvable(blobs, PullPlan(refs, sizes).value[k])
    requires plan == AssemblyPlan(blobs, PullPlan(refs, sizes).value)
    ensures Starts(plan) == OffsetsFrom(refs, 0)
  {
    var entries := PullPlan(refs, sizes).value;
    EntriesShape(refs, sizes, PackOrder(refs));
    forall s
      ensures s in Starts(plan) <==> s in OffsetsFrom(refs, 0)
    {
      if s in Starts(plan) {
        var k, j :| 0 <= k < |plan| && 0 <= j < |plan[k]| && plan[k][j].start == s;
        PieceOf(blobs, refs, file, chunks, sizes, k, j);
        assert RefsSize(refs[..RefIndex(refs, k, j)]) == s;
      }
      if s in OffsetsFrom(refs, 0) {
        var i :| 0 <= i < |refs| && RefsSize(refs[..i]) == s;
        var k, j := RefIndexOnto(refs, i);
        PieceOf(blobs, refs, file, chunks, sizes, k, j);
        assert plan[k][j].start == s;
      }
    }
  }

  /** Scatter after plan is the identity: whatever packs the chunks were spread over, new or
      reused, and however often a pack range is used again, the pull plan tiles the file with
      its own bytes. */
  lemma PullPlanTiles(blobs: Blobs, refs: seq<ChunkRef>, file: Bytes, chunks: seq<Chunk>, sizes: map<Digest, nat>)
    requires RefsDescribe(blobs, refs, file, chunks) && |file| <= U64_MAX
    requires PullPlan(refs, sizes).Ok?
    ensures Pulled(blobs, refs, sizes).Some?
    ensures TilesFile(Pulled(blobs, refs, sizes).value, SizesAt(refs), file)
  {
    PlanCarvable(blobs, refs, file, chunks, sizes);
    var plan := AssemblyPlan(blobs, PullPlan(refs, sizes).value);
    forall k, j | 0 <= k < |plan| && 0 <= j < |plan[k]|
      ensures There(file, plan[k][j])
    {
      PieceThere(blobs, refs, file, chunks, sizes, k, j, plan[k][j]);
    }
    PlanTiles(blobs, refs, file, chunks, sizes, plan);
  }

  lemma PlanTiles(blobs: Blobs, refs: seq<ChunkRef>, file: Bytes, chunks: seq<Chunk>, sizes: map<Digest, nat>, plan: Plan)
    requires RefsDescribe(blobs, refs, file, chunks) && |file| <= U64_MAX && PullPlan(refs, sizes).Ok?
    requires forall k :: 0 <= k < |PullPlan(refs, sizes).value| ==> Carvable(blobs, PullPlan(refs, sizes).value[k])
    requires plan == AssemblyPlan(blobs, PullPlan(refs, sizes).value)
    ensures TilingPlan(plan, SizesAt(refs), |file|)
  {
    hide RefsDescribe, PullPlan, SizesAt;
    PlanStarts(blobs, refs, file, chunks, sizes, plan);
    DescribedOffsets(blobs, refs, file, chunks);
    OffsetsChain(refs, 0);
    forall k, j | 0 <= k < |plan| && 0 <= j < |plan[k]|
      ensures plan[k][j].start in SizesAt(refs) && SizesAt(refs)[plan[k][j].start] == |plan[k][j].data|
    {
      PieceSized(blobs, refs, file, chunks, sizes, k, j);
    }
    forall i, j, k, l |
      0 <= i < |plan| && 0 <= j < |plan[i]| && 0 <= k < |plan| && 0 <= l < |plan[k]| && (i != k || j != l)
      ensures plan[i][j].start != plan[k][l].start
    {
      StartsDiffer(blobs, refs, file, chunks, sizes, i, j, k, l);
    }
  }

  lemma PieceThere(blobs: Blobs, refs: seq<ChunkRef>, file: Bytes, chunks: seq<Chunk>, sizes: map<Digest, nat>,
                   k: nat, j: nat, p: Piece)
    requires RefsDescribe(blobs, refs, file, chunks) && PullPlan(refs, sizes).Ok?
    requires k < |PullPlan(refs, sizes).value| && j < |PullPlan(refs, sizes).value[k].chunks|
    requires Carvable(blobs, PullPlan(refs, sizes).value[k]) && p == Carved(blobs, PullPlan(refs, sizes).value[k])[j]
    ensures There(file, p)
  {
    PieceOf(blobs, refs, file, chunks, sizes, k, j);
  }

  lemma PieceSized(blobs: Blobs, refs: seq<ChunkRef>, file: Bytes, chunks: seq<Chunk>, sizes: map<Digest, nat>, k: nat, j: nat)
    requires RefsDescribe(blobs, refs, file, chunks) && PullPlan(refs, sizes).Ok?
    requires k < |PullPlan(refs, sizes).value| && j < |PullPlan(refs, sizes).value[k].chunks|
    ensures var t := PullPlan(refs, sizes).value[k].chunks[j];
            t.fileOffset in SizesAt(refs) && SizesAt(refs)[t.fileOffset] == t.size
  {
    PieceOf(blobs, refs, file, chunks, sizes, k, j);
    DescribedOffsets(blobs, refs, file, chunks);
    SizesAtOffset(refs, RefIndex(refs, k, j));
  }

  lemma StartsDiffer(blobs: Blobs, refs: seq<ChunkRef>, file: Bytes, chunks: seq<Chunk>, sizes: map<Digest, nat>,
                     i: nat, j: nat, k: nat, l: nat)
    requires RefsDescribe(blobs, refs, file, chunks) && PullPlan(refs, sizes).Ok?
    requires i < |PullPlan(refs, sizes).value| && j < |PullPlan(refs, sizes).value[i].chunks|
    requires k < |PullPlan(refs, sizes).value| && l < |PullPlan(refs, sizes).value[k].chunks|
    requires i != k || j != l
    ensures PullPlan(refs, sizes).value[i].chunks[j].fileOffset != PullPlan(refs, sizes).value[k].chunks[l].fileOffset
  {
    PieceOf(blobs, refs, file, chunks, sizes, i, j);
    PieceOf(blobs, refs, file, chunks, sizes, k, l);
    DescribedOffsets(blobs, refs, file, chunks);
    var a, b := RefIndex(refs, i, j), RefIndex(refs, k, l);
    if a == b {
      RefIndexInjective(refs, i, j, k, l);
      assert false;
    }
    OffsetsIncrease(refs, Min(a, b), Max(a, b));
  }

  /** And plan validation accepts it, whenever the listed sizes respect the ceiling. */
  lemma PullPlanAcceptable(blobs: Blobs, refs: seq<ChunkRef>, file: Bytes, chunks: seq<Chunk>, sizes: map<Digest, nat>)
    requires RefsDescribe(blobs, refs, file, chunks) && |file| <= U64_MAX
    requires PullPlan(refs, sizes).Ok?
    requires forall i :: 0 <= i < |refs| && refs[i].pack in sizes ==> sizes[refs[i].pack] <= MAX_PACK_BYTES
    ensures forall k :: 0 <= k < |PullPlan(refs, sizes).value| ==> Acceptable(PullPlan(refs, sizes).value[k], |file|)
  {
    var entries := PullPlan(refs, sizes).value;
    EntriesShape(refs, sizes, PackOrder(refs));
    PackOrderSpec(refs);
    forall k | 0 <= k < |entries|
      ensures Acceptable(entries[k], |file|)
    {
      assert Names(refs, entries[k].pack);
      forall j | 0 <= j < |entries[k].chunks|
        ensures entries[k].chunks[j].fileOffset + entries[k].chunks[j].size <= |file|
      {
        PieceOf(blobs, refs, file, chunks, sizes, k, j);
      }
    }
  }
}
