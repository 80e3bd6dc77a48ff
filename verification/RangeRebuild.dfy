/** A whole Range download (src/chunked_downloader/download.rs): the chunks tile the blob, so
    the tasks rebuild it and the incremental hasher never needs a second read. */
module RangeRebuild {
  import opened Basics
  import opened Text
  import opened Retry
  import opened RangePlan
  import opened RangeDownload
  import opened ParallelWrite
  import opened AssembledFile
  import opened HasherCompleteness
  import FD = FileDigest
  import FR = FullRuns

  /** The starts of the chunks from `i` on. */
  function StartsFrom(contentLength: nat, chunkSize: nat, i: nat): set<nat> {
    set j | i <= j < NumChunks(contentLength, chunkSize) :: j * chunkSize
  }

  /** The size of the chunk that starts at each of them. */
  function SizeFrom(contentLength: nat, chunkSize: nat): map<nat, nat> {
    map k | k in StartsFrom(contentLength, chunkSize, 0) :: if contentLength < k then 0 else Min(chunkSize, contentLength - k)
  }

  lemma StartsNext(contentLength: nat, chunkSize: nat, i: nat)
    requires chunkSize > 0 && i < NumChunks(contentLength, chunkSize)
    ensures i * chunkSize in StartsFrom(contentLength, chunkSize, i)
    ensures StartsFrom(contentLength, chunkSize, i) - {i * chunkSize} == StartsFrom(contentLength, chunkSize, i + 1)
  {
    forall k
      ensures k in StartsFrom(contentLength, chunkSize, i) - {i * chunkSize} <==> k in StartsFrom(contentLength, chunkSize, i + 1)
    {
      if k in StartsFrom(contentLength, chunkSize, i + 1) {
        var j :| i + 1 <= j < NumChunks(contentLength, chunkSize) && j * chunkSize == k;
        StartsApart(i, j, chunkSize);
      }
    }
  }

  lemma StartsApart(i: nat, j: nat, chunkSize: nat)
    requires chunkSize > 0 && i < j
    ensures i * chunkSize < j * chunkSize
  {
    MulNext(i, chunkSize);
    MulMonotone(i + 1, j, chunkSize);
  }

  /** From any chunk on, the chunks chain to the end of the blob. */
  lemma {:induction false} ChunksChain(contentLength: nat, chunkSize: nat, i: nat)
    requires contentLength > 0 && chunkSize > 0 && i <= NumChunks(contentLength, chunkSize)
    ensures Chain(SizeFrom(contentLength, chunkSize), StartsFrom(contentLength, chunkSize, i),
                  Min(i * chunkSize, contentLength), contentLength)
    decreases NumChunks(contentLength, chunkSize) - i
  {
    var n := NumChunks(contentLength, chunkSize);
    NumChunksCovers(contentLength, chunkSize);
    if i < n {
      ChunkStarts(contentLength, chunkSize, i);
      MulNext(i, chunkSize);
      StartsNext(contentLength, chunkSize, i);
      assert i * chunkSize in StartsFrom(contentLength, chunkSize, 0);
      ChunksChain(contentLength, chunkSize, i + 1);
    }
  }

  /** The chunk bounds are right for this blob. */
  predicate Tileable(blob: Bytes, chunkSize: nat) {
    && 0 < |blob| <= U64_MAX && 0 < chunkSize <= U64_MAX
    && NumChunks(|blob|, chunkSize) * chunkSize <= U64_SPAN
  }

  lemma BoundsInside(blob: Bytes, chunkSize: nat, i: nat)
    requires Tileable(blob, chunkSize) && i < NumChunks(|blob|, chunkSize)
    ensures var (start, end) := ChunkBounds(|blob|, chunkSize, i);
            && start == i * chunkSize && start <= end < |blob|
            && end - start + 1 == Min(chunkSize, |blob| - start)
  {
    TilingExact(|blob|, chunkSize);
    ChunkStarts(|blob|, chunkSize, i);
    MulNext(i, chunkSize);
  }

  /** What the task of chunk `i` writes: the blob's bytes over its range. */
  function ChunkPieces(blob: Bytes, chunkSize: nat, i: nat): seq<Piece>
    requires Tileable(blob, chunkSize) && i < NumChunks(|blob|, chunkSize)
  {
    BoundsInside(blob, chunkSize, i);
    var (start, end) := ChunkBounds(|blob|, chunkSize, i);
    [Piece(start, blob[start..end + 1])]
  }

  /** One task a chunk. */
  function DownloadPlan(blob: Bytes, chunkSize: nat): (plan: Plan)
    requires Tileable(blob, chunkSize)
    ensures |plan| == NumChunks(|blob|, chunkSize)
    ensures forall i :: 0 <= i < |plan| ==> plan[i] == ChunkPieces(blob, chunkSize, i)
  {
    seq(NumChunks(|blob|, chunkSize), i requires 0 <= i < NumChunks(|blob|, chunkSize) => ChunkPieces(blob, chunkSize, i))
  }

  /** The task's one piece is the blob's own slice, and the extent it signals is that piece's. */
  lemma PlanPiece(blob: Bytes, chunkSize: nat, i: nat)
    requires Tileable(blob, chunkSize) && i < NumChunks(|blob|, chunkSize)
    ensures var pieces := ChunkPieces(blob, chunkSize, i);
            && |pieces| == 1
            && pieces[0].start == i * chunkSize
            && |pieces[0].data| == Min(chunkSize, |blob| - i * chunkSize)
            && There(blob, pieces[0])
            && ExtentsOf(pieces) == [ChunkExtent(|blob|, chunkSize, i)]
  {
    BoundsInside(blob, chunkSize, i);
    var (start, end) := ChunkBounds(|blob|, chunkSize, i);
    assert (end - start + 1) % U64_SPAN == end - start + 1;
  }

  lemma PlanStarts(blob: Bytes, chunkSize: nat)
    requires Tileable(blob, chunkSize)
    ensures Starts(DownloadPlan(blob, chunkSize)) == StartsFrom(|blob|, chunkSize, 0)
  {
    var plan := DownloadPlan(blob, chunkSize);
    forall k
      ensures k in Starts(plan) <==> k in StartsFrom(|blob|, chunkSize, 0)
    {
      if k in Starts(plan) {
        var i, j :| 0 <= i < |plan| && 0 <= j < |plan[i]| && plan[i][j].start == k;
        PlanPiece(blob, chunkSize, i);
      }
      if k in StartsFrom(|blob|, chunkSize, 0) {
        var i :| 0 <= i < NumChunks(|blob|, chunkSize) && i * chunkSize == k;
        PlanPiece(blob, chunkSize, i);
        assert plan[i][0].start == k;
      }
    }
  }

  lemma PieceSized(blob: Bytes, chunkSize: nat, i: nat)
    requires Tileable(blob, chunkSize) && i < NumChunks(|blob|, chunkSize)
    ensures i * chunkSize in SizeFrom(|blob|, chunkSize)
    ensures SizeFrom(|blob|, chunkSize)[i * chunkSize] == Min(chunkSize, |blob| - i * chunkSize)
  {
    ChunkStarts(|blob|, chunkSize, i);
    assert i * chunkSize in StartsFrom(|blob|, chunkSize, 0);
  }

  /** The chunks tile the blob with its own bytes. */
  lemma ChunksTile(blob: Bytes, chunkSize: nat)
    requires Tileable(blob, chunkSize)
    ensures TilesFile(DownloadPlan(blob, chunkSize), SizeFrom(|blob|, chunkSize), blob)
  {
    var plan, sizes := DownloadPlan(blob, chunkSize), SizeFrom(|blob|, chunkSize);
    ChunksChain(|blob|, chunkSize, 0);
    PlanStarts(blob, chunkSize);
    forall i, j | 0 <= i < |plan| && 0 <= j < |plan[i]|
      ensures There(blob, plan[i][j])
      ensures plan[i][j].start == i * chunkSize && j == 0
      ensures plan[i][j].start in sizes && sizes[plan[i][j].start] == |plan[i][j].data|
    {
      PlanPiece(blob, chunkSize, i);
      PieceSized(blob, chunkSize, i);
    }
    forall i, k | 0 <= i < |plan| && 0 <= k < |plan| && i != k
      ensures i * chunkSize != k * chunkSize
    {
      StartsApart(Min(i, k), Max(i, k), chunkSize);
    }
  }

  /** A verified Range download never needs the second read. Whatever order the chunks land and
      signal in, and whatever failed attempts wrote before they were retried, the file ends up as
      the blob, and unless the hasher itself fails to read, its own digest is the answer. */
  lemma RangeDownloadVerifies(blob: Bytes, chunkSize: nat, run: seq<Step>, failure: Option<CoreError>)
    requires Tileable(blob, chunkSize)
    requires After(DownloadPlan(blob, chunkSize), |blob|, run).Some?
    requires var s := After(DownloadPlan(blob, chunkSize), |blob|, run).value;
             s.outcome != Hashing && AllSignalled(s)
    ensures var s := After(DownloadPlan(blob, chunkSize), |blob|, run).value;
            && s.file == blob
            && FD.Resolve(FD.TaskOf(s), s.file, failure) ==
               if !s.ioFailed then Ok((Sha256(blob), FD.Incremental))
               else if failure.Some? then Err(failure.value)
               else Ok((Sha256(blob), FD.FullReread))
  {
    var plan, sizes := DownloadPlan(blob, chunkSize), SizeFrom(|blob|, chunkSize);
    ChunksTile(blob, chunkSize);
    TilingRebuilds(plan, sizes, blob, run);
    TilingIsHashed(plan, sizes, |blob|, run);
    FD.FailedGivesUp(plan, |blob|, run);
  }

  /** Compared with the expected digest, such a download passes. */
  lemma RangeDownloadDelivers(blob: Bytes, chunkSize: nat, run: seq<Step>)
    requires Tileable(blob, chunkSize) && FR.Complete(DownloadPlan(blob, chunkSize), |blob|, run)
    ensures FD.Delivered(DownloadPlan(blob, chunkSize), blob, run)
  {
    ChunksTile(blob, chunkSize);
    FD.TilingDelivers(DownloadPlan(blob, chunkSize), SizeFrom(|blob|, chunkSize), blob, run);
  }

  /** And such a download can end, without a failed read. */
  lemma RangeDownloadEnds(blob: Bytes, chunkSize: nat) returns (run: seq<Step>)
    requires Tileable(blob, chunkSize)
    ensures FR.Complete(DownloadPlan(blob, chunkSize), |blob|, run)
    ensures !After(DownloadPlan(blob, chunkSize), |blob|, run).value.ioFailed
  {
    run := FR.SomeRunCompletes(DownloadPlan(blob, chunkSize), |blob|);
  }

  datatype Answer = Digest(value: Option<Digest>) | Failed(error: CoreError)

  function Answered(contentLength: nat, chunkSize: nat): Option<Answer> {
    if contentLength == 0 then Some(Answer.Digest(Some(Sha256([]))))
    else if NumChunks(contentLength, chunkSize) == 0 then Some(Failed(InvalidArgument))
    else None
  }

  /** Before any chunk is fetched: an empty blob is answered at once, and a chunk size of zero is
      refused for any other, rather than leaving a file of zeros. */
  method CheckPlan(contentLength: nat, chunkSize: nat) returns (answer: Option<Answer>)
    ensures answer == Answered(contentLength, chunkSize)
    ensures contentLength == 0 ==> answer == Some(Digest(Some(Sha256([]))))
    ensures contentLength > 0 ==> (answer.Some? <==> NumChunks(contentLength, chunkSize) == 0)
    ensures contentLength > 0 && chunkSize == 0 ==> answer == Some(Failed(InvalidArgument))
    ensures contentLength > 0 && chunkSize > 0 ==> answer.None?
  {
    if contentLength == 0 {
      return Some(Digest(Some(Sha256([]))));
    }
    if chunkSize > 0 {
      NumChunksCovers(contentLength, chunkSize);
    }
    if NumChunks(contentLength, chunkSize) == 0 {
      return Some(Failed(InvalidArgument));
    }
    return None;
  }
}
