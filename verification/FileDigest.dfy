/** Resolving the whole-file digest once every task has finished (src/chunk_fetcher/scatter.rs,
    src/chunked_downloader/verify.rs), and reading a chunked file back. */
module FileDigest {
  import opened Basics
  import opened Text
  import opened Retry
  import opened Packing
  import opened PackStore
  import opened ParallelWrite
  import opened HasherSoundness
  import opened HasherCompleteness
  import opened PullPacks
  import opened PullProperties

  /** How the background hasher ended, if there was one. */
  datatype HasherTask = NoHasher | Panicked | Finished(digest: Option<Digest>)

  datatype Route = Incremental | FullReread

  /** Hash the whole file; `failure` is the error that the disk gives at some point, if it fails. */
  method ComputeSha256(content: Bytes, failure: Option<CoreError>) returns (d: Result<Digest, CoreError>)
    ensures d == Reread(content, failure)
  {
    var failsAt: nat :| failsAt <= |content|;
    var hashed: Bytes := [];
    while |hashed| < |content|
      invariant hashed <= content
      decreases |content| - |hashed|
    {
      if failure.Some? && |hashed| >= failsAt {
        return Err(failure.value);
      }
      var n: nat :| 1 <= n <= |content| - |hashed|;
      hashed := hashed + content[|hashed|..|hashed| + n];
    }
    if failure.Some? {
      return Err(failure.value);
    }
    assert hashed == content;
    return Ok(Sha256(hashed));
  }

  /** What a full re-read gives. */
  function Reread(content: Bytes, failure: Option<CoreError>): Result<Digest, CoreError> {
    if failure.Some? then Err(failure.value) else Ok(Sha256(content))
  }

  /** The digest and the route it came by; `failure` is how a re-read fails, if one is needed and it
      does. */
  function Resolve(task: HasherTask, content: Bytes, failure: Option<CoreError>): Result<(Digest, Route), CoreError> {
    match task
    case Finished(Some(d)) => Ok((d, Incremental))
    case Finished(None) | NoHasher =>
      (match Reread(content, failure)
       case Err(e) => Err(e)
       case Ok(d) => Ok((d, FullReread)))
    case Panicked => Err(JoinFailed)
  }

  method ResolveVerifiedDigest(task: HasherTask, content: Bytes, failure: Option<CoreError>)
    returns (r: Result<(Digest, Route), CoreError>)
    ensures r == Resolve(task, content, failure)
  {
    match task {
      case Finished(Some(d)) =>
        return Ok((d, Incremental));
      case Panicked =>
        return Err(JoinFailed);
      case _ =>
    }
    var d := ComputeSha256(content, failure);
    if d.Err? {
      return Err(d.error);
    }
    return Ok((d.value, FullReread));
  }

  function Verified(task: HasherTask, content: Bytes, expected: Digest, failure: Option<CoreError>)
    : Result<Digest, CoreError>
  {
    match Resolve(task, content, failure)
    case Err(e) => Err(e)
    case Ok((got, _)) => if got == expected then Ok(got) else Err(Integrity)
  }

  method VerifyFileDigest(task: HasherTask, content: Bytes, expected: Digest, failure: Option<CoreError>)
    returns (r: Result<Digest, CoreError>)
    ensures r == Verified(task, content, expected, failure)
  {
    var got;
    match task {
      case Finished(Some(d)) =>
        got := Ok(d);
      case Finished(None) =>
        got := ComputeSha256(content, failure);
      case Panicked =>
        return Err(JoinFailed);
      case NoHasher =>
        got := ComputeSha256(content, failure);
    }
    if got.Err? {
      return got;
    }
    if got.value != expected {
      return Err(Integrity);
    }
    return got;
  }

  /** Every way the hasher can have ended. */
  lemma RouteTable(content: Bytes, d: Digest, e: CoreError, failure: Option<CoreError>)
    ensures Resolve(Finished(Some(d)), content, failure) == Ok((d, Incremental))
    ensures Resolve(Finished(None), content, None) == Resolve(NoHasher, content, None) == Ok((Sha256(content), FullReread))
    ensures Resolve(Finished(None), content, Some(e)) == Resolve(NoHasher, content, Some(e)) == Err(e)
    ensures Resolve(Panicked, content, failure) == Err(JoinFailed)
    ensures Verified(Panicked, content, d, failure) == Err(JoinFailed)
    ensures Verified(NoHasher, content, d, None) == if Sha256(content) == d then Ok(d) else Err(Integrity)
  {
  }

  /** What the hasher hands over at the end of a run. */
  function TaskOf(s: Sys): HasherTask {
    Finished(if s.outcome.Hashed? then Some(s.outcome.digest) else None)
  }

  /** Whichever route the digest comes by, an assembled in-bounds plan passes verification
      exactly when the file on disk has the expected digest; only a re-read that is needed and fails
      ends otherwise. */
  lemma VerifiedIsTrue(plan: Plan, totalSize: nat, run: seq<Step>, expected: Digest, failure: Option<CoreError>)
    requires After(plan, totalSize, run).Some? && InBounds(plan, totalSize)
    requires After(plan, totalSize, run).value.outcome != Hashing
    ensures var s := After(plan, totalSize, run).value;
            Verified(TaskOf(s), s.file, expected, failure)
            == if s.outcome == GaveUp && failure.Some? then Err(failure.value)
               else if Sha256(s.file) == expected then Ok(expected)
               else Err(Integrity)
  {
    if After(plan, totalSize, run).value.outcome.Hashed? {
      SameVerdictAsReread(plan, totalSize, run);
    }
  }

  /** A chunked file reads back. For every interleaving of the pack tasks, with any failed
      attempts between, assembling the pull plan of a pointer that describes `file` leaves
      exactly `file` on disk and verifies, without a second read unless the hasher's own
      read failed. */
  lemma PullReadsBack(blobs: Blobs, refs: seq<ChunkRef>, file: Bytes, chunks: seq<Chunk>, sizes: map<Digest, nat>,
                      plan: Plan, run: seq<Step>)
    requires RefsDescribe(blobs, refs, file, chunks) && |file| <= U64_MAX
    requires Pulled(blobs, refs, sizes) == Some(plan)
    requires After(plan, |file|, run).Some?
    requires After(plan, |file|, run).value.outcome != Hashing && AllSignalled(After(plan, |file|, run).value)
    ensures Delivered(plan, file, run)
  {
    PullPlanTiles(blobs, refs, file, chunks, sizes);
    TilingDelivers(plan, SizesAt(refs), file, run);
  }

  /** The file is on disk, and verification passes against its digest, unless the hasher's own read
      failed and the second read fails too. */
  ghost predicate Delivered(plan: Plan, file: Bytes, run: seq<Step>)
    requires After(plan, |file|, run).Some?
  {
    var s := After(plan, |file|, run).value;
    s.file == file && forall failure :: Verified(TaskOf(s), s.file, Sha256(file), failure)
                                        == if s.ioFailed && failure.Some? then Err(failure.value) else Ok(Sha256(file))
  }

  lemma {:induction false} FailedGivesUp(plan: Plan, totalSize: nat, run: seq<Step>)
    requires After(plan, totalSize, run).Some?
    ensures After(plan, totalSize, run).value.ioFailed ==> After(plan, totalSize, run).value.outcome == GaveUp
  {
    if run != [] {
      FailedGivesUp(plan, totalSize, run[..|run| - 1]);
    }
  }

  lemma TilingDelivers(plan: Plan, sizes: map<nat, nat>, file: Bytes, run: seq<Step>)
    requires TilesFile(plan, sizes, file) && |file| <= U64_MAX && After(plan, |file|, run).Some?
    requires After(plan, |file|, run).value.outcome != Hashing && AllSignalled(After(plan, |file|, run).value)
    ensures Delivered(plan, file, run)
  {
    hide After, Verified, TilesFile;
    TilingRebuilds(plan, sizes, file, run);
    assert TilingPlan(plan, sizes, |file|) by {
      TilesIsTiling(plan, sizes, file);
    }
    TilingCutsUp(plan, sizes, |file|);
    TilingIsHashed(plan, sizes, |file|, run);
    FailedGivesUp(plan, |file|, run);
    var s := After(plan, |file|, run).value;
    forall failure
      ensures Verified(TaskOf(s), s.file, Sha256(file), failure)
              == if s.ioFailed && failure.Some? then Err(failure.value) else Ok(Sha256(file))
    {
      VerifiedIsTrue(plan, |file|, run, Sha256(file), failure);
    }
  }

  lemma TilesIsTiling(plan: Plan, sizes: map<nat, nat>, file: Bytes)
    requires TilesFile(plan, sizes, file)
    ensures TilingPlan(plan, sizes, |file|)
  {
  }
}
