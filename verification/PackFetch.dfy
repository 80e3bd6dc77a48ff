/** Fetching one pack and scattering its chunks (src/chunk_fetcher/assemble.rs,
    src/chunk_fetcher/scatter.rs), against a server that may answer anything. */
module PackFetch {
  import opened Basics
  import opened Text
  import opened Constants
  import opened Retry
  import opened LocalFile
  import opened PullPacks

  /** The slice of the received pack that a target asks for is there and has its digest. */
  predicate Good(pack: Bytes, t: Target) {
    t.offsetInPack + t.size <= |pack| && Sha256(pack[t.offsetInPack..t.offsetInPack + t.size]) == t.digest
  }

  function Slice(pack: Bytes, t: Target): Bytes
    requires Good(pack, t)
  {
    pack[t.offsetInPack..t.offsetInPack + t.size]
  }

  predicate AllGood(pack: Bytes, targets: seq<Target>) {
    forall j :: 0 <= j < |targets| ==> Good(pack, targets[j])
  }

  /** The file after every target is written, in order. */
  function Scattered(file: Bytes, pack: Bytes, targets: seq<Target>): Bytes
    requires AllGood(pack, targets)
  {
    if targets == [] then
      file
    else
      var last := targets[|targets| - 1];
      WriteAt(Scattered(file, pack, targets[..|targets| - 1]), last.fileOffset, Slice(pack, last))
  }

  /** Every target before the `n`th is written, and the `n`th one is bad. */
  predicate StoppedAt(before: Bytes, after: Bytes, pack: Bytes, targets: seq<Target>, n: nat)
    requires n < |targets|
  {
    AllGood(pack, targets[..n]) && !Good(pack, targets[n]) && after == Scattered(before, pack, targets[..n])
  }

  /** Every target before the `n`th is written, and the disk failed during the `n`th one. */
  ghost predicate BrokeAt(before: Bytes, after: Bytes, pack: Bytes, targets: seq<Target>, n: nat)
    requires n < |targets|
  {
    && AllGood(pack, targets[..n]) && Good(pack, targets[n])
    && CutShort(Scattered(before, pack, targets[..n]), after, targets[n].fileOffset, Slice(pack, targets[n]))
  }

  /** How a scatter can end: everything written, a bad target met, or a disk failure, when the
      file is opened, written or flushed. */
  ghost predicate ScatterEnds(before: Bytes, after: Bytes, pack: Bytes, targets: seq<Target>, r: Option<CoreError>) {
    match r
    case None => AllGood(pack, targets) && after == Scattered(before, pack, targets)
    case Some(Integrity) => exists n :: 0 <= n < |targets| && StoppedAt(before, after, pack, targets, n)
    case Some(Io) => after == before || exists n :: 0 <= n < |targets| && BrokeAt(before, after, pack, targets, n)
    case _ => false
  }

  /** Every target before the `n`th is written, and nothing else. */
  predicate ReachedAt(before: Bytes, after: Bytes, pack: Bytes, targets: seq<Target>, n: nat)
    requires n <= |targets|
  {
    AllGood(pack, targets[..n]) && after == Scattered(before, pack, targets[..n])
  }

  /** Where a scatter that is given up at any moment can leave the file. */
  ghost predicate Partway(before: Bytes, after: Bytes, pack: Bytes, targets: seq<Target>) {
    || (exists n :: 0 <= n <= |targets| && ReachedAt(before, after, pack, targets, n))
    || (exists n :: 0 <= n < |targets| && BrokeAt(before, after, pack, targets, n))
  }

  /** How the task that runs a scatter can end: as the scatter does, or by a panic at any moment. */
  ghost predicate TaskEnds(before: Bytes, after: Bytes, pack: Bytes, targets: seq<Target>, r: Option<CoreError>) {
    ScatterEnds(before, after, pack, targets, r) || (r == Some(JoinFailed) && Partway(before, after, pack, targets))
  }

  /** The verified slice of one target, if it is good. */
  method Carve(bytes: Bytes, t: Target) returns (slice: Option<Bytes>)
    ensures slice.Some? <==> Good(bytes, t)
    ensures slice.Some? ==> slice.value == Slice(bytes, t)
  {
    var start, end := t.offsetInPack, t.offsetInPack + t.size;
    if end > |bytes| {
      return None;
    }
    var got := bytes[start..end];
    if Sha256(got) != t.digest {
      return None;
    }
    return Some(got);
  }

  /** How one turn of the scatter loop can end: the slice written, a bad target, or a write cut short. */
  ghost predicate TurnEnds(before: Bytes, after: Bytes, pack: Bytes, t: Target, r: Option<CoreError>) {
    match r
    case None => Good(pack, t) && after == WriteAt(before, t.fileOffset, Slice(pack, t))
    case Some(Integrity) => !Good(pack, t) && after == before
    case Some(Io) => Good(pack, t) && CutShort(before, after, t.fileOffset, Slice(pack, t))
    case _ => false
  }

  /** The body of the loop. Whatever other tasks have done to the file by then, it changes the file as
      it finds it. */
  method ScatterTurn(bytes: Bytes, t: Target, dest: DestFile) returns (r: Option<CoreError>)
    modifies dest
    ensures TurnEnds(old(dest.content), dest.content, bytes, t, r)
  {
    var slice := Carve(bytes, t);
    if slice.None? {
      return Some(Integrity);
    }
    var ok := dest.WriteAll(t.fileOffset, slice.value);
    if !ok {
      return Some(Io);
    }
    return None;
  }

  method VerifyAndScatter(bytes: Bytes, targets: seq<Target>, dest: DestFile) returns (r: Option<CoreError>)
    modifies dest
    ensures ScatterEnds(old(dest.content), dest.content, bytes, targets, r)
  {
    var openOk: bool := *;
    if !openOk {
      return Some(Io);
    }
    for j := 0 to |targets|
      invariant AllGood(bytes, targets[..j])
      invariant dest.content == Scattered(old(dest.content), bytes, targets[..j])
    {
      assert targets[..j + 1][..j] == targets[..j];
      r := ScatterTurn(bytes, targets[j], dest);
      if r == Some(Integrity) {
        assert StoppedAt(old(dest.content), dest.content, bytes, targets, j);
        return;
      }
      if r.Some? {
        assert BrokeAt(old(dest.content), dest.content, bytes, targets, j);
        return;
      }
    }
    assert targets[..|targets|] == targets;
    var flushed: bool := *;
    if !flushed {
      UnflushedBroke(old(dest.content), bytes, targets);
      return Some(Io);
    }
    return None;
  }

  /** A failed flush after the last write is a write that failed at its very end. */
  lemma UnflushedBroke(before: Bytes, bytes: Bytes, targets: seq<Target>)
    requires AllGood(bytes, targets)
    ensures targets == [] ==> Scattered(before, bytes, targets) == before
    ensures targets != [] ==> BrokeAt(before, Scattered(before, bytes, targets), bytes, targets, |targets| - 1)
  {
    if targets != [] {
      var slice := Slice(bytes, targets[|targets| - 1]);
      assert slice[..|slice|] == slice;
    }
  }

  /** The task that runs a scatter, which may panic. */
  method ScatterTask(bytes: Bytes, targets: seq<Target>, dest: DestFile) returns (r: Option<CoreError>)
    modifies dest
    ensures TaskEnds(old(dest.content), dest.content, bytes, targets, r)
  {
    var panics: bool := *;
    if !panics {
      r := VerifyAndScatter(bytes, targets, dest);
      return;
    }
    var n: nat :| n <= |targets|;
    var part := VerifyAndScatter(bytes, targets[..n], dest);
    EndsPartway(old(dest.content), dest.content, bytes, targets, n, part);
    return Some(JoinFailed);
  }

  lemma EndsPartway(before: Bytes, after: Bytes, bytes: Bytes, targets: seq<Target>, n: nat, r: Option<CoreError>)
    requires n <= |targets| && ScatterEnds(before, after, bytes, targets[..n], r)
    ensures Partway(before, after, bytes, targets)
  {
    match r {
      case None => assert ReachedAt(before, after, bytes, targets, n);
      case Some(Integrity) =>
        var k :| 0 <= k < n && StoppedAt(before, after, bytes, targets[..n], k);
        assert targets[..n][..k] == targets[..k];
        assert ReachedAt(before, after, bytes, targets, k);
      case Some(Io) =>
        if after == before {
          assert targets[..0] == [] && ReachedAt(before, after, bytes, targets, 0);
        } else {
          var k :| 0 <= k < n && BrokeAt(before, after, bytes, targets[..n], k);
          assert targets[..n][..k] == targets[..k];
          assert BrokeAt(before, after, bytes, targets, k);
        }
    }
  }

  /** What a GET comes back with: an error before any response, or a status and body frames,
      with an error if the body is cut off. */
  datatype Response = NoResponse(error: CoreError) | Response(status: nat, frames: seq<Bytes>, cut: Option<CoreError>)

  /** The body received so far never exceeds `packSize`. */
  predicate WithinCap(frames: seq<Bytes>, packSize: nat) {
    forall n :: 0 <= n <= |frames| ==> |Concat(frames[..n])| <= packSize
  }

  lemma {:induction false} CapIsTotal(frames: seq<Bytes>, packSize: nat)
    ensures WithinCap(frames, packSize) <==> |Concat(frames)| <= packSize
  {
    if frames != [] {
      var init := frames[..|frames| - 1];
      CapIsTotal(init, packSize);
      assert frames[..|frames|] == frames;
      forall n | 0 <= n <= |init|
        ensures frames[..n] == init[..n]
      {
      }
      if |Concat(frames)| <= packSize {
        forall n | 0 <= n <= |frames|
          ensures |Concat(frames[..n])| <= packSize
        {
          assert n < |frames| ==> frames[..n] == init[..n];
        }
      }
    } else {
      assert frames[..0] == [];
    }
  }

  method ReadPackBody(frames: seq<Bytes>, cut: Option<CoreError>, packSize: nat)
    returns (r: Result<Bytes, CoreError>)
    ensures r == if |Concat(frames)| > packSize then Err(BadResponse)
                 else if cut.Some? then Err(cut.value)
                 else Ok(Concat(frames))
  {
    CapIsTotal(frames, packSize);
    var bytes: Bytes := [];
    var received := 0;
    for i := 0 to |frames|
      invariant bytes == Concat(frames[..i]) && received == |bytes|
      invariant forall n :: 0 <= n <= i ==> |Concat(frames[..n])| <= packSize
    {
      assert frames[..i + 1] == frames[..i] + [frames[i]];
      ConcatSnoc(frames[..i], frames[i]);
      received := received + |frames[i]|;
      if received > packSize {
        return Err(BadResponse);
      }
      bytes := bytes + frames[i];
    }
    assert frames[..|frames|] == frames;
    if cut.Some? {
      return Err(cut.value);
    }
    return Ok(bytes);
  }

  predicate Success(status: nat) {
    200 <= status < 300
  }

  /** The pack bytes a response delivers, when it is accepted. */
  function Delivered(response: Response, packSize: nat): Result<Bytes, CoreError> {
    if packSize > MAX_PACK_BYTES then Err(Integrity)
    else
      match response
      case NoResponse(e) => Err(e)
      case Response(status, frames, cut) =>
        if !Success(status) then Err(ServerError(status))
        else if |Concat(frames)| > packSize then Err(BadResponse)
        else if cut.Some? then Err(cut.value)
        else if |Concat(frames)| != packSize then Err(BadResponse)
        else Ok(Concat(frames))
  }

  /** Which responses deliver a pack: a 2xx with exactly the declared bytes and no error, for a pack
      within the ceiling; any other is refused, with its reason. */
  lemma DeliveredTable(packSize: nat, status: nat, frames: seq<Bytes>, cut: Option<CoreError>, e: CoreError)
    ensures var r := Delivered(Response(status, frames, cut), packSize);
            && (r.Ok? <==> packSize <= MAX_PACK_BYTES && 200 <= status <= 299 && |Concat(frames)| == packSize && cut == None)
            && (r.Ok? ==> r.value == Concat(frames))
            && (packSize > MAX_PACK_BYTES ==> r == Err(Integrity))
            && (packSize <= MAX_PACK_BYTES && !(200 <= status <= 299) ==> r == Err(ServerError(status)))
            && (packSize <= MAX_PACK_BYTES && 200 <= status <= 299 && |Concat(frames)| > packSize ==> r == Err(BadResponse))
            && (packSize <= MAX_PACK_BYTES && 200 <= status <= 299 && |Concat(frames)| <= packSize && cut.Some? ==>
                  r == Err(cut.value))
            && (packSize <= MAX_PACK_BYTES && 200 <= status <= 299 && |Concat(frames)| < packSize && cut.None? ==>
                  r == Err(BadResponse))
    ensures Delivered(NoResponse(e), packSize) == Err(if packSize > MAX_PACK_BYTES then Integrity else e)
  {
  }

  /** So a fetch of the pack that the registry holds can only fail on the local disk or by a panic,
      when its slices are those that the targets ask for. */
  lemma HonestFetch(before: Bytes, after: Bytes, pack: Bytes, status: nat, frames: seq<Bytes>, targets: seq<Target>,
                    r: Option<CoreError>)
    requires |pack| <= MAX_PACK_BYTES && 200 <= status <= 299 && Concat(frames) == pack
    requires forall j :: 0 <= j < |targets| ==>
               var t := targets[j];
               t.offsetInPack + t.size <= |pack| && Sha256(pack[t.offsetInPack..t.offsetInPack + t.size]) == t.digest
    requires FetchEnds(before, after, Response(status, frames, None), |pack|, targets, r)
    ensures r in {None, Some(Io), Some(JoinFailed)}
  {
    DeliveredTable(|pack|, status, frames, None, Io);
  }

  /** How a fetch can end: refused before a byte is written, or scattered from a body of exactly
      the declared size. */
  ghost predicate FetchEnds(before: Bytes, after: Bytes, response: Response, packSize: nat, targets: seq<Target>,
                            r: Option<CoreError>)
  {
    match Delivered(response, packSize)
    case Err(e) => r == Some(e) && after == before
    case Ok(bytes) => |bytes| == packSize && TaskEnds(before, after, bytes, targets, r)
  }

  method FetchPack(response: Response, packSize: nat, targets: seq<Target>, dest: DestFile)
    returns (r: Option<CoreError>)
    modifies dest
    ensures FetchEnds(old(dest.content), dest.content, response, packSize, targets, r)
  {
    if packSize > MAX_PACK_BYTES {
      return Some(Integrity);
    }
    match response {
      case NoResponse(e) =>
        return Some(e);
      case Response(status, frames, cut) =>
        if !Success(status) {
          return Some(ServerError(status));
        }
        var body := ReadPackBody(frames, cut, packSize);
        if body.Err? {
          return Some(body.error);
        }
        if |body.value| != packSize {
          return Some(BadResponse);
        }
        r := ScatterTask(body.value, targets, dest);
    }
  }

  /** The targets are slices of `file`, told by their digests. */
  predicate TargetsOf(file: Bytes, targets: seq<Target>) {
    forall j :: 0 <= j < |targets| ==> TargetOf(file, targets[j])
  }

  predicate TargetOf(file: Bytes, t: Target) {
    t.fileOffset + t.size <= |file| && t.digest == Sha256(file[t.fileOffset..t.fileOffset + t.size])
  }

  /** `after` differs from `before` only where it holds the file's own bytes. */
  predicate OnlyFileBytes(before: Bytes, after: Bytes, file: Bytes) {
    |after| == |before| == |file| && forall p :: 0 <= p < |file| ==> after[p] == before[p] || after[p] == file[p]
  }

  predicate HasTarget(content: Bytes, file: Bytes, t: Target) {
    t.fileOffset + t.size <= |content| && t.fileOffset + t.size <= |file|
    && forall p :: t.fileOffset <= p < t.fileOffset + t.size ==> content[p] == file[p]
  }

  lemma GoodSliceIsFile(pack: Bytes, t: Target, file: Bytes)
    requires Good(pack, t) && TargetOf(file, t)
    ensures Slice(pack, t) == file[t.fileOffset..t.fileOffset + t.size]
  {
    Sha256Injective(Slice(pack, t), file[t.fileOffset..t.fileOffset + t.size]);
  }

  lemma WriteFileBytes(before: Bytes, file: Bytes, at: nat, k: nat, data: Bytes)
    requires |before| == |file| && at + k <= |file| && data == file[at..at + k]
    ensures OnlyFileBytes(before, WriteAt(before, at, data), file)
    ensures forall p :: at <= p < at + k ==> WriteAt(before, at, data)[p] == file[p]
  {
  }

  lemma OnlyFileBytesChain(a: Bytes, b: Bytes, c: Bytes, file: Bytes)
    requires OnlyFileBytes(a, b, file) && OnlyFileBytes(b, c, file)
    ensures OnlyFileBytes(a, c, file)
  {
  }

  lemma KeepsTarget(b: Bytes, c: Bytes, file: Bytes, t: Target)
    requires OnlyFileBytes(b, c, file) && HasTarget(b, file, t)
    ensures HasTarget(c, file, t)
  {
  }

  /** The last of the targets is written over a file that already has the others. */
  lemma ScatterLast(before: Bytes, pack: Bytes, targets: seq<Target>, file: Bytes)
    requires targets != [] && AllGood(pack, targets) && TargetsOf(file, targets)
    requires |Scattered(before, pack, targets[..|targets| - 1])| == |file|
    ensures OnlyFileBytes(Scattered(before, pack, targets[..|targets| - 1]), Scattered(before, pack, targets), file)
    ensures HasTarget(Scattered(before, pack, targets), file, targets[|targets| - 1])
  {
    var last := targets[|targets| - 1];
    GoodSliceIsFile(pack, last, file);
    WriteFileBytes(Scattered(before, pack, targets[..|targets| - 1]), file, last.fileOffset, last.size, Slice(pack, last));
  }

  lemma {:induction false} ScatteredOnly(before: Bytes, pack: Bytes, targets: seq<Target>, file: Bytes)
    requires AllGood(pack, targets) && TargetsOf(file, targets) && |before| == |file|
    ensures OnlyFileBytes(before, Scattered(before, pack, targets), file)
  {
    if targets != [] {
      var init := targets[..|targets| - 1];
      ScatteredOnly(before, pack, init, file);
      ScatterLast(before, pack, targets, file);
      OnlyFileBytesChain(before, Scattered(before, pack, init), Scattered(before, pack, targets), file);
    }
  }

  lemma ScatterLastKeeps(before: Bytes, pack: Bytes, targets: seq<Target>, file: Bytes, t: Target)
    requires targets != [] && AllGood(pack, targets) && TargetsOf(file, targets) && |before| == |file|
    requires HasTarget(Scattered(before, pack, targets[..|targets| - 1]), file, t)
    ensures HasTarget(Scattered(before, pack, targets), file, t)
  {
    var init := targets[..|targets| - 1];
    ScatteredOnly(before, pack, init, file);
    ScatterLast(before, pack, targets, file);
    KeepsTarget(Scattered(before, pack, init), Scattered(before, pack, targets), file, t);
  }

  lemma {:induction false} ScatteredHas(before: Bytes, pack: Bytes, targets: seq<Target>, file: Bytes, t: Target)
    requires AllGood(pack, targets) && TargetsOf(file, targets) && |before| == |file| && t in targets
    ensures HasTarget(Scattered(before, pack, targets), file, t)
  {
    var init, last := targets[..|targets| - 1], targets[|targets| - 1];
    if t == last {
      ScatteredOnly(before, pack, init, file);
      ScatterLast(before, pack, targets, file);
    } else {
      ScatteredHas(before, pack, init, file, t);
      ScatterLastKeeps(before, pack, targets, file, t);
    }
  }

  lemma BrokenIsFile(before: Bytes, after: Bytes, pack: Bytes, targets: seq<Target>, n: nat, file: Bytes)
    requires n < |targets| && BrokeAt(before, after, pack, targets, n)
    requires TargetsOf(file, targets) && |before| == |file|
    ensures OnlyFileBytes(before, after, file)
  {
    var t, mid := targets[n], Scattered(before, pack, targets[..n]);
    ScatteredOnly(before, pack, targets[..n], file);
    GoodSliceIsFile(pack, t, file);
    var k :| 0 <= k <= |Slice(pack, t)| && after == WriteAt(mid, t.fileOffset, Slice(pack, t)[..k]);
    WriteFileBytes(mid, file, t.fileOffset, k, Slice(pack, t)[..k]);
    OnlyFileBytesChain(before, mid, after, file);
  }

  /** No response can put a wrong byte on disk: whatever bytes came, a scatter that ends in any
      way has changed the destination only to the file's own bytes, and one that succeeds has
      placed every target. */
  lemma ScatterWritesOnlyTheFile(before: Bytes, after: Bytes, pack: Bytes, targets: seq<Target>,
                                 r: Option<CoreError>, file: Bytes)
    requires TaskEnds(before, after, pack, targets, r)
    requires TargetsOf(file, targets) && |before| == |file|
    ensures OnlyFileBytes(before, after, file)
    ensures r.None? ==> forall j :: 0 <= j < |targets| ==> HasTarget(after, file, targets[j])
  {
    match r {
      case None =>
        ScatteredOnly(before, pack, targets, file);
        forall j | 0 <= j < |targets|
          ensures HasTarget(after, file, targets[j])
        {
          ScatteredHas(before, pack, targets, file, targets[j]);
        }
      case Some(Integrity) =>
        var n :| 0 <= n < |targets| && StoppedAt(before, after, pack, targets, n);
        ScatteredOnly(before, pack, targets[..n], file);
      case Some(_) =>
        if !(r == Some(Io) && after == before) {
          PartwayIsFile(before, after, pack, targets, file);
        }
    }
  }

  lemma PartwayIsFile(before: Bytes, after: Bytes, pack: Bytes, targets: seq<Target>, file: Bytes)
    requires Partway(before, after, pack, targets) && TargetsOf(file, targets) && |before| == |file|
    ensures OnlyFileBytes(before, after, file)
  {
    if n :| 0 <= n < |targets| && BrokeAt(before, after, pack, targets, n) {
      BrokenIsFile(before, after, pack, targets, n, file);
    } else {
      var n :| 0 <= n <= |targets| && ReachedAt(before, after, pack, targets, n);
      ScatteredOnly(before, pack, targets[..n], file);
    }
  }

  lemma FetchWritesOnlyTheFile(before: Bytes, after: Bytes, response: Response, packSize: nat, targets: seq<Target>,
                               r: Option<CoreError>, file: Bytes)
    requires FetchEnds(before, after, response, packSize, targets, r)
    requires TargetsOf(file, targets) && |before| == |file|
    ensures OnlyFileBytes(before, after, file)
    ensures r.None? ==> forall j :: 0 <= j < |targets| ==> HasTarget(after, file, targets[j])
  {
    match Delivered(response, packSize) {
      case Err(_) =>
      case Ok(bytes) => ScatterWritesOnlyTheFile(before, after, bytes, targets, r, file);
    }
  }

  /** Retrying a fetch: at most four attempts and 1.4 s of sleep, and however many attempts
      failed half way, only the file's own bytes were written. */
  method FetchPackWithRetry(packSize: nat, targets: seq<Target>, dest: DestFile, ghost file: Bytes)
    returns (r: Option<CoreError>, attempts: nat, slept: nat, ghost ends: seq<Option<CoreError>>)
    requires TargetsOf(file, targets) && |dest.content| == |file|
    modifies dest
    ensures OnlyFileBytes(old(dest.content), dest.content, file)
    ensures r.None? ==> forall j :: 0 <= j < |targets| ==> HasTarget(dest.content, file, targets[j])
    ensures RetriedRightly(ends, MAX_RETRIES) && |ends| == attempts && ends[|ends| - 1] == r
    ensures 1 <= attempts <= MAX_RETRIES + 1 && slept < 1_400_000_000
  {
    var retries: nat := 0;
    ghost var draws: seq<nat> := [];
    slept, attempts, ends := 0, 0, [];
    while true
      invariant |draws| == retries == attempts <= MAX_RETRIES && slept == TotalBackoff(draws)
      invariant OnlyFileBytes(old(dest.content), dest.content, file)
      invariant |ends| == attempts && forall k :: 0 <= k < |ends| ==> ends[k].Some? && IsRetryable(ends[k].value)
      decreases MAX_RETRIES - retries
    {
      var response: Response := *;
      ghost var before := dest.content;
      r := FetchPack(response, packSize, targets, dest);
      ends := ends + [r];
      attempts := attempts + 1;
      BackoffBudget(draws);
      FetchWritesOnlyTheFile(before, dest.content, response, packSize, targets, r, file);
      OnlyFileBytesChain(old(dest.content), before, dest.content, file);
      if r.None? {
        return;
      }
      retries := retries + 1;
      if !IsRetryable(r.value) || retries > MAX_RETRIES {
        return;
      }
      var entropy: nat := *;
      slept := slept + JitteredBackoff(retries, entropy);
      assert (draws + [entropy])[..|draws|] == draws;
      draws := draws + [entropy];
    }
  }
}
