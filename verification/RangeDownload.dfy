/** Downloading one blob in ranges (src/chunked_downloader/download.rs): one attempt at a chunk
    against any server, its retry loop, and the bounded fan-out over all chunks. */
module RangeDownload {
  import opened Basics
  import opened Retry
  import opened LocalFile
  import opened RangePlan
  import opened IncrementalHash

  datatype Response =
    | NoResponse(error: CoreError)
    | Response(status: nat, contentRange: Option<string>, frames: seq<Bytes>, cut: Option<CoreError>)

  /** The part of a body that belongs to the range. */
  function Owed(body: Bytes, expected: nat): (r: Bytes)
    ensures |r| <= expected && r <= body
  {
    if |body| > expected then body[..expected] else body
  }

  function HeadCheck(status: nat, contentRange: Option<string>, start: nat, end: nat, contentLength: nat): Option<CoreError> {
    if RequireAcceptableStatus(status, start, end, contentLength).Some? then
      RequireAcceptableStatus(status, start, end, contentLength)
    else if status == 206 then
      RequireContentRangeMatches(contentRange, start, end)
    else
      None
  }

  /** How reading a body ends, when the disk holds: too long, cut off, too short, or whole. */
  function BodyOutcome(frames: seq<Bytes>, cut: Option<CoreError>, expected: nat): Option<CoreError> {
    if |Concat(frames)| > expected then Some(BadResponse)
    else if cut.Some? then cut
    else if |Concat(frames)| < expected then Some(Io)
    else None
  }

  /** The length asked for; a range that wrapped gives a wrapped length. */
  function Expected(start: nat, end: nat): nat {
    if start <= end then end - start + 1 else (end - start + 1) % U64_SPAN
  }

  /** The bytes from `start` to `end`, both included; and one past the end of 64 bits starts again
      at zero. */
  lemma ExpectedTable(start: nat, n: nat)
    ensures n > 0 ==> Expected(start, start + n - 1) == n
    ensures Expected(0xFFFF_FFFF_FFFF_FFFF, 0) == 2
  {
  }

  /** How a chunk attempt ends when the disk holds. */
  function ChunkOutcome(response: Response, start: nat, end: nat, contentLength: nat): Option<CoreError> {
    match response
    case NoResponse(e) => Some(e)
    case Response(status, contentRange, frames, cut) =>
      if HeadCheck(status, contentRange, start, end, contentLength).Some? then
        HeadCheck(status, contentRange, start, end, contentLength)
      else
        BodyOutcome(frames, cut, Expected(start, end))
  }

  /** The bytes that a response offers for the range, if its head passes the checks. */
  function Offered(response: Response, start: nat, end: nat, contentLength: nat): Bytes {
    match response
    case NoResponse(_) => []
    case Response(status, contentRange, frames, _) =>
      if HeadCheck(status, contentRange, start, end, contentLength).Some? then []
      else Owed(Concat(frames), Expected(start, end))
  }

  lemma OfferedFits(response: Response, start: nat, end: nat, contentLength: nat)
    ensures |Offered(response, start, end, contentLength)| <= Expected(start, end)
  {
  }

  /** An honest response is taken. A 206 that names this range, or a 200 for the whole object, with
      exactly the bytes of the range and no error, is accepted, and offers just those bytes. */
  lemma HonestResponse(start: nat, end: nat, contentLength: nat, total: string, status: nat, range: Option<string>,
                       frames: seq<Bytes>)
    requires start <= end <= U64_MAX && |Concat(frames)| == end - start + 1
    requires (status == 206 && range == Some(ContentRange(start, end, total)))
             || (status == 200 && start == 0 && end + 1 == contentLength)
    ensures var response := Response(status, range, frames, None);
            && ChunkOutcome(response, start, end, contentLength) == None
            && Offered(response, start, end, contentLength) == Concat(frames)
  {
    if status == 206 {
      RangeMustMatch(start, end, total, start, end);
    }
  }

  /** And any other is refused, with the reason: an error before a response, a status that is not
      taken, a 206 for another range, a body that is too long, cut off, or too short. */
  lemma ResponseTable(start: nat, end: nat, contentLength: nat, status: nat, range: Option<string>, frames: seq<Bytes>,
                      cut: Option<CoreError>, e: CoreError)
    requires start <= end
    ensures ChunkOutcome(NoResponse(e), start, end, contentLength) == Some(e)
    ensures Offered(NoResponse(e), start, end, contentLength) == []
    ensures var (response, n) := (Response(status, range, frames, cut), end - start + 1);
            && (status != 206 && !(status == 200 && start == 0 && end + 1 == contentLength) ==>
                  ChunkOutcome(response, start, end, contentLength) == Some(ServerError(status))
                  && Offered(response, start, end, contentLength) == [])
            && (status == 206 && (range.None? || ParseContentRange(range.value) != Some((start, end))) ==>
                  ChunkOutcome(response, start, end, contentLength) == Some(BadResponse)
                  && Offered(response, start, end, contentLength) == [])
            && (status == 206 && range.Some? && ParseContentRange(range.value) == Some((start, end)) ==>
                  && ChunkOutcome(response, start, end, contentLength)
                     == (if |Concat(frames)| > n then Some(BadResponse)
                         else if cut.Some? then cut
                         else if |Concat(frames)| < n then Some(Io)
                         else None)
                  && Offered(response, start, end, contentLength)
                     == (if |Concat(frames)| > n then Concat(frames)[..n] else Concat(frames)))
  {
  }

  /** `after` is `before` with some first part of `data` written at `at`. */
  ghost predicate PrefixWritten(before: Bytes, after: Bytes, at: nat, data: Bytes) {
    exists k :: 0 <= k <= |data| && after == WriteAt(before, at, data[..k])
  }

  lemma {:induction false} ConcatGrows(frames: seq<Bytes>, n: nat)
    requires n <= |frames|
    ensures Concat(frames[..n]) <= Concat(frames)
  {
    assert frames == frames[..n] + frames[n..];
    ConcatAppend(frames[..n], frames[n..]);
  }

  lemma WriteOn(before: Bytes, at: nat, data: Bytes, more: Bytes)
    ensures WriteAt(WriteAt(before, at, data), at + |data|, more) == WriteAt(before, at, data + more)
  {
    if data == [] {
      assert [] + more == more;
    } else if more == [] {
      assert data + [] == data;
    }
  }

  /** A flush that is cut short leaves a prefix of all that was written. */
  lemma FlushCut(before: Bytes, after: Bytes, at: nat, flushed: Bytes, pending: Bytes)
    requires CutShort(WriteAt(before, at, flushed), after, at + |flushed|, pending)
    ensures PrefixWritten(before, after, at, flushed + pending)
  {
    var k :| 0 <= k <= |pending| && after == WriteAt(WriteAt(before, at, flushed), at + |flushed|, pending[..k]);
    WriteOn(before, at, flushed, pending[..k]);
    assert (flushed + pending)[..|flushed| + k] == flushed + pending[..k];
  }

  /** A buffered writer over the destination: what reaches the disk is always a prefix of what
      was written, in order. */
  class BufWriter {
    const dest: DestFile
    const at: nat
    var flushed: Bytes
    var pending: Bytes

    constructor (dest: DestFile, at: nat)
      ensures this.dest == dest && this.at == at && flushed == [] && pending == []
    {
      this.dest, this.at := dest, at;
      flushed, pending := [], [];
    }

    ghost predicate Valid(before: Bytes)
      reads this, dest
    {
      dest.content == WriteAt(before, at, flushed)
    }

    method WriteAll(data: Bytes, ghost before: Bytes) returns (ok: bool)
      requires Valid(before)
      modifies this, dest
      ensures ok ==> Valid(before) && flushed + pending == old(flushed + pending) + data
      ensures !ok ==> PrefixWritten(before, dest.content, at, old(flushed + pending) + data)
    {
      pending := pending + data;
      assert flushed + pending == old(flushed + pending) + data;
      var spill: bool := *;
      if spill {
        ok := Flush(before);
      } else {
        ok := true;
      }
    }

    method Flush(ghost before: Bytes) returns (ok: bool)
      requires Valid(before)
      modifies this, dest
      ensures ok ==> Valid(before) && flushed == old(flushed + pending) && pending == []
      ensures ok ==> dest.content == WriteAt(old(dest.content), at + |old(flushed)|, old(pending))
      ensures !ok ==> CutShort(old(dest.content), dest.content, at + |old(flushed)|, old(pending))
      ensures !ok ==> PrefixWritten(before, dest.content, at, old(flushed + pending))
    {
      hide WriteAt, CutShort, PrefixWritten;
      WriteOn(before, at, flushed, pending);
      ok := dest.WriteAll(at + |flushed|, pending);
      if ok {
        flushed := flushed + pending;
        pending := [];
      } else {
        FlushCut(before, dest.content, at, flushed, pending);
      }
    }
  }

  /** Whatever the buffer still holds, the disk has a prefix. */
  lemma ValidIsPrefix(before: Bytes, after: Bytes, at: nat, flushed: Bytes, data: Bytes)
    requires after == WriteAt(before, at, flushed) && flushed <= data
    ensures PrefixWritten(before, after, at, data)
  {
    assert data[..|flushed|] == flushed;
  }

  lemma PrefixOfPrefix(before: Bytes, after: Bytes, at: nat, part: Bytes, data: Bytes)
    requires PrefixWritten(before, after, at, part) && part <= data
    ensures PrefixWritten(before, after, at, data)
  {
    var k :| 0 <= k <= |part| && after == WriteAt(before, at, part[..k]);
    assert data[..k] == part[..k];
  }

  /** The body loop: write what is owed, flag what is too much. */
  method WriteBody(frames: seq<Bytes>, cut: Option<CoreError>, expected: nat, writer: BufWriter, ghost before: Bytes)
    returns (r: Result<(nat, bool), CoreError>)
    requires writer.Valid(before) && writer.flushed == [] && writer.pending == []
    modifies writer, writer.dest
    ensures PrefixWritten(before, writer.dest.content, writer.at, Owed(Concat(frames), expected))
    ensures match r
            case Err(e) => e == Io || (cut == Some(e) && |Concat(frames)| <= expected)
            case Ok((written, overRange)) =>
              && writer.Valid(before)
              && writer.flushed == Owed(Concat(frames), expected) && written == |writer.flushed|
              && overRange == (|Concat(frames)| > expected)
              && (cut.Some? ==> overRange)
  {
    var written: nat, overRange := 0, false;
    ghost var body := Concat(frames);
    assert frames[..0] == [];
    for i := 0 to |frames|
      invariant writer.Valid(before)
      invariant writer.flushed + writer.pending == Concat(frames[..i])
      invariant written == |Concat(frames[..i])| <= expected
    {
      assert frames[..i + 1][..i] == frames[..i];
      ConcatGrows(frames, i);
      ConcatGrows(frames, i + 1);
      var remaining := expected - written;
      var take := Min(|frames[i]|, remaining);
      ghost var done := writer.flushed + writer.pending;
      TakeIsOwed(Concat(frames[..i]), frames[i], body, expected);
      if take > 0 {
        var ok := writer.WriteAll(frames[i][..take], before);
        if !ok {
          PrefixOfPrefix(before, writer.dest.content, writer.at, done + frames[i][..take], Owed(body, expected));
          return Err(Io);
        }
        written := written + take;
      }
      assert writer.flushed + writer.pending == done + frames[i][..take];
      if |frames[i]| > remaining {
        overRange := true;
        var ok := writer.Flush(before);
        if !ok {
          return Err(Io);
        }
        ValidIsPrefix(before, writer.dest.content, writer.at, writer.flushed, Owed(body, expected));
        return Ok((written, overRange));
      }
      assert frames[i][..take] == frames[i];
    }
    assert frames[..|frames|] == frames;
    if cut.Some? {
      ValidIsPrefix(before, writer.dest.content, writer.at, writer.flushed, Owed(body, expected));
      return Err(cut.value);
    }
    var ok := writer.Flush(before);
    if !ok {
      return Err(Io);
    }
    ValidIsPrefix(before, writer.dest.content, writer.at, writer.flushed, Owed(body, expected));
    return Ok((written, overRange));
  }

  lemma TakeIsOwed(done: Bytes, frame: Bytes, body: Bytes, expected: nat)
    requires |done| <= expected && done + frame <= body
    ensures var take := Min(|frame|, expected - |done|);
            && done + frame[..take] <= Owed(body, expected)
            && (|frame| > expected - |done| ==> done + frame[..take] == Owed(body, expected) && |body| > expected)
  {
    var take := Min(|frame|, expected - |done|);
    assert done + frame[..take] == (done + frame)[..|done| + take] == body[..|done| + take];
  }

  /** Write one body at the start of its range. */
  method WriteRange(frames: seq<Bytes>, cut: Option<CoreError>, start: nat, expected: nat, dest: DestFile)
    returns (r: Option<CoreError>)
    modifies dest
    ensures r == BodyOutcome(frames, cut, expected) || r == Some(Io)
    ensures PrefixWritten(old(dest.content), dest.content, start, Owed(Concat(frames), expected))
    ensures r.None? ==> dest.content == WriteAt(old(dest.content), start, Owed(Concat(frames), expected))
  {
    var writer := new BufWriter(dest, start);
    var body := WriteBody(frames, cut, expected, writer, dest.content);
    if body.Err? {
      return Some(body.error);
    }
    var (written, overRange) := body.value;
    if overRange {
      return Some(BadResponse);
    }
    if written != expected {
      return Some(Io);
    }
    return None;
  }

  /** What an attempt may do to the destination: `r` tells how it ended. */
  ghost predicate AttemptEnds(before: Bytes, after: Bytes, response: Response, start: nat, end: nat,
                              contentLength: nat, r: Option<CoreError>)
  {
    var offered := Offered(response, start, end, contentLength);
    && (r == ChunkOutcome(response, start, end, contentLength) || r == Some(Io))
    && PrefixWritten(before, after, start, offered)
    && (r.None? ==> after == WriteAt(before, start, offered))
  }

  /** One attempt at a chunk. Whatever the server answers, the destination changes only by a
      first part of the owed bytes at `start`; and the attempt succeeds only if the body was
      exactly the range, which is then all there. */
  method TryDownloadChunk(response: Response, start: nat, end: nat, contentLength: nat, dest: DestFile)
    returns (r: Option<CoreError>)
    modifies dest
    ensures AttemptEnds(old(dest.content), dest.content, response, start, end, contentLength, r)
  {
    NothingWritten(dest.content, start);
    match response {
      case NoResponse(e) =>
        return Some(e);
      case Response(status, contentRange, frames, cut) =>
        r := RequireAcceptableStatus(status, start, end, contentLength);
        if r.Some? {
          return;
        }
        if status == 206 {
          r := RequireContentRangeMatches(contentRange, start, end);
          if r.Some? {
            return;
          }
        }
        r := WriteRange(frames, cut, start, Expected(start, end), dest);
    }
  }

  lemma NothingWritten(before: Bytes, start: nat)
    ensures PrefixWritten(before, before, start, [])
  {
    ValidIsPrefix(before, before, start, [], []);
  }

  /** `after` differs from `before` only inside the range. */
  predicate Confined(before: Bytes, after: Bytes, start: nat, end: nat) {
    |after| == |before| && forall p :: 0 <= p < |before| && !(start <= p <= end) ==> after[p] == before[p]
  }

  /** Any attempt is confined to its range, and a successful one puts the whole body there. */
  lemma AttemptConfined(before: Bytes, after: Bytes, response: Response, start: nat, end: nat,
                        contentLength: nat, r: Option<CoreError>)
    requires start <= end < |before| && AttemptEnds(before, after, response, start, end, contentLength, r)
    ensures Confined(before, after, start, end)
    ensures r.None? ==> Delivered(response, start, end, contentLength, after)
  {
    var offered := Offered(response, start, end, contentLength);
    PrefixConfined(before, after, start, end, offered);
    if r.None? {
      SuccessIsWhole(response, start, end, contentLength);
      WholeWritten(before, start, offered);
    }
  }

  lemma PrefixConfined(before: Bytes, after: Bytes, start: nat, end: nat, data: Bytes)
    requires PrefixWritten(before, after, start, data) && start <= end < |before| && |data| <= end - start + 1
    ensures Confined(before, after, start, end)
  {
    var k :| 0 <= k <= |data| && after == WriteAt(before, start, data[..k]);
  }

  lemma WholeWritten(before: Bytes, start: nat, data: Bytes)
    requires start + |data| <= |before|
    ensures WriteAt(before, start, data)[start..start + |data|] == data
  {
  }

  /** An attempt that succeeds delivered the whole range. */
  lemma SuccessIsWhole(response: Response, start: nat, end: nat, contentLength: nat)
    requires start <= end && ChunkOutcome(response, start, end, contentLength).None?
    ensures response.Response? && HeadCheck(response.status, response.contentRange, start, end, contentLength).None?
    ensures Offered(response, start, end, contentLength) == Concat(response.frames)
    ensures |Concat(response.frames)| == end - start + 1
  {
  }

  /** The response passed every check, and the file holds its body over the range. */
  predicate Delivered(response: Response, start: nat, end: nat, contentLength: nat, after: Bytes)
    requires start <= end < |after|
  {
    && response.Response?
    && HeadCheck(response.status, response.contentRange, start, end, contentLength).None?
    && after[start..end + 1] == Concat(response.frames)
  }

  lemma ConfinedChain(a: Bytes, b: Bytes, c: Bytes, start: nat, end: nat)
    requires Confined(a, b, start, end) && Confined(b, c, start, end)
    ensures Confined(a, c, start, end)
  {
  }

  /** The retry loop of one chunk: at most four attempts and 1.4 s of sleep, every byte outside
      the range untouched, and on success the range filled by one accepted response. */
  method DownloadChunkWithRetry(start: nat, end: nat, contentLength: nat, dest: DestFile)
    returns (r: Option<CoreError>, attempts: nat, slept: nat, ghost last: Response, ghost ends: seq<Option<CoreError>>)
    requires start <= end < |dest.content|
    modifies dest
    ensures Confined(old(dest.content), dest.content, start, end)
    ensures 1 <= attempts <= MAX_RETRIES + 1 && slept < 1_400_000_000
    ensures RetriedRightly(ends, MAX_RETRIES) && |ends| == attempts && ends[|ends| - 1] == r
    ensures r.None? ==> Delivered(last, start, end, contentLength, dest.content)
  {
    var retries: nat := 0;
    ghost var draws: seq<nat> := [];
    slept, attempts, ends := 0, 0, [];
    while true
      invariant |draws| == retries == attempts <= MAX_RETRIES && slept == TotalBackoff(draws)
      invariant Confined(old(dest.content), dest.content, start, end)
      invariant |ends| == attempts && forall k :: 0 <= k < |ends| ==> ends[k].Some? && IsRetryable(ends[k].value)
      decreases MAX_RETRIES - retries
    {
      var response: Response := *;
      last := response;
      ghost var before := dest.content;
      r := TryDownloadChunk(response, start, end, contentLength, dest);
      ends := ends + [r];
      attempts := attempts + 1;
      BackoffBudget(draws);
      AttemptConfined(before, dest.content, response, start, end, contentLength, r);
      ConfinedChain(old(dest.content), before, dest.content, start, end);
      if r.None? {
        return;
      }
      retries := retries + 1;
      if !IsRetryable(r.value) || retries > MAX_RETRIES {
        return;
      }
      var entropy: nat := *;
      slept := slept + JitteredBackoff(retries, entropy);
      assert (draws + [entropy])[..|draws|] == draws;
      draws := draws + [entropy];
    }
  }

  const MAX_INFLIGHT_CHUNKS: nat := 32

  /** The extent a chunk signals to the hasher. */
  function ChunkExtent(contentLength: nat, chunkSize: nat, i: nat): Extent {
    var (start, end) := ChunkBounds(contentLength, chunkSize, i);
    Extent(start, (end - start + 1) % U64_SPAN)
  }

  function Extents(contentLength: nat, chunkSize: nat, order: seq<nat>): (r: seq<Extent>)
    ensures |r| == |order|
  {
    seq(|order|, k requires 0 <= k < |order| => ChunkExtent(contentLength, chunkSize, order[k]))
  }

  predicate Distinct(xs: seq<nat>) {
    forall i, j :: 0 <= i < j < |xs| ==> xs[i] != xs[j]
  }

  /** How a joined task ended. */
  datatype Joined = TaskOk | TaskFailed(error: CoreError) | TaskPanicked

  /** The window: every index below `next` was spawned once, and is live or has landed, not both;
      at most 32 are live, and exactly 32 while any is still to be spawned. */
  ghost predicate Window(numChunks: nat, next: nat, live: set<nat>, order: seq<nat>) {
    && next <= numChunks
    && (forall i :: i in live ==> i < next && i !in order)
    && (forall i :: i in order ==> i < next)
    && (forall i: nat :: i < next ==> i in live || i in order)
    && Distinct(order)
    && |order| + |live| == next
    && |live| <= MAX_INFLIGHT_CHUNKS
    && (next < numChunks ==> |live| == MAX_INFLIGHT_CHUNKS)
  }

  predicate InOrder(spawned: seq<nat>) {
    forall k :: 0 <= k < |spawned| ==> spawned[k] == k
  }

  /** The tasks spawned before any is joined. */
  method Prime(numChunks: nat) returns (spawned: seq<nat>, live: set<nat>)
    ensures Window(numChunks, |spawned|, live, []) && InOrder(spawned)
  {
    spawned, live := [], {};
    while |spawned| < numChunks && |live| < MAX_INFLIGHT_CHUNKS
      invariant |live| == |spawned| <= numChunks && |live| <= MAX_INFLIGHT_CHUNKS
      invariant forall i: nat :: i in live <==> i < |spawned|
      invariant InOrder(spawned)
      decreases numChunks - |spawned|
    {
      live := live + {|spawned|};
      spawned := spawned + [|spawned|];
    }
  }

  lemma Landed(numChunks: nat, next: nat, live: set<nat>, order: seq<nat>, i: nat)
    requires Window(numChunks, next, live, order) && i in live
    ensures next < numChunks ==> Window(numChunks, next + 1, live - {i} + {next}, order + [i])
    ensures next == numChunks ==> Window(numChunks, next, live - {i}, order + [i])
  {
  }

  /** The fan-out. Every chunk index is spawned once, in order, with at most 32 live at a time;
      and on success every chunk has signalled its extent exactly once, in the order the tasks
      landed. */
  method RunChunkFanout(contentLength: nat, chunkSize: nat, numChunks: nat)
    returns (r: Option<CoreError>, spawned: seq<nat>, order: seq<nat>, signals: seq<Extent>, peak: nat)
    ensures InOrder(spawned) && |spawned| <= numChunks && peak <= MAX_INFLIGHT_CHUNKS
    ensures Distinct(order) && forall i :: i in order ==> i < |spawned|
    ensures signals == Extents(contentLength, chunkSize, order)
    ensures r.None? ==> |spawned| == |order| == numChunks && forall i :: 0 <= i < numChunks ==> i in order
    ensures r.Some? ==> r.value == JoinFailed || (r.value.ChunkFailed? && r.value.index < |spawned| && r.value.index !in order)
  {
    var live;
    spawned, live := Prime(numChunks);
    order, signals, peak := [], [], |live|;
    while live != {}
      invariant Window(numChunks, |spawned|, live, order) && InOrder(spawned)
      invariant signals == Extents(contentLength, chunkSize, order)
      invariant |live| <= peak <= MAX_INFLIGHT_CHUNKS
      decreases numChunks - |spawned|, |live|
    {
      var i: nat :| i in live;
      Landed(numChunks, |spawned|, live, order, i);
      var joined: Joined := *;
      match joined {
        case TaskPanicked =>
          return Some(JoinFailed), spawned, order, signals, peak;
        case TaskFailed(error) =>
          return Some(ChunkFailed(i, error)), spawned, order, signals, peak;
        case TaskOk =>
          live := live - {i};
          signals := signals + [ChunkExtent(contentLength, chunkSize, i)];
          order := order + [i];
          if |spawned| < numChunks {
            live := live + {|spawned|};
            spawned := spawned + [|spawned|];
            peak := Max(peak, |live|);
          }
      }
    }
    r := None;
  }
}
