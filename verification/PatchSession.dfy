/** The resumable blob upload (src/uploader/blob.rs; the OCI Distribution Specification,
    "Pushing a blob in chunks"): a client and a registry that may commit part of a chunk, late,
    lose any response, and refuse or forget a session. */
module PatchSession {
  import opened Basics
  import opened Text
  import opened Retry

  /** One PATCH as the client sent it. */
  datatype Sent = Sent(start: nat, body: Bytes)

  datatype PatchReply = PatchLost(error: CoreError) | PatchAnswer(status: nat, badLocation: bool)

  datatype StatusReply = StatusLost(error: CoreError) | StatusAnswer(status: nat) | Progress(range: Option<string>)

  /** The count of committed bytes that an upload status reports. */
  function CommittedBytes(range: Option<string>): nat {
    if range.None? then
      0
    else
      match ParseU64(Trim(LastPiece(range.value, '-')))
      case None => 0
      case Some(end) => if end == 0 then 0 else if end == U64_MAX then U64_MAX else end + 1
  }

  /** How a registry reports that it has committed `n` bytes. */
  function RangeHeader(n: nat): string {
    if n == 0 then "0-0" else "0-" + Decimal(n - 1)
  }

  /** The count is exact, except that one committed byte reads as none, as an empty session is
      reported the same way. */
  lemma CommittedExact(n: nat)
    requires n <= U64_MAX
    ensures CommittedBytes(Some(RangeHeader(n))) == if n == 1 then 0 else n
  {
    var end := Decimal(if n == 0 then 0 else n - 1);
    var prefix := "0";
    assert RangeHeader(n) == prefix + "-" + end;
    assert '-' !in end && Trim(end) == end;
    LastPieceAt(prefix, '-', end);
    ParseU64Decimal(if n == 0 then 0 else n - 1);
  }

  /** So it never over-reports what a registry that answers truthfully, or not at all, holds. */
  predicate Truthful(range: Option<string>, committed: nat) {
    range.None? || range == Some(RangeHeader(committed)) || ParseU64(Trim(LastPiece(range.value, '-'))).None?
  }

  lemma NeverOverReports(range: Option<string>, committed: nat)
    requires Truthful(range, committed) && committed <= U64_MAX
    ensures CommittedBytes(range) <= committed
  {
    CommittedExact(committed);
  }

  /** A slice of the file that starts no later than what is already there. */
  predicate InPlace(file: Bytes, committed: nat, p: Sent) {
    p.start <= committed && p.start + |p.body| <= |file| && p.body == file[p.start..p.start + |p.body|]
  }

  /** Landing any part of such a slice keeps the content a prefix of the file. */
  lemma LandKeepsPrefix(content: Bytes, file: Bytes, p: Sent, n: nat)
    requires content <= file && InPlace(file, |content|, p) && n <= |p.body|
    ensures WriteAt(content, p.start, p.body[..n]) <= file
    ensures |content| <= |WriteAt(content, p.start, p.body[..n])|
    ensures p.start + n <= |WriteAt(content, p.start, p.body[..n])|
  {
    var after := WriteAt(content, p.start, p.body[..n]);
    assert forall b :: 0 <= b < |after| ==> after[b] == file[b];
    assert after == file[..|after|];
  }

  /** What a registry can be relied on for: that a PATCH it refuses with 405 or 501 commits nothing,
      and that it checks the digest it is given at the end. Neither is needed for what is committed
      by PATCHes alone. */
  datatype Promises = Promises(cleanRefusals: bool, checksDigest: bool)

  predicate Refusal(reply: PatchReply) {
    reply.PatchAnswer? && (reply.status == 405 || reply.status == 501)
  }

  class UploadSession {
    const promises: Promises
    var content: Bytes
    var sent: seq<Sent>
    var late: seq<Sent>
    var reach: nat
    var stored: Option<Bytes>

    constructor (promises: Promises)
      ensures this.promises == promises
      ensures content == [] && sent == [] && late == [] && reach == 0 && stored == None
    {
      this.promises := promises;
      content, sent, late, reach, stored := [], [], [], 0, None;
    }

    /** What has been committed is a prefix of the file, and so is anything still to land; none of it
        lies past `reach`. */
    ghost predicate Faithful(file: Bytes)
      reads this
    {
      && content <= file && |content| <= reach
      && forall k :: 0 <= k < |late| ==> InPlace(file, |content|, late[k]) && late[k].start + |late[k].body| <= reach
    }

    /** Parts of chunks sent before may land at any time. */
    method LandSome(ghost file: Bytes)
      requires Faithful(file)
      modifies this`content
      ensures Faithful(file) && |content| >= |old(content)|
    {
      var times: nat :| 0 <= times;
      for t := 0 to times
        invariant Faithful(file) && |content| >= |old(content)|
      {
        if late != [] {
          var k: nat :| k < |late|;
          var n: nat :| n <= |late[k].body|;
          LandKeepsPrefix(content, file, late[k], n);
          content := WriteAt(content, late[k].start, late[k].body[..n]);
        }
      }
    }

    /** A 202 means that the whole chunk is committed; any other reply, or none, says nothing,
        unless refusals can be relied on. */
    method Patch(start: nat, body: Bytes, ghost file: Bytes) returns (reply: PatchReply)
      requires Faithful(file) && InPlace(file, |content|, Sent(start, body))
      modifies this`content, this`sent, this`late, this`reach
      ensures Faithful(file) && |content| >= |old(content)|
      ensures sent == old(sent) + [Sent(start, body)]
      ensures reply.PatchAnswer? && reply.status == 202 ==> start + |body| <= |content|
      ensures reach == if promises.cleanRefusals && Refusal(reply) then old(reach) else Max(old(reach), start + |body|)
    {
      sent := sent + [Sent(start, body)];
      reply := *;
      if !(promises.cleanRefusals && Refusal(reply)) {
        reach := Max(reach, start + |body|);
        late := late + [Sent(start, body)];
      }
      LandSome(file);
      if reply.PatchAnswer? && reply.status == 202 {
        LandKeepsPrefix(content, file, Sent(start, body), |body|);
        assert body[..|body|] == body;
        content := WriteAt(content, start, body);
      }
    }

    method Status(ghost file: Bytes) returns (reply: StatusReply)
      requires Faithful(file) && |file| <= U64_MAX
      modifies this`content
      ensures Faithful(file) && |content| >= |old(content)|
      ensures reply.Progress? ==> Truthful(reply.range, |content|) && CommittedBytes(reply.range) <= |content|
    {
      LandSome(file);
      reply := *;
      if reply.Progress? && !Truthful(reply.range, |content|) {
        reply := Progress(Some(RangeHeader(|content|)));
      }
      if reply.Progress? {
        NeverOverReports(reply.range, |content|);
      }
    }

    /** The closing PUT: its body is the last part of the blob, after whatever was committed. */
    method Put(body: Bytes, digest: Digest, ghost file: Bytes) returns (error: Option<CoreError>)
      requires Faithful(file)
      modifies this`content, this`stored
      ensures Faithful(file) && |content| >= |old(content)|
      ensures error.None? ==> stored == Some(content + body)
      ensures error.None? && promises.checksDigest ==> Sha256(content + body) == digest
    {
      LandSome(file);
      error := *;
      if promises.checksDigest && Sha256(content + body) != digest {
        error := Some(ServerError(400));
      }
      if error.None? {
        stored := Some(content + body);
      }
    }
  }

  datatype PatchOutcome = Done | Unsupported

  function PatchChunkSize(configured: nat, minChunk: Option<nat>, size: nat): (r: nat)
    requires configured > 0
    ensures r > 0
    ensures minChunk.Some? && r < minChunk.value ==> r >= size
  {
    Min(Max(configured, if minChunk.Some? then minChunk.value else 0), Max(size, 1))
  }

  /** A PATCH carries the configured size, or the registry's minimum if that is more, or the whole
      file if that is less. */
  lemma ChunkSizeTable(configured: nat, least: nat, size: nat)
    requires 0 < configured <= size && least <= size
    ensures PatchChunkSize(configured, None, size) == configured
    ensures configured >= least ==> PatchChunkSize(configured, Some(least), size) == configured
    ensures configured < least ==> PatchChunkSize(configured, Some(least), size) == least
    ensures PatchChunkSize(size + configured, None, size) == size
  {
  }

  /** Every PATCH carries data, and every one that does not end the file is at least the
      registry's minimum. */
  predicate BigEnough(sent: seq<Sent>, from: nat, size: nat, minChunk: Option<nat>) {
    forall k :: from <= k < |sent| ==>
      && 0 < |sent[k].body|
      && (minChunk.Some? && sent[k].start + |sent[k].body| != size ==> |sent[k].body| >= minChunk.value)
  }

  /** How a failed PATCH is taken. */
  datatype Verdict = NotSupported | Permanent(error: CoreError) | Resume(error: CoreError)

  function Judge(reply: PatchReply, offset: nat): Verdict {
    match reply
    case PatchLost(e) => Resume(e)
    case PatchAnswer(code, _) =>
      if offset == 0 && (code == 405 || code == 501) then NotSupported
      else if code != 416 && !IsRetryable(ServerError(code)) then Permanent(ServerError(code))
      else Resume(ServerError(code))
  }

  /** How far an upload status lets the client go on, and whether the session is gone. */
  function SessionOffset(reply: StatusReply): Result<Option<nat>, CoreError> {
    match reply
    case StatusLost(e) => Err(e)
    case StatusAnswer(code) => if code == 404 then Ok(None) else Err(ServerError(code))
    case Progress(range) => Ok(Some(CommittedBytes(range)))
  }

  /** What each answer to a PATCH and to an upload status means. A 416 is resumed although it is not
      retryable, 405 and 501 mean that PATCH is not supported at offset 0 only, and a session is gone
      exactly at a 404. */
  lemma AnswerTable(code: nat, badLocation: bool, offset: nat, e: CoreError, range: Option<string>)
    ensures Judge(PatchLost(e), offset) == Resume(e)
    ensures Judge(PatchAnswer(code, badLocation), offset)
            == if offset == 0 && code in {405, 501} then NotSupported
               else if code in {408, 416, 429} || 500 <= code <= 599 then Resume(ServerError(code))
               else Permanent(ServerError(code))
    ensures SessionOffset(StatusAnswer(code)) == Ok(None) <==> code == 404
    ensures SessionOffset(StatusAnswer(code)).Err? <==> code != 404
    ensures SessionOffset(StatusLost(e)) == Err(e)
    ensures SessionOffset(Progress(range)) == Ok(Some(CommittedBytes(range)))
  {
  }

  /** One turn of the PATCH loop as the client sees it: the answer to the PATCH, and to the upload
      status if it was asked for. */
  datatype Turn = Turn(reply: PatchReply, status: StatusReply)

  datatype Next = Go(offset: nat, stall: nat) | Stop(result: Result<PatchOutcome, CoreError>)

  predicate Committed(reply: PatchReply) {
    reply.PatchAnswer? && reply.status == 202
  }

  function Stalled(offset: nat, stall: nat, cause: CoreError): Next {
    if stall + 1 > MAX_RETRIES then Stop(Err(ForceRetryable(cause))) else Go(offset, stall + 1)
  }

  /** What the client does after one turn. */
  function AfterTurn(size: nat, chunkSize: nat, offset: nat, stall: nat, t: Turn): Next {
    if Committed(t.reply) then
      if t.reply.badLocation then Stop(Err(Integrity)) else Go(Min(offset + chunkSize, size), 0)
    else
      match Judge(t.reply, offset)
      case NotSupported => Stop(Ok(Unsupported))
      case Permanent(e) => Stop(Err(e))
      case Resume(cause) =>
        match SessionOffset(t.status)
        case Ok(None) => Stop(Err(ForceRetryable(cause)))
        case Ok(Some(n)) => if n > offset then Go(n, 0) else Stalled(offset, stall, cause)
        case Err(_) => Stalled(offset, stall, cause)
  }

  /** An acknowledged PATCH moves the client on by the whole chunk, unless its answer misdirects it. */
  lemma AcknowledgedTurn(size: nat, chunkSize: nat, offset: nat, stall: nat, status: StatusReply)
    ensures AfterTurn(size, chunkSize, offset, stall, Turn(PatchAnswer(202, false), status))
            == Go(Min(offset + chunkSize, size), 0)
    ensures AfterTurn(size, chunkSize, offset, stall, Turn(PatchAnswer(202, true), status)) == Stop(Err(Integrity))
  {
  }

  /** How a PATCH whose answer was lost goes on: from what the registry says it has, if that is more;
      not at all if the session is gone, so that a fresh one follows; else by trying again, up to three
      times in a row. */
  lemma LostTurn(size: nat, chunkSize: nat, offset: nat, stall: nat, cause: CoreError, n: nat)
    requires IsRetryable(cause)
    ensures AfterTurn(size, chunkSize, offset, stall, Turn(PatchLost(cause), StatusAnswer(404))) == Stop(Err(cause))
    ensures n != 1 && offset < n <= U64_MAX ==>
              AfterTurn(size, chunkSize, offset, stall, Turn(PatchLost(cause), Progress(Some(RangeHeader(n))))) == Go(n, 0)
    ensures AfterTurn(size, chunkSize, offset, stall, Turn(PatchLost(cause), StatusLost(Io)))
            == if stall < 3 then Go(offset, stall + 1) else Stop(Err(cause))
  {
    if n <= U64_MAX {
      CommittedExact(n);
    }
    hide RangeHeader, CommittedBytes, IsRetryable;
  }

  /** A PATCH out of order is not retryable in itself, but a fresh session is. */
  lemma OutOfOrderTurn(size: nat, chunkSize: nat, offset: nat)
    ensures AfterTurn(size, chunkSize, offset, 3, Turn(PatchAnswer(416, false), StatusLost(Io)))
            == AfterTurn(size, chunkSize, offset, 0, Turn(PatchAnswer(416, false), StatusAnswer(404)))
            == Stop(Err(SessionRestart(ServerError(416))))
  {
  }

  /** Where a session's turns have led the client; `None` when it would not have taken them all. */
  function Client(size: nat, chunkSize: nat, turns: seq<Turn>): Option<Next> {
    if turns == [] then
      Some(Go(0, 0))
    else
      match Client(size, chunkSize, turns[..|turns| - 1])
      case Some(Go(offset, stall)) =>
        if offset < size then Some(AfterTurn(size, chunkSize, offset, stall, turns[|turns| - 1])) else None
      case _ => None
  }

  /** The furthest byte that the PATCHes so far can have brought to the registry. */
  function Reach(clean: bool, size: nat, chunkSize: nat, turns: seq<Turn>): nat {
    if turns == [] then
      0
    else
      var init, last := turns[..|turns| - 1], turns[|turns| - 1];
      match Client(size, chunkSize, init)
      case Some(Go(offset, _)) =>
        if clean && Refusal(last.reply) then Reach(clean, size, chunkSize, init)
        else Max(Reach(clean, size, chunkSize, init), Min(offset + chunkSize, size))
      case _ => Reach(clean, size, chunkSize, init)
  }

  /** The registry held `n` bytes after the last of these turns, and `before` bytes before it. */
  predicate MayHold(clean: bool, size: nat, chunkSize: nat, turns: seq<Turn>, before: nat, n: nat)
    requires turns != []
  {
    var init, last := turns[..|turns| - 1], turns[|turns| - 1];
    && before <= n <= Reach(clean, size, chunkSize, turns)
    && (last.status.Progress? ==> Truthful(last.status.range, n))
    && (Committed(last.reply) ==>
          match Client(size, chunkSize, init)
          case Some(Go(offset, _)) => Min(offset + chunkSize, size) <= n
          case _ => true)
  }

  function Last(held: seq<nat>): nat {
    if held == [] then 0 else held[|held| - 1]
  }

  predicate MayHoldAt(clean: bool, size: nat, chunkSize: nat, turns: seq<Turn>, held: seq<nat>, k: nat)
    requires k < |turns| && k < |held|
  {
    MayHold(clean, size, chunkSize, turns[..k + 1], Last(held[..k]), held[k])
  }

  /** What a registry may have held after each turn, for it to answer as it did. */
  predicate Possible(clean: bool, size: nat, chunkSize: nat, turns: seq<Turn>, held: seq<nat>) {
    |held| == |turns| && forall k :: 0 <= k < |turns| ==> MayHoldAt(clean, size, chunkSize, turns, held, k)
  }

  lemma PossibleSnoc(clean: bool, size: nat, chunkSize: nat, turns: seq<Turn>, held: seq<nat>, t: Turn, n: nat)
    requires Possible(clean, size, chunkSize, turns, held)
    requires MayHold(clean, size, chunkSize, turns + [t], Last(held), n)
    ensures Possible(clean, size, chunkSize, turns + [t], held + [n])
  {
    hide MayHold;
    var turns', held' := turns + [t], held + [n];
    forall k | 0 <= k < |turns'|
      ensures MayHoldAt(clean, size, chunkSize, turns', held', k)
    {
      if k < |turns| {
        assert MayHoldAt(clean, size, chunkSize, turns, held, k);
        assert turns'[..k + 1] == turns[..k + 1] && held'[..k] == held[..k];
      } else {
        assert turns'[..k + 1] == turns' && held'[..k] == held;
      }
    }
  }

  lemma TurnsSnoc(clean: bool, size: nat, chunkSize: nat, turns: seq<Turn>, offset: nat, stall: nat, t: Turn)
    requires Client(size, chunkSize, turns) == Some(Go(offset, stall)) && offset < size
    ensures Client(size, chunkSize, turns + [t]) == Some(AfterTurn(size, chunkSize, offset, stall, t))
    ensures Reach(clean, size, chunkSize, turns + [t])
            == if clean && Refusal(t.reply) then Reach(clean, size, chunkSize, turns)
               else Max(Reach(clean, size, chunkSize, turns), Min(offset + chunkSize, size))
    ensures (turns + [t])[..|turns|] == turns
  {
  }

  /** The turns so far, and what the registry held after each, are those of this session. */
  ghost predicate Tracks(session: UploadSession, file: Bytes, chunkSize: nat, turns: seq<Turn>, held: seq<nat>)
    reads session
  {
    && session.Faithful(file) && Last(held) == |session.content|
    && session.reach == Reach(session.promises.cleanRefusals, |file|, chunkSize, turns)
    && Possible(session.promises.cleanRefusals, |file|, chunkSize, turns, held)
  }

  /** One turn of the loop. */
  method TakeTurn(session: UploadSession, file: Bytes, chunkSize: nat, ghost turns: seq<Turn>, ghost held: seq<nat>,
                  offset: nat, ghost stall: nat)
    returns (t: Turn, ghost n: nat)
    requires Tracks(session, file, chunkSize, turns, held)
    requires offset <= |session.content| && offset < |file| <= U64_MAX && chunkSize > 0
    requires Client(|file|, chunkSize, turns) == Some(Go(offset, stall))
    modifies session`content, session`sent, session`late, session`reach
    ensures Tracks(session, file, chunkSize, turns + [t], held + [n])
    ensures |old(session.content)| <= |session.content| <= |file|
    ensures session.sent == old(session.sent) + [Sent(offset, file[offset..Min(offset + chunkSize, |file|)])]
    ensures Client(|file|, chunkSize, turns + [t]) == Some(AfterTurn(|file|, chunkSize, offset, stall, t))
    ensures Committed(t.reply) ==> Min(offset + chunkSize, |file|) <= |session.content|
    ensures t.status.Progress? ==> CommittedBytes(t.status.range) <= |session.content|
  {
    hide Client, Possible, Reach, CommittedBytes, Truthful;
    var end := Min(offset + chunkSize, |file|);
    var reply := session.Patch(offset, file[offset..end], file);
    var status := StatusLost(Io);
    if !Committed(reply) && Judge(reply, offset).Resume? {
      status := session.Status(file);
    }
    t, n := Turn(reply, status), |session.content|;
    assert Last(held + [n]) == n;
    TurnsSnoc(session.promises.cleanRefusals, |file|, chunkSize, turns, offset, stall, t);
    PossibleSnoc(session.promises.cleanRefusals, |file|, chunkSize, turns, held, t, n);
  }

  /** The rest of the loop body: how a turn is taken. */
  method Classify(size: nat, chunkSize: nat, offset: nat, stall: nat, t: Turn) returns (next: Next)
    ensures next == AfterTurn(size, chunkSize, offset, stall, t)
  {
    if t.reply.PatchAnswer? && t.reply.status == 202 {
      if t.reply.badLocation {
        return Stop(Err(Integrity));
      }
      return Go(Min(offset + chunkSize, size), 0);
    }
    var cause;
    match Judge(t.reply, offset) {
      case NotSupported => return Stop(Ok(Unsupported));
      case Permanent(e) => return Stop(Err(e));
      case Resume(e) => cause := e;
    }
    match SessionOffset(t.status) {
      case Ok(None) => return Stop(Err(ForceRetryable(cause)));
      case Ok(Some(n)) =>
        if n > offset {
          return Go(n, 0);
        }
      case Err(_) =>
    }
    if stall + 1 > MAX_RETRIES {
      return Stop(Err(ForceRetryable(cause)));
    }
    return Go(offset, stall + 1);
  }

  /** A turn that does not end the session moves the offset on, no further than what is committed, or
      counts one more failure. */
  lemma MovesOn(size: nat, chunkSize: nat, offset: nat, stall: nat, t: Turn, committed: nat)
    requires offset < size && chunkSize > 0 && offset <= committed
    requires Committed(t.reply) ==> Min(offset + chunkSize, size) <= committed
    requires t.status.Progress? ==> CommittedBytes(t.status.range) <= committed
    ensures match AfterTurn(size, chunkSize, offset, stall, t)
            case Go(to, failures) =>
              && to <= committed
              && ((to > offset && failures == 0) || (to == offset && failures == stall + 1 <= MAX_RETRIES))
            case Stop(result) => result != Ok(Done)
  {
  }

  lemma BigEnoughNext(sent: seq<Sent>, from: nat, file: Bytes, configured: nat, minChunk: Option<nat>, offset: nat)
    requires configured > 0 && offset < |file| && BigEnough(sent, from, |file|, minChunk)
    ensures var chunkSize := PatchChunkSize(configured, minChunk, |file|);
            BigEnough(sent + [Sent(offset, file[offset..Min(offset + chunkSize, |file|)])], from, |file|, minChunk)
  {
  }

  /** The loop between two turns: the offset is committed, and no more than four PATCHes a byte were
      sent, each big enough. `from` is where this loop's PATCHes begin. */
  ghost predicate Underway(session: UploadSession, from: nat, file: Bytes, chunkSize: nat, minChunk: Option<nat>,
                           offset: nat, stall: nat, turns: seq<Turn>, held: seq<nat>)
    reads session
  {
    && Tracks(session, file, chunkSize, turns, held) && offset <= |session.content|
    && Client(|file|, chunkSize, turns) == Some(Go(offset, stall))
    && stall <= MAX_RETRIES && |turns| <= 4 * offset + stall && (stall > 0 ==> offset < |file|)
    && Sends(session, from, file, minChunk, turns)
  }

  ghost predicate Sends(session: UploadSession, from: nat, file: Bytes, minChunk: Option<nat>, turns: seq<Turn>)
    reads session
  {
    |session.sent| == from + |turns| && BigEnough(session.sent, from, |file|, minChunk)
  }

  lemma NoTurns(session: UploadSession, file: Bytes, chunkSize: nat, minChunk: Option<nat>)
    requires session.Faithful(file) && session.reach == 0
    ensures Underway(session, |session.sent|, file, chunkSize, minChunk, 0, 0, [], [])
  {
  }

  lemma UnderwayBounds(session: UploadSession, from: nat, file: Bytes, chunkSize: nat, minChunk: Option<nat>,
                       offset: nat, stall: nat, turns: seq<Turn>, held: seq<nat>)
    requires Underway(session, from, file, chunkSize, minChunk, offset, stall, turns, held)
    ensures Tracks(session, file, chunkSize, turns, held) && Sends(session, from, file, minChunk, turns)
    ensures offset <= |file| && stall <= MAX_RETRIES
    ensures |turns| <= 4 * offset + stall && (stall > 0 ==> offset < |file|)
    ensures offset == |file| ==> session.content == file
  {
  }

  /** One turn: the session goes on with a further offset or one more failure, or ends. */
  method OneTurn(session: UploadSession, ghost from: nat, file: Bytes, chunkSize: nat, ghost configured: nat,
                 ghost minChunk: Option<nat>, offset: nat, stall: nat, ghost turns: seq<Turn>, ghost held: seq<nat>)
    returns (next: Next, ghost t: Turn, ghost n: nat)
    requires configured > 0 && chunkSize == PatchChunkSize(configured, minChunk, |file|)
    requires Underway(session, from, file, chunkSize, minChunk, offset, stall, turns, held)
    requires offset < |file| <= U64_MAX
    modifies session`content, session`sent, session`late, session`reach
    ensures match next
            case Go(to, failures) =>
              && Underway(session, from, file, chunkSize, minChunk, to, failures, turns + [t], held + [n])
              && ((to > offset && failures == 0) || (to == offset && failures == stall + 1 <= MAX_RETRIES))
            case Stop(r) =>
              && Tracks(session, file, chunkSize, turns + [t], held + [n])
              && Sends(session, from, file, minChunk, turns + [t])
              && r != Ok(Done) && Client(|file|, chunkSize, turns + [t]) == Some(Stop(r))
  {
    hide Tracks, Client, CommittedBytes, BigEnough, PatchChunkSize, AfterTurn;
    UnderwayBounds(session, from, file, chunkSize, minChunk, offset, stall, turns, held);
    BigEnoughNext(session.sent, from, file, configured, minChunk, offset);
    var turn;
    turn, n := TakeTurn(session, file, chunkSize, turns, held, offset, stall);
    t := turn;
    next := Classify(|file|, chunkSize, offset, stall, turn);
    MovesOn(|file|, chunkSize, offset, stall, turn, |session.content|);
  }

  /** The PATCH loop of one session. The client's offset never passes what is committed, so
      `Done` means that the session holds exactly the file; it sends at most four PATCHes a byte,
      and stops after four failures in a row without progress. What it does is decided by the
      answers alone. */
  method ChunkedPatchUpload(session: UploadSession, file: Bytes, configured: nat, minChunk: Option<nat>)
    returns (r: Result<PatchOutcome, CoreError>, patches: nat, ghost turns: seq<Turn>, ghost held: seq<nat>)
    requires configured > 0 && |file| <= U64_MAX && session.Faithful(file) && session.reach == 0
    modifies session`content, session`sent, session`late, session`reach
    ensures Tracks(session, file, PatchChunkSize(configured, minChunk, |file|), turns, held)
    ensures r == Ok(Done) ==> session.content == file
    ensures patches <= 4 * |file| && |session.sent| == |old(session.sent)| + patches && |turns| == patches
    ensures BigEnough(session.sent, |old(session.sent)|, |file|, minChunk)
    ensures r == Ok(Done) || r == Err(Io) ||
            Client(|file|, PatchChunkSize(configured, minChunk, |file|), turns) == Some(Stop(r))
  {
    hide Underway, Tracks, Client, BigEnough, PatchChunkSize;
    ghost var from := |session.sent|;
    var chunkSize := PatchChunkSize(configured, minChunk, |file|);
    var offset: nat, stall: nat := 0, 0;
    patches, turns, held := 0, [], [];
    NoTurns(session, file, chunkSize, minChunk);
    UnderwayBounds(session, from, file, chunkSize, minChunk, offset, stall, turns, held);
    while offset < |file|
      invariant Underway(session, from, file, chunkSize, minChunk, offset, stall, turns, held)
      invariant offset <= |file| && stall <= MAX_RETRIES && |turns| == patches
      decreases |file| - offset, MAX_RETRIES - stall
    {
      UnderwayBounds(session, from, file, chunkSize, minChunk, offset, stall, turns, held);
      var readable: bool := *;
      if !readable {
        return Err(Io), patches, turns, held;
      }
      var next;
      ghost var t, n;
      next, t, n := OneTurn(session, from, file, chunkSize, configured, minChunk, offset, stall, turns, held);
      patches, turns, held := patches + 1, turns + [t], held + [n];
      match next {
        case Stop(result) => return result, patches, turns, held;
        case Go(to, failures) => offset, stall := to, failures;
      }
      UnderwayBounds(session, from, file, chunkSize, minChunk, offset, stall, turns, held);
    }
    UnderwayBounds(session, from, file, chunkSize, minChunk, offset, stall, turns, held);
    return Ok(Done), patches, turns, held;
  }

  /** On the way to a refusal at offset 0 nothing was acknowledged, so the offset never moved. */
  lemma {:induction false} OffsetGrows(size: nat, chunkSize: nat, turns: seq<Turn>, k: nat)
    requires chunkSize > 0 && k < |turns|
    requires Client(size, chunkSize, turns).Some?
    ensures Client(size, chunkSize, turns[..k]).Some? && Client(size, chunkSize, turns[..k]).value.Go?
    ensures Client(size, chunkSize, turns[..k]).value.offset < size
    ensures Client(size, chunkSize, turns).value.Go? ==>
              Client(size, chunkSize, turns[..k]).value.offset <= Client(size, chunkSize, turns).value.offset
    ensures Client(size, chunkSize, turns) == Some(Stop(Ok(Unsupported))) ==>
              Client(size, chunkSize, turns[..k]).value.offset == 0
  {
    var init := turns[..|turns| - 1];
    if k < |init| {
      OffsetGrows(size, chunkSize, init, k);
      assert init[..k] == turns[..k];
    }
  }

  /** Every earlier turn of a fall-back was a failure that committed nothing as far as the client
      could tell. */
  lemma EarlierTurns(size: nat, chunkSize: nat, turns: seq<Turn>, k: nat)
    requires chunkSize > 0 && k + 1 < |turns| && Client(size, chunkSize, turns) == Some(Stop(Ok(Unsupported)))
    ensures !Committed(turns[k].reply) && !Refusal(turns[k].reply)
    ensures turns[k].status.Progress? ==> CommittedBytes(turns[k].status.range) == 0
  {
    OffsetGrows(size, chunkSize, turns, k);
    OffsetGrows(size, chunkSize, turns, k + 1);
    assert turns[..k + 1][..k] == turns[..k];
  }

  lemma OneReadsAsNone()
    ensures RangeHeader(0) == RangeHeader(1) == "0-0"
  {
    assert Decimal(0) == "0";
    assert "0-" + "0" == "0-0";
  }

  /** A status that reads as nothing is also what a session with one byte may report. */
  lemma NothingOrOne(range: Option<string>, n: nat)
    requires Truthful(range, n) && n <= U64_MAX && CommittedBytes(range) == 0
    ensures Truthful(range, 1)
  {
    OneReadsAsNone();
    CommittedExact(n);
  }

  /** The last turn of a fall-back is the refusal. */
  lemma LastIsRefusal(size: nat, chunkSize: nat, turns: seq<Turn>)
    requires Client(size, chunkSize, turns) == Some(Stop(Ok(Unsupported)))
    ensures turns != [] && Refusal(turns[|turns| - 1].reply)
  {
  }

  lemma {:induction false} ReachPositive(clean: bool, size: nat, chunkSize: nat, turns: seq<Turn>)
    requires size > 0 && chunkSize > 0 && turns != []
    requires clean ==> !Refusal(turns[0].reply)
    ensures Reach(clean, size, chunkSize, turns) >= 1
  {
    var init := turns[..|turns| - 1];
    if init == [] {
      assert Client(size, chunkSize, init) == Some(Go(0, 0));
    } else {
      ReachPositive(clean, size, chunkSize, init);
    }
  }

  /** A first byte can have landed by any turn. */
  lemma ReachesOne(clean: bool, size: nat, chunkSize: nat, turns: seq<Turn>, k: nat)
    requires size > 0 && chunkSize > 0 && k < |turns|
    requires Client(size, chunkSize, turns) == Some(Stop(Ok(Unsupported))) && !(clean && |turns| == 1)
    ensures Reach(clean, size, chunkSize, turns[..k + 1]) >= 1
  {
    if |turns| > 1 {
      EarlierTurns(size, chunkSize, turns, 0);
    }
    ReachPositive(clean, size, chunkSize, turns[..k + 1]);
  }

  /** If a registry can answer an earlier turn as it did, it can do so holding one byte. */
  lemma OneByteBefore(clean: bool, size: nat, chunkSize: nat, turns: seq<Turn>, n: nat, before: nat, k: nat)
    requires 0 < size <= U64_MAX && chunkSize > 0 && k + 1 < |turns|
    requires Client(size, chunkSize, turns) == Some(Stop(Ok(Unsupported)))
    requires MayHold(clean, size, chunkSize, turns[..k + 1], before, n)
    ensures MayHold(clean, size, chunkSize, turns[..k + 1], 0, 1) && MayHold(clean, size, chunkSize, turns[..k + 1], 1, 1)
  {
    EarlierTurns(size, chunkSize, turns, k);
    ReachesOne(clean, size, chunkSize, turns, k);
    ReachFits(clean, size, chunkSize, turns[..k + 1]);
    hide Reach, Client, CommittedBytes, Truthful;
    if turns[k].status.Progress? {
      NothingOrOne(turns[k].status.range, n);
    }
  }

  /** And it can refuse while holding a byte. */
  lemma OneByteAtEnd(clean: bool, size: nat, chunkSize: nat, turns: seq<Turn>, n: nat, before: nat)
    requires 0 < size && chunkSize > 0 && turns != []
    requires Client(size, chunkSize, turns) == Some(Stop(Ok(Unsupported))) && !(clean && |turns| == 1)
    requires MayHold(clean, size, chunkSize, turns, before, n)
    ensures MayHold(clean, size, chunkSize, turns, 0, Max(1, n)) && MayHold(clean, size, chunkSize, turns, 1, Max(1, n))
  {
    ReachesOne(clean, size, chunkSize, turns, |turns| - 1);
    assert turns[..|turns|] == turns;
    LastIsRefusal(size, chunkSize, turns);
    OneReadsAsNone();
    hide Reach, Client;
  }

  lemma {:induction false} ReachFits(clean: bool, size: nat, chunkSize: nat, turns: seq<Turn>)
    ensures Reach(clean, size, chunkSize, turns) <= size
  {
    if turns != [] {
      ReachFits(clean, size, chunkSize, turns[..|turns| - 1]);
    }
  }

  /** When a fall-back is safe. The monolithic PUT goes to the same session, so its body is appended to
      what the session holds. Whatever the answers were that made the client fall back: they rule out
      that the session holds anything exactly when the refusal answered the very first PATCH and
      refusals can be relied on to commit nothing. An offset of 0 does not say so. */
  lemma FallBackIsSafe(clean: bool, size: nat, chunkSize: nat, turns: seq<Turn>)
    requires 0 < size <= U64_MAX && chunkSize > 0
    requires Client(size, chunkSize, turns) == Some(Stop(Ok(Unsupported)))
    requires exists held :: Possible(clean, size, chunkSize, turns, held)
    ensures (forall held :: Possible(clean, size, chunkSize, turns, held) ==> Last(held) == 0)
            <==> clean && |turns| == 1
  {
    hide Possible, MayHold, Client;
    LastIsRefusal(size, chunkSize, turns);
    if clean && |turns| == 1 {
      forall held | Possible(clean, size, chunkSize, turns, held)
        ensures Last(held) == 0
      {
        FirstRefusalHolds(size, chunkSize, turns, held);
      }
    } else {
      var some :| Possible(clean, size, chunkSize, turns, some);
      SomeByteHeld(clean, size, chunkSize, turns, some);
    }
  }

  lemma FirstRefusalHolds(size: nat, chunkSize: nat, turns: seq<Turn>, held: seq<nat>)
    requires |turns| == 1 && Refusal(turns[0].reply) && Possible(true, size, chunkSize, turns, held)
    ensures Last(held) == 0
  {
    assert turns[..0] == [] && turns[..1] == turns && Reach(true, size, chunkSize, []) == 0;
    assert MayHoldAt(true, size, chunkSize, turns, held, 0);
  }

  lemma SomeByteHeld(clean: bool, size: nat, chunkSize: nat, turns: seq<Turn>, some: seq<nat>)
    requires 0 < size <= U64_MAX && chunkSize > 0 && turns != []
    requires Client(size, chunkSize, turns) == Some(Stop(Ok(Unsupported))) && !(clean && |turns| == 1)
    requires Possible(clean, size, chunkSize, turns, some)
    ensures exists held :: Possible(clean, size, chunkSize, turns, held) && Last(held) != 0
  {
    hide MayHold, Client;
    var n := |turns| - 1;
    var held := seq(n, _ => 1) + [Max(1, some[n])];
    forall k | 0 <= k < |turns|
      ensures MayHoldAt(clean, size, chunkSize, turns, held, k)
    {
      assert MayHoldAt(clean, size, chunkSize, turns, some, k);
      if k < n {
        OneByteBefore(clean, size, chunkSize, turns, some[k], Last(some[..k]), k);
      } else {
        assert turns[..k + 1] == turns;
        OneByteAtEnd(clean, size, chunkSize, turns, some[k], Last(some[..k]));
      }
    }
    assert Possible(clean, size, chunkSize, turns, held) && Last(held) != 0;
  }

  /** The first PATCH lands one byte and its response is lost; the status truthfully reports the byte,
      which reads as none. */
  lemma OneByteLost(size: nat, chunkSize: nat, clean: bool, lost: CoreError)
    requires 0 < size <= U64_MAX && chunkSize > 0
    ensures var t := Turn(PatchLost(lost), Progress(Some(RangeHeader(1))));
            && Client(size, chunkSize, [t]) == Some(Go(0, 1))
            && Possible(clean, size, chunkSize, [t], [1]) && Reach(clean, size, chunkSize, [t]) >= 1
  {
    var t := Turn(PatchLost(lost), Progress(Some(RangeHeader(1))));
    CommittedExact(1);
    hide RangeHeader, CommittedBytes, ForceRetryable, Possible;
    assert [] + [t] == [t] && [] + [1] == [1];
    assert Possible(clean, size, chunkSize, [], []) by {
      NoneHeld(clean, size, chunkSize);
    }
    TurnsSnoc(clean, size, chunkSize, [], 0, 0, t);
    PossibleSnoc(clean, size, chunkSize, [], [], t, 1);
  }

  lemma NoneHeld(clean: bool, size: nat, chunkSize: nat)
    ensures Possible(clean, size, chunkSize, [], [])
  {
  }

  lemma RefusedNext(size: nat, chunkSize: nat, clean: bool, turns: seq<Turn>, held: seq<nat>, stall: nat)
    requires Client(size, chunkSize, turns) == Some(Go(0, stall)) && 0 < size && Last(held) == 1
    requires Possible(clean, size, chunkSize, turns, held) && Reach(clean, size, chunkSize, turns) >= 1
    ensures var u := Turn(PatchAnswer(405, false), StatusLost(Io));
            && Client(size, chunkSize, turns + [u]) == Some(Stop(Ok(Unsupported)))
            && Possible(clean, size, chunkSize, turns + [u], held + [1])
  {
    hide Possible, Client, Reach, Truthful;
    var u := Turn(PatchAnswer(405, false), StatusLost(Io));
    TurnsSnoc(clean, size, chunkSize, turns, 0, stall, u);
    PossibleSnoc(clean, size, chunkSize, turns, held, u, 1);
  }

  /** An input on which the blob comes out wrong: the first PATCH lands one byte and its response is
      lost, the status truthfully reports that byte, which reads as none, and the second PATCH is
      refused. Every one of these answers is a registry's own, and the PUT stores one byte too many. */
  lemma FallBackAppends(file: Bytes, chunkSize: nat, clean: bool, lost: CoreError)
    requires 0 < |file| <= U64_MAX && chunkSize > 0
    ensures var turns := [Turn(PatchLost(lost), Progress(Some(RangeHeader(1))))]
                         + [Turn(PatchAnswer(405, false), StatusLost(Io))];
            && Client(|file|, chunkSize, turns) == Some(Stop(Ok(Unsupported)))
            && Possible(clean, |file|, chunkSize, turns, [1] + [1])
            && WriteAt([], 0, file[..1]) + file != file
  {
    hide Possible, Client, Reach, RangeHeader;
    OneByteLost(|file|, chunkSize, clean, lost);
    RefusedNext(|file|, chunkSize, clean, [Turn(PatchLost(lost), Progress(Some(RangeHeader(1))))], [1], 1);
    assert |WriteAt([], 0, file[..1]) + file| == |file| + 1;
  }

  /** What a PUT after some first part of a file stores is the file exactly when that part is empty. */
  lemma AppendsNothing(held: Bytes, file: Bytes)
    ensures held + file == file <==> held == []
  {
    if held == [] {
      assert held + file == file;
    } else {
      assert |held + file| > |file|;
    }
  }

  /** The closing loop. `ends` are the answers to the closing PUTs. A last 404 is forced retryable, as
      a fresh session can still succeed; any other last answer is the result. */
  method CloseChunkedUpload(session: UploadSession, file: Bytes, digest: Digest)
    returns (r: Option<CoreError>, attempts: nat, slept: nat, ghost ends: seq<Option<CoreError>>)
    requires session.Faithful(file) && session.content == file
    modifies session`content, session`stored
    ensures r.None? ==> session.stored == Some(file)
    ensures RetriedRightly(ends, MAX_RETRIES) && |ends| == attempts && slept < 1_400_000_000
    ensures var last := ends[|ends| - 1];
            r == if last == Some(ServerError(404)) then Some(SessionRestart(ServerError(404))) else last
  {
    ghost var draws: seq<nat> := [];
    attempts, slept, ends := 0, 0, [];
    while true
      invariant session.Faithful(file) && session.content == file
      invariant |draws| == attempts <= MAX_RETRIES && slept == TotalBackoff(draws)
      invariant |ends| == attempts && forall k :: 0 <= k < |ends| ==> ends[k].Some? && IsRetryable(ends[k].value)
      decreases MAX_RETRIES - attempts
    {
      r := session.Put([], digest, file);
      assert session.content == file && file + [] == file;
      BackoffBudget(draws);
      attempts, ends := attempts + 1, ends + [r];
      if r.None? {
        return;
      }
      if !IsRetryable(r.value) || attempts > MAX_RETRIES {
        if r.value == ServerError(404) {
          r := Some(ForceRetryable(r.value));
        }
        return;
      }
      var entropy: nat := *;
      slept := slept + JitteredBackoff(attempts, entropy);
      assert (draws + [entropy])[..|draws|] == draws;
      draws := draws + [entropy];
    }
  }

  /** What a successful attempt has stored: the file, after whatever the session held when the client
      fell back to the monolithic PUT. */
  predicate StoredAfter(held: Bytes, file: Bytes, stored: Option<Bytes>) {
    held <= file && stored == Some(held + file)
  }

  /** One attempt, in a session of its own. `held` is what the session held when it fell back, and
      `expired` tells that its closing PUT was answered 404. */
  method TryUploadBlobOnce(file: Bytes, configured: nat, promises: Promises)
    returns (r: Option<CoreError>, stored: Option<Bytes>, patches: nat, fellBack: bool, held: Bytes,
             ghost expired: bool)
    requires configured > 0 && |file| <= U64_MAX
    ensures r.None? ==> StoredAfter(held, file, stored) && (stored == Some(file) <==> held == [])
    ensures (!fellBack || (promises.cleanRefusals && patches == 1)) ==> held == []
    ensures r.None? && promises.checksDigest ==> stored == Some(file)
    ensures patches <= 4 * |file|
    ensures expired ==> r == Some(SessionRestart(ServerError(404)))
  {
    stored, patches, fellBack, held, expired := None, 0, false, [], false;
    r := *;
    if r.Some? {
      return;
    }
    var session := new UploadSession(promises);
    var minChunk: Option<nat> := *;
    var outcome;
    ghost var turns, trace;
    outcome, patches, turns, trace := ChunkedPatchUpload(session, file, configured, minChunk);
    match outcome {
      case Err(e) =>
        r := Some(e);
      case Ok(Done) =>
        var attempts, slept;
        ghost var ends;
        r, attempts, slept, ends := CloseChunkedUpload(session, file, Sha256(file));
        expired := ends[|ends| - 1] == Some(ServerError(404));
        assert [] + file == file;
      case Ok(Unsupported) =>
        fellBack := true;
        FirstRefusal(session.promises.cleanRefusals, |file|, PatchChunkSize(configured, minChunk, |file|), turns);
        r := session.Put(file, Sha256(file), file);
        held := session.content;
        AppendsNothing(held, file);
        if r.None? && promises.checksDigest {
          Sha256Injective(held + file, file);
        }
    }
    stored := session.stored;
  }

  /** A session whose only PATCH was refused can hold nothing. */
  lemma FirstRefusal(clean: bool, size: nat, chunkSize: nat, turns: seq<Turn>)
    requires Client(size, chunkSize, turns) == Some(Stop(Ok(Unsupported)))
    ensures clean && |turns| == 1 ==> Reach(clean, size, chunkSize, turns) == 0
  {
    LastIsRefusal(size, chunkSize, turns);
    assert turns[..0] == [] && Reach(clean, size, chunkSize, []) == 0;
  }

  /** The whole upload: at most four sessions, `patches` telling how many PATCHes each one sent.
      Success means that the registry stores the file, except after a fall-back onto a session that
      already held some of it: then that part comes first. It did not if the registry checks the
      digest, or if the refusal answered the session's first PATCH and committed nothing. A session
      that had expired by its closing PUT is followed by another, unless it was the fourth. */
  method UploadBlob(file: Bytes, configured: nat, promises: Promises)
    returns (r: Option<CoreError>, stored: Option<Bytes>, patches: seq<nat>, slept: nat, fellBack: bool, held: Bytes,
             ghost ends: seq<Option<CoreError>>, ghost expired: seq<bool>)
    requires configured > 0 && |file| <= U64_MAX
    ensures forall k :: 0 <= k < |patches| ==> patches[k] <= 4 * |file|
    ensures RetriedRightly(ends, MAX_RETRIES) && |ends| == |patches| == |expired| && ends[|ends| - 1] == r
    ensures r.None? ==> StoredAfter(held, file, stored) && (stored == Some(file) <==> held == [])
    ensures (!fellBack || (promises.cleanRefusals && patches[|patches| - 1] == 1)) ==> held == []
    ensures r.None? && promises.checksDigest ==> stored == Some(file)
    ensures forall k :: 0 <= k < |expired| && expired[k] ==> k + 1 < |patches| || |patches| == MAX_RETRIES + 1
    ensures slept < 1_400_000_000
  {
    ghost var draws: seq<nat> := [];
    patches, slept, ends, expired := [], 0, [], [];
    while true
      invariant |draws| == |patches| <= MAX_RETRIES && slept == TotalBackoff(draws)
      invariant forall k :: 0 <= k < |patches| ==> patches[k] <= 4 * |file|
      invariant |ends| == |patches| == |expired|
      invariant forall k :: 0 <= k < |ends| ==> ends[k].Some? && IsRetryable(ends[k].value)
      decreases MAX_RETRIES - |patches|
    {
      var more;
      ghost var gone;
      r, stored, more, fellBack, held, gone := TryUploadBlobOnce(file, configured, promises);
      BackoffBudget(draws);
      patches, ends, expired := patches + [more], ends + [r], expired + [gone];
      if r.None? {
        return;
      }
      if !IsRetryable(r.value) || |patches| > MAX_RETRIES {
        return;
      }
      var entropy: nat := *;
      slept := slept + JitteredBackoff(|patches|, entropy);
      assert (draws + [entropy])[..|draws|] == draws;
      draws := draws + [entropy];
    }
  }
}
