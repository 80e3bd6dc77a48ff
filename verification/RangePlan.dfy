/** Chunk tiling and response checks of the Range downloader (src/chunked_downloader/plan.rs).
    Sums and products of file positions wrap at 64 bits, as the release build computes them. */
module RangePlan {
  import opened Basics
  import opened Text
  import opened Retry

  const U64_SPAN: nat := 0x1_0000_0000_0000_0000

  function NumChunks(contentLength: nat, chunkSize: nat): nat {
    if contentLength == 0 || chunkSize == 0 then
      0
    else
      contentLength / chunkSize + (if contentLength % chunkSize > 0 then 1 else 0)
  }

  /** The inclusive byte range of chunk `i`. */
  function ChunkBounds(contentLength: nat, chunkSize: nat, i: nat): (nat, nat) {
    var start := i * chunkSize % U64_SPAN;
    (start, Min((start + chunkSize - 1) % U64_SPAN, (contentLength - 1) % U64_SPAN))
  }

  /** The range that chunk `i` is meant to have. */
  function TrueBounds(contentLength: nat, chunkSize: nat, i: nat): (int, int) {
    (i * chunkSize, Min((i + 1) * chunkSize, contentLength) - 1)
  }

  lemma MulMonotone(a: nat, b: nat, c: nat)
    requires a <= b
    ensures a * c <= b * c
  {
  }

  lemma MulNext(i: nat, c: nat)
    ensures (i + 1) * c == i * c + c
  {
  }

  /** The number of chunks is the least that covers the file. */
  lemma NumChunksCovers(contentLength: nat, chunkSize: nat)
    requires contentLength > 0 && chunkSize > 0
    ensures var n := NumChunks(contentLength, chunkSize);
            && n > 0
            && (n - 1) * chunkSize < contentLength <= n * chunkSize < contentLength + chunkSize
  {
    var q, r := contentLength / chunkSize, contentLength % chunkSize;
    assert contentLength == q * chunkSize + r;
    MulNext(q, chunkSize);
    if q > 0 {
      MulNext(q - 1, chunkSize);
    }
  }

  lemma ChunkStarts(contentLength: nat, chunkSize: nat, i: nat)
    requires contentLength > 0 && chunkSize > 0 && i < NumChunks(contentLength, chunkSize)
    ensures i * chunkSize < contentLength
    ensures i + 1 < NumChunks(contentLength, chunkSize) ==> i * chunkSize + chunkSize < contentLength
    ensures i + 1 == NumChunks(contentLength, chunkSize) ==> contentLength <= i * chunkSize + chunkSize
  {
    var n := NumChunks(contentLength, chunkSize);
    NumChunksCovers(contentLength, chunkSize);
    MulMonotone(i, n - 1, chunkSize);
    MulNext(i, chunkSize);
    if i + 1 < n {
      MulMonotone(i + 1, n - 1, chunkSize);
    }
  }

  /** The bounds are right as long as no chunk's end wraps. */
  lemma BoundsExact(contentLength: nat, chunkSize: nat, i: nat)
    requires 0 < contentLength <= U64_MAX && 0 < chunkSize <= U64_MAX && i < NumChunks(contentLength, chunkSize)
    ensures i * chunkSize + chunkSize <= U64_SPAN ==>
              ChunkBounds(contentLength, chunkSize, i) == TrueBounds(contentLength, chunkSize, i)
    ensures i * chunkSize + chunkSize > U64_SPAN ==>
              ChunkBounds(contentLength, chunkSize, i) != TrueBounds(contentLength, chunkSize, i)
  {
    ChunkStarts(contentLength, chunkSize, i);
    MulNext(i, chunkSize);
    var start := i * chunkSize;
    assert start % U64_SPAN == start && (contentLength - 1) % U64_SPAN == contentLength - 1;
    if start + chunkSize > U64_SPAN {
      assert (start + chunkSize - 1) % U64_SPAN == start + chunkSize - 1 - U64_SPAN;
    } else {
      assert (start + chunkSize - 1) % U64_SPAN == start + chunkSize - 1;
    }
  }

  /** When the tiling is right. Every chunk of a non-empty file has its true bounds exactly when
      the chunks together do not reach past 2^64. */
  lemma TilingExact(contentLength: nat, chunkSize: nat)
    requires 0 < contentLength <= U64_MAX && 0 < chunkSize <= U64_MAX
    ensures (forall i :: 0 <= i < NumChunks(contentLength, chunkSize) ==>
              ChunkBounds(contentLength, chunkSize, i) == TrueBounds(contentLength, chunkSize, i))
            <==> NumChunks(contentLength, chunkSize) * chunkSize <= U64_SPAN
  {
    var n := NumChunks(contentLength, chunkSize);
    NumChunksCovers(contentLength, chunkSize);
    MulNext(n - 1, chunkSize);
    BoundsExact(contentLength, chunkSize, n - 1);
    forall i | 0 <= i < n && n * chunkSize <= U64_SPAN
      ensures ChunkBounds(contentLength, chunkSize, i) == TrueBounds(contentLength, chunkSize, i)
    {
      MulNext(i, chunkSize);
      MulMonotone(i + 1, n, chunkSize);
      BoundsExact(contentLength, chunkSize, i);
    }
  }

  /** A check that a caller can make without counting chunks. */
  lemma SumFitsSuffices(contentLength: nat, chunkSize: nat)
    requires 0 < contentLength && 0 < chunkSize && contentLength + chunkSize <= U64_MAX
    ensures NumChunks(contentLength, chunkSize) * chunkSize <= U64_SPAN
  {
    NumChunksCovers(contentLength, chunkSize);
  }

  function StripPrefix(s: string, prefix: string): Option<string> {
    if prefix <= s then Some(s[|prefix|..]) else None
  }

  function ParseContentRange(value: string): Option<(nat, nat)> {
    match StripPrefix(Trim(value), BYTES_UNIT)
    case None => None
    case Some(rest) => BoundsIn(FirstPiece(rest, '/'))
  }

  /** The two numbers around the first dash. */
  function BoundsIn(range: string): Option<(nat, nat)> {
    match SplitOnce(range, '-')
    case None => None
    case Some((start, end)) =>
      match (ParseU64(Trim(start)), ParseU64(Trim(end)))
      case (Some(a), Some(b)) => Some((a, b))
      case _ => None
  }

  function RequireContentRangeMatches(raw: Option<string>, start: nat, end: nat): Option<CoreError> {
    if raw.Some? && ParseContentRange(raw.value) == Some((start, end)) then None else Some(BadResponse)
  }

  function RequireAcceptableStatus(status: nat, start: nat, end: nat, contentLength: nat): Option<CoreError> {
    if status == 206 then None
    else if status == 200 && start == 0 && contentLength > 0 && end == contentLength - 1 then None
    else Some(ServerError(status))
  }

  /** Which responses are taken for the range, on their statuses: a 206 always, a 200 only when the
      range is the whole of a non-empty object, and nothing else. */
  lemma StatusTable(status: nat, start: nat, end: nat, contentLength: nat)
    ensures RequireAcceptableStatus(status, start, end, contentLength) == None <==>
            status == 206 || (status == 200 && start == 0 && end + 1 == contentLength)
    ensures RequireAcceptableStatus(status, start, end, contentLength).Some? ==>
              RequireAcceptableStatus(status, start, end, contentLength) == Some(ServerError(status))
  {
  }

  /** Trimming leaves a head that neither begins nor ends with a space alone. */
  lemma {:induction false} TrimKeepsHead(head: string, rest: string) returns (tail: string)
    requires head != "" && !IsSpace(head[0]) && !IsSpace(head[|head| - 1])
    ensures Trim(head + rest) == head + tail && tail <= rest
  {
    var s := head + rest;
    assert s[0] == head[0];
    if rest == "" {
      assert s == head && head + "" == head;
      tail := "";
    } else if IsSpace(rest[|rest| - 1]) {
      assert s[|s| - 1] == rest[|rest| - 1] && s[..|s| - 1] == head + rest[..|rest| - 1];
      tail := TrimKeepsHead(head, rest[..|rest| - 1]);
    } else {
      assert s[|s| - 1] == rest[|rest| - 1];
      tail := rest;
    }
  }

  lemma TrimDigits(s: string)
    requires AllDigits(s)
    ensures Trim(s) == s && '-' !in s && '/' !in s
  {
  }

  lemma Strip(prefix: string, rest: string)
    ensures StripPrefix(prefix + rest, prefix) == Some(rest)
  {
    assert prefix <= prefix + rest && (prefix + rest)[|prefix|..] == rest;
  }

  const BYTES_UNIT := "bytes "

  function RangeText(start: nat, end: nat): string {
    Decimal(start) + "-" + Decimal(end)
  }

  lemma NoSlash(start: nat, end: nat)
    ensures '/' !in RangeText(start, end)
    ensures RangeText(start, end) != "" && !IsSpace(RangeText(start, end)[|RangeText(start, end)| - 1])
  {
    TrimDigits(Decimal(start));
    TrimDigits(Decimal(end));
    assert IsDigit(Decimal(end)[|Decimal(end)| - 1]);
  }

  /** The bounds are read from whatever comes before the first slash. */
  lemma ParseBounds(value: string, rest: string, start: nat, end: nat)
    requires start <= U64_MAX && end <= U64_MAX
    requires Trim(value) == BYTES_UNIT + rest && FirstPiece(rest, '/') == RangeText(start, end)
    ensures ParseContentRange(value) == Some((start, end))
  {
    Strip(BYTES_UNIT, rest);
    TrimDigits(Decimal(start));
    TrimDigits(Decimal(end));
    ParseU64Decimal(start);
    ParseU64Decimal(end);
    SplitOnceAt(Decimal(start), '-', Decimal(end));
  }

  function ContentRange(start: nat, end: nat, total: string): string {
    BYTES_UNIT + RangeText(start, end) + "/" + total
  }

  /** A server that names its range is understood, whatever total it gives. */
  lemma ParseRenderedRange(start: nat, end: nat, total: string)
    requires start <= U64_MAX && end <= U64_MAX
    ensures ParseContentRange(ContentRange(start, end, total)) == Some((start, end))
  {
    var range := RangeText(start, end);
    var head := BYTES_UNIT + range + "/";
    assert head[0] == 'b' && head[|head| - 1] == '/';
    var tail := TrimKeepsHead(head, total);
    assert head + total == ContentRange(start, end, total);
    assert head + tail == BYTES_UNIT + (range + "/" + tail);
    NoSlash(start, end);
    SplitOnceAt(range, '/', tail);
    ParseBounds(ContentRange(start, end, total), range + "/" + tail, start, end);
  }

  /** So a response for any other range is refused, and one for this range is not. */
  lemma RangeMustMatch(a: nat, b: nat, total: string, start: nat, end: nat)
    requires a <= U64_MAX && b <= U64_MAX
    ensures RequireContentRangeMatches(Some(ContentRange(a, b, total)), start, end) == None <==> a == start && b == end
  {
    ParseRenderedRange(a, b, total);
  }

  lemma {:induction false} TrimSpace(s: string, c: char)
    requires IsSpace(c)
    ensures Trim(s + [c]) == Trim(s)
  {
    if s != "" && IsSpace(s[0]) {
      assert (s + [c])[1..] == s[1..] + [c];
      TrimSpace(s[1..], c);
    } else if s == "" {
      assert s + [c] == [c] && [c][1..] == "";
    } else {
      assert (s + [c])[..|s|] == s;
    }
  }

  /** A space after the bounds does not matter. */
  lemma BoundsSpace(range: string, c: char)
    requires IsSpace(c)
    ensures BoundsIn(range + [c]) == BoundsIn(range)
  {
    match SplitOnce(range, '-') {
      case None =>
        assert '-' !in range + [c];
      case Some((start, end)) =>
        assert range + [c] == start + ['-'] + (end + [c]);
        SplitOnceAt(start, '-', end + [c]);
        TrimSpace(end, c);
    }
  }

  lemma {:induction false} ParseUnsplit(rest: string)
    requires '/' !in rest
    ensures ParseContentRange(BYTES_UNIT + rest) == BoundsIn(rest)
  {
    var s := BYTES_UNIT + rest;
    assert s[0] == 'b';
    if rest == "" {
      assert s == "bytes " && s[|s| - 1] == ' ' && s[..|s| - 1] == "bytes" && Trim("bytes") == "bytes";
    } else if IsSpace(rest[|rest| - 1]) {
      var init := rest[..|rest| - 1];
      assert s[|s| - 1] == rest[|rest| - 1] && s[..|s| - 1] == BYTES_UNIT + init && init + [rest[|rest| - 1]] == rest;
      ParseUnsplit(init);
      BoundsSpace(init, rest[|rest| - 1]);
    } else {
      assert s[|s| - 1] == rest[|rest| - 1] && Trim(s) == s;
      Strip(BYTES_UNIT, rest);
    }
  }

  /** A text of another unit is no range. */
  lemma {:induction false} OtherUnit(s: string)
    requires s == "" || !IsSpace(s[0])
    requires !(BYTES_UNIT <= s)
    ensures ParseContentRange(s) == None
  {
    if s != "" && IsSpace(s[|s| - 1]) {
      OtherUnit(s[..|s| - 1]);
    }
  }

  lemma {:induction false} SlashIgnored(before: string, after: string)
    requires '/' !in before
    ensures ParseContentRange(before + "/" + after) == ParseContentRange(before)
  {
    var s := before + "/" + after;
    if before != "" && IsSpace(before[0]) {
      assert s[1..] == before[1..] + "/" + after;
      SlashIgnored(before[1..], after);
    } else if BYTES_UNIT <= before {
      var rest := before[|BYTES_UNIT|..];
      var head := before + "/";
      assert head[0] == before[0] && head[|head| - 1] == '/';
      var tail := TrimKeepsHead(head, after);
      assert before == BYTES_UNIT + rest && Trim(s) == BYTES_UNIT + (rest + "/" + tail);
      Strip(BYTES_UNIT, rest + "/" + tail);
      SplitOnceAt(rest, '/', tail);
      ParseUnsplit(rest);
    } else {
      OtherUnit(before);
      assert s[0] == (before + "/")[0] && s[|before|] == '/' && (|before| < |BYTES_UNIT| || s[..|before|] == before);
      OtherUnit(s);
    }
  }

  /** Only what stands before the first slash counts, in any header; so a total never changes what
      is read, and neither does leaving it out together with its slash. */
  lemma OnlyBeforeSlash(value: string)
    ensures ParseContentRange(value) == ParseContentRange(FirstPiece(value, '/'))
  {
    match SplitOnce(value, '/') {
      case None =>
      case Some((before, after)) =>
        assert value == before + "/" + after;
        SlashIgnored(before, after);
    }
  }

  /** So the slash before the total is not required: any header is accepted exactly when the part
      before its first slash is. */
  lemma MissingSlashAccepted(value: string, start: nat, end: nat)
    ensures RequireContentRangeMatches(Some(value), start, end)
            == RequireContentRangeMatches(Some(FirstPiece(value, '/')), start, end)
    ensures start <= U64_MAX && end <= U64_MAX ==>
              RequireContentRangeMatches(Some(BYTES_UNIT + RangeText(start, end)), start, end) == None
  {
    OnlyBeforeSlash(value);
    if start <= U64_MAX && end <= U64_MAX {
      var range := RangeText(start, end);
      NoSlash(start, end);
      ParseRenderedRange(start, end, "");
      SlashIgnored(BYTES_UNIT + range, "");
      assert ContentRange(start, end, "") == (BYTES_UNIT + range) + "/" + "";
    }
  }
}
