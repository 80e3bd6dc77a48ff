/** Text forms used on the wire: hexadecimal digests and decimal numbers. */
module Text {
  import opened Basics

  /** A content digest in its wire form. SHA-256 itself is not modelled: the digest
      carries the content, so distinct contents always have distinct digests. */
  type Digest = string

  const DIGEST_PREFIX := "sha256:"

  function Sha256(content: Bytes): Digest {
    DIGEST_PREFIX + Hex(content)
  }

  predicate IsHexDigit(c: char) {
    '0' <= c <= '9' || 'a' <= c <= 'f'
  }

  function HexChar(n: int): (c: char)
    requires 0 <= n < 16
    ensures IsHexDigit(c)
  {
    if n < 10 then ('0' as int + n) as char else ('a' as int + n - 10) as char
  }

  function Hex(bytes: Bytes): (s: string)
    ensures |s| == 2 * |bytes|
    ensures forall i :: 0 <= i < |s| ==> IsHexDigit(s[i])
  {
    if bytes == [] then
      ""
    else
      HexPair(bytes[0]) + Hex(bytes[1..])
  }

  function HexPair(b: byte): (s: string)
    ensures |s| == 2 && IsHexDigit(s[0]) && IsHexDigit(s[1])
  {
    [HexChar(b as int / 16), HexChar(b as int % 16)]
  }

  lemma HexPairInjective(a: byte, b: byte)
    requires HexPair(a) == HexPair(b)
    ensures a == b
  {
    assert HexPair(a)[0] == HexPair(b)[0] && HexPair(a)[1] == HexPair(b)[1];
  }

  lemma {:induction false} HexInjective(a: Bytes, b: Bytes)
    requires Hex(a) == Hex(b)
    ensures a == b
  {
    assert |Hex(a)| == 2 * |a| && |Hex(b)| == 2 * |b|;
    if a != [] {
      assert HexPair(a[0]) == Hex(a)[..2] == Hex(b)[..2] == HexPair(b[0]);
      HexPairInjective(a[0], b[0]);
      assert Hex(a[1..]) == Hex(a)[2..] == Hex(b)[2..] == Hex(b[1..]);
      HexInjective(a[1..], b[1..]);
      assert a == [a[0]] + a[1..] && b == [b[0]] + b[1..];
    }
  }

  /** Content addressing: a digest names one content. */
  lemma Sha256Injective(a: Bytes, b: Bytes)
    requires Sha256(a) == Sha256(b)
    ensures a == b
  {
    var n := |DIGEST_PREFIX|;
    assert Hex(a) == Sha256(a)[n..] == Sha256(b)[n..] == Hex(b);
    HexInjective(a, b);
  }

  lemma Sha256Distinct(a: Bytes, b: Bytes)
    requires a != b
    ensures Sha256(a) != Sha256(b)
  {
    if Sha256(a) == Sha256(b) {
      Sha256Injective(a, b);
    }
  }

  predicate IsDigit(c: char) {
    '0' <= c <= '9'
  }

  function DigitChar(n: int): (c: char)
    requires 0 <= n < 10
    ensures IsDigit(c) && c as int == '0' as int + n
  {
    ('0' as int + n) as char
  }

  predicate AllDigits(s: string) {
    forall i :: 0 <= i < |s| ==> IsDigit(s[i])
  }

  /** Decimal rendering of an unsigned integer. */
  function Decimal(n: nat): (s: string)
    ensures |s| > 0 && AllDigits(s)
    ensures s[0] == '0' ==> n == 0
    ensures n < 10 ==> |s| == 1
  {
    if n < 10 then
      [DigitChar(n)]
    else
      Decimal(n / 10) + [DigitChar(n % 10)]
  }

  function DigitsValue(s: string): nat
    requires AllDigits(s)
  {
    if s == "" then 0 else 10 * DigitsValue(s[..|s| - 1]) + (s[|s| - 1] as int - '0' as int)
  }

  lemma {:induction false} DecimalValue(n: nat)
    ensures DigitsValue(Decimal(n)) == n
  {
    var s := Decimal(n);
    if n < 10 {
      assert s[..0] == "";
      assert DigitsValue(s) == 10 * DigitsValue(s[..0]) + (s[0] as int - '0' as int);
    } else {
      assert s[..|s| - 1] == Decimal(n / 10);
      DecimalValue(n / 10);
    }
  }

  /** Reading an unsigned 64-bit number as Rust's `str::parse::<u64>` does: a
      non-empty run of digits, optionally signed `+`, rejected when it overflows. */
  function ParseU64(s: string): Option<nat> {
    var digits := if |s| > 0 && s[0] == '+' then s[1..] else s;
    if digits == "" || !AllDigits(digits) || DigitsValue(digits) > U64_MAX then
      None
    else
      Some(DigitsValue(digits))
  }

  lemma ParseU64Decimal(n: nat)
    ensures ParseU64(Decimal(n)) == if n <= U64_MAX then Some(n) else None
  {
    DecimalValue(n);
    assert IsDigit(Decimal(n)[0]);
  }

  predicate IsSpace(c: char) {
    c == ' ' || c == '\t' || c == '\n' || c == '\r'
  }

  /** `str::trim` on ASCII white space. */
  function Trim(s: string): string {
    if |s| > 0 && IsSpace(s[0]) then Trim(s[1..])
    else if |s| > 0 && IsSpace(s[|s| - 1]) then Trim(s[..|s| - 1])
    else s
  }

  /** The piece of `s` before the first `sep`, and whether `sep` occurs. */
  function SplitOnce(s: string, sep: char): (r: Option<(string, string)>)
    ensures r.Some? ==> s == r.value.0 + [sep] + r.value.1 && sep !in r.value.0
    ensures r.None? <==> sep !in s
  {
    if s == "" then
      None
    else if s[0] == sep then
      Some(("", s[1..]))
    else
      match SplitOnce(s[1..], sep)
      case None => None
      case Some((before, after)) =>
        assert s == [s[0]] + s[1..];
        Some(([s[0]] + before, after))
  }

  /** `split(sep).next()`: everything before the first `sep`, or all of `s`. */
  function FirstPiece(s: string, sep: char): string {
    match SplitOnce(s, sep)
    case None => s
    case Some((before, _)) => before
  }

  /** `rsplit(sep).next()`: everything after the last `sep`, or all of `s`. */
  function LastPiece(s: string, sep: char): (r: string)
    ensures sep !in r
    decreases |s|
  {
    match SplitOnce(s, sep)
    case None => s
    case Some((_, after)) => LastPiece(after, sep)
  }

  lemma {:induction false} SplitOnceAt(before: string, sep: char, after: string)
    requires sep !in before
    ensures SplitOnce(before + [sep] + after, sep) == Some((before, after))
  {
    var s := before + [sep] + after;
    if before == "" {
      assert s[1..] == after;
    } else {
      assert s[1..] == before[1..] + [sep] + after;
      SplitOnceAt(before[1..], sep, after);
      assert [s[0]] + before[1..] == before;
    }
  }

  lemma LastPieceAt(before: string, sep: char, after: string)
    requires sep !in before && sep !in after
    ensures LastPiece(before + [sep] + after, sep) == after
  {
    SplitOnceAt(before, sep, after);
  }
}
