/** Vocabulary shared by every module: bytes, results, and list algebra. */
module Basics {

  newtype byte = x: int | 0 <= x < 256

  type Bytes = seq<byte>

  const U64_MAX: nat := 0xFFFF_FFFF_FFFF_FFFF

  datatype Option<+T> = None | Some(value: T)

  datatype Result<+T, +E> = Ok(value: T) | Err(error: E)

  function Min(a: int, b: int): int {
    if a < b then a else b
  }

  function Max(a: int, b: int): int {
    if a < b then b else a
  }

  /** Concatenation of a list of lists, left to right. */
  function Concat<T>(ss: seq<seq<T>>): seq<T> {
    if ss == [] then [] else Concat(ss[..|ss| - 1]) + ss[|ss| - 1]
  }

  lemma Associative<T>(a: seq<T>, b: seq<T>, c: seq<T>)
    ensures (a + b) + c == a + (b + c)
  {
  }

  lemma ConcatSnoc<T>(ss: seq<seq<T>>, last: seq<T>)
    ensures Concat(ss + [last]) == Concat(ss) + last
  {
    assert (ss + [last])[..|ss|] == ss;
  }

  lemma {:induction false} ConcatAppend<T>(a: seq<seq<T>>, b: seq<seq<T>>)
    ensures Concat(a + b) == Concat(a) + Concat(b)
  {
    if b == [] {
      assert a + b == a;
    } else {
      var init := b[..|b| - 1];
      assert a + b == (a + init) + [b[|b| - 1]];
      ConcatSnoc(a + init, b[|b| - 1]);
      ConcatAppend(a, init);
    }
  }

  lemma ConcatCons<T>(first: seq<T>, rest: seq<seq<T>>)
    ensures Concat([first] + rest) == first + Concat(rest)
  {
    ConcatAppend([first], rest);
    ConcatSnoc([], first);
    assert [] + [first] == [first];
  }

  /** What `seek(at)` followed by `write_all(data)` leaves on disk: the bytes land at
      `at`, and a write past the end leaves a hole of zeros. Writing nothing changes
      nothing. */
  function WriteAt(file: Bytes, at: nat, data: Bytes): (r: Bytes)
    ensures data == [] ==> r == file
    ensures data != [] ==> |r| == Max(|file|, at + |data|)
    ensures forall p :: 0 <= p < |r| ==>
      r[p] == if at <= p < at + |data| then data[p - at] else if p < |file| then file[p] else 0
  {
    if data == [] then
      file
    else
      seq(Max(|file|, at + |data|), p requires 0 <= p < Max(|file|, at + |data|) =>
        if at <= p < at + |data| then data[p - at] else if p < |file| then file[p] else 0)
  }

  /** `set_len(n)` on a freshly truncated file. */
  function Zeros(n: nat): (r: Bytes)
    ensures |r| == n && forall p :: 0 <= p < n ==> r[p] == 0
  {
    seq(n, _ => 0)
  }
}
