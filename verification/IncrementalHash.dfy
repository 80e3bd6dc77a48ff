/** The incremental whole-file hasher (src/incremental_hash.rs): a reorder buffer with a
    watermark. The SHA-256 state is the sequence of bytes folded into it. */
module IncrementalHash {
  import opened Basics
  import opened Text

  /** A byte range that a finished unit of work wrote. */
  datatype Extent = Extent(start: nat, size: nat)

  /** `watermark` is the end of the region covered without a gap from offset 0; `folded`
      holds the bytes hashed so far, so its length is also the read position. */
  datatype Hasher = Hasher(pending: map<nat, nat>, watermark: nat, folded: Bytes)

  const START := Hasher(map[], 0, [])

  function Insert(pending: map<nat, nat>, extents: seq<Extent>): map<nat, nat> {
    if extents == [] then
      pending
    else
      var last := extents[|extents| - 1];
      Insert(pending, extents[..|extents| - 1])[last.start := last.size]
  }

  /** Consume the extents that start at the watermark, until none does. `None` when the
      64-bit sum overflows. */
  function Advance(pending: map<nat, nat>, watermark: nat): Option<(map<nat, nat>, nat)>
    decreases pending.Keys
  {
    if watermark !in pending then
      Some((pending, watermark))
    else if watermark + pending[watermark] > U64_MAX then
      None
    else
      Advance(pending - {watermark}, watermark + pending[watermark])
  }

  /** One received message. */
  function Receive(h: Hasher, extents: seq<Extent>): Option<Hasher> {
    match Advance(Insert(h.pending, extents), h.watermark)
    case None => None
    case Some((pending, watermark)) => Some(h.(pending := pending, watermark := watermark))
  }

  /** Everything up to the watermark folded in, from a file that holds still. */
  function CaughtUp(h: Hasher, file: Bytes): Option<Hasher>
    requires |h.folded| <= h.watermark
  {
    if h.watermark == |h.folded| then Some(h)
    else if h.watermark > |file| then None
    else Some(h.(folded := h.folded + file[|h.folded|..h.watermark]))
  }

  function HashMessages(rx: seq<seq<Extent>>, file: Bytes): (r: Option<Hasher>)
    ensures r.Some? ==> |r.value.folded| == r.value.watermark
  {
    if rx == [] then
      Some(START)
    else
      match HashMessages(rx[..|rx| - 1], file)
      case None => None
      case Some(h) =>
        AdvanceGrows(Insert(h.pending, rx[|rx| - 1]), h.watermark);
        match Receive(h, rx[|rx| - 1])
        case None => None
        case Some(h') => CaughtUp(h', file)
  }

  /** The verdict once every sender is gone. */
  function Verdict(h: Hasher, totalSize: nat): Option<Digest> {
    if |h.folded| == totalSize && h.pending == map[] then Some(Sha256(h.folded)) else None
  }

  function HashOf(rx: seq<seq<Extent>>, file: Bytes, totalSize: nat): Option<Digest> {
    match HashMessages(rx, file)
    case None => None
    case Some(h) => Verdict(h, totalSize)
  }

  lemma {:induction false} AdvanceGrows(pending: map<nat, nat>, watermark: nat)
    ensures Advance(pending, watermark).Some? ==> Advance(pending, watermark).value.1 >= watermark
    decreases pending.Keys
  {
    if watermark in pending && watermark + pending[watermark] <= U64_MAX {
      AdvanceGrows(pending - {watermark}, watermark + pending[watermark]);
    }
  }

  method InsertExtents(pending: map<nat, nat>, extents: seq<Extent>) returns (r: map<nat, nat>)
    ensures r == Insert(pending, extents)
  {
    r := pending;
    for j := 0 to |extents|
      invariant r == Insert(pending, extents[..j])
    {
      assert extents[..j + 1][..j] == extents[..j];
      r := r[extents[j].start := extents[j].size];
    }
    assert extents[..|extents|] == extents;
  }

  method DrainPending(pending: map<nat, nat>, watermark: nat) returns (r: Option<(map<nat, nat>, nat)>)
    ensures r == Advance(pending, watermark)
  {
    var left := pending;
    var mark: nat := watermark;
    while mark in left
      invariant Advance(left, mark) == Advance(pending, watermark)
      decreases left.Keys
    {
      var size := left[mark];
      if mark + size > U64_MAX {
        return None;
      }
      left, mark := left - {mark}, mark + size;
    }
    return Some((left, mark));
  }

  /** Read on to the watermark; a read returns any positive number of the bytes asked for,
      and none at the end of the file. */
  method FoldToWatermark(h: Hasher, file: Bytes) returns (r: Option<Hasher>)
    requires |h.folded| <= h.watermark
    ensures r == CaughtUp(h, file)
  {
    var hashed, hasher := |h.folded|, h.folded;
    while hashed < h.watermark
      invariant |h.folded| <= hashed == |hasher| <= h.watermark
      invariant hashed > |h.folded| ==> hashed <= |file| && hasher == h.folded + file[|h.folded|..hashed]
      invariant hashed == |h.folded| ==> hasher == h.folded
    {
      var want := h.watermark - hashed;
      if hashed >= |file| {
        return None;
      }
      var n: nat :| 1 <= n <= want && hashed + n <= |file|;
      assert file[|h.folded|..hashed + n] ==
             (if hashed == |h.folded| then [] else file[|h.folded|..hashed]) + file[hashed..hashed + n];
      hasher := hasher + file[hashed..hashed + n];
      hashed := hashed + n;
    }
    return Some(h.(folded := hasher));
  }

  /** The hasher's loop over its channel, for a file that holds still. */
  method HashIncrementally(rx: seq<seq<Extent>>, file: Bytes, totalSize: nat) returns (r: Option<Digest>)
    ensures r == HashOf(rx, file, totalSize)
  {
    var h := START;
    for i := 0 to |rx|
      invariant HashMessages(rx[..i], file) == Some(h)
    {
      assert rx[..i + 1][..i] == rx[..i];
      var pending := InsertExtents(h.pending, rx[i]);
      var drained := DrainPending(pending, h.watermark);
      if drained.None? {
        HashMessagesNone(rx, file, i + 1);
        return None;
      }
      AdvanceGrows(pending, h.watermark);
      var caughtUp := FoldToWatermark(h.(pending := drained.value.0, watermark := drained.value.1), file);
      if caughtUp.None? {
        HashMessagesNone(rx, file, i + 1);
        return None;
      }
      h := caughtUp.value;
    }
    assert rx[..|rx|] == rx;
    if |h.folded| == totalSize && h.pending == map[] {
      return Some(Sha256(h.folded));
    }
    return None;
  }

  lemma {:induction false} HashMessagesNone(rx: seq<seq<Extent>>, file: Bytes, n: nat)
    requires n <= |rx| && HashMessages(rx[..n], file).None?
    ensures HashMessages(rx, file).None?
  {
    if n == |rx| {
      assert rx[..n] == rx;
    } else {
      var init := rx[..|rx| - 1];
      assert init[..n] == rx[..n];
      HashMessagesNone(init, file, n);
    }
  }

  /** An extent that starts below the watermark is never consumed: it stays in the buffer
      for good. */
  lemma {:induction false} AdvanceKeepsStale(pending: map<nat, nat>, watermark: nat, start: nat)
    requires start in pending && start < watermark
    ensures Advance(pending, watermark).Some? ==>
              start in Advance(pending, watermark).value.0 && Advance(pending, watermark).value.0[start] == pending[start]
    decreases pending.Keys
  {
    if watermark in pending && watermark + pending[watermark] <= U64_MAX {
      AdvanceKeepsStale(pending - {watermark}, watermark + pending[watermark], start);
    }
  }

  lemma {:induction false} InsertHas(pending: map<nat, nat>, extents: seq<Extent>)
    ensures forall k :: k in Insert(pending, extents) <==> k in pending || exists j :: 0 <= j < |extents| && extents[j].start == k
  {
    if extents != [] {
      InsertHas(pending, extents[..|extents| - 1]);
    }
  }

  /** The buffer is keyed by start alone, so a second, smaller extent at the same start
      replaces an out-of-bounds one: the hasher then vouches for the first two bytes of a
      three-byte file, which a full re-read refuses. */
  lemma ReplacedExtentAccepted(file: Bytes)
    requires |file| == 3
    ensures HashOf([[Extent(1, 2)], [Extent(1, 1)], [Extent(0, 1)]], file, 2) == Some(Sha256(file[..2]))
    ensures Sha256(file[..2]) != Sha256(file)
  {
    var m1, m2, m3 := [Extent(1, 2)], [Extent(1, 1)], [Extent(0, 1)];
    var rx := [m1, m2, m3];
    assert rx[..2] == [m1, m2] && rx[..2][..1] == [m1] && [m1][..0] == [];
    InsertOne(map[], Extent(1, 2));
    assert Advance(map[1 := 2], 0) == Some((map[1 := 2], 0));
    assert HashMessages([m1], file) == Some(Hasher(map[1 := 2], 0, []));
    InsertOne(map[1 := 2], Extent(1, 1));
    assert map[1 := 2][1 := 1] == map[1 := 1];
    assert Advance(map[1 := 1], 0) == Some((map[1 := 1], 0));
    assert HashMessages([m1, m2], file) == Some(Hasher(map[1 := 1], 0, []));
    InsertOne(map[1 := 1], Extent(0, 1));
    var both := map[1 := 1][0 := 1];
    assert both - {0} == map[1 := 1] && map[1 := 1] - {1} == map[];
    assert Advance(map[], 2) == Some((map[], 2));
    assert Advance(map[1 := 1], 1) == Some((map[], 2));
    assert Advance(both, 0) == Some((map[], 2));
    assert [] + file[0..2] == file[..2];
    Sha256Distinct(file[..2], file);
  }

  lemma InsertOne(pending: map<nat, nat>, e: Extent)
    ensures Insert(pending, [e]) == pending[e.start := e.size]
  {
    assert [e][..0] == [];
  }

  predicate ExtentsFit(pending: map<nat, nat>, bound: nat) {
    forall k :: k in pending ==> pending[k] == 0 || k + pending[k] <= bound
  }

  lemma {:induction false} AdvanceFits(pending: map<nat, nat>, watermark: nat, bound: nat)
    requires ExtentsFit(pending, bound) && watermark <= bound
    ensures Advance(pending, watermark).Some? ==>
              ExtentsFit(Advance(pending, watermark).value.0, bound) && Advance(pending, watermark).value.1 <= bound
    decreases pending.Keys
  {
    if watermark in pending && watermark + pending[watermark] <= U64_MAX {
      AdvanceFits(pending - {watermark}, watermark + pending[watermark], bound);
    }
  }

  lemma {:induction false} InsertFits(pending: map<nat, nat>, extents: seq<Extent>, bound: nat)
    requires ExtentsFit(pending, bound)
    requires forall e :: e in extents ==> e.size == 0 || e.start + e.size <= bound
    ensures ExtentsFit(Insert(pending, extents), bound)
  {
    if extents != [] {
      InsertFits(pending, extents[..|extents| - 1], bound);
    }
  }
}
