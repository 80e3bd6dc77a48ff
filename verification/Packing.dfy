/** The chunked-v2 pack planner (hippius_hub/_packing.py): an accumulator fed one
    chunk at a time, and the plan it is promised to produce. */
module Packing {
  import opened Basics
  import opened Text

  datatype Chunk = Chunk(digest: Digest, size: nat, offset: nat)

  /** Where a chunk of a prior revision is stored. */
  datatype DedupEntry = DedupEntry(pack: Digest, offset: nat)

  /** A byte range of the source file. */
  datatype Range = Range(offset: nat, size: nat)

  /** A pack to build: file ranges to concatenate, in pack order. */
  type NewPack = seq<Range>

  datatype Place = InPrior(pack: Digest) | InNew(index: nat)

  datatype PlannedChunk = PlannedChunk(digest: Digest, size: nat, packOffset: nat, place: Place)

  datatype PackPlan = PackPlan(planned: seq<PlannedChunk>, newPacks: seq<NewPack>)

  datatype PackError = NonPositivePackSize | FeedAfterFinish | SizeMismatch(digest: Digest)

  function Size(pack: NewPack): nat {
    if pack == [] then 0 else Size(pack[..|pack| - 1]) + pack[|pack| - 1].size
  }

  lemma SizeSnoc(pack: NewPack, r: Range)
    ensures Size(pack + [r]) == Size(pack) + r.size
  {
    assert (pack + [r])[..|pack|] == pack;
  }

  lemma {:induction false} SizePrefix(pack: NewPack, j: nat)
    requires j < |pack|
    ensures Size(pack[..j]) + pack[j].size == Size(pack[..j + 1]) <= Size(pack)
  {
    assert pack[..j + 1][..j] == pack[..j];
    if j + 1 == |pack| {
      assert pack[..j + 1] == pack;
    } else {
      var init := pack[..|pack| - 1];
      SizePrefix(init, j);
      assert init[..j] == pack[..j] && init[..j + 1] == pack[..j + 1];
    }
  }

  /** The accumulator's fields as one value. */
  datatype Acc = Acc(
    planned: seq<PlannedChunk>,
    newPacks: seq<NewPack>,
    cur: NewPack,
    curOffset: nat,
    seen: map<Digest, PlannedChunk>,
    plan: Option<PackPlan>)

  const EMPTY := Acc([], [], [], 0, map[], None)

  function Closed(a: Acc): Acc {
    a.(newPacks := a.newPacks + [a.cur], cur := [], curOffset := 0)
  }

  /** One `feed`: the new state and the packs it completes. */
  function AfterFeed(index: map<Digest, DedupEntry>, packSize: nat, a: Acc, c: Chunk)
    : Result<(Acc, seq<NewPack>), PackError>
  {
    if a.plan.Some? then
      Err(FeedAfterFinish)
    else if c.digest in index then
      var hit := index[c.digest];
      Ok((a.(planned := a.planned + [PlannedChunk(c.digest, c.size, hit.offset, InPrior(hit.pack))]), []))
    else if c.digest in a.seen then
      if a.seen[c.digest].size != c.size then
        Err(SizeMismatch(c.digest))
      else
        Ok((a.(planned := a.planned + [a.seen[c.digest]]), []))
    else
      var first := PlannedChunk(c.digest, c.size, a.curOffset, InNew(|a.newPacks|));
      var b := a.(
        planned := a.planned + [first],
        seen := a.seen[c.digest := first],
        cur := a.cur + [Range(c.offset, c.size)],
        curOffset := a.curOffset + c.size);
      if b.curOffset >= packSize then Ok((Closed(b), [b.cur])) else Ok((b, []))
  }

  function AfterFinish(a: Acc): Acc {
    if a.plan.Some? then
      a
    else
      var b := if a.cur != [] then Closed(a) else a;
      b.(plan := Some(PackPlan(b.planned, b.newPacks)))
  }

  /** The incremental planner. */
  class PackAccumulator {
    const dedupIndex: map<Digest, DedupEntry>
    const packSize: nat
    var planned: seq<PlannedChunk>
    var newPacks: seq<NewPack>
    var curRanges: NewPack
    var curOffset: nat
    var seen: map<Digest, PlannedChunk>
    var plan: Option<PackPlan>

    function State(): Acc
      reads this
    {
      Acc(planned, newPacks, curRanges, curOffset, seen, plan)
    }

    constructor (dedupIndex: map<Digest, DedupEntry>, packSize: nat)
      ensures this.dedupIndex == dedupIndex && this.packSize == packSize
      ensures State() == EMPTY
    {
      this.dedupIndex, this.packSize := dedupIndex, packSize;
      planned, newPacks, curRanges, curOffset := [], [], [], 0;
      seen, plan := map[], None;
    }

    method Feed(c: Chunk) returns (r: Result<seq<NewPack>, PackError>)
      modifies this
      ensures match AfterFeed(dedupIndex, packSize, old(State()), c)
              case Ok((next, emitted)) => r == Ok(emitted) && State() == next
              case Err(e) => r == Err(e) && State() == old(State())
    {
      if plan.Some? {
        return Err(FeedAfterFinish);
      }
      if c.digest in dedupIndex {
        var hit := dedupIndex[c.digest];
        planned := planned + [PlannedChunk(c.digest, c.size, hit.offset, InPrior(hit.pack))];
        return Ok([]);
      }
      if c.digest in seen {
        var first := seen[c.digest];
        if first.size != c.size {
          return Err(SizeMismatch(c.digest));
        }
        planned := planned + [first];
        return Ok([]);
      }
      var first := PlannedChunk(c.digest, c.size, curOffset, InNew(|newPacks|));
      planned := planned + [first];
      seen := seen[c.digest := first];
      curRanges := curRanges + [Range(c.offset, c.size)];
      curOffset := curOffset + c.size;
      if curOffset >= packSize {
        var pack := Close();
        return Ok([pack]);
      }
      return Ok([]);
    }

    method Close() returns (pack: NewPack)
      modifies this
      ensures pack == old(curRanges)
      ensures State() == Closed(old(State()))
    {
      pack := curRanges;
      newPacks := newPacks + [pack];
      curRanges := [];
      curOffset := 0;
    }

    method Finish() returns (p: PackPlan)
      modifies this
      ensures State() == AfterFinish(old(State()))
      ensures plan == Some(p)
    {
      if plan.None? {
        if curRanges != [] {
          var _ := Close();
        }
        plan := Some(PackPlan(planned, newPacks));
      }
      p := plan.value;
    }
  }

  /** Feeding a whole chunk list from the empty accumulator. */
  function FeedAll(index: map<Digest, DedupEntry>, packSize: nat, chunks: seq<Chunk>): Result<Acc, PackError> {
    if chunks == [] then
      Ok(EMPTY)
    else
      match FeedAll(index, packSize, chunks[..|chunks| - 1])
      case Err(e) => Err(e)
      case Ok(a) =>
        match AfterFeed(index, packSize, a, chunks[|chunks| - 1])
        case Err(e) => Err(e)
        case Ok((b, _)) => Ok(b)
  }

  function Plan(index: map<Digest, DedupEntry>, packSize: nat, chunks: seq<Chunk>): Result<PackPlan, PackError> {
    match FeedAll(index, packSize, chunks)
    case Err(e) => Err(e)
    case Ok(a) => Ok(PackPlan(AfterFinish(a).planned, AfterFinish(a).newPacks))
  }

  /** The batch planner: feed every chunk, then finish. */
  method PlanPacks(chunks: seq<Chunk>, dedupIndex: map<Digest, DedupEntry>, packSize: int)
    returns (r: Result<PackPlan, PackError>)
    ensures packSize <= 0 ==> r == Err(NonPositivePackSize)
    ensures packSize > 0 ==> r == Plan(dedupIndex, packSize, chunks)
  {
    if packSize <= 0 {
      return Err(NonPositivePackSize);
    }
    var acc := new PackAccumulator(dedupIndex, packSize);
    for i := 0 to |chunks|
      invariant acc.dedupIndex == dedupIndex && acc.packSize == packSize
      invariant FeedAll(dedupIndex, packSize, chunks[..i]) == Ok(acc.State())
      invariant acc.plan.None?
    {
      assert chunks[..i + 1][..i] == chunks[..i];
      var fed := acc.Feed(chunks[i]);
      if fed.Err? {
        FeedAllErr(dedupIndex, packSize, chunks, i + 1);
        return Err(fed.error);
      }
    }
    assert chunks[..|chunks|] == chunks;
    var plan := acc.Finish();
    return Ok(plan);
  }

  lemma {:induction false} FeedAllErr(index: map<Digest, DedupEntry>, packSize: nat, chunks: seq<Chunk>, n: nat)
    requires n <= |chunks|
    requires FeedAll(index, packSize, chunks[..n]).Err?
    ensures FeedAll(index, packSize, chunks) == FeedAll(index, packSize, chunks[..n])
  {
    if n == |chunks| {
      assert chunks[..n] == chunks;
    } else {
      var init := chunks[..|chunks| - 1];
      assert init[..n] == chunks[..n];
      FeedAllErr(index, packSize, init, n);
    }
  }
}
