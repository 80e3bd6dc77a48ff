/** On a plan that tiles the file, the incremental hasher always reaches a verdict. */
module HasherCompleteness {
  import opened Basics
  import opened Text
  import opened IncrementalHash
  import opened ParallelWrite
  import opened HasherSoundness
  import opened AssembledFile

  /** Following extents of the given sizes from `w`, each starting where the last one ends,
      uses every start in `starts` and arrives at `totalSize`. */
  predicate Chain(sizes: map<nat, nat>, starts: set<nat>, w: nat, totalSize: nat)
    decreases starts
  {
    if w == totalSize then
      starts == {}
    else
      && w in starts && w in sizes && sizes[w] > 0 && w + sizes[w] <= totalSize
      && Chain(sizes, starts - {w}, w + sizes[w], totalSize)
  }

  function Starts(plan: Plan): set<nat> {
    set i, j | 0 <= i < |plan| && 0 <= j < |plan[i]| :: plan[i][j].start
  }

  /** No two pieces start at the same offset. */
  predicate DistinctStarts(plan: Plan) {
    forall i, j, k, l ::
      0 <= i < |plan| && 0 <= j < |plan[i]| && 0 <= k < |plan| && 0 <= l < |plan[k]| && (i != k || j != l)
      ==> plan[i][j].start != plan[k][l].start
  }

  /** The pieces of all tasks together tile `[0, totalSize)`. */
  predicate TilingPlan(plan: Plan, sizes: map<nat, nat>, totalSize: nat) {
    && totalSize <= U64_MAX
    && Chain(sizes, Starts(plan), 0, totalSize)
    && (forall i, j :: 0 <= i < |plan| && 0 <= j < |plan[i]| ==>
          plan[i][j].start in sizes && sizes[plan[i][j].start] == |plan[i][j].data|)
    && DistinctStarts(plan)
  }

  /** The starts the hasher has not been told of. */
  function Missing(writers: seq<Writer>): set<nat> {
    set i, j | 0 <= i < |writers| && !writers[i].received && 0 <= j < |writers[i].pieces| :: writers[i].pieces[j].start
  }

  predicate Agrees(pending: map<nat, nat>, sizes: map<nat, nat>) {
    forall k :: k in pending ==> k in sizes && pending[k] == sizes[k]
  }

  /** What is buffered and what is still to come continue the tiling from the watermark. */
  predicate ChainInv(s: Sys, sizes: map<nat, nat>, totalSize: nat) {
    && (s.outcome == GaveUp ==> s.ioFailed)
    && (s.outcome != GaveUp ==>
          && Chain(sizes, s.hasher.pending.Keys + Missing(s.writers), s.hasher.watermark, totalSize)
          && Agrees(s.hasher.pending, sizes)
          && s.hasher.pending.Keys !! Missing(s.writers)
          && s.hasher.watermark !in s.hasher.pending)
  }

  lemma ChainBound(sizes: map<nat, nat>, starts: set<nat>, w: nat, totalSize: nat)
    requires Chain(sizes, starts, w, totalSize)
    ensures w <= totalSize
  {
  }

  lemma {:induction false} AdvanceChain(pending: map<nat, nat>, w: nat, missing: set<nat>, sizes: map<nat, nat>, totalSize: nat)
    requires Chain(sizes, pending.Keys + missing, w, totalSize) && totalSize <= U64_MAX
    requires Agrees(pending, sizes) && pending.Keys !! missing
    ensures Advance(pending, w).Some?
    ensures var (left, mark) := Advance(pending, w).value;
            && Chain(sizes, left.Keys + missing, mark, totalSize)
            && Agrees(left, sizes) && left.Keys <= pending.Keys && mark !in left
    decreases pending.Keys
  {
    if w in pending {
      assert w + pending[w] <= totalSize;
      assert (pending - {w}).Keys + missing == (pending.Keys + missing) - {w};
      AdvanceChain(pending - {w}, w + pending[w], missing, sizes, totalSize);
    }
  }

  lemma {:induction false} InsertAgrees(pending: map<nat, nat>, extents: seq<Extent>, sizes: map<nat, nat>)
    requires Agrees(pending, sizes)
    requires forall e :: e in extents ==> e.start in sizes && e.size == sizes[e.start]
    ensures Agrees(Insert(pending, extents), sizes)
  {
    if extents != [] {
      InsertAgrees(pending, extents[..|extents| - 1], sizes);
    }
  }

  function OwnStarts(pieces: seq<Piece>): set<nat> {
    set j | 0 <= j < |pieces| :: pieces[j].start
  }

  lemma InsertKeys(pending: map<nat, nat>, pieces: seq<Piece>)
    ensures Insert(pending, ExtentsOf(pieces)).Keys == pending.Keys + OwnStarts(pieces)
  {
    InsertHas(pending, ExtentsOf(pieces));
    var after := Insert(pending, ExtentsOf(pieces));
    forall k
      ensures k in after.Keys <==> k in pending.Keys + OwnStarts(pieces)
    {
      if k in after && k !in pending {
        var j :| 0 <= j < |pieces| && ExtentsOf(pieces)[j].start == k;
        assert pieces[j].start == k;
      }
      if k in OwnStarts(pieces) {
        var j :| 0 <= j < |pieces| && pieces[j].start == k;
        assert ExtentsOf(pieces)[j].start == k;
      }
    }
  }

  lemma MissingTaken(writers: seq<Writer>, w: nat, plan: Plan)
    requires DistinctStarts(plan) && |writers| == |plan| && w < |writers| && !writers[w].received
    requires forall i :: 0 <= i < |plan| ==> writers[i].pieces == plan[i]
    ensures var after := Missing(writers[w := writers[w].(received := true)]);
            && Missing(writers) == after + OwnStarts(plan[w])
            && after !! OwnStarts(plan[w])
  {
    var writers' := writers[w := writers[w].(received := true)];
    forall k | k in Missing(writers)
      ensures k in Missing(writers') || k in OwnStarts(plan[w])
    {
      var i, j :| 0 <= i < |writers| && !writers[i].received && 0 <= j < |writers[i].pieces| && writers[i].pieces[j].start == k;
      if i != w {
        assert !writers'[i].received && writers'[i].pieces[j].start == k;
      }
    }
    forall k | k in Missing(writers')
      ensures k in Missing(writers) && k !in OwnStarts(plan[w])
    {
      var i, j :| 0 <= i < |writers'| && !writers'[i].received && 0 <= j < |writers'[i].pieces| && writers'[i].pieces[j].start == k;
      assert writers[i].pieces[j].start == k;
      assert plan[i][j].start == k;
    }
    forall k | k in OwnStarts(plan[w])
      ensures k in Missing(writers)
    {
      var j :| 0 <= j < |plan[w]| && plan[w][j].start == k;
      assert writers[w].pieces[j].start == k;
    }
  }

  lemma MissingSame(writers: seq<Writer>, writers': seq<Writer>)
    requires |writers'| == |writers|
    requires forall i :: 0 <= i < |writers| ==>
               writers'[i].pieces == writers[i].pieces && writers'[i].received == writers[i].received
    ensures Missing(writers') == Missing(writers)
  {
    forall k
      ensures k in Missing(writers') <==> k in Missing(writers)
    {
      if k in Missing(writers) {
        var i, j :| 0 <= i < |writers| && !writers[i].received && 0 <= j < |writers[i].pieces| && writers[i].pieces[j].start == k;
        assert writers'[i].pieces[j].start == k;
      }
      if k in Missing(writers') {
        var i, j :| 0 <= i < |writers'| && !writers'[i].received && 0 <= j < |writers'[i].pieces| && writers'[i].pieces[j].start == k;
        assert writers[i].pieces[j].start == k;
      }
    }
  }

  /** Taking one more signal. */
  lemma ReceiveKeepsChain(s: Sys, plan: Plan, sizes: map<nat, nat>, totalSize: nat)
    requires Sane(s, plan) && TilingPlan(plan, sizes, totalSize) && ChainInv(s, sizes, totalSize)
    requires Enabled(s, Step.Receive)
    ensures ChainInv(Do(s, Step.Receive, totalSize), sizes, totalSize)
  {
    var w := s.channel[0];
    assert w in s.channel && UnderWay(s.writers[w]);
    var pieces := s.writers[w].pieces;
    var after := s.writers[w := s.writers[w].(received := true)];
    MissingTaken(s.writers, w, plan);
    InsertKeys(s.hasher.pending, pieces);
    var pending := Insert(s.hasher.pending, ExtentsOf(pieces));
    forall e | e in ExtentsOf(pieces)
      ensures e.start in sizes && e.size == sizes[e.start]
    {
      var j :| 0 <= j < |pieces| && ExtentsOf(pieces)[j] == e;
      assert plan[w][j] == pieces[j];
    }
    InsertAgrees(s.hasher.pending, ExtentsOf(pieces), sizes);
    assert pending.Keys + Missing(after) == s.hasher.pending.Keys + Missing(s.writers);
    AdvanceChain(pending, s.hasher.watermark, Missing(after), sizes, totalSize);
  }

  lemma AllReceived(s: Sys, plan: Plan)
    requires Sane(s, plan) && AllSignalled(s) && s.channel == []
    ensures Missing(s.writers) == {}
  {
    assert forall i :: 0 <= i < |s.writers| ==> !UnderWay(s.writers[i]);
  }

  lemma DoKeepsChain(s: Sys, step: Step, plan: Plan, sizes: map<nat, nat>, totalSize: nat)
    requires Sane(s, plan) && TilingPlan(plan, sizes, totalSize) && ChainInv(s, sizes, totalSize)
    requires totalSize <= |s.file| && Enabled(s, step)
    ensures ChainInv(Do(s, step, totalSize), sizes, totalSize)
  {
    var s' := Do(s, step, totalSize);
    match step {
      case Receive => ReceiveKeepsChain(s, plan, sizes, totalSize);
      case HitEof => ChainBound(sizes, s.hasher.pending.Keys + Missing(s.writers), s.hasher.watermark, totalSize);
      case Close => AllReceived(s, plan);
      case IoError =>
      case Read(_) =>
      case _ => MissingSame(s.writers, s'.writers);
    }
  }

  lemma StartChain(plan: Plan, sizes: map<nat, nat>, totalSize: nat)
    requires TilingPlan(plan, sizes, totalSize)
    ensures ChainInv(Start(plan, totalSize), sizes, totalSize)
  {
    StartMissesAll(plan, totalSize);
    assert Start(plan, totalSize).hasher.pending.Keys + Starts(plan) == Starts(plan);
  }

  lemma StartMissesAll(plan: Plan, totalSize: nat)
    ensures Missing(Start(plan, totalSize).writers) == Starts(plan)
  {
    var s := Start(plan, totalSize);
    forall k
      ensures k in Missing(s.writers) <==> k in Starts(plan)
    {
      if k in Starts(plan) {
        var i, j :| 0 <= i < |plan| && 0 <= j < |plan[i]| && plan[i][j].start == k;
        assert s.writers[i].pieces[j].start == k;
      }
      if k in Missing(s.writers) {
        var i, j :| 0 <= i < |s.writers| && 0 <= j < |s.writers[i].pieces| && s.writers[i].pieces[j].start == k;
        assert plan[i][j].start == k;
      }
    }
  }

  lemma {:induction false} RunKeepsChain(plan: Plan, sizes: map<nat, nat>, totalSize: nat, run: seq<Step>)
    requires TilingPlan(plan, sizes, totalSize) && After(plan, totalSize, run).Some?
    ensures ChainInv(After(plan, totalSize, run).value, sizes, totalSize)
  {
    if run == [] {
      StartChain(plan, sizes, totalSize);
    } else {
      var init := run[..|run| - 1];
      RunKeepsChain(plan, sizes, totalSize, init);
      RunIsSane(plan, totalSize, init);
      RunLength(plan, totalSize, init, totalSize);
      DoKeepsChain(After(plan, totalSize, init).value, run[|run| - 1], plan, sizes, totalSize);
    }
  }

  /** Completeness. On a tiling plan the hasher gives up only if a read fails: in every
      order of the signals it covers the whole file, so no re-read is needed. */
  lemma TilingIsHashed(plan: Plan, sizes: map<nat, nat>, totalSize: nat, run: seq<Step>)
    requires TilingPlan(plan, sizes, totalSize) && After(plan, totalSize, run).Some?
    ensures After(plan, totalSize, run).value.outcome == GaveUp ==> After(plan, totalSize, run).value.ioFailed
  {
    RunKeepsChain(plan, sizes, totalSize, run);
  }

  lemma {:induction false} ChainSpan(sizes: map<nat, nat>, starts: set<nat>, w: nat, totalSize: nat, k: nat)
    requires Chain(sizes, starts, w, totalSize) && k in starts
    ensures k in sizes && w <= k && k + sizes[k] <= totalSize
    decreases starts
  {
    if w != totalSize && k != w {
      ChainSpan(sizes, starts - {w}, w + sizes[w], totalSize, k);
    }
  }

  lemma {:induction false} ChainApart(sizes: map<nat, nat>, starts: set<nat>, w: nat, totalSize: nat, k: nat, l: nat)
    requires Chain(sizes, starts, w, totalSize) && k in starts && l in starts && k != l
    ensures k in sizes && l in sizes && (k + sizes[k] <= l || l + sizes[l] <= k)
    decreases starts
  {
    if k == w {
      ChainSpan(sizes, starts - {w}, w + sizes[w], totalSize, l);
    } else if l == w {
      ChainSpan(sizes, starts - {w}, w + sizes[w], totalSize, k);
    } else {
      ChainApart(sizes, starts - {w}, w + sizes[w], totalSize, k, l);
    }
  }

  lemma {:induction false} ChainCovers(sizes: map<nat, nat>, starts: set<nat>, w: nat, totalSize: nat, b: nat)
    returns (k: nat)
    requires Chain(sizes, starts, w, totalSize) && w <= b < totalSize
    ensures k in starts && k in sizes && k <= b < k + sizes[k]
    decreases starts
  {
    if b < w + sizes[w] {
      k := w;
    } else {
      k := ChainCovers(sizes, starts - {w}, w + sizes[w], totalSize, b);
    }
  }

  /** A tiling plan is disjoint, in bounds and covers every byte. */
  lemma TilingCutsUp(plan: Plan, sizes: map<nat, nat>, totalSize: nat)
    requires TilingPlan(plan, sizes, totalSize)
    ensures Disjoint(plan) && InBounds(plan, totalSize)
    ensures forall b :: 0 <= b < totalSize ==> Covered(plan, b)
  {
    var starts := Starts(plan);
    forall i, j | 0 <= i < |plan| && 0 <= j < |plan[i]|
      ensures Fits(plan[i][j], totalSize)
    {
      assert plan[i][j].start in starts;
      ChainSpan(sizes, starts, 0, totalSize, plan[i][j].start);
    }
    forall i, j, k, l |
      0 <= i < |plan| && 0 <= j < |plan[i]| && 0 <= k < |plan| && 0 <= l < |plan[k]| && (i != k || j != l)
      ensures Apart(plan[i][j], plan[k][l])
    {
      assert plan[i][j].start in starts && plan[k][l].start in starts;
      ChainApart(sizes, starts, 0, totalSize, plan[i][j].start, plan[k][l].start);
    }
    forall b | 0 <= b < totalSize
      ensures Covered(plan, b)
    {
      var k := ChainCovers(sizes, starts, 0, totalSize, b);
      var i, j :| 0 <= i < |plan| && 0 <= j < |plan[i]| && plan[i][j].start == k;
      assert Covers(plan[i][j], b);
    }
  }

  /** A plan whose pieces are the slices of `file` they cover, and tile it. */
  predicate TilesFile(plan: Plan, sizes: map<nat, nat>, file: Bytes) {
    && TilingPlan(plan, sizes, |file|)
    && forall i, j :: 0 <= i < |plan| && 0 <= j < |plan[i]| ==> There(file, plan[i][j])
  }

  /** Every run of such a plan that comes to an end without a failed read has rebuilt the file
      and holds its digest, without a second read. */
  lemma RunVerifies(plan: Plan, sizes: map<nat, nat>, file: Bytes, run: seq<Step>)
    requires TilesFile(plan, sizes, file) && After(plan, |file|, run).Some?
    requires After(plan, |file|, run).value.outcome != Hashing && !After(plan, |file|, run).value.ioFailed
    ensures After(plan, |file|, run).value.file == file
    ensures After(plan, |file|, run).value.outcome == Hashed(Sha256(file))
  {
    TilingIsHashed(plan, sizes, |file|, run);
    RunIsSane(plan, |file|, run);
    TilingRebuilds(plan, sizes, file, run);
  }

  lemma TilingRebuilds(plan: Plan, sizes: map<nat, nat>, file: Bytes, run: seq<Step>)
    requires TilesFile(plan, sizes, file) && After(plan, |file|, run).Some?
    requires AllSignalled(After(plan, |file|, run).value)
    ensures After(plan, |file|, run).value.file == file
    ensures After(plan, |file|, run).value.outcome.Hashed? ==>
              After(plan, |file|, run).value.outcome.digest == Sha256(file)
  {
    TilingCutsUp(plan, sizes, |file|);
    forall i, j | 0 <= i < |plan| && 0 <= j < |plan[i]|
      ensures plan[i][j].start + |plan[i][j].data| <= |file|
    {
      assert plan[i][j].start in Starts(plan);
      ChainSpan(sizes, Starts(plan), 0, |file|, plan[i][j].start);
    }
    RunRebuilds(plan, file, run);
  }
}
