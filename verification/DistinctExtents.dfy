/** What the hasher's own buffer rules out, when starts are not reused: extents past the end, and
    any effect of the order of the signals (src/incremental_hash.rs). */
module DistinctExtents {
  import opened Basics
  import opened Text
  import opened IncrementalHash
  import opened ParallelWrite
  import opened HasherSoundness
  import opened HasherCompleteness
  import opened FullRuns

  /** No piece that reaches past `bound` shares its start with another piece. */
  predicate OutliersAlone(plan: Plan, bound: nat) {
    forall i, j, k, l ::
      0 <= i < |plan| && 0 <= j < |plan[i]| && !Fits(plan[i][j], bound)
      && 0 <= k < |plan| && 0 <= l < |plan[k]| && (i != k || j != l)
      ==> plan[k][l].start != plan[i][j].start
  }

  /** The extent is buffered with its own size, or the watermark has passed its end. */
  predicate Accounted(pending: map<nat, nat>, watermark: nat, start: nat, size: nat) {
    (start in pending && pending[start] == size) || start + size <= watermark
  }

  /** An entry stays in the buffer, or the new mark is at or past its end. */
  lemma {:induction false} AdvanceAccounts(pending: map<nat, nat>, watermark: nat, start: nat, size: nat)
    requires Accounted(pending, watermark, start, size) && Advance(pending, watermark).Some?
    ensures Accounted(Advance(pending, watermark).value.0, Advance(pending, watermark).value.1, start, size)
    decreases pending.Keys
  {
    if watermark in pending {
      AdvanceAccounts(pending - {watermark}, watermark + pending[watermark], start, size);
    }
  }

  lemma {:induction false} InsertSkips(pending: map<nat, nat>, extents: seq<Extent>, start: nat)
    requires forall e :: e in extents ==> e.start != start
    ensures start in Insert(pending, extents) <==> start in pending
    ensures start in pending ==> Insert(pending, extents)[start] == pending[start]
  {
    if extents != [] {
      InsertSkips(pending, extents[..|extents| - 1], start);
    }
  }

  lemma {:induction false} InsertPicks(pending: map<nat, nat>, extents: seq<Extent>, j: nat)
    requires j < |extents| && forall k :: 0 <= k < |extents| && k != j ==> extents[k].start != extents[j].start
    ensures extents[j].start in Insert(pending, extents)
    ensures Insert(pending, extents)[extents[j].start] == extents[j].size
  {
    if j < |extents| - 1 {
      InsertPicks(pending, extents[..|extents| - 1], j);
    }
  }

  /** Piece `j` of task `i` is accounted for as soon as the task's signal is taken. */
  predicate PieceAccounted(s: Sys, plan: Plan, i: nat, j: nat)
    requires i < |plan| && j < |plan[i]|
  {
    && (s.outcome != GaveUp && i < |s.writers| && s.writers[i].received ==>
          Accounted(s.hasher.pending, s.hasher.watermark, plan[i][j].start, |plan[i][j].data|))
    && (s.outcome.Hashed? ==> s.hasher.watermark == |s.hasher.folded|)
  }

  lemma ReceiveAccounts(s: Sys, plan: Plan, totalSize: nat, i: nat, j: nat)
    requires KeepsPlan(s, plan) && i < |plan| && j < |plan[i]|
    requires forall k, l :: 0 <= k < |plan| && 0 <= l < |plan[k]| && (i != k || j != l)
               ==> plan[k][l].start != plan[i][j].start
    requires PieceAccounted(s, plan, i, j) && Enabled(s, Step.Receive)
    ensures PieceAccounted(Do(s, Step.Receive, totalSize), plan, i, j)
  {
    var s', w := Do(s, Step.Receive, totalSize), s.channel[0];
    var extents, p := ExtentsOf(s.writers[w].pieces), plan[i][j];
    if s'.outcome != GaveUp && s'.writers[i].received {
      if i == w {
        forall k | 0 <= k < |extents| && k != j
          ensures extents[k].start != extents[j].start
        {
          assert plan[w][k].start != plan[i][j].start;
        }
        InsertPicks(s.hasher.pending, extents, j);
      } else {
        forall e | e in extents
          ensures e.start != p.start
        {
          var l :| 0 <= l < |extents| && extents[l] == e;
          assert plan[w][l].start != plan[i][j].start;
        }
        InsertSkips(s.hasher.pending, extents, p.start);
      }
      AdvanceAccounts(Insert(s.hasher.pending, extents), s.hasher.watermark, p.start, |p.data|);
    }
  }

  lemma {:induction false} RunAccounts(plan: Plan, totalSize: nat, run: seq<Step>, i: nat, j: nat)
    requires After(plan, totalSize, run).Some? && i < |plan| && j < |plan[i]|
    requires forall k, l :: 0 <= k < |plan| && 0 <= l < |plan[k]| && (i != k || j != l)
               ==> plan[k][l].start != plan[i][j].start
    ensures PieceAccounted(After(plan, totalSize, run).value, plan, i, j)
  {
    if run != [] {
      var init := run[..|run| - 1];
      RunAccounts(plan, totalSize, init, i, j);
      RunIsSane(plan, totalSize, init);
      if run[|run| - 1].Receive? {
        ReceiveAccounts(After(plan, totalSize, init).value, plan, totalSize, i, j);
      }
    }
  }

  lemma AllTaken(s: Sys, plan: Plan)
    requires Sane(s, plan) && AllSignalled(s) && s.channel == []
    ensures forall i :: 0 <= i < |s.writers| ==> s.writers[i].received
  {
    forall i | 0 <= i < |s.writers|
      ensures s.writers[i].received
    {
      assert !UnderWay(s.writers[i]);
    }
  }

  /** The check that the buffer is empty does its work. A verdict rules out every piece that
      reaches past the end, unless another piece starts where it does: then the later message
      replaces the earlier one in the buffer, as in `ReplacedExtentAccepted`. No other guard is
      needed, and the pieces may overlap at will. So the verdict is the digest of the whole
      file. */
  lemma VerdictRulesOutOutliers(plan: Plan, totalSize: nat, run: seq<Step>)
    requires After(plan, totalSize, run).Some? && OutliersAlone(plan, totalSize)
    requires After(plan, totalSize, run).value.outcome.Hashed?
    ensures InBounds(plan, totalSize)
    ensures var s := After(plan, totalSize, run).value;
            |s.file| == totalSize && s.outcome.digest == Sha256(s.file)
  {
    var s := After(plan, totalSize, run).value;
    RunFolds(plan, totalSize, run);
    RunIsSane(plan, totalSize, run);
    AllTaken(s, plan);
    forall i, j | 0 <= i < |plan| && 0 <= j < |plan[i]|
      ensures Fits(plan[i][j], totalSize)
    {
      if !Fits(plan[i][j], totalSize) {
        RunAccounts(plan, totalSize, run, i, j);
      }
    }
    SameVerdictAsReread(plan, totalSize, run);
    FinalLength(plan, totalSize, run);
  }

  /** The size of the piece at each start. */
  ghost function SizeOf(plan: Plan, start: nat): nat
    requires start in Starts(plan)
  {
    var i, j :| 0 <= i < |plan| && 0 <= j < |plan[i]| && plan[i][j].start == start;
    |plan[i][j].data|
  }

  ghost function SizesOf(plan: Plan): map<nat, nat> {
    map k | k in Starts(plan) :: SizeOf(plan, k)
  }

  lemma SizesOfPiece(plan: Plan, i: nat, j: nat)
    requires DistinctStarts(plan) && i < |plan| && j < |plan[i]|
    ensures plan[i][j].start in SizesOf(plan) && SizesOf(plan)[plan[i][j].start] == |plan[i][j].data|
  {
    assert plan[i][j].start in Starts(plan);
    var start := plan[i][j].start;
    var k, l :| 0 <= k < |plan| && 0 <= l < |plan[k]| && plan[k][l].start == start
      && |plan[k][l].data| == SizeOf(plan, start);
  }

  function Restrict(sizes: map<nat, nat>, starts: set<nat>): map<nat, nat> {
    map k | k in sizes && k in starts :: sizes[k]
  }

  /** The extents of the tasks whose signals are taken. */
  ghost function TakenSizes(plan: Plan, writers: seq<Writer>): map<nat, nat> {
    Restrict(SizesOf(plan), Starts(plan) - Missing(writers))
  }

  /** Advancing in two goes is advancing once: what is buffered later, under new starts, could
      have been there from the beginning. */
  lemma {:induction false} AdvanceAdd(pending: map<nat, nat>, more: map<nat, nat>, watermark: nat)
    requires pending.Keys !! more.Keys && Advance(pending, watermark).Some?
    ensures var (left, mark) := Advance(pending, watermark).value;
            Advance(pending + more, watermark) == Advance(left + more, mark)
    decreases pending.Keys
  {
    if watermark in pending {
      assert (pending + more) - {watermark} == (pending - {watermark}) + more;
      AdvanceAdd(pending - {watermark}, more, watermark + pending[watermark]);
    }
  }

  /** A task's extents are added to the buffer, each under its own start. */
  lemma {:induction false} InsertIsUnion(pending: map<nat, nat>, pieces: seq<Piece>, sizes: map<nat, nat>)
    requires forall j :: 0 <= j < |pieces| ==> pieces[j].start in sizes && sizes[pieces[j].start] == |pieces[j].data|
    ensures Insert(pending, ExtentsOf(pieces)) == pending + Restrict(sizes, OwnStarts(pieces))
  {
    var own := Restrict(sizes, OwnStarts(pieces));
    if pieces == [] {
      assert pending + own == pending;
    } else {
      var init, last := pieces[..|pieces| - 1], pieces[|pieces| - 1];
      InsertIsUnion(pending, init, sizes);
      assert ExtentsOf(pieces)[..|pieces| - 1] == ExtentsOf(init);
      OwnNext(pieces, sizes);
      hide Restrict, OwnStarts;
      UpdateJoins(pending, Restrict(sizes, OwnStarts(init)), last.start, |last.data|);
    }
  }

  lemma UpdateJoins(a: map<nat, nat>, b: map<nat, nat>, k: nat, v: nat)
    ensures (a + b)[k := v] == a + b[k := v]
  {
  }

  lemma OwnNext(pieces: seq<Piece>, sizes: map<nat, nat>)
    requires pieces != []
    requires var last := pieces[|pieces| - 1]; last.start in sizes && sizes[last.start] == |last.data|
    ensures Restrict(sizes, OwnStarts(pieces))
            == Restrict(sizes, OwnStarts(pieces[..|pieces| - 1]))[pieces[|pieces| - 1].start := |pieces[|pieces| - 1].data|]
  {
    forall k
      ensures k in OwnStarts(pieces) <==> k in OwnStarts(pieces[..|pieces| - 1]) || k == pieces[|pieces| - 1].start
    {
      OwnSnoc(pieces, k);
    }
  }

  lemma OwnSnoc(pieces: seq<Piece>, k: nat)
    requires pieces != []
    ensures k in OwnStarts(pieces) <==> k in OwnStarts(pieces[..|pieces| - 1]) || k == pieces[|pieces| - 1].start
  {
    if k in OwnStarts(pieces) && k != pieces[|pieces| - 1].start {
      var j :| 0 <= j < |pieces| && pieces[j].start == k;
      assert pieces[..|pieces| - 1][j].start == k;
    }
    if k in OwnStarts(pieces[..|pieces| - 1]) {
      var j :| 0 <= j < |pieces| - 1 && pieces[..|pieces| - 1][j].start == k;
      assert pieces[j].start == k;
    }
  }

  /** The buffer and the watermark are what all extents taken so far give at once. */
  ghost predicate MarkIsOfTaken(s: Sys, plan: Plan) {
    Advance(TakenSizes(plan, s.writers), 0) == Some((s.hasher.pending, s.hasher.watermark))
  }

  lemma TakenGrows(s: Sys, plan: Plan, w: nat)
    requires DistinctStarts(plan) && KeepsPlan(s, plan) && w < |plan| && !s.writers[w].received
    ensures var after := s.writers[w := s.writers[w].(received := true)];
            && TakenSizes(plan, after) == TakenSizes(plan, s.writers) + Restrict(SizesOf(plan), OwnStarts(plan[w]))
            && TakenSizes(plan, s.writers).Keys !! Restrict(SizesOf(plan), OwnStarts(plan[w])).Keys
  {
    MissingTaken(s.writers, w, plan);
    forall k | k in OwnStarts(plan[w])
      ensures k in Starts(plan)
    {
      var j :| 0 <= j < |plan[w]| && plan[w][j].start == k;
    }
  }

  lemma ReceiveKeepsTaken(s: Sys, plan: Plan, totalSize: nat)
    requires Sane(s, plan) && DistinctStarts(plan) && InBounds(plan, U64_MAX)
    requires MarkInv(s, U64_MAX) && MarkIsOfTaken(s, plan) && Enabled(s, Step.Receive)
    ensures MarkIsOfTaken(Do(s, Step.Receive, totalSize), plan)
  {
    var w := s.channel[0];
    assert w in s.channel && UnderWay(s.writers[w]);
    var pieces, own := s.writers[w].pieces, Restrict(SizesOf(plan), OwnStarts(plan[w]));
    forall j | 0 <= j < |pieces|
      ensures pieces[j].start in SizesOf(plan) && SizesOf(plan)[pieces[j].start] == |pieces[j].data|
    {
      SizesOfPiece(plan, w, j);
    }
    InsertIsUnion(s.hasher.pending, pieces, SizesOf(plan));
    TakenGrows(s, plan, w);
    AdvanceAdd(TakenSizes(plan, s.writers), own, 0);
    NoOverflow(s, plan, w);
  }

  lemma NoOverflow(s: Sys, plan: Plan, w: nat)
    requires KeepsPlan(s, plan) && w < |plan| && InBounds(plan, U64_MAX) && MarkInv(s, U64_MAX)
    ensures Advance(Insert(s.hasher.pending, ExtentsOf(s.writers[w].pieces)), s.hasher.watermark).Some?
  {
    var extents := ExtentsOf(s.writers[w].pieces);
    forall e | e in extents
      ensures e.size == 0 || e.start + e.size <= U64_MAX
    {
      var j :| 0 <= j < |extents| && extents[j] == e;
      assert Fits(plan[w][j], U64_MAX);
    }
    InsertFits(s.hasher.pending, extents, U64_MAX);
    AdvanceFits64(Insert(s.hasher.pending, extents), s.hasher.watermark);
  }

  lemma {:induction false} RunMarkIsOfTaken(plan: Plan, totalSize: nat, run: seq<Step>)
    requires After(plan, totalSize, run).Some? && DistinctStarts(plan) && InBounds(plan, U64_MAX)
    ensures MarkIsOfTaken(After(plan, totalSize, run).value, plan)
  {
    hide MarkIsOfTaken, Sane, MarkInv, InBounds, DistinctStarts;
    if run == [] {
      StartIsOfTaken(plan, totalSize);
    } else {
      var init, step := run[..|run| - 1], run[|run| - 1];
      var s := After(plan, totalSize, init).value;
      RunMarkIsOfTaken(plan, totalSize, init);
      RunIsSane(plan, totalSize, init);
      RunMark(plan, totalSize, init, U64_MAX);
      if step.Receive? {
        ReceiveKeepsTaken(s, plan, totalSize);
      } else {
        OtherKeepsTaken(s, step, plan, totalSize);
      }
    }
  }

  lemma StartIsOfTaken(plan: Plan, totalSize: nat)
    ensures MarkIsOfTaken(Start(plan, totalSize), plan)
  {
    StartMissesAll(plan, totalSize);
    assert TakenSizes(plan, Start(plan, totalSize).writers) == map[];
  }

  lemma OtherKeepsTaken(s: Sys, step: Step, plan: Plan, totalSize: nat)
    requires MarkIsOfTaken(s, plan) && Enabled(s, step) && !step.Receive?
    ensures MarkIsOfTaken(Do(s, step, totalSize), plan)
  {
    hide Advance, SizesOf, Starts, Restrict;
    MissingSame(s.writers, Do(s, step, totalSize).writers);
  }

  /** Where the watermark ends up: a fact of the plan alone. */
  ghost function FinalMark(plan: Plan): nat {
    match Advance(SizesOf(plan), 0)
    case None => 0
    case Some((_, mark)) => mark
  }

  lemma AllFit(plan: Plan)
    requires DistinctStarts(plan) && InBounds(plan, U64_MAX)
    ensures Advance(SizesOf(plan), 0).Some?
  {
    forall k | k in SizesOf(plan)
      ensures SizesOf(plan)[k] == 0 || k + SizesOf(plan)[k] <= U64_MAX
    {
      var i, j :| 0 <= i < |plan| && 0 <= j < |plan[i]| && plan[i][j].start == k;
      SizesOfPiece(plan, i, j);
      assert Fits(plan[i][j], U64_MAX);
    }
    AdvanceFits64(SizesOf(plan), 0);
  }

  /** Whatever the order of the signals, the watermark never passes its final place, and is there
      once every signal is taken. */
  lemma OrderDoesNotMoveMark(plan: Plan, totalSize: nat, run: seq<Step>)
    requires After(plan, totalSize, run).Some? && DistinctStarts(plan) && InBounds(plan, U64_MAX)
    ensures var s := After(plan, totalSize, run).value;
            && s.hasher.watermark <= FinalMark(plan)
            && ((forall i :: 0 <= i < |s.writers| ==> s.writers[i].received) ==> s.hasher.watermark == FinalMark(plan))
  {
    var s := After(plan, totalSize, run).value;
    RunMarkIsOfTaken(plan, totalSize, run);
    AllFit(plan);
    var taken := TakenSizes(plan, s.writers);
    var rest := SizesOf(plan) - taken.Keys;
    assert taken + rest == SizesOf(plan);
    AdvanceAdd(taken, rest, 0);
    AdvanceGrows(s.hasher.pending + rest, s.hasher.watermark);
    if forall i :: 0 <= i < |s.writers| ==> s.writers[i].received {
      assert Missing(s.writers) == {};
      assert taken == SizesOf(plan);
    }
  }

  /** The exact condition for the hasher's stated invariant: in every run the watermark stays
      within the file, if and only if its final place is. */
  lemma WatermarkStaysIff(plan: Plan, totalSize: nat)
    requires DistinctStarts(plan) && InBounds(plan, U64_MAX)
    ensures (forall run :: After(plan, totalSize, run).Some? ==>
               After(plan, totalSize, run).value.hasher.watermark <= totalSize)
            <==> FinalMark(plan) <= totalSize
  {
    var full := TakeSignals(plan, totalSize, |plan|);
    OrderDoesNotMoveMark(plan, totalSize, full);
    forall run | After(plan, totalSize, run).Some?
      ensures After(plan, totalSize, run).value.hasher.watermark <= FinalMark(plan)
    {
      OrderDoesNotMoveMark(plan, totalSize, run);
    }
  }
}
