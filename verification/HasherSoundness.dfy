/** The incremental hasher never vouches for bytes that are not in the final file. */
module HasherSoundness {
  import opened Basics
  import opened Text
  import opened IncrementalHash
  import opened ParallelWrite

  /** Some task whose signal is not yet taken writes from offset `start` on. */
  ghost predicate Expected(writers: seq<Writer>, start: nat) {
    exists i, j :: 0 <= i < |writers| && !writers[i].received && 0 <= j < |writers[i].pieces|
      && writers[i].pieces[j].start == start
  }

  /** An extent that the hasher has read past but not consumed: one in its buffer, or one it
      has yet to be told of. Once there, it stays. */
  ghost predicate Stale(s: Sys) {
    exists start :: 0 <= start < |s.hasher.folded| && (start in s.hasher.pending || Expected(s.writers, start))
  }

  /** What has been folded is what the file still holds, unless something is stale. */
  ghost predicate FoldInv(s: Sys) {
    s.outcome != GaveUp && !Stale(s) ==> s.hasher.folded <= s.file
  }

  lemma ExpectedIfSame(writers: seq<Writer>, writers': seq<Writer>, start: nat)
    requires |writers'| == |writers|
    requires forall i :: 0 <= i < |writers| ==>
               writers'[i].pieces == writers[i].pieces && writers'[i].received == writers[i].received
    ensures Expected(writers', start) == Expected(writers, start)
  {
    if Expected(writers, start) {
      var i, j :| 0 <= i < |writers| && !writers[i].received && 0 <= j < |writers[i].pieces|
        && writers[i].pieces[j].start == start;
      assert writers'[i].pieces[j].start == start;
    }
    if Expected(writers', start) {
      var i, j :| 0 <= i < |writers'| && !writers'[i].received && 0 <= j < |writers'[i].pieces|
        && writers'[i].pieces[j].start == start;
      assert writers[i].pieces[j].start == start;
    }
  }

  /** A write below the read position leaves a stale extent behind. */
  lemma WriteKeepsFold(s: Sys, s': Sys, w: nat, k: nat, at: nat, data: Bytes)
    requires FoldInv(s) && w < |s.writers| && !s.writers[w].received && k < |s.writers[w].pieces|
    requires s.writers[w].pieces[k].start <= at
    requires s'.file == WriteAt(s.file, at, data) && s'.hasher == s.hasher && s'.outcome == s.outcome
    requires |s'.writers| == |s.writers|
    requires forall i :: 0 <= i < |s.writers| ==>
               s'.writers[i].pieces == s.writers[i].pieces && s'.writers[i].received == s.writers[i].received
    ensures FoldInv(s')
  {
    if !Stale(s') {
      if Stale(s) {
        var start :| 0 <= start < |s.hasher.folded| && (start in s.hasher.pending || Expected(s.writers, start));
        ExpectedIfSame(s.writers, s'.writers, start);
        assert false;
      }
      if at < |s.hasher.folded| {
        var start := s.writers[w].pieces[k].start;
        assert Expected(s.writers, start);
        ExpectedIfSame(s.writers, s'.writers, start);
        assert false;
      }
    }
  }

  /** Taking a signal moves its extents to the buffer, where those already read past stay. */
  lemma ReceiveKeepsFold(s: Sys, totalSize: nat)
    requires FoldInv(s) && Enabled(s, Step.Receive)
    ensures FoldInv(Do(s, Step.Receive, totalSize))
  {
    var s' := Do(s, Step.Receive, totalSize);
    var w := s.channel[0];
    var extents := ExtentsOf(s.writers[w].pieces);
    if s'.outcome != GaveUp && Stale(s) {
      var start :| 0 <= start < |s.hasher.folded| && (start in s.hasher.pending || Expected(s.writers, start));
      InsertHas(s.hasher.pending, extents);
      if start in s.hasher.pending {
        AdvanceKeepsStale(Insert(s.hasher.pending, extents), s.hasher.watermark, start);
      } else {
        var i, j :| 0 <= i < |s.writers| && !s.writers[i].received && 0 <= j < |s.writers[i].pieces|
          && s.writers[i].pieces[j].start == start;
        if i == w {
          assert extents[j].start == start;
          AdvanceKeepsStale(Insert(s.hasher.pending, extents), s.hasher.watermark, start);
        } else {
          assert !s'.writers[i].received && s'.writers[i].pieces[j].start == start;
          assert Expected(s'.writers, start);
        }
      }
      assert Stale(s');
    }
  }

  lemma ReadKeepsFold(s: Sys, n: nat, totalSize: nat)
    requires FoldInv(s) && Enabled(s, Read(n))
    ensures FoldInv(Do(s, Read(n), totalSize))
  {
    var s' := Do(s, Read(n), totalSize);
    if Stale(s) {
      var start :| 0 <= start < |s.hasher.folded| && (start in s.hasher.pending || Expected(s.writers, start));
      assert start < |s'.hasher.folded|;
      assert Stale(s');
    }
  }

  lemma SignalKeepsFold(s: Sys, w: nat, totalSize: nat)
    requires FoldInv(s) && Enabled(s, Signal(w))
    ensures FoldInv(Do(s, Signal(w), totalSize))
  {
    var s' := Do(s, Signal(w), totalSize);
    if Stale(s) {
      var start :| 0 <= start < |s.hasher.folded| && (start in s.hasher.pending || Expected(s.writers, start));
      ExpectedIfSame(s.writers, s'.writers, start);
    }
  }

  lemma DoKeepsFold(s: Sys, step: Step, totalSize: nat, plan: Plan)
    requires Enabled(s, step) && Sane(s, plan) && FoldInv(s)
    ensures FoldInv(Do(s, step, totalSize))
  {
    var s' := Do(s, step, totalSize);
    match step {
      case Scribble(w, k, at, data) => WriteKeepsFold(s, s', w, k, at, data);
      case Place(w) =>
        var k := s.writers[w].placed;
        var p := s.writers[w].pieces[k];
        WriteKeepsFold(s, s', w, k, p.start, p.data);
      case Signal(w) => SignalKeepsFold(s, w, totalSize);
      case Receive => ReceiveKeepsFold(s, totalSize);
      case Read(n) => ReadKeepsFold(s, n, totalSize);
      case Close => assert Stale(s') == Stale(s);
      case _ =>
    }
  }

  /** Nobody is left to write, so nothing can be stale. */
  lemma SettledNotStale(s: Sys, plan: Plan)
    requires Sane(s, plan) && AllSignalled(s) && s.channel == [] && s.hasher.pending == map[]
    ensures !Stale(s)
  {
    assert forall i :: 0 <= i < |s.writers| ==> !UnderWay(s.writers[i]);
  }

  /** A verdict is the digest of the first `totalSize` bytes, and the hasher consumed
      everything it was told. */
  ghost predicate VerdictInv(s: Sys, totalSize: nat) {
    s.outcome.Hashed? ==>
      && |s.hasher.folded| == totalSize && s.hasher.pending == map[]
      && s.outcome.digest == Sha256(s.hasher.folded)
  }

  lemma DoKeepsVerdict(s: Sys, step: Step, totalSize: nat, plan: Plan)
    requires Enabled(s, step) && Sane(s, plan) && VerdictInv(s, totalSize)
    ensures VerdictInv(Do(s, step, totalSize), totalSize)
  {
  }

  lemma {:induction false} RunFolds(plan: Plan, totalSize: nat, run: seq<Step>)
    requires After(plan, totalSize, run).Some?
    ensures FoldInv(After(plan, totalSize, run).value) && VerdictInv(After(plan, totalSize, run).value, totalSize)
  {
    if run != [] {
      var init := run[..|run| - 1];
      RunFolds(plan, totalSize, init);
      RunIsSane(plan, totalSize, init);
      DoKeepsFold(After(plan, totalSize, init).value, run[|run| - 1], totalSize, plan);
      DoKeepsVerdict(After(plan, totalSize, init).value, run[|run| - 1], totalSize, plan);
    }
  }

  /** Soundness. Whatever the plan, overlapping, repeated or out of bounds, and however the
      tasks, their failed attempts, their signals and the hasher interleave, a verdict is the
      digest of the first `totalSize` bytes of the final file. */
  lemma VerdictIsDigestOfFile(plan: Plan, totalSize: nat, run: seq<Step>)
    requires After(plan, totalSize, run).Some?
    requires After(plan, totalSize, run).value.outcome.Hashed?
    ensures var s := After(plan, totalSize, run).value;
            && totalSize <= |s.file|
            && s.outcome.digest == Sha256(s.file[..totalSize])
  {
    RunFolds(plan, totalSize, run);
    RunIsSane(plan, totalSize, run);
    var s := After(plan, totalSize, run).value;
    SettledNotStale(s, plan);
    assert s.hasher.folded == s.file[..totalSize];
  }

  predicate Fits(p: Piece, bound: nat) {
    p.data == [] || p.start + |p.data| <= bound
  }

  /** No non-empty piece ends past `bound`. */
  predicate InBounds(plan: Plan, bound: nat) {
    forall i, j :: 0 <= i < |plan| && 0 <= j < |plan[i]| ==> Fits(plan[i][j], bound)
  }

  /** The file is long enough for every piece placed so far, and longer than `bound` only if
      some piece is. */
  predicate LengthInv(s: Sys, plan: Plan, totalSize: nat, bound: nat) {
    && totalSize <= |s.file|
    && (totalSize <= bound && InBounds(plan, bound) ==> |s.file| <= bound)
    && (forall i, j :: 0 <= i < |s.writers| && 0 <= j < s.writers[i].placed && j < |s.writers[i].pieces| ==>
          Fits(s.writers[i].pieces[j], |s.file|))
  }

  /** A write of part of piece `k` of task `w`, after which `placed` of its pieces are there. */
  lemma WriteKeepsLength(s: Sys, s': Sys, plan: Plan, totalSize: nat, bound: nat,
                         w: nat, k: nat, at: nat, data: Bytes, placed: nat)
    requires KeepsPlan(s, plan) && LengthInv(s, plan, totalSize, bound)
    requires w < |plan| && k < |plan[w]| && plan[w][k].start <= at
    requires at + |data| <= plan[w][k].start + |plan[w][k].data|
    requires s'.file == WriteAt(s.file, at, data)
    requires s'.writers == s.writers[w := s.writers[w].(placed := placed)]
    requires placed == 0 || (placed == k + 1 == s.writers[w].placed + 1 && Piece(at, data) == plan[w][k])
    ensures LengthInv(s', plan, totalSize, bound)
  {
    assert InBounds(plan, bound) ==> Fits(plan[w][k], bound);
    assert |s'.file| >= |s.file|;
    forall i, j | 0 <= i < |s'.writers| && 0 <= j < s'.writers[i].placed && j < |s'.writers[i].pieces|
      ensures Fits(s'.writers[i].pieces[j], |s'.file|)
    {
      if i != w || j < s.writers[w].placed {
        assert Fits(s.writers[i].pieces[j], |s.file|);
      }
    }
  }

  lemma DoKeepsLength(s: Sys, step: Step, totalSize: nat, plan: Plan, bound: nat)
    requires Enabled(s, step) && KeepsPlan(s, plan) && LengthInv(s, plan, totalSize, bound)
    ensures LengthInv(Do(s, step, totalSize), plan, totalSize, bound)
  {
    var s' := Do(s, step, totalSize);
    match step {
      case Scribble(w, k, at, data) => WriteKeepsLength(s, s', plan, totalSize, bound, w, k, at, data, 0);
      case Place(w) =>
        var k := s.writers[w].placed;
        WriteKeepsLength(s, s', plan, totalSize, bound, w, k, plan[w][k].start, plan[w][k].data, k + 1);
      case _ =>
    }
  }

  lemma {:induction false} RunLength(plan: Plan, totalSize: nat, run: seq<Step>, bound: nat)
    requires After(plan, totalSize, run).Some?
    ensures LengthInv(After(plan, totalSize, run).value, plan, totalSize, bound)
  {
    if run != [] {
      var init := run[..|run| - 1];
      RunLength(plan, totalSize, init, bound);
      RunIsSane(plan, totalSize, init);
      DoKeepsLength(After(plan, totalSize, init).value, run[|run| - 1], totalSize, plan, bound);
    }
  }

  /** The file ends up `totalSize` long exactly when every piece is in bounds. */
  lemma FinalLength(plan: Plan, totalSize: nat, run: seq<Step>)
    requires After(plan, totalSize, run).Some?
    requires AllSignalled(After(plan, totalSize, run).value)
    ensures |After(plan, totalSize, run).value.file| == totalSize <==> InBounds(plan, totalSize)
  {
    RunLength(plan, totalSize, run, totalSize);
    RunIsSane(plan, totalSize, run);
    var s := After(plan, totalSize, run).value;
    if |s.file| == totalSize {
      forall i, j | 0 <= i < |plan| && 0 <= j < |plan[i]|
        ensures Fits(plan[i][j], totalSize)
      {
        assert s.writers[i].pieces[j] == plan[i][j];
      }
    }
  }

  /** The fast path and the full re-read give the same answer exactly when the plan is in
      bounds: the guard that plan validation applies before any byte is fetched. */
  lemma SameVerdictAsReread(plan: Plan, totalSize: nat, run: seq<Step>)
    requires After(plan, totalSize, run).Some?
    requires After(plan, totalSize, run).value.outcome.Hashed?
    ensures var s := After(plan, totalSize, run).value;
            s.outcome.digest == Sha256(s.file) <==> InBounds(plan, totalSize)
  {
    var s := After(plan, totalSize, run).value;
    VerdictIsDigestOfFile(plan, totalSize, run);
    RunIsSane(plan, totalSize, run);
    FinalLength(plan, totalSize, run);
    if s.outcome.digest == Sha256(s.file) {
      Sha256Injective(s.file, s.file[..totalSize]);
    }
    if |s.file| == totalSize {
      assert s.file[..totalSize] == s.file;
    }
  }

  predicate MarkInv(s: Sys, bound: nat) {
    s.hasher.watermark <= bound && ExtentsFit(s.hasher.pending, bound)
  }

  lemma ReceiveKeepsMark(s: Sys, plan: Plan, totalSize: nat, bound: nat)
    requires KeepsPlan(s, plan) && InBounds(plan, bound) && MarkInv(s, bound) && Enabled(s, Step.Receive)
    ensures MarkInv(Do(s, Step.Receive, totalSize), bound)
  {
    var w := s.channel[0];
    var extents := ExtentsOf(s.writers[w].pieces);
    forall e | e in extents
      ensures e.size == 0 || e.start + e.size <= bound
    {
      var j :| 0 <= j < |extents| && extents[j] == e;
      assert Fits(plan[w][j], bound);
    }
    InsertFits(s.hasher.pending, extents, bound);
    AdvanceFits(Insert(s.hasher.pending, extents), s.hasher.watermark, bound);
  }

  lemma {:induction false} RunMark(plan: Plan, totalSize: nat, run: seq<Step>, bound: nat)
    requires After(plan, totalSize, run).Some? && InBounds(plan, bound)
    ensures MarkInv(After(plan, totalSize, run).value, bound)
  {
    if run != [] {
      var init := run[..|run| - 1];
      RunMark(plan, totalSize, init, bound);
      RunIsSane(plan, totalSize, init);
      if run[|run| - 1].Receive? {
        ReceiveKeepsMark(After(plan, totalSize, init).value, plan, totalSize, bound);
      }
    }
  }

  /** The watermark stays within the file whenever the plan does. */
  lemma WatermarkInBounds(plan: Plan, totalSize: nat, run: seq<Step>)
    requires After(plan, totalSize, run).Some? && InBounds(plan, totalSize)
    ensures After(plan, totalSize, run).value.hasher.watermark <= totalSize
  {
    RunMark(plan, totalSize, run, totalSize);
  }

  /** An extent from offset 0 that is too long moves it past the end at once: nothing in the
      hasher itself bounds it. */
  lemma WatermarkPassesEnd(totalSize: nat)
    requires totalSize < U64_MAX
    ensures var h := IncrementalHash.Receive(START, [Extent(0, totalSize + 1)]);
            h.Some? && h.value.watermark == totalSize + 1
  {
    var pending := map[0 := totalSize + 1];
    InsertOne(map[], Extent(0, totalSize + 1));
    assert pending - {0} == map[];
    assert Advance(map[], totalSize + 1) == Some((map[], totalSize + 1));
  }
}
