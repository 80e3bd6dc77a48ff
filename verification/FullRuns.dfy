/** Runs that come to an end: any run of any plan can be completed, and a plan whose pieces fit a
    64-bit file has a run in which the hasher takes every signal. */
module FullRuns {
  import opened Basics
  import opened IncrementalHash
  import opened ParallelWrite
  import opened HasherSoundness

  /** The file after the pieces are placed, in order. */
  function PlacedAll(file: Bytes, pieces: seq<Piece>): Bytes {
    if pieces == [] then
      file
    else
      var last := pieces[|pieces| - 1];
      WriteAt(PlacedAll(file, pieces[..|pieces| - 1]), last.start, last.data)
  }

  function PlaceSteps(w: nat, n: nat): (run: seq<Step>)
    ensures |run| == n
  {
    seq(n, _ => Place(w))
  }

  /** The machine after `run` and one more step. */
  lemma OneMore(plan: Plan, totalSize: nat, run: seq<Step>, step: Step)
    requires After(plan, totalSize, run).Some? && Enabled(After(plan, totalSize, run).value, step)
    ensures After(plan, totalSize, run + [step]) == Some(Do(After(plan, totalSize, run).value, step, totalSize))
  {
    assert (run + [step])[..|run|] == run;
  }

  /** Task `w` is at work, with `placed` pieces of its attempt in place. */
  predicate AtWork(s: Sys, plan: Plan, w: nat, placed: nat) {
    && KeepsPlan(s, plan) && w < |plan|
    && !s.writers[w].signalled && s.writers[w].placed == placed
  }

  /** The machine once task `w` has placed the first `n` pieces of its attempt. */
  function Placing(s: Sys, plan: Plan, w: nat, n: nat): Sys
    requires w < |plan| && w < |s.writers| && n <= |plan[w]|
  {
    s.(file := PlacedAll(s.file, plan[w][..n]), writers := s.writers[w := s.writers[w].(placed := n)])
  }

  lemma PlaceNext(s: Sys, plan: Plan, totalSize: nat, w: nat, n: nat)
    requires AtWork(s, plan, w, 0) && n < |plan[w]|
    ensures Enabled(Placing(s, plan, w, n), Place(w))
    ensures Do(Placing(s, plan, w, n), Place(w), totalSize) == Placing(s, plan, w, n + 1)
  {
    assert plan[w][..n + 1][..n] == plan[w][..n];
  }

  lemma PlacingAtWork(s: Sys, plan: Plan, w: nat, n: nat)
    requires AtWork(s, plan, w, 0) && n <= |plan[w]|
    ensures AtWork(Placing(s, plan, w, n), plan, w, n)
    ensures Placing(s, plan, w, 0) == s
  {
    assert plan[w][..0] == [] && s.writers[w := s.writers[w].(placed := 0)] == s.writers;
  }

  lemma {:induction false} PlaceMany(plan: Plan, totalSize: nat, run: seq<Step>, w: nat, n: nat)
    requires After(plan, totalSize, run).Some? && AtWork(After(plan, totalSize, run).value, plan, w, 0)
    requires n <= |plan[w]|
    ensures After(plan, totalSize, run + PlaceSteps(w, n)) == Some(Placing(After(plan, totalSize, run).value, plan, w, n))
    ensures AtWork(Placing(After(plan, totalSize, run).value, plan, w, n), plan, w, n)
  {
    hide After, Placing, KeepsPlan;
    var s := After(plan, totalSize, run).value;
    PlacingAtWork(s, plan, w, n);
    if n == 0 {
      assert run + PlaceSteps(w, 0) == run;
    } else {
      PlaceMany(plan, totalSize, run, w, n - 1);
      var before := run + PlaceSteps(w, n - 1);
      assert run + PlaceSteps(w, n) == before + [Place(w)];
      PlaceNext(s, plan, totalSize, w, n - 1);
      OneMore(plan, totalSize, before, Place(w));
    }
  }

  function UpTo(n: nat): (r: seq<nat>)
    ensures |r| == n
  {
    seq(n, i => i)
  }

  function From(n: nat, total: nat): (r: seq<nat>)
    requires n <= total
    ensures |r| == total - n
  {
    seq(total - n, i => n + i)
  }

  /** The first `n` tasks have placed everything and signalled; the others have not begun, and
      the hasher has taken nothing. */
  predicate Sent(s: Sys, plan: Plan, n: nat) {
    && KeepsPlan(s, plan) && n <= |plan|
    && s.channel == UpTo(n) && s.hasher == START && s.outcome == Hashing && !s.ioFailed
    && (forall i :: 0 <= i < |plan| ==> s.writers[i].signalled == (i < n) && !s.writers[i].received)
    && (forall i :: n <= i < |plan| ==> s.writers[i].placed == 0)
  }

  lemma {:induction false} SendTasks(plan: Plan, totalSize: nat, n: nat) returns (run: seq<Step>)
    requires n <= |plan|
    ensures After(plan, totalSize, run).Some? && Sent(After(plan, totalSize, run).value, plan, n)
  {
    if n == 0 {
      run := [];
    } else {
      var w := n - 1;
      var before := SendTasks(plan, totalSize, w);
      PlaceMany(plan, totalSize, before, w, |plan[w]|);
      var placed := before + PlaceSteps(w, |plan[w]|);
      run := placed + [Signal(w)];
      OneMore(plan, totalSize, placed, Signal(w));
      SignalSends(After(plan, totalSize, before).value, After(plan, totalSize, placed).value, plan, totalSize, w);
    }
  }

  lemma SignalSends(s: Sys, placed: Sys, plan: Plan, totalSize: nat, w: nat)
    requires w < |plan| && Sent(s, plan, w)
    requires placed == s.(file := placed.file, writers := s.writers[w := s.writers[w].(placed := |plan[w]|)])
    ensures Enabled(placed, Signal(w)) && Sent(Do(placed, Signal(w), totalSize), plan, w + 1)
  {
    assert UpTo(w) + [w] == UpTo(w + 1);
  }

  /** No entry of the buffer ends past what is on disk. */
  predicate MarkOnDisk(s: Sys) {
    MarkInv(s, |s.file|)
  }

  lemma ReceiveKeepsOnDisk(s: Sys, plan: Plan, totalSize: nat)
    requires KeepsPlan(s, plan) && MarkOnDisk(s) && Enabled(s, Step.Receive) && s.writers[s.channel[0]].signalled
    requires forall j :: 0 <= j < |plan[s.channel[0]]| ==> Fits(plan[s.channel[0]][j], |s.file|)
    ensures MarkOnDisk(Do(s, Step.Receive, totalSize))
  {
    var w := s.channel[0];
    var extents := ExtentsOf(s.writers[w].pieces);
    forall e | e in extents
      ensures e.size == 0 || e.start + e.size <= |s.file|
    {
      var j :| 0 <= j < |extents| && extents[j] == e;
      assert Fits(plan[w][j], |s.file|);
    }
    InsertFits(s.hasher.pending, extents, |s.file|);
    AdvanceFits(Insert(s.hasher.pending, extents), s.hasher.watermark, |s.file|);
  }

  /** What a task has signalled is on disk, so the watermark never passes the end of the file. */
  lemma {:induction false} RunMarkOnDisk(plan: Plan, totalSize: nat, run: seq<Step>)
    requires After(plan, totalSize, run).Some?
    ensures MarkOnDisk(After(plan, totalSize, run).value)
  {
    if run != [] {
      var init, step := run[..|run| - 1], run[|run| - 1];
      var s := After(plan, totalSize, init).value;
      RunMarkOnDisk(plan, totalSize, init);
      RunIsSane(plan, totalSize, init);
      RunLength(plan, totalSize, init, totalSize);
      if step.Receive? {
        assert s.channel[0] in s.channel && UnderWay(s.writers[s.channel[0]]);
        forall j | 0 <= j < |plan[s.channel[0]]|
          ensures Fits(plan[s.channel[0]][j], |s.file|)
        {
          assert Fits(s.writers[s.channel[0]].pieces[j], |s.file|);
        }
        ReceiveKeepsOnDisk(s, plan, totalSize);
      }
    }
  }

  /** Advancing never overflows when every entry fits 64 bits. */
  lemma {:induction false} AdvanceFits64(pending: map<nat, nat>, watermark: nat)
    requires ExtentsFit(pending, U64_MAX) && watermark <= U64_MAX
    ensures Advance(pending, watermark).Some?
    decreases pending.Keys
  {
    if watermark in pending {
      AdvanceFits64(pending - {watermark}, watermark + pending[watermark]);
    }
  }

  /** Every task has signalled, and the hasher has taken the first `n` signals and caught up. */
  predicate Taken(s: Sys, plan: Plan, n: nat) {
    && KeepsPlan(s, plan) && n <= |plan|
    && s.channel == From(n, |plan|) && s.outcome == Hashing && !s.ioFailed
    && |s.hasher.folded| == s.hasher.watermark
    && (forall i :: 0 <= i < |plan| ==> s.writers[i].signalled && s.writers[i].received == (i < n))
  }

  lemma ReceiveTakes(s: Sys, plan: Plan, totalSize: nat, n: nat)
    requires Taken(s, plan, n) && n < |plan| && MarkInv(s, U64_MAX) && InBounds(plan, U64_MAX)
    ensures Enabled(s, Step.Receive)
    ensures var s' := Do(s, Step.Receive, totalSize);
            && s'.file == s.file && s'.outcome == Hashing
            && s'.hasher.folded == s.hasher.folded && s'.hasher.watermark >= s.hasher.watermark
            && Taken(s'.(hasher := s'.hasher.(watermark := |s'.hasher.folded|)), plan, n + 1)
  {
    var pieces := s.writers[n].pieces;
    ReceiveKeepsMark(s, plan, totalSize, U64_MAX);
    forall e | e in ExtentsOf(pieces)
      ensures e.size == 0 || e.start + e.size <= U64_MAX
    {
      var j :| 0 <= j < |pieces| && ExtentsOf(pieces)[j] == e;
      assert Fits(plan[n][j], U64_MAX);
    }
    InsertFits(s.hasher.pending, ExtentsOf(pieces), U64_MAX);
    AdvanceFits64(Insert(s.hasher.pending, ExtentsOf(pieces)), s.hasher.watermark);
    AdvanceGrows(Insert(s.hasher.pending, ExtentsOf(pieces)), s.hasher.watermark);
    assert From(n, |plan|)[1..] == From(n + 1, |plan|);
  }

  lemma {:induction false} TakeSignals(plan: Plan, totalSize: nat, n: nat) returns (run: seq<Step>)
    requires n <= |plan| && InBounds(plan, U64_MAX)
    ensures After(plan, totalSize, run).Some? && Taken(After(plan, totalSize, run).value, plan, n)
  {
    if n == 0 {
      run := SendTasks(plan, totalSize, |plan|);
      assert UpTo(|plan|) == From(0, |plan|);
    } else {
      var before := TakeSignals(plan, totalSize, n - 1);
      run := TakeOne(plan, totalSize, before, n - 1);
    }
  }

  lemma TakeOne(plan: Plan, totalSize: nat, before: seq<Step>, n: nat) returns (run: seq<Step>)
    requires n < |plan| && InBounds(plan, U64_MAX)
    requires After(plan, totalSize, before).Some? && Taken(After(plan, totalSize, before).value, plan, n)
    ensures After(plan, totalSize, run).Some? && Taken(After(plan, totalSize, run).value, plan, n + 1)
  {
    RunMark(plan, totalSize, before, U64_MAX);
    ReceiveTakes(After(plan, totalSize, before).value, plan, totalSize, n);
    OneMore(plan, totalSize, before, Step.Receive);
    run := before + [Step.Receive];
    RunMarkOnDisk(plan, totalSize, run);
    var s := After(plan, totalSize, run).value;
    if s.hasher.watermark > |s.hasher.folded| {
      var step := Read(s.hasher.watermark - |s.hasher.folded|);
      OneMore(plan, totalSize, run, step);
      run := run + [step];
    }
  }

  /** A run has come to an end: the tasks are done and the hasher has reached an outcome. */
  predicate Complete(plan: Plan, totalSize: nat, run: seq<Step>) {
    After(plan, totalSize, run).Some? && Ended(After(plan, totalSize, run).value)
  }

  /** Any run can be completed, from wherever it is, by steps that get on. */
  lemma RunCanEnd(plan: Plan, totalSize: nat, run: seq<Step>) returns (more: seq<Step>)
    requires After(plan, totalSize, run).Some?
    ensures Complete(plan, totalSize, run + more)
    ensures forall step :: step in more ==> !step.IoError? && !step.Scribble?
  {
    more := EndFrom(plan, totalSize, run, After(plan, totalSize, run).value);
  }

  lemma {:induction false} EndFrom(plan: Plan, totalSize: nat, run: seq<Step>, s: Sys) returns (more: seq<Step>)
    requires After(plan, totalSize, run) == Some(s)
    ensures Complete(plan, totalSize, run + more)
    ensures forall step :: step in more ==> !step.IoError? && !step.Scribble?
    decreases TasksLeft(s.writers), SignalsLeft(s.writers), HasherLeft(s)
  {
    hide After, Sane, Do, Enabled, TasksLeft, SignalsLeft, HasherLeft, Ended;
    if Ended(s) {
      more := [];
      assert run + more == run;
    } else {
      NeverStuck(plan, totalSize, run);
      var step :| GetsOn(s, step);
      RunIsSane(plan, totalSize, run);
      GettingOnEnds(s, step, totalSize, plan);
      OneMore(plan, totalSize, run, step);
      var rest := EndFrom(plan, totalSize, run + [step], Do(s, step, totalSize));
      more := [step] + rest;
      assert run + more == run + [step] + rest;
    }
  }

  lemma {:induction false} NoFailedRead(plan: Plan, totalSize: nat, run: seq<Step>)
    requires After(plan, totalSize, run).Some? && forall step :: step in run ==> !step.IoError?
    ensures !After(plan, totalSize, run).value.ioFailed
  {
    if run != [] {
      NoFailedRead(plan, totalSize, run[..|run| - 1]);
    }
  }

  /** So every plan has a run that comes to an end without a failed read. */
  lemma SomeRunCompletes(plan: Plan, totalSize: nat) returns (run: seq<Step>)
    ensures Complete(plan, totalSize, run) && !After(plan, totalSize, run).value.ioFailed
  {
    run := RunCanEnd(plan, totalSize, []);
    assert [] + run == run;
    NoFailedRead(plan, totalSize, run);
  }
}
