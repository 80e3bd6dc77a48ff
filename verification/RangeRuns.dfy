/** The chunk tasks of a Range download with every flush on its own, in any order with those of the
    other tasks (src/chunked_downloader/download.rs), and that each such execution is a run of the
    state machine. */
module RangeRuns {
  import opened Basics
  import opened Text
  import opened Retry
  import opened LocalFile
  import opened ParallelWrite
  import opened AssembledFile
  import opened HasherSoundness
  import opened HasherCompleteness
  import FD = FileDigest
  import FullRuns
  import RR = RangeRebuild

  /** The machine, and what each task's current attempt has flushed so far. A task's piece is the body
      that it accepts in the end. */
  datatype Ranges = Ranges(sys: Sys, flushed: seq<Bytes>)

  datatype Act =
    | Flushed(w: nat, data: Bytes)   // the next bytes of some body reach the disk, or some of them
    | Restarted(w: nat)              // the attempt fails
    | Landed(w: nat)                 // everything is flushed, and the body is accepted
    | Other(step: Step)              // a signal, or the hasher

  /** One piece a task. */
  predicate OneEach(plan: Plan) {
    forall w :: 0 <= w < |plan| ==> |plan[w]| == 1
  }

  predicate Working(r: Ranges, plan: Plan, w: nat) {
    && w < |plan| && w < |r.sys.writers| && w < |r.flushed| && |plan[w]| == 1
    && !r.sys.writers[w].signalled && r.sys.writers[w].placed == 0
  }

  predicate CanAct(r: Ranges, plan: Plan, a: Act) {
    match a
    case Flushed(w, data) => Working(r, plan, w) && |r.flushed[w]| + |data| <= |plan[w][0].data|
    case Restarted(w) => Working(r, plan, w)
    case Landed(w) => Working(r, plan, w) && r.flushed[w] == plan[w][0].data
    case Other(step) => !step.Place? && !step.Scribble? && Enabled(r.sys, step)
  }

  function Perform(r: Ranges, plan: Plan, a: Act, totalSize: nat): Ranges
    requires CanAct(r, plan, a)
  {
    match a
    case Flushed(w, data) =>
      Ranges(r.sys.(file := WriteAt(r.sys.file, plan[w][0].start + |r.flushed[w]|, data)),
             r.flushed[w := r.flushed[w] + data])
    case Restarted(w) => r.(flushed := r.flushed[w := []])
    case Landed(w) => r.(sys := r.sys.(writers := r.sys.writers[w := r.sys.writers[w].(placed := 1)]))
    case Other(step) => r.(sys := Do(r.sys, step, totalSize))
  }

  /** The state after some acts from the start; `None` when some act was not possible. */
  function Execute(plan: Plan, totalSize: nat, acts: seq<Act>): Option<Ranges> {
    if acts == [] then
      Some(Ranges(Start(plan, totalSize), seq(|plan|, _ => [])))
    else
      match Execute(plan, totalSize, acts[..|acts| - 1])
      case None => None
      case Some(r) =>
        if CanAct(r, plan, acts[|acts| - 1]) then Some(Perform(r, plan, acts[|acts| - 1], totalSize)) else None
  }

  /** What an attempt has flushed is where it belongs, and within its range. */
  predicate FlushedThere(r: Ranges, plan: Plan, w: nat)
    requires w < |plan| && w < |r.flushed| && |plan[w]| == 1
  {
    && |r.flushed[w]| <= |plan[w][0].data|
    && There(r.sys.file, Piece(plan[w][0].start, r.flushed[w]))
  }

  predicate AllThere(r: Ranges, plan: Plan)
    requires OneEach(plan)
  {
    |r.flushed| == |plan| && forall w :: 0 <= w < |plan| ==> FlushedThere(r, plan, w)
  }

  lemma FlushMore(file: Bytes, at: nat, flushed: Bytes, data: Bytes)
    requires There(file, Piece(at, flushed))
    ensures There(WriteAt(file, at + |flushed|, data), Piece(at, flushed + data))
  {
    var after := WriteAt(file, at + |flushed|, data);
    if data == [] {
      assert flushed + data == flushed;
    } else {
      forall p | at <= p < at + |flushed + data|
        ensures after[p] == (flushed + data)[p - at]
      {
        if p < at + |flushed| {
          assert file[at..at + |flushed|][p - at] == file[p];
        }
      }
      assert after[at..at + |flushed + data|] == flushed + data;
    }
  }

  /** A flush of one task keeps what the others have flushed. */
  lemma FlushKeepsThere(r: Ranges, plan: Plan, w: nat, data: Bytes, totalSize: nat)
    requires OneEach(plan) && Disjoint(plan) && AllThere(r, plan) && CanAct(r, plan, Flushed(w, data))
    ensures AllThere(Perform(r, plan, Flushed(w, data), totalSize), plan)
  {
    var after := Perform(r, plan, Flushed(w, data), totalSize);
    var at := plan[w][0].start + |r.flushed[w]|;
    assert FlushedThere(r, plan, w);
    hide WriteAt, There;
    forall v | 0 <= v < |plan|
      ensures FlushedThere(after, plan, v)
    {
      assert FlushedThere(r, plan, v);
      if v == w {
        FlushMore(r.sys.file, plan[w][0].start, r.flushed[w], data);
      } else {
        assert Apart(plan[v][0], plan[w][0]);
        WriteInside(r.sys.file, at, data, Piece(plan[v][0].start, r.flushed[v]));
      }
    }
  }

  lemma NothingThere(file: Bytes, at: nat)
    ensures There(file, Piece(at, []))
  {
  }

  lemma ActKeepsThere(r: Ranges, plan: Plan, a: Act, totalSize: nat)
    requires OneEach(plan) && Disjoint(plan) && AllThere(r, plan) && CanAct(r, plan, a)
    ensures AllThere(Perform(r, plan, a, totalSize), plan)
  {
    match a {
      case Flushed(w, data) => FlushKeepsThere(r, plan, w, data, totalSize);
      case _ =>
        var after := Perform(r, plan, a, totalSize);
        assert after.sys.file == r.sys.file;
        forall v | 0 <= v < |plan|
          ensures FlushedThere(after, plan, v)
        {
          assert FlushedThere(r, plan, v);
          NothingThere(r.sys.file, plan[v][0].start);
        }
    }
  }

  /** Writing what is there already changes nothing. */
  lemma PlaceAgain(file: Bytes, p: Piece)
    requires There(file, p)
    ensures WriteAt(file, p.start, p.data) == file
  {
    if p.data != [] {
      var after := WriteAt(file, p.start, p.data);
      forall b | 0 <= b < |file|
        ensures after[b] == file[b]
      {
        if p.start <= b < p.start + |p.data| {
          assert file[p.start..p.start + |p.data|][b - p.start] == file[b];
        }
      }
      assert |after| == |file|;
    }
  }

  /** A flush is a scribble inside the range, and an accepted body is the placing of the piece. */
  lemma ActIsStep(r: Ranges, plan: Plan, a: Act, totalSize: nat) returns (steps: seq<Step>)
    requires OneEach(plan) && AllThere(r, plan) && KeepsPlan(r.sys, plan) && CanAct(r, plan, a)
    ensures steps == [] ==> Perform(r, plan, a, totalSize).sys == r.sys
    ensures steps != [] ==> steps == [steps[0]] && Enabled(r.sys, steps[0])
                            && Do(r.sys, steps[0], totalSize) == Perform(r, plan, a, totalSize).sys
  {
    hide WriteAt, There;
    match a {
      case Flushed(w, data) =>
        steps := [Scribble(w, 0, plan[w][0].start + |r.flushed[w]|, data)];
        assert r.sys.writers[w := r.sys.writers[w].(placed := 0)] == r.sys.writers;
      case Restarted(_) =>
        steps := [];
      case Landed(w) =>
        steps := [Place(w)];
        assert FlushedThere(r, plan, w);
        PlaceAgain(r.sys.file, plan[w][0]);
      case Other(step) =>
        steps := [step];
    }
  }

  /** Whatever bodies the servers sent, in however many flushes, and however the flushes of all tasks
      and all their attempts fall between one another: the execution is a run of the machine for the
      plan made of the bodies accepted in the end. */
  lemma {:induction false} ExecutionIsRun(plan: Plan, totalSize: nat, acts: seq<Act>) returns (run: seq<Step>)
    requires OneEach(plan) && Disjoint(plan) && Execute(plan, totalSize, acts).Some?
    ensures After(plan, totalSize, run) == Some(Execute(plan, totalSize, acts).value.sys)
    ensures AllThere(Execute(plan, totalSize, acts).value, plan)
  {
    if acts == [] {
      run := [];
      forall w | 0 <= w < |plan|
        ensures There(Zeros(totalSize), Piece(plan[w][0].start, []))
      {
        NothingThere(Zeros(totalSize), plan[w][0].start);
      }
    } else {
      var init, a := acts[..|acts| - 1], acts[|acts| - 1];
      var before := ExecutionIsRun(plan, totalSize, init);
      RunIsSane(plan, totalSize, before);
      hide After, CanAct, Perform, Do, Enabled, ChannelOk, Settled, KeepsPlan, AllThere, Disjoint, OneEach;
      var r := Execute(plan, totalSize, init).value;
      var steps := ActIsStep(r, plan, a, totalSize);
      ActKeepsThere(r, plan, a, totalSize);
      if steps == [] {
        run := before;
      } else {
        FullRuns.OneMore(plan, totalSize, before, steps[0]);
        run := before + [steps[0]];
      }
    }
  }

  /** One flush of a buffered writer is one act, in whatever state the other tasks have left the file:
      all that was pending, or a first part of it when the disk fails. */
  lemma FlushIsAct(r: Ranges, plan: Plan, w: nat, pending: Bytes, after: Bytes, ok: bool, totalSize: nat)
    returns (a: Act)
    requires Working(r, plan, w) && |r.flushed[w]| + |pending| <= |plan[w][0].data|
    requires var at := plan[w][0].start + |r.flushed[w]|;
             && (ok ==> after == WriteAt(r.sys.file, at, pending))
             && (!ok ==> CutShort(r.sys.file, after, at, pending))
    ensures CanAct(r, plan, a) && a.Flushed? && a.w == w && (ok ==> a.data == pending)
    ensures Perform(r, plan, a, totalSize).sys == r.sys.(file := after)
  {
    if ok {
      a := Flushed(w, pending);
    } else {
      var k: nat :| k <= |pending| && after == WriteAt(r.sys.file, plan[w][0].start + |r.flushed[w]|, pending[..k]);
      a := Flushed(w, pending[..k]);
    }
  }

  /** A plan with the chunks of `blob`, filled with the bodies that the tasks accepted, right or wrong. */
  predicate ChunksOf(plan: Plan, blob: Bytes, chunkSize: nat)
    requires RR.Tileable(blob, chunkSize)
  {
    var right := RR.DownloadPlan(blob, chunkSize);
    && |plan| == |right| && OneEach(plan) && OneEach(right)
    && forall w :: 0 <= w < |plan| ==>
         plan[w][0].start == right[w][0].start && |plan[w][0].data| == |right[w][0].data|
  }

  lemma RightPlan(blob: Bytes, chunkSize: nat)
    requires RR.Tileable(blob, chunkSize)
    ensures var right := RR.DownloadPlan(blob, chunkSize);
            OneEach(right) && Disjoint(right) && InBounds(right, |blob|)
  {
    var right := RR.DownloadPlan(blob, chunkSize);
    RR.ChunksTile(blob, chunkSize);
    TilingCutsUp(right, RR.SizeFrom(|blob|, chunkSize), |blob|);
    forall w | 0 <= w < |right|
      ensures |right[w]| == 1
    {
      RR.PlanPiece(blob, chunkSize, w);
    }
  }

  lemma SameChunks(plan: Plan, blob: Bytes, chunkSize: nat)
    requires RR.Tileable(blob, chunkSize) && ChunksOf(plan, blob, chunkSize)
    ensures Disjoint(plan) && InBounds(plan, |blob|)
  {
    RightPlan(blob, chunkSize);
    var right := RR.DownloadPlan(blob, chunkSize);
    forall i, j | 0 <= i < |plan| && 0 <= j < |plan[i]|
      ensures Fits(plan[i][j], |blob|)
    {
      assert Fits(right[i][0], |blob|);
    }
    forall i, j, k, l |
      0 <= i < |plan| && 0 <= j < |plan[i]| && 0 <= k < |plan| && 0 <= l < |plan[k]| && (i != k || j != l)
      ensures Apart(plan[i][j], plan[k][l])
    {
      assert Apart(right[i][0], right[k][0]);
    }
  }

  /** However the download code ran, and whatever bodies of the right length it accepted, once it has
      come to an end verification passes exactly when the file is the blob; and if every accepted body
      was the blob's own slice, it is. */
  lemma DownloadedIsBlob(plan: Plan, blob: Bytes, chunkSize: nat, acts: seq<Act>, failure: Option<CoreError>)
    requires RR.Tileable(blob, chunkSize) && ChunksOf(plan, blob, chunkSize)
    requires Execute(plan, |blob|, acts).Some? && Ended(Execute(plan, |blob|, acts).value.sys)
    ensures var s := Execute(plan, |blob|, acts).value.sys;
            && FD.Verified(FD.TaskOf(s), s.file, Sha256(blob), failure)
               == (if s.outcome == GaveUp && failure.Some? then Err(failure.value)
                   else if s.file == blob then Ok(Sha256(blob))
                   else Err(Integrity))
            && (plan == RR.DownloadPlan(blob, chunkSize) ==> s.file == blob)
  {
    SameChunks(plan, blob, chunkSize);
    hide Execute, After, RR.Tileable, Disjoint, InBounds;
    var run := ExecutionIsRun(plan, |blob|, acts);
    FD.VerifiedIsTrue(plan, |blob|, run, Sha256(blob), failure);
    var s := Execute(plan, |blob|, acts).value.sys;
    if Sha256(s.file) == Sha256(blob) {
      Sha256Injective(s.file, blob);
    }
    if plan == RR.DownloadPlan(blob, chunkSize) {
      RR.ChunksTile(blob, chunkSize);
      TilingRebuilds(plan, RR.SizeFrom(|blob|, chunkSize), blob, run);
    }
  }
}
