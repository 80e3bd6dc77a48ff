/** The fetch code refines the state machine: whatever a pack attempt or a chunk attempt does to
    the destination, some steps of its task do the same (src/chunk_fetcher/scatter.rs,
    src/chunked_downloader/download.rs). */
module Attempts {
  import opened Basics
  import opened Text
  import opened Retry
  import opened Packing
  import opened PackStore
  import opened PullPacks
  import opened PullProperties
  import opened ReadBack
  import opened ParallelWrite
  import opened FullRuns
  import PF = PackFetch
  import RD = RangeDownload

  /** The task writes the slices of the file that its targets ask for. */
  predicate TaskOf(file: Bytes, targets: seq<Target>, pieces: seq<Piece>) {
    && |pieces| == |targets|
    && forall j :: 0 <= j < |targets| ==>
         && PF.TargetOf(file, targets[j])
         && pieces[j] == Piece(targets[j].fileOffset, file[targets[j].fileOffset..targets[j].fileOffset + targets[j].size])
  }

  lemma PulledPiece(blobs: Blobs, refs: seq<ChunkRef>, file: Bytes, chunks: seq<Chunk>, sizes: map<Digest, nat>, k: nat, j: nat)
    requires RefsDescribe(blobs, refs, file, chunks) && PullPlan(refs, sizes).Ok? && Pulled(blobs, refs, sizes).Some?
    requires k < |PullPlan(refs, sizes).value| && j < |PullPlan(refs, sizes).value[k].chunks|
    ensures j < |Pulled(blobs, refs, sizes).value[k]|
    ensures var t := PullPlan(refs, sizes).value[k].chunks[j];
            && t.fileOffset + t.size <= |file|
            && Pulled(blobs, refs, sizes).value[k][j] == Piece(t.fileOffset, file[t.fileOffset..t.fileOffset + t.size])
  {
    hide RefsDescribe, PullPlan;
    PieceOf(blobs, refs, file, chunks, sizes, k, j);
  }

  /** The tasks of a pull plan do. */
  lemma PulledIsTask(blobs: Blobs, refs: seq<ChunkRef>, file: Bytes, chunks: seq<Chunk>, sizes: map<Digest, nat>, k: nat)
    requires RefsDescribe(blobs, refs, file, chunks) && PullPlan(refs, sizes).Ok? && Pulled(blobs, refs, sizes).Some?
    requires k < |PullPlan(refs, sizes).value|
    ensures TaskOf(file, PullPlan(refs, sizes).value[k].chunks, Pulled(blobs, refs, sizes).value[k])
  {
    hide RefsDescribe, PullPlan;
    EntryTargets(blobs, refs, file, chunks, sizes, k);
    var targets := PullPlan(refs, sizes).value[k].chunks;
    forall j | 0 <= j < |targets|
      ensures PF.TargetOf(file, targets[j])
      ensures Pulled(blobs, refs, sizes).value[k][j]
              == Piece(targets[j].fileOffset, file[targets[j].fileOffset..targets[j].fileOffset + targets[j].size])
    {
      PulledPiece(blobs, refs, file, chunks, sizes, k, j);
    }
  }

  lemma {:induction false} ScatterIsPlacing(before: Bytes, bytes: Bytes, targets: seq<Target>, file: Bytes, pieces: seq<Piece>)
    requires TaskOf(file, targets, pieces) && PF.AllGood(bytes, targets)
    ensures PF.Scattered(before, bytes, targets) == PlacedAll(before, pieces)
  {
    if targets != [] {
      hide Sha256;
      var n := |targets| - 1;
      ScatterIsPlacing(before, bytes, targets[..n], file, pieces[..n]);
      PF.GoodSliceIsFile(bytes, targets[n], file);
      assert PF.Slice(bytes, targets[n]) == pieces[n].data;
    }
  }

  /** Steps of task `w` that lead from `run` to a file `after`, with `placed` pieces in place. */
  ghost predicate Leads(plan: Plan, totalSize: nat, run: seq<Step>, steps: seq<Step>, w: nat, after: Bytes, placed: nat) {
    && After(plan, totalSize, run + steps).Some?
    && After(plan, totalSize, run + steps).value.file == after
    && AtWork(After(plan, totalSize, run + steps).value, plan, w, placed)
  }

  /** Placing some pieces and then part of one more, which starts the attempt over. */
  lemma PlaceThenScribble(plan: Plan, totalSize: nat, run: seq<Step>, w: nat, n: nat, data: Bytes)
    requires After(plan, totalSize, run).Some? && AtWork(After(plan, totalSize, run).value, plan, w, 0)
    requires n < |plan[w]| && |data| <= |plan[w][n].data|
    ensures Leads(plan, totalSize, run, PlaceSteps(w, n) + [Scribble(w, n, plan[w][n].start, data)], w,
                  WriteAt(PlacedAll(After(plan, totalSize, run).value.file, plan[w][..n]), plan[w][n].start, data), 0)
  {
    PlaceMany(plan, totalSize, run, w, n);
    var before, step := run + PlaceSteps(w, n), Scribble(w, n, plan[w][n].start, data);
    OneMore(plan, totalSize, before, step);
    assert before + [step] == run + (PlaceSteps(w, n) + [step]);
    RunIsSane(plan, totalSize, before + [step]);
  }

  /** Placing some pieces and giving the attempt up. */
  lemma PlaceThenGiveUp(plan: Plan, totalSize: nat, run: seq<Step>, w: nat, n: nat) returns (steps: seq<Step>)
    requires After(plan, totalSize, run).Some? && AtWork(After(plan, totalSize, run).value, plan, w, 0)
    requires n <= |plan[w]|
    ensures Leads(plan, totalSize, run, steps, w, PlacedAll(After(plan, totalSize, run).value.file, plan[w][..n]), 0)
  {
    if n == 0 {
      steps := [];
      assert run + [] == run;
    } else {
      PlaceMany(plan, totalSize, run, w, n);
      var before, step := run + PlaceSteps(w, n), Scribble(w, 0, plan[w][0].start, []);
      steps := PlaceSteps(w, n) + [step];
      OneMore(plan, totalSize, before, step);
      assert before + [step] == run + steps;
      RunIsSane(plan, totalSize, before + [step]);
    }
  }

  /** A pack attempt, whatever bytes came and however it ended, a panic included, does what some
      steps of its task do: it has placed everything if it succeeded, and starts over if it did
      not. */
  lemma PackAttemptIsRun(plan: Plan, totalSize: nat, run: seq<Step>, w: nat, file: Bytes, targets: seq<Target>,
                         bytes: Bytes, after: Bytes, r: Option<CoreError>)
    returns (steps: seq<Step>)
    requires After(plan, totalSize, run).Some? && AtWork(After(plan, totalSize, run).value, plan, w, 0)
    requires TaskOf(file, targets, plan[w])
    requires PF.TaskEnds(After(plan, totalSize, run).value.file, after, bytes, targets, r)
    ensures Leads(plan, totalSize, run, steps, w, after, if r.None? then |plan[w]| else 0)
  {
    hide PF.Scattered, PF.AllGood, PF.BrokeAt, PF.Partway, Leads, TaskOf;
    var before := After(plan, totalSize, run).value.file;
    if r.None? {
      steps := PlaceSteps(w, |plan[w]|);
      WholeIsRun(plan, totalSize, run, w, file, targets, bytes);
    } else if r == Some(Io) && after == before {
      steps := NothingIsRun(plan, totalSize, run, w);
    } else {
      FailedPartway(before, after, bytes, targets, r);
      steps := PartwayIsRun(plan, totalSize, run, w, file, targets, bytes, after);
    }
  }

  lemma FailedPartway(before: Bytes, after: Bytes, bytes: Bytes, targets: seq<Target>, r: Option<CoreError>)
    requires PF.TaskEnds(before, after, bytes, targets, r) && r.Some? && !(r == Some(Io) && after == before)
    ensures PF.Partway(before, after, bytes, targets)
  {
    if r == Some(Integrity) {
      var n :| 0 <= n < |targets| && PF.StoppedAt(before, after, bytes, targets, n);
      assert PF.ReachedAt(before, after, bytes, targets, n);
    }
  }

  lemma NothingIsRun(plan: Plan, totalSize: nat, run: seq<Step>, w: nat) returns (steps: seq<Step>)
    requires After(plan, totalSize, run).Some? && AtWork(After(plan, totalSize, run).value, plan, w, 0)
    ensures Leads(plan, totalSize, run, steps, w, After(plan, totalSize, run).value.file, 0)
  {
    steps := [];
    assert run + [] == run;
  }

  lemma PartwayIsRun(plan: Plan, totalSize: nat, run: seq<Step>, w: nat, file: Bytes, targets: seq<Target>,
                     bytes: Bytes, after: Bytes)
    returns (steps: seq<Step>)
    requires After(plan, totalSize, run).Some? && AtWork(After(plan, totalSize, run).value, plan, w, 0)
    requires TaskOf(file, targets, plan[w])
    requires PF.Partway(After(plan, totalSize, run).value.file, after, bytes, targets)
    ensures Leads(plan, totalSize, run, steps, w, after, 0)
  {
    hide PF.Scattered, PF.AllGood, PF.BrokeAt, PF.ReachedAt, Leads, TaskOf;
    var before := After(plan, totalSize, run).value.file;
    if n :| 0 <= n < |targets| && PF.BrokeAt(before, after, bytes, targets, n) {
      steps := BrokenIsRun(plan, totalSize, run, w, file, targets, bytes, after, n);
    } else {
      var n :| 0 <= n <= |targets| && PF.ReachedAt(before, after, bytes, targets, n);
      steps := ReachedIsRun(plan, totalSize, run, w, file, targets, bytes, after, n);
    }
  }

  lemma WholeIsRun(plan: Plan, totalSize: nat, run: seq<Step>, w: nat, file: Bytes, targets: seq<Target>, bytes: Bytes)
    requires After(plan, totalSize, run).Some? && AtWork(After(plan, totalSize, run).value, plan, w, 0)
    requires TaskOf(file, targets, plan[w]) && PF.AllGood(bytes, targets)
    ensures Leads(plan, totalSize, run, PlaceSteps(w, |plan[w]|), w,
                  PF.Scattered(After(plan, totalSize, run).value.file, bytes, targets), |plan[w]|)
  {
    ScatterIsPlacing(After(plan, totalSize, run).value.file, bytes, targets, file, plan[w]);
    PlaceMany(plan, totalSize, run, w, |plan[w]|);
    assert plan[w][..|plan[w]|] == plan[w];
  }

  lemma ReachedIsRun(plan: Plan, totalSize: nat, run: seq<Step>, w: nat, file: Bytes, targets: seq<Target>,
                     bytes: Bytes, after: Bytes, n: nat)
    returns (steps: seq<Step>)
    requires After(plan, totalSize, run).Some? && AtWork(After(plan, totalSize, run).value, plan, w, 0)
    requires TaskOf(file, targets, plan[w]) && n <= |targets|
    requires PF.ReachedAt(After(plan, totalSize, run).value.file, after, bytes, targets, n)
    ensures Leads(plan, totalSize, run, steps, w, after, 0)
  {
    ScatterIsPlacing(After(plan, totalSize, run).value.file, bytes, targets[..n], file, plan[w][..n]);
    steps := PlaceThenGiveUp(plan, totalSize, run, w, n);
  }

  lemma BrokenIsRun(plan: Plan, totalSize: nat, run: seq<Step>, w: nat, file: Bytes, targets: seq<Target>,
                    bytes: Bytes, after: Bytes, n: nat)
    returns (steps: seq<Step>)
    requires After(plan, totalSize, run).Some? && AtWork(After(plan, totalSize, run).value, plan, w, 0)
    requires TaskOf(file, targets, plan[w]) && n < |targets|
    requires PF.BrokeAt(After(plan, totalSize, run).value.file, after, bytes, targets, n)
    ensures Leads(plan, totalSize, run, steps, w, after, 0)
  {
    var before := After(plan, totalSize, run).value.file;
    ScatterIsPlacing(before, bytes, targets[..n], file, plan[w][..n]);
    PF.GoodSliceIsFile(bytes, targets[n], file);
    var slice := PF.Slice(bytes, targets[n]);
    var k :| 0 <= k <= |slice|
      && after == WriteAt(PF.Scattered(before, bytes, targets[..n]), targets[n].fileOffset, slice[..k]);
    steps := PlaceSteps(w, n) + [Scribble(w, n, plan[w][n].start, slice[..k])];
    PlaceThenScribble(plan, totalSize, run, w, n, slice[..k]);
  }

  /** A chunk attempt does what one step of its task does, whatever the server sent: a failed one
      is a scribble inside the range, and one that succeeded placed the body. */
  lemma ChunkAttemptIsStep(s: Sys, plan: Plan, totalSize: nat, w: nat, response: RD.Response,
                           start: nat, end: nat, after: Bytes, r: Option<CoreError>)
    returns (step: Step)
    requires AtWork(s, plan, w, 0) && start <= end
    requires |plan[w]| == 1 && plan[w][0].start == start && |plan[w][0].data| == end - start + 1
    requires RD.AttemptEnds(s.file, after, response, start, end, totalSize, r)
    requires r.None? ==> plan[w][0].data == RD.Offered(response, start, end, totalSize)
    ensures Enabled(s, step)
    ensures Do(s, step, totalSize).file == after
    ensures AtWork(Do(s, step, totalSize), plan, w, if r.None? then 1 else 0)
  {
    hide RD.ChunkOutcome, RD.Offered;
    var offered := RD.Offered(response, start, end, totalSize);
    if r.None? {
      step := Place(w);
    } else {
      var k :| 0 <= k <= |offered| && after == WriteAt(s.file, start, offered[..k]);
      RD.OfferedFits(response, start, end, totalSize);
      step := Scribble(w, 0, start, offered[..k]);
    }
  }
}
