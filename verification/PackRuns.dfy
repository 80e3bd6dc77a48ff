/** The pack tasks with every disk write on its own, in any order with those of the other tasks
    (src/chunk_fetcher/assemble.rs, src/chunk_fetcher/scatter.rs), and that each such execution is a
    run of the state machine. */
module PackRuns {
  import opened Basics
  import opened Text
  import opened Retry
  import opened Packing
  import opened PackStore
  import opened PullPacks
  import opened ParallelWrite
  import opened Attempts
  import FullRuns
  import FD = FileDigest
  import PF = PackFetch

  /** What can happen next: one turn of some task's scatter loop, with whatever pack it has received,
      or the end of its attempt; or something that is no disk write of a task. */
  datatype Act =
    | Wrote(w: nat, pack: Bytes)           // the next slice is good, and written
    | Broke(w: nat, pack: Bytes, k: nat)   // it is good, and the disk fails after `k` of its bytes
    | Dropped(w: nat)                      // the attempt ends: a bad response or target, a failed open or flush, a panic
    | Other(step: Step)                    // a signal, or the hasher

  /** The targets of every task. */
  type Jobs = seq<seq<Target>>

  /** Task `w` is at work on its next target. */
  predicate AtTarget(s: Sys, jobs: Jobs, w: nat) {
    w < |s.writers| && w < |jobs| && !s.writers[w].signalled && s.writers[w].placed < |jobs[w]|
  }

  function NextTarget(s: Sys, jobs: Jobs, w: nat): Target
    requires AtTarget(s, jobs, w)
  {
    jobs[w][s.writers[w].placed]
  }

  predicate CanAct(s: Sys, jobs: Jobs, a: Act) {
    match a
    case Wrote(w, pack) => AtTarget(s, jobs, w) && PF.Good(pack, NextTarget(s, jobs, w))
    case Broke(w, pack, k) =>
      AtTarget(s, jobs, w) && PF.Good(pack, NextTarget(s, jobs, w)) && k <= |PF.Slice(pack, NextTarget(s, jobs, w))|
    case Dropped(w) => w < |s.writers| && !s.writers[w].signalled
    case Other(step) => !step.Place? && !step.Scribble? && Enabled(s, step)
  }

  function Reset(s: Sys, w: nat, placed: nat): Sys
    requires w < |s.writers|
  {
    s.(writers := s.writers[w := s.writers[w].(placed := placed)])
  }

  function Perform(s: Sys, jobs: Jobs, a: Act, totalSize: nat): Sys
    requires CanAct(s, jobs, a)
  {
    match a
    case Wrote(w, pack) =>
      var t := NextTarget(s, jobs, w);
      Reset(s.(file := WriteAt(s.file, t.fileOffset, PF.Slice(pack, t))), w, s.writers[w].placed + 1)
    case Broke(w, pack, k) =>
      var t := NextTarget(s, jobs, w);
      Reset(s.(file := WriteAt(s.file, t.fileOffset, PF.Slice(pack, t)[..k])), w, 0)
    case Dropped(w) => Reset(s, w, 0)
    case Other(step) => Do(s, step, totalSize)
  }

  /** The state after some acts from the start; `None` when some act was not possible. */
  function Execute(plan: Plan, jobs: Jobs, totalSize: nat, acts: seq<Act>): Option<Sys> {
    if acts == [] then
      Some(Start(plan, totalSize))
    else
      match Execute(plan, jobs, totalSize, acts[..|acts| - 1])
      case None => None
      case Some(s) =>
        if CanAct(s, jobs, acts[|acts| - 1]) then Some(Perform(s, jobs, acts[|acts| - 1], totalSize)) else None
  }

  /** Every task writes the slices of `file` that its targets ask for. */
  predicate TasksOf(file: Bytes, jobs: Jobs, plan: Plan) {
    |jobs| == |plan| && forall w :: 0 <= w < |plan| ==> TaskOf(file, jobs[w], plan[w])
  }

  /** One turn of the scatter loop is one act, in whatever state the other tasks have left the file. */
  lemma TurnIsAct(s: Sys, jobs: Jobs, w: nat, pack: Bytes, after: Bytes, r: Option<CoreError>, totalSize: nat)
    returns (a: Act)
    requires AtTarget(s, jobs, w) && PF.TurnEnds(s.file, after, pack, NextTarget(s, jobs, w), r)
    ensures CanAct(s, jobs, a) && !a.Other? && a.w == w
    ensures Perform(s, jobs, a, totalSize) == Reset(s.(file := after), w, if r.None? then s.writers[w].placed + 1 else 0)
  {
    var t := NextTarget(s, jobs, w);
    if r == None {
      a := Wrote(w, pack);
    } else if r == Some(Integrity) {
      a := Dropped(w);
    } else {
      var slice := PF.Slice(pack, t);
      var k: nat :| k <= |slice| && after == WriteAt(s.file, t.fileOffset, slice[..k]);
      a := Broke(w, pack, k);
    }
  }

  /** Every act of a task is one step of the machine, or none at all. */
  lemma ActIsStep(s: Sys, plan: Plan, jobs: Jobs, file: Bytes, a: Act, totalSize: nat) returns (steps: seq<Step>)
    requires TasksOf(file, jobs, plan) && KeepsPlan(s, plan) && CanAct(s, jobs, a)
    ensures steps == [] ==> Perform(s, jobs, a, totalSize) == s
    ensures steps != [] ==> steps == [steps[0]] && Enabled(s, steps[0])
                            && Do(s, steps[0], totalSize) == Perform(s, jobs, a, totalSize)
  {
    hide WriteAt, PF.Good, PF.Slice, TasksOf;
    match a {
      case Wrote(w, pack) =>
        steps := [Place(w)];
        NextIsPiece(s, plan, jobs, file, w, pack);
      case Broke(w, pack, k) =>
        var t := NextTarget(s, jobs, w);
        NextIsPiece(s, plan, jobs, file, w, pack);
        steps := [Scribble(w, s.writers[w].placed, t.fileOffset, PF.Slice(pack, t)[..k])];
      case Dropped(w) =>
        if plan[w] == [] {
          steps := [];
          assert s.writers[w := s.writers[w].(placed := 0)] == s.writers;
        } else {
          steps := [Scribble(w, 0, plan[w][0].start, [])];
        }
      case Other(step) =>
        steps := [step];
    }
  }

  /** A good slice of the pack is the planned piece. */
  lemma NextIsPiece(s: Sys, plan: Plan, jobs: Jobs, file: Bytes, w: nat, pack: Bytes)
    requires TasksOf(file, jobs, plan) && KeepsPlan(s, plan) && AtTarget(s, jobs, w)
    requires PF.Good(pack, NextTarget(s, jobs, w))
    ensures s.writers[w].placed < |s.writers[w].pieces|
    ensures s.writers[w].pieces[s.writers[w].placed]
            == Piece(NextTarget(s, jobs, w).fileOffset, PF.Slice(pack, NextTarget(s, jobs, w)))
  {
    assert TaskOf(file, jobs[w], plan[w]);
    PF.GoodSliceIsFile(pack, NextTarget(s, jobs, w), file);
  }

  /** So the state machine is what the fetch code does. Whatever packs the servers sent, however the
      writes of all tasks and all their attempts fall between one another, and wherever attempts
      ended: the execution is a run of the machine, so what holds of every run holds of it. */
  lemma {:induction false} ExecutionIsRun(plan: Plan, jobs: Jobs, totalSize: nat, file: Bytes, acts: seq<Act>)
    returns (run: seq<Step>)
    requires TasksOf(file, jobs, plan) && Execute(plan, jobs, totalSize, acts).Some?
    ensures After(plan, totalSize, run) == Execute(plan, jobs, totalSize, acts)
  {
    if acts == [] {
      run := [];
    } else {
      var init, a := acts[..|acts| - 1], acts[|acts| - 1];
      var before := ExecutionIsRun(plan, jobs, totalSize, file, init);
      RunIsSane(plan, totalSize, before);
      hide After, TasksOf, CanAct, Perform, Do, Enabled, ChannelOk, Settled, KeepsPlan;
      var s := Execute(plan, jobs, totalSize, init).value;
      var steps := ActIsStep(s, plan, jobs, file, a, totalSize);
      if steps == [] {
        run := before;
      } else {
        FullRuns.OneMore(plan, totalSize, before, steps[0]);
        run := before + [steps[0]];
      }
    }
  }

  /** The targets of a pull plan, task by task. */
  function JobsOf(entries: seq<PackEntry>): (jobs: Jobs)
    ensures |jobs| == |entries| && forall k :: 0 <= k < |jobs| ==> jobs[k] == entries[k].chunks
  {
    seq(|entries|, k requires 0 <= k < |entries| => entries[k].chunks)
  }

  /** In particular, however the fetch code ran over the pull plan of a described file, once it has
      come to an end the file is there and verified. */
  lemma FetchedIsFile(blobs: Blobs, refs: seq<ChunkRef>, file: Bytes, chunks: seq<Chunk>, sizes: map<Digest, nat>,
                      acts: seq<Act>)
    requires RefsDescribe(blobs, refs, file, chunks) && |file| <= U64_MAX
    requires PullPlan(refs, sizes).Ok? && Pulled(blobs, refs, sizes).Some?
    requires var s := Execute(Pulled(blobs, refs, sizes).value, JobsOf(PullPlan(refs, sizes).value), |file|, acts);
             s.Some? && Ended(s.value)
    ensures var s := Execute(Pulled(blobs, refs, sizes).value, JobsOf(PullPlan(refs, sizes).value), |file|, acts).value;
            s.file == file && FD.Verified(FD.TaskOf(s), s.file, Sha256(file), None) == Ok(Sha256(file))
  {
    var plan, entries := Pulled(blobs, refs, sizes).value, PullPlan(refs, sizes).value;
    forall k | 0 <= k < |entries|
      ensures TaskOf(file, entries[k].chunks, plan[k])
    {
      PulledIsTask(blobs, refs, file, chunks, sizes, k);
    }
    hide Execute, RefsDescribe, TaskOf, After, PullPlan, Pulled;
    assert TasksOf(file, JobsOf(entries), plan) by {
      PulledLength(blobs, refs, sizes);
    }
    var run := ExecutionIsRun(plan, JobsOf(entries), |file|, file, acts);
    FD.PullReadsBack(blobs, refs, file, chunks, sizes, plan, run);
  }

  lemma PulledLength(blobs: Blobs, refs: seq<ChunkRef>, sizes: map<Digest, nat>)
    requires PullPlan(refs, sizes).Ok? && Pulled(blobs, refs, sizes).Some?
    ensures |Pulled(blobs, refs, sizes).value| == |PullPlan(refs, sizes).value|
  {
  }
}
