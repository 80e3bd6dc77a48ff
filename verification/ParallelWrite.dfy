/** Tasks writing one pre-allocated file in parallel while the incremental hasher reads it
    (src/chunk_fetcher/assemble.rs, src/chunked_downloader/download.rs,
    src/incremental_hash.rs), as a state machine over every interleaving. */
module ParallelWrite {
  import opened Basics
  import opened Text
  import opened IncrementalHash

  /** Bytes that a task places at a file offset. */
  datatype Piece = Piece(start: nat, data: Bytes)

  /** A task: its pieces, how many its current attempt has placed, whether it has signalled
      the hasher, and whether the hasher has received that signal. */
  datatype Writer = Writer(pieces: seq<Piece>, placed: nat, signalled: bool, received: bool)

  datatype Outcome = Hashing | Hashed(digest: Digest) | GaveUp

  /** `channel` lists the tasks whose signals are under way, oldest first. */
  datatype Sys = Sys(
    file: Bytes,
    writers: seq<Writer>,
    channel: seq<nat>,
    hasher: Hasher,
    outcome: Outcome,
    ioFailed: bool)

  datatype Step =
    | Scribble(w: nat, piece: nat, at: nat, data: Bytes)  // an attempt that fails writes part of a piece, with any bytes
    | Place(w: nat)                                       // the attempt places its next piece
    | Signal(w: nat)                                      // the task has placed every piece
    | Receive                                             // the hasher takes the oldest signal
    | Read(n: nat)                                        // the hasher reads on
    | HitEof                                              // the hasher finds the file too short
    | IoError                                             // the hasher fails to read
    | Close                                               // every task is done and every signal taken

  type Plan = seq<seq<Piece>>

  function ExtentsOf(pieces: seq<Piece>): (es: seq<Extent>)
    ensures |es| == |pieces|
    ensures forall j :: 0 <= j < |pieces| ==> es[j] == Extent(pieces[j].start, |pieces[j].data|)
  {
    seq(|pieces|, j requires 0 <= j < |pieces| => Extent(pieces[j].start, |pieces[j].data|))
  }

  function Start(plan: Plan, totalSize: nat): Sys {
    Sys(Zeros(totalSize),
        seq(|plan|, i requires 0 <= i < |plan| => Writer(plan[i], 0, false, false)),
        [], START, Hashing, false)
  }

  predicate AllSignalled(s: Sys) {
    forall i :: 0 <= i < |s.writers| ==> s.writers[i].signalled
  }

  predicate Enabled(s: Sys, step: Step) {
    match step
    case Scribble(w, k, at, data) =>
      && w < |s.writers| && !s.writers[w].signalled
      && k < |s.writers[w].pieces|
      && var p := s.writers[w].pieces[k];
         p.start <= at && at + |data| <= p.start + |p.data|
    case Place(w) =>
      w < |s.writers| && !s.writers[w].signalled && s.writers[w].placed < |s.writers[w].pieces|
    case Signal(w) =>
      w < |s.writers| && !s.writers[w].signalled && s.writers[w].placed == |s.writers[w].pieces|
    case Receive =>
      && s.outcome == Hashing && s.channel != [] && s.channel[0] < |s.writers|
      && |s.hasher.folded| == s.hasher.watermark
    case Read(n) =>
      && s.outcome == Hashing && 0 < n
      && |s.hasher.folded| + n <= s.hasher.watermark && |s.hasher.folded| + n <= |s.file|
    case HitEof =>
      s.outcome == Hashing && |s.file| <= |s.hasher.folded| < s.hasher.watermark
    case IoError =>
      s.outcome == Hashing
    case Close =>
      && s.outcome == Hashing && s.channel == [] && AllSignalled(s)
      && |s.hasher.folded| == s.hasher.watermark
  }

  function Do(s: Sys, step: Step, totalSize: nat): Sys
    requires Enabled(s, step)
  {
    match step
    case Scribble(w, k, at, data) =>
      s.(file := WriteAt(s.file, at, data), writers := s.writers[w := s.writers[w].(placed := 0)])
    case Place(w) =>
      var writer := s.writers[w];
      var p := writer.pieces[writer.placed];
      s.(file := WriteAt(s.file, p.start, p.data),
         writers := s.writers[w := writer.(placed := writer.placed + 1)])
    case Signal(w) =>
      s.(writers := s.writers[w := s.writers[w].(signalled := true)], channel := s.channel + [w])
    case Receive =>
      var w := s.channel[0];
      var s' := s.(channel := s.channel[1..], writers := s.writers[w := s.writers[w].(received := true)]);
      (match IncrementalHash.Receive(s.hasher, ExtentsOf(s.writers[w].pieces))
       case None => s'.(outcome := GaveUp)
       case Some(h) => s'.(hasher := h))
    case Read(n) =>
      var h := s.hasher;
      s.(hasher := h.(folded := h.folded + s.file[|h.folded|..|h.folded| + n]))
    case HitEof =>
      s.(outcome := GaveUp)
    case IoError =>
      s.(outcome := GaveUp, ioFailed := true)
    case Close =>
      match Verdict(s.hasher, totalSize)
      case None => s.(outcome := GaveUp)
      case Some(d) => s.(outcome := Hashed(d))
  }

  /** The state after a run from the start; `None` when some step was not enabled. */
  function After(plan: Plan, totalSize: nat, run: seq<Step>): Option<Sys> {
    if run == [] then
      Some(Start(plan, totalSize))
    else
      match After(plan, totalSize, run[..|run| - 1])
      case None => None
      case Some(s) => if Enabled(s, run[|run| - 1]) then Some(Do(s, run[|run| - 1], totalSize)) else None
  }

  /** The tasks still carry the planned pieces. */
  predicate KeepsPlan(s: Sys, plan: Plan) {
    && |s.writers| == |plan|
    && forall i :: 0 <= i < |plan| ==>
         && s.writers[i].pieces == plan[i]
         && s.writers[i].placed <= |plan[i]|
         && (s.writers[i].signalled ==> s.writers[i].placed == |plan[i]|)
         && (s.writers[i].received ==> s.writers[i].signalled)
  }

  predicate UnderWay(w: Writer) {
    w.signalled && !w.received
  }

  /** The channel carries exactly the signals that were sent and not yet taken. */
  predicate ChannelOk(channel: seq<nat>, writers: seq<Writer>) {
    && (forall i :: 0 <= i < |writers| ==> (UnderWay(writers[i]) <==> i in channel))
    && (forall k :: 0 <= k < |channel| ==> channel[k] < |writers|)
    && (forall k, l :: 0 <= k < l < |channel| ==> channel[k] != channel[l])
  }

  /** Nothing is written once every task has signalled. */
  predicate Settled(s: Sys) {
    s.outcome.Hashed? ==> AllSignalled(s) && s.channel == []
  }

  ghost predicate Sane(s: Sys, plan: Plan) {
    && KeepsPlan(s, plan)
    && ChannelOk(s.channel, s.writers)
    && |s.hasher.folded| <= s.hasher.watermark
    && Settled(s)
  }

  lemma DoKeepsPlan(s: Sys, step: Step, totalSize: nat, plan: Plan)
    requires Enabled(s, step) && KeepsPlan(s, plan)
    requires step.Receive? ==> s.writers[s.channel[0]].signalled
    ensures KeepsPlan(Do(s, step, totalSize), plan)
  {
  }

  lemma SendKeepsChannel(channel: seq<nat>, writers: seq<Writer>, w: nat)
    requires ChannelOk(channel, writers) && w < |writers|
    requires !writers[w].signalled && !writers[w].received
    ensures ChannelOk(channel + [w], writers[w := writers[w].(signalled := true)])
  {
  }

  lemma TakeKeepsChannel(channel: seq<nat>, writers: seq<Writer>)
    requires ChannelOk(channel, writers) && channel != [] && channel[0] < |writers|
    ensures ChannelOk(channel[1..], writers[channel[0] := writers[channel[0]].(received := true)])
  {
    assert channel == [channel[0]] + channel[1..];
  }

  lemma DoKeepsSane(s: Sys, step: Step, totalSize: nat, plan: Plan)
    requires Enabled(s, step) && Sane(s, plan)
    ensures Sane(Do(s, step, totalSize), plan)
  {
    DoKeepsPlan(s, step, totalSize, plan);
    match step {
      case Signal(w) => SendKeepsChannel(s.channel, s.writers, w);
      case Receive =>
        TakeKeepsChannel(s.channel, s.writers);
        AdvanceGrows(Insert(s.hasher.pending, ExtentsOf(s.writers[s.channel[0]].pieces)), s.hasher.watermark);
      case Scribble(w, _, _, _) => RestartKeepsChannel(s.channel, s.writers, w, 0);
      case Place(w) => RestartKeepsChannel(s.channel, s.writers, w, s.writers[w].placed + 1);
      case _ =>
    }
  }

  lemma RestartKeepsChannel(channel: seq<nat>, writers: seq<Writer>, w: nat, placed: nat)
    requires ChannelOk(channel, writers) && w < |writers|
    ensures ChannelOk(channel, writers[w := writers[w].(placed := placed)])
  {
    var writers' := writers[w := writers[w].(placed := placed)];
    assert forall i :: 0 <= i < |writers| ==> UnderWay(writers'[i]) == UnderWay(writers[i]);
  }

  lemma {:induction false} RunIsSane(plan: Plan, totalSize: nat, run: seq<Step>)
    requires After(plan, totalSize, run).Some?
    ensures Sane(After(plan, totalSize, run).value, plan)
  {
    if run != [] {
      var init := run[..|run| - 1];
      RunIsSane(plan, totalSize, init);
      DoKeepsSane(After(plan, totalSize, init).value, run[|run| - 1], totalSize, plan);
    }
  }

  /** A step by which a task or the hasher gets on: no failed read, and no failed attempt. */
  predicate GetsOn(s: Sys, step: Step) {
    Enabled(s, step) && !step.IoError? && !step.Scribble?
  }

  /** Every task and the hasher have come to an end. */
  predicate Ended(s: Sys) {
    s.outcome != Hashing && AllSignalled(s)
  }

  /** In every reachable state where a task or the hasher is still at work, one of them can get on. */
  lemma NeverStuck(plan: Plan, totalSize: nat, run: seq<Step>)
    requires After(plan, totalSize, run).Some?
    requires !Ended(After(plan, totalSize, run).value)
    ensures exists step :: GetsOn(After(plan, totalSize, run).value, step)
  {
    RunIsSane(plan, totalSize, run);
    var s := After(plan, totalSize, run).value;
    if !AllSignalled(s) {
      var w :| 0 <= w < |s.writers| && !s.writers[w].signalled;
      assert GetsOn(s, if s.writers[w].placed < |s.writers[w].pieces| then Place(w) else Signal(w));
    } else if |s.hasher.folded| < s.hasher.watermark {
      assert GetsOn(s, if |s.hasher.folded| < |s.file| then Read(1) else HitEof);
    } else if s.channel != [] {
      assert GetsOn(s, Receive);
    } else {
      assert GetsOn(s, Close);
    }
  }

  /** What a task has left to do: its pieces, then its signal. */
  function TaskLeft(w: Writer): nat {
    (if w.placed < |w.pieces| then |w.pieces| - w.placed else 0) + (if w.signalled then 0 else 1)
  }

  function TasksLeft(writers: seq<Writer>): nat {
    if writers == [] then 0 else TasksLeft(writers[..|writers| - 1]) + TaskLeft(writers[|writers| - 1])
  }

  function SignalsLeft(writers: seq<Writer>): nat {
    if writers == [] then 0
    else SignalsLeft(writers[..|writers| - 1]) + (if writers[|writers| - 1].received then 0 else 1)
  }

  function HasherLeft(s: Sys): nat {
    (if |s.hasher.folded| < s.hasher.watermark then s.hasher.watermark - |s.hasher.folded| else 0)
    + (if s.outcome == Hashing then 1 else 0)
  }

  lemma {:induction false} LeftUpdate(writers: seq<Writer>, w: nat, writer: Writer)
    requires w < |writers|
    ensures TasksLeft(writers[w := writer]) + TaskLeft(writers[w]) == TasksLeft(writers) + TaskLeft(writer)
    ensures SignalsLeft(writers[w := writer]) + (if writers[w].received then 0 else 1)
            == SignalsLeft(writers) + (if writer.received then 0 else 1)
  {
    var n := |writers| - 1;
    if w == n {
      assert writers[w := writer][..n] == writers[..n];
    } else {
      assert writers[w := writer][..n] == writers[..n][w := writer];
      LeftUpdate(writers[..n], w, writer);
    }
  }

  /** What is left, compared in the order tasks, signals, hasher. */
  predicate LessLeft(after: Sys, before: Sys) {
    || TasksLeft(after.writers) < TasksLeft(before.writers)
    || (TasksLeft(after.writers) == TasksLeft(before.writers)
        && (|| SignalsLeft(after.writers) < SignalsLeft(before.writers)
            || (SignalsLeft(after.writers) == SignalsLeft(before.writers) && HasherLeft(after) < HasherLeft(before))))
  }

  lemma TaskGetsOn(s: Sys, w: nat, writer: Writer, after: Sys)
    requires w < |s.writers| && after.writers == s.writers[w := writer] && writer.received == s.writers[w].received
    requires TaskLeft(writer) < TaskLeft(s.writers[w])
    ensures LessLeft(after, s)
  {
    LeftUpdate(s.writers, w, writer);
  }

  lemma SignalTaken(s: Sys, w: nat, after: Sys)
    requires w < |s.writers| && !s.writers[w].received
    requires after.writers == s.writers[w := s.writers[w].(received := true)]
    ensures LessLeft(after, s)
  {
    LeftUpdate(s.writers, w, s.writers[w].(received := true));
  }

  /** Every step that gets on leaves less to do, so no run can get on forever. */
  lemma GettingOnEnds(s: Sys, step: Step, totalSize: nat, plan: Plan)
    requires Sane(s, plan) && GetsOn(s, step)
    ensures LessLeft(Do(s, step, totalSize), s)
  {
    hide TasksLeft, SignalsLeft, Settled;
    match step {
      case Place(w) =>
        TaskGetsOn(s, w, s.writers[w].(placed := s.writers[w].placed + 1), Do(s, step, totalSize));
      case Signal(w) =>
        TaskGetsOn(s, w, s.writers[w].(signalled := true), Do(s, step, totalSize));
      case Receive =>
        hide LessLeft;
        assert s.channel[0] in s.channel && UnderWay(s.writers[s.channel[0]]);
        SignalTaken(s, s.channel[0], Do(s, step, totalSize));
      case _ =>
    }
  }
}
