/** The two-level pack gate (src/chunk_fetcher/assemble.rs, src/chunk_fetcher/client.rs): each
    task takes a permit of its file, then one of the process. */
module PackGate {
  import opened Basics

  datatype Stage = Waiting | HoldsFile | Active | Ended

  /** One pack task and the file it belongs to. */
  datatype Task = Task(file: nat, stage: Stage)

  /** Free permits of each file, and of the process. */
  datatype Gate = Gate(tasks: seq<Task>, fileFree: map<nat, nat>, globalFree: nat)

  datatype Step =
    | TakeFile(t: nat)
    | TakeGlobal(t: nat)
    | End(t: nat)  // finished, failed or aborted: whatever it holds is released

  /** One task for each entry of `files`; `perFile` gives each file its number of permits. */
  function Start(files: seq<nat>, perFile: map<nat, nat>, global: nat): Gate {
    Gate(seq(|files|, t requires 0 <= t < |files| => Task(files[t], Waiting)), perFile, global)
  }

  predicate Enabled(g: Gate, step: Step) {
    match step
    case TakeFile(t) =>
      t < |g.tasks| && g.tasks[t].stage == Waiting && g.tasks[t].file in g.fileFree && g.fileFree[g.tasks[t].file] > 0
    case TakeGlobal(t) => t < |g.tasks| && g.tasks[t].stage == HoldsFile && g.globalFree > 0
    case End(t) => t < |g.tasks| && g.tasks[t].stage != Ended
  }

  predicate HasFilePermit(task: Task) {
    task.stage == HoldsFile || task.stage == Active
  }

  function Do(g: Gate, step: Step): Gate
    requires Enabled(g, step)
  {
    match step
    case TakeFile(t) =>
      var f := g.tasks[t].file;
      g.(tasks := g.tasks[t := Task(f, HoldsFile)], fileFree := g.fileFree[f := g.fileFree[f] - 1])
    case TakeGlobal(t) =>
      g.(tasks := g.tasks[t := Task(g.tasks[t].file, Active)], globalFree := g.globalFree - 1)
    case End(t) =>
      var task := g.tasks[t];
      g.(tasks := g.tasks[t := Task(task.file, Ended)],
         fileFree := if HasFilePermit(task) && task.file in g.fileFree then g.fileFree[task.file := g.fileFree[task.file] + 1] else g.fileFree,
         globalFree := if task.stage == Active then g.globalFree + 1 else g.globalFree)
  }

  /** How many tasks hold a permit of `file`, and how many one of the process. */
  function FileHolders(tasks: seq<Task>, file: nat): nat {
    if tasks == [] then 0
    else
      var last := tasks[|tasks| - 1];
      FileHolders(tasks[..|tasks| - 1], file) + (if last.file == file && HasFilePermit(last) then 1 else 0)
  }

  function ActiveCount(tasks: seq<Task>): nat {
    if tasks == [] then 0
    else ActiveCount(tasks[..|tasks| - 1]) + (if tasks[|tasks| - 1].stage == Active then 1 else 0)
  }

  function ActiveIn(tasks: seq<Task>, file: nat): nat {
    if tasks == [] then 0
    else
      var last := tasks[|tasks| - 1];
      ActiveIn(tasks[..|tasks| - 1], file) + (if last.file == file && last.stage == Active then 1 else 0)
  }

  /** Steps left for a task. */
  function Left(stage: Stage): nat {
    match stage case Waiting => 3 case HoldsFile => 2 case Active => 1 case Ended => 0
  }

  function TotalLeft(tasks: seq<Task>): nat {
    if tasks == [] then 0 else TotalLeft(tasks[..|tasks| - 1]) + Left(tasks[|tasks| - 1].stage)
  }

  lemma {:induction false} CountsUpdate(tasks: seq<Task>, t: nat, task: Task, file: nat)
    requires t < |tasks| && task.file == tasks[t].file
    ensures var after := tasks[t := task];
            && FileHolders(after, file) == FileHolders(tasks, file)
                 + (if task.file == file && HasFilePermit(task) then 1 else 0)
                 - (if task.file == file && HasFilePermit(tasks[t]) then 1 else 0)
            && ActiveCount(after) == ActiveCount(tasks)
                 + (if task.stage == Active then 1 else 0) - (if tasks[t].stage == Active then 1 else 0)
            && TotalLeft(after) == TotalLeft(tasks) + Left(task.stage) - Left(tasks[t].stage)
  {
    var init := tasks[..|tasks| - 1];
    var after := tasks[t := task];
    if t < |init| {
      CountsUpdate(init, t, task, file);
      assert after[..|after| - 1] == init[t := task];
    } else {
      assert after[..|after| - 1] == init;
    }
  }

  /** Permits are conserved. */
  ghost predicate Conserved(g: Gate, perFile: map<nat, nat>, global: nat) {
    && (forall t :: 0 <= t < |g.tasks| ==> g.tasks[t].file in g.fileFree)
    && g.fileFree.Keys == perFile.Keys
    && (forall f :: f in perFile ==> g.fileFree[f] + FileHolders(g.tasks, f) == perFile[f])
    && g.globalFree + ActiveCount(g.tasks) == global
  }

  lemma {:induction false} NoneHeld(tasks: seq<Task>, file: nat)
    requires forall t :: 0 <= t < |tasks| ==> tasks[t].stage == Waiting
    ensures FileHolders(tasks, file) == 0 && ActiveCount(tasks) == 0 && TotalLeft(tasks) == 3 * |tasks|
  {
    if tasks != [] {
      NoneHeld(tasks[..|tasks| - 1], file);
    }
  }

  lemma StartConserves(files: seq<nat>, perFile: map<nat, nat>, global: nat)
    requires forall f :: f in files ==> f in perFile
    ensures Conserved(Start(files, perFile, global), perFile, global)
    ensures TotalLeft(Start(files, perFile, global).tasks) == 3 * |files|
  {
    var g := Start(files, perFile, global);
    NoneHeld(g.tasks, 0);
    forall f | f in g.fileFree
      ensures FileHolders(g.tasks, f) == 0
    {
      NoneHeld(g.tasks, f);
    }
  }

  lemma DoConserves(g: Gate, step: Step, perFile: map<nat, nat>, global: nat)
    requires Conserved(g, perFile, global) && Enabled(g, step)
    ensures Conserved(Do(g, step), perFile, global)
    ensures TotalLeft(Do(g, step).tasks) < TotalLeft(g.tasks)
  {
    var g' := Do(g, step);
    CountsUpdate(g.tasks, step.t, g'.tasks[step.t], 0);
    forall f | f in perFile
      ensures f in g'.fileFree && g'.fileFree[f] + FileHolders(g'.tasks, f) == perFile[f]
    {
      CountsUpdate(g.tasks, step.t, g'.tasks[step.t], f);
    }
  }

  function After(files: seq<nat>, perFile: map<nat, nat>, global: nat, run: seq<Step>): Option<Gate> {
    if run == [] then
      Some(Start(files, perFile, global))
    else
      match After(files, perFile, global, run[..|run| - 1])
      case None => None
      case Some(g) => if Enabled(g, run[|run| - 1]) then Some(Do(g, run[|run| - 1])) else None
  }

  /** Every run conserves the permits, and ends: a task takes at most three steps. */
  lemma {:induction false} RunConserves(files: seq<nat>, perFile: map<nat, nat>, global: nat, run: seq<Step>)
    requires (forall f :: f in files ==> f in perFile) && After(files, perFile, global, run).Some?
    ensures Conserved(After(files, perFile, global, run).value, perFile, global)
    ensures |run| + TotalLeft(After(files, perFile, global, run).value.tasks) <= 3 * |files|
  {
    if run == [] {
      StartConserves(files, perFile, global);
    } else {
      var init := run[..|run| - 1];
      RunConserves(files, perFile, global, init);
      DoConserves(After(files, perFile, global, init).value, run[|run| - 1], perFile, global);
    }
  }

  lemma {:induction false} ActiveAreHolders(tasks: seq<Task>, file: nat)
    ensures ActiveIn(tasks, file) <= FileHolders(tasks, file)
  {
    if tasks != [] {
      ActiveAreHolders(tasks[..|tasks| - 1], file);
    }
  }

  lemma {:induction false} NoHolders(tasks: seq<Task>, file: nat)
    requires forall t :: 0 <= t < |tasks| && tasks[t].file == file ==> !HasFilePermit(tasks[t])
    ensures FileHolders(tasks, file) == 0
  {
    if tasks != [] {
      NoHolders(tasks[..|tasks| - 1], file);
    }
  }

  lemma {:induction false} NoneActive(tasks: seq<Task>)
    requires forall t :: 0 <= t < |tasks| ==> tasks[t].stage != Active
    ensures ActiveCount(tasks) == 0
  {
    if tasks != [] {
      NoneActive(tasks[..|tasks| - 1]);
    }
  }

  /** A step by which some task gets on, without being given up. */
  predicate Progress(g: Gate, step: Step) {
    Enabled(g, step) && (step.End? ==> g.tasks[step.t].stage == Active)
  }

  /** In every run at most `global` packs are active in the process and `perFile[f]` in each file;
      and as long as a task is left, one can get on: taking the file's permit first and the
      process's second never locks up. */
  lemma GateIsSafeAndLive(files: seq<nat>, perFile: map<nat, nat>, global: nat, run: seq<Step>)
    requires (forall f :: f in files ==> f in perFile && perFile[f] > 0) && global > 0
    requires After(files, perFile, global, run).Some?
    ensures var g := After(files, perFile, global, run).value;
            && ActiveCount(g.tasks) <= global
            && (forall f :: f in files ==> ActiveIn(g.tasks, f) <= perFile[f])
            && ((exists t :: 0 <= t < |g.tasks| && g.tasks[t].stage != Ended) ==> exists step :: Progress(g, step))
  {
    RunConserves(files, perFile, global, run);
    KeepsFiles(files, perFile, global, run);
    var g := After(files, perFile, global, run).value;
    forall f | f in files
      ensures ActiveIn(g.tasks, f) <= perFile[f]
    {
      ActiveAreHolders(g.tasks, f);
    }
    if t :| 0 <= t < |g.tasks| && g.tasks[t].stage != Ended {
      assert g.tasks[t].file == files[t];
      SomeProgress(g, perFile, global);
    }
  }

  lemma SomeProgress(g: Gate, perFile: map<nat, nat>, global: nat)
    requires global > 0 && Conserved(g, perFile, global)
    requires forall t :: 0 <= t < |g.tasks| ==> g.tasks[t].file in perFile && perFile[g.tasks[t].file] > 0
    requires exists t :: 0 <= t < |g.tasks| && g.tasks[t].stage != Ended
    ensures exists step :: Progress(g, step)
  {
    if a :| 0 <= a < |g.tasks| && g.tasks[a].stage == Active {
      assert Progress(g, End(a));
    } else {
      NoneActive(g.tasks);
      if h :| 0 <= h < |g.tasks| && g.tasks[h].stage == HoldsFile {
        assert Progress(g, TakeGlobal(h));
      } else {
        var t :| 0 <= t < |g.tasks| && g.tasks[t].stage != Ended;
        NoHolders(g.tasks, g.tasks[t].file);
        assert Progress(g, TakeFile(t));
      }
    }
  }

  lemma {:induction false} KeepsFiles(files: seq<nat>, perFile: map<nat, nat>, global: nat, run: seq<Step>)
    requires After(files, perFile, global, run).Some?
    ensures var g := After(files, perFile, global, run).value;
            |g.tasks| == |files| && forall t :: 0 <= t < |files| ==> g.tasks[t].file == files[t]
  {
    if run != [] {
      KeepsFiles(files, perFile, global, run[..|run| - 1]);
    }
  }
}
