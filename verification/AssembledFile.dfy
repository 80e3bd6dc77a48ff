/** What the parallel tasks leave on disk, whatever order they run in. */
module AssembledFile {
  import opened Basics
  import opened Text
  import opened ParallelWrite
  import opened HasherSoundness

  predicate Apart(p: Piece, q: Piece) {
    p.data == [] || q.data == [] || p.start + |p.data| <= q.start || q.start + |q.data| <= p.start
  }

  /** No two pieces of the plan share a byte. */
  predicate Disjoint(plan: Plan) {
    forall i, j, k, l ::
      0 <= i < |plan| && 0 <= j < |plan[i]| && 0 <= k < |plan| && 0 <= l < |plan[k]| && (i != k || j != l)
      ==> Apart(plan[i][j], plan[k][l])
  }

  predicate There(file: Bytes, p: Piece) {
    p.data == [] || (p.start + |p.data| <= |file| && file[p.start..p.start + |p.data|] == p.data)
  }

  predicate Covers(p: Piece, b: nat) {
    p.start <= b < p.start + |p.data|
  }

  predicate Covered(plan: Plan, b: nat) {
    exists i, j :: 0 <= i < |plan| && 0 <= j < |plan[i]| && Covers(plan[i][j], b)
  }

  /** Every piece that the current attempts have placed is still there, and no byte outside
      the plan was touched. */
  predicate ContentInv(s: Sys, plan: Plan) {
    && (forall i, j :: 0 <= i < |plan| && i < |s.writers| && 0 <= j < |plan[i]| && j < s.writers[i].placed ==>
          There(s.file, plan[i][j]))
    && (forall b :: 0 <= b < |s.file| && !Covered(plan, b) ==> s.file[b] == 0)
  }

  lemma WriteInside(file: Bytes, at: nat, data: Bytes, p: Piece)
    requires There(file, p)
    requires Apart(p, Piece(at, data))
    ensures There(WriteAt(file, at, data), p)
  {
    var file' := WriteAt(file, at, data);
    if p.data != [] {
      assert forall b :: p.start <= b < p.start + |p.data| ==> file'[b] == file[b];
      assert file'[p.start..p.start + |p.data|] == file[p.start..p.start + |p.data|];
    }
  }

  lemma WriteThere(file: Bytes, p: Piece)
    ensures There(WriteAt(file, p.start, p.data), p)
  {
    if p.data != [] {
      assert WriteAt(file, p.start, p.data)[p.start..p.start + |p.data|] == p.data;
    }
  }

  lemma WriteKeepsBlanks(file: Bytes, at: nat, data: Bytes, plan: Plan, w: nat, k: nat)
    requires w < |plan| && k < |plan[w]|
    requires plan[w][k].start <= at && at + |data| <= plan[w][k].start + |plan[w][k].data|
    requires forall b :: 0 <= b < |file| && !Covered(plan, b) ==> file[b] == 0
    ensures var file' := WriteAt(file, at, data);
            forall b :: 0 <= b < |file'| && !Covered(plan, b) ==> file'[b] == 0
  {
    var file' := WriteAt(file, at, data);
    forall b | 0 <= b < |file'| && !Covered(plan, b)
      ensures file'[b] == 0
    {
      if at <= b < at + |data| {
        assert Covers(plan[w][k], b);
      }
    }
  }

  /** A write of part of piece `k` of task `w`, after which `placed` of its pieces are there. */
  lemma WriteKeepsContent(s: Sys, s': Sys, plan: Plan, w: nat, k: nat, at: nat, data: Bytes, placed: nat)
    requires KeepsPlan(s, plan) && ContentInv(s, plan) && Disjoint(plan)
    requires w < |plan| && k < |plan[w]|
    requires plan[w][k].start <= at && at + |data| <= plan[w][k].start + |plan[w][k].data|
    requires s'.file == WriteAt(s.file, at, data)
    requires s'.writers == s.writers[w := s.writers[w].(placed := placed)]
    requires placed == 0 || (placed == k + 1 == s.writers[w].placed + 1 && Piece(at, data) == plan[w][k])
    ensures ContentInv(s', plan)
  {
    WriteKeepsBlanks(s.file, at, data, plan, w, k);
    forall i, j | 0 <= i < |plan| && i < |s'.writers| && 0 <= j < |plan[i]| && j < s'.writers[i].placed
      ensures There(s'.file, plan[i][j])
    {
      if i == w && j == k {
        WriteThere(s.file, plan[w][k]);
      } else {
        assert Apart(plan[i][j], plan[w][k]);
        WriteInside(s.file, at, data, plan[i][j]);
      }
    }
  }

  lemma DoKeepsContent(s: Sys, step: Step, totalSize: nat, plan: Plan)
    requires Enabled(s, step) && KeepsPlan(s, plan) && ContentInv(s, plan) && Disjoint(plan)
    ensures ContentInv(Do(s, step, totalSize), plan)
  {
    var s' := Do(s, step, totalSize);
    match step {
      case Scribble(w, k, at, data) => WriteKeepsContent(s, s', plan, w, k, at, data, 0);
      case Place(w) =>
        var k := s.writers[w].placed;
        WriteKeepsContent(s, s', plan, w, k, plan[w][k].start, plan[w][k].data, k + 1);
      case _ =>
    }
  }

  lemma {:induction false} RunKeepsContent(plan: Plan, totalSize: nat, run: seq<Step>)
    requires After(plan, totalSize, run).Some? && Disjoint(plan)
    ensures ContentInv(After(plan, totalSize, run).value, plan)
  {
    if run != [] {
      var init := run[..|run| - 1];
      RunKeepsContent(plan, totalSize, init);
      RunIsSane(plan, totalSize, init);
      DoKeepsContent(After(plan, totalSize, init).value, run[|run| - 1], totalSize, plan);
    }
  }

  /** `file` holds every piece of the plan, and zeros elsewhere. */
  predicate Assembled(file: Bytes, plan: Plan, totalSize: nat) {
    && |file| == totalSize
    && (forall i, j :: 0 <= i < |plan| && 0 <= j < |plan[i]| ==> There(file, plan[i][j]))
    && (forall b :: 0 <= b < |file| && !Covered(plan, b) ==> file[b] == 0)
  }

  /** Every complete run of a disjoint, in-bounds plan assembles the file, with any number of
      failed attempts in between. */
  lemma RunAssembles(plan: Plan, totalSize: nat, run: seq<Step>)
    requires After(plan, totalSize, run).Some? && AllSignalled(After(plan, totalSize, run).value)
    requires Disjoint(plan) && InBounds(plan, totalSize)
    ensures Assembled(After(plan, totalSize, run).value.file, plan, totalSize)
  {
    RunKeepsContent(plan, totalSize, run);
    RunIsSane(plan, totalSize, run);
    FinalLength(plan, totalSize, run);
  }

  /** An assembled file is determined by the plan, so no order of the tasks can matter. */
  lemma AssembledUnique(a: Bytes, b: Bytes, plan: Plan, totalSize: nat)
    requires Assembled(a, plan, totalSize) && Assembled(b, plan, totalSize)
    ensures a == b
  {
    forall k | 0 <= k < totalSize
      ensures a[k] == b[k]
    {
      if Covered(plan, k) {
        var i, j :| 0 <= i < |plan| && 0 <= j < |plan[i]| && Covers(plan[i][j], k);
        var p := plan[i][j];
        assert There(a, p) && There(b, p);
        assert a[k] == a[p.start..p.start + |p.data|][k - p.start] == p.data[k - p.start];
        assert b[k] == b[p.start..p.start + |p.data|][k - p.start];
      }
    }
  }

  /** Two complete runs of the same plan leave the same file. */
  lemma OrderIndependent(plan: Plan, totalSize: nat, run: seq<Step>, run': seq<Step>)
    requires After(plan, totalSize, run).Some? && AllSignalled(After(plan, totalSize, run).value)
    requires After(plan, totalSize, run').Some? && AllSignalled(After(plan, totalSize, run').value)
    requires Disjoint(plan) && InBounds(plan, totalSize)
    ensures After(plan, totalSize, run).value.file == After(plan, totalSize, run').value.file
  {
    RunAssembles(plan, totalSize, run);
    RunAssembles(plan, totalSize, run');
    AssembledUnique(After(plan, totalSize, run).value.file, After(plan, totalSize, run').value.file, plan, totalSize);
  }

  /** The plan cuts `file` up: every piece is a slice of it, and every byte is in a piece. */
  predicate CutsUp(plan: Plan, file: Bytes) {
    && (forall i, j :: 0 <= i < |plan| && 0 <= j < |plan[i]| ==>
          plan[i][j].start + |plan[i][j].data| <= |file| && There(file, plan[i][j]))
    && (forall b :: 0 <= b < |file| ==> Covered(plan, b))
  }

  /** A plan that cuts a file up rebuilds it, and any verdict is its digest. */
  lemma RunRebuilds(plan: Plan, file: Bytes, run: seq<Step>)
    requires After(plan, |file|, run).Some? && AllSignalled(After(plan, |file|, run).value)
    requires Disjoint(plan) && CutsUp(plan, file)
    ensures After(plan, |file|, run).value.file == file
    ensures After(plan, |file|, run).value.outcome.Hashed? ==>
              After(plan, |file|, run).value.outcome.digest == Sha256(file)
  {
    RunAssembles(plan, |file|, run);
    assert Assembled(file, plan, |file|);
    AssembledUnique(After(plan, |file|, run).value.file, file, plan, |file|);
    if After(plan, |file|, run).value.outcome.Hashed? {
      SameVerdictAsReread(plan, |file|, run);
    }
  }
}
