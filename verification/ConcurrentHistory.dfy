/** Uploads and guarded commits of any number of writers, interleaved (hippius_hub/file_upload.py):
    the store of `History` under the protocol of `Commit`. */
module ConcurrentHistory {
  import opened Basics
  import opened PackStore
  import opened Manifest
  import opened ManifestFiles
  import opened Versions
  import opened DedupIndex
  import C = Commit
  import H = History
  import RB = ReadBack

  /** What a writer has uploaded for its next commit: the new groups, and the files they stand for. */
  datatype Job = Job(groups: seq<Group>, news: Contents, deletes: set<string>)

  function ChangeOf(job: Job): C.Change {
    C.Change(LayersOf(job.groups), job.deletes)
  }

  /** The registry's blobs, the protocol state, the files at the start, every manifest that was ever
      current with the files it is meant to stand for, each writer's job, and the jobs accepted. */
  datatype World = World(
    blobs: Blobs,
    sys: C.Sys,
    initial: Contents,
    versions: seq<H.Version>,
    jobs: map<nat, Job>,
    accepted: seq<Job>)

  datatype Step =
    | Store(content: Bytes)
      // a blob of an upload that never gets any further
    | Upload(w: nat, packSize: nat, indexFrom: nat, uploads: seq<H.NewFile>, deletes: set<string>)
      // index from any manifest that was ever current, and upload
    | Fetch(w: nat, stamp: nat)
      // read the current manifest with its digest, and merge; `upload_file` reads before it uploads,
      // and such a run is matched by one that stores the same blobs just before the read: what is
      // stored under a digest never changes, and no step fails because of a blob that is there
    | Put(w: nat, processed: bool, reply: C.Reply)

  ghost predicate Enabled(s: World, step: Step) {
    match step
    case Store(_) => true
    case Upload(w, packSize, indexFrom, uploads, _) =>
      !C.WriterOf(s.sys, w).Putting? && indexFrom < |s.versions| && H.HonestAll(packSize, uploads)
    case Fetch(w, stamp) =>
      w in s.jobs && C.Enabled(s.sys, C.Fetch(w, true, ChangeOf(s.jobs[w]), stamp))
    case Put(w, processed, reply) =>
      w in s.jobs && C.Enabled(s.sys, C.Step.Put(w, processed, reply))
  }

  ghost function Do(s: World, step: Step): Result<World, H.RepoError>
    requires Enabled(s, step)
  {
    match step
    case Store(content) => Ok(s.(blobs := Stored(s.blobs, content)))
    case Upload(w, packSize, indexFrom, uploads, deletes) =>
      (match BuildIndex(Some(s.versions[indexFrom].layers), s.blobs, {})
       case Err(error) => Err(H.IndexFailed(error))
       case Ok((index, sizes)) =>
         match H.UploadAll(s.blobs, index, sizes, packSize, uploads)
         case (_, Err(error)) => Err(H.UploadFailed(error))
         case (blobs, Ok(groups)) =>
           Ok(s.(blobs := blobs, jobs := s.jobs[w := Job(groups, H.News(uploads), deletes)])))
    case Fetch(w, stamp) =>
      Ok(s.(sys := C.Do(s.sys, C.Fetch(w, true, ChangeOf(s.jobs[w]), stamp))))
    case Put(w, processed, reply) =>
      var p, sys := C.WriterOf(s.sys, w), C.Do(s.sys, C.Step.Put(w, processed, reply));
      if processed && C.Matches(s.sys, p.ifMatch) then
        var accepted := s.accepted + [s.jobs[w]];
        Ok(s.(sys := sys, accepted := accepted,
              versions := s.versions + [H.Version(p.doc.layers, Contained(s.initial, accepted))]))
      else
        Ok(s.(sys := sys))
  }

  /** Nothing holds a writer up: a blob may be stored at any time, an honest upload may start whenever
      its writer has no PUT pending, from any manifest, and a writer that has uploaded may go on to
      read and then to put. */
  lemma WritersAreFree(s: World, content: Bytes, w: nat, packSize: nat, indexFrom: nat, uploads: seq<H.NewFile>,
                       deletes: set<string>, stamp: nat)
    ensures Enabled(s, Store(content)) && Do(s, Store(content)).Ok?
    ensures !C.WriterOf(s.sys, w).Putting? && indexFrom < |s.versions| && H.HonestAll(packSize, uploads) ==>
              Enabled(s, Upload(w, packSize, indexFrom, uploads, deletes))
    ensures !C.WriterOf(s.sys, w).Putting? && w in s.jobs ==>
              Enabled(s, Fetch(w, stamp)) && Do(s, Fetch(w, stamp)).Ok?
              && Enabled(Do(s, Fetch(w, stamp)).value, Step.Put(w, false, C.TransportError))
  {
    if !C.WriterOf(s.sys, w).Putting? && w in s.jobs {
      assert C.WriterOf(C.Do(s.sys, C.Fetch(w, true, ChangeOf(s.jobs[w]), stamp)), w).Putting?;
    }
  }

  /** The files after the accepted jobs, one after the other. */
  function Contained(initial: Contents, accepted: seq<Job>): Contents {
    if accepted == [] then
      initial
    else
      var last := accepted[|accepted| - 1];
      Updated(Contained(initial, accepted[..|accepted| - 1]), last.news, last.deletes)
  }

  /** A revision that exists, and what it holds. */
  datatype Origin = Origin(blobs: Blobs, doc: C.Doc, files: Contents)

  ghost predicate Sound(o: Origin) {
    ContentAddressed(o.blobs) && Stores(o.blobs, o.doc.layers, o.files)
  }

  function Begin(o: Origin): World {
    World(o.blobs, C.Start(Some(o.doc)), o.files, [H.Version(o.doc.layers, o.files)], map[], [])
  }

  /** The state after a run; `None` when some step was not enabled or failed. */
  ghost function After(o: Origin, run: seq<Step>): Option<World> {
    if run == [] then
      Some(Begin(o))
    else
      match After(o, run[..|run| - 1])
      case None => None
      case Some(s) =>
        var step := run[|run| - 1];
        if Enabled(s, step) && Do(s, step).Ok? then Some(Do(s, step).value) else None
  }

  /** Seen by the protocol alone, a run is a guarded run of `Commit`. */
  lemma {:induction false} Projects(o: Origin, run: seq<Step>) returns (commits: seq<C.Step>)
    requires After(o, run).Some?
    ensures C.After(Some(o.doc), commits) == Some(After(o, run).value.sys) && C.EveryReadGuarded(commits)
  {
    if run == [] {
      commits := [];
    } else {
      var before := Projects(o, run[..|run| - 1]);
      var s := After(o, run[..|run| - 1]).value;
      match run[|run| - 1] {
        case Fetch(w, stamp) =>
          commits := before + [C.Fetch(w, true, ChangeOf(s.jobs[w]), stamp)];
          C.Extend(Some(o.doc), before, s.sys, C.Fetch(w, true, ChangeOf(s.jobs[w]), stamp));
        case Put(w, processed, reply) =>
          commits := before + [C.Step.Put(w, processed, reply)];
          C.Extend(Some(o.doc), before, s.sys, C.Step.Put(w, processed, reply));
        case _ =>
          commits := before;
      }
    }
  }

  /** A job whose groups are stored. */
  ghost predicate JobOk(blobs: Blobs, job: Job) {
    GroupsStore(In(blobs), job.groups, job.news)
  }

  ghost predicate JobsOk(blobs: Blobs, jobs: map<nat, Job>) {
    forall w :: w in jobs ==> JobOk(blobs, jobs[w])
  }

  ghost predicate VersionsOk(blobs: Blobs, versions: seq<H.Version>) {
    versions != [] && forall v :: v in versions ==> Stores(blobs, v.layers, v.files)
  }

  /** A writer in its PUT loop is putting its own job. */
  predicate PutsJob(s: World, w: nat) {
    C.WriterOf(s.sys, w).Putting? ==> w in s.jobs && C.WriterOf(s.sys, w).change == ChangeOf(s.jobs[w])
  }

  /** The current manifest is the last version, and stands for the accepted jobs. */
  predicate Current(s: World) {
    && s.versions != [] && s.sys.tag.Some?
    && s.versions[|s.versions| - 1] == H.Version(s.sys.tag.value.layers, Contained(s.initial, s.accepted))
  }

  predicate SameLog(s: World) {
    |s.sys.log| == |s.accepted| && forall k :: 0 <= k < |s.accepted| ==> s.sys.log[k].change == ChangeOf(s.accepted[k])
  }

  ghost predicate Inv(s: World) {
    && ContentAddressed(s.blobs)
    && VersionsOk(s.blobs, s.versions)
    && JobsOk(s.blobs, s.jobs)
    && (forall w :: PutsJob(s, w))
    && Current(s) && SameLog(s)
  }

  lemma VersionsGrow(blobs: Blobs, blobs': Blobs, versions: seq<H.Version>)
    requires VersionsOk(blobs, versions) && Grows(blobs, blobs')
    ensures VersionsOk(blobs', versions)
  {
    forall v | v in versions
      ensures Stores(blobs', v.layers, v.files)
    {
      StoresGrows(blobs, blobs', Partition(v.layers), v.files);
    }
  }

  lemma JobsGrow(blobs: Blobs, blobs': Blobs, jobs: map<nat, Job>)
    requires JobsOk(blobs, jobs) && Grows(blobs, blobs')
    ensures JobsOk(blobs', jobs)
  {
    forall w | w in jobs
      ensures JobOk(blobs', jobs[w])
    {
      assert JobOk(blobs, jobs[w]);
      StoresGrows(blobs, blobs', jobs[w].groups, jobs[w].news);
    }
  }

  /** More blobs change nothing. */
  lemma GrowKeepsInv(s: World, blobs: Blobs)
    requires Inv(s) && Grows(s.blobs, blobs) && ContentAddressed(blobs)
    ensures Inv(s.(blobs := blobs))
  {
    VersionsGrow(s.blobs, blobs, s.versions);
    JobsGrow(s.blobs, blobs, s.jobs);
    hide VersionsOk, JobsOk;
    forall w
      ensures PutsJob(s.(blobs := blobs), w)
    {
      assert PutsJob(s, w);
    }
  }

  /** An upload always succeeds: it adds blobs and gives its writer a job whose files are stored. */
  lemma UploadShape(s: World, step: Step) returns (blobs: Blobs, job: Job)
    requires ContentAddressed(s.blobs) && VersionsOk(s.blobs, s.versions) && step.Upload? && Enabled(s, step)
    ensures ContentAddressed(blobs) && Grows(s.blobs, blobs) && JobOk(blobs, job)
    ensures Do(s, step) == Ok(s.(blobs := blobs, jobs := s.jobs[step.w := job]))
  {
    var v := s.versions[step.indexFrom];
    assert v in s.versions;
    hide Stores, GroupsStore, BuildIndex, H.HonestAll, H.UploadAll, VersionsOk, C.WriterOf;
    assert Stores(s.blobs, v.layers, v.files) by {
      VersionStored(s, step.indexFrom);
    }
    StoredIndexReady(s.blobs, v.layers, v.files, {});
    var (index, sizes) := BuildIndex(Some(v.layers), s.blobs, {}).value;
    H.UploadAllStores(s.blobs, index, sizes, step.packSize, step.uploads);
    var (after, groups) := H.UploadAll(s.blobs, index, sizes, step.packSize, step.uploads);
    blobs, job := after, Job(groups.value, H.News(step.uploads), step.deletes);
  }

  lemma VersionStored(s: World, k: nat)
    requires VersionsOk(s.blobs, s.versions) && k < |s.versions|
    ensures Stores(s.blobs, s.versions[k].layers, s.versions[k].files)
  {
    assert s.versions[k] in s.versions;
  }

  lemma NewJobKeepsInv(s: World, w: nat, job: Job)
    requires Inv(s) && !C.WriterOf(s.sys, w).Putting? && JobOk(s.blobs, job)
    ensures Inv(s.(jobs := s.jobs[w := job]))
  {
    hide VersionsOk, JobOk;
    var after := s.(jobs := s.jobs[w := job]);
    forall v
      ensures PutsJob(after, v)
    {
      assert PutsJob(s, v);
    }
  }

  lemma FetchKeepsInv(s: World, w: nat, stamp: nat)
    requires Inv(s) && Enabled(s, Fetch(w, stamp))
    ensures Inv(Do(s, Fetch(w, stamp)).value)
  {
    hide VersionsOk, JobsOk, C.Apply;
    var after := Do(s, Fetch(w, stamp)).value;
    forall v
      ensures PutsJob(after, v)
    {
      assert PutsJob(s, v);
    }
  }

  /** What the protocol guarantees about the manifest that a guarded writer is putting. */
  lemma GuardedDoc(s: World, w: nat)
    requires C.GuardedSoFar(s.sys) && (forall v :: v in s.sys.writers ==> C.WriterOk(s.sys.writers[v]))
    requires C.WriterOf(s.sys, w).Putting? && C.Matches(s.sys, C.WriterOf(s.sys, w).ifMatch) && PutsJob(s, w)
    ensures C.WriterOf(s.sys, w).doc.layers
            == Merge(s.sys.tag.value.layers, LayersOf(s.jobs[w].groups), s.jobs[w].deletes)
  {
    assert C.WriterOk(s.sys.writers[w]);
  }

  /** An accepted PUT: the new manifest stands for the old files, updated by the writer's job. */
  lemma AcceptedStores(s: World, w: nat)
    requires Inv(s) && C.GuardedSoFar(s.sys) && (forall v :: v in s.sys.writers ==> C.WriterOk(s.sys.writers[v]))
    requires C.WriterOf(s.sys, w).Putting? && C.Matches(s.sys, C.WriterOf(s.sys, w).ifMatch)
    ensures w in s.jobs
    ensures Contained(s.initial, s.accepted + [s.jobs[w]])
            == Updated(Contained(s.initial, s.accepted), s.jobs[w].news, s.jobs[w].deletes)
    ensures Stores(s.blobs, C.WriterOf(s.sys, w).doc.layers, Contained(s.initial, s.accepted + [s.jobs[w]]))
  {
    hide VersionsOk, GroupsStore, Merge, Partition, Updated;
    assert PutsJob(s, w);
    GuardedDoc(s, w);
    VersionStored(s, |s.versions| - 1);
    assert JobOk(s.blobs, s.jobs[w]);
    var job := s.jobs[w];
    assert (s.accepted + [job])[..|s.accepted|] == s.accepted;
    MergeStores(In(s.blobs), s.sys.tag.value.layers, Contained(s.initial, s.accepted), job.groups, job.news, job.deletes);
  }

  lemma PutKeepsJobs(s: World, w: nat, processed: bool, reply: C.Reply)
    requires Enabled(s, Put(w, processed, reply)) && forall v :: PutsJob(s, v)
    ensures forall v :: PutsJob(Do(s, Put(w, processed, reply)).value, v)
  {
    forall v
      ensures PutsJob(Do(s, Put(w, processed, reply)).value, v)
    {
      assert PutsJob(s, v);
    }
  }

  lemma VersionsSnoc(blobs: Blobs, versions: seq<H.Version>, v: H.Version)
    requires VersionsOk(blobs, versions) && Stores(blobs, v.layers, v.files)
    ensures VersionsOk(blobs, versions + [v])
  {
    hide Stores;
  }

  lemma PutKeepsInv(s: World, w: nat, processed: bool, reply: C.Reply)
    requires Inv(s) && C.GuardedSoFar(s.sys) && (forall v :: v in s.sys.writers ==> C.WriterOk(s.sys.writers[v]))
    requires Enabled(s, Put(w, processed, reply))
    ensures Inv(Do(s, Put(w, processed, reply)).value)
  {
    hide VersionsOk, JobsOk, Stores, PutsJob, Contained, C.AfterReply, C.GuardedSoFar, C.WriterOk, ContentAddressed;
    PutKeepsJobs(s, w, processed, reply);
    if processed && C.Matches(s.sys, C.WriterOf(s.sys, w).ifMatch) {
      AcceptedStores(s, w);
      PutsOwnJob(s, w);
      var doc := C.WriterOf(s.sys, w).doc;
      VersionsSnoc(s.blobs, s.versions, H.Version(doc.layers, Contained(s.initial, s.accepted + [s.jobs[w]])));
    }
  }

  lemma PutsOwnJob(s: World, w: nat)
    requires C.WriterOf(s.sys, w).Putting? && PutsJob(s, w)
    ensures w in s.jobs && C.WriterOf(s.sys, w).change == ChangeOf(s.jobs[w])
  {
  }

  lemma BeginInv(o: Origin)
    requires Sound(o)
    ensures Inv(Begin(o))
  {
  }

  lemma StoreKeepsInv(s: World, content: Bytes)
    requires Inv(s)
    ensures Inv(Do(s, Store(content)).value)
  {
    StoredGrows(s.blobs, content);
    GrowKeepsInv(s, Stored(s.blobs, content));
  }

  lemma {:induction false} RunKeepsInv(o: Origin, run: seq<Step>)
    requires Sound(o) && After(o, run).Some?
    ensures Inv(After(o, run).value)
  {
    if run == [] {
      BeginInv(o);
    } else {
      var init, step := run[..|run| - 1], run[|run| - 1];
      RunKeepsInv(o, init);
      var s := After(o, init).value;
      StepKeepsInv(o, init, s, step);
    }
  }

  /** Every step keeps the invariant, and none fails. */
  lemma StepKeepsInv(o: Origin, run: seq<Step>, s: World, step: Step)
    requires Sound(o) && After(o, run) == Some(s) && Inv(s) && Enabled(s, step)
    ensures Do(s, step).Ok? && Inv(Do(s, step).value)
  {
    hide Inv, Sound, VersionsOk, Current, SameLog, C.GuardedSoFar, C.WriterOk;
    match step {
      case Store(content) => StoreKeepsInv(s, content);
      case Upload(w, _, _, _, _) => UploadKeepsInv(s, step);
      case Fetch(w, stamp) => FetchKeepsInv(s, w, stamp);
      case Put(w, processed, reply) =>
        var commits := Projects(o, run);
        C.RunKeepsInv(Some(o.doc), commits);
        C.GuardedReadsGuardAll(o.doc, commits);
        PutKeepsInv(s, w, processed, reply);
    }
  }

  lemma UploadKeepsInv(s: World, step: Step)
    requires Inv(s) && step.Upload? && Enabled(s, step)
    ensures Do(s, step).Ok? && Inv(Do(s, step).value)
  {
    var blobs, job := UploadShape(s, step);
    GrowKeepsInv(s, blobs);
    NewJobKeepsInv(s.(blobs := blobs), step.w, job);
  }

  /** No lost content. From any revision whose files are stored, in every interleaving of uploads
      that index any manifest ever current, of guarded commits with retries and lost responses, and
      of uploads that never finish: the current manifest stores exactly what the accepted commits
      brought and deleted, one after the other in the order of acceptance; so every title reads back
      as the bytes that order gives it. And no upload can fail on what the others did. */
  lemma NoLostContent(o: Origin, run: seq<Step>, title: string)
    requires Sound(o) && After(o, run).Some?
    ensures var s := After(o, run).value;
            var files := Contained(o.files, s.accepted);
            && s.sys.tag.Some? && SameLog(s)
            && Stores(s.blobs, s.sys.tag.value.layers, files)
            && s.sys.tag.value.layers == C.Serial(o.doc.layers, s.sys.log)
            && (title in files && |files[title]| <= U64_MAX ==>
                  RB.ReadsAs(s.blobs, s.sys.tag.value.layers, title, files[title]))
            && (title !in files ==>
                  && Files(s.sys.tag.value.layers).Ok?
                  && Resolved(Files(s.sys.tag.value.layers).value, title) == Err(EntryNotFound(title)))
            && forall step :: Enabled(s, step) ==> Do(s, step).Ok?
  {
    RunKeepsInv(o, run);
    RunKeepsInitial(o, run);
    var s := After(o, run).value;
    VersionStored(s, |s.versions| - 1);
    var commits := Projects(o, run);
    C.NoLostUpdate(o.doc, commits);
    RB.StoredReadsBack(s.blobs, s.sys.tag.value.layers, Contained(o.files, s.accepted), title);
    hide Inv, Sound, Do, Enabled, RB.ReadsAs, Stores;
    forall step | Enabled(s, step)
      ensures Do(s, step).Ok?
    {
      StepKeepsInv(o, run, s, step);
    }
  }

  lemma {:induction false} RunKeepsInitial(o: Origin, run: seq<Step>)
    requires After(o, run).Some?
    ensures After(o, run).value.initial == o.files
  {
    if run != [] {
      RunKeepsInitial(o, run[..|run| - 1]);
    }
  }
}
