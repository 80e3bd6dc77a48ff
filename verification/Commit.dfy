/** Several writers commit to one revision (hippius_hub/file_upload.py): read, merge, PUT with
    `If-Match` (section 13.1.1 of RFC 9110), retry. A manifest's digest is the manifest itself. */
module Commit {
  import opened Basics
  import opened Text
  import opened Retry
  import opened Manifest
  import opened ManifestFiles

  /** A manifest document: its layers, and a stamp for its other annotations. */
  datatype Doc = Doc(layers: seq<Layer>, stamp: nat)

  datatype Change = Change(newLayers: seq<Layer>, deletes: set<string>)

  function LayersIn(doc: Option<Doc>): seq<Layer> {
    match doc
    case None => []
    case Some(d) => d.layers
  }

  function Apply(base: seq<Layer>, c: Change): seq<Layer> {
    Merge(base, c.newLayers, c.deletes)
  }

  /** What comes back from a PUT: nothing, or a status, and whether the body names an unknown
      blob. */
  datatype Reply = TransportError | Status(code: nat, blobUnknown: bool)

  datatype PutResult = Published | Concurrent | MissingBlob | HttpError(code: nat) | Unreachable

  predicate Accepted(reply: Reply) {
    reply.Status? && 200 <= reply.code < 300
  }

  predicate CommitRace(reply: Reply) {
    reply.Status? && reply.code == 400 && reply.blobUnknown
  }

  predicate RetryableStatus(code: nat) {
    code in {408, 429, 500, 502, 503, 504}
  }

  predicate Transient(reply: Reply) {
    reply == TransportError || RetryableStatus(reply.code) || CommitRace(reply)
  }

  /** The result of a PUT loop that stops at this reply. */
  function ResultOf(reply: Reply): PutResult {
    match reply
    case TransportError => Unreachable
    case Status(code, _) =>
      if code == 412 then Concurrent
      else if 200 <= code < 300 then Published
      else if CommitRace(reply) then MissingBlob
      else HttpError(code)
  }

  /** Which replies are retried, and what the last one means. A 400 is retried only when it names an
      unknown blob, and then ends as a missing blob; only a 2xx publishes, and only a 412 conflicts. */
  lemma ReplyTable(code: nat, unknown: bool)
    ensures Transient(TransportError) && ResultOf(TransportError) == Unreachable
    ensures Transient(Status(code, unknown)) <==> code in {408, 429, 500, 502, 503, 504} || (code == 400 && unknown)
    ensures ResultOf(Status(code, unknown)) == MissingBlob <==> code == 400 && unknown
    ensures ResultOf(Status(code, unknown)) == Published <==> 200 <= code <= 299
    ensures ResultOf(Status(code, unknown)) == Concurrent <==> code == 412
    ensures ResultOf(Status(code, unknown)).HttpError? ==> ResultOf(Status(code, unknown)) == HttpError(code)
    ensures ResultOf(Status(code, unknown)) != Unreachable
    ensures Accepted(Status(code, unknown)) <==> 200 <= code <= 299
  {
  }

  /** The statuses retried here are fewer than those the transfer code retries: a 501, or a 505
      and above, ends a manifest PUT at once. */
  lemma RetryableStatusNarrower(code: nat)
    ensures RetryableStatus(code) <==> IsRetryable(ServerError(code)) && code != 501 && code <= 504
  {
  }

  /** A read of the manifest: what it found, and whether the response carried its digest. */
  datatype Read = Read(doc: Option<Doc>, header: bool)

  /** One PUT as it was sent. */
  datatype Request = Request(doc: Doc, ifMatch: Option<Doc>)

  /** The revision that a manifest is put to; other writers may move it at any time. */
  class Revision {
    var tag: Option<Doc>
    ghost var seen: seq<Read>       // the reads that were answered
    ghost var misses: nat           // how many were not
    ghost var sent: seq<Request>    // every PUT

    /** Read the current manifest, which may be missing. */
    method Fetch() returns (read: Option<Read>)
      modifies this
      ensures read.Some? ==> read.value.doc == tag && seen == old(seen) + [read.value] && misses == old(misses)
      ensures read.None? ==> seen == old(seen) && misses == old(misses) + 1
      ensures sent == old(sent)
    {
      tag := *;
      var answered, header: bool := *, *;
      if answered {
        read := Some(Read(tag, header));
        seen := seen + [read.value];
      } else {
        read := None;
        misses := misses + 1;
      }
    }

    /** One PUT. It may be lost on the way in or out; if it is processed, `If-Match` is checked
        and the manifest replaced in one step. */
    method Put(doc: Doc, ifMatch: Option<Doc>) returns (reply: Reply)
      modifies this
      ensures Accepted(reply) ==> tag == Some(doc)
      ensures reply.Status? && reply.code == 412 ==> ifMatch.Some? && tag != ifMatch
      ensures sent == old(sent) + [Request(doc, ifMatch)] && seen == old(seen) && misses == old(misses)
    {
      sent := sent + [Request(doc, ifMatch)];
      tag := *;
      reply := *;
      var processed: bool := *;
      if ifMatch.Some? && tag != ifMatch {
        if Accepted(reply) {
          reply := Status(412, false);
        }
      } else {
        if processed || Accepted(reply) {
          tag := Some(doc);
        }
        if reply.Status? && reply.code == 412 {
          reply := TransportError;
        }
      }
    }
  }

  /** Nothing but this request was sent, as often as there are replies. */
  predicate SentOnly(before: seq<Request>, after: seq<Request>, times: nat, q: Request) {
    && |after| == |before| + times && before <= after
    && forall k :: |before| <= k < |after| ==> after[k] == q
  }

  /** The PUT loop. It stops at the first reply that is not transient, or when the budget is
      spent; a 412 is never retried. */
  method PutManifest(rev: Revision, doc: Doc, ifMatch: Option<Doc>, maxRetries: nat)
    returns (r: PutResult, replies: seq<Reply>)
    modifies rev
    ensures 1 <= |replies| <= maxRetries + 1
    ensures forall k :: 0 <= k < |replies| - 1 ==> Transient(replies[k])
    ensures Transient(replies[|replies| - 1]) ==> |replies| == maxRetries + 1
    ensures r == ResultOf(replies[|replies| - 1])
    ensures r == MissingBlob ==> |replies| == maxRetries + 1 && replies[maxRetries] == Status(400, true)
    ensures r == Published ==> rev.tag == Some(doc)
    ensures r == Concurrent ==> ifMatch.Some? && rev.tag != ifMatch
    ensures SentOnly(old(rev.sent), rev.sent, |replies|, Request(doc, ifMatch))
    ensures rev.seen == old(rev.seen) && rev.misses == old(rev.misses)
  {
    replies := [];
    for attempt := 0 to maxRetries + 1
      invariant |replies| == attempt
      invariant attempt <= maxRetries
      invariant forall k :: 0 <= k < |replies| ==> Transient(replies[k])
      invariant SentOnly(old(rev.sent), rev.sent, |replies|, Request(doc, ifMatch))
      invariant rev.seen == old(rev.seen) && rev.misses == old(rev.misses)
    {
      var reply := rev.Put(doc, ifMatch);
      replies := replies + [reply];
      if reply.Status? {
        if reply.code == 412 {
          return Concurrent, replies;
        }
        if 200 <= reply.code < 300 {
          return Published, replies;
        }
        if !RetryableStatus(reply.code) && !CommitRace(reply) {
          return HttpError(reply.code), replies;
        }
      }
      if attempt == maxRetries {
        return ResultOf(reply), replies;
      }
    }
  }

  /** A writer between its read and the end of its PUT loop. `ifMatch` is the digest it read, if
      it read one. */
  datatype Writer =
    | Idle
    | Putting(base: Option<Doc>, ifMatch: Option<Doc>, change: Change, doc: Doc, attempts: nat)
    | Finished(result: PutResult)

  /** One manifest that the registry accepted: what it replaced, what its writer had read, and
      whether the PUT carried `If-Match`. */
  datatype Entry = Entry(before: Option<Doc>, base: Option<Doc>, guarded: bool, change: Change, doc: Doc)

  datatype Sys = Sys(tag: Option<Doc>, log: seq<Entry>, writers: map<nat, Writer>)

  datatype Step =
    | Fetch(w: nat, header: bool, change: Change, stamp: nat)
      // read, upload, merge; `header` says whether the response carried a digest
    | Put(w: nat, processed: bool, reply: Reply)
      // one PUT, processed by the registry or not, and what the writer sees of it

  const MANIFEST_PUT_MAX_RETRIES: nat := 12

  function WriterOf(s: Sys, w: nat): Writer {
    if w in s.writers then s.writers[w] else Idle
  }

  predicate Matches(s: Sys, ifMatch: Option<Doc>) {
    ifMatch.Some? ==> s.tag == ifMatch
  }

  predicate Enabled(s: Sys, step: Step) {
    match step
    case Fetch(w, _, _, _) => !WriterOf(s, w).Putting?
    case Put(w, processed, reply) =>
      && WriterOf(s, w).Putting?
      && var p := WriterOf(s, w);
         && (Accepted(reply) ==> processed && Matches(s, p.ifMatch))
         && (reply.Status? && reply.code == 412 ==> processed && !Matches(s, p.ifMatch))
  }

  function AfterReply(p: Writer, reply: Reply): Writer
    requires p.Putting?
  {
    if Transient(reply) && p.attempts < MANIFEST_PUT_MAX_RETRIES then p.(attempts := p.attempts + 1)
    else Finished(ResultOf(reply))
  }

  /** A pending PUT goes on after a transient reply, twelve times at most, and ends with any other. */
  lemma BudgetTable(p: Writer, code: nat, unknown: bool)
    requires p.Putting?
    ensures AfterReply(p, TransportError) == if p.attempts < 12 then p.(attempts := p.attempts + 1) else Finished(Unreachable)
    ensures AfterReply(p, Status(code, unknown)).Putting? <==>
              p.attempts < 12 && (code in {408, 429, 500, 502, 503, 504} || (code == 400 && unknown))
    ensures code == 400 && unknown && p.attempts >= 12 ==> AfterReply(p, Status(code, unknown)) == Finished(MissingBlob)
    ensures 200 <= code <= 299 ==> AfterReply(p, Status(code, unknown)) == Finished(Published)
    ensures code == 412 ==> AfterReply(p, Status(code, unknown)) == Finished(Concurrent)
  {
  }

  function Do(s: Sys, step: Step): Sys
    requires Enabled(s, step)
  {
    match step
    case Fetch(w, header, change, stamp) =>
      var doc := Doc(Apply(LayersIn(s.tag), change), stamp);
      s.(writers := s.writers[w := Putting(s.tag, if header then s.tag else None, change, doc, 0)])
    case Put(w, processed, reply) =>
      var p := WriterOf(s, w);
      var s' := s.(writers := s.writers[w := AfterReply(p, reply)]);
      if processed && Matches(s, p.ifMatch) then
        s'.(tag := Some(p.doc), log := s.log + [Entry(s.tag, p.base, p.ifMatch.Some?, p.change, p.doc)])
      else
        s'
  }

  function Start(initial: Option<Doc>): Sys {
    Sys(initial, [], map[])
  }

  /** The state after a run; `None` when some step was not enabled. */
  function After(initial: Option<Doc>, run: seq<Step>): Option<Sys> {
    if run == [] then
      Some(Start(initial))
    else
      match After(initial, run[..|run| - 1])
      case None => None
      case Some(s) => if Enabled(s, run[|run| - 1]) then Some(Do(s, run[|run| - 1])) else None
  }

  /** Every document is the merge of what its writer read, and a guarded one replaced exactly
      that. */
  predicate EntryOk(e: Entry) {
    && e.doc.layers == Apply(LayersIn(e.base), e.change)
    && (e.guarded ==> e.before == e.base)
  }

  predicate WriterOk(p: Writer) {
    p.Putting? ==> p.doc.layers == Apply(LayersIn(p.base), p.change) && (p.ifMatch.Some? ==> p.ifMatch == p.base)
  }

  /** The accepted manifests, each replacing the one before, lead from `initial` to `tag`. */
  predicate Chained(initial: Option<Doc>, log: seq<Entry>, tag: Option<Doc>) {
    if log == [] then
      tag == initial
    else
      var last := log[|log| - 1];
      tag == Some(last.doc) && Chained(initial, log[..|log| - 1], last.before)
  }

  predicate Inv(initial: Option<Doc>, s: Sys) {
    && Chained(initial, s.log, s.tag)
    && (forall k :: 0 <= k < |s.log| ==> EntryOk(s.log[k]))
    && (forall w :: w in s.writers ==> WriterOk(s.writers[w]))
  }

  lemma AcceptKeepsChain(initial: Option<Doc>, log: seq<Entry>, tag: Option<Doc>, e: Entry)
    requires Chained(initial, log, tag) && e.before == tag
    ensures Chained(initial, log + [e], Some(e.doc))
  {
    assert (log + [e])[..|log|] == log;
  }

  lemma PutKeepsInv(initial: Option<Doc>, s: Sys, w: nat, processed: bool, reply: Reply)
    requires Inv(initial, s) && Enabled(s, Step.Put(w, processed, reply))
    ensures Inv(initial, Do(s, Step.Put(w, processed, reply)))
  {
    var p := WriterOf(s, w);
    assert WriterOk(p) && WriterOk(AfterReply(p, reply));
    if processed && Matches(s, p.ifMatch) {
      AcceptKeepsChain(initial, s.log, s.tag, Entry(s.tag, p.base, p.ifMatch.Some?, p.change, p.doc));
    }
  }

  lemma DoKeepsInv(initial: Option<Doc>, s: Sys, step: Step)
    requires Inv(initial, s) && Enabled(s, step)
    ensures Inv(initial, Do(s, step))
  {
    match step {
      case Fetch(_, _, _, _) =>
      case Put(w, processed, reply) => PutKeepsInv(initial, s, w, processed, reply);
    }
  }

  lemma {:induction false} RunKeepsInv(initial: Option<Doc>, run: seq<Step>)
    requires After(initial, run).Some?
    ensures Inv(initial, After(initial, run).value)
  {
    if run != [] {
      var init := run[..|run| - 1];
      RunKeepsInv(initial, init);
      DoKeepsInv(initial, After(initial, init).value, run[|run| - 1]);
    }
  }

  predicate AllGuarded(log: seq<Entry>) {
    forall k :: 0 <= k < |log| ==> log[k].guarded
  }

  /** Applying the accepted changes one after the other, as if there had been one writer. */
  function Serial(initial: seq<Layer>, log: seq<Entry>): seq<Layer> {
    if log == [] then initial else Apply(Serial(initial, log[..|log| - 1]), log[|log| - 1].change)
  }

  lemma {:induction false} ChainIsSerial(initial: Option<Doc>, log: seq<Entry>, tag: Option<Doc>)
    requires Chained(initial, log, tag) && AllGuarded(log)
    requires forall k :: 0 <= k < |log| ==> EntryOk(log[k])
    ensures LayersIn(tag) == Serial(LayersIn(initial), log)
  {
    if log != [] {
      var last := log[|log| - 1];
      ChainIsSerial(initial, log[..|log| - 1], last.before);
      assert EntryOk(last);
    }
  }

  /** Every read of the run found a manifest and carried its digest. */
  predicate EveryReadGuarded(run: seq<Step>) {
    forall k :: 0 <= k < |run| && run[k].Fetch? ==> run[k].header
  }

  predicate GuardedSoFar(s: Sys) {
    && s.tag.Some?
    && AllGuarded(s.log)
    && forall w :: w in s.writers && s.writers[w].Putting? ==> s.writers[w].ifMatch.Some?
  }

  lemma {:induction false} GuardedReadsGuardAll(initial: Doc, run: seq<Step>)
    requires After(Some(initial), run).Some? && EveryReadGuarded(run)
    ensures GuardedSoFar(After(Some(initial), run).value)
  {
    if run != [] {
      var init := run[..|run| - 1];
      GuardedReadsGuardAll(initial, init);
    }
  }

  /** No lost update. When every read carried a digest, then in every interleaving, with any
      number of retries and lost responses, the current manifest is what the accepted changes
      give one after the other: each was merged into exactly the manifest it replaced. */
  lemma NoLostUpdate(initial: Doc, run: seq<Step>)
    requires After(Some(initial), run).Some? && EveryReadGuarded(run)
    ensures var s := After(Some(initial), run).value;
            && s.tag.Some? && s.tag.value.layers == Serial(initial.layers, s.log)
            && forall k :: 0 <= k < |s.log| ==>
                 s.log[k].doc.layers == Apply(LayersIn(s.log[k].before), s.log[k].change)
  {
    RunKeepsInv(Some(initial), run);
    GuardedReadsGuardAll(initial, run);
    var s := After(Some(initial), run).value;
    ChainIsSerial(Some(initial), s.log, s.tag);
    forall k | 0 <= k < |s.log|
      ensures s.log[k].doc.layers == Apply(LayersIn(s.log[k].before), s.log[k].change)
    {
      assert EntryOk(s.log[k]);
    }
  }

  /** The change neither brings a file of that title nor deletes it. */
  predicate LeavesAlone(c: Change, title: string)
    requires Files(c.newLayers).Ok?
  {
    Find(Files(c.newLayers).value, title).None? && title !in c.deletes
  }

  predicate Readable(initial: seq<Layer>, log: seq<Entry>) {
    Files(initial).Ok? && forall k :: 0 <= k < |log| ==> Files(log[k].change.newLayers).Ok?
  }

  lemma {:induction false} SerialReadable(initial: seq<Layer>, log: seq<Entry>)
    requires Readable(initial, log)
    ensures Files(Serial(initial, log)).Ok?
  {
    if log != [] {
      var init, c := log[..|log| - 1], log[|log| - 1].change;
      SerialReadable(initial, init);
      MergeIsMapUpdate(Serial(initial, init), c.newLayers, c.deletes, "");
    }
  }

  /** A file in place after the first `n` accepted changes is still there, unchanged, as long as
      no later one replaces or deletes its title. */
  lemma {:induction false} FileSurvives(initial: seq<Layer>, log: seq<Entry>, n: nat, title: string)
    requires Readable(initial, log) && n <= |log|
    requires forall k :: n <= k < |log| ==> LeavesAlone(log[k].change, title)
    ensures Files(Serial(initial, log[..n])).Ok? && Files(Serial(initial, log)).Ok?
    ensures Find(Files(Serial(initial, log)).value, title) == Find(Files(Serial(initial, log[..n])).value, title)
  {
    SerialReadable(initial, log);
    SerialReadable(initial, log[..n]);
    if n == |log| {
      assert log[..n] == log;
    } else {
      var init, c := log[..|log| - 1], log[|log| - 1].change;
      assert init[..n] == log[..n];
      FileSurvives(initial, init, n, title);
      MergeIsMapUpdate(Serial(initial, init), c.newLayers, c.deletes, title);
    }
  }

  /** So a committed file vanishes from a guarded revision only when an accepted commit replaces
      or deletes it. */
  lemma CommittedFileSurvives(initial: Doc, run: seq<Step>, n: nat, title: string)
    requires After(Some(initial), run).Some? && EveryReadGuarded(run)
    requires var s := After(Some(initial), run).value;
             && Readable(initial.layers, s.log) && n < |s.log|
             && forall k :: n < k < |s.log| ==> LeavesAlone(s.log[k].change, title)
    ensures var s := After(Some(initial), run).value;
            && s.tag.Some? && Files(s.log[n].doc.layers).Ok? && Files(s.tag.value.layers).Ok?
            && Find(Files(s.tag.value.layers).value, title) == Find(Files(s.log[n].doc.layers).value, title)
  {
    var s := After(Some(initial), run).value;
    NoLostUpdate(initial, run);
    RunKeepsInv(Some(initial), run);
    GuardedReadsGuardAll(initial, run);
    FileSurvives(initial.layers, s.log, n + 1, title);
    ChainPrefix(Some(initial), s.log, s.tag, n);
    ChainIsSerial(Some(initial), s.log[..n + 1], Some(s.log[n].doc));
  }

  lemma {:induction false} ChainPrefix(initial: Option<Doc>, log: seq<Entry>, tag: Option<Doc>, n: nat)
    requires Chained(initial, log, tag) && n < |log|
    ensures Chained(initial, log[..n + 1], Some(log[n].doc))
  {
    if n + 1 == |log| {
      assert log[..n + 1] == log;
    } else {
      var init := log[..|log| - 1];
      assert init[..n + 1] == log[..n + 1];
      ChainPrefix(initial, init, log[|log| - 1].before, n);
    }
  }

  function OneFile(title: string): Layer {
    Layer(OtherLayer, 0, Sha256([]), Some(title), None)
  }

  function Adding(title: string): Change {
    Change([OneFile(title)], {})
  }

  lemma AddingToNothing(title: string)
    requires title != ""
    ensures Apply([], Adding(title)) == [OneFile(title)]
  {
    assert Partition([]) == [];
    assert LayersOf(Surviving([], Gone([OneFile(title)], {}))) == [];
  }

  /** The guard is needed: from any state in which a writer is about to put without `If-Match`,
      another writer, itself guarded or not, can publish a new file and see it vanish with that
      put, although no accepted change replaces or deletes it. */
  lemma UnguardedPutLoses(s: Sys, w: nat, v: nat, title: string)
    requires WriterOf(s, w).Putting? && WriterOf(s, w).ifMatch.None?
    requires v != w && !WriterOf(s, v).Putting? && title != ""
    requires Files(LayersIn(s.tag)).Ok? && Files(WriterOf(s, w).doc.layers).Ok?
    requires Find(Files(WriterOf(s, w).doc.layers).value, title).None?
    ensures var read, put, late := Fetch(v, true, Adding(title), 0), Step.Put(v, true, Status(201, false)),
                                   Step.Put(w, true, Status(201, false));
            && Enabled(s, read) && Enabled(Do(s, read), put) && Enabled(Do(Do(s, read), put), late)
            && var published, lost := Do(Do(s, read), put), Do(Do(Do(s, read), put), late);
               && WriterOf(lost, v) == Finished(Published) && WriterOf(lost, w) == Finished(Published)
               && Files(LayersIn(published.tag)).Ok? && Find(Files(LayersIn(published.tag)).value, title).Some?
               && Files(LayersIn(lost.tag)).Ok? && Find(Files(LayersIn(lost.tag)).value, title).None?
  {
    OneFileFiles(title);
    MergeIsMapUpdate(LayersIn(s.tag), [OneFile(title)], {}, title);
    Overtaken(s, w, v, Adding(title));
  }

  /** A whole guarded commit by `v`, and then the put of `w`. */
  lemma Overtaken(s: Sys, w: nat, v: nat, c: Change)
    requires WriterOf(s, w).Putting? && WriterOf(s, w).ifMatch.None?
    requires v != w && !WriterOf(s, v).Putting?
    ensures var read, put, late := Fetch(v, true, c, 0), Step.Put(v, true, Status(201, false)),
                                   Step.Put(w, true, Status(201, false));
            && Enabled(s, read) && Enabled(Do(s, read), put) && Enabled(Do(Do(s, read), put), late)
            && var published, lost := Do(Do(s, read), put), Do(Do(Do(s, read), put), late);
               && WriterOf(lost, v) == Finished(Published) && WriterOf(lost, w) == Finished(Published)
               && published.tag == Some(Doc(Apply(LayersIn(s.tag), c), 0))
               && lost.tag == Some(WriterOf(s, w).doc)
  {
    var s1 := Do(s, Fetch(v, true, c, 0));
    assert WriterOf(s1, v) == Putting(s.tag, s.tag, c, Doc(Apply(LayersIn(s.tag), c), 0), 0);
    assert WriterOf(s1, w) == WriterOf(s, w);
    var s2 := Do(s1, Step.Put(v, true, Status(201, false)));
    assert WriterOf(s2, w) == WriterOf(s, w);
  }

  lemma OneFileFiles(title: string)
    requires title != ""
    ensures Files([OneFile(title)]).Ok? && Find(Files([OneFile(title)]).value, title).Some?
  {
    var l, f := OneFile(title), FileGroup(title, 0, Sha256([]), None);
    assert [l][..0] == [] && Files([]) == Ok([]) && FileOf(l) == Ok(f);
    assert [] + [f] == [f];
    assert Files([l]) == Ok([f]);
  }

  lemma Extend(initial: Option<Doc>, run: seq<Step>, s: Sys, step: Step)
    requires After(initial, run) == Some(s) && Enabled(s, step)
    ensures After(initial, run + [step]) == Some(Do(s, step))
  {
    assert (run + [step])[..|run|] == run;
  }

  /** Two reads that both found nothing. */
  lemma TwoFirstReads(a: Change, b: Change)
    ensures After(None, [Fetch(0, true, a, 0), Fetch(1, true, b, 0)])
            == Some(Sys(None, [], map[0 := Putting(None, None, a, Doc(Apply([], a), 0), 0),
                                      1 := Putting(None, None, b, Doc(Apply([], b), 0), 0)]))
  {
    var f0, f1 := Fetch(0, true, a, 0), Fetch(1, true, b, 0);
    var s1 := Sys(None, [], map[0 := Putting(None, None, a, Doc(Apply([], a), 0), 0)]);
    Extend(None, [], Start(None), f0);
    assert [] + [f0] == [f0] && Do(Start(None), f0) == s1;
    Extend(None, [f0], s1, f1);
    assert [f0] + [f1] == [f0, f1];
  }

  /** Without the guard an update is lost. Two first commits both read 404, so neither sends
      `If-Match`; both are accepted, and the file of the first is gone. */
  lemma FirstCommitsRace()
    ensures var run := [Fetch(0, true, Adding("a"), 0), Fetch(1, true, Adding("b"), 0)]
                       + [Put(0, true, Status(201, false))] + [Put(1, true, Status(201, false))];
            && After(None, run).Some?
            && var s := After(None, run).value;
               && WriterOf(s, 0) == Finished(Published) && WriterOf(s, 1) == Finished(Published)
               && s.tag == Some(Doc([OneFile("b")], 0))
               && |s.log| == 2 && s.log[0].doc == Doc([OneFile("a")], 0)
  {
    var a, b := Adding("a"), Adding("b");
    AddingToNothing("a");
    AddingToNothing("b");
    TwoFirstReads(a, b);
    var fetches := [Fetch(0, true, a, 0), Fetch(1, true, b, 0)];
    var p0, p1 := Step.Put(0, true, Status(201, false)), Step.Put(1, true, Status(201, false));
    var s2 := After(None, fetches).value;
    Extend(None, fetches, s2, p0);
    Extend(None, fetches + [p0], Do(s2, p0), p1);
  }

  /** A lost response is reported as a conflict, although the manifest was accepted: the retry
      carries a digest that the first attempt itself made stale. */
  lemma LostResponseConflicts(initial: Doc, change: Change, stamp: nat)
    requires Doc(Apply(initial.layers, change), stamp) != initial
    ensures var run := [Fetch(0, true, change, stamp)] + [Put(0, true, TransportError)] + [Put(0, true, Status(412, false))];
            && After(Some(initial), run).Some?
            && var s := After(Some(initial), run).value;
               && WriterOf(s, 0) == Finished(Concurrent)
               && s.tag == Some(Doc(Apply(initial.layers, change), stamp))
  {
    var f, p, q := Fetch(0, true, change, stamp), Step.Put(0, true, TransportError), Step.Put(0, true, Status(412, false));
    var doc := Doc(Apply(initial.layers, change), stamp);
    var s1 := Sys(Some(initial), [], map[0 := Putting(Some(initial), Some(initial), change, doc, 0)]);
    Extend(Some(initial), [], Start(Some(initial)), f);
    assert [] + [f] == [f] && Do(Start(Some(initial)), f) == s1;
    Extend(Some(initial), [f], s1, p);
    var s2 := Do(s1, p);
    assert WriterOf(s2, 0) == Putting(Some(initial), Some(initial), change, doc, 1);
    Extend(Some(initial), [f] + [p], s2, q);
  }

  /** Applying one and the same change twice changes no layer. An upload that is run again computes
      its change afresh, and need not come to the same one (`Rerun.RerunSameLayers`). */
  lemma CommitTwice(base: seq<Layer>, c: Change)
    requires c.newLayers != [] ==> Named(c.newLayers[0].title)
    ensures Apply(Apply(base, c), c) == Apply(base, c)
  {
    var gone := Gone(c.newLayers, c.deletes);
    var kept, added := Surviving(Partition(base), gone), Partition(c.newLayers);
    MergePartition(base, c.newLayers, c.deletes);
    SurvivingAppend(kept, added, gone);
    SurvivingTwice(Partition(base), gone);
    PartitionSplits(c.newLayers);
    PartitionHead(c.newLayers);
    forall g | g in added
      ensures Dropped(g, gone)
    {
      var k :| 0 <= k < |added| && added[k] == g;
      assert Named(added[k].title);
    }
    SurvivingNone(added, gone);
    assert kept + [] == kept;
  }
}
