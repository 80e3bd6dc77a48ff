/** What the pack planner promises: the plan covers the file in order, stores every new
    content once, cuts packs greedily, and locates every chunk it plans. */
module PackingProperties {
  import opened Basics
  import opened Text
  import opened Packing

  predicate Occurs(chunks: seq<Chunk>, d: Digest) {
    exists i :: 0 <= i < |chunks| && chunks[i].digest == d
  }

  predicate IsFirst(chunks: seq<Chunk>, i: nat)
    requires i < |chunks|
  {
    forall j :: 0 <= j < i ==> chunks[j].digest != chunks[i].digest
  }

  /** The chunks to transfer: the first occurrence of every digest no prior pack holds. */
  function FirstNew(index: map<Digest, DedupEntry>, chunks: seq<Chunk>): seq<Chunk> {
    if chunks == [] then
      []
    else
      var init, last := chunks[..|chunks| - 1], chunks[|chunks| - 1];
      if last.digest in index || Occurs(init, last.digest) then FirstNew(index, init)
      else FirstNew(index, init) + [last]
  }

  function RangesOf(chunks: seq<Chunk>): (r: NewPack)
    ensures |r| == |chunks|
  {
    seq(|chunks|, i requires 0 <= i < |chunks| => Range(chunks[i].offset, chunks[i].size))
  }

  /** `r` starts `offset` bytes into `pack`. */
  ghost predicate HoldsAt(pack: NewPack, offset: nat, r: Range) {
    exists j :: 0 <= j < |pack| && pack[j] == r && Size(pack[..j]) == offset
  }

  ghost predicate Placed(packs: seq<NewPack>, pc: PlannedChunk, r: Range) {
    pc.place.InNew? && pc.place.index < |packs| && HoldsAt(packs[pc.place.index], pc.packOffset, r)
  }

  /** `pc` is the right entry for the first occurrence of its digest. */
  ghost predicate FirstEntry(packs: seq<NewPack>, chunks: seq<Chunk>, pc: PlannedChunk) {
    exists j :: 0 <= j < |chunks| && IsFirst(chunks, j) && chunks[j].digest == pc.digest
      && chunks[j].size == pc.size && Placed(packs, pc, Range(chunks[j].offset, pc.size))
  }

  /** `pc` tells where the content of chunk `c` is, in a prior pack or a new one. */
  ghost predicate Describes(
    index: map<Digest, DedupEntry>, packs: seq<NewPack>, chunks: seq<Chunk>, c: Chunk, pc: PlannedChunk)
  {
    && pc.digest == c.digest
    && pc.size == c.size
    && if c.digest in index
       then pc.packOffset == index[c.digest].offset && pc.place == InPrior(index[c.digest].pack)
       else FirstEntry(packs, chunks, pc)
  }

  /** Packs are closed as soon as they reach `packSize`, and only the last may fall short. */
  predicate GreedyCut(packs: seq<NewPack>, packSize: nat) {
    forall k :: 0 <= k < |packs| ==>
      && packs[k] != []
      && Size(packs[k][..|packs[k]| - 1]) < packSize
      && (k + 1 < |packs| ==> Size(packs[k]) >= packSize)
  }

  predicate Full(pack: NewPack, packSize: nat) {
    pack != [] && Size(pack[..|pack| - 1]) < packSize <= Size(pack)
  }

  /** No digest that is new to this file appears with two sizes. */
  predicate Consistent(index: map<Digest, DedupEntry>, chunks: seq<Chunk>) {
    forall i, j :: 0 <= i < j < |chunks| && chunks[i].digest == chunks[j].digest && chunks[i].digest !in index
      ==> chunks[i].size == chunks[j].size
  }

  function Open(a: Acc): seq<NewPack> {
    a.newPacks + [a.cur]
  }

  ghost predicate SeenInv(
    index: map<Digest, DedupEntry>, fed: seq<Chunk>, packs: seq<NewPack>, seen: map<Digest, PlannedChunk>)
  {
    && (forall d :: d in seen <==> d !in index && Occurs(fed, d))
    && (forall d :: d in seen ==> seen[d].digest == d && FirstEntry(packs, fed, seen[d]))
  }

  ghost predicate PlannedInv(
    index: map<Digest, DedupEntry>, fed: seq<Chunk>, packs: seq<NewPack>, planned: seq<PlannedChunk>)
  {
    && |planned| == |fed|
    && forall i :: 0 <= i < |fed| ==> Describes(index, packs, fed, fed[i], planned[i])
  }

  ghost predicate PackInv(news: seq<Chunk>, packSize: nat, packs: seq<NewPack>, cur: NewPack) {
    && Concat(packs) + cur == RangesOf(news)
    && Size(cur) < packSize
    && forall k :: 0 <= k < |packs| ==> Full(packs[k], packSize)
  }

  ghost predicate Inv(index: map<Digest, DedupEntry>, packSize: nat, fed: seq<Chunk>, a: Acc) {
    && a.plan.None?
    && a.curOffset == Size(a.cur)
    && PackInv(FirstNew(index, fed), packSize, a.newPacks, a.cur)
    && SeenInv(index, fed, Open(a), a.seen)
    && PlannedInv(index, fed, Open(a), a.planned)
  }

  predicate Extends(packs: seq<NewPack>, packs': seq<NewPack>) {
    |packs| <= |packs'| && forall k :: 0 <= k < |packs| ==> packs[k] <= packs'[k]
  }

  /** Growing the file and the packs keeps every entry valid. */
  lemma FirstEntryGrows(packs: seq<NewPack>, packs': seq<NewPack>, fed: seq<Chunk>, c: Chunk, pc: PlannedChunk)
    requires FirstEntry(packs, fed, pc) && Extends(packs, packs')
    ensures FirstEntry(packs', fed + [c], pc)
  {
    var j :| 0 <= j < |fed| && IsFirst(fed, j) && fed[j].digest == pc.digest
      && fed[j].size == pc.size && Placed(packs, pc, Range(fed[j].offset, pc.size));
    var fed' := fed + [c];
    assert fed'[j] == fed[j] && IsFirst(fed', j);
    var pack, pack' := packs[pc.place.index], packs'[pc.place.index];
    var i :| 0 <= i < |pack| && pack[i] == Range(fed[j].offset, pc.size) && Size(pack[..i]) == pc.packOffset;
    assert pack' == pack + pack'[|pack|..];
    assert pack'[i] == pack[i] && pack'[..i] == pack[..i];
  }

  lemma OccursSnoc(fed: seq<Chunk>, c: Chunk, d: Digest)
    ensures Occurs(fed + [c], d) <==> Occurs(fed, d) || c.digest == d
  {
    var fed' := fed + [c];
    if Occurs(fed, d) {
      var i :| 0 <= i < |fed| && fed[i].digest == d;
      assert fed'[i].digest == d;
    }
    if c.digest == d {
      assert fed'[|fed|].digest == d;
    }
    if Occurs(fed', d) && c.digest != d {
      var i :| 0 <= i < |fed'| && fed'[i].digest == d;
      assert fed[i].digest == d;
    }
  }

  lemma FirstNewSnoc(index: map<Digest, DedupEntry>, fed: seq<Chunk>, c: Chunk)
    ensures FirstNew(index, fed + [c]) ==
            if c.digest in index || Occurs(fed, c.digest) then FirstNew(index, fed)
            else FirstNew(index, fed) + [c]
  {
    assert (fed + [c])[..|fed|] == fed;
  }

  lemma RangesOfSnoc(chunks: seq<Chunk>, c: Chunk)
    ensures RangesOf(chunks + [c]) == RangesOf(chunks) + [Range(c.offset, c.size)]
  {
  }

  lemma PlannedGrows(index: map<Digest, DedupEntry>, fed: seq<Chunk>, c: Chunk,
                     packs: seq<NewPack>, packs': seq<NewPack>, planned: seq<PlannedChunk>, pc: PlannedChunk)
    requires PlannedInv(index, fed, packs, planned) && Extends(packs, packs')
    requires Describes(index, packs', fed + [c], c, pc)
    ensures PlannedInv(index, fed + [c], packs', planned + [pc])
  {
    var fed', planned' := fed + [c], planned + [pc];
    forall i | 0 <= i < |fed'|
      ensures Describes(index, packs', fed', fed'[i], planned'[i])
    {
      if i < |fed| {
        assert Describes(index, packs, fed, fed[i], planned[i]);
        if fed[i].digest !in index {
          FirstEntryGrows(packs, packs', fed, c, planned[i]);
        }
      }
    }
  }

  lemma SeenGrows(index: map<Digest, DedupEntry>, fed: seq<Chunk>, c: Chunk,
                  packs: seq<NewPack>, packs': seq<NewPack>, seen: map<Digest, PlannedChunk>)
    requires SeenInv(index, fed, packs, seen) && Extends(packs, packs')
    requires c.digest in index || c.digest in seen
    ensures SeenInv(index, fed + [c], packs', seen)
  {
    forall d
      ensures d in seen <==> d !in index && Occurs(fed + [c], d)
    {
      OccursSnoc(fed, c, d);
    }
    forall d | d in seen
      ensures FirstEntry(packs', fed + [c], seen[d])
    {
      FirstEntryGrows(packs, packs', fed, c, seen[d]);
    }
  }

  lemma SeenGains(index: map<Digest, DedupEntry>, fed: seq<Chunk>, c: Chunk,
                  packs: seq<NewPack>, packs': seq<NewPack>, seen: map<Digest, PlannedChunk>, pc: PlannedChunk)
    requires SeenInv(index, fed, packs, seen) && Extends(packs, packs')
    requires c.digest !in index && pc.digest == c.digest && FirstEntry(packs', fed + [c], pc)
    ensures SeenInv(index, fed + [c], packs', seen[c.digest := pc])
  {
    var seen' := seen[c.digest := pc];
    forall d
      ensures d in seen' <==> d !in index && Occurs(fed + [c], d)
    {
      OccursSnoc(fed, c, d);
    }
    forall d | d in seen'
      ensures seen'[d].digest == d && FirstEntry(packs', fed + [c], seen'[d])
    {
      if d != c.digest {
        FirstEntryGrows(packs, packs', fed, c, seen[d]);
      }
    }
  }

  /** A chunk that is stored already, in a prior pack or earlier in this file. */
  lemma FeedStored(index: map<Digest, DedupEntry>, packSize: nat, fed: seq<Chunk>, a: Acc, c: Chunk)
    requires Inv(index, packSize, fed, a)
    requires c.digest in index || c.digest in a.seen
    requires AfterFeed(index, packSize, a, c).Ok?
    ensures Inv(index, packSize, fed + [c], AfterFeed(index, packSize, a, c).value.0)
  {
    FirstNewSnoc(index, fed, c);
    SeenGrows(index, fed, c, Open(a), Open(a), a.seen);
    if c.digest !in index {
      FirstEntryGrows(Open(a), Open(a), fed, c, a.seen[c.digest]);
    }
    var b := AfterFeed(index, packSize, a, c).value.0;
    PlannedGrows(index, fed, c, Open(a), Open(a), a.planned, b.planned[|fed|]);
  }

  lemma FreshPacks(news: seq<Chunk>, packSize: nat, packs: seq<NewPack>, cur: NewPack, c: Chunk)
    requires PackInv(news, packSize, packs, cur) && packSize > 0
    ensures var cur' := cur + [Range(c.offset, c.size)];
            && Size(cur') == Size(cur) + c.size
            && if Size(cur') >= packSize
               then PackInv(news + [c], packSize, packs + [cur'], [])
               else PackInv(news + [c], packSize, packs, cur')
  {
    var r := Range(c.offset, c.size);
    var cur' := cur + [r];
    SizeSnoc(cur, r);
    RangesOfSnoc(news, c);
    ConcatSnoc(packs, cur');
    assert cur'[..|cur|] == cur;
    assert Concat(packs) + cur' == (Concat(packs) + cur) + [r];
  }

  /** A digest met for the first time is placed at the end of the open pack. */
  lemma FreshEntry(fed: seq<Chunk>, packs: seq<NewPack>, cur: NewPack, packs': seq<NewPack>, c: Chunk)
    requires !Occurs(fed, c.digest)
    requires |packs| < |packs'| && packs'[|packs|] == cur + [Range(c.offset, c.size)]
    ensures FirstEntry(packs', fed + [c], PlannedChunk(c.digest, c.size, Size(cur), InNew(|packs|)))
  {
    var pack := packs'[|packs|];
    assert pack[|cur|] == Range(c.offset, c.size) && pack[..|cur|] == cur;
    assert HoldsAt(pack, Size(cur), Range(c.offset, c.size));
    var fed' := fed + [c];
    assert fed'[|fed|] == c && IsFirst(fed', |fed|);
  }

  /** A chunk to transfer. */
  lemma FeedFresh(index: map<Digest, DedupEntry>, packSize: nat, fed: seq<Chunk>, a: Acc, c: Chunk)
    requires Inv(index, packSize, fed, a) && packSize > 0
    requires c.digest !in index && c.digest !in a.seen
    ensures Inv(index, packSize, fed + [c], AfterFeed(index, packSize, a, c).value.0)
  {
    var b := AfterFeed(index, packSize, a, c).value.0;
    FreshShape(index, packSize, a, c);
    FirstNewSnoc(index, fed, c);
    assert PackInv(FirstNew(index, fed + [c]), packSize, b.newPacks, b.cur) by {
      FreshPacks(FirstNew(index, fed), packSize, a.newPacks, a.cur, c);
    }
    FreshEntries(index, fed, a, c, b.seen[c.digest], Open(b));
  }

  lemma FreshShape(index: map<Digest, DedupEntry>, packSize: nat, a: Acc, c: Chunk)
    requires a.plan.None? && a.curOffset == Size(a.cur) && packSize > 0
    requires c.digest !in index && c.digest !in a.seen
    ensures AfterFeed(index, packSize, a, c).Ok?
    ensures var b := AfterFeed(index, packSize, a, c).value.0;
            var pc := PlannedChunk(c.digest, c.size, Size(a.cur), InNew(|a.newPacks|));
            var cur := a.cur + [Range(c.offset, c.size)];
            && b.plan.None? && b.planned == a.planned + [pc] && b.seen == a.seen[c.digest := pc]
            && b.curOffset == Size(b.cur)
            && a.newPacks + [cur] <= Open(b)
            && (if Size(cur) >= packSize then b.newPacks == a.newPacks + [cur] && b.cur == []
                else b.newPacks == a.newPacks && b.cur == cur)
  {
    SizeSnoc(a.cur, Range(c.offset, c.size));
  }

  lemma FreshEntries(index: map<Digest, DedupEntry>, fed: seq<Chunk>, a: Acc, c: Chunk,
                     pc: PlannedChunk, packs: seq<NewPack>)
    requires SeenInv(index, fed, Open(a), a.seen) && PlannedInv(index, fed, Open(a), a.planned)
    requires c.digest !in index && c.digest !in a.seen
    requires pc == PlannedChunk(c.digest, c.size, Size(a.cur), InNew(|a.newPacks|))
    requires a.newPacks + [a.cur + [Range(c.offset, c.size)]] <= packs
    ensures SeenInv(index, fed + [c], packs, a.seen[c.digest := pc])
    ensures PlannedInv(index, fed + [c], packs, a.planned + [pc])
  {
    assert packs[|a.newPacks|] == a.cur + [Range(c.offset, c.size)];
    assert Extends(Open(a), packs);
    FreshEntry(fed, a.newPacks, a.cur, packs, c);
    SeenGains(index, fed, c, Open(a), packs, a.seen, pc);
    PlannedGrows(index, fed, c, Open(a), packs, a.planned, pc);
  }

  lemma FeedKeeps(index: map<Digest, DedupEntry>, packSize: nat, fed: seq<Chunk>, a: Acc, c: Chunk)
    requires Inv(index, packSize, fed, a) && packSize > 0
    ensures AfterFeed(index, packSize, a, c).Ok? ==>
              Inv(index, packSize, fed + [c], AfterFeed(index, packSize, a, c).value.0)
  {
    if AfterFeed(index, packSize, a, c).Ok? {
      if c.digest in index || c.digest in a.seen {
        FeedStored(index, packSize, fed, a, c);
      } else {
        FeedFresh(index, packSize, fed, a, c);
      }
    }
  }

  /** A feed fails exactly when its digest is new and was met with another size. */
  lemma FeedFails(index: map<Digest, DedupEntry>, packSize: nat, fed: seq<Chunk>, a: Acc, c: Chunk)
    requires a.plan.None? && SeenInv(index, fed, Open(a), a.seen) && Consistent(index, fed)
    ensures AfterFeed(index, packSize, a, c).Ok? <==> Consistent(index, fed + [c])
  {
    var fed' := fed + [c];
    if c.digest !in index && c.digest in a.seen {
      var j :| 0 <= j < |fed| && IsFirst(fed, j) && fed[j].digest == c.digest && fed[j].size == a.seen[c.digest].size;
      assert fed'[j] == fed[j] && fed'[|fed|] == c;
    }
    if AfterFeed(index, packSize, a, c).Ok? {
      forall i, j | 0 <= i < j < |fed'| && fed'[i].digest == fed'[j].digest && fed'[i].digest !in index
        ensures fed'[i].size == fed'[j].size
      {
        if j == |fed| {
          assert fed[i].digest == c.digest;
          assert Occurs(fed, c.digest);
          var k :| 0 <= k < |fed| && IsFirst(fed, k) && fed[k].digest == c.digest && fed[k].size == a.seen[c.digest].size;
          assert fed[i].size == fed[k].size;
        }
      }
    }
  }

  /** The invariant of the whole run, and exactly when the run fails. */
  lemma {:induction false} FeedAllInv(index: map<Digest, DedupEntry>, packSize: nat, chunks: seq<Chunk>)
    requires packSize > 0
    ensures FeedAll(index, packSize, chunks).Ok? <==> Consistent(index, chunks)
    ensures FeedAll(index, packSize, chunks).Ok? ==>
              Inv(index, packSize, chunks, FeedAll(index, packSize, chunks).value)
  {
    if chunks != [] {
      var init, c := chunks[..|chunks| - 1], chunks[|chunks| - 1];
      assert chunks == init + [c];
      FeedAllInv(index, packSize, init);
      if FeedAll(index, packSize, init).Ok? {
        var a := FeedAll(index, packSize, init).value;
        FeedFails(index, packSize, init, a, c);
        FeedKeeps(index, packSize, init, a, c);
      } else {
        var i, j :| 0 <= i < j < |init| && init[i].digest == init[j].digest && init[i].digest !in index
          && init[i].size != init[j].size;
        assert chunks[i] == init[i] && chunks[j] == init[j];
      }
    }
  }

  /** The plan, described without the accumulator: one entry a chunk in file order, each
      locating its content; the packs hold exactly the first occurrences of new digests,
      once each and in order; and they are cut greedily. */
  ghost predicate Faithful(index: map<Digest, DedupEntry>, packSize: nat, chunks: seq<Chunk>, p: PackPlan) {
    && PlannedInv(index, chunks, p.newPacks, p.planned)
    && Concat(p.newPacks) == RangesOf(FirstNew(index, chunks))
    && GreedyCut(p.newPacks, packSize)
  }

  /** A plan exists exactly when no new digest appears with two sizes, and is faithful. */
  lemma PlanIsFaithful(index: map<Digest, DedupEntry>, packSize: nat, chunks: seq<Chunk>)
    requires packSize > 0
    ensures Plan(index, packSize, chunks).Ok? <==> Consistent(index, chunks)
    ensures Plan(index, packSize, chunks).Ok? ==>
              Faithful(index, packSize, chunks, Plan(index, packSize, chunks).value)
  {
    FeedAllInv(index, packSize, chunks);
    if Consistent(index, chunks) {
      var a := FeedAll(index, packSize, chunks).value;
      FinishShape(a);
      ClosingCuts(FirstNew(index, chunks), packSize, a.newPacks, a.cur);
      ClosingKeeps(index, chunks, a.newPacks, a.cur, a.planned);
    }
  }

  function Flushed(packs: seq<NewPack>, cur: NewPack): seq<NewPack> {
    if cur == [] then packs else packs + [cur]
  }

  lemma ClosingCuts(news: seq<Chunk>, packSize: nat, packs: seq<NewPack>, cur: NewPack)
    requires PackInv(news, packSize, packs, cur)
    ensures Concat(Flushed(packs, cur)) == RangesOf(news)
    ensures GreedyCut(Flushed(packs, cur), packSize)
  {
    ConcatSnoc(packs, cur);
    if cur != [] {
      SizeMonotone(cur, |cur| - 1);
    }
  }

  lemma FinishShape(a: Acc)
    requires a.plan.None?
    ensures AfterFinish(a).planned == a.planned && AfterFinish(a).newPacks == Flushed(a.newPacks, a.cur)
  {
  }

  lemma ClosingKeepsEntry(chunks: seq<Chunk>, packs: seq<NewPack>, cur: NewPack, pc: PlannedChunk)
    requires FirstEntry(packs + [cur], chunks, pc)
    ensures FirstEntry(Flushed(packs, cur), chunks, pc)
  {
    var j :| 0 <= j < |chunks| && IsFirst(chunks, j) && chunks[j].digest == pc.digest
      && chunks[j].size == pc.size && Placed(packs + [cur], pc, Range(chunks[j].offset, pc.size));
    assert Placed(Flushed(packs, cur), pc, Range(chunks[j].offset, pc.size));
  }

  lemma ClosingKeeps(index: map<Digest, DedupEntry>, chunks: seq<Chunk>,
                     packs: seq<NewPack>, cur: NewPack, planned: seq<PlannedChunk>)
    requires PlannedInv(index, chunks, packs + [cur], planned)
    ensures PlannedInv(index, chunks, Flushed(packs, cur), planned)
  {
    forall i | 0 <= i < |chunks|
      ensures Describes(index, Flushed(packs, cur), chunks, chunks[i], planned[i])
    {
      assert Describes(index, packs + [cur], chunks, chunks[i], planned[i]);
      if chunks[i].digest !in index {
        ClosingKeepsEntry(chunks, packs, cur, planned[i]);
      }
    }
  }

  /** Greedy cuts are unique, so the packs depend on nothing but the new chunks: the
      incremental and the batch planner cannot disagree. */
  lemma {:induction false} GreedyCutUnique(p: seq<NewPack>, q: seq<NewPack>, packSize: nat)
    requires GreedyCut(p, packSize) && GreedyCut(q, packSize)
    requires Concat(p) == Concat(q)
    ensures p == q
    decreases |p|
  {
    Uncons(p);
    Uncons(q);
    if p != [] && q != [] {
      FirstCut(p, q, packSize);
      FirstCut(q, p, packSize);
      SameFirst(p[0], Concat(p[1..]), q[0], Concat(q[1..]));
      GreedyTail(p, packSize);
      GreedyTail(q, packSize);
      GreedyCutUnique(p[1..], q[1..], packSize);
      assert p == [p[0]] + p[1..] && q == [q[0]] + q[1..];
    }
  }

  lemma SameFirst(a: NewPack, b: NewPack, x: NewPack, y: NewPack)
    requires |a| == |x| && a + b == x + y
    ensures a == x && b == y
  {
    assert a == (a + b)[..|a|] && x == (x + y)[..|a|];
    assert b == (a + b)[|a|..] && y == (x + y)[|a|..];
  }

  lemma GreedyTail(p: seq<NewPack>, packSize: nat)
    requires p != [] && GreedyCut(p, packSize)
    ensures GreedyCut(p[1..], packSize)
  {
    var t := p[1..];
    assert forall k :: 0 <= k < |t| ==> t[k] == p[k + 1];
  }

  lemma Uncons(p: seq<NewPack>)
    ensures p != [] ==> Concat(p) == p[0] + Concat(p[1..])
  {
    if p != [] {
      ConcatCons(p[0], p[1..]);
      assert p == [p[0]] + p[1..];
    }
  }

  /** A shorter start of the same list is a prefix of the longer one, less its last range. */
  lemma ShorterStart(a: NewPack, b: NewPack, x: NewPack, y: NewPack)
    requires |a| < |x| && a + b == x + y
    ensures a == x[..|x| - 1][..|a|]
  {
    assert a == (a + b)[..|a|] && x[..|x| - 1][..|a|] == (x + y)[..|a|];
  }

  lemma OnlyPack(p: seq<NewPack>)
    requires |p| == 1
    ensures Concat(p) == p[0]
  {
    assert p[..0] == [];
  }

  lemma FirstCut(p: seq<NewPack>, q: seq<NewPack>, packSize: nat)
    requires p != [] && q != []
    requires GreedyCut(p, packSize) && GreedyCut(q, packSize)
    requires Concat(p) == Concat(q)
    ensures |p[0]| >= |q[0]|
  {
    Uncons(p);
    Uncons(q);
    if |p| == 1 {
      OnlyPack(p);
      assert |p[0]| == |q[0]| + |Concat(q[1..])|;
    } else if |p[0]| < |q[0]| {
      ShorterStart(p[0], Concat(p[1..]), q[0], Concat(q[1..]));
      SizeMonotone(q[0][..|q[0]| - 1], |p[0]|);
    }
  }

  lemma {:induction false} SizeMonotone(pack: NewPack, n: nat)
    requires n <= |pack|
    ensures Size(pack[..n]) <= Size(pack)
  {
    if n < |pack| {
      SizePrefix(pack, n);
    } else {
      assert pack[..n] == pack;
    }
  }

  predicate DistinctDigests(chunks: seq<Chunk>) {
    forall i, j :: 0 <= i < j < |chunks| ==> chunks[i].digest != chunks[j].digest
  }

  lemma {:induction false} FirstNewAmong(index: map<Digest, DedupEntry>, chunks: seq<Chunk>)
    ensures forall c :: c in FirstNew(index, chunks) ==> c in chunks && c.digest !in index
  {
    if chunks != [] {
      FirstNewAmong(index, chunks[..|chunks| - 1]);
    }
  }

  lemma {:induction false} FirstNewOccurs(index: map<Digest, DedupEntry>, chunks: seq<Chunk>, d: Digest)
    ensures Occurs(FirstNew(index, chunks), d) <==> Occurs(chunks, d) && d !in index
  {
    if chunks != [] {
      var init, last := chunks[..|chunks| - 1], chunks[|chunks| - 1];
      assert chunks == init + [last];
      FirstNewOccurs(index, init, d);
      OccursSnoc(init, last, d);
      OccursSnoc(FirstNew(index, init), last, d);
    }
  }

  /** New contents are transferred once: the packed chunks are chunks of the file with
      distinct digests, and those are exactly the digests no prior pack holds. */
  lemma {:induction false} FirstNewOnce(index: map<Digest, DedupEntry>, chunks: seq<Chunk>)
    ensures DistinctDigests(FirstNew(index, chunks))
    ensures forall d :: Occurs(FirstNew(index, chunks), d) <==> Occurs(chunks, d) && d !in index
  {
    if chunks != [] {
      var init, last := chunks[..|chunks| - 1], chunks[|chunks| - 1];
      FirstNewOnce(index, init);
      var rest := FirstNew(index, init);
      if last.digest !in index && !Occurs(init, last.digest) {
        assert !Occurs(rest, last.digest);
        forall i | 0 <= i < |rest|
          ensures rest[i].digest != last.digest
        {
        }
      }
    }
    forall d
      ensures Occurs(FirstNew(index, chunks), d) <==> Occurs(chunks, d) && d !in index
    {
      FirstNewOccurs(index, chunks, d);
    }
  }

  function TotalSize(packs: seq<NewPack>): nat {
    if packs == [] then 0 else TotalSize(packs[..|packs| - 1]) + Size(packs[|packs| - 1])
  }

  function ChunksSize(chunks: seq<Chunk>): nat {
    if chunks == [] then 0 else ChunksSize(chunks[..|chunks| - 1]) + chunks[|chunks| - 1].size
  }

  lemma {:induction false} SizeAppend(a: NewPack, b: NewPack)
    ensures Size(a + b) == Size(a) + Size(b)
  {
    if b == [] {
      assert a + b == a;
    } else {
      assert a + b == (a + b[..|b| - 1]) + [b[|b| - 1]];
      SizeSnoc(a + b[..|b| - 1], b[|b| - 1]);
      SizeAppend(a, b[..|b| - 1]);
    }
  }

  lemma {:induction false} SizeOfConcat(packs: seq<NewPack>)
    ensures Size(Concat(packs)) == TotalSize(packs)
  {
    if packs != [] {
      SizeOfConcat(packs[..|packs| - 1]);
      SizeAppend(Concat(packs[..|packs| - 1]), packs[|packs| - 1]);
    }
  }

  lemma {:induction false} SizeOfRanges(chunks: seq<Chunk>)
    ensures Size(RangesOf(chunks)) == ChunksSize(chunks)
  {
    if chunks != [] {
      SizeOfRanges(chunks[..|chunks| - 1]);
      assert RangesOf(chunks)[..|chunks| - 1] == RangesOf(chunks[..|chunks| - 1]);
    }
  }

  /** What is transferred is the total size of the distinct chunks that no prior pack holds. */
  lemma TransferredBytes(index: map<Digest, DedupEntry>, packSize: nat, chunks: seq<Chunk>)
    requires packSize > 0 && Plan(index, packSize, chunks).Ok?
    ensures TotalSize(Plan(index, packSize, chunks).value.newPacks) == ChunksSize(FirstNew(index, chunks))
  {
    PlanIsFaithful(index, packSize, chunks);
    SizeOfConcat(Plan(index, packSize, chunks).value.newPacks);
    SizeOfRanges(FirstNew(index, chunks));
  }

  /** Writer and reader agree on pack sizes: every pack but the last reaches `packSize`,
      and none passes it by a whole chunk. */
  lemma PackSizeBounds(index: map<Digest, DedupEntry>, packSize: nat, chunks: seq<Chunk>, maxChunk: nat, k: nat)
    requires packSize > 0 && Plan(index, packSize, chunks).Ok?
    requires k < |Plan(index, packSize, chunks).value.newPacks|
    requires forall c :: c in chunks ==> 0 < c.size <= maxChunk
    ensures var packs := Plan(index, packSize, chunks).value.newPacks;
            && 0 < Size(packs[k]) <= packSize + maxChunk - 1
            && (k + 1 < |packs| ==> packSize <= Size(packs[k]))
  {
    PlanIsFaithful(index, packSize, chunks);
    FirstNewAmong(index, chunks);
    CutBounds(Plan(index, packSize, chunks).value.newPacks, FirstNew(index, chunks), packSize, maxChunk, k);
  }

  lemma CutBounds(packs: seq<NewPack>, news: seq<Chunk>, packSize: nat, maxChunk: nat, k: nat)
    requires GreedyCut(packs, packSize) && Concat(packs) == RangesOf(news) && k < |packs|
    requires forall c :: c in news ==> 0 < c.size <= maxChunk
    ensures 0 < Size(packs[k]) <= packSize + maxChunk - 1
    ensures k + 1 < |packs| ==> packSize <= Size(packs[k])
  {
    var pack := packs[k];
    InConcat(packs, k, |pack| - 1);
    var i :| 0 <= i < |news| && RangesOf(news)[i] == pack[|pack| - 1];
    assert news[i] in news;
  }

  lemma {:induction false} InConcat<T>(ss: seq<seq<T>>, k: nat, j: nat)
    requires k < |ss| && j < |ss[k]|
    ensures ss[k][j] in Concat(ss)
  {
    if k < |ss| - 1 {
      var init := ss[..|ss| - 1];
      assert init[k] == ss[k];
      InConcat(init, k, j);
    }
  }
}
