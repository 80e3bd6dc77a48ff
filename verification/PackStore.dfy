/** Content-addressed storage of packs, and the references that a pointer keeps into it
    (hippius_hub/_packing.py, hippius_hub/_oci.py). */
module PackStore {
  import opened Basics
  import opened Text
  import opened Packing
  import opened PackingProperties

  /** The blobs a registry holds, by digest. */
  type Blobs = map<Digest, Bytes>

  ghost predicate ContentAddressed(blobs: Blobs) {
    forall d :: d in blobs ==> d == Sha256(blobs[d])
  }

  /** One chunk of a stored file: what it must hash to, and where its bytes are. */
  datatype ChunkRef = ChunkRef(digest: Digest, size: nat, pack: Digest, offset: nat)

  /** `content` is stored `offset` bytes into blob `pack`. */
  ghost predicate Holds(blobs: Blobs, pack: Digest, offset: nat, content: Bytes) {
    pack in blobs && offset + |content| <= |blobs[pack]| && blobs[pack][offset..offset + |content|] == content
  }

  /** Every entry of a dedup index names a pack range that holds the digest's content. */
  ghost predicate IndexOk(blobs: Blobs, index: map<Digest, DedupEntry>) {
    forall d :: d in index ==>
      exists content :: Sha256(content) == d && Holds(blobs, index[d].pack, index[d].offset, content)
  }

  function RefsSize(refs: seq<ChunkRef>): nat {
    if refs == [] then 0 else RefsSize(refs[..|refs| - 1]) + refs[|refs| - 1].size
  }

  /** The chunk list tiles `[0, n)` with non-empty chunks. */
  predicate Tiled(chunks: seq<Chunk>, n: nat) {
    if chunks == [] then
      n == 0
    else
      var last := chunks[|chunks| - 1];
      last.size > 0 && last.offset + last.size == n && Tiled(chunks[..|chunks| - 1], last.offset)
  }

  /** What the chunker hands over for `file`: a tiling, each chunk with its own digest. */
  ghost predicate ChunksOf(file: Bytes, chunks: seq<Chunk>) {
    && Tiled(chunks, |file|)
    && forall i :: 0 <= i < |chunks| ==>
         chunks[i].offset + chunks[i].size <= |file| && chunks[i].digest == Sha256(Content(file, chunks[i]))
  }

  function Content(file: Bytes, c: Chunk): Bytes
    requires c.offset + c.size <= |file|
  {
    file[c.offset..c.offset + c.size]
  }

  predicate InFile(file: Bytes, pack: NewPack) {
    forall j :: 0 <= j < |pack| ==> pack[j].offset + pack[j].size <= |file|
  }

  /** The blob built for a pack: its ranges of the source file, concatenated. */
  function PackBlob(file: Bytes, pack: NewPack): (blob: Bytes)
    requires InFile(file, pack)
    ensures |blob| == Size(pack)
  {
    if pack == [] then
      []
    else
      var last := pack[|pack| - 1];
      PackBlob(file, pack[..|pack| - 1]) + file[last.offset..last.offset + last.size]
  }

  /** A range sits in its pack at the prefix sum of the ranges before it. */
  lemma {:induction false} PackBlobRange(file: Bytes, pack: NewPack, j: nat)
    requires InFile(file, pack) && j < |pack|
    ensures Size(pack[..j]) + pack[j].size <= Size(pack)
    ensures PackBlob(file, pack)[Size(pack[..j])..Size(pack[..j]) + pack[j].size]
            == file[pack[j].offset..pack[j].offset + pack[j].size]
  {
    var init, last := pack[..|pack| - 1], pack[|pack| - 1];
    if j < |init| {
      PackBlobRange(file, init, j);
      assert init[..j] == pack[..j];
      var lo, hi := Size(pack[..j]), Size(pack[..j]) + pack[j].size;
      assert PackBlob(file, pack)[lo..hi] == PackBlob(file, init)[lo..hi];
    }
  }

  predicate AllInFile(file: Bytes, packs: seq<NewPack>) {
    forall k :: 0 <= k < |packs| ==> InFile(file, packs[k])
  }

  function PackBlobs(file: Bytes, packs: seq<NewPack>): (bs: seq<Bytes>)
    requires AllInFile(file, packs)
    ensures |bs| == |packs|
    ensures forall k :: 0 <= k < |packs| ==> bs[k] == PackBlob(file, packs[k])
  {
    seq(|packs|, k requires 0 <= k < |packs| => PackBlob(file, packs[k]))
  }

  function Digests(contents: seq<Bytes>): (ds: seq<Digest>)
    ensures |ds| == |contents|
    ensures forall k :: 0 <= k < |contents| ==> ds[k] == Sha256(contents[k])
  {
    seq(|contents|, k requires 0 <= k < |contents| => Sha256(contents[k]))
  }

  function Stored(blobs: Blobs, content: Bytes): Blobs {
    blobs[Sha256(content) := content]
  }

  /** The registry after every content is uploaded under its own digest. */
  function StoredAll(blobs: Blobs, contents: seq<Bytes>): Blobs {
    if contents == [] then blobs else Stored(StoredAll(blobs, contents[..|contents| - 1]), contents[|contents| - 1])
  }

  ghost predicate Grows(blobs: Blobs, blobs': Blobs) {
    forall d :: d in blobs ==> d in blobs' && blobs'[d] == blobs[d]
  }

  lemma StoredGrows(blobs: Blobs, content: Bytes)
    requires ContentAddressed(blobs)
    ensures ContentAddressed(Stored(blobs, content)) && Grows(blobs, Stored(blobs, content))
  {
    if Sha256(content) in blobs {
      Sha256Injective(blobs[Sha256(content)], content);
    }
  }

  /** Uploading loses nothing, keeps the store content-addressed, and stores every content. */
  lemma {:induction false} StoredAllGrows(blobs: Blobs, contents: seq<Bytes>)
    requires ContentAddressed(blobs)
    ensures ContentAddressed(StoredAll(blobs, contents)) && Grows(blobs, StoredAll(blobs, contents))
    ensures forall c :: c in contents ==>
              Sha256(c) in StoredAll(blobs, contents) && StoredAll(blobs, contents)[Sha256(c)] == c
  {
    if contents != [] {
      var init, last := contents[..|contents| - 1], contents[|contents| - 1];
      StoredAllGrows(blobs, init);
      StoredGrows(StoredAll(blobs, init), last);
      forall c | c in contents
        ensures Sha256(c) in StoredAll(blobs, contents) && StoredAll(blobs, contents)[Sha256(c)] == c
      {
        assert c in init || c == last;
      }
    }
  }

  lemma {:induction false} StoredAllSpec(blobs: Blobs, contents: seq<Bytes>)
    ensures forall d :: d in StoredAll(blobs, contents) <==> d in blobs || exists c :: c in contents && Sha256(c) == d
    ensures forall c :: c in contents ==> Sha256(c) in StoredAll(blobs, contents)
                                          && StoredAll(blobs, contents)[Sha256(c)] == c
    ensures forall d :: d in blobs && (forall c :: c in contents ==> Sha256(c) != d) ==>
              d in StoredAll(blobs, contents) && StoredAll(blobs, contents)[d] == blobs[d]
  {
    if contents != [] {
      var init, last := contents[..|contents| - 1], contents[|contents| - 1];
      StoredAllSpec(blobs, init);
      assert contents == init + [last];
      forall c | c in init && Sha256(c) == Sha256(last)
        ensures c == last
      {
        Sha256Injective(c, last);
      }
    }
  }

  /** The order of uploads does not matter, nor does uploading twice: packs sent in parallel leave
      the store that sending them one after the other leaves. */
  lemma StoredInAnyOrder(blobs: Blobs, a: seq<Bytes>, b: seq<Bytes>)
    requires forall c :: c in a <==> c in b
    ensures StoredAll(blobs, a) == StoredAll(blobs, b)
  {
    StoredAllSpec(blobs, a);
    StoredAllSpec(blobs, b);
    hide Sha256;
    var x, y := StoredAll(blobs, a), StoredAll(blobs, b);
    forall d | d in x
      ensures x[d] == y[d]
    {
      if exists c :: c in a && Sha256(c) == d {
        var c :| c in a && Sha256(c) == d;
        assert x[Sha256(c)] == c && y[Sha256(c)] == c;
      }
    }
  }

  /** Filling uploaded pack digests into the plan. */
  function ResolvePlanned(planned: seq<PlannedChunk>, digests: seq<Digest>): (refs: seq<ChunkRef>)
    requires forall i :: 0 <= i < |planned| && planned[i].place.InNew? ==> planned[i].place.index < |digests|
    ensures |refs| == |planned|
  {
    seq(|planned|, i requires 0 <= i < |planned| =>
      var pc := planned[i];
      var pack := match pc.place case InPrior(d) => d case InNew(k) => digests[k];
      ChunkRef(pc.digest, pc.size, pack, pc.packOffset))
  }

  datatype ResolveError = DigestCountMismatch(expected: nat, got: nat)

  predicate IndexedInto(plan: PackPlan) {
    forall i :: 0 <= i < |plan.planned| && plan.planned[i].place.InNew? ==>
      plan.planned[i].place.index < |plan.newPacks|
  }

  method ResolvePointerChunks(plan: PackPlan, digests: seq<Digest>) returns (r: Result<seq<ChunkRef>, ResolveError>)
    requires IndexedInto(plan)
    ensures |digests| != |plan.newPacks| ==> r == Err(DigestCountMismatch(|plan.newPacks|, |digests|))
    ensures |digests| == |plan.newPacks| ==> r == Ok(ResolvePlanned(plan.planned, digests))
  {
    if |digests| != |plan.newPacks| {
      return Err(DigestCountMismatch(|plan.newPacks|, |digests|));
    }
    var out: seq<ChunkRef> := [];
    for i := 0 to |plan.planned|
      invariant out == ResolvePlanned(plan.planned[..i], digests)
    {
      var pc := plan.planned[i];
      var pack;
      match pc.place {
        case InPrior(d) => pack := d;
        case InNew(k) => pack := digests[k];
      }
      out := out + [ChunkRef(pc.digest, pc.size, pack, pc.packOffset)];
    }
    assert plan.planned[..|plan.planned|] == plan.planned;
    return Ok(out);
  }

  /** A reference that can be read back as `content`. */
  ghost predicate RefHolds(blobs: Blobs, ref: ChunkRef, content: Bytes) {
    ref.digest == Sha256(content) && ref.size == |content| && Holds(blobs, ref.pack, ref.offset, content)
  }

  /** The references describe `file`: one for each chunk, in order. */
  ghost predicate RefsDescribe(blobs: Blobs, refs: seq<ChunkRef>, file: Bytes, chunks: seq<Chunk>) {
    && |refs| == |chunks|
    && Tiled(chunks, |file|)
    && forall i :: 0 <= i < |chunks| ==>
         chunks[i].offset + chunks[i].size <= |file| && RefHolds(blobs, refs[i], Content(file, chunks[i]))
  }

  lemma HonestChunksConsistent(index: map<Digest, DedupEntry>, file: Bytes, chunks: seq<Chunk>)
    requires ChunksOf(file, chunks)
    ensures Consistent(index, chunks)
  {
    forall i, j | 0 <= i < j < |chunks| && chunks[i].digest == chunks[j].digest
      ensures chunks[i].size == chunks[j].size
    {
      Sha256Injective(Content(file, chunks[i]), Content(file, chunks[j]));
    }
  }

  lemma NewsInFile(file: Bytes, news: seq<Chunk>, packs: seq<NewPack>)
    requires Concat(packs) == RangesOf(news)
    requires forall c :: c in news ==> c.offset + c.size <= |file|
    ensures AllInFile(file, packs)
  {
    forall k, j | 0 <= k < |packs| && 0 <= j < |packs[k]|
      ensures packs[k][j].offset + packs[k][j].size <= |file|
    {
      InConcat(packs, k, j);
      var i :| 0 <= i < |news| && RangesOf(news)[i] == packs[k][j];
      assert news[i] in news;
    }
  }

  lemma PlanInFile(index: map<Digest, DedupEntry>, file: Bytes, chunks: seq<Chunk>, packs: seq<NewPack>)
    requires ChunksOf(file, chunks) && Concat(packs) == RangesOf(FirstNew(index, chunks))
    ensures AllInFile(file, packs)
  {
    FirstNewAmong(index, chunks);
    NewsInFile(file, FirstNew(index, chunks), packs);
  }

  lemma PlanIndexed(index: map<Digest, DedupEntry>, chunks: seq<Chunk>, p: PackPlan)
    requires PlannedInv(index, chunks, p.newPacks, p.planned)
    ensures IndexedInto(p)
  {
    forall i | 0 <= i < |p.planned| && p.planned[i].place.InNew?
      ensures p.planned[i].place.index < |p.newPacks|
    {
      assert Describes(index, p.newPacks, chunks, chunks[i], p.planned[i]);
    }
  }

  /** Honest chunks never clash, so planning cannot fail, and the plan only reads the file. */
  lemma HonestChunksPlan(index: map<Digest, DedupEntry>, packSize: nat, file: Bytes, chunks: seq<Chunk>)
    requires packSize > 0 && ChunksOf(file, chunks)
    ensures Plan(index, packSize, chunks).Ok?
    ensures Faithful(index, packSize, chunks, Plan(index, packSize, chunks).value)
    ensures IndexedInto(Plan(index, packSize, chunks).value)
    ensures AllInFile(file, Plan(index, packSize, chunks).value.newPacks)
  {
    HonestChunksConsistent(index, file, chunks);
    PlanIsFaithful(index, packSize, chunks);
    var p := Plan(index, packSize, chunks).value;
    PlanInFile(index, file, chunks, p.newPacks);
    PlanIndexed(index, chunks, p);
  }

  lemma HoldsGrows(blobs: Blobs, blobs': Blobs, pack: Digest, offset: nat, content: Bytes)
    requires Holds(blobs, pack, offset, content) && Grows(blobs, blobs')
    ensures Holds(blobs', pack, offset, content)
  {
  }

  /** An entry placed in a new pack reads back the chunk it was placed for. */
  lemma NewEntryHolds(blobs: Blobs, file: Bytes, packs: seq<NewPack>, pc: PlannedChunk, first: Chunk)
    requires AllInFile(file, packs)
    requires Placed(packs, pc, Range(first.offset, first.size))
    requires first.offset + first.size <= |file|
    requires forall b :: b in PackBlobs(file, packs) ==> Sha256(b) in blobs && blobs[Sha256(b)] == b
    ensures Holds(blobs, Digests(PackBlobs(file, packs))[pc.place.index], pc.packOffset, Content(file, first))
  {
    hide PackBlob, Sha256, Size;
    var pack := packs[pc.place.index];
    var k :| 0 <= k < |pack| && pack[k] == Range(first.offset, first.size) && Size(pack[..k]) == pc.packOffset;
    PackBlobRange(file, pack, k);
    assert PackBlobs(file, packs)[pc.place.index] == PackBlob(file, pack);
    assert PackBlob(file, pack) in PackBlobs(file, packs);
  }

  /** An entry reused from a prior pack reads back the same content, whatever file it came from. */
  lemma PriorEntryHolds(blobs: Blobs, index: map<Digest, DedupEntry>, content: Bytes)
    requires IndexOk(blobs, index) && Sha256(content) in index
    ensures Holds(blobs, index[Sha256(content)].pack, index[Sha256(content)].offset, content)
  {
    var d := Sha256(content);
    var prior :| Sha256(prior) == d && Holds(blobs, index[d].pack, index[d].offset, prior);
    Sha256Injective(prior, content);
  }

  lemma FirstContent(file: Bytes, chunks: seq<Chunk>, i: nat, packs: seq<NewPack>, pc: PlannedChunk)
    returns (first: Chunk)
    requires ChunksOf(file, chunks) && i < |chunks|
    requires FirstEntry(packs, chunks, pc) && pc.digest == chunks[i].digest
    ensures first.offset + first.size <= |file|
    ensures Content(file, first) == Content(file, chunks[i])
    ensures Placed(packs, pc, Range(first.offset, first.size))
  {
    var j :| 0 <= j < |chunks| && IsFirst(chunks, j) && chunks[j].digest == pc.digest
      && chunks[j].size == pc.size && Placed(packs, pc, Range(chunks[j].offset, pc.size));
    first := chunks[j];
    Sha256Injective(Content(file, first), Content(file, chunks[i]));
  }

  /** A planned entry, once resolved, can be read back as its own chunk's content. */
  lemma EntryHolds(blobs: Blobs, blobs': Blobs, index: map<Digest, DedupEntry>, file: Bytes, chunks: seq<Chunk>,
                   p: PackPlan, i: nat)
    requires ChunksOf(file, chunks) && i < |chunks| && |p.planned| == |chunks|
    requires IndexOk(blobs, index) && Grows(blobs, blobs')
    requires IndexedInto(p) && AllInFile(file, p.newPacks)
    requires Describes(index, p.newPacks, chunks, chunks[i], p.planned[i])
    requires forall b :: b in PackBlobs(file, p.newPacks) ==> Sha256(b) in blobs' && blobs'[Sha256(b)] == b
    ensures RefHolds(blobs', ResolvePlanned(p.planned, Digests(PackBlobs(file, p.newPacks)))[i],
                     Content(file, chunks[i]))
  {
    var pc, content := p.planned[i], Content(file, chunks[i]);
    if chunks[i].digest in index {
      PriorEntryHolds(blobs, index, content);
      HoldsGrows(blobs, blobs', pc.place.pack, pc.packOffset, content);
    } else {
      var first := FirstContent(file, chunks, i, p.newPacks, pc);
      NewEntryHolds(blobs', file, p.newPacks, pc, first);
    }
  }

  /** Plan, upload, resolve: whatever mix of reused, repeated and new chunks, the pointer
      describes the file exactly. */
  lemma UploadDescribes(blobs: Blobs, index: map<Digest, DedupEntry>, packSize: nat, file: Bytes, chunks: seq<Chunk>)
    requires packSize > 0 && ChunksOf(file, chunks)
    requires ContentAddressed(blobs) && IndexOk(blobs, index)
    ensures Plan(index, packSize, chunks).Ok?
    ensures var p := Plan(index, packSize, chunks).value;
            && IndexedInto(p) && AllInFile(file, p.newPacks)
            && var contents := PackBlobs(file, p.newPacks);
               RefsDescribe(StoredAll(blobs, contents), ResolvePlanned(p.planned, Digests(contents)), file, chunks)
  {
    HonestChunksPlan(index, packSize, file, chunks);
    var p := Plan(index, packSize, chunks).value;
    var contents := PackBlobs(file, p.newPacks);
    var blobs' := StoredAll(blobs, contents);
    StoredAllGrows(blobs, contents);
    forall i | 0 <= i < |chunks|
      ensures RefHolds(blobs', ResolvePlanned(p.planned, Digests(contents))[i], Content(file, chunks[i]))
    {
      assert Describes(index, p.newPacks, chunks, chunks[i], p.planned[i]);
      EntryHolds(blobs, blobs', index, file, chunks, p, i);
    }
  }
}
