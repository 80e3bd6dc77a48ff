/** The chunked-v2 pointer blob: its canonical printer (hippius_hub/_packing.py) and its
    parser (hippius_hub/_oci.py). */
module PointerBlob {
  import opened Basics
  import opened Text
  import opened Json
  import opened PackStore

  const CHUNKED_LAYOUT_V2 := "chunked-v2"

  datatype PointerError = Malformed | WrongVersion | NoChunks

  function RefDoc(ref: ChunkRef): Json {
    Obj(Field("digest", Str(ref.digest),
        Field("offset", Num(ref.offset),
        Field("pack", Str(ref.pack),
        Field("size", Num(ref.size), NoFields)))))
  }

  function RefDocs(refs: seq<ChunkRef>): Items {
    if refs == [] then NoItems else Item(RefDoc(refs[0]), RefDocs(refs[1..]))
  }

  /** The document, its keys sorted at every level. */
  function PointerDoc(wholeHex: string, fileSize: nat, refs: seq<ChunkRef>): Json {
    Obj(Field("chunks", Arr(RefDocs(refs)),
        Field("file", Obj(Field("digest", Str(DIGEST_PREFIX + wholeHex), Field("size", Num(fileSize), NoFields))),
        Field("version", Str(CHUNKED_LAYOUT_V2), NoFields))))
  }

  /** The bytes of an ASCII text. */
  function Encode(s: string): (b: Bytes)
    ensures |b| == |s|
  {
    seq(|s|, i requires 0 <= i < |s| => (s[i] as int % 128) as byte)
  }

  /** The text of a blob, when it is ASCII. */
  function Decode(b: Bytes): Option<string> {
    if exists i :: 0 <= i < |b| && b[i] >= 128 then
      None
    else
      Some(seq(|b|, i requires 0 <= i < |b| => (b[i] as int) as char))
  }

  lemma DecodeEncode(s: string)
    requires Ascii(s)
    ensures Decode(Encode(s)) == Some(s)
  {
    assert Decode(Encode(s)).value == s;
  }

  function PointerV2Bytes(wholeHex: string, fileSize: nat, refs: seq<ChunkRef>): Bytes {
    Encode(Print(PointerDoc(wholeHex, fileSize, refs)))
  }

  /** A dictionary lookup; a repeated key keeps its last value. */
  function Get(fields: Fields, key: string): Option<Json> {
    match fields
    case NoFields => None
    case Field(k, v, tail) =>
      match Get(tail, key)
      case Some(w) => Some(w)
      case None => if k == key then Some(v) else None
  }

  function StrField(fields: Fields, key: string): Option<string> {
    match Get(fields, key)
    case Some(Str(s)) => Some(s)
    case _ => None
  }

  function NatField(fields: Fields, key: string): Option<nat> {
    match Get(fields, key)
    case Some(Num(n)) => if n >= 0 then Some(n) else None
    case _ => None
  }

  function ReadRef(v: Json): Option<ChunkRef> {
    match v
    case Obj(f) =>
      (match (StrField(f, "digest"), NatField(f, "size"), StrField(f, "pack"), NatField(f, "offset"))
       case (Some(d), Some(size), Some(pack), Some(offset)) => Some(ChunkRef(d, size, pack, offset))
       case _ => None)
    case _ => None
  }

  function ReadRefs(items: Items): Option<seq<ChunkRef>> {
    match items
    case NoItems => Some([])
    case Item(head, tail) =>
      match (ReadRef(head), ReadRefs(tail))
      case (Some(ref), Some(refs)) => Some([ref] + refs)
      case _ => None
  }

  function ParsePointerV2(blob: Bytes): Result<seq<ChunkRef>, PointerError> {
    match Decode(blob)
    case None => Err(Malformed)
    case Some(text) =>
      match Parse(text)
      case Some(Obj(doc)) =>
        if Get(doc, "version") != Some(Str(CHUNKED_LAYOUT_V2)) then
          Err(WrongVersion)
        else
          (match Get(doc, "chunks")
           case Some(Arr(items)) =>
             (match ReadRefs(items)
              case None => Err(Malformed)
              case Some(refs) => if refs == [] then Err(NoChunks) else Ok(refs))
           case _ => Err(Malformed))
      case _ => Err(Malformed)
  }

  /** Digests that JSON carries as themselves. */
  predicate PlainRefs(refs: seq<ChunkRef>) {
    forall i :: 0 <= i < |refs| ==> Plain(refs[i].digest) && Plain(refs[i].pack)
  }

  lemma {:induction false} ReadRefsPrinted(refs: seq<ChunkRef>)
    requires PlainRefs(refs)
    ensures PlainItems(RefDocs(refs))
    ensures ReadRefs(RefDocs(refs)) == Some(refs)
  {
    if refs != [] {
      ReadRefsPrinted(refs[1..]);
      ReadRefPrinted(refs[0]);
      assert refs == [refs[0]] + refs[1..];
    }
  }

  lemma Keys()
    ensures "digest" != "offset" && "digest" != "pack" && "digest" != "size"
    ensures "offset" != "pack" && "offset" != "size" && "pack" != "size"
    ensures "chunks" != "file" && "chunks" != "version" && "file" != "version"
    ensures Plain("digest") && Plain("offset") && Plain("pack") && Plain("size")
    ensures Plain("chunks") && Plain("file") && Plain("version") && Plain(CHUNKED_LAYOUT_V2) && Plain(DIGEST_PREFIX)
  {
    assert "pack"[0] != "size"[0] && "digest"[0] != "offset"[0];
  }

  lemma GetField(key: string, value: Json, tail: Fields)
    requires Get(tail, key).None?
    ensures Get(Field(key, value, tail), key) == Some(value)
    ensures forall k :: k != key ==> Get(Field(key, value, tail), k) == Get(tail, k)
  {
  }

  lemma PlainField(key: string, value: Json, tail: Fields)
    requires Plain(key) && PlainJson(value) && PlainFields(tail)
    ensures PlainFields(Field(key, value, tail))
  {
  }

  lemma ReadRefPrinted(ref: ChunkRef)
    requires Plain(ref.digest) && Plain(ref.pack)
    ensures PlainJson(RefDoc(ref)) && ReadRef(RefDoc(ref)) == Some(ref)
  {
    Keys();
    var f3 := Field("size", Num(ref.size), NoFields);
    var f2 := Field("pack", Str(ref.pack), f3);
    var f1 := Field("offset", Num(ref.offset), f2);
    GetField("size", Num(ref.size), NoFields);
    GetField("pack", Str(ref.pack), f3);
    GetField("offset", Num(ref.offset), f2);
    GetField("digest", Str(ref.digest), f1);
    PlainField("size", Num(ref.size), NoFields);
    PlainField("pack", Str(ref.pack), f3);
    PlainField("offset", Num(ref.offset), f2);
    PlainField("digest", Str(ref.digest), f1);
  }

  lemma DocFields(wholeHex: string, fileSize: nat, refs: seq<ChunkRef>)
    requires PlainItems(RefDocs(refs)) && Plain(wholeHex)
    ensures PlainJson(PointerDoc(wholeHex, fileSize, refs))
    ensures var f := PointerDoc(wholeHex, fileSize, refs).fields;
            && Get(f, "version") == Some(Str(CHUNKED_LAYOUT_V2))
            && Get(f, "chunks") == Some(Arr(RefDocs(refs)))
  {
    Keys();
    var size := Field("size", Num(fileSize), NoFields);
    var file := Field("digest", Str(DIGEST_PREFIX + wholeHex), size);
    var f2 := Field("version", Str(CHUNKED_LAYOUT_V2), NoFields);
    var f1 := Field("file", Obj(file), f2);
    GetField("version", Str(CHUNKED_LAYOUT_V2), NoFields);
    GetField("file", Obj(file), f2);
    GetField("chunks", Arr(RefDocs(refs)), f1);
    PlainField("size", Num(fileSize), NoFields);
    PlainField("digest", Str(DIGEST_PREFIX + wholeHex), size);
    PlainField("version", Str(CHUNKED_LAYOUT_V2), NoFields);
    PlainField("file", Obj(file), f2);
    PlainField("chunks", Arr(RefDocs(refs)), f1);
  }

  /** The document itself, read back from its bytes. */
  lemma ParseDoc(wholeHex: string, fileSize: nat, refs: seq<ChunkRef>)
    requires PlainRefs(refs) && Plain(wholeHex)
    ensures var doc := PointerDoc(wholeHex, fileSize, refs);
            && Decode(PointerV2Bytes(wholeHex, fileSize, refs)) == Some(Print(doc))
            && Parse(Print(doc)) == Some(doc)
  {
    var doc := PointerDoc(wholeHex, fileSize, refs);
    ReadRefsPrinted(refs);
    DocFields(wholeHex, fileSize, refs);
    PrintAscii(doc);
    DecodeEncode(Print(doc));
    ParsePrinted(doc);
  }

  /** The parser undoes the printer, down to the characters of the blob. */
  lemma ParsePrintedPointer(wholeHex: string, fileSize: nat, refs: seq<ChunkRef>)
    requires refs != [] && PlainRefs(refs) && Plain(wholeHex)
    ensures ParsePointerV2(PointerV2Bytes(wholeHex, fileSize, refs)) == Ok(refs)
  {
    ParseDoc(wholeHex, fileSize, refs);
    ReadRefsPrinted(refs);
    DocFields(wholeHex, fileSize, refs);
  }

  /** So distinct chunk lists never share a pointer blob. */
  lemma PointerInjective(hexA: string, sizeA: nat, a: seq<ChunkRef>, hexB: string, sizeB: nat, b: seq<ChunkRef>)
    requires PlainRefs(a) && PlainRefs(b) && Plain(hexA) && Plain(hexB)
    requires PointerV2Bytes(hexA, sizeA, a) == PointerV2Bytes(hexB, sizeB, b)
    ensures a == b
  {
    if a != [] {
      ParsePrintedPointer(hexA, sizeA, a);
    }
    if b != [] {
      ParsePrintedPointer(hexB, sizeB, b);
    }
    if a == [] || b == [] {
      EmptyPointer(hexA, sizeA);
      EmptyPointer(hexB, sizeB);
    }
  }

  /** A pointer without chunks prints, but is refused when read. */
  lemma EmptyPointer(wholeHex: string, fileSize: nat)
    requires Plain(wholeHex)
    ensures ParsePointerV2(PointerV2Bytes(wholeHex, fileSize, [])) == Err(NoChunks)
  {
    ParseDoc(wholeHex, fileSize, []);
    DocFields(wholeHex, fileSize, []);
  }

  lemma DigestsArePlain(content: Bytes)
    ensures Plain(Sha256(content)) && Plain(Hex(content))
  {
  }

  function Member(key: string, value: string): string {
    Quoted(key) + ":" + value
  }

  lemma FieldsText(key: string, value: Json, tail: Fields)
    ensures PrintFields(Field(key, value, tail))
            == Member(key, Print(value)) + (if tail.NoFields? then "" else "," + PrintFields(tail))
  {
    hide Quoted, Print;
    var e := Member(key, Print(value));
    if tail.Field? {
      assert e + "," + PrintFields(tail) == e + ("," + PrintFields(tail));
    }
  }

  /** The text of one chunk of a pointer, the keys in sorted order. */
  lemma RefText(ref: ChunkRef)
    ensures Print(RefDoc(ref)) ==
            "{" + (Member("digest", Quoted(ref.digest)) + ("," + (Member("offset", Decimal(ref.offset))
            + ("," + (Member("pack", Quoted(ref.pack)) + ("," + Member("size", Decimal(ref.size)))))))) + "}"
  {
    hide Decimal, Quoted, Member;
    var size := Field("size", Num(ref.size), NoFields);
    var pack := Field("pack", Str(ref.pack), size);
    var offset := Field("offset", Num(ref.offset), pack);
    FieldsText("size", Num(ref.size), NoFields);
    FieldsText("pack", Str(ref.pack), size);
    FieldsText("offset", Num(ref.offset), pack);
    FieldsText("digest", Str(ref.digest), offset);
    assert Member("size", Decimal(ref.size)) + "" == Member("size", Decimal(ref.size));
  }

  /** And of the whole pointer around its chunks, which a comma separates. */
  lemma PointerText(wholeHex: string, fileSize: nat, refs: seq<ChunkRef>)
    ensures Print(PointerDoc(wholeHex, fileSize, refs)) ==
            "{" + (Member("chunks", "[" + PrintItems(RefDocs(refs)) + "]")
            + ("," + (Member("file", "{" + (Member("digest", Quoted("sha256:" + wholeHex))
                                           + ("," + Member("size", Decimal(fileSize)))) + "}")
            + ("," + Member("version", Quoted("chunked-v2")))))) + "}"
    ensures refs == [] ==> PrintItems(RefDocs(refs)) == ""
    ensures |refs| == 1 ==> PrintItems(RefDocs(refs)) == Print(RefDoc(refs[0]))
    ensures |refs| > 1 ==> PrintItems(RefDocs(refs)) == Print(RefDoc(refs[0])) + "," + PrintItems(RefDocs(refs[1..]))
  {
    hide Decimal, Quoted, Member, RefDoc;
    var size := Field("size", Num(fileSize), NoFields);
    var file := Field("digest", Str(DIGEST_PREFIX + wholeHex), size);
    var version := Field("version", Str(CHUNKED_LAYOUT_V2), NoFields);
    var rest := Field("file", Obj(file), version);
    FieldsText("size", Num(fileSize), NoFields);
    FieldsText("digest", Str(DIGEST_PREFIX + wholeHex), size);
    FieldsText("version", Str(CHUNKED_LAYOUT_V2), NoFields);
    FieldsText("file", Obj(file), version);
    FieldsText("chunks", Arr(RefDocs(refs)), rest);
    assert Member("size", Decimal(fileSize)) + "" == Member("size", Decimal(fileSize));
    assert Member("version", Quoted(CHUNKED_LAYOUT_V2)) + "" == Member("version", Quoted(CHUNKED_LAYOUT_V2));
    if |refs| == 1 {
      assert RefDocs(refs) == Item(RefDoc(refs[0]), NoItems);
    }
  }

  /** A pointer says of which file it is: under `file` it gives the digest and the size. */
  lemma PointerNamesFile(wholeHex: string, fileSize: nat, refs: seq<ChunkRef>)
    requires PlainRefs(refs) && Plain(wholeHex)
    ensures Decode(PointerV2Bytes(wholeHex, fileSize, refs)).Some?
    ensures var doc := Parse(Decode(PointerV2Bytes(wholeHex, fileSize, refs)).value);
            && doc.Some? && doc.value.Obj?
            && var file := Get(doc.value.fields, "file");
               && file.Some? && file.value.Obj?
               && StrField(file.value.fields, "digest") == Some("sha256:" + wholeHex)
               && NatField(file.value.fields, "size") == Some(fileSize)
  {
    ParseDoc(wholeHex, fileSize, refs);
    Keys();
    var size := Field("size", Num(fileSize), NoFields);
    var file := Field("digest", Str(DIGEST_PREFIX + wholeHex), size);
    var version := Field("version", Str(CHUNKED_LAYOUT_V2), NoFields);
    var rest := Field("file", Obj(file), version);
    GetField("size", Num(fileSize), NoFields);
    GetField("digest", Str(DIGEST_PREFIX + wholeHex), size);
    GetField("version", Str(CHUNKED_LAYOUT_V2), NoFields);
    GetField("file", Obj(file), version);
    GetField("chunks", Arr(RefDocs(refs)), rest);
  }

  /** A document of another version, or without a chunk list, is refused. */
  lemma OtherVersion(version: string, chunks: Json)
    requires Plain(version) && PlainJson(chunks)
    ensures var doc := Obj(Field("chunks", chunks, Field("version", Str(version), NoFields)));
            && (version != "chunked-v2" ==> ParsePointerV2(Encode(Print(doc))) == Err(WrongVersion))
            && (version == "chunked-v2" && !chunks.Arr? ==> ParsePointerV2(Encode(Print(doc))) == Err(Malformed))
  {
    Keys();
    var last := Field("version", Str(version), NoFields);
    GetField("version", Str(version), NoFields);
    GetField("chunks", chunks, last);
    PlainField("version", Str(version), NoFields);
    PlainField("chunks", chunks, last);
    var doc := Obj(Field("chunks", chunks, last));
    PrintAscii(doc);
    DecodeEncode(Print(doc));
    ParsePrinted(doc);
  }
}
