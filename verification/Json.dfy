/** The JSON fragment that pointer blobs use (RFC 8259, sections 2 to 7): objects, arrays,
    integers and strings without escapes, printed with no white space. */
module Json {
  import opened Basics
  import opened Text

  datatype Json = Num(n: int) | Str(s: string) | Arr(items: Items) | Obj(fields: Fields)

  datatype Items = NoItems | Item(head: Json, tail: Items)

  datatype Fields = NoFields | Field(key: string, value: Json, tail: Fields)

  /** Characters that a JSON string carries as themselves. */
  predicate PlainChar(c: char) {
    ' ' <= c <= '~' && c != '"' && c != '\\'
  }

  predicate Plain(s: string) {
    forall i :: 0 <= i < |s| ==> PlainChar(s[i])
  }

  predicate PlainJson(v: Json) {
    match v
    case Num(_) => true
    case Str(s) => Plain(s)
    case Arr(items) => PlainItems(items)
    case Obj(fields) => PlainFields(fields)
  }

  predicate PlainItems(items: Items) {
    match items
    case NoItems => true
    case Item(head, tail) => PlainJson(head) && PlainItems(tail)
  }

  predicate PlainFields(fields: Fields) {
    match fields
    case NoFields => true
    case Field(key, value, tail) => Plain(key) && PlainJson(value) && PlainFields(tail)
  }

  function Print(v: Json): string {
    match v
    case Num(n) => PrintInt(n)
    case Str(s) => Quoted(s)
    case Arr(items) => "[" + PrintItems(items) + "]"
    case Obj(fields) => "{" + PrintFields(fields) + "}"
  }

  function PrintInt(n: int): string {
    if n < 0 then "-" + Decimal(-n) else Decimal(n)
  }

  function Quoted(s: string): string {
    "\"" + s + "\""
  }

  function PrintItems(items: Items): string {
    match items
    case NoItems => ""
    case Item(head, NoItems) => Print(head)
    case Item(head, tail) => Print(head) + "," + PrintItems(tail)
  }

  function PrintFields(fields: Fields): string {
    match fields
    case NoFields => ""
    case Field(key, value, NoFields) => Quoted(key) + ":" + Print(value)
    case Field(key, value, tail) => Quoted(key) + ":" + Print(value) + "," + PrintFields(tail)
  }

  /** How many leading characters are digits. */
  function DigitSpan(s: string): (n: nat)
    ensures n <= |s| && AllDigits(s[..n])
    ensures n < |s| ==> !IsDigit(s[n])
  {
    if s == "" || !IsDigit(s[0]) then
      0
    else
      var n := 1 + DigitSpan(s[1..]);
      assert s[..n] == [s[0]] + s[1..][..n - 1];
      n
  }

  /** An integer without sign and without a leading zero. */
  function ParseNat(s: string): (r: Option<(nat, string)>)
    ensures r.Some? ==> |r.value.1| < |s|
  {
    var n := DigitSpan(s);
    if n == 0 || (s[0] == '0' && n > 1) then None else Some((DigitsValue(s[..n]), s[n..]))
  }

  function ParseInt(s: string): (r: Option<(Json, string)>)
    ensures r.Some? ==> |r.value.1| < |s|
  {
    if s != "" && s[0] == '-' then
      match ParseNat(s[1..])
      case None => None
      case Some((n, rest)) => Some((Num(0 - (n as int)), rest))
    else
      match ParseNat(s)
      case None => None
      case Some((n, rest)) => Some((Num(n), rest))
  }

  /** The body of a string, up to its closing quote. */
  function ParseBody(s: string): (r: Option<(string, string)>)
    ensures r.Some? ==> |r.value.1| < |s|
  {
    if s == "" then
      None
    else if s[0] == '"' then
      Some(("", s[1..]))
    else if !PlainChar(s[0]) then
      None
    else
      match ParseBody(s[1..])
      case None => None
      case Some((body, rest)) => Some(([s[0]] + body, rest))
  }

  function ParseValue(s: string): (r: Option<(Json, string)>)
    ensures r.Some? ==> |r.value.1| < |s|
    decreases |s|, 1
  {
    if s == "" then
      None
    else if s[0] == '"' then
      match ParseBody(s[1..])
      case None => None
      case Some((body, rest)) => Some((Str(body), rest))
    else if s[0] == '[' then
      if |s| > 1 && s[1] == ']' then
        Some((Arr(NoItems), s[2..]))
      else
        match ParseItems(s[1..])
        case None => None
        case Some((items, rest)) => Some((Arr(items), rest))
    else if s[0] == '{' then
      if |s| > 1 && s[1] == '}' then
        Some((Obj(NoFields), s[2..]))
      else
        match ParseFields(s[1..])
        case None => None
        case Some((fields, rest)) => Some((Obj(fields), rest))
    else
      ParseInt(s)
  }

  /** One or more values, up to and including the closing bracket. */
  function ParseItems(s: string): (r: Option<(Items, string)>)
    ensures r.Some? ==> |r.value.1| < |s|
    decreases |s|, 2
  {
    match ParseValue(s)
    case None => None
    case Some((head, rest)) =>
      if rest == "" then
        None
      else if rest[0] == ']' then
        Some((Item(head, NoItems), rest[1..]))
      else if rest[0] == ',' then
        match ParseItems(rest[1..])
        case None => None
        case Some((tail, after)) => Some((Item(head, tail), after))
      else
        None
  }

  /** One or more members, up to and including the closing brace. */
  function ParseFields(s: string): (r: Option<(Fields, string)>)
    ensures r.Some? ==> |r.value.1| < |s|
    decreases |s|, 2
  {
    if s == "" || s[0] != '"' then
      None
    else
      match ParseBody(s[1..])
      case None => None
      case Some((key, colon)) =>
        if colon == "" || colon[0] != ':' then
          None
        else
          match ParseValue(colon[1..])
          case None => None
          case Some((value, rest)) =>
            if rest == "" then
              None
            else if rest[0] == '}' then
              Some((Field(key, value, NoFields), rest[1..]))
            else if rest[0] == ',' then
              match ParseFields(rest[1..])
              case None => None
              case Some((tail, after)) => Some((Field(key, value, tail), after))
            else
              None
  }

  /** A whole document: one value and nothing after it. */
  function Parse(s: string): Option<Json> {
    match ParseValue(s)
    case None => None
    case Some((v, rest)) => if rest == "" then Some(v) else None
  }

  predicate StopsNumber(rest: string) {
    rest == "" || !IsDigit(rest[0])
  }

  lemma {:induction false} DigitSpanAt(digits: string, rest: string)
    requires AllDigits(digits) && StopsNumber(rest)
    ensures DigitSpan(digits + rest) == |digits|
  {
    if digits == "" {
      assert digits + rest == rest;
    } else {
      assert (digits + rest)[1..] == digits[1..] + rest;
      DigitSpanAt(digits[1..], rest);
    }
  }

  lemma ParseNatPrinted(n: nat, rest: string)
    requires StopsNumber(rest)
    ensures ParseNat(Decimal(n) + rest) == Some((n, rest))
  {
    var digits := Decimal(n);
    DigitSpanAt(digits, rest);
    DecimalValue(n);
    var s := digits + rest;
    assert s[..|digits|] == digits && s[|digits|..] == rest;
  }

  lemma ParseIntSigned(t: string, n: nat, rest: string)
    requires ParseNat(t) == Some((n, rest))
    ensures ParseInt("-" + t) == Some((Num(0 - n), rest))
  {
    var s := "-" + t;
    assert s[0] == '-' && s[1..] == t;
  }

  lemma ParseIntPrinted(n: int, rest: string)
    requires StopsNumber(rest)
    ensures ParseInt(PrintInt(n) + rest) == Some((Num(n), rest))
  {
    if n < 0 {
      var t := Decimal(-n) + rest;
      ParseNatPrinted(-n, rest);
      ParseIntSigned(t, -n, rest);
      assert PrintInt(n) + rest == "-" + t;
    } else {
      ParseNatPrinted(n, rest);
      assert IsDigit(Decimal(n)[0]) && (Decimal(n) + rest)[0] == Decimal(n)[0];
    }
  }

  lemma {:induction false} ParseBodyPrinted(body: string, rest: string)
    requires Plain(body)
    ensures ParseBody(body + "\"" + rest) == Some((body, rest))
  {
    var s := body + "\"" + rest;
    if body == "" {
      assert s[1..] == rest;
    } else {
      assert s[1..] == body[1..] + "\"" + rest;
      ParseBodyPrinted(body[1..], rest);
      assert [body[0]] + body[1..] == body;
    }
  }

  lemma PrintStarts(v: Json)
    ensures Print(v) != "" && Print(v)[0] != ']' && Print(v)[0] != '}'
    ensures v.Num? ==> Print(v)[0] == '-' || IsDigit(Print(v)[0])
  {
    if v.Num? && v.n >= 0 {
      assert IsDigit(Decimal(v.n)[0]);
    }
  }

  lemma Unwrap(open: string, body: string, close: string, rest: string)
    requires |open| == 1
    ensures var s := open + body + close + rest;
            s[0] == open[0] && s[1..] == body + close + rest
    ensures var s := open + body + close + rest;
            |body| + |close| > 0 ==> s[1] == (body + close)[0]
    ensures var s := open + body + close + rest;
            body == "" && |close| == 1 ==> s[2..] == rest
  {
  }

  lemma ParseArr(items: Items, rest: string)
    requires items.Item? ==> ParseItems(PrintItems(items) + "]" + rest) == Some((items, rest))
    ensures ParseValue(Print(Arr(items)) + rest) == Some((Arr(items), rest))
  {
    Unwrap("[", PrintItems(items), "]", rest);
    if items.Item? {
      PrintStarts(items.head);
      assert PrintItems(items)[0] == Print(items.head)[0];
    }
  }

  lemma ParseObj(fields: Fields, rest: string)
    requires fields.Field? ==> ParseFields(PrintFields(fields) + "}" + rest) == Some((fields, rest))
    ensures ParseValue(Print(Obj(fields)) + rest) == Some((Obj(fields), rest))
  {
    Unwrap("{", PrintFields(fields), "}", rest);
    if fields.Field? {
      assert PrintFields(fields)[0] == '"';
    }
  }

  /** Reading back what was printed, in any context that ends a number. */
  lemma {:induction false} ParseValuePrinted(v: Json, rest: string)
    requires PlainJson(v) && StopsNumber(rest)
    ensures ParseValue(Print(v) + rest) == Some((v, rest))
    decreases v, 0
  {
    match v {
      case Num(n) =>
        PrintStarts(v);
        assert (Print(v) + rest)[0] == Print(v)[0];
        ParseIntPrinted(n, rest);
      case Str(body) =>
        assert (Print(v) + rest)[1..] == body + "\"" + rest;
        ParseBodyPrinted(body, rest);
      case Arr(items) =>
        if items.Item? {
          ParseItemsPrinted(items, rest);
        }
        ParseArr(items, rest);
      case Obj(fields) =>
        if fields.Field? {
          ParseFieldsPrinted(fields, rest);
        }
        ParseObj(fields, rest);
    }
  }

  lemma {:induction false} ParseItemsPrinted(items: Items, rest: string)
    requires items.Item? && PlainItems(items)
    ensures ParseItems(PrintItems(items) + "]" + rest) == Some((items, rest))
    decreases items, 1
  {
    var s := PrintItems(items) + "]" + rest;
    if items.tail == NoItems {
      assert s == Print(items.head) + ("]" + rest);
      ParseValuePrinted(items.head, "]" + rest);
    } else {
      var more := "," + (PrintItems(items.tail) + "]" + rest);
      assert s == Print(items.head) + more;
      ParseValuePrinted(items.head, more);
      assert more[1..] == PrintItems(items.tail) + "]" + rest;
      ParseItemsPrinted(items.tail, rest);
    }
  }

  /** What follows the members' first value. */
  function AfterMember(tail: Fields, rest: string): string {
    if tail == NoFields then "}" + rest else "," + (PrintFields(tail) + "}" + rest)
  }

  /** `"key":value` followed by `more`, regrouped from the left to the right. */
  lemma Regroup(key: string, value: string, more: string)
    ensures var s := Quoted(key) + ":" + value + more;
            var after := ":" + (value + more);
            s[0] == '"' && s[1..] == key + "\"" + after && after[1..] == value + more
  {
  }

  lemma RegroupTail(head: string, tail: string, rest: string)
    ensures head + "," + tail + "}" + rest == head + ("," + (tail + "}" + rest))
    ensures head + "}" + rest == head + ("}" + rest)
  {
  }

  lemma SplitMember(fields: Fields, rest: string)
    requires fields.Field? && Plain(fields.key)
    ensures var s := PrintFields(fields) + "}" + rest;
            var after := ":" + (Print(fields.value) + AfterMember(fields.tail, rest));
            && s[0] == '"' && ParseBody(s[1..]) == Some((fields.key, after))
            && after[1..] == Print(fields.value) + AfterMember(fields.tail, rest)
  {
    var more := AfterMember(fields.tail, rest);
    RegroupTail(Quoted(fields.key) + ":" + Print(fields.value), PrintFields(fields.tail), rest);
    Regroup(fields.key, Print(fields.value), more);
    ParseBodyPrinted(fields.key, ":" + (Print(fields.value) + more));
  }

  lemma {:induction false} ParseFieldsPrinted(fields: Fields, rest: string)
    requires fields.Field? && PlainFields(fields)
    ensures ParseFields(PrintFields(fields) + "}" + rest) == Some((fields, rest))
    decreases fields, 1
  {
    SplitMember(fields, rest);
    var more := AfterMember(fields.tail, rest);
    ParseValuePrinted(fields.value, more);
    if fields.tail == NoFields {
      assert more[1..] == rest;
    } else {
      assert more[1..] == PrintFields(fields.tail) + "}" + rest;
      ParseFieldsPrinted(fields.tail, rest);
    }
  }

  /** Printing and parsing undo each other on every escape-free document. */
  lemma ParsePrinted(v: Json)
    requires PlainJson(v)
    ensures Parse(Print(v)) == Some(v)
  {
    ParseValuePrinted(v, "");
    assert Print(v) + "" == Print(v);
  }

  predicate Ascii(s: string) {
    forall i :: 0 <= i < |s| ==> s[i] as int < 128
  }

  lemma {:induction false} PrintAscii(v: Json)
    requires PlainJson(v)
    ensures Ascii(Print(v))
    decreases v, 0
  {
    match v {
      case Num(n) =>
        assert AllDigits(Decimal(if n < 0 then -n else n));
      case Str(_) =>
      case Arr(items) => PrintItemsAscii(items);
      case Obj(fields) => PrintFieldsAscii(fields);
    }
  }

  lemma {:induction false} PrintItemsAscii(items: Items)
    requires PlainItems(items)
    ensures Ascii(PrintItems(items))
    decreases items, 1
  {
    if items.Item? {
      PrintAscii(items.head);
      PrintItemsAscii(items.tail);
    }
  }

  lemma {:induction false} PrintFieldsAscii(fields: Fields)
    requires PlainFields(fields)
    ensures Ascii(PrintFields(fields))
    decreases fields, 1
  {
    if fields.Field? {
      PrintAscii(fields.value);
      PrintFieldsAscii(fields.tail);
    }
  }
}
