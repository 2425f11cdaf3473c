/** JSON texts: a decoder written from RFC 8259 and the compact form the command line prints. */
module JsonText {
  import opened History
  import opened CStrings

  /** JSON values; of the numbers of section 6 only unsigned integers are needed here. */
  datatype Json =
    | Null
    | Bool(b: bool)
    | Number(n: nat)
    | Str(s: string)
    | Arr(items: seq<Json>)
    | Obj(members: seq<(string, Json)>)

  // ---------------------------------------------------------------- the decoder

  type Parsed<T> = Option<(T, string)>

  predicate IsWhitespace(c: char) {
    c == ' ' || c == '\t' || c == '\n' || c == '\r'
  }

  /** Section 2: insignificant whitespace. */
  function SkipSpace(s: string): (r: string)
    ensures |r| <= |s|
    ensures s != [] && !IsWhitespace(s[0]) ==> r == s
  {
    if s != [] && IsWhitespace(s[0]) then SkipSpace(s[1..]) else s
  }

  /** Section 7: the character a `\uXXXX` escape stands for; a lone surrogate stands for none. */
  function ParseUnicode(s: string): (r: Parsed<char>)
    ensures r.Some? ==> |r.value.1| < |s|
  {
    if |s| < 4 || !(IsHexDigit(s[0]) && IsHexDigit(s[1]) && IsHexDigit(s[2]) && IsHexDigit(s[3])) then None
    else
      var code := HexDigitValue(s[0]) * 4096 + HexDigitValue(s[1]) * 256 + HexDigitValue(s[2]) * 16 + HexDigitValue(s[3]);
      if code < 0xD800 || 0xE000 <= code < 0x10000 then Some((code as char, s[4..])) else None
  }

  /** Section 7: one character of a string, either escaped or as it stands. */
  function ParseChar(s: string): (r: Parsed<char>)
    ensures r.Some? ==> |r.value.1| < |s|
  {
    if s == [] || s[0] == '"' || s[0] < ' ' then None
    else if s[0] != '\\' then Some((s[0], s[1..]))
    else if |s| < 2 then None
    else
      match s[1]
      case '"' => Some(('"', s[2..]))
      case '\\' => Some(('\\', s[2..]))
      case '/' => Some(('/', s[2..]))
      case 'b' => Some(('\U{0008}', s[2..]))
      case 'f' => Some(('\U{000c}', s[2..]))
      case 'n' => Some(('\n', s[2..]))
      case 'r' => Some(('\r', s[2..]))
      case 't' => Some(('\t', s[2..]))
      case 'u' => ParseUnicode(s[2..])
      case _ => None
  }

  /** Section 7: the rest of a string after its opening quotation mark. */
  function ParseChars(s: string): (r: Parsed<string>)
    ensures r.Some? ==> |r.value.1| < |s|
    decreases |s|
  {
    if s != [] && s[0] == '"' then Some(("", s[1..]))
    else
      match ParseChar(s)
      case None => None
      case Some((c, rest)) =>
        match ParseChars(rest)
        case None => None
        case Some((cs, rest2)) => Some(([c] + cs, rest2))
  }

  /** Section 6: an unsigned integer, without leading zeros. */
  function ParseNumber(s: string): (r: Parsed<Json>)
    ensures r.Some? ==> |r.value.1| < |s|
  {
    var n := DigitRun(s);
    if n == 0 || (n > 1 && s[0] == '0') then None else Some((Number(DecimalValue(s[..n])), s[n..]))
  }

  predicate StartsWith(s: string, prefix: string) {
    prefix <= s
  }

  /** Section 3: any value, with whitespace allowed before it. */
  function ParseValue(s: string): (r: Parsed<Json>)
    ensures r.Some? ==> |r.value.1| < |s|
    decreases |s|, 0
  {
    var t := SkipSpace(s);
    if t == [] then None
    else if t[0] == '"' then
      match ParseChars(t[1..])
      case None => None
      case Some((cs, rest)) => Some((Str(cs), rest))
    else if t[0] == '[' then
      var u := SkipSpace(t[1..]);
      if u != [] && u[0] == ']' then Some((Arr([]), u[1..]))
      else
        match ParseItems(u)
        case None => None
        case Some((items, rest)) => Some((Arr(items), rest))
    else if t[0] == '{' then
      var u := SkipSpace(t[1..]);
      if u != [] && u[0] == '}' then Some((Obj([]), u[1..]))
      else
        match ParseMembers(u)
        case None => None
        case Some((members, rest)) => Some((Obj(members), rest))
    else if StartsWith(t, "true") then Some((Bool(true), t[4..]))
    else if StartsWith(t, "false") then Some((Bool(false), t[5..]))
    else if StartsWith(t, "null") then Some((Null, t[4..]))
    else ParseNumber(t)
  }

  /** Section 5: the values of an array up to and with its closing bracket. */
  function ParseItems(s: string): (r: Parsed<seq<Json>>)
    ensures r.Some? ==> |r.value.1| < |s|
    decreases |s|, 1
  {
    match ParseValue(s)
    case None => None
    case Some((v, rest)) =>
      var t := SkipSpace(rest);
      if t == [] then None
      else if t[0] == ']' then Some(([v], t[1..]))
      else if t[0] == ',' then
        match ParseItems(t[1..])
        case None => None
        case Some((vs, rest2)) => Some(([v] + vs, rest2))
      else None
  }

  /** Section 4: a name, a colon and a value. */
  function ParseMember(s: string): (r: Parsed<(string, Json)>)
    ensures r.Some? ==> |r.value.1| < |s|
    decreases |s|, 1
  {
    var t := SkipSpace(s);
    if t == [] || t[0] != '"' then None
    else
      match ParseChars(t[1..])
      case None => None
      case Some((name, rest)) =>
        var u := SkipSpace(rest);
        if u == [] || u[0] != ':' then None
        else
          match ParseValue(u[1..])
          case None => None
          case Some((v, rest2)) => Some(((name, v), rest2))
  }

  /** Section 4: the members of an object up to and with its closing brace. */
  function ParseMembers(s: string): (r: Parsed<seq<(string, Json)>>)
    ensures r.Some? ==> |r.value.1| < |s|
    decreases |s|, 2
  {
    match ParseMember(s)
    case None => None
    case Some((m, rest)) =>
      var t := SkipSpace(rest);
      if t == [] then None
      else if t[0] == '}' then Some(([m], t[1..]))
      else if t[0] == ',' then
        match ParseMembers(t[1..])
        case None => None
        case Some((ms, rest2)) => Some(([m] + ms, rest2))
      else None
  }

  /** Section 2: a JSON text is one value with whitespace around it. */
  function Decode(text: string): Option<Json> {
    match ParseValue(text)
    case None => None
    case Some((v, rest)) => if SkipSpace(rest) == [] then Some(v) else None
  }

  // ---------------------------------------------------------------- the printed form

  function HexDigit(d: nat): (c: char)
    requires d < 16
    ensures IsHexDigit(c) && HexDigitValue(c) == d
  {
    if d < 10 then '0' + d as char else 'a' + (d - 10) as char
  }

  /** How `print_json_string` writes one byte. */
  function EscapeChar(c: char): (r: string)
    ensures r != []
  {
    match c
    case '"' => "\\\""
    case '\\' => "\\\\"
    case '\U{0008}' => "\\b"
    case '\U{000c}' => "\\f"
    case '\n' => "\\n"
    case '\r' => "\\r"
    case '\t' => "\\t"
    case _ =>
      if c < ' ' then "\\u00" + [HexDigit(c as nat / 16), HexDigit(c as nat % 16)] else [c]
  }

  function EscapeAll(s: string): string {
    if s == [] then "" else EscapeChar(s[0]) + EscapeAll(s[1..])
  }

  function Quote(s: string): string {
    "\"" + EscapeAll(s) + "\""
  }

  /** The compact text of a value. */
  function Emit(v: Json): (r: string)
    ensures r != [] && !IsWhitespace(r[0])
    decreases v, 0
  {
    match v
    case Null => "null"
    case Bool(b) => if b then "true" else "false"
    case Number(n) => Decimal(n)
    case Str(s) => Quote(s)
    case Arr(items) => "[" + EmitItems(items) + "]"
    case Obj(members) => "{" + EmitMembers(members) + "}"
  }

  function EmitItems(items: seq<Json>): string
    decreases items, 1
  {
    if items == [] then ""
    else if |items| == 1 then Emit(items[0])
    else Emit(items[0]) + "," + EmitItems(items[1..])
  }

  function EmitMember(m: (string, Json)): string
    decreases m, 1
  {
    Quote(m.0) + ":" + Emit(m.1)
  }

  function EmitMembers(members: seq<(string, Json)>): string
    decreases members, 2
  {
    if members == [] then ""
    else if |members| == 1 then EmitMember(members[0])
    else EmitMember(members[0]) + "," + EmitMembers(members[1..])
  }

  // ---------------------------------------------------------------- decoding what was printed

  lemma ParseEscaped(c: char, rest: string)
    ensures ParseChar(EscapeChar(c) + rest) == Some((c, rest))
    ensures (EscapeChar(c) + rest)[0] != '"'
  {
    var e := EscapeChar(c);
    assert (e + rest)[|e|..] == rest;
    if c < ' ' && |e| == 6 {
      assert (e + rest)[2..] == ['0', '0', HexDigit(c as nat / 16), HexDigit(c as nat % 16)] + rest;
      assert (e + rest)[2..][4..] == rest;
    }
  }

  lemma ParseNext(c: char, more: string, s: string, rest: string)
    requires ParseChars(more) == Some((s, rest))
    ensures ParseChars(EscapeChar(c) + more) == Some(([c] + s, rest))
  {
    ParseEscaped(c, more);
  }

  lemma {:induction false} ParseQuoted(s: string, rest: string)
    ensures ParseChars(EscapeAll(s) + "\"" + rest) == Some((s, rest))
    decreases |s|
  {
    var text := EscapeAll(s) + "\"" + rest;
    if s == [] {
      assert text == "\"" + rest;
    } else {
      var more := EscapeAll(s[1..]) + "\"" + rest;
      assert text == EscapeChar(s[0]) + more;
      ParseQuoted(s[1..], rest);
      ParseNext(s[0], more, s[1..], rest);
      assert [s[0]] + s[1..] == s;
    }
  }

  lemma ParseDecimal(n: nat, rest: string)
    requires rest != [] ==> !IsDigit(rest[0])
    ensures ParseValue(Decimal(n) + rest) == Some((Number(n), rest))
  {
    var text := Decimal(n) + rest;
    DigitRunAll(Decimal(n), rest);
    DecimalRoundTrip(n);
    assert text[0] == Decimal(n)[0] && IsDigit(text[0]);
    assert text[..|Decimal(n)|] == Decimal(n) && text[|Decimal(n)|..] == rest;
  }

  /** What may follow a value: nothing, or a byte that cannot continue a number. */
  predicate Ends(rest: string) {
    rest != [] ==> !IsDigit(rest[0])
  }

  /** Decoding a printed value gives the value, whatever follows it. */
  lemma {:induction false} ParseEmitted(v: Json, rest: string)
    requires Ends(rest)
    ensures ParseValue(Emit(v) + rest) == Some((v, rest))
    decreases v, 0
  {
    var text := Emit(v) + rest;
    match v
    case Null => assert text[4..] == rest;
    case Bool(b) =>
      assert b ==> text[4..] == rest;
      assert !b ==> text[5..] == rest;
    case Number(n) => ParseDecimal(n, rest);
    case Str(s) =>
      assert text == "\"" + (EscapeAll(s) + "\"" + rest);
      ParseQuoted(s, rest);
    case Arr(items) => ParseEmittedArray(items, rest);
    case Obj(members) => ParseEmittedObject(members, rest);
  }

  lemma {:induction false} ParseEmittedArray(items: seq<Json>, rest: string)
    ensures ParseValue("[" + EmitItems(items) + "]" + rest) == Some((Arr(items), rest))
    decreases items, 2
  {
    var inner := EmitItems(items) + "]" + rest;
    var text := "[" + EmitItems(items) + "]" + rest;
    assert text == "[" + inner;
    if items == [] {
      assert inner == "]" + rest;
    } else {
      EmitItemsStart(items);
      ParseEmittedItems(items, rest);
    }
  }

  lemma EmitItemsStart(items: seq<Json>)
    requires items != []
    ensures EmitItems(items) != [] && !IsWhitespace(EmitItems(items)[0]) && EmitItems(items)[0] != ']'
  {
    EmitStart(items[0]);
  }

  lemma EmitStart(v: Json)
    ensures Emit(v)[0] != ']' && Emit(v)[0] != '}'
  {
  }

  lemma ParseLastItem(first: string, v: Json, rest: string)
    requires ParseValue(first + ("]" + rest)) == Some((v, "]" + rest))
    ensures ParseItems(first + ("]" + rest)) == Some(([v], rest))
  {
  }

  lemma ParseOneMoreItem(first: string, v: Json, more: string, vs: seq<Json>, rest: string)
    requires ParseValue(first + ("," + more)) == Some((v, "," + more))
    requires ParseItems(more) == Some((vs, rest))
    ensures ParseItems(first + ("," + more)) == Some(([v] + vs, rest))
  {
    assert ("," + more)[1..] == more;
  }

  lemma OnlyItem(v: Json, rest: string)
    ensures EmitItems([v]) + "]" + rest == Emit(v) + ("]" + rest)
  {
  }

  /** The first item's text and what follows it. */
  lemma ItemsStart(items: seq<Json>, rest: string)
    requires |items| > 1
    ensures EmitItems(items) + "]" + rest == Emit(items[0]) + ("," + (EmitItems(items[1..]) + "]" + rest))
  {
    RegroupItems(Emit(items[0]), EmitItems(items[1..]), rest);
  }

  lemma RegroupItems(first: string, more: string, rest: string)
    ensures (first + "," + more) + "]" + rest == first + ("," + (more + "]" + rest))
  {
  }

  lemma ParseEmittedItem(v: Json, rest: string)
    ensures ParseItems(EmitItems([v]) + "]" + rest) == Some(([v], rest))
    decreases v, 5
  {
    OnlyItem(v, rest);
    ParseEmitted(v, "]" + rest);
    ParseLastItem(Emit(v), v, rest);
  }

  lemma ParseEmittedMoreItems(items: seq<Json>, rest: string)
    requires |items| > 1 && ParseItems(EmitItems(items[1..]) + "]" + rest) == Some((items[1..], rest))
    ensures ParseItems(EmitItems(items) + "]" + rest) == Some(([items[0]] + items[1..], rest))
    decreases items, 0
  {
    ItemsStart(items, rest);
    var more := EmitItems(items[1..]) + "]" + rest;
    ParseEmitted(items[0], "," + more);
    ParseOneMoreItem(Emit(items[0]), items[0], more, items[1..], rest);
  }

  lemma {:induction false} ParseEmittedItems(items: seq<Json>, rest: string)
    requires items != []
    ensures ParseItems(EmitItems(items) + "]" + rest) == Some((items, rest))
    decreases items, 1
  {
    if |items| == 1 {
      assert items == [items[0]];
      ParseEmittedItem(items[0], rest);
    } else {
      assert items == [items[0]] + items[1..];
      ParseEmittedItems(items[1..], rest);
      ParseEmittedMoreItems(items, rest);
    }
  }

  lemma {:induction false} ParseEmittedObject(members: seq<(string, Json)>, rest: string)
    ensures ParseValue("{" + EmitMembers(members) + "}" + rest) == Some((Obj(members), rest))
    decreases members, 4
  {
    var inner := EmitMembers(members) + "}" + rest;
    var text := "{" + EmitMembers(members) + "}" + rest;
    assert text == "{" + inner;
    if members == [] {
      assert inner == "}" + rest;
    } else {
      EmitMembersStart(members);
      ParseEmittedMembers(members, rest);
    }
  }

  lemma EmitMembersStart(members: seq<(string, Json)>)
    requires members != []
    ensures EmitMembers(members) != [] && EmitMembers(members)[0] == '"'
  {
    assert EmitMember(members[0])[0] == '"';
  }

  lemma EmittedMemberText(m: (string, Json), rest: string)
    ensures EmitMember(m) + rest == "\"" + (EscapeAll(m.0) + "\"" + (":" + (Emit(m.1) + rest)))
  {
  }

  lemma {:induction false} ParseEmittedMember(m: (string, Json), rest: string)
    requires Ends(rest)
    ensures ParseMember(EmitMember(m) + rest) == Some((m, rest))
    decreases m, 1
  {
    var afterName := ":" + (Emit(m.1) + rest);
    EmittedMemberText(m, rest);
    ParseQuoted(m.0, afterName);
    assert afterName[1..] == Emit(m.1) + rest;
    ParseEmitted(m.1, rest);
  }

  lemma ParseLastMember(first: string, m: (string, Json), rest: string)
    requires ParseMember(first + ("}" + rest)) == Some((m, "}" + rest))
    ensures ParseMembers(first + ("}" + rest)) == Some(([m], rest))
  {
  }

  lemma ParseOneMoreMember(first: string, m: (string, Json), more: string, ms: seq<(string, Json)>, rest: string)
    requires ParseMember(first + ("," + more)) == Some((m, "," + more))
    requires ParseMembers(more) == Some((ms, rest))
    ensures ParseMembers(first + ("," + more)) == Some(([m] + ms, rest))
  {
    assert ("," + more)[1..] == more;
  }

  lemma OnlyMember(m: (string, Json), rest: string)
    ensures EmitMembers([m]) + "}" + rest == EmitMember(m) + ("}" + rest)
  {
  }

  /** The first member's text and what follows it. */
  lemma MembersStart(members: seq<(string, Json)>, rest: string)
    requires |members| > 1
    ensures EmitMembers(members) + "}" + rest == EmitMember(members[0]) + ("," + (EmitMembers(members[1..]) + "}" + rest))
  {
    RegroupMembers(EmitMember(members[0]), EmitMembers(members[1..]), rest);
  }

  lemma RegroupMembers(first: string, more: string, rest: string)
    ensures (first + "," + more) + "}" + rest == first + ("," + (more + "}" + rest))
  {
  }

  lemma ParseEmittedOne(m: (string, Json), rest: string)
    ensures ParseMembers(EmitMembers([m]) + "}" + rest) == Some(([m], rest))
    decreases m, 2
  {
    OnlyMember(m, rest);
    ParseEmittedMember(m, "}" + rest);
    ParseLastMember(EmitMember(m), m, rest);
  }

  lemma ParseEmittedMore(members: seq<(string, Json)>, rest: string)
    requires |members| > 1 && ParseMembers(EmitMembers(members[1..]) + "}" + rest) == Some((members[1..], rest))
    ensures ParseMembers(EmitMembers(members) + "}" + rest) == Some(([members[0]] + members[1..], rest))
    decreases members, 2
  {
    MembersStart(members, rest);
    var more := EmitMembers(members[1..]) + "}" + rest;
    ParseEmittedMember(members[0], "," + more);
    ParseOneMoreMember(EmitMember(members[0]), members[0], more, members[1..], rest);
  }

  lemma {:induction false} ParseEmittedMembers(members: seq<(string, Json)>, rest: string)
    requires members != []
    ensures ParseMembers(EmitMembers(members) + "}" + rest) == Some((members, rest))
    decreases members, 3
  {
    if |members| == 1 {
      assert members == [members[0]];
      ParseEmittedOne(members[0], rest);
    } else {
      assert members == [members[0]] + members[1..];
      ParseEmittedMembers(members[1..], rest);
      ParseEmittedMore(members, rest);
    }
  }

  /** Decoding a printed document and its final newline gives the document. */
  lemma DecodeInvertsEmit(v: Json)
    ensures Decode(Emit(v) + "\n") == Some(v)
  {
    ParseEmitted(v, "\n");
    assert SkipSpace("\n") == SkipSpace("\n"[1..]);
  }
}
