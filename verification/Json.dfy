/**
  JSON texts as `json.dumps(..., ensure_ascii=False)` writes them and `json.loads` reads them: sections
  4 to 7 of RFC 8259. Numbers with a fraction or exponent and lone surrogates are not represented.
*/
module Json {
  import opened Prelude
  import opened Decimals

  datatype Json =
    | Null
    | Bool(b: bool)
    | Int(n: int)
    | Str(s: string)
    | Array(items: seq<Json>)
    | Object(fields: seq<(string, Json)>)

  // ------------------------------------------------------------------ printing

  /** Separators, and the indentation step when the text is laid out over lines. */
  datatype Style = Style(item: string, colon: string, indent: Option<nat>)

  const COMPACT := Style(",", ":", None)
  const DEFAULT := Style(", ", ": ", None)
  const INDENTED := Style(",", ": ", Some(2))

  predicate IsWhite(c: char) {
    c == ' ' || c == '\n' || c == '\r' || c == '\t'
  }

  predicate AllWhite(s: string) {
    forall i :: 0 <= i < |s| ==> IsWhite(s[i])
  }

  /** A separator with whitespace behind it. */
  predicate Separates(s: string, mark: char) {
    s != "" && s[0] == mark && AllWhite(s[1..])
  }

  predicate Plain(style: Style) {
    Separates(style.item, ',') && Separates(style.colon, ':')
  }

  function Gap(style: Style, depth: nat): (s: string)
    ensures AllWhite(s)
  {
    if style.indent.None? then "" else "\n" + seq(style.indent.value * depth, _ => ' ')
  }

  function HexDigit(v: int): char
    requires 0 <= v < 16
  {
    if v < 10 then ('0' as int + v) as char else ('a' as int + v - 10) as char
  }

  function Escape(c: char): (s: string)
    ensures s != ""
  {
    if c == '\"' then "\\\""
    else if c == '\\' then "\\\\"
    else if c == '\n' then "\\n"
    else if c == '\r' then "\\r"
    else if c == '\t' then "\\t"
    else if c == '\U{8}' then "\\b"
    else if c == '\U{C}' then "\\f"
    else if c < ' ' then "\\u00" + [HexDigit(c as int / 16), HexDigit(c as int % 16)]
    else [c]
  }

  function Escaped(s: string): string {
    if s == "" then "" else Escape(s[0]) + Escaped(s[1..])
  }

  function PrintString(s: string): string {
    "\"" + Escaped(s) + "\""
  }

  function PrintInt(n: int): string {
    if n < 0 then "-" + DecimalString(-n) else DecimalString(n)
  }

  function Print(style: Style, j: Json, depth: nat): string
    decreases j, 0
  {
    match j
    case Null => "null"
    case Bool(b) => if b then "true" else "false"
    case Int(n) => PrintInt(n)
    case Str(s) => PrintString(s)
    case Array(items) =>
      if items == [] then "[]"
      else "[" + Gap(style, depth + 1) + PrintItems(style, items, depth + 1) + Gap(style, depth) + "]"
    case Object(fields) =>
      if fields == [] then "{}"
      else "{" + Gap(style, depth + 1) + PrintFields(style, fields, depth + 1) + Gap(style, depth) + "}"
  }

  function PrintItems(style: Style, items: seq<Json>, depth: nat): string
    requires items != []
    decreases items, 1
  {
    Print(style, items[0], depth)
    + (if |items| == 1 then "" else style.item + Gap(style, depth) + PrintItems(style, items[1..], depth))
  }

  function PrintField(style: Style, field: (string, Json), depth: nat): string
    decreases field, 1
  {
    PrintString(field.0) + style.colon + Print(style, field.1, depth)
  }

  function PrintFields(style: Style, fields: seq<(string, Json)>, depth: nat): string
    requires fields != []
    decreases fields, 2
  {
    PrintField(style, fields[0], depth)
    + (if |fields| == 1 then "" else style.item + Gap(style, depth) + PrintFields(style, fields[1..], depth))
  }

  // ------------------------------------------------------------------- reading

  /** A value read, and the text behind it. */
  type Read<T> = Option<(T, string)>

  function SkipWhite(s: string): (r: string)
    ensures |r| <= |s|
    ensures r != "" ==> !IsWhite(r[0])
  {
    if s != "" && IsWhite(s[0]) then SkipWhite(s[1..]) else s
  }

  function HexValue(c: char): Option<int> {
    if '0' <= c <= '9' then Some(c as int - '0' as int)
    else if 'a' <= c <= 'f' then Some(c as int - 'a' as int + 10)
    else if 'A' <= c <= 'F' then Some(c as int - 'A' as int + 10)
    else None
  }

  /** Four hexadecimal digits. */
  function ReadUnit(s: string): Option<int> {
    if |s| < 4 || HexValue(s[0]).None? || HexValue(s[1]).None? || HexValue(s[2]).None? || HexValue(s[3]).None? then None
    else
      Some(((HexValue(s[0]).value * 16 + HexValue(s[1]).value) * 16 + HexValue(s[2]).value) * 16
           + HexValue(s[3]).value)
  }

  /** The character an escape stands for; `s` follows the backslash. */
  function ReadEscape(s: string): (r: Read<char>)
    ensures r.Some? ==> |r.value.1| < |s|
  {
    if s == "" then None
    else match s[0]
      case '\"' => Some(('\"', s[1..]))
      case '\\' => Some(('\\', s[1..]))
      case '/' => Some(('/', s[1..]))
      case 'b' => Some(('\U{8}', s[1..]))
      case 'f' => Some(('\U{C}', s[1..]))
      case 'n' => Some(('\n', s[1..]))
      case 'r' => Some(('\r', s[1..]))
      case 't' => Some(('\t', s[1..]))
      case 'u' =>
        var unit := ReadUnit(s[1..]);
        if unit.None? then None
        else if unit.value < 0xD800 || 0xE000 <= unit.value < 0x1_0000 then Some((unit.value as char, s[5..]))
        else if unit.value < 0xDC00 && |s| >= 11 && s[5] == '\\' && s[6] == 'u' && ReadUnit(s[7..]).Some?
                && 0xDC00 <= ReadUnit(s[7..]).value < 0xE000 then
          Some(((0x1_0000 + (unit.value - 0xD800) * 0x400 + (ReadUnit(s[7..]).value - 0xDC00)) as char, s[11..]))
        else None
      case _ => None
  }

  /** The characters up to the closing quote. */
  function ReadChars(s: string): (r: Read<string>)
    ensures r.Some? ==> |r.value.1| < |s|
    decreases |s|
  {
    if s == "" || s[0] < ' ' then None
    else if s[0] == '\"' then Some(("", s[1..]))
    else
      var first := if s[0] == '\\' then ReadEscape(s[1..]) else Some((s[0], s[1..]));
      if first.None? then None
      else
        var rest := ReadChars(first.value.1);
        if rest.None? then None else Some(([first.value.0] + rest.value.0, rest.value.1))
  }

  predicate IsDigit(c: char) {
    '0' <= c <= '9'
  }

  function CountDigits(s: string): (n: nat)
    ensures n <= |s| && forall i :: 0 <= i < n ==> IsDigit(s[i])
    ensures n < |s| ==> !IsDigit(s[n])
  {
    if s != "" && IsDigit(s[0]) then 1 + CountDigits(s[1..]) else 0
  }

  /** What may stand behind a number. */
  predicate EndsNumber(rest: string) {
    rest == "" || !(IsDigit(rest[0]) || rest[0] == '.' || rest[0] == 'e' || rest[0] == 'E')
  }

  function ReadNatural(s: string): (r: Read<int>)
    ensures r.Some? ==> |r.value.1| < |s|
  {
    var n := CountDigits(s);
    if n == 0 || (n > 1 && s[0] == '0') || !EndsNumber(s[n..]) then None
    else Some((DecimalValue(s[..n]), s[n..]))
  }

  function ReadInt(s: string): (r: Read<int>)
    ensures r.Some? ==> |r.value.1| < |s|
  {
    if s != "" && s[0] == '-' then
      var r := ReadNatural(s[1..]);
      if r.None? then None else Some((-r.value.0, r.value.1))
    else ReadNatural(s)
  }

  function ReadWord(s: string, word: string, j: Json): (r: Read<Json>)
    requires word != ""
    ensures r.Some? ==> |r.value.1| < |s|
  {
    if word <= s then Some((j, s[|word|..])) else None
  }

  /** One value, at the very start of the text. */
  function ReadValue(s: string): (r: Read<Json>)
    ensures r.Some? ==> |r.value.1| < |s|
    decreases |s|, 0
  {
    if s == "" then None
    else if s[0] == '\"' then
      var r := ReadChars(s[1..]);
      if r.None? then None else Some((Str(r.value.0), r.value.1))
    else if s[0] == '[' then
      var inside := SkipWhite(s[1..]);
      if inside != "" && inside[0] == ']' then Some((Array([]), inside[1..]))
      else
        var r := ReadItems(inside);
        if r.None? then None else Some((Array(r.value.0), r.value.1))
    else if s[0] == '{' then
      var inside := SkipWhite(s[1..]);
      if inside != "" && inside[0] == '}' then Some((Object([]), inside[1..]))
      else
        var r := ReadFields(inside);
        if r.None? then None else Some((Object(r.value.0), r.value.1))
    else if s[0] == '-' || IsDigit(s[0]) then
      var r := ReadInt(s);
      if r.None? then None else Some((Int(r.value.0), r.value.1))
    else if s[0] == 'n' then ReadWord(s, "null", Null)
    else if s[0] == 't' then ReadWord(s, "true", Bool(true))
    else if s[0] == 'f' then ReadWord(s, "false", Bool(false))
    else None
  }

  /** At least one item, up to the closing bracket. */
  function ReadItems(s: string): (r: Read<seq<Json>>)
    ensures r.Some? ==> |r.value.1| < |s|
    decreases |s|, 1
  {
    var first := ReadValue(s);
    if first.None? then None
    else
      var behind := SkipWhite(first.value.1);
      if behind == "" then None
      else if behind[0] == ']' then Some(([first.value.0], behind[1..]))
      else if behind[0] == ',' then
        var rest := ReadItems(SkipWhite(behind[1..]));
        if rest.None? then None else Some(([first.value.0] + rest.value.0, rest.value.1))
      else None
  }

  function ReadField(s: string): (r: Read<(string, Json)>)
    ensures r.Some? ==> |r.value.1| < |s|
    decreases |s|, 2
  {
    if s == "" || s[0] != '\"' then None
    else
      var key := ReadChars(s[1..]);
      if key.None? then None
      else
        var behind := SkipWhite(key.value.1);
        if behind == "" || behind[0] != ':' then None
        else
          var value := ReadValue(SkipWhite(behind[1..]));
          if value.None? then None else Some(((key.value.0, value.value.0), value.value.1))
  }

  function ReadFields(s: string): (r: Read<seq<(string, Json)>>)
    ensures r.Some? ==> |r.value.1| < |s|
    decreases |s|, 3
  {
    var first := ReadField(s);
    if first.None? then None
    else
      var behind := SkipWhite(first.value.1);
      if behind == "" then None
      else if behind[0] == '}' then Some(([first.value.0], behind[1..]))
      else if behind[0] == ',' then
        var rest := ReadFields(SkipWhite(behind[1..]));
        if rest.None? then None else Some(([first.value.0] + rest.value.0, rest.value.1))
      else None
  }

  /** A whole text: one value, whitespace around it, nothing else. */
  function Parse(s: string): Option<Json> {
    var r := ReadValue(SkipWhite(s));
    if r.None? || SkipWhite(r.value.1) != "" then None else Some(r.value.0)
  }

  // --------------------------------------------------------------- round trip

  lemma {:induction false} SkipsWhite(white: string, rest: string)
    requires AllWhite(white) && (rest == "" || !IsWhite(rest[0]))
    ensures SkipWhite(white + rest) == rest
  {
    if white == "" {
      assert white + rest == rest;
    } else {
      assert (white + rest)[1..] == white[1..] + rest;
      SkipsWhite(white[1..], rest);
    }
  }

  lemma HexRoundTrip(v: int)
    requires 0 <= v < 16
    ensures HexValue(HexDigit(v)) == Some(v)
  {
  }

  lemma EscapeRoundTrip(c: char, rest: string)
    ensures var s := Escape(c) + rest;
            if s[0] == '\\' then ReadEscape(s[1..]) == Some((c, rest))
            else s[0] == c && c >= ' ' && c != '\"' && s[1..] == rest
  {
    var s := Escape(c) + rest;
    if s[0] == '\\' {
      if s[1] == 'u' {
        HexRoundTrip(c as int / 16);
        HexRoundTrip(c as int % 16);
        HexRoundTrip(0);
        assert s[1..][1..][0] == '0' && s[1..][1..][1] == '0';
        assert ReadUnit(s[1..][1..]) == Some(c as int);
        assert s[1..][5..] == rest;
      } else {
        assert s[1..][1..] == rest;
      }
    }
  }

  lemma {:induction false} CharsRoundTrip(t: string, rest: string)
    ensures ReadChars(Escaped(t) + "\"" + rest) == Some((t, rest))
  {
    hide Escape, ReadEscape, ReadChars;
    if t == "" {
      NoMoreChars(rest);
      assert Escaped(t) + "\"" + rest == "\"" + rest;
    } else {
      CharsRoundTrip(t[1..], rest);
      var behind := Escaped(t[1..]) + "\"" + rest;
      OneCharRead(t[0], behind, t[1..], rest);
      assert Escaped(t) + "\"" + rest == Escape(t[0]) + behind;
      assert [t[0]] + t[1..] == t;
    }
  }

  lemma NoMoreChars(rest: string)
    ensures ReadChars("\"" + rest) == Some(("", rest))
  {
    assert ("\"" + rest)[1..] == rest;
  }

  /** Reading one escaped character and then what is behind it. */
  lemma OneCharRead(c: char, behind: string, t: string, rest: string)
    requires ReadChars(behind) == Some((t, rest))
    ensures ReadChars(Escape(c) + behind) == Some(([c] + t, rest))
  {
    hide Escape, ReadEscape;
    EscapeRoundTrip(c, behind);
  }

  lemma StringRoundTrip(t: string, rest: string)
    ensures var s := PrintString(t) + rest;
            s[0] == '\"' && ReadChars(s[1..]) == Some((t, rest)) && ReadValue(s) == Some((Str(t), rest))
  {
    var s := PrintString(t) + rest;
    assert s[1..] == Escaped(t) + "\"" + rest;
    CharsRoundTrip(t, rest);
  }

  lemma {:induction false} CountsDigits(d: string, rest: string)
    requires (forall i :: 0 <= i < |d| ==> IsDigit(d[i])) && (rest == "" || !IsDigit(rest[0]))
    ensures CountDigits(d + rest) == |d|
  {
    if d == "" {
      assert d + rest == rest;
    } else {
      assert (d + rest)[1..] == d[1..] + rest;
      CountsDigits(d[1..], rest);
    }
  }

  lemma NaturalRoundTrip(n: nat, rest: string)
    requires EndsNumber(rest)
    ensures ReadNatural(DecimalString(n) + rest) == Some((n, rest))
  {
    var d := DecimalString(n);
    CountsDigits(d, rest);
    DecimalRoundTrip(n);
    NoLeadingZero(n);
    assert (d + rest)[..|d|] == d && (d + rest)[|d|..] == rest;
  }

  lemma ReadsInt(n: int, rest: string)
    requires EndsNumber(rest)
    ensures var s := PrintInt(n) + rest;
            s != "" && (s[0] == '-' || IsDigit(s[0])) && ReadInt(s) == Some((n, rest))
  {
    hide ReadNatural, EndsNumber;
    var s := PrintInt(n) + rest;
    if n < 0 {
      NaturalRoundTrip(-n, rest);
      assert s[1..] == DecimalString(-n) + rest;
    } else {
      NaturalRoundTrip(n, rest);
      assert s[0] == DecimalString(n)[0];
    }
  }

  lemma IntRoundTrip(n: int, rest: string)
    requires EndsNumber(rest)
    ensures ReadValue(PrintInt(n) + rest) == Some((Int(n), rest))
  {
    hide PrintInt, ReadInt, ReadChars, ReadItems, ReadFields, EndsNumber;
    ReadsInt(n, rest);
  }

  lemma WordRoundTrip(word: string, j: Json, rest: string)
    requires word != ""
    ensures ReadWord(word + rest, word, j) == Some((j, rest))
  {
    assert (word + rest)[|word|..] == rest;
  }

  /** The first character of a printed value is no whitespace and closes nothing. */
  lemma PrintStarts(style: Style, j: Json, depth: nat)
    ensures var s := Print(style, j, depth);
            s != "" && !IsWhite(s[0]) && s[0] != ']' && s[0] != '}'
  {
    if j.Int? {
      assert IsDigits(DecimalString(if j.n < 0 then -j.n else j.n));
    }
  }

  /** Whatever is printed is read back, and the reader stops exactly behind it. */
  lemma {:induction false} ValueRoundTrip(style: Style, j: Json, depth: nat, rest: string)
    requires Plain(style) && EndsNumber(rest)
    ensures ReadValue(Print(style, j, depth) + rest) == Some((j, rest))
    decreases j, 0
  {
    match j {
      case Null => WordRoundTrip("null", Null, rest);
      case Bool(b) => WordRoundTrip(if b then "true" else "false", Bool(b), rest);
      case Int(n) => IntRoundTrip(n, rest);
      case Str(t) => StringRoundTrip(t, rest);
      case Array(items) => ArrayRoundTrip(style, items, depth, rest);
      case Object(fields) => ObjectRoundTrip(style, fields, depth, rest);
    }
  }

  lemma {:induction false} ArrayRoundTrip(style: Style, items: seq<Json>, depth: nat, rest: string)
    requires Plain(style) && EndsNumber(rest)
    ensures ReadValue(Print(style, Array(items), depth) + rest) == Some((Array(items), rest))
    decreases items, 2
  {
    hide ReadItems, PrintItems;
    var s := Print(style, Array(items), depth) + rest;
    if items == [] {
      assert s[1..] == "]" + rest;
      assert SkipWhite(s[1..]) == "]" + rest;
      assert ("]" + rest)[1..] == rest;
    } else {
      var inside := PrintItems(style, items, depth + 1) + Gap(style, depth) + "]" + rest;
      assert s[1..] == Gap(style, depth + 1) + inside;
      ItemsStart(style, items, depth + 1);
      SkipsWhite(Gap(style, depth + 1), inside);
      ItemsRoundTrip(style, items, depth + 1, Gap(style, depth), rest);
    }
  }

  lemma ItemsStart(style: Style, items: seq<Json>, depth: nat)
    requires items != []
    ensures var s := PrintItems(style, items, depth); s != "" && !IsWhite(s[0]) && s[0] != ']'
  {
    PrintStarts(style, items[0], depth);
  }

  lemma {:induction false} ItemsRoundTrip(style: Style, items: seq<Json>, depth: nat, white: string, rest: string)
    requires Plain(style) && items != [] && AllWhite(white)
    ensures ReadItems(PrintItems(style, items, depth) + white + "]" + rest) == Some((items, rest))
    decreases items, 1
  {
    hide Print, ReadValue, ReadItems, PrintItems;
    if |items| == 1 {
      LastItemRoundTrip(style, items, depth, white, rest);
    } else {
      ItemsRoundTrip(style, items[1..], depth, white, rest);
      FirstItemRoundTrip(style, items, depth, white, rest);
    }
  }

  lemma {:induction false} LastItemRoundTrip(style: Style, items: seq<Json>, depth: nat, white: string, rest: string)
    requires Plain(style) && |items| == 1 && AllWhite(white)
    ensures ReadItems(PrintItems(style, items, depth) + white + "]" + rest) == Some((items, rest))
    decreases items, 0
  {
    hide Print, ReadValue, ReadItems, PrintItems;
    var behind := white + "]" + rest;
    OneItem(style, items, depth);
    assert PrintItems(style, items, depth) + white + "]" + rest == Print(style, items[0], depth) + behind;
    ValueRoundTrip(style, items[0], depth, behind);
    assert behind == white + ("]" + rest) && ("]" + rest)[1..] == rest && [items[0]] == items;
    SkipsWhite(white, "]" + rest);
    ItemsEnd(Print(style, items[0], depth) + behind, items[0], behind, rest);
  }

  lemma {:induction false} FirstItemRoundTrip(style: Style, items: seq<Json>, depth: nat, white: string, rest: string)
    requires Plain(style) && |items| > 1 && AllWhite(white)
    requires ReadItems(PrintItems(style, items[1..], depth) + white + "]" + rest) == Some((items[1..], rest))
    ensures ReadItems(PrintItems(style, items, depth) + white + "]" + rest) == Some((items, rest))
    decreases items, 0
  {
    hide Print, ReadValue, ReadItems, PrintItems, Gap;
    var tail := PrintItems(style, items[1..], depth) + white + "]" + rest;
    var behind := style.item + Gap(style, depth) + tail;
    MoreItems(style, items, depth);
    Regroup(Print(style, items[0], depth), style.item, Gap(style, depth), PrintItems(style, items[1..], depth), white,
        "]", rest);
    ValueRoundTrip(style, items[0], depth, behind);
    ItemsStart(style, items[1..], depth);
    SeparatorSkipped(style.item, Gap(style, depth), tail);
    ItemsContinue(Print(style, items[0], depth) + behind, items[0], behind, tail, items[1..], rest);
    assert [items[0]] + items[1..] == items;
  }

  lemma SeparatorSkipped(mark: string, white: string, tail: string)
    requires mark != "" && AllWhite(mark[1..]) && AllWhite(white) && tail != "" && !IsWhite(tail[0])
    ensures SkipWhite((mark + white + tail)[1..]) == tail
  {
    assert (mark + white + tail)[1..] == (mark[1..] + white) + tail;
    SkipsWhite(mark[1..] + white, tail);
  }

  lemma Regroup(a: string, b: string, c: string, d: string, e: string, f: string, g: string)
    ensures (a + (b + c + d)) + e + f + g == a + (b + c + (d + e + f + g))
  {
  }

  lemma OneItem(style: Style, items: seq<Json>, depth: nat)
    requires |items| == 1
    ensures PrintItems(style, items, depth) == Print(style, items[0], depth)
  {
  }

  lemma MoreItems(style: Style, items: seq<Json>, depth: nat)
    requires |items| > 1
    ensures PrintItems(style, items, depth) ==
              Print(style, items[0], depth) + (style.item + Gap(style, depth) + PrintItems(style, items[1..], depth))
  {
  }

  lemma ItemsEnd(s: string, first: Json, behind: string, rest: string)
    requires ReadValue(s) == Some((first, behind)) && SkipWhite(behind) == "]" + rest && ("]" + rest)[1..] == rest
    ensures ReadItems(s) == Some(([first], rest))
  {
  }

  lemma ItemsContinue(s: string, first: Json, behind: string, tail: string, more: seq<Json>, rest: string)
    requires ReadValue(s) == Some((first, behind)) && behind != "" && behind[0] == ','
    requires SkipWhite(behind[1..]) == tail && ReadItems(tail) == Some((more, rest))
    ensures ReadItems(s) == Some(([first] + more, rest))
  {
  }

  lemma {:induction false} ObjectRoundTrip(style: Style, fields: seq<(string, Json)>, depth: nat, rest: string)
    requires Plain(style) && EndsNumber(rest)
    ensures ReadValue(Print(style, Object(fields), depth) + rest) == Some((Object(fields), rest))
    decreases fields, 4
  {
    hide ReadFields, PrintFields;
    var s := Print(style, Object(fields), depth) + rest;
    if fields == [] {
      assert s[1..] == "}" + rest;
      assert SkipWhite(s[1..]) == "}" + rest;
      assert ("}" + rest)[1..] == rest;
    } else {
      var inside := PrintFields(style, fields, depth + 1) + Gap(style, depth) + "}" + rest;
      assert s[1..] == Gap(style, depth + 1) + inside;
      FieldsStart(style, fields, depth + 1);
      SkipsWhite(Gap(style, depth + 1), inside);
      FieldsRoundTrip(style, fields, depth + 1, Gap(style, depth), rest);
    }
  }

  lemma FieldsStart(style: Style, fields: seq<(string, Json)>, depth: nat)
    requires fields != []
    ensures var s := PrintFields(style, fields, depth); s != "" && s[0] == '\"'
  {
  }

  lemma {:induction false} FieldsRoundTrip(
      style: Style, fields: seq<(string, Json)>, depth: nat, white: string, rest: string)
    requires Plain(style) && fields != [] && AllWhite(white)
    ensures ReadFields(PrintFields(style, fields, depth) + white + "}" + rest) == Some((fields, rest))
    decreases fields, 3
  {
    hide Print, ReadField, ReadFields, PrintFields;
    if |fields| == 1 {
      LastFieldRoundTrip(style, fields, depth, white, rest);
    } else {
      FieldsRoundTrip(style, fields[1..], depth, white, rest);
      FirstFieldRoundTrip(style, fields, depth, white, rest);
    }
  }

  lemma {:induction false} LastFieldRoundTrip(
      style: Style, fields: seq<(string, Json)>, depth: nat, white: string, rest: string)
    requires Plain(style) && |fields| == 1 && AllWhite(white)
    ensures ReadFields(PrintFields(style, fields, depth) + white + "}" + rest) == Some((fields, rest))
    decreases fields, 2
  {
    hide PrintField, ReadField, ReadFields, PrintFields;
    var behind := white + "}" + rest;
    OneField(style, fields, depth);
    assert PrintFields(style, fields, depth) + white + "}" + rest == PrintField(style, fields[0], depth) + behind;
    FieldRoundTrip(style, fields[0], depth, behind);
    assert behind == white + ("}" + rest) && ("}" + rest)[1..] == rest && [fields[0]] == fields;
    SkipsWhite(white, "}" + rest);
    FieldsEnd(PrintField(style, fields[0], depth) + behind, fields[0], behind, rest);
  }

  lemma {:induction false} FirstFieldRoundTrip(
      style: Style, fields: seq<(string, Json)>, depth: nat, white: string, rest: string)
    requires Plain(style) && |fields| > 1 && AllWhite(white)
    requires ReadFields(PrintFields(style, fields[1..], depth) + white + "}" + rest) == Some((fields[1..], rest))
    ensures ReadFields(PrintFields(style, fields, depth) + white + "}" + rest) == Some((fields, rest))
    decreases fields, 2
  {
    hide PrintField, ReadField, ReadFields, PrintFields, Gap;
    var tail := PrintFields(style, fields[1..], depth) + white + "}" + rest;
    var behind := style.item + Gap(style, depth) + tail;
    MoreFields(style, fields, depth);
    Regroup(PrintField(style, fields[0], depth), style.item, Gap(style, depth),
            PrintFields(style, fields[1..], depth), white, "}", rest);
    FieldRoundTrip(style, fields[0], depth, behind);
    FieldsStart(style, fields[1..], depth);
    SeparatorSkipped(style.item, Gap(style, depth), tail);
    FieldsContinue(PrintField(style, fields[0], depth) + behind, fields[0], behind, tail, fields[1..], rest);
    assert [fields[0]] + fields[1..] == fields;
  }

  lemma OneField(style: Style, fields: seq<(string, Json)>, depth: nat)
    requires |fields| == 1
    ensures PrintFields(style, fields, depth) == PrintField(style, fields[0], depth)
  {
  }

  lemma MoreFields(style: Style, fields: seq<(string, Json)>, depth: nat)
    requires |fields| > 1
    ensures PrintFields(style, fields, depth) ==
              PrintField(style, fields[0], depth)
              + (style.item + Gap(style, depth) + PrintFields(style, fields[1..], depth))
  {
  }

  lemma FieldsEnd(s: string, first: (string, Json), behind: string, rest: string)
    requires ReadField(s) == Some((first, behind)) && SkipWhite(behind) == "}" + rest && ("}" + rest)[1..] == rest
    ensures ReadFields(s) == Some(([first], rest))
  {
  }

  lemma FieldsContinue(
      s: string, first: (string, Json), behind: string, tail: string, more: seq<(string, Json)>, rest: string)
    requires ReadField(s) == Some((first, behind)) && behind != "" && behind[0] == ','
    requires SkipWhite(behind[1..]) == tail && ReadFields(tail) == Some((more, rest))
    ensures ReadFields(s) == Some(([first] + more, rest))
  {
  }

  lemma {:induction false} FieldRoundTrip(style: Style, field: (string, Json), depth: nat, rest: string)
    requires Plain(style) && EndsNumber(rest)
    ensures ReadField(PrintField(style, field, depth) + rest) == Some((field, rest))
    decreases field, 2
  {
    hide Print, ReadValue, ReadChars, PrintString;
    var value := Print(style, field.1, depth) + rest;
    var behind := style.colon + value;
    var s := PrintField(style, field, depth) + rest;
    assert s == PrintString(field.0) + behind;
    StringRoundTrip(field.0, behind);
    PrintStarts(style, field.1, depth);
    assert behind[1..] == style.colon[1..] + value;
    SkipsWhite(style.colon[1..], value);
    assert SkipWhite(behind) == behind;
    ValueRoundTrip(style, field.1, depth, rest);
  }

  /** `json.loads(json.dumps(j))` is `j`, in every style. */
  lemma RoundTrip(style: Style, j: Json, tail: string)
    requires Plain(style) && AllWhite(tail)
    ensures Parse(Print(style, j, 0) + tail) == Some(j)
  {
    hide ReadValue, Print;
    ValueRoundTrip(style, j, 0, tail);
    PrintStarts(style, j, 0);
    assert SkipWhite(Print(style, j, 0) + tail) == Print(style, j, 0) + tail;
    SkipsWhite(tail, "");
    assert tail + "" == tail;
  }
}
