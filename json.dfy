/** The part of JSON (RFC 8259) that the application writes and reads back:
    arrays of strings (`File.set_columns` / `get_columns`) and flat objects whose
    values are strings or null (the payload of `Procedure.run`).

    The encoder is Python's `json.dumps` with its defaults (`ensure_ascii=True`):
    every character outside printable ASCII, and every `"` and `\`, is written as
    an escape (section 7 of RFC 8259), with lower-case hexadecimal digits and a
    UTF-16 surrogate pair for characters beyond U+FFFF. The decoder is `json.loads`
    restricted to the same subset. */
module Json {
  import opened Wrappers

  /** The two separator pairs the application uses: `json.dumps` defaults
      (`', '` and `': '`) and `separators=(',', ':')`. */
  datatype Style = Default | Compact

  function ItemSeparator(style: Style): string {
    match style
    case Default => ", "
    case Compact => ","
  }

  function KeySeparator(style: Style): string {
    match style
    case Default => ": "
    case Compact => ":"
  }

  /** A value of a flat object: a JSON string, or `null` (Python `None`). */
  datatype Scalar = Str(s: string) | Null

  datatype DecodeError =
    | ExpectingValue
    | ExpectingDelimiter
    | ExpectingPropertyName
    | UnterminatedString
    | InvalidControlCharacter
    | InvalidEscape
    | InvalidUnicodeEscape
    /** a `\uXXXX` escape for half of a surrogate pair without its other half */
    | LoneSurrogate
    | ExtraData
    /** valid JSON, but not of the shape this subset decodes (a number, a nested value, ...) */
    | OutsideSubset

  /** The insignificant whitespace of section 2 of RFC 8259. */
  predicate IsWhitespace(c: char) {
    c == ' ' || c == '\t' || c == '\n' || c == '\r'
  }

  predicate Printable(c: char) { ' ' <= c <= '~' }

  predicate AllPrintable(s: string) {
    forall i :: 0 <= i < |s| ==> Printable(s[i])
  }

  lemma PrintableConcat(a: string, b: string)
    requires AllPrintable(a) && AllPrintable(b)
    ensures AllPrintable(a + b)
  {
  }

  // ----- hexadecimal -----

  function HexDigit(d: nat): (c: char)
    requires d < 16
    ensures Printable(c)
  {
    if d < 10 then ('0' as int + d) as char else ('a' as int + d - 10) as char
  }

  /** The value of a hexadecimal digit of either case. */
  function HexValue(c: char): Option<nat> {
    if '0' <= c <= '9' then Some(c as int - '0' as int)
    else if 'a' <= c <= 'f' then Some(c as int - 'a' as int + 10)
    else if 'A' <= c <= 'F' then Some(c as int - 'A' as int + 10)
    else None
  }

  /** The four lower-case hexadecimal digits of `n` (Python's `'{0:04x}'`). */
  function Hex4(n: nat): (r: string)
    requires n < 0x1_0000
    ensures |r| == 4
  {
    var d3, m1 := n % 16, n / 16;
    var d2, m2 := m1 % 16, m1 / 16;
    var d1, d0 := m2 % 16, m2 / 16;
    [HexDigit(d0), HexDigit(d1), HexDigit(d2), HexDigit(d3)]
  }

  function ParseHex4(t: string): (r: Option<nat>)
    requires |t| == 4
    ensures r.Some? ==> r.value < 0x1_0000
  {
    match (HexValue(t[0]), HexValue(t[1]), HexValue(t[2]), HexValue(t[3]))
    case (Some(a), Some(b), Some(c), Some(d)) =>
      if a < 16 && b < 16 && c < 16 && d < 16 then Some(((a * 16 + b) * 16 + c) * 16 + d) else None
    case _ => None
  }

  lemma HexDigitValue(d: nat)
    requires d < 16
    ensures HexValue(HexDigit(d)) == Some(d)
  {
  }

  lemma Hex4RoundTrip(n: nat)
    requires n < 0x1_0000
    ensures ParseHex4(Hex4(n)) == Some(n)
  {
    var d3, m1 := n % 16, n / 16;
    var d2, m2 := m1 % 16, m1 / 16;
    var d1, d0 := m2 % 16, m2 / 16;
    HexDigitValue(d0);
    HexDigitValue(d1);
    HexDigitValue(d2);
    HexDigitValue(d3);
    assert m2 == d0 * 16 + d1;
    assert m1 == m2 * 16 + d2;
    assert n == m1 * 16 + d3;
  }

  // ----- strings -----

  /** True for a character Dafny can hold: a Unicode scalar value. */
  predicate IsScalarValue(n: int) {
    0 <= n < 0xD800 || 0xE000 <= n < 0x11_0000
  }

  /** How `json.dumps` writes one character inside a string literal. */
  function EscapeChar(c: char): (r: string)
    ensures |r| > 0
  {
    if c == '"' then "\\\""
    else if c == '\\' then "\\\\"
    else if c == '\n' then "\\n"
    else if c == '\r' then "\\r"
    else if c == '\t' then "\\t"
    else if c == 8 as char then "\\b"
    else if c == 12 as char then "\\f"
    else if Printable(c) then [c]
    else if c as int < 0x1_0000 then "\\u" + Hex4(c as int)
    else "\\u" + Hex4(HighSurrogate(c)) + "\\u" + Hex4(LowSurrogate(c))
  }

  function EscapeString(s: string): (r: string)
  {
    if s == [] then "" else EscapeChar(s[0]) + EscapeString(s[1..])
  }

  /** A string literal as `json.dumps` writes it. */
  function Quote(s: string): (r: string)
    ensures |r| >= 2 && r[0] == '"'
  {
    "\"" + EscapeString(s) + "\""
  }

  /** The character denoted by the two-character escape `\x`, if `x` names one. */
  function SimpleEscape(x: char): Option<char> {
    if x == '"' then Some('"')
    else if x == '\\' then Some('\\')
    else if x == '/' then Some('/')
    else if x == 'b' then Some(8 as char)
    else if x == 'f' then Some(12 as char)
    else if x == 'n' then Some('\n')
    else if x == 'r' then Some('\r')
    else if x == 't' then Some('\t')
    else None
  }

  /** Decodes one escape sequence at the start of `t` (which begins with `\`):
      the character it denotes and how many characters of `t` it spans. */
  function DecodeEscape(t: string): (r: Result<(char, nat), DecodeError>)
    requires |t| > 0 && t[0] == '\\'
    ensures r.Success? ==> 2 <= r.value.1 <= |t|
  {
    if |t| < 2 then Failure(UnterminatedString)
    else if t[1] != 'u' then
      match SimpleEscape(t[1])
      case None => Failure(InvalidEscape)
      case Some(c) => Success((c, 2))
    else if |t| < 6 then Failure(InvalidUnicodeEscape)
    else
      match ParseHex4(t[2..6])
      case None => Failure(InvalidUnicodeEscape)
      case Some(hi) =>
        if 0xD800 <= hi < 0xDC00 then
          if |t| >= 12 && t[6] == '\\' && t[7] == 'u' then
            match ParseHex4(t[8..12])
            case None => Failure(InvalidUnicodeEscape)
            case Some(lo) =>
              if 0xDC00 <= lo < 0xE000 then
                Success(((0x1_0000 + (hi - 0xD800) * 0x400 + (lo - 0xDC00)) as char, 12))
              else Failure(LoneSurrogate)
          else Failure(LoneSurrogate)
        else if 0xDC00 <= hi < 0xE000 then Failure(LoneSurrogate)
        else Success((hi as char, 6))
  }

  /** Puts `x` in front of what a successful parse produced. */
  function Cons<T>(x: T, r: Result<(seq<T>, string), DecodeError>): Result<(seq<T>, string), DecodeError> {
    match r
    case Success((xs, rest)) => Success(([x] + xs, rest))
    case Failure(e) => Failure(e)
  }

  /** Decodes the body of a string literal whose opening quote has been consumed:
      the string, and the text after the closing quote. Raw control characters are
      refused, as `json.loads` does in its default strict mode. */
  function ParseStringBody(t: string): (r: Result<(string, string), DecodeError>)
    ensures r.Success? ==> |r.value.1| < |t|
    decreases |t|
  {
    if |t| == 0 then Failure(UnterminatedString)
    else if t[0] == '"' then Success(([], t[1..]))
    else if t[0] == '\\' then
      match DecodeEscape(t)
      case Failure(e) => Failure(e)
      case Success((c, k)) => Cons(c, ParseStringBody(t[k..]))
    else if t[0] < ' ' then Failure(InvalidControlCharacter)
    else Cons(t[0], ParseStringBody(t[1..]))
  }

  /** Every escape that `EscapeChar` writes decodes to the character it was written for. */
  lemma EscapeCharDecodes(c: char, rest: string)
    ensures ParseStringBody(EscapeChar(c) + rest) == Cons(c, ParseStringBody(rest))
  {
    var t := EscapeChar(c) + rest;
    if c == '"' || c == '\\' || c == '\n' || c == '\r' || c == '\t' || c == 8 as char || c == 12 as char {
      TwoCharEscapeDecodes(c, t);
      assert t[2..] == rest;
    } else if Printable(c) {
      assert t[0] == c && t[1..] == rest;
    } else if c as int < 0x1_0000 {
      HexEscapeDecodes(c, t);
      assert t[6..] == rest;
    } else {
      PairEscapeDecodes(c, t);
      assert t[12..] == rest;
    }
  }

  lemma TwoCharEscapeDecodes(c: char, t: string)
    requires c == '"' || c == '\\' || c == '\n' || c == '\r' || c == '\t' || c == 8 as char || c == 12 as char
    requires |t| >= 2 && t[..2] == EscapeChar(c)
    ensures t[0] == '\\' && DecodeEscape(t) == Success((c, 2))
  {
    assert t[0] == t[..2][0] && t[1] == t[..2][1];
  }

  lemma HexEscapeDecodes(c: char, t: string)
    requires !Printable(c) && c as int < 0x1_0000
    requires c != '\n' && c != '\r' && c != '\t' && c != 8 as char && c != 12 as char
    requires |t| >= 6 && t[..6] == EscapeChar(c)
    ensures t[0] == '\\' && DecodeEscape(t) == Success((c, 6))
  {
    Hex4RoundTrip(c as int);
    assert t[..6] == "\\u" + Hex4(c as int);
    assert t[0] == '\\' && t[1] == 'u';
    assert t[2..6] == Hex4(c as int);
  }

  /** The surrogate pair `json.dumps` writes for a character beyond U+FFFF. */
  function HighSurrogate(c: char): (n: nat)
    requires c as int >= 0x1_0000
    ensures 0xD800 <= n < 0xDC00
  {
    0xD800 + (c as int - 0x1_0000) / 0x400
  }

  function LowSurrogate(c: char): (n: nat)
    requires c as int >= 0x1_0000
    ensures 0xDC00 <= n < 0xE000
  {
    0xDC00 + (c as int - 0x1_0000) % 0x400
  }

  lemma PairEscapeDecodes(c: char, t: string)
    requires c as int >= 0x1_0000
    requires |t| >= 12 && t[..12] == EscapeChar(c)
    ensures t[0] == '\\' && DecodeEscape(t) == Success((c, 12))
  {
    var hi, lo := HighSurrogate(c), LowSurrogate(c);
    var u, h1, h2 := "\\u", Hex4(hi), Hex4(lo);
    var e := u + h1 + u + h2;
    assert EscapeChar(c) == e;
    assert t[..12] == e;
    assert e[2..6] == h1 && e[8..12] == h2;
    assert t[2..6] == e[2..6] && t[8..12] == e[8..12];
    assert t[0] == e[0] && t[1] == e[1] && t[6] == e[6] && t[7] == e[7];
    Hex4RoundTrip(hi);
    Hex4RoundTrip(lo);
    SurrogatesCombine(c);
    DecodePair(t, hi, lo);
  }

  lemma SurrogatesCombine(c: char)
    requires c as int >= 0x1_0000
    ensures 0x1_0000 + (HighSurrogate(c) - 0xD800) * 0x400 + (LowSurrogate(c) - 0xDC00) == c as int
  {
  }

  lemma DecodePair(t: string, hi: nat, lo: nat)
    requires |t| >= 12 && t[0] == '\\' && t[1] == 'u' && t[6] == '\\' && t[7] == 'u'
    requires ParseHex4(t[2..6]) == Some(hi) && 0xD800 <= hi < 0xDC00
    requires ParseHex4(t[8..12]) == Some(lo) && 0xDC00 <= lo < 0xE000
    ensures DecodeEscape(t) == Success(((0x1_0000 + (hi - 0xD800) * 0x400 + (lo - 0xDC00)) as char, 12))
  {
  }

  /** String round trip: the decoder reads back exactly the escaped string and
      stops at the closing quote, whatever follows it. */
  lemma {:induction false} StringRoundTrip(s: string, rest: string)
    ensures ParseStringBody(EscapeString(s) + "\"" + rest) == Success((s, rest))
  {
    if s == [] {
      assert EscapeString(s) + "\"" + rest == "\"" + rest;
    } else {
      var tail := EscapeString(s[1..]) + "\"" + rest;
      assert EscapeString(s) + "\"" + rest == EscapeChar(s[0]) + tail;
      StringRoundTrip(s[1..], rest);
      EscapeCharDecodes(s[0], tail);
      assert [s[0]] + s[1..] == s;
    }
  }

  // ----- whitespace -----

  function SkipWhitespace(t: string): (r: string)
    ensures |r| <= |t| && r == t[|t| - |r|..]
    ensures |r| > 0 ==> !IsWhitespace(r[0])
  {
    if |t| > 0 && IsWhitespace(t[0]) then SkipWhitespace(t[1..]) else t
  }

  lemma SkipWhitespaceNone(t: string)
    requires |t| > 0 && !IsWhitespace(t[0])
    ensures SkipWhitespace(t) == t
  {
  }

  /** A separator is a comma or colon, then spaces; skipping past its punctuation
      and the whitespace after it lands on what follows. */
  lemma SkipSeparator(sep: string, punct: char, next: string)
    requires sep == [punct] || sep == [punct, ' ']
    requires |next| > 0 && !IsWhitespace(next[0])
    ensures SkipWhitespace((sep + next)[1..]) == next
  {
    if sep == [punct] {
      assert (sep + next)[1..] == next;
    } else {
      assert (sep + next)[1..] == " " + next;
      assert (" " + next)[1..] == next;
    }
  }

  // ----- arrays of strings -----

  function JoinQuoted(items: seq<string>, sep: string): (r: string)
    ensures |items| > 0 ==> |r| > 0 && r[0] == '"'
  {
    if |items| == 0 then ""
    else if |items| == 1 then Quote(items[0])
    else Quote(items[0]) + sep + JoinQuoted(items[1..], sep)
  }

  /** `json.dumps(items)` for a list of strings, with the given separators. */
  function EncodeStringArray(items: seq<string>, style: Style): (r: string)
    ensures |r| >= 2 && r[0] == '[' && r[|r| - 1] == ']'
  {
    "[" + JoinQuoted(items, ItemSeparator(style)) + "]"
  }

  /** The non-empty tail of an array: items separated by commas, then `]`.
      `t` starts after the `[` and its whitespace. */
  function ParseArrayItems(t: string): (r: Result<(seq<string>, string), DecodeError>)
    ensures r.Success? ==> |r.value.1| < |t|
    decreases |t|
  {
    if |t| == 0 then Failure(ExpectingValue)
    else if t[0] != '"' then Failure(if StartsValue(t[0]) then OutsideSubset else ExpectingValue)
    else
      match ParseStringBody(t[1..])
      case Failure(e) => Failure(e)
      case Success((s, r1)) =>
        var u := SkipWhitespace(r1);
        if |u| > 0 && u[0] == ',' then
          Cons(s, ParseArrayItems(SkipWhitespace(u[1..])))
        else if |u| > 0 && u[0] == ']' then Success(([s], u[1..]))
        else Failure(ExpectingDelimiter)
  }

  /** The characters that can begin some JSON value. */
  predicate StartsValue(c: char) {
    c == '"' || c == '{' || c == '[' || c == '-' || '0' <= c <= '9' || c == 't' || c == 'f' || c == 'n'
    || c == 'N' || c == 'I'
  }

  /** `json.loads(text)` when the text is an array of strings. */
  function DecodeStringArray(text: string): Result<seq<string>, DecodeError> {
    var t := SkipWhitespace(text);
    if |t| == 0 then Failure(ExpectingValue)
    else if t[0] != '[' then Failure(if StartsValue(t[0]) then OutsideSubset else ExpectingValue)
    else AtEnd(ArrayBody(SkipWhitespace(t[1..])))
  }

  /** What follows `[`: the empty array, or its items. */
  function ArrayBody(u: string): Result<(seq<string>, string), DecodeError> {
    if |u| > 0 && u[0] == ']' then Success(([], u[1..])) else ParseArrayItems(u)
  }

  /** The last item of an array: a string literal followed by `]`. */
  lemma LastArrayItem(s: string, rest: string)
    ensures ParseArrayItems(Quote(s) + ("]" + rest)) == Success(([s], rest))
  {
    var after := "]" + rest;
    QuotedThen(s, after);
    SkipWhitespaceNone(after);
    assert after[1..] == rest;
  }

  /** An item followed by a separator and the next item. */
  lemma NextArrayItem(s: string, sep: string, next: string)
    requires sep == "," || sep == ", "
    requires |next| > 0 && next[0] == '"'
    ensures ParseArrayItems(Quote(s) + (sep + next)) == Cons(s, ParseArrayItems(next))
  {
    var after := sep + next;
    assert after[0] == ',';
    QuotedThen(s, after);
    SkipWhitespaceNone(after);
    SkipSeparator(sep, ',', next);
  }

  lemma JoinQuotedText(items: seq<string>, sep: string, rest: string)
    requires |items| > 1
    ensures JoinQuoted(items, sep) + "]" + rest == Quote(items[0]) + (sep + (JoinQuoted(items[1..], sep) + "]" + rest))
  {
    Associate(Quote(items[0]), sep, JoinQuoted(items[1..], sep), "]", rest);
  }

  lemma ItemBefore(s: string, tail: seq<string>, sep: string, next: string, rest: string)
    requires sep == "," || sep == ", "
    requires |next| > 0 && next[0] == '"'
    requires ParseArrayItems(next) == Success((tail, rest))
    ensures ParseArrayItems(Quote(s) + (sep + next)) == Success(([s] + tail, rest))
  {
    NextArrayItem(s, sep, next);
    ConsSuccess(s, ParseArrayItems(next), tail, rest);
  }

  lemma {:induction false} ArrayItemsRoundTrip(items: seq<string>, style: Style, rest: string)
    requires |items| > 0
    ensures ParseArrayItems(JoinQuoted(items, ItemSeparator(style)) + "]" + rest) == Success((items, rest))
  {
    var sep := ItemSeparator(style);
    if |items| == 1 {
      assert JoinQuoted(items, sep) + "]" + rest == Quote(items[0]) + ("]" + rest);
      LastArrayItem(items[0], rest);
      assert [items[0]] == items;
    } else {
      assert [items[0]] + items[1..] == items;
      var next := JoinQuoted(items[1..], sep) + "]" + rest;
      JoinQuotedText(items, sep, rest);
      ArrayItemsRoundTrip(items[1..], style, rest);
      ItemBefore(items[0], items[1..], sep, next, rest);
    }
  }

  /** Round trip of `set_columns`/`get_columns`: decoding the encoding of a list of
      strings gives back that list, in either separator style. */
  lemma StringArrayRoundTrip(items: seq<string>, style: Style)
    ensures DecodeStringArray(EncodeStringArray(items, style)) == Success(items)
  {
    var text := EncodeStringArray(items, style);
    if items == [] {
      assert text == "[]";
      EmptyArrayDecodes();
    } else {
      var body := JoinQuoted(items, ItemSeparator(style)) + "]" + "";
      assert text == "[" + body;
      ArrayItemsRoundTrip(items, style, "");
      DecodeStringArrayOf(body, items);
    }
  }

  lemma EmptyArrayDecodes()
    ensures DecodeStringArray("[]") == Success([])
  {
    var text := "[]";
    SkipWhitespaceNone(text);
    assert text[1..] == "]";
    SkipWhitespaceNone(text[1..]);
    assert text[1..][1..] == "";
  }

  /** An array whose items parse to the end of the text decodes to those items. */
  lemma DecodeStringArrayOf(body: string, items: seq<string>)
    requires |body| > 0 && body[0] == '"' && ParseArrayItems(body) == Success((items, ""))
    ensures DecodeStringArray("[" + body) == Success(items)
  {
    DecodeStringArrayText(body);
    ArrayBodyItems(body);
    AtEndOfText(items);
  }

  lemma DecodeStringArrayText(body: string)
    requires |body| > 0 && !IsWhitespace(body[0])
    ensures DecodeStringArray("[" + body) == AtEnd(ArrayBody(body))
  {
    var text := "[" + body;
    DecodeArrayOpen(text);
    assert text[1..] == body;
    SkipWhitespaceNone(body);
  }

  lemma ArrayBodyItems(body: string)
    requires |body| > 0 && body[0] != ']'
    ensures ArrayBody(body) == ParseArrayItems(body)
  {
  }

  /** After `[` and its whitespace, the items of the array are parsed. */
  lemma DecodeArrayOpen(text: string)
    requires |text| > 0 && text[0] == '['
    ensures DecodeStringArray(text) == AtEnd(ArrayBody(SkipWhitespace(text[1..])))
  {
    SkipWhitespaceNone(text);
  }

  // ----- flat objects -----

  function EncodeScalar(v: Scalar): (r: string)
  {
    match v
    case Str(s) => Quote(s)
    case Null => "null"
  }

  function EncodeMember(m: (string, Scalar), style: Style): (r: string)
  {
    Quote(m.0) + KeySeparator(style) + EncodeScalar(m.1)
  }

  function JoinMembers(members: seq<(string, Scalar)>, style: Style): (r: string)
  {
    if |members| == 0 then ""
    else if |members| == 1 then EncodeMember(members[0], style)
    else EncodeMember(members[0], style) + ItemSeparator(style) + JoinMembers(members[1..], style)
  }

  /** `json.dumps(d)` for a dict whose keys, in insertion order, are the first
      components of `members`. */
  function EncodeObject(members: seq<(string, Scalar)>, style: Style): (r: string)
  {
    "{" + JoinMembers(members, style) + "}"
  }

  function ParseScalar(t: string): (r: Result<(Scalar, string), DecodeError>)
    ensures r.Success? ==> |r.value.1| < |t|
  {
    if |t| == 0 then Failure(ExpectingValue)
    else if t[0] == '"' then
      match ParseStringBody(t[1..])
      case Failure(e) => Failure(e)
      case Success((s, rest)) => Success((Str(s), rest))
    else if |t| >= 4 && t[..4] == "null" then Success((Null, t[4..]))
    else Failure(if StartsValue(t[0]) then OutsideSubset else ExpectingValue)
  }

  /** One member, `"key": value`, at the start of `t`, and the text after it. */
  function ParseMember(t: string): (r: Result<((string, Scalar), string), DecodeError>)
    ensures r.Success? ==> |r.value.1| < |t|
  {
    if |t| == 0 || t[0] != '"' then Failure(ExpectingPropertyName)
    else
      match ParseStringBody(t[1..])
      case Failure(e) => Failure(e)
      case Success((key, r1)) =>
        var u := SkipWhitespace(r1);
        if |u| == 0 || u[0] != ':' then Failure(ExpectingDelimiter)
        else
          match ParseScalar(SkipWhitespace(u[1..]))
          case Failure(e) => Failure(e)
          case Success((v, r2)) => Success(((key, v), r2))
  }

  /** The non-empty tail of an object: members separated by commas, then `}`.
      `t` starts after the `{` and its whitespace. */
  function ParseMembers(t: string): (r: Result<(seq<(string, Scalar)>, string), DecodeError>)
    ensures r.Success? ==> |r.value.1| < |t|
    decreases |t|
  {
    match ParseMember(t)
    case Failure(e) => Failure(e)
    case Success((m, r1)) =>
      var w := SkipWhitespace(r1);
      if |w| > 0 && w[0] == ',' then Cons(m, ParseMembers(SkipWhitespace(w[1..])))
      else if |w| > 0 && w[0] == '}' then Success(([m], w[1..]))
      else Failure(ExpectingDelimiter)
  }

  /** What follows `{` and its whitespace: `}` alone, or the members. */
  function ObjectBody(u: string): Result<(seq<(string, Scalar)>, string), DecodeError> {
    if |u| > 0 && u[0] == '}' then Success(([], u[1..])) else ParseMembers(u)
  }

  /** A parsed value counts only when nothing but whitespace follows it. */
  function AtEnd<T>(parsed: Result<(T, string), DecodeError>): Result<T, DecodeError> {
    match parsed
    case Failure(e) => Failure(e)
    case Success((v, rest)) => if SkipWhitespace(rest) == "" then Success(v) else Failure(ExtraData)
  }

  /** `json.loads(text)` when the text is a flat object, as its members in order. */
  function DecodeObject(text: string): Result<seq<(string, Scalar)>, DecodeError> {
    var t := SkipWhitespace(text);
    if |t| == 0 then Failure(ExpectingValue)
    else if t[0] != '{' then Failure(if StartsValue(t[0]) then OutsideSubset else ExpectingValue)
    else AtEnd(ObjectBody(SkipWhitespace(t[1..])))
  }

  lemma ScalarRoundTrip(v: Scalar, rest: string)
    ensures ParseScalar(EncodeScalar(v) + rest) == Success((v, rest))
  {
    match v
    case Str(s) =>
      QuotedThen(s, rest);
    case Null =>
      var t := EncodeScalar(v) + rest;
      assert t[..4] == "null" && t[4..] == rest;
  }

  /** A string literal followed by anything: the literal is read back and the
      rest is left. */
  lemma QuotedThen(s: string, after: string)
    ensures |Quote(s) + after| > 0 && (Quote(s) + after)[0] == '"'
    ensures ParseStringBody((Quote(s) + after)[1..]) == Success((s, after))
  {
    assert (Quote(s) + after)[1..] == EscapeString(s) + "\"" + after;
    StringRoundTrip(s, after);
  }

  lemma KeySeparatorThen(style: Style, value: string)
    requires |value| > 0 && !IsWhitespace(value[0])
    ensures |KeySeparator(style) + value| > 0 && (KeySeparator(style) + value)[0] == ':'
    ensures SkipWhitespace(KeySeparator(style) + value) == KeySeparator(style) + value
    ensures SkipWhitespace((KeySeparator(style) + value)[1..]) == value
  {
    var a := KeySeparator(style) + value;
    assert a[0] == ':';
    SkipWhitespaceNone(a);
    SkipSeparator(KeySeparator(style), ':', value);
  }

  lemma ScalarStart(v: Scalar, after: string)
    ensures |EncodeScalar(v) + after| > 0 && !IsWhitespace((EncodeScalar(v) + after)[0])
  {
  }

  lemma ParseMemberWhen(t: string, key: string, afterKey: string, v: Scalar, after: string)
    requires |t| > 0 && t[0] == '"'
    requires ParseStringBody(t[1..]) == Success((key, afterKey))
    requires |afterKey| > 0 && SkipWhitespace(afterKey) == afterKey && afterKey[0] == ':'
    requires ParseScalar(SkipWhitespace(afterKey[1..])) == Success((v, after))
    ensures ParseMember(t) == Success(((key, v), after))
  {
  }

  /** A member parses back, leaving what follows it. */
  lemma MemberThen(m: (string, Scalar), style: Style, after: string)
    ensures EncodeMember(m, style) + after == Quote(m.0) + (KeySeparator(style) + (EncodeScalar(m.1) + after))
  {
  }

  lemma MemberRoundTrip(m: (string, Scalar), style: Style, after: string)
    ensures ParseMember(EncodeMember(m, style) + after) == Success((m, after))
  {
    var value := EncodeScalar(m.1) + after;
    var afterKey := KeySeparator(style) + value;
    MemberThen(m, style, after);
    QuotedThen(m.0, afterKey);
    ScalarStart(m.1, after);
    KeySeparatorThen(style, value);
    ScalarRoundTrip(m.1, after);
    ParseMemberWhen(Quote(m.0) + afterKey, m.0, afterKey, m.1, after);
  }

  lemma ParseMembersLast(t: string, m: (string, Scalar), r1: string)
    requires ParseMember(t) == Success((m, r1))
    requires |r1| > 0 && r1[0] == '}'
    ensures ParseMembers(t) == Success(([m], r1[1..]))
  {
    SkipWhitespaceNone(r1);
  }

  lemma ParseMembersNext(t: string, m: (string, Scalar), r1: string)
    requires ParseMember(t) == Success((m, r1))
    requires |r1| > 0 && r1[0] == ','
    ensures ParseMembers(t) == Cons(m, ParseMembers(SkipWhitespace(r1[1..])))
  {
    SkipWhitespaceNone(r1);
  }

  lemma LastMember(m: (string, Scalar), style: Style, rest: string)
    ensures ParseMembers(EncodeMember(m, style) + ("}" + rest)) == Success(([m], rest))
  {
    var after := "}" + rest;
    MemberRoundTrip(m, style, after);
    ParseMembersLast(EncodeMember(m, style) + after, m, after);
    assert after[1..] == rest;
  }

  lemma NextMember(m: (string, Scalar), style: Style, next: string)
    requires |next| > 0 && next[0] == '"'
    ensures ParseMembers(EncodeMember(m, style) + (ItemSeparator(style) + next)) == Cons(m, ParseMembers(next))
  {
    var sep := ItemSeparator(style);
    assert sep == [','] || sep == [',', ' '];
    var after := sep + next;
    assert after[0] == ',';
    SkipSeparator(sep, ',', next);
    MemberRoundTrip(m, style, after);
    ParseMembersNext(EncodeMember(m, style) + after, m, after);
  }

  lemma MembersStart(members: seq<(string, Scalar)>, style: Style)
    requires |members| > 0
    ensures |JoinMembers(members, style)| > 0 && JoinMembers(members, style)[0] == '"'
  {
  }

  lemma MembersOne(members: seq<(string, Scalar)>, style: Style, rest: string)
    requires |members| == 1
    ensures ParseMembers(JoinMembers(members, style) + "}" + rest) == Success((members, rest))
  {
    assert JoinMembers(members, style) + "}" + rest == EncodeMember(members[0], style) + ("}" + rest);
    LastMember(members[0], style, rest);
    assert [members[0]] == members;
  }

  lemma ConsSuccess<T>(x: T, p: Result<(seq<T>, string), DecodeError>, tail: seq<T>, rest: string)
    requires p == Success((tail, rest))
    ensures Cons(x, p) == Success(([x] + tail, rest))
  {
  }

  lemma Associate<T>(a: seq<T>, b: seq<T>, c: seq<T>, d: seq<T>, e: seq<T>)
    ensures a + b + c + d + e == a + (b + (c + d + e))
  {
  }

  lemma JoinMembersCons(m: (string, Scalar), tail: seq<(string, Scalar)>, style: Style)
    requires |tail| > 0
    ensures JoinMembers([m] + tail, style) == EncodeMember(m, style) + ItemSeparator(style) + JoinMembers(tail, style)
  {
    assert ([m] + tail)[1..] == tail;
  }

  lemma MembersText(m: (string, Scalar), tail: seq<(string, Scalar)>, style: Style, rest: string)
    requires |tail| > 0
    ensures JoinMembers([m] + tail, style) + "}" + rest
         == EncodeMember(m, style) + (ItemSeparator(style) + (JoinMembers(tail, style) + "}" + rest))
  {
    JoinMembersCons(m, tail, style);
    Associate(EncodeMember(m, style), ItemSeparator(style), JoinMembers(tail, style), "}", rest);
  }

  lemma MemberBefore(m: (string, Scalar), tail: seq<(string, Scalar)>, style: Style, next: string, rest: string)
    requires |next| > 0 && next[0] == '"'
    requires ParseMembers(next) == Success((tail, rest))
    ensures ParseMembers(EncodeMember(m, style) + (ItemSeparator(style) + next)) == Success(([m] + tail, rest))
  {
    NextMember(m, style, next);
    ConsSuccess(m, ParseMembers(next), tail, rest);
  }

  lemma MembersMore(m: (string, Scalar), tail: seq<(string, Scalar)>, style: Style, rest: string)
    requires |tail| > 0
    requires ParseMembers(JoinMembers(tail, style) + "}" + rest) == Success((tail, rest))
    ensures ParseMembers(JoinMembers([m] + tail, style) + "}" + rest) == Success(([m] + tail, rest))
  {
    var next := JoinMembers(tail, style) + "}" + rest;
    MembersText(m, tail, style, rest);
    MembersStart(tail, style);
    MemberBefore(m, tail, style, next, rest);
  }

  lemma {:induction false} MembersRoundTrip(members: seq<(string, Scalar)>, style: Style, rest: string)
    requires |members| > 0
    ensures ParseMembers(JoinMembers(members, style) + "}" + rest) == Success((members, rest))
  {
    if |members| == 1 {
      MembersOne(members, style, rest);
    } else {
      MembersRoundTrip(members[1..], style, rest);
      MembersMore(members[0], members[1..], style, rest);
      assert [members[0]] + members[1..] == members;
    }
  }

  /** Round trip of a flat object: decoding the encoding gives back the members,
      keys and values, in their order. */
  lemma ObjectRoundTrip(members: seq<(string, Scalar)>, style: Style)
    ensures DecodeObject(EncodeObject(members, style)) == Success(members)
  {
    var text := EncodeObject(members, style);
    if members == [] {
      assert text == "{}";
      EmptyObjectDecodes();
    } else {
      var body := JoinMembers(members, style) + "}" + "";
      assert text == "{" + body;
      MembersStart(members, style);
      MembersRoundTrip(members, style, "");
      DecodeObjectOf(body, members);
    }
  }

  lemma EmptyObjectDecodes()
    ensures DecodeObject("{}") == Success([])
  {
    var text := "{}";
    SkipWhitespaceNone(text);
    assert text[1..] == "}";
    SkipWhitespaceNone(text[1..]);
    assert ObjectBody(text[1..]) == Success(([], ""));
    assert SkipWhitespace("") == "";
  }

  lemma DecodeObjectOf(body: string, members: seq<(string, Scalar)>)
    requires |body| > 0 && body[0] == '"' && ParseMembers(body) == Success((members, ""))
    ensures DecodeObject("{" + body) == Success(members)
  {
    DecodeObjectText(body);
    ObjectBodyMembers(body);
    AtEndOfText(members);
  }

  lemma DecodeObjectText(body: string)
    requires |body| > 0 && !IsWhitespace(body[0])
    ensures DecodeObject("{" + body) == AtEnd(ObjectBody(body))
  {
    var text := "{" + body;
    DecodeObjectOpen(text);
    assert text[1..] == body;
    SkipWhitespaceNone(body);
  }

  lemma ObjectBodyMembers(body: string)
    requires |body| > 0 && body[0] != '}'
    ensures ObjectBody(body) == ParseMembers(body)
  {
  }

  /** After `{` and its whitespace, the body of the object is parsed. */
  lemma DecodeObjectOpen(text: string)
    requires |text| > 0 && text[0] == '{'
    ensures DecodeObject(text) == AtEnd(ObjectBody(SkipWhitespace(text[1..])))
  {
    SkipWhitespaceNone(text);
  }

  lemma AtEndOfText<T>(v: T)
    ensures AtEnd(Success((v, ""))) == Success(v)
  {
    assert SkipWhitespace("") == "";
  }

  // ----- printable output -----

  lemma EscapeCharPrintable(c: char)
    ensures AllPrintable(EscapeChar(c))
  {
    if !Printable(c) && c as int >= 0x1_0000 {
      assert AllPrintable(Hex4(HighSurrogate(c))) && AllPrintable(Hex4(LowSurrogate(c)));
    } else if !Printable(c) && c as int < 0x1_0000 {
      assert AllPrintable(Hex4(c as int));
    }
  }

  lemma {:induction false} EscapeStringPrintable(s: string)
    ensures AllPrintable(EscapeString(s))
  {
    if s != [] {
      EscapeCharPrintable(s[0]);
      EscapeStringPrintable(s[1..]);
      PrintableConcat(EscapeChar(s[0]), EscapeString(s[1..]));
    }
  }

  lemma QuotePrintable(s: string)
    ensures AllPrintable(Quote(s))
  {
    EscapeStringPrintable(s);
  }

  lemma {:induction false} JoinQuotedPrintable(items: seq<string>, style: Style)
    ensures AllPrintable(JoinQuoted(items, ItemSeparator(style)))
  {
    if |items| > 0 {
      QuotePrintable(items[0]);
      if |items| > 1 {
        JoinQuotedPrintable(items[1..], style);
        PrintableConcat(Quote(items[0]), ItemSeparator(style));
        PrintableConcat(Quote(items[0]) + ItemSeparator(style), JoinQuoted(items[1..], ItemSeparator(style)));
      }
    }
  }

  /** `json.dumps` of a list of strings is printable ASCII: no raw line break or
      other control character, and nothing beyond `~`. */
  lemma StringArrayPrintable(items: seq<string>, style: Style)
    ensures AllPrintable(EncodeStringArray(items, style))
  {
    JoinQuotedPrintable(items, style);
  }

  lemma MemberPrintable(m: (string, Scalar), style: Style)
    ensures AllPrintable(EncodeMember(m, style))
  {
    QuotePrintable(m.0);
    if m.1.Str? { QuotePrintable(m.1.s); }
    PrintableConcat(Quote(m.0), KeySeparator(style));
    PrintableConcat(Quote(m.0) + KeySeparator(style), EncodeScalar(m.1));
  }

  lemma {:induction false} JoinMembersPrintable(members: seq<(string, Scalar)>, style: Style)
    ensures AllPrintable(JoinMembers(members, style))
  {
    if |members| > 0 {
      MemberPrintable(members[0], style);
      if |members| > 1 {
        JoinMembersPrintable(members[1..], style);
        PrintableConcat(EncodeMember(members[0], style), ItemSeparator(style));
        PrintableConcat(EncodeMember(members[0], style) + ItemSeparator(style), JoinMembers(members[1..], style));
      }
    }
  }

  /** The serialised object is printable ASCII, so it holds no raw line break
      (section 7 of RFC 8259 has control characters escaped). */
  lemma ObjectPrintable(members: seq<(string, Scalar)>, style: Style)
    ensures AllPrintable(EncodeObject(members, style))
    ensures forall i :: 0 <= i < |EncodeObject(members, style)| ==>
      EncodeObject(members, style)[i] != '\n' && EncodeObject(members, style)[i] != '\r'
  {
    JoinMembersPrintable(members, style);
  }

  // ----- what the compact encoding never introduces -----

  predicate NoSpace(s: string) { forall i :: 0 <= i < |s| ==> s[i] != ' ' }

  lemma NoSpaceConcat(a: string, b: string)
    requires NoSpace(a) && NoSpace(b)
    ensures NoSpace(a + b)
  {
  }

  lemma {:induction false} EscapeStringNoSpace(s: string)
    requires NoSpace(s)
    ensures NoSpace(EscapeString(s))
  {
    if s != [] {
      EscapeStringNoSpace(s[1..]);
      EscapeCharNoSpace(s[0]);
      NoSpaceConcat(EscapeChar(s[0]), EscapeString(s[1..]));
    }
  }

  lemma EscapeCharNoSpace(c: char)
    requires c != ' '
    ensures NoSpace(EscapeChar(c))
  {
  }

  predicate MembersHaveNoSpace(members: seq<(string, Scalar)>) {
    forall i :: 0 <= i < |members| ==>
      NoSpace(members[i].0) && (members[i].1.Str? ==> NoSpace(members[i].1.s))
  }

  /** The compact style adds no space of its own: a space in the output comes from
      one of the keys or values. */
  lemma {:induction false} CompactMembersNoSpace(members: seq<(string, Scalar)>)
    requires MembersHaveNoSpace(members)
    ensures NoSpace(JoinMembers(members, Compact))
  {
    if |members| > 0 {
      MemberNoSpace(members[0]);
      if |members| > 1 {
        MembersNoSpaceTail(members);
        CompactMembersNoSpace(members[1..]);
        NoSpaceConcat(EncodeMember(members[0], Compact), ",");
        NoSpaceConcat(EncodeMember(members[0], Compact) + ",", JoinMembers(members[1..], Compact));
      }
    }
  }

  lemma MemberNoSpace(m: (string, Scalar))
    requires NoSpace(m.0) && (m.1.Str? ==> NoSpace(m.1.s))
    ensures NoSpace(EncodeMember(m, Compact))
  {
    EscapeStringNoSpace(m.0);
    assert NoSpace(EncodeScalar(m.1)) by {
      if m.1.Str? { EscapeStringNoSpace(m.1.s); }
    }
    NoSpaceConcat(Quote(m.0), ":");
    NoSpaceConcat(Quote(m.0) + ":", EncodeScalar(m.1));
  }

  lemma MembersNoSpaceTail(members: seq<(string, Scalar)>)
    requires |members| > 0 && MembersHaveNoSpace(members)
    ensures MembersHaveNoSpace(members[1..])
  {
    forall i | 0 <= i < |members[1..]|
      ensures NoSpace(members[1..][i].0) && (members[1..][i].1.Str? ==> NoSpace(members[1..][i].1.s))
    {
      assert members[1..][i] == members[i + 1];
    }
  }

  lemma CompactObjectNoSpace(members: seq<(string, Scalar)>)
    requires MembersHaveNoSpace(members)
    ensures NoSpace(EncodeObject(members, Compact))
  {
    CompactMembersNoSpace(members);
  }
}
