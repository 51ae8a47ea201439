/**
 * The part of JSON (RFC 8259) that the preset-label entry uses: `JSON.stringify`
 * of an array of strings, and `JSON.parse` of a text that holds `null` or an
 * array of strings. The encoder follows QuoteJSONString of ECMA-262 (short
 * escapes, `\u00xx` with lower-case hex for the other control characters, every
 * other character written as itself); the decoder accepts the RFC 8259 grammar
 * for these two kinds of value, insignificant whitespace included.
 */
module Json {
  import opened Wrappers

  /** The JSON values the preset-label entry can hold. */
  datatype Value = Null | StringArray(items: seq<string>)

  // ---------------------------------------------------------------------------
  // Hexadecimal digits
  // ---------------------------------------------------------------------------

  /** The value of a hexadecimal digit, in either case. */
  function HexValue(c: char): (r: Option<nat>)
    ensures r.Some? ==> r.value < 16
    ensures r.Some? <==> ('0' <= c <= '9' || 'a' <= c <= 'f' || 'A' <= c <= 'F')
  {
    if '0' <= c <= '9' then Some(c as int - '0' as int)
    else if 'a' <= c <= 'f' then Some(c as int - 'a' as int + 10)
    else if 'A' <= c <= 'F' then Some(c as int - 'A' as int + 10)
    else None
  }

  /** The lower-case hexadecimal digit that UnicodeEscape writes for `d`. */
  function HexDigit(d: nat): (c: char)
    requires d < 16
    ensures HexValue(c) == Some(d)
    ensures c != '"' && c != '\\'
  {
    if d < 10 then ('0' as int + d) as char else ('a' as int + d - 10) as char
  }

  /** Four hexadecimal digits read as one UTF-16 code unit. */
  function ParseHex4(t: string): (r: Option<nat>)
    requires |t| == 4
    ensures r.Some? ==> r.value < 0x1_0000
  {
    match (HexValue(t[0]), HexValue(t[1]), HexValue(t[2]), HexValue(t[3]))
    case (Some(a), Some(b), Some(c), Some(d)) => Some(((a * 16 + b) * 16 + c) * 16 + d)
    case _ => None
  }

  // ---------------------------------------------------------------------------
  // JSON.stringify of an array of strings
  // ---------------------------------------------------------------------------

  /** What QuoteJSONString writes for one character of a string. */
  function EscapeChar(c: char): (r: string)
    ensures |r| >= 1
  {
    if c == '"' then ['\\', '"']
    else if c == '\\' then ['\\', '\\']
    else if c as int == 0x08 then ['\\', 'b']
    else if c as int == 0x0C then ['\\', 'f']
    else if c == '\n' then ['\\', 'n']
    else if c == '\r' then ['\\', 'r']
    else if c == '\t' then ['\\', 't']
    else if c as int < 0x20 then ['\\', 'u', '0', '0', HexDigit(c as int / 16), HexDigit(c as int % 16)]
    else [c]
  }

  /** The body of a JSON string literal for `s`, without its quotes. */
  function Escape(s: string): string
  {
    if s == [] then [] else EscapeChar(s[0]) + Escape(s[1..])
  }

  /** The JSON string literal for `s`. */
  function Quote(s: string): (r: string)
    ensures |r| >= 2 && r[0] == '"'
  {
    "\"" + Escape(s) + "\""
  }

  /** The string literals of `items`, separated by commas and no whitespace. */
  function Join(items: seq<string>): (r: string)
    ensures items != [] ==> |r| > 0 && r[0] == '"'
  {
    if items == [] then []
    else if |items| == 1 then Quote(items[0])
    else Quote(items[0]) + "," + Join(items[1..])
  }

  /** `JSON.stringify(items)` for an array of strings. */
  function Stringify(items: seq<string>): (text: string)
    ensures |text| >= 2 && text[0] == '[' && text[|text| - 1] == ']'
  {
    "[" + Join(items) + "]"
  }

  // ---------------------------------------------------------------------------
  // JSON.parse of `null` or an array of strings
  // ---------------------------------------------------------------------------

  /** The four insignificant-whitespace characters of RFC 8259. */
  predicate IsWhitespace(c: char)
  {
    c == ' ' || c == '\t' || c == '\n' || c == '\r'
  }

  function SkipWhitespace(t: string): (r: string)
    ensures |r| <= |t|
  {
    if t != [] && IsWhitespace(t[0]) then SkipWhitespace(t[1..]) else t
  }

  /**
   * The character an escape sequence stands for, and the text after it; `t`
   * starts just after the backslash. A `\u` escape of a surrogate code unit has
   * no counterpart among Dafny characters and is not accepted.
   */
  function ParseEscape(t: string): (r: Option<(char, string)>)
    ensures r.Some? ==> |r.value.1| < |t|
  {
    if t == [] then None
    else if t[0] == '"' then Some(('"', t[1..]))
    else if t[0] == '\\' then Some(('\\', t[1..]))
    else if t[0] == '/' then Some(('/', t[1..]))
    else if t[0] == 'b' then Some((0x08 as char, t[1..]))
    else if t[0] == 'f' then Some((0x0C as char, t[1..]))
    else if t[0] == 'n' then Some(('\n', t[1..]))
    else if t[0] == 'r' then Some(('\r', t[1..]))
    else if t[0] == 't' then Some(('\t', t[1..]))
    else if t[0] == 'u' && |t| >= 5 then
      match ParseHex4(t[1..5])
      case Some(n) => if n < 0xD800 || 0xE000 <= n then Some((n as char, t[5..])) else None
      case None => None
    else None
  }

  /** Puts `c` in front of the string a successful parse produced. */
  function Prefixed(c: char, r: Option<(string, string)>): (r': Option<(string, string)>)
    ensures r'.Some? <==> r.Some?
    ensures r.Some? ==> r'.value == ([c] + r.value.0, r.value.1)
  {
    match r
    case None => None
    case Some((s, rest)) => Some(([c] + s, rest))
  }

  /**
   * The characters of a string literal up to its closing quote, and the text
   * after that quote; `t` starts just after the opening quote.
   */
  function ParseChars(t: string): (r: Option<(string, string)>)
    ensures r.Some? ==> |r.value.1| < |t|
    decreases |t|
  {
    if t == [] then None
    else if t[0] == '"' then Some(([], t[1..]))
    else if t[0] == '\\' then
      match ParseEscape(t[1..])
      case None => None
      case Some((c, rest)) => Prefixed(c, ParseChars(rest))
    else if t[0] as int < 0x20 then None
    else Prefixed(t[0], ParseChars(t[1..]))
  }

  function ParseString(t: string): (r: Option<(string, string)>)
    ensures r.Some? ==> |r.value.1| < |t|
  {
    if t != [] && t[0] == '"' then ParseChars(t[1..]) else None
  }

  /** One or more string elements of an array, through its closing bracket. */
  function ParseElements(t: string): (r: Option<(seq<string>, string)>)
    ensures r.Some? ==> |r.value.1| < |t| && |r.value.0| > 0
    decreases |t|
  {
    match ParseString(t)
    case None => None
    case Some((s, rest)) =>
      var after := SkipWhitespace(rest);
      if after != [] && after[0] == ']' then Some(([s], after[1..]))
      else if after != [] && after[0] == ',' then
        match ParseElements(SkipWhitespace(after[1..]))
        case None => None
        case Some((more, rest')) => Some(([s] + more, rest'))
      else None
  }

  /** An array of strings; `t` starts just after the opening bracket. */
  function ParseArray(t: string): (r: Option<(seq<string>, string)>)
    ensures r.Some? ==> |r.value.1| < |t|
  {
    var t' := SkipWhitespace(t);
    if t' != [] && t'[0] == ']' then Some(([], t'[1..])) else ParseElements(t')
  }

  /**
   * `JSON.parse(text)` when the text holds `null` or an array of strings;
   * None for every other text.
   */
  function Parse(text: string): (r: Option<Value>)
    ensures r.Some? ==> |text| >= 2
    ensures r == Some(Null) ==> |text| >= 4
  {
    var t := SkipWhitespace(text);
    if |t| >= 4 && t[..4] == "null" then
      if SkipWhitespace(t[4..]) == [] then Some(Null) else None
    else if t != [] && t[0] == '[' then
      match ParseArray(t[1..])
      case Some((items, rest)) => if SkipWhitespace(rest) == [] then Some(StringArray(items)) else None
      case None => None
    else None
  }

  // ---------------------------------------------------------------------------
  // Round trip
  // ---------------------------------------------------------------------------

  /** A character that needs no escape is read as itself. */
  lemma ParsePlain(t: string)
    requires t != [] && t[0] != '"' && t[0] != '\\' && t[0] as int >= 0x20
    ensures ParseChars(t) == Prefixed(t[0], ParseChars(t[1..]))
  {
  }

  /** An escape sequence is read as the character it stands for. */
  lemma ParseEscapeSequence(t: string, c: char, rest: string)
    requires t != [] && t[0] == '\\' && ParseEscape(t[1..]) == Some((c, rest))
    ensures ParseChars(t) == Prefixed(c, ParseChars(rest))
  {
  }

  /** The two-character escapes read back as the character they were written for. */
  lemma ParseShortEscape(c: char, tail: string)
    requires |EscapeChar(c)| == 2
    ensures ParseEscape(EscapeChar(c)[1..] + tail) == Some((c, tail))
  {
    var t := EscapeChar(c)[1..] + tail;
    assert t[0] == EscapeChar(c)[1] && t[1..] == tail;
  }

  /** A `\u00xx` escape reads back as the control character it was written for. */
  lemma ParseUnicodeEscape(c: char, tail: string)
    requires c as int < 0x20
    ensures ParseEscape(['u', '0', '0', HexDigit(c as int / 16), HexDigit(c as int % 16)] + tail) == Some((c, tail))
  {
    var hi, lo := HexDigit(c as int / 16), HexDigit(c as int % 16);
    var t := ['u', '0', '0', hi, lo] + tail;
    assert t[1..5] == ['0', '0', hi, lo];
    assert ParseHex4(t[1..5]) == Some(c as int);
    assert t[5..] == tail;
  }

  /** Reading back what QuoteJSONString writes for one character gives that character. */
  lemma ParseEscapeChar(c: char, tail: string)
    ensures ParseChars(EscapeChar(c) + tail) == Prefixed(c, ParseChars(tail))
  {
    var e := EscapeChar(c);
    var t := e + tail;
    assert t[1..] == e[1..] + tail;
    if |e| == 1 {
      assert e == [c] && c != '"' && c != '\\' && c as int >= 0x20;
      ParsePlain(t);
    } else if |e| == 2 {
      ParseShortEscape(c, tail);
      ParseEscapeSequence(t, c, tail);
    } else {
      assert e[1..] == ['u', '0', '0', HexDigit(c as int / 16), HexDigit(c as int % 16)];
      ParseUnicodeEscape(c, tail);
      ParseEscapeSequence(t, c, tail);
    }
  }

  lemma {:induction false} ParseEscaped(s: string, tail: string)
    ensures ParseChars(Escape(s) + "\"" + tail) == Some((s, tail))
  {
    if s == [] {
      assert Escape(s) + "\"" + tail == "\"" + tail;
    } else {
      var rest := Escape(s[1..]) + "\"" + tail;
      assert Escape(s) + "\"" + tail == EscapeChar(s[0]) + rest;
      ParseEscapeChar(s[0], rest);
      ParseEscaped(s[1..], tail);
      assert [s[0]] + s[1..] == s;
    }
  }

  lemma ParseQuoted(s: string, tail: string)
    ensures ParseString(Quote(s) + tail) == Some((s, tail))
  {
    assert (Quote(s) + tail)[1..] == Escape(s) + "\"" + tail;
    ParseEscaped(s, tail);
  }

  lemma NoWhitespace(t: string)
    requires t != [] && !IsWhitespace(t[0])
    ensures SkipWhitespace(t) == t
  {
  }

  /** The last element of an array: a string literal followed by the closing bracket. */
  lemma ParseLastElement(t: string, s: string, tail: string)
    requires ParseString(t) == Some((s, "]" + tail))
    ensures ParseElements(t) == Some(([s], tail))
  {
    assert SkipWhitespace("]" + tail) == "]" + tail;
    assert ("]" + tail)[1..] == tail;
  }

  /** An element followed by a comma and further elements. */
  lemma ParseNextElement(t: string, s: string, rest: string, more: seq<string>, tail: string)
    requires ParseString(t) == Some((s, "," + rest))
    requires rest != [] && rest[0] == '"'
    requires ParseElements(rest) == Some((more, tail))
    ensures ParseElements(t) == Some(([s] + more, tail))
  {
    var after := "," + rest;
    NoWhitespace(after);
    assert after[1..] == rest;
    NoWhitespace(rest);
    var r := ParseElements(t);
    assert r == Some(([s] + more, tail));
  }

  lemma JoinOne(item: string, tail: string)
    ensures Join([item]) + "]" + tail == Quote(item) + ("]" + tail)
  {
  }

  lemma JoinMore(items: seq<string>, tail: string)
    requires |items| >= 2
    ensures Join(items) + "]" + tail == Quote(items[0]) + ("," + (Join(items[1..]) + "]" + tail))
  {
    var q, j := Quote(items[0]), Join(items[1..]);
    assert Join(items) == q + "," + j;
    Regroup(q, ",", j, "]", tail);
  }

  lemma Regroup(a: string, b: string, c: string, d: string, e: string)
    ensures a + b + c + d + e == a + (b + (c + d + e))
  {
  }

  lemma {:induction false} ParseJoined(items: seq<string>, tail: string)
    requires items != []
    ensures ParseElements(Join(items) + "]" + tail) == Some((items, tail))
  {
    var t := Join(items) + "]" + tail;
    if |items| == 1 {
      assert [items[0]] == items;
      JoinOne(items[0], tail);
      ParseQuoted(items[0], "]" + tail);
      ParseLastElement(t, items[0], tail);
    } else {
      var rest := Join(items[1..]) + "]" + tail;
      JoinMore(items, tail);
      ParseQuoted(items[0], "," + rest);
      ParseJoined(items[1..], tail);
      ParseNextElement(t, items[0], rest, items[1..], tail);
      assert [items[0]] + items[1..] == items;
    }
  }

  /** A text that is an opening bracket followed by a whole array is parsed as that array. */
  lemma ParseBracketed(text: string, items: seq<string>)
    requires text != [] && text[0] == '[' && ParseArray(text[1..]) == Some((items, []))
    ensures Parse(text) == Some(StringArray(items))
  {
    NoWhitespace(text);
    assert |text| >= 4 ==> text[..4][0] == '[';
  }

  /** `JSON.parse(JSON.stringify(items))` gives back `items`. */
  lemma ParseStringify(items: seq<string>)
    ensures Parse(Stringify(items)) == Some(StringArray(items))
  {
    var text := Stringify(items);
    var body := text[1..];
    assert body == Join(items) + "]" + [];
    if items == [] {
      assert body == "]";
      NoWhitespace(body);
    } else {
      NoWhitespace(body);
      ParseJoined(items, []);
    }
    ParseBracketed(text, items);
  }

  /** `JSON.parse("null")` is `null`. */
  lemma ParseNull()
    ensures Parse("null") == Some(Null)
  {
    assert SkipWhitespace("null") == "null";
    assert "null"[4..] == [];
  }

  /** Different arrays are written as different texts. */
  lemma StringifyInjective(a: seq<string>, b: seq<string>)
    ensures Stringify(a) == Stringify(b) ==> a == b
  {
    ParseStringify(a);
    ParseStringify(b);
  }

}
