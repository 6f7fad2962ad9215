/**
 * The response body that routes/validateAndStoreEmail.mjs builds in its
 * `finally` block: JSON.stringify({ message }).  JSON.stringify quotes a
 * string as section 25.5.2.3 (QuoteJSONString) of ECMA-262 says: the short
 * escapes \b \t \n \f \r \" \\, a six-character \u00xx escape in lower-case
 * hexadecimal for the other control characters below U+0020, every other
 * character as it is.  The model's text is a sequence of Unicode code
 * points, not of UTF-16 code units, so a lone surrogate cannot occur in it
 * and the \uDxxx escape QuoteJSONString gives one is not modelled.
 *
 * The partner is a decoder for the same text; the round-trip lemma says
 * that the body always gives back the message.
 */
module JsonText {
  import opened Base

  function HexDigit(n: nat): char
    requires n < 16
  {
    if n < 10 then ('0' as int + n) as char else ('a' as int + n - 10) as char
  }

  /** The text QuoteJSONString writes for one character. */
  function EscapeChar(c: char): string {
    if c == '\U{0008}' then "\\b"
    else if c == '\t' then "\\t"
    else if c == '\n' then "\\n"
    else if c == '\U{000C}' then "\\f"
    else if c == '\r' then "\\r"
    else if c == '"' then "\\\""
    else if c == '\\' then "\\\\"
    else if (c as int) < 0x20 then "\\u00" + [HexDigit(c as int / 16), HexDigit(c as int % 16)]
    else [c]
  }

  /** The characters of a string literal between its quotes. */
  function Escape(s: string): string {
    if s == [] then [] else EscapeChar(s[0]) + Escape(s[1..])
  }

  /** JSON.stringify({ message: m }). */
  function StringifyMessage(m: string): string {
    "{\"message\":\"" + Escape(m) + "\"}"
  }

  // ---------------------------------------------------------------------
  // Decoding
  // ---------------------------------------------------------------------

  function HexValue(c: char): Option<nat> {
    if '0' <= c <= '9' then Some(c as int - '0' as int)
    else if 'a' <= c <= 'f' then Some(c as int - 'a' as int + 10)
    else if 'A' <= c <= 'F' then Some(c as int - 'A' as int + 10)
    else None
  }

  /** The value of four hexadecimal digits. */
  function Hex4(s: string): (r: Option<nat>)
    requires |s| == 4
    ensures r.Some? ==> r.value < 0x10000
  {
    match (HexValue(s[0]), HexValue(s[1]), HexValue(s[2]), HexValue(s[3]))
    case (Some(a), Some(b), Some(c), Some(d)) =>
      if a < 16 && b < 16 && c < 16 && d < 16 then Some(((a * 16 + b) * 16 + c) * 16 + d) else None
    case _ => None
  }

  function Prepend(c: char, r: Option<string>): Option<string> {
    match r
    case None => None
    case Some(t) => Some([c] + t)
  }

  /** The string that the characters between a literal's quotes denote, or None when they are not valid JSON. */
  function Unescape(s: string): Option<string>
    decreases |s|
  {
    if s == [] then Some([])
    else if s[0] == '\\' then
      if |s| < 2 then None
      else if s[1] == 'b' then Prepend('\U{0008}', Unescape(s[2..]))
      else if s[1] == 't' then Prepend('\t', Unescape(s[2..]))
      else if s[1] == 'n' then Prepend('\n', Unescape(s[2..]))
      else if s[1] == 'f' then Prepend('\U{000C}', Unescape(s[2..]))
      else if s[1] == 'r' then Prepend('\r', Unescape(s[2..]))
      else if s[1] == '"' then Prepend('"', Unescape(s[2..]))
      else if s[1] == '\\' then Prepend('\\', Unescape(s[2..]))
      else if s[1] == '/' then Prepend('/', Unescape(s[2..]))
      else if s[1] == 'u' && |s| >= 6 then
        match Hex4(s[2..6])
        case None => None
        case Some(v) =>
          if 0xD800 <= v < 0xE000 then None else Prepend(v as char, Unescape(s[6..]))
      else None
    else if s[0] == '"' || (s[0] as int) < 0x20 then None
    else Prepend(s[0], Unescape(s[1..]))
  }

  /** The message of a body of the form {"message":"..."}, or None. */
  function ParseMessage(body: string): Option<string> {
    var open := "{\"message\":\"";
    if |body| >= |open| + 2 && body[..|open|] == open && body[|body| - 2..] == "\"}" then
      Unescape(body[|open|..|body| - 2])
    else None
  }

  // ---------------------------------------------------------------------
  // Round trip
  // ---------------------------------------------------------------------

  lemma HexDigitValue(n: nat)
    requires n < 16
    ensures HexValue(HexDigit(n)) == Some(n)
  {
  }

  /** A control character below U+0020 without a short escape comes back from its \u00xx escape. */
  lemma UnescapeControl(c: char, t: string)
    requires |EscapeChar(c)| == 6
    ensures Unescape(EscapeChar(c) + t) == Prepend(c, Unescape(t))
  {
    var s := EscapeChar(c) + t;
    var n := c as int;
    assert n < 0x20;
    HexDigitValue(n / 16);
    HexDigitValue(n % 16);
    assert s[..2] == "\\u";
    assert s[2..6] == ['0', '0', HexDigit(n / 16), HexDigit(n % 16)];
    assert Hex4(s[2..6]) == Some(n);
    assert s[6..] == t;
  }

  /** A short escape comes back as its character. */
  lemma UnescapeShort(c: char, t: string)
    requires |EscapeChar(c)| == 2
    ensures Unescape(EscapeChar(c) + t) == Prepend(c, Unescape(t))
  {
    var s := EscapeChar(c) + t;
    assert s[2..] == t;
  }

  /** Decoding one escaped character and then the rest gives that character and then the rest. */
  lemma UnescapeStep(c: char, t: string)
    ensures Unescape(EscapeChar(c) + t) == Prepend(c, Unescape(t))
  {
    if |EscapeChar(c)| == 2 {
      UnescapeShort(c, t);
    } else if |EscapeChar(c)| == 6 {
      UnescapeControl(c, t);
    } else {
      var s := EscapeChar(c) + t;
      assert s[1..] == t;
    }
  }

  lemma {:induction false} UnescapeEscape(m: string)
    ensures Unescape(Escape(m)) == Some(m)
    decreases |m|
  {
    if m != [] {
      UnescapeEscape(m[1..]);
      UnescapeStep(m[0], Escape(m[1..]));
      assert [m[0]] + m[1..] == m;
    }
  }

  /** The response body always gives back the message it was built from. */
  lemma MessageRoundTrip(m: string)
    ensures ParseMessage(StringifyMessage(m)) == Some(m)
  {
    var open := "{\"message\":\"";
    var body := StringifyMessage(m);
    assert body == open + Escape(m) + "\"}";
    assert body[..|open|] == open;
    assert body[|body| - 2..] == "\"}";
    assert body[|open|..|body| - 2] == Escape(m);
    UnescapeEscape(m);
  }

  /** Distinct messages give distinct bodies. */
  lemma StringifyInjective(m1: string, m2: string)
    requires StringifyMessage(m1) == StringifyMessage(m2)
    ensures m1 == m2
  {
    MessageRoundTrip(m1);
    MessageRoundTrip(m2);
  }
}
