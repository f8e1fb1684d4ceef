/** JSON.stringify applied to a string, which is how saveToFile serialises a
    text answer before wrapping it in an application/json blob
    (script.js:73). This is the QuoteJSONString operation of ECMA-262
    (section 25.5.2.3); the `null, 2` indentation arguments do not affect a
    string. The partner is a decoder for JSON string literals (section 7 of
    RFC 8259), and the two round-trip. */
module Json {
  import opened Options

  const Backspace: char := '\U{0008}'
  const FormFeed: char := '\U{000C}'

  /** The lowercase hexadecimal digit of d (UnicodeEscape prints lowercase). */
  function HexDigit(d: nat): char
    requires d < 16
  {
    if d < 10 then ('0' as int + d) as char else ('a' as int + d - 10) as char
  }

  /** The value of a hexadecimal digit of either case, if it is one. */
  function HexValue(c: char): Option<nat>
  {
    if '0' <= c <= '9' then Some(c as int - '0' as int)
    else if 'a' <= c <= 'f' then Some(c as int - 'a' as int + 10)
    else if 'A' <= c <= 'F' then Some(c as int - 'A' as int + 10)
    else None
  }

  /** A character JSON.stringify writes as it is. */
  predicate Plain(c: char)
  {
    c >= ' ' && c != '"' && c != '\\'
  }

  /** The escape of one character: the two-character escapes for quote,
      backslash, backspace, form feed, line feed, carriage return and tab,
      \u00XX for any other control character, the character itself otherwise. */
  function EscapeChar(c: char): (r: string)
    ensures 1 <= |r| <= 6
    ensures |r| == 1 <==> Plain(c)
    ensures |r| == 1 ==> r == [c]
    ensures |r| > 1 ==> r[0] == '\\'
  {
    if c == '"' then "\\\""
    else if c == '\\' then "\\\\"
    else if c == Backspace then "\\b"
    else if c == FormFeed then "\\f"
    else if c == '\n' then "\\n"
    else if c == '\r' then "\\r"
    else if c == '\t' then "\\t"
    else if c < ' ' then ['\\', 'u', '0', '0', HexDigit(c as int / 16), HexDigit(c as int % 16)]
    else [c]
  }

  function Escape(s: string): (r: string)
    ensures |s| <= |r| <= 6 * |s|
  {
    if s == [] then [] else EscapeChar(s[0]) + Escape(s[1..])
  }

  /** A string of plain characters is its own escape. */
  lemma {:induction false} EscapePlain(s: string)
    requires forall k :: 0 <= k < |s| ==> Plain(s[k])
    ensures Escape(s) == s
  {
    if s != [] {
      EscapePlain(s[1..]);
      assert s == [s[0]] + s[1..];
    }
  }

  /** JSON.stringify(s) for a string s. */
  function Quote(s: string): (r: string)
    ensures |s| + 2 <= |r| && r[0] == '"' && r[|r| - 1] == '"'
  {
    "\"" + Escape(s) + "\""
  }

  /** The character a two-character escape \e stands for, if e names one. */
  function SimpleEscape(e: char): Option<char>
  {
    if e == '"' then Some('"')
    else if e == '\\' then Some('\\')
    else if e == '/' then Some('/')
    else if e == 'b' then Some(Backspace)
    else if e == 'f' then Some(FormFeed)
    else if e == 'n' then Some('\n')
    else if e == 'r' then Some('\r')
    else if e == 't' then Some('\t')
    else None
  }

  /** The code point written by four hexadecimal digits, if they are four
      hexadecimal digits naming a character (not a surrogate). */
  function UnicodeEscapeValue(h: string): Option<char>
    requires |h| == 4
  {
    var a, b, c, d := HexValue(h[0]), HexValue(h[1]), HexValue(h[2]), HexValue(h[3]);
    if a.None? || b.None? || c.None? || d.None? then None
    else
      var v := ((a.value * 16 + b.value) * 16 + c.value) * 16 + d.value;
      if 0xD800 <= v < 0xE000 then None else Some(v as char)
  }

  function Cons(c: char, rest: Option<string>): Option<string>
  {
    if rest.None? then None else Some([c] + rest.value)
  }

  /** Decodes the body of a JSON string literal (what lies between the
      quotes); None when it holds a raw quote, a raw control character or a
      malformed escape. */
  function Unescape(t: string): Option<string>
    decreases |t|
  {
    if t == [] then Some([])
    else if t[0] == '"' || t[0] < ' ' then None
    else if t[0] != '\\' then Cons(t[0], Unescape(t[1..]))
    else if |t| < 2 then None
    else if t[1] == 'u' then
      if |t| < 6 then None
      else
        var c := UnicodeEscapeValue(t[2..6]);
        if c.None? then None else Cons(c.value, Unescape(t[6..]))
    else
      var c := SimpleEscape(t[1]);
      if c.None? then None else Cons(c.value, Unescape(t[2..]))
  }

  /** Decodes a JSON string literal. */
  function Unquote(j: string): Option<string>
  {
    if |j| >= 2 && j[0] == '"' && j[|j| - 1] == '"' then Unescape(j[1..|j| - 1]) else None
  }

  /** Decoding one escaped character followed by anything else yields that
      character in front of whatever the rest decodes to. */
  lemma UnescapeEscapeChar(c: char, rest: string)
    ensures Unescape(EscapeChar(c) + rest) == Cons(c, Unescape(rest))
  {
    var t := EscapeChar(c) + rest;
    if c == '"' || c == '\\' || c == Backspace || c == FormFeed || c == '\n' || c == '\r' || c == '\t' {
      assert t[2..] == rest;
    } else if c < ' ' {
      assert t[2..6] == EscapeChar(c)[2..6];
      assert t[6..] == rest;
    } else {
      assert t[1..] == rest;
    }
  }

  /** Every string survives JSON.stringify followed by JSON decoding. */
  lemma {:induction false} UnescapeEscape(s: string)
    ensures Unescape(Escape(s)) == Some(s)
  {
    if s != [] {
      UnescapeEscapeChar(s[0], Escape(s[1..]));
      UnescapeEscape(s[1..]);
      assert [s[0]] + s[1..] == s;
    }
  }

  /** The saved text is a well-formed JSON string literal that decodes to
      exactly the answer. */
  lemma QuoteRoundTrip(s: string)
    ensures Unquote(Quote(s)) == Some(s)
  {
    var j := Quote(s);
    assert j[1..|j| - 1] == Escape(s);
    UnescapeEscape(s);
  }
}
