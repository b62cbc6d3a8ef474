/** Double-quoted strings as `JSON.stringify` writes them and `JSON.parse` reads them
    (section 7 of RFC 8259). */
module Json {
  import opened Text

  // ---- Writing

  function HexDigit(n: nat): char
    requires n < 16
  {
    "0123456789abcdef"[n]
  }

  /** What one character becomes between the quotes. */
  function EscapeChar(c: char): string {
    if c == '"' then "\\\""
    else if c == '\\' then "\\\\"
    else if c == '\U{0008}' then "\\b"
    else if c == '\t' then "\\t"
    else if c == '\n' then "\\n"
    else if c == '\U{000C}' then "\\f"
    else if c == '\r' then "\\r"
    else if c < ' ' then "\\u00" + [HexDigit(c as int / 16), HexDigit(c as int % 16)]
    else [c]
  }

  function Escape(s: string): string {
    if s == "" then "" else EscapeChar(s[0]) + Escape(s[1..])
  }

  function Quote(s: string): string {
    "\"" + Escape(s) + "\""
  }

  // ---- Reading

  function HexValue(c: char): (r: Option<nat>)
    ensures r.Some? ==> r.value < 16
  {
    if '0' <= c <= '9' then Some(c as int - '0' as int)
    else if 'a' <= c <= 'f' then Some(c as int - 'a' as int + 10)
    else if 'A' <= c <= 'F' then Some(c as int - 'A' as int + 10)
    else None
  }

  /** The UTF-16 unit written by the four hexadecimal digits that `t` starts with. */
  function HexUnit(t: string): (r: Option<nat>)
    ensures r.Some? ==> |t| >= 4 && r.value < 0x10000
  {
    if |t| < 4 then None
    else
      var a :- HexValue(t[0]);
      var b :- HexValue(t[1]);
      var c :- HexValue(t[2]);
      var d :- HexValue(t[3]);
      Some(((a * 16 + b) * 16 + c) * 16 + d)
  }

  function SimpleEscape(c: char): Option<char> {
    if c == '"' || c == '\\' || c == '/' then Some(c)
    else if c == 'b' then Some('\U{0008}')
    else if c == 't' then Some('\t')
    else if c == 'n' then Some('\n')
    else if c == 'f' then Some('\U{000C}')
    else if c == 'r' then Some('\r')
    else None
  }

  /** Reads the text after an opening quote; the closing quote must be its last character. */
  function DecodeBody(t: string): Option<string>
    decreases |t|, 1
  {
    if t == "" then None
    else if t[0] == '"' then (if |t| == 1 then Some("") else None)
    else if t[0] == '\\' then
      if |t| < 2 then None
      else if t[1] == 'u' then DecodeUnit(t)
      else
        var c :- SimpleEscape(t[1]);
        var rest :- DecodeBody(t[2..]);
        Some([c] + rest)
    else if t[0] < ' ' then None
    else
      var rest :- DecodeBody(t[1..]);
      Some([t[0]] + rest)
  }

  /** A `\uXXXX` escape, or a surrogate pair of them. */
  function DecodeUnit(t: string): Option<string>
    requires |t| >= 2
    decreases |t|, 0
  {
    var unit :- HexUnit(t[2..]);
    if 0xD800 <= unit < 0xDC00 then
      if |t| < 12 || t[6] != '\\' || t[7] != 'u' then None
      else
        var low :- HexUnit(t[8..]);
        if low < 0xDC00 || low >= 0xE000 then None
        else
          var rest :- DecodeBody(t[12..]);
          Some([(0x10000 + (unit - 0xD800) * 0x400 + (low - 0xDC00)) as char] + rest)
    else if 0xDC00 <= unit < 0xE000 then None
    else
      var rest :- DecodeBody(t[6..]);
      Some([unit as char] + rest)
  }

  /** `JSON.parse` on a text that starts with a quote. */
  function Decode(text: string): Option<string> {
    if text == "" || text[0] != '"' then None else DecodeBody(text[1..])
  }

  // ---- Reading undoes writing, and nothing else reads as the written text

  lemma {:induction false} DecodeOneEscape(c: char, t: string)
    ensures DecodeBody(EscapeChar(c) + t) ==
            (match DecodeBody(t) case Some(rest) => Some([c] + rest) case None => None)
  {
    var e := EscapeChar(c);
    var u := e + t;
    assert u[0] == e[0];
    if |e| == 1 {
      assert u[1..] == t;
    } else if |e| == 2 {
      assert u[1] == e[1] && u[2..] == t;
    } else {
      var hi, lo := c as int / 16, c as int % 16;
      assert u[1] == 'u' && u[2..][0] == '0' && u[2..][1] == '0';
      assert u[2..][2] == HexDigit(hi) && u[2..][3] == HexDigit(lo);
      assert HexValue(HexDigit(hi)) == Some(hi) && HexValue(HexDigit(lo)) == Some(lo);
      assert HexUnit(u[2..]) == Some(c as int);
      assert u[6..] == t;
    }
  }

  /** Reading the written form of `s` and then `tail`: only a bare closing quote is accepted. */
  lemma {:induction false} DecodeQuoted(s: string, tail: string)
    ensures DecodeBody(Escape(s) + "\"" + tail) == if tail == "" then Some(s) else None
  {
    if s == "" {
      assert Escape(s) + "\"" + tail == "\"" + tail;
    } else {
      var t := Escape(s[1..]) + "\"" + tail;
      assert Escape(s) + "\"" + tail == EscapeChar(s[0]) + t;
      DecodeOneEscape(s[0], t);
      DecodeQuoted(s[1..], tail);
      assert [s[0]] + s[1..] == s;
    }
  }

  /** A proper prefix of the written form is never a complete string. */
  lemma {:induction false} DecodeCutShort(s: string, k: nat)
    requires k <= |Escape(s)|
    ensures DecodeBody(Escape(s)[..k]) == None
  {
    if s == "" || k == 0 {
    } else {
      var e, rest := EscapeChar(s[0]), Escape(s[1..]);
      if k >= |e| {
        assert Escape(s)[..k] == e + rest[..k - |e|];
        DecodeOneEscape(s[0], rest[..k - |e|]);
        DecodeCutShort(s[1..], k - |e|);
      } else {
        var u := Escape(s)[..k];
        assert u == e[..k];
        assert u[0] == '\\';
        if k >= 2 {
          assert u[1] == 'u' && |u[2..]| < 4;
        }
      }
    }
  }

  /** Reading is a left inverse of writing, for every string. */
  lemma {:induction false} QuoteRoundTrip(s: string)
    ensures Decode(Quote(s)) == Some(s)
  {
    DecodeQuoted(s, "");
    assert Quote(s)[1..] == Escape(s) + "\"" + "";
  }

  /** A text comparable with the written form (one is a prefix of the other) is read only
      when it is the written form: a string literal is recognised by its first closing quote. */
  lemma {:induction false} OnlyTheQuotedFormDecodes(s: string, u: string)
    requires u <= Quote(s) || Quote(s) <= u
    requires u != Quote(s)
    ensures Decode(u) == None
  {
    if u != "" {
      var q := Quote(s);
      if |u| < |q| {
        assert u[1..] == Escape(s)[..|u| - 1];
        DecodeCutShort(s, |u| - 1);
      } else {
        var tail := u[|q|..];
        assert u == q + tail;
        assert u[1..] == Escape(s) + "\"" + tail;
        DecodeQuoted(s, tail);
      }
    }
  }

  /** The written form carries no control character, so it never spans lines. */
  lemma {:induction false} EscapeIsOneLine(s: string)
    ensures forall c :: c in Escape(s) ==> c >= ' '
  {
    if s != "" {
      EscapeIsOneLine(s[1..]);
    }
  }
}
