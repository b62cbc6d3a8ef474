/** The values the configuration printer writes, and when a printed line reads back. */
module TomlPrinter {
  import opened Text
  import opened Json
  import opened TomlLexer
  import opened TomlParser

  datatype Item =
    | Text(text: string)
    | Count(count: nat)
    | Flag(flag: bool)
    | Texts(texts: seq<string>)

  function Decimal(n: nat): string {
    if n < 10 then [('0' as int + n) as char] else Decimal(n / 10) + [('0' as int + n % 10) as char]
  }

  function QuoteAll(texts: seq<string>): seq<string> {
    if texts == [] then [] else [Quote(texts[0])] + QuoteAll(texts[1..])
  }

  /** The printed elements, separated by a comma and a space. */
  function Elements(texts: seq<string>): string {
    Join(QuoteAll(texts), ", ")
  }

  function RenderItem(item: Item): string {
    match item
    case Text(s) => Quote(s)
    case Count(n) => Decimal(n)
    case Flag(b) => if b then "true" else "false"
    case Texts(xs) => "[" + Elements(xs) + "]"
  }

  function RenderEntry(key: string, item: Item): string {
    key + " = " + RenderItem(item)
  }

  function TextValues(texts: seq<string>): seq<Value> {
    if texts == [] then [] else [Str(texts[0])] + TextValues(texts[1..])
  }

  /** The value a printed item stands for. */
  function ItemValue(item: Item): Value {
    match item
    case Text(s) => Str(s)
    case Count(n) => Num(n as real)
    case Flag(b) => Bool(b)
    case Texts(xs) => List(TextValues(xs))
  }

  // ---- When an item survives printing

  /** No `mark` where a scan that starts inside double quotes believes to be outside. */
  predicate Hides(s: string, mark: char) {
    Reach(InDouble, s, mark) == |s|
  }

  /** Commas stay inside the elements, and every element but the last leaves the scan where
      its own closing quote ends the quotation. */
  predicate SplitsWell(texts: seq<string>) {
    texts == [] ||
    (&& Hides(texts[0], ',')
     && (|texts| == 1 || (After(InDouble, texts[0]) == InDouble && SplitsWell(texts[1..]))))
  }

  predicate Survives(item: Item) {
    match item
    case Text(s) => Hides(s, '#')
    case Texts(xs) => SplitsWell(xs) && forall i :: 0 <= i < |xs| ==> Hides(xs[i], '#')
    case _ => true
  }

  // ---- Scanning printed strings

  lemma {:induction false} EscapeCharScan(q: QuoteState, c: char, mark: char)
    requires mark == '#' || mark == ','
    ensures After(q, EscapeChar(c)) == Toggle(q, c)
    ensures Reach(q, EscapeChar(c), mark) == |EscapeChar(c)| <==> !(c == mark && q == Plain)
  {
    var e := EscapeChar(c);
    if |e| == 1 {
      OneCharScan(q, c, mark);
    } else if c == '"' {
      assert e[0] == '\\' && e[1..] == "\"";
      assert After(q, e) == After(q, e[1..]);
      assert Reach(q, e, mark) == 1 + Reach(q, e[1..], mark);
      OneCharScan(q, '"', mark);
    } else {
      NoQuotesInEscape(c);
      PlainText(q, e, mark);
    }
  }

  lemma OneCharScan(q: QuoteState, c: char, mark: char)
    ensures After(q, [c]) == Toggle(q, c)
    ensures Reach(q, [c], mark) == 1 <==> !(c == mark && q == Plain)
  {
    assert [c][1..] == "";
    assert After(Toggle(q, c), "") == Toggle(q, c);
  }

  lemma NoQuotesInEscape(c: char)
    requires |EscapeChar(c)| > 1 && c != '"'
    ensures forall m :: m in {'"', '\'', '#', ','} ==> m !in EscapeChar(c)
  {
    if c < ' ' && |EscapeChar(c)| == 6 {
      var hi, lo := c as int / 16, c as int % 16;
      assert EscapeChar(c) == "\\u00" + [HexDigit(hi), HexDigit(lo)];
    }
  }

  lemma {:induction false} EscapeScan(q: QuoteState, s: string, mark: char)
    requires mark == '#' || mark == ','
    ensures After(q, Escape(s)) == After(q, s)
    ensures Reach(q, Escape(s), mark) == |Escape(s)| <==> Reach(q, s, mark) == |s|
    decreases s
  {
    if s != "" {
      var e, rest := EscapeChar(s[0]), Escape(s[1..]);
      EscapeCharScan(q, s[0], mark);
      EscapeScan(Toggle(q, s[0]), s[1..], mark);
      AfterConcat(q, e, rest);
      ReachConcat(q, e, rest, mark);
    }
  }

  lemma QuoteScan(s: string, mark: char)
    requires mark == '#' || mark == ','
    ensures After(Plain, Quote(s)) == Plain <==> After(InDouble, s) == InDouble
    ensures Reach(Plain, Quote(s), mark) == |Quote(s)| <==> Hides(s, mark)
  {
    var e := Escape(s);
    assert Quote(s) == "\"" + e + "\"";
    EscapeScan(InDouble, s, mark);
    AfterConcat(Plain, "\"" + e, "\"");
    AfterConcat(Plain, "\"", e);
    ReachConcat(Plain, "\"" + e, "\"", mark);
    ReachConcat(Plain, "\"", e, mark);
    ShortScans(After(InDouble, s), mark);
  }

  lemma ShortScans(q: QuoteState, mark: char)
    requires mark == '#' || mark == ','
    ensures After(q, "\"") == Toggle(q, '"')
    ensures Reach(q, "\"", mark) == 1
    ensures After(Plain, "\"") == InDouble
    ensures Reach(Plain, "\"", mark) == 1
  {
    assert "\""[1..] == "";
    assert After(Toggle(q, '"'), "") == Toggle(q, '"');
    assert After(InDouble, "") == InDouble;
    assert Toggle(Plain, '"') == InDouble;
    assert Reach(Toggle(q, '"'), "", mark) == 0;
  }

  // ---- Numbers

  lemma {:induction false} DecimalReads(n: nat)
    ensures AllDigits(Decimal(n)) && DigitsValue(Decimal(n)) == n
  {
    if n < 10 {
      var s := Decimal(n);
      assert s[..|s| - 1] == "";
      assert DigitsValue("") == 0;
    } else {
      DecimalReads(n / 10);
      var s := Decimal(n);
      assert s[..|s| - 1] == Decimal(n / 10);
    }
  }

  // ---- Strings

  /** The first quoted string decides: any other text that starts the same way is refused. */
  lemma OnlyTheQuoteIsRead(s: string, u: string)
    requires u != "" && (u <= Quote(s) || Quote(s) <= u)
    requires Tight(Js, u)
    ensures ParseValue(u) == if u == Quote(s) then Some(Str(s)) else None
  {
    TightIsFixed(Js, u);
    assert u[0] == '"';
    assert StartsWith(u, "\"");
    if u == Quote(s) {
      QuoteRoundTrip(s);
      if s != "" {
        assert u[1] == EscapeChar(s[0])[0] != '"';
      }
      assert !StartsWith(u, "\"\"\"");
    } else {
      OnlyTheQuotedFormDecodes(s, u);
    }
  }

  lemma QuoteIsTight(s: string)
    ensures Tight(Js, Quote(s)) && |Quote(s)| >= 2 && Quote(s)[0] == '"'
  {
  }
}
