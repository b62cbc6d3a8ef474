/** Labelled texts: the author says, segment by segment, what is code and what is not, without any
    scanning. The plain pass masks exactly what the labels say, and every text can be labelled. */
module TraceOracle {
  import opened Text
  import opened TraceMask

  /** One step inside a string. */
  datatype Unit = Char(c: char) | Escape(c: char)

  datatype Segment =
    | Code(text: string)
    | LineComment(body: string)
    | BlockComment(body: string)
    | OpenBlock(body: string)
    | Quoted(quote: char, units: seq<Unit>)
    | OpenQuoted(quote: char, units: seq<Unit>, cutEscape: bool)

  function ShowUnit(u: Unit): string {
    match u case Char(c) => [c] case Escape(c) => ['\\', c]
  }

  function ShowUnits(units: seq<Unit>): string {
    if units == [] then "" else ShowUnit(units[0]) + ShowUnits(units[1..])
  }

  function Show(x: Segment): string {
    match x
    case Code(text) => text
    case LineComment(body) => "//" + body
    case BlockComment(body) => "/*" + body + "*/"
    case OpenBlock(body) => "/*" + body
    case Quoted(quote, body) => [quote] + ShowUnits(body) + [quote]
    case OpenQuoted(quote, body, cutEscape) => [quote] + ShowUnits(body) + (if cutEscape then "\\" else "")
  }

  function Flat(xs: seq<Segment>): string {
    if xs == [] then "" else Show(xs[0]) + Flat(xs[1..])
  }

  /** The mask read off the labels. */
  function Labels(xs: seq<Segment>): seq<bool> {
    if xs == [] then [] else Label(Show(xs[0]), !xs[0].Code?) + Labels(xs[1..])
  }

  // ---- Well-formed labellings

  predicate NoCloser(s: string) { forall i: nat :: i + 1 < |s| ==> !(s[i] == '*' && s[i + 1] == '/') }

  /** No quote and no comment opener. */
  predicate PlainCode(s: string) {
    && (forall i :: 0 <= i < |s| ==> !IsQuote(s[i]))
    && forall i: nat :: i + 1 < |s| ==> !(s[i] == '/' && s[i + 1] in {'/', '*'})
  }

  predicate GoodUnits(units: seq<Unit>, quote: char) {
    forall i :: 0 <= i < |units| && units[i].Char? ==>
      units[i].c != quote && units[i].c != '\\' && (units[i].c == '\n' ==> quote == '`')
  }

  predicate GoodSegment(x: Segment) {
    match x
    case Code(text) => PlainCode(text)
    case LineComment(body) => '\n' !in body
    case BlockComment(body) => NoCloser(body)
    case OpenBlock(body) => NoCloser(body)
    case Quoted(quote, body) => IsQuote(quote) && GoodUnits(body, quote)
    case OpenQuoted(quote, body, _) => IsQuote(quote) && GoodUnits(body, quote)
  }

  /** What may follow a segment: code runs into no opener, a line comment ends with its line, and a
      construct that is not closed ends where the language ends it. */
  predicate MayPrecede(x: Segment, rest: string) {
    match x
    case Code(text) => text != "" && text[|text| - 1] == '/' && rest != "" ==> rest[0] !in {'/', '*'}
    case LineComment(_) => rest == "" || rest[0] == '\n'
    case OpenBlock(_) => rest == ""
    case OpenQuoted(quote, _, cutEscape) => rest == "" || (!cutEscape && quote != '`' && rest[0] == '\n')
    case _ => true
  }

  predicate WellLabelled(xs: seq<Segment>) {
    xs == [] || (GoodSegment(xs[0]) && MayPrecede(xs[0], Flat(xs[1..])) && WellLabelled(xs[1..]))
  }

  // ---- Each construct reaches as far as its label

  lemma {:induction false} LineReaches(body: string, rest: string)
    requires '\n' !in body && (rest == "" || rest[0] == '\n')
    ensures LineLength(body + rest) == |body|
    decreases body
  {
    if body == "" {
      assert body + rest == rest;
    } else {
      assert (body + rest)[1..] == body[1..] + rest;
      LineReaches(body[1..], rest);
    }
  }

  lemma {:induction false} CloserReaches(body: string, rest: string)
    requires NoCloser(body)
    ensures CloserLength(body + "*/" + rest) == |body| + 2
    decreases body
  {
    var all := body + "*/" + rest;
    if body == "" {
      assert all[0] == '*' && all[1] == '/';
    } else {
      assert all[1..] == body[1..] + "*/" + rest;
      assert all[0] == body[0] && all[1] == (if |body| > 1 then body[1] else '*');
      CloserReaches(body[1..], rest);
    }
  }

  lemma CloserHere(s: string)
    requires "*/" <= s
    ensures |s| >= 2 && s[0] == '*' && s[1] == '/'
  {
  }

  lemma {:induction false} NoCloserReaches(body: string)
    requires NoCloser(body)
    ensures CloserLength(body) == |body|
    decreases body
  {
    if body != "" {
      NoCloserReaches(body[1..]);
      if "*/" <= body {
        CloserHere(body);
      }
    }
  }

  lemma {:induction false} BodyReaches(units: seq<Unit>, quote: char, rest: string)
    requires IsQuote(quote) && GoodUnits(units, quote)
    ensures BodyLength(ShowUnits(units) + rest, quote) == |ShowUnits(units)| + BodyLength(rest, quote)
    decreases units
  {
    var all := ShowUnits(units) + rest;
    if units == [] {
      assert all == rest;
    } else {
      var tail := ShowUnits(units[1..]) + rest;
      BodyReaches(units[1..], quote, rest);
      match units[0]
      case Char(c) =>
        assert all[0] == c && all[1..] == tail;
      case Escape(c) =>
        assert all[0] == '\\' && all[1] == c && all[2..] == tail;
    }
  }

  lemma QuotedReaches(x: Segment, rest: string)
    requires (x.Quoted? || x.OpenQuoted?) && GoodSegment(x) && MayPrecede(x, rest)
    ensures StringLength(Show(x) + rest) == |Show(x)| && (Show(x) + rest)[0] == x.quote
  {
    var end := EndOf(x);
    BodyReaches(x.units, x.quote, end + rest);
    BodyEnds(x, end, rest);
    ShowQuoted(x, rest);
    hide *;
    var body := ShowUnits(x.units);
    QuotedLength(x.quote, body + (end + rest));
  }

  /** What a string segment ends with. */
  function EndOf(x: Segment): string
    requires x.Quoted? || x.OpenQuoted?
  {
    if x.Quoted? then [x.quote] else if x.cutEscape then "\\" else ""
  }

  lemma ShowQuoted(x: Segment, rest: string)
    requires x.Quoted? || x.OpenQuoted?
    ensures Show(x) + rest == [x.quote] + (ShowUnits(x.units) + (EndOf(x) + rest))
    ensures |Show(x)| == 1 + |ShowUnits(x.units)| + |EndOf(x)|
  {
    hide ShowUnits;
    var body, end := ShowUnits(x.units), EndOf(x);
    assert Show(x) == [x.quote] + body + end;
    assert [x.quote] + body + end + rest == [x.quote] + (body + (end + rest));
  }

  lemma QuotedLength(quote: char, tail: string)
    ensures StringLength([quote] + tail) == 1 + BodyLength(tail, quote)
  {
    assert ([quote] + tail)[1..] == tail && ([quote] + tail)[0] == quote;
  }

  lemma BodyEnds(x: Segment, end: string, rest: string)
    requires (x.Quoted? || x.OpenQuoted?) && GoodSegment(x) && MayPrecede(x, rest)
    requires end == EndOf(x)
    ensures BodyLength(end + rest, x.quote) == |end|
  {
    var t := end + rest;
    if end == "" {
      assert t == rest;
    } else {
      assert t[0] == end[0] && |t| == 1 + |rest|;
    }
  }

  /** A construct that is not code is recognised as a whole. */
  lemma NonCodeReaches(x: Segment, rest: string)
    requires !x.Code? && GoodSegment(x) && MayPrecede(x, rest)
    ensures Show(x) != "" && Next(Show(x) + rest, Plain) == Lexeme(|Show(x)|, true)
  {
    match x
    case LineComment(body) =>
      LineIsNext(body, rest);
    case BlockComment(body) =>
      BlockIsNext(body, rest);
    case OpenBlock(body) =>
      OpenBlockIsNext(body);
      assert Show(x) + rest == "/*" + body;
    case Quoted(_, _) =>
      QuotedReaches(x, rest);
      StringIsNext(Show(x) + rest);
    case OpenQuoted(_, _, _) =>
      QuotedReaches(x, rest);
      StringIsNext(Show(x) + rest);
    case Code(_) =>
  }

  lemma LineIsNext(body: string, rest: string)
    requires '\n' !in body && (rest == "" || rest[0] == '\n')
    ensures Next("//" + body + rest, Plain) == Lexeme(|body| + 2, true)
  {
    var all := "//" + body + rest;
    LineReaches("//" + body, rest);
    assert all[0] == '/' && all[1] == '/';
  }

  lemma BlockIsNext(body: string, rest: string)
    requires NoCloser(body)
    ensures Next("/*" + body + "*/" + rest, Plain) == Lexeme(|body| + 4, true)
  {
    var all := "/*" + body + "*/" + rest;
    assert all[0] == '/' && all[1] == '*' && all[2..] == body + "*/" + rest;
    CloserReaches(body, rest);
  }

  lemma OpenBlockIsNext(body: string)
    requires NoCloser(body)
    ensures Next("/*" + body, Plain) == Lexeme(|body| + 2, true)
  {
    var all := "/*" + body;
    assert all[0] == '/' && all[1] == '*' && all[2..] == body;
    NoCloserReaches(body);
  }

  lemma StringIsNext(all: string)
    requires all != "" && IsQuote(all[0])
    ensures Next(all, Plain) == Lexeme(StringLength(all), true)
  {
  }

  lemma CodeCharIsPassed(c: char, rest: string)
    requires !IsQuote(c) && (c == '/' && rest != "" ==> rest[0] !in {'/', '*'})
    ensures Scan([c] + rest, Plain) == [false] + Scan(rest, Plain)
  {
    var all := [c] + rest;
    assert all[0] == c && (rest != "" ==> all[1] == rest[0]);
    assert Next(all, Plain) == Lexeme(1, false);
    assert all[..1] == [c] && all[1..] == rest;
    assert Label([c], false) == [false];
  }

  lemma {:induction false} CodeIsPassed(text: string, rest: string)
    requires PlainCode(text) && MayPrecede(Code(text), rest)
    ensures Scan(text + rest, Plain) == Label(text, false) + Scan(rest, Plain)
    decreases text
  {
    hide Scan, IsQuote;
    if text == "" {
      assert text + rest == rest && Label(text, false) + Scan(rest, Plain) == Scan(rest, Plain);
    } else {
      var tail := text[1..];
      assert text + rest == [text[0]] + (tail + rest);
      CodeIsPassed(tail, rest);
      CodeCharIsPassed(text[0], tail + rest);
      assert Label(text, false) == [false] + Label(tail, false);
    }
  }

  /** On every well-labelled text the plain pass masks exactly the characters labelled as not code,
      line feeds left out. */
  lemma {:induction false} LabelsAreMasked(xs: seq<Segment>)
    requires WellLabelled(xs)
    ensures Scan(Flat(xs), Plain) == Labels(xs)
    decreases xs
  {
    hide Next, Show, GoodSegment, MayPrecede;
    if xs != [] {
      var x, rest := xs[0], Flat(xs[1..]);
      LabelsAreMasked(xs[1..]);
      if x.Code? {
        CodeIsPassed(x.text, rest) by { CodeFacts(x, rest); }
        CodeFacts(x, rest);
      } else {
        NonCodeReaches(x, rest);
        var n, all := |Show(x)|, Show(x) + rest;
        assert all[..n] == Show(x) && all[n..] == rest;
      }
    }
  }

  lemma CodeFacts(x: Segment, rest: string)
    requires x.Code? && GoodSegment(x) && MayPrecede(x, rest)
    ensures PlainCode(x.text) && MayPrecede(Code(x.text), rest) && Show(x) == x.text
  {
  }

  // ---- Every text can be labelled

  lemma TakeFurther(s: string, k: nat, n: nat)
    requires k <= |s| && n <= |s| - k
    ensures s[..k + n] == s[..k] + s[k..][..n] && s[k..][n..] == s[k + n..]
  {
  }

  lemma ShowCons(u: Unit, units: seq<Unit>)
    ensures ShowUnits([u] + units) == ShowUnit(u) + ShowUnits(units)
  {
    assert ([u] + units)[1..] == units;
  }

  /** How the body of a string ends: with its quote, cut short after a backslash, or left open. */
  predicate BodyEnd(s: string, quote: char, end: string) {
    var n := BodyLength(s, quote);
    || end == [quote]
    || (end == "\\" && n == |s|)
    || (end == "" && (s[n..] == "" || (quote != '`' && s[n..][0] == '\n')))
  }

  lemma {:induction false} BodyUnits(s: string, quote: char) returns (units: seq<Unit>, end: string)
    requires IsQuote(quote)
    ensures GoodUnits(units, quote) && s[..BodyLength(s, quote)] == ShowUnits(units) + end && BodyEnd(s, quote, end)
    decreases |s|
  {
    if s == "" {
      units, end := [], "";
    } else if s[0] == '\\' {
      if |s| == 1 {
        units, end := [], "\\";
        assert s[..1] == "\\";
      } else {
        units, end := BodyUnits(s[2..], quote);
        units := TakenUnit(s, 2, Escape(s[1]), units, end, quote);
      }
    } else if s[0] == quote {
      units, end := [], [quote];
      assert s[..1] == [quote];
    } else if s[0] == '\n' && quote != '`' {
      units, end := [], "";
      assert s[0..] == s && s[..0] == "";
    } else {
      units, end := BodyUnits(s[1..], quote);
      units := TakenUnit(s, 1, Char(s[0]), units, end, quote);
    }
  }

  /** One unit before the units of the rest. */
  lemma TakenUnit(s: string, k: nat, u: Unit, rest: seq<Unit>, end: string, quote: char) returns (units: seq<Unit>)
    requires 1 <= k <= |s| && ShowUnit(u) == s[..k] && GoodUnits(rest, quote) && GoodUnits([u], quote)
    requires BodyLength(s, quote) == k + BodyLength(s[k..], quote)
    requires s[k..][..BodyLength(s[k..], quote)] == ShowUnits(rest) + end && BodyEnd(s[k..], quote, end)
    ensures units == [u] + rest && GoodUnits(units, quote)
    ensures s[..BodyLength(s, quote)] == ShowUnits(units) + end && BodyEnd(s, quote, end)
  {
    hide BodyLength, ShowUnits, ShowUnit;
    units := [u] + rest;
    ShowCons(u, rest);
    TakeFurther(s, k, BodyLength(s[k..], quote));
    assert ShowUnit(u) + (ShowUnits(rest) + end) == ShowUnit(u) + ShowUnits(rest) + end;
    assert forall i :: 0 <= i < |rest| ==> units[i + 1] == rest[i];
    assert units[0] == [u][0];
  }

  lemma {:induction false} CloserFound(s: string) returns (body: string)
    ensures NoCloser(body)
    ensures s[..CloserLength(s)] == body + "*/" || (s == body && CloserLength(s) == |s|)
    decreases |s|
  {
    if "*/" <= s {
      body := "";
      assert s[..2] == "*/";
    } else if s == "" {
      body := "";
    } else {
      var more := CloserFound(s[1..]);
      body := [s[0]] + more;
      assert s[..1 + CloserLength(s[1..])] == [s[0]] + s[1..][..CloserLength(s[1..])];
      assert |s| > 1 ==> s[1] == s[1..][0];
      FirstOfMore(s[1..], more);
    }
  }

  /** The body found starts with the text's own first character, or is empty before a closer. */
  lemma FirstOfMore(s: string, body: string)
    requires s[..CloserLength(s)] == body + "*/" || (s == body && CloserLength(s) == |s|)
    ensures body != "" ==> s != "" && body[0] == s[0]
  {
    if s[..CloserLength(s)] == body + "*/" && body != "" {
      assert (body + "*/")[0] == body[0];
    }
  }

  /** A segment that may stand first. */
  predicate Leads(x: Segment, s: string) {
    GoodSegment(x) && Show(x) != "" && Show(x) <= s && MayPrecede(x, s[|Show(x)|..])
  }

  lemma FirstLine(s: string)
    requires "//" <= s
    ensures LineLength(s) >= 2 && Leads(LineComment(s[2..LineLength(s)]), s)
  {
    assert s[0] == '/' && s[1] == '/' && s[1..][0] == '/';
    assert LineLength(s) == 1 + LineLength(s[1..]);
    assert s[..LineLength(s)] == "//" + s[2..LineLength(s)];
  }

  lemma FirstBlock(s: string) returns (x: Segment)
    requires "/*" <= s
    ensures Leads(x, s)
  {
    var body := CloserFound(s[2..]);
    var n := CloserLength(s[2..]);
    hide CloserLength, NoCloser;
    if s[2..][..n] == body + "*/" {
      x := BlockComment(body);
      TakeFurther(s, 2, n);
      assert s[..2] == "/*";
      assert "/*" + (body + "*/") == "/*" + body + "*/";
    } else {
      x := OpenBlock(body);
      assert s == s[..2] + s[2..];
    }
  }

  lemma FirstString(s: string) returns (x: Segment)
    requires s != "" && IsQuote(s[0])
    ensures Leads(x, s)
  {
    var units, end := BodyUnits(s[1..], s[0]);
    var n := BodyLength(s[1..], s[0]);
    hide BodyLength, ShowUnits, GoodUnits;
    TakeFurther(s, 1, n);
    assert s[..1] == [s[0]];
    assert [s[0]] + (ShowUnits(units) + end) == [s[0]] + ShowUnits(units) + end;
    x := if end == [s[0]] then Quoted(s[0], units) else OpenQuoted(s[0], units, end == "\\");
    assert Show(x) == s[..1 + n];
  }

  /** What stands at the start of a text, as one labelled segment. */
  lemma FirstSegment(s: string) returns (x: Segment)
    requires s != ""
    ensures Leads(x, s)
  {
    if "//" <= s {
      FirstLine(s);
      x := LineComment(s[2..LineLength(s)]);
    } else if "/*" <= s {
      x := FirstBlock(s);
    } else if IsQuote(s[0]) {
      x := FirstString(s);
    } else {
      x := Code([s[0]]);
      assert |s| > 1 ==> s[1..][0] == s[1];
    }
  }

  /** Every text is well labelled in some way, so the labels decide the mask of every text. */
  lemma {:induction false} EveryTextIsLabelled(s: string) returns (xs: seq<Segment>)
    ensures WellLabelled(xs) && Flat(xs) == s
    decreases |s|
  {
    if s == "" {
      xs := [];
    } else {
      var x := FirstSegment(s);
      var rest := EveryTextIsLabelled(s[|Show(x)|..]);
      hide GoodSegment, Show, MayPrecede;
      xs := [x] + rest;
      assert xs[1..] == rest;
      assert s == Show(x) + s[|Show(x)|..];
    }
  }

  /** The opener's own star closes nothing. */
  lemma OpenerStarIsNoCloser(body: string, rest: string)
    requires NoCloser(body)
    ensures Next("/*/" + body + "*/" + rest, Plain) == Lexeme(|body| + 5, true)
  {
    var x := BlockComment("/" + body);
    forall i: nat | i + 1 < |"/" + body| ensures !(("/" + body)[i] == '*' && ("/" + body)[i + 1] == '/') {
      assert i > 0 ==> ("/" + body)[i] == body[i - 1] && ("/" + body)[i + 1] == body[i];
    }
    NonCodeReaches(x, rest);
    assert Show(x) + rest == "/*/" + body + "*/" + rest;
  }
}
