/** Exactly which printed `key = value` lines the parser reads back. */
module TomlItems {
  import opened Text
  import opened Json
  import opened TomlLexer
  import opened TomlParser
  import opened TomlPrinter

  // ---- Lists

  /** A prefix of the printed elements that stops inside one of them, after its opening quote. */
  predicate CutInside(texts: seq<string>, p: string)
    decreases texts
  {
    && texts != []
    && var q := Quote(texts[0]);
       if |p| < |q| then p != "" && p <= q
       else && q + ", " <= p
            && CutInside(texts[1..], p[|q| + 2..])
  }

  lemma ElementsUnfold(texts: seq<string>)
    requires texts != []
    ensures Elements(texts) ==
            if |texts| == 1 then Quote(texts[0]) else Quote(texts[0]) + ", " + Elements(texts[1..])
  {
    assert |QuoteAll(texts)| == |texts| by { QuoteAllLength(texts); }
    assert QuoteAll(texts)[1..] == QuoteAll(texts[1..]);
  }

  lemma {:induction false} QuoteAllLength(texts: seq<string>)
    ensures |QuoteAll(texts)| == |texts|
  {
    if texts != [] {
      QuoteAllLength(texts[1..]);
    }
  }

  lemma SplitListLeadingSpace(s: string)
    ensures SplitList(" " + s) == SplitList(s)
  {
    var t := " " + s;
    assert t[1..] == s;
    assert Toggle(Plain, ' ') == Plain;
    var k := Reach(Plain, s, ',');
    assert Reach(Plain, t, ',') == 1 + k;
    if k < |s| {
      assert t[..k + 1] == " " + s[..k] && t[k + 2..] == s[k + 1..];
      TrimLeadingSpace(Js, s[..k]);
    } else {
      TrimLeadingSpace(Js, s);
    }
  }

  lemma VisiblePrefix(p: string, m: nat)
    requires p != "" && p[0] == '"' && 0 < m <= |p|
    ensures Trim(Js, p[..m]) <= p[..m] && Trim(Js, p[..m]) != "" && Tight(Js, Trim(Js, p[..m]))
    ensures !IsSpace(Js, p[m - 1]) ==> Trim(Js, p[..m]) == p[..m]
  {
    TrimOfVisibleStart(Js, p[..m]);
    TrimIsTight(Js, p[..m]);
  }

  lemma ParseAllCons(first: string, rest: seq<string>)
    ensures ParseAll([first] + rest) ==
            match ParseValue(first)
            case None => None
            case Some(v) => match ParseAll(rest) case None => None case Some(vs) => Some([v] + vs)
  {
    assert ([first] + rest)[1..] == rest;
  }

  /** The first piece of a text that starts like a printed element. */
  lemma FirstPiece(s: string, p: string) returns (u: string, rest: seq<string>)
    requires p != "" && p[0] == '"' && (p <= Quote(s) || Quote(s) <= p)
    requires |p| > |Quote(s)| ==> p[|Quote(s)|] == ','
    ensures SplitList(p) == [u] + rest
    ensures u != "" && Tight(Js, u) && (u <= Quote(s) || Quote(s) <= u)
    ensures u == Quote(s) <==>
            |p| >= |Quote(s)| && Hides(s, ',') && (|p| == |Quote(s)| || After(InDouble, s) == InDouble)
    ensures u == Quote(s) ==> rest == if |p| == |u| then [] else SplitList(p[|u| + 1..])
  {
    var q := Quote(s);
    var m := Reach(Plain, p, ',');
    PieceEnd(s, p);
    QuoteIsTight(s);
    assert p[..|p|] == p;
    VisiblePrefix(p, m);
    hide Quote, Reach, Hides, After, TrimStart, TrimEnd;
    u := Trim(Js, p[..m]);
    rest := if m < |p| then SplitList(p[m + 1..]) else [];
    if m == |q| {
      assert p[..m] == q;
      TightIsFixed(Js, q);
    } else if m > |q| {
      LongerThanQuote(q, p, m);
    }
  }

  /** Where the first element ends for the comma scan. */
  lemma PieceEnd(s: string, p: string)
    requires p != "" && p[0] == '"' && (p <= Quote(s) || Quote(s) <= p)
    requires |p| > |Quote(s)| ==> p[|Quote(s)|] == ','
    ensures var q, m := Quote(s), Reach(Plain, p, ',');
            && 0 < m <= |p|
            && if |p| >= |q| && Hides(s, ',')
               then (if |p| == |q| then m == |q| else if After(InDouble, s) == InDouble then m == |q| else m > |q|)
               else m < |q|
  {
    var q := Quote(s);
    QuoteScan(s, ',');
    QuoteIsTight(s);
    assert Reach(Plain, p, ',') > 0;
    hide Quote, Hides;
    if |q| <= |p| {
      assert p == q + p[|q|..];
      ReachConcat(Plain, q, p[|q|..], ',');
      assert |q| < |p| ==> p[|q|..][0] == ',';
    }
  }

  /** Splitting one printed element off the front, or failing on it. */
  lemma FirstElement(s: string, p: string)
    requires p != "" && p[0] == '"' && (p <= Quote(s) || Quote(s) <= p)
    requires |p| > |Quote(s)| ==> p[|Quote(s)|] == ','
    ensures if p == Quote(s) && Hides(s, ',') then SplitList(p) == [p]
            else if |p| > |Quote(s)| && Hides(s, ',') && After(InDouble, s) == InDouble
            then SplitList(p) == [Quote(s)] + SplitList(p[|Quote(s)| + 1..])
            else ParseAll(SplitList(p)) == None
  {
    hide *;
    var u, rest := FirstPiece(s, p);
    OnlyTheQuoteIsRead(s, u);
    ParseAllCons(u, rest);
  }

  lemma LongerThanQuote(q: string, p: string, m: nat)
    requires q <= p && q != "" && p[0] == '"' && |q| < m <= |p| && p[|q|] == ','
    ensures q <= Trim(Js, p[..m]) && Trim(Js, p[..m]) != q
  {
    TrimOfVisibleStart(Js, p[..m]);
    var u := Trim(Js, p[..m]);
    assert p[..m][|q|] == ',';
    assert |u| > |q|;
  }

  lemma {:induction false} WholeIsNotCut(texts: seq<string>)
    requires texts != []
    ensures !CutInside(texts, Elements(texts))
    decreases texts
  {
    ElementsUnfold(texts);
    if |texts| > 1 {
      var q := Quote(texts[0]);
      assert Elements(texts)[|q| + 2..] == Elements(texts[1..]);
      WholeIsNotCut(texts[1..]);
    }
  }

  /** What the parts of the printed elements, or of a piece cut out of them, read as. */
  function Reading(texts: seq<string>, p: string): Option<seq<Value>> {
    if texts == [] || CutInside(texts, p) || !SplitsWell(texts) then None
    else Some(TextValues(texts))
  }

  lemma ReadingUnfold(texts: seq<string>, p: string, rest: string)
    requires |texts| > 1 && p == Quote(texts[0]) + ", " + rest
    ensures Reading(texts, p) ==
            if !Hides(texts[0], ',') || After(InDouble, texts[0]) != InDouble then None
            else match Reading(texts[1..], rest) case None => None case Some(vs) => Some([Str(texts[0])] + vs)
  {
    assert p[|Quote(texts[0])| + 2..] == rest;
    assert CutInside(texts, p) <==> CutInside(texts[1..], rest);
  }

  /** The first element was split off; the rest decides. */
  lemma AfterFirst(texts: seq<string>, p: string, rest: string)
    requires |texts| > 1 && p == Quote(texts[0]) + ", " + rest
    requires ParseAll(SplitList(rest)) == Reading(texts[1..], rest)
    ensures ParseAll(SplitList(p)) == Reading(texts, p)
  {
    hide *;
    var s := texts[0];
    var q := Quote(s);
    QuoteIsTight(s);
    ReadingUnfold(texts, p, rest);
    var tail := p[|q| + 1..];
    assert tail == " " + rest && p[0] == '"' && q <= p && p[|q|] == ',';
    FirstElement(s, p);
    SplitListLeadingSpace(rest);
    if Hides(s, ',') && After(InDouble, s) == InDouble {
      assert q == SplitList(p)[0];
      ParseAllCons(q, SplitList(rest));
      OnlyTheQuoteIsRead(s, q);
    }
  }

  /** How a prefix of the printed elements can stand to the first element. */
  lemma PrefixCases(texts: seq<string>, p: string)
    requires texts != [] && (p == Elements(texts) || CutInside(texts, p))
    ensures p != "" && p[0] == '"'
    ensures var s, q := texts[0], Quote(texts[0]);
            if |p| < |q| then p <= q && Reading(texts, p) == None
            else if |texts| == 1 then p == q && Reading(texts, p) == (if Hides(s, ',') then Some([Str(s)]) else None)
            else && |p| >= |q| + 2
                 && p == q + ", " + p[|q| + 2..]
                 && (p[|q| + 2..] == Elements(texts[1..]) || CutInside(texts[1..], p[|q| + 2..]))
  {
    ElementsUnfold(texts);
    QuoteIsTight(texts[0]);
    WholeIsNotCut(texts);
    if |texts| == 1 {
      assert texts[1..] == [];
      assert TextValues(texts) == [Str(texts[0])] + TextValues(texts[1..]) == [Str(texts[0])];
    }
  }

  /** A printed list splits back into its elements exactly when it splits well; cut inside an
      element it never does. */
  lemma {:induction false} ElementsRead(texts: seq<string>, p: string)
    requires texts != [] && (p == Elements(texts) || CutInside(texts, p))
    ensures ParseAll(SplitList(p)) == Reading(texts, p)
    decreases texts
  {
    hide *;
    var s := texts[0];
    var q := Quote(s);
    PrefixCases(texts, p);
    if |p| < |q| {
      FirstElement(s, p);
    } else if |texts| == 1 {
      FirstElement(s, p);
      if Hides(s, ',') {
        SingleElement(s);
      }
    } else {
      var rest := p[|q| + 2..];
      ElementsRead(texts[1..], rest);
      AfterFirst(texts, p, rest);
    }
  }

  lemma SingleElement(s: string)
    ensures ParseAll([Quote(s)]) == Some([Str(s)])
  {
    QuoteIsTight(s);
    OnlyTheQuoteIsRead(s, Quote(s));
    ParseAllCons(Quote(s), []);
    assert [Quote(s)] + [] == [Quote(s)];
    assert [Str(s)] + [] == [Str(s)];
  }

  // ---- A comment mark inside a printed list

  lemma {:induction false} MarkCutsInside(texts: seq<string>, j: nat)
    requires j < |Elements(texts)| && Elements(texts)[j] == '#'
    ensures CutInside(texts, Elements(texts)[..j])
    decreases texts
  {
    if texts == [] {
      NoElements();
    } else {
      QuoteIsTight(texts[0]);
      ElementsUnfold(texts);
      hide *;
      var n := |Quote(texts[0])|;
      if j < n {
        CutShort(texts, j);
      } else {
        MarkBeyond(Quote(texts[0]), Elements(texts[1..]), j);
        MarkCutsInside(texts[1..], j - n - 2);
        CutFurther(texts, j);
      }
    }
  }

  lemma NoElements()
    ensures Elements([]) == ""
  {
  }

  lemma MarkBeyond(q: string, rest: string, j: nat)
    requires |q| <= j < |q + ", " + rest| && (q + ", " + rest)[j] == '#'
    ensures j >= |q| + 2 && rest[j - |q| - 2] == '#'
  {
  }

  lemma CutShort(texts: seq<string>, j: nat)
    requires texts != [] && j < |Quote(texts[0])| && j < |Elements(texts)| && Elements(texts)[j] == '#'
    ensures CutInside(texts, Elements(texts)[..j])
  {
    hide Elements, Quote;
    ElementsUnfold(texts);
    QuoteIsTight(texts[0]);
    var q := Quote(texts[0]);
    assert q <= Elements(texts);
    assert Elements(texts)[0] == q[0] == '"';
    assert Elements(texts)[..j] == q[..j];
  }

  lemma CutFurther(texts: seq<string>, j: nat)
    requires |texts| > 1 && |Quote(texts[0])| + 2 <= j <= |Elements(texts)|
    requires j - |Quote(texts[0])| - 2 <= |Elements(texts[1..])|
    requires CutInside(texts[1..], Elements(texts[1..])[..j - |Quote(texts[0])| - 2])
    ensures CutInside(texts, Elements(texts)[..j])
  {
    ElementsUnfold(texts);
    hide Elements, Quote;
    TakeBeyond(Quote(texts[0]), Elements(texts[1..]), j);
  }

  lemma TakeBeyond(q: string, rest: string, j: nat)
    requires |q| + 2 <= j <= |q| + 2 + |rest|
    ensures q + ", " <= (q + ", " + rest)[..j]
    ensures (q + ", " + rest)[..j][|q| + 2..] == rest[..j - |q| - 2]
  {
  }

  /** Dropping characters that are no quotes from its end keeps a text cut inside an element. */
  lemma {:induction false} ShrinkCut(texts: seq<string>, p: string, shorter: string)
    requires CutInside(texts, p) && shorter <= p
    requires forall i :: |shorter| <= i < |p| ==> p[i] != '"'
    ensures CutInside(texts, shorter)
    decreases texts
  {
    var q := Quote(texts[0]);
    if |p| < |q| {
      assert p[0] == '"';
    } else {
      var rest := p[|q| + 2..];
      CutStartsWithQuote(texts[1..], rest);
      assert p[|q| + 2] == '"';
      ShrinkCut(texts[1..], rest, shorter[|q| + 2..]);
    }
  }

  lemma CutStartsWithQuote(texts: seq<string>, p: string)
    requires CutInside(texts, p)
    ensures p != "" && p[0] == '"'
  {
  }

  lemma {:induction false} ElementsHideMarks(texts: seq<string>)
    requires SplitsWell(texts)
    ensures Reach(Plain, Elements(texts), '#') == |Elements(texts)| <==>
            forall i :: 0 <= i < |texts| ==> Hides(texts[i], '#')
    decreases texts
  {
    if texts != [] {
      var q, rest := Quote(texts[0]), texts[1..];
      ElementsUnfold(texts);
      QuoteScan(texts[0], '#');
      assert (forall i :: 0 <= i < |texts| ==> Hides(texts[i], '#')) <==>
             Hides(texts[0], '#') && forall i :: 0 <= i < |rest| ==> Hides(rest[i], '#') by {
        forall i | 0 <= i < |rest| ensures rest[i] == texts[i + 1] {}
      }
      if |texts| > 1 {
        ElementsHideMarks(rest);
        PlainText(Plain, ", ", '#');
        ReachConcat(Plain, q + ", ", Elements(rest), '#');
        ReachConcat(Plain, q, ", ", '#');
        AfterConcat(Plain, q, ", ");
      } else {
        assert rest == [];
      }
    }
  }

  // ---- Values that start with a bracket

  lemma FractionStartsWithDigit(s: string)
    requires IsFraction(s)
    ensures s != "" && '0' <= s[0] <= '9'
  {
    SplitParts(s, '.');
    var parts := SplitOn(s, '.');
    assert Join(parts, ".") == parts[0] + "." + Join(parts[1..], ".");
  }

  function ReadParts(inner: string): Option<Value> {
    if inner == "" then Some(List([]))
    else match ParseAll(SplitList(inner)) case None => None case Some(vs) => Some(List(vs))
  }

  lemma BracketFacts(v: string)
    requires Tight(Js, v) && v != "" && v[0] == '['
    ensures Trim(Js, v) == v
    ensures !StartsWith(v, "\"\"\"") && !StartsWith(v, "'''") && !StartsWith(v, "\"") && !StartsWith(v, "'")
    ensures v != "true" && v != "false" && StartsWith(v, "[")
    ensures !AllDigits(Unsigned(v)) && !IsFraction(Unsigned(v))
    ensures EndsWith(v, "]") <==> v[|v| - 1] == ']'
    ensures v[|v| - 1] == ']' ==> |v| >= 2
  {
    TightIsFixed(Js, v);
    assert Unsigned(v) == v;
    if IsFraction(v) {
      FractionStartsWithDigit(v);
    }
  }

  lemma BracketValue(v: string)
    requires Tight(Js, v) && v != "" && v[0] == '['
    ensures v[|v| - 1] == ']' ==> |v| >= 2
    ensures ParseValue(v) == if v[|v| - 1] == ']' then ReadParts(Trim(Js, v[1..|v| - 1])) else None
  {
    hide AllDigits, IsFraction, Unsigned, StartsWith, EndsWith, Trim, SplitList, ParseAll, Json.Decode;
    BracketFacts(v);
  }

  /** The printed list, cut at a comment mark if the scan finds one, and trimmed. */
  lemma ListReads(texts: seq<string>, k: nat)
    requires k == Reach(Plain, RenderItem(Texts(texts)), '#')
    ensures k > 0
    ensures ParseValue(Trim(Js, RenderItem(Texts(texts))[..k])) ==
            if Survives(Texts(texts)) then Some(List(TextValues(texts))) else None
  {
    var e := Elements(texts);
    var r := RenderItem(Texts(texts));
    assert r == "[" + e + "]";
    ReachConcat(Plain, "[" + e, "]", '#');
    ReachConcat(Plain, "[", e, '#');
    AfterConcat(Plain, "[", e);
    PlainText(Plain, "[", '#');
    PlainText(After(Plain, e), "]", '#');
    if SplitsWell(texts) {
      ElementsHideMarks(texts);
    }
    if k == |r| {
      WholeListReads(texts);
    } else {
      CutListFails(texts, k);
    }
  }

  lemma WholeListReads(texts: seq<string>)
    ensures var r := RenderItem(Texts(texts));
            ParseValue(Trim(Js, r[..|r|])) == if SplitsWell(texts) then Some(List(TextValues(texts))) else None
  {
    hide ParseValue, ParseAll, SplitList, SplitsWell, TextValues, Elements, TrimStart, TrimEnd, CutInside;
    var e := Elements(texts);
    var r := "[" + e + "]";
    assert r[..|r|] == r && r[1..|r| - 1] == e;
    TightIsFixed(Js, r);
    BracketValue(r);
    PartsOfWhole(texts);
  }

  lemma PartsOfWhole(texts: seq<string>)
    ensures ReadParts(Trim(Js, Elements(texts))) == if SplitsWell(texts) then Some(List(TextValues(texts))) else None
  {
    var e := Elements(texts);
    if texts == [] {
      assert e == "";
    } else {
      hide Elements, ParseAll, SplitList, SplitsWell, TextValues, CutInside;
      PrefixCases(texts, e);
      WholeIsNotCut(texts);
      ElementsEndWithQuote(texts);
      TightIsFixed(Js, e);
      ElementsRead(texts, e);
    }
  }

  lemma {:induction false} ElementsEndWithQuote(texts: seq<string>)
    requires texts != []
    ensures Elements(texts) != "" && Elements(texts)[|Elements(texts)| - 1] == '"'
    decreases texts
  {
    ElementsUnfold(texts);
    if |texts| > 1 {
      ElementsEndWithQuote(texts[1..]);
    }
  }

  lemma CutListFails(texts: seq<string>, k: nat)
    requires 0 < k <= |Elements(texts)| && Elements(texts)[k - 1] == '#'
    ensures ParseValue(Trim(Js, RenderItem(Texts(texts))[..k])) == None
  {
    hide CutInside, Elements, ParseValue, ReadParts, TrimStart, TrimEnd;
    var e := Elements(texts);
    var cut := e[..k - 1];
    assert RenderItem(Texts(texts))[..k] == "[" + cut;
    MarkCutsInside(texts, k - 1);
    var w := Trim(Js, "[" + cut);
    TrimOfVisibleStart(Js, "[" + cut);
    TrimIsTight(Js, "[" + cut);
    BracketValue(w);
    if w[|w| - 1] == ']' {
      var p := w[1..|w| - 1];
      assert cut == ("[" + cut)[1..];
      assert p <= cut;
      forall i | |p| <= i < |cut| ensures cut[i] != '"' {
        assert cut[i] == ("[" + cut)[i + 1];
      }
      ShrunkListFails(texts, cut, p);
    }
  }

  lemma ShrunkListFails(texts: seq<string>, cut: string, p: string)
    requires CutInside(texts, cut) && p <= cut && forall i :: |p| <= i < |cut| ==> cut[i] != '"'
    ensures ReadParts(Trim(Js, p)) == None
  {
    ShrinkCut(texts, cut, p);
    CutStartsWithQuote(texts, p);
    TrimOfVisibleStart(Js, p);
    ShrinkCut(texts, p, Trim(Js, p));
    ElementsRead(texts, Trim(Js, p));
  }

  // ---- Strings, numbers and flags

  lemma TextReads(s: string, k: nat)
    requires k == Reach(Plain, Quote(s), '#')
    ensures k > 0
    ensures ParseValue(Trim(Js, Quote(s)[..k])) == if Hides(s, '#') then Some(Str(s)) else None
  {
    var q := Quote(s);
    QuoteScan(s, '#');
    QuoteIsTight(s);
    assert q[..|q|] == q;
    VisiblePrefix(q, k);
    OnlyTheQuoteIsRead(s, Trim(Js, q[..k]));
  }

  lemma CountFacts(d: string)
    requires AllDigits(d)
    ensures Trim(Js, d) == d && Tight(Js, d) && Reach(Plain, d, '#') == |d|
    ensures !StartsWith(d, "\"\"\"") && !StartsWith(d, "'''") && !StartsWith(d, "\"") && !StartsWith(d, "'")
    ensures d != "true" && d != "false" && Unsigned(d) == d && Signed(d, DigitsValue(d) as real) == DigitsValue(d) as real
  {
    assert forall i :: 0 <= i < |d| ==> '0' <= d[i] <= '9';
    PlainText(Plain, d, '#');
    TightIsFixed(Js, d);
  }

  lemma CountReads(n: nat)
    ensures var d := Decimal(n);
            d != "" && Reach(Plain, d, '#') == |d| && Tight(Js, d) && ParseValue(d) == Some(Num(n as real))
  {
    hide IsFraction, Unsigned, StartsWith, EndsWith, Trim, SplitList, ParseAll, Json.Decode, DigitsValue, Decimal, Tight, Reach, Signed;
    DecimalReads(n);
    CountFacts(Decimal(n));
  }

  /** What the parser finds after the equals sign of a printed entry. */
  lemma ItemReads(item: Item) returns (w: string)
    ensures var r := RenderItem(item);
            r != "" && !IsSpace(Js, r[0]) && Reach(Plain, r, '#') > 0 && w == Trim(Js, r[..Reach(Plain, r, '#')])
    ensures ParseValue(w) == if Survives(item) then Some(ItemValue(item)) else None
  {
    var r := RenderItem(item);
    var k := Reach(Plain, r, '#');
    w := Trim(Js, r[..k]);
    match item {
      case Text(s) =>
        QuoteIsTight(s);
        TextReads(s, k);
      case Texts(xs) =>
        ListReads(xs, k);
      case Count(n) =>
        CountReads(n);
        assert r[..k] == r;
        TightIsFixed(Js, r);
      case Flag(b) =>
        PlainText(Plain, r, '#');
        assert r[..k] == r;
        TightIsFixed(Js, r);
    }
  }

  // ---- The whole line

  lemma {:induction false} TrimEndConcat(a: string, b: string)
    requires b != "" && !IsSpace(Js, b[0])
    ensures TrimEnd(Js, a + b) == a + TrimEnd(Js, b)
    decreases b
  {
    if IsSpace(Js, b[|b| - 1]) {
      assert (a + b)[..|a + b| - 1] == a + b[..|b| - 1];
      TrimEndConcat(a, b[..|b| - 1]);
    }
  }

  lemma BareKeyText(key: string)
    requires BareKey(key)
    ensures '"' !in key && '\'' !in key && '#' !in key && '=' !in key && '.' !in key
    ensures Tight(Js, key) && key[0] != '['
  {
    forall c | c in key ensures BareChar(c) {
      var i :| 0 <= i < |key| && key[i] == c;
    }
    assert BareChar(key[0]) && BareChar(key[|key| - 1]);
  }

  /** A printed entry is classified as its key and the item's surviving text. */
  lemma EntryLine(key: string, item: Item) returns (raw: string)
    requires BareKey(key)
    ensures Classify(RenderEntry(key, item)) == Pair(key, raw)
    ensures ParseValue(raw) == if Survives(item) then Some(ItemValue(item)) else None
  {
    hide *;
    raw := ItemReads(item);
    EntryCleaned(key, item, raw);
    var r := RenderItem(item);
    TrimOfVisibleStart(Js, r[..Reach(Plain, r, '#')]);
    TrimIsTight(Js, r[..Reach(Plain, r, '#')]);
    KeyAndValue(key, raw);
    PairLine(RenderEntry(key, item), key, raw);
  }

  lemma PairLine(line: string, key: string, raw: string)
    requires BareKey(key) && raw != "" && Tight(Js, raw)
    requires Trim(Js, Uncommented(line)) == key + " = " + raw
    requires EqualsIndex(key + " = " + raw) == |key| + 1
    requires Trim(Js, (key + " = " + raw)[..|key| + 1]) == key
    requires Trim(Js, (key + " = " + raw)[|key| + 2..]) == raw
    ensures Classify(line) == Pair(key, raw)
  {
    hide Reach, TrimStart, TrimEnd;
    BareKeyText(key);
  }

  lemma EntryCleaned(key: string, item: Item, raw: string)
    requires BareKey(key)
    requires var r := RenderItem(item);
             r != "" && !IsSpace(Js, r[0]) && Reach(Plain, r, '#') > 0 && raw == Trim(Js, r[..Reach(Plain, r, '#')])
    ensures Trim(Js, Uncommented(RenderEntry(key, item))) == key + " = " + raw
  {
    hide RenderItem;
    var r := RenderItem(item);
    var k := Reach(Plain, r, '#');
    var pre := key + " = ";
    var line := RenderEntry(key, item);
    assert line == pre + r;
    BareKeyText(key);
    assert '"' !in pre && '\'' !in pre && '#' !in pre;
    PlainText(Plain, pre, '#');
    ReachConcat(Plain, pre, r, '#');
    assert line[..|pre| + k] == pre + r[..k];
    TrimOfVisibleStart(Js, r[..k]);
    TrimEndConcat(pre, r[..k]);
    TightIsFixed(Js, pre + raw);
  }

  lemma KeyAndValue(key: string, raw: string)
    requires BareKey(key) && raw != "" && Tight(Js, raw)
    ensures EqualsIndex(key + " = " + raw) == |key| + 1
    ensures Trim(Js, (key + " = " + raw)[..|key| + 1]) == key
    ensures Trim(Js, (key + " = " + raw)[|key| + 2..]) == raw
  {
    var line := key + " = " + raw;
    BareKeyText(key);
    var left := key + " ";
    assert line == left + ("= " + raw);
    assert '"' !in left && '\'' !in left && '=' !in left;
    PlainText(Plain, left, '=');
    ReachConcat(Plain, left, "= " + raw, '=');
    assert line[..|key| + 1] == left;
    TrimTrailingSpace(Js, key);
    assert line[|key| + 2..] == " " + raw;
    TrimLeadingSpace(Js, raw);
    TightIsFixed(Js, raw);
  }
}
