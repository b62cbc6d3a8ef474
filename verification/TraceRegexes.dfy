/** Labelled texts for the speculative pass: regular expressions are spelt out piece by piece, and a slash
    by itself is one that no regular expression on its line can begin with. The pass masks exactly what the
    labels say, and every text can be labelled. */
module TraceRegexes {
  import opened Text
  import opened TraceMask
  import opened TraceOracle

  /** A step of a regular expression: a character, an escape, or a class in which a slash closes nothing. */
  datatype Piece = Single(c: char) | Escaped(c: char) | Class(body: seq<Unit>)

  datatype Labelled =
    | Known(x: Segment)
    | Regex(pieces: seq<Piece>, flags: string)
    | Slash

  function ShowPiece(p: Piece): string {
    match p case Single(c) => [c] case Escaped(c) => ['\\', c] case Class(body) => "[" + ShowUnits(body) + "]"
  }

  function ShowPieces(ps: seq<Piece>): string {
    if ps == [] then "" else ShowPiece(ps[0]) + ShowPieces(ps[1..])
  }

  function Shown(x: Labelled): string {
    match x case Known(s) => Show(s) case Regex(ps, flags) => "/" + ShowPieces(ps) + "/" + flags case Slash => "/"
  }

  function Whole(xs: seq<Labelled>): string {
    if xs == [] then "" else Shown(xs[0]) + Whole(xs[1..])
  }

  predicate IsCode(x: Labelled) { x.Slash? || (x.Known? && x.x.Code?) }

  /** The mask read off the labels. */
  function Marks(xs: seq<Labelled>): seq<bool> {
    if xs == [] then [] else Label(Shown(xs[0]), !IsCode(xs[0])) + Marks(xs[1..])
  }

  // ---- Well-formed labellings

  predicate GoodClass(body: seq<Unit>) {
    forall i :: 0 <= i < |body| ==> body[i].c != '\n' && (body[i].Char? ==> body[i].c != ']' && body[i].c != '\\')
  }

  predicate GoodPiece(p: Piece) {
    match p
    case Single(c) => c !in {'/', '[', '\\', '\n'}
    case Escaped(c) => c != '\n'
    case Class(body) => GoodClass(body)
  }

  /** Pieces of one line; no comment opens with them. */
  predicate GoodPieces(ps: seq<Piece>) {
    ps != [] && ps[0] != Single('*') && forall i :: 0 <= i < |ps| ==> GoodPiece(ps[i])
  }

  /** Some regular expression begins with a slash before this text. */
  ghost predicate Literal(rest: string) {
    exists ps :: GoodPieces(ps) && ShowPieces(ps) + "/" <= rest
  }

  predicate GoodLabel(x: Labelled, letters: Letters) {
    match x
    case Known(s) => GoodSegment(s) && (s.Code? ==> '/' !in s.text)
    case Regex(ps, flags) => GoodPieces(ps) && forall i :: 0 <= i < |flags| ==> flags[i] in letters
    case Slash => true
  }

  ghost predicate MayStandBefore(x: Labelled, rest: string, letters: Letters) {
    match x
    case Known(s) => MayPrecede(s, rest)
    case Regex(_, _) => rest == "" || rest[0] !in letters
    case Slash => (rest == "" || rest[0] !in {'/', '*'}) && !Literal(rest)
  }

  ghost predicate WellMarked(xs: seq<Labelled>, letters: Letters) {
    xs == [] || (GoodLabel(xs[0], letters) && MayStandBefore(xs[0], Whole(xs[1..]), letters) && WellMarked(xs[1..], letters))
  }

  // ---- A spelt-out regular expression reaches to its end

  lemma {:induction false} ClassReaches(body: seq<Unit>, rest: string, letters: Letters)
    requires GoodClass(body)
    ensures RegexLength(ShowUnits(body) + "]" + rest, true, letters) ==
            Further(|ShowUnits(body)| + 1, RegexLength(rest, false, letters))
    decreases body
  {
    hide RegexLength;
    var all := ShowUnits(body) + "]" + rest;
    if body == [] {
      assert all == "]" + rest;
      ClassCloses(rest, letters);
    } else {
      var tail := ShowUnits(body[1..]) + "]" + rest;
      ClassReaches(body[1..], rest, letters);
      assert all == ShowUnit(body[0]) + tail;
      UnitReaches(body[0], tail, letters);
    }
  }

  lemma ClassCloses(rest: string, letters: Letters)
    ensures RegexLength("]" + rest, true, letters) == Further(1, RegexLength(rest, false, letters))
  {
    assert ("]" + rest)[1..] == rest;
  }

  lemma UnitReaches(u: Unit, tail: string, letters: Letters)
    requires GoodClass([u])
    ensures RegexLength(ShowUnit(u) + tail, true, letters) == Further(|ShowUnit(u)|, RegexLength(tail, true, letters))
  {
    var all := ShowUnit(u) + tail;
    assert [u][0] == u;
    match u
    case Char(c) =>
      assert all[0] == c && all[1..] == tail;
    case Escape(c) =>
      assert all[0] == '\\' && all[1] == c && all[2..] == tail;
  }

  lemma PieceReaches(p: Piece, rest: string, letters: Letters)
    requires GoodPiece(p)
    ensures RegexLength(ShowPiece(p) + rest, false, letters) == Further(|ShowPiece(p)|, RegexLength(rest, false, letters))
  {
    hide RegexLength, GoodClass;
    match p
    case Single(c) =>
      SingleReaches(c, rest, letters);
    case Escaped(c) =>
      EscapedReaches(c, rest, letters);
    case Class(body) =>
      assert "[" + ShowUnits(body) + "]" + rest == "[" + (ShowUnits(body) + "]" + rest);
      ClassOpens(ShowUnits(body) + "]" + rest, letters);
      ClassReaches(body, rest, letters);
  }

  lemma SingleReaches(c: char, rest: string, letters: Letters)
    requires GoodPiece(Single(c))
    ensures RegexLength([c] + rest, false, letters) == Further(1, RegexLength(rest, false, letters))
  {
    assert ([c] + rest)[1..] == rest;
  }

  lemma EscapedReaches(c: char, rest: string, letters: Letters)
    requires c != '\n'
    ensures RegexLength(['\\', c] + rest, false, letters) == Further(2, RegexLength(rest, false, letters))
  {
    assert (['\\', c] + rest)[2..] == rest;
  }

  lemma ClassOpens(rest: string, letters: Letters)
    ensures RegexLength("[" + rest, false, letters) == Further(1, RegexLength(rest, true, letters))
  {
    assert ("[" + rest)[1..] == rest;
  }

  lemma {:induction false} PiecesReach(ps: seq<Piece>, rest: string, letters: Letters)
    requires forall i :: 0 <= i < |ps| ==> GoodPiece(ps[i])
    ensures RegexLength(ShowPieces(ps) + rest, false, letters) == Further(|ShowPieces(ps)|, RegexLength(rest, false, letters))
    decreases ps
  {
    hide RegexLength, ShowPiece, GoodPiece;
    if ps == [] {
      assert ShowPieces(ps) + rest == rest;
      assert Further(0, RegexLength(rest, false, letters)) == RegexLength(rest, false, letters);
    } else {
      var tail := ShowPieces(ps[1..]) + rest;
      PiecesReach(ps[1..], rest, letters);
      assert ShowPieces(ps) + rest == ShowPiece(ps[0]) + tail;
      assert GoodPiece(ps[0]);
      PieceReaches(ps[0], tail, letters);
    }
  }

  lemma {:induction false} FlagsReach(flags: string, rest: string, letters: Letters)
    requires (forall i :: 0 <= i < |flags| ==> flags[i] in letters) && (rest == "" || rest[0] !in letters)
    ensures FlagsLength(flags + rest, letters) == |flags|
    decreases flags
  {
    if flags == "" {
      assert flags + rest == rest;
    } else {
      assert (flags + rest)[1..] == flags[1..] + rest;
      FlagsReach(flags[1..], rest, letters);
    }
  }

  lemma ClosingSlash(rest: string, letters: Letters)
    ensures RegexLength("/" + rest, false, letters) == Some(1 + FlagsLength(rest, letters))
  {
    assert ("/" + rest)[1..] == rest;
  }

  lemma RegexReaches(ps: seq<Piece>, flags: string, rest: string, letters: Letters)
    requires GoodPieces(ps) && (forall i :: 0 <= i < |flags| ==> flags[i] in letters) && (rest == "" || rest[0] !in letters)
    ensures RegexLength(ShowPieces(ps) + ("/" + flags + rest), false, letters) == Some(|ShowPieces(ps)| + 1 + |flags|)
  {
    hide RegexLength, FlagsLength, ShowPieces;
    PiecesReach(ps, "/" + (flags + rest), letters);
    assert "/" + flags + rest == "/" + (flags + rest);
    ClosingSlash(flags + rest, letters);
    FlagsReach(flags, rest, letters);
  }

  lemma FirstShown(ps: seq<Piece>, rest: string)
    requires GoodPieces(ps)
    ensures ShowPieces(ps) != "" && ShowPieces(ps)[0] !in {'/', '*'}
    ensures (ShowPieces(ps) + rest)[0] == ShowPieces(ps)[0]
  {
    assert GoodPiece(ps[0]);
    assert ShowPieces(ps)[0] == ShowPiece(ps[0])[0];
  }

  // ---- And whatever reaches an end is spelt out so

  lemma EscapeStep(s: string, inClass: bool, letters: Letters)
    requires RegexLength(s, inClass, letters).Some? && s[0] == '\\'
    ensures |s| >= 2 && s[1] != '\n' && s == ['\\', s[1]] + s[2..]
    ensures RegexLength(s, inClass, letters) == Further(2, RegexLength(s[2..], inClass, letters))
    ensures RegexLength(s[2..], inClass, letters).Some?
  {
  }

  lemma CharStep(s: string, inClass: bool, letters: Letters)
    requires RegexLength(s, inClass, letters).Some? && s[0] != '\\' && (s[0] == '/' ==> inClass)
    ensures s[0] != '\n' && s == [s[0]] + s[1..]
    ensures RegexLength(s, inClass, letters) == Further(1, RegexLength(s[1..], if inClass then s[0] != ']' else s[0] == '[', letters))
    ensures RegexLength(s[1..], if inClass then s[0] != ']' else s[0] == '[', letters).Some?
  {
  }

  lemma {:induction false} ClassSpelt(s: string, letters: Letters) returns (body: seq<Unit>, rest: string)
    requires RegexLength(s, true, letters).Some?
    ensures GoodClass(body) && s == ShowUnits(body) + ("]" + rest) && RegexLength(rest, false, letters).Some?
    ensures RegexLength(s, true, letters) == Further(|ShowUnits(body)| + 1, RegexLength(rest, false, letters))
    decreases |s|
  {
    hide RegexLength;
    if s[0] == '\\' {
      EscapeStep(s, true, letters);
      body, rest := ClassSpelt(s[2..], letters);
      body := UnitFirst(Escape(s[1]), body, s[2..], "]" + rest);
    } else {
      CharStep(s, true, letters);
      if s[0] == ']' {
        body, rest := [], s[1..];
        assert ShowUnits(body) + ("]" + rest) == "]" + rest;
      } else {
        body, rest := ClassSpelt(s[1..], letters);
        body := UnitFirst(Char(s[0]), body, s[1..], "]" + rest);
      }
    }
  }

  lemma UnitFirst(u: Unit, rest: seq<Unit>, tail: string, end: string) returns (body: seq<Unit>)
    requires GoodClass(rest) && GoodClass([u]) && tail == ShowUnits(rest) + end
    ensures GoodClass(body) && ShowUnit(u) + tail == ShowUnits(body) + end && |ShowUnits(body)| == |ShowUnit(u)| + |ShowUnits(rest)|
  {
    body := UnitBefore(u, rest);
    hide ShowUnits, ShowUnit, GoodClass;
    assert ShowUnit(u) + (ShowUnits(rest) + end) == ShowUnit(u) + ShowUnits(rest) + end;
  }

  lemma UnitBefore(u: Unit, rest: seq<Unit>) returns (body: seq<Unit>)
    requires GoodClass(rest) && GoodClass([u])
    ensures body == [u] + rest && GoodClass(body) && ShowUnits(body) == ShowUnit(u) + ShowUnits(rest)
  {
    body := [u] + rest;
    assert body[1..] == rest;
    assert [u][0] == u;
    assert forall i :: 1 <= i < |body| ==> body[i] == rest[i - 1];
  }

  lemma PieceBefore(p: Piece, rest: seq<Piece>) returns (ps: seq<Piece>)
    requires GoodPiece(p) && forall i :: 0 <= i < |rest| ==> GoodPiece(rest[i])
    ensures ps == [p] + rest && (forall i :: 0 <= i < |ps| ==> GoodPiece(ps[i])) && ShowPieces(ps) == ShowPiece(p) + ShowPieces(rest)
  {
    hide GoodPiece, ShowPiece;
    ps := [p] + rest;
    assert ps[1..] == rest;
    assert forall i :: 1 <= i < |ps| ==> ps[i] == rest[i - 1];
  }

  /** The pieces up to the closing slash, and the rest. */
  lemma {:induction false} PiecesSpelt(s: string, letters: Letters) returns (ps: seq<Piece>, rest: string)
    requires RegexLength(s, false, letters).Some?
    ensures (forall i :: 0 <= i < |ps| ==> GoodPiece(ps[i])) && s == ShowPieces(ps) + ("/" + rest)
    ensures RegexLength(s, false, letters) == Some(|ShowPieces(ps)| + 1 + FlagsLength(rest, letters))
    decreases |s|
  {
    hide RegexLength, ShowPiece, FlagsLength, GoodPiece;
    if s[0] == '/' {
      ps, rest := [], s[1..];
      assert s == "/" + rest;
      ClosingSlash(rest, letters);
      assert ShowPieces(ps) + ("/" + rest) == "/" + rest;
    } else {
      var p, tail := FirstPiece(s, letters);
      var more;
      more, rest := PiecesSpelt(tail, letters);
      ps := PieceBefore(p, more);
      assert ShowPiece(p) + (ShowPieces(more) + ("/" + rest)) == ShowPiece(p) + ShowPieces(more) + ("/" + rest);
    }
  }

  lemma FirstPiece(s: string, letters: Letters) returns (p: Piece, tail: string)
    requires RegexLength(s, false, letters).Some? && s[0] != '/'
    ensures GoodPiece(p) && ShowPiece(p) != "" && s == ShowPiece(p) + tail && RegexLength(tail, false, letters).Some?
    ensures RegexLength(s, false, letters) == Further(|ShowPiece(p)|, RegexLength(tail, false, letters))
  {
    hide RegexLength, ShowUnits, GoodClass;
    if s[0] == '\\' {
      EscapeStep(s, false, letters);
      p, tail := Escaped(s[1]), s[2..];
    } else {
      CharStep(s, false, letters);
      if s[0] == '[' {
        var body, rest := ClassSpelt(s[1..], letters);
        p, tail := Class(body), rest;
        assert "[" + (ShowUnits(body) + ("]" + rest)) == "[" + ShowUnits(body) + "]" + rest;
      } else {
        p, tail := Single(s[0]), s[1..];
      }
    }
  }

  /** A literal begins exactly where the scanner finds its end, comments aside. */
  lemma LiteralMeans(rest: string, letters: Letters)
    requires rest == "" || rest[0] !in {'/', '*'}
    ensures Literal(rest) <==> RegexLength(rest, false, letters).Some?
  {
    hide RegexLength, GoodPiece, ShowPiece;
    if ps :| GoodPieces(ps) && ShowPieces(ps) + "/" <= rest {
      var tail := rest[|ShowPieces(ps)| + 1..];
      assert rest == ShowPieces(ps) + ("/" + tail);
      PiecesReach(ps, "/" + tail, letters);
      ClosingSlash(tail, letters);
    }
    if RegexLength(rest, false, letters).Some? {
      var ps, tail := PiecesSpelt(rest, letters);
      assert ShowPieces(ps) + "/" <= rest;
      SpeltIsGood(ps, "/" + tail, rest);
    }
  }

  lemma SpeltIsGood(ps: seq<Piece>, tail: string, rest: string)
    requires rest == ShowPieces(ps) + tail && tail != "" && tail[0] == '/' && rest[0] !in {'/', '*'}
    requires forall i :: 0 <= i < |ps| ==> GoodPiece(ps[i])
    ensures GoodPieces(ps)
  {
    NonEmptySpelling(ps, tail);
    if ps != [] {
      assert rest[0] == ShowPieces(ps)[0] == ShowPiece(ps[0])[0];
    }
  }

  lemma NonEmptySpelling(ps: seq<Piece>, tail: string)
    requires tail != "" && (ShowPieces(ps) + tail)[0] != tail[0]
    ensures ps != []
  {
  }

  // ---- The speculative pass on each label

  lemma SameNext(s: string, letters: Letters)
    requires s != "" && (s[0] != '/' || "//" <= s || "/*" <= s)
    ensures Next(s, Speculative(letters)) == Next(s, Plain)
  {
  }

  lemma KnownIsNext(x: Segment, rest: string, letters: Letters)
    requires !x.Code? && GoodSegment(x) && MayPrecede(x, rest)
    ensures Show(x) != "" && Next(Show(x) + rest, Speculative(letters)) == Lexeme(|Show(x)|, true)
  {
    NonCodeReaches(x, rest);
    KnownOpens(x, rest);
    hide Next, Show;
    SameNext(Show(x) + rest, letters);
  }

  lemma KnownOpens(x: Segment, rest: string)
    requires !x.Code? && GoodSegment(x)
    ensures var s := Show(x) + rest; s != "" && (s[0] != '/' || "//" <= s || "/*" <= s)
  {
    var s := Show(x) + rest;
    match x
    case LineComment(_) => assert s[0] == '/' && s[1] == '/';
    case BlockComment(_) => assert s[0] == '/' && s[1] == '*';
    case OpenBlock(_) => assert s[0] == '/' && s[1] == '*';
    case _ =>
  }

  lemma RegexIsNext(ps: seq<Piece>, flags: string, rest: string, letters: Letters)
    requires GoodLabel(Regex(ps, flags), letters) && MayStandBefore(Regex(ps, flags), rest, letters)
    ensures Next(Shown(Regex(ps, flags)) + rest, Speculative(letters)) == Lexeme(|Shown(Regex(ps, flags))|, true)
  {
    hide *;
    RegexFacts(ps, flags, rest, letters);
    var shown := ShowPieces(ps);
    var body := shown + ("/" + flags + rest);
    FirstShown(ps, "/" + flags + rest);
    RegexReaches(ps, flags, rest, letters);
    LiteralNext(body, letters);
    assert "/" + shown + "/" + flags + rest == "/" + body;
  }

  lemma RegexFacts(ps: seq<Piece>, flags: string, rest: string, letters: Letters)
    requires GoodLabel(Regex(ps, flags), letters) && MayStandBefore(Regex(ps, flags), rest, letters)
    ensures GoodPieces(ps) && (forall i :: 0 <= i < |flags| ==> flags[i] in letters) && (rest == "" || rest[0] !in letters)
    ensures Shown(Regex(ps, flags)) == "/" + ShowPieces(ps) + "/" + flags
  {
    hide GoodPieces, ShowPieces, Literal;
  }

  lemma LiteralNext(rest: string, letters: Letters)
    requires rest != "" && rest[0] !in {'/', '*'} && RegexLength(rest, false, letters).Some?
    ensures Next("/" + rest, Speculative(letters)) == Lexeme(1 + RegexLength(rest, false, letters).value, true)
  {
    hide RegexLength;
    var s := "/" + rest;
    assert s[0] == '/' && s[1] == rest[0] && s[1..] == rest;
  }

  lemma SlashIsNext(rest: string, letters: Letters)
    requires MayStandBefore(Slash, rest, letters)
    ensures Next("/" + rest, Speculative(letters)) == Lexeme(1, false)
  {
    LiteralMeans(rest, letters);
    hide RegexLength, Literal;
    var s := "/" + rest;
    assert s[0] == '/' && s[1..] == rest && (rest != "" ==> s[1] == rest[0]);
  }

  lemma CodeIsNext(c: char, rest: string, letters: Letters)
    requires !IsQuote(c) && c != '/'
    ensures Scan([c] + rest, Speculative(letters)) == [false] + Scan(rest, Speculative(letters))
  {
    var all := [c] + rest;
    assert all[0] == c;
    assert Next(all, Speculative(letters)) == Lexeme(1, false);
    assert all[..1] == [c] && all[1..] == rest;
    assert Label([c], false) == [false];
  }

  lemma {:induction false} CodeStays(text: string, rest: string, letters: Letters)
    requires '/' !in text && forall i :: 0 <= i < |text| ==> !IsQuote(text[i])
    ensures Scan(text + rest, Speculative(letters)) == Label(text, false) + Scan(rest, Speculative(letters))
    decreases text
  {
    hide Scan, IsQuote;
    if text == "" {
      assert text + rest == rest && Label(text, false) + Scan(rest, Speculative(letters)) == Scan(rest, Speculative(letters));
    } else {
      var tail := text[1..];
      assert text + rest == [text[0]] + (tail + rest);
      CodeStays(tail, rest, letters);
      CodeIsNext(text[0], tail + rest, letters);
      assert Label(text, false) == [false] + Label(tail, false);
    }
  }

  lemma OneLexeme(shown: string, rest: string, code: bool, pass: Pass)
    requires shown != "" && Next(shown + rest, pass) == Lexeme(|shown|, !code)
    ensures Scan(shown + rest, pass) == Label(shown, !code) + Scan(rest, pass)
  {
    hide Next;
    var all := shown + rest;
    assert all[..|shown|] == shown && all[|shown|..] == rest;
  }

  /** On every well-labelled text the speculative pass masks exactly what is not code, regular expressions
      included, line feeds left out. */
  lemma {:induction false} MarksAreMasked(xs: seq<Labelled>, letters: Letters)
    requires WellMarked(xs, letters)
    ensures Scan(Whole(xs), Speculative(letters)) == Marks(xs)
    decreases xs
  {
    hide Next, Scan, Shown, GoodLabel, MayStandBefore, Label;
    if xs == [] {
      NothingToScan(Speculative(letters));
    } else {
      MarksAreMasked(xs[1..], letters);
      FirstIsMasked(xs[0], Whole(xs[1..]), letters);
    }
  }

  lemma NothingToScan(pass: Pass)
    ensures Scan("", pass) == []
  {
  }

  lemma FirstIsMasked(x: Labelled, rest: string, letters: Letters)
    requires GoodLabel(x, letters) && MayStandBefore(x, rest, letters)
    ensures Scan(Shown(x) + rest, Speculative(letters)) == Label(Shown(x), !IsCode(x)) + Scan(rest, Speculative(letters))
  {
    hide Next, Scan, Label, Show, ShowPieces, Literal;
    match x
    case Known(s) =>
      if s.Code? {
        CodeText(s);
        CodeStays(s.text, rest, letters);
      } else {
        KnownIsNext(s, rest, letters);
        OneLexeme(Show(s), rest, false, Speculative(letters));
      }
    case Regex(ps, flags) =>
      RegexIsNext(ps, flags, rest, letters);
      OneLexeme(Shown(x), rest, false, Speculative(letters));
    case Slash =>
      SlashIsNext(rest, letters);
      OneLexeme("/", rest, true, Speculative(letters));
  }

  lemma CodeText(s: Segment)
    requires s.Code? && GoodSegment(s)
    ensures Show(s) == s.text && forall i :: 0 <= i < |s.text| ==> !IsQuote(s.text[i])
  {
  }

  // ---- Every text can be labelled

  /** A label that may stand first. */
  ghost predicate Heads(x: Labelled, s: string, letters: Letters) {
    GoodLabel(x, letters) && Shown(x) != "" && Shown(x) <= s && MayStandBefore(x, s[|Shown(x)|..], letters)
  }

  lemma FirstLabel(s: string, letters: Letters) returns (x: Labelled)
    requires s != ""
    ensures Heads(x, s, letters)
  {
    if "//" <= s || "/*" <= s || IsQuote(s[0]) {
      var known := FirstSegment(s);
      x := Known(known);
      LeadIsNoCode(known, s);
    } else if s[0] != '/' {
      x := Known(Code([s[0]]));
    } else {
      var rest := s[1..];
      assert s == "/" + rest && (rest != "" ==> s[1] == rest[0]);
      assert rest != "" ==> s[..2] == ['/', rest[0]];
      x := SlashLabel(rest, letters);
    }
  }

  lemma CodeLeadsCode(x: Segment, s: string)
    requires Leads(x, s) && x.Code?
    ensures !("//" <= s) && !("/*" <= s) && s != "" && !IsQuote(s[0])
  {
    assert x.text[0] == s[0];
    assert |x.text| > 1 ==> x.text[1] == s[1];
    assert |x.text| == 1 && |s| > 1 ==> s[1..][0] == s[1];
  }

  lemma LeadIsNoCode(x: Segment, s: string)
    requires Leads(x, s) && ("//" <= s || "/*" <= s || (s != "" && IsQuote(s[0])))
    ensures !x.Code?
  {
    if x.Code? {
      CodeLeadsCode(x, s);
    }
  }

  lemma SlashLabel(rest: string, letters: Letters) returns (x: Labelled)
    requires rest == "" || rest[0] !in {'/', '*'}
    ensures Heads(x, "/" + rest, letters)
  {
    LiteralMeans(rest, letters);
    if RegexLength(rest, false, letters) == None {
      x := Slash;
      hide RegexLength, Literal;
      assert ("/" + rest)[1..] == rest;
    } else {
      var ps, tail := PiecesSpelt(rest, letters);
      x := RegexLabel(ps, tail, rest, letters);
    }
  }

  lemma RegexLabel(ps: seq<Piece>, tail: string, rest: string, letters: Letters) returns (x: Labelled)
    requires (forall i :: 0 <= i < |ps| ==> GoodPiece(ps[i])) && rest == ShowPieces(ps) + ("/" + tail)
    requires rest[0] !in {'/', '*'}
    ensures Heads(x, "/" + rest, letters)
  {
    hide *;
    SpeltIsGood(ps, "/" + tail, rest);
    var n := FlagsLength(tail, letters);
    x := Regex(ps, tail[..n]);
    var shown := ShowPieces(ps);
    assert shown + ("/" + tail) == shown + "/" + tail;
    SplitAtFlags("/" + shown + "/", tail, n);
    RegexHeads(ps, tail[..n], "/" + rest, letters);
  }

  lemma SplitAtFlags(head: string, tail: string, n: nat)
    requires n <= |tail|
    ensures head + tail[..n] <= head + tail && (head + tail)[|head + tail[..n]|..] == tail[n..]
  {
    assert head + tail == (head + tail[..n]) + tail[n..];
  }

  lemma RegexHeads(ps: seq<Piece>, flags: string, s: string, letters: Letters)
    requires GoodPieces(ps) && (forall i :: 0 <= i < |flags| ==> flags[i] in letters)
    requires "/" + ShowPieces(ps) + "/" + flags <= s
    requires var rest := s[|"/" + ShowPieces(ps) + "/" + flags|..]; rest == "" || rest[0] !in letters
    ensures Heads(Regex(ps, flags), s, letters)
  {
    hide GoodPieces, ShowPieces, Literal;
  }

  /** Every text is well labelled in some way, so the labels decide the speculative mask of every text. */
  lemma {:induction false} EveryTextIsMarked(s: string, letters: Letters) returns (xs: seq<Labelled>)
    ensures WellMarked(xs, letters) && Whole(xs) == s
    decreases |s|
  {
    if s == "" {
      xs := [];
    } else {
      var x := FirstLabel(s, letters);
      var rest := EveryTextIsMarked(s[|Shown(x)|..], letters);
      hide GoodLabel, Shown, MayStandBefore;
      xs := [x] + rest;
      assert xs[1..] == rest;
      assert s == Shown(x) + s[|Shown(x)|..];
    }
  }

  /** The masked text hides exactly what one of the two labellings calls no code. */
  lemma LabelsDecideMask(plain: seq<Segment>, marked: seq<Labelled>, letters: Letters, i: nat)
    requires WellLabelled(plain) && WellMarked(marked, letters) && Flat(plain) == Whole(marked) && i < |Flat(plain)|
    ensures |Labels(plain)| == |Marks(marked)| == |Flat(plain)|
    ensures Masked(Flat(plain), letters)[i] == if Labels(plain)[i] || Marks(marked)[i] then FILLER else Flat(plain)[i]
  {
    hide Scan, Labels, Marks, Flat, Whole, WellLabelled, WellMarked;
    LabelsAreMasked(plain);
    MarksAreMasked(marked, letters);
  }
}
