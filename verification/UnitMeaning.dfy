/** The units of a snapshot, stated on its lines: what a line is, what a header names, how far up a unit
    begins, and that a snapshot is cut exactly at its headers. */
module UnitMeaning {
  import opened Text
  import opened UnitSegments

  // ---- Lines

  ghost predicate NoBreak(s: string) { forall i :: 0 <= i < |s| ==> !IsBreak(s[i]) }

  predicate IsEnd(end: string) { end == "\r\n" || (|end| == 1 && IsBreak(end[0])) }

  /** One line with its end; only the last line may lack one. */
  ghost predicate IsLine(line: string, last: bool) {
    exists body, end :: line == body + end && NoBreak(body) && (IsEnd(end) || (last && end == "" && body != ""))
  }

  /** A return and the feed after it are never parted. */
  predicate Parted(line: string, next: string) {
    line != "" && next != "" && line[|line| - 1] == '\r' && next[0] == '\n'
  }

  ghost predicate AreLines(lines: seq<string>) {
    && (forall i :: 0 <= i < |lines| ==> IsLine(lines[i], i == |lines| - 1))
    && forall i :: 0 <= i < |lines| - 1 ==> !Parted(lines[i], lines[i + 1])
  }

  lemma {:induction false} FirstLine(text: string) returns (body: string, end: string)
    requires text != ""
    ensures text[..LineLength(text)] == body + end && NoBreak(body)
    ensures IsEnd(end) || (LineLength(text) == |text| && end == "" && body != "")
    ensures LineLength(text) < |text| ==> !Parted(text[..LineLength(text)], text[LineLength(text)..])
  {
    if IsBreak(text[0]) {
      body, end := "", text[..LineLength(text)];
    } else if |text| == 1 {
      body, end := text, "";
    } else {
      body, end := FirstLine(text[1..]);
      var n := LineLength(text[1..]);
      body := [text[0]] + body;
      assert text[..1 + n] == [text[0]] + text[1..][..n];
      assert 1 + n < |text| ==> text[1 + n..] == text[1..][n..];
    }
  }

  lemma {:induction false} LineIsFirst(body: string, end: string, rest: string)
    requires NoBreak(body) && (IsEnd(end) || (rest == "" && end == "" && body != "")) && !Parted(body + end, rest)
    ensures LineLength(body + end + rest) == |body + end|
    decreases body
  {
    var text := body + end + rest;
    if body == "" {
      assert text == end + rest;
      assert rest != "" ==> text[|end|] == rest[0];
    } else {
      assert text[0] == body[0] && text[1..] == body[1..] + end + rest;
      assert |body| > 1 || end != "" ==> |text| > 1;
      if |body| > 1 || end != "" {
        assert (body[1..] + end)[|body[1..] + end| - 1] == (body + end)[|body + end| - 1];
        LineIsFirst(body[1..], end, rest);
      }
    }
  }

  lemma {:induction false} KeptAreLines(text: string)
    ensures AreLines(KeepLines(text))
    decreases |text|
  {
    hide LineLength, IsEnd, Parted;
    if text != "" {
      var n := LineLength(text);
      var body, end := FirstLine(text);
      KeptAreLines(text[n..]);
      FirstKept(text[n..]);
      SamePart(text[..n], text[n..], KeepLines(text[n..]));
      LinesCons(text[..n], KeepLines(text[n..]), body, end);
    }
  }

  /** What is kept first begins the text. */
  lemma FirstKept(text: string)
    ensures text != "" ==> KeepLines(text) != [] && KeepLines(text)[0] != "" && KeepLines(text)[0][0] == text[0]
    ensures text == "" ==> KeepLines(text) == []
  {
  }

  lemma SamePart(line: string, rest: string, lines: seq<string>)
    requires rest != "" ==> lines != [] && lines[0] != "" && lines[0][0] == rest[0]
    requires rest == "" ==> lines == []
    ensures lines != [] && Parted(line, lines[0]) ==> rest != "" && Parted(line, rest)
  {
  }

  lemma LinesCons(line: string, rest: seq<string>, body: string, end: string)
    requires AreLines(rest) && line == body + end && NoBreak(body) && (IsEnd(end) || (rest == [] && end == "" && body != ""))
    requires rest != [] ==> !Parted(line, rest[0])
    ensures AreLines([line] + rest)
  {
    hide IsEnd, Parted, NoBreak;
    var lines := [line] + rest;
    forall i | 0 <= i < |lines| ensures IsLine(lines[i], i == |lines| - 1) {
      assert i > 0 ==> lines[i] == rest[i - 1];
    }
    forall i | 0 <= i < |lines| - 1 ensures !Parted(lines[i], lines[i + 1]) {
      assert lines[i + 1] == rest[i];
      assert i > 0 ==> lines[i] == rest[i - 1];
    }
  }

  lemma LinesTail(lines: seq<string>)
    requires AreLines(lines) && lines != []
    ensures AreLines(lines[1..]) && IsLine(lines[0], |lines| == 1) && (|lines| > 1 ==> !Parted(lines[0], lines[1]))
  {
    hide IsLine, Parted;
    var rest := lines[1..];
    assert forall i :: 0 <= i < |rest| ==> rest[i] == lines[i + 1];
  }

  lemma LineIsNotEmpty(line: string, last: bool)
    requires IsLine(line, last)
    ensures line != ""
  {
  }

  lemma {:induction false} LinesAreKept(lines: seq<string>)
    requires AreLines(lines)
    ensures KeepLines(Concat(lines)) == lines
    decreases lines
  {
    hide LineLength, NoBreak, IsEnd, Parted, AreLines;
    if lines != [] {
      var line, rest := lines[0], Concat(lines[1..]);
      LinesTail(lines);
      LinesAreKept(lines[1..]);
      LineIsNotEmpty(line, |lines| == 1);
      FirstKept(rest);
      var body, end :| line == body + end && NoBreak(body) && (IsEnd(end) || (|lines| == 1 && end == "" && body != ""));
      NotPartedFromRest(line, lines[1..]);
      LineIsFirst(body, end, rest);
      assert (line + rest)[..|line|] == line && (line + rest)[|line|..] == rest;
    }
  }

  lemma NotPartedFromRest(line: string, rest: seq<string>)
    requires AreLines(rest) && (rest != [] ==> !Parted(line, rest[0]))
    ensures !Parted(line, Concat(rest))
  {
    if rest != [] {
      LineIsNotEmpty(rest[0], |rest| == 1);
    }
  }

  /** A text is kept as exactly the lines it is made of. */
  lemma KeepLinesMeans(text: string, lines: seq<string>)
    ensures KeepLines(text) == lines <==> AreLines(lines) && Concat(lines) == text
  {
    hide KeepLines, AreLines, Concat;
    KeptAreLines(text);
    KeepLinesKeeps(text);
    if AreLines(lines) {
      LinesAreKept(lines);
    }
  }

  // ---- Headers and names

  lemma {:induction false} IdentIs(id: string, rest: string)
    requires (forall i :: 0 <= i < |id| ==> IdentChar(id[i])) && (rest == "" || !IdentChar(rest[0]))
    ensures IdentPrefix(id + rest) == id
    decreases id
  {
    if id == "" {
      assert id + rest == rest;
    } else {
      assert (id + rest)[1..] == id[1..] + rest;
      IdentIs(id[1..], rest);
    }
  }

  /** A header is a line that begins with a letter or an underscore; unless an interface, it is named by its
      first word of letters, digits and underscores. */
  lemma HeaderMeans(line: string)
    ensures IsHeader(line) <==> line != "" && ('a' <= line[0] <= 'z' || 'A' <= line[0] <= 'Z' || line[0] == '_')
  {
  }

  lemma NameMeans(id: string, rest: string)
    requires (forall i :: 0 <= i < |id| ==> IdentChar(id[i])) && (rest == "" || !IdentChar(rest[0]))
    requires !("INTERFACE" <= id + rest)
    ensures NameOf(id + rest) == Some(id)
  {
    IdentIs(id, rest);
  }

  ghost predicate IsWord(w: string) { w != "" && forall i :: 0 <= i < |w| ==> !IsSpace(Py, w[i]) }

  ghost predicate IsGap(g: string) { g != "" && OnlySpace(Py, g) }

  lemma {:induction false} WordIs(w: string, rest: string)
    requires (forall i :: 0 <= i < |w| ==> !IsSpace(Py, w[i])) && (rest == "" || IsSpace(Py, rest[0]))
    ensures WordLength(w + rest) == |w|
    decreases w
  {
    if w == "" {
      assert w + rest == rest;
    } else {
      assert (w + rest)[1..] == w[1..] + rest;
      WordIs(w[1..], rest);
    }
  }

  lemma {:induction false} WordsAfterGap(g: string, rest: string)
    requires OnlySpace(Py, g)
    ensures Words(g + rest) == Words(rest)
    decreases g
  {
    if g == "" {
      assert g + rest == rest;
    } else {
      assert (g + rest)[1..] == g[1..] + rest;
      WordsAfterGap(g[1..], rest);
    }
  }

  lemma WordsFirst(w: string, rest: string)
    requires IsWord(w) && (rest == "" || IsSpace(Py, rest[0]))
    ensures Words(w + rest) == [w] + Words(rest)
  {
    WordIs(w, rest);
    hide WordLength;
    assert (w + rest)[..|w|] == w && (w + rest)[|w|..] == rest && (w + rest)[0] == w[0];
  }

  lemma {:induction false} ColonsStripped(name: string, colons: string)
    requires (forall i :: 0 <= i < |colons| ==> colons[i] == ':') && (name != "" ==> name[|name| - 1] != ':')
    ensures StripColons(name + colons) == name
    decreases colons
  {
    var s := name + colons;
    if colons == "" {
      assert s == name;
    } else {
      assert s[..|s| - 1] == name + colons[..|colons| - 1];
      ColonsStripped(name, colons[..|colons| - 1]);
    }
  }

  /** An interface is named by its second word, its trailing colons dropped. */
  lemma InterfaceNameMeans(word: string, gap: string, name: string, colons: string, rest: string)
    requires "INTERFACE" <= word && IsWord(word) && IsGap(gap) && IsWord(name + colons) && (rest == "" || IsSpace(Py, rest[0]))
    requires (forall i :: 0 <= i < |colons| ==> colons[i] == ':') && (name != "" ==> name[|name| - 1] != ':')
    ensures NameOf(word + gap + (name + colons) + rest) == Some(name)
  {
    hide Words, StripColons;
    var line := word + gap + (name + colons) + rest;
    assert line == word + (gap + ((name + colons) + rest));
    WordsFirst(word, gap + ((name + colons) + rest));
    WordsAfterGap(gap, (name + colons) + rest);
    WordsFirst(name + colons, rest);
    ColonsStripped(name, colons);
    assert "INTERFACE" <= line;
  }

  /** An interface line with one word only stops the program. */
  lemma BareInterfaceDies(word: string, gap: string)
    requires "INTERFACE" <= word && IsWord(word) && OnlySpace(Py, gap)
    ensures NameOf(word + gap) == None
  {
    hide Words;
    WordsFirst(word, gap);
    WordsAfterGap(gap, "");
    assert gap + "" == gap;
    NoWords();
    assert "INTERFACE" <= word + gap;
  }

  lemma NoWords()
    ensures Words("") == []
  {
  }

  // ---- Where a unit begins

  /** Above a header: a run of comments as long as can be, and above it a run of blank lines as long as can be. */
  ghost predicate BeginsAt(lines: seq<string>, header: nat, at: nat) {
    exists comments: nat :: Above(lines, at, comments, header)
  }

  ghost predicate Above(lines: seq<string>, at: nat, comments: nat, header: nat) {
    && at <= comments <= header <= |lines|
    && (forall i :: comments <= i < header ==> "#" <= lines[i])
    && (comments > 0 ==> !("#" <= lines[comments - 1]))
    && (forall i :: at <= i < comments ==> OnlySpace(Py, lines[i]))
    && (at > 0 ==> !OnlySpace(Py, lines[at - 1]))
  }

  lemma BlankMeans(line: string)
    ensures IsBlank(line) <==> OnlySpace(Py, line)
  {
    TrimMeans(Py, line, "");
    if OnlySpace(Py, line) {
      assert OnlySpace(Py, "") && line == line + "" + "";
    }
    if a, z :| OnlySpace(Py, a) && OnlySpace(Py, z) && line == a + "" + z {
    }
  }

  lemma {:induction false} CommentRun(lines: seq<string>, i: nat)
    requires i <= |lines|
    ensures var j := CommentStart(lines, i);
            (forall k :: j <= k < i ==> "#" <= lines[k]) && (j > 0 ==> !("#" <= lines[j - 1]))
  {
    if i > 0 && IsComment(lines[i - 1]) {
      CommentRun(lines, i - 1);
    }
  }

  lemma {:induction false} BlankRun(lines: seq<string>, i: nat)
    requires i <= |lines|
    ensures var j := BlankStart(lines, i);
            (forall k :: j <= k < i ==> OnlySpace(Py, lines[k])) && (j > 0 ==> !OnlySpace(Py, lines[j - 1]))
  {
    hide IsBlank, OnlySpace;
    if i > 0 {
      BlankMeans(lines[i - 1]);
      if IsBlank(lines[i - 1]) {
        BlankRun(lines, i - 1);
      }
    }
  }

  lemma UnitStartMeans(lines: seq<string>, header: nat, at: nat)
    requires header <= |lines|
    ensures BeginsAt(lines, header, at) <==> UnitStart(lines, header) == at
  {
    hide OnlySpace, CommentStart, BlankStart;
    var j := CommentStart(lines, header);
    CommentRun(lines, header);
    BlankRun(lines, j);
    assert Above(lines, UnitStart(lines, header), j, header);
    if BeginsAt(lines, header, at) {
      var m: nat :| Above(lines, at, m, header);
      SameRun(lines, m, j, header);
      SameBlank(lines, at, UnitStart(lines, header), j);
    }
  }

  lemma SameRun(lines: seq<string>, m: nat, j: nat, header: nat)
    requires m <= header <= |lines| && j <= header
    requires (forall i :: m <= i < header ==> "#" <= lines[i]) && (m > 0 ==> !("#" <= lines[m - 1]))
    requires (forall i :: j <= i < header ==> "#" <= lines[i]) && (j > 0 ==> !("#" <= lines[j - 1]))
    ensures m == j
  {
  }

  lemma SameBlank(lines: seq<string>, a: nat, b: nat, j: nat)
    requires a <= j <= |lines| && b <= j
    requires (forall i :: a <= i < j ==> OnlySpace(Py, lines[i])) && (a > 0 ==> !OnlySpace(Py, lines[a - 1]))
    requires (forall i :: b <= i < j ==> OnlySpace(Py, lines[i])) && (b > 0 ==> !OnlySpace(Py, lines[b - 1]))
    ensures a == b
  {
    hide OnlySpace;
  }

  // ---- The cut

  /** The headers among the first `n` lines, each with its name and the line its unit begins at. */
  ghost predicate ListsHeaders(lines: seq<string>, n: nat, starts: seq<Start>) {
    && n <= |lines|
    && (forall k :: 0 <= k < |starts| ==> IsStart(lines, n, starts[k]))
    && (forall k, m :: 0 <= k < m < |starts| ==> starts[k].header < starts[m].header)
    && forall i :: 0 <= i < n && IsHeader(lines[i]) ==> exists k :: 0 <= k < |starts| && starts[k].header == i
  }

  ghost predicate IsStart(lines: seq<string>, n: nat, s: Start)
    requires n <= |lines|
  {
    s.header < n && IsHeader(lines[s.header]) && NameOf(lines[s.header]) == Some(s.name) && BeginsAt(lines, s.header, s.at)
  }

  lemma {:induction false} StartsList(lines: seq<string>, n: nat)
    requires n <= |lines| && Starts(lines, n).Some?
    ensures ListsHeaders(lines, n, Starts(lines, n).value)
  {
    hide IsHeader, NameOf, BeginsAt, UnitStart;
    StartsIncrease(lines, n);
    var starts := Starts(lines, n).value;
    StartsBegin(lines, n);
    forall k | 0 <= k < |starts| ensures IsStart(lines, n, starts[k]) {
      UnitStartMeans(lines, starts[k].header, starts[k].at);
    }
  }

  lemma {:induction false} StartsBegin(lines: seq<string>, n: nat)
    requires n <= |lines| && Starts(lines, n).Some?
    ensures forall s :: s in Starts(lines, n).value ==> s.header < n && s.at == UnitStart(lines, s.header)
  {
    hide IsHeader, NameOf, UnitStart;
    if n > 0 {
      StartsBegin(lines, n - 1);
    }
  }

  lemma {:induction false} ListIsStarts(lines: seq<string>, n: nat, starts: seq<Start>)
    requires ListsHeaders(lines, n, starts)
    ensures Starts(lines, n) == Some(starts)
    decreases n
  {
    hide IsHeader, NameOf, BeginsAt, UnitStart;
    if n == 0 {
      NoMoreThanLines(lines, n, starts);
    } else if IsHeader(lines[n - 1]) {
      var k :| 0 <= k < |starts| && starts[k].header == n - 1;
      LastIsLast(lines, n, starts, k);
      var before := starts[..k];
      FewerHeaders(lines, n, starts, before);
      ListIsStarts(lines, n - 1, before);
      UnitStartMeans(lines, n - 1, starts[k].at);
      assert starts == before + [starts[k]];
    } else {
      FewerHeaders(lines, n, starts, starts);
      ListIsStarts(lines, n - 1, starts);
    }
  }

  lemma NoMoreThanLines(lines: seq<string>, n: nat, starts: seq<Start>)
    requires ListsHeaders(lines, n, starts)
    ensures |starts| <= n
  {
    if starts != [] {
      HeaderFollows(lines, n, starts, |starts| - 1);
    }
  }

  lemma {:induction false} HeaderFollows(lines: seq<string>, n: nat, starts: seq<Start>, k: nat)
    requires ListsHeaders(lines, n, starts) && k < |starts|
    ensures k <= starts[k].header < n
  {
    HeaderWithin(lines, n, starts, k);
    if k > 0 {
      HeaderFollows(lines, n, starts, k - 1);
    }
  }

  lemma LastIsLast(lines: seq<string>, n: nat, starts: seq<Start>, k: nat)
    requires ListsHeaders(lines, n, starts) && k < |starts| && starts[k].header == n - 1
    ensures k == |starts| - 1 && IsStart(lines, n, starts[k])
  {
    hide IsHeader, NameOf, BeginsAt;
    if k < |starts| - 1 {
      HeaderWithin(lines, n, starts, k + 1);
    }
    assert IsStart(lines, n, starts[k]);
  }

  lemma HeaderWithin(lines: seq<string>, n: nat, starts: seq<Start>, k: nat)
    requires ListsHeaders(lines, n, starts) && k < |starts|
    ensures starts[k].header < n
  {
    hide IsHeader, NameOf, BeginsAt;
    assert IsStart(lines, n, starts[k]);
  }

  lemma FewerHeaders(lines: seq<string>, n: nat, starts: seq<Start>, before: seq<Start>)
    requires n > 0 && ListsHeaders(lines, n, starts) && before <= starts
    requires if IsHeader(lines[n - 1]) then |before| == |starts| - 1 && starts[|starts| - 1].header == n - 1 else before == starts
    ensures ListsHeaders(lines, n - 1, before)
  {
    hide IsHeader, NameOf, BeginsAt;
    forall k | 0 <= k < |before| ensures IsStart(lines, n - 1, before[k]) {
      assert IsStart(lines, n, starts[k]);
      assert before[k] == starts[k];
    }
    forall i | 0 <= i < n - 1 && IsHeader(lines[i]) ensures exists k :: 0 <= k < |before| && before[k].header == i {
      var k :| 0 <= k < |starts| && starts[k].header == i;
      assert k < |before| && before[k] == starts[k];
    }
  }

  /** The units: what stands above the first start, then from each start to the next. */
  ghost predicate UnitsAre(lines: seq<string>, starts: seq<Start>, units: seq<Unit>)
    requires starts != [] && forall k :: 0 <= k < |starts| ==> starts[k].at <= EndOf(lines, starts, k) <= |lines|
  {
    var shift := if starts[0].at > 0 then 1 else 0;
    && |units| == |starts| + shift
    && (shift == 1 ==> units[0] == Unit("__preamble__", Concat(lines[..starts[0].at])))
    && forall k :: 0 <= k < |starts| ==>
         units[k + shift] == Unit(starts[k].name, Concat(lines[starts[k].at..EndOf(lines, starts, k)]))
  }

  /** A snapshot is cut into units at its headers, under distinct names. */
  ghost predicate CutInto(text: string, lines: seq<string>, starts: seq<Start>, units: seq<Unit>) {
    && AreLines(lines) && Concat(lines) == text
    && ListsHeaders(lines, |lines|, starts) && starts != []
    && (forall k :: 0 <= k < |starts| ==> starts[k].at <= EndOf(lines, starts, k) <= |lines|)
    && UnitsAre(lines, starts, units)
    && forall i, j :: 0 <= i < j < |units| ==> units[i].name != units[j].name
  }

  lemma EndsFit(lines: seq<string>, starts: seq<Start>)
    requires InOrder(lines, starts)
    ensures forall k :: 0 <= k < |starts| ==> starts[k].at <= EndOf(lines, starts, k) <= |lines|
  {
    hide IsHeader, NameOf;
  }

  lemma PieceIs(lines: seq<string>, starts: seq<Start>, k: nat)
    requires starts != [] && InOrder(lines, starts) && k < |starts|
    requires forall m :: 0 <= m < |starts| ==> starts[m].at <= EndOf(lines, starts, m) <= |lines|
    ensures var pieces, shift := Pieces(lines, starts), if starts[0].at > 0 then 1 else 0;
            |pieces| == |starts| + shift && pieces[k + shift] == Unit(starts[k].name, Concat(lines[starts[k].at..EndOf(lines, starts, k)]))
  {
    UnitsAt(lines, starts, 0);
    UnitUnfolds(lines, starts, k);
    hide UnitsFrom, Concat, UnitAt, EndOf, InOrder;
  }

  lemma PiecesAre(lines: seq<string>, starts: seq<Start>, units: seq<Unit>)
    requires starts != [] && InOrder(lines, starts)
    ensures forall k :: 0 <= k < |starts| ==> starts[k].at <= EndOf(lines, starts, k) <= |lines|
    ensures UnitsAre(lines, starts, units) <==> units == Pieces(lines, starts)
  {
    EndsFit(lines, starts);
    hide UnitsFrom, Concat, UnitAt, EndOf, InOrder, Preamble;
    var pieces, shift := Pieces(lines, starts), if starts[0].at > 0 then 1 else 0;
    forall k | 0 <= k < |starts|
      ensures |pieces| == |starts| + shift
      ensures pieces[k + shift] == Unit(starts[k].name, Concat(lines[starts[k].at..EndOf(lines, starts, k)]))
    {
      PieceIs(lines, starts, k);
    }
    PieceIs(lines, starts, 0);
    PreambleIs(lines, starts);
    if UnitsAre(lines, starts, units) {
      SamePieces(lines, starts, units, pieces);
    }
  }

  lemma PreambleIs(lines: seq<string>, starts: seq<Start>)
    requires starts != [] && InOrder(lines, starts) && starts[0].at <= |lines|
    ensures starts[0].at > 0 ==> Pieces(lines, starts) != [] && Pieces(lines, starts)[0] == Unit("__preamble__", Concat(lines[..starts[0].at]))
  {
    hide UnitsFrom, Concat, InOrder;
  }

  lemma UnitIs(lines: seq<string>, starts: seq<Start>, units: seq<Unit>, k: nat, shift: nat)
    requires starts != [] && forall m :: 0 <= m < |starts| ==> starts[m].at <= EndOf(lines, starts, m) <= |lines|
    requires UnitsAre(lines, starts, units) && k < |starts| && shift == if starts[0].at > 0 then 1 else 0
    ensures units[k + shift] == Unit(starts[k].name, Concat(lines[starts[k].at..EndOf(lines, starts, k)]))
  {
    hide Concat, EndOf;
  }

  lemma SamePieces(lines: seq<string>, starts: seq<Start>, a: seq<Unit>, b: seq<Unit>)
    requires starts != [] && forall k :: 0 <= k < |starts| ==> starts[k].at <= EndOf(lines, starts, k) <= |lines|
    requires UnitsAre(lines, starts, a) && UnitsAre(lines, starts, b)
    ensures a == b
  {
    hide Concat, EndOf;
    var shift := if starts[0].at > 0 then 1 else 0;
    forall i | 0 <= i < |a| ensures a[i] == b[i] {
      if i >= shift {
        UnitIs(lines, starts, a, i - shift, shift);
        UnitIs(lines, starts, b, i - shift, shift);
      }
    }
  }

  lemma DistinctMeans(units: seq<Unit>)
    ensures AllDistinct(Names(units)) <==> forall i, j :: 0 <= i < j < |units| ==> units[i].name != units[j].name
  {
    if AllDistinct(Names(units)) {
      forall i, j | 0 <= i < j < |units| ensures units[i].name != units[j].name {
        assert Names(units)[i] != Names(units)[j];
      }
    }
  }

  /** The program cuts a snapshot into units exactly as its headers say, and stops exactly when they
      allow no cut. */
  lemma SegmentMeans(text: string, units: seq<Unit>)
    ensures Segment(text) == Some(units) <==> exists lines, starts :: CutInto(text, lines, starts, units)
  {
    hide Segment, CutInto;
    if Segment(text) == Some(units) {
      SegmentIsCut(text, units);
    }
    forall lines, starts | CutInto(text, lines, starts, units) ensures Segment(text) == Some(units) {
      CutIsSegment(text, lines, starts, units);
    }
  }

  lemma SegmentIsCut(text: string, units: seq<Unit>)
    requires Segment(text) == Some(units)
    ensures exists lines, starts :: CutInto(text, lines, starts, units)
  {
    hide KeepLines, Starts, AreLines, Concat, Pieces, Names, AllDistinct, ListsHeaders, UnitsAre, EndOf, InOrder;
    var lines := KeepLines(text);
    var starts := Starts(lines, |lines|).value;
    KeepLinesMeans(text, lines);
    StartsIncrease(lines, |lines|);
    StartsList(lines, |lines|);
    PiecesAre(lines, starts, units);
    DistinctMeans(units);
    assert CutInto(text, lines, starts, units);
  }

  lemma CutIsSegment(text: string, lines: seq<string>, starts: seq<Start>, units: seq<Unit>)
    requires CutInto(text, lines, starts, units)
    ensures Segment(text) == Some(units)
  {
    hide KeepLines, Starts, AreLines, Concat, Pieces, Names, AllDistinct, ListsHeaders, UnitsAre, EndOf, InOrder;
    KeepLinesMeans(text, lines);
    ListIsStarts(lines, |lines|, starts);
    StartsIncrease(lines, |lines|);
    PiecesAre(lines, starts, units);
    DistinctMeans(units);
  }
}
