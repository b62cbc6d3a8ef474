/** Context appends: texts put before or after an anchor in a contract's lines, and when they leave its
    rows alone. */
module ContractAppends {
  import opened Text
  import BubbleConfig
  import opened ContractDraft
  import PacketFences

  datatype Append = Append(anchor: string, text: string, before: bool)

  predicate Unbroken(lines: seq<string>) {
    lines != [] && forall i :: 0 <= i < |lines| ==> '\n' !in lines[i]
  }

  /** Where the text goes: at the anchor's first occurrence. */
  function CutOf(lines: seq<string>, a: Append): (cut: Option<nat>)
    ensures cut.Some? ==> cut.value <= |Join(lines, "\n")|
  {
    match Find(Join(lines, "\n"), a.anchor)
    case None => Option<nat>.None
    case Some(at) => Some(if a.before then at else at + |a.anchor|)
  }

  function Spliced(text: string, cut: nat, more: string): string
    requires cut <= |text|
  {
    text[..cut] + more + text[cut..]
  }

  function AppendOne(lines: seq<string>, a: Append): Option<seq<string>> {
    match CutOf(lines, a)
    case None => None
    case Some(cut) => Some(SplitOn(Spliced(Join(lines, "\n"), cut, a.text), '\n'))
  }

  function AppendAll(lines: seq<string>, es: seq<Append>): Option<seq<string>>
    decreases es
  {
    if es == [] then Some(lines)
    else
      var more :- AppendOne(lines, es[0]);
      AppendAll(more, es[1..])
  }

  method AppendInTurn(lines: seq<string>, es: seq<Append>) returns (r: Option<seq<string>>)
    ensures r == AppendAll(lines, es)
  {
    hide AppendOne;
    var now := lines;
    assert es[0..] == es;
    for i := 0 to |es|
      invariant AppendAll(now, es[i..]) == AppendAll(lines, es)
    {
      assert es[i..][0] == es[i] && es[i..][1..] == es[i + 1..];
      var more := AppendOne(now, es[i]);
      if more == None {
        return None;
      }
      now := more.value;
    }
    return Some(now);
  }

  // ---- An append changes one line

  /** The line a position of the joined text lies in, and the column there. */
  function PlaceOf(lines: seq<string>, cut: nat): (p: (nat, nat))
    requires lines != [] && cut <= |Join(lines, "\n")|
    ensures p.0 < |lines| && p.1 <= |lines[p.0]|
    decreases |lines|
  {
    if cut <= |lines[0]| then (0, cut)
    else
      var rest := lines[1..];
      var p := PlaceOf(rest, cut - |lines[0]| - 1);
      (p.0 + 1, p.1)
  }

  lemma {:induction false} SplitAcross(a: string, b: string, sep: char)
    ensures SplitOn(a + [sep] + b, sep) == SplitOn(a, sep) + SplitOn(b, sep)
  {
    var s := a + [sep] + b;
    if a == "" {
      assert s[1..] == b && s[0] == sep;
    } else {
      SplitAcross(a[1..], b, sep);
      assert s[1..] == a[1..] + [sep] + b && s[0] == a[0];
      SplitFront(s, sep);
      SplitFront(a, sep);
      hide SplitOn;
      MoreBehind(a[0], SplitOn(a[1..], sep), SplitOn(b, sep), sep);
    }
  }

  /** The pieces of a text, given those of all but its first character. */
  function Front(c: char, rest: seq<string>, sep: char): seq<string>
    requires rest != []
  {
    if c == sep then [""] + rest else [[c] + rest[0]] + rest[1..]
  }

  lemma SplitFront(s: string, sep: char)
    requires s != ""
    ensures SplitOn(s, sep) == Front(s[0], SplitOn(s[1..], sep), sep)
  {
  }

  lemma MoreBehind(c: char, first: seq<string>, last: seq<string>, sep: char)
    requires first != []
    ensures Front(c, first + last, sep) == Front(c, first, sep) + last
  {
    assert (first + last)[0] == first[0] && (first + last)[1..] == first[1..] + last;
  }

  /** The line that is hit becomes the pieces of itself with the text put in. */
  function PiecesOf(line: string, column: nat, more: string): (r: seq<string>)
    requires column <= |line|
    ensures r != []
  {
    SplitOn(Spliced(line, column, more), '\n')
  }

  lemma SplicedInFirst(first: string, tail: string, cut: nat, more: string)
    requires cut <= |first|
    ensures Spliced(first + "\n" + tail, cut, more) == Spliced(first, cut, more) + "\n" + tail
  {
  }

  lemma SplicedInRest(first: string, tail: string, cut: nat, more: string)
    requires cut <= |tail|
    ensures Spliced(first + "\n" + tail, |first| + 1 + cut, more) == first + "\n" + Spliced(tail, cut, more)
  {
  }

  /** The lines with one of them replaced by pieces. */
  function Among(lines: seq<string>, i: nat, pieces: seq<string>): seq<string>
    requires i < |lines|
  {
    lines[..i] + pieces + lines[i + 1..]
  }

  lemma AmongRest(lines: seq<string>, i: nat, pieces: seq<string>)
    requires i + 1 < |lines|
    ensures [lines[0]] + Among(lines[1..], i, pieces) == Among(lines, i + 1, pieces)
  {
  }

  lemma AmongFirst(lines: seq<string>, pieces: seq<string>)
    requires lines != []
    ensures Among(lines, 0, pieces) == pieces + lines[1..]
  {
  }

  /** The other lines stay as they are. */
  lemma {:induction false} SpliceIsLocal(lines: seq<string>, cut: nat, more: string)
    requires Unbroken(lines) && cut <= |Join(lines, "\n")|
    ensures var (i, j) := PlaceOf(lines, cut);
            SplitOn(Spliced(Join(lines, "\n"), cut, more), '\n') == Among(lines, i, PiecesOf(lines[i], j, more))
    decreases |lines|
  {
    hide SplitOn, Spliced, Among;
    var first, rest := lines[0], lines[1..];
    if cut <= |first| {
      AmongFirst(lines, PiecesOf(first, cut, more));
    }
    if |lines| == 1 {
      assert PiecesOf(first, cut, more) + [] == PiecesOf(first, cut, more);
    } else {
      var tail := Join(rest, "\n");
      assert Join(lines, "\n") == first + "\n" + tail;
      hide Join;
      if cut <= |first| {
        SplicedInFirst(first, tail, cut, more);
        SplitAcross(Spliced(first, cut, more), tail, '\n');
        SplitOfJoin(rest, '\n');
      } else {
        var less := cut - |first| - 1;
        SplicedInRest(first, tail, less, more);
        SplitAcross(first, Spliced(tail, less, more), '\n');
        SplitNone(first, '\n');
        SpliceIsLocal(rest, less, more);
        var (i, j) := PlaceOf(rest, less);
        AmongRest(lines, i, PiecesOf(rest[i], j, more));
      }
    }
  }

  lemma AppendIsUnbroken(lines: seq<string>, a: Append)
    requires AppendOne(lines, a).Some?
    ensures Unbroken(AppendOne(lines, a).value)
  {
    hide SplitOn;
    var more := AppendOne(lines, a).value;
    SplitPieces(Spliced(Join(lines, "\n"), CutOf(lines, a).value, a.text), '\n');
    assert forall i :: 0 <= i < |more| ==> more[i] in more;
  }

  // ---- What that does to the rows

  lemma {:induction false} RowsConcat(a: seq<string>, b: seq<string>)
    ensures Rows(a + b) == Rows(a) + Rows(b)
  {
    hide RowId;
    if a == [] {
      assert a + b == b;
    } else {
      RowsConcat(a[1..], b);
      assert (a + b)[1..] == a[1..] + b && (a + b)[0] == a[0];
      var first := if RowId(a[0]).Some? then [a[0]] else [];
      assert Rows(a + b) == first + Rows(a[1..] + b) && Rows(a) == first + Rows(a[1..]);
      hide Rows;
      assert first + (Rows(a[1..]) + Rows(b)) == first + Rows(a[1..]) + Rows(b);
    }
  }

  lemma SurfaceConcat(a: seq<string>, b: seq<string>)
    ensures Surface(a + b) == Surface(a) + Surface(b)
  {
    hide Rows;
    RowsConcat(a, b);
  }

  lemma SurfaceAmong(lines: seq<string>, i: nat, pieces: seq<string>)
    requires i < |lines|
    ensures Surface(Among(lines, i, pieces)) == Surface(lines[..i]) + Surface(pieces) + Surface(lines[i + 1..])
  {
    hide Surface;
    SurfaceConcat(lines[..i], pieces);
    SurfaceConcat(lines[..i] + pieces, lines[i + 1..]);
  }

  lemma AmongItself(lines: seq<string>, i: nat)
    requires i < |lines|
    ensures Among(lines, i, [lines[i]]) == lines
  {
  }

  /** An append leaves the compared rows alone exactly when it leaves those of the line it hits alone. */
  lemma AppendKeepsRows(lines: seq<string>, a: Append)
    requires Unbroken(lines) && AppendOne(lines, a).Some?
    ensures var (i, j) := PlaceOf(lines, CutOf(lines, a).value);
            Surface(AppendOne(lines, a).value) == Surface(lines) <==> Surface(PiecesOf(lines[i], j, a.text)) == Surface([lines[i]])
  {
    hide *;
    AppendIsSplice(lines, a);
    var cut := CutOf(lines, a).value;
    SpliceIsLocal(lines, cut, a.text);
    var (i, j) := PlaceOf(lines, cut);
    var pieces := PiecesOf(lines[i], j, a.text);
    SurfaceAmong(lines, i, pieces);
    SurfaceAmong(lines, i, [lines[i]]);
    AmongItself(lines, i);
    Cancelled(Surface(lines[..i]), Surface(pieces), Surface([lines[i]]), Surface(lines[i + 1..]));
  }

  lemma AppendIsSplice(lines: seq<string>, a: Append)
    requires AppendOne(lines, a).Some?
    ensures CutOf(lines, a).Some? && AppendOne(lines, a).value == SplitOn(Spliced(Join(lines, "\n"), CutOf(lines, a).value, a.text), '\n')
  {
    hide SplitOn, Spliced;
  }

  lemma Cancelled(pre: seq<string>, b: seq<string>, c: seq<string>, post: seq<string>)
    ensures pre + b + post == pre + c + post <==> b == c
  {
    if pre + b + post == pre + c + post {
      assert b == (pre + b + post)[|pre|..|pre| + |b|];
      assert |b| == |c|;
      assert c == (pre + c + post)[|pre|..|pre| + |c|];
    }
  }

  /** A row appended on a line of its own is one the recorded commit does not hold. */
  lemma AppendedRowIsUnrecorded(lines: seq<string>, a: Append, row: string)
    requires Unbroken(lines) && AppendOne(lines, a).Some?
    requires a.text == row + "\n" && '\n' !in row && RowId(row).Some? && PlaceOf(lines, CutOf(lines, a).value).1 == 0
    ensures Surface(AppendOne(lines, a).value) != Surface(lines)
  {
    hide *;
    AppendIsSplice(lines, a);
    AppendKeepsRows(lines, a);
    var place := PlaceOf(lines, CutOf(lines, a).value);
    LineUnbroken(lines, place.0);
    RowBeforeLine(lines[place.0], row);
  }

  lemma LineUnbroken(lines: seq<string>, i: nat)
    requires Unbroken(lines) && i < |lines|
    ensures '\n' !in lines[i]
  {
  }

  lemma RowBeforeLine(line: string, row: string)
    requires '\n' !in line && '\n' !in row && RowId(row).Some?
    ensures Surface(PiecesOf(line, 0, row + "\n")) != Surface([line])
  {
    hide Surface, SplitOn, RowId;
    assert Spliced(line, 0, row + "\n") == row + "\n" + line;
    SplitAcross(row, line, '\n');
    SplitNone(row, '\n');
    SplitNone(line, '\n');
    SurfaceConcat([row], [line]);
    OneRowSurface(row);
  }

  lemma OneRowSurface(row: string)
    requires RowId(row).Some?
    ensures |Surface([row])| == 1
  {
    assert Rows([row]) == [row] + Rows([row][1..]);
  }

  /** Lines that are no rows and open no fence. */
  predicate NoRow(lines: seq<string>) {
    forall i :: 0 <= i < |lines| ==> RowId(lines[i]) == None && PacketFences.OpenerOf(lines[i]) == None
  }

  /** An append that brings no row and breaks none: either it hits a line that is no row and the pieces
      are none, or it puts whole lines that are none before a line. Nor do the pieces open a fence. */
  predicate Quiet(lines: seq<string>, a: Append)
    requires lines != []
  {
    var cut := CutOf(lines, a);
    cut.Some? ==>
      var (i, j) := PlaceOf(lines, cut.value);
      || (RowId(lines[i]) == None && NoRow(PiecesOf(lines[i], j, a.text)))
      || (j == 0 && EndsWith(a.text, "\n") && NoRow(SplitOn(a.text, '\n')))
  }

  predicate AllQuiet(lines: seq<string>, es: seq<Append>)
    requires lines != []
    decreases es
  {
    es == [] || (Quiet(lines, es[0]) && (AppendOne(lines, es[0]).Some? ==>
      var more := AppendOne(lines, es[0]).value;
      more != [] && AllQuiet(more, es[1..])))
  }

  lemma {:induction false} NoRowNoSurface(lines: seq<string>)
    requires NoRow(lines)
    ensures Rows(lines) == [] && Surface(lines) == []
  {
    hide RowId, PacketFences.OpenerOf;
    if lines != [] {
      NoRowNoSurface(lines[1..]);
    }
  }

  lemma OneLineNoSurface(line: string)
    requires RowId(line) == None
    ensures Surface([line]) == []
  {
    assert Rows([line]) == [] + Rows([line][1..]);
  }

  lemma QuietKeepsRows(lines: seq<string>, a: Append)
    requires Unbroken(lines) && Quiet(lines, a) && AppendOne(lines, a).Some?
    ensures Surface(AppendOne(lines, a).value) == Surface(lines)
  {
    AppendKeepsRows(lines, a);
    var (i, j) := PlaceOf(lines, CutOf(lines, a).value);
    hide Surface, RowId, SplitOn, PacketFences.OpenerOf;
    if RowId(lines[i]) == None && NoRow(PiecesOf(lines[i], j, a.text)) {
      OneLineNoSurface(lines[i]);
      NoRowNoSurface(PiecesOf(lines[i], j, a.text));
    } else {
      WholeLines(lines[i], a.text);
    }
  }

  lemma WholeLines(line: string, text: string)
    requires '\n' !in line && EndsWith(text, "\n") && NoRow(SplitOn(text, '\n'))
    ensures Surface(PiecesOf(line, 0, text)) == Surface([line])
  {
    hide Surface, RowId, SplitOn, PacketFences.OpenerOf;
    var body := text[..|text| - 1];
    assert text == body + "\n" + "";
    assert Spliced(line, 0, text) == body + "\n" + line;
    SplitAcross(body, line, '\n');
    SplitAcross(body, "", '\n');
    SplitNone(line, '\n');
    SplitNone("", '\n');
    var lines := SplitOn(body, '\n');
    assert forall i :: 0 <= i < |lines| ==> (lines + [""])[i] == lines[i];
    NoRowNoSurface(lines);
    SurfaceConcat(lines, [line]);
    assert [] + Surface([line]) == Surface([line]);
  }

  /** Quiet appends leave the compared rows alone. */
  lemma {:induction false} QuietAppendsKeepRows(lines: seq<string>, es: seq<Append>)
    requires Unbroken(lines) && AllQuiet(lines, es) && AppendAll(lines, es).Some?
    ensures Surface(AppendAll(lines, es).value) == Surface(lines)
    decreases es
  {
    hide Surface, AppendOne, Quiet;
    if es != [] {
      QuietKeepsRows(lines, es[0]);
      AppendIsUnbroken(lines, es[0]);
      QuietAppendsKeepRows(AppendOne(lines, es[0]).value, es[1..]);
    }
  }

  // ---- Equal surfaces name equal rows

  predicate Blank(s: string) { forall i :: 0 <= i < |s| ==> IsSpace(Py, s[i]) }

  lemma {:induction false} TrimStartBlank(a: string, x: string)
    requires Blank(a) && x != "" && !IsSpace(Py, x[0])
    ensures TrimStart(Py, a + x) == x
  {
    if a == "" {
      assert a + x == x;
    } else {
      TrimStartBlank(a[1..], x);
      assert (a + x)[1..] == a[1..] + x;
    }
  }

  lemma {:induction false} DigitRunEnds(d: string, x: string)
    requires x != "" && !BubbleConfig.Digit(x[0])
    ensures DigitRun(d + x) == DigitRun(d)
  {
    if d == "" {
      assert d + x == x;
    } else {
      DigitRunEnds(d[1..], x);
      assert (d + x)[1..] == d[1..] + x;
    }
  }

  predicate IdShaped(id: string) { |id| >= 2 && id[0] == 'C' && DigitRun(id[1..]) == |id| - 1 }

  /** A line of that shape has that id, whatever follows the cell. */
  lemma RowIdIs(a: string, id: string, b: string, rest: string)
    requires Blank(a) && Blank(b) && IdShaped(id)
    ensures RowId("|" + a + id + b + "|" + rest) == Some(id)
  {
    hide TrimStart, DigitRun;
    var line := "|" + a + id + b + "|" + rest;
    var close := "|" + rest;
    assert close[0] == '|';
    var cell := id + (b + close);
    assert cell[0] == 'C' && line[1..] == a + cell;
    TrimStartBlank(a, cell);
    assert cell[1..] == id[1..] + (b + close);
    assert (b + close)[0] == if b == "" then '|' else b[0];
    DigitRunEnds(id[1..], b + close);
    assert cell[|id|..] == b + close && cell[..|id|] == id;
    TrimStartBlank(b, close);
  }

  /** The text after the white space in front of it. */
  lemma BlankThen(s: string) returns (a: string)
    ensures Blank(a) && s == a + TrimStart(Py, s)
  {
    DroppedIsBlank(s);
    TrimStartSuffix(Py, s);
    a := s[..|s| - |TrimStart(Py, s)|];
  }

  /** The cell of a row: its id, white space, a bar. */
  lemma CellShape(cell: string, n: nat) returns (b: string, rest: string)
    requires cell != "" && cell[0] == 'C' && n == DigitRun(cell[1..]) && n > 0
    requires var after := TrimStart(Py, cell[1 + n..]); after != "" && after[0] == '|'
    ensures Blank(b) && IdShaped(cell[..1 + n]) && cell == cell[..1 + n] + b + "|" + rest
  {
    var tail := cell[1 + n..];
    b := BlankThen(tail);
    DigitRunOfPrefix(cell[1..]);
    hide TrimStart, DigitRun;
    assert cell[..1 + n][1..] == cell[1..][..n];
    var after := TrimStart(Py, tail);
    rest := after[1..];
    assert after == "|" + rest && cell == cell[..1 + n] + tail;
  }

  /** A row's line has that shape. */
  lemma RowIdShape(line: string) returns (a: string, b: string, rest: string)
    requires RowId(line).Some?
    ensures Blank(a) && Blank(b) && IdShaped(RowId(line).value)
    ensures line == "|" + a + RowId(line).value + b + "|" + rest
  {
    hide TrimStart, DigitRun, IdShaped, Blank;
    a := BlankThen(line[1..]);
    var cell := TrimStart(Py, line[1..]);
    b, rest := CellShape(cell, DigitRun(cell[1..]));
    assert line == "|" + line[1..];
  }

  lemma {:induction false} DroppedIsBlank(s: string)
    ensures |TrimStart(Py, s)| <= |s| && Blank(s[..|s| - |TrimStart(Py, s)|])
  {
    if s != "" && IsSpace(Py, s[0]) {
      DroppedIsBlank(s[1..]);
      var n := |s| - |TrimStart(Py, s)|;
      assert s[..n] == [s[0]] + s[1..][..n - 1];
    }
  }

  lemma {:induction false} DigitRunOfPrefix(s: string)
    ensures DigitRun(s[..DigitRun(s)]) == DigitRun(s)
  {
    if s != "" && BubbleConfig.Digit(s[0]) {
      DigitRunOfPrefix(s[1..]);
      var n := DigitRun(s);
      assert s[..n][1..] == s[1..][..n - 1];
    }
  }

  /** Trailing white space is no part of a row's id. */
  lemma TrimmedRowId(line: string)
    requires RowId(line).Some?
    ensures RowId(TrimEnd(Py, line)) == RowId(line)
  {
    var id := RowId(line).value;
    var a, b, rest := RowIdShape(line);
    var head := "|" + a + id + b + "|";
    assert line == head + rest && line[|head| - 1] == '|';
    TrimEndPrefix(Py, line);
    var kept := TrimEnd(Py, line);
    assert |kept| >= |head|;
    assert kept == head + kept[|head|..];
    RowIdIs(a, id, b, kept[|head|..]);
  }

  /** Contracts with the same compared rows have the same row ids in order. */
  lemma SameSurfaceSameIds(a: seq<string>, b: seq<string>)
    requires Surface(a) == Surface(b)
    ensures |Rows(a)| == |Rows(b)| && Ids(Rows(a)) == Ids(Rows(b))
  {
    assert |Surface(a)| == |Rows(a)| && |Surface(b)| == |Rows(b)|;
    forall i | 0 <= i < |Rows(a)| ensures Ids(Rows(a))[i] == Ids(Rows(b))[i] {
      assert Surface(a)[i] == Surface(b)[i];
      TrimmedRowId(Rows(a)[i]);
      TrimmedRowId(Rows(b)[i]);
    }
  }
}
