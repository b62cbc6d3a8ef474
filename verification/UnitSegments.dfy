/** Cutting a pseudocode snapshot into named units (the migration's `segment`). */
module UnitSegments {
  import opened Text

  datatype Unit = Unit(name: string, body: string)

  // ---- Lines with their ends kept

  predicate IsBreak(c: char) {
    || '\n' <= c <= '\r' || '\U{001C}' <= c <= '\U{001E}' || c == '\U{0085}'
    || c == '\U{2028}' || c == '\U{2029}'
  }

  /** Length of the first line, its end included; a return and the feed after it end one line. */
  function LineLength(text: string): (n: nat)
    requires text != ""
    ensures 1 <= n <= |text|
  {
    if IsBreak(text[0]) then (if text[0] == '\r' && |text| > 1 && text[1] == '\n' then 2 else 1)
    else if |text| == 1 then 1
    else 1 + LineLength(text[1..])
  }

  /** `splitlines(keepends=True)`. */
  function KeepLines(text: string): (lines: seq<string>)
    ensures forall i :: 0 <= i < |lines| ==> lines[i] != ""
  {
    if text == "" then []
    else [text[..LineLength(text)]] + KeepLines(text[LineLength(text)..])
  }

  function Concat(parts: seq<string>): string {
    if parts == [] then "" else parts[0] + Concat(parts[1..])
  }

  lemma {:induction false} ConcatAppend(a: seq<string>, b: seq<string>)
    ensures Concat(a + b) == Concat(a) + Concat(b)
  {
    if a == [] {
      assert a + b == b;
    } else {
      assert (a + b)[1..] == a[1..] + b;
      ConcatAppend(a[1..], b);
    }
  }

  lemma {:induction false} KeepLinesKeeps(text: string)
    ensures Concat(KeepLines(text)) == text
    decreases |text|
  {
    if text != "" {
      KeepLinesKeeps(text[LineLength(text)..]);
    }
  }

  // ---- Headers and their names

  predicate IdentStart(c: char) { 'a' <= c <= 'z' || 'A' <= c <= 'Z' || c == '_' }

  predicate IdentChar(c: char) { IdentStart(c) || '0' <= c <= '9' }

  /** The header pattern may skip a leading keyword but also matches the keyword itself, so it
      matches exactly the lines that start an identifier. */
  predicate IsHeader(line: string) {
    line != "" && !IsSpace(Py, line[0]) && !StartsWith(line, "#") && IdentStart(line[0])
  }

  predicate IsComment(line: string) { StartsWith(line, "#") }

  predicate IsBlank(line: string) { Trim(Py, line) == "" }

  function IdentPrefix(s: string): string {
    if s != "" && IdentChar(s[0]) then [s[0]] + IdentPrefix(s[1..]) else ""
  }

  function WordLength(s: string): (n: nat)
    ensures n <= |s|
  {
    if s == "" || IsSpace(Py, s[0]) then 0 else 1 + WordLength(s[1..])
  }

  function Words(s: string): seq<string>
    decreases |s|
  {
    if s == "" then []
    else if IsSpace(Py, s[0]) then Words(s[1..])
    else [s[..WordLength(s)]] + Words(s[WordLength(s)..])
  }

  function StripColons(s: string): string {
    if s != "" && s[|s| - 1] == ':' then StripColons(s[..|s| - 1]) else s
  }

  /** The unit a header names; none for a bare keyword line, on which the program stops. */
  function NameOf(line: string): Option<string> {
    if !StartsWith(line, "INTERFACE") then Some(IdentPrefix(line))
    else if |Words(line)| < 2 then None
    else Some(StripColons(Words(line)[1]))
  }

  // ---- Where a unit starts

  function CommentStart(lines: seq<string>, i: nat): (j: nat)
    requires i <= |lines|
    ensures j <= i
  {
    if i > 0 && IsComment(lines[i - 1]) then CommentStart(lines, i - 1) else i
  }

  function BlankStart(lines: seq<string>, i: nat): (k: nat)
    requires i <= |lines|
    ensures k <= i
  {
    if i > 0 && IsBlank(lines[i - 1]) then BlankStart(lines, i - 1) else i
  }

  /** Above a header: its run of comments, and the run of blank lines above those. */
  function UnitStart(lines: seq<string>, i: nat): (k: nat)
    requires i <= |lines|
    ensures k <= i
  {
    BlankStart(lines, CommentStart(lines, i))
  }

  datatype Start = Start(at: nat, header: nat, name: string)

  /** One start per header among the first `n` lines. */
  function Starts(lines: seq<string>, n: nat): Option<seq<Start>>
    requires n <= |lines|
  {
    if n == 0 then Some([])
    else
      var before :- Starts(lines, n - 1);
      if !IsHeader(lines[n - 1]) then Some(before)
      else
        var name :- NameOf(lines[n - 1]);
        Some(before + [Start(UnitStart(lines, n - 1), n - 1, name)])
  }

  lemma {:induction false} HeadersStopRuns(lines: seq<string>, h: nat, i: nat)
    requires h < i <= |lines| && IsHeader(lines[h])
    ensures CommentStart(lines, i) > h && BlankStart(lines, i) > h
    decreases i
  {
    HeaderIsNotBlank(lines[h]);
    if i > h + 1 {
      HeadersStopRuns(lines, h, i - 1);
    }
  }

  lemma HeaderIsNotBlank(line: string)
    requires IsHeader(line)
    ensures !IsBlank(line) && !IsComment(line)
  {
    TrimOfVisibleStart(Py, line);
  }

  ghost predicate InOrder(lines: seq<string>, starts: seq<Start>) {
    && (forall k :: 0 <= k < |starts| ==>
          starts[k].at <= starts[k].header < |lines| && IsHeader(lines[starts[k].header])
          && NameOf(lines[starts[k].header]) == Some(starts[k].name))
    && forall k, m :: 0 <= k < m < |starts| ==> starts[k].header < starts[m].at
  }

  /** The starts of the units increase strictly: every unit begins after the header before it. */
  lemma {:induction false} StartsIncrease(lines: seq<string>, n: nat)
    requires n <= |lines| && Starts(lines, n).Some?
    ensures InOrder(lines, Starts(lines, n).value)
    ensures forall k :: 0 <= k < |Starts(lines, n).value| ==> Starts(lines, n).value[k].header < n
    ensures forall i :: 0 <= i < n && IsHeader(lines[i]) ==>
              exists k :: 0 <= k < |Starts(lines, n).value| && Starts(lines, n).value[k].header == i
  {
    hide IsHeader, NameOf;
    if n > 0 {
      StartsIncrease(lines, n - 1);
      var before, starts := Starts(lines, n - 1).value, Starts(lines, n).value;
      if IsHeader(lines[n - 1]) {
        StartAfterHeaders(lines, before, n - 1);
        assert starts[|before|].header == n - 1;
      }
      HeadersListed(lines, n, before, starts);
    }
  }

  lemma HeadersListed(lines: seq<string>, n: nat, before: seq<Start>, starts: seq<Start>)
    requires 0 < n <= |lines| && before <= starts
    requires IsHeader(lines[n - 1]) ==> |before| < |starts| && starts[|before|].header == n - 1
    requires forall i :: 0 <= i < n - 1 && IsHeader(lines[i]) ==> exists k :: 0 <= k < |before| && before[k].header == i
    ensures forall i :: 0 <= i < n && IsHeader(lines[i]) ==> exists k :: 0 <= k < |starts| && starts[k].header == i
  {
    hide IsHeader;
    forall i | 0 <= i < n && IsHeader(lines[i]) ensures exists k :: 0 <= k < |starts| && starts[k].header == i {
      if i < n - 1 {
        var k :| 0 <= k < |before| && before[k].header == i;
        assert starts[k].header == i;
      }
    }
  }

  lemma StartAfterHeaders(lines: seq<string>, before: seq<Start>, i: nat)
    requires i < |lines| && InOrder(lines, before) && forall k :: 0 <= k < |before| ==> before[k].header < i
    ensures forall k :: 0 <= k < |before| ==> before[k].header < UnitStart(lines, i)
  {
    hide IsHeader, NameOf, CommentStart, BlankStart;
    forall k | 0 <= k < |before| ensures before[k].header < UnitStart(lines, i) {
      HeadersStopRuns(lines, before[k].header, i);
      HeadersStopRuns(lines, before[k].header, CommentStart(lines, i));
    }
  }

  // ---- The units

  const PREAMBLE := "__preamble__"

  /** Where the unit that starts at `starts[k]` ends. */
  function EndOf(lines: seq<string>, starts: seq<Start>, k: nat): nat
    requires k < |starts|
  {
    if k + 1 < |starts| then starts[k + 1].at else |lines|
  }

  function UnitAt(lines: seq<string>, starts: seq<Start>, k: nat): Unit
    requires InOrder(lines, starts) && k < |starts|
  {
    Unit(starts[k].name, Concat(lines[starts[k].at..EndOf(lines, starts, k)]))
  }

  /** The units from the `k`-th start on. */
  function UnitsFrom(lines: seq<string>, starts: seq<Start>, k: nat): seq<Unit>
    requires InOrder(lines, starts) && k <= |starts|
    decreases |starts| - k
  {
    if k == |starts| then [] else [UnitAt(lines, starts, k)] + UnitsFrom(lines, starts, k + 1)
  }

  function Preamble(lines: seq<string>, starts: seq<Start>): seq<Unit>
    requires starts != [] && InOrder(lines, starts)
  {
    if starts[0].at > 0 then [Unit(PREAMBLE, Concat(lines[..starts[0].at]))] else []
  }

  function Pieces(lines: seq<string>, starts: seq<Start>): seq<Unit>
    requires starts != [] && InOrder(lines, starts)
  {
    Preamble(lines, starts) + UnitsFrom(lines, starts, 0)
  }

  function Names(units: seq<Unit>): seq<string> {
    seq(|units|, i requires 0 <= i < |units| => units[i].name)
  }

  function Bodies(units: seq<Unit>): seq<string> {
    seq(|units|, i requires 0 <= i < |units| => units[i].body)
  }

  predicate AllDistinct(names: seq<string>) {
    forall i, j :: 0 <= i < j < |names| ==> names[i] != names[j]
  }

  /** The units of a snapshot; none where the program stops: no header, a bare keyword line, or two
      units of one name. */
  function Segment(text: string): Option<seq<Unit>> {
    var lines := KeepLines(text);
    var starts :- Starts(lines, |lines|);
    if starts == [] then None
    else
      StartsIncrease(lines, |lines|);
      var units := Pieces(lines, starts);
      if AllDistinct(Names(units)) then Some(units) else None
  }

  lemma {:induction false} UnitsCover(lines: seq<string>, starts: seq<Start>, k: nat)
    requires InOrder(lines, starts) && k < |starts|
    ensures Concat(Bodies(UnitsFrom(lines, starts, k))) == Concat(lines[starts[k].at..])
    decreases |starts| - k
  {
    hide IsHeader, NameOf;
    var at, end := starts[k].at, EndOf(lines, starts, k);
    var rest := UnitsFrom(lines, starts, k + 1);
    BodiesCons(UnitAt(lines, starts, k), rest);
    if k + 1 < |starts| {
      UnitsCover(lines, starts, k + 1);
      assert lines[at..end] + lines[end..] == lines[at..];
      ConcatAppend(lines[at..end], lines[end..]);
    } else {
      assert lines[at..end] == lines[at..];
      assert Bodies(rest) == [];
    }
  }

  lemma BodiesCons(u: Unit, rest: seq<Unit>)
    ensures Concat(Bodies([u] + rest)) == u.body + Concat(Bodies(rest))
  {
    assert Bodies([u] + rest) == [u.body] + Bodies(rest);
    assert ([u.body] + Bodies(rest))[1..] == Bodies(rest);
  }

  lemma {:induction false} UnitsAt(lines: seq<string>, starts: seq<Start>, k: nat)
    requires InOrder(lines, starts) && k <= |starts|
    ensures |UnitsFrom(lines, starts, k)| == |starts| - k
    ensures forall m :: 0 <= m < |starts| - k ==> UnitsFrom(lines, starts, k)[m] == UnitAt(lines, starts, k + m)
    decreases |starts| - k
  {
    hide InOrder, UnitAt;
    if k < |starts| {
      UnitsAt(lines, starts, k + 1);
    }
  }

  lemma UnitIsNonEmpty(lines: seq<string>, starts: seq<Start>, k: nat)
    requires InOrder(lines, starts) && k < |starts| && forall i :: 0 <= i < |lines| ==> lines[i] != ""
    ensures UnitAt(lines, starts, k).body != ""
  {
    hide IsHeader, NameOf;
    var part := lines[starts[k].at..EndOf(lines, starts, k)];
    assert part != [] && part[0] != "";
  }

  lemma PiecesCover(lines: seq<string>, starts: seq<Start>)
    requires starts != [] && InOrder(lines, starts)
    ensures Concat(Bodies(Pieces(lines, starts))) == Concat(lines)
  {
    hide IsHeader, NameOf;
    var tail := UnitsFrom(lines, starts, 0);
    UnitsCover(lines, starts, 0);
    var at := starts[0].at;
    assert lines[..at] + lines[at..] == lines;
    ConcatAppend(lines[..at], lines[at..]);
    if at > 0 {
      BodiesCons(Unit(PREAMBLE, Concat(lines[..at])), tail);
    } else {
      assert Pieces(lines, starts) == tail;
    }
  }

  lemma PiecesAreNonEmpty(lines: seq<string>, starts: seq<Start>)
    requires starts != [] && InOrder(lines, starts) && forall i :: 0 <= i < |lines| ==> lines[i] != ""
    ensures Pieces(lines, starts) != []
    ensures forall i :: 0 <= i < |Pieces(lines, starts)| ==> Pieces(lines, starts)[i].body != ""
  {
    UnitsAt(lines, starts, 0);
    forall k: nat | k < |starts| ensures UnitAt(lines, starts, k).body != "" {
      UnitIsNonEmpty(lines, starts, k);
    }
    PreambleIsNonEmpty(lines, starts);
    hide InOrder, UnitAt, Concat, Preamble;
  }

  lemma PreambleIsNonEmpty(lines: seq<string>, starts: seq<Start>)
    requires starts != [] && InOrder(lines, starts) && forall i :: 0 <= i < |lines| ==> lines[i] != ""
    ensures forall i :: 0 <= i < |Preamble(lines, starts)| ==> Preamble(lines, starts)[i].body != ""
  {
    hide IsHeader, NameOf;
    var part := lines[..starts[0].at];
    assert part != [] ==> part[0] != "";
  }

  /** The units cut the text into non-empty pieces, in order and without loss, under distinct names. */
  lemma SegmentPartitions(text: string)
    requires Segment(text).Some?
    ensures var units := Segment(text).value;
            && units != [] && Concat(Bodies(units)) == text && AllDistinct(Names(units))
            && forall i :: 0 <= i < |units| ==> units[i].body != ""
  {
    var lines := KeepLines(text);
    var starts := Starts(lines, |lines|).value;
    StartsIncrease(lines, |lines|);
    KeepLinesKeeps(text);
    hide InOrder, KeepLines, Starts, Concat, AllDistinct, Pieces, Bodies, Names;
    PiecesCover(lines, starts);
    PiecesAreNonEmpty(lines, starts);
  }

  lemma HeaderElsewhere(lines: seq<string>, starts: seq<Start>, k: nat, m: nat)
    requires InOrder(lines, starts) && k < |starts| && m < |starts|
    ensures m == k || starts[m].header < starts[k].at || EndOf(lines, starts, k) <= starts[m].header
  {
    hide IsHeader, NameOf;
    if k + 1 < m {
      assert starts[k + 1].header < starts[m].at;
    }
  }

  /** Each unit after the preamble owns exactly one header, the one it is named by. */
  lemma UnitsOwnOneHeader(text: string, k: nat)
    requires Segment(text).Some?
    requires var lines := KeepLines(text); k < |Starts(lines, |lines|).value|
    ensures var lines := KeepLines(text);
            var starts := Starts(lines, |lines|).value;
            forall i :: starts[k].at <= i < EndOf(lines, starts, k) ==>
              i < |lines| && (IsHeader(lines[i]) <==> i == starts[k].header)
  {
    hide IsHeader, NameOf, Segment, Starts, KeepLines;
    var lines := KeepLines(text);
    StartsFound(text);
    var starts := Starts(lines, |lines|).value;
    StartsIncrease(lines, |lines|);
    forall i | starts[k].at <= i < EndOf(lines, starts, k) && i < |lines| && IsHeader(lines[i])
      ensures i == starts[k].header
    {
      var m :| 0 <= m < |starts| && starts[m].header == i;
      HeaderElsewhere(lines, starts, k, m);
    }
  }

  lemma StartsFound(text: string)
    requires Segment(text).Some?
    ensures Starts(KeepLines(text), |KeepLines(text)|).Some?
  {
  }

  // ---- The program's loops

  method FindStart(lines: seq<string>, i: nat) returns (k: nat)
    requires i <= |lines|
    ensures k == UnitStart(lines, i)
  {
    var j: nat := i;
    while j > 0 && IsComment(lines[j - 1])
      invariant j <= i && CommentStart(lines, i) == CommentStart(lines, j)
    {
      j := j - 1;
    }
    k := j;
    while k > 0 && IsBlank(lines[k - 1])
      invariant k <= j && BlankStart(lines, j) == BlankStart(lines, k)
    {
      k := k - 1;
    }
  }

  lemma {:induction false} StartsFailEarly(lines: seq<string>, n: nat, m: nat)
    requires n <= m <= |lines| && Starts(lines, n) == None
    ensures Starts(lines, m) == None
    decreases m
  {
    hide IsHeader, NameOf;
    if n < m {
      StartsFailEarly(lines, n, m - 1);
    }
  }

  method FindStarts(lines: seq<string>) returns (starts: Option<seq<Start>>)
    ensures starts == Starts(lines, |lines|)
  {
    hide IsHeader, NameOf;
    var found: seq<Start> := [];
    for i := 0 to |lines|
      invariant Starts(lines, i) == Some(found)
    {
      if !IsHeader(lines[i]) {
        continue;
      }
      var name := NameOf(lines[i]);
      if name == None {
        StartsFailEarly(lines, i + 1, |lines|);
        return None;
      }
      var k := FindStart(lines, i);
      found := found + [Start(k, i, name.value)];
    }
    return Some(found);
  }

  lemma {:induction false} UnitsSnoc(lines: seq<string>, starts: seq<Start>, n: nat)
    requires InOrder(lines, starts) && n < |starts|
    ensures n + 1 <= |UnitsFrom(lines, starts, 0)|
    ensures UnitsFrom(lines, starts, 0)[..n + 1] == UnitsFrom(lines, starts, 0)[..n] + [UnitAt(lines, starts, n)]
  {
    UnitsAt(lines, starts, 0);
    hide InOrder, UnitAt;
  }

  /** The program's `segment`: its checks for overlapping pieces and for a lossy partition are here as
      branches that cannot be reached. */
  method SegmentSnapshot(text: string) returns (r: Option<seq<Unit>>)
    ensures r == Segment(text)
  {
    hide IsHeader, NameOf, UnitAt, Starts, KeepLines;
    var lines := KeepLines(text);
    var found := FindStarts(lines);
    if found == None || found.value == [] {
      return None;
    }
    var starts := found.value;
    StartsIncrease(lines, |lines|);
    UnitsAt(lines, starts, 0);
    var segs: seq<Unit> := [];
    if starts[0].at > 0 {
      segs := segs + [Unit(PREAMBLE, Concat(lines[..starts[0].at]))];
    }
    for n := 0 to |starts|
      invariant segs == Preamble(lines, starts) + UnitsFrom(lines, starts, 0)[..n]
    {
      var end := if n + 1 < |starts| then starts[n + 1].at else |lines|;
      if end <= starts[n].at {
        assert false;
      }
      UnitsSnoc(lines, starts, n);
      UnitUnfolds(lines, starts, n);
      segs := segs + [Unit(starts[n].name, Concat(lines[starts[n].at..end]))];
    }
    assert segs == Pieces(lines, starts);
    if !AllDistinct(Names(segs)) {
      return None;
    }
    if Concat(Bodies(segs)) != text {
      PiecesCover(lines, starts);
      KeepLinesKeeps(text);
      assert false;
    }
    return Some(segs);
  }

  lemma UnitUnfolds(lines: seq<string>, starts: seq<Start>, k: nat)
    requires InOrder(lines, starts) && k < |starts|
    ensures UnitAt(lines, starts, k) == Unit(starts[k].name, Concat(lines[starts[k].at..EndOf(lines, starts, k)]))
  {
  }
}
