/** The line-oriented fence scan: prose outside all fences, and the contents of top-level json fences. */
module PacketFences {
  import opened Text

  // ---- Marker lines

  /** How many of a character the text starts with. */
  function RunOf(s: string, c: char): (n: nat)
    ensures n <= |s|
    ensures forall i :: 0 <= i < n ==> s[i] == c
    ensures n < |s| ==> s[n] != c
  {
    if s == "" || s[0] != c then 0 else 1 + RunOf(s[1..], c)
  }

  predicate IsMarkerChar(c: char) { c == '`' || c == '~' }

  datatype Marker = Marker(c: char, length: nat, info: string)

  /** At most three spaces, then at least three backticks or tildes. */
  function OpenerOf(line: string): (m: Option<Marker>)
    ensures m.Some? ==> IsMarkerChar(m.value.c) && m.value.length >= 3
  {
    var indent := RunOf(line, ' ');
    var rest := line[indent..];
    if indent > 3 || rest == "" || !IsMarkerChar(rest[0]) || RunOf(rest, rest[0]) < 3 then None
    else Some(Marker(rest[0], RunOf(rest, rest[0]), rest[RunOf(rest, rest[0])..]))
  }

  predicate Blank(s: string) { forall i :: 0 <= i < |s| ==> IsSpace(Py, s[i]) }

  /** At most three spaces, at least as many of the same character, then white space only. */
  predicate Closes(line: string, c: char, length: nat) {
    var indent := RunOf(line, ' ');
    var rest := line[indent..];
    indent <= 3 && RunOf(rest, c) >= length && Blank(rest[RunOf(rest, c)..])
  }

  /** A line closes a fence exactly when it could open one of the same character and at least its
      length, with nothing after the marker. */
  lemma CloserIsBareOpener(line: string, c: char, length: nat)
    requires IsMarkerChar(c) && length >= 3
    ensures Closes(line, c, length) <==>
            var m := OpenerOf(line);
            m.Some? && m.value.c == c && m.value.length >= length && Blank(m.value.info)
  {
  }

  predicate IsJson(m: Marker) { m.c == '`' && Trim(Py, m.info) == "json" }

  // ---- The scan as a function

  datatype Fence = Outside | Inside(c: char, length: nat, isJson: bool, buf: seq<string>)

  datatype Scan = Scan(prose: seq<string>, jsons: seq<string>, fence: Fence)

  const START := Scan([], [], Outside)

  function Step(s: Scan, line: string): Scan {
    match s.fence
    case Inside(c, length, isJson, buf) =>
      if Closes(line, c, length) then
        Scan(s.prose, if isJson then s.jsons + [Join(buf, "\n")] else s.jsons, Outside)
      else s.(fence := Inside(c, length, isJson, if isJson then buf + [line] else buf))
    case Outside =>
      match OpenerOf(line)
      case Some(m) => s.(fence := Inside(m.c, m.length, IsJson(m), []))
      case None => s.(prose := s.prose + [line])
  }

  function Run(s: Scan, lines: seq<string>): Scan
    decreases lines
  {
    if lines == [] then s else Run(Step(s, lines[0]), lines[1..])
  }

  /** The program's `_scan_fences`, on the lines of the document. */
  method ScanFences(lines: seq<string>) returns (prose: string, jsons: seq<string>)
    ensures prose == Join(Run(START, lines).prose, "\n") && jsons == Run(START, lines).jsons
  {
    var proseLines: seq<string> := [];
    jsons := [];
    var inFence, c, length: nat, isJson, buf := false, ' ', 0, false, [];
    ghost var rest := lines;
    for i := 0 to |lines|
      invariant rest == lines[i..]
      invariant Run(START, lines) == Run(Scan(proseLines, jsons, if inFence then Inside(c, length, isJson, buf) else Outside), rest)
      invariant !inFence ==> buf == []
    {
      var line := lines[i];
      assert rest[0] == line;
      rest := rest[1..];
      if inFence {
        if Closes(line, c, length) {
          if isJson {
            jsons := jsons + [Join(buf, "\n")];
          }
          inFence := false;
          buf := [];
          continue;
        }
        if isJson {
          buf := buf + [line];
        }
        continue;
      }
      var m := OpenerOf(line);
      if m.Some? {
        inFence := true;
        c := m.value.c;
        length := m.value.length;
        isJson := IsJson(m.value);
        continue;
      }
      proseLines := proseLines + [line];
    }
    prose := Join(proseLines, "\n");
  }

  // ---- Composition

  lemma {:induction false} RunConcat(s: Scan, a: seq<string>, b: seq<string>)
    ensures Run(s, a + b) == Run(Run(s, a), b)
    decreases a
  {
    hide Step;
    if a == [] {
      assert a + b == b;
    } else {
      assert (a + b)[1..] == a[1..] + b;
      RunConcat(Step(s, a[0]), a[1..], b);
    }
  }

  /** The same scan with earlier results put in front. */
  function Prefixed(prose: seq<string>, jsons: seq<string>, s: Scan): Scan {
    Scan(prose + s.prose, jsons + s.jsons, s.fence)
  }

  /** What was found before has no part in what is found next. */
  lemma {:induction false} RunIsLocal(prose: seq<string>, jsons: seq<string>, s: Scan, lines: seq<string>)
    ensures Run(Prefixed(prose, jsons, s), lines) == Prefixed(prose, jsons, Run(s, lines))
    decreases lines
  {
    if lines != [] {
      StepIsLocal(prose, jsons, s, lines[0]);
      RunIsLocal(prose, jsons, Step(s, lines[0]), lines[1..]);
    }
  }

  lemma StepIsLocal(prose: seq<string>, jsons: seq<string>, s: Scan, line: string)
    ensures Step(Prefixed(prose, jsons, s), line) == Prefixed(prose, jsons, Step(s, line))
  {
    hide Closes, OpenerOf, IsJson, Join;
    var next := Step(s, line);
    assert prose + (s.prose + [line]) == (prose + s.prose) + [line];
    if s.fence.Inside? {
      assert jsons + (s.jsons + [Join(s.fence.buf, "\n")]) == (jsons + s.jsons) + [Join(s.fence.buf, "\n")];
    }
  }

  lemma {:induction false} BodyIsSwallowed(s: Scan, body: seq<string>)
    requires s.fence.Inside? && forall i :: 0 <= i < |body| ==> !Closes(body[i], s.fence.c, s.fence.length)
    ensures Run(s, body) == s.(fence := s.fence.(buf := if s.fence.isJson then s.fence.buf + body else s.fence.buf))
    decreases body
  {
    hide Closes;
    if body == [] {
      assert s.fence.buf + body == s.fence.buf;
    } else {
      var next := Step(s, body[0]);
      assert !Closes(body[0], s.fence.c, s.fence.length);
      BodyIsSwallowed(next, body[1..]);
      assert s.fence.buf + [body[0]] + body[1..] == s.fence.buf + body;
    }
  }

  /** A closed fence adds nothing to the prose, and one json block exactly when its opener is a backtick
      json fence, whatever its body holds short of a closing line. */
  lemma FenceAddsItsBlock(s: Scan, open: string, body: seq<string>, close: string)
    requires s.fence == Outside && OpenerOf(open).Some?
    requires var m := OpenerOf(open).value;
             (forall i :: 0 <= i < |body| ==> !Closes(body[i], m.c, m.length)) && Closes(close, m.c, m.length)
    ensures Run(s, [open] + body + [close]) ==
            Scan(s.prose, if IsJson(OpenerOf(open).value) then s.jsons + [Join(body, "\n")] else s.jsons, Outside)
  {
    hide Closes, OpenerOf, IsJson;
    var m := OpenerOf(open).value;
    var inside := Step(s, open);
    assert Run(s, [open]) == inside by { RunOne(s, open); }
    RunConcat(s, [open] + body, [close]);
    RunConcat(s, [open], body);
    BodyIsSwallowed(inside, body);
    assert [] + body == body;
    RunOne(Run(inside, body), close);
  }

  lemma RunOne(s: Scan, line: string)
    ensures Run(s, [line]) == Step(s, line)
  {
    hide Step;
    assert [line][1..] == [];
  }

  /** Cutting a closed fence out of a document changes nothing but the block it holds: the prose is that
      of the text around it, and its block stands between the blocks before and after. */
  lemma FencesCompose(before: seq<string>, open: string, body: seq<string>, close: string, after: seq<string>)
    requires Run(START, before).fence == Outside && OpenerOf(open).Some?
    requires var m := OpenerOf(open).value;
             (forall i :: 0 <= i < |body| ==> !Closes(body[i], m.c, m.length)) && Closes(close, m.c, m.length)
    ensures var whole, a, b := Run(START, before + ([open] + body + [close]) + after), Run(START, before), Run(START, after);
            && whole.prose == a.prose + b.prose == Run(START, before + after).prose
            && whole.jsons == a.jsons + (if IsJson(OpenerOf(open).value) then [Join(body, "\n")] else []) + b.jsons
            && whole.fence == b.fence
  {
    hide Closes, OpenerOf, IsJson, Run, Join;
    var fenced := [open] + body + [close];
    RunConcat(START, before + fenced, after);
    RunConcat(START, before, fenced);
    RunConcat(START, before, after);
    var a := Run(START, before);
    FenceAddsItsBlock(a, open, body, close);
    var mid := Run(a, fenced);
    assert mid == Prefixed(mid.prose, mid.jsons, START);
    RunIsLocal(mid.prose, mid.jsons, START, after);
    assert a == Prefixed(a.prose, a.jsons, START);
    RunIsLocal(a.prose, a.jsons, START, after);
  }

  // ---- Every document is made of prose lines and fences

  datatype Item =
    | Line(text: string)
    | Fenced(open: string, body: seq<string>, close: string)
    | Unclosed(open: string, body: seq<string>)

  function ItemLines(x: Item): seq<string> {
    match x
    case Line(text) => [text]
    case Fenced(open, body, close) => [open] + body + [close]
    case Unclosed(open, body) => [open] + body
  }

  function AllLines(xs: seq<Item>): seq<string> {
    if xs == [] then [] else ItemLines(xs[0]) + AllLines(xs[1..])
  }

  predicate Swallowed(open: string, body: seq<string>) {
    OpenerOf(open).Some? && forall i :: 0 <= i < |body| ==> !Closes(body[i], OpenerOf(open).value.c, OpenerOf(open).value.length)
  }

  /** Prose lines open no fence, bodies hold no closing line, and a fence left open is the last item. */
  predicate WellFenced(xs: seq<Item>) {
    xs == [] ||
    (&& (match xs[0]
         case Line(text) => OpenerOf(text) == None
         case Fenced(open, body, close) =>
           Swallowed(open, body) && Closes(close, OpenerOf(open).value.c, OpenerOf(open).value.length)
         case Unclosed(open, body) => Swallowed(open, body) && |xs| == 1)
     && WellFenced(xs[1..]))
  }

  function ProseOf(xs: seq<Item>): seq<string> {
    if xs == [] then [] else (if xs[0].Line? then [xs[0].text] else []) + ProseOf(xs[1..])
  }

  function JsonsOf(xs: seq<Item>): seq<string>
    requires WellFenced(xs)
  {
    if xs == [] then []
    else (if xs[0].Fenced? && IsJson(OpenerOf(xs[0].open).value) then [Join(xs[0].body, "\n")] else []) + JsonsOf(xs[1..])
  }

  function ProseOfOne(x: Item): seq<string> { if x.Line? then [x.text] else [] }

  function JsonsOfOne(x: Item): seq<string>
    requires x.Fenced? ==> OpenerOf(x.open).Some?
  {
    if x.Fenced? && IsJson(OpenerOf(x.open).value) then [Join(x.body, "\n")] else []
  }

  lemma ItemIsRead(s: Scan, x: Item)
    requires s.fence == Outside && WellFenced([x])
    ensures var r := Run(s, ItemLines(x));
            && r.prose == s.prose + ProseOfOne(x) && r.jsons == s.jsons + JsonsOfOne(x)
            && (!x.Unclosed? ==> r.fence == Outside)
  {
    hide Closes, OpenerOf, IsJson, Join, Run;
    match x
    case Line(text) =>
      RunOne(s, text);
    case Fenced(open, body, close) =>
      FenceAddsItsBlock(s, open, body, close);
    case Unclosed(open, body) =>
      RunConcat(s, [open], body);
      RunOne(s, open);
      BodyIsSwallowed(Step(s, open), body);
  }

  lemma OneIsWellFenced(xs: seq<Item>)
    requires WellFenced(xs) && xs != []
    ensures AllLines(xs) == ItemLines(xs[0]) + AllLines(xs[1..])
    ensures WellFenced([xs[0]]) && WellFenced(xs[1..]) && (xs[0].Unclosed? ==> |xs| == 1)
    ensures ProseOf(xs) == ProseOfOne(xs[0]) + ProseOf(xs[1..])
    ensures xs[0].Fenced? ==> OpenerOf(xs[0].open).Some?
    ensures JsonsOf(xs) == JsonsOfOne(xs[0]) + JsonsOf(xs[1..])
  {
    hide Closes, OpenerOf, IsJson, Join;
    assert [xs[0]][1..] == [];
  }

  /** The scan reads a document as its items say. */
  lemma {:induction false} ScanReadsItems(s: Scan, xs: seq<Item>)
    requires s.fence == Outside && WellFenced(xs)
    ensures Run(s, AllLines(xs)).prose == s.prose + ProseOf(xs)
    ensures Run(s, AllLines(xs)).jsons == s.jsons + JsonsOf(xs)
    decreases xs
  {
    if xs != [] {
      OneIsWellFenced(xs);
      hide *;
      var x, rest := xs[0], xs[1..];
      RunConcat(s, ItemLines(x), AllLines(rest));
      ItemIsRead(s, x);
      var next := Run(s, ItemLines(x));
      if x.Unclosed? {
        assert rest == [];
        NothingLeft(next);
      } else {
        ScanReadsItems(next, rest);
      }
      Append3(s.prose, ProseOfOne(x), ProseOf(rest));
      Append3(s.jsons, JsonsOfOne(x), JsonsOf(rest));
    } else {
      NothingLeft(s);
      assert s.prose + [] == s.prose && s.jsons + [] == s.jsons;
    }
  }

  lemma Append3(a: seq<string>, b: seq<string>, c: seq<string>)
    ensures a + b + c == a + (b + c)
  {
  }

  lemma NothingLeft(s: Scan)
    ensures Run(s, AllLines([])) == s && ProseOf([]) == [] && WellFenced([]) && JsonsOf([]) == []
  {
  }

  /** Every document has such items. */
  lemma {:induction false} EveryDocumentHasItems(lines: seq<string>) returns (xs: seq<Item>)
    ensures WellFenced(xs) && AllLines(xs) == lines
    decreases |lines|
  {
    hide Closes, OpenerOf;
    if lines == [] {
      xs := [];
    } else if OpenerOf(lines[0]) == None {
      var rest := EveryDocumentHasItems(lines[1..]);
      xs := [Line(lines[0])] + rest;
      assert xs[1..] == rest;
      assert [lines[0]] + lines[1..] == lines;
    } else {
      var m := OpenerOf(lines[0]).value;
      var n := FirstCloser(lines[1..], m.c, m.length);
      var body := lines[1..][..n];
      if 1 + n == |lines| {
        xs := [Unclosed(lines[0], body)];
        assert xs[1..] == [];
        assert [lines[0]] + body + [] == lines;
      } else {
        var rest := EveryDocumentHasItems(lines[n + 2..]);
        xs := [Fenced(lines[0], body, lines[n + 1])] + rest;
        assert xs[1..] == rest;
        assert lines[1..][n] == lines[n + 1];
        assert [lines[0]] + body + [lines[n + 1]] + lines[n + 2..] == lines;
      }
    }
  }

  lemma {:induction false} FirstCloser(lines: seq<string>, c: char, length: nat) returns (n: nat)
    ensures n <= |lines| && (forall i :: 0 <= i < n ==> !Closes(lines[i], c, length))
    ensures n < |lines| ==> Closes(lines[n], c, length)
    decreases lines
  {
    hide Closes;
    if lines == [] || Closes(lines[0], c, length) {
      n := 0;
    } else {
      var m := FirstCloser(lines[1..], c, length);
      n := m + 1;
      assert forall i :: 0 < i < n ==> lines[i] == lines[1..][i - 1];
    }
  }
}
