/** Lines as an author writes them: white space anywhere around the parts, a comment behind, either line
    end. Each line is read as exactly one of these forms says. */
module TomlLayout {
  import opened Text
  import opened TomlLexer
  import opened TomlParser
  import opened TomlItems

  predicate Space(s: string) { forall i :: 0 <= i < |s| ==> IsSpace(Js, s[i]) }

  /** Nothing, or a comment that begins outside quotes. */
  predicate Remark(content: string, tail: string) {
    tail == "" || (tail[0] == '#' && After(Plain, content) == Plain)
  }

  /** No comment begins in the content. */
  predicate Visible(content: string) { Reach(Plain, content, '#') == |content| }

  /** A line whose content, trimmed and before any comment, is this. */
  ghost predicate Holds(line: string, content: string) {
    exists before, behind, tail :: LaidOut(line, content, before, behind, tail)
  }

  predicate LaidOut(line: string, content: string, before: string, behind: string, tail: string) {
    line == before + content + behind + tail && Space(before) && Space(behind) && Tight(Js, content)
    && Visible(content) && Remark(content, tail)
  }

  // ---- White space

  lemma {:induction false} SpaceScans(q: QuoteState, s: string, mark: char)
    requires Space(s) && mark in {'#', '=', ','}
    ensures After(q, s) == q && Reach(q, s, mark) == |s|
  {
    if s != "" {
      assert IsSpace(Js, s[0]);
      assert Toggle(q, s[0]) == q;
      SpaceScans(q, s[1..], mark);
    }
  }

  lemma {:induction false} TrimStartSpace(s: string, t: string)
    requires Space(s)
    ensures TrimStart(Js, s + t) == TrimStart(Js, t)
  {
    if s == "" {
      assert s + t == t;
    } else {
      assert (s + t)[1..] == s[1..] + t;
      TrimStartSpace(s[1..], t);
    }
  }

  lemma {:induction false} TrimEndSpace(s: string, t: string)
    requires Space(t)
    ensures TrimEnd(Js, s + t) == TrimEnd(Js, s)
    decreases |t|
  {
    if t == "" {
      assert s + t == s;
    } else {
      assert (s + t)[..|s + t| - 1] == s + t[..|t| - 1];
      TrimEndSpace(s, t[..|t| - 1]);
    }
  }

  /** Space around a tight text is trimmed away. */
  lemma TrimPadded(before: string, s: string, behind: string)
    requires Space(before) && Space(behind) && Tight(Js, s)
    ensures Trim(Js, before + s + behind) == s
  {
    assert before + s + behind == before + (s + behind);
    TrimStartSpace(before, s + behind);
    if s == "" {
      assert s + behind == behind + "";
      TrimStartSpace(behind, "");
    } else {
      assert (s + behind)[0] == s[0];
      TrimEndSpace(s, behind);
      TightIsFixed(Js, s);
    }
  }

  /** Every text is its trimmed form with space around it. */
  lemma Padded(s: string) returns (before: string, behind: string)
    ensures s == before + Trim(Js, s) + behind && Space(before) && Space(behind) && Tight(Js, Trim(Js, s))
  {
    TrimIsTight(Js, s);
    var mid := TrimStart(Js, s);
    TrimStartSuffix(Js, s);
    DroppedIsSpace(s);
    before := s[..|s| - |mid|];
    TrimEndPrefix(Js, mid);
    behind := mid[|Trim(Js, s)|..];
  }

  lemma {:induction false} DroppedIsSpace(s: string)
    ensures |TrimStart(Js, s)| <= |s| && Space(s[..|s| - |TrimStart(Js, s)|])
  {
    if s != "" && IsSpace(Js, s[0]) {
      DroppedIsSpace(s[1..]);
      var n := |s| - |TrimStart(Js, s)|;
      assert s[..n] == [s[0]] + s[1..][..n - 1];
    }
  }

  // ---- Contents

  lemma {:induction false} CutIsOutside(q: QuoteState, s: string, mark: char)
    requires mark in {'#', '=', ','} && Reach(q, s, mark) < |s|
    ensures After(q, s[..Reach(q, s, mark)]) == Plain
    decreases s
  {
    var k := Reach(q, s, mark);
    if k > 0 {
      CutIsOutside(Toggle(q, s[0]), s[1..], mark);
      assert s[..k][1..] == s[1..][..k - 1];
    }
  }

  /** The content is what is left of the line, whatever the layout. */
  lemma LaidOutIsCleaned(line: string, content: string, before: string, behind: string, tail: string)
    requires LaidOut(line, content, before, behind, tail)
    ensures Trim(Js, Uncommented(line)) == content
  {
    var body := before + content + behind;
    hide TrimStart, TrimEnd;
    SpaceScans(Plain, before, '#');
    AfterConcat(Plain, before, content);
    ReachConcat(Plain, before, content, '#');
    SpaceScans(After(Plain, content), behind, '#');
    AfterConcat(Plain, before + content, behind);
    ReachConcat(Plain, before + content, behind, '#');
    assert line == body + tail;
    ReachConcat(Plain, body, tail, '#');
    assert tail != "" ==> Reach(Plain, tail, '#') == 0;
    assert line[..|body|] == body;
    TrimPadded(before, content, behind);
    TightIsFixed(Js, content);
  }

  /** Every line has such a content. */
  lemma CleanedIsLaidOut(line: string)
    ensures Holds(line, Trim(Js, Uncommented(line)))
  {
    var k := Reach(Plain, line, '#');
    var body, tail := line[..k], line[k..];
    var before, behind := Padded(body);
    var content := Trim(Js, body);
    TightIsFixed(Js, content);
    hide TrimStart, TrimEnd, Toggle;
    assert line == body + tail;
    ReachConcat(Plain, body, tail, '#');
    assert body == before + content + behind;
    SpaceScans(Plain, before, '#');
    AfterConcat(Plain, before, content);
    ReachConcat(Plain, before, content, '#');
    SpaceScans(After(Plain, content), behind, '#');
    AfterConcat(Plain, before + content, behind);
    ReachConcat(Plain, before + content, behind, '#');
    if tail != "" {
      CutIsOutside(Plain, line, '#');
    }
    assert LaidOut(line, content, before, behind, tail);
  }

  lemma HoldsMeans(line: string, content: string)
    ensures Holds(line, content) <==> content == Trim(Js, Uncommented(line))
  {
    hide LaidOut, TrimStart, TrimEnd, Uncommented;
    CleanedIsLaidOut(line);
    if before, behind, tail :| LaidOut(line, content, before, behind, tail) {
      LaidOutIsCleaned(line, content, before, behind, tail);
    }
  }

  // ---- The forms

  /** `key = literal`, with space around the parts. */
  ghost predicate PairForm(content: string, key: string, raw: string) {
    exists a, b :: PairLaidOut(content, key, raw, a, b)
  }

  predicate PairLaidOut(content: string, key: string, raw: string, a: string, b: string) {
    content == key + a + "=" + b + raw && BareKey(key) && Space(a) && Space(b) && Tight(Js, raw)
  }

  /** `[name]`, with space around the name; two brackets open no section. */
  ghost predicate HeaderForm(content: string, name: string) {
    exists a, b :: HeaderLaidOut(content, name, a, b)
  }

  predicate HeaderLaidOut(content: string, name: string, a: string, b: string) {
    content == "[" + a + name + b + "]" && Space(a) && Space(b) && Tight(Js, name) && !("[" <= a + name + b)
  }

  lemma PairScans(key: string, a: string, rest: string)
    requires BareKey(key) && Space(a)
    ensures Reach(Plain, key + a + "=" + rest, '=') == |key| + |a|
  {
    BareKeyText(key);
    PlainText(Plain, key, '=');
    SpaceScans(Plain, a, '=');
    assert key + a + "=" + rest == key + (a + ("=" + rest));
    ReachConcat(Plain, key, a + ("=" + rest), '=');
    ReachConcat(Plain, a, "=" + rest, '=');
  }

  lemma PairFormIsPair(content: string, key: string, raw: string, a: string, b: string)
    requires PairLaidOut(content, key, raw, a, b) && Tight(Js, content)
    ensures content != "" && content[0] != '[' && EqualsIndex(content) == |key| + |a| > 0
    ensures Trim(Js, content[..|key| + |a|]) == key && Trim(Js, content[|key| + |a| + 1..]) == raw && '.' !in key
  {
    hide TrimStart, TrimEnd, Reach;
    BareKeyText(key);
    assert content == key + a + "=" + (b + raw);
    PairScans(key, a, b + raw);
    assert content[0] == key[0];
    assert content[..|key| + |a|] == "" + key + a && content[|key| + |a| + 1..] == b + raw + "";
    TrimPadded("", key, a);
    TrimPadded(b, raw, "");
  }

  lemma Ends(a: string, b: string)
    ensures a != "" ==> (a + b)[0] == a[0]
    ensures b != "" ==> (a + b)[|a + b| - 1] == b[|b| - 1]
  {
  }

  lemma OneBracket(inner: string)
    ensures "[[" <= "[" + inner + "]" <==> "[" <= inner
  {
    var content := "[" + inner + "]";
    assert content[1] == if inner == "" then ']' else inner[0];
  }

  /** A tight text has no space at its ends. */
  lemma NoOuterSpace(before: string, mid: string, behind: string)
    requires Space(before) && Space(behind) && Tight(Js, before + mid + behind)
    ensures before == "" && behind == ""
  {
    Ends(before, mid + behind);
    Ends(before + mid, behind);
    assert before + mid + behind == before + (mid + behind);
  }

  lemma PairIsForm(content: string)
    requires Tight(Js, content) && content != "" && EqualsIndex(content) > 0
    requires BareKey(Trim(Js, content[..EqualsIndex(content)]))
    ensures var at := EqualsIndex(content); PairForm(content, Trim(Js, content[..at]), Trim(Js, content[at + 1..]))
  {
    hide TrimStart, TrimEnd, Reach, Tight, Space;
    var at := EqualsIndex(content);
    var left, right := content[..at], content[at + 1..];
    var before, a := Padded(left);
    var b, behind := Padded(right);
    var key, raw := Trim(Js, left), Trim(Js, right);
    PairJoined(before, key, a, b, raw, behind);
    assert content == left + "=" + right;
    NoOuterSpace(before, key + a + "=" + b + raw, behind);
    assert PairLaidOut(content, key, raw, a, b);
  }

  lemma PairJoined(before: string, key: string, a: string, b: string, raw: string, behind: string)
    ensures (before + key + a) + "=" + (b + raw + behind) == before + (key + a + "=" + b + raw) + behind
    ensures "" + (key + a + "=" + b + raw) + "" == key + a + "=" + b + raw
  {
  }

  lemma HeaderFormIsHeader(content: string, name: string, a: string, b: string)
    requires HeaderLaidOut(content, name, a, b)
    ensures content != "" && content[0] == '[' && EndsWith(content, "]") && !StartsWith(content, "[[")
    ensures Trim(Js, content[1..|content| - 1]) == name
  {
    hide TrimStart, TrimEnd;
    var inner := a + name + b;
    assert content == "[" + (inner + "]") && content[1..|content| - 1] == inner;
    TrimPadded(a, name, b);
    assert content == "[" + inner + "]";
    OneBracket(inner);
  }

  lemma HeaderIsForm(content: string)
    requires content != "" && content[0] == '[' && EndsWith(content, "]") && !StartsWith(content, "[[")
    ensures HeaderForm(content, Trim(Js, content[1..|content| - 1]))
  {
    hide TrimStart, TrimEnd;
    assert |content| > 1 by {
      assert content[|content| - 1..] == "]";
    }
    var inner := content[1..|content| - 1];
    var a, b := Padded(inner);
    assert content == "[" + inner + "]";
    OneBracket(inner);
    assert HeaderLaidOut(content, Trim(Js, inner), a, b);
  }

  /** A line is blank, a header or an assignment exactly when its content has that form, and refused
      otherwise. */
  lemma LineMeans(line: string)
    ensures Classify(line) == Blank <==> Holds(line, "")
    ensures forall name :: Classify(line) == Header(name) <==> exists c :: Holds(line, c) && HeaderForm(c, name)
    ensures forall key, raw :: Classify(line) == Pair(key, raw) <==> exists c :: Holds(line, c) && PairForm(c, key, raw)
  {
    var content := Trim(Js, Uncommented(line));
    TrimIsTight(Js, Uncommented(line));
    hide Holds, Uncommented, TrimStart, TrimEnd, HeaderForm, PairForm;
    forall c ensures Holds(line, c) <==> c == content {
      HoldsMeans(line, c);
    }
    forall name ensures Classify(line) == Header(name) <==> HeaderForm(content, name) {
      HeaderMeans(line, content, name);
    }
    forall key, raw ensures Classify(line) == Pair(key, raw) <==> PairForm(content, key, raw) {
      PairMeans(line, content, key, raw);
    }
  }

  lemma HeaderMeans(line: string, content: string, name: string)
    requires content == Trim(Js, Uncommented(line))
    ensures Classify(line) == Header(name) <==> HeaderForm(content, name)
  {
    hide TrimStart, TrimEnd, Uncommented, HeaderLaidOut, EqualsIndex, BareKey;
    if a, b :| HeaderLaidOut(content, name, a, b) {
      HeaderFormIsHeader(content, name, a, b);
    }
    if Classify(line) == Header(name) {
      HeaderIsForm(content);
    }
  }

  lemma PairMeans(line: string, content: string, key: string, raw: string)
    requires content == Trim(Js, Uncommented(line)) && Tight(Js, content)
    ensures Classify(line) == Pair(key, raw) <==> PairForm(content, key, raw)
  {
    hide TrimStart, TrimEnd, Uncommented, PairLaidOut, EqualsIndex, BareKey, Tight;
    if a, b :| PairLaidOut(content, key, raw, a, b) {
      PairFormIsPair(content, key, raw, a, b);
      KeyIsBare(content, key, raw, a, b);
    }
    if Classify(line) == Pair(key, raw) {
      PairIsForm(content);
    }
  }

  lemma KeyIsBare(content: string, key: string, raw: string, a: string, b: string)
    requires PairLaidOut(content, key, raw, a, b)
    ensures BareKey(key)
  {
  }

  // ---- The whole line of a literal

  /** Whatever the layout, an assignment's line reads as its key and its literal; the literal's comment marks
      stand inside quotes. */
  lemma LiteralLine(before: string, key: string, a: string, b: string, raw: string, behind: string, tail: string)
    requires BareKey(key) && raw != "" && Tight(Js, raw) && Visible(raw) && Remark(raw, tail)
    requires Space(before) && Space(a) && Space(b) && Space(behind)
    ensures Classify(before + key + a + "=" + b + raw + behind + tail) == Pair(key, raw)
  {
    var head := key + a + "=" + b;
    var content := head + raw;
    var line := before + key + a + "=" + b + raw + behind + tail;
    ContentScans(key, a, b, raw);
    hide Reach, After, TrimStart, TrimEnd;
    BareKeyText(key);
    assert content[0] == key[0] && content[|content| - 1] == raw[|raw| - 1];
    assert line == before + content + behind + tail;
    LaidOutIsCleaned(line, content, before, behind, tail);
    assert content == key + a + "=" + b + raw;
    PairFormIsPair(content, key, raw, a, b);
  }

  lemma ContentScans(key: string, a: string, b: string, raw: string)
    requires BareKey(key) && Space(a) && Space(b)
    ensures var content := key + a + "=" + b + raw;
            Reach(Plain, content, '#') == |key| + |a| + 1 + |b| + Reach(Plain, raw, '#') && After(Plain, content) == After(Plain, raw)
  {
    BareKeyText(key);
    PlainText(Plain, key, '#');
    PlainText(Plain, "=", '#');
    SpaceScans(Plain, a, '#');
    SpaceScans(Plain, b, '#');
    hide Reach, After;
    assert key + a + "=" + b + raw == key + (a + ("=" + (b + raw)));
    ReachConcat(Plain, key, a + ("=" + (b + raw)), '#');
    ReachConcat(Plain, a, "=" + (b + raw), '#');
    ReachConcat(Plain, "=", b + raw, '#');
    ReachConcat(Plain, b, raw, '#');
    AfterConcat(Plain, key, a + ("=" + (b + raw)));
    AfterConcat(Plain, a, "=" + (b + raw));
    AfterConcat(Plain, "=", b + raw);
    AfterConcat(Plain, b, raw);
  }

  lemma {:induction false} InSingleScan(s: string, mark: char)
    requires '\'' !in s
    ensures After(InSingle, s) == InSingle && Reach(InSingle, s, mark) == |s|
  {
    if s != "" {
      InSingleScan(s[1..], mark);
    }
  }

  /** Between single quotes nothing is a comment or an escape. */
  lemma SingleQuotedIsVisible(s: string)
    requires '\'' !in s
    ensures Visible("'" + s + "'") && After(Plain, "'" + s + "'") == Plain && Tight(Js, "'" + s + "'")
  {
    InSingleScan(s, '#');
    var v := "'" + s + "'";
    assert v == "'" + (s + "'");
    AfterConcat(Plain, "'", s + "'");
    AfterConcat(InSingle, s, "'");
    ReachConcat(Plain, "'", s + "'", '#');
    ReachConcat(InSingle, s, "'", '#');
    assert "'"[1..] == "";
    assert After(Plain, "'") == After(InSingle, "") == InSingle;
    assert After(InSingle, "'") == After(Plain, "") == Plain;
    assert Reach(Plain, "'", '#') == 1 + Reach(InSingle, "", '#');
    assert Reach(InSingle, "'", '#') == 1 + Reach(Plain, "", '#');
  }

  // ---- Lines of a text

  datatype Ended = Ended(text: string, crlf: bool)

  /** Lines with their line ends, and what stands after the last end. */
  function Written(lines: seq<Ended>, last: string): string {
    if lines == [] then last
    else lines[0].text + (if lines[0].crlf then "\r\n" else "\n") + Written(lines[1..], last)
  }

  function TextsOf(lines: seq<Ended>): seq<string> {
    if lines == [] then [] else [lines[0].text] + TextsOf(lines[1..])
  }

  /** Either line end ends a line and is no part of it. */
  lemma {:induction false} LinesAreSplit(lines: seq<Ended>, last: string)
    requires '\n' !in last
    requires forall i :: 0 <= i < |lines| ==> '\n' !in lines[i].text && (!lines[i].crlf ==> !EndsWith(lines[i].text, "\r"))
    ensures SplitLines(Written(lines, last)) == TextsOf(lines) + [last]
    decreases lines
  {
    if lines == [] {
      SplitNone(last, '\n');
    } else {
      var first := lines[0];
      assert '\n' !in first.text && (!first.crlf ==> !EndsWith(first.text, "\r"));
      var rest := Written(lines[1..], last);
      LinesAreSplit(lines[1..], last);
      FirstLineIsSplit(first, rest);
      hide SplitLines, EndsWith;
      assert [first.text] + (TextsOf(lines[1..]) + [last]) == TextsOf(lines) + [last];
    }
  }

  lemma FirstLineIsSplit(first: Ended, rest: string)
    requires '\n' !in first.text && (!first.crlf ==> !EndsWith(first.text, "\r"))
    ensures SplitLines(first.text + (if first.crlf then "\r\n" else "\n") + rest) == [first.text] + SplitLines(rest)
  {
    var body := first.text + if first.crlf then "\r" else "";
    var end := if first.crlf then "\r\n" else "\n";
    assert first.text + end + rest == body + ['\n'] + rest;
    SplitFirst(body, rest, '\n');
    var cut := [body] + SplitOn(rest, '\n');
    assert cut[1..] == SplitOn(rest, '\n');
    hide SplitOn;
    if first.crlf {
      assert body[|body| - 1..] == "\r" && body[..|body| - 1] == first.text;
    } else {
      assert body == first.text;
    }
  }

  /** The path of a header: its segments, with space around each. */
  lemma PathIsTrimmed(names: seq<string>, padded: seq<string>)
    requires names != [] && |padded| == |names|
    requires forall i :: 0 <= i < |names| ==> '.' !in padded[i] && Trim(Js, padded[i]) == names[i]
    ensures SectionPath(Join(padded, ".")) == names
  {
    forall p | p in padded ensures '.' !in p {
      var i :| 0 <= i < |padded| && padded[i] == p;
    }
    SplitOfJoin(padded, '.');
  }
}
