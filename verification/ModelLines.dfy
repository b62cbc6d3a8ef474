/** Marked texts line by line: markers never span lines, so replacing and counting them works on each
    line by itself. */
module ModelLines {
  import opened Text
  import opened ModelMarkers

  // ---- Lines of a tidy text

  lemma {:induction false} SplitAcross(u: string, rest: string, sep: char)
    requires sep !in u
    ensures SplitOn(u + rest, sep) == [u + SplitOn(rest, sep)[0]] + SplitOn(rest, sep)[1..]
    decreases u
  {
    var parts := SplitOn(rest, sep);
    if u == "" {
      assert u + rest == rest;
      assert "" + parts[0] == parts[0];
    } else {
      assert (u + rest)[1..] == u[1..] + rest;
      SplitAcross(u[1..], rest, sep);
      assert [u[0]] + (u[1..] + parts[0]) == u + parts[0];
    }
  }

  lemma {:induction false} FirstLinePrefix(s: string, sep: char)
    ensures SplitOn(s, sep)[0] <= s
  {
    if s != "" {
      FirstLinePrefix(s[1..], sep);
      assert s == [s[0]] + s[1..];
    }
  }

  /** Made of characters and markers, with no other opening. */
  ghost predicate TidyText(s: string) {
    exists ts :: Tidy(ts) && Flat(ts) == s
  }

  lemma OpensInLonger(a: string, b: string)
    requires a <= b && OpensAt(a, 0)
    ensures OpensAt(b, 0)
  {
  }

  lemma TidyTextCons(t: Tok, line: string, rest: seq<Tok>)
    requires Tidy([t] + rest) && TidyText(line) && line <= Flat(rest)
    ensures TidyText(Show(t) + line)
  {
    var ls :| Tidy(ls) && Flat(ls) == line;
    var all := [t] + ls;
    assert all[1..] == ls && ([t] + rest)[1..] == rest;
    assert Flat(all) == Show(t) + line;
    assert Flat([t] + rest) == Show(t) + Flat(rest);
    if OpensAt(Show(t) + line, 0) {
      OpensInLonger(Show(t) + line, Show(t) + Flat(rest));
    }
    assert Tidy(all);
  }

  lemma ShownOnOneLine(t: Tok, rest: seq<Tok>)
    requires Tidy([t] + rest) && t != Ch('\n')
    ensures '\n' !in Show(t)
  {
    TidyHead(t, rest);
    if t.Code? {
      forall i | 0 <= i < |Show(t)| ensures Show(t)[i] != '\n' {
        assert 8 <= i < 8 + |t.path| ==> Show(t)[i] == t.path[i - 8];
      }
    } else if t.Fold? {
      forall i | 0 <= i < |Show(t)| ensures Show(t)[i] != '\n' {
        assert 8 <= i < 8 + |t.id| ==> Show(t)[i] == t.id[i - 8];
      }
    }
  }

  lemma {:induction false} LinesAreTidy(ts: seq<Tok>)
    requires Tidy(ts)
    ensures forall i :: 0 <= i < |SplitOn(Flat(ts), '\n')| ==> TidyText(SplitOn(Flat(ts), '\n')[i])
    decreases ts
  {
    hide Show, SplitOn, TidyText;
    if ts == [] {
      assert TidyText("") by { EmptyIsTidy(); }
      assert SplitOn("", '\n') == [""];
    } else {
      var t, rest := ts[0], ts[1..];
      assert ts == [t] + rest;
      TidyHead(t, rest);
      LinesAreTidy(rest);
      assert Flat(ts) == Show(t) + Flat(rest);
      var lines := SplitOn(Flat(rest), '\n');
      if t == Ch('\n') {
        NewlineSplits(Flat(rest));
        EmptyIsTidy();
        assert SplitOn(Flat(ts), '\n') == [""] + lines by { ShowNewline(); }
      } else {
        ShownOnOneLine(t, rest);
        SplitAcross(Show(t), Flat(rest), '\n');
        FirstLinePrefix(Flat(rest), '\n');
        TidyTextCons(t, lines[0], rest);
      }
    }
  }

  lemma EmptyIsTidy()
    ensures TidyText("")
  {
    assert Tidy([]) && Flat([]) == "";
  }

  lemma ShowNewline()
    ensures Show(Ch('\n')) == "\n"
  {
  }

  lemma NewlineSplits(s: string)
    ensures SplitOn("\n" + s, '\n') == [""] + SplitOn(s, '\n')
  {
    assert ("\n" + s)[1..] == s;
  }

  // ---- Replacing and counting line by line

  function ReplaceLines(lines: seq<string>, mark: string, other: string): seq<string>
    requires mark != ""
  {
    if lines == [] then [] else [ReplaceAll(lines[0], mark, other)] + ReplaceLines(lines[1..], mark, other)
  }

  function CountLines(lines: seq<string>, mark: string): nat
    requires mark != ""
  {
    if lines == [] then 0 else Count(lines[0], mark) + CountLines(lines[1..], mark)
  }

  lemma MarkStaysBefore(a: string, b: string, mark: string)
    requires '\n' !in mark
    ensures mark <= a + "\n" + b <==> mark <= a
  {
    var all := a + "\n" + b;
    assert all[|a|] == '\n';
    assert mark <= all ==> forall k :: 0 <= k < |mark| ==> all[k] == mark[k] != '\n';
    assert a <= all;
  }

  /** A mark on one line is found in the part it is in. */
  lemma {:induction false} ReplaceAcross(a: string, b: string, mark: string, other: string)
    requires mark != "" && '\n' !in mark
    ensures ReplaceAll(a + "\n" + b, mark, other) == ReplaceAll(a, mark, other) + "\n" + ReplaceAll(b, mark, other)
    ensures Count(a + "\n" + b, mark) == Count(a, mark) + Count(b, mark)
    decreases |a|
  {
    var all := a + "\n" + b;
    MarkStaysBefore(a, b, mark);
    if a == "" {
      assert all[0] == '\n' && all[1..] == b && all == "\n" + b;
      assert "\n" + ReplaceAll(b, mark, other) == "" + "\n" + ReplaceAll(b, mark, other);
    } else if mark <= a {
      assert all[|mark|..] == a[|mark|..] + "\n" + b;
      ReplaceAcross(a[|mark|..], b, mark, other);
      var x, y := ReplaceAll(a[|mark|..], mark, other), ReplaceAll(b, mark, other);
      assert other + (x + "\n" + y) == (other + x) + "\n" + y;
    } else {
      assert all[1..] == a[1..] + "\n" + b;
      ReplaceAcross(a[1..], b, mark, other);
      var x, y := ReplaceAll(a[1..], mark, other), ReplaceAll(b, mark, other);
      assert [a[0]] + (x + "\n" + y) == ([a[0]] + x) + "\n" + y;
    }
  }

  lemma {:induction false} ReplaceJoined(lines: seq<string>, mark: string, other: string)
    requires lines != [] && mark != "" && '\n' !in mark
    ensures ReplaceAll(Join(lines, "\n"), mark, other) == Join(ReplaceLines(lines, mark, other), "\n")
    ensures Count(Join(lines, "\n"), mark) == CountLines(lines, mark)
    ensures |ReplaceLines(lines, mark, other)| == |lines|
    decreases lines
  {
    hide ReplaceAll, Count;
    var rest := lines[1..];
    var replaced := ReplaceLines(rest, mark, other);
    assert ReplaceLines(lines, mark, other)[1..] == replaced;
    if rest == [] {
      assert ReplaceLines(lines, mark, other) == [ReplaceAll(lines[0], mark, other)];
    } else {
      ReplaceJoined(rest, mark, other);
      ReplaceAcross(lines[0], Join(rest, "\n"), mark, other);
    }
  }

  lemma {:induction false} ReplaceLinesConcat(a: seq<string>, b: seq<string>, mark: string, other: string)
    requires mark != ""
    ensures ReplaceLines(a + b, mark, other) == ReplaceLines(a, mark, other) + ReplaceLines(b, mark, other)
    ensures CountLines(a + b, mark) == CountLines(a, mark) + CountLines(b, mark)
    decreases a
  {
    hide ReplaceAll, Count;
    if a == [] {
      assert a + b == b;
    } else {
      assert (a + b)[1..] == a[1..] + b;
      ReplaceLinesConcat(a[1..], b, mark, other);
    }
  }

  lemma {:induction false} NothingToReplace(text: string, mark: string, other: string)
    requires mark != "" && Count(text, mark) == 0
    ensures ReplaceAll(text, mark, other) == text
    decreases |text|
  {
    if text != "" {
      NothingToReplace(text[1..], mark, other);
    }
  }

  lemma {:induction false} NoLineToReplace(lines: seq<string>, mark: string, other: string)
    requires mark != "" && CountLines(lines, mark) == 0
    ensures ReplaceLines(lines, mark, other) == lines
    decreases lines
  {
    hide ReplaceAll, Count;
    if lines != [] {
      NothingToReplace(lines[0], mark, other);
      NoLineToReplace(lines[1..], mark, other);
    }
  }

  /** `mark in text`. */
  lemma {:induction false} CountFinds(text: string, mark: string)
    requires mark != ""
    ensures Contains(text, mark) <==> Count(text, mark) > 0
    decreases |text|
  {
    if text == "" {
    } else if mark <= text {
      assert OccursAt(text, mark, 0);
    } else {
      CountFinds(text[1..], mark);
      if Contains(text, mark) {
        var i: nat :| i <= |text| && OccursAt(text, mark, i);
        assert i > 0 && text[i..] == text[1..][i - 1..];
        assert OccursAt(text[1..], mark, i - 1);
      }
      if Contains(text[1..], mark) {
        var i: nat :| i <= |text[1..]| && OccursAt(text[1..], mark, i);
        assert text[1..][i..] == text[i + 1..];
        assert OccursAt(text, mark, i + 1);
      }
    }
  }
}
