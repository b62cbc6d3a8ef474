/** The whole erasure: the patterns in turn, then trailing white space and blank lines taken away. */
module TraceErase {
  import opened Text
  import opened TraceMask
  import opened TraceErasure

  /** What a pattern finds in each text. */
  type Finder = string -> seq<Match>

  ghost predicate Finds(f: Finder) {
    forall s :: Found(f(s), 0, |s|)
  }

  /** The patterns applied in turn, each to what the one before left. */
  ghost function Applied(text: string, fs: seq<Finder>, letters: Letters): string
    requires forall f :: f in fs ==> Finds(f)
    decreases |fs|
  {
    if fs == [] then text
    else
      assert Finds(fs[0]);
      var ms := fs[0](text);
      KeptIsFound(ms, 0, |text|, Masked(text, letters));
      Applied(Expanded(text, 0, Kept(ms, Masked(text, letters))), fs[1..], letters)
  }

  function TrimAll(lines: seq<string>): (r: seq<string>)
    ensures |r| == |lines|
  {
    if lines == [] then [] else [TrimEnd(Py, lines[0])] + TrimAll(lines[1..])
  }

  /** The lines without trailing white space. */
  function Stripped(s: string): (r: seq<string>)
    ensures r != []
  {
    TrimAll(SplitOn(s, '\n'))
  }

  /** Every run of line feeds as one. */
  function Collapsed(s: string): string {
    if s == "" then ""
    else if |s| > 1 && s[0] == '\n' && s[1] == '\n' then Collapsed(s[1..])
    else [s[0]] + Collapsed(s[1..])
  }

  function Normal(s: string): string {
    Collapsed(Join(Stripped(s), "\n"))
  }

  /** The program's `erase`. */
  method Erase(text: string, fs: seq<Finder>, letters: Letters) returns (r: string)
    requires forall f :: f in fs ==> Finds(f)
    ensures r == Normal(Applied(text, fs, letters))
  {
    hide *;
    r := text;
    assert fs[0..] == fs;
    for i := 0 to |fs|
      invariant Applied(r, fs[i..], letters) == Applied(text, fs, letters)
    {
      var f := fs[i];
      assert Finds(f) && fs[i..][0] == f && fs[i..][1..] == fs[i + 1..];
      AppliedStep(r, fs[i..], letters);
      r := SubInCode(r, f(r), letters);
    }
    assert fs[|fs|..] == [];
    AppliedNone(r, letters);
    var lines := SplitOn(r, '\n');
    var stripped: seq<string> := [];
    assert lines[0..] == lines;
    for i := 0 to |lines|
      invariant stripped + TrimAll(lines[i..]) == TrimAll(lines)
    {
      TrimAllStep(lines, i);
      assert stripped + ([TrimEnd(Py, lines[i])] + TrimAll(lines[i + 1..])) == stripped + [TrimEnd(Py, lines[i])] + TrimAll(lines[i + 1..]);
      stripped := stripped + [TrimEnd(Py, lines[i])];
    }
    assert stripped == TrimAll(lines) by {
      assert |TrimAll(lines[|lines|..])| == 0;
    }
    r := Collapsed(Join(stripped, "\n"));
    NormalIs(Applied(text, fs, letters));
  }

  lemma NormalIs(s: string)
    ensures Normal(s) == Collapsed(Join(TrimAll(SplitOn(s, '\n')), "\n"))
  {
    hide Collapsed, Join, TrimAll, SplitOn;
  }

  lemma AppliedStep(text: string, fs: seq<Finder>, letters: Letters)
    requires fs != [] && forall f :: f in fs ==> Finds(f)
    ensures Found(fs[0](text), 0, |text|)
    ensures Found(Kept(fs[0](text), Masked(text, letters)), 0, |text|)
    ensures Applied(text, fs, letters) ==
            Applied(Expanded(text, 0, Kept(fs[0](text), Masked(text, letters))), fs[1..], letters)
  {
    hide Masked, Kept, Expanded, Found;
    assert Finds(fs[0]);
    KeptIsFound(fs[0](text), 0, |text|, Masked(text, letters));
  }

  lemma AppliedNone(text: string, letters: Letters)
    ensures Applied(text, [], letters) == text
  {
  }

  lemma TrimAllStep(lines: seq<string>, i: nat)
    requires i < |lines|
    ensures TrimAll(lines[i..]) == [TrimEnd(Py, lines[i])] + TrimAll(lines[i + 1..])
  {
    assert lines[i..][1..] == lines[i + 1..];
  }

  // ---- What the normal form keeps

  function NonBlank(lines: seq<string>): seq<string> {
    if lines == [] then [] else (if lines[0] == "" then [] else [lines[0]]) + NonBlank(lines[1..])
  }

  /** The visible lines, trailing white space aside. */
  function Shown(s: string): seq<string> {
    NonBlank(Stripped(s))
  }

  /** Blank lines between the first line and the last dropped. */
  function Squeeze(lines: seq<string>): seq<string>
    decreases |lines|
  {
    if |lines| <= 2 then lines
    else if lines[1] == "" then Squeeze([lines[0]] + lines[2..])
    else [lines[0]] + Squeeze(lines[1..])
  }

  predicate Unbroken(lines: seq<string>) {
    forall i :: 0 <= i < |lines| ==> '\n' !in lines[i]
  }

  lemma {:induction false} StrippedIsUnbroken(lines: seq<string>)
    requires Unbroken(lines)
    ensures Unbroken(TrimAll(lines))
  {
    if lines != [] {
      StrippedIsUnbroken(lines[1..]);
      TrimEndPrefix(Py, lines[0]);
    }
  }

  lemma {:induction false} CollapseAfter(x: string, y: string)
    requires '\n' !in x
    ensures Collapsed(x + y) == x + Collapsed(y)
  {
    if x == "" {
      assert x + y == y;
    } else {
      CollapseAfter(x[1..], y);
      assert (x + y)[1..] == x[1..] + y && (x + y)[0] == x[0];
      assert x == [x[0]] + x[1..];
      assert [x[0]] + (x[1..] + Collapsed(y)) == [x[0]] + x[1..] + Collapsed(y);
    }
  }

  lemma CollapseFeed(y: string)
    ensures Collapsed("\n" + y) == if y != "" && y[0] == '\n' then Collapsed(y) else "\n" + Collapsed(y)
  {
    assert ("\n" + y)[1..] == y;
  }

  /** Collapsing the joined lines is joining the squeezed ones. */
  lemma {:induction false} CollapseLines(lines: seq<string>)
    requires lines != [] && Unbroken(lines)
    ensures Collapsed(Join(lines, "\n")) == Join(Squeeze(lines), "\n")
    decreases |lines|
  {
    var x := lines[0];
    if |lines| == 1 {
      assert x + "" == x;
      CollapseAfter(x, "");
    } else {
      var y := Join(lines[1..], "\n");
      assert Join(lines, "\n") == x + "\n" + y == x + ("\n" + y);
      CollapseAfter(x, "\n" + y);
      CollapseFeed(y);
      if |lines| == 2 {
        assert y == lines[1] + "";
        CollapseAfter(lines[1], "");
      } else if lines[1] == "" {
        DropBlank(lines);
      } else {
        KeepVisible(lines);
      }
    }
  }

  lemma {:induction false} DropBlank(lines: seq<string>)
    requires |lines| > 2 && Unbroken(lines) && lines[1] == ""
    ensures var y := Join(lines[1..], "\n");
            y != "" && y[0] == '\n' && lines[0] + Collapsed(y) == Join(Squeeze(lines), "\n")
    decreases |lines|, 0
  {
    var x, rest, more := lines[0], lines[1..], lines[2..];
    assert rest[1..] == more;
    var y := Join(rest, "\n");
    assert y == "" + "\n" + Join(more, "\n") == "\n" + Join(more, "\n");
    var shorter := [x] + more;
    assert shorter[1..] == more && Unbroken(shorter);
    assert Join(shorter, "\n") == x + "\n" + Join(more, "\n") == x + y;
    CollapseLines(shorter);
    CollapseAfter(x, y);
  }

  lemma {:induction false} KeepVisible(lines: seq<string>)
    requires |lines| > 2 && Unbroken(lines) && lines[1] != ""
    ensures var y := Join(lines[1..], "\n");
            y != "" && y[0] != '\n' && lines[0] + ("\n" + Collapsed(y)) == Join(Squeeze(lines), "\n")
    decreases |lines|, 0
  {
    var rest := lines[1..];
    CollapseLines(rest);
    var y := Join(rest, "\n");
    assert y == rest[0] + "\n" + Join(rest[1..], "\n");
    assert y[0] == rest[0][0] && rest[0][0] in rest[0];
    SqueezeKeepsEnds(rest);
    JoinCons(lines[0], Squeeze(rest), '\n');
  }

  /** Squeezing keeps the visible lines. */
  lemma {:induction false} SqueezeKeepsShown(lines: seq<string>)
    ensures NonBlank(Squeeze(lines)) == NonBlank(lines)
    decreases |lines|
  {
    if |lines| > 2 {
      var x, rest := lines[0], lines[1..];
      if lines[1] == "" {
        var shorter := [x] + lines[2..];
        SqueezeKeepsShown(shorter);
        assert shorter[1..] == lines[2..] == rest[1..];
        assert [] + NonBlank(lines[2..]) == NonBlank(lines[2..]);
      } else {
        SqueezeKeepsShown(rest);
        assert ([x] + Squeeze(rest))[1..] == Squeeze(rest);
      }
    }
  }

  /** It keeps the ends, and whether there is one line only. */
  lemma {:induction false} SqueezeKeepsEnds(lines: seq<string>)
    requires lines != []
    ensures var q := Squeeze(lines);
            q != [] && q[0] == lines[0] && q[|q| - 1] == lines[|lines| - 1] && (|q| == 1 <==> |lines| == 1)
    decreases |lines|
  {
    if |lines| > 2 {
      SqueezeKeepsEnds(if lines[1] == "" then [lines[0]] + lines[2..] else lines[1..]);
    }
  }

  lemma {:induction false} SqueezeIsPart(lines: seq<string>)
    ensures forall l :: l in Squeeze(lines) ==> l in lines
    decreases |lines|
  {
    if |lines| > 2 {
      SqueezeIsPart(if lines[1] == "" then [lines[0]] + lines[2..] else lines[1..]);
    }
  }

  /** A blank line kept at an end of the text. */
  function Edge(line: string): seq<string> {
    if line == "" then [""] else []
  }

  /** Two lines or more: a blank first line, the visible lines, a blank last line. */
  lemma {:induction false} SqueezeIs(lines: seq<string>)
    requires |lines| >= 2
    ensures Squeeze(lines) == Edge(lines[0]) + NonBlank(lines) + Edge(lines[|lines| - 1])
    decreases |lines|
  {
    var x, rest := lines[0], lines[1..];
    if |lines| == 2 {
      NonBlankPair(lines);
    } else if lines[1] == "" {
      var shorter := [x] + lines[2..];
      SqueezeIs(shorter);
      assert shorter[1..] == lines[2..] == rest[1..];
      assert [] + NonBlank(lines[2..]) == NonBlank(lines[2..]);
    } else {
      SqueezeIs(rest);
      var shown, end := NonBlank(rest), Edge(lines[|lines| - 1]);
      assert [] + shown + end == shown + end;
      PutInFront(x, shown, end);
    }
  }

  lemma NonBlankPair(lines: seq<string>)
    requires |lines| == 2
    ensures lines == Edge(lines[0]) + NonBlank(lines) + Edge(lines[1])
  {
    var rest := lines[1..];
    assert rest[1..] == [] && NonBlank([]) == [];
    assert NonBlank(rest) == if lines[1] == "" then [] else [lines[1]];
    assert lines == [lines[0], lines[1]];
    assert NonBlank(lines) == (if lines[0] == "" then [] else [lines[0]]) + (if lines[1] == "" then [] else [lines[1]]);
  }

  lemma PutInFront(x: string, shown: seq<string>, end: seq<string>)
    ensures [x] + (shown + end) == Edge(x) + ((if x == "" then [] else [x]) + shown) + end
  {
  }

  lemma StrippedOfNormal(s: string)
    ensures SplitOn(Normal(s), '\n') == Squeeze(Stripped(s))
  {
    var lines := Stripped(s);
    hide Collapsed, Join, TrimAll, SplitOn, Squeeze;
    SplitPieces(s, '\n');
    StrippedIsUnbroken(SplitOn(s, '\n'));
    CollapseLines(lines);
    SqueezeKeepsEnds(lines);
    SqueezeIsPart(lines);
    SplitOfJoin(Squeeze(lines), '\n');
  }

  predicate OpensBlank(s: string) { Stripped(s)[0] == "" }

  predicate ClosesBlank(s: string) { Stripped(s)[|Stripped(s)| - 1] == "" }

  /** What the squeezed lines are decided by. */
  predicate Alike(a: seq<string>, b: seq<string>)
    requires a != [] && b != []
  {
    && NonBlank(a) == NonBlank(b) && (a[0] == "" <==> b[0] == "") && (a[|a| - 1] == "" <==> b[|b| - 1] == "")
    && (NonBlank(a) == [] ==> (|a| == 1 <==> |b| == 1))
  }

  lemma SqueezeDecides(a: seq<string>, b: seq<string>)
    requires a != [] && b != []
    ensures Squeeze(a) == Squeeze(b) <==> Alike(a, b)
  {
    hide Squeeze, NonBlank, Edge;
    SqueezeKeepsEnds(a);
    SqueezeKeepsEnds(b);
    SqueezeKeepsShown(a);
    SqueezeKeepsShown(b);
    if Alike(a, b) {
      if |a| == 1 {
        AlikeOne(a, b);
      } else if |b| == 1 {
        AlikeOne(b, a);
      } else {
        SqueezeIs(a);
        SqueezeIs(b);
        SameEdges(a, b);
      }
    }
  }

  lemma SameEdges(a: seq<string>, b: seq<string>)
    requires a != [] && b != [] && Alike(a, b)
    ensures Edge(a[0]) == Edge(b[0]) && Edge(a[|a| - 1]) == Edge(b[|b| - 1])
  {
  }

  lemma AlikeOne(a: seq<string>, b: seq<string>)
    requires |a| == 1 && b != [] && Alike(a, b)
    ensures a == b
  {
    assert a == [a[0]] && a[1..] == [];
    assert NonBlank(a) == if a[0] == "" then [] else [a[0]];
    if |b| == 1 {
      assert b == [b[0]] && b[1..] == [];
    } else {
      SqueezeKeepsEnds(b);
      SqueezeKeepsShown(b);
      SqueezeIs(b);
    }
  }

  lemma {:induction false} OneLine(s: string)
    ensures |SplitOn(s, '\n')| == 1 <==> '\n' !in s
  {
    if s != "" {
      OneLine(s[1..]);
      assert s == [s[0]] + s[1..];
    }
  }

  lemma NormalFollows(a: string, b: string)
    ensures Normal(a) == Normal(b) <==> Squeeze(Stripped(a)) == Squeeze(Stripped(b))
  {
    hide *;
    StrippedOfNormal(a);
    StrippedOfNormal(b);
    JoinOfSplit(Normal(a), '\n');
    JoinOfSplit(Normal(b), '\n');
  }

  /** Two texts have the same normal form exactly when they show the same lines and agree on opening and
      closing blank; of texts that show nothing, on having a line feed at all. */
  lemma NormalDecides(a: string, b: string)
    ensures Normal(a) == Normal(b) <==>
            && Shown(a) == Shown(b) && OpensBlank(a) == OpensBlank(b) && ClosesBlank(a) == ClosesBlank(b)
            && (Shown(a) == [] ==> ('\n' in a <==> '\n' in b))
  {
    hide Normal, Squeeze, NonBlank, TrimAll, SplitOn, TrimEnd;
    NormalFollows(a, b);
    OneLine(a);
    OneLine(b);
    SqueezeDecides(Stripped(a), Stripped(b));
  }

  lemma {:induction false} TrimAllTwice(lines: seq<string>)
    ensures TrimAll(TrimAll(lines)) == TrimAll(lines)
  {
    if lines != [] {
      TrimAllTwice(lines[1..]);
      TrimEndPrefix(Py, lines[0]);
      assert TrimAll(lines)[1..] == TrimAll(lines[1..]);
    }
  }

  lemma {:induction false} TrimmedIsFixed(lines: seq<string>)
    ensures TrimAll(lines) == lines <==> forall i :: 0 <= i < |lines| ==> TrimEnd(Py, lines[i]) == lines[i]
  {
    if lines != [] {
      var rest := lines[1..];
      TrimmedIsFixed(rest);
      assert lines == [lines[0]] + rest;
      assert TrimAll(lines)[1..] == TrimAll(rest) && TrimAll(lines)[0] == TrimEnd(Py, lines[0]);
      assert forall i :: 0 <= i < |rest| ==> rest[i] == lines[i + 1];
      assert forall i :: 1 <= i < |lines| ==> lines[i] == rest[i - 1];
    }
  }

  /** The normal form shows what the text shows, opens and closes as it does, and holds no trailing
      white space. */
  lemma NormalKeepsLines(s: string)
    ensures Stripped(Normal(s)) == SplitOn(Normal(s), '\n')
    ensures Shown(Normal(s)) == Shown(s)
    ensures OpensBlank(Normal(s)) == OpensBlank(s) && ClosesBlank(Normal(s)) == ClosesBlank(s)
    ensures '\n' in Normal(s) <==> '\n' in s
  {
    hide Normal, Squeeze, NonBlank, TrimAll, SplitOn, TrimEnd;
    var lines := Stripped(s);
    StrippedOfNormal(s);
    TrimAllTwice(SplitOn(s, '\n'));
    TrimmedIsFixed(lines);
    SqueezeIsPart(lines);
    forall i | 0 <= i < |Squeeze(lines)| ensures TrimEnd(Py, Squeeze(lines)[i]) == Squeeze(lines)[i] {
      assert Squeeze(lines)[i] in Squeeze(lines);
    }
    TrimmedIsFixed(Squeeze(lines));
    SqueezeKeepsEnds(lines);
    SqueezeKeepsShown(lines);
    OneLine(s);
    OneLine(Normal(s));
  }

  /** Normalising once is enough. */
  lemma NormalIsStable(s: string)
    ensures Normal(Normal(s)) == Normal(s)
  {
    hide *;
    NormalKeepsLines(s);
    NormalDecides(Normal(s), s);
  }
}
