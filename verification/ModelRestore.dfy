/** Putting both kinds of records back in the build's order, before and after code markers have been
    replaced by fold markers. */
module ModelRestore {
  import opened Text
  import TomlParser
  import opened ModelMarkers
  import opened ModelLines
  import opened ModelRecords

  /** The build's order: absent grids first, then invariant blocks. */
  function RestoreBoth(lines: seq<string>, r: Records): Option<seq<string>> {
    var a :- RestoreAbsent(lines, r);
    RestoreInvariants(a, r)
  }

  // ---- Record lines are no markers

  predicate Indented(indent: string) { forall i :: 0 <= i < |indent| ==> IsSpace(Py, indent[i]) }

  ghost predicate AllIndented(r: Records) {
    && (forall sid :: sid in r.absent ==> Indented(r.absent[sid].indent))
    && forall sid, k :: sid in r.invariants && 0 <= k < |r.invariants[sid]| ==> Indented(r.invariants[sid][k].indent)
  }

  lemma {:induction false} IndentIsIndented(line: string)
    ensures Indented(Indent(line))
  {
    if line != "" && IsSpace(Py, line[0]) {
      IndentIsIndented(line[1..]);
    }
  }

  lemma RecordLineIsNoMark(indent: string, rest: string)
    requires Indented(indent) && rest != "" && rest[0] == '<'
    ensures AbsentMarkName(indent + rest) == None && InvMarkName(indent + rest) == None
  {
    var line := indent + rest;
    assert line[0] == (if indent == "" then '<' else indent[0]);
    assert ABSENT_MARK[0] == '[' && INV_MARK[0] == '[';
  }

  lemma ItemLinesAreNoMarks(g: Grid)
    requires Indented(g.indent)
    ensures NoAbsentMarks(OrEmptyLine(ItemLines(g))) && NoInvMarks(OrEmptyLine(ItemLines(g)))
  {
    forall i | 0 <= i < |g.items|
      ensures AbsentMarkName(ItemLines(g)[i]) == None && InvMarkName(ItemLines(g)[i]) == None
    {
      var rest := ITEM_OPEN + g.items[i] + DIV_END;
      assert ItemLines(g)[i] == g.indent + rest;
      RecordLineIsNoMark(g.indent, rest);
    }
  }

  lemma EntLinesAreNoMarks(b: Block)
    requires Indented(b.indent)
    ensures NoAbsentMarks(OrEmptyLine(EntLines(b))) && NoInvMarks(OrEmptyLine(EntLines(b)))
  {
    hide AbsentMarkName, InvMarkName, Indented;
    EmptyIsNoMark();
    forall i | 0 <= i < |b.items|
      ensures AbsentMarkName(EntLines(b)[i]) == None && InvMarkName(EntLines(b)[i]) == None
    {
      var ent := b.items[i];
      var rest := ENT_OPEN + ent.name + ENT_MID + ent.body + ENT_END;
      Regroup(b.indent, ENT_OPEN, ent.name, ENT_MID, ent.body, ENT_END);
      assert EntLines(b)[i] == b.indent + rest;
      RecordLineIsNoMark(b.indent, rest);
    }
  }

  lemma EmptyIsNoMark()
    ensures AbsentMarkName("") == None && InvMarkName("") == None
  {
  }

  lemma MarksExclude(line: string)
    ensures AbsentMarkName(line) == None || InvMarkName(line) == None
  {
    assert ABSENT_MARK[3] == 'a' && INV_MARK[3] == 'i';
  }

  // ---- The two restorations commute

  lemma {:induction false} Commute(lines: seq<string>, r: Records)
    requires AllIndented(r) && RestoreInvariants(lines, r).Some?
    requires RestoreAbsent(RestoreInvariants(lines, r).value, r).Some?
    ensures RestoreBoth(lines, r) == RestoreAbsent(RestoreInvariants(lines, r).value, r)
    decreases lines
  {
    hide AbsentLines, InvLines, AllIndented;
    if lines != [] {
      var x, rest := InvLines(lines[0], r).value, RestoreInvariants(lines[1..], r).value;
      RestoreAbsentConcat(x, rest, r);
      Commute(lines[1..], r);
      CommuteOne(lines[0], r);
      var y := AbsentLines(lines[0], r).value;
      RestoreInvConcat(y, RestoreAbsent(lines[1..], r).value, r);
    }
  }

  lemma CommuteOne(line: string, r: Records)
    requires AllIndented(r) && InvLines(line, r).Some? && RestoreAbsent(InvLines(line, r).value, r).Some?
    ensures AbsentLines(line, r).Some?
    ensures RestoreInvariants(AbsentLines(line, r).value, r) == RestoreAbsent(InvLines(line, r).value, r)
  {
    hide AbsentMarkName, InvMarkName, ItemLines, EntLines, OrEmptyLine;
    MarksExclude(line);
    if InvMarkName(line).Some? {
      var b := r.invariants[InvMarkName(line).value.0][InvMarkName(line).value.1];
      EntLinesAreNoMarks(b);
      PlainLinesStay(OrEmptyLine(EntLines(b)), r);
      assert OrEmptyLine(EntLines(b)) + [] == OrEmptyLine(EntLines(b));
    } else if AbsentMarkName(line).Some? {
      if AbsentMarkName(line).value in r.absent {
        var g := r.absent[AbsentMarkName(line).value];
        ItemLinesAreNoMarks(g);
        PlainLinesStay(OrEmptyLine(ItemLines(g)), r);
        assert OrEmptyLine(ItemLines(g)) + [] == OrEmptyLine(ItemLines(g));
      }
    }
  }

  // ---- What was taken out comes back in the build's order

  lemma {:induction false} GridLinesAreNoInvMarks(sid: string, lines: seq<string>)
    requires Spaceless(sid) && NoInvMarks(lines) && TakeGrids(sid, lines).Some?
    ensures NoInvMarks(TakeGrids(sid, lines).value.out)
    decreases |lines|
  {
    hide Trim, InvMarkName, ParseItem, EvenItems;
    if lines != [] {
      if Trim(Py, lines[0]) != ABSENT_OPEN {
        GridLinesAreNoInvMarks(sid, lines[1..]);
      } else {
        var n := ItemRun(lines[1..]);
        GridLinesAreNoInvMarks(sid, lines[1..][n..]);
        AbsentMarkReads(sid);
      }
    }
  }

  lemma {:induction false} GridsAreIndented(sid: string, lines: seq<string>)
    requires TakeGrids(sid, lines).Some?
    ensures forall g :: g in TakeGrids(sid, lines).value.grids ==> Indented(g.indent)
    decreases |lines|
  {
    hide Trim, ParseItem, EvenItems, Indented, AbsentMark;
    if lines != [] {
      if Trim(Py, lines[0]) != ABSENT_OPEN {
        GridsAreIndented(sid, lines[1..]);
      } else {
        var n := ItemRun(lines[1..]);
        GridsAreIndented(sid, lines[1..][n..]);
        GridIsIndented(lines[1..], n);
      }
    }
  }

  lemma GridIsIndented(lines: seq<string>, n: nat)
    requires n <= |lines| && forall i :: 0 <= i < n ==> IsItem(lines[i])
    ensures Indented(GridOf(lines, n).indent)
  {
    if n > 0 {
      IndentIsIndented(lines[0]);
    }
  }

  lemma BlockIsIndented(lines: seq<string>, n: nat)
    requires n <= |lines| && forall i :: 0 <= i < n ==> IsEnt(lines[i])
    ensures Indented(BlockOf(lines, n).indent)
  {
    if n > 0 {
      IndentIsIndented(lines[0]);
    }
  }

  lemma {:induction false} BlocksAreIndented(sid: string, lines: seq<string>, k: nat)
    requires TakeBlocks(sid, lines, k).Some?
    ensures forall b :: b in TakeBlocks(sid, lines, k).value.blocks ==> Indented(b.indent)
    decreases |lines|
  {
    hide Trim, ParseEnt, EvenEnts, Indented, ToEnts, EntRun, InvMark;
    if lines != [] {
      if Trim(Py, lines[0]) != INV_OPEN {
        BlocksAreIndented(sid, lines[1..], k);
      } else {
        var ents := lines[ToEnts(lines[1..]).value + 2..];
        var n := EntRun(ents);
        BlocksAreIndented(sid, ents[n..], k + 1);
        BlockIsIndented(ents, n);
      }
    }
  }

  /** Restoring undoes the two extractions of a section without markers of its own. */
  lemma ComesBack(sid: string, lines: seq<string>, r: Records)
    requires Spaceless(sid) && NoAbsentMarks(lines) && NoInvMarks(lines) && AllIndented(r)
    requires TakeAbsent(sid, lines).Some? && TakeInvariants(sid, TakeAbsent(sid, lines).value.out).Some?
    requires sid in r.absent && [r.absent[sid]] == TakeAbsent(sid, lines).value.grids
    requires sid in r.invariants && r.invariants[sid] == TakeInvariants(sid, TakeAbsent(sid, lines).value.out).value.blocks
    ensures RestoreBoth(TakeInvariants(sid, TakeAbsent(sid, lines).value.out).value.out, r) == Some(lines)
  {
    hide TakeGrids, TakeBlocks, RestoreAbsent, RestoreInvariants, AllIndented;
    var a := TakeAbsent(sid, lines).value;
    GridsComeBack(sid, lines, r);
    GridLinesAreNoInvMarks(sid, lines);
    var i := TakeInvariants(sid, a.out).value;
    assert HoldsBlocks(r, sid, 0, i.blocks);
    BlocksComeBack(sid, a.out, 0, r);
    Commute(i.out, r);
  }

  // ---- Restoring after a replacement

  ghost predicate AbsentSteady(line: string, mark: string, other: string)
    requires mark != ""
  {
    if AbsentMarkName(line).Some? then Count(line, mark) == 0 else AbsentMarkName(ReplaceAll(line, mark, other)) == None
  }

  ghost predicate InvSteady(line: string, mark: string, other: string)
    requires mark != ""
  {
    if InvMarkName(line).Some? then Count(line, mark) == 0 else InvMarkName(ReplaceAll(line, mark, other)) == None
  }

  lemma {:induction false} AbsentReplaced(lines: seq<string>, r: Records, mark: string, other: string)
    requires mark != "" && RestoreAbsent(lines, r).Some?
    requires forall i :: 0 <= i < |lines| ==> AbsentSteady(lines[i], mark, other)
    ensures var back := RestoreAbsent(lines, r).value;
            && CountLines(lines, mark) <= CountLines(back, mark)
            && (CountLines(lines, mark) == CountLines(back, mark) ==>
                  RestoreAbsent(ReplaceLines(lines, mark, other), r) == Some(ReplaceLines(back, mark, other)))
    decreases lines
  {
    hide AbsentMarkName, ReplaceAll, Count, ItemLines, OrEmptyLine;
    if lines != [] {
      assert AbsentSteady(lines[0], mark, other);
      AbsentReplaced(lines[1..], r, mark, other);
      var x, rest := AbsentLines(lines[0], r).value, RestoreAbsent(lines[1..], r).value;
      ReplaceLinesConcat(x, rest, mark, other);
      if AbsentMarkName(lines[0]).Some? {
        NothingToReplace(lines[0], mark, other);
        if CountLines(x, mark) == 0 {
          NoLineToReplace(x, mark, other);
        }
      } else {
        OneLineReplaced(lines[0], mark, other);
      }
    }
  }

  lemma OneLineReplaced(line: string, mark: string, other: string)
    requires mark != ""
    ensures ReplaceLines([line], mark, other) == [ReplaceAll(line, mark, other)]
    ensures CountLines([line], mark) == Count(line, mark)
  {
    hide ReplaceAll, Count;
    assert [line][1..] == [];
    assert ReplaceLines([], mark, other) == [];
    assert CountLines([], mark) == 0;
  }

  lemma {:induction false} InvReplaced(lines: seq<string>, r: Records, mark: string, other: string)
    requires mark != "" && RestoreInvariants(lines, r).Some?
    requires forall i :: 0 <= i < |lines| ==> InvSteady(lines[i], mark, other)
    ensures var back := RestoreInvariants(lines, r).value;
            && CountLines(lines, mark) <= CountLines(back, mark)
            && (CountLines(lines, mark) == CountLines(back, mark) ==>
                  RestoreInvariants(ReplaceLines(lines, mark, other), r) == Some(ReplaceLines(back, mark, other)))
    decreases lines
  {
    hide InvMarkName, ReplaceAll, Count, EntLines, OrEmptyLine;
    if lines != [] {
      assert InvSteady(lines[0], mark, other);
      InvReplaced(lines[1..], r, mark, other);
      var x, rest := InvLines(lines[0], r).value, RestoreInvariants(lines[1..], r).value;
      ReplaceLinesConcat(x, rest, mark, other);
      if InvMarkName(lines[0]).Some? {
        NothingToReplace(lines[0], mark, other);
        if CountLines(x, mark) == 0 {
          NoLineToReplace(x, mark, other);
        }
      } else {
        OneLineReplaced(lines[0], mark, other);
      }
    }
  }

  // ---- Lines that stay steady

  lemma TidyIsNoMark(line: string)
    requires TidyText(line)
    ensures AbsentMarkName(line) == None && InvMarkName(line) == None
  {
    var ts: seq<Tok> :| Tidy(ts) && Flat(ts) == line;
    assert OpensAt(ABSENT_MARK, 0) && OpensAt(INV_MARK, 0);
    assert ABSENT_MARK[3] == 'a' && INV_MARK[3] == 'i';
    if ts != [] {
      assert ts[0].Code? ==> CODE_OPEN <= line && line[3] == 'c';
      assert ts[0].Fold? ==> FOLD_OPEN <= line && line[3] == 'f';
    }
  }

  lemma TidyIsSteady(line: string, id: string)
    requires TidyText(line) && MarkName(id)
    ensures var mark, other := CodeMark(NewPath(id)), FoldMark(id);
            && AbsentSteady(line, mark, other) && InvSteady(line, mark, other) && TidyText(ReplaceAll(line, mark, other))
  {
    var ts: seq<Tok> :| Tidy(ts) && Flat(ts) == line;
    ReplaceTokens(ts, id);
    TidyIsNoMark(line);
    TidyIsNoMark(Flat(Refold(ts, id)));
  }

  /** A marker line opens once, and not as a code marker. */
  lemma {:induction false} MarkLineHoldsNoCode(open: string, inner: string, path: string)
    requires open in {ABSENT_MARK, INV_MARK} && ']' !in inner && NoOpening(inner) && MarkName(path)
    ensures Count(open + inner + "]]", CodeMark(path)) == 0
  {
    var line, mark := open + inner + "]]", CodeMark(path);
    assert line[3] == (if open == ABSENT_MARK then 'a' else 'i') && mark[3] == 'c';
    var u := line[1..];
    forall i: nat | i < |u| ensures !OpensAt(u + "", i) {
      RecordMarkOpensOnce(open, inner, i + 1);
      assert u + "" == u;
    }
    assert OpensAt(mark, 0);
    ReplaceCopies(u, "", mark, "");
    assert u + "" == u;
  }

  lemma RecordMarkOpensOnce(open: string, inner: string, i: nat)
    requires open in {ABSENT_MARK, INV_MARK} && ']' !in inner && NoOpening(inner) && 1 <= i
    ensures !OpensAt(open + inner + "]]", i)
    ensures i - 1 < |(open + inner + "]]")[1..]| ==> !OpensAt((open + inner + "]]")[1..], i - 1)
  {
    var all, n, m := open + inner + "]]", |open|, |open| + |inner|;
    if i + 2 < |all| {
      assert all[m] == ']' && all[m + 1] == ']';
      if i < n {
        assert all[i] == open[i];
        assert i + 1 < n ==> all[i + 1] == open[i + 1];
        LaterBrackets(open, i);
      } else if i + 2 < m {
        assert !OpensAt(inner, i - n);
        assert all[i] == inner[i - n] && all[i + 1] == inner[i + 1 - n] && all[i + 2] == inner[i + 2 - n];
      }
    }
  }

  lemma LaterBrackets(open: string, i: nat)
    requires open in {ABSENT_MARK, INV_MARK} && 1 <= i < |open|
    ensures i + 1 < |open| && open[i] == '[' ==> open[i + 1] != '['
    ensures open[|open| - 1] != '['
  {
  }
}
