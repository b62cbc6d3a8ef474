/** One section through extraction, migration and build. */
module ModelSection {
  import opened Text
  import TomlParser
  import TomlPrinter
  import opened ModelMarkers
  import opened ModelLines
  import opened ModelRecords
  import opened ModelCodes
  import opened ModelWeave
  import opened ModelRestore

  // ---- Extraction

  datatype Taken = Taken(parts: Parts, absent: AbsentOut, inv: InvOut)

  /** What extraction takes out of a section: code bodies, then the absent grid, then the invariants. */
  function TakeSection(sid: string, text: string): Option<Taken> {
    var parts :- CodesOf(text);
    CodesLie(text);
    var a :- TakeAbsent(sid, SplitOn(Spliced(text, 0, parts.cuts), '\n'));
    var i :- TakeInvariants(sid, SplitOn(Join(a.out, "\n"), '\n'));
    Some(Taken(parts, a, i))
  }

  function ContentOf(x: Taken): string { Join(x.inv.out, "\n") }

  // ---- Build

  function BuildSection(content: string, r: Records, bodies: map<string, string>, files: map<string, string>): Option<string> {
    var a :- RestoreAbsent(SplitOn(content, '\n'), r);
    var i :- RestoreInvariants(SplitOn(Join(a, "\n"), '\n'), r);
    var f :- Substitute(Join(i, "\n"), FOLD_OPEN, bodies);
    Substitute(f, CODE_OPEN, files)
  }

  /** The section file's content, records put back, shows the section with its cuts as markers, the new
      sides of `folded` as fold markers. */
  ghost predicate Carries(content: string, text: string, cuts: seq<Cut>, r: Records, folded: set<string>)
    requires CutsIn(text, 0, cuts)
  {
    RestoreBoth(SplitOn(content, '\n'), r) == Some(SplitOn(Flat(Weave(text, 0, cuts, folded)), '\n'))
  }

  ghost predicate GoodRecords(r: Records) {
    && AllIndented(r)
    && (forall sid :: sid in r.absent ==> MarkName(sid))
    && forall sid :: sid in r.invariants ==> MarkName(sid)
  }

  // ---- Lines that can be joined and split again

  predicate Unbroken(lines: seq<string>) {
    lines != [] && forall l :: l in lines ==> '\n' !in l
  }

  lemma SplitIsUnbroken(s: string)
    ensures Unbroken(SplitOn(s, '\n'))
  {
    SplitParts(s, '\n');
  }

  lemma SplitJoined(lines: seq<string>)
    requires Unbroken(lines)
    ensures SplitOn(Join(lines, "\n"), '\n') == lines
  {
    SplitOfJoin(lines, '\n');
  }

  lemma SpacelessIsUnbroken(s: string)
    requires Spaceless(s)
    ensures '\n' !in s
  {
  }

  lemma {:induction false} GridsUnbroken(sid: string, lines: seq<string>)
    requires Spaceless(sid) && TakeGrids(sid, lines).Some? && forall l :: l in lines ==> '\n' !in l
    ensures forall l :: l in TakeGrids(sid, lines).value.out ==> '\n' !in l
    ensures lines != [] ==> TakeGrids(sid, lines).value.out != []
    decreases |lines|
  {
    hide Trim, ParseItem, EvenItems, AbsentMark;
    if lines != [] {
      if Trim(Py, lines[0]) != ABSENT_OPEN {
        GridsUnbroken(sid, lines[1..]);
      } else {
        GridsUnbroken(sid, lines[1..][ItemRun(lines[1..])..]);
        AbsentMarkUnbroken(sid);
      }
    }
  }

  lemma AbsentMarkUnbroken(sid: string)
    requires Spaceless(sid)
    ensures '\n' !in AbsentMark(sid)
  {
  }

  lemma InvMarkUnbroken(sid: string, k: nat)
    requires Spaceless(sid)
    ensures '\n' !in InvMark(sid, k)
  {
    TomlPrinter.DecimalReads(k);
    hide TomlPrinter.Decimal;
    var d := TomlPrinter.Decimal(k);
    assert '\n' !in d;
  }

  lemma {:induction false} BlocksUnbroken(sid: string, lines: seq<string>, k: nat)
    requires Spaceless(sid) && TakeBlocks(sid, lines, k).Some? && forall l :: l in lines ==> '\n' !in l
    ensures forall l :: l in TakeBlocks(sid, lines, k).value.out ==> '\n' !in l
    ensures lines != [] ==> TakeBlocks(sid, lines, k).value.out != []
    decreases |lines|
  {
    hide Trim, ParseEnt, EvenEnts, InvMark, ToEnts, EntRun;
    if lines != [] {
      if Trim(Py, lines[0]) != INV_OPEN {
        BlocksUnbroken(sid, lines[1..], k);
      } else {
        var ents := lines[ToEnts(lines[1..]).value + 2..];
        BlocksUnbroken(sid, ents[EntRun(ents)..], k + 1);
        InvMarkUnbroken(sid, k);
      }
    }
  }

  // ---- After extraction

  /** The extracted content carries the whole section. */
  lemma ExtractedCarries(sid: string, text: string, r: Records)
    requires MarkName(sid) && NoOpening(text) && GoodRecords(r) && TakeSection(sid, text).Some?
    requires var x := TakeSection(sid, text).value;
             && NamedWell(x.parts.cuts)
             && sid in r.absent && [r.absent[sid]] == x.absent.grids
             && sid in r.invariants && r.invariants[sid] == x.inv.blocks
    ensures var x := TakeSection(sid, text).value;
            CutsIn(text, 0, x.parts.cuts) && Carries(ContentOf(x), text, x.parts.cuts, r, {})
  {
    hide CodesOf, TakeGrids, TakeBlocks, RestoreAbsent, RestoreInvariants, AllIndented, MarkName, NoOpening, Spliced, Tidy, Flat,
      TidyText, Spaceless;
    var x := TakeSection(sid, text).value;
    CodesLie(text);
    var cuts := x.parts.cuts;
    var ts := Weave(text, 0, cuts, {});
    WeaveShows(text, 0, cuts);
    WeaveIsTidy(text, 0, cuts, {});
    var lines := SplitOn(Flat(ts), '\n');
    LinesAreTidy(ts);
    assert NoAbsentMarks(lines) && NoInvMarks(lines) by {
      forall i | 0 <= i < |lines| ensures AbsentMarkName(lines[i]) == None && InvMarkName(lines[i]) == None {
        TidyIsNoMark(lines[i]);
      }
    }
    SplitIsUnbroken(Flat(ts));
    assert Spaceless(sid) by { MarkNameIsSpaceless(sid); }
    GridsUnbroken(sid, lines);
    SplitJoined(x.absent.out);
    BlocksUnbroken(sid, x.absent.out, 0);
    SplitJoined(x.inv.out);
    ComesBack(sid, lines, r);
  }

  lemma MarkNameIsSpaceless(sid: string)
    requires MarkName(sid)
    ensures Spaceless(sid)
  {
  }

  // ---- After one replacement

  lemma {:induction false} AbsentKeeps(lines: seq<string>, r: Records, i: nat)
    requires RestoreAbsent(lines, r).Some? && i < |lines|
    ensures AbsentMarkName(lines[i]) == None ==> lines[i] in RestoreAbsent(lines, r).value
    ensures AbsentMarkName(lines[i]).Some? ==> AbsentMarkName(lines[i]).value in r.absent
    decreases lines
  {
    hide AbsentMarkName;
    if i > 0 {
      AbsentKeeps(lines[1..], r, i - 1);
    }
  }

  lemma {:induction false} InvKeeps(lines: seq<string>, r: Records, i: nat)
    requires RestoreInvariants(lines, r).Some? && i < |lines|
    ensures InvMarkName(lines[i]) == None ==> lines[i] in RestoreInvariants(lines, r).value
    ensures InvMarkName(lines[i]).Some? ==> InvMarkName(lines[i]).value.0 in r.invariants
    decreases lines
  {
    hide InvMarkName;
    if i > 0 {
      InvKeeps(lines[1..], r, i - 1);
    }
  }

  /** A marker line of a known section is not touched by the replacement. */
  lemma AbsentMarkIsSteady(line: string, r: Records, id: string)
    requires GoodRecords(r) && MarkName(id) && AbsentMarkName(line).Some? && AbsentMarkName(line).value in r.absent
    ensures AbsentSteady(line, CodeMark(NewPath(id)), FoldMark(id))
  {
    var sid := AbsentMarkName(line).value;
    assert MarkName(sid);
    assert line == ABSENT_MARK + sid + "]]";
    NewPathIsName(id);
    MarkLineHoldsNoCode(ABSENT_MARK, sid, NewPath(id));
  }

  lemma InvMarkIsSteady(line: string, r: Records, id: string)
    requires GoodRecords(r) && MarkName(id) && InvMarkName(line).Some? && InvMarkName(line).value.0 in r.invariants
    ensures InvSteady(line, CodeMark(NewPath(id)), FoldMark(id))
  {
    var inner := line[|INV_MARK|..|line| - 2];
    var sid := BeforeSpace(inner);
    var digits := inner[|sid| + 1..];
    assert InvMarkName(line).value.0 == sid && MarkName(sid);
    assert line == INV_MARK + inner + "]]";
    NewPathIsName(id);
    InnerHasNoOpening(sid, digits);
    assert inner == sid + " " + digits;
    MarkLineHoldsNoCode(INV_MARK, inner, NewPath(id));
  }

  lemma InnerHasNoOpening(sid: string, digits: string)
    requires MarkName(sid) && TomlParser.AllDigits(digits)
    ensures ']' !in sid + " " + digits && NoOpening(sid + " " + digits)
  {
    var inner := sid + " " + digits;
    forall i: nat | i < |inner| ensures !OpensAt(inner, i) {
      if i + 2 < |sid| {
        assert !OpensAt(sid, i);
        assert inner[i] == sid[i] && inner[i + 1] == sid[i + 1] && inner[i + 2] == sid[i + 2];
      }
    }
  }

  /** Every line of a carrying content is steady, in both stages of the restoration. */
  lemma LinesAreSteady(lines: seq<string>, r: Records, ts: seq<Tok>, id: string)
    requires GoodRecords(r) && MarkName(id) && Tidy(ts)
    requires RestoreBoth(lines, r) == Some(SplitOn(Flat(ts), '\n'))
    ensures var mark, other := CodeMark(NewPath(id)), FoldMark(id);
            && (forall i :: 0 <= i < |lines| ==> AbsentSteady(lines[i], mark, other))
            && var a := RestoreAbsent(lines, r).value;
               forall i :: 0 <= i < |a| ==> InvSteady(a[i], mark, other)
  {
    hide AbsentMarkName, InvMarkName, AbsentSteady, InvSteady, TidyText, MarkName, GoodRecords, RestoreAbsent, RestoreInvariants;
    var back := SplitOn(Flat(ts), '\n');
    LinesAreTidy(ts);
    var a := RestoreAbsent(lines, r).value;
    forall i | 0 <= i < |a| ensures InvSteady(a[i], CodeMark(NewPath(id)), FoldMark(id)) {
      InvKeeps(a, r, i);
      if InvMarkName(a[i]) == None {
        TidyIsSteady(a[i], id);
      } else {
        InvMarkIsSteady(a[i], r, id);
      }
    }
    forall i | 0 <= i < |lines| ensures AbsentSteady(lines[i], CodeMark(NewPath(id)), FoldMark(id)) {
      AbsentKeeps(lines, r, i);
      if AbsentMarkName(lines[i]).Some? {
        AbsentMarkIsSteady(lines[i], r, id);
      } else {
        var j :| 0 <= j < |a| && a[j] == lines[i];
        InvKeeps(a, r, j);
        if InvMarkName(lines[i]) == None {
          TidyIsSteady(lines[i], id);
        } else {
          InvMarkStaysNoAbsent(lines[i], r, id);
        }
      }
    }
  }

  lemma InvMarkStaysNoAbsent(line: string, r: Records, id: string)
    requires GoodRecords(r) && MarkName(id) && InvMarkName(line).Some? && InvMarkName(line).value.0 in r.invariants
    ensures AbsentSteady(line, CodeMark(NewPath(id)), FoldMark(id))
  {
    hide GoodRecords, MarkName, AbsentMarkName, InvMarkName;
    InvMarkIsSteady(line, r, id);
    NothingToReplace(line, CodeMark(NewPath(id)), FoldMark(id));
    MarksExclude(line);
  }

  lemma CodeMarkUnbroken(path: string)
    requires MarkName(path)
    ensures CodeMark(path) != "" && '\n' !in CodeMark(path)
  {
  }

  /** Replacing a block's marker, found once in the section, keeps the content carrying it. */
  lemma ReplacedCarries(content: string, text: string, cuts: seq<Cut>, r: Records, folded: set<string>, id: string)
    requires CutsIn(text, 0, cuts) && NoOpening(text) && NamedWell(cuts) && GoodRecords(r) && MarkName(id)
    requires Carries(content, text, cuts, r, folded) && id !in folded && NewSides(cuts, id) <= 1
    requires Contains(content, CodeMark(NewPath(id)))
    ensures Carries(ReplaceAll(content, CodeMark(NewPath(id)), FoldMark(id)), text, cuts, r, folded + {id})
    ensures NewSides(cuts, id) == 1
  {
    hide Tidy, Flat, MarkName, NoOpening, GoodRecords, RestoreAbsent, RestoreInvariants, ReplaceAll, Count, CodeMark, FoldMark, NewPath,
      AbsentSteady, InvSteady, Contains, SplitOn, Join;
    var mark, other := CodeMark(NewPath(id)), FoldMark(id);
    var ts := Weave(text, 0, cuts, folded);
    var lines, back := SplitOn(content, '\n'), SplitOn(Flat(ts), '\n');
    WeaveIsTidy(text, 0, cuts, folded);
    LinesAreSteady(lines, r, ts, id);
    var a := RestoreAbsent(lines, r).value;
    assert mark != "" && '\n' !in mark by { NewPathIsName(id); CodeMarkUnbroken(NewPath(id)); }
    AbsentReplaced(lines, r, mark, other);
    InvReplaced(a, r, mark, other);
    SplitIsUnbroken(content);
    SplitIsUnbroken(Flat(ts));
    JoinsBack(content);
    JoinsBack(Flat(ts));
    ReplaceJoined(lines, mark, other);
    ReplaceJoined(back, mark, other);
    CountFinds(content, mark);
    ReplaceTokens(ts, id);
    CountWeave(text, 0, cuts, folded, id);
    RefoldWeave(text, 0, cuts, folded, id);
    ReplacedLinesUnbroken(lines, mark, other, id);
    ReplacedLinesUnbroken(back, mark, other, id);
    SplitJoined(ReplaceLines(lines, mark, other));
    SplitJoined(ReplaceLines(back, mark, other));
  }

  lemma JoinsBack(s: string)
    ensures Join(SplitOn(s, '\n'), "\n") == s
  {
    SplitParts(s, '\n');
  }

  lemma {:induction false} ReplacedLinesUnbroken(lines: seq<string>, mark: string, other: string, id: string)
    requires Unbroken(lines) && mark != "" && MarkName(id) && other == FoldMark(id)
    ensures Unbroken(ReplaceLines(lines, mark, other))
    decreases lines
  {
    hide ReplaceAll, MarkName;
    ReplacedUnbroken(lines[0], mark, other) by { FoldMarkUnbroken(id); }
    assert '\n' !in other by { FoldMarkUnbroken(id); }
    if |lines| > 1 {
      ReplacedLinesUnbroken(lines[1..], mark, other, id);
    } else {
      assert ReplaceLines(lines[1..], mark, other) == [];
    }
  }

  lemma FoldMarkUnbroken(id: string)
    requires MarkName(id)
    ensures '\n' !in FoldMark(id)
  {
  }

  lemma {:induction false} ReplacedUnbroken(s: string, mark: string, other: string)
    requires mark != "" && '\n' !in s && '\n' !in other
    ensures '\n' !in ReplaceAll(s, mark, other)
    decreases |s|
  {
    if s != "" {
      if mark <= s {
        ReplacedUnbroken(s[|mark|..], mark, other);
      } else {
        ReplacedUnbroken(s[1..], mark, other);
      }
    }
  }

  // ---- At the build

  /** A content that carries a section is built back into it. */
  lemma CarriedIsBuilt(content: string, text: string, cuts: seq<Cut>, r: Records, folded: set<string>,
                       bodies: map<string, string>, files: map<string, string>)
    requires CutsIn(text, 0, cuts) && NoOpening(text) && NamedWell(cuts)
    requires Carries(content, text, cuts, r, folded)
    requires FoldsTo(text, cuts, folded, bodies) && FilesHold(text, Unfolded(cuts, folded), files)
    ensures BuildSection(content, r, bodies, files) == Some(text)
  {
    hide Tidy, Flat, MarkName, NoOpening, RestoreAbsent, RestoreInvariants, Substitute, SplitOn, Join, FoldsTo, FilesHold;
    var a := RestoreAbsent(SplitOn(content, '\n'), r).value;
    var shown := Flat(Weave(text, 0, cuts, folded));
    StageUnbroken(content, r, shown);
    SplitJoined(a);
    JoinsBack(shown);
    SubstituteFolds(text, 0, cuts, folded, bodies);
    UnfoldedNames(cuts, folded);
    SubstituteCodes(text, 0, Unfolded(cuts, folded), files);
    assert text[0..] == text;
  }

  lemma {:induction false} UnfoldedNames(cuts: seq<Cut>, folded: set<string>)
    requires NamedWell(cuts)
    ensures NamedWell(Unfolded(cuts, folded))
    ensures forall c :: c in Unfolded(cuts, folded) ==> c in cuts && !(c.isNew && c.id in folded)
    decreases cuts
  {
    hide MarkName;
    if cuts != [] {
      UnfoldedNames(cuts[1..], folded);
    }
  }

  lemma StageUnbroken(content: string, r: Records, shown: string)
    requires RestoreBoth(SplitOn(content, '\n'), r) == Some(SplitOn(shown, '\n'))
    ensures Unbroken(RestoreAbsent(SplitOn(content, '\n'), r).value)
  {
    hide SplitOn, InvMarkName, RestoreAbsent, RestoreInvariants;
    var a := RestoreAbsent(SplitOn(content, '\n'), r).value;
    SplitIsUnbroken(shown);
    assert a != [] by { NoLinesNothing(r); }
    forall l | l in a ensures '\n' !in l {
      var i :| 0 <= i < |a| && a[i] == l;
      InvKeeps(a, r, i);
      if InvMarkName(l).Some? {
        InvMarkLineUnbroken(l);
      }
    }
  }

  lemma NoLinesNothing(r: Records)
    ensures RestoreInvariants([], r) == Some([])
  {
  }

  lemma InvMarkLineUnbroken(line: string)
    requires InvMarkName(line).Some?
    ensures '\n' !in line
  {
    var inner := line[|INV_MARK|..|line| - 2];
    var sid := BeforeSpace(inner);
    var digits := inner[|sid| + 1..];
    assert line == INV_MARK + inner + "]]";
    assert inner == sid + " " + digits;
    SpacelessIsUnbroken(sid);
    assert '\n' !in digits;
  }
}
