/** Record lines of a section: the absent grid and the invariant blocks, taken out into records that
    leave one marker line each, and put back. */
module ModelRecords {
  import opened Text
  import TomlParser
  import TomlPrinter

  const ABSENT_OPEN := "<div class=\"absent-grid\">"
  const ITEM_OPEN := "<div class=\"absent-item\">"
  const DIV_END := "</div>"
  const INV_OPEN := "<div class=\"agg invariant\">"
  const ENTS_OPEN := "<div class=\"ents\">"
  const ENT_OPEN := "<div class=\"ent\"><div class=\"en\">"
  const ENT_MID := "</div><div class=\"fields\">"
  const ENT_END := "</div></div>"

  datatype Grid = Grid(indent: string, items: seq<string>)
  datatype Ent = Ent(name: string, body: string)
  datatype Block = Block(indent: string, items: seq<Ent>)

  // ---- One record line

  function Indent(line: string): (r: string)
    ensures r <= line
  {
    if line != "" && IsSpace(Py, line[0]) then [line[0]] + Indent(line[1..]) else ""
  }

  function ItemLine(indent: string, html: string): string { indent + ITEM_OPEN + html + DIV_END }

  function EntLine(indent: string, ent: Ent): string {
    indent + ENT_OPEN + ent.name + ENT_MID + ent.body + ENT_END
  }

  /** Indent and content of an item line. */
  function ParseItem(line: string): Option<(string, string)> {
    var indent := Indent(line);
    var after := line[|indent|..];
    if ITEM_OPEN <= after && EndsWith(after[|ITEM_OPEN|..], DIV_END)
    then Some((indent, after[|ITEM_OPEN|..|after| - |DIV_END|]))
    else None
  }

  /** Indent, name and body of an entry line; the name ends where the fields first begin. */
  function ParseEnt(line: string): Option<(string, Ent)> {
    var indent := Indent(line);
    var after := line[|indent|..];
    if !(ENT_OPEN <= after) then None
    else
      var rest := after[|ENT_OPEN|..];
      var at :- Find(rest, ENT_MID);
      var tail := rest[at + |ENT_MID|..];
      if EndsWith(tail, ENT_END) then Some((indent, Ent(rest[..at], tail[..|tail| - |ENT_END|]))) else None
  }

  /** A text that opens and ends with fixed parts is those parts around its inside. */
  lemma InsideParts(after: string, open: string, end: string)
    requires open <= after && EndsWith(after[|open|..], end)
    ensures after == open + after[|open|..|after| - |end|] + end
  {
    var inner := after[|open|..];
    assert inner == inner[..|inner| - |end|] + end;
    assert after[|open|..|after| - |end|] == inner[..|inner| - |end|];
  }

  lemma ItemRenders(line: string)
    requires ParseItem(line).Some?
    ensures line == ItemLine(ParseItem(line).value.0, ParseItem(line).value.1)
  {
    hide ITEM_OPEN, DIV_END, Indent, EndsWith;
    var indent := Indent(line);
    var after := line[|indent|..];
    InsideParts(after, ITEM_OPEN, DIV_END);
    assert line == indent + after;
    hide ParseItem;
    Regroup3(indent, ITEM_OPEN, after[|ITEM_OPEN|..|after| - |DIV_END|], DIV_END);
  }

  lemma Regroup3(a: string, b: string, c: string, d: string)
    ensures a + (b + c + d) == a + b + c + d
  {
  }

  /** A text cut at an opening, a middle and an end is those parts in a row. */
  lemma PartsInARow(after: string, open: string, at: nat, mid: string, end: string)
    requires open <= after && at <= |after| - |open| && mid <= after[|open|..][at..]
    requires EndsWith(after[|open|..][at + |mid|..], end)
    ensures var rest := after[|open|..];
            var tail := rest[at + |mid|..];
            after == open + rest[..at] + mid + tail[..|tail| - |end|] + end
  {
    var rest := after[|open|..];
    var tail := rest[at + |mid|..];
    assert rest[at..] == mid + tail;
    assert tail == tail[..|tail| - |end|] + end;
  }

  lemma EntRenders(line: string)
    requires ParseEnt(line).Some?
    ensures line == EntLine(ParseEnt(line).value.0, ParseEnt(line).value.1)
  {
    hide Find, Indent, EndsWith, ENT_OPEN, ENT_MID, ENT_END;
    var indent := Indent(line);
    var after := line[|indent|..];
    var at := Find(after[|ENT_OPEN|..], ENT_MID).value;
    PartsInARow(after, ENT_OPEN, at, ENT_MID, ENT_END);
    var ent := ParseEnt(line).value.1;
    assert line == indent + after;
    hide ParseEnt;
    Regroup(indent, ENT_OPEN, ent.name, ENT_MID, ent.body, ENT_END);
  }

  lemma Regroup(a: string, b: string, c: string, d: string, e: string, f: string)
    ensures a + (b + c + d + e + f) == a + b + c + d + e + f
  {
  }

  // ---- Marker lines

  const ABSENT_MARK := "[[@absent "
  const INV_MARK := "[[@invariants "

  function AbsentMark(sid: string): string { ABSENT_MARK + sid + "]]" }

  function InvMark(sid: string, k: nat): string { INV_MARK + sid + " " + TomlPrinter.Decimal(k) + "]]" }

  predicate Spaceless(s: string) { s != "" && forall i :: 0 <= i < |s| ==> !IsSpace(Py, s[i]) }

  /** The section named by a whole marker line. */
  function AbsentMarkName(line: string): Option<string> {
    if ABSENT_MARK <= line && EndsWith(line[|ABSENT_MARK|..], "]]")
    then
      var name := line[|ABSENT_MARK|..|line| - 2];
      if Spaceless(name) then Some(name) else None
    else None
  }

  function BeforeSpace(s: string): (r: string)
    ensures r <= s && forall i :: 0 <= i < |r| ==> r[i] != ' '
    ensures |r| < |s| ==> s[|r|] == ' '
  {
    if s == "" || s[0] == ' ' then "" else [s[0]] + BeforeSpace(s[1..])
  }

  /** The section and the block number named by a whole marker line. */
  function InvMarkName(line: string): Option<(string, nat)> {
    if INV_MARK <= line && EndsWith(line[|INV_MARK|..], "]]")
    then
      var inner := line[|INV_MARK|..|line| - 2];
      var name := BeforeSpace(inner);
      if |name| == |inner| || !Spaceless(name) || !TomlParser.AllDigits(inner[|name| + 1..]) then None
      else Some((name, TomlParser.DigitsValue(inner[|name| + 1..])))
    else None
  }

  lemma AbsentMarkReads(sid: string)
    requires Spaceless(sid)
    ensures AbsentMarkName(AbsentMark(sid)) == Some(sid)
    ensures InvMarkName(AbsentMark(sid)) == None
  {
    var line := AbsentMark(sid);
    assert line[|ABSENT_MARK|..] == sid + "]]";
    assert line[|ABSENT_MARK|..|line| - 2] == sid;
    assert line[3] == 'a' && INV_MARK[3] == 'i';
  }

  lemma InsideOf(open: string, inner: string, end: string)
    ensures (open + inner + end)[|open|..] == inner + end
    ensures (open + inner + end)[|open|..|open + inner + end| - |end|] == inner
  {
  }

  lemma InvMarkReads(sid: string, k: nat)
    requires Spaceless(sid)
    ensures InvMarkName(InvMark(sid, k)) == Some((sid, k))
    ensures AbsentMarkName(InvMark(sid, k)) == None
  {
    hide TomlPrinter.Decimal, TomlParser.AllDigits, TomlParser.DigitsValue, BeforeSpace;
    var line, d := InvMark(sid, k), TomlPrinter.Decimal(k);
    var inner := sid + " " + d;
    assert line == INV_MARK + inner + "]]";
    InsideOf(INV_MARK, inner, "]]");
    BeforeSpaceOf(sid, d);
    assert inner[|sid| + 1..] == d;
    TomlPrinter.DecimalReads(k);
    assert line[3] == 'i' && ABSENT_MARK[3] == 'a';
  }

  lemma {:induction false} BeforeSpaceOf(name: string, d: string)
    requires forall i :: 0 <= i < |name| ==> !IsSpace(Py, name[i])
    ensures BeforeSpace(name + " " + d) == name
    decreases name
  {
    var all := name + " " + d;
    if name == "" {
      assert all[0] == ' ';
    } else {
      assert all[1..] == name[1..] + " " + d;
      BeforeSpaceOf(name[1..], d);
    }
  }

  // ---- Putting records back

  function ItemLines(g: Grid): seq<string> {
    seq(|g.items|, i requires 0 <= i < |g.items| => ItemLine(g.indent, g.items[i]))
  }

  function EntLines(b: Block): seq<string> {
    seq(|b.items|, i requires 0 <= i < |b.items| => EntLine(b.indent, b.items[i]))
  }

  /** The lines a record is rendered to; an empty record leaves an empty line. */
  function OrEmptyLine(lines: seq<string>): seq<string> { if lines == [] then [""] else lines }

  datatype Records = Records(absent: map<string, Grid>, invariants: map<string, seq<Block>>)

  /** A line with an absent marker rendered; none when the record is missing. */
  function AbsentLines(line: string, r: Records): Option<seq<string>> {
    match AbsentMarkName(line)
    case None => Some([line])
    case Some(sid) => if sid in r.absent then Some(OrEmptyLine(ItemLines(r.absent[sid]))) else None
  }

  function InvLines(line: string, r: Records): Option<seq<string>> {
    match InvMarkName(line)
    case None => Some([line])
    case Some(mark) =>
      if mark.0 in r.invariants && mark.1 < |r.invariants[mark.0]|
      then Some(OrEmptyLine(EntLines(r.invariants[mark.0][mark.1])))
      else None
  }

  function RestoreAbsent(lines: seq<string>, r: Records): Option<seq<string>> {
    if lines == [] then Some([])
    else
      var first :- AbsentLines(lines[0], r);
      var rest :- RestoreAbsent(lines[1..], r);
      Some(first + rest)
  }

  function RestoreInvariants(lines: seq<string>, r: Records): Option<seq<string>> {
    if lines == [] then Some([])
    else
      var first :- InvLines(lines[0], r);
      var rest :- RestoreInvariants(lines[1..], r);
      Some(first + rest)
  }

  // ---- Taking the absent grid out

  predicate IsItem(line: string) { ParseItem(line).Some? }

  predicate IsEnt(line: string) { ParseEnt(line).Some? }

  function ItemAt(line: string): (string, string)
    requires IsItem(line)
  {
    ParseItem(line).value
  }

  function EntAt(line: string): (string, Ent)
    requires IsEnt(line)
  {
    ParseEnt(line).value
  }

  /** How many lines from the start are items. */
  function ItemRun(lines: seq<string>): (n: nat)
    ensures n <= |lines|
    ensures forall i :: 0 <= i < n ==> IsItem(lines[i])
    ensures n < |lines| ==> !IsItem(lines[n])
  {
    hide IsItem;
    if lines == [] || !IsItem(lines[0]) then 0 else 1 + ItemRun(lines[1..])
  }

  predicate EvenItems(lines: seq<string>, n: nat)
    requires n <= |lines| && forall i :: 0 <= i < n ==> IsItem(lines[i])
  {
    forall i :: 0 <= i < n ==> ItemAt(lines[i]).0 == ItemAt(lines[0]).0
  }

  function GridOf(lines: seq<string>, n: nat): (g: Grid)
    requires n <= |lines| && forall i :: 0 <= i < n ==> IsItem(lines[i])
    ensures |g.items| == n
  {
    Grid(if n == 0 then "" else ItemAt(lines[0]).0,
         seq(n, i requires 0 <= i < n => ItemAt(lines[i]).1))
  }

  datatype AbsentOut = AbsentOut(out: seq<string>, grids: seq<Grid>)

  function Prepend(out: seq<string>, grids: seq<Grid>, rest: Option<AbsentOut>): Option<AbsentOut> {
    if rest == None then None else Some(AbsentOut(out + rest.value.out, grids + rest.value.grids))
  }

  /** Every grid replaced by a marker line. */
  function TakeGrids(sid: string, lines: seq<string>): Option<AbsentOut>
    decreases |lines|
  {
    if lines == [] then Some(AbsentOut([], []))
    else if Trim(Py, lines[0]) != ABSENT_OPEN then
      var rest :- TakeGrids(sid, lines[1..]);
      Some(AbsentOut([lines[0]] + rest.out, rest.grids))
    else
      var items := lines[1..];
      var n := ItemRun(items);
      if !EvenItems(items, n) || n == |items| || Trim(Py, items[n]) != DIV_END then None
      else Prepend([lines[0], AbsentMark(sid)], [GridOf(items, n)], TakeGrids(sid, items[n..]))
  }

  /** There must be exactly one grid, with items. */
  function TakeAbsent(sid: string, lines: seq<string>): Option<AbsentOut> {
    var taken :- TakeGrids(sid, lines);
    if |taken.grids| == 1 && taken.grids[0].items != [] then Some(taken) else None
  }

  // ---- Taking the invariant blocks out

  function EntRun(lines: seq<string>): (n: nat)
    ensures n <= |lines|
    ensures forall i :: 0 <= i < n ==> IsEnt(lines[i])
    ensures n < |lines| ==> !IsEnt(lines[n])
  {
    hide IsEnt;
    if lines == [] || !IsEnt(lines[0]) then 0 else 1 + EntRun(lines[1..])
  }

  predicate EvenEnts(lines: seq<string>, n: nat)
    requires n <= |lines| && forall i :: 0 <= i < n ==> IsEnt(lines[i])
  {
    forall i :: 0 <= i < n ==> EntAt(lines[i]).0 == EntAt(lines[0]).0
  }

  function BlockOf(lines: seq<string>, n: nat): (b: Block)
    requires n <= |lines| && forall i :: 0 <= i < n ==> IsEnt(lines[i])
    ensures |b.items| == n
  {
    Block(if n == 0 then "" else EntAt(lines[0]).0,
          seq(n, i requires 0 <= i < n => EntAt(lines[i]).1))
  }

  /** How many lines come before the list of entries; none when it does not come. */
  function ToEnts(lines: seq<string>): (m: Option<nat>)
    ensures m.Some? ==> m.value < |lines|
  {
    if lines == [] then Option<nat>.None
    else if Trim(Py, lines[0]) == ENTS_OPEN then Some(0)
    else if Trim(Py, lines[0]) == DIV_END then Option<nat>.None
    else
      match ToEnts(lines[1..])
      case None => Option<nat>.None
      case Some(m) => Some(m + 1)
  }

  datatype InvOut = InvOut(out: seq<string>, blocks: seq<Block>)

  function PrependInv(out: seq<string>, blocks: seq<Block>, rest: Option<InvOut>): Option<InvOut> {
    if rest == None then None else Some(InvOut(out + rest.value.out, blocks + rest.value.blocks))
  }

  /** Every block's entries replaced by a marker line, numbered from `k`. */
  function TakeBlocks(sid: string, lines: seq<string>, k: nat): Option<InvOut>
    decreases |lines|
  {
    if lines == [] then Some(InvOut([], []))
    else if Trim(Py, lines[0]) != INV_OPEN then
      var rest :- TakeBlocks(sid, lines[1..], k);
      Some(InvOut([lines[0]] + rest.out, rest.blocks))
    else
      match ToEnts(lines[1..])
      case None => None
      case Some(m) =>
        var ents := lines[m + 2..];
        var n := EntRun(ents);
        if !EvenEnts(ents, n) || n == 0 || n == |ents| || Trim(Py, ents[n]) != DIV_END then None
        else PrependInv(lines[..m + 2] + [InvMark(sid, k)], [BlockOf(ents, n)], TakeBlocks(sid, ents[n..], k + 1))
  }

  /** There must be at least one block. */
  function TakeInvariants(sid: string, lines: seq<string>): Option<InvOut> {
    var taken :- TakeBlocks(sid, lines, 0);
    if taken.blocks != [] then Some(taken) else None
  }

  // ---- Putting back what was taken out

  lemma RunRenders(lines: seq<string>, n: nat)
    requires n <= |lines| && forall i :: 0 <= i < n ==> IsItem(lines[i])
    requires EvenItems(lines, n)
    ensures ItemLines(GridOf(lines, n)) == lines[..n]
  {
    forall i | 0 <= i < n ensures ItemLine(GridOf(lines, n).indent, GridOf(lines, n).items[i]) == lines[i] {
      ItemRenders(lines[i]);
    }
  }

  lemma EntRunRenders(lines: seq<string>, n: nat)
    requires n <= |lines| && forall i :: 0 <= i < n ==> IsEnt(lines[i])
    requires EvenEnts(lines, n)
    ensures EntLines(BlockOf(lines, n)) == lines[..n]
  {
    forall i | 0 <= i < n ensures EntLine(BlockOf(lines, n).indent, BlockOf(lines, n).items[i]) == lines[i] {
      EntRenders(lines[i]);
    }
  }

  lemma {:induction false} RestoreAbsentConcat(a: seq<string>, b: seq<string>, r: Records)
    ensures RestoreAbsent(a + b, r) ==
            if RestoreAbsent(a, r).Some? && RestoreAbsent(b, r).Some?
            then Some(RestoreAbsent(a, r).value + RestoreAbsent(b, r).value) else None
    decreases a
  {
    hide AbsentLines;
    if a == [] {
      assert a + b == b;
      if RestoreAbsent(b, r).Some? {
        assert [] + RestoreAbsent(b, r).value == RestoreAbsent(b, r).value;
      }
    } else {
      assert (a + b)[1..] == a[1..] + b;
      RestoreAbsentConcat(a[1..], b, r);
      var first, x, y := AbsentLines(a[0], r), RestoreAbsent(a[1..], r), RestoreAbsent(b, r);
      if first.Some? && x.Some? && y.Some? {
        assert first.value + (x.value + y.value) == (first.value + x.value) + y.value;
      }
    }
  }

  lemma {:induction false} RestoreInvConcat(a: seq<string>, b: seq<string>, r: Records)
    ensures RestoreInvariants(a + b, r) ==
            if RestoreInvariants(a, r).Some? && RestoreInvariants(b, r).Some?
            then Some(RestoreInvariants(a, r).value + RestoreInvariants(b, r).value) else None
    decreases a
  {
    hide InvLines;
    if a == [] {
      assert a + b == b;
      if RestoreInvariants(b, r).Some? {
        assert [] + RestoreInvariants(b, r).value == RestoreInvariants(b, r).value;
      }
    } else {
      assert (a + b)[1..] == a[1..] + b;
      RestoreInvConcat(a[1..], b, r);
      var first, x, y := InvLines(a[0], r), RestoreInvariants(a[1..], r), RestoreInvariants(b, r);
      if first.Some? && x.Some? && y.Some? {
        assert first.value + (x.value + y.value) == (first.value + x.value) + y.value;
      }
    }
  }

  predicate NoAbsentMarks(lines: seq<string>) {
    forall i :: 0 <= i < |lines| ==> AbsentMarkName(lines[i]) == None
  }

  predicate NoInvMarks(lines: seq<string>) {
    forall i :: 0 <= i < |lines| ==> InvMarkName(lines[i]) == None
  }

  lemma {:induction false} PlainLinesStay(lines: seq<string>, r: Records)
    ensures NoAbsentMarks(lines) ==> RestoreAbsent(lines, r) == Some(lines)
    ensures NoInvMarks(lines) ==> RestoreInvariants(lines, r) == Some(lines)
    decreases lines
  {
    hide AbsentMarkName, InvMarkName;
    if lines != [] {
      PlainLinesStay(lines[1..], r);
      assert [lines[0]] + lines[1..] == lines;
    }
  }

  /** Putting the grids back undoes taking them out. */
  lemma {:induction false} GridsComeBack(sid: string, lines: seq<string>, r: Records)
    requires Spaceless(sid) && NoAbsentMarks(lines) && TakeGrids(sid, lines).Some?
    requires forall g :: g in TakeGrids(sid, lines).value.grids ==> g.items != [] && sid in r.absent && r.absent[sid] == g
    ensures RestoreAbsent(TakeGrids(sid, lines).value.out, r) == Some(lines)
    decreases |lines|
  {
    hide Trim, AbsentMarkName, ParseItem, EvenItems, GridOf, ItemRun, AbsentMark, Spaceless, ABSENT_OPEN, DIV_END;
    if lines != [] {
      var taken := TakeGrids(sid, lines).value;
      if Trim(Py, lines[0]) != ABSENT_OPEN {
        var rest := TakeGrids(sid, lines[1..]).value;
        GridsComeBack(sid, lines[1..], r);
        RestoreAbsentConcat([lines[0]], rest.out, r);
        PlainLinesStay([lines[0]], r);
        assert [lines[0]] + lines[1..] == lines;
      } else {
        var n := ItemRun(lines[1..]);
        var rest := TakeGrids(sid, lines[1..][n..]).value;
        assert rest.grids == taken.grids[1..] && taken.grids[0] in taken.grids;
        GridsComeBack(sid, lines[1..][n..], r);
        GridComesBack(sid, lines[0], lines[1..], n, rest.out, r);
        assert [lines[0]] + lines[1..] == lines;
      }
    }
  }

  lemma GridComesBack(sid: string, open: string, items: seq<string>, n: nat, out: seq<string>, r: Records)
    requires n <= |items| && Spaceless(sid) && AbsentMarkName(open) == None && RestoreAbsent(out, r) == Some(items[n..])
    requires (forall i :: 0 <= i < n ==> IsItem(items[i])) && EvenItems(items, n) && n > 0
    requires sid in r.absent && r.absent[sid] == GridOf(items, n)
    ensures RestoreAbsent([open, AbsentMark(sid)] + out, r) == Some([open] + items)
  {
    hide RestoreAbsent, AbsentMark, AbsentMarkName, ParseItem, EvenItems, GridOf, ItemLines, Spaceless;
    RestoreAbsentConcat([open, AbsentMark(sid)], out, r);
    RestoreAbsentConcat([open], [AbsentMark(sid)], r);
    assert [open, AbsentMark(sid)] == [open] + [AbsentMark(sid)];
    PlainLinesStay([open], r);
    RunRenders(items, n);
    OneGrid(sid, GridOf(items, n), r);
    assert [open] + items[..n] + items[n..] == [open] + items;
  }

  lemma OneGrid(sid: string, g: Grid, r: Records)
    requires Spaceless(sid) && g.items != [] && sid in r.absent && r.absent[sid] == g
    ensures RestoreAbsent([AbsentMark(sid)], r) == Some(ItemLines(g))
  {
    AbsentMarkReads(sid);
    assert ItemLines(g) + [] == ItemLines(g);
  }

  /** The parts of a block that was taken out. */
  lemma BlockTaken(sid: string, lines: seq<string>, k: nat) returns (at: nat, n: nat)
    requires lines != [] && Trim(Py, lines[0]) == INV_OPEN && TakeBlocks(sid, lines, k).Some?
    ensures at <= |lines| && 0 < n < |lines[at..]| && (forall i :: 0 <= i < n ==> IsEnt(lines[at..][i]))
    ensures EvenEnts(lines[at..], n) && TakeBlocks(sid, lines[at..][n..], k + 1).Some?
    ensures var taken, rest := TakeBlocks(sid, lines, k).value, TakeBlocks(sid, lines[at..][n..], k + 1).value;
            && taken.out == lines[..at] + [InvMark(sid, k)] + rest.out
            && taken.blocks == [BlockOf(lines[at..], n)] + rest.blocks
  {
    hide Trim, EvenEnts, ToEnts, BlockOf, InvMark, EntRun, IsEnt, INV_OPEN, DIV_END;
    at := ToEnts(lines[1..]).value + 2;
    n := EntRun(lines[at..]);
  }

  lemma PlainTaken(sid: string, lines: seq<string>, k: nat)
    requires lines != [] && Trim(Py, lines[0]) != INV_OPEN && TakeBlocks(sid, lines, k).Some?
    ensures TakeBlocks(sid, lines[1..], k).Some?
    ensures TakeBlocks(sid, lines, k).value ==
            var rest := TakeBlocks(sid, lines[1..], k).value; InvOut([lines[0]] + rest.out, rest.blocks)
  {
    hide Trim, EvenEnts, ToEnts, BlockOf, InvMark, EntRun, INV_OPEN, DIV_END;
  }

  lemma NothingTaken(sid: string, k: nat, r: Records)
    ensures TakeBlocks(sid, [], k) == Some(InvOut([], [])) && RestoreInvariants([], r) == Some([])
  {
  }

  predicate HoldsBlocks(r: Records, sid: string, k: nat, blocks: seq<Block>) {
    sid in r.invariants && k + |blocks| <= |r.invariants[sid]| && r.invariants[sid][k..k + |blocks|] == blocks
  }

  lemma PlainComesBack(sid: string, lines: seq<string>, k: nat, r: Records)
    requires lines != [] && Trim(Py, lines[0]) != INV_OPEN && NoInvMarks(lines) && TakeBlocks(sid, lines, k).Some?
    requires TakeBlocks(sid, lines[1..], k).Some?
    requires RestoreInvariants(TakeBlocks(sid, lines[1..], k).value.out, r) == Some(lines[1..])
    ensures RestoreInvariants(TakeBlocks(sid, lines, k).value.out, r) == Some(lines)
  {
    PlainTaken(sid, lines, k);
    hide TakeBlocks, RestoreInvariants, Trim, InvMarkName, INV_OPEN;
    RestoreInvConcat([lines[0]], TakeBlocks(sid, lines[1..], k).value.out, r);
    PlainLinesStay([lines[0]], r);
    assert [lines[0]] + lines[1..] == lines;
  }

  /** Putting the blocks back undoes taking them out. */
  lemma {:induction false} BlocksComeBack(sid: string, lines: seq<string>, k: nat, r: Records)
    requires Spaceless(sid) && NoInvMarks(lines) && TakeBlocks(sid, lines, k).Some?
    requires HoldsBlocks(r, sid, k, TakeBlocks(sid, lines, k).value.blocks)
    ensures RestoreInvariants(TakeBlocks(sid, lines, k).value.out, r) == Some(lines)
    decreases |lines|
  {
    if lines == [] {
      NothingTaken(sid, k, r);
    } else if Trim(Py, lines[0]) != INV_OPEN {
      PlainTaken(sid, lines, k);
      NoMarksInParts(lines, 0, 1);
      hide *;
      assert lines[0..][1..] == lines[1..];
      BlocksComeBack(sid, lines[1..], k, r);
      PlainComesBack(sid, lines, k, r);
    } else {
      var at, n := BlockTaken(sid, lines, k);
      NoMarksInParts(lines, at, n);
      hide *;
      var head, ents := lines[..at], lines[at..];
      var rest := TakeBlocks(sid, ents[n..], k + 1).value;
      BlockHeld(r, sid, k, BlockOf(ents, n), rest.blocks);
      BlocksComeBack(sid, ents[n..], k + 1, r);
      BlockComesBack(sid, head, ents, n, k, rest.out, r);
      HeadAndTail(lines, at);
    }
  }

  lemma HeadAndTail(lines: seq<string>, at: nat)
    requires at <= |lines|
    ensures lines[..at] + lines[at..] == lines
  {
  }

  /** The first block of a list that is held, and the others. */
  lemma BlockHeld(r: Records, sid: string, k: nat, first: Block, rest: seq<Block>)
    requires HoldsBlocks(r, sid, k, [first] + rest)
    ensures sid in r.invariants && k < |r.invariants[sid]| && r.invariants[sid][k] == first
    ensures HoldsBlocks(r, sid, k + 1, rest)
  {
    SliceSteps(r.invariants[sid], k, first, rest);
  }

  lemma SliceSteps(all: seq<Block>, k: nat, first: Block, rest: seq<Block>)
    requires k + 1 + |rest| <= |all| && all[k..k + 1 + |rest|] == [first] + rest
    ensures all[k] == first && all[k + 1..k + 1 + |rest|] == rest
  {
    assert all[k..k + 1 + |rest|][0] == first;
    assert all[k + 1..k + 1 + |rest|] == all[k..k + 1 + |rest|][1..];
  }

  lemma NoMarksInParts(lines: seq<string>, at: nat, n: nat)
    requires NoInvMarks(lines) && at <= |lines| && n <= |lines[at..]|
    ensures NoInvMarks(lines[..at]) && NoInvMarks(lines[at..][n..])
  {
    hide InvMarkName;
    assert lines[at..][n..] == lines[at + n..];
  }

  lemma BlockComesBack(sid: string, head: seq<string>, ents: seq<string>, n: nat, k: nat, out: seq<string>, r: Records)
    requires 0 < n <= |ents| && Spaceless(sid) && NoInvMarks(head) && RestoreInvariants(out, r) == Some(ents[n..])
    requires (forall i :: 0 <= i < n ==> IsEnt(ents[i])) && EvenEnts(ents, n)
    requires sid in r.invariants && k < |r.invariants[sid]| && r.invariants[sid][k] == BlockOf(ents, n)
    ensures RestoreInvariants(head + [InvMark(sid, k)] + out, r) == Some(head + ents)
  {
    hide RestoreInvariants, InvMark, InvMarkName, ParseEnt, EvenEnts, BlockOf, EntLines, Spaceless;
    RestoreInvConcat(head + [InvMark(sid, k)], out, r);
    RestoreInvConcat(head, [InvMark(sid, k)], r);
    PlainLinesStay(head, r);
    EntRunRenders(ents, n);
    OneBlock(sid, k, BlockOf(ents, n), r);
    assert head + ents[..n] + ents[n..] == head + ents;
  }

  lemma OneBlock(sid: string, k: nat, b: Block, r: Records)
    requires Spaceless(sid) && b.items != [] && sid in r.invariants && k < |r.invariants[sid]| && r.invariants[sid][k] == b
    ensures RestoreInvariants([InvMark(sid, k)], r) == Some(EntLines(b))
  {
    InvMarkReads(sid, k);
    assert EntLines(b) + [] == EntLines(b);
  }
}
