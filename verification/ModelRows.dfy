/** Which record lines leave a section, stated on labelled sections: plain lines, grids and invariant blocks. */
module ModelRows {
  import opened Text
  import opened ModelRecords

  // ---- One record line

  lemma {:induction false} IndentIs(indent: string, rest: string)
    requires OnlySpace(Py, indent) && (rest == "" || !IsSpace(Py, rest[0]))
    ensures Indent(indent + rest) == indent
    decreases indent
  {
    if indent == "" {
      assert indent + rest == rest;
    } else {
      assert (indent + rest)[1..] == indent[1..] + rest;
      IndentIs(indent[1..], rest);
    }
  }

  lemma {:induction false} IndentIsSpace(line: string)
    ensures OnlySpace(Py, Indent(line))
  {
    if line != "" && IsSpace(Py, line[0]) {
      IndentIsSpace(line[1..]);
    }
  }

  /** A line holds an item exactly when it is white space, the item's opening, its text and its end. */
  lemma ItemMeans(line: string, indent: string, html: string)
    ensures ParseItem(line) == Some((indent, html)) <==> OnlySpace(Py, indent) && line == ItemLine(indent, html)
  {
    if ParseItem(line) == Some((indent, html)) {
      ItemRenders(line);
      IndentIsSpace(line);
    }
    if OnlySpace(Py, indent) && line == ItemLine(indent, html) {
      ItemIsParsed(line, indent, html);
    }
  }

  lemma ItemIsParsed(line: string, indent: string, html: string)
    requires OnlySpace(Py, indent) && line == ItemLine(indent, html)
    ensures ParseItem(line) == Some((indent, html))
  {
    hide Indent, OnlySpace;
    var after := ITEM_OPEN + html + DIV_END;
    assert line == indent + after;
    IndentIs(indent, after);
    assert line[|indent|..] == after;
    assert after[|ITEM_OPEN|..] == html + DIV_END;
    assert after[|ITEM_OPEN|..|after| - |DIV_END|] == html;
  }

  /** The name ends where the fields first begin. */
  predicate NameEnds(e: Ent) {
    forall j: nat :: j < |e.name| ==> !OccursAt(e.name + ENT_MID + e.body + ENT_END, ENT_MID, j)
  }

  lemma EntMeans(line: string, indent: string, e: Ent)
    ensures ParseEnt(line) == Some((indent, e)) <==> OnlySpace(Py, indent) && NameEnds(e) && line == EntLine(indent, e)
  {
    hide ParseEnt, EntLine, OnlySpace, NameEnds;
    if ParseEnt(line) == Some((indent, e)) {
      EntRenders(line);
      EntIsNamed(line, indent, e);
    }
    if OnlySpace(Py, indent) && NameEnds(e) && line == EntLine(indent, e) {
      EntIsParsed(line, indent, e);
    }
  }

  lemma EntIsNamed(line: string, indent: string, e: Ent)
    requires ParseEnt(line) == Some((indent, e))
    ensures OnlySpace(Py, indent) && NameEnds(e)
  {
    hide Find, OnlySpace, ENT_OPEN, ENT_MID, ENT_END;
    IndentIsSpace(line);
    var rest := line[|indent|..][|ENT_OPEN|..];
    var at := Find(rest, ENT_MID).value;
    FindIsFirst(rest, ENT_MID);
    var tail := rest[at + |ENT_MID|..];
    assert rest[at..] == ENT_MID + tail;
    assert tail == e.body + ENT_END;
    assert rest == e.name + (ENT_MID + tail);
    Four(e.name, ENT_MID, e.body, ENT_END);
  }

  lemma Four(a: string, b: string, c: string, d: string)
    ensures a + (b + (c + d)) == a + b + c + d
  {
  }

  lemma EntIsParsed(line: string, indent: string, e: Ent)
    requires OnlySpace(Py, indent) && NameEnds(e) && line == EntLine(indent, e)
    ensures ParseEnt(line) == Some((indent, e))
  {
    hide Indent, OnlySpace, Find;
    var rest := e.name + ENT_MID + e.body + ENT_END;
    var after := ENT_OPEN + rest;
    assert line == indent + after by { Six(indent, ENT_OPEN, e.name, ENT_MID, e.body, ENT_END); }
    IndentIs(indent, after);
    assert line[|indent|..] == after && after[|ENT_OPEN|..] == rest;
    NameIsFound(e);
    RestParts(e.name, ENT_MID, e.body, ENT_END);
    hide ENT_MID, ENT_END, ENT_OPEN;
  }

  lemma RestParts(name: string, mid: string, body: string, end: string)
    ensures var rest := name + mid + body + end;
            var tail := rest[|name| + |mid|..];
            rest[..|name|] == name && tail == body + end && tail[..|tail| - |end|] == body && EndsWith(tail, end)
  {
    var rest := name + mid + body + end;
    assert rest == (name + mid) + (body + end);
    assert rest[|name| + |mid|..] == body + end;
  }

  lemma Six(a: string, b: string, c: string, d: string, e: string, f: string)
    ensures a + (b + (c + d + e + f)) == a + b + c + d + e + f
  {
  }

  lemma NameIsFound(e: Ent)
    requires NameEnds(e)
    ensures Find(e.name + ENT_MID + e.body + ENT_END, ENT_MID) == Some(|e.name|)
  {
    hide Find, ENT_MID, ENT_END;
    var rest := e.name + ENT_MID + e.body + ENT_END;
    FindIsFirst(rest, ENT_MID);
    Four(e.name, ENT_MID, e.body, ENT_END);
    assert rest[|e.name|..] == ENT_MID + (e.body + ENT_END);
    assert OccursAt(rest, ENT_MID, |e.name|);
    forall j: nat | j < |e.name| ensures !(ENT_MID <= rest[j..]) {
      assert !OccursAt(rest, ENT_MID, j);
    }
  }

  // ---- Sections with grids

  ghost predicate Reads(line: string, what: string) { Padded(Py, line, what) }

  lemma ReadsMeans(line: string, what: string)
    requires what in {ABSENT_OPEN, INV_OPEN, ENTS_OPEN, DIV_END}
    ensures Trim(Py, line) == what <==> Reads(line, what)
  {
    TrimMeans(Py, line, what);
  }

  datatype Part = Plain(line: string) | Gridded(open: string, grid: Grid)

  function PartLines(x: Part): seq<string> {
    match x case Plain(line) => [line] case Gridded(open, grid) => [open] + ItemLines(grid)
  }

  function Lines(xs: seq<Part>): seq<string> {
    if xs == [] then [] else PartLines(xs[0]) + Lines(xs[1..])
  }

  /** What stays: a grid leaves its opening line and one marker. */
  function Left(sid: string, xs: seq<Part>): seq<string> {
    if xs == [] then []
    else (match xs[0] case Plain(line) => [line] case Gridded(open, _) => [open, "[[@absent " + sid + "]]"]) + Left(sid, xs[1..])
  }

  function Grids(xs: seq<Part>): seq<Grid> {
    if xs == [] then [] else (match xs[0] case Plain(_) => [] case Gridded(_, grid) => [grid]) + Grids(xs[1..])
  }

  ghost predicate GoodGrid(g: Grid) { OnlySpace(Py, g.indent) && (g.items == [] ==> g.indent == "") }

  /** Plain lines open no grid; a grid's closing line comes right after its items. */
  ghost predicate WellGridded(xs: seq<Part>) {
    xs == [] ||
    (&& (match xs[0]
         case Plain(line) => !Reads(line, ABSENT_OPEN)
         case Gridded(open, grid) =>
           Reads(open, ABSENT_OPEN) && GoodGrid(grid) && |xs| > 1 && xs[1].Plain? && Reads(xs[1].line, DIV_END))
     && WellGridded(xs[1..]))
  }

  lemma CloserIsNoItem(line: string)
    requires Reads(line, DIV_END)
    ensures !IsItem(line) && !IsEnt(line) && Trim(Py, line) == DIV_END
  {
    ReadsMeans(line, DIV_END);
    var a, z :| OnlySpace(Py, a) && OnlySpace(Py, z) && line == a + DIV_END + z;
    hide Indent, OnlySpace, Find;
    var after := DIV_END + z;
    assert line == a + after;
    CloserOpensNothing(after, z);
    IndentIs(a, after);
    assert line[|a|..] == after;
  }

  lemma CloserOpensNothing(after: string, z: string)
    requires after == DIV_END + z
    ensures !(ITEM_OPEN <= after) && !(ENT_OPEN <= after) && !IsSpace(Py, after[0])
  {
    assert after[1] == '/' && ITEM_OPEN[1] == 'd' && ENT_OPEN[1] == 'd';
  }

  lemma {:induction false} ItemRunIs(g: Grid, rest: seq<string>)
    requires OnlySpace(Py, g.indent) && (rest == [] || !IsItem(rest[0]))
    ensures ItemRun(ItemLines(g) + rest) == |g.items|
    decreases |g.items|
  {
    hide IsItem, ItemLine, OnlySpace;
    var lines := ItemLines(g) + rest;
    if g.items == [] {
      assert lines == rest;
    } else {
      var more := Grid(g.indent, g.items[1..]);
      ItemRunIs(more, rest);
      assert lines[1..] == ItemLines(more) + rest;
      assert lines[0] == ItemLine(g.indent, g.items[0]);
      ItemMeans(lines[0], g.indent, g.items[0]);
      ParsedIsItem(lines[0]);
    }
  }

  lemma ParsedIsItem(line: string)
    ensures IsItem(line) <==> ParseItem(line).Some?
    ensures IsItem(line) ==> ParseItem(line) == Some(ItemAt(line))
  {
  }

  lemma GridIsRead(g: Grid, rest: seq<string>)
    requires GoodGrid(g) && rest != [] && !IsItem(rest[0])
    ensures var items := ItemLines(g) + rest;
            var n := ItemRun(items);
            n == |g.items| && EvenItems(items, n) && GridOf(items, n) == g && items[n..] == rest
  {
    ItemRunIs(g, rest);
    hide IsItem, ItemLine, OnlySpace, ItemRun, ItemAt;
    var items, n := ItemLines(g) + rest, |g.items|;
    forall i | 0 <= i < n ensures ItemAt(items[i]) == (g.indent, g.items[i]) {
      assert items[i] == ItemLine(g.indent, g.items[i]);
      ItemMeans(items[i], g.indent, g.items[i]);
      ParsedIsItem(items[i]);
    }
    assert GridOf(items, n).items == g.items;
  }

  lemma RunIsGood(items: seq<string>)
    requires EvenItems(items, ItemRun(items))
    ensures GoodGrid(GridOf(items, ItemRun(items)))
  {
    hide ItemRun, IsItem;
    if ItemRun(items) > 0 {
      ParsedIsItem(items[0]);
      ItemMeans(items[0], ItemAt(items[0]).0, ItemAt(items[0]).1);
    }
  }

  lemma PlainIsLeft(sid: string, line: string, rest: seq<string>)
    requires Trim(Py, line) != ABSENT_OPEN
    ensures TakeGrids(sid, [line] + rest) ==
            if TakeGrids(sid, rest).Some? then Some(AbsentOut([line] + TakeGrids(sid, rest).value.out, TakeGrids(sid, rest).value.grids))
            else None
  {
    hide Trim, ItemRun;
    assert ([line] + rest)[1..] == rest;
  }

  /** The program's step over one grid. */
  lemma GridIsTaken(sid: string, open: string, g: Grid, rest: seq<string>)
    requires Reads(open, ABSENT_OPEN) && GoodGrid(g) && rest != [] && Reads(rest[0], DIV_END)
    ensures TakeGrids(sid, [open] + ItemLines(g) + rest) ==
            Prepend([open, "[[@absent " + sid + "]]"], [g], TakeGrids(sid, rest))
  {
    hide Reads, GoodGrid, ItemRun, IsItem, ItemLines, EvenItems, GridOf, Trim;
    ReadsMeans(open, ABSENT_OPEN);
    CloserIsNoItem(rest[0]);
    GridIsRead(g, rest);
    var lines := [open] + ItemLines(g) + rest;
    assert lines[0] == open && lines[1..] == ItemLines(g) + rest;
  }

  lemma {:induction false} GridsAreTaken(sid: string, xs: seq<Part>)
    requires WellGridded(xs)
    ensures TakeGrids(sid, Lines(xs)) == Some(AbsentOut(Left(sid, xs), Grids(xs)))
    decreases xs
  {
    hide Reads, GoodGrid, ItemRun, IsItem, ItemLines, EvenItems, GridOf, Trim;
    if xs != [] {
      GridsAreTaken(sid, xs[1..]);
      match xs[0]
      case Plain(line) =>
        ReadsMeans(line, ABSENT_OPEN);
        PlainIsLeft(sid, line, Lines(xs[1..]));
        assert [] + Grids(xs[1..]) == Grids(xs[1..]);
      case Gridded(open, grid) =>
        ReadsMeans(open, ABSENT_OPEN);
        var rest := Lines(xs[1..]);
        assert rest[0] == xs[1].line;
        GridIsTaken(sid, open, grid, rest);
    }
  }

  lemma {:induction false} TakenIsGridded(sid: string, lines: seq<string>) returns (xs: seq<Part>)
    requires TakeGrids(sid, lines).Some?
    ensures WellGridded(xs) && Lines(xs) == lines
    decreases |lines|
  {
    hide Reads, GoodGrid, IsItem, ItemLines, EvenItems, GridOf, Trim, ItemRun;
    if lines == [] {
      xs := [];
    } else {
      ReadsMeans(lines[0], ABSENT_OPEN);
      if Trim(Py, lines[0]) != ABSENT_OPEN {
        var rest := TakenIsGridded(sid, lines[1..]);
        xs := [Plain(lines[0])] + rest;
        assert xs[1..] == rest;
      } else {
        var items := lines[1..];
        var n := ItemRun(items);
        var rest := TakenIsGridded(sid, items[n..]);
        ReadsMeans(items[n], DIV_END);
        FirstIsPlain(rest, items[n]);
        RunIsGood(items);
        RunRenders(items, n);
        xs := [Gridded(lines[0], GridOf(items, n))] + rest;
        assert xs[1..] == rest;
        assert items == items[..n] + items[n..];
      }
    }
  }

  /** A closing line is a plain line. */
  lemma FirstIsPlain(xs: seq<Part>, line: string)
    requires WellGridded(xs) && Lines(xs) != [] && Lines(xs)[0] == line && Reads(line, DIV_END)
    ensures xs != [] && xs[0] == Plain(line)
  {
    hide Reads, GoodGrid, ItemLines;
    ReadsMeans(line, ABSENT_OPEN);
    ReadsMeans(line, DIV_END);
    assert DIV_END != ABSENT_OPEN;
  }

  /** The grids leave a section exactly as it is labelled, or the program stops. */
  lemma GridsMean(sid: string, lines: seq<string>, out: AbsentOut)
    ensures TakeGrids(sid, lines) == Some(out) <==>
            exists xs :: WellGridded(xs) && Lines(xs) == lines && out == AbsentOut(Left(sid, xs), Grids(xs))
  {
    hide TakeGrids, WellGridded, Lines, Left, Grids;
    if TakeGrids(sid, lines) == Some(out) {
      var xs := TakenIsGridded(sid, lines);
      GridsAreTaken(sid, xs);
    }
    forall xs | WellGridded(xs) && Lines(xs) == lines ensures TakeGrids(sid, lines) == Some(AbsentOut(Left(sid, xs), Grids(xs))) {
      GridsAreTaken(sid, xs);
    }
  }

  /** Exactly one grid, with items, is asked for. */
  lemma AbsentMeans(sid: string, lines: seq<string>, out: AbsentOut)
    ensures TakeAbsent(sid, lines) == Some(out) <==>
            exists xs, g :: WellGridded(xs) && Lines(xs) == lines && out == AbsentOut(Left(sid, xs), [g]) && Grids(xs) == [g] && g.items != []
  {
    hide TakeGrids, WellGridded, Lines, Left, Grids;
    GridsMean(sid, lines, out);
    if out.grids != [] && |out.grids| == 1 {
      assert out.grids == [out.grids[0]];
    }
  }

  // ---- Sections with invariant blocks

  datatype Piece = Other(line: string) | Blocked(open: string, between: seq<string>, ents: string, block: Block)

  function PieceLines(x: Piece): seq<string> {
    match x case Other(line) => [line] case Blocked(open, between, ents, block) => [open] + between + [ents] + EntLines(block)
  }

  function AllLines(xs: seq<Piece>): seq<string> {
    if xs == [] then [] else PieceLines(xs[0]) + AllLines(xs[1..])
  }

  /** What stays: a block leaves its lines up to the list and one numbered marker. */
  function Kept(sid: string, xs: seq<Piece>, k: nat): seq<string> {
    if xs == [] then []
    else
      match xs[0]
      case Other(line) => [line] + Kept(sid, xs[1..], k)
      case Blocked(open, between, ents, _) => [open] + between + [ents] + [InvMark(sid, k)] + Kept(sid, xs[1..], k + 1)
  }

  function Blocks(xs: seq<Piece>): seq<Block> {
    if xs == [] then [] else (match xs[0] case Other(_) => [] case Blocked(_, _, _, block) => [block]) + Blocks(xs[1..])
  }

  ghost predicate GoodBlock(b: Block) {
    OnlySpace(Py, b.indent) && b.items != [] && forall i :: 0 <= i < |b.items| ==> NameEnds(b.items[i])
  }

  ghost predicate Betweens(lines: seq<string>) {
    forall i :: 0 <= i < |lines| ==> !Reads(lines[i], ENTS_OPEN) && !Reads(lines[i], DIV_END)
  }

  /** A block runs from its opening over lines that neither open a list nor close, to its list with entries,
      and a closing line right after them. */
  ghost predicate WellBlocked(xs: seq<Piece>) {
    xs == [] ||
    (&& (match xs[0]
         case Other(line) => !Reads(line, INV_OPEN)
         case Blocked(open, between, ents, block) =>
           && Reads(open, INV_OPEN) && Betweens(between) && Reads(ents, ENTS_OPEN) && GoodBlock(block)
           && |xs| > 1 && xs[1].Other? && Reads(xs[1].line, DIV_END))
     && WellBlocked(xs[1..]))
  }

  lemma {:induction false} ToEntsIs(between: seq<string>, ents: string, rest: seq<string>)
    requires Betweens(between) && Reads(ents, ENTS_OPEN)
    ensures ToEnts(between + [ents] + rest) == Some(|between|)
    decreases between
  {
    hide Reads, Trim;
    var lines := between + [ents] + rest;
    if between == [] {
      assert lines[0] == ents;
      ReadsMeans(ents, ENTS_OPEN);
    } else {
      assert lines[0] == between[0] && lines[1..] == between[1..] + [ents] + rest;
      ReadsMeans(between[0], ENTS_OPEN);
      ReadsMeans(between[0], DIV_END);
      ToEntsIs(between[1..], ents, rest);
    }
  }

  lemma {:induction false} ToEntsStops(lines: seq<string>)
    requires ToEnts(lines).Some?
    ensures Betweens(lines[..ToEnts(lines).value]) && Reads(lines[ToEnts(lines).value], ENTS_OPEN)
    decreases lines
  {
    hide Reads, Trim;
    ReadsMeans(lines[0], ENTS_OPEN);
    ReadsMeans(lines[0], DIV_END);
    if Trim(Py, lines[0]) != ENTS_OPEN {
      ToEntsStops(lines[1..]);
      var m := ToEnts(lines).value;
      assert lines[..m] == [lines[0]] + lines[1..][..m - 1];
    }
  }

  lemma ParsedIsEnt(line: string)
    ensures IsEnt(line) <==> ParseEnt(line).Some?
    ensures IsEnt(line) ==> ParseEnt(line) == Some(EntAt(line))
  {
  }

  lemma {:induction false} EntRunIs(b: Block, rest: seq<string>)
    requires OnlySpace(Py, b.indent) && (rest == [] || !IsEnt(rest[0])) && forall i :: 0 <= i < |b.items| ==> NameEnds(b.items[i])
    ensures EntRun(EntLines(b) + rest) == |b.items|
    decreases |b.items|
  {
    hide IsEnt, EntLine, OnlySpace, NameEnds;
    var lines := EntLines(b) + rest;
    if b.items == [] {
      assert lines == rest;
    } else {
      var more := Block(b.indent, b.items[1..]);
      EntRunIs(more, rest);
      assert lines[1..] == EntLines(more) + rest;
      assert lines[0] == EntLine(b.indent, b.items[0]);
      EntMeans(lines[0], b.indent, b.items[0]);
      ParsedIsEnt(lines[0]);
    }
  }

  lemma BlockIsRead(b: Block, rest: seq<string>)
    requires GoodBlock(b) && rest != [] && !IsEnt(rest[0])
    ensures var ents := EntLines(b) + rest;
            var n := EntRun(ents);
            n == |b.items| && EvenEnts(ents, n) && BlockOf(ents, n) == b && ents[n..] == rest
  {
    EntRunIs(b, rest);
    hide IsEnt, EntLine, OnlySpace, EntRun, EntAt, NameEnds;
    var ents, n := EntLines(b) + rest, |b.items|;
    forall i | 0 <= i < n ensures EntAt(ents[i]) == (b.indent, b.items[i]) {
      assert ents[i] == EntLine(b.indent, b.items[i]);
      EntMeans(ents[i], b.indent, b.items[i]);
      ParsedIsEnt(ents[i]);
    }
    assert BlockOf(ents, n).items == b.items;
  }

  lemma EntRunIsGood(ents: seq<string>)
    requires EntRun(ents) > 0 && EvenEnts(ents, EntRun(ents))
    ensures GoodBlock(BlockOf(ents, EntRun(ents)))
  {
    hide EntRun, IsEnt, NameEnds, OnlySpace;
    forall i | 0 <= i < EntRun(ents) ensures OnlySpace(Py, EntAt(ents[i]).0) && NameEnds(EntAt(ents[i]).1) {
      ParsedIsEnt(ents[i]);
      EntMeans(ents[i], EntAt(ents[i]).0, EntAt(ents[i]).1);
    }
  }

  /** The program's step over one block. */
  lemma BlockIsTaken(sid: string, open: string, between: seq<string>, ents: string, b: Block, rest: seq<string>, k: nat)
    requires Reads(open, INV_OPEN) && Betweens(between) && Reads(ents, ENTS_OPEN) && GoodBlock(b)
    requires rest != [] && Reads(rest[0], DIV_END)
    ensures TakeBlocks(sid, [open] + between + [ents] + EntLines(b) + rest, k) ==
            PrependInv([open] + between + [ents] + [InvMark(sid, k)], [b], TakeBlocks(sid, rest, k + 1))
  {
    hide Reads, GoodBlock, EntRun, IsEnt, EntLines, EvenEnts, BlockOf, Trim, ToEnts, Betweens, InvMark;
    var lines := [open] + between + [ents] + EntLines(b) + rest;
    ReadsMeans(open, INV_OPEN);
    CloserIsNoItem(rest[0]);
    BlockIsRead(b, rest);
    var m := |between|;
    assert lines[1..] == between + [ents] + (EntLines(b) + rest);
    ToEntsIs(between, ents, EntLines(b) + rest);
    assert lines[m + 2..] == EntLines(b) + rest;
    assert lines[..m + 2] == [open] + between + [ents];
    assert b.items != [] by { GoodIsSome(b); }
  }

  lemma GoodIsSome(b: Block)
    requires GoodBlock(b)
    ensures b.items != []
  {
  }

  lemma OtherIsKept(sid: string, line: string, rest: seq<string>, k: nat)
    requires Trim(Py, line) != INV_OPEN
    ensures TakeBlocks(sid, [line] + rest, k) ==
            if TakeBlocks(sid, rest, k).Some? then Some(InvOut([line] + TakeBlocks(sid, rest, k).value.out, TakeBlocks(sid, rest, k).value.blocks))
            else None
  {
    hide Trim, EntRun, ToEnts;
    assert ([line] + rest)[1..] == rest;
  }

  lemma {:induction false} BlocksAreTaken(sid: string, xs: seq<Piece>, k: nat)
    requires WellBlocked(xs)
    ensures TakeBlocks(sid, AllLines(xs), k) == Some(InvOut(Kept(sid, xs, k), Blocks(xs)))
    decreases xs
  {
    hide Reads, GoodBlock, EntLines, Trim, Betweens, InvMark, ToEnts, EntRun;
    if xs == [] {
      NothingTaken(sid, k);
    } else {
      match xs[0]
      case Other(line) =>
        BlocksAreTaken(sid, xs[1..], k);
        ReadsMeans(line, INV_OPEN);
        OtherIsKept(sid, line, AllLines(xs[1..]), k);
        assert [] + Blocks(xs[1..]) == Blocks(xs[1..]);
      case Blocked(open, between, ents, block) =>
        BlocksAreTaken(sid, xs[1..], k + 1);
        var rest := AllLines(xs[1..]);
        assert rest[0] == xs[1].line;
        BlockIsTaken(sid, open, between, ents, block, rest, k);
    }
  }

  lemma NothingTaken(sid: string, k: nat)
    ensures TakeBlocks(sid, [], k) == Some(InvOut([], []))
  {
  }

  ghost predicate GoodPiece(x: Piece) {
    x.Blocked? && Reads(x.open, INV_OPEN) && Betweens(x.between) && Reads(x.ents, ENTS_OPEN) && GoodBlock(x.block)
  }

  /** The block that a taken section begins with. */
  lemma BlockFound(sid: string, lines: seq<string>, k: nat) returns (x: Piece, rest: seq<string>)
    requires lines != [] && Trim(Py, lines[0]) == INV_OPEN && TakeBlocks(sid, lines, k).Some?
    ensures GoodPiece(x) && lines == PieceLines(x) + rest && |rest| < |lines|
    ensures rest != [] && Reads(rest[0], DIV_END) && TakeBlocks(sid, rest, k + 1).Some?
  {
    hide Reads, GoodBlock, IsEnt, EntLines, EvenEnts, BlockOf, Trim, EntRun, ToEnts, Betweens, InvMark;
    var m := ToEnts(lines[1..]).value;
    var ents := lines[m + 2..];
    var n := EntRun(ents);
    rest := ents[n..];
    TakenParts(sid, lines, k, m, n);
    hide TakeBlocks;
    ReadsMeans(lines[0], INV_OPEN);
    ToEntsStops(lines[1..]);
    ReadsMeans(rest[0], DIV_END);
    EntRunIsGood(ents);
    EntRunRenders(ents, n);
    x := Blocked(lines[0], lines[1..][..m], lines[m + 1], BlockOf(ents, n));
    assert lines == [lines[0]] + lines[1..][..m] + [lines[m + 1]] + ents[..n] + rest;
  }

  lemma TakenParts(sid: string, lines: seq<string>, k: nat, m: nat, n: nat)
    requires lines != [] && Trim(Py, lines[0]) == INV_OPEN && TakeBlocks(sid, lines, k).Some?
    requires ToEnts(lines[1..]) == Some(m) && n == EntRun(lines[m + 2..])
    ensures EvenEnts(lines[m + 2..], n) && 0 < n < |lines| - m - 2 && Trim(Py, lines[m + 2..][n]) == DIV_END
    ensures TakeBlocks(sid, lines[m + 2..][n..], k + 1).Some?
  {
    hide IsEnt, BlockOf, Trim, EntRun, ToEnts, InvMark;
  }

  lemma BlockFirst(x: Piece, xs: seq<Piece>)
    requires GoodPiece(x) && WellBlocked(xs) && xs != [] && xs[0].Other? && Reads(xs[0].line, DIV_END)
    ensures WellBlocked([x] + xs) && AllLines([x] + xs) == PieceLines(x) + AllLines(xs)
  {
    hide Reads, GoodBlock, Betweens, EntLines;
    assert ([x] + xs)[1..] == xs;
  }

  lemma {:induction false} TakenIsBlocked(sid: string, lines: seq<string>, k: nat) returns (xs: seq<Piece>)
    requires TakeBlocks(sid, lines, k).Some?
    ensures WellBlocked(xs) && AllLines(xs) == lines
    decreases |lines|
  {
    hide Reads, PieceLines, GoodPiece, GoodBlock, IsEnt, EntLines, EvenEnts, BlockOf, Trim, EntRun, ToEnts, Betweens, InvMark;
    if lines == [] {
      xs := [];
    } else if Trim(Py, lines[0]) == INV_OPEN {
      var x, rest := BlockFound(sid, lines, k);
      var more := TakenIsBlocked(sid, rest, k + 1);
      FirstIsOther(more, rest[0]);
      BlockFirst(x, more);
      xs := [x] + more;
    } else {
      var more := TakenIsBlocked(sid, lines[1..], k);
      OtherFirst(lines[0], more);
      xs := [Other(lines[0])] + more;
      assert lines == [lines[0]] + lines[1..];
    }
  }

  lemma OtherFirst(line: string, xs: seq<Piece>)
    requires Trim(Py, line) != INV_OPEN && WellBlocked(xs)
    ensures WellBlocked([Other(line)] + xs) && AllLines([Other(line)] + xs) == [line] + AllLines(xs)
  {
    hide Trim, Reads, GoodBlock, Betweens, EntLines;
    ReadsMeans(line, INV_OPEN);
    assert ([Other(line)] + xs)[1..] == xs;
  }

  lemma FirstIsOther(xs: seq<Piece>, line: string)
    requires WellBlocked(xs) && AllLines(xs) != [] && AllLines(xs)[0] == line && Reads(line, DIV_END)
    ensures xs != [] && xs[0] == Other(line)
  {
    hide Reads, GoodBlock, EntLines, Betweens;
    ReadsMeans(line, INV_OPEN);
    ReadsMeans(line, DIV_END);
    assert DIV_END != INV_OPEN;
  }

  /** The blocks leave a section exactly as it is labelled, numbered in order, or the program stops. */
  lemma InvariantsMean(sid: string, lines: seq<string>, out: InvOut)
    ensures TakeInvariants(sid, lines) == Some(out) <==>
            exists xs :: WellBlocked(xs) && AllLines(xs) == lines && Blocks(xs) != [] && out == InvOut(Kept(sid, xs, 0), Blocks(xs))
  {
    hide TakeBlocks, WellBlocked, AllLines, Kept, Blocks;
    if TakeInvariants(sid, lines) == Some(out) {
      var xs := TakenIsBlocked(sid, lines, 0);
      BlocksAreTaken(sid, xs, 0);
    }
    forall xs | WellBlocked(xs) && AllLines(xs) == lines ensures TakeBlocks(sid, lines, 0) == Some(InvOut(Kept(sid, xs, 0), Blocks(xs))) {
      BlocksAreTaken(sid, xs, 0);
    }
  }
}
