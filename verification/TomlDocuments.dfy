/** Printed documents: top-level entries, then named sections, with unset entries left out
    and blank lines normalised. The main result says exactly which documents read back. */
module TomlDocuments {
  import opened Text
  import opened Json
  import opened TomlLexer
  import opened TomlParser
  import opened TomlPrinter
  import opened TomlItems

  datatype Slot = Set(key: string, item: Item) | Unset | Note(text: string)

  datatype Block = Block(name: string, slots: seq<Slot>)

  datatype Doc = Doc(top: seq<Slot>, blocks: seq<Block>)

  // ---- Printing

  function SlotLine(slot: Slot): Option<string> {
    match slot
    case Set(key, item) => Some(RenderEntry(key, item))
    case Unset => None
    case Note(text) => Some("# " + text)
  }

  function SlotLines(slots: seq<Slot>): seq<Option<string>> {
    if slots == [] then [] else [SlotLine(slots[0])] + SlotLines(slots[1..])
  }

  function HeaderLine(name: string): string { "[" + name + "]" }

  function BlockLines(blocks: seq<Block>): seq<Option<string>> {
    if blocks == [] then []
    else [Some(""), Some(HeaderLine(blocks[0].name))] + SlotLines(blocks[0].slots) + BlockLines(blocks[1..])
  }

  function Lines(doc: Doc): seq<Option<string>> {
    SlotLines(doc.top) + BlockLines(doc.blocks)
  }

  /** One turn of the normalising loop: unset lines vanish, a blank line needs a visible one
      before it. */
  function PushLine(acc: seq<string>, line: Option<string>): seq<string> {
    match line
    case None => acc
    case Some(l) => if l == "" && (acc == [] || acc[|acc| - 1] == "") then acc else acc + [l]
  }

  function Collapse(acc: seq<string>, lines: seq<Option<string>>): seq<string>
    decreases lines
  {
    if lines == [] then acc else Collapse(PushLine(acc, lines[0]), lines[1..])
  }

  function DropTrailingBlanks(lines: seq<string>): seq<string> {
    if lines != [] && lines[|lines| - 1] == "" then DropTrailingBlanks(lines[..|lines| - 1]) else lines
  }

  function Normalize(lines: seq<Option<string>>): seq<string> {
    DropTrailingBlanks(Collapse([], lines))
  }

  method NormalizeTomlLines(lines: seq<Option<string>>) returns (normalized: seq<string>)
    ensures normalized == Normalize(lines)
  {
    normalized := [];
    ghost var rest := lines;
    for i := 0 to |lines|
      invariant rest == lines[i..]
      invariant Collapse([], lines) == Collapse(normalized, rest)
    {
      var line := lines[i];
      assert rest[0] == line;
      rest := rest[1..];
      if line == None {
        continue;
      }
      if |line.value| == 0 {
        if |normalized| == 0 || normalized[|normalized| - 1] == "" {
          continue;
        }
      }
      normalized := normalized + [line.value];
    }
    while |normalized| > 0 && normalized[|normalized| - 1] == ""
      invariant DropTrailingBlanks(normalized) == Normalize(lines)
    {
      normalized := normalized[..|normalized| - 1];
    }
  }

  function Render(lines: seq<Option<string>>): string {
    Join(Normalize(lines), "\n") + "\n"
  }

  // ---- What normalising keeps

  function Visible(lines: seq<string>): seq<string> {
    if lines == [] then []
    else (if lines[0] == "" then [] else [lines[0]]) + Visible(lines[1..])
  }

  function Shown(lines: seq<Option<string>>): seq<string> {
    if lines == [] then []
    else ShownOne(lines[0]) + Shown(lines[1..])
  }

  function ShownOne(line: Option<string>): seq<string> {
    if line == None || line.value == "" then [] else [line.value]
  }

  lemma {:induction false} VisibleConcat(a: seq<string>, b: seq<string>)
    ensures Visible(a + b) == Visible(a) + Visible(b)
  {
    if a == [] {
      assert a + b == b;
    } else {
      assert (a + b)[1..] == a[1..] + b;
      VisibleConcat(a[1..], b);
    }
  }

  lemma {:induction false} ShownConcat(a: seq<Option<string>>, b: seq<Option<string>>)
    ensures Shown(a + b) == Shown(a) + Shown(b)
  {
    if a == [] {
      assert a + b == b;
    } else {
      assert (a + b)[1..] == a[1..] + b;
      ShownConcat(a[1..], b);
    }
  }

  /** Blank lines stand alone and never first. */
  predicate Spaced(lines: seq<string>) {
    && (lines != [] ==> lines[0] != "")
    && forall i :: 0 < i < |lines| && lines[i] == "" ==> lines[i - 1] != ""
  }

  lemma PushKeeps(acc: seq<string>, line: Option<string>)
    requires Spaced(acc)
    ensures Spaced(PushLine(acc, line))
    ensures Visible(PushLine(acc, line)) == Visible(acc) + ShownOne(line)
  {
    if PushLine(acc, line) == acc {
      assert Visible(acc) + [] == Visible(acc);
    } else {
      VisibleConcat(acc, [line.value]);
      assert [line.value][1..] == [];
    }
  }

  lemma {:induction false} CollapseKeeps(acc: seq<string>, lines: seq<Option<string>>)
    requires Spaced(acc)
    ensures Spaced(Collapse(acc, lines))
    ensures Visible(Collapse(acc, lines)) == Visible(acc) + Shown(lines)
    decreases lines
  {
    if lines == [] {
      assert Visible(acc) + [] == Visible(acc);
    } else {
      hide *;
      var line, rest := lines[0], lines[1..];
      PushKeeps(acc, line);
      CollapseKeeps(PushLine(acc, line), rest);
      CollapseUnfold(acc, lines);
      ConcatAssoc(Visible(acc), ShownOne(line), Shown(rest));
    }
  }

  lemma ConcatAssoc(a: seq<string>, b: seq<string>, c: seq<string>)
    ensures a + b + c == a + (b + c)
  {
  }

  lemma CollapseUnfold(acc: seq<string>, lines: seq<Option<string>>)
    requires lines != []
    ensures Collapse(acc, lines) == Collapse(PushLine(acc, lines[0]), lines[1..])
    ensures Shown(lines) == ShownOne(lines[0]) + Shown(lines[1..])
  {
  }

  lemma {:induction false} DropKeeps(lines: seq<string>)
    requires Spaced(lines)
    ensures Spaced(DropTrailingBlanks(lines)) && Visible(DropTrailingBlanks(lines)) == Visible(lines)
    ensures DropTrailingBlanks(lines) != [] ==> DropTrailingBlanks(lines)[|DropTrailingBlanks(lines)| - 1] != ""
  {
    if lines != [] && lines[|lines| - 1] == "" {
      var most := lines[..|lines| - 1];
      assert lines == most + [""];
      VisibleConcat(most, [""]);
      assert Visible([""]) == [];
      DropKeeps(most);
    }
  }

  /** Normalised lines carry the same visible lines in order, with single blank lines strictly
      between them. */
  lemma NormalizeShape(lines: seq<Option<string>>)
    ensures var n := Normalize(lines);
            && Visible(n) == Shown(lines)
            && (n != [] ==> n[0] != "" && n[|n| - 1] != "")
            && forall i :: 0 < i < |n| && n[i] == "" ==> n[i - 1] != ""
  {
    CollapseKeeps([], lines);
    DropKeeps(Collapse([], lines));
    assert [] + Shown(lines) == Shown(lines);
  }

  // ---- Reading the printed lines

  predicate OneLine(s: string) { forall i :: 0 <= i < |s| ==> s[i] >= ' ' }

  predicate OneLiners(lines: seq<Option<string>>) {
    forall i :: 0 <= i < |lines| && lines[i].Some? ==> OneLine(lines[i].value)
  }

  lemma {:induction false} CollapseOneLine(acc: seq<string>, lines: seq<Option<string>>)
    requires OneLiners(lines) && forall i :: 0 <= i < |acc| ==> OneLine(acc[i])
    ensures forall i :: 0 <= i < |Collapse(acc, lines)| ==> OneLine(Collapse(acc, lines)[i])
    decreases lines
  {
    if lines != [] {
      CollapseOneLine(PushLine(acc, lines[0]), lines[1..]);
    }
  }

  lemma {:induction false} DropIsPrefix(lines: seq<string>)
    ensures DropTrailingBlanks(lines) <= lines
  {
    if lines != [] && lines[|lines| - 1] == "" {
      DropIsPrefix(lines[..|lines| - 1]);
    }
  }

  lemma {:induction false} NoReturns(lines: seq<string>)
    requires forall i :: 0 <= i < |lines| ==> OneLine(lines[i])
    ensures DropReturns(lines) == lines
  {
    if |lines| > 1 {
      assert OneLine(lines[0]);
      assert lines[0] == "" || lines[0][|lines[0]| - 1] >= ' ';
      NoReturns(lines[1..]);
    }
  }

  lemma {:induction false} JoinThenFeed(lines: seq<string>)
    requires lines != []
    ensures Join(lines, "\n") + "\n" == Join(lines + [""], "\n")
  {
    assert (lines + [""])[1..] == lines[1..] + [""];
    if |lines| == 1 {
      assert (lines + [""])[1..] == [""];
      assert Join([""], "\n") == "";
    } else {
      JoinThenFeed(lines[1..]);
    }
  }

  lemma RenderedLines(lines: seq<Option<string>>)
    requires OneLiners(lines) && Shown(lines) != []
    ensures SplitLines(Render(lines)) == Normalize(lines) + [""]
  {
    var n := Normalize(lines);
    NormalizeShape(lines);
    assert n != [];
    CollapseOneLine([], lines);
    DropIsPrefix(Collapse([], lines));
    var all := n + [""];
    assert forall i :: 0 <= i < |all| ==> OneLine(all[i]);
    JoinThenFeed(n);
    forall p | p in all ensures '\n' !in p {}
    SplitOfJoin(all, '\n');
    NoReturns(all);
  }

  lemma BlankLineStep(st: State)
    ensures Step(st, "") == Some(st)
  {
  }

  lemma {:induction false} RunVisible(st: State, lines: seq<string>)
    ensures Run(st, lines) == Run(st, Visible(lines))
    decreases |lines|
  {
    hide Step;
    if lines != [] {
      BlankLineStep(st);
      var next := Step(st, lines[0]);
      if lines[0] != "" {
        assert Visible(lines)[0] == lines[0] && Visible(lines)[1..] == Visible(lines[1..]);
      } else {
        assert Visible(lines) == Visible(lines[1..]);
      }
      if next.Some? {
        RunVisible(next.value, lines[1..]);
      }
    }
  }

  /** Reading printed lines is running the parser over the visible ones. */
  lemma RenderRuns(lines: seq<Option<string>>)
    requires OneLiners(lines) && Shown(lines) != []
    ensures Document(Render(lines)) ==
            match Run(START, Shown(lines)) case None => None case Some(st) => Some(st.root)
  {
    hide *;
    RenderedLines(lines);
    NormalizeShape(lines);
    RunAll(Normalize(lines));
    DocumentIsRun(Render(lines));
  }

  lemma DocumentIsRun(input: string)
    ensures Document(input) ==
            match Run(START, SplitLines(input)) case None => None case Some(st) => Some(st.root)
  {
  }

  lemma RunAll(lines: seq<string>)
    ensures Run(START, lines + [""]) == Run(START, Visible(lines))
  {
    RunVisible(START, lines + [""]);
    VisibleConcat(lines, [""]);
    assert Visible([""]) == [];
    assert Visible(lines) + [] == Visible(lines);
  }

  // ---- The record a document stands for

  predicate SlotsSurvive(slots: seq<Slot>) {
    forall i :: 0 <= i < |slots| && slots[i].Set? ==> Survives(slots[i].item)
  }

  predicate BlocksSurvive(blocks: seq<Block>) {
    forall i :: 0 <= i < |blocks| ==> SlotsSurvive(blocks[i].slots)
  }

  predicate DocSurvives(doc: Doc) {
    SlotsSurvive(doc.top) && BlocksSurvive(doc.blocks)
  }

  function SlotFields(slots: seq<Slot>): Record {
    if slots == [] then map[]
    else (if slots[0].Set? then map[slots[0].key := ItemValue(slots[0].item)] else map[]) + SlotFields(slots[1..])
  }

  function BlockFields(blocks: seq<Block>): Record {
    if blocks == [] then map[]
    else map[blocks[0].name := Rec(SlotFields(blocks[0].slots))] + BlockFields(blocks[1..])
  }

  function DocRecord(doc: Doc): Record {
    SlotFields(doc.top) + BlockFields(doc.blocks)
  }

  // ---- Documents the printer may be asked to print

  predicate WellSlots(slots: seq<Slot>, taken: set<string>) {
    slots == [] ||
    (match slots[0]
     case Set(key, _) => BareKey(key) && key != PROTO && key !in taken && WellSlots(slots[1..], taken + {key})
     case Unset => WellSlots(slots[1..], taken)
     case Note(text) => OneLine(text) && WellSlots(slots[1..], taken))
  }

  predicate WellBlocks(blocks: seq<Block>, taken: set<string>) {
    blocks == [] ||
    (&& BareKey(blocks[0].name) && blocks[0].name !in INHERITED && blocks[0].name !in taken
     && WellSlots(blocks[0].slots, {})
     && WellBlocks(blocks[1..], taken + {blocks[0].name}))
  }

  predicate WellFormed(doc: Doc) {
    && WellSlots(doc.top, {})
    && WellBlocks(doc.blocks, SlotFields(doc.top).Keys)
    && (doc.blocks != [] || Shown(SlotLines(doc.top)) != [])
  }

  // ---- Running the parser over one section's entries

  /** The root with fields added to the active section; only sections below the root are used. */
  function Extended(root: Record, active: seq<string>, fields: Record): Record
    requires |active| <= 1 && At(root, active).Some?
  {
    if active == [] then root + fields
    else root[active[0] := Rec(At(root, active).value + fields)]
  }

  lemma ExtendedOnce(root: Record, active: seq<string>, key: string, v: Value)
    requires |active| <= 1 && At(root, active).Some?
    ensures Put(root, active, key, v) == Extended(root, active, map[key := v])
    ensures Ensure(root, active) == Some(root)
  {
    if active == [] {
      assert root[key := v] == root + map[key := v];
    } else {
      var name := active[0];
      assert active[1..] == [] && active[..|active| - 1] == [];
      assert Ensure(root, []) == Some(root);
      var here := root[name].fields;
      assert At(here, []) == Some(here) && At(root, []) == Some(root);
      assert here[key := v] == here + map[key := v];
    }
  }

  lemma ExtendedTwice(root: Record, active: seq<string>, a: Record, b: Record)
    requires |active| <= 1 && At(root, active).Some?
    ensures At(Extended(root, active, a), active) == Some(At(root, active).value + a)
    ensures Extended(Extended(root, active, a), active, b) == Extended(root, active, a + b)
  {
    if active == [] {
      assert root + a + b == root + (a + b);
    } else {
      var name := active[0];
      var here := At(root, active).value;
      assert active[1..] == [];
      var one := Extended(root, active, a);
      assert one[name].fields == here + a;
      assert At(one, active) == At(one[name].fields, []) == Some(here + a);
      assert here + a + b == here + (a + b);
      assert one[name := Rec(here + a + b)] == root[name := Rec(here + a + b)];
    }
  }

  lemma ExtendedByNothing(root: Record, active: seq<string>)
    requires |active| <= 1 && At(root, active).Some?
    ensures Extended(root, active, map[]) == root
  {
    if active == [] {
      assert root + map[] == root;
    } else {
      var name := active[0];
      assert active[1..] == [];
      assert At(root, active) == Some(root[name].fields);
      assert root[name].fields + map[] == root[name].fields;
      assert root[name := root[name]] == root;
    }
  }

  lemma EntryStep(root: Record, active: seq<string>, key: string, item: Item)
    requires |active| <= 1 && At(root, active).Some? && key !in At(root, active).value
    requires BareKey(key) && key != PROTO
    ensures Step(State(root, active), RenderEntry(key, item)) ==
            if Survives(item) then Some(State(Extended(root, active, map[key := ItemValue(item)]), active)) else None
  {
    hide Classify, RenderEntry, ParseValue, Survives, ItemValue, Ensure, At, Put, Extended;
    var raw := EntryLine(key, item);
    ExtendedOnce(root, active, key, ItemValue(item));
  }

  lemma NoteStep(st: State, text: string)
    ensures Step(st, "# " + text) == Some(st)
  {
    var line := "# " + text;
    assert Reach(Plain, line, '#') == 0;
    assert line[..0] == "";
    assert Uncommented(line) == "";
  }

  lemma HeaderStep(root: Record, active: seq<string>, name: string)
    requires BareKey(name) && name !in INHERITED && name !in root
    ensures Step(State(root, active), HeaderLine(name)) == Some(State(root[name := Rec(map[])], [name]))
  {
    var line := HeaderLine(name);
    BareKeyText(name);
    assert '"' !in line && '\'' !in line && '#' !in line;
    PlainText(Plain, line, '#');
    assert line[..|line|] == line && line[1..|line| - 1] == name;
    TightIsFixed(Js, line);
    TightIsFixed(Js, name);
    assert EndsWith(line, "]");
    assert line[1] == name[0] != '[';
    assert Classify(line) == Header(name);
    SplitNone(name, '.');
    assert SectionPath(name) == [name];
    assert [name][..0] == [];
    assert Ensure(root, []) == Some(root) && At(root, []) == Some(root);
    assert Put(root, [], name, Rec(map[])) == root[name := Rec(map[])];
    assert Ensure(root, [name]) == Some(root[name := Rec(map[])]);
  }

  lemma EntryVisible(key: string, item: Item)
    ensures RenderEntry(key, item) != ""
  {
  }

  lemma RunCons(st: State, line: string, rest: seq<string>)
    ensures Run(st, [line] + rest) ==
            match Step(st, line) case None => None case Some(next) => Run(next, rest)
  {
    assert ([line] + rest)[1..] == rest;
  }

  lemma {:induction false} SlotsRun(root: Record, active: seq<string>, slots: seq<Slot>)
    requires |active| <= 1 && At(root, active).Some? && WellSlots(slots, At(root, active).value.Keys)
    ensures Run(State(root, active), Shown(SlotLines(slots))) ==
            if SlotsSurvive(slots) then Some(State(Extended(root, active, SlotFields(slots)), active)) else None
    decreases slots
  {
    hide Step, At, Extended, RenderEntry, Survives, ItemValue;
    if slots == [] {
      ExtendedByNothing(root, active);
    } else {
      var rest := slots[1..];
      assert SlotsSurvive(slots) <==> (slots[0].Set? ==> Survives(slots[0].item)) && SlotsSurvive(rest) by {
        assert forall i :: 0 <= i < |rest| ==> rest[i] == slots[i + 1];
      }
      match slots[0] {
        case Set(key, item) =>
          var st, fields := State(root, active), map[key := ItemValue(item)];
          EntryStep(root, active, key, item);
          EntryVisible(key, item);
          RunCons(st, RenderEntry(key, item), Shown(SlotLines(rest)));
          if Survives(item) {
            var one := Extended(root, active, fields);
            ExtendedTwice(root, active, fields, SlotFields(rest));
            assert At(one, active).value.Keys == At(root, active).value.Keys + {key};
            SlotsRun(one, active, rest);
          }
        case Unset =>
          assert map[] + SlotFields(rest) == SlotFields(rest);
          assert [] + Shown(SlotLines(rest)) == Shown(SlotLines(rest));
          SlotsRun(root, active, rest);
        case Note(text) =>
          assert map[] + SlotFields(rest) == SlotFields(rest);
          NoteStep(State(root, active), text);
          SlotsRun(root, active, rest);
      }
    }
  }

  // ---- Running the parser over all sections

  lemma ShownBlock(block: Block, rest: seq<Block>)
    requires BareKey(block.name)
    ensures Shown(BlockLines([block] + rest)) ==
            [HeaderLine(block.name)] + Shown(SlotLines(block.slots)) + Shown(BlockLines(rest))
  {
    assert ([block] + rest)[1..] == rest;
    var head: seq<Option<string>> := [Some(""), Some(HeaderLine(block.name))];
    ShownConcat(head + SlotLines(block.slots), BlockLines(rest));
    ShownConcat(head, SlotLines(block.slots));
    assert head[1..] == [Some(HeaderLine(block.name))];
    assert Shown(head) == [HeaderLine(block.name)];
  }

  /** The header opens an empty section, the entries fill it. */
  lemma OneBlockRuns(root: Record, active: seq<string>, block: Block)
    requires WellBlocks([block], root.Keys)
    ensures Run(State(root, active), [HeaderLine(block.name)] + Shown(SlotLines(block.slots))) ==
            if SlotsSurvive(block.slots)
            then Some(State(root[block.name := Rec(SlotFields(block.slots))], [block.name])) else None
  {
    hide Step, Run, WellSlots, SlotFields, Shown, SlotLines;
    var name := block.name;
    assert [block][0] == block;
    var started := root[name := Rec(map[])];
    HeaderStep(root, active, name);
    RunCons(State(root, active), HeaderLine(name), Shown(SlotLines(block.slots)));
    assert [name][1..] == [];
    var empty: Record := map[];
    assert At(started, [name]) == At(empty, []) == Some(empty) && empty.Keys == {};
    SlotsRun(started, [name], block.slots);
    assert map[] + SlotFields(block.slots) == SlotFields(block.slots);
    assert started[name := Rec(SlotFields(block.slots))] == root[name := Rec(SlotFields(block.slots))];
  }

  function RootOf(r: Option<State>): Option<Record> {
    match r case None => None case Some(st) => Some(st.root)
  }

  lemma BlocksSurviveCons(block: Block, rest: seq<Block>)
    ensures BlocksSurvive([block] + rest) <==> SlotsSurvive(block.slots) && BlocksSurvive(rest)
  {
    var blocks := [block] + rest;
    assert forall i :: 0 <= i < |rest| ==> rest[i] == blocks[i + 1];
    assert blocks[0] == block;
  }

  lemma WellBlocksCons(block: Block, rest: seq<Block>, taken: set<string>)
    requires WellBlocks([block] + rest, taken)
    ensures WellBlocks([block], taken) && WellBlocks(rest, taken + {block.name}) && BareKey(block.name)
  {
    assert ([block] + rest)[1..] == rest;
  }

  lemma BlockFieldsCons(root: Record, block: Block, rest: seq<Block>)
    ensures root + BlockFields([block] + rest) == root[block.name := Rec(SlotFields(block.slots))] + BlockFields(rest)
  {
    assert ([block] + rest)[1..] == rest;
  }

  lemma {:induction false} BlocksRun(root: Record, active: seq<string>, blocks: seq<Block>)
    requires WellBlocks(blocks, root.Keys)
    ensures RootOf(Run(State(root, active), Shown(BlockLines(blocks)))) ==
            if BlocksSurvive(blocks) then Some(root + BlockFields(blocks)) else None
    decreases blocks
  {
    if blocks == [] {
      NoBlocks(root, active);
    } else {
      hide *;
      var block, rest := blocks[0], blocks[1..];
      assert blocks == [block] + rest;
      ShownBlockRuns(root, active, block, rest);
      WellBlocksCons(block, rest, root.Keys);
      BlocksSurviveCons(block, rest);
      if SlotsSurvive(block.slots) {
        var next := root[block.name := Rec(SlotFields(block.slots))];
        assert next.Keys == root.Keys + {block.name};
        BlocksRun(next, [block.name], rest);
        BlockFieldsCons(root, block, rest);
      }
    }
  }

  lemma NoBlocks(root: Record, active: seq<string>)
    ensures RootOf(Run(State(root, active), Shown(BlockLines([])))) == Some(root + BlockFields([]))
    ensures BlocksSurvive([])
  {
    assert root + map[] == root;
  }

  /** The first section runs, then the others. */
  lemma ShownBlockRuns(root: Record, active: seq<string>, block: Block, rest: seq<Block>)
    requires WellBlocks([block] + rest, root.Keys)
    ensures RootOf(Run(State(root, active), Shown(BlockLines([block] + rest)))) ==
            if !SlotsSurvive(block.slots) then None
            else RootOf(Run(State(root[block.name := Rec(SlotFields(block.slots))], [block.name]), Shown(BlockLines(rest))))
  {
    hide Run, Shown, WellBlocks, SlotsSurvive, SlotFields, SlotLines, BlockLines;
    WellBlocksCons(block, rest, root.Keys);
    ShownBlock(block, rest);
    OneBlockRuns(root, active, block);
    RunConcat(State(root, active), [HeaderLine(block.name)] + Shown(SlotLines(block.slots)), Shown(BlockLines(rest)));
  }

  // ---- The round trip

  lemma {:induction false} SlotsAreOneLiners(slots: seq<Slot>, taken: set<string>)
    requires WellSlots(slots, taken)
    ensures OneLiners(SlotLines(slots))
    decreases slots
  {
    if slots != [] {
      var more := match slots[0] case Set(key, _) => taken + {key} case _ => taken;
      SlotsAreOneLiners(slots[1..], more);
      match slots[0] {
        case Set(key, item) => EntryIsOneLine(key, item);
        case Unset =>
        case Note(text) =>
      }
    }
  }

  lemma {:induction false} QuotesAreOneLine(texts: seq<string>)
    ensures OneLine(Elements(texts))
    decreases texts
  {
    if texts != [] {
      ElementsUnfold(texts);
      QuoteIsOneLine(texts[0]);
      if |texts| > 1 {
        QuotesAreOneLine(texts[1..]);
      }
    }
  }

  lemma QuoteIsOneLine(s: string)
    ensures OneLine(Quote(s))
  {
    EscapeIsOneLine(s);
    assert forall i :: 0 <= i < |Escape(s)| ==> Escape(s)[i] in Escape(s);
  }

  lemma EntryIsOneLine(key: string, item: Item)
    requires BareKey(key)
    ensures OneLine(RenderEntry(key, item))
  {
    assert OneLine(key) by {
      assert forall i :: 0 <= i < |key| ==> BareChar(key[i]);
    }
    match item {
      case Text(s) => QuoteIsOneLine(s);
      case Texts(xs) => QuotesAreOneLine(xs);
      case Count(n) => DecimalReads(n);
      case Flag(b) =>
    }
  }

  lemma {:induction false} BlocksAreOneLiners(blocks: seq<Block>, taken: set<string>)
    requires WellBlocks(blocks, taken)
    ensures OneLiners(BlockLines(blocks))
    decreases blocks
  {
    if blocks != [] {
      SlotsAreOneLiners(blocks[0].slots, {});
      BlocksAreOneLiners(blocks[1..], taken + {blocks[0].name});
      var name := blocks[0].name;
      assert OneLine(HeaderLine(name)) by {
        assert forall i :: 0 <= i < |name| ==> BareChar(name[i]);
      }
    }
  }

  lemma DocIsVisible(doc: Doc)
    requires WellFormed(doc)
    ensures OneLiners(Lines(doc)) && Shown(Lines(doc)) != []
    ensures Shown(Lines(doc)) == Shown(SlotLines(doc.top)) + Shown(BlockLines(doc.blocks))
  {
    SlotsAreOneLiners(doc.top, {});
    BlocksAreOneLiners(doc.blocks, SlotFields(doc.top).Keys);
    ShownConcat(SlotLines(doc.top), BlockLines(doc.blocks));
    if doc.blocks != [] {
      assert doc.blocks == [doc.blocks[0]] + doc.blocks[1..];
      ShownBlock(doc.blocks[0], doc.blocks[1..]);
    }
  }

  /** A printed document reads back as the record it stands for exactly when every printed item
      survives the parser's quote-blind comment and comma scans; otherwise it is refused. */
  lemma DocumentRoundTrip(doc: Doc)
    requires WellFormed(doc)
    ensures Document(Render(Lines(doc))) == if DocSurvives(doc) then Some(DocRecord(doc)) else None
  {
    hide Run, Shown, SlotFields, WellSlots, WellBlocks, BlockFields, SlotLines, BlockLines, Render, Document;
    DocIsVisible(doc);
    RenderRuns(Lines(doc));
    var top := Shown(SlotLines(doc.top));
    RunConcat(START, top, Shown(BlockLines(doc.blocks)));
    var empty: Record := map[];
    assert At(empty, []) == Some(empty) && empty.Keys == {};
    SlotsRun(map[], [], doc.top);
    if SlotsSurvive(doc.top) {
      assert map[] + SlotFields(doc.top) == SlotFields(doc.top);
      BlocksRun(SlotFields(doc.top), [], doc.blocks);
    }
  }
}
