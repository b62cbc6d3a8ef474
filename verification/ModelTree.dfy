/** The whole source tree: extracted from the document, migrated to deltas, and built back. */
module ModelTree {
  import opened Text
  import opened UnitSegments
  import opened UnitStore
  import opened ModelMarkers
  import opened ModelRecords
  import opened ModelCodes
  import opened ModelWeave
  import opened ModelRestore
  import opened ModelSections
  import opened ModelSection

  /** A section file and the manifest's list of its code blocks. */
  datatype Section = Section(id: string, content: string, entries: seq<Entry>)

  /** Files are maps from names to texts; JSON is written and read without loss. */
  datatype Tree = Tree(prelude: string, postlude: string, sections: seq<Section>, code: map<string, string>, records: Records)

  // ---- Extraction

  predicate Fit(s: string, cuts: seq<Cut>) {
    forall i :: 0 <= i < |cuts| ==> cuts[i].lo <= cuts[i].hi <= |s|
  }

  /** The files written for the cuts, in order. */
  function AddCuts(code: map<string, string>, s: string, cuts: seq<Cut>): map<string, string>
    requires Fit(s, cuts)
    decreases cuts
  {
    if cuts == [] then code else AddCuts(code[PathOf(cuts[0]) := s[cuts[0].lo..cuts[0].hi]], s, cuts[1..])
  }

  lemma {:induction false} CutsFit(s: string, from: nat, cuts: seq<Cut>)
    requires CutsIn(s, from, cuts)
    ensures Fit(s, cuts)
    decreases cuts
  {
    if cuts != [] {
      CutsFit(s, cuts[0].hi, cuts[1..]);
    }
  }

  function AddChunk(t: Tree, c: Chunk): Option<Tree> {
    var x :- TakeSection(c.id, c.text);
    CodesLie(c.text);
    CutsFit(c.text, 0, x.parts.cuts);
    Some(Tree(t.prelude, t.postlude, t.sections + [Section(c.id, ContentOf(x), x.parts.entries)],
              AddCuts(t.code, c.text, x.parts.cuts),
              Records(t.records.absent[c.id := x.absent.grids[0]], t.records.invariants[c.id := x.inv.blocks])))
  }

  function AddChunks(t: Tree, chunks: seq<Chunk>): Option<Tree>
    decreases chunks
  {
    if chunks == [] then Some(t)
    else
      var more :- AddChunk(t, chunks[0]);
      AddChunks(more, chunks[1..])
  }

  function Extract(src: string): Option<Tree> {
    var split :- SplitAt(src);
    AddChunks(Tree(split.prelude, split.postlude, [], map[], Records(map[], map[])), split.chunks)
  }

  // ---- Migration

  predicate IsTarget(id: string) { Contains(id, "pseudocode") }

  function TargetsOf(entries: seq<Entry>): (targets: seq<Entry>)
    ensures forall e :: e in targets <==> e in entries && IsTarget(e.id)
  {
    hide IsTarget;
    if entries == [] then []
    else (if IsTarget(entries[0].id) then [entries[0]] else []) + TargetsOf(entries[1..])
  }

  function Targets(sections: seq<Section>): seq<Entry> {
    if sections == [] then [] else TargetsOf(sections[0].entries) + Targets(sections[1..])
  }

  /** The snapshots of the blocks; none when a block has no snapshot file. */
  function FamilyOf(targets: seq<Entry>, code: map<string, string>): Option<seq<Snapshot>> {
    if targets == [] then Some([])
    else if NewPath(targets[0].id) !in code then None
    else
      var rest :- FamilyOf(targets[1..], code);
      Some([Snapshot(targets[0].id, targets[0].baseline, code[NewPath(targets[0].id)])] + rest)
  }

  /** Each block's marker must be there, and becomes a fold marker. */
  function Rewrite(content: string, targets: seq<Entry>): Option<string>
    decreases targets
  {
    if targets == [] then Some(content)
    else
      var mark := CodeMark(NewPath(targets[0].id));
      if !Contains(content, mark) then None
      else Rewrite(ReplaceAll(content, mark, FoldMark(targets[0].id)), targets[1..])
  }

  function RewriteSections(sections: seq<Section>): Option<seq<Section>> {
    if sections == [] then Some([])
    else
      var content :- Rewrite(sections[0].content, TargetsOf(sections[0].entries));
      var rest :- RewriteSections(sections[1..]);
      Some([sections[0].(content := content)] + rest)
  }

  /** The rewritten tree, and the snapshots that moved into the delta store. */
  datatype Migration = Migration(tree: Tree, family: seq<Snapshot>)

  function MigrateTree(t: Tree): Option<Migration> {
    var targets := Targets(t.sections);
    var family :- FamilyOf(targets, t.code);
    if !TakesAll(family, |family|) then None
    else
      var sections :- RewriteSections(t.sections);
      Some(Migration(t.(sections := sections, code := t.code - (set e | e in targets :: NewPath(e.id))), family))
  }

  // ---- Build

  function BuildSections(sections: seq<Section>, t: Tree, bodies: map<string, string>): Option<string>
    decreases sections
  {
    if sections == [] then Some("")
    else
      var first :- BuildSection(sections[0].content, t.records, bodies, t.code);
      var rest :- BuildSections(sections[1..], t, bodies);
      Some(first + rest)
  }

  /** `bodies` is what folding gives for the blocks of the delta store. */
  function Build(t: Tree, bodies: map<string, string>): Option<string> {
    var sections :- BuildSections(t.sections, t, bodies);
    Some(t.prelude + sections + t.postlude)
  }

  // ---- Ids

  function IdsOf(entries: seq<Entry>): seq<string> {
    seq(|entries|, i requires 0 <= i < |entries| => entries[i].id)
  }

  function EntryIds(sections: seq<Section>): seq<string> {
    if sections == [] then [] else IdsOf(sections[0].entries) + EntryIds(sections[1..])
  }

  /** Section ids and block ids are names a marker can carry, and each is used once. */
  ghost predicate GoodIds(t: Tree) {
    && (forall i, j :: 0 <= i < j < |t.sections| ==> t.sections[i].id != t.sections[j].id)
    && (forall i :: 0 <= i < |t.sections| ==> MarkName(t.sections[i].id))
    && AllDistinct(EntryIds(t.sections))
    && forall id :: id in EntryIds(t.sections) ==> MarkName(id)
  }

  lemma {:induction false} EntryIdsConcat(a: seq<Section>, b: seq<Section>)
    ensures EntryIds(a + b) == EntryIds(a) + EntryIds(b)
    decreases a
  {
    if a == [] {
      assert a + b == b;
    } else {
      assert (a + b)[1..] == a[1..] + b;
      EntryIdsConcat(a[1..], b);
    }
  }

  lemma {:induction false} OwnIds(sections: seq<Section>, k: nat)
    requires k < |sections|
    ensures forall id :: id in IdsOf(sections[k].entries) ==> id in EntryIds(sections)
    decreases sections
  {
    if k > 0 {
      OwnIds(sections[1..], k - 1);
    }
  }

  lemma DistinctParts(a: seq<string>, b: seq<string>)
    requires AllDistinct(a + b)
    ensures AllDistinct(a) && AllDistinct(b)
    ensures forall id :: id in b ==> id !in a
  {
    var ab := a + b;
    forall i, j | 0 <= i < j < |a| ensures a[i] != a[j] {
      assert ab[i] == a[i] && ab[j] == a[j];
    }
    forall i, j | 0 <= i < j < |b| ensures b[i] != b[j] {
      assert ab[|a| + i] == b[i] && ab[|a| + j] == b[j];
    }
    forall i, j | 0 <= i < |a| && 0 <= j < |b| ensures a[i] != b[j] {
      assert ab[i] == a[i] && ab[|a| + j] == b[j];
    }
  }

  lemma {:induction false} SectionIdsDistinct(sections: seq<Section>, k: nat)
    requires AllDistinct(EntryIds(sections)) && k < |sections|
    ensures AllDistinct(IdsOf(sections[k].entries))
    decreases sections
  {
    DistinctParts(IdsOf(sections[0].entries), EntryIds(sections[1..]));
    if k > 0 {
      SectionIdsDistinct(sections[1..], k - 1);
    }
  }

  // ---- Cuts and their names

  predicate NamedIn(cuts: seq<Cut>, ids: seq<string>) {
    forall i :: 0 <= i < |cuts| ==> cuts[i].id in ids
  }

  predicate DistinctPaths(cuts: seq<Cut>) {
    forall i, j :: 0 <= i < j < |cuts| ==> PathOf(cuts[i]) != PathOf(cuts[j])
  }

  lemma PathDecides(c: Cut, d: Cut)
    requires PathOf(c) == PathOf(d)
    ensures c.id == d.id && c.isNew == d.isNew
  {
    NewPathDecides(c, c.id);
    NewPathDecides(d, c.id);
    NewPathDecides(c, d.id);
    var p, q := PathOf(c), PathOf(d);
    assert p[5..|p| - 8] == c.id && q[5..|q| - 8] == d.id;
  }

  lemma {:induction false} PairsAreNamed(s: string, ms: seq<Match>)
    requires PairUp(s, ms).Some?
    ensures var p := PairUp(s, ms).value;
            NamedIn(p.cuts, IdsOf(p.entries)) && (AllDistinct(IdsOf(p.entries)) ==> DistinctPaths(p.cuts))
    decreases ms
  {
    hide AttributeValue, Contains, PathOf;
    if ms != [] {
      var p, rest := PairUp(s, ms).value, PairUp(s, ms[2..]).value;
      PairsAreNamed(s, ms[2..]);
      var id := p.entries[0].id;
      var own := CutOf(ms[0], id, false) + CutOf(ms[1], id, true);
      assert IdsOf(p.entries) == [id] + IdsOf(rest.entries);
      if AllDistinct(IdsOf(p.entries)) {
        DistinctParts([id], IdsOf(rest.entries));
        PairPathsDistinct(ms[0], ms[1], id);
        DistinctPathsConcat(own, rest.cuts);
      }
    }
  }

  lemma PairPathsDistinct(m: Match, n: Match, id: string)
    ensures DistinctPaths(CutOf(m, id, false) + CutOf(n, id, true))
  {
    hide PathOf;
    NewPathDecides(Cut(m.lo, m.hi, id, false), id);
    NewPathDecides(Cut(n.lo, n.hi, id, true), id);
  }

  lemma DistinctPathsConcat(a: seq<Cut>, b: seq<Cut>)
    requires DistinctPaths(a) && DistinctPaths(b)
    requires forall i, j :: 0 <= i < |a| && 0 <= j < |b| ==> a[i].id != b[j].id
    ensures DistinctPaths(a + b)
  {
    hide PathOf;
    forall c: Cut, d: Cut | PathOf(c) == PathOf(d) ensures c.id == d.id {
      PathDecides(c, d);
    }
  }

  lemma {:induction false} NoNewSide(cuts: seq<Cut>, id: string)
    requires forall i :: 0 <= i < |cuts| ==> PathOf(cuts[i]) != NewPath(id)
    ensures NewSides(cuts, id) == 0
    decreases cuts
  {
    hide PathOf, NewPath;
    if cuts != [] {
      NewPathDecides(cuts[0], id);
      NoNewSide(cuts[1..], id);
    }
  }

  lemma {:induction false} OneNewSide(cuts: seq<Cut>, id: string)
    requires DistinctPaths(cuts)
    ensures NewSides(cuts, id) <= 1
    decreases cuts
  {
    hide PathOf, NewPath;
    if cuts != [] {
      if cuts[0].isNew && cuts[0].id == id {
        NewPathDecides(cuts[0], id);
        NoNewSide(cuts[1..], id);
      } else {
        OneNewSide(cuts[1..], id);
      }
    }
  }

  lemma {:induction false} AddedCuts(code: map<string, string>, s: string, cuts: seq<Cut>)
    requires Fit(s, cuts) && DistinctPaths(cuts)
    ensures FilesHold(s, cuts, AddCuts(code, s, cuts))
    ensures forall p :: p in code && (forall i :: 0 <= i < |cuts| ==> PathOf(cuts[i]) != p) ==>
              p in AddCuts(code, s, cuts) && AddCuts(code, s, cuts)[p] == code[p]
    decreases cuts
  {
    hide PathOf;
    if cuts != [] {
      var more := code[PathOf(cuts[0]) := s[cuts[0].lo..cuts[0].hi]];
      AddedCuts(more, s, cuts[1..]);
      forall i | 0 <= i < |cuts|
        ensures PathOf(cuts[i]) in AddCuts(code, s, cuts) && AddCuts(code, s, cuts)[PathOf(cuts[i])] == s[cuts[i].lo..cuts[i].hi]
      {
        if i > 0 {
          assert cuts[i] == cuts[1..][i - 1];
        }
      }
    }
  }

  // ---- What extraction leaves behind

  /** The tree holds a section with its files and records. */
  ghost predicate Held(t: Tree, c: Chunk, s: Section) {
    && TakeSection(c.id, c.text).Some?
    && var x := TakeSection(c.id, c.text).value;
       && s == Section(c.id, ContentOf(x), x.parts.entries)
       && c.id in t.records.absent && [t.records.absent[c.id]] == x.absent.grids
       && c.id in t.records.invariants && t.records.invariants[c.id] == x.inv.blocks
       && FilesHold(c.text, x.parts.cuts, t.code)
  }

  lemma TakenFacts(c: Chunk)
    requires TakeSection(c.id, c.text).Some?
    ensures var x := TakeSection(c.id, c.text).value;
            && CutsIn(c.text, 0, x.parts.cuts) && Fit(c.text, x.parts.cuts)
            && NamedIn(x.parts.cuts, IdsOf(x.parts.entries))
            && (AllDistinct(IdsOf(x.parts.entries)) ==> DistinctPaths(x.parts.cuts))
            && |x.absent.grids| == 1 && Indented(x.absent.grids[0].indent)
            && forall b :: b in x.inv.blocks ==> Indented(b.indent)
  {
    hide PairUp, TakeGrids, TakeBlocks, Indented, Spliced;
    var x := TakeSection(c.id, c.text).value;
    CodesLie(c.text);
    CutsFit(c.text, 0, x.parts.cuts);
    PairsAreNamed(c.text, Matches(c.text, 0));
    GridsAreIndented(c.id, SplitOn(Spliced(c.text, 0, x.parts.cuts), '\n'));
    BlocksAreIndented(c.id, SplitOn(Join(x.absent.out, "\n"), '\n'), 0);
  }

  /** Adding a section under fresh names disturbs none of the earlier ones. */
  lemma AddedIsHeld(t: Tree, c: Chunk, d: Chunk, s: Section)
    requires AddChunk(t, c).Some?
    requires var more := AddChunk(t, c).value;
             var own := more.sections[|t.sections|];
             && AllDistinct(IdsOf(own.entries))
             && ((d == c && s == own) ||
                 (Held(t, d, s) && d.id != c.id && forall id :: id in IdsOf(own.entries) ==> id !in IdsOf(s.entries)))
    ensures Held(AddChunk(t, c).value, d, s)
  {
    hide TakeSection, ContentOf, PathOf, AddCuts;
    var more := AddChunk(t, c).value;
    var x := TakeSection(c.id, c.text).value;
    TakenFacts(c);
    AddedCuts(t.code, c.text, x.parts.cuts);
    if !(d == c && s == more.sections[|t.sections|]) {
      TakenFacts(d);
      var cuts := TakeSection(d.id, d.text).value.parts.cuts;
      forall i | 0 <= i < |cuts|
        ensures PathOf(cuts[i]) in more.code && more.code[PathOf(cuts[i])] == d.text[cuts[i].lo..cuts[i].hi]
      {
        forall j | 0 <= j < |x.parts.cuts| ensures PathOf(x.parts.cuts[j]) != PathOf(cuts[i]) {
          if PathOf(x.parts.cuts[j]) == PathOf(cuts[i]) {
            PathDecides(x.parts.cuts[j], cuts[i]);
          }
        }
      }
    }
  }
}
