/** Extracting, migrating and building gives back the document. */
module ModelRoundTrip {
  import opened Text
  import opened UnitSegments
  import opened UnitStore
  import opened ModelMarkers
  import opened ModelRecords
  import opened ModelCodes
  import opened ModelWeave
  import opened ModelRestore
  import opened ModelSections
  import opened ModelSection
  import opened ModelTree

  // ---- The extracted tree

  lemma {:induction false} TreeGrows(t: Tree, chunks: seq<Chunk>)
    requires AddChunks(t, chunks).Some?
    ensures var end := AddChunks(t, chunks).value;
            t.sections <= end.sections && end.prelude == t.prelude && end.postlude == t.postlude
    decreases chunks
  {
    hide AddChunk;
    if chunks != [] {
      AddedFacts(t, chunks[0]);
      TreeGrows(AddChunk(t, chunks[0]).value, chunks[1..]);
    }
  }

  lemma AddedFacts(t: Tree, c: Chunk)
    requires AddChunk(t, c).Some?
    ensures var more := AddChunk(t, c).value;
            && t.sections <= more.sections && |more.sections| == |t.sections| + 1
            && more.sections[|t.sections|].id == c.id
            && more.prelude == t.prelude && more.postlude == t.postlude
            && more.records.absent.Keys == t.records.absent.Keys + {c.id}
            && more.records.invariants.Keys == t.records.invariants.Keys + {c.id}
  {
    hide TakeSection, AddCuts, ContentOf;
  }

  predicate Owned(t: Tree) {
    forall sid :: sid in t.records.absent.Keys + t.records.invariants.Keys ==>
      exists k :: 0 <= k < |t.sections| && t.sections[k].id == sid
  }

  ghost predicate AllHeld(t: Tree, chunks: seq<Chunk>) {
    && |chunks| == |t.sections| && Owned(t) && AllIndented(t.records)
    && forall k :: 0 <= k < |chunks| ==> Held(t, chunks[k], t.sections[k])
  }

  ghost predicate DistinctTree(t: Tree) {
    && (forall i, j :: 0 <= i < j < |t.sections| ==> t.sections[i].id != t.sections[j].id)
    && AllDistinct(EntryIds(t.sections))
  }

  lemma DistinctPrefix(t: Tree, n: nat)
    requires DistinctTree(t) && n <= |t.sections|
    ensures AllDistinct(EntryIds(t.sections[..n]))
  {
    assert t.sections[..n] + t.sections[n..] == t.sections;
    EntryIdsConcat(t.sections[..n], t.sections[n..]);
    DistinctParts(EntryIds(t.sections[..n]), EntryIds(t.sections[n..]));
  }

  lemma AddedOwned(t: Tree, c: Chunk)
    requires AddChunk(t, c).Some? && Owned(t)
    ensures Owned(AddChunk(t, c).value)
  {
    AddedFacts(t, c);
    hide AddChunk;
    var more := AddChunk(t, c).value;
    forall sid | sid in more.records.absent.Keys + more.records.invariants.Keys
      ensures exists k :: 0 <= k < |more.sections| && more.sections[k].id == sid
    {
      if sid == c.id {
        assert more.sections[|t.sections|].id == sid;
      } else {
        assert sid in t.records.absent.Keys + t.records.invariants.Keys;
        var k :| 0 <= k < |t.sections| && t.sections[k].id == sid;
        assert more.sections[k].id == sid;
      }
    }
  }

  lemma AddedIndented(t: Tree, c: Chunk)
    requires AddChunk(t, c).Some? && AllIndented(t.records)
    ensures AllIndented(AddChunk(t, c).value.records)
  {
    TakenFacts(c);
    hide TakeSection, AddCuts, ContentOf, Indented;
  }

  lemma AddedHeld(t: Tree, c: Chunk, chunks: seq<Chunk>)
    requires AddChunk(t, c).Some? && AllHeld(t, chunks) && DistinctTree(AddChunk(t, c).value)
    ensures AllHeld(AddChunk(t, c).value, chunks + [c])
  {
    hide TakeSection, AddCuts, ContentOf, Held, AllIndented, Owned, AddChunk;
    var more := AddChunk(t, c).value;
    AddedOwned(t, c);
    AddedIndented(t, c);
    AddedFacts(t, c);
    var n := |t.sections|;
    var own := more.sections[n];
    assert more.sections == t.sections + [own];
    EntryIdsConcat(t.sections, [own]);
    assert EntryIds([own]) == IdsOf(own.entries) by { OneSectionIds(own); }
    DistinctParts(EntryIds(t.sections), IdsOf(own.entries));
    forall k | 0 <= k <= n ensures Held(more, (chunks + [c])[k], more.sections[k]) {
      if k < n {
        OwnIds(t.sections, k);
        HeldId(t, chunks[k], t.sections[k]);
        assert more.sections[k].id != more.sections[n].id;
      }
      AddedIsHeld(t, c, (chunks + [c])[k], more.sections[k]);
    }
  }

  lemma OneSectionIds(s: Section)
    ensures EntryIds([s]) == IdsOf(s.entries)
  {
    assert [s][1..] == [] && IdsOf(s.entries) + [] == IdsOf(s.entries);
  }

  lemma HeldId(t: Tree, c: Chunk, s: Section)
    requires Held(t, c, s)
    ensures c.id == s.id
  {
  }

  /** Every section is held by the extracted tree. */
  lemma {:induction false} ExtractedHeld(t: Tree, done: seq<Chunk>, chunks: seq<Chunk>)
    requires AllHeld(t, done) && AddChunks(t, chunks).Some? && DistinctTree(AddChunks(t, chunks).value)
    ensures AllHeld(AddChunks(t, chunks).value, done + chunks)
    decreases chunks
  {
    hide AllHeld, AddChunk, DistinctTree;
    if chunks == [] {
      assert done + chunks == done;
    } else {
      var more := AddChunk(t, chunks[0]).value;
      TreeGrows(more, chunks[1..]);
      EarlierIsDistinct(more, AddChunks(t, chunks).value);
      AddedHeld(t, chunks[0], done);
      ExtractedHeld(more, done + [chunks[0]], chunks[1..]);
      assert done + [chunks[0]] + chunks[1..] == done + chunks;
    }
  }

  lemma EarlierIsDistinct(t: Tree, end: Tree)
    requires t.sections <= end.sections && DistinctTree(end)
    ensures DistinctTree(t)
  {
    DistinctPrefix(end, |t.sections|);
    assert end.sections[..|t.sections|] == t.sections;
  }

  lemma ExtractHolds(src: string)
    requires Extract(src).Some? && GoodIds(Extract(src).value)
    ensures SplitAt(src).Some? && AllHeld(Extract(src).value, SplitAt(src).value.chunks)
    ensures Extract(src).value.prelude == SplitAt(src).value.prelude
    ensures Extract(src).value.postlude == SplitAt(src).value.postlude
    ensures GoodRecords(Extract(src).value.records)
  {
    hide AddChunks, SplitAt, MarkName, Held;
    var split := SplitAt(src).value;
    var start := Tree(split.prelude, split.postlude, [], map[], Records(map[], map[]));
    ExtractedHeld(start, [], split.chunks);
    TreeGrows(start, split.chunks);
    assert [] + split.chunks == split.chunks;
    RecordsAreGood(Extract(src).value, split.chunks);
  }

  lemma RecordsAreGood(t: Tree, chunks: seq<Chunk>)
    requires AllHeld(t, chunks) && GoodIds(t)
    ensures GoodRecords(t.records)
  {
    hide MarkName, Held, AllIndented;
    forall sid | sid in t.records.absent.Keys + t.records.invariants.Keys ensures MarkName(sid) {
      var k :| 0 <= k < |t.sections| && t.sections[k].id == sid;
    }
  }

  /** Chunks are stretches of the document. */
  lemma {:induction false} ChunksHaveNoOpening(s: string, levels: seq<Tag>, k: nat, end: nat)
    requires NoOpening(s) && Ascending(s, levels) && k <= |levels| && end <= |s|
    requires levels != [] ==> levels[|levels| - 1].at <= end
    ensures forall c :: c in ChunksFrom(s, levels, k, end) ==> NoOpening(c.text)
    decreases |levels| - k
  {
    hide NoOpening;
    if k < |levels| {
      ChunksHaveNoOpening(s, levels, k + 1, end);
      PartHasNoOpening(s, levels[k].at, if k + 1 < |levels| then levels[k + 1].at else end);
    }
  }

  lemma SplitHasNoOpening(src: string)
    requires NoOpening(src) && SplitAt(src).Some?
    ensures forall c :: c in SplitAt(src).value.chunks ==> NoOpening(c.text)
  {
    hide NoOpening, SectionStarts, Levels, FindLast;
    var levels := Levels(SectionStarts(src, 0));
    LevelsAscend(src, SectionStarts(src, 0));
    ChunksHaveNoOpening(src, levels, 0, FindLast(src, SECTION_END, |src|).value + |SECTION_END|);
  }

  // ---- One section of the tree

  /** The facts that let a section be rewritten and built. */
  lemma SectionFacts(t: Tree, chunks: seq<Chunk>, k: nat)
    requires AllHeld(t, chunks) && GoodIds(t) && GoodRecords(t.records) && k < |chunks| && NoOpening(chunks[k].text)
    ensures var c, s := chunks[k], t.sections[k];
            && TakeSection(c.id, c.text).Some?
            && var cuts := TakeSection(c.id, c.text).value.parts.cuts;
               && CutsIn(c.text, 0, cuts) && NamedWell(cuts) && NamedIn(cuts, IdsOf(s.entries))
               && AllDistinct(IdsOf(s.entries)) && DistinctPaths(cuts) && FilesHold(c.text, cuts, t.code)
               && Carries(s.content, c.text, cuts, t.records, {})
  {
    hide TakeSection, MarkName, NoOpening, GoodRecords, Carries, ContentOf, FilesHold, Owned, AllIndented;
    var c, s := chunks[k], t.sections[k];
    assert Held(t, c, s);
    TakenFacts(c);
    SectionIdsDistinct(t.sections, k);
    OwnIds(t.sections, k);
    var cuts := TakeSection(c.id, c.text).value.parts.cuts;
    forall i | 0 <= i < |cuts| ensures MarkName(cuts[i].id) {
      assert cuts[i].id in IdsOf(s.entries);
    }
    ExtractedCarries(c.id, c.text, t.records);
  }

  lemma NothingFolded(text: string, cuts: seq<Cut>, bodies: map<string, string>, files: map<string, string>)
    requires FilesHold(text, cuts, files)
    ensures FoldsTo(text, cuts, {}, bodies) && FilesHold(text, Unfolded(cuts, {}), files)
  {
    hide PathOf;
    UnfoldedNothing(cuts);
  }

  lemma {:induction false} UnfoldedNothing(cuts: seq<Cut>)
    ensures Unfolded(cuts, {}) == cuts
  {
    if cuts != [] {
      UnfoldedNothing(cuts[1..]);
    }
  }

  // ---- Extract, then build

  lemma {:induction false} SectionsBuilt(t: Tree, sections: seq<Section>, chunks: seq<Chunk>, bodies: map<string, string>)
    requires |sections| == |chunks|
    requires forall k :: 0 <= k < |chunks| ==>
               BuildSection(sections[k].content, t.records, bodies, t.code) == Some(chunks[k].text)
    ensures BuildSections(sections, t, bodies) == Some(Concat(Texts(chunks)))
    decreases sections
  {
    hide BuildSection;
    if sections == [] {
      assert Texts(chunks) == [];
    } else {
      SectionsBuilt(t, sections[1..], chunks[1..], bodies);
      assert Texts(chunks) == [chunks[0].text] + Texts(chunks[1..]);
      assert Texts(chunks)[1..] == Texts(chunks[1..]);
    }
  }

  /** Building what was extracted gives the document back. */
  lemma ExtractThenBuild(src: string)
    requires Extract(src).Some? && NoOpening(src) && GoodIds(Extract(src).value)
    ensures Build(Extract(src).value, map[]) == Some(src)
  {
    hide Extract, SplitAt, NoOpening, GoodIds, GoodRecords, AllHeld, BuildSection, Concat, Texts, TakeSection, Carries, CutsIn,
      NamedWell, FoldsTo, FilesHold, NamedIn, DistinctPaths, AllDistinct;
    ExtractHolds(src);
    var t, split := Extract(src).value, SplitAt(src).value;
    SplitHasNoOpening(src);
    SplitCovers(src);
    assert |t.sections| == |split.chunks| by { HeldCount(t, split.chunks); }
    forall k | 0 <= k < |split.chunks|
      ensures BuildSection(t.sections[k].content, t.records, map[], t.code) == Some(split.chunks[k].text)
    {
      var c := split.chunks[k];
      SectionFacts(t, split.chunks, k);
      var cuts := TakeSection(c.id, c.text).value.parts.cuts;
      NothingFolded(c.text, cuts, map[], t.code);
      CarriedIsBuilt(t.sections[k].content, c.text, cuts, t.records, {}, map[], t.code);
    }
    SectionsBuilt(t, t.sections, split.chunks, map[]);
  }

  lemma HeldCount(t: Tree, chunks: seq<Chunk>)
    requires AllHeld(t, chunks)
    ensures |t.sections| == |chunks|
  {
  }

  // ---- Migrate in between

  /** Rewriting a section's targets one after the other keeps the content carrying the section. */
  lemma {:induction false} RewriteCarries(content: string, text: string, cuts: seq<Cut>, r: Records, folded: set<string>,
                                          targets: seq<Entry>)
    requires CutsIn(text, 0, cuts) && NoOpening(text) && NamedWell(cuts) && GoodRecords(r) && DistinctPaths(cuts)
    requires Carries(content, text, cuts, r, folded) && Rewrite(content, targets).Some?
    requires AllDistinct(IdsOf(targets))
    requires forall id :: id in IdsOf(targets) ==> id !in folded && MarkName(id)
    ensures Carries(Rewrite(content, targets).value, text, cuts, r, folded + (set id | id in IdsOf(targets)))
    decreases targets
  {
    hide CutsIn, NoOpening, NamedWell, GoodRecords, DistinctPaths, Carries, MarkName, CodeMark, FoldMark, NewPath, ReplaceAll, Contains;
    var ids := IdsOf(targets);
    if targets == [] {
      assert folded + (set id | id in ids) == folded;
    } else {
      var id, rest := targets[0].id, targets[1..];
      assert ids == [id] + IdsOf(rest);
      DistinctParts([id], IdsOf(rest));
      OneNewSide(cuts, id);
      ReplacedCarries(content, text, cuts, r, folded, id);
      RewriteCarries(ReplaceAll(content, CodeMark(NewPath(id)), FoldMark(id)), text, cuts, r, folded + {id}, rest);
      assert folded + {id} + (set i | i in IdsOf(rest)) == folded + (set i | i in ids);
    }
  }

  function TargetIds(entries: seq<Entry>): set<string> { set id | id in IdsOf(TargetsOf(entries)) }

  lemma {:induction false} FilterDistinct(entries: seq<Entry>)
    requires AllDistinct(IdsOf(entries))
    ensures AllDistinct(IdsOf(TargetsOf(entries)))
    ensures forall id :: id in IdsOf(TargetsOf(entries)) <==> id in IdsOf(entries) && IsTarget(id)
    decreases entries
  {
    if entries != [] {
      var id, rest := entries[0].id, entries[1..];
      TargetIdsUnfold(entries);
      hide IsTarget, TargetsOf, IdsOf;
      DistinctParts([id], IdsOf(rest));
      FilterDistinct(rest);
      var more := IdsOf(TargetsOf(rest));
      if IsTarget(id) {
        DistinctCons(id, more);
      }
    }
  }

  lemma IdsCons(e: Entry, rest: seq<Entry>)
    ensures IdsOf([e] + rest) == [e.id] + IdsOf(rest)
  {
  }

  lemma TargetsUnfold(entries: seq<Entry>)
    requires entries != []
    ensures TargetsOf(entries) ==
            if IsTarget(entries[0].id) then [entries[0]] + TargetsOf(entries[1..]) else TargetsOf(entries[1..])
  {
    hide IsTarget;
  }

  lemma TargetIdsUnfold(entries: seq<Entry>)
    requires entries != []
    ensures IdsOf(entries) == [entries[0].id] + IdsOf(entries[1..])
    ensures IdsOf(TargetsOf(entries)) ==
            (if IsTarget(entries[0].id) then [entries[0].id] else []) + IdsOf(TargetsOf(entries[1..]))
  {
    hide IsTarget, IdsOf, TargetsOf;
    assert entries == [entries[0]] + entries[1..];
    TargetsUnfold(entries);
    IdsCons(entries[0], entries[1..]);
    IdsCons(entries[0], TargetsOf(entries[1..]));
    assert [] + IdsOf(TargetsOf(entries[1..])) == IdsOf(TargetsOf(entries[1..]));
  }

  lemma DistinctCons(id: string, ids: seq<string>)
    requires AllDistinct(ids) && id !in ids
    ensures AllDistinct([id] + ids)
  {
  }

  lemma {:induction false} RewrittenAt(sections: seq<Section>, k: nat)
    requires RewriteSections(sections).Some? && k < |sections|
    ensures |RewriteSections(sections).value| == |sections|
    ensures Rewrite(sections[k].content, TargetsOf(sections[k].entries)) == Some(RewriteSections(sections).value[k].content)
    decreases sections
  {
    hide Rewrite;
    if k > 0 {
      RewrittenAt(sections[1..], k - 1);
    } else if |sections| > 1 {
      RewrittenAt(sections[1..], 0);
    }
  }

  lemma {:induction false} TargetListed(sections: seq<Section>, k: nat, e: Entry)
    requires k < |sections| && e in TargetsOf(sections[k].entries)
    ensures e in Targets(sections)
    decreases sections
  {
    if k > 0 {
      TargetListed(sections[1..], k - 1, e);
    }
  }

  lemma {:induction false} TargetsAreTargets(sections: seq<Section>)
    ensures forall e :: e in Targets(sections) ==> IsTarget(e.id)
  {
    hide IsTarget;
    if sections != [] {
      TargetsAreTargets(sections[1..]);
    }
  }

  lemma {:induction false} FamilyHolds(targets: seq<Entry>, code: map<string, string>, e: Entry) returns (k: nat)
    requires FamilyOf(targets, code).Some? && e in targets
    ensures NewPath(e.id) in code
    ensures k < |FamilyOf(targets, code).value|
    ensures FamilyOf(targets, code).value[k].id == e.id && FamilyOf(targets, code).value[k].text == code[NewPath(e.id)]
    decreases targets
  {
    if targets[0] == e {
      k := 0;
    } else {
      k := FamilyHolds(targets[1..], code, e);
      k := k + 1;
    }
  }

  /** What folding gives for every block of the family. */
  ghost predicate FoldedBodies(bodies: map<string, string>, st: Store, family: seq<Snapshot>)
    requires Linked(st, family, |family|)
  {
    forall k :: 0 <= k < |family| ==> family[k].id in bodies && Some(bodies[family[k].id]) == FoldBlock(st, family, k)
  }

  /** Folded bodies are the bodies that were cut out. */
  lemma MigratedBodies(t: Tree, m: Migration, st: Store, bodies: map<string, string>, k: nat, text: string, cuts: seq<Cut>)
    requires MigrateTree(t) == Some(m) && Deltas(st, m.family, |m.family|) && FoldedBodies(bodies, st, m.family)
    requires k < |t.sections| && AllDistinct(IdsOf(t.sections[k].entries))
    requires FilesHold(text, cuts, t.code)
    ensures FoldsTo(text, cuts, TargetIds(t.sections[k].entries), bodies)
  {
    hide FoldBlock, IsTarget, Deltas, NewPath, TakesAll, RewriteSections;
    var entries := t.sections[k].entries;
    FilterDistinct(entries);
    forall i | 0 <= i < |cuts| && cuts[i].isNew && cuts[i].id in IdsOf(TargetsOf(entries))
      ensures cuts[i].id in bodies && bodies[cuts[i].id] == text[cuts[i].lo..cuts[i].hi]
    {
      var id := cuts[i].id;
      var e :| e in TargetsOf(entries) && e.id == id;
      TargetListed(t.sections, k, e);
      var j := FamilyHolds(Targets(t.sections), t.code, e);
      FoldIsSnapshot(st, m.family, |m.family|, j);
      NewPathDecides(cuts[i], id);
    }
  }

  /** The other cuts keep their files. */
  lemma RemainingFiles(t: Tree, m: Migration, k: nat, text: string, cuts: seq<Cut>)
    requires MigrateTree(t) == Some(m) && k < |t.sections| && AllDistinct(IdsOf(t.sections[k].entries))
    requires FilesHold(text, cuts, t.code) && NamedIn(cuts, IdsOf(t.sections[k].entries)) && NamedWell(cuts)
    ensures FilesHold(text, Unfolded(cuts, TargetIds(t.sections[k].entries)), m.tree.code)
  {
    hide IsTarget, NewPath, TakesAll, RewriteSections, FamilyOf, PathOf, MarkName;
    var entries := t.sections[k].entries;
    var folded := TargetIds(entries);
    var targets := Targets(t.sections);
    FilterDistinct(entries);
    TargetsAreTargets(t.sections);
    UnfoldedNames(cuts, folded);
    var left := Unfolded(cuts, folded);
    forall i | 0 <= i < |left|
      ensures left[i].lo <= left[i].hi <= |text|
      ensures PathOf(left[i]) in m.tree.code && m.tree.code[PathOf(left[i])] == text[left[i].lo..left[i].hi]
    {
      var c := left[i];
      assert c in cuts;
      forall e | e in targets ensures NewPath(e.id) != PathOf(c) {
        NewPathDecides(c, e.id);
      }
    }
  }

  /** Migrating the extracted tree and building it gives the document back, whatever delta store the
      migration produced. */
  lemma ExtractMigrateBuild(src: string, m: Migration, st: Store, bodies: map<string, string>)
    requires Extract(src).Some? && NoOpening(src) && GoodIds(Extract(src).value)
    requires MigrateTree(Extract(src).value) == Some(m)
    requires Deltas(st, m.family, |m.family|) && FoldedBodies(bodies, st, m.family)
    ensures Build(m.tree, bodies) == Some(src)
  {
    ExtractHolds(src);
    var t, split := Extract(src).value, SplitAt(src).value;
    MigratedTree(t, m);
    hide Extract, SplitAt, NoOpening, AllHeld, BuildSection, Concat, Texts, MigrateTree, Deltas, FoldedBodies, GoodIds,
      GoodRecords;
    SplitHasNoOpening(src);
    SplitCovers(src);
    HeldCount(t, split.chunks);
    forall k | 0 <= k < |split.chunks|
      ensures BuildSection(m.tree.sections[k].content, m.tree.records, bodies, m.tree.code) == Some(split.chunks[k].text)
    {
      SectionMigrated(t, split.chunks, m, st, bodies, k);
    }
    SectionsBuilt(m.tree, m.tree.sections, split.chunks, bodies);
  }

  lemma MigratedTree(t: Tree, m: Migration)
    requires MigrateTree(t) == Some(m)
    ensures RewriteSections(t.sections) == Some(m.tree.sections) && |m.tree.sections| == |t.sections|
    ensures m.tree.records == t.records && m.tree.prelude == t.prelude && m.tree.postlude == t.postlude
  {
    hide FamilyOf, TakesAll, RewriteSections;
    if t.sections != [] {
      RewrittenAt(t.sections, 0);
    } else {
      assert RewriteSections([]) == Some([]) by { NothingRewritten(); }
    }
  }

  lemma NothingRewritten()
    ensures RewriteSections([]) == Some([])
  {
  }

  lemma SectionMigrated(t: Tree, chunks: seq<Chunk>, m: Migration, st: Store, bodies: map<string, string>, k: nat)
    requires AllHeld(t, chunks) && GoodIds(t) && GoodRecords(t.records) && k < |chunks| && NoOpening(chunks[k].text)
    requires MigrateTree(t) == Some(m) && |m.tree.sections| == |t.sections|
    requires Deltas(st, m.family, |m.family|) && FoldedBodies(bodies, st, m.family)
    ensures BuildSection(m.tree.sections[k].content, m.tree.records, bodies, m.tree.code) == Some(chunks[k].text)
  {
    HeldCount(t, chunks);
    MigratedTree(t, m);
    SectionFacts(t, chunks, k);
    RewrittenAt(t.sections, k);
    TargetNames(t, k);
    hide AllHeld, GoodIds, GoodRecords, NoOpening, MigrateTree, Deltas, FoldedBodies, BuildSection, TakeSection, CutsIn, NamedWell,
      NamedIn, AllDistinct, DistinctPaths, FilesHold, Carries, Rewrite, RewriteSections, FoldsTo, IdsOf, TargetsOf, Unfolded;
    var c, s := chunks[k], t.sections[k];
    var cuts := TakeSection(c.id, c.text).value.parts.cuts;
    var targets := TargetsOf(s.entries);
    var folded := TargetIds(s.entries);
    RewriteCarries(s.content, c.text, cuts, t.records, {}, targets);
    assert {} + folded == folded;
    MigratedBodies(t, m, st, bodies, k, c.text, cuts);
    RemainingFiles(t, m, k, c.text, cuts);
    CarriedIsBuilt(m.tree.sections[k].content, c.text, cuts, t.records, folded, bodies, m.tree.code);
  }

  lemma TargetNames(t: Tree, k: nat)
    requires GoodIds(t) && k < |t.sections|
    ensures AllDistinct(IdsOf(TargetsOf(t.sections[k].entries)))
    ensures forall id :: id in IdsOf(TargetsOf(t.sections[k].entries)) ==> MarkName(id)
  {
    hide MarkName, IsTarget;
    SectionIdsDistinct(t.sections, k);
    OwnIds(t.sections, k);
    FilterDistinct(t.sections[k].entries);
  }
}
