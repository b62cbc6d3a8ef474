/** The loops that pull code bodies out of a section and that assemble the document again. */
module ModelExtractor {
  import opened Text
  import opened ModelMarkers
  import opened ModelCodes
  import opened ModelRecords
  import opened ModelSection
  import opened ModelTree

  // ---- Code bodies

  lemma {:induction false} OddFails(s: string, ms: seq<Match>)
    requires |ms| % 2 == 1
    ensures PairUp(s, ms) == None
    decreases ms
  {
    hide AttributeValue, Contains, PathOf;
    if |ms| > 1 {
      OddFails(s, ms[2..]);
    }
  }

  function PrependParts(cuts: seq<Cut>, entries: seq<Entry>, rest: Option<Parts>): Option<Parts> {
    if rest == None then None else Some(Parts(cuts + rest.value.cuts, entries + rest.value.entries))
  }

  lemma PrependPartsTwice(a: seq<Cut>, e: seq<Entry>, b: seq<Cut>, f: seq<Entry>, rest: Option<Parts>)
    ensures PrependParts(a, e, PrependParts(b, f, rest)) == PrependParts(a + b, e + f, rest)
    ensures PrependParts([], [], rest) == rest
  {
    if rest.Some? {
      assert a + (b + rest.value.cuts) == (a + b) + rest.value.cuts;
      assert e + (f + rest.value.entries) == (e + f) + rest.value.entries;
      assert [] + rest.value.cuts == rest.value.cuts && [] + rest.value.entries == rest.value.entries;
    }
  }

  /** A body that is not empty becomes a cut, unless its marker already stands in the section. */
  method TakeBody(chunk: string, m: Match, id: string, isNew: bool) returns (cuts: Option<seq<Cut>>)
    ensures cuts == if exists i :: 0 <= i < |CutOf(m, id, isNew)| && Contains(chunk, CodeMark(PathOf(CutOf(m, id, isNew)[i])))
                    then None else Some(CutOf(m, id, isNew))
  {
    hide PathOf, Contains;
    if m.lo == m.hi {
      return Some([]);
    }
    var cut := Cut(m.lo, m.hi, id, isNew);
    assert CutOf(m, id, isNew) == [cut];
    var mark := CodeMark(PathOf(cut));
    if Contains(chunk, mark) {
      assert Contains(chunk, CodeMark(PathOf(CutOf(m, id, isNew)[0])));
      return None;
    }
    return Some([cut]);
  }

  lemma PairStep(s: string, ms: seq<Match>, i: nat)
    requires i + 1 < |ms|
    ensures var here := PairUp(s, ms[i..]);
            var id := AttributeValue(ms[i + 1].tag, "data-code-id=\"");
            if !Contains(ms[i].tag, "data-code-old") || !Contains(ms[i + 1].tag, "data-code-new") || id == None then here == None
            else
              var a, b := CutOf(ms[i], id.value, false), CutOf(ms[i + 1], id.value, true);
              if (exists k :: 0 <= k < |a| && Contains(s, CodeMark(PathOf(a[k]))))
                 || exists k :: 0 <= k < |b| && Contains(s, CodeMark(PathOf(b[k])))
              then here == None
              else here == PrependParts(a + b, [Entry(id.value, AttributeValue(ms[i].tag, "data-code-old-ref=\""))],
                                        PairUp(s, ms[i + 2..]))
  {
    hide Contains, AttributeValue, PathOf, CodeMark;
    var here := ms[i..];
    assert here[0] == ms[i] && here[1] == ms[i + 1] && here[2..] == ms[i + 2..];
    var id := AttributeValue(ms[i + 1].tag, "data-code-id=\"");
    if id.Some? {
      var a, b := CutOf(ms[i], id.value, false), CutOf(ms[i + 1], id.value, true);
      forall k | 0 <= k < |a| && Contains(s, CodeMark(PathOf(a[k]))) ensures exists j :: 0 <= j < |a + b| && Contains(s, CodeMark(PathOf((a + b)[j]))) {
        assert (a + b)[k] == a[k];
      }
      forall k | 0 <= k < |b| && Contains(s, CodeMark(PathOf(b[k]))) ensures exists j :: 0 <= j < |a + b| && Contains(s, CodeMark(PathOf((a + b)[j]))) {
        assert (a + b)[|a| + k] == b[k];
      }
    }
  }

  /** The program's `extract_codes`: pairs are read left to right, bodies are spliced out right to left. */
  method ExtractCodes(chunk: string) returns (parts: Option<Parts>, text: string)
    ensures parts == CodesOf(chunk)
    ensures parts.Some? ==> CutsIn(chunk, 0, parts.value.cuts) && text == Spliced(chunk, 0, parts.value.cuts)
  {
    hide PairUp, CutOf, AttributeValue, Contains, PathOf, CodeMark, CutsIn;
    text := chunk;
    var matches := Matches(chunk, 0);
    if |matches| % 2 != 0 {
      OddFails(chunk, matches);
      return None, text;
    }
    var cuts: seq<Cut>, entries: seq<Entry> := [], [];
    var i: nat := 0;
    assert matches[0..] == matches;
    PrependPartsTwice([], [], [], [], PairUp(chunk, matches));
    while i < |matches|
      invariant i <= |matches| && i % 2 == 0
      invariant PairUp(chunk, matches) == PrependParts(cuts, entries, PairUp(chunk, matches[i..]))
    {
      var oldSide, newSide := matches[i], matches[i + 1];
      PairStep(chunk, matches, i);
      if !Contains(oldSide.tag, "data-code-old") {
        return None, text;
      }
      if !Contains(newSide.tag, "data-code-new") {
        return None, text;
      }
      var id := AttributeValue(newSide.tag, "data-code-id=\"");
      if id == None {
        return None, text;
      }
      var baseline := AttributeValue(oldSide.tag, "data-code-old-ref=\"");
      var first := TakeBody(chunk, oldSide, id.value, false);
      if first == None {
        return None, text;
      }
      var second := TakeBody(chunk, newSide, id.value, true);
      if second == None {
        return None, text;
      }
      PrependPartsTwice(cuts, entries, first.value + second.value, [Entry(id.value, baseline)], PairUp(chunk, matches[i + 2..]));
      assert cuts + (first.value + second.value) == cuts + first.value + second.value;
      cuts := cuts + first.value + second.value;
      entries := entries + [Entry(id.value, baseline)];
      i := i + 2;
    }
    assert matches[i..] == [];
    NoPairsLeft(chunk, cuts, entries);
    CodesLie(chunk);
    text := SpliceOut(chunk, cuts);
    return Some(Parts(cuts, entries)), text;
  }

  lemma NoPairsLeft(s: string, cuts: seq<Cut>, entries: seq<Entry>)
    ensures PrependParts(cuts, entries, PairUp(s, [])) == Some(Parts(cuts, entries))
  {
    assert cuts + [] == cuts && entries + [] == entries;
  }

  /** Where the text before the `k`-th cut begins. */
  function Edge(cuts: seq<Cut>, k: nat): nat
    requires k <= |cuts|
  {
    if k == 0 then 0 else cuts[k - 1].hi
  }

  lemma {:induction false} CutsFrom(s: string, cuts: seq<Cut>, k: nat)
    requires CutsIn(s, 0, cuts) && k <= |cuts|
    ensures CutsIn(s, Edge(cuts, k), cuts[k..])
    decreases k
  {
    if k == 0 {
      assert cuts[0..] == cuts;
    } else {
      CutsFrom(s, cuts, k - 1);
      assert cuts[k - 1..][1..] == cuts[k..] && cuts[k - 1..][0] == cuts[k - 1];
    }
  }

  /** Replacing from the right keeps the positions of the cuts that are still to come. */
  method SpliceOut(chunk: string, cuts: seq<Cut>) returns (text: string)
    requires CutsIn(chunk, 0, cuts)
    ensures text == Spliced(chunk, 0, cuts)
  {
    hide CutsIn, PathOf, CodeMark;
    text := chunk;
    var k: nat := |cuts|;
    CutsFrom(chunk, cuts, k);
    NothingSpliced(chunk, Edge(cuts, k), cuts[k..]);
    while k > 0
      invariant k <= |cuts| && CutsIn(chunk, Edge(cuts, k), cuts[k..])
      invariant Edge(cuts, k) <= |chunk|
      invariant text == chunk[..Edge(cuts, k)] + Spliced(chunk, Edge(cuts, k), cuts[k..])
    {
      k := k - 1;
      CutsFrom(chunk, cuts, k);
      ghost var rest := Spliced(chunk, cuts[k].hi, cuts[k + 1..]);
      SplicedFirst(chunk, Edge(cuts, k), cuts[k..]);
      assert cuts[k..][1..] == cuts[k + 1..];
      assert text[..cuts[k].lo] == chunk[..cuts[k].lo] == chunk[..Edge(cuts, k)] + chunk[Edge(cuts, k)..cuts[k].lo];
      assert text[cuts[k].hi..] == rest;
      text := text[..cuts[k].lo] + CodeMark(PathOf(cuts[k])) + text[cuts[k].hi..];
    }
    assert cuts[0..] == cuts;
  }

  lemma NothingSpliced(s: string, from: nat, cuts: seq<Cut>)
    requires cuts == [] && CutsIn(s, from, cuts)
    ensures from <= |s| && s[..from] + Spliced(s, from, cuts) == s
  {
  }

  lemma SplicedFirst(s: string, from: nat, cuts: seq<Cut>)
    requires cuts != [] && CutsIn(s, from, cuts)
    ensures from <= cuts[0].lo <= cuts[0].hi <= |s| && CutsIn(s, cuts[0].hi, cuts[1..])
    ensures Spliced(s, from, cuts) ==
            s[from..cuts[0].lo] + CodeMark(PathOf(cuts[0])) + Spliced(s, cuts[0].hi, cuts[1..])
  {
    hide PathOf, CodeMark;
  }

  // ---- Assembling the document

  lemma {:induction false} BuildConcat(a: seq<Section>, b: seq<Section>, t: Tree, bodies: map<string, string>)
    ensures BuildSections(a + b, t, bodies) ==
            if BuildSections(a, t, bodies).Some? && BuildSections(b, t, bodies).Some?
            then Some(BuildSections(a, t, bodies).value + BuildSections(b, t, bodies).value) else None
    decreases a
  {
    hide BuildSection;
    if a == [] {
      assert a + b == b;
      if BuildSections(b, t, bodies).Some? {
        assert "" + BuildSections(b, t, bodies).value == BuildSections(b, t, bodies).value;
      }
    } else {
      assert (a + b)[1..] == a[1..] + b;
      BuildConcat(a[1..], b, t, bodies);
      var x, y, z := BuildSection(a[0].content, t.records, bodies, t.code), BuildSections(a[1..], t, bodies), BuildSections(b, t, bodies);
      if x.Some? && y.Some? && z.Some? {
        assert x.value + (y.value + z.value) == (x.value + y.value) + z.value;
      }
    }
  }

  lemma OneBuilt(s: Section, t: Tree, bodies: map<string, string>)
    ensures BuildSections([s], t, bodies) == BuildSection(s.content, t.records, bodies, t.code)
  {
    hide BuildSection;
    var first := BuildSection(s.content, t.records, bodies, t.code);
    if first.Some? {
      assert first.value + "" == first.value;
    }
  }

  /** The build's main loop: each section file is filled in and appended. */
  method BuildModel(t: Tree, bodies: map<string, string>) returns (html: Option<string>)
    ensures html == Build(t, bodies)
  {
    hide BuildSection, BuildSections;
    var parts := "";
    assert BuildSections([], t, bodies) == Some("") by { NothingBuilt(t, bodies); }
    for i := 0 to |t.sections|
      invariant BuildSections(t.sections[..i], t, bodies) == Some(parts)
    {
      var section := t.sections[i];
      var chunk := BuildSection(section.content, t.records, bodies, t.code);
      OneBuilt(section, t, bodies);
      BuildConcat(t.sections[..i], [section], t, bodies);
      assert t.sections[..i + 1] == t.sections[..i] + [section];
      if chunk == None {
        BuildConcat(t.sections[..i + 1], t.sections[i + 1..], t, bodies);
        assert t.sections == t.sections[..i + 1] + t.sections[i + 1..];
        return None;
      }
      parts := parts + chunk.value;
    }
    assert t.sections[..|t.sections|] == t.sections;
    return Some(t.prelude + parts + t.postlude);
  }

  lemma NothingBuilt(t: Tree, bodies: map<string, string>)
    ensures BuildSections([], t, bodies) == Some("")
  {
  }
}
