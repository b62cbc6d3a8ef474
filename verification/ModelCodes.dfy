/** Code bodies of a section: cut out of their script elements into files, a marker left for each. */
module ModelCodes {
  import opened Text
  import opened ModelMarkers
  import opened ModelRecords

  const SCRIPT_OPEN := "<script type=\"text/plain\" class=\"diff-source\""
  const SCRIPT_END := "</script>"

  // ---- Script elements

  /** Where a body lies, and the opening tag before it. */
  datatype Match = Match(lo: nat, hi: nat, tag: string)

  function FindFrom(s: string, p: string, from: nat): (r: Option<nat>)
    requires from <= |s|
    ensures r.Some? ==> from <= r.value <= |s| && p <= s[r.value..]
  {
    match Find(s[from..], p)
    case None => Option<nat>.None
    case Some(i) =>
      assert s[from..][i..] == s[from + i..];
      Some(from + i)
  }

  /** An element that starts here: its tag runs to the first `>`, its body to the first end tag. */
  function CodeAt(s: string, i: nat): (r: Option<Match>)
    requires i <= |s|
    ensures r.Some? ==> i < r.value.lo <= r.value.hi < |s| && s[r.value.lo - 1] == '>' && s[r.value.hi] == '<'
    ensures r.Some? ==> r.value.hi + |SCRIPT_END| <= |s|
  {
    if !(SCRIPT_OPEN <= s[i..]) then None
    else
      match FindFrom(s, ">", i + |SCRIPT_OPEN|)
      case None => None
      case Some(g) =>
        assert s[g] == s[g..][0] == '>';
        match FindFrom(s, SCRIPT_END, g + 1)
        case None => None
        case Some(hi) =>
          assert s[hi] == s[hi..][0] == '<';
          Some(Match(g + 1, hi, s[i..g + 1]))
  }

  function NextCode(s: string, from: nat): (r: Option<Match>)
    requires from <= |s|
    ensures r.Some? ==> from < r.value.lo <= r.value.hi < |s| && s[r.value.lo - 1] == '>' && s[r.value.hi] == '<'
    ensures r.Some? ==> r.value.hi + |SCRIPT_END| <= |s|
    decreases |s| - from
  {
    hide CodeAt;
    if CodeAt(s, from).Some? then CodeAt(s, from)
    else if from == |s| then None
    else NextCode(s, from + 1)
  }

  function Matches(s: string, from: nat): seq<Match>
    requires from <= |s|
    decreases |s| - from
  {
    match NextCode(s, from)
    case None => []
    case Some(m) => [m] + Matches(s, m.hi + |SCRIPT_END|)
  }

  /** The value of an attribute: the first occurrence with a closed, non-empty value counts. */
  function AttributeValue(tag: string, open: string): Option<string> {
    if open <= tag && 0 < |UpTo(tag[|open|..], '"')| < |tag| - |open| then Some(UpTo(tag[|open|..], '"'))
    else if tag == "" then None
    else AttributeValue(tag[1..], open)
  }

  // ---- Bodies named and cut

  /** A body that leaves the section, the name of its pair, and whether it is the pair's new side. */
  datatype Cut = Cut(lo: nat, hi: nat, id: string, isNew: bool)

  datatype Entry = Entry(id: string, baseline: Option<string>)

  datatype Parts = Parts(cuts: seq<Cut>, entries: seq<Entry>)

  function OldPath(id: string): string { "code/" + id + ".old.txt" }

  function PathOf(c: Cut): string { if c.isNew then NewPath(c.id) else OldPath(c.id) }

  /** A cut for a body that is not empty; empty bodies stay in place. */
  function CutOf(m: Match, id: string, isNew: bool): seq<Cut> {
    if m.lo == m.hi then [] else [Cut(m.lo, m.hi, id, isNew)]
  }

  /** Elements come in pairs, old side first, named by the new side; none where the program stops. */
  function PairUp(s: string, ms: seq<Match>): Option<Parts> {
    if ms == [] then Some(Parts([], []))
    else if |ms| == 1 then None
    else
      var oldSide, newSide := ms[0], ms[1];
      if !Contains(oldSide.tag, "data-code-old") || !Contains(newSide.tag, "data-code-new") then None
      else
        var id :- AttributeValue(newSide.tag, "data-code-id=\"");
        var cuts := CutOf(oldSide, id, false) + CutOf(newSide, id, true);
        if exists i :: 0 <= i < |cuts| && Contains(s, CodeMark(PathOf(cuts[i]))) then None
        else
          var rest :- PairUp(s, ms[2..]);
          Some(Parts(cuts + rest.cuts, [Entry(id, AttributeValue(oldSide.tag, "data-code-old-ref=\""))] + rest.entries))
  }

  function CodesOf(s: string): Option<Parts> { PairUp(s, Matches(s, 0)) }

  /** Cuts lie in the text in order, each after a `>` and before a `<`. */
  predicate CutsIn(s: string, from: nat, cuts: seq<Cut>)
    decreases cuts
  {
    from <= |s| &&
    (cuts == [] ||
     (&& from < cuts[0].lo <= cuts[0].hi < |s| && s[cuts[0].lo - 1] == '>' && s[cuts[0].hi] == '<'
      && CutsIn(s, cuts[0].hi, cuts[1..])))
  }

  /** The text from `from` on with every cut replaced by its marker. */
  function Spliced(s: string, from: nat, cuts: seq<Cut>): string
    requires CutsIn(s, from, cuts)
    decreases cuts
  {
    if cuts == [] then s[from..]
    else s[from..cuts[0].lo] + CodeMark(PathOf(cuts[0])) + Spliced(s, cuts[0].hi, cuts[1..])
  }

  predicate MatchesIn(s: string, from: nat, ms: seq<Match>)
    decreases ms
  {
    from <= |s| &&
    (ms == [] ||
     (&& from < ms[0].lo <= ms[0].hi < |s| && s[ms[0].lo - 1] == '>' && s[ms[0].hi] == '<'
      && MatchesIn(s, ms[0].hi, ms[1..])))
  }

  lemma {:induction false} MatchesLie(s: string, from: nat)
    requires from <= |s|
    ensures MatchesIn(s, from, Matches(s, from))
    decreases |s| - from
  {
    hide NextCode;
    match NextCode(s, from)
    case None =>
    case Some(m) =>
      MatchesLie(s, m.hi + |SCRIPT_END|);
      assert Matches(s, from)[1..] == Matches(s, m.hi + |SCRIPT_END|);
      MatchesEarlier(s, m.hi, m.hi + |SCRIPT_END|, Matches(s, m.hi + |SCRIPT_END|));
  }

  lemma MatchesEarlier(s: string, a: nat, b: nat, ms: seq<Match>)
    requires a <= b && MatchesIn(s, b, ms)
    ensures MatchesIn(s, a, ms)
  {
  }

  lemma CutsEarlier(s: string, a: nat, b: nat, cuts: seq<Cut>)
    requires a <= b && CutsIn(s, b, cuts)
    ensures CutsIn(s, a, cuts)
    ensures Spliced(s, a, cuts) == s[a..b] + Spliced(s, b, cuts)
  {
    hide PathOf, CodeMark;
    if cuts != [] {
      assert s[a..b] + s[b..cuts[0].lo] == s[a..cuts[0].lo];
      Regrouped(s[a..b], s[b..cuts[0].lo], CodeMark(PathOf(cuts[0])), Spliced(s, cuts[0].hi, cuts[1..]));
    } else {
      assert s[a..b] + s[b..] == s[a..];
    }
  }

  lemma Regrouped(a: string, b: string, c: string, d: string)
    ensures a + (b + c + d) == (a + b) + c + d
  {
  }

  /** One optional cut before others. */
  lemma CutBefore(s: string, from: nat, m: Match, id: string, isNew: bool, rest: seq<Cut>)
    requires from < m.lo <= m.hi < |s| && s[m.lo - 1] == '>' && s[m.hi] == '<' && CutsIn(s, m.hi, rest)
    ensures CutsIn(s, from, CutOf(m, id, isNew) + rest)
  {
    if m.lo == m.hi {
      assert CutOf(m, id, isNew) + rest == rest;
      CutsEarlier(s, from, m.hi, rest);
    } else {
      assert (CutOf(m, id, isNew) + rest)[1..] == rest;
    }
  }

  lemma {:induction false} PairedCutsLie(s: string, from: nat, ms: seq<Match>)
    requires MatchesIn(s, from, ms) && PairUp(s, ms).Some?
    ensures CutsIn(s, from, PairUp(s, ms).value.cuts)
    decreases ms
  {
    hide CutsIn, CutOf, AttributeValue, Contains;
    if ms == [] {
      assert CutsIn(s, from, []) by { NoCutsLie(s, from); }
    } else {
      var oldSide, newSide := ms[0], ms[1];
      var id := AttributeValue(newSide.tag, "data-code-id=\"").value;
      var rest := PairUp(s, ms[2..]).value.cuts;
      assert ms[1..][0] == newSide && ms[1..][1..] == ms[2..];
      PairedCutsLie(s, newSide.hi, ms[2..]);
      CutBefore(s, oldSide.hi, newSide, id, true, rest);
      CutBefore(s, from, oldSide, id, false, CutOf(newSide, id, true) + rest);
      assert CutOf(oldSide, id, false) + (CutOf(newSide, id, true) + rest) == CutOf(oldSide, id, false) + CutOf(newSide, id, true) + rest;
    }
  }

  lemma NoCutsLie(s: string, from: nat)
    requires from <= |s|
    ensures CutsIn(s, from, [])
  {
  }

  /** The cuts of a section lie in it in order. */
  lemma CodesLie(s: string)
    requires CodesOf(s).Some?
    ensures CutsIn(s, 0, CodesOf(s).value.cuts)
  {
    MatchesLie(s, 0);
    PairedCutsLie(s, 0, Matches(s, 0));
  }
}
