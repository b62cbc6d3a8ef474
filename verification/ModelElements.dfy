/** Which bodies leave a section, under which names, stated over the elements that stand in it. */
module ModelElements {
  import opened Text
  import opened ModelMarkers
  import opened ModelRecords
  import opened ModelCodes

  /** A code element: its tag from `at` to `lo`, its body up to `hi`, then its end tag. */
  datatype Element = Element(at: nat, lo: nat, hi: nat) {
    function End(): nat { hi + |SCRIPT_END| }
  }

  /** The tag runs to its first closing bracket, the body to the first end tag. */
  predicate ElementAt(s: string, e: Element) {
    && OccursAt(s, SCRIPT_OPEN, e.at) && e.at + |SCRIPT_OPEN| < e.lo <= e.hi <= |s|
    && s[e.lo - 1] == '>' && (forall j :: e.at + |SCRIPT_OPEN| <= j < e.lo - 1 ==> s[j] != '>')
    && OccursAt(s, SCRIPT_END, e.hi) && forall j: nat :: e.lo <= j < e.hi ==> !OccursAt(s, SCRIPT_END, j)
  }

  /** All elements of a text: in order and apart, and none begins anywhere but inside one of these. */
  ghost predicate Elements(s: string, from: nat, es: seq<Element>) {
    && (forall k :: 0 <= k < |es| ==> from <= es[k].at && ElementAt(s, es[k]))
    && Apart(es)
    && forall e: Element :: from <= e.at && ElementAt(s, e) ==> Covered(es, e.at)
  }

  predicate Apart(es: seq<Element>) { forall k, m :: 0 <= k < m < |es| ==> es[k].End() <= es[m].at }

  predicate Covers(e: Element, i: nat) { e.at <= i < e.End() }

  ghost predicate Covered(es: seq<Element>, i: nat) { exists k :: 0 <= k < |es| && Covers(es[k], i) }

  // ---- The scan finds the elements

  lemma FindIs(s: string, p: string, from: nat, i: nat)
    requires from <= |s|
    ensures FindFrom(s, p, from) == Some(i) <==> from <= i && OccursAt(s, p, i) && forall j: nat :: from <= j < i ==> !OccursAt(s, p, j)
  {
    FindIsFirst(s[from..], p);
    assert forall j :: from <= j <= |s| ==> s[from..][j - from..] == s[j..];
    FoundPlace(s, p, from, i);
  }

  lemma FoundPlace(s: string, p: string, from: nat, i: nat)
    requires from <= |s|
    requires forall j :: from <= j <= |s| ==> s[from..][j - from..] == s[j..]
    requires Find(s[from..], p).Some? ==> forall j :: 0 <= j < Find(s[from..], p).value ==> !(p <= s[from..][j..])
    requires Find(s[from..], p).None? ==> forall j :: 0 <= j <= |s| - from ==> !(p <= s[from..][j..])
    ensures FindFrom(s, p, from) == Some(i) <==> from <= i && OccursAt(s, p, i) && forall j: nat :: from <= j < i ==> !OccursAt(s, p, j)
  {
    hide Find;
    var f := Find(s[from..], p);
    forall j: nat | from <= j <= |s| ensures OccursAt(s, p, j) <==> p <= s[from..][j - from..] {
    }
    if f.Some? {
      assert OccursAt(s, p, from + f.value);
    }
    assert from <= i <= |s| ==> (OccursAt(s, p, i) <==> p <= s[from..][i - from..]);
  }

  lemma BracketAt(s: string, i: nat)
    ensures OccursAt(s, ">", i) <==> i < |s| && s[i] == '>'
  {
  }

  lemma ElementIsRead(s: string, e: Element)
    requires ElementAt(s, e)
    ensures e.at <= |s| && CodeAt(s, e.at) == Some(Match(e.lo, e.hi, s[e.at..e.lo]))
  {
    hide FindFrom;
    forall j: nat ensures OccursAt(s, ">", j) <==> j < |s| && s[j] == '>' {
      BracketAt(s, j);
    }
    FindIs(s, ">", e.at + |SCRIPT_OPEN|, e.lo - 1);
    FindIs(s, SCRIPT_END, e.lo, e.hi);
  }

  lemma ReadParts(s: string, at: nat, m: Match)
    requires at <= |s| && CodeAt(s, at) == Some(m)
    ensures OccursAt(s, SCRIPT_OPEN, at) && at + |SCRIPT_OPEN| <= |s| && m.lo > 0 && m.lo <= |s| && m.tag == s[at..m.lo]
    ensures FindFrom(s, ">", at + |SCRIPT_OPEN|) == Some(m.lo - 1) && FindFrom(s, SCRIPT_END, m.lo) == Some(m.hi)
  {
    hide FindFrom;
  }

  lemma ReadIsElement(s: string, at: nat, m: Match)
    requires at <= |s| && CodeAt(s, at) == Some(m)
    ensures at <= m.lo <= |s| && ElementAt(s, Element(at, m.lo, m.hi)) && m.tag == s[at..m.lo]
  {
    hide FindFrom, CodeAt, OccursAt, SCRIPT_OPEN, SCRIPT_END;
    ReadParts(s, at, m);
    forall j: nat ensures OccursAt(s, ">", j) <==> j < |s| && s[j] == '>' {
      BracketAt(s, j);
    }
    FindIs(s, ">", at + |SCRIPT_OPEN|, m.lo - 1);
    FindIs(s, SCRIPT_END, m.lo, m.hi);
    OccursWithin(s, SCRIPT_END, m.hi);
  }

  lemma OccursWithin(s: string, p: string, i: nat)
    requires OccursAt(s, p, i)
    ensures i + |p| <= |s|
  {
  }

  lemma ElementIsOne(s: string, a: Element, b: Element)
    requires ElementAt(s, a) && ElementAt(s, b) && a.at == b.at
    ensures a == b
  {
    hide CodeAt, ElementAt;
    ElementIsRead(s, a);
    ElementIsRead(s, b);
  }

  lemma ElementFits(s: string, e: Element)
    requires ElementAt(s, e)
    ensures e.at < e.lo <= e.hi && e.End() <= |s|
  {
  }

  /** The first element from a place on. */
  lemma {:induction false} NextMeans(s: string, from: nat) returns (at: nat)
    requires from <= |s|
    ensures from <= at <= |s|
    ensures NextCode(s, from) == if at == |s| then CodeAt(s, |s|) else CodeAt(s, at)
    ensures forall e: Element :: from <= e.at < at ==> !ElementAt(s, e)
    ensures NextCode(s, from).None? ==> at == |s|
    decreases |s| - from
  {
    hide CodeAt, ElementAt;
    if CodeAt(s, from).Some? || from == |s| {
      at := from;
    } else {
      at := NextMeans(s, from + 1);
      forall e: Element | from <= e.at < at ensures !ElementAt(s, e) {
        if e.at == from && ElementAt(s, e) {
          ElementIsRead(s, e);
        }
      }
    }
  }

  ghost predicate MatchesAre(s: string, es: seq<Element>, ms: seq<Match>) {
    |ms| == |es| && forall k :: 0 <= k < |es| ==>
      es[k].at <= es[k].lo <= |s| && ms[k] == Match(es[k].lo, es[k].hi, s[es[k].at..es[k].lo])
  }

  lemma {:induction false} MatchesAreElements(s: string, from: nat) returns (es: seq<Element>)
    requires from <= |s|
    ensures Elements(s, from, es) && MatchesAre(s, es, Matches(s, from))
    decreases |s| - from
  {
    hide CodeAt, ElementAt, NextCode, Apart, Covered, MatchesAre, Elements, Matches;
    MatchesUnfold(s, from);
    var at := NextMeans(s, from);
    match NextCode(s, from)
    case None =>
      es := [];
      NoElement(s, from, at);
      NoMatches(s);
    case Some(m) =>
      var e := Element(at, m.lo, m.hi);
      ReadIsElement(s, at, m);
      ElementFits(s, e);
      var rest := MatchesAreElements(s, e.End());
      es := [e] + rest;
      ElementFirst(s, from, e, rest);
      MatchFirst(s, e, rest, Matches(s, e.End()));
      assert Matches(s, from) == [m] + Matches(s, e.End());
  }

  lemma MatchesUnfold(s: string, from: nat)
    requires from <= |s|
    ensures NextCode(s, from).None? ==> Matches(s, from) == []
    ensures NextCode(s, from).Some? ==>
              Matches(s, from) == [NextCode(s, from).value] + Matches(s, NextCode(s, from).value.hi + |SCRIPT_END|)
  {
    hide NextCode, CodeAt;
  }

  lemma NoMatches(s: string)
    ensures MatchesAre(s, [], [])
  {
  }

  lemma NoElement(s: string, from: nat, at: nat)
    requires from <= at == |s| && NextCode(s, from).None? && CodeAt(s, |s|).None?
    requires forall e: Element :: from <= e.at < at ==> !ElementAt(s, e)
    ensures Elements(s, from, [])
  {
    hide CodeAt, NextCode;
    forall e: Element | from <= e.at ensures !ElementAt(s, e) {
      if ElementAt(s, e) {
        ElementFits(s, e);
      }
    }
  }

  lemma ApartCons(e: Element, rest: seq<Element>)
    requires Apart(rest) && forall k :: 0 <= k < |rest| ==> e.End() <= rest[k].at
    ensures Apart([e] + rest)
  {
    var es := [e] + rest;
    forall k, m | 0 <= k < m < |es| ensures es[k].End() <= es[m].at {
      assert es[m] == rest[m - 1];
      assert k > 0 ==> es[k] == rest[k - 1];
    }
  }

  lemma CoveredCons(e: Element, rest: seq<Element>, i: nat)
    requires Covers(e, i) || Covered(rest, i)
    ensures Covered([e] + rest, i)
  {
    hide Covers;
    var es := [e] + rest;
    if Covers(e, i) {
      assert es[0] == e;
    } else {
      var k :| 0 <= k < |rest| && Covers(rest[k], i);
      assert es[k + 1] == rest[k];
    }
  }

  lemma ElementFirst(s: string, from: nat, e: Element, rest: seq<Element>)
    requires from <= e.at && ElementAt(s, e) && Elements(s, e.End(), rest)
    requires forall x: Element :: from <= x.at < e.at ==> !ElementAt(s, x)
    ensures Elements(s, from, [e] + rest)
  {
    hide ElementAt, Apart, Covered;
    ElementFits(s, e);
    ApartCons(e, rest);
    forall x: Element | from <= x.at && ElementAt(s, x) ensures Covered([e] + rest, x.at) {
      CoveredCons(e, rest, x.at);
    }
  }

  lemma MatchFirst(s: string, e: Element, rest: seq<Element>, ms: seq<Match>)
    requires e.at <= e.lo <= |s| && MatchesAre(s, rest, ms)
    ensures MatchesAre(s, [e] + rest, [Match(e.lo, e.hi, s[e.at..e.lo])] + ms)
  {
    var es := [e] + rest;
    assert es[0] == e && forall k :: 1 <= k < |es| ==> es[k] == rest[k - 1];
  }

  // ---- Attributes

  /** The first value of an attribute that is closed and not empty. */
  ghost predicate HasValue(tag: string, open: string, v: string) {
    exists i: nat :: ValueAt(tag, open, i, v) && NoValueBefore(tag, open, i)
  }

  predicate ValueAt(tag: string, open: string, i: nat, v: string) {
    v != "" && '"' !in v && OccursAt(tag, open + v + "\"", i)
  }

  ghost predicate NoValueBefore(tag: string, open: string, i: nat) {
    forall j: nat, w :: j < i ==> !ValueAt(tag, open, j, w)
  }

  lemma {:induction false} UpToIs(u: string, rest: string)
    requires '"' !in u && rest != "" && rest[0] == '"'
    ensures UpTo(u + rest, '"') == u
    decreases u
  {
    if u == "" {
      assert u + rest == rest;
    } else {
      assert (u + rest)[1..] == u[1..] + rest;
      UpToIs(u[1..], rest);
    }
  }

  lemma ValueHere(tag: string, open: string, v: string)
    ensures ValueAt(tag, open, 0, v) <==>
            open <= tag && 0 < |UpTo(tag[|open|..], '"')| < |tag| - |open| && v == UpTo(tag[|open|..], '"')
  {
    hide UpTo;
    assert tag[0..] == tag;
    if ValueAt(tag, open, 0, v) {
      var rest := tag[|open + v + "\""|..];
      assert tag == open + (v + ("\"" + rest));
      assert tag[|open|..] == v + ("\"" + rest);
      UpToIs(v, "\"" + rest);
    }
    if open <= tag && 0 < |UpTo(tag[|open|..], '"')| < |tag| - |open| && v == UpTo(tag[|open|..], '"') {
      var tail := tag[|open|..];
      assert tag == open + tail && tail == v + "\"" + tail[|v| + 1..];
      assert tag == open + v + "\"" + tail[|v| + 1..];
    }
  }

  lemma ValueLater(tag: string, open: string, i: nat, v: string)
    requires tag != ""
    ensures ValueAt(tag, open, i + 1, v) <==> ValueAt(tag[1..], open, i, v)
  {
    if i + 1 <= |tag| {
      assert tag[i + 1..] == tag[1..][i..];
    }
  }

  lemma {:induction false} AttributeMeans(tag: string, open: string, v: string)
    ensures AttributeValue(tag, open) == Some(v) <==> HasValue(tag, open, v)
    decreases |tag|
  {
    hide UpTo, ValueAt;
    forall w ensures ValueAt(tag, open, 0, w) <==>
        open <= tag && 0 < |UpTo(tag[|open|..], '"')| < |tag| - |open| && w == UpTo(tag[|open|..], '"')
    {
      ValueHere(tag, open, w);
    }
    if open <= tag && 0 < |UpTo(tag[|open|..], '"')| < |tag| - |open| {
      FirstValueWins(tag, open, UpTo(tag[|open|..], '"'), v);
    } else if tag == "" {
      NoValueInNothing(open, v);
    } else {
      AttributeMeans(tag[1..], open, v);
      ValuesShift(tag, open, v);
    }
  }

  lemma FirstValueWins(tag: string, open: string, here: string, v: string)
    requires forall w :: ValueAt(tag, open, 0, w) <==> w == here
    ensures HasValue(tag, open, v) <==> v == here
  {
    hide ValueAt;
    if HasValue(tag, open, v) {
      var i: nat :| ValueAt(tag, open, i, v) && NoValueBefore(tag, open, i);
      NothingBeforeHere(tag, open, i, here);
    }
    assert NoValueBefore(tag, open, 0);
    assert ValueAt(tag, open, 0, here);
  }

  lemma NothingBeforeHere(tag: string, open: string, i: nat, here: string)
    requires ValueAt(tag, open, 0, here) && NoValueBefore(tag, open, i)
    ensures i == 0
  {
    hide ValueAt;
  }

  lemma NoValueInNothing(open: string, v: string)
    ensures !HasValue("", open, v)
  {
  }

  lemma ValuesShift(tag: string, open: string, v: string)
    requires tag != "" && forall w :: !ValueAt(tag, open, 0, w)
    ensures HasValue(tag, open, v) <==> HasValue(tag[1..], open, v)
  {
    hide ValueAt;
    forall i: nat, w ensures ValueAt(tag, open, i + 1, w) <==> ValueAt(tag[1..], open, i, w) {
      ValueLater(tag, open, i, w);
    }
    if HasValue(tag, open, v) {
      var i: nat :| ValueAt(tag, open, i, v) && NoValueBefore(tag, open, i);
      assert ValueAt(tag[1..], open, i - 1, v);
      forall j: nat, w | j < i - 1 ensures !ValueAt(tag[1..], open, j, w) {
        assert !ValueAt(tag, open, j + 1, w);
      }
    }
    if HasValue(tag[1..], open, v) {
      var i: nat :| ValueAt(tag[1..], open, i, v) && NoValueBefore(tag[1..], open, i);
      assert ValueAt(tag, open, i + 1, v);
      forall j: nat, w | j < i + 1 ensures !ValueAt(tag, open, j, w) {
        assert j > 0 ==> !ValueAt(tag[1..], open, j - 1, w);
      }
    }
  }

  // ---- The elements are determined by the text

  lemma NotBefore(s: string, a: seq<Element>, b: seq<Element>, k: nat)
    requires Elements(s, 0, a) && Elements(s, 0, b) && k < |a| && k <= |b| && a[..k] == b[..k]
    ensures k < |b| && b[k].at <= a[k].at
  {
    hide *;
    ElementStands(s, a, k);
    AreApart(s, a);
    AreApart(s, b);
    IsCovered(s, b, a[k]);
    var j := Covering(b, a[k].at);
    if j < k {
      EndsBefore(a, b, j, k);
    } else {
      ElementStands(s, b, k);
      StartsLater(s, b, k, j);
      CoverStarts(b[j], a[k].at);
    }
  }

  lemma ElementStands(s: string, es: seq<Element>, k: nat)
    requires Elements(s, 0, es) && k < |es|
    ensures ElementAt(s, es[k])
  {
    hide ElementAt, Apart, Covered;
  }

  lemma AreApart(s: string, es: seq<Element>)
    requires Elements(s, 0, es)
    ensures Apart(es)
  {
    hide ElementAt, Apart, Covered;
  }

  lemma IsCovered(s: string, es: seq<Element>, e: Element)
    requires Elements(s, 0, es) && ElementAt(s, e)
    ensures Covered(es, e.at)
  {
    hide ElementAt, Apart, Covered;
  }

  lemma Covering(es: seq<Element>, i: nat) returns (k: nat)
    requires Covered(es, i)
    ensures k < |es| && Covers(es[k], i)
  {
    hide Covers;
    k :| 0 <= k < |es| && Covers(es[k], i);
  }

  lemma CoverStarts(e: Element, i: nat)
    requires Covers(e, i)
    ensures e.at <= i
  {
  }

  lemma EndsBefore(a: seq<Element>, b: seq<Element>, j: nat, k: nat)
    requires Apart(a) && j < k < |a| && k <= |b| && a[..k] == b[..k]
    ensures !Covers(b[j], a[k].at)
  {
    assert a[..k][j] == b[..k][j];
  }

  lemma StartsLater(s: string, b: seq<Element>, k: nat, j: nat)
    requires Apart(b) && k <= j < |b| && ElementAt(s, b[k])
    ensures b[k].at <= b[j].at
  {
    ElementFits(s, b[k]);
  }

  lemma {:induction false} SameElements(s: string, a: seq<Element>, b: seq<Element>, k: nat)
    requires Elements(s, 0, a) && Elements(s, 0, b) && k <= |a| && k <= |b| && a[..k] == b[..k]
    ensures a == b
    decreases |a| - k
  {
    hide *;
    if k < |a| {
      NotBefore(s, a, b, k);
      NotBefore(s, b, a, k);
      ElementStands(s, a, k);
      ElementStands(s, b, k);
      ElementIsOne(s, a[k], b[k]);
      assert a[..k + 1] == a[..k] + [a[k]] && b[..k + 1] == b[..k] + [b[k]];
      SameElements(s, a, b, k + 1);
    } else {
      if k < |b| {
        NotBefore(s, b, a, k);
      }
      assert a == a[..k] && b == b[..k];
    }
  }

  // ---- Pairs

  function TagOf(s: string, e: Element): string
    requires e.at <= e.lo <= |s|
  {
    s[e.at..e.lo]
  }

  ghost predicate ValueIs(tag: string, open: string, v: Option<string>) {
    if v.Some? then HasValue(tag, open, v.value) else forall w :: !HasValue(tag, open, w)
  }

  function MarkFor(id: string, side: string): string { "[[@code " + "code/" + id + "." + side + ".txt" + "]]" }

  /** An old side and its new side, named by the new one; neither body that leaves is marked already. */
  ghost predicate IsPair(s: string, oldSide: Element, newSide: Element, e: Entry) {
    && oldSide.at <= oldSide.lo <= |s| && newSide.at <= newSide.lo <= |s|
    && Contains(TagOf(s, oldSide), "data-code-old") && Contains(TagOf(s, newSide), "data-code-new")
    && HasValue(TagOf(s, newSide), "data-code-id=\"", e.id)
    && ValueIs(TagOf(s, oldSide), "data-code-old-ref=\"", e.baseline)
    && (oldSide.lo < oldSide.hi ==> !Contains(s, MarkFor(e.id, "old")))
    && (newSide.lo < newSide.hi ==> !Contains(s, MarkFor(e.id, "new")))
  }

  /** The body of an element leaves when there is one. */
  function Leaving(e: Element, id: string, isNew: bool): seq<Cut> {
    if e.lo < e.hi then [Cut(e.lo, e.hi, id, isNew)] else []
  }

  /** The elements pair up in order, one entry and up to two cuts for each pair. */
  ghost predicate PairsAre(s: string, es: seq<Element>, p: Parts)
    decreases es
  {
    if |es| < 2 then es == [] && p == Parts([], [])
    else
      && p.entries != [] && IsPair(s, es[0], es[1], p.entries[0])
      && exists rest :: p.cuts == Leaving(es[0], p.entries[0].id, false) + Leaving(es[1], p.entries[0].id, true) + rest
           && PairsAre(s, es[2..], Parts(rest, p.entries[1..]))
  }

  lemma MarkIs(c: Cut)
    ensures CodeMark(PathOf(c)) == MarkFor(c.id, if c.isNew then "new" else "old")
  {
    var id := c.id;
    assert "[[@code " + ("code/" + id + ".new.txt") + "]]" == MarkFor(id, "new") by {
      MarkSplit("[[@code ", "code/" + id, "new");
    }
    assert "[[@code " + ("code/" + id + ".old.txt") + "]]" == MarkFor(id, "old") by {
      MarkSplit("[[@code ", "code/" + id, "old");
    }
  }

  lemma MarkSplit(open: string, path: string, side: string)
    requires side in {"new", "old"}
    ensures side == "new" ==> path + ".new.txt" == path + "." + side + ".txt"
    ensures side == "old" ==> path + ".old.txt" == path + "." + side + ".txt"
    ensures open + (path + "." + side + ".txt") + "]]" == open + path + "." + side + ".txt" + "]]"
  {
    assert ".new.txt" == "." + "new" + ".txt" && ".old.txt" == "." + "old" + ".txt";
  }

  predicate Taken(s: string, cuts: seq<Cut>) { exists i :: 0 <= i < |cuts| && Contains(s, CodeMark(PathOf(cuts[i]))) }

  /** What the program asks of a pair. */
  predicate PairRead(s: string, oldSide: Match, newSide: Match, e: Entry) {
    && Contains(oldSide.tag, "data-code-old") && Contains(newSide.tag, "data-code-new")
    && AttributeValue(newSide.tag, "data-code-id=\"") == Some(e.id)
    && AttributeValue(oldSide.tag, "data-code-old-ref=\"") == e.baseline
    && !Taken(s, CutOf(oldSide, e.id, false) + CutOf(newSide, e.id, true))
  }

  lemma AttributeIs(tag: string, open: string, v: Option<string>)
    ensures AttributeValue(tag, open) == v <==> ValueIs(tag, open, v)
  {
    hide AttributeValue, HasValue;
    forall w ensures AttributeValue(tag, open) == Some(w) <==> HasValue(tag, open, w) {
      AttributeMeans(tag, open, w);
    }
  }

  lemma SidesTaken(s: string, a: seq<Cut>, b: seq<Cut>)
    ensures Taken(s, a + b) <==> Taken(s, a) || Taken(s, b)
  {
    hide Contains, CodeMark, PathOf;
    if i :| 0 <= i < |a| && Contains(s, CodeMark(PathOf(a[i]))) {
      assert (a + b)[i] == a[i];
    }
    if i :| 0 <= i < |b| && Contains(s, CodeMark(PathOf(b[i]))) {
      assert (a + b)[|a| + i] == b[i];
    }
  }

  lemma SideTaken(s: string, e: Element, m: Match, id: string, isNew: bool)
    requires m.lo == e.lo && m.hi == e.hi && e.lo <= e.hi
    ensures CutOf(m, id, isNew) == Leaving(e, id, isNew)
    ensures Taken(s, CutOf(m, id, isNew)) <==> e.lo < e.hi && Contains(s, MarkFor(id, if isNew then "new" else "old"))
  {
    hide Contains, CodeMark, PathOf, MarkFor;
    if e.lo < e.hi {
      var cut := Cut(e.lo, e.hi, id, isNew);
      MarkIs(cut);
      assert CutOf(m, id, isNew)[0] == cut;
    }
  }

  lemma PairMeans(s: string, a: Element, b: Element, m: Match, n: Match, e: Entry)
    requires a.at <= a.lo <= a.hi && a.lo <= |s| && m == Match(a.lo, a.hi, s[a.at..a.lo])
    requires b.at <= b.lo <= b.hi && b.lo <= |s| && n == Match(b.lo, b.hi, s[b.at..b.lo])
    ensures PairRead(s, m, n, e) <==> IsPair(s, a, b, e)
  {
    hide Contains, AttributeValue, ValueIs, HasValue, Taken, MarkFor, CutOf, Leaving;
    AttributeMeans(n.tag, "data-code-id=\"", e.id);
    AttributeIs(m.tag, "data-code-old-ref=\"", e.baseline);
    SidesTaken(s, CutOf(m, e.id, false), CutOf(n, e.id, true));
    SideTaken(s, a, m, e.id, false);
    SideTaken(s, b, n, e.id, true);
  }

  /** The program's step over one pair. */
  lemma PairUpUnfolds(s: string, ms: seq<Match>, p: Parts)
    requires |ms| >= 2
    ensures PairUp(s, ms) == Some(p) <==>
            && p.entries != [] && PairRead(s, ms[0], ms[1], p.entries[0])
            && exists rest :: p.cuts == CutOf(ms[0], p.entries[0].id, false) + CutOf(ms[1], p.entries[0].id, true) + rest
                 && PairUp(s, ms[2..]) == Some(Parts(rest, p.entries[1..]))
  {
    hide Contains, AttributeValue, CutOf, CodeMark, PathOf;
    if PairUp(s, ms) == Some(p) {
      var rest := PairUp(s, ms[2..]).value;
      assert p.entries[1..] == rest.entries;
      assert Parts(rest.cuts, p.entries[1..]) == rest;
    }
    if p.entries != [] && PairRead(s, ms[0], ms[1], p.entries[0]) {
      assert p.entries == [p.entries[0]] + p.entries[1..];
    }
  }

  lemma ElementsTail(s: string, es: seq<Element>, ms: seq<Match>)
    requires MatchesAre(s, es, ms) && |es| >= 2
    ensures MatchesAre(s, es[2..], ms[2..])
  {
    assert forall k :: 0 <= k < |es| - 2 ==> es[2..][k] == es[k + 2] && ms[2..][k] == ms[k + 2];
  }

  lemma {:induction false} PairsMean(s: string, es: seq<Element>, ms: seq<Match>, p: Parts)
    requires MatchesAre(s, es, ms) && forall k :: 0 <= k < |es| ==> es[k].lo <= es[k].hi
    ensures PairUp(s, ms) == Some(p) <==> PairsAre(s, es, p)
    decreases es
  {
    hide PairUp, PairRead, IsPair, CutOf, Leaving;
    if |es| < 2 {
      FewPairs(s, ms);
    } else {
      PairUpUnfolds(s, ms, p);
      ElementsTail(s, es, ms);
      assert forall k :: 0 <= k < |es| - 2 ==> es[2..][k] == es[k + 2];
      if p.entries != [] {
        var e := p.entries[0];
        PairMeans(s, es[0], es[1], ms[0], ms[1], e);
        SideTaken(s, es[0], ms[0], e.id, false);
        SideTaken(s, es[1], ms[1], e.id, true);
        forall rest ensures PairUp(s, ms[2..]) == Some(Parts(rest, p.entries[1..])) <==> PairsAre(s, es[2..], Parts(rest, p.entries[1..])) {
          PairsMean(s, es[2..], ms[2..], Parts(rest, p.entries[1..]));
        }
      }
    }
  }

  lemma FewPairs(s: string, ms: seq<Match>)
    ensures |ms| == 0 ==> PairUp(s, ms) == Some(Parts([], []))
    ensures |ms| == 1 ==> PairUp(s, ms) == None
  {
  }

  /** What leaves a section, and under which names: its elements pair up so, or the program stops. */
  lemma CodesMean(s: string, p: Parts)
    ensures CodesOf(s) == Some(p) <==> exists es :: Elements(s, 0, es) && PairsAre(s, es, p)
  {
    hide Matches, PairUp, MatchesAre, Elements, PairsAre;
    var es := MatchesAreElements(s, 0);
    BodiesFit(s, es);
    PairsMean(s, es, Matches(s, 0), p);
    forall other: seq<Element> | Elements(s, 0, other) ensures other == es {
      SameElements(s, other, es, 0);
    }
  }

  lemma BodiesFit(s: string, es: seq<Element>)
    requires Elements(s, 0, es)
    ensures forall k :: 0 <= k < |es| ==> es[k].lo <= es[k].hi
  {
    hide Apart, Covered, ElementAt;
    forall k | 0 <= k < |es| ensures es[k].lo <= es[k].hi {
      ElementFits(s, es[k]);
    }
  }
}
