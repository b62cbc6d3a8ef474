/** Heading sections of a packet, the homes of its mirror rules, and their confinement. */
module PacketSections {
  import opened Text

  /** A heading line: where it stands, how deep it is, and its slug. */
  datatype Heading = Heading(start: nat, level: nat, slug: string)

  datatype Span = Span(lo: nat, hi: nat)

  predicate InOrder(hs: seq<Heading>, size: nat) {
    && (forall i :: 0 <= i < |hs| ==> hs[i].start < size)
    && forall i, j :: 0 <= i < j < |hs| ==> hs[i].start < hs[j].start
  }

  /** A section runs to the next heading of the same or a higher level. */
  function EndFrom(hs: seq<Heading>, k: nat, level: nat, size: nat): nat
    requires k <= |hs|
    decreases |hs| - k
  {
    if k == |hs| then size
    else if hs[k].level <= level then hs[k].start
    else EndFrom(hs, k + 1, level, size)
  }

  function SectionOf(hs: seq<Heading>, k: nat, size: nat): Span
    requires k < |hs|
  {
    Span(hs[k].start, EndFrom(hs, k + 1, hs[k].level, size))
  }

  predicate Within(a: Span, b: Span) { b.lo <= a.lo && a.hi <= b.hi }

  lemma {:induction false} EndIsBeyond(hs: seq<Heading>, k: nat, level: nat, size: nat)
    requires InOrder(hs, size) && k <= |hs|
    ensures EndFrom(hs, k, level, size) <= size
    ensures forall j :: 0 <= j < k ==> hs[j].start < EndFrom(hs, k, level, size)
    decreases |hs| - k
  {
    if k < |hs| && hs[k].level > level {
      EndIsBeyond(hs, k + 1, level, size);
    }
  }

  /** A heading that the section reaches over is deeper, and its own section ends no later. */
  lemma {:induction false} DeeperEndsEarlier(hs: seq<Heading>, k: nat, level: nat, j: nat, size: nat)
    requires InOrder(hs, size) && k <= j < |hs| && hs[j].start < EndFrom(hs, k, level, size)
    ensures hs[j].level > level
    ensures EndFrom(hs, j + 1, hs[j].level, size) <= EndFrom(hs, k, level, size)
    decreases |hs| - k
  {
    if hs[k].level <= level {
    } else if k < j {
      DeeperEndsEarlier(hs, k + 1, level, j, size);
    } else {
      HigherEndsLater(hs, j + 1, level, hs[j].level, size);
    }
  }

  lemma {:induction false} HigherEndsLater(hs: seq<Heading>, k: nat, high: nat, low: nat, size: nat)
    requires InOrder(hs, size) && k <= |hs| && high <= low
    ensures EndFrom(hs, k, low, size) <= EndFrom(hs, k, high, size)
    decreases |hs| - k
  {
    if k < |hs| {
      if hs[k].level > low {
        HigherEndsLater(hs, k + 1, high, low, size);
      } else {
        EndIsBeyond(hs, k + 1, high, size);
      }
    }
  }

  /** Sections are laminar: any two are nested or apart. */
  lemma SectionsAreLaminar(hs: seq<Heading>, i: nat, j: nat, size: nat)
    requires InOrder(hs, size) && i < j < |hs|
    ensures var a, b := SectionOf(hs, i, size), SectionOf(hs, j, size);
            a.lo < b.lo && (Within(b, a) || a.hi <= b.lo)
    ensures SectionOf(hs, j, size).lo < SectionOf(hs, j, size).hi <= size
  {
    EndIsBeyond(hs, j + 1, hs[j].level, size);
    if hs[j].start < EndFrom(hs, i + 1, hs[i].level, size) {
      DeeperEndsEarlier(hs, i + 1, hs[i].level, j, size);
    }
  }

  // ---- The sections a slug names

  predicate Names(h: Heading, slug: string) {
    h.slug == slug || StartsWith(h.slug, slug + "-")
  }

  /** The sections of the matching headings from the `k`-th on. */
  function Matching(hs: seq<Heading>, k: nat, slug: string, size: nat): seq<Span>
    requires k <= |hs|
    decreases |hs| - k
  {
    if k == |hs| then []
    else (if Names(hs[k], slug) then [SectionOf(hs, k, size)] else []) + Matching(hs, k + 1, slug, size)
  }

  predicate Outermost(s: Span, spans: seq<Span>) {
    forall i :: 0 <= i < |spans| ==> spans[i] == s || !Within(s, spans[i])
  }

  function Outer(spans: seq<Span>, all: seq<Span>): seq<Span> {
    if spans == [] then [] else (if Outermost(spans[0], all) then [spans[0]] else []) + Outer(spans[1..], all)
  }

  function SlugSections(hs: seq<Heading>, slug: string, size: nat): seq<Span> {
    var spans := Matching(hs, 0, slug, size);
    Outer(spans, spans)
  }

  /** Laminar, in order of their starts, none empty. */
  predicate Laminar(spans: seq<Span>) {
    && (forall i :: 0 <= i < |spans| ==> spans[i].lo < spans[i].hi)
    && forall i, j :: 0 <= i < j < |spans| ==>
         spans[i].lo < spans[j].lo && (Within(spans[j], spans[i]) || spans[i].hi <= spans[j].lo)
  }

  lemma {:induction false} MatchingIsLaminar(hs: seq<Heading>, k: nat, slug: string, size: nat)
    requires InOrder(hs, size) && k <= |hs|
    ensures Laminar(Matching(hs, k, slug, size))
    ensures forall s :: s in Matching(hs, k, slug, size) ==> exists j :: k <= j < |hs| && s == SectionOf(hs, j, size)
    decreases |hs| - k
  {
    hide Names, Laminar;
    if k == |hs| {
      NoneIsLaminar();
    } else {
      MatchingIsLaminar(hs, k + 1, slug, size);
      var rest := Matching(hs, k + 1, slug, size);
      FirstIsApart(hs, k, size, rest);
      hide SectionOf;
      assert [] + rest == rest;
      LaminarCons(SectionOf(hs, k, size), rest);
    }
  }

  lemma NoneIsLaminar()
    ensures Laminar([])
  {
  }

  predicate Leads(first: Span, rest: seq<Span>) {
    && first.lo < first.hi
    && forall i :: 0 <= i < |rest| ==> first.lo < rest[i].lo && (Within(rest[i], first) || first.hi <= rest[i].lo)
  }

  lemma LaminarCons(first: Span, rest: seq<Span>)
    requires Laminar(rest) && Leads(first, rest)
    ensures Laminar([first] + rest)
  {
    hide Within;
  }

  lemma FirstIsApart(hs: seq<Heading>, k: nat, size: nat, rest: seq<Span>)
    requires InOrder(hs, size) && k < |hs|
    requires forall s :: s in rest ==> exists j :: k + 1 <= j < |hs| && s == SectionOf(hs, j, size)
    ensures Leads(SectionOf(hs, k, size), rest)
  {
    var first := SectionOf(hs, k, size);
    SectionFits(hs, k, size);
    hide SectionOf;
    forall i | 0 <= i < |rest| ensures first.lo < rest[i].lo && (Within(rest[i], first) || first.hi <= rest[i].lo) {
      assert rest[i] in rest;
      var j :| k + 1 <= j < |hs| && rest[i] == SectionOf(hs, j, size);
      SectionsAreLaminar(hs, k, j, size);
    }
  }

  lemma {:induction false} OuterFacts(spans: seq<Span>, all: seq<Span>)
    ensures forall s :: s in Outer(spans, all) <==> s in spans && Outermost(s, all)
    decreases spans
  {
    hide Outermost;
    if spans != [] {
      OuterFacts(spans[1..], all);
    }
  }

  lemma {:induction false} OuterInOrder(spans: seq<Span>, all: seq<Span>)
    requires forall i, j :: 0 <= i < j < |spans| ==> spans[i].lo < spans[j].lo
    ensures forall i, j :: 0 <= i < j < |Outer(spans, all)| ==> Outer(spans, all)[i].lo < Outer(spans, all)[j].lo
    decreases spans
  {
    hide Outermost;
    if spans != [] {
      OuterInOrder(spans[1..], all);
      OuterFacts(spans[1..], all);
      assert forall s :: s in spans[1..] ==> spans[0].lo < s.lo;
    }
  }

  /** Every span lies in an outermost one: the widest of those that contain it. */
  lemma {:induction false} SomeOuter(spans: seq<Span>, k: nat) returns (w: nat)
    requires Laminar(spans) && k < |spans|
    ensures w <= k && Within(spans[k], spans[w]) && Outermost(spans[w], spans)
    decreases k
  {
    if Outermost(spans[k], spans) {
      w := k;
    } else {
      var i :| 0 <= i < |spans| && spans[i] != spans[k] && Within(spans[k], spans[i]);
      assert i < k;
      w := SomeOuter(spans, i);
    }
  }

  /** The sections a slug names are apart from each other, in order. */
  lemma SlugSectionsApart(hs: seq<Heading>, slug: string, size: nat, i: nat, j: nat)
    requires InOrder(hs, size) && i < j < |SlugSections(hs, slug, size)|
    ensures SlugSections(hs, slug, size)[i].hi <= SlugSections(hs, slug, size)[j].lo
  {
    var spans, r := Matching(hs, 0, slug, size), SlugSections(hs, slug, size);
    MatchingIsLaminar(hs, 0, slug, size);
    OuterFacts(spans, spans);
    OuterInOrder(spans, spans);
    assert r[i] in r && r[j] in r;
    hide Matching, Outer;
    OuterApart(spans, r[i], r[j]);
  }

  /** They stay inside the document. */
  lemma SlugSectionsFit(hs: seq<Heading>, slug: string, size: nat, s: Span)
    requires InOrder(hs, size) && s in SlugSections(hs, slug, size)
    ensures s.lo < s.hi <= size
  {
    var spans := Matching(hs, 0, slug, size);
    MatchingFacts(hs, 0, slug, size);
    OuterFacts(spans, spans);
    hide Matching, Outer, Outermost, Names;
    assert s in spans;
    var k :| 0 <= k < |hs| && Names(hs[k], slug) && s == SectionOf(hs, k, size);
    SectionFits(hs, k, size);
  }

  lemma SectionFits(hs: seq<Heading>, k: nat, size: nat)
    requires InOrder(hs, size) && k < |hs|
    ensures SectionOf(hs, k, size).lo < SectionOf(hs, k, size).hi <= size
  {
    EndIsBeyond(hs, k + 1, hs[k].level, size);
  }

  predicate Covers(spans: seq<Span>, line: nat) {
    exists i :: 0 <= i < |spans| && spans[i].lo <= line < spans[i].hi
  }

  predicate InMatchingSection(hs: seq<Heading>, slug: string, size: nat, line: nat) {
    exists k :: 0 <= k < |hs| && Names(hs[k], slug) && SectionOf(hs, k, size).lo <= line < SectionOf(hs, k, size).hi
  }

  /** They cover exactly the lines of all matching sections. */
  lemma SlugSectionsCover(hs: seq<Heading>, slug: string, size: nat, line: nat)
    requires InOrder(hs, size)
    ensures Covers(SlugSections(hs, slug, size), line) <==> InMatchingSection(hs, slug, size, line)
  {
    var spans, r := Matching(hs, 0, slug, size), SlugSections(hs, slug, size);
    MatchingIsLaminar(hs, 0, slug, size);
    MatchingFacts(hs, 0, slug, size);
    OuterFacts(spans, spans);
    hide Names, SectionOf, Matching, Outer, Laminar, Outermost;
    if Covers(r, line) {
      var i :| 0 <= i < |r| && r[i].lo <= line < r[i].hi;
      assert r[i] in r;
      var k :| 0 <= k < |hs| && Names(hs[k], slug) && r[i] == SectionOf(hs, k, size);
    }
    if InMatchingSection(hs, slug, size, line) {
      var k :| 0 <= k < |hs| && Names(hs[k], slug) && SectionOf(hs, k, size).lo <= line < SectionOf(hs, k, size).hi;
      CoveredByOuter(spans, r, SectionOf(hs, k, size), line);
    }
  }

  lemma CoveredByOuter(spans: seq<Span>, outer: seq<Span>, s: Span, line: nat)
    requires Laminar(spans) && s in spans && s.lo <= line < s.hi
    requires forall x :: x in spans && Outermost(x, spans) ==> x in outer
    ensures Covers(outer, line)
  {
    var m :| 0 <= m < |spans| && spans[m] == s;
    var w := SomeOuter(spans, m);
    hide Laminar, Outermost;
    assert spans[w] in outer;
    var i :| 0 <= i < |outer| && outer[i] == spans[w];
  }

  lemma {:induction false} MatchingFacts(hs: seq<Heading>, k: nat, slug: string, size: nat)
    requires k <= |hs|
    ensures forall s :: s in Matching(hs, k, slug, size) ==>
              exists j :: k <= j < |hs| && Names(hs[j], slug) && s == SectionOf(hs, j, size)
    ensures forall j :: k <= j < |hs| && Names(hs[j], slug) ==> SectionOf(hs, j, size) in Matching(hs, k, slug, size)
    decreases |hs| - k
  {
    hide Names, SectionOf;
    if k < |hs| {
      MatchingFacts(hs, k + 1, slug, size);
    }
  }

  lemma OuterApart(spans: seq<Span>, a: Span, b: Span)
    requires Laminar(spans) && a in spans && b in spans && Outermost(b, spans) && a.lo < b.lo
    ensures a.hi <= b.lo
  {
    var i :| 0 <= i < |spans| && spans[i] == a;
    var j :| 0 <= j < |spans| && spans[j] == b;
    assert i < j;
  }

  // ---- The program's loops

  method SectionEnd(hs: seq<Heading>, idx: nat, size: nat) returns (end: nat)
    requires idx < |hs|
    ensures end == SectionOf(hs, idx, size).hi
  {
    end := size;
    for k := idx + 1 to |hs|
      invariant end == size
      invariant EndFrom(hs, idx + 1, hs[idx].level, size) == EndFrom(hs, k, hs[idx].level, size)
    {
      if hs[k].level <= hs[idx].level {
        end := hs[k].start;
        break;
      }
    }
  }

  method FindSlugSections(hs: seq<Heading>, slug: string, size: nat) returns (r: seq<Span>)
    ensures r == SlugSections(hs, slug, size)
  {
    hide Names, SectionOf, Outermost;
    var spans: seq<Span> := [];
    for idx := 0 to |hs|
      invariant spans + Matching(hs, idx, slug, size) == Matching(hs, 0, slug, size)
    {
      if Names(hs[idx], slug) {
        var end := SectionEnd(hs, idx, size);
        SpanIs(hs, idx, size);
        assert spans + ([SectionOf(hs, idx, size)] + Matching(hs, idx + 1, slug, size))
            == spans + [SectionOf(hs, idx, size)] + Matching(hs, idx + 1, slug, size);
        spans := spans + [Span(hs[idx].start, end)];
      } else {
        assert Matching(hs, idx, slug, size) == Matching(hs, idx + 1, slug, size);
      }
    }
    assert spans + [] == spans;
    r := [];
    assert spans[0..] == spans;
    for i := 0 to |spans|
      invariant r + Outer(spans[i..], spans) == Outer(spans, spans)
    {
      assert spans[i..][0] == spans[i] && spans[i..][1..] == spans[i + 1..];
      if Outermost(spans[i], spans) {
        assert r + ([spans[i]] + Outer(spans[i + 1..], spans)) == r + [spans[i]] + Outer(spans[i + 1..], spans);
        r := r + [spans[i]];
      } else {
        assert Outer(spans[i..], spans) == Outer(spans[i + 1..], spans);
      }
    }
    assert r + [] == r;
  }

  lemma SpanIs(hs: seq<Heading>, k: nat, size: nat)
    requires k < |hs|
    ensures SectionOf(hs, k, size) == Span(hs[k].start, SectionOf(hs, k, size).hi)
  {
  }

  // ---- What a slug's sections are, heading by heading

  /** The heading at `k` begins this section: it ends before the next heading that is no deeper, or with the
      document. */
  ghost predicate Begins(hs: seq<Heading>, k: nat, size: nat, s: Span) {
    && k < |hs| && s.lo == hs[k].start
    && ((s.hi == size && forall j :: k < j < |hs| ==> hs[j].level > hs[k].level)
        || exists m: nat :: EndsAt(hs, k, m) && s.hi == hs[m].start)
  }

  predicate EndsAt(hs: seq<Heading>, k: nat, m: nat) {
    k < m < |hs| && hs[m].level <= hs[k].level && forall j :: k < j < m ==> hs[j].level > hs[k].level
  }

  lemma {:induction false} EndStops(hs: seq<Heading>, k: nat, level: nat, size: nat) returns (m: nat)
    requires k <= |hs|
    ensures k <= m <= |hs| && forall j :: k <= j < m ==> hs[j].level > level
    ensures m < |hs| ==> hs[m].level <= level
    ensures EndFrom(hs, k, level, size) == if m == |hs| then size else hs[m].start
    decreases |hs| - k
  {
    if k == |hs| || hs[k].level <= level {
      m := k;
    } else {
      m := EndStops(hs, k + 1, level, size);
    }
  }

  lemma SectionMeans(hs: seq<Heading>, k: nat, size: nat, s: Span)
    requires k < |hs|
    ensures Begins(hs, k, size, s) <==> s == SectionOf(hs, k, size)
  {
    var m := EndStops(hs, k + 1, hs[k].level, size);
    hide EndFrom;
    if s == SectionOf(hs, k, size) && m < |hs| {
      assert EndsAt(hs, k, m);
    }
    if n: nat :| EndsAt(hs, k, n) && s.hi == hs[n].start {
      SameEnd(hs, k, m, n);
    }
  }

  lemma SameEnd(hs: seq<Heading>, k: nat, m: nat, n: nat)
    requires EndsAt(hs, k, n) && k < m <= |hs| && (forall j :: k < j < m ==> hs[j].level > hs[k].level)
    requires m < |hs| ==> hs[m].level <= hs[k].level
    ensures m == n
  {
  }

  /** A section of a heading that the slug names: by its own slug, or one that goes on after a dash. */
  ghost predicate NamedSection(hs: seq<Heading>, slug: string, size: nat, s: Span) {
    exists k: nat :: Begins(hs, k, size, s) && (hs[k].slug == slug || slug + "-" <= hs[k].slug)
  }

  predicate IsNamed(hs: seq<Heading>, k: nat, slug: string, size: nat, s: Span)
    requires k < |hs|
  {
    Names(hs[k], slug) && s == SectionOf(hs, k, size)
  }

  lemma MatchingStep(hs: seq<Heading>, k: nat, slug: string, size: nat, s: Span)
    requires k < |hs|
    ensures s in Matching(hs, k, slug, size) <==> IsNamed(hs, k, slug, size, s) || s in Matching(hs, k + 1, slug, size)
  {
    hide Names, SectionOf;
  }

  lemma {:induction false} MatchingMeans(hs: seq<Heading>, k: nat, slug: string, size: nat, s: Span)
    requires k <= |hs|
    ensures s in Matching(hs, k, slug, size) <==> exists j: nat :: k <= j < |hs| && IsNamed(hs, j, slug, size, s)
    decreases |hs| - k
  {
    hide IsNamed;
    if k < |hs| {
      MatchingMeans(hs, k + 1, slug, size, s);
      MatchingStep(hs, k, slug, size, s);
      hide Matching;
    }
  }

  lemma NamedMeans(hs: seq<Heading>, slug: string, size: nat, s: Span)
    ensures s in Matching(hs, 0, slug, size) <==> NamedSection(hs, slug, size, s)
  {
    hide Begins, SectionOf;
    MatchingMeans(hs, 0, slug, size, s);
    forall k: nat | k < |hs| ensures Begins(hs, k, size, s) <==> s == SectionOf(hs, k, size) {
      SectionMeans(hs, k, size, s);
    }
    hide Matching;
    BeginsWithin(hs, size, s);
    if j: nat :| j < |hs| && IsNamed(hs, j, slug, size, s) {
      assert Begins(hs, j, size, s);
    }
    if NamedSection(hs, slug, size, s) {
      var k: nat :| Begins(hs, k, size, s) && (hs[k].slug == slug || slug + "-" <= hs[k].slug);
      assert IsNamed(hs, k, slug, size, s);
    }
  }

  lemma BeginsWithin(hs: seq<Heading>, size: nat, s: Span)
    ensures forall k: nat :: Begins(hs, k, size, s) ==> k < |hs|
  {
  }

  /** The sections kept for a slug are the named ones that no other named one contains. */
  lemma SlugSectionsMean(hs: seq<Heading>, slug: string, size: nat, s: Span)
    ensures s in SlugSections(hs, slug, size) <==>
            NamedSection(hs, slug, size, s) && forall o :: NamedSection(hs, slug, size, o) && o != s ==> !(o.lo <= s.lo && s.hi <= o.hi)
  {
    hide Matching, NamedSection, Outer;
    var spans := Matching(hs, 0, slug, size);
    OuterFacts(spans, spans);
    forall o ensures o in spans <==> NamedSection(hs, slug, size, o) {
      NamedMeans(hs, slug, size, o);
    }
    if Outermost(s, spans) {
      forall o | o in spans && o != s ensures !(o.lo <= s.lo && s.hi <= o.hi) {
        var i :| 0 <= i < |spans| && spans[i] == o;
      }
    } else {
      var i :| 0 <= i < |spans| && spans[i] != s && Within(s, spans[i]);
      assert spans[i] in spans;
    }
  }
}
