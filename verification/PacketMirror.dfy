/** Mirror rules: where a rule's signature may stand, and the check that it stands nowhere else. */
module PacketMirror {
  import opened Text
  import opened PacketSections

  /** A prose line with what the patterns find in it: the lane id its table row defines, whether it holds
      the rule's anchor token, and whether one of the rule's allow entries applies. */
  datatype Line = Line(text: string, lane: Option<string>, token: bool, allowed: bool, blank: bool, tableRow: bool)

  datatype Rule = Rule(canonical: string, anchored: bool, spans: seq<Span>, signatures: seq<string>)

  /** Nothing from `a` up to `b` interrupts a paragraph. */
  predicate Unbroken(lines: seq<Line>, a: nat, b: nat) {
    b <= |lines| && forall k :: a <= k < b ==> !lines[k].blank && !lines[k].tableRow
  }

  /** `i` belongs to the paragraph of line `idx`; a table row is a paragraph of its own. */
  predicate SameParagraph(lines: seq<Line>, idx: nat, i: nat)
    requires idx < |lines|
  {
    && i < |lines|
    && if lines[idx].tableRow then i == idx
       else if i <= idx then Unbroken(lines, i, idx) else Unbroken(lines, idx + 1, i + 1)
  }

  function Range(lo: nat, hi: nat): (r: set<nat>)
    ensures forall i: nat :: i in r <==> lo <= i <= hi
    decreases hi + 1 - lo
  {
    if lo > hi then {} else {lo} + Range(lo + 1, hi)
  }

  method ParagraphIndices(lines: seq<Line>, idx: nat) returns (r: set<nat>)
    requires idx < |lines|
    ensures forall i: nat :: i in r <==> SameParagraph(lines, idx, i)
  {
    if lines[idx].tableRow {
      return {idx};
    }
    var lo := idx;
    while lo > 0 && !lines[lo - 1].blank && !lines[lo - 1].tableRow
      invariant lo <= idx && Unbroken(lines, lo, idx)
    {
      lo := lo - 1;
    }
    var hi := idx;
    while hi + 1 < |lines| && !lines[hi + 1].blank && !lines[hi + 1].tableRow
      invariant idx <= hi < |lines| && Unbroken(lines, idx + 1, hi + 1)
    {
      hi := hi + 1;
    }
    r := Range(lo, hi);
  }

  /** A line in the paragraph of an anchor token inside the rule's sections. */
  predicate AnchorLegal(rule: Rule, lines: seq<Line>, i: nat) {
    rule.anchored && exists t: nat :: t < |lines| && Covers(rule.spans, t) && lines[t].token && SameParagraph(lines, t, i)
  }

  /** The rule's own place: its lane's row, or its anchor's paragraph. */
  predicate Home(rule: Rule, lines: seq<Line>, i: nat)
    requires i < |lines|
  {
    lines[i].lane == Some(rule.canonical) || AnchorLegal(rule, lines, i)
  }

  /** A signature stands at its home, and elsewhere only on allowed lines. */
  predicate Confined(rule: Rule, lines: seq<Line>, sig: string) {
    && (exists i :: 0 <= i < |lines| && Contains(lines[i].text, sig) && Home(rule, lines, i))
    && forall i :: 0 <= i < |lines| && Contains(lines[i].text, sig) ==> Home(rule, lines, i) || lines[i].allowed
  }

  datatype Complaint = Restated(sig: string, line: nat) | Homeless(sig: string) | NoHeading | Ambiguous | NoToken

  predicate SpansFit(spans: seq<Span>, size: nat) { forall k :: 0 <= k < |spans| ==> spans[k].hi <= size }

  /** The lines an anchor makes legal, gathered span by span. */
  method LegalLines(rule: Rule, lines: seq<Line>) returns (legal: set<nat>)
    requires SpansFit(rule.spans, |lines|)
    ensures forall i: nat :: i in legal <==> AnchorLegal(rule, lines, i)
  {
    hide SameParagraph;
    legal := {};
    if !rule.anchored {
      return;
    }
    for k := 0 to |rule.spans|
      invariant forall i: nat :: i in legal <==>
                  exists t: nat :: t < |lines| && Covers(rule.spans[..k], t) && lines[t].token && SameParagraph(lines, t, i)
    {
      var span := rule.spans[k];
      ghost var before := legal;
      var i := span.lo;
      while i < span.hi
        invariant span.lo <= i
        invariant forall j: nat :: j in legal <==>
                    j in before || exists t: nat :: span.lo <= t < i && t < span.hi && lines[t].token && SameParagraph(lines, t, j)
      {
        if lines[i].token {
          var more := ParagraphIndices(lines, i);
          legal := legal + more;
        }
        i := i + 1;
      }
      SpansGrow(rule.spans, k);
    }
    assert rule.spans[..|rule.spans|] == rule.spans;
  }

  lemma SpansGrow(spans: seq<Span>, k: nat)
    requires k < |spans|
    ensures forall t: nat :: Covers(spans[..k + 1], t) <==> Covers(spans[..k], t) || spans[k].lo <= t < spans[k].hi
  {
    forall t: nat ensures Covers(spans[..k + 1], t) <==> Covers(spans[..k], t) || spans[k].lo <= t < spans[k].hi {
      if Covers(spans[..k], t) {
        var j :| 0 <= j < k && spans[..k][j].lo <= t < spans[..k][j].hi;
        assert spans[..k + 1][j] == spans[j];
      }
      if spans[k].lo <= t < spans[k].hi {
        assert spans[..k + 1][k] == spans[k];
      }
    }
  }

  /** Complaints about one signature, line by line. */
  method CheckSignature(rule: Rule, lines: seq<Line>, legal: set<nat>, sig: string) returns (errors: seq<Complaint>)
    requires forall i: nat :: i in legal <==> AnchorLegal(rule, lines, i)
    ensures errors == [] <==> Confined(rule, lines, sig)
  {
    hide AnchorLegal, Contains;
    errors := [];
    var atHome := false;
    for i := 0 to |lines|
      invariant atHome <==> exists k :: 0 <= k < i && Contains(lines[k].text, sig) && Home(rule, lines, k)
      invariant errors == [] <==> forall k :: 0 <= k < i && Contains(lines[k].text, sig) ==> Home(rule, lines, k) || lines[k].allowed
    {
      var line := lines[i];
      if !Contains(line.text, sig) {
        continue;
      }
      if line.lane == Some(rule.canonical) {
        atHome := true;
        continue;
      }
      if i in legal {
        atHome := true;
        continue;
      }
      if line.allowed {
        continue;
      }
      errors := errors + [Restated(sig, i)];
    }
    if !atHome {
      errors := errors + [Homeless(sig)];
    }
  }

  /** The confinement loop over one checked rule: clean exactly when every signature is confined. */
  method CheckConfinement(rule: Rule, lines: seq<Line>) returns (errors: seq<Complaint>)
    requires SpansFit(rule.spans, |lines|)
    ensures errors == [] <==> forall i :: 0 <= i < |rule.signatures| ==> Confined(rule, lines, rule.signatures[i])
  {
    hide AnchorLegal, Confined;
    var legal := LegalLines(rule, lines);
    errors := [];
    for n := 0 to |rule.signatures|
      invariant errors == [] <==> forall i :: 0 <= i < n ==> Confined(rule, lines, rule.signatures[i])
    {
      var more := CheckSignature(rule, lines, legal, rule.signatures[n]);
      errors := errors + more;
    }
  }

  // ---- Rules homed at a heading

  /** A line in the paragraph of an anchor token inside some section the slug names. */
  predicate AnchorHome(hs: seq<Heading>, slug: string, lines: seq<Line>, i: nat) {
    exists t: nat :: t < |lines| && InMatchingSection(hs, slug, |lines|, t) && lines[t].token && SameParagraph(lines, t, i)
  }

  /** A signature stands in the home its heading gives, and elsewhere only on allowed lines. */
  predicate ConfinedAt(hs: seq<Heading>, slug: string, canonical: string, lines: seq<Line>, sig: string) {
    && (exists i :: 0 <= i < |lines| && Contains(lines[i].text, sig)
                    && (lines[i].lane == Some(canonical) || AnchorHome(hs, slug, lines, i)))
    && forall i :: 0 <= i < |lines| && Contains(lines[i].text, sig) ==>
         lines[i].lane == Some(canonical) || AnchorHome(hs, slug, lines, i) || lines[i].allowed
  }

  lemma HomeIsAtHeading(hs: seq<Heading>, slug: string, rule: Rule, lines: seq<Line>, i: nat)
    requires InOrder(hs, |lines|) && rule.anchored && rule.spans == SlugSections(hs, slug, |lines|)
    ensures AnchorLegal(rule, lines, i) <==> AnchorHome(hs, slug, lines, i)
  {
    hide SlugSections, Covers, InMatchingSection, SameParagraph;
    forall t: nat ensures Covers(rule.spans, t) <==> InMatchingSection(hs, slug, |lines|, t) {
      SlugSectionsCover(hs, slug, |lines|, t);
    }
  }

  lemma ConfinedIsAtHeading(hs: seq<Heading>, slug: string, rule: Rule, lines: seq<Line>, sig: string)
    requires InOrder(hs, |lines|) && rule.anchored && rule.spans == SlugSections(hs, slug, |lines|)
    ensures Confined(rule, lines, sig) <==> ConfinedAt(hs, slug, rule.canonical, lines, sig)
  {
    hide SlugSections, AnchorLegal, AnchorHome, Contains;
    forall i: nat ensures AnchorLegal(rule, lines, i) <==> AnchorHome(hs, slug, lines, i) {
      HomeIsAtHeading(hs, slug, rule, lines, i);
    }
  }

  lemma SlugSpansFit(hs: seq<Heading>, slug: string, size: nat)
    requires InOrder(hs, size)
    ensures SpansFit(SlugSections(hs, slug, size), size)
  {
    var spans := SlugSections(hs, slug, size);
    hide SlugSections;
    forall k | 0 <= k < |spans| ensures spans[k].hi <= size {
      assert spans[k] in spans;
      SlugSectionsFit(hs, slug, size, spans[k]);
    }
  }

  /** A rule whose home is an anchor token under a heading: clean exactly when the slug names one home, the
      token stands in it, and every signature is confined to the paragraphs of the token in the sections of
      the matching headings. */
  method CheckAnchorRule(hs: seq<Heading>, slug: string, canonical: string, signatures: seq<string>, lines: seq<Line>)
    returns (errors: seq<Complaint>)
    requires InOrder(hs, |lines|)
    ensures errors == [] <==>
              && |SlugSections(hs, slug, |lines|)| == 1
              && (exists t: nat :: t < |lines| && InMatchingSection(hs, slug, |lines|, t) && lines[t].token)
              && forall i :: 0 <= i < |signatures| ==> ConfinedAt(hs, slug, canonical, lines, signatures[i])
  {
    hide SlugSections, Confined, ConfinedAt, InMatchingSection, InOrder;
    var spans := FindSlugSections(hs, slug, |lines|);
    if spans == [] {
      return [NoHeading];
    }
    if |spans| > 1 {
      return [Ambiguous];
    }
    SlugSpansFit(hs, slug, |lines|);
    var found := TokenInSpans(spans, lines);
    forall t: nat ensures Covers(spans, t) <==> InMatchingSection(hs, slug, |lines|, t) {
      SlugSectionsCover(hs, slug, |lines|, t);
    }
    if !found {
      return [NoToken];
    }
    var rule := Rule(canonical, true, spans, signatures);
    forall i | 0 <= i < |signatures|
      ensures Confined(rule, lines, signatures[i]) <==> ConfinedAt(hs, slug, canonical, lines, signatures[i])
    {
      ConfinedIsAtHeading(hs, slug, rule, lines, signatures[i]);
    }
    errors := CheckConfinement(rule, lines);
  }

  method TokenInSpans(spans: seq<Span>, lines: seq<Line>) returns (found: bool)
    requires SpansFit(spans, |lines|)
    ensures found <==> exists t: nat :: t < |lines| && Covers(spans, t) && lines[t].token
  {
    found := exists k :: 0 <= k < |spans| && exists i :: spans[k].lo <= i < spans[k].hi && lines[i].token;
  }
}
