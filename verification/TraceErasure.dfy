/** Substitution in code only: a match is applied when its anchor holds no masked character. */
module TraceErasure {
  import opened Text
  import opened TraceMask
  import opened TraceReference

  /** A match of an erasure pattern, its anchor when the anchor group took part, and the text it expands to. */
  datatype Match = Match(start: nat, end: nat, anchor: Option<(nat, nat)>, expansion: string)

  /** Matches as a regular expression finds them: in order, apart, anchors inside. */
  predicate Found(ms: seq<Match>, from: nat, size: nat)
    decreases ms
  {
    from <= size &&
    (ms == [] ||
     (&& from <= ms[0].start <= ms[0].end <= size
      && (ms[0].anchor.Some? ==> ms[0].start <= ms[0].anchor.value.0 <= ms[0].anchor.value.1 <= ms[0].end)
      && Found(ms[1..], ms[0].end, size)))
  }

  /** The anchor took part and every character of it is code. */
  predicate InCode(m: Match, masked: string) {
    m.anchor.Some? && m.anchor.value.0 <= m.anchor.value.1 <= |masked|
    && FILLER !in masked[m.anchor.value.0..m.anchor.value.1]
  }

  function Kept(ms: seq<Match>, masked: string): seq<Match> {
    if ms == [] then []
    else (if InCode(ms[0], masked) then [ms[0]] else []) + Kept(ms[1..], masked)
  }

  /** The text from `from` on with every given match expanded. */
  function Expanded(text: string, from: nat, ms: seq<Match>): string
    requires Found(ms, from, |text|)
    decreases ms
  {
    if ms == [] then text[from..]
    else text[from..ms[0].start] + ms[0].expansion + Expanded(text, ms[0].end, ms[1..])
  }

  lemma FoundEarlier(ms: seq<Match>, a: nat, b: nat, size: nat)
    requires a <= b && Found(ms, b, size)
    ensures Found(ms, a, size)
  {
  }

  lemma {:induction false} KeptIsFound(ms: seq<Match>, from: nat, size: nat, masked: string)
    requires Found(ms, from, size)
    ensures Found(Kept(ms, masked), from, size)
    ensures forall m :: m in Kept(ms, masked) ==> m in ms && InCode(m, masked)
    decreases ms
  {
    hide InCode;
    if ms != [] {
      KeptIsFound(ms[1..], ms[0].end, size, masked);
      var rest := Kept(ms[1..], masked);
      if InCode(ms[0], masked) {
        assert ([ms[0]] + rest)[1..] == rest;
      } else {
        assert [] + rest == rest;
        FoundEarlier(rest, from, ms[0].end, size);
      }
    }
  }

  /** The program's `sub_in_code`, given the matches of its pattern. */
  method SubInCode(text: string, ms: seq<Match>, letters: Letters) returns (r: string)
    requires Found(ms, 0, |text|)
    ensures Found(Kept(ms, Masked(text, letters)), 0, |text|)
    ensures r == Expanded(text, 0, Kept(ms, Masked(text, letters)))
  {
    hide Masked, InCode;
    var masked := MaskNonCode(text, letters);
    KeptIsFound(ms, 0, |text|, masked);
    var pieces, last: nat := "", 0;
    ghost var at: nat := 0;
    assert ms[0..] == ms;
    assert "" + Expanded(text, 0, Kept(ms, masked)) == Expanded(text, 0, Kept(ms, masked));
    for i := 0 to |ms|
      invariant last <= at && Found(ms[i..], at, |text|)
      invariant Found(Kept(ms[i..], masked), last, |text|)
      invariant pieces + Expanded(text, last, Kept(ms[i..], masked)) == Expanded(text, 0, Kept(ms, masked))
    {
      var m := ms[i];
      assert ms[i..][0] == m && ms[i..][1..] == ms[i + 1..];
      at := m.end;
      KeptIsFound(ms[i + 1..], at, |text|, masked);
      if !InCode(m, masked) {
        assert Kept(ms[i..], masked) == Kept(ms[i + 1..], masked);
        continue;
      }
      ghost var rest := Kept(ms[i + 1..], masked);
      assert Kept(ms[i..], masked) == [m] + rest && ([m] + rest)[1..] == rest;
      assert pieces + (text[last..m.start] + m.expansion + Expanded(text, m.end, rest))
          == pieces + text[last..m.start] + m.expansion + Expanded(text, m.end, rest);
      pieces := pieces + text[last..m.start];
      pieces := pieces + m.expansion;
      last := m.end;
    }
    assert ms[|ms|..] == [];
    r := pieces + text[last..];
  }

  /** An applied match has its anchor in code: no character of it is one the reference scanner calls a
      comment or a string. */
  lemma AppliedInCode(text: string, ms: seq<Match>, letters: Letters, m: Match, i: nat)
    requires Found(ms, 0, |text|) && m in Kept(ms, Masked(text, letters))
    requires m.anchor.Some? && m.anchor.value.0 <= i < m.anchor.value.1
    ensures i < |text| && i !in Positions(text)
  {
    hide *;
    KeptInCode(ms, |text|, Masked(text, letters), m);
    UnmaskedIsCode(text, letters, m, i);
  }

  lemma KeptInCode(ms: seq<Match>, size: nat, masked: string, m: Match)
    requires Found(ms, 0, size) && m in Kept(ms, masked)
    ensures InCode(m, masked)
  {
    KeptIsFound(ms, 0, size, masked);
  }

  lemma UnmaskedIsCode(text: string, letters: Letters, m: Match, i: nat)
    requires InCode(m, Masked(text, letters)) && m.anchor.value.0 <= i < m.anchor.value.1
    ensures i < |text| && i !in Positions(text)
  {
    hide Masked, Positions;
    InCodeIsUnmasked(m, Masked(text, letters), i);
    if i in Positions(text) {
      ReferenceIsMasked(text, letters, i);
    }
  }

  lemma InCodeIsUnmasked(m: Match, masked: string, i: nat)
    requires InCode(m, masked) && m.anchor.value.0 <= i < m.anchor.value.1
    ensures i < |masked| && masked[i] != FILLER
  {
    assert masked[m.anchor.value.0..m.anchor.value.1][i - m.anchor.value.0] == masked[i];
  }

  /** Matches whose anchors all touch a comment or a string change nothing. */
  lemma {:induction false} NonCodeStays(text: string, from: nat, ms: seq<Match>, letters: Letters)
    requires Found(ms, from, |text|)
    requires forall m :: m in ms && m.anchor.Some? ==>
               exists i: nat :: m.anchor.value.0 <= i < m.anchor.value.1 && i in Positions(text)
    ensures Kept(ms, Masked(text, letters)) == []
    decreases ms
  {
    hide Masked, Scan, Positions;
    var masked := Masked(text, letters);
    if ms != [] {
      NonCodeStays(text, ms[0].end, ms[1..], letters);
      var m := ms[0];
      if InCode(m, masked) {
        var i: nat :| m.anchor.value.0 <= i < m.anchor.value.1 && i in Positions(text);
        ReferenceIsMasked(text, letters, i);
        InCodeIsUnmasked(m, masked, i);
      }
    }
  }
}
