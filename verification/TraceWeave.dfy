/** What substituting in code leaves of a text: every piece between matches as it was, every applied match
    by what it expands to. */
module TraceWeave {
  import opened Text
  import opened TraceMask
  import opened TraceErasure

  /** Pieces with a filling between any two. */
  function Woven(pieces: seq<string>, fillings: seq<string>): string
    requires |pieces| == |fillings| + 1
  {
    if fillings == [] then pieces[0] else pieces[0] + fillings[0] + Woven(pieces[1..], fillings[1..])
  }

  /** What the matches cover of the text. */
  function Matched(text: string, ms: seq<Match>): seq<string>
    requires forall i :: 0 <= i < |ms| ==> ms[i].start <= ms[i].end <= |text|
  {
    seq(|ms|, i requires 0 <= i < |ms| => text[ms[i].start..ms[i].end])
  }

  function Expansions(ms: seq<Match>): seq<string> {
    seq(|ms|, i requires 0 <= i < |ms| => ms[i].expansion)
  }

  lemma {:induction false} FoundFits(ms: seq<Match>, from: nat, size: nat)
    requires Found(ms, from, size)
    ensures forall i :: 0 <= i < |ms| ==> from <= ms[i].start <= ms[i].end <= size
    decreases ms
  {
    if ms != [] {
      FoundFits(ms[1..], ms[0].end, size);
      assert forall i :: 1 <= i < |ms| ==> ms[i] == ms[1..][i - 1];
    }
  }

  lemma {:induction false} ExpandedIsWoven(text: string, from: nat, ms: seq<Match>) returns (pieces: seq<string>)
    requires Found(ms, from, |text|)
    ensures |pieces| == |ms| + 1 && (forall i :: 0 <= i < |ms| ==> ms[i].start <= ms[i].end <= |text|)
    ensures text[from..] == Woven(pieces, Matched(text, ms))
    ensures Expanded(text, from, ms) == Woven(pieces, Expansions(ms))
    decreases ms
  {
    FoundFits(ms, from, |text|);
    if ms == [] {
      pieces := [text[from..]];
    } else {
      var m := ms[0];
      var rest := ExpandedIsWoven(text, m.end, ms[1..]);
      pieces := [text[from..m.start]] + rest;
      assert pieces[1..] == rest;
      WovenCons(pieces, Matched(text, ms), Matched(text, ms[1..]));
      WovenCons(pieces, Expansions(ms), Expansions(ms[1..]));
      assert text[from..] == text[from..m.start] + text[m.start..m.end] + text[m.end..];
    }
  }

  lemma WovenCons(pieces: seq<string>, fillings: seq<string>, rest: seq<string>)
    requires |pieces| == |fillings| + 1 && fillings != [] && rest == fillings[1..]
    ensures Woven(pieces, fillings) == pieces[0] + fillings[0] + Woven(pieces[1..], rest)
  {
  }

  lemma {:induction false} KeptAreInCode(ms: seq<Match>, masked: string, m: Match)
    ensures m in Kept(ms, masked) <==> m in ms && InCode(m, masked)
    decreases ms
  {
    hide InCode;
    if ms != [] {
      KeptAreInCode(ms[1..], masked, m);
      assert m in ms <==> m == ms[0] || m in ms[1..];
    }
  }

  /** The text is pieces with the applied matches between them; the result is the same pieces with their
      expansions between them. Applied are exactly the matches whose anchor holds no masked character. */
  lemma SubstitutionWeaves(text: string, ms: seq<Match>, letters: Letters) returns (pieces: seq<string>)
    requires Found(ms, 0, |text|)
    ensures var kept := Kept(ms, Masked(text, letters));
            && Found(kept, 0, |text|) && |pieces| == |kept| + 1
            && (forall m :: m in kept <==> m in ms && InCode(m, Masked(text, letters)))
            && (forall i :: 0 <= i < |kept| ==> kept[i].start <= kept[i].end <= |text|)
            && text == Woven(pieces, Matched(text, kept))
            && Expanded(text, 0, kept) == Woven(pieces, Expansions(kept))
  {
    hide Masked, InCode, Found, Kept, Woven, Matched, Expansions, Expanded;
    var masked := Masked(text, letters);
    KeptIsFound(ms, 0, |text|, masked);
    forall m ensures m in Kept(ms, masked) <==> m in ms && InCode(m, masked) {
      KeptAreInCode(ms, masked, m);
    }
    pieces := ExpandedIsWoven(text, 0, Kept(ms, masked));
    assert text[0..] == text;
  }
}
