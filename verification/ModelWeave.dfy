/** A section whose bodies are cut out, seen as characters and markers, and what the replacements and
    substitutions do to it. */
module ModelWeave {
  import opened Text
  import opened ModelMarkers
  import opened ModelCodes

  /** The marker left for a cut once the new sides of `folded` have been migrated. */
  function TokOf(c: Cut, folded: set<string>): Tok {
    if c.isNew && c.id in folded then Fold(c.id) else Code(PathOf(c))
  }

  function Weave(s: string, from: nat, cuts: seq<Cut>, folded: set<string>): seq<Tok>
    requires CutsIn(s, from, cuts)
    decreases cuts
  {
    if cuts == [] then Chars(s[from..])
    else Chars(s[from..cuts[0].lo]) + ([TokOf(cuts[0], folded)] + Weave(s, cuts[0].hi, cuts[1..], folded))
  }

  predicate NamedWell(cuts: seq<Cut>) {
    forall i :: 0 <= i < |cuts| ==> MarkName(cuts[i].id)
  }

  /** `code/<id>` and a short ending stay names. */
  lemma PathIsName(c: Cut)
    requires MarkName(c.id)
    ensures MarkName(PathOf(c))
  {
    NewPathIsName(c.id);
    var p := OldPath(c.id);
    assert forall i :: 0 <= i < |p| ==>
      p[i] == if i < 5 then "code/"[i] else if i < 5 + |c.id| then c.id[i - 5] else ".old.txt"[i - 5 - |c.id|];
    forall i: nat | i < |p| ensures !OpensAt(p, i) {
      if 5 <= i < 5 + |c.id| {
        assert !OpensAt(c.id, i - 5);
      }
    }
  }

  lemma PartHasNoOpening(s: string, a: nat, b: nat)
    requires NoOpening(s) && a <= b <= |s|
    ensures NoOpening(s[a..b])
  {
    forall i: nat | i < b - a ensures !OpensAt(s[a..b], i) {
      assert !OpensAt(s, a + i);
    }
  }

  lemma TokIsTidy(c: Cut, folded: set<string>, rest: seq<Tok>)
    requires MarkName(c.id) && Tidy(rest)
    ensures Tidy([TokOf(c, folded)] + rest)
    ensures Flat([TokOf(c, folded)] + rest) == Show(TokOf(c, folded)) + Flat(rest)
  {
    PathIsName(c);
    assert ([TokOf(c, folded)] + rest)[1..] == rest;
  }

  /** Cutting a text without openings gives a tidy list. */
  lemma {:induction false} WeaveIsTidy(s: string, from: nat, cuts: seq<Cut>, folded: set<string>)
    requires CutsIn(s, from, cuts) && NoOpening(s) && NamedWell(cuts)
    ensures Tidy(Weave(s, from, cuts, folded))
    decreases cuts
  {
    hide Tidy, Flat, Show, TokOf, MarkName, NoOpening;
    if cuts == [] {
      PartHasNoOpening(s, from, |s|);
      assert s[from..|s|] == s[from..];
      assert Tidy([]) && Flat([]) == "" by { Nothing(); }
      TidyChars(s[from..], []);
      assert Chars(s[from..]) + [] == Chars(s[from..]);
    } else {
      var c := cuts[0];
      var rest := Weave(s, c.hi, cuts[1..], folded);
      WeaveIsTidy(s, c.hi, cuts[1..], folded);
      TokIsTidy(c, folded, rest);
      PartHasNoOpening(s, from, c.lo);
      assert s[from..c.lo][c.lo - from - 1] == s[c.lo - 1] == '>';
      TidyChars(s[from..c.lo], [TokOf(c, folded)] + rest);
    }
  }

  lemma Nothing()
    ensures Tidy([]) && Flat([]) == ""
  {
  }

  lemma FlatWeave(s: string, from: nat, cuts: seq<Cut>, folded: set<string>)
    requires CutsIn(s, from, cuts)
    ensures Flat(Weave(s, from, cuts, folded)) ==
            if cuts == [] then s[from..]
            else s[from..cuts[0].lo] + (Show(TokOf(cuts[0], folded)) + Flat(Weave(s, cuts[0].hi, cuts[1..], folded)))
  {
    hide Show, TokOf;
    if cuts == [] {
      FlatChars(s[from..]);
    } else {
      var rest := [TokOf(cuts[0], folded)] + Weave(s, cuts[0].hi, cuts[1..], folded);
      FlatConcat(Chars(s[from..cuts[0].lo]), rest);
      FlatChars(s[from..cuts[0].lo]);
      assert rest[1..] == Weave(s, cuts[0].hi, cuts[1..], folded);
    }
  }

  /** Before any migration the list shows the spliced text. */
  lemma {:induction false} WeaveShows(s: string, from: nat, cuts: seq<Cut>)
    requires CutsIn(s, from, cuts)
    ensures Flat(Weave(s, from, cuts, {})) == Spliced(s, from, cuts)
    decreases cuts
  {
    hide Flat, CodeMark, PathOf;
    FlatWeave(s, from, cuts, {});
    if cuts != [] {
      WeaveShows(s, cuts[0].hi, cuts[1..]);
    }
  }

  lemma WeaveEarlier(s: string, a: nat, b: nat, cuts: seq<Cut>, folded: set<string>)
    requires a <= b && CutsIn(s, b, cuts)
    ensures CutsIn(s, a, cuts)
    ensures Flat(Weave(s, a, cuts, folded)) == s[a..b] + Flat(Weave(s, b, cuts, folded))
  {
    CutsEarlier(s, a, b, cuts);
    FlatWeave(s, a, cuts, folded);
    FlatWeave(s, b, cuts, folded);
    hide Flat, Show, TokOf, Weave;
    if cuts != [] {
      StretchesJoin(s, a, b, cuts[0].lo, Show(TokOf(cuts[0], folded)) + Flat(Weave(s, cuts[0].hi, cuts[1..], folded)));
    } else {
      assert s[a..b] + s[b..] == s[a..];
    }
  }

  lemma StretchesJoin(s: string, a: nat, b: nat, c: nat, rest: string)
    requires a <= b <= c <= |s|
    ensures s[a..b] + (s[b..c] + rest) == s[a..c] + rest
  {
    assert s[a..b] + s[b..c] == s[a..c];
  }

  // ---- Migration

  lemma NewPathDecides(c: Cut, id: string)
    ensures PathOf(c) == NewPath(id) <==> c.isNew && c.id == id
  {
    var p, q := PathOf(c), NewPath(id);
    assert p[5..|p| - 8] == c.id && q[5..|q| - 8] == id;
    assert p[|p| - 7] == (if c.isNew then 'n' else 'o') && q[|q| - 7] == 'n';
  }

  lemma {:induction false} RefoldConcat(a: seq<Tok>, b: seq<Tok>, id: string)
    ensures Refold(a + b, id) == Refold(a, id) + Refold(b, id)
    decreases a
  {
    if a == [] {
      assert a + b == b;
    } else {
      assert (a + b)[1..] == a[1..] + b;
      RefoldConcat(a[1..], b, id);
    }
  }

  lemma {:induction false} RefoldChars(s: string, id: string)
    ensures Refold(Chars(s), id) == Chars(s)
  {
    if s != "" {
      RefoldChars(s[1..], id);
      assert Chars(s)[1..] == Chars(s[1..]);
    }
  }

  /** Migrating one more block changes exactly its markers. */
  lemma {:induction false} RefoldWeave(s: string, from: nat, cuts: seq<Cut>, folded: set<string>, id: string)
    requires CutsIn(s, from, cuts)
    ensures Refold(Weave(s, from, cuts, folded), id) == Weave(s, from, cuts, folded + {id})
    decreases cuts
  {
    hide NewPath, PathOf;
    if cuts == [] {
      RefoldChars(s[from..], id);
    } else {
      var c := cuts[0];
      var rest := Weave(s, c.hi, cuts[1..], folded);
      RefoldWeave(s, c.hi, cuts[1..], folded, id);
      RefoldChars(s[from..c.lo], id);
      RefoldConcat(Chars(s[from..c.lo]), [TokOf(c, folded)] + rest, id);
      NewPathDecides(c, id);
      assert ([TokOf(c, folded)] + rest)[1..] == rest;
    }
  }

  /** How many cuts are the new side of a block. */
  function NewSides(cuts: seq<Cut>, id: string): nat {
    if cuts == [] then 0 else (if cuts[0].isNew && cuts[0].id == id then 1 else 0) + NewSides(cuts[1..], id)
  }

  lemma {:induction false} CountTokConcat(a: seq<Tok>, b: seq<Tok>, t: Tok)
    ensures CountTok(a + b, t) == CountTok(a, t) + CountTok(b, t)
    decreases a
  {
    if a == [] {
      assert a + b == b;
    } else {
      assert (a + b)[1..] == a[1..] + b;
      CountTokConcat(a[1..], b, t);
    }
  }

  lemma {:induction false} CountTokChars(s: string, t: Tok)
    requires !t.Ch?
    ensures CountTok(Chars(s), t) == 0
  {
    if s != "" {
      CountTokChars(s[1..], t);
      assert Chars(s)[1..] == Chars(s[1..]);
    }
  }

  lemma {:induction false} CountWeave(s: string, from: nat, cuts: seq<Cut>, folded: set<string>, id: string)
    requires CutsIn(s, from, cuts) && id !in folded
    ensures CountTok(Weave(s, from, cuts, folded), Code(NewPath(id))) == NewSides(cuts, id)
    decreases cuts
  {
    hide NewPath, PathOf;
    var t := Code(NewPath(id));
    if cuts == [] {
      CountTokChars(s[from..], t);
    } else {
      var c := cuts[0];
      var rest := Weave(s, c.hi, cuts[1..], folded);
      CountWeave(s, c.hi, cuts[1..], folded, id);
      CountTokChars(s[from..c.lo], t);
      CountTokConcat(Chars(s[from..c.lo]), [TokOf(c, folded)] + rest, t);
      NewPathDecides(c, id);
      assert ([TokOf(c, folded)] + rest)[1..] == rest;
    }
  }

  // ---- Putting bodies back

  lemma {:induction false} CharsStayPlain(u: string, rest: seq<Tok>)
    requires Tidy(Chars(u) + rest)
    ensures Tidy(rest)
    ensures forall i: nat :: i < |u| ==> !OpensAt(u + Flat(rest), i)
    decreases u
  {
    hide Tidy, Flat;
    if u == "" {
      assert Chars(u) + rest == rest;
    } else {
      var tail := Chars(u[1..]) + rest;
      assert Chars(u) + rest == [Ch(u[0])] + tail;
      TidyHead(Ch(u[0]), tail);
      CharsStayPlain(u[1..], rest);
      FlatConcat(Chars(u), rest);
      FlatChars(u);
      forall i: nat | i < |u| ensures !OpensAt(u + Flat(rest), i) {
        if i > 0 {
          assert (u + Flat(rest))[1..] == u[1..] + Flat(rest);
          assert !OpensAt(u[1..] + Flat(rest), i - 1);
        }
      }
    }
  }

  /** The cuts that are not migrated. */
  function Unfolded(cuts: seq<Cut>, folded: set<string>): seq<Cut> {
    if cuts == [] then []
    else (if cuts[0].isNew && cuts[0].id in folded then [] else [cuts[0]]) + Unfolded(cuts[1..], folded)
  }

  lemma {:induction false} UnfoldedLie(s: string, from: nat, cuts: seq<Cut>, folded: set<string>)
    requires CutsIn(s, from, cuts)
    ensures CutsIn(s, from, Unfolded(cuts, folded))
    decreases cuts
  {
    if cuts != [] {
      UnfoldedLie(s, cuts[0].hi, cuts[1..], folded);
      var rest := Unfolded(cuts[1..], folded);
      if cuts[0].isNew && cuts[0].id in folded {
        assert [] + rest == rest;
        CutsEarlier(s, from, cuts[0].hi, rest);
      } else {
        assert ([cuts[0]] + rest)[1..] == rest;
      }
    }
  }

  ghost predicate FoldsTo(s: string, cuts: seq<Cut>, folded: set<string>, bodies: map<string, string>) {
    forall i :: 0 <= i < |cuts| && cuts[i].isNew && cuts[i].id in folded ==>
      cuts[i].lo <= cuts[i].hi <= |s| && cuts[i].id in bodies && bodies[cuts[i].id] == s[cuts[i].lo..cuts[i].hi]
  }

  ghost predicate FilesHold(s: string, cuts: seq<Cut>, files: map<string, string>) {
    forall i :: 0 <= i < |cuts| ==>
      cuts[i].lo <= cuts[i].hi <= |s| && PathOf(cuts[i]) in files && files[PathOf(cuts[i])] == s[cuts[i].lo..cuts[i].hi]
  }

  lemma SubstituteStretch(u: string, rest: seq<Tok>, open: string, texts: map<string, string>)
    requires Tidy(Chars(u) + rest) && open in {CODE_OPEN, FOLD_OPEN}
    ensures Substitute(Flat(Chars(u) + rest), open, texts) ==
            if Substitute(Flat(rest), open, texts).Some? then Some(u + Substitute(Flat(rest), open, texts).value) else None
  {
    FlatConcat(Chars(u), rest);
    FlatChars(u);
    CharsStayPlain(u, rest);
    assert OpensAt(open, 0);
    SubstituteCopies(u, Flat(rest), open, texts);
  }

  /** Folding puts the migrated bodies back and leaves the other markers. */
  lemma {:induction false} SubstituteFolds(s: string, from: nat, cuts: seq<Cut>, folded: set<string>, bodies: map<string, string>)
    requires CutsIn(s, from, cuts) && NoOpening(s) && NamedWell(cuts) && FoldsTo(s, cuts, folded, bodies)
    ensures CutsIn(s, from, Unfolded(cuts, folded))
    ensures Substitute(Flat(Weave(s, from, cuts, folded)), FOLD_OPEN, bodies) ==
            Some(Flat(Weave(s, from, Unfolded(cuts, folded), {})))
    decreases cuts
  {
    UnfoldedLie(s, from, cuts, folded);
    WeaveIsTidy(s, from, cuts, folded);
    if cuts == [] {
      hide *;
      NothingFolded(s, from, folded, bodies);
    } else {
      var c, more := cuts[0], cuts[1..];
      UnfoldedLie(s, c.hi, more, folded);
      FoldsToRest(s, cuts, folded, bodies);
      var t, rest := TokOf(c, folded), Weave(s, c.hi, more, folded);
      assert Weave(s, from, cuts, folded) == Chars(s[from..c.lo]) + ([t] + rest);
      assert NamedWell(more);
      hide *;
      SubstituteFolds(s, c.hi, more, folded, bodies);
      SubstituteStretch(s[from..c.lo], [t] + rest, FOLD_OPEN, bodies);
      CharsStayPlain(s[from..c.lo], [t] + rest);
      SubstituteStep(t, rest, FOLD_OPEN, bodies);
      OneFolded(s, from, cuts, folded, bodies);
    }
  }

  lemma NothingFolded(s: string, from: nat, folded: set<string>, bodies: map<string, string>)
    requires CutsIn(s, from, []) && Tidy(Weave(s, from, [], folded))
    ensures Unfolded([], folded) == []
    ensures Substitute(Flat(Weave(s, from, [], folded)), FOLD_OPEN, bodies) == Some(Flat(Weave(s, from, [], {})))
  {
    hide Tidy, Flat, Show, Substitute;
    assert Chars(s[from..]) + [] == Chars(s[from..]);
    SubstituteStretch(s[from..], [], FOLD_OPEN, bodies);
    SubstituteNothing(FOLD_OPEN, bodies);
    FlatWeave(s, from, [], {});
    assert s[from..] + "" == s[from..];
  }

  lemma FoldsToRest(s: string, cuts: seq<Cut>, folded: set<string>, bodies: map<string, string>)
    requires cuts != [] && FoldsTo(s, cuts, folded, bodies)
    ensures FoldsTo(s, cuts[1..], folded, bodies)
  {
  }

  /** One cut seen after folding: put back when it was migrated, left as its marker otherwise. */
  lemma OneFolded(s: string, from: nat, cuts: seq<Cut>, folded: set<string>, bodies: map<string, string>)
    requires cuts != [] && CutsIn(s, from, cuts) && FoldsTo(s, cuts, folded, bodies)
    requires CutsIn(s, cuts[0].hi, Unfolded(cuts[1..], folded)) && CutsIn(s, from, Unfolded(cuts, folded))
    ensures var c := cuts[0];
            var t, tail := TokOf(c, folded), Flat(Weave(s, c.hi, Unfolded(cuts[1..], folded), {}));
            && (t.Fold? ==> t.id in bodies)
            && Flat(Weave(s, from, Unfolded(cuts, folded), {})) ==
               s[from..c.lo] + ((if t.Fold? then bodies[t.id] else Show(t)) + tail)
  {
    hide Flat, Show, PathOf;
    var c, left := cuts[0], Unfolded(cuts[1..], folded);
    var t := TokOf(c, folded);
    if t.Fold? {
      assert [] + left == left;
      WeaveEarlier(s, from, c.hi, left, {});
      StretchesJoin(s, from, c.lo, c.hi, Flat(Weave(s, c.hi, left, {})));
    } else {
      assert ([c] + left)[1..] == left;
      FlatWeave(s, from, [c] + left, {});
    }
  }

  lemma SubstituteNothing(open: string, texts: map<string, string>)
    requires open != ""
    ensures Substitute(Flat([]), open, texts) == Some("")
  {
  }

  /** Pasting the files back gives the text that was cut. */
  lemma {:induction false} SubstituteCodes(s: string, from: nat, cuts: seq<Cut>, files: map<string, string>)
    requires CutsIn(s, from, cuts) && NoOpening(s) && NamedWell(cuts) && FilesHold(s, cuts, files)
    ensures Substitute(Flat(Weave(s, from, cuts, {})), CODE_OPEN, files) == Some(s[from..])
    decreases cuts
  {
    hide Tidy, Flat, Show, Substitute, MarkName, NoOpening, PathOf;
    WeaveIsTidy(s, from, cuts, {});
    if cuts == [] {
      assert Chars(s[from..]) + [] == Chars(s[from..]);
      SubstituteStretch(s[from..], [], CODE_OPEN, files);
      SubstituteNothing(CODE_OPEN, files);
      assert s[from..] + "" == s[from..];
    } else {
      var c, more := cuts[0], cuts[1..];
      var t, rest := TokOf(c, {}), Weave(s, c.hi, more, {});
      SubstituteCodes(s, c.hi, more, files);
      SubstituteStretch(s[from..c.lo], [t] + rest, CODE_OPEN, files);
      CharsStayPlain(s[from..c.lo], [t] + rest);
      SubstituteStep(t, rest, CODE_OPEN, files);
      assert s[from..c.lo] + (s[c.lo..c.hi] + s[c.hi..]) == s[from..];
    }
  }
}
