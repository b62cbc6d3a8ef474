/** Texts with include markers: substituting them, replacing one kind by another, and why a text
    without stray markers behaves like a list of characters and markers. */
module ModelMarkers {
  import opened Text

  const CODE_OPEN := "[[@code "
  const FOLD_OPEN := "[[@fold "

  function CodeMark(path: string): (m: string)
    ensures m != ""
  {
    CODE_OPEN + path + "]]"
  }

  function FoldMark(id: string): string { FOLD_OPEN + id + "]]" }

  // ---- The substitutions of the build

  /** The run before the first closing bracket. */
  function UpTo(s: string, stop: char): (u: string)
    ensures u <= s && stop !in u
    ensures |u| < |s| ==> s[|u|] == stop
  {
    if s == "" || s[0] == stop then "" else [s[0]] + UpTo(s[1..], stop)
  }

  /** The name inside a marker that stands at the start of the text. */
  function MarkerAt(text: string, open: string): (name: Option<string>)
    ensures name.Some? ==> |open| + |name.value| + 2 <= |text|
  {
    if !(open <= text) then None
    else
      var name := UpTo(text[|open|..], ']');
      if name != "" && "]]" <= text[|open| + |name|..] then Some(name) else None
  }

  /** Every marker replaced by the text under its name, left to right; what is put in is not looked at
      again. None when a name has no text. */
  function Substitute(text: string, open: string, texts: map<string, string>): Option<string>
    requires open != ""
    decreases |text|
  {
    if text == "" then Some("")
    else
      match MarkerAt(text, open)
      case Some(name) =>
        if name !in texts then None
        else
          var rest :- Substitute(text[|open| + |name| + 2..], open, texts);
          Some(texts[name] + rest)
      case None =>
        var rest :- Substitute(text[1..], open, texts);
        Some([text[0]] + rest)
  }

  /** `text.replace(mark, other)`. */
  function ReplaceAll(text: string, mark: string, other: string): string
    requires mark != ""
    decreases |text|
  {
    if text == "" then ""
    else if mark <= text then other + ReplaceAll(text[|mark|..], mark, other)
    else [text[0]] + ReplaceAll(text[1..], mark, other)
  }

  /** How many times `replace` would replace. */
  function Count(text: string, mark: string): nat
    requires mark != ""
    decreases |text|
  {
    if text == "" then 0
    else if mark <= text then 1 + Count(text[|mark|..], mark)
    else Count(text[1..], mark)
  }

  // ---- Texts as characters and markers

  datatype Tok = Ch(c: char) | Code(path: string) | Fold(id: string)

  function Show(t: Tok): (s: string)
    ensures s != ""
  {
    match t
    case Ch(c) => [c]
    case Code(path) => CodeMark(path)
    case Fold(id) => FoldMark(id)
  }

  function Flat(ts: seq<Tok>): string {
    if ts == [] then "" else Show(ts[0]) + Flat(ts[1..])
  }

  function Chars(s: string): seq<Tok> {
    if s == "" then [] else [Ch(s[0])] + Chars(s[1..])
  }

  /** `[[@` stands here. */
  predicate OpensAt(s: string, i: nat) {
    i + 2 < |s| && s[i] == '[' && s[i + 1] == '[' && s[i + 2] == '@'
  }

  /** No marker opens anywhere in the text. */
  predicate NoOpening(s: string) {
    forall i: nat :: i < |s| ==> !OpensAt(s, i)
  }

  /** A name that a marker can carry. */
  predicate MarkName(s: string) {
    s != "" && ']' !in s && NoOpening(s) && forall i :: 0 <= i < |s| ==> !IsSpace(Py, s[i])
  }

  /** Markers open only where a marker token stands. */
  predicate Tidy(ts: seq<Tok>) {
    ts == [] ||
    (&& (match ts[0] case Ch(_) => !OpensAt(Flat(ts), 0) case Code(path) => MarkName(path) case Fold(id) => MarkName(id))
     && Tidy(ts[1..]))
  }

  lemma {:induction false} FlatConcat(a: seq<Tok>, b: seq<Tok>)
    ensures Flat(a + b) == Flat(a) + Flat(b)
    decreases a
  {
    if a == [] {
      assert a + b == b;
    } else {
      assert (a + b)[1..] == a[1..] + b;
      FlatConcat(a[1..], b);
    }
  }

  lemma {:induction false} FlatChars(s: string)
    ensures Flat(Chars(s)) == s
  {
    if s != "" {
      FlatChars(s[1..]);
    }
  }

  lemma TidyCons(c: char, ts: seq<Tok>)
    requires Tidy(ts) && !OpensAt([c] + Flat(ts), 0)
    ensures Tidy([Ch(c)] + ts) && Flat([Ch(c)] + ts) == [c] + Flat(ts)
  {
    assert ([Ch(c)] + ts)[1..] == ts;
  }

  /** Characters without an opening, put before a tidy list they cannot run into. */
  lemma {:induction false} TidyChars(s: string, rest: seq<Tok>)
    requires NoOpening(s) && Tidy(rest)
    requires s == "" || s[|s| - 1] != '[' || Flat(rest) == "" || Flat(rest)[0] !in {'[', '@'}
    ensures Tidy(Chars(s) + rest) && Flat(Chars(s) + rest) == s + Flat(rest)
    decreases s
  {
    hide Tidy, Flat, Show;
    if s == "" {
      assert Chars(s) + rest == rest;
      assert s + Flat(rest) == Flat(rest);
    } else {
      var tail := s[1..];
      TailHasNoOpening(s);
      TidyChars(tail, rest);
      hide NoOpening;
      assert [s[0]] + (tail + Flat(rest)) == s + Flat(rest);
      if OpensAt(s + Flat(rest), 0) {
        OpeningRunsIn(s, Flat(rest));
      }
      hide OpensAt;
      TidyCons(s[0], Chars(tail) + rest);
      assert Chars(s) + rest == [Ch(s[0])] + (Chars(tail) + rest);
    }
  }

  lemma TailHasNoOpening(s: string)
    requires s != "" && NoOpening(s)
    ensures NoOpening(s[1..])
  {
    forall i: nat | i < |s| - 1 ensures !OpensAt(s[1..], i) {
      assert !OpensAt(s, i + 1);
    }
  }

  lemma OpeningRunsIn(s: string, rest: string)
    requires s != "" && NoOpening(s) && OpensAt(s + rest, 0)
    ensures s[|s| - 1] == '[' && rest != "" && rest[0] in {'[', '@'}
  {
    var all := s + rest;
    assert !OpensAt(s, 0);
    assert |s| < 3;
    assert rest[0] == all[|s|];
  }

  // ---- Marker texts hold no second opening

  /** A marker opens at its first character only. */
  lemma MarkOpensOnce(open: string, name: string, rest: string, i: nat)
    requires open in {CODE_OPEN, FOLD_OPEN} && MarkName(name) && 1 <= i < |open| + |name| + 2
    ensures !OpensAt(open + name + "]]" + rest, i)
  {
    var all, n, m := open + name + "]]" + rest, |open|, |open| + |name|;
    assert all[m] == ']' && all[m + 1] == ']';
    if i < n {
      OpenHasOneBracketPair(open, i);
      assert all[i] == open[i];
      assert i + 1 < n ==> all[i + 1] == open[i + 1];
    } else if i + 2 < m {
      assert !OpensAt(name, i - n);
      assert all[i] == name[i - n] && all[i + 1] == name[i + 1 - n] && all[i + 2] == name[i + 2 - n];
    }
  }

  lemma OpenHasOneBracketPair(open: string, i: nat)
    requires open in {CODE_OPEN, FOLD_OPEN} && 1 <= i < |open|
    ensures i + 1 < |open| && open[i] == '[' ==> open[i + 1] != '['
    ensures open[|open| - 1] != '['
  {
  }

  // ---- Steps of the two scans

  /** A stretch in which no marker opens is copied. */
  lemma {:induction false} ReplaceCopies(u: string, rest: string, mark: string, other: string)
    requires mark != "" && OpensAt(mark, 0)
    requires forall i: nat :: i < |u| ==> !OpensAt(u + rest, i)
    ensures ReplaceAll(u + rest, mark, other) == u + ReplaceAll(rest, mark, other)
    ensures Count(u + rest, mark) == Count(rest, mark)
    decreases u
  {
    if u == "" {
      assert u + rest == rest;
    } else {
      var all, tail := u + rest, u[1..];
      assert all[1..] == tail + rest;
      forall i: nat | i < |tail| ensures !OpensAt(tail + rest, i) {
        assert !OpensAt(all, i + 1);
      }
      ReplaceCopies(tail, rest, mark, other);
      if mark <= all {
        assert all[0] == mark[0] && all[1] == mark[1] && all[2] == mark[2];
        assert OpensAt(all, 0);
      }
      assert [u[0]] + (tail + ReplaceAll(rest, mark, other)) == u + ReplaceAll(rest, mark, other);
    }
  }

  lemma {:induction false} SubstituteCopies(u: string, rest: string, open: string, texts: map<string, string>)
    requires OpensAt(open, 0)
    requires forall i: nat :: i < |u| ==> !OpensAt(u + rest, i)
    ensures Substitute(u + rest, open, texts) ==
            if Substitute(rest, open, texts).Some? then Some(u + Substitute(rest, open, texts).value) else None
    decreases u
  {
    if u == "" {
      assert u + rest == rest;
      var copied := Substitute(rest, open, texts);
      if copied.Some? {
        assert u + copied.value == copied.value;
      }
    } else {
      var all, tail := u + rest, u[1..];
      assert all[1..] == tail + rest;
      forall i: nat | i < |tail| ensures !OpensAt(tail + rest, i) {
        assert !OpensAt(all, i + 1);
      }
      SubstituteCopies(tail, rest, open, texts);
      if open <= all {
        assert all[0] == open[0] && all[1] == open[1] && all[2] == open[2];
        assert OpensAt(all, 0);
      }
      assert MarkerAt(all, open) == None;
      var copied := Substitute(rest, open, texts);
      if copied.Some? {
        assert [all[0]] + (tail + copied.value) == u + copied.value;
      }
    }
  }

  // ---- Tokens, one scan step each

  /** Marks of one kind are prefixes of each other's texts only when they are the same mark. */
  lemma MarkDecides(open: string, a: string, b: string, rest: string)
    requires ']' !in a && ']' !in b && open + a + "]]" <= open + b + "]]" + rest
    ensures a == b
  {
    var x, y, n := open + a + "]]", open + b + "]]" + rest, |open|;
    assert x[n + |a|] == ']' && y[n + |b|] == ']';
    assert forall k :: 0 <= k < |a| ==> x[n + k] == a[k];
    assert forall k :: 0 <= k < |b| ==> y[n + k] == b[k];
    assert |a| == |b|;
    assert a == x[n..n + |a|] == y[n..n + |a|] == b;
  }

  lemma MarkTailIsPlain(t: Tok, rest: string)
    requires (t.Code? && MarkName(t.path)) || (t.Fold? && MarkName(t.id))
    ensures forall i: nat :: i < |Show(t)| - 1 ==> !OpensAt(Show(t)[1..] + rest, i)
    ensures OpensAt(Show(t), 0)
  {
    var open := if t.Code? then CODE_OPEN else FOLD_OPEN;
    var name := if t.Code? then t.path else t.id;
    var all := open + name + "]]" + rest;
    assert all[1..] == Show(t)[1..] + rest;
    forall i: nat | i < |Show(t)| - 1 ensures !OpensAt(Show(t)[1..] + rest, i) {
      MarkOpensOnce(open, name, rest, i + 1);
    }
    assert Show(t)[0] == '[' && Show(t)[1] == '[' && Show(t)[2] == '@';
  }

  /** No marker of a kind stands where a token of another kind begins. */
  lemma OtherKind(t: Tok, tail: string, open: string)
    requires open in {CODE_OPEN, FOLD_OPEN} && (t.Ch? ==> !OpensAt(Show(t) + tail, 0))
    requires (t.Code? ==> open == FOLD_OPEN) && (t.Fold? ==> open == CODE_OPEN)
    ensures !(open <= Show(t) + tail)
  {
    var all := Show(t) + tail;
    assert OpensAt(open, 0) && open[3] == (if open == CODE_OPEN then 'c' else 'f');
    if open <= all {
      assert all[0] == open[0] && all[1] == open[1] && all[2] == open[2] && all[3] == open[3];
    }
  }

  lemma OtherMark(t: Tok, tail: string, path: string)
    requires MarkName(path) && t != Code(path)
    requires (t.Ch? ==> !OpensAt(Show(t) + tail, 0)) && (t.Code? ==> MarkName(t.path))
    ensures !(CodeMark(path) <= Show(t) + tail)
  {
    if CodeMark(path) <= Show(t) + tail {
      assert CODE_OPEN <= CodeMark(path);
      if t.Code? {
        MarkDecides(CODE_OPEN, path, t.path, tail);
      } else {
        OtherKind(t, tail, CODE_OPEN);
      }
    }
  }

  /** Any token but the mark itself is copied whole. */
  lemma ReplaceStep(t: Tok, rest: seq<Tok>, path: string, other: string)
    requires Tidy([t] + rest) && MarkName(path)
    ensures var mark, tail := CodeMark(path), Flat(rest);
            if t == Code(path)
            then ReplaceAll(Flat([t] + rest), mark, other) == other + ReplaceAll(tail, mark, other)
                 && Count(Flat([t] + rest), mark) == 1 + Count(tail, mark)
            else ReplaceAll(Flat([t] + rest), mark, other) == Show(t) + ReplaceAll(tail, mark, other)
                 && Count(Flat([t] + rest), mark) == Count(tail, mark)
  {
    hide Tidy;
    var mark, tail, all := CodeMark(path), Flat(rest), Flat([t] + rest);
    assert ([t] + rest)[1..] == rest;
    assert all == Show(t) + tail;
    TidyHead(t, rest);
    MarkTailIsPlain(Code(path), "");
    if t == Code(path) {
      assert all[|mark|..] == tail;
    } else {
      OtherMark(t, tail, path);
      if !t.Ch? {
        MarkTailIsPlain(t, tail);
      }
      ReplaceTail(t, tail, mark, other);
    }
  }

  lemma ReplaceTail(t: Tok, tail: string, mark: string, other: string)
    requires OpensAt(mark, 0) && !(mark <= Show(t) + tail)
    requires forall i: nat :: i < |Show(t)| - 1 ==> !OpensAt(Show(t)[1..] + tail, i)
    ensures ReplaceAll(Show(t) + tail, mark, other) == Show(t) + ReplaceAll(tail, mark, other)
    ensures Count(Show(t) + tail, mark) == Count(tail, mark)
  {
    hide Show;
    var all, u := Show(t) + tail, Show(t)[1..];
    assert all[1..] == u + tail;
    ReplaceCopies(u, tail, mark, other);
    assert [all[0]] + (u + ReplaceAll(tail, mark, other)) == Show(t) + ReplaceAll(tail, mark, other);
  }

  lemma TidyHead(t: Tok, rest: seq<Tok>)
    requires Tidy([t] + rest)
    ensures Tidy(rest)
    ensures t.Ch? ==> !OpensAt(Flat([t] + rest), 0)
    ensures t.Code? ==> MarkName(t.path)
    ensures t.Fold? ==> MarkName(t.id)
  {
    assert ([t] + rest)[1..] == rest;
  }

  lemma SubstituteStep(t: Tok, rest: seq<Tok>, open: string, texts: map<string, string>)
    requires Tidy([t] + rest) && open in {CODE_OPEN, FOLD_OPEN}
    ensures Substitute(Flat([t] + rest), open, texts) ==
            var tail := Substitute(Flat(rest), open, texts);
            if t.Code? && open == CODE_OPEN && t.path !in texts then None
            else if t.Fold? && open == FOLD_OPEN && t.id !in texts then None
            else if tail == None then None
            else if t.Code? && open == CODE_OPEN then Some(texts[t.path] + tail.value)
            else if t.Fold? && open == FOLD_OPEN then Some(texts[t.id] + tail.value)
            else Some(Show(t) + tail.value)
  {
    hide Tidy;
    var tail, all := Flat(rest), Flat([t] + rest);
    assert ([t] + rest)[1..] == rest;
    assert all == Show(t) + tail;
    TidyHead(t, rest);
    if t.Code? && open == CODE_OPEN {
      MarkerFound(open, t.path, tail);
    } else if t.Fold? && open == FOLD_OPEN {
      MarkerFound(open, t.id, tail);
    } else {
      OtherKind(t, tail, open);
      if !t.Ch? {
        MarkTailIsPlain(t, tail);
      }
      SubstituteTail(t, tail, open, texts);
    }
  }

  /** A token that is no marker of the kind is copied whole. */
  lemma SubstituteTail(t: Tok, tail: string, open: string, texts: map<string, string>)
    requires OpensAt(open, 0) && !(open <= Show(t) + tail)
    requires forall i: nat :: i < |Show(t)| - 1 ==> !OpensAt(Show(t)[1..] + tail, i)
    ensures Substitute(Show(t) + tail, open, texts) ==
            if Substitute(tail, open, texts).Some? then Some(Show(t) + Substitute(tail, open, texts).value) else None
  {
    hide Show;
    var all, u := Show(t) + tail, Show(t)[1..];
    assert MarkerAt(all, open) == None;
    assert all[1..] == u + tail;
    SubstituteCopies(u, tail, open, texts);
    var copied := Substitute(tail, open, texts);
    if copied.Some? {
      assert [all[0]] + (u + copied.value) == Show(t) + copied.value;
    }
  }

  lemma MarkerFound(open: string, name: string, tail: string)
    requires MarkName(name)
    ensures MarkerAt(open + name + "]]" + tail, open) == Some(name)
    ensures (open + name + "]]" + tail)[|open| + |name| + 2..] == tail
  {
    var all := open + name + "]]" + tail;
    assert all[|open|..] == name + ("]]" + tail);
    UpToName(name, "]]" + tail);
    assert all[|open| + |name|..] == "]]" + tail;
  }

  lemma {:induction false} UpToName(name: string, tail: string)
    requires ']' !in name && tail != "" && tail[0] == ']'
    ensures UpTo(name + tail, ']') == name
    decreases name
  {
    if name == "" {
      assert name + tail == tail;
    } else {
      assert (name + tail)[1..] == name[1..] + tail;
      UpToName(name[1..], tail);
    }
  }

  // ---- Whole token lists

  /** `code/<id>.new.txt`, and what migration puts in place of its marker. */
  function NewPath(id: string): string { "code/" + id + ".new.txt" }

  function Refold(ts: seq<Tok>, id: string): seq<Tok> {
    if ts == [] then []
    else [if ts[0] == Code(NewPath(id)) then Fold(id) else ts[0]] + Refold(ts[1..], id)
  }

  function CountTok(ts: seq<Tok>, t: Tok): nat {
    if ts == [] then 0 else (if ts[0] == t then 1 else 0) + CountTok(ts[1..], t)
  }

  lemma NewPathIsName(id: string)
    requires MarkName(id)
    ensures MarkName(NewPath(id))
  {
    var p := NewPath(id);
    assert forall i :: 0 <= i < |p| ==> p[i] == if i < 5 then "code/"[i] else if i < 5 + |id| then id[i - 5] else ".new.txt"[i - 5 - |id|];
    forall i: nat | i < |p| ensures !OpensAt(p, i) {
      if 5 <= i < 5 + |id| {
        assert !OpensAt(id, i - 5);
      }
    }
  }

  /** A replaced list starts with the same characters, as far as an opening reaches. */
  lemma {:induction false} RefoldStart(ts: seq<Tok>, id: string, k: nat)
    requires k < 3
    ensures k < |Flat(ts)| <==> k < |Flat(Refold(ts, id))|
    ensures k < |Flat(ts)| ==> Flat(ts)[k] == Flat(Refold(ts, id))[k]
    decreases ts
  {
    if ts != [] {
      var rest := Refold(ts[1..], id);
      assert Refold(ts, id)[1..] == rest;
      if ts[0].Ch? && k > 0 {
        RefoldStart(ts[1..], id, k - 1);
      }
    }
  }

  lemma {:induction false} ReplaceTokens(ts: seq<Tok>, id: string)
    requires Tidy(ts) && MarkName(id)
    ensures ReplaceAll(Flat(ts), CodeMark(NewPath(id)), FoldMark(id)) == Flat(Refold(ts, id))
    ensures Count(Flat(ts), CodeMark(NewPath(id))) == CountTok(ts, Code(NewPath(id)))
    ensures Tidy(Refold(ts, id))
    decreases ts
  {
    NewPathIsName(id);
    if ts != [] {
      var t, rest := ts[0], ts[1..];
      assert ts == [t] + rest;
      ReplaceTokens(rest, id);
      ReplaceStep(t, rest, NewPath(id), FoldMark(id));
      RefoldIsTidy(t, rest, id);
      assert Refold(ts, id)[1..] == Refold(rest, id);
    }
  }

  lemma RefoldIsTidy(t: Tok, rest: seq<Tok>, id: string)
    requires Tidy([t] + rest) && Tidy(Refold(rest, id)) && MarkName(id)
    ensures Tidy(Refold([t] + rest, id))
  {
    var ts := [t] + rest;
    assert ts[1..] == rest;
    assert Refold(ts, id)[1..] == Refold(rest, id);
    RefoldStart(ts, id, 0);
    RefoldStart(ts, id, 1);
    RefoldStart(ts, id, 2);
  }
}
