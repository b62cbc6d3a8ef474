/** Text as the configuration code and the tools see it: sequences of characters. */
module Text {

  datatype Option<+T> = None | Some(value: T) {
    predicate IsFailure() { None? }

    function PropagateFailure<U>(): Option<U>
      requires None?
    {
      None
    }

    function Extract(): T
      requires Some?
    {
      value
    }
  }

  /** Whose notion of white space a trim uses: ECMAScript's or Python's. */
  datatype Lang = Js | Py

  predicate IsSpace(lang: Lang, c: char) {
    || c == ' ' || '\U{0009}' <= c <= '\U{000D}'
    || c == '\U{00A0}' || c == '\U{1680}' || '\U{2000}' <= c <= '\U{200A}'
    || c == '\U{2028}' || c == '\U{2029}' || c == '\U{202F}' || c == '\U{205F}' || c == '\U{3000}'
    || (lang.Js? && c == '\U{FEFF}')
    || (lang.Py? && ('\U{001C}' <= c <= '\U{001F}' || c == '\U{0085}'))
  }

  // ---- Prefixes and suffixes

  predicate StartsWith(s: string, p: string) { p <= s }

  predicate EndsWith(s: string, p: string) {
    |p| <= |s| && s[|s| - |p|..] == p
  }

  // ---- Trimming

  function TrimStart(lang: Lang, s: string): string {
    if s != "" && IsSpace(lang, s[0]) then TrimStart(lang, s[1..]) else s
  }

  function TrimEnd(lang: Lang, s: string): string {
    if s != "" && IsSpace(lang, s[|s| - 1]) then TrimEnd(lang, s[..|s| - 1]) else s
  }

  function Trim(lang: Lang, s: string): string {
    TrimEnd(lang, TrimStart(lang, s))
  }

  /** Trimmed text: empty, or with a visible character at each end. */
  predicate Tight(lang: Lang, s: string) {
    s == "" || (!IsSpace(lang, s[0]) && !IsSpace(lang, s[|s| - 1]))
  }

  lemma {:induction false} TrimStartSuffix(lang: Lang, s: string)
    ensures |TrimStart(lang, s)| <= |s|
    ensures TrimStart(lang, s) == s[|s| - |TrimStart(lang, s)|..]
    ensures TrimStart(lang, s) != "" ==> !IsSpace(lang, TrimStart(lang, s)[0])
  {
    if s != "" && IsSpace(lang, s[0]) {
      TrimStartSuffix(lang, s[1..]);
    }
  }

  lemma {:induction false} TrimEndPrefix(lang: Lang, s: string)
    ensures TrimEnd(lang, s) <= s
    ensures TrimEnd(lang, s) != "" ==> !IsSpace(lang, TrimEnd(lang, s)[|TrimEnd(lang, s)| - 1])
    ensures forall i :: |TrimEnd(lang, s)| <= i < |s| ==> IsSpace(lang, s[i])
  {
    if s != "" && IsSpace(lang, s[|s| - 1]) {
      TrimEndPrefix(lang, s[..|s| - 1]);
    }
  }

  lemma {:induction false} TrimIsTight(lang: Lang, s: string)
    ensures Tight(lang, Trim(lang, s))
    ensures |Trim(lang, s)| <= |s|
  {
    TrimStartSuffix(lang, s);
    TrimEndPrefix(lang, TrimStart(lang, s));
  }

  lemma TightIsFixed(lang: Lang, s: string)
    requires Tight(lang, s)
    ensures Trim(lang, s) == s
  {
  }

  ghost predicate OnlySpace(lang: Lang, s: string) { forall i :: 0 <= i < |s| ==> IsSpace(lang, s[i]) }

  lemma {:induction false} TrimEndDrops(lang: Lang, s: string, z: string)
    requires OnlySpace(lang, z)
    ensures TrimEnd(lang, s + z) == TrimEnd(lang, s)
    decreases z
  {
    if z == "" {
      assert s + z == s;
    } else {
      assert (s + z)[..|s + z| - 1] == s + z[..|z| - 1];
      TrimEndDrops(lang, s, z[..|z| - 1]);
    }
  }

  lemma {:induction false} TrimStartDrops(lang: Lang, a: string, s: string)
    requires OnlySpace(lang, a)
    ensures TrimStart(lang, a + s) == TrimStart(lang, s)
    decreases a
  {
    if a == "" {
      assert a + s == s;
    } else {
      assert (a + s)[1..] == a[1..] + s;
      TrimStartDrops(lang, a[1..], s);
    }
  }

  lemma {:induction false} LeadingSpace(lang: Lang, s: string)
    ensures |TrimStart(lang, s)| <= |s| && OnlySpace(lang, s[..|s| - |TrimStart(lang, s)|])
  {
    if s != "" && IsSpace(lang, s[0]) {
      LeadingSpace(lang, s[1..]);
      TrimStartSuffix(lang, s);
      var k := |s| - |TrimStart(lang, s)|;
      assert s[..k] == [s[0]] + s[1..][..k - 1];
    }
  }

  lemma TrimmedOff(lang: Lang, s: string) returns (a: string, z: string)
    ensures OnlySpace(lang, a) && OnlySpace(lang, z) && s == a + Trim(lang, s) + z
  {
    var u := TrimStart(lang, s);
    LeadingSpace(lang, s);
    TrimStartSuffix(lang, s);
    TrimEndPrefix(lang, u);
    hide TrimStart, TrimEnd, IsSpace;
    a, z := s[..|s| - |u|], u[|TrimEnd(lang, u)|..];
    assert u == TrimEnd(lang, u) + z;
  }

  ghost predicate Padded(lang: Lang, s: string, t: string) {
    exists a, z :: OnlySpace(lang, a) && OnlySpace(lang, z) && s == a + t + z
  }

  /** Trimming takes off the white space at both ends and nothing else. */
  lemma TrimMeans(lang: Lang, s: string, t: string)
    ensures Trim(lang, s) == t <==> Tight(lang, t) && Padded(lang, s, t)
  {
    hide Trim, Tight, OnlySpace;
    TrimIsTight(lang, s);
    var a, z := TrimmedOff(lang, s);
    if Tight(lang, t) && Padded(lang, s, t) {
      var b, y :| OnlySpace(lang, b) && OnlySpace(lang, y) && s == b + t + y;
      TrimOfPadded(lang, b, t, y);
    }
  }

  lemma TrimOfPadded(lang: Lang, a: string, t: string, z: string)
    requires Tight(lang, t) && OnlySpace(lang, a) && OnlySpace(lang, z)
    ensures Trim(lang, a + t + z) == t
  {
    assert a + t + z == a + (t + z);
    TrimStartDrops(lang, a, t + z);
    if t == "" {
      assert t + z == z && z == z + "";
      TrimStartDrops(lang, z, "");
    } else {
      TrimEndDrops(lang, t, z);
    }
  }

  lemma {:induction false} TrimLeadingSpace(lang: Lang, s: string)
    ensures Trim(lang, " " + s) == Trim(lang, s)
  {
    assert (" " + s)[1..] == s;
  }

  lemma {:induction false} TrimTrailingSpace(lang: Lang, s: string)
    requires Tight(lang, s)
    ensures Trim(lang, s + " ") == s
  {
    var t := s + " ";
    if s == "" {
      assert t[1..] == "";
    } else {
      assert t[0] == s[0] && TrimStart(lang, t) == t;
      assert t[|t| - 1] == ' ' && t[..|t| - 1] == s;
      assert TrimEnd(lang, t) == TrimEnd(lang, s) == s;
    }
  }

  /** A prefix that starts visibly is only cut at its end by trimming. */
  lemma {:induction false} TrimOfVisibleStart(lang: Lang, s: string)
    requires s != "" && !IsSpace(lang, s[0])
    ensures Trim(lang, s) <= s && Trim(lang, s) != ""
    ensures forall i :: |Trim(lang, s)| <= i < |s| ==> IsSpace(lang, s[i])
    ensures !IsSpace(lang, Trim(lang, s)[|Trim(lang, s)| - 1])
  {
    TrimEndPrefix(lang, s);
  }

  // ---- Splitting at a separator character and joining

  /** The text cut at every occurrence of `sep`; the separators are dropped. */
  function SplitOn(s: string, sep: char): (parts: seq<string>)
    ensures |parts| >= 1
    ensures |s| == 0 ==> parts == [""]
  {
    if s == "" then [""]
    else
      var rest := SplitOn(s[1..], sep);
      if s[0] == sep then [""] + rest
      else [[s[0]] + rest[0]] + rest[1..]
  }

  function Join(parts: seq<string>, sep: string): string {
    if |parts| == 0 then ""
    else if |parts| == 1 then parts[0]
    else parts[0] + sep + Join(parts[1..], sep)
  }

  lemma {:induction false} SplitPieces(s: string, sep: char)
    ensures forall p :: p in SplitOn(s, sep) ==> sep !in p
  {
    if s != "" {
      SplitPieces(s[1..], sep);
      var rest := SplitOn(s[1..], sep);
      assert rest[0] in rest;
      forall p | p in SplitOn(s, sep) ensures sep !in p {
        assert p in rest || (s[0] == sep && p == "") || (s[0] != sep && p == [s[0]] + rest[0]);
      }
    }
  }

  lemma {:induction false} JoinOfSplit(s: string, sep: char)
    ensures Join(SplitOn(s, sep), [sep]) == s
  {
    if s != "" {
      JoinOfSplit(s[1..], sep);
      var rest := SplitOn(s[1..], sep);
      assert s == [s[0]] + s[1..];
      if s[0] == sep {
        assert ([""] + rest)[1..] == rest;
        assert Join([""] + rest, [sep]) == "" + [sep] + Join(rest, [sep]);
      } else {
        JoinLonger(s[0], rest, sep);
      }
    }
  }

  /** A character put in front of the first piece is the first character of the joined text. */
  lemma JoinLonger(c: char, rest: seq<string>, sep: char)
    requires rest != []
    ensures Join([[c] + rest[0]] + rest[1..], [sep]) == [c] + Join(rest, [sep])
  {
    var first, more := [c] + rest[0], rest[1..];
    JoinCons(first, more, sep);
    JoinCons(rest[0], more, sep);
    assert rest == [rest[0]] + more;
    hide Join;
    FrontChar(c, rest[0], [sep], Join(more, [sep]));
  }

  lemma FrontChar(c: char, a: string, b: string, d: string)
    ensures [c] + a + b + d == [c] + (a + b + d)
  {
  }

  lemma JoinCons(first: string, more: seq<string>, sep: char)
    ensures Join([first] + more, [sep]) == if more == [] then first else first + [sep] + Join(more, [sep])
  {
    assert ([first] + more)[1..] == more;
  }

  lemma SplitParts(s: string, sep: char)
    ensures forall p, i :: p in SplitOn(s, sep) && 0 <= i < |p| ==> p[i] != sep
    ensures Join(SplitOn(s, sep), [sep]) == s
  {
    hide SplitOn, Join;
    SplitPieces(s, sep);
    JoinOfSplit(s, sep);
  }

  /** A first piece without separators is what the split returns first. */
  lemma {:induction false} SplitFirst(a: string, b: string, sep: char)
    requires sep !in a
    ensures SplitOn(a + [sep] + b, sep) == [a] + SplitOn(b, sep)
  {
    var s := a + [sep] + b;
    if a == "" {
      assert s[1..] == b;
    } else {
      SplitFirst(a[1..], b, sep);
      assert s[1..] == a[1..] + [sep] + b;
      var rest := [a[1..]] + SplitOn(b, sep);
      assert SplitOn(s[1..], sep) == rest;
      assert rest[0] == a[1..] && rest[1..] == SplitOn(b, sep);
      assert [a[0]] + a[1..] == a;
    }
  }

  lemma {:induction false} SplitNone(a: string, sep: char)
    requires sep !in a
    ensures SplitOn(a, sep) == [a]
  {
    if a != "" {
      SplitNone(a[1..], sep);
      assert [a[0]] + a[1..] == a;
    }
  }

  /** Splitting undoes joining when no piece holds the separator. */
  lemma {:induction false} SplitOfJoin(parts: seq<string>, sep: char)
    requires |parts| >= 1
    requires forall p :: p in parts ==> sep !in p
    ensures SplitOn(Join(parts, [sep]), sep) == parts
  {
    if |parts| == 1 {
      SplitNone(parts[0], sep);
    } else {
      SplitOfJoin(parts[1..], sep);
      SplitFirst(parts[0], Join(parts[1..], [sep]), sep);
    }
  }

  // ---- Searching

  predicate OccursAt(s: string, p: string, i: nat) {
    i <= |s| && p <= s[i..]
  }

  /** The first place a text occurs. */
  function Find(s: string, p: string): (r: Option<nat>)
    ensures r.Some? ==> r.value <= |s| && p <= s[r.value..]
  {
    if p <= s then Some(0)
    else if s == "" then Option<nat>.None
    else
      match Find(s[1..], p)
      case None => Option<nat>.None
      case Some(i) =>
        assert s[i + 1..] == s[1..][i..];
        Some(i + 1)
  }

  /** Whether `p` occurs anywhere in `s`. */
  predicate Contains(s: string, p: string) {
    exists i: nat :: i <= |s| && OccursAt(s, p, i)
  }

  /** The place found is the first one, and none is found exactly when there is none. */
  lemma {:induction false} FindIsFirst(s: string, p: string)
    ensures Find(s, p).Some? ==> forall j :: 0 <= j < Find(s, p).value ==> !(p <= s[j..])
    ensures Find(s, p).None? ==> forall j :: 0 <= j <= |s| ==> !(p <= s[j..])
  {
    if !(p <= s) && s != "" {
      FindIsFirst(s[1..], p);
      assert forall j :: 1 <= j <= |s| ==> s[j..] == s[1..][j - 1..];
    }
  }
}
