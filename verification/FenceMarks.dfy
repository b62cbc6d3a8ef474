/** What a fence line looks like, stated on the line itself. */
module FenceMarks {
  import opened Text
  import opened PacketFences

  function Rep(c: char, n: nat): string { seq(n, i requires 0 <= i < n => c) }

  /** At most three spaces, a maximal run of the mark, and what follows it. */
  ghost predicate Fences(line: string, c: char, n: nat, rest: string) {
    (rest == "" || rest[0] != c) && exists k: nat :: Indented(line, k, c, n, rest)
  }

  predicate Indented(line: string, k: nat, c: char, n: nat, rest: string) {
    k <= 3 && line == Rep(' ', k) + Rep(c, n) + rest
  }

  lemma {:induction false} RunIs(s: string, c: char, n: nat, rest: string)
    requires s == Rep(c, n) + rest && (rest == "" || rest[0] != c)
    ensures RunOf(s, c) == n && s[n..] == rest
    decreases n
  {
    if n > 0 {
      assert s[1..] == Rep(c, n - 1) + rest;
      RunIs(s[1..], c, n - 1, rest);
    }
  }

  lemma RunSplits(s: string, c: char)
    ensures s == Rep(c, RunOf(s, c)) + s[RunOf(s, c)..]
  {
    hide RunOf;
    var n := RunOf(s, c);
    assert s[..n] == Rep(c, n);
    assert s == s[..n] + s[n..];
  }

  lemma IndentIs(line: string, k: nat, c: char, n: nat, rest: string)
    requires Indented(line, k, c, n, rest) && c != ' ' && n > 0 && (rest == "" || rest[0] != c)
    ensures RunOf(line, ' ') == k && line[k..] == Rep(c, n) + rest && RunOf(line[k..], c) == n && line[k..][n..] == rest
  {
    assert line == Rep(' ', k) + (Rep(c, n) + rest);
    RunIs(line, ' ', k, Rep(c, n) + rest);
    RunIs(line[k..], c, n, rest);
  }

  /** A line opens a fence exactly when it is at most three spaces, three or more backticks or tildes, and
      an info text that continues no run. */
  lemma OpenerMeans(line: string, m: Marker)
    ensures OpenerOf(line) == Some(m) <==> m.c in {'`', '~'} && m.length >= 3 && Fences(line, m.c, m.length, m.info)
  {
    hide Fences, OpenerOf;
    if m.c in {'`', '~'} && m.length >= 3 && Fences(line, m.c, m.length, m.info) {
      FencesOpen(line, m);
    }
    if OpenerOf(line) == Some(m) {
      OpenFences(line, m);
    }
  }

  lemma FencesOpen(line: string, m: Marker)
    requires m.c in {'`', '~'} && m.length >= 3 && Fences(line, m.c, m.length, m.info)
    ensures OpenerOf(line) == Some(m)
  {
    var k: nat :| Indented(line, k, m.c, m.length, m.info);
    IndentIs(line, k, m.c, m.length, m.info);
    hide RunOf, Rep, Indented, Fences;
    assert line[k..] != "" && line[k..][0] == m.c by {
      FirstOfRun(m.c, m.length, m.info);
    }
  }

  lemma FirstOfRun(c: char, n: nat, rest: string)
    requires n > 0
    ensures Rep(c, n) + rest != "" && (Rep(c, n) + rest)[0] == c
  {
  }

  lemma OpenFences(line: string, m: Marker)
    requires OpenerOf(line) == Some(m)
    ensures m.c in {'`', '~'} && m.length >= 3 && Fences(line, m.c, m.length, m.info)
  {
    hide RunOf, Rep;
    var k := RunOf(line, ' ');
    RunSplits(line, ' ');
    RunSplits(line[k..], m.c);
    Regrouped(Rep(' ', k), Rep(m.c, m.length), m.info);
    assert Indented(line, k, m.c, m.length, m.info);
  }

  lemma Regrouped(a: string, b: string, c: string)
    ensures a + (b + c) == a + b + c
  {
  }

  /** A fence is closed exactly by a line of its own mark, at least as long, with white space after it. */
  lemma CloserMeans(line: string, c: char, length: nat)
    requires IsMarkerChar(c) && length >= 3
    ensures Closes(line, c, length) <==> exists n: nat, rest :: n >= length && OnlySpace(Py, rest) && Fences(line, c, n, rest)
  {
    CloserIsBareOpener(line, c, length);
    hide Closes, OpenerOf, Fences;
    if Closes(line, c, length) {
      OpenerMeans(line, OpenerOf(line).value);
    }
    forall n: nat, rest | n >= length && OnlySpace(Py, rest) && Fences(line, c, n, rest) ensures Closes(line, c, length) {
      OpenerMeans(line, Marker(c, n, rest));
    }
  }

  /** The block is json exactly behind backticks and the bare word. */
  lemma JsonMeans(m: Marker)
    ensures IsJson(m) <==> m.c == '`' && Padded(Py, m.info, "json")
  {
    TrimMeans(Py, m.info, "json");
    hide Trim, Padded;
  }
}
