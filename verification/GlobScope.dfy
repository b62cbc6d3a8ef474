/** Scope patterns: the regular expression a glob is compiled to, the texts it accepts, and the roots
    that are searched for it. */
module GlobScope {
  import opened Text

  // ---- The glob's own meaning

  datatype Part = Star | DoubleStar | Literal(c: char)

  /** A pattern read from the left; two stars in a row are one part. */
  function Parts(pattern: string): seq<Part> {
    if pattern == "" then []
    else if pattern[0] != '*' then [Literal(pattern[0])] + Parts(pattern[1..])
    else if |pattern| > 1 && pattern[1] == '*' then [DoubleStar] + Parts(pattern[2..])
    else [Star] + Parts(pattern[1..])
  }

  /** Characters that end a line for the regular expression's dot. */
  predicate EndsLine(c: char) { c == '\n' || c == '\r' || c == '\U{2028}' || c == '\U{2029}' }

  predicate Fits(p: Part, piece: string) {
    match p
    case Star => '/' !in piece
    case DoubleStar => forall i :: 0 <= i < |piece| ==> !EndsLine(piece[i])
    case Literal(c) => piece == [c]
  }

  function Glue(pieces: seq<string>): string {
    if pieces == [] then "" else pieces[0] + Glue(pieces[1..])
  }

  predicate AllFit(parts: seq<Part>, pieces: seq<string>) {
    |parts| == |pieces| && forall i :: 0 <= i < |parts| ==> Fits(parts[i], pieces[i])
  }

  /** The texts that can be cut into one fitting piece for each part. */
  ghost predicate InGlob(parts: seq<Part>, text: string) {
    exists pieces :: AllFit(parts, pieces) && Glue(pieces) == text
  }

  // ---- The regular expression as text

  predicate IsSpecial(c: char) {
    c in {'.', '*', '+', '?', '^', '$', '{', '}', '(', ')', '|', '[', ']', '\\'}
  }

  function EscapeChar(c: char): string { if IsSpecial(c) then ['\\', c] else [c] }

  function RegexOf(parts: seq<Part>): string {
    if parts == [] then ""
    else
      (match parts[0] case Star => "[^/]*" case DoubleStar => ".*" case Literal(c) => EscapeChar(c)) + RegexOf(parts[1..])
  }

  method GlobToRegExp(pattern: string) returns (regex: string)
    ensures regex == "^" + RegexOf(Parts(pattern)) + "$"
  {
    hide Parts, RegexOf, EscapeChar;
    regex := "^";
    var index: nat := 0;
    assert pattern[0..] == pattern;
    while index < |pattern|
      invariant index <= |pattern|
      invariant "^" + RegexOf(Parts(pattern)) == regex + RegexOf(Parts(pattern[index..]))
    {
      var c := pattern[index];
      PartsStep(pattern, index);
      if c == '*' {
        if index + 1 < |pattern| && pattern[index + 1] == '*' {
          Appended(regex, ".*", RegexOf(Parts(pattern[index + 2..])));
          regex := regex + ".*";
          index := index + 1;
        } else {
          Appended(regex, "[^/]*", RegexOf(Parts(pattern[index + 1..])));
          regex := regex + "[^/]*";
        }
        index := index + 1;
        continue;
      }
      Appended(regex, EscapeChar(c), RegexOf(Parts(pattern[index + 1..])));
      regex := regex + EscapeChar(c);
      index := index + 1;
    }
    NoPartsLeft(pattern[index..], regex);
    regex := regex + "$";
  }

  lemma Appended(a: string, b: string, c: string)
    ensures a + (b + c) == a + b + c
  {
  }

  lemma NoPartsLeft(pattern: string, regex: string)
    requires pattern == ""
    ensures regex + RegexOf(Parts(pattern)) == regex
  {
  }

  lemma PartsStep(pattern: string, i: nat)
    requires i < |pattern|
    ensures RegexOf(Parts(pattern[i..])) ==
            if pattern[i] != '*' then EscapeChar(pattern[i]) + RegexOf(Parts(pattern[i + 1..]))
            else if i + 1 < |pattern| && pattern[i + 1] == '*' then ".*" + RegexOf(Parts(pattern[i + 2..]))
            else "[^/]*" + RegexOf(Parts(pattern[i + 1..]))
  {
    hide EscapeChar;
    var here := pattern[i..];
    assert here[1..] == pattern[i + 1..];
    assert i + 1 < |pattern| ==> here[1] == pattern[i + 1] && here[2..] == pattern[i + 2..];
    RegexCons(Parts(here));
  }

  lemma RegexCons(parts: seq<Part>)
    requires parts != []
    ensures RegexOf(parts) ==
            (match parts[0] case Star => "[^/]*" case DoubleStar => ".*" case Literal(c) => EscapeChar(c)) + RegexOf(parts[1..])
  {
  }

  // ---- What a regular expression of this kind accepts

  datatype Atom = Any | NoSlash | Exactly(c: char)

  /** The atoms of the text between the anchors; none when it is not of this kind. */
  function ReadRegex(s: string): Option<seq<Atom>>
    decreases |s|
  {
    if s == "" then Some([])
    else if ".*" <= s then Before(Any, ReadRegex(s[2..]))
    else if "[^/]*" <= s then Before(NoSlash, ReadRegex(s[5..]))
    else if s[0] == '\\' && |s| > 1 then Before(Exactly(s[1]), ReadRegex(s[2..]))
    else if IsSpecial(s[0]) then None
    else Before(Exactly(s[0]), ReadRegex(s[1..]))
  }

  function Before(a: Atom, rest: Option<seq<Atom>>): Option<seq<Atom>> {
    if rest == None then None else Some([a] + rest.value)
  }

  /** Anchored matching: a repeated atom takes nothing, or one more character it allows. */
  predicate Accepts(atoms: seq<Atom>, text: string)
    decreases |atoms| + |text|
  {
    if atoms == [] then text == ""
    else
      match atoms[0]
      case Exactly(c) => text != "" && text[0] == c && Accepts(atoms[1..], text[1..])
      case Any => Accepts(atoms[1..], text) || (text != "" && !EndsLine(text[0]) && Accepts(atoms, text[1..]))
      case NoSlash => Accepts(atoms[1..], text) || (text != "" && text[0] != '/' && Accepts(atoms, text[1..]))
  }

  function AtomOf(p: Part): Atom {
    match p case Star => NoSlash case DoubleStar => Any case Literal(c) => Exactly(c)
  }

  function AtomsOf(parts: seq<Part>): seq<Atom> {
    if parts == [] then [] else [AtomOf(parts[0])] + AtomsOf(parts[1..])
  }

  /** No stray star: a literal never follows so that it joins a construct before it. */
  lemma {:induction false} RegexReads(parts: seq<Part>)
    requires forall i :: 0 <= i < |parts| && parts[i].Literal? ==> parts[i].c != '*'
    ensures ReadRegex(RegexOf(parts)) == Some(AtomsOf(parts))
    decreases parts
  {
    if parts != [] {
      RegexReads(parts[1..]);
      var rest := RegexOf(parts[1..]);
      RegexCons(parts);
      ReadOne(parts[0], rest);
    }
  }

  lemma ReadOne(p: Part, rest: string)
    requires p.Literal? ==> p.c != '*'
    ensures var s := (match p case Star => "[^/]*" case DoubleStar => ".*" case Literal(c) => EscapeChar(c)) + rest;
            ReadRegex(s) == Before(AtomOf(p), ReadRegex(rest))
  {
    match p
    case Star =>
      var s := "[^/]*" + rest;
      assert s[0] == '[' && s[5..] == rest;
    case DoubleStar =>
      var s := ".*" + rest;
      assert s[2..] == rest;
    case Literal(c) =>
      var s := EscapeChar(c) + rest;
      if IsSpecial(c) {
        assert s[0] == '\\' && s[1] == c && s[2..] == rest;
      } else {
        assert s[0] == c && s[1..] == rest;
      }
  }

  lemma {:induction false} PartsAreStarless(pattern: string)
    ensures forall i :: 0 <= i < |Parts(pattern)| && Parts(pattern)[i].Literal? ==> Parts(pattern)[i].c != '*'
    decreases |pattern|
  {
    if pattern != "" {
      if pattern[0] != '*' {
        PartsAreStarless(pattern[1..]);
      } else if |pattern| > 1 && pattern[1] == '*' {
        PartsAreStarless(pattern[2..]);
      } else {
        PartsAreStarless(pattern[1..]);
      }
    }
  }

  // ---- The compilation preserves meaning

  lemma {:induction false} AcceptedIsInGlob(parts: seq<Part>, text: string) returns (pieces: seq<string>)
    requires Accepts(AtomsOf(parts), text)
    ensures AllFit(parts, pieces) && Glue(pieces) == text
    decreases |parts| + |text|
  {
    hide EndsLine;
    if parts == [] {
      pieces := [];
    } else {
      var p, rest := parts[0], parts[1..];
      assert AtomsOf(parts)[1..] == AtomsOf(rest);
      if p.Literal? {
        var more := AcceptedIsInGlob(rest, text[1..]);
        pieces := AddPiece(parts, [text[0]], more);
      } else if Accepts(AtomsOf(rest), text) {
        var more := AcceptedIsInGlob(rest, text);
        pieces := AddPiece(parts, "", more);
      } else {
        var more := AcceptedIsInGlob(parts, text[1..]);
        pieces := Lengthened(parts, text[0], more);
        assert [text[0]] + text[1..] == text;
      }
    }
  }

  lemma AddPiece(parts: seq<Part>, piece: string, more: seq<string>) returns (pieces: seq<string>)
    requires parts != [] && Fits(parts[0], piece) && AllFit(parts[1..], more)
    ensures AllFit(parts, pieces) && Glue(pieces) == piece + Glue(more)
  {
    hide Fits;
    pieces := [piece] + more;
    assert pieces[1..] == more;
    forall i | 0 <= i < |parts| ensures Fits(parts[i], pieces[i]) {
      if i > 0 {
        assert parts[i] == parts[1..][i - 1] && pieces[i] == more[i - 1];
      }
    }
  }

  /** The first piece of a repetition takes one more character. */
  lemma Lengthened(parts: seq<Part>, c: char, more: seq<string>) returns (pieces: seq<string>)
    requires parts != [] && AllFit(parts, more)
    requires (parts[0].Star? && c != '/') || (parts[0].DoubleStar? && !EndsLine(c))
    ensures AllFit(parts, pieces) && Glue(pieces) == [c] + Glue(more)
  {
    hide EndsLine;
    pieces := [[c] + more[0]] + more[1..];
    assert pieces[1..] == more[1..];
    assert Fits(parts[0], more[0]);
    assert Fits(parts[0], [c] + more[0]);
    forall i | 0 <= i < |parts| ensures Fits(parts[i], pieces[i]) {
      if i > 0 {
        assert pieces[i] == more[i];
      }
    }
    assert [c] + (more[0] + Glue(more[1..])) == [c] + more[0] + Glue(more[1..]);
  }

  lemma {:induction false} InGlobIsAccepted(parts: seq<Part>, pieces: seq<string>)
    requires AllFit(parts, pieces)
    ensures Accepts(AtomsOf(parts), Glue(pieces))
    decreases |parts|, if pieces == [] then 0 else |pieces[0]|
  {
    hide EndsLine, Fits, Accepts;
    if parts == [] {
      assert pieces == [] && AtomsOf(parts) == [] && Accepts([], "") by { NothingAccepted(); }
    } else {
      var rest, more := parts[1..], pieces[1..];
      RestFits(parts, pieces);
      InGlobIsAccepted(rest, more);
      if !parts[0].Literal? && pieces[0] != "" {
        var shorter := [pieces[0][1..]] + more;
        ShorterFits(parts, pieces);
        InGlobIsAccepted(parts, shorter);
        assert shorter[1..] == more;
        assert Glue(pieces) == [pieces[0][0]] + Glue(shorter);
        TakesOneMore(parts, pieces[0][0], Glue(shorter));
      } else {
        TakesPiece(parts, pieces[0], Glue(more));
      }
    }
  }

  lemma NothingAccepted()
    ensures Accepts([], "")
  {
  }

  lemma RestFits(parts: seq<Part>, pieces: seq<string>)
    requires AllFit(parts, pieces) && parts != []
    ensures AllFit(parts[1..], pieces[1..]) && Fits(parts[0], pieces[0])
  {
    hide Fits;
  }

  /** A repetition that accepts a text accepts it with one more allowed character in front. */
  lemma TakesOneMore(parts: seq<Part>, c: char, text: string)
    requires parts != [] && Accepts(AtomsOf(parts), text)
    requires (parts[0].Star? && c != '/') || (parts[0].DoubleStar? && !EndsLine(c))
    ensures Accepts(AtomsOf(parts), [c] + text)
  {
    hide EndsLine;
    assert ([c] + text)[1..] == text;
  }

  /** A literal, or a repetition that takes nothing, in front of an accepted text. */
  lemma TakesPiece(parts: seq<Part>, piece: string, text: string)
    requires parts != [] && Fits(parts[0], piece) && Accepts(AtomsOf(parts[1..]), text)
    requires parts[0].Literal? || piece == ""
    ensures Accepts(AtomsOf(parts), piece + text)
  {
    hide EndsLine;
    assert AtomsOf(parts)[1..] == AtomsOf(parts[1..]);
    if parts[0].Literal? {
      assert (piece + text)[0] == parts[0].c && (piece + text)[1..] == text;
    } else {
      assert piece + text == text;
    }
  }

  lemma ShorterFits(parts: seq<Part>, pieces: seq<string>)
    requires AllFit(parts, pieces) && parts != [] && !parts[0].Literal? && pieces[0] != ""
    ensures AllFit(parts, [pieces[0][1..]] + pieces[1..])
    ensures parts[0].Star? ==> pieces[0][0] != '/'
    ensures parts[0].DoubleStar? ==> !EndsLine(pieces[0][0])
  {
    hide EndsLine;
    assert Fits(parts[0], pieces[0]);
    var shorter := [pieces[0][1..]] + pieces[1..];
    forall i | 0 <= i < |parts| ensures Fits(parts[i], shorter[i]) {
      if i > 0 {
        assert shorter[i] == pieces[i];
      }
    }
  }

  /** The compiled expression reads back as anchored atoms that accept exactly the glob's texts. */
  lemma CompiledAcceptsGlob(pattern: string, text: string)
    ensures var atoms := ReadRegex(RegexOf(Parts(pattern)));
            atoms.Some? && (Accepts(atoms.value, text) <==> InGlob(Parts(pattern), text))
  {
    hide Accepts, Parts, RegexOf, ReadRegex, AllFit, Glue, AtomsOf;
    var parts := Parts(pattern);
    PartsAreStarless(pattern);
    RegexReads(parts);
    if Accepts(AtomsOf(parts), text) {
      var pieces := AcceptedIsInGlob(parts, text);
    }
    if InGlob(parts, text) {
      var pieces :| AllFit(parts, pieces) && Glue(pieces) == text;
      InGlobIsAccepted(parts, pieces);
    }
  }

  // ---- The roots that are searched

  /** Backslashes become slashes. */
  function Posix(path: string): string {
    seq(|path|, i requires 0 <= i < |path| => if path[i] == '\\' then '/' else path[i])
  }

  function WithoutLeadingSlashes(s: string): string {
    if s != "" && s[0] == '/' then WithoutLeadingSlashes(s[1..]) else s
  }

  /** The first segment. */
  function RootOf(pattern: string): (root: string)
    ensures root <= pattern && '/' !in root
    ensures |root| < |pattern| ==> pattern[|root|] == '/'
  {
    if pattern == "" || pattern[0] == '/' then "" else [pattern[0]] + RootOf(pattern[1..])
  }

  predicate Under(file: string, root: string) { StartsWith(file, root + "/") }

  /** A path relative to the repository, as the files found have. */
  predicate Relative(path: string) { path != "" && path[0] != '/' }

  /** The root that is searched for a pattern. */
  function SearchedFor(pattern: string): string { RootOf(WithoutLeadingSlashes(pattern)) }

  /** Every relative path the pattern accepts lies under the root searched for it. */
  ghost predicate RootSuffices(pattern: string) {
    forall path :: Relative(path) && InGlob(Parts(pattern), path) ==>
      SearchedFor(pattern) != "" && Under(path, SearchedFor(pattern))
  }

  /** Patterns for which that holds: no relative path is accepted, or the first segment is plain and
      followed by a slash. */
  predicate Rooted(pattern: string) {
    pattern == "" || pattern[0] == '/' || ('*' !in RootOf(pattern) && |RootOf(pattern)| < |pattern|)
  }

  lemma {:induction false} LiteralStart(u: string, rest: string, pieces: seq<string>)
    requires '*' !in u && AllFit(Parts(u + rest), pieces)
    ensures StartsWith(Glue(pieces), u)
    decreases u
  {
    if u != "" {
      var all := u + rest;
      assert all[0] == u[0] && all[1..] == u[1..] + rest;
      assert Parts(all) == [Literal(u[0])] + Parts(all[1..]);
      assert Parts(all)[1..] == Parts(u[1..] + rest);
      assert Fits(Parts(all)[0], pieces[0]);
      assert AllFit(Parts(u[1..] + rest), pieces[1..]);
      LiteralStart(u[1..], rest, pieces[1..]);
      assert Glue(pieces) == [u[0]] + Glue(pieces[1..]);
      assert u == [u[0]] + u[1..];
    }
  }

  /** The pattern with an `x` for its stars. */
  function Filled(pattern: string): (s: string)
    ensures '*' !in s
    ensures '*' !in pattern ==> s == pattern
    ensures Relative(pattern) ==> Relative(s)
  {
    if pattern == "" then ""
    else if pattern[0] != '*' then [pattern[0]] + Filled(pattern[1..])
    else "x" + Filled(if |pattern| > 1 && pattern[1] == '*' then pattern[2..] else pattern[1..])
  }

  lemma {:induction false} FilledIsInGlob(pattern: string) returns (pieces: seq<string>)
    ensures AllFit(Parts(pattern), pieces) && Glue(pieces) == Filled(pattern)
    decreases |pattern|
  {
    if pattern == "" {
      pieces := [];
    } else if pattern[0] != '*' {
      var more := FilledIsInGlob(pattern[1..]);
      pieces := AddPiece(Parts(pattern), [pattern[0]], more);
    } else if |pattern| > 1 && pattern[1] == '*' {
      var more := FilledIsInGlob(pattern[2..]);
      pieces := AddPiece(Parts(pattern), "x", more);
    } else {
      var more := FilledIsInGlob(pattern[1..]);
      pieces := AddPiece(Parts(pattern), "x", more);
    }
  }

  /** Searching only the root loses no match exactly for these patterns. */
  lemma RootPrefilterIsExact(pattern: string)
    ensures RootSuffices(pattern) <==> Rooted(pattern)
  {
    hide Parts, AllFit, Glue;
    var root := RootOf(pattern);
    if !Relative(pattern) {
      SlashedMatchesNothing(pattern);
    } else if Rooted(pattern) {
      forall path | InGlob(Parts(pattern), path) ensures Under(path, root) {
        var pieces :| AllFit(Parts(pattern), pieces) && Glue(pieces) == path;
        assert pattern == (root + "/") + pattern[|root| + 1..];
        LiteralStart(root + "/", pattern[|root| + 1..], pieces);
      }
    } else {
      var pieces := FilledIsInGlob(pattern);
      var path := Filled(pattern);
      assert Relative(path) && InGlob(Parts(pattern), path);
      if '*' in root {
        StarredPrefix(path, root + "/");
      } else {
        assert path == pattern;
      }
      assert !Under(path, root);
    }
  }

  /** A pattern that starts with a slash, or has no character, accepts no relative path: the slash stays in
      its expression. */
  lemma SlashedMatchesNothing(pattern: string)
    requires !Relative(pattern)
    ensures forall path :: InGlob(Parts(pattern), path) ==> !Relative(path)
  {
    forall path | InGlob(Parts(pattern), path) ensures !Relative(path) {
      var pieces :| AllFit(Parts(pattern), pieces) && Glue(pieces) == path;
      if pattern == "" {
        assert pieces == [];
      } else {
        hide Parts, AllFit, Glue;
        assert pattern == "/" + pattern[1..];
        LiteralStart("/", pattern[1..], pieces);
      }
    }
  }

  lemma StarredPrefix(text: string, prefix: string)
    requires '*' !in text && '*' in prefix
    ensures !StartsWith(text, prefix)
  {
    var i :| 0 <= i < |prefix| && prefix[i] == '*';
    assert i < |text| ==> text[i] != '*';
  }

  method ScopeRoots(patterns: seq<string>) returns (roots: set<string>)
    ensures forall root :: root in roots <==>
              root != "" && exists i :: 0 <= i < |patterns| && SearchedFor(Posix(patterns[i])) == root
  {
    roots := {};
    for k := 0 to |patterns|
      invariant forall root :: root in roots <==>
                  root != "" && exists i :: 0 <= i < k && SearchedFor(Posix(patterns[i])) == root
    {
      var root := SearchedFor(Posix(patterns[k]));
      if root != "" {
        roots := roots + {root};
      }
    }
  }

  /** A file that one of the patterns accepts. */
  predicate Matched(patterns: seq<string>, file: string) {
    exists i :: 0 <= i < |patterns| && Accepts(AtomsOf(Parts(Posix(patterns[i]))), file)
  }

  /** The filter: files under some root that some pattern accepts. */
  method ResolveFiles(patterns: seq<string>, files: set<string>) returns (matched: set<string>)
    ensures forall f :: f in matched <==>
              f in files && Matched(patterns, f)
              && exists i :: 0 <= i < |patterns| && SearchedFor(Posix(patterns[i])) != ""
                             && Under(f, SearchedFor(Posix(patterns[i])))
  {
    hide Matched, Under;
    var roots := ScopeRoots(patterns);
    matched := {};
    ghost var all := roots;
    while roots != {}
      invariant roots <= all
      invariant forall f :: f in matched <==> f in files && Matched(patterns, f) && exists r :: r in all - roots && Under(f, r)
      decreases |roots|
    {
      var root :| root in roots;
      roots := roots - {root};
      ghost var before := matched;
      matched := matched + set f | f in files && Under(f, root) && Matched(patterns, f);
      forall f ensures f in matched <==> f in files && Matched(patterns, f) && exists r :: r in all - roots && Under(f, r) {
        if f in before {
          var r :| r in all - (roots + {root}) && Under(f, r);
          assert r in all - roots;
        }
      }
    }
    assert all - roots == all;
  }

  /** When every pattern is of those, the filter finds every file that some pattern accepts. */
  lemma NothingIsLost(patterns: seq<string>, f: string) returns (i: nat)
    requires Matched(patterns, f) && Relative(f)
    requires forall k :: 0 <= k < |patterns| ==> Rooted(Posix(patterns[k]))
    ensures i < |patterns|
    ensures var root := SearchedFor(Posix(patterns[i])); root != "" && Under(f, root)
  {
    i :| 0 <= i < |patterns| && Accepts(AtomsOf(Parts(Posix(patterns[i]))), f);
    hide Accepts, AtomsOf, Parts, Posix, RootSuffices, SearchedFor, Rooted;
    var p := Posix(patterns[i]);
    var pieces := AcceptedIsInGlob(Parts(p), f);
    assert InGlob(Parts(p), f);
    RootPrefilterIsExact(p);
    RootUsed(p, f);
  }

  lemma RootUsed(p: string, f: string)
    requires RootSuffices(p) && InGlob(Parts(p), f) && Relative(f)
    ensures SearchedFor(p) != "" && Under(f, SearchedFor(p))
  {
  }
}
