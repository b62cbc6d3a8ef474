/** The second hand-written parser, for the global configuration file. It keeps a live
    reference to the section it fills instead of walking to it, refuses repeated sections and
    knows only `[remotes.<name>]` and `[defaults]` sections. Wherever it accepts, it agrees with
    the general parser, and it accepts exactly the general parser's inputs of that shape. */
module GlobalToml {
  import opened Text
  import opened TomlLexer
  import opened TomlParser
  import opened TomlStore
  import opened TomlReader

  const REMOTE_KEYS: set<string> := {
    "host", "repo_base", "user", "pairflow_command", "pairflow_sync_command", "default_port_forwards"
  }

  predicate IsRemoteSection(segments: seq<string>) {
    |segments| == 2 && segments[0] == "remotes" && BareKey(segments[1])
  }

  predicate IsDefaultsSection(segments: seq<string>) {
    || (|segments| == 1 && segments[0] == "defaults")
    || (|segments| == 2 && segments[0] == "defaults" && BareKey(segments[1]))
  }

  // ---- The parser as a function

  datatype GState = GState(root: Record, target: seq<string>, inRemote: bool, seen: set<string>)

  /** The two levels of a section, opened one after the other. */
  function Open(root: Record, segments: seq<string>): Option<Record>
    requires IsRemoteSection(segments) || IsDefaultsSection(segments)
  {
    var outer :- Entered(root, [], segments[0]);
    if |segments| == 1 then Some(outer)
    else
      OuterIsOpen(root, segments[0]);
      Entered(outer, [segments[0]], segments[1])
  }

  lemma OuterIsOpen(root: Record, name: string)
    ensures var outer := Entered(root, [], name);
            outer.Some? ==> At(outer.value, [name]).Some?
  {
    var outer := Entered(root, [], name);
    if outer.Some? {
      assert [name][1..] == [];
      assert At(outer.value[name].fields, []).Some?;
    }
  }

  function StepLine(g: GState, line: Line): Option<GState> {
    match line
    case Blank => Some(g)
    case Bad => None
    case Header(name) =>
      var segments := SectionPath(name);
      if !IsRemoteSection(segments) && !IsDefaultsSection(segments) then None
      else if name in g.seen then None
      else
        var root :- Open(g.root, segments);
        Some(GState(root, segments, IsRemoteSection(segments), g.seen + {name}))
    case Pair(key, raw) =>
      if g.inRemote && key !in REMOTE_KEYS then None
      else if At(g.root, g.target) == None then None
      else if key in At(g.root, g.target).value || key == PROTO then None
      else
        var v :- ParseValue(raw);
        Some(g.(root := Put(g.root, g.target, key, v)))
  }

  function Run(g: GState, lines: seq<string>): Option<GState>
    decreases |lines|
  {
    if lines == [] then Some(g)
    else
      var next :- StepLine(g, Classify(lines[0]));
      Run(next, lines[1..])
  }

  const START := GState(map[], [], false, {})

  function GlobalDocument(input: string): Option<Record> {
    var g :- Run(START, SplitLines(input));
    Some(g.root)
  }

  // ---- What the global parser asks of a text beyond the general parser

  predicate Shaped(lines: seq<string>, inRemote: bool, seen: set<string>)
    decreases |lines|
  {
    lines == [] ||
    match Classify(lines[0])
    case Header(name) =>
      var segments := SectionPath(name);
      && (IsRemoteSection(segments) || IsDefaultsSection(segments))
      && name !in seen
      && Shaped(lines[1..], IsRemoteSection(segments), seen + {name})
    case Pair(key, _) => (inRemote ==> key in REMOTE_KEYS) && Shaped(lines[1..], inRemote, seen)
    case _ => Shaped(lines[1..], inRemote, seen)
  }

  // ---- Both parsers in step

  lemma {:induction false} EnsureFindsOpenSection(m: Record, path: seq<string>)
    requires At(m, path).Some?
    ensures Ensure(m, path) == Some(m)
    decreases |path|
  {
    if path != [] {
      var before, name := path[..|path| - 1], path[|path| - 1];
      assert before + [name] == path;
      AtPrefix(m, before, name);
      EnsureFindsOpenSection(m, before);
      AtSnoc(m, before, name);
    }
  }

  lemma {:induction false} AtPrefix(m: Record, path: seq<string>, name: string)
    requires At(m, path + [name]).Some?
    ensures At(m, path).Some?
    decreases path
  {
    if path != [] {
      assert (path + [name])[0] == path[0] && (path + [name])[1..] == path[1..] + [name];
      AtPrefix(m[path[0]].fields, path[1..], name);
    }
  }

  lemma OpenIsEnsure(root: Record, segments: seq<string>)
    requires IsRemoteSection(segments) || IsDefaultsSection(segments)
    ensures Open(root, segments) == Ensure(root, segments)
  {
    var name := segments[0];
    assert [] + [name] == [name];
    EnsureSnoc(root, [], name);
    if |segments| == 1 {
      assert segments == [name];
    } else {
      assert segments == [name] + [segments[1]];
      assert segments[..1] == [name];
      if Ensure(root, [name]).Some? {
        EnsureSnoc(root, [name], segments[1]);
      } else {
        EnsureFailsEarly(root, segments, 1);
      }
    }
  }

  function RootOf(r: Option<GState>): Option<Record> {
    match r case None => None case Some(g) => Some(g.root)
  }

  function GeneralRootOf(r: Option<TomlParser.State>): Option<Record> {
    match r case None => None case Some(st) => Some(st.root)
  }

  /** One line: the global parser does what the general one does, if the shape permits. */
  lemma StepsAgree(g: GState, line: Line)
    requires At(g.root, g.target).Some?
    ensures var general := TomlParser.StepLine(TomlParser.State(g.root, g.target), line);
            match StepLine(g, line)
            case Some(next) =>
              && general == Some(TomlParser.State(next.root, next.target))
              && At(next.root, next.target).Some?
            case None =>
              || general == None
              || (line.Pair? && g.inRemote && line.key !in REMOTE_KEYS)
              || (line.Header? && (line.name in g.seen || (!IsRemoteSection(SectionPath(line.name))
                                                          && !IsDefaultsSection(SectionPath(line.name)))))
  {
    match line {
      case Header(name) =>
        var segments := SectionPath(name);
        if IsRemoteSection(segments) || IsDefaultsSection(segments) {
          OpenIsEnsure(g.root, segments);
          NamedSection(name);
        }
      case Pair(key, raw) =>
        EnsureFindsOpenSection(g.root, g.target);
        if key !in At(g.root, g.target).value && ParseValue(raw).Some? {
          PutThenAt(g.root, g.target, key, ParseValue(raw).value);
        }
      case _ =>
    }
  }

  lemma NamedSection(name: string)
    requires IsRemoteSection(SectionPath(name)) || IsDefaultsSection(SectionPath(name))
    ensures name != ""
  {
    assert SplitOn("", '.') == [""];
    assert SectionPath("") == [Trim(Js, "")] == [""];
  }

  lemma {:induction false} RunsAgree(g: GState, lines: seq<string>)
    requires At(g.root, g.target).Some?
    ensures RootOf(Run(g, lines)) ==
            if Shaped(lines, g.inRemote, g.seen)
            then GeneralRootOf(TomlParser.Run(TomlParser.State(g.root, g.target), lines)) else None
    decreases |lines|
  {
    hide StepLine, TomlParser.StepLine, Classify, At, IsRemoteSection, IsDefaultsSection, SectionPath;
    if lines != [] {
      var line := Classify(lines[0]);
      StepsAgree(g, line);
      var next := StepLine(g, line);
      if next.Some? {
        StepKeepsShape(g, line);
        RunsAgree(next.value, lines[1..]);
      }
    }
  }

  /** An accepted line leads from a shape state to the next one. */
  lemma StepKeepsShape(g: GState, line: Line)
    requires StepLine(g, line).Some?
    ensures var next := StepLine(g, line).value;
            match line
            case Header(name) =>
              && (IsRemoteSection(SectionPath(name)) || IsDefaultsSection(SectionPath(name)))
              && name !in g.seen
              && next.inRemote == IsRemoteSection(SectionPath(name)) && next.seen == g.seen + {name}
            case Pair(key, _) => (g.inRemote ==> key in REMOTE_KEYS) && next.inRemote == g.inRemote && next.seen == g.seen
            case _ => next == g
  {
  }

  /** The global parser accepts exactly the general parser's inputs of the right shape, with the
      same nested record. */
  lemma GlobalRefinesGeneral(input: string)
    ensures GlobalDocument(input) == if Shaped(SplitLines(input), false, {}) then Document(input) else None
  {
    RunsAgree(START, SplitLines(input));
  }

  // ---- The parser as the program runs it

  /** Opens a section and returns the live reference to its record. */
  method OpenSection(s: Store, ghost homes: seq<seq<string>>, segments: seq<string>)
      returns (ok: bool, s': Store, ghost homes': seq<seq<string>>, target: nat)
    requires Housed(s, homes) && (IsRemoteSection(segments) || IsDefaultsSection(segments))
    ensures ok <==> Open(Read(s, 0), segments).Some?
    ensures ok ==> Housed(s', homes') && Open(Read(s, 0), segments) == Some(Read(s', 0))
    ensures ok ==> target < |s'| && Walk(s', 0, segments) == Some(target)
  {
    hide Entered, Read, Walk;
    StartAtRoot(s, homes);
    assert [] + [segments[0]] == [segments[0]];
    ok, s', homes', target := EnterSection(s, homes, [], 0, segments[0]);
    if !ok {
      return;
    }
    if |segments| == 1 {
      assert segments == [segments[0]];
      return;
    }
    assert segments == [segments[0]] + [segments[1]];
    ok, s', homes', target := EnterSection(s', homes', [segments[0]], target, segments[1]);
  }

  /** One assignment through the live reference. */
  method AssignLive(s: Store, ghost homes: seq<seq<string>>, ghost g: GState, target: nat, key: string, raw: string)
      returns (ok: bool, s': Store)
    requires Housed(s, homes) && target < |s|
    requires g.root == Read(s, 0) && Walk(s, 0, g.target) == Some(target)
    requires !g.inRemote || key in REMOTE_KEYS
    ensures ok <==> StepLine(g, Pair(key, raw)).Some?
    ensures ok ==> Housed(s', homes) && target < |s'| && Walk(s', 0, g.target) == Some(target)
    ensures ok ==> StepLine(g, Pair(key, raw)) == Some(g.(root := Read(s', 0)))
  {
    ok, s' := false, s;
    WalkReadsAt(s, 0, g.target);
    if key in s[target] || key == PROTO {
      return;
    }
    var v := ParseTomlValue(raw);
    if v == None {
      return;
    }
    ParsedIsNoRecord(raw);
    ReadAbove(s, homes, target, key, Leaf(v.value), 0, g.target);
    WalkAfterAssign(s, homes, target, key, Leaf(v.value), 0, g.target);
    ok, s' := true, Assign(s, target, key, Leaf(v.value));
  }

  lemma RunOne(g: GState, lines: seq<string>)
    requires lines != []
    ensures Run(g, lines) ==
            match StepLine(g, Classify(lines[0])) case None => None case Some(next) => Run(next, lines[1..])
  {
  }

  /** `parsePairflowGlobalToml`: the records it fills through the live reference read back as the
      document the function describes. */
  method ParsePairflowGlobalToml(input: string) returns (ok: bool, parsed: Store, ghost homes: seq<seq<string>>)
    ensures ok <==> GlobalDocument(input).Some?
    ensures ok ==> Housed(parsed, homes) && GlobalDocument(input) == Some(Read(parsed, 0))
  {
    hide StepLine, Open, Classify, SplitLines;
    ok, parsed, homes := true, [map[]], [[]];
    var activeTarget, inRemote, seenSections: set<string> := 0, false, {};
    var lines := SplitLines(input);
    ghost var g, rest := START, lines;
    assert Read(parsed, 0) == map[];
    for i := 0 to |lines|
      invariant ok && rest == lines[i..]
      invariant Housed(parsed, homes) && activeTarget < |parsed|
      invariant g == GState(Read(parsed, 0), g.target, inRemote, seenSections)
      invariant Walk(parsed, 0, g.target) == Some(activeTarget)
      invariant Run(START, lines) == Run(g, rest)
    {
      RunOne(g, rest);
      var line := ClassifyLine(lines[i]);
      ok, parsed, homes, activeTarget, inRemote, seenSections, g :=
        ApplyLine(parsed, homes, activeTarget, inRemote, seenSections, g, line);
      if !ok {
        return;
      }
      rest := rest[1..];
    }
  }

  method ApplyLine(s: Store, ghost homes: seq<seq<string>>, target: nat, inRemote: bool, seen: set<string>,
                   ghost g: GState, line: Line)
      returns (ok: bool, s': Store, ghost homes': seq<seq<string>>, target': nat, inRemote': bool,
               seen': set<string>, ghost g': GState)
    requires Housed(s, homes) && target < |s|
    requires g == GState(Read(s, 0), g.target, inRemote, seen) && Walk(s, 0, g.target) == Some(target)
    ensures ok <==> StepLine(g, line).Some?
    ensures ok ==> Housed(s', homes') && target' < |s'| && StepLine(g, line) == Some(g')
    ensures ok ==> g' == GState(Read(s', 0), g'.target, inRemote', seen') && Walk(s', 0, g'.target) == Some(target')
  {
    hide Open, At, Walk, Read;
    ok, s', homes', target', inRemote', seen', g' := false, s, homes, target, inRemote, seen, g;
    match line {
      case Blank =>
        ok := true;
      case Bad =>
      case Header(name) =>
        var segments := SectionPath(name);
        var isRemoteSection := IsRemoteSection(segments);
        if !isRemoteSection && !IsDefaultsSection(segments) {
          return;
        }
        if name in seen {
          return;
        }
        seen' := seen + {name};
        ok, s', homes', target' := OpenSection(s, homes, segments);
        inRemote' := isRemoteSection;
        if ok {
          g' := GState(Read(s', 0), segments, inRemote', seen');
        }
      case Pair(key, raw) =>
        if inRemote && key !in REMOTE_KEYS {
          return;
        }
        ok, s' := AssignLive(s, homes, g, target, key, raw);
        if ok {
          g' := g.(root := Read(s', 0));
        }
    }
  }
}
