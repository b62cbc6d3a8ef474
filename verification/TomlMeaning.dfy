/** What a document says: the values of its record are exactly those its lines assign, each under the
    section that was open, and its sections are exactly those its lines open. */
module TomlMeaning {
  import opened Text
  import Json
  import opened TomlLexer
  import opened TomlParser
  import opened TomlLiterals
  import opened TomlLayout
  import opened TomlItems

  /** A value that is no section, under a path and a key. */
  predicate Leaf(m: Record, path: seq<string>, key: string, v: Value) {
    !v.Rec? && At(m, path).Some? && key in At(m, path).value && At(m, path).value[key] == v
  }

  predicate Open(m: Record, path: seq<string>) { At(m, path).Some? }

  /** The lines give a key of a section this value. */
  predicate Assigned(active: seq<string>, lines: seq<string>, path: seq<string>, key: string, v: Value)
    decreases lines
  {
    lines != [] &&
    match Classify(lines[0])
    case Header(name) => Assigned(SectionPath(name), lines[1..], path, key, v)
    case Pair(k, raw) => (path == active && key == k && ParseValue(raw) == Some(v)) || Assigned(active, lines[1..], path, key, v)
    case _ => Assigned(active, lines[1..], path, key, v)
  }

  /** The lines open a section: a header names it or one below it, or an assignment stands in it or below. */
  predicate Opened(active: seq<string>, lines: seq<string>, path: seq<string>)
    decreases lines
  {
    lines != [] &&
    match Classify(lines[0])
    case Header(name) => path <= SectionPath(name) || Opened(SectionPath(name), lines[1..], path)
    case Pair(_, _) => path <= active || Opened(active, lines[1..], path)
    case _ => Opened(active, lines[1..], path)
  }

  // ---- One field set

  lemma {:induction false} LeafAfterPut(m: Record, path: seq<string>, key: string, v: Value, p: seq<string>, k: string, x: Value)
    requires At(m, path).Some? && key !in At(m, path).value && (v.Rec? ==> v == Rec(map[]))
    ensures Leaf(Put(m, path, key, v), p, k, x) <==> Leaf(m, p, k, x) || (!v.Rec? && p == path && k == key && x == v)
    decreases path
  {
    if path != [] {
      var sub := m[path[0]].fields;
      if p != [] && p[0] == path[0] {
        LeafAfterPut(sub, path[1..], key, v, p[1..], k, x);
        assert p == path <==> p[1..] == path[1..] by {
          assert p == [p[0]] + p[1..] && path == [path[0]] + path[1..];
        }
      }
    } else if p != [] {
      var all := m[key := v];
      assert p[0] != key ==> At(all, p) == At(m, p);
      assert p[0] == key ==> At(m, p) == None;
      if p[0] == key && v.Rec? {
        assert At(all, p) == At(v.fields, p[1..]);
        NothingInside(p[1..]);
      }
    }
  }

  lemma NothingInside(p: seq<string>)
    ensures At(map[], p) == if p == [] then Some(map[]) else None
  {
  }

  lemma {:induction false} OpenAfterPut(m: Record, path: seq<string>, key: string, v: Value, p: seq<string>)
    requires At(m, path).Some? && key !in At(m, path).value && (v.Rec? ==> v == Rec(map[]))
    ensures Open(Put(m, path, key, v), p) <==> Open(m, p) || (v.Rec? && p == path + [key])
    decreases path
  {
    if path == [] {
      assert path + [key] == [key];
      if p != [] {
        var all := m[key := v];
        assert p == [p[0]] + p[1..];
        assert p[0] != key ==> At(all, p) == At(m, p);
        assert p[0] == key ==> At(m, p) == None;
        if p[0] == key && v.Rec? {
          assert At(all, p) == At(v.fields, p[1..]);
          NothingInside(p[1..]);
        }
      }
    } else {
      var sub := m[path[0]].fields;
      assert (path + [key])[1..] == path[1..] + [key];
      if p != [] {
        assert p == [p[0]] + p[1..] && path + [key] == [path[0]] + (path[1..] + [key]);
        if p[0] == path[0] {
          OpenAfterPut(sub, path[1..], key, v, p[1..]);
        }
      }
    }
  }

  // ---- Sections created

  lemma {:induction false} AfterEnsure(m: Record, path: seq<string>, p: seq<string>, k: string, x: Value)
    requires Ensure(m, path).Some?
    ensures Leaf(Ensure(m, path).value, p, k, x) <==> Leaf(m, p, k, x)
    ensures Open(Ensure(m, path).value, p) <==> Open(m, p) || p <= path
    decreases |path|
  {
    hide Leaf;
    if path == [] {
      assert p <= path <==> p == [];
    } else {
      var before, name := path[..|path| - 1], path[|path| - 1];
      AfterEnsure(m, before, p, k, x);
      var m1 := Ensure(m, before).value;
      var here := At(m1, before).value;
      assert path == before + [name];
      PrefixOfLonger(p, before, name);
      AtSnoc(m1, before, name);
      if name !in here {
        LeafAfterPut(m1, before, name, Rec(map[]), p, k, x);
        OpenAfterPut(m1, before, name, Rec(map[]), p);
      }
    }
  }

  lemma PrefixOfLonger(p: seq<string>, before: seq<string>, name: string)
    ensures p <= before + [name] <==> p <= before || p == before + [name]
  {
    if p <= before + [name] && p != before + [name] {
      assert |p| <= |before|;
      assert p == (before + [name])[..|p|] == before[..|p|];
    }
    if p <= before {
      assert (before + [name])[..|p|] == before[..|p|];
    }
  }

  /** A path cannot be opened exactly when the first step that is no section is taken by something else, or
      has a name that every record answers to. */
  lemma {:induction false} EnsureFails(m: Record, path: seq<string>)
    ensures Ensure(m, path) == None <==> exists k: nat :: k < |path| && Blocked(m, path[..k], path[k])
    decreases |path|
  {
    if path != [] {
      var n := |path| - 1;
      var before, name := path[..n], path[n];
      EnsureFails(m, before);
      forall k: nat | k < n ensures Blocked(m, path[..k], path[k]) <==> Blocked(m, before[..k], before[k]) {
        assert before[..k] == path[..k];
      }
      if Ensure(m, before).Some? {
        BlockedAfter(m, before, name);
        if Ensure(m, path) == None {
          assert Blocked(m, path[..n], path[n]);
        }
        assert forall k: nat :: k < n ==> !Blocked(m, before[..k], before[k]);
      } else {
        var k: nat :| k < n && Blocked(m, before[..k], before[k]);
        assert Blocked(m, path[..k], path[k]);
      }
    }
  }

  /** The step's name is taken where the path leads, or it is inherited there. */
  predicate Blocked(m: Record, path: seq<string>, name: string) {
    if At(m, path).Some? && name in At(m, path).value then !At(m, path).value[name].Rec? else name in INHERITED
  }

  lemma BlockedAfter(m: Record, before: seq<string>, name: string)
    requires Ensure(m, before).Some?
    ensures var here := At(Ensure(m, before).value, before).value;
            Blocked(m, before, name) <==> if name in here then !here[name].Rec? else name in INHERITED
  {
    hide INHERITED;
    EnsureKeeps(m, before);
  }

  /** Opening a path leaves what was at its end, or nothing. */
  lemma {:induction false} EnsureKeeps(m: Record, path: seq<string>)
    requires Ensure(m, path).Some?
    ensures At(Ensure(m, path).value, path) == Some(if At(m, path).Some? then At(m, path).value else map[])
    decreases |path|
  {
    hide INHERITED;
    if path != [] {
      var before, name := path[..|path| - 1], path[|path| - 1];
      EnsureKeeps(m, before);
      var m1 := Ensure(m, before).value;
      var here := At(m1, before).value;
      assert before + [name] == path;
      AtSnoc(m1, before, name);
      if At(m, before).Some? {
        AtSnoc(m, before, name);
      } else {
        NoneBelow(m, before, name);
      }
      if name !in here {
        PutThenAt(m1, before, name, Rec(map[]));
        AtSnoc(Put(m1, before, name, Rec(map[])), before, name);
      }
    }
  }

  lemma {:induction false} NoneBelow(m: Record, path: seq<string>, name: string)
    requires At(m, path) == None
    ensures At(m, path + [name]) == None
    decreases path
  {
    if path != [] && path[0] in m && m[path[0]].Rec? {
      NoneBelow(m[path[0]].fields, path[1..], name);
      assert (path + [name])[1..] == path[1..] + [name];
    }
  }

  // ---- Runs

  lemma StepLeaves(st: State, line: string, p: seq<string>, k: string, x: Value)
    requires Step(st, line).Some?
    ensures var next := Step(st, line).value; var c := Classify(line);
            && next.active == (if c.Header? then SectionPath(c.name) else st.active)
            && (Leaf(next.root, p, k, x) <==>
                Leaf(st.root, p, k, x) || (c.Pair? && p == st.active && k == c.key && ParseValue(c.raw) == Some(x)))
            && (Open(next.root, p) <==>
                Open(st.root, p) || (c.Header? && p <= SectionPath(c.name)) || (c.Pair? && p <= st.active))
  {
    hide Classify, Leaf, ParseValue, SectionPath, Ensure, Put, Open;
    match Classify(line)
    case Header(name) => AfterEnsure(st.root, SectionPath(name), p, k, x);
    case Pair(key, raw) =>
      AfterEnsure(st.root, st.active, p, k, x);
      ParsedIsNoRecord(raw);
      var root := Ensure(st.root, st.active).value;
      LeafAfterPut(root, st.active, key, ParseValue(raw).value, p, k, x);
      OpenAfterPut(root, st.active, key, ParseValue(raw).value, p);
    case _ =>
  }

  /** Running lines adds exactly what they assign and open. */
  lemma {:induction false} RunAdds(st: State, lines: seq<string>, p: seq<string>, k: string, x: Value)
    requires Run(st, lines).Some?
    ensures Leaf(Run(st, lines).value.root, p, k, x) <==> Leaf(st.root, p, k, x) || Assigned(st.active, lines, p, k, x)
    ensures Open(Run(st, lines).value.root, p) <==> Open(st.root, p) || Opened(st.active, lines, p)
    decreases lines
  {
    hide Classify, Step, Leaf, Open, ParseValue, SectionPath;
    if lines != [] {
      StepLeaves(st, lines[0], p, k, x);
      RunAdds(Step(st, lines[0]).value, lines[1..], p, k, x);
    }
  }

  /** The record of a document holds a value under a path and a key exactly when the lines assign it there,
      and a section exactly when they open it. */
  lemma DocumentMeans(input: string, p: seq<string>, k: string, x: Value)
    requires Document(input).Some?
    ensures Leaf(Document(input).value, p, k, x) <==> Assigned([], SplitLines(input), p, k, x)
    ensures Open(Document(input).value, p) <==> p == [] || Opened([], SplitLines(input), p)
  {
    RunAdds(START, SplitLines(input), p, k, x);
    assert Open(map[], p) <==> p == [];
    assert !Leaf(map[], p, k, x);
  }

  /** Assigned fields are never taken back. */
  lemma {:induction false} FieldsStay(st: State, lines: seq<string>, path: seq<string>, key: string)
    requires Run(st, lines).Some? && At(st.root, path).Some? && key in At(st.root, path).value
    ensures At(Run(st, lines).value.root, path).Some? && key in At(Run(st, lines).value.root, path).value
    decreases lines
  {
    hide Classify;
    if lines != [] {
      var next := Step(st, lines[0]).value;
      StepFieldsStay(st, lines[0], path, key);
      hide Step;
      FieldsStay(next, lines[1..], path, key);
    }
  }

  predicate Field(m: Record, path: seq<string>, key: string) { At(m, path).Some? && key in At(m, path).value }

  lemma {:induction false} FieldAfterPut(m: Record, path: seq<string>, key: string, v: Value, p: seq<string>, k: string)
    requires At(m, path).Some? && key !in At(m, path).value && Field(m, p, k)
    ensures Field(Put(m, path, key, v), p, k)
    decreases path
  {
    if path != [] && p != [] && p[0] == path[0] {
      FieldAfterPut(m[path[0]].fields, path[1..], key, v, p[1..], k);
    }
  }

  lemma {:induction false} FieldAfterEnsure(m: Record, path: seq<string>, p: seq<string>, k: string)
    requires Ensure(m, path).Some? && Field(m, p, k)
    ensures Field(Ensure(m, path).value, p, k)
    decreases |path|
  {
    hide Field;
    if path != [] {
      var before, name := path[..|path| - 1], path[|path| - 1];
      FieldAfterEnsure(m, before, p, k);
      var m1 := Ensure(m, before).value;
      if name !in At(m1, before).value {
        FieldAfterPut(m1, before, name, Rec(map[]), p, k);
      }
    }
  }

  lemma StepFieldsStay(st: State, line: string, path: seq<string>, key: string)
    requires Step(st, line).Some? && Field(st.root, path, key)
    ensures Field(Step(st, line).value.root, path, key)
  {
    hide Classify, Field, ParseValue, SectionPath;
    match Classify(line)
    case Header(name) => FieldAfterEnsure(st.root, SectionPath(name), path, key);
    case Pair(k, raw) =>
      FieldAfterEnsure(st.root, st.active, path, key);
      FieldAfterPut(Ensure(st.root, st.active).value, st.active, k, ParseValue(raw).value, path, key);
    case _ =>
  }

  /** The section open after some lines. */
  function ActiveAfter(active: seq<string>, lines: seq<string>): seq<string>
    decreases lines
  {
    if lines == [] then active
    else
      match Classify(lines[0])
      case Header(name) => ActiveAfter(SectionPath(name), lines[1..])
      case _ => ActiveAfter(active, lines[1..])
  }

  lemma {:induction false} RunActive(st: State, lines: seq<string>)
    requires Run(st, lines).Some?
    ensures Run(st, lines).value.active == ActiveAfter(st.active, lines)
    decreases lines
  {
    hide Classify, SectionPath;
    if lines != [] {
      RunActive(Step(st, lines[0]).value, lines[1..]);
    }
  }

  /** A key assigned twice in a section is refused, whatever stands between. */
  lemma RepeatedKeyIsRefused(st: State, before: seq<string>, first: string, between: seq<string>, second: string, after: seq<string>)
    requires Classify(first).Pair? && Classify(second).Pair? && Classify(first).key == Classify(second).key
    requires ActiveAfter(ActiveAfter(st.active, before), between) == ActiveAfter(st.active, before)
    ensures Run(st, before + [first] + between + [second] + after) == None
  {
    hide Classify, At, Put, Ensure, ParseValue;
    assert before + [first] + between + [second] + after == before + ([first] + (between + ([second] + after)));
    RunConcat(st, before, [first] + (between + ([second] + after)));
    if Run(st, before).Some? {
      var mid := Run(st, before).value;
      RunActive(st, before);
      RunCons(mid, first, between + ([second] + after));
      if Step(mid, first).Some? {
        var set0 := Step(mid, first).value;
        PairSets(mid, first);
        RunConcat(set0, between, [second] + after);
        if Run(set0, between).Some? {
          RunActive(set0, between);
          FieldsStay(set0, between, mid.active, Classify(first).key);
          var last := Run(set0, between).value;
          RunCons(last, second, after);
          TakenIsRefused(last, second);
        }
      }
    }
  }

  lemma RunCons(st: State, line: string, rest: seq<string>)
    ensures Run(st, [line] + rest) == match Step(st, line) case None => None case Some(next) => Run(next, rest)
  {
    hide Step;
    assert ([line] + rest)[1..] == rest;
  }

  lemma PairSets(st: State, line: string)
    requires Step(st, line).Some? && Classify(line).Pair?
    ensures var next := Step(st, line).value; next.active == st.active && Field(next.root, st.active, Classify(line).key)
  {
    hide Classify, ParseValue;
    PutThenAt(Ensure(st.root, st.active).value, st.active, Classify(line).key, ParseValue(Classify(line).raw).value);
  }

  lemma TakenIsRefused(st: State, line: string)
    requires Classify(line).Pair? && Field(st.root, st.active, Classify(line).key)
    ensures Step(st, line) == None
  {
    hide Classify, ParseValue;
    if Ensure(st.root, st.active).Some? {
      FieldAfterEnsure(st.root, st.active, st.active, Classify(line).key);
    }
  }

  /** One line is refused exactly when it has none of the forms, opens a section that is blocked or has no
      name, stands in one, repeats a key, or its value is no literal. */
  lemma StepFails(st: State, line: string)
    ensures Step(st, line) == None <==>
            match Classify(line)
            case Blank => false
            case Bad => true
            case Header(name) => name == "" || exists k: nat :: k < |SectionPath(name)| && Blocked(st.root, SectionPath(name)[..k], SectionPath(name)[k])
            case Pair(key, raw) =>
              || (exists k: nat :: k < |st.active| && Blocked(st.root, st.active[..k], st.active[k]))
              || (At(st.root, st.active).Some? && key in At(st.root, st.active).value) || key == PROTO
              || ParseValue(raw) == None
  {
    hide Classify, ParseValue, Blocked, SectionPath;
    match Classify(line)
    case Header(name) => EnsureFails(st.root, SectionPath(name));
    case Pair(key, raw) =>
      EnsureFails(st.root, st.active);
      if Ensure(st.root, st.active).Some? {
        EnsureKeeps(st.root, st.active);
      }
    case _ =>
  }

  // ---- One line

  /** A line that assigns a single-quoted text, however it is laid out, is a document with that one field. */
  lemma SingleQuotedDocument(before: string, key: string, a: string, b: string, s: string, behind: string, tail: string)
    requires BareKey(key) && key != PROTO && '\'' !in s
    requires Space(before) && Space(a) && Space(b) && Space(behind) && (tail == "" || tail[0] == '#')
    requires '\n' !in before + key + a + "=" + b + ("'" + s + "'") + behind + tail
    ensures Document(before + key + a + "=" + b + ("'" + s + "'") + behind + tail) == Some(map[key := Str(s)])
  {
    var raw := "'" + s + "'";
    var line := before + key + a + "=" + b + raw + behind + tail;
    SingleQuotedIsVisible(s);
    QuoteFreeReads(s);
    LiteralLine(before, key, a, b, raw, behind, tail);
    OneLineDocument(line, key, raw, Str(s));
  }

  lemma OneLineDocument(line: string, key: string, raw: string, v: Value)
    requires '\n' !in line && Classify(line) == Pair(key, raw) && ParseValue(raw) == Some(v) && key != PROTO
    ensures Document(line) == Some(map[key := v])
  {
    SplitNone(line, '\n');
    hide Classify, ParseValue, SplitOn;
    assert SplitLines(line) == [line] && [line][1..] == [];
    assert Step(START, line) == Some(State(map[key := v], []));
    assert Run(State(map[key := v], []), []) == Some(State(map[key := v], []));
  }
}
