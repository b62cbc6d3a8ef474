/** The parser as the program runs it: one loop over the lines that grows the store of
    records in place, walking the section path anew for every key. */
module TomlReader {
  import opened Text
  import Json
  import opened TomlLexer
  import opened TomlParser
  import opened TomlStore

  lemma {:induction false} EnsureFailsEarly(m: Record, path: seq<string>, k: nat)
    requires k <= |path| && Ensure(m, path[..k]) == None
    ensures Ensure(m, path) == None
    decreases |path|
  {
    if k == |path| {
      assert path[..k] == path;
    } else {
      assert path[..|path| - 1][..k] == path[..k];
      EnsureFailsEarly(m, path[..|path| - 1], k);
    }
  }

  /** A missing section is created: a new record, then a reference to it under its name. */
  lemma CreateChild(s: Store, homes: seq<seq<string>>, t: nat, path: seq<string>, name: string)
    requires Housed(s, homes) && Walk(s, 0, path) == Some(t) && t < |s|
    requires name !in s[t]
    ensures var grown, homes' := Assign(s + [map[]], t, name, Sub(|s|)), homes + [path + [name]];
            && Housed(grown, homes')
            && At(Read(s, 0), path).Some?
            && Read(grown, 0) == Put(Read(s, 0), path, name, Rec(map[]))
            && Walk(grown, 0, path + [name]) == Some(|s|)
  {
    var g, homes' := s + [map[]], homes + [path + [name]];
    WalkHome(s, homes, 0, path);
    assert homes[t] == path;
    ReadGrown(s, 0);
    WalkGrown(s, 0, path);
    assert forall i :: 0 <= i < |s| ==> g[i] == s[i] && homes'[i] == homes[i];
    assert Housed(g, homes');
    assert Read(g, |s|) == map[];
    ReadAbove(g, homes', t, name, Sub(|s|), 0, path);
    WalkAfterAssign(g, homes', t, name, Sub(|s|), 0, path);
    WalkSnoc(Assign(g, t, name, Sub(|s|)), 0, path, name);
  }

  /** The record one step further: found, created, or refused because the name is taken. */
  function Entered(m: Record, path: seq<string>, name: string): Option<Record>
    requires At(m, path).Some?
  {
    var here := At(m, path).value;
    if name in here then (if here[name].Rec? then Some(m) else None)
    else if name in INHERITED then None
    else Some(Put(m, path, name, Rec(map[])))
  }

  lemma EnsureSnoc(m: Record, path: seq<string>, name: string)
    requires Ensure(m, path).Some?
    ensures Ensure(m, path + [name]) == Entered(Ensure(m, path).value, path, name)
  {
    assert (path + [name])[..|path|] == path;
  }

  method EnterSection(s: Store, ghost homes: seq<seq<string>>, ghost path: seq<string>, t: nat, name: string)
      returns (ok: bool, s': Store, ghost homes': seq<seq<string>>, child: nat)
    requires Housed(s, homes) && t < |s| && Walk(s, 0, path) == Some(t)
    ensures At(Read(s, 0), path).Some?
    ensures ok <==> Entered(Read(s, 0), path, name).Some?
    ensures ok ==> Housed(s', homes') && Entered(Read(s, 0), path, name) == Some(Read(s', 0))
    ensures ok ==> child < |s'| && Walk(s', 0, path + [name]) == Some(child)
  {
    ok, s', homes', child := true, s, homes, t;
    WalkReadsAt(s, 0, path);
    if name in s[t] {
      WalkSnoc(s, 0, path, name);
      if s[t][name].Leaf? {
        ok := false;
      } else {
        child := s[t][name].ref;
      }
    } else if name in INHERITED {
      ok := false;
    } else {
      CreateChild(s, homes, t, path, name);
      s' := Assign(s + [map[]], t, name, Sub(|s|));
      homes' := homes + [path + [name]];
      child := |s|;
    }
  }

  /** `getOrCreateSection`: the record at the path, with missing sections created on the way. */
  method GetOrCreateSection(s: Store, ghost homes: seq<seq<string>>, path: seq<string>)
      returns (ok: bool, s': Store, ghost homes': seq<seq<string>>, target: nat)
    requires Housed(s, homes)
    ensures ok <==> Ensure(Read(s, 0), path).Some?
    ensures ok ==> Housed(s', homes') && Ensure(Read(s, 0), path) == Some(Read(s', 0))
    ensures ok ==> target < |s'| && Walk(s', 0, path) == Some(target)
  {
    hide Entered, Read, Walk;
    ghost var m := Read(s, 0);
    ok, s', homes', target := true, s, homes, 0;
    assert path[..0] == [];
    StartAtRoot(s, homes);
    for i := 0 to |path|
      invariant Housed(s', homes') && target < |s'|
      invariant Ensure(m, path[..i]) == Some(Read(s', 0))
      invariant Walk(s', 0, path[..i]) == Some(target)
    {
      ghost var before := path[..i];
      assert path[..i + 1] == before + [path[i]];
      EnsureSnoc(m, before, path[i]);
      ok, s', homes', target := EnterSection(s', homes', before, target, path[i]);
      if !ok {
        EnsureFailsEarly(m, path, i + 1);
        return;
      }
    }
    assert path[..|path|] == path;
  }

  lemma StartAtRoot(s: Store, homes: seq<seq<string>>)
    requires Housed(s, homes)
    ensures Walk(s, 0, []) == Some(0)
  {
  }

  method ParseTomlValue(rawValue: string) returns (r: Option<Value>)
    ensures r == ParseValue(rawValue)
    decreases |rawValue|, 0
  {
    TrimIsTight(Js, rawValue);
    var value := Trim(Js, rawValue);
    if StartsWith(value, "\"\"\"") || StartsWith(value, "'''") {
      return None;
    }
    if StartsWith(value, "\"") {
      var s := Json.Decode(value);
      return if s.Some? then Some(Str(s.value)) else None;
    }
    if StartsWith(value, "'") && EndsWith(value, "'") {
      return Some(Str(if |value| == 1 then "" else value[1..|value| - 1]));
    }
    if value == "true" {
      return Some(Bool(true));
    }
    if value == "false" {
      return Some(Bool(false));
    }
    if AllDigits(Unsigned(value)) {
      return Some(Num(Signed(value, DigitsValue(Unsigned(value)) as real)));
    }
    if IsFraction(Unsigned(value)) {
      return Some(Num(Signed(value, FractionValue(Unsigned(value)))));
    }
    if !StartsWith(value, "[") || !EndsWith(value, "]") {
      return None;
    }
    TrimIsTight(Js, value[1..|value| - 1]);
    var inner := Trim(Js, value[1..|value| - 1]);
    if |inner| == 0 {
      return Some(List([]));
    }
    var parts := SplitTomlList(inner);
    SplitListSizes(inner);
    var items := ParseParts(parts);
    r := if items.Some? then Some(List(items.value)) else None;
  }

  function Following(items: seq<Value>, rest: Option<seq<Value>>): Option<seq<Value>> {
    match rest case None => None case Some(vs) => Some(items + vs)
  }

  lemma {:induction false} PartFits(parts: seq<string>, i: nat)
    requires i < |parts|
    ensures |parts[i]| <= TotalLength(parts)
    decreases i
  {
    if i > 0 {
      PartFits(parts[1..], i - 1);
    }
  }

  lemma FollowingNothing(rest: Option<seq<Value>>)
    ensures Following([], rest) == rest
  {
    if rest.Some? {
      assert [] + rest.value == rest.value;
    }
  }

  lemma FollowingOne(items: seq<Value>, v: Value, rest: Option<seq<Value>>)
    ensures Following(items, Following([v], rest)) == Following(items + [v], rest)
  {
    if rest.Some? {
      assert items + ([v] + rest.value) == items + [v] + rest.value;
    }
  }

  method ParseParts(parts: seq<string>) returns (r: Option<seq<Value>>)
    ensures r == ParseAll(parts)
    decreases TotalLength(parts), 1
  {
    var items := [];
    var i := 0;
    assert parts[0..] == parts;
    FollowingNothing(ParseAll(parts));
    while i < |parts|
      invariant 0 <= i <= |parts|
      invariant ParseAll(parts) == Following(items, ParseAll(parts[i..]))
    {
      assert parts[i..][0] == parts[i] && parts[i..][1..] == parts[i + 1..];
      PartFits(parts, i);
      var v := ParseTomlValue(parts[i]);
      if v == None {
        return None;
      }
      FollowingOne(items, v.value, ParseAll(parts[i + 1..]));
      items := items + [v.value];
      i := i + 1;
    }
    assert parts[i..] == [] && items + [] == items;
    return Some(items);
  }

  method ClassifyLine(line: string) returns (r: Line)
    ensures r == Classify(line)
  {
    var stripped := StripInlineComment(line);
    var cleaned := Trim(Js, stripped);
    if |cleaned| == 0 {
      return Blank;
    }
    if StartsWith(cleaned, "[") {
      if StartsWith(cleaned, "[[") || !EndsWith(cleaned, "]") {
        return Bad;
      }
      assert cleaned[|cleaned| - 1] == "]"[0];
      return Header(Trim(Js, cleaned[1..|cleaned| - 1]));
    }
    var separatorIndex := FindEqualsIndex(cleaned);
    if separatorIndex <= 0 {
      return Bad;
    }
    var key := Trim(Js, cleaned[..separatorIndex]);
    if '.' in key || !BareKey(key) {
      return Bad;
    }
    return Pair(key, Trim(Js, cleaned[separatorIndex + 1..]));
  }

  /** One assignment `key = value` in the section that is active. */
  method AssignPair(root: Store, ghost homes: seq<seq<string>>, active: seq<string>, key: string, raw: string)
      returns (ok: bool, root': Store, ghost homes': seq<seq<string>>)
    requires Housed(root, homes)
    ensures var next := StepLine(State(Read(root, 0), active), Pair(key, raw));
            && (ok <==> next.Some?)
            && (ok ==> Housed(root', homes') && next.value == State(Read(root', 0), active))
  {
    var target;
    ok, root', homes', target := GetOrCreateSection(root, homes, active);
    if !ok {
      return;
    }
    WalkReadsAt(root', 0, active);
    if key in root'[target] || key == PROTO {
      ok := false;
      return;
    }
    var v := ParseTomlValue(raw);
    if v == None {
      ok := false;
      return;
    }
    ParsedIsNoRecord(raw);
    ReadAbove(root', homes', target, key, Leaf(v.value), 0, active);
    root' := Assign(root', target, key, Leaf(v.value));
  }

  method ApplyLine(root: Store, ghost homes: seq<seq<string>>, active: seq<string>, line: Line)
      returns (ok: bool, root': Store, ghost homes': seq<seq<string>>, active': seq<string>)
    requires Housed(root, homes)
    ensures var next := StepLine(State(Read(root, 0), active), line);
            && (ok <==> next.Some?)
            && (ok ==> Housed(root', homes') && next.value == State(Read(root', 0), active'))
  {
    ok, root', homes', active' := true, root, homes, active;
    match line {
      case Blank =>
      case Bad =>
        ok := false;
      case Header(name) =>
        if name == "" {
          ok := false;
          return;
        }
        active' := SectionPath(name);
        var target;
        ok, root', homes', target := GetOrCreateSection(root, homes, active');
      case Pair(key, raw) =>
        ok, root', homes' := AssignPair(root, homes, active, key, raw);
    }
  }

  lemma RunOne(st: State, lines: seq<string>)
    requires lines != []
    ensures Run(st, lines) ==
            match Step(st, lines[0]) case None => None case Some(next) => Run(next, lines[1..])
  {
  }

  /** `parseToml`: the store it builds reads back as the document's nested record. */
  method ParseToml(input: string) returns (ok: bool, root: Store, ghost homes: seq<seq<string>>)
    ensures ok <==> Document(input).Some?
    ensures ok ==> Housed(root, homes) && Document(input) == Some(Read(root, 0))
  {
    ok, root, homes := true, [map[]], [[]];
    var activeSectionPath: seq<string> := [];
    var lines := SplitLines(input);
    var i := 0;
    ghost var st := START;
    ghost var rest := lines;
    assert Read(root, 0) == map[];
    while i < |lines|
      invariant 0 <= i <= |lines| && rest == lines[i..]
      invariant Housed(root, homes) && st == State(Read(root, 0), activeSectionPath)
      invariant Run(START, lines) == Run(st, rest)
    {
      var line := ClassifyLine(lines[i]);
      RunOne(st, rest);
      ok, root, homes, activeSectionPath := ApplyLine(root, homes, activeSectionPath, line);
      if !ok {
        return;
      }
      st := State(Read(root, 0), activeSectionPath);
      rest := rest[1..];
      i := i + 1;
    }
  }
}
