/** The general parser of `bubble.toml`. Its specification works on nested records as values;
    the method works, like the program, on records updated in place through references. */
module TomlParser {
  import opened Text
  import Json
  import opened TomlLexer

  datatype Value =
    | Null
    | Bool(flag: bool)
    | Num(number: real)
    | Str(text: string)
    | List(items: seq<Value>)
    | Rec(fields: Record)

  type Record = map<string, Value>

  // ---- Values

  predicate AllDigits(s: string) { s != "" && forall i :: 0 <= i < |s| ==> '0' <= s[i] <= '9' }

  function DigitsValue(s: string): nat
    requires forall i :: 0 <= i < |s| ==> '0' <= s[i] <= '9'
  {
    if s == "" then 0
    else DigitsValue(s[..|s| - 1]) * 10 + (s[|s| - 1] as int - '0' as int)
  }

  function Unsigned(s: string): string {
    if s != "" && s[0] == '-' then s[1..] else s
  }

  function Signed(s: string, magnitude: real): real {
    if s != "" && s[0] == '-' then 0.0 - magnitude else magnitude
  }

  function TenTo(n: nat): (r: real)
    ensures r >= 1.0
  {
    if n == 0 then 1.0 else 10.0 * TenTo(n - 1)
  }

  function Over(x: real, y: real): real
    requires y != 0.0
  {
    x / y
  }

  /** A decimal fraction: digits, one dot, digits. */
  predicate IsFraction(s: string) {
    var parts := SplitOn(s, '.');
    |parts| == 2 && AllDigits(parts[0]) && AllDigits(parts[1])
  }

  function FractionValue(s: string): real
    requires IsFraction(s)
  {
    var parts := SplitOn(s, '.');
    DigitsValue(parts[0]) as real + Over(DigitsValue(parts[1]) as real, TenTo(|parts[1]|))
  }

  function ParseValue(raw: string): Option<Value>
    decreases |raw|, 1
  {
    TrimIsTight(Js, raw);
    var v := Trim(Js, raw);
    if StartsWith(v, "\"\"\"") || StartsWith(v, "'''") then None
    else if StartsWith(v, "\"") then
      var s :- Json.Decode(v);
      Some(Str(s))
    else if StartsWith(v, "'") && EndsWith(v, "'") then
      Some(Str(if |v| == 1 then "" else v[1..|v| - 1]))
    else if v == "true" then Some(Bool(true))
    else if v == "false" then Some(Bool(false))
    else if AllDigits(Unsigned(v)) then Some(Num(Signed(v, DigitsValue(Unsigned(v)) as real)))
    else if IsFraction(Unsigned(v)) then Some(Num(Signed(v, FractionValue(Unsigned(v)))))
    else if StartsWith(v, "[") && EndsWith(v, "]") then
      TrimIsTight(Js, v[1..|v| - 1]);
      var inner := Trim(Js, v[1..|v| - 1]);
      if inner == "" then Some(List([]))
      else
        SplitListSizes(inner);
        var items :- ParseAll(SplitList(inner));
        Some(List(items))
    else None
  }

  function ParseAll(parts: seq<string>): Option<seq<Value>>
    decreases TotalLength(parts), 2, |parts|
  {
    if parts == [] then Some([])
    else
      var v :- ParseValue(parts[0]);
      var vs :- ParseAll(parts[1..]);
      Some([v] + vs)
  }

  lemma {:induction false} ParsedIsNoRecord(raw: string)
    ensures ParseValue(raw).Some? ==> !ParseValue(raw).value.Rec? && !ParseValue(raw).value.Null?
  {
  }

  // ---- Lines

  /** Cut at every line feed; a carriage return before the feed goes with it. */
  function SplitLines(input: string): seq<string> {
    DropReturns(SplitOn(input, '\n'))
  }

  function DropReturns(lines: seq<string>): seq<string> {
    if |lines| <= 1 then lines
    else [if EndsWith(lines[0], "\r") then lines[0][..|lines[0]| - 1] else lines[0]]
         + DropReturns(lines[1..])
  }

  predicate BareChar(c: char) {
    'A' <= c <= 'Z' || 'a' <= c <= 'z' || '0' <= c <= '9' || c == '_' || c == '-'
  }

  predicate BareKey(key: string) { key != "" && forall i :: 0 <= i < |key| ==> BareChar(key[i]) }

  datatype Line =
    | Blank
    | Header(name: string)
    | Pair(key: string, raw: string)
    | Bad

  /** What a line says, before any state is consulted. */
  function Classify(line: string): Line {
    var cleaned := Trim(Js, Uncommented(line));
    if cleaned == "" then Blank
    else if cleaned[0] == '[' then
      if StartsWith(cleaned, "[[") || !EndsWith(cleaned, "]") then Bad
      else Header(Trim(Js, cleaned[1..|cleaned| - 1]))
    else
      var at := EqualsIndex(cleaned);
      if at <= 0 then Bad
      else
        var key := Trim(Js, cleaned[..at]);
        if '.' in key || !BareKey(key) then Bad
        else Pair(key, Trim(Js, cleaned[at + 1..]))
  }

  function TrimAll(parts: seq<string>): seq<string> {
    seq(|parts|, i requires 0 <= i < |parts| => Trim(Js, parts[i]))
  }

  function SectionPath(name: string): seq<string> {
    TrimAll(SplitOn(name, '.'))
  }

  // ---- Nested records as values

  /** The one name whose assignment would replace a record's prototype; not modelled. */
  const PROTO := "__proto__"

  /** Names every record answers to without owning them; all but `PROTO` name functions. */
  const INHERITED: set<string> := {
    PROTO, "constructor", "toString", "toLocaleString", "valueOf", "hasOwnProperty",
    "isPrototypeOf", "propertyIsEnumerable", "__defineGetter__", "__defineSetter__",
    "__lookupGetter__", "__lookupSetter__"
  }

  /** The record at the end of a path, if every step is a record. */
  function At(m: Record, path: seq<string>): Option<Record>
    decreases path
  {
    if path == [] then Some(m)
    else if path[0] in m && m[path[0]].Rec? then At(m[path[0]].fields, path[1..])
    else None
  }

  /** The nested record with one field of the record at `path` set. */
  function Put(m: Record, path: seq<string>, key: string, v: Value): Record
    requires At(m, path).Some?
    decreases path
  {
    if path == [] then m[key := v]
    else m[path[0] := Rec(Put(m[path[0]].fields, path[1..], key, v))]
  }

  /** The path's missing sections created; none when a step is taken by something else. */
  function Ensure(m: Record, path: seq<string>): (r: Option<Record>)
    decreases |path|
    ensures r.Some? ==> At(r.value, path).Some?
  {
    if path == [] then Some(m)
    else
      var before, name := path[..|path| - 1], path[|path| - 1];
      var m1 :- Ensure(m, before);
      var here := At(m1, before).value;
      if name in here then
        if here[name].Rec? then
          AtSnoc(m1, before, name);
          assert before + [name] == path;
          Some(m1)
        else None
      else if name in INHERITED then None
      else
        PutThenAt(m1, before, name, Rec(map[]));
        AtSnoc(Put(m1, before, name, Rec(map[])), before, name);
        assert before + [name] == path;
        Some(Put(m1, before, name, Rec(map[])))
  }

  lemma {:induction false} AtSnoc(m: Record, path: seq<string>, name: string)
    requires At(m, path).Some?
    ensures At(m, path + [name]) ==
            var here := At(m, path).value;
            if name in here && here[name].Rec? then Some(here[name].fields) else None
    decreases path
  {
    if path == [] {
      assert (path + [name])[1..] == [];
    } else {
      assert (path + [name])[1..] == path[1..] + [name];
      AtSnoc(m[path[0]].fields, path[1..], name);
    }
  }

  lemma {:induction false} PutThenAt(m: Record, path: seq<string>, key: string, v: Value)
    requires At(m, path).Some?
    ensures At(Put(m, path, key, v), path) == Some(At(m, path).value[key := v])
    decreases path
  {
    if path != [] {
      PutThenAt(m[path[0]].fields, path[1..], key, v);
    }
  }

  // ---- The parser as a function

  datatype State = State(root: Record, active: seq<string>)

  function Step(st: State, line: string): Option<State> {
    StepLine(st, Classify(line))
  }

  function StepLine(st: State, line: Line): Option<State> {
    match line
    case Blank => Some(st)
    case Bad => None
    case Header(name) =>
      if name == "" then None
      else
        var root :- Ensure(st.root, SectionPath(name));
        Some(State(root, SectionPath(name)))
    case Pair(key, raw) =>
      var root :- Ensure(st.root, st.active);
      if key in At(root, st.active).value || key == PROTO then None
      else
        var v :- ParseValue(raw);
        Some(State(Put(root, st.active, key, v), st.active))
  }

  function Run(st: State, lines: seq<string>): Option<State>
    decreases |lines|
  {
    if lines == [] then Some(st)
    else
      var next :- Step(st, lines[0]);
      Run(next, lines[1..])
  }

  const START := State(map[], [])

  /** The nested record a TOML text stands for; none when the parser refuses it. */
  function Document(input: string): Option<Record> {
    var st :- Run(START, SplitLines(input));
    Some(st.root)
  }

  lemma {:induction false} RunConcat(st: State, a: seq<string>, b: seq<string>)
    ensures Run(st, a + b) ==
            match Run(st, a) case None => None case Some(mid) => Run(mid, b)
    decreases a
  {
    if a == [] {
      assert a + b == b;
    } else {
      assert (a + b)[1..] == a[1..] + b;
      if Step(st, a[0]).Some? {
        RunConcat(Step(st, a[0]).value, a[1..], b);
      }
    }
  }
}
