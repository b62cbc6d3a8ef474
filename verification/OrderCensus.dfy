/** The order census of a migration: the lines that survive must stand in the post-tree file in their
    frozen order, found greedily. */
module OrderCensus {
  import opened Text

  // ---- Greedy placing and subsequences

  /** The first place of a line at or after a position. */
  function FirstAt(lines: seq<string>, content: string, pos: nat): (r: Option<nat>)
    requires pos <= |lines|
    ensures r.Some? ==> pos <= r.value < |lines| && lines[r.value] == content
    ensures r.Some? ==> forall i :: pos <= i < r.value ==> lines[i] != content
    ensures r.None? ==> forall i :: pos <= i < |lines| ==> lines[i] != content
    decreases |lines| - pos
  {
    if pos == |lines| then Option<nat>.None
    else if lines[pos] == content then Some(pos)
    else FirstAt(lines, content, pos + 1)
  }

  /** Each content placed at its first occurrence after the one before. */
  function Places(contents: seq<string>, lines: seq<string>, pos: nat): Option<seq<nat>>
    requires pos <= |lines|
    decreases contents
  {
    if contents == [] then Some([])
    else
      match FirstAt(lines, contents[0], pos)
      case None => None
      case Some(i) =>
        var rest :- Places(contents[1..], lines, i + 1);
        Some([i] + rest)
  }

  /** Increasing places from a position on that hold the contents in order. */
  predicate Embeds(contents: seq<string>, lines: seq<string>, pos: nat, places: seq<nat>) {
    && |places| == |contents|
    && (forall i :: 0 <= i < |places| ==> pos <= places[i] < |lines| && lines[places[i]] == contents[i])
    && forall i, j :: 0 <= i < j < |places| ==> places[i] < places[j]
  }

  ghost predicate IsSubsequence(contents: seq<string>, lines: seq<string>) {
    exists places :: Embeds(contents, lines, 0, places)
  }

  lemma {:induction false} PlacesEmbed(contents: seq<string>, lines: seq<string>, pos: nat)
    requires pos <= |lines| && Places(contents, lines, pos).Some?
    ensures Embeds(contents, lines, pos, Places(contents, lines, pos).value)
    decreases contents
  {
    if contents != [] {
      PlacesEmbed(contents[1..], lines, FirstAt(lines, contents[0], pos).value + 1);
    }
  }

  /** If the contents can be placed at all, placing each as early as possible succeeds. */
  lemma {:induction false} EarliestSucceeds(contents: seq<string>, lines: seq<string>, pos: nat, places: seq<nat>)
    requires pos <= |lines| && Embeds(contents, lines, pos, places)
    ensures Places(contents, lines, pos).Some?
    decreases contents
  {
    if contents != [] {
      var first := FirstAt(lines, contents[0], pos);
      assert lines[places[0]] == contents[0];
      assert first.value <= places[0];
      EarliestSucceeds(contents[1..], lines, first.value + 1, places[1..]);
    }
  }

  /** The greedy check passes exactly for subsequences. */
  lemma GreedyIsExact(contents: seq<string>, lines: seq<string>)
    ensures Places(contents, lines, 0).Some? <==> IsSubsequence(contents, lines)
  {
    if Places(contents, lines, 0).Some? {
      PlacesEmbed(contents, lines, 0);
    }
    if IsSubsequence(contents, lines) {
      var places :| Embeds(contents, lines, 0, places);
      EarliestSucceeds(contents, lines, 0, places);
    }
  }

  /** Contents that can be placed occur at least as often as they are wanted. */
  lemma {:induction false} PlacedOccur(contents: seq<string>, lines: seq<string>, pos: nat)
    requires pos <= |lines| && Places(contents, lines, pos).Some?
    ensures multiset(contents) <= multiset(lines[pos..])
    decreases contents
  {
    hide FirstAt;
    if contents != [] {
      var i := FirstAt(lines, contents[0], pos).value;
      PlacedOccur(contents[1..], lines, i + 1);
      OneMoreOccurs(contents, lines, pos, i);
    }
  }

  lemma OneMoreOccurs(contents: seq<string>, lines: seq<string>, pos: nat, i: nat)
    requires contents != [] && pos <= i < |lines| && lines[i] == contents[0]
    requires multiset(contents[1..]) <= multiset(lines[i + 1..])
    ensures multiset(contents) <= multiset(lines[pos..])
  {
    assert contents == [contents[0]] + contents[1..];
    assert lines[pos..] == lines[pos..i] + ([lines[i]] + lines[i + 1..]);
  }

  // ---- The frozen table

  datatype Row = Row(path: string, line: nat, disposition: string, content: string, rewritten: Option<string>)

  datatype Entry = Entry(line: nat, content: string)

  /** The first rule whose old prefix fits. */
  function MapPath(table: seq<(string, string)>, path: string): string {
    if table == [] then path
    else if StartsWith(path, table[0].0) then table[0].1 + path[|table[0].0|..]
    else MapPath(table[1..], path)
  }

  /** What survives of a row in the post tree. */
  function Survivor(r: Row): Option<string> {
    if r.disposition == "introduced" || r.line == 0 then None
    else if StartsWith(r.disposition, "kept") then Some(r.content)
    else r.rewritten
  }

  datatype Source = Source(path: string, line: nat)

  /** The surviving entries of one file, one for each source line. */
  function Gather(rows: seq<Row>, seen: set<Source>, table: seq<(string, string)>, excluded: set<string>, file: string): seq<Entry>
    decreases rows
  {
    if rows == [] then []
    else
      var r := rows[0];
      var target, survivor, key := MapPath(table, r.path), Survivor(r), Source(r.path, r.line);
      if survivor == None || target in excluded || key in seen then Gather(rows[1..], seen, table, excluded, file)
      else (if target == file then [Entry(r.line, survivor.value)] else [])
           + Gather(rows[1..], seen + {key}, table, excluded, file)
  }

  // ---- Sorting by line, stably

  function Insert(e: Entry, sorted: seq<Entry>): seq<Entry> {
    if sorted == [] || e.line <= sorted[0].line then [e] + sorted else [sorted[0]] + Insert(e, sorted[1..])
  }

  function ByLine(es: seq<Entry>): seq<Entry> {
    if es == [] then [] else Insert(es[0], ByLine(es[1..]))
  }

  predicate Ascending(es: seq<Entry>) { forall i, j :: 0 <= i < j < |es| ==> es[i].line <= es[j].line }

  lemma {:induction false} InsertMultiset(e: Entry, sorted: seq<Entry>)
    ensures multiset(Insert(e, sorted)) == multiset(sorted) + multiset{e}
    decreases sorted
  {
    if sorted != [] && e.line > sorted[0].line {
      InsertMultiset(e, sorted[1..]);
      assert sorted == [sorted[0]] + sorted[1..];
    }
  }

  lemma {:induction false} InsertAscends(e: Entry, sorted: seq<Entry>)
    requires Ascending(sorted)
    ensures Ascending(Insert(e, sorted))
    decreases sorted
  {
    if sorted != [] && e.line > sorted[0].line {
      var rest := Insert(e, sorted[1..]);
      InsertAscends(e, sorted[1..]);
      InsertMultiset(e, sorted[1..]);
      hide Insert;
      forall x: Entry | x in multiset(rest) ensures sorted[0].line <= x.line {
        assert x == e || x in sorted[1..];
      }
      AscendsAfter(sorted[0], rest);
    }
  }

  lemma AscendsAfter(first: Entry, rest: seq<Entry>)
    requires Ascending(rest) && forall x: Entry :: x in multiset(rest) ==> first.line <= x.line
    ensures Ascending([first] + rest)
  {
    forall j | 0 <= j < |rest| ensures first.line <= rest[j].line {
      assert rest[j] in multiset(rest);
    }
  }

  lemma {:induction false} InsertSelects(e: Entry, sorted: seq<Entry>, n: nat)
    requires Ascending(sorted)
    ensures Select(Insert(e, sorted), n) == if n == e.line then [e] + Select(sorted, n) else Select(sorted, n)
    decreases sorted
  {
    if sorted == [] || e.line <= sorted[0].line {
      assert ([e] + sorted)[1..] == sorted;
    } else {
      InsertSelects(e, sorted[1..], n);
      assert ([sorted[0]] + Insert(e, sorted[1..]))[1..] == Insert(e, sorted[1..]);
      if n == e.line {
        assert Select(sorted, n) == Select(sorted[1..], n);
      }
    }
  }

  /** The entries of one line, in order. */
  function Select(es: seq<Entry>, n: nat): seq<Entry> {
    if es == [] then [] else (if es[0].line == n then [es[0]] else []) + Select(es[1..], n)
  }

  /** Sorting is a stable arrangement of the same entries by line. */
  lemma {:induction false} ByLineSorts(es: seq<Entry>)
    ensures Ascending(ByLine(es)) && multiset(ByLine(es)) == multiset(es)
    ensures forall n: nat :: Select(ByLine(es), n) == Select(es, n)
    decreases es
  {
    hide Insert;
    if es != [] {
      ByLineSorts(es[1..]);
      var sorted := ByLine(es[1..]);
      InsertMultiset(es[0], sorted);
      InsertAscends(es[0], sorted);
      assert es == [es[0]] + es[1..];
      forall n: nat ensures Select(ByLine(es), n) == Select(es, n) {
        InsertSelects(es[0], sorted, n);
      }
    }
  }

  function Contents(es: seq<Entry>): seq<string> {
    seq(|es|, i requires 0 <= i < |es| => es[i].content)
  }

  // ---- The check

  /** A file's order is kept: its survivors, by line, are a subsequence of its post-tree lines. */
  ghost predicate OrderKept(es: seq<Entry>, lines: seq<string>) {
    IsSubsequence(Contents(ByLine(es)), lines)
  }

  method CheckFile(es: seq<Entry>, lines: seq<string>) returns (ok: bool)
    ensures ok <==> OrderKept(es, lines)
  {
    hide FirstAt;
    var order := ByLine(es);
    var contents := Contents(order);
    GreedyIsExact(contents, lines);
    var pos: nat := 0;
    assert contents[0..] == contents;
    for k := 0 to |order|
      invariant pos <= |lines|
      invariant Places(contents, lines, 0).Some? <==> Places(contents[k..], lines, pos).Some?
    {
      assert contents[k..][0] == order[k].content && contents[k..][1..] == contents[k + 1..];
      var found := FindFrom(lines, order[k].content, pos);
      if found < 0 {
        return false;
      }
      pos := found + 1;
    }
    return true;
  }

  method FindFrom(lines: seq<string>, content: string, pos: nat) returns (found: int)
    requires pos <= |lines|
    ensures found == if FirstAt(lines, content, pos).Some? then FirstAt(lines, content, pos).value else -1
  {
    found := -1;
    for i := pos to |lines|
      invariant FirstAt(lines, content, pos) == FirstAt(lines, content, i)
    {
      if lines[i] == content {
        return i;
      }
    }
  }

  lemma GatherStep(rows: seq<Row>, k: nat, seen: set<Source>, table: seq<(string, string)>, excluded: set<string>, file: string)
    requires k < |rows|
    ensures var r := rows[k];
            var target, survivor, key := MapPath(table, r.path), Survivor(r), Source(r.path, r.line);
            Gather(rows[k..], seen, table, excluded, file) ==
            if survivor == None || target in excluded || key in seen then Gather(rows[k + 1..], seen, table, excluded, file)
            else (if target == file then [Entry(r.line, survivor.value)] else [])
                 + Gather(rows[k + 1..], seen + {key}, table, excluded, file)
  {
    hide MapPath, Survivor;
    assert rows[k..][1..] == rows[k + 1..];
  }

  /** What the map holds for a file, followed by what is still to come. */
  function Held(order: map<string, seq<Entry>>, file: string): seq<Entry> {
    if file in order then order[file] else []
  }

  /** One pass over the table fills the entries of every file. */
  method GatherAll(rows: seq<Row>, table: seq<(string, string)>, excluded: set<string>) returns (order: map<string, seq<Entry>>)
    ensures forall file :: Gather(rows, {}, table, excluded, file) == Held(order, file)
    ensures forall file :: file in order ==> order[file] != []
  {
    hide Gather, MapPath, Survivor;
    order := map[];
    var seen: set<Source> := {};
    assert rows[0..] == rows;
    forall file: string ensures Gather(rows, {}, table, excluded, file) == Held(order, file) + Gather(rows, seen, table, excluded, file) {
      assert [] + Gather(rows, seen, table, excluded, file) == Gather(rows, seen, table, excluded, file);
    }
    for k := 0 to |rows|
      invariant forall file :: Gather(rows, {}, table, excluded, file) ==
                  Held(order, file) + Gather(rows[k..], seen, table, excluded, file)
      invariant forall file :: file in order ==> order[file] != []
    {
      var row := rows[k];
      var target, survivor, key := MapPath(table, row.path), Survivor(row), Source(row.path, row.line);
      ghost var before := order;
      forall file: string
        ensures Gather(rows[k..], seen, table, excluded, file) ==
                if survivor == None || target in excluded || key in seen then Gather(rows[k + 1..], seen, table, excluded, file)
                else (if target == file then [Entry(row.line, survivor.value)] else [])
                     + Gather(rows[k + 1..], seen + {key}, table, excluded, file)
      {
        GatherStep(rows, k, seen, table, excluded, file);
      }
      if survivor == None || target in excluded || key in seen {
        continue;
      }
      seen := seen + {key};
      var more := Held(order, target) + [Entry(row.line, survivor.value)];
      order := order[target := more];
      forall file: string
        ensures Gather(rows, {}, table, excluded, file) == Held(order, file) + Gather(rows[k + 1..], seen, table, excluded, file)
      {
        MoreHeld(Held(before, file), Entry(row.line, survivor.value), Gather(rows[k + 1..], seen, table, excluded, file));
      }
    }
    NothingToGather(rows[|rows|..], seen, table, excluded);
  }

  lemma MoreHeld(held: seq<Entry>, e: Entry, rest: seq<Entry>)
    ensures held + ([e] + rest) == held + [e] + rest && held + ([] + rest) == held + rest
  {
  }

  lemma NothingToGather(rows: seq<Row>, seen: set<Source>, table: seq<(string, string)>, excluded: set<string>)
    requires rows == []
    ensures forall file, held: seq<Entry> :: held + Gather(rows, seen, table, excluded, file) == held
  {
  }

  /** The order check over the whole table: the files it complains of are those of which something survives,
      which can be read, and whose order is not kept. */
  method CheckOrder(rows: seq<Row>, table: seq<(string, string)>, excluded: set<string>, posts: map<string, seq<string>>)
    returns (errors: set<string>)
    ensures forall file :: file in errors <==>
              var es := Gather(rows, {}, table, excluded, file);
              es != [] && file in posts && !OrderKept(es, posts[file])
  {
    hide OrderKept, Gather;
    var order := GatherAll(rows, table, excluded);
    errors := {};
    var left := order.Keys;
    while left != {}
      invariant left <= order.Keys
      invariant forall file :: file in errors <==>
                  file in order.Keys - left && file in posts && !OrderKept(order[file], posts[file])
      decreases |left|
    {
      var file :| file in left;
      left := left - {file};
      if file in posts {
        var ok := CheckFile(order[file], posts[file]);
        if !ok {
          errors := errors + {file};
        }
      }
    }
  }

  /** A content frozen several times in a file that passes occurs there at least as many times. */
  lemma KeptAtLeastAsOften(es: seq<Entry>, lines: seq<string>, content: string)
    requires OrderKept(es, lines)
    ensures multiset(Contents(es))[content] <= multiset(lines)[content]
  {
    var order := Contents(ByLine(es));
    GreedyIsExact(order, lines);
    PlacedOccur(order, lines, 0);
    assert lines[0..] == lines;
    ByLineSorts(es);
    ContentsOfSame(ByLine(es), es);
  }

  function Without(es: seq<Entry>, i: nat): seq<Entry>
    requires i < |es|
  {
    es[..i] + es[i + 1..]
  }

  lemma WithoutCounts(es: seq<Entry>, i: nat)
    requires i < |es|
    ensures multiset(es) == multiset(Without(es, i)) + multiset{es[i]}
  {
    assert es == es[..i] + [es[i]] + es[i + 1..];
  }

  lemma WithoutContents(es: seq<Entry>, i: nat)
    requires i < |es|
    ensures multiset(Contents(es)) == multiset(Contents(Without(es, i))) + multiset{es[i].content}
  {
    assert Contents(es) == Contents(es[..i]) + [es[i].content] + Contents(es[i + 1..]);
    assert Contents(Without(es, i)) == Contents(es[..i]) + Contents(es[i + 1..]);
  }

  lemma {:induction false} ContentsOfSame(a: seq<Entry>, b: seq<Entry>)
    requires multiset(a) == multiset(b)
    ensures multiset(Contents(a)) == multiset(Contents(b))
    decreases |a|
  {
    hide Without, Contents;
    if a == [] {
      assert b == [] by { assert |b| == |multiset(b)| == |multiset(a)| == 0; }
    } else {
      assert a[0] in multiset(b);
      var i :| 0 <= i < |b| && b[i] == a[0];
      WithoutCounts(a, 0);
      WithoutCounts(b, i);
      assert multiset(Without(a, 0)) == multiset(a) - multiset{a[0]};
      assert multiset(Without(b, i)) == multiset(b) - multiset{b[i]};
      WithoutShrinks(a, 0);
      ContentsOfSame(Without(a, 0), Without(b, i));
      WithoutContents(a, 0);
      WithoutContents(b, i);
    }
  }

  lemma WithoutShrinks(es: seq<Entry>, i: nat)
    requires i < |es|
    ensures |Without(es, i)| == |es| - 1
  {
  }
}
