/** What the order census collects of a file, stated on the rows of the frozen table. */
module CensusMeaning {
  import opened Text
  import opened OrderCensus

  // ---- Paths

  /** No rule before the `i`-th has a prefix of the path. */
  predicate NoneBefore(table: seq<(string, string)>, path: string, i: nat) {
    i <= |table| && forall j :: 0 <= j < i ==> !(table[j].0 <= path)
  }

  /** The first rule whose prefix the path has replaces that prefix; without such a rule the path stays. */
  lemma {:induction false} MapPathMeans(table: seq<(string, string)>, path: string, i: nat)
    requires NoneBefore(table, path, i)
    ensures i == |table| ==> MapPath(table, path) == path
    ensures i < |table| && table[i].0 <= path ==> MapPath(table, path) == table[i].1 + path[|table[i].0|..]
    decreases i
  {
    if i > 0 {
      var rest := table[1..];
      assert forall j :: 0 <= j < |rest| ==> rest[j] == table[j + 1];
      MapPathMeans(rest, path, i - 1);
    }
  }

  // ---- Surviving rows

  /** A row survives as this text: kept as it was, or as it was rewritten; an introduced row and a row of no
      line survive as nothing. */
  predicate SurvivesAs(r: Row, text: string) {
    && r.disposition != "introduced" && r.line != 0
    && (if "kept" <= r.disposition then text == r.content else r.rewritten == Some(text))
  }

  ghost predicate Survives(rows: seq<Row>, i: nat, table: seq<(string, string)>, excluded: set<string>)
    requires i < |rows|
  {
    MapPath(table, rows[i].path) !in excluded && exists text :: SurvivesAs(rows[i], text)
  }

  predicate SamePlace(a: Row, b: Row) { a.path == b.path && a.line == b.line }

  /** A row is collected under a file: it survives there, and no row before it survives from the same place. */
  ghost predicate Collected(rows: seq<Row>, i: nat, table: seq<(string, string)>, excluded: set<string>, file: string)
    requires i < |rows|
  {
    && Survives(rows, i, table, excluded) && MapPath(table, rows[i].path) == file
    && forall j :: 0 <= j < i && SamePlace(rows[j], rows[i]) ==> !Survives(rows, j, table, excluded)
  }

  /** The entries are the collected rows in table order, each with its line and its surviving text. */
  ghost predicate EntriesAre(rows: seq<Row>, table: seq<(string, string)>, excluded: set<string>, file: string,
                             es: seq<Entry>, from: seq<nat>) {
    && |from| == |es|
    && (forall k :: 0 <= k < |es| ==> from[k] < |rows| && Collected(rows, from[k], table, excluded, file)
                                      && rows[from[k]].line == es[k].line && SurvivesAs(rows[from[k]], es[k].content))
    && (forall k, m :: 0 <= k < m < |from| ==> from[k] < from[m])
    && forall i :: 0 <= i < |rows| && Collected(rows, i, table, excluded, file) ==> i in from
  }

  lemma SurvivorMeans(r: Row, text: string)
    ensures Survivor(r) == Some(text) <==> SurvivesAs(r, text)
  {
  }

  lemma SurvivesMeans(rows: seq<Row>, i: nat, table: seq<(string, string)>, excluded: set<string>)
    requires i < |rows|
    ensures Survives(rows, i, table, excluded) <==> Survivor(rows[i]).Some? && MapPath(table, rows[i].path) !in excluded
  {
    hide MapPath;
    if Survivor(rows[i]).Some? {
      SurvivorMeans(rows[i], Survivor(rows[i]).value);
    }
    if text :| SurvivesAs(rows[i], text) {
      SurvivorMeans(rows[i], text);
    }
  }

  /** The places seen among the first rows. */
  ghost predicate SeenAre(rows: seq<Row>, k: nat, table: seq<(string, string)>, excluded: set<string>, seen: set<Source>)
    requires k <= |rows|
  {
    forall s :: s in seen <==>
      exists j :: 0 <= j < k && rows[j].path == s.path && rows[j].line == s.line && Survives(rows, j, table, excluded)
  }

  /** Entries of the rows from `k` on. */
  ghost predicate FromAre(rows: seq<Row>, k: nat, table: seq<(string, string)>, excluded: set<string>, file: string,
                          es: seq<Entry>, from: seq<nat>)
    requires k <= |rows|
  {
    && |from| == |es|
    && (forall n :: 0 <= n < |es| ==> Picked(rows, k, table, excluded, file, es[n], from[n]))
    && (forall n, m :: 0 <= n < m < |from| ==> from[n] < from[m])
    && forall i :: k <= i < |rows| && Collected(rows, i, table, excluded, file) ==> i in from
  }

  ghost predicate Picked(rows: seq<Row>, k: nat, table: seq<(string, string)>, excluded: set<string>, file: string, e: Entry, i: nat) {
    k <= i < |rows| && Collected(rows, i, table, excluded, file) && rows[i].line == e.line && SurvivesAs(rows[i], e.content)
  }

  /** What happens to one row. */
  lemma RowIsMet(rows: seq<Row>, k: nat, table: seq<(string, string)>, excluded: set<string>, file: string, seen: set<Source>)
    requires k < |rows| && SeenAre(rows, k, table, excluded, seen)
    ensures var r := rows[k];
            var skipped := Survivor(r) == None || MapPath(table, r.path) in excluded || Source(r.path, r.line) in seen;
            && (skipped ==> SeenAre(rows, k + 1, table, excluded, seen) && !Collected(rows, k, table, excluded, file))
            && (!skipped ==> SeenAre(rows, k + 1, table, excluded, seen + {Source(r.path, r.line)}))
            && (!skipped ==> (Collected(rows, k, table, excluded, file) <==> MapPath(table, r.path) == file))
  {
    hide MapPath, Survivor, Survives;
    SurvivesMeans(rows, k, table, excluded);
    var r := rows[k];
    var here := Source(r.path, r.line);
    forall j | 0 <= j < k && SamePlace(rows[j], r) && Survives(rows, j, table, excluded) ensures here in seen {
    }
    if here in seen {
      var j :| 0 <= j < k && rows[j].path == here.path && rows[j].line == here.line && Survives(rows, j, table, excluded);
      assert SamePlace(rows[j], r);
    }
    SeenGrows(rows, k, table, excluded, seen);
  }

  lemma SeenGrows(rows: seq<Row>, k: nat, table: seq<(string, string)>, excluded: set<string>, seen: set<Source>)
    requires k < |rows| && SeenAre(rows, k, table, excluded, seen)
    ensures var here := Source(rows[k].path, rows[k].line);
            && (!Survives(rows, k, table, excluded) || here in seen ==> SeenAre(rows, k + 1, table, excluded, seen))
            && (Survives(rows, k, table, excluded) ==> SeenAre(rows, k + 1, table, excluded, seen + {here}))
  {
    hide Survives;
    var here := Source(rows[k].path, rows[k].line);
    var more := if Survives(rows, k, table, excluded) then seen + {here} else seen;
    forall s ensures s in more <==>
        exists j :: 0 <= j < k + 1 && rows[j].path == s.path && rows[j].line == s.line && Survives(rows, j, table, excluded)
    {
      if s in seen {
        var j :| 0 <= j < k && rows[j].path == s.path && rows[j].line == s.line && Survives(rows, j, table, excluded);
      }
      if s == here && Survives(rows, k, table, excluded) {
        assert rows[k].path == s.path;
      }
    }
    assert here in seen ==> seen + {here} == seen;
  }

  lemma {:induction false} GatherFrom(rows: seq<Row>, k: nat, table: seq<(string, string)>, excluded: set<string>, file: string,
                                      seen: set<Source>) returns (from: seq<nat>)
    requires k <= |rows| && SeenAre(rows, k, table, excluded, seen)
    ensures FromAre(rows, k, table, excluded, file, Gather(rows[k..], seen, table, excluded, file), from)
    decreases |rows| - k
  {
    hide Gather, MapPath, Survivor, SurvivesAs, Collected, SeenAre, FromAre;
    if k == |rows| {
      from := [];
      NothingGathered(rows, table, excluded, file, seen);
    } else {
      var r := rows[k];
      GatherStep(rows, k, seen, table, excluded, file);
      RowIsMet(rows, k, table, excluded, file, seen);
      if Survivor(r) == None || MapPath(table, r.path) in excluded || Source(r.path, r.line) in seen {
        from := GatherFrom(rows, k + 1, table, excluded, file, seen);
        SkipsOne(rows, k, table, excluded, file, Gather(rows[k + 1..], seen, table, excluded, file), from);
      } else {
        var more := seen + {Source(r.path, r.line)};
        from := GatherFrom(rows, k + 1, table, excluded, file, more);
        var es := Gather(rows[k + 1..], more, table, excluded, file);
        if MapPath(table, r.path) == file {
          SurvivorMeans(r, Survivor(r).value);
          TakesOne(rows, k, table, excluded, file, es, from, Entry(r.line, Survivor(r).value));
          from := [k] + from;
        } else {
          SkipsOne(rows, k, table, excluded, file, es, from);
          assert [] + es == es;
        }
      }
    }
  }

  lemma NothingGathered(rows: seq<Row>, table: seq<(string, string)>, excluded: set<string>, file: string, seen: set<Source>)
    ensures FromAre(rows, |rows|, table, excluded, file, Gather(rows[|rows|..], seen, table, excluded, file), [])
  {
  }

  lemma SkipsOne(rows: seq<Row>, k: nat, table: seq<(string, string)>, excluded: set<string>, file: string, es: seq<Entry>, from: seq<nat>)
    requires k < |rows| && FromAre(rows, k + 1, table, excluded, file, es, from) && !Collected(rows, k, table, excluded, file)
    ensures FromAre(rows, k, table, excluded, file, es, from)
  {
    hide Collected, SurvivesAs;
    forall n | 0 <= n < |es| ensures Picked(rows, k, table, excluded, file, es[n], from[n]) {
      assert Picked(rows, k + 1, table, excluded, file, es[n], from[n]);
    }
  }

  lemma TakesOne(rows: seq<Row>, k: nat, table: seq<(string, string)>, excluded: set<string>, file: string, es: seq<Entry>, from: seq<nat>, e: Entry)
    requires k < |rows| && FromAre(rows, k + 1, table, excluded, file, es, from)
    requires Collected(rows, k, table, excluded, file) && rows[k].line == e.line && SurvivesAs(rows[k], e.content)
    ensures FromAre(rows, k, table, excluded, file, [e] + es, [k] + from)
  {
    hide Collected, SurvivesAs;
    var all, places := [e] + es, [k] + from;
    forall n | 0 <= n < |all| ensures Picked(rows, k, table, excluded, file, all[n], places[n]) {
      if n > 0 {
        assert Picked(rows, k + 1, table, excluded, file, es[n - 1], from[n - 1]);
      }
    }
    forall n, m | 0 <= n < m < |places| ensures places[n] < places[m] {
      assert Picked(rows, k + 1, table, excluded, file, es[m - 1], from[m - 1]);
      assert n > 0 ==> from[n - 1] < from[m - 1];
    }
    forall i | k <= i < |rows| && Collected(rows, i, table, excluded, file) ensures i in places {
      assert i > k ==> i in from;
    }
  }

  /** What is collected of a file is exactly its surviving rows in table order, the first from each place. */
  lemma GatherMeans(rows: seq<Row>, table: seq<(string, string)>, excluded: set<string>, file: string) returns (from: seq<nat>)
    ensures EntriesAre(rows, table, excluded, file, Gather(rows, {}, table, excluded, file), from)
  {
    hide Gather, Collected, SurvivesAs;
    NoneSeen(rows, table, excluded);
    from := GatherFrom(rows, 0, table, excluded, file, {});
    assert rows[0..] == rows;
    var es := Gather(rows, {}, table, excluded, file);
    forall k | 0 <= k < |es|
      ensures from[k] < |rows| && Collected(rows, from[k], table, excluded, file)
      ensures rows[from[k]].line == es[k].line && SurvivesAs(rows[from[k]], es[k].content)
    {
      assert Picked(rows, 0, table, excluded, file, es[k], from[k]);
    }
  }

  lemma NoneSeen(rows: seq<Row>, table: seq<(string, string)>, excluded: set<string>)
    ensures SeenAre(rows, 0, table, excluded, {})
  {
  }
}
