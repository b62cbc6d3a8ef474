/** When a contract of any status is clean, and what its rows are, stated on its lines. */
module ContractClean {
  import opened Text
  import BubbleConfig
  import opened ContractDraft

  // ---- Rows

  ghost predicate Digits(ds: string) { ds != "" && forall i :: 0 <= i < |ds| ==> '0' <= ds[i] <= '9' }

  /** A bar, the id between white space, a bar. */
  ghost predicate RowOf(line: string, id: string) {
    exists a, ds, z, rest :: Spells(line, id, a, ds, z, rest)
  }

  ghost predicate Spells(line: string, id: string, a: string, ds: string, z: string, rest: string) {
    OnlySpace(Py, a) && Digits(ds) && OnlySpace(Py, z) && id == "C" + ds && line == "|" + a + "C" + ds + z + "|" + rest
  }

  lemma {:induction false} DigitsRun(ds: string, rest: string)
    requires (forall i :: 0 <= i < |ds| ==> '0' <= ds[i] <= '9') && (rest == "" || !('0' <= rest[0] <= '9'))
    ensures DigitRun(ds + rest) == |ds|
    decreases ds
  {
    if ds == "" {
      assert ds + rest == rest;
    } else {
      assert (ds + rest)[1..] == ds[1..] + rest;
      DigitsRun(ds[1..], rest);
    }
  }

  lemma {:induction false} RunOfDigits(s: string)
    ensures forall i :: 0 <= i < DigitRun(s) ==> '0' <= s[i] <= '9'
  {
    if s != "" && BubbleConfig.Digit(s[0]) {
      RunOfDigits(s[1..]);
    }
  }

  lemma SpaceIsNoDigit(z: string, rest: string)
    requires OnlySpace(Py, z)
    ensures z + "|" + rest != "" && !('0' <= (z + "|" + rest)[0] <= '9')
  {
  }

  lemma SpelledRow(line: string, id: string, a: string, ds: string, z: string, rest: string)
    requires Spells(line, id, a, ds, z, rest)
    ensures RowId(line) == Some(id)
  {
    var cell := "C" + ds + z + "|" + rest;
    var after := z + "|" + rest;
    assert line == "|" + (a + cell) && line[1..] == a + cell;
    TrimStartDrops(Py, a, cell);
    VisibleStart(cell);
    assert cell[1..] == ds + after && cell[..1 + |ds|] == "C" + ds && cell[1 + |ds|..] == after;
    SpaceIsNoDigit(z, rest);
    DigitsRun(ds, after);
    assert after == z + ("|" + rest);
    TrimStartDrops(Py, z, "|" + rest);
    VisibleStart("|" + rest);
    hide TrimStart, DigitRun, OnlySpace;
  }

  lemma VisibleStart(s: string)
    requires s != "" && s[0] in {'C', '|'}
    ensures TrimStart(Py, s) == s
  {
  }

  lemma LeadingSpaceOff(s: string) returns (a: string)
    ensures OnlySpace(Py, a) && s == a + TrimStart(Py, s)
  {
    LeadingSpace(Py, s);
    TrimStartSuffix(Py, s);
    a := s[..|s| - |TrimStart(Py, s)|];
  }

  lemma ReadRow(line: string, id: string)
    requires RowId(line) == Some(id)
    ensures RowOf(line, id)
  {
    var cell := TrimStart(Py, line[1..]);
    var a := LeadingSpaceOff(line[1..]);
    var n := DigitRun(cell[1..]);
    RunOfDigits(cell[1..]);
    var z := LeadingSpaceOff(cell[1 + n..]);
    var after := TrimStart(Py, cell[1 + n..]);
    var ds := cell[1..1 + n];
    assert after == "|" + after[1..];
    assert cell == "C" + ds + cell[1 + n..];
    assert cell[..1 + n] == "C" + ds;
    hide TrimStart, DigitRun, RowOf;
    assert line == "|" + line[1..];
    Joined(a, ds, z, after[1..]);
    assert Digits(ds);
    assert Spells(line, id, a, ds, z, after[1..]);
    RowSpelled(line, id, a, ds, z, after[1..]);
  }

  lemma RowSpelled(line: string, id: string, a: string, ds: string, z: string, rest: string)
    requires Spells(line, id, a, ds, z, rest)
    ensures RowOf(line, id)
  {
  }

  lemma Joined(a: string, ds: string, z: string, rest: string)
    ensures "|" + (a + ("C" + ds + (z + ("|" + rest)))) == "|" + a + "C" + ds + z + "|" + rest
  {
  }

  /** A line is a row under an id exactly when its first cell is that id. */
  lemma RowMeans(line: string, id: string)
    ensures RowId(line) == Some(id) <==> RowOf(line, id)
  {
    hide RowId, Spells;
    if RowId(line) == Some(id) {
      ReadRow(line, id);
    }
    if RowOf(line, id) {
      var a, ds, z, rest :| Spells(line, id, a, ds, z, rest);
      SpelledRow(line, id, a, ds, z, rest);
    }
  }

  /** The rows are the row lines, in order. */
  lemma {:induction false} RowsMean(lines: seq<string>, k: nat)
    requires k <= |lines|
    ensures Rows(lines) == Rows(lines[..k]) + Rows(lines[k..])
    ensures k < |lines| ==> Rows(lines[k..k + 1]) == if RowId(lines[k]).Some? then [lines[k]] else []
    decreases lines
  {
    hide RowId;
    if k > 0 {
      RowsMean(lines[1..], k - 1);
      assert lines[..k][1..] == lines[1..][..k - 1] && lines[k..] == lines[1..][k - 1..];
      assert k < |lines| ==> lines[k..k + 1] == lines[1..][k - 1..k];
    } else {
      assert lines[0..] == lines;
      assert k < |lines| ==> lines[k..k + 1][1..] == [];
    }
  }

  // ---- The other statuses

  /** A clean draft: sound rows, nothing ratified, no map. */
  lemma DraftIsClean(c: Contract, repo: Repository)
    requires c.status == "draft"
    ensures CheckDraft(c, repo) == {} <==> GoodRows(Rows(c.lines)) && c.ratifications == [] && c.maps == []
  {
    hide Rows, Surface, DistinctRows, NoZeroRows, GoodRatification, DatesInOrder, IdSet, KeysOf, DistinctKeys, Landed, Parsed;
    ParsedWhole(c.maps);
    RatificationsClean(c.ratifications);
    NoDates();
  }

  lemma NoDates()
    ensures DatesInOrder([])
  {
  }

  /** A clean ratified or superseded contract: sound rows, a sound history whose last commit holds exactly
      these rows, and no map. */
  lemma BoundIsClean(c: Contract, repo: Repository)
    requires c.status in {"ratified", "superseded"}
    ensures CheckDraft(c, repo) == {} <==>
            GoodRows(Rows(c.lines)) && Rows(c.lines) != [] && GoodHistory(c.ratifications) && Recorded(c, repo) && c.maps == []
  {
    hide Rows, Surface, DistinctRows, NoZeroRows, GoodRatification, DatesInOrder, IdSet, KeysOf, DistinctKeys, Landed, Parsed;
    ParsedWhole(c.maps);
    RatificationsClean(c.ratifications);
    if c.ratifications != [] && GoodRatification(c.ratifications[|c.ratifications| - 1]) {
      GoodHasSha(c.ratifications[|c.ratifications| - 1]);
    }
  }

  /** Any other status is the one thing complained of. */
  lemma OtherStatusIsRefused(c: Contract, repo: Repository)
    ensures CheckDraft(c, repo) == {BadStatus} <==> c.status !in {"draft", "ratified", "reopened", "realized", "superseded"}
  {
    hide DistinctRows, NoZeroRows, RatificationComplaints, DatesInOrder, EqualityComplaints, MapComplaints;
    NoBadStatus(c, repo);
  }

  lemma NoBadStatus(c: Contract, repo: Repository)
    ensures BadStatus !in RatificationComplaints(c.ratifications) && BadStatus !in EqualityComplaints(c, repo)
    ensures BadStatus !in MapComplaints(c)
  {
  }
}
