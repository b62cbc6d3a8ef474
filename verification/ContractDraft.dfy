/** A chapter contract as the draft check sees it: its status, its rows, its ratifications and its
    realized map, and the complaints the check raises. */
module ContractDraft {
  import opened Text
  import BubbleConfig

  datatype Ratification = Ratification(date: string, arms: seq<string>, commit: string)

  /** An entry of a realized map, in the text of its block. */
  datatype Landing = Landing(key: string, site: string)

  type Landings = seq<Landing>

  /** The lines outside fences, and the blocks inside; `maps` holds every realized map block. */
  datatype Contract = Contract(
    status: string, lines: seq<string>, ratifications: seq<Ratification>, maps: seq<Landings>)

  /** The row surface a recorded sha resolves to, for shas that name a commit with a readable draft. */
  type Repository = map<string, seq<string>>

  const STATUSES: set<string> := {"draft", "ratified", "reopened", "realized", "superseded"}
  const EQUALITY_BOUND: set<string> := {"ratified", "realized", "superseded"}

  datatype Complaint =
    | BadStatus | DuplicateRow | ZeroRow | BadRatification(index: nat) | DatesDecrease
    | DraftRatified | NotRatified | NoRows | RowsDiffer | Unresolvable | MapOnStatus | MapCount | MapCover | MapValue
    | DuplicateKey

  // ---- Rows

  function DigitRun(s: string): (n: nat)
    ensures n <= |s|
  {
    if s == "" || !BubbleConfig.Digit(s[0]) then 0 else 1 + DigitRun(s[1..])
  }

  /** The id in a row's first cell: a bar, white space, `C` and digits, white space, a bar. */
  function RowId(line: string): Option<string> {
    if line == "" || line[0] != '|' then None
    else
      var cell := TrimStart(Py, line[1..]);
      if cell == "" || cell[0] != 'C' then None
      else
        var n := DigitRun(cell[1..]);
        var after := TrimStart(Py, cell[1 + n..]);
        if n == 0 || after == "" || after[0] != '|' then None else Some(cell[..1 + n])
  }

  /** The table lines whose first cell is a row id. */
  function Rows(lines: seq<string>): (rows: seq<string>)
    ensures AllRows(rows)
  {
    if lines == [] then [] else (if RowId(lines[0]).Some? then [lines[0]] else []) + Rows(lines[1..])
  }

  /** The rows as they are compared: without trailing white space. */
  function Surface(lines: seq<string>): seq<string> {
    seq(|Rows(lines)|, i requires 0 <= i < |Rows(lines)| => TrimEnd(Py, Rows(lines)[i]))
  }

  predicate AllRows(rows: seq<string>) { forall i :: 0 <= i < |rows| ==> RowId(rows[i]).Some? }

  function Ids(rows: seq<string>): seq<string>
    requires AllRows(rows)
  {
    seq(|rows|, i requires 0 <= i < |rows| => RowId(rows[i]).value)
  }

  function IdSet(rows: seq<string>): set<string>
    requires AllRows(rows)
  {
    set id | id in Ids(rows)
  }

  predicate DistinctRows(rows: seq<string>)
    requires AllRows(rows)
  {
    forall i, j :: 0 <= i < j < |rows| ==> Ids(rows)[i] != Ids(rows)[j]
  }

  predicate NoZeroRows(rows: seq<string>)
    requires AllRows(rows)
  {
    forall i :: 0 <= i < |rows| ==> !StartsWith(Ids(rows)[i], "C0")
  }

  // ---- Ratifications

  /** Four digits, two digits, two digits, dashes between. */
  predicate DateShaped(s: string) {
    && |s| == 10 && BubbleConfig.DigitsAt(s, 0, 4) && s[4] == '-' && BubbleConfig.DigitsAt(s, 5, 7) && s[7] == '-'
    && BubbleConfig.DigitsAt(s, 8, 10)
  }

  /** A day of the calendar. */
  predicate CalendarDate(s: string) {
    && DateShaped(s)
    && BubbleConfig.NumberAt(s, 0, 4) >= 1
    && 1 <= BubbleConfig.NumberAt(s, 5, 7) <= 12
    && 1 <= BubbleConfig.NumberAt(s, 8, 10) <= BubbleConfig.DaysIn(BubbleConfig.NumberAt(s, 0, 4), BubbleConfig.NumberAt(s, 5, 7))
  }

  predicate Hex(c: char) { '0' <= c <= '9' || 'a' <= c <= 'f' }

  predicate Sha(s: string) { 7 <= |s| <= 40 && forall i :: 0 <= i < |s| ==> Hex(s[i]) }

  predicate FullSha(s: string) { |s| == 40 && forall i :: 0 <= i < |s| ==> Hex(s[i]) }

  predicate GoodArms(arms: seq<string>) {
    arms != [] && forall i :: 0 <= i < |arms| ==> Trim(Py, arms[i]) != ""
  }

  predicate GoodRatification(r: Ratification) {
    CalendarDate(r.date) && GoodArms(r.arms) && Sha(r.commit)
  }

  /** The order of strings. */
  predicate Earlier(a: string, b: string) {
    if b == "" then false
    else if a == "" then true
    else a[0] < b[0] || (a[0] == b[0] && Earlier(a[1..], b[1..]))
  }

  /** Dates of the right shape do not decrease from one block to the next. */
  predicate DatesInOrder(rs: seq<Ratification>) {
    forall i :: 0 <= i < |rs| - 1 && DateShaped(rs[i].date) && DateShaped(rs[i + 1].date) ==>
      !Earlier(rs[i + 1].date, rs[i].date)
  }

  // ---- The check

  function When(bad: bool, c: Complaint): set<Complaint> { if bad then {c} else {} }

  function RatificationComplaints(rs: seq<Ratification>): set<Complaint> {
    set i: nat | i < |rs| && !GoodRatification(rs[i]) :: BadRatification(i)
  }

  /** The latest ratification's recorded commit must hold the same rows. */
  function EqualityComplaints(c: Contract, repo: Repository): set<Complaint> {
    if c.status in EQUALITY_BOUND && c.ratifications != [] && Sha(c.ratifications[|c.ratifications| - 1].commit) then
      var sha := c.ratifications[|c.ratifications| - 1].commit;
      if sha !in repo then {Unresolvable} else When(repo[sha] != Surface(c.lines), RowsDiffer)
    else {}
  }

  function KeysOf(m: Landings): set<string> {
    set i | 0 <= i < |m| :: m[i].key
  }

  predicate DistinctKeys(m: Landings) {
    forall i, j :: 0 <= i < j < |m| ==> m[i].key != m[j].key
  }

  predicate Landed(m: Landings) {
    forall i :: 0 <= i < |m| ==> Trim(Py, m[i].site) != ""
  }

  /** The map blocks that parse: a block that repeats a key is refused. */
  function Parsed(maps: seq<Landings>): seq<Landings> {
    if maps == [] then [] else (if DistinctKeys(maps[0]) then [maps[0]] else []) + Parsed(maps[1..])
  }

  function MapComplaints(c: Contract): set<Complaint>
  {
    var maps := Parsed(c.maps);
    When(maps != c.maps, DuplicateKey)
    + When(maps != [] && c.status != "realized", MapOnStatus)
    + if c.status != "realized" then {}
      else if |maps| != 1 then {MapCount}
      else When(KeysOf(maps[0]) != IdSet(Rows(c.lines)), MapCover) + When(!Landed(maps[0]), MapValue)
  }

  /** What `check_draft` complains of, schema locks and superseded records left out. */
  function CheckDraft(c: Contract, repo: Repository): set<Complaint>
  {
    if c.status !in STATUSES then {BadStatus}
    else
      When(!DistinctRows(Rows(c.lines)), DuplicateRow) + When(!NoZeroRows(Rows(c.lines)), ZeroRow)
      + RatificationComplaints(c.ratifications) + When(!DatesInOrder(c.ratifications), DatesDecrease)
      + When(c.status == "draft" && c.ratifications != [], DraftRatified)
      + When(c.status != "draft" && c.ratifications == [], NotRatified)
      + When(c.status in EQUALITY_BOUND && Rows(c.lines) == [], NoRows)
      + EqualityComplaints(c, repo) + MapComplaints(c)
  }

  // ---- What a clean check means

  /** The map names each row once and nothing else, with a landing site for each. */
  predicate Covers(m: Landings, rows: seq<string>)
    requires AllRows(rows)
  {
    DistinctKeys(m) && KeysOf(m) == IdSet(rows) && Landed(m)
  }

  lemma {:induction false} ParsedWhole(maps: seq<Landings>)
    ensures |Parsed(maps)| <= |maps|
    ensures Parsed(maps) == maps <==> forall i :: 0 <= i < |maps| ==> DistinctKeys(maps[i])
  {
    hide DistinctKeys;
    if maps != [] {
      ParsedWhole(maps[1..]);
      assert maps == [maps[0]] + maps[1..];
      if DistinctKeys(maps[0]) {
        assert Parsed(maps)[1..] == Parsed(maps[1..]);
      } else {
        assert Parsed(maps) == Parsed(maps[1..]);
      }
    }
  }

  /** The rows a status binds to are those the latest ratification recorded. */
  predicate Recorded(c: Contract, repo: Repository) {
    c.ratifications != [] && var sha := c.ratifications[|c.ratifications| - 1].commit; sha in repo && repo[sha] == Surface(c.lines)
  }

  predicate GoodRows(rows: seq<string>)
    requires AllRows(rows)
  {
    DistinctRows(rows) && NoZeroRows(rows)
  }

  predicate GoodHistory(rs: seq<Ratification>) {
    (forall i :: 0 <= i < |rs| ==> GoodRatification(rs[i])) && DatesInOrder(rs)
  }

  lemma RatificationsClean(rs: seq<Ratification>)
    ensures RatificationComplaints(rs) == {} <==> forall i :: 0 <= i < |rs| ==> GoodRatification(rs[i])
  {
    hide GoodRatification;
    forall i: nat | i < |rs| && !GoodRatification(rs[i]) ensures RatificationComplaints(rs) != {} {
      assert BadRatification(i) in RatificationComplaints(rs);
    }
  }

  /** A clean realized contract: sound rows, a sound history whose last commit holds exactly these rows,
      and a single map that covers exactly the rows. */
  lemma RealizedIsClean(c: Contract, repo: Repository)
    requires c.status == "realized"
    ensures CheckDraft(c, repo) == {} <==>
            GoodRows(Rows(c.lines)) && Rows(c.lines) != [] && GoodHistory(c.ratifications) && Recorded(c, repo)
            && |c.maps| == 1 && Covers(c.maps[0], Rows(c.lines))
  {
    hide Rows, Surface, DistinctRows, NoZeroRows, GoodRatification, DatesInOrder, IdSet, KeysOf, DistinctKeys, Landed, Parsed;
    ParsedWhole(c.maps);
    RatificationsClean(c.ratifications);
    if c.ratifications != [] && GoodRatification(c.ratifications[|c.ratifications| - 1]) {
      GoodHasSha(c.ratifications[|c.ratifications| - 1]);
    }
  }

  lemma GoodHasSha(r: Ratification)
    requires GoodRatification(r)
    ensures Sha(r.commit)
  {
  }

  /** A clean reopened contract: sound rows, a history, no map; nothing binds its rows. */
  lemma ReopenedIsClean(c: Contract, repo: Repository)
    requires c.status == "reopened"
    ensures CheckDraft(c, repo) == {} <==>
            GoodRows(Rows(c.lines)) && c.ratifications != [] && GoodHistory(c.ratifications) && c.maps == []
  {
    hide Rows, Surface, DistinctRows, NoZeroRows, GoodRatification, DatesInOrder, IdSet, KeysOf, DistinctKeys, Landed, Parsed;
    ParsedWhole(c.maps);
    RatificationsClean(c.ratifications);
  }
}
