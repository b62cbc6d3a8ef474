/** The two-commit reopening of a realized contract, as file operations that may be cut off anywhere. */
module ContractReopen {
  import opened Text
  import ModelMarkers
  import opened ContractAppends
  import opened ContractDraft
  import Json

  // ---- The payload

  datatype RowEdit =
    | ReplaceInRow(row: string, find: string, other: string, count: nat)
    | FullRow(row: string, line: string)

  datatype MapEdit =
    | ReplaceInEntry(entry: string, find: string, other: string, count: nat)
    | FullEntry(entry: string, key: string, landing: string)

  datatype Payload = Payload(
    statusFrom: string, statusReopened: string, statusFinal: string,
    rowEdits: seq<RowEdit>, mapEdits: seq<MapEdit>, expectMap: bool, appends: seq<Append>,
    ratification: Option<(string, seq<string>)>)

  // ---- Edits

  /** The first line that starts with the row's cell. */
  function FindRow(lines: seq<string>, row: string): (r: Option<nat>)
    ensures r.Some? ==> r.value < |lines|
  {
    if lines == [] then Option<nat>.None
    else if StartsWith(lines[0], "| " + row + " |") then Some(0)
    else
      match FindRow(lines[1..], row)
      case None => Option<nat>.None
      case Some(i) => Some(i + 1)
  }

  /** An empty search text is found around every character. */
  function Stuffed(text: string, other: string): string {
    if text == "" then other else other + [text[0]] + Stuffed(text[1..], other)
  }

  /** The text with a string replaced, when it occurs as often as announced. */
  function Replaced(text: string, find: string, other: string, count: nat): Option<string> {
    if find == "" then (if |text| + 1 != count then None else Some(Stuffed(text, other)))
    else if ModelMarkers.Count(text, find) != count then None
    else Some(ModelMarkers.ReplaceAll(text, find, other))
  }

  function EditRow(lines: seq<string>, e: RowEdit): Option<seq<string>> {
    match FindRow(lines, e.row)
    case None => None
    case Some(i) =>
      var line :- if e.FullRow? then Some(e.line) else Replaced(lines[i], e.find, e.other, e.count);
      Some(lines[..i] + SplitOn(line, '\n') + lines[i + 1..])
  }

  function EditRows(lines: seq<string>, es: seq<RowEdit>): Option<seq<string>>
    decreases es
  {
    if es == [] then Some(lines)
    else
      var more :- EditRow(lines, es[0]);
      EditRows(more, es[1..])
  }

  // ---- Edits of the map's entries, each on a line of its own

  function EntryText(l: Landing): string { "\"" + l.key + "\": \"" + l.site + "\"" }

  function QuoteAt(s: string): (n: nat)
    ensures n <= |s|
  {
    if s == "" || s[0] == '"' then 0 else 1 + QuoteAt(s[1..])
  }

  predicate IsLiteral(body: string) { Json.Decode("\"" + body + "\"").Some? }

  /** An entry read back from its text; an edit that leaves no entry dies in the fence check. */
  function ReadEntry(text: string): Option<Landing> {
    if text == "" || text[0] != '"' then None
    else
      var key := text[1..][..QuoteAt(text[1..])];
      var after := text[1 + |key|..];
      if !StartsWith(after, "\": \"") || !EndsWith(after[4..], "\"") then None
      else
        var site := after[4..|after| - 1];
        if '\\' in key || !IsLiteral(key) || !IsLiteral(site) then None else Some(Landing(key, site))
  }

  /** Writing an entry and reading it gives it back. */
  lemma EntryReadsBack(l: Landing)
    requires '"' !in l.key && '\\' !in l.key && IsLiteral(l.key) && IsLiteral(l.site)
    ensures ReadEntry(EntryText(l)) == Some(l)
  {
    hide IsLiteral;
    var tail := "\": \"" + l.site + "\"";
    var text := EntryText(l);
    assert text == "\"" + (l.key + tail) && text[1..] == l.key + tail;
    QuoteAfter(l.key, tail);
    assert text[1..][..|l.key|] == l.key && text[1 + |l.key|..] == tail;
    assert tail[4..] == l.site + "\"" && tail[4..|tail| - 1] == l.site;
  }

  lemma {:induction false} QuoteAfter(key: string, tail: string)
    requires '"' !in key && tail != "" && tail[0] == '"'
    ensures QuoteAt(key + tail) == |key|
  {
    if key == "" {
      assert key + tail == tail;
    } else {
      QuoteAfter(key[1..], tail);
      assert (key + tail)[1..] == key[1..] + tail;
    }
  }

  /** The first entry of that key. */
  function FindEntry(m: Landings, key: string): (r: Option<nat>)
    ensures r.Some? ==> r.value < |m| && m[r.value].key == key
  {
    if m == [] then Option<nat>.None
    else if m[0].key == key then Some(0)
    else
      match FindEntry(m[1..], key)
      case None => Option<nat>.None
      case Some(i) => Some(i + 1)
  }

  /** A new entry stands where the old one stood, whatever the other keys are. */
  function EditMap(m: Landings, e: MapEdit): Option<Landings> {
    match FindEntry(m, e.entry)
    case None => None
    case Some(i) =>
      var entry :- if e.FullEntry? then Some(Landing(e.key, e.landing))
                   else
                     var text :- Replaced(EntryText(m[i]), e.find, e.other, e.count);
                     ReadEntry(text);
      Some(m[i := entry])
  }

  function EditMaps(m: Landings, es: seq<MapEdit>): Option<Landings>
    decreases es
  {
    if es == [] then Some(m)
    else
      var more :- EditMap(m, es[0]);
      EditMaps(more, es[1..])
  }

  // ---- Files and their operations

  /** The contract, the lifted map beside it, and the temporary file of an atomic save. */
  datatype Files = Files(contract: Contract, sidecar: Option<Landings>, temporary: Option<Contract>)

  datatype Op = WriteSidecar(landings: Landings) | WriteTemporary(c: Contract) | ReplaceContract | RemoveSidecar

  function Do(f: Files, op: Op): Files {
    match op
    case WriteSidecar(m) => f.(sidecar := Some(m))
    case WriteTemporary(c) => f.(temporary := Some(c))
    case ReplaceContract => if f.temporary.Some? then Files(f.temporary.value, f.sidecar, None) else f
    case RemoveSidecar => f.(sidecar := None)
  }

  function DoAll(f: Files, ops: seq<Op>): Files
    decreases ops
  {
    if ops == [] then f else DoAll(Do(f, ops[0]), ops[1..])
  }

  /** The files after a stop that lets only the first `k` operations through. */
  function StoppedAfter(f: Files, ops: seq<Op>, k: nat): Files
    requires k <= |ops|
  {
    DoAll(f, ops[..k])
  }

  function Flip(c: Contract, from: string, target: string): Option<Contract> {
    if c.status != from then None else Some(c.(status := target))
  }

  /** The first commit: the file operations, or none when it dies before any of them. */
  function CommitOne(f: Files, p: Payload): Option<seq<Op>> {
    var flipped :- Flip(f.contract, p.statusFrom, p.statusReopened);
    var lines :- EditRows(flipped.lines, p.rowEdits);
    if flipped.maps == [] then
      if p.expectMap then None else Some([WriteTemporary(flipped.(lines := lines)), ReplaceContract])
    else
      Some([WriteSidecar(flipped.maps[0]), WriteTemporary(flipped.(lines := lines, maps := flipped.maps[1..])), ReplaceContract])
  }

  /** The second commit, on the full sha of the first. */
  function CommitTwo(f: Files, p: Payload, sha: string, isCommit: bool): Option<seq<Op>> {
    if p.ratification.Some? && (!FullSha(sha) || !isCommit) then None
    else if p.statusFinal == "realized" && (f.sidecar == None || p.ratification == None) then None
    else
      var maps :- if f.sidecar == None then Some(f.contract.maps) else Reinserted(f.contract.maps, f.sidecar.value, p.mapEdits);
      var ratified := if p.ratification == None then f.contract.ratifications
                      else f.contract.ratifications + [Ratification(p.ratification.value.0, p.ratification.value.1, sha)];
      var lines :- AppendAll(f.contract.lines, p.appends);
      var flipped :- Flip(f.contract, p.statusReopened, p.statusFinal);
      Some([WriteTemporary(flipped.(lines := lines, maps := maps, ratifications := ratified)), ReplaceContract]
           + if f.sidecar.Some? then [RemoveSidecar] else [])
  }

  /** The lifted map edited and put before any other. */
  function Reinserted(maps: seq<Landings>, sidecar: Landings, es: seq<MapEdit>): Option<seq<Landings>> {
    var m :- EditMaps(sidecar, es);
    Some([m] + maps)
  }

  // ---- The runner on its files

  class Workspace {
    var contract: Contract
    var sidecar: Option<Landings>
    var temporary: Option<Contract>
    /** The files after every operation so far. */
    ghost var history: seq<Files>

    constructor (c: Contract)
      ensures Now() == Files(c, None, None) && history == []
    {
      contract, sidecar, temporary, history := c, None, None, [];
    }

    ghost function Now(): Files
      reads this
    {
      Files(contract, sidecar, temporary)
    }

    method Perform(op: Op)
      modifies this
      ensures Now() == Do(old(Now()), op) && history == old(history) + [Now()]
    {
      match op {
        case WriteSidecar(m) => sidecar := Some(m);
        case WriteTemporary(c) => temporary := Some(c);
        case ReplaceContract =>
          if temporary.Some? {
            contract := temporary.value;
            temporary := None;
          }
        case RemoveSidecar => sidecar := None;
      }
      history := history + [Now()];
    }

    /** Dies without touching a file, or performs the operations of the first commit in order. */
    method RunCommitOne(p: Payload) returns (ok: bool)
      modifies this
      ensures ok <==> CommitOne(old(Now()), p).Some?
      ensures !ok ==> Now() == old(Now()) && history == old(history)
      ensures ok ==> var ops := CommitOne(old(Now()), p).value;
                     && Now() == DoAll(old(Now()), ops)
                     && history == old(history) + Stops(old(Now()), ops)
    {
      var flipped := Flip(contract, p.statusFrom, p.statusReopened);
      if flipped == None {
        return false;
      }
      var lines := EditRowsInTurn(flipped.value.lines, p.rowEdits);
      if lines == None {
        return false;
      }
      var lifted := flipped.value.maps != [];
      if !lifted && p.expectMap {
        return false;
      }
      ghost var start := Now();
      var final := flipped.value.(lines := lines.value, maps := if lifted then flipped.value.maps[1..] else []);
      ghost var ops := CommitOne(start, p).value;
      if lifted {
        Perform(WriteSidecar(flipped.value.maps[0]));
      }
      Perform(WriteTemporary(final));
      Perform(ReplaceContract);
      StopsOf(start, ops);
      return true;
    }

    method RunCommitTwo(p: Payload, sha: string, isCommit: bool) returns (ok: bool)
      modifies this
      ensures ok <==> CommitTwo(old(Now()), p, sha, isCommit).Some?
      ensures !ok ==> Now() == old(Now()) && history == old(history)
      ensures ok ==> var ops := CommitTwo(old(Now()), p, sha, isCommit).value;
                     && Now() == DoAll(old(Now()), ops)
                     && history == old(history) + Stops(old(Now()), ops)
    {
      if p.ratification.Some? && (!FullSha(sha) || !isCommit) {
        return false;
      }
      if p.statusFinal == "realized" {
        if sidecar == None || p.ratification == None {
          return false;
        }
      }
      var maps := contract.maps;
      if sidecar.Some? {
        var edited := EditMapsInTurn(sidecar.value, p.mapEdits);
        if edited == None {
          return false;
        }
        maps := [edited.value] + maps;
      }
      var lines := AppendInTurn(contract.lines, p.appends);
      if lines == None {
        return false;
      }
      var ratified := contract.ratifications;
      if p.ratification.Some? {
        ratified := ratified + [Ratification(p.ratification.value.0, p.ratification.value.1, sha)];
      }
      var flipped := Flip(contract, p.statusReopened, p.statusFinal);
      if flipped == None {
        return false;
      }
      ghost var start := Now();
      ghost var ops := CommitTwo(start, p, sha, isCommit).value;
      Perform(WriteTemporary(flipped.value.(lines := lines.value, maps := maps, ratifications := ratified)));
      Perform(ReplaceContract);
      if sidecar.Some? {
        Perform(RemoveSidecar);
      }
      StopsOf(start, ops);
      return true;
    }
  }

  /** The files after each of the operations. */
  function Stops(f: Files, ops: seq<Op>): (stops: seq<Files>)
    ensures |stops| == |ops|
    decreases ops
  {
    if ops == [] then [] else [Do(f, ops[0])] + Stops(Do(f, ops[0]), ops[1..])
  }

  lemma StopsOf(f: Files, ops: seq<Op>)
    requires 2 <= |ops| <= 3
    ensures var a := Do(f, ops[0]); var b := Do(a, ops[1]);
            if |ops| == 2 then DoAll(f, ops) == b && Stops(f, ops) == [a, b]
            else DoAll(f, ops) == Do(b, ops[2]) && Stops(f, ops) == [a, b, Do(b, ops[2])]
  {
    hide Do;
    var a := Do(f, ops[0]);
    var rest := ops[1..];
    var b := Do(a, rest[0]);
    assert rest[0] == ops[1];
    if |ops| == 2 {
      OneOp(a, rest);
    } else {
      var last := rest[1..];
      assert last[0] == ops[2];
      OneOp(b, last);
      assert DoAll(a, rest) == DoAll(b, last) && Stops(a, rest) == [b] + Stops(b, last);
    }
    assert DoAll(f, ops) == DoAll(a, rest) && Stops(f, ops) == [a] + Stops(a, rest);
  }

  lemma OneOp(f: Files, ops: seq<Op>)
    requires |ops| == 1
    ensures DoAll(f, ops) == Do(f, ops[0]) && Stops(f, ops) == [Do(f, ops[0])]
  {
    hide Do;
    assert ops[1..] == [];
  }

  method EditRowsInTurn(lines: seq<string>, es: seq<RowEdit>) returns (r: Option<seq<string>>)
    ensures r == EditRows(lines, es)
  {
    hide EditRow;
    var now := lines;
    assert es[0..] == es;
    for i := 0 to |es|
      invariant EditRows(now, es[i..]) == EditRows(lines, es)
    {
      assert es[i..][0] == es[i] && es[i..][1..] == es[i + 1..];
      var more := EditRow(now, es[i]);
      if more == None {
        return None;
      }
      now := more.value;
    }
    return Some(now);
  }

  method EditMapsInTurn(m: Landings, es: seq<MapEdit>) returns (r: Option<Landings>)
    ensures r == EditMaps(m, es)
  {
    hide EditMap;
    var now := m;
    assert es[0..] == es;
    for i := 0 to |es|
      invariant EditMaps(now, es[i..]) == EditMaps(m, es)
    {
      assert es[i..][0] == es[i] && es[i..][1..] == es[i + 1..];
      var more := EditMap(now, es[i]);
      if more == None {
        return None;
      }
      now := more.value;
    }
    return Some(now);
  }

  // ---- Crash safety

  /** The statuses of a payload keep the two commits apart. */
  predicate Ordered(p: Payload) { p.statusFrom != p.statusReopened && p.statusReopened != p.statusFinal }

  /** Wherever the first commit is stopped, the map it lifts is still whole, in the contract or beside it;
      running it again either does exactly what the undisturbed run does, or dies and changes nothing
      because the contract is already the reopened one. */
  lemma CommitOneIsCrashSafe(f: Files, p: Payload, k: nat)
    requires Ordered(p) && CommitOne(f, p).Some? && k <= |CommitOne(f, p).value| && f.contract.maps != []
    ensures var ops := CommitOne(f, p).value;
            var g := StoppedAfter(f, ops, k);
            && (g.contract.maps == f.contract.maps || g.sidecar == Some(f.contract.maps[0]))
            && if k < |ops| then CommitOne(g, p) == Some(ops) && DoAll(g, ops) == DoAll(f, ops)
               else CommitOne(g, p) == None && g.contract == DoAll(f, ops).contract
  {
    hide EditRows;
    var ops := CommitOne(f, p).value;
    StopsOf(f, ops);
    Stopped(f, ops, k);
    if k < |ops| {
      var g := StoppedAfter(f, ops, k);
      StopsOf(g, ops);
    }
  }

  lemma Stopped(f: Files, ops: seq<Op>, k: nat)
    requires 2 <= |ops| <= 3 && k <= |ops|
    ensures StoppedAfter(f, ops, k) == if k == 0 then f else Stops(f, ops)[k - 1]
  {
    StopsOf(f, ops);
    hide Do;
    if k == 0 {
      assert ops[..0] == [];
    } else if k == 1 {
      OneOp(f, ops[..1]);
    } else if k == 2 {
      StopsOf(f, ops[..2]);
    } else {
      assert ops[..3] == ops;
    }
  }

  /** The same for the second commit: the map is whole in the sidecar until it is whole in the contract. */
  lemma CommitTwoIsCrashSafe(f: Files, p: Payload, sha: string, k: nat)
    requires Ordered(p) && f.sidecar.Some?
    requires CommitTwo(f, p, sha, true).Some? && k <= |CommitTwo(f, p, sha, true).value|
    ensures var ops := CommitTwo(f, p, sha, true).value;
            var g, end := StoppedAfter(f, ops, k), DoAll(f, ops);
            && |ops| == 3 && end.sidecar == None
            && (g.sidecar == f.sidecar || g.contract == end.contract)
            && EditMaps(f.sidecar.value, p.mapEdits).Some?
            && end.contract.maps == [EditMaps(f.sidecar.value, p.mapEdits).value] + f.contract.maps
            && if k < 2 then CommitTwo(g, p, sha, true) == Some(ops) && DoAll(g, ops) == end
               else CommitTwo(g, p, sha, true) == None && g.contract == end.contract
  {
    hide EditMaps;
    var ops := CommitTwo(f, p, sha, true).value;
    StopsOf(f, ops);
    Stopped(f, ops, k);
    if k < 2 {
      StopsOf(StoppedAfter(f, ops, k), ops);
    }
  }

  // ---- The whole choreography

  /** Adding a block to a history. */
  lemma HistoryGrows(rs: seq<Ratification>, r: Ratification)
    requires GoodHistory(rs) && rs != []
    ensures GoodHistory(rs + [r]) <==> GoodRatification(r) && !Earlier(r.date, rs[|rs| - 1].date)
  {
    hide GoodRatification, Earlier;
    var all := rs + [r];
    assert all[|rs|] == r && all[|rs| - 1] == rs[|rs| - 1];
    assert forall i :: 0 <= i < |rs| ==> all[i] == rs[i];
    assert GoodRatification(rs[|rs| - 1]);
    ShapedWhenGood(rs[|rs| - 1]);
    if GoodRatification(r) {
      ShapedWhenGood(r);
    }
    if GoodHistory(all) {
      assert GoodRatification(all[|rs|]);
    }
  }

  lemma ShapedWhenGood(r: Ratification)
    requires GoodRatification(r)
    ensures DateShaped(r.date)
  {
  }

  lemma FullShaIsSha(sha: string)
    requires FullSha(sha)
    ensures Sha(sha)
  {
  }

  const DEFAULT_FROM := "realized"
  const DEFAULT_REOPENED := "reopened"

  predicate DefaultStatuses(p: Payload) {
    p.statusFrom == DEFAULT_FROM && p.statusReopened == DEFAULT_REOPENED && p.statusFinal == DEFAULT_FROM
  }

  /** From a clean realized contract the first commit leaves a reopened one without a map; its check is
      clean exactly when the edited rows keep distinct ids without leading zeros. */
  lemma FirstCommitIsClean(c: Contract, repo: Repository, p: Payload)
    requires c.status == "realized" && CheckDraft(c, repo) == {} && DefaultStatuses(p)
    requires CommitOne(Files(c, None, None), p).Some?
    ensures var g := DoAll(Files(c, None, None), CommitOne(Files(c, None, None), p).value);
            && g.contract.status == "reopened" && g.contract.maps == [] && g.sidecar == Some(c.maps[0]) && g.temporary == None
            && Some(g.contract.lines) == EditRows(c.lines, p.rowEdits)
            && g.contract.ratifications == c.ratifications
            && (CheckDraft(g.contract, repo) == {} <==> GoodRows(Rows(g.contract.lines)))
  {
    hide EditRows, CheckDraft, GoodRows, GoodHistory, Rows, Surface;
    var f := Files(c, None, None);
    RealizedIsClean(c, repo);
    var ops := CommitOne(f, p).value;
    StopsOf(f, ops);
    ReopenedIsClean(DoAll(f, ops).contract, repo);
  }

  /** After the first commit has been recorded in the repository under its sha, the second commit leaves a
      realized contract. Its last ratification's commit holds its rows exactly when the appends leave the
      compared rows alone. Its check is clean exactly when they do, the new date is a day not before the
      last one, the arms are named, the edited map covers exactly the edited rows, and there are rows left. */
  lemma ReopeningCloses(c: Contract, repo: Repository, p: Payload, sha: string)
    requires c.status == "realized" && CheckDraft(c, repo) == {} && DefaultStatuses(p)
    requires CommitOne(Files(c, None, None), p).Some?
    requires var g := DoAll(Files(c, None, None), CommitOne(Files(c, None, None), p).value);
             && CheckDraft(g.contract, repo) == {}
             && CommitTwo(g, p, sha, true).Some?
    ensures var g := DoAll(Files(c, None, None), CommitOne(Files(c, None, None), p).value);
            var recorded := repo[sha := Surface(g.contract.lines)];
            var end := DoAll(g, CommitTwo(g, p, sha, true).value);
            && end.contract.status == "realized" && end.sidecar == None
            && AppendAll(g.contract.lines, p.appends) == Some(end.contract.lines)
            && p.ratification.Some? && EditMaps(c.maps[0], p.mapEdits).Some?
            && end.contract.maps == [EditMaps(c.maps[0], p.mapEdits).value]
            && (Recorded(end.contract, recorded) <==> Surface(end.contract.lines) == Surface(g.contract.lines))
            && (CheckDraft(end.contract, recorded) == {} <==>
                && Surface(end.contract.lines) == Surface(g.contract.lines)
                && CalendarDate(p.ratification.value.0) && GoodArms(p.ratification.value.1)
                && !Earlier(p.ratification.value.0, c.ratifications[|c.ratifications| - 1].date)
                && Covers(EditMaps(c.maps[0], p.mapEdits).value, Rows(g.contract.lines)) && Rows(g.contract.lines) != [])
  {
    hide *;
    var f := Files(c, None, None);
    RealizedMeans(c, repo);
    FirstCommitIsClean(c, repo, p);
    var g := DoAll(f, CommitOne(f, p).value);
    CloseFacts(g, p, sha);
    var end := DoAll(g, CommitTwo(g, p, sha, true).value);
    var recorded := repo[sha := Surface(g.contract.lines)];
    var r := Ratification(p.ratification.value.0, p.ratification.value.1, sha);
    RecordedUnderSha(end.contract, c.ratifications, r, repo, Surface(g.contract.lines));
    HistoryGrows(c.ratifications, r);
    ReopenedRows(g.contract, repo);
    ClosedIsClean(end.contract, g.contract, recorded, c.ratifications[|c.ratifications| - 1], r);
  }

  /** The parts of a clean realized contract that the choreography builds on. */
  lemma RealizedMeans(c: Contract, repo: Repository)
    requires c.status == "realized" && CheckDraft(c, repo) == {}
    ensures GoodHistory(c.ratifications) && c.ratifications != [] && |c.maps| == 1
  {
    hide CheckDraft, GoodRows, GoodHistory, Rows, Surface, Covers;
    RealizedIsClean(c, repo);
  }

  /** The files after a second commit with a sidecar. */
  lemma CloseFacts(g: Files, p: Payload, sha: string)
    requires DefaultStatuses(p) && g.sidecar.Some? && g.contract.maps == [] && CommitTwo(g, p, sha, true).Some?
    ensures p.ratification.Some? && FullSha(sha) && EditMaps(g.sidecar.value, p.mapEdits).Some?
    ensures var end := DoAll(g, CommitTwo(g, p, sha, true).value);
            && end.sidecar == None && end.contract.status == "realized"
            && AppendAll(g.contract.lines, p.appends) == Some(end.contract.lines)
            && end.contract.maps == [EditMaps(g.sidecar.value, p.mapEdits).value]
            && end.contract.ratifications ==
               g.contract.ratifications + [Ratification(p.ratification.value.0, p.ratification.value.1, sha)]
  {
    hide EditMaps, AppendAll, FullSha;
    StopsOf(g, CommitTwo(g, p, sha, true).value);
  }

  lemma ReopenedRows(c: Contract, repo: Repository)
    requires c.status == "reopened" && CheckDraft(c, repo) == {}
    ensures GoodRows(Rows(c.lines))
  {
    hide CheckDraft, GoodRows, GoodHistory, Rows;
    ReopenedIsClean(c, repo);
  }

  lemma RecordedUnderSha(end: Contract, before: seq<Ratification>, r: Ratification, repo: Repository, surface: seq<string>)
    requires end.ratifications == before + [r]
    ensures Recorded(end, repo[r.commit := surface]) <==> Surface(end.lines) == surface
  {
    hide Surface;
  }

  lemma ClosedIsClean(end: Contract, reopened: Contract, recorded: Repository, last: Ratification, r: Ratification)
    requires end.status == "realized" && GoodHistory(end.ratifications) == (GoodRatification(r) && !Earlier(r.date, last.date))
    requires GoodRows(Rows(reopened.lines)) && FullSha(r.commit)
    requires Recorded(end, recorded) <==> Surface(end.lines) == Surface(reopened.lines)
    requires |end.maps| == 1
    ensures CheckDraft(end, recorded) == {} <==>
            && Surface(end.lines) == Surface(reopened.lines)
            && CalendarDate(r.date) && GoodArms(r.arms) && !Earlier(r.date, last.date)
            && Covers(end.maps[0], Rows(reopened.lines)) && Rows(reopened.lines) != []
  {
    FullShaIsSha(r.commit);
    hide CheckDraft, GoodRows, GoodHistory, Rows, Surface, CalendarDate, GoodArms, Covers, Earlier, Sha, FullSha, Recorded;
    RealizedIsClean(end, recorded);
    if Surface(end.lines) == Surface(reopened.lines) {
      SameSurfaceSameChecks(end.lines, reopened.lines, end.maps[0]);
    }
  }

  lemma SameSurfaceSameChecks(a: seq<string>, b: seq<string>, m: Landings)
    requires Surface(a) == Surface(b)
    ensures GoodRows(Rows(a)) == GoodRows(Rows(b)) && Covers(m, Rows(a)) == Covers(m, Rows(b))
    ensures Rows(a) == [] <==> Rows(b) == []
  {
    hide Rows, Surface, DistinctKeys, KeysOf, Landed, Ids;
    SameSurfaceSameIds(a, b);
  }

  /** With quiet appends the last ratification's commit holds the final rows. */
  lemma QuietReopeningIsRecorded(c: Contract, repo: Repository, p: Payload, sha: string)
    requires c.status == "realized" && CheckDraft(c, repo) == {} && DefaultStatuses(p)
    requires CommitOne(Files(c, None, None), p).Some?
    requires var g := DoAll(Files(c, None, None), CommitOne(Files(c, None, None), p).value);
             && CheckDraft(g.contract, repo) == {} && CommitTwo(g, p, sha, true).Some?
             && Unbroken(g.contract.lines) && AllQuiet(g.contract.lines, p.appends)
    ensures var g := DoAll(Files(c, None, None), CommitOne(Files(c, None, None), p).value);
            Recorded(DoAll(g, CommitTwo(g, p, sha, true).value).contract, repo[sha := Surface(g.contract.lines)])
  {
    hide *;
    ReopeningCloses(c, repo, p, sha);
    var g := DoAll(Files(c, None, None), CommitOne(Files(c, None, None), p).value);
    QuietAppendsKeepRows(g.contract.lines, p.appends);
  }
}
