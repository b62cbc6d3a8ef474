/** What the edits of a reopening do, said of the texts themselves: where a text is cut by what is
    searched for, which line or entry changes, and what stands there afterwards. */
module ContractEdits {
  import opened Text
  import ModelMarkers
  import opened ContractDraft
  import opened ContractAppends
  import opened ContractReopen

  // ---- A text cut at what is searched for

  /** The search text begins nowhere in the piece, not even when it follows it. */
  predicate Free(piece: string, find: string) {
    forall i :: 0 <= i < |piece| ==> !(find <= (piece + find)[i..])
  }

  predicate Without(piece: string, find: string) {
    forall i :: 0 <= i <= |piece| ==> !(find <= piece[i..])
  }

  function Singles(text: string): seq<string> {
    seq(|text|, i requires 0 <= i < |text| => [text[i]])
  }

  /** The pieces of a text between the places, taken from the left, where the search text stands; between
      all characters when it is empty. */
  predicate CutAt(text: string, find: string, pieces: seq<string>) {
    if find == "" then pieces == [""] + Singles(text) + [""]
    else
      && pieces != [] && text == Join(pieces, find)
      && (forall k :: 0 <= k < |pieces| - 1 ==> Free(pieces[k], find))
      && Without(pieces[|pieces| - 1], find)
  }

  /** The line with the other text in those places, which are as many as announced. */
  ghost predicate Swapped(text: string, find: string, other: string, count: nat, after: string) {
    exists pieces :: CutAt(text, find, pieces) && |pieces| == count + 1 && after == Join(pieces, other)
  }

  ghost predicate Occurs(text: string, find: string, count: nat) {
    exists pieces :: CutAt(text, find, pieces) && |pieces| == count + 1
  }

  lemma {:induction false} FreeIsSkipped(piece: string, find: string, rest: string, other: string)
    requires find != "" && Free(piece, find)
    ensures ModelMarkers.Count(piece + find + rest, find) == 1 + ModelMarkers.Count(rest, find)
    ensures ModelMarkers.ReplaceAll(piece + find + rest, find, other) == piece + other + ModelMarkers.ReplaceAll(rest, find, other)
    decreases piece
  {
    var text := piece + find + rest;
    if piece == "" {
      assert text == find + rest && find <= text && text[|find|..] == rest;
    } else {
      var tail := piece[1..] + find + rest;
      assert text[1..] == tail && text[0] == piece[0];
      assert (piece + find)[0..] == piece + find;
      StartDecides(piece + find, rest, find);
      assert text == piece + find + rest;
      forall i | 0 <= i < |piece[1..]| ensures !(find <= (piece[1..] + find)[i..]) {
        assert (piece[1..] + find)[i..] == (piece + find)[i + 1..];
      }
      FreeIsSkipped(piece[1..], find, rest, other);
      assert [piece[0]] + (piece[1..] + other + ModelMarkers.ReplaceAll(rest, find, other))
          == piece + other + ModelMarkers.ReplaceAll(rest, find, other);
    }
  }

  /** Whether a text starts with another is decided by enough of its start. */
  lemma StartDecides(a: string, b: string, find: string)
    requires |find| <= |a|
    ensures find <= a + b <==> find <= a
  {
    assert (a + b)[..|find|] == a[..|find|];
  }

  lemma {:induction false} WithoutIsKept(piece: string, find: string, other: string)
    requires find != "" && Without(piece, find)
    ensures ModelMarkers.Count(piece, find) == 0 && ModelMarkers.ReplaceAll(piece, find, other) == piece
    decreases piece
  {
    if piece != "" {
      assert piece[0..] == piece;
      forall i | 0 <= i <= |piece[1..]| ensures !(find <= piece[1..][i..]) {
        assert piece[1..][i..] == piece[i + 1..];
      }
      WithoutIsKept(piece[1..], find, other);
    }
  }

  lemma {:induction false} JoinedIsReplaced(pieces: seq<string>, find: string, other: string)
    requires find != "" && pieces != [] && CutAt(Join(pieces, find), find, pieces)
    ensures ModelMarkers.Count(Join(pieces, find), find) == |pieces| - 1
    ensures ModelMarkers.ReplaceAll(Join(pieces, find), find, other) == Join(pieces, other)
    decreases pieces
  {
    hide Free, Without;
    if |pieces| == 1 {
      WithoutIsKept(pieces[0], find, other);
    } else {
      var rest := pieces[1..];
      assert forall k :: 0 <= k < |rest| ==> rest[k] == pieces[k + 1];
      JoinedIsReplaced(rest, find, other);
      FreeIsSkipped(pieces[0], find, Join(rest, find), other);
    }
  }

  /** Every text is cut in some such way. */
  lemma {:induction false} EveryTextIsCut(text: string, find: string) returns (pieces: seq<string>)
    ensures CutAt(text, find, pieces)
    decreases |text|
  {
    if find == "" {
      pieces := [""] + Singles(text) + [""];
    } else {
      FindIsFirst(text, find);
      match Find(text, find)
      case None => pieces := [text];
      case Some(i) =>
        var rest := EveryTextIsCut(text[i + |find|..], find);
        pieces := [text[..i]] + rest;
        FirstPieceIsFree(text, find, i);
        hide Free, Without, Find;
        assert pieces[1..] == rest;
        assert text == text[..i] + find + text[i + |find|..];
        assert forall k :: 0 <= k < |pieces| - 1 ==> k == 0 || pieces[k] == rest[k - 1];
    }
  }

  lemma FirstPieceIsFree(text: string, find: string, i: nat)
    requires i <= |text| && find <= text[i..] && forall j :: 0 <= j < i ==> !(find <= text[j..])
    ensures Free(text[..i], find)
  {
    var piece := text[..i];
    assert text[..i + |find|] == piece + find;
    forall j | 0 <= j < |piece| ensures !(find <= (piece + find)[j..]) {
      var here := (piece + find)[j..];
      assert text[j..] == here + text[i + |find|..];
      StartDecides(here, text[i + |find|..], find);
    }
  }

  lemma {:induction false} StuffedIsJoined(text: string, other: string)
    ensures Join([""] + Singles(text) + [""], other) == Stuffed(text, other)
  {
    var pieces := [""] + Singles(text) + [""];
    if text == "" {
      assert pieces == ["", ""] && pieces[1..] == [""];
    } else {
      var inner := Singles(text[1..]) + [""];
      StuffedIsJoined(text[1..], other);
      assert Singles(text) == [[text[0]]] + Singles(text[1..]);
      assert pieces[1..] == [[text[0]]] + inner && ([[text[0]]] + inner)[1..] == inner;
      assert ([""] + inner)[1..] == inner && [""] + Singles(text[1..]) + [""] == [""] + inner;
      assert Join([""] + inner, other) == "" + other + Join(inner, other);
      assert Join(pieces[1..], other) == [text[0]] + other + Join(inner, other);
      assert Join(pieces, other) == "" + other + Join(pieces[1..], other);
      assert other + [text[0]] + (other + Join(inner, other)) == "" + other + ([text[0]] + other + Join(inner, other));
    }
  }

  /** The replacement is made when the pieces are as many as announced, and only then. */
  lemma ReplacedMeans(text: string, find: string, other: string, count: nat)
    ensures forall after :: Replaced(text, find, other, count) == Some(after) <==> Swapped(text, find, other, count, after)
    ensures Replaced(text, find, other, count).Some? <==> Occurs(text, find, count)
  {
    hide Find, ModelMarkers.Count, ModelMarkers.ReplaceAll, Stuffed, Free, Without, Singles, Join;
    var pieces := EveryTextIsCut(text, find);
    forall ps | CutAt(text, find, ps)
      ensures |ps| == count + 1 <==> Replaced(text, find, other, count).Some?
      ensures |ps| == count + 1 ==> Replaced(text, find, other, count) == Some(Join(ps, other))
    {
      CutDecides(text, find, other, count, ps);
    }
  }

  lemma CutDecides(text: string, find: string, other: string, count: nat, ps: seq<string>)
    requires CutAt(text, find, ps)
    ensures |ps| == count + 1 <==> Replaced(text, find, other, count).Some?
    ensures |ps| == count + 1 ==> Replaced(text, find, other, count) == Some(Join(ps, other))
  {
    hide Free, Without, ModelMarkers.Count, ModelMarkers.ReplaceAll, Stuffed, Join;
    if find == "" {
      StuffedIsJoined(text, other);
      assert |ps| == |text| + 2;
    } else {
      JoinedIsReplaced(ps, find, other);
    }
  }

  // ---- Row edits

  predicate RowLine(line: string, row: string) { StartsWith(line, "| " + row + " |") }

  /** The first line of a row. */
  predicate FirstRow(lines: seq<string>, row: string, i: nat) {
    i < |lines| && RowLine(lines[i], row) && forall j :: 0 <= j < i ==> !RowLine(lines[j], row)
  }

  /** What stands in the edited row's place. */
  ghost predicate NewLine(line: string, e: RowEdit, after: string) {
    match e
    case FullRow(_, full) => after == full
    case ReplaceInRow(_, find, other, count) => Swapped(line, find, other, count, after)
  }

  /** One edit: only the row's first line changes, into the lines of its new text. */
  ghost predicate RowEdited(lines: seq<string>, e: RowEdit, after: seq<string>) {
    exists i: nat, text :: FirstRow(lines, e.row, i) && NewLine(lines[i], e, text) && after == lines[..i] + SplitOn(text, '\n') + lines[i + 1..]
  }

  /** The edits one after the other. */
  ghost predicate RowsEdited(lines: seq<string>, es: seq<RowEdit>, after: seq<string>)
    decreases es
  {
    if es == [] then after == lines else exists mid :: RowEdited(lines, es[0], mid) && RowsEdited(mid, es[1..], after)
  }

  lemma {:induction false} FindRowIsFirst(lines: seq<string>, row: string)
    ensures FindRow(lines, row).Some? ==> FirstRow(lines, row, FindRow(lines, row).value)
    ensures FindRow(lines, row).None? ==> forall j :: 0 <= j < |lines| ==> !RowLine(lines[j], row)
  {
    if lines != [] && !RowLine(lines[0], row) {
      FindRowIsFirst(lines[1..], row);
      assert forall j :: 1 <= j < |lines| ==> lines[j] == lines[1..][j - 1];
    }
  }

  lemma EditRowMeans(lines: seq<string>, e: RowEdit)
    ensures forall after :: EditRow(lines, e) == Some(after) <==> RowEdited(lines, e, after)
  {
    FindRowIsFirst(lines, e.row);
    if e.ReplaceInRow? {
      match FindRow(lines, e.row)
      case None =>
      case Some(i) => ReplacedMeans(lines[i], e.find, e.other, e.count);
    }
    hide FindRow, RowLine, Replaced, Swapped, SplitOn;
    match FindRow(lines, e.row)
    case None =>
    case Some(i) =>
      assert forall k: nat :: FirstRow(lines, e.row, k) ==> k == i;
      forall after ensures EditRow(lines, e) == Some(after) <==> RowEdited(lines, e, after) {
        if EditRow(lines, e) == Some(after) {
          var text := if e.FullRow? then e.line else Replaced(lines[i], e.find, e.other, e.count).value;
          assert NewLine(lines[i], e, text);
        }
      }
  }

  lemma {:induction false} EditRowsMeans(lines: seq<string>, es: seq<RowEdit>, after: seq<string>)
    ensures EditRows(lines, es) == Some(after) <==> RowsEdited(lines, es, after)
    decreases es
  {
    hide EditRow, RowEdited;
    if es != [] {
      EditRowMeans(lines, es[0]);
      if EditRow(lines, es[0]).Some? {
        EditRowsMeans(EditRow(lines, es[0]).value, es[1..], after);
      }
      forall mid | RowEdited(lines, es[0], mid) ensures EditRow(lines, es[0]) == Some(mid) {
      }
    }
  }

  /** An edit dies exactly when no line is the row's, or the search text stands there another number of
      times. */
  lemma RowEditDies(lines: seq<string>, e: RowEdit)
    ensures EditRow(lines, e) == None <==>
            || (forall i :: 0 <= i < |lines| ==> !RowLine(lines[i], e.row))
            || (e.ReplaceInRow? && exists i: nat :: FirstRow(lines, e.row, i) && !Occurs(lines[i], e.find, e.count))
  {
    FindRowIsFirst(lines, e.row);
    hide FindRow, RowLine, Replaced, Occurs, SplitOn;
    match FindRow(lines, e.row)
    case None =>
    case Some(i) =>
      assert forall k: nat :: FirstRow(lines, e.row, k) ==> k == i;
      if e.ReplaceInRow? {
        ReplacedMeans(lines[i], e.find, e.other, e.count);
      }
  }

  // ---- Map edits

  /** The first entry of a key. */
  predicate FirstEntry(m: Landings, key: string, i: nat) {
    i < |m| && m[i].key == key && forall j :: 0 <= j < i ==> m[j].key != key
  }

  /** An entry whose text can be read back. */
  predicate PlainEntry(l: Landing) { '"' !in l.key && '\\' !in l.key && IsLiteral(l.key) && IsLiteral(l.site) }

  ghost predicate NewEntry(l: Landing, e: MapEdit, after: Landing) {
    match e
    case FullEntry(_, key, landing) => after == Landing(key, landing)
    case ReplaceInEntry(_, find, other, count) => PlainEntry(after) && Swapped(EntryText(l), find, other, count, EntryText(after))
  }

  /** One edit: only the key's first entry changes. */
  ghost predicate MapEdited(m: Landings, e: MapEdit, after: Landings) {
    exists i: nat, l :: FirstEntry(m, e.entry, i) && NewEntry(m[i], e, l) && after == m[i := l]
  }

  ghost predicate MapsEdited(m: Landings, es: seq<MapEdit>, after: Landings)
    decreases es
  {
    if es == [] then after == m else exists mid :: MapEdited(m, es[0], mid) && MapsEdited(mid, es[1..], after)
  }

  lemma {:induction false} FindEntryIsFirst(m: Landings, key: string)
    ensures FindEntry(m, key).Some? ==> FirstEntry(m, key, FindEntry(m, key).value)
    ensures FindEntry(m, key).None? ==> forall j :: 0 <= j < |m| ==> m[j].key != key
  {
    if m != [] && m[0].key != key {
      FindEntryIsFirst(m[1..], key);
      assert forall j :: 1 <= j < |m| ==> m[j] == m[1..][j - 1];
    }
  }

  lemma {:induction false} QuoteAtStops(s: string)
    ensures forall i :: 0 <= i < QuoteAt(s) ==> s[i] != '"'
    ensures QuoteAt(s) < |s| ==> s[QuoteAt(s)] == '"'
  {
    if s != "" && s[0] != '"' {
      QuoteAtStops(s[1..]);
    }
  }

  /** A text read as an entry is that entry's text. */
  lemma ReadEntryIsText(text: string)
    ensures forall l :: ReadEntry(text) == Some(l) <==> PlainEntry(l) && EntryText(l) == text
  {
    hide ReadEntry, EntryText, PlainEntry;
    forall l | PlainEntry(l) && EntryText(l) == text ensures ReadEntry(text) == Some(l) {
      PlainReadsBack(l);
    }
    if ReadEntry(text).Some? {
      EntryRead(text);
    }
  }

  lemma PlainReadsBack(l: Landing)
    requires PlainEntry(l)
    ensures ReadEntry(EntryText(l)) == Some(l)
  {
    EntryReadsBack(l);
  }

  lemma EntryRead(text: string)
    requires ReadEntry(text).Some?
    ensures PlainEntry(ReadEntry(text).value) && EntryText(ReadEntry(text).value) == text
  {
    hide IsLiteral;
    var l := ReadEntry(text).value;
    QuoteAtStops(text[1..]);
    hide QuoteAt;
    var after := text[1 + |l.key|..];
    assert text == [text[0]] + (l.key + after);
    assert after == after[..4] + after[4..] && after[..4] == "\": \"";
    assert after[4..] == l.site + "\"";
    EntryParts(l.key, l.site);
  }

  lemma EntryParts(key: string, site: string)
    ensures EntryText(Landing(key, site)) == "\"" + (key + ("\": \"" + (site + "\"")))
  {
  }

  lemma EditMapMeans(m: Landings, e: MapEdit)
    ensures forall after :: EditMap(m, e) == Some(after) <==> MapEdited(m, e, after)
  {
    FindEntryIsFirst(m, e.entry);
    hide FindEntry, Replaced, Swapped, ReadEntry, PlainEntry, EntryText;
    match FindEntry(m, e.entry)
    case None =>
    case Some(i) =>
      assert forall k: nat :: FirstEntry(m, e.entry, k) ==> k == i;
      if e.ReplaceInEntry? {
        ReplacedMeans(EntryText(m[i]), e.find, e.other, e.count);
        var text := Replaced(EntryText(m[i]), e.find, e.other, e.count);
        if text.Some? {
          ReadEntryIsText(text.value);
        }
      }
      forall after ensures EditMap(m, e) == Some(after) <==> MapEdited(m, e, after) {
        if EditMap(m, e) == Some(after) {
          var l := after[i];
          assert NewEntry(m[i], e, l) && after == m[i := l];
        }
      }
  }

  lemma {:induction false} EditMapsMeans(m: Landings, es: seq<MapEdit>, after: Landings)
    ensures EditMaps(m, es) == Some(after) <==> MapsEdited(m, es, after)
    decreases es
  {
    hide EditMap, MapEdited;
    if es != [] {
      EditMapMeans(m, es[0]);
      if EditMap(m, es[0]).Some? {
        EditMapsMeans(EditMap(m, es[0]).value, es[1..], after);
      }
      forall mid | MapEdited(m, es[0], mid) ensures EditMap(m, es[0]) == Some(mid) {
      }
    }
  }

  // ---- Context appends

  /** A text put before or after the first place where the anchor stands in the joined lines. */
  predicate AppendedAt(lines: seq<string>, a: Append, before: string, behind: string, after: seq<string>) {
    && Join(lines, "\n") == before + a.anchor + behind
    && (forall j :: 0 <= j < |before| ==> !(a.anchor <= (before + a.anchor + behind)[j..]))
    && after == SplitOn(if a.before then before + a.text + a.anchor + behind else before + a.anchor + a.text + behind, '\n')
  }

  ghost predicate Appended(lines: seq<string>, a: Append, after: seq<string>) {
    exists before, behind :: AppendedAt(lines, a, before, behind, after)
  }

  ghost predicate AllAppended(lines: seq<string>, es: seq<Append>, after: seq<string>)
    decreases es
  {
    if es == [] then after == lines else exists mid :: Appended(lines, es[0], mid) && AllAppended(mid, es[1..], after)
  }

  lemma AppendMeans(lines: seq<string>, a: Append)
    ensures forall after :: AppendOne(lines, a) == Some(after) <==> Appended(lines, a, after)
  {
    var text := Join(lines, "\n");
    hide Find, Join, SplitOn, Spliced, AppendOne, Appended;
    forall after | AppendOne(lines, a) == Some(after) ensures Appended(lines, a, after) {
      AppendIsAppended(lines, a);
    }
    forall after | Appended(lines, a, after) ensures AppendOne(lines, a) == Some(after) {
      AppendedIsAppend(lines, a, after);
    }
  }

  lemma SplicedHere(before: string, anchor: string, behind: string, more: string)
    ensures Spliced(before + anchor + behind, |before|, more) == before + more + anchor + behind
    ensures Spliced(before + anchor + behind, |before| + |anchor|, more) == before + anchor + more + behind
  {
  }

  lemma AppendIsAppended(lines: seq<string>, a: Append)
    requires AppendOne(lines, a).Some?
    ensures Appended(lines, a, AppendOne(lines, a).value)
  {
    var text := Join(lines, "\n");
    FindIsFirst(text, a.anchor);
    hide Find, Join, SplitOn, Spliced;
    var at := Find(text, a.anchor).value;
    var before, behind := text[..at], text[at + |a.anchor|..];
    assert text == before + a.anchor + behind;
    SplicedHere(before, a.anchor, behind, a.text);
    assert AppendedAt(lines, a, before, behind, AppendOne(lines, a).value);
  }

  lemma FoundHere(before: string, anchor: string, behind: string)
    requires forall j :: 0 <= j < |before| ==> !(anchor <= (before + anchor + behind)[j..])
    ensures Find(before + anchor + behind, anchor) == Some(|before|)
  {
    var text := before + anchor + behind;
    FindIsFirst(text, anchor);
    hide Find;
    assert text[|before|..] == anchor + behind;
  }

  lemma AppendedIsAppend(lines: seq<string>, a: Append, after: seq<string>)
    requires Appended(lines, a, after)
    ensures AppendOne(lines, a) == Some(after)
  {
    hide AppendedAt, AppendOne;
    var before, behind :| AppendedAt(lines, a, before, behind, after);
    AppendedThere(lines, a, before, behind, after);
  }

  lemma AppendedThere(lines: seq<string>, a: Append, before: string, behind: string, after: seq<string>)
    requires AppendedAt(lines, a, before, behind, after)
    ensures AppendOne(lines, a) == Some(after)
  {
    hide Find, Join, SplitOn, Spliced;
    FoundHere(before, a.anchor, behind);
    SplicedHere(before, a.anchor, behind, a.text);
  }

  lemma {:induction false} AppendsMean(lines: seq<string>, es: seq<Append>, after: seq<string>)
    ensures AppendAll(lines, es) == Some(after) <==> AllAppended(lines, es, after)
    decreases es
  {
    hide AppendOne, Appended;
    if es != [] {
      AppendMeans(lines, es[0]);
      if AppendOne(lines, es[0]).Some? {
        AppendsMean(AppendOne(lines, es[0]).value, es[1..], after);
      }
      forall mid | Appended(lines, es[0], mid) ensures AppendOne(lines, es[0]) == Some(mid) {
      }
    }
  }

  // ---- What the two commits leave

  /** The first commit succeeds exactly when the status is the one to leave, the edits apply, and there is a
      map when one is expected; it leaves the edited lines, the new status, the map beside the contract,
      and nothing else changed. */
  lemma FirstCommitLeaves(f: Files, p: Payload, after: seq<string>)
    ensures CommitOne(f, p).Some? <==>
            && f.contract.status == p.statusFrom && (exists lines :: RowsEdited(f.contract.lines, p.rowEdits, lines))
            && (p.expectMap ==> f.contract.maps != [])
    ensures CommitOne(f, p).Some? && RowsEdited(f.contract.lines, p.rowEdits, after) ==>
            var maps := f.contract.maps;
            DoAll(f, CommitOne(f, p).value) ==
            Files(Contract(p.statusReopened, after, f.contract.ratifications, if maps == [] then [] else maps[1..]),
                  if maps == [] then f.sidecar else Some(maps[0]), None)
  {
    EditRowsMeans(f.contract.lines, p.rowEdits, after);
    hide EditRows, RowsEdited;
    forall lines ensures EditRows(f.contract.lines, p.rowEdits) == Some(lines) <==> RowsEdited(f.contract.lines, p.rowEdits, lines) {
      EditRowsMeans(f.contract.lines, p.rowEdits, lines);
    }
    if EditRows(f.contract.lines, p.rowEdits).Some? {
      assert RowsEdited(f.contract.lines, p.rowEdits, EditRows(f.contract.lines, p.rowEdits).value);
    }
    if CommitOne(f, p).Some? {
      StopsOf(f, CommitOne(f, p).value);
    }
  }

  /** What a second commit asks for. */
  ghost predicate MayClose(f: Files, p: Payload, sha: string, isCommit: bool) {
    && f.contract.status == p.statusReopened
    && (p.ratification.Some? ==> FullSha(sha) && isCommit)
    && (p.statusFinal == "realized" ==> f.sidecar.Some? && p.ratification.Some?)
    && (f.sidecar.Some? ==> exists m :: MapsEdited(f.sidecar.value, p.mapEdits, m))
    && exists lines :: AllAppended(f.contract.lines, p.appends, lines)
  }

  /** The contract a second commit leaves: the edited map first, the appends made, the ratification last. */
  ghost predicate Closed(f: Files, p: Payload, sha: string, end: Contract) {
    && end.status == p.statusFinal && AllAppended(f.contract.lines, p.appends, end.lines)
    && end.ratifications == f.contract.ratifications
         + (if p.ratification == None then [] else [Ratification(p.ratification.value.0, p.ratification.value.1, sha)])
    && if f.sidecar == None then end.maps == f.contract.maps
       else |end.maps| == 1 + |f.contract.maps| && end.maps[1..] == f.contract.maps && MapsEdited(f.sidecar.value, p.mapEdits, end.maps[0])
  }

  /** The second commit succeeds exactly when it may close the contract, and then leaves it so, with the
      sidecar gone. */
  lemma SecondCommitLeaves(f: Files, p: Payload, sha: string, isCommit: bool)
    ensures CommitTwo(f, p, sha, isCommit).Some? <==> MayClose(f, p, sha, isCommit)
    ensures CommitTwo(f, p, sha, isCommit).Some? ==>
              var end := DoAll(f, CommitTwo(f, p, sha, isCommit).value);
              Closed(f, p, sha, end.contract) && end.sidecar == None && end.temporary == None
  {
    hide EditMaps, MapsEdited, AppendAll, AllAppended, FullSha;
    forall lines ensures AppendAll(f.contract.lines, p.appends) == Some(lines) <==> AllAppended(f.contract.lines, p.appends, lines) {
      AppendsMean(f.contract.lines, p.appends, lines);
    }
    if f.sidecar.Some? {
      forall m ensures EditMaps(f.sidecar.value, p.mapEdits) == Some(m) <==> MapsEdited(f.sidecar.value, p.mapEdits, m) {
        EditMapsMeans(f.sidecar.value, p.mapEdits, m);
      }
    }
    if CommitTwo(f, p, sha, isCommit).Some? {
      StopsOf(f, CommitTwo(f, p, sha, isCommit).value);
    }
  }
}
