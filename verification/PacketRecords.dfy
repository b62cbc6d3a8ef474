/** The records of a raw, NUL-separated tree difference, and the audit of an instrument commit. */
module PacketRecords {
  import opened Text
  import opened UnitSegments

  // ---- What git prints

  /** One change: modes and object names, a status that may carry a score, and one path, or two for a
      rename or a copy. */
  datatype Record = Record(
    srcMode: string, dstMode: string, srcSha: string, dstSha: string, status: string, path: string, dest: Option<string>)

  predicate Field(s: string) { s != "" && forall i :: 0 <= i < |s| ==> !IsSpace(Py, s[i]) && s[i] != '\0' }

  predicate Path(s: string) { s != "" && '\0' !in s }

  predicate TwoPaths(status: char) { status == 'R' || status == 'C' }

  predicate WellPrinted(r: Record) {
    && Field(r.srcMode) && Field(r.dstMode) && Field(r.srcSha) && Field(r.dstSha) && Field(r.status)
    && Path(r.path) && (r.dest.Some? <==> TwoPaths(r.status[0])) && (r.dest.Some? ==> Path(r.dest.value))
  }

  function Meta(r: Record): string {
    ":" + r.srcMode + " " + r.dstMode + " " + r.srcSha + " " + r.dstSha + " " + r.status
  }

  function Tokens(r: Record): seq<string> {
    [Meta(r), r.path] + (if r.dest.Some? then [r.dest.value] else [])
  }

  function AllTokens(rs: seq<Record>): seq<string> {
    if rs == [] then [] else Tokens(rs[0]) + AllTokens(rs[1..])
  }

  /** Every field is ended by a NUL. */
  function Print(rs: seq<Record>): string {
    Join(AllTokens(rs) + [""], "\0")
  }

  // ---- What the audit reads

  datatype Entry = Entry(status: char, mode: string, path: string)

  /** The entries of a list of tokens; none when a record cannot be read. */
  function ReadTokens(tokens: seq<string>): Option<seq<Entry>>
    decreases |tokens|
  {
    if tokens == [] then Some([])
    else if tokens[0] == "" then ReadTokens(tokens[1..])
    else if !StartsWith(tokens[0], ":") then None
    else
      var meta := Words(tokens[0][1..]);
      if |meta| < 5 || meta[4] == "" then None
      else
        var status := meta[4][0];
        var paths := if TwoPaths(status) then 2 else 1;
        if paths >= |tokens| || tokens[paths] == "" then None
        else
          var rest :- ReadTokens(tokens[paths + 1..]);
          Some([Entry(status, meta[1], tokens[paths])] + rest)
  }

  function EntryOf(r: Record): Entry
    requires WellPrinted(r)
  {
    Entry(r.status[0], r.dstMode, if r.dest.Some? then r.dest.value else r.path)
  }

  function EntriesOf(rs: seq<Record>): seq<Entry>
    requires forall i :: 0 <= i < |rs| ==> WellPrinted(rs[i])
  {
    seq(|rs|, i requires 0 <= i < |rs| => EntryOf(rs[i]))
  }

  lemma {:induction false} WordStops(w: string, rest: string)
    requires (forall i :: 0 <= i < |w| ==> !IsSpace(Py, w[i])) && (rest == "" || IsSpace(Py, rest[0]))
    ensures WordLength(w + rest) == |w|
    decreases w
  {
    if w == "" {
      assert w + rest == rest;
    } else {
      assert (w + rest)[1..] == w[1..] + rest;
      WordStops(w[1..], rest);
    }
  }

  lemma WordThen(w: string, rest: string)
    requires Field(w)
    ensures Words(w + " " + rest) == [w] + Words(rest)
  {
    var all := w + " " + rest;
    assert all == w + (" " + rest);
    WordStops(w, " " + rest);
    assert all[|w|..] == " " + rest && all[..|w|] == w;
    assert (" " + rest)[1..] == rest;
    assert Words(" " + rest) == Words(rest);
  }

  lemma LastWord(w: string)
    requires Field(w)
    ensures Words(w) == [w]
  {
    assert w + "" == w;
    WordStops(w, "");
    assert w[|w|..] == "" && w[..|w|] == w;
  }

  lemma MetaReads(r: Record)
    requires WellPrinted(r)
    ensures StartsWith(Meta(r), ":") && Words(Meta(r)[1..]) == [r.srcMode, r.dstMode, r.srcSha, r.dstSha, r.status]
  {
    hide Words, Field, Path;
    var e := r.status;
    var d := r.dstSha + " " + e;
    var c := r.srcSha + " " + d;
    var b := r.dstMode + " " + c;
    var a := r.srcMode + " " + b;
    assert Meta(r) == ":" + a;
    assert Meta(r)[1..] == a;
    LastWord(e);
    WordThen(r.dstSha, e);
    WordThen(r.srcSha, d);
    WordThen(r.dstMode, c);
    WordThen(r.srcMode, b);
  }

  lemma {:induction false} TokensRead(rs: seq<Record>)
    requires forall i :: 0 <= i < |rs| ==> WellPrinted(rs[i])
    ensures ReadTokens(AllTokens(rs) + [""]) == Some(EntriesOf(rs))
    decreases rs
  {
    hide WellPrinted, Meta, Words;
    if rs == [] {
      assert AllTokens(rs) + [""] == [""];
      assert [""][1..] == [];
      assert EntriesOf(rs) == [];
    } else {
      TokensRead(rs[1..]);
      RecordReads(rs[0], AllTokens(rs[1..]) + [""]);
      assert AllTokens(rs) + [""] == Tokens(rs[0]) + (AllTokens(rs[1..]) + [""]);
      assert EntriesOf(rs) == [EntryOf(rs[0])] + EntriesOf(rs[1..]);
    }
  }

  lemma RecordReads(r: Record, rest: seq<string>)
    requires WellPrinted(r) && ReadTokens(rest).Some?
    ensures ReadTokens(Tokens(r) + rest) == Some([EntryOf(r)] + ReadTokens(rest).value)
  {
    hide Meta, Words;
    MetaReads(r);
    var tokens, paths := Tokens(r) + rest, if TwoPaths(r.status[0]) then 2 else 1;
    assert tokens[0] == Meta(r) && tokens[paths] == EntryOf(r).path && tokens[paths + 1..] == rest;
  }

  lemma MetaHasNoNul(r: Record)
    requires WellPrinted(r)
    ensures '\0' !in Meta(r)
  {
    hide IsSpace;
  }

  lemma {:induction false} TokensHaveNoNul(rs: seq<Record>)
    requires forall i :: 0 <= i < |rs| ==> WellPrinted(rs[i])
    ensures forall t :: t in AllTokens(rs) ==> '\0' !in t
    decreases rs
  {
    hide Meta, Field;
    if rs != [] {
      TokensHaveNoNul(rs[1..]);
      MetaHasNoNul(rs[0]);
      assert WellPrinted(rs[0]);
    }
  }

  /** Reading what was printed gives the status, mode and landing path of every record, whatever
      characters but NUL the paths hold. */
  lemma RecordsReadBack(rs: seq<Record>)
    requires forall i :: 0 <= i < |rs| ==> WellPrinted(rs[i])
    ensures ReadTokens(SplitOn(Print(rs), '\0')) == Some(EntriesOf(rs))
  {
    hide WellPrinted, Meta;
    TokensHaveNoNul(rs);
    SplitOfJoin(AllTokens(rs) + [""], '\0');
    TokensRead(rs);
  }

  // ---- The audit

  const TESTKIT := "v3/src/testkit/"
  const BLOB_MODES: set<string> := {"100644", "100755"}

  /** A manifest that may be declared: not empty, no path twice, testkit paths only. */
  predicate ManifestOk(files: seq<string>) {
    && files != []
    && (forall i :: 0 <= i < |files| ==> files[i] != "" && !StartsWith(files[i], "/") && !Contains(files[i], ".."))
    && (forall i, j :: 0 <= i < j < |files| ==> files[i] != files[j])
    && forall i :: 0 <= i < |files| ==> StartsWith(files[i], TESTKIT)
  }

  /** Only additions of ordinary files that the manifest names, and at least one. */
  predicate Confined(entries: seq<Entry>, files: seq<string>, packet: string) {
    && entries != []
    && forall i :: 0 <= i < |entries| ==>
         entries[i].status == 'A' && entries[i].mode in BLOB_MODES && entries[i].path in files && entries[i].path != packet
  }

  datatype Finding = BadManifest | Unreadable | Empty | PacketTouched | Outside | NotAdded | NotOrdinary

  method CheckManifest(files: seq<string>) returns (ok: bool)
    ensures ok <==> ManifestOk(files)
  {
    hide TESTKIT, Contains;
    if files == [] {
      return false;
    }
    for i := 0 to |files|
      invariant forall k :: 0 <= k < i ==> files[k] != "" && !StartsWith(files[k], "/") && !Contains(files[k], "..")
    {
      if files[i] == "" || StartsWith(files[i], "/") || Contains(files[i], "..") {
        return false;
      }
    }
    for i := 0 to |files|
      invariant forall j, k :: 0 <= j < k < i ==> files[j] != files[k]
    {
      if files[i] in files[..i] {
        var j :| 0 <= j < i && files[..i][j] == files[i];
        return false;
      }
    }
    for i := 0 to |files|
      invariant forall k :: 0 <= k < i ==> StartsWith(files[k], TESTKIT)
    {
      if !StartsWith(files[i], TESTKIT) {
        return false;
      }
    }
    return true;
  }

  /** The record loop: an index into the tokens, and the entries so far. */
  method ReadRecords(tokens: seq<string>) returns (r: Option<seq<Entry>>)
    ensures r == ReadTokens(tokens)
  {
    hide ReadTokens, Words;
    var entries: seq<Entry> := [];
    var idx: nat := 0;
    assert tokens[0..] == tokens;
    FollowedNothing(ReadTokens(tokens));
    while idx < |tokens|
      invariant idx <= |tokens|
      invariant Followed(entries, ReadTokens(tokens[idx..])) == ReadTokens(tokens)
    {
      var token := tokens[idx];
      ReadStep(tokens, idx);
      if token == "" {
        idx := idx + 1;
        continue;
      }
      if !StartsWith(token, ":") {
        return None;
      }
      var meta := Words(token[1..]);
      if |meta| < 5 || meta[4] == "" {
        return None;
      }
      var status := meta[4][0];
      var paths := if TwoPaths(status) then 2 else 1;
      if idx + paths >= |tokens| || tokens[idx + paths] == "" {
        return None;
      }
      FollowedOne(entries, Entry(status, meta[1], tokens[idx + paths]), ReadTokens(tokens[idx + paths + 1..]));
      entries := entries + [Entry(status, meta[1], tokens[idx + paths])];
      idx := idx + paths + 1;
    }
    assert tokens[idx..] == [];
    NoTokens(entries);
    return Some(entries);
  }

  function Followed(entries: seq<Entry>, rest: Option<seq<Entry>>): Option<seq<Entry>> {
    if rest == None then None else Some(entries + rest.value)
  }

  lemma FollowedNothing(rest: Option<seq<Entry>>)
    ensures Followed([], rest) == rest
  {
    if rest.Some? {
      assert [] + rest.value == rest.value;
    }
  }

  lemma FollowedOne(entries: seq<Entry>, e: Entry, rest: Option<seq<Entry>>)
    ensures Followed(entries, Followed([e], rest)) == Followed(entries + [e], rest)
  {
    if rest.Some? {
      assert entries + ([e] + rest.value) == entries + [e] + rest.value;
    }
  }

  lemma NoTokens(entries: seq<Entry>)
    ensures Followed(entries, ReadTokens([])) == Some(entries)
  {
    assert entries + [] == entries;
  }

  lemma ReadStep(tokens: seq<string>, idx: nat)
    requires idx < |tokens|
    ensures var here, token := ReadTokens(tokens[idx..]), tokens[idx];
            if token == "" then here == ReadTokens(tokens[idx + 1..])
            else if !StartsWith(token, ":") then here == None
            else
              var meta := Words(token[1..]);
              if |meta| < 5 || meta[4] == "" then here == None
              else
                var paths := if TwoPaths(meta[4][0]) then 2 else 1;
                if idx + paths >= |tokens| || tokens[idx + paths] == "" then here == None
                else here == Followed([Entry(meta[4][0], meta[1], tokens[idx + paths])], ReadTokens(tokens[idx + paths + 1..]))
  {
    hide Words;
    var here := tokens[idx..];
    assert here[1..] == tokens[idx + 1..];
    assert idx + 2 <= |tokens| ==> here[2..] == tokens[idx + 2..];
    assert idx + 3 <= |tokens| ==> here[3..] == tokens[idx + 3..];
  }

  /** The audit's findings, in its order; each stops it but the last. */
  method CheckInstrumentCommit(files: seq<string>, packet: string, tokens: seq<string>) returns (findings: seq<Finding>)
    ensures findings == [] <==>
              ManifestOk(files) && ReadTokens(tokens).Some? && Confined(ReadTokens(tokens).value, files, packet)
  {
    hide ManifestOk, ReadTokens, BLOB_MODES;
    var ok := CheckManifest(files);
    if !ok {
      return [BadManifest];
    }
    var read := ReadRecords(tokens);
    if read == None {
      return [Unreadable];
    }
    var entries := read.value;
    var changed := set e | e in entries :: e.path;
    assert forall i :: 0 <= i < |entries| ==> entries[i].path in changed;
    if entries != [] {
      assert entries[0].path in changed;
    }
    if changed == {} {
      return [Empty];
    }
    if packet in changed {
      var e :| e in entries && e.path == packet;
      return [PacketTouched];
    }
    if !(changed <= set f | f in files) {
      var p :| p in changed && p !in files;
      var e :| e in entries && e.path == p;
      return [Outside];
    }
    if exists e :: e in entries && e.status != 'A' {
      var e :| e in entries && e.status != 'A';
      return [NotAdded];
    }
    if exists e :: e in entries && e.mode !in BLOB_MODES {
      var e :| e in entries && e.mode !in BLOB_MODES;
      return [NotOrdinary];
    }
    return [];
  }

  /** An added ordinary file of the testkit that the manifest names, not the packet file. */
  predicate TestkitAddition(r: Record, files: seq<string>, packet: string) {
    && StartsWith(r.status, "A") && r.dest == None && r.dstMode in BLOB_MODES
    && r.path in files && StartsWith(r.path, TESTKIT) && r.path != packet
  }

  /** The audit of a printed commit is clean exactly when the manifest may be declared, something was
      changed, and every change is such an addition. */
  lemma CleanAuditConfines(files: seq<string>, packet: string, rs: seq<Record>)
    requires forall i :: 0 <= i < |rs| ==> WellPrinted(rs[i])
    ensures (ManifestOk(files) && var read := ReadTokens(SplitOn(Print(rs), '\0'));
             read.Some? && Confined(read.value, files, packet)) <==>
            ManifestOk(files) && rs != [] && forall i :: 0 <= i < |rs| ==> TestkitAddition(rs[i], files, packet)
  {
    hide Print, SplitOn, ReadTokens, BLOB_MODES, TESTKIT, Contains;
    RecordsReadBack(rs);
    var entries := EntriesOf(rs);
    if ManifestOk(files) && Confined(entries, files, packet) {
      forall i | 0 <= i < |rs| ensures TestkitAddition(rs[i], files, packet) {
        assert entries[i] == EntryOf(rs[i]) && WellPrinted(rs[i]);
      }
    }
    if ManifestOk(files) && rs != [] && forall i :: 0 <= i < |rs| ==> TestkitAddition(rs[i], files, packet) {
      forall i | 0 <= i < |entries|
        ensures && entries[i].status == 'A' && entries[i].mode in BLOB_MODES
                && entries[i].path in files && entries[i].path != packet
      {
        assert entries[i] == EntryOf(rs[i]) && WellPrinted(rs[i]) && TestkitAddition(rs[i], files, packet);
      }
    }
  }
}
