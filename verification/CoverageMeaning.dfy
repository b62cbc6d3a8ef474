/** What it takes for the plan's files to be read without a finding, and what a packet owns and records,
    stated on the files alone. */
module CoverageMeaning {
  import opened Text
  import opened CoverageLock

  // ---- Rows

  /** A path and an anchor, neither empty, parted by the only hash sign. */
  ghost predicate IsReference(s: string) { exists path, anchor :: Refers(s, path, anchor) }

  predicate Refers(s: string, path: string, anchor: string) {
    path != "" && anchor != "" && '#' !in path && '#' !in anchor && s == path + "#" + anchor
  }

  ghost predicate PendingRow(r: Row) { r.Row? && r.status == Some("pending") && r.keys == {"status"} }

  ghost predicate RealizedRow(r: Row) {
    && r.Row? && r.status == Some("realized") && r.keys == {"status", "disposition", "codeRef"}
    && (exists d :: r.disposition == Some(d)
          && d in {"implement", "type/schema", "test-only", "generated/mapped", "alias/inherited", "review-only"})
    && exists ref :: r.codeRef == Some(ref) && IsReference(ref)
  }

  lemma ReferenceMeans(s: string)
    ensures CodeRef(s) <==> IsReference(s)
  {
    if CodeRef(s) {
      var i :| 0 < i < |s| - 1 && s[i] == '#' && forall j :: 0 <= j < |s| && j != i ==> s[j] != '#';
      assert s == s[..i] + "#" + s[i + 1..];
      assert Refers(s, s[..i], s[i + 1..]);
    }
    if IsReference(s) {
      var path, anchor :| Refers(s, path, anchor);
      var i := |path|;
      assert s[..i] == path && s[i] == '#' && s[i + 1..] == anchor;
      assert forall j :: 0 <= j < i ==> s[j] == path[j];
      assert forall j :: i < j < |s| ==> s[j] == anchor[j - i - 1];
    }
  }

  lemma RowMeans(r: Row)
    ensures GoodRow(r) <==> PendingRow(r) || RealizedRow(r)
  {
    if r.Row? && r.codeRef.Some? {
      ReferenceMeans(r.codeRef.value);
    }
    hide CodeRef, IsReference;
  }

  // ---- Files

  ghost predicate Inventoried(inv: Inventory) {
    |inv.units| == 159 && |inv.invariants| == 116 && |inv.rejections| == 54 && |inv.traces| == 20
  }

  /** A row for each unit and no other, each pending or realized. */
  ghost predicate ManifestReads(manifest: Option<map<string, Row>>, units: set<string>) {
    manifest.Some? && manifest.value.Keys == units
    && forall u :: u in units ==> PendingRow(manifest.value[u]) || RealizedRow(manifest.value[u])
  }

  ghost predicate ClassesRead(classes: Option<map<string, string>>, invariants: set<string>) {
    classes.Some? && classes.value.Keys == invariants
    && forall i :: i in invariants ==> classes.value[i] in {"checker", "type/schema", "test", "review"}
  }

  ghost predicate UnitEntry(e: Entry, inv: Inventory) {
    && e.Entry? && e.id in inv.units
    && e.disposition in {"implement", "type/schema", "test-only", "generated/mapped", "alias/inherited", "review-only"}
  }

  ghost predicate InvariantEntry(e: Entry, inv: Inventory) {
    e.Entry? && e.id in inv.invariants && e.disposition in {"checker", "type/schema", "test", "review"}
  }

  ghost predicate NamesOf(names: seq<Option<string>>, known: set<string>) {
    forall k :: 0 <= k < |names| ==> names[k].Some? && names[k].value in known
  }

  ghost predicate SliceReads(s: Slice, inv: Inventory) {
    && s.keys == {"units", "rejections", "invariants", "traces", "shared_ownership"}
    && (forall k :: 0 <= k < |s.units| ==> UnitEntry(s.units[k], inv))
    && (forall k :: 0 <= k < |s.invariants| ==> InvariantEntry(s.invariants[k], inv))
    && NamesOf(s.rejections, inv.rejections) && NamesOf(s.traces, inv.traces)
    && forall k :: 0 <= k < |s.shares| ==> s.shares[k].Some?
  }

  /** A packet reads when its slice is the null value or in order. */
  ghost predicate PacketReads(b: Block, inv: Inventory) { b.NullSlice? || (b.Sliced? && SliceReads(b.slice, inv)) }

  ghost predicate FilesRead(p: Plan) {
    && Inventoried(p.inventory) && ManifestReads(p.manifest, p.inventory.units) && ClassesRead(p.classes, p.inventory.invariants)
    && forall n :: n in p.packets ==> PacketReads(p.packets[n], p.inventory)
  }

  lemma ManifestMeans(manifest: Option<map<string, Row>>, units: set<string>)
    ensures ManifestFindings(manifest, units) == {} <==> ManifestReads(manifest, units)
  {
    hide GoodRow, PendingRow, RealizedRow;
    if manifest.Some? {
      var rows := manifest.value;
      forall u | u in rows ensures GoodRow(rows[u]) <==> PendingRow(rows[u]) || RealizedRow(rows[u]) {
        RowMeans(rows[u]);
      }
      forall u | u in rows && !GoodRow(rows[u]) ensures BadRow(u) in ManifestFindings(manifest, units) {
      }
      forall u | u in units && u !in rows ensures MissingUnit(u) in ManifestFindings(manifest, units) {
      }
      forall u | u in rows && u !in units ensures UnknownUnit(u) in ManifestFindings(manifest, units) {
      }
      assert rows.Keys == units <==> (forall u :: u in units ==> u in rows) && forall u :: u in rows ==> u in units;
    }
  }

  lemma ClassesMean(classes: Option<map<string, string>>, invariants: set<string>)
    ensures ClassesFindings(classes, invariants) == {} <==> ClassesRead(classes, invariants)
  {
    if classes.Some? {
      var m := classes.value;
      forall i | i in m && m[i] !in INVARIANT_DISPOSITIONS ensures BadClass(i) in ClassesFindings(classes, invariants) {
      }
      forall i | i in invariants && i !in m ensures MissingInvariant(i) in ClassesFindings(classes, invariants) {
      }
      forall i | i in m && i !in invariants ensures UnknownInvariant(i) in ClassesFindings(classes, invariants) {
      }
      assert m.Keys == invariants <==> (forall i :: i in invariants ==> i in m) && forall i :: i in m ==> i in invariants;
    }
  }

  lemma EntriesMean(axis: Axis, n: string, entries: seq<Entry>, known: set<string>)
    ensures EntryFindings(axis, n, entries, known) == {} <==>
            forall k :: 0 <= k < |entries| ==> entries[k].Entry? && entries[k].id in known && entries[k].disposition in Valid(axis)
  {
    hide Valid;
    forall k | 0 <= k < |entries| && entries[k].BadEntry? ensures MalformedEntry(axis, n, k) in EntryFindings(axis, n, entries, known) {
    }
    forall k | 0 <= k < |entries| && entries[k].Entry? && entries[k].id !in known
      ensures UnknownId(axis, n, k) in EntryFindings(axis, n, entries, known)
    {
    }
    forall k | 0 <= k < |entries| && entries[k].Entry? && entries[k].disposition !in Valid(axis)
      ensures BadDisposition(axis, n, k) in EntryFindings(axis, n, entries, known)
    {
    }
  }

  lemma NamesMean(n: string, names: seq<Option<string>>, known: set<string>)
    ensures RejectionFindings(n, names, known) == {} <==> NamesOf(names, known)
    ensures TraceFindings(n, names, known) == {} <==> NamesOf(names, known)
  {
    forall k | 0 <= k < |names| && (names[k] == None || names[k].value !in known)
      ensures UnknownRejection(n, k) in RejectionFindings(n, names, known) && UnknownTrace(n, k) in TraceFindings(n, names, known)
    {
    }
  }

  lemma SharesMean(n: string, shares: seq<Option<Share>>)
    ensures MalformedShares(n, shares) == {} <==> forall k :: 0 <= k < |shares| ==> shares[k].Some?
  {
    forall k | 0 <= k < |shares| && shares[k] == None ensures MalformedShare(n, k) in MalformedShares(n, shares) {
    }
  }

  lemma PacketMeans(n: string, b: Block, inv: Inventory)
    ensures SliceFindings(n, b, inv) == {} <==> PacketReads(b, inv)
  {
    hide EntryFindings, RejectionFindings, TraceFindings, MalformedShares, NamesOf;
    if b.Sliced? {
      var s := b.slice;
      EntriesMean(Units, n, s.units, inv.units);
      EntriesMean(Invariants, n, s.invariants, inv.invariants);
      NamesMean(n, s.rejections, inv.rejections);
      NamesMean(n, s.traces, inv.traces);
      SharesMean(n, s.shares);
    }
  }

  /** Nothing is found in reading the plan exactly when every file reads. */
  lemma ReadCleanIs(p: Plan)
    ensures ReadClean(p) <==> FilesRead(p)
  {
    hide ManifestFindings, ManifestReads, ClassesFindings, ClassesRead, SliceFindings, PacketReads;
    ManifestMeans(p.manifest, p.inventory.units);
    ClassesMean(p.classes, p.inventory.invariants);
    forall n | n in p.packets ensures SliceFindings(n, p.packets[n], p.inventory) == {} <==> PacketReads(p.packets[n], p.inventory) {
      PacketMeans(n, p.packets[n], p.inventory);
    }
    InventoryMeans(p.inventory);
    hide InventoryFindings, Inventoried;
    forall n, f | n in p.packets && f in SliceFindings(n, p.packets[n], p.inventory) ensures f in ReadFindings(p.packets, p.inventory) {
    }
    if forall n :: n in p.packets ==> SliceFindings(n, p.packets[n], p.inventory) == {} {
      assert ReadFindings(p.packets, p.inventory) == {};
    }
  }

  lemma InventoryMeans(inv: Inventory)
    ensures InventoryFindings(inv) == {} <==> Inventoried(inv)
  {
  }

  // ---- Owning and recording

  /** The entry at `k` names the id, with this disposition. */
  predicate Says(entries: seq<Entry>, k: nat, id: string, d: string) { k < |entries| && entries[k] == Entry.Entry(id, d) }

  ghost predicate Lists(entries: seq<Entry>, id: string) { exists k: nat, d :: Says(entries, k, id, d) }

  /** A packet owns a unit or an invariant it lists, and a trace it names that the inventory knows. */
  lemma OwnsMeans(p: Plan, n: string, item: string)
    ensures Owns(p, Units, n, item) <==> n in p.packets && p.packets[n].Sliced? && Lists(p.packets[n].slice.units, item)
    ensures Owns(p, Invariants, n, item) <==> n in p.packets && p.packets[n].Sliced? && Lists(p.packets[n].slice.invariants, item)
    ensures Owns(p, Traces, n, item) <==>
            n in p.packets && p.packets[n].Sliced? && Some(item) in p.packets[n].slice.traces && item in p.inventory.traces
  {
    hide Lists, Ids;
    if n in p.packets && p.packets[n].Sliced? {
      var s := p.packets[n].slice;
      ListsMean(s.units, item);
      ListsMean(s.invariants, item);
    }
  }

  lemma ListsMean(entries: seq<Entry>, id: string)
    ensures id in Ids(entries) <==> Lists(entries, id)
  {
    if id in Ids(entries) {
      var k :| 0 <= k < |entries| && entries[k].Entry? && entries[k].id == id;
      assert Says(entries, k, id, entries[k].disposition);
    }
  }

  /** The last valid word a packet has on an id. */
  ghost predicate LastWord(entries: seq<Entry>, id: string, valid: set<string>, d: string) {
    d in valid && exists k: nat :: Says(entries, k, id, d) && NothingAfter(entries, k, id, valid)
  }

  ghost predicate NothingAfter(entries: seq<Entry>, k: nat, id: string, valid: set<string>) {
    forall m: nat, d :: k < m && Says(entries, m, id, d) ==> d !in valid
  }

  /** What is recorded is the last entry for the id whose disposition is valid. */
  lemma {:induction false} RecordedIsLast(entries: seq<Entry>, id: string, valid: set<string>, d: string)
    ensures LastDisposition(entries, id, valid) == Some(d) <==> LastWord(entries, id, valid, d)
    decreases |entries|
  {
    if entries != [] {
      var n := |entries| - 1;
      var front, e := entries[..n], entries[n];
      RecordedIsLast(front, id, valid, d);
      hide LastDisposition;
      LastUnfolds(entries, id, valid);
      if e.Entry? && e.id == id && e.disposition in valid {
        assert Says(entries, n, id, e.disposition);
        assert NothingAfter(entries, n, id, valid);
      } else {
        LastWordGrows(entries, id, valid, d);
      }
    }
  }

  lemma LastUnfolds(entries: seq<Entry>, id: string, valid: set<string>)
    requires entries != []
    ensures var e := entries[|entries| - 1];
            LastDisposition(entries, id, valid) ==
            if e.Entry? && e.id == id && e.disposition in valid then Some(e.disposition)
            else LastDisposition(entries[..|entries| - 1], id, valid)
  {
  }

  lemma LastWordGrows(entries: seq<Entry>, id: string, valid: set<string>, d: string)
    requires entries != [] && var e := entries[|entries| - 1]; !(e.Entry? && e.id == id && e.disposition in valid)
    ensures LastWord(entries, id, valid, d) <==> LastWord(entries[..|entries| - 1], id, valid, d)
  {
    var n := |entries| - 1;
    var front := entries[..n];
    if LastWord(front, id, valid, d) {
      var k: nat :| Says(front, k, id, d) && NothingAfter(front, k, id, valid);
      assert Says(entries, k, id, d);
      forall m: nat, x | k < m && Says(entries, m, id, x) ensures x !in valid {
        assert m < n ==> Says(front, m, id, x);
      }
    }
    if LastWord(entries, id, valid, d) {
      var k: nat :| Says(entries, k, id, d) && NothingAfter(entries, k, id, valid);
      assert Says(front, k, id, d);
      forall m: nat, x | k < m && Says(front, m, id, x) ensures x !in valid {
        assert Says(entries, m, id, x);
      }
    }
  }
}
