/** The coverage gate over the task packets: who owns each unit, invariant and trace, and whether the
    code manifest and the packets agree. */
module CoverageLock {
  import opened Text

  datatype Axis = Units | Invariants | Traces

  /** A `units` or `invariants` entry of a slice; anything but an object with exactly an id and a
      disposition is malformed. */
  datatype Entry = Entry(id: string, disposition: string) | BadEntry

  datatype Share = Share(item: string, coOwner: string)

  datatype Slice = Slice(
    keys: set<string>, units: seq<Entry>, rejections: seq<Option<string>>, invariants: seq<Entry>,
    traces: seq<Option<string>>, shares: seq<Option<Share>>)

  /** What a packet file's machine blocks give: not exactly one readable slice, the null value for one,
      which is passed over without a word, a slice that is no object, or a slice. */
  datatype Block = Unreadable | NullSlice | NotAnObject | Sliced(slice: Slice)

  /** A manifest row: its keys, and the text of the fields that are there. */
  datatype Row = NoRow | Row(keys: set<string>, status: Option<string>, disposition: Option<string>, codeRef: Option<string>)

  datatype Inventory = Inventory(units: set<string>, invariants: set<string>, rejections: set<string>, traces: set<string>)

  /** The files of the plan; a manifest that is missing or no object is none. */
  datatype Plan = Plan(
    inventory: Inventory, manifest: Option<map<string, Row>>, classes: Option<map<string, string>>,
    packets: map<string, Block>)

  datatype Finding =
    | InventoryDrift(counted: string)
    | NoManifest
    | BadRow(unit: string)
    | MissingUnit(unit: string)
    | UnknownUnit(unit: string)
    | NoClasses
    | BadClass(id: string)
    | MissingInvariant(id: string)
    | UnknownInvariant(id: string)
    | NoSlice(packet: string)
    | SliceNotAnObject(packet: string)
    | BadKeys(packet: string)
    | MalformedEntry(axis: Axis, packet: string, at: nat)
    | UnknownId(axis: Axis, packet: string, at: nat)
    | BadDisposition(axis: Axis, packet: string, at: nat)
    | UnknownRejection(packet: string, at: nat)
    | UnknownTrace(packet: string, at: nat)
    | MalformedShare(packet: string, at: nat)
    | DoubleOwner(axis: Axis, item: string, packet: string)
    | ShareUnknown(packet: string, share: Share)
    | ShareNotDeclared(packet: string, share: Share)
    | ShareWithItself(packet: string, share: Share)
    | ShareWithNobody(packet: string, share: Share)
    | ShareOneSided(packet: string, share: Share)
    | OwnedButPending(unit: string)
    | UnitDrift(unit: string, packet: string)
    | RealizedUnowned(unit: string)
    | ClassDrift(id: string, packet: string)

  const UNIT_DISPOSITIONS: set<string> :=
    {"implement", "type/schema", "test-only", "generated/mapped", "alias/inherited", "review-only"}
  const INVARIANT_DISPOSITIONS: set<string> := {"checker", "type/schema", "test", "review"}
  const SLICE_KEYS: set<string> := {"units", "rejections", "invariants", "traces", "shared_ownership"}
  const REALIZED_KEYS: set<string> := {"status", "disposition", "codeRef"}

  // ---- What the slices declare

  function Ids(entries: seq<Entry>): set<string> {
    set k | 0 <= k < |entries| && entries[k].Entry? :: entries[k].id
  }

  function KnownTraces(traces: seq<Option<string>>, known: set<string>): set<string> {
    set k | 0 <= k < |traces| && traces[k].Some? && traces[k].value in known :: traces[k].value
  }

  function Declared(b: Block, axis: Axis, inv: Inventory): set<string> {
    if !b.Sliced? then {}
    else
      match axis
      case Units => Ids(b.slice.units)
      case Invariants => Ids(b.slice.invariants)
      case Traces => KnownTraces(b.slice.traces, inv.traces)
  }

  function DeclaredAnywhere(b: Block, inv: Inventory): set<string> {
    Declared(b, Units, inv) + Declared(b, Invariants, inv) + Declared(b, Traces, inv)
  }

  function SharesOf(b: Block): set<Share> {
    if !b.Sliced? then {} else set k | 0 <= k < |b.slice.shares| && b.slice.shares[k].Some? :: b.slice.shares[k].value
  }

  /** The packets that declare an item. */
  function Owners(packets: map<string, Block>, axis: Axis, item: string, inv: Inventory): set<string> {
    set n | n in packets && item in Declared(packets[n], axis, inv)
  }

  /** The disposition recorded for an id: that of its last entry with a valid token. */
  function LastDisposition(entries: seq<Entry>, id: string, valid: set<string>): Option<string> {
    if entries == [] then None
    else
      var e := entries[|entries| - 1];
      if e.Entry? && e.id == id && e.disposition in valid then Some(e.disposition)
      else LastDisposition(entries[..|entries| - 1], id, valid)
  }

  function Entries(b: Block, axis: Axis): seq<Entry> {
    if !b.Sliced? || axis == Traces then [] else if axis == Units then b.slice.units else b.slice.invariants
  }

  function Valid(axis: Axis): set<string> {
    if axis == Units then UNIT_DISPOSITIONS else INVARIANT_DISPOSITIONS
  }

  function Recorded(packets: map<string, Block>, axis: Axis, id: string, packet: string): Option<string> {
    if packet in packets then LastDisposition(Entries(packets[packet], axis), id, Valid(axis)) else None
  }

  // ---- What each pass reports

  predicate CodeRef(s: string) {
    exists i :: 0 < i < |s| - 1 && s[i] == '#' && forall j :: 0 <= j < |s| && j != i ==> s[j] != '#'
  }

  predicate GoodRow(r: Row) {
    && r.Row?
    && (r.status == Some("pending") || r.status == Some("realized"))
    && (r.status == Some("pending") ==> r.keys == {"status"})
    && (r.status == Some("realized") ==>
          && r.keys == REALIZED_KEYS
          && r.disposition.Some? && r.disposition.value in UNIT_DISPOSITIONS
          && r.codeRef.Some? && CodeRef(r.codeRef.value))
  }

  predicate Realized(r: Row) { r.Row? && r.status == Some("realized") }

  function InventoryFindings(inv: Inventory): set<Finding> {
    (if |inv.units| != 159 then {InventoryDrift("units")} else {})
    + (if |inv.invariants| != 116 then {InventoryDrift("invariants")} else {})
    + (if |inv.rejections| != 54 then {InventoryDrift("rejections")} else {})
    + (if |inv.traces| != 20 then {InventoryDrift("traces")} else {})
  }

  function ManifestFindings(manifest: Option<map<string, Row>>, units: set<string>): set<Finding> {
    if manifest == None then {NoManifest}
    else
      (set u | u in manifest.value && !GoodRow(manifest.value[u]) :: BadRow(u))
      + (set u | u in units - manifest.value.Keys :: MissingUnit(u))
      + (set u | u in manifest.value.Keys - units :: UnknownUnit(u))
  }

  function ClassesFindings(classes: Option<map<string, string>>, invariants: set<string>): set<Finding> {
    if classes == None then {NoClasses}
    else
      (set i | i in classes.value && classes.value[i] !in INVARIANT_DISPOSITIONS :: BadClass(i))
      + (set i | i in invariants - classes.value.Keys :: MissingInvariant(i))
      + (set i | i in classes.value.Keys - invariants :: UnknownInvariant(i))
  }

  function EntryFindings(axis: Axis, n: string, entries: seq<Entry>, known: set<string>): set<Finding> {
    (set k | 0 <= k < |entries| && entries[k].BadEntry? :: MalformedEntry(axis, n, k))
    + (set k | 0 <= k < |entries| && entries[k].Entry? && entries[k].id !in known :: UnknownId(axis, n, k))
    + (set k | 0 <= k < |entries| && entries[k].Entry? && entries[k].disposition !in Valid(axis) :: BadDisposition(axis, n, k))
  }

  function RejectionFindings(n: string, names: seq<Option<string>>, known: set<string>): set<Finding> {
    set k | 0 <= k < |names| && (names[k] == None || names[k].value !in known) :: UnknownRejection(n, k)
  }

  function TraceFindings(n: string, names: seq<Option<string>>, known: set<string>): set<Finding> {
    set k | 0 <= k < |names| && (names[k] == None || names[k].value !in known) :: UnknownTrace(n, k)
  }

  function MalformedShares(n: string, shares: seq<Option<Share>>): set<Finding> {
    set k | 0 <= k < |shares| && shares[k] == None :: MalformedShare(n, k)
  }

  function SliceFindings(n: string, b: Block, inv: Inventory): set<Finding> {
    match b
    case Unreadable => {NoSlice(n)}
    case NullSlice => {}
    case NotAnObject => {SliceNotAnObject(n)}
    case Sliced(s) =>
      (if s.keys != SLICE_KEYS then {BadKeys(n)} else {})
      + EntryFindings(Units, n, s.units, inv.units)
      + RejectionFindings(n, s.rejections, inv.rejections)
      + EntryFindings(Invariants, n, s.invariants, inv.invariants)
      + TraceFindings(n, s.traces, inv.traces)
      + MalformedShares(n, s.shares)
  }

  function ReadFindings(packets: map<string, Block>, inv: Inventory): set<Finding> {
    set n, f | n in packets && f in SliceFindings(n, packets[n], inv) :: f
  }

  function Partners(shares: set<Share>, item: string): set<string> {
    set s | s in shares && s.item == item :: s.coOwner
  }

  /** An owner of an item with several that shares it with none of the others. */
  predicate Unshared(packets: map<string, Block>, axis: Axis, item: string, n: string, inv: Inventory) {
    && n in packets && item in Declared(packets[n], axis, inv)
    && |Owners(packets, axis, item, inv)| > 1
    && Partners(SharesOf(packets[n]), item) !! Owners(packets, axis, item, inv) - {n}
  }

  function DoubleOwners(packets: map<string, Block>, axis: Axis, item: string, inv: Inventory): set<Finding> {
    set n | n in Owners(packets, axis, item, inv) && Unshared(packets, axis, item, n, inv) :: DoubleOwner(axis, item, n)
  }

  function OwnerFindings(packets: map<string, Block>, inv: Inventory): set<Finding> {
    set axis, n, item | axis in {Units, Invariants, Traces} && n in packets && item in Declared(packets[n], axis, inv)
                        && Unshared(packets, axis, item, n, inv) :: DoubleOwner(axis, item, n)
  }

  /** A share names an item the packet itself declares, and another packet that declares it too. */
  function ShareFindings(packets: map<string, Block>, n: string, s: Share, inv: Inventory): set<Finding>
    requires n in packets
  {
    (if s.item !in inv.units + inv.invariants + inv.traces then {ShareUnknown(n, s)}
     else if s.item !in DeclaredAnywhere(packets[n], inv) then {ShareNotDeclared(n, s)} else {})
    + (if s.coOwner == n then {ShareWithItself(n, s)}
       else if s.coOwner !in packets then {ShareWithNobody(n, s)}
       else if s.item !in DeclaredAnywhere(packets[s.coOwner], inv) then {ShareOneSided(n, s)} else {})
  }

  function ReferenceFindings(packets: map<string, Block>, inv: Inventory): set<Finding> {
    set n, s, f | n in packets && s in SharesOf(packets[n]) && f in ShareFindings(packets, n, s, inv) :: f
  }

  type Table = map<(string, string), string>

  /** What the lock says of the recorded pairs among some. */
  function OwnedFindings(rows: map<string, Row>, owned: Table, keys: set<(string, string)>, foldTime: bool): set<Finding>
    requires keys <= owned.Keys
  {
    (if foldTime then {} else set k | k in keys && k.0 in rows && !Realized(rows[k.0]) :: OwnedButPending(k.0))
    + (set k | k in keys && k.0 in rows && Realized(rows[k.0]) && rows[k.0].disposition != Some(owned[k]) :: UnitDrift(k.0, k.1))
  }

  function Unowned(rows: map<string, Row>, owned: Table): set<Finding> {
    set u | u in rows && Realized(rows[u]) && (forall k :: k in owned ==> k.0 != u) :: RealizedUnowned(u)
  }

  function LockFindings(rows: map<string, Row>, owned: Table, foldTime: bool): set<Finding> {
    OwnedFindings(rows, owned, owned.Keys, foldTime) + Unowned(rows, owned)
  }

  function ClassLockFindings(classes: map<string, string>, declared: Table): set<Finding> {
    set k | k in declared && k.0 in classes && classes[k.0] != declared[k] :: ClassDrift(k.0, k.1)
  }

  /** The dispositions the packets record, by id and packet. */
  function TableOf(packets: map<string, Block>, axis: Axis): Table {
    map n, k | n in packets && 0 <= k < |Entries(packets[n], axis)| && Entries(packets[n], axis)[k].Entry?
               && Recorded(packets, axis, Entries(packets[n], axis)[k].id, n).Some?
      :: (Entries(packets[n], axis)[k].id, n) := Recorded(packets, axis, Entries(packets[n], axis)[k].id, n).value
  }

  function OrNone<V>(m: Option<map<string, V>>): map<string, V> {
    if m == None then map[] else m.value
  }

  /** What every validation reports, whatever its mode. */
  function ModelessFindings(p: Plan): set<Finding> {
    InventoryFindings(p.inventory)
    + ManifestFindings(p.manifest, p.inventory.units)
    + ClassesFindings(p.classes, p.inventory.invariants)
    + ReadFindings(p.packets, p.inventory)
    + OwnerFindings(p.packets, p.inventory)
    + ReferenceFindings(p.packets, p.inventory)
    + ClassLockFindings(OrNone(p.classes), TableOf(p.packets, Invariants))
  }

  /** Everything a validation reports. */
  function Findings(p: Plan, foldTime: bool): set<Finding> {
    ModelessFindings(p) + LockFindings(OrNone(p.manifest), TableOf(p.packets, Units), foldTime)
  }

  // ---- The tables the validation fills

  lemma {:induction false} LastIsAnEntry(entries: seq<Entry>, id: string, valid: set<string>)
    ensures LastDisposition(entries, id, valid).Some? ==> id in Ids(entries) && LastDisposition(entries, id, valid).value in valid
  {
    if entries != [] {
      LastIsAnEntry(entries[..|entries| - 1], id, valid);
      assert forall k :: 0 <= k < |entries| - 1 ==> entries[..|entries| - 1][k] == entries[k];
    }
  }

  lemma TableHolds(packets: map<string, Block>, axis: Axis, id: string, n: string)
    ensures (id, n) in TableOf(packets, axis) <==> Recorded(packets, axis, id, n).Some?
    ensures (id, n) in TableOf(packets, axis) ==> Some(TableOf(packets, axis)[(id, n)]) == Recorded(packets, axis, id, n)
  {
    if Recorded(packets, axis, id, n).Some? {
      LastIsAnEntry(Entries(packets[n], axis), id, Valid(axis));
      var k :| 0 <= k < |Entries(packets[n], axis)| && Entries(packets[n], axis)[k].Entry? && Entries(packets[n], axis)[k].id == id;
    }
  }

  /** A table with one packet's entries recorded in it, a later one overwriting. */
  ghost predicate Extends(after: Table, before: Table, n: string, entries: seq<Entry>, axis: Axis) {
    && (forall id, m :: (id, m) in after <==> if m == n then LastDisposition(entries, id, Valid(axis)).Some? else (id, m) in before)
    && forall id, m :: (id, m) in after ==>
         Some(after[(id, m)]) == if m == n then LastDisposition(entries, id, Valid(axis)) else Some(before[(id, m)])
  }

  lemma TableGrows(packets: map<string, Block>, n: string, b: Block, axis: Axis, after: Table)
    requires n !in packets && Extends(after, TableOf(packets, axis), n, Entries(b, axis), axis)
    ensures after == TableOf(packets[n := b], axis)
  {
    var grown := packets[n := b];
    hide TableOf, LastDisposition, Entries, Valid;
    forall k: (string, string) ensures k in after <==> k in TableOf(grown, axis)
      ensures k in after ==> after[k] == TableOf(grown, axis)[k]
    {
      assert k == (k.0, k.1);
      TableHolds(packets, axis, k.0, k.1);
      TableHolds(grown, axis, k.0, k.1);
    }
  }

  function Get(owners: map<(Axis, string), set<string>>, axis: Axis, item: string): set<string> {
    if (axis, item) in owners then owners[(axis, item)] else {}
  }

  function SharesBy(packets: map<string, Block>): map<string, set<Share>> {
    map n | n in packets && packets[n].Sliced? :: SharesOf(packets[n])
  }

  /** Packets whose slice is passed over: there is none to read, or it is the null value. */
  predicate Skipped(b: Block) { b.Unreadable? || b.NullSlice? }

  lemma IsSkipped(b: Block)
    ensures Skipped(b) <==> b.Unreadable? || b.NullSlice?
  {
  }

  function DeclaredBy(packets: map<string, Block>, inv: Inventory): map<string, set<string>> {
    map n | n in packets && !Skipped(packets[n]) :: DeclaredAnywhere(packets[n], inv)
  }

  ghost predicate Owned(owners: map<(Axis, string), set<string>>, seen: map<string, Block>, inv: Inventory) {
    forall axis, item :: Get(owners, axis, item) == Owners(seen, axis, item, inv)
  }

  /** The validation: its findings, and the tables its passes share. */
  class Validation {
    var errors: set<Finding>
    var owners: map<(Axis, string), set<string>>
    var shares: map<string, set<Share>>
    var declaredBy: map<string, set<string>>
    var unitDispositions: Table
    var invariantDispositions: Table

    ghost predicate Holds(seen: map<string, Block>, inv: Inventory)
      reads `owners, `shares, `declaredBy, `unitDispositions, `invariantDispositions
    {
      && Owned(owners, seen, inv)
      && shares == SharesBy(seen)
      && declaredBy == DeclaredBy(seen, inv)
      && unitDispositions == TableOf(seen, Units)
      && invariantDispositions == TableOf(seen, Invariants)
    }

    constructor ()
      ensures errors == {} && owners == map[] && shares == map[] && declaredBy == map[]
      ensures unitDispositions == map[] && invariantDispositions == map[]
    {
      errors, owners, shares, declaredBy := {}, map[], map[], map[];
      unitDispositions, invariantDispositions := map[], map[];
    }

    /** The manifest: each row's shape, and its keys against the units. */
    method LoadManifest(manifest: Option<map<string, Row>>, units: set<string>)
      modifies `errors
      ensures errors == old(errors) + ManifestFindings(manifest, units)
    {
      if manifest == None {
        errors := errors + {NoManifest};
        return;
      }
      var rows := manifest.value;
      ghost var start := errors;
      var todo := rows.Keys;
      while todo != {}
        invariant todo <= rows.Keys
        invariant errors == start + set u | u in rows.Keys - todo && !GoodRow(rows[u]) :: BadRow(u)
      {
        var u :| u in todo;
        if !GoodRow(rows[u]) {
          errors := errors + {BadRow(u)};
        }
        todo := todo - {u};
      }
      errors := errors + (set u | u in units - rows.Keys :: MissingUnit(u)) + set u | u in rows.Keys - units :: UnknownUnit(u);
    }

    /** The disposition map, the same way. */
    method LoadClasses(classes: Option<map<string, string>>, invariants: set<string>)
      modifies `errors
      ensures errors == old(errors) + ClassesFindings(classes, invariants)
    {
      if classes == None {
        errors := errors + {NoClasses};
        return;
      }
      var mapping := classes.value;
      ghost var start := errors;
      var todo := mapping.Keys;
      while todo != {}
        invariant todo <= mapping.Keys
        invariant errors == start + set i | i in mapping.Keys - todo && mapping[i] !in INVARIANT_DISPOSITIONS :: BadClass(i)
      {
        var i :| i in todo;
        if mapping[i] !in INVARIANT_DISPOSITIONS {
          errors := errors + {BadClass(i)};
        }
        todo := todo - {i};
      }
      errors := errors + (set i | i in invariants - mapping.Keys :: MissingInvariant(i))
                + set i | i in mapping.Keys - invariants :: UnknownInvariant(i);
    }

    /** A slice's unit or invariant entries, recorded in order. */
    method ValidateEntries(axis: Axis, n: string, entries: seq<Entry>, known: set<string>, before: Table)
      returns (declared: set<string>, table: Table)
      requires forall id :: (id, n) !in before
      modifies `errors
      ensures errors == old(errors) + EntryFindings(axis, n, entries, known)
      ensures declared == Ids(entries)
      ensures Extends(table, before, n, entries, axis)
    {
      ghost var start := errors;
      declared, table := {}, before;
      NoEntries(axis, n, entries, known, before);
      hide *;
      for i := 0 to |entries|
        invariant errors == start + EntryFindings(axis, n, entries[..i], known)
        invariant declared == Ids(entries[..i])
        invariant Extends(table, before, n, entries[..i], axis)
      {
        var e := entries[i];
        GrowEntries(axis, n, entries, known, i);
        GrowTable(axis, n, entries, i, before, table);
        if e.BadEntry? {
          errors := errors + {MalformedEntry(axis, n, i)};
          continue;
        }
        if e.id !in known {
          errors := errors + {UnknownId(axis, n, i)};
        }
        if e.disposition !in Valid(axis) {
          errors := errors + {BadDisposition(axis, n, i)};
        } else {
          table := table[(e.id, n) := e.disposition];
        }
        declared := declared + {e.id};
      }
      assert entries[..|entries|] == entries;
    }

    /** One packet: its entries checked and recorded, and what it declares. */
    method ValidateSlice(n: string, b: Block, inv: Inventory) returns (units: set<string>, invariants: set<string>, traces: set<string>)
      requires !Skipped(b)
      requires forall id :: (id, n) !in unitDispositions && (id, n) !in invariantDispositions
      modifies `errors, `unitDispositions, `invariantDispositions
      ensures errors == old(errors) + SliceFindings(n, b, inv)
      ensures units == Declared(b, Units, inv) && invariants == Declared(b, Invariants, inv) && traces == Declared(b, Traces, inv)
      ensures Extends(unitDispositions, old(unitDispositions), n, Entries(b, Units), Units)
      ensures Extends(invariantDispositions, old(invariantDispositions), n, Entries(b, Invariants), Invariants)
    {
      hide *;
      IsSkipped(b);
      units, invariants, traces := {}, {}, {};
      SliceParts(n, b, inv);
      if b.NotAnObject? {
        errors := errors + {SliceNotAnObject(n)};
        NotAnObjectIsEmpty(n, b, inv, unitDispositions, invariantDispositions);
        return;
      }
      var s := b.slice;
      if s.keys != SLICE_KEYS {
        errors := errors + {BadKeys(n)};
      }
      units, unitDispositions := ValidateEntries(Units, n, s.units, inv.units, unitDispositions);
      errors := errors + RejectionFindings(n, s.rejections, inv.rejections);
      invariants, invariantDispositions := ValidateEntries(Invariants, n, s.invariants, inv.invariants, invariantDispositions);
      errors := errors + TraceFindings(n, s.traces, inv.traces);
      traces := KnownTraces(s.traces, inv.traces);
      errors := errors + MalformedShares(n, s.shares);
    }

    /** A packet's name added to the owners of each item it declares on an axis. */
    method Own(axis: Axis, items: set<string>, n: string)
      modifies `owners
      ensures forall a, i :: Get(owners, a, i) == old(Get(owners, a, i)) + if a == axis && i in items then {n} else {}
    {
      var todo := items;
      while todo != {}
        invariant todo <= items
        invariant forall a, i :: Get(owners, a, i) == old(Get(owners, a, i)) + if a == axis && i in items - todo then {n} else {}
      {
        var item :| item in todo;
        owners := owners[(axis, item) := Get(owners, axis, item) + {n}];
        todo := todo - {item};
      }
    }

    method OwnAll(units: set<string>, invariants: set<string>, traces: set<string>, n: string, ghost b: Block, ghost inv: Inventory)
      requires units == Declared(b, Units, inv) && invariants == Declared(b, Invariants, inv) && traces == Declared(b, Traces, inv)
      modifies `owners
      ensures forall a, i :: Get(owners, a, i) == old(Get(owners, a, i)) + if i in Declared(b, a, inv) then {n} else {}
    {
      hide *;
      Own(Units, units, n);
      Own(Invariants, invariants, n);
      Own(Traces, traces, n);
    }

    /** One packet file with one slice: its place in every table. */
    method Enter(ghost seen: map<string, Block>, n: string, b: Block, inv: Inventory)
      requires n !in seen && !Skipped(b) && Holds(seen, inv)
      modifies this
      ensures errors == old(errors) + SliceFindings(n, b, inv)
      ensures Holds(seen[n := b], inv)
    {
      hide *;
      HoldsMeans(this, seen, inv);
      TablesMiss(seen, n);
      ghost var mine := owners;
      var units, invariants, traces := ValidateSlice(n, b, inv);
      OwnAll(units, invariants, traces, n, b, inv);
      DeclaredOnAnAxis(b, inv);
      declaredBy := declaredBy[n := units + invariants + traces];
      if b.Sliced? {
        shares := shares[n := SharesOf(b)];
      }
      Entered(seen, n, b, inv, mine, owners, unitDispositions, invariantDispositions);
      HoldsMeans(this, seen[n := b], inv);
    }

    /** Whoever owns an item with others shares it with one of them. */
    method CheckOwners(ghost packets: map<string, Block>, ghost inv: Inventory)
      requires Holds(packets, inv)
      modifies `errors
      ensures errors == old(errors) + OwnerFindings(packets, inv)
    {
      ghost var start := errors;
      var todo := owners.Keys;
      hide *;
      NoKeys(packets, inv);
      while todo != {}
        invariant todo <= owners.Keys
        invariant errors == start + KeyFindings(packets, owners.Keys - todo, inv)
      {
        var key :| key in todo;
        CheckOwnersOf(packets, inv, key.0, key.1);
        KeysGrow(packets, owners.Keys - todo, key, inv);
        assert owners.Keys - (todo - {key}) == owners.Keys - todo + {key};
        todo := todo - {key};
      }
      assert owners.Keys - todo == owners.Keys;
      HoldsMeans(this, packets, inv);
      AllKeysAreEnough(packets, owners, inv);
    }

    /** One item: each of several owners shares it with another. */
    method CheckOwnersOf(ghost packets: map<string, Block>, ghost inv: Inventory, axis: Axis, item: string)
      requires Holds(packets, inv) && (axis, item) in owners
      modifies `errors
      ensures errors == old(errors) + DoubleOwners(packets, axis, item, inv)
    {
      hide *;
      var names := owners[(axis, item)];
      HoldsMeans(this, packets, inv);
      OwnersHeld(owners, packets, inv, axis, item);
      if |names| <= 1 {
        SoleOwner(packets, axis, item, inv);
        return;
      }
      ghost var start := errors;
      var rest := names;
      while rest != {}
        invariant rest <= names
        invariant errors == start + set n | n in names - rest && Unshared(packets, axis, item, n, inv) :: DoubleOwner(axis, item, n)
      {
        var n :| n in rest;
        var theirs := if n in shares then shares[n] else {};
        OwnerUnshared(packets, axis, item, inv, n, theirs);
        if Partners(theirs, item) !! names - {n} {
          errors := errors + {DoubleOwner(axis, item, n)};
        }
        rest := rest - {n};
      }
      DoubleOwnersAre(packets, axis, item, inv);
    }

    /** Every share is between the packet and another, both declaring the item. */
    method CheckShareReferences(names: set<string>, inv: Inventory, ghost packets: map<string, Block>)
      requires Holds(packets, inv) && names == packets.Keys
      modifies `errors
      ensures errors == old(errors) + ReferenceFindings(packets, inv)
    {
      hide TableOf, Owners, Declared, SharesOf;
      ghost var start := errors;
      var todo := shares.Keys;
      while todo != {}
        invariant todo <= shares.Keys
        invariant errors == start + set n, s, f | n in shares.Keys - todo && s in SharesOf(packets[n]) && f in ShareFindings(packets, n, s, inv) :: f
      {
        var n :| n in todo;
        var rest := shares[n];
        ghost var here := errors;
        while rest != {}
          invariant rest <= shares[n]
          invariant errors == here + set s, f | s in shares[n] - rest && f in ShareFindings(packets, n, s, inv) :: f
        {
          var s :| s in rest;
          CheckShare(names, inv, n, s, packets);
          rest := rest - {s};
        }
        todo := todo - {n};
      }
      NoSharesUnsliced(packets);
    }

    method CheckShare(names: set<string>, inv: Inventory, n: string, s: Share, ghost packets: map<string, Block>)
      requires Holds(packets, inv) && names == packets.Keys && n in packets
      modifies `errors
      ensures errors == old(errors) + ShareFindings(packets, n, s, inv)
    {
      hide TableOf, Owners, SharesOf;
      var mine := if n in declaredBy then declaredBy[n] else {};
      var theirs := if s.coOwner in declaredBy then declaredBy[s.coOwner] else {};
      if s.item !in inv.units + inv.invariants + inv.traces {
        errors := errors + {ShareUnknown(n, s)};
      } else if s.item !in mine {
        errors := errors + {ShareNotDeclared(n, s)};
      }
      if s.coOwner == n {
        errors := errors + {ShareWithItself(n, s)};
      } else if s.coOwner !in names {
        errors := errors + {ShareWithNobody(n, s)};
      } else if s.item !in theirs {
        errors := errors + {ShareOneSided(n, s)};
      }
    }

    /** Packet-owned units are realized with the recorded disposition, and realized rows are owned. */
    method CheckUnitMapLock(rows: map<string, Row>, foldTime: bool)
      modifies `errors
      ensures errors == old(errors) + LockFindings(rows, unitDispositions, foldTime)
    {
      hide *;
      LockFindingsAre(rows, unitDispositions, foldTime);
      ghost var start := errors;
      var todo := unitDispositions.Keys;
      NoOwned(rows, unitDispositions, foldTime);
      assert unitDispositions.Keys - todo == {};
      while todo != {}
        invariant todo <= unitDispositions.Keys
        invariant errors == start + OwnedFindings(rows, unitDispositions, unitDispositions.Keys - todo, foldTime)
      {
        var k :| k in todo;
        LockGrows(rows, unitDispositions, unitDispositions.Keys - todo, k, foldTime);
        assert unitDispositions.Keys - (todo - {k}) == unitDispositions.Keys - todo + {k};
        todo := todo - {k};
        if k.0 in rows {
          RealizedIsRow(rows[k.0]);
          if !Realized(rows[k.0]) {
            if !foldTime {
              errors := errors + {OwnedButPending(k.0)};
            }
          } else if rows[k.0].disposition != Some(unitDispositions[k]) {
            errors := errors + {UnitDrift(k.0, k.1)};
          }
        }
      }
      assert unitDispositions.Keys - todo == unitDispositions.Keys;
      CheckRealizedOwned(rows);
    }

    method CheckRealizedOwned(rows: map<string, Row>)
      modifies `errors
      ensures errors == old(errors) + Unowned(rows, unitDispositions)
    {
      var left := rows.Keys;
      ghost var here := errors;
      while left != {}
        invariant left <= rows.Keys
        invariant errors == here + set u | u in rows.Keys - left && Realized(rows[u]) && (forall k :: k in unitDispositions ==> k.0 != u) :: RealizedUnowned(u)
      {
        var u :| u in left;
        if Realized(rows[u]) && forall k :: k in unitDispositions ==> k.0 != u {
          errors := errors + {RealizedUnowned(u)};
        }
        left := left - {u};
      }
    }

    /** No packet contradicts the disposition map. */
    method CheckDispositionLock(classes: map<string, string>)
      modifies `errors
      ensures errors == old(errors) + ClassLockFindings(classes, invariantDispositions)
    {
      ghost var start := errors;
      var todo := invariantDispositions.Keys;
      while todo != {}
        invariant todo <= invariantDispositions.Keys
        invariant errors == start + set k | k in invariantDispositions.Keys - todo && k.0 in classes && classes[k.0] != invariantDispositions[k] :: ClassDrift(k.0, k.1)
      {
        var k :| k in todo;
        if k.0 in classes && classes[k.0] != invariantDispositions[k] {
          errors := errors + {ClassDrift(k.0, k.1)};
        }
        todo := todo - {k};
      }
    }

    method ReadPackets(packets: map<string, Block>, inv: Inventory)
      requires owners == map[] && shares == map[] && declaredBy == map[]
      requires unitDispositions == map[] && invariantDispositions == map[]
      modifies this
      ensures errors == old(errors) + ReadFindings(packets, inv)
      ensures Holds(packets, inv)
    {
      NothingSeen(inv);
      hide *;
      HoldsMeans(this, map[], inv);
      ghost var start := errors;
      ghost var seen: map<string, Block> := map[];
      var todo := packets.Keys;
      while todo != {}
        invariant todo <= packets.Keys
        invariant seen.Keys == packets.Keys - todo && forall n :: n in seen ==> seen[n] == packets[n]
        invariant Holds(seen, inv)
        invariant errors == start + ReadFindings(seen, inv)
      {
        var n :| n in todo;
        if packets[n].Unreadable? || packets[n].NullSlice? {
          HoldsMeans(this, seen, inv);
          IsSkipped(packets[n]);
          SkippedAddsNothing(seen, n, packets[n], inv, owners);
          if packets[n].Unreadable? {
            errors := errors + {NoSlice(n)};
          }
          HoldsMeans(this, seen[n := packets[n]], inv);
        } else {
          IsSkipped(packets[n]);
          Enter(seen, n, packets[n], inv);
        }
        ReadGrows(seen, n, packets[n], inv);
        seen := seen[n := packets[n]];
        todo := todo - {n};
      }
      assert seen == packets;
    }

    /** `run_validation`. A manifest row that is no object stops the lock pass with an exception. */
    method RunValidation(p: Plan, foldTime: bool) returns (completed: bool)
      requires errors == {} && owners == map[] && shares == map[] && declaredBy == map[]
      requires unitDispositions == map[] && invariantDispositions == map[]
      modifies this
      ensures completed == Completes(p)
      ensures completed ==> errors == Findings(p, foldTime)
    {
      var inv := p.inventory;
      errors := InventoryFindings(inv);
      LoadManifest(p.manifest, inv.units);
      LoadClasses(p.classes, inv.invariants);
      hide *;
      ReadPackets(p.packets, inv);
      CheckOwners(p.packets, inv);
      CheckShareReferences(p.packets.Keys, inv, p.packets);
      completed := Completes(p);
      if !completed {
        return;
      }
      CheckUnitMapLock(OrNone(p.manifest), foldTime);
      CheckDispositionLock(OrNone(p.classes));
      HoldsMeans(this, p.packets, inv);
      FindingsAre(p, foldTime);
    }
  }

  /** The rows are all objects, so the lock pass can read them. */
  predicate Completes(p: Plan) {
    forall u :: u in OrNone(p.manifest) ==> OrNone(p.manifest)[u].Row?
  }

  lemma HoldsMeans(v: Validation, seen: map<string, Block>, inv: Inventory)
    ensures v.Holds(seen, inv) <==>
            && Owned(v.owners, seen, inv) && v.shares == SharesBy(seen) && v.declaredBy == DeclaredBy(seen, inv)
            && v.unitDispositions == TableOf(seen, Units) && v.invariantDispositions == TableOf(seen, Invariants)
  {
    hide Owned, SharesBy, DeclaredBy, TableOf;
  }

  lemma DeclaredOnAnAxis(b: Block, inv: Inventory)
    ensures DeclaredAnywhere(b, inv) == Declared(b, Units, inv) + Declared(b, Invariants, inv) + Declared(b, Traces, inv)
  {
    hide Declared;
  }

  lemma DoubleOwnersAre(packets: map<string, Block>, axis: Axis, item: string, inv: Inventory)
    ensures DoubleOwners(packets, axis, item, inv) ==
            set n | n in Owners(packets, axis, item, inv) && Unshared(packets, axis, item, n, inv) :: DoubleOwner(axis, item, n)
  {
    hide Owners, Unshared;
  }

  lemma LockFindingsAre(rows: map<string, Row>, owned: Table, foldTime: bool)
    ensures LockFindings(rows, owned, foldTime) == OwnedFindings(rows, owned, owned.Keys, foldTime) + Unowned(rows, owned)
  {
    hide OwnedFindings, Unowned;
  }

  lemma RealizedIsRow(r: Row)
    ensures Realized(r) ==> r.Row?
  {
  }

  lemma FindingsAre(p: Plan, foldTime: bool)
    ensures Findings(p, foldTime) ==
            InventoryFindings(p.inventory)
            + ManifestFindings(p.manifest, p.inventory.units)
            + ClassesFindings(p.classes, p.inventory.invariants)
            + ReadFindings(p.packets, p.inventory)
            + OwnerFindings(p.packets, p.inventory)
            + ReferenceFindings(p.packets, p.inventory)
            + LockFindings(OrNone(p.manifest), TableOf(p.packets, Units), foldTime)
            + ClassLockFindings(OrNone(p.classes), TableOf(p.packets, Invariants))
  {
    hide InventoryFindings, ManifestFindings, ClassesFindings, ReadFindings, OwnerFindings, ReferenceFindings, LockFindings, ClassLockFindings, TableOf, OrNone;
  }

  lemma ReadCleanMeans(p: Plan)
    ensures ReadClean(p) <==>
            && InventoryFindings(p.inventory) == {} && ManifestFindings(p.manifest, p.inventory.units) == {}
            && ClassesFindings(p.classes, p.inventory.invariants) == {} && ReadFindings(p.packets, p.inventory) == {}
  {
    hide InventoryFindings, ManifestFindings, ClassesFindings, ReadFindings;
  }

  lemma OwnersGrow(seen: map<string, Block>, n: string, b: Block, axis: Axis, item: string, inv: Inventory)
    requires n !in seen
    ensures Owners(seen[n := b], axis, item, inv) == Owners(seen, axis, item, inv) + if item in Declared(b, axis, inv) then {n} else {}
  {
  }

  lemma ReadGrows(seen: map<string, Block>, n: string, b: Block, inv: Inventory)
    requires n !in seen
    ensures ReadFindings(seen[n := b], inv) == ReadFindings(seen, inv) + SliceFindings(n, b, inv)
  {
    hide SliceFindings;
    var grown := seen[n := b];
    forall m, f | m in seen && f in SliceFindings(m, seen[m], inv) ensures f in ReadFindings(grown, inv) {
      assert m in grown && grown[m] == seen[m];
    }
    forall f | f in SliceFindings(n, b, inv) ensures f in ReadFindings(grown, inv) {
      assert n in grown && grown[n] == b;
    }
  }

  lemma TablesMiss(seen: map<string, Block>, n: string)
    requires n !in seen
    ensures forall id :: (id, n) !in TableOf(seen, Units) && (id, n) !in TableOf(seen, Invariants)
  {
  }

  lemma SkippedAddsNothing(seen: map<string, Block>, n: string, b: Block, inv: Inventory, owners: map<(Axis, string), set<string>>)
    requires n !in seen && Skipped(b) && Owned(owners, seen, inv)
    ensures Owned(owners, seen[n := b], inv)
    ensures TableOf(seen[n := b], Units) == TableOf(seen, Units) && TableOf(seen[n := b], Invariants) == TableOf(seen, Invariants)
    ensures SharesBy(seen[n := b]) == SharesBy(seen) && DeclaredBy(seen[n := b], inv) == DeclaredBy(seen, inv)
    ensures SliceFindings(n, b, inv) == if b.Unreadable? then {NoSlice(n)} else {}
  {
    hide *;
    IsSkipped(b);
    SkippedIsEmpty(b, inv, n, TableOf(seen, Units), TableOf(seen, Invariants), owners) by {
      TablesMiss(seen, n);
    }
    ByPacketGrow(seen, n, b, inv);
    TableGrows(seen, n, b, Units, TableOf(seen, Units));
    TableGrows(seen, n, b, Invariants, TableOf(seen, Invariants));
    OwnedGrows(owners, owners, seen, n, b, inv);
  }

  lemma SkippedIsEmpty(b: Block, inv: Inventory, n: string, units: Table, invariants: Table, owners: map<(Axis, string), set<string>>)
    requires Skipped(b) && forall id :: (id, n) !in units && (id, n) !in invariants
    ensures Extends(units, units, n, Entries(b, Units), Units) && Extends(invariants, invariants, n, Entries(b, Invariants), Invariants)
    ensures forall a, i :: Get(owners, a, i) == Get(owners, a, i) + if i in Declared(b, a, inv) then {n} else {}
    ensures SliceFindings(n, b, inv) == if b.Unreadable? then {NoSlice(n)} else {}
  {
  }

  lemma NotAnObjectIsEmpty(n: string, b: Block, inv: Inventory, units: Table, invariants: Table)
    requires b.NotAnObject? && forall id :: (id, n) !in units && (id, n) !in invariants
    ensures Declared(b, Units, inv) == {} && Declared(b, Invariants, inv) == {} && Declared(b, Traces, inv) == {}
    ensures Extends(units, units, n, Entries(b, Units), Units) && Extends(invariants, invariants, n, Entries(b, Invariants), Invariants)
  {
  }

  lemma SliceParts(n: string, b: Block, inv: Inventory)
    ensures b.NotAnObject? ==> SliceFindings(n, b, inv) == {SliceNotAnObject(n)}
    ensures b.Sliced? ==>
              && Entries(b, Units) == b.slice.units && Entries(b, Invariants) == b.slice.invariants
              && Declared(b, Units, inv) == Ids(b.slice.units) && Declared(b, Invariants, inv) == Ids(b.slice.invariants)
              && Declared(b, Traces, inv) == KnownTraces(b.slice.traces, inv.traces)
              && SliceFindings(n, b, inv) ==
                 (if b.slice.keys != SLICE_KEYS then {BadKeys(n)} else {})
                 + EntryFindings(Units, n, b.slice.units, inv.units)
                 + RejectionFindings(n, b.slice.rejections, inv.rejections)
                 + EntryFindings(Invariants, n, b.slice.invariants, inv.invariants)
                 + TraceFindings(n, b.slice.traces, inv.traces)
                 + MalformedShares(n, b.slice.shares)
  {
    hide EntryFindings, RejectionFindings, TraceFindings, MalformedShares, Ids, KnownTraces, SLICE_KEYS;
  }

  lemma OwnedGrows(before: map<(Axis, string), set<string>>, after: map<(Axis, string), set<string>>,
                   seen: map<string, Block>, n: string, b: Block, inv: Inventory)
    requires n !in seen && Owned(before, seen, inv)
    requires forall a, i :: Get(after, a, i) == Get(before, a, i) + if i in Declared(b, a, inv) then {n} else {}
    ensures Owned(after, seen[n := b], inv)
  {
    hide Declared;
    forall axis, item ensures Get(after, axis, item) == Owners(seen[n := b], axis, item, inv) {
      OwnersGrow(seen, n, b, axis, item, inv);
    }
  }

  lemma ByPacketGrow(seen: map<string, Block>, n: string, b: Block, inv: Inventory)
    requires n !in seen
    ensures SharesBy(seen[n := b]) == if b.Sliced? then SharesBy(seen)[n := SharesOf(b)] else SharesBy(seen)
    ensures DeclaredBy(seen[n := b], inv) == if Skipped(b) then DeclaredBy(seen, inv) else DeclaredBy(seen, inv)[n := DeclaredAnywhere(b, inv)]
  {
    hide SharesOf, DeclaredAnywhere;
  }

  lemma Entered(seen: map<string, Block>, n: string, b: Block, inv: Inventory, before: map<(Axis, string), set<string>>,
                after: map<(Axis, string), set<string>>, units: Table, invariants: Table)
    requires n !in seen && !Skipped(b) && Owned(before, seen, inv)
    requires forall a, i :: Get(after, a, i) == Get(before, a, i) + if i in Declared(b, a, inv) then {n} else {}
    requires Extends(units, TableOf(seen, Units), n, Entries(b, Units), Units)
    requires Extends(invariants, TableOf(seen, Invariants), n, Entries(b, Invariants), Invariants)
    ensures Owned(after, seen[n := b], inv)
    ensures SharesBy(seen[n := b]) == if b.Sliced? then SharesBy(seen)[n := SharesOf(b)] else SharesBy(seen)
    ensures DeclaredBy(seen[n := b], inv) == DeclaredBy(seen, inv)[n := DeclaredAnywhere(b, inv)]
    ensures units == TableOf(seen[n := b], Units) && invariants == TableOf(seen[n := b], Invariants)
  {
    hide *;
    OwnedGrows(before, after, seen, n, b, inv);
    ByPacketGrow(seen, n, b, inv);
    TableGrows(seen, n, b, Units, units);
    TableGrows(seen, n, b, Invariants, invariants);
  }

  lemma NothingSeen(inv: Inventory)
    ensures Owned(map[], map[], inv) && SharesBy(map[]) == map[] && DeclaredBy(map[], inv) == map[]
    ensures TableOf(map[], Units) == map[] && TableOf(map[], Invariants) == map[]
    ensures ReadFindings(map[], inv) == {}
  {
  }

  function KeyFindings(packets: map<string, Block>, keys: set<(Axis, string)>, inv: Inventory): set<Finding> {
    set key, f | key in keys && f in DoubleOwners(packets, key.0, key.1, inv) :: f
  }

  lemma NoKeys(packets: map<string, Block>, inv: Inventory)
    ensures forall keys :: keys == {} ==> KeyFindings(packets, keys, inv) == {}
  {
  }

  lemma KeysGrow(packets: map<string, Block>, keys: set<(Axis, string)>, key: (Axis, string), inv: Inventory)
    ensures KeyFindings(packets, keys + {key}, inv) == KeyFindings(packets, keys, inv) + DoubleOwners(packets, key.0, key.1, inv)
  {
    hide DoubleOwners;
  }

  lemma AllKeysAreEnough(packets: map<string, Block>, owners: map<(Axis, string), set<string>>, inv: Inventory)
    requires Owned(owners, packets, inv)
    ensures KeyFindings(packets, owners.Keys, inv) == OwnerFindings(packets, inv)
  {
    hide Declared, SharesOf, Partners;
    forall axis, n, item | Unshared(packets, axis, item, n, inv)
      ensures DoubleOwner(axis, item, n) in KeyFindings(packets, owners.Keys, inv)
    {
      assert Get(owners, axis, item) == Owners(packets, axis, item, inv) && n in Owners(packets, axis, item, inv);
      var key := (axis, item);
      assert key in owners.Keys && DoubleOwner(axis, item, n) in DoubleOwners(packets, key.0, key.1, inv);
    }
    forall f | f in KeyFindings(packets, owners.Keys, inv) ensures f in OwnerFindings(packets, inv) {
      var key :| key in owners.Keys && f in DoubleOwners(packets, key.0, key.1, inv);
      assert key.0 == Units || key.0 == Invariants || key.0 == Traces;
    }
  }

  lemma NoOwned(rows: map<string, Row>, owned: Table, foldTime: bool)
    ensures OwnedFindings(rows, owned, {}, foldTime) == {}
  {
  }

  lemma LockGrows(rows: map<string, Row>, owned: Table, keys: set<(string, string)>, k: (string, string), foldTime: bool)
    requires keys + {k} <= owned.Keys
    ensures OwnedFindings(rows, owned, keys + {k}, foldTime) ==
            OwnedFindings(rows, owned, keys, foldTime)
            + if k.0 !in rows then {}
              else if !Realized(rows[k.0]) then (if foldTime then {} else {OwnedButPending(k.0)})
              else if rows[k.0].disposition != Some(owned[k]) then {UnitDrift(k.0, k.1)} else {}
  {
    hide Realized;
  }

  lemma OwnersHeld(owners: map<(Axis, string), set<string>>, packets: map<string, Block>, inv: Inventory, axis: Axis, item: string)
    requires Owned(owners, packets, inv) && (axis, item) in owners
    ensures owners[(axis, item)] == Owners(packets, axis, item, inv)
  {
    hide Owners;
    assert Get(owners, axis, item) == Owners(packets, axis, item, inv);
  }

  lemma SoleOwner(packets: map<string, Block>, axis: Axis, item: string, inv: Inventory)
    requires |Owners(packets, axis, item, inv)| <= 1
    ensures DoubleOwners(packets, axis, item, inv) == {}
  {
    hide Owners, Declared, SharesOf;
  }

  lemma OwnerUnshared(packets: map<string, Block>, axis: Axis, item: string, inv: Inventory, n: string, theirs: set<Share>)
    requires n in Owners(packets, axis, item, inv) && |Owners(packets, axis, item, inv)| > 1
    requires theirs == if n in SharesBy(packets) then SharesBy(packets)[n] else {}
    ensures Unshared(packets, axis, item, n, inv) <==> Partners(theirs, item) !! Owners(packets, axis, item, inv) - {n}
  {
    NoSharesUnsliced(packets);
    hide Partners, Declared;
  }

  lemma NoSharesUnsliced(packets: map<string, Block>)
    ensures forall n :: n in packets && SharesOf(packets[n]) != {} ==> n in SharesBy(packets)
  {
  }

  lemma NoEntries(axis: Axis, n: string, entries: seq<Entry>, known: set<string>, before: Table)
    requires forall id :: (id, n) !in before
    ensures EntryFindings(axis, n, entries[..0], known) == {} && Ids(entries[..0]) == {}
    ensures Extends(before, before, n, entries[..0], axis)
  {
    assert entries[..0] == [];
  }

  lemma GrowTable(axis: Axis, n: string, entries: seq<Entry>, i: nat, before: Table, table: Table)
    requires i < |entries| && Extends(table, before, n, entries[..i], axis)
    ensures var e := entries[i];
            Extends(if e.Entry? && e.disposition in Valid(axis) then table[(e.id, n) := e.disposition] else table,
                    before, n, entries[..i + 1], axis)
  {
    hide Valid;
    var shorter, longer := entries[..i], entries[..i + 1];
    assert longer[..i] == shorter && longer[i] == entries[i];
    forall id ensures LastDisposition(longer, id, Valid(axis)) ==
                      var e := entries[i];
                      if e.Entry? && e.id == id && e.disposition in Valid(axis) then Some(e.disposition) else LastDisposition(shorter, id, Valid(axis))
    {
    }
    hide LastDisposition;
  }

  lemma GrowEntries(axis: Axis, n: string, entries: seq<Entry>, known: set<string>, i: nat)
    requires i < |entries|
    ensures entries[..i + 1][..i] == entries[..i] && entries[..i + 1][i] == entries[i]
    ensures Ids(entries[..i + 1]) == Ids(entries[..i]) + if entries[i].Entry? then {entries[i].id} else {}
    ensures EntryFindings(axis, n, entries[..i + 1], known) ==
            EntryFindings(axis, n, entries[..i], known)
            + if entries[i].BadEntry? then {MalformedEntry(axis, n, i)}
              else (if entries[i].id !in known then {UnknownId(axis, n, i)} else {})
                   + (if entries[i].disposition !in Valid(axis) then {BadDisposition(axis, n, i)} else {})
  {
    hide UNIT_DISPOSITIONS, INVARIANT_DISPOSITIONS, Valid;
    var longer, shorter := entries[..i + 1], entries[..i];
    assert longer[..i] == shorter;
    assert forall k :: 0 <= k < i ==> longer[k] == shorter[k];
  }

  // ---- What a green validation means

  predicate Owns(p: Plan, axis: Axis, n: string, item: string) {
    n in p.packets && item in Declared(p.packets[n], axis, p.inventory)
  }

  /** The files read without a finding of their own. */
  predicate ReadClean(p: Plan) {
    && InventoryFindings(p.inventory) == {}
    && ManifestFindings(p.manifest, p.inventory.units) == {}
    && ClassesFindings(p.classes, p.inventory.invariants) == {}
    && ReadFindings(p.packets, p.inventory) == {}
  }

  /** The realized rows are the packet-owned units, each with the disposition its owners record. */
  ghost predicate Locked(p: Plan) {
    var rows := OrNone(p.manifest);
    && (forall u :: u in rows && Realized(rows[u]) <==> exists n :: Owns(p, Units, n, u))
    && (forall n, u :: Owns(p, Units, n, u) && u in rows && rows[u].Row? ==> Recorded(p.packets, Units, u, n) == rows[u].disposition)
  }

  /** An owner of an item that another packet owns too declares a share of it with such a packet. */
  ghost predicate Shared(p: Plan) {
    forall axis, item, n, m :: Owns(p, axis, n, item) && Owns(p, axis, m, item) && m != n ==> SharesWithOwner(p, axis, n, item)
  }

  ghost predicate SharesWithOwner(p: Plan, axis: Axis, n: string, item: string)
    requires n in p.packets
  {
    exists s :: s in SharesOf(p.packets[n]) && s.item == item && s.coOwner != n && Owns(p, axis, s.coOwner, item)
  }

  /** A share names another packet, and both ends declare its item. */
  predicate SoundShare(p: Plan, n: string, s: Share)
    requires n in p.packets
  {
    && s.item in p.inventory.units + p.inventory.invariants + p.inventory.traces
    && s.coOwner != n && s.coOwner in p.packets
    && s.item in DeclaredAnywhere(p.packets[n], p.inventory)
    && s.item in DeclaredAnywhere(p.packets[s.coOwner], p.inventory)
  }

  ghost predicate Referenced(p: Plan) {
    forall n, s :: n in p.packets && s in SharesOf(p.packets[n]) ==> SoundShare(p, n, s)
  }

  /** The dispositions that packets record for invariants are the map's. */
  ghost predicate Classed(p: Plan) {
    forall n, i :: Owns(p, Invariants, n, i) && i in OrNone(p.classes) ==> Recorded(p.packets, Invariants, i, n) == Some(OrNone(p.classes)[i])
  }

  lemma {:induction false} ValidEntriesAreRecorded(entries: seq<Entry>, id: string, valid: set<string>)
    requires forall k :: 0 <= k < |entries| ==> entries[k].Entry? && entries[k].disposition in valid
    ensures id in Ids(entries) <==> LastDisposition(entries, id, valid).Some?
  {
    if entries != [] {
      var rest := entries[..|entries| - 1];
      ValidEntriesAreRecorded(rest, id, valid);
      assert forall k :: 0 <= k < |rest| ==> rest[k] == entries[k];
      if id in Ids(entries) && entries[|entries| - 1].id != id {
        var k :| 0 <= k < |entries| && entries[k].Entry? && entries[k].id == id;
        assert rest[k].id == id;
      }
    }
  }

  /** In packets that read clean, whatever is declared is known, and its disposition is recorded. */
  lemma DeclaredIsRecorded(p: Plan, axis: Axis, n: string, id: string)
    requires ReadFindings(p.packets, p.inventory) == {} && axis != Traces
    ensures Owns(p, axis, n, id) <==> Recorded(p.packets, axis, id, n).Some?
    ensures Owns(p, axis, n, id) ==> id in if axis == Units then p.inventory.units else p.inventory.invariants
  {
    if n in p.packets {
      var b := p.packets[n];
      assert forall f :: f in SliceFindings(n, b, p.inventory) ==> f in ReadFindings(p.packets, p.inventory);
      assert SliceFindings(n, b, p.inventory) == {};
      if b.Sliced? {
        var entries := Entries(b, axis);
        var known := if axis == Units then p.inventory.units else p.inventory.invariants;
        assert EntryFindings(axis, n, entries, known) == {};
        CleanEntries(axis, n, entries, known);
        ValidEntriesAreRecorded(entries, id, Valid(axis));
      }
    }
  }

  lemma CleanEntries(axis: Axis, n: string, entries: seq<Entry>, known: set<string>)
    ensures EntryFindings(axis, n, entries, known) == {} <==>
            forall k :: 0 <= k < |entries| ==> entries[k].Entry? && entries[k].id in known && entries[k].disposition in Valid(axis)
  {
    hide Valid;
    if k :| 0 <= k < |entries| && !(entries[k].Entry? && entries[k].id in known && entries[k].disposition in Valid(axis)) {
      var found := EntryFindings(axis, n, entries, known);
      assert MalformedEntry(axis, n, k) in found || UnknownId(axis, n, k) in found || BadDisposition(axis, n, k) in found;
    }
  }

  lemma CleanManifest(p: Plan)
    ensures ManifestFindings(p.manifest, p.inventory.units) == {} <==>
            && p.manifest.Some? && p.manifest.value.Keys == p.inventory.units
            && forall u :: u in p.manifest.value ==> GoodRow(p.manifest.value[u])
  {
    hide GoodRow;
    var found := ManifestFindings(p.manifest, p.inventory.units);
    if p.manifest == None {
      assert NoManifest in found;
    } else {
      var rows := p.manifest.value;
      if u :| u in rows && !GoodRow(rows[u]) {
        assert BadRow(u) in found;
      }
      if rows.Keys != p.inventory.units {
        var u :| u in (p.inventory.units - rows.Keys) + (rows.Keys - p.inventory.units);
        assert MissingUnit(u) in found || UnknownUnit(u) in found;
      }
    }
  }

  lemma LockIsExact(p: Plan)
    requires ReadClean(p)
    ensures LockFindings(OrNone(p.manifest), TableOf(p.packets, Units), false) == {} <==> Locked(p)
  {
    CleanManifest(p);
    hide InventoryFindings, ManifestFindings, ClassesFindings, ReadFindings, TableOf, Recorded, UNIT_DISPOSITIONS, Declared;
    var rows, owned := p.manifest.value, TableOf(p.packets, Units);
    forall n, u
      ensures Owns(p, Units, n, u) <==> (u, n) in owned
      ensures Owns(p, Units, n, u) ==> u in rows && Some(owned[(u, n)]) == Recorded(p.packets, Units, u, n)
    {
      DeclaredIsRecorded(p, Units, n, u);
      TableHolds(p.packets, Units, u, n);
    }
    LockIsExactOver(p, rows, owned);
  }

  lemma LockIsExactOver(p: Plan, rows: map<string, Row>, owned: Table)
    requires p.manifest == Some(rows) && forall u :: u in rows ==> rows[u].Row?
    requires forall n, u :: Owns(p, Units, n, u) <==> (u, n) in owned
    requires forall n, u :: Owns(p, Units, n, u) ==> u in rows && Some(owned[(u, n)]) == Recorded(p.packets, Units, u, n)
    ensures LockFindings(rows, owned, false) == {} <==> Locked(p)
  {
    hide Owns, Recorded, Realized;
    var found := LockFindings(rows, owned, false);
    if found == {} {
      forall k | k in owned ensures Realized(rows[k.0]) && rows[k.0].disposition == Some(owned[k]) {
        assert Owns(p, Units, k.1, k.0);
        assert OwnedButPending(k.0) !in found && UnitDrift(k.0, k.1) !in found;
      }
      forall u | u in rows && Realized(rows[u]) ensures exists n :: Owns(p, Units, n, u) {
        assert RealizedUnowned(u) !in found;
        var k :| k in owned && k.0 == u;
        assert Owns(p, Units, k.1, u);
      }
    }
    assert OrNone(p.manifest) == rows;
    if Locked(p) {
      forall k | k in owned ensures k.0 in rows && Realized(rows[k.0]) && rows[k.0].disposition == Some(owned[k]) {
        assert Owns(p, Units, k.1, k.0);
      }
      forall u | u in rows && Realized(rows[u]) ensures exists k :: k in owned && k.0 == u {
        var n :| Owns(p, Units, n, u);
        assert (u, n) in owned;
      }
    }
  }

  lemma OneOfSeveral<T>(s: set<T>, x: T)
    requires x in s
    ensures |s| > 1 <==> s - {x} != {}
  {
    assert |s - {x}| == |s| - 1;
  }

  lemma SharedIsExact(p: Plan)
    ensures OwnerFindings(p.packets, p.inventory) == {} <==> Shared(p)
  {
    hide Declared, SharesOf;
    forall axis, item, n | Owns(p, axis, n, item)
      ensures Unshared(p.packets, axis, item, n, p.inventory) <==>
              (exists m :: Owns(p, axis, m, item) && m != n) && !SharesWithOwner(p, axis, n, item)
    {
      UnsharedMeans(p, axis, item, n);
    }
    var found := OwnerFindings(p.packets, p.inventory);
    if found == {} {
      forall axis, item, n, m | Owns(p, axis, n, item) && Owns(p, axis, m, item) && m != n ensures SharesWithOwner(p, axis, n, item) {
        assert axis == Units || axis == Invariants || axis == Traces;
        assert DoubleOwner(axis, item, n) !in found;
      }
    }
  }

  lemma UnsharedMeans(p: Plan, axis: Axis, item: string, n: string)
    requires Owns(p, axis, n, item)
    ensures Unshared(p.packets, axis, item, n, p.inventory) <==>
            (exists m :: Owns(p, axis, m, item) && m != n) && !SharesWithOwner(p, axis, n, item)
  {
    hide Declared, SharesOf;
    var owners := Owners(p.packets, axis, item, p.inventory);
    OneOfSeveral(owners, n);
    var partners := Partners(SharesOf(p.packets[n]), item);
    assert forall m :: m in owners - {n} <==> Owns(p, axis, m, item) && m != n;
    if SharesWithOwner(p, axis, n, item) {
      var s :| s in SharesOf(p.packets[n]) && s.item == item && s.coOwner != n && Owns(p, axis, s.coOwner, item);
      assert s.coOwner in partners && s.coOwner in owners - {n};
    }
    if m :| m in partners && m in owners - {n} {
      var s :| s in SharesOf(p.packets[n]) && s.item == item && s.coOwner == m;
    }
  }

  lemma ReferencesAreExact(p: Plan)
    ensures ReferenceFindings(p.packets, p.inventory) == {} <==> Referenced(p)
  {
    hide SharesOf, SoundShare, ShareFindings;
    forall n, s | n in p.packets && s in SharesOf(p.packets[n])
      ensures ShareFindings(p.packets, n, s, p.inventory) == {} <==> SoundShare(p, n, s)
    {
      NoShareFinding(p, n, s);
    }
    var found := ReferenceFindings(p.packets, p.inventory);
    assert forall n, s, f :: n in p.packets && s in SharesOf(p.packets[n]) && f in ShareFindings(p.packets, n, s, p.inventory) ==> f in found;
  }

  lemma NoShareFinding(p: Plan, n: string, s: Share)
    requires n in p.packets
    ensures ShareFindings(p.packets, n, s, p.inventory) == {} <==> SoundShare(p, n, s)
  {
    hide DeclaredAnywhere;
    var found := ShareFindings(p.packets, n, s, p.inventory);
    if !SoundShare(p, n, s) {
      assert || ShareUnknown(n, s) in found || ShareNotDeclared(n, s) in found || ShareWithItself(n, s) in found
             || ShareWithNobody(n, s) in found || ShareOneSided(n, s) in found;
    }
  }

  lemma ClassLockIsExact(p: Plan)
    requires ReadClean(p)
    ensures ClassLockFindings(OrNone(p.classes), TableOf(p.packets, Invariants)) == {} <==> Classed(p)
  {
    hide InventoryFindings, ManifestFindings, ClassesFindings, ReadFindings, TableOf, Recorded, Declared;
    var classes, table := OrNone(p.classes), TableOf(p.packets, Invariants);
    forall n, i
      ensures Owns(p, Invariants, n, i) <==> (i, n) in table
      ensures Owns(p, Invariants, n, i) ==> Some(table[(i, n)]) == Recorded(p.packets, Invariants, i, n)
    {
      DeclaredIsRecorded(p, Invariants, n, i);
      TableHolds(p.packets, Invariants, i, n);
    }
    ClassLockIsExactOver(p, classes, table);
  }

  lemma ClassLockIsExactOver(p: Plan, classes: map<string, string>, table: Table)
    requires classes == OrNone(p.classes)
    requires forall n, i :: Owns(p, Invariants, n, i) <==> (i, n) in table
    requires forall n, i :: Owns(p, Invariants, n, i) ==> Some(table[(i, n)]) == Recorded(p.packets, Invariants, i, n)
    ensures ClassLockFindings(classes, table) == {} <==> Classed(p)
  {
    hide Owns, Recorded;
    var found := ClassLockFindings(classes, table);
    if found == {} {
      forall n, i | Owns(p, Invariants, n, i) && i in classes ensures Recorded(p.packets, Invariants, i, n) == Some(classes[i]) {
        assert ClassDrift(i, n) !in found;
        assert (i, n) in table;
      }
    }
    if Classed(p) {
      forall k | k in table && k.0 in classes ensures classes[k.0] == table[k] {
        assert Owns(p, Invariants, k.1, k.0);
      }
    }
  }

  /** A default validation is green exactly when the files read clean, the manifest and the packets are
      locked together, co-owners share, shares are declared at both ends, and the map is not contradicted. */
  lemma GreenIsCovered(p: Plan)
    ensures Findings(p, false) == {} <==> ReadClean(p) && Locked(p) && Shared(p) && Referenced(p) && Classed(p)
  {
    hide *;
    FindingsAre(p, false);
    ReadCleanMeans(p);
    SharedIsExact(p);
    ReferencesAreExact(p);
    if ReadClean(p) {
      LockIsExact(p);
      ClassLockIsExact(p);
    }
  }

  /** At fold time the same findings are reported but the owned units the manifest calls pending. */
  lemma FoldTimeOnlyDropsPending(p: Plan)
    ensures Findings(p, true) == set f | f in Findings(p, false) && !f.OwnedButPending?
  {
    hide *;
    var rows, owned := OrNone(p.manifest), TableOf(p.packets, Units);
    FindingsSplit(p, true);
    FindingsSplit(p, false);
    PendingIsSkipped(rows, owned);
    OthersAreNotPending(p);
    UnownedIsNotPending(rows, owned);
    OnlyTheMiddleLoses(ModelessFindings(p), OwnedFindings(rows, owned, owned.Keys, false), Unowned(rows, owned));
  }

  function WithoutPending(found: set<Finding>): set<Finding> {
    set f | f in found && !f.OwnedButPending?
  }

  predicate NonePending(found: set<Finding>) {
    forall f :: f in found ==> !f.OwnedButPending?
  }

  lemma OnlyTheMiddleLoses(a: set<Finding>, b: set<Finding>, c: set<Finding>)
    requires NonePending(a) && NonePending(c)
    ensures a + (WithoutPending(b) + c) == set f | f in a + (b + c) && !f.OwnedButPending?
  {
  }

  lemma FindingsSplit(p: Plan, foldTime: bool)
    ensures Findings(p, foldTime) ==
            ModelessFindings(p)
            + (OwnedFindings(OrNone(p.manifest), TableOf(p.packets, Units), TableOf(p.packets, Units).Keys, foldTime)
               + Unowned(OrNone(p.manifest), TableOf(p.packets, Units)))
  {
    hide ModelessFindings, OwnedFindings, Unowned, TableOf, OrNone;
  }

  lemma UnownedIsNotPending(rows: map<string, Row>, owned: Table)
    ensures NonePending(Unowned(rows, owned))
  {
  }

  lemma OthersAreNotPending(p: Plan)
    ensures NonePending(ModelessFindings(p))
  {
    hide *;
    FilesAreNotPending(p);
    PacketsAreNotPending(p.packets, p.inventory);
    SharingIsNotPending(p.packets, p.inventory);
    ClassesAreNotPending(OrNone(p.classes), TableOf(p.packets, Invariants));
    ModelessAreNotPending(p);
  }

  lemma ModelessAreNotPending(p: Plan)
    requires NonePending(InventoryFindings(p.inventory)) && NonePending(ManifestFindings(p.manifest, p.inventory.units))
    requires NonePending(ClassesFindings(p.classes, p.inventory.invariants)) && NonePending(ReadFindings(p.packets, p.inventory))
    requires NonePending(OwnerFindings(p.packets, p.inventory)) && NonePending(ReferenceFindings(p.packets, p.inventory))
    requires NonePending(ClassLockFindings(OrNone(p.classes), TableOf(p.packets, Invariants)))
    ensures NonePending(ModelessFindings(p))
  {
    hide InventoryFindings, ManifestFindings, ClassesFindings, ReadFindings, OwnerFindings, ReferenceFindings, ClassLockFindings, TableOf, OrNone;
  }

  lemma ClassesAreNotPending(classes: map<string, string>, declared: Table)
    ensures NonePending(ClassLockFindings(classes, declared))
  {
  }

  lemma FilesAreNotPending(p: Plan)
    ensures NonePending(InventoryFindings(p.inventory)) && NonePending(ManifestFindings(p.manifest, p.inventory.units))
    ensures NonePending(ClassesFindings(p.classes, p.inventory.invariants))
  {
    hide GoodRow, INVARIANT_DISPOSITIONS;
  }

  lemma PacketsAreNotPending(packets: map<string, Block>, inv: Inventory)
    ensures NonePending(ReadFindings(packets, inv))
  {
    forall n | n in packets ensures NonePending(SliceFindings(n, packets[n], inv)) {
      SliceIsNotPending(n, packets[n], inv);
    }
    hide SliceFindings;
  }

  lemma SliceIsNotPending(n: string, b: Block, inv: Inventory)
    ensures NonePending(SliceFindings(n, b, inv))
  {
  }

  lemma SharingIsNotPending(packets: map<string, Block>, inv: Inventory)
    ensures NonePending(OwnerFindings(packets, inv)) && NonePending(ReferenceFindings(packets, inv))
  {
    hide Unshared, Declared, DeclaredAnywhere, SharesOf;
  }

  lemma PendingIsSkipped(rows: map<string, Row>, owned: Table)
    ensures OwnedFindings(rows, owned, owned.Keys, true) == WithoutPending(OwnedFindings(rows, owned, owned.Keys, false))
  {
    hide Realized;
  }

  /** A unit named with one disposition however often. */
  predicate OneEach(entries: seq<Entry>) {
    forall j, k :: 0 <= j < k < |entries| && entries[j].Entry? && entries[k].Entry? && entries[j].id == entries[k].id ==>
      entries[j].disposition == entries[k].disposition
  }

  lemma {:induction false} LastOfOneEach(entries: seq<Entry>, valid: set<string>)
    requires forall k :: 0 <= k < |entries| ==> entries[k].Entry? && entries[k].disposition in valid
    ensures OneEach(entries) <==>
            forall k :: 0 <= k < |entries| ==> LastDisposition(entries, entries[k].id, valid) == Some(entries[k].disposition)
  {
    forall k | 0 <= k < |entries| ensures OneEach(entries) ==> LastDisposition(entries, entries[k].id, valid) == Some(entries[k].disposition) {
      LastIsSome(entries, k, valid);
    }
  }

  /** What is recorded for an entry's id is the disposition of an entry with that id, not before it. */
  lemma {:induction false} LastIsSome(entries: seq<Entry>, k: nat, valid: set<string>)
    requires forall k :: 0 <= k < |entries| ==> entries[k].Entry? && entries[k].disposition in valid
    requires k < |entries|
    ensures exists j :: k <= j < |entries| && entries[j].id == entries[k].id
                        && LastDisposition(entries, entries[k].id, valid) == Some(entries[j].disposition)
  {
    var last := |entries| - 1;
    if entries[last].id == entries[k].id {
      assert LastDisposition(entries, entries[k].id, valid) == Some(entries[last].disposition);
    } else {
      var rest := entries[..last];
      assert rest[k] == entries[k];
      LastIsSome(rest, k, valid);
      var j :| k <= j < |rest| && rest[j].id == rest[k].id && LastDisposition(rest, rest[k].id, valid) == Some(rest[j].disposition);
      assert entries[j] == rest[j];
    }
  }

  /** Of several entries for a unit only the last is compared: every entry of a slice carries its row's
      disposition exactly when no unit is named with two. */
  lemma EveryEntryIsLocked(p: Plan, n: string)
    requires ReadClean(p) && Locked(p) && n in p.packets
    ensures (forall k :: 0 <= k < |Entries(p.packets[n], Units)| ==> EntryIsRow(p, Entries(p.packets[n], Units)[k]))
            <==> OneEach(Entries(p.packets[n], Units))
  {
    var b := p.packets[n];
    var entries := Entries(b, Units);
    CleanManifest(p);
    assert forall f :: f in SliceFindings(n, b, p.inventory) ==> f in ReadFindings(p.packets, p.inventory);
    if b.Sliced? {
      CleanEntries(Units, n, entries, p.inventory.units);
      LastOfOneEach(entries, Valid(Units));
      hide UNIT_DISPOSITIONS, SliceFindings, ReadFindings, ManifestFindings, ClassesFindings, InventoryFindings, OneEach;
      forall k | 0 <= k < |entries|
        ensures EntryIsRow(p, entries[k]) <==> LastDisposition(entries, entries[k].id, Valid(Units)) == Some(entries[k].disposition)
      {
        assert Owns(p, Units, n, entries[k].id);
        assert Recorded(p.packets, Units, entries[k].id, n) == LastDisposition(entries, entries[k].id, Valid(Units));
      }
    }
  }

  predicate EntryIsRow(p: Plan, e: Entry) {
    e.Entry? && e.id in OrNone(p.manifest) && OrNone(p.manifest)[e.id].Row? && OrNone(p.manifest)[e.id].disposition == Some(e.disposition)
  }

  // ---- An entry that is not looked at

  lemma {:induction false} LastConcat(a: seq<Entry>, b: seq<Entry>, id: string, valid: set<string>)
    ensures LastDisposition(a + b, id, valid) ==
            if LastDisposition(b, id, valid).Some? then LastDisposition(b, id, valid) else LastDisposition(a, id, valid)
  {
    if b == [] {
      assert a + b == a;
    } else {
      var n := |b| - 1;
      LastConcat(a, b[..n], id, valid);
      assert (a + b)[..|a + b| - 1] == a + b[..n] && (a + b)[|a + b| - 1] == b[n];
    }
  }

  function Inserted(entries: seq<Entry>, j: nat, e: Entry): seq<Entry>
    requires j <= |entries|
  {
    entries[..j] + [e] + entries[j..]
  }

  /** An entry put before a valid one of the same id leaves no trace. */
  lemma InsertedIsOverwritten(entries: seq<Entry>, j: nat, e: Entry, id: string, valid: set<string>)
    requires j < |entries| && entries[j].Entry? && entries[j].disposition in valid && e.Entry? && e.id == entries[j].id
    ensures LastDisposition(Inserted(entries, j, e), id, valid) == LastDisposition(entries, id, valid)
    ensures Ids(Inserted(entries, j, e)) == Ids(entries)
  {
    var pre, post := entries[..j], entries[j..];
    assert entries == pre + post && Inserted(entries, j, e) == pre + [e] + post;
    LastConcat(pre, post, id, valid);
    LastConcat(pre + [e], post, id, valid);
    LastConcat(pre, [e], id, valid);
    LastConcat([post[0]], post[1..], id, valid);
    assert post == [post[0]] + post[1..] && [e][..0] == [] && [post[0]][..0] == [];
    InsertedIds(entries, j, e);
  }

  lemma InsertedIds(entries: seq<Entry>, j: nat, e: Entry)
    requires j < |entries| && entries[j].Entry? && e.Entry? && e.id == entries[j].id
    ensures Ids(Inserted(entries, j, e)) == Ids(entries)
  {
    var more := Inserted(entries, j, e);
    forall k | 0 <= k < |entries| && entries[k].Entry? ensures entries[k].id in Ids(more) {
      assert more[if k < j then k else k + 1] == entries[k];
    }
    forall k | 0 <= k < |more| && more[k].Entry? ensures more[k].id in Ids(entries) {
      assert k != j ==> more[k] == entries[if k < j then k else k - 1];
    }
  }

  /** A packet with one more unit entry. */
  function WithEntry(p: Plan, n: string, j: nat, e: Entry): Plan
    requires n in p.packets && p.packets[n].Sliced? && j <= |p.packets[n].slice.units|
  {
    var s := p.packets[n].slice;
    p.(packets := p.packets[n := Sliced(s.(units := Inserted(s.units, j, e)))])
  }

  /** Plans whose packets declare, share and record the same. */
  ghost predicate SameClaims(p: Plan, q: Plan) {
    && q.inventory == p.inventory && q.manifest == p.manifest && q.classes == p.classes && q.packets.Keys == p.packets.Keys
    && (forall n, axis :: n in p.packets ==> Declared(q.packets[n], axis, p.inventory) == Declared(p.packets[n], axis, p.inventory))
    && (forall n :: n in p.packets ==> SharesOf(q.packets[n]) == SharesOf(p.packets[n]))
    && forall n, axis, id :: Recorded(q.packets, axis, id, n) == Recorded(p.packets, axis, id, n)
  }

  lemma SameClaimsSameLocks(p: Plan, q: Plan)
    requires SameClaims(p, q)
    ensures Locked(p) ==> Locked(q)
    ensures Shared(p) ==> Shared(q)
    ensures Referenced(p) ==> Referenced(q)
    ensures Classed(p) ==> Classed(q)
  {
    hide Declared, SharesOf, Recorded, Realized, DeclaredAnywhere;
    assert forall axis, n, item :: Owns(q, axis, n, item) <==> Owns(p, axis, n, item);
    SameLocked(p, q);
    SameShared(p, q);
    SameReferenced(p, q);
    assert Classed(p) ==> Classed(q);
  }

  lemma SameLocked(p: Plan, q: Plan)
    requires SameClaims(p, q) && forall axis, n, item :: Owns(q, axis, n, item) <==> Owns(p, axis, n, item)
    ensures Locked(p) ==> Locked(q)
  {
    hide Declared, SharesOf, Recorded, Realized, Owns;
  }

  lemma SameShared(p: Plan, q: Plan)
    requires SameClaims(p, q) && forall axis, n, item :: Owns(q, axis, n, item) <==> Owns(p, axis, n, item)
    ensures Shared(p) ==> Shared(q)
  {
    hide Declared, SharesOf, Recorded;
    if Shared(p) {
      forall axis, item, n, m | Owns(q, axis, n, item) && Owns(q, axis, m, item) && m != n ensures SharesWithOwner(q, axis, n, item) {
        assert SharesWithOwner(p, axis, n, item);
      }
    }
  }

  lemma SameReferenced(p: Plan, q: Plan)
    requires SameClaims(p, q)
    ensures Referenced(p) ==> Referenced(q)
  {
    forall n | n in p.packets ensures DeclaredAnywhere(q.packets[n], p.inventory) == DeclaredAnywhere(p.packets[n], p.inventory) {
      DeclaredOnAnAxis(p.packets[n], p.inventory);
      DeclaredOnAnAxis(q.packets[n], p.inventory);
    }
    hide Declared, SharesOf, Recorded, DeclaredAnywhere;
  }

  /** The claims of a packet are those without the entry. */
  lemma InsertedClaims(p: Plan, n: string, j: nat, e: Entry)
    requires n in p.packets && p.packets[n].Sliced? && j < |p.packets[n].slice.units|
    requires var unit := p.packets[n].slice.units[j];
             unit.Entry? && unit.disposition in UNIT_DISPOSITIONS && e.Entry? && e.id == unit.id
    ensures SameClaims(p, WithEntry(p, n, j, e))
  {
    hide UNIT_DISPOSITIONS, INVARIANT_DISPOSITIONS;
    var q := WithEntry(p, n, j, e);
    var units := p.packets[n].slice.units;
    InsertedIds(units, j, e);
    forall m, axis, id ensures Recorded(q.packets, axis, id, m) == Recorded(p.packets, axis, id, m) {
      InsertedIsOverwritten(units, j, e, id, UNIT_DISPOSITIONS);
      hide LastDisposition, Inserted;
    }
    hide Recorded, Inserted, Ids, KnownTraces;
  }

  /** The packet still reads clean. */
  lemma InsertedReadsClean(p: Plan, n: string, j: nat, e: Entry)
    requires ReadFindings(p.packets, p.inventory) == {}
    requires n in p.packets && p.packets[n].Sliced? && j < |p.packets[n].slice.units|
    requires e.Entry? && p.packets[n].slice.units[j].Entry? && e.id == p.packets[n].slice.units[j].id && e.disposition in UNIT_DISPOSITIONS
    ensures p.packets[n].slice.units[j].disposition in UNIT_DISPOSITIONS
    ensures ReadFindings(WithEntry(p, n, j, e).packets, p.inventory) == {}
  {
    hide UNIT_DISPOSITIONS, INVARIANT_DISPOSITIONS, EntryFindings;
    var q := WithEntry(p, n, j, e);
    var units := p.packets[n].slice.units;
    var more := Inserted(units, j, e);
    forall m | m in p.packets ensures SliceFindings(m, p.packets[m], p.inventory) == {} {
      assert forall f :: f in SliceFindings(m, p.packets[m], p.inventory) ==> f in ReadFindings(p.packets, p.inventory);
    }
    SliceParts(n, p.packets[n], p.inventory);
    SliceParts(n, q.packets[n], p.inventory);
    CleanEntries(Units, n, units, p.inventory.units);
    assert forall k :: 0 <= k < |more| ==> more[k] == if k < j then units[k] else if k == j then e else units[k - 1];
    CleanEntries(Units, n, more, p.inventory.units);
    assert SliceFindings(n, q.packets[n], p.inventory) == {};
    hide SliceFindings;
  }

  /** A green plan stays green when an entry is put before another of the same unit, whatever valid
      disposition it claims: the gate compares the last one only. */
  lemma EarlierEntryIsIgnored(p: Plan, n: string, j: nat, disposition: string)
    requires Findings(p, false) == {}
    requires n in p.packets && p.packets[n].Sliced? && j < |p.packets[n].slice.units|
    requires p.packets[n].slice.units[j].Entry? && disposition in UNIT_DISPOSITIONS
    ensures var unit := p.packets[n].slice.units[j];
            var q := WithEntry(p, n, j, Entry(unit.id, disposition));
            && Findings(q, false) == {}
            && (disposition != unit.disposition ==> !OneEach(Entries(q.packets[n], Units)))
  {
    hide *;
    var unit := p.packets[n].slice.units[j];
    var e := Entry(unit.id, disposition);
    var q := WithEntry(p, n, j, e);
    GreenIsCovered(p);
    GreenIsCovered(q);
    ReadCleanMeans(p);
    ReadCleanMeans(q);
    WithEntryKeeps(p, n, j, e);
    InsertedReadsClean(p, n, j, e);
    InsertedClaims(p, n, j, e);
    SameClaimsSameLocks(p, q);
    TwoOfOne(p, n, j, e);
  }

  lemma WithEntryKeeps(p: Plan, n: string, j: nat, e: Entry)
    requires n in p.packets && p.packets[n].Sliced? && j <= |p.packets[n].slice.units|
    ensures var q := WithEntry(p, n, j, e); q.inventory == p.inventory && q.manifest == p.manifest && q.classes == p.classes
  {
  }

  lemma TwoOfOne(p: Plan, n: string, j: nat, e: Entry)
    requires n in p.packets && p.packets[n].Sliced? && j < |p.packets[n].slice.units|
    requires var unit := p.packets[n].slice.units[j]; e.Entry? && unit.Entry? && e.id == unit.id
    ensures e.disposition != p.packets[n].slice.units[j].disposition ==> !OneEach(Entries(WithEntry(p, n, j, e).packets[n], Units))
  {
    var more := Entries(WithEntry(p, n, j, e).packets[n], Units);
    assert more[j] == e && more[j + 1] == p.packets[n].slice.units[j];
  }
}
