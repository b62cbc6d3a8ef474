/** The delta store of pseudocode blocks: each block keeps the units that differ from the nearest
    version along its baseline chain, and folding gives every snapshot back. */
module UnitStore {
  import opened Text
  import opened UnitSegments

  datatype Snapshot = Snapshot(id: string, baseline: Option<string>, text: string)

  /** The dictionaries the migration fills. */
  datatype Store = Store(
    baselines: map<string, Option<string>>, orders: map<string, seq<string>>, stored: map<string, map<string, string>>)

  predicate DistinctIds(family: seq<Snapshot>) {
    forall i, j :: 0 <= i < j < |family| ==> family[i].id != family[j].id
  }

  /** The snapshot of that name among the first `n`. */
  function IndexOf(family: seq<Snapshot>, id: string, n: nat): (r: Option<nat>)
    requires n <= |family|
    ensures r.Some? ==> r.value < n && family[r.value].id == id
    ensures r.None? ==> forall i :: 0 <= i < n ==> family[i].id != id
  {
    if n == 0 then Option<nat>.None
    else if family[n - 1].id == id then Some(n - 1)
    else IndexOf(family, id, n - 1)
  }

  /** A block the migration can take in: it has units, and its baseline is a block before it. */
  predicate Takes(family: seq<Snapshot>, k: nat)
    requires k < |family|
  {
    && Segment(family[k].text).Some?
    && (family[k].baseline.Some? ==> IndexOf(family, family[k].baseline.value, k).Some?)
  }

  predicate TakesAll(family: seq<Snapshot>, n: nat)
    requires n <= |family|
  {
    forall k :: 0 <= k < n ==> Takes(family, k)
  }

  function UnitsOf(family: seq<Snapshot>, k: nat): seq<Unit>
    requires k < |family| && Takes(family, k)
  {
    Segment(family[k].text).value
  }

  /** The body under a name, if there is one. */
  function BodyOf(units: seq<Unit>, name: string): Option<string> {
    if units == [] then None else if units[0].name == name then Some(units[0].body) else BodyOf(units[1..], name)
  }

  // ---- Versions, seen in the full snapshots

  /** The nearest version of a unit in the snapshots along the baseline chain. */
  function Version(family: seq<Snapshot>, k: nat, name: string): Option<string>
    requires k < |family| && TakesAll(family, k + 1)
    decreases k
  {
    var own := BodyOf(UnitsOf(family, k), name);
    if own.Some? then own else Inherited(family, k, name)
  }

  function Inherited(family: seq<Snapshot>, k: nat, name: string): Option<string>
    requires k < |family| && TakesAll(family, k + 1)
    decreases k, 0
  {
    if family[k].baseline == None then None
    else
      assert Takes(family, k);
      var j := IndexOf(family, family[k].baseline.value, k).value;
      Version(family, j, name)
  }

  // ---- Versions, seen in the store

  /** The store holds the chain of every one of the first `n` blocks. */
  predicate Linked(st: Store, family: seq<Snapshot>, n: nat) {
    && n <= |family| && TakesAll(family, n)
    && forall i :: 0 <= i < n ==>
         && family[i].id in st.stored && family[i].id in st.orders
         && family[i].id in st.baselines && st.baselines[family[i].id] == family[i].baseline
  }

  function Resolve(st: Store, family: seq<Snapshot>, k: nat, name: string): Option<string>
    requires Linked(st, family, k + 1)
    decreases k
  {
    var id := family[k].id;
    if name in st.stored[id] then Some(st.stored[id][name])
    else if family[k].baseline == None then None
    else
      assert Takes(family, k);
      Resolve(st, family, IndexOf(family, family[k].baseline.value, k).value, name)
  }

  /** Blocks in the store: the order of their units, and exactly the units that differ from what the
      snapshots along the chain would hand down. */
  ghost predicate Deltas(st: Store, family: seq<Snapshot>, n: nat) {
    && Linked(st, family, n)
    && forall k :: 0 <= k < n ==> DeltaOf(st, family, k)
  }

  ghost predicate DeltaOf(st: Store, family: seq<Snapshot>, k: nat)
    requires Linked(st, family, k + 1)
  {
    && st.orders[family[k].id] == Names(UnitsOf(family, k))
    && (forall name :: name in st.stored[family[k].id] ==>
          BodyOf(UnitsOf(family, k), name) == Some(st.stored[family[k].id][name]))
    && forall name :: name in st.stored[family[k].id] <==>
         BodyOf(UnitsOf(family, k), name).Some? && BodyOf(UnitsOf(family, k), name) != Inherited(family, k, name)
  }

  /** The compressed store and the full snapshots agree on every version of every unit. */
  lemma {:induction false} StoreAgrees(st: Store, family: seq<Snapshot>, n: nat, k: nat, name: string)
    requires Deltas(st, family, n) && k < n
    ensures Resolve(st, family, k, name) == Version(family, k, name)
    decreases k
  {
    hide Segment, BodyOf;
    assert DeltaOf(st, family, k) && Takes(family, k);
    if name !in st.stored[family[k].id] && family[k].baseline.Some? {
      StoreAgrees(st, family, n, IndexOf(family, family[k].baseline.value, k).value, name);
    }
  }

  // ---- Folding

  function FoldUnits(st: Store, family: seq<Snapshot>, k: nat, names: seq<string>): Option<string>
    requires Linked(st, family, k + 1)
  {
    if names == [] then Some("")
    else
      var first :- Resolve(st, family, k, names[0]);
      var rest :- FoldUnits(st, family, k, names[1..]);
      Some(first + rest)
  }

  /** The text a block stands for; none when a unit is not found along the chain. */
  function FoldBlock(st: Store, family: seq<Snapshot>, k: nat): Option<string>
    requires Linked(st, family, k + 1)
  {
    FoldUnits(st, family, k, st.orders[family[k].id])
  }

  lemma {:induction false} BodyAt(units: seq<Unit>, i: nat)
    requires AllDistinct(Names(units)) && i < |units|
    ensures BodyOf(units, units[i].name) == Some(units[i].body)
    decreases units
  {
    if i > 0 {
      assert Names(units)[0] != Names(units)[i];
      assert Names(units[1..]) == Names(units)[1..];
      BodyAt(units[1..], i - 1);
    }
  }

  lemma {:induction false} FoldTail(st: Store, family: seq<Snapshot>, n: nat, k: nat, i: nat)
    requires Deltas(st, family, n) && k < n && i <= |UnitsOf(family, k)|
    ensures FoldUnits(st, family, k, Names(UnitsOf(family, k))[i..]) == Some(Concat(Bodies(UnitsOf(family, k))[i..]))
    decreases |UnitsOf(family, k)| - i
  {
    hide Segment, Resolve, Version, DeltaOf;
    var units := UnitsOf(family, k);
    if i < |units| {
      FoldTail(st, family, n, k, i + 1);
      SegmentPartitions(family[k].text);
      BodyAt(units, i);
      OwnVersion(family, k, units[i].name);
      StoreAgrees(st, family, n, k, units[i].name);
      assert Names(units)[i..][1..] == Names(units)[i + 1..];
      assert Bodies(units)[i..][1..] == Bodies(units)[i + 1..];
    }
  }

  lemma OwnVersion(family: seq<Snapshot>, k: nat, name: string)
    requires k < |family| && TakesAll(family, k + 1) && BodyOf(UnitsOf(family, k), name).Some?
    ensures Version(family, k, name) == BodyOf(UnitsOf(family, k), name)
  {
  }

  /** Folding any stored block gives back its snapshot. */
  lemma FoldIsSnapshot(st: Store, family: seq<Snapshot>, n: nat, k: nat)
    requires Deltas(st, family, n) && k < n
    ensures FoldBlock(st, family, k) == Some(family[k].text)
  {
    hide Segment, FoldUnits;
    assert DeltaOf(st, family, k) && Takes(family, k);
    var units := UnitsOf(family, k);
    FoldTail(st, family, n, k, 0);
    SegmentPartitions(family[k].text);
    assert Names(units)[0..] == Names(units) && Bodies(units)[0..] == Bodies(units);
  }

  // ---- The program's loops

  /** Walks the baseline chain through the dictionaries. */
  method ResolveUnit(st: Store, ghost family: seq<Snapshot>, ghost k: nat, id: string, name: string)
    returns (body: Option<string>)
    requires Linked(st, family, k + 1) && id == family[k].id
    ensures body == Resolve(st, family, k, name)
  {
    var b := Some(id);
    ghost var at: nat := k;
    while b.Some?
      invariant at <= k
      invariant b.Some? ==> b.value == family[at].id && Resolve(st, family, at, name) == Resolve(st, family, k, name)
      invariant b == None ==> Resolve(st, family, k, name) == None
      decreases if b.Some? then at + 1 else 0
    {
      if name in st.stored[b.value] {
        return Some(st.stored[b.value][name]);
      }
      b := st.baselines[b.value];
      assert Takes(family, at);
      if b.Some? {
        at := IndexOf(family, b.value, at).value;
      }
    }
    return None;
  }

  /** What has been stored of the first `m` units of block `k`. */
  ghost predicate StoredSoFar(own: map<string, string>, family: seq<Snapshot>, k: nat, m: nat)
    requires k < |family| && TakesAll(family, k + 1) && m <= |UnitsOf(family, k)|
  {
    var units := UnitsOf(family, k);
    && (forall name :: name in own ==> exists i :: 0 <= i < m && units[i].name == name && own[name] == units[i].body)
    && forall i :: 0 <= i < m ==>
         (units[i].name in own <==> Some(units[i].body) != Inherited(family, k, units[i].name))
  }

  lemma StoredIsDelta(st: Store, family: seq<Snapshot>, k: nat)
    requires Linked(st, family, k + 1) && st.orders[family[k].id] == Names(UnitsOf(family, k))
    requires StoredSoFar(st.stored[family[k].id], family, k, |UnitsOf(family, k)|)
    ensures DeltaOf(st, family, k)
  {
    hide Inherited, Segment;
    var units, own := UnitsOf(family, k), st.stored[family[k].id];
    assert AllDistinct(Names(units)) by { SegmentPartitions(family[k].text); }
    forall name | name in own ensures BodyOf(units, name) == Some(own[name]) {
      var i :| 0 <= i < |units| && units[i].name == name && own[name] == units[i].body;
      BodyAt(units, i);
    }
    forall name | BodyOf(units, name).Some?
      ensures name in own <==> BodyOf(units, name) != Inherited(family, k, name)
    {
      var i := BodyFound(units, name);
      BodyAt(units, i);
    }
  }

  lemma {:induction false} BodyFound(units: seq<Unit>, name: string) returns (i: nat)
    requires BodyOf(units, name).Some?
    ensures i < |units| && units[i].name == name
    decreases units
  {
    if units[0].name == name {
      i := 0;
    } else {
      i := BodyFound(units[1..], name);
      i := i + 1;
    }
  }

  /** One more unit looked at: it is stored when it differs from what it would inherit. */
  lemma StoredOneMore(own: map<string, string>, family: seq<Snapshot>, k: nat, m: nat)
    requires k < |family| && TakesAll(family, k + 1) && m < |UnitsOf(family, k)| && StoredSoFar(own, family, k, m)
    ensures var u := UnitsOf(family, k)[m];
            StoredSoFar(if Inherited(family, k, u.name) != Some(u.body) then own[u.name := u.body] else own, family, k, m + 1)
  {
    hide Inherited, Segment;
    var units := UnitsOf(family, k);
    var u := units[m];
    assert AllDistinct(Names(units)) by { SegmentPartitions(family[k].text); }
    forall i | 0 <= i < m ensures units[i].name != u.name {
      assert Names(units)[i] == units[i].name && Names(units)[m] == u.name;
    }
    assert u.name !in own;
    var more := if Inherited(family, k, u.name) != Some(u.body) then own[u.name := u.body] else own;
    forall name | name in more
      ensures exists i :: 0 <= i < m + 1 && units[i].name == name && more[name] == units[i].body
    {
      if name in own {
        var i :| 0 <= i < m && units[i].name == name && own[name] == units[i].body;
      } else {
        assert units[m].name == name && more[name] == units[m].body;
      }
    }
  }

  /** Later blocks touch no earlier entry. */
  lemma DeltasStay(st: Store, more: Store, family: seq<Snapshot>, n: nat)
    requires Deltas(st, family, n)
    requires forall i :: 0 <= i < n ==>
               var id := family[i].id;
               && id in more.stored && id in more.orders && id in more.baselines
               && more.stored[id] == st.stored[id] && more.orders[id] == st.orders[id] && more.baselines[id] == st.baselines[id]
    ensures Deltas(more, family, n)
  {
    hide Takes, Inherited, BodyOf;
    forall k | 0 <= k < n ensures DeltaOf(more, family, k) {
      assert DeltaOf(st, family, k);
    }
  }

  method InheritedUnit(st: Store, ghost family: seq<Snapshot>, ghost k: nat, baseline: Option<string>, name: string)
    returns (inherited: Option<string>)
    requires k < |family| && Takes(family, k) && Deltas(st, family, k) && baseline == family[k].baseline
    ensures inherited == Inherited(family, k, name)
  {
    inherited := None;
    if baseline.Some? {
      ghost var j := IndexOf(family, baseline.value, k).value;
      inherited := ResolveUnit(st, family, j, baseline.value, name);
      StoreAgrees(st, family, k, j, name);
    }
  }

  /** The units of one block that are stored, and their order. */
  method StoreBlock(st: Store, family: seq<Snapshot>, k: nat) returns (own: map<string, string>)
    requires k < |family| && Takes(family, k) && Deltas(st, family, k)
    ensures StoredSoFar(own, family, k, |UnitsOf(family, k)|)
  {
    hide Inherited, StoredSoFar, Segment;
    own := map[];
    assert StoredSoFar(own, family, k, 0) by { NothingStored(family, k); }
    var units := UnitsOf(family, k);
    for m := 0 to |units|
      invariant StoredSoFar(own, family, k, m)
    {
      var inherited := InheritedUnit(st, family, k, family[k].baseline, units[m].name);
      StoredOneMore(own, family, k, m);
      if inherited != Some(units[m].body) {
        own := own[units[m].name := units[m].body];
      }
    }
  }

  lemma NothingStored(family: seq<Snapshot>, k: nat)
    requires k < |family| && TakesAll(family, k + 1)
    ensures StoredSoFar(map[], family, k, 0)
  {
  }

  /** The migration: it stops exactly when some block has no units or a baseline that is not before it;
      otherwise every block is stored as its delta, and the final comparison cannot fail. */
  method Migrate(family: seq<Snapshot>) returns (r: Option<Store>)
    requires DistinctIds(family)
    ensures r.Some? <==> TakesAll(family, |family|)
    ensures r.Some? ==> Deltas(r.value, family, |family|)
  {
    hide Segment, Inherited, StoredSoFar, DeltaOf;
    var st := Store(map[], map[], map[]);
    for k := 0 to |family|
      invariant Deltas(st, family, k)
    {
      var block := family[k];
      var segs := SegmentSnapshot(block.text);
      if segs == None || (block.baseline.Some? && IndexOf(family, block.baseline.value, k) == None) {
        assert !Takes(family, k);
        return None;
      }
      var own := StoreBlock(st, family, k);
      var more := Store(st.baselines[block.id := block.baseline], st.orders[block.id := Names(segs.value)],
                        st.stored[block.id := own]);
      DeltasStay(st, more, family, k);
      StoredIsDelta(more, family, k);
      st := more;
    }
    for k := 0 to |family| {
      FoldIsSnapshot(st, family, |family|, k);
      if FoldBlock(st, family, k) != Some(family[k].text) {
        assert false;
      }
    }
    return Some(st);
  }
}
