/** Records that are updated in place through references, and the proof that the nested
    record they stand for changes exactly as the value-level operations say. */
module TomlStore {
  import opened Text
  import opened TomlParser

  datatype Cell = Leaf(v: Value) | Sub(ref: nat)

  /** Every record that was created, addressed by its position; the first is the root. */
  type Store = seq<map<string, Cell>>

  /** References lead to later records only, and leaves are no records. */
  ghost predicate Ordered(s: Store) {
    forall r, k :: 0 <= r < |s| && k in s[r] ==>
      match s[r][k] case Leaf(v) => !v.Rec? case Sub(c) => r < c < |s|
  }

  /** Each record lives at one place below the root. */
  ghost predicate Housed(s: Store, homes: seq<seq<string>>) {
    && Ordered(s)
    && |homes| == |s| > 0
    && homes[0] == []
    && forall r, k :: 0 <= r < |s| && k in s[r] && s[r][k].Sub? ==>
         homes[s[r][k].ref] == homes[r] + [k]
  }

  /** The nested record a reference stands for. */
  ghost function Read(s: Store, r: nat): Record
    requires Ordered(s) && r < |s|
    decreases |s| - r
  {
    map k | k in s[r] :: match s[r][k] case Leaf(v) => v case Sub(c) => Rec(Read(s, c))
  }

  ghost function CellValue(s: Store, cell: Cell): Value
    requires Ordered(s) && (cell.Sub? ==> cell.ref < |s|)
  {
    match cell case Leaf(v) => v case Sub(c) => Rec(Read(s, c))
  }

  /** The reference a path leads to. */
  ghost function Walk(s: Store, r: nat, path: seq<string>): Option<nat>
    requires Ordered(s) && r < |s|
    decreases path
  {
    if path == [] then Some(r)
    else if path[0] in s[r] && s[r][path[0]].Sub? then Walk(s, s[r][path[0]].ref, path[1..])
    else None
  }

  lemma {:induction false} WalkReadsAt(s: Store, r: nat, path: seq<string>)
    requires Ordered(s) && r < |s|
    ensures match Walk(s, r, path)
            case Some(t) => t < |s| && At(Read(s, r), path) == Some(Read(s, t))
            case None => At(Read(s, r), path) == None
    decreases path
  {
    if path != [] && path[0] in s[r] && s[r][path[0]].Sub? {
      WalkReadsAt(s, s[r][path[0]].ref, path[1..]);
    }
  }

  lemma {:induction false} WalkSnoc(s: Store, r: nat, path: seq<string>, name: string)
    requires Ordered(s) && r < |s| && Walk(s, r, path).Some?
    ensures Walk(s, r, path).value < |s|
    ensures var t := Walk(s, r, path).value;
            Walk(s, r, path + [name]) ==
            if name in s[t] && s[t][name].Sub? then Some(s[t][name].ref) else None
    decreases path
  {
    if path == [] {
      assert (path + [name])[1..] == [];
      var c := if name in s[r] && s[r][name].Sub? then s[r][name].ref else r;
      assert Walk(s, c, []) == Some(c);
    } else {
      assert (path + [name])[1..] == path[1..] + [name];
      WalkSnoc(s, s[r][path[0]].ref, path[1..], name);
    }
  }

  lemma {:induction false} WalkHome(s: Store, homes: seq<seq<string>>, r: nat, path: seq<string>)
    requires Housed(s, homes) && r < |s| && Walk(s, r, path).Some?
    ensures Walk(s, r, path).value < |s| && homes[Walk(s, r, path).value] == homes[r] + path
    decreases path
  {
    if path != [] {
      var c := s[r][path[0]].ref;
      WalkHome(s, homes, c, path[1..]);
      assert homes[r] + [path[0]] + path[1..] == homes[r] + path;
    } else {
      assert homes[r] + path == homes[r];
    }
  }

  // ---- An assignment through a reference

  ghost predicate FitsAt(s: Store, homes: seq<seq<string>>, t: nat, key: string, cell: Cell)
    requires Housed(s, homes) && t < |s|
  {
    match cell
    case Leaf(v) => !v.Rec?
    case Sub(c) => t < c < |s| && homes[c] == homes[t] + [key]
  }

  function Assign(s: Store, t: nat, key: string, cell: Cell): Store
    requires t < |s|
  {
    s[t := s[t][key := cell]]
  }

  lemma AssignStaysHoused(s: Store, homes: seq<seq<string>>, t: nat, key: string, cell: Cell)
    requires Housed(s, homes) && t < |s| && FitsAt(s, homes, t, key, cell)
    ensures Housed(Assign(s, t, key, cell), homes)
  {
  }

  /** Records that do not contain the assigned one keep their meaning. */
  lemma {:induction false} ReadElsewhere(s: Store, homes: seq<seq<string>>, t: nat, key: string, cell: Cell, r: nat)
    requires Housed(s, homes) && t < |s| && FitsAt(s, homes, t, key, cell)
    requires r < |s| && !(homes[r] <= homes[t])
    ensures Housed(Assign(s, t, key, cell), homes)
    ensures Read(Assign(s, t, key, cell), r) == Read(s, r)
    decreases |s| - r
  {
    AssignStaysHoused(s, homes, t, key, cell);
    var s' := Assign(s, t, key, cell);
    assert s'[r] == s[r];
    forall k | k in s[r] && s[r][k].Sub?
      ensures Read(s', s[r][k].ref) == Read(s, s[r][k].ref)
    {
      var c := s[r][k].ref;
      assert homes[c] == homes[r] + [k];
      assert homes[r] == homes[c][..|homes[r]|];
      ReadElsewhere(s, homes, t, key, cell, c);
    }
  }

  /** Children other than the one the path goes through keep their meaning. */
  lemma SiblingsKeep(s: Store, homes: seq<seq<string>>, t: nat, key: string, cell: Cell,
                     r: nat, path: seq<string>, k: string)
    requires Housed(s, homes) && t < |s| && FitsAt(s, homes, t, key, cell)
    requires r < |s| && homes[t] == homes[r] + path
    requires k in s[r] && s[r][k].Sub? && (path == [] || k != path[0])
    ensures Housed(Assign(s, t, key, cell), homes)
    ensures Read(Assign(s, t, key, cell), s[r][k].ref) == Read(s, s[r][k].ref)
  {
    var c := s[r][k].ref;
    assert homes[c] == homes[r] + [k];
    if path != [] {
      assert homes[c][|homes[r]|] == k && homes[t][|homes[r]|] == path[0];
    }
    ReadElsewhere(s, homes, t, key, cell, c);
  }

  lemma NewChildKeeps(s: Store, homes: seq<seq<string>>, t: nat, key: string, cell: Cell)
    requires Housed(s, homes) && t < |s| && FitsAt(s, homes, t, key, cell)
    ensures Housed(Assign(s, t, key, cell), homes)
    ensures CellValue(Assign(s, t, key, cell), cell) == CellValue(s, cell)
  {
    AssignStaysHoused(s, homes, t, key, cell);
    if cell.Sub? {
      assert |homes[cell.ref]| == |homes[t]| + 1;
      ReadElsewhere(s, homes, t, key, cell, cell.ref);
    }
  }

  /** The assigned record itself. */
  lemma ReadAssigned(s: Store, homes: seq<seq<string>>, t: nat, key: string, cell: Cell)
    requires Housed(s, homes) && t < |s| && FitsAt(s, homes, t, key, cell)
    ensures Housed(Assign(s, t, key, cell), homes)
    ensures Read(Assign(s, t, key, cell), t) == Read(s, t)[key := CellValue(s, cell)]
  {
    AssignStaysHoused(s, homes, t, key, cell);
    var s' := Assign(s, t, key, cell);
    NewChildKeeps(s, homes, t, key, cell);
    assert homes[t] + [] == homes[t];
    forall k | k in s[t] && s[t][k].Sub?
      ensures Read(s', s[t][k].ref) == Read(s, s[t][k].ref)
    {
      SiblingsKeep(s, homes, t, key, cell, t, [], k);
    }
  }

  /** Seen from a record above, the assignment sets one field at the end of the path. */
  lemma {:induction false} ReadAbove(s: Store, homes: seq<seq<string>>, t: nat, key: string, cell: Cell,
                                     r: nat, path: seq<string>)
    requires Housed(s, homes) && t < |s| && FitsAt(s, homes, t, key, cell)
    requires r < |s| && Walk(s, r, path) == Some(t)
    ensures Housed(Assign(s, t, key, cell), homes)
    ensures At(Read(s, r), path).Some?
    ensures Read(Assign(s, t, key, cell), r) == Put(Read(s, r), path, key, CellValue(s, cell))
    decreases path
  {
    WalkReadsAt(s, r, path);
    if path == [] {
      ReadAssigned(s, homes, t, key, cell);
    } else {
      var d := s[r][path[0]].ref;
      ReadAbove(s, homes, t, key, cell, d, path[1..]);
      ReadThrough(s, homes, t, key, cell, r, path);
    }
  }

  /** One step of the path: only the child it goes through changes. */
  lemma ReadThrough(s: Store, homes: seq<seq<string>>, t: nat, key: string, cell: Cell, r: nat, path: seq<string>)
    requires Housed(s, homes) && t < |s| && FitsAt(s, homes, t, key, cell)
    requires r < |s| && path != [] && Walk(s, r, path) == Some(t)
    ensures Housed(Assign(s, t, key, cell), homes)
    ensures path[0] in s[r] && s[r][path[0]].Sub?
    ensures Read(Assign(s, t, key, cell), r) ==
            Read(s, r)[path[0] := Rec(Read(Assign(s, t, key, cell), s[r][path[0]].ref))]
  {
    AssignStaysHoused(s, homes, t, key, cell);
    var s' := Assign(s, t, key, cell);
    WalkHome(s, homes, r, path);
    assert r != t && s'[r] == s[r];
    forall k | k in s[r] && s[r][k].Sub? && k != path[0]
      ensures Read(s', s[r][k].ref) == Read(s, s[r][k].ref)
    {
      SiblingsKeep(s, homes, t, key, cell, r, path, k);
    }
    OneChildDiffers(s, s', r, path[0]);
  }

  /** Two stores that agree on a record and on all its children but one. */
  lemma OneChildDiffers(s: Store, s': Store, r: nat, key: string)
    requires Ordered(s) && Ordered(s') && |s| == |s'| && r < |s| && s'[r] == s[r]
    requires key in s[r] && s[r][key].Sub?
    requires forall k :: k in s[r] && s[r][k].Sub? && k != key ==> Read(s', s[r][k].ref) == Read(s, s[r][k].ref)
    ensures Read(s', r) == Read(s, r)[key := Rec(Read(s', s[r][key].ref))]
  {
  }

  // ---- A new empty record

  lemma {:induction false} ReadGrown(s: Store, r: nat)
    requires Ordered(s) && r < |s|
    ensures Ordered(s + [map[]])
    ensures Read(s + [map[]], r) == Read(s, r)
    decreases |s| - r
  {
    var g := s + [map[]];
    assert forall i :: 0 <= i < |s| ==> g[i] == s[i];
    assert Ordered(g);
    forall k | k in s[r] && s[r][k].Sub?
      ensures Read(g, s[r][k].ref) == Read(s, s[r][k].ref)
    {
      ReadGrown(s, s[r][k].ref);
    }
  }

  lemma {:induction false} WalkGrown(s: Store, r: nat, path: seq<string>)
    requires Ordered(s) && r < |s|
    ensures Ordered(s + [map[]])
    ensures Walk(s + [map[]], r, path) == Walk(s, r, path)
    decreases path
  {
    ReadGrown(s, r);
    if path != [] && path[0] in s[r] && s[r][path[0]].Sub? {
      WalkGrown(s, s[r][path[0]].ref, path[1..]);
    }
  }

  /** Setting a field that is no step of the path leads the path to the same record. */
  lemma {:induction false} WalkAfterAssign(s: Store, homes: seq<seq<string>>, t: nat, key: string, cell: Cell,
                                           r: nat, path: seq<string>)
    requires Housed(s, homes) && t < |s| && FitsAt(s, homes, t, key, cell) && key !in s[t]
    requires r < |s| && Walk(s, r, path).Some?
    ensures Housed(Assign(s, t, key, cell), homes)
    ensures Walk(Assign(s, t, key, cell), r, path) == Walk(s, r, path)
    decreases path
  {
    AssignStaysHoused(s, homes, t, key, cell);
    if path != [] {
      WalkAfterAssign(s, homes, t, key, cell, s[r][path[0]].ref, path[1..]);
    }
  }
}
