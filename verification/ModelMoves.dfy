/** Which blocks a migration moves, and what it leaves of the tree. */
module ModelMoves {
  import opened Text
  import opened UnitStore
  import opened ModelMarkers
  import opened ModelCodes
  import opened ModelSections
  import opened ModelTree

  /** The `j`-th block of the `k`-th section is pseudocode. */
  ghost predicate Pseudocode(t: Tree, k: nat, j: nat) {
    k < |t.sections| && j < |t.sections[k].entries| && Contains(t.sections[k].entries[j].id, "pseudocode")
  }

  function SnapshotPath(id: string): string { "code/" + id + ".new.txt" }

  /** The blocks that move are the pseudocode blocks of the manifest, in its order, each with the snapshot
      that its file held. */
  ghost predicate Moves(t: Tree, family: seq<Snapshot>, from: seq<(nat, nat)>) {
    && |from| == |family|
    && (forall n :: 0 <= n < |from| ==> Moved(t, family[n], from[n]))
    && (forall n, m :: 0 <= n < m < |from| ==> Before(from[n], from[m]))
    && forall k: nat, j: nat :: Pseudocode(t, k, j) ==> (k, j) in from
  }

  ghost predicate Moved(t: Tree, s: Snapshot, at: (nat, nat)) {
    && Pseudocode(t, at.0, at.1)
    && var e := t.sections[at.0].entries[at.1];
       s.id == e.id && s.baseline == e.baseline && SnapshotPath(e.id) in t.code && s.text == t.code[SnapshotPath(e.id)]
  }

  predicate Before(a: (nat, nat), b: (nat, nat)) { a.0 < b.0 || (a.0 == b.0 && a.1 < b.1) }

  /** The entries at these places, from the `k`-th section's `j`-th entry on. */
  ghost predicate TargetsAt(sections: seq<Section>, k: nat, j: nat, targets: seq<Entry>, from: seq<(nat, nat)>) {
    && |from| == |targets|
    && (forall n :: 0 <= n < |from| ==> TargetAt(sections, k, j, targets[n], from[n]))
    && (forall n, m :: 0 <= n < m < |from| ==> Before(from[n], from[m]))
    && forall a: nat, b: nat :: IsBlock(sections, a, b) && (a > k || (a == k && b >= j)) && IsTarget(sections[a].entries[b].id) ==> (a, b) in from
  }

  predicate IsBlock(sections: seq<Section>, a: nat, b: nat) { a < |sections| && b < |sections[a].entries| }

  predicate TargetAt(sections: seq<Section>, k: nat, j: nat, e: Entry, at: (nat, nat)) {
    && IsBlock(sections, at.0, at.1) && (at.0 > k || (at.0 == k && at.1 >= j))
    && sections[at.0].entries[at.1] == e && IsTarget(e.id)
  }

  lemma {:induction false} TargetsOfAt(sections: seq<Section>, k: nat, j: nat, later: seq<Entry>, from: seq<(nat, nat)>) returns (all: seq<(nat, nat)>)
    requires k < |sections| && j <= |sections[k].entries| && TargetsAt(sections, k + 1, 0, later, from)
    ensures TargetsAt(sections, k, j, TargetsOf(sections[k].entries[j..]) + later, all)
    decreases |sections[k].entries| - j
  {
    hide IsTarget, TargetsAt;
    var entries := sections[k].entries;
    if j == |entries| {
      all := from;
      assert TargetsOf(entries[j..]) + later == later;
      NothingBetween(sections, k, later, from);
    } else {
      var more := TargetsOfAt(sections, k, j + 1, later, from);
      var rest := TargetsOf(entries[j + 1..]) + later;
      assert entries[j..][0] == entries[j] && entries[j..][1..] == entries[j + 1..];
      if IsTarget(entries[j].id) {
        all := [(k, j)] + more;
        FirstTarget(sections, k, j, rest, more);
        assert TargetsOf(entries[j..]) + later == [entries[j]] + rest;
      } else {
        all := more;
        NoTarget(sections, k, j, rest, more);
        assert TargetsOf(entries[j..]) + later == rest;
      }
    }
  }

  lemma NothingBetween(sections: seq<Section>, k: nat, targets: seq<Entry>, from: seq<(nat, nat)>)
    requires k < |sections| && TargetsAt(sections, k + 1, 0, targets, from)
    ensures TargetsAt(sections, k, |sections[k].entries|, targets, from)
  {
    hide IsTarget;
    forall n | 0 <= n < |from| ensures TargetAt(sections, k, |sections[k].entries|, targets[n], from[n]) {
      assert TargetAt(sections, k + 1, 0, targets[n], from[n]);
    }
  }

  lemma NoTarget(sections: seq<Section>, k: nat, j: nat, targets: seq<Entry>, from: seq<(nat, nat)>)
    requires IsBlock(sections, k, j) && !IsTarget(sections[k].entries[j].id) && TargetsAt(sections, k, j + 1, targets, from)
    ensures TargetsAt(sections, k, j, targets, from)
  {
    hide IsTarget;
    forall n | 0 <= n < |from| ensures TargetAt(sections, k, j, targets[n], from[n]) {
      assert TargetAt(sections, k, j + 1, targets[n], from[n]);
    }
  }

  lemma FirstTarget(sections: seq<Section>, k: nat, j: nat, targets: seq<Entry>, from: seq<(nat, nat)>)
    requires IsBlock(sections, k, j) && IsTarget(sections[k].entries[j].id) && TargetsAt(sections, k, j + 1, targets, from)
    ensures TargetsAt(sections, k, j, [sections[k].entries[j]] + targets, [(k, j)] + from)
  {
    hide IsTarget;
    var all, places := [sections[k].entries[j]] + targets, [(k, j)] + from;
    forall n | 0 <= n < |places| ensures TargetAt(sections, k, j, all[n], places[n]) {
      assert n > 0 ==> TargetAt(sections, k, j + 1, targets[n - 1], from[n - 1]);
    }
    forall n, m | 0 <= n < m < |places| ensures Before(places[n], places[m]) {
      assert TargetAt(sections, k, j + 1, targets[m - 1], from[m - 1]);
      assert n > 0 ==> Before(from[n - 1], from[m - 1]);
    }
    forall a: nat, b: nat | IsBlock(sections, a, b) && (a > k || (a == k && b >= j)) && IsTarget(sections[a].entries[b].id)
      ensures (a, b) in places
    {
      assert (a, b) == (k, j) || (a, b) in from;
    }
  }

  lemma {:induction false} TargetsFrom(sections: seq<Section>, k: nat) returns (from: seq<(nat, nat)>)
    requires k <= |sections|
    ensures TargetsAt(sections, k, 0, Targets(sections[k..]), from)
    decreases |sections| - k
  {
    hide IsTarget, TargetsAt;
    if k == |sections| {
      from := [];
      NoSections(sections);
    } else {
      var later := TargetsFrom(sections, k + 1);
      assert sections[k..][0] == sections[k] && sections[k..][1..] == sections[k + 1..];
      from := TargetsOfAt(sections, k, 0, Targets(sections[k + 1..]), later);
      assert sections[k].entries[0..] == sections[k].entries;
    }
  }

  lemma NoSections(sections: seq<Section>)
    ensures TargetsAt(sections, |sections|, 0, Targets(sections[|sections|..]), [])
  {
  }

  lemma {:induction false} FamilyIs(targets: seq<Entry>, code: map<string, string>)
    requires FamilyOf(targets, code).Some?
    ensures |FamilyOf(targets, code).value| == |targets|
    ensures forall n :: 0 <= n < |targets| ==> SnapshotOf(targets[n], code, FamilyOf(targets, code).value[n])
    decreases targets
  {
    if targets != [] {
      FamilyIs(targets[1..], code);
    }
  }

  predicate SnapshotOf(e: Entry, code: map<string, string>, s: Snapshot) {
    s.id == e.id && s.baseline == e.baseline && SnapshotPath(e.id) in code && s.text == code[SnapshotPath(e.id)]
  }

  lemma {:induction false} SectionsStay(sections: seq<Section>)
    requires RewriteSections(sections).Some?
    ensures var more := RewriteSections(sections).value;
            |more| == |sections| && forall k :: 0 <= k < |sections| ==>
              more[k].id == sections[k].id && more[k].entries == sections[k].entries
    decreases sections
  {
    hide Rewrite, TargetsOf;
    if sections != [] {
      SectionsStay(sections[1..]);
    }
  }

  /** A migration moves exactly the pseudocode blocks and drops exactly their snapshot files. */
  lemma MigrationMoves(t: Tree, m: Migration) returns (from: seq<(nat, nat)>)
    requires MigrateTree(t) == Some(m)
    ensures Moves(t, m.family, from)
    ensures forall path :: path in m.tree.code <==> path in t.code && !DroppedPath(t, path)
    ensures forall path :: path in m.tree.code ==> m.tree.code[path] == t.code[path]
    ensures m.tree.prelude == t.prelude && m.tree.postlude == t.postlude && m.tree.records == t.records
    ensures |m.tree.sections| == |t.sections|
    ensures forall k :: 0 <= k < |t.sections| ==>
              m.tree.sections[k].id == t.sections[k].id && m.tree.sections[k].entries == t.sections[k].entries
  {
    hide IsTarget, FamilyOf, TakesAll, RewriteSections, Targets, TargetsAt, Moves;
    from := TargetsFrom(t.sections, 0);
    assert t.sections[0..] == t.sections;
    var targets := Targets(t.sections);
    FamilyIs(targets, t.code);
    SectionsStay(t.sections);
    TargetsMove(t, targets, m.family, from);
    TargetsDrop(t, targets, from);
  }

  ghost predicate DroppedPath(t: Tree, path: string) {
    exists k: nat, j: nat :: Pseudocode(t, k, j) && path == SnapshotPath(t.sections[k].entries[j].id)
  }

  lemma TargetsMove(t: Tree, targets: seq<Entry>, family: seq<Snapshot>, from: seq<(nat, nat)>)
    requires TargetsAt(t.sections, 0, 0, targets, from) && |family| == |targets|
    requires forall n :: 0 <= n < |targets| ==> SnapshotOf(targets[n], t.code, family[n])
    ensures Moves(t, family, from)
  {
    forall n | 0 <= n < |from| ensures Moved(t, family[n], from[n]) {
      assert TargetAt(t.sections, 0, 0, targets[n], from[n]);
      assert SnapshotOf(targets[n], t.code, family[n]);
    }
    forall k: nat, j: nat | Pseudocode(t, k, j) ensures (k, j) in from {
      assert IsBlock(t.sections, k, j);
    }
  }

  lemma TargetsDrop(t: Tree, targets: seq<Entry>, from: seq<(nat, nat)>)
    requires TargetsAt(t.sections, 0, 0, targets, from)
    ensures forall path :: DroppedPath(t, path) <==> exists e :: e in targets && path == NewPath(e.id)
  {
    forall path ensures DroppedPath(t, path) <==> exists e :: e in targets && path == NewPath(e.id) {
      if DroppedPath(t, path) {
        var k: nat, j: nat :| Pseudocode(t, k, j) && path == SnapshotPath(t.sections[k].entries[j].id);
        assert IsBlock(t.sections, k, j);
        var n :| 0 <= n < |from| && from[n] == (k, j);
        assert TargetAt(t.sections, 0, 0, targets[n], from[n]);
        assert targets[n] in targets;
      }
      if e :| e in targets && path == NewPath(e.id) {
        var n :| 0 <= n < |targets| && targets[n] == e;
        assert TargetAt(t.sections, 0, 0, targets[n], from[n]);
        assert Pseudocode(t, from[n].0, from[n].1);
      }
    }
  }
}
