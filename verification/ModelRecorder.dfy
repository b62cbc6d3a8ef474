/** The loops that take record lines out of a section, proved against the functions that say what is
    taken. */
module ModelRecorder {
  import opened Text
  import opened ModelRecords

  lemma {:induction false} RunIs(lines: seq<string>, n: nat)
    requires n <= |lines| && forall i :: 0 <= i < n ==> IsItem(lines[i])
    requires n == |lines| || !IsItem(lines[n])
    ensures ItemRun(lines) == n
    decreases n
  {
    hide ParseItem;
    if n > 0 {
      RunIs(lines[1..], n - 1);
    }
  }

  /** The run of items from `i` on, and whether all have the indent of the first. */
  method ReadItems(lines: seq<string>, i: nat) returns (indent: string, items: seq<string>, even: bool)
    requires i <= |lines|
    ensures var n := ItemRun(lines[i..]);
            && even == EvenItems(lines[i..], n)
            && (even ==> |items| == n && Grid(indent, items) == GridOf(lines[i..], n))
  {
    hide ParseItem, ItemRun;
    var here := lines[i..];
    indent, items, even := "", [], true;
    var k: nat := 0;
    while k < |here|
      invariant k <= |here| && k == |items|
      invariant forall j :: 0 <= j < k ==> IsItem(here[j])
      invariant EvenItems(here, k) && Grid(indent, items) == GridOf(here, k)
      invariant k <= ItemRun(here)
    {
      var m := ParseItem(here[k]);
      if m == None {
        break;
      }
      RunReaches(here, k);
      if k == 0 {
        indent := m.value.0;
      } else if m.value.0 != indent {
        assert ItemAt(here[k]).0 != ItemAt(here[0]).0;
        return indent, items, false;
      }
      items := items + [m.value.1];
      k := k + 1;
    }
    RunIs(here, k);
  }

  lemma {:induction false} RunReaches(lines: seq<string>, k: nat)
    requires k < |lines| && forall i :: 0 <= i <= k ==> IsItem(lines[i])
    ensures k < ItemRun(lines)
    decreases k
  {
    hide ParseItem;
    if k > 0 {
      RunReaches(lines[1..], k - 1);
    }
  }

  lemma PrependTwice(out: seq<string>, grids: seq<Grid>, more: seq<string>, one: seq<Grid>, rest: Option<AbsentOut>)
    ensures Prepend(out, grids, Prepend(more, one, rest)) == Prepend(out + more, grids + one, rest)
  {
    if rest.Some? {
      assert out + (more + rest.value.out) == (out + more) + rest.value.out;
      assert grids + (one + rest.value.grids) == (grids + one) + rest.value.grids;
    }
  }

  lemma PlainGridStep(sid: string, lines: seq<string>, i: nat)
    requires i < |lines| && Trim(Py, lines[i]) != ABSENT_OPEN
    ensures TakeGrids(sid, lines[i..]) == Prepend([lines[i]], [], TakeGrids(sid, lines[i + 1..]))
  {
    hide Trim, ABSENT_OPEN, DIV_END;
    assert lines[i..][1..] == lines[i + 1..];
    var rest := TakeGrids(sid, lines[i + 1..]);
    if rest.Some? {
      assert [] + rest.value.grids == rest.value.grids;
    }
  }

  /** A grid whose items begin at `i + 1`. */
  lemma GridStep(sid: string, lines: seq<string>, i: nat)
    requires i < |lines| && Trim(Py, lines[i]) == ABSENT_OPEN
    ensures var n := ItemRun(lines[i + 1..]);
            TakeGrids(sid, lines[i..]) ==
            if !EvenItems(lines[i + 1..], n) || i + 1 + n == |lines| || Trim(Py, lines[i + 1 + n]) != DIV_END then None
            else Prepend([lines[i], AbsentMark(sid)], [GridOf(lines[i + 1..], n)], TakeGrids(sid, lines[i + 1 + n..]))
  {
    hide *;
    var n := ItemRun(lines[i + 1..]);
    SliceFacts(lines, i, i + 1, n);
    GridUnfold(sid, lines[i..], lines[i + 1..]);
  }

  lemma GridUnfold(sid: string, here: seq<string>, items: seq<string>)
    requires here != [] && Trim(Py, here[0]) == ABSENT_OPEN && items == here[1..]
    ensures var n := ItemRun(items);
            TakeGrids(sid, here) ==
            if !EvenItems(items, n) || n == |items| || Trim(Py, items[n]) != DIV_END then None
            else Prepend([here[0], AbsentMark(sid)], [GridOf(items, n)], TakeGrids(sid, items[n..]))
  {
    hide Trim, ItemRun, IsItem, EvenItems, GridOf, AbsentMark, ABSENT_OPEN, DIV_END, Prepend;
  }

  /** The program's `extract_absent`, on the lines of a section. */
  method ExtractAbsent(sid: string, lines: seq<string>) returns (r: Option<AbsentOut>)
    ensures r == TakeAbsent(sid, lines)
  {
    hide TakeGrids, Trim, ItemRun, EvenItems, GridOf, AbsentMark, ABSENT_OPEN, DIV_END;
    var out: seq<string>, items: seq<string>, indent, grids := [], [], "", 0;
    ghost var gs: seq<Grid> := [];
    var i: nat := 0;
    assert lines[0..] == lines;
    assert TakeGrids(sid, lines) == Prepend([], [], TakeGrids(sid, lines)) by { PrependNothing(TakeGrids(sid, lines)); }
    while i < |lines|
      invariant i <= |lines| && grids == |gs|
      invariant TakeGrids(sid, lines) == Prepend(out, gs, TakeGrids(sid, lines[i..]))
      invariant (items == [] <==> gs == []) && (|gs| == 1 ==> gs[0] == Grid(indent, items) && items != [])
    {
      var line := lines[i];
      ghost var before := out;
      out := out + [line];
      if Trim(Py, line) == ABSENT_OPEN {
        GridStep(sid, lines, i);
        grids := grids + 1;
        var found, more, even := ReadItems(lines, i + 1);
        if !even {
          return None;
        }
        items := items + more;
        indent := found;
        if items == [] {
          assert TakeGrids(sid, lines).Some? ==> TakeGrids(sid, lines).value.grids[0].items == [];
          return None;
        }
        i := i + 1 + |more|;
        if i == |lines| || Trim(Py, lines[i]) != DIV_END {
          return None;
        }
        PrependTwice(before, gs, [line, AbsentMark(sid)], [Grid(found, more)], TakeGrids(sid, lines[i..]));
        out := out + [AbsentMark(sid)];
        assert out == before + [line, AbsentMark(sid)];
        gs := gs + [Grid(found, more)];
      } else {
        PlainGridStep(sid, lines, i);
        PrependTwice(before, gs, [line], [], TakeGrids(sid, lines[i + 1..]));
        assert gs + [] == gs;
        i := i + 1;
      }
    }
    assert lines[i..] == [];
    AllTaken(sid, out, gs);
    if grids != 1 {
      return None;
    }
    assert gs == [Grid(indent, items)];
    return Some(AbsentOut(out, [Grid(indent, items)]));
  }

  lemma AllTaken(sid: string, out: seq<string>, gs: seq<Grid>)
    ensures Prepend(out, gs, TakeGrids(sid, [])) == Some(AbsentOut(out, gs))
  {
    assert out + [] == out && gs + [] == gs;
  }

  lemma PrependNothing(rest: Option<AbsentOut>)
    ensures Prepend([], [], rest) == rest
  {
    if rest.Some? {
      assert [] + rest.value.out == rest.value.out && [] + rest.value.grids == rest.value.grids;
    }
  }

  // ---- Invariant blocks

  lemma {:induction false} EntRunIs(lines: seq<string>, n: nat)
    requires n <= |lines| && forall i :: 0 <= i < n ==> IsEnt(lines[i])
    requires n == |lines| || !IsEnt(lines[n])
    ensures EntRun(lines) == n
    decreases n
  {
    hide ParseEnt;
    if n > 0 {
      EntRunIs(lines[1..], n - 1);
    }
  }

  lemma {:induction false} EntRunReaches(lines: seq<string>, k: nat)
    requires k < |lines| && forall i :: 0 <= i <= k ==> IsEnt(lines[i])
    ensures k < EntRun(lines)
    decreases k
  {
    hide ParseEnt;
    if k > 0 {
      EntRunReaches(lines[1..], k - 1);
    }
  }

  method ReadEnts(lines: seq<string>, i: nat) returns (indent: string, items: seq<Ent>, even: bool)
    requires i <= |lines|
    ensures var n := EntRun(lines[i..]);
            && even == EvenEnts(lines[i..], n)
            && (even ==> |items| == n && Block(indent, items) == BlockOf(lines[i..], n))
  {
    hide ParseEnt, EntRun;
    var here := lines[i..];
    indent, items, even := "", [], true;
    var k: nat := 0;
    while k < |here|
      invariant k <= |here| && k == |items|
      invariant forall j :: 0 <= j < k ==> IsEnt(here[j])
      invariant EvenEnts(here, k) && Block(indent, items) == BlockOf(here, k)
      invariant k <= EntRun(here)
    {
      var m := ParseEnt(here[k]);
      if m == None {
        break;
      }
      EntRunReaches(here, k);
      if k == 0 {
        indent := m.value.0;
      } else if m.value.0 != indent {
        assert EntAt(here[k]).0 != EntAt(here[0]).0;
        return indent, items, false;
      }
      items := items + [m.value.1];
      k := k + 1;
    }
    EntRunIs(here, k);
  }

  /** Copies lines through to the opener of the entries. */
  method CopyToEnts(lines: seq<string>, i: nat) returns (copied: Option<seq<string>>)
    requires i <= |lines|
    ensures match ToEnts(lines[i..])
            case None => copied == None
            case Some(m) => copied == Some(lines[i..i + m + 1])
  {
    hide Trim;
    var k := i;
    assert lines[i..k] == [];
    while k < |lines| && Trim(Py, lines[k]) != ENTS_OPEN
      invariant i <= k <= |lines|
      invariant ToEnts(lines[i..]) == match ToEnts(lines[k..]) case None => Option<nat>.None case Some(m) => Some(m + (k - i))
    {
      assert lines[k..][1..] == lines[k + 1..];
      if Trim(Py, lines[k]) == DIV_END {
        return None;
      }
      k := k + 1;
    }
    if k == |lines| {
      return None;
    }
    return Some(lines[i..k + 1]);
  }

  lemma PrependInvTwice(out: seq<string>, blocks: seq<Block>, more: seq<string>, one: seq<Block>, rest: Option<InvOut>)
    ensures PrependInv(out, blocks, PrependInv(more, one, rest)) == PrependInv(out + more, blocks + one, rest)
  {
    if rest.Some? {
      assert out + (more + rest.value.out) == (out + more) + rest.value.out;
      assert blocks + (one + rest.value.blocks) == (blocks + one) + rest.value.blocks;
    }
  }

  lemma PlainBlockStep(sid: string, lines: seq<string>, i: nat, k: nat)
    requires i < |lines| && Trim(Py, lines[i]) != INV_OPEN
    ensures TakeBlocks(sid, lines[i..], k) == PrependInv([lines[i]], [], TakeBlocks(sid, lines[i + 1..], k))
  {
    hide Trim;
    assert lines[i..][1..] == lines[i + 1..];
    var rest := TakeBlocks(sid, lines[i + 1..], k);
    if rest.Some? {
      assert [] + rest.value.blocks == rest.value.blocks;
    }
  }

  lemma NoEntsStep(sid: string, lines: seq<string>, i: nat, k: nat)
    requires i < |lines| && Trim(Py, lines[i]) == INV_OPEN && ToEnts(lines[i + 1..]) == None
    ensures TakeBlocks(sid, lines[i..], k) == None
  {
    hide Trim, ToEnts;
    assert lines[i..][1..] == lines[i + 1..];
  }

  /** A block whose entries would begin at `at`. */
  lemma BlockStep(sid: string, lines: seq<string>, i: nat, at: nat, k: nat)
    requires i < |lines| && Trim(Py, lines[i]) == INV_OPEN && i + 2 <= at <= |lines|
    requires ToEnts(lines[i + 1..]) == Some(at - i - 2)
    ensures var n := EntRun(lines[at..]);
            TakeBlocks(sid, lines[i..], k) ==
            if !EvenEnts(lines[at..], n) || n == 0 || at + n == |lines| || Trim(Py, lines[at + n]) != DIV_END then None
            else PrependInv(lines[i..at] + [InvMark(sid, k)], [BlockOf(lines[at..], n)], TakeBlocks(sid, lines[at + n..], k + 1))
  {
    hide *;
    var here, ents := lines[i..], lines[at..];
    SliceFacts(lines, i, at, EntRun(ents));
    BlockUnfold(sid, here, k, at - i - 2);
  }

  lemma SliceFacts(lines: seq<string>, i: nat, at: nat, n: nat)
    requires i < at <= |lines| && n <= |lines| - at
    ensures lines[i..][0] == lines[i] && lines[i..][1..] == lines[i + 1..] && lines[i..] != []
    ensures lines[i..][at - i..] == lines[at..] && lines[i..][..at - i] == lines[i..at]
    ensures lines[at..][n..] == lines[at + n..] && |lines[at..]| == |lines| - at
    ensures n < |lines| - at ==> lines[at..][n] == lines[at + n]
  {
  }

  lemma BlockUnfold(sid: string, here: seq<string>, k: nat, m: nat)
    requires here != [] && Trim(Py, here[0]) == INV_OPEN && ToEnts(here[1..]) == Some(m) && m + 2 <= |here|
    ensures var ents := here[m + 2..];
            var n := EntRun(ents);
            TakeBlocks(sid, here, k) ==
            if !EvenEnts(ents, n) || n == 0 || n == |ents| || Trim(Py, ents[n]) != DIV_END then None
            else PrependInv(here[..m + 2] + [InvMark(sid, k)], [BlockOf(ents, n)], TakeBlocks(sid, ents[n..], k + 1))
  {
    hide Trim, ToEnts, EntRun, IsEnt, EvenEnts, BlockOf, InvMark, INV_OPEN, DIV_END, PrependInv;
  }

  lemma NoBlocksLeft(sid: string, out: seq<string>, blocks: seq<Block>, k: nat)
    ensures PrependInv(out, blocks, TakeBlocks(sid, [], k)) == Some(InvOut(out, blocks))
  {
    assert out + [] == out && blocks + [] == blocks;
  }

  /** The program's `extract_invariants`, on the lines of a section. */
  method ExtractInvariants(sid: string, lines: seq<string>) returns (r: Option<InvOut>)
    ensures r == TakeInvariants(sid, lines)
  {
    hide TakeBlocks, Trim, ToEnts, EntRun, EvenEnts, BlockOf, InvMark, INV_OPEN, DIV_END;
    var out: seq<string>, blocks: seq<Block> := [], [];
    var i: nat := 0;
    assert lines[0..] == lines;
    PrependNoBlocks(TakeBlocks(sid, lines, 0));
    while i < |lines|
      invariant i <= |lines|
      invariant TakeBlocks(sid, lines, 0) == PrependInv(out, blocks, TakeBlocks(sid, lines[i..], |blocks|))
    {
      var line := lines[i];
      ghost var before := out;
      out := out + [line];
      if Trim(Py, line) == INV_OPEN {
        var copied := CopyToEnts(lines, i + 1);
        if copied == None {
          NoEntsStep(sid, lines, i, |blocks|);
          return None;
        }
        out := out + copied.value;
        var at := i + 1 + |copied.value|;
        BlockStep(sid, lines, i, at, |blocks|);
        var indent, items, even := ReadEnts(lines, at);
        if !even || items == [] {
          return None;
        }
        ghost var copiedTo := lines[i..at];
        i := at + |items|;
        if i == |lines| || Trim(Py, lines[i]) != DIV_END {
          return None;
        }
        PrependInvTwice(before, blocks, copiedTo + [InvMark(sid, |blocks|)], [Block(indent, items)],
                        TakeBlocks(sid, lines[i..], |blocks| + 1));
        out := out + [InvMark(sid, |blocks|)];
        assert out == before + (copiedTo + [InvMark(sid, |blocks|)]);
        blocks := blocks + [Block(indent, items)];
      } else {
        PlainBlockStep(sid, lines, i, |blocks|);
        PrependInvTwice(before, blocks, [line], [], TakeBlocks(sid, lines[i + 1..], |blocks|));
        assert blocks + [] == blocks;
        i := i + 1;
      }
    }
    assert lines[i..] == [];
    NoBlocksLeft(sid, out, blocks, |blocks|);
    if blocks == [] {
      return None;
    }
    return Some(InvOut(out, blocks));
  }

  lemma PrependNoBlocks(rest: Option<InvOut>)
    ensures PrependInv([], [], rest) == rest
  {
    if rest.Some? {
      assert [] + rest.value.out == rest.value.out && [] + rest.value.blocks == rest.value.blocks;
    }
  }
}
