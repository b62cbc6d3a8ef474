/** The reference scanner that the masker is compared with: the same constructs, written separately,
    collecting a set of positions. */
module TraceReference {
  import opened Text
  import opened TraceMask

  /** The positions of the characters that the strings-and-comments pass masks. */
  function Positions(text: string): set<nat> {
    set i: nat | i < |text| && Scan(text, Plain)[i]
  }

  /** The positions of a stretch, line feeds left out. */
  function Stretch(text: string, i: nat, j: nat): set<nat>
    requires j <= |text|
  {
    set k: nat | i <= k < j && text[k] != '\n'
  }

  method CollectLine(text: string, start: nat) returns (found: set<nat>, i: nat)
    requires start <= |text|
    ensures i == start + LineLength(text[start..]) && found == Stretch(text, start, i)
  {
    found, i := {}, start;
    while i < |text| && text[i] != '\n'
      invariant start <= i <= |text|
      invariant LineLength(text[start..]) == i - start + LineLength(text[i..])
      invariant found == Stretch(text, start, i)
    {
      assert text[i..][0] == text[i] && text[i..][1..] == text[i + 1..];
      found := found + {i};
      i := i + 1;
    }
  }

  method CollectBlock(text: string, start: nat) returns (found: set<nat>, i: nat)
    requires start <= |text| && "/*" <= text[start..]
    ensures i == start + BlockLength(text[start..]) && found == Stretch(text, start, i)
  {
    hide CloserLength;
    assert text[start..][0] == text[start] == '/' && text[start..][1] == text[start + 1] == '*';
    found := {start, start + 1};
    i := start + 2;
    assert text[start..][2..] == text[i..];
    while i < |text| && !("*/" <= text[i..])
      invariant start + 2 <= i <= |text|
      invariant CloserLength(text[start + 2..]) == i - start - 2 + CloserLength(text[i..])
      invariant found == Stretch(text, start, i)
    {
      CloserStep(text, i);
      if text[i] != '\n' {
        found := found + {i};
      }
      i := i + 1;
    }
    CloserStep(text, i);
    ghost var at := i;
    assert at < |text| ==> text[at..][0] == text[at] == '*' && text[at..][1] == text[at + 1] == '/';
    for k := 0 to 2
      invariant i == if at < |text| then at + k else at
      invariant i <= |text| && found == Stretch(text, start, i)
    {
      if i < |text| {
        found := found + {i};
        i := i + 1;
      }
    }
  }

  method CollectString(text: string, start: nat) returns (found: set<nat>, i: nat)
    requires start < |text| && IsQuote(text[start])
    ensures i <= |text| + 1 && (if i > |text| then |text| else i) == start + StringLength(text[start..])
    ensures found == Stretch(text, start, start + StringLength(text[start..]))
  {
    hide BodyLength;
    var quote := text[start];
    found := {start};
    i := start + 1;
    assert text[start..][1..] == text[i..];
    while i < |text|
      invariant start + 1 <= i <= |text| + 1
      invariant i <= |text| ==> BodyLength(text[start + 1..], quote) == i - start - 1 + BodyLength(text[i..], quote)
      invariant i > |text| ==> BodyLength(text[start + 1..], quote) == |text| - start - 1
      invariant found == Stretch(text, start, if i > |text| then |text| else i)
    {
      BodyStep(text, i, quote);
      if text[i] == '\\' {
        found := found + {i};
        if i + 1 < |text| && text[i + 1] != '\n' {
          found := found + {i + 1};
        }
        i := i + 2;
        continue;
      }
      if text[i] == quote {
        found := found + {i};
        i := i + 1;
        return;
      }
      if text[i] == '\n' {
        if quote != '`' {
          return;
        }
        i := i + 1;
        continue;
      }
      found := found + {i};
      i := i + 1;
    }
    if i == |text| {
      BodyStep(text, i, quote);
    }
  }

  /** The positions collected so far, and the rest of the scan. */
  ghost predicate CollectedTo(text: string, found: set<nat>, i: nat) {
    && i <= |text|
    && (forall k: nat :: k in found ==> k < i)
    && (forall k: nat :: k < i ==> (k in found <==> Scan(text, Plain)[k]))
    && forall k: nat :: i <= k < |text| ==> Scan(text, Plain)[k] == Scan(text[i..], Plain)[k - i]
  }

  lemma CollectedMore(text: string, found: set<nat>, i: nat, more: set<nat>)
    requires CollectedTo(text, found, i) && i < |text|
    requires var x := Next(text[i..], Plain);
             i + x.length <= |text| && more == if x.nonCode then Stretch(text, i, i + x.length) else {}
    ensures CollectedTo(text, found + more, i + Next(text[i..], Plain).length)
  {
    hide Next, Scan;
    var n := Next(text[i..], Plain).length;
    ScanStep(text, i, Plain);
    forall k: nat | i <= k < i + n ensures k in more <==> Scan(text, Plain)[k] {
      assert Scan(text, Plain)[k] == Scan(text[i..], Plain)[k - i];
    }
    forall k: nat | i + n <= k < |text| ensures Scan(text, Plain)[k] == Scan(text[i + n..], Plain)[k - i - n] {
      assert Scan(text, Plain)[k] == Scan(text[i..], Plain)[k - i];
    }
  }

  method CollectNext(text: string, start: nat) returns (found: set<nat>, i: nat)
    requires start < |text|
    ensures var x := Next(text[start..], Plain);
            && start + x.length <= |text|
            && i <= |text| + 1 && (if i > |text| then |text| else i) == start + x.length
            && found == if x.nonCode then Stretch(text, start, start + x.length) else {}
  {
    hide LineLength, BlockLength, StringLength;
    assert text[start..][0] == text[start];
    if "//" <= text[start..] {
      found, i := CollectLine(text, start);
    } else if "/*" <= text[start..] {
      found, i := CollectBlock(text, start);
    } else if IsQuote(text[start]) {
      found, i := CollectString(text, start);
    } else {
      found, i := {}, start + 1;
    }
  }

  /** For every text the reference collects exactly what the plain pass masks. */
  method ReferenceNonCodePositions(text: string) returns (found: set<nat>)
    ensures found == Positions(text)
  {
    hide Next, Scan;
    found := {};
    var i: nat := 0;
    assert text[0..] == text;
    while i < |text|
      invariant i <= |text| + 1
      invariant CollectedTo(text, found, if i > |text| then |text| else i)
    {
      ghost var start := i;
      var more, next := CollectNext(text, i);
      CollectedMore(text, found, start, more);
      found := found + more;
      i := next;
    }
  }

  /** The masked text hides every reference position. */
  lemma ReferenceIsMasked(text: string, letters: Letters, i: nat)
    requires i in Positions(text)
    ensures Masked(text, letters)[i] == FILLER && text[i] != '\n'
  {
    hide Scan, Masked;
    MaskIsMonotone(text, letters, i);
    if text[i] == '\n' {
      FeedsStay(text, Plain, i);
    }
  }
}
