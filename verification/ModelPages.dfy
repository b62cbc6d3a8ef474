/** Where a document is cut, stated over the places at which tags stand. */
module ModelPages {
  import opened Text
  import opened ModelMarkers
  import opened ModelSections

  function TagText(id: string): string { SECTION_OPEN + id + "\">" }

  /** A section tag with this id stands here. */
  predicate TagAt(s: string, i: nat, id: string) {
    i <= |s| && id != "" && '"' !in id && TagText(id) <= s[i..]
  }

  /** The tags that begin a section: in order and apart, each but `how`, and no other such tag begins
      anywhere, unless inside one of these. */
  ghost predicate LevelTags(s: string, tags: seq<Tag>) {
    && (forall k :: 0 <= k < |tags| ==> tags[k].id != INTRO && TagAt(s, tags[k].at, tags[k].id))
    && Apart(tags)
    && forall i: nat, id: string :: TagAt(s, i, id) && id != INTRO ==> Covered(tags, i)
  }

  predicate Apart(tags: seq<Tag>) {
    forall k, m :: 0 <= k < m < |tags| ==> tags[k].at + |TagText(tags[k].id)| <= tags[m].at
  }

  predicate Covers(t: Tag, i: nat) { t.at <= i < t.at + |TagText(t.id)| }

  ghost predicate Covered(tags: seq<Tag>, i: nat) {
    exists k :: 0 <= k < |tags| && Covers(tags[k], i)
  }

  /** The last end tag of the document stands here. */
  predicate LastEndAt(s: string, close: nat) {
    OccursAt(s, SECTION_END, close) && forall j: nat :: close < j <= |s| ==> !OccursAt(s, SECTION_END, j)
  }

  function Stop(tags: seq<Tag>, k: nat, end: nat): nat
    requires k < |tags|
  {
    if k + 1 < |tags| then tags[k + 1].at else end
  }

  /** Every section from its own tag to the next one's, the last one past the document's last end tag. */
  ghost predicate CutAt(s: string, p: Split, tags: seq<Tag>, close: nat) {
    && LevelTags(s, tags) && tags != [] && tags[|tags| - 1].at <= close && LastEndAt(s, close)
    && var end := close + |SECTION_END|;
       && end <= |s| && (forall k :: 0 <= k < |tags| ==> tags[k].at <= Stop(tags, k, end) <= |s|)
       && p.prelude == s[..tags[0].at] && p.postlude == s[end..]
       && |p.chunks| == |tags|
       && forall k :: 0 <= k < |tags| ==> p.chunks[k] == Chunk(tags[k].id, s[tags[k].at..Stop(tags, k, end)])
  }

  // ---- The scanner finds the tags

  lemma UpToStops(u: string, rest: string, stop: char)
    requires stop !in u && rest != "" && rest[0] == stop
    ensures UpTo(u + rest, stop) == u
  {
    if u == "" {
      assert u + rest == rest;
    } else {
      assert (u + rest)[1..] == u[1..] + rest;
      UpToStops(u[1..], rest, stop);
    }
  }

  lemma SectionAtMeans(s: string, i: nat, id: string)
    requires i <= |s|
    ensures SectionAt(s, i) == Some(id) <==> TagAt(s, i, id)
  {
    if TagAt(s, i, id) {
      TagIsRead(s, i, id);
    }
    if SectionAt(s, i) == Some(id) {
      ReadIsTag(s, i, id);
    }
  }

  lemma TagIsRead(s: string, i: nat, id: string)
    requires TagAt(s, i, id)
    ensures SectionAt(s, i) == Some(id)
  {
    hide UpTo;
    var t := s[i..];
    var rest := "\">" + t[|TagText(id)|..];
    assert t == SECTION_OPEN + (id + rest);
    assert t[|SECTION_OPEN|..] == id + rest;
    UpToStops(id, rest, '"');
    assert (id + rest)[|id|..] == rest;
  }

  lemma ReadIsTag(s: string, i: nat, id: string)
    requires i <= |s| && SectionAt(s, i) == Some(id)
    ensures TagAt(s, i, id)
  {
    hide UpTo;
    var t := s[i..];
    var after := t[|SECTION_OPEN|..];
    var rest := after[|id|..];
    assert after == id + rest && rest == "\">" + rest[2..];
    assert t == SECTION_OPEN + (id + ("\">" + rest[2..]));
    assert t == TagText(id) + rest[2..];
  }

  lemma TagIsOne(s: string, i: nat, a: string, b: string)
    requires TagAt(s, i, a) && TagAt(s, i, b)
    ensures a == b
  {
    SectionAtMeans(s, i, a);
    SectionAtMeans(s, i, b);
  }

  /** The tags found from a place on are in order and apart, and every tag begins inside one of them. */
  ghost predicate Found(s: string, from: nat, tags: seq<Tag>) {
    && (forall k :: 0 <= k < |tags| ==> from <= tags[k].at && TagAt(s, tags[k].at, tags[k].id))
    && Apart(tags)
    && forall i: nat, id: string :: from <= i && TagAt(s, i, id) ==> Covered(tags, i)
  }

  lemma {:induction false} StartsAreFound(s: string, from: nat)
    requires from <= |s|
    ensures Found(s, from, SectionStarts(s, from))
    decreases |s| - from
  {
    hide SectionAt, TagAt, TagText;
    match SectionAt(s, from)
    case Some(id) =>
      SectionAtMeans(s, from, id);
      TagLength(id);
      StartsAreFound(s, from + |TagText(id)|);
      FoundNext(s, from, id, SectionStarts(s, from + |TagText(id)|));
    case None =>
      forall id: string ensures !TagAt(s, from, id) {
        SectionAtMeans(s, from, id);
      }
      if from < |s| {
        StartsAreFound(s, from + 1);
        FoundLater(s, from, SectionStarts(s, from + 1));
      } else {
        NothingPast(s);
      }
  }

  lemma TagLength(id: string)
    ensures |TagText(id)| == |SECTION_OPEN| + |id| + 2
  {
  }

  lemma NothingPast(s: string)
    requires forall id: string :: !TagAt(s, |s|, id)
    ensures Found(s, |s|, [])
  {
  }

  lemma FoundLater(s: string, from: nat, tags: seq<Tag>)
    requires Found(s, from + 1, tags) && forall id: string :: !TagAt(s, from, id)
    ensures Found(s, from, tags)
  {
    hide TagAt, Covered;
  }

  lemma ApartCons(t: Tag, rest: seq<Tag>)
    requires Apart(rest) && forall k :: 0 <= k < |rest| ==> t.at + |TagText(t.id)| <= rest[k].at
    ensures Apart([t] + rest)
  {
    hide TagText;
    var tags := [t] + rest;
    forall k, m | 0 <= k < m < |tags| ensures tags[k].at + |TagText(tags[k].id)| <= tags[m].at {
      assert tags[m] == rest[m - 1];
      assert k > 0 ==> tags[k] == rest[k - 1];
    }
  }

  lemma CoveredCons(t: Tag, rest: seq<Tag>, i: nat)
    requires Covers(t, i) || Covered(rest, i)
    ensures Covered([t] + rest, i)
  {
    hide Covers;
    var tags := [t] + rest;
    if Covers(t, i) {
      assert tags[0] == t;
    } else {
      var k :| 0 <= k < |rest| && Covers(rest[k], i);
      assert tags[k + 1] == rest[k];
    }
  }

  lemma FoundNext(s: string, from: nat, id: string, rest: seq<Tag>)
    requires TagAt(s, from, id) && Found(s, from + |TagText(id)|, rest)
    ensures Found(s, from, [Tag(from, id)] + rest)
  {
    hide TagAt, TagText, Covered, Apart;
    var t := Tag(from, id);
    ApartCons(t, rest);
    forall i: nat, x: string | from <= i && TagAt(s, i, x) ensures Covered([t] + rest, i) {
      CoveredCons(t, rest, i);
    }
  }

  // ---- Leaving out `how`

  /** Inside the tag of `how` no tag begins. */
  lemma IntroHoldsNoTag(s: string, at: nat, i: nat, id: string)
    requires TagAt(s, at, INTRO) && TagAt(s, i, id) && Covers(Tag(at, INTRO), i)
    ensures i == at
  {
    var intro := TagText(INTRO);
    assert s[at..][i - at] == intro[i - at];
    assert s[i..][0] == '<';
    assert s[i] == intro[i - at];
  }

  lemma {:induction false} LevelsKeep(tags: seq<Tag>, x: Tag)
    ensures x in Levels(tags) <==> x in tags && x.id != INTRO
  {
    if tags != [] {
      assert tags == [tags[0]] + tags[1..];
      LevelsKeep(tags[1..], x);
    }
  }

  lemma {:induction false} LevelsApart(tags: seq<Tag>)
    requires Apart(tags)
    ensures Apart(Levels(tags))
  {
    hide Apart, TagText;
    if tags != [] {
      var rest := Levels(tags[1..]);
      ApartTail(tags);
      LevelsApart(tags[1..]);
      forall k | 0 <= k < |rest| ensures tags[0].at + |TagText(tags[0].id)| <= rest[k].at {
        assert rest[k] in tags[1..];
      }
      ApartCons(tags[0], rest);
      assert [] + rest == rest;
    }
  }

  lemma ApartTail(tags: seq<Tag>)
    requires Apart(tags) && tags != []
    ensures Apart(tags[1..]) && forall x :: x in tags[1..] ==> tags[0].at + |TagText(tags[0].id)| <= x.at
  {
    hide TagText;
    forall k, m | 0 <= k < m < |tags[1..]| ensures tags[1..][k].at + |TagText(tags[1..][k].id)| <= tags[1..][m].at {
      assert tags[1..][k] == tags[k + 1] && tags[1..][m] == tags[m + 1];
    }
  }

  lemma LevelsAreTags(s: string)
    ensures LevelTags(s, Levels(SectionStarts(s, 0)))
  {
    hide TagAt, SectionStarts, Levels, Covered, Apart, Found;
    var found := SectionStarts(s, 0);
    StartsAreFound(s, 0);
    FoundMeans(s, found);
    LevelsApart(found);
    LevelsStand(s, found);
    forall i: nat, id: string | TagAt(s, i, id) && id != INTRO ensures Covered(Levels(found), i) {
      LevelsCover(s, found, i, id);
    }
  }

  lemma FoundMeans(s: string, found: seq<Tag>)
    requires Found(s, 0, found)
    ensures forall k :: 0 <= k < |found| ==> TagAt(s, found[k].at, found[k].id)
    ensures Apart(found) && forall i: nat, id: string :: TagAt(s, i, id) ==> Covered(found, i)
  {
    hide TagAt, Apart, Covered;
  }

  lemma LevelsStand(s: string, found: seq<Tag>)
    requires forall k :: 0 <= k < |found| ==> TagAt(s, found[k].at, found[k].id)
    ensures forall k :: 0 <= k < |Levels(found)| ==>
              Levels(found)[k].id != INTRO && TagAt(s, Levels(found)[k].at, Levels(found)[k].id)
  {
    hide TagAt, Levels;
    var tags := Levels(found);
    forall k | 0 <= k < |tags| ensures tags[k].id != INTRO && TagAt(s, tags[k].at, tags[k].id) {
      assert tags[k] in tags;
      LevelsKeep(found, tags[k]);
    }
  }

  lemma LevelsCover(s: string, found: seq<Tag>, i: nat, id: string)
    requires forall k :: 0 <= k < |found| ==> TagAt(s, found[k].at, found[k].id)
    requires TagAt(s, i, id) && id != INTRO && Covered(found, i)
    ensures Covered(Levels(found), i)
  {
    hide TagAt, Levels, Covers;
    var k :| 0 <= k < |found| && Covers(found[k], i);
    if found[k].id == INTRO {
      IntroCoversNone(s, found[k], i, id);
    }
    LevelsKeep(found, found[k]);
  }

  lemma IntroCoversNone(s: string, t: Tag, i: nat, id: string)
    requires TagAt(s, t.at, t.id) && t.id == INTRO && TagAt(s, i, id) && Covers(t, i)
    ensures id == INTRO
  {
    hide TagAt, Covers;
    IntroHoldsNoTag(s, t.at, i, id);
    TagIsOne(s, i, id, INTRO);
  }

  // ---- The tags are determined by the text

  lemma NotBefore(s: string, a: seq<Tag>, b: seq<Tag>, k: nat)
    requires LevelTags(s, a) && LevelTags(s, b) && k < |a| && k <= |b| && a[..k] == b[..k]
    ensures k < |b| && b[k].at <= a[k].at
  {
    hide *;
    LevelIsApart(s, a);
    LevelIsApart(s, b);
    LevelStands(s, a, k);
    LevelIsCovered(s, b, a[k].at, a[k].id);
    var j := CoveringTag(b, a[k].at);
    if j < k {
      CommonEndsBefore(a, b, j, k);
    } else {
      LaterStartsLater(b, k, j);
      CoverStarts(b[j], a[k].at);
    }
  }

  lemma CoverStarts(t: Tag, i: nat)
    requires Covers(t, i)
    ensures t.at <= i
  {
  }

  lemma LevelIsApart(s: string, tags: seq<Tag>)
    requires LevelTags(s, tags)
    ensures Apart(tags)
  {
    hide TagAt, Covered, Apart;
  }

  lemma LevelStands(s: string, tags: seq<Tag>, k: nat)
    requires LevelTags(s, tags) && k < |tags|
    ensures TagAt(s, tags[k].at, tags[k].id) && tags[k].id != INTRO
  {
    hide TagAt, Covered, Apart;
  }

  lemma CommonEndsBefore(a: seq<Tag>, b: seq<Tag>, j: nat, k: nat)
    requires Apart(a) && j < k < |a| && k <= |b| && a[..k] == b[..k]
    ensures !Covers(b[j], a[k].at)
  {
    hide TagText;
    assert a[..k][j] == b[..k][j];
  }

  lemma LaterStartsLater(b: seq<Tag>, k: nat, j: nat)
    requires Apart(b) && k <= j < |b|
    ensures b[k].at <= b[j].at
  {
    hide TagText;
  }

  lemma {:induction false} SameTags(s: string, a: seq<Tag>, b: seq<Tag>, k: nat)
    requires LevelTags(s, a) && LevelTags(s, b) && k <= |a| && k <= |b| && a[..k] == b[..k]
    ensures a == b
    decreases |a| - k
  {
    hide *;
    if k < |a| {
      NotBefore(s, a, b, k);
      NotBefore(s, b, a, k);
      LevelStands(s, a, k);
      LevelStands(s, b, k);
      TagIsOne(s, a[k].at, a[k].id, b[k].id);
      assert a[..k + 1] == a[..k] + [a[k]] && b[..k + 1] == b[..k] + [b[k]];
      SameTags(s, a, b, k + 1);
    } else {
      if k < |b| {
        NotBefore(s, b, a, k);
      }
      assert a == a[..k] && b == b[..k];
    }
  }

  // ---- The cut

  lemma {:induction false} FindLastMeans(s: string, p: string, n: nat)
    requires n <= |s|
    ensures FindLast(s, p, n).None? ==> forall j :: 0 <= j <= n ==> !OccursAt(s, p, j)
    ensures FindLast(s, p, n).Some? ==> OccursAt(s, p, FindLast(s, p, n).value)
    ensures FindLast(s, p, n).Some? ==> forall j :: FindLast(s, p, n).value < j <= n ==> !OccursAt(s, p, j)
  {
    if !(p <= s[n..]) && n > 0 {
      FindLastMeans(s, p, n - 1);
    }
  }

  lemma LastEndIsFound(s: string, close: nat)
    ensures LastEndAt(s, close) <==> FindLast(s, SECTION_END, |s|) == Some(close)
  {
    FindLastMeans(s, SECTION_END, |s|);
    hide OccursAt, FindLast;
    if LastEndAt(s, close) {
      LastEndFits(s, close);
    }
  }

  lemma LastEndFits(s: string, close: nat)
    requires LastEndAt(s, close)
    ensures close + |SECTION_END| <= |s|
  {
  }

  lemma {:induction false} ChunkIs(s: string, levels: seq<Tag>, k: nat, m: nat, end: nat)
    requires Ascending(s, levels) && k <= m < |levels| && levels[|levels| - 1].at <= end <= |s|
    ensures |ChunksFrom(s, levels, k, end)| == |levels| - k
    ensures ChunksFrom(s, levels, k, end)[m - k] == Chunk(levels[m].id, s[levels[m].at..Stop(levels, m, end)])
    decreases m - k, |levels| - k
  {
    if k < m {
      ChunkIs(s, levels, k + 1, m, end);
    } else if k + 1 < |levels| {
      ChunkCount(s, levels, k, end);
    }
  }

  lemma {:induction false} ChunkCount(s: string, levels: seq<Tag>, k: nat, end: nat)
    requires Ascending(s, levels) && k <= |levels| && end <= |s| && (levels != [] ==> levels[|levels| - 1].at <= end)
    ensures |ChunksFrom(s, levels, k, end)| == |levels| - k
    decreases |levels| - k
  {
    if k < |levels| {
      ChunkCount(s, levels, k + 1, end);
    }
  }

  lemma ChunksAre(s: string, levels: seq<Tag>, end: nat)
    requires Ascending(s, levels) && levels != [] && levels[|levels| - 1].at <= end <= |s|
    ensures |ChunksFrom(s, levels, 0, end)| == |levels|
    ensures forall m :: 0 <= m < |levels| ==>
              ChunksFrom(s, levels, 0, end)[m] == Chunk(levels[m].id, s[levels[m].at..Stop(levels, m, end)])
  {
    hide ChunksFrom;
    ChunkCount(s, levels, 0, end);
    forall m | 0 <= m < |levels|
      ensures ChunksFrom(s, levels, 0, end)[m] == Chunk(levels[m].id, s[levels[m].at..Stop(levels, m, end)])
    {
      ChunkIs(s, levels, 0, m, end);
    }
  }

  /** The split, opened up. */
  lemma SplitParts(s: string, p: Split, tags: seq<Tag>, close: nat)
    requires SplitAt(s) == Some(p) && FindLast(s, SECTION_END, |s|) == Some(close) && tags == Levels(SectionStarts(s, 0))
    ensures tags != [] && Ascending(s, tags) && tags[|tags| - 1].at <= close && close + |SECTION_END| <= |s|
    ensures p == Split(s[..tags[0].at], ChunksFrom(s, tags, 0, close + |SECTION_END|), s[close + |SECTION_END|..])
  {
    hide SectionStarts, Levels, FindLast, ChunksFrom, Ascending;
    LevelsAscend(s, SectionStarts(s, 0));
  }

  lemma SplitIsCut(s: string, p: Split, close: nat)
    requires SplitAt(s) == Some(p) && FindLast(s, SECTION_END, |s|) == Some(close)
    ensures CutAt(s, p, Levels(SectionStarts(s, 0)), close)
  {
    hide SectionStarts, Levels, FindLast, ChunksFrom, LevelTags, LastEndAt, SplitAt;
    var tags := Levels(SectionStarts(s, 0));
    SplitParts(s, p, tags, close);
    LevelsAreTags(s);
    LastEndIsFound(s, close);
    ChunksAre(s, tags, close + |SECTION_END|);
  }

  lemma SameCut(s: string, p: Split, q: Split, tags: seq<Tag>, close: nat)
    requires CutAt(s, p, tags, close) && CutAt(s, q, tags, close)
    ensures p == q
  {
    hide LevelTags, LastEndAt;
    assert p.chunks == q.chunks;
  }

  lemma CutSplits(s: string, p: Split, tags: seq<Tag>, close: nat)
    requires CutAt(s, p, tags, close)
    ensures SplitAt(s) == Some(p)
  {
    hide SectionStarts, Levels, FindLast, ChunksFrom, LevelTags, LastEndAt, CutAt;
    CutTags(s, p, tags, close);
    LevelsAreTags(s);
    SameTags(s, tags, Levels(SectionStarts(s, 0)), 0);
    LastEndIsFound(s, close);
    LevelsAscend(s, SectionStarts(s, 0));
    var q := SplitAt(s).value;
    SplitIsCut(s, q, close);
    SameCut(s, p, q, tags, close);
  }

  lemma CutTags(s: string, p: Split, tags: seq<Tag>, close: nat)
    requires CutAt(s, p, tags, close)
    ensures LevelTags(s, tags) && tags != [] && tags[|tags| - 1].at <= close && LastEndAt(s, close)
  {
    hide LevelTags, LastEndAt;
  }

  /** The document is split exactly as its tags say; it is refused exactly when they allow no cut. */
  lemma SplitMeans(s: string, p: Split)
    ensures SplitAt(s) == Some(p) <==> exists tags, close: nat :: CutAt(s, p, tags, close)
  {
    hide CutAt;
    if SplitAt(s) == Some(p) {
      var close := FindLast(s, SECTION_END, |s|).value;
      SplitIsCut(s, p, close);
    }
    if tags, close: nat :| CutAt(s, p, tags, close) {
      CutSplits(s, p, tags, close);
    }
  }

  /** Splitting is refused exactly when no section tag other than `how` stands anywhere, or the last of
      them stands after the last end tag. */
  lemma SplitDies(s: string)
    ensures SplitAt(s) == None <==>
            (forall i: nat, id: string :: TagAt(s, i, id) ==> id == INTRO) ||
            exists tags: seq<Tag> :: LevelTags(s, tags) && tags != [] && forall c: nat :: LastEndAt(s, c) ==> c < tags[|tags| - 1].at
  {
    hide SectionStarts, Levels, FindLast, ChunksFrom, LevelTags, LastEndAt, TagAt;
    var tags := Levels(SectionStarts(s, 0));
    LevelsAreTags(s);
    NoLevels(s, tags);
    LevelsAscend(s, SectionStarts(s, 0));
    forall c: nat ensures LastEndAt(s, c) <==> FindLast(s, SECTION_END, |s|) == Some(c) {
      LastEndIsFound(s, c);
    }
    forall other: seq<Tag> | LevelTags(s, other) ensures other == tags {
      SameTags(s, other, tags, 0);
    }
  }

  lemma NoLevels(s: string, tags: seq<Tag>)
    requires LevelTags(s, tags)
    ensures tags == [] <==> forall i: nat, id: string :: TagAt(s, i, id) ==> id == INTRO
  {
    hide TagAt;
    if tags != [] {
      assert TagAt(s, tags[0].at, tags[0].id);
    }
  }

  // ---- What the cut says of its parts

  /** The ids of the chunks are the tags' ids in order, and each chunk begins where its tag stands. */
  lemma ChunksBeginAtTags(s: string, p: Split, tags: seq<Tag>, close: nat, k: nat)
    requires CutAt(s, p, tags, close) && k < |p.chunks|
    ensures |tags| == |p.chunks| && p.chunks[k].id == tags[k].id != INTRO
    ensures k + 1 < |tags| ==> TagText(p.chunks[k].id) <= p.chunks[k].text
    ensures TagText(p.chunks[k].id) <= s[tags[k].at..]
  {
    hide LastEndAt, TagText;
    assert TagAt(s, tags[k].at, tags[k].id);
    if k + 1 < |tags| {
      assert TagAt(s, tags[k + 1].at, tags[k + 1].id);
      CutShort(s, tags[k].at, tags[k + 1].at, TagText(tags[k].id));
    }
  }

  lemma CutShort(s: string, from: nat, to: nat, u: string)
    requires from <= |s| && u <= s[from..] && from + |u| <= to <= |s|
    ensures u <= s[from..to]
  {
    assert s[from..][..|u|] == s[from..to][..|u|];
  }

  /** No section tag other than `how` begins in the prelude. */
  lemma PreludeHoldsNoTag(s: string, p: Split, tags: seq<Tag>, close: nat, i: nat, id: string)
    requires CutAt(s, p, tags, close) && i < |p.prelude| && TagAt(s, i, id)
    ensures id == INTRO
  {
    hide *;
    PreludeEnds(s, p, tags, close);
    if id != INTRO {
      LevelIsCovered(s, tags, i, id);
      var k := CoveringTag(tags, i);
      FirstIsFirst(tags, k, i);
    }
  }

  lemma PreludeEnds(s: string, p: Split, tags: seq<Tag>, close: nat)
    requires CutAt(s, p, tags, close)
    ensures tags != [] && LevelTags(s, tags) && |p.prelude| == tags[0].at && Apart(tags)
  {
    hide LastEndAt, TagText, Covered;
    assert TagAt(s, tags[0].at, tags[0].id);
  }

  lemma LevelIsCovered(s: string, tags: seq<Tag>, i: nat, id: string)
    requires LevelTags(s, tags) && TagAt(s, i, id) && id != INTRO
    ensures Covered(tags, i)
  {
    hide TagAt, Covered;
  }

  lemma CoveringTag(tags: seq<Tag>, i: nat) returns (k: nat)
    requires Covered(tags, i)
    ensures k < |tags| && Covers(tags[k], i)
  {
    hide Covers;
    k :| 0 <= k < |tags| && Covers(tags[k], i);
  }

  lemma FirstIsFirst(tags: seq<Tag>, k: nat, i: nat)
    requires Apart(tags) && k < |tags| && Covers(tags[k], i)
    ensures tags[0].at <= i
  {
    hide TagText;
  }
}
