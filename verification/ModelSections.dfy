/** Cutting the document at its section tags. */
module ModelSections {
  import opened Text
  import opened UnitSegments
  import opened ModelMarkers

  const SECTION_OPEN := "<section id=\""
  const SECTION_END := "</section>"
  const INTRO := "how"

  datatype Tag = Tag(at: nat, id: string)
  datatype Chunk = Chunk(id: string, text: string)
  datatype Split = Split(prelude: string, chunks: seq<Chunk>, postlude: string)

  /** The id of a section tag that stands here. */
  function SectionAt(s: string, i: nat): (r: Option<string>)
    requires i <= |s|
    ensures r.Some? ==> i + |SECTION_OPEN| + |r.value| + 2 <= |s|
  {
    if !(SECTION_OPEN <= s[i..]) then None
    else
      var after := s[i..][|SECTION_OPEN|..];
      var id := UpTo(after, '"');
      if id != "" && "\">" <= after[|id|..] then Some(id) else None
  }

  /** Tags are found left to right without overlapping. */
  function SectionStarts(s: string, from: nat): (starts: seq<Tag>)
    requires from <= |s|
    ensures forall k :: 0 <= k < |starts| ==> from <= starts[k].at < |s|
    ensures forall k, m :: 0 <= k < m < |starts| ==> starts[k].at < starts[m].at
    decreases |s| - from
  {
    hide SectionAt;
    match SectionAt(s, from)
    case Some(id) => [Tag(from, id)] + SectionStarts(s, from + |SECTION_OPEN| + |id| + 2)
    case None => if from == |s| then [] else SectionStarts(s, from + 1)
  }

  function Levels(starts: seq<Tag>): (levels: seq<Tag>)
    ensures forall x :: x in levels ==> x in starts
  {
    if starts == [] then []
    else (if starts[0].id == INTRO then [] else [starts[0]]) + Levels(starts[1..])
  }

  predicate Ascending(s: string, levels: seq<Tag>) {
    && (forall k :: 0 <= k < |levels| ==> levels[k].at <= |s|)
    && forall k, m :: 0 <= k < m < |levels| ==> levels[k].at <= levels[m].at
  }

  lemma {:induction false} LevelsAscend(s: string, starts: seq<Tag>)
    requires Ascending(s, starts)
    ensures Ascending(s, Levels(starts))
  {
    if starts != [] {
      LevelsAscend(s, starts[1..]);
      assert forall x :: x in starts[1..] ==> starts[0].at <= x.at;
    }
  }

  /** The last place a text occurs. */
  function FindLast(s: string, p: string, n: nat): (r: Option<nat>)
    requires n <= |s|
    ensures r.Some? ==> r.value <= n && p <= s[r.value..]
  {
    if p <= s[n..] then Some(n) else if n == 0 then Option<nat>.None else FindLast(s, p, n - 1)
  }

  /** Chunks from the `k`-th level on, the last one ending at `end`. */
  function ChunksFrom(s: string, levels: seq<Tag>, k: nat, end: nat): seq<Chunk>
    requires Ascending(s, levels) && k <= |levels| && end <= |s|
    requires levels != [] ==> levels[|levels| - 1].at <= end
    decreases |levels| - k
  {
    if k == |levels| then []
    else
      var stop := if k + 1 < |levels| then levels[k + 1].at else end;
      [Chunk(levels[k].id, s[levels[k].at..stop])] + ChunksFrom(s, levels, k + 1, end)
  }

  /** The sections of a document; none without a level section or without an end tag after the last. */
  function SplitAt(s: string): Option<Split> {
    var levels := Levels(SectionStarts(s, 0));
    LevelsAscend(s, SectionStarts(s, 0));
    if levels == [] then None
    else
      var close := FindLast(s, SECTION_END, |s|);
      if close == None || close.value < levels[|levels| - 1].at then None
      else
        assert SECTION_END <= s[close.value..];
        var end := close.value + |SECTION_END|;
        Some(Split(s[..levels[0].at], ChunksFrom(s, levels, 0, end), s[end..]))
  }

  function Texts(chunks: seq<Chunk>): seq<string> {
    seq(|chunks|, i requires 0 <= i < |chunks| => chunks[i].text)
  }

  lemma {:induction false} ChunksCover(s: string, levels: seq<Tag>, k: nat, end: nat)
    requires Ascending(s, levels) && k < |levels| && levels[|levels| - 1].at <= end <= |s|
    ensures Concat(Texts(ChunksFrom(s, levels, k, end))) == s[levels[k].at..end]
    decreases |levels| - k
  {
    var chunks, rest := ChunksFrom(s, levels, k, end), ChunksFrom(s, levels, k + 1, end);
    assert Texts(chunks) == [chunks[0].text] + Texts(rest);
    assert Texts(chunks)[1..] == Texts(rest);
    if k + 1 < |levels| {
      ChunksCover(s, levels, k + 1, end);
      assert s[levels[k].at..levels[k + 1].at] + s[levels[k + 1].at..end] == s[levels[k].at..end];
    } else {
      assert Texts(rest) == [];
    }
  }

  /** Cutting loses nothing: prelude, chunks and postlude are the document. */
  lemma SplitCovers(s: string)
    requires SplitAt(s).Some?
    ensures var p := SplitAt(s).value; p.prelude + Concat(Texts(p.chunks)) + p.postlude == s
    ensures SplitAt(s).value.chunks != []
  {
    hide SectionStarts, Levels, FindLast, ChunksFrom, Concat, Texts;
    var levels := Levels(SectionStarts(s, 0));
    LevelsAscend(s, SectionStarts(s, 0));
    var end := FindLast(s, SECTION_END, |s|).value + |SECTION_END|;
    ChunksCover(s, levels, 0, end);
    ChunksExist(s, levels, end);
    assert s[..levels[0].at] + s[levels[0].at..end] + s[end..] == s;
  }

  lemma ChunksExist(s: string, levels: seq<Tag>, end: nat)
    requires Ascending(s, levels) && levels != [] && levels[|levels| - 1].at <= end <= |s|
    ensures ChunksFrom(s, levels, 0, end) != []
  {
  }

  /** The program's `split_sections`. */
  method SplitSections(src: string) returns (r: Option<Split>)
    ensures r == SplitAt(src)
  {
    hide SectionStarts, Levels, FindLast;
    var starts := SectionStarts(src, 0);
    var levels := Levels(starts);
    LevelsAscend(src, starts);
    if levels == [] {
      return None;
    }
    var prelude := src[..levels[0].at];
    var chunks: seq<Chunk> := [];
    var lastEnd: nat := |src|;
    ghost var close := FindLast(src, SECTION_END, |src|);
    ghost var final := if close.Some? && close.value >= levels[|levels| - 1].at then close.value + |SECTION_END| else |src|;
    for i := 0 to |levels|
      invariant chunks + ChunksFrom(src, levels, i, final) == ChunksFrom(src, levels, 0, final)
      invariant i == |levels| ==> close.Some? && close.value >= levels[|levels| - 1].at && lastEnd == final
    {
      var end;
      if i + 1 < |levels| {
        end := levels[i + 1].at;
      } else {
        var found := FindLast(src, SECTION_END, |src|);
        if found == None || found.value < levels[i].at {
          return None;
        }
        end := found.value + |SECTION_END|;
        lastEnd := end;
      }
      var chunk := Chunk(levels[i].id, src[levels[i].at..end]);
      assert ChunksFrom(src, levels, i, final) == [chunk] + ChunksFrom(src, levels, i + 1, final);
      assert chunks + ([chunk] + ChunksFrom(src, levels, i + 1, final)) == chunks + [chunk] + ChunksFrom(src, levels, i + 1, final);
      chunks := chunks + [chunk];
    }
    assert chunks + [] == chunks;
    return Some(Split(prelude, chunks, src[lastEnd..]));
  }
}
