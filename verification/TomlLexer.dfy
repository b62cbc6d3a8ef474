/** The quote-aware scans that both hand-written TOML parsers share. A scan knows only
    whether it stands inside double quotes, inside single quotes or outside; it does not
    know escapes. */
module TomlLexer {
  import opened Text

  datatype QuoteState = Plain | InDouble | InSingle

  function Toggle(q: QuoteState, c: char): QuoteState {
    if c == '"' && q != InSingle then (if q == InDouble then Plain else InDouble)
    else if c == '\'' && q != InDouble then (if q == InSingle then Plain else InSingle)
    else q
  }

  /** The state after scanning all of `s`. */
  function After(q: QuoteState, s: string): QuoteState
    decreases s
  {
    if s == "" then q else After(Toggle(q, s[0]), s[1..])
  }

  /** How far a scan gets before it meets `mark` outside quotes; `|s|` when it never does. */
  function Reach(q: QuoteState, s: string, mark: char): (k: nat)
    ensures k <= |s|
    ensures k < |s| ==> s[k] == mark
    decreases s
  {
    if s == "" then 0
    else if s[0] == mark && q == Plain then 0
    else 1 + Reach(Toggle(q, s[0]), s[1..], mark)
  }

  // ---- How scans compose

  lemma {:induction false} AfterConcat(q: QuoteState, a: string, b: string)
    ensures After(q, a + b) == After(After(q, a), b)
    decreases a
  {
    if a == "" {
      assert a + b == b;
    } else {
      assert (a + b)[1..] == a[1..] + b;
      AfterConcat(Toggle(q, a[0]), a[1..], b);
    }
  }

  lemma {:induction false} ReachConcat(q: QuoteState, a: string, b: string, mark: char)
    ensures Reach(q, a + b, mark) ==
            if Reach(q, a, mark) < |a| then Reach(q, a, mark)
            else |a| + Reach(After(q, a), b, mark)
    decreases a
  {
    if a == "" {
      assert a + b == b;
    } else {
      assert (a + b)[1..] == a[1..] + b;
      if !(a[0] == mark && q == Plain) {
        ReachConcat(Toggle(q, a[0]), a[1..], b, mark);
      }
    }
  }

  /** Text without quotes: the state stays, and outside quotes the first mark stops the scan. */
  lemma {:induction false} PlainText(q: QuoteState, s: string, mark: char)
    requires '"' !in s && '\'' !in s
    ensures After(q, s) == q
    ensures mark !in s ==> Reach(q, s, mark) == |s|
  {
    if s != "" {
      PlainText(q, s[1..], mark);
    }
  }

  // ---- The three scans, as the parsers' loops

  /** The line up to a comment, trimmed. */
  function Uncommented(line: string): string {
    Trim(Js, line[..Reach(Plain, line, '#')])
  }

  method StripInlineComment(line: string) returns (r: string)
    ensures r == Uncommented(line)
  {
    var inDouble, inSingle := false, false;
    var result := "";
    var i := 0;
    while i < |line|
      invariant 0 <= i <= |line| && result == line[..i]
      invariant !(inDouble && inSingle)
      invariant Reach(Plain, line, '#') == i + Reach(Flags(inDouble, inSingle), line[i..], '#')
    {
      var c := line[i];
      assert line[i..][0] == c && line[i..][1..] == line[i + 1..];
      if c == '"' && !inSingle {
        inDouble := !inDouble;
      } else if c == '\'' && !inDouble {
        inSingle := !inSingle;
      } else if c == '#' && !inDouble && !inSingle {
        break;
      }
      result := result + [c];
      i := i + 1;
    }
    r := Trim(Js, result);
  }

  function Flags(inDouble: bool, inSingle: bool): QuoteState
    requires !(inDouble && inSingle)
  {
    if inDouble then InDouble else if inSingle then InSingle else Plain
  }

  /** The index of the first `=` outside quotes, -1 when there is none. */
  function EqualsIndex(line: string): int {
    var k := Reach(Plain, line, '=');
    if k < |line| then k else -1
  }

  method FindEqualsIndex(line: string) returns (r: int)
    ensures r == EqualsIndex(line)
  {
    var inDouble, inSingle := false, false;
    var i := 0;
    while i < |line|
      invariant 0 <= i <= |line|
      invariant !(inDouble && inSingle)
      invariant Reach(Plain, line, '=') == i + Reach(Flags(inDouble, inSingle), line[i..], '=')
    {
      var c := line[i];
      assert line[i..][0] == c && line[i..][1..] == line[i + 1..];
      if c == '"' && !inSingle {
        inDouble := !inDouble;
      } else if c == '\'' && !inDouble {
        inSingle := !inSingle;
      } else if c == '=' && !inDouble && !inSingle {
        return i;
      }
      i := i + 1;
    }
    return -1;
  }

  /** The trimmed pieces between commas outside quotes; an empty last piece is dropped. */
  function SplitList(s: string): seq<string>
    decreases |s|
  {
    var k := Reach(Plain, s, ',');
    if k < |s| then [Trim(Js, s[..k])] + SplitList(s[k + 1..])
    else if Trim(Js, s) == "" then []
    else [Trim(Js, s)]
  }

  /** The pieces still to come when `token` has been read and `tail` has not. */
  function Pieces(q: QuoteState, token: string, tail: string): seq<string>
    decreases |tail|
  {
    if tail == "" then (if Trim(Js, token) == "" then [] else [Trim(Js, token)])
    else if tail[0] == ',' && q == Plain then [Trim(Js, token)] + Pieces(Plain, "", tail[1..])
    else Pieces(Toggle(q, tail[0]), token + [tail[0]], tail[1..])
  }

  lemma {:induction false} PiecesCut(q: QuoteState, token: string, tail: string)
    ensures var k := Reach(q, tail, ',');
            Pieces(q, token, tail) ==
            if k < |tail| then [Trim(Js, token + tail[..k])] + Pieces(Plain, "", tail[k + 1..])
            else if Trim(Js, token + tail) == "" then [] else [Trim(Js, token + tail)]
    decreases |tail|
  {
    if tail == "" {
      assert token + tail == token;
    } else if tail[0] == ',' && q == Plain {
      assert token + tail[..0] == token;
    } else {
      PiecesCut(Toggle(q, tail[0]), token + [tail[0]], tail[1..]);
      var k := Reach(q, tail, ',');
      if k < |tail| {
        assert token + [tail[0]] + tail[1..][..k - 1] == token + tail[..k];
        assert tail[1..][k..] == tail[k + 1..];
      } else {
        assert token + [tail[0]] + tail[1..] == token + tail;
      }
    }
  }

  lemma {:induction false} PiecesAreSplitList(s: string)
    ensures Pieces(Plain, "", s) == SplitList(s)
    decreases |s|
  {
    PiecesCut(Plain, "", s);
    var k := Reach(Plain, s, ',');
    assert "" + s == s;
    if k < |s| {
      assert "" + s[..k] == s[..k];
      PiecesAreSplitList(s[k + 1..]);
    }
  }

  method SplitTomlList(value: string) returns (r: seq<string>)
    ensures r == SplitList(value)
  {
    var inDouble, inSingle := false, false;
    r := [];
    var token := "";
    var i := 0;
    assert value[0..] == value;
    while i < |value|
      invariant 0 <= i <= |value|
      invariant !(inDouble && inSingle)
      invariant r + Pieces(Flags(inDouble, inSingle), token, value[i..]) == Pieces(Plain, "", value)
    {
      var c := value[i];
      assert value[i..][0] == c && value[i..][1..] == value[i + 1..];
      if c == ',' && !inDouble && !inSingle {
        r := r + [Trim(Js, token)];
        token := "";
      } else {
        if c == '"' && !inSingle {
          inDouble := !inDouble;
        } else if c == '\'' && !inDouble {
          inSingle := !inSingle;
        }
        token := token + [c];
      }
      i := i + 1;
    }
    if |Trim(Js, token)| > 0 {
      r := r + [Trim(Js, token)];
    }
    PiecesAreSplitList(value);
  }

  function TotalLength(parts: seq<string>): nat {
    if parts == [] then 0 else |parts[0]| + TotalLength(parts[1..])
  }

  lemma {:induction false} SplitListSizes(s: string)
    ensures TotalLength(SplitList(s)) <= |s|
    decreases |s|
  {
    var k := Reach(Plain, s, ',');
    TrimIsTight(Js, s);
    if k < |s| {
      TrimIsTight(Js, s[..k]);
      SplitListSizes(s[k + 1..]);
      assert SplitList(s)[1..] == SplitList(s[k + 1..]);
    }
  }
}
