/** The non-code masker of the trace gate: what each scanning pass recognises, as lexemes, and the
    scanners themselves. */
module TraceMask {
  import opened Text

  /** Which characters count as letters after a regular expression; never a line feed. */
  type Letters = s: set<char> | '\n' !in s witness {}

  // ---- How far each construct reaches

  /** To the end of the line. */
  function LineLength(s: string): (n: nat)
    ensures n <= |s|
    ensures forall i :: 0 <= i < n ==> s[i] != '\n'
    ensures n < |s| ==> s[n] == '\n'
  {
    if s == "" || s[0] == '\n' then 0 else 1 + LineLength(s[1..])
  }

  /** Up to and including the first closer; to the end when there is none. */
  function CloserLength(s: string): (n: nat)
    ensures n <= |s|
  {
    if "*/" <= s then 2 else if s == "" then 0 else 1 + CloserLength(s[1..])
  }

  /** The opener is passed before a closer is looked for. */
  function BlockLength(s: string): (n: nat)
    requires "/*" <= s
    ensures 2 <= n <= |s|
  {
    2 + CloserLength(s[2..])
  }

  predicate IsQuote(c: char) { c == '"' || c == '\'' || c == '`' }

  /** After the opening quote: to the closing quote, or to the end of a line that a plain string cannot
      cross. A backslash takes the next character with it. */
  function BodyLength(s: string, quote: char): (n: nat)
    ensures n <= |s|
  {
    if s == "" then 0
    else if s[0] == '\\' then (if |s| == 1 then 1 else 2 + BodyLength(s[2..], quote))
    else if s[0] == quote then 1
    else if s[0] == '\n' && quote != '`' then 0
    else 1 + BodyLength(s[1..], quote)
  }

  function StringLength(s: string): (n: nat)
    requires s != ""
    ensures 1 <= n <= |s|
  {
    1 + BodyLength(s[1..], s[0])
  }

  function FlagsLength(s: string, letters: Letters): (n: nat)
    ensures n <= |s|
    ensures forall i :: 0 <= i < n ==> s[i] in letters
    ensures n < |s| ==> s[n] !in letters
  {
    if s == "" || s[0] !in letters then 0 else 1 + FlagsLength(s[1..], letters)
  }

  /** After the opening slash: past the closing slash and its flags, on the same line; none otherwise. */
  function RegexLength(s: string, inClass: bool, letters: Letters): (n: Option<nat>)
    ensures n.Some? ==> 1 <= n.value <= |s| && forall i :: 0 <= i < n.value ==> s[i] != '\n'
  {
    if s == "" || s[0] == '\n' then Option<nat>.None
    else if s[0] == '\\' then
      if |s| == 1 || s[1] == '\n' then Option<nat>.None else Further(2, RegexLength(s[2..], inClass, letters))
    else if inClass then Further(1, RegexLength(s[1..], s[0] != ']', letters))
    else if s[0] == '[' then Further(1, RegexLength(s[1..], true, letters))
    else if s[0] == '/' then Some(1 + FlagsLength(s[1..], letters))
    else Further(1, RegexLength(s[1..], false, letters))
  }

  function Further(k: nat, n: Option<nat>): Option<nat> {
    if n.None? then n else Some(k + n.value)
  }

  // ---- The mask of a pass

  datatype Lexeme = Lexeme(length: nat, nonCode: bool)

  datatype Pass = Plain | Speculative(letters: Letters)

  /** What stands at the start of the text. */
  function Next(s: string, pass: Pass): (x: Lexeme)
    requires s != ""
    ensures 1 <= x.length <= |s|
  {
    if "//" <= s then
      assert s[0] == '/' != '\n';
      Lexeme(LineLength(s), true)
    else if "/*" <= s then Lexeme(BlockLength(s), true)
    else if s[0] == '/' && pass.Speculative? then
      match RegexLength(s[1..], false, pass.letters)
      case None => Lexeme(1, false)
      case Some(n) => Lexeme(1 + n, true)
    else if IsQuote(s[0]) then Lexeme(StringLength(s), true)
    else Lexeme(1, false)
  }

  /** Line feeds are never masked. */
  function Label(s: string, nonCode: bool): seq<bool> {
    seq(|s|, i requires 0 <= i < |s| => nonCode && s[i] != '\n')
  }

  /** The positions a pass masks. */
  function Scan(s: string, pass: Pass): (m: seq<bool>)
    ensures |m| == |s|
    decreases |s|
  {
    if s == "" then []
    else
      var x := Next(s, pass);
      Label(s[..x.length], x.nonCode) + Scan(s[x.length..], pass)
  }

  const FILLER := '\0'

  /** The masked text: the union of both passes. */
  function Masked(s: string, letters: Letters): (r: string)
    ensures |r| == |s|
  {
    var plain, speculative := Scan(s, Plain), Scan(s, Speculative(letters));
    seq(|s|, i requires 0 <= i < |s| => if plain[i] || speculative[i] then FILLER else s[i])
  }

  lemma {:induction false} FeedsStay(s: string, pass: Pass, i: nat)
    requires i < |s| && s[i] == '\n'
    ensures !Scan(s, pass)[i]
    decreases |s|
  {
    var n := Next(s, pass).length;
    if n <= i {
      assert s[n..][i - n] == s[i];
      FeedsStay(s[n..], pass, i - n);
    }
  }

  /** Masking keeps positions and line feeds, touches nothing it does not mask, and masks at least what
      the strings-and-comments pass masks. */
  lemma MaskIsMonotone(s: string, letters: Letters, i: nat)
    requires i < |s|
    ensures Scan(s, Plain)[i] ==> Masked(s, letters)[i] == FILLER
    ensures Masked(s, letters)[i] == s[i] || Masked(s, letters)[i] == FILLER
    ensures s[i] == '\n' ==> Masked(s, letters)[i] == '\n'
    ensures s[i] != FILLER ==>
              (Masked(s, letters)[i] == FILLER <==> Scan(s, Plain)[i] || Scan(s, Speculative(letters))[i])
  {
    hide Scan;
    if s[i] == '\n' {
      FeedsStay(s, Plain, i);
      FeedsStay(s, Speculative(letters), i);
    }
  }

  /** The speculative pass alone is not monotone: a slash that divides can hide a string's opening
      quote, and then uncovers part of the string. */
  lemma SpeculationUncovers()
    ensures Scan("/\"/1\"", Plain)[3] && !Scan("/\"/1\"", Speculative({}))[3]
  {
    var s := "/\"/1\"";
    assert s[1..] == "\"/1\"" && s[1..][1..] == "/1\"" && s[1..][1..][1..] == "1\"" && s[1..][1..][1..][1..] == "\"";
    assert BodyLength("\"", '"') == 1;
    assert BodyLength("1\"", '"') == 2;
    assert BodyLength("/1\"", '"') == 3;
    assert Next(s, Plain) == Lexeme(1, false);
    assert Next(s[1..], Plain) == Lexeme(4, true);
    assert Scan(s, Plain)[3] == Scan(s[1..], Plain)[2];
    assert s[1..][..4] == s[1..];
    assert FlagsLength("1\"", {}) == 0;
    assert RegexLength("/1\"", false, {}) == Some(1);
    assert RegexLength("\"/1\"", false, {}) == Some(2);
    assert Next(s, Speculative({})) == Lexeme(3, true);
    assert s[3..] == "1\"";
    assert Next(s[3..], Speculative({})) == Lexeme(1, false);
    assert Scan(s, Speculative({}))[3] == Scan(s[3..], Speculative({}))[0];
  }

  // ---- The scanners

  lemma RegexStep(text: string, i: nat, inClass: bool, letters: Letters)
    requires i <= |text|
    ensures RegexLength(text[i..], inClass, letters) ==
            if i == |text| || text[i] == '\n' then Option<nat>.None
            else if text[i] == '\\' then
              if i + 1 == |text| || text[i + 1] == '\n' then Option<nat>.None
              else Further(2, RegexLength(text[i + 2..], inClass, letters))
            else if inClass then Further(1, RegexLength(text[i + 1..], text[i] != ']', letters))
            else if text[i] == '[' then Further(1, RegexLength(text[i + 1..], true, letters))
            else if text[i] == '/' then Some(1 + FlagsLength(text[i + 1..], letters))
            else Further(1, RegexLength(text[i + 1..], false, letters))
  {
    var s := text[i..];
    assert i < |text| ==> s[1..] == text[i + 1..];
    assert i + 1 < |text| ==> s[2..] == text[i + 2..] && s[1] == text[i + 1];
  }

  method SkipFlags(text: string, start: nat, letters: Letters) returns (i: nat)
    requires start <= |text|
    ensures i == start + FlagsLength(text[start..], letters)
  {
    i := start;
    while i < |text| && text[i] in letters
      invariant start <= i <= |text|
      invariant FlagsLength(text[start..], letters) == i - start + FlagsLength(text[i..], letters)
    {
      assert text[i..][0] == text[i] && text[i..][1..] == text[i + 1..];
      i := i + 1;
    }
  }

  method RegexLiteralEnd(text: string, start: nat, letters: Letters) returns (end: Option<nat>)
    requires start < |text|
    ensures end == Further(start + 1, RegexLength(text[start + 1..], false, letters))
  {
    hide RegexLength;
    var i: nat := start + 1;
    var inClass := false;
    while i < |text|
      invariant start + 1 <= i <= |text|
      invariant Further(start + 1, RegexLength(text[start + 1..], false, letters)) == Further(i, RegexLength(text[i..], inClass, letters))
    {
      var c := text[i];
      RegexStep(text, i, inClass, letters);
      if c == '\n' {
        return Option<nat>.None;
      }
      if c == '\\' {
        if i + 1 >= |text| || text[i + 1] == '\n' {
          return Option<nat>.None;
        }
        i := i + 2;
        continue;
      }
      if inClass {
        if c == ']' {
          inClass := false;
        }
      } else if c == '[' {
        inClass := true;
      } else if c == '/' {
        i := SkipFlags(text, i + 1, letters);
        return Some(i);
      }
      i := i + 1;
    }
    RegexStep(text, i, inClass, letters);
    return Option<nat>.None;
  }

  /** Text between two positions masked, the rest as before. */
  ghost predicate MaskedOnly(before: seq<bool>, after: seq<bool>, text: string, i: nat, j: nat) {
    && |before| == |after| == |text| && i <= j <= |text|
    && forall k :: 0 <= k < |text| ==> after[k] == if i <= k < j then text[k] != '\n' else before[k]
  }

  method MaskLine(text: string, masked: array<bool>, start: nat) returns (i: nat)
    requires masked.Length == |text| && start <= |text|
    modifies masked
    ensures i == start + LineLength(text[start..])
    ensures MaskedOnly(old(masked[..]), masked[..], text, start, i)
  {
    i := start;
    while i < |text| && text[i] != '\n'
      invariant start <= i <= |text|
      invariant LineLength(text[start..]) == i - start + LineLength(text[i..])
      invariant MaskedOnly(old(masked[..]), masked[..], text, start, i)
    {
      assert text[i..][0] == text[i] && text[i..][1..] == text[i + 1..];
      masked[i] := true;
      i := i + 1;
    }
  }

  lemma CloserStep(text: string, i: nat)
    requires i <= |text|
    ensures CloserLength(text[i..]) ==
            if "*/" <= text[i..] then 2 else if i == |text| then 0 else 1 + CloserLength(text[i + 1..])
  {
    assert i < |text| ==> text[i..][1..] == text[i + 1..];
  }

  /** The closer's two characters, as far as there are any left. */
  method MaskCloser(text: string, masked: array<bool>, start: nat) returns (i: nat)
    requires masked.Length == |text| && start <= |text| && (start < |text| ==> "*/" <= text[start..])
    modifies masked
    ensures i == if start < |text| then start + 2 else start
    ensures MaskedOnly(old(masked[..]), masked[..], text, start, i)
  {
    i := start;
    assert start < |text| ==> text[start..][0] == text[start] == '*' && text[start..][1] == text[start + 1] == '/';
    for k := 0 to 2
      invariant i == if start < |text| then start + k else start
      invariant i <= |text|
      invariant MaskedOnly(old(masked[..]), masked[..], text, start, i)
    {
      if i < |text| {
        masked[i] := true;
        i := i + 1;
      }
    }
  }

  method MaskBlock(text: string, masked: array<bool>, start: nat) returns (i: nat)
    requires masked.Length == |text| && start <= |text| && "/*" <= text[start..]
    requires forall k :: start <= k < |text| ==> !masked[k]
    modifies masked
    ensures i == start + BlockLength(text[start..])
    ensures MaskedOnly(old(masked[..]), masked[..], text, start, i)
  {
    hide CloserLength;
    assert text[start..][0] == text[start] == '/' && text[start..][1] == text[start + 1] == '*';
    masked[start] := true;
    masked[start + 1] := true;
    i := start + 2;
    assert text[start..][2..] == text[i..];
    while i < |text| && !("*/" <= text[i..])
      invariant start + 2 <= i <= |text|
      invariant CloserLength(text[start + 2..]) == i - start - 2 + CloserLength(text[i..])
      invariant MaskedOnly(old(masked[..]), masked[..], text, start, i)
    {
      CloserStep(text, i);
      if text[i] != '\n' {
        masked[i] := true;
      }
      i := i + 1;
    }
    CloserStep(text, i);
    i := MaskCloser(text, masked, i);
  }

  lemma BodyStep(text: string, i: nat, quote: char)
    requires i <= |text|
    ensures BodyLength(text[i..], quote) ==
            if i == |text| then 0
            else if text[i] == '\\' then (if i + 1 == |text| then 1 else 2 + BodyLength(text[i + 2..], quote))
            else if text[i] == quote then 1
            else if text[i] == '\n' && quote != '`' then 0
            else 1 + BodyLength(text[i + 1..], quote)
  {
    var s := text[i..];
    assert i < |text| ==> s[1..] == text[i + 1..];
    assert i + 1 < |text| ==> s[2..] == text[i + 2..];
  }

  /** The index may end one past the text, after a final backslash. */
  method MaskString(text: string, masked: array<bool>, start: nat) returns (i: nat)
    requires masked.Length == |text| && start < |text| && IsQuote(text[start])
    requires forall k :: start <= k < |text| ==> !masked[k]
    modifies masked
    ensures i <= |text| + 1 && (if i > |text| then |text| else i) == start + StringLength(text[start..])
    ensures MaskedOnly(old(masked[..]), masked[..], text, start, start + StringLength(text[start..]))
  {
    hide BodyLength;
    var quote := text[start];
    masked[start] := true;
    i := start + 1;
    assert text[start..][1..] == text[i..];
    while i < |text|
      invariant start + 1 <= i <= |text| + 1
      invariant i <= |text| ==> BodyLength(text[start + 1..], quote) == i - start - 1 + BodyLength(text[i..], quote)
      invariant i > |text| ==> BodyLength(text[start + 1..], quote) == |text| - start - 1
      invariant MaskedOnly(old(masked[..]), masked[..], text, start, if i > |text| then |text| else i)
    {
      var current := text[i];
      BodyStep(text, i, quote);
      if current == '\\' {
        masked[i] := true;
        if i + 1 < |text| && text[i + 1] != '\n' {
          masked[i + 1] := true;
        }
        i := i + 2;
        continue;
      }
      if current == quote {
        masked[i] := true;
        i := i + 1;
        return;
      }
      if current == '\n' {
        if quote != '`' {
          return;
        }
        i := i + 1;
        continue;
      }
      masked[i] := true;
      i := i + 1;
    }
    if i == |text| {
      BodyStep(text, i, quote);
    }
  }

  method MaskRegex(text: string, masked: array<bool>, start: nat, end: nat) returns (i: nat)
    requires masked.Length == |text| && start <= end <= |text| && forall k :: start <= k < end ==> text[k] != '\n'
    modifies masked
    ensures i == end && MaskedOnly(old(masked[..]), masked[..], text, start, end)
  {
    i := start;
    while i < end
      invariant start <= i <= end
      invariant MaskedOnly(old(masked[..]), masked[..], text, start, i)
    {
      masked[i] := true;
      i := i + 1;
    }
  }

  /** One turn of the scanning loop: what stands at `start` is masked or passed. */
  method MaskNext(text: string, masked: array<bool>, start: nat, pass: Pass) returns (i: nat)
    requires masked.Length == |text| && start < |text| && forall k :: start <= k < |text| ==> !masked[k]
    modifies masked
    ensures var x := Next(text[start..], pass);
            && start + x.length <= |text|
            && i <= |text| + 1 && (if i > |text| then |text| else i) == start + x.length
            && forall k :: 0 <= k < |text| ==>
                 masked[k] == if start <= k < start + x.length then x.nonCode && text[k] != '\n' else old(masked[k])
  {
    hide LineLength, BlockLength, StringLength, RegexLength;
    assert text[start..][0] == text[start] && text[start..][1..] == text[start + 1..];
    i := start;
    if "//" <= text[i..] {
      i := MaskLine(text, masked, i);
    } else if "/*" <= text[i..] {
      i := MaskBlock(text, masked, i);
    } else if text[i] == '/' && pass.Speculative? {
      var end := RegexLiteralEnd(text, i, pass.letters);
      if end == None {
        i := i + 1;
      } else {
        RegexStaysOnLine(text, i, pass.letters);
        i := MaskRegex(text, masked, i, end.value);
      }
    } else if IsQuote(text[i]) {
      i := MaskString(text, masked, i);
    } else {
      i := i + 1;
    }
  }

  /** One scanning pass. */
  method ScanNonCode(text: string, pass: Pass) returns (masked: array<bool>)
    ensures fresh(masked) && masked[..] == Scan(text, pass)
  {
    hide Scan, Next;
    masked := new bool[|text|](_ => false);
    var i: nat := 0;
    assert text[0..] == text;
    while i < |text|
      invariant i <= |text| + 1
      invariant var at := if i > |text| then |text| else i;
                && masked[..at] + Scan(text[at..], pass) == Scan(text, pass)
                && forall k :: at <= k < |text| ==> !masked[k]
    {
      ScanStep(text, i, pass);
      ghost var x, before, start := Next(text[i..], pass), masked[..], i;
      i := MaskNext(text, masked, i, pass);
      Extended(text, pass, before, masked[..], start, x);
    }
    assert masked[..|text|] + Scan(text[|text|..], pass) == masked[..];
  }

  /** The mask written so far, with one more lexeme. */
  lemma Extended(text: string, pass: Pass, before: seq<bool>, after: seq<bool>, i: nat, x: Lexeme)
    requires |before| == |after| == |text| && i < |text| && i + x.length <= |text|
    requires before[..i] + Scan(text[i..], pass) == Scan(text, pass)
    requires Scan(text[i..], pass) == Label(text[i..i + x.length], x.nonCode) + Scan(text[i + x.length..], pass)
    requires forall k :: 0 <= k < |text| ==>
               after[k] == if i <= k < i + x.length then x.nonCode && text[k] != '\n' else before[k]
    ensures after[..i + x.length] + Scan(text[i + x.length..], pass) == Scan(text, pass)
  {
    hide Scan;
    assert after[..i + x.length] == before[..i] + Label(text[i..i + x.length], x.nonCode);
  }

  lemma ScanStep(text: string, i: nat, pass: Pass)
    requires i < |text|
    ensures var x := Next(text[i..], pass);
            i + x.length <= |text|
            && Scan(text[i..], pass) == Label(text[i..i + x.length], x.nonCode) + Scan(text[i + x.length..], pass)
  {
    hide Next;
    var n := Next(text[i..], pass).length;
    assert text[i..][n..] == text[i + n..] && text[i..][..n] == text[i..i + n];
  }

  lemma RegexStaysOnLine(text: string, i: nat, letters: Letters)
    requires i < |text| && text[i] == '/' && RegexLength(text[i + 1..], false, letters).Some?
    ensures var n := RegexLength(text[i + 1..], false, letters).value;
            i + 1 + n <= |text| && forall k :: i <= k < i + 1 + n ==> text[k] != '\n'
  {
    hide RegexLength;
    var n := RegexLength(text[i + 1..], false, letters).value;
    forall k | i < k < i + 1 + n ensures text[k] != '\n' {
      assert text[i + 1..][k - i - 1] == text[k];
    }
  }

  /** The program's `mask_noncode`: the union of the two passes. */
  method MaskNonCode(text: string, letters: Letters) returns (masked: string)
    ensures masked == Masked(text, letters)
  {
    hide Scan;
    var plain := ScanNonCode(text, Plain);
    var speculative := ScanNonCode(text, Speculative(letters));
    masked := text;
    for i := 0 to |text|
      invariant |masked| == |text|
      invariant forall k :: 0 <= k < |text| ==> masked[k] == if k < i && (plain[..][k] || speculative[..][k]) then FILLER else text[k]
    {
      if plain[i] || speculative[i] {
        masked := masked[i := FILLER];
      }
    }
  }
}
