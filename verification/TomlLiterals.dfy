/** What every literal form reads as, the printed ones and the others, and which texts are no literal. */
module TomlLiterals {
  import opened Text
  import Json
  import opened TomlLexer
  import opened TomlParser
  import opened TomlPrinter

  // ---- Single quotes

  /** A text between single quotes reads as that text, whatever it holds, unless the form opens with three
      quotes. */
  lemma SingleQuotedReads(s: string)
    ensures ParseValue("'" + s + "'") == if "''" <= s + "'" then None else Some(Str(s))
  {
    var v := "'" + s + "'";
    hide ParseValue;
    TightIsFixed(Js, v);
    assert v == "'" + (s + "'") && v[1..] == s + "'" && v[1..|v| - 1] == s;
    StartsAfter('\'', s + "'", "''");
    assert "'" + "''" == "'''";
    assert v[0] == '\'' && v[|v| - 1..] == "'";
    SingleBranch(v);
  }

  lemma SingleBranch(v: string)
    requires v != "" && Trim(Js, v) == v && v[0] == '\'' && EndsWith(v, "'")
    ensures ParseValue(v) == if "'''" <= v then None else Some(Str(if |v| == 1 then "" else v[1..|v| - 1]))
  {
    hide AllDigits, IsFraction, Unsigned, DigitsValue, FractionValue, SplitList, ParseAll, Json.Decode, Trim, EndsWith;
  }

  lemma StartsAfter(c: char, s: string, p: string)
    ensures [c] + p <= [c] + s <==> p <= s
  {
    assert ([c] + s)[1..] == s && ([c] + p)[1..] == p;
    if [c] + p <= [c] + s {
      assert ([c] + s)[..|p| + 1][1..] == s[..|p|];
      assert ([c] + p)[1..] == s[..|p|];
    }
  }

  /** A text without single quotes is always read between them. */
  lemma QuoteFreeReads(s: string)
    requires '\'' !in s
    ensures ParseValue("'" + s + "'") == Some(Str(s))
  {
    SingleQuotedReads(s);
    if s != "" {
      assert s[0] in s && (s + "'")[0] == s[0];
    }
  }

  // ---- Numbers

  function Zeros(k: nat): string { seq(k, i => '0') }

  function Sign(negative: bool): string { if negative then "-" else "" }

  /** A decimal numeral, leading zeros allowed, reads as its integer. */
  lemma IntegerReads(negative: bool, zeros: nat, n: nat)
    ensures ParseValue(Sign(negative) + Zeros(zeros) + Decimal(n)) == Some(Num(if negative then 0.0 - n as real else n as real))
  {
    hide *;
    var ds := Zeros(zeros) + Decimal(n);
    DecimalReads(n);
    ZerosCountNothing(zeros, Decimal(n));
    assert Sign(negative) + Zeros(zeros) + Decimal(n) == Sign(negative) + ds;
    DigitsRead(negative, ds);
  }

  lemma {:induction false} ZerosCountNothing(k: nat, ds: string)
    requires AllDigits(ds)
    ensures AllDigits(Zeros(k) + ds) && DigitsValue(Zeros(k) + ds) == DigitsValue(ds)
    decreases |ds|
  {
    var all := Zeros(k) + ds;
    if |ds| == 1 {
      assert all[..|all| - 1] == Zeros(k);
      ZerosAreZero(k);
      assert ds[..0] == "" && DigitsValue("") == 0;
    } else {
      assert all[..|all| - 1] == Zeros(k) + ds[..|ds| - 1];
      ZerosCountNothing(k, ds[..|ds| - 1]);
    }
  }

  lemma {:induction false} ZerosAreZero(k: nat)
    ensures DigitsValue(Zeros(k)) == 0
  {
    if k > 0 {
      assert Zeros(k)[..k - 1] == Zeros(k - 1);
      ZerosAreZero(k - 1);
    }
  }

  /** Every run of digits is such a numeral. */
  lemma {:induction false} EveryNumeral(ds: string) returns (zeros: nat, n: nat)
    requires AllDigits(ds)
    ensures ds == Zeros(zeros) + Decimal(n)
    decreases |ds|
  {
    var d := ds[|ds| - 1] as nat - '0' as nat;
    if |ds| == 1 {
      zeros, n := 0, d;
    } else {
      var front := ds[..|ds| - 1];
      assert forall i :: 0 <= i < |front| ==> front[i] == ds[i];
      var z, m := EveryNumeral(front);
      if m == 0 {
        assert Decimal(0) == "0";
        zeros, n := z + 1, d;
        assert Zeros(z + 1) == Zeros(z) + "0";
      } else {
        zeros, n := z, m * 10 + d;
        assert Decimal(n) == Decimal(m) + [ds[|ds| - 1]];
      }
      assert ds == front + [ds[|ds| - 1]];
    }
  }

  lemma DigitsRead(negative: bool, ds: string)
    requires AllDigits(ds)
    ensures ParseValue(Sign(negative) + ds) ==
            Some(Num(if negative then 0.0 - DigitsValue(ds) as real else DigitsValue(ds) as real))
  {
    hide *;
    AllDigitsAre(ds);
    SignedText(negative, ds);
    IntegerBranch(Sign(negative) + ds);
  }

  /** A sign before a text with a digit at each end. */
  lemma SignedText(negative: bool, u: string)
    requires u != "" && '0' <= u[0] <= '9' && '0' <= u[|u| - 1] <= '9'
    ensures var v := Sign(negative) + u;
            NumberStart(v) && Trim(Js, v) == v && Unsigned(v) == u && forall x :: Signed(v, x) == if negative then 0.0 - x else x
  {
    var v := Sign(negative) + u;
    if negative {
      assert v[0] == '-' && v[1..] == u && v[|v| - 1] == u[|u| - 1];
    } else {
      assert v == u;
    }
    TightIsFixed(Js, v);
  }

  predicate NumberStart(v: string) { v != "" && (v[0] == '-' || '0' <= v[0] <= '9') }

  lemma IntegerBranch(v: string)
    requires NumberStart(v) && Trim(Js, v) == v && AllDigits(Unsigned(v))
    ensures ParseValue(v) == Some(Num(Signed(v, DigitsValue(Unsigned(v)) as real)))
  {
    NumberIsNoQuote(v);
    hide AllDigits, IsFraction, Unsigned, Signed, DigitsValue, FractionValue, SplitList, ParseAll, Json.Decode, Trim, StartsWith, EndsWith;
  }

  lemma FractionBranch(v: string)
    requires NumberStart(v) && Trim(Js, v) == v && !AllDigits(Unsigned(v)) && IsFraction(Unsigned(v))
    ensures ParseValue(v) == Some(Num(Signed(v, FractionValue(Unsigned(v)))))
  {
    NumberIsNoQuote(v);
    hide AllDigits, IsFraction, Unsigned, Signed, DigitsValue, FractionValue, SplitList, ParseAll, Json.Decode, Trim, StartsWith, EndsWith;
  }

  lemma NumberIsNoQuote(v: string)
    requires NumberStart(v)
    ensures !StartsWith(v, "\"\"\"") && !StartsWith(v, "'''") && !StartsWith(v, "\"") && !StartsWith(v, "'")
    ensures v != "true" && v != "false"
  {
  }

  function Times(x: real, y: real): real { x * y }

  /** A fraction reads as the number that, times ten for each of its places, is the integer its digits read
      as without the point. */
  lemma FractionReads(negative: bool, a: string, b: string) returns (x: real, whole: real)
    requires AllDigits(a) && AllDigits(b)
    ensures ParseValue(Sign(negative) + a + "." + b) == Some(Num(x))
    ensures ParseValue(Sign(negative) + a + b) == Some(Num(whole))
    ensures x * TenTo(|b|) == whole
  {
    hide *;
    AllDigitsAre(a);
    AllDigitsAre(b);
    var ten := TenTo(|b|);
    var size := DigitsValue(a) as real + Over(DigitsValue(b) as real, ten);
    x := if negative then 0.0 - size else size;
    DigitsJoin(a, b);
    AllDigitsAre(a + b);
    whole := if negative then 0.0 - DigitsValue(a + b) as real else DigitsValue(a + b) as real;
    assert Sign(negative) + a + "." + b == Sign(negative) + (a + "." + b) && Sign(negative) + a + b == Sign(negative) + (a + b);
    FractionValueRead(negative, a, b);
    DigitsRead(negative, a + b);
    Scaled(DigitsValue(a) as real, DigitsValue(b) as real, ten, negative);
  }

  lemma AllDigitsAre(s: string)
    requires AllDigits(s)
    ensures s != "" && forall i :: 0 <= i < |s| ==> '0' <= s[i] <= '9'
  {
  }

  lemma Scaled(a: real, b: real, ten: real, negative: bool)
    requires ten > 0.0
    ensures (a + Over(b, ten)) * ten == Times(a, ten) + b
    ensures (0.0 - (a + Over(b, ten))) * ten == 0.0 - (Times(a, ten) + b)
  {
    assert b / ten * ten == b;
    assert (a + b / ten) * ten == a * ten + b / ten * ten;
    assert (0.0 - (a + b / ten)) * ten == 0.0 - (a + b / ten) * ten;
  }

  lemma {:induction false} DigitsJoin(a: string, b: string)
    requires AllDigits(a) && forall i :: 0 <= i < |b| ==> '0' <= b[i] <= '9'
    ensures AllDigits(a + b)
    ensures DigitsValue(a + b) as real == Times(DigitsValue(a) as real, TenTo(|b|)) + DigitsValue(b) as real
    decreases |b|
  {
    hide Times;
    if b == "" {
      assert a + b == a;
      TimesOne(DigitsValue(a) as real);
    } else {
      var front := b[..|b| - 1];
      assert forall i :: 0 <= i < |front| ==> front[i] == b[i];
      DigitsJoin(a, front);
      assert (a + b)[..|a + b| - 1] == a + front;
      var d := (b[|b| - 1] as int - '0' as int) as real;
      LastDigit(DigitsValue(a) as real, TenTo(|front|), DigitsValue(front) as real, d);
    }
  }

  lemma TimesOne(a: real)
    ensures Times(a, 1.0) == a
  {
  }

  lemma LastDigit(a: real, ten: real, front: real, d: real)
    ensures (Times(a, ten) + front) * 10.0 + d == Times(a, 10.0 * ten) + (front * 10.0 + d)
  {
  }

  lemma FractionIsSplit(a: string, b: string)
    requires AllDigits(a) && AllDigits(b)
    ensures IsFraction(a + "." + b) && !AllDigits(a + "." + b)
    ensures FractionValue(a + "." + b) == DigitsValue(a) as real + Over(DigitsValue(b) as real, TenTo(|b|))
  {
    SplitFirst(a, b, '.');
    SplitNone(b, '.');
    hide SplitOn, DigitsValue, TenTo, Over;
    assert (a + "." + b)[|a|] == '.';
  }

  lemma FractionEnds(f: string)
    requires IsFraction(f)
    ensures f != "" && '0' <= f[0] <= '9' && '0' <= f[|f| - 1] <= '9'
  {
    var parts := SplitOn(f, '.');
    JoinOfSplit(f, '.');
    hide SplitOn;
    assert parts == [parts[0], parts[1]] && parts[1..] == [parts[1]];
    assert f == parts[0] + "." + parts[1];
    assert f[0] == parts[0][0] && f[|f| - 1] == parts[1][|parts[1]| - 1];
  }

  lemma FractionValueRead(negative: bool, a: string, b: string)
    requires AllDigits(a) && AllDigits(b)
    ensures var size := DigitsValue(a) as real + Over(DigitsValue(b) as real, TenTo(|b|));
            ParseValue(Sign(negative) + (a + "." + b)) == Some(Num(if negative then 0.0 - size else size))
  {
    hide *;
    AllDigitsAre(a);
    AllDigitsAre(b);
    FractionIsSplit(a, b);
    FractionEnds(a + "." + b);
    SignedText(negative, a + "." + b);
    FractionBranch(Sign(negative) + (a + "." + b));
  }

  // ---- Nothing else

  ghost predicate NumberText(v: string) {
    || (exists negative, a :: AllDigits(a) && v == Sign(negative) + a)
    || exists negative, a, b :: AllDigits(a) && AllDigits(b) && v == Sign(negative) + (a + "." + b)
  }

  ghost predicate SingleText(v: string) { v == "'" || exists s :: v == "'" + s + "'" && !("''" <= s + "'") }

  /** A text that opens neither a double quote nor a list is read exactly when it is a single-quoted text, a
      truth value, or a signed integer or fraction. */
  lemma OnlyLiteralsAreRead(v: string)
    requires Tight(Js, v) && v != "" && v[0] != '"' && v[0] != '['
    ensures ParseValue(v).Some? <==> SingleText(v) || v == "true" || v == "false" || NumberText(v)
  {
    TightIsFixed(Js, v);
    SingleMeans(v);
    NumberMeans(v);
    if v[0] == '\'' {
      SingleIsNoNumber(v);
    }
    hide SingleText, NumberText, AllDigits, IsFraction, Unsigned, DigitsValue, FractionValue, SplitList, ParseAll, Json.Decode, Trim;
  }

  lemma SingleIsNoNumber(v: string)
    requires v != "" && v[0] == '\''
    ensures !AllDigits(Unsigned(v)) && !IsFraction(Unsigned(v))
  {
    if IsFraction(v) {
      FractionEnds(v);
    }
  }

  lemma SingleMeans(v: string)
    requires v != ""
    ensures SingleText(v) <==> StartsWith(v, "'") && EndsWith(v, "'") && !StartsWith(v, "'''")
  {
    if s :| v == "'" + s + "'" && !("''" <= s + "'") {
      assert v == "'" + (s + "'") && v[|v| - 1..] == "'";
      StartsAfter('\'', s + "'", "''");
      assert "'" + "''" == "'''";
    }
    if StartsWith(v, "'") && EndsWith(v, "'") && !StartsWith(v, "'''") && |v| > 1 {
      var s := v[1..|v| - 1];
      assert v == "'" + (s + "'");
      StartsAfter('\'', s + "'", "''");
      assert "'" + "''" == "'''";
      assert v == "'" + s + "'" && !("''" <= s + "'");
    }
  }

  lemma NumberMeans(v: string)
    requires v != ""
    ensures NumberText(v) <==> AllDigits(Unsigned(v)) || IsFraction(Unsigned(v))
  {
    var u := Unsigned(v);
    assert v == Sign(v[0] == '-') + u;
    hide IsFraction;
    if negative, a :| AllDigits(a) && v == Sign(negative) + a {
      assert Unsigned(v) == a;
    }
    if negative, a, b :| AllDigits(a) && AllDigits(b) && v == Sign(negative) + (a + "." + b) {
      FractionIsSplit(a, b);
      FractionEnds(a + "." + b);
      SignedText(negative, a + "." + b);
    }
    if IsFraction(u) {
      FractionParts(u);
    }
  }

  lemma FractionParts(f: string)
    requires IsFraction(f)
    ensures exists a, b :: AllDigits(a) && AllDigits(b) && f == a + "." + b
  {
    var parts := SplitOn(f, '.');
    JoinOfSplit(f, '.');
    hide SplitOn, AllDigits;
    assert parts == [parts[0], parts[1]] && parts[1..] == [parts[1]];
    assert f == parts[0] + "." + parts[1];
  }

  // ---- Lists

  /** A piece that a scan for commas passes whole, ending outside quotes. */
  predicate Closed(p: string) { Reach(Plain, p, ',') == |p| && After(Plain, p) == Plain }

  function Trimmed(ps: seq<string>): seq<string> {
    if ps == [] then [] else [Trim(Js, ps[0])] + Trimmed(ps[1..])
  }

  lemma SplitOne(p: string, rest: string)
    requires Closed(p)
    ensures SplitList(p + ("," + rest)) == [Trim(Js, p)] + SplitList(rest)
  {
    hide Trim;
    var s := p + ("," + rest);
    ReachConcat(Plain, p, "," + rest, ',');
    assert s[..|p|] == p && s[|p| + 1..] == rest;
  }

  /** Pieces between commas are split apart and trimmed; a last piece that is blank is dropped. */
  lemma {:induction false} ListIsSplit(ps: seq<string>)
    requires ps != [] && forall i :: 0 <= i < |ps| ==> Closed(ps[i])
    ensures SplitList(Join(ps, ",")) == Trimmed(if Trim(Js, ps[|ps| - 1]) == "" then ps[..|ps| - 1] else ps)
    decreases ps
  {
    hide Trim;
    assert Closed(ps[0]);
    if |ps| == 1 {
      assert ps == [ps[0]] && ps[1..] == [] && ps[..0] == [];
    } else {
      hide SplitList, Closed;
      var rest := ps[1..];
      ListIsSplit(rest);
      assert Join(ps, ",") == ps[0] + ("," + Join(rest, ","));
      SplitOne(ps[0], Join(rest, ","));
      assert rest[|rest| - 1] == ps[|ps| - 1];
      assert ps[..|ps| - 1][1..] == rest[..|rest| - 1];
    }
  }

  /** A list reads as the values of its pieces, and is refused when one of them is. */
  lemma ListReadsPieces(ps: seq<string>)
    requires ps != [] && forall i :: 0 <= i < |ps| ==> Closed(ps[i])
    requires Tight(Js, Join(ps, ",")) && Join(ps, ",") != ""
    ensures var parts := Trimmed(if Trim(Js, ps[|ps| - 1]) == "" then ps[..|ps| - 1] else ps);
            var r := ParseValue("[" + Join(ps, ",") + "]");
            && (r.Some? <==> forall i :: 0 <= i < |parts| ==> ParseValue(parts[i]).Some?)
            && (r.Some? ==> r.value.List? && |r.value.items| == |parts|
                            && forall i :: 0 <= i < |parts| ==> ParseValue(parts[i]) == Some(r.value.items[i]))
  {
    var inner := Join(ps, ",");
    var v := "[" + inner + "]";
    TightIsFixed(Js, v);
    TightIsFixed(Js, inner);
    assert v[1..|v| - 1] == inner;
    ListIsSplit(ps);
    AllRead(SplitList(inner));
    BracketIsNoNumber(v);
    hide AllDigits, IsFraction, Unsigned, DigitsValue, FractionValue, SplitList, ParseAll, Json.Decode, Trimmed, Trim, Tight;
  }

  lemma BracketIsNoNumber(v: string)
    requires v != "" && v[0] == '['
    ensures !AllDigits(Unsigned(v)) && !IsFraction(Unsigned(v))
    ensures !StartsWith(v, "\"\"\"") && !StartsWith(v, "'''") && !StartsWith(v, "\"") && !StartsWith(v, "'")
    ensures v != "true" && v != "false"
  {
    if IsFraction(v) {
      FractionEnds(v);
    }
  }

  lemma {:induction false} AllRead(parts: seq<string>)
    ensures ParseAll(parts).Some? <==> forall i :: 0 <= i < |parts| ==> ParseValue(parts[i]).Some?
    ensures ParseAll(parts).Some? ==> |ParseAll(parts).value| == |parts|
                                      && forall i :: 0 <= i < |parts| ==> ParseValue(parts[i]) == Some(ParseAll(parts).value[i])
    decreases parts
  {
    hide ParseValue;
    if parts != [] {
      AllRead(parts[1..]);
      assert forall i :: 1 <= i < |parts| ==> parts[i] == parts[1..][i - 1];
    }
  }
}
