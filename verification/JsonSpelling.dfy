/** Every spelling of a string that reading accepts, the ones that writing never produces included. */
module JsonSpelling {
  import opened Text
  import opened Json

  /** One character of the string: as itself, by a short escape, by its unit, or by a surrogate pair. */
  datatype Piece = Raw(c: char) | Short(mark: char) | Coded(unit: string) | Paired(high: string, low: string)

  function Spelling(p: Piece): string {
    match p
    case Raw(c) => [c]
    case Short(mark) => ['\\', mark]
    case Coded(unit) => "\\u" + unit
    case Paired(high, low) => "\\u" + high + "\\u" + low
  }

  function Spelt(ps: seq<Piece>): string {
    if ps == [] then "" else Spelling(ps[0]) + Spelt(ps[1..])
  }

  const SMALL := "0123456789abcdef"
  const LARGE := "0123456789ABCDEF"

  /** The digit in either case. */
  predicate IsHex(c: char, n: nat) { n < 16 && (c == SMALL[n] || c == LARGE[n]) }

  predicate AreDigits(s: string, a: nat, b: nat, c: nat, d: nat) {
    |s| == 4 && IsHex(s[0], a) && IsHex(s[1], b) && IsHex(s[2], c) && IsHex(s[3], d)
  }

  /** Four digits writing this number. */
  ghost predicate IsUnit(s: string, n: nat) {
    exists a: nat, b: nat, c: nat, d: nat :: AreDigits(s, a, b, c, d) && n == 4096 * a + 256 * b + 16 * c + d
  }

  predicate IsShort(mark: char, c: char) {
    (mark, c) in {('"', '"'), ('\\', '\\'), ('/', '/'), ('b', '\U{0008}'), ('t', '\t'), ('n', '\n'), ('f', '\U{000C}'), ('r', '\r')}
  }

  /** The piece spells this character. */
  ghost predicate Spells(p: Piece, c: char) {
    match p
    case Raw(x) => x == c && c >= ' ' && c != '"' && c != '\\'
    case Short(mark) => IsShort(mark, c)
    case Coded(unit) => IsUnit(unit, c as int) && !(0xD800 <= c as int < 0xE000)
    case Paired(high, low) => exists h: nat, l: nat :: IsUnit(high, h) && IsUnit(low, l) && MakePair(h, l, c)
  }

  /** A high and a low surrogate, and the character they stand for. */
  predicate MakePair(h: nat, l: nat, c: char) {
    0xD800 <= h < 0xDC00 && 0xDC00 <= l < 0xE000 && c as int == 0x10000 + (h - 0xD800) * 0x400 + (l - 0xDC00)
  }

  ghost predicate SpellAll(ps: seq<Piece>, s: string) {
    |ps| == |s| && forall i :: 0 <= i < |s| ==> Spells(ps[i], s[i])
  }

  lemma HexMeans(c: char, n: nat)
    ensures HexValue(c) == Some(n) <==> IsHex(c, n)
  {
  }

  lemma UnitMeans(t: string, n: nat)
    ensures HexUnit(t) == Some(n) <==> |t| >= 4 && IsUnit(t[..4], n)
  {
    if |t| >= 4 {
      var s := t[..4];
      forall k: nat, m: nat | k < 4 ensures HexValue(t[k]) == Some(m) <==> IsHex(s[k], m) {
        HexMeans(t[k], m);
      }
      DigitsMean(t, s, n);
    }
  }

  lemma DigitsMean(t: string, s: string, n: nat)
    requires |t| >= 4 && s == t[..4]
    requires forall k: nat, m: nat :: k < 4 ==> (HexValue(t[k]) == Some(m) <==> IsHex(s[k], m))
    ensures HexUnit(t) == Some(n) <==> IsUnit(s, n)
  {
    hide HexValue, IsHex;
    if HexUnit(t).Some? {
      var a, b, c, d := HexValue(t[0]).value, HexValue(t[1]).value, HexValue(t[2]).value, HexValue(t[3]).value;
      assert AreDigits(s, a, b, c, d);
    }
    if IsUnit(s, n) {
      var a: nat, b: nat, c: nat, d: nat :| AreDigits(s, a, b, c, d) && n == 4096 * a + 256 * b + 16 * c + d;
      assert HexValue(t[0]) == Some(a) && HexValue(t[1]) == Some(b) && HexValue(t[2]) == Some(c) && HexValue(t[3]) == Some(d);
    }
  }

  lemma UnitAfter(unit: string, rest: string, n: nat)
    requires IsUnit(unit, n)
    ensures HexUnit(unit + rest) == Some(n) && (unit + rest)[4..] == rest
  {
    hide HexUnit, IsHex;
    UnitMeans(unit + rest, n);
    assert (unit + rest)[..4] == unit;
  }

  function Before(c: char, rest: Option<string>): Option<string> {
    if rest.Some? then Some([c] + rest.value) else None
  }

  lemma ShortMeans(mark: char, c: char)
    ensures SimpleEscape(mark) == Some(c) <==> IsShort(mark, c)
  {
  }

  /** A piece reads as the character it spells. */
  lemma PieceReads(p: Piece, c: char, t: string)
    requires Spells(p, c)
    ensures DecodeBody(Spelling(p) + t) == Before(c, DecodeBody(t))
  {
    hide DecodeBody, IsUnit, MakePair, IsShort;
    match p
    case Raw(_) =>
      RawReads(c, t);
    case Short(mark) =>
      ShortReads(mark, c, t);
    case Coded(unit) =>
      CodedReads(unit, c, t);
      TwoParts("\\u", unit, t);
    case Paired(high, low) =>
      PairedReads(high, low, c, t);
      FourParts("\\u", high, low, t);
  }

  lemma TwoParts(a: string, b: string, t: string)
    ensures (a + b) + t == a + (b + t)
  {
  }

  lemma FourParts(a: string, b: string, c: string, t: string)
    ensures a + b + a + c + t == a + (b + (a + (c + t)))
  {
  }

  lemma SpellingUnfolds(p: Piece, t: string)
    ensures p.Coded? ==> Spelling(p) == "\\u" + p.unit
    ensures p.Paired? ==> Spelling(p) == "\\u" + p.high + "\\u" + p.low
  {
  }

  lemma RawReads(c: char, t: string)
    requires Spells(Raw(c), c)
    ensures DecodeBody([c] + t) == Before(c, DecodeBody(t))
  {
    assert ([c] + t)[1..] == t;
  }

  lemma ShortReads(mark: char, c: char, t: string)
    requires IsShort(mark, c)
    ensures DecodeBody(['\\', mark] + t) == Before(c, DecodeBody(t))
  {
    assert (['\\', mark] + t)[2..] == t;
    ShortMeans(mark, c);
  }

  lemma UnitIsRead(t: string)
    ensures DecodeBody("\\u" + t) == DecodeUnit("\\u" + t)
  {
    hide DecodeUnit;
    var all := "\\u" + t;
    assert all[0] == '\\' && all[1] == 'u' && |all| >= 2;
  }

  /** A unit that is no surrogate. */
  lemma LoneUnit(all: string, n: nat)
    requires |all| >= 6 && HexUnit(all[2..]) == Some(n) && !(0xD800 <= n < 0xE000)
    ensures DecodeUnit(all) == Before(n as char, DecodeBody(all[6..]))
  {
    hide HexUnit, DecodeBody;
  }

  lemma TwoUnits(all: string, h: nat, l: nat, c: char)
    requires |all| >= 12 && all[6] == '\\' && all[7] == 'u' && HexUnit(all[2..]) == Some(h) && HexUnit(all[8..]) == Some(l)
    requires MakePair(h, l, c)
    ensures DecodeUnit(all) == Before(c, DecodeBody(all[12..]))
  {
    hide HexUnit, DecodeBody;
  }

  lemma UnitHasFour(unit: string, n: nat)
    requires IsUnit(unit, n)
    ensures |unit| == 4
  {
  }

  lemma CodedReads(unit: string, c: char, t: string)
    requires IsUnit(unit, c as int) && !(0xD800 <= c as int < 0xE000)
    ensures DecodeBody("\\u" + (unit + t)) == Before(c, DecodeBody(t))
  {
    hide *;
    var all := "\\u" + (unit + t);
    UnitIsRead(unit + t);
    UnitHasFour(unit, c as int);
    assert all[2..] == unit + t;
    UnitAfter(unit, t, c as int);
    assert all[6..] == t;
    LoneUnit(all, c as int);
  }

  lemma PairSlices(high: string, low: string, t: string)
    requires |high| == |low| == 4
    ensures var tail := "\\u" + (low + t);
            var all := "\\u" + (high + tail);
            |all| >= 12 && all[2..] == high + tail && all[6] == '\\' && all[7] == 'u' && all[8..] == low + t && all[12..] == t
  {
    var tail := "\\u" + (low + t);
    var all := "\\u" + (high + tail);
    assert all[6..] == tail;
    assert all[8..] == tail[2..];
  }

  lemma PairedReads(high: string, low: string, c: char, t: string)
    requires Spells(Paired(high, low), c)
    ensures DecodeBody("\\u" + (high + ("\\u" + (low + t)))) == Before(c, DecodeBody(t))
  {
    var h: nat, l: nat :| IsUnit(high, h) && IsUnit(low, l) && MakePair(h, l, c);
    hide *;
    UnitHasFour(high, h);
    UnitHasFour(low, l);
    var tail := "\\u" + (low + t);
    PairSlices(high, low, t);
    UnitIsRead(high + tail);
    UnitAfter(high, tail, h);
    UnitAfter(low, t, l);
    TwoUnits("\\u" + (high + tail), h, l, c);
  }

  lemma {:induction false} SpellingReads(ps: seq<Piece>, s: string)
    requires SpellAll(ps, s)
    ensures DecodeBody(Spelt(ps) + "\"") == Some(s)
    decreases ps
  {
    hide Spells, Spelling;
    if ps == [] {
      assert Spelt(ps) + "\"" == "\"";
    } else {
      var rest := Spelt(ps[1..]) + "\"";
      SpellingReads(ps[1..], s[1..]);
      hide DecodeBody;
      PieceReads(ps[0], s[0], rest);
      assert Spelt(ps) + "\"" == Spelling(ps[0]) + rest;
      assert s == [s[0]] + s[1..];
    }
  }

  // ---- And whatever reads is spelt so

  lemma FirstPiece(t: string) returns (p: Piece, c: char, rest: string)
    requires DecodeBody(t).Some? && t != "" && t[0] != '"'
    ensures Spells(p, c) && t == Spelling(p) + rest && |rest| < |t| && DecodeBody(t) == Before(c, DecodeBody(rest))
  {
    if t[0] != '\\' {
      p, c, rest := Raw(t[0]), t[0], t[1..];
      assert t == [t[0]] + rest;
    } else if t[1] != 'u' {
      p, c, rest := Short(t[1]), SimpleEscape(t[1]).value, t[2..];
      ShortMeans(t[1], c);
      assert t == ['\\', t[1]] + rest;
    } else {
      p, c, rest := FirstUnit(t);
    }
  }

  lemma FirstUnit(t: string) returns (p: Piece, c: char, rest: string)
    requires |t| >= 2 && t[0] == '\\' && t[1] == 'u' && DecodeBody(t).Some?
    ensures Spells(p, c) && t == Spelling(p) + rest && |rest| < |t| && DecodeBody(t) == Before(c, DecodeBody(rest))
  {
    hide *;
    assert t == "\\u" + t[2..];
    UnitIsRead(t[2..]);
    var n := UnitShape(t);
    UnitMeans(t[2..], n);
    var unit := t[2..][..4];
    if 0xD800 <= n < 0xE000 {
      var l := PairShape(t, n);
      UnitMeans(t[8..], l);
      var low := t[8..][..4];
      c := (0x10000 + (n - 0xD800) * 0x400 + (l - 0xDC00)) as char;
      p, rest := Paired(unit, low), t[12..];
      PairSpells(unit, low, n, l, c);
      TwoUnits(t, n, l, c);
      SpellingUnfolds(p, rest);
      assert t == "\\u" + unit + "\\u" + low + rest;
    } else {
      p, c, rest := Coded(unit), n as char, t[6..];
      UnitSpells(unit, c);
      LoneUnit(t, n);
      SpellingUnfolds(p, rest);
      assert t == "\\u" + unit + rest;
    }
  }

  lemma UnitShape(t: string) returns (n: nat)
    requires |t| >= 2 && DecodeUnit(t).Some?
    ensures HexUnit(t[2..]) == Some(n) && |t| >= 6 && n < 0x10000
  {
    hide DecodeBody;
    n := HexUnit(t[2..]).value;
  }

  lemma PairShape(t: string, n: nat) returns (l: nat)
    requires |t| >= 2 && DecodeUnit(t).Some? && HexUnit(t[2..]) == Some(n) && 0xD800 <= n < 0xE000
    ensures n < 0xDC00 && |t| >= 12 && t[6] == '\\' && t[7] == 'u' && HexUnit(t[8..]) == Some(l) && 0xDC00 <= l < 0xE000
  {
    hide DecodeBody, HexUnit;
    l := HexUnit(t[8..]).value;
  }

  lemma PairSpells(high: string, low: string, h: nat, l: nat, c: char)
    requires IsUnit(high, h) && IsUnit(low, l) && 0xD800 <= h < 0xDC00 && 0xDC00 <= l < 0xE000
    requires c as int == 0x10000 + (h - 0xD800) * 0x400 + (l - 0xDC00)
    ensures Spells(Paired(high, low), c) && MakePair(h, l, c)
  {
    hide IsUnit;
    assert MakePair(h, l, c);
  }

  lemma UnitSpells(unit: string, c: char)
    requires IsUnit(unit, c as int) && !(0xD800 <= c as int < 0xE000)
    ensures Spells(Coded(unit), c)
  {
  }

  lemma {:induction false} ReadingIsSpelt(t: string) returns (ps: seq<Piece>)
    requires DecodeBody(t).Some?
    ensures SpellAll(ps, DecodeBody(t).value) && t == Spelt(ps) + "\""
    decreases |t|
  {
    if t[0] == '"' {
      ps := [];
      assert t == "\"";
    } else {
      var p, c, rest := FirstPiece(t);
      var more := ReadingIsSpelt(rest);
      hide DecodeBody, Spelling, Spells;
      ps := [p] + more;
      assert ps[1..] == more;
      assert Spelling(p) + (Spelt(more) + "\"") == Spelling(p) + Spelt(more) + "\"";
    }
  }

  /** A double-quoted text reads as a string exactly when it spells it, character by character, between
      its quotes. */
  lemma DecodeMeans(text: string, s: string)
    ensures Decode(text) == Some(s) <==> exists ps :: SpellAll(ps, s) && text == "\"" + (Spelt(ps) + "\"")
  {
    hide DecodeBody, SpellAll, Spelt;
    if Decode(text) == Some(s) {
      var ps := ReadingIsSpelt(text[1..]);
      assert text == "\"" + text[1..];
    }
    forall ps | SpellAll(ps, s) && text == "\"" + (Spelt(ps) + "\"") ensures Decode(text) == Some(s) {
      SpellingReads(ps, s);
      assert text[1..] == Spelt(ps) + "\"";
    }
  }
}
