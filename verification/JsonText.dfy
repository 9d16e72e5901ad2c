/** JSON string literals, as `JSON.stringify` writes them and `JSON.parse` reads them. */
module JsonText {
  import opened Basics
  import opened CodeUnits

  const QUOTE: CodeUnit := 0x22
  const BACKSLASH: CodeUnit := 0x5C

  predicate IsHexDigit(c: CodeUnit) { 0x30 <= c <= 0x39 || 0x41 <= c <= 0x46 || 0x61 <= c <= 0x66 }

  function HexDigit(n: int): (c: CodeUnit)
    requires 0 <= n < 16
    ensures IsHexDigit(c) && HexValue(c) == n
  {
    if n < 10 then 0x30 + n else 0x61 + n - 10
  }

  function HexValue(c: CodeUnit): (n: int)
    requires IsHexDigit(c)
    ensures 0 <= n < 16
  {
    if c <= 0x39 then c - 0x30 else if c <= 0x46 then c - 0x41 + 10 else c - 0x61 + 10
  }

  /** The letter after a backslash that stands for one unit. */
  function ShortEscape(c: CodeUnit): Option<CodeUnit> {
    if c == QUOTE then Some(QUOTE)
    else if c == BACKSLASH then Some(BACKSLASH)
    else if c == 8 then Some(0x62)
    else if c == 9 then Some(0x74)
    else if c == 10 then Some(0x6E)
    else if c == 12 then Some(0x66)
    else if c == 13 then Some(0x72)
    else None
  }

  function LongEscape(c: CodeUnit): Units {
    [BACKSLASH, 0x75, HexDigit(c / 0x1000), HexDigit(c / 0x100 % 16), HexDigit(c / 0x10 % 16), HexDigit(c % 16)]
  }

  /** One unit that is not half of a pair: control letters and stray surrogates are escaped. */
  function Escaped(c: CodeUnit): Units {
    match ShortEscape(c)
    case Some(letter) => [BACKSLASH, letter]
    case None => if c < 0x20 || IsSurrogate(c) then LongEscape(c) else [c]
  }

  function Body(value: Units): Units
    decreases |value|
  {
    if value == [] then []
    else if PairAt(value, 0) then [value[0], value[1]] + Body(value[2..])
    else Escaped(value[0]) + Body(value[1..])
  }

  /** `JSON.stringify` of a string. */
  function Quoted(value: Units): Units { [QUOTE] + Body(value) + [QUOTE] }

  function Unescaped(letter: CodeUnit): Option<CodeUnit> {
    if letter == QUOTE || letter == BACKSLASH || letter == 0x2F then Some(letter)
    else if letter == 0x62 then Some(8)
    else if letter == 0x74 then Some(9)
    else if letter == 0x6E then Some(10)
    else if letter == 0x66 then Some(12)
    else if letter == 0x72 then Some(13)
    else None
  }

  function Prepend(c: CodeUnit, rest: Option<Units>): Option<Units> {
    match rest case None => None case Some(units) => Some([c] + units)
  }

  function FourDigits(a: CodeUnit, b: CodeUnit, c: CodeUnit, d: CodeUnit): CodeUnit
    requires IsHexDigit(a) && IsHexDigit(b) && IsHexDigit(c) && IsHexDigit(d)
  {
    HexValue(a) * 0x1000 + HexValue(b) * 0x100 + HexValue(c) * 0x10 + HexValue(d)
  }

  /** `JSON.parse` of what follows an opening quote; the closing quote has to be the last unit. */
  function Unquoted(t: Units): Option<Units>
    decreases |t|
  {
    if t == [] || t[0] < 0x20 then None
    else if t[0] == QUOTE then if |t| == 1 then Some([]) else None
    else if t[0] != BACKSLASH then Prepend(t[0], Unquoted(t[1..]))
    else if |t| >= 2 && Unescaped(t[1]).Some? then Prepend(Unescaped(t[1]).value, Unquoted(t[2..]))
    else if |t| >= 6 && t[1] == 0x75 && IsHexDigit(t[2]) && IsHexDigit(t[3]) && IsHexDigit(t[4])
      && IsHexDigit(t[5]) then
      Prepend(FourDigits(t[2], t[3], t[4], t[5]), Unquoted(t[6..]))
    else None
  }

  lemma UnquotedEscape(c: CodeUnit, rest: Units)
    ensures Unquoted(Escaped(c) + rest) == Prepend(c, Unquoted(rest))
  {
    if ShortEscape(c).Some? {
      var t := [BACKSLASH, ShortEscape(c).value] + rest;
      assert t[2..] == rest;
    } else if c < 0x20 || IsSurrogate(c) {
      UnquotedLong(c, rest);
    } else {
      var t := [c] + rest;
      assert t[1..] == rest;
    }
  }

  lemma UnquotedLong(c: CodeUnit, rest: Units)
    ensures Unquoted(LongEscape(c) + rest) == Prepend(c, Unquoted(rest))
  {
    var (a, b, d, e) := (HexDigit(c / 0x1000), HexDigit(c / 0x100 % 16), HexDigit(c / 0x10 % 16), HexDigit(c % 16));
    FourDigitsOf(c);
    FourDigitsRead(a, b, d, e, rest);
  }

  lemma FourDigitsOf(c: CodeUnit)
    ensures FourDigits(HexDigit(c / 0x1000), HexDigit(c / 0x100 % 16), HexDigit(c / 0x10 % 16), HexDigit(c % 16)) == c
  {
    var tens := c / 0x10;
    var hundreds := tens / 0x10;
    assert c / 0x100 == hundreds && c / 0x1000 == hundreds / 0x10;
    assert c == 0x10 * tens + c % 0x10 && tens == 0x10 * hundreds + tens % 0x10;
    assert hundreds == 0x10 * (hundreds / 0x10) + hundreds % 0x10;
  }

  lemma FourDigitsRead(a: CodeUnit, b: CodeUnit, c: CodeUnit, d: CodeUnit, rest: Units)
    requires IsHexDigit(a) && IsHexDigit(b) && IsHexDigit(c) && IsHexDigit(d)
    ensures Unquoted([BACKSLASH, 0x75, a, b, c, d] + rest) == Prepend(FourDigits(a, b, c, d), Unquoted(rest))
  {
    var t := [BACKSLASH, 0x75, a, b, c, d] + rest;
    assert t[0] == BACKSLASH && t[1] == 0x75 && t[2] == a && t[3] == b && t[4] == c && t[5] == d && t[6..] == rest;
  }

  lemma UnquotedPair(high: CodeUnit, low: CodeUnit, rest: Units)
    requires IsHigh(high) && IsLow(low)
    ensures Unquoted([high, low] + rest) == Prepend(high, Prepend(low, Unquoted(rest)))
  {
    var t := [high, low] + rest;
    assert t[1..] == [low] + rest && t[1..][1..] == rest;
  }

  /** Every string is read back from its literal. */
  lemma {:induction false} ReadsBack(value: Units)
    ensures Unquoted(Body(value) + [QUOTE]) == Some(value)
    decreases |value|
  {
    if value != [] {
      if PairAt(value, 0) {
        ReadsBack(value[2..]);
        UnquotedPair(value[0], value[1], Body(value[2..]) + [QUOTE]);
        assert Body(value) + [QUOTE] == [value[0], value[1]] + (Body(value[2..]) + [QUOTE]);
        assert [value[0]] + ([value[1]] + value[2..]) == value;
      } else {
        ReadsBack(value[1..]);
        UnquotedEscape(value[0], Body(value[1..]) + [QUOTE]);
        assert Body(value) + [QUOTE] == Escaped(value[0]) + (Body(value[1..]) + [QUOTE]);
        assert [value[0]] + value[1..] == value;
      }
    }
  }

  /** A literal holds no control letter, and no letter the value does not hold but plain ASCII. */
  lemma {:induction false} BodyLetters(value: Units)
    ensures forall c <- Body(value) :: c >= 0x20 && (c >= 0x80 ==> c in value)
    decreases |value|
  {
    if value != [] {
      BodyLetters(if PairAt(value, 0) then value[2..] else value[1..]);
    }
  }

  // ------------------------------------------------------------------ every way to write a string

  /** One letter as it may be written: as itself, by its short escape, or by four hexadecimal digits. */
  predicate Spells(piece: Units, c: CodeUnit) {
    || (piece == [c] && c >= 0x20 && c != 0x22 && c != 0x5C)
    || (|piece| == 2 && piece[0] == 0x5C && IsEscapeFor(piece[1], c))
    || (|piece| == 6 && piece[..2] == [0x5C, 0x75] && (forall k :: 2 <= k < 6 ==> IsHexDigit(piece[k]))
        && c == ((HexValue(piece[2]) * 16 + HexValue(piece[3])) * 16 + HexValue(piece[4])) * 16 + HexValue(piece[5]))
  }

  /** A quote, a backslash or a slash stands for itself; b, f, n, r and t for 8, 12, 10, 13 and 9. */
  predicate IsEscapeFor(letter: CodeUnit, c: CodeUnit) {
    || (letter == c && letter in {0x22, 0x5C, 0x2F})
    || (letter == 0x62 && c == 8) || (letter == 0x66 && c == 12) || (letter == 0x6E && c == 10)
    || (letter == 0x72 && c == 13) || (letter == 0x74 && c == 9)
  }

  function Flat(pieces: seq<Units>): Units { if pieces == [] then [] else pieces[0] + Flat(pieces[1..]) }

  ghost predicate IsLiteral(t: Units, pieces: seq<Units>, value: Units) {
    && |pieces| == |value| && (forall k :: 0 <= k < |pieces| ==> Spells(pieces[k], value[k]))
    && t == Flat(pieces) + [QUOTE]
  }

  lemma PieceIsRead(piece: Units, c: CodeUnit, rest: Units)
    requires Spells(piece, c)
    ensures Unquoted(piece + rest) == Prepend(c, Unquoted(rest))
  {
    var t := piece + rest;
    if |piece| == 6 {
      assert piece == [BACKSLASH, 0x75, piece[2], piece[3], piece[4], piece[5]];
      FourDigitsRead(piece[2], piece[3], piece[4], piece[5], rest);
    } else {
      assert t[|piece|..] == rest;
    }
  }

  /** What a text that is read starts with. */
  lemma FirstPiece(t: Units, value: Units) returns (n: nat)
    requires Unquoted(t) == Some(value) && value != []
    ensures 0 < n < |t| && Spells(t[..n], value[0]) && Unquoted(t[n..]) == Some(value[1..])
  {
    n := if t[0] != BACKSLASH then 1 else if Unescaped(t[1]).Some? then 2 else 6;
    assert n == 6 ==> t[..6][..2] == [0x5C, 0x75];
    assert value == [value[0]] + value[1..];
  }

  lemma {:induction false} LiteralIsRead(t: Units, pieces: seq<Units>, value: Units)
    requires IsLiteral(t, pieces, value)
    ensures Unquoted(t) == Some(value)
    decreases |pieces|
  {
    if pieces == [] {
      assert t == [QUOTE];
    } else {
      LiteralIsRead(Flat(pieces[1..]) + [QUOTE], pieces[1..], value[1..]);
      PieceIsRead(pieces[0], value[0], Flat(pieces[1..]) + [QUOTE]);
      assert t == pieces[0] + (Flat(pieces[1..]) + [QUOTE]);
      assert value == [value[0]] + value[1..];
    }
  }

  lemma {:induction false} ReadIsLiteral(t: Units, value: Units) returns (pieces: seq<Units>)
    requires Unquoted(t) == Some(value)
    ensures IsLiteral(t, pieces, value)
    decreases |value|
  {
    pieces := [];
    if value == [] {
      assert t == [QUOTE];
    } else {
      var n := FirstPiece(t, value);
      var rest := ReadIsLiteral(t[n..], value[1..]);
      pieces := [t[..n]] + rest;
      assert t == t[..n] + t[n..];
    }
  }

  /** A text is read as a value exactly when it writes its letters one by one, each in a way it may be, and a quote. */
  lemma UnquotedIff(t: Units, value: Units)
    ensures Unquoted(t) == Some(value) <==> exists pieces :: IsLiteral(t, pieces, value)
  {
    if Unquoted(t) == Some(value) { var pieces := ReadIsLiteral(t, value); }
    if exists pieces :: IsLiteral(t, pieces, value) {
      var pieces :| IsLiteral(t, pieces, value);
      LiteralIsRead(t, pieces, value);
    }
  }
}
