/** JavaScript strings as they are stored: sequences of UTF-16 code units. */
module CodeUnits {

  type CodeUnit = c: int | 0 <= c < 0x1_0000
  type Units = seq<CodeUnit>

  predicate IsHigh(c: CodeUnit) { 0xD800 <= c < 0xDC00 }
  predicate IsLow(c: CodeUnit) { 0xDC00 <= c < 0xE000 }
  predicate IsSurrogate(c: CodeUnit) { 0xD800 <= c < 0xE000 }

  /** A letter outside the first plane starts here. */
  predicate PairAt(s: Units, i: nat) {
    i + 1 < |s| && IsHigh(s[i]) && IsLow(s[i + 1])
  }

  /** Every surrogate is half of a pair. */
  predicate WellFormed(s: Units)
    decreases |s|
  {
    s == [] || (if PairAt(s, 0) then WellFormed(s[2..]) else !IsSurrogate(s[0]) && WellFormed(s[1..]))
  }

  /** The letters `for … of` hands out that are one code unit long. */
  function Singles(s: Units): Units
    decreases |s|
  {
    if s == [] then []
    else if PairAt(s, 0) then Singles(s[2..])
    else [s[0]] + Singles(s[1..])
  }

  lemma {:induction false} SinglesOfPlain(s: Units)
    requires forall i :: 0 <= i < |s| ==> !IsSurrogate(s[i])
    ensures Singles(s) == s && WellFormed(s)
    decreases |s|
  {
    if s != [] {
      SinglesOfPlain(s[1..]);
      assert s == [s[0]] + s[1..];
    }
  }

  lemma {:induction false} SinglesOfWellFormed(s: Units)
    requires WellFormed(s)
    ensures forall i :: 0 <= i < |Singles(s)| ==> !IsSurrogate(Singles(s)[i])
    decreases |s|
  {
    if s != [] {
      SinglesOfWellFormed(if PairAt(s, 0) then s[2..] else s[1..]);
    }
  }
}
