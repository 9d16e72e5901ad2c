/** One address per caller: an IPv6 text is counted by its first 64 bits. */
module Address {
  import opened Basics
  import opened Texts

  const MAPPED := "::ffff:"
  const SUFFIX := "::/64"

  // ------------------------------------------------------------------ what the code does

  function LowerLetter(c: char): char { if 'A' <= c <= 'Z' then (c as int + 32) as char else c }

  function Lower(s: string): string { seq(|s|, i requires 0 <= i < |s| => LowerLetter(s[i])) }

  /** `replace(/^::ffff:/i, '')` */
  predicate StartsMapped(s: string) { |s| >= |MAPPED| && Lower(s[..|MAPPED|]) == MAPPED }

  function Unmapped(s: string): string { if StartsMapped(s) then s[|MAPPED|..] else s }

  /** Where the first `::` is; the length when there is none. */
  function DoubleAt(s: string): (i: nat)
    ensures i <= |s| && (i < |s| ==> i + 2 <= |s| && s[i] == ':')
  {
    if s == "" then 0
    else if |s| >= 2 && s[0] == ':' && s[1] == ':' then 0
    else 1 + DoubleAt(s[1..])
  }

  /** The first two parts of `split('::')`, the second empty when there is none. */
  function SplitDouble(s: string): (string, string) {
    var i := DoubleAt(s);
    if i == |s| then (s, "") else var rest := s[i + 2..]; (s[..i], rest[..DoubleAt(rest)])
  }

  function Groups(s: string): seq<string> { if s == "" then [] else Split(s, ':') }

  /** `replace(/^0+(?=.)/, '')`: leading zeros go, but never the last letter. */
  function WithoutZeros(s: string): string {
    if |s| > 1 && s[0] == '0' then WithoutZeros(s[1..]) else s
  }

  function Tidied(groups: seq<string>): seq<string> {
    seq(|groups|, i requires 0 <= i < |groups| => WithoutZeros(Lower(groups[i])))
  }

  function FirstFour<T>(s: seq<T>): seq<T> { if |s| <= 4 then s else s[..4] }

  datatype AddressError = TooManyGroups

  function Zeros(n: nat): seq<string> { seq(n, _ => "0") }

  /** The groups a text with colons stands for; `Array(n)` with a negative length throws. */
  function AllGroupsOf(plain: string): Result<seq<string>, AddressError> {
    var (head, tail) := SplitDouble(plain);
    var (left, right) := (Groups(head), Groups(tail));
    if DoubleAt(plain) == |plain| then Ok(left)
    else if |left| + |right| > 8 then Refused(TooManyGroups)
    else Ok(left + Zeros(8 - |left| - |right|) + right)
  }

  function Named(groups: seq<string>): string { Join(Tidied(FirstFour(groups)), ':') + SUFFIX }

  function NormalisePlain(plain: string): Result<string, AddressError> {
    if ':' !in plain then Ok(plain)
    else match AllGroupsOf(plain) case Refused(why) => Refused(why) case Ok(groups) => Ok(Named(groups))
  }

  /** `normaliseAddress` */
  function Normalise(address: string): Result<string, AddressError> {
    NormalisePlain(Unmapped(Trim(address, IsSpace)))
  }

  // ------------------------------------------------------------------ what an IPv6 text means

  predicate IsHex(c: char) { '0' <= c <= '9' || 'a' <= c <= 'f' || 'A' <= c <= 'F' }

  function HexValue(c: char): (n: nat)
    requires IsHex(c)
    ensures n < 16
  {
    if c <= '9' then c as int - '0' as int
    else if c <= 'F' then c as int - 'A' as int + 10 else c as int - 'a' as int + 10
  }

  predicate AllHex(s: string) { forall i :: 0 <= i < |s| ==> IsHex(s[i]) }

  /** One to four hexadecimal digits, leading zeros allowed. */
  predicate IsGroup(g: string) { 1 <= |g| <= 4 && AllHex(g) }

  function GroupValue(g: string): nat
    requires AllHex(g)
  {
    if g == "" then 0 else 16 * GroupValue(g[..|g| - 1]) + HexValue(g[|g| - 1])
  }

  /** Forms 1 and 2 of section 2.2 of RFC 4291: eight groups, or fewer around one `::`. */
  datatype AddressText = Full(groups: seq<string>) | Short(left: seq<string>, right: seq<string>)

  predicate AllGroups(groups: seq<string>) { forall i :: 0 <= i < |groups| ==> IsGroup(groups[i]) }

  predicate ValidText(t: AddressText) {
    match t
    case Full(groups) => |groups| == 8 && AllGroups(groups)
    case Short(left, right) => |left| + |right| <= 7 && AllGroups(left) && AllGroups(right)
  }

  function Written(t: AddressText): string {
    match t
    case Full(groups) => Join(groups, ':')
    case Short(left, right) => Join(left, ':') + "::" + Join(right, ':')
  }

  function Values(groups: seq<string>): (r: seq<nat>)
    requires AllGroups(groups)
  {
    seq(|groups|, i requires 0 <= i < |groups| => GroupValue(groups[i]))
  }

  /** The eight 16-bit words of the address. */
  function Words(t: AddressText): (r: seq<nat>)
    requires ValidText(t)
    ensures |r| == 8
  {
    match t
    case Full(groups) => Values(groups)
    case Short(left, right) => Values(left) + seq(8 - |left| - |right|, _ => 0) + Values(right)
  }

  function HexDigit(n: nat): char
    requires n < 16
  {
    if n < 10 then ('0' as int + n) as char else ('a' as int + n - 10) as char
  }

  /** Lower case, no leading zero. */
  function Hex(n: nat): string { if n < 16 then [HexDigit(n)] else Hex(n / 16) + [HexDigit(n % 16)] }

  function Hexes(words: seq<nat>): seq<string> { seq(|words|, i requires 0 <= i < |words| => Hex(words[i])) }

  /** The one name of a /64. */
  function Slash64(words: seq<nat>): string { Join(Hexes(words), ':') + SUFFIX }

  // ------------------------------------------------------------------ groups

  lemma {:induction false} HexIsCanonical(n: nat)
    ensures |Hex(n)| >= 1 && AllHex(Hex(n)) && GroupValue(Hex(n)) == n
    ensures Lower(Hex(n)) == Hex(n) && WithoutZeros(Hex(n)) == Hex(n)
    ensures (Hex(n)[0] == '0' <==> n == 0) && (n == 0 ==> Hex(n) == "0")
    ensures ':' !in Hex(n)
  {
    DigitIsCanonical(n % 16);
    if n < 16 {
      assert Hex(n)[..0] == "";
    } else {
      HexIsCanonical(n / 16);
      DigitAppended(Hex(n / 16), n % 16);
    }
  }

  lemma DigitIsCanonical(n: nat)
    requires n < 16
    ensures var c := HexDigit(n);
      IsHex(c) && HexValue(c) == n && LowerLetter(c) == c && c != ':' && (c == '0' <==> n == 0)
  {}

  lemma DigitAppended(front: string, n: nat)
    requires n < 16 && front != "" && AllHex(front)
    ensures var s := front + [HexDigit(n)];
      && AllHex(s) && GroupValue(s) == 16 * GroupValue(front) + n
      && Lower(s) == Lower(front) + [HexDigit(n)]
      && (front[0] != '0' ==> WithoutZeros(s) == s)
  {
    DigitIsCanonical(n);
    var s := front + [HexDigit(n)];
    assert s[..|s| - 1] == front && s[0] == front[0];
  }

  lemma DigitInLower(c: char)
    requires IsHex(c)
    ensures LowerLetter(c) == HexDigit(HexValue(c))
  {}

  lemma HexInjective(m: nat, n: nat)
    requires Hex(m) == Hex(n)
    ensures m == n
  {
    HexIsCanonical(m);
    HexIsCanonical(n);
  }

  lemma {:induction false} ZerosOfAppended(s: string, c: char)
    requires s != ""
    ensures WithoutZeros(s + [c]) == if WithoutZeros(s) == "0" then [c] else WithoutZeros(s) + [c]
  {
    if s[0] == '0' {
      assert (s + [c])[1..] == s[1..] + [c];
      if |s| > 1 { ZerosOfAppended(s[1..], c); }
    }
  }

  /** Lower case without leading zeros is the canonical writing of the group's value. */
  lemma {:induction false} TidiedIsHex(g: string)
    requires g != "" && AllHex(g)
    ensures WithoutZeros(Lower(g)) == Hex(GroupValue(g))
  {
    var (front, last) := (g[..|g| - 1], g[|g| - 1]);
    assert Lower(g) == Lower(front) + [LowerLetter(last)];
    DigitInLower(last);
    var (n, d) := (GroupValue(front), HexValue(last));
    assert GroupValue(g) == 16 * n + d;
    if front != "" {
      TidiedIsHex(front);
      HexIsCanonical(n);
      ZerosOfAppended(Lower(front), LowerLetter(last));
      if n > 0 { assert (16 * n + d) / 16 == n && (16 * n + d) % 16 == d; }
    } else {
      assert Lower(front) == "" && n == 0;
    }
  }

  lemma TidiedAreHexes(groups: seq<string>)
    requires AllGroups(groups)
    ensures Tidied(groups) == Hexes(Values(groups))
  {
    forall i | 0 <= i < |groups| ensures Tidied(groups)[i] == Hexes(Values(groups))[i] {
      TidiedIsHex(groups[i]);
    }
  }

  // ------------------------------------------------------------------ reading the text back

  /** No two colons side by side, and no colon at either end. */
  ghost predicate Spaced(s: string) {
    && s != "" && s[0] != ':' && s[|s| - 1] != ':'
    && (forall i :: 0 <= i < |s| - 1 ==> !(s[i] == ':' && s[i + 1] == ':'))
  }

  lemma {:induction false} JoinedIsSpaced(groups: seq<string>)
    requires AllGroups(groups) && groups != []
    ensures Spaced(Join(groups, ':')) && (forall c <- Join(groups, ':') :: IsHex(c) || c == ':')
    ensures ':' in Join(groups, ':') <==> |groups| > 1
  {
    assert IsGroup(groups[0]);
    if |groups| > 1 {
      JoinedIsSpaced(groups[1..]);
      assert Join(groups, ':') == groups[0] + [':'] + Join(groups[1..], ':');
    }
  }

  lemma {:induction false} NoDouble(s: string)
    requires forall i :: 0 <= i < |s| - 1 ==> !(s[i] == ':' && s[i + 1] == ':')
    ensures DoubleAt(s) == |s|
  {
    if s != "" { NoDouble(s[1..]); }
  }

  lemma {:induction false} FirstDouble(front: string, rest: string)
    requires front == ""
      || (front[|front| - 1] != ':' && forall i :: 0 <= i < |front| - 1 ==> !(front[i] == ':' && front[i + 1] == ':'))
    ensures DoubleAt(front + "::" + rest) == |front|
  {
    var s := front + "::" + rest;
    if front != "" {
      assert s[1..] == front[1..] + "::" + rest;
      FirstDouble(front[1..], rest);
    }
  }

  lemma GroupsOfJoined(groups: seq<string>)
    requires AllGroups(groups)
    ensures Groups(Join(groups, ':')) == groups
  {
    if groups != [] {
      JoinedIsSpaced(groups);
      SplitJoin(groups, ':');
    }
  }

  /** The text splits at its `::` into what stands on either side of it. */
  lemma ShortSplits(left: seq<string>, right: seq<string>)
    requires AllGroups(left) && AllGroups(right)
    ensures var s := Written(Short(left, right));
      DoubleAt(s) == |Join(left, ':')| < |s| && SplitDouble(s) == (Join(left, ':'), Join(right, ':'))
  {
    var (l, r) := (Join(left, ':'), Join(right, ':'));
    if left != [] { JoinedIsSpaced(left); }
    if right != [] { JoinedIsSpaced(right); }
    FirstDouble(l, r);
    NoDouble(r);
    var s := l + "::" + r;
    assert s[|l| + 2..] == r && s[..|l|] == l && r[..|r|] == r;
    assert s == Written(Short(left, right));
  }

  lemma WrittenIsTidy(t: AddressText)
    requires ValidText(t)
    ensures Written(t) != "" && forall c <- Written(t) :: !IsSpace(c)
  {
    match t
    case Full(groups) => JoinedIsSpaced(groups);
    case Short(left, right) =>
      if left != [] { JoinedIsSpaced(left); }
      if right != [] { JoinedIsSpaced(right); }
  }

  /** `::ffff:` and something after it, in any case of letters: the texts whose prefix is cut off. */
  predicate Mapped(t: AddressText) {
    t.Short? && t.left == [] && |t.right| >= 2 && Lower(t.right[0]) == "ffff"
  }

  lemma StartsWithoutColon(s: string)
    requires s != "" && s[0] != ':'
    ensures !StartsMapped(s)
  {
    assert |s| >= 7 ==> Lower(s[..7])[0] == LowerLetter(s[0]);
  }

  lemma MappedStart(t: AddressText)
    requires ValidText(t)
    ensures StartsMapped(Written(t)) <==> Mapped(t)
    ensures Mapped(t) ==> Unmapped(Written(t)) == Join(t.right[1..], ':')
  {
    var s := Written(t);
    match t
    case Full(groups) => JoinedIsSpaced(groups); StartsWithoutColon(s);
    case Short(left, right) =>
      if left != [] {
        JoinedIsSpaced(left);
        assert s[0] == Join(left, ':')[0];
        StartsWithoutColon(s);
      } else {
        assert s == "::" + Join(right, ':');
        if right != [] { MappedRight(right); }
      }
  }

  lemma {:induction false} MappedRight(right: seq<string>)
    requires AllGroups(right) && right != []
    ensures var s := "::" + Join(right, ':');
      && (StartsMapped(s) <==> |right| >= 2 && Lower(right[0]) == "ffff")
      && (StartsMapped(s) ==> s[|MAPPED|..] == Join(right[1..], ':'))
  {
    var g := right[0];
    assert IsGroup(g);
    if |right| == 1 {
      assert |"::" + Join(right, ':')| == 2 + |g| < 7;
    } else {
      var rest := Join(right[1..], ':');
      assert Join(right, ':') == g + [':'] + rest;
      assert "::" + Join(right, ':') == "::" + g + ":" + rest;
      if |g| == 4 { PrefixOfFour(g, Join(right[1..], ':')); } else { PrefixOfFewer(g, Join(right[1..], ':')); }
    }
  }

  lemma PrefixOfFour(g: string, rest: string)
    requires |g| == 4
    ensures var s := "::" + g + ":" + rest; s[7..] == rest && (StartsMapped(s) <==> Lower(g) == "ffff")
  {
    var s := "::" + g + ":" + rest;
    assert s[..7] == "::" + g + ":";
    assert Lower(s[..7]) == "::" + Lower(g) + ":";
    assert Lower(s[..7])[2..6] == Lower(g);
  }

  lemma PrefixOfFewer(g: string, rest: string)
    requires |g| < 4
    ensures !StartsMapped("::" + g + ":" + rest) && Lower(g) != "ffff"
  {
    var s := "::" + g + ":" + rest;
    assert |Lower(g)| < 4;
    assert |s| >= 7 ==> s[|g| + 2] == ':' && Lower(s[..7])[|g| + 2] == ':';
  }

  lemma TrimmedOf(before: string, s: string, after: string)
    requires s != "" && (forall c <- s :: !IsSpace(c)) && (forall c <- before :: IsSpace(c))
      && (forall c <- after :: IsSpace(c))
    ensures Trim(before + s + after, IsSpace) == s
  {
    var all := before + s + after;
    TrimStartOf(before, s + after);
    assert all == before + (s + after);
    TrimEndOf(s, after);
  }

  lemma {:induction false} TrimStartOf(before: string, s: string)
    requires s != "" && !IsSpace(s[0]) && (forall c <- before :: IsSpace(c))
    ensures TrimStart(before + s, IsSpace) == s
  {
    if before == "" { assert before + s == s; } else {
      assert (before + s)[1..] == before[1..] + s;
      TrimStartOf(before[1..], s);
    }
  }

  lemma {:induction false} TrimEndOf(s: string, after: string)
    requires s != "" && !IsSpace(s[|s| - 1]) && (forall c <- after :: IsSpace(c))
    ensures TrimEnd(s + after, IsSpace) == s
  {
    if after == "" { assert s + after == s; } else {
      assert (s + after)[..|s + after| - 1] == s + after[..|after| - 1];
      TrimEndOf(s, after[..|after| - 1]);
    }
  }

  // ------------------------------------------------------------------ what is promised

  ghost predicate OnlySpace(s: string) { forall c <- s :: IsSpace(c) }

  /** What a text is read as, once white space and the prefix are off, are the eight words of its address. */
  lemma ReadsItsWords(t: AddressText)
    requires ValidText(t)
    ensures ':' in Written(t)
    ensures var groups := AllGroupsOf(Written(t));
      groups.Ok? && |groups.value| == 8 && AllGroups(groups.value) && Values(groups.value) == Words(t)
  {
    match t
    case Full(groups) => JoinedIsSpaced(groups); PlainGroups(groups);
    case Short(left, right) =>
      ShortGroups(left, right);
      FilledGroups(left, right);
  }

  lemma PlainGroups(groups: seq<string>)
    requires AllGroups(groups) && groups != []
    ensures AllGroupsOf(Join(groups, ':')) == Ok(groups)
  {
    JoinedIsSpaced(groups);
    NoDouble(Join(groups, ':'));
    GroupsOfJoined(groups);
  }

  lemma ShortGroups(left: seq<string>, right: seq<string>)
    requires AllGroups(left) && AllGroups(right) && |left| + |right| <= 7
    ensures var s := Written(Short(left, right));
      ':' in s && AllGroupsOf(s) == Ok(left + Zeros(8 - |left| - |right|) + right)
  {
    var s := Written(Short(left, right));
    ShortSplits(left, right);
    GroupsOfJoined(left);
    GroupsOfJoined(right);
    assert s[|Join(left, ':')|] == ':';
  }

  lemma NamedByValue(groups: seq<string>)
    requires AllGroups(groups)
    ensures Named(groups) == Slash64(FirstFour(Values(groups)))
  {
    TidiedAreHexes(FirstFour(groups));
    assert Values(FirstFour(groups)) == FirstFour(Values(groups));
  }

  lemma NamedByWords(t: AddressText)
    requires ValidText(t)
    ensures NormalisePlain(Written(t)) == Ok(Slash64(Words(t)[..4]))
  {
    ReadsItsWords(t);
    NamedByValue(AllGroupsOf(Written(t)).value);
  }

  /** A text that does not start with `::ffff:` is named by the first 64 bits of its address. */
  lemma UnmappedIsSlash64(t: AddressText, before: string, after: string)
    requires ValidText(t) && !Mapped(t) && OnlySpace(before) && OnlySpace(after)
    ensures Normalise(before + Written(t) + after) == Ok(Slash64(Words(t)[..4]))
  {
    WrittenIsTidy(t);
    TrimmedOf(before, Written(t), after);
    MappedStart(t);
    NamedByWords(t);
  }

  lemma {:induction false} FilledGroups(left: seq<string>, right: seq<string>)
    requires AllGroups(left) && AllGroups(right) && |left| + |right| <= 7
    ensures var groups := left + Zeros(8 - |left| - |right|) + right;
      AllGroups(groups) && Values(groups) == Words(Short(left, right))
  {
    var zeros := Zeros(8 - |left| - |right|);
    var groups := left + zeros + right;
    assert "0"[..|"0"| - 1] == "";
    assert GroupValue("0") == 0;
    forall i | 0 <= i < |groups| ensures IsGroup(groups[i]) && GroupValue(groups[i]) == Words(Short(left, right))[i] {
      if |left| <= i < |left| + |zeros| { assert groups[i] == "0"; }
    }
  }

  /**
   * Two such texts get one name exactly when the first 64 bits of their addresses are the same, however
   * they place their `::`, their capitals and their leading zeros.
   */
  lemma {:induction false} SameNameIffSame64(t: AddressText, u: AddressText)
    requires ValidText(t) && ValidText(u) && !Mapped(t) && !Mapped(u)
    ensures Normalise(Written(t)) == Normalise(Written(u)) <==> Words(t)[..4] == Words(u)[..4]
  {
    AloneIsSlash64(t);
    AloneIsSlash64(u);
    var (a, b) := (Words(t)[..4], Words(u)[..4]);
    assert Normalise(Written(t)) == Ok(Slash64(a)) && Normalise(Written(u)) == Ok(Slash64(b));
    if Slash64(a) == Slash64(b) { Slash64Injective(a, b); }
  }

  lemma AloneIsSlash64(t: AddressText)
    requires ValidText(t) && !Mapped(t)
    ensures Normalise(Written(t)) == Ok(Slash64(Words(t)[..4]))
  {
    UnmappedIsSlash64(t, "", "");
    assert "" + Written(t) + "" == Written(t);
  }

  lemma Slash64Injective(a: seq<nat>, b: seq<nat>)
    requires |a| > 0 && |b| > 0 && Slash64(a) == Slash64(b)
    ensures a == b
  {
    var (x, y) := (Join(Hexes(a), ':'), Join(Hexes(b), ':'));
    assert |x| == |y|;
    assert (x + SUFFIX)[..|x|] == x && (y + SUFFIX)[..|y|] == y;
    HexesFree(a);
    HexesFree(b);
    SplitJoin(Hexes(a), ':');
    SplitJoin(Hexes(b), ':');
    assert Hexes(a) == Hexes(b);
    forall i | 0 <= i < |a| ensures a[i] == b[i] {
      assert Hexes(a)[i] == Hexes(b)[i];
      HexInjective(a[i], b[i]);
    }
  }

  lemma HexesFree(words: seq<nat>)
    ensures Free(Hexes(words), ':')
  {
    forall i | 0 <= i < |words| ensures ':' !in Hexes(words)[i] { HexIsCanonical(words[i]); }
  }

  lemma NameIsPlain(groups: seq<string>)
    requires AllGroups(groups) && groups != []
    ensures var s := Join(groups, ':') + SUFFIX; ':' in s && !StartsMapped(s) && Trim(s, IsSpace) == s
  {
    var front := Join(groups, ':');
    var s := front + SUFFIX;
    JoinedIsSpaced(groups);
    assert s[0] == front[0] && s[|front|] == ':';
    StartsWithoutColon(s);
    forall c | c in s ensures !IsSpace(c) { assert c in front || c in SUFFIX; }
    assert s == "" + s + "";
    TrimmedOf("", s, "");
  }

  /** A name of up to four groups is read back as those, and zeros up to four. */
  lemma NameReadsBack(groups: seq<string>)
    requires 1 <= |groups| <= 4 && AllGroups(groups)
    ensures var s := Join(groups, ':') + SUFFIX;
      AllGroupsOf(s).Ok? && FirstFour(AllGroupsOf(s).value) == groups + Zeros(4 - |groups|)
  {
    NameSplits(groups);
    GroupsOfJoined(groups);
    SplitOfPlain("/64", ':');
    FirstFourFilled(groups);
  }

  lemma NameSplits(groups: seq<string>)
    requires groups != [] && AllGroups(groups)
    ensures var (front, s) := (Join(groups, ':'), Join(groups, ':') + SUFFIX);
      DoubleAt(s) < |s| && SplitDouble(s) == (front, "/64")
  {
    var front := Join(groups, ':');
    var s := front + SUFFIX;
    JoinedIsSpaced(groups);
    assert s == front + "::" + "/64";
    FirstDouble(front, "/64");
    NoDouble("/64");
    assert s[|front| + 2..] == "/64" && s[..|front|] == front && "/64"[..|"/64"|] == "/64";
  }

  lemma FirstFourFilled(groups: seq<string>)
    requires |groups| <= 4
    ensures FirstFour(groups + Zeros(7 - |groups|) + ["/64"]) == groups + Zeros(4 - |groups|)
  {}

  /** Naming a name of up to four words fills it up with zeros. */
  lemma NameOfName(words: seq<nat>)
    requires 1 <= |words| <= 4 && forall i :: 0 <= i < |words| ==> words[i] < 0x1_0000
    ensures Normalise(Slash64(words)) == Ok(Slash64(words + seq(4 - |words|, _ => 0)))
  {
    var groups := Hexes(words);
    var filled := groups + Zeros(4 - |groups|);
    HexesAreGroups(words);
    NameIsPlain(groups);
    NameReadsBack(groups);
    assert AllGroups(filled) by { assert IsGroup("0"); }
    TidiedAreHexes(filled);
    assert "0"[..|"0"| - 1] == "" && GroupValue("0") == 0;
    forall i | 0 <= i < |words| ensures GroupValue(filled[i]) == words[i] { HexIsCanonical(words[i]); }
    assert Values(filled) == words + seq(4 - |words|, _ => 0);
  }

  lemma HexesAreGroups(words: seq<nat>)
    requires forall i :: 0 <= i < |words| ==> words[i] < 0x1_0000
    ensures AllGroups(Hexes(words))
  {
    forall i | 0 <= i < |words| ensures IsGroup(Hexes(words)[i]) {
      HexIsCanonical(words[i]);
      HexIsShort(words[i]);
    }
  }

  /** The words a valid text is named by. */
  function NamedWords(t: AddressText): (words: seq<nat>)
    requires ValidText(t) && !(Mapped(t) && |t.right| == 2)
    ensures 2 <= |words| <= 4
  {
    if Mapped(t) then FirstFour(Values(t.right[1..])) else Words(t)[..4]
  }

  lemma NamedWordsAreSmall(t: AddressText)
    requires ValidText(t) && !(Mapped(t) && |t.right| == 2)
    ensures forall i :: 0 <= i < |NamedWords(t)| ==> NamedWords(t)[i] < 0x1_0000
  {
    forall i | 0 <= i < |NamedWords(t)| ensures NamedWords(t)[i] < 0x1_0000 {
      if Mapped(t) {
        assert NamedWords(t)[i] == GroupValue(t.right[i + 1]);
        GroupIsSmall(t.right[i + 1]);
      } else {
        WordsAreSmall(t, i);
      }
    }
  }

  lemma NamedByNamedWords(t: AddressText)
    requires ValidText(t) && !(Mapped(t) && |t.right| == 2)
    ensures Normalise(Written(t)) == Ok(Slash64(NamedWords(t)))
  {
    if Mapped(t) { MappedAnswer(t); } else { AloneIsSlash64(t); }
  }

  /**
   * Naming the name of a valid text again changes nothing, exactly when the text is not cut, or one group or at least
   * four are left of it.
   */
  lemma NormaliseIdempotentIff(t: AddressText)
    requires ValidText(t)
    ensures var name := Normalise(Written(t));
      name.Ok? && (Normalise(name.value) == name <==> !(Mapped(t) && 3 <= |t.right| <= 4))
  {
    if Mapped(t) && |t.right| == 2 {
      MappedAnswer(t);
      GroupIsItself(t.right[1]);
    } else {
      var words := NamedWords(t);
      NamedByNamedWords(t);
      NamedWordsAreSmall(t);
      NameOfName(words);
      var filled := words + seq(4 - |words|, _ => 0);
      if |words| < 4 {
        if Slash64(words) == Slash64(filled) { Slash64Injective(words, filled); }
      } else {
        assert filled == words;
      }
    }
  }

  lemma GroupIsItself(g: string)
    requires IsGroup(g)
    ensures Normalise(g) == Ok(g)
  {
    Ipv4IsItself(g);
  }

  lemma HexIsShort(n: nat)
    requires n < 0x1_0000
    ensures |Hex(n)| <= 4
  {
    assert n / 16 < 0x1000 && n / 16 / 16 < 0x100 && n / 16 / 16 / 16 < 16;
    assert n >= 16 ==> |Hex(n)| == |Hex(n / 16)| + 1;
    assert n / 16 >= 16 ==> |Hex(n / 16)| == |Hex(n / 16 / 16)| + 1;
    assert n / 16 / 16 >= 16 ==> |Hex(n / 16 / 16)| == |Hex(n / 16 / 16 / 16)| + 1;
  }

  lemma {:induction false} GroupIsSmall(g: string)
    requires AllHex(g) && |g| <= 4
    ensures GroupValue(g) < [1, 0x10, 0x100, 0x1000, 0x1_0000][|g|]
  {
    if g != "" { GroupIsSmall(g[..|g| - 1]); }
  }

  lemma WordsAreSmall(t: AddressText, i: nat)
    requires ValidText(t) && i < 8
    ensures Words(t)[i] < 0x1_0000
  {
    match t
    case Full(groups) => GroupIsSmall(groups[i]);
    case Short(left, right) =>
      if i < |left| { GroupIsSmall(left[i]); }
      if i >= 8 - |right| { GroupIsSmall(right[i - (8 - |right|)]); }
  }

  /** An IPv4 text is named by itself, with or without the prefix IPv6 gives it. */
  lemma Ipv4IsItself(text: string)
    requires text != "" && ':' !in text && forall c <- text :: !IsSpace(c)
    ensures Normalise(text) == Ok(text) && Normalise(MAPPED + text) == Ok(text)
  {
    TrimmedOf("", text, "");
    assert "" + text + "" == text;
    assert text[0] in text;
    StartsWithoutColon(text);
    MappedPrefixGoes(text);
  }

  lemma MappedPrefixGoes(text: string)
    requires text != "" && ':' !in text && forall c <- text :: !IsSpace(c)
    ensures Normalise(MAPPED + text) == Ok(text)
  {
    var mapped := MAPPED + text;
    assert "" + mapped + "" == mapped;
    forall c | c in mapped ensures !IsSpace(c) { assert c in MAPPED || c in text; }
    TrimmedOf("", mapped, "");
    assert mapped[..7] == MAPPED && mapped[7..] == text && Lower(MAPPED) == MAPPED;
  }

  // ------------------------------------------------------------------ texts that start with ::ffff:

  /** After `::ffff:` come the only words for which cutting it off happens to be right. */
  predicate LuckyRest(rest: seq<nat>) {
    || (|rest| == 4 && rest == [0, 0, 0, 0xffff])
    || (|rest| == 5 && rest[..4] == [0, 0, 0xffff, 0])
    || (|rest| == 6 && rest[..4] == [0, 0xffff, 0, 0xffff])
  }

  lemma MappedAnswer(t: AddressText)
    requires ValidText(t) && Mapped(t)
    ensures Normalise(Written(t)) == Ok(if |t.right| == 2 then t.right[1] else Slash64(FirstFour(Values(t.right[1..]))))
  {
    var rest := t.right[1..];
    var s := Join(rest, ':');
    WrittenIsTidy(t);
    assert "" + Written(t) + "" == Written(t);
    TrimmedOf("", Written(t), "");
    MappedStart(t);
    assert Normalise(Written(t)) == NormalisePlain(s);
    JoinedIsSpaced(rest);
    if |rest| > 1 {
      PlainGroups(rest);
      NamedByValue(rest);
    }
  }

  lemma MappedWords(t: AddressText)
    requires ValidText(t) && Mapped(t)
    ensures var (words, rest) := (Words(t), Values(t.right[1..]));
      && |rest| <= 6
      && (forall i :: 0 <= i < 8 ==> words[i] == if i < 7 - |rest| then 0
        else if i == 7 - |rest| then 0xffff else rest[i - 8 + |rest|])
  {
    var g := t.right[0];
    assert IsGroup(g);
    TidiedIsHex(g);
    assert WithoutZeros("ffff") == "ffff";
    assert Hex(0xf) == "f" && Hex(0xff) == "ff" && Hex(0xfff) == "fff" && Hex(0xffff) == "ffff";
    HexInjective(GroupValue(g), 0xffff);
    var (words, rest) := (Words(t), Values(t.right[1..]));
    forall i | 0 <= i < 8
      ensures words[i] == if i < 7 - |rest| then 0 else if i == 7 - |rest| then 0xffff else rest[i - 8 + |rest|]
    {
      if i >= 8 - |rest| { assert t.right[1..][i - 8 + |rest|] == t.right[i - 7 + |rest|]; }
    }
  }

  lemma LuckyIff(words: seq<nat>, rest: seq<nat>)
    requires |words| == 8 && 1 <= |rest| <= 6
    requires forall i :: 0 <= i < 8 ==>
      words[i] == if i < 7 - |rest| then 0 else if i == 7 - |rest| then 0xffff else rest[i - 8 + |rest|]
    ensures FirstFour(rest) == words[..4] <==> LuckyRest(rest)
  {
    if |rest| >= 4 {
      assert FirstFour(rest) == [rest[0], rest[1], rest[2], rest[3]];
      assert words[..4] == [words[0], words[1], words[2], words[3]];
    }
  }

  /**
   * A valid text of hexadecimal groups that starts with `::ffff:` loses its prefix, and is then named by
   * its first 64 bits only in three odd cases; every other valid text is named rightly.
   */
  lemma NamedRightlyIff(t: AddressText)
    requires ValidText(t)
    ensures Normalise(Written(t)) == Ok(Slash64(Words(t)[..4])) <==> !Mapped(t) || LuckyRest(Values(t.right[1..]))
  {
    if !Mapped(t) {
      AloneIsSlash64(t);
    } else {
      MappedAnswer(t);
      MappedWords(t);
      var values := Values(t.right[1..]);
      LuckyIff(Words(t), values);
      if |values| == 1 {
        GroupIsNoName(t.right[1], Words(t)[..4]);
      } else if Slash64(FirstFour(values)) == Slash64(Words(t)[..4]) {
        Slash64Injective(FirstFour(values), Words(t)[..4]);
      }
    }
  }

  lemma GroupIsNoName(g: string, words: seq<nat>)
    requires IsGroup(g)
    ensures g != Slash64(words)
  {
    assert Slash64(words)[|Slash64(words)| - 4] == ':';
  }

  /** Writing one zero group in front of the `::` names the same address, and then it is named rightly. */
  lemma ZeroInFront(t: AddressText)
    requires ValidText(t) && Mapped(t) && |t.right| <= 6
    ensures var u := Short(["0"], t.right);
      && ValidText(u) && Words(u) == Words(t) && !Mapped(u)
      && (Normalise(Written(u)) == Normalise(Written(t)) <==> LuckyRest(Values(t.right[1..])))
  {
    var u := Short(["0"], t.right);
    assert GroupValue("0") == 0 by { assert "0"[..|"0"| - 1] == ""; }
    assert Values(["0"]) == [0];
    forall i | 0 <= i < 8 ensures Words(u)[i] == Words(t)[i] {}
    NamedRightlyIff(t);
    NamedRightlyIff(u);
  }

  /** `::ffff:1:2` and `0::ffff:1:2` are one address with two names. */
  lemma MappedExample()
    ensures Normalise(Written(Short([], ["ffff", "1", "2"]))) != Normalise(Written(Short(["0"], ["ffff", "1", "2"])))
  {
    var t := Short([], ["ffff", "1", "2"]);
    assert Lower("ffff") == "ffff";
    assert |Values(t.right[1..])| == 2;
    ZeroInFront(t);
  }
}
