/** Reading a `.env` file, and writing new values into it without disturbing the rest. */
module EnvFile {
  import opened Basics
  import opened Texts
  import opened CodeUnits
  import opened JsonText

  const NEWLINE: CodeUnit := 10
  const RETURN: CodeUnit := 13
  const EQUALS: CodeUnit := 0x3D
  const APOSTROPHE: CodeUnit := 0x27
  const HASH: CodeUnit := 0x23
  /** `export` */
  const EXPORT: Units := [0x65, 0x78, 0x70, 0x6F, 0x72, 0x74]
  /** `__proto__`, which an object literal does not take as a key. */
  const PROTO: Units := [0x5F, 0x5F, 0x70, 0x72, 0x6F, 0x74, 0x6F, 0x5F, 0x5F]

  predicate IsBlank(c: CodeUnit) {
    c == 0x20 || 9 <= c <= 13 || c == 0xA0 || c == 0x1680 || 0x2000 <= c <= 0x200A || c == 0x2028 || c == 0x2029 ||
    c == 0x202F || c == 0x205F || c == 0x3000 || c == 0xFEFF
  }

  /** What a dot in a pattern does not match. */
  predicate IsTerminator(c: CodeUnit) { c == NEWLINE || c == RETURN || c == 0x2028 || c == 0x2029 }

  predicate StartsName(c: CodeUnit) { 0x41 <= c <= 0x5A || 0x61 <= c <= 0x7A || c == 0x5F }
  predicate InName(c: CodeUnit) { StartsName(c) || 0x30 <= c <= 0x39 }

  // ------------------------------------------------------------------ one line

  function SkipBlanks(s: Units, i: nat): (j: nat)
    requires i <= |s|
    ensures i <= j <= |s| && (j < |s| ==> !IsBlank(s[j]))
    decreases |s| - i
  {
    if i < |s| && IsBlank(s[i]) then SkipBlanks(s, i + 1) else i
  }

  function SkipName(s: Units, i: nat): (j: nat)
    requires i <= |s|
    ensures i <= j <= |s|
    decreases |s| - i
  {
    if i < |s| && InName(s[i]) then SkipName(s, i + 1) else i
  }

  /** A key and where its value starts: just after the equals sign. */
  datatype Assignment = Assignment(key: Units, after: nat)

  function NameAndEquals(s: Units, i: nat): (a: Option<Assignment>)
    requires i <= |s|
    ensures a.Some? ==> a.value.after <= |s|
  {
    var e := SkipName(s, i);
    var k := SkipBlanks(s, e);
    if i < |s| && StartsName(s[i]) && k < |s| && s[k] == EQUALS then Some(Assignment(s[i..e], k + 1)) else None
  }

  /** `^\s*(?:export\s+)?([A-Za-z_][A-Za-z0-9_]*)\s*=` */
  function AssignmentOf(line: Units): (a: Option<Assignment>)
    ensures a.Some? ==> a.value.after <= |line|
  {
    var i := SkipBlanks(line, 0);
    if i + 6 < |line| && line[i..i + 6] == EXPORT && IsBlank(line[i + 6])
      && NameAndEquals(line, SkipBlanks(line, i + 6)).Some?
    then NameAndEquals(line, SkipBlanks(line, i + 6))
    else NameAndEquals(line, i)
  }

  function KeyOf(line: Units): Option<Units> {
    match AssignmentOf(line) case None => None case Some(a) => Some(a.key)
  }

  /** `replace(/\s+#.*$/, '')`: from the first blanks before a `#` that runs to the end of the text. */
  function WithoutComment(s: Units, from: nat): Units
    requires from <= |s|
    decreases |s| - from
  {
    if from == |s| then s
    else
      var q := SkipBlanks(s, from);
      if from < q < |s| && s[q] == HASH && (forall c <- s[q + 1..] :: !IsTerminator(c)) then s[..from]
      else WithoutComment(s, from + 1)
  }

  function Decoded(raw: Units): Units {
    var value := Trim(raw, IsBlank);
    if value == [] then value
    else if value[0] == QUOTE then match Unquoted(value[1..]) case None => value case Some(text) => text
    else if value[0] == APOSTROPHE && value[|value| - 1] == APOSTROPHE then
      if |value| == 1 then [] else value[1..|value| - 1]
    else WithoutComment(value, 0)
  }

  datatype Pair = Pair(key: Units, value: Units)

  /** What one line sets: the pattern also needs the value to run to the end of the line. */
  function Reads(line: Units): Option<Pair> {
    match AssignmentOf(line)
    case None => None
    case Some(a) =>
      var raw := line[SkipBlanks(line, a.after)..];
      if exists c <- raw :: IsTerminator(c) then None else Some(Pair(a.key, Decoded(raw)))
  }

  // ------------------------------------------------------------------ lines

  /** `split(/\r?\n/)` */
  function SplitLines(s: Units): (lines: seq<Units>)
    ensures |lines| >= 1
    decreases |s|
  {
    if s == [] then [[]]
    else if s[0] == NEWLINE then [[]] + SplitLines(s[1..])
    else if |s| >= 2 && s[0] == RETURN && s[1] == NEWLINE then [[]] + SplitLines(s[2..])
    else
      var rest := SplitLines(s[1..]);
      [[s[0]] + rest[0]] + rest[1..]
  }

  /** `replace(/\r\n/g, '\n')` */
  function WithoutReturns(s: Units): Units
    decreases |s|
  {
    if s == [] then []
    else if |s| >= 2 && s[0] == RETURN && s[1] == NEWLINE then [NEWLINE] + WithoutReturns(s[2..])
    else [s[0]] + WithoutReturns(s[1..])
  }

  /** `replace(/\n$/, '')` */
  function WithoutLastNewline(s: Units): Units {
    if s != [] && s[|s| - 1] == NEWLINE then s[..|s| - 1] else s
  }

  /** The lines `updateEnv` walks. */
  function LinesToUpdate(source: Units): seq<Units> {
    if source == [] then [] else Split(WithoutLastNewline(WithoutReturns(source)), NEWLINE)
  }

  // ------------------------------------------------------------------ reading

  function ReadAll(lines: seq<Units>): seq<Option<Pair>> {
    seq(|lines|, i requires 0 <= i < |lines| => Reads(lines[i]))
  }

  /** The value of the last assignment to a key. */
  function LastValue(settings: seq<Option<Pair>>, key: Units): Option<Units> {
    if settings == [] then None
    else
      var read := settings[|settings| - 1];
      if read.Some? && read.value.key == key then Some(read.value.value) else LastValue(settings[..|settings| - 1], key)
  }

  /** The value a list of lines gives a key: that of the last line that sets it. */
  function ValueAt(lines: seq<Units>, key: Units): Option<Units> { LastValue(ReadAll(lines), key) }

  /** `values` holds exactly what the lines give, but never `__proto__`. */
  ghost predicate HoldsValues(values: map<Units, Units>, lines: seq<Units>) {
    forall key: Units :: (key in values <==> key != PROTO && ValueAt(lines, key).Some?) &&
                         (key in values ==> ValueAt(lines, key) == Some(values[key]))
  }

  /** `envValues` */
  method EnvValues(source: Units) returns (values: map<Units, Units>)
    ensures HoldsValues(values, SplitLines(source))
  {
    values := map[];
    var lines := SplitLines(source);
    for i := 0 to |lines|
      invariant HoldsValues(values, lines[..i])
    {
      var read := Reads(lines[i]);
      assert ReadAll(lines[..i + 1])[..i] == ReadAll(lines[..i]);
      if read.Some? && read.value.key != PROTO { values := values[read.value.key := read.value.value]; }
    }
    assert lines[..|lines|] == lines;
  }

  // ------------------------------------------------------------------ writing

  function Line(pair: Pair): Units { pair.key + [EQUALS] + Quoted(pair.value) }

  function Lookup(pairs: seq<Pair>, key: Units): Option<Units> {
    if pairs == [] then None else if pairs[0].key == key then Some(pairs[0].value) else Lookup(pairs[1..], key)
  }

  function Assigns(lines: seq<Units>, key: Units): bool { exists i :: 0 <= i < |lines| && KeyOf(lines[i]) == Some(key) }

  /** The updates no line has taken yet, in their order. */
  function LeftOver(updates: seq<Pair>, lines: seq<Units>): seq<Pair> {
    if updates == [] then []
    else if Assigns(lines, updates[0].key) then LeftOver(updates[1..], lines)
    else [updates[0]] + LeftOver(updates[1..], lines)
  }

  /** Line `i` afterwards: the first line of an updated key is written anew, every other line stays. */
  function LineAfter(lines: seq<Units>, updates: seq<Pair>, i: nat): Units
    requires i < |lines|
  {
    match KeyOf(lines[i])
    case None => lines[i]
    case Some(key) =>
      if Lookup(updates, key).Some? && !Assigns(lines[..i], key) then Line(Pair(key, Lookup(updates, key).value))
      else lines[i]
  }

  function Rewritten(lines: seq<Units>, updates: seq<Pair>): seq<Units> {
    seq(|lines|, i requires 0 <= i < |lines| => LineAfter(lines, updates, i))
  }

  function Appended(updates: seq<Pair>): seq<Units> {
    seq(|updates|, i requires 0 <= i < |updates| => Line(updates[i]))
  }

  function LinesAfter(lines: seq<Units>, updates: seq<Pair>): seq<Units> {
    Rewritten(lines, updates) + Appended(LeftOver(updates, lines))
  }

  function Updated(source: Units, updates: seq<Pair>): Units {
    Join(LinesAfter(LinesToUpdate(source), updates), NEWLINE) + [NEWLINE]
  }

  function Without(pairs: seq<Pair>, key: Units): seq<Pair> {
    if pairs == [] then []
    else if pairs[0].key == key then Without(pairs[1..], key)
    else [pairs[0]] + Without(pairs[1..], key)
  }

  lemma AssignsMore(lines: seq<Units>, line: Units, key: Units)
    ensures Assigns(lines + [line], key) <==> Assigns(lines, key) || KeyOf(line) == Some(key)
  {
    assert (lines + [line])[|lines|] == line;
    if Assigns(lines, key) {
      var i :| 0 <= i < |lines| && KeyOf(lines[i]) == Some(key);
      assert (lines + [line])[i] == lines[i];
    }
  }

  lemma {:induction false} LeftOverAfterLine(updates: seq<Pair>, lines: seq<Units>, line: Units)
    ensures LeftOver(updates, lines + [line]) ==
            if KeyOf(line).Some? then Without(LeftOver(updates, lines), KeyOf(line).value) else LeftOver(updates, lines)
  {
    if updates != [] {
      LeftOverAfterLine(updates[1..], lines, line);
      AssignsMore(lines, line, updates[0].key);
    }
  }

  lemma {:induction false} LookupInLeftOver(updates: seq<Pair>, lines: seq<Units>, key: Units)
    ensures Lookup(LeftOver(updates, lines), key) == if Assigns(lines, key) then None else Lookup(updates, key)
  {
    if updates != [] { LookupInLeftOver(updates[1..], lines, key); }
  }

  lemma {:induction false} NothingTaken(updates: seq<Pair>)
    ensures LeftOver(updates, []) == updates
  {
    if updates != [] { NothingTaken(updates[1..]); }
  }

  /** What one step of the walk does to the line and to what remains. */
  lemma {:induction false} WalkStep(lines: seq<Units>, updates: seq<Pair>, i: nat)
    requires i < |lines|
    ensures var (remaining, key) := (LeftOver(updates, lines[..i]), KeyOf(lines[i]));
      if key.None? || Lookup(remaining, key.value).None? then
        LineAfter(lines, updates, i) == lines[i] && LeftOver(updates, lines[..i + 1]) == remaining
      else
        LineAfter(lines, updates, i) == Line(Pair(key.value, Lookup(remaining, key.value).value)) &&
        LeftOver(updates, lines[..i + 1]) == Without(remaining, key.value)
  {
    var key := KeyOf(lines[i]);
    assert lines[..i + 1] == lines[..i] + [lines[i]];
    LeftOverAfterLine(updates, lines[..i], lines[i]);
    if key.Some? {
      LookupInLeftOver(updates, lines[..i], key.value);
      if Lookup(LeftOver(updates, lines[..i]), key.value).None? {
        NothingToTake(LeftOver(updates, lines[..i]), key.value);
      }
    }
  }

  lemma RewrittenNext(lines: seq<Units>, updates: seq<Pair>, i: nat)
    requires i < |lines|
    ensures Rewritten(lines, updates)[..i + 1] == Rewritten(lines, updates)[..i] + [LineAfter(lines, updates, i)]
  {}

  /** The last loop of `updateEnv`: what no line took gets a line of its own. */
  method AppendLines(lines: seq<Units>, remaining: seq<Pair>) returns (next: seq<Units>)
    ensures next == lines + Appended(remaining)
  {
    next := lines;
    for i := 0 to |remaining|
      invariant next == lines + Appended(remaining[..i])
    {
      assert Appended(remaining[..i + 1]) == Appended(remaining[..i]) + [Line(remaining[i])];
      next := next + [Line(remaining[i])];
    }
    assert remaining[..|remaining|] == remaining;
  }

  /** The walk of `updateEnv`: each updated key is written on its first line and taken out of what remains. */
  method UpdateEnv(source: Units, updates: seq<Pair>) returns (text: Units)
    ensures text == Updated(source, updates)
  {
    var remaining := updates;
    var lines := LinesToUpdate(source);
    var next: seq<Units> := [];
    NothingTaken(updates);
    for i := 0 to |lines|
      invariant next == Rewritten(lines, updates)[..i]
      invariant remaining == LeftOver(updates, lines[..i])
    {
      var key := KeyOf(lines[i]);
      WalkStep(lines, updates, i);
      RewrittenNext(lines, updates, i);
      if key.None? || Lookup(remaining, key.value).None? {
        next := next + [lines[i]];
      } else {
        next := next + [Line(Pair(key.value, Lookup(remaining, key.value).value))];
        remaining := Without(remaining, key.value);
      }
    }
    assert lines[..|lines|] == lines;
    assert Rewritten(lines, updates)[..|lines|] == Rewritten(lines, updates);
    next := AppendLines(next, remaining);
    text := Join(next, NEWLINE) + [NEWLINE];
  }

  lemma {:induction false} NothingToTake(pairs: seq<Pair>, key: Units)
    requires Lookup(pairs, key).None?
    ensures Without(pairs, key) == pairs
  {
    if pairs != [] { NothingToTake(pairs[1..], key); }
  }

  // ------------------------------------------------------------------ a written line is read back

  predicate ValidKey(key: Units) {
    key != [] && key != PROTO && StartsName(key[0]) && forall c <- key :: InName(c)
  }

  /** A value the reader's pattern can run across. */
  predicate Readable(value: Units) { 0x2028 !in value && 0x2029 !in value }

  lemma {:induction false} SkipWholeName(name: Units, i: nat, rest: Units)
    requires i <= |name| && (forall c <- name :: InName(c)) && (rest == [] || !InName(rest[0]))
    ensures SkipName(name + rest, i) == |name|
    decreases |name| - i
  {
    if i < |name| { SkipWholeName(name, i + 1, rest); }
  }

  lemma QuotedIsPlain(value: Units)
    requires Readable(value)
    ensures forall c <- Quoted(value) :: !IsTerminator(c)
  {
    BodyLetters(value);
  }

  lemma QuotedIsDecoded(value: Units)
    ensures Decoded(Quoted(value)) == value
  {
    var q := Quoted(value);
    assert q[0] == QUOTE && q[|q| - 1] == QUOTE;
    assert Trim(q, IsBlank) == q;
    ReadsBack(value);
    assert q[1..] == Body(value) + [QUOTE];
  }

  /** A value written without quotes: it has no blank at its ends, no quote in front, and no `#` after a blank. */
  predicate IsBare(value: Units) {
    && value != [] && value[0] != QUOTE
    && !IsBlank(value[0]) && !IsBlank(value[|value| - 1])
    && forall k :: 0 < k < |value| && value[k] == HASH ==> !IsBlank(value[k - 1])
  }

  predicate AllBlank(s: Units) { forall c <- s :: IsBlank(c) }

  lemma {:induction false} SkippedAreBlank(s: Units, i: nat)
    requires i <= |s|
    ensures forall k :: i <= k < SkipBlanks(s, i) ==> IsBlank(s[k])
    decreases |s| - i
  {
    if i < |s| && IsBlank(s[i]) { SkippedAreBlank(s, i + 1); }
  }

  /** No comment starts within a bare value. */
  lemma NoCommentInBare(value: Units, rest: Units, from: nat)
    requires IsBare(value) && from < |value|
    ensures var (s, q) := (value + rest, SkipBlanks(value + rest, from)); from < q < |s| ==> s[q] != HASH
  {
    var (s, q) := (value + rest, SkipBlanks(value + rest, from));
    SkippedAreBlank(s, from);
    assert s[|value| - 1] == value[|value| - 1];
    if from < q { assert IsBlank(s[q - 1]) && s[q - 1] == value[q - 1] && (q < |value| ==> s[q] == value[q]); }
  }

  /** Nothing is cut out of a bare value; what follows it is cut off when it is a comment. */
  lemma {:induction false} BareHasNoComment(value: Units, rest: Units, from: nat)
    requires IsBare(value) && from <= |value|
    ensures WithoutComment(value + rest, from) == WithoutComment(value + rest, |value|)
    decreases |value| - from
  {
    if from < |value| {
      NoCommentInBare(value, rest, from);
      BareHasNoComment(value, rest, from + 1);
    }
  }

  lemma {:induction false} SkipAllBlanks(s: Units, i: nat, j: nat)
    requires i <= j <= |s| && (forall k :: i <= k < j ==> IsBlank(s[k])) && (j < |s| ==> !IsBlank(s[j]))
    ensures SkipBlanks(s, i) == j
    decreases j - i
  {
    if i < j { SkipAllBlanks(s, i + 1, j); }
  }

  lemma {:induction false} TrimEndOf(front: Units, c: CodeUnit, back: Units)
    requires !IsBlank(c)
    ensures TrimEnd(front + [c] + back, IsBlank) == front + [c] + TrimEnd(back, IsBlank)
  {
    var s := front + [c] + back;
    if back != [] && IsBlank(back[|back| - 1]) {
      assert s[..|s| - 1] == front + [c] + back[..|back| - 1];
      TrimEndOf(front, c, back[..|back| - 1]);
    }
  }

  lemma {:induction false} TrimEndBlank(s: Units)
    requires AllBlank(s)
    ensures TrimEnd(s, IsBlank) == []
  {
    if s != [] {
      assert s[|s| - 1] in s;
      TrimEndBlank(s[..|s| - 1]);
    }
  }

  lemma {:induction false} TrimEndLetters(s: Units)
    ensures forall c <- TrimEnd(s, IsBlank) :: c in s
  {
    if s != [] && IsBlank(s[|s| - 1]) { TrimEndLetters(s[..|s| - 1]); }
  }

  lemma TrimBare(value: Units, rest: Units)
    requires IsBare(value)
    ensures Trim(value + rest, IsBlank) == value + TrimEnd(rest, IsBlank)
  {
    var (front, last) := (value[..|value| - 1], value[|value| - 1]);
    assert value == front + [last] && value + rest == front + [last] + rest;
    TrimEndOf(front, last, rest);
  }

  /** A value without quotes is what it says, and the blanks after it are not part of it. */
  lemma BareIsDecoded(value: Units, blanks: Units)
    requires IsBare(value) && AllBlank(blanks) && (value[0] == APOSTROPHE ==> value[|value| - 1] != APOSTROPHE)
    ensures Decoded(value + blanks) == value
  {
    TrimBare(value, blanks);
    TrimEndBlank(blanks);
    BareHasNoComment(value, [], 0);
    assert value + [] == value;
  }

  /** Blanks, a `#` and the rest of the line. */
  function Comment(blanks: Units, text: Units): Units { blanks + [HASH] + text }

  lemma CutAt(s: Units, from: nat, q: nat)
    requires from < q < |s| && (forall k :: from <= k < q ==> IsBlank(s[k])) && s[q] == HASH
    requires forall c <- s[q + 1..] :: !IsTerminator(c)
    ensures WithoutComment(s, from) == s[..from]
  {
    SkipAllBlanks(s, from, q);
  }

  lemma CommentIsCut(value: Units, blanks: Units, text: Units)
    requires blanks != [] && AllBlank(blanks) && forall c <- text :: !IsTerminator(c)
    ensures WithoutComment(value + Comment(blanks, text), |value|) == value
  {
    var (s, q) := (value + Comment(blanks, text), |value| + |blanks|);
    forall k | |value| <= k < q ensures IsBlank(s[k]) { assert s[k] == blanks[k - |value|]; }
    assert s[q] == HASH && s[q + 1..] == text && s[..|value|] == value;
    CutAt(s, |value|, q);
  }

  /** The last that is no blank is an apostrophe. */
  predicate EndsInApostrophe(text: Units) {
    exists k :: 0 <= k < |text| && text[k] == APOSTROPHE && AllBlank(text[k + 1..])
  }

  lemma {:induction false} TrimmedEnd(text: Units)
    ensures var trimmed := TrimEnd(text, IsBlank);
      trimmed != [] ==>
        && |trimmed| <= |text| && text[|trimmed| - 1] == trimmed[|trimmed| - 1]
        && AllBlank(text[|trimmed|..])
  {
    if text != [] && IsBlank(text[|text| - 1]) {
      var front := text[..|text| - 1];
      var trimmed := TrimEnd(front, IsBlank);
      TrimmedEnd(front);
      if trimmed != [] { assert text[|trimmed|..] == front[|trimmed|..] + [text[|text| - 1]]; }
    }
  }

  /** Nor is a comment after it, set off by at least one blank. */
  lemma CommentIsDropped(value: Units, blanks: Units, text: Units)
    requires IsBare(value) && blanks != [] && AllBlank(blanks) && forall c <- text :: !IsTerminator(c)
    requires value[0] == APOSTROPHE ==> !EndsInApostrophe(text)
    ensures Decoded(value + Comment(blanks, text)) == value
  {
    var trimmed := TrimEnd(text, IsBlank);
    TrimBare(value, Comment(blanks, text));
    TrimEndOf(blanks, HASH, text);
    TrimEndLetters(text);
    var kept := Comment(blanks, trimmed);
    BareHasNoComment(value, kept, 0);
    CommentIsCut(value, blanks, trimmed);
    TrimmedEnd(text);
    assert (value + kept)[0] == value[0];
    assert (value + kept)[|value + kept| - 1] == if trimmed == [] then HASH else trimmed[|trimmed| - 1];
  }

  /** Between apostrophes a value is taken as it stands. */
  lemma ApostrophesAreDropped(value: Units)
    ensures Decoded([APOSTROPHE] + value + [APOSTROPHE]) == value
  {
    var raw := [APOSTROPHE] + value + [APOSTROPHE];
    assert raw[|raw| - 1] == APOSTROPHE && raw[0] == APOSTROPHE;
    assert Trim(raw, IsBlank) == raw;
    assert raw[1..|raw| - 1] == value;
  }

  /** Where the parts of a line that sets a key start: what stands first, its name, what follows, and its value. */
  datatype Layout = Layout(first: nat, exported: bool, name: nat, end: nat, equals: nat, value: nat)

  ghost predicate BlankFrom(line: Units, i: nat, j: nat) {
    i <= j <= |line| && forall k :: i <= k < j ==> IsBlank(line[k])
  }

  /** Blanks, and perhaps `export` and blanks. */
  ghost predicate IsLead(line: Units, first: nat, exported: bool, name: nat) {
    && BlankFrom(line, 0, first)
    && if exported then
         first + 6 < name <= |line| && line[first..first + 6] == EXPORT && BlankFrom(line, first + 6, name)
       else name == first
  }

  /** A name, blanks and an equals sign. */
  ghost predicate IsNameAndEquals(line: Units, name: nat, end: nat, equals: nat) {
    && name < end <= |line| && StartsName(line[name]) && (forall k :: name <= k < end ==> InName(line[k]))
    && BlankFrom(line, end, equals) && equals < |line| && line[equals] == EQUALS
  }

  /** Blanks, perhaps `export` and blanks, a name, blanks, an equals sign, blanks, and a value to the line's end. */
  ghost predicate IsLaidOut(line: Units, at: Layout) {
    && IsLead(line, at.first, at.exported, at.name) && IsNameAndEquals(line, at.name, at.end, at.equals)
    && BlankFrom(line, at.equals + 1, at.value) && (at.value < |line| ==> !IsBlank(line[at.value]))
    && forall c <- line[at.value..] :: !IsTerminator(c)
  }

  lemma {:induction false} SkipNameTo(s: Units, i: nat, j: nat)
    requires i <= j <= |s| && (forall k :: i <= k < j ==> InName(s[k])) && (j < |s| ==> !InName(s[j]))
    ensures SkipName(s, i) == j
    decreases j - i
  {
    if i < j { SkipNameTo(s, i + 1, j); }
  }

  lemma {:induction false} SkippedAreInName(s: Units, i: nat)
    requires i <= |s|
    ensures forall k :: i <= k < SkipName(s, i) ==> InName(s[k])
    decreases |s| - i
  {
    if i < |s| && InName(s[i]) { SkippedAreInName(s, i + 1); }
  }

  lemma NameIsFound(line: Units, i: nat, end: nat, equals: nat)
    requires IsNameAndEquals(line, i, end, equals)
    ensures NameAndEquals(line, i) == Some(Assignment(line[i..end], equals + 1))
  {
    SkipNameTo(line, i, end);
    SkipAllBlanks(line, end, equals);
  }

  /** The name of a line without `export` is not taken for it, even when it is that word. */
  lemma NameIsNoExport(line: Units, at: Layout)
    requires IsLaidOut(line, at) && !at.exported
    ensures var i := at.first;
      !(i + 6 < |line| && line[i..i + 6] == EXPORT && IsBlank(line[i + 6])
        && NameAndEquals(line, SkipBlanks(line, i + 6)).Some?)
  {
    var i := at.first;
    if i + 6 < |line| && line[i..i + 6] == EXPORT && IsBlank(line[i + 6]) {
      forall k | i <= k < i + 6 ensures InName(line[k]) { assert line[k] == EXPORT[k - i]; }
      assert !InName(line[i + 6]) && !InName(line[at.end]);
      assert at.end <= i + 6;
      assert at.end >= i + 6;
      SkipAllBlanks(line, at.end, at.equals);
    }
  }

  lemma LaidOutIsAssignment(line: Units, at: Layout)
    requires IsLaidOut(line, at)
    ensures AssignmentOf(line) == Some(Assignment(line[at.name..at.end], at.equals + 1))
  {
    NameIsFound(line, at.name, at.end, at.equals);
    if at.exported {
      assert line[at.first] == line[at.first..at.first + 6][0];
      SkipAllBlanks(line, 0, at.first);
      SkipAllBlanks(line, at.first + 6, at.name);
    } else {
      SkipAllBlanks(line, 0, at.first);
      NameIsNoExport(line, at);
    }
  }

  lemma FoundIsName(line: Units, i: nat)
    requires i <= |line| && NameAndEquals(line, i).Some?
    ensures var (end, equals) := (SkipName(line, i), SkipBlanks(line, SkipName(line, i)));
      && IsNameAndEquals(line, i, end, equals)
      && NameAndEquals(line, i) == Some(Assignment(line[i..end], equals + 1))
  {
    SkippedAreInName(line, i);
    SkippedAreBlank(line, SkipName(line, i));
  }

  lemma FoundIsLead(line: Units) returns (first: nat, exported: bool, name: nat)
    requires AssignmentOf(line).Some?
    ensures IsLead(line, first, exported, name) && AssignmentOf(line) == NameAndEquals(line, name)
  {
    first := SkipBlanks(line, 0);
    SkippedAreBlank(line, 0);
    exported := first + 6 < |line| && line[first..first + 6] == EXPORT && IsBlank(line[first + 6])
      && NameAndEquals(line, SkipBlanks(line, first + 6)).Some?;
    if exported { SkippedAreBlank(line, first + 6); }
    name := if exported then SkipBlanks(line, first + 6) else first;
  }

  lemma AssignmentIsLaidOut(line: Units) returns (at: Layout)
    requires AssignmentOf(line).Some?
    requires forall c <- line[SkipBlanks(line, AssignmentOf(line).value.after)..] :: !IsTerminator(c)
    ensures IsLaidOut(line, at)
  {
    var first, exported, name := FoundIsLead(line);
    FoundIsName(line, name);
    var (end, equals) := (SkipName(line, name), SkipBlanks(line, SkipName(line, name)));
    SkippedAreBlank(line, equals + 1);
    at := Layout(first, exported, name, end, equals, SkipBlanks(line, equals + 1));
  }

  function LaidOut(line: Units, at: Layout): Pair
    requires at.name <= at.end <= |line| && at.value <= |line|
  {
    Pair(line[at.name..at.end], Decoded(line[at.value..]))
  }

  lemma ReadsAs(line: Units, a: Assignment)
    requires AssignmentOf(line) == Some(a) && forall c <- line[SkipBlanks(line, a.after)..] :: !IsTerminator(c)
    ensures Reads(line) == Some(Pair(a.key, Decoded(line[SkipBlanks(line, a.after)..])))
  {}

  lemma LaidOutReads(line: Units, at: Layout)
    requires IsLaidOut(line, at)
    ensures Reads(line) == Some(LaidOut(line, at))
  {
    LaidOutIsAssignment(line, at);
    SkipAllBlanks(line, at.equals + 1, at.value);
    ReadsAs(line, Assignment(line[at.name..at.end], at.equals + 1));
  }

  /** A line sets a key to a value exactly when it is laid out so, with that name and a value that decodes to it. */
  lemma ReadsIff(line: Units, pair: Pair)
    ensures Reads(line) == Some(pair) <==> exists at :: IsLaidOut(line, at) && pair == LaidOut(line, at)
  {
    if exists at :: IsLaidOut(line, at) && pair == LaidOut(line, at) {
      var at :| IsLaidOut(line, at) && pair == LaidOut(line, at);
      LaidOutReads(line, at);
    }
    if Reads(line) == Some(pair) {
      var at := AssignmentIsLaidOut(line);
      LaidOutReads(line, at);
    }
  }

  lemma WrittenAssignment(key: Units, value: Units)
    requires ValidKey(key) && value != []
    ensures AssignmentOf(key + [EQUALS] + value) == Some(Assignment(key, |key| + 1))
  {
    var line := key + [EQUALS] + value;
    assert key[0] in key && line[0] == key[0] && !IsBlank(line[0]);
    assert SkipBlanks(line, 0) == 0;
    NameThenEquals(key, value);
    NoExport(key, value);
  }

  lemma NameThenEquals(key: Units, value: Units)
    requires ValidKey(key)
    ensures NameAndEquals(key + [EQUALS] + value, 0) == Some(Assignment(key, |key| + 1))
  {
    var rest := [EQUALS] + value;
    var line := key + rest;
    assert line == key + [EQUALS] + value;
    assert line[0] == key[0] && line[|key|] == EQUALS;
    SkipWholeName(key, 0, rest);
    assert line[0..|key|] == key && SkipBlanks(line, |key|) == |key|;
  }

  /** A name and an equals sign are not `export` and a blank. */
  lemma NoExport(key: Units, value: Units)
    requires ValidKey(key)
    ensures var line := key + [EQUALS] + value; !(6 < |line| && line[0..6] == EXPORT && IsBlank(line[6]))
  {
    var line := key + [EQUALS] + value;
    if 6 < |key| {
      assert line[6] == key[6] && key[6] in key;
    } else if |key| < 6 < |line| {
      assert line[0..6][|key|] == EQUALS && EQUALS !in EXPORT;
    }
  }

  /** The line written for a key sets that key to that value, and nothing but a newline ends it. */
  lemma WrittenLineReads(pair: Pair)
    requires ValidKey(pair.key) && Readable(pair.value)
    ensures Reads(Line(pair)) == Some(pair) && KeyOf(Line(pair)) == Some(pair.key)
    ensures forall c <- Line(pair) :: !IsTerminator(c)
  {
    var (line, after) := (Line(pair), |pair.key| + 1);
    WrittenAssignment(pair.key, Quoted(pair.value));
    QuotedIsPlain(pair.value);
    QuotedIsDecoded(pair.value);
    assert line[after] == QUOTE && SkipBlanks(line, after) == after;
    assert line[after..] == Quoted(pair.value);
    forall c | c in line ensures !IsTerminator(c) {
      assert c in pair.key || c == EQUALS || c in Quoted(pair.value);
    }
  }

  // ------------------------------------------------------------------ lines back from the file

  lemma {:induction false} LinesOfText(s: Units)
    ensures SplitLines(s) == Split(WithoutReturns(s), NEWLINE)
    decreases |s|
  {
    if s != [] {
      LinesOfText(if |s| >= 2 && s[0] == RETURN && s[1] == NEWLINE then s[2..] else s[1..]);
    }
  }

  /** What the two functions take for the lines of a file differs at most by an empty one at the end. */
  lemma SameLines(source: Units)
    ensures var (read, walked) := (SplitLines(source), LinesToUpdate(source));
      read == walked || read == walked + [[]]
  {
    LinesOfText(source);
    var s := WithoutReturns(source);
    if source == [] {
      assert SplitLines(source) == [] + [[]];
    } else if s != [] && s[|s| - 1] == NEWLINE {
      SplitAtEnd(s[..|s| - 1]);
      assert s == s[..|s| - 1] + [NEWLINE];
    }
  }

  lemma {:induction false} SplitAtEnd(s: Units)
    ensures Split(s + [NEWLINE], NEWLINE) == Split(s, NEWLINE) + [[]]
  {
    if s == [] {
      assert (s + [NEWLINE])[1..] == [];
    } else {
      SplitAtEnd(s[1..]);
      assert (s + [NEWLINE])[1..] == s[1..] + [NEWLINE];
    }
  }

  /** No line ends in a carriage return that a newline written after it would swallow. */
  ghost predicate NoStrayReturn(lines: seq<Units>) {
    forall i :: 0 <= i < |lines| ==> lines[i] == [] || lines[i][|lines[i]| - 1] != RETURN
  }

  ghost predicate NoPair(s: Units) {
    forall i :: 0 <= i < |s| - 1 ==> !(s[i] == RETURN && s[i + 1] == NEWLINE)
  }

  lemma {:induction false} OnlyPairsGo(s: Units)
    ensures |WithoutReturns(s)| <= |s| && (WithoutReturns(s) == s <==> NoPair(s))
      && (|WithoutReturns(s)| == |s| ==> NoPair(s))
    decreases |s|
  {
    if |s| >= 2 && s[0] == RETURN && s[1] == NEWLINE {
      OnlyPairsGo(s[2..]);
    } else if s != [] {
      OnlyPairsGo(s[1..]);
      assert s == [s[0]] + s[1..];
      if NoPair(s[1..]) {
        forall i | 0 <= i < |s| - 1 ensures !(s[i] == RETURN && s[i + 1] == NEWLINE) {
          if i > 0 { assert s[1..][i - 1] == s[i] && s[1..][i] == s[i + 1]; }
        }
      }
      if NoPair(s) {
        forall i | 0 <= i < |s[1..]| - 1 ensures !(s[1..][i] == RETURN && s[1..][i + 1] == NEWLINE) {
          assert s[1..][i] == s[i + 1] && s[1..][i + 1] == s[i + 2];
        }
      }
    }
  }

  lemma {:induction false} JoinedHasNoPair(lines: seq<Units>)
    requires lines != [] && Free(lines, NEWLINE)
    ensures NoPair(Join(lines, NEWLINE) + [NEWLINE]) <==> NoStrayReturn(lines)
  {
    var s := Join(lines, NEWLINE) + [NEWLINE];
    if |lines| == 1 {
      assert s == lines[0] + [NEWLINE];
      LineHasNoPair(lines[0], []);
      assert s == lines[0] + [NEWLINE] + [];
      assert NoPair([]);
    } else {
      var rest := Join(lines[1..], NEWLINE) + [NEWLINE];
      JoinedHasNoPair(lines[1..]);
      assert s == lines[0] + [NEWLINE] + rest;
      LineHasNoPair(lines[0], rest);
      StrayReturnStep(lines);
    }
  }

  lemma StrayReturnStep(lines: seq<Units>)
    requires lines != []
    ensures NoStrayReturn(lines) <==>
            (lines[0] == [] || lines[0][|lines[0]| - 1] != RETURN) && NoStrayReturn(lines[1..])
  {
    assert forall i :: 1 <= i < |lines| ==> lines[i] == lines[1..][i - 1];
  }

  lemma LineHasNoPair(line: Units, rest: Units)
    requires NEWLINE !in line
    ensures NoPair(line + [NEWLINE] + rest) <==> (line == [] || line[|line| - 1] != RETURN) && NoPair(rest)
  {
    var s := line + [NEWLINE] + rest;
    var n := |line|;
    assert forall i :: 0 <= i < |rest| ==> s[n + 1 + i] == rest[i];
    if NoPair(s) {
      assert s[n] == NEWLINE && (n > 0 ==> s[n - 1] == line[n - 1]);
      forall i | 0 <= i < |rest| - 1 ensures !(rest[i] == RETURN && rest[i + 1] == NEWLINE) {
        assert !(s[n + 1 + i] == RETURN && s[n + 1 + i + 1] == NEWLINE);
      }
    }
    if (line == [] || line[n - 1] != RETURN) && NoPair(rest) {
      forall i | 0 <= i < |s| - 1 ensures !(s[i] == RETURN && s[i + 1] == NEWLINE) {
        if i + 1 < n { assert line[i + 1] in line; }
        if i > n { assert !(rest[i - n - 1] == RETURN && rest[i - n] == NEWLINE); }
      }
    }
  }

  /**
   * A file written from lines is read back, and walked, as those lines — exactly when no line ends in a
   * carriage return, which the newline after it would take with it.
   */
  lemma FileReadsBackIff(lines: seq<Units>)
    requires lines != [] && Free(lines, NEWLINE)
    ensures var s := Join(lines, NEWLINE) + [NEWLINE];
      && (LinesToUpdate(s) == lines <==> NoStrayReturn(lines))
      && (NoStrayReturn(lines) ==> SplitLines(s) == lines + [[]])
  {
    var s := Join(lines, NEWLINE) + [NEWLINE];
    JoinedHasNoPair(lines);
    OnlyPairsGo(s);
    LinesOfText(s);
    SplitAtEnd(Join(lines, NEWLINE));
    SplitJoin(lines, NEWLINE);
    assert s[..|s| - 1] == Join(lines, NEWLINE);
    if LinesToUpdate(s) == lines {
      JoinSplit(WithoutLastNewline(WithoutReturns(s)), NEWLINE);
      assert |WithoutReturns(s)| >= |s| - 1;
      LastNewlineStays(s);
    }
  }

  lemma {:induction false} LastNewlineStays(s: Units)
    requires s != [] && s[|s| - 1] == NEWLINE
    ensures var t := WithoutReturns(s); t != [] && t[|t| - 1] == NEWLINE
    decreases |s|
  {
    if |s| >= 2 && s[0] == RETURN && s[1] == NEWLINE {
      if |s| > 2 { LastNewlineStays(s[2..]); }
    } else if |s| > 1 {
      LastNewlineStays(s[1..]);
    }
  }

  // ------------------------------------------------------------------ what an update does

  ghost predicate ValidUpdates(updates: seq<Pair>) {
    && (forall i :: 0 <= i < |updates| ==> ValidKey(updates[i].key) && Readable(updates[i].value))
    && (forall i, j :: 0 <= i < j < |updates| ==> updates[i].key != updates[j].key)
  }

  lemma {:induction false} LookupFinds(updates: seq<Pair>, key: Units)
    ensures Lookup(updates, key).Some? <==> exists i :: 0 <= i < |updates| && updates[i].key == key
    ensures Lookup(updates, key).Some? ==> Pair(key, Lookup(updates, key).value) in updates
  {
    if updates != [] {
      LookupFinds(updates[1..], key);
      if Lookup(updates[1..], key).Some? {
        var i :| 0 <= i < |updates[1..]| && updates[1..][i].key == key;
        assert updates[i + 1].key == key;
      }
    }
  }

  lemma {:induction false} LeftOverIn(updates: seq<Pair>, lines: seq<Units>)
    ensures forall p <- LeftOver(updates, lines) :: p in updates && !Assigns(lines, p.key)
  {
    if updates != [] { LeftOverIn(updates[1..], lines); }
  }

  /** A line afterwards is the old line, or the line written for an update of the same key. */
  lemma LineIsOldOrWritten(lines: seq<Units>, updates: seq<Pair>, i: nat)
    requires ValidUpdates(updates) && i < |lines|
    ensures var line := LineAfter(lines, updates, i);
      && KeyOf(line) == KeyOf(lines[i])
      && (line == lines[i] || exists p <- updates :: line == Line(p) && KeyOf(lines[i]) == Some(p.key))
  {
    if LineAfter(lines, updates, i) != lines[i] {
      var key := KeyOf(lines[i]).value;
      LookupFinds(updates, key);
      var p := Pair(key, Lookup(updates, key).value);
      assert p in updates;
      WrittenLineReads(p);
    }
  }

  lemma {:induction false} LinesAfterAreClean(lines: seq<Units>, updates: seq<Pair>)
    requires ValidUpdates(updates) && Free(lines, NEWLINE) && NoStrayReturn(lines)
    ensures Free(LinesAfter(lines, updates), NEWLINE) && NoStrayReturn(LinesAfter(lines, updates))
  {
    var after := LinesAfter(lines, updates);
    LeftOverIn(updates, lines);
    forall i | 0 <= i < |after| ensures NEWLINE !in after[i] && (after[i] == [] || after[i][|after[i]| - 1] != RETURN) {
      if i < |lines| {
        LineIsOldOrWritten(lines, updates, i);
        if after[i] != lines[i] {
          var p :| p in updates && after[i] == Line(p);
          WrittenLineReads(p);
          assert after[i][|after[i]| - 1] in after[i];
        }
      } else {
        var p := LeftOver(updates, lines)[i - |lines|];
        assert p in LeftOver(updates, lines);
        WrittenLineReads(p);
        assert after[i][|after[i]| - 1] in after[i];
      }
    }
  }

  lemma LinesAreFree(source: Units)
    ensures Free(LinesToUpdate(source), NEWLINE)
  {
    SplitIsFree(WithoutLastNewline(WithoutReturns(source)), NEWLINE);
  }

  lemma ValueAtEmptyLine(lines: seq<Units>, key: Units)
    ensures ValueAt(lines + [[]], key) == ValueAt(lines, key)
  {
    assert ReadAll(lines + [[]])[..|lines|] == ReadAll(lines);
  }

  /** What `envValues` reads from the lines, whether or not an empty one ends them. */
  lemma ValuesOfSource(source: Units, key: Units)
    ensures ValueAt(SplitLines(source), key) == ValueAt(LinesToUpdate(source), key)
  {
    SameLines(source);
    ValueAtEmptyLine(LinesToUpdate(source), key);
  }

  lemma {:induction false} LastValueOfConcat(a: seq<Option<Pair>>, b: seq<Option<Pair>>, key: Units)
    ensures LastValue(a + b, key) == if LastValue(b, key).Some? then LastValue(b, key) else LastValue(a, key)
  {
    if b == [] {
      assert a + b == a;
    } else {
      LastValueOfConcat(a, b[..|b| - 1], key);
      assert (a + b)[..|a + b| - 1] == a + b[..|b| - 1];
    }
  }

  lemma ValueAtConcat(a: seq<Units>, b: seq<Units>, key: Units)
    ensures ValueAt(a + b, key) == if ValueAt(b, key).Some? then ValueAt(b, key) else ValueAt(a, key)
  {
    assert ReadAll(a + b) == ReadAll(a) + ReadAll(b);
    LastValueOfConcat(ReadAll(a), ReadAll(b), key);
  }

  lemma {:induction false} SameLastValue(a: seq<Option<Pair>>, b: seq<Option<Pair>>, key: Units)
    requires |a| == |b|
    requires forall i :: 0 <= i < |a| ==>
      a[i] == b[i] || ((a[i].Some? ==> a[i].value.key != key) && (b[i].Some? ==> b[i].value.key != key))
    ensures LastValue(a, key) == LastValue(b, key)
  {
    if a != [] { SameLastValue(a[..|a| - 1], b[..|b| - 1], key); }
  }

  lemma ReadsItsKey(line: Units)
    ensures Reads(line).Some? ==> KeyOf(line) == Some(Reads(line).value.key)
  {}

  /** One line, or two that do not set the key. */
  predicate SameFor(key: Units, a: Units, b: Units) { a == b || (KeyOf(a) != Some(key) && KeyOf(b) != Some(key)) }

  /** Two lists of lines that agree on every line that could set the key give it the same value. */
  lemma SameValue(a: seq<Units>, b: seq<Units>, key: Units)
    requires |a| == |b|
    requires forall i :: 0 <= i < |a| ==> SameFor(key, a[i], b[i])
    ensures ValueAt(a, key) == ValueAt(b, key)
  {
    forall i | 0 <= i < |a|
      ensures Reads(a[i]) == Reads(b[i])
        || ((Reads(a[i]).Some? ==> Reads(a[i]).value.key != key)
          && (Reads(b[i]).Some? ==> Reads(b[i]).value.key != key))
    {
      assert SameFor(key, a[i], b[i]);
      ReadsItsKey(a[i]);
      ReadsItsKey(b[i]);
    }
    SameLastValue(ReadAll(a), ReadAll(b), key);
  }

  lemma {:induction false} NoLastValue(settings: seq<Option<Pair>>, key: Units)
    requires forall i :: 0 <= i < |settings| ==> (settings[i].Some? ==> settings[i].value.key != key)
    ensures LastValue(settings, key).None?
  {
    if settings != [] { NoLastValue(settings[..|settings| - 1], key); }
  }

  lemma NoValue(lines: seq<Units>, key: Units)
    requires !Assigns(lines, key)
    ensures ValueAt(lines, key).None?
  {
    forall i | 0 <= i < |lines| ensures Reads(lines[i]).Some? ==> Reads(lines[i]).value.key != key {
      ReadsItsKey(lines[i]);
      assert KeyOf(lines[i]) != Some(key);
    }
    NoLastValue(ReadAll(lines), key);
  }

  /** A key that is not updated keeps its value. */
  lemma {:induction false} OtherKeysKeepTheirValue(lines: seq<Units>, updates: seq<Pair>, key: Units)
    requires ValidUpdates(updates) && Lookup(updates, key).None?
    ensures ValueAt(LinesAfter(lines, updates), key) == ValueAt(lines, key)
  {
    var (rewritten, appended) := (Rewritten(lines, updates), Appended(LeftOver(updates, lines)));
    LookupFinds(updates, key);
    LeftOverIn(updates, lines);
    forall i | 0 <= i < |lines| ensures SameFor(key, rewritten[i], lines[i]) {
      LineIsOldOrWritten(lines, updates, i);
    }
    SameValue(rewritten, lines, key);
    assert !Assigns(appended, key) by {
      forall i | 0 <= i < |appended| ensures KeyOf(appended[i]) != Some(key) {
        var p := LeftOver(updates, lines)[i];
        assert p in LeftOver(updates, lines);
        WrittenLineReads(p);
      }
    }
    NoValue(appended, key);
    ValueAtConcat(rewritten, appended, key);
  }

  // ------------------------------------------------------------------ updated keys

  /** The first line that sets the key; the number of lines when none does. */
  function First(lines: seq<Units>, key: Units): (i: nat)
    ensures i <= |lines| && (i < |lines| ==> KeyOf(lines[i]) == Some(key))
  {
    if lines == [] || KeyOf(lines[0]) == Some(key) then 0 else 1 + First(lines[1..], key)
  }

  /** The lines after the first one that sets the key. */
  function LinesAfterFirst(lines: seq<Units>, key: Units): seq<Units> {
    var i := First(lines, key);
    if i < |lines| then lines[i + 1..] else []
  }

  lemma {:induction false} NoneBeforeFirst(lines: seq<Units>, key: Units)
    ensures forall j :: 0 <= j < First(lines, key) ==> KeyOf(lines[j]) != Some(key)
    ensures First(lines, key) < |lines| <==> Assigns(lines, key)
  {
    if lines != [] && KeyOf(lines[0]) != Some(key) {
      NoneBeforeFirst(lines[1..], key);
      forall j | 0 <= j < First(lines, key) ensures KeyOf(lines[j]) != Some(key) {
        if j > 0 { assert lines[j] == lines[1..][j - 1]; }
      }
    }
  }

  lemma {:induction false} LeftOverIsValid(updates: seq<Pair>, lines: seq<Units>)
    requires ValidUpdates(updates)
    ensures ValidUpdates(LeftOver(updates, lines))
  {
    if updates != [] {
      LeftOverIsValid(updates[1..], lines);
      LeftOverIn(updates[1..], lines);
      var rest := LeftOver(updates[1..], lines);
      forall i | 0 <= i < |rest|
        ensures rest[i].key != updates[0].key
      {
        assert rest[i] in rest && rest[i] in updates[1..];
      }
    }
  }

  function AsRead(pairs: seq<Pair>): seq<Option<Pair>> { seq(|pairs|, i requires 0 <= i < |pairs| => Some(pairs[i])) }

  lemma {:induction false} AsReadValue(pairs: seq<Pair>, j: nat)
    requires ValidUpdates(pairs) && j < |pairs|
    ensures LastValue(AsRead(pairs), pairs[j].key) == Some(pairs[j].value)
  {
    var front := pairs[..|pairs| - 1];
    assert AsRead(pairs)[..|pairs| - 1] == AsRead(front);
    if j < |front| { AsReadValue(front, j); }
  }

  /** The lines added are read as the pairs they were written from. */
  lemma AppendedReads(pairs: seq<Pair>)
    requires ValidUpdates(pairs)
    ensures ReadAll(Appended(pairs)) == AsRead(pairs)
  {
    forall i | 0 <= i < |pairs| ensures ReadAll(Appended(pairs))[i] == Some(pairs[i]) { WrittenLineReads(pairs[i]); }
  }

  /** A key no line sets is read from the line added for it. */
  lemma {:induction false} NewKeyValue(lines: seq<Units>, updates: seq<Pair>, key: Units)
    requires ValidUpdates(updates) && Lookup(updates, key).Some? && !Assigns(lines, key)
    ensures ValueAt(Appended(LeftOver(updates, lines)), key) == Lookup(updates, key)
  {
    var pairs := LeftOver(updates, lines);
    LeftOverIsValid(updates, lines);
    LookupInLeftOver(updates, lines, key);
    LookupFinds(pairs, key);
    var j :| 0 <= j < |pairs| && pairs[j] == Pair(key, Lookup(updates, key).value);
    AppendedReads(pairs);
    AsReadValue(pairs, j);
  }

  /** A key some line sets gets no line of its own. */
  lemma OldKeyNotAdded(lines: seq<Units>, updates: seq<Pair>, key: Units)
    requires ValidUpdates(updates) && Assigns(lines, key)
    ensures ValueAt(Appended(LeftOver(updates, lines)), key).None?
  {
    var pairs := LeftOver(updates, lines);
    LeftOverIn(updates, lines);
    forall j | 0 <= j < |pairs| ensures KeyOf(Appended(pairs)[j]) != Some(key) {
      assert pairs[j] in pairs;
      WrittenLineReads(pairs[j]);
    }
    NoValue(Appended(pairs), key);
  }

  lemma {:induction false} OldKeyValue(lines: seq<Units>, updates: seq<Pair>, key: Units, i: nat)
    requires ValidUpdates(updates) && Lookup(updates, key).Some?
    requires i < |lines| && KeyOf(lines[i]) == Some(key) && !Assigns(lines[..i], key)
    ensures ValueAt(Rewritten(lines, updates), key) ==
            if ValueAt(lines[i + 1..], key).Some? then ValueAt(lines[i + 1..], key) else Lookup(updates, key)
  {
    var pair := Pair(key, Lookup(updates, key).value);
    LookupFinds(updates, key);
    WrittenLineReads(pair);
    RestKeepsValue(lines, updates, key, i);
    assert Rewritten(lines, updates)[i] == Line(pair);
    ValueFromLine(Rewritten(lines, updates), i, pair);
  }

  /** A line that sets the key decides, but for the lines after it. */
  lemma ValueFromLine(lines: seq<Units>, i: nat, pair: Pair)
    requires i < |lines| && Reads(lines[i]) == Some(pair)
    ensures ValueAt(lines, pair.key) ==
      if ValueAt(lines[i + 1..], pair.key).Some? then ValueAt(lines[i + 1..], pair.key) else Some(pair.value)
  {
    assert lines == lines[..i + 1] + lines[i + 1..];
    ValueAtConcat(lines[..i + 1], lines[i + 1..], pair.key);
    assert ReadAll(lines[..i + 1])[i] == Some(pair);
  }

  /**
   * The value an updated key is read with: the new one, unless a later line of the same key, left as it
   * was, still sets another.
   */
  lemma {:induction false} UpdatedKeyValue(lines: seq<Units>, updates: seq<Pair>, key: Units)
    requires ValidUpdates(updates) && Lookup(updates, key).Some?
    ensures ValueAt(LinesAfter(lines, updates), key) ==
            if ValueAt(LinesAfterFirst(lines, key), key).Some? then ValueAt(LinesAfterFirst(lines, key), key)
            else Lookup(updates, key)
  {
    var (rewritten, appended) := (Rewritten(lines, updates), Appended(LeftOver(updates, lines)));
    ValueAtConcat(rewritten, appended, key);
    NoneBeforeFirst(lines, key);
    if Assigns(lines, key) {
      OldKeyNotAdded(lines, updates, key);
      OldKeyValue(lines, updates, key, First(lines, key));
    } else {
      NewKeyValue(lines, updates, key);
    }
  }

  /** After its first line a key's later lines stay as they were. */
  lemma RestKeepsValue(lines: seq<Units>, updates: seq<Pair>, key: Units, i: nat)
    requires ValidUpdates(updates) && i < |lines| && KeyOf(lines[i]) == Some(key)
    ensures ValueAt(Rewritten(lines, updates)[i + 1..], key) == ValueAt(lines[i + 1..], key)
  {
    var rewritten := Rewritten(lines, updates);
    forall at | i < at < |lines| ensures SameFor(key, rewritten[at], lines[at]) {
      LaterLineStays(lines, updates, key, i, at);
    }
    SameRest(rewritten, lines, key, i + 1);
  }

  lemma SameRest(a: seq<Units>, b: seq<Units>, key: Units, from: nat)
    requires |a| == |b| && from <= |a| && forall at :: from <= at < |a| ==> SameFor(key, a[at], b[at])
    ensures ValueAt(a[from..], key) == ValueAt(b[from..], key)
  {
    SameValue(a[from..], b[from..], key);
  }

  lemma LaterLineStays(lines: seq<Units>, updates: seq<Pair>, key: Units, i: nat, at: nat)
    requires ValidUpdates(updates) && i < at < |lines| && KeyOf(lines[i]) == Some(key)
    ensures SameFor(key, LineAfter(lines, updates, at), lines[at])
  {
    LineIsOldOrWritten(lines, updates, at);
    assert lines[..at][i] == lines[i];
  }

  // ------------------------------------------------------------------ the promises

  /**
   * After an update every key it names is read with its new value — exactly when no later line of that
   * key still sets another one — and every other key is read as before.
   */
  lemma {:induction false} UpdateReadsBack(source: Units, updates: seq<Pair>, key: Units)
    requires ValidUpdates(updates) && NoStrayReturn(LinesToUpdate(source)) && (source != [] || updates != [])
    ensures var (before, after) :=
      (ValueAt(SplitLines(source), key), ValueAt(SplitLines(Updated(source, updates)), key));
      var later := ValueAt(LinesAfterFirst(LinesToUpdate(source), key), key);
      match Lookup(updates, key)
      case None => after == before
      case Some(value) => after == Some(value) <==> later.None? || later == Some(value)
  {
    var lines := LinesToUpdate(source);
    LinesAreFree(source);
    LinesAfterAreClean(lines, updates);
    NothingTaken(updates);
    FileReadsBackIff(LinesAfter(lines, updates));
    ValueAtEmptyLine(LinesAfter(lines, updates), key);
    ValuesOfSource(source, key);
    if Lookup(updates, key).Some? {
      UpdatedKeyValue(lines, updates, key);
    } else {
      OtherKeysKeepTheirValue(lines, updates, key);
    }
  }

  /** So a key on at most one line always gets its new value. */
  lemma {:induction false} OneLineIsEnough(source: Units, updates: seq<Pair>, key: Units)
    requires ValidUpdates(updates) && NoStrayReturn(LinesToUpdate(source)) && Lookup(updates, key).Some?
    requires forall i, j :: 0 <= i < j < |LinesToUpdate(source)| ==>
               KeyOf(LinesToUpdate(source)[i]) != Some(key) || KeyOf(LinesToUpdate(source)[j]) != Some(key)
    ensures ValueAt(SplitLines(Updated(source, updates)), key) == Lookup(updates, key)
  {
    UpdateReadsBack(source, updates, key);
    NothingLater(LinesToUpdate(source), key);
  }

  lemma NothingLater(lines: seq<Units>, key: Units)
    requires forall i, j :: 0 <= i < j < |lines| ==> KeyOf(lines[i]) != Some(key) || KeyOf(lines[j]) != Some(key)
    ensures ValueAt(LinesAfterFirst(lines, key), key).None?
  {
    var later := LinesAfterFirst(lines, key);
    forall j | 0 <= j < |later| ensures KeyOf(later[j]) != Some(key) {
      assert later[j] == lines[First(lines, key) + 1 + j];
    }
    NoValue(later, key);
  }

  /** Every line stays in its place; it changes only if it is the first of an updated key. New lines come after. */
  lemma LinesStayInPlace(source: Units, updates: seq<Pair>, i: nat)
    requires ValidUpdates(updates) && NoStrayReturn(LinesToUpdate(source)) && i < |LinesToUpdate(source)|
    ensures var (before, after) := (LinesToUpdate(source), LinesToUpdate(Updated(source, updates)));
      && i < |after| && KeyOf(after[i]) == KeyOf(before[i])
      && (after[i] != before[i] ==>
            && KeyOf(before[i]).Some? && Lookup(updates, KeyOf(before[i]).value).Some?
            && !Assigns(before[..i], KeyOf(before[i]).value))
  {
    var lines := LinesToUpdate(source);
    LinesAreFree(source);
    LinesAfterAreClean(lines, updates);
    FileReadsBackIff(LinesAfter(lines, updates));
    LineIsOldOrWritten(lines, updates, i);
  }

  lemma {:induction false} AllTaken(updates: seq<Pair>, lines: seq<Units>)
    requires forall i :: 0 <= i < |updates| ==> Assigns(lines, updates[i].key)
    ensures LeftOver(updates, lines) == []
  {
    if updates != [] { AllTaken(updates[1..], lines); }
  }

  /** Lines that have been updated are left alone by the same update. */
  lemma UpdatedLinesStay(lines: seq<Units>, updates: seq<Pair>, i: nat)
    requires ValidUpdates(updates) && i < |LinesAfter(lines, updates)|
    ensures LineAfter(LinesAfter(lines, updates), updates, i) == LinesAfter(lines, updates)[i]
  {
    var after := LinesAfter(lines, updates);
    if i < |lines| {
      LineIsOldOrWritten(lines, updates, i);
      var key := KeyOf(lines[i]);
      if key.Some? && Assigns(lines[..i], key.value) {
        var j :| 0 <= j < i && KeyOf(lines[..i][j]) == key;
        LineIsOldOrWritten(lines, updates, j);
        assert after[..i][j] == after[j];
      }
    } else {
      AppendedLineStays(lines, updates, i);
    }
  }

  lemma AppendedLineStays(lines: seq<Units>, updates: seq<Pair>, i: nat)
    requires ValidUpdates(updates) && |lines| <= i < |LinesAfter(lines, updates)|
    ensures LineAfter(LinesAfter(lines, updates), updates, i) == LinesAfter(lines, updates)[i]
  {
    var p := LeftOver(updates, lines)[i - |lines|];
    assert p in LeftOver(updates, lines);
    LeftOverIn(updates, lines);
    assert LinesAfter(lines, updates)[i] == Line(p);
    WrittenLineStays(LinesAfter(lines, updates), updates, i, p);
  }

  lemma WrittenLineStays(lines: seq<Units>, updates: seq<Pair>, i: nat, p: Pair)
    requires ValidUpdates(updates) && p in updates && i < |lines| && lines[i] == Line(p)
    ensures LineAfter(lines, updates, i) == lines[i]
  {
    WrittenLineReads(p);
    LookupFinds(updates, p.key);
  }

  lemma AddedLineAssigns(lines: seq<Units>, updates: seq<Pair>, i: nat)
    requires ValidUpdates(updates) && i < |LeftOver(updates, lines)|
    ensures Assigns(LinesAfter(lines, updates), LeftOver(updates, lines)[i].key)
  {
    var pair := LeftOver(updates, lines)[i];
    LeftOverIsValid(updates, lines);
    WrittenLineReads(pair);
    assert LinesAfter(lines, updates)[|lines| + i] == Line(pair);
  }

  lemma LeftOverUpdateIsAdded(lines: seq<Units>, updates: seq<Pair>, j: nat)
    requires ValidUpdates(updates) && j < |updates| && !Assigns(lines, updates[j].key)
    ensures Assigns(LinesAfter(lines, updates), updates[j].key)
  {
    var (key, pairs) := (updates[j].key, LeftOver(updates, lines));
    LookupFinds(updates, key);
    LookupInLeftOver(updates, lines, key);
    LookupFinds(pairs, key);
    var i :| 0 <= i < |pairs| && pairs[i].key == key;
    AddedLineAssigns(lines, updates, i);
  }

  lemma EveryUpdateIsOnALine(lines: seq<Units>, updates: seq<Pair>, j: nat)
    requires ValidUpdates(updates) && j < |updates|
    ensures Assigns(LinesAfter(lines, updates), updates[j].key)
  {
    var (after, key) := (LinesAfter(lines, updates), updates[j].key);
    if Assigns(lines, key) {
      var i :| 0 <= i < |lines| && KeyOf(lines[i]) == Some(key);
      LineIsOldOrWritten(lines, updates, i);
      assert KeyOf(after[i]) == Some(key);
    } else {
      LeftOverUpdateIsAdded(lines, updates, j);
    }
  }

  lemma UpdatedLinesAreFinal(lines: seq<Units>, updates: seq<Pair>)
    requires ValidUpdates(updates)
    ensures LinesAfter(LinesAfter(lines, updates), updates) == LinesAfter(lines, updates)
  {
    var after := LinesAfter(lines, updates);
    forall i | 0 <= i < |after|
      ensures LineAfter(after, updates, i) == after[i]
    {
      UpdatedLinesStay(lines, updates, i);
    }
    forall j | 0 <= j < |updates| ensures Assigns(after, updates[j].key) { EveryUpdateIsOnALine(lines, updates, j); }
    AllTaken(updates, after);
    assert Rewritten(after, updates) == after;
  }

  lemma NothingToUpdate()
    ensures Updated([NEWLINE], []) == [NEWLINE]
  {
    OnlyPairsGo([NEWLINE]);
    assert WithoutReturns([NEWLINE]) == [NEWLINE] && WithoutLastNewline([NEWLINE]) == [];
    assert LinesToUpdate([NEWLINE]) == [[]];
    assert KeyOf([]).None?;
    assert LinesAfter([[]], []) == [[]];
  }

  /** Saving the same values again changes nothing. */
  lemma {:induction false} UpdateIdempotent(source: Units, updates: seq<Pair>)
    requires ValidUpdates(updates) && NoStrayReturn(LinesToUpdate(source))
    ensures Updated(Updated(source, updates), updates) == Updated(source, updates)
  {
    var lines := LinesToUpdate(source);
    if LinesAfter(lines, updates) == [] {
      NothingTaken(updates);
      NothingToUpdate();
    } else {
      LinesAreFree(source);
      LinesAfterAreClean(lines, updates);
      FileReadsBackIff(LinesAfter(lines, updates));
      UpdatedLinesAreFinal(lines, updates);
    }
  }

  /** `A=1` and `A=2` in one file: setting A to 3 rewrites the first line, and the file still reads 2. */
  lemma SecondLineWins()
    ensures var a: Units, one: Units, two: Units, three: Units := [0x41], [0x31], [0x32], [0x33];
      ValueAt(LinesAfter([a + [EQUALS] + one, a + [EQUALS] + two], [Pair(a, three)]), a) == Some(two)
  {
    var a: Units, one: Units, two: Units, three: Units := [0x41], [0x31], [0x32], [0x33];
    var (first, second) := (a + [EQUALS] + one, a + [EQUALS] + two);
    WrittenAssignment(a, one);
    WrittenAssignment(a, two);
    assert second[2..] == two;
    assert Decoded(two) == two;
    assert LinesAfterFirst([first, second], a) == [second];
    assert ValueAt([second], a) == Some(two);
    UpdatedKeyValue([first, second], [Pair(a, three)], a);
  }
}
