/** Finding an item from a few letters, forgiving of slips of the finger. */
module ItemPicker {
  import opened CodeUnits
  import Sorting

  // ------------------------------------------------------------------ one edit

  /** One slip: a letter wrong, extra, missing, or swapped with its neighbour — or none. */
  datatype Edit = Keep | Replace(at: nat, letter: CodeUnit) | Insert(at: nat, letter: CodeUnit) | Remove(at: nat)
      | Swap(at: nat)

  predicate Possible(e: Edit, s: Units) {
    match e
    case Keep => true
    case Replace(at, _) => at < |s|
    case Insert(at, _) => at <= |s|
    case Remove(at) => at < |s|
    case Swap(at) => at + 1 < |s|
  }

  function Edited(e: Edit, s: Units): Units
    requires Possible(e, s)
  {
    match e
    case Keep => s
    case Replace(at, letter) => s[at := letter]
    case Insert(at, letter) => s[..at] + [letter] + s[at..]
    case Remove(at) => s[..at] + s[at + 1..]
    case Swap(at) => s[at := s[at + 1]][at + 1 := s[at]]
  }

  ghost predicate OneEditApart(a: Units, b: Units) {
    exists e: Edit :: Possible(e, a) && Edited(e, a) == b
  }

  /** `slice(k)`, which is empty past the end. */
  function Slice(s: Units, k: nat): Units { if k <= |s| then s[k..] else [] }

  /** What is compared once the common start of length `i` has been passed. */
  predicate RestAgrees(a: Units, b: Units, i: nat) {
    || Slice(a, i + 1) == Slice(b, i + 1)
    || Slice(a, i + 1) == Slice(b, i)
    || Slice(a, i) == Slice(b, i + 1)
    || (i + 1 < |a| && i + 1 < |b| && a[i] == b[i + 1] && a[i + 1] == b[i] && Slice(a, i + 2) == Slice(b, i + 2))
  }

  /** The common start is as long as it can be, and the two are not the same. */
  ghost predicate PartAt(a: Units, b: Units, i: nat) {
    && i <= |a| && i <= |b| && a[..i] == b[..i]
    && (i < |a| && i < |b| ==> a[i] != b[i])
    && !(i == |a| && i == |b|)
  }

  lemma SameLengthEdit(a: Units, b: Units, i: nat)
    requires PartAt(a, b, i) && RestAgrees(a, b, i) && |a| == |b|
    ensures OneEditApart(a, b)
  {
    if Slice(a, i + 1) == Slice(b, i + 1) {
      LettersAgree(a, b, i, i + 1);
      assert Edited(Replace(i, b[i]), a) == b;
    } else {
      assert |Slice(a, i)| != |Slice(b, i + 1)| && |Slice(a, i + 1)| != |Slice(b, i)|;
      LettersAgree(a, b, i, i + 2);
      assert Edited(Swap(i), a) == b;
    }
  }

  /** Texts that agree up to `i` and from `k` on, letter by letter. */
  lemma LettersAgree(a: Units, b: Units, i: nat, k: nat)
    requires i <= k <= |a| == |b| && a[..i] == b[..i] && a[k..] == b[k..]
    ensures forall j :: 0 <= j < i || k <= j < |a| ==> a[j] == b[j]
  {
    forall j | 0 <= j < i ensures a[j] == b[j] { assert a[j] == a[..i][j] && b[j] == b[..i][j]; }
    forall j | k <= j < |a| ensures a[j] == b[j] { assert a[j] == a[k..][j - k] && b[j] == b[k..][j - k]; }
  }

  lemma LongerEdit(a: Units, b: Units, i: nat)
    requires PartAt(a, b, i) && RestAgrees(a, b, i) && |b| == |a| + 1
    ensures OneEditApart(a, b)
  {
    assert i < |a| ==> |Slice(a, i + 1)| < |Slice(b, i + 1)|;
    assert i + 1 < |a| ==> |Slice(a, i + 2)| < |Slice(b, i + 2)|;
    assert Slice(a, i) == Slice(b, i + 1);
    assert a[i..] == b[i + 1..];
    assert b == b[..i] + [b[i]] + b[i + 1..];
    assert Edited(Insert(i, b[i]), a) == b;
  }

  lemma ShorterEdit(a: Units, b: Units, i: nat)
    requires PartAt(a, b, i) && RestAgrees(a, b, i) && |a| == |b| + 1
    ensures OneEditApart(a, b)
  {
    assert i < |b| ==> |Slice(b, i + 1)| < |Slice(a, i + 1)|;
    assert i + 1 < |b| ==> |Slice(b, i + 2)| < |Slice(a, i + 2)|;
    assert a[i + 1..] == b[i..];
    assert b == b[..i] + b[i..];
    assert Edited(Remove(i), a) == b;
  }

  /** If the rests agree in one of the four ways, one edit at the parting letter makes `b` of `a`. */
  lemma RestGivesEdit(a: Units, b: Units, i: nat)
    requires PartAt(a, b, i) && RestAgrees(a, b, i) && -1 <= |a| - |b| <= 1
    ensures OneEditApart(a, b)
  {
    if |a| == |b| { SameLengthEdit(a, b, i); } else if |a| < |b| { LongerEdit(a, b, i); } else { ShorterEdit(a, b, i); }
  }

  /**
   * An edit anywhere can be moved to the parting letter: in a run of equal letters it does not matter
   * which of them was added or dropped.
   */
  lemma EditShowsInRest(a: Units, b: Units, i: nat, e: Edit)
    requires PartAt(a, b, i) && Possible(e, a) && Edited(e, a) == b
    ensures -1 <= |a| - |b| <= 1 && RestAgrees(a, b, i)
  {
    match e
    case Keep =>
      assert false;
    case Replace(at, letter) =>
      assert Slice(a, i + 1) == Slice(b, i + 1);
    case Insert(at, letter) =>
      assert at <= i;
      assert forall k :: i <= k < |a| ==> b[k + 1] == a[k];
      assert Slice(a, i) == Slice(b, i + 1);
    case Remove(at) =>
      assert at <= i;
      assert forall k :: i <= k < |b| ==> a[k + 1] == b[k];
      assert Slice(a, i + 1) == Slice(b, i);
    case Swap(at) =>
      SwapShowsInRest(a, b, i, at);
  }

  lemma SwapShowsInRest(a: Units, b: Units, i: nat, at: nat)
    requires PartAt(a, b, i) && Possible(Swap(at), a) && Edited(Swap(at), a) == b
    ensures |a| == |b| && RestAgrees(a, b, i)
  {
    assert at == i;
    assert Slice(a, i + 2) == Slice(b, i + 2);
  }

  lemma EditChangesLengthByOne(a: Units, b: Units)
    requires OneEditApart(a, b)
    ensures -1 <= |a| - |b| <= 1
  {}

  /** `withinOne`: true exactly when at most one slip makes `b` of `a`. */
  method WithinOne(a: Units, b: Units) returns (within: bool)
    ensures within <==> OneEditApart(a, b)
  {
    if |a| - |b| > 1 || |b| - |a| > 1 { return false; }
    var i := 0;
    while i < |a| && i < |b| && a[i] == b[i]
      invariant i <= |a| && i <= |b| && a[..i] == b[..i]
    {
      i := i + 1;
    }
    if i == |a| && i == |b| {
      assert a[..i] == a && b[..i] == b;
      assert Edited(Keep, a) == b;
      return true;
    }
    within := RestAgrees(a, b, i);
    if within {
      RestGivesEdit(a, b, i);
    } else if OneEditApart(a, b) {
      var e: Edit :| Possible(e, a) && Edited(e, a) == b;
      EditShowsInRest(a, b, i, e);
    }
  }

  // ------------------------------------------------------------------ letters in order

  /** `places` finds the letters of `token` in `word`, one after the other. */
  ghost predicate Places(token: Units, word: Units, places: seq<nat>) {
    && |places| == |token|
    && (forall k :: 0 <= k < |places| ==> places[k] < |word| && word[places[k]] == token[k])
    && (forall j, k :: 0 <= j < k < |places| ==> places[j] < places[k])
  }

  ghost predicate InSequence(token: Units, word: Units) { exists places: seq<nat> :: Places(token, word, places) }

  /** How many letters of `token` taking each at its first chance finds. */
  function Matched(token: Units, word: Units): (n: nat)
    ensures n <= |token|
  {
    if word == [] then 0
    else
      var n := Matched(token, word[..|word| - 1]);
      if n < |token| && word[|word| - 1] == token[n] then n + 1 else n
  }

  /** Taking letters at their first chance never loses: no other way finds more. */
  lemma {:induction false} GreedyIsBest(token: Units, word: Units, k: nat, places: seq<nat>)
    requires k <= |token| && Places(token[..k], word, places)
    ensures k <= Matched(token, word)
  {
    if k > 0 {
      assert places[k - 1] < |word|;
      var front := word[..|word| - 1];
      if places[k - 1] == |word| - 1 {
        assert token[..k][k - 1] == token[k - 1];
        assert Places(token[..k - 1], front, places[..k - 1]) by {
          forall j | 0 <= j < k - 1 ensures places[j] < |front| && front[places[j]] == token[j] {
            assert token[..k][j] == token[j];
          }
        }
        GreedyIsBest(token, front, k - 1, places[..k - 1]);
      } else {
        assert Places(token[..k], front, places) by {
          forall j | 0 <= j < k ensures places[j] < |front| && front[places[j]] == token[..k][j] {
            assert j == k - 1 || places[j] < places[k - 1];
          }
        }
        GreedyIsBest(token, front, k, places);
      }
    }
  }

  lemma {:induction false} GreedyFinds(token: Units, word: Units) returns (places: seq<nat>)
    ensures Places(token[..Matched(token, word)], word, places)
  {
    if word == [] {
      places := [];
    } else {
      var front := word[..|word| - 1];
      places := GreedyFinds(token, front);
      var n := Matched(token, front);
      if Matched(token, word) == n + 1 {
        places := places + [|word| - 1];
        assert token[..n + 1] == token[..n] + [token[n]];
      }
    }
  }

  lemma InSequenceIsGreedy(token: Units, word: Units)
    ensures InSequence(token, word) <==> Matched(token, word) == |token|
  {
    assert token[..|token|] == token;
    if InSequence(token, word) {
      var places: seq<nat> :| Places(token, word, places);
      GreedyIsBest(token, word, |token|, places);
    }
    if Matched(token, word) == |token| {
      var places := GreedyFinds(token, word);
      assert Places(token, word, places);
    }
  }

  /** `token[0] === word[0]`, where reading past the end gives `undefined`. */
  predicate SameStart(token: Units, word: Units) {
    if token == [] || word == [] then token == word else token[0] == word[0]
  }

  lemma {:induction false} SinglesStep(word: Units, j: nat)
    requires j < |word|
    ensures Singles(word[j..]) == if PairAt(word, j) then Singles(word[j + 2..]) else [word[j]] + Singles(word[j + 1..])
  {
    assert PairAt(word, j) <==> PairAt(word[j..], 0);
    if PairAt(word, j) { assert word[j..][2..] == word[j + 2..]; } else { assert word[j..][1..] == word[j + 1..]; }
  }

  /** The walk of `inOrder` over the word's letters: the index into the token it ends with. */
  method CountInOrder(token: Units, word: Units) returns (at: nat)
    ensures at == Matched(token, Singles(word))
  {
    at := 0;
    var j := 0;
    ghost var seen: Units := [];
    assert word[0..] == word;
    while j < |word|
      invariant 0 <= j <= |word|
      invariant Singles(word) == seen + Singles(word[j..])
      invariant at == Matched(token, seen)
    {
      SinglesStep(word, j);
      if PairAt(word, j) {
        j := j + 2;
      } else {
        SinglesMoveOn(word, j, seen);
        MatchedAppended(token, seen, word[j]);
        seen := seen + [word[j]];
        if at < |token| && word[j] == token[at] { at := at + 1; }
        j := j + 1;
      }
    }
    assert Singles(word) == seen;
  }

  /**
   * `inOrder`: the first letters agree and the rest of the token follows in the word. The walk goes by
   * whole letters while the token is read by code units, so only one-unit letters are ever found.
   */
  method InOrder(token: Units, word: Units) returns (found: bool)
    ensures found <==> SameStart(token, word) && InSequence(token, Singles(word))
  {
    if !SameStart(token, word) { return false; }
    var at := CountInOrder(token, word);
    InSequenceIsGreedy(token, Singles(word));
    found := at >= |token|;
  }

  /** The greedy walk over a word skips its pairs when the token has none. */
  lemma SurrogateIsSkipped(token: Units, word: Units, j: nat)
    requires j < |word| && IsSurrogate(word[j]) && forall i :: 0 <= i < |token| ==> !IsSurrogate(token[i])
    ensures Matched(token, word[..j + 1]) == Matched(token, word[..j])
  {
    assert word[..j + 1][..j] == word[..j];
  }

  /** After the letters up to `j`, of which `seen` are single units, the walk has found what the plain one has. */
  ghost predicate SeenSoFar(token: Units, word: Units, j: nat, seen: Units) {
    && j <= |word|
    && Singles(word) == seen + Singles(word[j..])
    && Matched(token, word[..j]) == Matched(token, seen)
  }

  lemma PairIsPassed(token: Units, word: Units, j: nat, seen: Units)
    requires SeenSoFar(token, word, j, seen) && j < |word| && PairAt(word, j) && forall i :: 0 <= i < |token| ==>
      !IsSurrogate(token[i])
    ensures SeenSoFar(token, word, j + 2, seen)
  {
    SinglesStep(word, j);
    SurrogateIsSkipped(token, word, j);
    SurrogateIsSkipped(token, word, j + 1);
  }

  lemma SingleIsSeen(token: Units, word: Units, j: nat, seen: Units)
    requires SeenSoFar(token, word, j, seen) && j < |word| && !PairAt(word, j)
    ensures SeenSoFar(token, word, j + 1, seen + [word[j]])
  {
    SinglesMoveOn(word, j, seen);
    MatchedAppended(token, word[..j], word[j]);
    MatchedAppended(token, seen, word[j]);
    assert word[..j + 1] == word[..j] + [word[j]];
  }

  lemma SinglesMoveOn(word: Units, j: nat, seen: Units)
    requires j < |word| && !PairAt(word, j) && Singles(word) == seen + Singles(word[j..])
    ensures Singles(word) == seen + [word[j]] + Singles(word[j + 1..])
  {
    SinglesStep(word, j);
    var (letter, rest) := ([word[j]], Singles(word[j + 1..]));
    assert seen + (letter + rest) == seen + letter + rest;
  }

  lemma MatchedAppended(token: Units, word: Units, letter: CodeUnit)
    ensures var n := Matched(token, word);
      Matched(token, word + [letter]) == if n < |token| && letter == token[n] then n + 1 else n
  {
    assert (word + [letter])[..|word|] == word;
  }

  lemma PairsAreInvisible(token: Units, word: Units)
    requires forall i :: 0 <= i < |token| ==> !IsSurrogate(token[i])
    ensures Matched(token, word) == Matched(token, Singles(word))
  {
    var j := 0;
    var seen: Units := [];
    assert word[0..] == word;
    while j < |word|
      invariant SeenSoFar(token, word, j, seen)
    {
      if PairAt(word, j) {
        PairIsPassed(token, word, j, seen);
        j := j + 2;
      } else {
        SingleIsSeen(token, word, j, seen);
        seen := seen + [word[j]];
        j := j + 1;
      }
    }
    assert word[..j] == word && Singles(word) == seen;
  }

  /**
   * For letters of the first plane the walk is what it is documented to be: the token's letters are in
   * the word in order.
   */
  lemma PlainTokensAreFound(token: Units, word: Units)
    requires forall i :: 0 <= i < |token| ==> !IsSurrogate(token[i])
    ensures InSequence(token, Singles(word)) <==> InSequence(token, word)
  {
    PairsAreInvisible(token, word);
    InSequenceIsGreedy(token, word);
    InSequenceIsGreedy(token, Singles(word));
  }

  /** A token with a letter outside the first plane is in order in no well-formed word, not even in itself. */
  lemma RareLettersAreNeverFound(token: Units, word: Units, i: nat)
    requires WellFormed(word) && i < |token| && IsSurrogate(token[i])
    ensures !InSequence(token, Singles(word))
  {
    SinglesOfWellFormed(word);
    forall places: seq<nat> ensures !Places(token, Singles(word), places) {
      assert i < |places| && places[i] < |Singles(word)| ==> !IsSurrogate(Singles(word)[places[i]]);
    }
  }

  /** U+20000 and "c" do stand in that order in U+20000, "b", "c"; the walk does not see it. */
  lemma RareLetterIsMissed()
    ensures var token: Units := [0xD840, 0xDC00, 0x63]; var word: Units := [0xD840, 0xDC00, 0x62, 0x63];
      SameStart(token, word) && InSequence(token, word) && !InSequence(token, Singles(word))
  {
    var token: Units := [0xD840, 0xDC00, 0x63];
    var word: Units := [0xD840, 0xDC00, 0x62, 0x63];
    assert Places(token, word, [0, 1, 3]);
    assert word[2..] == [0x62, 0x63] && word[2..][1..] == [0x63];
    assert WellFormed(word);
    RareLettersAreNeverFound(token, word, 0);
  }

  // ------------------------------------------------------------------ one slip against the start of a word

  ghost predicate OneSlipFrom(token: Units, word: Units) {
    |token| >= 3 && exists length: nat :: length <= |word| && OneEditApart(token, word[..length])
  }

  /** `oneSlip`: three lengths are tried, and no other could succeed. */
  method OneSlip(token: Units, word: Units) returns (slip: bool)
    ensures slip <==> OneSlipFrom(token, word)
  {
    if |token| < 3 { return false; }
    for length := |token| - 1 to |token| + 2
      invariant forall k: nat :: |token| - 1 <= k < length && k <= |word| ==> !OneEditApart(token, word[..k])
    {
      if length <= |word| {
        var within := WithinOne(token, word[..length]);
        if within { return true; }
      }
    }
    forall k: nat | k <= |word| ensures !OneEditApart(token, word[..k]) {
      if OneEditApart(token, word[..k]) { EditChangesLengthByOne(token, word[..k]); }
    }
    slip := false;
  }

  // ------------------------------------------------------------------ scores

  ghost predicate Includes(word: Units, token: Units) {
    exists at: nat :: OccursAt(word, token, at)
  }

  predicate OccursAt(word: Units, token: Units, at: nat) {
    at + |token| <= |word| && word[at..at + |token|] == token
  }

  method Find(word: Units, token: Units) returns (found: bool)
    ensures found <==> Includes(word, token)
  {
    var at := 0;
    while at + |token| <= |word|
      invariant forall k: nat :: k < at ==> !OccursAt(word, token, k)
    {
      if OccursAt(word, token, at) { return true; }
      at := at + 1;
    }
    found := false;
  }

  ghost predicate NearMiss(token: Units, word: Units) {
    (SameStart(token, word) && InSequence(token, Singles(word))) || OneSlipFrom(token, word)
  }

  /** 3 starts the word, 2 is inside it, 1 is a near miss. */
  ghost function WordScore(token: Units, word: Units): nat {
    if token <= word then 3 else if Includes(word, token) then 2 else if NearMiss(token, word) then 1 else 0
  }

  ghost predicate IsBestScore(token: Units, words: seq<Units>, best: nat) {
    && (forall i :: 0 <= i < |words| ==> WordScore(token, words[i]) <= best)
    && (best == 0 || exists i :: 0 <= i < |words| && WordScore(token, words[i]) == best)
  }

  /**
   * `tokenScore`: stops at the first word the token starts, skips near misses once it has one — and still gives the
   * best score of any word.
   */
  method TokenScore(token: Units, words: seq<Units>) returns (best: nat)
    ensures IsBestScore(token, words, best)
  {
    best := 0;
    for i := 0 to |words|
      invariant best < 3
      invariant forall k :: 0 <= k < i ==> WordScore(token, words[k]) <= best
      invariant best == 0 || exists k :: 0 <= k < i && WordScore(token, words[k]) == best
    {
      var word := words[i];
      if token <= word {
        assert WordScore(token, words[i]) == 3;
        return 3;
      }
      var inside := Find(word, token);
      if inside {
        best := if best < 2 then 2 else best;
      } else if best < 1 {
        var inOrder := InOrder(token, word);
        var slip := false;
        if !inOrder { slip := OneSlip(token, word); }
        if inOrder || slip { best := 1; }
      }
      assert WordScore(token, words[i]) <= best;
    }
  }

  /** What one item is searched by. */
  datatype Item = Item(id: nat, text: Units, words: seq<Units>, codes: seq<Units>, hsn: Units, nameOrder: int)
  /** The query once it has been read: its letters, without spaces, and its words. */
  datatype Query = Query(q: Units, code: Units, tokens: seq<Units>)

  predicate AllDigits(s: Units) { forall i :: 0 <= i < |s| ==> '0' as int <= s[i] <= '9' as int }

  /** The lowest of the tokens' best scores, and 3 when there is no token. */
  ghost predicate IsWorst(tokens: seq<Units>, words: seq<Units>, worst: nat) {
    && worst <= 3
    && (forall i, best: nat :: 0 <= i < |tokens| && IsBestScore(tokens[i], words, best) ==> worst <= best)
    && (worst == 3 || exists i :: 0 <= i < |tokens| && IsBestScore(tokens[i], words, worst))
  }

  function Weight(worst: nat): nat
    requires worst <= 3
  {
    [0, 40, 65, 80][worst]
  }

  ghost predicate IsScore(item: Item, query: Query, score: nat) {
    if query.q == [] then score == 1
    else if query.code in item.codes then score == 100
    else if |query.code| >= 3 && (exists i :: 0 <= i < |item.codes| && query.code <= item.codes[i]) then score == 75
    else if |query.code| >= 2 && AllDigits(query.code) && query.code <= item.hsn then score == 60
    else if query.q <= item.text then score == 90
    else exists worst: nat :: IsWorst(query.tokens, item.words, worst) && score == Weight(worst)
  }

  lemma BestIsUnique(token: Units, words: seq<Units>, a: nat, b: nat)
    requires IsBestScore(token, words, a) && IsBestScore(token, words, b)
    ensures a == b
  {}

  /** The loop of `scoreItem`: it ends at the first word of the query that nothing answers. */
  method WorstScore(tokens: seq<Units>, words: seq<Units>) returns (worst: nat)
    ensures IsWorst(tokens, words, worst)
  {
    worst := 3;
    for i := 0 to |tokens|
      invariant 0 < worst <= 3
      invariant IsWorst(tokens[..i], words, worst)
    {
      var best := TokenScore(tokens[i], words);
      assert tokens[..i + 1] == tokens[..i] + [tokens[i]];
      WorstStep(tokens[..i], tokens[i], words, worst, best);
      if best == 0 {
        WorstIsFinal(tokens, i, words);
        return 0;
      }
      worst := if best < worst then best else worst;
    }
    assert tokens[..|tokens|] == tokens;
  }

  /** `scoreItem`: every word of the query has to be answered; the worst answered one decides. */
  method ScoreItem(item: Item, query: Query) returns (score: nat)
    ensures IsScore(item, query, score)
  {
    if query.q == [] { return 1; }
    if query.code in item.codes { return 100; }
    if |query.code| >= 3 && exists i :: 0 <= i < |item.codes| && query.code <= item.codes[i] { return 75; }
    if |query.code| >= 2 && AllDigits(query.code) && query.code <= item.hsn { return 60; }
    if query.q <= item.text { return 90; }
    var worst := WorstScore(query.tokens, item.words);
    score := Weight(worst);
  }

  lemma WorstStep(done: seq<Units>, token: Units, words: seq<Units>, worst: nat, best: nat)
    requires IsWorst(done, words, worst) && IsBestScore(token, words, best)
    ensures IsWorst(done + [token], words, if best < worst then best else worst)
  {
    var all := done + [token];
    var now := if best < worst then best else worst;
    forall i, b: nat | 0 <= i < |all| && IsBestScore(all[i], words, b) ensures now <= b {
      if i < |done| { assert all[i] == done[i]; } else { BestIsUnique(token, words, b, best); }
    }
    if now != 3 {
      if best < worst { assert all[|done|] == token; } else {
        var i :| 0 <= i < |done| && IsBestScore(done[i], words, worst);
        assert all[i] == done[i];
      }
    }
  }

  /** One word of the query that nothing answers settles it. */
  lemma WorstIsFinal(tokens: seq<Units>, i: nat, words: seq<Units>)
    requires i < |tokens| && IsBestScore(tokens[i], words, 0)
    ensures IsWorst(tokens, words, 0)
  {}

  // ------------------------------------------------------------------ what a score says

  ghost predicate StartsAWord(token: Units, words: seq<Units>) { exists i :: 0 <= i < |words| && token <= words[i] }

  ghost predicate IsInAWord(token: Units, words: seq<Units>) {
    exists i :: 0 <= i < |words| && Includes(words[i], token)
  }

  ghost predicate IsInOrNearAWord(token: Units, words: seq<Units>) {
    exists i :: 0 <= i < |words| && (Includes(words[i], token) || NearMiss(token, words[i]))
  }

  lemma StartIsIn(token: Units, word: Units)
    requires token <= word
    ensures Includes(word, token)
  {
    assert OccursAt(word, token, 0);
  }

  lemma BestScoreSays(token: Units, words: seq<Units>, best: nat)
    requires IsBestScore(token, words, best)
    ensures best <= 3
    ensures best >= 1 <==> IsInOrNearAWord(token, words)
    ensures best >= 2 <==> IsInAWord(token, words)
    ensures best >= 3 <==> StartsAWord(token, words)
  {
    forall i | 0 <= i < |words| && token <= words[i] ensures Includes(words[i], token) { StartIsIn(token, words[i]); }
    assert forall i :: 0 <= i < |words| ==> WordScore(token, words[i]) <= best;
  }

  lemma {:induction false} BestScoreOf(token: Units, words: seq<Units>) returns (best: nat)
    ensures IsBestScore(token, words, best)
  {
    best := 0;
    if words != [] {
      var (front, last) := (words[..|words| - 1], words[|words| - 1]);
      best := BestScoreOf(token, front);
      if best != 0 {
        var i :| 0 <= i < |front| && WordScore(token, front[i]) == best;
        assert words[i] == front[i];
      }
      forall i | 0 <= i < |front| ensures WordScore(token, words[i]) <= best { assert words[i] == front[i]; }
      if WordScore(token, last) > best { best := WordScore(token, last); }
    }
  }

  /** The item is found by its code, its HSN or the start of its text, before its words are looked at. */
  ghost predicate FoundWithoutWords(item: Item, query: Query) {
    || query.q == [] || query.code in item.codes
    || (|query.code| >= 3 && exists i :: 0 <= i < |item.codes| && query.code <= item.codes[i])
    || (|query.code| >= 2 && AllDigits(query.code) && query.code <= item.hsn)
    || query.q <= item.text
  }

  lemma WorstSays(tokens: seq<Units>, words: seq<Units>, worst: nat)
    requires IsWorst(tokens, words, worst)
    ensures worst >= 1 <==> forall i :: 0 <= i < |tokens| ==> IsInOrNearAWord(tokens[i], words)
    ensures worst >= 2 <==> forall i :: 0 <= i < |tokens| ==> IsInAWord(tokens[i], words)
    ensures worst >= 3 <==> forall i :: 0 <= i < |tokens| ==> StartsAWord(tokens[i], words)
  {
    forall i | 0 <= i < |tokens|
      ensures worst >= 1 ==> IsInOrNearAWord(tokens[i], words)
      ensures worst >= 2 ==> IsInAWord(tokens[i], words)
      ensures worst >= 3 ==> StartsAWord(tokens[i], words)
    {
      var best := BestScoreOf(tokens[i], words);
      BestScoreSays(tokens[i], words, best);
    }
    if worst < 3 {
      var i :| 0 <= i < |tokens| && IsBestScore(tokens[i], words, worst);
      BestScoreSays(tokens[i], words, worst);
    }
  }

  /** Where words decide, 80 says that each starts a word of the item, 65 that it is in one, 40 that it is near one. */
  lemma WordsDecide(item: Item, query: Query, score: nat)
    requires IsScore(item, query, score) && !FoundWithoutWords(item, query)
    ensures score in {0, 40, 65, 80}
    ensures score >= 40 <==> forall i :: 0 <= i < |query.tokens| ==> IsInOrNearAWord(query.tokens[i], item.words)
    ensures score >= 65 <==> forall i :: 0 <= i < |query.tokens| ==> IsInAWord(query.tokens[i], item.words)
    ensures score >= 80 <==> forall i :: 0 <= i < |query.tokens| ==> StartsAWord(query.tokens[i], item.words)
  {
    var worst: nat :| IsWorst(query.tokens, item.words, worst) && score == Weight(worst);
    WorstSays(query.tokens, item.words, worst);
  }

  /** An item answers a query exactly when its code, HSN or text does, or each word of the query is near one of its. */
  lemma AnswersIff(item: Item, query: Query, score: nat)
    requires IsScore(item, query, score)
    ensures score > 0 <==>
            || FoundWithoutWords(item, query)
            || forall i :: 0 <= i < |query.tokens| ==> IsInOrNearAWord(query.tokens[i], item.words)
  {
    if !FoundWithoutWords(item, query) { WordsDecide(item, query, score); }
  }

  // ------------------------------------------------------------------ the list

  datatype Hit = Hit(item: Item, score: nat, sold: nat)

  /** Best score first, then sold on most bills, then by name. */
  predicate RanksBefore(a: Hit, b: Hit) {
    || a.score > b.score
    || (a.score == b.score && (a.sold > b.sold || (a.sold == b.sold && a.item.nameOrder < b.item.nameOrder)))
  }

  function Sold(sold: map<nat, nat>, item: Item): nat { if item.id in sold then sold[item.id] else 0 }

  /** The items that answer, in the order they are kept, each with its score and how often it was sold. */
  ghost predicate IsFound(found: seq<Hit>, items: seq<Item>, query: Query, sold: map<nat, nat>) {
    if items == [] then found == []
    else
      var (front, last) := (items[..|items| - 1], items[|items| - 1]);
      || (IsScore(last, query, 0) && IsFound(found, front, query, sold))
      || (found != [] && IsHit(found[|found| - 1], last, query, sold)
        && IsFound(found[..|found| - 1], front, query, sold))
  }

  ghost predicate IsHit(hit: Hit, item: Item, query: Query, sold: map<nat, nat>) {
    hit.item == item && IsScore(item, query, hit.score) && hit.score > 0 && hit.sold == Sold(sold, item)
  }

  function FirstItems(hits: seq<Hit>, limit: nat): seq<Item> {
    var first := if |hits| <= limit then hits else hits[..limit];
    seq(|first|, k requires 0 <= k < |first| => first[k].item)
  }

  /** `searchItems`: the items that answer, ranked, and the first `limit` of them shown. */
  method SearchItems(items: seq<Item>, query: Query, sold: map<nat, nat>, limit: nat) returns (shown: seq<Item>)
    ensures exists found ::
              && IsFound(found, items, query, sold)
              && shown == FirstItems(Sorting.Sort(found, RanksBefore), limit)
  {
    var found: seq<Hit> := [];
    for i := 0 to |items|
      invariant IsFound(found, items[..i], query, sold)
    {
      assert items[..i + 1][..i] == items[..i];
      var score := ScoreItem(items[i], query);
      if score > 0 {
        ghost var before := found;
        found := found + [Hit(items[i], score, Sold(sold, items[i]))];
        assert found[..|found| - 1] == before;
      }
    }
    assert items[..|items|] == items;
    shown := FirstItems(Sorting.Sort(found, RanksBefore), limit);
  }

  lemma WorstIsUnique(tokens: seq<Units>, words: seq<Units>, a: nat, b: nat)
    requires IsWorst(tokens, words, a) && IsWorst(tokens, words, b)
    ensures a == b
  {}

  lemma ScoreIsUnique(item: Item, query: Query, a: nat, b: nat)
    requires IsScore(item, query, a) && IsScore(item, query, b)
    ensures a == b
  {
    if exists v: nat, w: nat :: IsWorst(query.tokens, item.words, v) && IsWorst(query.tokens, item.words, w) && v != w {
      var v: nat, w: nat :| IsWorst(query.tokens, item.words, v) && IsWorst(query.tokens, item.words, w) && v != w;
      WorstIsUnique(query.tokens, item.words, v, w);
    }
  }

  /** What is found, and so what is shown, is settled by the items, the query and the counts. */
  lemma {:induction false} FoundIsUnique(a: seq<Hit>, b: seq<Hit>, items: seq<Item>, query: Query, sold: map<nat, nat>)
    requires IsFound(a, items, query, sold) && IsFound(b, items, query, sold)
    ensures a == b
  {
    if items != [] {
      var (front, last) := (items[..|items| - 1], items[|items| - 1]);
      forall x: nat, y: nat | IsScore(last, query, x) && IsScore(last, query, y)
        ensures x == y
      {
        ScoreIsUnique(last, query, x, y);
      }
      if IsScore(last, query, 0) {
        FoundIsUnique(a, b, front, query, sold);
      } else {
        FoundIsUnique(a[..|a| - 1], b[..|b| - 1], front, query, sold);
        assert a == a[..|a| - 1] + [a[|a| - 1]] && b == b[..|b| - 1] + [b[|b| - 1]];
      }
    }
  }

  /** Ranking is a true ranking: nothing is lost, and nothing stands before what ranks before it. */
  lemma RankedHits(found: seq<Hit>)
    ensures var ranked := Sorting.Sort(found, RanksBefore);
      multiset(ranked) == multiset(found) && forall j, k :: 0 <= j < k < |ranked| ==> !RanksBefore(ranked[k], ranked[j])
  {
    assert Sorting.WeakOrder(RanksBefore);
    Sorting.SortSorts(found, RanksBefore);
    Sorting.SortPermutes(found, RanksBefore);
  }

  // ------------------------------------------------------------------ what is shown

  ghost predicate IsHitOfAny(hit: Hit, items: seq<Item>, query: Query, sold: map<nat, nat>) {
    hit.item in items && IsHit(hit, hit.item, query, sold)
  }

  lemma {:induction false} FoundAre(found: seq<Hit>, items: seq<Item>, query: Query, sold: map<nat, nat>)
    requires IsFound(found, items, query, sold)
    ensures forall hit <- found :: IsHitOfAny(hit, items, query, sold)
    ensures forall item <- items :: IsScore(item, query, 0) || exists hit <- found :: hit.item == item
  {
    if items != [] {
      var (front, last) := (items[..|items| - 1], items[|items| - 1]);
      assert items == front + [last];
      if IsScore(last, query, 0) && IsFound(found, front, query, sold) {
        FoundAre(found, front, query, sold);
      } else {
        var (before, hit) := (found[..|found| - 1], found[|found| - 1]);
        FoundAre(before, front, query, sold);
        assert found == before + [hit];
      }
    }
  }

  /** `a` scores more; or the same and was sold on more bills; or on as many, and its name does not come later. */
  ghost predicate RanksNoLater(a: Item, b: Item, query: Query, sold: map<nat, nat>) {
    forall x: nat, y: nat :: IsScore(a, query, x) && IsScore(b, query, y) ==>
      || x > y
      || (x == y && Sold(sold, a) > Sold(sold, b))
      || (x == y && Sold(sold, a) == Sold(sold, b) && a.nameOrder <= b.nameOrder)
  }

  lemma HitsRank(a: Hit, b: Hit, query: Query, sold: map<nat, nat>)
    requires IsHit(a, a.item, query, sold) && IsHit(b, b.item, query, sold) && !RanksBefore(b, a)
    ensures RanksNoLater(a.item, b.item, query, sold)
  {
    forall x: nat, y: nat | IsScore(a.item, query, x) && IsScore(b.item, query, y)
      ensures x == a.score && y == b.score
    {
      ScoreIsUnique(a.item, query, x, a.score);
      ScoreIsUnique(b.item, query, y, b.score);
    }
  }

  /** Hits of the items, of every item that answers, in an order that ranks them. */
  ghost predicate RanksAll(ranked: seq<Hit>, items: seq<Item>, query: Query, sold: map<nat, nat>) {
    && (forall hit <- ranked :: IsHitOfAny(hit, items, query, sold))
    && (forall item <- items :: IsScore(item, query, 0) || exists hit <- ranked :: hit.item == item)
    && (forall j, k :: 0 <= j < k < |ranked| ==> RanksNoLater(ranked[j].item, ranked[k].item, query, sold))
  }

  lemma RankedAre(found: seq<Hit>, items: seq<Item>, query: Query, sold: map<nat, nat>)
    requires IsFound(found, items, query, sold)
    ensures RanksAll(Sorting.Sort(found, RanksBefore), items, query, sold)
  {
    var ranked := Sorting.Sort(found, RanksBefore);
    FoundAre(found, items, query, sold);
    RankedHits(found);
    forall hit ensures hit in ranked <==> hit in found { Sorting.SortKeeps(found, RanksBefore, hit); }
    forall j, k | 0 <= j < k < |ranked|
      ensures RanksNoLater(ranked[j].item, ranked[k].item, query, sold)
    {
      assert ranked[j] in ranked && ranked[k] in ranked;
      HitsRank(ranked[j], ranked[k], query, sold);
    }
  }

  /** Items that answer, best first. */
  ghost predicate AreAnswers(shown: seq<Item>, items: seq<Item>, query: Query, sold: map<nat, nat>) {
    && (forall item <- shown :: item in items && !IsScore(item, query, 0))
    && (forall j, k :: 0 <= j < k < |shown| ==> RanksNoLater(shown[j], shown[k], query, sold))
  }

  lemma FirstAreAnswers(ranked: seq<Hit>, items: seq<Item>, query: Query, sold: map<nat, nat>, limit: nat)
    requires RanksAll(ranked, items, query, sold)
    ensures AreAnswers(FirstItems(ranked, limit), items, query, sold)
  {
    var shown := FirstItems(ranked, limit);
    forall k | 0 <= k < |shown| ensures shown[k] in items && !IsScore(shown[k], query, 0) {
      assert ranked[k] in ranked;
      if IsScore(shown[k], query, 0) { ScoreIsUnique(shown[k], query, 0, ranked[k].score); }
    }
  }

  lemma RestRanksAfter(ranked: seq<Hit>, items: seq<Item>, query: Query, sold: map<nat, nat>, limit: nat, item: Item)
    requires RanksAll(ranked, items, query, sold) && item in items && !IsScore(item, query, 0)
    ensures var shown := FirstItems(ranked, limit);
      item in shown || (|shown| == limit && forall other <- shown :: RanksNoLater(other, item, query, sold))
  {
    var shown := FirstItems(ranked, limit);
    var hit :| hit in ranked && hit.item == item;
    var k :| 0 <= k < |ranked| && ranked[k] == hit;
    assert forall j :: 0 <= j < |shown| ==> shown[j] == ranked[j].item && shown[j] in shown;
  }

  /**
   * What is shown answers the query, best first, and never more than the limit; and an item that answers but is not
   * shown ranks after all that are, with the list full.
   */
  lemma ShownAreBest(found: seq<Hit>, items: seq<Item>, query: Query, sold: map<nat, nat>, limit: nat)
    requires IsFound(found, items, query, sold)
    ensures var shown := FirstItems(Sorting.Sort(found, RanksBefore), limit);
      && |shown| <= limit && AreAnswers(shown, items, query, sold)
      && (forall item <- items :: IsScore(item, query, 0) || item in shown ||
            (|shown| == limit && forall other <- shown :: RanksNoLater(other, item, query, sold)))
  {
    var ranked := Sorting.Sort(found, RanksBefore);
    RankedAre(found, items, query, sold);
    FirstAreAnswers(ranked, items, query, sold, limit);
    forall item | item in items && !IsScore(item, query, 0)
      ensures var shown := FirstItems(ranked, limit);
        item in shown || (|shown| == limit && forall other <- shown :: RanksNoLater(other, item, query, sold))
    {
      RestRanksAfter(ranked, items, query, sold, limit, item);
    }
  }
}
