/** Splitting, joining and trimming, as the JavaScript library does them. */
module Texts {

  /** What `\s` and `trim` treat as white space. */
  predicate IsSpace(c: char) {
    c == ' ' || '\t' <= c <= '\r' || c == '\U{00A0}' || c == '\U{1680}' || '\U{2000}' <= c <= '\U{200A}' ||
    c == '\U{2028}' || c == '\U{2029}' || c == '\U{202F}' || c == '\U{205F}' || c == '\U{3000}' || c == '\U{FEFF}'
  }

  /** `trim() === ''` */
  predicate Blank(s: string) { forall c <- s :: IsSpace(c) }

  function TrimStart<T>(s: seq<T>, blank: T -> bool): seq<T> {
    if s != [] && blank(s[0]) then TrimStart(s[1..], blank) else s
  }

  function TrimEnd<T>(s: seq<T>, blank: T -> bool): seq<T> {
    if s != [] && blank(s[|s| - 1]) then TrimEnd(s[..|s| - 1], blank) else s
  }

  function Trim<T>(s: seq<T>, blank: T -> bool): seq<T> {
    TrimEnd(TrimStart(s, blank), blank)
  }

  /** `String.split` on one letter: always at least one part. */
  function Split<T(==)>(s: seq<T>, mark: T): (parts: seq<seq<T>>)
    ensures |parts| >= 1
  {
    if s == [] then [[]]
    else if s[0] == mark then [[]] + Split(s[1..], mark)
    else
      var rest := Split(s[1..], mark);
      [[s[0]] + rest[0]] + rest[1..]
  }

  function Join<T>(parts: seq<seq<T>>, mark: T): seq<T> {
    if parts == [] then []
    else if |parts| == 1 then parts[0]
    else parts[0] + [mark] + Join(parts[1..], mark)
  }

  ghost predicate Free<T>(parts: seq<seq<T>>, mark: T) {
    forall i :: 0 <= i < |parts| ==> mark !in parts[i]
  }

  lemma {:induction false} SplitOfPlain<T>(s: seq<T>, mark: T)
    requires mark !in s
    ensures Split(s, mark) == [s]
  {
    if s != [] {
      SplitOfPlain(s[1..], mark);
      assert [s[0]] + s[1..] == s;
    }
  }

  lemma {:induction false} SplitOfMarked<T>(head: seq<T>, mark: T, tail: seq<T>)
    requires mark !in head
    ensures Split(head + [mark] + tail, mark) == [head] + Split(tail, mark)
  {
    var s := head + [mark] + tail;
    if head == [] {
      assert s[1..] == tail;
    } else {
      assert s[1..] == head[1..] + [mark] + tail;
      SplitOfMarked(head[1..], mark, tail);
      assert [s[0]] + head[1..] == head;
    }
  }

  /** Splitting what was joined gives the parts back. */
  lemma {:induction false} SplitJoin<T>(parts: seq<seq<T>>, mark: T)
    requires parts != [] && Free(parts, mark)
    ensures Split(Join(parts, mark), mark) == parts
  {
    if |parts| == 1 {
      SplitOfPlain(parts[0], mark);
    } else {
      SplitOfMarked(parts[0], mark, Join(parts[1..], mark));
      assert Free(parts[1..], mark);
      SplitJoin(parts[1..], mark);
    }
  }

  lemma {:induction false} SplitIsFree<T>(s: seq<T>, mark: T)
    ensures Free(Split(s, mark), mark)
  {
    if s != [] {
      SplitIsFree(s[1..], mark);
    }
  }

  /** Joining what was split gives the text back. */
  lemma {:induction false} JoinSplit<T>(s: seq<T>, mark: T)
    ensures Join(Split(s, mark), mark) == s
  {
    if s != [] {
      var rest := Split(s[1..], mark);
      JoinSplit(s[1..], mark);
      if s[0] == mark {
        assert ([[]] + rest)[1..] == rest;
      } else {
        var parts := [[s[0]] + rest[0]] + rest[1..];
        assert parts[1..] == rest[1..];
        if |rest| > 1 {
          assert [s[0]] + rest[0] + [mark] + Join(rest[1..], mark) ==
            [s[0]] + (rest[0] + [mark] + Join(rest[1..], mark));
        }
      }
      assert [s[0]] + s[1..] == s;
    }
  }

  /** Two parts without the mark, each followed by it, are told apart by what they start. */
  lemma HeadTells(head: string, tail: string, head': string, tail': string)
    requires ':' !in head && ':' !in head' && head + ":" + tail == head' + ":" + tail'
    ensures head == head' && tail == tail'
  {
    SplitOfMarked(head, ':', tail);
    SplitOfMarked(head', ':', tail');
    assert ([head] + Split(tail, ':'))[0] == ([head'] + Split(tail', ':'))[0];
    assert tail == (head + ":" + tail)[|head| + 1..];
  }
}
