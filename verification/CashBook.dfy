/** The cash book and the bank book: every movement with the balance after it. */
module CashBook {
  import opened Basics
  import opened Ledger
  import Sorting

  datatype Row = Row(voucher: VoucherId, date: Day, moneyIn: int, moneyOut: int, balance: int)
  datatype Book = Book(opening: int, closing: int, rows: seq<Row>)

  function InLines(lines: seq<Line>, ids: set<AccountId>): int {
    if lines == [] then 0
    else InLines(lines[..|lines| - 1], ids) + if lines[|lines| - 1].account in ids then lines[|lines| - 1].debit else 0
  }

  function OutLines(lines: seq<Line>, ids: set<AccountId>): int {
    if lines == [] then 0
    else
      OutLines(lines[..|lines| - 1], ids) +
      if lines[|lines| - 1].account in ids then lines[|lines| - 1].credit else 0
  }

  function Net(v: Voucher, ids: set<AccountId>): int { InLines(v.lines, ids) - OutLines(v.lines, ids) }

  /** The plain sum the book refines: all that moved in its accounts up to the end of a day. */
  function BookBalance(vouchers: seq<Voucher>, ids: set<AccountId>, day: Day): int {
    if vouchers == [] then 0
    else
      var last := vouchers[|vouchers| - 1];
      BookBalance(vouchers[..|vouchers| - 1], ids, day) +
        if last.state != Draft && last.date <= day then Net(last, ids) else 0
  }

  function Total(vouchers: seq<Voucher>, ids: set<AccountId>): int {
    if vouchers == [] then 0 else Total(vouchers[..|vouchers| - 1], ids) + Net(vouchers[|vouchers| - 1], ids)
  }

  predicate InBook(v: Voucher, ids: set<AccountId>) {
    v.state != Draft && exists i :: 0 <= i < |v.lines| && v.lines[i].account in ids
  }

  /** The book's vouchers dated in a range, in the order they were posted. */
  function Within(vouchers: seq<Voucher>, ids: set<AccountId>, from: Option<Day>, to: Day): seq<Voucher> {
    if vouchers == [] then []
    else
      var last := vouchers[|vouchers| - 1];
      var front := Within(vouchers[..|vouchers| - 1], ids, from, to);
      if InBook(last, ids) && InRange(last.date, from, to) then front + [last] else front
  }

  predicate InRange(day: Day, from: Option<Day>, to: Day) { day <= to && (from.Some? ==> from.value <= day) }

  /** By date, and on one date by when they were written. */
  predicate Before(a: Voucher, b: Voucher) {
    a.date < b.date || (a.date == b.date && a.createdAt < b.createdAt)
  }

  function Page(vouchers: seq<Voucher>, ids: set<AccountId>, from: Option<Day>, to: Day): seq<Voucher> {
    Sorting.Sort(Within(vouchers, ids, from, to), Before)
  }

  /** The page's rows, carrying the balance on from row to row. */
  function RowsOf(page: seq<Voucher>, ids: set<AccountId>, opening: int): seq<Row> {
    if page == [] then []
    else
      var last := page[|page| - 1];
      RowsOf(page[..|page| - 1], ids, opening) +
      [Row(last.id, last.date, InLines(last.lines, ids), OutLines(last.lines, ids), opening + Total(page, ids))]
  }

  /** The day before which everything is in the opening balance. */
  function OpeningDay(from: Option<Day>, to: Day): Option<Day> {
    match from case None => None case Some(day) => Some(if day - 1 <= to then day - 1 else to)
  }

  function OpeningOf(vouchers: seq<Voucher>, ids: set<AccountId>, from: Option<Day>, to: Day): int {
    match OpeningDay(from, to) case None => 0 case Some(day) => BookBalance(vouchers, ids, day)
  }

  function BookOf(vouchers: seq<Voucher>, ids: set<AccountId>, from: Option<Day>, to: Day): Book {
    Book(OpeningOf(vouchers, ids, from, to), BookBalance(vouchers, ids, to),
         RowsOf(Page(vouchers, ids, from, to), ids, OpeningOf(vouchers, ids, from, to)))
  }

  // ------------------------------------------------------------------ sums

  lemma {:induction false} OutOfBookIsStill(lines: seq<Line>, ids: set<AccountId>)
    requires forall i :: 0 <= i < |lines| ==> lines[i].account !in ids
    ensures InLines(lines, ids) == 0 && OutLines(lines, ids) == 0
  {
    if lines != [] { OutOfBookIsStill(lines[..|lines| - 1], ids); }
  }

  lemma TotalOfAppended(a: seq<Voucher>, v: Voucher, ids: set<AccountId>)
    ensures Total(a + [v], ids) == Total(a, ids) + Net(v, ids)
  {
    assert (a + [v])[..|a|] == a;
  }

  lemma {:induction false} TotalOfConcat(a: seq<Voucher>, b: seq<Voucher>, ids: set<AccountId>)
    ensures Total(a + b, ids) == Total(a, ids) + Total(b, ids)
  {
    if b == [] {
      assert a + b == a;
    } else {
      TotalOfConcat(a, b[..|b| - 1], ids);
      assert (a + b)[..|a + b| - 1] == a + b[..|b| - 1];
    }
  }

  lemma {:induction false} TotalOfInserted(v: Voucher, s: seq<Voucher>, ids: set<AccountId>)
    ensures Total(Sorting.Insert(v, s, Before), ids) == Total(s, ids) + Net(v, ids)
  {
    if s == [] {
      assert [v] == [] + [v];
      TotalOfAppended([], v, ids);
    } else if Before(v, s[|s| - 1]) {
      TotalOfInserted(v, s[..|s| - 1], ids);
      TotalOfAppended(Sorting.Insert(v, s[..|s| - 1], Before), s[|s| - 1], ids);
    } else {
      TotalOfAppended(s, v, ids);
    }
  }

  /** Sorting moves no money. */
  lemma {:induction false} TotalOfSorted(s: seq<Voucher>, ids: set<AccountId>)
    ensures Total(Sorting.Sort(s, Before), ids) == Total(s, ids)
  {
    if s != [] {
      TotalOfSorted(s[..|s| - 1], ids);
      TotalOfInserted(s[|s| - 1], Sorting.Sort(s[..|s| - 1], Before), ids);
    }
  }

  lemma {:induction false} TotalWithin(vouchers: seq<Voucher>, ids: set<AccountId>, to: Day)
    ensures Total(Within(vouchers, ids, None, to), ids) == BookBalance(vouchers, ids, to)
  {
    if vouchers != [] {
      var (front, last) := (vouchers[..|vouchers| - 1], vouchers[|vouchers| - 1]);
      TotalWithin(front, ids, to);
      if InBook(last, ids) && last.date <= to {
        TotalOfAppended(Within(front, ids, None, to), last, ids);
      } else if !InBook(last, ids) && last.state != Draft {
        OutOfBookIsStill(last.lines, ids);
      }
    }
  }

  // ------------------------------------------------------------------ sorting in two parts

  function Next(day: Day): Option<Day> { Some(day + 1) }

  ghost predicate Dated(page: seq<Voucher>, from: Option<Day>, to: Day) {
    forall i :: 0 <= i < |page| ==> InRange(page[i].date, from, to)
  }

  lemma {:induction false} WithinIsDated(vouchers: seq<Voucher>, ids: set<AccountId>, from: Option<Day>, to: Day)
    ensures Dated(Within(vouchers, ids, from, to), from, to)
  {
    if vouchers != [] { WithinIsDated(vouchers[..|vouchers| - 1], ids, from, to); }
  }

  lemma PageIsDated(vouchers: seq<Voucher>, ids: set<AccountId>, from: Option<Day>, to: Day)
    ensures Dated(Page(vouchers, ids, from, to), from, to)
  {
    WithinIsDated(vouchers, ids, from, to);
    var page := Page(vouchers, ids, from, to);
    forall i | 0 <= i < |page| ensures InRange(page[i].date, from, to) {
      Sorting.SortKeeps(Within(vouchers, ids, from, to), Before, page[i]);
    }
  }

  /** One more voucher is inserted into the page, or is not in it. */
  lemma PageStep(vouchers: seq<Voucher>, ids: set<AccountId>, from: Option<Day>, to: Day)
    requires vouchers != []
    ensures var (front, v) := (vouchers[..|vouchers| - 1], vouchers[|vouchers| - 1]);
      Page(vouchers, ids, from, to) ==
      if InBook(v, ids) && InRange(v.date, from, to) then Sorting.Insert(v, Page(front, ids, from, to), Before)
      else Page(front, ids, from, to)
  {
    var (front, v) := (vouchers[..|vouchers| - 1], vouchers[|vouchers| - 1]);
    if InBook(v, ids) && InRange(v.date, from, to) {
      assert (Within(front, ids, from, to) + [v])[..|Within(front, ids, from, to)|] == Within(front, ids, from, to);
    }
  }

  /** The page of a range is the page up to a day followed by the page after it. */
  lemma {:induction false} PageSplits(vouchers: seq<Voucher>, ids: set<AccountId>, from: Option<Day>, mid: Day, to: Day)
    requires mid <= to && (from.Some? ==> from.value <= mid + 1)
    ensures Page(vouchers, ids, from, to) == Page(vouchers, ids, from, mid) + Page(vouchers, ids, Next(mid), to)
  {
    if vouchers != [] {
      var (front, v) := (vouchers[..|vouchers| - 1], vouchers[|vouchers| - 1]);
      PageSplits(front, ids, from, mid, to);
      PageStep(vouchers, ids, from, to);
      PageStep(vouchers, ids, from, mid);
      PageStep(vouchers, ids, Next(mid), to);
      PageIsDated(front, ids, from, mid);
      PageIsDated(front, ids, Next(mid), to);
      InsertSplits(v, Page(front, ids, from, mid), Page(front, ids, Next(mid), to), from, mid, to);
    }
  }

  lemma InsertSplits(v: Voucher, a: seq<Voucher>, b: seq<Voucher>, from: Option<Day>, mid: Day, to: Day)
    requires Dated(a, from, mid) && Dated(b, Next(mid), to)
    ensures Sorting.Insert(v, a + b, Before) ==
      if v.date <= mid then Sorting.Insert(v, a, Before) + b else a + Sorting.Insert(v, b, Before)
  {
    if v.date <= mid {
      Sorting.InsertBeforeLater(v, a, b, Before);
    } else {
      Sorting.InsertAfterEarlier(v, a, b, Before);
    }
  }

  lemma TotalOfPage(vouchers: seq<Voucher>, ids: set<AccountId>, to: Day)
    ensures Total(Page(vouchers, ids, None, to), ids) == BookBalance(vouchers, ids, to)
  {
    TotalWithin(vouchers, ids, to);
    TotalOfSorted(Within(vouchers, ids, None, to), ids);
  }

  // ------------------------------------------------------------------ what a book says

  lemma {:induction false} RowsOfConcat(a: seq<Voucher>, b: seq<Voucher>, ids: set<AccountId>, opening: int)
    ensures RowsOf(a + b, ids, opening) == RowsOf(a, ids, opening) + RowsOf(b, ids, opening + Total(a, ids))
  {
    if b == [] {
      assert a + b == a;
    } else {
      RowsOfConcat(a, b[..|b| - 1], ids, opening);
      assert (a + b)[..|a + b| - 1] == a + b[..|b| - 1];
      TotalOfConcat(a, b, ids);
    }
  }

  function RowAt(page: seq<Voucher>, ids: set<AccountId>, opening: int, k: nat): Row
    requires k < |page|
  {
    Row(page[k].id, page[k].date, InLines(page[k].lines, ids), OutLines(page[k].lines, ids), opening +
      Total(page[..k + 1], ids))
  }

  lemma {:induction false} RowIsVoucher(page: seq<Voucher>, ids: set<AccountId>, opening: int)
    ensures |RowsOf(page, ids, opening)| == |page|
    ensures forall k :: 0 <= k < |page| ==> RowsOf(page, ids, opening)[k] == RowAt(page, ids, opening, k)
  {
    if page != [] {
      var front := page[..|page| - 1];
      RowIsVoucher(front, ids, opening);
      forall k | 0 <= k < |page|
        ensures RowsOf(page, ids, opening)[k] == RowAt(page, ids, opening, k)
      {
        if k < |front| { assert front[..k + 1] == page[..k + 1]; } else { assert page[..k + 1] == page; }
      }
    }
  }

  /** The part of the list sorted from the very first entry that is all opening balance. */
  ghost function HeadOf(vouchers: seq<Voucher>, ids: set<AccountId>, from: Option<Day>, to: Day): seq<Voucher> {
    match OpeningDay(from, to) case None => [] case Some(day) => Page(vouchers, ids, None, day)
  }

  ghost predicate AllBefore(head: seq<Voucher>, from: Option<Day>) {
    if from.None? then head == [] else forall k :: 0 <= k < |head| ==> head[k].date < from.value
  }

  ghost predicate AllFrom(page: seq<Voucher>, from: Option<Day>) {
    from.Some? ==> forall k :: 0 <= k < |page| ==> from.value <= page[k].date
  }

  lemma EmptyRange(page: seq<Voucher>, from: Option<Day>, to: Day)
    requires Dated(page, from, to) && from.Some? && from.value > to
    ensures page == []
  {
    assert |page| > 0 ==> InRange(page[0].date, from, to);
  }

  /** The whole list is what the opening balance sums, then the page. */
  lemma HeadThenPage(vouchers: seq<Voucher>, ids: set<AccountId>, from: Option<Day>, to: Day)
    ensures Page(vouchers, ids, None, to) == HeadOf(vouchers, ids, from, to) + Page(vouchers, ids, from, to)
    ensures Total(HeadOf(vouchers, ids, from, to), ids) == OpeningOf(vouchers, ids, from, to)
    ensures AllBefore(HeadOf(vouchers, ids, from, to), from) && AllFrom(Page(vouchers, ids, from, to), from)
  {
    PageIsDated(vouchers, ids, from, to);
    if from.Some? {
      var day := OpeningDay(from, to).value;
      TotalOfPage(vouchers, ids, day);
      PageIsDated(vouchers, ids, None, day);
      if from.value <= to + 1 {
        PageSplits(vouchers, ids, None, day, to);
        assert Next(day) == from;
      } else {
        EmptyRange(Page(vouchers, ids, from, to), from, to);
      }
    }
  }

  lemma OpeningAndPage(vouchers: seq<Voucher>, ids: set<AccountId>, from: Option<Day>, to: Day)
    ensures OpeningOf(vouchers, ids, from, to) + Total(Page(vouchers, ids, from, to), ids) ==
      BookBalance(vouchers, ids, to)
  {
    HeadThenPage(vouchers, ids, from, to);
    TotalOfPage(vouchers, ids, to);
    TotalOfConcat(HeadOf(vouchers, ids, from, to), Page(vouchers, ids, from, to), ids);
  }

  /** Row `k` of a page that follows `head` shows the running total of both, and names the right voucher. */
  ghost predicate RowsRunOn(all: seq<Voucher>, rows: seq<Row>, ids: set<AccountId>) {
    && |rows| <= |all|
    && forall k :: 0 <= k < |rows| ==>
         && rows[k].voucher == all[|all| - |rows| + k].id
         && rows[k].balance == Total(all[..|all| - |rows| + k + 1], ids)
  }

  lemma RowRunsOn(head: seq<Voucher>, page: seq<Voucher>, ids: set<AccountId>, k: nat)
    requires k < |page|
    ensures |RowsOf(page, ids, Total(head, ids))| == |page|
    ensures RowsOf(page, ids, Total(head, ids))[k].voucher == (head + page)[|head| + k].id
    ensures RowsOf(page, ids, Total(head, ids))[k].balance == Total((head + page)[..|head| + k + 1], ids)
  {
    RowIsVoucher(page, ids, Total(head, ids));
    assert (head + page)[..|head| + k + 1] == head + page[..k + 1];
    TotalOfConcat(head, page[..k + 1], ids);
  }

  lemma PageRunsOn(head: seq<Voucher>, page: seq<Voucher>, ids: set<AccountId>)
    ensures RowsRunOn(head + page, RowsOf(page, ids, Total(head, ids)), ids)
  {
    RowIsVoucher(page, ids, Total(head, ids));
    forall k | 0 <= k < |page|
      ensures RowsOf(page, ids, Total(head, ids))[k].voucher == (head + page)[|head| + k].id
      ensures RowsOf(page, ids, Total(head, ids))[k].balance == Total((head + page)[..|head| + k + 1], ids)
    {
      RowRunsOn(head, page, ids, k);
    }
  }

  /**
   * Every row of every book shows the sum of all movements of the book's accounts up to that row, in
   * date order from the very first entry of the books.
   */
  lemma RowsShowRunningTotal(vouchers: seq<Voucher>, ids: set<AccountId>, from: Option<Day>, to: Day)
    ensures RowsRunOn(Page(vouchers, ids, None, to), BookOf(vouchers, ids, from, to).rows, ids)
  {
    HeadThenPage(vouchers, ids, from, to);
    PageRunsOn(HeadOf(vouchers, ids, from, to), Page(vouchers, ids, from, to), ids);
  }

  /** The last row shows what the book's accounts hold that day, which is what the book closes on. */
  lemma LastRowIsClosing(vouchers: seq<Voucher>, ids: set<AccountId>, from: Option<Day>, to: Day)
    ensures var book := BookOf(vouchers, ids, from, to);
      && book.closing == BookBalance(vouchers, ids, to)
      && (if book.rows == [] then book.opening else book.rows[|book.rows| - 1].balance) == book.closing
  {
    var (opening, page) := (OpeningOf(vouchers, ids, from, to), Page(vouchers, ids, from, to));
    OpeningAndPage(vouchers, ids, from, to);
    LastRowTotals(page, ids, opening);
    assert BookOf(vouchers, ids, from, to).rows == RowsOf(page, ids, opening);
  }

  lemma LastRowTotals(page: seq<Voucher>, ids: set<AccountId>, opening: int)
    ensures var rows := RowsOf(page, ids, opening);
      (if rows == [] then opening else rows[|rows| - 1].balance) == opening + Total(page, ids)
  {}

  /** Two books end to end are one book: the first closes where the second opens, whatever `from` was. */
  lemma BooksJoin(vouchers: seq<Voucher>, ids: set<AccountId>, from: Option<Day>, mid: Day, to: Day)
    requires mid <= to && (from.Some? ==> from.value <= mid + 1)
    ensures var (first, second, whole) :=
      (BookOf(vouchers, ids, from, mid), BookOf(vouchers, ids, Next(mid), to), BookOf(vouchers, ids, from, to));
      && first.closing == second.opening
      && whole.opening == first.opening && whole.closing == second.closing
      && whole.rows == first.rows + second.rows
  {
    var (a, b) := (Page(vouchers, ids, from, mid), Page(vouchers, ids, Next(mid), to));
    PageSplits(vouchers, ids, from, mid, to);
    OpeningAndPage(vouchers, ids, from, mid);
    RowsOfConcat(a, b, ids, OpeningOf(vouchers, ids, from, mid));
    assert OpeningOf(vouchers, ids, Next(mid), to) == BookBalance(vouchers, ids, mid);
    assert OpeningOf(vouchers, ids, from, to) == OpeningOf(vouchers, ids, from, mid);
  }

  lemma {:induction false} WithinHolds(vouchers: seq<Voucher>, ids: set<AccountId>, from: Option<Day>, to: Day,
                                       v: Voucher)
    ensures v in Within(vouchers, ids, from, to) <==>
            && v in vouchers && v.state != Draft && v.date <= to && (from.None? || from.value <= v.date)
            && exists line <- v.lines :: line.account in ids
  {
    if vouchers != [] {
      var (front, last) := (vouchers[..|vouchers| - 1], vouchers[|vouchers| - 1]);
      WithinHolds(front, ids, from, to, v);
      assert vouchers == front + [last];
      if v == last && exists line <- v.lines :: line.account in ids {
        var line :| line in v.lines && line.account in ids;
        var i :| 0 <= i < |v.lines| && v.lines[i] == line;
      }
    }
  }

  /** `a` stands on an earlier day than `b`, or on the same day and was not written after it. */
  predicate InDayOrder(a: Voucher, b: Voucher) {
    a.date < b.date || (a.date == b.date && a.createdAt <= b.createdAt)
  }

  /** A page holds what touches the book between its days, and nothing else, day by day and as written. */
  lemma PageHolds(vouchers: seq<Voucher>, ids: set<AccountId>, from: Option<Day>, to: Day)
    ensures var page := Page(vouchers, ids, from, to);
      && (forall v :: v in page <==>
            && v in vouchers && v.state != Draft && v.date <= to && (from.None? || from.value <= v.date)
            && exists line <- v.lines :: line.account in ids)
      && (forall j, k :: 0 <= j < k < |page| ==> InDayOrder(page[j], page[k]))
  {
    var within := Within(vouchers, ids, from, to);
    forall v
      ensures v in Page(vouchers, ids, from, to) <==>
              && v in vouchers && v.state != Draft && v.date <= to && (from.None? || from.value <= v.date)
              && exists line <- v.lines :: line.account in ids
    {
      WithinHolds(vouchers, ids, from, to, v);
      Sorting.SortKeeps(within, Before, v);
    }
    assert Sorting.WeakOrder(Before);
    Sorting.SortSorts(within, Before);
  }

  /** The row is of the entry, and takes the balance before it on by what came in less what went. */
  predicate TakesOn(row: Row, v: Voucher, before: int) {
    row.voucher == v.id && row.date == v.date && row.balance == before + row.moneyIn - row.moneyOut
  }

  function BalanceBefore(book: Book, k: nat): int
    requires k <= |book.rows|
  {
    if k == 0 then book.opening else book.rows[k - 1].balance
  }

  /** A book has a row for each entry of its page, and from its opening each takes the balance on. */
  lemma RowsAreEntries(vouchers: seq<Voucher>, ids: set<AccountId>, from: Option<Day>, to: Day)
    ensures var (book, page) := (BookOf(vouchers, ids, from, to), Page(vouchers, ids, from, to));
      && |book.rows| == |page|
      && forall k :: 0 <= k < |page| ==> TakesOn(book.rows[k], page[k], BalanceBefore(book, k))
  {
    var (book, page) := (BookOf(vouchers, ids, from, to), Page(vouchers, ids, from, to));
    RowIsVoucher(page, ids, book.opening);
    forall k | 0 <= k < |page| ensures TakesOn(book.rows[k], page[k], BalanceBefore(book, k)) {
      assert book.rows[k] == RowAt(page, ids, book.opening, k);
      assert page[..k + 1] == page[..k] + [page[k]];
      TotalOfAppended(page[..k], page[k], ids);
      assert k > 0 ==> book.rows[k - 1] == RowAt(page, ids, book.opening, k - 1);
    }
  }

  // ------------------------------------------------------------------ the loop

  method SumSides(lines: seq<Line>, ids: set<AccountId>) returns (moneyIn: int, moneyOut: int)
    ensures moneyIn == InLines(lines, ids) && moneyOut == OutLines(lines, ids)
  {
    moneyIn, moneyOut := 0, 0;
    for i := 0 to |lines|
      invariant moneyIn == InLines(lines[..i], ids) && moneyOut == OutLines(lines[..i], ids)
    {
      assert lines[..i + 1][..i] == lines[..i];
      if lines[i].account in ids { moneyIn, moneyOut := moneyIn + lines[i].debit, moneyOut + lines[i].credit; }
    }
    assert lines[..|lines|] == lines;
  }

  /** The state of the loop after `i` vouchers. */
  ghost predicate InStep(head: seq<Voucher>, page: seq<Voucher>, ids: set<AccountId>, i: nat, opening: int,
                         balance: int, rows: seq<Row>) {
    && i <= |head| + |page|
    && (i <= |head| ==> opening == Total(head[..i], ids) && rows == [])
    && (i > |head| ==>
          && opening == Total(head, ids)
          && rows == RowsOf(page[..i - |head|], ids, opening) && |rows| == i - |head|
          && balance == opening + Total(page[..i - |head|], ids))
  }

  lemma NextOpening(head: seq<Voucher>, page: seq<Voucher>, ids: set<AccountId>, i: nat, opening: int, balance: int,
                    rows: seq<Row>)
    requires InStep(head, page, ids, i, opening, balance, rows) && i < |head|
    ensures InStep(head, page, ids, i + 1, opening + Net(head[i], ids), balance, rows)
  {
    TotalOfAppended(head[..i], head[i], ids);
    assert head[..i + 1] == head[..i] + [head[i]];
  }

  lemma NextRow(head: seq<Voucher>, page: seq<Voucher>, ids: set<AccountId>, i: nat, opening: int, balance: int,
                rows: seq<Row>)
    requires InStep(head, page, ids, i, opening, balance, rows) && |head| <= i < |head| + |page|
    ensures |rows| == i - |head|
    ensures var v := page[i - |head|];
      var now := (if rows == [] then opening else balance) + Net(v, ids);
      InStep(head, page, ids, i + 1, opening, now, rows +
        [Row(v.id, v.date, InLines(v.lines, ids), OutLines(v.lines, ids), now)])
  {
    var k := i - |head|;
    assert head[..|head|] == head;
    TotalOfAppended(page[..k], page[k], ids);
    assert page[..k + 1] == page[..k] + [page[k]] && page[..k + 1][..k] == page[..k];
  }

  /** The loop of `book`: what is dated before `from` goes into the opening balance, the rest into rows. */
  method FillBook(sorted: seq<Voucher>, ids: set<AccountId>, from: Option<Day>, ghost head: seq<Voucher>,
                  ghost page: seq<Voucher>)
    returns (book: Book)
    requires sorted == head + page && AllBefore(head, from) && AllFrom(page, from)
    ensures book == Book(Total(head, ids), Total(head, ids) + Total(page, ids), RowsOf(page, ids, Total(head, ids)))
  {
    var opening, balance := 0, 0;
    var rows: seq<Row> := [];
    var i := 0;
    while i < |sorted|
      invariant 0 <= i <= |sorted|
      invariant InStep(head, page, ids, i, opening, balance, rows)
    {
      var v := sorted[i];
      var moneyIn, moneyOut := SumSides(v.lines, ids);
      assert v == if i < |head| then head[i] else page[i - |head|];
      if from.Some? && v.date < from.value {
        NextOpening(head, page, ids, i, opening, balance, rows);
        opening := opening + (moneyIn - moneyOut);
      } else {
        NextRow(head, page, ids, i, opening, balance, rows);
        if |rows| == 0 { balance := opening; }
        balance := balance + (moneyIn - moneyOut);
        rows := rows + [Row(v.id, v.date, moneyIn, moneyOut, balance)];
      }
      i := i + 1;
    }
    assert head[..|head|] == head && page[..|page|] == page;
    if |rows| == 0 { balance := opening; }
    book := Book(opening, balance, rows);
  }

  /** `book` over the vouchers of the book dated up to `to`, sorted. */
  method MakeBook(vouchers: seq<Voucher>, ids: set<AccountId>, from: Option<Day>, to: Day) returns (book: Book)
    ensures book == BookOf(vouchers, ids, from, to)
  {
    HeadThenPage(vouchers, ids, from, to);
    OpeningAndPage(vouchers, ids, from, to);
    book := FillBook(Page(vouchers, ids, None, to), ids, from, HeadOf(vouchers, ids, from, to),
      Page(vouchers, ids, from, to));
  }
}
