/** The least cash the drawer holds at the end of a day or of any later day. */
module CashDrawer {
  import opened Basics
  import opened Ledger
  import Sorting

  /** `least` is the lowest end-of-day balance over every day from `date` on, without end. */
  ghost predicate IsLowestFrom(vouchers: seq<Voucher>, cash: AccountId, date: Day, least: int) {
    && (forall day :: day >= date ==> least <= BalanceAt(vouchers, cash, day))
    && (exists day :: day >= date && least == BalanceAt(vouchers, cash, day))
  }

  function Earlier(a: Day, b: Day): bool { a < b }

  function Clamped(v: Voucher, date: Day): Day { if v.date < date then date else v.date }

  /** What moved on one day, earlier days being counted on `date`. */
  function DayTotal(vouchers: seq<Voucher>, cash: AccountId, date: Day, day: Day): int {
    if vouchers == [] then 0
    else
      var last := vouchers[|vouchers| - 1];
      DayTotal(vouchers[..|vouchers| - 1], cash, date, day) +
      if last.state != Draft && Clamped(last, date) == day then Moved(last.lines, cash) else 0
  }

  predicate Touches(v: Voucher, account: AccountId) { exists i :: 0 <= i < |v.lines| && v.lines[i].account == account }

  lemma {:induction false} UntouchedIsStill(lines: seq<Line>, account: AccountId)
    requires forall i :: 0 <= i < |lines| ==> lines[i].account != account
    ensures Moved(lines, account) == 0
  {
    if lines != [] { UntouchedIsStill(lines[..|lines| - 1], account); }
  }

  /** With no movement counted strictly between two days, the later balance adds only the later day's total. */
  lemma {:induction false} NextDay(vouchers: seq<Voucher>, cash: AccountId, date: Day, before: Day, day: Day)
    requires date <= before < day
    requires forall i :: 0 <= i < |vouchers| && vouchers[i].state != Draft && Moved(vouchers[i].lines, cash) != 0 ==>
               !(before < Clamped(vouchers[i], date) < day)
    ensures BalanceAt(vouchers, cash, day) == BalanceAt(vouchers, cash, before) + DayTotal(vouchers, cash, date, day)
  {
    if vouchers != [] { NextDay(vouchers[..|vouchers| - 1], cash, date, before, day); }
  }

  /** On `date` itself the day's total is the whole balance, since earlier days are counted on it. */
  lemma {:induction false} FirstDay(vouchers: seq<Voucher>, cash: AccountId, date: Day)
    ensures BalanceAt(vouchers, cash, date) == DayTotal(vouchers, cash, date, date)
  {
    if vouchers != [] { FirstDay(vouchers[..|vouchers| - 1], cash, date); }
  }

  /** A day no entry is counted on has the balance of the day before the gap. */
  lemma {:induction false} QuietDay(vouchers: seq<Voucher>, cash: AccountId, date: Day, before: Day, day: Day)
    requires date <= before <= day
    requires forall i :: 0 <= i < |vouchers| && vouchers[i].state != Draft && Moved(vouchers[i].lines, cash) != 0 ==>
               !(before < Clamped(vouchers[i], date) <= day)
    ensures BalanceAt(vouchers, cash, day) == BalanceAt(vouchers, cash, before)
  {
    if vouchers != [] { QuietDay(vouchers[..|vouchers| - 1], cash, date, before, day); }
  }

  lemma {:induction false} NoTotal(vouchers: seq<Voucher>, cash: AccountId, date: Day, day: Day)
    requires forall i :: 0 <= i < |vouchers| && vouchers[i].state != Draft && Moved(vouchers[i].lines, cash) != 0 ==>
               Clamped(vouchers[i], date) != day
    ensures DayTotal(vouchers, cash, date, day) == 0
  {
    if vouchers != [] { NoTotal(vouchers[..|vouchers| - 1], cash, date, day); }
  }

  /** `lines.filter(…).reduce(…)` over one account. */
  method MovedBy(lines: seq<Line>, account: AccountId) returns (moved: int)
    ensures moved == Moved(lines, account)
  {
    moved := 0;
    for i := 0 to |lines|
      invariant moved == Moved(lines[..i], account)
    {
      assert lines[..i + 1][..i] == lines[..i];
      if lines[i].account == account { moved := moved + lines[i].debit - lines[i].credit; }
    }
    assert lines[..|lines|] == lines;
  }

  /** Every day something moved on is a key, no key is before `date`, and each holds its day's total. */
  ghost predicate GroupedByDay(vouchers: seq<Voucher>, cash: AccountId, date: Day, order: seq<Day>, byDay: map<Day,
                               int>) {
    && (forall day :: day in order <==> day in byDay)
    && (forall day <- byDay :: day >= date && byDay[day] == DayTotal(vouchers, cash, date, day))
    && (forall i :: 0 <= i < |vouchers| && vouchers[i].state != Draft && Moved(vouchers[i].lines, cash) != 0 ==>
          Clamped(vouchers[i], date) in byDay)
  }

  /** The first loop of `#lowestCashFrom`; `order` is the order the map got its keys in. */
  method GroupByDay(vouchers: seq<Voucher>, cash: AccountId, date: Day) returns (order: seq<Day>, byDay: map<Day, int>)
    ensures GroupedByDay(vouchers, cash, date, order, byDay)
  {
    order, byDay := [], map[];
    var i := 0;
    while i < |vouchers|
      invariant 0 <= i <= |vouchers|
      invariant GroupedByDay(vouchers[..i], cash, date, order, byDay)
    {
      var v := vouchers[i];
      var seen := vouchers[..i];
      assert vouchers[..i + 1][..i] == seen;
      assert vouchers[..i + 1] == seen + [v];
      i := i + 1;
      if !Touches(v, cash) { UntouchedIsStill(v.lines, cash); }
      if Touches(v, cash) && v.state != Draft {
        var day := if v.date < date then date else v.date;
        var moved := MovedBy(v.lines, cash);
        if day !in byDay {
          NoTotal(seen, cash, date, day);
          order := order + [day];
        }
        byDay := byDay[day := (if day in byDay then byDay[day] else 0) + moved];
      }
    }
    assert vouchers[..|vouchers|] == vouchers;
  }

  lemma SortedDays(days: seq<Day>)
    ensures Sorting.Sorted(Sorting.Sort(days, Earlier), Earlier)
  {
    assert Sorting.WeakOrder(Earlier);
    Sorting.SortSorts(days, Earlier);
  }

  ghost predicate Walk(vouchers: seq<Voucher>, cash: AccountId, date: Day, order: seq<Day>, all: map<Day, int>,
                       days: seq<Day>) {
    && GroupedByDay(vouchers, cash, date, order, all)
    && Sorting.Sorted(days, Earlier)
    && (forall day :: day in days <==> day in all || day == date)
    && days != [] && days[0] == date
  }

  /** After the walk has passed `i` days, a day before the next one is quiet. */
  lemma QuietBetween(vouchers: seq<Voucher>, cash: AccountId, date: Day, order: seq<Day>, all: map<Day, int>,
                     days: seq<Day>, i: nat, day: Day)
    requires Walk(vouchers, cash, date, order, all, days)
    requires 0 < i <= |days| && days[i - 1] <= day && (i < |days| ==> day < days[i])
    ensures BalanceAt(vouchers, cash, day) == BalanceAt(vouchers, cash, days[i - 1])
  {
    assert !Earlier(days[i - 1], days[0]);
    forall k | 0 <= k < |vouchers| && vouchers[k].state != Draft && Moved(vouchers[k].lines, cash) != 0
      ensures !(days[i - 1] < Clamped(vouchers[k], date) <= day)
    {
      NotBetween(days, i, Clamped(vouchers[k], date));
    }
    QuietDay(vouchers, cash, date, days[i - 1], day);
  }

  /** No element of a sorted list lies strictly between two neighbours. */
  lemma NotBetween(days: seq<Day>, i: nat, day: Day)
    requires Sorting.Sorted(days, Earlier) && 0 < i <= |days| && day in days
    ensures day <= days[i - 1] || (i < |days| && days[i] <= day)
  {
    var at :| 0 <= at < |days| && days[at] == day;
    if at < i - 1 { assert !Earlier(days[i - 1], days[at]); }
    if at > i { assert !Earlier(days[at], days[i]); }
  }

  /** Adding a day's total, or nothing when the day repeats, carries the balance on to that day. */
  lemma StepBalance(vouchers: seq<Voucher>, cash: AccountId, date: Day, order: seq<Day>, all: map<Day, int>,
                    days: seq<Day>, i: nat)
    requires Walk(vouchers, cash, date, order, all, days) && i < |days|
    ensures BalanceAt(vouchers, cash, days[i]) ==
            (if i == 0 then 0 else BalanceAt(vouchers, cash, days[i - 1])) +
            (if days[i] in all && days[i] !in days[..i] then all[days[i]] else 0)
  {
    var day := days[i];
    if i == 0 {
      FirstDay(vouchers, cash, date);
      if date !in all { NoTotal(vouchers, cash, date, date); }
    } else {
      var before := days[i - 1];
      assert !Earlier(day, before) && !Earlier(before, days[0]);
      if day == before {
        assert days[..i][i - 1] == before;
      } else {
        forall k | 0 <= k < i ensures days[k] != day {
          if k < i - 1 { assert !Earlier(before, days[k]); }
        }
        forall k | 0 <= k < |vouchers| && vouchers[k].state != Draft && Moved(vouchers[k].lines, cash) != 0
          ensures !(before < Clamped(vouchers[k], date) < day)
        {
          NotBetween(days, i, Clamped(vouchers[k], date));
        }
        NextDay(vouchers, cash, date, before, day);
        assert day in days;
      }
    }
  }

  /** `[...byDay.keys(), date].sort()` */
  method DaysToWalk(ghost vouchers: seq<Voucher>, ghost cash: AccountId, date: Day, order: seq<Day>, ghost all: map<Day,
                    int>) returns (days: seq<Day>)
    requires GroupedByDay(vouchers, cash, date, order, all)
    ensures Walk(vouchers, cash, date, order, all, days)
  {
    days := Sorting.Sort(order + [date], Earlier);
    SortedDays(order + [date]);
    forall day ensures day in days <==> day in all || day == date {
      Sorting.SortKeeps(order + [date], Earlier, day);
    }
    assert date in days;
    var at :| 0 <= at < |days| && days[at] == date;
    assert days[0] in days && !Earlier(days[at], days[0]);
  }

  /** After `i` days: the balance of the last of them, and the least one over every day up to it. */
  ghost predicate Walked(vouchers: seq<Voucher>, cash: AccountId, date: Day, last: Day, balance: int,
                         lowest: Option<int>) {
    && balance == BalanceAt(vouchers, cash, last)
    && lowest.Some?
    && (exists day :: day >= date && lowest.value == BalanceAt(vouchers, cash, day))
    && (forall day :: date <= day <= last ==> lowest.value <= BalanceAt(vouchers, cash, day))
  }

  lemma WalkOn(vouchers: seq<Voucher>, cash: AccountId, date: Day, order: seq<Day>, all: map<Day, int>, days: seq<Day>,
               i: nat,
               balance: int, lowest: Option<int>, after: int, least: int)
    requires Walk(vouchers, cash, date, order, all, days) && i < |days|
    requires i > 0 ==> Walked(vouchers, cash, date, days[i - 1], balance, lowest)
    requires after == BalanceAt(vouchers, cash, days[i])
    requires least == if i == 0 || after < lowest.value then after else lowest.value
    ensures Walked(vouchers, cash, date, days[i], after, Some(least))
  {
    assert days[i] in days;
    forall d | date <= d <= days[i] ensures least <= BalanceAt(vouchers, cash, d) {
      if i > 0 && days[i - 1] < d < days[i] {
        QuietBetween(vouchers, cash, date, order, all, days, i, d);
      }
    }
  }

  /**
   * `#lowestCashFrom`: days before `date` are counted on it, `date` is always among the days walked
   * (twice, when something moved on it), and each key is taken out of the map once it has been added.
   */
  method LowestCashFrom(vouchers: seq<Voucher>, cash: AccountId, date: Day) returns (least: int)
    ensures IsLowestFrom(vouchers, cash, date, least)
  {
    var order, byDay := GroupByDay(vouchers, cash, date);
    ghost var all := byDay;
    var days := DaysToWalk(vouchers, cash, date, order, all);
    var balance := 0;
    var lowest: Option<int> := None;
    var i := 0;
    while i < |days|
      invariant 0 <= i <= |days|
      invariant forall day :: day in byDay <==> day in all && day !in days[..i]
      invariant forall day <- byDay :: byDay[day] == all[day]
      invariant i == 0 ==> balance == 0 && lowest.None?
      invariant i > 0 ==> Walked(vouchers, cash, date, days[i - 1], balance, lowest)
    {
      var day := days[i];
      assert day in days && days[..i + 1] == days[..i] + [day];
      StepBalance(vouchers, cash, date, order, all, days, i);
      ghost var (before, least') := (balance, lowest);
      balance := balance + if day in byDay then byDay[day] else 0;
      byDay := byDay - {day};
      if day >= date && (lowest.None? || balance < lowest.value) { lowest := Some(balance); }
      WalkOn(vouchers, cash, date, order, all, days, i, before, least', balance, lowest.value);
      i := i + 1;
    }
    forall d | d >= date ensures lowest.value <= BalanceAt(vouchers, cash, d) {
      if d > days[i - 1] { QuietBetween(vouchers, cash, date, order, all, days, i, d); }
    }
    least := match lowest case None => 0 case Some(value) => value;
  }

  /** The answer is the only number it can be. */
  lemma LowestIsUnique(vouchers: seq<Voucher>, cash: AccountId, date: Day, a: int, b: int)
    requires IsLowestFrom(vouchers, cash, date, a) && IsLowestFrom(vouchers, cash, date, b)
    ensures a == b
  {
    var x :| x >= date && a == BalanceAt(vouchers, cash, x);
    var y :| y >= date && b == BalanceAt(vouchers, cash, y);
    assert a <= BalanceAt(vouchers, cash, y) && b <= BalanceAt(vouchers, cash, x);
  }
}
