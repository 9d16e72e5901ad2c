/** The quarterly composition statement in the books: booked, booked again when bills change, and filed. */
module CompositionDesk {
  import opened Basics
  import opened Texts
  import opened Ledger
  import opened CompositionStatement

  // ------------------------------------------------------------------ booking and filing

  datatype Booking = Booking(fingerprint: string, amount: nat, delta: int, voucher: Option<VoucherId>)
  datatype StatementRecord = StatementRecord(quarterKey: string, bookings: seq<Booking>, filed: Option<string>)

  datatype StatementState = NotBooked | Booked | ChangedAfterBooking | Filed

  datatype DeskError = NotChecked | ChangedSinceCheck | AlreadyFiled | NothingDue | AccountMissing
      | LedgerRefusal(error: LedgerError)
    | ApproveFirst | BadReference

  function DeltaSum(bookings: seq<Booking>): int {
    if bookings == [] then 0 else DeltaSum(bookings[..|bookings| - 1]) + bookings[|bookings| - 1].delta
  }

  function RecordOf(records: seq<StatementRecord>, key: string): Option<StatementRecord> {
    if records == [] then None
    else if records[0].quarterKey == key then Some(records[0]) else RecordOf(records[1..], key)
  }

  function BookingsOf(records: seq<StatementRecord>, key: string): seq<Booking> {
    match RecordOf(records, key) case None => [] case Some(record) => record.bookings
  }

  function FiledAs(records: seq<StatementRecord>, key: string): Option<string> {
    match RecordOf(records, key) case None => None case Some(record) => record.filed
  }

  /** What is in the books for a quarter. */
  function BookedFor(records: seq<StatementRecord>, key: string): int { DeltaSum(BookingsOf(records, key)) }

  /** `#stateOf` */
  function StateOf(records: seq<StatementRecord>, key: string, fingerprint: string): StatementState {
    var bookings := BookingsOf(records, key);
    if FiledAs(records, key).Some? then Filed
    else if bookings == [] then NotBooked
    else if bookings[|bookings| - 1].fingerprint == fingerprint then Booked
    else ChangedAfterBooking
  }

  predicate BookedBefore(bookings: seq<Booking>, fingerprint: string) {
    exists i :: 0 <= i < |bookings| && bookings[i].fingerprint == fingerprint
  }

  /** The other quarters' records, then this one's. */
  function Replaced(records: seq<StatementRecord>, record: StatementRecord): seq<StatementRecord> {
    Others(records, record.quarterKey) + [record]
  }

  function Others(records: seq<StatementRecord>, key: string): seq<StatementRecord> {
    if records == [] then []
    else if records[0].quarterKey == key then Others(records[1..], key)
    else [records[0]] + Others(records[1..], key)
  }

  const DESK_PREFIX := "composition:cmp08:"

  function KeyPrefix(key: string): string { DESK_PREFIX + key + ":" }
  function BookingKey(key: string, fingerprint: string): string { KeyPrefix(key) + fingerprint }

  /** The two accounts a booking moves, when the books have them. */
  datatype Accounts = Accounts(expense: Option<AccountId>, owed: Option<AccountId>)

  function BookingLines(accounts: Accounts, delta: int): seq<Line>
    requires accounts.expense.Some? && accounts.owed.Some?
  {
    var (expense, owed) := (accounts.expense.value, accounts.owed.value);
    if delta > 0 then [Line(expense, None, delta, 0, None), Line(owed, None, 0, delta, None)]
    else [Line(owed, None, -delta, 0, None), Line(expense, None, 0, -delta, None)]
  }

  function BookingCommand(cmp: Cmp08, fingerprint: string, accounts: Accounts, delta: int): Command
    requires accounts.expense.Some? && accounts.owed.Some?
  {
    var key := cmp.quarter.key;
    Command(BookingKey(key, fingerprint), Journal, cmp.quarter.to, "Composition tax",
            Some(Source("composition_cmp08", Named(key + ":" + fingerprint))), BookingLines(accounts, delta))
  }

  /** Everything one company's desk stores. */
  datatype Desk = Desk(records: seq<StatementRecord>, books: Books)

  /** `approveStatement`: the difference goes into the books and the booking into the record, or nothing does. */
  function Approve(d: Desk, chart: Chart, gate: Gate, accounts: Accounts, cmp: Cmp08, fingerprint: string,
                   token: string)
    : (Desk, Result<bool, DeskError>)
  {
    var key := cmp.quarter.key;
    var (bookings, booked) := (BookingsOf(d.records, key), BookedFor(d.records, key));
    if token == "" then (d, Refused(NotChecked))
    else if token != fingerprint then (d, Refused(ChangedSinceCheck))
    else if FiledAs(d.records, key).Some? then (d, Refused(AlreadyFiled))
    else if BookedBefore(bookings, fingerprint) then (d, Ok(true))
    else if cmp.payable == 0 && booked == 0 then (d, Refused(NothingDue))
    else
      var delta := cmp.payable - booked;
      if delta == 0 then (WithBooking(d, cmp, fingerprint, d.books, None), Ok(false))
      else if accounts.expense.None? || accounts.owed.None? then (d, Refused(AccountMissing))
      else
        var (books, answer) := Post(d.books, chart, gate, BookingCommand(cmp, fingerprint, accounts, delta));
        match answer
        case Refused(error) => (d, Refused(LedgerRefusal(error)))
        case Ok(posted) => (WithBooking(d, cmp, fingerprint, books, Some(posted.voucher.id)), Ok(false))
  }

  /** One booking more, of the difference. */
  function WithBooking(d: Desk, cmp: Cmp08, fingerprint: string, books: Books, voucher: Option<VoucherId>): Desk {
    var key := cmp.quarter.key;
    var booking := Booking(fingerprint, cmp.payable, cmp.payable - BookedFor(d.records, key), voucher);
    Desk(Replaced(d.records, StatementRecord(key, BookingsOf(d.records, key) + [booking], None)), books)
  }

  /** `markFiled` */
  function MarkFiled(d: Desk, cmp: Cmp08, fingerprint: string, reference: string, goodReference: bool)
    : (Desk, Result<bool, DeskError>)
  {
    var key := cmp.quarter.key;
    match StateOf(d.records, key, fingerprint)
    case Filed => (d, Refused(AlreadyFiled))
    case NotBooked => (d, Refused(ApproveFirst))
    case ChangedAfterBooking => (d, Refused(ApproveFirst))
    case Booked =>
      if !goodReference then (d, Refused(BadReference))
      else (d.(records := Replaced(d.records, StatementRecord(key, BookingsOf(d.records, key), Some(reference)))),
        Ok(false))
  }

  // ------------------------------------------------------------------ what every run keeps

  /** A statement's fingerprint, `digest` being SHA-256 and taken to be injective. */
  ghost predicate Injective(digest: Content -> string) { forall a, b :: digest(a) == digest(b) ==> a == b }

  datatype Call =
    | ApproveCall(cmp: Cmp08, token: string, gate: Gate)
    | FileCall(cmp: Cmp08, reference: string, goodReference: bool)
    | PostElsewhere(cmd: Command, gate: Gate)
    | ReverseElsewhere(key: string, gate: Gate, id: VoucherId, date: Day, reason: string)

  function StepOf(d: Desk, chart: Chart, accounts: Accounts, digest: Content -> string, call: Call): Desk {
    match call
    case ApproveCall(cmp, token, gate) => Approve(d, chart, gate, accounts, cmp, digest(ContentOf(cmp)), token).0
    case FileCall(cmp, reference, good) => MarkFiled(d, cmp, digest(ContentOf(cmp)), reference, good).0
    case PostElsewhere(cmd, gate) => d.(books := Post(d.books, chart, gate, cmd).0)
    case ReverseElsewhere(key, gate, id, date, reason) => d.(books := Reverse(d.books, gate, key, id, date, reason).0)
  }

  function RunOf(d: Desk, chart: Chart, accounts: Accounts, digest: Content -> string, calls: seq<Call>): Desk {
    if calls == [] then d
    else StepOf(RunOf(d, chart, accounts, digest, calls[..|calls| - 1]), chart, accounts, digest,
        calls[|calls| - 1])
  }

  /** What the desk's own vouchers for a quarter credited to an account, debits taken off. */
  function CreditedFor(vouchers: seq<Voucher>, key: string, account: AccountId): int {
    if vouchers == [] then 0
    else
      var last := vouchers[|vouchers| - 1];
      CreditedFor(vouchers[..|vouchers| - 1], key, account) -
        if KeyPrefix(key) <= last.key then Moved(last.lines, account) else 0
  }

  /** A booking carries the fingerprint of some statement of the quarter, and that statement's amount. */
  ghost predicate Digested(booking: Booking, key: string, digest: Content -> string) {
    exists c: Content :: c.quarterKey == key && c.payable == booking.amount && booking.fingerprint == digest(c)
  }

  /** Each booking is the difference that makes the sum its amount, under a fingerprint of its own. */
  ghost predicate BookingsOk(bookings: seq<Booking>, key: string, digest: Content -> string) {
    && (forall n :: 0 < n <= |bookings| ==> DeltaSum(bookings[..n]) == bookings[n - 1].amount)
    && (forall i :: 0 <= i < |bookings| ==> Digested(bookings[i], key, digest))
    && (forall i, j :: 0 <= i < j < |bookings| ==> bookings[i].fingerprint != bookings[j].fingerprint)
  }

  /** Every ledger key of the quarter is the key of one of its bookings. */
  ghost predicate KeysOk(keys: set<string>, bookings: seq<Booking>, key: string) {
    forall k <- keys :: KeyPrefix(key) <= k ==>
      exists i :: 0 <= i < |bookings| && k == BookingKey(key, bookings[i].fingerprint)
  }

  /** The ledger holds, under the quarter's keys, exactly what its bookings add up to. */
  ghost predicate QuarterOk(d: Desk, accounts: Accounts, digest: Content -> string, key: string) {
    var bookings := BookingsOf(d.records, key);
    && BookingsOk(bookings, key, digest)
    && (accounts.owed.Some? ==> CreditedFor(d.books.vouchers, key, accounts.owed.value) == DeltaSum(bookings))
    && KeysOk(d.books.keys.Keys, bookings, key)
  }

  ghost predicate DeskOk(d: Desk, accounts: Accounts, digest: Content -> string) {
    && (accounts.expense.Some? && accounts.owed.Some? ==> accounts.expense != accounts.owed)
    && (forall key: string :: ':' !in key ==> QuarterOk(d, accounts, digest, key))
  }

  lemma {:induction false} OthersKeep(records: seq<StatementRecord>, key: string, other: string)
    ensures RecordOf(Others(records, key), other) == if other == key then None else RecordOf(records, other)
  {
    if records != [] { OthersKeep(records[1..], key, other); }
  }

  lemma {:induction false} RecordOfAppended(records: seq<StatementRecord>, record: StatementRecord, key: string)
    ensures RecordOf(records + [record], key) ==
            if RecordOf(records, key).Some? then RecordOf(records, key)
            else if record.quarterKey == key then Some(record) else None
  {
    if records == [] {
      assert records + [record] == [record];
      assert [record][1..] == [];
    } else {
      assert (records + [record])[1..] == records[1..] + [record];
      RecordOfAppended(records[1..], record, key);
    }
  }

  /** Replacing one quarter's record leaves the others as they were. */
  lemma ReplacedIs(records: seq<StatementRecord>, record: StatementRecord, key: string)
    ensures RecordOf(Replaced(records, record), key) ==
      if key == record.quarterKey then Some(record) else RecordOf(records, key)
  {
    OthersKeep(records, record.quarterKey, key);
    RecordOfAppended(Others(records, record.quarterKey), record, key);
  }

  lemma PrefixesDiffer(key: string, other: string, k: string)
    requires ':' !in key && ':' !in other && KeyPrefix(key) <= k && KeyPrefix(other) <= k
    ensures key == other
  {
    var (a, b) := (k[18..], k[18..]);
    assert k[..18] == "composition:cmp08:";
    assert a == key + ":" + k[|KeyPrefix(key)|..];
    assert b == other + ":" + k[|KeyPrefix(other)|..];
    SplitOfMarked(key, ':', k[|KeyPrefix(key)|..]);
    SplitOfMarked(other, ':', k[|KeyPrefix(other)|..]);
    assert Split(a, ':')[0] == key && Split(b, ':')[0] == other;
  }

  /** What a booking's lines move: the account owed gains the difference. */
  lemma LinesMove(accounts: Accounts, delta: int)
    requires accounts.expense.Some? && accounts.owed.Some? && accounts.expense != accounts.owed && delta != 0
    ensures Moved(BookingLines(accounts, delta), accounts.owed.value) == -delta
  {
    var lines := BookingLines(accounts, delta);
    assert lines[..1] == [lines[0]] && [lines[0]][..0] == [];
    assert Moved([lines[0]], accounts.owed.value) ==
      if lines[0].account == accounts.owed.value then lines[0].debit - lines[0].credit else 0;
  }

  lemma CreditedOfAppended(vouchers: seq<Voucher>, v: Voucher, key: string, account: AccountId)
    ensures CreditedFor(vouchers + [v], key, account) ==
            CreditedFor(vouchers, key, account) - if KeyPrefix(key) <= v.key then Moved(v.lines, account) else 0
  {
    assert (vouchers + [v])[..|vouchers|] == vouchers;
  }

  lemma SumIsLastAmount(bookings: seq<Booking>, key: string, digest: Content -> string)
    requires BookingsOk(bookings, key, digest)
    ensures DeltaSum(bookings) == if bookings == [] then 0 else bookings[|bookings| - 1].amount
  {
    assert bookings[..|bookings|] == bookings;
  }

  /** One more booking of the difference, under a fingerprint not used before. */
  lemma BookingAdded(bookings: seq<Booking>, booking: Booking, key: string, digest: Content -> string)
    requires BookingsOk(bookings, key, digest) && Digested(booking, key, digest)
    requires booking.delta == booking.amount - DeltaSum(bookings) && !BookedBefore(bookings, booking.fingerprint)
    ensures BookingsOk(bookings + [booking], key, digest) && DeltaSum(bookings + [booking]) == booking.amount
  {
    var now := bookings + [booking];
    assert now[..|bookings|] == bookings && now[..|now|] == now;
    forall n | 0 < n <= |now| ensures DeltaSum(now[..n]) == now[n - 1].amount {
      if n <= |bookings| { assert now[..n] == bookings[..n]; }
    }
  }

  lemma KeyAdded(before: set<string>, after: set<string>, bookings: seq<Booking>, booking: Booking, key: string)
    requires KeysOk(before, bookings, key) && after <= before + {BookingKey(key, booking.fingerprint)}
    ensures KeysOk(after, bookings + [booking], key)
  {
    var now := bookings + [booking];
    forall k | k in after && KeyPrefix(key) <= k
      ensures exists i :: 0 <= i < |now| && k == BookingKey(key, now[i].fingerprint)
    {
      if k in before {
        var i :| 0 <= i < |bookings| && k == BookingKey(key, bookings[i].fingerprint);
        assert now[i] == bookings[i];
      } else {
        assert now[|bookings|] == booking;
      }
    }
  }

  /** A fresh fingerprint has a fresh key, so the ledger always writes the booking. */
  lemma FreshKey(keys: set<string>, bookings: seq<Booking>, key: string, fingerprint: string)
    requires KeysOk(keys, bookings, key) && !BookedBefore(bookings, fingerprint)
    ensures BookingKey(key, fingerprint) !in keys
  {
    var k := BookingKey(key, fingerprint);
    assert k[|KeyPrefix(key)|..] == fingerprint;
    forall i | 0 <= i < |bookings| ensures k != BookingKey(key, bookings[i].fingerprint) {
      assert BookingKey(key, bookings[i].fingerprint)[|KeyPrefix(key)|..] == bookings[i].fingerprint;
    }
  }

  // ------------------------------------------------------------------ one approval

  /** The booking an approval makes. */
  function NewBooking(d: Desk, cmp: Cmp08, fingerprint: string): Booking {
    var delta := cmp.payable - BookedFor(d.records, cmp.quarter.key);
    Booking(fingerprint, cmp.payable, delta, if delta == 0 then None else Some(|d.books.vouchers|))
  }

  /** What an approval that is carried out changes: one booking, and in the ledger the difference. */
  ghost predicate BookedOnce(d: Desk, after: Desk, accounts: Accounts, cmp: Cmp08, fingerprint: string, key: string) {
    var booking := NewBooking(d, cmp, fingerprint);
    && BookingsOf(after.records, key) == BookingsOf(d.records, key) + (if key == cmp.quarter.key then [booking] else [])
    && (accounts.owed.None? || CreditedFor(after.books.vouchers, key, accounts.owed.value) ==
                               CreditedFor(d.books.vouchers, key, accounts.owed.value) +
                                 (if key == cmp.quarter.key then booking.delta else 0))
    && after.books.keys.Keys <= d.books.keys.Keys + {BookingKey(cmp.quarter.key, fingerprint)}
    && (key != cmp.quarter.key ==> !(KeyPrefix(key) <= BookingKey(cmp.quarter.key, fingerprint)))
  }

  lemma ApprovalBooksOnce(d: Desk, chart: Chart, gate: Gate, accounts: Accounts, cmp: Cmp08, fingerprint: string,
                          token: string, key: string)
    requires ':' !in cmp.quarter.key && ':' !in key
    requires accounts.expense.Some? && accounts.owed.Some? ==> accounts.expense != accounts.owed
    requires BookingKey(cmp.quarter.key, fingerprint) !in d.books.keys
    requires Approve(d, chart, gate, accounts, cmp, fingerprint, token).1 == Ok(false)
    ensures BookedOnce(d, Approve(d, chart, gate, accounts, cmp, fingerprint, token).0, accounts, cmp, fingerprint, key)
  {
    ApprovalRecordsOne(d, chart, gate, accounts, cmp, fingerprint, token, key);
    ApprovalCredits(d, chart, gate, accounts, cmp, fingerprint, token, key);
    if KeyPrefix(key) <= BookingKey(cmp.quarter.key, fingerprint) {
      PrefixesDiffer(key, cmp.quarter.key, BookingKey(cmp.quarter.key, fingerprint));
    }
  }

  /** Books as they were when there is no difference, else with the difference posted. */
  lemma ApprovalPosts(d: Desk, chart: Chart, gate: Gate, accounts: Accounts, cmp: Cmp08, fingerprint: string,
                      token: string)
    requires Approve(d, chart, gate, accounts, cmp, fingerprint, token).1 == Ok(false)
    ensures var delta := NewBooking(d, cmp, fingerprint).delta;
      var books := Approve(d, chart, gate, accounts, cmp, fingerprint, token).0.books;
      if delta == 0 then books == d.books
      else
        && accounts.expense.Some? && accounts.owed.Some?
        && Post(d.books, chart, gate, BookingCommand(cmp, fingerprint, accounts, delta)).1.Ok?
        && books == Post(d.books, chart, gate, BookingCommand(cmp, fingerprint, accounts, delta)).0
  {
    if NewBooking(d, cmp, fingerprint).delta != 0 {
      DifferencePosts(d, chart, gate, accounts, cmp, fingerprint, token);
    }
  }

  lemma DifferencePosts(d: Desk, chart: Chart, gate: Gate, accounts: Accounts, cmp: Cmp08, fingerprint: string,
                        token: string)
    requires Approve(d, chart, gate, accounts, cmp, fingerprint, token).1 == Ok(false)
    requires cmp.payable != BookedFor(d.records, cmp.quarter.key)
    ensures var delta := cmp.payable - BookedFor(d.records, cmp.quarter.key);
      && accounts.expense.Some? && accounts.owed.Some?
      && Post(d.books, chart, gate, BookingCommand(cmp, fingerprint, accounts, delta)).1.Ok?
      && Approve(d, chart, gate, accounts, cmp, fingerprint, token).0.books ==
         Post(d.books, chart, gate, BookingCommand(cmp, fingerprint, accounts, delta)).0
  {}

  lemma PostRefusedWritesNothing(books: Books, chart: Chart, gate: Gate, cmd: Command)
    ensures Post(books, chart, gate, cmd).1.Refused? ==> Post(books, chart, gate, cmd).0 == books
  {}

  lemma {:induction false} ApprovalCredits(d: Desk, chart: Chart, gate: Gate, accounts: Accounts, cmp: Cmp08,
                                           fingerprint: string, token: string, key: string)
    requires ':' !in cmp.quarter.key && ':' !in key
    requires accounts.expense.Some? && accounts.owed.Some? ==> accounts.expense != accounts.owed
    requires BookingKey(cmp.quarter.key, fingerprint) !in d.books.keys
    requires Approve(d, chart, gate, accounts, cmp, fingerprint, token).1 == Ok(false)
    ensures var books := Approve(d, chart, gate, accounts, cmp, fingerprint, token).0.books;
      && (accounts.owed.None? || CreditedFor(books.vouchers, key, accounts.owed.value) ==
            CreditedFor(d.books.vouchers, key, accounts.owed.value) +
              (if key == cmp.quarter.key then NewBooking(d, cmp, fingerprint).delta else 0))
      && books.keys.Keys <= d.books.keys.Keys + {BookingKey(cmp.quarter.key, fingerprint)}
  {
    ApprovalPosts(d, chart, gate, accounts, cmp, fingerprint, token);
    var delta := NewBooking(d, cmp, fingerprint).delta;
    if delta != 0 { PostedBooking(d, chart, gate, accounts, cmp, fingerprint, delta, key); }
  }

  lemma ApprovalRecordsOne(d: Desk, chart: Chart, gate: Gate, accounts: Accounts, cmp: Cmp08, fingerprint: string,
                           token: string, key: string)
    requires BookingKey(cmp.quarter.key, fingerprint) !in d.books.keys
    requires Approve(d, chart, gate, accounts, cmp, fingerprint, token).1 == Ok(false)
    ensures BookingsOf(Approve(d, chart, gate, accounts, cmp, fingerprint, token).0.records, key) ==
            BookingsOf(d.records, key) + (if key == cmp.quarter.key then [NewBooking(d, cmp, fingerprint)] else [])
  {
    ApprovalReplaces(d, chart, gate, accounts, cmp, fingerprint, token);
    ReplacedIs(d.records, RecordAfter(d, cmp, fingerprint), key);
    assert BookingsOf(d.records, key) + [] == BookingsOf(d.records, key);
  }

  /** The quarter's record once it is booked. */
  function RecordAfter(d: Desk, cmp: Cmp08, fingerprint: string): StatementRecord {
    StatementRecord(cmp.quarter.key, BookingsOf(d.records, cmp.quarter.key) + [NewBooking(d, cmp, fingerprint)], None)
  }

  lemma ApprovalReplaces(d: Desk, chart: Chart, gate: Gate, accounts: Accounts, cmp: Cmp08, fingerprint: string,
                         token: string)
    requires BookingKey(cmp.quarter.key, fingerprint) !in d.books.keys
    requires Approve(d, chart, gate, accounts, cmp, fingerprint, token).1 == Ok(false)
    ensures Approve(d, chart, gate, accounts, cmp, fingerprint, token).0.records ==
      Replaced(d.records, RecordAfter(d, cmp, fingerprint))
  {
    var delta := NewBooking(d, cmp, fingerprint).delta;
    if delta != 0 {
      DifferencePosts(d, chart, gate, accounts, cmp, fingerprint, token);
      PostIsNew(d.books, chart, gate, BookingCommand(cmp, fingerprint, accounts, delta));
      DifferenceReplaces(d, chart, gate, accounts, cmp, fingerprint, token);
    }
  }

  lemma DifferenceReplaces(d: Desk, chart: Chart, gate: Gate, accounts: Accounts, cmp: Cmp08, fingerprint: string,
                           token: string)
    requires Approve(d, chart, gate, accounts, cmp, fingerprint, token).1 == Ok(false)
    requires cmp.payable != BookedFor(d.records, cmp.quarter.key) && accounts.expense.Some? && accounts.owed.Some?
    requires var answer :=
      Post(d.books, chart, gate, BookingCommand(cmp, fingerprint, accounts, NewBooking(d, cmp, fingerprint).delta)).1;
      answer.Ok? && answer.value.voucher.id == |d.books.vouchers|
    ensures Approve(d, chart, gate, accounts, cmp, fingerprint, token).0.records ==
            Replaced(d.records, RecordAfter(d, cmp, fingerprint))
  {}

  lemma PostIsNew(books: Books, chart: Chart, gate: Gate, cmd: Command)
    requires cmd.key !in books.keys
    ensures Post(books, chart, gate, cmd).1.Ok? ==> Post(books, chart, gate, cmd).1.value.voucher.id == |books.vouchers|
  {}

  lemma ApprovalKeepsQuarter(d: Desk, chart: Chart, gate: Gate, accounts: Accounts, digest: Content -> string,
                             cmp: Cmp08, token: string, key: string)
    requires DeskOk(d, accounts, digest) && ':' !in cmp.quarter.key && ':' !in key
    ensures QuarterOk(Approve(d, chart, gate, accounts, cmp, digest(ContentOf(cmp)), token).0, accounts, digest, key)
  {
    var fingerprint := digest(ContentOf(cmp));
    assert QuarterOk(d, accounts, digest, key) && QuarterOk(d, accounts, digest, cmp.quarter.key);
    if Approve(d, chart, gate, accounts, cmp, fingerprint, token).1 == Ok(false) {
      var after := Approve(d, chart, gate, accounts, cmp, fingerprint, token).0;
      FreshKey(d.books.keys.Keys, BookingsOf(d.records, cmp.quarter.key), cmp.quarter.key, fingerprint);
      ApprovalBooksOnce(d, chart, gate, accounts, cmp, fingerprint, token, key);
      BookedOnceIsOk(d, after, accounts, digest, cmp, key);
    }
  }

  lemma BookedOnceIsOk(d: Desk, after: Desk, accounts: Accounts, digest: Content -> string, cmp: Cmp08, key: string)
    requires QuarterOk(d, accounts, digest, key)
    requires BookedOnce(d, after, accounts, cmp, digest(ContentOf(cmp)), key)
    requires key == cmp.quarter.key ==> !BookedBefore(BookingsOf(d.records, key), digest(ContentOf(cmp)))
    ensures QuarterOk(after, accounts, digest, key)
  {
    var booking := NewBooking(d, cmp, digest(ContentOf(cmp)));
    if key == cmp.quarter.key {
      assert Digested(booking, key, digest) by { assert ContentOf(cmp).quarterKey == key; }
      BookingAdded(BookingsOf(d.records, key), booking, key, digest);
      KeyAdded(d.books.keys.Keys, after.books.keys.Keys, BookingsOf(d.records, key), booking, key);
    } else {
      assert BookingsOf(d.records, key) + [] == BookingsOf(d.records, key);
    }
  }

  /** What the ledger has more of after a booking: one voucher and one key, of that quarter only. */
  lemma PostedBooking(d: Desk, chart: Chart, gate: Gate, accounts: Accounts, cmp: Cmp08, fingerprint: string,
                      delta: int, key: string)
    requires ':' !in cmp.quarter.key && ':' !in key && delta != 0
    requires accounts.expense.Some? && accounts.owed.Some? && accounts.expense != accounts.owed
    requires BookingKey(cmp.quarter.key, fingerprint) !in d.books.keys
    requires Post(d.books, chart, gate, BookingCommand(cmp, fingerprint, accounts, delta)).1.Ok?
    ensures var (books, answer) := Post(d.books, chart, gate, BookingCommand(cmp, fingerprint, accounts, delta));
      && answer.value.voucher.id == |d.books.vouchers|
      && books.keys.Keys == d.books.keys.Keys + {BookingKey(cmp.quarter.key, fingerprint)}
      && CreditedFor(books.vouchers, key, accounts.owed.value) ==
         CreditedFor(d.books.vouchers, key, accounts.owed.value) + (if key == cmp.quarter.key then delta else 0)
      && (key != cmp.quarter.key ==> !(KeyPrefix(key) <= BookingKey(cmp.quarter.key, fingerprint)))
  {
    var v := NewVoucher(d.books, BookingCommand(cmp, fingerprint, accounts, delta), gate.now);
    CreditedOfAppended(d.books.vouchers, v, key, accounts.owed.value);
    LinesMove(accounts, delta);
    if KeyPrefix(key) <= BookingKey(cmp.quarter.key, fingerprint) {
      PrefixesDiffer(key, cmp.quarter.key, BookingKey(cmp.quarter.key, fingerprint));
    }
  }

  lemma FilingKeepsQuarter(d: Desk, accounts: Accounts, digest: Content -> string, cmp: Cmp08, reference: string,
                           good: bool, key: string)
    requires QuarterOk(d, accounts, digest, key)
    ensures QuarterOk(MarkFiled(d, cmp, digest(ContentOf(cmp)), reference, good).0, accounts, digest, key)
  {
    var record := StatementRecord(cmp.quarter.key, BookingsOf(d.records, cmp.quarter.key), Some(reference));
    ReplacedIs(d.records, record, key);
  }

  /** Quarters have no colon in their key, and the rest of the application uses keys of its own. */
  predicate KeysApart(call: Call) {
    match call
    case ApproveCall(cmp, _, _) => ':' !in cmp.quarter.key
    case FileCall(cmp, _, _) => ':' !in cmp.quarter.key
    case PostElsewhere(cmd, _) => !(DESK_PREFIX <= cmd.key)
    case ReverseElsewhere(key, _, _, _, _) => !(DESK_PREFIX <= key)
  }

  lemma DeskPrefixComesFirst(key: string, k: string)
    ensures KeyPrefix(key) <= k ==> DESK_PREFIX <= k
  {
    assert DESK_PREFIX <= KeyPrefix(key);
  }

  lemma {:induction false} CreditedOfMarked(vouchers: seq<Voucher>, id: nat, mirror: VoucherId, reason: string,
                                            key: string, account: AccountId)
    requires id < |vouchers|
    ensures CreditedFor(vouchers[id := MarkReversed(vouchers[id], mirror, reason)], key, account) ==
      CreditedFor(vouchers, key, account)
  {
    var last := |vouchers| - 1;
    var marked := vouchers[id := MarkReversed(vouchers[id], mirror, reason)];
    if id == last {
      assert marked[..last] == vouchers[..last];
    } else {
      CreditedOfMarked(vouchers[..last], id, mirror, reason, key, account);
      assert marked[..last] == vouchers[..last][id := MarkReversed(vouchers[id], mirror, reason)];
    }
  }

  /** Vouchers of other desks, and reversals, leave what this desk's vouchers credited. */
  lemma ElsewhereKeepsQuarter(d: Desk, chart: Chart, accounts: Accounts, digest: Content -> string, call: Call,
                              key: string)
    requires QuarterOk(d, accounts, digest, key) && (call.PostElsewhere? || call.ReverseElsewhere?) && KeysApart(call)
    ensures QuarterOk(StepOf(d, chart, accounts, digest, call), accounts, digest, key)
  {
    match call
    case PostElsewhere(cmd, gate) =>
      DeskPrefixComesFirst(key, cmd.key);
      if accounts.owed.Some? {
        CreditedOfAppended(d.books.vouchers, NewVoucher(d.books, cmd, gate.now), key, accounts.owed.value);
      }
    case ReverseElsewhere(other, gate, id, date, reason) =>
      DeskPrefixComesFirst(key, other);
      if accounts.owed.Some? && id < |d.books.vouchers| {
        var mirror := MirrorVoucher(d.books, d.books.vouchers[id], other, date, reason, gate.now);
        CreditedOfMarked(d.books.vouchers, id, mirror.id, reason, key, accounts.owed.value);
        CreditedOfAppended(d.books.vouchers[id := MarkReversed(d.books.vouchers[id], mirror.id, reason)], mirror, key,
          accounts.owed.value);
      }
  }

  /** A desk that has approved nothing yet, over books that do not use its keys. */
  lemma FreshDeskIsOk(books: Books, accounts: Accounts, digest: Content -> string)
    requires accounts.expense.Some? && accounts.owed.Some? ==> accounts.expense != accounts.owed
    requires forall k <- books.keys.Keys :: !(DESK_PREFIX <= k)
    requires forall i :: 0 <= i < |books.vouchers| ==> !(DESK_PREFIX <= books.vouchers[i].key)
    ensures DeskOk(Desk([], books), accounts, digest)
  {
    forall key: string | ':' !in key ensures QuarterOk(Desk([], books), accounts, digest, key) {
      forall k | k in books.keys.Keys ensures !(KeyPrefix(key) <= k) { DeskPrefixComesFirst(key, k); }
      if accounts.owed.Some? { NothingCredited(books.vouchers, key, accounts.owed.value); }
    }
  }

  lemma {:induction false} NothingCredited(vouchers: seq<Voucher>, key: string, account: AccountId)
    requires forall i :: 0 <= i < |vouchers| ==> !(DESK_PREFIX <= vouchers[i].key)
    ensures CreditedFor(vouchers, key, account) == 0
  {
    if vouchers != [] {
      NothingCredited(vouchers[..|vouchers| - 1], key, account);
      DeskPrefixComesFirst(key, vouchers[|vouchers| - 1].key);
    }
  }

  /**
   * However statements are approved, approved again after bills changed, and filed, and whatever the rest
   * of the application posts and reverses in the same ledger meanwhile: in every quarter the
   * booked differences add up to the last amount approved, the desk's vouchers have credited the account
   * owed with exactly that, and no fingerprint is booked twice.
   */
  lemma {:induction false} BookedIsInTheBooks(d: Desk, chart: Chart, accounts: Accounts, digest: Content -> string,
                                              calls: seq<Call>)
    requires DeskOk(d, accounts, digest) && forall i :: 0 <= i < |calls| ==> KeysApart(calls[i])
    ensures DeskOk(RunOf(d, chart, accounts, digest, calls), accounts, digest)
  {
    if calls != [] {
      var (front, call) := (calls[..|calls| - 1], calls[|calls| - 1]);
      var before := RunOf(d, chart, accounts, digest, front);
      BookedIsInTheBooks(d, chart, accounts, digest, front);
      assert KeysApart(call);
      forall key: string | ':' !in key
        ensures QuarterOk(StepOf(before, chart, accounts, digest, call), accounts, digest, key)
      {
        match call
        case ApproveCall(cmp, token, gate) =>
          ApprovalKeepsQuarter(before, chart, gate, accounts, digest, cmp, token, key);
        case FileCall(cmp, reference, good) => FilingKeepsQuarter(before, accounts, digest, cmp, reference, good, key);
        case _ => ElsewhereKeepsQuarter(before, chart, accounts, digest, call, key);
      }
    }
  }

  // ------------------------------------------------------------------ what the states mean

  /** A statement shown as booked has nothing left to book, and the ledger holds what it says is payable. */
  lemma BookedLeavesNothing(d: Desk, accounts: Accounts, digest: Content -> string, cmp: Cmp08)
    requires DeskOk(d, accounts, digest) && Injective(digest) && ':' !in cmp.quarter.key
    requires StateOf(d.records, cmp.quarter.key, digest(ContentOf(cmp))) == Booked
    ensures BookedFor(d.records, cmp.quarter.key) == cmp.payable
    ensures accounts.owed.Some? ==> CreditedFor(d.books.vouchers, cmp.quarter.key, accounts.owed.value) == cmp.payable
  {
    var key := cmp.quarter.key;
    var bookings := BookingsOf(d.records, key);
    assert QuarterOk(d, accounts, digest, key);
    SumIsLastAmount(bookings, key, digest);
    assert Digested(bookings[|bookings| - 1], key, digest);
    var c: Content :| c.quarterKey == key && c.payable == bookings[|bookings| - 1].amount
      && bookings[|bookings| - 1].fingerprint == digest(c);
    assert c == ContentOf(cmp);
  }

  /**
   * An approval that is answered leaves the statement booked in full exactly when it was not taken for a
   * repeat of an older booking — or that older amount happens to be what was booked last.
   */
  lemma ApprovedMeansBookedIff(d: Desk, chart: Chart, gate: Gate, accounts: Accounts, digest: Content -> string,
                               cmp: Cmp08, token: string)
    requires DeskOk(d, accounts, digest) && ':' !in cmp.quarter.key
    requires Approve(d, chart, gate, accounts, cmp, digest(ContentOf(cmp)), token).1.Ok?
    ensures var (after, answer) := Approve(d, chart, gate, accounts, cmp, digest(ContentOf(cmp)), token);
      var bookings := BookingsOf(d.records, cmp.quarter.key);
      && (BookedFor(after.records, cmp.quarter.key) == cmp.payable <==>
            !BookedBefore(bookings, digest(ContentOf(cmp))) || bookings[|bookings| - 1].amount == cmp.payable)
      && (answer.value <==> BookedBefore(bookings, digest(ContentOf(cmp))))
      && (answer.value ==> after == d)
      && (!answer.value ==> StateOf(after.records, cmp.quarter.key, digest(ContentOf(cmp))) == Booked)
  {
    var key := cmp.quarter.key;
    var bookings := BookingsOf(d.records, key);
    var after := Approve(d, chart, gate, accounts, cmp, digest(ContentOf(cmp)), token).0;
    assert QuarterOk(d, accounts, digest, key);
    SumIsLastAmount(bookings, key, digest);
    if !BookedBefore(bookings, digest(ContentOf(cmp))) {
      ApprovedIsBooked(d, chart, gate, accounts, digest, cmp, token);
    }
  }

  /** An approval that books leaves the quarter booked, for what is payable. */
  lemma ApprovedIsBooked(d: Desk, chart: Chart, gate: Gate, accounts: Accounts, digest: Content -> string, cmp: Cmp08,
                         token: string)
    requires DeskOk(d, accounts, digest) && ':' !in cmp.quarter.key
    requires Approve(d, chart, gate, accounts, cmp, digest(ContentOf(cmp)), token).1 == Ok(false)
    ensures var after := Approve(d, chart, gate, accounts, cmp, digest(ContentOf(cmp)), token).0;
      && BookedFor(after.records, cmp.quarter.key) == cmp.payable
      && StateOf(after.records, cmp.quarter.key, digest(ContentOf(cmp))) == Booked
  {
    var (key, fingerprint) := (cmp.quarter.key, digest(ContentOf(cmp)));
    var after := Approve(d, chart, gate, accounts, cmp, fingerprint, token).0;
    ApprovalKeepsQuarter(d, chart, gate, accounts, digest, cmp, token, key);
    ApprovalRecords(d, chart, gate, accounts, cmp, fingerprint, token);
    SumIsLastAmount(BookingsOf(after.records, key), key, digest);
  }

  /**
   * From bills to books: an approval that books leaves credited to the account owed exactly twice half of the levy on
   * the quarter's taxable sales.
   */
  lemma ApprovalCreditsTheLevy(d: Desk, chart: Chart, gate: Gate, accounts: Accounts, digest: Content -> string,
                               invoices: seq<Invoice>, notes: seq<Note>, quarter: Quarter, rate: nat, token: string)
    requires DeskOk(d, accounts, digest) && ':' !in quarter.key && accounts.owed.Some?
    requires var cmp := BuildCmp08(DocumentsOf(invoices, notes), quarter, rate);
      Approve(d, chart, gate, accounts, cmp, digest(ContentOf(cmp)), token).1 == Ok(false)
    ensures var cmp := BuildCmp08(DocumentsOf(invoices, notes), quarter, rate);
      var after := Approve(d, chart, gate, accounts, cmp, digest(ContentOf(cmp)), token).0;
      var sales := QuarterSales(invoices, notes, quarter, true);
      CreditedFor(after.books.vouchers, quarter.key, accounts.owed.value) ==
        if rate == 0 then 0 else 2 * HalfLevy(if sales < 0 then 0 else sales, rate)
  {
    var cmp := BuildCmp08(DocumentsOf(invoices, notes), quarter, rate);
    LevyIsOnSales(invoices, notes, quarter, rate);
    ApprovalKeepsQuarter(d, chart, gate, accounts, digest, cmp, token, quarter.key);
    ApprovedIsBooked(d, chart, gate, accounts, digest, cmp, token);
  }

  lemma ApprovalRecords(d: Desk, chart: Chart, gate: Gate, accounts: Accounts, cmp: Cmp08, fingerprint: string,
                        token: string)
    requires Approve(d, chart, gate, accounts, cmp, fingerprint, token).1 == Ok(false)
    ensures var after := Approve(d, chart, gate, accounts, cmp, fingerprint, token).0;
      var bookings := BookingsOf(after.records, cmp.quarter.key);
      bookings != [] && FiledAs(after.records, cmp.quarter.key).None?
      && bookings[|bookings| - 1].fingerprint == fingerprint && bookings[|bookings| - 1].amount == cmp.payable
  {
    var after := Approve(d, chart, gate, accounts, cmp, fingerprint, token).0;
    ReplacedIs(d.records, after.records[|after.records| - 1], cmp.quarter.key);
  }

  /**
   * Bills that go from one state to another and back cannot be approved a third time: the old
   * fingerprint is taken for a repeat, the statement stays changed, and filing it is refused.
   */
  lemma ReturnIsStuck(d: Desk, chart: Chart, gate: Gate, accounts: Accounts, digest: Content -> string, cmp: Cmp08,
                      reference: string, good: bool)
    requires digest(ContentOf(cmp)) != "" && FiledAs(d.records, cmp.quarter.key).None?
    requires var bookings := BookingsOf(d.records, cmp.quarter.key);
      BookedBefore(bookings, digest(ContentOf(cmp))) && bookings[|bookings| - 1].fingerprint != digest(ContentOf(cmp))
    ensures Approve(d, chart, gate, accounts, cmp, digest(ContentOf(cmp)), digest(ContentOf(cmp))) == (d, Ok(true))
    ensures StateOf(d.records, cmp.quarter.key, digest(ContentOf(cmp))) == ChangedAfterBooking
    ensures MarkFiled(d, cmp, digest(ContentOf(cmp)), reference, good) == (d, Refused(ApproveFirst))
  {}

  /**
   * Approved for some figures, approved again for others, and then for the first ones: whatever the desk did before,
   * the second figures stay booked, and the statement of the first can be neither booked nor filed.
   */
  lemma ReturnLeavesTheOther(d: Desk, chart: Chart, gate: Gate, accounts: Accounts, digest: Content -> string, a: Cmp08,
                             b: Cmp08)
    requires DeskOk(d, accounts, digest) && a.quarter == b.quarter && ':' !in a.quarter.key
    requires digest(ContentOf(a)) != digest(ContentOf(b)) && digest(ContentOf(a)) != ""
    requires var (first, answer) := Approve(d, chart, gate, accounts, a, digest(ContentOf(a)), digest(ContentOf(a)));
      answer == Ok(false) && Approve(first, chart, gate, accounts, b, digest(ContentOf(b)), digest(ContentOf(b))).1 ==
        Ok(false)
    ensures var calls := [ApproveCall(a, digest(ContentOf(a)), gate), ApproveCall(b, digest(ContentOf(b)), gate)];
      var (before, after) :=
        (RunOf(d, chart, accounts, digest, calls), RunOf(d, chart, accounts, digest, calls + [calls[0]]));
      && Approve(before, chart, gate, accounts, a, digest(ContentOf(a)), digest(ContentOf(a))) == (before, Ok(true))
      && after == before && BookedFor(after.records, a.quarter.key) == b.payable
      && StateOf(after.records, a.quarter.key, digest(ContentOf(a))) == ChangedAfterBooking
  {
    var (x, y) := (digest(ContentOf(a)), digest(ContentOf(b)));
    var calls := [ApproveCall(a, x, gate), ApproveCall(b, y, gate)];
    var second := Approve(Approve(d, chart, gate, accounts, a, x, x).0, chart, gate, accounts, b, y, y).0;
    AfterTwo(d, chart, gate, accounts, digest, a, b);
    TwoApprovals(d, chart, accounts, digest, calls);
    ReturnIsStuck(second, chart, gate, accounts, digest, a, "", false);
  }

  /** After two approvals the first figures are among those booked, the second are the last. */
  lemma AfterTwo(d: Desk, chart: Chart, gate: Gate, accounts: Accounts, digest: Content -> string, a: Cmp08, b: Cmp08)
    requires DeskOk(d, accounts, digest) && a.quarter == b.quarter && ':' !in a.quarter.key
    requires var (first, answer) := Approve(d, chart, gate, accounts, a, digest(ContentOf(a)), digest(ContentOf(a)));
      answer == Ok(false) && Approve(first, chart, gate, accounts, b, digest(ContentOf(b)), digest(ContentOf(b))).1 ==
        Ok(false)
    ensures var first := Approve(d, chart, gate, accounts, a, digest(ContentOf(a)), digest(ContentOf(a))).0;
      var second := Approve(first, chart, gate, accounts, b, digest(ContentOf(b)), digest(ContentOf(b))).0;
      var bookings := BookingsOf(second.records, a.quarter.key);
      && BookedBefore(bookings, digest(ContentOf(a))) && bookings[|bookings| - 1].fingerprint == digest(ContentOf(b))
      && FiledAs(second.records, a.quarter.key).None? && BookedFor(second.records, a.quarter.key) == b.payable
  {
    var (x, y) := (digest(ContentOf(a)), digest(ContentOf(b)));
    var first := Approve(d, chart, gate, accounts, a, x, x).0;
    ApprovalKeepsAll(d, chart, gate, accounts, digest, a, x);
    ApprovedIsBooked(first, chart, gate, accounts, digest, b, y);
    ApprovalRecords(d, chart, gate, accounts, a, x, x);
    ApprovalAdds(first, chart, gate, accounts, b, y, y);
  }

  lemma ApprovalKeepsAll(d: Desk, chart: Chart, gate: Gate, accounts: Accounts, digest: Content -> string, cmp: Cmp08,
                         token: string)
    requires DeskOk(d, accounts, digest) && ':' !in cmp.quarter.key
    ensures DeskOk(Approve(d, chart, gate, accounts, cmp, digest(ContentOf(cmp)), token).0, accounts, digest)
  {
    forall key: string | ':' !in key
      ensures QuarterOk(Approve(d, chart, gate, accounts, cmp, digest(ContentOf(cmp)), token).0, accounts, digest, key)
    {
      ApprovalKeepsQuarter(d, chart, gate, accounts, digest, cmp, token, key);
    }
  }

  lemma ApprovalAdds(d: Desk, chart: Chart, gate: Gate, accounts: Accounts, cmp: Cmp08, fingerprint: string,
                     token: string)
    requires Approve(d, chart, gate, accounts, cmp, fingerprint, token).1 == Ok(false)
    ensures var after :=
      BookingsOf(Approve(d, chart, gate, accounts, cmp, fingerprint, token).0.records, cmp.quarter.key);
      BookingsOf(d.records, cmp.quarter.key) <= after && after != [] && after[|after| - 1].fingerprint == fingerprint
      && FiledAs(Approve(d, chart, gate, accounts, cmp, fingerprint, token).0.records, cmp.quarter.key).None?
  {
    var after := Approve(d, chart, gate, accounts, cmp, fingerprint, token).0;
    ReplacedIs(d.records, after.records[|after.records| - 1], cmp.quarter.key);
  }

  lemma TwoApprovals(d: Desk, chart: Chart, accounts: Accounts, digest: Content -> string, calls: seq<Call>)
    requires |calls| == 2
    ensures RunOf(d, chart, accounts, digest, calls) ==
            StepOf(StepOf(d, chart, accounts, digest, calls[0]), chart, accounts, digest, calls[1])
    ensures RunOf(d, chart, accounts, digest, calls + [calls[0]]) ==
            StepOf(RunOf(d, chart, accounts, digest, calls), chart, accounts, digest, calls[0])
  {
    assert calls[..1] == [calls[0]] && [calls[0]][..0] == [];
    assert RunOf(d, chart, accounts, digest, []) == d;
    assert RunOf(d, chart, accounts, digest, [calls[0]]) == StepOf(d, chart, accounts, digest, calls[0]);
    assert (calls + [calls[0]])[..2] == calls;
  }

  /** ₹100, then ₹150, then ₹100 again, at a new desk over empty books: ₹150 stays booked. */
  lemma ReturnExample(digest: Content -> string, quarter: Quarter)
    requires Injective(digest) && ':' !in quarter.key
    ensures var (a, b) := (Cmp08(quarter, 100, 1_000_000, 10_000, []), Cmp08(quarter, 100, 1_500_000, 15_000, []));
      var accounts := Accounts(Some(0), Some(1));
      var calls := [ApproveCall(a, digest(ContentOf(a)), GATE), ApproveCall(b, digest(ContentOf(b)), GATE),
        ApproveCall(a, digest(ContentOf(a)), GATE)];
      digest(ContentOf(a)) != "" && digest(ContentOf(b)) != "" ==>
        var after := RunOf(Desk([], Books([], map[])), CHART, accounts, digest, calls);
        BookedFor(after.records, quarter.key) == 15_000 && CreditedFor(after.books.vouchers, quarter.key, 1) == 15_000
  {
    var (a, b) := (Cmp08(quarter, 100, 1_000_000, 10_000, []), Cmp08(quarter, 100, 1_500_000, 15_000, []));
    var (x, y) := (digest(ContentOf(a)), digest(ContentOf(b)));
    var (accounts, d) := (Accounts(Some(0), Some(1)), Desk([], Books([], map[])));
    if x != "" && y != "" {
      FreshDeskIsOk(d.books, accounts, digest);
      assert ContentOf(a).payable != ContentOf(b).payable;
      assert BookingsOf(d.records, quarter.key) == [];
      ExampleApproves(d, digest, a);
      var first := Approve(d, CHART, GATE, accounts, a, x, x).0;
      ApprovalKeepsAll(d, CHART, GATE, accounts, digest, a, x);
      ApprovedIsBooked(d, CHART, GATE, accounts, digest, a, x);
      ApprovalRecords(d, CHART, GATE, accounts, a, x, x);
      OneBooking(d, digest, a);
      ExampleApproves(first, digest, b);
      ReturnLeavesTheOther(d, CHART, GATE, accounts, digest, a, b);
      var calls := [ApproveCall(a, x, GATE), ApproveCall(b, y, GATE)];
      TwoApprovals(d, CHART, accounts, digest, calls);
      assert calls + [calls[0]] == [ApproveCall(a, x, GATE), ApproveCall(b, y, GATE), ApproveCall(a, x, GATE)];
      ApprovalKeepsAll(first, CHART, GATE, accounts, digest, b, y);
      assert QuarterOk(Approve(first, CHART, GATE, accounts, b, y, y).0, accounts, digest, quarter.key);
    }
  }

  /** Over the two accounts of the example every difference posts, so an approval fails only for its own reasons. */
  lemma ExampleApproves(d: Desk, digest: Content -> string, cmp: Cmp08)
    requires DeskOk(d, Accounts(Some(0), Some(1)), digest) && ':' !in cmp.quarter.key && digest(ContentOf(cmp)) != ""
    requires FiledAs(d.records, cmp.quarter.key).None? && BookedFor(d.records, cmp.quarter.key) != cmp.payable
    requires !BookedBefore(BookingsOf(d.records, cmp.quarter.key), digest(ContentOf(cmp)))
    ensures Approve(d, CHART, GATE, Accounts(Some(0), Some(1)), cmp, digest(ContentOf(cmp)),
      digest(ContentOf(cmp))).1 == Ok(false)
  {
    var (key, fingerprint) := (cmp.quarter.key, digest(ContentOf(cmp)));
    assert QuarterOk(d, Accounts(Some(0), Some(1)), digest, key);
    FreshKey(d.books.keys.Keys, BookingsOf(d.records, key), key, fingerprint);
    ExamplePosts(d.books, cmp, fingerprint, cmp.payable - BookedFor(d.records, key));
    DifferenceIsBooked(d, CHART, GATE, Accounts(Some(0), Some(1)), cmp, fingerprint);
  }

  lemma DifferenceIsBooked(d: Desk, chart: Chart, gate: Gate, accounts: Accounts, cmp: Cmp08, fingerprint: string)
    requires fingerprint != "" && FiledAs(d.records, cmp.quarter.key).None? && accounts.expense.Some?
      && accounts.owed.Some?
    requires !BookedBefore(BookingsOf(d.records, cmp.quarter.key), fingerprint)
      && BookedFor(d.records, cmp.quarter.key) != cmp.payable
    requires Post(d.books, chart, gate,
      BookingCommand(cmp, fingerprint, accounts, cmp.payable - BookedFor(d.records, cmp.quarter.key))).1.Ok?
    ensures Approve(d, chart, gate, accounts, cmp, fingerprint, fingerprint).1 == Ok(false)
  {
    var (bookings, booked) := (BookingsOf(d.records, cmp.quarter.key), BookedFor(d.records, cmp.quarter.key));
    var delta := cmp.payable - booked;
    var posted := Post(d.books, chart, gate, BookingCommand(cmp, fingerprint, accounts, delta)).1;
    assert posted == Ok(posted.value);
  }

  lemma ExamplePosts(books: Books, cmp: Cmp08, fingerprint: string, delta: int)
    requires delta != 0 && BookingKey(cmp.quarter.key, fingerprint) !in books.keys
    ensures Post(books, CHART, GATE, BookingCommand(cmp, fingerprint, Accounts(Some(0), Some(1)), delta)).1.Ok?
  {
    var lines := BookingLines(Accounts(Some(0), Some(1)), delta);
    var key := BookingKey(cmp.quarter.key, fingerprint);
    assert key[0] == 'c' && key[0] in key;
    assert lines[..1] == [lines[0]] && [lines[0]][..0] == [] && lines[1..] == [lines[1]] && [lines[1]][1..] == [];
    assert CHART[1..] == [CHART[1]];
    assert Debits(lines) == Debits([lines[0]]) + lines[1].debit && Debits([lines[0]]) == lines[0].debit;
    assert Credits(lines) == Credits([lines[0]]) + lines[1].credit && Credits([lines[0]]) == lines[0].credit;
    assert FirstFault([lines[1]], CHART).None?;
    assert FirstFault(lines, CHART).None?;
  }

  lemma OneBooking(d: Desk, digest: Content -> string, cmp: Cmp08)
    requires DeskOk(d, Accounts(Some(0), Some(1)), digest) && ':' !in cmp.quarter.key
    requires BookingsOf(d.records, cmp.quarter.key) == []
    requires Approve(d, CHART, GATE, Accounts(Some(0), Some(1)), cmp, digest(ContentOf(cmp)),
      digest(ContentOf(cmp))).1 == Ok(false)
    ensures var after :=
      Approve(d, CHART, GATE, Accounts(Some(0), Some(1)), cmp, digest(ContentOf(cmp)), digest(ContentOf(cmp))).0;
      forall other :: BookedBefore(BookingsOf(after.records, cmp.quarter.key), other) ==>
        other == digest(ContentOf(cmp))
  {
    var (key, fingerprint) := (cmp.quarter.key, digest(ContentOf(cmp)));
    assert QuarterOk(d, Accounts(Some(0), Some(1)), digest, key);
    FreshKey(d.books.keys.Keys, [], key, fingerprint);
    ApprovalRecordsOne(d, CHART, GATE, Accounts(Some(0), Some(1)), cmp, fingerprint, fingerprint, key);
  }

  const GATE := Gate(true, true, true, 0)
  const CHART: Chart :=
    [Account(0, "5900", None, false, true, None, None), Account(1, "2330", None, false, true, None, None)]

  /** What a quarter's record keeps: bookings are only added, and a filed record never changes. */
  ghost predicate RecordGrew(before: seq<StatementRecord>, after: seq<StatementRecord>, key: string) {
    && BookingsOf(before, key) <= BookingsOf(after, key)
    && (FiledAs(before, key).Some? ==> RecordOf(after, key) == RecordOf(before, key))
  }

  lemma {:induction false} RecordsOnlyGrow(d: Desk, chart: Chart, accounts: Accounts, digest: Content -> string,
                                           calls: seq<Call>, key: string)
    ensures RecordGrew(d.records, RunOf(d, chart, accounts, digest, calls).records, key)
  {
    if calls != [] {
      var before := RunOf(d, chart, accounts, digest, calls[..|calls| - 1]);
      RecordsOnlyGrow(d, chart, accounts, digest, calls[..|calls| - 1], key);
      var after := StepOf(before, chart, accounts, digest, calls[|calls| - 1]);
      if after.records != before.records {
        ReplacedIs(before.records, after.records[|after.records| - 1], key);
      }
    }
  }

  // ------------------------------------------------------------------ when it is answered, and what it leaves

  /** The statement looked at last when it was approved is this one, and it is not filed. */
  ghost predicate IsBooked(d: Desk, key: string, fingerprint: string) {
    && FiledAs(d.records, key).None? && BookingsOf(d.records, key) != []
    && BookingsOf(d.records, key)[|BookingsOf(d.records, key)| - 1].fingerprint == fingerprint
  }

  /**
   * An answered filing files the quarter under that very reference, whatever statement is shown from then on; bookings,
   * other quarters and the books stay. It is answered exactly when the statement is booked and the reference is good.
   */
  lemma FilingFiles(d: Desk, cmp: Cmp08, fingerprint: string, reference: string, good: bool)
    ensures var (after, answer) := MarkFiled(d, cmp, fingerprint, reference, good);
      var key := cmp.quarter.key;
      && (answer.Ok? <==> good && IsBooked(d, key, fingerprint))
      && (answer.Refused? ==> after == d)
      && (answer.Ok? ==>
            && IsFiled(after, key, reference) && BookingsOf(after.records, key) == BookingsOf(d.records, key)
            && after.books == d.books
            && forall other :: other != key ==> RecordOf(after.records, other) == RecordOf(d.records, other))
  {
    var key := cmp.quarter.key;
    var record := StatementRecord(key, BookingsOf(d.records, key), Some(reference));
    forall other
      ensures RecordOf(Replaced(d.records, record), other) ==
              if other == key then Some(record) else RecordOf(d.records, other)
    {
      ReplacedIs(d.records, record, other);
    }
  }

  /** Filed under the reference, and shown as filed whatever its figures are by now. */
  ghost predicate IsFiled(d: Desk, key: string, reference: string) {
    FiledAs(d.records, key) == Some(reference) && forall fingerprint :: StateOf(d.records, key, fingerprint) == Filed
  }

  /** A filed quarter takes no filing and, once it was looked at, no approval. */
  lemma FiledTakesNothing(d: Desk, chart: Chart, gate: Gate, accounts: Accounts, cmp: Cmp08, fingerprint: string,
                          reference: string, good: bool)
    requires FiledAs(d.records, cmp.quarter.key).Some?
    ensures MarkFiled(d, cmp, fingerprint, reference, good) == (d, Refused(AlreadyFiled))
    ensures fingerprint != "" ==>
              Approve(d, chart, gate, accounts, cmp, fingerprint, fingerprint) == (d, Refused(AlreadyFiled))
  {}

  /**
   * After an answered filing, through any run: the quarter stays filed under its reference, with the same bookings and
   * the same credit in the books, and every further filing or approval of it is refused as already filed.
   */
  lemma FiledForGood(d: Desk, chart: Chart, gate: Gate, accounts: Accounts, digest: Content -> string, cmp: Cmp08,
                     reference: string, calls: seq<Call>, later: Cmp08, another: string, good: bool)
    requires DeskOk(d, accounts, digest) && ':' !in cmp.quarter.key
    requires MarkFiled(d, cmp, digest(ContentOf(cmp)), reference, true).1.Ok?
    requires forall i :: 0 <= i < |calls| ==> KeysApart(calls[i])
    requires later.quarter.key == cmp.quarter.key
    ensures var filed := MarkFiled(d, cmp, digest(ContentOf(cmp)), reference, true).0;
      var now := RunOf(filed, chart, accounts, digest, calls);
      var key := cmp.quarter.key;
      && IsFiled(now, key, reference) && BookingsOf(now.records, key) == BookingsOf(d.records, key)
      && (accounts.owed.Some? ==>
            CreditedFor(now.books.vouchers, key, accounts.owed.value) ==
              CreditedFor(d.books.vouchers, key, accounts.owed.value))
      && MarkFiled(now, later, digest(ContentOf(later)), another, good) == (now, Refused(AlreadyFiled))
      && (digest(ContentOf(later)) != "" ==>
            Approve(now, chart, gate, accounts, later, digest(ContentOf(later)), digest(ContentOf(later))) ==
            (now, Refused(AlreadyFiled)))
  {
    var key := cmp.quarter.key;
    var filed := MarkFiled(d, cmp, digest(ContentOf(cmp)), reference, true).0;
    var now := RunOf(filed, chart, accounts, digest, calls);
    FilingFiles(d, cmp, digest(ContentOf(cmp)), reference, true);
    FilingKeepsAll(d, accounts, digest, cmp, reference);
    BookedIsInTheBooks(filed, chart, accounts, digest, calls);
    RecordsOnlyGrow(filed, chart, accounts, digest, calls, key);
    assert QuarterOk(d, accounts, digest, key) && QuarterOk(now, accounts, digest, key);
    FiledTakesNothing(now, chart, gate, accounts, later, digest(ContentOf(later)), another, good);
  }

  lemma FilingKeepsAll(d: Desk, accounts: Accounts, digest: Content -> string, cmp: Cmp08, reference: string)
    requires DeskOk(d, accounts, digest)
    ensures DeskOk(MarkFiled(d, cmp, digest(ContentOf(cmp)), reference, true).0, accounts, digest)
  {
    forall key: string | ':' !in key
      ensures QuarterOk(MarkFiled(d, cmp, digest(ContentOf(cmp)), reference, true).0, accounts, digest, key)
    {
      assert QuarterOk(d, accounts, digest, key);
      FilingKeepsQuarter(d, accounts, digest, cmp, reference, true, key);
    }
  }

  /** When an approval may be answered. */
  ghost predicate MayApprove(d: Desk, chart: Chart, gate: Gate, accounts: Accounts, cmp: Cmp08, fingerprint: string,
                             token: string)
  {
    var (bookings, booked) := (BookingsOf(d.records, cmp.quarter.key), BookedFor(d.records, cmp.quarter.key));
    && token == fingerprint != "" && FiledAs(d.records, cmp.quarter.key).None?
    && (BookedBefore(bookings, fingerprint)
        || (cmp.payable == booked != 0)
        || (cmp.payable != booked && accounts.expense.Some? && accounts.owed.Some? &&
            Post(d.books, chart, gate, BookingCommand(cmp, fingerprint, accounts, cmp.payable - booked)).1.Ok?))
  }

  /**
   * An approval is answered exactly when the figures are the ones looked at, the quarter is not filed, and it was
   * booked with them before, or has nothing to post, or the ledger takes the difference. A refused one changes
   * nothing.
   */
  lemma ApprovedIff(d: Desk, chart: Chart, gate: Gate, accounts: Accounts, cmp: Cmp08, fingerprint: string,
                    token: string)
    ensures var (after, answer) := Approve(d, chart, gate, accounts, cmp, fingerprint, token);
      && (answer.Ok? <==> MayApprove(d, chart, gate, accounts, cmp, fingerprint, token))
      && (answer.Refused? || answer.value ==> after == d)
      && (answer.Ok? ==> (answer.value <==> BookedBefore(BookingsOf(d.records, cmp.quarter.key), fingerprint)))
  {}

  /** A final journal of the quarter's last day, under a key of its own, for tax and from expense or back. */
  ghost predicate BooksTheTax(v: Voucher, accounts: Accounts, cmp: Cmp08, fingerprint: string, more: int)
    requires accounts.expense.Some? && accounts.owed.Some?
  {
    && v.state == Final && v.voucherType == Journal && v.date == cmp.quarter.to
    && v.key == DESK_PREFIX + cmp.quarter.key + ":" + fingerprint
    && Moved(v.lines, accounts.expense.value) == more && Moved(v.lines, accounts.owed.value) == -more
    && forall account: AccountId :: Some(account) != accounts.expense && Some(account) != accounts.owed ==>
         Moved(v.lines, account) == 0
  }

  lemma BookingLinesMove(accounts: Accounts, delta: int, account: AccountId)
    requires accounts.expense.Some? && accounts.owed.Some? && accounts.expense != accounts.owed
    ensures Moved(BookingLines(accounts, delta), account) ==
            if Some(account) == accounts.expense then delta else if Some(account) == accounts.owed then -delta else 0
  {
    var lines := BookingLines(accounts, delta);
    assert lines[..1] == [lines[0]] && lines[..1][..0] == [];
    assert Moved(lines[..1], account) == if lines[0].account == account then lines[0].debit - lines[0].credit else 0;
  }

  /**
   * An approval that books anew posts what the statement asks beyond what is booked, or takes the excess back, in one
   * voucher; and nothing when there is no difference, or when the key of the booking was used before.
   */
  lemma ApprovalBooksTheTax(d: Desk, chart: Chart, gate: Gate, accounts: Accounts, cmp: Cmp08,
                            fingerprint: string, token: string)
    requires Valid(d.books) && accounts.expense.Some? && accounts.owed.Some? && accounts.expense != accounts.owed
    requires Approve(d, chart, gate, accounts, cmp, fingerprint, token).1 == Ok(false)
    ensures var (after, key) := (Approve(d, chart, gate, accounts, cmp, fingerprint, token).0, cmp.quarter.key);
      var more := cmp.payable - BookedFor(d.records, key);
      if more == 0 || BookingKey(key, fingerprint) in d.books.keys then after.books == d.books
      else
        exists v ::
          after.books.vouchers == d.books.vouchers + [v] && BooksTheTax(v, accounts, cmp, fingerprint, more)
  {
    var more := cmp.payable - BookedFor(d.records, cmp.quarter.key);
    if more != 0 {
      var cmd := BookingCommand(cmp, fingerprint, accounts, more);
      PostedIff(d.books, chart, gate, cmd);
      if cmd.key !in d.books.keys {
        var v := Post(d.books, chart, gate, cmd).1.value.voucher;
        forall account: AccountId
          ensures Moved(v.lines, account) ==
                  if Some(account) == accounts.expense then more
                  else if Some(account) == accounts.owed then -more else 0
        {
          BookingLinesMove(accounts, more, account);
        }
        assert BooksTheTax(v, accounts, cmp, fingerprint, more);
      }
    }
  }

  /**
   * After an approval that books, a statement of the quarter is shown as booked exactly when it has the same rate,
   * amounts and documents as the one approved; else as changed since.
   */
  lemma ChangeIsShown(d: Desk, chart: Chart, gate: Gate, accounts: Accounts, digest: Content -> string, approved: Cmp08,
                      shown: Cmp08, token: string)
    requires Injective(digest) && shown.quarter == approved.quarter
    requires Approve(d, chart, gate, accounts, approved, digest(ContentOf(approved)), token).1 == Ok(false)
    ensures var after := Approve(d, chart, gate, accounts, approved, digest(ContentOf(approved)), token).0;
      StateOf(after.records, shown.quarter.key, digest(ContentOf(shown))) ==
      if shown.rate == approved.rate && shown.payable == approved.payable && shown.outward == approved.outward
         && multiset(shown.documents) == multiset(approved.documents)
      then StatementState.Booked else ChangedAfterBooking
  {
    ApprovalRecords(d, chart, gate, accounts, approved, digest(ContentOf(approved)), token);
    ContentTells(shown, approved);
  }

  // ------------------------------------------------------------------ the desk as it is stored

  class StatementDesk {
    const chart: Chart
    const accounts: Accounts
    const store: LedgerStore
    var records: seq<StatementRecord>

    constructor (chart: Chart, accounts: Accounts, store: LedgerStore)
      ensures this.chart == chart && this.accounts == accounts && this.store == store && records == []
    {
      this.chart, this.accounts, this.store, records := chart, accounts, store, [];
    }

    function View(): Desk
      reads this, store
    {
      Desk(records, store.View())
    }

    /** The sum of what has been booked for a quarter. */
    method SumBooked(bookings: seq<Booking>) returns (booked: int)
      ensures booked == DeltaSum(bookings)
    {
      booked := 0;
      for i := 0 to |bookings|
        invariant booked == DeltaSum(bookings[..i])
      {
        assert bookings[..i + 1][..i] == bookings[..i];
        booked := booked + bookings[i].delta;
      }
      assert bookings[..|bookings|] == bookings;
    }

    method ApproveStatement(gate: Gate, cmp: Cmp08, fingerprint: string, token: string)
        returns (answer: Result<bool, DeskError>)
      modifies this, store
      ensures (View(), answer) == Approve(old(View()), chart, gate, accounts, cmp, fingerprint, token)
    {
      if token == "" { return Refused(NotChecked); }
      if token != fingerprint { return Refused(ChangedSinceCheck); }
      var key := cmp.quarter.key;
      var bookings := BookingsOf(records, key);
      var booked := SumBooked(bookings);
      if FiledAs(records, key).Some? { return Refused(AlreadyFiled); }
      if BookedBefore(bookings, fingerprint) { return Ok(true); }
      if cmp.payable == 0 && booked == 0 { return Refused(NothingDue); }
      var delta := cmp.payable - booked;
      ghost var before := View();
      assert View() == old(View()) && delta == cmp.payable - BookedFor(before.records, key);
      var voucher: Option<VoucherId> := None;
      if delta != 0 {
        if accounts.expense.None? || accounts.owed.None? { return Refused(AccountMissing); }
        ghost var (books, result) := Post(before.books, chart, gate, BookingCommand(cmp, fingerprint, accounts, delta));
        var posted := store.PostVoucher(chart, gate, BookingCommand(cmp, fingerprint, accounts, delta));
        assert store.View() == books && posted == result;
        if posted.Refused? {
          PostRefusedWritesNothing(before.books, chart, gate, BookingCommand(cmp, fingerprint, accounts, delta));
          return Refused(LedgerRefusal(posted.why));
        }
        voucher := Some(posted.value.voucher.id);
      }
      records := Replaced(records,
        StatementRecord(key, bookings + [Booking(fingerprint, cmp.payable, delta, voucher)], None));
      answer := Ok(false);
    }

    method FileStatement(cmp: Cmp08, fingerprint: string, reference: string, goodReference: bool)
        returns (answer: Result<bool, DeskError>)
      modifies this
      ensures (View(), answer) == MarkFiled(old(View()), cmp, fingerprint, reference, goodReference)
    {
      var state := StateOf(records, cmp.quarter.key, fingerprint);
      if state == Filed { return Refused(AlreadyFiled); }
      if state != Booked { return Refused(ApproveFirst); }
      if !goodReference { return Refused(BadReference); }
      records := Replaced(records,
        StatementRecord(cmp.quarter.key, BookingsOf(records, cmp.quarter.key), Some(reference)));
      answer := Ok(false);
    }
  }
}
