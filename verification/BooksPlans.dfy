/** What an expense, contra, owner or journal entry will write, worked out before anything is saved. */
module BooksPlans {
  import opened Basics
  import opened Texts
  import opened Ledger
  import MoneyText

  const CASH := "1110"
  const BANK_GROUP := "1120"
  const CURRENT_ACCOUNT := "1121"
  const CAPITAL := "3100"
  const DRAWINGS := "3150"
  const SOURCE_PREFIX := "books."
  const MAX_JOURNAL_LINES := 20

  datatype BooksError = RequestIdMissing | NotChecked | ChangedSinceCheck | CashShort | AccountMissing | RequestReused
    | UndoReasonMissing | EntryNotFound | UndoNotAllowed | LedgerRefused(error: LedgerError)
    | AmountRefused | BadDate | DateAhead | UnknownHead | ExpenseOwed | UnknownWay | NoGstOnHead | GstGoesToPurchases
    | RentReverseCharge | TransportAgency | ConsignmentNoteUnsaid | UnknownDirection
    | NarrationMissing | BadLineCount | UnknownJournalAccount | AccountNotAllowed | WrongSide | SidesDiffer

  datatype Head = Rent | Wages | Electricity | Transport | Repairs | BankCharges | Telephone | OtherCost
  {
    function Code(): string {
      match this
      case Rent => "5610" case Wages => "5620" case Electricity => "5630" case Transport => "5640"
      case Repairs => "5650" case BankCharges => "5660" case Telephone => "5670" case OtherCost => "5900"
    }

    function Label(): string {
      match this
      case Rent => "Rent" case Wages => "Wages and salaries" case Electricity => "Electricity"
      case Transport => "Transport and travel" case Repairs => "Repairs and upkeep" case BankCharges => "Bank charges"
      case Telephone => "Telephone and internet" case OtherCost => "Other business costs"
    }

    predicate NoGst() { Wages? || Electricity? }
  }

  /** A date box: empty means today. */
  datatype DateText = NoDate | On(day: Day) | Unreadable
  /** A paid-from box, once spelling has been put aside. */
  datatype Way = ByCash | ByBank | OnCredit | AnyOtherWay
  datatype Answer = Yes | No | Unsaid
  datatype JournalInput = JournalInput(account: string, debit: string, credit: string, note: string)

  datatype Entry =
    | Expense(head: Option<Head>, date: DateText, paidFrom: Way, amount: string, gst: string, consignmentNote: Answer,
      billNumber: string, narration: string)
    | Contra(deposit: Option<bool>, date: DateText, amount: string, narration: string)
    | Owner(capital: Option<bool>, date: DateText, paidFrom: Way, amount: string, narration: string)
    | JournalEntry(date: DateText, narration: string, lines: seq<JournalInput>)
  {
    function Kind(): string {
      match this
      case Expense(_, _, _, _, _, _, _, _) => "expense"
      case Contra(_, _, _, _) => "contra"
      case Owner(_, _, _, _, _) => "owner"
      case JournalEntry(_, _, _) => "journal"
    }
  }

  datatype Plan = Plan(kind: string, voucherType: VoucherType, date: Day, narration: string, lines: seq<PlannedLine>,
                       cashOut: nat)

  /** `fingerprint`: what is digested of a plan. */
  function Fingerprint(plan: Plan): SourceId {
    Digest(plan.kind, plan.voucherType, plan.date, plan.narration, plan.lines)
  }

  function Debit(code: string, amount: nat): PlannedLine { PlannedLine(code, amount, 0, None) }
  function Credit(code: string, amount: nat): PlannedLine { PlannedLine(code, 0, amount, None) }

  function DateOf(date: DateText, today: Day): Result<Day, BooksError> {
    match date
    case Unreadable => Refused(BadDate)
    case NoDate => Ok(today)
    case On(day) => if day > today then Refused(DateAhead) else Ok(day)
  }

  /** Whether money moves in cash. */
  function PaidInCash(way: Way, allowSupplier: bool): Result<bool, BooksError> {
    match way
    case ByCash => Ok(true)
    case ByBank => Ok(false)
    case OnCredit => Refused(if allowSupplier then ExpenseOwed else UnknownWay)
    case AnyOtherWay => Refused(UnknownWay)
  }

  function MoneyAccount(cash: bool): string { if cash then CASH else CURRENT_ACCOUNT }

  /** `filter(part => part !== '').join(': ')` of a title that is never empty and a note. */
  function Titled(title: string, note: string): string { if note == "" then title else title + ": " + note }

  function ReverseChargeFault(head: Head, consignmentNote: Answer): Option<BooksError> {
    match head
    case Rent => Some(RentReverseCharge)
    case Transport => if consignmentNote.Yes? then Some(TransportAgency)
      else if consignmentNote.Unsaid? then Some(ConsignmentNoteUnsaid) else None
    case _ => None
  }

  function PlanExpense(e: Entry, today: Day): Result<Plan, BooksError>
    requires e.Expense?
  {
    if e.head.None? then Refused(UnknownHead)
    else
      var head := e.head.value;
      var date := DateOf(e.date, today);
      if date.Refused? then Refused(date.why) else
      var cash := PaidInCash(e.paidFrom, true);
      if cash.Refused? then Refused(cash.why) else
      var amount := MoneyText.AmountOf(e.amount, false);
      if amount.Refused? then Refused(AmountRefused) else
      var gst := MoneyText.AmountOf(e.gst, true);
      if gst.Refused? then Refused(AmountRefused)
      else if gst.value > 0 then Refused(if head.NoGst() then NoGstOnHead else GstGoesToPurchases)
      else if ReverseChargeFault(head, e.consignmentNote).Some? then
        Refused(ReverseChargeFault(head, e.consignmentNote).value)
      else
        var title := head.Label() + " paid" + if e.billNumber == "" then "" else ", bill " + e.billNumber;
        Ok(Plan("expense", Payment, date.value, Titled(title, e.narration),
                [Debit(head.Code(), amount.value), Credit(MoneyAccount(cash.value), amount.value)],
                if cash.value then amount.value else 0))
  }

  function PlanContra(e: Entry, today: Day): Result<Plan, BooksError>
    requires e.Contra?
  {
    if e.deposit.None? then Refused(UnknownDirection)
    else
      var date := DateOf(e.date, today);
      if date.Refused? then Refused(date.why) else
      var amount := MoneyText.AmountOf(e.amount, false);
      if amount.Refused? then Refused(AmountRefused)
      else if e.deposit.value then
        Ok(Plan("contra", Journal, date.value, Titled("Cash put into the bank", e.narration),
                [Debit(CURRENT_ACCOUNT, amount.value), Credit(CASH, amount.value)], amount.value))
      else
        Ok(Plan("contra", Journal, date.value, Titled("Cash taken out of the bank", e.narration),
                [Debit(CASH, amount.value), Credit(CURRENT_ACCOUNT, amount.value)], 0))
  }

  function PlanOwner(e: Entry, today: Day): Result<Plan, BooksError>
    requires e.Owner?
  {
    if e.capital.None? then Refused(UnknownDirection)
    else
      var date := DateOf(e.date, today);
      if date.Refused? then Refused(date.why) else
      var cash := PaidInCash(e.paidFrom, false);
      if cash.Refused? then Refused(cash.why) else
      var amount := MoneyText.AmountOf(e.amount, false);
      if amount.Refused? then Refused(AmountRefused)
      else if e.capital.value then
        Ok(Plan("owner", Receipt, date.value, Titled("The owner put money into the business", e.narration),
                [Debit(MoneyAccount(cash.value), amount.value), Credit(CAPITAL, amount.value)], 0))
      else
        Ok(Plan("owner", Payment, date.value, Titled("The owner took money out for home", e.narration),
                [Debit(DRAWINGS, amount.value), Credit(MoneyAccount(cash.value), amount.value)],
                if cash.value then amount.value else 0))
  }

  // ------------------------------------------------------------------ journals

  function FindCode(chart: Chart, code: string): Option<Account> {
    if chart == [] then None else if chart[0].code == code then Some(chart[0]) else FindCode(chart[1..], code)
  }

  function CodeId(chart: Chart, code: string): Option<AccountId> {
    match FindCode(chart, code) case None => None case Some(account) => Some(account.id)
  }

  /** `#journalRefusal`: cash, bank, party, stock and document-backed accounts are closed to journals. */
  predicate JournalRefused(account: Account, chart: Chart) {
    || account.isGroup || !account.active || account.party.Some?
    || account.code == CASH
    || (CodeId(chart, BANK_GROUP).Some? && account.parent == CodeId(chart, BANK_GROUP))
    || account.role == Some(ChequesInHand) || account.role == Some(StockInHand) || account.role == Some(DocumentBacked)
  }

  function PlanLine(line: JournalInput, chart: Chart): Result<PlannedLine, BooksError> {
    match FindCode(chart, line.account)
    case None => Refused(UnknownJournalAccount)
    case Some(account) =>
      if JournalRefused(account, chart) then Refused(AccountNotAllowed)
      else
        var dr := MoneyText.AmountOf(line.debit, true);
        if dr.Refused? then Refused(AmountRefused) else
        var cr := MoneyText.AmountOf(line.credit, true);
        if cr.Refused? then Refused(AmountRefused)
        else if (dr.value == 0) == (cr.value == 0) then Refused(WrongSide)
        else Ok(PlannedLine(account.code, dr.value, cr.value, if line.note == "" then None else Some(line.note)))
  }

  function PlanLines(lines: seq<JournalInput>, chart: Chart): Result<seq<PlannedLine>, BooksError> {
    if lines == [] then Ok([])
    else
      var first := PlanLine(lines[0], chart);
      if first.Refused? then Refused(first.why) else
      var rest := PlanLines(lines[1..], chart);
      if rest.Refused? then rest else Ok([first.value] + rest.value)
  }

  function PlannedDebits(lines: seq<PlannedLine>): int {
    if lines == [] then 0 else PlannedDebits(lines[..|lines| - 1]) + lines[|lines| - 1].debit
  }

  function PlannedCredits(lines: seq<PlannedLine>): int {
    if lines == [] then 0 else PlannedCredits(lines[..|lines| - 1]) + lines[|lines| - 1].credit
  }

  function PlanJournal(e: Entry, chart: Chart, today: Day): Result<Plan, BooksError>
    requires e.JournalEntry?
  {
    var date := DateOf(e.date, today);
    if date.Refused? then Refused(date.why)
    else if e.narration == "" then Refused(NarrationMissing)
    else if |e.lines| < 2 || |e.lines| > MAX_JOURNAL_LINES then Refused(BadLineCount)
    else
      var lines := PlanLines(e.lines, chart);
      if lines.Refused? then Refused(lines.why)
      else if PlannedDebits(lines.value) != PlannedCredits(lines.value) then Refused(SidesDiffer)
      else Ok(Plan("journal", Journal, date.value, e.narration, lines.value, 0))
  }

  function PlanOf(e: Entry, chart: Chart, today: Day): Result<Plan, BooksError> {
    match e
    case Expense(_, _, _, _, _, _, _, _) => PlanExpense(e, today)
    case Contra(_, _, _, _) => PlanContra(e, today)
    case Owner(_, _, _, _, _) => PlanOwner(e, today)
    case JournalEntry(_, _, _) => PlanJournal(e, chart, today)
  }

  // ------------------------------------------------------------------ what every plan is

  predicate OneSidedPlan(line: PlannedLine) {
    line.debit >= 0 && line.credit >= 0 && (line.debit == 0 <==> line.credit != 0)
  }

  /** What the plan brings into the account of one code. */
  function PlannedMove(lines: seq<PlannedLine>, code: string): int {
    if lines == [] then 0
    else
      var last := lines[|lines| - 1];
      PlannedMove(lines[..|lines| - 1], code) + if last.code == code then last.debit - last.credit else 0
  }

  ghost predicate SoundPlan(plan: Plan) {
    && |plan.lines| >= 2
    && (forall i :: 0 <= i < |plan.lines| ==> OneSidedPlan(plan.lines[i]))
    && PlannedDebits(plan.lines) == PlannedCredits(plan.lines)
    && plan.voucherType != Reversal
  }

  lemma {:induction false} PlanLinesAreSound(lines: seq<JournalInput>, chart: Chart)
    requires PlanLines(lines, chart).Ok?
    ensures var planned := PlanLines(lines, chart).value;
      |planned| == |lines| && forall i :: 0 <= i < |planned| ==> OneSidedPlan(planned[i]) && planned[i].code != CASH
  {
    if lines != [] {
      PlanLinesAreSound(lines[1..], chart);
      FoundHasCode(chart, lines[0].account);
    }
  }

  lemma {:induction false} FoundHasCode(chart: Chart, code: string)
    requires FindCode(chart, code).Some?
    ensures FindCode(chart, code).value in chart && FindCode(chart, code).value.code == code
  {
    if chart[0].code != code { FoundHasCode(chart[1..], code); }
  }

  lemma {:induction false} NoMoveElsewhere(lines: seq<PlannedLine>, code: string)
    requires forall i :: 0 <= i < |lines| ==> lines[i].code != code
    ensures PlannedMove(lines, code) == 0
  {
    if lines != [] { NoMoveElsewhere(lines[..|lines| - 1], code); }
  }

  /** The plan is sound, is of the entry's kind, and takes out of the drawer exactly what it says. */
  ghost predicate SoundFor(plan: Plan, kind: string, today: Day) {
    && SoundPlan(plan)
    && plan.kind == kind && plan.date <= today
    && var move := PlannedMove(plan.lines, CASH);
       if plan.cashOut > 0 then move + plan.cashOut == 0 else move >= 0
  }

  /** One account gives what another takes. */
  lemma TwoLinesAreSound(plan: Plan, taker: string, giver: string, amount: nat, today: Day)
    requires plan.lines == [Debit(taker, amount), Credit(giver, amount)] && amount > 0 && taker != giver
    requires plan.date <= today && plan.voucherType != Reversal
    requires plan.cashOut == if giver == CASH then amount else 0
    ensures SoundFor(plan, plan.kind, today)
  {
    var (a, b) := (plan.lines[0], plan.lines[1]);
    assert plan.lines[..1] == [a] && [a][..0] == [];
    assert PlannedDebits([a]) == amount;
    assert PlannedCredits([a]) == PlannedCredits([]) == 0;
    assert PlannedMove([a], CASH) == if taker == CASH then amount else 0;
  }

  lemma {:induction false} ExpenseIsSound(e: Entry, today: Day)
    requires e.Expense? && PlanExpense(e, today).Ok?
    ensures SoundFor(PlanExpense(e, today).value, "expense", today)
  {
    var plan := PlanExpense(e, today).value;
    TwoLinesAreSound(plan, e.head.value.Code(), MoneyAccount(PaidInCash(e.paidFrom, true).value), plan.lines[0].debit,
      today);
  }

  lemma ContraIsSound(e: Entry, today: Day)
    requires e.Contra? && PlanContra(e, today).Ok?
    ensures SoundFor(PlanContra(e, today).value, "contra", today)
  {
    var plan := PlanContra(e, today).value;
    var (taker, giver) := if e.deposit.value then (CURRENT_ACCOUNT, CASH) else (CASH, CURRENT_ACCOUNT);
    TwoLinesAreSound(plan, taker, giver, plan.lines[0].debit, today);
  }

  lemma OwnerIsSound(e: Entry, today: Day)
    requires e.Owner? && PlanOwner(e, today).Ok?
    ensures SoundFor(PlanOwner(e, today).value, "owner", today)
  {
    var plan := PlanOwner(e, today).value;
    var account := MoneyAccount(PaidInCash(e.paidFrom, false).value);
    var (taker, giver) := if e.capital.value then (account, CAPITAL) else (DRAWINGS, account);
    TwoLinesAreSound(plan, taker, giver, plan.lines[0].debit, today);
  }

  /** A journal balances too, and never touches the drawer. */
  lemma JournalIsSound(e: Entry, chart: Chart, today: Day)
    requires e.JournalEntry? && PlanJournal(e, chart, today).Ok?
    ensures SoundFor(PlanJournal(e, chart, today).value, "journal", today)
    ensures PlannedMove(PlanJournal(e, chart, today).value.lines, CASH) == 0
  {
    PlanLinesAreSound(e.lines, chart);
    NoMoveElsewhere(PlanJournal(e, chart, today).value.lines, CASH);
  }

  /**
   * Every plan balances, each line on one side, and its `cashOut` is exactly what it takes out of the
   * drawer: a plan that names no cash going out takes none.
   */
  lemma PlansAreSound(e: Entry, chart: Chart, today: Day)
    requires PlanOf(e, chart, today).Ok?
    ensures SoundFor(PlanOf(e, chart, today).value, e.Kind(), today)
  {
    match e
    case Expense(_, _, _, _, _, _, _, _) => ExpenseIsSound(e, today);
    case Contra(_, _, _, _) => ContraIsSound(e, today);
    case Owner(_, _, _, _, _) => OwnerIsSound(e, today);
    case JournalEntry(_, _, _) => JournalIsSound(e, chart, today);
  }

  // ------------------------------------------------------------------ what an entry means

  /** One account takes the amount, another gives it, and nothing else moves. */
  ghost predicate MovesFromTo(lines: seq<PlannedLine>, giver: string, taker: string, amount: int) {
    forall code: string ::
      PlannedMove(lines, code) == (if code == taker then amount else 0) - (if code == giver then amount else 0)
  }

  /** The day an entry is for: the one written, or today when none is. */
  ghost predicate DatedAs(date: DateText, today: Day, day: Day) {
    match date
    case NoDate => day == today
    case On(written) => day == written <= today
    case Unreadable => false
  }

  /** The amount box reads as this many paise, which is not nothing. */
  ghost predicate Reads(amount: string, n: int) { n > 0 && MoneyText.AmountOf(amount, false) == Ok(n) }

  /**
   * What a person who makes the entry is promised, in account codes: 1110 is the drawer, 1121 the bank, 3100 the
   * owner's capital, 3150 the owner's drawings. `n` is the amount read.
   */
  ghost predicate ExpenseMeans(e: Entry, plan: Plan, n: int)
    requires e.Expense?
  {
    && Reads(e.amount, n) && e.head.Some? && plan.voucherType == Payment
    && (e.paidFrom.ByCash? || e.paidFrom.ByBank?)
    && (e.paidFrom.ByCash? ==> MovesFromTo(plan.lines, "1110", e.head.value.Code(), n) && plan.cashOut == n)
    && (e.paidFrom.ByBank? ==> MovesFromTo(plan.lines, "1121", e.head.value.Code(), n) && plan.cashOut == 0)
  }

  ghost predicate ContraMeans(e: Entry, plan: Plan, n: int)
    requires e.Contra?
  {
    && Reads(e.amount, n) && plan.voucherType == Journal && e.deposit.Some?
    && (e.deposit == Some(true) ==> MovesFromTo(plan.lines, "1110", "1121", n) && plan.cashOut == n)
    && (e.deposit == Some(false) ==> MovesFromTo(plan.lines, "1121", "1110", n) && plan.cashOut == 0)
  }

  ghost predicate OwnerMeans(e: Entry, plan: Plan, n: int)
    requires e.Owner?
  {
    var money := if e.paidFrom.ByCash? then "1110" else "1121";
    && Reads(e.amount, n) && e.capital.Some? && (e.paidFrom.ByCash? || e.paidFrom.ByBank?)
    && (e.capital == Some(true) ==>
          MovesFromTo(plan.lines, "3100", money, n) && plan.cashOut == 0 && plan.voucherType == Receipt)
    && (e.capital == Some(false) ==>
          && MovesFromTo(plan.lines, money, "3150", n) && plan.voucherType == Payment
          && plan.cashOut == if e.paidFrom.ByCash? then n else 0)
  }

  ghost predicate JournalMeans(e: Entry, plan: Plan)
    requires e.JournalEntry?
  {
    && plan.voucherType == Journal && plan.cashOut == 0 && |plan.lines| == |e.lines|
    && forall i :: 0 <= i < |e.lines| ==> JournalLineMeans(e.lines[i], plan.lines[i])
  }

  /** The plan does what the entry means, on the day it is for. */
  ghost predicate MeansAs(e: Entry, plan: Plan, today: Day) {
    && DatedAs(e.date, today, plan.date)
    && match e
       case Expense(_, _, _, _, _, _, _, _) => exists n :: ExpenseMeans(e, plan, n)
       case Contra(_, _, _, _) => exists n :: ContraMeans(e, plan, n)
       case Owner(_, _, _, _, _) => exists n :: OwnerMeans(e, plan, n)
       case JournalEntry(_, _, _) => JournalMeans(e, plan)
  }

  /** A journal's line is its account with the amounts read, on one side. */
  ghost predicate JournalLineMeans(line: JournalInput, planned: PlannedLine) {
    && planned.code == line.account
    && MoneyText.AmountOf(line.debit, true) == Ok(planned.debit)
      && MoneyText.AmountOf(line.credit, true) == Ok(planned.credit)
    && (planned.debit == 0 <==> planned.credit != 0)
    && planned.note == if line.note == "" then None else Some(line.note)
  }

  lemma TwoLinesMove(plan: Plan, taker: string, giver: string, amount: nat)
    requires plan.lines == [Debit(taker, amount), Credit(giver, amount)]
    ensures MovesFromTo(plan.lines, giver, taker, amount)
  {
    var (a, b) := (plan.lines[0], plan.lines[1]);
    assert plan.lines[..1] == [a] && [a][..0] == [];
    forall code: string
      ensures PlannedMove(plan.lines, code) ==
        (if code == taker then amount else 0) - (if code == giver then amount else 0)
    {
      assert PlannedMove([a], code) == if taker == code then amount else 0;
    }
  }

  lemma {:induction false} JournalLinesMean(lines: seq<JournalInput>, chart: Chart)
    requires PlanLines(lines, chart).Ok?
    ensures var planned := PlanLines(lines, chart).value;
      |planned| == |lines| && forall i :: 0 <= i < |lines| ==> JournalLineMeans(lines[i], planned[i])
  {
    if lines != [] {
      FoundHasCode(chart, lines[0].account);
      JournalLinesMean(lines[1..], chart);
      var (planned, rest) := (PlanLines(lines, chart).value, PlanLines(lines[1..], chart).value);
      forall i | 0 <= i < |lines| ensures JournalLineMeans(lines[i], planned[i]) {
        if i > 0 { assert lines[i] == lines[1..][i - 1] && planned[i] == rest[i - 1]; }
      }
    }
  }

  /** An accepted entry is planned as it means. */
  lemma PlanMeansTheEntry(e: Entry, chart: Chart, today: Day)
    requires PlanOf(e, chart, today).Ok?
    ensures MeansAs(e, PlanOf(e, chart, today).value, today)
  {
    match e
    case Expense(_, _, _, _, _, _, _, _) => ExpenseIsMeant(e, today);
    case Contra(_, _, _, _) => ContraIsMeant(e, today);
    case Owner(_, _, _, _, _) => OwnerIsMeant(e, today);
    case JournalEntry(_, _, lines) => JournalLinesMean(lines, chart);
  }

  lemma ExpenseIsMeant(e: Entry, today: Day)
    requires e.Expense? && PlanExpense(e, today).Ok?
    ensures var plan := PlanExpense(e, today).value; ExpenseMeans(e, plan, plan.lines[0].debit)
  {
    var plan := PlanExpense(e, today).value;
    TwoLinesMove(plan, e.head.value.Code(), if e.paidFrom.ByCash? then CASH else CURRENT_ACCOUNT, plan.lines[0].debit);
  }

  lemma ContraIsMeant(e: Entry, today: Day)
    requires e.Contra? && PlanContra(e, today).Ok?
    ensures var plan := PlanContra(e, today).value; ContraMeans(e, plan, plan.lines[0].debit)
  {
    var plan := PlanContra(e, today).value;
    TwoLinesMove(plan, plan.lines[0].code, plan.lines[1].code, plan.lines[0].debit);
  }

  lemma OwnerIsMeant(e: Entry, today: Day)
    requires e.Owner? && PlanOwner(e, today).Ok?
    ensures var plan := PlanOwner(e, today).value; OwnerMeans(e, plan, plan.lines[0].debit)
  {
    var plan := PlanOwner(e, today).value;
    var n := plan.lines[0].debit;
    OwnerReads(e, today);
    TwoLinesMove(plan, plan.lines[0].code, plan.lines[1].code, n);
  }

  lemma OwnerReads(e: Entry, today: Day)
    requires e.Owner? && PlanOwner(e, today).Ok?
    ensures var plan := PlanOwner(e, today).value; var money := if e.paidFrom.ByCash? then "1110" else "1121";
      && |plan.lines| == 2 && Reads(e.amount, plan.lines[0].debit)
      && plan.lines ==
        if e.capital == Some(true) then [Debit(money, plan.lines[0].debit), Credit("3100", plan.lines[0].debit)]
                       else [Debit("3150", plan.lines[0].debit), Credit(money, plan.lines[0].debit)]
  {}

  /** No two heads share an account, and none is the drawer, the bank or the owner's. */
  lemma HeadsHaveTheirOwnAccounts(a: Head, b: Head)
    ensures a.Code() == b.Code() <==> a == b
    ensures (a.Rent? ==> a.Code() == "5610") && (a.Wages? ==> a.Code() == "5620")
    ensures (a.Electricity? ==> a.Code() == "5630") && (a.Transport? ==> a.Code() == "5640")
    ensures (a.Repairs? ==> a.Code() == "5650") && (a.BankCharges? ==> a.Code() == "5660")
    ensures (a.Telephone? ==> a.Code() == "5670") && (a.OtherCost? ==> a.Code() == "5900")
    ensures a.Code() !in {"1110", "1121", "3100", "3150"}
  {}

  /**
   * What comes into the drawer and into the bank for an amount: cash costs and drawings leave the drawer and not the
   * bank, paid ones the bank and not the drawer; capital comes into the one it is given to; a deposit goes from the
   * drawer to the bank and a withdrawal back.
   */
  predicate DrawerAndBank(e: Entry, n: int, drawer: int, bank: int)
    requires !e.JournalEntry?
  {
    match e
    case Expense(_, _, way, _, _, _, _, _) =>
      if way.ByCash? then drawer == -n && bank == 0 else drawer == 0 && bank == -n
    case Contra(deposit, _, _, _) =>
      if deposit == Some(true) then drawer == -n && bank == n else drawer == n && bank == -n
    case Owner(capital, _, way, _, _) =>
      var moved := if capital == Some(true) then n else -n;
      if way.ByCash? then drawer == moved && bank == 0 else drawer == 0 && bank == moved
  }

  lemma PlanMovesDrawerAndBank(e: Entry, chart: Chart, today: Day) returns (n: int)
    requires PlanOf(e, chart, today).Ok? && !e.JournalEntry?
    ensures var lines := PlanOf(e, chart, today).value.lines;
      Reads(e.amount, n) && DrawerAndBank(e, n, PlannedMove(lines, "1110"), PlannedMove(lines, "1121"))
  {
    PlanMeansTheEntry(e, chart, today);
    n := MeaningMoves(e, PlanOf(e, chart, today).value, today);
  }

  lemma MeaningMoves(e: Entry, plan: Plan, today: Day) returns (n: int)
    requires MeansAs(e, plan, today) && !e.JournalEntry?
    ensures Reads(e.amount, n) && DrawerAndBank(e, n, PlannedMove(plan.lines, "1110"), PlannedMove(plan.lines, "1121"))
  {
    FourAccounts();
    match e
    case Expense(head, _, way, _, _, _, _, _) =>
      n :| ExpenseMeans(e, plan, n);
      HeadsHaveTheirOwnAccounts(head.value, head.value);
      MovesAt(plan.lines, if way.ByCash? then "1110" else "1121", head.value.Code(), n);
    case Contra(deposit, _, _, _) =>
      n :| ContraMeans(e, plan, n);
      assert deposit == Some(deposit.value);
      if deposit.value { MovesAt(plan.lines, "1110", "1121", n); } else { MovesAt(plan.lines, "1121", "1110", n); }
    case Owner(capital, _, way, _, _) =>
      n :| OwnerMeans(e, plan, n);
      var money := if way.ByCash? then "1110" else "1121";
      assert capital == Some(capital.value);
      if capital.value { MovesAt(plan.lines, "3100", money, n); } else { MovesAt(plan.lines, money, "3150", n); }
  }

  lemma FourAccounts()
    ensures "1110" != "1121" && "1110" != "3100" && "1110" != "3150" && "1121" != "3100" && "1121" != "3150"
  {
    assert "1110"[2] != "1121"[2] && "1110"[0] != "3100"[0] && "1110"[0] != "3150"[0];
    assert "1121"[0] != "3100"[0] && "1121"[0] != "3150"[0];
  }

  lemma MovesAt(lines: seq<PlannedLine>, giver: string, taker: string, n: int)
    requires MovesFromTo(lines, giver, taker, n)
    ensures PlannedMove(lines, "1110") == (if "1110" == taker then n else 0) - (if "1110" == giver then n else 0)
    ensures PlannedMove(lines, "1121") == (if "1121" == taker then n else 0) - (if "1121" == giver then n else 0)
  {}

  // ------------------------------------------------------------------ which entries are accepted

  ghost predicate DateIsFine(date: DateText, today: Day) { exists day :: DatedAs(date, today, day) }

  ghost predicate AmountIsFine(text: string) { exists n :: Reads(text, n) }

  /**
   * The account may take a journal's line: an open account of its own, not cash, bank, a party's, stock or a
   * document's.
   */
  ghost predicate OpenToJournals(account: Account, chart: Chart) {
    && account.active && !account.isGroup && account.party.None? && account.code != "1110"
    && account.role !in {Some(ChequesInHand), Some(StockInHand), Some(DocumentBacked)}
    && (forall bank :: FindCode(chart, "1120") == Some(bank) ==> account.parent != Some(bank.id))
  }

  /** Why an entry may be accepted, kind by kind. */
  ghost predicate MayBePlanned(e: Entry, chart: Chart, today: Day) {
    && DateIsFine(e.date, today)
    && match e
       case Expense(_, _, _, _, _, _, _, _) => ExpenseIsFine(e)
       case Contra(deposit, _, amount, _) => deposit.Some? && AmountIsFine(amount)
       case Owner(capital, _, way, amount, _) => capital.Some? && way in {ByCash, ByBank} && AmountIsFine(amount)
       case JournalEntry(_, _, _) => JournalIsFine(e, chart)
  }

  /** No GST on it, not rent, and for transport the answer that no consignment note was given. */
  ghost predicate ExpenseIsFine(e: Entry)
    requires e.Expense?
  {
    && e.head.Some? && e.paidFrom in {ByCash, ByBank} && AmountIsFine(e.amount)
    && MoneyText.AmountOf(e.gst, true) == Ok(0)
    && e.head != Some(Rent) && (e.head == Some(Transport) ==> e.consignmentNote == No)
  }

  ghost predicate JournalIsFine(e: Entry, chart: Chart)
    requires e.JournalEntry?
  {
    && e.narration != "" && 2 <= |e.lines| <= 20
    && (forall i :: 0 <= i < |e.lines| ==> LineIsOpen(e.lines[i], chart))
    && exists planned: seq<PlannedLine> ::
      LinesMean(e.lines, planned) && PlannedDebits(planned) == PlannedCredits(planned)
  }

  ghost predicate LineIsOpen(line: JournalInput, chart: Chart) {
    FindCode(chart, line.account).Some? && OpenToJournals(FindCode(chart, line.account).value, chart)
  }

  ghost predicate LinesMean(lines: seq<JournalInput>, planned: seq<PlannedLine>) {
    |planned| == |lines| && forall i :: 0 <= i < |lines| ==> JournalLineMeans(lines[i], planned[i])
  }

  lemma LineIsPlanned(line: JournalInput, chart: Chart, planned: PlannedLine)
    requires JournalLineMeans(line, planned) && LineIsOpen(line, chart)
    ensures PlanLine(line, chart) == Ok(planned)
  {
    FoundHasCode(chart, line.account);
  }

  lemma PlanLinesStep(lines: seq<JournalInput>, chart: Chart, first: PlannedLine, rest: seq<PlannedLine>)
    requires lines != [] && PlanLine(lines[0], chart) == Ok(first) && PlanLines(lines[1..], chart) == Ok(rest)
    ensures PlanLines(lines, chart) == Ok([first] + rest)
  {}

  predicate PlannedAs(line: JournalInput, chart: Chart, planned: PlannedLine) { PlanLine(line, chart) == Ok(planned) }

  lemma {:induction false} LinesArePlanned(lines: seq<JournalInput>, chart: Chart, planned: seq<PlannedLine>)
    requires |planned| == |lines| && forall i :: 0 <= i < |lines| ==> PlannedAs(lines[i], chart, planned[i])
    ensures PlanLines(lines, chart) == Ok(planned)
  {
    if lines != [] {
      forall i | 0 <= i < |lines| - 1 ensures PlannedAs(lines[1..][i], chart, planned[1..][i]) {
        assert PlannedAs(lines[i + 1], chart, planned[i + 1]);
      }
      LinesArePlanned(lines[1..], chart, planned[1..]);
      assert PlannedAs(lines[0], chart, planned[0]);
      PlanLinesStep(lines, chart, planned[0], planned[1..]);
      assert planned == [planned[0]] + planned[1..];
    }
  }

  lemma JournalLinesArePlanned(lines: seq<JournalInput>, chart: Chart, planned: seq<PlannedLine>)
    requires LinesMean(lines, planned) && forall i :: 0 <= i < |lines| ==> LineIsOpen(lines[i], chart)
    ensures PlanLines(lines, chart) == Ok(planned)
  {
    forall i | 0 <= i < |lines| ensures PlannedAs(lines[i], chart, planned[i]) {
      LineIsPlanned(lines[i], chart, planned[i]);
    }
    LinesArePlanned(lines, chart, planned);
  }

  lemma {:induction false} PlannedLinesAreOpen(lines: seq<JournalInput>, chart: Chart, i: nat)
    requires PlanLines(lines, chart).Ok? && i < |lines|
    ensures LineIsOpen(lines[i], chart)
  {
    if i > 0 { PlannedLinesAreOpen(lines[1..], chart, i - 1); }
  }

  /** An entry is accepted exactly when its date, its choices and its amounts may be. */
  lemma PlannedIff(e: Entry, chart: Chart, today: Day)
    ensures PlanOf(e, chart, today).Ok? <==> MayBePlanned(e, chart, today)
  {
    DateFineIff(e.date, today);
    match e
    case Expense(_, _, _, _, _, _, _, _) => ExpensePlannedIff(e, today);
    case Contra(_, _, amount, _) => AmountFineIff(amount);
    case Owner(_, _, _, amount, _) => AmountFineIff(amount);
    case JournalEntry(_, _, _) => JournalPlannedIff(e, chart, today);
  }

  lemma DateFineIff(date: DateText, today: Day)
    ensures DateIsFine(date, today) <==> DateOf(date, today).Ok?
  {
    if DateOf(date, today).Ok? { assert DatedAs(date, today, DateOf(date, today).value); }
  }

  lemma ExpensePlannedIff(e: Entry, today: Day)
    requires e.Expense?
    ensures PlanExpense(e, today).Ok? <==> DateOf(e.date, today).Ok? && ExpenseIsFine(e)
  {
    AmountFineIff(e.amount);
  }

  lemma AmountFineIff(text: string)
    ensures AmountIsFine(text) <==> MoneyText.AmountOf(text, false).Ok?
  {
    var read := MoneyText.AmountOf(text, false);
    if read.Ok? { assert Reads(text, read.value); }
  }

  lemma JournalPlannedIff(e: Entry, chart: Chart, today: Day)
    requires e.JournalEntry?
    ensures PlanJournal(e, chart, today).Ok? <==> DateOf(e.date, today).Ok? && JournalIsFine(e, chart)
  {
    if PlanLines(e.lines, chart).Ok? {
      JournalLinesMean(e.lines, chart);
      forall i | 0 <= i < |e.lines| ensures LineIsOpen(e.lines[i], chart) { PlannedLinesAreOpen(e.lines, chart, i); }
      assert LinesMean(e.lines, PlanLines(e.lines, chart).value);
    }
    if JournalIsFine(e, chart) {
      var planned: seq<PlannedLine> :| LinesMean(e.lines, planned) && PlannedDebits(planned) == PlannedCredits(planned);
      JournalLinesArePlanned(e.lines, chart, planned);
    }
  }
}
