/** Saving a checked entry once, undoing it in full, and the cash drawer that never goes below nothing. */
module BooksDesk {
  import opened Basics
  import opened Texts
  import opened Ledger
  import opened BooksPlans
  import opened CashDrawer
  import CashBook

  const KINDS: set<string> := {"expense", "journal", "contra", "owner"}

  function RequestKey(kind: string, requestId: string): string { SOURCE_PREFIX + kind + ":" + requestId }
  function UndoKey(requestId: string): string { RequestKey("undo", requestId) }

  /** Account ids are primary keys. */
  ghost predicate IdsDistinct(chart: Chart) {
    forall i, j :: 0 <= i < j < |chart| ==> chart[i].id != chart[j].id
  }

  /** The plan's lines as the ledger takes them; none when an account is missing from the chart. */
  function LinesOf(lines: seq<PlannedLine>, chart: Chart): Option<seq<Line>> {
    if lines == [] then Some([])
    else
      var last := lines[|lines| - 1];
      match (LinesOf(lines[..|lines| - 1], chart), CodeId(chart, last.code))
      case (Some(front), Some(id)) => Some(front + [Line(id, None, last.debit, last.credit, last.note)])
      case _ => None
  }

  datatype Saved = Saved(voucher: Voucher, duplicate: bool)
  datatype Undone = Undone(entry: Voucher, mirror: Voucher, duplicate: bool)

  /** Some end of day from `date` on has less in the drawer than is to go out; no cash account, no cash. */
  ghost predicate DrawerShort(vouchers: seq<Voucher>, chart: Chart, date: Day, out: nat) {
    match CodeId(chart, CASH)
    case None => 0 < out
    case Some(cash) => exists day :: day >= date && BalanceAt(vouchers, cash, day) < out
  }

  function CommandOf(plan: Plan, key: string, lines: seq<Line>): Command {
    Command(key, plan.voucherType, plan.date, plan.narration,
      Some(Source(SOURCE_PREFIX + plan.kind, Fingerprint(plan))), lines)
  }

  /** The voucher a key names, if the key was used. */
  function Earlier(b: Books, key: string): Option<Voucher> {
    if key in b.keys && b.keys[key] < |b.vouchers| then Some(b.vouchers[b.keys[key]]) else None
  }

  /** What `record` does to the books and answers. */
  ghost function RecordOf(b: Books, chart: Chart, today: Day, gate: Gate, entry: Entry, requestId: string,
                          given: Option<SourceId>)
    : (Books, Result<Saved, BooksError>)
  {
    if requestId == "" then (b, Refused(RequestIdMissing))
    else
      match PlanOf(entry, chart, today)
      case Refused(why) => (b, Refused(why))
      case Ok(plan) =>
        var key := RequestKey(plan.kind, requestId);
        if given.None? then (b, Refused(NotChecked))
        else if given.value != Fingerprint(plan) then (b, Refused(ChangedSinceCheck))
        else if Earlier(b, key).None? && plan.cashOut > 0
          && DrawerShort(b.vouchers, chart, plan.date, plan.cashOut) then (b, Refused(CashShort))
        else
          match LinesOf(plan.lines, chart)
          case None => (b, Refused(AccountMissing))
          case Some(lines) =>
            var (after, answer) := Post(b, chart, gate, CommandOf(plan, key, lines));
            match answer
            case Refused(error) => (after, Refused(LedgerRefused(error)))
            case Ok(posted) =>
              if posted.deduplicated
                && (posted.voucher.source.None? || posted.voucher.source.value.id != Fingerprint(plan))
              then (after, Refused(RequestReused))
              else (after, Ok(Saved(posted.voucher, posted.deduplicated)))
  }

  /** What `undo` does to the books and answers; `mayMake` is the right to make that kind of entry. */
  ghost function UndoOf(b: Books, chart: Chart, today: Day, gate: Gate, mayMake: bool, requestId: string,
                        reason: string, id: VoucherId)
    : (Books, Result<Undone, BooksError>)
  {
    if requestId == "" then (b, Refused(RequestIdMissing))
    else if reason == "" then (b, Refused(UndoReasonMissing))
    else if id >= |b.vouchers| || !FromBooks(b.vouchers[id]) then (b, Refused(EntryNotFound))
    else if !mayMake then (b, Refused(UndoNotAllowed))
    else if b.vouchers[id].state == Final && CashBack(b.vouchers[id], chart) > 0
      && DrawerShort(b.vouchers, chart, today, CashBack(b.vouchers[id], chart))
    then (b, Refused(CashShort))
    else
      var (after, answer) := Reverse(b, gate, UndoKey(requestId), id, today, reason);
      match answer
      case Refused(error) => (after, Refused(LedgerRefused(error)))
      case Ok(posted) => (after, Ok(Undone(b.vouchers[id], posted.voucher, posted.deduplicated)))
  }

  predicate FromBooks(v: Voucher) { v.source.Some? && SOURCE_PREFIX <= v.source.value.kind }

  /** Cash the entry brought in, which undoing it takes back out. */
  function CashBack(v: Voucher, chart: Chart): int {
    match CodeId(chart, CASH) case None => 0 case Some(cash) => Moved(v.lines, cash)
  }

  // ------------------------------------------------------------------ runs

  datatype Call =
    | RecordCall(today: Day, gate: Gate, entry: Entry, requestId: string, given: Option<SourceId>)
    | UndoCall(today: Day, gate: Gate, mayMake: bool, requestId: string, reason: string, id: VoucherId)

  ghost function StepOf(b: Books, chart: Chart, call: Call): Books {
    match call
    case RecordCall(today, gate, entry, requestId, given) => RecordOf(b, chart, today, gate, entry, requestId, given).0
    case UndoCall(today, gate, mayMake, requestId, reason, id) =>
      UndoOf(b, chart, today, gate, mayMake, requestId, reason, id).0
  }

  /** The books after a run of calls made one at a time. */
  ghost function RunOf(b: Books, chart: Chart, calls: seq<Call>): Books {
    if calls == [] then b else StepOf(RunOf(b, chart, calls[..|calls| - 1]), chart, calls[|calls| - 1])
  }

  // ------------------------------------------------------------------ the drawer

  ghost predicate DrawerNeverNegative(b: Books, chart: Chart) {
    CodeId(chart, CASH).Some? ==> forall day :: BalanceAt(b.vouchers, CodeId(chart, CASH).value, day) >= 0
  }

  /** Different codes are different accounts. */
  lemma OneCodeOneAccount(chart: Chart, code: string, other: string)
    requires IdsDistinct(chart) && CodeId(chart, code).Some? && CodeId(chart, other).Some?
    ensures CodeId(chart, code) == CodeId(chart, other) <==> code == other
  {
    FoundHasCode(chart, code);
    FoundHasCode(chart, other);
    var (a, c) := (FindCode(chart, code).value, FindCode(chart, other).value);
    var i :| 0 <= i < |chart| && chart[i] == a;
    var j :| 0 <= j < |chart| && chart[j] == c;
    if i != j { assert chart[i].id != chart[j].id; }
  }

  /** The posted lines move every account exactly as the plan said. */
  lemma {:induction false} PostedMovesAsPlanned(lines: seq<PlannedLine>, chart: Chart, code: string)
    requires IdsDistinct(chart) && CodeId(chart, code).Some? && LinesOf(lines, chart).Some?
    ensures |LinesOf(lines, chart).value| == |lines|
    ensures Moved(LinesOf(lines, chart).value, CodeId(chart, code).value) == PlannedMove(lines, code)
  {
    if lines != [] {
      var front := lines[..|lines| - 1];
      PostedMovesAsPlanned(front, chart, code);
      var posted := LinesOf(lines, chart).value;
      assert posted[..|posted| - 1] == LinesOf(front, chart).value;
      OneCodeOneAccount(chart, lines[|lines| - 1].code, code);
    }
  }

  lemma {:induction false} RecordKeepsDrawer(b: Books, chart: Chart, today: Day, gate: Gate, entry: Entry,
                                             requestId: string, given: Option<SourceId>)
    requires IdsDistinct(chart) && DrawerNeverNegative(b, chart)
    ensures DrawerNeverNegative(RecordOf(b, chart, today, gate, entry, requestId, given).0, chart)
  {
    var after := RecordOf(b, chart, today, gate, entry, requestId, given).0;
    if after != b && CodeId(chart, CASH).Some? {
      var plan := PlanOf(entry, chart, today).value;
      var cash := CodeId(chart, CASH).value;
      PlansAreSound(entry, chart, today);
      PostedMovesAsPlanned(plan.lines, chart, CASH);
      forall day ensures BalanceAt(after.vouchers, cash, day) >= 0 {
        BalanceOfAppended(b.vouchers, after.vouchers[|b.vouchers|], cash, day);
      }
    }
  }

  lemma UndoKeepsDrawer(b: Books, chart: Chart, today: Day, gate: Gate, mayMake: bool, requestId: string,
                        reason: string, id: VoucherId)
    requires Valid(b) && DrawerNeverNegative(b, chart)
    ensures DrawerNeverNegative(UndoOf(b, chart, today, gate, mayMake, requestId, reason, id).0, chart)
  {
    var after := UndoOf(b, chart, today, gate, mayMake, requestId, reason, id).0;
    if after != b && CodeId(chart, CASH).Some? {
      var cash := CodeId(chart, CASH).value;
      forall day ensures BalanceAt(after.vouchers, cash, day) >= 0 {
        UndoCancels(b, gate, UndoKey(requestId), id, today, reason, cash, day);
      }
    }
  }

  lemma RecordKeepsBooks(b: Books, chart: Chart, today: Day, gate: Gate, entry: Entry, requestId: string,
                         given: Option<SourceId>)
    requires Valid(b)
    ensures var after := RecordOf(b, chart, today, gate, entry, requestId, given).0; Valid(after) && Grew(b, after)
  {
    var after := RecordOf(b, chart, today, gate, entry, requestId, given).0;
    if after != b {
      var plan := PlanOf(entry, chart, today).value;
      PostKeepsBooks(b, chart, gate,
        CommandOf(plan, RequestKey(plan.kind, requestId), LinesOf(plan.lines, chart).value));
    }
  }

  lemma UndoKeepsBooks(b: Books, chart: Chart, today: Day, gate: Gate, mayMake: bool, requestId: string, reason: string,
                       id: VoucherId)
    requires Valid(b)
    ensures var after := UndoOf(b, chart, today, gate, mayMake, requestId, reason, id).0; Valid(after) && Grew(b, after)
  {
    if UndoOf(b, chart, today, gate, mayMake, requestId, reason, id).0 != b {
      ReverseKeepsBooks(b, gate, UndoKey(requestId), id, today, reason);
    }
  }

  lemma StepKeepsBooks(b: Books, chart: Chart, call: Call)
    requires Valid(b)
    ensures Valid(StepOf(b, chart, call)) && Grew(b, StepOf(b, chart, call))
  {
    match call
    case RecordCall(today, gate, entry, requestId, given) =>
      RecordKeepsBooks(b, chart, today, gate, entry, requestId, given);
    case UndoCall(today, gate, mayMake, requestId, reason, id) =>
      UndoKeepsBooks(b, chart, today, gate, mayMake, requestId, reason, id);
  }

  /**
   * The rule of the drawer. However entries are recorded and undone, one call at a time — back-dated,
   * repeated, refused, undone — no end of any day, past or to come, ever shows less than nothing in cash.
   */
  lemma {:induction false} DrawerStaysFull(b: Books, chart: Chart, calls: seq<Call>)
    requires IdsDistinct(chart) && Valid(b) && DrawerNeverNegative(b, chart)
    ensures Valid(RunOf(b, chart, calls)) && DrawerNeverNegative(RunOf(b, chart, calls), chart)
  {
    if calls != [] {
      var before := RunOf(b, chart, calls[..|calls| - 1]);
      var call := calls[|calls| - 1];
      DrawerStaysFull(b, chart, calls[..|calls| - 1]);
      StepKeepsBooks(before, chart, call);
      match call
      case RecordCall(today, gate, entry, requestId, given) =>
        RecordKeepsDrawer(before, chart, today, gate, entry, requestId, given);
      case UndoCall(today, gate, mayMake, requestId, reason, id) =>
        UndoKeepsDrawer(before, chart, today, gate, mayMake, requestId, reason, id);
    }
  }

  /** Nothing written is ever removed, moved or changed: an undone entry is only marked. */
  lemma {:induction false} RunOnlyAdds(b: Books, chart: Chart, calls: seq<Call>)
    requires Valid(b)
    ensures Valid(RunOf(b, chart, calls)) && Grew(b, RunOf(b, chart, calls))
  {
    if calls != [] {
      var before := RunOf(b, chart, calls[..|calls| - 1]);
      RunOnlyAdds(b, chart, calls[..|calls| - 1]);
      StepKeepsBooks(before, chart, calls[|calls| - 1]);
      GrewTransitive(b, before, RunOf(b, chart, calls));
    }
  }

  // ------------------------------------------------------------------ the drawer's book

  /** The accounts of the cash book, or of the bank book. */
  function BookIds(chart: Chart, bank: bool): set<AccountId> {
    set i | 0 <= i < |chart| && (if bank then InBankGroup(chart[i], chart) else chart[i].code == CASH) :: chart[i].id
  }

  predicate InBankGroup(account: Account, chart: Chart) {
    CodeId(chart, BANK_GROUP).Some? && account.parent == CodeId(chart, BANK_GROUP) && !account.isGroup
  }

  /** Account codes are unique in a company. */
  ghost predicate CodesDistinct(chart: Chart) {
    forall i, j :: 0 <= i < j < |chart| ==> chart[i].code != chart[j].code
  }

  lemma {:induction false} SidesAreMoved(lines: seq<Line>, account: AccountId)
    ensures CashBook.InLines(lines, {account}) - CashBook.OutLines(lines, {account}) == Moved(lines, account)
  {
    if lines != [] { SidesAreMoved(lines[..|lines| - 1], account); }
  }

  /** The book of one account sums to that account's balance. */
  lemma {:induction false} BookIsBalance(vouchers: seq<Voucher>, account: AccountId, day: Day)
    ensures CashBook.BookBalance(vouchers, {account}, day) == BalanceAt(vouchers, account, day)
  {
    if vouchers != [] {
      BookIsBalance(vouchers[..|vouchers| - 1], account, day);
      SidesAreMoved(vouchers[|vouchers| - 1].lines, account);
    }
  }

  lemma {:induction false} NoCodeNoAccount(chart: Chart, code: string)
    requires FindCode(chart, code).None?
    ensures forall i :: 0 <= i < |chart| ==> chart[i].code != code
  {
    if chart != [] {
      NoCodeNoAccount(chart[1..], code);
      assert forall i :: 1 <= i < |chart| ==> chart[i] == chart[1..][i - 1];
    }
  }

  lemma CashBookIsCash(chart: Chart)
    requires CodesDistinct(chart)
    ensures BookIds(chart, false) == match CodeId(chart, CASH) case None => {} case Some(cash) => {cash}
  {
    if FindCode(chart, CASH).None? {
      NoCodeNoAccount(chart, CASH);
    } else {
      FoundHasCode(chart, CASH);
      var j :| 0 <= j < |chart| && chart[j] == FindCode(chart, CASH).value;
      assert forall i :: 0 <= i < |chart| && chart[i].code == chart[j].code ==> i == j;
      assert chart[j].id in BookIds(chart, false);
    }
  }

  lemma {:induction false} EmptyBookIsStill(vouchers: seq<Voucher>, day: Day)
    ensures CashBook.BookBalance(vouchers, {}, day) == 0
  {
    if vouchers != [] {
      EmptyBookIsStill(vouchers[..|vouchers| - 1], day);
      CashBook.OutOfBookIsStill(vouchers[|vouchers| - 1].lines, {});
    }
  }

  /**
   * Whatever was recorded and undone, the cash book of any range of days opens and closes with no less than nothing.
   */
  lemma CashBookNeverShort(b: Books, chart: Chart, calls: seq<Call>, from: Option<Day>, to: Day)
    requires IdsDistinct(chart) && CodesDistinct(chart) && Valid(b) && DrawerNeverNegative(b, chart)
    ensures var book := CashBook.BookOf(RunOf(b, chart, calls).vouchers, BookIds(chart, false), from, to);
      book.opening >= 0 && book.closing >= 0
  {
    DrawerStaysFull(b, chart, calls);
    CashBookIsCash(chart);
    var vouchers := RunOf(b, chart, calls).vouchers;
    forall day ensures CashBook.BookBalance(vouchers, BookIds(chart, false), day) >= 0 {
      match CodeId(chart, CASH)
      case None => EmptyBookIsStill(vouchers, day);
      case Some(cash) => BookIsBalance(vouchers, cash, day);
    }
  }

  // ------------------------------------------------------------------ once per request

  /** Two requests share a key only if they are the same request of the same kind; an undo shares none with a save. */
  lemma RequestKeysDiffer(kind: string, requestId: string, kind': string, requestId': string)
    requires kind in KINDS + {"undo"} && kind' in KINDS + {"undo"}
    ensures RequestKey(kind, requestId) == RequestKey(kind', requestId') <==> kind == kind' && requestId == requestId'
  {
    var (a, a') := (RequestKey(kind, requestId), RequestKey(kind', requestId'));
    assert a[6..] == kind + ":" + requestId && a'[6..] == kind' + ":" + requestId';
    if a == a' {
      HeadTells(kind, requestId, kind', requestId');
    }
  }

  /** A voucher saved from a checked plan is that plan: its date, its kind of voucher and exactly its lines. */
  ghost predicate WrittenAsPlanned(v: Voucher, digest: SourceId, chart: Chart) {
    && digest.Digest? && v.source == Some(Source(SOURCE_PREFIX + digest.kind, digest))
    && v.date == digest.date && v.voucherType == digest.voucherType && v.narration == Said(digest.narration)
    && LinesOf(digest.lines, chart) == Some(v.lines) && v.reverses.None?
  }

  /** Every voucher under a request key was written as the plan its source carries. */
  ghost predicate KeysTellThePlan(b: Books, chart: Chart) {
    forall i, kind, requestId ::
      0 <= i < |b.vouchers| && kind in KINDS && b.vouchers[i].key == RequestKey(kind, requestId) ==>
      b.vouchers[i].source.Some? && WrittenAsPlanned(b.vouchers[i], b.vouchers[i].source.value.id, chart)
  }

  /** What a call adds: at most one voucher, a saved one as its plan says or a mirror under an undo's key. */
  ghost predicate Wrote(b: Books, after: Books, chart: Chart, call: Call) {
    && |after.vouchers| <= |b.vouchers| + 1
    && (|after.vouchers| == |b.vouchers| + 1 ==>
          var v := after.vouchers[|b.vouchers|];
          if call.UndoCall? then v.key == UndoKey(call.requestId)
            else v.source.Some? && WrittenAsPlanned(v, v.source.value.id, chart))
  }

  lemma StepWrites(b: Books, chart: Chart, call: Call)
    ensures Wrote(b, StepOf(b, chart, call), chart, call)
  {
    match call
    case RecordCall(today, gate, entry, requestId, given) =>
      RecordWrites(b, chart, today, gate, entry, requestId, given);
    case UndoCall(today, gate, mayMake, requestId, reason, id) =>
  }

  lemma StepTellsThePlan(b: Books, chart: Chart, call: Call)
    requires Valid(b) && KeysTellThePlan(b, chart)
    ensures KeysTellThePlan(StepOf(b, chart, call), chart)
  {
    StepKeepsBooks(b, chart, call);
    StepWrites(b, chart, call);
    GrownTellsThePlan(b, StepOf(b, chart, call), chart, call);
  }

  lemma GrownTellsThePlan(b: Books, after: Books, chart: Chart, call: Call)
    requires KeysTellThePlan(b, chart) && Grew(b, after) && Wrote(b, after, chart, call)
    ensures KeysTellThePlan(after, chart)
  {
    forall i, kind, requestId | 0 <= i < |after.vouchers| && kind in KINDS
      && after.vouchers[i].key == RequestKey(kind, requestId)
      ensures after.vouchers[i].source.Some?
        && WrittenAsPlanned(after.vouchers[i], after.vouchers[i].source.value.id, chart)
    {
      if i < |b.vouchers| {
        assert AsWritten(after.vouchers[i]) == AsWritten(b.vouchers[i]);
        assert b.vouchers[i].key == RequestKey(kind, requestId);
      } else if call.UndoCall? {
        RequestKeysDiffer(kind, requestId, "undo", call.requestId);
      }
    }
  }

  lemma RecordWrites(b: Books, chart: Chart, today: Day, gate: Gate, entry: Entry, requestId: string,
                     given: Option<SourceId>)
    ensures var after := RecordOf(b, chart, today, gate, entry, requestId, given).0;
      after == b || (|after.vouchers| == |b.vouchers| + 1 && after.vouchers[|b.vouchers|].source.Some?
                     && WrittenAsPlanned(after.vouchers[|b.vouchers|], after.vouchers[|b.vouchers|].source.value.id,
                       chart))
  {}

  lemma {:induction false} RunTellsThePlan(b: Books, chart: Chart, calls: seq<Call>)
    requires Valid(b) && KeysTellThePlan(b, chart)
    ensures KeysTellThePlan(RunOf(b, chart, calls), chart)
  {
    if calls != [] {
      RunTellsThePlan(b, chart, calls[..|calls| - 1]);
      RunOnlyAdds(b, chart, calls[..|calls| - 1]);
      StepTellsThePlan(RunOf(b, chart, calls[..|calls| - 1]), chart, calls[|calls| - 1]);
    }
  }

  /**
   * After any run, a save that is answered names the one voucher of its kind and request id, written
   * exactly as the plan whose check was given, whether it was saved now or before.
   */
  lemma {:induction false} SavedOnceAsChecked(b: Books, chart: Chart, calls: seq<Call>, today: Day, gate: Gate,
                                              entry: Entry, requestId: string, given: Option<SourceId>)
    requires Valid(b) && KeysTellThePlan(b, chart)
    ensures var before := RunOf(b, chart, calls);
      var (after, answer) := RecordOf(before, chart, today, gate, entry, requestId, given);
      answer.Ok? ==>
        && given.Some?
        && IsTheSavedOne(before, after, answer.value, RequestKey(entry.Kind(), requestId), given.value, chart)
  {
    var before := RunOf(b, chart, calls);
    var call := RecordCall(today, gate, entry, requestId, given);
    RunOnlyAdds(b, chart, calls);
    RunTellsThePlan(b, chart, calls);
    StepKeepsBooks(before, chart, call);
    StepTellsThePlan(before, chart, call);
    RecordAnswers(before, chart, today, gate, entry, requestId, given);
    var (after, answer) := RecordOf(before, chart, today, gate, entry, requestId, given);
    if answer.Ok? {
      var id := after.keys[RequestKey(entry.Kind(), requestId)];
      assert VoucherOk(after, id);
      forall i | 0 <= i < |after.vouchers| && after.vouchers[i].key == after.vouchers[id].key ensures i == id {
        assert VoucherOk(after, i);
      }
    }
  }

  /** The voucher answered is in the books, alone under its key, as its plan says; and it was saved now, or before. */
  ghost predicate IsTheSavedOne(before: Books, after: Books, saved: Saved, key: string, digest: SourceId,
                                chart: Chart) {
    var v := saved.voucher;
    && v.id < |after.vouchers| && after.vouchers[v.id] == v && v.key == key
    && (forall i :: 0 <= i < |after.vouchers| && after.vouchers[i].key == key ==> i == v.id)
    && WrittenAsPlanned(v, digest, chart) && (v.state != Draft ==> Balanced(v.lines))
    && (if saved.duplicate then after == before else v.state == Final && after.vouchers == before.vouchers + [v])
  }

  /** An answered save names the voucher its key names, with the fingerprint that was given. */
  lemma RecordAnswers(b: Books, chart: Chart, today: Day, gate: Gate, entry: Entry, requestId: string,
                      given: Option<SourceId>)
    requires Valid(b)
    ensures var (after, answer) := RecordOf(b, chart, today, gate, entry, requestId, given);
      answer.Ok? ==>
        var (key, v) := (RequestKey(entry.Kind(), requestId), answer.value.voucher);
        && entry.Kind() in KINDS && given.Some? && v.source.Some? && v.source.value.id == given.value
        && key in after.keys && after.keys[key] < |after.vouchers| && after.vouchers[after.keys[key]] == v
          && v.key == key
        && (if answer.value.duplicate then after == b else v.state == Final && after.vouchers == b.vouchers + [v])
  {
    if PlanOf(entry, chart, today).Ok? { PlansAreSound(entry, chart, today); }
  }

  /** A refused save leaves the books exactly as they were, and so does a repeated one. */
  lemma RefusalWritesNothing(b: Books, chart: Chart, call: Call)
    requires match call
      case RecordCall(today, gate, entry, requestId, given) =>
        var answer := RecordOf(b, chart, today, gate, entry, requestId, given).1;
          answer.Refused? || answer.value.duplicate
      case UndoCall(today, gate, mayMake, requestId, reason, id) =>
        var answer := UndoOf(b, chart, today, gate, mayMake, requestId, reason, id).1;
          answer.Refused? || answer.value.duplicate
    ensures StepOf(b, chart, call) == b
  {}

  /**
   * A save pressed again, whatever was recorded or undone since and however little is left in the drawer, writes
   * nothing; and it is answered with the voucher it made exactly when the entry, worked out anew, still has the
   * fingerprint that was given. Otherwise it is refused as changed, although it is saved.
   */
  lemma {:induction false} RetryIsAnswered(b: Books, chart: Chart, today: Day, gate: Gate, entry: Entry,
                                           requestId: string,
                                           given: Option<SourceId>, calls: seq<Call>, later: Day, laterGate: Gate)
    requires Valid(b)
    requires RecordOf(b, chart, today, gate, entry, requestId, given).1.Ok?
    ensures var (first, answer) := RecordOf(b, chart, today, gate, entry, requestId, given);
      var now := RunOf(first, chart, calls);
      var again := RecordOf(now, chart, later, laterGate, entry, requestId, given);
      && again.0 == now
      && match PlanOf(entry, chart, later)
         case Refused(why) => again.1 == Refused(why)
         case Ok(plan) =>
           if given != Some(Fingerprint(plan)) then again.1 == Refused(ChangedSinceCheck)
           else if !laterGate.mayPost then again.1 == Refused(LedgerRefused(NotPermitted))
           else
             && again.1.Ok? && again.1.value.duplicate
             && AsWritten(again.1.value.voucher) == AsWritten(answer.value.voucher)
  {
    var call := RecordCall(today, gate, entry, requestId, given);
    var (first, answer) := RecordOf(b, chart, today, gate, entry, requestId, given);
    RecordAnswers(b, chart, today, gate, entry, requestId, given);
    StepKeepsBooks(b, chart, call);
    RunOnlyAdds(first, chart, calls);
    var key := RequestKey(entry.Kind(), requestId);
    var now := RunOf(first, chart, calls);
    var v := now.vouchers[first.keys[key]];
    assert AsWritten(v) == AsWritten(answer.value.voucher);
    if PlanOf(entry, chart, later).Ok? {
      PlansAreSound(entry, chart, later);
      EarlierIsAnswered(now, chart, later, laterGate, entry, requestId, given, v);
    }
  }

  lemma {:induction false} EarlierIsAnswered(b: Books, chart: Chart, today: Day, gate: Gate, entry: Entry,
                                             requestId: string,
                                             given: Option<SourceId>, v: Voucher)
    requires requestId != "" && given.Some? && Earlier(b, RequestKey(entry.Kind(), requestId)) == Some(v)
    requires PlanOf(entry, chart, today).Ok? && PlanOf(entry, chart, today).value.kind == entry.Kind()
    requires v.source.Some? && v.source.value.id == given.value
    requires given.value.Digest? && LinesOf(given.value.lines, chart).Some?
    ensures RecordOf(b, chart, today, gate, entry, requestId, given) ==
            (b, if given.value != Fingerprint(PlanOf(entry, chart, today).value) then Refused(ChangedSinceCheck)
                else if !gate.mayPost then Refused(LedgerRefused(NotPermitted)) else Ok(Saved(v, true)))
  {
    var key := RequestKey(entry.Kind(), requestId);
    assert key[0] == 'b' && key[0] in key;
  }

  lemma PlanIsDated(entry: Entry, chart: Chart, today: Day)
    requires PlanOf(entry, chart, today).Ok?
    ensures DateOf(entry.date, today) == Ok(PlanOf(entry, chart, today).value.date)
  {}

  /** So an entry whose date box was left empty is refused as changed when its save is pressed again on another day. */
  lemma RetryOnAnotherDay(b: Books, chart: Chart, today: Day, gate: Gate, entry: Entry, requestId: string,
                          given: Option<SourceId>, later: Day, laterGate: Gate)
    requires Valid(b) && entry.date.NoDate? && later != today
    requires RecordOf(b, chart, today, gate, entry, requestId, given).1.Ok? && PlanOf(entry, chart, later).Ok?
    ensures var first := RecordOf(b, chart, today, gate, entry, requestId, given).0;
      RecordOf(first, chart, later, laterGate, entry, requestId, given) == (first, Refused(ChangedSinceCheck))
  {
    var first := RecordOf(b, chart, today, gate, entry, requestId, given).0;
    RetryIsAnswered(b, chart, today, gate, entry, requestId, given, [], later, laterGate);
    PlanIsDated(entry, chart, today);
    PlanIsDated(entry, chart, later);
    RecordAnswers(b, chart, today, gate, entry, requestId, given);
    assert given.value == Fingerprint(PlanOf(entry, chart, today).value);
  }

  /** A request id used for another entry of the same kind is refused, and the books are unchanged. */
  lemma ReusedIdIsRefused(b: Books, chart: Chart, today: Day, gate: Gate, entry: Entry, requestId: string,
                          given: Option<SourceId>)
    requires Valid(b) && requestId != "" && gate.mayPost
    requires PlanOf(entry, chart, today).Ok? && given == Some(Fingerprint(PlanOf(entry, chart, today).value))
    requires LinesOf(PlanOf(entry, chart, today).value.lines, chart).Some?
    requires Earlier(b, RequestKey(entry.Kind(), requestId)).Some?
    ensures var earlier := Earlier(b, RequestKey(entry.Kind(), requestId)).value;
      var (after, answer) := RecordOf(b, chart, today, gate, entry, requestId, given);
      && after == b
      && (answer == Refused(RequestReused) <==> earlier.source.None? || earlier.source.value.id != given.value)
      && (answer.Ok? <==> earlier.source.Some? && earlier.source.value.id == given.value)
  {
    PlansAreSound(entry, chart, today);
    var key := RequestKey(entry.Kind(), requestId);
    assert key[0] == 'b' && key[0] in key;
  }

  /** An entry is undone at most once: a second undo, under any other request id, is refused. */
  lemma {:induction false} UndoneOnce(b: Books, chart: Chart, today: Day, gate: Gate, mayMake: bool, requestId: string,
                                      reason: string, id: VoucherId,
                   calls: seq<Call>, later: Day, laterGate: Gate, requestId': string, reason': string)
    requires Valid(b)
    requires var answer := UndoOf(b, chart, today, gate, mayMake, requestId, reason, id).1;
      answer.Ok? && !answer.value.duplicate
    ensures var now := RunOf(UndoOf(b, chart, today, gate, mayMake, requestId, reason, id).0, chart, calls);
      var again := UndoOf(now, chart, later, laterGate, mayMake, requestId', reason', id);
      && id < |now.vouchers| && now.vouchers[id].state == Reversed
      && again.0 == now
      && (again.1.Ok? ==> again.1.value.duplicate)
  {
    var call := UndoCall(today, gate, mayMake, requestId, reason, id);
    var after := StepOf(b, chart, call);
    UndoMarks(b, chart, today, gate, mayMake, requestId, reason, id);
    StepKeepsBooks(b, chart, call);
    RunOnlyAdds(after, chart, calls);
    UndoneStays(RunOf(after, chart, calls), chart, later, laterGate, mayMake, requestId', reason', id);
  }

  lemma UndoMarks(b: Books, chart: Chart, today: Day, gate: Gate, mayMake: bool, requestId: string, reason: string,
                  id: VoucherId)
    requires Valid(b)
    requires var answer := UndoOf(b, chart, today, gate, mayMake, requestId, reason, id).1;
      answer.Ok? && !answer.value.duplicate
    ensures var after := UndoOf(b, chart, today, gate, mayMake, requestId, reason, id).0;
      id < |after.vouchers| && after.vouchers[id].state == Reversed
  {}

  lemma UndoneStays(b: Books, chart: Chart, today: Day, gate: Gate, mayMake: bool, requestId: string, reason: string,
                    id: VoucherId)
    requires id < |b.vouchers| && b.vouchers[id].state == Reversed
    ensures var (after, answer) := UndoOf(b, chart, today, gate, mayMake, requestId, reason, id);
      after == b && (answer.Ok? ==> answer.value.duplicate)
  {}

  /**
   * An answered undo names the mirror of the entry it was asked to undo exactly when its request id is new, or was used
   * to undo that very entry. With an id used to undo another entry it names the other's mirror, and undoes nothing.
   */
  lemma UndoNamesOwnMirrorIff(b: Books, chart: Chart, today: Day, gate: Gate, mayMake: bool, requestId: string,
                              reason: string, id: VoucherId)
    requires Valid(b) && UndoOf(b, chart, today, gate, mayMake, requestId, reason, id).1.Ok?
    ensures var (after, answer) := UndoOf(b, chart, today, gate, mayMake, requestId, reason, id);
      var earlier := Earlier(b, UndoKey(requestId));
      && (answer.value.mirror.reverses == Some(id) <==> earlier.None? || earlier.value.reverses == Some(id))
      && (earlier.Some? ==> after == b && answer.value.mirror == earlier.value)
      && (earlier.None? ==> id < |after.vouchers| && after.vouchers[id].reversedBy == Some(answer.value.mirror.id))
  {
    var (after, answer) := UndoOf(b, chart, today, gate, mayMake, requestId, reason, id);
    var key := UndoKey(requestId);
    assert VoucherOk(b, id);
    if key in b.keys {
      assert Earlier(b, key) == Some(b.vouchers[b.keys[key]]);
    } else {
      var mirror := MirrorVoucher(b, b.vouchers[id], key, today, reason, gate.now);
      assert after.vouchers == b.vouchers[id := MarkReversed(b.vouchers[id], mirror.id, reason)] + [mirror];
      assert answer.value.mirror == mirror;
    }
  }

  /**
   * One id for two undos: the second is answered as done, with the first one's mirror, and its entry stays as it was.
   */
  lemma UndoIdReused(b: Books, chart: Chart, today: Day, gate: Gate, mayMake: bool, requestId: string, reason: string,
                     first: VoucherId, second: VoucherId)
    requires Valid(b) && first != second && second < |b.vouchers| && FromBooks(b.vouchers[second])
    requires b.vouchers[second].state == Final && CashBack(b.vouchers[second], chart) <= 0
    requires var answer := UndoOf(b, chart, today, gate, mayMake, requestId, reason, first).1;
      answer.Ok? && !answer.value.duplicate
    ensures var done := UndoOf(b, chart, today, gate, mayMake, requestId, reason, first);
      var (after, answer) := UndoOf(done.0, chart, today, gate, mayMake, requestId, reason, second);
      && after == done.0 && after.vouchers[second].state == Final
      && answer.Ok? && answer.value.mirror == done.1.value.mirror && answer.value.mirror.reverses == Some(first)
  {
    var done := UndoOf(b, chart, today, gate, mayMake, requestId, reason, first);
    assert VoucherOk(b, first);
    var mirror := MirrorVoucher(b, b.vouchers[first], UndoKey(requestId), today, reason, gate.now);
    assert done.0.vouchers == b.vouchers[first := MarkReversed(b.vouchers[first], mirror.id, reason)] + [mirror];
    assert done.0.vouchers[second] == b.vouchers[second];
    UndoKeepsBooks(b, chart, today, gate, mayMake, requestId, reason, first);
  }

  // ------------------------------------------------------------------ what a save writes, and when it is answered

  /** The voucher does what the entry means, account by account, on the day it is for. */
  ghost predicate WrittenAsMeant(e: Entry, v: Voucher, chart: Chart, today: Day) {
    exists plan: Plan ::
      && MeansAs(e, plan, today)
      && v.date == plan.date && v.voucherType == plan.voucherType && |v.lines| == |plan.lines|
      && (forall code: string ::
            CodeId(chart, code).Some? ==> Moved(v.lines, CodeId(chart, code).value) == PlannedMove(plan.lines, code))
  }

  /** A new voucher moves what the entry means to move, and nothing else. */
  lemma RecordMovesMoney(b: Books, chart: Chart, today: Day, gate: Gate, entry: Entry, requestId: string,
                         given: Option<SourceId>)
    requires Valid(b) && IdsDistinct(chart)
    ensures var answer := RecordOf(b, chart, today, gate, entry, requestId, given).1;
      answer.Ok? && !answer.value.duplicate ==> WrittenAsMeant(entry, answer.value.voucher, chart, today)
  {
    var answer := RecordOf(b, chart, today, gate, entry, requestId, given).1;
    if answer.Ok? && !answer.value.duplicate {
      var (plan, v) := (PlanOf(entry, chart, today).value, answer.value.voucher);
      PlanMeansTheEntry(entry, chart, today);
      NewIsPlanned(b, chart, today, gate, entry, requestId, given);
      forall code: string | CodeId(chart, code).Some?
        ensures Moved(v.lines, CodeId(chart, code).value) == PlannedMove(plan.lines, code)
      {
        PostedMovesAsPlanned(plan.lines, chart, code);
      }
      LinesHaveLength(plan.lines, chart);
    }
  }

  lemma {:induction false} LinesHaveLength(lines: seq<PlannedLine>, chart: Chart)
    requires LinesOf(lines, chart).Some?
    ensures |LinesOf(lines, chart).value| == |lines|
  {
    if lines != [] { LinesHaveLength(lines[..|lines| - 1], chart); }
  }

  lemma NewIsPlanned(b: Books, chart: Chart, today: Day, gate: Gate, entry: Entry, requestId: string,
                     given: Option<SourceId>)
    requires var answer := RecordOf(b, chart, today, gate, entry, requestId, given).1;
      answer.Ok? && !answer.value.duplicate
    ensures var (plan, v) :=
      (PlanOf(entry, chart, today), RecordOf(b, chart, today, gate, entry, requestId, given).1.value.voucher);
      && plan.Ok? && LinesOf(plan.value.lines, chart) == Some(v.lines)
      && v.date == plan.value.date && v.voucherType == plan.value.voucherType
  {}

  /** The drawer (account 1110) and the bank (1121), in a voucher. */
  ghost predicate DrawerAndBankMove(v: Voucher, chart: Chart, drawer: int, bank: int) {
    && (CodeId(chart, "1110").Some? ==> Moved(v.lines, CodeId(chart, "1110").value) == drawer)
    && (CodeId(chart, "1121").Some? ==> Moved(v.lines, CodeId(chart, "1121").value) == bank)
  }

  /** So the drawer and the bank move as the entry says, by the amount that was typed. */
  lemma RecordMovesDrawerAndBank(b: Books, chart: Chart, today: Day, gate: Gate, entry: Entry, requestId: string,
                                 given: Option<SourceId>)
    returns (n: int, drawer: int, bank: int)
    requires Valid(b) && IdsDistinct(chart) && !entry.JournalEntry?
    requires var answer := RecordOf(b, chart, today, gate, entry, requestId, given).1;
      answer.Ok? && !answer.value.duplicate
    ensures var v := RecordOf(b, chart, today, gate, entry, requestId, given).1.value.voucher;
      && Reads(entry.amount, n) && DrawerAndBank(entry, n, drawer, bank) && DrawerAndBankMove(v, chart, drawer, bank)
  {
    var lines := PlanOf(entry, chart, today).value.lines;
    NewIsPlanned(b, chart, today, gate, entry, requestId, given);
    n := PlanMovesDrawerAndBank(entry, chart, today);
    drawer, bank := PlannedMove(lines, "1110"), PlannedMove(lines, "1121");
    if CodeId(chart, "1110").Some? { PostedMovesAsPlanned(lines, chart, "1110"); }
    if CodeId(chart, "1121").Some? { PostedMovesAsPlanned(lines, chart, "1121"); }
  }

  /** Every account the plan names is in the chart. */
  ghost predicate AllCodesKnown(lines: seq<PlannedLine>, chart: Chart) {
    forall i :: 0 <= i < |lines| ==> CodeId(chart, lines[i].code).Some?
  }

  lemma {:induction false} LinesOfIff(lines: seq<PlannedLine>, chart: Chart)
    ensures LinesOf(lines, chart).Some? <==> AllCodesKnown(lines, chart)
  {
    if lines != [] {
      var front := lines[..|lines| - 1];
      LinesOfIff(front, chart);
      if AllCodesKnown(front, chart) && CodeId(chart, lines[|lines| - 1].code).Some? {
        forall i | 0 <= i < |lines|
          ensures CodeId(chart, lines[i].code).Some?
        {
          assert i < |front| ==> front[i] == lines[i];
        }
      }
      if AllCodesKnown(lines, chart) {
        forall i | 0 <= i < |front| ensures CodeId(chart, front[i].code).Some? { assert front[i] == lines[i]; }
      }
    }
  }

  /**
   * When a save may be answered: the entry is acceptable and has the fingerprint that was given, its accounts are
   * known, the person may post; and its request was saved before with that fingerprint, or the drawer has the cash,
   * the day is open and the ledger may take the lines.
   */
  ghost predicate MayRecord(b: Books, chart: Chart, today: Day, gate: Gate, entry: Entry, requestId: string,
                            given: Option<SourceId>)
  {
    && requestId != "" && MayBePlanned(entry, chart, today) && gate.mayPost
    && match PlanOf(entry, chart, today)
       case Refused(_) => false
       case Ok(plan) =>
         && given == Some(Fingerprint(plan)) && AllCodesKnown(plan.lines, chart)
         && match Earlier(b, RequestKey(entry.Kind(), requestId))
            case Some(v) => v.source.Some? && v.source.value.id == Fingerprint(plan)
            case None =>
              && (plan.cashOut > 0 ==> !DrawerShort(b.vouchers, chart, plan.date, plan.cashOut)) && gate.dateOpen
              && exists lines :: LinesOf(plan.lines, chart) == Some(lines) && MayPost(plan.voucherType, lines, chart)
  }

  lemma RecordedIff(b: Books, chart: Chart, today: Day, gate: Gate, entry: Entry, requestId: string,
                    given: Option<SourceId>)
    requires Valid(b)
    ensures RecordOf(b, chart, today, gate, entry, requestId, given).1.Ok? <==>
            MayRecord(b, chart, today, gate, entry, requestId, given)
  {
    PlannedIff(entry, chart, today);
    if requestId != "" && PlanOf(entry, chart, today).Ok? {
      var plan := PlanOf(entry, chart, today).value;
      PlansAreSound(entry, chart, today);
      LinesOfIff(plan.lines, chart);
      KeyIsUsedIff(b, entry.Kind(), requestId);
      if LinesOf(plan.lines, chart).Some? {
        PostedIff(b, chart, gate, CommandOf(plan, RequestKey(plan.kind, requestId), LinesOf(plan.lines, chart).value));
      }
    }
  }

  lemma KeyIsUsedIff(b: Books, kind: string, requestId: string)
    requires Valid(b)
    ensures var key := RequestKey(kind, requestId);
      && !Blank(key) && (Earlier(b, key).Some? <==> key in b.keys)
      && (key in b.keys ==> b.vouchers[b.keys[key]].key == key)
  {
    var key := RequestKey(kind, requestId);
    assert key[0] == 'b' && key[0] in key;
  }

  /**
   * When an undo is answered: the entry is one of the desk's, the person may make such entries and undo, a reason is
   * given, undoing it leaves no day short of cash; and the id was used before, or the entry is final and the day open.
   */
  lemma UndoneIff(b: Books, chart: Chart, today: Day, gate: Gate, mayMake: bool, requestId: string, reason: string,
                  id: VoucherId)
    requires Valid(b)
    ensures UndoOf(b, chart, today, gate, mayMake, requestId, reason, id).1.Ok? <==>
      && requestId != "" && !Blank(reason) && mayMake && gate.mayReverse
      && id < |b.vouchers| && FromBooks(b.vouchers[id])
      && (b.vouchers[id].state == Final && CashBack(b.vouchers[id], chart) > 0 ==>
            !DrawerShort(b.vouchers, chart, today, CashBack(b.vouchers[id], chart)))
      && (UndoKey(requestId) in b.keys || (b.vouchers[id].state == Final && gate.dateOpen))
  {
    ReversedIff(b, gate, UndoKey(requestId), id, today, reason);
  }

  // ------------------------------------------------------------------ the desk

  class Desk {
    const chart: Chart
    const store: LedgerStore

    constructor (chart: Chart, store: LedgerStore)
      ensures this.chart == chart && this.store == store
    {
      this.chart, this.store := chart, store;
    }

    /** `#lowestCashFrom` for this company: nothing when there is no cash account. */
    method Lowest(date: Day) returns (least: int)
      ensures match CodeId(chart, CASH) case None => least == 0 case Some(cash) =>
        IsLowestFrom(store.vouchers, cash, date, least)
    {
      var cash := CodeId(chart, CASH);
      if cash.None? { return 0; }
      least := LowestCashFrom(store.vouchers, cash.value, date);
    }

    /** `#checkCash` */
    method CashIsShort(date: Day, out: nat) returns (short: bool)
      ensures short <==> out > 0 && DrawerShort(store.vouchers, chart, date, out)
    {
      if out == 0 { return false; }
      var inDrawer := Lowest(date);
      short := inDrawer < out;
    }

    method Record(today: Day, gate: Gate, entry: Entry, requestId: string, given: Option<SourceId>)
        returns (answer: Result<Saved, BooksError>)
      modifies store
      ensures (store.View(), answer) == RecordOf(old(store.View()), chart, today, gate, entry, requestId, given)
    {
      if requestId == "" { return Refused(RequestIdMissing); }
      var planned := PlanOf(entry, chart, today);
      if planned.Refused? { return Refused(planned.why); }
      var plan := planned.value;
      var check := Fingerprint(plan);
      if given.None? { return Refused(NotChecked); }
      if given.value != check { return Refused(ChangedSinceCheck); }
      var key := RequestKey(plan.kind, requestId);
      var earlier := store.Lookup(key);
      var done: Option<Voucher> := None;
      if earlier.Some? { done := store.FindById(earlier.value); }
      if done.None? {
        var short := CashIsShort(plan.date, plan.cashOut);
        if short { return Refused(CashShort); }
      }
      var lines := LinesOf(plan.lines, chart);
      if lines.None? { return Refused(AccountMissing); }
      var result := store.PostVoucher(chart, gate, CommandOf(plan, key, lines.value));
      if result.Refused? { return Refused(LedgerRefused(result.why)); }
      var posted := result.value;
      if posted.deduplicated && (posted.voucher.source.None? || posted.voucher.source.value.id != check) {
        return Refused(RequestReused);
      }
      answer := Ok(Saved(posted.voucher, posted.deduplicated));
    }

    method Undo(today: Day, gate: Gate, mayMake: bool, requestId: string, reason: string, id: VoucherId)
        returns (answer: Result<Undone, BooksError>)
      modifies store
      ensures (store.View(), answer) == UndoOf(old(store.View()), chart, today, gate, mayMake, requestId, reason, id)
    {
      if requestId == "" { return Refused(RequestIdMissing); }
      if reason == "" { return Refused(UndoReasonMissing); }
      var found := store.FindById(id);
      if found.None? || !FromBooks(found.value) { return Refused(EntryNotFound); }
      var voucher := found.value;
      if !mayMake { return Refused(UndoNotAllowed); }
      if voucher.state == Final {
        var cash := CodeId(chart, CASH);
        var cashBack := 0;
        if cash.Some? { cashBack := MovedBy(voucher.lines, cash.value); }
        if cashBack > 0 {
          var inDrawer := Lowest(today);
          if inDrawer < cashBack { return Refused(CashShort); }
        }
      }
      var result := store.ReverseVoucher(gate, UndoKey(requestId), id, today, reason);
      if result.Refused? { return Refused(LedgerRefused(result.why)); }
      answer := Ok(Undone(voucher, result.value.voucher, result.value.deduplicated));
    }

    /** `book`: read only. */
    method Book(bank: bool, from: Option<Day>, to: Day) returns (book: CashBook.Book)
      ensures book == CashBook.BookOf(store.vouchers, BookIds(chart, bank), from, to)
    {
      book := CashBook.MakeBook(store.vouchers, BookIds(chart, bank), from, to);
    }
  }
}
