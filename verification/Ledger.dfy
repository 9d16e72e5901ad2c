/** The ledger: vouchers posted once per key, undone only by their mirror, never edited. */
module Ledger {
  import opened Basics
  import opened Texts

  /** What `randomUUID` gives a voucher; here its place in the order of posting. */
  type VoucherId = nat
  type AccountId = nat

  datatype VoucherState = Draft | Final | Reversed
  datatype VoucherType = Sale | Purchase | Receipt | Payment | Journal | CreditNote | DebitNote | OpeningBalance
      | Reversal

  datatype Role = ChequesInHand | StockInHand | DocumentBacked | AnyOtherRole
  datatype Account = Account(id: AccountId, code: string, parent: Option<AccountId>, isGroup: bool, active: bool,
                             party: Option<nat>, role: Option<Role>)
  type Chart = seq<Account>

  datatype Line = Line(account: AccountId, party: Option<nat>, debit: int, credit: int, note: Option<string>)

  /** One line of a planned entry, by account code. */
  datatype PlannedLine = PlannedLine(code: string, debit: int, credit: int, note: Option<string>)

  /** Where a voucher came from. A SHA-256 digest is taken to be injective, so it is the very content digested. */
  datatype SourceId = Named(text: string)
    | Digest(kind: string, voucherType: VoucherType, date: Day, narration: string, lines: seq<PlannedLine>)
  datatype Source = Source(kind: string, id: SourceId)

  /** A mirror names the entry it undoes by its number, which stands for its id. */
  datatype Narration = Said(text: string) | Undoes(id: VoucherId)

  datatype Voucher = Voucher(id: VoucherId, voucherType: VoucherType, date: Day, state: VoucherState,
                             narration: Narration,
                             source: Option<Source>, lines: seq<Line>, key: string, createdAt: int,
                             reversedBy: Option<VoucherId>, reverses: Option<VoucherId>, reason: Option<string>)

  datatype LedgerError = KeyRequired | NotPermitted | DateNotPostable | TooFewLines | NegativeAmount | BothSides
      | EmptyLine
    | UnknownAccount | GroupAccount | InactiveAccount | PartyMismatch | Unbalanced | ReversalNotDirect
    | KeyDangling | ReasonRequired | VoucherNotFound | ReverseDraft | AlreadyReversed

  datatype Command = Command(key: string, voucherType: VoucherType, date: Day, narration: string,
                             source: Option<Source>, lines: seq<Line>)

  /** What the permission list, the period locks and the clock answer during one call. */
  datatype Gate = Gate(mayPost: bool, mayReverse: bool, dateOpen: bool, now: int)

  datatype Posted = Posted(voucher: Voucher, deduplicated: bool)

  /** The stored state of one company's ledger. */
  datatype Books = Books(vouchers: seq<Voucher>, keys: map<string, VoucherId>)

  // ------------------------------------------------------------------ amounts

  function Debits(lines: seq<Line>): int {
    if lines == [] then 0 else Debits(lines[..|lines| - 1]) + lines[|lines| - 1].debit
  }

  function Credits(lines: seq<Line>): int {
    if lines == [] then 0 else Credits(lines[..|lines| - 1]) + lines[|lines| - 1].credit
  }

  /** What the lines bring into one account: debits less credits. */
  function Moved(lines: seq<Line>, account: AccountId): int {
    if lines == [] then 0
    else
      var last := lines[|lines| - 1];
      Moved(lines[..|lines| - 1], account) + if last.account == account then last.debit - last.credit else 0
  }

  /** The balance of an account at the end of a day: every movement that is not a draft, dated up to it. */
  function BalanceAt(vouchers: seq<Voucher>, account: AccountId, day: Day): int {
    if vouchers == [] then 0
    else
      var last := vouchers[|vouchers| - 1];
      BalanceAt(vouchers[..|vouchers| - 1], account, day) +
      if last.state != Draft && last.date <= day then Moved(last.lines, account) else 0
  }

  predicate OneSided(line: Line) {
    line.debit >= 0 && line.credit >= 0 && (line.debit == 0 <==> line.credit != 0)
  }

  ghost predicate Balanced(lines: seq<Line>) {
    |lines| >= 2 && (forall i :: 0 <= i < |lines| ==> OneSided(lines[i])) && Debits(lines) == Credits(lines)
  }

  function MirrorLine(line: Line): Line { line.(debit := line.credit, credit := line.debit) }

  function Mirror(lines: seq<Line>): seq<Line> { seq(|lines|, i requires 0 <= i < |lines| => MirrorLine(lines[i])) }

  // ------------------------------------------------------------------ posting

  function FindAccount(chart: Chart, id: AccountId): Option<Account> {
    if chart == [] then None else if chart[0].id == id then Some(chart[0]) else FindAccount(chart[1..], id)
  }

  function LineFault(line: Line, chart: Chart): Option<LedgerError> {
    if line.debit < 0 || line.credit < 0 then Some(NegativeAmount)
    else if line.debit != 0 && line.credit != 0 then Some(BothSides)
    else if line.debit == 0 && line.credit == 0 then Some(EmptyLine)
    else
      match FindAccount(chart, line.account)
      case None => Some(UnknownAccount)
      case Some(account) =>
        if account.isGroup then Some(GroupAccount)
        else if !account.active then Some(InactiveAccount)
        else if account.party.Some? && line.party != account.party then Some(PartyMismatch)
        else None
  }

  function FirstFault(lines: seq<Line>, chart: Chart): Option<LedgerError> {
    if lines == [] then None
    else if LineFault(lines[0], chart).Some? then LineFault(lines[0], chart)
    else FirstFault(lines[1..], chart)
  }

  /** `validatePosting`: a refusal to write, never a correction. */
  function PostingFault(voucherType: VoucherType, lines: seq<Line>, chart: Chart): Option<LedgerError> {
    if |lines| < 2 then Some(TooFewLines)
    else if FirstFault(lines, chart).Some? then FirstFault(lines, chart)
    else if Debits(lines) != Credits(lines) then Some(Unbalanced)
    else if voucherType == Reversal then Some(ReversalNotDirect)
    else None
  }

  function NewVoucher(b: Books, cmd: Command, now: int): Voucher {
    Voucher(|b.vouchers|, cmd.voucherType, cmd.date, Final, Said(cmd.narration), cmd.source, cmd.lines, cmd.key, now,
      None, None, None)
  }

  /** What `postVoucher` does to the books and answers. */
  function Post(b: Books, chart: Chart, gate: Gate, cmd: Command): (Books, Result<Posted, LedgerError>) {
    if Blank(cmd.key) then (b, Refused(KeyRequired))
    else if !gate.mayPost then (b, Refused(NotPermitted))
    else if cmd.key in b.keys then
      if b.keys[cmd.key] < |b.vouchers| then (b, Ok(Posted(b.vouchers[b.keys[cmd.key]], true)))
      else (b, Refused(KeyDangling))
    else if !gate.dateOpen then (b, Refused(DateNotPostable))
    else
      match PostingFault(cmd.voucherType, cmd.lines, chart)
      case Some(fault) => (b, Refused(fault))
      case None =>
        var voucher := NewVoucher(b, cmd, gate.now);
        (Books(b.vouchers + [voucher], b.keys[cmd.key := voucher.id]), Ok(Posted(voucher, false)))
  }

  function MirrorVoucher(b: Books, original: Voucher, key: string, date: Day, reason: string, now: int): Voucher {
    Voucher(|b.vouchers|, Reversal, date, Final, Undoes(original.id), original.source, Mirror(original.lines), key, now,
            None, Some(original.id), Some(reason))
  }

  function MarkReversed(v: Voucher, mirror: VoucherId, reason: string): Voucher {
    v.(state := Reversed, reversedBy := Some(mirror), reason := Some(reason))
  }

  /** What `reverseVoucher` does to the books and answers. */
  function Reverse(b: Books, gate: Gate, key: string, id: VoucherId, date: Day, reason: string): (Books, Result<Posted,
                   LedgerError>) {
    if Blank(reason) then (b, Refused(ReasonRequired))
    else if !gate.mayReverse then (b, Refused(NotPermitted))
    else if key in b.keys then
      if b.keys[key] < |b.vouchers| then (b, Ok(Posted(b.vouchers[b.keys[key]], true))) else (b, Refused(KeyDangling))
    else if id >= |b.vouchers| then (b, Refused(VoucherNotFound))
    else if b.vouchers[id].state == Draft then (b, Refused(ReverseDraft))
    else if b.vouchers[id].state == Reversed || b.vouchers[id].reversedBy.Some? then (b, Refused(AlreadyReversed))
    else if !gate.dateOpen then (b, Refused(DateNotPostable))
    else
      var mirror := MirrorVoucher(b, b.vouchers[id], key, date, reason, gate.now);
      (Books(b.vouchers[id := MarkReversed(b.vouchers[id], mirror.id, reason)] + [mirror], b.keys[key := mirror.id]),
       Ok(Posted(mirror, false)))
  }

  // ------------------------------------------------------------------ what always holds

  /** Each voucher keeps its place, owns its key, and is linked to its mirror when it has been undone. */
  ghost predicate VoucherOk(b: Books, i: nat)
    requires i < |b.vouchers|
  {
    var v := b.vouchers[i];
    && v.id == i
    && v.key in b.keys && b.keys[v.key] == i
    && (v.state != Draft ==> Balanced(v.lines))
    && (v.state == Reversed <==> v.reversedBy.Some?)
    && (v.reversedBy.Some? ==>
          && i < v.reversedBy.value < |b.vouchers|
          && b.vouchers[v.reversedBy.value].reverses == Some(i)
          && b.vouchers[v.reversedBy.value].state != Draft
          && b.vouchers[v.reversedBy.value].lines == Mirror(v.lines))
    && (v.reverses.Some? ==> v.reverses.value < i && b.vouchers[v.reverses.value].reversedBy == Some(i))
  }

  ghost predicate Valid(b: Books) {
    && (forall i :: 0 <= i < |b.vouchers| ==> VoucherOk(b, i))
    && (forall k <- b.keys :: b.keys[k] < |b.vouchers| && b.vouchers[b.keys[k]].key == k)
  }

  /** A voucher as it was written: only the mark that it was undone is ever added. */
  function AsWritten(v: Voucher): Voucher
  {
    v.(state := if v.state == Draft then Draft else Final, reversedBy := None, reason := None)
  }

  /** Nothing is deleted, edited or reordered between two states of the books. */
  ghost predicate Grew(before: Books, after: Books) {
    && |before.vouchers| <= |after.vouchers|
    && (forall i :: 0 <= i < |before.vouchers| ==>
          && AsWritten(after.vouchers[i]) == AsWritten(before.vouchers[i])
          && (before.vouchers[i].state == Reversed ==> after.vouchers[i] == before.vouchers[i]))
    && (forall k <- before.keys :: k in after.keys && after.keys[k] == before.keys[k])
  }

  lemma GrewTransitive(a: Books, b: Books, c: Books)
    requires Grew(a, b) && Grew(b, c)
    ensures Grew(a, c)
  {
    forall i | 0 <= i < |a.vouchers|
      ensures AsWritten(c.vouchers[i]) == AsWritten(a.vouchers[i])
      ensures a.vouchers[i].state == Reversed ==> c.vouchers[i] == a.vouchers[i]
    {
      assert AsWritten(b.vouchers[i]) == AsWritten(a.vouchers[i]);
    }
  }

  lemma {:induction false} FaultlessIsOneSided(lines: seq<Line>, chart: Chart)
    requires FirstFault(lines, chart).None?
    ensures forall i :: 0 <= i < |lines| ==> OneSided(lines[i])
  {
    if lines != [] {
      FaultlessIsOneSided(lines[1..], chart);
      forall i | 0 <= i < |lines| ensures OneSided(lines[i]) {
        if i > 0 { assert lines[i] == lines[1..][i - 1]; }
      }
    }
  }

  lemma {:induction false} MirrorSums(lines: seq<Line>)
    ensures Debits(Mirror(lines)) == Credits(lines) && Credits(Mirror(lines)) == Debits(lines)
  {
    if lines != [] {
      var front := lines[..|lines| - 1];
      MirrorSums(front);
      assert Mirror(lines)[..|lines| - 1] == Mirror(front);
    }
  }

  /** The mirror takes out of every account exactly what the entry put in. */
  lemma {:induction false} MirrorMoves(lines: seq<Line>, account: AccountId)
    ensures Moved(Mirror(lines), account) == -Moved(lines, account)
  {
    if lines != [] {
      var front := lines[..|lines| - 1];
      MirrorMoves(front, account);
      assert Mirror(lines)[..|lines| - 1] == Mirror(front);
    }
  }

  lemma MirrorBalanced(lines: seq<Line>)
    requires Balanced(lines)
    ensures Balanced(Mirror(lines))
  {
    MirrorSums(lines);
    forall i | 0 <= i < |lines| ensures OneSided(Mirror(lines)[i]) { assert OneSided(lines[i]); }
  }

  /** Posting keeps the books valid, only adds, and a refused or repeated command changes nothing. */
  lemma PostKeepsBooks(b: Books, chart: Chart, gate: Gate, cmd: Command)
    requires Valid(b)
    ensures Valid(Post(b, chart, gate, cmd).0) && Grew(b, Post(b, chart, gate, cmd).0)
  {
    var (after, answer) := Post(b, chart, gate, cmd);
    if after != b {
      FaultlessIsOneSided(cmd.lines, chart);
      forall i | 0 <= i < |after.vouchers| ensures VoucherOk(after, i) {
        if i < |b.vouchers| { assert VoucherOk(b, i); }
      }
    }
  }

  /** So does undoing. */
  lemma ReverseKeepsBooks(b: Books, gate: Gate, key: string, id: VoucherId, date: Day, reason: string)
    requires Valid(b)
    ensures Valid(Reverse(b, gate, key, id, date, reason).0) && Grew(b, Reverse(b, gate, key, id, date, reason).0)
  {
    var (after, answer) := Reverse(b, gate, key, id, date, reason);
    if after != b {
      assert VoucherOk(b, id);
      MirrorBalanced(b.vouchers[id].lines);
      forall i | 0 <= i < |after.vouchers| ensures VoucherOk(after, i) {
        if i < |b.vouchers| {
          assert VoucherOk(b, i);
          var v := b.vouchers[i];
          if v.reverses.Some? { assert VoucherOk(b, v.reverses.value); }
        }
      }
    }
  }

  // ------------------------------------------------------------------ what is posted, and when

  /** A line may be posted: to one side, and to an open account of the chart that is no other party's. */
  ghost predicate MayTake(line: Line, chart: Chart) {
    && OneSided(line)
    && exists i :: IsFirstWith(chart, line.account, i) && Open(chart[i], line)
  }

  predicate IsFirstWith(chart: Chart, id: AccountId, i: int) {
    0 <= i < |chart| && chart[i].id == id && forall j :: 0 <= j < i ==> chart[j].id != id
  }

  predicate Open(account: Account, line: Line) {
    account.active && !account.isGroup && (account.party.None? || account.party == line.party)
  }

  /** At least two lines, each of which may be posted, the sides equal, and no mirror made by hand. */
  ghost predicate MayPost(voucherType: VoucherType, lines: seq<Line>, chart: Chart) {
    && |lines| >= 2 && (forall i :: 0 <= i < |lines| ==> MayTake(lines[i], chart))
    && Debits(lines) == Credits(lines) && voucherType != Reversal
  }

  lemma {:induction false} FoundIsFirst(chart: Chart, id: AccountId)
    ensures match FindAccount(chart, id)
      case None => forall i :: 0 <= i < |chart| ==> chart[i].id != id
      case Some(account) => exists i :: IsFirstWith(chart, id, i) && chart[i] == account
  {
    if chart != [] && chart[0].id != id {
      FoundIsFirst(chart[1..], id);
      if FindAccount(chart[1..], id).Some? {
        var i :| IsFirstWith(chart[1..], id, i) && chart[1..][i] == FindAccount(chart[1..], id).value;
        assert IsFirstWith(chart, id, i + 1);
      }
    } else if chart != [] {
      assert IsFirstWith(chart, id, 0);
    }
  }

  lemma LineFaultIff(line: Line, chart: Chart)
    ensures LineFault(line, chart).None? <==> MayTake(line, chart)
  {
    FoundIsFirst(chart, line.account);
  }

  lemma {:induction false} FirstFaultIff(lines: seq<Line>, chart: Chart)
    ensures FirstFault(lines, chart).None? <==> forall i :: 0 <= i < |lines| ==> MayTake(lines[i], chart)
  {
    if lines != [] {
      LineFaultIff(lines[0], chart);
      FirstFaultIff(lines[1..], chart);
      if FirstFault(lines, chart).None? {
        forall i | 0 <= i < |lines| ensures MayTake(lines[i], chart) {
          if i > 0 { assert lines[i] == lines[1..][i - 1]; }
        }
      }
    }
  }

  /** A command is answered exactly when its key was used, or it may be posted now; a new voucher is the command's. */
  lemma PostedIff(b: Books, chart: Chart, gate: Gate, cmd: Command)
    requires Valid(b)
    ensures var (after, answer) := Post(b, chart, gate, cmd);
      && (answer.Ok? <==>
            && !Blank(cmd.key) && gate.mayPost
            && (cmd.key in b.keys || (gate.dateOpen && MayPost(cmd.voucherType, cmd.lines, chart))))
      && (answer.Ok? ==> answer.value.deduplicated == (cmd.key in b.keys))
      && (answer.Ok? && cmd.key in b.keys ==>
        after == b && answer.value.voucher.key == cmd.key && answer.value.voucher in b.vouchers)
      && (answer.Ok? && cmd.key !in b.keys ==> after.vouchers == b.vouchers + [answer.value.voucher])
      && (answer.Ok? && cmd.key !in b.keys ==>
        IsCommanded(answer.value.voucher, cmd) && after.keys == b.keys[cmd.key := |b.vouchers|])
  {
    FirstFaultIff(cmd.lines, chart);
  }

  /** A final voucher, not undone and undoing nothing, with just what the command says. */
  predicate IsCommanded(v: Voucher, cmd: Command) {
    && v.state == Final && v.reversedBy.None? && v.reverses.None?
    && v.voucherType == cmd.voucherType && v.date == cmd.date && v.lines == cmd.lines && v.key == cmd.key
    && v.source == cmd.source && v.narration == Said(cmd.narration)
  }

  /** An undo is answered exactly when its key was used, or its voucher is final and the day is open. */
  lemma ReversedIff(b: Books, gate: Gate, key: string, id: VoucherId, date: Day, reason: string)
    requires Valid(b)
    ensures var (after, answer) := Reverse(b, gate, key, id, date, reason);
      && (answer.Ok? <==>
            && !Blank(reason) && gate.mayReverse
            && (key in b.keys || (id < |b.vouchers| && b.vouchers[id].state == Final && gate.dateOpen)))
      && (answer.Ok? ==> answer.value.deduplicated == (key in b.keys))
      && (answer.Ok? && key in b.keys ==>
        after == b && answer.value.voucher.key == key && answer.value.voucher in b.vouchers)
      && (answer.Ok? && key !in b.keys ==>
            Undid(b, after, answer.value.voucher, id, date, reason) && after.keys == b.keys[key := |b.vouchers|])
  {
    if id < |b.vouchers| { assert VoucherOk(b, id); }
  }

  /** The voucher is marked, and only it; and its mirror is added, with every line on the other side. */
  ghost predicate Undid(b: Books, after: Books, mirror: Voucher, id: VoucherId, date: Day, reason: string)
    requires id < |b.vouchers|
  {
    var (was, now) :=
      (b.vouchers[id], b.vouchers[id].(state := Reversed, reversedBy := Some(mirror.id), reason := Some(reason)));
    && after.vouchers == b.vouchers[id := now] + [mirror]
    && mirror.id == |b.vouchers| && mirror.reverses == Some(id) && mirror.voucherType == Reversal
      && mirror.state == Final
    && mirror.date == date && mirror.source == was.source && mirror.reason == Some(reason)
      && |mirror.lines| == |was.lines|
    && forall i :: 0 <= i < |was.lines| ==>
         && mirror.lines[i].account == was.lines[i].account && mirror.lines[i].party == was.lines[i].party
         && mirror.lines[i].debit == was.lines[i].credit && mirror.lines[i].credit == was.lines[i].debit
  }

  // ------------------------------------------------------------------ balances over a change

  lemma BalanceOfAppended(vouchers: seq<Voucher>, v: Voucher, account: AccountId, day: Day)
    ensures BalanceAt(vouchers + [v], account, day) ==
            BalanceAt(vouchers, account, day) + if v.state != Draft && v.date <= day then Moved(v.lines, account) else 0
  {
    assert (vouchers + [v])[..|vouchers|] == vouchers;
  }

  /** Marking a voucher as undone moves no money. */
  lemma {:induction false} BalanceOfMarked(vouchers: seq<Voucher>, id: nat, mirror: VoucherId, reason: string,
                                           account: AccountId, day: Day)
    requires id < |vouchers| && vouchers[id].state == Final
    ensures BalanceAt(vouchers[id := MarkReversed(vouchers[id], mirror, reason)], account, day) ==
      BalanceAt(vouchers, account, day)
  {
    var last := |vouchers| - 1;
    var marked := vouchers[id := MarkReversed(vouchers[id], mirror, reason)];
    if id == last {
      assert marked[..last] == vouchers[..last];
    } else {
      BalanceOfMarked(vouchers[..last], id, mirror, reason, account, day);
      assert marked[..last] == vouchers[..last][id := MarkReversed(vouchers[id], mirror, reason)];
    }
  }

  /** From the day of the undo on, an undone voucher and its mirror leave every account where it was without them. */
  lemma UndoCancels(b: Books, gate: Gate, key: string, id: VoucherId, date: Day, reason: string, account: AccountId,
                    day: Day)
    requires Valid(b)
    requires var answer := Reverse(b, gate, key, id, date, reason).1; answer.Ok? && !answer.value.deduplicated
    ensures BalanceAt(Reverse(b, gate, key, id, date, reason).0.vouchers, account, day) ==
            BalanceAt(b.vouchers, account, day) - if date <= day then Moved(b.vouchers[id].lines, account) else 0
  {
    assert VoucherOk(b, id);
    var mirror := MirrorVoucher(b, b.vouchers[id], key, date, reason, gate.now);
    MirrorMoves(b.vouchers[id].lines, account);
    BalanceOfMarked(b.vouchers, id, mirror.id, reason, account, day);
    BalanceOfAppended(b.vouchers[id := MarkReversed(b.vouchers[id], mirror.id, reason)], mirror, account, day);
  }

  // ------------------------------------------------------------------ the store

  class LedgerStore {
    var vouchers: seq<Voucher>
    var keys: map<string, VoucherId>

    function View(): Books
      reads this
    {
      Books(vouchers, keys)
    }

    constructor ()
      ensures View() == Books([], map[])
    {
      vouchers, keys := [], map[];
    }

    /** The voucher a key was used for, if any. */
    method Lookup(key: string) returns (earlier: Option<VoucherId>)
      ensures earlier == if key in keys then Some(keys[key]) else None
    {
      earlier := if key in keys then Some(keys[key]) else None;
    }

    method FindById(id: VoucherId) returns (voucher: Option<Voucher>)
      ensures voucher == if id < |vouchers| then Some(vouchers[id]) else None
    {
      voucher := if id < |vouchers| then Some(vouchers[id]) else None;
    }

    method ValidatePosting(voucherType: VoucherType, lines: seq<Line>, chart: Chart)
        returns (fault: Option<LedgerError>)
      ensures fault == PostingFault(voucherType, lines, chart)
    {
      if |lines| < 2 { return Some(TooFewLines); }
      var i, debits, credits := 0, 0, 0;
      while i < |lines|
        invariant 0 <= i <= |lines|
        invariant FirstFault(lines, chart) == FirstFault(lines[i..], chart)
        invariant debits == Debits(lines[..i]) && credits == Credits(lines[..i])
      {
        fault := LineFault(lines[i], chart);
        if fault.Some? { return; }
        debits, credits := debits + lines[i].debit, credits + lines[i].credit;
        assert lines[..i + 1][..i] == lines[..i];
        i := i + 1;
      }
      assert lines[..i] == lines;
      fault := if debits != credits then Some(Unbalanced)
        else if voucherType == Reversal then Some(ReversalNotDirect) else None;
    }

    method PostVoucher(chart: Chart, gate: Gate, cmd: Command) returns (answer: Result<Posted, LedgerError>)
      modifies this
      ensures (View(), answer) == Post(old(View()), chart, gate, cmd)
    {
      if Blank(cmd.key) { return Refused(KeyRequired); }
      if !gate.mayPost { return Refused(NotPermitted); }
      var earlier := Lookup(cmd.key);
      if earlier.Some? {
        var existing := FindById(earlier.value);
        return match existing case None => Refused(KeyDangling) case Some(v) => Ok(Posted(v, true));
      }
      if !gate.dateOpen { return Refused(DateNotPostable); }
      var fault := ValidatePosting(cmd.voucherType, cmd.lines, chart);
      if fault.Some? { return Refused(fault.value); }
      var voucher := NewVoucher(View(), cmd, gate.now);
      vouchers := vouchers + [voucher];
      keys := keys[cmd.key := voucher.id];
      answer := Ok(Posted(voucher, false));
    }

    method ReverseVoucher(gate: Gate, key: string, id: VoucherId, date: Day, reason: string)
        returns (answer: Result<Posted, LedgerError>)
      modifies this
      ensures (View(), answer) == Reverse(old(View()), gate, key, id, date, reason)
    {
      if Blank(reason) { return Refused(ReasonRequired); }
      if !gate.mayReverse { return Refused(NotPermitted); }
      var earlier := Lookup(key);
      if earlier.Some? {
        var existing := FindById(earlier.value);
        return match existing case None => Refused(KeyDangling) case Some(v) => Ok(Posted(v, true));
      }
      var original := FindById(id);
      if original.None? { return Refused(VoucherNotFound); }
      if original.value.state == Draft { return Refused(ReverseDraft); }
      if original.value.state == Reversed || original.value.reversedBy.Some? { return Refused(AlreadyReversed); }
      if !gate.dateOpen { return Refused(DateNotPostable); }
      var mirror := MirrorVoucher(View(), original.value, key, date, reason, gate.now);
      vouchers := vouchers[id := MarkReversed(original.value, mirror.id, reason)] + [mirror];
      keys := keys[key := mirror.id];
      answer := Ok(Posted(mirror, false));
    }
  }
}
