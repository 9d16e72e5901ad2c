/** Which GST scheme a business is under, and since when: a dated history that only grows at its end. */
module Scheme {
  import opened Basics
  import MoneyText

  datatype Kind = Regular | Composition
  datatype Category = ManufacturerOrTrader | Restaurant | ServicesOnly
  datatype RateBasis = SuggestedUnverified | BusinessDeclared

  datatype Change = Change(requestId: string, scheme: Kind, effectiveFrom: Day, category: Option<Category>,
                           rate: Option<nat>,
                           basis: Option<RateBasis>, newlyRegistered: bool, declaredBy: string, declaredOn: Day,
                             note: string)
  type History = seq<Change>

  // ------------------------------------------------------------------ looking up

  /** The change in force: the last one in the list that starts on or before the day. */
  function ChangeOn(history: History, day: Day): Option<Change> {
    if history == [] then None
    else if history[|history| - 1].effectiveFrom <= day then Some(history[|history| - 1])
    else ChangeOn(history[..|history| - 1], day)
  }

  /** Every business is a regular taxpayer until it says otherwise. */
  function SchemeOn(history: History, day: Day): Kind {
    match ChangeOn(history, day) case None => Regular case Some(change) => change.scheme
  }

  datatype Rate = Rate(basisPoints: nat, category: Category)

  function RateOn(history: History, day: Day): Option<Rate> {
    match ChangeOn(history, day)
    case None => None
    case Some(change) =>
      if change.scheme != Composition || change.rate.None? || change.category.None? then None
      else Some(Rate(change.rate.value, change.category.value))
  }

  datatype During = AllRegular | AllComposition | Both

  /** The days `schemeDuring` looks at: the first, and each start of a change after it. */
  function Starts(history: History, from: Day, to: Day): seq<Day> {
    if history == [] then [from]
    else
      var last := history[|history| - 1].effectiveFrom;
      Starts(history[..|history| - 1], from, to) + if from < last <= to then [last] else []
  }

  function SchemesOn(history: History, days: seq<Day>): set<Kind> {
    set i | 0 <= i < |days| :: SchemeOn(history, days[i])
  }

  function SchemeDuring(history: History, from: Day, to: Day): During {
    var schemes := SchemesOn(history, Starts(history, from, to));
    if |schemes| == 2 then Both else if Composition in schemes then AllComposition else AllRegular
  }

  lemma {:induction false} ChangeOnIsLast(history: History, day: Day)
    ensures match ChangeOn(history, day)
      case None => forall i :: 0 <= i < |history| ==> history[i].effectiveFrom > day
      case Some(change) => exists i :: 0 <= i < |history| && history[i] == change && change.effectiveFrom <= day &&
                             forall j :: i < j < |history| ==> history[j].effectiveFrom > day
  {
    if history != [] && history[|history| - 1].effectiveFrom > day {
      var front := history[..|history| - 1];
      ChangeOnIsLast(front, day);
      if ChangeOn(front, day).Some? {
        var i :| 0 <= i < |front| && front[i] == ChangeOn(front, day).value
          && (forall j :: i < j < |front| ==> front[j].effectiveFrom > day);
        assert history[i] == front[i];
      }
    }
  }

  /** A change between which and the day no later-listed change starts is the one in force. */
  lemma {:induction false} LastIsChangeOn(history: History, day: Day, i: nat)
    requires i < |history| && history[i].effectiveFrom <= day
    requires forall j :: i < j < |history| ==> history[j].effectiveFrom > day
    ensures ChangeOn(history, day) == Some(history[i])
  {
    if i < |history| - 1 { LastIsChangeOn(history[..|history| - 1], day, i); }
  }

  lemma {:induction false} NoneIsChangeOn(history: History, day: Day)
    requires forall j :: 0 <= j < |history| ==> history[j].effectiveFrom > day
    ensures ChangeOn(history, day).None?
  {
    if history != [] { NoneIsChangeOn(history[..|history| - 1], day); }
  }

  lemma {:induction false} StartsAre(history: History, from: Day, to: Day)
    ensures from in Starts(history, from, to)
    ensures forall d <- Starts(history, from, to) :: d == from || from < d <= to
    ensures forall i :: 0 <= i < |history| && from < history[i].effectiveFrom <= to ==>
      history[i].effectiveFrom in Starts(history, from, to)
  {
    if history != [] {
      var front := history[..|history| - 1];
      StartsAre(front, from, to);
      forall i | 0 <= i < |history| && from < history[i].effectiveFrom <= to
        ensures history[i].effectiveFrom in Starts(history, from, to)
      {
        if i < |front| { assert front[i] == history[i]; }
      }
    }
  }

  /** Whatever day of the range is taken, one of the days looked at has its scheme. */
  lemma SampleFor(history: History, from: Day, to: Day, day: Day) returns (sample: Day)
    requires from <= day <= to
    ensures sample in Starts(history, from, to) && SchemeOn(history, sample) == SchemeOn(history, day)
  {
    StartsAre(history, from, to);
    ChangeOnIsLast(history, day);
    sample := from;
    if ChangeOn(history, day).None? {
      NoneIsChangeOn(history, from);
    } else {
      var change := ChangeOn(history, day).value;
      var i :| 0 <= i < |history| && history[i] == change && forall j :: i < j < |history| ==>
        history[j].effectiveFrom > day;
      if change.effectiveFrom > from { sample := change.effectiveFrom; }
      LastIsChangeOn(history, sample, i);
    }
  }

  lemma KindsCount(kinds: set<Kind>)
    ensures |kinds| == 2 <==> Regular in kinds && Composition in kinds
  {
    forall kind | kind in kinds
      ensures kind in {Regular, Composition}
    {
      match kind case Regular => case Composition =>
    }
    if Regular in kinds && Composition in kinds {
      assert kinds == {Regular, Composition};
    } else if Regular in kinds {
      assert kinds == {Regular};
    } else if Composition in kinds {
      assert kinds == {Composition};
    } else {
      assert kinds == {};
    }
  }

  /**
   * Looking at the first day and the starts of changes says of the whole range what looking at every
   * day would: both schemes, only one, or only the other. It holds of any history.
   */
  lemma DuringIsEveryDay(history: History, from: Day, to: Day)
    requires from <= to
    ensures match SchemeDuring(history, from, to)
      case AllRegular => forall day :: from <= day <= to ==> SchemeOn(history, day) == Regular
      case AllComposition => forall day :: from <= day <= to ==> SchemeOn(history, day) == Composition
      case Both =>
        exists a, b ::
          && from <= a <= to && from <= b <= to
          && SchemeOn(history, a) == Regular && SchemeOn(history, b) == Composition
  {
    var starts := Starts(history, from, to);
    var kinds := SchemesOn(history, starts);
    StartsAre(history, from, to);
    KindsCount(kinds);
    assert SchemeOn(history, from) in kinds by { var i :| 0 <= i < |starts| && starts[i] == from;
      assert SchemeOn(history, starts[i]) in kinds; }
    forall day | from <= day <= to ensures SchemeOn(history, day) in kinds {
      var sample := SampleFor(history, from, to, day);
      var i :| 0 <= i < |starts| && starts[i] == sample;
      assert SchemeOn(history, starts[i]) in kinds;
    }
    if Regular in kinds && Composition in kinds {
      var i :| 0 <= i < |starts| && SchemeOn(history, starts[i]) == Regular;
      var j :| 0 <= j < |starts| && SchemeOn(history, starts[j]) == Composition;
      assert starts[i] in starts && starts[j] in starts;
    }
  }

  // ------------------------------------------------------------------ previewing a change

  datatype Token = Token(change: Change, entries: nat)

  /** What a person typed. `None` stands for a choice, a date or a category that is not one. */
  datatype Input = Input(requestId: string, scheme: Option<Kind>, effectiveFrom: Option<Day>,
                         category: Option<Category>,
                         newlyRegistered: bool, withinLimit: bool, noInterState: bool, noEcommerce: bool,
                         ratePercent: string, rateConfirmed: bool, note: string, token: Option<Token>)

  /** What the rest of the shop answers while a press is worked out. */
  datatype Shop = Shop(billsSince: nat, goodsItems: nat, declaredBy: string, today: Day, startsFinancialYear: bool)

  datatype Blocker = NotAfterLastChange | BillsIssued | NotAtYearStart | LimitNotConfirmed | InterStateNotConfirmed
      | EcommerceNotConfirmed
    | KeepsGoods | RateMissing | RateNotConfirmed | NothingToLeave | AlreadyOnTheseTerms

  datatype SchemeError = RequestIdMissing | UnknownScheme | UnknownDate | UnknownCategory | BadRate
    | NotAllowed(blockers: seq<Blocker>) | NotPreviewed | ChangedSincePreview

  datatype Preview = Preview(change: Change, blockers: seq<Blocker>, token: Option<Token>)

  const GST_BEGAN := 17348          // 1 July 2017
  const SERVICES_RATE_BEGAN := 17987 // 1 April 2019

  /** The rate usually set for the category, to suggest and never to impose. */
  function SuggestedRate(category: Category, day: Day): Option<nat> {
    match category
    case ManufacturerOrTrader => if day >= GST_BEGAN then Some(100) else None
    case Restaurant => if day >= GST_BEGAN then Some(500) else None
    case ServicesOnly => if day >= SERVICES_RATE_BEGAN then Some(600) else None
  }

  /** `percentToBasisPoints`, then `validateCompositionRate`: above nothing, at most 10%, and in two equal halves. */
  function TypedRate(percent: string): Option<nat> {
    match MoneyText.ReadDecimal(percent, Some(2))
    case None => None
    case Some(d) =>
      var rate := MoneyText.ValueOf(d.whole) * 100 + MoneyText.ValueOf(MoneyText.PadEnd(d.fraction));
      if 0 < rate <= 1000 && rate % 2 == 0 then Some(rate) else None
  }

  /** The rate and its basis before confirmation; a typed rate that does not read is refused outright. */
  function RateAndBasis(input: Input, category: Category, day: Day): Result<(Option<nat>,
                        Option<RateBasis>), SchemeError> {
    if input.ratePercent == "" then
      match SuggestedRate(category, day)
      case None => Ok((None, None))
      case Some(rate) => Ok((Some(rate), Some(SuggestedUnverified)))
    else
      match TypedRate(input.ratePercent)
      case None => Refused(BadRate)
      case Some(rate) => Ok((Some(rate), Some(BusinessDeclared)))
  }

  function When(condition: bool, blocker: Blocker): seq<Blocker> { if condition then [blocker] else [] }

  /**
   * What a press notes before it waits for the bills: the scheme then in force, and whether the date is too early.
   * How many entries there then were is not used by the press; it is kept to tell what was written since.
   */
  datatype Noted = Noted(current: Kind, tooEarly: bool, entries: nat)

  function NoteDown(history: History, day: Day): Noted {
    Noted(SchemeOn(history, day), history != [] && day <= history[|history| - 1].effectiveFrom, |history|)
  }

  function JoinBlockers(input: Input, shop: Shop, category: Category, rate: Option<nat>,
                        basis: Option<RateBasis>): seq<Blocker> {
    When(!shop.startsFinancialYear && !input.newlyRegistered, NotAtYearStart) +
    When(!input.withinLimit, LimitNotConfirmed) + When(!input.noInterState, InterStateNotConfirmed) +
      When(!input.noEcommerce, EcommerceNotConfirmed) +
    When(category == ServicesOnly && shop.goodsItems > 0, KeepsGoods) +
    When(rate.None?, RateMissing) +
    When(basis == Some(SuggestedUnverified) && !input.rateConfirmed, RateNotConfirmed)
  }

  /** The change is the same as what is in force on its date. */
  predicate SameTerms(history: History, current: Kind, change: Change) {
    && change.scheme == current
    && (change.scheme == Regular ||
        match ChangeOn(history, change.effectiveFrom)
        case None => false
        case Some(inForce) => inForce.category == change.category && inForce.rate == change.rate)
  }

  /** The rest of `previewSchemeChange`, once the bills have answered; `history` is what it is by then. */
  function PreviewOf(history: History, input: Input, scheme: Kind, day: Day, noted: Noted,
                     shop: Shop): Result<Preview, SchemeError> {
    var early := When(noted.tooEarly, NotAfterLastChange) + When(shop.billsSince > 0, BillsIssued);
    if scheme == Composition && input.category.None? then Refused(UnknownCategory)
    else
      var rated := if scheme == Composition then RateAndBasis(input, input.category.value, day) else Ok((None, None));
      if rated.Refused? then Refused(rated.why)
      else
        var (rate, basis) := rated.value;
        var category := if scheme == Composition then input.category else None;
        var own :=
          if scheme == Composition then JoinBlockers(input, shop, category.value, rate, basis)
            else When(noted.current != Composition, NothingToLeave);
        var settled :=
          if basis == Some(SuggestedUnverified) && input.rateConfirmed then Some(BusinessDeclared) else basis;
        var change := Change(input.requestId, scheme, day, category, rate, settled, input.newlyRegistered,
          shop.declaredBy, shop.today, input.note);
        var blockers := early + own + When(SameTerms(history, noted.current, change), AlreadyOnTheseTerms);
        Ok(Preview(change, blockers, if blockers == [] then Some(TokenOf(change, |history|)) else None))
  }

  /**
   * `tokenOf` digests everything but the day of declaring, and how many entries there are; a digest is taken to be
   * injective.
   */
  function TokenOf(change: Change, entries: nat): Token { Token(change.(declaredOn := 0), entries) }

  // ------------------------------------------------------------------ a press, split where it waits

  datatype Applied = Applied(change: Change, deduplicated: bool)

  datatype Press = Waiting(input: Input)
    | Asked(input: Input, scheme: Kind, day: Day, noted: Noted)
    | Previewed(input: Input, preview: Preview, seen: nat)
    | Done(answer: Result<Applied, SchemeError>)

  function ByRequest(history: History, requestId: string): Option<Change> {
    if history == [] then None
    else if history[0].requestId == requestId then Some(history[0]) else ByRequest(history[1..], requestId)
  }

  /** Up to the wait for the bills. */
  function Begin(history: History, input: Input): Press {
    if input.requestId == "" then Done(Refused(RequestIdMissing))
    else if ByRequest(history, input.requestId).Some? then
      Done(Ok(Applied(ByRequest(history, input.requestId).value, true)))
    else if input.scheme.None? then Done(Refused(UnknownScheme))
    else if input.effectiveFrom.None? then Done(Refused(UnknownDate))
    else Asked(input, input.scheme.value, input.effectiveFrom.value, NoteDown(history, input.effectiveFrom.value))
  }

  /** From the bills' answer to the end of the preview, which is itself awaited. */
  function Consider(history: History, press: Press, shop: Shop): Press
    requires press.Asked?
  {
    match PreviewOf(history, press.input, press.scheme, press.day, press.noted, shop)
    case Refused(why) => Done(Refused(why))
    case Ok(preview) => Previewed(press.input, preview, press.noted.entries)
  }

  /** From the preview to the write, without a wait. */
  function Finish(history: History, press: Press): (History, Result<Applied, SchemeError>)
    requires press.Previewed?
  {
    var (input, preview) := (press.input, press.preview);
    if ByRequest(history, input.requestId).Some? then
      (history, Ok(Applied(ByRequest(history, input.requestId).value, true)))
    else if preview.blockers != [] || preview.token.None? then (history, Refused(NotAllowed(preview.blockers)))
    else if input.token.None? then (history, Refused(NotPreviewed))
    else if input.token != preview.token then (history, Refused(ChangedSincePreview))
    else if history != [] && history[|history| - 1].effectiveFrom >= preview.change.effectiveFrom then
      (history, Refused(ChangedSincePreview))
    else (history + [preview.change], Ok(Applied(preview.change, false)))
  }

  // ------------------------------------------------------------------ any interleaving

  /** Any number of presses over one history. */
  datatype World = World(history: History, presses: seq<Press>)

  datatype Event = NewPress(input: Input) | Go(press: nat, shop: Shop)

  /** One press moves on by one stretch between two waits; a finished one stays. */
  function After(w: World, event: Event): World {
    match event
    case NewPress(input) => w.(presses := w.presses + [Waiting(input)])
    case Go(i, shop) =>
      if i >= |w.presses| then w
      else
        match w.presses[i]
        case Waiting(input) => w.(presses := w.presses[i := Begin(w.history, input)])
        case Asked(_, _, _, _) => w.(presses := w.presses[i := Consider(w.history, w.presses[i], shop)])
        case Previewed(_, _, _) =>
          var (history, answer) := Finish(w.history, w.presses[i]);
          World(history, w.presses[i := Done(answer)])
        case Done(_) => w
  }

  function RunOf(w: World, events: seq<Event>): World {
    if events == [] then w else After(RunOf(w, events[..|events| - 1]), events[|events| - 1])
  }

  /** A composition change carries its category and a rate the levy can halve; a regular one carries neither. */
  predicate WellTermed(change: Change) {
    match change.scheme
    case Composition => change.category.Some? && change.rate.Some? && 0 < change.rate.value <= 1000
      && change.rate.value % 2 == 0 &&
                        change.basis == Some(BusinessDeclared)
    case Regular => change.category.None? && change.rate.None? && change.basis.None?
  }

  ghost predicate GoodHistory(history: History) {
    && (forall i :: 0 <= i < |history| ==> WellTermed(history[i]) && history[i].requestId != "")
    && (forall i, j :: 0 <= i < j < |history| ==> history[i].effectiveFrom < history[j].effectiveFrom)
    && (forall i, j :: 0 <= i < j < |history| ==> history[i].requestId != history[j].requestId)
  }

  /** A press that may still write holds a change on good terms, under its own request id. */
  ghost predicate GoodPress(press: Press) {
    && (press.Asked? ==> press.input.requestId != "")
    && (press.Previewed? ==> press.input.requestId != "" && press.preview.change.requestId == press.input.requestId &&
                             (press.preview.blockers == [] ==> WellTermed(press.preview.change)))
  }

  ghost predicate GoodWorld(w: World) {
    GoodHistory(w.history) && forall i :: 0 <= i < |w.presses| ==> GoodPress(w.presses[i])
  }

  lemma {:induction false} ByRequestFinds(history: History, requestId: string)
    ensures match ByRequest(history, requestId)
      case None => forall i :: 0 <= i < |history| ==> history[i].requestId != requestId
      case Some(change) => change in history && change.requestId == requestId
  {
    if history != [] { ByRequestFinds(history[1..], requestId); }
  }

  lemma PreviewIsWellTermed(history: History, press: Press, shop: Shop)
    requires press.Asked? && GoodPress(press)
    ensures GoodPress(Consider(history, press, shop))
  {}

  lemma FinishKeepsHistory(history: History, press: Press)
    requires press.Previewed? && GoodPress(press) && GoodHistory(history)
    ensures GoodHistory(Finish(history, press).0) && history <= Finish(history, press).0
  {
    ByRequestFinds(history, press.input.requestId);
    var after := Finish(history, press).0;
    if after != history {
      forall i, j | 0 <= i < j < |after|
        ensures after[i].effectiveFrom < after[j].effectiveFrom && after[i].requestId != after[j].requestId
      {
        if j == |history| && i < |history| - 1 {
          assert history[i].effectiveFrom < history[|history| - 1].effectiveFrom;
        }
      }
    }
  }

  /**
   * However presses overlap, however often one is repeated and whatever the shop answers meanwhile: the
   * history only grows at its end, its dates strictly increase, no request id is in it twice, and every
   * composition entry has its category and a rate that halves.
   */
  lemma {:induction false} HistoryOnlyGrows(w: World, events: seq<Event>)
    requires GoodWorld(w)
    ensures GoodWorld(RunOf(w, events)) && w.history <= RunOf(w, events).history
  {
    if events != [] {
      var before := RunOf(w, events[..|events| - 1]);
      HistoryOnlyGrows(w, events[..|events| - 1]);
      match events[|events| - 1]
      case NewPress(input) =>
      case Go(i, shop) =>
        if i < |before.presses| {
          assert GoodPress(before.presses[i]);
          if before.presses[i].Asked? { PreviewIsWellTermed(before.history, before.presses[i], shop); }
          if before.presses[i].Previewed? { FinishKeepsHistory(before.history, before.presses[i]); }
        }
    }
  }

  /** In a good history a day has a composition rate exactly when the business is on the scheme that day. */
  lemma RateExactlyOnScheme(history: History, day: Day)
    requires GoodHistory(history)
    ensures RateOn(history, day).Some? <==> SchemeOn(history, day) == Composition
  {
    ChangeOnIsLast(history, day);
  }

  /** A good history is what its dates say: the change in force is the one with the latest start up to the day. */
  lemma InForceIsLatest(history: History, day: Day, change: Change)
    requires GoodHistory(history)
    ensures ChangeOn(history, day) == Some(change) <==>
            change in history && change.effectiveFrom <= day && forall other <- history ::
              other.effectiveFrom <= day ==> other.effectiveFrom <= change.effectiveFrom
  {
    ChangeOnIsLast(history, day);
    if change in history && change.effectiveFrom <= day && forall other <- history :: other.effectiveFrom <= day ==>
      other.effectiveFrom <= change.effectiveFrom {
      var i :| 0 <= i < |history| && history[i] == change;
      forall j | i < j < |history| ensures history[j].effectiveFrom > day { assert history[j] in history; }
      LastIsChangeOn(history, day, i);
    }
    if ChangeOn(history, day) == Some(change) {
      var i :| 0 <= i < |history| && history[i] == change && forall j :: i < j < |history| ==>
        history[j].effectiveFrom > day;
      forall other | other in history && other.effectiveFrom <= day
        ensures other.effectiveFrom <= change.effectiveFrom
      {
        var k :| 0 <= k < |history| && history[k] == other;
      }
    }
  }

  /** And the scheme and the rate of a day are what that change declared. */
  lemma RateIsDeclared(history: History, day: Day, change: Change)
    requires GoodHistory(history) && change in history && change.effectiveFrom <= day
    requires forall other <- history :: other.effectiveFrom <= day ==> other.effectiveFrom <= change.effectiveFrom
    ensures SchemeOn(history, day) == change.scheme
    ensures change.scheme == Regular ==> RateOn(history, day).None?
    ensures change.scheme == Composition ==>
              var rate := RateOn(history, day);
              rate.Some? && change.rate == Some(rate.value.basisPoints) && change.category == Some(rate.value.category)
  {
    InForceIsLatest(history, day, change);
    var k :| 0 <= k < |history| && history[k] == change;
    assert WellTermed(history[k]);
  }

  // ------------------------------------------------------------------ changes that change nothing

  predicate SameTermsAs(entry: Change, change: Change) {
    entry.scheme == change.scheme && entry.category == change.category && entry.rate == change.rate
  }

  /** On its own date the change's scheme and terms are in force already. */
  predicate Repeats(history: History, change: Change) {
    match ChangeOn(history, change.effectiveFrom)
    case None => change.scheme == Regular
    case Some(inForce) => SameTermsAs(inForce, change)
  }

  /** What a press knows of the history as it is now: while nothing was written since it began, it repeats nothing. */
  ghost predicate Informed(history: History, press: Press) {
    && (press.Asked? ==>
          && press.noted.entries <= |history| && press.input.effectiveFrom == Some(press.day)
          && press.noted == NoteDown(history[..press.noted.entries], press.day))
    && (press.Previewed? ==>
          && press.seen <= |history|
          && (press.preview.blockers == [] && press.seen == |history| ==> !Repeats(history, press.preview.change)))
  }

  ghost predicate AllInformed(w: World) { forall i :: 0 <= i < |w.presses| ==> Informed(w.history, w.presses[i]) }

  lemma BeginInforms(history: History, input: Input)
    ensures Informed(history, Begin(history, input))
  {
    assert history[..|history|] == history;
  }

  lemma ConsiderInforms(history: History, press: Press, shop: Shop)
    requires press.Asked? && Informed(history, press) && GoodHistory(history) && GoodPress(press)
    ensures Informed(history, Consider(history, press, shop))
  {
    PreviewIsWellTermed(history, press, shop);
    var considered := Consider(history, press, shop);
    if considered.Previewed? && considered.preview.blockers == [] && considered.seen == |history| {
      assert history[..|history|] == history;
      ChangeOnIsLast(history, press.day);
      BlockersOf(history, press, shop);
    }
  }

  /** A preview without blockers was not found to be on the terms in force, or to leave what is not there. */
  lemma BlockersOf(history: History, press: Press, shop: Shop)
    requires press.Asked? && Consider(history, press, shop).Previewed?
      && Consider(history, press, shop).preview.blockers == []
    ensures var change := Consider(history, press, shop).preview.change;
      && change.effectiveFrom == press.day && change.scheme == press.scheme
      && !SameTerms(history, press.noted.current, change)
        && (change.scheme == Regular ==> press.noted.current == Composition)
  {}

  lemma GrowthInforms(history: History, after: History, press: Press)
    requires Informed(history, press) && history <= after
    ensures Informed(after, press)
  {
    if press.Asked? { assert history[..press.noted.entries] == after[..press.noted.entries]; }
    assert |after| == |history| ==> after == history;
  }

  lemma StepInforms(w: World, event: Event)
    requires GoodWorld(w) && AllInformed(w)
    ensures AllInformed(After(w, event))
  {
    var after := After(w, event);
    if event.Go? && event.press < |w.presses| {
      var (i, press) := (event.press, w.presses[event.press]);
      assert GoodPress(press) && Informed(w.history, press);
      if press.Waiting? { BeginInforms(w.history, press.input); }
      if press.Asked? { ConsiderInforms(w.history, press, event.shop); }
      if press.Previewed? { FinishKeepsHistory(w.history, press); }
    }
    forall k | 0 <= k < |after.presses| ensures Informed(after.history, after.presses[k]) {
      if k < |w.presses| && after.presses[k] == w.presses[k] { GrowthInforms(w.history, after.history, w.presses[k]); }
    }
  }

  lemma {:induction false} RunInforms(w: World, events: seq<Event>)
    requires GoodWorld(w) && AllInformed(w)
    ensures GoodWorld(RunOf(w, events)) && AllInformed(RunOf(w, events))
  {
    HistoryOnlyGrows(w, events);
    if events != [] {
      RunInforms(w, events[..|events| - 1]);
      StepInforms(RunOf(w, events[..|events| - 1]), events[|events| - 1]);
    }
  }

  /**
   * One write, in any world a run leads to: it repeats what is in force exactly when the last entry has its scheme
   * and terms, and then something was written since the press began.
   */
  lemma WriteRepeatsIff(w: World, i: nat)
    requires GoodWorld(w) && AllInformed(w) && i < |w.presses| && w.presses[i].Previewed?
    requires Finish(w.history, w.presses[i]).0 != w.history
    ensures var change := w.presses[i].preview.change;
      && Finish(w.history, w.presses[i]).0 == w.history + [change]
      && (Repeats(w.history, change) <==> w.history != [] && SameTermsAs(w.history[|w.history| - 1], change))
      && (Repeats(w.history, change) ==> w.presses[i].seen < |w.history|)
  {
    assert Informed(w.history, w.presses[i]);
    if w.history == [] { assert !Repeats(w.history, w.presses[i].preview.change); }
  }

  /** Every press there is waits to begin or is done. */
  ghost predicate NoneUnderWay(w: World) {
    forall k :: 0 <= k < |w.presses| ==> w.presses[k].Waiting? || w.presses[k].Done?
  }

  /** A press that has begun began at some event, with as many entries as it noted. */
  lemma {:induction false} BeganAt(w: World, events: seq<Event>, i: nat) returns (b: nat)
    requires NoneUnderWay(w)
    requires Begun(RunOf(w, events), i)
    ensures b < |events| && events[b].Go? && events[b].press == i
    ensures |RunOf(w, events[..b]).history| == SeenBy(RunOf(w, events), i)
  {
    var front := events[..|events| - 1];
    StepOfBegun(RunOf(w, front), events[|events| - 1], i);
    if Begun(RunOf(w, front), i) {
      b := BeganAt(w, front, i);
      assert front[..b] == events[..b];
    } else {
      b := |events| - 1;
    }
  }

  predicate Begun(w: World, i: nat) { i < |w.presses| && (w.presses[i].Asked? || w.presses[i].Previewed?) }

  function SeenBy(w: World, i: nat): nat
    requires Begun(w, i)
  {
    if w.presses[i].Asked? then w.presses[i].noted.entries else w.presses[i].seen
  }

  /** A press under way was so before, knowing as much; or it has just begun. */
  lemma StepOfBegun(w: World, event: Event, i: nat)
    requires Begun(After(w, event), i)
    ensures if Begun(w, i) then SeenBy(After(w, event), i) == SeenBy(w, i)
            else event.Go? && event.press == i && SeenBy(After(w, event), i) == |w.history|
  {}

  /** Where the first and the last of a list differ, two neighbours do. */
  lemma {:induction false} NeighboursDiffer(histories: seq<History>, b: nat) returns (m: nat)
    requires b < |histories| && histories[b] != histories[|histories| - 1]
    ensures b <= m < |histories| - 1 && histories[m] != histories[m + 1]
    decreases |histories| - b
  {
    m := b;
    if histories[b] == histories[b + 1] { m := NeighboursDiffer(histories, b + 1); }
  }

  /** A press under way at the end was never done. */
  lemma {:induction false} WasUnderWay(w: World, events: seq<Event>, i: nat, k: nat)
    requires k <= |events| && UnderWay(RunOf(w, events), i)
    ensures UnderWay(RunOf(w, events[..k]), i)
  {
    if k < |events| {
      var front := events[..|events| - 1];
      WriterIsDone(RunOf(w, front), events[|events| - 1], i);
      WasUnderWay(w, front, i, k);
      assert front[..k] == events[..k];
    } else {
      assert events[..k] == events;
    }
  }

  lemma GrewAt(w: World, events: seq<Event>, b: nat) returns (m: nat)
    requires b <= |events| && RunOf(w, events[..b]).history != RunOf(w, events).history
    ensures b <= m < |events| && RunOf(w, events[..m + 1]).history != RunOf(w, events[..m]).history
  {
    var histories := seq(|events| + 1, k requires 0 <= k <= |events| => RunOf(w, events[..k]).history);
    assert events[..|events|] == events;
    m := NeighboursDiffer(histories, b);
  }

  /** Where the history grew, some press other than one still under way wrote. */
  lemma SomeoneWrote(w: World, events: seq<Event>, b: nat, i: nat) returns (m: nat)
    requires b <= |events| && RunOf(w, events[..b]).history != RunOf(w, events).history
    requires UnderWay(RunOf(w, events), i)
    ensures b <= m < |events| && events[m].Go? && events[m].press != i
    ensures RunOf(w, events[..m + 1]).history != RunOf(w, events[..m]).history
  {
    m := GrewAt(w, events, b);
    WasUnderWay(w, events, i, m + 1);
    RunStep(w, events, m);
    WriterIsDone(RunOf(w, events[..m]), events[m], i);
  }

  predicate UnderWay(w: World, i: nat) { i < |w.presses| ==> !w.presses[i].Done? }

  /** A press that writes is done by it, and a press that is done stays so. */
  lemma WriterIsDone(w: World, event: Event, i: nat)
    requires UnderWay(After(w, event), i)
    ensures UnderWay(w, i) && (After(w, event).history != w.history ==> event.Go? && event.press != i)
  {}

  /**
   * Over any interleaving of any number of presses: an entry that is written repeats the scheme and terms in force
   * exactly when the last entry then has them; and that takes another press, which wrote after this one had begun.
   */
  lemma RepeatNeedsOverlap(w: World, events: seq<Event>, i: nat, shop: Shop)
    requires GoodWorld(w) && NoneUnderWay(w)
    requires var before := RunOf(w, events); After(before, Go(i, shop)).history != before.history
    ensures var (before, after) := (RunOf(w, events), After(RunOf(w, events), Go(i, shop)));
      var change := after.history[|after.history| - 1];
      && after.history == before.history + [change]
      && (Repeats(before.history, change) <==>
            before.history != [] && SameTermsAs(before.history[|before.history| - 1], change))
      && (Repeats(before.history, change) ==> OtherWroteMeanwhile(w, events, i))
  {
    var before := RunOf(w, events);
    RunInforms(w, events);
    WriteRepeatsIff(before, i);
    if Repeats(before.history, before.presses[i].preview.change) {
      var b := BeganAt(w, events, i);
      var m := SomeoneWrote(w, events, b, i);
      assert m != b;
    }
  }

  /** Press `i` began, and after that another press wrote. */
  ghost predicate OtherWroteMeanwhile(w: World, events: seq<Event>, i: nat) {
    exists b, m :: 0 <= b < m < |events| && events[b].Go? && events[b].press == i && events[m].Go?
      && events[m].press != i
      && RunOf(w, events[..m + 1]).history != RunOf(w, events[..m]).history
  }

  /** What a press works out with nothing in between. */
  predicate PreviewsAs(history: History, input: Input, shop: Shop, change: Change) {
    && Begin(history, input).Asked?
    && Consider(history, Begin(history, input), shop) ==
         Previewed(input, Preview(change, [], Some(TokenOf(change, |history|))), |history|)
    && input.token == Some(TokenOf(change, |history|))
  }

  /**
   * And any two presses that are previewed on one history and would each be applied alone are both applied when they
   * overlap, the earlier date written first — on the same terms too, and then the second entry changes nothing.
   */
  lemma OverlapWritesBoth(history: History, shop: Shop, first: Input, second: Input, a: Change, b: Change)
    requires PreviewsAs(history, first, shop, a) && PreviewsAs(history, second, shop, b)
    requires history != [] ==> history[|history| - 1].effectiveFrom < a.effectiveFrom
    requires a.effectiveFrom < b.effectiveFrom && first.requestId != second.requestId
    ensures RunOf(World(history, [Waiting(first), Waiting(second)]), InTurn(shop)).history == history + [a, b]
    ensures Repeats(history + [a], b) <==> SameTermsAs(a, b)
  {
    var w := World(history, [Waiting(first), Waiting(second)]);
    var (p, q) := (Begin(history, first), Begin(history, second));
    var (p', q') := (Consider(history, p, shop), Consider(history, q, shop));
    BothFinish(history, first, second, a, b);
    InTurnIs(w, shop);
    SixSteps(history, shop, first, second, p, q, p', q', history + [a], history + [a] + [b], a, b);
    assert history + [a] + [b] == history + [a, b];
  }

  lemma BothFinish(history: History, first: Input, second: Input, a: Change, b: Change)
    requires ByRequest(history, first.requestId).None? && ByRequest(history, second.requestId).None?
    requires a.requestId == first.requestId != second.requestId
    requires history != [] ==> history[|history| - 1].effectiveFrom < a.effectiveFrom
    requires a.effectiveFrom < b.effectiveFrom
    requires first.token == Some(TokenOf(a, |history|)) && second.token == Some(TokenOf(b, |history|))
    ensures Finish(history, Previewed(first, Preview(a, [], first.token), |history|)) ==
      (history + [a], Ok(Applied(a, false)))
    ensures Finish(history + [a], Previewed(second, Preview(b, [], second.token), |history|)) ==
            (history + [a] + [b], Ok(Applied(b, false)))
  {
    ByRequestAppended(history, a, second.requestId);
  }

  lemma InTurnIs(w: World, shop: Shop)
    ensures RunOf(w, InTurn(shop)) ==
      After(After(After(After(After(After(w, Go(0, shop)), Go(1, shop)), Go(0, shop)), Go(1, shop)), Go(0, shop)),
        Go(1, shop))
  {
    var go := InTurn(shop);
    forall k | 0 <= k < 6 ensures RunOf(w, go[..k + 1]) == After(RunOf(w, go[..k]), go[k]) { RunStep(w, go, k); }
    assert RunOf(w, go[..0]) == w && go[..6] == go;
    assert RunOf(w, go[..0 + 1]) == After(w, go[0]);
    assert RunOf(w, go[..1 + 1]) == After(RunOf(w, go[..1]), go[1]);
    assert RunOf(w, go[..2 + 1]) == After(RunOf(w, go[..2]), go[2]);
    assert RunOf(w, go[..3 + 1]) == After(RunOf(w, go[..3]), go[3]);
    assert RunOf(w, go[..4 + 1]) == After(RunOf(w, go[..4]), go[4]);
    assert RunOf(w, go[..5 + 1]) == After(RunOf(w, go[..5]), go[5]);
  }

  lemma RunStep(w: World, events: seq<Event>, k: nat)
    requires k < |events|
    ensures RunOf(w, events[..k + 1]) == After(RunOf(w, events[..k]), events[k])
  {
    assert events[..k + 1][..k] == events[..k];
  }

  lemma SixSteps(history: History, shop: Shop, first: Input, second: Input, p: Press, q: Press, p': Press, q': Press,
                 history': History, history'': History, a: Change, b: Change)
    requires p.Asked? && q.Asked? && p'.Previewed? && q'.Previewed?
    requires Begin(history, first) == p && Begin(history, second) == q
    requires Consider(history, p, shop) == p' && Consider(history, q, shop) == q'
    requires Finish(history, p') == (history', Ok(Applied(a, false)))
    requires Finish(history', q') == (history'', Ok(Applied(b, false)))
    ensures var w := World(history, [Waiting(first), Waiting(second)]);
      After(After(After(After(After(After(w, Go(0, shop)), Go(1, shop)), Go(0, shop)), Go(1, shop)), Go(0, shop)),
        Go(1, shop)).history
      == history''
  {
    var w := World(history, [Waiting(first), Waiting(second)]);
    var w1 := After(w, Go(0, shop));
    assert w1 == World(history, [p, Waiting(second)]);
    var w2 := After(w1, Go(1, shop));
    assert w2 == World(history, [p, q]);
    var w3 := After(w2, Go(0, shop));
    assert w3 == World(history, [p', q]);
    var w4 := After(w3, Go(1, shop));
    assert w4 == World(history, [p', q']);
    var w5 := After(w4, Go(0, shop));
    assert w5 == World(history', [Done(Ok(Applied(a, false))), q']);
  }

  /** Each press begins, then each is previewed, then each writes. */
  function InTurn(shop: Shop): seq<Event>
  {
    [Go(0, shop), Go(1, shop), Go(0, shop), Go(1, shop), Go(0, shop), Go(1, shop)]
  }

  lemma {:induction false} ByRequestAppended(history: History, change: Change, requestId: string)
    ensures ByRequest(history + [change], requestId) ==
            if ByRequest(history, requestId).Some? then ByRequest(history, requestId)
            else if change.requestId == requestId then Some(change) else None
  {
    if history == [] {
      assert [change][1..] == [] && history + [change] == [change];
    } else {
      assert (history + [change])[1..] == history[1..] + [change];
      ByRequestAppended(history[1..], change, requestId);
    }
  }

  /** Two overlapping presses to leave the scheme leave two regular entries. */
  lemma LeavingTwice(joined: Change, shop: Shop, first: Input, second: Input)
    requires joined.scheme == Composition && shop.billsSince == 0 && first.requestId != second.requestId
    requires Leaves(joined, shop, first) && Leaves(joined, shop, second)
      && first.effectiveFrom.value < second.effectiveFrom.value
    ensures var (a, b) := (Leaving(first, shop), Leaving(second, shop));
      && RunOf(World([joined], [Waiting(first), Waiting(second)]), InTurn(shop)).history == [joined, a, b]
      && Repeats([joined, a], b)
  {
    LeavingIsPreviewed(joined, shop, first);
    LeavingIsPreviewed(joined, shop, second);
    OverlapWritesBoth([joined], shop, first, second, Leaving(first, shop), Leaving(second, shop));
    assert [joined] + [Leaving(first, shop)] == [joined, Leaving(first, shop)];
  }

  predicate Leaves(joined: Change, shop: Shop, input: Input) {
    && input.scheme == Some(Regular) && input.effectiveFrom.Some? && joined.effectiveFrom < input.effectiveFrom.value
    && input.requestId != joined.requestId && input.requestId != ""
      && input.token == Some(TokenOf(Leaving(input, shop), 1))
  }

  function Leaving(input: Input, shop: Shop): Change
    requires input.effectiveFrom.Some?
  {
    Change(input.requestId, Regular, input.effectiveFrom.value, None, None, None, input.newlyRegistered,
      shop.declaredBy, shop.today, input.note)
  }

  lemma LeavingIsPreviewed(joined: Change, shop: Shop, input: Input)
    requires joined.scheme == Composition && shop.billsSince == 0 && Leaves(joined, shop, input)
    ensures PreviewsAs([joined], input, shop, Leaving(input, shop))
  {
    assert [joined][1..] == [];
    assert ByRequest([joined], input.requestId).None?;
    var blockers := When(false, NotAfterLastChange) + When(false, BillsIssued) + When(false, NothingToLeave) +
      When(false, AlreadyOnTheseTerms);
    assert blockers == [];
  }

  /** Two overlapping presses to join on the same terms leave two composition entries alike. */
  lemma JoiningTwice(shop: Shop, first: Input, second: Input, category: Category, rate: nat)
    requires shop.billsSince == 0 && (category == ServicesOnly ==> shop.goodsItems == 0)
      && first.requestId != second.requestId
    requires Joins(shop, first, category, rate) && Joins(shop, second, category, rate)
    requires first.effectiveFrom.value < second.effectiveFrom.value
    ensures var (a, b) := (Joining(first, shop, rate), Joining(second, shop, rate));
      && RunOf(World([], [Waiting(first), Waiting(second)]), InTurn(shop)).history == [a, b]
      && Repeats([a], b)
  {
    JoiningIsPreviewed(shop, first, category, rate);
    JoiningIsPreviewed(shop, second, category, rate);
    OverlapWritesBoth([], shop, first, second, Joining(first, shop, rate), Joining(second, shop, rate));
    assert [] + [Joining(first, shop, rate)] == [Joining(first, shop, rate)];
  }

  predicate Joins(shop: Shop, input: Input, category: Category, rate: nat) {
    && input.scheme == Some(Composition) && input.effectiveFrom.Some? && input.category == Some(category)
    && input.newlyRegistered && input.withinLimit && input.noInterState && input.noEcommerce
    && input.ratePercent != "" && TypedRate(input.ratePercent) == Some(rate)
    && input.requestId != "" && input.token == Some(TokenOf(Joining(input, shop, rate), 0))
  }

  function Joining(input: Input, shop: Shop, rate: nat): Change
    requires input.effectiveFrom.Some?
  {
    Change(input.requestId, Composition, input.effectiveFrom.value, input.category, Some(rate), Some(BusinessDeclared),
           input.newlyRegistered, shop.declaredBy, shop.today, input.note)
  }

  lemma JoiningIsPreviewed(shop: Shop, input: Input, category: Category, rate: nat)
    requires shop.billsSince == 0 && (category == ServicesOnly ==> shop.goodsItems == 0)
      && Joins(shop, input, category, rate)
    ensures PreviewsAs([], input, shop, Joining(input, shop, rate))
  {
    assert JoinBlockers(input, shop, category, Some(rate), Some(BusinessDeclared)) == [];
  }

  // ------------------------------------------------------------------ which presses write

  /** A rate that is suggested can be charged in two halves: 1%, 5% or 6%, from the day the law had one. */
  lemma SuggestedRateHalves(category: Category, day: Day)
    ensures var rate := SuggestedRate(category, day);
      && (rate.Some? ==> 0 < rate.value <= 1000 && rate.value % 2 == 0)
      && (rate.None? <==> day < 17348 || (category == ServicesOnly && day < 17987))
      && (rate.Some? ==> match category
                         case ManufacturerOrTrader => rate.value == 100
                         case Restaurant => rate.value == 500
                         case ServicesOnly => rate.value == 600)
  {}

  /** The rate a person stands behind: the one typed, or the usual one once confirmed. */
  function RateStoodBehind(input: Input, category: Category, day: Day): Option<nat> {
    if input.ratePercent != "" then TypedRate(input.ratePercent)
    else if input.rateConfirmed then SuggestedRate(category, day)
    else None
  }

  /** All that a business must be, keep and confirm to join the composition scheme from the day. */
  predicate MayJoin(input: Input, shop: Shop, day: Day) {
    && (shop.startsFinancialYear || input.newlyRegistered)
    && input.withinLimit && input.noInterState && input.noEcommerce
    && input.category.Some?
    && (input.category == Some(ServicesOnly) ==> shop.goodsItems == 0)
    && RateStoodBehind(input, input.category.value, day).Some?
  }

  /** The entry a press asks for. */
  function Wanted(input: Input, shop: Shop): Change
    requires input.effectiveFrom.Some?
    requires input.scheme == Some(Composition) ==> input.category.Some?
  {
    var day := input.effectiveFrom.value;
    if input.scheme == Some(Composition) then
      Change(input.requestId, Composition, day, input.category, RateStoodBehind(input, input.category.value, day),
        Some(BusinessDeclared), input.newlyRegistered, shop.declaredBy, shop.today, input.note)
    else
      Change(input.requestId, Regular, day, None, None, None, input.newlyRegistered, shop.declaredBy, shop.today,
        input.note)
  }

  /** On the scheme after all its entries so far. */
  predicate OnScheme(history: History) { history != [] && history[|history| - 1].scheme == Composition }

  /** One leaves what one is on, and joins what one is not on already on the same terms. */
  predicate ChangesTerms(asBegun: History, asSeen: History, change: Change) {
    match change.scheme
    case Regular => OnScheme(asBegun)
    case Composition =>
      OnScheme(asBegun) && asSeen != [] ==>
        asSeen[|asSeen| - 1].category != change.category || asSeen[|asSeen| - 1].rate != change.rate
  }

  /**
   * A press that began when the history was `asBegun` and was previewed when it was `asSeen` may be written now: it
   * is new, starts after every entry, no bill was made since, its own conditions hold, and it is what was confirmed.
   */
  predicate MayWrite(asBegun: History, asSeen: History, now: History, input: Input, shop: Shop) {
    && input.requestId != "" && (forall entry <- now :: entry.requestId != input.requestId)
    && input.scheme.Some? && input.effectiveFrom.Some?
    && (forall entry <- now :: entry.effectiveFrom < input.effectiveFrom.value)
    && shop.billsSince == 0
    && (input.scheme == Some(Composition) ==> MayJoin(input, shop, input.effectiveFrom.value))
    && ChangesTerms(asBegun, asSeen, Wanted(input, shop))
    && input.token == Some(TokenOf(Wanted(input, shop), |asSeen|))
  }

  /** The three stretches of one press, each over the history it then finds. */
  function Pressed(asBegun: History, asSeen: History, now: History, input: Input, shop: Shop): History {
    var begun := Begin(asBegun, input);
    if !begun.Asked? then now
    else
      var considered := Consider(asSeen, begun, shop);
      if considered.Previewed? then Finish(now, considered).0 else now
  }

  lemma DatesAreEarlier(history: History, day: Day)
    requires GoodHistory(history)
    ensures (history == [] || history[|history| - 1].effectiveFrom < day) <==>
            forall entry <- history :: entry.effectiveFrom < day
  {
    if history != [] {
      assert history[|history| - 1] in history;
      forall entry | entry in history ensures entry.effectiveFrom <= history[|history| - 1].effectiveFrom {
        var k :| 0 <= k < |history| && history[k] == entry;
      }
    }
  }

  lemma UsedIsFound(history: History, requestId: string)
    ensures ByRequest(history, requestId).None? <==> forall entry <- history :: entry.requestId != requestId
  {
    ByRequestFinds(history, requestId);
  }

  /** What a preview finds nothing against. */
  lemma PreviewIsClear(asBegun: History, asSeen: History, input: Input, shop: Shop)
    requires input.scheme.Some? && input.effectiveFrom.Some?
    requires var day := input.effectiveFrom.value;
      && (forall entry <- asBegun :: entry.effectiveFrom < day) && (forall entry <- asSeen :: entry.effectiveFrom < day)
    requires asBegun != [] ==> asSeen != []
    ensures var (scheme, day) := (input.scheme.value, input.effectiveFrom.value);
      var previewed := PreviewOf(asSeen, input, scheme, day, NoteDown(asBegun, day), shop);
      (previewed.Ok? && previewed.value.blockers == []) <==>
        && shop.billsSince == 0
        && (scheme == Composition ==> MayJoin(input, shop, day))
        && ChangesTerms(asBegun, asSeen, Wanted(input, shop))
  {
  }

  /** A clear preview is of the entry asked for, with its token. */
  lemma PreviewIsWanted(asBegun: History, asSeen: History, input: Input, shop: Shop)
    requires input.scheme.Some? && input.effectiveFrom.Some?
    requires var (scheme, day) := (input.scheme.value, input.effectiveFrom.value);
      var previewed := PreviewOf(asSeen, input, scheme, day, NoteDown(asBegun, day), shop);
      && previewed.Ok? && previewed.value.blockers == []
      && (scheme == Composition ==> MayJoin(input, shop, day))
    ensures var (scheme, day) := (input.scheme.value, input.effectiveFrom.value);
      PreviewOf(asSeen, input, scheme, day, NoteDown(asBegun, day), shop) ==
        Ok(Preview(Wanted(input, shop), [], Some(TokenOf(Wanted(input, shop), |asSeen|))))
  {}

  lemma PrefixOf(history: History, after: History)
    requires history <= after
    ensures forall entry <- history :: entry in after
  {
    forall entry | entry in history ensures entry in after {
      var k :| 0 <= k < |history| && history[k] == entry;
      assert after[k] == entry;
    }
  }

  /** A press is written, as asked for, exactly when it may be; else the history stays as it is. */
  lemma PressedIff(asBegun: History, asSeen: History, now: History, input: Input, shop: Shop)
    requires asBegun <= asSeen <= now && GoodHistory(now)
    ensures Pressed(asBegun, asSeen, now, input, shop) ==
            if MayWrite(asBegun, asSeen, now, input, shop) then now + [Wanted(input, shop)] else now
  {
    PrefixOf(asBegun, now);
    PrefixOf(asSeen, now);
    UsedIsFound(asBegun, input.requestId);
    UsedIsFound(now, input.requestId);
    if input.requestId != "" && (forall entry <- now :: entry.requestId != input.requestId) && input.scheme.Some?
      && input.effectiveFrom.Some?
    {
      FreshPressIff(asBegun, asSeen, now, input, shop);
    }
  }

  /** The preview finds nothing against the press, and is of the entry asked for. */
  predicate IsClear(previewed: Result<Preview, SchemeError>, asSeen: History, wanted: Change) {
    previewed == Ok(Preview(wanted, [], Some(TokenOf(wanted, |asSeen|))))
  }

  lemma ClearIsWanted(asBegun: History, asSeen: History, input: Input, shop: Shop,
                      previewed: Result<Preview, SchemeError>)
    requires input.scheme.Some? && input.effectiveFrom.Some?
    requires var day := input.effectiveFrom.value;
      && (forall entry <- asBegun :: entry.effectiveFrom < day) && (forall entry <- asSeen :: entry.effectiveFrom < day)
      && previewed == PreviewOf(asSeen, input, input.scheme.value, day, NoteDown(asBegun, day), shop)
    requires asBegun != [] ==> asSeen != []
    ensures if MayBePreviewed(asBegun, asSeen, input, shop) then IsClear(previewed, asSeen, Wanted(input, shop))
            else previewed.Ok? ==> previewed.value.blockers != []
  {
    PreviewIsClear(asBegun, asSeen, input, shop);
    if MayBePreviewed(asBegun, asSeen, input, shop) { PreviewIsWanted(asBegun, asSeen, input, shop); }
  }

  /** The conditions of the press itself, its date and request id apart. */
  predicate MayBePreviewed(asBegun: History, asSeen: History, input: Input, shop: Shop)
    requires input.scheme.Some? && input.effectiveFrom.Some?
  {
    && shop.billsSince == 0
    && (input.scheme == Some(Composition) ==> MayJoin(input, shop, input.effectiveFrom.value))
    && ChangesTerms(asBegun, asSeen, Wanted(input, shop))
  }

  lemma EndsAsMayWrite(asBegun: History, asSeen: History, now: History, input: Input, shop: Shop,
                       previewed: Result<Preview, SchemeError>)
    requires input.requestId != "" && input.scheme.Some? && input.effectiveFrom.Some?
    requires forall entry <- now :: entry.requestId != input.requestId
    requires forall entry <- now :: entry.effectiveFrom < input.effectiveFrom.value
    requires if MayBePreviewed(asBegun, asSeen, input, shop) then IsClear(previewed, asSeen, Wanted(input, shop))
             else previewed.Ok? ==> previewed.value.blockers != []
    ensures (if previewed.Ok? && previewed.value.blockers == [] && input.token.Some?
              && input.token == previewed.value.token then now + [previewed.value.change] else now)
      == if MayWrite(asBegun, asSeen, now, input, shop) then now + [Wanted(input, shop)] else now
  {}

  lemma FreshPressIff(asBegun: History, asSeen: History, now: History, input: Input, shop: Shop)
    requires asBegun <= asSeen <= now && GoodHistory(now)
    requires input.requestId != "" && input.scheme.Some? && input.effectiveFrom.Some?
    requires ByRequest(asBegun, input.requestId).None? && ByRequest(now, input.requestId).None?
    requires forall entry <- now :: entry.requestId != input.requestId
    ensures Pressed(asBegun, asSeen, now, input, shop) ==
            if MayWrite(asBegun, asSeen, now, input, shop) then now + [Wanted(input, shop)] else now
  {
    var day := input.effectiveFrom.value;
    DatesAreEarlier(now, day);
    if forall entry <- now :: entry.effectiveFrom < day {
      PrefixOf(asBegun, now);
      PrefixOf(asSeen, now);
      var previewed := PreviewOf(asSeen, input, input.scheme.value, day, NoteDown(asBegun, day), shop);
      ClearIsWanted(asBegun, asSeen, input, shop, previewed);
      FreshPressEnds(asBegun, asSeen, now, input, shop, previewed);
      EndsAsMayWrite(asBegun, asSeen, now, input, shop, previewed);
    } else {
      LateIsRefused(asBegun, asSeen, now, input, shop);
    }
  }

  /** Without a clear preview nothing is written; with one, the token and the date decide. */
  lemma FreshPressEnds(asBegun: History, asSeen: History, now: History, input: Input, shop: Shop,
                       previewed: Result<Preview, SchemeError>)
    requires input.requestId != "" && input.scheme.Some? && input.effectiveFrom.Some?
    requires ByRequest(asBegun, input.requestId).None? && ByRequest(now, input.requestId).None?
    requires var day := input.effectiveFrom.value;
      && previewed == PreviewOf(asSeen, input, input.scheme.value, day, NoteDown(asBegun, day), shop)
      && (now == [] || now[|now| - 1].effectiveFrom < day)
    ensures Pressed(asBegun, asSeen, now, input, shop) ==
            if previewed.Ok? && previewed.value.blockers == [] && input.token.Some?
              && input.token == previewed.value.token then now + [previewed.value.change] else now
  {}

  lemma LateIsRefused(asBegun: History, asSeen: History, now: History, input: Input, shop: Shop)
    requires input.effectiveFrom.Some? && now != [] && now[|now| - 1].effectiveFrom >= input.effectiveFrom.value
    ensures Pressed(asBegun, asSeen, now, input, shop) == now
  {}

  predicate IsTurnOf(event: Event, i: nat) { event.Go? && event.press == i }

  /** The press waits to begin until the event `b`; it has a turn then and at the event `m`, and no other yet. */
  ghost predicate HasHadTwoTurns(w: World, events: seq<Event>, i: nat, b: nat, m: nat) {
    && b < m < |events|
    && i < |RunOf(w, events[..b]).presses| && RunOf(w, events[..b]).presses[i].Waiting?
    && forall k :: b <= k < |events| ==> (IsTurnOf(events[k], i) <==> k == b || k == m)
  }

  lemma OnlyTurnsMove(w: World, event: Event, i: nat)
    requires i < |w.presses| && !IsTurnOf(event, i)
    ensures i < |After(w, event).presses| && After(w, event).presses[i] == w.presses[i]
  {}

  /** A press stands still between its turns. */
  lemma {:induction false} StandsStill(w: World, events: seq<Event>, i: nat, b: nat)
    requires b <= |events| && i < |RunOf(w, events[..b]).presses|
    requires forall k :: b <= k < |events| ==> !IsTurnOf(events[k], i)
    ensures var now := RunOf(w, events); i < |now.presses| && now.presses[i] == RunOf(w, events[..b]).presses[i]
  {
    if b < |events| {
      var front := events[..|events| - 1];
      assert front[..b] == events[..b];
      StandsStill(w, front, i, b);
      OnlyTurnsMove(RunOf(w, front), events[|events| - 1], i);
    } else {
      assert events[..b] == events;
    }
  }

  lemma FirstTurn(w: World, event: Event, i: nat)
    requires IsTurnOf(event, i) && i < |w.presses| && w.presses[i].Waiting?
    ensures i < |After(w, event).presses| && After(w, event).presses[i] == Begin(w.history, w.presses[i].input)
  {}

  lemma SecondTurn(w: World, event: Event, i: nat, begun: Press)
    requires IsTurnOf(event, i) && i < |w.presses| && w.presses[i] == begun && (begun.Asked? || begun.Done?)
    ensures i < |After(w, event).presses|
    ensures After(w, event).presses[i] == if begun.Asked? then Consider(w.history, begun, event.shop) else begun
  {}

  /** From its first turn to its second a press stands as it began. */
  lemma BegunStands(w: World, events: seq<Event>, i: nat, b: nat, m: nat)
    requires HasHadTwoTurns(w, events, i, b, m)
    ensures var (asBegun, asSeen) := (RunOf(w, events[..b]), RunOf(w, events[..m]));
      i < |asSeen.presses| && asSeen.presses[i] == Begin(asBegun.history, asBegun.presses[i].input)
  {
    FirstTurn(RunOf(w, events[..b]), events[b], i);
    RunStep(w, events, b);
    assert events[..m][..b + 1] == events[..b + 1];
    StandsStill(w, events[..m], i, b + 1);
  }

  /** So after two turns it is where its first two stretches took it. */
  lemma TwoTurnsAre(w: World, events: seq<Event>, i: nat, b: nat, m: nat)
    requires HasHadTwoTurns(w, events, i, b, m)
    ensures var (asBegun, asSeen, now) := (RunOf(w, events[..b]), RunOf(w, events[..m]), RunOf(w, events));
      var begun := Begin(asBegun.history, asBegun.presses[i].input);
      && i < |now.presses|
      && now.presses[i] == if begun.Asked? then Consider(asSeen.history, begun, events[m].shop) else begun
  {
    var (asBegun, asSeen) := (RunOf(w, events[..b]), RunOf(w, events[..m]));
    BegunStands(w, events, i, b, m);
    SecondTurn(asSeen, events[m], i, asSeen.presses[i]);
    RunStep(w, events, m);
    StandsStill(w, events, i, m + 1);
  }

  predicate IsAsked(w: World, i: nat) { i < |w.presses| && w.presses[i].Asked? }

  predicate IsPreviewed(w: World, i: nat) { i < |w.presses| && w.presses[i].Previewed? }

  predicate IsWaiting(w: World, i: nat) { i < |w.presses| && w.presses[i].Waiting? }

  /** A press is previewed by a turn, and stays so while it has none. */
  lemma TurnToPreview(w: World, event: Event, i: nat)
    requires IsPreviewed(After(w, event), i)
    ensures if IsTurnOf(event, i) then IsAsked(w, i) else IsPreviewed(w, i)
  {}

  lemma TurnToAsk(w: World, event: Event, i: nat)
    requires IsAsked(After(w, event), i)
    ensures if IsTurnOf(event, i) then IsWaiting(w, i) else IsAsked(w, i)
  {}

  lemma {:induction false} ConsideredAt(w: World, events: seq<Event>, i: nat) returns (m: nat)
    requires NoneUnderWay(w) && IsPreviewed(RunOf(w, events), i)
    ensures m < |events| && IsTurnOf(events[m], i) && IsAsked(RunOf(w, events[..m]), i)
    ensures forall k :: m < k < |events| ==> !IsTurnOf(events[k], i)
  {
    m := |events| - 1;
    var front := events[..m];
    TurnToPreview(RunOf(w, front), events[m], i);
    if !IsTurnOf(events[m], i) {
      m := ConsideredAt(w, front, i);
      assert front[..m] == events[..m];
    }
  }

  lemma {:induction false} BegunAt(w: World, events: seq<Event>, i: nat) returns (b: nat)
    requires NoneUnderWay(w) && IsAsked(RunOf(w, events), i)
    ensures b < |events| && IsTurnOf(events[b], i) && IsWaiting(RunOf(w, events[..b]), i)
    ensures forall k :: b < k < |events| ==> !IsTurnOf(events[k], i)
  {
    b := |events| - 1;
    var front := events[..b];
    TurnToAsk(RunOf(w, front), events[b], i);
    if !IsTurnOf(events[b], i) {
      b := BegunAt(w, front, i);
      assert front[..b] == events[..b];
    }
  }

  /** A press that writes has had two turns before. */
  lemma WriterHadTwoTurns(w: World, events: seq<Event>, i: nat, shop: Shop) returns (b: nat, m: nat)
    requires NoneUnderWay(w)
    requires var before := RunOf(w, events); After(before, Go(i, shop)).history != before.history
    ensures HasHadTwoTurns(w, events, i, b, m)
  {
    m := ConsideredAt(w, events, i);
    b := BegunAt(w, events[..m], i);
    assert events[..m][..b] == events[..b];
    forall k | b <= k < |events| ensures IsTurnOf(events[k], i) <==> k == b || k == m {
      if k < m { assert events[..m][k] == events[k]; }
    }
  }

  lemma {:induction false} EarlierIsAPrefix(w: World, events: seq<Event>, k: nat)
    requires GoodWorld(w) && k <= |events|
    ensures RunOf(w, events[..k]).history <= RunOf(w, events).history
  {
    if k < |events| {
      var front := events[..|events| - 1];
      assert front[..k] == events[..k];
      EarlierIsAPrefix(w, front, k);
      HistoryOnlyGrows(w, front);
      HistoryOnlyGrows(RunOf(w, front), [events[|events| - 1]]);
      assert [events[|events| - 1]][..0] == [];
      assert RunOf(RunOf(w, front), [events[|events| - 1]]) == RunOf(w, events);
    } else {
      assert events[..k] == events;
    }
  }

  /** Whatever else goes on between the turns of a press, its third turn writes it exactly when it may be written. */
  lemma WrittenIff(w: World, events: seq<Event>, i: nat, b: nat, m: nat, shop: Shop)
    requires GoodWorld(w) && HasHadTwoTurns(w, events, i, b, m)
    ensures var (asBegun, asSeen, now) := (RunOf(w, events[..b]), RunOf(w, events[..m]), RunOf(w, events));
      var (input, seen) := (asBegun.presses[i].input, events[m].shop);
      After(now, Go(i, shop)).history ==
      if MayWrite(asBegun.history, asSeen.history, now.history, input, seen) then now.history + [Wanted(input, seen)]
        else now.history
  {
    var (asBegun, asSeen, now) := (RunOf(w, events[..b]), RunOf(w, events[..m]), RunOf(w, events));
    EarlierIsAPrefix(w, events, m);
    assert events[..m][..b] == events[..b];
    EarlierIsAPrefix(w, events[..m], b);
    HistoryOnlyGrows(w, events);
    TwoTurnsAre(w, events, i, b, m);
    PressedIff(asBegun.history, asSeen.history, now.history, asBegun.presses[i].input, events[m].shop);
  }

  /**
   * Over any interleaving of any number of presses, every entry that is written was asked for by a press that might
   * write it: what it must be, keep and confirm held of its own input and of the shop it was previewed with.
   */
  lemma EveryEntryMightBeWritten(w: World, events: seq<Event>, i: nat, shop: Shop) returns (b: nat, m: nat)
    requires GoodWorld(w) && NoneUnderWay(w)
    requires var before := RunOf(w, events); After(before, Go(i, shop)).history != before.history
    ensures HasHadTwoTurns(w, events, i, b, m)
    ensures var (asBegun, asSeen, now) := (RunOf(w, events[..b]), RunOf(w, events[..m]), RunOf(w, events));
      var (input, seen) := (asBegun.presses[i].input, events[m].shop);
      && MayWrite(asBegun.history, asSeen.history, now.history, input, seen)
      && After(now, Go(i, shop)).history == now.history + [Wanted(input, seen)]
  {
    b, m := WriterHadTwoTurns(w, events, i, shop);
    WrittenIff(w, events, i, b, m, shop);
  }

  lemma ApplyIsPressed(history: History, input: Input, shop: Shop)
    ensures var (after, answer) := Apply(history, input, shop);
      && after == Pressed(history, history, history, input, shop)
      && (after != history <==> answer.Ok? && !answer.value.deduplicated)
  {}

  /** And made alone, a press is applied exactly when it may be written to the history it finds. */
  lemma AppliedIff(history: History, input: Input, shop: Shop)
    requires GoodHistory(history)
    ensures var (after, answer) := Apply(history, input, shop);
      && after ==
         (if MayWrite(history, history, history, input, shop) then history + [Wanted(input, shop)] else history)
      && (MayWrite(history, history, history, input, shop) <==> answer.Ok? && !answer.value.deduplicated)
  {
    ApplyIsPressed(history, input, shop);
    PressedIff(history, history, history, input, shop);
  }

  /** A press whose request id was used is answered with the one entry under that id, and writes nothing. */
  lemma RepeatIsAnswered(history: History, input: Input, shop: Shop, k: nat)
    requires GoodHistory(history) && k < |history| && history[k].requestId == input.requestId
    ensures Begin(history, input) == Done(Ok(Applied(history[k], true)))
    ensures Apply(history, input, shop) == (history, Ok(Applied(history[k], true)))
    ensures forall press: Press :: press.Previewed? && press.input == input ==>
              Finish(history, press) == (history, Ok(Applied(history[k], true)))
  {
    ByRequestFinds(history, input.requestId);
    assert history[k] in history;
    var found := ByRequest(history, input.requestId).value;
    var j :| 0 <= j < |history| && history[j] == found;
    assert j == k;
  }

  /** What is typed is read as a rate exactly when it writes one above nothing, at most 10%, in two equal halves. */
  lemma TypedRateIff(percent: string, rate: nat)
    ensures TypedRate(percent) == Some(rate) <==>
            0 < rate <= 1000 && rate % 2 == 0 && MoneyText.IsWritten(percent, Some(2), rate)
  {
    MoneyText.ReadIff(percent, Some(2), rate);
  }

  // ------------------------------------------------------------------ presses made one at a time

  /** A whole press with nothing in between. */
  function Apply(history: History, input: Input, shop: Shop): (History, Result<Applied, SchemeError>) {
    var begun := Begin(history, input);
    if begun.Done? then (history, begun.answer)
    else
      var considered := Consider(history, begun, shop);
      if considered.Done? then (history, considered.answer) else Finish(history, considered)
  }

  /** Made alone, an applied change is what was previewed for this very history, and changes something. */
  lemma AppliedAlone(history: History, input: Input, shop: Shop)
    requires var answer := Apply(history, input, shop).1; answer.Ok? && !answer.value.deduplicated
    ensures var (after, answer) := Apply(history, input, shop);
      var change := answer.value.change;
      && after == history + [change]
      && input.token == Some(TokenOf(change, |history|))
      && shop.billsSince == 0
      && SchemeOn(after, change.effectiveFrom) == change.scheme
      && (SchemeOn(history, change.effectiveFrom) != change.scheme ||
          (change.scheme == Composition
            && RateOn(history, change.effectiveFrom) != RateOn(after, change.effectiveFrom)))
  {
    ChangeOnIsLast(history, input.effectiveFrom.value);
  }

  datatype Bill = Bill(date: Day, scheme: Kind, final: bool)
  datatype Shopkeeping = Shopkeeping(history: History, bills: seq<Bill>)
  datatype Act = Issue(date: Day) | Cancel(bill: nat) | ChangeScheme(input: Input, shop: Shop)

  /** `billsIssuedSince`: final bills dated on or after the day. */
  function BillsSince(bills: seq<Bill>, day: Day): nat {
    if bills == [] then 0
    else
      BillsSince(bills[..|bills| - 1], day) +
      if bills[|bills| - 1].final && bills[|bills| - 1].date >= day then 1 else 0
  }

  /** A bill is made under the scheme of its date; a change sees the bills there are. */
  function Did(s: Shopkeeping, act: Act): Shopkeeping {
    match act
    case Issue(date) => s.(bills := s.bills + [Bill(date, SchemeOn(s.history, date), true)])
    case Cancel(i) => if i < |s.bills| then s.(bills := s.bills[i := s.bills[i].(final := false)]) else s
    case ChangeScheme(input, shop) =>
      var day := match input.effectiveFrom case None => 0 case Some(day) => day;
      s.(history := Apply(s.history, input, shop.(billsSince := BillsSince(s.bills, day))).0)
  }

  function DidAll(s: Shopkeeping, acts: seq<Act>): Shopkeeping {
    if acts == [] then s else Did(DidAll(s, acts[..|acts| - 1]), acts[|acts| - 1])
  }

  ghost predicate BillsStand(s: Shopkeeping) {
    forall i :: 0 <= i < |s.bills| && s.bills[i].final ==> SchemeOn(s.history, s.bills[i].date) == s.bills[i].scheme
  }

  lemma {:induction false} NoBillsSince(bills: seq<Bill>, day: Day)
    requires BillsSince(bills, day) == 0
    ensures forall i :: 0 <= i < |bills| && bills[i].final ==> bills[i].date < day
  {
    if bills != [] { NoBillsSince(bills[..|bills| - 1], day); }
  }

  /** The bills there were are still there, with the date and the scheme they were made under. */
  ghost predicate SameBills(before: seq<Bill>, after: seq<Bill>) {
    |before| <= |after| && forall i :: 0 <= i < |before| ==>
      after[i].date == before[i].date && after[i].scheme == before[i].scheme
  }

  lemma ChangeKeepsBills(s: Shopkeeping, input: Input, shop: Shop)
    requires BillsStand(s)
    ensures BillsStand(Did(s, ChangeScheme(input, shop)))
  {
    var after := Did(s, ChangeScheme(input, shop));
    if after.history != s.history {
      var day := input.effectiveFrom.value;
      AppliedAlone(s.history, input, shop.(billsSince := BillsSince(s.bills, day)));
      NoBillsSince(s.bills, day);
      assert after.history[..|s.history|] == s.history;
    }
  }

  /**
   * Bills issued, cancelled, and the scheme changed, one act after another, in any order: a bill that is
   * still final is always under the scheme it was made under.
   */
  lemma {:induction false} FinalBillsNeverChangeScheme(s: Shopkeeping, acts: seq<Act>)
    requires BillsStand(s)
    ensures BillsStand(DidAll(s, acts)) && SameBills(s.bills, DidAll(s, acts).bills)
  {
    if acts != [] {
      var (before, act) := (DidAll(s, acts[..|acts| - 1]), acts[|acts| - 1]);
      FinalBillsNeverChangeScheme(s, acts[..|acts| - 1]);
      if act.ChangeScheme? { ChangeKeepsBills(before, act.input, act.shop); }
    }
  }

  // ------------------------------------------------------------------ the stored history

  /** One company's stored history, as presses read and write it. */
  class SchemeStore {
    var changes: History

    constructor ()
      ensures changes == []
    {
      changes := [];
    }

    /** `changeOn` walks the whole list and keeps the last change it may. */
    method FindChange(day: Day) returns (found: Option<Change>)
      ensures found == ChangeOn(changes, day)
    {
      found := None;
      for i := 0 to |changes|
        invariant found == ChangeOn(changes[..i], day)
      {
        assert changes[..i + 1][..i] == changes[..i];
        if changes[i].effectiveFrom <= day { found := Some(changes[i]); }
      }
      assert changes[..|changes|] == changes;
    }

    method FindRequest(requestId: string) returns (found: Option<Change>)
      ensures found == ByRequest(changes, requestId)
    {
      var i := 0;
      while i < |changes|
        invariant 0 <= i <= |changes|
        invariant ByRequest(changes, requestId) == ByRequest(changes[i..], requestId)
      {
        if changes[i].requestId == requestId { return Some(changes[i]); }
        i := i + 1;
      }
      found := None;
    }

    /** The first stretch of `applySchemeChange`. */
    method BeginPress(input: Input) returns (press: Press)
      ensures press == Begin(changes, input)
    {
      if input.requestId == "" { return Done(Refused(RequestIdMissing)); }
      var earlier := FindRequest(input.requestId);
      if earlier.Some? { return Done(Ok(Applied(earlier.value, true))); }
      if input.scheme.None? { return Done(Refused(UnknownScheme)); }
      if input.effectiveFrom.None? { return Done(Refused(UnknownDate)); }
      var day := input.effectiveFrom.value;
      var inForce := FindChange(day);
      var current := match inForce case None => Regular case Some(change) => change.scheme;
      press := Asked(input, input.scheme.value, day,
        Noted(current, changes != [] && day <= changes[|changes| - 1].effectiveFrom, |changes|));
    }

    /** The last stretch, with no wait before its write. */
    method FinishPress(press: Press) returns (answer: Result<Applied, SchemeError>)
      requires press.Previewed?
      modifies this
      ensures (changes, answer) == Finish(old(changes), press)
    {
      var (input, preview) := (press.input, press.preview);
      var meanwhile := FindRequest(input.requestId);
      if meanwhile.Some? { return Ok(Applied(meanwhile.value, true)); }
      if preview.blockers != [] || preview.token.None? { return Refused(NotAllowed(preview.blockers)); }
      if input.token.None? { return Refused(NotPreviewed); }
      if input.token != preview.token { return Refused(ChangedSincePreview); }
      if changes != [] && changes[|changes| - 1].effectiveFrom >= preview.change.effectiveFrom {
        return Refused(ChangedSincePreview);
      }
      changes := changes + [preview.change];
      answer := Ok(Applied(preview.change, false));
    }
  }
}
