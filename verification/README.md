# A model of the shop's books, its caches and its search, with proofs

The repository is a billing and bookkeeping application for small Indian businesses. This project
models the parts of it that are hardest to get right and proves what they are for.

| file | what it models |
|---|---|
| `Ledger.dfy` | posting a voucher once per key, and undoing one by its mirror |
| `BooksPlans.dfy`, `BooksDesk.dfy`, `CashDrawer.dfy`, `CashBook.dfy` | the desk for expenses, journals, contra and owner entries; the lowest the cash drawer ever gets; the cash and bank book |
| `MoneyText.dfy` | reading and printing rupees |
| `Durable.dfy` | maps in memory that are written through to a table, and read back when an action fails |
| `MasterView.dfy` | a process's copy of the master data, kept up with an append-only version log |
| `Scheme.dfy` | the dated history of a business joining and leaving the composition scheme (section 10 of the CGST Act 2017, rules 3 and 6 of the CGST Rules) |
| `CompositionStatement.dfy`, `CompositionDesk.dfy` | the quarterly statement, and booking, booking again and filing it |
| `ItemPicker.dfy`, `CodeUnits.dfy` | fuzzy search for items, over UTF-16 code units |
| `Address.dfy` | one name for all addresses of an IPv6 /64 |
| `EnvFile.dfy`, `JsonText.dfy` | reading and updating a `.env` file; JSON string literals |
| `JobQueue.dfy` | the operational job queue |
| `Basics.dfy`, `Texts.dfy`, `Sorting.dfy` | results, splitting and joining text, stable sorting |

Each piece of state is modelled twice, and the two are tied together. What an operation does to the state
and answers is a function (`RecordOf`, `Approve`, `ActionOf`, …); the objects the program keeps are classes
whose methods walk through the branches in the program's order, loops included, and promise the function's result
(`Desk.Record`, `StatementDesk.ApproveStatement`, `DurableMaps.AsOneAction`, …). Runs, interleavings and
properties are lemmas about the functions.

Money is an integer number of paise, a date is a day number, a voucher's id is its place in the books. A
SHA-256 fingerprint is taken to be injective: in the books it is the very content digested, at the
composition desk it is any injective function. The accounts of a company stay as they are while a desk runs.
What the clock, the permission list, the period locks, the network and the database answer are parameters.

## What turned out not to hold

For each of these the code is modelled as it is; there is an input that shows it, and the exact condition
under which the code does what is wanted.

- **An approval that goes back to earlier figures books nothing.** When the bills of a quarter change and
  change back, the old fingerprint is taken for a repeated press: the other amount stays booked, the
  statement stays "changed after booking" and cannot be filed. Input: `ReturnExample`, a run from a new desk;
  at any desk: `ReturnLeavesTheOther`. Condition: `ApprovedMeansBookedIff`.
- **One id for two undos undoes only the first.** The second is answered as done, with the first entry's
  mirror, because the ledger compares keys only. Input: `UndoIdReused`. Condition: `UndoNamesOwnMirrorIff`.
- **A saved entry can be refused as changed when its save is pressed again**, when its date box was left empty
  and the day has changed. Input: `RetryOnAnotherDay`. Condition: `RetryIsAnswered`.
- **A record set and then deleted in one action can survive in the database**, since a value is sealed, which
  waits, before it is sent, and a removal is not; **and a frozen record set again shows its new value in
  memory only.** Inputs: `OutOfStepDiffers` gives the order for every action that goes wrong, `FrozenSetTwice`
  a frozen record. Condition, for every action and record: `CommittedAgreesIff`, `FrozenAgreesIff`; for the
  whole action: `ActionAgreesIff`. Without sealing only frozen records are affected (`UnsealedAgrees`).
- **A refused write for another company can stay in memory.** The key is changed in the map before the write is
  refused; memory is only read back if something else was sent, and only for loaded companies. Inputs:
  `ForeignExamples`, a `set` and a `delete`. Condition, for every action: `ForeignAgreesIff`; what is left of a
  company not yet loaded outlives its loading (`RefusedSetOutlivesLoad`).
- **Rolled-back master data is shown after an action fails**, until a refresh has rebuilt the copy. Input:
  `FailureIsShown`. Condition: `FailureIsShownIff` for a good copy, `ServesLostIff` for every step;
  `ShownUntilRebuilt` for how long.
- **Two presses that overlap can write a change of scheme that changes nothing**: two regular entries in a row, or
  two composition entries alike. Inputs: `LeavingTwice`, `JoiningTwice`; in general: `OverlapWritesBoth`.
  Condition, over every interleaving: `RepeatNeedsOverlap`. Only a process without a database can receive it:
  with one, the request is one unit of work (apps/api/src/server.ts:206) and holds the company's lock from
  its beginning (packages/platform/src/database.ts:132), so presses of one company follow one another.
- **`inOrder` does not see letters outside the first plane.** It walks the word letter by letter and the token
  code unit by code unit, so such a letter never matches, not even itself (`RareLetterIsMissed`,
  `RareLettersAreNeverFound`); for all other tokens it is what its comment says (`PlainTokensAreFound`).
- **A valid IPv6 text that starts with `::ffff:` and goes on in groups loses its prefix** and is named after
  what is left (`MappedExample`, `NamedRightlyIff`); with two or three groups left even the name's name is
  another (`NormaliseIdempotentIff`). The comment at apps/api/src/server.ts:268 speaks of IPv4 texts only.
- **Of several lines that set one key in a `.env` file, the update rewrites the first and the reader takes the last**
  (`SecondLineWins`, `UpdateReadsBack`).
- **A job can be answered with another request's job.** Inputs: `ColonsCollide`, and for every request at fault
  `MistakenRun`. Condition: `MistakenIff`, and for keys alone `KeyIsSharedIff`: a colon in the company or the
  kind, or one in the key with more than blanks after it.
- **A printed amount with its rupee sign is refused by the books' box and the price box, and read by the
  credit-limit box** (`SignIsRefused`, `CreditLimitReadsRupees`).

## Model

| member | source | states |
|---|---|---|
| `BooksDesk.DrawerStaysFull` | apps/api/src/books-entry-application.ts:277-334 | after any run of saves and undos, back-dated, repeated or refused, the cash balance at the end of every day is at least zero, if it was before |
| `BooksDesk.RecordKeepsDrawer` | apps/api/src/books-entry-application.ts:388-399 | one save keeps every day's balance from going below zero: the check from the entry's day on is enough for all days |
| `BooksDesk.UndoKeepsDrawer` | apps/api/src/books-entry-application.ts:323-332 | so does one undo, which takes back today what the entry brought in whenever it was dated |
| `BooksDesk.RunOnlyAdds` | packages/ledger/src/service.ts:394-397 | no run ever removes, reorders or edits a voucher; an undone one only gets its mark |
| `BooksDesk.SavedOnceAsChecked` | apps/api/src/books-entry-application.ts:277-306 | after any run, an answered save names the only voucher of its kind and request id, with exactly the date, type and lines that were checked, balanced and one-sided |
| `BooksDesk.RunTellsThePlan` | apps/api/src/books-entry-application.ts:296-301 | in every run, each voucher under a request key was written as the plan its fingerprint stands for |
| `BooksDesk.RetryIsAnswered` | apps/api/src/books-entry-application.ts:280-290 | a save pressed again after any run writes nothing, and is answered with the same voucher exactly when the entry worked out anew has the fingerprint given, however empty the drawer is by then |
| `BooksDesk.RetryOnAnotherDay` | apps/api/src/books-entry-application.ts:116-123 | an entry with an empty date box, saved and pressed again on another day, is refused as changed |
| `BooksDesk.ReusedIdIsRefused` | apps/api/src/books-entry-application.ts:302-304 | an id already used is refused exactly when the earlier entry has another fingerprint, and the books stay as they were |
| `BooksDesk.RequestKeysDiffer` | apps/api/src/books-entry-application.ts:286-286 | two requests share a ledger key exactly when kind and id are the same; an undo never shares one with a save |
| `BooksDesk.UndoneOnce` | apps/api/src/books-entry-application.ts:308-334 | once undone, an entry stays undone and no other undo of it writes anything, whatever is recorded in between |
| `BooksDesk.UndoNamesOwnMirrorIff` | packages/ledger/src/service.ts:439-446 | an answered undo names the mirror of the entry it was asked for exactly when its key is new or was used for that entry; with another's key it writes nothing |
| `BooksDesk.UndoIdReused` | packages/ledger/src/service.ts:439-446 | a second undo under one id is answered with the first one's mirror while its own entry stays final |
| `BooksDesk.CashBookNeverShort` | apps/api/src/books-entry-application.ts:349-377 | after any run the cash book of any range of days opens and closes at zero or more |
| `BooksDesk.BookIsBalance` | apps/api/src/books-entry-application.ts:362-362 | the cash book's figures and the drawer check's figures are the same sum |
| `BooksDesk.Desk.Record` | apps/api/src/books-entry-application.ts:277-306 | `record` does to the stored books and answers what the specification says |
| `BooksDesk.Desk.Undo` | apps/api/src/books-entry-application.ts:309-334 | `undo` likewise |
| `BooksDesk.Desk.CashIsShort` | apps/api/src/books-entry-application.ts:388-399 | the check refuses exactly when some end of day from the entry's date on has less than goes out |
| `BooksDesk.Desk.Book` | apps/api/src/books-entry-application.ts:349-377 | the accounts of the cash or the bank book are chosen, and its book is made |
| `BooksDesk.RecordMovesMoney` | apps/api/src/books-entry-application.ts:277-306 | a save that writes leaves one voucher that does what the entry means, in account codes: on its day, of its type, moving what was typed from the account that gives to the one that takes and nothing else |
| `BooksDesk.RecordMovesDrawerAndBank` | apps/api/src/books-entry-application.ts:129-138 | so a cash expense or drawing of n takes n out of the drawer and nothing out of the bank, a bank one the other way round; capital mirrors it; a deposit takes n from the drawer to the bank, a withdrawal back |
| `BooksDesk.RecordedIff` | apps/api/src/books-entry-application.ts:277-306 | a save is answered exactly when the entry is acceptable, its fingerprint was looked at, its accounts are there and the person may post; and its request was saved with that fingerprint, or the drawer has the cash, the day is open and the ledger may take the lines |
| `BooksDesk.UndoneIff` | apps/api/src/books-entry-application.ts:309-334 | an undo is answered exactly when it has an id and a reason, the entry is from this desk, the person may undo, the drawer can give back what it brought; and its key was used or the entry is final and the day open |
| `CashDrawer.LowestCashFrom` | apps/api/src/books-entry-application.ts:454-473 | the loop over sorted, clamped, possibly repeated days returns the least balance over all days from the date on, and some day has it |
| `CashDrawer.GroupByDay` | apps/api/src/books-entry-application.ts:458-464 | the map holds, for each day on or after the date, the day's total, with all earlier movements counted on the date |
| `BooksPlans.PlansAreSound` | apps/api/src/books-entry-application.ts:379-386 | every plan balances, is one-sided line by line, is not dated ahead, and takes out of the drawer exactly its `cashOut` |
| `BooksPlans.JournalIsSound` | apps/api/src/books-entry-application.ts:401-451 | so for journals, which never touch the drawer |
| `BooksPlans.PlanMeansTheEntry` | apps/api/src/books-entry-application.ts:183-245 | every accepted entry is planned as it means, said over the entry in account codes: who pays, who takes, how much, on which day, and what leaves the drawer |
| `BooksPlans.PlannedIff` | apps/api/src/books-entry-application.ts:183-245 | an entry is accepted exactly when its choices are made, its date is not ahead, its amount reads above nothing, and its GST and reverse charge are not for the purchases page |
| `BooksPlans.JournalPlannedIff` | apps/api/src/books-entry-application.ts:401-451 | a journal is accepted exactly when it has a narration and 2 to 20 lines, each on an open account with one readable amount on one side, and the sides agree |
| `Ledger.PostKeepsBooks` | packages/ledger/src/service.ts:332-370 | posting keeps the books valid (ids, keys, balance, links between an entry and its mirror) and only adds |
| `Ledger.ReverseKeepsBooks` | packages/ledger/src/service.ts:432-481 | undoing keeps them valid and only adds |
| `Ledger.UndoCancels` | packages/ledger/src/service.ts:461-480 | from its date on an undo takes out of every account what the entry put in, and changes no earlier day |
| `Ledger.MirrorMoves` | packages/ledger/src/domain/posting.ts:127-134 | the mirrored lines move every account by the opposite amount |
| `Ledger.LedgerStore.PostVoucher` | packages/ledger/src/service.ts:304-370 | `postVoucher` on the stored ledger is the specification |
| `Ledger.LedgerStore.ReverseVoucher` | packages/ledger/src/service.ts:398-481 | `reverseVoucher` on the stored ledger is the specification |
| `Ledger.LedgerStore.ValidatePosting` | packages/ledger/src/domain/posting.ts:48-124 | the first fault of a posting, in the order the lines are checked |
| `Ledger.FirstFaultIff` | packages/ledger/src/domain/posting.ts:48-124 | lines have no fault exactly when each has one amount, above nothing, on an account that exists, is open and is of the same party |
| `Ledger.PostedIff` | packages/ledger/src/service.ts:332-370 | a command is answered exactly when its key was used, or its day is open and its lines may be posted; a new voucher has all the command says |
| `Ledger.ReversedIff` | packages/ledger/src/service.ts:432-481 | an undo is answered exactly when its key was used, or its voucher is final and the day open; it marks that voucher and adds its mirror, line by line on the other side |
| `CashBook.MakeBook` | apps/api/src/books-entry-application.ts:349-377 | the incremental book is the opening and closing sums and the running rows of the specification |
| `CashBook.FillBook` | apps/api/src/books-entry-application.ts:364-376 | the loop over sorted vouchers fills it |
| `CashBook.RowsShowRunningTotal` | apps/api/src/books-entry-application.ts:368-374 | every row's balance is the sum of all movements from the first entry of the books up to that row |
| `CashBook.LastRowIsClosing` | apps/api/src/books-entry-application.ts:375-376 | the last row's balance, or the opening if there is none, is the plain sum up to `to`, whatever `from` was |
| `CashBook.BooksJoin` | apps/api/src/books-entry-application.ts:349-377 | the book up to a day and the book after it make up the whole book; the first closes where the second opens |
| `CashBook.PageSplits` | apps/api/src/books-entry-application.ts:360-362 | sorting the vouchers of a range gives the sorted vouchers up to a day followed by the sorted vouchers after it |
| `CashBook.PageHolds` | apps/api/src/books-entry-application.ts:349-363 | a book lists exactly the vouchers, drafts apart, dated in its range with a line on one of its accounts, by day and then as written |
| `CashBook.RowsAreEntries` | apps/api/src/books-entry-application.ts:364-376 | there is one row for each, with its id and date, and each takes the balance before it on by what came in less what went |
| `MoneyText.CreditLimitReadsRupees` | apps/api/src/catalogue-application.ts:232-238 | what `rupees` prints, lakh commas and sign included, is read back to the paisa up to 13 digits and refused beyond |
| `MoneyText.AmountReadsPlain` | apps/api/src/books-entry-application.ts:104-114 | without its sign a printed amount is read back by `amountOf` up to 11 digits; zero is refused unless optional |
| `MoneyText.PriceReadsPlain` | apps/api/src/catalogue-application.ts:109-115 | the price box reads every printed amount back |
| `MoneyText.SignIsRefused` | apps/api/src/books-entry-application.ts:106-109 | with its sign every printed amount is refused by the books' box and the price box |
| `MoneyText.ParsersAgree` | apps/api/src/books-entry-application.ts:106-114 | what `amountOf` accepts, both catalogue parsers read as the same paise |
| `MoneyText.PriceAndCreditLimitAgree` | apps/api/src/catalogue-application.ts:109-115 | the two catalogue parsers never read one text as two amounts |
| `MoneyText.AmountIff` | apps/api/src/books-entry-application.ts:104-114 | the books' box reads a text as an amount exactly when, blanks and commas apart, it is 1 to 11 digits and at most two more after a point that write it |
| `MoneyText.CatalogueIff` | apps/api/src/catalogue-application.ts:109-115 | the catalogue's two boxes likewise, with any number of digits and with up to 13 |
| `Durable.RunKeepsAgreement` | apps/api/src/durable.ts:89-153 | through any run of actions, failures, loads and restarts, loaded companies' memory is exactly their live rows |
| `Durable.ActionKeepsAgreement` | apps/api/src/durable.ts:89-107 | after one careful action, committed or failed, memory and rows agree, and the rows hold all of its writes or none |
| `Durable.UncommittedIsUndone` | apps/api/src/durable.ts:89-107 | work that throws, whose writes do not land or whose commit is not taken is not done: the rows are the old ones, and its company's keys are in memory as in the old rows |
| `Durable.CommittedFollowsSteps` | apps/api/src/durable.ts:89-107 | work of the company's own that does not throw, lands and is committed is done: memory shows the last step on each key, its row too unless it was set and last deleted, and a frozen row keeps what it had or gets the first value set |
| `Durable.ActionAgreesIff` | apps/api/src/durable.ts:89-107 | memory and rows agree however the action ends and its writes land exactly when it is careful: every record it wrote is in step |
| `Durable.CommittedAgreesIff` | apps/api/src/durable.ts:193-222 | for any action and record: a commit leaves them in agreement in every order in which the writes land exactly when the record is in step — nothing set and then deleted, or, if frozen, last and first value the same as its row |
| `Durable.FrozenAgreesIff` | apps/api/src/durable.ts:201-207 | in any landing order a frozen record agrees exactly when the last value sent is what its row has, or gets from the first value |
| `Durable.FrozenSetTwice` | apps/api/src/durable.ts:201-207 | set twice in one action, a frozen record keeps the first value in its row and the second in memory |
| `Durable.OutOfStepDiffers` | apps/api/src/durable.ts:193-222 | for every action and record out of step, an order in which the writes do land and leave the record wrong |
| `Durable.LastSentLandsLast` | apps/api/src/durable.ts:193-222 | whatever removals overtake, the last write to any other record is the last to land |
| `Durable.UnsealedAgrees` | apps/api/src/durable.ts:198-200 | writes that land as sent leave a record in agreement exactly when it is not frozen or is in step |
| `Durable.ForeignAgreesIff` | apps/api/src/durable.ts:64-107 | an action in which another company's key was refused leaves agreement exactly when something was sent and that company is loaded, or memory was left as the row says, or as silent as it may be |
| `Durable.FailedAgreesIff` | apps/api/src/durable.ts:102-106 | the same for every failed action of any company: each key touched is read back, or in memory what its row says |
| `Durable.RefusedSetOutlivesLoad` | apps/api/src/durable.ts:138-153 | the value of a refused `set` for a company not loaded is still there once it is loaded, unless its record has a live row |
| `Durable.ForeignExamples` | apps/api/src/durable.ts:64-84 | one refused `set`, or one refused `delete` of a live record, stays in memory |
| `Durable.LoadKeepsAgreement` | apps/api/src/durable.ts:138-144 | loading a company keeps the agreement and makes the company loaded |
| `Durable.DurableMaps.AsOneAction` | apps/api/src/durable.ts:89-107 | memory, rows and answer of an action done step by step are those of the specification |
| `Durable.DurableMaps.ForgetUnsavedWrites` | apps/api/src/durable.ts:146-153 | every loaded company is forgotten and read back, and stays loaded |
| `Durable.DurableMaps.Set` | apps/api/src/durable.ts:193-211 | memory changes first, then the write joins the action or is refused |
| `Durable.DurableMaps.Delete` | apps/api/src/durable.ts:213-220 | a key that was not there sends nothing |
| `Durable.DurableMaps.Forget` | apps/api/src/durable.ts:222-226 | exactly one company's entries go |
| `Durable.DurableMaps.Reload` | apps/api/src/durable.ts:250-268 | exactly the company's live rows are put back |
| `MasterView.PublishedIsAPrefix` | apps/api/src/master-data.ts:102-150 | at every point of every run the published copy has read a prefix of the log and the open action's rows, and a good copy no rolled-back one; its stores show exactly that, but for saved versions a rolled-back one stands in the place of |
| `MasterView.FinishedCoversTheLog` | apps/api/src/master-data.ts:132-142 | a refresh that ends has brought in the whole log; a rebuild publishes exactly what could be seen |
| `MasterView.ServedStaysInRun` | apps/api/src/master-data.ts:126-142 | short of a restart, a version of the log that the stores show is always shown, failures and rebuilds included |
| `MasterView.ServesLostIff` | apps/api/src/master-data.ts:118-154 | after each event a rolled-back row is shown exactly when one was and no rebuilt copy took its place, or the action failed and a row of it was shown |
| `MasterView.FailureIsShownIff` | apps/api/src/master-data.ts:148-154 | after an action fails, a good copy shows rolled-back rows exactly when it had read a row of that action |
| `MasterView.ShownUntilRebuilt` | apps/api/src/master-data.ts:126-154 | what was shown of a failed action is shown until a rebuilt copy is published or the process restarts |
| `MasterView.FailureIsShown` | apps/api/src/master-data.ts:121-154 | recording, refreshing and failing leave the recorded version shown |
| `MasterView.RebuildIsAside` | apps/api/src/master-data.ts:128-142 | while a copy is rebuilt the published one does not change |
| `MasterView.RefreshDiscardsRolledBack` | apps/api/src/master-data.ts:148-154 | a refresh that begins after an action failed, and ends before another does, publishes the whole log without a rolled-back row |
| `MasterView.StepKeeps` | apps/api/src/master-data.ts:118-154 | the invariant behind these, kept by beginning, recording, committing, failing, refreshing batch by batch, breaking off and restarting |
| `MasterView.CopyHoldsExactly` | packages/masters/src/effective.ts:136-143 | a copy restored from a log holds, of each record, exactly its versions in version order |
| `MasterView.LostVersionHidesSaved` | packages/masters/src/effective.ts:139-139 | a rolled-back version once held hides the version saved later under its number, which is why a copy is rebuilt |
| `MasterView.FailMidRefreshIff` | apps/api/src/master-data.ts:148-152 | if an action failed during its own refresh, the copy then published would be clean or marked exactly when it was not built aside or had read no row of the action |
| `MasterView.Copy.CatchUp` | apps/api/src/master-data.ts:132-138 | over a log that may grow but not for ever, batches of 500 end, with all read that the last query could find |
| `MasterView.Copies.RefreshMasterView` | apps/api/src/master-data.ts:121-146 | the company's copy ends with the log as the last query found it: the same copy if it was good, a new one if it was stale or missing; other companies' copies are untouched |
| `Scheme.HistoryOnlyGrows` | apps/api/src/composition-scheme.ts:269-292 | under any interleaving of any number of presses the history only grows at its end, strictly by date, each request id at most once, each composition entry with category and rate |
| `Scheme.DuringIsEveryDay` | apps/api/src/composition-scheme.ts:72-76 | looking at the first day and the change dates says what looking at every day of the range would |
| `Scheme.RateExactlyOnScheme` | apps/api/src/composition-scheme.ts:59-65 | a day has a rate exactly when the business is on the scheme that day |
| `Scheme.InForceIsLatest` | apps/api/src/composition-scheme.ts:52-56 | the change found is the one with the latest start up to the day, and the other way round |
| `Scheme.FinalBillsNeverChangeScheme` | apps/api/src/composition-scheme.ts:138-150 | in any run of issuing, cancelling and changing, a bill still final is under the scheme it was made under |
| `Scheme.AppliedAlone` | apps/api/src/composition-scheme.ts:241-292 | a change applied with nothing in between is what was previewed for that history, with no bills from its date on, and changes the scheme or the rate |
| `Scheme.EveryEntryMightBeWritten` | apps/api/src/composition-scheme.ts:121-292 | over any interleaving, every entry written belongs to a press that might write it: its own input and the shop it was previewed with meet all conditions (year start or new registration, the three promises, no goods when services only, a rate typed or confirmed, no bills since, other terms than in force), and the token is of that very entry |
| `Scheme.WrittenIff` | apps/api/src/composition-scheme.ts:121-292 | whatever goes on between its turns, a press that has had two turns is written by its third exactly when it meets them, and then as it was asked for |
| `Scheme.AppliedIff` | apps/api/src/composition-scheme.ts:269-292 | so a press made alone is applied exactly when it meets them |
| `Scheme.RepeatIsAnswered` | apps/api/src/composition-scheme.ts:270-277 | a press whose id was used is answered with the one entry under that id, before and after its wait, and writes nothing |
| `Scheme.TypedRateIff` | apps/api/src/composition-scheme.ts:113-117 | a typed percentage is read as a rate exactly when it writes one above nothing, at most 10%, in two equal halves |
| `Scheme.SuggestedRateHalves` | packages/gst-returns/src/composition.ts:94-97 | a suggested rate can always be charged in two halves, and there is one from the day the law had it |
| `Scheme.RateIsDeclared` | apps/api/src/composition-scheme.ts:52-65 | the scheme, rate and category of a day are what the latest change by then declared |
| `Scheme.LeavingTwice` | apps/api/src/composition-scheme.ts:286-290 | two overlapping presses to leave, the earlier date written first, leave two regular entries |
| `Scheme.JoiningTwice` | apps/api/src/composition-scheme.ts:254-260 | two overlapping presses to join on the same terms leave two composition entries alike |
| `Scheme.OverlapWritesBoth` | apps/api/src/composition-scheme.ts:269-292 | any two presses that would each be applied to one history are both applied when they overlap in date order; the second repeats the first exactly when their terms are the same |
| `Scheme.RepeatNeedsOverlap` | apps/api/src/composition-scheme.ts:254-290 | over every interleaving, a written entry repeats what is in force exactly when the last entry has its scheme and terms, and then another press wrote after this one began |
| `Scheme.SchemeStore.FindChange` | apps/api/src/composition-scheme.ts:52-56 | the loop finds the change in force |
| `Scheme.SchemeStore.BeginPress` | apps/api/src/composition-scheme.ts:269-274 | the stretch of a press up to its first wait |
| `Scheme.SchemeStore.FinishPress` | apps/api/src/composition-scheme.ts:275-292 | the stretch from the preview to the write |
| `CompositionStatement.DocumentsConserveSales` | apps/api/src/composition-application.ts:189-214 | the rows add up to the sales of composition bills, less returns and plus debit notes against them, taxable and in all |
| `CompositionStatement.LevyIsOnSales` | packages/gst-returns/src/composition.ts:283-313 | the statement shows the quarter's sales and asks for twice half of the levy on those that are taxable |
| `CompositionStatement.Documents` | apps/api/src/composition-application.ts:195-213 | the loops push those rows |
| `CompositionStatement.RowsAre` | apps/api/src/composition-application.ts:189-214 | a row is on the statement exactly when it is what is taxed, or what is not, of a composition bill, or a return or debit note against one |
| `CompositionStatement.EveryBillHasARow` | apps/api/src/composition-application.ts:202-203 | every composition bill has a row, even one that comes to nothing |
| `CompositionStatement.LineSumOfConcat` | apps/api/src/composition-application.ts:199-200 | the sum of a bill's lines adds up line by line, the untaxed counted only in the whole |
| `CompositionStatement.ContentTells` | apps/api/src/composition-application.ts:81-82 | what is fingerprinted tells the quarter, the rate, both amounts and which documents there are |
| `CompositionDesk.BookedIsInTheBooks` | apps/api/src/composition-application.ts:308-379 | in every run of approvals and filings, with any other postings and reversals in between, booked differences add up to the last amount, the desk's vouchers credited the account owed with exactly that, and no fingerprint is booked twice |
| `CompositionDesk.BookedLeavesNothing` | apps/api/src/composition-application.ts:225-252 | a statement shown as booked has nothing still to book |
| `CompositionDesk.ApprovalCreditsTheLevy` | apps/api/src/composition-application.ts:308-356 | an approval that books leaves credited exactly twice half of the levy on the taxable sales of the quarter's bills and notes |
| `CompositionDesk.ApprovedMeansBookedIff` | apps/api/src/composition-application.ts:308-356 | an answered approval leaves the payable amount booked exactly when its fingerprint was new or the last amount is the same |
| `CompositionDesk.ReturnIsStuck` | apps/api/src/composition-application.ts:318-318 | after a return to older figures approving changes nothing and filing is refused |
| `CompositionDesk.ReturnLeavesTheOther` | apps/api/src/composition-application.ts:308-356 | at any desk, approving one statement, another of its quarter, and the first again leaves the second booked and the first unfileable |
| `CompositionDesk.ReturnExample` | apps/api/src/composition-application.ts:318-318 | a run from a new desk over empty books: ₹100, then ₹150, then ₹100 again, and ₹150 stays booked and credited |
| `CompositionDesk.ElsewhereKeepsQuarter` | apps/api/src/composition-application.ts:333-338 | postings and reversals under other keys leave what this desk credited |
| `CompositionDesk.FreshDeskIsOk` | apps/api/src/composition-application.ts:225-233 | a desk that has approved nothing is in step with any books that do not use its keys |
| `CompositionDesk.RecordsOnlyGrow` | apps/api/src/composition-application.ts:347-348 | bookings are only added, and a filed quarter never changes again |
| `CompositionDesk.ApprovalBooksTheTax` | apps/api/src/composition-application.ts:320-345 | an approval that books posts one final journal of the quarter's last day that moves the difference from the tax owed to the expense, or the excess back, and no other account; nothing when there is none |
| `CompositionDesk.ApprovedIff` | apps/api/src/composition-application.ts:308-356 | an approval is answered exactly when the figures are those looked at, the quarter is not filed, and they were booked before, have nothing to post, or are taken by the ledger |
| `CompositionDesk.ChangeIsShown` | apps/api/src/composition-application.ts:225-252 | after an approval that books, a statement of the quarter is shown as booked exactly when rate, amounts and documents are the approved ones |
| `CompositionDesk.FilingFiles` | apps/api/src/composition-application.ts:359-379 | a filing is answered exactly when the statement is booked and the reference good, and then the quarter is filed under that very reference, for every fingerprint |
| `CompositionDesk.FiledForGood` | apps/api/src/composition-application.ts:359-379 | after any run from there bookings, reference and credited sum are the same, and every filing and every approval with its token is refused as already filed |
| `CompositionDesk.StatementDesk.ApproveStatement` | apps/api/src/composition-application.ts:308-356 | `approveStatement` on the stored records and the ledger is the specification |
| `CompositionDesk.StatementDesk.FileStatement` | apps/api/src/composition-application.ts:359-379 | `markFiled` likewise |
| `ItemPicker.WithinOne` | apps/web/item-picker.js:60-67 | true exactly when one replaced, missing, extra or swapped letter, or none, makes one text of the other |
| `ItemPicker.EditShowsInRest` | apps/web/item-picker.js:63-66 | wherever the slip is, it shows at the first mismatch: an edit in a run of equal letters can be moved there |
| `ItemPicker.RestGivesEdit` | apps/web/item-picker.js:65-66 | each of the four comparisons stands for a slip |
| `ItemPicker.InOrder` | apps/web/item-picker.js:52-57 | same first letter, and the token's letters stand in order among the word's single-unit letters |
| `ItemPicker.InSequenceIsGreedy` | apps/web/item-picker.js:55-56 | taking each letter at its first chance finds the token exactly when any way does |
| `ItemPicker.PlainTokensAreFound` | apps/web/item-picker.js:51-57 | for letters of the first plane the walk over letters is a subsequence test over code units |
| `ItemPicker.RareLettersAreNeverFound` | apps/web/item-picker.js:55-55 | a token with half of a surrogate pair is in order in no well-formed word |
| `ItemPicker.RareLetterIsMissed` | apps/web/item-picker.js:51-57 | U+20000 followed by "c" is not found in a word that holds both in that order |
| `ItemPicker.OneSlip` | apps/web/item-picker.js:70-71 | at least three letters, and some start of the word, of any length, is within one slip |
| `ItemPicker.TokenScore` | apps/web/item-picker.js:74-82 | with its early exit and skipped tests it is the best score over all words |
| `ItemPicker.ScoreItem` | apps/web/item-picker.js:91-105 | the branch that answers, or the weight of the worst answered word of the query |
| `ItemPicker.SearchItems` | apps/web/item-picker.js:111-120 | the shown items are the first of the ranked list of exactly the items that answer, each with its score and count |
| `ItemPicker.FoundIsUnique` | apps/web/item-picker.js:114-117 | the score of an item, and so what is found and shown, is settled by items, query and counts |
| `ItemPicker.RankedHits` | apps/web/item-picker.js:118-118 | the ranked list is the found one in another order, and nothing stands before what ranks before it |
| `ItemPicker.AnswersIff` | apps/web/item-picker.js:91-105 | an item answers exactly when its code, HSN or the start of its text does, or every word of the query is in or near a word of it |
| `ItemPicker.WordsDecide` | apps/web/item-picker.js:98-104 | where words decide, 80 means each starts a word of the item, 65 that each is inside one, 40 that each is near one |
| `ItemPicker.ShownAreBest` | apps/web/item-picker.js:111-120 | what is shown answers the query, best first, up to the limit; an item that answers and is not shown ranks after all shown, with the list full |
| `Address.SameNameIffSame64` | apps/api/src/server.ts:272-280 | two valid texts that are not cut get one name exactly when their first 64 bits agree |
| `Address.UnmappedIsSlash64` | apps/api/src/server.ts:273-279 | the name is the first four words in canonical writing, whatever `::`, capitals, leading zeros and white space around |
| `Address.NormaliseIdempotentIff` | apps/api/src/server.ts:272-280 | naming a valid text's name again changes nothing exactly when the text is not cut, or one group or at least four are left |
| `Address.Ipv4IsItself` | apps/api/src/server.ts:273-274 | an IPv4 text is its own name, with or without `::ffff:` |
| `Address.NamedRightlyIff` | apps/api/src/server.ts:273-279 | a valid text is named by its first 64 bits exactly when it is not cut, or its words are one of three odd patterns |
| `Address.ZeroInFront` | apps/api/src/server.ts:273-273 | writing a zero before `::ffff:` names the same address rightly |
| `Address.MappedExample` | apps/api/src/server.ts:273-273 | `::ffff:1:2` and `0::ffff:1:2` are one address with two names |
| `EnvFile.EnvValues` | tools/gsp/credentials.ts:33-40 | each key but `__proto__` gets the value of the last line that sets it, and no other key gets one |
| `EnvFile.UpdateEnv` | tools/gsp/credentials.ts:42-54 | the walk that takes updates out of what remains writes the first line of each updated key and appends the rest |
| `EnvFile.UpdateReadsBack` | tools/gsp/credentials.ts:33-54 | after an update every other key is read as before, and an updated key is read as its new value exactly when no later line of it says otherwise |
| `EnvFile.OneLineIsEnough` | tools/gsp/credentials.ts:42-54 | a key on at most one line gets its new value |
| `EnvFile.LinesStayInPlace` | tools/gsp/credentials.ts:45-51 | lines keep their places and keys, and only the first line of an updated key may differ |
| `EnvFile.UpdateIdempotent` | tools/gsp/credentials.ts:42-54 | the same update again changes nothing |
| `EnvFile.FileReadsBackIff` | tools/gsp/credentials.ts:35-53 | the file written from lines is walked again as those lines exactly when none ends in a carriage return |
| `EnvFile.WrittenLineReads` | tools/gsp/credentials.ts:36-50 | the line written for a valid key and any value without U+2028 and U+2029 sets exactly that |
| `EnvFile.QuotedIsDecoded` | tools/gsp/credentials.ts:24-31 | a written literal is decoded to its value |
| `EnvFile.ReadsIff` | tools/gsp/credentials.ts:36-37 | a line sets a key exactly when it is blanks, perhaps `export`, a name, an equals sign and a value that runs to its end |
| `EnvFile.BareIsDecoded` | tools/gsp/credentials.ts:30-30 | a value without quotes is what it says, and blanks after it are not part of it |
| `EnvFile.CommentIsDropped` | tools/gsp/credentials.ts:30-30 | nor is a `#` after blanks and all that follows it; a `#` elsewhere stays |
| `EnvFile.ApostrophesAreDropped` | tools/gsp/credentials.ts:29-29 | between apostrophes a value is taken as it stands |
| `EnvFile.UpdatedKeyValue` | tools/gsp/credentials.ts:45-51 | an updated key is read from a later line of its own if there is one, else as the update |
| `EnvFile.SecondLineWins` | tools/gsp/credentials.ts:35-51 | a file that sets a key twice still reads the second value after an update |
| `JsonText.ReadsBack` | tools/gsp/credentials.ts:27-50 | reading a JSON string literal gives back any sequence of code units, stray surrogates included |
| `JsonText.UnquotedIff` | tools/gsp/credentials.ts:26-28 | a text is read as a value exactly when it writes the value letter by letter, each as itself, by its short escape or by four hexadecimal digits, and ends in a quote |
| `JobQueue.EveryJobIsAccounted` | ops/operations/src/operations.ts:149-166 | in every run `attempts` is the number of begins, which is failures, successes and one while processing; a job not safe to repeat is begun at most once |
| `JobQueue.EveryJobIsAsDeclared` | ops/operations/src/operations.ts:139-166 | in every run each job has the company, kind, key, safety, limit and correlation id of the `enqueue` that made it |
| `JobQueue.UnsafeJobIsBegunOnce` | ops/operations/src/operations.ts:157-160 | a job enqueued as not safe to repeat is begun at most once in every continuation, and every replay of it is refused |
| `JobQueue.AcceptedIff` | ops/operations/src/operations.ts:149-166 | told by what was done before: a begin is carried out exactly when begins equal replays, an end when one begin has none, a replay when it is permitted, the job is safe and its last end was an unreplayed failure |
| `JobQueue.EnqueuedIff` | ops/operations/src/operations.ts:139-147 | a request is answered exactly when it has a key and a correlation id, and makes a job exactly when its key is new |
| `JobQueue.FailureIsWrittenDown` | ops/operations/src/operations.ts:151-156 | a failure is written to the audit log as final exactly when the job was begun as often as its request allowed, with that request's correlation id |
| `JobQueue.OnlyItsOwnCompany` | ops/operations/src/operations.ts:149-166 | every call carried out on a job is of the company that enqueued it |
| `JobQueue.OverIff` | ops/operations/src/operations.ts:149-166 | a job is marked as over exactly while its last end is not replayed, and knows an error once it has failed |
| `JobQueue.SuccessIsFinal` | ops/operations/src/operations.ts:149-166 | a job that succeeded is never changed again |
| `JobQueue.OneJobPerRequest` | ops/operations/src/operations.ts:139-147 | no run holds two jobs of one company, kind and key |
| `JobQueue.EnqueueAnswersItsJob` | ops/operations/src/operations.ts:139-147 | where companies and kinds hold no colon, enqueuing answers with the job asked for, and again with the same |
| `JobQueue.KeyIsSharedIff` | ops/operations/src/operations.ts:141-141 | some other company, kind and key have a request's key exactly when one of its three holds a colon |
| `JobQueue.MistakenIff` | ops/operations/src/operations.ts:139-147 | in some run a request is answered with another's job exactly when its company or kind holds a colon, or its key one with more than blanks after it |
| `JobQueue.MistakenRun` | ops/operations/src/operations.ts:139-147 | such a run, for every such request |
| `JobQueue.ColonsCollide` | ops/operations/src/operations.ts:141-143 | two requests whose kinds hold colons are answered with one job |
| `JobQueue.OperationalQueue.EnqueueJob` | ops/operations/src/operations.ts:139-147 | `enqueue` on the stored maps is the specification |
| `JobQueue.OperationalQueue.BeginJob` | ops/operations/src/operations.ts:149-149 | `begin` likewise |
| `JobQueue.OperationalQueue.SucceedJob` | ops/operations/src/operations.ts:150-150 | `succeed` likewise |
| `JobQueue.OperationalQueue.FailJob` | ops/operations/src/operations.ts:151-156 | `fail` likewise, with what it writes to the audit log |
| `JobQueue.OperationalQueue.ReplayJob` | ops/operations/src/operations.ts:157-166 | `replay` likewise, with what it writes to the audit log |
| `Sorting.SortSorts` | apps/api/src/books-entry-application.ts:363-363 | a stable sort by an order of some key is in that order |
| `Sorting.SortIsStable` | apps/api/src/books-entry-application.ts:363-363 | and keeps elements that compare equal in the order they were in |

## Left out

The desks

- Two cash requests at one moment: the code reads, then posts, and says itself (books-entry-application.ts:392-393) that both may pass; calls are made one at a time here. The same goes for two approvals of one statement.
- What a person typed for a choice or a date arrives already read (`Head`, `Way`, `DateText`); texts of amounts are read in full.
- Voucher numbers, audit events of the ledger and the composition desk, the sentences and effects shown to a person.
- Blank request ids after trimming: ids and reasons arrive trimmed.
- The checks for an account of another company, mixed currencies and a voucher of zero: the model has one company and one currency, and a voucher of at least two lines with an amount each is never zero.
- The yearly return, the limit watch, due dates and quarter arithmetic of the composition desk.
- Scheme: whether a date begins a financial year arrives as an answer of the shop, like its bills and goods; the warnings and sentences of a preview.
- Ledger drafts: vouchers are posted final; a draft may be in the books the desk starts from.

The caches

- All `DurableMap` objects are one memory keyed by company, kind and key; the company of a key is part of its id. Weakly held maps, the `replayed` and `forgotten` hooks and the `#replaying` flag are not modelled.
- Writes outside any action, requests that only read, nested savepoints and overlapping actions in `durable.ts`.
- Sealing and encoding: a value is stored as it is; only that sealing lets a removal overtake it is kept.
- Values that are null: a stored null is a removed record.
- MasterView: the kinds of records, all of which the copy keeps; the read model on top of the stores; clearing all copies when the database handle changes is a restart.
- An action that fails while its own refresh is still running: the callers await `refreshMasterView`, so the protocol's steps leave it out; `FailMidRefreshIff` says what it would do.
- Work that catches the refusal of another company's key and goes on: a refused write ends the action.

The algorithms

- ItemPicker: how an item's fields and a query are normalised into words and codes, and the order of names, which arrives as a number.
- Address: dotted-quad tails and zone ids; capitals outside ASCII.
- EnvFile: updates whose keys look like whole numbers, which JavaScript would reorder, since they are not valid keys.
- JobQueue: times and random ids; an id is the job's place, a time is not kept.
- Converting paise to floating-point rupees for display.
