# Verified models of add-on purchases, calendar arithmetic and the DirectAdmin client

Dafny models of the parts of the repository whose correctness depends on more than one function at a time, with
proofs of what those parts promise. `dafny verify dfyconfig.toml` verifies everything.

**Buying an add-on from the wallet.**

- `Ledger` is the wallet ledger run one entry at a time; `RowLock` is the same ledger as concurrent database
  statements under a row lock, and is proved to amount to single entries.
- `Keys` builds the idempotency keys; `Requests` says which requests of clients and operators may start a purchase,
  `Closings` who may close an order.
- `Protocol` is the purchase and the closing of its order as a transition system. Each database, ledger or ticket
  call is one atomic step, any number of calls are in flight, any step may fail, and any call may stop for good
  between two steps. `ProtocolInvariant` and `ProtocolSteps` hold the inductive invariant and its proof;
  `ProtocolMoney`, `ProtocolTheorems` and `Deliveries` hold the results over all runs.
- `AddonService` is the code as it runs, statement after statement over mutable tables. Each method is proved to be a
  run of protocol steps, so the results over all interleavings hold of it, and run alone to leave exactly the state
  named in `PurchaseOutcome` or `CloseOutcome`.
- `Priority` is the length of the support period over whole runs of purchases; `PriorityRuns` holds two concrete runs
  in which purchases come in each other's way, `RepeatedRun` one in which an answer does not hold.

**Calendar arithmetic.** `Gregorian` models day numbers, `Date.UTC` and the `getUTC…` readers after ECMA-262 (sections
21.4.1 and 21.4.3.4) and proves that day numbers and real dates of the proleptic Gregorian calendar correspond one to
one. `Calendar` (shifting days and months, the month grid), `DateText` (printing and parsing) and `WallClock` (from a
Polish wall-clock time to an instant) build on it.

**The DirectAdmin client and the article parser.** `NodeCircuit` is the circuit breaker over its two maps, with the
reading of a history that it is proved to agree with; `NodeClient` adds the interceptors. `Limits` holds the two
writers of account limits, `PackageTexts` everything else that a package says. `PercentCode` and `FileAddress` model
`encodeURIComponent` and the file-manager address against decoding and against RFC 3986, section 5.2.4.
`MarkdownLines`, `MarkdownInline` and `Markdown` are the parser of knowledge-base articles: the tests of a line, the
marks inside it, and the blocks; `MarkdownShown` says of each form of line, by its characters, what it shows.

## What the proofs found

Each of these is a lemma, with the exact condition where there is one.

- Row ids without colons are not enough to keep ledger keys apart: the id `zwrot` has no colon, and its charge key can
  equal another row's refund key (`Keys.RefundSuffixAsId`, `Keys.ChargeIsRefundIff`). Row ids are UUIDs, so this does
  not occur.
- A client may choose a key that starts with `op:`; one that spells out an operator's decision for the same user meets
  it, be that a form's key or a five-minute window, and nothing else does (`Keys.ClientMeetsOperatorIff`). The forms
  accept such keys (`Keys.AcceptedKeyMeetsOperator`).
- The ledger's documentation promises that a repeated key returns the existing entry. A call that loses the race for
  its key may instead report too little money; the money is right either way
  (`RowLock.RepeatedKeyMayReportInsufficient`, `RowLock.FinishesLikePost`). The purchase protocol never runs into this:
  a key that a call is to post under is new to the ledger, and no two calls are to post under one key
  (`ProtocolTheorems.OwedIsNew`, `ProtocolTheorems.OwedKeysDiffer`).
- A purchase whose key is taken is told that it has been bought already. That is so exactly if the row it read is not
  pending (`ProtocolTheorems.RepeatedAnswerIff`); a pending one may yet be declined, and then nothing was bought by
  either call (`RepeatedRun.RepeatedOfNothing`).
- No paid day of priority support is lost as long as a user's purchases read and write the period in turn
  (`Priority.NoPaidDayLost`). Of two that both read it before either writes, the later write overwrites the other, which
  loses nothing exactly if the first period would be over by the second delivery
  (`Priority.OverlappingPurchasesLoseAPeriod`). A run reaches the loss (`PriorityRuns.PeriodLost`).
- A running period can be extended by a purchase that did not ask for it: exactly if others wrote it between its
  check and its delivery, and the last of them from a start less than a period ago (`Priority.UnaskedExtensionIff`). A
  run does so (`PriorityRuns.ExtendedUnasked`).
- Of the closings of an order exactly one decides it once any has tried, but only as long as no refund fails: a failed
  refund puts the order back in the queue (`ProtocolTheorems.ExactlyOneDecides`, `ProtocolTheorems.RefusalReverts`).
- `Date.UTC` reads the years 0 to 99 as 1900 to 1999, so shifting days or months through such a year does not add up
  (`Calendar.ShiftsAddIff`, `Calendar.ShiftMonthsAddIff`), and 29 February 0000 is rejected.
- The date parser accepts month `00` with any day up to 31, and hours and minutes of any two digits
  (`DateText.AcceptedIff`). Years with a leading zero do not print back as they were read (`DateText.PrintOfDateIff`).
- A wall-clock time in a spring gap within an hour of midnight comes out on the next day (`WallClock.AtClockDayIff`), and
  for every day outside the years 0 to 99 there is a clock change with such a gap (`WallClock.GapPastMidnight`). On the
  two days next to those years the time can come out wrong altogether (`WallClock.AtClockShowsIff`).

## Model

| member | source | states |
|---|---|---|
| `Ledger.PostKeepsSound` | apps/api/src/billing/wallet-ledger.service.ts:148-243 | after any entry every balance is the opening balance plus the owner's entries and not negative, every entry carries the running balance, and no key repeats |
| `Ledger.RepeatedPost` | apps/api/src/billing/wallet-ledger.service.ts:95-108 | a second request with the key of a written entry moves nothing, and returns that entry exactly unless the key is empty |
| `Ledger.PostAllKeepsSound` | apps/api/src/billing/wallet-ledger.service.ts:86-134 | the same for any sequence of requests |
| `Ledger.WalletLedger.ApplyEntry` | apps/api/src/billing/wallet-ledger.service.ts:86-134 | books and answer after the statements run in place are those of one `Post`, in every error case |
| `RowLock.CommitPosts` | ops/scripts/test-wallet-concurrency.ts:26-51 | committing writes exactly what posting to the books of that moment writes, though the balance was computed earlier |
| `RowLock.StepKeepsInv` | ops/scripts/test-wallet-concurrency.ts:26-51 | every statement of every call keeps what the other calls rely on under their locks |
| `RowLock.NoLostUpdate` | ops/scripts/test-wallet-concurrency.ts:81-91 | in every state of every interleaving the books are the committed requests one after another, and sound |
| `RowLock.OnlyOwnersWrite` | apps/api/src/billing/wallet-ledger.service.ts:148-243 | in every state of every interleaving the opening entries stand, and each entry behind them was written for a positive request of its user, by as much as it asked, to an account that is no sub-account; no account becomes one |
| `RowLock.FinishesLikePost` | apps/api/src/billing/wallet-ledger.service.ts:111-133 | a call answers and changes the books as one `Post` at the step that finishes it, exactly unless its key is in the ledger by then though its own look-up is over: it then reports its failed check and changes nothing |
| `RowLock.UnfinishedStepsAreInvisible` | apps/api/src/billing/wallet-ledger.service.ts:111-114 | until a call finishes nobody sees any of it |
| `RowLock.RepeatedKeyMayReportInsufficient` | apps/api/src/billing/wallet-ledger.service.ts:115-131 | a concrete run in which a repeated key is answered with too little money |
| `Keys.LedgerKeysOfDistinctRows` | apps/api/src/addons/addon.service.ts:107-114 | charge keys of distinct colon-free ids differ, and so do refund keys |
| `Keys.ChargeKeysAgreeIff` | apps/api/src/addons/addon.service.ts:107-114 | charge keys of colon-free ids agree exactly for the same row and the same purchase key, where none, an empty one and the stand-in count as one |
| `Keys.ChargeIsRefundIff` | apps/api/src/addons/addon.service.ts:107-114 | a charge key equals a refund key exactly if its id is `zwrot` and its purchase key the other charge key |
| `Keys.RefundSuffixAsId` | apps/api/src/addons/addon.service.ts:107-114 | colon-free ids are not enough: a charge key that is a refund key |
| `Keys.LedgerKeysApart` | apps/api/src/addons/addon.service.ts:107-114 | with ids of the shape used, no ledger key of one row is any ledger key of another and a row's two keys differ |
| `Keys.SameKeyIff` | apps/api/src/addons/addon.service.ts:203-213 | purchase keys agree exactly for the same user and decision |
| `Keys.WindowDecisionIff` | apps/api/src/addons/addon.service.ts:105-105 | without a client key, two requests are one decision exactly for the same add-on and service in the same five-minute window |
| `Keys.ClientKeysAgreeIff` | apps/api/src/addons/addon.service.ts:203-213 | two requests of clients with keys of their own are one exactly for the same user and key; one without a key is the same as one with exactly if the key spells its window out |
| `Keys.ClientMeetsOperatorIff` | apps/api/src/addons/addon.service.ts:203-213 | a client's request, with a key of its own or without, meets an operator's decision, with a form key or without, exactly if it is for the same user and its key spells the decision out after `op:` |
| `Keys.AcceptedKeyMeetsOperator` | apps/api/src/addons/dto/purchase-addon.dto.ts:35-48 | an operator's decision without a form key can be spelt out in a key that the client's form accepts, exactly if it is not too long and the service's id has only the code points of letters, digits, `-`, `.`, `:` and `_`; it then meets the decision |
| `Requests.ChargesWereWanted` | apps/api/src/addons/addon.service.ts:238-324 | in every run, whatever a wallet was charged for an add-on is the charge of one purchase, for the row that purchase created, at the catalogue price, and its owner wanted it: it was their own purchase, or an operator's at their request in a ticket of theirs, with a reason given, for a service of theirs neither suspended nor ended |
| `Requests.OneChargeEach` | apps/api/src/addons/addon.service.ts:540-551 | in every run, different charges belong to different purchases |
| `Requests.RowsWereAllowed` | apps/api/src/addons/addon.service.ts:238-324 | in every run, every row, free ones included, came of a request entitled to it: a client for themselves, or an operator for a service not ended, of a client unless as administrator, with a reason of ten characters and no ticket but the client's, and from the wallet only as asked for there and for a service not suspended; its slug, add-on and price are those of the catalogue in numbers |
| `Closings.ClosingsWereAllowed` | apps/api/src/addons/addon.service.ts:397-414 | in every run, every order that stands decided was decided by a request to close that very order that way, by an administrator unless it is a client's, with a text of at most a thousand characters and of at least ten for a refusal |
| `Deliveries.DeliveredAsBought` | apps/api/src/addons/addon.service.ts:558-606 | in every run, what went through is applied without a ticket exactly if it is priority support, and otherwise has exactly one ticket, which is the buyer's; and no period is recorded as an extension unless the buyer agreed to one |
| `Requests.OperatorDecidesOnce` | apps/api/src/addons/addon.service.ts:313-324 | in every run, calls started with one form key for one client never both buy, whoever sent them and whenever |
| `Requests.ClientDecidesOnceIff` | apps/api/src/addons/addon.service.ts:203-213 | requests of clients without a key share their purchase key exactly for the same user, add-on, service and window |
| `ProtocolSteps.StepKeepsInv` | apps/api/src/addons/addon.service.ts:502-606 | every step of every call, failing or stopping ones included, keeps the invariant that relates rows, calls, tickets, deciders and ledger entries |
| `ProtocolSteps.RunInv` | apps/api/src/addons/addon.service.ts:397-440 | the invariant holds in every state of every run of purchases and closings |
| `ProtocolTheorems.OneDecision` | apps/api/src/addons/addon.service.ts:515-606 | under one key there is at most one row, one ticket, one charge without an equal refund, and one call that buys |
| `ProtocolTheorems.AnswersAreTrue` | apps/api/src/addons/addon.service.ts:515-606 | success means the row as requested with exactly its price charged to the buyer; a released purchase left no row, ticket or money held; a repeated one created and paid for nothing, and names a row of its key that went through exactly if the call that created it bought; one that failed never created a row |
| `ProtocolTheorems.RepeatedAnswerIff` | apps/api/src/addons/addon.service.ts:216-236 | that the purchase has been made already is so, when it is answered, exactly if the row read is not pending, and is then so for good |
| `RepeatedRun.RepeatedOfNothing` | apps/api/src/addons/addon.service.ts:523-551 | a run from empty tables in which the answer refers to a purchase that is then declined: no row, no ticket, nothing bought |
| `ProtocolTheorems.OneDecider` | apps/api/src/addons/addon.service.ts:411-419 | of all concurrent closings of an order at most one is deciding or has decided it |
| `ProtocolTheorems.TurnedAwayIff` | apps/api/src/addons/addon.service.ts:411-419 | in every run, a closing that reaches its conditional update is turned away exactly if another closing has decided the order; it then changes nothing, and the order shows the other's decision |
| `ProtocolTheorems.ExactlyOneDecides` | apps/api/src/addons/addon.service.ts:397-440 | once any closing has tried, unless a refund of the order fails, exactly one closing has closed it when everything is at rest |
| `ProtocolTheorems.OwedIsNew` | apps/api/src/addons/addon.service.ts:542-600 | in every run, no entry that a call is to post next, or was when it stopped, has its key in the ledger already, so the ledger never takes a new entry for a repeated one |
| `ProtocolTheorems.OwedKeysDiffer` | apps/api/src/addons/addon.service.ts:542-600 | no two calls are to post under one ledger key |
| `ProtocolTheorems.ClosedOutcome` | apps/api/src/addons/addon.service.ts:411-440 | a closed order is done with its charge kept or refunded with exactly that amount returned to the buyer, never both |
| `ProtocolTheorems.DecisionIffClosed` | apps/api/src/addons/addon.service.ts:409-440 | with nothing in flight or stopped half-way, an order shows a decision exactly if some closing made it |
| `ProtocolTheorems.DecidedRowStands` | apps/api/src/addons/addon.service.ts:411-440 | while one call decides, no step of any other touches the order's row |
| `ProtocolTheorems.DecidedRowHeld` | apps/api/src/addons/addon.service.ts:411-440 | over any stretch of a run during which a call keeps deciding, the order's row stays the same |
| `ProtocolTheorems.RefusalReverts` | apps/api/src/addons/addon.service.ts:421-440 | a refusal whose refund failed leaves the row exactly as before the decision, with no refund paid |
| `ProtocolMoney.Conservation` | apps/api/src/addons/addon.service.ts:511-606 | with nothing in flight or stopped half-way, each balance is the balance without add-ons minus the user's queued, applied and done purchases |
| `ProtocolMoney.OutsideIs` | apps/api/src/billing/wallet-ledger.service.ts:86-134 | the balance without add-ons is the opening balance plus the user's entries whose key is not an add-on's |
| `ProtocolMoney.BalanceFromOpening` | apps/api/src/addons/addon.service.ts:511-606 | so, at rest, every balance follows from the opening balance, the other entries and the rows |
| `ProtocolMoney.OrderListsRows` | apps/api/src/addons/addon.service.ts:515-518 | the total in `Conservation` counts every row once |
| `ProtocolMoney.HeldAlways` | apps/api/src/addons/addon.service.ts:542-606 | in any state at all, calls stopped anywhere, exactly the price or nothing is held for a purchase, and only while its row exists |
| `ProtocolMoney.BooksStaySound` | apps/api/src/addons/addon.service.ts:542-600 | purchases and closings keep the ledger sound in every run |
| `AddonService.AddonService.Purchase` | apps/api/src/addons/addon.service.ts:502-606 | `zrealizuj` is a run of protocol steps whatever fails, and alone leaves the row, ticket, period and books of a purchase, or nothing a user could notice, or on an uncaught error the claimed row and beside it nothing, the charge, or the charge with all that was bought |
| `AddonService.AddonService.CloseOrder` | apps/api/src/addons/addon.service.ts:397-440 | `zamknijZlecenie` is a run of protocol steps, and alone closes the order and returns exactly what is due, or changes nothing, or on an uncaught error leaves it refused without refund |
| `AddonService.AddonService.CreateRow` | apps/api/src/addons/addon.service.ts:511-528 | the claim inserts the pending row exactly if no row holds the key |
| `AddonService.AddonService.RunningPeriod` | apps/api/src/addons/addon.service.ts:531-538 | a running period stops the purchase unless its extension was asked for |
| `AddonService.AddonService.Fulfil` | apps/api/src/addons/addon.service.ts:558-587 | fulfilment extends the period or opens one ticket, or leaves both tables as they were |
| `AddonService.AddonService.Compensate` | apps/api/src/addons/addon.service.ts:588-600 | after a failed fulfilment the refund is posted and the row removed |
| `AddonService.RefundRestores` | apps/api/src/addons/addon.service.ts:588-598 | the charge and its refund together leave every account as it was |
| `AddonService.PathKeepsInv` | apps/api/src/addons/addon.service.ts:502-606 | a run of the code keeps the protocol's invariant |
| `Priority.PeriodClosedForm` | apps/api/src/addons/addon.service.ts:562-571 | after purchases in turn the period ends at the maximum of the old end plus all periods and of each purchase's time plus the periods from it on |
| `Priority.RunHasMoves` | apps/api/src/addons/addon.service.ts:502-606 | every run of the protocol is made by some sequence of calls and actions, so what follows is about every run |
| `Priority.PeriodOverRun` | apps/api/src/addons/addon.service.ts:562-571 | in every state of every run in which no two purchases of a user stand between reading the period and writing it, the period ends where the purchases delivered so far put it one after another |
| `Priority.NoPaidDayLost` | apps/api/src/addons/addon.service.ts:562-571 | so in such runs the period lasts at least for all that was bought, counted from any delivery on, and for no more than one of these |
| `Priority.UnaskedExtensionIff` | apps/api/src/addons/addon.service.ts:531-538 | in every run, a purchase that passed the check without asking for an extension finds a running period at its delivery exactly if purchases wrote the period in between and the last of them from a start less than a period ago |
| `Priority.DeliveryExtends` | apps/api/src/addons/addon.service.ts:562-571 | the read and the write of a delivery together extend the period that was read |
| `Priority.PeriodInDays` | apps/api/src/addons/addon.service.ts:562-571 | a period written from an instant on ends at the same time of day thirty days later, on the day that the date picker's shift by 30 gives, exactly if the year of the instant is not 0 to 99 |
| `Priority.OverlappingPurchasesLoseAPeriod` | apps/api/src/addons/addon.service.ts:562-571 | in every run, of two purchases that both read the period before the first of them writes it, in either order, the later write overwrites the other, which loses nothing exactly if the first period would be over by the second delivery |
| `PriorityRuns.PeriodLost` | apps/api/src/addons/addon.service.ts:562-571 | a run from empty tables in which two periods are paid for and one is left |
| `PriorityRuns.ExtendedUnasked` | apps/api/src/addons/addon.service.ts:531-571 | a run in which a purchase that did not ask for an extension passes the check and extends a running period |
| `Gregorian.DayFromYearIsFormula` | apps/admin-panel/src/lib/kalendarz.ts:39-57 | counting year lengths gives the closed form of ECMA-262 for the day number of 1 January |
| `Gregorian.YearUnique` | apps/admin-panel/src/lib/kalendarz.ts:54-57 | a day number falls in one year only |
| `Gregorian.CivilFromDay` | apps/admin-panel/src/lib/kalendarz.ts:54-57 | the readers of a day number give a real date whose day number it is |
| `Gregorian.CivilBijection` | apps/admin-panel/src/lib/kalendarz.ts:54-57 | reading and making day numbers undo each other, for all numbers and all real dates |
| `Gregorian.ReadersAgree` | apps/admin-panel/src/lib/kalendarz.ts:54-57 | the readers compute the one real date of a day number |
| `Gregorian.NextMonth` | apps/admin-panel/src/lib/kalendarz.ts:39-41 | the first of the next month comes as many days later as the month has, over year ends and for months outside 0..11 |
| `Gregorian.MakeDayIsDayNumber` | apps/admin-panel/src/lib/kalendarz.ts:39-57 | months and years added up give the day number by arithmetic alone, with 153 days to every five months from March on, for months outside 0..11 and any day as well |
| `Gregorian.MonthsInNumbers` | apps/admin-panel/src/lib/kalendarz.ts:39-57 | February begins 31 days after January, March as many days before the end of the year as its months have, and the months from March on by 153 days in five |
| `Gregorian.ValidIsReal` | apps/admin-panel/src/lib/kalendarz.ts:39-41 | the real dates are those before the first of the next month by that arithmetic |
| `Gregorian.ReadersInClosedForm` | apps/admin-panel/src/lib/kalendarz.ts:54-57 | the readers give a date exactly if it is real and has that number by the arithmetic |
| `Gregorian.WeekDaysInTurn` | apps/admin-panel/src/lib/kalendarz.ts:44-51 | 1 January 1970 is a Thursday, and the days of the week come round in turn |
| `Calendar.ShiftByZeroIff` | apps/admin-panel/src/lib/kalendarz.ts:54-57 | shifting by nothing is the identity exactly outside the years 0 to 99 |
| `Calendar.ShiftsAddIff` | apps/admin-panel/src/lib/kalendarz.ts:54-57 | two shifts amount to their sum exactly if the date in between has no year 0 to 99 |
| `Calendar.ShiftMovesDays` | apps/admin-panel/src/lib/kalendarz.ts:54-57 | a shift lands on a real date exactly that many days away |
| `Calendar.ShiftBack` | apps/admin-panel/src/lib/kalendarz.ts:54-57 | shifting back undoes a shift |
| `Calendar.ShiftInClosedForm` | apps/admin-panel/src/lib/kalendarz.ts:54-57 | a shift reaches exactly the real date that the arithmetic numbers that many days further |
| `Calendar.DayLater` | apps/admin-panel/src/lib/kalendarz.ts:54-57 | from the date of any day number a shift reaches the date of the sum exactly if the date has no year 0 to 99 |
| `Calendar.MonthLengthCounts` | apps/admin-panel/src/lib/kalendarz.ts:39-41 | the day before the first of the next month numbers the days of the month meant |
| `Calendar.MonthLengthInNumbers` | apps/admin-panel/src/lib/kalendarz.ts:39-41 | in numbers: 30 for April, June, September and November, 28 or 29 for February by the leap-year rule, and 31 for the rest; and the days between firsts of months by the arithmetic |
| `Calendar.MonthLengthRightIff` | apps/admin-panel/src/lib/kalendarz.ts:39-41 | the length is right for every month but February of the year 0 |
| `Calendar.ShiftMonthsLands` | apps/admin-panel/src/lib/kalendarz.ts:59-64 | the month moves by exactly the number given and the day is kept or cut to the month's last |
| `Calendar.ShiftMonthsValid` | apps/admin-panel/src/lib/kalendarz.ts:59-64 | the result is a real date |
| `Calendar.ShiftMonthsTwice` | apps/admin-panel/src/lib/kalendarz.ts:59-64 | two shifts reach the month of the combined one, never a later day, and the same day from any day up to 28 |
| `Calendar.ShiftMonthsAddIff` | apps/admin-panel/src/lib/kalendarz.ts:59-64 | they agree exactly if the month in between has no year 0 to 99 and is long enough for the day or for the month reached |
| `Calendar.GridIsConsecutive` | apps/admin-panel/src/lib/kalendarz.ts:44-51 | the grid is 42 real days in a row from a Monday |
| `Calendar.GridShowsMonth` | apps/admin-panel/src/lib/kalendarz.ts:44-51 | it shows each day of the month once, in one block that starts in the first week, and no other day of that month |
| `Calendar.GridInClosedForm` | apps/admin-panel/src/lib/kalendarz.ts:44-51 | each cell is the real date that the arithmetic numbers, counted from the Monday before the first of the month, 5 January 1970 being a Monday |
| `DateText.ParseOfPrintIff` | apps/admin-panel/src/lib/kalendarz.ts:12-29 | what was printed is read back exactly for years of four digits |
| `DateText.PrintedInFull` | apps/admin-panel/src/lib/kalendarz.ts:12-29 | the printed text character by character: two digits for each half of the year, for the month from 1 on, day, hour and minute, with `-`, `T` and `:` between |
| `DateText.PrintOfDateIff` | apps/admin-panel/src/lib/kalendarz.ts:14-25 | a date read prints as the text it was read from exactly if that does not begin with a zero |
| `DateText.PrintOfTimeIff` | apps/admin-panel/src/lib/kalendarz.ts:19-29 | the same with its time |
| `DateText.AcceptedIff` | apps/admin-panel/src/lib/kalendarz.ts:19-25 | exactly which text is accepted: real days and days of month 00, but not 29 February 0000 |
| `DateText.DecimalOfValue` | apps/admin-panel/src/lib/kalendarz.ts:12-16 | digits without a leading zero print back as they were |
| `WallClock.OffsetIff` | apps/admin-panel/src/lib/kalendarz.ts:102-105 | the offset recomputed from the parts is the zone's exactly outside the years 0 to 99 |
| `WallClock.TwoStepsSuffice` | apps/admin-panel/src/lib/kalendarz.ts:106-108 | for every zone of one or two hours with changes more than two hours apart, two steps reach the latest instant that shows the time, or one hour more in a gap |
| `WallClock.AtClockShowsIff` | apps/admin-panel/src/lib/kalendarz.ts:99-109 | for every day, the instant is the latest that shows the clock of the pattern on the day as `Date.UTC` reads it, or an hour more in a gap, exactly unless the two steps go wrong: in the first hour of 1 January 100 if the clock has just changed, and at the end of the year before 0 if the clock of nineteen centuries earlier was another |
| `WallClock.AtClockDayIff` | apps/admin-panel/src/lib/kalendarz.ts:92-109 | for every day, it falls on the day asked for exactly unless the year is 0 to 99, or the time is in a gap within an hour of midnight, or the two steps went wrong and led to another day |
| `WallClock.AtClockInvertsIff` | apps/admin-panel/src/lib/kalendarz.ts:92-109 | for every instant, asking for its own day and clock gives it back exactly unless its year is 0 to 99 or its hour comes round again; where the two steps go wrong, exactly if it does |
| `WallClock.FirstOfYear100Iff` | apps/admin-panel/src/lib/kalendarz.ts:99-109 | on 1 January 100 the steps use the zone's offsets exactly unless the clock changed just before and the time is in the first hour |
| `WallClock.GapPastMidnight` | apps/admin-panel/src/lib/kalendarz.ts:99-109 | for every day outside the years 0 to 99 there is a zone with a gap that puts half past eleven in the evening on the next day |
| `NodeCircuit.Circuits.RecordFailure` | libs/directadmin-sdk/src/node-circuit.ts:43-53 | the maps after a failure, and whether it opened the breaker |
| `NodeCircuit.Circuits.RecordSuccess` | libs/directadmin-sdk/src/node-circuit.ts:55-58 | a success forgets the node in both maps |
| `NodeCircuit.Circuits.NodeDownFor` | libs/directadmin-sdk/src/node-circuit.ts:61-69 | the time left, and the deletion of an expired entry |
| `NodeCircuit.LastTimeoutKept` | libs/directadmin-sdk/src/node-circuit.ts:46-50 | one map holds exactly the latest timeout since the last success |
| `NodeCircuit.OpensIff` | libs/directadmin-sdk/src/node-circuit.ts:43-53 | the breaker opens on exactly the failures that the history calls opening: a failed connection, or a timeout within five minutes of the timeout before it |
| `NodeCircuit.DownUntilKept` | libs/directadmin-sdk/src/node-circuit.ts:43-69 | the other map holds the latest opening failure, or has dropped it after its two minutes |
| `NodeCircuit.BreakerReadsHistory` | libs/directadmin-sdk/src/node-circuit.ts:42-69 | the node is refused exactly if an opening failure since its last success is under two minutes old, for the time left since the latest; questions and other nodes play no part |
| `NodeCircuit.BreakerInCodes` | libs/directadmin-sdk/src/node-circuit.ts:22-69 | in error codes and numbers: a node is refused exactly if less than 120000 ms ago, with no success since, a connection to it failed or it timed out within 300000 ms of the timeout before |
| `NodeCircuit.FirstFailure` | libs/directadmin-sdk/src/node-circuit.ts:34-53 | the first failure of a node shuts it for 120000 ms for exactly the five connection codes, and not at all for any other |
| `NodeCircuit.TwoTimeouts` | libs/directadmin-sdk/src/node-circuit.ts:43-53 | two timeouts with nothing heard between them shut it exactly if they are at most 300000 ms apart |
| `NodeCircuit.AnsweredFailure` | libs/directadmin-sdk/src/node-circuit.ts:34-40 | a failure that carries a response changes no breaker in any history |
| `NodeClient.DaClient.BeginRequest` | libs/directadmin-sdk/src/client.ts:311-322 | a request is sent exactly if no time is left, and the refusal passes through the outcome interceptor |
| `NodeClient.DaClient.Answered` | libs/directadmin-sdk/src/client.ts:323-327 | an answer clears the node |
| `NodeClient.DaClient.Rejected` | libs/directadmin-sdk/src/client.ts:328-331 | a rejection is recorded as a failure of the node |
| `NodeClient.RefusalsLeaveNoTrace` | libs/directadmin-sdk/src/client.ts:310-332 | in every run the breaker is that of the real outcomes alone, up to entries already expired |
| `NodeClient.RefusedIff` | libs/directadmin-sdk/src/client.ts:310-332 | a request is kept from the node exactly if the real outcomes call it down |
| `NodeClient.RefusedInCodes` | libs/directadmin-sdk/src/client.ts:310-332 | that is, in error codes and numbers |
| `NodeClient.RefusalsNeverProlong` | libs/directadmin-sdk/src/client.ts:310-332 | two minutes after the last network failure the node is tried again, however many requests were refused |
| `Limits.KeyTextInjective` | libs/directadmin-sdk/src/client.ts:624-648 | no two parameters share a name, so none overwrites another or lifts its limit |
| `Limits.LimitsSent` | libs/directadmin-sdk/src/client.ts:624-648 | by the names and texts sent, `u` with the field's name goes out exactly for a limit to be lifted, and for any other exactly the digits of the number meant |
| `Limits.CarriedIsSent` | libs/directadmin-sdk/src/client.ts:624-648 | by parameter name and record field: `u` and the name exactly for an unlimited field, and otherwise exactly the digits of the whole number at or below the value, though at least 1 for disk and transfer |
| `Limits.WritersAgree` | libs/directadmin-sdk/src/client.ts:1008-1032 | so the package writer and the account writer lift the same limits and send the same numbers |
| `Limits.WrittenCount` | libs/directadmin-sdk/src/client.ts:633-636 | a count reads back from its digits |
| `Limits.SetLimit` | libs/directadmin-sdk/src/client.ts:624-637 | a limit set is read as meant and no other parameter changes |
| `Limits.SetField` | libs/directadmin-sdk/src/client.ts:1018-1021 | the same for a field not written before, though nothing is ever removed |
| `Limits.PackageLimits` | libs/directadmin-sdk/src/client.ts:638-648 | all eleven limits of a package are read as meant |
| `Limits.BuildPackageParams` | libs/directadmin-sdk/src/client.ts:621-700 | the limits still are after everything else the package says is written, and go out by name and field as `CarriedIsSent` has it |
| `PackageTexts.PackageSaysInFull` | libs/directadmin-sdk/src/client.ts:621-700 | everything else in that body by name and text: which switches are on, off or left out by default, whole units with their suffixes, language and skin; and no text hides another |
| `Limits.AccountLimits` | libs/directadmin-sdk/src/client.ts:1017-1032 | all eleven limits of an account are read as meant, just as a package's are |
| `Limits.SendBack` | libs/directadmin-sdk/src/client.ts:1013-1033 | exactly the readable switches are sent, each as it was read |
| `Limits.SwitchesInFull` | libs/directadmin-sdk/src/client.ts:1008-1034 | the fifteen switches by name |
| `Limits.CustomizeUserLimits` | libs/directadmin-sdk/src/client.ts:1008-1034 | nothing is sent exactly if the settings could not be read; otherwise limits by name and field, switches unchanged, the account and its skin, and nothing else |
| `PercentCode.OctetsRead` | libs/directadmin-sdk/src/client.ts:2013-2019 | the UTF-8 octets of a character decode to it |
| `PercentCode.DecodeOfEncode` | libs/directadmin-sdk/src/client.ts:2013-2019 | `decodeURIComponent` undoes `encodeURIComponent` on all text |
| `PercentCode.EncodedAlphabet` | libs/directadmin-sdk/src/client.ts:2013-2019 | an encoded component holds letters, digits, the nine marks `-_.!~*'()` and `%` only |
| `PercentCode.EncodedCharIff` | libs/directadmin-sdk/src/client.ts:2013-2019 | a character is left as it is exactly if it is one of those letters, digits or marks; any other gives nothing but escapes in upper case |
| `FileAddress.AddressRoundTrip` | libs/directadmin-sdk/src/client.ts:2013-2019 | the segments of an address after its prefix decode to exactly the path's non-empty segments |
| `FileAddress.RefusedIff` | libs/directadmin-sdk/src/client.ts:2014-2017 | a path is refused exactly if it has a dot segment |
| `FileAddress.SameAddressIff` | libs/directadmin-sdk/src/client.ts:2013-2019 | two paths share an address exactly if their non-empty segments agree |
| `FileAddress.AddressIsKept` | libs/directadmin-sdk/src/client.ts:2004-2019 | removing dot segments, escaped ones included, changes no address |
| `FileAddress.AddressAlphabet` | libs/directadmin-sdk/src/client.ts:2004-2019 | an address holds letters, digits, `/`, `%` and the nine marks only, so no `?`, `#`, backslash, white space or anything outside ASCII |
| `FileAddress.JoinOfSplit` | libs/directadmin-sdk/src/client.ts:2013-2016 | the segments are what stands between the slashes |
| `FileAddress.NonEmptyOfSum` | libs/directadmin-sdk/src/client.ts:2013-2016 | dropping empty segments keeps the others in order |
| `FileAddress.DotSegments` | libs/directadmin-sdk/src/client.ts:2004-2012 | what RFC 3986 removes: one dot or two, each bare or escaped in either case |
| `MarkdownLines.KindsAgree` | libs/ui/src/markdown-kb.tsx:29-75 | the tests repeated by the inner loops agree with the kind found by the tests in order |
| `MarkdownInline.ParseInline` | libs/ui/src/markdown-kb.tsx:87-122 | the scanning loop, recursive for link captions, ends and yields the nodes of the specification |
| `MarkdownInline.FindMatch` | libs/ui/src/markdown-kb.tsx:85-91 | each match found is the leftmost: no mark begins before it |
| `MarkdownInline.InlineAllowed` | libs/ui/src/markdown-kb.tsx:18-19 | whatever the text, every link, nested ones included, and every image has an allowed target, and a link opens a new tab exactly if it leads to the web |
| `MarkdownInline.PlainIff` | libs/ui/src/markdown-kb.tsx:87-122 | a text is shown as it is exactly if no mark begins anywhere in it |
| `MarkdownInline.LinkAlone` | libs/ui/src/markdown-kb.tsx:97-110 | a link alone shows its caption under an allowed target and as mere text under any other |
| `MarkdownInline.ImageAlone` | libs/ui/src/markdown-kb.tsx:95-97 | an image alone shows under an allowed target, and nothing under any other |
| `MarkdownInline.CodeAlone` | libs/ui/src/markdown-kb.tsx:109-110 | text in backticks alone shows as code |
| `MarkdownInline.StrongAlone` | libs/ui/src/markdown-kb.tsx:111-112 | text in double stars alone shows in bold |
| `MarkdownInline.EmAlone` | libs/ui/src/markdown-kb.tsx:113-114 | text in single stars alone shows in italics |
| `MarkdownInline.LinkTargets` | libs/ui/src/markdown-kb.tsx:18-19 | the targets a link may have, by their characters in either case |
| `MarkdownInline.ImageTargets` | libs/ui/src/markdown-kb.tsx:18-19 | the targets an image may have |
| `Markdown.ArticleAllowed` | libs/ui/src/markdown-kb.tsx:3-13 | no element of any article shows an image or link with a target that is not allowed |
| `Markdown.ParseBlocks` | libs/ui/src/markdown-kb.tsx:22-82 | the loop with its inner loops ends and yields the blocks of the specification |
| `Markdown.ComposesIff` | libs/ui/src/markdown-kb.tsx:26-81 | lines with a blank line after them parse apart from what follows exactly if they leave no fence open |
| `Markdown.ArticleComposes` | libs/ui/src/markdown-kb.tsx:22-82 | so do the elements shown for two texts |
| `Markdown.EveryLineOnce` | libs/ui/src/markdown-kb.tsx:26-81 | the article is the pieces one after another; each piece is a blank line, or the line or lines its block keeps, with the fences around them if it is code; and these blocks are all there are, in order |
| `Markdown.BlocksOfPieces` | libs/ui/src/markdown-kb.tsx:26-81 | the blocks of an article are those of its pieces parsed apart |
| `Markdown.OneBlockEach` | libs/ui/src/markdown-kb.tsx:26-81 | a piece holds at least one line and at most one block |
| `MarkdownShown.GoesOnIff` | libs/ui/src/markdown-kb.tsx:20-20 | by its characters, a line goes on with a paragraph exactly if it is not blank and does not begin with one to four hashes and white space, a dash or star and white space, digits, a dot and white space, `>` and white space, or three backticks |
| `MarkdownShown.BeginsTextIff` | libs/ui/src/markdown-kb.tsx:29-79 | a line begins a paragraph exactly if it is not blank and has none of the forms of a fence, heading, quotation, rule or list item, each given by its characters |
| `MarkdownShown.ParagraphEndsIff` | libs/ui/src/markdown-kb.tsx:76-79 | over all texts, the block that a line begins as a paragraph takes exactly so many lines if those after the first go on and the next, if any, does not |
| `MarkdownShown.ParagraphShown` | libs/ui/src/markdown-kb.tsx:76-79 | for all texts, a line that begins a paragraph and all that go on, up to the first that does not, are one paragraph of those lines with spaces between them; what follows is shown as on its own |
| `MarkdownShown.CodeShown` | libs/ui/src/markdown-kb.tsx:33-44 | for all texts, the lines between two fences, or behind an open one, are shown as they are, line under line |
| `MarkdownShown.HeadingShown` | libs/ui/src/markdown-kb.tsx:45-52 | k hashes, white space and a text are a heading of level k + 1, but of 4 at most |
| `MarkdownShown.RuleShown` | libs/ui/src/markdown-kb.tsx:59-63 | three or more dashes, or stars, are a rule |
| `MarkdownShown.QuoteShown` | libs/ui/src/markdown-kb.tsx:53-58 | quoted lines, up to the first that is none, are one quotation of their texts with spaces between |
| `MarkdownShown.NumbersShown` | libs/ui/src/markdown-kb.tsx:64-69 | numbered lines, up to the first that is none, are one numbered list of their texts in order |
| `MarkdownShown.BulletsShown` | libs/ui/src/markdown-kb.tsx:70-75 | lines with a dash or star, up to the first without, are one list of their texts in order |
| `MarkdownShown.BlankShown` | libs/ui/src/markdown-kb.tsx:29-32 | a line of white space shows nothing |
| `MarkdownShown.WhiteInNumbers` | libs/ui/src/markdown-kb.tsx:29-29 | white space by its code points, as ECMA-262 has it for `trim` and `\s` |
| `MarkdownShown.JoinedThen` | libs/ui/src/markdown-kb.tsx:76-79 | joined texts have the gap between each two |

## Left out

- Money is counted in whole grosze; the columns hold two decimals.
- Ledger calls are single steps in the purchase protocol; `RowLock` justifies this for calls that do not race for one key, and `ProtocolTheorems.OwedKeysDiffer` says that calls of the protocol do not. A ledger call that commits and then reports an error is not modelled.
- Rows bought before purchase keys existed, whose key is null: every row of `Protocol` has a key.
- Entry types, descriptions, currencies, the invoices written with a charge and the transaction's timeouts and retries.
- Roles and text lengths of `zamknijZlecenie` appear in `Protocol` as one flag, `permitted`, which `Closings` takes apart; the ticket number and the client's request of `dodajPrzezOperatora` as what the look-ups found.
- Audit entries, events, e-mails, log lines and the team's reply in the ticket.
- Tickets are created or not created; creation always yields an id.
- Catalogue entries other than the three there are, and modes other than the two.
- Removal of a user with all rows.
- AddonService.AddonService.Conduct: run alone it cannot lose the order between looking and deciding; losing is a step of `Protocol.Decide`.
- The list view `overview`, and the wording of `odpowiedzZRekordu`: easy members only.
- `Date` values beyond 100,000,000 days from 1970 (`TimeClip`), `dzis`, and `doWyswietlenia`.
- WallClock.TwoStepsSuffice: assumes offsets of one or two hours and changes more than two hours apart instead of the time-zone database.
- Priority.UnaskedExtensionIff: for a clock that does not run backwards between check and delivery.
- Years before 1 as `Intl` writes them, counted within their era.
- NodeCircuit.BreakerReadsHistory: for a clock that does not run backwards.
- Lone surrogates, which `encodeURIComponent` rejects.
- Infinite and not-a-number limits, and numbers printed with an exponent.
- The eleven calls that write limits are a loop over a table of the fields in the same order.
- The HTTP exchange and the parsing of answers in `client.ts`.
- The lines of an article are given already split.
- React elements and their keys, and the attributes of links and images other than the target, the caption and the new tab.
