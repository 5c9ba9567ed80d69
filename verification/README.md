# A verified model of the competition backend

This project models the parts of the taekwondo federation's backend that keep real
state, and proves what holds over whole runs of them.

- **Ranking book** (`Points`, `RankingBook`, `RankingLaws`, `RankingRuns`,
  `RankingFacts`, `RankingTables`). Awards for paid enrollments and the medal ledger, both
  cached in `ranking_total` and `ranking_competition`. Points are integers in
  hundredths; every value in the code is exact in them.
- **Payments** (`Shares`, `Discounts`, `Payments`, `GroupLaws`, `PaymentRuns`,
  `PaymentInvariants`, `PaymentGuarantees`, `IntentStates`, `BankRecords`, `BankBooks`,
  `CodeCounts`, `GroupGuarantees`, `Settlement`, `Recovery`, `HandlerFacts`,
  `PaymentTables`). Intents, discount codes, group registrations, the bank's result and
  the two group finalisers. Amounts are rials.
- **Text-message codes** (`Sms`, `SmsTraces`). Register and forgot-password endpoints
  over one table.
- **Registration, approval and profile edits** (`Phones`, `Profiles`, `Registration`,
  `RegistrationTables`).
- **Coach approval codes** (`CoachCodes`) and the **Sadad signing input** (`Text`,
  `Sadad`).

Each request handler is one atomic step with one clock reading. The tables are first
modelled as values, with a function for each step; classes then update the same tables
in place, with the program's loops, and every method is proved to carry out its step.
Laws and invariants are proved about the steps, so they hold of the classes; what a
single step does is told once more in the rows themselves (`RankingFacts`,
`HandlerFacts` and the like), without the functions that compute it. An award
callback queued by a save runs when its transaction commits. Row ids are positions in
a table, or counters. `hide` statements only withhold definitions from the verifier
where a proof does not need them.

## What the proofs found

- *Settlement is retry-safe for a record found by its token* (`HandleAgain`,
  `LaterHandlingSettles`). After a second trip to the bank the first trip's record is
  found only through the bank id kept in `ref_id`, and that field fails in two ways.
  - Marking the intent paid overwrites it. If finalising then fails once, the same
    record never leads to the intent again (`RetryFinishesIff`), and the group stays
    unpaid until a record that leads to an intent naming it is handled, such as the
    second trip's (`LostGroupSettledIff`, with the run `EarlierTripLosesGroup` and
    `SecondTripFindsGroup`).
  - It also holds bank reference numbers. If a newer intent was paid under a number
    equal to the record's id, the confirmed payment is not booked and the answer names
    the other intent (`ConfirmedPaymentMissed`); the exact condition is
    `RecordReachesItsIntentIff`. As long as the bank repeats no tracking code, no intent
    is paid by another's record (`PaidByItsOwnRecord`).
- *Not every confirmed payment is booked*: those that do not lead back are not, and when
  two trips of one intent are both confirmed the second payment is not either.
  `BooksBalanceIff` says exactly when the sums agree.
- *A group is settled by whatever intent names it.* The description is text of the
  client, and the finaliser trusts it: a group can be settled while its own intent is
  unpaid, by an intent of another amount (`ForeignIntentSettlesGroup`; exactly when:
  `GroupSettledIff`, `SettledByOwnIntentIff`). Its enrollments are in order all the same
  (`ActAllKeepsGroups`).
- *The two ways of approving a profile edit copy different columns*
  (`EditRoutesAgreeIff`, `RoutesDifferOnBoard`).
- *The approve endpoint does not report a new code.* `set_fresh_code` writes a second
  copy of the row, so the request that draws a code answers with none
  (`ReportsStoredCodeIff`, `FirstApprovalReportsNothing`).
- *The cap of a discount code limits quotes, not payments* (`CapCanBeExceeded`,
  `PaymentWithinCapIff`). Once reached it is final (`CapIsFinal`), and the counter passes
  it by no more than the quotes still unpaid then (`OvershootIsUnpaidQuotes`).
- payments/tests.py:14-22 expects the `fake` gateway to settle an intent at start. The
  code at payments/views.py:1096-1098 answers "unsupported gateway"; the model follows
  the code.

## Model

| member | source | states |
|---|---|---|
| `Shares.SplitAmounts` | payments/views.py:84-94 | The parts are the even split: they add up to the total, larger parts first, no two more than 1 apart; no part for zero or fewer people. The copy at competitions/views.py:1286 is the same code. |
| `Shares.EvenSplitUnique` | competitions/views.py:1286-1296 | There is no other list with those three properties, for any total (negative ones included). |
| `Points.CreditsAppend` | competitions/models.py:906-987 | The net credit of postings to a cached column adds up over parts of the book. |
| `Points.ShiftedTwice` | competitions/models.py:748-763 | Moving the cached columns by one list of postings and then by another is moving them by both together. |
| `RankingLaws.AwardWorth` | competitions/models.py:713-763 | An award credits exactly 1.00 to the player in both columns, 0.75 to the coach, 0.50 to club and board, and both amounts to a profile in both roles. |
| `RankingLaws.ResultWorth` | competitions/models.py:899-985 | A result credits exactly 3.00, 2.00, 1.00, 1.00 to its four places, 30% of that to each coach, 20% to each club and board, with the roles of one profile added. |
| `RankingLaws.LedgerSplits` | competitions/models.py:868-895 | What the ledger credits is what one result's rows credit plus what the rest credits. |
| `RankingLaws.SameRowsSameCredits` | competitions/models.py:864-987 | Ledgers that hold the same rows result by result credit every column alike, in whatever order the results were written. |
| `RankingLaws.RollBackUndoesApply` | competitions/models.py:864-987 | Rolling back exactly inverts the apply before it, ledger and every cached total. |
| `RankingLaws.SavedRows` | competitions/models.py:850-861 | After an accepted save the result's ledger rows are those of the medals just saved and every other result's rows are untouched. |
| `RankingLaws.SaveTwice` | competitions/models.py:850-861 | Saving a result twice is saving it once, valid or not. |
| `RankingRuns.StepKeepsBalance` | competitions/models.py:713-763 | Every step keeps each cached column equal to its starting value plus the book. |
| `RankingRuns.TotalsMatchTheBook` | competitions/models.py:713-987 | Over any interleaving of payments, plain saves of any kind, edits of profiles and clubs, callbacks and result saves: `ranking_total` is the starting value plus all award and ledger rows naming the profile, club or board, `ranking_competition` the same over player rows; also when a profile is player and coach. |
| `RankingRuns.ExactlyOneAwardPerPayment` | competitions/models.py:554-575 | Over any run, with payment by `mark_paid`, by an intent or by a plain save, no enrollment ever has two awards, and with the commit queue drained those with exactly one are exactly those paid at some point of the run: the ones paid now, unless a plain save took a payment back. |
| `RankingRuns.SaveRowSound` | competitions/signals.py:7-11 | A save that leaves a row paid leaves it awarded or queued, whatever else it changes. |
| `RankingRuns.RunCallbackSound` | competitions/signals.py:11 | A queued callback never makes a second award, and leaves no paid enrollment without one. |
| `RankingRuns.LedgerFollowsSnapshots` | competitions/models.py:850-987 | In every state the ledger rows of a result are those of the snapshot it was last accepted with. |
| `RankingRuns.HistoryIndependence` | competitions/models.py:850-987 | Two histories with the same last snapshots and award credits end with the same cached standings, whatever was saved on the way. |
| `RankingFacts.AwardNames` | competitions/models.py:713-745 | Whom an award names: the enrollment's own coach and club, else the player's; its own board, else that of the award's club, else the player's; and what each gets. |
| `RankingFacts.AwardMoves` | competitions/models.py:748-763 | An award moves the cached columns of those it names by their points, and no other column or table. |
| `RankingFacts.SaveQueues` | competitions/signals.py:7-11 | A save or insert stores the row and queues a copy of it exactly when it is paid and has no award. |
| `RankingFacts.CallbackAwardsQueuedRow` | competitions/signals.py:11 | The oldest callback runs, and awards the row as it was queued. |
| `RankingFacts.MarkPaidWrites` | competitions/models.py:554-571 | The four columns `mark_paid` writes and their conditions; no other column, no other row; a paid row stays as it is. |
| `RankingFacts.SettleWrites` | payments/models.py:272-293 | The columns written to an intent's target and their conditions; no other column, no other row. |
| `RankingFacts.SaveAcceptedIff` | competitions/models.py:830-861 | A new result or a correction of a stored one is accepted and stored exactly when its medals are distinct existing enrollments of its competition and weight and no other result has that pair; a refused one changes nothing. |
| `RankingFacts.ResultPairsStayUnique` | competitions/models.py:816-818 | Over any run no two results have the same competition and weight. |
| `RankingFacts.SavedLedger` | competitions/models.py:906-985 | After an accepted save the result's ledger rows are exactly its medals' rows (gold 3.00, 0.90, 0.60 and so on, to those the enrollment names then), and every other result's rows are what they were. |
| `RankingTables.RankingDb.AwardPointsAfterPayment` | competitions/models.py:713-763 | The in-place updates are the book's award step: nothing for an enrollment that has its award, else one row and its points. |
| `RankingTables.RankingDb.MarkEnrollmentPaid` | competitions/models.py:554-575 | The stored row, the queued callback and the direct award are the book's payment step; an already paid row changes nothing. |
| `RankingTables.RankingDb.AwardOnManualPaid` | competitions/signals.py:7-11 | Exactly a paid row without an award is queued. |
| `RankingTables.RankingDb.SettleTargetRow` | payments/models.py:272-293 | Field by field as `_mark_enrollment_paid` sets them; an amount is written only over zero, and only a changed row is saved. |
| `RankingTables.RankingDb.RunCommitQueue` | competitions/signals.py:11 | Commit runs every queued callback, first queued first. |
| `RankingTables.RankingDb.RollbackResultPoints` | competitions/models.py:864-895 | The loop of subtractions moves every cached column back by the net credit of the result's rows and deletes exactly those rows. |
| `RankingTables.RankingDb.ApplyResultPoints` | competitions/models.py:898-987 | The loop over the medals adds to every cached column the net credit of the rows it appends. |
| `RankingTables.RankingDb.SaveKyorugiResult` | competitions/models.py:830-861 | Accepted exactly when the medals are distinct enrollments of this competition and weight and the pair is new; then stored, rolled back and applied, else nothing changes. |
| `Discounts.QuoteExact` | payments/discounts.py:86-151 | Price and discount add up to the base, the discount is the floor of the percentage, and the code was active and had room. |
| `Discounts.QuoteGivenIff` | payments/discounts.py:22-113 | A quote is given exactly for a base of zero or at least 10,000 rials with no code, or with a first eligible active code that has room and at most 100 percent. |
| `Discounts.QuoteWithoutCode` | payments/discounts.py:23-34 | A negative base, one below 10,000 rials, and a base without a code: which answer each gets. |
| `Discounts.QuoteWithCode` | payments/discounts.py:36-149 | A typed code, compared up to case, is unknown exactly if no active row of the competition or general has it; the first such row decides: its cap, its percentage over 100, or the price with the floor of the percentage taken off. |
| `PaymentTables.PaymentDb.ApplySuccessToTargets` | payments/models.py:295-304 | Bulk targets are settled without an amount, a single target with the intent's. |
| `PaymentTables.PaymentDb.MarkPaid` | payments/models.py:230-266 | Status, reference, targets and the code's counter and cap move together, once; a paid intent changes nothing. |
| `PaymentTables.PaymentDb.EnrollByBank` | payments/views.py:125-176 | The loop creates and pays one enrollment a student in order and returns their ids; a missing profile undoes all of them. |
| `PaymentTables.PaymentDb.FinalizeGroupPayment` | payments/views.py:97-186 | All early returns, the raise, and the settled group with its ids. |
| `PaymentTables.PaymentDb.FinalizeFreeOrTest` | competitions/views.py:1298-1371 | The loop of the free or test path: the same, splitting the payload's own amount. |
| `PaymentTables.PaymentDb.PaymentResultRedirect` | payments/views.py:459-537 | The whole handler: lookup by token then by bank id, paying, finalising in its own transaction, failing an unpaid intent, and the ids sent to the front end. |
| `PaymentTables.PaymentDb.CreatePaymentIntent` | payments/views.py:671-799 | The guards, the quote and the stored intent with the client's description. |
| `PaymentTables.PaymentDb.CreatePaymentLink` | payments/views.py:826-843 | A link token is stored exactly for an intent that is not paid. |
| `PaymentTables.PaymentDb.StartPaymentOf` | payments/views.py:858-908 | Each refusal of `_begin`, else the gateway is stored and the payment dispatched. |
| `PaymentTables.PaymentDb.DispatchToGateway` | payments/views.py:933-1098 | Free and dummy payments are settled, small amounts and unknown gateways refused, a bank record is made for the rest, a bank error fails the intent. |
| `PaymentTables.PaymentDb.RegisterStudents` | competitions/views.py:1512-1690 | Pricing, preview, the group row, and either immediate enrollment or an intent for the bank. |
| `HandlerFacts.IntentFoundIff` | payments/views.py:468-470 | A result finds the newest intent with its code as token; only without one, the newest whose reference is the record's id. |
| `HandlerFacts.UnsuccessfulResult` | payments/views.py:459-466 | What an empty or unknown code, a record without an intent and a refused payment change and answer. |
| `HandlerFacts.ResultReference` | payments/views.py:484 | A successful result changes its unpaid intent's status and reference only; the reference is the first that is not empty of four. |
| `HandlerFacts.ResultGroup` | payments/views.py:492-499 | A result that settles a group gives the group and every new enrollment the first reference that is not empty of three, and answers with their ids. |
| `HandlerFacts.FinalisedIs` | payments/views.py:97-186 | The callback's finaliser: when it does nothing, when it raises, and else the settled group and every column of every new enrollment (coach, club, board, part of the amount, reference). |
| `HandlerFacts.CreatedIff` | payments/views.py:671-799 | When `create_intent` accepts, and the whole stored row. |
| `HandlerFacts.LinkWrites` | payments/views.py:826-843 | The link token is stored on an unpaid intent and nothing else changes. |
| `HandlerFacts.RefusedStart` | payments/views.py:858-908 | The first reason to refuse a start is answered, and nothing changes. |
| `HandlerFacts.StartedIs` | payments/views.py:933-1098 | The exact condition of each answer of a start that is let through, and what it stores. |
| `HandlerFacts.PostedIff` | competitions/views.py:1512-1690 | The exact condition of each answer of a registration; only two of them change anything. |
| `HandlerFacts.PostedRows` | competitions/views.py:1596-1672 | The group, the intent and the enrollments a registration makes, every column of them. |
| `Text.MarkRoundTrip` | payments/views.py:104-109 | A printed group mark is found by the search and read back to its number, whatever text without another mark sign surrounds it. |
| `Text.GroupDescriptionRoundTrip` | competitions/views.py:1655-1662 | The description of a group's intent parses back to that group, for every id. |
| `GroupLaws.EnrollEachEffect` | payments/views.py:133-176 | The loop appends exactly the given rows, each paid with its own part, and touches no other row. |
| `GroupLaws.SameRowsIff` | competitions/views.py:1298-1371 | The bank callback and the free path build the same rows exactly when the payload carries an amount, or the group has none either, or there are no students. |
| `GroupLaws.PostedGroup` | competitions/views.py:1596-1618 | A group that `post` makes carries its amount in the payload, and has the students asked for. |
| `GroupLaws.FinalisersAgree` | payments/views.py:118-176 | For a group whose payload carries its amount both finalisers leave the same enrollments, awards and standings, apart from the bank references. |
| `GroupGuarantees.PostedFinalisersAgree` | competitions/views.py:1298-1371 | So for every group `post` asks payment for, in whatever later state it is settled. |
| `PaymentRuns.ActReaches` | payments/views.py:459-537 | Every payment handler moves the ranking book by ranking steps only. |
| `PaymentRuns.SystemKeepsRanking` | payments/models.py:272-304 | Between requests, over any run of all handlers and ranking activity (marking an enrollment paid by hand included), the enrollments with exactly one award are the paid ones and every cached total is its starting value plus the book. |
| `IntentStates.StatusMoves` | payments/views.py:868-885 | No step returns an intent to `initiated` or moves a paid one, and it becomes paid only with nothing to pay, by the dummy gateway, or by a successful bank record found through its token or the bank id. |
| `IntentStates.PaidForAReason` | payments/views.py:465-490 | Over any run, an intent that ends up paid was paid by one of its steps for one of those reasons, whatever tracking codes the bank gives (whose record it was: `BankRecords.PaidByItsOwnRecord`). |
| `BankRecords.PaidIsFrozen` | payments/views.py:832-885 | Over any run a paid intent does not change in any column, and bank records keep code, amount and intent. |
| `BankRecords.RunKeepsTraced` | payments/views.py:1057-1062 | Over any run in which the bank repeats no tracking code, a record is for the whole amount of its intent, an intent's token is from a record of its own, and until it is paid so is its reference. |
| `BankRecords.RecordReachesItsIntentIff` | payments/views.py:468-470 | A record leads to its own intent exactly when the token is its tracking code, or the reference is still its id and no newer intent has that reference. |
| `BankRecords.ConfirmedPaymentBookedIff` | payments/views.py:480-490 | A confirmed payment of an unpaid intent is booked exactly then, and never makes any other intent paid. |
| `BankRecords.PaidByItsOwnRecord` | payments/views.py:465-490 | Over such a run an intent that ends up paid was paid with nothing to pay, by the dummy gateway, or by a successful record made for this intent and for exactly its amount. |
| `BankRecords.ConfirmedPaymentMissed` | payments/views.py:468-484 | A concrete run: another intent was paid under a reference number equal to the record's id, so the confirmed payment changes nothing and the answer names that other intent. |
| `BankBooks.PaidWasBooked` | payments/views.py:480-490 | Over any run from nothing, an intent paid by the bank had a record of its own handled while it was confirmed and led back. |
| `BankBooks.BooksBalanceIff` | payments/views.py:459-537 | Over any run from nothing, with a bank that repeats no tracking code and takes no confirmation back, intents are paid by the bank no more than it confirmed; exactly as much if and only if no intent has two confirmed records and every confirmed record was handled when it led back to its intent. |
| `IntentStates.TargetsWritten` | payments/models.py:269-304 | Paying an intent pays exactly its targets and changes no other column of them than status, amount and an empty reference: bulk targets keep their own amounts, a single target takes the intent's amount over zero. |
| `PaymentGuarantees.CreatedAmount` | payments/views.py:671-772 | An intent from `create_intent` is priced exactly and is free or worth at least 10,000 rials. |
| `PaymentGuarantees.PricesAndBankAmounts` | payments/views.py:999-1009 | In every reachable state amount plus discount is the original amount and the discount the floor of the code's percentage, and no bank record or redirected intent is below 10,000 rials. |
| `PaymentGuarantees.PaidIsAbsorbing` | payments/models.py:230-251 | Over any run a paid intent stays paid with the same amounts and targets, and its targets stay paid. |
| `PaymentGuarantees.ActKeepsRowsExist` | payments/models.py:76-121 | Every handler keeps the targets and the code of every intent existing rows. |
| `PaymentTables.PaymentDb.constructor` | payments/models.py:76-121 | The empty tables satisfy every invariant that the run theorems start from. |
| `CodeCounts.UsesCountPaidIntents` | payments/models.py:253-266 | Over any run a code's counter grows by exactly the number of intents carrying it that were paid. |
| `CodeCounts.CodeAfterPayment` | payments/models.py:253-266 | Paying an intent adds one use to its own code only, and switches it off exactly when that use reaches a cap above zero. |
| `CodeCounts.UsableCodeStaysOn` | payments/models.py:259-264 | Over any run a code that was on and still has uses left is on. |
| `CodeCounts.CapIsFinal` | payments/discounts.py:71-98 | A code that reached its cap stays inactive; no later quote returns it and no later intent carries it. |
| `CodeCounts.PaymentWithinCapIff` | payments/models.py:256-266 | A payment leaves the counter within the cap exactly when the code had room just before it. |
| `CodeCounts.OvershootIsUnpaidQuotes` | payments/models.py:253-266 | Over any run from the state in which the cap is reached, the counter grows by exactly the intents of that state that carry the code and are paid later, so by no more than were unpaid there. |
| `CodeCounts.CapCanBeExceeded` | payments/models.py:253-266 | A concrete run in which a code good for one use is used twice, both times paid at the bank. |
| `GroupGuarantees.ActAllKeepsGroups` | payments/views.py:125-184 | In every reachable state a group's payload carries its amount, and a settled group's recorded enrollments are its students' entries in order (category, weight, insurance, price), each paid its even part, and targets of no intent; whatever descriptions clients write. |
| `GroupGuarantees.ActAllKeepsLinks` | competitions/views.py:1655-1672 | As long as no client's own description names a group, an intent that names one is its only one and carries its amount, and is paid if the group is settled. |
| `GroupGuarantees.SettledOnlyByItsIntent` | payments/views.py:178-184 | Over any run the recorded enrollments of a settled group all exist and are paid; and if no client's description names a group, its intent is paid. |
| `GroupGuarantees.MoneyConserved` | competitions/views.py:1527-1662 | Over any run: fee times students is payable plus discount, and in whatever later state the group is settled its enrollments are one for each student, in order and in the competition, all paid, and their amounts add up to the amount of the intent made with it; which is paid if no client's description names a group. |
| `GroupGuarantees.MoneyConservedAtOnce` | competitions/views.py:1620-1640 | The same for a registration that is enrolled at once. |
| `Settlement.HandleAgain` | payments/views.py:477-496 | Handling a successful record again after a failed or a complete handling ends in the state, and answers with the ids, of one clean run. |
| `Settlement.SettlementIsRetrySafe` | payments/views.py:459-505 | The same for any number of handlings in a row, each failing or not. |
| `Settlement.CleanRunSettles` | payments/views.py:97-186 | One clean handling settles the group and returns its recorded ids. |
| `Settlement.RetryFinishesIff` | payments/views.py:465-499 | Handling a record again after a failed finalisation ends in the state and the answer of a clean handling exactly when the record leads back to the intent found: by token, already paid, or keeping the bank id as its reference. |
| `Recovery.LaterHandlingSettles` | payments/views.py:459-505 | With any requests between a first handling, failed or not, and a later clean one, a record found by its token still settles the group: its students' entries, all paid, adding up to the group's amount, and named in the answer; its intent is paid. |
| `Recovery.GroupSettledIff` | payments/views.py:97-186 | Of all steps, exactly a clean handling of a successful record that leads to an intent whose description names the group settles it, if it has students and they all still exist. |
| `Recovery.SettledOverRunIff` | payments/views.py:97-186 | Over any run a group is settled in the end exactly when some step of the run was such a handling. |
| `Recovery.SettledByOwnIntentIff` | payments/views.py:104-116 | The step that settles a group leaves the intent it handles paid; the intent made with the group is paid then exactly when it is that one or was paid before, and it is that one if no client's description names a group. |
| `Recovery.ForeignIntentSettlesGroup` | payments/views.py:794 | A concrete run: the paid intent of 10,000 rials with the description `GP#0` settles group 0 of 20,000, whose own intent is still `initiated`. |
| `Recovery.LostGroupSettledIff` | payments/views.py:465-499 | After a failed finalisation whose record does not lead back, in every later state of every run the group is settled exactly when some step cleanly handled a record that leads to an intent naming it; handling the lost record never leads to the group's intent again. |
| `Recovery.NowhereSettlesNothing` | payments/views.py:468-470 | While the only results that come back are those of a record no intent has as token or reference, and the bank repeats no tracking code, no group is settled, whatever else happens. |
| `Recovery.EarlierTripLosesGroup` | payments/views.py:467-488 | A concrete run (two trips to the bank, the first confirmed late): after one failed finalisation the intent is paid and the group stays unpaid as long as only the first trip's result comes back and the bank repeats no tracking code, however often and with whatever else in between. |
| `Recovery.SecondTripFindsGroup` | payments/views.py:467-488 | On that run a confirmed result of the second trip does settle the group. |
| `Sms.SmsTable.GenerateUniqueCode` | accounts/views.py:104-121 | Four digits without a leading zero; a code in use is returned only if all twenty tries were in use. |
| `Sms.SmsTable.SendCode` | accounts/views.py:138-166 | Both send endpoints: clean up, check, limit, store and send. |
| `Sms.SmsTable.VerifyCode` | accounts/views.py:173-198 | Both verify endpoints: clean up, check, look up, and use up the code or all of the phone's codes. |
| `SmsTraces.TableIsHistory` | accounts/views.py:125-198 | In every reachable table the rows that matter for a phone are exactly the code its history says is live, and nothing else. |
| `SmsTraces.AcceptedIff` | accounts/views.py:177-198 | A code is accepted exactly when it is well formed and is the phone's live code; the expired and ambiguous answers never occur. |
| `SmsTraces.SentIff` | accounts/views.py:157-165 | A code is sent exactly when none is live; otherwise the wait told is what is left of 180 seconds. |
| `SmsTraces.OneRowPerPhone` | accounts/views.py:157-189 | In every reachable table, whatever the clock did, a phone has at most one row. |
| `SmsTraces.LookupNeverAmbiguous` | accounts/views.py:177-186 | So the lookup by phone and code after clean-up finds one row at most. |
| `SmsTraces.AcceptedWasSent` | accounts/views.py:188-198 | Each accepted verification goes back to an earlier send of that code to that phone, at most 180 seconds old, with no other attempt for the phone in between. |
| `SmsTraces.AcceptedOnce` | accounts/views.py:1731-1741 | Different accepted verifications go back to different sends, across all four endpoints. |
| `SmsTraces.SendsAreSpaced` | accounts/views.py:1697-1705 | Two codes sent to a phone within 180 seconds have an attempt for it between them. |
| `SmsTraces.SentCodeIs` | accounts/views.py:104-121 | The code sent is the number drawn plus 1000, printed: the first of twenty draws no code of the last 180 seconds equals, else one more; and it is stored once, with phone and time. |
| `SmsTraces.DrawsTellApart` | accounts/views.py:115 | Different draws give different codes. |
| `SmsTraces.RefusedIff` | accounts/views.py:1697-1705 | Exactly which requests are refused, for each of the four endpoints; a refused one only cleans up. |
| `Phones.NormalizeKeepsValid` | accounts/admin.py:132-141 | Both normalisations are the identity on validated phones. |
| `Phones.NormalizeIdempotent` | accounts/admin.py:132-141 | Normalising twice is normalising once, for every input. |
| `Phones.SameNumber` | accounts/admin.py:132-141 | A mobile number typed in any mixture of ASCII, Persian and Arabic digits, with any text without digits around and between them, with or without country code or leading zero, is stored alike. |
| `Phones.OtherNumbers` | accounts/admin.py:132-141 | Any other run of digits is stored as it is, cut after eleven. |
| `Phones.TypedNumberIsRead` | accounts/serializers.py:32-40 | The serializers read digits of any of the three scripts, with blanks around them, as ASCII digits. |
| `Registration.RegisteredIff` | accounts/serializers.py:172-206 | A request is stored exactly when code and phone are well formed, nobody known shares either, and the coach named exists. |
| `Registration.RegisterAnswers` | accounts/serializers.py:282-312 | The exact condition of each answer, in order, and the stored request. |
| `Registration.ApproveSound` | accounts/admin.py:429-472 | Approving never meets a unique constraint, keeps both tables free of doubles and conserves the people. |
| `Registration.ApproveEachSound` | accounts/admin.py:560-588 | The admin action on any selection succeeds, conserves the people, and removes exactly the selected requests of the page's roles. |
| `Registration.ViewSound` | accounts/views.py:386-433 | The same for the single-request view. |
| `Registration.RoutesAgree` | accounts/views.py:386-433 | The view and the admin page that lists a request make the same profile of it. |
| `Registration.ApprovedAs` | accounts/admin.py:429-472 | The profile an approval makes, column by column, with its role flags. |
| `Registration.PageLists` | accounts/admin.py:556-672 | Which page lists which roles. |
| `Registration.RejectedIs` | accounts/admin.py:200-247 | A rejected request is gone, and nothing else changes. |
| `Registration.EditKeepsPeople` | accounts/admin.py:1114-1141 | Filing edit requests and approving them by either route changes nobody's national code or phone, whatever code and phone the requests carry. |
| `Registration.SelectedEdits` | accounts/admin.py:1114-1147 | The admin action on any selection applies each selected request of a known profile once, to the profile as it was, and removes it; nothing else changes. |
| `Registration.FiledAs` | accounts/views.py:903-960 | When an edit request is filed, what it replaces, and the role it gets. |
| `Profiles.EditedByViewValue` | accounts/views.py:991-1020 | After the view every column is the request's or the old one: the loop's list, board, coach (with name), club, picture and coaching clubs only if set. |
| `Profiles.EditedByAdminValue` | accounts/admin.py:1114-1141 | The same for the admin action: `DIFF_FIELDS` without the picture, the coaching clubs always, the picture if set. |
| `Profiles.EditKeepsIdentity` | accounts/models.py:363-379 | Neither loop touches national code, phone or account, although the request has a code and a phone of its own. |
| `Profiles.EditRoutesAgreeIff` | accounts/admin.py:967-979 | The routes leave the same profile exactly when request and profile agree on an empty board, coach, club or list of coaching clubs (only the admin copies those), on the board's name, club names and confirmation, and with a coach on the coach's name (only the view copies those). |
| `Profiles.RoutesDifferOnBoard` | accounts/views.py:1005-1006 | A concrete request without a board: the view keeps the profile's board, the admin action clears it. |
| `Profiles.EmptyColumns` | accounts/views.py:1005-1017 | For all profiles and requests with these columns empty: the view keeps board, coach, club, coaching clubs and picture; the admin action clears all but the picture. |
| `Registration.RunKeepsSound` | accounts/serializers.py:282-312 | In every state reached by registering, approving by either route, rejecting and editing, no national code or phone occurs twice in or across the tables. |
| `RegistrationTables.RegistrationDb.RegisterRequest` | accounts/views.py:436-471 | The table after a request, and its answer. |
| `RegistrationTables.RegistrationDb.ApproveAction` | accounts/admin.py:639-667 | The loop over the selection is one transaction: all approvals or none. |
| `RegistrationTables.RegistrationDb.ApprovePendingUser` | accounts/views.py:386-433 | The tables after the view's approval; an existing national code changes nothing. |
| `RegistrationTables.CopyByView` | accounts/views.py:991-1017 | The view's loop and the copies after it. |
| `RegistrationTables.CopyByAdmin` | accounts/admin.py:1127-1137 | The admin's loop with its `continue`, and the copies after it. |
| `RegistrationTables.RegistrationDb.ApproveEditedProfile` | accounts/views.py:983-1020 | The profile and the edit table after the view. |
| `RegistrationTables.RegistrationDb.ApproveEditsAction` | accounts/admin.py:1114-1147 | The tables after the loop over the selection. |
| `CoachCodes.ApprovalTable.SetFreshCode` | competitions/models.py:394-422 | The first of 25 draws free in the competition is stored, else the table is unchanged. |
| `CoachCodes.FirstFreeDraw` | competitions/models.py:408-422 | The code is the first of 25 draws that no approval of the competition has; none exactly if all are taken. |
| `CoachCodes.ApprovalWrites` | competitions/views.py:727-741 | An approval writes only the coach's own row, or adds it: accepted, active, with the code it had or the first free draw. |
| `CoachCodes.ApprovalTable.Post` | competitions/views.py:717-741 | The table and the answer of the approve endpoint; failing to find a code undoes the request. |
| `CoachCodes.ApprovalTable.Save` | competitions/models.py:432-444 | A save that changes the code, or that a unique constraint forbids, changes nothing. |
| `CoachCodes.CodesStayUnique` | competitions/models.py:394-444 | Over any run of approvals and plain saves the codes of a competition are distinct and a code once given is never changed; approvals leave every row to its coach. |
| `CoachCodes.PlainSaveKeeps` | competitions/models.py:432-444 | A plain save goes through exactly when it keeps the code and leaves coaches and codes unique in each competition; then the row is stored, else nothing changes. |
| `CoachCodes.TextStandsForNumber` | competitions/models.py:388-392 | The stored text has six digits and tells the numbers apart. |
| `CoachCodes.ReportsStoredCodeIff` | competitions/views.py:738-741 | A served request reports the coach's stored code exactly when the coach had one before it. |
| `CoachCodes.FirstApprovalReportsNothing` | competitions/views.py:738-741 | Every first request: the first draw is stored and no code is reported. |
| `Sadad.UnpadInvertsPad` | payments/sadad_service.py:15-17 | Padding is a positive multiple of 8 bytes long and unpadding is its exact inverse (section 6.3 of RFC 5652). |
| `Sadad.PlaintextIs` | payments/sadad_service.py:33-36 | Terminal, order, amount in this order, numbers in decimal digits, semicolons between. |
| `Sadad.SigningInputInjective` | payments/sadad_service.py:33-36 | For one terminal, different orders or amounts give different padded signing inputs. |

## Left out

- The old gateway callback (payments/views.py:1104-1214): its failure branch sets `failed` without looking at `paid`, so it is not among the steps of `PaidIsAbsorbing`.
- The gap between `_begin` and dispatch, where the start request holds no lock: starting a payment is one atomic step here.
- GroupGuarantees.ActAllKeepsLinks: only for runs in which no client writes a description that names a group (`NamesNoGroup`), because it fails in others (`ForeignIntentSettlesGroup`).
- Poomsae and seminar targets of an intent, and discount scope for poomsae and seminar codes: a code is general or belongs to one kyorugi competition.
- PaymentTables.PaymentDb.RegisterStudents: leaves out the checks of each student (gender, belt, insurance date, weight category, already enrolled); `items` are the students that passed.
- PaymentRuns.RankingStep: a plain save that rewrites an entry, or takes back or changes what was paid for it, is among the ranking runs but not among the runs of all handlers.
- What the bank package does: it answers a start with a tracking code or an error, and later stores a verdict on its record. A record left behind by an error after it was made is not modelled.
- Exceptions other than a missing profile while finalising: the flag `fails` stands for them.
- Who may call an endpoint, the callback URL checks (one flag), link expiry, card numbers, timestamps other than those of text-message codes, and the front-end URL.
- Stripping of blanks around discount codes and tracking codes, and code points other than ASCII, Persian and Arabic digits.
- Profiles, clubs and boards added, removed or edited by hand during a run, cascading deletions, and floating-point drift of the points.
- `apply_results_and_points` and the draw and numbering services; `KyorugiResult.save` alone is modelled.
- Interleavings inside one request: unique constraints and row locks are met by atomic steps.
- Sending of text messages, password resets, the 3DES encryption itself, uploads, reports and display serializers.
- RegistrationTables.RegistrationDb.RegisterRequest: answers with the first error, where the serializer reports several together.
- What an edit request may contain (only its unique columns are checked here), the history kept of edit requests, and the clubs' own requests and approvals.
