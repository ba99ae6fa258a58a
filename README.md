# stripe-to-nocfo reconciliation, modelled in Dafny

This project models the reconciliation core of stripe-to-nocfo, which books
Stripe balance transactions into the NOCFO accounting service:

- `TransactionProcessor` turns one Stripe balance transaction into a NOCFO
  entry draft:
  - a payment or charge becomes a SALES draft;
  - a Stripe fee becomes a PURCHASE draft;
  - a refund becomes a MANUAL draft that backs the VAT out of the original
    sale;
  - any other type becomes nothing.
- `MainProcessor.processTransactions` runs over a batch of transactions
  oldest first. For each transaction it maps it, looks up the entry already
  in NOCFO by its linking key, and then does one of these:
  - skips it;
  - leaves it alone;
  - updates the entry;
  - creates an entry;
  - records an error.

  It tallies the outcome in a `ResultsSummary`.
- `NocfoService.findExistingEntry` matches entries by their linking key (the
  description text before the first `" - "`). `isEntryUnchanged` decides
  whether an entry needs updating.

The files:

- `wrappers.dfy`: `Option` and `Result`.
- `types.dfy`: the records exchanged: the Stripe transaction, lines,
  blueprints, drafts, listed entries and `ResultsSummary`.
- `civil_date.dfy`: the `YYYY-MM-DD` UTC day of a Unix timestamp, that is
  `new Date(created * 1000).toISOString().split('T')[0]`. It is built on a
  day-count-to-calendar conversion proved against its inverse.
- `nocfo_service.dfy`: the linking key, `findExistingEntry`, and
  `isEntryUnchanged` as written and as intended.
- `transaction_processor.dfy`: the three draft builders, the type dispatch
  and the refund's balance.
- `main_processor.dfy`: the loop over an array reversed in place, proved
  against a fold over the reversed sequence, plus lemmas about single steps
  and whole runs.

Money is exact: a Stripe amount `m` in minor units is the real `m / 100`.
`parseFloat(x.toFixed(2))` is `Round2`, the nearest cent with ties away from
zero. Stripe's two refund lookups are maps. NOCFO's create and update
requests are answered by an oracle: a function from the request's position
in the run and the request itself to success or a failure message.
`processTransactions` also returns the ghost sequence of requests it sent.
The mapper the loop calls is a parameter; `TransactionMapper(stripe)` is the
one built from `transaction-processor.ts`. So is the comparison that
decides whether a listed entry is unchanged. `AsWrittenCheck()` is
`isEntryUnchanged` as nocfo.ts writes it. `CorrectedCheck()` is the
comparison it evidently intends (see Findings). The integration tests stub
this comparison to a constant, and the fixture lemmas take it as a parameter
in the same way.

## Model

| member | source | states |
|---|---|---|
| TransactionProcessor.Round2 | src/processors/transaction-processor.ts:101 | the result is a whole number of cents within half a cent of the input, ties going away from zero |
| TransactionProcessor.Round2Unique | src/processors/transaction-processor.ts:101 | any cent value meeting those four conditions equals Round2's result, so the contract determines the rounding |
| TransactionProcessor.FeeLines | src/processors/transaction-processor.ts:26-33 | there are no more lines than fee items; every line is the fee-account line of some `stripe_fee` item; the lines sum to the `stripe_fee` amounts / 100 |
| TransactionProcessor.FeeLinesAppend | src/processors/transaction-processor.ts:26-33 | filtering and mapping preserve the order of `fee_details` |
| TransactionProcessor.FeeLinesCount | src/processors/transaction-processor.ts:26-33 | when every item is a `stripe_fee` there is one line per item; when none is, there are no lines |
| TransactionProcessor.DraftDate | src/processors/transaction-processor.ts:36 | a date exactly when `created` is inside JavaScript's time range; otherwise the "Invalid time value" error |
| TransactionProcessor.CreatePaymentEntry | src/processors/transaction-processor.ts:12-39 | a SALES draft: debit account 4982339; one credit line on 4971114 (VAT code 1, rate 25.5, `amount / 100`); the fee lines as expenses; `"<id> - Stripe Transaction"`; fails only outside the time range |
| TransactionProcessor.CreateStripeFeeEntry | src/processors/transaction-processor.ts:41-62 | a PURCHASE draft: credit account 4982339; one debit line on 4971314 of `amount / -100`; `"<id> - <description>"`; fails only outside the time range |
| TransactionProcessor.FirstOnAccount | src/processors/transaction-processor.ts:91-93 | none exactly when no line is on the account; otherwise the first such line |
| TransactionProcessor.ResolveOriginal | src/processors/transaction-processor.ts:68-98 | every outcome, in the source's order: a bad `source`; an unknown refund; a bad charge reference; an unknown charge; "No original entry found" exactly when no entry links to the charge's `balance_transaction`; then, for the entry found, missing `credit_entries`, no line on 4971114 ("No credit entry found for original transaction <b>"), or success with that balance-transaction id and the entry's first line on 4971114 |
| TransactionProcessor.BackedOutVat | src/processors/transaction-processor.ts:100-101 | the VAT is on the cent grid and within half a cent of `gross / (r + 1) * r`, where `r` is the rate / 100 |
| TransactionProcessor.CreateRefundEntry | src/processors/transaction-processor.ts:64-149 | every failure of the lookup chain passes through unchanged; success exactly when the chain resolves, the rate is finite and `created` is in range; the result is the MANUAL draft for the resolved line |
| TransactionProcessor.RefundDraftBalances | src/processors/transaction-processor.ts:103-143 | three debit lines and one credit line; the debits sum to the credit, which is `-amount / 100`; the first two debits sum to the original gross; the VAT line is the rounded VAT contained in the gross |
| TransactionProcessor.RefundEntryBalances | src/processors/transaction-processor.ts:64-149 | the same balance for any draft `createRefundEntry` returns, stated against the original sale's credit line |
| TransactionProcessor.CreateEntryFromTransaction | src/processors/transaction-processor.ts:151-164 | dispatch: `payment`/`charge` go to the payment builder, `stripe_fee` to the fee builder, `refund` to the refund builder; `null` exactly for any other type |
| TransactionProcessor.OnlyRefundsLookUp | src/processors/transaction-processor.ts:151-164 | unhandled types never fail; only refunds depend on the listing and on Stripe; non-refunds fail only outside the time range |
| TransactionProcessor.DraftLinksToTransaction | src/processors/transaction-processor.ts:151-164 | every draft starts `"<id> - "`, links back to its transaction exactly when the id is key-safe, and carries the UTC day of `created` |
| TransactionProcessor.PaymentDraftLinks | src/processors/transaction-processor.ts:36-37 | the same for payment drafts |
| TransactionProcessor.FeeDraftLinks | src/processors/transaction-processor.ts:59-60 | the same for fee drafts |
| TransactionProcessor.RefundDraftLinks | src/processors/transaction-processor.ts:146-147 | the same for refund drafts |
| TransactionProcessor.DescriptionLinks | src/processors/transaction-processor.ts:37 | a description built as `"<id> - <rest>"` starts with `"<id> - "` and links to `id` exactly when `id` is key-safe |
| TransactionProcessor.RefundOfUnlistedOriginalFails | src/processors/transaction-processor.ts:82-89 | when the sale's balance transaction has no listed entry, the dispatch fails with "No original entry found for refund transaction <id>" |
| TransactionProcessor.FixturePaymentDraft | src/__tests__/unit.test.ts:20-34 | the payment mock on 2022-01-01 gives exactly this SALES draft: 34.8 at 25.5 %, a 2.9 fee, `"txn_1234567890 - Stripe Transaction"` |
| TransactionProcessor.FixtureFeeDraft | src/__tests__/unit.test.ts:36-49 | the fee mock gives exactly this PURCHASE draft: 2.9 on the fee account, `"txn_0987654321 - Stripe fee"` |
| TransactionProcessor.FixtureRefundVat | src/processors/transaction-processor.ts:101 | the VAT in 34.8 at 25.5 % rounds to 7.07 |
| TransactionProcessor.FixtureRefundResolves | src/__tests__/unit.test.ts:57-64 | the refund mock resolves through `ch_1234567890` to `txn_1234567890` and its 34.8 sales line |
| TransactionProcessor.FixtureRefundDraft | src/__tests__/unit.test.ts:51-79 | the refund mock gives exactly this MANUAL draft: credit 34.8 on the clearing account; debits 27.73, 7.07 and 0 |
| TransactionProcessor.FixturePaymentListed | src/__tests__/mocks/nocfo-mocks.ts:4-27 | the payment's entry is the first mock entry |
| TransactionProcessor.FixtureEntryKeys | src/__tests__/mocks/nocfo-mocks.ts:6-30 | the two mock entries link to the payment and fee transactions |
| TransactionProcessor.FixtureRefundUnlisted | src/__tests__/mocks/nocfo-mocks.ts:3-45 | no mock entry links to the refund |
| NocfoService.LinkKey | src/services/nocfo.ts:92 | the key is a prefix of the description; no separator starts inside it; a separator follows it unless it is the whole description |
| NocfoService.LinkKeyUnique | src/services/nocfo.ts:92 | those three properties determine the key, so they are a full specification of `split(' - ')[0]` |
| NocfoService.LinkKeyOfDescription | src/services/nocfo.ts:92 | the key of `"<id> - <rest>"` is `id` exactly when `id` is key-safe |
| NocfoService.SpaceFreeIdIsKeySafe | src/services/nocfo.ts:92 | an id without spaces is key-safe |
| NocfoService.KeySafeExactly | src/services/nocfo.ts:92 | an id is key-safe exactly when it holds no separator itself and does not end in `" -"` |
| NocfoService.IdEndingInDashLinksElsewhere | src/services/nocfo.ts:92 | no id ending in `" -"` is key-safe, and no description `"<id> - <rest>"` of such an id links back to it |
| NocfoService.DashEndedIdExample | src/services/nocfo.ts:92 | for example, `"a - - x"`, the description of id `"a -"`, links to `"a"` |
| NocfoService.PlainDescriptionIsItsOwnKey | src/services/nocfo.ts:92 | a description with no separator matches only the id equal to all of it |
| NocfoService.PrefixIsNotALink | src/services/nocfo.ts:92 | the match is equality of the whole first segment, not `startsWith`: `"txn_12 - x"` does not link to `"txn_1"` |
| NocfoService.FindExistingEntry | src/services/nocfo.ts:91-93 | none exactly when no entry links to the id; otherwise an entry that links to it, with none linking before it |
| NocfoService.FindExistingEntryFirst | src/services/nocfo.ts:91-93 | the first linking entry is the one returned |
| NocfoService.FindExistingEntryAppend | src/services/nocfo.ts:91-93 | entries appended after a match do not change the result |
| NocfoService.IsEntryUnchangedNeverHolds | src/services/nocfo.ts:100 | as written, the comparison is false for every entry and draft, including the entry NOCFO stores from that very draft |
| NocfoService.ContentUnchanged | src/services/nocfo.ts:96-101 | corrected comparison: true exactly when the entry is the stored copy of the draft under its own id |
| CivilDate.CivilFromDays | src/processors/transaction-processor.ts:36 | a valid calendar date whose day count since 1970-01-01 is the argument |
| CivilDate.DaysFromCivilInjective | src/processors/transaction-processor.ts:36 | distinct valid dates have distinct day counts, so the date found is the only one |
| CivilDate.UtcDate | src/processors/transaction-processor.ts:36 | a valid date whose UTC day contains the timestamp `created` |
| CivilDate.YearInRange | src/processors/transaction-processor.ts:36 | within JavaScript's time range the year lies strictly between -1000000 and 1000000 |
| CivilDate.Digits | src/processors/transaction-processor.ts:36 | `width` decimal digits whose value is `n` |
| CivilDate.IsoYear | src/processors/transaction-processor.ts:36 | four decimal digits for years 0 to 9999; otherwise `-` or `+` and six decimal digits; either way the digits read back as the year's magnitude |
| CivilDate.MonthDay | src/processors/transaction-processor.ts:36 | six characters `-MM-DD`: dashes at 0 and 3, decimal digits elsewhere, reading back as the month and the day |
| CivilDate.IsoDate | src/processors/transaction-processor.ts:36 | dashes before the month and the day; for years 0 to 9999, ten characters; otherwise thirteen, starting with the year's sign; the year, month and day fields read back as the date's |
| CivilDate.IsoDateDigits | src/processors/transaction-processor.ts:36 | every character of the ISO date other than the sign and the two dashes is a decimal digit |
| CivilDate.DateOfCreated | src/processors/transaction-processor.ts:36 | the ISO date of a valid calendar day that contains `created` |
| CivilDate.NewYear2022 | src/__tests__/mocks/stripe-mocks.ts:23 | every second of the mocks' day 1640995200 formats as `"2022-01-01"` |
| MainProcessor.Reversed | src/processors/main-processor.ts:33 | same length; element `i` is element `n - 1 - i` of the input |
| MainProcessor.ReversedTwice | src/processors/main-processor.ts:33 | reversing twice gives the input back, and the reversed copy holds the same transactions as the input, as a multiset |
| MainProcessor.ReverseInPlace | src/processors/main-processor.ts:33 | the caller's array ends up reversed |
| MainProcessor.ReconcileQueue | src/processors/main-processor.ts:35-133 | the loop's summary and requests are those of the fold of `Step` over the queue |
| MainProcessor.ProcessTransactions | src/processors/main-processor.ts:19-136 | the input array is left reversed; the summary and requests are those of the run over the reversed input, with the total equal to the input length |
| MainProcessor.OutcomeMovesOneCounter | src/processors/main-processor.ts:35-133 | a step never lowers a counter, raises their sum by at most one, and keeps the total |
| MainProcessor.OutcomeRecordsReasons | src/processors/main-processor.ts:42-130 | a step appends a reason exactly when it counts a skip or an error, keeps earlier reasons, and sends at most one request |
| MainProcessor.MappingFailureIsRecorded | src/processors/main-processor.ts:42-56 | a mapping error adds one error with `"Error processing transaction <id>: <message>"` and sends nothing |
| MainProcessor.UnhandledTypeIsSkipped | src/processors/main-processor.ts:59-67 | an unhandled type adds one skip with `"Transaction <id> of type <type> is not handled."` and sends nothing |
| MainProcessor.UnchangedEntryIsLeftAlone | src/processors/main-processor.ts:77-83 | an existing entry that the comparison judges unchanged leaves the run exactly as it was |
| MainProcessor.ChangedEntryIsUpdated | src/processors/main-processor.ts:84-106 | an existing entry that the comparison judges changed is updated under its own id; success adds one update, failure one error with `"Failed to update entry for transaction <id>: <message>"` |
| MainProcessor.NewEntryIsCreated | src/processors/main-processor.ts:107-130 | with no existing entry one create is sent; success adds one creation, failure one error with `"Failed to create entry for transaction <id>: <message>"` |
| MainProcessor.RunInvariants | src/processors/main-processor.ts:23-133 | throughout a run: the total is kept; errors equal their reasons and skips equal theirs; the counters sum to at most the transactions seen; every creation or update was a request |
| MainProcessor.ReconcileCounts | src/processors/main-processor.ts:23-33 | for a whole batch the total is the input length and the four counters sum to at most it |
| MainProcessor.RunOverSnoc | src/processors/main-processor.ts:35 | running over `queue + [t]` is the run over `queue` followed by one step on `t` |
| MainProcessor.SettledRunIsQuiet | src/processors/main-processor.ts:77-83 | with the corrected comparison, re-running over transactions whose drafts are all stored sends nothing and counts nothing, whatever NOCFO would answer |
| MainProcessor.SettledRunIsResent | src/processors/main-processor.ts:77-106 | with the comparison as written, the same re-run sends one update per transaction, re-sending its stored draft under its entry's id; when NOCFO accepts them, every transaction counts as updated and nothing else is counted |
| MainProcessor.RefundAfterAnyStepsFails | src/processors/main-processor.ts:38-41 | the listing is never refreshed, so a refund whose sale is not listed fails after any earlier steps, even one that created that sale |
| MainProcessor.SingleTransactionRun | src/processors/main-processor.ts:33-35 | a batch of one is one step from the initial summary |
| MainProcessor.FirstDraftCreated | src/processors/main-processor.ts:107-113 | an accepted first create leaves total 1 and created 1, with every other counter zero, no reasons and exactly that one request |
| MainProcessor.FirstDraftRejected | src/processors/main-processor.ts:114-130 | a rejected first create leaves one error, with its "Failed to create entry" reason, nothing else counted and the one request sent |
| MainProcessor.FirstDraftUpdated | src/processors/main-processor.ts:84-89 | an accepted first update of a changed entry leaves one update, nothing else counted, and one request under the entry's id |
| MainProcessor.FixturePaymentMaps | src/__tests__/unit.test.ts:20-34 | the mapper turns the payment mock into its payment draft |
| MainProcessor.FixturePaymentIsCreated | src/__tests__/integration.test.ts:76-101 | the payment mock against an empty listing: one create of its draft, one creation |
| MainProcessor.FixtureCreateFailureIsCounted | src/__tests__/integration.test.ts:220-244 | the same with NOCFO answering "API Error": one error reading `"Failed to create entry for transaction txn_1234567890: API Error"` |
| MainProcessor.FixtureChangedEntryIsUpdated | src/__tests__/integration.test.ts:187-218 | the payment mock against the mock entries, its entry judged changed (as the test's stub and the as-written comparison both judge it): one update of `nocfo_entry_1`, nothing else counted |
| MainProcessor.FixtureUnchangedEntryIsSkipped | src/__tests__/integration.test.ts:161-185 | the payment mock against the mock entries, its entry judged unchanged: total 1, every counter zero, no request sent |
| MainProcessor.FixtureFeeMaps | src/__tests__/unit.test.ts:36-49 | the mapper turns the fee mock into its fee draft |
| MainProcessor.FixtureFeeIsCreated | src/__tests__/integration.test.ts:103-128 | the fee mock against an empty listing: one create, one creation |
| MainProcessor.FixtureRefundMaps | src/__tests__/unit.test.ts:51-79 | the mapper turns the refund mock, with the mock entries and Stripe answers, into the MANUAL draft for the 34.8 sale |
| MainProcessor.FixtureRefundIsCreated | src/__tests__/integration.test.ts:130-159 | the refund mock against the mock entries: one create of that draft, one creation |

## Left out

- HTTP and I/O are not modelled: `loadEntries` with its pagination, the fetch calls behind `createEntry` and `updateEntry`, `src/services/stripe.ts`, `src/index.ts` and the logger. NOCFO's answers come from an oracle and Stripe's from two maps.
- Awaiting and concurrency are not modelled. Each awaited call becomes a function application in program order.
- IEEE-754 doubles and `toFixed` are not modelled. Amounts are exact reals, so for example `transaction.amount / -100 - cEntry.amount` has no float residue. `Round2` is the exact rounding that `toFixed(2)` approximates.
- The key order of `JSON.stringify` is not modelled. Serialised equality is equality of one document record.
- Constant filler fields are not carried: `contact_id: null`, `attachment_ids: []`, the `defaultEntryData` block and the `description: null` of the refund lines. They are the same in every draft.
- The "Unknown error" branches of `processTransactions` are not modelled, because every failure here carries a message.
- The exact text of errors thrown by the Stripe SDK for an unknown id is not modelled. `NoSuchRefund` and `NoSuchCharge` carry an approximation.
- TransactionProcessor.CreateRefundEntry: an original line with VAT rate -100 returns the `NonFiniteVat` error. The source divides by zero there and returns a draft with non-finite amounts.
- The summary is returned as a value, not built up in a mutable object. It is computed field by field in the loop in the source's order.
- The fixture lemmas take `created` as a parameter. The payment and fee lemmas in TransactionProcessor pin it to the day of the mocks' timestamp. The refund mock's own timestamp (2022-01-02) is not fixed.

## Findings

| source | as written | input that shows it | evidently intended | confidence | as-written member | corrected member |
|---|---|---|---|---|---|---|
| src/services/nocfo.ts:100 | `isEntryUnchanged` compares `JSON.stringify` of the listed entry, which has an `id` key, with the draft, which has none; so a re-run sends an update for every listed transaction (MainProcessor.SettledRunIsResent) | an entry stored by NOCFO from draft `d` under id `x`, compared with `d` itself: the serialisations differ in the `id` key, so the result is false | an entry whose content equals the draft is unchanged, so it is neither updated nor counted (MainProcessor.SettledRunIsQuiet) | not executed | NocfoService.IsEntryUnchangedNeverHolds | NocfoService.ContentUnchanged |
