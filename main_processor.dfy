/** MainProcessor.processTransactions (src/processors/main-processor.ts):
    one reconciliation run over a batch of Stripe balance transactions. Each
    transaction is mapped to a draft, matched against the NOCFO entries listed
    before the run, and then skipped, left alone, updated or created; the
    outcome is tallied in a ResultsSummary. */
module MainProcessor {
  import opened Wrappers
  import opened Types
  import opened NocfoService
  import opened CivilDate
  import opened TransactionProcessor

  // ------------------------------------------------------------- NOCFO

  /** A request the run sends to NOCFO. */
  datatype Call = Create(draft: Draft) | Update(entryId: string, draft: Draft)

  /** NOCFO's answer to one request: success, or the `message` of the error
      that `createEntry` or `updateEntry` threw. */
  datatype Response = Success | Failure(message: string)

  /** NOCFO as the run sees it: the answer to the request sent as the `n`-th
      of the run (counting from 0). */
  type Nocfo = (nat, Call) -> Response

  /** The TransactionProcessor the MainProcessor was constructed with:
      `createEntryFromTransaction(transaction, nocfoEntries)`. */
  type Mapper = (Transaction, seq<Entry>) -> Result<Option<Draft>, MappingError>

  /** The mapper of transaction-processor.ts over the given Stripe lookups. */
  function TransactionMapper(stripe: StripeLookups): Mapper
  {
    (t, entries) => CreateEntryFromTransaction(t, entries, stripe)
  }

  /** The NocfoService's `isEntryUnchanged(existingEntry, entry)`. */
  type Comparison = (Entry, Draft) -> bool

  /** The comparison of nocfo.ts as written. */
  function AsWrittenCheck(): Comparison
  {
    (e, d) => IsEntryUnchanged(e, d)
  }

  /** The comparison as intended (see IsEntryUnchanged). */
  function CorrectedCheck(): Comparison
  {
    (e, d) => ContentUnchanged(e, d)
  }

  // ----------------------------------------------------------- summary

  /** The summary a run starts from. */
  function Initial(total: nat): ResultsSummary
  {
    ResultsSummary(total, 0, 0, 0, [], 0, [])
  }

  /** Transactions accounted for in some counter. */
  function Tally(s: ResultsSummary): nat
  {
    s.created + s.updated + s.skipped + s.errors
  }

  /** Every reason recorded is counted, and none is counted without one. */
  predicate ReasonsCounted(s: ResultsSummary)
  {
    s.errors == |s.errorReasons| && s.skipped == |s.skippedReasons|
  }

  function ProcessingReason(transactionId: string, message: string): string
  {
    "Error processing transaction " + transactionId + ": " + message
  }

  function SkipReason(t: Transaction): string
  {
    "Transaction " + t.id + " of type " + t.txnType + " is not handled."
  }

  function UpdateReason(transactionId: string, message: string): string
  {
    "Failed to update entry for transaction " + transactionId + ": " + message
  }

  function CreateReason(transactionId: string, message: string): string
  {
    "Failed to create entry for transaction " + transactionId + ": " + message
  }

  /** Push `reason` onto `errorReasons` and count one more error. */
  function WithError(s: ResultsSummary, reason: string): ResultsSummary
  {
    s.(errorReasons := s.errorReasons + [reason], errors := s.errors + 1)
  }

  // -------------------------------------------------------- specification

  /** The state of a run: the summary so far and the requests sent so far. */
  datatype Run = Run(summary: ResultsSummary, calls: seq<Call>)

  /** What one iteration of the loop does with transaction `t`, given what
      mapping it gave and the entry found for it. */
  function Outcome(
    run: Run, t: Transaction, mapped: Result<Option<Draft>, MappingError>, existing: Option<Entry>,
    isUnchanged: Comparison, nocfo: Nocfo): Run
  {
    var s := run.summary;
    match mapped
    case Err(e) => Run(WithError(s, ProcessingReason(t.id, e.Message())), run.calls)
    case Ok(None) =>
      Run(s.(skipped := s.skipped + 1, skippedReasons := s.skippedReasons + [SkipReason(t)]), run.calls)
    case Ok(Some(draft)) =>
      if existing.Some? then
        if isUnchanged(existing.value, draft) then run
        else
          var call := Update(existing.value.id, draft);
          var response := nocfo(|run.calls|, call);
          if response.Success? then Run(s.(updated := s.updated + 1), run.calls + [call])
          else Run(WithError(s, UpdateReason(t.id, response.message)), run.calls + [call])
      else
        var call := Create(draft);
        var response := nocfo(|run.calls|, call);
        if response.Success? then Run(s.(created := s.created + 1), run.calls + [call])
        else Run(WithError(s, CreateReason(t.id, response.message)), run.calls + [call])
  }

  /** One iteration of the loop on `t`; `entries` is the listing taken
      before the run. */
  function Step(run: Run, t: Transaction, entries: seq<Entry>, mapper: Mapper, isUnchanged: Comparison, nocfo: Nocfo): Run
  {
    Outcome(run, t, mapper(t, entries), FindExistingEntry(t.id, entries), isUnchanged, nocfo)
  }

  /** The run over `queue`, in queue order, from the initial summary. */
  function RunOver(
    queue: seq<Transaction>, entries: seq<Entry>, mapper: Mapper, isUnchanged: Comparison, nocfo: Nocfo, total: nat): Run
  {
    if queue == [] then Run(Initial(total), [])
    else
      var before := RunOver(queue[..|queue| - 1], entries, mapper, isUnchanged, nocfo, total);
      Step(before, queue[|queue| - 1], entries, mapper, isUnchanged, nocfo)
  }

  /** `transactions` in reverse order. */
  function Reversed(s: seq<Transaction>): (r: seq<Transaction>)
    ensures |r| == |s|
    ensures forall i :: 0 <= i < |s| ==> r[i] == s[|s| - 1 - i]
  {
    seq(|s|, i requires 0 <= i < |s| => s[|s| - 1 - i])
  }

  /** Reversing twice gives the sequence back, so the reversed copy the run
      goes over loses and adds nothing. */
  lemma ReversedTwice(s: seq<Transaction>)
    ensures Reversed(Reversed(s)) == s
    ensures multiset(Reversed(s)) == multiset(s)
  {
    var r := Reversed(s);
    assert forall i :: 0 <= i < |s| ==> Reversed(r)[i] == r[|s| - 1 - i] == s[i];
    MultisetOfReversed(s, |s|);
    assert r[..|s|] == r && s[0..] == s;
  }

  /** The last `k` elements of `s`, reversed, are the first `k` of
      Reversed(s), element for element and as a multiset. */
  lemma {:induction false} MultisetOfReversed(s: seq<Transaction>, k: nat)
    requires k <= |s|
    ensures multiset(Reversed(s)[..k]) == multiset(s[|s| - k..])
  {
    if k > 0 {
      MultisetOfReversed(s, k - 1);
      var r := Reversed(s);
      assert r[..k] == r[..k - 1] + [s[|s| - k]];
      assert s[|s| - k..] == [s[|s| - k]] + s[|s| - k + 1..];
    } else {
      assert s[|s|..] == [];
    }
  }

  /** What `processTransactions` computes for `transactions` as the caller
      passes them: Stripe lists newest first, the run goes oldest first. */
  function Reconcile(
    transactions: seq<Transaction>, entries: seq<Entry>, mapper: Mapper, isUnchanged: Comparison, nocfo: Nocfo): Run
  {
    RunOver(Reversed(transactions), entries, mapper, isUnchanged, nocfo, |transactions|)
  }

  // ------------------------------------------------------------ the loop

  /** The `for` loop of `processTransactions` over the reversed copy. */
  method ReconcileQueue(
    queue: seq<Transaction>, total: nat, entries: seq<Entry>, mapper: Mapper, isUnchanged: Comparison, nocfo: Nocfo)
    returns (summary: ResultsSummary, ghost calls: seq<Call>)
    ensures summary == RunOver(queue, entries, mapper, isUnchanged, nocfo, total).summary
    ensures calls == RunOver(queue, entries, mapper, isUnchanged, nocfo, total).calls
  {
    summary := Initial(total);
    calls := [];
    var issued: nat := 0;
    for i := 0 to |queue|
      invariant issued == |calls|
      invariant Run(summary, calls) == RunOver(queue[..i], entries, mapper, isUnchanged, nocfo, total)
    {
      var t := queue[i];
      assert queue[..i + 1][..i] == queue[..i];
      var mapped := mapper(t, entries);
      if mapped.Err? {
        summary := summary.(errorReasons := summary.errorReasons + [ProcessingReason(t.id, mapped.error.Message())]);
        summary := summary.(errors := summary.errors + 1);
        continue;
      }
      if mapped.value.None? {
        summary := summary.(skipped := summary.skipped + 1);
        summary := summary.(skippedReasons := summary.skippedReasons + [SkipReason(t)]);
        continue;
      }
      var draft := mapped.value.value;
      var existing := FindExistingEntry(t.id, entries);
      if existing.Some? {
        if isUnchanged(existing.value, draft) {
          continue;
        }
        var call := Update(existing.value.id, draft);
        var response := nocfo(issued, call);
        issued := issued + 1;
        calls := calls + [call];
        if response.Failure? {
          summary := summary.(errorReasons := summary.errorReasons + [UpdateReason(t.id, response.message)]);
          summary := summary.(errors := summary.errors + 1);
          continue;
        }
        summary := summary.(updated := summary.updated + 1);
      } else {
        var call := Create(draft);
        var response := nocfo(issued, call);
        issued := issued + 1;
        calls := calls + [call];
        if response.Failure? {
          summary := summary.(errorReasons := summary.errorReasons + [CreateReason(t.id, response.message)]);
          summary := summary.(errors := summary.errors + 1);
          continue;
        }
        summary := summary.(created := summary.created + 1);
      }
    }
    assert queue[..|queue|] == queue;
  }

  /** `transactions.reverse()`: reverses the caller's array in place. */
  method ReverseInPlace(a: array<Transaction>)
    modifies a
    ensures a[..] == Reversed(old(a[..]))
  {
    var n := a.Length;
    var i := 0;
    while i < n / 2
      invariant 0 <= i <= n / 2
      invariant forall k :: 0 <= k < i ==> a[k] == old(a[n - 1 - k]) && a[n - 1 - k] == old(a[k])
      invariant forall k :: i <= k < n - i ==> a[k] == old(a[k])
    {
      a[i], a[n - 1 - i] := a[n - 1 - i], a[i];
      i := i + 1;
    }
  }

  /** `processTransactions`: the summary counts the whole input, the caller's
      array is left reversed, and the run goes over a copy of it. */
  method ProcessTransactions(
    transactions: array<Transaction>, entries: seq<Entry>, mapper: Mapper, isUnchanged: Comparison, nocfo: Nocfo)
    returns (summary: ResultsSummary, ghost calls: seq<Call>)
    modifies transactions
    ensures transactions[..] == Reversed(old(transactions[..]))
    ensures summary == Reconcile(old(transactions[..]), entries, mapper, isUnchanged, nocfo).summary
    ensures calls == Reconcile(old(transactions[..]), entries, mapper, isUnchanged, nocfo).calls
  {
    var total := transactions.Length;
    ReverseInPlace(transactions);
    var transactionsToCreate := transactions[..];
    summary, calls := ReconcileQueue(transactionsToCreate, total, entries, mapper, isUnchanged, nocfo);
  }

  // ---------------------------------------------------- one step at a time

  /** A step moves at most one of the four counters, by one, and leaves the
      total alone. */
  lemma OutcomeMovesOneCounter(
    run: Run, t: Transaction, mapped: Result<Option<Draft>, MappingError>, existing: Option<Entry>,
    isUnchanged: Comparison, nocfo: Nocfo)
    ensures var s, s' := run.summary, Outcome(run, t, mapped, existing, isUnchanged, nocfo).summary;
      && s'.totalStripeTransactions == s.totalStripeTransactions
      && s.created <= s'.created && s.updated <= s'.updated
      && s.skipped <= s'.skipped && s.errors <= s'.errors
      && Tally(s') <= Tally(s) + 1
  {
  }

  /** A step records a reason exactly with a skip or an error, keeps the
      reasons recorded before it, and sends at most one request. */
  lemma OutcomeRecordsReasons(
    run: Run, t: Transaction, mapped: Result<Option<Draft>, MappingError>, existing: Option<Entry>,
    isUnchanged: Comparison, nocfo: Nocfo)
    ensures var s, s' := run.summary, Outcome(run, t, mapped, existing, isUnchanged, nocfo).summary;
      && s.errorReasons <= s'.errorReasons && |s'.errorReasons| - |s.errorReasons| == s'.errors - s.errors
      && s.skippedReasons <= s'.skippedReasons && |s'.skippedReasons| - |s.skippedReasons| == s'.skipped - s.skipped
    ensures var calls' := Outcome(run, t, mapped, existing, isUnchanged, nocfo).calls;
      run.calls <= calls' && |calls'| <= |run.calls| + 1
  {
  }

  /** A transaction that cannot be mapped counts one error with one
      "Error processing transaction" reason, and sends nothing to NOCFO. */
  lemma MappingFailureIsRecorded(
    run: Run, t: Transaction, entries: seq<Entry>, mapper: Mapper, isUnchanged: Comparison, nocfo: Nocfo)
    requires mapper(t, entries).Err?
    ensures var e := mapper(t, entries).error;
      Step(run, t, entries, mapper, isUnchanged, nocfo)
        == Run(WithError(run.summary, ProcessingReason(t.id, e.Message())), run.calls)
  {
  }

  /** A transaction of a type the mapper does not handle is skipped with its
      reason, and nothing is sent to NOCFO. */
  lemma UnhandledTypeIsSkipped(
    run: Run, t: Transaction, entries: seq<Entry>, stripe: StripeLookups, isUnchanged: Comparison, nocfo: Nocfo)
    requires !Handled(t.txnType)
    ensures var s := run.summary;
      Step(run, t, entries, TransactionMapper(stripe), isUnchanged, nocfo)
        == Run(s.(skipped := s.skipped + 1, skippedReasons := s.skippedReasons + [SkipReason(t)]), run.calls)
  {
  }

  /** An existing entry the comparison finds unchanged changes nothing. */
  lemma UnchangedEntryIsLeftAlone(
    run: Run, t: Transaction, entries: seq<Entry>, mapper: Mapper, isUnchanged: Comparison, nocfo: Nocfo)
    requires mapper(t, entries).Ok?
    requires mapper(t, entries).value.Some?
    requires FindExistingEntry(t.id, entries).Some?
    requires isUnchanged(FindExistingEntry(t.id, entries).value, mapper(t, entries).value.value)
    ensures Step(run, t, entries, mapper, isUnchanged, nocfo) == run
  {
  }

  /** An existing entry the comparison finds changed is updated under its
      own id: `updated` goes up on success, `errors` with a "Failed to update
      entry" reason on failure. */
  lemma ChangedEntryIsUpdated(
    run: Run, t: Transaction, entries: seq<Entry>, mapper: Mapper, isUnchanged: Comparison, nocfo: Nocfo)
    requires mapper(t, entries).Ok?
    requires mapper(t, entries).value.Some?
    requires FindExistingEntry(t.id, entries).Some?
    requires !isUnchanged(FindExistingEntry(t.id, entries).value, mapper(t, entries).value.value)
    ensures var draft := mapper(t, entries).value.value;
      var call := Update(FindExistingEntry(t.id, entries).value.id, draft);
      var s := run.summary;
      var next := Step(run, t, entries, mapper, isUnchanged, nocfo);
      && next.calls == run.calls + [call]
      && (nocfo(|run.calls|, call).Success? ==> next.summary == s.(updated := s.updated + 1))
      && (nocfo(|run.calls|, call).Failure? ==>
            next.summary == WithError(s, UpdateReason(t.id, nocfo(|run.calls|, call).message)))
  {
  }

  /** A draft with no existing entry is created: `created` goes up on
      success, `errors` with a "Failed to create entry" reason on failure. */
  lemma NewEntryIsCreated(
    run: Run, t: Transaction, entries: seq<Entry>, mapper: Mapper, isUnchanged: Comparison, nocfo: Nocfo)
    requires mapper(t, entries).Ok?
    requires mapper(t, entries).value.Some?
    requires FindExistingEntry(t.id, entries).None?
    ensures var call := Create(mapper(t, entries).value.value);
      var s := run.summary;
      var next := Step(run, t, entries, mapper, isUnchanged, nocfo);
      && next.calls == run.calls + [call]
      && (nocfo(|run.calls|, call).Success? ==> next.summary == s.(created := s.created + 1))
      && (nocfo(|run.calls|, call).Failure? ==>
            next.summary == WithError(s, CreateReason(t.id, nocfo(|run.calls|, call).message)))
  {
  }

  // ------------------------------------------------------- the whole run

  /** Throughout a run the total is the input length, every reason is
      counted, no transaction is counted twice, and every success was a
      request. */
  lemma {:induction false} RunInvariants(
    queue: seq<Transaction>, entries: seq<Entry>, mapper: Mapper, isUnchanged: Comparison, nocfo: Nocfo, total: nat)
    ensures var run := RunOver(queue, entries, mapper, isUnchanged, nocfo, total);
      && run.summary.totalStripeTransactions == total
      && ReasonsCounted(run.summary)
      && Tally(run.summary) <= |queue|
      && run.summary.created + run.summary.updated <= |run.calls| <= |queue|
  {
    if queue != [] {
      var prefix := queue[..|queue| - 1];
      RunInvariants(prefix, entries, mapper, isUnchanged, nocfo, total);
      var t := queue[|queue| - 1];
      var before := RunOver(prefix, entries, mapper, isUnchanged, nocfo, total);
      var mapped, existing := mapper(t, entries), FindExistingEntry(t.id, entries);
      OutcomeMovesOneCounter(before, t, mapped, existing, isUnchanged, nocfo);
      OutcomeRecordsReasons(before, t, mapped, existing, isUnchanged, nocfo);
    }
  }

  /** The same for `processTransactions`: the counters add up to at most the
      number of transactions it was given. */
  lemma ReconcileCounts(
    transactions: seq<Transaction>, entries: seq<Entry>, mapper: Mapper, isUnchanged: Comparison, nocfo: Nocfo)
    ensures var s := Reconcile(transactions, entries, mapper, isUnchanged, nocfo).summary;
      && s.totalStripeTransactions == |transactions|
      && ReasonsCounted(s)
      && s.created + s.updated + s.skipped + s.errors <= s.totalStripeTransactions
  {
    RunInvariants(Reversed(transactions), entries, mapper, isUnchanged, nocfo, |transactions|);
  }

  /** Running over `queue + [t]` is running over `queue`, then one step. */
  lemma RunOverSnoc(
    queue: seq<Transaction>, t: Transaction, entries: seq<Entry>, mapper: Mapper, isUnchanged: Comparison,
    nocfo: Nocfo, total: nat)
    ensures RunOver(queue + [t], entries, mapper, isUnchanged, nocfo, total)
      == Step(RunOver(queue, entries, mapper, isUnchanged, nocfo, total), t, entries, mapper, isUnchanged, nocfo)
  {
    assert (queue + [t])[..|queue|] == queue;
  }

  /** The draft built for `t` is already stored in NOCFO: its first linked
      entry holds exactly that content. */
  predicate Settled(t: Transaction, entries: seq<Entry>, mapper: Mapper)
  {
    var mapped := mapper(t, entries);
    && mapped.Ok? && mapped.value.Some?
    && var existing := FindExistingEntry(t.id, entries);
       existing.Some? && existing.value == Stored(existing.value.id, mapped.value.value)
  }

  /** With the corrected comparison, re-running over transactions whose
      drafts are all stored sends nothing and counts nothing, whatever NOCFO
      would answer. */
  lemma {:induction false} SettledRunIsQuiet(
    queue: seq<Transaction>, entries: seq<Entry>, mapper: Mapper, nocfo: Nocfo, total: nat)
    requires forall i :: 0 <= i < |queue| ==> Settled(queue[i], entries, mapper)
    ensures RunOver(queue, entries, mapper, CorrectedCheck(), nocfo, total) == Run(Initial(total), [])
  {
    if queue != [] {
      var prefix := queue[..|queue| - 1];
      SettledRunIsQuiet(prefix, entries, mapper, nocfo, total);
      var t := queue[|queue| - 1];
      assert Settled(t, entries, mapper);
      var draft := mapper(t, entries).value.value;
      assert CorrectedCheck()(FindExistingEntry(t.id, entries).value, draft);
    }
  }

  /** The update request a settled transaction gets when its entry is
      judged changed: its own draft, under the id of its listed entry. */
  function Resend(t: Transaction, entries: seq<Entry>, mapper: Mapper): Call
    requires Settled(t, entries, mapper)
  {
    Update(FindExistingEntry(t.id, entries).value.id, mapper(t, entries).value.value)
  }

  /** With the comparison as written, the same re-run sends one update per
      transaction, each re-sending the stored draft, and, NOCFO accepting
      them, counts every transaction as updated. */
  lemma {:induction false} SettledRunIsResent(
    queue: seq<Transaction>, entries: seq<Entry>, mapper: Mapper, nocfo: Nocfo, total: nat)
    requires forall i :: 0 <= i < |queue| ==> Settled(queue[i], entries, mapper)
    requires forall n, call :: nocfo(n, call) == Success
    ensures var run := RunOver(queue, entries, mapper, AsWrittenCheck(), nocfo, total);
      && run.summary == Initial(total).(updated := |queue|)
      && |run.calls| == |queue|
      && forall i :: 0 <= i < |queue| ==> run.calls[i] == Resend(queue[i], entries, mapper)
  {
    if queue != [] {
      var prefix := queue[..|queue| - 1];
      SettledRunIsResent(prefix, entries, mapper, nocfo, total);
      var t := queue[|queue| - 1];
      assert Settled(t, entries, mapper);
      var existing := FindExistingEntry(t.id, entries).value;
      var draft := mapper(t, entries).value.value;
      IsEntryUnchangedNeverHolds(existing, draft);
      var before := RunOver(prefix, entries, mapper, AsWrittenCheck(), nocfo, total);
      var after := RunOver(queue, entries, mapper, AsWrittenCheck(), nocfo, total);
      assert nocfo(|before.calls|, Update(existing.id, draft)) == Success;
      assert after == Run(before.summary.(updated := before.summary.updated + 1),
                          before.calls + [Update(existing.id, draft)]);
      assert forall i :: 0 <= i < |prefix| ==> queue[i] == prefix[i];
    }
  }

  /** Entries created during a run are not visible to later lookups: a refund
      whose sale's balance transaction has no entry in the listing taken
      before the run fails with "No original entry found" after any earlier
      steps, including one that created that sale's entry in NOCFO. */
  lemma RefundAfterAnyStepsFails(
    before: Run, refund: Transaction, originalId: string, entries: seq<Entry>, stripe: StripeLookups,
    isUnchanged: Comparison, nocfo: Nocfo)
    requires refund.txnType == "refund" && UsableId(refund.source)
    requires refund.source.id in stripe.refundCharge
    requires UsableId(stripe.refundCharge[refund.source.id])
    requires stripe.refundCharge[refund.source.id].id in stripe.chargeBalanceTransaction
    requires stripe.chargeBalanceTransaction[stripe.refundCharge[refund.source.id].id] == Id(originalId)
    requires FindExistingEntry(originalId, entries).None?
    ensures Step(before, refund, entries, TransactionMapper(stripe), isUnchanged, nocfo)
      == Run(WithError(before.summary,
               ProcessingReason(refund.id, "No original entry found for refund transaction " + refund.id)),
             before.calls)
  {
    RefundOfUnlistedOriginalFails(refund, entries, stripe, originalId);
  }

  // --------------------------------------------------- concrete batches

  /** A batch of one transaction is one step from the initial summary. */
  lemma SingleTransactionRun(t: Transaction, entries: seq<Entry>, mapper: Mapper, isUnchanged: Comparison, nocfo: Nocfo)
    ensures Reconcile([t], entries, mapper, isUnchanged, nocfo)
      == Step(Run(Initial(1), []), t, entries, mapper, isUnchanged, nocfo)
  {
    assert Reversed([t]) == [] + [t];
    RunOverSnoc([], t, entries, mapper, isUnchanged, nocfo, 1);
  }

  /** The first step of a run on a new draft that NOCFO accepts: one create
      request, one creation. */
  lemma FirstDraftCreated(run: Run, t: Transaction, draft: Draft, isUnchanged: Comparison, nocfo: Nocfo)
    requires run.summary == Initial(1) && run.calls == []
    requires nocfo(0, Create(draft)) == Success
    ensures Outcome(run, t, Ok(Some(draft)), None, isUnchanged, nocfo)
      == Run(ResultsSummary(1, 1, 0, 0, [], 0, []), [Create(draft)])
  {
  }

  /** The first step of a run on a new draft that NOCFO rejects with
      `message`: one create request, one error with its reason. */
  lemma FirstDraftRejected(run: Run, t: Transaction, draft: Draft, message: string, isUnchanged: Comparison, nocfo: Nocfo)
    requires run.summary == Initial(1) && run.calls == []
    requires nocfo(0, Create(draft)) == Failure(message)
    ensures Outcome(run, t, Ok(Some(draft)), None, isUnchanged, nocfo)
      == Run(ResultsSummary(1, 0, 0, 0, [], 1, [CreateReason(t.id, message)]), [Create(draft)])
  {
  }

  /** The first step of a run on a draft whose listed entry is judged
      changed, NOCFO accepting the update: one update request under that
      entry's id, one update. */
  lemma FirstDraftUpdated(run: Run, t: Transaction, draft: Draft, existing: Entry, isUnchanged: Comparison, nocfo: Nocfo)
    requires run.summary == Initial(1) && run.calls == []
    requires !isUnchanged(existing, draft)
    requires nocfo(0, Update(existing.id, draft)) == Success
    ensures Outcome(run, t, Ok(Some(draft)), Some(existing), isUnchanged, nocfo)
      == Run(ResultsSummary(1, 0, 1, 0, [], 0, []), [Update(existing.id, draft)])
  {
  }

  /** What the transaction processor makes of the payment fixture. */
  lemma FixturePaymentMaps(created: int, entries: seq<Entry>, stripe: StripeLookups)
    requires InTimeRange(created)
    ensures TransactionMapper(stripe)(FixturePayment(created), entries)
      == Ok(Some(CreatePaymentEntry(FixturePayment(created)).value))
  {
  }

  /** The fixture payment, with nothing listed and NOCFO accepting the
      request: one entry created from its SALES draft. */
  lemma FixturePaymentIsCreated(created: int, stripe: StripeLookups, isUnchanged: Comparison, nocfo: Nocfo)
    requires InTimeRange(created)
    requires nocfo(0, Create(CreatePaymentEntry(FixturePayment(created)).value)) == Success
    ensures var t := FixturePayment(created);
      Reconcile([t], [], TransactionMapper(stripe), isUnchanged, nocfo)
        == Run(ResultsSummary(1, 1, 0, 0, [], 0, []), [Create(CreatePaymentEntry(t).value)])
  {
    var t := FixturePayment(created);
    var mapper := TransactionMapper(stripe);
    var draft := CreatePaymentEntry(t).value;
    FixturePaymentMaps(created, [], stripe);
    assert mapper(t, []) == Ok(Some(draft));
    assert FindExistingEntry(t.id, []) == None;
    FirstDraftCreated(Run(Initial(1), []), t, draft, isUnchanged, nocfo);
    SingleTransactionRun(t, [], mapper, isUnchanged, nocfo);
  }

  /** The same payment with NOCFO rejecting the create: one error whose
      reason says the create failed, nothing else counted. */
  lemma FixtureCreateFailureIsCounted(created: int, stripe: StripeLookups, isUnchanged: Comparison, nocfo: Nocfo)
    requires InTimeRange(created)
    requires nocfo(0, Create(CreatePaymentEntry(FixturePayment(created)).value)) == Failure("API Error")
    ensures Reconcile([FixturePayment(created)], [], TransactionMapper(stripe), isUnchanged, nocfo).summary
      == ResultsSummary(1, 0, 0, 0, [], 1, [CreateReason("txn_1234567890", "API Error")])
  {
    var t := FixturePayment(created);
    var mapper := TransactionMapper(stripe);
    var draft := CreatePaymentEntry(t).value;
    FixturePaymentMaps(created, [], stripe);
    assert mapper(t, []) == Ok(Some(draft));
    assert FindExistingEntry(t.id, []) == None;
    FirstDraftRejected(Run(Initial(1), []), t, draft, "API Error", isUnchanged, nocfo);
    SingleTransactionRun(t, [], mapper, isUnchanged, nocfo);
  }

  /** The payment against the fixture entries, its listed entry judged
      changed (as the comparison as written always judges it): one update of
      "nocfo_entry_1". */
  lemma FixtureChangedEntryIsUpdated(created: int, stripe: StripeLookups, isUnchanged: Comparison, nocfo: Nocfo)
    requires InTimeRange(created)
    requires !isUnchanged(FixtureEntries()[0], CreatePaymentEntry(FixturePayment(created)).value)
    requires nocfo(0, Update("nocfo_entry_1", CreatePaymentEntry(FixturePayment(created)).value)) == Success
    ensures var t := FixturePayment(created);
      Reconcile([t], FixtureEntries(), TransactionMapper(stripe), isUnchanged, nocfo)
        == Run(ResultsSummary(1, 0, 1, 0, [], 0, []), [Update("nocfo_entry_1", CreatePaymentEntry(t).value)])
  {
    var t := FixturePayment(created);
    var entries := FixtureEntries();
    var mapper := TransactionMapper(stripe);
    var draft := CreatePaymentEntry(t).value;
    FixturePaymentMaps(created, entries, stripe);
    assert mapper(t, entries) == Ok(Some(draft));
    FixturePaymentListed();
    assert FindExistingEntry(t.id, entries) == Some(entries[0]);
    FirstDraftUpdated(Run(Initial(1), []), t, draft, entries[0], isUnchanged, nocfo);
    SingleTransactionRun(t, entries, mapper, isUnchanged, nocfo);
  }

  /** The payment against the fixture entries, its listed entry judged
      unchanged: nothing is sent and nothing counted but the total. */
  lemma FixtureUnchangedEntryIsSkipped(created: int, stripe: StripeLookups, isUnchanged: Comparison, nocfo: Nocfo)
    requires InTimeRange(created)
    requires isUnchanged(FixtureEntries()[0], CreatePaymentEntry(FixturePayment(created)).value)
    ensures Reconcile([FixturePayment(created)], FixtureEntries(), TransactionMapper(stripe), isUnchanged, nocfo)
      == Run(ResultsSummary(1, 0, 0, 0, [], 0, []), [])
  {
    var t := FixturePayment(created);
    var entries := FixtureEntries();
    var mapper := TransactionMapper(stripe);
    var draft := CreatePaymentEntry(t).value;
    FixturePaymentMaps(created, entries, stripe);
    assert mapper(t, entries) == Ok(Some(draft));
    FixturePaymentListed();
    assert FindExistingEntry(t.id, entries) == Some(entries[0]);
    SingleTransactionRun(t, entries, mapper, isUnchanged, nocfo);
  }

  /** What the transaction processor makes of the fee fixture. */
  lemma FixtureFeeMaps(created: int, entries: seq<Entry>, stripe: StripeLookups)
    requires InTimeRange(created)
    ensures TransactionMapper(stripe)(FixtureFee(created), entries)
      == Ok(Some(CreateStripeFeeEntry(FixtureFee(created)).value))
  {
  }

  /** The fixture fee, with nothing listed and NOCFO accepting the request:
      one entry created from its PURCHASE draft. */
  lemma FixtureFeeIsCreated(created: int, stripe: StripeLookups, isUnchanged: Comparison, nocfo: Nocfo)
    requires InTimeRange(created)
    requires nocfo(0, Create(CreateStripeFeeEntry(FixtureFee(created)).value)) == Success
    ensures var t := FixtureFee(created);
      Reconcile([t], [], TransactionMapper(stripe), isUnchanged, nocfo)
        == Run(ResultsSummary(1, 1, 0, 0, [], 0, []), [Create(CreateStripeFeeEntry(t).value)])
  {
    var t := FixtureFee(created);
    var mapper := TransactionMapper(stripe);
    var draft := CreateStripeFeeEntry(t).value;
    FixtureFeeMaps(created, [], stripe);
    assert mapper(t, []) == Ok(Some(draft));
    assert FindExistingEntry(t.id, []) == None;
    FirstDraftCreated(Run(Initial(1), []), t, draft, isUnchanged, nocfo);
    SingleTransactionRun(t, [], mapper, isUnchanged, nocfo);
  }

  /** What the transaction processor makes of the refund fixture. */
  lemma FixtureRefundMaps(created: int)
    requires InTimeRange(created)
    ensures var t := FixtureRefund(created);
      TransactionMapper(FixtureStripe())(t, FixtureEntries())
        == Ok(Some(RefundDraft(t, "txn_1234567890", Line(SalesAccount, 1, 25.5, 34.8), DateOfCreated(created))))
  {
    var t := FixtureRefund(created);
    var entries, stripe := FixtureEntries(), FixtureStripe();
    var sale := Line(SalesAccount, 1, 25.5, 34.8);
    FixtureRefundResolves(created);
    assert ResolveOriginal(t, entries, stripe) == Ok(("txn_1234567890", sale));
    assert CreateRefundEntry(t, entries, stripe) == Ok(RefundDraft(t, "txn_1234567890", sale, DateOfCreated(created)));
    assert CreateEntryFromTransaction(t, entries, stripe) == Present(CreateRefundEntry(t, entries, stripe));
  }

  /** The fixture refund against the fixture entries and Stripe answers: its
      MANUAL draft, which backs out the sale's 25.5 % VAT, is created. */
  lemma FixtureRefundIsCreated(created: int, isUnchanged: Comparison, nocfo: Nocfo)
    requires InTimeRange(created)
    requires nocfo(0, Create(RefundDraft(FixtureRefund(created), "txn_1234567890",
      Line(SalesAccount, 1, 25.5, 34.8), DateOfCreated(created)))) == Success
    ensures var t := FixtureRefund(created);
      Reconcile([t], FixtureEntries(), TransactionMapper(FixtureStripe()), isUnchanged, nocfo)
        == Run(ResultsSummary(1, 1, 0, 0, [], 0, []),
               [Create(RefundDraft(t, "txn_1234567890", Line(SalesAccount, 1, 25.5, 34.8), DateOfCreated(created)))])
  {
    var t := FixtureRefund(created);
    var entries := FixtureEntries();
    var mapper := TransactionMapper(FixtureStripe());
    var draft := RefundDraft(t, "txn_1234567890", Line(SalesAccount, 1, 25.5, 34.8), DateOfCreated(created));
    FixtureRefundMaps(created);
    assert mapper(t, entries) == Ok(Some(draft));
    FixtureRefundUnlisted();
    assert FindExistingEntry(t.id, entries) == None;
    FirstDraftCreated(Run(Initial(1), []), t, draft, isUnchanged, nocfo);
    SingleTransactionRun(t, entries, mapper, isUnchanged, nocfo);
  }
}
