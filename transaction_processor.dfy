/** TransactionProcessor (src/processors/transaction-processor.ts): turns one
    Stripe balance transaction into a NOCFO draft. The two Stripe lookups of
    the refund path are given as maps. */
module TransactionProcessor {
  import opened Wrappers
  import opened Types
  import opened CivilDate
  import opened NocfoService

  // NOCFO accounts the drafts book to
  const ClearingAccount: int := 4982339   // the Stripe balance
  const SalesAccount: int := 4971114      // sales revenue
  const FeeAccount: int := 4971314        // Stripe fees
  const VatAccount: int := 4971086        // VAT payable
  const ResidualAccount: int := 4971222   // refund differences

  const SalesVatRate: real := 25.5

  /** What Stripe answers to the two lookups of a refund: for each refund id
      its `charge` field, for each charge id its `balance_transaction` field.
      An id missing from a map is one Stripe does not know; its SDK then
      throws. */
  datatype StripeLookups = StripeLookups(
    refundCharge: map<string, Ref>,
    chargeBalanceTransaction: map<string, Ref>)

  /** Why mapping one transaction failed; Message() is the thrown error's
      `message`. */
  datatype MappingError =
    | InvalidSource(transactionId: string)
    | NoSuchRefund(refundId: string)
    | InvalidChargeReference(transactionId: string)
    | NoSuchCharge(chargeId: string)
    | OriginalEntryNotFound(transactionId: string)
    | MissingCreditEntries
    | CreditLineNotFound(originalId: string)
    | NonFiniteVat
    | InvalidTimeValue
  {
    function Message(): string
    {
      match this
      case InvalidSource(id) => "Invalid transaction source for refund " + id
      case NoSuchRefund(id) => "No such refund: '" + id + "'"
      case InvalidChargeReference(id) => "Invalid charge reference for refund " + id
      case NoSuchCharge(id) => "No such charge: '" + id + "'"
      case OriginalEntryNotFound(id) => "No original entry found for refund transaction " + id
      case MissingCreditEntries => "Cannot read properties of undefined (reading 'find')"
      case CreditLineNotFound(id) => "No credit entry found for original transaction " + id
      case NonFiniteVat => "VAT rate of -100 leaves no finite VAT amount"
      case InvalidTimeValue => "Invalid time value"
    }
  }

  // --------------------------------------------------------------- money

  /** A Stripe amount in minor units as currency units. */
  function Amount(minor: int): real
  {
    minor as real / 100.0
  }

  predicate OnCentGrid(x: real)
  {
    (x * 100.0).Floor as real == x * 100.0
  }

  /** The integer nearest to `y`, halves rounded up. */
  function RoundHalfUp(y: real): (n: int)
    ensures y - 0.5 < n as real <= y + 0.5
  {
    (y + 0.5).Floor
  }

  /** `parseFloat(x.toFixed(2))` on exact reals: the nearest cent, ties away
      from zero. */
  function Round2(x: real): (r: real)
    ensures OnCentGrid(r)
    ensures -0.005 <= r - x <= 0.005
    ensures r - x == 0.005 ==> x >= 0.0
    ensures x - r == 0.005 ==> x < 0.0
  {
    var cents := if x >= 0.0 then RoundHalfUp(x * 100.0) else -RoundHalfUp(-x * 100.0);
    var r := cents as real / 100.0;
    assert r * 100.0 == cents as real;
    assert (cents as real).Floor == cents;
    r
  }

  /** The four properties of Round2's contract determine it: no other cent
      value is within half a cent of `x` with the same tie rule. */
  lemma Round2Unique(x: real, y: real)
    requires OnCentGrid(y)
    requires -0.005 <= y - x <= 0.005
    requires y - x == 0.005 ==> x >= 0.0
    requires x - y == 0.005 ==> x < 0.0
    ensures y == Round2(x)
  {
    var r := Round2(x);
    var a, b := (y * 100.0).Floor, (r * 100.0).Floor;
    assert -1 <= a - b <= 1;
  }

  function Sum(lines: seq<Line>): real
  {
    if lines == [] then 0.0 else lines[0].amount + Sum(lines[1..])
  }

  // ------------------------------------------------------------- payment

  function FeeLine(f: FeeDetail): Line
  {
    Line(FeeAccount, 3, 0.0, Amount(f.amount))
  }

  /** Sum, in minor units, of the `stripe_fee` items of `fee_details`. */
  function StripeFeeTotal(fees: seq<FeeDetail>): int
  {
    if fees == [] then 0
    else (if fees[0].feeType == "stripe_fee" then fees[0].amount else 0) + StripeFeeTotal(fees[1..])
  }

  /** The expense lines of a payment: `fee_details` filtered to `stripe_fee`
      items, each mapped to a line on the fee account. */
  function FeeLines(fees: seq<FeeDetail>): (lines: seq<Line>)
    ensures |lines| <= |fees|
    ensures forall l :: l in lines ==> exists f :: f in fees && f.feeType == "stripe_fee" && l == FeeLine(f)
    ensures Sum(lines) == Amount(StripeFeeTotal(fees))
  {
    if fees == [] then []
    else
      var tail := FeeLines(fees[1..]);
      assert forall f :: f in fees[1..] ==> f in fees;
      if fees[0].feeType == "stripe_fee" then
        var lines := [FeeLine(fees[0])] + tail;
        assert lines[1..] == tail;
        lines
      else tail
  }

  /** Filtering and mapping keep the order of `fee_details`. */
  lemma {:induction false} FeeLinesAppend(a: seq<FeeDetail>, b: seq<FeeDetail>)
    ensures FeeLines(a + b) == FeeLines(a) + FeeLines(b)
  {
    if a != [] {
      assert (a + b)[1..] == a[1..] + b;
      FeeLinesAppend(a[1..], b);
    } else {
      assert a + b == b;
    }
  }

  /** One line per `stripe_fee` item; items of other types give none. */
  lemma {:induction false} FeeLinesCount(fees: seq<FeeDetail>)
    ensures (forall i :: 0 <= i < |fees| ==> fees[i].feeType == "stripe_fee") ==> |FeeLines(fees)| == |fees|
    ensures (forall i :: 0 <= i < |fees| ==> fees[i].feeType != "stripe_fee") ==> FeeLines(fees) == []
  {
    if fees != [] {
      FeeLinesCount(fees[1..]);
      assert forall i :: 1 <= i < |fees| ==> fees[1..][i - 1] == fees[i];
    }
  }

  /** The `description` text of a transaction; a `null` one reads "null" in a
      template literal. */
  function DescriptionText(description: Option<string>): string
  {
    match description
    case Some(s) => s
    case None => "null"
  }

  /** The date every draft carries; `toISOString` throws outside the time
      range. */
  function DraftDate(created: int): (r: Result<string, MappingError>)
    ensures r.Ok? <==> InTimeRange(created)
    ensures r.Err? ==> r.error == InvalidTimeValue
  {
    if InTimeRange(created) then Ok(DateOfCreated(created)) else Err(InvalidTimeValue)
  }

  /** `createPaymentEntry`: a SALES draft with one VAT 25.5 % revenue line
      and one expense line per Stripe fee. */
  function CreatePaymentEntry(t: Transaction): (r: Result<Draft, MappingError>)
    ensures r.Ok? <==> InTimeRange(t.created)
    ensures r.Err? ==> r.error == InvalidTimeValue
    ensures r.Ok? ==> (
      && r.value.blueprintType == Sales
      && r.value.blueprint.debetAccountId == Some(ClearingAccount)
      && r.value.blueprint.creditAccountId.None? && r.value.blueprint.debetEntries.None?
      && r.value.blueprint.creditEntries == Some([Line(SalesAccount, 1, SalesVatRate, Amount(t.amount))])
      && r.value.blueprint.expenseEntries == Some(FeeLines(t.feeDetails))
      && r.value.date == DateOfCreated(t.created)
      && r.value.description == t.id + Separator + "Stripe Transaction")
  {
    var date :- DraftDate(t.created);
    Ok(Draft(
      Sales,
      Blueprint(
        Some(ClearingAccount), None,
        Some([Line(SalesAccount, 1, SalesVatRate, Amount(t.amount))]),
        None,
        Some(FeeLines(t.feeDetails))),
      date,
      t.id + Separator + "Stripe Transaction"))
  }

  // ----------------------------------------------------------------- fee

  /** `createStripeFeeEntry`: a PURCHASE draft with one debit line holding the
      (negative) fee amount negated. */
  function CreateStripeFeeEntry(t: Transaction): (r: Result<Draft, MappingError>)
    ensures r.Ok? <==> InTimeRange(t.created)
    ensures r.Err? ==> r.error == InvalidTimeValue
    ensures r.Ok? ==> (
      && r.value.blueprintType == Purchase
      && r.value.blueprint.creditAccountId == Some(ClearingAccount)
      && r.value.blueprint.debetAccountId.None? && r.value.blueprint.creditEntries.None?
      && r.value.blueprint.expenseEntries.None?
      && r.value.blueprint.debetEntries == Some([Line(FeeAccount, 3, 0.0, Amount(-t.amount))])
      && r.value.date == DateOfCreated(t.created)
      && r.value.description == t.id + Separator + DescriptionText(t.description))
  {
    var date :- DraftDate(t.created);
    Ok(Draft(
      Purchase,
      Blueprint(None, Some(ClearingAccount), None, Some([Line(FeeAccount, 3, 0.0, Amount(-t.amount))]), None),
      date,
      t.id + Separator + DescriptionText(t.description)))
  }

  // -------------------------------------------------------------- refund

  /** A reference usable as an id: a non-empty string. */
  predicate UsableId(r: Ref)
  {
    r.Id? && r.id != ""
  }

  /** The first line on `account`, as `find` returns it. */
  function FirstOnAccount(lines: seq<Line>, account: int): (r: Option<Line>)
    ensures r.None? <==> forall i :: 0 <= i < |lines| ==> lines[i].accountId != account
    ensures r.Some? ==> exists i ::
      && 0 <= i < |lines| && lines[i] == r.value && r.value.accountId == account
      && forall j :: 0 <= j < i ==> lines[j].accountId != account
  {
    if lines == [] then None
    else if lines[0].accountId == account then Some(lines[0])
    else
      var r := FirstOnAccount(lines[1..], account);
      assert forall i :: 1 <= i < |lines| ==> lines[1..][i - 1] == lines[i];
      r
  }

  /** Stripe's two lookups lead from the refund to its charge and on to the
      charge's `balance_transaction` field. */
  predicate ChargeResolves(t: Transaction, stripe: StripeLookups)
  {
    && UsableId(t.source) && t.source.id in stripe.refundCharge
    && UsableId(stripe.refundCharge[t.source.id])
    && stripe.refundCharge[t.source.id].id in stripe.chargeBalanceTransaction
  }

  /** The `balance_transaction` of the refunded charge. */
  function OriginalBalance(t: Transaction, stripe: StripeLookups): Ref
    requires ChargeResolves(t, stripe)
  {
    stripe.chargeBalanceTransaction[stripe.refundCharge[t.source.id].id]
  }

  /** The first half of `createRefundEntry`: from the refund to the original
      sale's balance-transaction id and its revenue credit line, failing at the
      first step that does not resolve. */
  function ResolveOriginal(t: Transaction, entries: seq<Entry>, stripe: StripeLookups)
    : (r: Result<(string, Line), MappingError>)
    ensures !UsableId(t.source) ==> r == Err(InvalidSource(t.id))
    ensures UsableId(t.source) && t.source.id !in stripe.refundCharge ==> r == Err(NoSuchRefund(t.source.id))
    ensures (UsableId(t.source) && t.source.id in stripe.refundCharge
             && !UsableId(stripe.refundCharge[t.source.id])) ==> r == Err(InvalidChargeReference(t.id))
    ensures (UsableId(t.source) && t.source.id in stripe.refundCharge
             && UsableId(stripe.refundCharge[t.source.id])
             && stripe.refundCharge[t.source.id].id !in stripe.chargeBalanceTransaction)
            ==> r == Err(NoSuchCharge(stripe.refundCharge[t.source.id].id))
    ensures r == Err(OriginalEntryNotFound(t.id)) <==> (
      && ChargeResolves(t, stripe)
      && var b := OriginalBalance(t, stripe);
         !(b.Id? && FindExistingEntry(b.id, entries).Some?))
    ensures ChargeResolves(t, stripe) && OriginalBalance(t, stripe).Id? ==> (
      var b := OriginalBalance(t, stripe).id;
      var e := FindExistingEntry(b, entries);
      && (e.Some? && e.value.blueprint.creditEntries.None? ==> r == Err(MissingCreditEntries))
      && (e.Some? && e.value.blueprint.creditEntries.Some? ==> (
            var line := FirstOnAccount(e.value.blueprint.creditEntries.value, SalesAccount);
            && (line.None? ==> r == Err(CreditLineNotFound(b)))
            && (line.Some? ==> r == Ok((b, line.value))))))
    ensures r.Ok? ==> (
      && ChargeResolves(t, stripe) && OriginalBalance(t, stripe) == Id(r.value.0)
      && var e := FindExistingEntry(r.value.0, entries);
         && e.Some? && e.value.blueprint.creditEntries.Some?
         && FirstOnAccount(e.value.blueprint.creditEntries.value, SalesAccount) == Some(r.value.1))
  {
    if !UsableId(t.source) then Err(InvalidSource(t.id))
    else if t.source.id !in stripe.refundCharge then Err(NoSuchRefund(t.source.id))
    else
      var charge := stripe.refundCharge[t.source.id];
      if !UsableId(charge) then Err(InvalidChargeReference(t.id))
      else if charge.id !in stripe.chargeBalanceTransaction then Err(NoSuchCharge(charge.id))
      else
        var balance := stripe.chargeBalanceTransaction[charge.id];
        if !balance.Id? then Err(OriginalEntryNotFound(t.id))
        else
          var original := FindExistingEntry(balance.id, entries);
          if original.None? then Err(OriginalEntryNotFound(t.id))
          else if original.value.blueprint.creditEntries.None? then Err(MissingCreditEntries)
          else
            var line := FirstOnAccount(original.value.blueprint.creditEntries.value, SalesAccount);
            if line.None? then Err(CreditLineNotFound(balance.id))
            else Ok((balance.id, line.value))
  }

  /** VAT backed out of a VAT-inclusive gross amount, rounded to cents. */
  function BackedOutVat(gross: real, vatRatePercent: real): (vat: real)
    requires vatRatePercent != -100.0
    ensures OnCentGrid(vat)
    ensures var rate := vatRatePercent / 100.0;
      -0.005 <= vat - gross / (rate + 1.0) * rate <= 0.005
  {
    var rate := vatRatePercent / 100.0;
    Round2(gross / (rate + 1.0) * rate)
  }

  /** The MANUAL draft reversing sale line `c` for refund `t`. */
  function RefundDraft(t: Transaction, originalId: string, c: Line, date: string): Draft
    requires c.vatRate != -100.0
  {
    var vat := BackedOutVat(c.amount, c.vatRate);
    var refunded := Amount(-t.amount);
    Draft(
      Manual,
      Blueprint(
        None, None,
        Some([Line(ClearingAccount, 3, 0.0, refunded)]),
        Some([
          Line(SalesAccount, 1, 0.0, c.amount - vat),
          Line(VatAccount, 3, 0.0, vat),
          Line(ResidualAccount, 3, 0.0, refunded - c.amount)]),
        None),
      date,
      t.id + Separator + (DescriptionText(t.description) + " " + originalId))
  }

  /** `createRefundEntry`. */
  function CreateRefundEntry(t: Transaction, entries: seq<Entry>, stripe: StripeLookups)
    : (r: Result<Draft, MappingError>)
    ensures ResolveOriginal(t, entries, stripe).Err? ==> r == Err(ResolveOriginal(t, entries, stripe).error)
    ensures r.Ok? <==> (
      && ResolveOriginal(t, entries, stripe).Ok?
      && ResolveOriginal(t, entries, stripe).value.1.vatRate != -100.0
      && InTimeRange(t.created))
    ensures r.Ok? ==> (
      var resolved := ResolveOriginal(t, entries, stripe).value;
      r.value == RefundDraft(t, resolved.0, resolved.1, DateOfCreated(t.created)))
  {
    var resolved :- ResolveOriginal(t, entries, stripe);
    var (originalId, c) := resolved;
    if c.vatRate == -100.0 then Err(NonFiniteVat)
    else
      var date :- DraftDate(t.created);
      Ok(RefundDraft(t, originalId, c, date))
  }

  /** The refund draft balances: its three debit lines add up to its single
      credit line, the refunded amount; the first two add up to the original
      gross amount; the VAT line is on the cent grid within half a cent of the
      VAT contained in that gross amount. */
  lemma RefundDraftBalances(t: Transaction, originalId: string, c: Line, date: string)
    requires c.vatRate != -100.0
    ensures var d := RefundDraft(t, originalId, c, date);
      var debets := d.blueprint.debetEntries.value;
      var rate := c.vatRate / 100.0;
      && |debets| == 3 && |d.blueprint.creditEntries.value| == 1
      && Sum(debets) == Sum(d.blueprint.creditEntries.value) == Amount(-t.amount)
      && debets[0].amount + debets[1].amount == c.amount
      && OnCentGrid(debets[1].amount)
      && -0.005 <= debets[1].amount - c.amount / (rate + 1.0) * rate <= 0.005
  {
    var d := RefundDraft(t, originalId, c, date);
    var debets := d.blueprint.debetEntries.value;
    var credits := d.blueprint.creditEntries.value;
    assert Sum(debets[2..]) == debets[2].amount by {
      assert debets[2..][1..] == [];
    }
    assert Sum(debets[1..]) == debets[1].amount + Sum(debets[2..]) by {
      assert debets[1..][1..] == debets[2..];
    }
    assert Sum(credits) == credits[0].amount by {
      assert credits[1..] == [];
    }
  }

  /** The same balance for the draft `createRefundEntry` returns, stated
      against the credit line of the original sale entry. */
  lemma RefundEntryBalances(t: Transaction, entries: seq<Entry>, stripe: StripeLookups)
    requires CreateRefundEntry(t, entries, stripe).Ok?
    ensures var d := CreateRefundEntry(t, entries, stripe).value;
      var c := ResolveOriginal(t, entries, stripe).value.1;
      var debets := d.blueprint.debetEntries.value;
      var rate := c.vatRate / 100.0;
      && |debets| == 3
      && Sum(debets) == Sum(d.blueprint.creditEntries.value) == Amount(-t.amount)
      && debets[0].amount + debets[1].amount == c.amount
      && OnCentGrid(debets[1].amount)
      && -0.005 <= debets[1].amount - c.amount / (rate + 1.0) * rate <= 0.005
  {
    var resolved := ResolveOriginal(t, entries, stripe).value;
    RefundDraftBalances(t, resolved.0, resolved.1, DateOfCreated(t.created));
  }

  // ------------------------------------------------------------ dispatch

  /** The transaction types the mapper handles. */
  predicate Handled(txnType: string)
  {
    txnType == "payment" || txnType == "charge" || txnType == "stripe_fee" || txnType == "refund"
  }

  function Present(r: Result<Draft, MappingError>): Result<Option<Draft>, MappingError>
  {
    match r
    case Ok(d) => Ok(Some(d))
    case Err(e) => Err(e)
  }

  /** `createEntryFromTransaction`: dispatch on the transaction type; `None`
      (the source's `null`) for a type it does not handle. */
  function CreateEntryFromTransaction(t: Transaction, entries: seq<Entry>, stripe: StripeLookups)
    : (r: Result<Option<Draft>, MappingError>)
    ensures t.txnType == "payment" || t.txnType == "charge" ==> r == Present(CreatePaymentEntry(t))
    ensures t.txnType == "stripe_fee" ==> r == Present(CreateStripeFeeEntry(t))
    ensures t.txnType == "refund" ==> r == Present(CreateRefundEntry(t, entries, stripe))
    ensures r == Ok(None) <==> !Handled(t.txnType)
  {
    if t.txnType == "payment" || t.txnType == "charge" then Present(CreatePaymentEntry(t))
    else if t.txnType == "stripe_fee" then Present(CreateStripeFeeEntry(t))
    else if t.txnType == "refund" then Present(CreateRefundEntry(t, entries, stripe))
    else Ok(None)
  }

  /** Unhandled types are never errors, and only refunds depend on the
      existing entries and on Stripe's lookups. */
  lemma OnlyRefundsLookUp(t: Transaction, e1: seq<Entry>, s1: StripeLookups, e2: seq<Entry>, s2: StripeLookups)
    ensures CreateEntryFromTransaction(t, e1, s1).Err? ==> Handled(t.txnType)
    ensures t.txnType != "refund" ==> CreateEntryFromTransaction(t, e1, s1) == CreateEntryFromTransaction(t, e2, s2)
    ensures t.txnType != "refund" && InTimeRange(t.created) ==> CreateEntryFromTransaction(t, e1, s1).Ok?
  {
  }

  /** Every draft starts its description with `<id> - `, so the entry stored
      from it links back to the transaction when the id is key-safe, and it
      carries the UTC day of `created` as its date. */
  predicate LinksBack(t: Transaction, d: Draft)
  {
    && |d.description| >= |t.id| + 3 && d.description[..|t.id| + 3] == t.id + Separator
    && (LinkKey(d.description) == t.id <==> KeySafe(t.id))
    && InTimeRange(t.created) && d.date == DateOfCreated(t.created)
  }

  lemma DraftLinksToTransaction(t: Transaction, entries: seq<Entry>, stripe: StripeLookups)
    requires CreateEntryFromTransaction(t, entries, stripe).Ok?
    requires CreateEntryFromTransaction(t, entries, stripe).value.Some?
    ensures LinksBack(t, CreateEntryFromTransaction(t, entries, stripe).value.value)
  {
    if t.txnType == "payment" || t.txnType == "charge" {
      PaymentDraftLinks(t);
    } else if t.txnType == "stripe_fee" {
      FeeDraftLinks(t);
    } else {
      RefundDraftLinks(t, entries, stripe);
    }
  }

  lemma PaymentDraftLinks(t: Transaction)
    requires CreatePaymentEntry(t).Ok?
    ensures LinksBack(t, CreatePaymentEntry(t).value)
  {
    DescriptionLinks(t.id, "Stripe Transaction", CreatePaymentEntry(t).value.description);
  }

  lemma FeeDraftLinks(t: Transaction)
    requires CreateStripeFeeEntry(t).Ok?
    ensures LinksBack(t, CreateStripeFeeEntry(t).value)
  {
    DescriptionLinks(t.id, DescriptionText(t.description), CreateStripeFeeEntry(t).value.description);
  }

  lemma RefundDraftLinks(t: Transaction, entries: seq<Entry>, stripe: StripeLookups)
    requires CreateRefundEntry(t, entries, stripe).Ok?
    ensures LinksBack(t, CreateRefundEntry(t, entries, stripe).value)
  {
    var resolved := ResolveOriginal(t, entries, stripe).value;
    var d := RefundDraft(t, resolved.0, resolved.1, DateOfCreated(t.created));
    assert CreateRefundEntry(t, entries, stripe).value == d;
    assert d.description == t.id + Separator + (DescriptionText(t.description) + " " + resolved.0);
    DescriptionLinks(t.id, DescriptionText(t.description) + " " + resolved.0, d.description);
  }

  /** A description built as `<id> - <rest>` starts with `<id> - ` and links
      back to `id` exactly when `id` is key-safe. */
  lemma DescriptionLinks(id: string, rest: string, description: string)
    requires description == id + Separator + rest
    ensures |description| >= |id| + 3 && description[..|id| + 3] == id + Separator
    ensures LinkKey(description) == id <==> KeySafe(id)
  {
    assert description[..|id| + 3] == id + Separator;
    LinkKeyOfDescription(id, rest);
  }

  /** A refund whose sale resolves to a balance transaction with no listed
      entry fails with "No original entry found", whatever else is listed. */
  lemma RefundOfUnlistedOriginalFails(t: Transaction, entries: seq<Entry>, stripe: StripeLookups, originalId: string)
    requires t.txnType == "refund" && UsableId(t.source)
    requires t.source.id in stripe.refundCharge
    requires UsableId(stripe.refundCharge[t.source.id])
    requires stripe.refundCharge[t.source.id].id in stripe.chargeBalanceTransaction
    requires stripe.chargeBalanceTransaction[stripe.refundCharge[t.source.id].id] == Id(originalId)
    requires FindExistingEntry(originalId, entries).None?
    ensures CreateEntryFromTransaction(t, entries, stripe) == Err(OriginalEntryNotFound(t.id))
  {
    assert ResolveOriginal(t, entries, stripe) == Err(OriginalEntryNotFound(t.id));
  }

  // ----------------------------------------------------- test fixtures

  /** The three balance transactions of the test fixtures, with their
      creation time left as a parameter. */
  function FixturePayment(created: int): Transaction
  {
    Transaction("txn_1234567890", "payment", 3480, Some("Payment from customer"), created,
      Id("ch_1234567890"), [FeeDetail(290, "stripe_fee")])
  }

  function FixtureFee(created: int): Transaction
  {
    Transaction("txn_0987654321", "stripe_fee", -290, Some("Stripe fee"), created, Id("ch_1234567890"), [])
  }

  function FixtureRefund(created: int): Transaction
  {
    Transaction("txn_refund_123", "refund", -3480, Some("Refund to customer"), created, Id("re_1234567890"), [])
  }

  /** Stripe's answers in the fixtures: the refund belongs to the charge,
      the charge to the payment's balance transaction. */
  function FixtureStripe(): StripeLookups
  {
    StripeLookups(map["re_1234567890" := Id("ch_1234567890")], map["ch_1234567890" := Id("txn_1234567890")])
  }

  /** The two NOCFO entries of the fixtures, listed without a
      `blueprint_type`. */
  function FixtureEntries(): seq<Entry>
  {
    [ Entry("nocfo_entry_1", None,
        Blueprint(None, None, Some([Line(SalesAccount, 1, 25.5, 34.8)]), None, Some([Line(FeeAccount, 3, 0.0, 2.9)])),
        "2022-01-01", "txn_1234567890" + Separator + "Stripe Transaction"),
      Entry("nocfo_entry_2", None,
        Blueprint(None, None, Some([]), Some([Line(FeeAccount, 3, 0.0, 2.9)]), None),
        "2022-01-01", "txn_0987654321" + Separator + "Stripe fee") ]
  }

  /** The payment fixture: 34.80 EUR of revenue at VAT 25.5 % and a 2.90 EUR
      Stripe fee. */
  lemma FixturePaymentDraft(created: int)
    requires 1_640_995_200 <= created < 1_640_995_200 + 86400
    ensures CreatePaymentEntry(FixturePayment(created)) == Ok(Draft(
      Sales,
      Blueprint(Some(ClearingAccount), None, Some([Line(SalesAccount, 1, 25.5, 34.8)]), None,
        Some([Line(FeeAccount, 3, 0.0, 2.9)])),
      "2022-01-01",
      "txn_1234567890" + Separator + "Stripe Transaction"))
  {
    NewYear2022(created);
    assert FeeLines([FeeDetail(290, "stripe_fee")]) == [Line(FeeAccount, 3, 0.0, 2.9)];
  }

  /** The fee fixture: -2.90 EUR booked as a 2.90 EUR purchase. */
  lemma FixtureFeeDraft(created: int)
    requires 1_640_995_200 <= created < 1_640_995_200 + 86400
    ensures CreateStripeFeeEntry(FixtureFee(created)) == Ok(Draft(
      Purchase,
      Blueprint(None, Some(ClearingAccount), None, Some([Line(FeeAccount, 3, 0.0, 2.9)]), None),
      "2022-01-01",
      "txn_0987654321" + Separator + "Stripe fee"))
  {
    var t := FixtureFee(created);
    NewYear2022(created);
    assert InTimeRange(created);
    assert Amount(-t.amount) == 2.9;
    assert DescriptionText(t.description) == "Stripe fee";
  }

  /** The VAT in 34.80 EUR at 25.5 % is 7.07 EUR (7.0709... before
      rounding). */
  lemma FixtureRefundVat()
    ensures BackedOutVat(34.8, 25.5) == 7.07
  {
    Round2Unique(34.8 / (0.255 + 1.0) * 0.255, 7.07);
  }

  /** The refund fixture: 34.80 EUR back from the clearing account, split
      into 27.73 EUR of revenue, 7.07 EUR of VAT and nothing left over. */
  lemma FixtureRefundDraft(created: int)
    requires InTimeRange(created)
    ensures CreateRefundEntry(FixtureRefund(created), FixtureEntries(), FixtureStripe()) == Ok(Draft(
      Manual,
      Blueprint(None, None,
        Some([Line(ClearingAccount, 3, 0.0, 34.8)]),
        Some([Line(SalesAccount, 1, 0.0, 27.73), Line(VatAccount, 3, 0.0, 7.07), Line(ResidualAccount, 3, 0.0, 0.0)]),
        None),
      DateOfCreated(created),
      "txn_refund_123" + Separator + ("Refund to customer" + " " + "txn_1234567890")))
  {
    FixtureRefundResolves(created);
    FixtureRefundVat();
    var sale := Line(SalesAccount, 1, 25.5, 34.8);
    assert CreateRefundEntry(FixtureRefund(created), FixtureEntries(), FixtureStripe())
      == Ok(RefundDraft(FixtureRefund(created), "txn_1234567890", sale, DateOfCreated(created)));
  }

  /** The refund fixture leads, through its charge, to the payment's entry
      and to that entry's revenue line. */
  lemma FixtureRefundResolves(created: int)
    ensures ResolveOriginal(FixtureRefund(created), FixtureEntries(), FixtureStripe())
      == Ok(("txn_1234567890", Line(SalesAccount, 1, 25.5, 34.8)))
  {
    FixturePaymentListed();
  }

  /** The payment's entry is the first fixture entry. */
  lemma FixturePaymentListed()
    ensures FindExistingEntry("txn_1234567890", FixtureEntries()) == Some(FixtureEntries()[0])
  {
    FixtureEntryKeys();
    FindExistingEntryFirst("txn_1234567890", FixtureEntries(), 0);
  }

  /** The linking keys of the two fixture entries are the payment's and the
      fee's balance transaction ids. */
  lemma FixtureEntryKeys()
    ensures LinkKey(FixtureEntries()[0].description) == "txn_1234567890"
    ensures LinkKey(FixtureEntries()[1].description) == "txn_0987654321"
  {
    PaymentIdIsKeySafe();
    FeeIdIsKeySafe();
    LinkKeyOfDescription("txn_1234567890", "Stripe Transaction");
    LinkKeyOfDescription("txn_0987654321", "Stripe fee");
  }

  lemma PaymentIdIsKeySafe()
    ensures KeySafe("txn_1234567890")
  {
    SpaceFreeIdIsKeySafe("txn_1234567890");
  }

  lemma FeeIdIsKeySafe()
    ensures KeySafe("txn_0987654321")
  {
    SpaceFreeIdIsKeySafe("txn_0987654321");
  }

  /** No fixture entry links to the refund. */
  lemma FixtureRefundUnlisted()
    ensures FindExistingEntry("txn_refund_123", FixtureEntries()) == None
  {
    var entries := FixtureEntries();
    FixtureEntryKeys();
    assert !Links(entries[0], "txn_refund_123") by {
      assert "txn_1234567890"[4] != "txn_refund_123"[4];
    }
    assert !Links(entries[1], "txn_refund_123") by {
      assert "txn_0987654321"[4] != "txn_refund_123"[4];
    }
    assert forall i :: 0 <= i < |entries| ==> !Links(entries[i], "txn_refund_123");
  }
}
