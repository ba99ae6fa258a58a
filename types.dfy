/** The records exchanged between Stripe, the mapper and NOCFO
    (src/types/nocfo.ts, src/types/results.ts and the fields of
    Stripe's BalanceTransaction that the mapper reads). */
module Types {
  import opened Wrappers

  // ---------------------------------------------------------------- Stripe

  /** A reference field of a Stripe object: absent (`null`), an id string, or
      an expanded object (anything that is not a string). */
  datatype Ref = Absent | Id(id: string) | Expanded

  /** One item of `fee_details`. */
  datatype FeeDetail = FeeDetail(amount: int, feeType: string)

  /** The part of a Stripe balance transaction the mapper reads. `amount` is
      in minor currency units, `created` in Unix seconds, `description` is
      `null` when absent. */
  datatype Transaction = Transaction(
    id: string,
    txnType: string,
    amount: int,
    description: Option<string>,
    created: int,
    source: Ref,
    feeDetails: seq<FeeDetail>)

  // ----------------------------------------------------------------- NOCFO

  /** One debit, credit or expense line: account, VAT code, VAT rate in
      percent, and an amount in currency units. */
  datatype Line = Line(accountId: int, vatCode: int, vatRate: real, amount: real)

  datatype BlueprintType = Sales | Purchase | Manual

  /** The `blueprint` object; `None` stands for a key that is not present. */
  datatype Blueprint = Blueprint(
    debetAccountId: Option<int>,
    creditAccountId: Option<int>,
    creditEntries: Option<seq<Line>>,
    debetEntries: Option<seq<Line>>,
    expenseEntries: Option<seq<Line>>)

  /** NocfoEntryInput: the document the mapper produces and create/update send.
      `contact_id` is always `null` and `attachment_ids` always empty, so they
      are not carried. */
  datatype Draft = Draft(
    blueprintType: BlueprintType,
    blueprint: Blueprint,
    date: string,
    description: string)

  /** NocfoEntry: a document as NOCFO lists it, with its own `id`.
      `blueprintType` is `None` when the listing does not carry it. */
  datatype Entry = Entry(
    id: string,
    blueprintType: Option<BlueprintType>,
    blueprint: Blueprint,
    date: string,
    description: string)

  /** The document NOCFO holds under `id` once `d` has been created there. */
  function Stored(id: string, d: Draft): Entry
  {
    Entry(id, Some(d.blueprintType), d.blueprint, d.date, d.description)
  }

  // --------------------------------------------------------------- results

  /** ResultsSummary of one reconciliation run. */
  datatype ResultsSummary = ResultsSummary(
    totalStripeTransactions: nat,
    created: nat,
    updated: nat,
    skipped: nat,
    skippedReasons: seq<string>,
    errors: nat,
    errorReasons: seq<string>)
}
