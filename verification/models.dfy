/**
 * The records of `api/app/models/responses.py` that the statement pipeline
 * produces: transactions and the four totals.
 */
module Models {
  import opened Options

  /** The `type` field: `"credit"` or `"debit"`. */
  datatype TxType = Credit | Debit

  /** A `Transaction`; the extractors never set `currency` or `source_account`. */
  datatype Transaction = Transaction(
    date: string,
    description: string,
    amount: real,
    kind: TxType,
    balance: Option<real>,
    currency: Option<string>,
    sourceAccount: Option<string>)

  /** `Totals`: inflow, outflow, net and flow volume, each rounded to cents. */
  datatype Totals = Totals(inflow: real, outflow: real, net: real, flowVolume: real)

  /** The type both extractors give an amount: credit exactly when it is positive. */
  function TypeOf(amount: real): (k: TxType)
    ensures k == Credit <==> amount > 0.0
  {
    if amount > 0.0 then Credit else Debit
  }

  /** The row dictionary an extractor appends, as `Transaction(**row)` reads it. */
  function MakeRow(date: string, description: string, amount: real, balance: Option<real>): (t: Transaction)
    ensures t.kind == Credit <==> amount > 0.0
    ensures t.amount == amount && t.balance == balance
    ensures t.date == date && t.description == description
    ensures t.currency.None? && t.sourceAccount.None?
  {
    Transaction(date, description, amount, TypeOf(amount), balance, None, None)
  }

  /** What every extracted row satisfies: typed by the sign of its amount, no currency, no account. */
  predicate IsExtractedRow(t: Transaction)
  {
    (t.kind == Credit <==> t.amount > 0.0) && t.currency.None? && t.sourceAccount.None?
  }

  lemma MadeRowsAreExtracted(date: string, description: string, amount: real, balance: Option<real>)
    ensures IsExtractedRow(MakeRow(date, description, amount, balance))
  {
  }

  predicate HasNoBalance(t: Transaction) { t.balance.None? }
}
