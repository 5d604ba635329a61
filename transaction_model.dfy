/**
 * The Transaction schema: a credit or a debit of a non-negative amount in a named category,
 * with an optional description and the instant it was recorded.
 */
module TransactionModel {

  import opened Wrappers
  import Dates

  datatype TxType = Credit | Debit

  /** The stored spelling of a type: the schema's enum values. */
  function TypeName(t: TxType): (s: string)
    ensures s == "credit" || s == "debit"
  {
    match t
    case Credit => "credit"
    case Debit => "debit"
  }

  /** The schema's enum check: exactly "credit" and "debit" are types, nothing else is. */
  function ParseType(s: string): (r: Option<TxType>)
    ensures r.Some? <==> s == "credit" || s == "debit"
    ensures r.Some? ==> TypeName(r.value) == s
  {
    if s == "credit" then Some(Credit)
    else if s == "debit" then Some(Debit)
    else None
  }

  /** Reading back the stored spelling of a type gives that type. */
  lemma ParseTypeName(t: TxType)
    ensures ParseType(TypeName(t)) == Some(t)
  {
  }

  datatype Transaction = Transaction(
    id: nat,
    txType: TxType,
    amount: real,
    category: string,
    description: Option<string>,
    timestamp: Dates.Timestamp)

  /**
   * What the schema demands of a stored transaction: a type (by construction), an amount of at
   * least 0, a non-empty category (an empty string fails `required`), an instant that exists.
   * The description is optional.
   */
  predicate Valid(t: Transaction) {
    && t.amount >= 0.0
    && t.category != []
    && Dates.Valid(t.timestamp)
  }
}
