/**
 * The Budget schema: an amount planned for a category over a month or a whole year, and the
 * unique index that allows one budget per category, period, year and month.
 */
module BudgetModel {

  import opened Wrappers
  import Dates

  datatype Period = Monthly | Yearly

  /** The stored spelling of a period: the schema's enum values. */
  function PeriodName(p: Period): (s: string)
    ensures s == "monthly" || s == "yearly"
  {
    match p
    case Monthly => "monthly"
    case Yearly => "yearly"
  }

  /** The schema's enum check on a given period. */
  function ParsePeriod(s: string): (r: Option<Period>)
    ensures r.Some? <==> s == "monthly" || s == "yearly"
    ensures r.Some? ==> PeriodName(r.value) == s
  {
    if s == "monthly" then Some(Monthly)
    else if s == "yearly" then Some(Yearly)
    else None
  }

  /** The period the schema stores for a field that may be left out: absent means monthly. */
  function SchemaPeriod(field: Option<string>): (r: Option<Period>)
    ensures field.None? ==> r == Some(Monthly)
    ensures field.Some? ==> r == ParsePeriod(field.value)
  {
    match field
    case None => Some(Monthly)
    case Some(s) => ParsePeriod(s)
  }

  lemma ParsePeriodName(p: Period)
    ensures ParsePeriod(PeriodName(p)) == Some(p)
  {
  }

  /** Year and month are JavaScript numbers, so they are kept as reals. */
  datatype Budget = Budget(
    id: nat,
    category: string,
    amount: real,
    period: Period,
    year: real,
    month: Option<real>,
    createdAt: Dates.Timestamp)

  /**
   * The validators that look at one field each: a category, an amount of at least 0, a month
   * (when there is one) in 1..12, and a creation instant that exists.
   */
  predicate FieldsValid(b: Budget) {
    && b.category != []
    && b.amount >= 0.0
    && (b.month.Some? ==> 1.0 <= b.month.value <= 12.0)
    && Dates.Valid(b.createdAt)
  }

  /** What saving a document checks: the field validators, and a month for a monthly budget. */
  predicate Valid(b: Budget) {
    FieldsValid(b) && (b.period == Monthly ==> b.month.Some?)
  }

  /** The fields of the unique index; a budget without a month is indexed under `null`. */
  datatype Key = Key(category: string, period: Period, year: real, month: Option<real>)

  function KeyOf(b: Budget): Key {
    Key(b.category, b.period, b.year, b.month)
  }

  /** Some budget other than `except` already uses `key`. */
  predicate KeyTaken(docs: map<nat, Budget>, key: Key, except: Option<nat>) {
    exists id :: id in docs && Some(id) != except && KeyOf(docs[id]) == key
  }

  /** The unique index holds: no two budgets share a key. */
  ghost predicate UniqueKeys(docs: map<nat, Budget>) {
    forall i, j :: i in docs && j in docs && i != j ==> KeyOf(docs[i]) != KeyOf(docs[j])
  }

  /** A budget whose key no other budget uses can be filed under `id` without breaking the index. */
  lemma StoreKeepsUnique(docs: map<nat, Budget>, id: nat, b: Budget)
    requires UniqueKeys(docs) && !KeyTaken(docs, KeyOf(b), Some(id))
    ensures UniqueKeys(docs[id := b])
  {
  }
}
