/**
 * The transaction table: the type and category filter applied to the list, and the signed
 * amount each row shows.
 */
module TransactionList {

  import opened Wrappers
  import opened Numbers
  import opened Sorting
  import opened TransactionModel

  /** `filter`: a type and a category, either of which may be "" for "all". */
  datatype ListFilter = ListFilter(txType: string, category: string)

  /** The predicate of `filteredTransactions`. */
  function Passes(f: ListFilter): Transaction -> bool {
    (t: Transaction) =>
      && (f.txType == [] || TypeName(t.txType) == f.txType)
      && (f.category == [] || t.category == f.category)
  }

  /** `filteredTransactions`. */
  function Visible(ts: seq<Transaction>, f: ListFilter): seq<Transaction> {
    Filter(ts, Passes(f))
  }

  /**
   * A transaction is shown exactly when it is in the list, has the filter's type unless that is
   * empty, and has the filter's category unless that is empty.
   */
  lemma VisibleIff(ts: seq<Transaction>, f: ListFilter, t: Transaction)
    ensures t in Visible(ts, f) <==>
      && t in ts
      && (f.txType != [] ==> TypeName(t.txType) == f.txType)
      && (f.category != [] ==> t.category == f.category)
  {
  }

  /** The rows shown keep the order of the list: they sit in it at increasing positions. */
  lemma VisibleInOrder(ts: seq<Transaction>, f: ListFilter) returns (at: seq<nat>)
    ensures |at| == |Visible(ts, f)|
    ensures forall i :: 0 <= i < |at| ==> at[i] < |ts| && ts[at[i]] == Visible(ts, f)[i]
    ensures forall i, j :: 0 <= i < j < |at| ==> at[i] < at[j]
  {
    at := FilterIsSubsequence(ts, Passes(f));
  }

  /** With neither a type nor a category chosen, the whole list is shown. */
  lemma NoFilterShowsAll(ts: seq<Transaction>)
    ensures Visible(ts, ListFilter([], [])) == ts
  {
    FilterAll(ts, Passes(ListFilter([], [])));
  }

  /** `{type === 'credit' ? '+' : '-'}{amount.toFixed(2)}`. */
  function AmountLabel(t: Transaction): string {
    Sign(t.txType) + Fixed2(t.amount)
  }

  function Sign(ty: TxType): (r: string)
    ensures |r| == 1 && (r[0] == '+' <==> ty == Credit) && (r[0] == '-' <==> ty == Debit)
  {
    match ty
    case Credit => "+"
    case Debit => "-"
  }

  /**
   * The label starts with '+' exactly for a credit, and the rest of it (for a stored,
   * non-negative amount) reads back as the amount rounded to cents.
   */
  lemma AmountLabelMeaning(t: Transaction)
    requires t.amount >= 0.0
    ensures var s := AmountLabel(t);
      && |s| >= 1
      && (s[0] == '+' <==> t.txType == Credit)
      && (s[0] == '-' <==> t.txType == Debit)
      && ParseNumber(s[1..]) == Some(Hundredths(t.amount))
  {
    var f := Fixed2(t.amount);
    var s := AmountLabel(t);
    assert s == Sign(t.txType) + f;
    assert s[0] == Sign(t.txType)[0];
    assert s[1..] == f;
    Fixed2Parses(t.amount);
  }
}
