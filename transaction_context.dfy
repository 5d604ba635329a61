/**
 * The client's transaction state: the list as last fetched, the monthly summary, loading and
 * error flags, and the credit, debit and balance totals that every change of the list
 * recomputes from the new list.
 */
module TransactionContext {

  import opened Wrappers
  import opened Sorting
  import opened TransactionModel
  import MonthlySummary

  /** `t => t.type === type`. */
  function OfType(ty: TxType): Transaction -> bool {
    (t: Transaction) => t.txType == ty
  }

  /** `reduce((acc, t) => acc + t.amount, 0)`, left to right. */
  function SumAmounts(ts: seq<Transaction>): real
    decreases |ts|
  {
    if ts == [] then 0.0 else SumAmounts(ts[..|ts| - 1]) + ts[|ts| - 1].amount
  }

  /** `calculateTotal(transactions, type)`. */
  function CalculateTotal(ts: seq<Transaction>, ty: TxType): real {
    SumAmounts(Filter(ts, OfType(ty)))
  }

  lemma {:induction false} SumAmountsConcat(a: seq<Transaction>, b: seq<Transaction>)
    ensures SumAmounts(a + b) == SumAmounts(a) + SumAmounts(b)
    decreases |b|
  {
    if b != [] {
      assert (a + b)[..|a + b| - 1] == a + b[..|b| - 1];
      SumAmountsConcat(a, b[..|b| - 1]);
    } else {
      assert a + b == a;
    }
  }

  /** Appending a transaction adds its amount to the total of its own type and nothing to the other. */
  lemma CalculateTotalAppend(ts: seq<Transaction>, t: Transaction, ty: TxType)
    ensures CalculateTotal(ts + [t], ty) == CalculateTotal(ts, ty) + (if t.txType == ty then t.amount else 0.0)
  {
    FilterConcat(ts, [t], OfType(ty));
    assert Filter([t], OfType(ty)) == if t.txType == ty then [t] else [];
    SumAmountsConcat(Filter(ts, OfType(ty)), Filter([t], OfType(ty)));
  }

  /** Every transaction is a credit or a debit, so the two totals add up to the sum of all amounts. */
  lemma {:induction false} TotalsCoverAll(ts: seq<Transaction>)
    ensures CalculateTotal(ts, Credit) + CalculateTotal(ts, Debit) == SumAmounts(ts)
    decreases |ts|
  {
    if ts != [] {
      var front := ts[..|ts| - 1];
      assert ts == front + [ts[|ts| - 1]];
      TotalsCoverAll(front);
      CalculateTotalAppend(front, ts[|ts| - 1], Credit);
      CalculateTotalAppend(front, ts[|ts| - 1], Debit);
    }
  }

  /** Totals of stored transactions are never negative. */
  lemma {:induction false} CalculateTotalNonNegative(ts: seq<Transaction>, ty: TxType)
    requires forall i :: 0 <= i < |ts| ==> ts[i].amount >= 0.0
    ensures CalculateTotal(ts, ty) >= 0.0
    decreases |ts|
  {
    if ts != [] {
      var front := ts[..|ts| - 1];
      assert ts == front + [ts[|ts| - 1]];
      CalculateTotalNonNegative(front, ty);
      CalculateTotalAppend(front, ts[|ts| - 1], ty);
    }
  }

  datatype State = State(
    transactions: seq<Transaction>,
    monthlySummary: seq<MonthlySummary.Entry>,
    loading: bool,
    error: Option<string>,
    totalCredit: real,
    totalDebit: real,
    balance: real,
    categories: seq<string>)

  datatype Action =
    | FetchStart
    | FetchSuccess(list: seq<Transaction>)
    | FetchMonthlySummarySuccess(summary: seq<MonthlySummary.Entry>)
    | FetchError(message: string)
    | AddTransaction(added: Transaction)
    | UpdateTransaction(updated: Transaction)
    | DeleteTransaction(id: nat)
    | Unknown(name: string)

  /** The totals agree with the list, and the balance is credits minus debits. */
  predicate Consistent(s: State) {
    && s.totalCredit == CalculateTotal(s.transactions, Credit)
    && s.totalDebit == CalculateTotal(s.transactions, Debit)
    && s.balance == s.totalCredit - s.totalDebit
  }

  /** `initialState`. */
  const Initial: State := State([], [], false, None, 0.0, 0.0, 0.0,
                                ["Food", "Travel", "Billing", "Shopping", "Entertainment", "Others"])

  lemma InitialConsistent()
    ensures Consistent(Initial)
  {
    assert Filter(Initial.transactions, OfType(Credit)) == [];
    assert Filter(Initial.transactions, OfType(Debit)) == [];
  }

  /** The list replaced and the three totals recomputed from it. */
  function WithList(s: State, ts: seq<Transaction>): (r: State)
    ensures Consistent(r) && r.transactions == ts
    ensures r.monthlySummary == s.monthlySummary && r.loading == s.loading && r.error == s.error
    ensures r.categories == s.categories
  {
    s.(transactions := ts,
       totalCredit := CalculateTotal(ts, Credit),
       totalDebit := CalculateTotal(ts, Debit),
       balance := CalculateTotal(ts, Credit) - CalculateTotal(ts, Debit))
  }

  /** `t => t._id !== id`. */
  function NotId(id: nat): Transaction -> bool {
    (t: Transaction) => t.id != id
  }

  /** `t._id === payload._id ? payload : t`, element by element. */
  function Replace(ts: seq<Transaction>, u: Transaction): (r: seq<Transaction>)
    ensures |r| == |ts|
    ensures forall i :: 0 <= i < |ts| ==> r[i] == if ts[i].id == u.id then u else ts[i]
  {
    seq(|ts|, i requires 0 <= i < |ts| => if ts[i].id == u.id then u else ts[i])
  }

  /** `transactionReducer`. */
  function Reduce(s: State, a: Action): (r: State)
    ensures a.FetchStart? ==> r == s.(loading := true, error := None)
    ensures a.FetchMonthlySummarySuccess? ==> r == s.(monthlySummary := a.summary)
    ensures a.FetchError? ==> r == s.(loading := false, error := Some(a.message))
    ensures a.Unknown? ==> r == s
    ensures a.FetchSuccess? || a.AddTransaction? || a.UpdateTransaction? || a.DeleteTransaction? ==>
      && Consistent(r)
      && r.monthlySummary == s.monthlySummary && r.error == s.error && r.categories == s.categories
      && r.loading == (s.loading && !a.FetchSuccess?)
    ensures a.FetchSuccess? ==> r.transactions == a.list
    ensures a.AddTransaction? ==>
      |r.transactions| == |s.transactions| + 1 && r.transactions[..|s.transactions|] == s.transactions
      && r.transactions[|s.transactions|] == a.added
    ensures a.UpdateTransaction? ==> r.transactions == Replace(s.transactions, a.updated)
    ensures a.DeleteTransaction? ==>
      forall t :: multiset(r.transactions)[t] == if t.id != a.id then multiset(s.transactions)[t] else 0
  {
    match a
    case FetchStart => s.(loading := true, error := None)
    case FetchSuccess(list) => WithList(s, list).(loading := false)
    case FetchMonthlySummarySuccess(summary) => s.(monthlySummary := summary)
    case FetchError(message) => s.(loading := false, error := Some(message))
    case AddTransaction(t) => WithList(s, s.transactions + [t])
    case UpdateTransaction(u) => WithList(s, Replace(s.transactions, u))
    case DeleteTransaction(id) =>
      FilterCount(s.transactions, NotId(id));
      WithList(s, Filter(s.transactions, NotId(id)))
    case Unknown(_) => s
  }

  /** Adding a credit raises the balance by its amount; adding a debit lowers it by its amount. */
  lemma AddMovesBalance(s: State, t: Transaction)
    requires Consistent(s)
    ensures var r := Reduce(s, AddTransaction(t));
      && r.balance == (if t.txType == Credit then s.balance + t.amount else s.balance - t.amount)
      && r.totalCredit == s.totalCredit + (if t.txType == Credit then t.amount else 0.0)
      && r.totalDebit == s.totalDebit + (if t.txType == Debit then t.amount else 0.0)
  {
    assert Reduce(s, AddTransaction(t)) == WithList(s, s.transactions + [t]);
    CalculateTotalAppend(s.transactions, t, Credit);
    CalculateTotalAppend(s.transactions, t, Debit);
  }

  /**
   * Deleting keeps every other transaction, in its order: the new list sits at increasing
   * positions of the old one, and those are all the positions of a transaction with another id.
   */
  lemma DeleteKeepsOrder(s: State, id: nat) returns (at: seq<nat>)
    ensures var r := Reduce(s, DeleteTransaction(id)).transactions;
      && |at| == |r|
      && (forall i :: 0 <= i < |at| ==> at[i] < |s.transactions| && s.transactions[at[i]] == r[i])
      && (forall i, j :: 0 <= i < j < |at| ==> at[i] < at[j])
      && (forall k :: 0 <= k < |s.transactions| && s.transactions[k].id != id ==> k in at)
  {
    at := FilterIsSubsequence(s.transactions, NotId(id));
  }

  /** Deleting an id no transaction has changes neither the list nor the totals. */
  lemma DeleteAbsent(s: State, id: nat)
    requires Consistent(s)
    requires forall i :: 0 <= i < |s.transactions| ==> s.transactions[i].id != id
    ensures Reduce(s, DeleteTransaction(id)) == s
  {
    FilterAll(s.transactions, NotId(id));
  }

  /** The state after a sequence of actions. */
  function Run(s: State, actions: seq<Action>): State
    decreases |actions|
  {
    if actions == [] then s else Run(Reduce(s, actions[0]), actions[1..])
  }

  /** From the initial state, the totals agree with the list after any sequence of actions. */
  lemma {:induction false} RunKeepsConsistent(s: State, actions: seq<Action>)
    requires Consistent(s)
    ensures Consistent(Run(s, actions))
    decreases |actions|
  {
    if actions != [] {
      RunKeepsConsistent(Reduce(s, actions[0]), actions[1..]);
    }
  }
}
