/**
 * The dashboard's expense chart: on a non-empty list, the debits grouped by category into
 * `categoryMap` one by one, its keys and values as labels and data, and as many colours as
 * there are categories taken from the front of two fixed palettes.
 */
module CategoryChart {

  import opened Sorting
  import opened Grouping
  import opened TransactionModel
  import opened TransactionContext
  import opened Helpers

  /** A CSS colour `rgba(red, green, blue, alpha)`. */
  datatype Rgba = Rgba(red: nat, green: nat, blue: nat, alpha: real)

  /** The six fill colours, 70% opaque. */
  const BackgroundColors: seq<Rgba> := [
    Rgba(255, 99, 132, 0.7), Rgba(54, 162, 235, 0.7), Rgba(255, 206, 86, 0.7),
    Rgba(75, 192, 192, 0.7), Rgba(153, 102, 255, 0.7), Rgba(255, 159, 64, 0.7)
  ]

  /** The same six colours, opaque, for the borders. */
  const BorderColors: seq<Rgba> := [
    Rgba(255, 99, 132, 1.0), Rgba(54, 162, 235, 1.0), Rgba(255, 206, 86, 1.0),
    Rgba(75, 192, 192, 1.0), Rgba(153, 102, 255, 1.0), Rgba(255, 159, 64, 1.0)
  ]

  /** `chartData`, the component's state. */
  class ChartState {
    var labels: seq<string>
    var data: seq<real>
    var backgroundColor: seq<Rgba>
    var borderColor: seq<Rgba>

    /** The empty chart the component starts with. */
    constructor()
      ensures labels == [] && data == [] && backgroundColor == [] && borderColor == []
    {
      labels, data, backgroundColor, borderColor := [], [], [], [];
    }

    /**
     * The effect run on a new list. An empty list leaves the chart as it was. Otherwise the
     * labels are the debit categories in the order first met, each data value the sum of the
     * debits in its category, and the colours the first `min(n, 6)` of each palette.
     */
    method Update(ts: seq<Transaction>)
      modifies this
      ensures ts == [] ==>
        labels == old(labels) && data == old(data) &&
        backgroundColor == old(backgroundColor) && borderColor == old(borderColor)
      ensures ts != [] ==>
        && labels == CategoryTotals(ts, Debit).keys
        && data == Values(CategoryTotals(ts, Debit))
        && backgroundColor == Take(BackgroundColors, |labels|)
        && borderColor == Take(BorderColors, |labels|)
    {
      if |ts| == 0 {
        return;
      }
      var expenses := Filter(ts, OfType(Debit));
      var keys, totals := Tally(expenses);
      assert Groups(keys, totals) == CategoryTotals(ts, Debit);
      labels := keys;
      data := Values(Groups(keys, totals));
      backgroundColor := Take(BackgroundColors, |keys|);
      borderColor := Take(BorderColors, |keys|);
    }
  }

  /** `Object.values(categoryMap)`: the total of each key, in the order of the keys. */
  function Values(g: Groups<string>): (d: seq<real>)
    requires WellFormed(g)
    ensures |d| == |g.keys|
    ensures forall i :: 0 <= i < |d| ==> d[i] == g.totals[g.keys[i]]
  {
    seq(|g.keys|, k requires 0 <= k < |g.keys| => g.totals[g.keys[k]])
  }

  /**
   * The `forEach` over the expenses: `categoryMap`'s keys in the order they were created and
   * its values, which is the grouping of the (category, amount) pairs.
   */
  method Tally(expenses: seq<Transaction>) returns (keys: seq<string>, totals: map<string, real>)
    ensures Groups(keys, totals) == GroupSum(Items(expenses))
  {
    keys, totals := [], map[];
    var i := 0;
    while i < |expenses|
      invariant 0 <= i <= |expenses|
      invariant Groups(keys, totals) == GroupSum(Items(expenses[..i]))
    {
      var expense := expenses[i];
      ghost var next := Add(Groups(keys, totals), expense.category, expense.amount);
      assert next == GroupSum(Items(expenses[..i + 1])) by {
        ItemsSnoc(expenses, i);
        GroupSumStep(Items(expenses[..i]), expense.category, expense.amount);
      }
      keys, totals := Count(keys, totals, expense.category, expense.amount);
      i := i + 1;
    }
    assert expenses[..i] == expenses;
  }

  /**
   * One pass of the `forEach`: `categoryMap[c] = 0` for a category not met before (which
   * creates its key at the end), then `categoryMap[c] += amount`.
   */
  method Count(keys: seq<string>, totals: map<string, real>, c: string, a: real)
    returns (keys': seq<string>, totals': map<string, real>)
    requires WellFormed(Groups(keys, totals))
    ensures Groups(keys', totals') == Add(Groups(keys, totals), c, a)
  {
    keys', totals' := keys, totals;
    if c !in totals' {
      keys' := keys' + [c];
      totals' := totals'[c := 0.0];
    }
    totals' := totals'[c := totals'[c] + a];
  }

  /**
   * What the chart shows for a category: it is a label exactly when some debit has that
   * category, and its value is the sum of the debits in that category.
   */
  lemma ChartedIsSpent(ts: seq<Transaction>, c: string)
    ensures c in CategoryTotals(ts, Debit).keys <==>
      exists i :: 0 <= i < |ts| && ts[i].txType == Debit && ts[i].category == c
    ensures c in CategoryTotals(ts, Debit).keys ==>
      CategoryTotals(ts, Debit).totals[c] == TypeCategorySum(ts, Debit, c)
  {
    CategoryTotalsMeaning(ts, Debit, c);
  }
}
