/**
 * `getCategoryTotals`, which adds up the amounts of one type by category into a fresh object,
 * and `memoize`, which caches a function's results under the serialised arguments.
 */
module Helpers {

  import opened Sorting
  import opened Grouping
  import opened TransactionModel
  import opened TransactionContext

  /** The (category, amount) pairs of a list, in its order. */
  function Items(ts: seq<Transaction>): (items: seq<(string, real)>)
    ensures |items| == |ts|
    ensures forall i :: 0 <= i < |ts| ==> items[i] == (ts[i].category, ts[i].amount)
  {
    seq(|ts|, i requires 0 <= i < |ts| => (ts[i].category, ts[i].amount))
  }

  /** The totals by category of the transactions of type `ty`, categories in the order first met. */
  function CategoryTotals(ts: seq<Transaction>, ty: TxType): Groups<string> {
    GroupSum(Items(Filter(ts, OfType(ty))))
  }

  /** The sum of the amounts of the transactions of type `ty` in category `c`. */
  function TypeCategorySum(ts: seq<Transaction>, ty: TxType, c: string): real
    decreases |ts|
  {
    if ts == [] then 0.0
    else
      var t := ts[|ts| - 1];
      TypeCategorySum(ts[..|ts| - 1], ty, c) + (if t.txType == ty && t.category == c then t.amount else 0.0)
  }

  /**
   * `getCategoryTotals(transactions, type)`: the `reduce` over the filtered list, which creates
   * a key at 0 the first time a category is met and adds each amount to it.
   */
  method GetCategoryTotals(ts: seq<Transaction>, ty: TxType) returns (acc: Groups<string>)
    ensures acc == CategoryTotals(ts, ty)
  {
    var filtered := Filter(ts, OfType(ty));
    acc := Groups([], map[]);
    var i := 0;
    while i < |filtered|
      invariant 0 <= i <= |filtered|
      invariant acc == GroupSum(Items(filtered[..i]))
    {
      var t := filtered[i];
      ItemsSnoc(filtered, i);
      GroupSumStep(Items(filtered[..i]), t.category, t.amount);
      acc := Add(acc, t.category, t.amount);
      i := i + 1;
    }
    assert filtered[..i] == filtered;
  }

  lemma ItemsSnoc(s: seq<Transaction>, i: nat)
    requires i < |s|
    ensures Items(s[..i + 1]) == Items(s[..i]) + [(s[i].category, s[i].amount)]
  {
    assert s[..i + 1] == s[..i] + [s[i]];
    ItemsConcat(s[..i], [s[i]]);
  }

  lemma ItemsConcat(a: seq<Transaction>, b: seq<Transaction>)
    ensures Items(a + b) == Items(a) + Items(b)
  {
  }

  /** Adding up the filtered pairs under `c` is adding up the amounts of that type and category. */
  lemma {:induction false} KeySumIsTypeCategorySum(ts: seq<Transaction>, ty: TxType, c: string)
    ensures KeySum(Items(Filter(ts, OfType(ty))), c) == TypeCategorySum(ts, ty, c)
    decreases |ts|
  {
    if ts != [] {
      var front := ts[..|ts| - 1];
      var t := ts[|ts| - 1];
      assert ts == front + [t];
      KeySumIsTypeCategorySum(front, ty, c);
      FilterConcat(front, [t], OfType(ty));
      assert Filter([t], OfType(ty)) == if t.txType == ty then [t] else [];
      var ff := Filter(front, OfType(ty));
      if t.txType == ty {
        assert Filter(ts, OfType(ty)) == ff + [t];
        KeySumAppend(ff, t, c);
      } else {
        assert Filter(ts, OfType(ty)) == ff;
      }
    }
  }

  /** One more transaction adds its amount to the sum under its own category. */
  lemma KeySumAppend(ts: seq<Transaction>, t: Transaction, c: string)
    ensures KeySum(Items(ts + [t]), c) == KeySum(Items(ts), c) + (if t.category == c then t.amount else 0.0)
  {
    var items := Items(ts + [t]);
    assert items[..|items| - 1] == Items(ts);
  }

  /**
   * The keys are exactly the categories of the transactions of type `ty`, each with the sum of
   * their amounts in that category.
   */
  lemma CategoryTotalsMeaning(ts: seq<Transaction>, ty: TxType, c: string)
    ensures c in CategoryTotals(ts, ty).totals <==>
      exists i :: 0 <= i < |ts| && ts[i].txType == ty && ts[i].category == c
    ensures TotalOf(CategoryTotals(ts, ty), c) == TypeCategorySum(ts, ty, c)
  {
    CategoryTotalsKeys(ts, ty, c);
    TotalOfGroupSum(Items(Filter(ts, OfType(ty))), c);
    KeySumIsTypeCategorySum(ts, ty, c);
  }

  /** The keys of the category totals are the categories that occur with type `ty`. */
  lemma CategoryTotalsKeys(ts: seq<Transaction>, ty: TxType, c: string)
    ensures c in CategoryTotals(ts, ty).totals <==>
      exists i :: 0 <= i < |ts| && ts[i].txType == ty && ts[i].category == c
  {
    var filtered := Filter(ts, OfType(ty));
    var items := Items(filtered);
    if c in CategoryTotals(ts, ty).totals {
      var k :| 0 <= k < |items| && items[k].0 == c;
      assert filtered[k] in filtered;
      var i :| 0 <= i < |ts| && ts[i] == filtered[k];
    }
    if exists i :: 0 <= i < |ts| && ts[i].txType == ty && ts[i].category == c {
      var i :| 0 <= i < |ts| && ts[i].txType == ty && ts[i].category == c;
      assert ts[i] in filtered;
      var k :| 0 <= k < |filtered| && filtered[k] == ts[i];
      assert items[k].0 == c;
    }
  }

  /** `Total` of the pairs is the sum of the amounts. */
  lemma {:induction false} TotalIsSumAmounts(ts: seq<Transaction>)
    ensures Total(Items(ts)) == SumAmounts(ts)
    decreases |ts|
  {
    if ts != [] {
      assert Items(ts)[..|ts| - 1] == Items(ts[..|ts| - 1]);
      TotalIsSumAmounts(ts[..|ts| - 1]);
    }
  }

  /** The category totals add up to the total of that type. */
  lemma CategoryTotalsSum(ts: seq<Transaction>, ty: TxType)
    ensures SumOver(CategoryTotals(ts, ty).keys, CategoryTotals(ts, ty).totals) == CalculateTotal(ts, ty)
  {
    var filtered := Filter(ts, OfType(ty));
    GroupSumTotal(Items(filtered));
    TotalIsSumAmounts(filtered);
  }

  /** A transaction of another type does not change the result. */
  lemma OtherTypeIgnored(ts: seq<Transaction>, t: Transaction, ty: TxType)
    requires t.txType != ty
    ensures CategoryTotals(ts + [t], ty) == CategoryTotals(ts, ty)
  {
    FilterConcat(ts, [t], OfType(ty));
    assert Filter([t], OfType(ty)) == [];
    assert Filter(ts, OfType(ty)) + [] == Filter(ts, OfType(ty));
  }

  /** No transactions, no categories. */
  lemma EmptyHasNoCategories(ty: TxType)
    ensures CategoryTotals([], ty).keys == [] && CategoryTotals([], ty).totals == map[]
  {
    assert Filter([], OfType(ty)) == [];
    assert Items([]) == [];
  }

  /**
   * `memoize(fn)`: the closure and its `Map` cache keyed by `JSON.stringify(args)` (here
   * `serialize`). `calls` counts the invocations of `fn`.
   */
  class Memo<A(!new), R> {
    const fn: A -> R
    const serialize: A -> string
    var cache: map<string, R>
    ghost var calls: nat

    /** Every cached result is `fn`'s result for some arguments serialised to its key. */
    ghost predicate Valid()
      reads this
    {
      forall k :: k in cache ==> exists a :: serialize(a) == k && cache[k] == fn(a)
    }

    constructor (fn: A -> R, serialize: A -> string)
      ensures Valid() && this.fn == fn && this.serialize == serialize && cache == map[] && calls == 0
    {
      this.fn := fn;
      this.serialize := serialize;
      cache := map[];
      calls := 0;
    }

    /**
     * A call: a cached key returns the cached result without invoking `fn`; a new key invokes
     * `fn` once and caches its result. When serialisation tells arguments apart, every call
     * returns `fn(args)`.
     */
    method Call(args: A) returns (r: R)
      requires Valid()
      modifies this
      ensures Valid()
      ensures var key := serialize(args);
        && (key in old(cache) ==> r == old(cache)[key] && cache == old(cache) && calls == old(calls))
        && (key !in old(cache) ==> r == fn(args) && cache == old(cache)[key := r] && calls == old(calls) + 1)
      ensures (forall a, b :: serialize(a) == serialize(b) ==> a == b) ==> r == fn(args)
    {
      var key := serialize(args);
      if key in cache {
        return cache[key];
      }
      r := fn(args);
      cache := cache[key := r];
      calls := calls + 1;
    }
  }
}
