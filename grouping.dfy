/**
 * Adding up amounts by key, the way a MongoDB `$group` stage with `$sum` and a JavaScript
 * `reduce` into an object both do it: the keys in the order they are first met, and one
 * running total per key.
 */
module Grouping {

  /** The sum of the amounts listed under key `k`, added up from the front. */
  function KeySum<K(==, !new)>(items: seq<(K, real)>, k: K): real
    decreases |items|
  {
    if items == [] then 0.0
    else
      var last := items[|items| - 1];
      KeySum(items[..|items| - 1], k) + (if last.0 == k then last.1 else 0.0)
  }

  /** Some item is listed under `k`. */
  predicate HasKey<K(==, !new)>(items: seq<(K, real)>, k: K) {
    exists i :: 0 <= i < |items| && items[i].0 == k
  }

  /** Nothing is listed under a key no item has. */
  lemma {:induction false} KeySumAbsent<K(!new)>(items: seq<(K, real)>, k: K)
    requires !HasKey(items, k)
    ensures KeySum(items, k) == 0.0
    decreases |items|
  {
    if items != [] {
      var front := items[..|items| - 1];
      assert !HasKey(front, k) by {
        forall i | 0 <= i < |front| ensures front[i].0 != k {
          assert front[i] == items[i];
        }
      }
      KeySumAbsent(front, k);
    }
  }

  /** The keys of a non-empty list are those of its front and that of its last item. */
  lemma HasKeyLast<K(!new)>(items: seq<(K, real)>)
    requires items != []
    ensures forall k :: HasKey(items, k) <==> HasKey(items[..|items| - 1], k) || k == items[|items| - 1].0
  {
    var front := items[..|items| - 1];
    forall k ensures HasKey(items, k) ==> HasKey(front, k) || k == items[|items| - 1].0 {
      if HasKey(items, k) && k != items[|items| - 1].0 {
        var i :| 0 <= i < |items| && items[i].0 == k;
        assert i < |front| && front[i] == items[i];
      }
    }
    forall k | HasKey(front, k) ensures HasKey(items, k) {
      var i :| 0 <= i < |front| && front[i].0 == k;
      assert items[i] == front[i];
    }
  }

  /** Keys in order of first appearance, and the total per key. */
  datatype Groups<K> = Groups(keys: seq<K>, totals: map<K, real>)

  /** Every key is listed exactly once, and the listed keys are those that have a total. */
  ghost predicate WellFormed<K(!new)>(g: Groups<K>) {
    && (forall i, j :: 0 <= i < j < |g.keys| ==> g.keys[i] != g.keys[j])
    && (forall k :: k in g.totals <==> k in g.keys)
  }

  /** `acc[k] = (acc[k] || 0) + a`: a new key goes to the end of the key order. */
  function Add<K(==, !new)>(g: Groups<K>, k: K, a: real): (r: Groups<K>)
    requires WellFormed(g)
    ensures WellFormed(r)
    ensures |g.keys| <= |r.keys| && r.keys[..|g.keys|] == g.keys
    ensures forall k' :: k' in r.totals <==> k' in g.totals || k' == k
    ensures forall k' :: k' in r.totals ==>
      r.totals[k'] == (if k' in g.totals then g.totals[k'] else 0.0) + (if k' == k then a else 0.0)
  {
    if k in g.totals then Groups(g.keys, g.totals[k := g.totals[k] + a])
    else Groups(g.keys + [k], g.totals[k := a])
  }

  /**
   * The grouped totals of `items`: exactly the keys that occur, each once, each with the sum
   * of the amounts listed under it.
   */
  function GroupSum<K(==, !new)>(items: seq<(K, real)>): (g: Groups<K>)
    ensures WellFormed(g)
    ensures forall k :: k in g.totals <==> HasKey(items, k)
    ensures forall k :: k in g.totals ==> g.totals[k] == KeySum(items, k)
    decreases |items|
  {
    if items == [] then Groups([], map[])
    else
      var front := items[..|items| - 1];
      var last := items[|items| - 1];
      var g := GroupSum(front);
      var r := Add(g, last.0, last.1);
      HasKeyLast(items);
      forall k | k in r.totals && k !in g.totals ensures KeySum(front, k) == 0.0 {
        KeySumAbsent(front, k);
      }
      r
  }

  /** Grouping one more item is adding it to the groups of the others. */
  lemma GroupSumStep<K(!new)>(items: seq<(K, real)>, k: K, a: real)
    ensures GroupSum(items + [(k, a)]) == Add(GroupSum(items), k, a)
  {
    var all := items + [(k, a)];
    assert all[..|all| - 1] == items;
  }

  /** The total `reduce` leaves under `k`: the grouped total, or 0 for a key that never occurs. */
  function TotalOf<K(==, !new)>(g: Groups<K>, k: K): real {
    if k in g.totals then g.totals[k] else 0.0
  }

  /** Looking up any key of the grouped totals gives the sum of the amounts under that key. */
  lemma TotalOfGroupSum<K(!new)>(items: seq<(K, real)>, k: K)
    ensures TotalOf(GroupSum(items), k) == KeySum(items, k)
  {
    if !HasKey(items, k) {
      KeySumAbsent(items, k);
    }
  }

  /** The sum of `totals` over `keys`, front to back. */
  function SumOver<K(==, !new)>(keys: seq<K>, totals: map<K, real>): real
    requires forall i :: 0 <= i < |keys| ==> keys[i] in totals
    decreases |keys|
  {
    if keys == [] then 0.0
    else SumOver(keys[..|keys| - 1], totals) + totals[keys[|keys| - 1]]
  }

  /** The sum of all amounts. */
  function Total<K(==, !new)>(items: seq<(K, real)>): real
    decreases |items|
  {
    if items == [] then 0.0 else Total(items[..|items| - 1]) + items[|items| - 1].1
  }

  /** Changing the total of a key that is not among `keys` does not change their sum. */
  lemma {:induction false} SumOverOther<K(!new)>(keys: seq<K>, totals: map<K, real>, k: K, v: real)
    requires forall i :: 0 <= i < |keys| ==> keys[i] in totals
    requires k !in keys
    ensures SumOver(keys, totals[k := v]) == SumOver(keys, totals)
    decreases |keys|
  {
    if keys != [] {
      SumOverOther(keys[..|keys| - 1], totals, k, v);
    }
  }

  /** Adding to the total of a listed key raises the sum over distinct keys by the same amount. */
  lemma {:induction false} SumOverBump<K(!new)>(keys: seq<K>, totals: map<K, real>, k: K, a: real)
    requires forall i :: 0 <= i < |keys| ==> keys[i] in totals
    requires forall i, j :: 0 <= i < j < |keys| ==> keys[i] != keys[j]
    requires k in keys
    ensures SumOver(keys, totals[k := totals[k] + a]) == SumOver(keys, totals) + a
    decreases |keys|
  {
    var front := keys[..|keys| - 1];
    var last := keys[|keys| - 1];
    if last == k {
      assert k !in front by {
        forall i | 0 <= i < |front| ensures front[i] != k {
          assert front[i] == keys[i];
        }
      }
      SumOverOther(front, totals, k, totals[k] + a);
    } else {
      assert k in front by {
        var i :| 0 <= i < |keys| && keys[i] == k;
        assert i < |front| && front[i] == k;
      }
      SumOverBump(front, totals, k, a);
    }
  }

  /** Adding an amount under a key raises the sum of all totals by that amount. */
  lemma AddSum<K(!new)>(g: Groups<K>, k: K, a: real)
    requires WellFormed(g)
    ensures SumOver(Add(g, k, a).keys, Add(g, k, a).totals) == SumOver(g.keys, g.totals) + a
  {
    if k in g.totals {
      SumOverBump(g.keys, g.totals, k, a);
    } else {
      var keys := g.keys + [k];
      var totals := g.totals[k := a];
      assert keys[..|keys| - 1] == g.keys;
      SumOverOther(g.keys, g.totals, k, a);
    }
  }

  /** The grouped totals add up to the sum of all amounts. */
  lemma {:induction false} GroupSumTotal<K(!new)>(items: seq<(K, real)>)
    ensures SumOver(GroupSum(items).keys, GroupSum(items).totals) == Total(items)
    decreases |items|
  {
    if items != [] {
      var front := items[..|items| - 1];
      var last := items[|items| - 1];
      GroupSumTotal(front);
      AddSum(GroupSum(front), last.0, last.1);
    }
  }
}
