/**
 * The monthly-summary aggregation of the transactions route: group the transactions by
 * (year, month, type) and add up their amounts, regroup those totals by (year, month) into a
 * list of per-type totals, and sort the periods newest first.
 */
module MonthlySummary {

  import opened Grouping
  import opened Sorting
  import opened TransactionModel

  /** The `_id` of the first `$group` stage. */
  datatype PeriodType = PeriodType(year: int, month: int, txType: TxType)

  /** One element of a period's `summary` list. */
  datatype TypeTotal = TypeTotal(txType: TxType, total: real)

  /** One document of the output: a period and its per-type totals. */
  datatype Entry = Entry(year: int, month: int, summary: seq<TypeTotal>)

  function KeyOf(t: Transaction): PeriodType {
    PeriodType(t.timestamp.year, t.timestamp.month, t.txType)
  }

  /** Each transaction as the (group key, amount) pair the first stage adds up. */
  function Keyed(ts: seq<Transaction>): (items: seq<(PeriodType, real)>)
    ensures |items| == |ts|
    ensures forall i :: 0 <= i < |ts| ==> items[i] == (KeyOf(ts[i]), ts[i].amount)
  {
    seq(|ts|, i requires 0 <= i < |ts| => (KeyOf(ts[i]), ts[i].amount))
  }

  /** Stage 1: `$group` by year, month and type with `total: { $sum: "$amount" }`. */
  function ByPeriodAndType(ts: seq<Transaction>): Groups<PeriodType> {
    GroupSum(Keyed(ts))
  }

  /** The periods met so far, in order, and the `summary` list pushed for each. */
  datatype Regrouped = Regrouped(periods: seq<(int, int)>, summaries: map<(int, int), seq<TypeTotal>>)

  /** `$push: { type, total }` into the group of the key's period. */
  function Push(r: Regrouped, k: PeriodType, total: real): Regrouped {
    var p := (k.year, k.month);
    if p in r.summaries then Regrouped(r.periods, r.summaries[p := r.summaries[p] + [TypeTotal(k.txType, total)]])
    else Regrouped(r.periods + [p], r.summaries[p := [TypeTotal(k.txType, total)]])
  }

  function PeriodOf(k: PeriodType): (int, int) {
    (k.year, k.month)
  }

  /** The period of each key. */
  function PeriodsOf(keys: seq<PeriodType>): (ps: seq<(int, int)>)
    ensures |ps| == |keys|
    ensures forall i :: 0 <= i < |keys| ==> ps[i] == PeriodOf(keys[i])
  {
    seq(|keys|, i requires 0 <= i < |keys| => PeriodOf(keys[i]))
  }

  /** The `summary` list of period `p`: the keys of that period in order, with their totals. */
  function SummaryFor(keys: seq<PeriodType>, totals: map<PeriodType, real>, p: (int, int)): seq<TypeTotal>
    requires forall i :: 0 <= i < |keys| ==> keys[i] in totals
    decreases |keys|
  {
    if keys == [] then []
    else
      var k := keys[|keys| - 1];
      SummaryFor(keys[..|keys| - 1], totals, p) + (if PeriodOf(k) == p then [TypeTotal(k.txType, totals[k])] else [])
  }

  /**
   * What regrouping the stage-1 groups `keys` has produced in `r`: each period of a key listed
   * once, and for each the `summary` list of that period.
   */
  ghost predicate Regrouping(keys: seq<PeriodType>, totals: map<PeriodType, real>, r: Regrouped)
    requires forall i :: 0 <= i < |keys| ==> keys[i] in totals
  {
    && Distinct(r.periods)
    && (forall p :: p in r.summaries <==> p in r.periods)
    && (forall p :: p in r.summaries <==> p in PeriodsOf(keys))
    && (forall p :: p in r.summaries ==> r.summaries[p] == SummaryFor(keys, totals, p))
  }

  /** A period with no key has an empty `summary` list. */
  lemma {:induction false} SummaryForAbsent(keys: seq<PeriodType>, totals: map<PeriodType, real>, p: (int, int))
    requires forall i :: 0 <= i < |keys| ==> keys[i] in totals
    requires p !in PeriodsOf(keys)
    ensures SummaryFor(keys, totals, p) == []
    decreases |keys|
  {
    if keys != [] {
      var front := keys[..|keys| - 1];
      assert p !in PeriodsOf(front) by {
        forall i | 0 <= i < |front| ensures PeriodsOf(front)[i] != p {
          assert PeriodsOf(front)[i] == PeriodsOf(keys)[i];
        }
      }
      SummaryForAbsent(front, totals, p);
      assert PeriodsOf(keys)[|keys| - 1] == PeriodOf(keys[|keys| - 1]);
    }
  }

  /** Pushing the group of one more key extends the regrouping by that key. */
  lemma PushRegroups(keys: seq<PeriodType>, totals: map<PeriodType, real>, r: Regrouped)
    requires keys != [] && forall i :: 0 <= i < |keys| ==> keys[i] in totals
    requires Regrouping(keys[..|keys| - 1], totals, r)
    ensures Regrouping(keys, totals, Push(r, keys[|keys| - 1], totals[keys[|keys| - 1]]))
  {
    var front := keys[..|keys| - 1];
    var k := keys[|keys| - 1];
    var p := PeriodOf(k);
    assert PeriodsOf(keys) == PeriodsOf(front) + [p];
    if p !in r.summaries {
      SummaryForAbsent(front, totals, p);
    }
  }

  /** Stage 2: the stage-1 groups regrouped by period. */
  function Regroup(keys: seq<PeriodType>, totals: map<PeriodType, real>): (r: Regrouped)
    requires forall i :: 0 <= i < |keys| ==> keys[i] in totals
    ensures Regrouping(keys, totals, r)
    decreases |keys|
  {
    if keys == [] then Regrouped([], map[])
    else
      var r := Regroup(keys[..|keys| - 1], totals);
      PushRegroups(keys, totals, r);
      Push(r, keys[|keys| - 1], totals[keys[|keys| - 1]])
  }

  /**
   * A period's `summary` list holds exactly one element per type that has a stage-1 key in
   * that period, carrying that key's total.
   */
  lemma {:induction false} SummaryForHolds(keys: seq<PeriodType>, totals: map<PeriodType, real>, p: (int, int), s: TypeTotal)
    requires forall i :: 0 <= i < |keys| ==> keys[i] in totals
    ensures s in SummaryFor(keys, totals, p) <==>
      PeriodType(p.0, p.1, s.txType) in keys && s.total == totals[PeriodType(p.0, p.1, s.txType)]
    decreases |keys|
  {
    if keys != [] {
      var front := keys[..|keys| - 1];
      assert keys == front + [keys[|keys| - 1]];
      SummaryForHolds(front, totals, p, s);
    }
  }

  /** Distinct stage-1 keys give a `summary` list in which no type occurs twice. */
  lemma {:induction false} SummaryForDistinct(keys: seq<PeriodType>, totals: map<PeriodType, real>, p: (int, int))
    requires forall i :: 0 <= i < |keys| ==> keys[i] in totals
    requires Distinct(keys)
    ensures DistinctTypes(SummaryFor(keys, totals, p))
    decreases |keys|
  {
    if keys != [] {
      var front := keys[..|keys| - 1];
      var k := keys[|keys| - 1];
      assert Distinct(front) by {
        forall i, j | 0 <= i < j < |front| ensures front[i] != front[j] {
          assert front[i] == keys[i] && front[j] == keys[j];
        }
      }
      SummaryForDistinct(front, totals, p);
      if PeriodOf(k) == p {
        var before := SummaryFor(front, totals, p);
        forall i | 0 <= i < |before| ensures before[i].txType != k.txType {
          SummaryForHolds(front, totals, p, before[i]);
          assert before[i] in before;
        }
      }
    }
  }

  /** No type occurs twice in a `summary` list. */
  predicate DistinctTypes(s: seq<TypeTotal>) {
    forall i, j :: 0 <= i < j < |s| ==> s[i].txType != s[j].txType
  }

  /** Stage 3, `$project`: one output document per period, in the order the periods were met. */
  function Entries(r: Regrouped): (es: seq<Entry>)
    requires forall p :: p in r.periods ==> p in r.summaries
    ensures |es| == |r.periods|
    ensures forall i :: 0 <= i < |es| ==>
      es[i] == Entry(r.periods[i].0, r.periods[i].1, r.summaries[r.periods[i]])
  {
    seq(|r.periods|, i requires 0 <= i < |r.periods| =>
      Entry(r.periods[i].0, r.periods[i].1, r.summaries[r.periods[i]]))
  }

  /** Stage 4, `$sort: { year: -1, month: -1 }`: `a` may come before `b`. */
  predicate NotEarlier(a: Entry, b: Entry) {
    a.year > b.year || (a.year == b.year && a.month >= b.month)
  }

  /** The whole pipeline. */
  function Summary(ts: seq<Transaction>): seq<Entry> {
    var g := ByPeriodAndType(ts);
    SortBy(Entries(Regroup(g.keys, g.totals)), NotEarlier)
  }

  // ---------------------------------------------------------------------------------------
  // An independent description of what the pipeline computes.

  /** The sum of the amounts of the transactions of type `ty` recorded in month `m` of year `y`. */
  function PeriodTypeTotal(ts: seq<Transaction>, y: int, m: int, ty: TxType): real
    decreases |ts|
  {
    if ts == [] then 0.0
    else
      var t := ts[|ts| - 1];
      PeriodTypeTotal(ts[..|ts| - 1], y, m, ty)
        + (if t.timestamp.year == y && t.timestamp.month == m && t.txType == ty then t.amount else 0.0)
  }

  /** Some transaction of type `ty` was recorded in month `m` of year `y`. */
  predicate Occurs(ts: seq<Transaction>, y: int, m: int, ty: TxType) {
    exists i :: 0 <= i < |ts| && KeyOf(ts[i]) == PeriodType(y, m, ty)
  }

  /** Some transaction was recorded in month `m` of year `y`. */
  predicate PeriodOccurs(ts: seq<Transaction>, y: int, m: int) {
    exists i :: 0 <= i < |ts| && ts[i].timestamp.year == y && ts[i].timestamp.month == m
  }

  lemma {:induction false} KeyedSum(ts: seq<Transaction>, k: PeriodType)
    ensures KeySum(Keyed(ts), k) == PeriodTypeTotal(ts, k.year, k.month, k.txType)
    decreases |ts|
  {
    if ts != [] {
      assert Keyed(ts)[..|ts| - 1] == Keyed(ts[..|ts| - 1]);
      KeyedSum(ts[..|ts| - 1], k);
    }
  }

  lemma KeyedHasKey(ts: seq<Transaction>, k: PeriodType)
    ensures HasKey(Keyed(ts), k) <==> Occurs(ts, k.year, k.month, k.txType)
  {
    if Occurs(ts, k.year, k.month, k.txType) {
      var i :| 0 <= i < |ts| && KeyOf(ts[i]) == k;
      assert Keyed(ts)[i].0 == k;
    }
  }

  /** A type that does not occur in a month totals 0 there. */
  lemma AbsentTotal(ts: seq<Transaction>, y: int, m: int, ty: TxType)
    requires !Occurs(ts, y, m, ty)
    ensures PeriodTypeTotal(ts, y, m, ty) == 0.0
  {
    var k := PeriodType(y, m, ty);
    KeyedHasKey(ts, k);
    KeySumAbsent(Keyed(ts), k);
    KeyedSum(ts, k);
  }

  /** Stage 2 applied to the groups of stage 1. */
  function Stage2(ts: seq<Transaction>): (r: Regrouped)
    ensures Regrouping(ByPeriodAndType(ts).keys, ByPeriodAndType(ts).totals, r)
  {
    var g := ByPeriodAndType(ts);
    Regroup(g.keys, g.totals)
  }

  /** Every output document is one of the regrouped periods, and every regrouped period is output. */
  lemma SummaryIsEntries(ts: seq<Transaction>)
    ensures multiset(Summary(ts)) == multiset(Entries(Stage2(ts)))
    ensures forall e :: e in Summary(ts) <==> e in Entries(Stage2(ts))
  {
    var es := Entries(Stage2(ts));
    assert Summary(ts) == SortBy(es, NotEarlier);
    forall e ensures e in Summary(ts) <==> e in es {
      assert e in Summary(ts) <==> e in multiset(Summary(ts));
      assert e in es <==> e in multiset(es);
    }
  }

  /** An output document: a period of some stage-1 key, with that period's `summary` list. */
  lemma EntryShape(ts: seq<Transaction>, e: Entry)
    requires e in Summary(ts)
    ensures (e.year, e.month) in PeriodsOf(ByPeriodAndType(ts).keys)
    ensures e.summary == SummaryFor(ByPeriodAndType(ts).keys, ByPeriodAndType(ts).totals, (e.year, e.month))
  {
    SummaryIsEntries(ts);
    var es := Entries(Stage2(ts));
    var i :| 0 <= i < |es| && es[i] == e;
  }

  /** Each per-type total of the summary is the sum of that type's amounts in that month. */
  lemma SummaryTotals(ts: seq<Transaction>, i: nat, j: nat)
    requires i < |Summary(ts)| && j < |Summary(ts)[i].summary|
    ensures var e := Summary(ts)[i]; var s := e.summary[j];
      s.total == PeriodTypeTotal(ts, e.year, e.month, s.txType)
  {
    var e := Summary(ts)[i];
    assert e in Summary(ts);
    EntryShape(ts, e);
    assert e.summary[j] in e.summary;
    ListedTotal(ts, e.year, e.month, e.summary[j]);
  }

  /** An element of a period's `summary` list carries the sum of that type's amounts in that period. */
  lemma ListedTotal(ts: seq<Transaction>, y: int, m: int, s: TypeTotal)
    requires s in SummaryFor(ByPeriodAndType(ts).keys, ByPeriodAndType(ts).totals, (y, m))
    ensures s.total == PeriodTypeTotal(ts, y, m, s.txType)
  {
    var g := ByPeriodAndType(ts);
    SummaryForHolds(g.keys, g.totals, (y, m), s);
    KeyedSum(ts, PeriodType(y, m, s.txType));
  }

  /**
   * A type is listed for a month exactly when some transaction of that type was recorded in
   * that month: types without transactions are absent, not listed with a total of 0. No type
   * is listed twice.
   */
  lemma SummaryTypes(ts: seq<Transaction>, i: nat, ty: TxType)
    requires i < |Summary(ts)|
    ensures var e := Summary(ts)[i];
      (exists j :: 0 <= j < |e.summary| && e.summary[j].txType == ty) <==> Occurs(ts, e.year, e.month, ty)
    ensures DistinctTypes(Summary(ts)[i].summary)
  {
    var e := Summary(ts)[i];
    assert e in Summary(ts);
    EntryShape(ts, e);
    ListedTypes(ts, e.year, e.month, ty);
  }

  /** The `summary` list of a period lists a type exactly when that type occurs then, and no type twice. */
  lemma ListedTypes(ts: seq<Transaction>, y: int, m: int, ty: TxType)
    ensures var l := SummaryFor(ByPeriodAndType(ts).keys, ByPeriodAndType(ts).totals, (y, m));
      && ((exists j :: 0 <= j < |l| && l[j].txType == ty) <==> Occurs(ts, y, m, ty))
      && DistinctTypes(l)
  {
    var g := ByPeriodAndType(ts);
    var p := (y, m);
    var l := SummaryFor(g.keys, g.totals, p);
    var k := PeriodType(y, m, ty);
    KeyedHasKey(ts, k);
    SummaryForDistinct(g.keys, g.totals, p);
    if exists j :: 0 <= j < |l| && l[j].txType == ty {
      var j :| 0 <= j < |l| && l[j].txType == ty;
      assert l[j] in l;
      SummaryForHolds(g.keys, g.totals, p, l[j]);
    }
    if Occurs(ts, y, m, ty) {
      assert k in g.totals;
      var s := TypeTotal(ty, g.totals[k]);
      SummaryForHolds(g.keys, g.totals, p, s);
      var j :| 0 <= j < |l| && l[j] == s;
    }
  }

  /** A month has an output document exactly when some transaction was recorded in it. */
  lemma SummaryPeriods(ts: seq<Transaction>, y: int, m: int)
    ensures (exists i :: 0 <= i < |Summary(ts)| && Summary(ts)[i].year == y && Summary(ts)[i].month == m)
      <==> PeriodOccurs(ts, y, m)
  {
    var out := Summary(ts);
    if exists i :: 0 <= i < |out| && out[i].year == y && out[i].month == m {
      var i :| 0 <= i < |out| && out[i].year == y && out[i].month == m;
      assert out[i] in out;
      EntryOccurs(ts, out[i]);
    }
    if PeriodOccurs(ts, y, m) {
      PeriodInSummary(ts, y, m);
    }
  }

  /** The month of an output document is one in which some transaction was recorded. */
  lemma EntryOccurs(ts: seq<Transaction>, e: Entry)
    requires e in Summary(ts)
    ensures PeriodOccurs(ts, e.year, e.month)
  {
    EntryShape(ts, e);
    var g := ByPeriodAndType(ts);
    var n :| 0 <= n < |g.keys| && PeriodsOf(g.keys)[n] == (e.year, e.month);
    var k := g.keys[n];
    assert k in g.totals;
    KeyedHasKey(ts, k);
    var t :| 0 <= t < |ts| && KeyOf(ts[t]) == k;
    assert ts[t].timestamp.year == e.year && ts[t].timestamp.month == e.month;
  }

  /** A month in which some transaction was recorded is one of the regrouped periods. */
  lemma PeriodRegrouped(ts: seq<Transaction>, y: int, m: int)
    requires PeriodOccurs(ts, y, m)
    ensures (y, m) in Stage2(ts).periods
  {
    var g := ByPeriodAndType(ts);
    var t :| 0 <= t < |ts| && ts[t].timestamp.year == y && ts[t].timestamp.month == m;
    var k := KeyOf(ts[t]);
    KeyedHasKey(ts, k);
    assert k in g.keys;
    var n :| 0 <= n < |g.keys| && g.keys[n] == k;
    assert PeriodsOf(g.keys)[n] == (y, m);
  }

  /** A month in which some transaction was recorded has an output document. */
  lemma PeriodInSummary(ts: seq<Transaction>, y: int, m: int)
    requires PeriodOccurs(ts, y, m)
    ensures exists i :: 0 <= i < |Summary(ts)| && Summary(ts)[i].year == y && Summary(ts)[i].month == m
  {
    var r := Stage2(ts);
    var es := Entries(r);
    PeriodRegrouped(ts, y, m);
    var q :| 0 <= q < |r.periods| && r.periods[q] == (y, m);
    var e := es[q];
    assert e in es && e.year == y && e.month == m;
    SummaryIsEntries(ts);
    var out := Summary(ts);
    assert e in out;
    var i :| 0 <= i < |out| && out[i] == e;
  }

  /** The output is strictly newest first: each document's month is later than the next one's. */
  lemma SummaryDescending(ts: seq<Transaction>)
    ensures var r := Summary(ts);
      forall i, j :: 0 <= i < j < |r| ==>
        r[i].year > r[j].year || (r[i].year == r[j].year && r[i].month > r[j].month)
  {
    var r := Stage2(ts);
    var es := Entries(r);
    var out := Summary(ts);
    assert out == SortBy(es, NotEarlier);
    SortBySorted(es, NotEarlier);
    SummaryIsEntries(ts);
    assert Distinct(es) by {
      forall i, j | 0 <= i < j < |es| ensures es[i] != es[j] {
        assert r.periods[i] != r.periods[j];
      }
    }
    DistinctPermutation(es, out);
    forall i, j | 0 <= i < j < |out|
      ensures out[i].year > out[j].year || (out[i].year == out[j].year && out[i].month > out[j].month)
    {
      assert NotEarlier(out[i], out[j]);
      SamePeriodSameEntry(ts, out[i], out[j]);
    }
  }

  /** Two output documents for the same month are the same document. */
  lemma SamePeriodSameEntry(ts: seq<Transaction>, a: Entry, b: Entry)
    requires a in Summary(ts) && b in Summary(ts)
    ensures a.year == b.year && a.month == b.month ==> a == b
  {
    EntryShape(ts, a);
    EntryShape(ts, b);
  }
}
