/**
 * The budget routes: the budget-versus-actual comparison for a month, and the collection of
 * budgets with its filtered list and its create, update and delete handlers.
 */
module BudgetsRoute {

  import opened Wrappers
  import opened Numbers
  import opened Text
  import Dates
  import opened Store
  import opened Sorting
  import opened Grouping
  import opened Http
  import opened TransactionModel
  import opened BudgetModel
  import TransactionsRoute

  // ---------------------------------------------------------------------------------------
  // The comparison.

  /** The `$or` of the comparison query: the yearly budgets of year `y`, the monthly ones of `m/y`. */
  predicate Selected(b: Budget, y: int, m: int) {
    || (b.period == Yearly && b.year == y as real)
    || (b.period == Monthly && b.year == y as real && b.month == Some(m as real))
  }

  /** The debits recorded inside the month window, as (category, amount) pairs in list order. */
  function WindowDebits(ts: seq<Transaction>, y: int, m: int): (items: seq<(string, real)>)
    ensures |items| <= |ts|
    decreases |ts|
  {
    if ts == [] then []
    else
      var t := ts[|ts| - 1];
      var front := WindowDebits(ts[..|ts| - 1], y, m);
      if t.txType == Debit && Dates.InMonthWindow(t.timestamp, y, m) then front + [(t.category, t.amount)]
      else front
  }

  /** The `$match` on debits in the window followed by `$group` by category with `$sum`. */
  function Spending(ts: seq<Transaction>, y: int, m: int): Groups<string> {
    GroupSum(WindowDebits(ts, y, m))
  }

  /** The sum of the debits of category `c` recorded between the window's two ends. */
  function SpentIn(ts: seq<Transaction>, c: string, y: int, m: int): real
    decreases |ts|
  {
    if ts == [] then 0.0
    else
      var t := ts[|ts| - 1];
      SpentIn(ts[..|ts| - 1], c, y, m)
        + (if t.txType == Debit && t.category == c && Dates.InMonthWindow(t.timestamp, y, m) then t.amount else 0.0)
  }

  lemma {:induction false} WindowDebitsSum(ts: seq<Transaction>, c: string, y: int, m: int)
    ensures KeySum(WindowDebits(ts, y, m), c) == SpentIn(ts, c, y, m)
    decreases |ts|
  {
    if ts != [] {
      var front := ts[..|ts| - 1];
      var t := ts[|ts| - 1];
      WindowDebitsSum(front, c, y, m);
      var items := WindowDebits(front, y, m);
      if t.txType == Debit && Dates.InMonthWindow(t.timestamp, y, m) {
        assert (items + [(t.category, t.amount)])[..|items|] == items;
      }
    }
  }

  /**
   * `actualSpending.find(a => a._id === category)`, or 0 when there is none: the sum of the
   * category's debits in the window, 0 when it has none.
   */
  lemma ActualIsSpent(ts: seq<Transaction>, c: string, y: int, m: int)
    ensures TotalOf(Spending(ts, y, m), c) == SpentIn(ts, c, y, m)
  {
    TotalOfGroupSum(WindowDebits(ts, y, m), c);
    WindowDebitsSum(ts, c, y, m);
  }

  datatype Status = Good | Warning | Over

  function StatusName(s: Status): string {
    match s
    case Good => "good"
    case Warning => "warning"
    case Over => "over"
  }

  /** One row of the comparison. */
  datatype Row = Row(category: string, budgeted: real, actual: real, remaining: real, percentage: real, status: Status)

  /** `budget.amount > 0 ? (actual / budget.amount) * 100 : 0`, before any rounding. */
  function Percentage(actual: real, amount: real): real {
    if amount > 0.0 then actual / amount * 100.0 else 0.0
  }

  /** `Math.round(p * 100) / 100`: `p` to the nearest hundredth, halves rounded up. */
  function RoundHundredths(p: real): (r: real)
    ensures p - 0.005 < r <= p + 0.005
  {
    Round(p * 100.0) as real / 100.0
  }

  /** The status thresholds, applied to the unrounded percentage. */
  function StatusOf(p: real): (s: Status)
    ensures s == Over <==> p > 100.0
    ensures s == Warning <==> 80.0 < p <= 100.0
    ensures s == Good <==> p <= 80.0
  {
    if p > 100.0 then Over else if p > 80.0 then Warning else Good
  }

  /** For a positive amount, the percentage exceeds `bound` exactly when `actual` exceeds that share of the amount. */
  lemma PercentageAbove(actual: real, amount: real, bound: real)
    requires amount > 0.0
    ensures Percentage(actual, amount) > bound <==> actual > bound / 100.0 * amount
  {
    var q := actual / amount;
    assert q * amount == actual;
    if q * 100.0 > bound {
      assert q > bound / 100.0;
      assert q * amount > bound / 100.0 * amount;
    } else {
      assert q <= bound / 100.0;
      assert q * amount <= bound / 100.0 * amount;
    }
  }

  /** The row for a budget whose category spent `actual`. */
  function RowFor(b: Budget, actual: real): Row {
    var p := Percentage(actual, b.amount);
    Row(b.category, b.amount, actual, b.amount - actual, RoundHundredths(p), StatusOf(p))
  }

  /**
   * What a row says: what is left of the budget (negative when overspent), the percentage to a
   * hundredth (0 for a budget of at most 0), and the status in terms of the two amounts.
   */
  lemma RowMeaning(b: Budget, actual: real)
    ensures var r := RowFor(b, actual);
      && r.category == b.category && r.budgeted == b.amount && r.actual == actual
      && r.remaining + r.actual == r.budgeted
      && (b.amount <= 0.0 ==> r.percentage == 0.0 && r.status == Good)
      && (b.amount > 0.0 ==>
           && r.percentage - 0.005 <= actual / b.amount * 100.0 < r.percentage + 0.005
           && (r.status == Over <==> actual > b.amount)
           && (r.status == Warning <==> 0.8 * b.amount < actual <= b.amount)
           && (r.status == Good <==> actual <= 0.8 * b.amount))
  {
    if b.amount > 0.0 {
      PercentageAbove(actual, b.amount, 100.0);
      PercentageAbove(actual, b.amount, 80.0);
    }
  }

  /** The status uses the unrounded percentage: 100.004% shows as 100 but is already over. */
  lemma RoundedToHundredButOver(b: Budget)
    requires b.amount == 100.0
    ensures RowFor(b, 100.004).percentage == 100.0
    ensures RowFor(b, 100.004).status == Over
  {
    assert Percentage(100.004, 100.0) == 100.004;
    assert Round(10000.4) == 10000;
  }

  /** `budgets.map(...)` over the selected budgets, in the order `find` returns them. */
  function Comparison(budgets: seq<Budget>, ts: seq<Transaction>, y: int, m: int): (rows: seq<Row>)
    ensures var selected := Filter(budgets, b => Selected(b, y, m));
      && |rows| == |selected|
      && forall i :: 0 <= i < |rows| ==> rows[i] == RowFor(selected[i], TotalOf(Spending(ts, y, m), selected[i].category))
  {
    var selected := Filter(budgets, b => Selected(b, y, m));
    var spending := Spending(ts, y, m);
    seq(|selected|, i requires 0 <= i < |selected| => RowFor(selected[i], TotalOf(spending, selected[i].category)))
  }

  /**
   * One row per budget of the period, in budget order, each with that budget's category and
   * amount and the category's debits of the month window as `actual`.
   */
  lemma ComparisonRows(budgets: seq<Budget>, ts: seq<Transaction>, y: int, m: int, i: nat)
    requires i < |Comparison(budgets, ts, y, m)|
    ensures var selected := Filter(budgets, b => Selected(b, y, m));
      && i < |selected|
      && Comparison(budgets, ts, y, m)[i] == RowFor(selected[i], SpentIn(ts, selected[i].category, y, m))
  {
    var selected := Filter(budgets, b => Selected(b, y, m));
    ActualIsSpent(ts, selected[i].category, y, m);
  }

  /** A budget is compared exactly when it is a yearly budget of `y` or the monthly budget of `m/y`. */
  lemma ComparedIff(budgets: seq<Budget>, y: int, m: int, b: Budget)
    ensures b in Filter(budgets, b => Selected(b, y, m)) <==>
      b in budgets && (b.year == y as real && (b.period == Yearly || b.month == Some(m as real)))
  {
  }

  /**
   * The window is always the month, also for a yearly budget: a debit in another month of the
   * same year leaves every `actual` as it was.
   */
  lemma YearlyBudgetSeesOneMonth(ts: seq<Transaction>, t: Transaction, c: string, y: int, m: int)
    requires Dates.Valid(t.timestamp) && 1 <= m <= 12 && !(0 <= y <= 99)
    requires t.timestamp.year == y && t.timestamp.month != m
    ensures SpentIn(ts + [t], c, y, m) == SpentIn(ts, c, y, m)
  {
    Dates.InMonthWindowIff(t.timestamp, y, m);
    assert (ts + [t])[..|ts|] == ts;
  }

  // ---------------------------------------------------------------------------------------
  // The collection.

  /** The fields of a create or update body; a missing string is "". */
  datatype BudgetRequest = BudgetRequest(category: string, amount: NumField, period: string, year: NumField, month: NumField)

  const RequiredMessage: string := "Category, amount, period, and year are required"
  const MonthMessage: string := "Month is required for monthly budgets"
  const DuplicateMessage: string := "Budget already exists for this category and period"
  const CreateErrorMessage: string := "Error creating budget"
  const UpdateErrorMessage: string := "Error updating budget"
  const NotFoundMessage: string := "Budget not found"
  const DeletedMessage: string := "Budget deleted successfully"

  /** `!category || !amount || !period || !year`. */
  predicate MissingField(req: BudgetRequest) {
    req.category == [] || !Truthy(req.amount) || req.period == [] || !Truthy(req.year)
  }

  /**
   * `new Budget(budgetData)` followed by validation: the month goes in only for a monthly
   * budget; a number that does not cast, a period outside the enum or a failing validator
   * gives no budget.
   */
  function NewBudget(req: BudgetRequest, id: nat, now: Dates.Timestamp): (r: Option<Budget>)
    ensures r.Some? ==> BudgetModel.Valid(r.value) && r.value.id == id && r.value.createdAt == now
    ensures r.Some? ==>
      && r.value.category == req.category
      && ToNumber(req.amount) == Some(r.value.amount)
      && ParsePeriod(req.period) == Some(r.value.period)
      && ToNumber(req.year) == Some(r.value.year)
      && r.value.month == (if req.period == "monthly" then ToNumber(req.month) else None)
    ensures r.None? ==>
      || ToNumber(req.amount).None? || ToNumber(req.year).None? || ParsePeriod(req.period).None?
      || (req.period == "monthly" && ToNumber(req.month).None?)
      || !BudgetModel.Valid(Budget(id, req.category, ToNumber(req.amount).value, ParsePeriod(req.period).value,
                       ToNumber(req.year).value, if req.period == "monthly" then ToNumber(req.month) else None, now))
  {
    match (ToNumber(req.amount), SchemaPeriod(Some(req.period)), ToNumber(req.year))
    case (Some(amount), Some(period), Some(year)) =>
      if req.period == "monthly" && ToNumber(req.month).None? then None
      else
        var month := if req.period == "monthly" then ToNumber(req.month) else None;
        var b := Budget(id, req.category, amount, period, year, month, now);
        if BudgetModel.Valid(b) then Some(b) else None
    case _ => None
  }

  /** What an update does to the month: leave it as it is, or set it (an empty string sets `null`). */
  datatype MonthChange = Keep | Set(month: Option<real>)

  /** The `updateData` object after casting. */
  datatype Change = Change(category: string, amount: real, period: Period, year: real, month: MonthChange)

  /** The update validators on the paths a change sets. */
  predicate ChangeValid(c: Change) {
    && c.category != []
    && c.amount >= 0.0
    && (c.month.Set? && c.month.month.Some? ==> 1.0 <= c.month.month.value <= 12.0)
  }

  /**
   * Casting `updateData` and running the update validators on the paths it sets. The month is
   * set only for a monthly budget and only when the body has one; the `required` rule on month
   * does not run for an update.
   */
  function ChangeOf(req: BudgetRequest): (r: Option<Change>)
    ensures r.Some? ==> ChangeValid(r.value)
    ensures r.Some? ==>
      && r.value.category == req.category
      && ToNumber(req.amount) == Some(r.value.amount) && r.value.amount >= 0.0
      && ParsePeriod(req.period) == Some(r.value.period)
      && ToNumber(req.year) == Some(r.value.year)
    ensures r.Some? && (req.period != "monthly" || req.month == Missing) ==> r.value.month == Keep
    ensures r.Some? && req.period == "monthly" && req.month == Str([]) ==> r.value.month == Set(None)
    ensures r.Some? && r.value.month.Set? && r.value.month.month.Some? ==>
      ToNumber(req.month) == r.value.month.month && 1.0 <= r.value.month.month.value <= 12.0
  {
    var month :=
      if req.period != "monthly" || req.month == Missing then Some(Keep)
      else if req.month == Str([]) then Some(Set(None))
      else match ToNumber(req.month)
        case Some(v) => if 1.0 <= v <= 12.0 then Some(Set(Some(v))) else None
        case None => None;
    match (ToNumber(req.amount), ParsePeriod(req.period), ToNumber(req.year), month)
    case (Some(amount), Some(period), Some(year), Some(mc)) =>
      if req.category != [] && amount >= 0.0 then Some(Change(req.category, amount, period, year, mc)) else None
    case _ => None
  }

  /** The budget after `findByIdAndUpdate`: the changed fields replaced, the others kept. */
  function Apply(b: Budget, c: Change): (r: Budget)
    ensures r.id == b.id && r.createdAt == b.createdAt
    ensures r.category == c.category && r.amount == c.amount && r.period == c.period && r.year == c.year
    ensures r.month == (if c.month.Set? then c.month.month else b.month)
    ensures FieldsValid(b) && ChangeValid(c) ==> FieldsValid(r)
  {
    b.(category := c.category, amount := c.amount, period := c.period, year := c.year,
       month := if c.month.Set? then c.month.month else b.month)
  }

  /**
   * Turning a yearly budget into a monthly one without sending a month passes every check and
   * stores a monthly budget without a month, which saving a new document would refuse.
   */
  lemma UpdateLeavesMonthlyWithoutMonth(b: Budget)
    requires FieldsValid(b) && b.period == Yearly && b.month == None
    ensures var c := ChangeOf(BudgetRequest(b.category, Num(1.0), "monthly", Num(2024.0), Missing));
      c.Some? && Apply(b, c.value).period == Monthly && !BudgetModel.Valid(Apply(b, c.value))
  {
  }

  /** A monthly budget turned yearly keeps its month. */
  lemma UpdateToYearlyKeepsMonth(b: Budget)
    requires FieldsValid(b) && b.period == Monthly && b.month.Some?
    ensures var c := ChangeOf(BudgetRequest(b.category, Num(1.0), "yearly", Num(2024.0), Num(3.0)));
      c.Some? && Apply(b, c.value).period == Yearly && Apply(b, c.value).month == b.month
  {
  }

  /** The list query: `year` and `month` when given. */
  predicate Matches(b: Budget, year: Option<int>, month: Option<int>) {
    && (year.Some? ==> b.year == year.value as real)
    && (month.Some? ==> b.month == Some(month.value as real))
  }

  /** `sort({ category: 1 })`. */
  predicate CategoryFirst(a: Budget, b: Budget) {
    StringLe(a.category, b.category)
  }

  lemma CategoryFirstIsPreorder()
    ensures TotalPreorder(CategoryFirst)
  {
    forall a: Budget, b: Budget ensures CategoryFirst(a, b) || CategoryFirst(b, a) {
      StringLeTotal(a.category, b.category);
    }
    forall a: Budget, b: Budget, c: Budget | CategoryFirst(a, b) && CategoryFirst(b, c) ensures CategoryFirst(a, c) {
      StringLeTransitive(a.category, b.category, c.category);
    }
  }

  /** The `budgets` collection. */
  class BudgetStore {
    var docs: map<Id, Budget>
    var order: seq<Id>
    var nextId: nat

    /**
     * Every stored budget passes the field validators, is filed under its own id, and the unique
     * index holds. (A monthly budget may lack its month; see `UpdateLeavesMonthlyWithoutMonth`.)
     */
    ghost predicate Valid()
      reads this
    {
      && Coherent(docs, order)
      && (forall id :: id in docs ==> id < nextId && docs[id].id == id && FieldsValid(docs[id]))
      && UniqueKeys(docs)
    }

    constructor ()
      ensures Valid() && docs == map[] && order == []
    {
      docs := map[];
      order := [];
      nextId := 0;
    }

    /** GET `/`: the budgets matching the query, by category. */
    method List(year: Option<int>, month: Option<int>) returns (r: seq<Budget>)
      requires Valid()
      ensures multiset(r) == multiset(Filter(Listing(docs, order), b => Matches(b, year, month)))
      ensures SortedBy(r, CategoryFirst)
    {
      var found := Filter(Listing(docs, order), b => Matches(b, year, month));
      CategoryFirstIsPreorder();
      SortBySorted(found, CategoryFirst);
      r := SortBy(found, CategoryFirst);
    }

    /** GET `/comparison` for month `month` of year `year` against the stored transactions. */
    method Compare(txs: TransactionsRoute.TransactionStore, year: int, month: int) returns (r: seq<Row>)
      requires Valid() && txs.Valid()
      ensures r == Comparison(Listing(docs, order), Listing(txs.docs, txs.order), year, month)
    {
      r := Comparison(Listing(docs, order), Listing(txs.docs, txs.order), year, month);
    }

    /** POST `/`. */
    method Create(req: BudgetRequest, now: Dates.Timestamp) returns (r: Reply<Budget>)
      requires Valid() && Dates.Valid(now)
      modifies this
      ensures Valid()
      ensures MissingField(req) ==> r == Failure(400, RequiredMessage) && docs == old(docs)
      ensures !MissingField(req) && req.period == "monthly" && !Truthy(req.month) ==>
        r == Failure(400, MonthMessage) && docs == old(docs)
      ensures !MissingField(req) && !(req.period == "monthly" && !Truthy(req.month)) ==>
        var nb := NewBudget(req, old(nextId), now);
        && (nb.None? ==> r == Failure(500, CreateErrorMessage) && docs == old(docs))
        && (nb.Some? && KeyTaken(old(docs), KeyOf(nb.value), None) ==>
             r == Failure(400, DuplicateMessage) && docs == old(docs))
        && (nb.Some? && !KeyTaken(old(docs), KeyOf(nb.value), None) ==>
             && old(nextId) !in old(docs)
             && r == Success(201, nb.value)
             && docs == old(docs)[old(nextId) := nb.value]
             && order == old(order) + [old(nextId)])
      ensures r.Failure? ==> order == old(order)
    {
      if MissingField(req) {
        return Failure(400, RequiredMessage);
      }
      if req.period == "monthly" && !Truthy(req.month) {
        return Failure(400, MonthMessage);
      }
      var nb := NewBudget(req, nextId, now);
      if nb.None? {
        return Failure(500, CreateErrorMessage);
      }
      var b := nb.value;
      if KeyTaken(docs, KeyOf(b), None) {
        return Failure(400, DuplicateMessage);
      }
      StoreKeepsUnique(docs, nextId, b);
      AppendCoherent(docs, order, nextId, b);
      docs := docs[nextId := b];
      order := order + [nextId];
      nextId := nextId + 1;
      r := Success(201, b);
    }

    /**
     * PUT `/:id`: 400 for a missing field, 500 when the update does not cast or validate, 404
     * for an unknown id, 500 when another budget has the new key; otherwise the changed fields
     * are stored and the others kept.
     */
    method Update(id: Id, req: BudgetRequest) returns (r: Reply<Budget>)
      requires Valid()
      modifies this
      ensures Valid() && order == old(order)
      ensures MissingField(req) ==> r == Failure(400, RequiredMessage) && docs == old(docs)
      ensures !MissingField(req) ==>
        var c := ChangeOf(req);
        && (c.None? ==> r == Failure(500, UpdateErrorMessage) && docs == old(docs))
        && (c.Some? && id !in old(docs) ==> r == Failure(404, NotFoundMessage) && docs == old(docs))
        && (c.Some? && id in old(docs) && KeyTaken(old(docs), KeyOf(Apply(old(docs)[id], c.value)), Some(id)) ==>
             r == Failure(500, UpdateErrorMessage) && docs == old(docs))
        && (c.Some? && id in old(docs) && !KeyTaken(old(docs), KeyOf(Apply(old(docs)[id], c.value)), Some(id)) ==>
             r == Success(200, Apply(old(docs)[id], c.value)) && docs == old(docs)[id := Apply(old(docs)[id], c.value)])
    {
      if MissingField(req) {
        return Failure(400, RequiredMessage);
      }
      var c := ChangeOf(req);
      if c.None? {
        return Failure(500, UpdateErrorMessage);
      }
      if id !in docs {
        return Failure(404, NotFoundMessage);
      }
      var b := Apply(docs[id], c.value);
      if KeyTaken(docs, KeyOf(b), Some(id)) {
        return Failure(500, UpdateErrorMessage);
      }
      StoreKeepsUnique(docs, id, b);
      docs := docs[id := b];
      r := Success(200, b);
    }

    /** DELETE `/:id`: removes that budget and no other, or answers 404. */
    method Delete(id: Id) returns (r: Reply<string>)
      requires Valid()
      modifies this
      ensures Valid()
      ensures id !in old(docs) ==> r == Failure(404, NotFoundMessage) && docs == old(docs) && order == old(order)
      ensures id in old(docs) ==>
        r == Success(200, DeletedMessage) && docs == old(docs) - {id} && order == Without(old(order), id)
    {
      if id !in docs {
        return Failure(404, NotFoundMessage);
      }
      RemoveCoherent(docs, order, id);
      docs := docs - {id};
      order := Without(order, id);
      r := Success(200, DeletedMessage);
    }
  }
}
