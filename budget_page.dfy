/**
 * The budget page: the overview figures over the comparison rows, the selected period, the
 * request built from the dialog's payload on add and update, and the budget a card edits.
 */
module BudgetPage {

  import opened Wrappers
  import opened Numbers
  import opened Sorting
  import Dates
  import opened BudgetModel
  import opened BudgetsRoute
  import BudgetModal

  /** `reduce((sum, item) => sum + item.budgeted, 0)`. */
  function TotalBudgeted(rows: seq<Row>): real
    decreases |rows|
  {
    if rows == [] then 0.0 else TotalBudgeted(rows[..|rows| - 1]) + rows[|rows| - 1].budgeted
  }

  /** `reduce((sum, item) => sum + item.actual, 0)`. */
  function TotalSpent(rows: seq<Row>): real
    decreases |rows|
  {
    if rows == [] then 0.0 else TotalSpent(rows[..|rows| - 1]) + rows[|rows| - 1].actual
  }

  /** The sum of the rows' own `remaining`. */
  function SumRemaining(rows: seq<Row>): real
    decreases |rows|
  {
    if rows == [] then 0.0 else SumRemaining(rows[..|rows| - 1]) + rows[|rows| - 1].remaining
  }

  /** `totalRemaining = totalBudgeted - totalSpent`. */
  function TotalRemaining(rows: seq<Row>): real {
    TotalBudgeted(rows) - TotalSpent(rows)
  }

  /** Rows that each leave `budgeted - actual` give a total remaining that adds up their remainders. */
  lemma {:induction false} TotalRemainingAddsUp(rows: seq<Row>)
    requires forall i :: 0 <= i < |rows| ==> rows[i].remaining + rows[i].actual == rows[i].budgeted
    ensures TotalRemaining(rows) == SumRemaining(rows)
    decreases |rows|
  {
    if rows != [] {
      TotalRemainingAddsUp(rows[..|rows| - 1]);
    }
  }

  /** On the server's comparison the overview's remaining is the sum of the cards' remaining. */
  lemma ComparisonRemainingAddsUp(budgets: seq<Budget>, ts: seq<TransactionModel.Transaction>, y: int, m: int)
    ensures var rows := Comparison(budgets, ts, y, m); TotalRemaining(rows) == SumRemaining(rows)
  {
    var rows := Comparison(budgets, ts, y, m);
    forall i | 0 <= i < |rows| ensures rows[i].remaining + rows[i].actual == rows[i].budgeted {
      ComparisonRows(budgets, ts, y, m, i);
      var selected := Filter(budgets, b => Selected(b, y, m));
      RowMeaning(selected[i], rows[i].actual);
    }
    TotalRemainingAddsUp(rows);
  }

  function HasStatus(st: Status): Row -> bool {
    (r: Row) => r.status == st
  }

  function NotGood(r: Row): bool {
    r.status != Good
  }

  /** `overBudgetCount + warningCount`. */
  function AlertCount(rows: seq<Row>): nat {
    |Filter(rows, HasStatus(Over))| + |Filter(rows, HasStatus(Warning))|
  }

  /**
   * The alert count is the number of rows that are not good, so it is never more than the
   * number of rows.
   */
  lemma {:induction false} AlertCountIsNotGood(rows: seq<Row>)
    ensures AlertCount(rows) == |Filter(rows, NotGood)|
    ensures AlertCount(rows) <= |rows|
    decreases |rows|
  {
    if rows != [] {
      AlertCountIsNotGood(rows[1..]);
    }
  }

  /** `selectedPeriod`. */
  datatype Selection = Selection(year: int, month: int)

  /** The period the page opens on: the current year and month. */
  function InitialSelection(now: Dates.Timestamp): (s: Selection)
    ensures s.year == now.year && s.month == now.month
  {
    Selection(now.year, now.month)
  }

  /** What the two selectors can hold: one of five years around the current one, and a month. */
  predicate Selectable(s: Selection, currentYear: int) {
    currentYear - 2 <= s.year <= currentYear + 2 && 1 <= s.month <= 12
  }

  /** `{ ...data, ...selectedPeriod }` as the body of the create and the update request. */
  function RequestFor(p: BudgetModal.Payload, s: Selection): (req: BudgetRequest)
    ensures req.category == p.category && req.amount == Num(p.amount) && req.period == p.period
    ensures req.year == Num(s.year as real) && req.month == Num(s.month as real)
  {
    BudgetRequest(p.category, Num(p.amount), p.period, Num(s.year as real), Num(s.month as real))
  }

  /** The payload a valid dialog submits. */
  function PayloadOf(form: BudgetModal.Form): BudgetModal.Payload
    requires BudgetModal.FormValid(form)
  {
    BudgetModal.Payload(form.category, ParseNumber(form.amount).value, form.period)
  }

  /**
   * Adding from a valid dialog for a selected period creates the budget: every required field
   * is there and the budget saved has the dialog's category, amount and period, the selected
   * year, and the selected month exactly when it is monthly.
   */
  lemma AddCreates(form: BudgetModal.Form, s: Selection, id: nat, now: Dates.Timestamp)
    requires BudgetModal.FormValid(form) && ParsePeriod(form.period).Some?
    requires s.year != 0 && 1 <= s.month <= 12 && Dates.Valid(now)
    ensures var req := RequestFor(PayloadOf(form), s);
      && !MissingField(req)
      && !(req.period == "monthly" && !Truthy(req.month))
      && var b := NewBudget(req, id, now);
      && b.Some?
      && b.value.category == form.category && Some(b.value.amount) == ParseNumber(form.amount)
      && Some(b.value.period) == ParsePeriod(form.period) && b.value.year == s.year as real
      && b.value.month == (if form.period == "monthly" then Some(s.month as real) else None)
  {
    var req := RequestFor(PayloadOf(form), s);
    var amount := ParseNumber(form.amount).value;
    assert ToNumber(req.amount) == Some(amount) && amount > 0.0;
    assert ToNumber(req.year) == Some(s.year as real) && Truthy(req.year);
    assert ToNumber(req.month) == Some(s.month as real) && Truthy(req.month);
    if form.period == "monthly" {
      var b := Budget(id, req.category, amount, Monthly, s.year as real, Some(s.month as real), now);
      assert BudgetModel.Valid(b);
      assert NewBudget(req, id, now) == Some(b);
    } else {
      assert form.period == "yearly";
      var b := Budget(id, req.category, amount, Yearly, s.year as real, None, now);
      assert BudgetModel.Valid(b);
      assert NewBudget(req, id, now) == Some(b);
    }
  }

  /**
   * Updating from a valid dialog passes the update's checks: the change sets the dialog's
   * fields and the selected year, and the selected month exactly when the budget is monthly.
   */
  lemma UpdateChanges(form: BudgetModal.Form, s: Selection)
    requires BudgetModal.FormValid(form) && ParsePeriod(form.period).Some?
    requires s.year != 0 && 1 <= s.month <= 12
    ensures var req := RequestFor(PayloadOf(form), s);
      && !MissingField(req)
      && var c := ChangeOf(req);
      && c.Some?
      && c.value.category == form.category && Some(c.value.amount) == ParseNumber(form.amount)
      && c.value.year == s.year as real
      && c.value.month == (if form.period == "monthly" then Set(Some(s.month as real)) else Keep)
  {
    var req := RequestFor(PayloadOf(form), s);
    var amount := ParseNumber(form.amount).value;
    assert ToNumber(req.amount) == Some(amount) && amount >= 0.0;
    assert Truthy(req.year);
    if form.period == "monthly" {
      MonthlyChange(req, amount, s.year as real, s.month as real);
    } else {
      assert form.period == "yearly";
      YearlyChange(req, amount, s.year as real);
    }
  }

  /** A monthly update body with a month in range sets every field and the month. */
  lemma MonthlyChange(req: BudgetRequest, amount: real, year: real, month: real)
    requires req.category != [] && ToNumber(req.amount) == Some(amount) && amount >= 0.0
    requires req.period == "monthly" && req.year == Num(year) && req.month == Num(month) && 1.0 <= month <= 12.0
    ensures ChangeOf(req) == Some(Change(req.category, amount, Monthly, year, Set(Some(month))))
  {
  }

  /** A yearly update body sets every field and leaves the month alone. */
  lemma YearlyChange(req: BudgetRequest, amount: real, year: real)
    requires req.category != [] && ToNumber(req.amount) == Some(amount) && amount >= 0.0
    requires req.period == "yearly" && req.year == Num(year)
    ensures ChangeOf(req) == Some(Change(req.category, amount, Yearly, year, Keep))
  {
  }

  /** `budgets[i]` is the first budget of `category`. */
  predicate FirstOfCategory(budgets: seq<Budget>, i: int, category: string) {
    0 <= i < |budgets| && budgets[i].category == category &&
    forall j :: 0 <= j < i ==> budgets[j].category != category
  }

  /** `budgets.find(b => b.category === budget.category)`: the budget a card edits or deletes. */
  function BudgetOfCategory(budgets: seq<Budget>, category: string): (r: Option<Budget>)
    ensures r.Some? ==> r.value in budgets && r.value.category == category
    ensures r.Some? ==> exists i :: FirstOfCategory(budgets, i, category) && budgets[i] == r.value
    ensures r.None? <==> forall b :: b in budgets ==> b.category != category
    decreases |budgets|
  {
    if budgets == [] then None
    else if budgets[0].category == category then Some(budgets[0])
    else
      var r := BudgetOfCategory(budgets[1..], category);
      assert forall b :: b in budgets[1..] ==> b in budgets;
      assert r.Some? ==> exists i :: FirstOfCategory(budgets, i, category) && budgets[i] == r.value by {
        if r.Some? {
          var i :| FirstOfCategory(budgets[1..], i, category) && budgets[1..][i] == r.value;
          assert budgets[i + 1] == r.value;
          forall j | 0 <= j < i + 1 ensures budgets[j].category != category {
            if j > 0 { assert budgets[j] == budgets[1..][j - 1]; }
          }
          assert FirstOfCategory(budgets, i + 1, category);
        }
      }
      r
  }
}
