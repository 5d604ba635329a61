/**
 * The reports page: a label, the income, the expenses and the net of each month of the
 * monthly summary, as the chart and the table show them.
 */
module ReportsPage {

  import opened Wrappers
  import opened Text
  import opened Grouping
  import opened TransactionModel
  import opened MonthlySummary

  const Months: seq<string> := [
    "January", "February", "March", "April", "May", "June",
    "July", "August", "September", "October", "November", "December"
  ]

  /**
   * `${months[item.month - 1]} ${item.year}`: the month's name and the year; a month outside
   * 1..12 indexes past the array and prints as "undefined".
   */
  function MonthLabel(month: int, year: int): (r: string)
    ensures 1 <= month <= 12 ==> r == Months[month - 1] + " " + IntString(year)
    ensures !(1 <= month <= 12) ==> r == "undefined " + IntString(year)
  {
    (if 1 <= month <= 12 then Months[month - 1] else "undefined") + " " + IntString(year)
  }

  /** No line before position `j` has type `ty`. */
  predicate NoneBefore(summary: seq<TypeTotal>, ty: TxType, j: int) {
    forall i :: 0 <= i < j && i < |summary| ==> summary[i].txType != ty
  }

  /** `item.summary.find(s => s.type === ty)`: the first line of type `ty`. */
  function FindType(summary: seq<TypeTotal>, ty: TxType): (r: Option<TypeTotal>)
    ensures r.Some? ==> exists j :: 0 <= j < |summary| && summary[j] == r.value && r.value.txType == ty
    ensures r.Some? ==> exists j :: 0 <= j < |summary| && summary[j] == r.value && NoneBefore(summary, ty, j)
    ensures r.None? ==> forall j :: 0 <= j < |summary| ==> summary[j].txType != ty
    decreases |summary|
  {
    if summary == [] then None
    else if summary[0].txType == ty then Some(summary[0])
    else
      var r := FindType(summary[1..], ty);
      assert r.Some? ==> exists j :: 0 <= j < |summary| && summary[j] == r.value && NoneBefore(summary, ty, j) by {
        if r.Some? {
          var j :| 0 <= j < |summary[1..]| && summary[1..][j] == r.value && NoneBefore(summary[1..], ty, j);
          assert summary[j + 1] == r.value;
          forall i | 0 < i < j + 1 ensures summary[i].txType != ty {
            assert summary[i] == summary[1..][i - 1];
          }
        }
      }
      assert r.None? ==> forall j :: 0 <= j < |summary| ==> summary[j].txType != ty by {
        if r.None? {
          forall j | 0 < j < |summary| ensures summary[j].txType != ty {
            assert summary[j] == summary[1..][j - 1];
          }
        }
      }
      r
  }

  /** The total of the entry's `ty` line, or 0 when it has none. */
  function TypeTotalOf(e: Entry, ty: TxType): real {
    match FindType(e.summary, ty)
    case Some(s) => s.total
    case None => 0.0
  }

  /** Income: the credit total. */
  function Income(e: Entry): real {
    TypeTotalOf(e, Credit)
  }

  /** Expenses: the debit total. */
  function Expenses(e: Entry): real {
    TypeTotalOf(e, Debit)
  }

  /** Net: income less expenses. */
  function Net(e: Entry): real {
    Income(e) - Expenses(e)
  }

  /**
   * On the server's summary, the figure shown for a type is the sum of the amounts of that
   * type in that month, 0 when the month has none of that type.
   */
  lemma TypeTotalIsPeriodTotal(ts: seq<Transaction>, i: nat, ty: TxType)
    requires i < |Summary(ts)|
    ensures var e := Summary(ts)[i]; TypeTotalOf(e, ty) == PeriodTypeTotal(ts, e.year, e.month, ty)
  {
    var e := Summary(ts)[i];
    match FindType(e.summary, ty)
    case Some(s) =>
      var j :| 0 <= j < |e.summary| && e.summary[j] == s && s.txType == ty;
      SummaryTotals(ts, i, j);
    case None =>
      SummaryTypes(ts, i, ty);
      AbsentTotal(ts, e.year, e.month, ty);
  }

  /** Income, expenses and net of a month of the server's summary, in terms of its transactions. */
  lemma FiguresOfSummary(ts: seq<Transaction>, i: nat)
    requires i < |Summary(ts)|
    ensures var e := Summary(ts)[i];
      && Income(e) == PeriodTypeTotal(ts, e.year, e.month, Credit)
      && Expenses(e) == PeriodTypeTotal(ts, e.year, e.month, Debit)
      && Net(e) == PeriodTypeTotal(ts, e.year, e.month, Credit) - PeriodTypeTotal(ts, e.year, e.month, Debit)
  {
    TypeTotalIsPeriodTotal(ts, i, Credit);
    TypeTotalIsPeriodTotal(ts, i, Debit);
  }

  /** `chartData`: the labels and the two datasets. */
  datatype Chart = Chart(labels: seq<string>, income: seq<real>, expenses: seq<real>)

  /** One label and one value per dataset for each month of the summary, in its order. */
  function ChartData(summary: seq<Entry>): (c: Chart)
    ensures |c.labels| == |summary| && |c.income| == |summary| && |c.expenses| == |summary|
    ensures forall i :: 0 <= i < |summary| ==>
      && c.labels[i] == MonthLabel(summary[i].month, summary[i].year)
      && c.income[i] == Income(summary[i])
      && c.expenses[i] == Expenses(summary[i])
  {
    Chart(
      seq(|summary|, i requires 0 <= i < |summary| => MonthLabel(summary[i].month, summary[i].year)),
      seq(|summary|, i requires 0 <= i < |summary| => Income(summary[i])),
      seq(|summary|, i requires 0 <= i < |summary| => Expenses(summary[i])))
  }
}
