/** The balances, the short analysis and the summary record of app.py, and the
    whole run from an uploaded table to its report.

The opening balance and the period label come from the sidebar widgets
(app.py:56-57) and are parameters here; the opening balance widget only admits
non-negative whole numbers.
 */
module Reporting {
  import opened Wrappers
  import opened Columns
  import opened Ledger
  import opened Totals
  import opened ByCategory

  /** The period written to the summary when none was entered. */
  const NotSet: string := "not-set"

  /** The ledger's net movement read row by row: an income row adds its
      amount, an expense row takes it away, any other row changes nothing. */
  function NetMovement(rows: seq<Row>): int {
    if |rows| == 0 then 0
    else
      (if rows[0].kind == Income then rows[0].amount
       else if rows[0].kind == Expense then -rows[0].amount
       else 0)
      + NetMovement(rows[1..])
  }

  /** Income less expense is the net movement of the ledger. */
  lemma {:induction false} SurplusIsNet(rows: seq<Row>)
    ensures TotalIncome(rows) - TotalExpense(rows) == NetMovement(rows)
  {
    if |rows| > 0 {
      SurplusIsNet(rows[1..]);
      TotalOfCons(rows, Income);
      TotalOfCons(rows, Expense);
      assert Income != Expense;
    }
  }

  /** `surplus` (app.py:63): income less expense, which is the ledger's net
      movement. */
  function SurplusOf(rows: seq<Row>): (s: int)
    ensures s == NetMovement(rows)
  {
    SurplusIsNet(rows);
    TotalIncome(rows) - TotalExpense(rows)
  }

  /** `closing_balance` (app.py:62): the opening balance moved by the income
      and the expense of the ledger, which is the opening balance plus the
      surplus. */
  function ClosingBalance(opening: int, rows: seq<Row>): (c: int)
    ensures c - opening == SurplusOf(rows)
  {
    opening + TotalIncome(rows) - TotalExpense(rows)
  }

  /** The short analysis of app.py:85-90. */
  datatype Verdict =
    | InSurplus(surplus: nat, closing: int)  // surplus and closing balance are reported
    | InDeficit(shortfall: nat)              // the deficit is reported as a positive amount
    | Even                                   // income equals expense

  /** Exactly one of the three messages, chosen by the sign of the surplus;
      a deficit is reported by its absolute value. */
  function Classify(surplus: int, closing: int): (v: Verdict)
    ensures v.InSurplus? <==> surplus > 0
    ensures v.InDeficit? <==> surplus < 0
    ensures v.Even? <==> surplus == 0
    ensures v.InSurplus? ==> v.surplus == surplus && v.closing == closing
    ensures v.InDeficit? ==> v.shortfall + surplus == 0
  {
    if surplus > 0 then InSurplus(surplus, closing)
    else if surplus < 0 then InDeficit(-surplus)
    else Even
  }

  /** The analysis of a ledger compares the closing balance with the opening
      balance: a surplus exactly when the balance grew, a deficit exactly when
      it shrank by the reported shortfall. */
  lemma VerdictTracksBalance(opening: int, rows: seq<Row>)
    ensures var v := Classify(SurplusOf(rows), ClosingBalance(opening, rows));
            && (v.InSurplus? <==> ClosingBalance(opening, rows) > opening)
            && (v.InDeficit? <==> ClosingBalance(opening, rows) < opening)
            && (v.InDeficit? ==> ClosingBalance(opening, rows) == opening - v.shortfall)
            && (v.Even? <==> ClosingBalance(opening, rows) == opening)
  {
  }

  /** The summary record of app.py:94-100. */
  datatype Summary = Summary(
    period: string,
    openingBalance: int,
    totalIncome: int,
    totalExpense: int,
    closingBalance: int)

  /** `period or "not-set"`: the label as entered, or "not-set" when it is
      the empty string. A label of blanks is kept as it is. */
  function PeriodLabel(period: string): (p: string)
    ensures p != ""
    ensures period != "" ==> p == period
    ensures period == "" ==> p == NotSet
  {
    if period == "" then NotSet else period
  }

  /** The summary of a ledger: its balance fields are the computed totals and
      balances, and they satisfy the balance identity. */
  function Summarise(rows: seq<Row>, opening: nat, period: string): (s: Summary)
    ensures s.period != "" && (period != "" ==> s.period == period) && (period == "" ==> s.period == NotSet)
    ensures s.openingBalance == opening
    ensures s.totalIncome == TotalIncome(rows) && s.totalExpense == TotalExpense(rows)
    ensures s.closingBalance == s.openingBalance + s.totalIncome - s.totalExpense
    ensures s.closingBalance == opening + SurplusOf(rows)
  {
    Summary(PeriodLabel(period), opening, TotalIncome(rows), TotalExpense(rows), ClosingBalance(opening, rows))
  }

  /** Everything app.py derives from one upload. */
  datatype Report = Report(
    ledger: seq<Row>,
    summary: Summary,
    incomeByCategory: seq<Entry>,
    expenseByCategory: seq<Entry>,
    verdict: Verdict)

  /** One run of app.py on an uploaded table: refused exactly when the header
      is; otherwise the ledger, the summary, both per-category tables and the
      analysis, consistent with one another. */
  function Run(t: Table, parse: Parser, opening: nat, period: string): (r: Result<Report, Failure>)
    ensures r.Failure? <==> Resolve(t.header).Failure?
    ensures r.Failure? ==> r.error == Resolve(t.header).error
    ensures r.Success? ==>
              var rep := r.value;
              && Normalise(t, parse) == Success(rep.ledger)
              && rep.summary == Summarise(rep.ledger, opening, period)
              && rep.incomeByCategory == Breakdown(rep.ledger, Income)
              && rep.expenseByCategory == Breakdown(rep.ledger, Expense)
              && rep.verdict == Classify(SurplusOf(rep.ledger), rep.summary.closingBalance)
              && rep.summary.period != ""
              && (period != "" ==> rep.summary.period == period)
              && rep.summary.openingBalance == opening
              && rep.summary.totalIncome == TotalIncome(rep.ledger)
              && rep.summary.totalExpense == TotalExpense(rep.ledger)
              && rep.summary.closingBalance == opening + rep.summary.totalIncome - rep.summary.totalExpense
              && SumTotals(rep.incomeByCategory) == rep.summary.totalIncome
              && SumTotals(rep.expenseByCategory) == rep.summary.totalExpense
              && SortedDesc(rep.incomeByCategory) && SortedDesc(rep.expenseByCategory)
              && (rep.verdict.InSurplus? <==> rep.summary.closingBalance > opening)
              && (rep.verdict.InDeficit? <==> rep.summary.closingBalance < opening)
              && (rep.verdict.InDeficit? ==> rep.verdict.shortfall == rep.summary.totalExpense - rep.summary.totalIncome)
  {
    match Normalise(t, parse)
    case Failure(e) => Failure(e)
    case Success(rows) =>
      var s := Summarise(rows, opening, period);
      Success(Report(rows, s, Breakdown(rows, Income), Breakdown(rows, Expense),
                     Classify(SurplusOf(rows), s.closingBalance)))
  }

  /** A row whose kind is neither "income" nor "expense", anywhere in any
      ledger, changes neither total nor the closing balance: it is not
      counted as an expense. */
  lemma UnknownKindAnywhere(rows: seq<Row>, i: nat, opening: int)
    requires i < |rows| && rows[i].kind != Income && rows[i].kind != Expense
    ensures TotalIncome(rows) == TotalIncome(rows[..i] + rows[i + 1..])
    ensures TotalExpense(rows) == TotalExpense(rows[..i] + rows[i + 1..])
    ensures ClosingBalance(opening, rows) == ClosingBalance(opening, rows[..i] + rows[i + 1..])
  {
    RowContribution(rows, i, Income);
    RowContribution(rows, i, Expense);
  }

  /** A row whose kind is neither "income" nor "expense" (here "transfer")
      changes neither total: it is not counted as an expense. */
  lemma UnknownKindCountsNowhere(date: Cell)
    ensures var rows := [Row(date, "income", "infaq", 5000000), Row(date, "transfer", "kas", 700000)];
            && TotalIncome(rows) == 5000000
            && TotalExpense(rows) == 0
            && Summarise(rows, 0, "").closingBalance == 5000000
  {
    var rows := [Row(date, "income", "infaq", 5000000), Row(date, "transfer", "kas", 700000)];
    assert "transfer" != Income && "transfer" != Expense && Income != Expense;
    assert OfKind(rows[1..], Income) == [];
    assert OfKind(rows[1..], Expense) == [];
    assert OfKind(rows, Income) == [rows[0]];
    assert OfKind(rows, Expense) == [];
    assert SumAmounts([rows[0]]) == 5000000;
  }

  /** A two-row ledger with one income of 5000000 and one expense of 900000,
      from an opening balance of 0, closes at 4100000 in surplus. */
  lemma TwoRowScenario(date: Cell)
    ensures var rows := [Row(date, "income", "infaq", 5000000), Row(date, "expense", "listrik", 900000)];
            var s := Summarise(rows, 0, "2025-11");
            && s.totalIncome == 5000000 && s.totalExpense == 900000 && s.closingBalance == 4100000
            && s.period == "2025-11"
            && Classify(SurplusOf(rows), s.closingBalance) == InSurplus(4100000, 4100000)
  {
    var rows := [Row(date, "income", "infaq", 5000000), Row(date, "expense", "listrik", 900000)];
    assert Income != Expense;
    assert OfKind(rows[2..], Income) == [] && OfKind(rows[2..], Expense) == [];
    assert OfKind(rows[1..], Income) == [];
    assert OfKind(rows[1..], Expense) == [rows[1]];
    assert OfKind(rows, Income) == [rows[0]];
    assert OfKind(rows, Expense) == [rows[1]];
    assert SumAmounts([rows[0]]) == 5000000;
    assert SumAmounts([rows[1]]) == 900000;
  }
}
