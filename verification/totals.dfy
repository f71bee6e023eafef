/** The two totals of app.py:60-61: the sums of `Jumlah` over the rows whose
    normalised `Jenis` is exactly "income", and exactly "expense". A row of any
    other kind is in neither sum; nothing reclassifies it.
 */
module Totals {
  import opened Ledger

  const Income: string := "income"
  const Expense: string := "expense"

  /** The sum of the amounts of `rows`. */
  function SumAmounts(rows: seq<Row>): int {
    if |rows| == 0 then 0 else rows[0].amount + SumAmounts(rows[1..])
  }

  /** The rows whose kind is exactly `kind`, in ledger order:
      `df[df["Jenis"] == kind]`. */
  function OfKind(rows: seq<Row>, kind: string): (r: seq<Row>)
    ensures |r| <= |rows|
    ensures forall x :: x in r <==> x in rows && x.kind == kind
    ensures forall x :: multiset(r)[x] == if x.kind == kind then multiset(rows)[x] else 0
  {
    if |rows| == 0 then []
    else
      assert rows == [rows[0]] + rows[1..];
      (if rows[0].kind == kind then [rows[0]] else []) + OfKind(rows[1..], kind)
  }

  /** The rows whose kind is neither "income" nor "expense". */
  function Unclassified(rows: seq<Row>): (r: seq<Row>)
    ensures forall x :: x in r <==> x in rows && x.kind != Income && x.kind != Expense
    ensures forall x :: multiset(r)[x] == if x.kind != Income && x.kind != Expense then multiset(rows)[x] else 0
  {
    if |rows| == 0 then []
    else
      assert rows == [rows[0]] + rows[1..];
      (if rows[0].kind != Income && rows[0].kind != Expense then [rows[0]] else [])
      + Unclassified(rows[1..])
  }

  /** The sum of the amounts of the rows of one kind. */
  function TotalOf(rows: seq<Row>, kind: string): int {
    SumAmounts(OfKind(rows, kind))
  }

  /** `total_income` (app.py:60): 0 for a ledger without income rows, the sum
      of all amounts for a ledger of income rows only. */
  function TotalIncome(rows: seq<Row>): (t: int)
    ensures (forall i :: 0 <= i < |rows| ==> rows[i].kind != Income) ==> t == 0
    ensures (forall i :: 0 <= i < |rows| ==> rows[i].kind == Income) ==> t == SumAmounts(rows)
  {
    TotalOfNone(rows, Income);
    TotalOfAll(rows, Income);
    TotalOf(rows, Income)
  }

  /** `total_expense` (app.py:61): 0 for a ledger without expense rows, the
      sum of all amounts for a ledger of expense rows only. */
  function TotalExpense(rows: seq<Row>): (t: int)
    ensures (forall i :: 0 <= i < |rows| ==> rows[i].kind != Expense) ==> t == 0
    ensures (forall i :: 0 <= i < |rows| ==> rows[i].kind == Expense) ==> t == SumAmounts(rows)
  {
    TotalOfNone(rows, Expense);
    TotalOfAll(rows, Expense);
    TotalOf(rows, Expense)
  }

  /** The first row of a ledger adds its amount to the total of its own kind
      and to no other. */
  lemma TotalOfCons(rows: seq<Row>, kind: string)
    requires |rows| > 0
    ensures TotalOf(rows, kind) == (if rows[0].kind == kind then rows[0].amount else 0) + TotalOf(rows[1..], kind)
  {
    var sel := OfKind(rows[1..], kind);
    if rows[0].kind == kind {
      assert OfKind(rows, kind) == [rows[0]] + sel;
      assert ([rows[0]] + sel)[1..] == sel;
    } else {
      assert OfKind(rows, kind) == sel;
    }
  }

  /** A ledger without rows of `kind` has a total of 0 for it. */
  lemma {:induction false} TotalOfNone(rows: seq<Row>, kind: string)
    ensures (forall i :: 0 <= i < |rows| ==> rows[i].kind != kind) ==> TotalOf(rows, kind) == 0
  {
    if |rows| > 0 && forall i :: 0 <= i < |rows| ==> rows[i].kind != kind {
      assert rows[0].kind != kind;
      assert forall i :: 0 <= i < |rows[1..]| ==> rows[1..][i].kind != kind;
      TotalOfNone(rows[1..], kind);
      TotalOfCons(rows, kind);
    }
  }

  /** A ledger of rows of `kind` only has all its amounts in that total. */
  lemma {:induction false} TotalOfAll(rows: seq<Row>, kind: string)
    ensures (forall i :: 0 <= i < |rows| ==> rows[i].kind == kind) ==> TotalOf(rows, kind) == SumAmounts(rows)
  {
    if |rows| > 0 && forall i :: 0 <= i < |rows| ==> rows[i].kind == kind {
      assert rows[0].kind == kind;
      assert forall i :: 0 <= i < |rows[1..]| ==> rows[1..][i].kind == kind;
      TotalOfAll(rows[1..], kind);
      TotalOfCons(rows, kind);
      assert SumAmounts(rows) == rows[0].amount + SumAmounts(rows[1..]);
    } else if |rows| == 0 {
      assert OfKind(rows, kind) == [];
    }
  }

  /** The sum of two ledgers' amounts is the sum over their concatenation. */
  lemma {:induction false} SumConcat(a: seq<Row>, b: seq<Row>)
    ensures SumAmounts(a + b) == SumAmounts(a) + SumAmounts(b)
  {
    if |a| > 0 {
      assert (a + b)[1..] == a[1..] + b;
      SumConcat(a[1..], b);
    } else {
      assert a + b == b;
    }
  }

  /** Selecting by kind distributes over concatenation. */
  lemma {:induction false} OfKindConcat(a: seq<Row>, b: seq<Row>, kind: string)
    ensures OfKind(a + b, kind) == OfKind(a, kind) + OfKind(b, kind)
  {
    if |a| > 0 {
      assert (a + b)[1..] == a[1..] + b;
      OfKindConcat(a[1..], b, kind);
    } else {
      assert a + b == b;
    }
  }

  /** A row adds its amount to the total of a kind exactly when its own kind is
      that kind: taking row `i` out of the ledger changes the total by its
      amount if its kind matches and leaves it unchanged otherwise. */
  lemma RowContribution(rows: seq<Row>, i: nat, kind: string)
    requires i < |rows|
    ensures TotalOf(rows, kind)
            == TotalOf(rows[..i] + rows[i + 1..], kind) + (if rows[i].kind == kind then rows[i].amount else 0)
  {
    var before, after := rows[..i], rows[i + 1..];
    assert rows == before + ([rows[i]] + after);
    OfKindConcat(before, [rows[i]] + after, kind);
    OfKindConcat([rows[i]], after, kind);
    OfKindConcat(before, after, kind);
    assert OfKind([rows[i]], kind) == if rows[i].kind == kind then [rows[i]] else [];
    SumConcat(OfKind(before, kind), OfKind([rows[i]] + after, kind));
    SumConcat(OfKind([rows[i]], kind), OfKind(after, kind));
    SumConcat(OfKind(before, kind), OfKind(after, kind));
  }

  /** Amounts are not clamped: a negative amount in a row of `kind` makes
      that kind's total smaller than it is without the row. */
  lemma NegativeLowersTotal(rows: seq<Row>, i: nat, kind: string)
    requires i < |rows| && rows[i].kind == kind && rows[i].amount < 0
    ensures TotalOf(rows, kind) < TotalOf(rows[..i] + rows[i + 1..], kind)
  {
    RowContribution(rows, i, kind);
  }

  /** Every amount of the ledger is counted once: in the income total, in the
      expense total, or among the unclassified rows, and in no two of them. */
  lemma {:induction false} Partition(rows: seq<Row>)
    ensures TotalIncome(rows) + TotalExpense(rows) + SumAmounts(Unclassified(rows)) == SumAmounts(rows)
  {
    if |rows| > 0 {
      Partition(rows[1..]);
      var r := rows[0];
      var inc := if r.kind == Income then [r] else [];
      var exp := if r.kind == Expense then [r] else [];
      var oth := if r.kind != Income && r.kind != Expense then [r] else [];
      SumConcat(inc, OfKind(rows[1..], Income));
      SumConcat(exp, OfKind(rows[1..], Expense));
      SumConcat(oth, Unclassified(rows[1..]));
    }
  }
}
