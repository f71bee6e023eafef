/** The per-category tables of app.py:76 and app.py:80: the rows of one kind
    grouped by `Kategori`, each group's amounts summed, and the groups ordered
    by their sums, largest first.

pandas sorts with an unstable algorithm, so the order of groups with equal
sums is not determined; the model groups the rows and then insertion-sorts the
groups, which yields one of the admissible orders, and its contract fixes no
order among equal sums.
 */
module ByCategory {
  import opened Ledger
  import opened Totals

  /** One line of a per-category table. */
  datatype Entry = Entry(category: string, total: int)

  predicate Distinct<T(==)>(s: seq<T>) {
    forall i, j :: 0 <= i < j < |s| ==> s[i] != s[j]
  }

  /** A sequence with a new first element is distinct exactly when the rest
      is and does not hold that element. */
  lemma DistinctCons<T>(x: T, s: seq<T>)
    ensures Distinct([x] + s) <==> x !in s && Distinct(s)
  {
    if x !in s && Distinct(s) {
      forall i, j | 0 <= i < j < |[x] + s|
        ensures ([x] + s)[i] != ([x] + s)[j]
      {
        if i > 0 {
          assert ([x] + s)[i] == s[i - 1];
        }
      }
    }
    if Distinct([x] + s) {
      forall i | 0 <= i < |s|
        ensures s[i] != x
      {
        assert ([x] + s)[0] == x && ([x] + s)[i + 1] == s[i];
      }
      forall i, j | 0 <= i < j < |s|
        ensures s[i] != s[j]
      {
        assert ([x] + s)[i + 1] == s[i] && ([x] + s)[j + 1] == s[j];
      }
    }
  }

  /** The categories of a table, in its order. */
  function Names(es: seq<Entry>): (r: seq<string>)
    ensures |r| == |es|
    ensures forall i :: 0 <= i < |es| ==> r[i] == es[i].category
  {
    if |es| == 0 then [] else [es[0].category] + Names(es[1..])
  }

  /** The categories of a ledger's rows, in ledger order, repeats included:
      what `groupby` groups, where `Names` is what the grouped table shows. */
  function Categories(rows: seq<Row>): (r: seq<string>)
    ensures |r| == |rows|
    ensures forall i :: 0 <= i < |rows| ==> r[i] == rows[i].category
  {
    if |rows| == 0 then [] else [rows[0].category] + Categories(rows[1..])
  }

  /** The sum of a table's totals. */
  function SumTotals(es: seq<Entry>): int {
    if |es| == 0 then 0 else es[0].total + SumTotals(es[1..])
  }

  /** The total a table shows for `c`; 0 when `c` has no line. */
  function TotalFor(es: seq<Entry>, c: string): int {
    if |es| == 0 then 0
    else if es[0].category == c then es[0].total
    else TotalFor(es[1..], c)
  }

  /** The sum of the amounts of the rows of category `c`. */
  function CategorySum(rows: seq<Row>, c: string): int {
    if |rows| == 0 then 0
    else (if rows[0].category == c then rows[0].amount else 0) + CategorySum(rows[1..], c)
  }

  /** The sum of the amounts of the rows of kind `kind` and category `c`,
      straight from the ledger. */
  function KindCategoryTotal(rows: seq<Row>, kind: string, c: string): int {
    if |rows| == 0 then 0
    else
      (if rows[0].kind == kind && rows[0].category == c then rows[0].amount else 0)
      + KindCategoryTotal(rows[1..], kind, c)
  }

  /** Some row of the ledger has kind `kind` and category `c`. */
  predicate Occurs(rows: seq<Row>, kind: string, c: string) {
    exists i :: 0 <= i < |rows| && rows[i].kind == kind && rows[i].category == c
  }

  /** One row's amount added to the table: to the line of its category, or
      on a new line when the category has none yet. */
  function Add(es: seq<Entry>, c: string, a: int): (r: seq<Entry>)
    ensures forall d :: d in Names(r) <==> d in Names(es) || d == c
    ensures Distinct(Names(es)) ==> Distinct(Names(r))
    ensures forall d :: TotalFor(r, d) == TotalFor(es, d) + (if d == c then a else 0)
    ensures SumTotals(r) == SumTotals(es) + a
  {
    if |es| == 0 then [Entry(c, a)]
    else if es[0].category == c then
      var r := [Entry(c, es[0].total + a)] + es[1..];
      assert Names(r) == [c] + Names(es[1..]);
      DistinctCons(c, Names(es[1..]));
      DistinctCons(es[0].category, Names(es[1..]));
      r
    else
      var rest := Add(es[1..], c, a);
      var r := [es[0]] + rest;
      assert Names(r) == [es[0].category] + Names(rest);
      DistinctCons(es[0].category, Names(es[1..]));
      DistinctCons(es[0].category, Names(rest));
      r
  }

  /** `groupby("Kategori")["Jumlah"].sum()`: one line per category of
      `rows`, carrying the sum of that category's amounts. */
  function Group(rows: seq<Row>): (g: seq<Entry>)
    ensures Distinct(Names(g))
    ensures forall c :: c in Names(g) <==> c in Categories(rows)
    ensures forall c :: TotalFor(g, c) == CategorySum(rows, c)
    ensures SumTotals(g) == SumAmounts(rows)
  {
    if |rows| == 0 then []
    else Add(Group(rows[1..]), rows[0].category, rows[0].amount)
  }

  /** In a table with one line per category, `TotalFor` reads each line's total. */
  lemma {:induction false} TotalForLine(es: seq<Entry>, i: nat)
    requires Distinct(Names(es)) && i < |es|
    ensures TotalFor(es, es[i].category) == es[i].total
  {
    if i > 0 {
      DistinctCons(es[0].category, Names(es[1..]));
      assert Names(es) == [es[0].category] + Names(es[1..]);
      assert es[0].category != es[i].category by {
        assert Names(es)[0] != Names(es)[i];
      }
      TotalForLine(es[1..], i - 1);
    }
  }

  predicate SortedDesc(es: seq<Entry>) {
    forall i, j :: 0 <= i < j < |es| ==> es[i].total >= es[j].total
  }

  /** A line followed by a sorted table is sorted when it is not smaller than
      the table's first line. */
  lemma SortedCons(x: Entry, s: seq<Entry>)
    requires SortedDesc(s) && (|s| == 0 || x.total >= s[0].total)
    ensures SortedDesc([x] + s)
  {
    var r := [x] + s;
    forall i, j | 0 <= i < j < |r| ensures r[i].total >= r[j].total {
      if i == 0 {
        assert r[j] == s[j - 1];
        assert s[0].total >= s[j - 1].total || j == 1;
      } else {
        assert r[i] == s[i - 1] && r[j] == s[j - 1];
      }
    }
  }

  /** The tail of a sorted table is sorted and not above its first line. */
  lemma SortedTail(es: seq<Entry>)
    requires SortedDesc(es) && |es| > 0
    ensures SortedDesc(es[1..])
    ensures |es| > 1 ==> es[0].total >= es[1].total
  {
    forall i, j | 0 <= i < j < |es[1..]| ensures es[1..][i].total >= es[1..][j].total {
      assert es[1..][i] == es[i + 1] && es[1..][j] == es[j + 1];
    }
  }

  /** `e` inserted into a table before the first line with a smaller total. */
  function Insert(e: Entry, es: seq<Entry>): (r: seq<Entry>)
    ensures |r| == |es| + 1
    ensures multiset(r) == multiset(es) + multiset{e}
  {
    if |es| == 0 || e.total >= es[0].total then [e] + es
    else
      assert es == [es[0]] + es[1..];
      [es[0]] + Insert(e, es[1..])
  }

  /** Inserting into a sorted table keeps it sorted; the first line is then
      either the new line or the old first line. */
  lemma {:induction false} InsertSorted(e: Entry, es: seq<Entry>)
    requires SortedDesc(es)
    ensures SortedDesc(Insert(e, es))
    ensures Insert(e, es)[0] == e || (|es| > 0 && Insert(e, es)[0] == es[0])
  {
    if |es| == 0 || e.total >= es[0].total {
      SortedCons(e, es);
    } else {
      SortedTail(es);
      InsertSorted(e, es[1..]);
      SortedCons(es[0], Insert(e, es[1..]));
    }
  }

  /** Inserting a line adds its category to the categories shown. */
  lemma {:induction false} InsertNames(e: Entry, es: seq<Entry>)
    ensures forall d :: d in Names(Insert(e, es)) <==> d in Names(es) || d == e.category
  {
    if |es| == 0 || e.total >= es[0].total {
      assert Names([e] + es) == [e.category] + Names(es);
    } else {
      InsertNames(e, es[1..]);
      assert Names(es) == [es[0].category] + Names(es[1..]);
      assert Names([es[0]] + Insert(e, es[1..])) == [es[0].category] + Names(Insert(e, es[1..]));
    }
  }

  /** Inserting a line adds its total to the sum of the totals. */
  lemma {:induction false} InsertSum(e: Entry, es: seq<Entry>)
    ensures SumTotals(Insert(e, es)) == SumTotals(es) + e.total
  {
    if |es| > 0 && e.total < es[0].total {
      InsertSum(e, es[1..]);
    }
  }

  /** Inserting a line of a new category keeps the categories distinct. */
  lemma {:induction false} InsertDistinct(e: Entry, es: seq<Entry>)
    requires Distinct(Names(es)) && e.category !in Names(es)
    ensures Distinct(Names(Insert(e, es)))
  {
    if |es| == 0 || e.total >= es[0].total {
      assert Names([e] + es) == [e.category] + Names(es);
      DistinctCons(e.category, Names(es));
    } else {
      var rest := Insert(e, es[1..]);
      assert Names(es) == [es[0].category] + Names(es[1..]);
      DistinctCons(es[0].category, Names(es[1..]));
      InsertDistinct(e, es[1..]);
      InsertNames(e, es[1..]);
      assert Names([es[0]] + rest) == [es[0].category] + Names(rest);
      DistinctCons(es[0].category, Names(rest));
    }
  }

  /** `sort_values(ascending=False)`: a permutation of the lines. */
  function SortDesc(es: seq<Entry>): (r: seq<Entry>)
    ensures |r| == |es|
    ensures multiset(r) == multiset(es)
  {
    if |es| == 0 then []
    else
      assert es == [es[0]] + es[1..];
      Insert(es[0], SortDesc(es[1..]))
  }

  /** The sorted table is ordered by non-increasing total and shows the same
      categories, with the same sum, as the table it sorts. */
  lemma {:induction false} SortTable(es: seq<Entry>)
    ensures SortedDesc(SortDesc(es))
    ensures forall d :: d in Names(SortDesc(es)) <==> d in Names(es)
    ensures SumTotals(SortDesc(es)) == SumTotals(es)
  {
    if |es| > 0 {
      SortTable(es[1..]);
      InsertSorted(es[0], SortDesc(es[1..]));
      InsertNames(es[0], SortDesc(es[1..]));
      InsertSum(es[0], SortDesc(es[1..]));
      assert Names(es) == [es[0].category] + Names(es[1..]);
    }
  }

  /** Sorting a table with one line per category keeps one line per category. */
  lemma {:induction false} SortDistinct(es: seq<Entry>)
    requires Distinct(Names(es))
    ensures Distinct(Names(SortDesc(es)))
  {
    if |es| > 0 {
      assert Names(es) == [es[0].category] + Names(es[1..]);
      DistinctCons(es[0].category, Names(es[1..]));
      SortDistinct(es[1..]);
      SortTable(es[1..]);
      InsertDistinct(es[0], SortDesc(es[1..]));
    }
  }

  /** A category occurs with a kind in a non-empty ledger exactly when it
      occurs with it in the first row or in the rest. */
  lemma OccursCons(rows: seq<Row>, kind: string, c: string)
    requires |rows| > 0
    ensures Occurs(rows, kind, c)
            <==> (rows[0].kind == kind && rows[0].category == c) || Occurs(rows[1..], kind, c)
  {
    if Occurs(rows, kind, c) && !(rows[0].kind == kind && rows[0].category == c) {
      var j :| 0 <= j < |rows| && rows[j].kind == kind && rows[j].category == c;
      assert rows[1..][j - 1] == rows[j];
    }
    if Occurs(rows[1..], kind, c) {
      var j :| 0 <= j < |rows[1..]| && rows[1..][j].kind == kind && rows[1..][j].category == c;
      assert rows[j + 1] == rows[1..][j];
    }
  }

  /** The categories of the rows of one kind are those that occur with that kind. */
  lemma {:induction false} CategoriesOfKind(rows: seq<Row>, kind: string, c: string)
    ensures c in Categories(OfKind(rows, kind)) <==> Occurs(rows, kind, c)
  {
    if |rows| > 0 {
      CategoriesOfKind(rows[1..], kind, c);
      OccursCons(rows, kind, c);
      var sel := OfKind(rows[1..], kind);
      if rows[0].kind == kind {
        assert OfKind(rows, kind) == [rows[0]] + sel;
        assert ([rows[0]] + sel)[1..] == sel;
        assert Categories([rows[0]] + sel) == [rows[0].category] + Categories(sel);
      } else {
        assert OfKind(rows, kind) == sel;
      }
    }
  }

  /** Summing a category over the rows of one kind is summing the rows of
      that kind and category over the whole ledger. */
  lemma {:induction false} CategorySumOfKind(rows: seq<Row>, kind: string, c: string)
    ensures CategorySum(OfKind(rows, kind), c) == KindCategoryTotal(rows, kind, c)
  {
    if |rows| > 0 {
      CategorySumOfKind(rows[1..], kind, c);
      var sel := OfKind(rows[1..], kind);
      if rows[0].kind == kind {
        assert OfKind(rows, kind) == [rows[0]] + sel;
        assert ([rows[0]] + sel)[1..] == sel;
        assert CategorySum([rows[0]] + sel, c)
               == (if rows[0].category == c then rows[0].amount else 0) + CategorySum(sel, c);
      } else {
        assert OfKind(rows, kind) == sel;
      }
    }
  }

  /** The sorted table shows exactly the categories that occur with `kind`. */
  lemma BreakdownNames(rows: seq<Row>, kind: string, r: seq<Entry>)
    requires forall c :: c in Names(r) <==> c in Names(Group(OfKind(rows, kind)))
    ensures forall c :: c in Names(r) <==> Occurs(rows, kind, c)
  {
    forall c ensures c in Names(r) <==> Occurs(rows, kind, c) {
      CategoriesOfKind(rows, kind, c);
    }
  }

  /** Each line of the sorted table carries its category's total of `kind`. */
  lemma BreakdownLines(rows: seq<Row>, kind: string, r: seq<Entry>)
    requires multiset(r) == multiset(Group(OfKind(rows, kind)))
    ensures forall i :: 0 <= i < |r| ==> r[i].total == KindCategoryTotal(rows, kind, r[i].category)
  {
    var g := Group(OfKind(rows, kind));
    forall i | 0 <= i < |r|
      ensures r[i].total == KindCategoryTotal(rows, kind, r[i].category)
    {
      assert r[i] in multiset(g);
      var j :| 0 <= j < |g| && g[j] == r[i];
      TotalForLine(g, j);
      CategorySumOfKind(rows, kind, r[i].category);
    }
  }

  /** The per-category table of one kind (app.py:76 with "income", app.py:80
      with "expense"): one line for each category that occurs with that kind
      and for no other, each line carrying the sum of that category's amounts
      of that kind, lines ordered by non-increasing total, and the totals
      adding up to the kind's overall total. */
  function Breakdown(rows: seq<Row>, kind: string): (r: seq<Entry>)
    ensures SortedDesc(r)
    ensures Distinct(Names(r))
    ensures forall c :: c in Names(r) <==> Occurs(rows, kind, c)
    ensures forall i :: 0 <= i < |r| ==> r[i].total == KindCategoryTotal(rows, kind, r[i].category)
    ensures SumTotals(r) == TotalOf(rows, kind)
  {
    var g := Group(OfKind(rows, kind));
    var r := SortDesc(g);
    SortTable(g);
    SortDistinct(g);
    BreakdownNames(rows, kind, r);
    BreakdownLines(rows, kind, r);
    r
  }

  /** The per-category income totals add up to `total_income` and the
      per-category expense totals to `total_expense`. */
  lemma BreakdownsAddUp(rows: seq<Row>)
    ensures SumTotals(Breakdown(rows, Income)) == TotalIncome(rows)
    ensures SumTotals(Breakdown(rows, Expense)) == TotalExpense(rows)
  {
  }
}
