# Mosque ledger report — a Dafny model

`app.py` is a Streamlit page that reads a mosque's transaction spreadsheet and
prints a financial report. This project models its computational core:

- the required-column check on `Tanggal`, `Jenis`, `Kategori` and `Jumlah`;
- the normalisation of the header and of the three converted columns;
- the income and expense totals, the closing balance and the surplus;
- the per-category income and expense tables;
- the three-way surplus/deficit/neutral analysis;
- the summary record that is exported.

Modules, in dependency order:

| file | module | models |
|---|---|---|
| wrappers.dfy | `Wrappers` | `Option` and `Result` |
| text.dfy | `Text` | Python's `str.strip()` and `str.lower()` |
| columns.dfy | `Columns` | the column check (lines 33-37) and the stripped header (line 41) |
| ledger.dfy | `Ledger` | cells, rows and the conversions of lines 48-52 |
| totals.dfy | `Totals` | `total_income` and `total_expense` (lines 60-61) |
| breakdown.dfy | `ByCategory` | group by `Kategori`, sum, sort descending (lines 76, 80) |
| report.dfy | `Reporting` | balances, the analysis, the summary, the whole run |

An uploaded sheet is a `Table`: a header of column names and rows of cells.
A cell is text, a number, or empty (pandas' NaN). `Normalise` turns the table
into a ledger of `Row`s, or reports why the header was refused. `Run` turns
the table into a `Report`.

`app.py` does none of the following, and neither does the model:

- A `Jenis` value other than `income` or `expense` is not turned into
  `expense`. Such a row, wherever it stands in any ledger, changes neither total nor the
  closing balance (`Reporting.UnknownKindAnywhere`).
- Amounts are not clamped at zero. A number cell keeps its sign (`Ledger.Amount`), and a
  negative amount lowers the total of its kind (`Totals.NegativeLowersTotal`).
- There is no thousands-separator handling. `pd.to_numeric` with
  `errors="coerce"` rejects a text such as `5.000.000`, so that row's amount is 0.
  In the model, a parser standing for `pd.to_numeric` returns `None` for such a text,
  and `Ledger.Amount` then gives 0.
- There is no duplicate-row or outlier detection, so neither is modelled.
- The column check runs before the header is stripped. A sheet whose amount
  column is headed ` Jumlah` is refused (`Columns.CheckPrecedesStrip`).

## Model

| member | source | states |
|---|---|---|
| Columns.MissingFrom | app.py:34 | a name is reported exactly when it is wanted and absent from the header, in the order of the wanted list |
| Columns.Missing | app.py:33-37 | the missing list holds exactly the required names absent from the header, in required order; it is empty exactly when all four are present |
| Columns.FirstAmbiguous | app.py:48-52 | reports a converted column whose stripped name occurs more than once, checking Jenis, Jumlah, Kategori in the order the lines convert them; none exactly when each occurs at most once |
| Columns.StripAll | app.py:41 | the stripped header has one name per column, each the strip of the heading at the same position, with no whitespace at either end |
| Columns.Resolve | app.py:33-41 | the header is refused with the missing names exactly when the check fails; otherwise it is refused as ambiguous on the first doubled column in the order Jenis, Jumlah, Kategori, or accepted exactly when each converted column occurs once after stripping, with every position naming its column and the date position the first Tanggal |
| Columns.RequiredSurvivesStrip | app.py:34-41 | a required name present verbatim is still present after the header is stripped |
| Columns.CheckPrecedesStrip | app.py:34-41 | a header naming ` Jumlah` but not `Jumlah` is refused with Jumlah missing, although stripping would have produced `Jumlah` |
| Columns.DuplicateAfterStrip | app.py:41-48 | two headings that both strip to `Jenis` make the run fail on that column even though the check passed |
| Columns.PaddedJenis | app.py:41 | the headings `Jenis` and ` Jenis` both strip to `Jenis`, so a header holding both is one that stripping makes ambiguous |
| Columns.ResolveRequired | app.py:33-41 | the header of exactly the four required names is accepted with the columns at positions 0 to 3 |
| Text.Strip | app.py:41 | the result is the input with maximal runs of whitespace removed at both ends: a window of the input, with no space at either end and only spaces outside it |
| Text.StripUnique | app.py:41 | any two results of stripping the same text are equal, so the window characterisation defines strip |
| Text.StripIdempotent | app.py:52 | stripping twice is stripping once |
| Text.Lower | app.py:48 | lower-casing keeps the length, leaves every character that is not a capital as it is, moves each capital to its small letter 32 code points on, and leaves no capital |
| Text.StripLowerCommute | app.py:48 | stripping then lower-casing equals lower-casing then stripping |
| Ledger.Decimal | app.py:48 | an integer is rendered as the canonical numeral `str(n)` gives: a minus sign exactly when negative, no leading zeros, and digits that spell exactly that integer |
| Ledger.DecimalInjective | app.py:48-52 | two different integers never render to the same text, so numeric categories do not merge |
| Ledger.Rendered | app.py:48-52 | `astype(str)` keeps text as it is, writes NaN as `nan`, and writes a number as its canonical numeral (`Ledger.Decimal`) |
| Ledger.KindText | app.py:48 | the normalised kind has no surrounding whitespace and no upper-case letter, and equals the lower-cased input stripped |
| Ledger.KindTextFixed | app.py:48 | a kind already without surrounding whitespace or upper case is left unchanged |
| Ledger.KindTextIdempotent | app.py:48 | normalising a kind twice is normalising it once |
| Ledger.CategoryText | app.py:52 | the normalised category is the strip of its text |
| Ledger.CategoryTextIdempotent | app.py:52 | normalising a category twice is normalising it once |
| Ledger.Amount | app.py:50 | a NaN cell and a text the parser rejects give 0; a parsed text gives its value; a number gives itself |
| Ledger.NormaliseRow | app.py:48-52 | the row keeps the date cell, takes the stripped lower-cased text of the kind cell, the strip of the category cell's text and the parsed amount, all from the columns of the layout; the row is canonical |
| Ledger.NormaliseRows | app.py:48-52 | ledger row i is table row i normalised, for every i, and no other rows |
| Ledger.Normalise | app.py:33-52 | fails exactly when the header is refused, with the same error; otherwise one canonical row per table row, each read from the resolved columns |
| Ledger.Export | app.py:106 | the transactions sheet written from the ledger is headed by the four required columns and has one row per ledger row |
| Ledger.RenormaliseRow | app.py:48-52 | a canonical row read back from its exported cells is the same row |
| Ledger.RenormaliseExport | app.py:33-52 | a canonical ledger exported and normalised again is the same ledger, whatever the amount parser |
| Ledger.NormaliseIdempotent | app.py:33-52 | normalising the export of a normalised table gives the same ledger |
| Totals.OfKind | app.py:60-61 | the selected rows are the ledger's rows of that kind, each as often as it occurs in the ledger, and no row of another kind |
| Totals.Unclassified | app.py:60-61 | the rows left out of both totals are those whose kind is neither income nor expense, each as often as it occurs in the ledger |
| Totals.TotalIncome | app.py:60 | `total_income` is 0 for a ledger without income rows and the sum of all amounts for a ledger of income rows only; Totals.RowContribution and Totals.Partition state each row's share |
| Totals.TotalExpense | app.py:61 | `total_expense` is 0 for a ledger without expense rows and the sum of all amounts for a ledger of expense rows only; Totals.RowContribution and Totals.Partition state each row's share |
| Totals.TotalOfCons | app.py:60-61 | the first row adds its amount to the total of its own kind and to no other |
| Totals.SumConcat | app.py:60-61 | the sum of two ledgers joined is the sum of their sums |
| Totals.RowContribution | app.py:60-61 | removing one row changes a kind's total by that row's amount if it has that kind, and by nothing otherwise |
| Totals.NegativeLowersTotal | app.py:50-61 | a row of a kind with a negative amount makes that kind's total smaller than without the row, since no amount is clamped |
| Totals.Partition | app.py:60-61 | income total plus expense total plus the amounts of unclassified rows is the sum of all amounts |
| ByCategory.Add | app.py:76 | adding a row to a grouped table adds its amount to its category's line, or opens one, and changes no other line |
| ByCategory.Group | app.py:76 | one line per category of the rows, no category twice, each line the sum of that category's amounts, and the lines adding up to the sum of the rows |
| ByCategory.Insert | app.py:76 | inserting a line adds it to the table's lines and to nothing else |
| ByCategory.InsertSorted | app.py:76 | inserting into a table sorted by decreasing total keeps it sorted |
| ByCategory.InsertDistinct | app.py:76 | inserting a line of a new category keeps one line per category |
| ByCategory.SortDesc | app.py:76 | sorting yields a permutation of the lines |
| ByCategory.SortTable | app.py:76 | the sorted table is ordered by non-increasing total, with the same categories and the same sum as before |
| ByCategory.SortDistinct | app.py:76 | sorting a table with one line per category keeps one line per category |
| ByCategory.CategoriesOfKind | app.py:76 | a category appears among the rows of a kind exactly when some row has that kind and that category |
| ByCategory.CategorySumOfKind | app.py:76 | a category's sum over the rows of a kind is the ledger's sum over rows of that kind and category |
| ByCategory.Breakdown | app.py:76-80 | a line for each category that occurs with the kind and no other, no category twice, each line that category's sum for the kind, ordered by non-increasing total, adding up to the kind's total |
| ByCategory.BreakdownsAddUp | app.py:60-80 | the income lines add up to the income total and the expense lines to the expense total |
| Reporting.SurplusOf | app.py:63 | the surplus is the ledger's net movement read row by row: income rows add, expense rows subtract, other rows do nothing |
| Reporting.SurplusIsNet | app.py:60-63 | income total less expense total equals that net movement for every ledger |
| Reporting.ClosingBalance | app.py:62-63 | the closing balance exceeds the opening balance by exactly the surplus |
| Reporting.Classify | app.py:85-90 | surplus exactly when positive, deficit exactly when negative, neutral exactly when zero; a deficit is reported by its absolute value |
| Reporting.VerdictTracksBalance | app.py:62-90 | surplus exactly when the closing balance exceeds the opening balance, deficit exactly when it is below it, by the reported shortfall |
| Reporting.PeriodLabel | app.py:95 | the period label is never empty: the entered label, or `not-set` when nothing was entered |
| Reporting.Summarise | app.py:94-100 | the summary carries the opening balance and both totals, and its closing balance satisfies the balance identity |
| Reporting.Run | app.py:33-100 | a run fails exactly when the header is refused, with the same error; otherwise the ledger is the normalised table, the summary is that ledger's summary with a non-empty period, the two category tables are that ledger's income and expense breakdowns, and the verdict classifies its surplus, a deficit being expense less income |
| Reporting.UnknownKindAnywhere | app.py:60-62 | in every ledger, removing a row whose kind is neither income nor expense changes neither total nor the closing balance |
| Reporting.UnknownKindCountsNowhere | app.py:60-62 | in the example ledger of an income of 5000000 and a `transfer` of 700000, income is 5000000, expense 0 and the closing balance from 0 is 5000000 |
| Reporting.TwoRowScenario | app.py:60-99 | income 5000000 and expense 900000 from an opening of 0 close at 4100000 with a surplus of 4100000 |

## Left out

- Reading the upload (lines 18-30) and the sheet-name fallback: file I/O. The model starts from the table that was read.
- The Streamlit widgets, metrics, tables and messages: presentation only. The opening balance (default 20000000) and the period are parameters.
- `pd.to_datetime` on `Tanggal` (lines 43-46): its failure only shows a warning. The date cell is carried through unchanged, and with duplicate `Tanggal` headings the first one is used.
- `pd.to_numeric(..., errors="coerce").astype(int)`: parsing text into numbers, including float truncation, is the parameter `Parser`. A number cell is modelled as an integer.
- Ledger.Amount: a `Jumlah` text such as `inf` or `1e400` reads as infinity. `fillna(0)` keeps it, and `astype(int)` at line 50 then raises and stops the run. The parser can only return a number or nothing, so the model has no such error.
- Ledger.Rendered: a number is rendered as an integer numeral. pandas holds a numeric column that also has an empty cell as floats, and `astype(str)` at lines 48 and 52 then writes `1` as `1.0`. The model does not track a column's type, so a numeric category `1` is `"1"` in the model and may be `"1.0"` in the program.
- Ledger.NormaliseIdempotent: holds for the model's `Export`, not for a spreadsheet round trip. A category of blanks strips to the empty text, which a spreadsheet stores as an empty cell that reads back as NaN, that is `nan`.
- Ledger.Export: writes only the four modelled columns. The sheet written at line 106 also keeps any other column of the upload, which a `Row` does not carry. The Excel encoding (`to_excel_bytes`, lines 103-110) and the download button are file I/O.
- Text.Lower: covers ASCII and Latin-1 upper-case letters only; Unicode case mappings beyond those are not modelled.
- Text.Strip: the whitespace set is Python's `str.isspace` for code points below U+3001; it is not derived from the Unicode database.
- Header names that are not text (for example numbers) make `c.strip()` raise. The model's header is text only.
- Totals.TotalIncome: sums are exact; the 64-bit wrap-around of `int64` sums is not modelled, because ledger amounts stay far below 2^63.
- Totals.TotalExpense: sums are exact; the 64-bit wrap-around of `int64` sums is not modelled, for the same reason.
- ByCategory.SortDesc: pandas' sort is unstable. The model's insertion sort picks one order among equal totals, and no contract fixes the order of such lines.
