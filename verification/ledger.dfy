/** The transaction table of app.py and its normalisation (app.py:40-52).

A table is a header and rows of cells. Once the required columns are found,
every row becomes a `Row`: the date cell is kept as it is, `Jenis` is rendered
as text, stripped and lower-cased, `Kategori` is rendered as text and stripped,
and `Jumlah` is read as an integer, with 0 for anything the parser rejects.
 */
module Ledger {
  import opened Wrappers
  import Text
  import opened Columns

  /** One spreadsheet cell as pandas holds it: text, a whole number, or NaN. */
  datatype Cell = Str(s: string) | Num(n: int) | Empty

  /** An uploaded table: its header as written and its rows, in file order. */
  datatype Table = Table(header: seq<string>, rows: seq<seq<Cell>>)

  /** A normalised transaction. */
  datatype Row = Row(date: Cell, kind: string, category: string, amount: int)

  /** `pd.to_numeric(..., errors="coerce")` followed by the integer cast, on a
      text cell: the number, or None where pandas would give NaN. */
  type Parser = string -> Option<int>

  /** The cell of a row at a column; rows shorter than the header read NaN in
      the missing places, as pandas pads them. */
  function CellAt(cells: seq<Cell>, i: nat): Cell {
    if i < |cells| then cells[i] else Empty
  }

  function DigitChar(d: nat): char
    requires d < 10
  {
    ('0' as int + d) as char
  }

  predicate IsDigit(c: char) {
    '0' <= c <= '9'
  }

  /** The value of one character read as a decimal digit. */
  function DigitValue(c: char): nat {
    if IsDigit(c) then c as int - '0' as int else 0
  }

  /** The number a run of decimal digits spells, most significant first. */
  function NumeralValue(s: string): nat
    decreases |s|
  {
    if |s| == 0 then 0 else 10 * NumeralValue(s[..|s| - 1]) + DigitValue(s[|s| - 1])
  }

  /** A decimal numeral: digits, with an optional minus sign in front. */
  predicate IsNumeral(s: string) {
    && |s| > 0
    && (forall k :: 0 <= k < |s| ==> IsDigit(s[k]) || (k == 0 && s[k] == '-'))
    && s != "-"
  }

  /** The integer a numeral spells. */
  function SignedValue(s: string): int {
    if |s| > 0 && s[0] == '-' then -(NumeralValue(s[1..]) as int) else NumeralValue(s)
  }

  /** The decimal digits of `n`, which spell `n`, without leading zeros. */
  function Digits(n: nat): (r: string)
    ensures |r| > 0 && forall k :: 0 <= k < |r| ==> IsDigit(r[k])
    ensures NumeralValue(r) == n
    ensures n > 0 ==> r[0] != '0'
    ensures |r| > 1 ==> r[0] != '0'
    decreases n
  {
    if n < 10 then [DigitChar(n)]
    else
      var r := Digits(n / 10) + [DigitChar(n % 10)];
      assert r[..|r| - 1] == Digits(n / 10);
      r
  }

  /** Python's `str(n)` for an integer: the canonical numeral that spells
      `n` (a minus sign exactly for a negative number, no leading zeros), so
      that different numbers are rendered differently. */
  function Decimal(n: int): (r: string)
    ensures IsNumeral(r) && Text.Trimmed(r)
    ensures SignedValue(r) == n
    ensures (r[0] == '-') == (n < 0)
    ensures var d := if n < 0 then r[1..] else r; |d| > 1 ==> d[0] != '0'
  {
    if n < 0 then
      var r := "-" + Digits(-n);
      assert r[1..] == Digits(-n);
      r
    else Digits(n)
  }

  /** Two numbers with the same rendering are the same number. */
  lemma DecimalInjective(a: int, b: int)
    requires Decimal(a) == Decimal(b)
    ensures a == b
  {
    assert SignedValue(Decimal(a)) == a;
  }

  /** `astype(str)`: the text of a cell; NaN becomes "nan". */
  function Rendered(c: Cell): (s: string)
    ensures c.Str? ==> s == c.s
    ensures c.Empty? ==> s == "nan"
    ensures c.Num? ==> IsNumeral(s) && SignedValue(s) == c.n
    ensures c.Num? ==> s == Decimal(c.n)
  {
    match c
    case Str(s) => s
    case Num(n) => Decimal(n)
    case Empty => "nan"
  }

  /** A transaction kind as app.py:48 leaves it: no whitespace at either end
      and no upper-case letter. */
  predicate IsKindText(k: string) {
    Text.Trimmed(k) && forall i :: 0 <= i < |k| ==> !Text.IsUpper(k[i])
  }

  /** The kind text of app.py:48, `s.strip().lower()`. Stripping and
      lower-casing may be done in either order. */
  function KindText(s: string): (k: string)
    ensures IsKindText(k)
    ensures k == Text.Strip(Text.Lower(s))
  {
    Text.StripLowerCommute(s);
    Text.Lower(Text.Strip(s))
  }

  /** A kind that is already normalised is left alone. */
  lemma KindTextFixed(k: string)
    requires IsKindText(k)
    ensures KindText(k) == k
  {
    Text.StripTrimmed(k);
    assert Text.Lower(k) == k;
  }

  /** Normalising a kind twice is normalising it once. */
  lemma KindTextIdempotent(s: string)
    ensures KindText(KindText(s)) == KindText(s)
  {
    KindTextFixed(KindText(s));
  }

  /** The category text of app.py:52, `s.strip()`. */
  function CategoryText(s: string): (c: string)
    ensures Text.IsStripOf(c, s)
    ensures Text.Trimmed(c)
  {
    Text.Strip(s)
  }

  /** Normalising a category twice is normalising it once. */
  lemma CategoryTextIdempotent(s: string)
    ensures CategoryText(CategoryText(s)) == CategoryText(s)
  {
    Text.StripIdempotent(s);
  }

  /** The amount of app.py:50: what the parser makes of the cell, and 0 for a
      NaN cell or a text the parser rejects. A negative amount stays negative. */
  function Amount(c: Cell, parse: Parser): (a: int)
    ensures c.Empty? ==> a == 0
    ensures c.Str? && parse(c.s).None? ==> a == 0
    ensures c.Str? && parse(c.s).Some? ==> a == parse(c.s).value
    ensures c.Num? ==> a == c.n
  {
    match c
    case Str(s) => parse(s).GetOr(0)
    case Num(n) => n
    case Empty => 0
  }

  /** A row as app.py:48-52 leaves it. */
  predicate Canonical(r: Row) {
    IsKindText(r.kind) && Text.Trimmed(r.category)
  }

  /** One row of the table, normalised: the date cell as it is, the kind and
      the category read from the text of their cells, the amount parsed. */
  function NormaliseRow(cells: seq<Cell>, l: Layout, parse: Parser): (r: Row)
    ensures Canonical(r)
    ensures r.date == CellAt(cells, l.date)
    ensures r.kind == Text.Strip(Text.Lower(Rendered(CellAt(cells, l.kind))))
    ensures Text.IsStripOf(r.category, Rendered(CellAt(cells, l.category)))
    ensures r.amount == Amount(CellAt(cells, l.amount), parse)
  {
    Row(CellAt(cells, l.date),
        KindText(Rendered(CellAt(cells, l.kind))),
        CategoryText(Rendered(CellAt(cells, l.category))),
        Amount(CellAt(cells, l.amount), parse))
  }

  /** The normalised rows, in the order of the table, one per table row. */
  function NormaliseRows(rows: seq<seq<Cell>>, l: Layout, parse: Parser): (r: seq<Row>)
    ensures |r| == |rows|
    ensures forall i :: 0 <= i < |rows| ==> r[i] == NormaliseRow(rows[i], l, parse)
    ensures forall i :: 0 <= i < |rows| ==> Canonical(r[i])
  {
    seq(|rows|, i requires 0 <= i < |rows| => NormaliseRow(rows[i], l, parse))
  }

  /** Lines 33-52 of app.py: the column check, then the ledger. The ledger
      keeps the table's rows in order, each in canonical form; the run fails
      exactly when the header is refused. */
  function Normalise(t: Table, parse: Parser): (r: Result<seq<Row>, Failure>)
    ensures r.Failure? <==> Resolve(t.header).Failure?
    ensures r.Failure? ==> r.error == Resolve(t.header).error
    ensures r.Success? ==> |r.value| == |t.rows|
    ensures r.Success? ==> forall i :: 0 <= i < |r.value| ==> Canonical(r.value[i])
    ensures r.Success? ==> forall i :: 0 <= i < |r.value| ==>
              r.value[i] == NormaliseRow(t.rows[i], Resolve(t.header).value, parse)
  {
    match Resolve(t.header)
    case Failure(e) => Failure(e)
    case Success(l) => Success(NormaliseRows(t.rows, l, parse))
  }

  /** The ledger written back as a table with the four required columns, one
      cell per field. */
  function Export(rows: seq<Row>): (t: Table)
    ensures t.header == Required && |t.rows| == |rows|
  {
    Table(Required, seq(|rows|, i requires 0 <= i < |rows| => ExportRow(rows[i])))
  }

  /** The four cells a row is exported as. */
  function ExportRow(r: Row): seq<Cell> {
    [r.date, Str(r.kind), Str(r.category), Num(r.amount)]
  }

  /** A canonical row read back from its exported cells is the same row. */
  lemma RenormaliseRow(r: Row, parse: Parser)
    requires Canonical(r)
    ensures NormaliseRow(ExportRow(r), Layout(0, 1, 2, 3), parse) == r
  {
    KindTextFixed(r.kind);
    Text.StripTrimmed(r.category);
  }

  /** An exported ledger is read with the columns at positions 0 to 3. */
  lemma ExportLayout(rows: seq<Row>, parse: Parser)
    ensures Normalise(Export(rows), parse) == Success(NormaliseRows(Export(rows).rows, Layout(0, 1, 2, 3), parse))
  {
    ResolveRequired();
  }

  /** Normalising an exported ledger gives the ledger back, whatever the
      amount parser does: canonical kinds, categories and amounts are fixed
      points of the normalisation. */
  lemma RenormaliseExport(rows: seq<Row>, parse: Parser)
    requires forall i :: 0 <= i < |rows| ==> Canonical(rows[i])
    ensures Normalise(Export(rows), parse) == Success(rows)
  {
    var t := Export(rows);
    var back := NormaliseRows(t.rows, Layout(0, 1, 2, 3), parse);
    forall i | 0 <= i < |rows|
      ensures back[i] == rows[i]
    {
      assert t.rows[i] == ExportRow(rows[i]);
      RenormaliseRow(rows[i], parse);
    }
    assert back == rows;
    ExportLayout(rows, parse);
  }

  /** Normalisation is idempotent on the model's own export: a normalised
      ledger written as four text and number cells per row and normalised
      again is the same ledger. This says nothing about a spreadsheet file,
      which writes an empty category as an empty cell that reads back as NaN. */
  lemma NormaliseIdempotent(t: Table, parse: Parser)
    requires Normalise(t, parse).Success?
    ensures Normalise(Export(Normalise(t, parse).value), parse) == Normalise(t, parse)
  {
    RenormaliseExport(Normalise(t, parse).value, parse);
  }
}
