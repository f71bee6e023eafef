/** The required-column check of app.py and the lookup of the four columns
    once their names have been stripped.

The check runs on the header exactly as the file gave it (app.py:33-37); the
names are stripped only afterwards (app.py:41). A header that is accepted can
still hold two columns whose stripped names coincide (`Jenis` and ` Jenis`):
the script then selects a two-column frame and fails on it, which the model
reports as `AmbiguousColumn`.
 */
module Columns {
  import opened Wrappers
  import Text

  const Tanggal: string := "Tanggal"
  const Jenis: string := "Jenis"
  const Kategori: string := "Kategori"
  const Jumlah: string := "Jumlah"

  /** The columns every upload must have, in the order they are reported. */
  const Required: seq<string> := [Tanggal, Jenis, Kategori, Jumlah]

  /** `a` is `b` with some elements left out and the rest in their order. */
  predicate IsSubsequence<T(==)>(a: seq<T>, b: seq<T>)
    decreases |b|
  {
    if |a| == 0 then true
    else if |b| == 0 then false
    else if a[0] == b[0] then IsSubsequence(a[1..], b[1..])
    else IsSubsequence(a, b[1..])
  }

  /** The names of `wanted` that `header` lacks, in the order of `wanted`. */
  function MissingFrom(wanted: seq<string>, header: seq<string>): (m: seq<string>)
    ensures forall c :: c in m <==> c in wanted && c !in header
    ensures IsSubsequence(m, wanted)
  {
    if |wanted| == 0 then []
    else
      var rest := MissingFrom(wanted[1..], header);
      if wanted[0] in header then
        assert |rest| > 0 ==> rest[0] != wanted[0];
        rest
      else
        [wanted[0]] + rest
  }

  /** The list `missing` of app.py:34: the required names that are not, as
      written, names of the header. The run goes on only when it is empty. */
  function Missing(header: seq<string>): (m: seq<string>)
    ensures forall c :: c in m <==> c in Required && c !in header
    ensures IsSubsequence(m, Required)
    ensures |m| == 0 <==> forall c :: c in Required ==> c in header
  {
    var m := MissingFrom(Required, header);
    assert |m| > 0 ==> m[0] in m;
    m
  }

  /** The column names after app.py:41. */
  function StripAll(header: seq<string>): (names: seq<string>)
    ensures |names| == |header|
    ensures forall i :: 0 <= i < |header| ==> names[i] == Text.Strip(header[i]) && Text.Trimmed(names[i])
  {
    seq(|header|, i requires 0 <= i < |header| => Text.Strip(header[i]))
  }

  /** How many columns are called `name`. */
  function Count(names: seq<string>, name: string): (n: nat)
    ensures n == 0 <==> name !in names
    ensures n <= |names|
  {
    if |names| == 0 then 0
    else (if names[0] == name then 1 else 0) + Count(names[1..], name)
  }

  /** The first column called `name`: the column `df[name]` selects when
      there is exactly one. */
  function IndexOf(names: seq<string>, name: string): (i: nat)
    requires name in names
    ensures i < |names| && names[i] == name
    ensures name !in names[..i]
  {
    if names[0] == name then 0
    else
      var i := IndexOf(names[1..], name);
      assert names[..i + 1] == [names[0]] + names[1..][..i];
      i + 1
  }

  /** Why a batch is refused. */
  datatype Failure =
    | MissingColumns(names: seq<string>)   // app.py:35-37
    | AmbiguousColumn(name: string)        // two columns strip to `name`

  /** Where the four columns are, counted in the header. */
  datatype Layout = Layout(date: nat, kind: nat, category: nat, amount: nat)

  /** Each required name is its own strip. */
  lemma RequiredFixed(c: string)
    requires c in Required
    ensures Text.Strip(c) == c
  {
    if c == Tanggal {
      assert Text.Trimmed(Tanggal);
      Text.StripTrimmed(Tanggal);
    } else if c == Jenis {
      assert Text.Trimmed(Jenis);
      Text.StripTrimmed(Jenis);
    } else if c == Kategori {
      assert Text.Trimmed(Kategori);
      Text.StripTrimmed(Kategori);
    } else {
      assert Text.Trimmed(Jumlah);
      Text.StripTrimmed(Jumlah);
    }
  }

  /** A required name written without surrounding whitespace keeps its name
      when the header is stripped. */
  lemma RequiredSurvivesStrip(header: seq<string>, c: string)
    requires c in Required && c in header
    ensures c in StripAll(header)
  {
    var i := IndexOf(header, c);
    RequiredFixed(c);
    assert StripAll(header)[i] == c;
  }

  /** The first of the columns app.py converts with a Series-only operation
      (lines 48, 50 and 52, in that order) whose stripped name occurs twice. */
  function FirstAmbiguous(names: seq<string>): (r: Option<string>)
    ensures r.Some? ==> r.value in [Jenis, Jumlah, Kategori] && Count(names, r.value) > 1
    ensures r.None? <==> Count(names, Jenis) <= 1 && Count(names, Jumlah) <= 1 && Count(names, Kategori) <= 1
    ensures r == Some(Jumlah) ==> Count(names, Jenis) <= 1
    ensures r == Some(Kategori) ==> Count(names, Jenis) <= 1 && Count(names, Jumlah) <= 1
  {
    if Count(names, Jenis) > 1 then Some(Jenis)
    else if Count(names, Jumlah) > 1 then Some(Jumlah)
    else if Count(names, Kategori) > 1 then Some(Kategori)
    else None
  }

  /** The column check of app.py:33-37 followed by the name stripping of
      app.py:41: either the positions of the four columns or the failure. */
  function Resolve(header: seq<string>): (r: Result<Layout, Failure>)
    ensures r.Failure? && r.error.MissingColumns? <==> Missing(header) != []
    ensures r.Failure? && r.error.MissingColumns? ==> r.error.names == Missing(header)
    ensures r.Failure? && r.error.AmbiguousColumn? ==>
              && Missing(header) == []
              && r.error.name in [Jenis, Jumlah, Kategori]
              && Count(StripAll(header), r.error.name) > 1
              && FirstAmbiguous(StripAll(header)) == Some(r.error.name)
    ensures r.Success? <==>
              && Missing(header) == []
              && Count(StripAll(header), Jenis) == 1
              && Count(StripAll(header), Jumlah) == 1
              && Count(StripAll(header), Kategori) == 1
    ensures r.Success? ==>
              var names := StripAll(header);
              var l := r.value;
              && l.date < |names| && names[l.date] == Tanggal && Tanggal !in names[..l.date]
              && l.kind < |names| && names[l.kind] == Jenis
              && l.category < |names| && names[l.category] == Kategori
              && l.amount < |names| && names[l.amount] == Jumlah
  {
    var missing := Missing(header);
    if missing != [] then Failure(MissingColumns(missing))
    else
      var names := StripAll(header);
      RequiredSurvivesStrip(header, Tanggal);
      RequiredSurvivesStrip(header, Jenis);
      RequiredSurvivesStrip(header, Kategori);
      RequiredSurvivesStrip(header, Jumlah);
      match FirstAmbiguous(names)
      case Some(name) => Failure(AmbiguousColumn(name))
      case None =>
        Success(Layout(IndexOf(names, Tanggal), IndexOf(names, Jenis),
                       IndexOf(names, Kategori), IndexOf(names, Jumlah)))
  }

  /** The check looks at the header before it is stripped: a header that
      names the amount column ` Jumlah` but never `Jumlah` is refused with
      `Jumlah` reported missing, although line 41 would have turned that
      heading into `Jumlah`. */
  lemma CheckPrecedesStrip(header: seq<string>)
    requires " Jumlah" in header && Jumlah !in header
    ensures Text.Strip(" Jumlah") == Jumlah
    ensures Jumlah in StripAll(header)
    ensures Resolve(header).Failure? && Resolve(header).error.MissingColumns?
    ensures Jumlah in Resolve(header).error.names
  {
    assert Text.Trimmed(Jumlah);
    Text.StripLeadingBlank(Jumlah);
    var i :| 0 <= i < |header| && header[i] == " Jumlah";
    assert StripAll(header)[i] == Jumlah;
  }

  /** A header that passes the check but holds two columns that both strip
      to `Jenis` (say `Jenis` and ` Jenis`) is refused at `Jenis`, the first
      column the script converts. */
  lemma DuplicateAfterStrip(header: seq<string>, i: nat, j: nat)
    requires Missing(header) == []
    requires i < j < |header| && Text.Strip(header[i]) == Jenis && Text.Strip(header[j]) == Jenis
    ensures Resolve(header) == Failure(AmbiguousColumn(Jenis))
  {
    var names := StripAll(header);
    CountTwice(names, Jenis, i, j);
    assert FirstAmbiguous(names) == Some(Jenis);
  }

  /** `Jenis` with a leading blank strips to `Jenis`, so a header holding both
      `Jenis` and ` Jenis` is one the previous lemma applies to. */
  lemma PaddedJenis()
    ensures Text.Strip(Jenis) == Jenis
    ensures Text.Strip(" Jenis") == Jenis
  {
    assert Text.Trimmed(Jenis);
    Text.StripTrimmed(Jenis);
    Text.StripLeadingBlank(Jenis);
  }

  /** A name held by two different columns is counted at least twice. */
  lemma {:induction false} CountTwice(names: seq<string>, name: string, i: nat, j: nat)
    requires i < j < |names| && names[i] == name && names[j] == name
    ensures Count(names, name) > 1
  {
    if i > 0 {
      CountTwice(names[1..], name, i - 1, j - 1);
    } else {
      assert name in names[1..] by { assert names[1..][j - 1] == name; }
    }
  }

  /** A header whose names are all their own strips is unchanged by app.py:41. */
  lemma StripAllFixed(header: seq<string>)
    requires forall i :: 0 <= i < |header| ==> Text.Strip(header[i]) == header[i]
    ensures StripAll(header) == header
  {
  }

  /** The four required names, written as they are, strip to themselves. */
  lemma RequiredTrimmed()
    ensures StripAll(Required) == Required
  {
    forall i | 0 <= i < |Required| ensures Text.Strip(Required[i]) == Required[i] {
      RequiredFixed(Required[i]);
    }
    StripAllFixed(Required);
  }

  /** In a header whose names are pairwise different, no name is counted twice. */
  lemma {:induction false} CountDistinct(names: seq<string>, name: string)
    requires forall i, j :: 0 <= i < j < |names| ==> names[i] != names[j]
    ensures Count(names, name) <= 1
  {
    if |names| > 0 {
      CountDistinct(names[1..], name);
      if names[0] == name {
        assert name !in names[1..];
      }
    }
  }

  /** The required names are pairwise different (they differ in length). */
  lemma RequiredDistinct()
    ensures forall i, j :: 0 <= i < j < |Required| ==> Required[i] != Required[j]
  {
    assert |Required[0]| == 7 && |Required[1]| == 5 && |Required[2]| == 8 && |Required[3]| == 6;
  }

  /** Each required name occurs once in `Required`, at its own position. */
  lemma RequiredPositions()
    ensures Count(Required, Jenis) == 1 && Count(Required, Jumlah) == 1 && Count(Required, Kategori) == 1
    ensures IndexOf(Required, Tanggal) == 0 && IndexOf(Required, Jenis) == 1
    ensures IndexOf(Required, Kategori) == 2 && IndexOf(Required, Jumlah) == 3
  {
    RequiredDistinct();
    CountDistinct(Required, Jenis);
    CountDistinct(Required, Jumlah);
    CountDistinct(Required, Kategori);
  }

  /** A header of exactly the required names puts them at positions 0 to 3. */
  lemma ResolveRequired()
    ensures Resolve(Required) == Success(Layout(0, 1, 2, 3))
  {
    assert Missing(Required) == [];
    RequiredTrimmed();
    RequiredPositions();
  }
}
