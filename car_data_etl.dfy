/**
 Model of car_data_etl.py: `prepare_car_reviews_data`.

 The polars chain `with_columns` -> `filter` -> `select` -> `sort` and the
 list projections that follow are pure, so every step is a function over
 sequences of typed rows. The CSV scan itself is not modelled: the input is
 the sequence of rows after the typed scan.
 */
module CarDataEtl {

  // ---------------------------------------------------------------------------
  // Data model
  // ---------------------------------------------------------------------------

  /** One row of the review table after the typed scan. `index` is the unnamed
      integer column; `rating` is the Float64 column, modelled by an integer key
      because it is only ever compared. */
  datatype ReviewRow = ReviewRow(
    index: int,
    reviewDate: string,
    authorName: string,
    vehicleTitle: string,
    reviewTitle: string,
    review: string,
    rating: int)

  /** A row after `with_columns`: the scanned row plus the two derived columns. */
  datatype DerivedRow = DerivedRow(row: ReviewRow, vehicleYear: int, vehicleModel: string)

  /** A row after `select`: exactly the five retained columns. */
  datatype Record = Record(
    reviewTitle: string,
    review: string,
    rating: int,
    vehicleYear: int,
    vehicleModel: string)

  /** The metadata of one indexed document: every retained column but the review text. */
  datatype Metadata = Metadata(
    reviewTitle: string,
    rating: int,
    vehicleYear: int,
    vehicleModel: string)

  /** The dictionary returned by the function: three parallel lists. */
  datatype ChromaData = ChromaData(
    ids: seq<string>,
    documents: seq<string>,
    metadatas: seq<Metadata>)

  /** The default of the `vehicle_years` parameter. */
  const DefaultVehicleYears: seq<int> := [2017]

  /** Largest value a strict cast to Int64 accepts. */
  const Int64Max: int := 0x7FFF_FFFF_FFFF_FFFF

  const IdPrefix: string := "review"

  // ---------------------------------------------------------------------------
  // Splitting on a separator (`str.split(by=" ")`)
  // ---------------------------------------------------------------------------

  /** Splits `s` at every occurrence of `sep`; adjacent separators give empty
      tokens, and there is always at least one token. */
  function Split(s: string, sep: char): (tokens: seq<string>)
    ensures |tokens| >= 1
    ensures forall i :: 0 <= i < |tokens| ==> sep !in tokens[i]
  {
    if |s| == 0 then [""]
    else
      var rest := Split(s[1..], sep);
      if s[0] == sep then [""] + rest
      else [[s[0]] + rest[0]] + rest[1..]
  }

  /** The inverse of Split: puts one separator between consecutive tokens. */
  function Join(tokens: seq<string>, sep: char): string
    requires |tokens| >= 1
  {
    if |tokens| == 1 then tokens[0] else tokens[0] + [sep] + Join(tokens[1..], sep)
  }

  /** Joining the tokens of a split restores the string. */
  lemma {:induction false} JoinSplit(s: string, sep: char)
    ensures Join(Split(s, sep), sep) == s
  {
    if |s| > 0 {
      JoinSplit(s[1..], sep);
      var rest := Split(s[1..], sep);
      if s[0] != sep {
        if |rest| == 1 {
          assert Join(Split(s, sep), sep) == [s[0]] + rest[0];
        } else {
          assert rest == [rest[0]] + rest[1..];
          assert Join(rest, sep) == rest[0] + [sep] + Join(rest[1..], sep);
          assert Join(Split(s, sep), sep) == [s[0]] + rest[0] + [sep] + Join(rest[1..], sep);
        }
      }
      assert s == [s[0]] + s[1..];
    }
  }

  /** A separator-free prefix only extends the first token. */
  lemma {:induction false} SplitPrefix(a: string, b: string, sep: char)
    requires sep !in a
    ensures Split(a + b, sep) == [a + Split(b, sep)[0]] + Split(b, sep)[1..]
  {
    if |a| > 0 {
      assert (a + b)[1..] == a[1..] + b;
      assert (a + b)[0] == a[0];
      SplitPrefix(a[1..], b, sep);
      assert [a[0]] + (a[1..] + Split(b, sep)[0]) == a + Split(b, sep)[0];
    } else {
      assert a + b == b;
      assert a + Split(b, sep)[0] == Split(b, sep)[0];
    }
  }

  /** Splitting the join of separator-free tokens gives the tokens back. */
  lemma {:induction false} SplitJoin(tokens: seq<string>, sep: char)
    requires |tokens| >= 1
    requires forall i :: 0 <= i < |tokens| ==> sep !in tokens[i]
    ensures Split(Join(tokens, sep), sep) == tokens
  {
    if |tokens| == 1 {
      SplitPrefix(tokens[0], "", sep);
      assert tokens[0] + "" == tokens[0];
    } else {
      var tail := [sep] + Join(tokens[1..], sep);
      SplitJoin(tokens[1..], sep);
      assert Split(tail, sep) == [""] + Split(Join(tokens[1..], sep), sep);
      SplitPrefix(tokens[0], tail, sep);
      assert tokens[0] + [sep] + Join(tokens[1..], sep) == tokens[0] + tail;
      assert tokens[0] + "" == tokens[0];
    }
  }

  // ---------------------------------------------------------------------------
  // Decimal digits (`cast(pl.Int64)` of the first token)
  // ---------------------------------------------------------------------------

  predicate IsDigit(c: char) { '0' <= c <= '9' }

  /** A non-empty string of decimal digits: the tokens a strict integer cast accepts here. */
  predicate IsDigits(s: string) {
    |s| > 0 && forall i :: 0 <= i < |s| ==> IsDigit(s[i])
  }

  function DigitValue(c: char): nat
    requires IsDigit(c)
  {
    c as int - '0' as int
  }

  /** The value of a string of decimal digits, most significant first. */
  function DigitsValue(s: string): nat
    requires forall i :: 0 <= i < |s| ==> IsDigit(s[i])
  {
    if |s| == 0 then 0
    else 10 * DigitsValue(s[..|s| - 1]) + DigitValue(s[|s| - 1])
  }

  /** The decimal rendering of a natural number, without leading zeros (`f"{i}"`). */
  function NatToString(n: nat): (s: string)
    ensures IsDigits(s)
  {
    if n < 10 then [('0' as int + n) as char]
    else NatToString(n / 10) + [('0' as int + n % 10) as char]
  }

  /** Reading back a rendered number gives the number: rendering is injective. */
  lemma {:induction false} DigitsValueNatToString(n: nat)
    ensures DigitsValue(NatToString(n)) == n
  {
    var s := NatToString(n);
    if n >= 10 {
      DigitsValueNatToString(n / 10);
      assert s[..|s| - 1] == NatToString(n / 10);
    }
  }

  // ---------------------------------------------------------------------------
  // Derived columns (car_data_etl.py:36-37)
  // ---------------------------------------------------------------------------

  /** A title the two derived columns are defined for: at least two space-separated
      tokens, the first an unsigned decimal number that fits an Int64 (a leading
      sign, which the strict cast would also accept, is not modelled). */
  predicate WellFormedTitle(title: string) {
    var tokens := Split(title, ' ');
    |tokens| >= 2 && IsDigits(tokens[0]) && DigitsValue(tokens[0]) <= Int64Max
  }

  predicate AllTitlesWellFormed(rows: seq<ReviewRow>) {
    forall i :: 0 <= i < |rows| ==> WellFormedTitle(rows[i].vehicleTitle)
  }

  /** `Vehicle_Year`: token 0 of the title, cast to an integer. */
  function VehicleYear(title: string): (year: int)
    requires WellFormedTitle(title)
    ensures 0 <= year <= Int64Max
  {
    DigitsValue(Split(title, ' ')[0])
  }

  /** `Vehicle_Model`: token 1 of the title only, not the rest of it. */
  function VehicleModel(title: string): (model: string)
    requires WellFormedTitle(title)
    ensures ' ' !in model
  {
    Split(title, ' ')[1]
  }

  /** A title made of a year, a space, a space-free model and then either nothing
      or further space-separated text yields exactly that year and that model. */
  lemma {:induction false} TitleFields(year: nat, model: string, tail: string)
    requires year <= Int64Max
    requires ' ' !in model
    requires tail == [] || tail[0] == ' '
    ensures WellFormedTitle(NatToString(year) + " " + model + tail)
    ensures VehicleYear(NatToString(year) + " " + model + tail) == year
    ensures VehicleModel(NatToString(year) + " " + model + tail) == model
  {
    var y := NatToString(year);
    var title := y + " " + model + tail;
    var rest := [' '] + (model + tail);
    assert title == y + rest;
    SplitPrefix(y, rest, ' ');
    assert Split(rest, ' ') == [""] + Split(model + tail, ' ');
    SplitPrefix(model, tail, ' ');
    if tail == [] {
      assert Split(tail, ' ') == [""];
    } else {
      assert tail == [tail[0]] + tail[1..];
      assert Split(tail, ' ')[0] == "";
    }
    assert model + Split(tail, ' ')[0] == model;
    assert y + "" == y;
    assert Split(title, ' ')[0] == y;
    assert Split(title, ' ')[1] == model;
    DigitsValueNatToString(year);
  }

  /** Conversely, in every well-formed title token 0 is the text before the first
      space and token 1 the text between the first space and the next one (or the end). */
  lemma TitleLayout(title: string)
    requires WellFormedTitle(title)
    ensures var t := Split(title, ' ');
      var k := |t[0]| + 1 + |t[1]|;
      && k <= |title|
      && title[..|t[0]|] == t[0]
      && title[|t[0]|] == ' '
      && title[|t[0]| + 1 .. k] == t[1]
      && (k == |title| || title[k] == ' ')
  {
    var t := Split(title, ' ');
    JoinSplit(title, ' ');
    var rest := Join(t[1..], ' ');
    assert title == t[0] + [' '] + rest;
    if |t| == 2 {
      assert rest == t[1];
    } else {
      assert t[1..][1..] == t[2..];
      assert rest == t[1] + [' '] + Join(t[2..], ' ');
    }
  }

  // ---------------------------------------------------------------------------
  // with_columns, filter, select (car_data_etl.py:34-41)
  // ---------------------------------------------------------------------------

  /** `with_columns` on one row: the row itself, kept whole, plus its two derived columns. */
  function WithVehicleColumns(row: ReviewRow): (d: DerivedRow)
    requires WellFormedTitle(row.vehicleTitle)
    ensures d.row == row
    ensures 0 <= d.vehicleYear <= Int64Max && ' ' !in d.vehicleModel
  {
    DerivedRow(row, VehicleYear(row.vehicleTitle), VehicleModel(row.vehicleTitle))
  }

  function WithVehicleColumnsAll(rows: seq<ReviewRow>): (derived: seq<DerivedRow>)
    requires AllTitlesWellFormed(rows)
    ensures |derived| == |rows|
    ensures forall i :: 0 <= i < |rows| ==> derived[i].row == rows[i]
    ensures forall i :: 0 <= i < |rows| ==>
      derived[i].vehicleYear == VehicleYear(rows[i].vehicleTitle)
      && derived[i].vehicleModel == VehicleModel(rows[i].vehicleTitle)
  {
    seq(|rows|, i requires 0 <= i < |rows| => WithVehicleColumns(rows[i]))
  }

  /** `filter(pl.col("Vehicle_Year").is_in(vehicle_years))`. */
  function FilterYears(rows: seq<DerivedRow>, years: seq<int>): (kept: seq<DerivedRow>)
    ensures |kept| <= |rows|
    ensures forall i :: 0 <= i < |kept| ==> kept[i].vehicleYear in years
  {
    if |rows| == 0 then []
    else
      var head := if rows[0].vehicleYear in years then [rows[0]] else [];
      head + FilterYears(rows[1..], years)
  }

  /** The filter keeps every row whose year is accepted, as often as it occurs,
      and no other row. */
  lemma {:induction false} FilterYearsCount(rows: seq<DerivedRow>, years: seq<int>, d: DerivedRow)
    ensures multiset(FilterYears(rows, years))[d]
         == if d.vehicleYear in years then multiset(rows)[d] else 0
  {
    if |rows| > 0 {
      FilterYearsCount(rows[1..], years, d);
      assert rows == [rows[0]] + rows[1..];
    }
  }

  /** `select(["Review_Title", "Review", "Rating", "Vehicle_Year", "Vehicle_Model"])` on one row. */
  function SelectColumns(d: DerivedRow): Record {
    Record(d.row.reviewTitle, d.row.review, d.row.rating, d.vehicleYear, d.vehicleModel)
  }

  /** `select` on the table: one record per row, carrying exactly that row's five
      retained columns. */
  function SelectColumnsAll(rows: seq<DerivedRow>): (records: seq<Record>)
    ensures |records| == |rows|
    ensures forall i :: 0 <= i < |rows| ==>
      && records[i].reviewTitle == rows[i].row.reviewTitle
      && records[i].review == rows[i].row.review
      && records[i].rating == rows[i].row.rating
      && records[i].vehicleYear == rows[i].vehicleYear
      && records[i].vehicleModel == rows[i].vehicleModel
  {
    seq(|rows|, i requires 0 <= i < |rows| => SelectColumns(rows[i]))
  }

  // ---------------------------------------------------------------------------
  // sort(["Vehicle_Model", "Rating"]) (car_data_etl.py:42)
  // ---------------------------------------------------------------------------

  /** Lexicographic order on strings, character by character. */
  predicate StrLe(a: string, b: string) {
    if |a| == 0 then true
    else if |b| == 0 then false
    else if a[0] != b[0] then a[0] < b[0]
    else StrLe(a[1..], b[1..])
  }

  lemma {:induction false} StrLeTotal(a: string, b: string)
    ensures StrLe(a, b) || StrLe(b, a)
  {
    if |a| > 0 && |b| > 0 && a[0] == b[0] {
      StrLeTotal(a[1..], b[1..]);
    }
  }

  lemma {:induction false} StrLeAntisymmetric(a: string, b: string)
    requires StrLe(a, b) && StrLe(b, a)
    ensures a == b
  {
    if |a| > 0 && |b| > 0 {
      StrLeAntisymmetric(a[1..], b[1..]);
      assert a == [a[0]] + a[1..] && b == [b[0]] + b[1..];
    }
  }

  lemma {:induction false} StrLeTransitive(a: string, b: string, c: string)
    requires StrLe(a, b) && StrLe(b, c)
    ensures StrLe(a, c)
  {
    if |a| > 0 && |b| > 0 && |c| > 0 && a[0] == b[0] && b[0] == c[0] {
      StrLeTransitive(a[1..], b[1..], c[1..]);
    }
  }

  /** The sort key order: model first, rating within equal models. */
  predicate KeyLe(x: Record, y: Record) {
    if x.vehicleModel == y.vehicleModel then x.rating <= y.rating
    else StrLe(x.vehicleModel, y.vehicleModel)
  }

  lemma KeyLeTotal(x: Record, y: Record)
    ensures KeyLe(x, y) || KeyLe(y, x)
  {
    StrLeTotal(x.vehicleModel, y.vehicleModel);
  }

  lemma KeyLeTransitive(x: Record, y: Record, z: Record)
    requires KeyLe(x, y) && KeyLe(y, z)
    ensures KeyLe(x, z)
  {
    var a, b, c := x.vehicleModel, y.vehicleModel, z.vehicleModel;
    if a != b && b != c {
      if a == c {
        StrLeAntisymmetric(a, b);
      } else {
        StrLeTransitive(a, b, c);
      }
    }
  }

  /** Ascending by model, and by rating among rows of one model. */
  predicate Sorted(s: seq<Record>) {
    forall i, j :: 0 <= i < j < |s| ==> KeyLe(s[i], s[j])
  }

  /** A record at or below the head of a sorted sequence is at or below all of it. */
  lemma BelowHead(x: Record, s: seq<Record>)
    requires Sorted(s) && |s| > 0 && KeyLe(x, s[0])
    ensures forall j :: 0 <= j < |s| ==> KeyLe(x, s[j])
  {
    forall j | 0 < j < |s| ensures KeyLe(x, s[j]) {
      KeyLeTransitive(x, s[0], s[j]);
    }
  }

  /** The head of a sorted sequence is at or below every element of a rearrangement
      of its tail extended by a record above the head. */
  lemma HeadBelow(x: Record, s: seq<Record>, t: seq<Record>)
    requires Sorted(s) && |s| > 0 && KeyLe(s[0], x)
    requires multiset(t) == multiset(s[1..]) + multiset{x}
    ensures forall j :: 0 <= j < |t| ==> KeyLe(s[0], t[j])
  {
    forall j | 0 <= j < |t| ensures KeyLe(s[0], t[j]) {
      assert t[j] in multiset(t);
      if t[j] != x {
        assert t[j] in multiset(s[1..]);
        var i :| 0 <= i < |s[1..]| && s[1..][i] == t[j];
        assert s[i + 1] == t[j];
      }
    }
  }

  /** Inserts `x` into a sorted sequence at a place that keeps it sorted. */
  function Insert(x: Record, s: seq<Record>): (r: seq<Record>)
    requires Sorted(s)
    ensures Sorted(r)
    ensures multiset(r) == multiset(s) + multiset{x}
  {
    if |s| == 0 then [x]
    else if KeyLe(x, s[0]) then
      BelowHead(x, s);
      [x] + s
    else
      KeyLeTotal(x, s[0]);
      assert s == [s[0]] + s[1..];
      var t := Insert(x, s[1..]);
      HeadBelow(x, s, t);
      [s[0]] + t
  }

  /** Some order of `s` that is sorted by (model, rating); ties are unspecified. */
  function SortByModelRating(s: seq<Record>): (r: seq<Record>)
    ensures Sorted(r)
    ensures multiset(r) == multiset(s)
  {
    if |s| == 0 then []
    else
      assert s == [s[0]] + s[1..];
      Insert(s[0], SortByModelRating(s[1..]))
  }

  // ---------------------------------------------------------------------------
  // The normalized table (car_data_etl.py:33-44)
  // ---------------------------------------------------------------------------

  /** The record a scanned row becomes if it passes the filter. */
  function SelectedRecord(row: ReviewRow): Record
    requires WellFormedTitle(row.vehicleTitle)
  {
    SelectColumns(WithVehicleColumns(row))
  }

  /** The table `car_review_db_data`: the derived, filtered, projected rows, sorted. */
  function NormalizedRows(rows: seq<ReviewRow>, years: seq<int>): (out: seq<Record>)
    requires AllTitlesWellFormed(rows)
    ensures Sorted(out)
    ensures multiset(out) == multiset(SelectColumnsAll(FilterYears(WithVehicleColumnsAll(rows), years)))
  {
    SortByModelRating(SelectColumnsAll(FilterYears(WithVehicleColumnsAll(rows), years)))
  }

  lemma {:induction false} FilterYearsMembership(rows: seq<DerivedRow>, years: seq<int>, d: DerivedRow)
    ensures d in FilterYears(rows, years) <==> d in rows && d.vehicleYear in years
  {
    FilterYearsCount(rows, years, d);
    assert d in FilterYears(rows, years) <==> d in multiset(FilterYears(rows, years));
    assert d in rows <==> d in multiset(rows);
  }

  /** Every normalized record has an accepted year and is the projection of an input row. */
  lemma NormalizedRowsSound(rows: seq<ReviewRow>, years: seq<int>, i: nat)
    requires AllTitlesWellFormed(rows) && i < |NormalizedRows(rows, years)|
    ensures NormalizedRows(rows, years)[i].vehicleYear in years
    ensures exists j :: 0 <= j < |rows| && NormalizedRows(rows, years)[i] == SelectedRecord(rows[j])
  {
    var out := NormalizedRows(rows, years);
    var derived := WithVehicleColumnsAll(rows);
    var kept := FilterYears(derived, years);
    var selected := SelectColumnsAll(kept);
    assert out[i] in multiset(out);
    assert out[i] in selected;
    var k :| 0 <= k < |selected| && selected[k] == out[i];
    FilterYearsMembership(derived, years, kept[k]);
    var j :| 0 <= j < |derived| && derived[j] == kept[k];
    assert out[i] == SelectedRecord(rows[j]);
  }

  /** Every input row whose year is accepted shows up among the normalized records. */
  lemma NormalizedRowsComplete(rows: seq<ReviewRow>, years: seq<int>, j: nat)
    requires AllTitlesWellFormed(rows) && j < |rows| && VehicleYear(rows[j].vehicleTitle) in years
    ensures SelectedRecord(rows[j]) in NormalizedRows(rows, years)
  {
    var derived := WithVehicleColumnsAll(rows);
    var kept := FilterYears(derived, years);
    var selected := SelectColumnsAll(kept);
    FilterYearsMembership(derived, years, derived[j]);
    var k :| 0 <= k < |kept| && kept[k] == derived[j];
    assert selected[k] == SelectedRecord(rows[j]);
    var out := NormalizedRows(rows, years);
    assert multiset(out) == multiset(selected);
    assert selected[k] in multiset(selected);
    assert selected[k] in multiset(out);
  }

  /** Every normalized record has an accepted year and comes from some input row;
      every input row whose year is accepted shows up among the normalized records. */
  lemma NormalizedRowsFilter(rows: seq<ReviewRow>, years: seq<int>)
    requires AllTitlesWellFormed(rows)
    ensures forall i :: 0 <= i < |NormalizedRows(rows, years)| ==>
      var r := NormalizedRows(rows, years)[i];
      r.vehicleYear in years && exists j :: 0 <= j < |rows| && r == SelectedRecord(rows[j])
    ensures forall j :: 0 <= j < |rows| && VehicleYear(rows[j].vehicleTitle) in years ==>
      SelectedRecord(rows[j]) in NormalizedRows(rows, years)
  {
    var out := NormalizedRows(rows, years);
    forall i | 0 <= i < |out|
      ensures out[i].vehicleYear in years && exists j :: 0 <= j < |rows| && out[i] == SelectedRecord(rows[j])
    {
      NormalizedRowsSound(rows, years, i);
    }
    forall j | 0 <= j < |rows| && VehicleYear(rows[j].vehicleTitle) in years
      ensures SelectedRecord(rows[j]) in NormalizedRows(rows, years)
    {
      NormalizedRowsComplete(rows, years, j);
    }
  }

  /** The number of normalized records is the number of input rows whose year is accepted. */
  lemma NormalizedRowsCount(rows: seq<ReviewRow>, years: seq<int>)
    requires AllTitlesWellFormed(rows)
    ensures |NormalizedRows(rows, years)| == |AcceptedRows(rows, years)|
  {
    var out := NormalizedRows(rows, years);
    assert |out| == |multiset(out)|;
    var selected := SelectColumnsAll(FilterYears(WithVehicleColumnsAll(rows), years));
    assert |selected| == |multiset(selected)|;
    AcceptedRowsAgrees(rows, years);
  }

  /** The input rows whose parsed year is accepted, in input order: the filter stated
      on the scanned rows, before any column is derived. */
  function AcceptedRows(rows: seq<ReviewRow>, years: seq<int>): (accepted: seq<ReviewRow>)
    requires AllTitlesWellFormed(rows)
    ensures AllTitlesWellFormed(accepted)
    ensures forall i :: 0 <= i < |accepted| ==> accepted[i] in rows && VehicleYear(accepted[i].vehicleTitle) in years
  {
    if |rows| == 0 then []
    else
      var head := if VehicleYear(rows[0].vehicleTitle) in years then [rows[0]] else [];
      head + AcceptedRows(rows[1..], years)
  }

  lemma WithVehicleColumnsAllCons(row: ReviewRow, rows: seq<ReviewRow>)
    requires WellFormedTitle(row.vehicleTitle) && AllTitlesWellFormed(rows)
    ensures AllTitlesWellFormed([row] + rows)
    ensures WithVehicleColumnsAll([row] + rows) == [WithVehicleColumns(row)] + WithVehicleColumnsAll(rows)
  {
  }

  /** Filtering the derived table on `Vehicle_Year` is deriving the columns of the
      accepted input rows: the filter keeps the rows, in order, whose own title parses
      to an accepted year. */
  lemma {:induction false} AcceptedRowsAgrees(rows: seq<ReviewRow>, years: seq<int>)
    requires AllTitlesWellFormed(rows)
    ensures FilterYears(WithVehicleColumnsAll(rows), years) == WithVehicleColumnsAll(AcceptedRows(rows, years))
  {
    if |rows| > 0 {
      AcceptedRowsAgrees(rows[1..], years);
      var derived := WithVehicleColumnsAll(rows);
      assert derived[1..] == WithVehicleColumnsAll(rows[1..]);
      var tail := AcceptedRows(rows[1..], years);
      assert FilterYears(derived, years)
          == (if derived[0].vehicleYear in years then [derived[0]] else []) + FilterYears(derived[1..], years);
      if VehicleYear(rows[0].vehicleTitle) in years {
        WithVehicleColumnsAllCons(rows[0], tail);
      }
    }
  }

  // ---------------------------------------------------------------------------
  // ids, documents, metadatas (car_data_etl.py:47-49)
  // ---------------------------------------------------------------------------

  /** The positional id `f"review{i}"`. */
  function Id(i: nat): (id: string)
    ensures |id| > |IdPrefix| && id[..|IdPrefix|] == IdPrefix && IsDigits(id[|IdPrefix|..])
  {
    IdPrefix + NatToString(i)
  }

  /** Reads the position back out of an id, if it is one. */
  function IdIndex(id: string): (i: nat)
    requires |id| > |IdPrefix| && id[..|IdPrefix|] == IdPrefix
    requires IsDigits(id[|IdPrefix|..])
  {
    DigitsValue(id[|IdPrefix|..])
  }

  /** Ids are a faithful encoding of positions. */
  lemma IdIndexId(i: nat)
    ensures IdIndex(Id(i)) == i
  {
    assert Id(i)[|IdPrefix|..] == NatToString(i);
    DigitsValueNatToString(i);
  }

  /** Different positions have different ids. */
  lemma IdInjective(i: nat, j: nat)
    requires i != j
    ensures Id(i) != Id(j)
  {
    IdIndexId(i);
    IdIndexId(j);
  }

  /** `drop("Review")` on one record. */
  function MetadataOf(r: Record): Metadata {
    Metadata(r.reviewTitle, r.rating, r.vehicleYear, r.vehicleModel)
  }

  /** The three parallel lists for a normalized table. */
  function ToChromaData(rows: seq<Record>): (data: ChromaData)
    ensures |data.ids| == |rows| && |data.documents| == |rows| && |data.metadatas| == |rows|
  {
    ChromaData(
      seq(|rows|, i requires 0 <= i => Id(i)),
      seq(|rows|, i requires 0 <= i < |rows| => rows[i].review),
      seq(|rows|, i requires 0 <= i < |rows| => MetadataOf(rows[i])))
  }

  /** Rebuilds the records from the documents and metadatas lists, position by position. */
  function FromChromaData(data: ChromaData): seq<Record>
    requires |data.documents| == |data.metadatas|
  {
    seq(|data.documents|, i requires 0 <= i < |data.documents| =>
      var m := data.metadatas[i];
      Record(m.reviewTitle, data.documents[i], m.rating, m.vehicleYear, m.vehicleModel))
  }

  /** Position i of documents and of metadatas together hold exactly record i:
      nothing is lost or misaligned by the projection. */
  lemma ChromaDataRoundTrip(rows: seq<Record>)
    ensures FromChromaData(ToChromaData(rows)) == rows
  {
  }

  /** The ids are exactly review0 .. review{n-1} and pairwise distinct. */
  lemma ChromaDataIds(rows: seq<Record>)
    ensures forall i :: 0 <= i < |rows| ==> ToChromaData(rows).ids[i] == Id(i)
    ensures forall i, j :: 0 <= i < j < |rows| ==> ToChromaData(rows).ids[i] != ToChromaData(rows).ids[j]
  {
    forall i, j | 0 <= i < j < |rows| ensures ToChromaData(rows).ids[i] != ToChromaData(rows).ids[j] {
      IdInjective(i, j);
    }
  }

  // ---------------------------------------------------------------------------
  // prepare_car_reviews_data (car_data_etl.py:4-51)
  // ---------------------------------------------------------------------------

  /** The whole preparation step over already-scanned rows. */
  function PrepareCarReviewsData(rows: seq<ReviewRow>, vehicleYears: seq<int>): (out: ChromaData)
    requires AllTitlesWellFormed(rows)
    ensures |out.ids| == |out.documents| == |out.metadatas| == |AcceptedRows(rows, vehicleYears)|
    ensures forall i :: 0 <= i < |out.ids| ==> out.ids[i] == Id(i)
    ensures forall i :: 0 <= i < |out.metadatas| ==>
      out.metadatas[i].vehicleYear in vehicleYears
      && exists j :: 0 <= j < |rows| && out.documents[i] == rows[j].review
           && out.metadatas[i] == MetadataOf(SelectedRecord(rows[j]))
    ensures forall j :: 0 <= j < |rows| && VehicleYear(rows[j].vehicleTitle) in vehicleYears ==>
      exists i :: 0 <= i < |out.ids| && out.documents[i] == rows[j].review
           && out.metadatas[i] == MetadataOf(SelectedRecord(rows[j]))
    ensures Sorted(FromChromaData(out))
    ensures multiset(FromChromaData(out))
         == multiset(SelectColumnsAll(FilterYears(WithVehicleColumnsAll(rows), vehicleYears)))
  {
    NormalizedRowsFilter(rows, vehicleYears);
    NormalizedRowsCount(rows, vehicleYears);
    ChromaDataRoundTrip(NormalizedRows(rows, vehicleYears));
    AcceptedRowsProjected(rows, vehicleYears);
    ToChromaData(NormalizedRows(rows, vehicleYears))
  }

  lemma AcceptedRowsProjected(rows: seq<ReviewRow>, years: seq<int>)
    requires AllTitlesWellFormed(rows)
    ensures var out := NormalizedRows(rows, years); var data := ToChromaData(out);
      forall j :: 0 <= j < |rows| && VehicleYear(rows[j].vehicleTitle) in years ==>
        exists i :: 0 <= i < |data.ids| && data.documents[i] == rows[j].review
             && data.metadatas[i] == MetadataOf(SelectedRecord(rows[j]))
  {
    var out := NormalizedRows(rows, years);
    var data := ToChromaData(out);
    NormalizedRowsFilter(rows, years);
    forall j | 0 <= j < |rows| && VehicleYear(rows[j].vehicleTitle) in years
      ensures exists i :: (0 <= i < |data.ids| && data.documents[i] == rows[j].review
             && data.metadatas[i] == MetadataOf(SelectedRecord(rows[j])))
    {
      var i :| 0 <= i < |out| && out[i] == SelectedRecord(rows[j]);
      assert data.documents[i] == rows[j].review;
    }
  }

  /** The call with `vehicle_years` left at its default accepts 2017 only. */
  function PrepareCarReviewsDataDefault(rows: seq<ReviewRow>): (out: ChromaData)
    requires AllTitlesWellFormed(rows)
    ensures |out.ids| == |out.documents| == |out.metadatas|
    ensures forall i :: 0 <= i < |out.metadatas| ==> out.metadatas[i].vehicleYear == 2017
    ensures forall j :: 0 <= j < |rows| && VehicleYear(rows[j].vehicleTitle) == 2017 ==>
      exists i :: 0 <= i < |out.ids| && out.documents[i] == rows[j].review
           && out.metadatas[i] == MetadataOf(SelectedRecord(rows[j]))
  {
    assert 2017 in DefaultVehicleYears;
    PrepareCarReviewsData(rows, DefaultVehicleYears)
  }

  /** Three rows of years 2016, 2016 and 2017, with the default years, give one record, "review0". */
  lemma OneAcceptedRow(rows: seq<ReviewRow>)
    requires |rows| == 3 && AllTitlesWellFormed(rows)
    requires VehicleYear(rows[0].vehicleTitle) == 2016 && VehicleYear(rows[1].vehicleTitle) == 2016
    requires VehicleYear(rows[2].vehicleTitle) == 2017
    ensures PrepareCarReviewsData(rows, DefaultVehicleYears).ids == ["review0"]
  {
    var years := DefaultVehicleYears;
    assert 2016 !in years && 2017 in years;
    assert rows[1..][0] == rows[1] && rows[1..][1..][0] == rows[2] && rows[1..][1..][1..] == [];
    assert AcceptedRows(rows[1..][1..], years) == [rows[2]];
    assert AcceptedRows(rows[1..], years) == [rows[2]];
    assert AcceptedRows(rows, years) == [rows[2]];
    var ids := PrepareCarReviewsData(rows, DefaultVehicleYears).ids;
    assert |ids| == 1 && ids[0] == Id(0);
    assert Id(0) == "review0";
  }
}
