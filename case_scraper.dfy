/**
 * The refresh of the local copy of the New York Times live county table
 * (covid_case_scraper.py). The downloaded text is a parameter; the local
 * cache is represented by the date in its first row, or None when it cannot
 * be read; "writing" the cache returns the table that would be written.
 */
module CaseScraper {
  import opened Outcomes
  import opened PyStrings

  /** The last header column; the live table's first date follows it. */
  const ProbableDeaths: string := "probable_deaths"

  /** The header written to the local table, in this order. */
  const ColumnNames: seq<string> := [
    "date", "county", "state", "fips", "cases", "deaths",
    "confirmed_cases", "confirmed_deaths", "probable_cases", "probable_deaths"
  ]

  /** Number of comma-separated fields read from each record. */
  const FieldCount: nat := 9

  /**
   * A cell of the table being built: `Unset` is the `None` it is preallocated
   * with, `Zero` the float `0.` written for a missing or empty field.
   */
  datatype Cell = Unset | Text(text: string) | Zero

  datatype Table = Table(columns: seq<string>, rows: seq<seq<Cell>>)

  /** The downloaded text with every newline removed (the module-level `replace`). */
  function StripNewlines(download: string): (r: string)
    ensures r == DropChar(download, '\n')
    ensures '\n' !in r
  {
    RemoveCharGone(download, '\n');
    ReplaceIsDrop(download, '\n');
    Replace(download, "\n", "")
  }

  /**
   * `full.split('probable_deaths')[1].split(',')[0]`: None stands for the
   * IndexError raised when the header is missing.
   */
  function UpdatedDate(full: string): (r: Option<string>)
    ensures r.None? <==> !Contains(full, ProbableDeaths)
  {
    FindNoneIffAbsent(full, ProbableDeaths);
    var parts := Split(full, ProbableDeaths);
    if |parts| < 2 then None else Some(Split(parts[1], ",")[0])
  }

  /** The module-level statements ran without raising: the header was found. */
  predicate Loaded(download: string) {
    UpdatedDate(StripNewlines(download)).Some?
  }

  /**
   * The date stamp is the text right after the first `probable_deaths`, up to
   * the next comma, the next `probable_deaths` or the end, whichever is first.
   */
  lemma UpdatedDateLocation(full: string)
    requires UpdatedDate(full).Some?
    ensures Find(full, ProbableDeaths).Some?
    ensures var i := Find(full, ProbableDeaths).value;
            var rest := full[i + |ProbableDeaths|..];
            var d := UpdatedDate(full).value;
            && d <= rest
            && ',' !in d
            && !Contains(d, ProbableDeaths)
            && (|d| == |rest| || rest[|d|] == ',' || OccursAt(rest, ProbableDeaths, |d|))
  {
    var i := Find(full, ProbableDeaths).value;
    var rest := full[i + |ProbableDeaths|..];
    SplitStep(full, ProbableDeaths, i);
    var seg := Split(rest, ProbableDeaths)[0];
    var d := Split(seg, ",")[0];
    SplitHead(rest, ProbableDeaths);
    SplitHead(seg, ",");
    SplitPiecesFree(rest, ProbableDeaths);
    SplitPiecesFree(seg, ",");
    NotContainsChar(d, ',');
    NotContainsPrefix(seg, |d|, ProbableDeaths);
    assert seg[..|d|] == d;
    assert Split(full, ProbableDeaths)[1] == seg;
    assert UpdatedDate(full).value == d;
    if d == seg {
      assert seg == rest || OccursAt(rest, ProbableDeaths, |d|);
    } else {
      assert OccursAt(seg, ",", |d|);
      assert rest[|d|] == seg[|d|] == ',';
    }
  }

  /** The records: the text after the header cut at every `updated_date + ','`, dropping what precedes the first cut. */
  function CaseList(full: string, date: string): seq<string>
    requires UpdatedDate(full).Some?
  {
    Split(Split(full, ProbableDeaths)[1], date + ",")[1..]
  }

  /**
   * The body after the header is the discarded prefix followed by one record
   * per occurrence of the separator, and no record holds the separator:
   * there is one record per occurrence.
   */
  lemma CaseListReassembles(full: string, date: string)
    requires UpdatedDate(full).Some?
    ensures var body := Split(full, ProbableDeaths)[1];
            var sep := date + ",";
            && Join([Split(body, sep)[0]] + CaseList(full, date), sep) == body
            && forall k :: 0 <= k < |CaseList(full, date)| ==> !Contains(CaseList(full, date)[k], sep)
  {
    var body := Split(full, ProbableDeaths)[1];
    var sep := date + ",";
    var parts := Split(body, sep);
    JoinSplit(body, sep);
    SplitPiecesFree(body, sep);
    assert [parts[0]] + parts[1..] == parts;
  }

  /** Entry `column + 1` of a row: field `column` of the record, or 0 when it is missing, empty or holds a newline. */
  function Entry(record: string, column: nat): Cell
  {
    var fields := Split(record, ",");
    if column >= |fields| then Zero
    else if fields[column] == "" || '\n' in fields[column] then Zero
    else Text(fields[column])
  }

  /** The ten cells written for one record. */
  function RowCells(date: string, record: string): (r: seq<Cell>)
    ensures |r| == |ColumnNames| && r[0] == Text(date)
    ensures Unset !in r
  {
    [Text(date)] + seq(FieldCount, c requires 0 <= c => Entry(record, c))
  }

  /** All rows written for a list of records. */
  function CaseRows(date: string, records: seq<string>): (r: seq<seq<Cell>>)
    ensures |r| == |records|
  {
    seq(|records|, i requires 0 <= i < |records| => RowCells(date, records[i]))
  }

  /**
   * Entry `c + 1` of every written row is field `c` of its record when that
   * field exists and is non-empty, and 0 otherwise: the newline test never
   * fires because the newlines were stripped first.
   */
  lemma ParsedEntry(download: string, k: nat, c: nat)
    requires Loaded(download)
    requires k < |CaseList(StripNewlines(download), UpdatedDate(StripNewlines(download)).value)|
    requires c < FieldCount
    ensures var full := StripNewlines(download);
            var date := UpdatedDate(full).value;
            var records := CaseList(full, date);
            var fields := Split(records[k], ",");
            CaseRows(date, records)[k][c + 1] ==
              if c < |fields| && fields[c] != "" then Text(fields[c]) else Zero
  {
    var full := StripNewlines(download);
    var date := UpdatedDate(full).value;
    var body := Split(full, ProbableDeaths)[1];
    CharAbsentFromPieces(full, ProbableDeaths, '\n');
    CharAbsentFromPieces(body, date + ",", '\n');
    var records := CaseList(full, date);
    assert records[k] == Split(body, date + ",")[k + 1];
    CharAbsentFromPieces(records[k], ",", '\n');
  }

  /** Fields after the ninth do not change the row. */
  lemma ExtraFieldsIgnored(date: string, record: string, extra: string)
    requires |Split(record, ",")| >= FieldCount
    ensures RowCells(date, record + "," + extra) == RowCells(date, record)
  {
    SplitAroundChar(record, ',', extra);
    var longer := RowCells(date, record + "," + extra);
    forall c | 0 <= c < FieldCount ensures Entry(record + "," + extra, c) == Entry(record, c) {
    }
  }

  /**
   * A record written as nine non-empty fields without commas or newlines is
   * read back as those nine fields after the date.
   */
  lemma RowRoundTrip(date: string, fields: seq<string>)
    requires |fields| == FieldCount
    requires forall c :: 0 <= c < FieldCount ==> fields[c] != "" && ',' !in fields[c] && '\n' !in fields[c]
    ensures forall c :: 0 <= c < FieldCount ==> RowCells(date, Join(fields, ","))[c + 1] == Text(fields[c])
  {
    SplitJoinChar(fields, ',');
  }

  /** The cache is rewritten exactly when it cannot be read or its first date differs. */
  predicate NeedsRewrite(localFirstDate: Option<string>, updatedDate: string) {
    localFirstDate.None? || localFirstDate.value != updatedDate
  }

  /**
   * Fills the preallocated `len(case_list) x 10` table in place: the date in
   * column 0, then the nine fields of each record.
   */
  method BuildCasesArray(date: string, records: seq<string>) returns (cases: array2<Cell>)
    ensures cases.Length0 == |records| && cases.Length1 == |ColumnNames|
    ensures forall i, j :: 0 <= i < |records| && 0 <= j < |ColumnNames| ==>
              cases[i, j] == RowCells(date, records[i])[j]
  {
    cases := new Cell[|records|, |ColumnNames|]((i, j) => Unset);
    var ind := 0;
    while ind < |records|
      invariant 0 <= ind <= |records|
      invariant forall i, j :: 0 <= i < ind && 0 <= j < |ColumnNames| ==>
                  cases[i, j] == RowCells(date, records[i])[j]
    {
      var record := records[ind];
      cases[ind, 0] := Text(date);
      var column := 0;
      while column < FieldCount
        invariant 0 <= column <= FieldCount
        invariant forall i, j :: 0 <= i < ind && 0 <= j < |ColumnNames| ==>
                    cases[i, j] == RowCells(date, records[i])[j]
        invariant cases[ind, 0] == Text(date)
        invariant forall c :: 0 <= c < column ==> cases[ind, c + 1] == Entry(record, c)
      {
        var fields := Split(record, ",");
        var entry: Cell;
        if column < |fields| {
          entry := Text(fields[column]);
          if fields[column] == "" || '\n' in fields[column] {
            entry := Zero;
          }
        } else {
          // `case.split(',')[column]` raised IndexError
          entry := Zero;
        }
        cases[ind, column + 1] := entry;
        column := column + 1;
      }
      ind := ind + 1;
    }
  }

  /** The rows of a two-dimensional table, as sequences. */
  function Rows(a: array2<Cell>): seq<seq<Cell>>
    reads a
  {
    seq(a.Length0, i requires 0 <= i < a.Length0 reads a =>
      seq(a.Length1, j requires 0 <= j < a.Length1 reads a => a[i, j]))
  }

  /**
   * `create_covid_csv`: decides whether the local table is stale and, if so,
   * returns the table written in its place; None means nothing is written.
   */
  method CreateCovidCsv(download: string, localFirstDate: Option<string>) returns (written: Option<Table>)
    requires Loaded(download)
    ensures var full := StripNewlines(download);
            var date := UpdatedDate(full).value;
            && (written.Some? <==> NeedsRewrite(localFirstDate, date))
            && (written.Some? ==> written.value == Table(ColumnNames, CaseRows(date, CaseList(full, date))))
  {
    var full := StripNewlines(download);
    var updatedDate := UpdatedDate(full).value;
    var writeFile := false;
    match localFirstDate {
      case None =>
        // reading the local table failed
        writeFile := true;
      case Some(localDate) =>
        if localDate != updatedDate {
          writeFile := true;
        }
    }
    if !writeFile {
      written := None;
    } else {
      var caseList := Split(Split(full, ProbableDeaths)[1], updatedDate + ",")[1..];
      var casesArray := BuildCasesArray(updatedDate, caseList);
      var rows := Rows(casesArray);
      assert rows == CaseRows(updatedDate, caseList) by {
        forall i | 0 <= i < |caseList| ensures rows[i] == CaseRows(updatedDate, caseList)[i] {
          assert |rows[i]| == |ColumnNames|;
        }
      }
      written := Some(Table(ColumnNames, rows));
    }
  }
}
