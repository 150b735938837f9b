/** The CSV export shared by the history panel and the results panel
    (`downloadCsv` in src/components/dashboard/VerificationHistory.tsx and
    src/components/dashboard/VerificationResults.tsx): a header row and one row per
    result, fields joined by ',' and rows by '\n', with no quoting or escaping. */
module CsvExport {
  import opened Wrappers
  import opened Strings
  import opened Types

  /** A file handed to the browser: its name and its text. */
  datatype Download = Download(fileName: string, text: string)

  /** The header row. */
  const Header: seq<string> := ["Email", "Status", "Type", "Suggestion", "Score", "Timestamp"]

  /** The six fields written for one result; an absent type, suggestion or score is
      written as an empty field. */
  function Fields(r: VerificationResult): (f: seq<string>)
    ensures |f| == |Header|
    ensures f[0] == r.email && f[1] == StatusText(r.status) && f[5] == r.timestamp
    ensures f[2] == (if r.kind.Some? then r.kind.value else [])
    ensures f[3] == (if r.suggestion.Some? then r.suggestion.value else [])
    ensures f[4] == (if r.score.Some? then r.score.value.text else [])
  {
    [r.email, StatusText(r.status), r.kind.GetOr(""), r.suggestion.GetOr(""),
     if r.score.Some? then r.score.value.text else "", r.timestamp]
  }

  /** The rows `csvRows` holds once every result has been pushed. */
  function Table(results: seq<VerificationResult>): (t: seq<seq<string>>)
    ensures |t| == |results| + 1 && t[0] == Header
    ensures forall i :: 0 <= i < |results| ==> t[i + 1] == Fields(results[i])
  {
    [Header] + seq(|results|, i requires 0 <= i < |results| => Fields(results[i]))
  }

  /** `csvRows.map(row => row.join(","))`. */
  function JoinRows(rows: seq<seq<string>>): (r: seq<string>)
    ensures |r| == |rows|
  {
    seq(|rows|, k requires 0 <= k < |rows| => Join(rows[k], ','))
  }

  /** The exported text. */
  function CsvText(results: seq<VerificationResult>): string {
    Join(JoinRows(Table(results)), '\n')
  }

  /** The `forEach` that pushes one row per result, then the two joins. */
  method BuildCsv(results: seq<VerificationResult>) returns (csv: string)
    ensures csv == CsvText(results)
  {
    var csvRows := [Header];
    for i := 0 to |results|
      invariant |csvRows| == i + 1 && csvRows[0] == Header
      invariant forall k :: 0 <= k < i ==> csvRows[k + 1] == Fields(results[k])
    {
      csvRows := csvRows + [Fields(results[i])];
    }
    assert csvRows == Table(results);
    csv := Join(JoinRows(csvRows), '\n');
  }

  // ---------------------------------------------------------------- properties

  /** A field that the unescaped format can carry: no ',' and no '\n'. */
  predicate Plain(s: string) {
    FreeOf(s, ',') && FreeOf(s, '\n')
  }

  /** Every field of the result is plain. */
  predicate PlainResult(r: VerificationResult) {
    forall k :: 0 <= k < |Fields(r)| ==> Plain(Fields(r)[k])
  }

  /** The status names and header cells never hold a separator. */
  lemma FixedCellsPlain(r: VerificationResult)
    ensures Plain(Fields(r)[1])
    ensures forall k :: 0 <= k < |Header| ==> Plain(Header[k])
  {
  }

  /** Every cell of the table is plain when every result is. */
  lemma TablePlain(results: seq<VerificationResult>)
    requires forall i :: 0 <= i < |results| ==> PlainResult(results[i])
    ensures forall k, j :: 0 <= k < |Table(results)| && 0 <= j < |Table(results)[k]| ==>
              Plain(Table(results)[k][j])
  {
    var t := Table(results);
    forall k, j | 0 <= k < |t| && 0 <= j < |t[k]| ensures Plain(t[k][j]) {
      if k == 0 {
        assert t[k] == Header;
      } else {
        assert t[k] == Fields(results[k - 1]) && PlainResult(results[k - 1]);
      }
    }
  }

  /** Each joined row of plain cells is one line that splits back into its cells. */
  lemma RowsRoundTrip(t: seq<seq<string>>)
    requires forall k :: 0 <= k < |t| ==> |t[k]| >= 1
    requires forall k, j :: 0 <= k < |t| && 0 <= j < |t[k]| ==> Plain(t[k][j])
    ensures forall k :: 0 <= k < |t| ==>
              FreeOf(JoinRows(t)[k], '\n') && Split(JoinRows(t)[k], {','}) == t[k]
  {
    forall k | 0 <= k < |t|
      ensures FreeOf(JoinRows(t)[k], '\n') && Split(JoinRows(t)[k], {','}) == t[k]
    {
      var row := t[k];
      assert forall j :: 0 <= j < |row| ==> Plain(row[j]);
      JoinFreeOf(row, ',', '\n');
      SplitJoin(row, ',');
    }
  }

  /** Going back from the text: when every field is plain, splitting at '\n' and then at
      ',' gives back the header and every result's fields, in order. */
  lemma ExportRoundTrip(results: seq<VerificationResult>)
    requires forall i :: 0 <= i < |results| ==> PlainResult(results[i])
    ensures var lines := Split(CsvText(results), {'\n'});
            && |lines| == |results| + 1
            && Split(lines[0], {','}) == Header
            && forall i :: 0 <= i < |results| ==> Split(lines[i + 1], {','}) == Fields(results[i])
  {
    var t := Table(results);
    TablePlain(results);
    RowsRoundTrip(t);
    SplitJoin(JoinRows(t), '\n');
  }

  /** The email column read back from the text is the list of addresses, in order. */
  lemma ExportEmailColumn(results: seq<VerificationResult>)
    requires forall i :: 0 <= i < |results| ==> PlainResult(results[i])
    ensures var lines := Split(CsvText(results), {'\n'});
            |lines| == |results| + 1
            && forall i :: 0 <= i < |results| ==> Split(lines[i + 1], {','})[0] == results[i].email
  {
    ExportRoundTrip(results);
  }

}
