/** What `request_data` does with the accumulator once the loop is over:
    a JSON dump, or a table of payload rows written as CSV and, for "df",
    also handed back. */
module Output {
  import opened Transport
  import Fields

  /** A table as the column list plus one payload row per record. */
  datatype Table = Table(columns: seq<string>, rows: seq<map<string, string>>)

  /** The file written under ./data. */
  datatype Artifact = JsonFile(path: string, records: seq<Record>) | CsvFile(path: string, table: Table)

  /** The file written (if any) and the table returned (if any); or the fault
      of the tabular path when no page is left to take field names from. */
  datatype Outcome = Finished(written: Option<Artifact>, returned: Option<Table>) | MissingMetadata

  /** Column names: the comma-separated field list in order, then "ID". */
  function Columns(fields: string): (columns: seq<string>)
    ensures |columns| == Fields.Count(fields, ',') + 2
    ensures columns[|columns| - 1] == "ID"
    ensures Fields.Join(columns[..|columns| - 1], ',') == fields
    ensures forall j :: 0 <= j < |columns| - 1 ==> Fields.Free(columns[j], ',')
  {
    Fields.SplitLength(fields, ',');
    Fields.JoinSplit(fields, ',');
    Fields.SplitPiecesFree(fields, ',');
    var pieces := Fields.Split(fields, ',');
    assert (pieces + ["ID"])[..|pieces|] == pieces;
    pieces + ["ID"]
  }

  /** Each record's payload, in accumulator order. */
  function Rows(data: seq<Record>): seq<map<string, string>>
  {
    seq(|data|, i requires 0 <= i < |data| => data[i].payload)
  }

  /** The branch on `format` after the loop; `last` is the final value of
      `response`, whose field list names the columns. */
  function WriteOutput(data: seq<Record>, last: Option<Page>, format: string, name: string): (o: Outcome)
    ensures format == "json" ==> o == Finished(Some(JsonFile("./data/" + name + ".json", data)), None)
    ensures o.MissingMetadata? <==> (format == "csv" || format == "df") && last.None?
    ensures (format == "csv" || format == "df") && last.Some? ==>
      o.Finished? && o.written.Some? && o.written.value.CsvFile? && o.written.value.path == "./data/" + name + ".csv" &&
      var t := o.written.value.table;
      t.columns == Columns(last.value.fields) &&
      |t.rows| == |data| && (forall i :: 0 <= i < |data| ==> t.rows[i] == data[i].payload) &&
      o.returned == (if format == "df" then Some(t) else None)
    ensures o.Finished? && o.returned.Some? ==> format == "df"
    ensures format != "json" && format != "csv" && format != "df" ==> o == Finished(None, None)
  {
    if format == "json" then
      Finished(Some(JsonFile("./data/" + name + ".json", data)), None)
    else if format == "csv" || format == "df" then
      match last
      case None => MissingMetadata
      case Some(page) =>
        var table := Table(Columns(page.fields), Rows(data));
        Finished(Some(CsvFile("./data/" + name + ".csv", table)), if format == "df" then Some(table) else None)
    else
      Finished(None, None)
  }
}
