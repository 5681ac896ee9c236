/** The predictions API of the database service: every row of the
    `predictions` table, as fetched, becomes one JSON record whose keys name
    the table's columns. The query itself is an input. */
module PredictionsApi {

  /** A value SQLite returns for one column. */
  datatype SqlValue = SqlInt(i: int) | SqlText(s: string) | SqlReal(r: real) | SqlNull

  /** A fetched row: one value per column, in the table's column order. */
  type Row = seq<SqlValue>

  /** A JSON record keyed by column name. */
  type Record = map<string, SqlValue>

  /** The columns of the `predictions` table in declaration order:
      id, date, time, platform, status, confidence, media_format. */
  const Columns: seq<string> := ["id", "date", "time", "platform", "status", "confidence", "media_format"]

  /** The record built for one row, keys written out as in the handler. */
  function ToRecord(row: Row): Record
    requires |row| == 7
  {
    map["id" := row[0], "date" := row[1], "time" := row[2], "platform" := row[3],
        "status" := row[4], "confidence" := row[5], "media_format" := row[6]]
  }

  /** Reading a record back in column order. */
  function ToRow(rec: Record): Row
    requires forall c :: c in Columns ==> c in rec
  {
    seq(|Columns|, i requires 0 <= i < |Columns| => rec[Columns[i]])
  }

  /** Each key of a record is a column name, and the value under the name of
      column `i` is the row's `i`-th value: the mapping agrees with the
      table's column order, so reading the record back gives the row. */
  lemma RecordFollowsSchema(row: Row)
    requires |row| == 7
    ensures ToRecord(row).Keys == set c | c in Columns
    ensures forall i :: 0 <= i < |Columns| ==> ToRecord(row)[Columns[i]] == row[i]
    ensures ToRow(ToRecord(row)) == row
  {
    var rec := ToRecord(row);
    assert forall i :: 0 <= i < |Columns| ==> rec[Columns[i]] == row[i] by {
      assert Columns[0] == "id" && Columns[1] == "date" && Columns[2] == "time" && Columns[3] == "platform";
      assert Columns[4] == "status" && Columns[5] == "confidence" && Columns[6] == "media_format";
    }
  }

  /** The column names are pairwise distinct, so no value hides another. */
  lemma ColumnsDistinct()
    ensures forall i, j :: 0 <= i < j < |Columns| ==> Columns[i] != Columns[j]
  {
  }

  /** `get_predictions`: one record per row, in row order. */
  method GetPredictions(records: seq<Row>) returns (response: seq<Record>)
    requires forall k :: 0 <= k < |records| ==> |records[k]| == 7
    ensures |response| == |records|
    ensures forall k :: 0 <= k < |records| ==> response[k] == ToRecord(records[k])
    ensures records == [] ==> response == []
  {
    response := [];
    var k := 0;
    while k < |records|
      invariant 0 <= k <= |records|
      invariant |response| == k
      invariant forall m :: 0 <= m < k ==> response[m] == ToRecord(records[m])
    {
      response := response + [ToRecord(records[k])];
      k := k + 1;
    }
  }
}
