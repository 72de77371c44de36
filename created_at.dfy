/** The post-processing loop of the list handlers that return timestamps:
    each row is copied with a truthy `created_at` replaced by its ISO text,
    so that `json.dumps` accepts it. */
module CreatedAt {
  import opened Common
  import opened Py
  import opened Http

  /** One row's copy with a truthy `created_at` replaced by its
      `isoformat()`; on a value that is not a datetime that call raises. */
  function ConvertCreatedAt(row: Row): (r: Result<Row, PyError>)
    ensures r.Err? <==> "created_at" in row && Truthy(row["created_at"]) && !row["created_at"].PyDateTime?
    ensures r.Err? ==> r.error == AttributeError
    ensures !("created_at" in row && Truthy(row["created_at"])) ==> r == Ok(row)
    ensures r.Ok? ==> r.value.Keys == row.Keys && forall k :: k in row && k != "created_at" ==> r.value[k] == row[k]
    ensures r.Ok? && "created_at" in row && Truthy(row["created_at"]) ==>
              r.value["created_at"] == PyStr(row["created_at"].date + "T" + row["created_at"].time)
  {
    if "created_at" in row && Truthy(row["created_at"]) then
      match IsoFormat(row["created_at"])
      case Ok(text) => Ok(row["created_at" := PyStr(text)])
      case Err(e) => Err(e)
    else Ok(row)
  }

  /** The loop's result: the converted rows in order, or the first failure. */
  function ConvertedRows(rows: seq<Row>): Result<seq<Row>, PyError>
    decreases |rows|
  {
    if rows == [] then Ok([])
    else
      match ConvertedRows(rows[..|rows| - 1])
      case Err(e) => Err(e)
      case Ok(done) =>
        match ConvertCreatedAt(rows[|rows| - 1])
        case Err(e) => Err(e)
        case Ok(row) => Ok(done + [row])
  }

  /** The loop: `result.append(converted)` for each row in turn. */
  method ConvertRows(rows: seq<Row>) returns (r: Result<seq<Row>, PyError>)
    ensures r == ConvertedRows(rows)
  {
    var result: seq<Row> := [];
    for i := 0 to |rows|
      invariant ConvertedRows(rows[..i]) == Ok(result)
    {
      assert rows[..i + 1][..i] == rows[..i];
      var converted := ConvertCreatedAt(rows[i]);
      if converted.Err? {
        FailureStays(rows, i + 1);
        return Err(converted.error);
      }
      result := result + [converted.value];
    }
    assert rows[..|rows|] == rows;
    r := Ok(result);
  }

  /** A failure on a prefix is the failure of the whole list. */
  lemma {:induction false} FailureStays(rows: seq<Row>, k: int)
    requires 0 <= k <= |rows| && ConvertedRows(rows[..k]).Err?
    ensures ConvertedRows(rows) == ConvertedRows(rows[..k])
    decreases |rows| - k
  {
    if k == |rows| {
      assert rows[..k] == rows;
    } else {
      assert rows[..k + 1][..k] == rows[..k];
      FailureStays(rows, k + 1);
    }
  }

  /** The output has the input's length and order, row by row converted;
      it fails exactly when some row has a truthy `created_at` that is not a
      datetime. */
  lemma {:induction false} ConvertedRowsSpec(rows: seq<Row>)
    ensures ConvertedRows(rows).Ok? <==> forall i :: 0 <= i < |rows| ==> ConvertCreatedAt(rows[i]).Ok?
    ensures ConvertedRows(rows).Ok? ==>
              |ConvertedRows(rows).value| == |rows| &&
              forall i :: 0 <= i < |rows| ==> ConvertedRows(rows).value[i] == ConvertCreatedAt(rows[i]).value
    ensures ConvertedRows(rows).Err? ==> ConvertedRows(rows).error == AttributeError
    decreases |rows|
  {
    if rows != [] {
      var init := rows[..|rows| - 1];
      ConvertedRowsSpec(init);
      assert forall i :: 0 <= i < |init| ==> init[i] == rows[i];
    }
  }

  /** Rows whose only datetime is `created_at` encode once converted: the
      conversion is what lets `json.dumps` accept them. */
  lemma ConvertedRowsEncode(rows: seq<Row>)
    requires forall i, k :: 0 <= i < |rows| && k in rows[i] && k != "created_at" ==> !rows[i][k].PyDateTime?
    requires forall i :: 0 <= i < |rows| && "created_at" in rows[i] ==>
               rows[i]["created_at"].PyDateTime? || !Truthy(rows[i]["created_at"])
    ensures ConvertedRows(rows).Ok?
    ensures forall i :: 0 <= i < |ConvertedRows(rows).value| ==> Encodable(ConvertedRows(rows).value[i])
  {
    ConvertedRowsSpec(rows);
    forall i | 0 <= i < |rows|
      ensures Encodable(ConvertedRows(rows).value[i])
    {
      assert ConvertedRows(rows).value[i] == ConvertCreatedAt(rows[i]).value;
    }
  }
}
