/** The lambda-style request and response of the serverless handlers, the
    JSON document a response carries, and the executed-statement log that
    stands for the database connection. */
module Http {
  import opened Common
  import opened Py

  /** A JSON document as `json.dumps` writes it. */
  datatype Json =
    | JNull
    | JBool(b: bool)
    | JInt(i: int)
    | JStr(s: string)
    | JArr(items: seq<Json>)
    | JObj(fields: map<string, Json>)

  /** `json.dumps` of one value; a `datetime` is not serializable. */
  function Encode(v: Value): (r: Result<Json, PyError>)
    ensures r.Err? <==> v.PyDateTime?
    ensures r.Err? ==> r.error == TypeError
  {
    match v
    case PyNone => Ok(JNull)
    case PyBool(b) => Ok(JBool(b))
    case PyInt(i) => Ok(JInt(i))
    case PyStr(s) => Ok(JStr(s))
    case PyDateTime(_, _) => Err(TypeError)
  }

  predicate Encodable(row: Row) {
    forall k :: k in row ==> !row[k].PyDateTime?
  }

  /** A row as a JSON object. */
  function EncodeRow(row: Row): (r: Result<Json, PyError>)
    ensures r.Ok? <==> Encodable(row)
    ensures r.Err? ==> r.error == TypeError
    ensures r.Ok? ==> r.value.JObj? && r.value.fields.Keys == row.Keys &&
                      forall k :: k in row ==> Encode(row[k]) == Ok(r.value.fields[k])
  {
    if Encodable(row) then Ok(JObj(map k | k in row :: Encode(row[k]).value)) else Err(TypeError)
  }

  /** A list of rows as a JSON array. */
  function EncodeRows(rows: seq<Row>): (r: Result<seq<Json>, PyError>)
    ensures r.Ok? <==> forall i :: 0 <= i < |rows| ==> Encodable(rows[i])
    ensures r.Err? ==> r.error == TypeError
    ensures r.Ok? ==> |r.value| == |rows| && forall i :: 0 <= i < |rows| ==> EncodeRow(rows[i]) == Ok(r.value[i])
  {
    if rows == [] then Ok([])
    else match (EncodeRow(rows[0]), EncodeRows(rows[1..]))
      case (Ok(first), Ok(rest)) => Ok([first] + rest)
      case (Err(e), _) => Err(e)
      case (_, Err(e)) => Err(e)
  }

  /** A list of values as a JSON array. */
  function EncodeValues(vs: seq<Value>): (r: Result<seq<Json>, PyError>)
    ensures r.Ok? <==> forall i :: 0 <= i < |vs| ==> !vs[i].PyDateTime?
    ensures r.Err? ==> r.error == TypeError
    ensures r.Ok? ==> |r.value| == |vs| && forall i :: 0 <= i < |vs| ==> Encode(vs[i]) == Ok(r.value[i])
  {
    if vs == [] then Ok([])
    else match (Encode(vs[0]), EncodeValues(vs[1..]))
      case (Ok(first), Ok(rest)) => Ok([first] + rest)
      case (Err(e), _) => Err(e)
      case (_, Err(e)) => Err(e)
  }

  /** A response; `isBase64Encoded` is always false and is not kept. */
  datatype Body = EmptyBody | Document(doc: Json)

  datatype Response = Response(statusCode: int, headers: map<string, string>, body: Body)

  /** The answer to a CORS pre-flight request. */
  function Preflight(allowMethods: string): (r: Response)
    ensures r.statusCode == 200 && r.body == EmptyBody
    ensures r.headers.Keys == {"Access-Control-Allow-Origin", "Access-Control-Allow-Methods",
                               "Access-Control-Allow-Headers", "Access-Control-Max-Age"}
    ensures r.headers["Access-Control-Allow-Methods"] == allowMethods
    ensures r.headers["Access-Control-Allow-Origin"] == "*" && r.headers["Access-Control-Max-Age"] == "86400"
  {
    Response(200, map[
      "Access-Control-Allow-Origin" := "*",
      "Access-Control-Allow-Methods" := allowMethods,
      "Access-Control-Allow-Headers" := "Content-Type",
      "Access-Control-Max-Age" := "86400"], EmptyBody)
  }

  const JsonHeaders: map<string, string> := map["Content-Type" := "application/json", "Access-Control-Allow-Origin" := "*"]

  function JsonResponse(status: int, fields: map<string, Json>): Response {
    Response(status, JsonHeaders, Document(JObj(fields)))
  }

  /** `{'error': message}` with the given status. */
  function ErrorResponse(status: int, message: string): (r: Response)
    ensures r.statusCode == status && r.headers == JsonHeaders
    ensures r.body == Document(JObj(map["error" := JStr(message)]))
  {
    JsonResponse(status, map["error" := JStr(message)])
  }

  const MethodNotAllowed := ErrorResponse(405, "Method not allowed")

  /** A parameterised statement handed to `cursor.execute`. */
  datatype Statement = Statement(sql: string, args: seq<Value>)

  /** The rows the database returns for a statement: `fetchall()` is all of
      them, `fetchone()` the first. */
  type Database = Statement -> seq<Row>

  function FetchOne(rows: seq<Row>): (r: Option<Row>)
    ensures r.None? <==> rows == []
    ensures r.Some? ==> r.value == rows[0]
  {
    if rows == [] then None else Some(rows[0])
  }

  /** The request: `httpMethod` (absent means GET), the query-string
      parameters (`None` when absent or null), and the body (`None` when
      absent; otherwise the decoded JSON object, or the exception that
      `json.loads` or the following `.get` raises). */
  datatype Event = Event(
    httpMethod: Option<string>,
    queryStringParameters: Option<map<string, string>>,
    body: Option<Result<Row, PyError>>)

  /** `event.get('httpMethod', 'GET')`. */
  function Method(e: Event): (m: string)
    ensures e.httpMethod.None? ==> m == "GET"
    ensures e.httpMethod.Some? ==> m == e.httpMethod.value
  {
    if e.httpMethod.Some? then e.httpMethod.value else "GET"
  }

  /** `event.get('queryStringParameters', {}) or {}`. */
  function Params(e: Event): (p: map<string, string>)
    ensures e.queryStringParameters.None? ==> p == map[]
    ensures e.queryStringParameters.Some? ==> p == e.queryStringParameters.value
  {
    if e.queryStringParameters.Some? then e.queryStringParameters.value else map[]
  }

  /** `json.loads(event.get('body', '{}'))`. */
  function BodyData(e: Event): (r: Result<Row, PyError>)
    ensures e.body.None? ==> r == Ok(map[])
    ensures e.body.Some? ==> r == e.body.value
  {
    if e.body.Some? then e.body.value else Ok(map[])
  }

  /** What a handler did: the statements it executed, in order, and the
      response it returned or the exception it let through. */
  datatype Outcome = Outcome(executed: seq<Statement>, result: Result<Response, PyError>)

  function Returned(executed: seq<Statement>, r: Response): Outcome {
    Outcome(executed, Ok(r))
  }

  /** A response built from encoded rows: 200 with the named list, or the
      encoder's exception. */
  function ListResponse(executed: seq<Statement>, key: string, rows: seq<Row>): (o: Outcome)
    ensures o.executed == executed
    ensures o.result.Ok? <==> forall i :: 0 <= i < |rows| ==> Encodable(rows[i])
    ensures o.result.Err? ==> o.result.error == TypeError
    ensures o.result.Ok? ==> o.result.value.statusCode == 200 &&
                             o.result.value.body == Document(JObj(map[key := JArr(EncodeRows(rows).value)]))
  {
    match EncodeRows(rows)
    case Ok(items) => Returned(executed, JsonResponse(200, map[key := JArr(items)]))
    case Err(e) => Outcome(executed, Err(e))
  }
}
