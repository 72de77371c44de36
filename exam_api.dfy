/** The exam-preparation endpoint: pre-flight and the filtered list of
    preparation materials. */
module ExamApi {
  import opened Common
  import opened Py
  import opened Http
  import opened SqlQuery
  import opened CreatedAt

  const ExamSelect := @"
            SELECT ep.*, s.name as subject_name, s.icon as subject_icon
            FROM exam_prep ep
            LEFT JOIN subjects s ON ep.subject_id = s.id
            WHERE 1=1
        "

  const ExamOrder := " ORDER BY ep.created_at DESC"

  /** The filters in the handler's order: the exam type ('ЕГЭ' or 'ОГЭ'),
      quoted, then the subject. */
  const ExamConditions: seq<Condition> := [
    QuotedCondition("type", "ep.exam_type"),
    IntCondition("subject_id", "ep.subject_id")
  ]

  function ExamQueryText(params: map<string, string>): Result<string, PyError> {
    BuildQuery(ExamSelect, ExamConditions, params, ExamOrder)
  }

  /** The handler's builder: exam type, then subject, then the order. */
  method ExamQuery(params: map<string, string>) returns (r: Result<string, PyError>)
    ensures r == ExamQueryText(params)
  {
    QueryEnds(ExamSelect, ExamConditions, params, ExamOrder);
    var query := ExamSelect;
    // the type filter
    r := AddCondition(ExamSelect, ExamConditions, params, ExamOrder, 0, query);
    query := r.value;
    // the subject_id filter
    r := AddCondition(ExamSelect, ExamConditions, params, ExamOrder, 1, query);
    if r.Err? {
      return;
    }
    query := r.value;
    r := Ok(query + ExamOrder);
  }

  /** The query fails only on a supplied subject that `int()` rejects; the
      exam type never makes it fail. */
  lemma ExamQueryFails(params: map<string, string>)
    ensures ExamQueryText(params).Err? <==> Supplied(params, "subject_id") && ParseInt(params["subject_id"]).Err?
    ensures ExamQueryText(params).Err? ==> ExamQueryText(params).error == ValueError
  {
    var conds := ExamConditions;
    QueryFails(ExamSelect, conds, params, ExamOrder);
    assert conds[0].param == "type" && conds[1].param == "subject_id";
  }

  /** The query keeps its fixed start and the `ORDER BY ep.created_at DESC`
      end; with no filter it is just those two. */
  lemma ExamQueryFrame(params: map<string, string>)
    ensures ExamQueryText(params).Ok? ==>
              var q := ExamQueryText(params).value;
              |q| >= |ExamSelect| + |ExamOrder| &&
              q[..|ExamSelect|] == ExamSelect && q[|q| - |ExamOrder|..] == ExamOrder
    ensures !Supplied(params, "type") && !Supplied(params, "subject_id") ==>
              ExamQueryText(params) == Ok(ExamSelect + ExamOrder)
  {
    QueryFrame(ExamSelect, ExamConditions, params, ExamOrder);
    if !Supplied(params, "type") && !Supplied(params, "subject_id") {
      NothingSupplied(ExamSelect, ExamConditions, params, ExamOrder);
    }
  }

  /** With both filters supplied the type clause comes before the subject
      clause. */
  lemma ExamFiltersInOrder(params: map<string, string>)
    requires ExamQueryText(params).Ok?
    requires Supplied(params, "type") && Supplied(params, "subject_id")
    ensures ClauseText(ExamConditions[0], params["type"]).Ok?
    ensures ClauseText(ExamConditions[1], params["subject_id"]).Ok?
    ensures OccursBefore(ExamQueryText(params).value,
                         ClauseText(ExamConditions[0], params["type"]).value,
                         ClauseText(ExamConditions[1], params["subject_id"]).value)
  {
    QueryHasClauses(ClauseText, ExamSelect, ExamConditions, params, ExamOrder, 0, 1);
  }

  /** The clause prefix as the handler spells it. */
  lemma TypeClauseSpelling()
    ensures " AND " + "ep.exam_type" + " = '" == " AND ep.exam_type = '"
  {
  }

  /** A supplied exam type is spliced into the query as it is, between
      quotes. */
  lemma TypeVerbatim(params: map<string, string>)
    requires ExamQueryText(params).Ok? && Supplied(params, "type")
    ensures Contains(ExamQueryText(params).value, " AND ep.exam_type = '" + params["type"] + "'")
  {
    assert ExamConditions[0] == QuotedCondition("type", "ep.exam_type");
    QueryHasClause(ClauseText, ExamSelect, ExamConditions, params, ExamOrder, 0);
    TypeClauseSpelling();
  }

  /** The materials, with `created_at` converted to its ISO text. */
  function Materials(params: map<string, string>, db: Database): Outcome {
    match ExamQueryText(params)
    case Err(e) => Outcome([], Err(e))
    case Ok(q) =>
      var query := Statement(q, []);
      match ConvertedRows(db(query))
      case Err(e) => Outcome([query], Err(e))
      case Ok(rows) => ListResponse([query], "materials", rows)
  }

  function Handle(e: Event, db: Database): Outcome {
    var httpMethod := Method(e);
    if httpMethod == "OPTIONS" then Returned([], Preflight("GET, OPTIONS"))
    else if httpMethod != "GET" then Returned([], MethodNotAllowed)
    else Materials(Params(e), db)
  }

  /** The handler as it runs: the query built step by step and the
      conversion loop over the fetched rows. */
  method HandleRequest(e: Event, db: Database) returns (out: Outcome)
    ensures out == Handle(e, db)
  {
    var httpMethod := Method(e);
    if httpMethod == "OPTIONS" {
      return Returned([], Preflight("GET, OPTIONS"));
    }
    if httpMethod != "GET" {
      return Returned([], MethodNotAllowed);
    }
    var q := ExamQuery(Params(e));
    if q.Err? {
      return Outcome([], Err(q.error));
    }
    var query := Statement(q.value, []);
    var materials := ConvertRows(db(query));
    if materials.Err? {
      return Outcome([query], Err(materials.error));
    }
    out := ListResponse([query], "materials", materials.value);
  }

  /** Pre-flight and refusal: OPTIONS answers the CORS headers for GET, any
      other method but GET is 405, and neither touches the database. */
  lemma NonGetAnsweredAtOnce(e: Event, db: Database)
    requires Method(e) != "GET"
    ensures Handle(e, db).executed == [] && Handle(e, db).result.Ok?
    ensures Method(e) == "OPTIONS" ==>
              Handle(e, db).result.value == Preflight("GET, OPTIONS") &&
              Handle(e, db).result.value.headers["Access-Control-Allow-Methods"] == "GET, OPTIONS"
    ensures Method(e) != "OPTIONS" ==> Handle(e, db).result.value == MethodNotAllowed
  {
  }

  /** A GET runs the one list query and answers every material, converted,
      under `materials`; materials whose only datetime is `created_at`
      always encode. */
  lemma MaterialsListed(params: map<string, string>, db: Database)
    requires ExamQueryText(params).Ok?
    ensures var rows := db(Statement(ExamQueryText(params).value, []));
            Materials(params, db).executed == [Statement(ExamQueryText(params).value, [])] &&
            (Materials(params, db).result.Ok? ==>
               ConvertedRows(rows).Ok? &&
               Materials(params, db).result.value.body ==
                 Document(JObj(map["materials" := JArr(EncodeRows(ConvertedRows(rows).value).value)])) &&
               |EncodeRows(ConvertedRows(rows).value).value| == |rows|)
    ensures var rows := db(Statement(ExamQueryText(params).value, []));
            (forall i, k :: 0 <= i < |rows| && k in rows[i] && k != "created_at" ==> !rows[i][k].PyDateTime?) &&
            (forall i :: 0 <= i < |rows| && "created_at" in rows[i] ==>
               rows[i]["created_at"].PyDateTime? || !Truthy(rows[i]["created_at"])) ==>
              Materials(params, db).result.Ok?
  {
    var rows := db(Statement(ExamQueryText(params).value, []));
    ConvertedRowsSpec(rows);
    if (forall i, k :: 0 <= i < |rows| && k in rows[i] && k != "created_at" ==> !rows[i][k].PyDateTime?) &&
       (forall i :: 0 <= i < |rows| && "created_at" in rows[i] ==>
          rows[i]["created_at"].PyDateTime? || !Truthy(rows[i]["created_at"])) {
      ConvertedRowsEncode(rows);
    }
  }
}
