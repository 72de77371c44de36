/** The catalogue endpoint: grades, subjects, textbook solutions and
    textbooks, chosen by the `resource` query-string parameter. */
module GradesApi {
  import opened Common
  import opened Py
  import opened Http
  import opened SqlQuery
  import opened CreatedAt

  const GradesSql := "SELECT * FROM grades ORDER BY grade_number"

  /** The subject ids the subjects listing leaves out: 21 through 37. */
  const ExcludedSubjects: seq<int> := [21, 22, 23, 24, 25, 26, 27, 28, 29, 30, 31, 32, 33, 34, 35, 36, 37]

  /** Ids written as a comma-separated list of decimal numerals. */
  function IdList(ids: seq<int>): string {
    if ids == [] then ""
    else if |ids| == 1 then IntToString(ids[0])
    else IntToString(ids[0]) + ", " + IdList(ids[1..])
  }

  /** The subjects listing, written with the excluded ids. */
  const SubjectsSql := "SELECT * FROM subjects WHERE id NOT IN (" + IdList(ExcludedSubjects) + ") ORDER BY name"

  const SolutionsSelect := @"
                SELECT ts.*, t.title as textbook_title, t.author, g.name as grade_name, s.name as subject_name
                FROM textbook_solutions ts
                LEFT JOIN textbooks t ON ts.textbook_id = t.id
                LEFT JOIN grades g ON ts.grade_id = g.id
                LEFT JOIN subjects s ON ts.subject_id = s.id
                WHERE 1=1
            "

  const SolutionsOrder := " ORDER BY ts.page_number, ts.task_number"

  const SolutionConditions: seq<Condition> := [
    IntCondition("grade_id", "ts.grade_id"),
    IntCondition("subject_id", "ts.subject_id"),
    IntCondition("textbook_id", "ts.textbook_id")
  ]

  const TextbooksSelect := @"
                SELECT t.*, g.name as grade_name, s.name as subject_name, s.icon as subject_icon
                FROM textbooks t
                LEFT JOIN grades g ON t.grade_id = g.id
                LEFT JOIN subjects s ON t.subject_id = s.id
                WHERE 1=1
            "

  const TextbooksOrder := " ORDER BY t.year DESC, t.title"

  const TextbookConditions: seq<Condition> := [
    IntCondition("grade_id", "t.grade_id"),
    IntCondition("subject_id", "t.subject_id"),
    IntCondition("year", "t.year")
  ]

  const YearsSql := "SELECT DISTINCT year FROM textbooks WHERE year IS NOT NULL ORDER BY year DESC"

  const UnknownResource := "Unknown resource"

  /** The subjects listing leaves out exactly the ids 21 to 37. */
  lemma SubjectsExcludeRange()
    ensures forall n :: n in ExcludedSubjects <==> 21 <= n <= 37
  {
    forall n | 21 <= n <= 37 ensures n in ExcludedSubjects {
      assert ExcludedSubjects[n - 21] == n;
    }
  }

  // ---------------------------------------------------------------------
  // The two filtered queries
  // ---------------------------------------------------------------------

  function SolutionsQueryText(params: map<string, string>): Result<string, PyError> {
    BuildQuery(SolutionsSelect, SolutionConditions, params, SolutionsOrder)
  }

  function TextbooksQueryText(params: map<string, string>): Result<string, PyError> {
    BuildQuery(TextbooksSelect, TextbookConditions, params, TextbooksOrder)
  }

  /** The solutions query, built one `query +=` at a time. */
  method SolutionsQuery(params: map<string, string>) returns (r: Result<string, PyError>)
    ensures r == SolutionsQueryText(params)
  {
    QueryEnds(SolutionsSelect, SolutionConditions, params, SolutionsOrder);
    var query := SolutionsSelect;
    // the grade_id filter
    r := AddCondition(SolutionsSelect, SolutionConditions, params, SolutionsOrder, 0, query);
    if r.Err? {
      return;
    }
    query := r.value;
    // the subject_id filter
    r := AddCondition(SolutionsSelect, SolutionConditions, params, SolutionsOrder, 1, query);
    if r.Err? {
      return;
    }
    query := r.value;
    // the textbook_id filter
    r := AddCondition(SolutionsSelect, SolutionConditions, params, SolutionsOrder, 2, query);
    if r.Err? {
      return;
    }
    query := r.value;
    r := Ok(query + SolutionsOrder);
  }

  /** The textbooks query, built one `query +=` at a time. */
  method TextbooksQuery(params: map<string, string>) returns (r: Result<string, PyError>)
    ensures r == TextbooksQueryText(params)
  {
    QueryEnds(TextbooksSelect, TextbookConditions, params, TextbooksOrder);
    var query := TextbooksSelect;
    // the grade_id filter
    r := AddCondition(TextbooksSelect, TextbookConditions, params, TextbooksOrder, 0, query);
    if r.Err? {
      return;
    }
    query := r.value;
    // the subject_id filter
    r := AddCondition(TextbooksSelect, TextbookConditions, params, TextbooksOrder, 1, query);
    if r.Err? {
      return;
    }
    query := r.value;
    // the year filter
    r := AddCondition(TextbooksSelect, TextbookConditions, params, TextbooksOrder, 2, query);
    if r.Err? {
      return;
    }
    query := r.value;
    r := Ok(query + TextbooksOrder);
  }

  /** The solutions query fails only on a supplied filter that `int()`
      rejects, and then with `ValueError`. */
  lemma SolutionsQueryFails(params: map<string, string>)
    ensures SolutionsQueryText(params).Err? <==>
              (Supplied(params, "grade_id") && ParseInt(params["grade_id"]).Err?) ||
              (Supplied(params, "subject_id") && ParseInt(params["subject_id"]).Err?) ||
              (Supplied(params, "textbook_id") && ParseInt(params["textbook_id"]).Err?)
    ensures SolutionsQueryText(params).Err? ==> SolutionsQueryText(params).error == ValueError
  {
    var conds := SolutionConditions;
    QueryFails(SolutionsSelect, conds, params, SolutionsOrder);
    assert conds[0].param == "grade_id" && conds[1].param == "subject_id" && conds[2].param == "textbook_id";
  }

  /** The textbooks query fails only on a supplied filter that `int()`
      rejects, and then with `ValueError`. */
  lemma TextbooksQueryFails(params: map<string, string>)
    ensures TextbooksQueryText(params).Err? <==>
              (Supplied(params, "grade_id") && ParseInt(params["grade_id"]).Err?) ||
              (Supplied(params, "subject_id") && ParseInt(params["subject_id"]).Err?) ||
              (Supplied(params, "year") && ParseInt(params["year"]).Err?)
    ensures TextbooksQueryText(params).Err? ==> TextbooksQueryText(params).error == ValueError
  {
    var conds := TextbookConditions;
    QueryFails(TextbooksSelect, conds, params, TextbooksOrder);
    assert conds[0].param == "grade_id" && conds[1].param == "subject_id" && conds[2].param == "year";
  }

  /** Two supplied filters' clauses appear in the order grade, subject, textbook. */
  lemma SolutionsFiltersInOrder(params: map<string, string>, i: int, j: int)
    requires SolutionsQueryText(params).Ok?
    requires 0 <= i < j < |SolutionConditions|
    requires Supplied(params, SolutionConditions[i].param) && Supplied(params, SolutionConditions[j].param)
    ensures ClauseText(SolutionConditions[i], params[SolutionConditions[i].param]).Ok?
    ensures ClauseText(SolutionConditions[j], params[SolutionConditions[j].param]).Ok?
    ensures OccursBefore(SolutionsQueryText(params).value,
                         ClauseText(SolutionConditions[i], params[SolutionConditions[i].param]).value,
                         ClauseText(SolutionConditions[j], params[SolutionConditions[j].param]).value)
  {
    QueryHasClauses(ClauseText, SolutionsSelect, SolutionConditions, params, SolutionsOrder, i, j);
  }

  /** Two supplied filters' clauses appear in the order grade, subject, year. */
  lemma TextbooksFiltersInOrder(params: map<string, string>, i: int, j: int)
    requires TextbooksQueryText(params).Ok?
    requires 0 <= i < j < |TextbookConditions|
    requires Supplied(params, TextbookConditions[i].param) && Supplied(params, TextbookConditions[j].param)
    ensures ClauseText(TextbookConditions[i], params[TextbookConditions[i].param]).Ok?
    ensures ClauseText(TextbookConditions[j], params[TextbookConditions[j].param]).Ok?
    ensures OccursBefore(TextbooksQueryText(params).value,
                         ClauseText(TextbookConditions[i], params[TextbookConditions[i].param]).value,
                         ClauseText(TextbookConditions[j], params[TextbookConditions[j].param]).value)
  {
    QueryHasClauses(ClauseText, TextbooksSelect, TextbookConditions, params, TextbooksOrder, i, j);
  }

  /** The solutions query keeps its fixed start and end; without filters it
      is just the two. */
  lemma SolutionsQueryFrame(params: map<string, string>)
    ensures SolutionsQueryText(params).Ok? ==>
              var q := SolutionsQueryText(params).value;
              |q| >= |SolutionsSelect| + |SolutionsOrder| &&
              q[..|SolutionsSelect|] == SolutionsSelect && q[|q| - |SolutionsOrder|..] == SolutionsOrder
    ensures params == map[] ==> SolutionsQueryText(params) == Ok(SolutionsSelect + SolutionsOrder)
  {
    QueryFrame(SolutionsSelect, SolutionConditions, params, SolutionsOrder);
    if params == map[] {
      NothingSupplied(SolutionsSelect, SolutionConditions, params, SolutionsOrder);
    }
  }

  /** The textbooks query keeps its fixed start and end; without filters it
      is just the two. */
  lemma TextbooksQueryFrame(params: map<string, string>)
    ensures TextbooksQueryText(params).Ok? ==>
              var q := TextbooksQueryText(params).value;
              |q| >= |TextbooksSelect| + |TextbooksOrder| &&
              q[..|TextbooksSelect|] == TextbooksSelect && q[|q| - |TextbooksOrder|..] == TextbooksOrder
    ensures params == map[] ==> TextbooksQueryText(params) == Ok(TextbooksSelect + TextbooksOrder)
  {
    QueryFrame(TextbooksSelect, TextbookConditions, params, TextbooksOrder);
    if params == map[] {
      NothingSupplied(TextbooksSelect, TextbookConditions, params, TextbooksOrder);
    }
  }

  // ---------------------------------------------------------------------
  // The handler
  // ---------------------------------------------------------------------

  /** `[row['year'] for row in years_result]`. */
  function AvailableYears(rows: seq<Row>): (r: Result<seq<Value>, PyError>)
    ensures r.Ok? <==> forall i :: 0 <= i < |rows| ==> "year" in rows[i]
    ensures r.Ok? ==> |r.value| == |rows| && forall i :: 0 <= i < |rows| ==> r.value[i] == rows[i]["year"]
    ensures r.Err? ==> r.error == KeyError
  {
    if rows == [] then Ok([])
    else if "year" !in rows[0] then Err(KeyError)
    else
      match AvailableYears(rows[1..])
      case Ok(rest) => Ok([rows[0]["year"]] + rest)
      case Err(e) => Err(e)
  }

  /** `params.get('resource', 'grades')`. */
  function Resource(params: map<string, string>): string {
    if "resource" in params then params["resource"] else "grades"
  }

  /** `resource == 'textbook_solutions'`: the filtered solutions, converted. */
  function Solutions(params: map<string, string>, db: Database): Outcome {
    match SolutionsQueryText(params)
    case Err(e) => Outcome([], Err(e))
    case Ok(q) =>
      var query := Statement(q, []);
      match ConvertedRows(db(query))
      case Err(e) => Outcome([query], Err(e))
      case Ok(rows) => ListResponse([query], "solutions", rows)
  }

  /** `resource == 'textbooks'`: the filtered textbooks, converted, and the
      years that have a textbook. */
  function Textbooks(params: map<string, string>, db: Database): Outcome {
    match TextbooksQueryText(params)
    case Err(e) => Outcome([], Err(e))
    case Ok(q) =>
      var query := Statement(q, []);
      match ConvertedRows(db(query))
      case Err(e) => Outcome([query], Err(e))
      case Ok(rows) =>
        var years := Statement(YearsSql, []);
        match AvailableYears(db(years))
        case Err(e) => Outcome([query, years], Err(e))
        case Ok(available) =>
          match (EncodeRows(rows), EncodeValues(available))
          case (Ok(textbooks), Ok(yearsDoc)) =>
            Returned([query, years], JsonResponse(200, map[
              "textbooks" := JArr(textbooks), "available_years" := JArr(yearsDoc)]))
          case (Err(e), _) => Outcome([query, years], Err(e))
          case (_, Err(e)) => Outcome([query, years], Err(e))
  }

  function Handle(e: Event, db: Database): Outcome {
    var httpMethod := Method(e);
    if httpMethod == "OPTIONS" then Returned([], Preflight("GET, OPTIONS"))
    else if httpMethod != "GET" then Returned([], MethodNotAllowed)
    else
      var params := Params(e);
      var resource := Resource(params);
      if resource == "grades" then
        ListResponse([Statement(GradesSql, [])], "grades", db(Statement(GradesSql, [])))
      else if resource == "subjects" then
        ListResponse([Statement(SubjectsSql, [])], "subjects", db(Statement(SubjectsSql, [])))
      else if resource == "textbook_solutions" then Solutions(params, db)
      else if resource == "textbooks" then Textbooks(params, db)
      else Returned([], ErrorResponse(400, UnknownResource))
  }

  /** The handler as it runs: the queries built step by step and the rows
      converted by the loop. */
  method HandleRequest(e: Event, db: Database) returns (out: Outcome)
    ensures out == Handle(e, db)
  {
    var httpMethod := Method(e);
    if httpMethod == "OPTIONS" {
      return Returned([], Preflight("GET, OPTIONS"));
    }
    if httpMethod != "GET" {
      return Returned([], MethodNotAllowed);
    }
    var params := Params(e);
    var resource := Resource(params);
    if resource == "grades" {
      var grades := db(Statement(GradesSql, []));
      return ListResponse([Statement(GradesSql, [])], "grades", grades);
    } else if resource == "subjects" {
      var subjects := db(Statement(SubjectsSql, []));
      return ListResponse([Statement(SubjectsSql, [])], "subjects", subjects);
    } else if resource == "textbook_solutions" {
      var q := SolutionsQuery(params);
      if q.Err? {
        return Outcome([], Err(q.error));
      }
      var query := Statement(q.value, []);
      var solutions := ConvertRows(db(query));
      if solutions.Err? {
        return Outcome([query], Err(solutions.error));
      }
      return ListResponse([query], "solutions", solutions.value);
    } else if resource == "textbooks" {
      var q := TextbooksQuery(params);
      if q.Err? {
        return Outcome([], Err(q.error));
      }
      var query := Statement(q.value, []);
      var textbooks := ConvertRows(db(query));
      if textbooks.Err? {
        return Outcome([query], Err(textbooks.error));
      }
      var years := Statement(YearsSql, []);
      var available := AvailableYears(db(years));
      if available.Err? {
        return Outcome([query, years], Err(available.error));
      }
      var textbooksDoc := EncodeRows(textbooks.value);
      if textbooksDoc.Err? {
        return Outcome([query, years], Err(textbooksDoc.error));
      }
      var yearsDoc := EncodeValues(available.value);
      if yearsDoc.Err? {
        return Outcome([query, years], Err(yearsDoc.error));
      }
      return Returned([query, years], JsonResponse(200, map[
        "textbooks" := JArr(textbooksDoc.value), "available_years" := JArr(yearsDoc.value)]));
    }
    out := Returned([], ErrorResponse(400, UnknownResource));
  }

  // ---------------------------------------------------------------------
  // What the handler promises
  // ---------------------------------------------------------------------

  /** OPTIONS and every other non-GET method are answered before any
      statement is run. */
  lemma NonGetAnsweredAtOnce(e: Event, db: Database)
    requires Method(e) != "GET"
    ensures Handle(e, db).executed == [] && Handle(e, db).result.Ok?
    ensures Method(e) == "OPTIONS" ==>
              Handle(e, db).result.value.statusCode == 200 &&
              Handle(e, db).result.value.headers["Access-Control-Allow-Methods"] == "GET, OPTIONS"
    ensures Method(e) != "OPTIONS" ==> Handle(e, db).result.value == MethodNotAllowed
  {
  }

  /** Without a `resource` parameter, or without any query string at all,
      the grades are listed. */
  lemma GradesByDefault(e: Event, db: Database)
    requires Method(e) == "GET" && "resource" !in Params(e)
    ensures Handle(e, db) == ListResponse([Statement(GradesSql, [])], "grades", db(Statement(GradesSql, [])))
    ensures e.queryStringParameters.None? ==> "resource" !in Params(e)
  {
  }

  /** Any other resource, the empty one included, is a 400 before any
      statement is run. */
  lemma UnknownResourceRejected(e: Event, db: Database)
    requires Method(e) == "GET" && "resource" in Params(e)
    requires Params(e)["resource"] !in {"grades", "subjects", "textbook_solutions", "textbooks"}
    ensures Handle(e, db) == Returned([], ErrorResponse(400, UnknownResource))
  {
  }

  /** The solutions listing runs the built query only, and lists its rows
      converted, in order; rows whose only datetime is `created_at` are
      always listed. */
  lemma SolutionsListed(params: map<string, string>, db: Database)
    requires SolutionsQueryText(params).Ok?
    ensures var rows := db(Statement(SolutionsQueryText(params).value, []));
            Solutions(params, db).executed == [Statement(SolutionsQueryText(params).value, [])] &&
            (Solutions(params, db).result.Ok? ==>
               ConvertedRows(rows).Ok? &&
               Solutions(params, db).result.value.body ==
                 Document(JObj(map["solutions" := JArr(EncodeRows(ConvertedRows(rows).value).value)])) &&
               |EncodeRows(ConvertedRows(rows).value).value| == |rows|)
    ensures var rows := db(Statement(SolutionsQueryText(params).value, []));
            (forall i, k :: 0 <= i < |rows| && k in rows[i] && k != "created_at" ==> !rows[i][k].PyDateTime?) &&
            (forall i :: 0 <= i < |rows| && "created_at" in rows[i] ==>
               rows[i]["created_at"].PyDateTime? || !Truthy(rows[i]["created_at"])) ==>
              Solutions(params, db).result.Ok?
  {
    var rows := db(Statement(SolutionsQueryText(params).value, []));
    ConvertedRowsSpec(rows);
    if (forall i, k :: 0 <= i < |rows| && k in rows[i] && k != "created_at" ==> !rows[i][k].PyDateTime?) &&
       (forall i :: 0 <= i < |rows| && "created_at" in rows[i] ==>
          rows[i]["created_at"].PyDateTime? || !Truthy(rows[i]["created_at"])) {
      ConvertedRowsEncode(rows);
    }
  }

  /** The textbooks listing runs the built query, then the years statement;
      a successful answer lists the years in the order the database gave them. */
  lemma TextbooksListed(params: map<string, string>, db: Database)
    requires TextbooksQueryText(params).Ok?
    ensures var query := Statement(TextbooksQueryText(params).value, []);
            var years := Statement(YearsSql, []);
            (Textbooks(params, db).executed == [query] || Textbooks(params, db).executed == [query, years]) &&
            (Textbooks(params, db).result.Ok? ==>
               Textbooks(params, db).executed == [query, years] &&
               AvailableYears(db(years)).Ok? &&
               Textbooks(params, db).result.value.body.doc.fields["available_years"] ==
                 JArr(EncodeValues(AvailableYears(db(years)).value).value) &&
               |AvailableYears(db(years)).value| == |db(years)|)
  {
  }
}
