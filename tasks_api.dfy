/** The tasks endpoint: pre-flight, the filtered task list, creating a task
    and checking a submitted answer. */
module TasksApi {
  import opened Common
  import opened Py
  import opened Http
  import opened SqlQuery

  /** The fixed part of the task-list query, up to `WHERE 1=1`. */
  const TasksSelect := @"
                SELECT t.*, g.name as grade_name, s.name as subject_name
                FROM tasks t
                LEFT JOIN grades g ON t.grade_id = g.id
                LEFT JOIN subjects s ON t.subject_id = s.id
                WHERE 1=1
            "

  const TasksOrder := " ORDER BY t.page_number, t.task_number"

  /** The list filters, in the order their clauses are added. */
  const TaskConditions: seq<Condition> := [
    IntCondition("grade_id", "t.grade_id"),
    IntCondition("subject_id", "t.subject_id"),
    QuotedCondition("difficulty", "t.difficulty"),
    IntCondition("page_number", "t.page_number")
  ]

  const InsertTask := @"INSERT INTO tasks 
                    (grade_id, subject_id, page_number, task_number, difficulty, question, answer, explanation, created_by)
                    VALUES (%s, %s, %s, %s, %s, %s, %s, %s, %s)
                    RETURNING id, grade_id, subject_id, page_number, task_number, difficulty, question, answer"

  const SelectAnswer := "SELECT answer FROM tasks WHERE id = %s"

  const InsertSolution := "INSERT INTO solutions (task_id, user_id, user_answer, is_correct) VALUES (%s, %s, %s, %s)"

  const TaskNotFound := "Задача не найдена"

  // ---------------------------------------------------------------------
  // GET: the task list
  // ---------------------------------------------------------------------

  function TasksQueryText(params: map<string, string>): Result<string, PyError> {
    BuildQuery(TasksSelect, TaskConditions, params, TasksOrder)
  }

  /** The handler's builder: the fixed text, then one `if v: query += ...`
      step per filter parameter in turn, then the order. */
  method TasksQuery(params: map<string, string>) returns (r: Result<string, PyError>)
    ensures r == TasksQueryText(params)
  {
    QueryEnds(TasksSelect, TaskConditions, params, TasksOrder);
    var query := TasksSelect;
    // the grade_id filter
    r := AddCondition(TasksSelect, TaskConditions, params, TasksOrder, 0, query);
    if r.Err? {
      return;
    }
    query := r.value;
    // the subject_id filter
    r := AddCondition(TasksSelect, TaskConditions, params, TasksOrder, 1, query);
    if r.Err? {
      return;
    }
    query := r.value;
    // the difficulty filter
    r := AddCondition(TasksSelect, TaskConditions, params, TasksOrder, 2, query);
    query := r.value;
    // the page_number filter
    r := AddCondition(TasksSelect, TaskConditions, params, TasksOrder, 3, query);
    if r.Err? {
      return;
    }
    query := r.value;
    r := Ok(query + TasksOrder);
  }

  /** The clause prefixes as the handler spells them. */
  lemma ClauseSpelling()
    ensures " AND " + "t.grade_id" + " = " == " AND t.grade_id = "
    ensures " AND " + "t.difficulty" + " = '" == " AND t.difficulty = '"
  {
  }

  /** An invalid numeric filter is the only way the list query fails, and
      it fails with `int()`'s `ValueError`. */
  lemma TasksQueryFails(params: map<string, string>)
    ensures TasksQueryText(params).Err? <==>
              (Supplied(params, "grade_id") && ParseInt(params["grade_id"]).Err?) ||
              (Supplied(params, "subject_id") && ParseInt(params["subject_id"]).Err?) ||
              (Supplied(params, "page_number") && ParseInt(params["page_number"]).Err?)
    ensures TasksQueryText(params).Err? ==> TasksQueryText(params).error == ValueError
  {
    var conds := TaskConditions;
    QueryFails(TasksSelect, conds, params, TasksOrder);
    assert conds[0].param == "grade_id" && conds[1].param == "subject_id" && conds[3].param == "page_number";
  }

  /** The list query starts with the fixed `SELECT` and ends with the fixed
      `ORDER BY`; without filters it is just those two. */
  lemma TasksQueryFrame(params: map<string, string>)
    ensures TasksQueryText(params).Ok? ==>
              var q := TasksQueryText(params).value;
              |q| >= |TasksSelect| + |TasksOrder| && q[..|TasksSelect|] == TasksSelect && q[|q| - |TasksOrder|..] == TasksOrder
    ensures !Supplied(params, "grade_id") && !Supplied(params, "subject_id") &&
            !Supplied(params, "difficulty") && !Supplied(params, "page_number") ==>
              TasksQueryText(params) == Ok(TasksSelect + TasksOrder)
  {
    QueryFrame(TasksSelect, TaskConditions, params, TasksOrder);
    if !Supplied(params, "grade_id") && !Supplied(params, "subject_id") &&
       !Supplied(params, "difficulty") && !Supplied(params, "page_number") {
      NothingSupplied(TasksSelect, TaskConditions, params, TasksOrder);
    }
  }

  /** Two supplied filters' clauses appear in the order grade, subject,
      difficulty, page. */
  lemma TasksFiltersInOrder(params: map<string, string>, i: int, j: int)
    requires TasksQueryText(params).Ok?
    requires 0 <= i < j < |TaskConditions|
    requires Supplied(params, TaskConditions[i].param) && Supplied(params, TaskConditions[j].param)
    ensures ClauseText(TaskConditions[i], params[TaskConditions[i].param]).Ok?
    ensures ClauseText(TaskConditions[j], params[TaskConditions[j].param]).Ok?
    ensures OccursBefore(TasksQueryText(params).value,
                         ClauseText(TaskConditions[i], params[TaskConditions[i].param]).value,
                         ClauseText(TaskConditions[j], params[TaskConditions[j].param]).value)
  {
    QueryHasClauses(ClauseText, TasksSelect, TaskConditions, params, TasksOrder, i, j);
  }

  /** A supplied difficulty is spliced into the query as it is, between quotes. */
  lemma DifficultyVerbatim(params: map<string, string>)
    requires TasksQueryText(params).Ok? && Supplied(params, "difficulty")
    ensures Contains(TasksQueryText(params).value, " AND t.difficulty = '" + params["difficulty"] + "'")
  {
    assert TaskConditions[2] == QuotedCondition("difficulty", "t.difficulty");
    QueryHasClause(ClauseText, TasksSelect, TaskConditions, params, TasksOrder, 2);
    ClauseSpelling();
  }

  /** A grade filter given as a decimal numeral alone adds exactly its clause. */
  lemma GradeFilterAlone(params: map<string, string>, n: int)
    requires params == map["grade_id" := IntToString(n)]
    ensures TasksQueryText(params) == Ok(TasksSelect + " AND t.grade_id = " + IntToString(n) + TasksOrder)
  {
    var numeral := IntToString(n);
    var x := " AND t.grade_id = " + numeral;
    GradeClause(params, n);
    OnlyGradeSupplied(params, n);
    OneSupplied(TasksSelect, TaskConditions, params, TasksOrder, 0);
    assert TasksQueryText(params) == Ok(TasksSelect + x + TasksOrder);
    Reassociate(TasksSelect, " AND t.grade_id = ", numeral, TasksOrder);
  }

  /** The grade filter's clause for a decimal numeral. */
  lemma GradeClause(params: map<string, string>, n: int)
    requires params == map["grade_id" := IntToString(n)]
    ensures Supplied(params, TaskConditions[0].param)
    ensures ClauseText(TaskConditions[0], params[TaskConditions[0].param]) == Ok(" AND t.grade_id = " + IntToString(n))
  {
    assert TaskConditions[0] == IntCondition("grade_id", "t.grade_id");
    NumeralClause(TaskConditions[0], n);
    ClauseSpelling();
  }

  /** No filter but the grade is supplied. */
  lemma OnlyGradeSupplied(params: map<string, string>, n: int)
    requires params == map["grade_id" := IntToString(n)]
    ensures forall i :: 0 <= i < |TaskConditions| && i != 0 ==> !Supplied(params, TaskConditions[i].param)
  {
    var conds := TaskConditions;
    assert conds[1].param !in params && conds[2].param !in params && conds[3].param !in params;
  }


  // ---------------------------------------------------------------------
  // POST: create and solve
  // ---------------------------------------------------------------------

  /** The insert's arguments: the body's fields, `difficulty` defaulting to
      'medium', `explanation` to '', the rest to None; `created_by` is the
      body's `user_id`. */
  function CreateArgs(body: Row): (args: seq<Value>) {
    [Get(body, "grade_id", PyNone), Get(body, "subject_id", PyNone), Get(body, "page_number", PyNone),
     Get(body, "task_number", PyNone), Get(body, "difficulty", PyStr("medium")), Get(body, "question", PyNone),
     Get(body, "answer", PyNone), Get(body, "explanation", PyStr("")), Get(body, "user_id", PyNone)]
  }

  /** `action == 'create'`: insert the task and return the stored row;
      `dict(None)` raises when the insert returned no row. */
  function CreateTask(body: Row, db: Database): Outcome {
    var insert := Statement(InsertTask, CreateArgs(body));
    match FetchOne(db(insert))
    case None => Outcome([insert], Err(TypeError))
    case Some(task) =>
      match EncodeRow(task)
      case Err(e) => Outcome([insert], Err(e))
      case Ok(doc) => Returned([insert], JsonResponse(200, map["success" := JBool(true), "task" := doc]))
  }

  /** `str(a).strip().lower() == str(b).strip().lower()`. */
  predicate SameAnswer(a: Value, b: Value) {
    Lower(Trim(Str(a))) == Lower(Trim(Str(b)))
  }

  /** `action == 'solve'`: look the task's answer up; a missing task is a 404
      and nothing is inserted; otherwise the attempt and its verdict are
      recorded and returned with the correct answer. */
  function SolveTask(body: Row, db: Database): Outcome {
    var taskId := Get(body, "task_id", PyNone);
    var userId := Get(body, "user_id", PyNone);
    var userAnswer := Get(body, "user_answer", PyNone);
    var select := Statement(SelectAnswer, [taskId]);
    var found := FetchOne(db(select));
    if found.None? || found.value == map[] then Returned([select], ErrorResponse(404, TaskNotFound))
    else if "answer" !in found.value then Outcome([select], Err(KeyError))
    else RecordAttempt(select, taskId, userId, userAnswer, found.value["answer"])
  }

  /** The found branch: compare, insert the attempt (task, user, typed answer,
      verdict) and return the verdict with the stored answer. */
  function RecordAttempt(select: Statement, taskId: Value, userId: Value, userAnswer: Value, answer: Value): Outcome {
    var isCorrect := SameAnswer(userAnswer, answer);
    var insert := Statement(InsertSolution, [taskId, userId, userAnswer, PyBool(isCorrect)]);
    match Encode(answer)
    case Err(e) => Outcome([select, insert], Err(e))
    case Ok(correct) =>
      Returned([select, insert], JsonResponse(200, map[
        "success" := JBool(true), "is_correct" := JBool(isCorrect), "correct_answer" := correct]))
  }

  /** GET: run the built query and return its rows as `tasks`. */
  function ListTasks(params: map<string, string>, db: Database): Outcome {
    match TasksQueryText(params)
    case Err(e) => Outcome([], Err(e))
    case Ok(q) => ListResponse([Statement(q, [])], "tasks", db(Statement(q, [])))
  }

  /** The handler: pre-flight, GET, POST by `action`, and 405 for the rest. */
  function Handle(e: Event, db: Database): Outcome {
    var httpMethod := Method(e);
    if httpMethod == "OPTIONS" then Returned([], Preflight("GET, POST, OPTIONS"))
    else if httpMethod == "GET" then ListTasks(Params(e), db)
    else if httpMethod == "POST" then
      match BodyData(e)
      case Err(err) => Outcome([], Err(err))
      case Ok(body) =>
        var action := Get(body, "action", PyNone);
        if action == PyStr("create") then CreateTask(body, db)
        else if action == PyStr("solve") then SolveTask(body, db)
        else Returned([], MethodNotAllowed)
    else Returned([], MethodNotAllowed)
  }

  /** The handler as it runs, with the list query built step by step. */
  method HandleRequest(e: Event, db: Database) returns (out: Outcome)
    ensures out == Handle(e, db)
  {
    var httpMethod := Method(e);
    if httpMethod == "OPTIONS" {
      return Returned([], Preflight("GET, POST, OPTIONS"));
    }
    if httpMethod == "GET" {
      var params := Params(e);
      var query := TasksQuery(params);
      if query.Err? {
        return Outcome([], Err(query.error));
      }
      var tasks := db(Statement(query.value, []));
      return ListResponse([Statement(query.value, [])], "tasks", tasks);
    } else if httpMethod == "POST" {
      var bodyData := BodyData(e);
      if bodyData.Err? {
        return Outcome([], Err(bodyData.error));
      }
      var action := Get(bodyData.value, "action", PyNone);
      if action == PyStr("create") {
        return CreateTask(bodyData.value, db);
      } else if action == PyStr("solve") {
        return SolveTask(bodyData.value, db);
      }
    }
    out := Returned([], MethodNotAllowed);
  }

  // ---------------------------------------------------------------------
  // What the handler promises
  // ---------------------------------------------------------------------

  /** OPTIONS touches no table and answers 200 with the CORS headers. */
  lemma OptionsIsPreflight(e: Event, db: Database)
    requires Method(e) == "OPTIONS"
    ensures Handle(e, db).executed == [] && Handle(e, db).result.Ok?
    ensures var r := Handle(e, db).result.value;
            r.statusCode == 200 && r.body == EmptyBody &&
            r.headers["Access-Control-Allow-Methods"] == "GET, POST, OPTIONS" &&
            r.headers["Access-Control-Allow-Origin"] == "*"
  {
  }

  /** Any other method, and a POST whose action is neither 'create' nor
      'solve', is answered 405 without a statement. */
  lemma OtherRequestsNotAllowed(e: Event, db: Database)
    requires Method(e) !in {"OPTIONS", "GET", "POST"} ||
             (Method(e) == "POST" && BodyData(e).Ok? &&
              Get(BodyData(e).value, "action", PyNone) !in {PyStr("create"), PyStr("solve")})
    ensures Handle(e, db) == Returned([], MethodNotAllowed)
    ensures MethodNotAllowed.statusCode == 405
  {
  }

  /** GET runs exactly the built query and lists its rows, or raises before
      touching the database. */
  lemma ListRunsQuery(e: Event, db: Database)
    requires Method(e) == "GET"
    ensures TasksQueryText(Params(e)).Err? ==> Handle(e, db) == Outcome([], Err(ValueError))
    ensures TasksQueryText(Params(e)).Ok? ==>
              var st := Statement(TasksQueryText(Params(e)).value, []);
              Handle(e, db).executed == [st] &&
              (Handle(e, db).result.Ok? ==>
                 Handle(e, db).result.value.body == Document(JObj(map["tasks" := JArr(EncodeRows(db(st)).value)])))
  {
    TasksQueryFails(Params(e));
  }

  /** `create` inserts the body's fields with the documented defaults and
      nothing else. */
  lemma CreateDefaults(body: Row, db: Database)
    ensures CreateTask(body, db).executed == [Statement(InsertTask, CreateArgs(body))]
    ensures "difficulty" !in body ==> CreateArgs(body)[4] == PyStr("medium")
    ensures "explanation" !in body ==> CreateArgs(body)[7] == PyStr("")
    ensures "difficulty" in body ==> CreateArgs(body)[4] == body["difficulty"]
    ensures CreateArgs(body)[8] == Get(body, "user_id", PyNone)
    ensures CreateTask(body, db).result.Ok? ==>
              var r := CreateTask(body, db).result.value;
              r.statusCode == 200 && r.body.doc.fields["success"] == JBool(true)
  {
  }

  /** A task that does not exist is answered 404 after the lookup alone:
      no attempt is recorded. */
  lemma SolveMissingTask(body: Row, db: Database)
    requires var rows := db(Statement(SelectAnswer, [Get(body, "task_id", PyNone)]));
             rows == [] || rows[0] == map[]
    ensures SolveTask(body, db).executed == [Statement(SelectAnswer, [Get(body, "task_id", PyNone)])]
    ensures forall i :: 0 <= i < |SolveTask(body, db).executed| ==> SolveTask(body, db).executed[i].sql != InsertSolution
    ensures SolveTask(body, db).result == Ok(ErrorResponse(404, TaskNotFound))
  {
  }

  /** A found task: the attempt is recorded with the verdict, and the verdict
      is returned with the stored answer. */
  lemma SolveRecordsVerdict(body: Row, db: Database)
    requires var rows := db(Statement(SelectAnswer, [Get(body, "task_id", PyNone)]));
             rows != [] && rows[0] != map[] && "answer" in rows[0] && !rows[0]["answer"].PyDateTime?
    ensures var answer := db(Statement(SelectAnswer, [Get(body, "task_id", PyNone)]))[0]["answer"];
            var userAnswer := Get(body, "user_answer", PyNone);
            var verdict := Lower(Trim(Str(userAnswer))) == Lower(Trim(Str(answer)));
            SolveTask(body, db).executed ==
              [Statement(SelectAnswer, [Get(body, "task_id", PyNone)]),
               Statement(InsertSolution, [Get(body, "task_id", PyNone), Get(body, "user_id", PyNone), userAnswer, PyBool(verdict)])] &&
            SolveTask(body, db).result.Ok? &&
            SolveTask(body, db).result.value.statusCode == 200 &&
            SolveTask(body, db).result.value.body.doc.fields["is_correct"] == JBool(verdict) &&
            Encode(answer) == Ok(SolveTask(body, db).result.value.body.doc.fields["correct_answer"])
  {
    var taskId, userId, userAnswer := Get(body, "task_id", PyNone), Get(body, "user_id", PyNone), Get(body, "user_answer", PyNone);
    var select := Statement(SelectAnswer, [taskId]);
    var found := db(select)[0];
    assert FetchOne(db(select)) == Some(found);
    assert SolveTask(body, db) == RecordAttempt(select, taskId, userId, userAnswer, found["answer"]);
    AttemptRecorded(select, taskId, userId, userAnswer, found["answer"]);
  }

  /** The found branch, for a stored answer the encoder accepts. */
  lemma AttemptRecorded(select: Statement, taskId: Value, userId: Value, userAnswer: Value, answer: Value)
    requires !answer.PyDateTime?
    ensures var out, verdict := RecordAttempt(select, taskId, userId, userAnswer, answer), SameAnswer(userAnswer, answer);
            out.executed == [select, Statement(InsertSolution, [taskId, userId, userAnswer, PyBool(verdict)])] &&
            out.result.Ok? && out.result.value.statusCode == 200 &&
            out.result.value.body.doc.fields["is_correct"] == JBool(verdict) &&
            Encode(answer) == Ok(out.result.value.body.doc.fields["correct_answer"])
  {
  }

  /** The verdict ignores case and surrounding whitespace of the typed answer. */
  lemma SameAnswerIgnoresCaseAndPadding(pre: string, typed: string, post: string, answer: Value)
    requires AllSpace(pre) && AllSpace(post)
    ensures SameAnswer(PyStr(pre + typed + post), answer) <==> SameAnswer(PyStr(typed), answer)
    ensures SameAnswer(PyStr(Lower(typed)), answer) <==> SameAnswer(PyStr(typed), answer)
  {
    TrimIgnoresPadding(pre, typed, post);
    TrimLowerCommute(typed);
    LowerIdempotent(Trim(typed));
  }

  /** `str()` makes a number match its numeral. */
  lemma NumberMatchesNumeral(n: int)
    ensures SameAnswer(PyInt(n), PyStr(IntToString(n)))
  {
  }

  /** A missing answer is `str(None)`: it matches a stored answer spelt
      "none", and not an empty one. */
  lemma MissingAnswerIsNone()
    ensures SameAnswer(PyNone, PyStr("none"))
    ensures !SameAnswer(PyNone, PyStr(""))
  {
    var none, spelt, empty := Str(PyNone), Str(PyStr("none")), Str(PyStr(""));
    assert none == "None" && spelt == "none" && empty == "";
    NoneUnpadded();
    NoneLowered();
    EmptyNormal();
    assert Lower(Trim(none)) == "none" == Lower(Trim(spelt));
    assert Lower(Trim(empty)) == "";
  }

  /** The empty answer trims and lower-cases to itself. */
  lemma EmptyNormal()
    ensures Lower(Trim("")) == ""
  {
    assert Trim("") == "";
  }

  /** "None" and "none" are their own trims. */
  lemma NoneUnpadded()
    ensures Trim("None") == "None" && Trim("none") == "none"
  {
    assert Trim("None") == "None" by { TrimUnpadded("None"); }
    assert Trim("none") == "none" by { TrimUnpadded("none"); }
  }

  /** "None" and "none" lower-case alike. */
  lemma NoneLowered()
    ensures Lower("None") == "none" && Lower("none") == "none"
  {
    var upper, lower := Lower("None"), Lower("none");
    assert upper[0] == LowerChar('N') == 'n';
    assert upper[1] == 'o' && upper[2] == 'n' && upper[3] == 'e';
    assert lower[0] == 'n' && lower[1] == 'o' && lower[2] == 'n' && lower[3] == 'e';
  }
}
