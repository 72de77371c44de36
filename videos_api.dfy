/** The video endpoint: pre-flight, the filtered video list, adding a video
    and counting a view. */
module VideosApi {
  import opened Common
  import opened Py
  import opened Http
  import opened SqlQuery
  import opened CreatedAt

  const VideosSelect := @"
                SELECT v.*, g.name as grade_name, s.name as subject_name
                FROM videos v
                LEFT JOIN grades g ON v.grade_id = g.id
                LEFT JOIN subjects s ON v.subject_id = s.id
                WHERE 1=1
            "

  const VideosOrder := " ORDER BY v.created_at DESC"

  const VideoConditions: seq<Condition> := [
    IntCondition("grade_id", "v.grade_id"),
    IntCondition("subject_id", "v.subject_id")
  ]

  const InsertVideo := @"INSERT INTO videos 
                    (grade_id, subject_id, title, description, video_url, thumbnail_url, duration)
                    VALUES (%s, %s, %s, %s, %s, %s, %s)
                    RETURNING id, title, video_url, grade_id, subject_id"

  const CountView := "UPDATE videos SET views = views + 1 WHERE id = %s RETURNING views"

  // ---------------------------------------------------------------------
  // GET: the video list
  // ---------------------------------------------------------------------

  function VideosQueryText(params: map<string, string>): Result<string, PyError> {
    BuildQuery(VideosSelect, VideoConditions, params, VideosOrder)
  }

  /** The handler's builder: grade, then subject, then the order. */
  method VideosQuery(params: map<string, string>) returns (r: Result<string, PyError>)
    ensures r == VideosQueryText(params)
  {
    QueryEnds(VideosSelect, VideoConditions, params, VideosOrder);
    var query := VideosSelect;
    // the grade_id filter
    r := AddCondition(VideosSelect, VideoConditions, params, VideosOrder, 0, query);
    if r.Err? {
      return;
    }
    query := r.value;
    // the subject_id filter
    r := AddCondition(VideosSelect, VideoConditions, params, VideosOrder, 1, query);
    if r.Err? {
      return;
    }
    query := r.value;
    r := Ok(query + VideosOrder);
  }

  /** The list query fails only on a supplied filter that `int()` rejects. */
  lemma VideosQueryFails(params: map<string, string>)
    ensures VideosQueryText(params).Err? <==>
              (Supplied(params, "grade_id") && ParseInt(params["grade_id"]).Err?) ||
              (Supplied(params, "subject_id") && ParseInt(params["subject_id"]).Err?)
    ensures VideosQueryText(params).Err? ==> VideosQueryText(params).error == ValueError
  {
    var conds := VideoConditions;
    QueryFails(VideosSelect, conds, params, VideosOrder);
    assert conds[0].param == "grade_id" && conds[1].param == "subject_id";
  }

  /** The query keeps its fixed start and the `ORDER BY v.created_at DESC`
      end; with no filter it is just those two. */
  lemma VideosQueryFrame(params: map<string, string>)
    ensures VideosQueryText(params).Ok? ==>
              var q := VideosQueryText(params).value;
              |q| >= |VideosSelect| + |VideosOrder| &&
              q[..|VideosSelect|] == VideosSelect && q[|q| - |VideosOrder|..] == VideosOrder
    ensures !Supplied(params, "grade_id") && !Supplied(params, "subject_id") ==>
              VideosQueryText(params) == Ok(VideosSelect + VideosOrder)
  {
    QueryFrame(VideosSelect, VideoConditions, params, VideosOrder);
    if !Supplied(params, "grade_id") && !Supplied(params, "subject_id") {
      NothingSupplied(VideosSelect, VideoConditions, params, VideosOrder);
    }
  }

  /** With both filters supplied the grade clause comes before the subject
      clause. */
  lemma VideosFiltersInOrder(params: map<string, string>)
    requires VideosQueryText(params).Ok?
    requires Supplied(params, "grade_id") && Supplied(params, "subject_id")
    ensures ClauseText(VideoConditions[0], params["grade_id"]).Ok?
    ensures ClauseText(VideoConditions[1], params["subject_id"]).Ok?
    ensures OccursBefore(VideosQueryText(params).value,
                         ClauseText(VideoConditions[0], params["grade_id"]).value,
                         ClauseText(VideoConditions[1], params["subject_id"]).value)
  {
    QueryHasClauses(ClauseText, VideosSelect, VideoConditions, params, VideosOrder, 0, 1);
  }

  /** The list as written: the rows go to `json.dumps` unconverted. */
  function ListVideosAsWritten(params: map<string, string>, db: Database): Outcome {
    match VideosQueryText(params)
    case Err(e) => Outcome([], Err(e))
    case Ok(q) => ListResponse([Statement(q, [])], "videos", db(Statement(q, [])))
  }

  /** A video row carrying its `created_at` timestamp makes the list raise
      `TypeError`, whatever the other rows hold. */
  lemma TimestampBreaksList(params: map<string, string>, db: Database, i: int)
    requires VideosQueryText(params).Ok?
    requires var rows := db(Statement(VideosQueryText(params).value, []));
             0 <= i < |rows| && "created_at" in rows[i] && rows[i]["created_at"].PyDateTime?
    ensures ListVideosAsWritten(params, db).result == Err(TypeError)
  {
    var rows := db(Statement(VideosQueryText(params).value, []));
    assert !Encodable(rows[i]);
  }

  /** The list with the `created_at` conversion the other list handlers
      apply. */
  function ListVideos(params: map<string, string>, db: Database): Outcome {
    match VideosQueryText(params)
    case Err(e) => Outcome([], Err(e))
    case Ok(q) =>
      var query := Statement(q, []);
      match ConvertedRows(db(query))
      case Err(e) => Outcome([query], Err(e))
      case Ok(rows) => ListResponse([query], "videos", rows)
  }

  /** With the conversion, rows whose only datetime is `created_at` are
      listed, one entry per row; on rows without a truthy `created_at` the
      two lists agree. */
  lemma ConvertedListSucceeds(params: map<string, string>, db: Database)
    requires VideosQueryText(params).Ok?
    ensures var rows := db(Statement(VideosQueryText(params).value, []));
            (forall i, k :: 0 <= i < |rows| && k in rows[i] && k != "created_at" ==> !rows[i][k].PyDateTime?) &&
            (forall i :: 0 <= i < |rows| && "created_at" in rows[i] ==>
               rows[i]["created_at"].PyDateTime? || !Truthy(rows[i]["created_at"])) ==>
              ListVideos(params, db).result.Ok? &&
              |ListVideos(params, db).result.value.body.doc.fields["videos"].items| == |rows|
    ensures var rows := db(Statement(VideosQueryText(params).value, []));
            (forall i :: 0 <= i < |rows| && "created_at" in rows[i] ==> !Truthy(rows[i]["created_at"])) ==>
              ListVideos(params, db) == ListVideosAsWritten(params, db)
  {
    var rows := db(Statement(VideosQueryText(params).value, []));
    ConvertedRowsSpec(rows);
    if (forall i, k :: 0 <= i < |rows| && k in rows[i] && k != "created_at" ==> !rows[i][k].PyDateTime?) &&
       (forall i :: 0 <= i < |rows| && "created_at" in rows[i] ==>
          rows[i]["created_at"].PyDateTime? || !Truthy(rows[i]["created_at"])) {
      ConvertedRowsEncode(rows);
    }
    if forall i :: 0 <= i < |rows| && "created_at" in rows[i] ==> !Truthy(rows[i]["created_at"]) {
      assert ConvertedRows(rows).value == rows;
    }
  }

  // ---------------------------------------------------------------------
  // POST: create and view
  // ---------------------------------------------------------------------

  /** The insert's arguments: `description` and `thumbnail_url` default to
      '', `duration` to 0, the rest to None. */
  function CreateArgs(body: Row): seq<Value> {
    [Get(body, "grade_id", PyNone), Get(body, "subject_id", PyNone), Get(body, "title", PyNone),
     Get(body, "description", PyStr("")), Get(body, "video_url", PyNone),
     Get(body, "thumbnail_url", PyStr("")), Get(body, "duration", PyInt(0))]
  }

  function CreateVideo(body: Row, db: Database): Outcome {
    var insert := Statement(InsertVideo, CreateArgs(body));
    match FetchOne(db(insert))
    case None => Outcome([insert], Err(TypeError))
    case Some(video) =>
      match EncodeRow(video)
      case Err(e) => Outcome([insert], Err(e))
      case Ok(doc) => Returned([insert], JsonResponse(200, map["success" := JBool(true), "video" := doc]))
  }

  /** `action == 'view'`: count the view; the answer carries the new count,
      or 0 when no video matched. */
  function ViewVideo(body: Row, db: Database): Outcome {
    var update := Statement(CountView, [Get(body, "video_id", PyNone)]);
    var result := FetchOne(db(update));
    if result.None? || result.value == map[] then
      Returned([update], JsonResponse(200, map["success" := JBool(true), "views" := JInt(0)]))
    else if "views" !in result.value then Outcome([update], Err(KeyError))
    else
      match Encode(result.value["views"])
      case Err(e) => Outcome([update], Err(e))
      case Ok(views) => Returned([update], JsonResponse(200, map["success" := JBool(true), "views" := views]))
  }

  function Handle(e: Event, db: Database): Outcome {
    var httpMethod := Method(e);
    if httpMethod == "OPTIONS" then Returned([], Preflight("GET, POST, OPTIONS"))
    else if httpMethod == "GET" then ListVideosAsWritten(Params(e), db)
    else if httpMethod == "POST" then
      match BodyData(e)
      case Err(err) => Outcome([], Err(err))
      case Ok(body) =>
        var action := Get(body, "action", PyNone);
        if action == PyStr("create") then CreateVideo(body, db)
        else if action == PyStr("view") then ViewVideo(body, db)
        else Returned([], MethodNotAllowed)
    else Returned([], MethodNotAllowed)
  }

  /** The handler as it runs, with the list query built step by step; the
      rows go to the encoder as the database returns them. */
  method HandleRequest(e: Event, db: Database) returns (out: Outcome)
    ensures out == Handle(e, db)
  {
    var httpMethod := Method(e);
    if httpMethod == "OPTIONS" {
      return Returned([], Preflight("GET, POST, OPTIONS"));
    }
    if httpMethod == "GET" {
      var q := VideosQuery(Params(e));
      if q.Err? {
        return Outcome([], Err(q.error));
      }
      var query := Statement(q.value, []);
      var videos := db(query);
      return ListResponse([query], "videos", videos);
    } else if httpMethod == "POST" {
      var bodyData := BodyData(e);
      if bodyData.Err? {
        return Outcome([], Err(bodyData.error));
      }
      var action := Get(bodyData.value, "action", PyNone);
      if action == PyStr("create") {
        return CreateVideo(bodyData.value, db);
      } else if action == PyStr("view") {
        return ViewVideo(bodyData.value, db);
      }
    }
    out := Returned([], MethodNotAllowed);
  }

  /** The handler with the corrected list: every other request is answered
      as `Handle` answers it. */
  function HandleCorrected(e: Event, db: Database): (out: Outcome)
    ensures Method(e) != "GET" ==> out == Handle(e, db)
  {
    if Method(e) == "GET" then ListVideos(Params(e), db) else Handle(e, db)
  }

  /** A GET whose rows carry a `created_at` timestamp fails in the handler as
      written and succeeds in the corrected one, with one entry per row. */
  lemma CorrectionFixesList(e: Event, db: Database, i: int)
    requires Method(e) == "GET" && VideosQueryText(Params(e)).Ok?
    requires var rows := db(Statement(VideosQueryText(Params(e)).value, []));
             0 <= i < |rows| && "created_at" in rows[i] && rows[i]["created_at"].PyDateTime? &&
             (forall j, k :: 0 <= j < |rows| && k in rows[j] && k != "created_at" ==> !rows[j][k].PyDateTime?) &&
             (forall j :: 0 <= j < |rows| && "created_at" in rows[j] ==>
                rows[j]["created_at"].PyDateTime? || !Truthy(rows[j]["created_at"]))
    ensures Handle(e, db).result == Err(TypeError)
    ensures HandleCorrected(e, db).result.Ok?
    ensures |HandleCorrected(e, db).result.value.body.doc.fields["videos"].items| ==
            |db(Statement(VideosQueryText(Params(e)).value, []))|
  {
    TimestampBreaksList(Params(e), db, i);
    ConvertedListSucceeds(Params(e), db);
  }

  // ---------------------------------------------------------------------
  // What the handler promises
  // ---------------------------------------------------------------------

  lemma OptionsIsPreflight(e: Event, db: Database)
    requires Method(e) == "OPTIONS"
    ensures Handle(e, db).executed == [] && Handle(e, db).result.Ok?
    ensures var r := Handle(e, db).result.value;
            r.statusCode == 200 && r.body == EmptyBody &&
            r.headers["Access-Control-Allow-Methods"] == "GET, POST, OPTIONS"
  {
  }

  lemma OtherRequestsNotAllowed(e: Event, db: Database)
    requires Method(e) !in {"OPTIONS", "GET", "POST"} ||
             (Method(e) == "POST" && BodyData(e).Ok? &&
              Get(BodyData(e).value, "action", PyNone) !in {PyStr("create"), PyStr("view")})
    ensures Handle(e, db) == Returned([], MethodNotAllowed)
  {
  }

  /** `create` inserts the body's fields with the documented defaults. */
  lemma CreateDefaults(body: Row, db: Database)
    ensures CreateVideo(body, db).executed == [Statement(InsertVideo, CreateArgs(body))]
    ensures "description" !in body ==> CreateArgs(body)[3] == PyStr("")
    ensures "thumbnail_url" !in body ==> CreateArgs(body)[5] == PyStr("")
    ensures "duration" !in body ==> CreateArgs(body)[6] == PyInt(0)
    ensures "title" in body ==> CreateArgs(body)[2] == body["title"]
  {
  }

  // ---------------------------------------------------------------------
  // The view counter against a table of view counts
  // ---------------------------------------------------------------------

  /** The videos' view counts by id. */
  type ViewTable = map<int, int>

  /** The table after the update statement for `videoId`. */
  function AfterView(table: ViewTable, videoId: Value): (t: ViewTable)
    ensures t.Keys == table.Keys
    ensures forall id :: id in table && !(videoId.PyInt? && videoId.i == id) ==> t[id] == table[id]
    ensures videoId.PyInt? && videoId.i in table ==> t[videoId.i] == table[videoId.i] + 1
  {
    if videoId.PyInt? && videoId.i in table then table[videoId.i := table[videoId.i] + 1] else table
  }

  /** What the update statement returns: the new count of the matched row. */
  function ViewRows(table: ViewTable, videoId: Value): seq<Row> {
    if videoId.PyInt? && videoId.i in table then [map["views" := PyInt(AfterView(table, videoId)[videoId.i])]] else []
  }

  /** A view answers with the stored count plus one, or 0 when no video
      has the id; the table gains exactly one view on that video. */
  lemma ViewCountsOne(body: Row, db: Database, table: ViewTable)
    requires db(Statement(CountView, [Get(body, "video_id", PyNone)])) == ViewRows(table, Get(body, "video_id", PyNone))
    ensures var videoId := Get(body, "video_id", PyNone);
            ViewVideo(body, db).executed == [Statement(CountView, [videoId])] &&
            ViewVideo(body, db).result.Ok? &&
            ViewVideo(body, db).result.value.body.doc.fields["views"] ==
              (if videoId.PyInt? && videoId.i in table then JInt(table[videoId.i] + 1) else JInt(0))
  {
  }
}
