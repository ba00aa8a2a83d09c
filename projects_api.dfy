/** `GET /api/projects` (defaults, the category and user filters, the
    ordering, the page window and the pagination answer) and
    `POST /api/projects` (the session check, the required fields and the
    inserted row). */
module ProjectsApi {
  import opened JsString
  import opened Paging
  import opened QueryOps

  datatype ListParams = ListParams(
    page: Number, limit: Number, category: Option<string>, userId: Option<string>, sortBy: string, order: string)

  /** page `|| "1"`, limit `|| "12"`, sortBy `|| "created_at"`, order `|| "desc"`. */
  function ParseParams(params: map<string, string>): ListParams
  {
    ListParams(IntParam(params, "page", "1"), IntParam(params, "limit", "12"), Param(params, "category"),
      Param(params, "userId"), GetOr(params, "sortBy", "created_at"), GetOr(params, "order", "desc"))
  }

  /** Without parameters: page 1, limit 12, newest first by `created_at`. */
  lemma ParseParamsDefaults()
    ensures ParseParams(map[]) == ListParams(Finite(1), Finite(12), None, None, "created_at", "desc")
  {
    var none: map<string, string> := map[];
    DefaultNumerals();
    IntParamDefault(none, "page", 1);
    IntParamDefault(none, "limit", 12);
  }

  /** `category && category !== "all"`. */
  predicate CategoryApplies(category: Option<string>)
  {
    category.Some? && category.value != [] && category.value != "all"
  }

  /** What the route's query holds: the category filter iff it applies, the
      user filter iff a non-empty userId is given, the one ordering, and the
      page window as the last call. */
  ghost predicate QueryFor(p: ListParams, ops: seq<Op>)
  {
    && ((exists c :: Eq("category", Text(c)) in ops) <==> CategoryApplies(p.category))
    && (CategoryApplies(p.category) ==> Eq("category", Text(p.category.value)) in ops)
    && ((exists u :: Eq("user_id", Text(u)) in ops) <==> p.userId.Some? && p.userId.value != [])
    && (p.userId.Some? && p.userId.value != [] ==> Eq("user_id", Text(p.userId.value)) in ops)
    && Orderings(ops) == [Order(p.sortBy, p.order == "asc")]
    && |ops| >= 2 && ops[|ops| - 1] == RangeOp(RangeBounds(p.page, p.limit).0, RangeBounds(p.page, p.limit).1)
  }

  /** The query of the route, built call by call. */
  method BuildQuery(p: ListParams) returns (ops: seq<Op>)
    ensures QueryFor(p, ops)
  {
    ops := [];
    if CategoryApplies(p.category) {
      ops := ops + [Eq("category", Text(p.category.value))];
    }
    if p.userId.Some? && p.userId.value != [] {
      ops := ops + [Eq("user_id", Text(p.userId.value))];
    }
    var filters := ops;
    var bounds := RangeBounds(p.page, p.limit);
    var ord := Order(p.sortBy, p.order == "asc");
    ops := ops + [ord, RangeOp(bounds.0, bounds.1)];
    assert ops == filters + [ord] + [RangeOp(bounds.0, bounds.1)];
    OneOrdering(filters, ord, [RangeOp(bounds.0, bounds.1)]);
  }

  /** `GET`: the query sent and the answer for what the database returns. */
  method Get<R>(params: map<string, string>, db: DbResult<R>) returns (ops: seq<Op>, response: ListResponse<R>)
    ensures QueryFor(ParseParams(params), ops)
    ensures response == ListAnswer(ParseParams(params).page, ParseParams(params).limit, db)
  {
    var p := ParseParams(params);
    ops := BuildQuery(p);
    response := ListAnswer(p.page, p.limit, db);
  }

  /** The JSON body of a new project; absent (or null) members are `None`. */
  datatype NewProject = NewProject(
    title: Option<string>, description: Option<string>, category: Option<string>,
    images: Option<seq<string>>, tags: Option<seq<string>>)

  /** The row handed to the insert. */
  datatype ProjectRow = ProjectRow(
    userId: string, title: string, description: string, category: string,
    images: seq<string>, tags: seq<string>, status: string)

  /** A status with an error message, or 201 with the row the database returned. */
  datatype PostResponse = PostError(status: int, message: string) | Created(row: ProjectRow)

  predicate Present(s: Option<string>)
  {
    s.Some? && s.value != []
  }

  /** `POST`: `session` is the signed-in user id, `body` the parsed JSON
      (`None` when it does not parse), `insertError` what the insert reports.
      Returns the row handed to the insert (if any) and the answer. */
  function Post(session: Option<string>, body: Option<NewProject>, insertError: Option<string>)
    : (r: (Option<ProjectRow>, PostResponse))
    ensures !Present(session) ==> r == (None, PostError(401, "Unauthorized"))
    ensures Present(session) && body.None? ==> r == (None, PostError(500, "Internal server error"))
    ensures Present(session) && body.Some? && !(Present(body.value.title) && Present(body.value.description) && Present(body.value.category))
      ==> r == (None, PostError(400, "Missing required fields"))
    ensures r.0.Some? ==> (
      Present(session) && body.Some? && Present(body.value.title) && Present(body.value.description)
      && Present(body.value.category)
      && r.0.value.userId == session.value && r.0.value.title == body.value.title.value
      && r.0.value.description == body.value.description.value && r.0.value.category == body.value.category.value
      && r.0.value.status == "active"
      && r.0.value.images == (if body.value.images.Some? then body.value.images.value else [])
      && r.0.value.tags == (if body.value.tags.Some? then body.value.tags.value else []))
    ensures r.1.Created? <==> r.0.Some? && insertError.None?
    ensures r.1.Created? ==> r.1.row == r.0.value
  {
    if !Present(session) then (None, PostError(401, "Unauthorized"))
    else if body.None? then (None, PostError(500, "Internal server error"))
    else
      var b := body.value;
      if !Present(b.title) || !Present(b.description) || !Present(b.category) then
        (None, PostError(400, "Missing required fields"))
      else
        var row := ProjectRow(session.value, b.title.value, b.description.value, b.category.value,
          if b.images.Some? then b.images.value else [], if b.tags.Some? then b.tags.value else [], "active");
        if insertError.Some? then (Some(row), PostError(500, insertError.value))
        else (Some(row), Created(row))
  }

  /** A project is inserted only for a signed-in user with a title, a
      description and a category; it then belongs to that user. */
  lemma InsertOnlyWhenAuthorizedAndComplete(session: Option<string>, body: Option<NewProject>, insertError: Option<string>)
    ensures Post(session, body, insertError).0.Some? <==>
      Present(session) && body.Some? && Present(body.value.title) && Present(body.value.description)
      && Present(body.value.category)
  {
  }
}
