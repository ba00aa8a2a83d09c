/** `POST /api/projects/search`: the optional text search, the category and
    tag filters, and the one ordering picked by `sortBy`. */
module ProjectSearchApi {
  import opened JsString
  import opened QueryOps

  /** The `filters` member of the body; absent members are `None`. */
  datatype Filters = Filters(categories: Option<seq<string>>, tags: Option<seq<string>>, sortBy: Option<string>)

  /** The request body; a missing `filters` member is `None`. */
  datatype Body = Body(query: Option<string>, filters: Option<Filters>)

  /** The ordering for a `sortBy` value; unknown or absent values order by newest. */
  function SortOrder(sortBy: Option<string>): (r: Op)
    ensures r.Order?
    ensures sortBy == Some("oldest") <==> r == Order("created_at", true)
    ensures sortBy == Some("most-liked") <==> r == Order("likes_count", false)
    ensures sortBy == Some("most-viewed") <==> r == Order("views_count", false)
  {
    if sortBy == Some("newest") then Order("created_at", false)
    else if sortBy == Some("oldest") then Order("created_at", true)
    else if sortBy == Some("most-liked") then Order("likes_count", false)
    else if sortBy == Some("most-viewed") then Order("views_count", false)
    else Order("created_at", false)
  }

  predicate NonEmpty(xs: Option<seq<string>>)
  {
    xs.Some? && |xs.value| > 0
  }

  /** The text-search part of the query: present iff the query has a
      non-space character (`query && query.trim()`; the empty string fails
      both tests), searching for the untrimmed query. */
  function TextPart(query: Option<string>): seq<Op>
  {
    if query.Some? && Trim(query.value) != [] then [TextSearch("title,description", query.value)] else []
  }

  function CategoryPart(f: Filters): seq<Op>
  {
    if NonEmpty(f.categories) then [In("category", f.categories.value)] else []
  }

  function TagPart(f: Filters): seq<Op>
  {
    if NonEmpty(f.tags) then [Overlaps("tags", f.tags.value)] else []
  }

  /** Each filter call is made exactly when its condition holds. */
  lemma FilterCalls(query: Option<string>, f: Filters, ops: seq<Op>)
    requires ops == TextPart(query) + CategoryPart(f) + TagPart(f) + [SortOrder(f.sortBy)]
    ensures (exists o :: o in ops && o.TextSearch?) <==> query.Some? && Trim(query.value) != []
    ensures query.Some? && Trim(query.value) != [] ==> TextSearch("title,description", query.value) in ops
    ensures (exists o :: o in ops && o.In?) <==> NonEmpty(f.categories)
    ensures NonEmpty(f.categories) ==> In("category", f.categories.value) in ops
    ensures (exists o :: o in ops && o.Overlaps?) <==> NonEmpty(f.tags)
    ensures NonEmpty(f.tags) ==> Overlaps("tags", f.tags.value) in ops
  {
    TextCall(query, f, ops);
    CategoryCall(query, f, ops);
    TagCall(query, f, ops);
  }

  lemma TextCall(query: Option<string>, f: Filters, ops: seq<Op>)
    requires ops == TextPart(query) + CategoryPart(f) + TagPart(f) + [SortOrder(f.sortBy)]
    ensures (exists o :: o in ops && o.TextSearch?) <==> query.Some? && Trim(query.value) != []
    ensures query.Some? && Trim(query.value) != [] ==> TextSearch("title,description", query.value) in ops
  {
    var x := TextSearch("title,description", if query.Some? then query.value else "");
    OnePart(ops, [], TextPart(query), CategoryPart(f) + TagPart(f) + [SortOrder(f.sortBy)], x, (o: Op) => o.TextSearch?);
  }

  lemma CategoryCall(query: Option<string>, f: Filters, ops: seq<Op>)
    requires ops == TextPart(query) + CategoryPart(f) + TagPart(f) + [SortOrder(f.sortBy)]
    ensures (exists o :: o in ops && o.In?) <==> NonEmpty(f.categories)
    ensures NonEmpty(f.categories) ==> In("category", f.categories.value) in ops
  {
    var x := In("category", if f.categories.Some? then f.categories.value else []);
    OnePart(ops, TextPart(query), CategoryPart(f), TagPart(f) + [SortOrder(f.sortBy)], x, (o: Op) => o.In?);
  }

  lemma TagCall(query: Option<string>, f: Filters, ops: seq<Op>)
    requires ops == TextPart(query) + CategoryPart(f) + TagPart(f) + [SortOrder(f.sortBy)]
    ensures (exists o :: o in ops && o.Overlaps?) <==> NonEmpty(f.tags)
    ensures NonEmpty(f.tags) ==> Overlaps("tags", f.tags.value) in ops
  {
    var x := Overlaps("tags", if f.tags.Some? then f.tags.value else []);
    OnePart(ops, TextPart(query) + CategoryPart(f), TagPart(f), [SortOrder(f.sortBy)], x, (o: Op) => o.Overlaps?);
  }

  /** A call of a given kind made at most once, between calls of other kinds:
      the query has a call of that kind exactly when the call was made. */
  lemma OnePart(ops: seq<Op>, front: seq<Op>, part: seq<Op>, back: seq<Op>, x: Op, kind: Op -> bool)
    requires ops == front + part + back
    requires part == [] || part == [x]
    requires kind(x)
    requires forall o :: o in front ==> !kind(o)
    requires forall o :: o in back ==> !kind(o)
    ensures (exists o :: o in ops && kind(o)) <==> part != []
    ensures part != [] ==> x in ops
  {
    if part != [] { assert ops[|front|] == x; }
  }

  /** Exactly one ordering call, the last one. */
  lemma OrderingCall(query: Option<string>, f: Filters)
    ensures Orderings(TextPart(query) + CategoryPart(f) + TagPart(f) + [SortOrder(f.sortBy)]) == [SortOrder(f.sortBy)]
  {
    var t, c, g := TextPart(query), CategoryPart(f), TagPart(f);
    assert t + c + g + [SortOrder(f.sortBy)] == (t + c + g) + [SortOrder(f.sortBy)] + [];
    OneOrdering(t + c + g, SortOrder(f.sortBy), []);
  }

  /** What the built query holds: each filter call exactly when its input is
      given (the text search on the untrimmed query), and one ordering, last. */
  predicate QueryFor(query: Option<string>, f: Filters, ops: seq<Op>)
  {
    && ((exists o :: o in ops && o.TextSearch?) <==> query.Some? && Trim(query.value) != [])
    && (query.Some? && Trim(query.value) != [] ==> TextSearch("title,description", query.value) in ops)
    && ((exists o :: o in ops && o.In?) <==> NonEmpty(f.categories))
    && (NonEmpty(f.categories) ==> In("category", f.categories.value) in ops)
    && ((exists o :: o in ops && o.Overlaps?) <==> NonEmpty(f.tags))
    && (NonEmpty(f.tags) ==> Overlaps("tags", f.tags.value) in ops)
    && Orderings(ops) == [SortOrder(f.sortBy)]
    && |ops| >= 1 && ops[|ops| - 1] == SortOrder(f.sortBy)
  }

  /** The query, built call by call; `filters` must be present (reading its
      members otherwise throws, which the route answers with 500). */
  method BuildQuery(query: Option<string>, f: Filters) returns (ops: seq<Op>)
    ensures QueryFor(query, f, ops)
  {
    ops := [];
    if query.Some? && Trim(query.value) != [] {
      ops := ops + [TextSearch("title,description", query.value)];
    }
    assert ops == TextPart(query);
    if NonEmpty(f.categories) {
      ops := ops + [In("category", f.categories.value)];
    }
    assert ops == TextPart(query) + CategoryPart(f);
    if NonEmpty(f.tags) {
      ops := ops + [Overlaps("tags", f.tags.value)];
    }
    assert ops == TextPart(query) + CategoryPart(f) + TagPart(f);
    ops := ops + [SortOrder(f.sortBy)];
    QueryShape(query, f, ops);
  }

  /** What the built query holds: the filter calls made, and one ordering, last. */
  lemma QueryShape(query: Option<string>, f: Filters, ops: seq<Op>)
    requires ops == TextPart(query) + CategoryPart(f) + TagPart(f) + [SortOrder(f.sortBy)]
    ensures QueryFor(query, f, ops)
  {
    FilterCalls(query, f, ops);
    OrderingCall(query, f);
  }

  /** The answer: 200 with the projects, or 500 with a message. */
  datatype Response<R> = Found(projects: R) | ServerError(message: string)

  /** `POST`: `body` is `None` when the JSON does not parse; `db` is the
      database's answer to the query, an error message or the rows. */
  method Post<R>(body: Option<Body>, db: Result<R>) returns (ops: seq<Op>, response: Response<R>)
    ensures body.None? || body.value.filters.None? ==> ops == [] && response == ServerError("Internal server error")
    ensures body.Some? && body.value.filters.Some? ==> (
      QueryFor(body.value.query, body.value.filters.value, ops)
      && response == (if db.Err? then ServerError(db.error) else Found(db.value)))
  {
    ops := [];
    if body.None? || body.value.filters.None? {
      response := ServerError("Internal server error");
      return;
    }
    ops := BuildQuery(body.value.query, body.value.filters.value);
    if db.Err? {
      response := ServerError(db.error);
    } else {
      response := Found(db.value);
    }
  }
}
