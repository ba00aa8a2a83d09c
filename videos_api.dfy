/** `GET /api/videos`: the query-string defaults, the feed-type switch that
    picks the filter and the ordering, the optional user filter, the page
    window and the pagination answer. */
module VideosApi {
  import opened JsString
  import opened Paging
  import opened QueryOps

  datatype ListParams = ListParams(page: Number, limit: Number, feedType: string, userId: Option<string>)

  /** page `|| "1"`, limit `|| "10"`, type `|| "for-you"`, and the raw userId. */
  function ParseParams(params: map<string, string>): ListParams
  {
    ListParams(IntParam(params, "page", "1"), IntParam(params, "limit", "10"),
      GetOr(params, "type", "for-you"), Param(params, "userId"))
  }

  /** Without parameters the route reads page 1, limit 10 and the "for-you" feed. */
  lemma ParseParamsDefaults()
    ensures ParseParams(map[]) == ListParams(Finite(1), Finite(10), "for-you", None)
  {
    var none: map<string, string> := map[];
    DefaultNumerals();
    IntParamDefault(none, "page", 1);
    IntParamDefault(none, "limit", 10);
  }

  /** What the route's query holds: the ordering picked by the feed type
      (with the trending filter iff "trending"), the user filter iff a
      non-empty userId is given, and the page window as the last call. */
  ghost predicate QueryFor(p: ListParams, ops: seq<Op>)
  {
    && Orderings(ops) == [if p.feedType == "trending" then Order("trending_score", false) else Order("created_at", false)]
    && (Eq("is_trending", Flag(true)) in ops <==> p.feedType == "trending")
    && ((exists u :: Eq("user_id", Text(u)) in ops) <==> p.userId.Some? && p.userId.value != [])
    && (p.userId.Some? && p.userId.value != [] ==> Eq("user_id", Text(p.userId.value)) in ops)
    && |ops| > 0 && ops[|ops| - 1] == RangeOp(RangeBounds(p.page, p.limit).0, RangeBounds(p.page, p.limit).1)
  }

  /** The query of the route, built call by call. */
  method BuildQuery(p: ListParams) returns (ops: seq<Op>)
    ensures QueryFor(p, ops)
  {
    var pre: seq<Op>, ord: Op;
    if p.feedType == "trending" {
      pre, ord := [Eq("is_trending", Flag(true))], Order("trending_score", false);
    } else {
      pre, ord := [], Order("created_at", false);
    }
    ops := pre + [ord];
    var userOps: seq<Op> := [];
    if p.userId.Some? && p.userId.value != [] {
      userOps := [Eq("user_id", Text(p.userId.value))];
      ops := ops + userOps;
    }
    var bounds := RangeBounds(p.page, p.limit);
    ops := ops + [RangeOp(bounds.0, bounds.1)];
    assert ops == pre + [ord] + (userOps + [RangeOp(bounds.0, bounds.1)]);
    OneOrdering(pre, ord, userOps + [RangeOp(bounds.0, bounds.1)]);
  }

  /** `GET`: the query sent and the answer for what the database returns. */
  method Get<R>(params: map<string, string>, db: DbResult<R>) returns (ops: seq<Op>, response: ListResponse<R>)
    ensures QueryFor(ParseParams(params), ops)
    ensures response == ListAnswer(ParseParams(params).page, ParseParams(params).limit, db)
  {
    var p := ParseParams(params);
    ops := BuildQuery(p);
    response := ListAnswer(p.page, p.limit, db);
  }
}
