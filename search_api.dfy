/** `GET /api/search`: the query-string parsing, the Elasticsearch request
    body assembled by `performElasticsearchQuery`, and the index names used
    by `indexContent` and `deleteFromIndex`. The call that would send the body
    and shape the hits is commented out in the route, so the body is built
    and then dropped, `performElasticsearchQuery` returns `undefined`, and
    serializing that answer throws, so the route always answers 500. */
module SearchApi {
  import opened JsString
  import opened Paging

  datatype DateRange = DateRange(from: Option<string>, to: Option<string>)

  datatype SearchFilters = SearchFilters(
    categories: seq<string>, tags: seq<string>, contentType: seq<string>, dateRange: Option<DateRange>, sortBy: string)

  datatype SearchRequest = SearchRequest(query: string, page: Number, limit: Number, filters: SearchFilters)

  /** `searchParams.get(name)?.split(",") || dflt`: a present parameter is
      always split (an empty one gives `[""]`), an absent one takes the default. */
  function ListParam(params: map<string, string>, name: string, dflt: seq<string>): (r: seq<string>)
    ensures name !in params ==> r == dflt
    ensures name in params ==> |r| >= 1
  {
    if name in params then Split(params[name], ",") else dflt
  }

  const AllTypes: seq<string> := ["projects", "videos", "users"]

  /** The parsing of `GET`; it never sets a date range. */
  function ParseRequest(params: map<string, string>): (r: SearchRequest)
    ensures r.filters.dateRange.None?
  {
    SearchRequest(
      GetOr(params, "q", ""), IntParam(params, "page", "1"), IntParam(params, "limit", "20"),
      SearchFilters(ListParam(params, "categories", []), ListParam(params, "tags", []),
        ListParam(params, "type", AllTypes), None, GetOr(params, "sort", "relevance")))
  }

  /** Without parameters: empty query, page 1, limit 20, all three content types, relevance order. */
  lemma ParseRequestDefaults()
    ensures ParseRequest(map[]) == SearchRequest("", Finite(1), Finite(20),
      SearchFilters([], [], AllTypes, None, "relevance"))
  {
    var none: map<string, string> := map[];
    DefaultNumerals();
    IntParamDefault(none, "page", 1);
    IntParamDefault(none, "limit", 20);
  }

  /** A present but empty list parameter is the one-element list `[""]`,
      and a list joined with commas reads back as itself. */
  lemma ListParamReads(params: map<string, string>, name: string, parts: seq<string>)
    requires |parts| >= 1 && forall i :: 0 <= i < |parts| ==> ',' !in parts[i]
    ensures name in params && params[name] == "" ==> ListParam(params, name, []) == [""]
    ensures name in params && params[name] == Join(parts, ",") ==> ListParam(params, name, []) == parts
  {
    var e: string := [];
    assert |e| < |","|;
    SplitShort(e, ",");
    SplitJoinChar(parts, ',');
  }

  datatype MustClause = MultiMatch(query: string) | MatchAll

  /** The one `must` clause: a multi-field match on the query as given, or
      match-all when the query is only whitespace. */
  function MustFor(query: string): MustClause
  {
    if Trim(query) != [] then MultiMatch(query) else MatchAll
  }

  /** Match-all exactly for an all-whitespace query; otherwise the query is matched as given, untrimmed. */
  lemma MustForMeaning(query: string)
    ensures MustFor(query) == MatchAll <==> forall i :: 0 <= i < |query| ==> IsJsSpace(query[i])
    ensures MustFor(query) != MatchAll ==> MustFor(query) == MultiMatch(query)
  {
    TrimEmptyIffAllSpace(query);
  }

  datatype FilterClause = Terms(field: string, values: seq<string>) | CreatedAtRange(gte: Option<string>, lte: Option<string>)

  datatype SortClause = FieldOrder(field: string, order: string) | Score

  /** The variable part of the body; the highlight and aggregation members are constants. */
  datatype SearchBody = SearchBody(must: seq<MustClause>, filter: seq<FilterClause>, sort: seq<SortClause>, from: Number, size: Number)

  /** The date clause: `gte` and `lte` only for truthy ends. */
  function DateClause(d: DateRange): FilterClause
  {
    CreatedAtRange(if d.from.Some? && Truthy(d.from.value) then d.from else None,
      if d.to.Some? && Truthy(d.to.value) then d.to else None)
  }

  /** The filter clauses in push order: content type, categories, tags, date range. */
  function FilterClauses(f: SearchFilters): seq<FilterClause>
  {
    (if |f.contentType| > 0 then [Terms("content_type", f.contentType)] else [])
    + (if |f.categories| > 0 then [Terms("category.keyword", f.categories)] else [])
    + (if |f.tags| > 0 then [Terms("tags.keyword", f.tags)] else [])
    + (if f.dateRange.Some? then [DateClause(f.dateRange.value)] else [])
  }

  /** Each clause is there exactly when its list is non-empty (or the range
      given), with that list, and they come in the fixed order. */
  lemma FilterClausesShape(f: SearchFilters)
    ensures var fc := FilterClauses(f);
      |fc| == (if |f.contentType| > 0 then 1 else 0) + (if |f.categories| > 0 then 1 else 0)
            + (if |f.tags| > 0 then 1 else 0) + (if f.dateRange.Some? then 1 else 0)
    ensures (exists v :: Terms("content_type", v) in FilterClauses(f)) <==> |f.contentType| > 0
    ensures (exists v :: Terms("category.keyword", v) in FilterClauses(f)) <==> |f.categories| > 0
    ensures (exists v :: Terms("tags.keyword", v) in FilterClauses(f)) <==> |f.tags| > 0
    ensures |f.contentType| > 0 ==> FilterClauses(f)[0] == Terms("content_type", f.contentType)
    ensures f.dateRange.Some? ==> FilterClauses(f)[|FilterClauses(f)| - 1] == DateClause(f.dateRange.value)
  {
    ContentTypeClause(f);
    CategoryClause(f);
    TagsClause(f);
  }

  lemma ContentTypeClause(f: SearchFilters)
    ensures (exists v :: Terms("content_type", v) in FilterClauses(f)) <==> |f.contentType| > 0
  {
    var fc := FilterClauses(f);
    if |f.contentType| > 0 {
      assert fc[0] == Terms("content_type", f.contentType);
    } else {
      assert forall x :: x in fc ==> !(x.Terms? && x.field == "content_type");
    }
  }

  lemma CategoryClause(f: SearchFilters)
    ensures (exists v :: Terms("category.keyword", v) in FilterClauses(f)) <==> |f.categories| > 0
  {
    var a: seq<FilterClause> := if |f.contentType| > 0 then [Terms("content_type", f.contentType)] else [];
    var fc := FilterClauses(f);
    if |f.categories| > 0 {
      assert fc[|a|] == Terms("category.keyword", f.categories);
    } else {
      assert forall x :: x in fc ==> !(x.Terms? && x.field == "category.keyword");
    }
  }

  lemma TagsClause(f: SearchFilters)
    ensures (exists v :: Terms("tags.keyword", v) in FilterClauses(f)) <==> |f.tags| > 0
  {
    var a: seq<FilterClause> := if |f.contentType| > 0 then [Terms("content_type", f.contentType)] else [];
    var b: seq<FilterClause> := if |f.categories| > 0 then [Terms("category.keyword", f.categories)] else [];
    var fc := FilterClauses(f);
    if |f.tags| > 0 {
      assert fc[|a| + |b|] == Terms("tags.keyword", f.tags);
    } else {
      assert forall x :: x in fc ==> !(x.Terms? && x.field == "tags.keyword");
    }
  }

  /** The one sort entry for a `sortBy` value; relevance and unknown values sort by score. */
  function SortFor(sortBy: string): (r: SortClause)
    ensures r == Score <==> sortBy !in {"newest", "oldest", "most-liked", "most-viewed"}
  {
    if sortBy == "newest" then FieldOrder("created_at", "desc")
    else if sortBy == "oldest" then FieldOrder("created_at", "asc")
    else if sortBy == "most-liked" then FieldOrder("likes_count", "desc")
    else if sortBy == "most-viewed" then FieldOrder("views_count", "desc")
    else Score
  }

  /** The filter pushes of `performElasticsearchQuery`, in their order. */
  method PushFilters(f: SearchFilters) returns (filter: seq<FilterClause>)
    ensures filter == FilterClauses(f)
  {
    filter := [];
    if |f.contentType| > 0 {
      filter := filter + [Terms("content_type", f.contentType)];
    }
    if |f.categories| > 0 {
      filter := filter + [Terms("category.keyword", f.categories)];
    }
    if |f.tags| > 0 {
      filter := filter + [Terms("tags.keyword", f.tags)];
    }
    if f.dateRange.Some? {
      filter := filter + [DateClause(f.dateRange.value)];
    }
  }

  /** `performElasticsearchQuery`: the body starts with empty lists and is
      filled by pushes. */
  method BuildSearchBody(query: string, f: SearchFilters, page: Number, limit: Number) returns (body: SearchBody)
    ensures body.must == [MustFor(query)]
    ensures body.filter == FilterClauses(f)
    ensures body.sort == [SortFor(f.sortBy)]
    ensures body.from == RangeBounds(page, limit).0 && body.size == limit
  {
    var must: seq<MustClause> := [];
    var sort: seq<SortClause> := [];
    if Trim(query) != [] {
      must := must + [MultiMatch(query)];
    } else {
      must := must + [MatchAll];
    }
    var filter := PushFilters(f);
    sort := sort + [SortFor(f.sortBy)];
    body := SearchBody(must, filter, sort, RangeBounds(page, limit).0, limit);
  }

  /** Without a date range no clause filters on the creation date. */
  lemma NoDateClause(f: SearchFilters)
    requires f.dateRange.None?
    ensures forall x :: x in FilterClauses(f) ==> x.Terms?
  {
  }

  /** The JSON payloads of the route: the query result, which is always
      `undefined` because `performElasticsearchQuery` has no `return`, and
      the error object of the catch. */
  datatype Payload = Undefined | SearchError(error: string)

  datatype Reply = Reply(status: int, payload: Payload)

  /** `NextResponse.json(v, { status })`: it goes through `Response.json`,
      which throws a TypeError when `JSON.stringify(v)` gives `undefined`,
      as it does for `undefined` itself. `None` is the throw. */
  function Json(v: Payload, status: int): (r: Option<Reply>)
    ensures r.None? <==> v.Undefined?
    ensures r.Some? ==> r.value.status == status && r.value.payload == v
  {
    if v.Undefined? then None else Some(Reply(status, v))
  }

  /** `GET`: parses the parameters and builds the body (which is then
      dropped); answering with the undefined result throws, and the catch
      answers 500 with `{ error: "Search failed" }`. */
  method Get(params: map<string, string>) returns (body: SearchBody, reply: Reply)
    ensures var r := ParseRequest(params);
      body.filter == FilterClauses(r.filters) && body.sort == [SortFor(r.filters.sortBy)]
      && body.must == [MustFor(r.query)]
      && body.from == RangeBounds(r.page, r.limit).0 && body.size == r.limit
    ensures forall x :: x in body.filter ==> !x.CreatedAtRange?
    ensures reply == Reply(500, SearchError("Search failed"))
  {
    var r := ParseRequest(params);
    body := BuildSearchBody(r.query, r.filters, r.page, r.limit);
    NoDateClause(r.filters);
    var results := Undefined;
    reply := Catch(Json(results, 200), Reply(500, SearchError("Search failed")));
  }

  /** `try { return answer } catch { return fallback }`, with `None` the throw. */
  function Catch(answer: Option<Reply>, fallback: Reply): Reply
  {
    if answer.Some? then answer.value else fallback
  }

  datatype IndexedType = ProjectDoc | VideoDoc | UserDoc

  function DocTypeName(t: IndexedType): (r: string)
    ensures r != [] && r[0] == (match t case ProjectDoc => 'p' case VideoDoc => 'v' case UserDoc => 'u')
    ensures r[|r| - 1] != 's'
  {
    match t
    case ProjectDoc => "project"
    case VideoDoc => "video"
    case UserDoc => "user"
  }

  /** `genzskillboost_${contentType}s`. */
  function IndexName(t: IndexedType): string
  {
    "genzskillboost_" + DocTypeName(t) + "s"
  }

  /** The three content types live in three different indices, all under the "genzskillboost_" prefix. */
  lemma IndexNamesDistinct(a: IndexedType, b: IndexedType)
    ensures IndexName(a) == IndexName(b) <==> a == b
    ensures |IndexName(a)| > 15 && IndexName(a)[..15] == "genzskillboost_"
  {
    assert IndexName(a)[15] == DocTypeName(a)[0];
    assert IndexName(b)[15] == DocTypeName(b)[0];
  }

  /** The client calls: index a document (with its type and the indexing time added) or delete one. */
  datatype IndexCall = IndexDocument(index: string, id: string, contentType: IndexedType, indexedAt: string)
                     | DeleteDocument(index: string, id: string)

  function IndexContent(t: IndexedType, id: string, indexedAt: string): IndexCall
  {
    IndexDocument(IndexName(t), id, t, indexedAt)
  }

  function DeleteFromIndex(t: IndexedType, id: string): IndexCall
  {
    DeleteDocument(IndexName(t), id)
  }

  /** A deletion targets the index and id its indexing used. */
  lemma DeleteMatchesIndex(t: IndexedType, id: string, indexedAt: string)
    ensures DeleteFromIndex(t, id).index == IndexContent(t, id, indexedAt).index
    ensures DeleteFromIndex(t, id).id == IndexContent(t, id, indexedAt).id
    ensures forall u :: u != t ==> DeleteFromIndex(u, id).index != IndexContent(t, id, indexedAt).index
  {
    forall u | u != t ensures DeleteFromIndex(u, id).index != IndexContent(t, id, indexedAt).index {
      IndexNamesDistinct(u, t);
    }
  }

  /** The `content_type` stored with an indexed document is the singular
      type name, while the type filter holds the plural names of the
      `type` parameter: no document matches the default filter. */
  lemma DefaultTypeFilterMissesIndexedDocuments(t: IndexedType, id: string, indexedAt: string)
    ensures DocTypeName(IndexContent(t, id, indexedAt).contentType) !in ParseRequest(map[]).filters.contentType
  {
    var none: map<string, string> := map[];
    assert ParseRequest(none).filters.contentType == AllTypes;
    var n := DocTypeName(t);
    AllTypesPlural();
    forall i | 0 <= i < |AllTypes| ensures AllTypes[i] != n {
      assert AllTypes[i][|AllTypes[i]| - 1] == 's';
    }
  }

  /** Every default type value ends in 's'. */
  lemma AllTypesPlural()
    ensures forall i :: 0 <= i < |AllTypes| ==> AllTypes[i] != [] && AllTypes[i][|AllTypes[i]| - 1] == 's'
  {
  }

  /** A plural type value read as the singular `content_type` it names. */
  function Singular(v: string): (r: string)
    ensures v != [] && v[|v| - 1] == 's' ==> r + "s" == v
  {
    if v != [] && v[|v| - 1] == 's' then v[..|v| - 1] else v
  }

  /** The type filter values as stored `content_type` values. */
  function StoredTypes(types: seq<string>): (r: seq<string>)
    ensures |r| == |types| && forall i :: 0 <= i < |types| ==> r[i] == Singular(types[i])
  {
    if types == [] then [] else [Singular(types[0])] + StoredTypes(types[1..])
  }

  /** With the values made singular, a type asked for in the plural matches
      the documents indexed under that type, and the default filter matches
      every indexed document. */
  lemma StoredTypesMatchIndexedDocuments(types: seq<string>, t: IndexedType)
    ensures DocTypeName(t) + "s" in types ==> DocTypeName(t) in StoredTypes(types)
    ensures DocTypeName(t) in StoredTypes(AllTypes)
  {
    var n := DocTypeName(t);
    if n + "s" in types {
      var i :| 0 <= i < |types| && types[i] == n + "s";
      assert Singular(types[i]) + "s" == n + "s";
      assert Singular(types[i]) == (Singular(types[i]) + "s")[..|n|];
      assert StoredTypes(types)[i] == n;
    }
    var j := match t case ProjectDoc => 0 case VideoDoc => 1 case UserDoc => 2;
    assert AllTypes[j] == n + "s";
  }
}
