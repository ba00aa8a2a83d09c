/** The project search page: the filter state (categories, tags and the sort
    choice) changed by its handlers, the badge count of active filters, the
    client-side re-sort of the projects the server sends, and the request it
    posts to the search endpoint. */
module ProjectSearch {
  import opened JsString
  import opened StableSort
  import opened QueryOps
  import ProjectSearchApi

  datatype Project = Project(
    id: string, title: string, category: string, tags: seq<string>,
    likesCount: int, viewsCount: int, createdAt: int)

  datatype SearchFilters = SearchFilters(categories: seq<string>, tags: seq<string>, sortBy: string)

  const NoFilters := SearchFilters([], [], "newest")

  function CreatedAt(p: Project): int { p.createdAt }
  function Age(p: Project): int { -p.createdAt }
  function Likes(p: Project): int { p.likesCount }
  function Views(p: Project): int { p.viewsCount }

  /** The key whose descending order the comparator for `sortBy` gives;
      "oldest" is ascending creation time, i.e. descending age. */
  function SortKey(sortBy: string): Option<Project -> int>
  {
    if sortBy == "newest" then Some(CreatedAt)
    else if sortBy == "oldest" then Some(Age)
    else if sortBy == "most-liked" then Some(Likes)
    else if sortBy == "most-viewed" then Some(Views)
    else None
  }

  /** `sortedAndFilteredProjects`: a copy of the projects, sorted by the
      comparator of `sortBy`; an unknown value leaves the copy in order. */
  function SortedProjects(projects: seq<Project>, sortBy: string): seq<Project>
  {
    var key := SortKey(sortBy);
    if key.Some? then SortDesc(projects, key.value) else projects
  }

  /** The result holds the same projects, in the order `sortBy` names, and
      projects that compare equal keep their order. */
  lemma SortedProjectsOrder(projects: seq<Project>, sortBy: string)
    ensures multiset(SortedProjects(projects, sortBy)) == multiset(projects)
    ensures var r := SortedProjects(projects, sortBy);
      (sortBy == "newest" ==> forall i, j :: 0 <= i < j < |r| ==> r[i].createdAt >= r[j].createdAt)
      && (sortBy == "oldest" ==> forall i, j :: 0 <= i < j < |r| ==> r[i].createdAt <= r[j].createdAt)
      && (sortBy == "most-liked" ==> forall i, j :: 0 <= i < j < |r| ==> r[i].likesCount >= r[j].likesCount)
      && (sortBy == "most-viewed" ==> forall i, j :: 0 <= i < j < |r| ==> r[i].viewsCount >= r[j].viewsCount)
    ensures SortKey(sortBy).None? ==> SortedProjects(projects, sortBy) == projects
    ensures forall k :: SortKey(sortBy).Some? ==>
      WithKey(SortedProjects(projects, sortBy), SortKey(sortBy).value, k) == WithKey(projects, SortKey(sortBy).value, k)
  {
    var key := SortKey(sortBy);
    if key.Some? {
      SortDescSortedPermutation(projects, key.value);
      forall k ensures WithKey(SortDesc(projects, key.value), key.value, k) == WithKey(projects, key.value, k) {
        SortDescStable(projects, key.value, k);
      }
    }
  }

  /** The value of a projects-table column on a project. */
  function Column(p: Project, column: string): int
  {
    if column == "likes_count" then p.likesCount
    else if column == "views_count" then p.viewsCount
    else p.createdAt
  }

  /** With comparators that read the columns the endpoint returns, the
      client sorts by the column and direction the endpoint orders by, so a
      list the server already ordered comes back unchanged. `SortedProjects`
      is this corrected re-sort; `ClientSortedRows` is the one written. */
  lemma ClientSortAgreesWithServer(projects: seq<Project>, sortBy: string)
    requires sortBy in {"newest", "oldest", "most-liked", "most-viewed"}
    ensures var o := ProjectSearchApi.SortOrder(Some(sortBy));
      SortKey(sortBy).Some?
      && (forall p :: SortKey(sortBy).value(p) == (if o.ascending then -Column(p, o.column) else Column(p, o.column)))
    ensures var o := ProjectSearchApi.SortOrder(Some(sortBy));
      (forall i, j :: 0 <= i < j < |projects| ==>
        if o.ascending then Column(projects[i], o.column) <= Column(projects[j], o.column)
        else Column(projects[i], o.column) >= Column(projects[j], o.column))
      ==> SortedProjects(projects, sortBy) == projects
  {
    var o := ProjectSearchApi.SortOrder(Some(sortBy));
    var key := SortKey(sortBy).value;
    if forall i, j :: 0 <= i < j < |projects| ==>
        if o.ascending then Column(projects[i], o.column) <= Column(projects[j], o.column)
        else Column(projects[i], o.column) >= Column(projects[j], o.column)
    {
      assert SortedDesc(projects, key);
      SortDescOfSorted(projects, key);
    }
  }

  // ---------------------------------------------------------------------
  // The re-sort as written, on the rows the search endpoint returns

  /** A project as the search endpoint sends it: the numeric columns of the
      `projects` row under their column names (dates as milliseconds). */
  type Row = map<string, int>

  /** The keys a row of the endpoint can carry: the columns of the
      `projects` table and the joined `users` object. */
  const RouteKeys: set<string> := {"id", "user_id", "title", "description", "images", "tags", "category",
    "status", "views_count", "likes_count", "comments_count", "created_at", "updated_at", "users"}

  /** A JavaScript number as far as the comparators need one. */
  datatype Num = NaN | Num(v: int)

  /** Reading a field: a missing property is `undefined`, which turns into
      NaN in a subtraction and in `new Date(undefined).getTime()`. */
  function Get(r: Row, field: string): (n: Num)
    ensures n.Num? <==> field in r
  {
    if field in r then Num(r[field]) else NaN
  }

  function Sub(a: Num, b: Num): (n: Num)
    ensures n.Num? <==> a.Num? && b.Num?
  {
    if a.Num? && b.Num? then Num(a.v - b.v) else NaN
  }

  /** The comparator of `sortedAndFilteredProjects` for `sortBy`, reading
      the camel-case fields of the client-side `Project` type. */
  function ClientCompare(sortBy: string, a: Row, b: Row): (n: Num)
    ensures n.Num? ==> sortBy == "newest" || sortBy == "oldest" || sortBy == "most-liked" || sortBy == "most-viewed"
  {
    if sortBy == "newest" then Sub(Get(b, "createdAt"), Get(a, "createdAt"))
    else if sortBy == "oldest" then Sub(Get(a, "createdAt"), Get(b, "createdAt"))
    else if sortBy == "most-liked" then Sub(Get(b, "likesCount"), Get(a, "likesCount"))
    else if sortBy == "most-viewed" then Sub(Get(b, "viewsCount"), Get(a, "viewsCount"))
    else NaN
  }

  /** `Array.prototype.sort` is stable, puts `x` after `y` only when the
      comparator is positive, and counts a NaN comparison as 0. */
  function InsertRow(x: Row, s: seq<Row>, sortBy: string): (r: seq<Row>)
    ensures multiset(r) == multiset(s) + multiset{x}
  {
    if s == [] then [x]
    else
      var c := ClientCompare(sortBy, x, s[0]);
      if c.Num? && c.v > 0 then
        assert s == [s[0]] + s[1..];
        [s[0]] + InsertRow(x, s[1..], sortBy)
      else [x] + s
  }

  /** The client re-sort as written, applied to the endpoint's rows. */
  function ClientSortedRows(rows: seq<Row>, sortBy: string): (r: seq<Row>)
    ensures multiset(r) == multiset(rows)
  {
    if rows == [] then []
    else
      assert rows == [rows[0]] + rows[1..];
      InsertRow(rows[0], ClientSortedRows(rows[1..], sortBy), sortBy)
  }

  /** The rows carry no camel-case field, so every comparison is NaN and
      the re-sort leaves the server's order as it is, whatever `sortBy` is. */
  lemma {:induction false} ClientSortKeepsRouteRows(rows: seq<Row>, sortBy: string)
    requires forall r :: r in rows ==> r.Keys <= RouteKeys
    ensures ClientSortedRows(rows, sortBy) == rows
  {
    if rows != [] {
      ClientSortKeepsRouteRows(rows[1..], sortBy);
      if |rows| > 1 {
        assert rows[1] in rows;
        RouteRowCompare(sortBy, rows[0], rows[1]);
      }
    }
  }

  lemma RouteRowCompare(sortBy: string, a: Row, b: Row)
    requires a.Keys <= RouteKeys && b.Keys <= RouteKeys
    ensures ClientCompare(sortBy, a, b) == NaN
  {
    assert "createdAt" !in a && "likesCount" !in a && "viewsCount" !in a;
  }

  /** Two rows out of "newest" order stay as they are, although their
      creation times call for a swap. */
  lemma ClientSortIgnoresOrder()
    ensures var older := map["created_at" := 1];
      var newer := map["created_at" := 2];
      ClientSortedRows([older, newer], "newest") == [older, newer]
  {
    var older := map["created_at" := 1];
    var newer := map["created_at" := 2];
    ClientSortKeepsRouteRows([older, newer], "newest");
  }

  /** A checkbox change: checking appends the value, without a duplicate
      check; unchecking removes every occurrence. */
  function Toggled(xs: seq<string>, x: string, checked: bool): (r: seq<string>)
    ensures checked ==> r == xs + [x] && |r| == |xs| + 1
    ensures !checked ==> x !in r && multiset(r) == multiset(xs)[x := 0] && |r| == |xs| - multiset(xs)[x]
  {
    if checked then xs + [x]
    else
      var r := RemoveAll(xs, x);
      assert |multiset(r)| == |multiset(xs)| - multiset(xs)[x] by {
        assert multiset(xs) == multiset(r) + multiset{}[x := multiset(xs)[x]];
      }
      r
  }

  /** A quick-filter button: it passes `!includes`, so it toggles membership. */
  function QuickToggled(xs: seq<string>, x: string): seq<string>
  {
    Toggled(xs, x, x !in xs)
  }

  /** The button adds an absent tag and removes a present one, keeps a
      duplicate-free list duplicate-free, and two presses starting from an
      absent tag give the list back. */
  lemma QuickToggleFlips(xs: seq<string>, x: string)
    ensures x in QuickToggled(xs, x) <==> x !in xs
    ensures forall y :: y != x ==> (y in QuickToggled(xs, x) <==> y in xs)
    ensures NoDuplicates(xs) ==> NoDuplicates(QuickToggled(xs, x))
    ensures x !in xs ==> QuickToggled(QuickToggled(xs, x), x) == xs
  {
    var r := QuickToggled(xs, x);
    forall y | y != x ensures y in r <==> y in xs {
      assert y in r <==> multiset(r)[y] > 0;
      assert y in xs <==> multiset(xs)[y] > 0;
    }
    if NoDuplicates(xs) {
      if x in xs {
        RemoveAllKeepsDistinct(xs, x);
      }
    }
    if x !in xs {
      assert x in r;
      RemoveAllAppend(xs, [x], x);
      assert RemoveAll([x], x) == [];
    }
  }

  lemma {:induction false} RemoveAllKeepsDistinct(xs: seq<string>, x: string)
    requires NoDuplicates(xs)
    ensures NoDuplicates(RemoveAll(xs, x))
  {
    if xs != [] {
      assert NoDuplicates(xs[1..]);
      RemoveAllKeepsDistinct(xs[1..], x);
      var rest := RemoveAll(xs[1..], x);
      assert xs[0] !in xs[1..];
      assert xs[0] !in rest by {
        assert multiset(rest)[xs[0]] <= multiset(xs[1..])[xs[0]];
        assert multiset(xs[1..])[xs[0]] == 0;
      }
    }
  }

  /** The number shown on the filter badge. */
  function ActiveCount(f: SearchFilters): nat
  {
    |f.categories| + |f.tags|
  }

  /** The body the page posts: the debounced query and the whole filter state. */
  function RequestBody(query: string, f: SearchFilters): ProjectSearchApi.Body
  {
    ProjectSearchApi.Body(Some(query), Some(ProjectSearchApi.Filters(Some(f.categories), Some(f.tags), Some(f.sortBy))))
  }

  /** The page always sends a `filters` object, so the endpoint's missing-filters
      failure cannot come from it; the endpoint filters exactly on the
      categories and tags the page has checked, and orders as the page's
      sort choice says. */
  lemma RequestBodyFilters(query: string, f: SearchFilters)
    ensures RequestBody(query, f).filters.Some?
    ensures var sf := RequestBody(query, f).filters.value;
      (ProjectSearchApi.CategoryPart(sf) != [] <==> |f.categories| > 0)
      && (ProjectSearchApi.TagPart(sf) != [] <==> |f.tags| > 0)
      && ProjectSearchApi.SortOrder(sf.sortBy).column == (if f.sortBy in {"most-liked", "most-viewed"} then
           (if f.sortBy == "most-liked" then "likes_count" else "views_count") else "created_at")
  {
  }

  class SearchPage {
    var query: string
    var projects: seq<Project>
    var filters: SearchFilters
    var loading: bool

    constructor()
      ensures query == [] && projects == [] && filters == NoFilters && !loading
    {
      query := [];
      projects := [];
      filters := NoFilters;
      loading := false;
    }

    /** `activeFiltersCount`. */
    function ActiveFiltersCount(): nat
      reads this
    {
      ActiveCount(filters)
    }

    /** The list the page shows. */
    function Shown(): seq<Project>
      reads this
    {
      SortedProjects(projects, filters.sortBy)
    }

    /** `handleCategoryChange`. */
    method OnCategoryChange(category: string, checked: bool)
      modifies this`filters
      ensures filters == old(filters).(categories := Toggled(old(filters).categories, category, checked))
      ensures checked ==> ActiveFiltersCount() == old(ActiveFiltersCount()) + 1
      ensures !checked ==> category !in filters.categories
    {
      filters := filters.(categories := Toggled(filters.categories, category, checked));
    }

    /** `handleTagChange`. */
    method OnTagChange(tag: string, checked: bool)
      modifies this`filters
      ensures filters == old(filters).(tags := Toggled(old(filters).tags, tag, checked))
      ensures checked ==> ActiveFiltersCount() == old(ActiveFiltersCount()) + 1
      ensures !checked ==> tag !in filters.tags
    {
      filters := filters.(tags := Toggled(filters.tags, tag, checked));
    }

    /** A quick-filter button. */
    method OnQuickTag(tag: string)
      modifies this`filters
      ensures filters == old(filters).(tags := QuickToggled(old(filters).tags, tag))
      ensures tag in filters.tags <==> tag !in old(filters).tags
    {
      OnTagChange(tag, tag !in filters.tags);
      QuickToggleFlips(old(filters).tags, tag);
    }

    /** The sort select. */
    method OnSortChange(sortBy: string)
      modifies this`filters
      ensures filters == old(filters).(sortBy := sortBy)
    {
      filters := filters.(sortBy := sortBy);
    }

    /** `clearFilters`. */
    method ClearFilters()
      modifies this`filters
      ensures filters == NoFilters && ActiveFiltersCount() == 0
    {
      filters := NoFilters;
    }

    /** The start of a fetch: loading is set and the body is posted. */
    method StartFetch(debouncedQuery: string) returns (body: ProjectSearchApi.Body)
      modifies this`loading
      ensures loading && body == RequestBody(debouncedQuery, filters)
    {
      loading := true;
      body := RequestBody(debouncedQuery, filters);
    }

    /** The end of a fetch: an ok answer replaces the projects; anything
        else keeps them; loading is cleared either way. */
    method FinishFetch(answer: Option<seq<Project>>)
      modifies this`projects, this`loading
      ensures !loading
      ensures projects == (if answer.Some? then answer.value else old(projects))
    {
      if answer.Some? {
        projects := answer.value;
      }
      loading := false;
    }
  }
}
