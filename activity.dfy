/** The activity page: the filter buttons and their `type` condition, the
    20-row page window, the page count and the prev/next/number buttons, and
    the sentence shown for each activity. The page never stores the rows it
    fetches, so its list stays empty. */
module Activity {
  import opened JsString
  import opened Content
  import opened Paging
  import opened QueryOps

  const ItemsPerPage: int := 20

  datatype Filter = All | Likes | Comments | Uploads | Follows

  /** The `key` of each filter button. */
  function FilterKey(f: Filter): (r: string)
    ensures |r| >= 3
  {
    match f
    case All => "all"
    case Likes => "likes"
    case Comments => "comments"
    case Uploads => "uploads"
    case Follows => "follows"
  }

  /** `filter.slice(0, -1)` for every filter but "all": the key without its final "s". */
  function TypeFilter(f: Filter): (r: Option<string>)
    ensures r.None? <==> f == All
    ensures r.Some? ==> r.value + "s" == FilterKey(f)
  {
    if f == All then None else Some(FilterKey(f)[..|FilterKey(f)| - 1])
  }

  /** The type values queried: like, comment, upload, follow. */
  lemma TypeFilterValues()
    ensures TypeFilter(Likes) == Some("like") && TypeFilter(Comments) == Some("comment")
    ensures TypeFilter(Uploads) == Some("upload") && TypeFilter(Follows) == Some("follow")
  {
    assert FilterKey(Likes)[..4] == "like";
    assert FilterKey(Comments)[..7] == "comment";
    assert FilterKey(Uploads)[..6] == "upload";
    assert FilterKey(Follows)[..6] == "follow";
  }

  /** The query of `fetchActivities`: the user's rows, the type condition
      when filtered, newest first, one page window. */
  function ActivityQuery(userId: string, f: Filter, page: int): seq<Op>
  {
    var w := PageWindow(page, ItemsPerPage);
    [Eq("user_id", Text(userId))]
    + (if f == All then [] else [Eq("type", Text(TypeFilter(f).value))])
    + [Order("created_at", false), RangeOp(Finite(w.from), Finite(w.to))]
  }

  /** A type condition appears iff a filter other than "all" is chosen, the
      order is newest first, and page p covers rows 20(p-1) through 20p-1. */
  lemma ActivityQueryShape(userId: string, f: Filter, page: int)
    ensures (exists t :: Eq("type", Text(t)) in ActivityQuery(userId, f, page)) <==> f != All
    ensures f != All ==> Eq("type", Text(TypeFilter(f).value)) in ActivityQuery(userId, f, page)
    ensures Orderings(ActivityQuery(userId, f, page)) == [Order("created_at", false)]
    ensures ActivityQuery(userId, f, page)[|ActivityQuery(userId, f, page)| - 1]
         == RangeOp(Finite(20 * (page - 1)), Finite(20 * page - 1))
  {
    var q := ActivityQuery(userId, f, page);
    var w := PageWindow(page, ItemsPerPage);
    var mid: seq<Op> := if f == All then [] else [Eq("type", Text(TypeFilter(f).value))];
    assert q == [Eq("user_id", Text(userId))] + mid + [Order("created_at", false), RangeOp(Finite(w.from), Finite(w.to))];
    OrderingsAppend([Eq("user_id", Text(userId))] + mid, [Order("created_at", false), RangeOp(Finite(w.from), Finite(w.to))]);
    OrderingsAppend([Eq("user_id", Text(userId))], mid);
    if f == All {
      forall t ensures Eq("type", Text(t)) !in q {
        assert q == [Eq("user_id", Text(userId)), Order("created_at", false), RangeOp(Finite(w.from), Finite(w.to))];
      }
    } else {
      assert q[1] == Eq("type", Text(TypeFilter(f).value));
    }
  }

  /** The page buttons: `Math.max(1, page - 1)` and `Math.min(totalPages, page + 1)`. */
  function PrevPage(page: int): int
  {
    if page - 1 > 1 then page - 1 else 1
  }

  function NextPage(page: int, totalPages: int): int
  {
    if page + 1 < totalPages then page + 1 else totalPages
  }

  /** From a page within 1..totalPages the buttons stay within it, and each
      stands still exactly at its end of the range. */
  lemma NavigationStaysInRange(page: int, totalPages: int)
    requires 1 <= page <= totalPages
    ensures 1 <= PrevPage(page) <= totalPages && 1 <= NextPage(page, totalPages) <= totalPages
    ensures PrevPage(page) == page <==> page == 1
    ensures NextPage(page, totalPages) == page <==> page == totalPages
    ensures page > 1 ==> NextPage(PrevPage(page), totalPages) == page
  {
  }

  /** Without a count the page count is 0, and "next" from page 1 then goes to page 0. */
  lemma NextWithZeroPages()
    ensures CeilDiv(Total(None), ItemsPerPage) == 0
    ensures NextPage(1, 0) == 0
  {
  }

  /** The numbered buttons 1..min(5, totalPages). */
  function PageButtons(totalPages: int): (r: seq<int>)
    ensures |r| == (if totalPages < 0 then 0 else if totalPages < 5 then totalPages else 5)
    ensures forall i :: 0 <= i < |r| ==> r[i] == i + 1 && 1 <= r[i] <= totalPages
  {
    var n := if totalPages < 0 then 0 else if totalPages < 5 then totalPages else 5;
    seq(n, i requires 0 <= i < n => i + 1)
  }

  datatype ActivityType = LikeActivity | CommentActivity | UploadActivity | FollowActivity | ViewActivity
                        | OtherActivity(name: string)

  /** "dự án" for project content, "video" for video content and for none. */
  function Noun(content: Option<Kind>): (r: string)
    ensures r != [] && r[0] == (if content == Some(ProjectKind) then 'd' else 'v')
  {
    if content == Some(ProjectKind) then "dự án" else "video"
  }

  /** `getActivityText`. */
  function ActivityText(t: ActivityType, content: Option<Kind>): (r: string)
    ensures t == FollowActivity ==> r == "Bạn đã theo dõi"
    ensures t.OtherActivity? ==> r == "Hoạt động"
  {
    match t
    case LikeActivity => "Bạn đã thích " + Noun(content)
    case CommentActivity => "Bạn đã bình luận về " + Noun(content)
    case UploadActivity => "Bạn đã tải lên " + Noun(content) + " mới"
    case FollowActivity => "Bạn đã theo dõi"
    case ViewActivity => "Bạn đã xem " + Noun(content)
    case OtherActivity(_) => "Hoạt động"
  }

  predicate MentionsContent(t: ActivityType)
  {
    t == LikeActivity || t == CommentActivity || t == UploadActivity || t == ViewActivity
  }

  /** For likes, comments, uploads and views the sentence tells project
      content apart from the rest; video content and missing content read the same. */
  lemma ActivityTextNoun(t: ActivityType, c1: Option<Kind>, c2: Option<Kind>)
    requires MentionsContent(t)
    ensures ActivityText(t, c1) == ActivityText(t, c2) <==> (c1 == Some(ProjectKind) <==> c2 == Some(ProjectKind))
  {
    var prefix := match t
      case LikeActivity => "Bạn đã thích "
      case CommentActivity => "Bạn đã bình luận về "
      case UploadActivity => "Bạn đã tải lên "
      case _ => "Bạn đã xem ";
    assert ActivityText(t, c1)[|prefix|] == Noun(c1)[0];
    assert ActivityText(t, c2)[|prefix|] == Noun(c2)[0];
  }

  datatype ActivityRecord = ActivityRecord(id: string, activityType: ActivityType, content: Option<Kind>)

  class ActivityPage {
    var activities: seq<ActivityRecord>
    var loading: bool
    var currentPage: int
    var totalPages: int
    var filter: Filter

    constructor()
      ensures activities == [] && loading && currentPage == 1 && totalPages == 1 && filter == All
    {
      activities := [];
      loading := true;
      currentPage := 1;
      totalPages := 1;
      filter := All;
    }

    /** `fetchActivities`: nothing happens without a signed-in user. Otherwise
        the query for the current filter and page is issued; a failed query
        (`result` is `None`) leaves the page count, a successful one sets it
        from the returned count. The rows are not stored. */
    method Fetch(userId: Option<string>, result: Option<Option<nat>>) returns (ops: seq<Op>)
      modifies this`loading, this`totalPages
      ensures !(userId.Some? && userId.value != []) ==> (
        ops == [] && loading == old(loading) && totalPages == old(totalPages))
      ensures userId.Some? && userId.value != [] ==> (
        ops == ActivityQuery(userId.value, filter, currentPage) && !loading
        && totalPages == (if result.Some? then CeilDiv(Total(result.value), ItemsPerPage) else old(totalPages)))
    {
      ops := [];
      if !(userId.Some? && userId.value != []) {
        return;
      }
      loading := true;
      ops := [Eq("user_id", Text(userId.value))];
      if filter != All {
        ops := ops + [Eq("type", Text(TypeFilter(filter).value))];
      }
      var w := PageWindow(currentPage, ItemsPerPage);
      ops := ops + [Order("created_at", false), RangeOp(Finite(w.from), Finite(w.to))];
      if result.Some? {
        totalPages := CeilDiv(Total(result.value), ItemsPerPage);
      }
      loading := false;
    }

    /** A filter button: the filter changes and the page returns to 1. */
    method SetFilter(f: Filter)
      modifies this`filter, this`currentPage
      ensures filter == f && currentPage == 1
    {
      filter := f;
      currentPage := 1;
    }

    method Prev()
      modifies this`currentPage
      ensures currentPage == PrevPage(old(currentPage))
    {
      currentPage := PrevPage(currentPage);
    }

    method Next()
      modifies this`currentPage
      ensures currentPage == NextPage(old(currentPage), totalPages)
    {
      currentPage := NextPage(currentPage, totalPages);
    }

    method GoToPage(p: int)
      modifies this`currentPage
      ensures currentPage == p
    {
      currentPage := p;
    }

    /** The pagination bar is rendered after loading, for a non-empty list and more than one page. */
    predicate ShowsPagination()
      reads this
    {
      !loading && |activities| > 0 && totalPages > 1
    }
  }

  /** The constructor sets `activities` to the empty list, and no method
      names `activities` in its `modifies` clause, so every page keeps an empty
      list and never shows pagination. */
  lemma PaginationNeverShown(p: ActivityPage)
    requires p.activities == []
    ensures !p.ShowsPagination()
  {
  }
}
