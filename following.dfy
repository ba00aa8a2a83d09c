/** The following feed: the merged, newest-first list of projects and videos
    posted by the users one follows, the socket handlers that prepend and
    patch items, and the like toggle. Timestamps are integers (milliseconds). */
module Following {
  import opened JsString
  import opened Content
  import opened StableSort

  datatype Stats = Stats(views: int, likes: int, comments: int)

  datatype Item = Item(
    id: string, kind: Kind, title: string, description: string, thumbnail: string,
    createdAt: int, stats: Stats, isLiked: bool)

  /** A project or video row as returned by the database; `views` may be null. */
  datatype Row = Row(
    id: string, title: string, description: string, thumbnail: string, createdAt: int, views: Option<int>)

  /** The `content_type` column of a like: a project, a video or a forum thread. */
  datatype LikedType = LikedContent(kind: Kind) | LikedThread

  datatype LikeRow = LikeRow(likedType: LikedType, contentId: string)

  function TypeName(t: LikedType): (r: string)
  {
    match t
    case LikedContent(k) => KindName(k)
    case LikedThread => "thread"
  }

  /** `${like.content_type}-${like.content_id}` for every like row (none when the query returned null). */
  function LikedKeys(likes: Option<seq<LikeRow>>): (r: set<string>)
    ensures likes.None? ==> r == {}
    ensures likes.Some? ==> forall l :: l in likes.value ==> TypeName(l.likedType) + "-" + l.contentId in r
    ensures forall key :: key in r ==>
      likes.Some? && exists l :: l in likes.value && key == TypeName(l.likedType) + "-" + l.contentId
  {
    if likes.None? then {} else set l | l in likes.value :: TypeName(l.likedType) + "-" + l.contentId
  }

  /** An item's like key is among the liked keys iff the user has a like row for that very content. */
  lemma LikedKeysExact(likes: Option<seq<LikeRow>>, k: Kind, id: string)
    ensures LikeKey(k, id) in LikedKeys(likes) <==>
      likes.Some? && LikeRow(LikedContent(k), id) in likes.value
  {
    if LikeKey(k, id) in LikedKeys(likes) {
      var l :| l in likes.value && LikeKey(k, id) == TypeName(l.likedType) + "-" + l.contentId;
      match l.likedType
      case LikedThread =>
        ThreadKeyDiffers(k, id, l.contentId);
        assert false;
      case LikedContent(k2) =>
        LikeKeyInjective(k, id, k2, l.contentId);
        assert l == LikeRow(LikedContent(k), id);
    }
  }

  /** A thread like never carries the key of a project or a video. */
  lemma ThreadKeyDiffers(k: Kind, id: string, threadId: string)
    ensures LikeKey(k, id) != TypeName(LikedThread) + "-" + threadId
  {
    assert LikeKey(k, id)[0] == KindName(k)[0];
    assert (TypeName(LikedThread) + "-" + threadId)[0] == 't';
  }

  /** `views || 0`. */
  function ViewsOrZero(v: Option<int>): (r: int)
    ensures v.Some? && v.value != 0 ==> r == v.value
    ensures v.None? ==> r == 0
  {
    if v.Some? then v.value else 0
  }

  function ToItem(row: Row, k: Kind, liked: set<string>): Item
  {
    Item(row.id, k, row.title, row.description, row.thumbnail, row.createdAt,
      Stats(ViewsOrZero(row.views), 0, 0), LikeKey(k, row.id) in liked)
  }

  /** `rows?.map(...) || []`. */
  function ToItems(rows: Option<seq<Row>>, k: Kind, liked: set<string>): (r: seq<Item>)
    ensures rows.None? ==> r == []
    ensures rows.Some? ==> |r| == |rows.value| && forall i :: 0 <= i < |r| ==> r[i] == ToItem(rows.value[i], k, liked)
  {
    if rows.None? then [] else seq(|rows.value|, i requires 0 <= i < |rows.value| => ToItem(rows.value[i], k, liked))
  }

  function CreatedAt(it: Item): int
  {
    it.createdAt
  }

  /** The feed before sorting: the projects, then the videos. */
  function Merged(projects: Option<seq<Row>>, videos: Option<seq<Row>>, likes: Option<seq<LikeRow>>): seq<Item>
  {
    ToItems(projects, ProjectKind, LikedKeys(likes)) + ToItems(videos, VideoKind, LikedKeys(likes))
  }

  /** The content list computed by a refresh: empty without followed users,
      otherwise the merged list sorted by creation time, newest first. */
  function BuildFeed(following: Option<seq<string>>, projects: Option<seq<Row>>, videos: Option<seq<Row>>,
                     likes: Option<seq<LikeRow>>): (r: seq<Item>)
    ensures following.None? || following.value == [] ==> r == []
  {
    if following.None? || following.value == [] then []
    else SortDesc(Merged(projects, videos, likes), CreatedAt)
  }

  /** With followed users, the feed is newest-first and holds exactly the merged items. */
  lemma FeedSortedPermutation(following: Option<seq<string>>, projects: Option<seq<Row>>,
                              videos: Option<seq<Row>>, likes: Option<seq<LikeRow>>)
    requires following.Some? && following.value != []
    ensures SortedDesc(BuildFeed(following, projects, videos, likes), CreatedAt)
    ensures multiset(BuildFeed(following, projects, videos, likes)) == multiset(Merged(projects, videos, likes))
  {
    SortDescSortedPermutation(Merged(projects, videos, likes), CreatedAt);
  }

  /** Items with the same timestamp keep their merged order: projects before videos. */
  lemma FeedStable(following: Option<seq<string>>, projects: Option<seq<Row>>,
                   videos: Option<seq<Row>>, likes: Option<seq<LikeRow>>, t: int)
    requires following.Some? && following.value != []
    ensures WithKey(BuildFeed(following, projects, videos, likes), CreatedAt, t)
         == WithKey(Merged(projects, videos, likes), CreatedAt, t)
  {
    SortDescStable(Merged(projects, videos, likes), CreatedAt, t);
  }

  /** Every merged item has zero likes and comments and is marked liked iff its key is liked. */
  lemma MergedItem(projects: Option<seq<Row>>, videos: Option<seq<Row>>, likes: Option<seq<LikeRow>>, it: Item)
    requires it in Merged(projects, videos, likes)
    ensures it.stats.likes == 0 && it.stats.comments == 0
    ensures it.isLiked <==> LikeKey(it.kind, it.id) in LikedKeys(likes)
  {
    var ps := ToItems(projects, ProjectKind, LikedKeys(likes));
    var vs := ToItems(videos, VideoKind, LikedKeys(likes));
    if it in ps {
      var i :| 0 <= i < |ps| && ps[i] == it;
    } else {
      assert it in vs;
      var i :| 0 <= i < |vs| && vs[i] == it;
    }
  }

  /** Every feed item has zero likes and comments and is marked liked iff the
      user has a like row for its kind and id. */
  lemma FeedItems(following: Option<seq<string>>, projects: Option<seq<Row>>,
                  videos: Option<seq<Row>>, likes: Option<seq<LikeRow>>, it: Item)
    requires it in BuildFeed(following, projects, videos, likes)
    ensures it.stats.likes == 0 && it.stats.comments == 0
    ensures it.isLiked <==> likes.Some? && LikeRow(LikedContent(it.kind), it.id) in likes.value
  {
    var m := Merged(projects, videos, likes);
    SortDescSortedPermutation(m, CreatedAt);
    assert it in multiset(BuildFeed(following, projects, videos, likes));
    assert it in m;
    MergedItem(projects, videos, likes, it);
    LikedKeysExact(likes, it.kind, it.id);
  }

  /** The fields a `content_updated` event carries besides the id and type. */
  datatype Patch = Patch(
    id: string, kind: Kind, title: Option<string>, description: Option<string>, thumbnail: Option<string>,
    createdAt: Option<int>, stats: Option<Stats>, isLiked: Option<bool>)

  function Or<T>(o: Option<T>, dflt: T): T
  {
    if o.Some? then o.value else dflt
  }

  /** `{ ...item, ...data }`: the event's fields win; `stats` is replaced whole. */
  function Merge(it: Item, p: Patch): Item
  {
    Item(it.id, it.kind, Or(p.title, it.title), Or(p.description, it.description), Or(p.thumbnail, it.thumbnail),
      Or(p.createdAt, it.createdAt), Or(p.stats, it.stats), Or(p.isLiked, it.isLiked))
  }

  predicate Matches(it: Item, id: string, k: Kind)
  {
    it.id == id && it.kind == k
  }

  /** Every item matching both the id and the type is merged with the event; the rest are untouched. */
  function ApplyPatch(c: seq<Item>, p: Patch): (r: seq<Item>)
    ensures |r| == |c|
    ensures forall i :: 0 <= i < |c| && !Matches(c[i], p.id, p.kind) ==> r[i] == c[i]
    ensures forall i :: 0 <= i < |c| && Matches(c[i], p.id, p.kind) ==> r[i] == Merge(c[i], p)
  {
    seq(|c|, i requires 0 <= i < |c| => if Matches(c[i], p.id, p.kind) then Merge(c[i], p) else c[i])
  }

  /** Applying the same update twice is the same as once, and no item changes identity. */
  lemma ApplyPatchIdempotent(c: seq<Item>, p: Patch)
    ensures ApplyPatch(ApplyPatch(c, p), p) == ApplyPatch(c, p)
    ensures forall i :: 0 <= i < |c| ==> ApplyPatch(c, p)[i].id == c[i].id && ApplyPatch(c, p)[i].kind == c[i].kind
  {
  }

  /** `content.find((c) => c.id === id && c.type === type)`. */
  function FindItem(c: seq<Item>, id: string, k: Kind): (r: Option<Item>)
    ensures r.None? <==> forall i :: 0 <= i < |c| ==> !Matches(c[i], id, k)
    ensures r.Some? ==> r.value in c && Matches(r.value, id, k)
  {
    if c == [] then None
    else if Matches(c[0], id, k) then Some(c[0])
    else FindItem(c[1..], id, k)
  }

  function Toggled(it: Item): Item
  {
    it.(isLiked := !it.isLiked,
        stats := it.stats.(likes := if it.isLiked then it.stats.likes - 1 else it.stats.likes + 1))
  }

  /** The local state update of a like: every matching item flips `isLiked`
      and moves its like count one step in that direction. */
  function ToggleLike(c: seq<Item>, id: string, k: Kind): (r: seq<Item>)
    ensures |r| == |c|
    ensures forall i :: 0 <= i < |c| && !Matches(c[i], id, k) ==> r[i] == c[i]
    ensures forall i :: 0 <= i < |c| && Matches(c[i], id, k) ==> (
      r[i].isLiked == !c[i].isLiked && r[i].stats.likes == c[i].stats.likes + (if r[i].isLiked then 1 else -1)
      && r[i] == c[i].(isLiked := r[i].isLiked, stats := r[i].stats) && r[i].stats == c[i].stats.(likes := r[i].stats.likes))
  {
    seq(|c|, i requires 0 <= i < |c| => if Matches(c[i], id, k) then Toggled(c[i]) else c[i])
  }

  /** Liking twice restores the list exactly. */
  lemma ToggleLikeTwice(c: seq<Item>, id: string, k: Kind)
    ensures ToggleLike(ToggleLike(c, id, k), id, k) == c
  {
    var once := ToggleLike(c, id, k);
    var twice := ToggleLike(once, id, k);
    forall i | 0 <= i < |c| ensures twice[i] == c[i] {
      if Matches(c[i], id, k) {
        assert Toggled(Toggled(c[i])) == c[i];
      }
    }
  }

  /** The first match after the toggle is the toggled first match, so the
      emitted `liked` flag is the item's new state. */
  lemma {:induction false} FindAfterToggle(c: seq<Item>, id: string, k: Kind)
    requires FindItem(c, id, k).Some?
    ensures FindItem(ToggleLike(c, id, k), id, k) == Some(Toggled(FindItem(c, id, k).value))
  {
    var t := ToggleLike(c, id, k);
    if Matches(c[0], id, k) {
      assert t[0] == Toggled(c[0]);
    } else {
      FindAfterToggle(c[1..], id, k);
      assert t[0] == c[0];
      ToggleLikeTail(c, id, k);
    }
  }

  lemma ToggleLikeTail(c: seq<Item>, id: string, k: Kind)
    requires c != []
    ensures ToggleLike(c, id, k)[1..] == ToggleLike(c[1..], id, k)
  {
    var t, u := ToggleLike(c, id, k), ToggleLike(c[1..], id, k);
    forall i | 0 <= i < |u| ensures t[1..][i] == u[i] {
      assert c[1..][i] == c[i + 1];
    }
  }

  /** The database write of a like toggle. */
  datatype LikeRequest = InsertLike(userId: string, contentId: string, kind: Kind)
                       | DeleteLike(userId: string, contentId: string, kind: Kind)

  /** The `content_liked` socket event. */
  datatype LikeEvent = LikeEvent(contentId: string, kind: Kind, userId: string, liked: bool)

  /** `!session?.user?.id` is false. */
  predicate SignedIn(userId: Option<string>)
  {
    userId.Some? && userId.value != []
  }

  class FollowingPage {
    var content: seq<Item>
    var loading: bool
    var refreshing: bool

    constructor()
      ensures content == [] && loading && !refreshing
    {
      content := [];
      loading := true;
      refreshing := false;
    }

    /** `fetchFollowingContent`: nothing happens without a signed-in user;
        otherwise the content is rebuilt and both flags end false. The query
        results are parameters (null results are `None`). */
    method Refresh(userId: Option<string>, following: Option<seq<string>>, projects: Option<seq<Row>>,
                   videos: Option<seq<Row>>, likes: Option<seq<LikeRow>>)
      modifies this
      ensures !SignedIn(userId) ==> (
        content == old(content) && loading == old(loading) && refreshing == old(refreshing))
      ensures SignedIn(userId) ==> (
        content == BuildFeed(following, projects, videos, likes) && !loading && !refreshing)
    {
      if !SignedIn(userId) {
        return;
      }
      refreshing := true;
      content := BuildFeed(following, projects, videos, likes);
      loading := false;
      refreshing := false;
    }

    /** `new_content`: the item goes to the top. */
    method OnNewContent(item: Item)
      modifies this`content
      ensures content == [item] + old(content)
    {
      content := [item] + content;
    }

    /** `content_updated`. */
    method OnContentUpdated(p: Patch)
      modifies this`content
      ensures content == ApplyPatch(old(content), p)
    {
      content := ApplyPatch(content, p);
    }

    /** `handleLike`: without a signed-in user or a matching item nothing
        happens. Otherwise the like row is inserted or deleted (the write's
        outcome is not inspected), the matching items are toggled, and when a
        socket is present the event carries the negation of the prior state.
        The item that decides the request and the event is found in
        `rendered`, the `content` of the render whose handler was called;
        the toggle itself runs on the current list after the await. */
    method Like(userId: Option<string>, id: string, k: Kind, socketPresent: bool, rendered: seq<Item>)
      returns (request: Option<LikeRequest>, event: Option<LikeEvent>)
      modifies this`content
      ensures !SignedIn(userId) || FindItem(rendered, id, k).None? ==> (
        content == old(content) && request.None? && event.None?)
      ensures SignedIn(userId) && FindItem(rendered, id, k).Some? ==> (
        var prior := FindItem(rendered, id, k).value;
        content == ToggleLike(old(content), id, k)
        && request == Some(if prior.isLiked then DeleteLike(userId.value, id, k) else InsertLike(userId.value, id, k))
        && event == (if socketPresent then Some(LikeEvent(id, k, userId.value, !prior.isLiked)) else None))
    {
      request, event := None, None;
      if !SignedIn(userId) {
        return;
      }
      var item := FindItem(rendered, id, k);
      if item.None? {
        return;
      }
      if item.value.isLiked {
        request := Some(DeleteLike(userId.value, id, k));
      } else {
        request := Some(InsertLike(userId.value, id, k));
      }
      content := ToggleLike(content, id, k);
      if socketPresent {
        event := Some(LikeEvent(id, k, userId.value, !item.value.isLiked));
      }
    }
  }
}
