/** The paged video feed: `fetchVideos` moves the fields `loading`,
    `videos`, `page` and `hasMore` through a request, the scroll trigger
    asks for the next page, a like rewrites the liked video, and a comment
    opens the video's detail page. A request is split into its start (the
    URL it asks for) and its finish (what came back), because the answer
    arrives later. */
module VideoFeed {
  import opened JsString
  import opened Content
  import opened Paging
  import opened QueryString
  import VideosApi

  datatype Video = Video(id: string, title: string, likesCount: int, isLiked: bool)

  /** What a page request brings back: a failure (a non-ok answer or a thrown
      error), or the `videos` array of the answer. */
  datatype FetchOutcome = Failed | Loaded(videos: seq<Video>)

  /** The like endpoint's answer: the new count and whether the user now likes the video. */
  datatype LikeAnswer = LikeAnswer(likesCount: int, isLiked: bool)

  /** The query string `page=P&limit=10&type=T`. */
  function FeedQuery(pageNum: int, feedType: string): string
  {
    BuildQuery([("page", IntToString(pageNum)), ("limit", "10"), ("type", feedType)])
  }

  function FeedUrl(pageNum: int, feedType: string): string
  {
    "/api/videos?" + FeedQuery(pageNum, feedType)
  }

  /** The request of the first page of the default feed. */
  lemma FirstFeedUrl()
    ensures FeedUrl(1, "for-you") == "/api/videos?" + "page=1" + "&" + "limit=10" + "&" + "type=for-you"
  {
    FirstFeedQuery();
  }

  lemma FirstFeedQuery()
    ensures FeedQuery(1, "for-you") == "page=1" + "&" + "limit=10" + "&" + "type=for-you"
  {
    DefaultNumerals();
    FirstFeedPieces();
    JoinThree("page=1", "limit=10", "type=for-you", "&");
  }

  lemma FirstFeedPieces()
    ensures Pieces([("page", "1"), ("limit", "10"), ("type", "for-you")]) == ["page=1", "limit=10", "type=for-you"]
  {
    var ps := Pieces([("page", "1"), ("limit", "10"), ("type", "for-you")]);
    assert ps[0] == "page=1" && ps[1] == "limit=10" && ps[2] == "type=for-you";
  }

  /** A decimal integer holds neither "&" nor "=". */
  lemma IntToStringPlain(n: int)
    ensures Plain(IntToString(n))
  {
    var d := NatToString(if n < 0 then -n else n);
    forall c | c in d ensures c != '&' && c != '=' {
      var i :| 0 <= i < |d| && d[i] == c;
      assert IsDecimalDigit(d[i]);
    }
    if n < 0 {
      assert IntToString(n) == "-" + d;
    }
  }

  /** The parameters of the feed's query string. */
  lemma FeedParams(pageNum: int, feedType: string)
    requires feedType != [] && Plain(feedType)
    ensures var params := ParseQuery(FeedQuery(pageNum, feedType));
      "page" in params && params["page"] == IntToString(pageNum)
      && "limit" in params && params["limit"] == "10"
      && "type" in params && params["type"] == feedType
      && "userId" !in params
  {
    var pairs := [("page", IntToString(pageNum)), ("limit", "10"), ("type", feedType)];
    IntToStringPlain(pageNum);
    assert WellFormed(pairs);
    QueryRoundTrip(pairs);
    var params := ParseQuery(FeedQuery(pageNum, feedType));
    assert pairs[0].0 == "page" && pairs[1].0 == "limit" && pairs[2].0 == "type";
  }

  /** The videos route reads the feed's request as that page, a limit of
      10 and that feed type, with no user filter. */
  lemma FeedRequestReadByRoute(pageNum: int, feedType: string)
    requires feedType != [] && Plain(feedType)
    ensures VideosApi.ParseParams(ParseQuery(FeedQuery(pageNum, feedType)))
         == VideosApi.ListParams(Finite(pageNum), Finite(10), feedType, None)
  {
    var params := ParseQuery(FeedQuery(pageNum, feedType));
    FeedParams(pageNum, feedType);
    DefaultNumerals();
    IntParamGiven(params, "page", "1", pageNum);
    IntParamGiven(params, "limit", "10", 10);
  }

  /** The like endpoint of a video. */
  function LikeUrl(videoId: string): string
  {
    "/api/videos/" + videoId + "/like"
  }

  /** `handleComment`: the page the browser is sent to. */
  function CommentTarget(videoId: string): string
  {
    DetailLink(VideoKind, videoId)
  }

  /** The comment target is the detail page of exactly that video. */
  lemma CommentTargetIsDetailPage(videoId: string)
    ensures ParseDetailLink(CommentTarget(videoId)) == Some((VideoKind, videoId))
    ensures CommentTarget(videoId) == "/videos/" + videoId
  {
    DetailLinkRoundTrip(VideoKind, videoId);
  }

  /** The map of a like answer over the videos: the video with that id takes
      the new count and liked flag, every other video stays as it was. */
  function WithLike(videos: seq<Video>, videoId: string, a: LikeAnswer): (r: seq<Video>)
    ensures |r| == |videos|
    ensures forall i :: 0 <= i < |videos| ==> r[i].id == videos[i].id && r[i].title == videos[i].title
    ensures forall i :: 0 <= i < |videos| && videos[i].id == videoId ==>
      r[i].likesCount == a.likesCount && r[i].isLiked == a.isLiked
    ensures forall i :: 0 <= i < |videos| && videos[i].id != videoId ==> r[i] == videos[i]
  {
    if videos == [] then []
    else
      var v := videos[0];
      [if v.id == videoId then v.(likesCount := a.likesCount, isLiked := a.isLiked) else v]
      + WithLike(videos[1..], videoId, a)
  }

  /** Applying the same answer twice is applying it once, and a video id
      absent from the list leaves the list unchanged. */
  lemma WithLikeStable(videos: seq<Video>, videoId: string, a: LikeAnswer)
    ensures WithLike(WithLike(videos, videoId, a), videoId, a) == WithLike(videos, videoId, a)
    ensures (forall i :: 0 <= i < |videos| ==> videos[i].id != videoId) ==> WithLike(videos, videoId, a) == videos
  {
  }

  class Feed {
    var videos: seq<Video>
    var loading: bool
    var hasMore: bool
    var page: int
    const feedType: string

    constructor(initialVideos: seq<Video>, feedType: string)
      ensures videos == initialVideos && !loading && hasMore && page == 1 && this.feedType == feedType
    {
      videos := initialVideos;
      loading := false;
      hasMore := true;
      page := 1;
      this.feedType := feedType;
    }

    /** The load-more effect fires when the trigger is in view, more pages may exist and nothing is loading. */
    predicate ShouldLoadMore(inView: bool)
      reads this
    {
      inView && hasMore && !loading
    }

    /** The empty-state panel. */
    predicate ShowsEmptyState()
      reads this
    {
      |videos| == 0 && !loading
    }

    /** The end-of-feed message. */
    predicate ShowsEndOfFeed()
      reads this
    {
      !hasMore && |videos| > 0
    }

    /** The start of `fetchVideos(pageNum)`: nothing while a request is
        loading; otherwise loading is set and the page is asked for. */
    method StartFetch(pageNum: int) returns (url: Option<string>)
      modifies this`loading
      ensures old(loading) ==> url.None? && loading
      ensures !old(loading) ==> url == Some(FeedUrl(pageNum, feedType)) && loading
    {
      if loading {
        return None;
      }
      loading := true;
      url := Some(FeedUrl(pageNum, feedType));
    }

    /** The rest of `fetchVideos(pageNum)`: an empty page ends the feed; a
        non-empty first page replaces the list and a later one is appended,
        and the next page is `pageNum + 1`; a failure changes nothing but
        loading, which is cleared in every case. */
    method FinishFetch(pageNum: int, outcome: FetchOutcome)
      modifies this`videos, this`hasMore, this`page, this`loading
      ensures !loading
      ensures outcome.Failed? ==> videos == old(videos) && page == old(page) && hasMore == old(hasMore)
      ensures outcome == Loaded([]) ==> videos == old(videos) && page == old(page) && !hasMore
      ensures outcome.Loaded? && outcome.videos != [] ==>
        videos == (if pageNum == 1 then outcome.videos else old(videos) + outcome.videos)
        && page == pageNum + 1 && hasMore == old(hasMore)
      ensures outcome == Loaded([]) && |old(videos)| > 0 ==> ShowsEndOfFeed()
    {
      if outcome.Loaded? {
        var newVideos := outcome.videos;
        if |newVideos| == 0 {
          hasMore := false;
        } else {
          videos := if pageNum == 1 then newVideos else videos + newVideos;
          page := pageNum + 1;
        }
      }
      loading := false;
    }

    /** The load-more effect: `fetchVideos(page)` when the trigger fires. */
    method LoadMore(inView: bool) returns (url: Option<string>)
      modifies this`loading
      ensures url.Some? <==> old(ShouldLoadMore(inView))
      ensures url.Some? ==> url.value == FeedUrl(page, feedType) && loading
      ensures url.None? ==> loading == old(loading)
    {
      if ShouldLoadMore(inView) {
        url := StartFetch(page);
      } else {
        url := None;
      }
    }

    /** `handleLike`: the like request goes to the video's like endpoint;
        on an ok answer the videos are rewritten by `WithLike`. */
    method HandleLike(videoId: string, answer: Option<LikeAnswer>) returns (url: string)
      modifies this`videos
      ensures url == LikeUrl(videoId)
      ensures answer.None? ==> videos == old(videos)
      ensures answer.Some? ==> videos == WithLike(old(videos), videoId, answer.value)
    {
      url := LikeUrl(videoId);
      if answer.Some? {
        videos := WithLike(videos, videoId, answer.value);
      }
    }
  }
}
