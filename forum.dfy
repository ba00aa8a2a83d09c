/** The community forum: the thread list kept up to date by socket events and
    like responses, the category tab filter, the comment list of the open
    thread, and the two small forms (new thread, new comment) with their
    guards. Fetches and POSTs are abstract results passed in by the caller. */
module Forum {
  import opened JsString

  datatype Thread = Thread(
    id: string, title: string, content: string, category: string,
    likesCount: int, commentsCount: int, tags: seq<string>)

  datatype Comment = Comment(id: string, threadId: string, content: string)

  /** `prev.map(t => t.id === u.id ? u : t)`. */
  function ReplaceById(ts: seq<Thread>, u: Thread): (r: seq<Thread>)
    ensures |r| == |ts|
    ensures forall i :: 0 <= i < |ts| ==> r[i] == if ts[i].id == u.id then u else ts[i]
  {
    if ts == [] then [] else [if ts[0].id == u.id then u else ts[0]] + ReplaceById(ts[1..], u)
  }

  /** `prev.map(t => t.id === id ? {...t, commentsCount: t.commentsCount + 1} : t)`. */
  function BumpComments(ts: seq<Thread>, id: string): (r: seq<Thread>)
    ensures |r| == |ts|
    ensures forall i :: 0 <= i < |ts| ==>
      r[i] == if ts[i].id == id then ts[i].(commentsCount := ts[i].commentsCount + 1) else ts[i]
  {
    if ts == [] then []
    else [if ts[0].id == id then ts[0].(commentsCount := ts[0].commentsCount + 1) else ts[0]] + BumpComments(ts[1..], id)
  }

  /** `prev.map(t => t.id === id ? {...t, likesCount: likes} : t)`. */
  function SetLikes(ts: seq<Thread>, id: string, likes: int): (r: seq<Thread>)
    ensures |r| == |ts|
    ensures forall i :: 0 <= i < |ts| ==> r[i] == if ts[i].id == id then ts[i].(likesCount := likes) else ts[i]
  {
    if ts == [] then [] else [if ts[0].id == id then ts[0].(likesCount := likes) else ts[0]] + SetLikes(ts[1..], id, likes)
  }

  /** `filteredThreads`: everything on the "all" tab, else the threads of that category. */
  function FilteredThreads(ts: seq<Thread>, tab: string): (r: seq<Thread>)
    ensures tab == "all" ==> r == ts
    ensures forall t :: t in r <==> t in ts && (tab == "all" || t.category == tab)
  {
    if ts == [] then []
    else (if tab == "all" || ts[0].category == tab then [ts[0]] else []) + FilteredThreads(ts[1..], tab)
  }

  /** Filtering distributes over concatenation, so the original order is kept. */
  lemma {:induction false} FilteredAppend(a: seq<Thread>, b: seq<Thread>, tab: string)
    ensures FilteredThreads(a + b, tab) == FilteredThreads(a, tab) + FilteredThreads(b, tab)
  {
    if a == [] {
      assert a + b == b;
    } else {
      var c, rest := a + b, a[1..] + b;
      FilteredAppend(a[1..], b, tab);
      assert c[0] == a[0] && c[1..] == rest;
      FilteredStep(c, tab);
      FilteredStep(a, tab);
      SeqAssoc(Kept(a[0], tab), FilteredThreads(a[1..], tab), FilteredThreads(b, tab));
    }
  }

  /** The part of the filter contributed by a single thread. */
  function Kept(t: Thread, tab: string): seq<Thread>
  {
    if tab == "all" || t.category == tab then [t] else []
  }

  lemma FilteredStep(c: seq<Thread>, tab: string)
    requires c != []
    ensures FilteredThreads(c, tab) == Kept(c[0], tab) + FilteredThreads(c[1..], tab)
  {
  }


  function CommentTotal(ts: seq<Thread>): int
  {
    if ts == [] then 0 else ts[0].commentsCount + CommentTotal(ts[1..])
  }

  function CountId(ts: seq<Thread>, id: string): nat
  {
    if ts == [] then 0 else (if ts[0].id == id then 1 else 0) + CountId(ts[1..], id)
  }

  /** A new comment adds one to every thread carrying its thread id, so the
      total grows by the number of such threads. */
  lemma {:induction false} BumpCommentsTotal(ts: seq<Thread>, id: string)
    ensures CommentTotal(BumpComments(ts, id)) == CommentTotal(ts) + CountId(ts, id)
  {
    if ts != [] {
      var r := BumpComments(ts, id);
      assert r[1..] == BumpComments(ts[1..], id);
      BumpCommentsTotal(ts[1..], id);
    }
  }

  function Ids(ts: seq<Thread>): (r: seq<string>)
    ensures |r| == |ts| && forall i :: 0 <= i < |ts| ==> r[i] == ts[i].id
  {
    seq(|ts|, i requires 0 <= i < |ts| => ts[i].id)
  }

  /** Updates and like responses keep the list's ids, order and length. */
  lemma UpdatesKeepIds(ts: seq<Thread>, u: Thread, id: string, likes: int)
    ensures Ids(ReplaceById(ts, u)) == Ids(ts)
    ensures Ids(BumpComments(ts, id)) == Ids(ts)
    ensures Ids(SetLikes(ts, id, likes)) == Ids(ts)
  {
  }

  /** A like response touches only the like count of the matching threads. */
  lemma SetLikesOnlyMatching(ts: seq<Thread>, id: string, likes: int, i: nat)
    requires i < |ts|
    ensures ts[i].id != id ==> SetLikes(ts, id, likes)[i] == ts[i]
    ensures ts[i].id == id ==> (SetLikes(ts, id, likes)[i].likesCount == likes
      && SetLikes(ts, id, likes)[i].(likesCount := ts[i].likesCount) == ts[i])
  {
  }

  // ---------------------------------------------------------------------
  // Tag parsing of the new-thread form

  function TrimAll(ps: seq<string>): (r: seq<string>)
    ensures |r| == |ps| && forall i :: 0 <= i < |ps| ==> r[i] == Trim(ps[i])
  {
    seq(|ps|, i requires 0 <= i < |ps| => Trim(ps[i]))
  }

  /** `.filter(Boolean)` on strings. */
  function DropEmpty(ps: seq<string>): (r: seq<string>)
    ensures forall i :: 0 <= i < |r| ==> r[i] != []
    ensures forall x :: x in r <==> x in ps && x != []
  {
    if ps == [] then [] else (if ps[0] == [] then [] else [ps[0]]) + DropEmpty(ps[1..])
  }

  /** `tags.split(",").map(t => t.trim()).filter(Boolean)`. */
  function ParseTags(s: string): (r: seq<string>)
    ensures forall i :: 0 <= i < |r| ==> r[i] != [] && r[i] in TrimAll(Split(s, ","))
  {
    var pieces := Split(s, ",");
    var trimmed := TrimAll(pieces);
    DropEmpty(trimmed)
  }

  /** Every parsed tag is non-empty and already trimmed. */
  lemma ParsedTagsClean(s: string)
    ensures forall i :: 0 <= i < |ParseTags(s)| ==> ParseTags(s)[i] != [] && Trim(ParseTags(s)[i]) == ParseTags(s)[i]
  {
    var r := ParseTags(s);
    var ts := TrimAll(Split(s, ","));
    forall i | 0 <= i < |r| ensures Trim(r[i]) == r[i] {
      var k :| 0 <= k < |ts| && ts[k] == r[i];
      TrimIdempotent(Split(s, ",")[k]);
    }
  }

  lemma TrimAllClean(ts: seq<string>)
    requires forall i :: 0 <= i < |ts| ==> Trim(ts[i]) == ts[i]
    ensures TrimAll(ts) == ts
  {
  }

  lemma {:induction false} DropEmptyClean(ts: seq<string>)
    requires forall i :: 0 <= i < |ts| ==> ts[i] != []
    ensures DropEmpty(ts) == ts
  {
    if ts != [] {
      DropEmptyClean(ts[1..]);
    }
  }

  /** Tags written as a comma-separated list of clean tags come back as that list. */
  lemma ParseTagsJoin(ts: seq<string>)
    requires forall i :: 0 <= i < |ts| ==> ts[i] != [] && Trim(ts[i]) == ts[i] && ',' !in ts[i]
    ensures ParseTags(Join(ts, ",")) == ts
  {
    if ts == [] {
      assert Join(ts, ",") == "";
      ParseTagsOfEmpty();
    } else {
      var s := Join(ts, ",");
      SplitJoinChar(ts, ',');
      assert Split(s, ",") == ts;
      TrimAllClean(ts);
      DropEmptyClean(ts);
      assert ParseTags(s) == DropEmpty(TrimAll(ts));
    }
  }

  /** An empty tag field gives no tags. */
  lemma ParseTagsOfEmpty()
    ensures ParseTags("") == []
  {
    var e: string := "";
    SplitShort(e, ",");
    assert Trim(e) == e;
    TrimAllClean([e]);
    assert DropEmpty([e]) == [];
  }

  // ---------------------------------------------------------------------
  // The forms

  /** The body POSTed to create a thread. */
  datatype ThreadBody = ThreadBody(title: string, content: string, category: string, tags: seq<string>)

  /** `CreateThreadForm`. */
  class ThreadForm {
    var title: string
    var content: string
    var category: string
    var tags: string

    /** Every field of the form is empty. */
    predicate Cleared()
      reads this
    {
      title == [] && content == [] && category == [] && tags == []
    }

    constructor()
      ensures Cleared()
    {
      title, content, category, tags := "", "", "", "";
    }

    /** `handleSubmit`: returns the body sent, if any; `ok` is the response
        flag. A successful post clears the form. */
    method Submit(ok: bool) returns (sent: Option<ThreadBody>)
      modifies this
      ensures sent.Some? <==> Trim(old(title)) != [] && Trim(old(content)) != [] && old(category) != []
      ensures sent.Some? ==>
        sent.value == ThreadBody(Trim(old(title)), Trim(old(content)), old(category), ParseTags(old(tags)))
      ensures sent.Some? && ok ==> Cleared()
      ensures !(sent.Some? && ok) ==>
        title == old(title) && content == old(content) && category == old(category) && tags == old(tags)
    {
      var t, c, g := Trim(title), Trim(content), category;
      if !Truthy(t) || !Truthy(c) || !Truthy(g) {
        return None;
      }
      var body := ThreadBody(t, c, g, ParseTags(tags));
      sent := Some(body);
      if ok {
        title, content, category, tags := "", "", "", "";
      }
    }
  }

  /** The comment box of the thread dialog. */
  class CommentBox {
    var newComment: string

    constructor()
      ensures newComment == ""
    {
      newComment := "";
    }

    /** `handleCommentSubmit`: sends the trimmed text when it is not blank;
        a successful post clears the box. */
    method Submit(ok: bool) returns (sent: Option<string>)
      modifies this
      ensures sent.Some? <==> Trim(old(newComment)) != []
      ensures sent.Some? ==> sent.value == Trim(old(newComment))
      ensures newComment == if sent.Some? && ok then "" else old(newComment)
    {
      var text := Trim(newComment);
      if !Truthy(text) {
        return None;
      }
      sent := Some(text);
      if ok {
        newComment := "";
      }
    }
  }

  // ---------------------------------------------------------------------
  // The forum page

  class ForumPage {
    var threads: seq<Thread>
    var selectedThread: Option<Thread>
    var comments: seq<Comment>
    var activeTab: string

    constructor()
      ensures threads == [] && selectedThread.None? && comments == [] && activeTab == "all"
    {
      threads := [];
      selectedThread := None;
      comments := [];
      activeTab := "all";
    }

    /** Switching tab refetches the list (`ok`, `fetched` are the response). */
    method SetTab(tab: string, ok: bool, fetched: seq<Thread>)
      modifies this`activeTab, this`threads
      ensures activeTab == tab
      ensures threads == if ok then fetched else old(threads)
    {
      activeTab := tab;
      if ok {
        threads := fetched;
      }
    }

    /** The threads shown under the current tab. */
    function Visible(): (r: seq<Thread>)
      reads this
    {
      FilteredThreads(threads, activeTab)
    }

    /** `thread:created`. */
    method OnThreadCreated(t: Thread)
      modifies this`threads
      ensures threads == [t] + old(threads)
    {
      threads := [t] + threads;
    }

    /** `thread:updated`. */
    method OnThreadUpdated(u: Thread)
      modifies this`threads
      ensures threads == ReplaceById(old(threads), u)
    {
      threads := ReplaceById(threads, u);
    }

    /** `comment:created`. */
    method OnCommentCreated(c: Comment)
      modifies this`threads, this`comments
      ensures threads == BumpComments(old(threads), c.threadId)
      ensures comments == if selectedThread.Some? && selectedThread.value.id == c.threadId
        then old(comments) + [c] else old(comments)
    {
      if selectedThread.Some? && selectedThread.value.id == c.threadId {
        comments := comments + [c];
      }
      threads := BumpComments(threads, c.threadId);
    }

    /** `handleLikeThread`: `likes` is the count the server returns. */
    method LikeThread(id: string, ok: bool, likes: int)
      modifies this`threads
      ensures threads == if ok then SetLikes(old(threads), id, likes) else old(threads)
    {
      if ok {
        threads := SetLikes(threads, id, likes);
      }
    }

    /** `handleThreadClick`: opens the thread and loads its comments. */
    method OpenThread(t: Thread, ok: bool, fetched: seq<Comment>)
      modifies this`selectedThread, this`comments
      ensures selectedThread == Some(t)
      ensures comments == if ok then fetched else old(comments)
    {
      selectedThread := Some(t);
      if ok {
        comments := fetched;
      }
    }

    method CloseThread()
      modifies this`selectedThread
      ensures selectedThread.None?
    {
      selectedThread := None;
    }

    /** `onCommentAdded` after the comment box posted successfully. */
    method OnCommentAdded(c: Comment)
      modifies this`comments
      ensures comments == old(comments) + [c]
    {
      comments := comments + [c];
    }
  }
}
