/** The notification inbox: a list of notifications and an unread counter kept
    side by side. Socket pushes prepend, the three endpoints (mark one read,
    mark all read, delete) change the list only on an ok response, and a click
    marks an unread item read and computes where to navigate. The counter is
    adjusted by its own arithmetic, not recounted from the list. */
module Notifications {
  import opened JsString

  /** The optional ids carried in a notification's `data`. */
  datatype NotificationData = NotificationData(
    projectId: Option<string>, videoId: Option<string>, userId: Option<string>, conversationId: Option<string>)

  datatype Notification = Notification(
    id: string, kind: string, title: string, message: string, data: NotificationData, isRead: bool)

  /** A truthy id: present and not the empty string. */
  predicate Present(v: Option<string>)
  {
    v.Some? && v.value != []
  }

  predicate UniqueIds(ns: seq<Notification>)
  {
    forall i, j :: 0 <= i < j < |ns| ==> ns[i].id != ns[j].id
  }

  function CountUnread(ns: seq<Notification>): (r: nat)
    ensures r <= |ns|
  {
    if ns == [] then 0 else (if ns[0].isRead then 0 else 1) + CountUnread(ns[1..])
  }

  /** `prev.map(n => n.id === id ? {...n, isRead: true} : n)`. */
  function MarkRead(ns: seq<Notification>, id: string): (r: seq<Notification>)
    ensures |r| == |ns|
    ensures forall i :: 0 <= i < |ns| ==> r[i] == if ns[i].id == id then ns[i].(isRead := true) else ns[i]
  {
    if ns == [] then []
    else [if ns[0].id == id then ns[0].(isRead := true) else ns[0]] + MarkRead(ns[1..], id)
  }

  /** `prev.map(n => ({...n, isRead: true}))`. */
  function MarkAllRead(ns: seq<Notification>): (r: seq<Notification>)
    ensures |r| == |ns|
    ensures forall i :: 0 <= i < |ns| ==> r[i] == ns[i].(isRead := true)
  {
    if ns == [] then [] else [ns[0].(isRead := true)] + MarkAllRead(ns[1..])
  }

  /** `prev.filter(n => n.id !== id)`. */
  function WithoutId(ns: seq<Notification>, id: string): (r: seq<Notification>)
    ensures |r| <= |ns|
    ensures forall x :: x in r <==> x in ns && x.id != id
  {
    if ns == [] then []
    else (if ns[0].id == id then [] else [ns[0]]) + WithoutId(ns[1..], id)
  }

  /** `notifications.find(n => n.id === id)`: the first notification with that id. */
  function Find(ns: seq<Notification>, id: string): (r: Option<Notification>)
    ensures r.None? <==> forall i :: 0 <= i < |ns| ==> ns[i].id != id
    ensures r.Some? ==> r.value in ns && r.value.id == id
  {
    if ns == [] then None
    else if ns[0].id == id then Some(ns[0])
    else Find(ns[1..], id)
  }

  /** `find` returns the earliest match. */
  lemma {:induction false} FindFirst(ns: seq<Notification>, id: string, i: nat)
    requires i < |ns| && ns[i].id == id && forall j :: 0 <= j < i ==> ns[j].id != id
    ensures Find(ns, id) == Some(ns[i])
  {
    if i > 0 {
      FindFirst(ns[1..], id, i - 1);
    }
  }

  /** The badge: shown only for a positive count, "99+" above 99. */
  function BadgeText(count: int): (r: Option<string>)
    ensures r.Some? <==> count > 0
  {
    if count <= 0 then None
    else if count > 99 then Some("99+")
    else Some(IntToString(count))
  }

  /** Up to 99 the badge shows the count itself: reading it back gives the count. */
  lemma BadgeReadsBack(count: int)
    requires 0 < count <= 99
    ensures BadgeText(count).Some? && ParseInt(BadgeText(count).value) == Some(count)
  {
    ParseIntOfIntToString(count);
  }

  /** Where a click navigates, by notification type. */
  function ClickTarget(n: Notification): Option<string>
  {
    if n.kind == "like" || n.kind == "comment" then
      if Present(n.data.projectId) then Some("/projects/" + n.data.projectId.value)
      else if Present(n.data.videoId) then Some("/videos/" + n.data.videoId.value)
      else None
    else if n.kind == "follow" then
      if Present(n.data.userId) then Some("/users/" + n.data.userId.value) else None
    else if n.kind == "message" then
      if Present(n.data.conversationId) then Some("/messages/" + n.data.conversationId.value) else None
    else None
  }

  /** Likes and comments lead to the project when it is named, else to the
      video; follows to the user; messages to the conversation; any other
      type, or a missing id, stays put. */
  lemma ClickTargetRules(n: Notification)
    ensures (n.kind == "like" || n.kind == "comment") && Present(n.data.projectId) ==>
      ClickTarget(n) == Some("/projects/" + n.data.projectId.value)
    ensures (n.kind == "like" || n.kind == "comment") && !Present(n.data.projectId) ==>
      ClickTarget(n) == if Present(n.data.videoId) then Some("/videos/" + n.data.videoId.value) else None
    ensures n.kind == "follow" ==> (ClickTarget(n).Some? <==> Present(n.data.userId))
    ensures n.kind == "message" ==> (ClickTarget(n).Some? <==> Present(n.data.conversationId))
    ensures n.kind !in {"like", "comment", "follow", "message"} ==> ClickTarget(n).None?
  {
  }

  class Inbox {
    var notifications: seq<Notification>
    var unreadCount: int
    var isOpen: bool

    constructor()
      ensures notifications == [] && unreadCount == 0 && !isOpen
    {
      notifications := [];
      unreadCount := 0;
      isOpen := false;
    }

    /** `fetchNotifications`: an ok response replaces list and counter. */
    method Load(signedIn: bool, ok: bool, fetched: seq<Notification>, count: int)
      modifies this`notifications, this`unreadCount
      ensures signedIn && ok ==> notifications == fetched && unreadCount == count
      ensures !(signedIn && ok) ==> notifications == old(notifications) && unreadCount == old(unreadCount)
    {
      if signedIn && ok {
        notifications := fetched;
        unreadCount := count;
      }
    }

    /** The socket `notification` event. */
    method OnNotification(n: Notification)
      modifies this`notifications, this`unreadCount
      ensures notifications == [n] + old(notifications)
      ensures unreadCount == old(unreadCount) + 1
    {
      notifications := [n] + notifications;
      unreadCount := unreadCount + 1;
    }

    method MarkAsRead(id: string, ok: bool)
      modifies this`notifications, this`unreadCount
      ensures ok ==> (notifications == MarkRead(old(notifications), id)
        && unreadCount == if old(unreadCount) - 1 > 0 then old(unreadCount) - 1 else 0)
      ensures !ok ==> notifications == old(notifications) && unreadCount == old(unreadCount)
    {
      if ok {
        notifications := MarkRead(notifications, id);
        unreadCount := if unreadCount - 1 > 0 then unreadCount - 1 else 0;
      }
    }

    method MarkAllAsRead(ok: bool)
      modifies this`notifications, this`unreadCount
      ensures ok ==> notifications == MarkAllRead(old(notifications)) && unreadCount == 0
      ensures !ok ==> notifications == old(notifications) && unreadCount == old(unreadCount)
    {
      if ok {
        notifications := MarkAllRead(notifications);
        unreadCount := 0;
      }
    }

    /** `deleteNotification`. The list filter runs on the current list, but
        the item whose read flag decides the decrement is looked up in
        `rendered`, the `notifications` of the render whose handler was
        called: the lookup reads that closure value after the request's
        await, so an update landing meanwhile is not seen. */
    method Delete(id: string, ok: bool, rendered: seq<Notification>)
      modifies this`notifications, this`unreadCount
      ensures ok ==> (notifications == WithoutId(old(notifications), id)
        && unreadCount == old(unreadCount) - (if Find(rendered, id).Some? && !Find(rendered, id).value.isRead then 1 else 0))
      ensures ok && rendered == old(notifications) ==>
        unreadCount == old(unreadCount) - (if Find(old(notifications), id).Some? && !Find(old(notifications), id).value.isRead then 1 else 0)
      ensures !ok ==> notifications == old(notifications) && unreadCount == old(unreadCount)
    {
      if ok {
        var found := Find(rendered, id);
        notifications := WithoutId(notifications, id);
        unreadCount := if found.Some? && !found.value.isRead then unreadCount - 1 else unreadCount;
      }
    }

    /** `handleNotificationClick`: `readOk` is the ok flag of the mark-read
        request, sent only for an unread item. */
    method Click(n: Notification, readOk: bool) returns (target: Option<string>)
      modifies this
      ensures target == ClickTarget(n)
      ensures !isOpen
      ensures n.isRead ==> notifications == old(notifications) && unreadCount == old(unreadCount)
      ensures !n.isRead && readOk ==> notifications == MarkRead(old(notifications), n.id)
      ensures !n.isRead && readOk ==>
                unreadCount == (if old(unreadCount) - 1 > 0 then old(unreadCount) - 1 else 0)
      ensures !n.isRead && !readOk ==> notifications == old(notifications) && unreadCount == old(unreadCount)
    {
      if !n.isRead {
        MarkAsRead(n.id, readOk);
      }
      target := ClickTarget(n);
      isOpen := false;
    }
  }

  // ---------------------------------------------------------------------
  // The counter against the list

  /** An unread push keeps the counter equal to the number of unread items. */
  lemma ReceiveUnreadKeepsCount(ns: seq<Notification>, n: Notification)
    requires !n.isRead
    ensures CountUnread([n] + ns) == CountUnread(ns) + 1
  {
    assert ([n] + ns)[1..] == ns;
  }

  /** A push that is already read still raises the counter, so the two drift apart. */
  lemma ReceiveReadDrifts(ns: seq<Notification>, n: Notification)
    requires n.isRead
    ensures CountUnread([n] + ns) == CountUnread(ns)
  {
    assert ([n] + ns)[1..] == ns;
  }

  /** With distinct ids, marking an item read lowers the number of unread
      items by one if it was unread and leaves it unchanged if it was read. */
  lemma {:induction false} MarkReadCount(ns: seq<Notification>, id: string)
    requires UniqueIds(ns)
    ensures CountUnread(MarkRead(ns, id)) ==
      CountUnread(ns) - (if Find(ns, id).Some? && !Find(ns, id).value.isRead then 1 else 0)
  {
    if ns != [] {
      var r := MarkRead(ns, id);
      assert r[1..] == MarkRead(ns[1..], id);
      MarkReadCount(ns[1..], id);
      if ns[0].id == id {
        MarkReadMissing(ns[1..], id);
      }
    }
  }

  lemma {:induction false} MarkReadMissing(ns: seq<Notification>, id: string)
    requires forall i :: 0 <= i < |ns| ==> ns[i].id != id
    ensures MarkRead(ns, id) == ns
  {
    if ns != [] {
      MarkReadMissing(ns[1..], id);
    }
  }

  /** Marking all read leaves nothing unread, matching the counter's reset to 0. */
  lemma {:induction false} MarkAllReadCount(ns: seq<Notification>)
    ensures CountUnread(MarkAllRead(ns)) == 0
  {
    if ns != [] {
      var r := MarkAllRead(ns);
      assert r[1..] == MarkAllRead(ns[1..]);
      MarkAllReadCount(ns[1..]);
    }
  }

  /** With distinct ids, deleting lowers the number of unread items exactly
      as the counter is lowered. */
  lemma {:induction false} DeleteCount(ns: seq<Notification>, id: string)
    requires UniqueIds(ns)
    ensures CountUnread(WithoutId(ns, id)) ==
      CountUnread(ns) - (if Find(ns, id).Some? && !Find(ns, id).value.isRead then 1 else 0)
  {
    if ns != [] {
      DeleteCount(ns[1..], id);
      if ns[0].id == id {
        forall i | 0 <= i < |ns[1..]| ensures ns[1..][i].id != id {
          assert ns[1..][i] == ns[i + 1];
        }
        WithoutMissing(ns[1..], id);
        assert WithoutId(ns, id) == [] + WithoutId(ns[1..], id);
        assert WithoutId(ns, id) == ns[1..];
        assert Find(ns, id) == Some(ns[0]);
        assert CountUnread(ns) == (if ns[0].isRead then 0 else 1) + CountUnread(ns[1..]);
      } else {
        assert WithoutId(ns, id) == [ns[0]] + WithoutId(ns[1..], id);
        assert ([ns[0]] + WithoutId(ns[1..], id))[1..] == WithoutId(ns[1..], id);
      }
    }
  }

  lemma {:induction false} WithoutMissing(ns: seq<Notification>, id: string)
    requires forall i :: 0 <= i < |ns| ==> ns[i].id != id
    ensures WithoutId(ns, id) == ns
  {
    if ns != [] {
      WithoutMissing(ns[1..], id);
      assert WithoutId(ns, id) == [ns[0]] + WithoutId(ns[1..], id);
    }
  }

  /** The counter is clamped at 0 on mark-read but not on delete, and the
      mark-read answer lowers it without checking that the item is still
      listed. Starting from two unread items and a matching counter of 2:
      the first item is deleted while its mark-read request (sent by a click)
      is still out, that request then succeeds, and deleting the second item
      leaves the counter at -1. */
  method DeleteCanGoNegative(n: Notification, m: Notification) returns (count: int)
    requires !n.isRead && !m.isRead && n.id != m.id
    ensures count == -1
  {
    var inbox := new Inbox();
    inbox.Load(true, true, [n, m], 2);
    assert Find([n, m], n.id) == Some(n);
    assert WithoutId([n, m], n.id) == [m] by {
      assert [n, m][1..] == [m];
      assert WithoutId([m], n.id) == [m];
    }
    inbox.Delete(n.id, true, [n, m]);
    assert MarkRead([m], n.id) == [m];
    inbox.MarkAsRead(n.id, true);
    assert Find([m], m.id) == Some(m);
    inbox.Delete(m.id, true, [m]);
    count := inbox.unreadCount;
  }

  /** The decrement on delete reads the render-time list. With one unread
      item and a counter of 1, the user deletes it while its mark-read
      request (sent by an earlier click) is out; the mark-read answer lands
      first, marking the item read and lowering the counter to 0; the delete
      answer then finds the item unread in the list it was rendered with and
      lowers the counter to -1, leaving an empty inbox. */
  method DeleteReadsRenderedList(n: Notification) returns (count: int, left: seq<Notification>)
    requires !n.isRead
    ensures count == -1 && left == []
  {
    var inbox := new Inbox();
    inbox.Load(true, true, [n], 1);
    var rendered := inbox.notifications;
    inbox.MarkAsRead(n.id, true);
    assert MarkRead([n], n.id) == [n.(isRead := true)];
    assert Find(rendered, n.id) == Some(n);
    assert WithoutId([n.(isRead := true)], n.id) == [];
    inbox.Delete(n.id, true, rendered);
    count, left := inbox.unreadCount, inbox.notifications;
  }
}
