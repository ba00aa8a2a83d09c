/** The real-time connection registry of the socket server. The server
    keeps one `connectedUsers` map shared by all connections; each
    connection keeps its own `userPresence` and `typingUsers` maps, the
    rooms it joined and its pending typing timeouts. Emits are appended to
    the server's outbox with their target, database inserts to its insert
    log, and a 3-second typing timeout is a pending entry that fires
    later. What the database answers is a parameter of each handler. The
    whole registry is commented out in the repository; the model follows
    its text. */
module Socket {
  import opened JsString

  datatype SocketUser = SocketUser(id: string, username: string, fullName: string, avatarUrl: Option<string>)

  datatype Status = Online | Away | Busy

  datatype Presence = Presence(user: SocketUser, lastSeen: int, status: Status)

  /** An entry of `connectedUsers`: the socket that authenticated last for that user. */
  datatype Registration = Registration(socketId: string, user: SocketUser)

  datatype NotificationRow = NotificationRow(id: string, userId: string, kind: string, title: string, message: string, createdAt: string)

  datatype MessageRow = MessageRow(id: string, content: string, senderId: string, receiverId: string, conversationId: string, createdAt: string)

  datatype MessageData = MessageData(row: MessageRow, sender: SocketUser)

  /** Who an emit reaches: one socket, everyone but one socket, a room, or a room but one socket. */
  datatype Target = ToSocket(socketId: string) | AllExcept(socketId: string)
                  | ToRoom(room: string) | RoomExcept(room: string, except: string)

  datatype Payload =
    | AuthError(message: string)
    | AuthenticatedAs(user: SocketUser)
    | UserOnline(userId: string, user: SocketUser)
    | PresenceUpdated(userId: string, status: Status, lastSeen: int)
    | Failure(message: string)
    | NewMessage(data: MessageData)
    | MessageNotification(title: string, text: string, conversationId: string, senderId: string)
    | UserTyping(userId: string, typist: Option<SocketUser>, isTyping: bool, conversationId: string)
    | Notification(row: NotificationRow)
    | FollowNotification(title: string, text: string, details: NotificationData)
    | ContentUpdated(event: string, idKey: string, id: string, field: string, count: int)
    | NewThread(thread: string)
    | NewThreadComment(comment: string)
    | UserOffline(userId: string)

  datatype Emit = Emit(target: Target, payload: Payload)

  /** The `data` member of a notification: the sender's own value, passed
      through as it came, or the follower details of a follow notification. */
  datatype NotificationData =
    | Given(json: string)
    | FollowerData(followerId: string, followerUsername: string, followerAvatar: Option<string>)

  datatype Insert = NotificationInsert(userId: string, kind: string, title: string, message: string, data: NotificationData)
                  | MessageInsert(content: string, senderId: string, receiverId: string, conversationId: string)

  /** A scheduled end of typing, with the user data looked up when typing started. */
  datatype TypingTimeout = TypingTimeout(conversationId: string, userId: string, user: Option<SocketUser>)

  function UserRoom(userId: string): string { "user:" + userId }
  function ConversationRoom(conversationId: string): string { "conversation:" + conversationId }
  function ThreadRoom(threadId: string): string { "thread:" + threadId }

  /** The three room families never share a name, and each is one room per id. */
  lemma RoomNamesDistinct(a: string, b: string)
    ensures UserRoom(a) != ConversationRoom(b) && UserRoom(a) != ThreadRoom(b) && ConversationRoom(a) != ThreadRoom(b)
    ensures UserRoom(a) == UserRoom(b) <==> a == b
    ensures ConversationRoom(a) == ConversationRoom(b) <==> a == b
  {
    assert UserRoom(a)[0] == 'u' && ConversationRoom(b)[0] == 'c' && ThreadRoom(b)[0] == 't';
    assert ConversationRoom(a)[0] == 'c';
    if UserRoom(a) == UserRoom(b) {
      assert a == UserRoom(a)[5..] && b == UserRoom(b)[5..];
    }
    if ConversationRoom(a) == ConversationRoom(b) {
      assert a == ConversationRoom(a)[13..] && b == ConversationRoom(b)[13..];
    }
  }

  /** The title of the new-message notification. */
  function MessageTitle(sender: SocketUser): string
  {
    "Tin nhắn mới từ " + sender.fullName
  }

  const FollowTitle := "Người theo dõi mới! 🎉"

  function FollowText(follower: SocketUser): string
  {
    follower.fullName + " đã bắt đầu theo dõi bạn"
  }

  /** The relaying handlers: a like or comment count, a new thread, a thread comment. */
  datatype Relay = ProjectLiked(projectId: string, likesCount: int)
                 | VideoLiked(videoId: string, likesCount: int)
                 | NewComment(contentId: string, contentType: string, commentsCount: int)
                 | ThreadCreated(thread: string)
                 | ThreadComment(threadId: string, comment: string)

  /** What a relaying handler of socket `socketId` emits. */
  function RelayEmit(socketId: string, r: Relay): Emit
  {
    match r
    case ProjectLiked(id, n) => Emit(AllExcept(socketId), ContentUpdated("project_updated", "projectId", id, "likesCount", n))
    case VideoLiked(id, n) => Emit(AllExcept(socketId), ContentUpdated("video_updated", "videoId", id, "likesCount", n))
    case NewComment(id, t, n) => Emit(AllExcept(socketId), ContentUpdated(t + "_updated", t + "Id", id, "commentsCount", n))
    case ThreadCreated(thread) => Emit(AllExcept(socketId), NewThread(thread))
    case ThreadComment(tid, c) => Emit(ToRoom(ThreadRoom(tid)), NewThreadComment(c))
  }

  /** A comment on a project or a video is announced on the same event, with
      the same id key, as a like of it; only thread comments go to a room,
      and nothing relayed reaches its own sender. */
  lemma RelayEvents(socketId: string, r: Relay, id: string, n: int, m: int)
    ensures RelayEmit(socketId, NewComment(id, "project", n)).payload.event == RelayEmit(socketId, ProjectLiked(id, m)).payload.event
    ensures RelayEmit(socketId, NewComment(id, "project", n)).payload.idKey == RelayEmit(socketId, ProjectLiked(id, m)).payload.idKey
    ensures RelayEmit(socketId, NewComment(id, "video", n)).payload.event == RelayEmit(socketId, VideoLiked(id, m)).payload.event
    ensures RelayEmit(socketId, NewComment(id, "video", n)).payload.idKey == RelayEmit(socketId, VideoLiked(id, m)).payload.idKey
    ensures RelayEmit(socketId, r).target.ToRoom? <==> r.ThreadComment?
    ensures RelayEmit(socketId, r).target.AllExcept? ==> RelayEmit(socketId, r).target.socketId == socketId
  {
  }

  class Server {
    var connectedUsers: map<string, Registration>
    var outbox: seq<Emit>
    var inserts: seq<Insert>

    constructor()
      ensures connectedUsers == map[] && outbox == [] && inserts == []
    {
      connectedUsers := map[];
      outbox := [];
      inserts := [];
    }
  }

  class Connection {
    const id: string
    const server: Server
    var userId: Option<string>
    var presence: map<string, Presence>
    var typing: map<string, set<string>>
    var rooms: set<string>
    var pending: seq<TypingTimeout>

    constructor(id: string, server: Server)
      ensures this.id == id && this.server == server
      ensures userId.None? && presence == map[] && typing == map[] && rooms == {} && pending == []
    {
      this.id := id;
      this.server := server;
      userId := None;
      presence := map[];
      typing := map[];
      rooms := {};
      pending := [];
    }

    /** `socket.userId` is truthy. */
    predicate SignedIn()
      reads this
    {
      userId.Some? && userId.value != []
    }

    /** The user looked up for a typing event, as `connectedUsers.get(userId)?.user`. */
    function TypingUser(uid: string): Option<SocketUser>
      reads this, server
    {
      if uid in server.connectedUsers then Some(server.connectedUsers[uid].user) else None
    }

    /** `authenticate`: a failed or empty lookup only answers with an
        auth error; a user found takes the registry entry (replacing any
        earlier socket of that user), is online in this connection's
        presence, joins its user room and is announced to everyone else. */
    method Authenticate(uid: string, found: Option<SocketUser>, now: int)
      modifies this`userId, this`presence, this`rooms, server`connectedUsers, server`outbox
      ensures found.None? ==>
        server.connectedUsers == old(server.connectedUsers) && presence == old(presence)
        && userId == old(userId) && rooms == old(rooms)
        && server.outbox == old(server.outbox) + [Emit(ToSocket(id), AuthError("Authentication failed"))]
      ensures found.Some? ==>
        server.connectedUsers == old(server.connectedUsers)[uid := Registration(id, found.value)]
        && presence == old(presence)[uid := Presence(found.value, now, Online)]
        && userId == Some(uid) && rooms == old(rooms) + {UserRoom(uid)}
        && server.outbox == old(server.outbox)
          + [Emit(ToSocket(id), AuthenticatedAs(found.value)), Emit(AllExcept(id), UserOnline(uid, found.value))]
    {
      if found.None? {
        server.outbox := server.outbox + [Emit(ToSocket(id), AuthError("Authentication failed"))];
        return;
      }
      var user := found.value;
      server.connectedUsers := server.connectedUsers[uid := Registration(id, user)];
      presence := presence[uid := Presence(user, now, Online)];
      userId := Some(uid);
      rooms := rooms + {UserRoom(uid)};
      server.outbox := server.outbox + [Emit(ToSocket(id), AuthenticatedAs(user))];
      server.outbox := server.outbox + [Emit(AllExcept(id), UserOnline(uid, user))];
    }

    /** `update_presence`: only a signed-in socket with its own presence
        entry changes status and last-seen time and announces it. */
    method UpdatePresence(status: Status, now: int)
      modifies this`presence, server`outbox
      ensures var changes := SignedIn() && userId.value in old(presence);
        (changes ==>
          presence == old(presence)[userId.value := old(presence)[userId.value].(status := status, lastSeen := now)]
          && server.outbox == old(server.outbox) + [Emit(AllExcept(id), PresenceUpdated(userId.value, status, now))])
        && (!changes ==> presence == old(presence) && server.outbox == old(server.outbox))
    {
      if SignedIn() && userId.value in presence {
        var uid := userId.value;
        presence := presence[uid := presence[uid].(status := status, lastSeen := now)];
        server.outbox := server.outbox + [Emit(AllExcept(id), PresenceUpdated(uid, status, now))];
      }
    }

    method JoinRoom(room: string)
      modifies this`rooms
      ensures rooms == old(rooms) + {room}
    {
      rooms := rooms + {room};
    }

    method LeaveRoom(room: string)
      modifies this`rooms
      ensures rooms == old(rooms) - {room}
    {
      rooms := rooms - {room};
    }

    /** `send_notification`: the row is inserted, and only an inserted row is sent to the user's room. */
    method SendNotification(uid: string, kind: string, title: string, message: string, data: string,
                            inserted: Option<NotificationRow>)
      modifies server`inserts, server`outbox
      ensures server.inserts == old(server.inserts) + [NotificationInsert(uid, kind, title, message, Given(data))]
      ensures server.outbox == old(server.outbox) + (if inserted.Some? then [Emit(ToRoom(UserRoom(uid)), Notification(inserted.value))] else [])
    {
      server.inserts := server.inserts + [NotificationInsert(uid, kind, title, message, Given(data))];
      if inserted.Some? {
        server.outbox := server.outbox + [Emit(ToRoom(UserRoom(uid)), Notification(inserted.value))];
      }
    }

    /** `send_message`: a sender without a registry entry gets an error and
        nothing is inserted; a failed insert gets an error and nothing is
        broadcast; otherwise the message goes to the conversation room and a
        notification to the receiver's room when the receiver is connected.
        The sender is looked up by the id in the message, not by this
        socket's user. */
    method SendMessage(senderId: string, receiverId: string, conversationId: string, content: string, inserted: Option<MessageRow>)
      modifies server`inserts, server`outbox
      ensures senderId !in server.connectedUsers ==>
        server.inserts == old(server.inserts)
        && server.outbox == old(server.outbox) + [Emit(ToSocket(id), Failure("Sender not authenticated"))]
      ensures senderId in server.connectedUsers ==>
        server.inserts == old(server.inserts) + [MessageInsert(content, senderId, receiverId, conversationId)]
      ensures senderId in server.connectedUsers && inserted.None? ==>
        server.outbox == old(server.outbox) + [Emit(ToSocket(id), Failure("Failed to send message"))]
      ensures senderId in server.connectedUsers && inserted.Some? ==>
        var sender := server.connectedUsers[senderId].user;
        server.outbox == old(server.outbox)
          + [Emit(ToRoom(ConversationRoom(conversationId)), NewMessage(MessageData(inserted.value, sender)))]
          + (if receiverId in server.connectedUsers
             then [Emit(ToRoom(UserRoom(receiverId)), MessageNotification(MessageTitle(sender), content, conversationId, senderId))]
             else [])
    {
      if senderId !in server.connectedUsers {
        server.outbox := server.outbox + [Emit(ToSocket(id), Failure("Sender not authenticated"))];
        return;
      }
      var sender := server.connectedUsers[senderId].user;
      server.inserts := server.inserts + [MessageInsert(content, senderId, receiverId, conversationId)];
      if inserted.None? {
        server.outbox := server.outbox + [Emit(ToSocket(id), Failure("Failed to send message"))];
        return;
      }
      server.outbox := server.outbox + [Emit(ToRoom(ConversationRoom(conversationId)), NewMessage(MessageData(inserted.value, sender)))];
      if receiverId in server.connectedUsers {
        server.outbox := server.outbox + [Emit(ToRoom(UserRoom(receiverId)), MessageNotification(MessageTitle(sender), content, conversationId, senderId))];
      }
    }

    /** `typing_start`: the user joins the conversation's typing set (created
        if needed), the others in the conversation see it, and a stop is
        scheduled unconditionally; no earlier timeout is cancelled. */
    method TypingStart(conversationId: string, uid: string)
      modifies this`typing, this`pending, server`outbox
      ensures conversationId in typing
      ensures typing == old(typing)[conversationId := (if conversationId in old(typing) then old(typing)[conversationId] else {}) + {uid}]
      ensures pending == old(pending) + [TypingTimeout(conversationId, uid, TypingUser(uid))]
      ensures server.outbox == old(server.outbox)
        + [Emit(RoomExcept(ConversationRoom(conversationId), id), UserTyping(uid, TypingUser(uid), true, conversationId))]
    {
      if conversationId !in typing {
        typing := typing[conversationId := {}];
      }
      typing := typing[conversationId := typing[conversationId] + {uid}];
      var user := TypingUser(uid);
      server.outbox := server.outbox + [Emit(RoomExcept(ConversationRoom(conversationId), id), UserTyping(uid, user, true, conversationId))];
      pending := pending + [TypingTimeout(conversationId, uid, user)];
    }

    /** The oldest pending timeout fires (all are 3 seconds, so they fire in
        the order they were set): the user leaves the typing set if the set
        exists, and a stop is announced with the user data of the start,
        whether or not the user was still typing. */
    method TypingTimeoutFires()
      requires pending != []
      modifies this`typing, this`pending, server`outbox
      ensures pending == old(pending)[1..]
      ensures var t := old(pending)[0];
        typing == (if t.conversationId in old(typing)
                   then old(typing)[t.conversationId := old(typing)[t.conversationId] - {t.userId}] else old(typing))
        && server.outbox == old(server.outbox)
          + [Emit(RoomExcept(ConversationRoom(t.conversationId), id), UserTyping(t.userId, t.user, false, t.conversationId))]
    {
      var t := pending[0];
      pending := pending[1..];
      if t.conversationId in typing {
        typing := typing[t.conversationId := typing[t.conversationId] - {t.userId}];
      }
      server.outbox := server.outbox + [Emit(RoomExcept(ConversationRoom(t.conversationId), id), UserTyping(t.userId, t.user, false, t.conversationId))];
    }

    /** `typing_stop`: the user leaves the set if the set exists, and the
        stop is announced even when the user was not typing; the pending
        timeouts stay. */
    method TypingStop(conversationId: string, uid: string)
      modifies this`typing, server`outbox
      ensures typing == (if conversationId in old(typing)
                         then old(typing)[conversationId := old(typing)[conversationId] - {uid}] else old(typing))
      ensures conversationId in typing ==> uid !in typing[conversationId]
      ensures server.outbox == old(server.outbox)
        + [Emit(RoomExcept(ConversationRoom(conversationId), id), UserTyping(uid, TypingUser(uid), false, conversationId))]
    {
      if conversationId in typing {
        typing := typing[conversationId := typing[conversationId] - {uid}];
      }
      server.outbox := server.outbox + [Emit(RoomExcept(ConversationRoom(conversationId), id), UserTyping(uid, TypingUser(uid), false, conversationId))];
    }

    /** `new_follower`: a follower found is saved as a notification of the
        followed user and sent to that user's room; the insert's outcome is
        not looked at. */
    method NewFollower(followerId: string, followedId: string, follower: Option<SocketUser>)
      modifies server`inserts, server`outbox
      ensures follower.None? ==> server.inserts == old(server.inserts) && server.outbox == old(server.outbox)
      ensures follower.Some? ==>
        var data := FollowerData(followerId, follower.value.username, follower.value.avatarUrl);
        server.inserts == old(server.inserts) + [NotificationInsert(followedId, "follow", FollowTitle, FollowText(follower.value), data)]
        && server.outbox == old(server.outbox)
          + [Emit(ToRoom(UserRoom(followedId)), FollowNotification(FollowTitle, FollowText(follower.value), data))]
    {
      if follower.Some? {
        var f := follower.value;
        var data := FollowerData(followerId, f.username, f.avatarUrl);
        server.inserts := server.inserts + [NotificationInsert(followedId, "follow", FollowTitle, FollowText(f), data)];
        server.outbox := server.outbox + [Emit(ToRoom(UserRoom(followedId)), FollowNotification(FollowTitle, FollowText(f), data))];
      }
    }

    /** The relaying handlers. */
    method OnRelay(r: Relay)
      modifies server`outbox
      ensures server.outbox == old(server.outbox) + [RelayEmit(id, r)]
    {
      server.outbox := server.outbox + [RelayEmit(id, r)];
    }

    /** `disconnect`: a signed-in socket removes its user's registry entry
        and presence and announces the user offline, even when the entry
        belongs to another, still open socket of the same user. */
    method Disconnect()
      modifies server`connectedUsers, this`presence, server`outbox
      ensures SignedIn() ==>
        server.connectedUsers == old(server.connectedUsers) - {userId.value}
        && presence == old(presence) - {userId.value}
        && server.outbox == old(server.outbox) + [Emit(AllExcept(id), UserOffline(userId.value))]
      ensures !SignedIn() ==>
        server.connectedUsers == old(server.connectedUsers) && presence == old(presence) && server.outbox == old(server.outbox)
      ensures SignedIn() ==> userId.value !in server.connectedUsers
    {
      if SignedIn() {
        var uid := userId.value;
        server.connectedUsers := server.connectedUsers - {uid};
        presence := presence - {uid};
        server.outbox := server.outbox + [Emit(AllExcept(id), UserOffline(uid))];
      }
    }
  }
}
