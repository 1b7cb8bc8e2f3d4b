/**
 * The Socket.IO presence handlers (server/index.js:491-580). The server keeps
 * `userSockets`, a map from socket id to the authenticated user and the room
 * the user currently shows presence in. `authenticate` fills an entry,
 * `joinRoom`/`leaveRoom` move `currentRoom`, and `disconnect` deletes the
 * entry. The `userJoined`/`userLeft` broadcasts are kept as an output log;
 * each notice records who receives it: every socket in the room except the
 * sender, as `socket.to(room).emit` delivers it. Socket.IO's own room
 * membership (`socket.join`/`socket.leave`) is kept too, since it decides
 * the recipients.
 */
module Presence {
  import opened Common

  type SocketId = nat
  type UserId = nat

  /** The user `User.findById(decoded.userId).select("username displayName")` yields. */
  datatype Profile = Profile(userId: UserId, username: string, displayName: string)

  /** One `userSockets` entry. An empty `displayName` stands for a missing one. */
  datatype UserInfo = UserInfo(userId: UserId, username: string, displayName: string,
                               currentRoom: Option<string>)

  datatype NoticeKind = UserJoined | UserLeft

  /** One `socket.to(room).emit(kind, {username, message})`. */
  datatype Notice = Notice(kind: NoticeKind, room: string, sender: SocketId,
                           recipients: set<SocketId>, username: string, message: string)

  /** The presence state of the whole server. */
  datatype Hub = Hub(userSockets: map<SocketId, UserInfo>,
                     rooms: map<SocketId, set<string>>,
                     log: seq<Notice>)

  /** `userInfo.displayName || userInfo.username` */
  function ShownName(info: UserInfo): (r: string)
    ensures info.displayName != "" ==> r == info.displayName
    ensures info.displayName == "" ==> r == info.username
    ensures r == "" <==> info.displayName == "" && info.username == ""
  {
    if info.displayName != "" then info.displayName else info.username
  }

  /** The sockets Socket.IO has joined to `room`. */
  function Members(rooms: map<SocketId, set<string>>, room: string): set<SocketId> {
    set s | s in rooms && room in rooms[s]
  }

  function RoomsOf(rooms: map<SocketId, set<string>>, sock: SocketId): set<string> {
    if sock in rooms then rooms[sock] else {}
  }

  /** The notice `socket.to(room).emit(kind, ...)` sends on behalf of `info`. */
  function NoticeFor(rooms: map<SocketId, set<string>>, kind: NoticeKind, room: string,
                     sock: SocketId, info: UserInfo): (n: Notice)
    ensures sock !in n.recipients
    ensures forall s :: s in n.recipients <==> s in rooms && room in rooms[s] && s != sock
  {
    var name := ShownName(info);
    Notice(kind, room, sock, Members(rooms, room) - {sock}, name,
           name + (if kind == UserJoined then " has joined" else " has left"))
  }

  /**
   * A current room is always a joined room: every socket that shows presence
   * in a room is a Socket.IO member of that room.
   */
  ghost predicate Consistent(h: Hub) {
    forall s :: s in h.userSockets && Truthy(h.userSockets[s].currentRoom) ==>
      s in h.rooms && h.userSockets[s].currentRoom.value in h.rooms[s]
  }

  /**
   * `authenticate`: when the token verifies and the user exists, the socket's
   * entry is (re)set with no current room; otherwise nothing changes. No
   * notice is sent, and Socket.IO membership is untouched.
   */
  function Authenticate(h: Hub, sock: SocketId, user: Option<Profile>): (r: Hub)
    ensures r.rooms == h.rooms && r.log == h.log
    ensures user.None? ==> r == h
    ensures user.Some? ==> r.userSockets.Keys == h.userSockets.Keys + {sock}
    ensures user.Some? ==> var u := r.userSockets[sock];
              u.userId == user.value.userId && u.username == user.value.username
              && u.displayName == user.value.displayName && u.currentRoom == None
    ensures forall s :: s in h.userSockets && s != sock ==> r.userSockets[s] == h.userSockets[s]
  {
    match user
    case None => h
    case Some(p) =>
      h.(userSockets := h.userSockets[sock := UserInfo(p.userId, p.username, p.displayName, None)])
  }

  /**
   * `joinRoom`: the socket always joins `room`. Only an authenticated socket
   * leaves its previous (truthy) room with a `userLeft` there, takes `room`
   * as its current room and announces `userJoined` in it.
   */
  function JoinRoom(h: Hub, sock: SocketId, room: string): (r: Hub)
    ensures room in RoomsOf(r.rooms, sock)
    ensures sock !in h.userSockets ==> r.userSockets == h.userSockets && r.log == h.log
    ensures sock !in h.userSockets ==> r.rooms == h.rooms[sock := RoomsOf(h.rooms, sock) + {room}]
    ensures sock in h.userSockets ==>
              var prev := h.userSockets[sock].currentRoom;
              var info := h.userSockets[sock];
              var left := h.rooms[sock := RoomsOf(h.rooms, sock) - (if Truthy(prev) then {prev.value} else {})];
              && r.userSockets == h.userSockets[sock := info.(currentRoom := Some(room))]
              && r.rooms == h.rooms[sock := RoomsOf(h.rooms, sock) - (if Truthy(prev) then {prev.value} else {}) + {room}]
              && r.log == h.log
                          + (if Truthy(prev) then [NoticeFor(left, UserLeft, prev.value, sock, info)] else [])
                          + [NoticeFor(r.rooms, UserJoined, room, sock, info.(currentRoom := Some(room)))]
              && |r.log| == |h.log| + (if Truthy(prev) then 2 else 1)
              && r.log[..|h.log|] == h.log
              && r.log[|r.log| - 1].kind == UserJoined && r.log[|r.log| - 1].room == room
              && (Truthy(prev) ==> r.log[|h.log|].kind == UserLeft && r.log[|h.log|].room == prev.value)
    ensures forall s :: s != sock && s in h.rooms ==> s in r.rooms && r.rooms[s] == h.rooms[s]
  {
    if sock !in h.userSockets then
      h.(rooms := h.rooms[sock := RoomsOf(h.rooms, sock) + {room}])
    else
      var info := h.userSockets[sock];
      var afterLeave :=
        if Truthy(info.currentRoom) then
          var prev := info.currentRoom.value;
          var rooms := h.rooms[sock := RoomsOf(h.rooms, sock) - {prev}];
          h.(rooms := rooms, log := h.log + [NoticeFor(rooms, UserLeft, prev, sock, info)])
        else h;
      var rooms := afterLeave.rooms[sock := RoomsOf(afterLeave.rooms, sock) + {room}];
      var dropped := if Truthy(info.currentRoom) then {info.currentRoom.value} else {};
      assert RoomsOf(afterLeave.rooms, sock) == RoomsOf(h.rooms, sock) - dropped;
      assert rooms == h.rooms[sock := RoomsOf(h.rooms, sock) - dropped + {room}];
      var info' := info.(currentRoom := Some(room));
      Hub(h.userSockets[sock := info'], rooms,
          afterLeave.log + [NoticeFor(rooms, UserJoined, room, sock, info')])
  }

  /**
   * `leaveRoom`: the socket always leaves `room`; only when `room` is the
   * socket's current room is the current room cleared and `userLeft` sent.
   */
  function LeaveRoom(h: Hub, sock: SocketId, room: string): (r: Hub)
    ensures room !in RoomsOf(r.rooms, sock)
    ensures var announced := sock in h.userSockets && h.userSockets[sock].currentRoom == Some(room);
            && (announced ==> r.userSockets == h.userSockets[sock := h.userSockets[sock].(currentRoom := None)])
            && (!announced ==> r.userSockets == h.userSockets)
            && |r.log| == |h.log| + (if announced then 1 else 0)
            && r.log[..|h.log|] == h.log
            && (announced ==> r.log[|h.log|].kind == UserLeft && r.log[|h.log|].room == room)
            && (announced ==> r.log == h.log + [NoticeFor(r.rooms, UserLeft, room, sock, h.userSockets[sock])])
    ensures r.rooms == h.rooms[sock := RoomsOf(h.rooms, sock) - {room}]
    ensures forall s :: s != sock && s in h.rooms ==> s in r.rooms && r.rooms[s] == h.rooms[s]
  {
    var rooms := h.rooms[sock := RoomsOf(h.rooms, sock) - {room}];
    if sock in h.userSockets && h.userSockets[sock].currentRoom == Some(room) then
      var info := h.userSockets[sock];
      Hub(h.userSockets[sock := info.(currentRoom := None)], rooms,
          h.log + [NoticeFor(rooms, UserLeft, room, sock, info)])
    else
      h.(rooms := rooms)
  }

  /**
   * `disconnect`: Socket.IO has already taken the socket out of all its
   * rooms; a `userLeft` goes to its current room exactly when it had a
   * truthy one, and its `userSockets` entry is always removed.
   */
  function Disconnect(h: Hub, sock: SocketId): (r: Hub)
    ensures sock !in r.userSockets && sock !in r.rooms
    ensures r.userSockets == h.userSockets - {sock}
    ensures r.rooms == h.rooms - {sock}
    ensures var announced := sock in h.userSockets && Truthy(h.userSockets[sock].currentRoom);
            && |r.log| == |h.log| + (if announced then 1 else 0)
            && r.log[..|h.log|] == h.log
            && (announced ==> r.log[|h.log|].kind == UserLeft
                              && r.log[|h.log|].room == h.userSockets[sock].currentRoom.value)
            && (announced ==> r.log == h.log + [NoticeFor(r.rooms, UserLeft, h.userSockets[sock].currentRoom.value,
                                                          sock, h.userSockets[sock])])
  {
    var rooms := h.rooms - {sock};
    var log :=
      if sock in h.userSockets && Truthy(h.userSockets[sock].currentRoom) then
        var info := h.userSockets[sock];
        h.log + [NoticeFor(rooms, UserLeft, info.currentRoom.value, sock, info)]
      else h.log;
    Hub(h.userSockets - {sock}, rooms, log)
  }

  lemma AuthenticateKeepsConsistent(h: Hub, sock: SocketId, user: Option<Profile>)
    requires Consistent(h)
    ensures Consistent(Authenticate(h, sock, user))
  {
  }

  lemma JoinRoomKeepsConsistent(h: Hub, sock: SocketId, room: string)
    requires Consistent(h)
    ensures Consistent(JoinRoom(h, sock, room))
  {
  }

  lemma LeaveRoomKeepsConsistent(h: Hub, sock: SocketId, room: string)
    requires Consistent(h)
    ensures Consistent(LeaveRoom(h, sock, room))
  {
  }

  lemma DisconnectKeepsConsistent(h: Hub, sock: SocketId)
    requires Consistent(h)
    ensures Consistent(Disconnect(h, sock))
  {
  }

  /**
   * Presence is announced and retracted in pairs: an authenticated socket
   * that joins `a`, moves to `b` and disconnects produces exactly
   * `userJoined a`, `userLeft a`, `userJoined b`, `userLeft b`.
   */
  lemma JoinMoveDisconnect(h: Hub, sock: SocketId, p: Profile, a: string, b: string)
    requires a != "" && b != ""
    ensures var h1 := Authenticate(h, sock, Some(p));
            var h2 := JoinRoom(h1, sock, a);
            var h3 := JoinRoom(h2, sock, b);
            var h4 := Disconnect(h3, sock);
            && |h4.log| == |h.log| + 4
            && h4.log[..|h.log|] == h.log
            && h4.log[|h.log|].kind == UserJoined && h4.log[|h.log|].room == a
            && h4.log[|h.log| + 1].kind == UserLeft && h4.log[|h.log| + 1].room == a
            && h4.log[|h.log| + 2].kind == UserJoined && h4.log[|h.log| + 2].room == b
            && h4.log[|h.log| + 3].kind == UserLeft && h4.log[|h.log| + 3].room == b
            && sock !in h4.userSockets
  {
    var h1 := Authenticate(h, sock, Some(p));
    var h2 := JoinRoom(h1, sock, a);
    var h3 := JoinRoom(h2, sock, b);
    var h4 := Disconnect(h3, sock);
    assert h2.log[|h.log|] == h3.log[|h.log|];
    assert h3.log[..|h.log| + 3] == h4.log[..|h.log| + 3];
  }

  /**
   * A socket that never authenticated is silent: joining, leaving and
   * disconnecting send no notice at all.
   */
  lemma AnonymousIsSilent(h: Hub, sock: SocketId, a: string, b: string)
    requires sock !in h.userSockets
    ensures LeaveRoom(JoinRoom(h, sock, a), sock, b).log == h.log
    ensures Disconnect(JoinRoom(h, sock, a), sock).log == h.log
  {
  }

  /** The server's presence state, updated in place by the socket handlers. */
  class PresenceServer {
    var userSockets: map<SocketId, UserInfo>
    var rooms: map<SocketId, set<string>>
    var log: seq<Notice>

    function State(): Hub
      reads this
    {
      Hub(userSockets, rooms, log)
    }

    constructor ()
      ensures State() == Hub(map[], map[], [])
    {
      userSockets, rooms, log := map[], map[], [];
    }

    method OnAuthenticate(sock: SocketId, user: Option<Profile>)
      modifies this
      ensures State() == Authenticate(old(State()), sock, user)
    {
      if user.Some? {
        var p := user.value;
        userSockets := userSockets[sock := UserInfo(p.userId, p.username, p.displayName, None)];
      }
    }

    method OnJoinRoom(sock: SocketId, room: string)
      modifies this
      ensures State() == JoinRoom(old(State()), sock, room)
    {
      var known := sock in userSockets;
      if known && Truthy(userSockets[sock].currentRoom) {
        var info := userSockets[sock];
        var prev := info.currentRoom.value;
        rooms := rooms[sock := RoomsOf(rooms, sock) - {prev}];
        log := log + [NoticeFor(rooms, UserLeft, prev, sock, info)];
      }
      rooms := rooms[sock := RoomsOf(rooms, sock) + {room}];
      if known {
        var info := userSockets[sock].(currentRoom := Some(room));
        userSockets := userSockets[sock := info];
        log := log + [NoticeFor(rooms, UserJoined, room, sock, info)];
      }
    }

    method OnLeaveRoom(sock: SocketId, room: string)
      modifies this
      ensures State() == LeaveRoom(old(State()), sock, room)
    {
      rooms := rooms[sock := RoomsOf(rooms, sock) - {room}];
      if sock in userSockets && userSockets[sock].currentRoom == Some(room) {
        var info := userSockets[sock];
        userSockets := userSockets[sock := info.(currentRoom := None)];
        log := log + [NoticeFor(rooms, UserLeft, room, sock, info)];
      }
    }

    method OnDisconnect(sock: SocketId)
      modifies this
      ensures State() == Disconnect(old(State()), sock)
    {
      rooms := rooms - {sock};
      if sock in userSockets && Truthy(userSockets[sock].currentRoom) {
        var info := userSockets[sock];
        log := log + [NoticeFor(rooms, UserLeft, info.currentRoom.value, sock, info)];
      }
      userSockets := userSockets - {sock};
    }
  }
}
