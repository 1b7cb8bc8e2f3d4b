/**
 * The room metadata endpoints of the server (server/index.js:91-311 and
 * 341-485): create, rename and delete a room, share it and withdraw a share,
 * and the owner-or-shared access rule that gates the access check and the
 * two chat endpoints. The `rooms` collection is a sequence in insertion
 * order (so `findOne` is "the first match"); a room's `sharedWith` list is a
 * sequence of `{user, sharedBy}` entries. The authenticated caller
 * (`req.user._id`) is a parameter; the `users` collection appears only as
 * the result of the one lookup the share handler makes, and as the set of
 * user ids that still exist, which decides what `populate` turns into `null`.
 */
module Rooms {
  import opened Common
  import opened JsString
  import opened Filtering
  import Persistence

  type UserId = nat
  type RoomId = nat

  datatype Share = Share(user: UserId, sharedBy: UserId)

  datatype Room = Room(id: RoomId, name: string, owner: UserId, sharedWith: seq<Share>)

  /** An HTTP answer: a status with a result, or a status with `{error}`. */
  datatype Reply<T> = Success(status: nat, message: string, value: T) | Failure(status: nat, error: string)

  /** A handler's answer together with the collection it leaves behind. */
  datatype Outcome<T> = Outcome(reply: Reply<T>, rooms: seq<Room>)

  /** The body of the access check: `{hasAccess, room: hasAccess ? room : null}`. */
  datatype Access = Access(hasAccess: bool, room: Option<Room>)

  /** A chat message as the send handler builds it. */
  datatype ChatMessage = ChatMessage(roomName: string, user: UserId, message: string)

  /** `Room.findOne({name})`: the index of the first room with that name. */
  function FindByName(rooms: seq<Room>, name: string): (r: Option<nat>)
    ensures r.Some? ==> r.value < |rooms| && rooms[r.value].name == name
    ensures r.Some? ==> forall j :: 0 <= j < r.value ==> rooms[j].name != name
    ensures r.None? ==> forall j :: 0 <= j < |rooms| ==> rooms[j].name != name
    decreases |rooms|
  {
    if rooms == [] then None
    else if rooms[0].name == name then Some(0)
    else match FindByName(rooms[1..], name)
      case None => None
      case Some(i) => Some(i + 1)
  }

  /** `Room.findById(id)` */
  function FindById(rooms: seq<Room>, id: RoomId): (r: Option<nat>)
    ensures r.Some? ==> r.value < |rooms| && rooms[r.value].id == id
    ensures r.None? ==> forall j :: 0 <= j < |rooms| ==> rooms[j].id != id
    decreases |rooms|
  {
    if rooms == [] then None
    else if rooms[0].id == id then Some(0)
    else match FindById(rooms[1..], id)
      case None => None
      case Some(i) => Some(i + 1)
  }

  /**
   * The unpopulated test of the share handler and of the room list query
   * (`"sharedWith.user": userId`): some entry names the user.
   */
  predicate SharedWith(room: Room, user: UserId)
    ensures SharedWith(room, user) <==> exists e :: e in room.sharedWith && e.user == user
  {
    exists i :: 0 <= i < |room.sharedWith| && room.sharedWith[i].user == user
  }

  /**
   * The access rule, as computed on the populated room: the caller owns the
   * room, or some entry whose user still exists (populate turns a deleted
   * user into `null`, which the rule skips) is the caller.
   */
  predicate HasAccess(room: Room, user: UserId, existing: set<UserId>)
    ensures room.owner == user ==> HasAccess(room, user, existing)
    ensures HasAccess(room, user, existing) ==> room.owner == user || SharedWith(room, user)
  {
    || room.owner == user
    || exists i :: 0 <= i < |room.sharedWith| && room.sharedWith[i].user in existing
                   && room.sharedWith[i].user == user
  }

  /**
   * For a caller who exists (every authenticated caller does), the populated
   * rule and the room list's query `{$or: [{owner}, {"sharedWith.user"}]}`
   * (server/index.js:77-79) agree.
   */
  lemma AccessMatchesListQuery(room: Room, user: UserId, existing: set<UserId>)
    requires user in existing
    ensures HasAccess(room, user, existing) <==> room.owner == user || SharedWith(room, user)
  {
  }

  /** No user appears twice in a room's `sharedWith`. */
  predicate NoDuplicateShares(shares: seq<Share>) {
    forall i, j :: 0 <= i < j < |shares| ==> shares[i].user != shares[j].user
  }

  /** The invariant the handlers keep: ids and names unique, no duplicate shares. */
  ghost predicate WellFormed(rooms: seq<Room>) {
    && (forall i, j :: 0 <= i < j < |rooms| ==> rooms[i].id != rooms[j].id)
    && (forall i, j :: 0 <= i < j < |rooms| ==> rooms[i].name != rooms[j].name)
    && (forall i :: 0 <= i < |rooms| ==> NoDuplicateShares(rooms[i].sharedWith))
  }

  /** `POST /api/rooms` (server/index.js:92-117). */
  function CreateRoom(rooms: seq<Room>, newId: RoomId, caller: UserId, name: string): (o: Outcome<Room>)
    ensures o.reply.Failure? ==> o.rooms == rooms
    ensures name == "" ==> o.reply == Failure(400, "Room name is required")
    ensures name != "" && FindByName(rooms, name).Some? ==> o.reply == Failure(400, "Room name already exists")
    ensures o.reply.Success? <==> name != "" && forall j :: 0 <= j < |rooms| ==> rooms[j].name != name
    ensures o.reply.Success? ==>
              && o.reply.status == 201 && o.rooms == rooms + [o.reply.value]
              && o.reply.value == Room(newId, name, caller, [])
  {
    if name == "" then Outcome(Failure(400, "Room name is required"), rooms)
    else if FindByName(rooms, name).Some? then Outcome(Failure(400, "Room name already exists"), rooms)
    else
      var room := Room(newId, name, caller, []);
      Outcome(Success(201, "", room), rooms + [room])
  }

  /**
   * `PATCH /api/rooms/:roomName` (server/index.js:120-181): checks, in
   * order, a non-blank new name (400), no room already called the trimmed
   * name (400), the room exists (404) and the caller owns it (403); then
   * stores the trimmed name.
   */
  function RenameRoom(rooms: seq<Room>, caller: UserId, roomName: string, newName: string): (o: Outcome<Room>)
    ensures o.reply.Failure? ==> o.rooms == rooms
    ensures Blank(newName) ==> o.reply == Failure(400, "New name is required")
    ensures !Blank(newName) && FindByName(rooms, Trim(newName)).Some? ==>
              o.reply == Failure(400, "A room with that name already exists")
    ensures !Blank(newName) && FindByName(rooms, Trim(newName)).None? && FindByName(rooms, roomName).None? ==>
              o.reply == Failure(404, "Room not found")
    ensures !Blank(newName) && FindByName(rooms, Trim(newName)).None? && FindByName(rooms, roomName).Some?
            && rooms[FindByName(rooms, roomName).value].owner != caller ==>
              o.reply == Failure(403, "Only the owner can rename this room")
    ensures !Blank(newName) && FindByName(rooms, Trim(newName)).None? && FindByName(rooms, roomName).Some?
            && rooms[FindByName(rooms, roomName).value].owner == caller ==>
              o.reply.Success?
    ensures o.reply.Success? ==>
              && FindByName(rooms, roomName).Some?
              && var i := FindByName(rooms, roomName).value;
                 && rooms[i].owner == caller
                 && o.reply.value == rooms[i].(name := Trim(newName))
                 && o.rooms == rooms[i := o.reply.value]
                 && o.reply.value.name != ""
                 && FindByName(rooms, o.reply.value.name).None?
  {
    if Blank(newName) then Outcome(Failure(400, "New name is required"), rooms)
    else if FindByName(rooms, Trim(newName)).Some? then
      Outcome(Failure(400, "A room with that name already exists"), rooms)
    else match FindByName(rooms, roomName)
      case None => Outcome(Failure(404, "Room not found"), rooms)
      case Some(i) =>
        if rooms[i].owner != caller then Outcome(Failure(403, "Only the owner can rename this room"), rooms)
        else
          var room := rooms[i].(name := Trim(newName));
          Outcome(Success(200, "Room renamed", room), rooms[i := room])
  }

  /**
   * `DELETE /api/rooms/:roomName` (server/index.js:184-221): 404 for a
   * missing room, 403 for anyone but the owner, else the room is removed.
   * The success value is the removed room, which the caller needs to delete
   * its chat and Yjs records; the HTTP body itself is only
   * `{message: "Room deleted"}`.
   */
  function DeleteRoom(rooms: seq<Room>, caller: UserId, roomName: string): (o: Outcome<Room>)
    ensures o.reply.Failure? ==> o.rooms == rooms
    ensures FindByName(rooms, roomName).None? ==> o.reply == Failure(404, "Room not found")
    ensures FindByName(rooms, roomName).Some? && rooms[FindByName(rooms, roomName).value].owner != caller ==>
              o.reply == Failure(403, "Only the owner can delete this room")
    ensures FindByName(rooms, roomName).Some? && rooms[FindByName(rooms, roomName).value].owner == caller ==>
              o.reply.Success?
    ensures o.reply.Success? ==>
              && FindByName(rooms, roomName).Some?
              && var i := FindByName(rooms, roomName).value;
                 && rooms[i].owner == caller && o.reply.value == rooms[i]
                 && o.rooms == rooms[..i] + rooms[i + 1..]
  {
    match FindByName(rooms, roomName)
    case None => Outcome(Failure(404, "Room not found"), rooms)
    case Some(i) =>
      if rooms[i].owner != caller then Outcome(Failure(403, "Only the owner can delete this room"), rooms)
      else Outcome(Success(200, "Room deleted", rooms[i]), rooms[..i] + rooms[i + 1..])
  }

  /**
   * `POST /api/rooms/:roomName/share` (server/index.js:224-277). `target` is
   * what `User.findOne({username})` found. Checks, in order: a username is
   * given (400), the room exists (404), the caller owns it (403), the user
   * exists (404), the room is not already shared with the user (400); then
   * appends exactly one `{user, sharedBy}` entry.
   */
  function ShareRoom(rooms: seq<Room>, caller: UserId, roomName: string, username: string,
                     target: Option<UserId>): (o: Outcome<Room>)
    ensures o.reply.Failure? ==> o.rooms == rooms
    ensures username == "" ==> o.reply == Failure(400, "Username is required")
    ensures username != "" && FindByName(rooms, roomName).None? ==> o.reply == Failure(404, "Room not found")
    ensures username != "" && FindByName(rooms, roomName).Some?
            && rooms[FindByName(rooms, roomName).value].owner != caller ==>
              o.reply == Failure(403, "Only room owner can share the room")
    ensures username != "" && FindByName(rooms, roomName).Some?
            && rooms[FindByName(rooms, roomName).value].owner == caller && target.None? ==>
              o.reply == Failure(404, "User not found")
    ensures username != "" && FindByName(rooms, roomName).Some?
            && rooms[FindByName(rooms, roomName).value].owner == caller && target.Some?
            && SharedWith(rooms[FindByName(rooms, roomName).value], target.value) ==>
              o.reply == Failure(400, "Room already shared with this user")
    ensures username != "" && FindByName(rooms, roomName).Some?
            && rooms[FindByName(rooms, roomName).value].owner == caller && target.Some?
            && !SharedWith(rooms[FindByName(rooms, roomName).value], target.value) ==>
              o.reply.Success?
    ensures o.reply.Success? ==>
              && FindByName(rooms, roomName).Some? && target.Some?
              && var i := FindByName(rooms, roomName).value;
                 && rooms[i].owner == caller && !SharedWith(rooms[i], target.value)
                 && o.reply.value == rooms[i].(sharedWith := rooms[i].sharedWith + [Share(target.value, caller)])
                 && o.rooms == rooms[i := o.reply.value]
  {
    if username == "" then Outcome(Failure(400, "Username is required"), rooms)
    else match FindByName(rooms, roomName)
      case None => Outcome(Failure(404, "Room not found"), rooms)
      case Some(i) =>
        var room := rooms[i];
        if room.owner != caller then Outcome(Failure(403, "Only room owner can share the room"), rooms)
        else match target
          case None => Outcome(Failure(404, "User not found"), rooms)
          case Some(u) =>
            if SharedWith(room, u) then Outcome(Failure(400, "Room already shared with this user"), rooms)
            else
              var shared := room.(sharedWith := room.sharedWith + [Share(u, caller)]);
              Outcome(Success(200, "Room shared successfully", shared), rooms[i := shared])
  }

  /** The entries the remove-access filter keeps: those of any other user. */
  function Unshared(shares: seq<Share>, user: UserId): (r: seq<Share>)
    ensures forall i :: 0 <= i < |r| ==> r[i].user != user && r[i] in shares
    ensures forall i :: 0 <= i < |shares| && shares[i].user != user ==> shares[i] in r
    ensures (forall i :: 0 <= i < |shares| ==> shares[i].user != user) ==> r == shares
  {
    Filter(shares, (s: Share) => s.user != user)
  }

  /**
   * `DELETE /api/rooms/:roomId/share/:userId` (server/index.js:280-311):
   * 404 for a missing room, 403 for anyone but the owner, else every entry
   * for that user is dropped and the rest keep their order.
   */
  function RemoveAccess(rooms: seq<Room>, caller: UserId, roomId: RoomId, user: UserId): (o: Outcome<()>)
    ensures o.reply.Failure? ==> o.rooms == rooms
    ensures FindById(rooms, roomId).None? ==> o.reply == Failure(404, "Room not found")
    ensures FindById(rooms, roomId).Some? && rooms[FindById(rooms, roomId).value].owner != caller ==>
              o.reply == Failure(403, "Only room owner can remove access")
    ensures FindById(rooms, roomId).Some? && rooms[FindById(rooms, roomId).value].owner == caller ==>
              o.reply.Success?
    ensures o.reply.Success? ==>
              && FindById(rooms, roomId).Some?
              && var i := FindById(rooms, roomId).value;
                 && rooms[i].owner == caller
                 && o.rooms == rooms[i := rooms[i].(sharedWith := Unshared(rooms[i].sharedWith, user))]
                 && !SharedWith(o.rooms[i], user)
  {
    match FindById(rooms, roomId)
    case None => Outcome(Failure(404, "Room not found"), rooms)
    case Some(i) =>
      if rooms[i].owner != caller then Outcome(Failure(403, "Only room owner can remove access"), rooms)
      else
        var room := rooms[i].(sharedWith := Unshared(rooms[i].sharedWith, user));
        Outcome(Success(200, "Access removed successfully", ()), rooms[i := room])
  }

  /**
   * `GET /api/rooms/:roomName/access` (server/index.js:342-373). A room
   * whose owner no longer exists populates to a `null` owner, and reading
   * its id throws: the handler answers 500.
   */
  function CheckAccess(rooms: seq<Room>, existing: set<UserId>, caller: UserId, roomName: string)
    : (r: Reply<Access>)
    ensures FindByName(rooms, roomName).None? ==> r == Failure(404, "Room not found")
    ensures FindByName(rooms, roomName).Some? ==>
              (r.Success? <==> rooms[FindByName(rooms, roomName).value].owner in existing)
    ensures r.Failure? && r.status != 404 ==> r == Failure(500, "Error checking access")
    ensures r.Success? ==>
              && r.status == 200 && FindByName(rooms, roomName).Some?
              && var room := rooms[FindByName(rooms, roomName).value];
                 && room.owner in existing
                 && r.value.hasAccess == HasAccess(room, caller, existing)
                 && r.value.room == (if r.value.hasAccess then Some(room) else None)
  {
    match FindByName(rooms, roomName)
    case None => Failure(404, "Room not found")
    case Some(i) =>
      var room := rooms[i];
      if room.owner !in existing then Failure(500, "Error checking access")
      else
        var ok := HasAccess(room, caller, existing);
        Success(200, "", Access(ok, if ok then Some(room) else None))
  }

  /**
   * The gate of `GET /api/rooms/:roomName/messages` (server/index.js:378-422):
   * 404, then 500 for a deleted owner, then 403 without access. What it then
   * reads from the chat collection is not part of this model.
   */
  function ReadMessagesGate(rooms: seq<Room>, existing: set<UserId>, caller: UserId, roomName: string)
    : (r: Reply<Room>)
    ensures FindByName(rooms, roomName).None? ==> r == Failure(404, "Room not found")
    ensures r.Success? <==>
              && FindByName(rooms, roomName).Some?
              && rooms[FindByName(rooms, roomName).value].owner in existing
              && HasAccess(rooms[FindByName(rooms, roomName).value], caller, existing)
    ensures r.Failure? && r.status == 403 ==> r.error == "Access denied"
    ensures FindByName(rooms, roomName).Some? && rooms[FindByName(rooms, roomName).value].owner !in existing ==>
              r == Failure(500, "Failed to fetch messages")
    ensures FindByName(rooms, roomName).Some? && rooms[FindByName(rooms, roomName).value].owner in existing
            && !HasAccess(rooms[FindByName(rooms, roomName).value], caller, existing) ==>
              r == Failure(403, "Access denied")
  {
    match FindByName(rooms, roomName)
    case None => Failure(404, "Room not found")
    case Some(i) =>
      var room := rooms[i];
      if room.owner !in existing then Failure(500, "Failed to fetch messages")
      else if !HasAccess(room, caller, existing) then Failure(403, "Access denied")
      else Success(200, "", room)
  }

  /**
   * `POST /api/rooms/:roomName/messages` (server/index.js:425-485): a blank
   * message is refused (400) before anything is read; then 404, 500 for a
   * deleted owner, 403 without access; else the message is created. The
   * Message schema (server/models/Chat.js:4-8, 21-25) trims both `roomName`
   * and `message` and requires them, so a room whose name is all white space
   * fails the save, which the handler answers with 500.
   */
  function PostMessage(rooms: seq<Room>, existing: set<UserId>, caller: UserId, roomName: string,
                       message: string): (r: Reply<ChatMessage>)
    ensures Blank(message) ==> r == Failure(400, "Message is required")
    ensures !Blank(message) && FindByName(rooms, roomName).None? ==> r == Failure(404, "Room not found")
    ensures !Blank(message) && FindByName(rooms, roomName).Some?
            && rooms[FindByName(rooms, roomName).value].owner !in existing ==>
              r == Failure(500, "Failed to send message")
    ensures !Blank(message) && FindByName(rooms, roomName).Some?
            && rooms[FindByName(rooms, roomName).value].owner in existing
            && !HasAccess(rooms[FindByName(rooms, roomName).value], caller, existing) ==>
              r == Failure(403, "Access denied")
    ensures !Blank(message) && FindByName(rooms, roomName).Some?
            && rooms[FindByName(rooms, roomName).value].owner in existing
            && HasAccess(rooms[FindByName(rooms, roomName).value], caller, existing) && Blank(roomName) ==>
              r == Failure(500, "Failed to send message")
    ensures r.Success? <==>
              && !Blank(message) && FindByName(rooms, roomName).Some?
              && rooms[FindByName(rooms, roomName).value].owner in existing
              && HasAccess(rooms[FindByName(rooms, roomName).value], caller, existing)
              && !Blank(roomName)
    ensures r.Success? ==>
              && r.status == 201 && r.value == ChatMessage(Trim(roomName), caller, Trim(message))
              && r.value.roomName != "" && r.value.message != ""
  {
    if Blank(message) then Failure(400, "Message is required")
    else match FindByName(rooms, roomName)
      case None => Failure(404, "Room not found")
      case Some(i) =>
        var room := rooms[i];
        if room.owner !in existing then Failure(500, "Failed to send message")
        else if !HasAccess(room, caller, existing) then Failure(403, "Access denied")
        else if Blank(roomName) then Failure(500, "Failed to send message")
        else Success(201, "", ChatMessage(Trim(roomName), caller, Trim(message)))
  }

  /** A successful share keeps the collection well formed. */
  lemma {:induction false} ShareKeepsWellFormed(rooms: seq<Room>, caller: UserId, roomName: string,
                                                username: string, target: Option<UserId>)
    requires WellFormed(rooms)
    ensures WellFormed(ShareRoom(rooms, caller, roomName, username, target).rooms)
  {
    var o := ShareRoom(rooms, caller, roomName, username, target);
    if o.reply.Success? {
      var i := FindByName(rooms, roomName).value;
      var s := o.rooms[i].sharedWith;
      forall a, b | 0 <= a < b < |s| ensures s[a].user != s[b].user {
        if b == |s| - 1 {
          assert s[a] == rooms[i].sharedWith[a];
        } else {
          assert s[a] == rooms[i].sharedWith[a] && s[b] == rooms[i].sharedWith[b];
        }
      }
    }
  }

  /** Dropping entries never introduces a duplicate. */
  lemma {:induction false} UnsharedKeepsNoDuplicates(shares: seq<Share>, user: UserId)
    requires NoDuplicateShares(shares)
    ensures NoDuplicateShares(Unshared(shares, user))
    decreases |shares|
  {
    if shares != [] {
      var keep := (s: Share) => s.user != user;
      UnsharedKeepsNoDuplicates(shares[1..], user);
      assert Filter(shares, keep) == (if keep(shares[0]) then [shares[0]] else []) + Filter(shares[1..], keep);
      var rest := Filter(shares[1..], keep);
      forall k | 0 <= k < |rest| ensures rest[k].user != shares[0].user {
        assert rest[k] in shares[1..];
      }
    }
  }

  /** A successful withdrawal keeps the collection well formed. */
  lemma RemoveAccessKeepsWellFormed(rooms: seq<Room>, caller: UserId, roomId: RoomId, user: UserId)
    requires WellFormed(rooms)
    ensures WellFormed(RemoveAccess(rooms, caller, roomId, user).rooms)
  {
    var o := RemoveAccess(rooms, caller, roomId, user);
    if o.reply.Success? {
      var i := FindById(rooms, roomId).value;
      UnsharedKeepsNoDuplicates(rooms[i].sharedWith, user);
    }
  }

  /** Replacing one room by one with the same id, a free name and no duplicate shares keeps the invariant. */
  lemma ReplaceKeepsWellFormed(rooms: seq<Room>, i: nat, room: Room)
    requires WellFormed(rooms) && i < |rooms|
    requires room.id == rooms[i].id && NoDuplicateShares(room.sharedWith)
    requires room.name == rooms[i].name || forall j :: 0 <= j < |rooms| ==> rooms[j].name != room.name
    ensures WellFormed(rooms[i := room])
  {
  }

  /** A renamed room's stored name is already trimmed: trimming it again changes nothing. */
  lemma RenameStoresTrimmedName(rooms: seq<Room>, caller: UserId, roomName: string, newName: string)
    ensures var o := RenameRoom(rooms, caller, roomName, newName);
            o.reply.Success? ==> Trim(o.reply.value.name) == o.reply.value.name
  {
    TrimIdempotent(newName);
  }

  /** A successful rename keeps names unique: the new name was checked free. */
  lemma RenameKeepsWellFormed(rooms: seq<Room>, caller: UserId, roomName: string, newName: string)
    requires WellFormed(rooms)
    ensures WellFormed(RenameRoom(rooms, caller, roomName, newName).rooms)
  {
    var o := RenameRoom(rooms, caller, roomName, newName);
    if o.reply.Success? {
      ReplaceKeepsWellFormed(rooms, FindByName(rooms, roomName).value, o.reply.value);
    }
  }

  /** A rename keeps every id, so every id stays below a bound it was under. */
  lemma RenameKeepsIdsBelow(rooms: seq<Room>, caller: UserId, roomName: string, newName: string, bound: RoomId)
    requires forall j :: 0 <= j < |rooms| ==> rooms[j].id < bound
    ensures var r := RenameRoom(rooms, caller, roomName, newName).rooms;
            forall j :: 0 <= j < |r| ==> r[j].id < bound
  {
    var o := RenameRoom(rooms, caller, roomName, newName);
    if o.reply.Success? {
      var i := FindByName(rooms, roomName).value;
      assert forall j :: 0 <= j < |rooms| ==> o.rooms[j].id == rooms[j].id;
    }
  }

  /** A successful create keeps ids and names unique when the id is new. */
  lemma CreateKeepsWellFormed(rooms: seq<Room>, newId: RoomId, caller: UserId, name: string)
    requires WellFormed(rooms)
    requires forall j :: 0 <= j < |rooms| ==> rooms[j].id != newId
    ensures WellFormed(CreateRoom(rooms, newId, caller, name).rooms)
  {
  }

  /** Deleting a room keeps the collection well formed. */
  lemma DeleteKeepsWellFormed(rooms: seq<Room>, caller: UserId, roomName: string)
    requires WellFormed(rooms)
    ensures WellFormed(DeleteRoom(rooms, caller, roomName).rooms)
  {
    var o := DeleteRoom(rooms, caller, roomName);
    if o.reply.Success? {
      var i := FindByName(rooms, roomName).value;
      assert forall j :: 0 <= j < |o.rooms| ==> o.rooms[j] == rooms[if j < i then j else j + 1];
    }
  }

  /** After a successful share the new user has access, whoever else had it. */
  lemma ShareGrantsAccess(rooms: seq<Room>, caller: UserId, roomName: string, username: string,
                          u: UserId, existing: set<UserId>)
    requires u in existing
    requires ShareRoom(rooms, caller, roomName, username, Some(u)).reply.Success?
    ensures var o := ShareRoom(rooms, caller, roomName, username, Some(u));
            HasAccess(o.rooms[FindByName(rooms, roomName).value], u, existing)
  {
    var o := ShareRoom(rooms, caller, roomName, username, Some(u));
    var i := FindByName(rooms, roomName).value;
    assert o.rooms[i].sharedWith[|o.rooms[i].sharedWith| - 1].user == u;
  }

  /** After a withdrawal, a user who does not own the room has lost access to it. */
  lemma RemoveAccessRevokes(rooms: seq<Room>, caller: UserId, roomId: RoomId, u: UserId, existing: set<UserId>)
    requires RemoveAccess(rooms, caller, roomId, u).reply.Success?
    requires rooms[FindById(rooms, roomId).value].owner != u
    ensures !HasAccess(RemoveAccess(rooms, caller, roomId, u).rooms[FindById(rooms, roomId).value], u, existing)
  {
  }

  /** The same conflict check fires even for a non-owner, before ownership is looked at. */
  lemma ConflictBeforeOwnership(rooms: seq<Room>, stranger: UserId, roomName: string, newName: string)
    requires !Blank(newName) && FindByName(rooms, Trim(newName)).Some?
    ensures RenameRoom(rooms, stranger, roomName, newName).reply == Failure(400, "A room with that name already exists")
  {
  }

  /** The `rooms` collection, changed in place by the handlers. */
  class RoomStore {
    var rooms: seq<Room>
    var nextId: RoomId

    ghost predicate Valid()
      reads this
    {
      WellFormed(rooms) && forall j :: 0 <= j < |rooms| ==> rooms[j].id < nextId
    }

    constructor ()
      ensures Valid() && rooms == []
    {
      rooms, nextId := [], 0;
    }

    method Create(caller: UserId, name: string) returns (reply: Reply<Room>)
      requires Valid()
      modifies this
      ensures Valid()
      ensures var o := CreateRoom(old(rooms), old(nextId), caller, name);
              reply == o.reply && rooms == o.rooms
      ensures nextId == if reply.Success? then old(nextId) + 1 else old(nextId)
    {
      if name == "" {
        return Failure(400, "Room name is required");
      }
      if FindByName(rooms, name).Some? {
        return Failure(400, "Room name already exists");
      }
      var room := Room(nextId, name, caller, []);
      CreateKeepsWellFormed(rooms, nextId, caller, name);
      rooms := rooms + [room];
      nextId := nextId + 1;
      reply := Success(201, "", room);
    }

    /**
     * The rename handler, with the move of the room's Yjs record to the new
     * name; `docFault` is a failure of that move, which is only logged. The
     * move is the intended one (`Persistence.Moved`), not the one written
     * (`Persistence.Rekeyed`), which can leave the renamed room reading a
     * leftover record.
     */
    method Rename(caller: UserId, roomName: string, newName: string, docs: Persistence.DocStore, docFault: bool)
      returns (reply: Reply<Room>)
      requires Valid()
      modifies this, docs
      ensures Valid() && nextId == old(nextId)
      ensures var o := RenameRoom(old(rooms), caller, roomName, newName);
              reply == o.reply && rooms == o.rooms
      ensures reply.Failure? ==> docs.records == old(docs.records)
      ensures reply.Success? ==>
                docs.records == Persistence.Moved(old(docs.records), roomName, reply.value.name, docFault)
      ensures reply.Success? && !docFault ==>
                Persistence.StoredState(docs.records, reply.value.name) == Persistence.StoredState(old(docs.records), roomName)
    {
      RenameKeepsWellFormed(rooms, caller, roomName, newName);
      RenameKeepsIdsBelow(rooms, caller, roomName, newName, nextId);
      ghost var o := RenameRoom(rooms, caller, roomName, newName);
      if Blank(newName) {
        return Failure(400, "New name is required");
      }
      var trimmed := Trim(newName);
      if FindByName(rooms, trimmed).Some? {
        return Failure(400, "A room with that name already exists");
      }
      var found := FindByName(rooms, roomName);
      if found.None? {
        return Failure(404, "Room not found");
      }
      var i := found.value;
      if rooms[i].owner != caller {
        return Failure(403, "Only the owner can rename this room");
      }
      var oldName := rooms[i].name;
      assert o.reply == Success(200, "Room renamed", rooms[i].(name := trimmed));
      rooms := rooms[i := rooms[i].(name := trimmed)];
      docs.Move(oldName, trimmed, docFault);
      reply := Success(200, "Room renamed", rooms[i]);
    }

    /** The delete handler, with the deletion of the room's Yjs record. */
    method Delete(caller: UserId, roomName: string, docs: Persistence.DocStore, docFault: bool)
      returns (reply: Reply<Room>)
      requires Valid()
      modifies this, docs
      ensures Valid() && nextId == old(nextId)
      ensures var o := DeleteRoom(old(rooms), caller, roomName);
              reply == o.reply && rooms == o.rooms
      ensures reply.Failure? || docFault ==> docs.records == old(docs.records)
      ensures reply.Success? && !docFault ==> docs.records == old(docs.records) - {reply.value.name}
    {
      DeleteKeepsWellFormed(rooms, caller, roomName);
      var found := FindByName(rooms, roomName);
      if found.None? {
        return Failure(404, "Room not found");
      }
      var i := found.value;
      if rooms[i].owner != caller {
        return Failure(403, "Only the owner can delete this room");
      }
      var room := rooms[i];
      rooms := rooms[..i] + rooms[i + 1..];
      docs.Delete(room.name, docFault);
      reply := Success(200, "Room deleted", room);
    }

    method ShareWith(caller: UserId, roomName: string, username: string, target: Option<UserId>)
      returns (reply: Reply<Room>)
      requires Valid()
      modifies this
      ensures Valid() && nextId == old(nextId)
      ensures var o := ShareRoom(old(rooms), caller, roomName, username, target);
              reply == o.reply && rooms == o.rooms
    {
      ShareKeepsWellFormed(rooms, caller, roomName, username, target);
      if username == "" {
        return Failure(400, "Username is required");
      }
      var found := FindByName(rooms, roomName);
      if found.None? {
        return Failure(404, "Room not found");
      }
      var i := found.value;
      if rooms[i].owner != caller {
        return Failure(403, "Only room owner can share the room");
      }
      if target.None? {
        return Failure(404, "User not found");
      }
      if SharedWith(rooms[i], target.value) {
        return Failure(400, "Room already shared with this user");
      }
      rooms := rooms[i := rooms[i].(sharedWith := rooms[i].sharedWith + [Share(target.value, caller)])];
      reply := Success(200, "Room shared successfully", rooms[i]);
    }

    method Unshare(caller: UserId, roomId: RoomId, user: UserId) returns (reply: Reply<()>)
      requires Valid()
      modifies this
      ensures Valid() && nextId == old(nextId)
      ensures var o := RemoveAccess(old(rooms), caller, roomId, user);
              reply == o.reply && rooms == o.rooms
    {
      RemoveAccessKeepsWellFormed(rooms, caller, roomId, user);
      var found := FindById(rooms, roomId);
      if found.None? {
        return Failure(404, "Room not found");
      }
      var i := found.value;
      if rooms[i].owner != caller {
        return Failure(403, "Only room owner can remove access");
      }
      rooms := rooms[i := rooms[i].(sharedWith := Unshared(rooms[i].sharedWith, user))];
      reply := Success(200, "Access removed successfully", ());
    }
  }
}
