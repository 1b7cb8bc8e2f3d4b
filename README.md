# codocs core, modelled in Dafny

codocs is a collaborative code editor: users register and log in, create
rooms, share them with other users, edit one shared document per room over a
Yjs WebSocket connection, chat in the room and see who joins and leaves. The
document merge itself happens inside Yjs and y-websocket; this project models
the logic the repository wraps around that engine, one module per component:

- `UpgradeListener` — the HTTP `upgrade` listener that splits one port between
  Socket.IO and the Yjs WebSocket server (the opening handshake of section 4.1
  of RFC 6455 is only classified, never carried out).
- `Persistence` — the y-websocket persistence adapter over the `ydocs`
  collection, a map from room name to encoded state; Yjs documents are an
  abstract type with `encodeStateAsUpdate`/`applyUpdate` passed in.
- `Presence` — the Socket.IO `userSockets` map and the `authenticate`,
  `joinRoom`, `leaveRoom` and `disconnect` handlers, with the `userJoined` /
  `userLeft` broadcasts kept as an output log that records each notice's
  recipients.
- `Rooms` — room creation, rename, deletion, sharing and withdrawal of a
  share, the owner-or-shared access rule and the chat endpoints' gates.
- `ApiConfig` — the client's API and WebSocket address derivation.
- `Notifications` — the client's toast queue and its three-entry window.
- `UserModel` and `AuthRoutes` — the user schema with its setters,
  validators and password hook, and the register and login handlers.
- `JsString`, `Filtering`, `Common` — the JavaScript string built-ins and
  `Array.prototype.filter` the handlers rely on (`trim` with the full
  ECMAScript white-space set, `toLowerCase`, `startsWith`, `replace`,
  `split("?")[0]`), and an `Option` type.

Each stateful component is a class whose methods are proved to produce the
state a pure function of the old state describes; the properties are proved
about those functions. Database calls and other foreign calls are
parameters: a `fault` flag for a failing database operation, a lookup result
for a query into a collection that is not modelled, and function-typed
parameters for bcrypt and Yjs.

## Model

| member | source | states |
|---|---|---|
| UpgradeListener.CleanPath | server/index.js:655 | the clean path is a prefix of the request-target without `?`, and the target continues with `?` where it stops |
| UpgradeListener.IsRoomPath | server/index.js:659-660 | a room path starts with `/` and does not start with `/socket.io/` |
| UpgradeListener.Classify | server/index.js:641-679 | exactly one outcome per request: declined iff the raw URL starts with `/socket.io/`; upgraded with the clean path iff not declined and the clean path starts with `/`; destroyed otherwise |
| UpgradeListener.CleanPathKeepsPrefix | server/index.js:655-660 | a clean path starting with `/socket.io/` implies the raw URL does, so the second half of `isRoomPath` never rejects a request |
| UpgradeListener.SocketIoNeverReachesYjs | server/index.js:647-650 | a request under `/socket.io/` is never handed to the Yjs server |
| UpgradeListener.QueryIgnored | server/index.js:655-666 | adding a query string to a path leaves the clean path and whether the request is upgraded unchanged |
| UpgradeListener.SocketIoExample | server/index.js:647-650 | `/socket.io/?EIO=4` is declined |
| UpgradeListener.RoomExample | server/index.js:655-673 | `/demo?t=1` is upgraded as `/demo` |
| UpgradeListener.BareSocketIoExample | server/index.js:647-673 | `/socket.io` without the trailing slash goes to the Yjs server |
| UpgradeListener.DestroyedExample | server/index.js:676-678 | a request-target without a leading `/` is destroyed |
| Persistence.Upsert | server/index.js:619-623 | the upsert leaves exactly one record for the room, holding the new state, and every other room's record as it was |
| Persistence.StoredState | server/index.js:591-592 | state is loaded exactly when the room's record exists and is non-empty, and it is that record |
| Persistence.Bound | server/index.js:587-609 | the document is changed only by applying the stored state; a failed read, a missing or empty record or a rejected update leave it as it was |
| Persistence.WriteThenBind | server/index.js:587-631 | after `writeState` stores a document's encoding, a later `bindState` applies exactly those bytes (nothing if empty), whatever other rooms are written in between |
| Persistence.UpsertAll | server/index.js:611-631 | a run of writes leaves the old rooms plus every written room |
| Persistence.DocStore.WriteState | server/index.js:611-631 | a write upserts the encoded state, even an empty one; a failed write changes nothing |
| Persistence.DocStore.BindState | server/index.js:587-609 | reads only, and yields what `Bound` says |
| Persistence.DocStore.Rekey | server/index.js:153-162 | the rename handler's move as written: the records become `Rekeyed` of the old ones (nothing moves on a failure, a missing or empty record, or a taken new name) |
| Persistence.DocStore.Move | server/index.js:153-162 | the move as intended: the records become `Moved` of the old ones |
| Persistence.DocStore.Delete | server/index.js:202-207 | removes the room's record; a failure changes nothing |
| Persistence.Rekeyed | server/index.js:153-162 | as written: the record moves only when it is non-empty and the new name has no record; otherwise nothing changes |
| Persistence.RekeyOntoLeftoverRecord | server/index.js:153-162 | with records `a: [1]` and a leftover `b: [2]`, the move as written leaves `b` loading `[2]` and `a` still loading `[1]`, while the intended move makes `b` load `[1]` |
| Persistence.Moved | server/index.js:153-162 | as intended: the new name loads exactly what the old name did, the old name keeps nothing, other rooms are untouched |
| Persistence.MovedAgreesWhenFree | server/index.js:153-162 | when the new name is free and the record non-empty, the intended move and the written one coincide |
| Presence.ShownName | server/index.js:530-531 | `displayName \|\| username`: the display name when it is non-empty, else the username; empty only when both are (also server/index.js:541-542, 558-559 and 572-573) |
| Presence.NoticeFor | server/index.js:529-532 | a notice reaches every socket in the room except the sender |
| Presence.Authenticate | server/index.js:497-519 | a verified user gets a fresh entry with no current room; a failed verification or unknown user changes nothing; no notice |
| Presence.JoinRoom | server/index.js:522-547 | the whole new rooms map: the socket's rooms gain the room and, for an authenticated socket, lose a truthy previous room, and nothing else changes; an anonymous socket sends nothing; an authenticated one sends `userLeft` to the previous room's remaining members, takes the room as current and sends `userJoined` to the room's other members |
| Presence.LeaveRoom | server/index.js:550-564 | the whole new rooms map: the socket's rooms lose exactly that room and nothing else changes; only when it was the current room is it cleared and `userLeft` sent to the room's remaining members |
| Presence.Disconnect | server/index.js:566-579 | the entry and the socket's rooms are removed; `userLeft` goes to the remaining members of the current room exactly when that room was truthy |
| Presence.AuthenticateKeepsConsistent | server/index.js:497-519 | authentication keeps every current room a room the socket is in |
| Presence.JoinRoomKeepsConsistent | server/index.js:522-547 | joining keeps every current room a room the socket is in |
| Presence.LeaveRoomKeepsConsistent | server/index.js:550-564 | leaving keeps every current room a room the socket is in |
| Presence.DisconnectKeepsConsistent | server/index.js:566-579 | disconnecting keeps every current room a room the socket is in |
| Presence.JoinMoveDisconnect | server/index.js:522-579 | join `a`, join `b`, disconnect yields exactly joined `a`, left `a`, joined `b`, left `b` |
| Presence.AnonymousIsSilent | server/index.js:522-579 | a socket that never authenticated sends no notice on join, leave or disconnect |
| Presence.PresenceServer.OnAuthenticate | server/index.js:497-519 | the server's state becomes `Authenticate` of the old state |
| Presence.PresenceServer.OnJoinRoom | server/index.js:522-547 | the server's state becomes `JoinRoom` of the old state |
| Presence.PresenceServer.OnLeaveRoom | server/index.js:550-564 | the server's state becomes `LeaveRoom` of the old state |
| Presence.PresenceServer.OnDisconnect | server/index.js:566-579 | the server's state becomes `Disconnect` of the old state |
| Rooms.FindByName | server/index.js:137 | the first room with the name, or none has it |
| Rooms.FindById | server/index.js:287 | a room with the id, or none has it |
| Rooms.SharedWith | server/index.js:252-255 | `alreadyShared`: some entry of the room's `sharedWith` names the user, whatever its position |
| Rooms.HasAccess | server/index.js:353-366 | the owner always has access, and anyone else only through a `sharedWith` entry naming them |
| Rooms.AccessMatchesListQuery | server/index.js:77-79 | for an existing caller, the populated access rule of server/index.js:353-366 agrees with the room list's owner-or-shared query |
| Rooms.CreateRoom | server/index.js:92-117 | 400 for a missing name, 400 for a taken name, else exactly one new unshared room owned by the caller is appended |
| Rooms.RenameRoom | server/index.js:120-181 | in order 400 blank name, 400 trimmed name taken, 404 missing room, 403 not owner, and success whenever all four checks pass; on success only the room's name changes, to the trimmed, non-empty new name, which no room had |
| Rooms.DeleteRoom | server/index.js:184-221 | 404 missing room, 403 not owner, success whenever the room exists and the caller owns it, and then exactly that room is removed |
| Rooms.ShareRoom | server/index.js:224-277 | in order 400 no username, 404 missing room, 403 not owner, 404 unknown user, 400 already shared, and success whenever all five checks pass; on success the room is answered with exactly one `{user: target, sharedBy: caller}` entry appended, and only that room changes |
| Rooms.Unshared | server/index.js:300-302 | no entry for the user is left, every entry of another user is kept, and a user without entries changes nothing |
| Rooms.RemoveAccess | server/index.js:280-311 | 404 missing room, 403 not owner, success whenever the room exists and the caller owns it, and then every entry of the user is dropped and the rest kept |
| Rooms.CheckAccess | server/index.js:342-373 | 404 missing room; for an existing room, success exactly when its owner still exists, else 500 "Error checking access"; a success carries the access rule's verdict and the room exactly when it grants access |
| Rooms.ReadMessagesGate | server/index.js:378-422 | messages are read iff the room exists, its owner still exists and the caller has access; each refusal is pinned: 404 "Room not found", 500 "Failed to fetch messages" for a deleted owner, 403 "Access denied" |
| Rooms.PostMessage | server/index.js:425-485 | a blank message is refused first with 400; for a non-blank one each refusal is pinned: 404 "Room not found", 500 "Failed to send message" for a deleted owner, 403 "Access denied"; a room name that is all white space fails the Message schema's `required` after its `trim` setter (server/models/Chat.js:4-8) and gets 500 "Failed to send message"; a message is created iff none of these applies, and it stores the trimmed room name and the trimmed message, both non-empty |
| Rooms.ShareKeepsWellFormed | server/index.js:252-267 | sharing never puts the same user twice in a room's `sharedWith` |
| Rooms.UnsharedKeepsNoDuplicates | server/index.js:300-302 | dropping a user's entries never creates a duplicate |
| Rooms.RemoveAccessKeepsWellFormed | server/index.js:280-311 | withdrawal keeps room ids and names unique and shares duplicate-free |
| Rooms.RenameKeepsWellFormed | server/index.js:129-151 | the conflict check keeps room names unique across a rename |
| Rooms.RenameStoresTrimmedName | server/index.js:150 | the stored name of a renamed room is already trimmed |
| Rooms.RenameKeepsIdsBelow | server/index.js:120-181 | a rename keeps every room id, so ids stay below the next one to be issued |
| Rooms.ReplaceKeepsWellFormed | server/index.js:148-151 | replacing a room by one with the same id, duplicate-free shares and its own or an unused name keeps the collection well formed |
| Rooms.CreateKeepsWellFormed | server/index.js:100-109 | creation with a fresh id keeps ids and names unique |
| Rooms.DeleteKeepsWellFormed | server/index.js:184-200 | deletion keeps the collection well formed |
| Rooms.ShareGrantsAccess | server/index.js:264-267 | after a successful share the target user has access |
| Rooms.RemoveAccessRevokes | server/index.js:299-302 | after a withdrawal a user who does not own the room has no access |
| Rooms.ConflictBeforeOwnership | server/index.js:129-147 | the name-conflict answer is given to anyone, owner or not |
| Rooms.RoomStore.Create | server/index.js:92-117 | answers and changes the collection as `CreateRoom` says, keeping it well formed; the id counter advances by one exactly on success |
| Rooms.RoomStore.Rename | server/index.js:120-181 | answers and changes the collection as `RenameRoom` says; on success moves the room's Yjs record as intended (`Moved`, not the `Rekeyed` of the code as written), so the new name loads what the old one did |
| Rooms.RoomStore.Delete | server/index.js:184-221 | answers as `DeleteRoom`; on success the room's Yjs record is deleted unless that fails |
| Rooms.RoomStore.ShareWith | server/index.js:224-277 | answers and changes the collection as `ShareRoom` says, keeping it well formed |
| Rooms.RoomStore.Unshare | server/index.js:280-311 | answers and changes the collection as `RemoveAccess` says, keeping it well formed |
| ApiConfig.Development | client/src/config/api.js:9 | the development test holds when the mode is `development` or the `DEV` flag is set, and only then; the same test guards the WebSocket URL at client/src/config/api.js:25 |
| ApiConfig.GetApiUrl | client/src/config/api.js:2-16 | a set `VITE_API_URL` verbatim whatever the mode, else the local server in development, else the window origin |
| ApiConfig.WebSocketFromApi | client/src/config/api.js:31-38 | `https://` becomes `wss://` and `http://` becomes `ws://` with the same remainder; anything else gets `wss://` in front |
| ApiConfig.GetWebSocketUrl | client/src/config/api.js:18-39 | a set `VITE_WS_URL` verbatim, else the local server in development, else the address derived from the API address |
| ApiConfig.WebSocketSchemeWithoutOverride | client/src/config/api.js:25-38 | without `VITE_WS_URL` the address always starts with `ws://` or `wss://` |
| ApiConfig.SchemeRewriteInvertible | client/src/config/api.js:32-37 | the scheme rewrite keeps the rest, so the API address is recoverable |
| ApiConfig.DevelopmentIgnoresApiUrl | client/src/config/api.js:20-27 | in development only `VITE_WS_URL` changes the WebSocket address |
| Notifications.MakeNotification | client/src/components/NotificationManager.jsx:8-10 | a missing type defaults to "info" and a missing duration to 3000 |
| Notifications.WithoutId | client/src/components/NotificationManager.jsx:17-21 | no entry with the id is left, every other entry is kept, and an absent id leaves the list unchanged |
| Notifications.Window | client/src/components/NotificationManager.jsx:28 | at most three entries are shown, and they are the first ones |
| Notifications.WithoutIdConcat | client/src/components/NotificationManager.jsx:17-21 | removal works piece by piece, so the remaining entries keep their order |
| Notifications.AddThenRemove | client/src/components/NotificationManager.jsx:7-21 | removing a just-added entry with a new id restores the list |
| Notifications.AddBehindFullWindow | client/src/components/NotificationManager.jsx:12-28 | an entry added behind a full window does not change what is shown |
| Notifications.CloseFirstSlidesWindow | client/src/components/NotificationManager.jsx:17-34 | closing the first of several shown entries brings the fourth into view |
| Notifications.NotificationManager.AddNotification | client/src/components/NotificationManager.jsx:7-15 | exactly one entry is appended and the earlier ones are unchanged |
| Notifications.NotificationManager.RemoveNotification | client/src/components/NotificationManager.jsx:17-21 | the list becomes `WithoutId` of the old one |
| Notifications.NotificationManager.Rendered | client/src/components/NotificationManager.jsx:28 | the first entries of the list: three when there are at least three, all of them when fewer |
| UserModel.LowerIdempotent | server/models/User.js:10 | lower-casing twice is lower-casing once |
| UserModel.NormalizeName | server/models/User.js:17 | the `trim` setter of `username` (and of `displayName`, server/models/User.js:30): never longer than its input, and empty exactly when the input is all white space |
| UserModel.NormalizeEmail | server/models/User.js:10-11 | the stored email is no longer than the input and empty exactly when the input is blank |
| UserModel.NormalizedEmailIsFixpoint | server/models/User.js:6-12 | a stored email is already trimmed and lower-case, so querying with it finds it |
| UserModel.Build | server/models/User.js:4-51 | email trimmed and lower-cased, names trimmed, no Google id, `authMethod` "local" |
| UserModel.PasswordRequired | server/models/User.js:23-25 | the password is required exactly when the Google id is missing or empty |
| UserModel.PasswordOptionalWithGoogleId | server/models/User.js:23-25 | with a Google id set, a user validates with or without a password |
| UserModel.SchemaValid | server/models/User.js:6-51 | a valid user has a non-empty email, a username of at least three characters and, without a Google id, a non-empty password |
| UserModel.SaveHook | server/models/User.js:59-75 | untouched when the password is unmodified or the user not local; otherwise aborted with `PasswordTooShort` exactly for a non-empty password under six characters, aborted with `HashFailed` exactly for a missing one, and else let through with only the password replaced by its hash |
| UserModel.ValidatedLocalPasswordsAreLong | server/models/User.js:21-66 | after validation, a local user's hashed password always had at least six characters |
| UserModel.UserDocument.PreSave | server/models/User.js:59-75 | aborts with the hook's error leaving the document as it was, or leaves it as the hook's result |
| AuthRoutes.Public | server/routes/auth.js:43-48 | the answered user carries id, email, username and display name, and no password |
| AuthRoutes.Taken | server/routes/auth.js:15-17 | the `$or` query finds a user whenever the email alone does, so a free pair implies no user has the email |
| AuthRoutes.FindByEmail | server/routes/auth.js:62 | the first user with the normalised email, or none has it |
| AuthRoutes.RegisterReply | server/routes/auth.js:10-54 | 500 on a database failure, 400 when email or username is taken, 500 whenever it fails for a database fault or with neither taken (validation or the hook refused); success iff none of these, appending exactly one user and answering 201 with its public fields |
| AuthRoutes.LoginReply | server/routes/auth.js:57-92 | 500 on a database failure; 401 "Invalid credentials" for an unknown email; for a known email with a stored hash, success exactly when the password matches it, else 401 "Invalid credentials"; 500 when the user has no stored hash |
| AuthRoutes.LoginFailuresIndistinguishable | server/routes/auth.js:62-71 | an unknown email and a wrong password get identical answers |
| AuthRoutes.RegisterKeepsUnique | server/routes/auth.js:15-33 | registration keeps emails and usernames unique |
| AuthRoutes.RegisteredUserIsValid | server/routes/auth.js:26-33 | the stored user has a normalised email, a username of 3 to 20 characters, local auth and the hash of a password of at least six characters |
| AuthRoutes.RegisterThenLogin | server/routes/auth.js:10-92 | logging in right after registering with the same email and password succeeds for the same user |
| AuthRoutes.UserCollection.Register | server/routes/auth.js:10-54 | answers and changes the collection as `RegisterReply` says, keeping accounts unique |
| AuthRoutes.UserCollection.Login | server/routes/auth.js:57-92 | changes nothing and answers as `LoginReply` says |
| Common.Truthy | client/src/config/api.js:4 | JavaScript truthiness of a possibly missing string (also api.js:20 and the `currentRoom` tests at server/index.js:526 and 570): false exactly for `null`/`undefined` and for `""` |
| JsString.StartsWith | client/src/config/api.js:32 | `s.startsWith(p)` (also api.js:35 and server/index.js:647, 659-660): `s` is `p` followed by the rest of `s` |
| JsString.StartsWithIsPrefix | client/src/config/api.js:32 | `s.startsWith(p)` holds exactly when `s` is `p` with some string appended |
| JsString.Blank | server/index.js:125 | the test `!x \|\| !x.trim()` (also server/index.js:434): every character of the string is ECMAScript white space |
| JsString.Trim | server/index.js:125 | no longer than the input, and empty exactly when the input is all white space |
| JsString.TrimFacts | server/index.js:125 | the trimmed string is the slice of the input between its leading and trailing white space: both margins are blank and neither end of the result is white space |
| JsString.TrimStart | server/index.js:125 | a suffix of the input whose dropped prefix is all white space and which does not start with white space |
| JsString.TrimEnd | server/index.js:125 | a prefix of the input whose dropped suffix is all white space and which does not end with white space |
| JsString.TrimIdempotent | server/index.js:150 | trimming a trimmed name changes nothing |
| JsString.LowerTrimCommute | server/models/User.js:10-11 | lower-casing and trimming commute |
| JsString.ToLower | server/models/User.js:10 | keeps the length |
| JsString.LowerResult | server/models/User.js:10 | lower-casing turns each ASCII capital into its own small letter, leaves no ASCII capital and changes nothing else |
| JsString.LowerExample | server/models/User.js:10 | `"Alice@X.com"` is stored as `"alice@x.com"`, and two spellings differing only in case are stored alike |
| JsString.TrimStartLower | server/models/User.js:10-11 | trimming the start and lower-casing commute |
| JsString.TrimEndLower | server/models/User.js:10-11 | trimming the end and lower-casing commute |
| JsString.IndexOf | client/src/config/api.js:33 | the first position of the pattern, or it occurs nowhere |
| JsString.ReplaceFirst | client/src/config/api.js:33-36 | a leading pattern is replaced once and the remainder kept; a string without it is unchanged |
| JsString.BeforeFirst | server/index.js:655 | the longest prefix without the separator |
| Filtering.Filter | server/index.js:300-302 | kept entries are exactly the accepted ones, and everything when all are accepted |
| Filtering.FilterConcat | server/index.js:300-302 | filtering a concatenation is concatenating the filtered parts, which is what keeping the order means |

## Left out

- The Yjs CRDT merge, update broadcast, sync handshake and awareness relay are implemented in yjs and y-websocket, which are not part of this model; documents are an abstract type.
- Which `docName` y-websocket derives from the upgraded path, and when it calls `bindState`/`writeState`, are not part of this model.
- MongoDB and Mongoose I/O: collections are sequences and maps, queries are functions over them, and a failing call is a `fault` flag. The 500 answers of the room handlers for a database failure are left out; a room whose owner was deleted is modelled (the 500 it causes).
- Rooms.RoomStore.Rename and Rooms.RoomStore.Delete: the chat messages' `updateMany`/`deleteMany` are left out, because the message collection is not modelled.
- Rooms.ReadMessagesGate: the message query with its sort and limit of 100 is left out; only the access gate is modelled.
- The room list endpoint's `populate` and newest-first sort, and the user search endpoint, are left out: they are queries with no rule to state beyond `Rooms.AccessMatchesListQuery`.
- server/models/Room.js is not part of this model: room names are stored as given and ids come from a counter. A room id that is not a valid ObjectId, which makes `findById` throw and the handler answer 500, cannot be expressed.
- JWT signing and verification (and the seven-day expiry), the `authenticateToken` middleware and Passport are foreign calls: a token names a user id, and the caller's id is a parameter.
- bcrypt is the function parameter `hash`/`matches`; its salt and cost are not modelled.
- UserModel.Build: request fields that are absent are modelled as empty strings, which `required` rejects in the same way.
- Rooms.RoomStore.Rename: moves the room's Yjs record as intended (`Persistence.Moved`) rather than as the code is written (`Persistence.Rekeyed`, kept as `Persistence.DocStore.Rekey`); see Findings.
- AuthRoutes.LoginReply: a request without a password (bcryptjs `compare` rejects `undefined`, server/routes/auth.js:68, so the handler answers 500 at server/routes/auth.js:88-91) cannot be expressed, because the password is a string here.
- JsString.ToLower: only ASCII letters are lower-cased; full Unicode case mapping is not modelled, and lengths count code points rather than UTF-16 units.
- The Google OAuth fields (`googleEmail`, `profilePicture`, the sparse unique `googleId`) are carried but no handler that sets them is part of this model.
- Notification ids come from `Date.now() + Math.random()`, floating point values; here they are abstract numbers.
- React rendering, timers and the other client components are not modelled.
- Each HTTP handler is one atomic step here. In the server, concurrent share or rename requests can interleave between the check (server/index.js:252-261, 130-135) and the save (server/index.js:264-269, 151), so duplicate shares or duplicate room names are possible; Rooms.ShareKeepsWellFormed, Rooms.RenameKeepsWellFormed and Rooms.RoomStore.Valid hold only for requests served one at a time.
- Socket.IO transport, logging and the chat `newMessage` broadcast are not modelled; presence notices record their recipients instead of being delivered.

## Findings

| source | as written | input that shows it | evidently intended | confidence | as-written member | corrected member |
|---|---|---|---|---|---|---|
| server/index.js:153-162 | the rename handler moves the room's Yjs record by saving it under the new name; the save fails on the unique `room` key when a record already exists there (y-websocket stores one for any path a client connected to), and an empty record fails validation; both failures are only logged | records `{"a": [1], "b": [2]}`, room `a` owned by the caller, no room `b`, rename `a` to `b`: the room now named `b` loads `[2]`, and `[1]` stays orphaned under `a` | the renamed room loads exactly the state the old name held, and nothing is left under the old name | medium, not executed | Persistence.RekeyOntoLeftoverRecord | Persistence.Moved |
