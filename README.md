# Karsaku server: call coordinator and data-layer rules, in Dafny

This project models the core of the Karsaku chat and video-call server.

**The coordinator** (`signaling.dfy`, from `index.js`) is the in-memory state the Socket.IO handlers share:
- `connectedUsers`: which socket each user registered from.
- `activeRooms`: the participants of each accepted call.
- The transport's room membership and its set of live sockets.

It is a class, `Signaling.Coordinator`, with one method per socket event. Each method states its new state and the events it emits. An `Emit` records how the event was addressed (`io.to(socket)`, `io.to(room)` or `socket.to(room)`), the set of sockets it reaches when it is sent, and the event with its payload.

Both JavaScript `Map`s iterate in insertion order, and `disconnect` depends on that order. The model therefore keeps each map's key order beside it (`users`, `roomOrder`).

The Socket.IO behaviour the handlers rely on is modelled explicitly:
- A room disappears when its last socket leaves.
- `disconnect` handlers run after the socket has left every room.
- `io.sockets.sockets.get(id)?.join` does nothing for a socket that is gone.

`scenario.dfy` walks one two-party call from connection to a dropped caller.

**The data layer** is modelled as pure functions over in-memory collections. A document is a map from field name to a JavaScript value, and a collection maps ObjectIds to documents:
- `users.dfy`: `UserModel`.
- `professionals.dfy`: `ProfessionalModel`.
- `chats.dfy`: `ChatModel`.
- `chat_schema.dfy`: the chat resolvers.

JavaScript truthiness decides every "is required" guard (`documents.dfy`). Clock readings, fresh ObjectIds, `hashPass`, `isEmail` and the calendar day of a date are parameters of the functions that use them.

## Model

| member | source | states |
|---|---|---|
| Signaling.Coordinator.constructor | index.js:31-32 | both tables, the room membership and the socket set start empty |
| Signaling.Coordinator.Connect | index.js:34 | a new connection adds its socket and changes nothing else |
| Signaling.Coordinator.Join | index.js:37-53 | the socket becomes a member of the chat room; `chatData` goes only to that socket, only when the fetch found a chat; the tables are unchanged |
| Signaling.Coordinator.ChatUpdated | index.js:56-67 | a fetched chat, or `null` when none matched, is broadcast as `chatData` to the room's current members; a failed fetch emits nothing; no state changes |
| Signaling.Coordinator.Leave | index.js:69-71 | the socket leaves the room; for a non-member the membership is unchanged |
| Signaling.Coordinator.Register | index.js:74-77 | `connectedUsers[userId]` becomes this socket, replacing any earlier entry and leaving other users' entries as they were; a new user is appended to the key order |
| Signaling.Coordinator.InitiateCall | index.js:79-87 | exactly one `incomingCall {callerId, chatId}` to the receiver's socket when the receiver is registered, otherwise nothing; no state changes |
| Signaling.Coordinator.AcceptCall | index.js:89-101 | with the caller registered: the accepting socket joins room chatId, and so does the caller's socket if it is still connected; no other room changes; `activeRooms[chatId] == {callerId, receiverId}`; `callAccepted {roomId}` goes to every member of room chatId after the joins, including sockets that were already in the room. With the caller unregistered nothing changes and nothing is emitted |
| Signaling.Coordinator.RejectCall | index.js:103-108 | `callRejected` only to a registered caller's socket; no table or membership changes |
| Signaling.Coordinator.Relay | index.js:111-121 | the offer, answer or ICE candidate goes unchanged to the room's members other than the sender; no state changes |
| Signaling.Coordinator.EndCall | index.js:123-135 | for a roomId that is not an active call: a no-op that emits nothing. For an active call: one `callEnded` to the room's members, the room's membership emptied, the call deleted; other rooms and calls untouched |
| Signaling.Coordinator.Disconnect | index.js:137-156 | the socket leaves every room; only the first user, in registration order, registered from that socket is removed; that user's calls are updated as `DropParticipant`/`KeepRooms` describe, with the notices of `Notices`; with no such user only the transport changes |
| Signaling.Coordinator.Forget | index.js:140-152 | the body run for the user found: remove the user's registration, then drop them from every call |
| Signaling.Coordinator.LeaveCalls | index.js:143-151 | the inner loop run on the coordinator's own calls, keeping the invariant |
| Signaling.DropFromCalls | index.js:143-151 | the loop over calls in insertion order computes exactly `DropParticipant`, `KeepRooms` and `Notices`, and keeps call keys distinct and participant sets non-empty |
| Signaling.FirstOwner | index.js:139-140 | the index of the first user whose socket is `s`, all earlier users being on other sockets; the number of users when there is none |
| Signaling.DropParticipant | index.js:143-150 | a call containing the user loses them and is deleted exactly when fewer than two participants remain; other calls are unchanged |
| Signaling.KeepRooms | index.js:143-150 | exactly the surviving calls, each once, as a subsequence of the old key order |
| Signaling.Notices | index.js:144-145 | each notice is a `peerDisconnected {userId}` addressed to a call room that held the user, reaching that room's members |
| Signaling.NoticeOncePerCall | index.js:143-150 | every call holding the user gets exactly one notice, and every other room gets none |
| Signaling.Remove | index.js:141 | deleting a key removes that key and keeps every other key in its order (a subsequence of the old order); keys stay distinct |
| Signaling.Upserted | index.js:75 | setting a key keeps every existing key in its place and adds at most one key, the new one, at the end |
| Signaling.MembersOf | index.js:127 | `io.sockets.adapter.rooms.get(roomId)`: the room's sockets, or none when the room does not exist; with no empty rooms kept, a room exists exactly when it has members. Every `io.to(room)` emit reaches these sockets |
| Signaling.JoinRoom | index.js:39 | the room gains the socket and no other room changes |
| Signaling.LeaveRoom | index.js:70 | the room loses the socket, is deleted once empty, and no other room changes; a non-member changes nothing |
| Signaling.LeaveAll | index.js:137 | the socket leaves every room, and no empty room remains |
| Signaling.ReachOf | index.js:82 | `io.to(socketId)` reaches that socket exactly when it is connected |
| Signaling.IndexedUpsert | index.js:97 | `Map.set` keeps the key order and the key set in step |
| Signaling.IndexedRemove | index.js:133 | `Map.delete` keeps the key order and the key set in step |
| Signaling.TransportJoin | index.js:94-95 | joining a connected socket keeps every room non-empty and made of connected sockets |
| Signaling.TransportLeave | index.js:70 | a socket leaving one room keeps every room non-empty and made of connected sockets |
| Signaling.TransportLeaveAll | index.js:137 | after a disconnect every room is non-empty and made of the remaining sockets |
| Signaling.OnJoin | index.js:47-49 | `chatData` with the chat to the joining socket exactly when the fetch found one |
| Signaling.OnChatUpdated | index.js:58-63 | a failed fetch emits nothing; otherwise one `chatData` to the room, holding the chat or `null` |
| Signaling.FetchAsWritten | index.js:43 | the fetch as written always fails, because ChatModel has no `findById` |
| Signaling.FetchChat | models/ChatModel.js:14-19 | the intended fetch finds exactly the stored chat, or nothing |
| Signaling.AsWrittenChatDataNeverSent | index.js:43-63 | as written, neither `join` nor `chatUpdated` emits anything, even for a stored chat |
| Signaling.StoredChatIsSent | index.js:43-63 | with the intended fetch, a stored chat reaches the joining socket, and on an update the whole room |
| Scenario.CallScenario | index.js:74-156 | u1 on c1 calls u2 on c2: c2 gets `incomingCall`; both sockets get `callAccepted`; when c1 disconnects, c2 gets one `peerDisconnected {u1}`, and the call, u1's registration and c1's membership are gone |
| Scenario.InCall | index.js:79-101 | after the call is accepted: room1 holds both sockets and the call holds both users |
| Scenario.CallerDropsOut | index.js:139-150 | for that state, disconnect finds u1 first, deletes the call and emits one notice |
| Documents.FirstFailure | models/UserModel.js:10-46 | the message of the first failing guard in written order; a plain definition whose meaning `FirstFailureIsFirst` states |
| Documents.FirstFailureIsFirst | models/UserModel.js:10-46 | a chain of guards reports nothing exactly when all pass, and otherwise the message of a failing guard whose predecessors all pass |
| Documents.Truthy | models/UserModel.js:10 | `!x` is true exactly for `null`/`undefined`, `false`, `0` and the empty string |
| Documents.Utf16Length | models/UserModel.js:30 | JavaScript's string `length` in UTF-16 code units: between the number of characters and twice it, and equal to it exactly when no character lies outside the Basic Multilingual Plane |
| Documents.Length | models/UserModel.js:30 | `.length` exists only for strings (in UTF-16 code units) and arrays |
| Documents.Taken | models/UserModel.js:79-86 | `getUserByUsername` / `getUserByEmail` find a document: some stored document holds that value in that field |
| Documents.Field | models/UserModel.js:10 | reading an absent field gives a falsy value |
| Documents.IdField | models/UserModel.js:92 | `new ObjectId(String(_id))` yields an id only when `_id` is an id or its string |
| Documents.SetFields | models/UserModel.js:93 | `$set` gives the supplied fields their new values and keeps every other field |
| Documents.WithoutId | models/UserModel.js:89 | the rest of a destructured document has every field but `_id` |
| Users.Register | models/UserModel.js:9-52 | succeeds exactly when every guard passes; otherwise the first failing guard's message is thrown and nothing is inserted; on success the stored password is `hashPass` of the original, and the collection gains exactly the new document |
| Users.RegisterError | models/UserModel.js:10-46 | the message `register` throws; none exactly when every guard passes |
| Users.RegisterFollowsCheckOrder | models/UserModel.js:10-46 | the guards run in source order (name, username, email, format, password, length, job, username taken, email taken) and the first failing one decides the message |
| Users.ShortPasswordRejected | models/UserModel.js:30-32 | a password shorter than five UTF-16 code units is always refused, with the length message once the earlier guards pass |
| Users.AstralPasswordLongEnough | models/UserModel.js:30 | a password of three emoji has length six, so the length guard lets it through |
| Users.DuplicateUsernameReportedFirst | models/UserModel.js:38-46 | with both the username and the email taken, "Username already exists" is reported |
| Users.UpdateUser | models/UserModel.js:88-98 | exactly the supplied fields other than `_id` are set, the `_id` and unmentioned fields keep their values, other users are unchanged; no match gives `null`; an unusable `_id` throws |
| Users.FindOneAndUpdate | models/UserModel.js:100-107 | only the filter's `_id` selects the document, which the update then transforms; other documents are unchanged |
| Users.FilterUsesOnlyId | models/UserModel.js:102 | two filters with the same `_id` have the same effect |
| Users.ShouldAskQuestions | models/UserModel.js:109-120 | true whenever job, dailyActivities or lastQuestionDate is missing or falsy; otherwise true exactly when the stored day differs from today; a missing user throws |
| Users.UpdateLastQuestionDate | models/UserModel.js:122-127 | sets only `lastQuestionDate` of that user, to the clock's ISO string |
| Users.NotAskedTwiceOnOneDay | models/UserModel.js:109-127 | right after the date is recorded, a user with a job and activities is not asked again that day |
| Professionals.Create | models/ProfessionalModel.js:19-32 | refuses exactly the documents missing a required field; on success the document gets both timestamps and its id, and is the only addition |
| Professionals.CreateFollowsCheckOrder | models/ProfessionalModel.js:20-25 | name, specialization, education, imageUrl, description and price are checked in that order, and the first missing one names the error |
| Professionals.ZeroPriceRejected | models/ProfessionalModel.js:25 | a price of 0 is falsy and refused as missing |
| Professionals.Update | models/ProfessionalModel.js:34-45 | every supplied field but `_id` is set, `updatedAt` is always set to the clock, other fields and documents are unchanged |
| Chats.CreateChat | models/ChatModel.js:21-34 | the new chat's participants are exactly `[userId, professionalId]`, its messages empty, both timestamps set; nothing else changes |
| Chats.FindChatById | models/ChatModel.js:14-19 | the stored chat exactly when the id is stored, otherwise `null` |
| Chats.AddMessage | models/ChatModel.js:36-54 | exactly one message `{id, sender, content, timestamp}` is appended after the unchanged earlier ones, `updatedAt` is set, participants and other chats are unchanged; an unknown chat gives `null` |
| Chats.FindChatsByUser | models/ChatModel.js:7-12 | exactly the chats whose participants contain the user |
| Chats.NewChatFoundByBothParticipants | models/ChatModel.js:7-34 | a new chat is listed for its user and its professional and for nobody else |
| Chats.AddMessageKeepsMembership | models/ChatModel.js:36-54 | sending a message never changes whose chat list contains a chat |
| ChatSchema.RoleName | schema/chatSchema.js:54 | the role is spelled "user" exactly for the user role and "professional" exactly for the professional role |
| ChatSchema.Describe | schema/chatSchema.js:51-55 | the role is professional exactly when a professional has the id; the name is the user's name when truthy, else the professional's |
| ChatSchema.NameIn | schema/chatSchema.js:47-52 | `doc?.name` for the document found by id: present exactly when that document exists and has a `name` field |
| ChatSchema.Details | schema/chatSchema.js:76-85 | one description per participant id, in the same order and number |
| ChatSchema.Populate | schema/chatSchema.js:87-90 | the chat keeps its messages and timestamps, and its participants are the described participants (`Details`: names and roles), in the same order and number |
| ChatSchema.IsParticipant | schema/chatSchema.js:71 | `participants.some(p => p.equals(userId))` holds exactly when the user is among the participants |
| ChatSchema.GetChat | schema/chatSchema.js:67-91 | a missing chat throws on the participant read; a non-participant gets "Unauthorized to access this chat"; a participant gets the chat populated with its participants' names and roles |
| ChatSchema.GetUserChats | schema/chatSchema.js:41-65 | exactly the caller's chats, each populated with its participants' names and roles |
| ChatSchema.UserChatsAgreeWithGetChat | schema/chatSchema.js:41-91 | a chat in the caller's list is what `getChat` returns for it |
| ChatSchema.SendMessage | schema/chatSchema.js:101-111 | a missing chat throws; a non-participant gets "Unauthorized to send message in this chat" and nothing is added; a participant appends as sender |
| ChatSchema.SentMessageIsRead | schema/chatSchema.js:67-111 | the message a participant sends is the last message every participant then reads |
| ChatSchema.StartChat | schema/chatSchema.js:95-99 | the new chat, read back by its id, is the one stored under that id and holds the caller and the professional, no messages and both timestamps; every other chat is unchanged |
| ChatSchema.NewChatReadableByBoth | schema/chatSchema.js:67-99 | both people of a new chat may read it, and it starts empty |

## Left out

- Logging (`console.log`, `console.error`), the HTTP and Socket.IO server setup, and the Apollo server start are left out, because they print or configure and do not decide behaviour.
- Handlers run to completion one at a time. Interleaving across awaited fetches is not modelled.
- The awaited chat fetch in `join` and `chatUpdated` is an input (`FetchResult`).
- Each socket's own room (Socket.IO puts every socket in a room named after its id) is not modelled. `io.to(socketId)` is modelled directly by `ReachOf`.
- A `chatId` that names one of those socket rooms is not modelled.
- The `auth` context (JWT verification) is left out: it is a foreign call. Each resolver takes the authenticated caller's id as a parameter.
- `populate('messages.senderDetails')` and `populate('participants')` are left out; they belong to the fetch, which is an input here.
- ObjectId hex validation is not modelled: any string converts to an id, and any other value is refused (`BadObjectId`).
- MongoDB operators are modelled only as far as these calls use them: `$set` as field overwrite, `$push` as append, `$in` as membership. Empty and conflicting updates are left out.
- The order of `findChatsByUser`'s results is left out: the database gives no order, so the result is a map.
- `hashPass` (bcrypt), `isEmail` (validator), `new Date()`, `toISOString`, `toDateString` and `new ObjectId()` are parameters. Two clock readings in one call are two parameters.
- Floating-point fields (price, ratings) are modelled as reals; only whether they are zero matters here.
- Users.Register: the argument is limited to GraphQL string-or-null fields, because the createUser mutation only passes those.
- Users.Register: the model returns the caller's object as changed (hashed password, `_id`) instead of mutating it.
- Professionals.Create: its own contract says only that a failure throws; which message is thrown is stated by Professionals.CreateFollowsCheckOrder.
- `login`, `findAll`, `findById`, `getUserProfile`, `getUserByName` and the task, professional and user resolvers are left out, because they pass a query straight to the database.
- Signaling.Coordinator.Join and the other coordinator methods require the acting socket to be connected, because Socket.IO only runs handlers of connected sockets.

## Findings

| source | as written | input that shows it | evidently intended | confidence | as-written member | corrected member |
|---|---|---|---|---|---|---|
| index.js:43, index.js:58 | `join` and `chatUpdated` call `ChatModel.findById`, which ChatModel does not define (it defines `findChatById`). The call throws a TypeError that the `catch` swallows, so no `chatData` is ever emitted | any `join` or `chatUpdated` for a chat that is stored | fetch through `ChatModel.findChatById` and drop the `.populate` chain (called on the returned Promise it would throw too), so the stored chat reaches the joining socket and, on an update, the room | high, not executed | Signaling.AsWrittenChatDataNeverSent | Signaling.StoredChatIsSent |
