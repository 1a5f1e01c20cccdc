/**
 * The chat resolvers (schema/chatSchema.js): who may read a chat or post
 * to it, and how each participant id is shown with a display name and a
 * role looked up in the user and professional collections.
 */
module ChatSchema {
  import opened Wrappers
  import opened Documents
  import opened Chats

  datatype Role = UserRole | ProfessionalRole

  /** The role as the API spells it. */
  function RoleName(role: Role): (s: string)
    ensures s == "user" <==> role == UserRole
    ensures s == "professional" <==> role == ProfessionalRole
  {
    match role
    case UserRole => "user"
    case ProfessionalRole => "professional"
  }

  /** A participant as the API shows it; the name is absent when neither collection supplies one. */
  datatype Participant = Participant(id: ObjectId, name: Option<Value>, role: Role)

  /** `doc?.name` for a document looked up by id. */
  function NameIn(store: Store, id: ObjectId): (v: Option<Value>)
    ensures v.Some? <==> id in store && "name" in store[id]
  {
    if id in store && "name" in store[id] then Some(store[id]["name"]) else None
  }

  /**
   * One participant: named by the user's name when that is truthy and
   * otherwise by the professional's, and a professional exactly when a
   * professional has that id.
   */
  function Describe(users: Store, professionals: Store, id: ObjectId): (p: Participant)
    ensures p.id == id
    ensures p.role == ProfessionalRole <==> id in professionals
    ensures id in users && Present(users[id], "name") ==> p.name == Some(users[id]["name"])
    ensures !(id in users && Present(users[id], "name")) ==> p.name == NameIn(professionals, id)
  {
    var userName := NameIn(users, id);
    Participant(id,
                if userName.Some? && Truthy(userName.value) then userName else NameIn(professionals, id),
                if id in professionals then ProfessionalRole else UserRole)
  }

  /** `chat.participants.map(...)`: one description per participant id, in the same order. */
  function Details(users: Store, professionals: Store, ids: seq<ObjectId>): (ps: seq<Participant>)
    ensures |ps| == |ids|
    ensures forall i :: 0 <= i < |ids| ==> ps[i].id == ids[i] && ps[i] == Describe(users, professionals, ids[i])
  {
    if ids == [] then [] else [Describe(users, professionals, ids[0])] + Details(users, professionals, ids[1..])
  }

  /** A chat as the resolvers return it: `{ ...chat, participants: details }`. */
  datatype PopulatedChat = PopulatedChat(id: ObjectId, participants: seq<Participant>, messages: seq<Message>,
                                         createdAt: Timestamp, updatedAt: Timestamp)

  function Populate(users: Store, professionals: Store, id: ObjectId, chat: Chat): (c: PopulatedChat)
    ensures c.id == id && c.messages == chat.messages
    ensures c.createdAt == chat.createdAt && c.updatedAt == chat.updatedAt
    ensures |c.participants| == |chat.participants|
    ensures forall i :: 0 <= i < |chat.participants| ==> c.participants[i].id == chat.participants[i]
    ensures c.participants == Details(users, professionals, chat.participants)
  {
    PopulatedChat(id, Details(users, professionals, chat.participants), chat.messages, chat.createdAt, chat.updatedAt)
  }

  /** `chat.participants.some(p => p.equals(userId))`. */
  function IsParticipant(chat: Chat, userId: ObjectId): (b: bool)
    ensures b <==> userId in chat.participants
  {
    exists i :: 0 <= i < |chat.participants| && chat.participants[i] == userId
  }

  /**
   * The `getChat` query: a missing chat makes the participant read throw,
   * a caller outside the chat is refused, anyone inside gets the chat with
   * its participants described.
   */
  function GetChat(chats: ChatStore, users: Store, professionals: Store, caller: ObjectId,
                   chatId: ObjectId): (r: Result<PopulatedChat, Fault>)
    ensures chatId !in chats ==> r == Err(NullAccess)
    ensures chatId in chats && caller !in chats[chatId].participants ==>
              r == Err(Thrown("Unauthorized to access this chat"))
    ensures r.Ok? <==> chatId in chats && caller in chats[chatId].participants
    ensures r.Ok? ==> r.value == Populate(users, professionals, chatId, chats[chatId])
    ensures r.Ok? ==> r.value.id == chatId && r.value.messages == chats[chatId].messages
                      && |r.value.participants| == |chats[chatId].participants|
  {
    match FindChatById(chats, chatId)
    case None => Err(NullAccess)
    case Some(chat) =>
      if !IsParticipant(chat, caller) then Err(Thrown("Unauthorized to access this chat"))
      else Ok(Populate(users, professionals, chatId, chat))
  }

  /** The `getUserChats` query: every chat the caller takes part in, each with its participants described. */
  function GetUserChats(chats: ChatStore, users: Store, professionals: Store, caller: ObjectId): (r: map<ObjectId, PopulatedChat>)
    ensures forall id :: id in r <==> id in chats && caller in chats[id].participants
    ensures forall id :: id in r ==> r[id] == Populate(users, professionals, id, chats[id])
  {
    var mine := FindChatsByUser(chats, caller);
    map id | id in mine :: Populate(users, professionals, id, mine[id])
  }

  /** Listing a caller's chats and fetching one of them by id give the same chat. */
  lemma UserChatsAgreeWithGetChat(chats: ChatStore, users: Store, professionals: Store, caller: ObjectId,
                                  chatId: ObjectId)
    requires chatId in GetUserChats(chats, users, professionals, caller)
    ensures GetChat(chats, users, professionals, caller, chatId)
            == Ok(GetUserChats(chats, users, professionals, caller)[chatId])
  {
    assert caller in chats[chatId].participants;
    var k :| 0 <= k < |chats[chatId].participants| && chats[chatId].participants[k] == caller;
    assert IsParticipant(chats[chatId], caller);
  }

  /**
   * The `sendMessage` mutation: a missing chat makes the participant read
   * throw, a caller outside the chat is refused and nothing is added,
   * anyone inside appends a message as its sender.
   */
  function SendMessage(chats: ChatStore, caller: ObjectId, chatId: ObjectId, content: string,
                       messageId: ObjectId, sentAt: Timestamp, updatedAt: Timestamp): (r: Result<Appended, Fault>)
    ensures chatId !in chats ==> r == Err(NullAccess)
    ensures chatId in chats && caller !in chats[chatId].participants ==>
              r == Err(Thrown("Unauthorized to send message in this chat"))
    ensures r.Ok? <==> chatId in chats && caller in chats[chatId].participants
    ensures r.Ok? ==> r.value == AddMessage(chats, chatId, caller, content, messageId, sentAt, updatedAt)
  {
    match FindChatById(chats, chatId)
    case None => Err(NullAccess)
    case Some(chat) =>
      if !IsParticipant(chat, caller) then Err(Thrown("Unauthorized to send message in this chat"))
      else Ok(AddMessage(chats, chatId, caller, content, messageId, sentAt, updatedAt))
  }

  /** A message a participant sends is the last message anyone in the chat then reads. */
  lemma SentMessageIsRead(chats: ChatStore, users: Store, professionals: Store, caller: ObjectId,
                          reader: ObjectId, chatId: ObjectId, content: string, messageId: ObjectId,
                          sentAt: Timestamp, updatedAt: Timestamp)
    requires SendMessage(chats, caller, chatId, content, messageId, sentAt, updatedAt).Ok?
    requires chatId in chats && reader in chats[chatId].participants
    ensures var after := SendMessage(chats, caller, chatId, content, messageId, sentAt, updatedAt).value.chats;
            var read := GetChat(after, users, professionals, reader, chatId);
            read.Ok? && |read.value.messages| > 0
            && read.value.messages[|read.value.messages| - 1] == Message(messageId, caller, content, sentAt)
  {
  }

  /** The collection after `createChat`, and the new chat as read back (`null` if it were not found). */
  datatype Started = Started(chats: ChatStore, chat: Option<Chat>)

  /**
   * The `createChat` mutation: a chat between the caller and the
   * professional, read back by its new id.
   */
  function StartChat(chats: ChatStore, caller: ObjectId, professionalId: ObjectId, newId: ObjectId,
                     createdAt: Timestamp, updatedAt: Timestamp): (r: Started)
    requires newId !in chats
    ensures r.chats.Keys == chats.Keys + {newId}
    ensures r.chat.Some? && r.chat.value.participants == [caller, professionalId]
    ensures r.chat.value.messages == []
    ensures r.chat.value.createdAt == createdAt && r.chat.value.updatedAt == updatedAt
    ensures r.chats[newId] == r.chat.value
    ensures forall id :: id in chats ==> r.chats[id] == chats[id]
  {
    var after := CreateChat(chats, caller, professionalId, newId, createdAt, updatedAt);
    Started(after, FindChatById(after, newId))
  }

  /** Both people of a new chat may read it, and it starts empty. */
  lemma NewChatReadableByBoth(chats: ChatStore, users: Store, professionals: Store, caller: ObjectId,
                              professionalId: ObjectId, newId: ObjectId, createdAt: Timestamp, updatedAt: Timestamp)
    requires newId !in chats
    ensures var after := StartChat(chats, caller, professionalId, newId, createdAt, updatedAt).chats;
            && GetChat(after, users, professionals, caller, newId).Ok?
            && GetChat(after, users, professionals, professionalId, newId).Ok?
            && GetChat(after, users, professionals, caller, newId).value.messages == []
  {
    var after := StartChat(chats, caller, professionalId, newId, createdAt, updatedAt).chats;
    assert after[newId].participants == [caller, professionalId];
    assert caller in after[newId].participants && professionalId in after[newId].participants;
  }
}
