/**
 * The chat collection (models/ChatModel.js): a chat between one user and
 * one professional, its append-only list of messages, and the lookups by
 * id and by participant.
 */
module Chats {
  import opened Wrappers
  import opened Documents

  datatype Message = Message(id: ObjectId, sender: ObjectId, content: string, timestamp: Timestamp)

  datatype Chat = Chat(participants: seq<ObjectId>, messages: seq<Message>,
                       createdAt: Timestamp, updatedAt: Timestamp)

  type ChatStore = map<ObjectId, Chat>

  /**
   * `ChatModel.createChat`: a chat whose participants are the user and
   * then the professional, with no messages, stamped by two clock
   * readings, inserted under a fresh id.
   */
  function CreateChat(chats: ChatStore, userId: ObjectId, professionalId: ObjectId, newId: ObjectId,
                      createdAt: Timestamp, updatedAt: Timestamp): (r: ChatStore)
    requires newId !in chats
    ensures r.Keys == chats.Keys + {newId}
    ensures r[newId].participants == [userId, professionalId]
    ensures r[newId].messages == []
    ensures r[newId].createdAt == createdAt && r[newId].updatedAt == updatedAt
    ensures forall id :: id in chats ==> r[id] == chats[id]
  {
    chats[newId := Chat([userId, professionalId], [], createdAt, updatedAt)]
  }

  /** `ChatModel.findChatById`: the chat, or `null`. */
  function FindChatById(chats: ChatStore, chatId: ObjectId): (r: Option<Chat>)
    ensures r.Some? <==> chatId in chats
    ensures r.Some? ==> r.value == chats[chatId]
  {
    if chatId in chats then Some(chats[chatId]) else None
  }

  /** The collection after `addMessage`, and the updated chat (`null` when no chat matched). */
  datatype Appended = Appended(chats: ChatStore, after: Option<Chat>)

  /**
   * `ChatModel.addMessage`: `$push` one message, stamped by one clock
   * reading, at the end of the chat's messages, and `$set` `updatedAt`
   * from another.
   */
  function AddMessage(chats: ChatStore, chatId: ObjectId, senderId: ObjectId, content: string,
                      messageId: ObjectId, sentAt: Timestamp, updatedAt: Timestamp): (r: Appended)
    ensures chatId !in chats ==> r == Appended(chats, None)
    ensures chatId in chats ==>
              && r.chats.Keys == chats.Keys
              && (forall other :: other in chats && other != chatId ==> r.chats[other] == chats[other])
              && r.after == Some(r.chats[chatId])
              && var before, after := chats[chatId], r.chats[chatId];
                 && |after.messages| == |before.messages| + 1
                 && after.messages[..|before.messages|] == before.messages
                 && after.messages[|before.messages|] == Message(messageId, senderId, content, sentAt)
                 && after.participants == before.participants
                 && after.createdAt == before.createdAt
                 && after.updatedAt == updatedAt
  {
    if chatId in chats then
      var chat := chats[chatId];
      var after := chat.(messages := chat.messages + [Message(messageId, senderId, content, sentAt)],
                         updatedAt := updatedAt);
      Appended(chats[chatId := after], Some(after))
    else Appended(chats, None)
  }

  /** `ChatModel.findChatsByUser`: the chats that have the user among their participants. */
  function FindChatsByUser(chats: ChatStore, userId: ObjectId): (r: ChatStore)
    ensures forall id :: id in r <==> id in chats && userId in chats[id].participants
    ensures forall id :: id in r ==> r[id] == chats[id]
  {
    map id | id in chats && userId in chats[id].participants :: chats[id]
  }

  /** A new chat is found by its user and by its professional, and by nobody else. */
  lemma NewChatFoundByBothParticipants(chats: ChatStore, userId: ObjectId, professionalId: ObjectId,
                                        newId: ObjectId, createdAt: Timestamp, updatedAt: Timestamp,
                                        someone: ObjectId)
    requires newId !in chats
    ensures var after := CreateChat(chats, userId, professionalId, newId, createdAt, updatedAt);
            newId in FindChatsByUser(after, someone) <==> someone == userId || someone == professionalId
  {
    var after := CreateChat(chats, userId, professionalId, newId, createdAt, updatedAt);
    assert someone in after[newId].participants <==> someone == userId || someone == professionalId;
  }

  /** Sending messages never changes who can find a chat. */
  lemma AddMessageKeepsMembership(chats: ChatStore, chatId: ObjectId, senderId: ObjectId, content: string,
                                  messageId: ObjectId, sentAt: Timestamp, updatedAt: Timestamp, userId: ObjectId)
    ensures var after := AddMessage(chats, chatId, senderId, content, messageId, sentAt, updatedAt).chats;
            FindChatsByUser(after, userId).Keys == FindChatsByUser(chats, userId).Keys
  {
  }
}
