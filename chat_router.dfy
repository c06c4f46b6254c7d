/** The chat handlers of app/apis/chat_router.py: chats and their messages,
    every read and write scoped to the chat's owner. */
module ChatRouter {
  import opened Common
  import opened Records
  import opened Store

  /** ChatWithMessages: a chat and its messages. */
  datatype ChatWithMessages = ChatWithMessages(chat: Chat, messages: seq<Message>)

  /** `create_chat`. `stored` says whether the store returned the inserted
      row; when it does not, the 400 raised for it is caught by the
      handler's generic `except Exception` and surfaces as 500. */
  method CreateChat(db: Database, user: UserId, title: string, stored: bool) returns (r: Result<Chat>)
    requires db.Valid()
    modifies db
    ensures db.Valid()
    ensures stored ==> r == Ok(Chat(old(db.nextId), user, title, old(db.clock), old(db.clock)))
    ensures stored ==> db.chats == old(db.chats) + [r.value]
    ensures !stored ==> r == Err(InternalError) && db.chats == old(db.chats)
    ensures db.messages == old(db.messages) && db.trades == old(db.trades)
  {
    if !stored {
      return Err(InternalError);
    }
    var c := db.InsertChat(user, title);
    r := Ok(c);
  }

  /** `get_chats`: the caller's chats, newest first. The store's timestamps
      follow insertion, so that is the caller's rows read back to front. */
  method GetChats(db: Database, user: UserId) returns (r: seq<Chat>)
    requires db.Valid()
    ensures r == Reverse(ChatsOf(db.chats, user))
    ensures forall c :: c in r <==> c in db.chats && c.userId == user
    ensures forall i, j :: 0 <= i < j < |r| ==> r[i].createdAt > r[j].createdAt
  {
    var mine := ChatsOf(db.chats, user);
    FilterIncreasing(db.chats, (c: Chat) => c.userId == user, ChatStamp);
    ReverseDecreasing(mine, ChatStamp);
    r := Reverse(mine);
    ReverseMembers(mine);
    FilterMembers(db.chats, (c: Chat) => c.userId == user);
  }

  /** `get_chat`: 404 when the caller owns no chat with that id; otherwise
      the chat and every message stored for it, oldest first. */
  method GetChat(db: Database, user: UserId, id: RowId) returns (r: Result<ChatWithMessages>)
    requires db.Valid()
    ensures OwnedChatIndex(db.chats, id, user).None? <==> r == Err(NotFound)
    ensures r.Ok? ==> r.value.chat == db.chats[OwnedChatIndex(db.chats, id, user).value]
    ensures r.Ok? ==> r.value.chat.id == id && r.value.chat.userId == user
    ensures r.Ok? ==> r.value.messages == MessagesOf(db.messages, id)
    ensures r.Ok? ==> forall m :: m in r.value.messages <==> m in db.messages && m.chatId == id
    ensures r.Ok? ==> IncreasingBy(r.value.messages, MessageStamp)
  {
    var found := OwnedChatIndex(db.chats, id, user);
    if found.None? {
      return Err(NotFound);
    }
    var messages := MessagesOf(db.messages, id);
    FilterIncreasing(db.messages, (m: Message) => m.chatId == id, MessageStamp);
    FilterMembers(db.messages, (m: Message) => m.chatId == id);
    r := Ok(ChatWithMessages(db.chats[found.value], messages));
  }

  /** `delete_chat`: 404 and no change when the caller owns no chat with
      that id; otherwise exactly that chat row is removed. The handler deletes
      the chat row only, and the store model has no cascade, so the chat's
      messages stay as they are. */
  method DeleteChat(db: Database, user: UserId, id: RowId) returns (r: Result<()>)
    requires db.Valid()
    modifies db
    ensures db.Valid()
    ensures OwnedChatIndex(old(db.chats), id, user).None? ==> r == Err(NotFound) && db.chats == old(db.chats)
    ensures OwnedChatIndex(old(db.chats), id, user).Some? ==>
              var k := OwnedChatIndex(old(db.chats), id, user).value;
              r == Ok(()) && db.chats == old(db.chats)[..k] + old(db.chats)[k + 1..]
    ensures db.messages == old(db.messages) && db.trades == old(db.trades)
  {
    var found := OwnedChatIndex(db.chats, id, user);
    if found.None? {
      return Err(NotFound);
    }
    ChatsWithoutRemovesOne(db.chats, found.value);
    db.DeleteChats(id);
    r := Ok(());
  }

  /** `create_message`: 404 and nothing stored when the caller does not own
      the chat; 400 when the store returns no row; otherwise the message is
      stored with the caller's id and the role as given. */
  method CreateMessage(db: Database, user: UserId, chatId: RowId, content: string, role: string, stored: bool)
    returns (r: Result<Message>)
    requires db.Valid()
    modifies db
    ensures db.Valid()
    ensures OwnedChatIndex(old(db.chats), chatId, user).None? ==> r == Err(NotFound) && db.messages == old(db.messages)
    ensures OwnedChatIndex(old(db.chats), chatId, user).Some? && !stored ==>
              r == Err(BadRequest) && db.messages == old(db.messages)
    ensures OwnedChatIndex(old(db.chats), chatId, user).Some? && stored ==>
              && r == Ok(Message(old(db.nextId), chatId, user, content, role, old(db.clock)))
              && db.messages == old(db.messages) + [r.value]
    ensures db.chats == old(db.chats) && db.trades == old(db.trades)
  {
    var found := OwnedChatIndex(db.chats, chatId, user);
    if found.None? {
      return Err(NotFound);
    }
    if !stored {
      return Err(BadRequest);
    }
    var m := db.InsertMessage(chatId, user, content, role);
    r := Ok(m);
  }

  /** A message just stored is the last one `get_chat` lists for its chat. */
  lemma {:induction false} NewMessageLast(messages: seq<Message>, m: Message)
    ensures MessagesOf(messages + [m], m.chatId) == MessagesOf(messages, m.chatId) + [m]
  {
    FilterAppend(messages, m, (x: Message) => x.chatId == m.chatId);
  }

  /** A chat just created is the first one `get_chats` lists for its owner,
      and the other owners' lists do not change. */
  lemma NewChatFirst(chats: seq<Chat>, c: Chat, user: UserId)
    ensures c.userId == user ==> Reverse(ChatsOf(chats + [c], user)) == [c] + Reverse(ChatsOf(chats, user))
    ensures c.userId != user ==> Reverse(ChatsOf(chats + [c], user)) == Reverse(ChatsOf(chats, user))
  {
    FilterAppend(chats, c, (x: Chat) => x.userId == user);
    if c.userId == user {
      ReverseAppend(ChatsOf(chats, user), c);
    }
  }

  /** Once a chat is deleted, no owner finds it again: every later
      `get_chat`, `delete_chat` or `create_message` on it is a 404. */
  lemma DeletedChatGone(chats: seq<Chat>, k: nat, user: UserId)
    requires IncreasingBy(chats, ChatId) && k < |chats|
    ensures OwnedChatIndex(chats[..k] + chats[k + 1..], chats[k].id, user).None?
  {
    var rest := chats[..k] + chats[k + 1..];
    forall i | 0 <= i < |rest|
      ensures rest[i].id != chats[k].id
    {
      if i < k {
        assert rest[i] == chats[i];
        assert ChatId(chats[i]) < ChatId(chats[k]);
      } else {
        assert rest[i] == chats[i + 1];
        assert ChatId(chats[k]) < ChatId(chats[i + 1]);
      }
    }
  }
}
