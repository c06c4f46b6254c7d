/** The relational store behind the handlers: the chats, messages and trades
    tables, held in memory. Rows keep their insertion order; the store gives
    every inserted row a fresh id and stamps it from a clock that only moves
    forward, so ordering a table by `created_at` ascending is its insertion
    order. The queries the handlers build (`.eq`, `.gte`, `.lte`, `.order`,
    `.single()`) are the functions of this module. */
module Store {
  import opened Common
  import opened Records

  /** `.select("*").eq("id", id).eq("user_id", user).single()` on chats. */
  function OwnedChatIndex(chats: seq<Chat>, id: RowId, user: UserId): Option<nat> {
    Find(chats, (c: Chat) => c.id == id && c.userId == user)
  }

  /** `.select("*").eq("id", id).eq("user_id", user).single()` on trades. */
  function OwnedTradeIndex(trades: seq<Trade>, id: RowId, user: UserId): Option<nat> {
    Find(trades, (t: Trade) => t.id == id && t.userId == user)
  }

  /** `.eq("user_id", user)` on chats. */
  function ChatsOf(chats: seq<Chat>, user: UserId): seq<Chat> {
    Filter(chats, (c: Chat) => c.userId == user)
  }

  /** `.eq("chat_id", chatId)` on messages. */
  function MessagesOf(messages: seq<Message>, chatId: RowId): seq<Message> {
    Filter(messages, (m: Message) => m.chatId == chatId)
  }

  /** `.eq("user_id", user)` on trades. */
  function TradesOf(trades: seq<Trade>, user: UserId): seq<Trade> {
    Filter(trades, (t: Trade) => t.userId == user)
  }

  /** What `.delete().eq("id", id)` leaves of the chats table. */
  function ChatsWithout(chats: seq<Chat>, id: RowId): seq<Chat> {
    Filter(chats, (c: Chat) => c.id != id)
  }

  /** What `.delete().eq("id", id)` leaves of the trades table. */
  function TradesWithout(trades: seq<Trade>, id: RowId): seq<Trade> {
    Filter(trades, (t: Trade) => t.id != id)
  }

  /** Ids are unique, so deleting by the id of row `k` removes row `k` and
      keeps every other row, in order. */
  lemma TradesWithoutRemovesOne(trades: seq<Trade>, k: nat)
    requires IncreasingBy(trades, TradeId) && k < |trades|
    ensures TradesWithout(trades, trades[k].id) == trades[..k] + trades[k + 1..]
  {
    var id := trades[k].id;
    assert forall i :: 0 <= i < |trades| && i != k ==> TradeId(trades[i]) != TradeId(trades[k]);
    FilterDropsOne(trades, (t: Trade) => t.id != id, k);
  }

  lemma ChatsWithoutRemovesOne(chats: seq<Chat>, k: nat)
    requires IncreasingBy(chats, ChatId) && k < |chats|
    ensures ChatsWithout(chats, chats[k].id) == chats[..k] + chats[k + 1..]
  {
    var id := chats[k].id;
    assert forall i :: 0 <= i < |chats| && i != k ==> ChatId(chats[i]) != ChatId(chats[k]);
    FilterDropsOne(chats, (c: Chat) => c.id != id, k);
  }

  ghost predicate ChatsValid(chats: seq<Chat>, nextId: RowId, clock: Stamp) {
    && IncreasingBy(chats, ChatId)
    && IncreasingBy(chats, ChatStamp)
    && (forall i :: 0 <= i < |chats| ==> chats[i].id < nextId && chats[i].createdAt < clock)
  }

  ghost predicate MessagesValid(messages: seq<Message>, nextId: RowId, clock: Stamp) {
    && IncreasingBy(messages, MessageId)
    && IncreasingBy(messages, MessageStamp)
    && (forall i :: 0 <= i < |messages| ==> messages[i].id < nextId && messages[i].createdAt < clock)
  }

  ghost predicate TradesValid(trades: seq<Trade>, nextId: RowId) {
    && IncreasingBy(trades, TradeId)
    && (forall i :: 0 <= i < |trades| ==> trades[i].id < nextId && Consistent(trades[i]))
  }

  class Database {
    var chats: seq<Chat>
    var messages: seq<Message>
    var trades: seq<Trade>
    /** The store's clock: the stamp of the next inserted row. */
    var clock: Stamp
    /** The id of the next inserted row. */
    var nextId: RowId

    /** Ids are unique and increasing, timestamps of chats and messages
        increase with insertion, and every trade satisfies the profit/loss
        invariant. */
    ghost predicate Valid()
      reads this
    {
      && ChatsValid(chats, nextId, clock)
      && MessagesValid(messages, nextId, clock)
      && TradesValid(trades, nextId)
    }

    constructor ()
      ensures Valid()
      ensures chats == [] && messages == [] && trades == []
    {
      chats, messages, trades := [], [], [];
      clock, nextId := 0, 0;
    }

    /** `.table("chats").insert({...})`. */
    method InsertChat(userId: UserId, title: string) returns (c: Chat)
      requires Valid()
      modifies this
      ensures Valid()
      ensures c == Chat(old(nextId), userId, title, old(clock), old(clock))
      ensures chats == old(chats) + [c]
      ensures messages == old(messages) && trades == old(trades)
      ensures nextId == old(nextId) + 1 && clock == old(clock) + 1
    {
      c := Chat(nextId, userId, title, clock, clock);
      chats := chats + [c];
      nextId, clock := nextId + 1, clock + 1;
    }

    /** `.table("chats").delete().eq("id", id)`. */
    method DeleteChats(id: RowId)
      requires Valid()
      modifies this
      ensures Valid()
      ensures chats == ChatsWithout(old(chats), id)
      ensures messages == old(messages) && trades == old(trades)
      ensures nextId == old(nextId) && clock == old(clock)
    {
      var p := (c: Chat) => c.id != id;
      FilterIncreasing(chats, p, ChatId);
      FilterIncreasing(chats, p, ChatStamp);
      var n, now := nextId, clock;
      FilterKeeps(chats, p, (c: Chat) => c.id < n && c.createdAt < now);
      chats := ChatsWithout(chats, id);
    }

    /** `.table("messages").insert({...})`. */
    method InsertMessage(chatId: RowId, userId: UserId, content: string, role: string) returns (m: Message)
      requires Valid()
      modifies this
      ensures Valid()
      ensures m == Message(old(nextId), chatId, userId, content, role, old(clock))
      ensures messages == old(messages) + [m]
      ensures chats == old(chats) && trades == old(trades)
      ensures nextId == old(nextId) + 1 && clock == old(clock) + 1
    {
      m := Message(nextId, chatId, userId, content, role, clock);
      messages := messages + [m];
      nextId, clock := nextId + 1, clock + 1;
    }

    /** `.table("trades").insert({...})`. */
    method InsertTrade(row: TradeRow) returns (t: Trade)
      requires Valid() && RowConsistent(row)
      modifies this
      ensures Valid()
      ensures t == Stored(row, old(nextId), old(clock))
      ensures trades == old(trades) + [t]
      ensures chats == old(chats) && messages == old(messages)
      ensures nextId == old(nextId) + 1 && clock == old(clock) + 1
    {
      t := Stored(row, nextId, clock);
      trades := trades + [t];
      nextId, clock := nextId + 1, clock + 1;
    }

    /** `.table("trades").update(data).eq("id", trades[k].id)`: ids are
        unique, so row `k` is the only row written. */
    method UpdateTradeAt(k: nat, t: Trade)
      requires Valid() && k < |trades| && t.id == trades[k].id && Consistent(t)
      modifies this
      ensures Valid()
      ensures trades == old(trades)[k := t]
      ensures chats == old(chats) && messages == old(messages)
      ensures nextId == old(nextId) && clock == old(clock)
    {
      trades := trades[k := t];
    }

    /** `.table("trades").delete().eq("id", id)`. */
    method DeleteTrades(id: RowId)
      requires Valid()
      modifies this
      ensures Valid()
      ensures trades == TradesWithout(old(trades), id)
      ensures chats == old(chats) && messages == old(messages)
      ensures nextId == old(nextId) && clock == old(clock)
    {
      FilterIncreasing(trades, (t: Trade) => t.id != id, TradeId);
      var n := nextId;
      FilterKeeps(trades, (t: Trade) => t.id != id, (t: Trade) => t.id < n && Consistent(t));
      trades := TradesWithout(trades, id);
    }
  }
}
