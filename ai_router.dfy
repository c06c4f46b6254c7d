/** The AI handlers of app/apis/ai_router.py: one chat turn over the chats,
    messages and trades tables, the analytics summary, the insights and
    the stand-alone extraction endpoint. The model calls are run one after
    the other. */
module AiRouter {
  import opened Common
  import opened Text
  import opened Records
  import opened Store
  import opened TradeRouter
  import opened ChatRouter
  import opened AiService
  import opened Analytics

  /** Everything outside the backend that a chat turn consults: the
      extraction model, `json.loads`, `TradeCreate` validation, the chat
      model and `json.dumps` of the trade history. */
  datatype Oracles = Oracles(
    extraction: string -> Option<string>,
    parse: string -> Option<Json>,
    validate: map<string, Json> -> Option<TradeDraft>,
    chat: (seq<Turn>, string) -> Option<string>,
    dumps: seq<Trade> -> string)

  /** AIMessageResponse. */
  datatype AiMessageResponse = AiMessageResponse(message: string, tradeExtracted: Option<TradeDraft>)

  /** `chat_history_for_ai`: the role and content of every message. */
  function HistoryOf(messages: seq<Message>): (r: seq<HistoryEntry>)
    ensures |r| == |messages|
    ensures forall i :: 0 <= i < |messages| ==> r[i] == HistoryEntry(Some(messages[i].role), Some(messages[i].content))
  {
    seq(|messages|, i requires 0 <= i < |messages| => HistoryEntry(Some(messages[i].role), Some(messages[i].content)))
  }

  /** The trade history the chat model is meant to see: the caller's 20
      latest trades by entry date. */
  function RecentTrades(trades: seq<Trade>, user: UserId): seq<Trade> {
    var mine := OrderByEntryDateDesc(TradesOf(trades, user));
    mine[..Min(20, |mine|)]
  }

  /** `ai_chat` with the trade history passed to generation. 404 and nothing
      written when the caller does not own the chat. Otherwise: the user
      message is stored; the history read back, which ends with it, and the
      caller's recent trades go to the chat model; a trade row is stored
      exactly when extraction yields a draft, built as `create_trade`
      builds it; then the assistant message, whose content is the reply the
      handler returns along with the draft. */
  method AiChat(db: Database, user: UserId, chatId: RowId, message: string, o: Oracles)
    returns (r: Result<AiMessageResponse>)
    requires db.Valid()
    modifies db
    ensures db.Valid()
    ensures OwnedChatIndex(old(db.chats), chatId, user).None? ==>
              r == Err(NotFound) && db.messages == old(db.messages) && db.trades == old(db.trades)
    ensures OwnedChatIndex(old(db.chats), chatId, user).Some? ==>
              var u := Message(old(db.nextId), chatId, user, message, "user", old(db.clock));
              var history := HistoryOf(MessagesOf(old(db.messages) + [u], chatId));
              && r.Ok?
              && r.value.tradeExtracted == ExtractTradeFromText(message, o.extraction, o.parse, o.validate)
              && r.value.message == ChatReply(message, history, RecentTrades(old(db.trades), user), o.chat, o.dumps)
    ensures OwnedChatIndex(old(db.chats), chatId, user).Some? ==>
              var draft := r.value.tradeExtracted;
              db.trades == old(db.trades) +
                (if draft.Some? then [Stored(CreateRow(user, draft.value), old(db.nextId) + 1, old(db.clock) + 1)] else [])
    ensures OwnedChatIndex(old(db.chats), chatId, user).Some? ==>
              var used := if r.value.tradeExtracted.Some? then 2 else 1;
              db.messages == old(db.messages) +
                [Message(old(db.nextId), chatId, user, message, "user", old(db.clock))] +
                [Message(old(db.nextId) + used, chatId, user, r.value.message, "assistant", old(db.clock) + used)]
    ensures db.chats == old(db.chats)
  {
    var found := OwnedChatIndex(db.chats, chatId, user);
    if found.None? {
      return Err(NotFound);
    }
    var u := db.InsertMessage(chatId, user, message, "user");
    var history := HistoryOf(MessagesOf(db.messages, chatId));
    var tradeHistory := RecentTrades(db.trades, user);
    var draft := ExtractTradeFromText(message, o.extraction, o.parse, o.validate);
    var reply := GenerateChatResponse(message, history, tradeHistory, o.chat, o.dumps);
    SaveTurnResults(db, user, chatId, draft, reply);
    r := Ok(AiMessageResponse(reply, draft));
  }

  /** Steps 5 and 6 of a turn: the trade row when there is a draft, then the
      assistant message. */
  method SaveTurnResults(db: Database, user: UserId, chatId: RowId, draft: Option<TradeDraft>, reply: string)
    requires db.Valid()
    modifies db
    ensures db.Valid()
    ensures var k := if draft.Some? then 1 else 0;
      && db.trades == old(db.trades) +
           (if draft.Some? then [Stored(CreateRow(user, draft.value), old(db.nextId), old(db.clock))] else [])
      && db.messages == old(db.messages) + [Message(old(db.nextId) + k, chatId, user, reply, "assistant", old(db.clock) + k)]
      && db.nextId == old(db.nextId) + k + 1 && db.clock == old(db.clock) + k + 1
    ensures db.chats == old(db.chats)
  {
    if draft.Some? {
      CreateRowConsistent(user, draft.value);
      var _ := db.InsertTrade(CreateRow(user, draft.value));
    }
    var _ := db.InsertMessage(chatId, user, reply, "assistant");
  }

  /** `ai_chat` as written: generation is called without its required
      `trade_history` argument, so the call raises a `TypeError` before
      either model runs; the generic handler turns it into 500 after the
      user message has been stored, and no trade row and no assistant
      message is written. */
  method AiChatAsWritten(db: Database, user: UserId, chatId: RowId, message: string) returns (r: Result<AiMessageResponse>)
    requires db.Valid()
    modifies db
    ensures db.Valid()
    ensures OwnedChatIndex(old(db.chats), chatId, user).None? ==>
              r == Err(NotFound) && db.messages == old(db.messages) && db.trades == old(db.trades)
    ensures OwnedChatIndex(old(db.chats), chatId, user).Some? ==>
              && r == Err(InternalError)
              && db.messages == old(db.messages) + [Message(old(db.nextId), chatId, user, message, "user", old(db.clock))]
              && db.trades == old(db.trades)
    ensures db.chats == old(db.chats)
  {
    var found := OwnedChatIndex(db.chats, chatId, user);
    if found.None? {
      return Err(NotFound);
    }
    var _ := db.InsertMessage(chatId, user, message, "user");
    // generate_chat_response(user_message=…, chat_history=…) lacks trade_history
    r := Err(InternalError);
  }

  /** The history a turn sends ends with the user message just stored, as
      the user's turn. */
  lemma HistoryEndsWithUserMessage(messages: seq<Message>, u: Message)
    requires u.role == "user"
    ensures var turns := RecentTurns(HistoryOf(MessagesOf(messages + [u], u.chatId)));
      |turns| >= 1 && turns[|turns| - 1] == Turn(User, u.content)
  {
    NewMessageLast(messages, u);
    var before := MessagesOf(messages, u.chatId);
    var e := HistoryEntry(Some(u.role), Some(u.content));
    HistoryOfAppend(before, u);
    RecentTurnsLast(HistoryOf(before), e);
    assert AsTurn(e) == Turn(User, u.content);
  }

  lemma HistoryOfAppend(messages: seq<Message>, m: Message)
    ensures HistoryOf(messages + [m]) == HistoryOf(messages) + [HistoryEntry(Some(m.role), Some(m.content))]
  {
    var l, r := HistoryOf(messages + [m]), HistoryOf(messages) + [HistoryEntry(Some(m.role), Some(m.content))];
    assert |l| == |r|;
    forall i | 0 <= i < |l|
      ensures l[i] == r[i]
    {
      if i < |messages| {
        assert (messages + [m])[i] == messages[i];
      }
    }
  }

  /** After a turn, the chat lists the user message and then the assistant
      message last, in that order. */
  lemma TurnMessagesLast(messages: seq<Message>, u: Message, a: Message)
    requires u.chatId == a.chatId
    ensures MessagesOf(messages + [u, a], u.chatId) == MessagesOf(messages, u.chatId) + [u, a]
  {
    NewMessageLast(messages, u);
    assert messages + [u, a] == (messages + [u]) + [a];
    NewMessageLast(messages + [u], a);
  }

  /** The trade row `ai_chat` builds from a draft, as written: profit/loss is
      guarded by the truthiness of the exit price, so an exit price of 0
      stores no profit/loss. */
  function ChatTradeRowAsWritten(user: UserId, d: TradeDraft): TradeRow {
    var profitLoss :=
      if d.exitPrice.Some? && d.exitPrice.value != 0.0 then Some(Gain(d.entryPrice, d.exitPrice.value, d.quantity))
      else None;
    TradeRow(user, Upper(d.ticker), d.entryDate, d.entryPrice, d.quantity,
             d.exitDate, d.exitPrice, d.notes, profitLoss)
  }

  /** An extracted trade closed at 0 gets no profit/loss, breaking the trade
      invariant that `create_trade` keeps. */
  lemma ZeroExitBreaksInvariant(user: UserId)
    ensures var d := TradeDraft("XYZ", 0, 10.0, 1.0, None, Some(0.0), None);
      && ChatTradeRowAsWritten(user, d).profitLoss == None
      && ProfitLoss(d.entryPrice, d.exitPrice, d.quantity) == Some(-10.0)
      && !RowConsistent(ChatTradeRowAsWritten(user, d))
  {
  }

  /** Away from an exit price of 0 the row as written is the one
      `create_trade` builds. */
  lemma ChatTradeRowAgreesOffZero(user: UserId, d: TradeDraft)
    requires d.exitPrice != Some(0.0)
    ensures ChatTradeRowAsWritten(user, d) == CreateRow(user, d)
  {
  }

  /** `get_analytics` as written: an `end_date` makes the handler read the
      undefined name `end_date`, which the generic handler turns into 500;
      without one, the summary is of the caller's trades from `start_date`
      on, latest first. */
  method GetAnalyticsAsWritten(db: Database, user: UserId, start: Option<Date>, end: Option<Date>) returns (r: Result<Summary>)
    ensures end.Some? ==> r == Err(InternalError)
    ensures end.None? ==> r == Ok(Summarize(OrderByEntryDateDesc(Listed(db.trades, user, None, start, None))))
  {
    var query := TradesOf(db.trades, user);
    UserStage(db.trades, user);
    if start.Some? {
      query := EnteredFrom(query, start.value);
    }
    StartStage(db.trades, user, None, start);
    if end.Some? {
      // query.lte("entry_date", end_date.isoformat()) names no defined variable
      return Err(InternalError);
    }
    var trades := OrderByEntryDateDesc(query);
    r := Ok(Summarize(trades));
  }

  /** `get_analytics` with the `end_date` bound applied: the summary of the
      caller's trades with entry date within both given bounds, latest
      first. */
  method GetAnalytics(db: Database, user: UserId, start: Option<Date>, end: Option<Date>) returns (r: Result<Summary>)
    ensures r == Ok(Summarize(OrderByEntryDateDesc(Listed(db.trades, user, None, start, end))))
    ensures r.value.totalTrades == |Closed(Listed(db.trades, user, None, start, end))|
  {
    var query := TradesOf(db.trades, user);
    UserStage(db.trades, user);
    if start.Some? {
      query := EnteredFrom(query, start.value);
    }
    StartStage(db.trades, user, None, start);
    if end.Some? {
      query := EnteredTo(query, end.value);
    }
    EndStage(db.trades, user, None, start, end);
    var trades := OrderByEntryDateDesc(query);
    OrderByEntryDateDescSorts(query);
    ClosedCountPermutation(trades, query);
    if trades == [] {
      return Ok(ZeroSummary);
    }
    r := Ok(Summarize(trades));
  }

  /** The number of closed trades does not depend on their order. */
  lemma ClosedCountPermutation(a: seq<Trade>, b: seq<Trade>)
    requires multiset(a) == multiset(b)
    ensures |Closed(a)| == |Closed(b)|
  {
    FilterMultiset(a, (t: Trade) => t.profitLoss.Some?);
    FilterMultiset(b, (t: Trade) => t.profitLoss.Some?);
    FilteredMultisetsEqual(a, b, (t: Trade) => t.profitLoss.Some?);
  }

  /** `get_ai_insights`: the caller's 50 latest trades by entry date,
      analysed. */
  method GetAiInsights(db: Database, user: UserId, analyze: seq<TradeSummary> -> Option<Json>) returns (r: Json)
    ensures var mine := OrderByEntryDateDesc(TradesOf(db.trades, user));
      r == Insights(mine[..Min(50, |mine|)], analyze)
    ensures TradesOf(db.trades, user) == [] ==> r == FixedInsights(NoTradesYet)
  {
    var mine := OrderByEntryDateDesc(TradesOf(db.trades, user));
    var recent := mine[..Min(50, |mine|)];
    r := AnalyzeTrades(recent, analyze);
  }

  /** The store's `.limit(50)` and the service's `trades[:50]` agree: the
      insights are those of all the caller's trades in that order. */
  lemma InsightsLimitAgrees(trades: seq<Trade>, analyze: seq<TradeSummary> -> Option<Json>)
    ensures Insights(trades[..Min(50, |trades|)], analyze) == Insights(trades, analyze)
  {
    ProjectionOfFirst50(trades);
  }

  /** The response of `/ai/extract-trade`. */
  datatype ExtractionResponse = ExtractionResponse(trade: Option<TradeDraft>, message: string)

  const NoTradeFound: string := "No trade information found in the text"
  const TradeFound: string := "Trade information extracted successfully"

  /** `extract_trade`: the draft, if any, and the message that says which. */
  function ExtractTrade(text: string, o: Oracles): (r: ExtractionResponse)
    ensures r.trade == ExtractTradeFromText(text, o.extraction, o.parse, o.validate)
    ensures r.message == (if r.trade.Some? then TradeFound else NoTradeFound)
  {
    var extracted := ExtractTradeFromText(text, o.extraction, o.parse, o.validate);
    if extracted.None? then ExtractionResponse(None, NoTradeFound)
    else ExtractionResponse(extracted, TradeFound)
  }
}
