# Trading journal backend — a verified model

This project models the core of a FastAPI backend for a trading journal.
Users record trades, and the backend derives each trade's profit/loss from its
prices. Users also hold chats with an AI assistant, which can pick a trade out
of a chat message, answer with the user's trade history in context, summarise
the user's results and produce insights. A founder console lists every user
with their activity counts.

The modules follow the source files:

- `Records` holds the record shapes (`TradeCreate`, `TradeUpdate`,
  `TradeResponse`, chats and messages) and the derived profit/loss
  `(exit − entry) × quantity`.
- `Store` replaces the Supabase tables with an in-memory `Database` class.
  Its chats, messages and trades are `seq` fields. Ids and creation stamps
  come from counters that only grow, so ordering by `created_at` ascending is
  insertion order. Its invariant `Valid()` includes the trade invariant:
  profit/loss is present exactly when the exit price is, and then equals the
  formula.
- `TradeRouter` and `ChatRouter` hold the owner-scoped handlers of
  `app/apis/trade_router.py` and `app/apis/chat_router.py`. They are methods
  on the `Database`.
- `AiService` holds the decision logic of `app/libs/ai_service.py`:
  - when a reply of the extraction model counts as a trade;
  - the last-10 history with its role mapping;
  - the trade-context block and the message sent to the chat model;
  - the 50-trade projection;
  - the fixed fallback values.
- `Analytics` is the pure summary behind `get_analytics`.
- `AiRouter` holds the handlers of `app/apis/ai_router.py`: the chat turn, the
  analytics and insights endpoints, and trade extraction.
- `InternalRouter` holds the profile map and the row join of
  `get_all_users_and_metrics`.
- `Config` holds `Settings.cors_origins_list`.
- `Common` and `Text` hold shared helpers. `Text` covers Python's `strip`,
  `upper`, `lower`, `split` and `join` on strings.

Everything outside the backend is a parameter:

- the three Gemini models;
- `json.loads` and `json.dumps`;
- `TradeCreate` validation;
- the analytics RPC and the profiles query of the console;
- the clock (`now`);
- whether an insert returned its row.

Each of these is a total function or value. A failing call is `None`, or a
dedicated constructor where the source tells failures apart.

Where the code does less than a name, docstring or comment suggests, the
model follows the code:

- `update_trade` recomputes `profit_loss` only when a price or the quantity
  is in the update (`app/apis/trade_router.py:146-155`). Clearing
  `exit_date` alone (:160-161) leaves `exit_price` and `profit_loss` as
  stored (`TradeRouter.PatchKeepsProfitLoss`).
- `ai_chat` stores and returns the chat model's reply unchanged, even when a
  trade was extracted and saved (`app/apis/ai_router.py:88-99`).
- Prices and quantities are plain floats (`app/apis/models.py:99-102`). They
  are not checked for positivity.
- `delete_chat` is documented as deleting a chat and all its messages
  (`app/apis/chat_router.py:118`), but it deletes the chat row only
  (:136-139). Its messages are not touched by the handler.
- `app/apis/internal_router.py` imports `UserDataInternal` and
  `OverviewMetrics`, but `app/apis/models.py` defines neither. `main.py` also
  does not mount that router. The model takes the record shape from the
  constructor call at `app/apis/internal_router.py:88-96`.

## Model

| member | source | states |
|---|---|---|
| Records.ProfitLoss | app/apis/trade_router.py:19-21 | definition of the profit/loss formula, (exit − entry) × quantity when an exit price is given and none otherwise; its contract is stated by ProfitLossSign, CreateRowConsistent and PatchRecomputes |
| Records.ProfitLossSign | app/apis/trade_router.py:19-21 | for a positive quantity the profit/loss is positive exactly when the exit price is above the entry price, and zero exactly when they are equal |
| Records.OrderByEntryDateDesc | app/apis/trade_router.py:75 | definition of `.order("entry_date", desc=True)`; its contract is stated by OrderByEntryDateDescSorts and GetTrades |
| Records.OrderByEntryDateDescSorts | app/apis/trade_router.py:75 | ordering by entry date descending yields a permutation of the rows (same multiset, same length) whose entry dates never increase |
| Store.TradesWithoutRemovesOne | app/apis/trade_router.py:204-207 | deleting by id in a table of unique ids removes exactly that row and keeps every other row in order |
| Store.ChatsWithoutRemovesOne | app/apis/chat_router.py:136-139 | deleting a chat by id removes exactly that chat and keeps the others in order |
| Store.Database.InsertChat | app/apis/chat_router.py:24-27 | appends one chat with a fresh id and the current stamp; nothing else changes |
| Store.Database.InsertMessage | app/apis/chat_router.py:176-181 | appends one message with a fresh id and the current stamp; nothing else changes |
| Store.Database.InsertTrade | app/apis/trade_router.py:24-34 | appends the row as a stored trade with a fresh id; the store stays valid because the row satisfies the trade invariant |
| Store.Database.UpdateTradeAt | app/apis/trade_router.py:164-167 | replaces one trade row in place; every other row and table is unchanged |
| Store.Database.DeleteTrades | app/apis/trade_router.py:204-207 | removes the rows with that id; the other tables are unchanged |
| Store.Database.DeleteChats | app/apis/chat_router.py:136-139 | removes the chats with that id; messages and trades are unchanged |
| TradeRouter.CreateRow | app/apis/trade_router.py:19-33 | definition of the row `create_trade` inserts; its contract is stated by CreateRowConsistent and CreateTrade |
| TradeRouter.CreateRowConsistent | app/apis/trade_router.py:19-33 | the row `create_trade` inserts satisfies the trade invariant for every draft (an exit price of 0 included), carries the caller's id and the upper-cased ticker |
| TradeRouter.CreateTrade | app/apis/trade_router.py:11-49 | with a returned row, exactly one trade is appended, owned by the caller, ticker upper-cased, with profit/loss present iff the exit price is and equal to (exit − entry) × quantity; with no returned row the result is 500 (the 400 is caught by the generic handler) and no row is added |
| TradeRouter.GetTrades | app/apis/trade_router.py:52-77 | the result is ordered by entry date descending, is a permutation of the caller's matching rows, and a trade is in it iff it is stored, owned by the caller, has the upper-cased ticker when a non-empty filter is given and has its entry date within the given inclusive bounds |
| TradeRouter.UserStage | app/apis/trade_router.py:62-64 | the owner filter alone is the list with no optional filter |
| TradeRouter.TickerStage | app/apis/trade_router.py:66-67 | the ticker filter narrows the list only when a non-empty ticker is given, comparing with its upper-cased form |
| TradeRouter.StartStage | app/apis/trade_router.py:69-70 | the start bound narrows the list to entry dates at or after it, only when given |
| TradeRouter.EndStage | app/apis/trade_router.py:72-73 | the end bound narrows the list to entry dates at or before it, only when given |
| TradeRouter.ListedMembers | app/apis/trade_router.py:62-73 | a row is selected iff it is stored and matches every filter |
| TradeRouter.GetTrade | app/apis/trade_router.py:87-117 | the result is a trade exactly when the caller owns a stored trade with that id, and then it is that trade; otherwise 404 |
| TradeRouter.ApplyPatch | app/apis/trade_router.py:144-161 | definition of the row `update_trade` writes; its contract is stated by PatchRecomputes, PatchKeepsProfitLoss, PatchPreservesConsistent, PatchIdempotent, PatchTwice, PatchTickerVerbatim and UpdateTrade |
| TradeRouter.PatchRecomputes | app/apis/trade_router.py:144-155 | a patch setting a price or the quantity recomputes profit/loss from the patched values, each omitted one taking its stored value; a resulting null exit price makes profit/loss null |
| TradeRouter.PatchKeepsProfitLoss | app/apis/trade_router.py:144-161 | a patch setting neither price nor the quantity keeps profit/loss and the exit price, even when it clears the exit date |
| TradeRouter.PatchPreservesConsistent | app/apis/trade_router.py:147-155 | every update keeps the trade invariant |
| TradeRouter.PatchIdempotent | app/apis/trade_router.py:144-161 | a patch whose every set field equals the stored value leaves a consistent trade unchanged |
| TradeRouter.PatchTwice | app/apis/trade_router.py:144-161 | applying the same update twice to a consistent trade gives the same row as applying it once |
| TradeRouter.PatchTickerVerbatim | app/apis/trade_router.py:144 | a patched ticker is written as supplied, not upper-cased |
| TradeRouter.UpdateTrade | app/apis/trade_router.py:120-178 | 404 with no change when the caller does not own the trade; otherwise exactly that row becomes the patched trade and the result is the new row |
| TradeRouter.DeleteTrade | app/apis/trade_router.py:181-218 | 404 with no change when the caller does not own the trade; otherwise exactly that row is removed and the rest keep their order |
| ChatRouter.CreateChat | app/apis/chat_router.py:13-44 | with a returned row, one chat with the title and the caller's id is appended; with none the result is 500 and nothing is added |
| ChatRouter.GetChats | app/apis/chat_router.py:47-65 | a chat is listed iff it is stored and the caller's; the list is newest first, with creation stamps strictly decreasing |
| ChatRouter.NewChatFirst | app/apis/chat_router.py:52-56 | a chat just created heads its owner's list, and other users' lists do not change |
| ChatRouter.GetChat | app/apis/chat_router.py:68-110 | 404 exactly when the caller owns no chat with that id; otherwise the chat and exactly the messages stored for it, oldest first |
| ChatRouter.NewMessageLast | app/apis/chat_router.py:92-96 | a message just stored is the last one listed for its chat |
| ChatRouter.DeleteChat | app/apis/chat_router.py:113-150 | 404 with no change when the caller does not own the chat; otherwise exactly that chat row is removed, messages untouched |
| ChatRouter.DeletedChatGone | app/apis/chat_router.py:122-139 | once deleted, the chat is not found for any user again |
| ChatRouter.CreateMessage | app/apis/chat_router.py:153-198 | 404 and nothing stored for a chat the caller does not own; 400 when the store returns no row; otherwise one message with the caller's id and the role exactly as supplied is appended |
| AiService.ExtractTradeFromText | app/libs/ai_service.py:69-93 | definition of `extract_trade_from_text`; its contract is stated by ExtractionAccepts, ExtractNullReply, ExtractIgnoresPadding and NullReplyIsNoTrade |
| AiService.ExtractionAccepts | app/libs/ai_service.py:69-93 | extraction yields a draft exactly when the model replies, the stripped reply is not "null" in any case, it parses to an object with a "ticker" key, and that object validates; the draft is the validated one |
| AiService.ExtractNullReply | app/libs/ai_service.py:76-80 | a reply that strips to "null" in any letter case yields no trade, whatever the parser says |
| AiService.ExtractIgnoresPadding | app/libs/ai_service.py:76 | surrounding whitespace in the reply does not change the decision |
| AiService.NullReplyIsNoTrade | app/libs/ai_service.py:76-80 | a model reply of " Null\n" extracts no trade, whatever the parser and the validator would say |
| AiService.RecentTurnsShape | app/libs/ai_service.py:104-110 | the history sent is the last min(10, n) entries in order; "assistant" maps to the model role and any other or missing role to the user; missing content becomes "" |
| AiService.RecentTurnsLast | app/libs/ai_service.py:105 | the entry appended last is the last turn sent |
| AiService.BuildModelHistory | app/libs/ai_service.py:103-110 | the loop builds exactly the recent turns |
| AiService.TradeContext | app/libs/ai_service.py:112-120 | definition of `trade_context`; its contract is stated by TradeContextParts |
| AiService.TradeContextParts | app/libs/ai_service.py:112-120 | with history, the context starts with the header, ends with the footer, and holds exactly the serialised history between them; without history, it is exactly the fixed notice, which no non-empty history produces |
| AiService.FullContextMessage | app/libs/ai_service.py:123-130 | definition of `full_context_message`; its contract is stated by FullContextParts |
| AiService.FullContextParts | app/libs/ai_service.py:123-130 | the message sent holds the context block after the preamble and ends with the user request after the "[USER REQUEST]: " label; both can be read back out |
| AiService.ChatReply | app/libs/ai_service.py:95-143 | definition of what `generate_chat_response` returns; its contract is stated by GenerateChatResponse, RecentTurnsShape, TradeContextParts and FullContextParts |
| AiService.GenerateChatResponse | app/libs/ai_service.py:95-143 | the reply is the chat model's answer to the recent turns and the full context message, or the fixed apology when the call fails |
| AiService.Projection | app/libs/ai_service.py:154-164 | definition of `trade_summary`; its contract is stated by ProjectionShape and ProjectionOfFirst50 |
| AiService.ProjectionShape | app/libs/ai_service.py:154-164 | at most 50 entries, the first trades in order, each with the trade's ticker, entry price, exit price, profit/loss and entry date as its date |
| AiService.ProjectionOfFirst50 | app/libs/ai_service.py:156 | cutting the list at 50 before projecting changes nothing |
| AiService.Insights | app/libs/ai_service.py:145-195 | definition of what `analyze_trades` returns; its contract is stated by AnalyzeTrades, InsightsFixedValues and InsightsLimitAgrees |
| AiService.AnalyzeTrades | app/libs/ai_service.py:145-195 | no trades gives {"No trades to analyze yet.", []}; a failed analysis gives {"Analysis unavailable", []}; otherwise the parsed analysis of the projection |
| AiService.InsightsFixedValues | app/libs/ai_service.py:148-195 | the result is the "No trades to analyze yet." value exactly when there are no trades or the analysis itself is that value, and the "Analysis unavailable" value exactly when there are trades and the analysis fails or is that value |
| Analytics.Summarize | app/apis/ai_router.py:159-197 | definition of the summary `get_analytics` computes; its contract is stated by SummaryCounts, WinRateBounds, AverageSigns, BestAndWorst and NoClosedTradesIsZero |
| Analytics.FirstMax | app/apis/ai_router.py:186 | the best trade's index: its profit/loss is maximal and every earlier one is strictly smaller (ties go to the first) |
| Analytics.FirstMin | app/apis/ai_router.py:187 | the worst trade's index: its profit/loss is minimal and every earlier one is strictly larger |
| Analytics.BucketsPartition | app/apis/ai_router.py:179-180 | winners, losers and break-even trades together count every closed trade once; a profit/loss of 0 is in neither winners nor losers |
| Analytics.TotalPartition | app/apis/ai_router.py:177-180 | the total profit/loss is the winners' sum plus the losers' sum |
| Analytics.TotalPositive | app/apis/ai_router.py:183 | a non-empty sum of profits is positive |
| Analytics.TotalNegative | app/apis/ai_router.py:184 | a non-empty sum of losses is negative |
| Analytics.SummaryCounts | app/apis/ai_router.py:174-182 | total_trades is the number of closed trades, total_profit_loss their sum, and the win rate a percentage in [0, 100], 0 without closed trades |
| Analytics.WinRateBounds | app/apis/ai_router.py:182 | the win rate lies in [0, 100] and times the closed count equals 100 × the winner count |
| Analytics.AverageSigns | app/apis/ai_router.py:183-184 | the mean profit is positive and the mean loss negative when their bucket is non-empty, and each is 0 when it is empty |
| Analytics.BestAndWorst | app/apis/ai_router.py:186-187 | best and worst are absent exactly when nothing is closed; otherwise closed trades with maximal and minimal profit/loss, best ≥ worst |
| Analytics.NoClosedTradesIsZero | app/apis/ai_router.py:162-171 | open trades only, or none at all, summarise to the fixed zero result |
| AiRouter.HistoryOf | app/apis/ai_router.py:55 | definition of `chat_history_for_ai`; its contract is stated by HistoryEndsWithUserMessage and TurnMessagesLast |
| AiRouter.RecentTrades | app/libs/ai_service.py:99-117 | definition of the trade history the chat model is meant to see, the caller's 20 latest trades by entry date as the context header names them; its use is stated by AiChat |
| AiRouter.AiChat | app/apis/ai_router.py:14-109 | 404 and nothing written for a chat the caller does not own; otherwise the user message is stored first, a trade row built as `create_trade` builds it is stored exactly when extraction yields a draft, then the assistant message, whose content is the returned reply along with the draft |
| AiRouter.SaveTurnResults | app/apis/ai_router.py:70-95 | the optional trade insert comes before the assistant message, each with the next id and stamp |
| AiRouter.AiChatAsWritten | app/apis/ai_router.py:57-109 | as written: 404 for an unowned chat; otherwise 500 after the user message is stored, with no trade and no assistant message |
| AiRouter.HistoryEndsWithUserMessage | app/apis/ai_router.py:38-55 | the history read after the insert ends with the user message, as the user's turn |
| AiRouter.TurnMessagesLast | app/apis/ai_router.py:38-95 | after a turn the chat lists the user message and then the assistant message last |
| AiRouter.ChatTradeRowAsWritten | app/apis/ai_router.py:73-86 | definition of the row `ai_chat` builds from a draft, as written; its contract is stated by ZeroExitBreaksInvariant and ChatTradeRowAgreesOffZero |
| AiRouter.ZeroExitBreaksInvariant | app/apis/ai_router.py:82-85 | as written, a draft closed at price 0 is stored without profit/loss, breaking the trade invariant |
| AiRouter.ChatTradeRowAgreesOffZero | app/apis/ai_router.py:73-86 | for every other exit price the row as written equals the one `create_trade` builds |
| AiRouter.GetAnalyticsAsWritten | app/apis/ai_router.py:140-204 | as written: an end date gives 500; without one, the summary of the caller's trades from the start date on, latest first |
| AiRouter.GetAnalytics | app/apis/ai_router.py:140-197 | the summary of the caller's trades within both inclusive bounds, latest first, counting exactly the closed ones among them |
| AiRouter.ClosedCountPermutation | app/apis/ai_router.py:159-176 | the count of closed trades does not depend on their order |
| AiRouter.GetAiInsights | app/apis/ai_router.py:207-230 | the insights of the caller's 50 latest trades by entry date; the fixed "no trades" value when the caller has none |
| AiRouter.InsightsLimitAgrees | app/apis/ai_router.py:213-221 | the store's limit of 50 and the service's cut at 50 agree |
| AiRouter.ExtractTrade | app/apis/ai_router.py:112-137 | definition of the `/ai/extract-trade` response; its contract is stated by ExtractionAccepts, ExtractNullReply and ExtractIgnoresPadding |
| InternalRouter.ProfilesMap | app/apis/internal_router.py:73-74 | a pseudonymous id is a key exactly when some profile with a non-empty one carries it, and it maps to the last such profile in the list (LastKeyed: that profile carries the id and no later one does) |
| InternalRouter.JoinRow | app/apis/internal_router.py:79-96 | definition of one entry of `final_data`; its contract is stated by UnmatchedRowDefaults, MatchedRowUsesLastProfile and JoinRows |
| InternalRouter.UnmatchedRowDefaults | app/apis/internal_router.py:79-95 | a row with no matching profile gets id "N/A", consent false, created_at the join date or now, updated_at equal to created_at, and counts defaulting to 0 |
| InternalRouter.MatchedRowUsesLastProfile | app/apis/internal_router.py:79-95 | a matched row takes id, consent and updated_at from the last profile carrying its pseudonymous id, and created_at from the join date, else that profile's created_at, else now |
| InternalRouter.JoinRows | app/apis/internal_router.py:78-98 | exactly one output entry per analytics row, in row order, each the join of that row |
| InternalRouter.GetAllUsersAndMetrics | app/apis/internal_router.py:44-98 | 500 when the RPC raises; 403 when it reports "Access denied"; 500 when the profiles query raises or there are no rows to iterate; otherwise one joined entry per row |
| Config.CorsOriginsList | app/libs/config.py:31-34 | definition of `cors_origins_list`; its contract is stated by OriginsShape, OriginsRoundTrip, TwoOrigins, DefaultOrigins and EmptyOrigins |
| Config.OriginsShape | app/libs/config.py:31-34 | the number of origins is the number of commas plus one, and no origin has surrounding whitespace or a comma |
| Config.OriginsRoundTrip | app/libs/config.py:31-34 | when no field has surrounding whitespace, the origins are the fields in order, and joining them with "," gives the setting back |
| Config.TwoOrigins | app/libs/config.py:31-34 | two clean origins joined by a comma come back as exactly those two |
| Config.DefaultOrigins | app/libs/config.py:29-34 | the default setting yields exactly "http://localhost:5173" and "http://localhost:3000" |
| Config.EmptyOrigins | app/libs/config.py:31-34 | an empty setting yields a single empty origin |
| Text.Strip | app/libs/config.py:34 | definition of Python's `str.strip()`; its contract is stated by StripIsTrimmedInfix, StripTrimmed and StripPadded |
| Text.StripIsTrimmedInfix | app/libs/config.py:34 | `strip` returns a contiguous part of the string with no surrounding whitespace |
| Text.StripTrimmed | app/libs/config.py:34 | `strip` leaves a string without surrounding whitespace unchanged |
| Text.StripPadded | app/libs/ai_service.py:76 | `strip` removes any whitespace padding around a string |
| Text.Split | app/libs/config.py:34 | definition of Python's `str.split(sep)`; its contract is stated by SplitFields, JoinSplit and SplitJoin |
| Text.SplitFields | app/libs/config.py:34 | `split(",")` yields commas-plus-one fields, none containing a comma |
| Text.JoinSplit | app/libs/config.py:34 | joining the fields of a split with the separator restores the string |
| Text.SplitJoin | app/libs/config.py:34 | splitting a join of separator-free fields restores the fields |
| Text.Upper | app/apis/trade_router.py:26 | definition of Python's `str.upper()` on ASCII letters; its contract is stated by UpperIdempotent |
| Text.UpperIdempotent | app/apis/trade_router.py:26 | upper-casing an upper-cased ticker changes nothing, so `.upper()` in `get_trades` matches the stored ticker form |

## Left out

- Gemini calls, prompts and model configuration (`app/libs/ai_service.py:12-67`): foreign API. Each model call is a parameter returning its text or `None`.
- `json.loads`, `json.dumps` and `TradeCreate(**…)` validation: parameters. `None` stands for any exception they raise.
- Supabase: the tables are in-memory sequences. `.single()` raising on zero or several rows is not modelled; a lookup returns the first owned row or none. Row ids are counters, not UUIDs. Database exceptions other than an empty insert result, and the 500 each handler turns them into, are not modelled.
- `asyncio.gather` and `asyncio.to_thread`: the calls run one after the other.
- Floating point and `round(…, 2)`: amounts are exact reals and the summary is unrounded.
- Dates, `isoformat` and `fromisoformat`: dates are integers with their order.
- InternalRouter.GetAllUsersAndMetrics: `datetime.now()` is read once per request as the parameter `now`, although the source reads the clock again for each row.
- InternalRouter.GetAllUsersAndMetrics: an error object without a "message" key, a null count, and the validation of the returned records are not modelled.
- Authentication (`app/auth/`), `main.py`, `print` logging and error-detail strings.
- The mock endpoints of `app/apis/internal_router.py:101-166`: constant data.
- Text.Upper: ASCII case mapping only; Python's `upper` and `lower` map all of Unicode.
- TradeRouter.ApplyPatch: an explicit null for a non-nullable column of `TradeUpdate` is not modelled.
- AiRouter.GetAnalytics: the store leaves the order among trades with equal entry dates unspecified. The model fixes one order (a stable insertion sort), so best and worst among ties are stated for that order only. The same holds for which trades fill the 50 of `AiRouter.GetAiInsights` and the 20 of `AiRouter.AiChat`.
- AiRouter.AiChat: the results of the trade insert and of the assistant-message insert are not checked by the source. Both are modelled as succeeding.
- AiRouter.AiChat: `trade_history` is the caller's 20 latest trades by entry date. This matches the "(Last 20 Trades)" header of the context block. The source never builds it (see Findings).

## Findings

| source | as written | input that shows it | evidently intended | confidence | as-written member | corrected member |
|---|---|---|---|---|---|---|
| app/apis/ai_router.py:59-62 | `generate_chat_response` is called without its required `trade_history` argument, so every turn on an owned chat raises `TypeError`, answered with 500 after the user message is stored | any owned chat and any message | the caller's recent trades are passed as trade history and the turn completes | not executed | AiRouter.AiChatAsWritten | AiRouter.AiChat |
| app/apis/ai_router.py:82-85 | profit/loss of an extracted trade is guarded by truthiness of the exit price, so an exit price of 0 stores no profit/loss | draft with entry price 10, quantity 1, exit price 0 | profit/loss −10, as `create_trade` derives it | not executed | AiRouter.ZeroExitBreaksInvariant | TradeRouter.CreateRowConsistent |
| app/apis/ai_router.py:156-157 | the end bound reads the undefined name `end_date`, so any request with an end date yields 500 | a request with `end_date` set | trades with entry date up to `request.end_date` | not executed | AiRouter.GetAnalyticsAsWritten | AiRouter.GetAnalytics |
