/** The decision logic of `AIService` (app/libs/ai_service.py) around its
    three model calls. The calls themselves, JSON parsing and serialisation
    and `TradeCreate` validation are parameters: each is a total function
    that either yields its value or `None` when it would raise. What is
    modelled is what the service does with their results: when a reply
    counts as a trade, which history and context the chat model is sent,
    and the fixed values used when something fails. */
module AiService {
  import opened Common
  import opened Text
  import opened Records

  /** A parsed JSON document. */
  datatype Json =
    | JNull
    | JBool(b: bool)
    | JNumber(n: real)
    | JString(s: string)
    | JArray(items: seq<Json>)
    | JObject(fields: map<string, Json>)

  /** Python truthiness of a parsed document. */
  predicate Truthy(v: Json) {
    match v
    case JNull => false
    case JBool(b) => b
    case JNumber(n) => n != 0.0
    case JString(s) => s != ""
    case JArray(items) => items != []
    case JObject(fields) => fields != map[]
  }

  // ---------------------------------------------------------------------
  // extract_trade_from_text

  /** `extract_trade_from_text`. `model(text)` is the extraction model's
      reply text, `parse` is `json.loads` and `validate` is
      `TradeCreate(**fields)`; each is `None` where the call would raise, and
      the handler turns every such exception into `None`. A reply is a trade
      only when, stripped, it is not "null" in any letter case and it parses
      to a non-empty object with a "ticker" key that validates. Any other
      parsed value yields `None`: it is falsy, has no "ticker" member, does
      not support `in`, or is not a mapping that `**` can unpack. */
  function ExtractTradeFromText(
    text: string,
    model: string -> Option<string>,
    parse: string -> Option<Json>,
    validate: map<string, Json> -> Option<TradeDraft>): Option<TradeDraft>
  {
    match model(text)
    case None => None
    case Some(reply) =>
      var content := Strip(reply);
      if Lower(content) == "null" then None
      else
        match parse(content)
        case Some(JObject(fields)) =>
          if Truthy(JObject(fields)) && "ticker" in fields then validate(fields) else None
        case _ => None
  }

  /** A draft comes out exactly when the reply, stripped, is not "null", parses
      to an object with a "ticker" key, and that object validates; the draft
      is the validated one. */
  lemma ExtractionAccepts(
    text: string,
    model: string -> Option<string>,
    parse: string -> Option<Json>,
    validate: map<string, Json> -> Option<TradeDraft>)
    ensures ExtractTradeFromText(text, model, parse, validate).Some? <==>
              && model(text).Some?
              && Lower(Strip(model(text).value)) != "null"
              && parse(Strip(model(text).value)).Some?
              && parse(Strip(model(text).value)).value.JObject?
              && "ticker" in parse(Strip(model(text).value)).value.fields
              && validate(parse(Strip(model(text).value)).value.fields).Some?
    ensures ExtractTradeFromText(text, model, parse, validate).Some? ==>
              ExtractTradeFromText(text, model, parse, validate)
                == validate(parse(Strip(model(text).value)).value.fields)
  {
    var r := ExtractTradeFromText(text, model, parse, validate);
    if model(text).Some? {
      var content := Strip(model(text).value);
      if Lower(content) != "null" && parse(content).Some? {
        var v := parse(content).value;
        if v.JObject? && "ticker" in v.fields {
          assert Truthy(v);
          assert r == validate(v.fields);
        } else {
          assert r == None;
        }
      } else {
        assert r == None;
      }
    } else {
      assert r == None;
    }
  }

  /** A reply that strips to "null" in any letter case is no trade, whatever
      the parser and the validator would say. */
  lemma ExtractNullReply(
    text: string,
    model: string -> Option<string>,
    parse: string -> Option<Json>,
    validate: map<string, Json> -> Option<TradeDraft>)
    requires model(text).Some? && Lower(Strip(model(text).value)) == "null"
    ensures ExtractTradeFromText(text, model, parse, validate) == None
  {
  }

  /** Padding the reply with whitespace changes nothing: the decision depends
      on the reply only through its stripped text. */
  lemma ExtractIgnoresPadding(
    text: string,
    model: string -> Option<string>,
    padded: string -> Option<string>,
    parse: string -> Option<Json>,
    validate: map<string, Json> -> Option<TradeDraft>,
    before: string, after: string)
    requires model(text).Some?
    requires forall i :: 0 <= i < |before| ==> IsSpace(before[i])
    requires forall i :: 0 <= i < |after| ==> IsSpace(after[i])
    requires padded(text) == Some(before + model(text).value + after)
    ensures ExtractTradeFromText(text, padded, parse, validate) == ExtractTradeFromText(text, model, parse, validate)
  {
    StripPadded(before, model(text).value, after);
  }

  /** A model reply of " Null\n" is no trade, whatever the parser and the
      validator would say. */
  lemma NullReplyIsNoTrade(
    text: string,
    model: string -> Option<string>,
    parse: string -> Option<Json>,
    validate: map<string, Json> -> Option<TradeDraft>)
    requires model(text) == Some(" Null\n")
    ensures ExtractTradeFromText(text, model, parse, validate) == None
  {
    StripNullReply();
    ExtractNullReply(text, model, parse, validate);
  }

  /** " Null\n", stripped and lower-cased, is "null". */
  lemma StripNullReply()
    ensures Lower(Strip(" Null\n")) == "null"
  {
    var s := " Null\n";
    assert IsSpace(s[0]) && !IsSpace(s[1]);
    assert TrimStart(s) == s[1..];
    assert TrimStart(s) == "Null\n";
    assert IsSpace("Null\n"[4]) && !IsSpace("Null"[3]);
    assert TrimEnd("Null\n") == TrimEnd("Null");
    assert Strip(s) == "Null";
  }

  // ---------------------------------------------------------------------
  // generate_chat_response

  /** One entry of `chat_history`: a dict that may lack either key. */
  datatype HistoryEntry = HistoryEntry(role: Option<string>, content: Option<string>)

  /** The two roles the chat model knows. */
  datatype Role = User | Model

  /** One turn of the history sent to the chat model. */
  datatype Turn = Turn(role: Role, text: string)

  /** "assistant" becomes the model's turn, any other or missing role the
      user's; missing content becomes "". */
  function AsTurn(e: HistoryEntry): Turn {
    Turn(if e.role == Some("assistant") then Model else User, e.content.GetOr(""))
  }

  /** `chat_history[-10:]`. */
  function Recent(history: seq<HistoryEntry>): seq<HistoryEntry> {
    history[|history| - Min(10, |history|)..]
  }

  /** The history sent to the chat model, as a specification. */
  function RecentTurns(history: seq<HistoryEntry>): seq<Turn> {
    var recent := Recent(history);
    seq(|recent|, i requires 0 <= i < |recent| => AsTurn(recent[i]))
  }

  /** The turns sent are the last min(10, n) entries, in their order. */
  lemma RecentTurnsShape(history: seq<HistoryEntry>)
    ensures |RecentTurns(history)| == Min(10, |history|)
    ensures forall i :: 0 <= i < |RecentTurns(history)| ==>
              var e := history[|history| - |RecentTurns(history)| + i];
              && (RecentTurns(history)[i].role == Model <==> e.role == Some("assistant"))
              && RecentTurns(history)[i].text == e.content.GetOr("")
  {
  }

  /** The message just appended is the last turn sent. */
  lemma RecentTurnsLast(history: seq<HistoryEntry>, e: HistoryEntry)
    ensures |RecentTurns(history + [e])| >= 1
    ensures RecentTurns(history + [e])[|RecentTurns(history + [e])| - 1] == AsTurn(e)
  {
    var h := history + [e];
    assert Recent(h)[|Recent(h)| - 1] == h[|h| - 1];
  }

  /** The `for` loop of `generate_chat_response` that builds `gemini_history`. */
  method BuildModelHistory(history: seq<HistoryEntry>) returns (turns: seq<Turn>)
    ensures turns == RecentTurns(history)
  {
    var start := |history| - Min(10, |history|);
    turns := [];
    for i := start to |history|
      invariant |turns| == i - start
      invariant forall j :: 0 <= j < |turns| ==> turns[j] == AsTurn(history[start + j])
    {
      turns := turns + [AsTurn(history[i])];
    }
  }

  const TradeHistoryHeader: string := "\n\n--- TRADE HISTORY FOR ANALYSIS (Last 20 Trades) ---\n"
  const TradeHistoryFooter: string := "\n-----------------------------------------------------\n"
  const NoTradeHistory: string := "\n\n(No trade history found for analysis.)\n"
  const ContextPreamble: string :=
    "\n[CONTEXT]: Use the trade data below to answer the user's request. Focus on providing personalized analysis, review, or planning suggestions based on this history.\n\n"
  const UserRequestLabel: string := "\n\n[USER REQUEST]: "
  const Apology: string := "I apologize, but I'm having trouble processing your request right now. Please try again."

  /** `trade_context`: the serialised history between a header and a footer
      when there is history, the fixed notice otherwise. `dumps` is
      `json.dumps(…, indent=2, default=str)`. */
  function TradeContext<T>(tradeHistory: seq<T>, dumps: seq<T> -> string): string {
    if tradeHistory != [] then TradeHistoryHeader + dumps(tradeHistory) + TradeHistoryFooter
    else NoTradeHistory
  }

  /** With history, the block is the header, the serialised history and the
      footer, and the history can be read back out; without it, the block is
      exactly the fixed notice, which no history produces. */
  lemma TradeContextParts<T>(tradeHistory: seq<T>, dumps: seq<T> -> string)
    ensures var ctx := TradeContext(tradeHistory, dumps);
      && (tradeHistory != [] ==>
            && |ctx| == |TradeHistoryHeader| + |dumps(tradeHistory)| + |TradeHistoryFooter|
            && ctx[..|TradeHistoryHeader|] == TradeHistoryHeader
            && ctx[|TradeHistoryHeader|..|ctx| - |TradeHistoryFooter|] == dumps(tradeHistory)
            && ctx[|ctx| - |TradeHistoryFooter|..] == TradeHistoryFooter
            && ctx != NoTradeHistory)
      && (tradeHistory == [] ==> ctx == NoTradeHistory)
  {
    var ctx := TradeContext(tradeHistory, dumps);
    if tradeHistory != [] {
      var d := dumps(tradeHistory);
      var h := |TradeHistoryHeader|;
      assert ctx == TradeHistoryHeader + d + TradeHistoryFooter;
      assert ctx[..h] == TradeHistoryHeader;
      assert ctx[h..|ctx| - |TradeHistoryFooter|] == d;
      assert ctx[|ctx| - |TradeHistoryFooter|..] == TradeHistoryFooter;
      assert |ctx| > |NoTradeHistory|;
    }
  }

  /** `full_context_message`. */
  function FullContextMessage(tradeContext: string, userMessage: string): string {
    ContextPreamble + tradeContext + UserRequestLabel + userMessage + "\n"
  }

  /** The message sent ends with the user's request after the label, and the
      context block sits between the preamble and the label: both can be read
      back out. */
  lemma FullContextParts(tradeContext: string, userMessage: string)
    ensures var m := FullContextMessage(tradeContext, userMessage);
      && |m| == |ContextPreamble| + |tradeContext| + |UserRequestLabel| + |userMessage| + 1
      && m[|m| - 1 - |userMessage|..|m| - 1] == userMessage
      && m[|m| - 1 - |userMessage| - |UserRequestLabel|..|m| - 1 - |userMessage|] == UserRequestLabel
      && m[|ContextPreamble|..|ContextPreamble| + |tradeContext|] == tradeContext
  {
    var m := FullContextMessage(tradeContext, userMessage);
    var a := |ContextPreamble| + |tradeContext|;
    var b := a + |UserRequestLabel|;
    assert m[..|ContextPreamble|] == ContextPreamble;
    assert m[|ContextPreamble|..a] == tradeContext;
    assert m[a..b] == UserRequestLabel;
    assert m[b..b + |userMessage|] == userMessage;
  }

  /** What `generate_chat_response` returns: the chat model's reply to the
      full context message, sent after the recent turns, or the apology when
      the call fails. `chatModel` is `start_chat(...).send_message_async(...).text`. */
  function ChatReply<T>(
    userMessage: string,
    chatHistory: seq<HistoryEntry>,
    tradeHistory: seq<T>,
    chatModel: (seq<Turn>, string) -> Option<string>,
    dumps: seq<T> -> string): string
  {
    var sent := FullContextMessage(TradeContext(tradeHistory, dumps), userMessage);
    match chatModel(RecentTurns(chatHistory), sent)
    case Some(text) => text
    case None => Apology
  }

  /** `generate_chat_response`: never raises; a failed call yields the
      apology. */
  method GenerateChatResponse<T>(
    userMessage: string,
    chatHistory: seq<HistoryEntry>,
    tradeHistory: seq<T>,
    chatModel: (seq<Turn>, string) -> Option<string>,
    dumps: seq<T> -> string) returns (r: string)
    ensures r == ChatReply(userMessage, chatHistory, tradeHistory, chatModel, dumps)
    ensures var sent := FullContextMessage(TradeContext(tradeHistory, dumps), userMessage);
      && (chatModel(RecentTurns(chatHistory), sent).None? ==> r == Apology)
      && (chatModel(RecentTurns(chatHistory), sent).Some? ==> r == chatModel(RecentTurns(chatHistory), sent).value)
  {
    var turns := BuildModelHistory(chatHistory);
    var tradeContext := TradeContext(tradeHistory, dumps);
    var sent := FullContextMessage(tradeContext, userMessage);
    var reply := chatModel(turns, sent);
    if reply.None? {
      return Apology;
    }
    r := reply.value;
  }

  // ---------------------------------------------------------------------
  // analyze_trades

  /** The projection of one trade sent for analysis. */
  datatype TradeSummary = TradeSummary(
    ticker: string,
    entryPrice: real,
    exitPrice: Option<real>,
    profitLoss: Option<real>,
    date: Date)

  function SummaryOf(t: Trade): TradeSummary {
    TradeSummary(t.ticker, t.entryPrice, t.exitPrice, t.profitLoss, t.entryDate)
  }

  /** `trade_summary`, as a specification: the first 50 trades, projected. */
  function Projection(trades: seq<Trade>): seq<TradeSummary> {
    var n := Min(50, |trades|);
    seq(n, i requires 0 <= i < n => SummaryOf(trades[i]))
  }

  /** At most 50 entries, the first trades in their order, each carrying the
      trade's ticker, prices, profit/loss and entry date. */
  lemma ProjectionShape(trades: seq<Trade>)
    ensures |Projection(trades)| == Min(50, |trades|)
    ensures forall i :: 0 <= i < |Projection(trades)| ==>
              && Projection(trades)[i].ticker == trades[i].ticker
              && Projection(trades)[i].entryPrice == trades[i].entryPrice
              && Projection(trades)[i].exitPrice == trades[i].exitPrice
              && Projection(trades)[i].date == trades[i].entryDate
              && Projection(trades)[i].profitLoss == trades[i].profitLoss
  {
  }

  /** Cutting the list at 50 first does not change the projection. */
  lemma ProjectionOfFirst50(trades: seq<Trade>)
    ensures Projection(trades[..Min(50, |trades|)]) == Projection(trades)
  {
  }

  /** `{"summary": summary, "insights": []}`. */
  function FixedInsights(summary: string): Json {
    JObject(map["summary" := JString(summary), "insights" := JArray([])])
  }

  const NoTradesYet: string := "No trades to analyze yet."
  const AnalysisUnavailable: string := "Analysis unavailable"

  /** What `analyze_trades` returns, as a specification. `analyze` stands for
      the prompt built from `json.dumps(trade_summary)`, the analysis model's
      reply, `strip` and `json.loads`; `None` where any of them would
      raise. */
  function Insights(trades: seq<Trade>, analyze: seq<TradeSummary> -> Option<Json>): Json {
    if trades == [] then FixedInsights(NoTradesYet)
    else
      match analyze(Projection(trades))
      case Some(analysis) => analysis
      case None => FixedInsights(AnalysisUnavailable)
  }

  /** `analyze_trades`: fixed values for no trades and for a failure,
      otherwise the parsed analysis of the projection, whatever its shape. */
  method AnalyzeTrades(trades: seq<Trade>, analyze: seq<TradeSummary> -> Option<Json>) returns (r: Json)
    ensures r == Insights(trades, analyze)
    ensures trades == [] ==> r == FixedInsights(NoTradesYet)
    ensures trades != [] && analyze(Projection(trades)).None? ==> r == FixedInsights(AnalysisUnavailable)
  {
    if trades == [] {
      return FixedInsights(NoTradesYet);
    }
    var n := Min(50, |trades|);
    var summary: seq<TradeSummary> := [];
    for i := 0 to n
      invariant |summary| == i
      invariant forall j :: 0 <= j < i ==> summary[j] == SummaryOf(trades[j])
    {
      summary := summary + [SummaryOf(trades[i])];
    }
    assert summary == Projection(trades);
    var analysis := analyze(summary);
    if analysis.None? {
      return FixedInsights(AnalysisUnavailable);
    }
    r := analysis.value;
  }

  /** Each fixed value comes back exactly in its own case, or when the
      analysis happens to be that very value: a caller can tell "no trades"
      from a failure by the summary. */
  lemma InsightsFixedValues(trades: seq<Trade>, analyze: seq<TradeSummary> -> Option<Json>)
    ensures Insights(trades, analyze) == FixedInsights(NoTradesYet) <==>
              trades == [] || analyze(Projection(trades)) == Some(FixedInsights(NoTradesYet))
    ensures Insights(trades, analyze) == FixedInsights(AnalysisUnavailable) <==>
              && trades != []
              && (analyze(Projection(trades)).None? || analyze(Projection(trades)) == Some(FixedInsights(AnalysisUnavailable)))
  {
    assert FixedInsights(NoTradesYet).fields["summary"] == JString(NoTradesYet);
    assert FixedInsights(AnalysisUnavailable).fields["summary"] == JString(AnalysisUnavailable);
    assert NoTradesYet[0] != AnalysisUnavailable[0];
  }
}
