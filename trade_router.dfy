/** The trade handlers of app/apis/trade_router.py over the in-memory trades
    table: create, filtered list, and owner-scoped get, update and delete. */
module TradeRouter {
  import opened Common
  import opened Text
  import opened Records
  import opened Store

  /** The row `create_trade` inserts: the caller's id, the ticker upper-cased
      and the profit/loss derived from the submitted prices. */
  function CreateRow(user: UserId, d: TradeDraft): TradeRow {
    TradeRow(user, Upper(d.ticker), d.entryDate, d.entryPrice, d.quantity,
             d.exitDate, d.exitPrice, d.notes, ProfitLoss(d.entryPrice, d.exitPrice, d.quantity))
  }

  /** The inserted row satisfies the trade invariant, whatever the draft. */
  lemma CreateRowConsistent(user: UserId, d: TradeDraft)
    ensures RowConsistent(CreateRow(user, d))
    ensures CreateRow(user, d).userId == user && CreateRow(user, d).ticker == Upper(d.ticker)
  {
  }

  /** `create_trade`. `stored` says whether the store returned the inserted
      row; when it does not, the 400 raised for it is caught by the
      handler's generic `except Exception` and surfaces as 500. */
  method CreateTrade(db: Database, user: UserId, d: TradeDraft, stored: bool) returns (r: Result<Trade>)
    requires db.Valid()
    modifies db
    ensures db.Valid()
    ensures stored ==> r == Ok(Stored(CreateRow(user, d), old(db.nextId), old(db.clock)))
    ensures stored ==> db.trades == old(db.trades) + [r.value]
    ensures !stored ==> r == Err(InternalError) && db.trades == old(db.trades)
    ensures r.Ok? ==> r.value.userId == user && r.value.ticker == Upper(d.ticker)
    ensures r.Ok? ==> (r.value.profitLoss.Some? <==> d.exitPrice.Some?)
    ensures r.Ok? && d.exitPrice.Some? ==> r.value.profitLoss.value == Gain(d.entryPrice, d.exitPrice.value, d.quantity)
    ensures db.chats == old(db.chats) && db.messages == old(db.messages)
  {
    if !stored {
      return Err(InternalError);
    }
    var row := CreateRow(user, d);
    CreateRowConsistent(user, d);
    var t := db.InsertTrade(row);
    r := Ok(t);
  }

  /** The filter `get_trades` builds: the caller's rows, the ticker equal to
      the upper-cased filter when a non-empty one is given, and the entry date
      within the bounds that are given, both inclusive. */
  predicate ListMatches(t: Trade, user: UserId, ticker: Option<string>, start: Option<Date>, end: Option<Date>) {
    && t.userId == user
    && (ticker.Some? && ticker.value != "" ==> t.ticker == Upper(ticker.value))
    && (start.Some? ==> t.entryDate >= start.value)
    && (end.Some? ==> t.entryDate <= end.value)
  }

  /** The rows of `trades` that `get_trades` selects. */
  function Listed(trades: seq<Trade>, user: UserId, ticker: Option<string>, start: Option<Date>, end: Option<Date>): seq<Trade> {
    Filter(trades, (t: Trade) => ListMatches(t, user, ticker, start, end))
  }

  /** `.eq("ticker", up)`. */
  function WithTicker(query: seq<Trade>, up: string): seq<Trade> {
    Filter(query, (t: Trade) => t.ticker == up)
  }

  /** `.gte("entry_date", from)`. */
  function EnteredFrom(query: seq<Trade>, from: Date): seq<Trade> {
    Filter(query, (t: Trade) => t.entryDate >= from)
  }

  /** `.lte("entry_date", to)`. */
  function EnteredTo(query: seq<Trade>, to: Date): seq<Trade> {
    Filter(query, (t: Trade) => t.entryDate <= to)
  }

  /** `get_trades`: the query is narrowed filter by filter, then ordered by
      entry date, latest first. */
  method GetTrades(db: Database, user: UserId, ticker: Option<string>, start: Option<Date>, end: Option<Date>)
    returns (r: seq<Trade>)
    ensures EntryDateDesc(r)
    ensures multiset(r) == multiset(Listed(db.trades, user, ticker, start, end))
    ensures forall t :: t in r <==> t in db.trades && ListMatches(t, user, ticker, start, end)
  {
    var query := TradesOf(db.trades, user);
    UserStage(db.trades, user);
    if ticker.Some? && ticker.value != "" {
      query := WithTicker(query, Upper(ticker.value));
    }
    TickerStage(db.trades, user, ticker);
    if start.Some? {
      query := EnteredFrom(query, start.value);
    }
    StartStage(db.trades, user, ticker, start);
    if end.Some? {
      query := EnteredTo(query, end.value);
    }
    EndStage(db.trades, user, ticker, start, end);
    r := OrderByEntryDateDesc(query);
    OrderByEntryDateDescSorts(query);
    MultisetMembership(r, query);
    ListedMembers(db.trades, user, ticker, start, end);
  }

  lemma UserStage(s: seq<Trade>, user: UserId)
    ensures TradesOf(s, user) == Listed(s, user, None, None, None)
  {
    FilterSame(s, (t: Trade) => t.userId == user, (t: Trade) => ListMatches(t, user, None, None, None));
  }

  /** The ticker filter applies only when a non-empty ticker is given. */
  lemma TickerStage(s: seq<Trade>, user: UserId, ticker: Option<string>)
    ensures Listed(s, user, ticker, None, None)
         == if ticker.Some? && ticker.value != "" then WithTicker(Listed(s, user, None, None, None), Upper(ticker.value))
            else Listed(s, user, None, None, None)
  {
    if ticker.Some? && ticker.value != "" {
      var up := Upper(ticker.value);
      FilterFilter(s, (t: Trade) => ListMatches(t, user, None, None, None), (t: Trade) => t.ticker == up,
                   (t: Trade) => ListMatches(t, user, ticker, None, None));
    } else {
      FilterSame(s, (t: Trade) => ListMatches(t, user, None, None, None), (t: Trade) => ListMatches(t, user, ticker, None, None));
    }
  }

  lemma StartStage(s: seq<Trade>, user: UserId, ticker: Option<string>, start: Option<Date>)
    ensures Listed(s, user, ticker, start, None)
         == if start.Some? then EnteredFrom(Listed(s, user, ticker, None, None), start.value)
            else Listed(s, user, ticker, None, None)
  {
    if start.Some? {
      var from := start.value;
      FilterFilter(s, (t: Trade) => ListMatches(t, user, ticker, None, None), (t: Trade) => t.entryDate >= from,
                   (t: Trade) => ListMatches(t, user, ticker, start, None));
    }
  }

  lemma EndStage(s: seq<Trade>, user: UserId, ticker: Option<string>, start: Option<Date>, end: Option<Date>)
    ensures Listed(s, user, ticker, start, end)
         == if end.Some? then EnteredTo(Listed(s, user, ticker, start, None), end.value)
            else Listed(s, user, ticker, start, None)
  {
    if end.Some? {
      var to := end.value;
      FilterFilter(s, (t: Trade) => ListMatches(t, user, ticker, start, None), (t: Trade) => t.entryDate <= to,
                   (t: Trade) => ListMatches(t, user, ticker, start, end));
    }
  }

  /** A trade is listed exactly when it is stored and matches every filter. */
  lemma ListedMembers(s: seq<Trade>, user: UserId, ticker: Option<string>, start: Option<Date>, end: Option<Date>)
    ensures forall t :: t in Listed(s, user, ticker, start, end) <==> t in s && ListMatches(t, user, ticker, start, end)
  {
    FilterMembers(s, (t: Trade) => ListMatches(t, user, ticker, start, end));
  }

  /** `get_trade`: the trade with that id when the caller owns it, 404 when
      it is missing or someone else's. */
  method GetTrade(db: Database, user: UserId, id: RowId) returns (r: Result<Trade>)
    ensures r.Ok? <==> exists i :: 0 <= i < |db.trades| && db.trades[i].id == id && db.trades[i].userId == user
    ensures r.Ok? ==> r.value in db.trades && r.value.id == id && r.value.userId == user
    ensures r.Err? ==> r.error == NotFound
  {
    var k := OwnedTradeIndex(db.trades, id, user);
    if k.None? {
      return Err(NotFound);
    }
    r := Ok(db.trades[k.value]);
  }

  /** The row an update writes: every field the patch sets replaces the
      stored one (the ticker as supplied, not upper-cased); profit/loss is
      recomputed from the resulting prices and quantity when the patch sets
      the entry price, the exit price or the quantity, and kept otherwise. */
  function ApplyPatch(t: Trade, p: TradePatch): Trade {
    var entry := p.entryPrice.GetOr(t.entryPrice);
    var exit := p.exitPrice.GetOr(t.exitPrice);
    var qty := p.quantity.GetOr(t.quantity);
    var touched := p.entryPrice.Some? || p.exitPrice.Some? || p.quantity.Some?;
    t.(ticker := p.ticker.GetOr(t.ticker),
       entryDate := p.entryDate.GetOr(t.entryDate),
       entryPrice := entry,
       quantity := qty,
       exitDate := p.exitDate.GetOr(t.exitDate),
       exitPrice := exit,
       notes := p.notes.GetOr(t.notes),
       profitLoss := if touched then ProfitLoss(entry, exit, qty) else t.profitLoss)
  }

  /** A patch that sets a price or the quantity recomputes profit/loss from
      the patched values, each omitted one taking its stored value; a
      resulting null exit price clears it. */
  lemma PatchRecomputes(t: Trade, p: TradePatch)
    requires p.entryPrice.Some? || p.exitPrice.Some? || p.quantity.Some?
    ensures var u := ApplyPatch(t, p);
      && u.entryPrice == (if p.entryPrice.Some? then p.entryPrice.value else t.entryPrice)
      && u.exitPrice == (if p.exitPrice.Some? then p.exitPrice.value else t.exitPrice)
      && u.quantity == (if p.quantity.Some? then p.quantity.value else t.quantity)
      && (u.exitPrice.None? ==> u.profitLoss.None?)
      && (u.exitPrice.Some? ==> u.profitLoss == Some(Gain(u.entryPrice, u.exitPrice.value, u.quantity)))
  {
  }

  /** A patch that sets neither price nor the quantity (say only the exit
      date or the notes) leaves profit/loss as stored. Clearing the exit
      date alone keeps the exit price and profit/loss. */
  lemma PatchKeepsProfitLoss(t: Trade, p: TradePatch)
    requires p.entryPrice.None? && p.exitPrice.None? && p.quantity.None?
    ensures ApplyPatch(t, p).profitLoss == t.profitLoss
    ensures ApplyPatch(t, p).exitPrice == t.exitPrice
    ensures p.exitDate == Some(None) ==> ApplyPatch(t, p).exitDate.None?
  {
  }

  /** Every update preserves the trade invariant. */
  lemma PatchPreservesConsistent(t: Trade, p: TradePatch)
    requires Consistent(t)
    ensures Consistent(ApplyPatch(t, p))
  {
  }

  /** `o` is unset, or set to `v`. */
  predicate SetsTo<A(==)>(o: Option<A>, v: A) {
    o.None? || o.value == v
  }

  /** Re-submitting stored values changes nothing: a patch whose every set
      field equals the stored one leaves a consistent trade as it is. */
  lemma PatchIdempotent(t: Trade, p: TradePatch)
    requires Consistent(t)
    requires SetsTo(p.ticker, t.ticker) && SetsTo(p.entryDate, t.entryDate)
    requires SetsTo(p.entryPrice, t.entryPrice) && SetsTo(p.quantity, t.quantity)
    requires SetsTo(p.exitDate, t.exitDate) && SetsTo(p.exitPrice, t.exitPrice)
    requires SetsTo(p.notes, t.notes)
    ensures ApplyPatch(t, p) == t
  {
  }

  /** Sending the same update twice is sending it once. */
  lemma PatchTwice(t: Trade, p: TradePatch)
    requires Consistent(t)
    ensures ApplyPatch(ApplyPatch(t, p), p) == ApplyPatch(t, p)
  {
    var u := ApplyPatch(t, p);
    PatchPreservesConsistent(t, p);
    PatchIdempotent(u, p);
  }

  /** A patched ticker is written exactly as supplied. */
  lemma PatchTickerVerbatim(t: Trade, p: TradePatch)
    requires p.ticker.Some?
    ensures ApplyPatch(t, p).ticker == p.ticker.value
  {
  }

  /** `update_trade`: 404 and no change when the caller does not own the
      trade; otherwise `update_data` is the set fields of the patch, to which
      a recomputed profit/loss is added when a price or the quantity is set,
      and the store writes it to that one row. */
  method UpdateTrade(db: Database, user: UserId, id: RowId, p: TradePatch) returns (r: Result<Trade>)
    requires db.Valid()
    modifies db
    ensures db.Valid()
    ensures OwnedTradeIndex(old(db.trades), id, user).None? ==> r == Err(NotFound) && db.trades == old(db.trades)
    ensures OwnedTradeIndex(old(db.trades), id, user).Some? ==>
              var k := OwnedTradeIndex(old(db.trades), id, user).value;
              && r == Ok(ApplyPatch(old(db.trades)[k], p))
              && db.trades == old(db.trades)[k := r.value]
    ensures db.chats == old(db.chats) && db.messages == old(db.messages)
  {
    var found := OwnedTradeIndex(db.trades, id, user);
    if found.None? {
      return Err(NotFound);
    }
    var k := found.value;
    var existing := db.trades[k];
    // "profit_loss" joins update_data only when a price or the quantity is set.
    var profitLoss: Option<Option<real>> := None;
    if p.exitPrice.Some? || p.entryPrice.Some? || p.quantity.Some? {
      var entry := p.entryPrice.GetOr(existing.entryPrice);
      var exit := p.exitPrice.GetOr(existing.exitPrice);
      var qty := p.quantity.GetOr(existing.quantity);
      // (exit - entry) * quantity when the resulting exit price is set, else null
      profitLoss := Some(ProfitLoss(entry, exit, qty));
    }
    var updated := existing.(
      ticker := p.ticker.GetOr(existing.ticker),
      entryDate := p.entryDate.GetOr(existing.entryDate),
      entryPrice := p.entryPrice.GetOr(existing.entryPrice),
      quantity := p.quantity.GetOr(existing.quantity),
      exitDate := p.exitDate.GetOr(existing.exitDate),
      exitPrice := p.exitPrice.GetOr(existing.exitPrice),
      notes := p.notes.GetOr(existing.notes),
      profitLoss := profitLoss.GetOr(existing.profitLoss));
    PatchPreservesConsistent(existing, p);
    db.UpdateTradeAt(k, updated);
    r := Ok(updated);
  }

  /** `delete_trade`: 404 and no change when the caller does not own the
      trade; otherwise exactly that row is removed and every other row stays,
      in order. */
  method DeleteTrade(db: Database, user: UserId, id: RowId) returns (r: Result<()>)
    requires db.Valid()
    modifies db
    ensures db.Valid()
    ensures OwnedTradeIndex(old(db.trades), id, user).None? ==> r == Err(NotFound) && db.trades == old(db.trades)
    ensures OwnedTradeIndex(old(db.trades), id, user).Some? ==>
              var k := OwnedTradeIndex(old(db.trades), id, user).value;
              r == Ok(()) && db.trades == old(db.trades)[..k] + old(db.trades)[k + 1..]
    ensures db.chats == old(db.chats) && db.messages == old(db.messages)
  {
    var found := OwnedTradeIndex(db.trades, id, user);
    if found.None? {
      return Err(NotFound);
    }
    TradesWithoutRemovesOne(db.trades, found.value);
    db.DeleteTrades(id);
    r := Ok(());
  }
}
