/** The record shapes of app/apis/models.py and the derived profit/loss of
    a trade. */
module Records {
  import opened Common

  type UserId = string
  type RowId = nat

  /** TradeCreate: a trade as a user submits it, and as extraction from chat
      text produces it. */
  datatype TradeDraft = TradeDraft(
    ticker: string,
    entryDate: Date,
    entryPrice: real,
    quantity: real,
    exitDate: Option<Date>,
    exitPrice: Option<real>,
    notes: Option<string>)

  /** TradeUpdate: every field optional. The outer Option says whether the
      field was set in the request (`exclude_unset`); for the nullable
      columns the inner Option is the value set, which may be null. */
  datatype TradePatch = TradePatch(
    ticker: Option<string>,
    entryDate: Option<Date>,
    entryPrice: Option<real>,
    quantity: Option<real>,
    exitDate: Option<Option<Date>>,
    exitPrice: Option<Option<real>>,
    notes: Option<Option<string>>)

  /** The columns a handler writes when it inserts a trade. */
  datatype TradeRow = TradeRow(
    userId: UserId,
    ticker: string,
    entryDate: Date,
    entryPrice: real,
    quantity: real,
    exitDate: Option<Date>,
    exitPrice: Option<real>,
    notes: Option<string>,
    profitLoss: Option<real>)

  /** TradeResponse: a stored trade. */
  datatype Trade = Trade(
    id: RowId,
    userId: UserId,
    ticker: string,
    entryDate: Date,
    entryPrice: real,
    quantity: real,
    exitDate: Option<Date>,
    exitPrice: Option<real>,
    notes: Option<string>,
    profitLoss: Option<real>,
    createdAt: Stamp,
    updatedAt: Stamp)

  /** ChatResponse: a stored chat. */
  datatype Chat = Chat(id: RowId, userId: UserId, title: string, createdAt: Stamp, updatedAt: Stamp)

  /** MessageResponse: a stored message; the role is free text. */
  datatype Message = Message(id: RowId, chatId: RowId, userId: UserId, content: string, role: string, createdAt: Stamp)

  /** The stored trade the store makes of an inserted row. */
  function Stored(row: TradeRow, id: RowId, at: Stamp): Trade {
    Trade(id, row.userId, row.ticker, row.entryDate, row.entryPrice, row.quantity,
          row.exitDate, row.exitPrice, row.notes, row.profitLoss, at, at)
  }

  function TradeId(t: Trade): int { t.id }
  function ChatId(c: Chat): int { c.id }
  function ChatStamp(c: Chat): int { c.createdAt }
  function MessageId(m: Message): int { m.id }
  function MessageStamp(m: Message): int { m.createdAt }

  /** The gain of a closed position: `(exit - entry) * quantity`. */
  function Gain(entryPrice: real, exitPrice: real, quantity: real): real {
    (exitPrice - entryPrice) * quantity
  }

  /** The derived profit/loss: the gain when there is an exit price (zero
      included), none otherwise. */
  function ProfitLoss(entryPrice: real, exitPrice: Option<real>, quantity: real): Option<real> {
    if exitPrice.Some? then Some(Gain(entryPrice, exitPrice.value, quantity)) else None
  }

  /** The trade invariant: profit/loss is present exactly when the exit price
      is, and then equals the formula. */
  predicate Consistent(t: Trade) {
    t.profitLoss == ProfitLoss(t.entryPrice, t.exitPrice, t.quantity)
  }

  predicate RowConsistent(row: TradeRow) {
    row.profitLoss == ProfitLoss(row.entryPrice, row.exitPrice, row.quantity)
  }

  /** For a long position the result is a profit exactly when the exit price
      is above the entry price, and zero exactly when they are equal. */
  lemma ProfitLossSign(entryPrice: real, exitPrice: real, quantity: real)
    requires quantity > 0.0
    ensures ProfitLoss(entryPrice, Some(exitPrice), quantity).value > 0.0 <==> exitPrice > entryPrice
    ensures ProfitLoss(entryPrice, Some(exitPrice), quantity).value == 0.0 <==> exitPrice == entryPrice
  {
    var d := exitPrice - entryPrice;
    if d > 0.0 {
      assert d * quantity > 0.0;
    } else if d < 0.0 {
      assert (-d) * quantity > 0.0;
    }
  }

  /** Trades in order of entry date, latest first. */
  ghost predicate EntryDateDesc(s: seq<Trade>) {
    forall i, j :: 0 <= i < j < |s| ==> s[i].entryDate >= s[j].entryDate
  }

  function InsertByEntryDate(t: Trade, s: seq<Trade>): (r: seq<Trade>)
    ensures |r| == |s| + 1
  {
    if s == [] || t.entryDate >= s[0].entryDate then [t] + s
    else [s[0]] + InsertByEntryDate(t, s[1..])
  }

  ghost predicate EntryDatesAtMost(s: seq<Trade>, d: Date) {
    forall i :: 0 <= i < |s| ==> s[i].entryDate <= d
  }

  lemma {:induction false} InsertAtMost(t: Trade, s: seq<Trade>, d: Date)
    requires EntryDatesAtMost(s, d) && t.entryDate <= d
    ensures EntryDatesAtMost(InsertByEntryDate(t, s), d)
  {
    if !(s == [] || t.entryDate >= s[0].entryDate) {
      InsertAtMost(t, s[1..], d);
    }
  }

  lemma {:induction false} InsertSorted(t: Trade, s: seq<Trade>)
    requires EntryDateDesc(s)
    ensures EntryDateDesc(InsertByEntryDate(t, s))
  {
    if !(s == [] || t.entryDate >= s[0].entryDate) {
      InsertSorted(t, s[1..]);
      InsertAtMost(t, s[1..], s[0].entryDate);
    }
  }

  lemma {:induction false} InsertPermutes(t: Trade, s: seq<Trade>)
    ensures multiset(InsertByEntryDate(t, s)) == multiset(s) + multiset{t}
  {
    if !(s == [] || t.entryDate >= s[0].entryDate) {
      InsertPermutes(t, s[1..]);
      assert s == [s[0]] + s[1..];
    }
  }

  /** `order("entry_date", desc=True)`: an insertion sort that keeps rows
      with equal entry dates in their stored order. */
  function OrderByEntryDateDesc(s: seq<Trade>): (r: seq<Trade>)
    ensures |r| == |s|
  {
    if s == [] then [] else InsertByEntryDate(s[0], OrderByEntryDateDesc(s[1..]))
  }

  /** The ordered rows are a permutation of the rows whose entry dates
      never increase. */
  lemma {:induction false} OrderByEntryDateDescSorts(s: seq<Trade>)
    ensures EntryDateDesc(OrderByEntryDateDesc(s))
    ensures multiset(OrderByEntryDateDesc(s)) == multiset(s)
  {
    if s != [] {
      var rest := OrderByEntryDateDesc(s[1..]);
      OrderByEntryDateDescSorts(s[1..]);
      InsertSorted(s[0], rest);
      InsertPermutes(s[0], rest);
      assert s == [s[0]] + s[1..];
    }
  }
}
