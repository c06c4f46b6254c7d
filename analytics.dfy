/** The trade analytics summary of `get_analytics` (app/apis/ai_router.py):
    closed trades, count, total, win rate, mean gain of the winners and of
    the losers, and the best and worst trade. Amounts are exact reals; the
    final `round(…, 2)` is not modelled. */
module Analytics {
  import opened Common
  import opened Records

  /** AnalyticsResponse. */
  datatype Summary = Summary(
    totalTrades: nat,
    totalProfitLoss: real,
    winRate: real,
    avgProfit: real,
    avgLoss: real,
    best: Option<Trade>,
    worst: Option<Trade>)

  /** The fixed result for an empty list of trades. */
  const ZeroSummary: Summary := Summary(0, 0.0, 0.0, 0.0, 0.0, None, None)

  /** `t.get("profit_loss", 0)` on a closed trade. */
  function PL(t: Trade): real {
    t.profitLoss.GetOr(0.0)
  }

  /** `closed_trades`: the trades with a profit/loss. */
  function Closed(trades: seq<Trade>): seq<Trade> {
    Filter(trades, (t: Trade) => t.profitLoss.Some?)
  }

  /** `winning_trades`. */
  function Winners(closed: seq<Trade>): seq<Trade> {
    Filter(closed, (t: Trade) => PL(t) > 0.0)
  }

  /** `losing_trades`. */
  function Losers(closed: seq<Trade>): seq<Trade> {
    Filter(closed, (t: Trade) => PL(t) < 0.0)
  }

  /** The break-even trades, which the summary counts in neither bucket. */
  function BreakEven(closed: seq<Trade>): seq<Trade> {
    Filter(closed, (t: Trade) => PL(t) == 0.0)
  }

  /** `sum(t["profit_loss"] for t in s)`. */
  function Total(s: seq<Trade>): real {
    if s == [] then 0.0 else PL(s[0]) + Total(s[1..])
  }

  /** The mean profit/loss of `s`, 0 when `s` is empty. */
  function Mean(s: seq<Trade>): real {
    if s == [] then 0.0 else Total(s) / |s| as real
  }

  /** `len(winning_trades) / total_trades * 100`, 0 without closed trades. */
  function WinRate(closed: seq<Trade>): real {
    if |closed| > 0 then |Winners(closed)| as real / |closed| as real * 100.0 else 0.0
  }

  /** `max(s, key=profit_loss)`: scanning left to right, a later trade
      replaces the current one only when its profit/loss is strictly
      greater, so ties go to the first. */
  function FirstMax(s: seq<Trade>): (k: nat)
    requires s != []
    ensures k < |s|
    ensures forall i :: 0 <= i < |s| ==> PL(s[i]) <= PL(s[k])
    ensures forall i :: 0 <= i < k ==> PL(s[i]) < PL(s[k])
  {
    if |s| == 1 then 0
    else
      var k := FirstMax(s[..|s| - 1]);
      if PL(s[|s| - 1]) > PL(s[k]) then |s| - 1 else k
  }

  /** `min(s, key=profit_loss)`: ties go to the first. */
  function FirstMin(s: seq<Trade>): (k: nat)
    requires s != []
    ensures k < |s|
    ensures forall i :: 0 <= i < |s| ==> PL(s[k]) <= PL(s[i])
    ensures forall i :: 0 <= i < k ==> PL(s[k]) < PL(s[i])
  {
    if |s| == 1 then 0
    else
      var k := FirstMin(s[..|s| - 1]);
      if PL(s[|s| - 1]) < PL(s[k]) then |s| - 1 else k
  }

  /** The summary `get_analytics` returns for the trades it fetched, in the
      order fetched. */
  function Summarize(trades: seq<Trade>): Summary {
    if trades == [] then ZeroSummary
    else
      var closed := Closed(trades);
      Summary(
        |closed|,
        Total(closed),
        WinRate(closed),
        Mean(Winners(closed)),
        Mean(Losers(closed)),
        if closed == [] then None else Some(closed[FirstMax(closed)]),
        if closed == [] then None else Some(closed[FirstMin(closed)]))
  }

  lemma {:induction false} TotalCons(x: Trade, s: seq<Trade>)
    ensures Total([x] + s) == PL(x) + Total(s)
  {
    assert ([x] + s)[1..] == s;
  }

  /** Every closed trade is a winner, a loser or break-even, and exactly
      one of them, so the three buckets fill the closed trades. */
  lemma {:induction false} BucketsPartition(closed: seq<Trade>)
    ensures |Winners(closed)| + |Losers(closed)| + |BreakEven(closed)| == |closed|
  {
    if closed != [] {
      var x, rest := closed[0], closed[1..];
      assert closed == [x] + rest;
      BucketsPartition(rest);
      FilterCons(x, rest, (t: Trade) => PL(t) > 0.0);
      FilterCons(x, rest, (t: Trade) => PL(t) < 0.0);
      FilterCons(x, rest, (t: Trade) => PL(t) == 0.0);
    }
  }

  /** The total of the closed trades is the winners' sum plus the losers'
      sum: break-even trades add nothing. */
  lemma {:induction false} TotalPartition(closed: seq<Trade>)
    ensures Total(Winners(closed)) + Total(Losers(closed)) == Total(closed)
  {
    if closed != [] {
      var x, rest := closed[0], closed[1..];
      assert closed == [x] + rest;
      TotalPartition(rest);
      var w, l := Winners(rest), Losers(rest);
      FilterCons(x, rest, (t: Trade) => PL(t) > 0.0);
      FilterCons(x, rest, (t: Trade) => PL(t) < 0.0);
      if PL(x) > 0.0 {
        assert Winners(closed) == [x] + w && Losers(closed) == l;
        TotalCons(x, w);
      } else if PL(x) < 0.0 {
        assert Winners(closed) == w && Losers(closed) == [x] + l;
        TotalCons(x, l);
      } else {
        assert Winners(closed) == w && Losers(closed) == l;
      }
    }
  }

  /** A sum of positive amounts is positive. */
  lemma {:induction false} TotalPositive(s: seq<Trade>)
    requires s != [] && forall i :: 0 <= i < |s| ==> PL(s[i]) > 0.0
    ensures Total(s) > 0.0
  {
    if |s| > 1 {
      TotalPositive(s[1..]);
    }
  }

  /** A sum of negative amounts is negative. */
  lemma {:induction false} TotalNegative(s: seq<Trade>)
    requires s != [] && forall i :: 0 <= i < |s| ==> PL(s[i]) < 0.0
    ensures Total(s) < 0.0
  {
    if |s| > 1 {
      TotalNegative(s[1..]);
    }
  }

  /** Counts and the win rate: the count is the number of closed trades, the
      total splits into the winners' and the losers' sums, and the win rate
      is a percentage, 0 without closed trades. */
  lemma SummaryCounts(trades: seq<Trade>)
    ensures var r := Summarize(trades);
      && r.totalTrades == |Closed(trades)|
      && r.totalProfitLoss == Total(Winners(Closed(trades))) + Total(Losers(Closed(trades)))
      && 0.0 <= r.winRate <= 100.0
      && r.winRate == WinRate(Closed(trades))
      && (Closed(trades) == [] ==> r.winRate == 0.0)
  {
    var closed := Closed(trades);
    var r := Summarize(trades);
    assert r.totalTrades == |closed| && r.totalProfitLoss == Total(closed) && r.winRate == WinRate(closed);
    TotalPartition(closed);
    WinRateBounds(closed);
  }

  /** The win rate is the share of winners among the closed trades, in
      percent. */
  lemma WinRateBounds(closed: seq<Trade>)
    ensures 0.0 <= WinRate(closed) <= 100.0
    ensures closed != [] ==> WinRate(closed) * |closed| as real == |Winners(closed)| as real * 100.0
  {
    if closed != [] {
      Percentage(|Winners(closed)| as real, |closed| as real);
    }
  }

  lemma Percentage(part: real, whole: real)
    requires 0.0 <= part <= whole && whole > 0.0
    ensures 0.0 <= part / whole * 100.0 <= 100.0
    ensures part / whole * 100.0 * whole == part * 100.0
  {
    var q := part / whole;
    assert q * whole == part;
  }

  lemma QuotientSign(total: real, count: real)
    requires count > 0.0
    ensures total > 0.0 ==> total / count > 0.0
    ensures total < 0.0 ==> total / count < 0.0
  {
  }

  /** The winners' mean is positive and the losers' mean negative whenever
      the bucket is non-empty, and each is 0 for an empty bucket. */
  lemma AverageSigns(trades: seq<Trade>)
    ensures var r := Summarize(trades);
      && (Winners(Closed(trades)) != [] ==> r.avgProfit > 0.0)
      && (Winners(Closed(trades)) == [] ==> r.avgProfit == 0.0)
      && (Losers(Closed(trades)) != [] ==> r.avgLoss < 0.0)
      && (Losers(Closed(trades)) == [] ==> r.avgLoss == 0.0)
  {
    var w := Winners(Closed(trades));
    var l := Losers(Closed(trades));
    if w != [] {
      TotalPositive(w);
      QuotientSign(Total(w), |w| as real);
    }
    if l != [] {
      TotalNegative(l);
      QuotientSign(Total(l), |l| as real);
    }
  }

  /** The best and worst trades: none without closed trades; otherwise
      closed trades, the best with the highest profit/loss and no earlier
      trade as high, the worst with the lowest and no earlier trade as low;
      the best is at least the worst. */
  lemma BestAndWorst(trades: seq<Trade>)
    ensures var r := Summarize(trades);
      var closed := Closed(trades);
      && (closed == [] <==> r.best.None?)
      && (closed == [] <==> r.worst.None?)
      && (closed != [] ==>
            && r.best.value in closed && r.worst.value in closed
            && r.best.value.profitLoss.Some? && r.worst.value.profitLoss.Some?
            && (forall i :: 0 <= i < |closed| ==> PL(closed[i]) <= PL(r.best.value))
            && (forall i :: 0 <= i < |closed| ==> PL(r.worst.value) <= PL(closed[i]))
            && PL(r.worst.value) <= PL(r.best.value))
  {
    var closed := Closed(trades);
    if closed != [] {
      var b := FirstMax(closed);
      var w := FirstMin(closed);
      assert closed[b] in closed && closed[w] in closed;
    }
  }

  /** The explicit early return for no trades is the value the metrics take
      anyway when nothing is closed: all open trades, or none, summarise to
      the zero result. */
  lemma NoClosedTradesIsZero(trades: seq<Trade>)
    requires forall i :: 0 <= i < |trades| ==> trades[i].profitLoss.None?
    ensures Summarize(trades) == ZeroSummary
  {
    FilterNone(trades, (t: Trade) => t.profitLoss.Some?);
  }
}
