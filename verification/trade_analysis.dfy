/** The trade analytics engine (`analyzeSingleTrade`, `analyzeTradeLogs`):
    closed journal entries are enriched with principal, sale amount, realised
    profit/loss, return rate and holding period, then folded into a
    portfolio summary. Date parsing and `differenceInDays` are abstracted
    into a parameter `dayOf` that maps a date text to its day number. */
module TradeAnalytics {
  import opened Wrappers
  import opened TradeLogStore

  /** A closed trade with its computed figures. */
  datatype AnalyzedTrade = AnalyzedTrade(
    id: string,
    symbol: string,
    name: string,
    buyPrice: real,
    buyQuantity: int,
    buyDate: string,
    sellPrice: real,
    sellQuantity: int,
    sellDate: string,
    investmentPrincipal: real,
    totalSaleAmount: real,
    realizedProfitLoss: real,
    returnRate: real,
    holdingPeriod: int)

  /** The portfolio-level result of one analytics run. */
  datatype TradeAnalysisSummary = TradeAnalysisSummary(
    totalRealizedProfitLoss: real,
    totalInvestmentPrincipal: real,
    overallReturnRate: real,
    winCount: nat,
    lossCount: nat,
    winRate: real,
    averageHoldingPeriod: real,
    analyzedTrades: seq<AnalyzedTrade>)

  /** The running totals of the `reduce` in `analyzeTradeLogs`. */
  datatype Totals = Totals(
    totalRealizedProfitLoss: real,
    totalInvestmentPrincipal: real,
    winCount: nat,
    lossCount: nat,
    totalHoldingPeriod: int)

  /** A record counts as closed when its sell price, quantity and date are
      all truthy: a missing field, a price or quantity of 0, or an empty
      date leaves it open. */
  predicate IsClosed(log: TradeLog) {
    && log.sellPrice.Some? && log.sellPrice.value != 0.0
    && log.sellQuantity.Some? && log.sellQuantity.value != 0
    && log.sellDate.Some? && log.sellDate.value != ""
  }

  /** `analyzeSingleTrade`: None for an open record; otherwise the record's
      identifying and buy fields, its sell leg, and the derived figures. */
  function AnalyzeSingleTrade(log: TradeLog, dayOf: string -> int): (r: Option<AnalyzedTrade>)
    ensures r.Some? <==> IsClosed(log)
    ensures r.Some? ==>
      && r.value.id == log.id && r.value.symbol == log.symbol && r.value.name == log.name
      && r.value.buyPrice == log.buyPrice && r.value.buyQuantity == log.buyQuantity
      && r.value.buyDate == log.buyDate
      && Some(r.value.sellPrice) == log.sellPrice && Some(r.value.sellQuantity) == log.sellQuantity
      && Some(r.value.sellDate) == log.sellDate
    ensures r.Some? ==>
      && r.value.investmentPrincipal == log.buyPrice * log.buyQuantity as real
      && r.value.totalSaleAmount == log.sellPrice.value * log.sellQuantity.value as real
      && r.value.realizedProfitLoss == r.value.totalSaleAmount - r.value.investmentPrincipal
    ensures r.Some? && r.value.investmentPrincipal == 0.0 ==> r.value.returnRate == 0.0
    ensures r.Some? && r.value.investmentPrincipal != 0.0 ==>
      r.value.returnRate * r.value.investmentPrincipal == r.value.realizedProfitLoss * 100.0
    ensures r.Some? ==> r.value.holdingPeriod == dayOf(log.sellDate.value) - dayOf(log.buyDate)
  {
    if !IsClosed(log) then None
    else
      var investmentPrincipal := log.buyPrice * log.buyQuantity as real;
      var totalSaleAmount := log.sellPrice.value * log.sellQuantity.value as real;
      var realizedProfitLoss := totalSaleAmount - investmentPrincipal;
      var returnRate := if investmentPrincipal != 0.0 then realizedProfitLoss / investmentPrincipal * 100.0 else 0.0;
      var holdingPeriod := dayOf(log.sellDate.value) - dayOf(log.buyDate);
      Some(AnalyzedTrade(
        log.id, log.symbol, log.name, log.buyPrice, log.buyQuantity, log.buyDate,
        log.sellPrice.value, log.sellQuantity.value, log.sellDate.value,
        investmentPrincipal, totalSaleAmount, realizedProfitLoss, returnRate, holdingPeriod))
  }

  /** `tradeLogs.map(analyzeSingleTrade).filter(t => t !== null)`. */
  function CollectAnalyzed(logs: seq<TradeLog>, dayOf: string -> int): (r: seq<AnalyzedTrade>)
    ensures |r| <= |logs|
    ensures |r| == |logs| <==> forall i | 0 <= i < |logs| :: IsClosed(logs[i])
    ensures forall k | 0 <= k < |r| :: exists i | 0 <= i < |logs| :: AnalyzeSingleTrade(logs[i], dayOf) == Some(r[k])
  {
    if |logs| == 0 then []
    else
      var rest := CollectAnalyzed(logs[1..], dayOf);
      assert forall i | 1 <= i < |logs| :: logs[i] == logs[1..][i - 1];
      match AnalyzeSingleTrade(logs[0], dayOf)
      case None => rest
      case Some(t) =>
        assert forall k | 1 <= k < |[t] + rest| :: ([t] + rest)[k] == rest[k - 1];
        [t] + rest
  }

  /** The collected list is an order-preserving filter: it distributes over
      concatenation of the input. */
  lemma {:induction false} CollectDistributes(a: seq<TradeLog>, b: seq<TradeLog>, dayOf: string -> int)
    ensures CollectAnalyzed(a + b, dayOf) == CollectAnalyzed(a, dayOf) + CollectAnalyzed(b, dayOf)
  {
    if |a| == 0 {
      assert a + b == b;
    } else {
      assert (a + b)[0] == a[0];
      assert (a + b)[1..] == a[1..] + b;
      CollectDistributes(a[1..], b, dayOf);
    }
  }

  /** A single record contributes its analysis when closed and nothing when
      open; with `CollectDistributes` this pins the list down exactly. */
  lemma CollectSingle(log: TradeLog, dayOf: string -> int)
    ensures IsClosed(log) ==> CollectAnalyzed([log], dayOf) == [AnalyzeSingleTrade(log, dayOf).value]
    ensures !IsClosed(log) ==> CollectAnalyzed([log], dayOf) == []
  {
    assert [log][1..] == [];
  }

  /** One step of the `reduce`. */
  function Step(acc: Totals, t: AnalyzedTrade): Totals {
    Totals(
      acc.totalRealizedProfitLoss + t.realizedProfitLoss,
      acc.totalInvestmentPrincipal + t.investmentPrincipal,
      if t.realizedProfitLoss > 0.0 then acc.winCount + 1 else acc.winCount,
      if t.realizedProfitLoss > 0.0 then acc.lossCount
      else if t.realizedProfitLoss < 0.0 then acc.lossCount + 1 else acc.lossCount,
      acc.totalHoldingPeriod + t.holdingPeriod)
  }

  /** The left fold `analyzedTrades.reduce(step, acc)`. */
  function Reduce(acc: Totals, ts: seq<AnalyzedTrade>): Totals
    decreases |ts|
  {
    if |ts| == 0 then acc else Reduce(Step(acc, ts[0]), ts[1..])
  }

  /** Reference sums and counts, defined independently of the fold. */
  function SumProfitLoss(ts: seq<AnalyzedTrade>): real {
    if |ts| == 0 then 0.0 else ts[0].realizedProfitLoss + SumProfitLoss(ts[1..])
  }

  function SumPrincipal(ts: seq<AnalyzedTrade>): real {
    if |ts| == 0 then 0.0 else ts[0].investmentPrincipal + SumPrincipal(ts[1..])
  }

  function SumHolding(ts: seq<AnalyzedTrade>): int {
    if |ts| == 0 then 0 else ts[0].holdingPeriod + SumHolding(ts[1..])
  }

  function Wins(ts: seq<AnalyzedTrade>): nat {
    if |ts| == 0 then 0 else (if ts[0].realizedProfitLoss > 0.0 then 1 else 0) + Wins(ts[1..])
  }

  function Losses(ts: seq<AnalyzedTrade>): nat {
    if |ts| == 0 then 0 else (if ts[0].realizedProfitLoss < 0.0 then 1 else 0) + Losses(ts[1..])
  }

  /** Breakeven trades are neither wins nor losses, so the two counts
      together never exceed the number of trades. */
  lemma {:induction false} WinsPlusLossesBounded(ts: seq<AnalyzedTrade>)
    ensures Wins(ts) + Losses(ts) <= |ts|
  {
    if |ts| > 0 {
      WinsPlusLossesBounded(ts[1..]);
    }
  }

  /** The fold computes the reference sums and counts on top of its start
      value. */
  lemma {:induction false} ReduceComputesTotals(acc: Totals, ts: seq<AnalyzedTrade>)
    ensures Reduce(acc, ts).totalRealizedProfitLoss == acc.totalRealizedProfitLoss + SumProfitLoss(ts)
    ensures Reduce(acc, ts).totalInvestmentPrincipal == acc.totalInvestmentPrincipal + SumPrincipal(ts)
    ensures Reduce(acc, ts).totalHoldingPeriod == acc.totalHoldingPeriod + SumHolding(ts)
    ensures Reduce(acc, ts).winCount == acc.winCount + Wins(ts)
    ensures Reduce(acc, ts).lossCount == acc.lossCount + Losses(ts)
    decreases |ts|
  {
    if |ts| > 0 {
      ReduceComputesTotals(Step(acc, ts[0]), ts[1..]);
    }
  }

  /** `x / n * 100` as the source computes a percentage, 0 when n is 0. */
  function Percent(x: real, n: real): real
  {
    if n != 0.0 then x / n * 100.0 else 0.0
  }

  /** `total / n`, 0 when n is 0. */
  function Mean(total: real, n: real): real
  {
    if n != 0.0 then total / n else 0.0
  }

  /** A count out of a larger count is a percentage between 0 and 100. */
  lemma PercentBounded(w: nat, n: nat)
    requires w <= n
    ensures 0.0 <= Percent(w as real, n as real) <= 100.0
  {
    if n != 0 {
      assert w as real / n as real <= 1.0;
    }
  }

  /** `analyzeTradeLogs`: the closed trades analysed in order, their totals,
      win and loss counts, and the zero-guarded rates and average. */
  function AnalyzeTradeLogs(logs: seq<TradeLog>, dayOf: string -> int): (r: TradeAnalysisSummary)
    ensures r.analyzedTrades == CollectAnalyzed(logs, dayOf)
    ensures r.totalRealizedProfitLoss == SumProfitLoss(r.analyzedTrades)
    ensures r.totalInvestmentPrincipal == SumPrincipal(r.analyzedTrades)
    ensures r.winCount == Wins(r.analyzedTrades) && r.lossCount == Losses(r.analyzedTrades)
    ensures r.winCount + r.lossCount <= |r.analyzedTrades|
    ensures r.totalInvestmentPrincipal == 0.0 ==> r.overallReturnRate == 0.0
    ensures r.totalInvestmentPrincipal != 0.0 ==>
      r.overallReturnRate == r.totalRealizedProfitLoss / r.totalInvestmentPrincipal * 100.0
    ensures |r.analyzedTrades| == 0 ==> r.winRate == 0.0 && r.averageHoldingPeriod == 0.0
    ensures |r.analyzedTrades| > 0 ==>
      && r.winRate == r.winCount as real / |r.analyzedTrades| as real * 100.0
      && r.averageHoldingPeriod == SumHolding(r.analyzedTrades) as real / |r.analyzedTrades| as real
    ensures 0.0 <= r.winRate <= 100.0
  {
    var analyzedTrades := CollectAnalyzed(logs, dayOf);
    var summary := Reduce(Totals(0.0, 0.0, 0, 0, 0), analyzedTrades);
    ReduceComputesTotals(Totals(0.0, 0.0, 0, 0, 0), analyzedTrades);
    WinsPlusLossesBounded(analyzedTrades);
    var totalTrades := |analyzedTrades| as real;
    var overallReturnRate := Percent(summary.totalRealizedProfitLoss, summary.totalInvestmentPrincipal);
    var winRate := Percent(summary.winCount as real, totalTrades);
    var averageHoldingPeriod := Mean(summary.totalHoldingPeriod as real, totalTrades);
    PercentBounded(summary.winCount, |analyzedTrades|);
    TradeAnalysisSummary(
      summary.totalRealizedProfitLoss,
      summary.totalInvestmentPrincipal,
      overallReturnRate,
      summary.winCount,
      summary.lossCount,
      winRate,
      averageHoldingPeriod,
      analyzedTrades)
  }

  /** With no records at all the summary is all zero and the list empty. */
  lemma EmptyJournalSummary(dayOf: string -> int)
    ensures AnalyzeTradeLogs([], dayOf) == TradeAnalysisSummary(0.0, 0.0, 0.0, 0, 0, 0.0, 0.0, [])
  {
  }

  /** Where both are defined, the profit rate the store keeps on a record
      agrees with the return rate the analytics compute for it. */
  lemma StoredRateMatchesReturnRate(log: TradeLog, dayOf: string -> int)
    requires IsClosed(log) && log.buyPrice > 0.0 && log.buyQuantity > 0
    ensures CalculateProfitRate(log) == Some(AnalyzeSingleTrade(log, dayOf).value.returnRate)
  {
    var t := AnalyzeSingleTrade(log, dayOf).value;
    assert t.investmentPrincipal > 0.0;
    var rate := CalculateProfitRate(log).value;
    assert rate * t.investmentPrincipal == t.returnRate * t.investmentPrincipal;
  }

  /** A sale recorded at price 0 still gets a stored profit rate (-100%) but
      the analytics treat the record as open. */
  lemma ZeroSalePriceDiverges(log: TradeLog, dayOf: string -> int)
    requires log.sellPrice == Some(0.0) && log.sellQuantity.Some? && log.buyPrice > 0.0 && log.buyQuantity > 0
    ensures CalculateProfitRate(log) == Some(-100.0)
    ensures AnalyzeSingleTrade(log, dayOf) == None
  {
    var rate := CalculateProfitRate(log).value;
    assert rate * BuyTotal(log) == -100.0 * BuyTotal(log);
    assert BuyTotal(log) > 0.0;
  }

  /** Worked example: 10 shares bought at 10000 and sold at 12000 ten days
      later. */
  lemma ExampleSingleClosedTrade()
    ensures
      var log := TradeLog("t1", "005930", "Samsung", 10000.0, 10, "2024-01-01",
                          Some(12000.0), Some(10), Some("2024-01-11"), None);
      var dayOf := (d: string) => if d == "2024-01-11" then 10 else 0;
      var t := AnalyzeSingleTrade(log, dayOf).value;
      t.investmentPrincipal == 100000.0 && t.totalSaleAmount == 120000.0
      && t.realizedProfitLoss == 20000.0 && t.returnRate == 20.0 && t.holdingPeriod == 10
  {
  }

  /** Worked example: a winning and a losing trade. */
  lemma ExampleWinAndLoss(dayOf: string -> int)
    ensures
      var a := TradeLog("a", "A", "A", 5000.0, 10, "d", Some(5500.0), Some(10), Some("e"), None);
      var b := TradeLog("b", "B", "B", 3000.0, 10, "d", Some(2700.0), Some(10), Some("e"), None);
      var s := AnalyzeTradeLogs([a, b], dayOf);
      && s.totalRealizedProfitLoss == 2000.0 && s.totalInvestmentPrincipal == 80000.0
      && s.overallReturnRate == 2.5 && s.winCount == 1 && s.lossCount == 1 && s.winRate == 50.0
  {
    var a := TradeLog("a", "A", "A", 5000.0, 10, "d", Some(5500.0), Some(10), Some("e"), None);
    var b := TradeLog("b", "B", "B", 3000.0, 10, "d", Some(2700.0), Some(10), Some("e"), None);
    CollectDistributes([a], [b], dayOf);
    assert [a] + [b] == [a, b];
    CollectSingle(a, dayOf);
    CollectSingle(b, dayOf);
    var ta := AnalyzeSingleTrade(a, dayOf).value;
    var tb := AnalyzeSingleTrade(b, dayOf).value;
    var ts := CollectAnalyzed([a, b], dayOf);
    assert ts == [ta, tb];
    assert ta.realizedProfitLoss == 5000.0 && ta.investmentPrincipal == 50000.0;
    assert tb.realizedProfitLoss == -3000.0 && tb.investmentPrincipal == 30000.0;
    assert ts[1..] == [tb];
    assert ts[1..][1..] == [];
    assert SumProfitLoss(ts[1..][1..]) == 0.0;
    assert SumProfitLoss(ts[1..]) == -3000.0;
    assert SumProfitLoss(ts) == 2000.0;
    assert SumPrincipal(ts[1..][1..]) == 0.0;
    assert SumPrincipal(ts[1..]) == 30000.0;
    assert SumPrincipal(ts) == 80000.0;
    assert Wins(ts[1..][1..]) == 0 && Losses(ts[1..][1..]) == 0;
    assert Wins(ts[1..]) == 0 && Losses(ts[1..]) == 1;
    assert Wins(ts) == 1 && Losses(ts) == 1;
  }
}
