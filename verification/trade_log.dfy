/** The trade-journal store: the `TradeLog` record and the list transforms
    behind `addTradeLog`, `updateTradeLog` and `deleteTradeLog`, with the
    profit rate that every write recomputes. Persistence to browser storage
    is left out: the state is the list passed in and returned. */
module TradeLogStore {
  import opened Wrappers

  /** One journal entry. The buy leg is required; each sell-leg field and
      the derived profit rate may be `undefined` (None). Prices are exact
      reals, quantities integers. Dates are the "YYYY-MM-DD" text. */
  datatype TradeLog = TradeLog(
    id: string,
    symbol: string,
    name: string,
    buyPrice: real,
    buyQuantity: int,
    buyDate: string,
    sellPrice: Option<real>,
    sellQuantity: Option<int>,
    sellDate: Option<string>,
    profitRate: Option<real>)

  /** What the entry form hands to `addTradeLog`: a record without id and
      profit rate. */
  datatype NewTrade = NewTrade(
    symbol: string,
    name: string,
    buyPrice: real,
    buyQuantity: int,
    buyDate: string,
    sellPrice: Option<real>,
    sellQuantity: Option<int>,
    sellDate: Option<string>)

  /** A `Partial<TradeLog>` as spread over a record: None means the key is
      absent (the old value stays); for the optional sell-leg fields
      Some(None) means the key is present with value `undefined`, which the
      spread copies over the old value. A `profitRate` key is not modelled
      because the update recomputes it anyway. */
  datatype TradePatch = TradePatch(
    id: Option<string>,
    symbol: Option<string>,
    name: Option<string>,
    buyPrice: Option<real>,
    buyQuantity: Option<int>,
    buyDate: Option<string>,
    sellPrice: Option<Option<real>>,
    sellQuantity: Option<Option<int>>,
    sellDate: Option<Option<string>>)

  /** Purchase cost of a record's buy leg. */
  function BuyTotal(log: TradeLog): real {
    log.buyPrice * log.buyQuantity as real
  }

  /** The profit-rate arithmetic on the four leg values. */
  function RateOf(buyPrice: real, buyQuantity: int, sellPrice: Option<real>, sellQuantity: Option<int>): (r: Option<real>)
    ensures r.Some? <==> sellPrice.Some? && sellQuantity.Some? && buyPrice > 0.0 && buyQuantity > 0
    ensures r.Some? ==>
      r.value * (buyPrice * buyQuantity as real)
        == (sellPrice.value * sellQuantity.value as real - buyPrice * buyQuantity as real) * 100.0
    ensures r.Some? ==>
      (r.value > 0.0 <==> sellPrice.value * sellQuantity.value as real > buyPrice * buyQuantity as real)
  {
    if sellPrice.Some? && sellQuantity.Some? && buyPrice > 0.0 && buyQuantity > 0 then
      var totalBuy := buyPrice * buyQuantity as real;
      var totalSell := sellPrice.value * sellQuantity.value as real;
      assert totalBuy > 0.0;
      Some((totalSell - totalBuy) / totalBuy * 100.0)
    else
      None
  }

  /** `calculateProfitRate`: defined only when both prices and quantities are
      present and the buy price and quantity are positive (the sell date is
      not consulted); then it is the percentage gain of the sale over the
      purchase. */
  function CalculateProfitRate(log: TradeLog): (r: Option<real>)
    ensures r.Some? <==>
      log.sellPrice.Some? && log.sellQuantity.Some? && log.buyPrice > 0.0 && log.buyQuantity > 0
    ensures r.Some? ==>
      r.value * BuyTotal(log) == (log.sellPrice.value * log.sellQuantity.value as real - BuyTotal(log)) * 100.0
    ensures r.Some? ==>
      (r.value > 0.0 <==> log.sellPrice.value * log.sellQuantity.value as real > BuyTotal(log))
  {
    RateOf(log.buyPrice, log.buyQuantity, log.sellPrice, log.sellQuantity)
  }

  /** The profit rate depends on the price and quantity fields only, never
      on the rate a record already stores. */
  lemma ProfitRateIgnoresStoredRate(log: TradeLog, rate: Option<real>)
    ensures CalculateProfitRate(log.(profitRate := rate)) == CalculateProfitRate(log)
  {
  }

  /** `addTradeLog`: the new record, carrying the form's fields, the given
      fresh id and its computed profit rate, is appended at the end. The id
      is a parameter because the source draws it from the clock and a
      random number. */
  function AddTradeLog(logs: seq<TradeLog>, input: NewTrade, newId: string): (r: seq<TradeLog>)
    ensures |r| == |logs| + 1
    ensures r[..|logs|] == logs
    ensures r[|logs|].id == newId
    ensures r[|logs|].symbol == input.symbol && r[|logs|].name == input.name
    ensures r[|logs|].buyPrice == input.buyPrice && r[|logs|].buyQuantity == input.buyQuantity
    ensures r[|logs|].buyDate == input.buyDate
    ensures r[|logs|].sellPrice == input.sellPrice && r[|logs|].sellQuantity == input.sellQuantity
    ensures r[|logs|].sellDate == input.sellDate
    ensures r[|logs|].profitRate == CalculateProfitRate(r[|logs|])
  {
    var draft := TradeLog(newId, input.symbol, input.name, input.buyPrice, input.buyQuantity,
                          input.buyDate, input.sellPrice, input.sellQuantity, input.sellDate, None);
    var added := draft.(profitRate := CalculateProfitRate(draft));
    assert CalculateProfitRate(added) == CalculateProfitRate(draft) by {
      ProfitRateIgnoresStoredRate(draft, added.profitRate);
    }
    logs + [added]
  }

  /** One key of a spread: the patch value when the key is present, the
      old value when it is absent. */
  predicate Spread<T(==)>(key: Option<T>, before: T, after: T) {
    (key.Some? ==> after == key.value) && (key.None? ==> after == before)
  }

  /** `{ ...log, ...patch }`: every key present in the patch wins. */
  function Overlay(log: TradeLog, patch: TradePatch): (m: TradeLog)
    ensures Spread(patch.id, log.id, m.id)
    ensures Spread(patch.symbol, log.symbol, m.symbol)
    ensures Spread(patch.name, log.name, m.name)
    ensures Spread(patch.buyPrice, log.buyPrice, m.buyPrice)
    ensures Spread(patch.buyQuantity, log.buyQuantity, m.buyQuantity)
    ensures Spread(patch.buyDate, log.buyDate, m.buyDate)
    ensures Spread(patch.sellPrice, log.sellPrice, m.sellPrice)
    ensures Spread(patch.sellQuantity, log.sellQuantity, m.sellQuantity)
    ensures Spread(patch.sellDate, log.sellDate, m.sellDate)
    ensures m.profitRate == log.profitRate
  {
    TradeLog(
      patch.id.GetOr(log.id),
      patch.symbol.GetOr(log.symbol),
      patch.name.GetOr(log.name),
      patch.buyPrice.GetOr(log.buyPrice),
      patch.buyQuantity.GetOr(log.buyQuantity),
      patch.buyDate.GetOr(log.buyDate),
      patch.sellPrice.GetOr(log.sellPrice),
      patch.sellQuantity.GetOr(log.sellQuantity),
      patch.sellDate.GetOr(log.sellDate),
      log.profitRate)
  }

  /** The record an update produces: the overlay with its profit rate
      recomputed from the merged fields. */
  function Updated(log: TradeLog, patch: TradePatch): (u: TradeLog)
    ensures u.profitRate == CalculateProfitRate(u)
    ensures u.(profitRate := log.profitRate) == Overlay(log, patch)
  {
    var merged := Overlay(log, patch);
    var u := merged.(profitRate := CalculateProfitRate(merged));
    assert CalculateProfitRate(u) == CalculateProfitRate(merged) by {
      ProfitRateIgnoresStoredRate(merged, u.profitRate);
    }
    u
  }

  /** `updateTradeLog`: every record whose id matches is replaced by its
      update; all others stay as they were, in place. */
  function UpdateTradeLog(logs: seq<TradeLog>, id: string, patch: TradePatch): (r: seq<TradeLog>)
    ensures |r| == |logs|
    ensures forall i | 0 <= i < |logs| && logs[i].id != id :: r[i] == logs[i]
    ensures forall i | 0 <= i < |logs| && logs[i].id == id :: r[i] == Updated(logs[i], patch)
  {
    seq(|logs|, i requires 0 <= i < |logs| =>
      if logs[i].id == id then Updated(logs[i], patch) else logs[i])
  }

  /** `deleteTradeLog`: the records whose id differs, in their order. */
  function DeleteTradeLog(logs: seq<TradeLog>, id: string): (r: seq<TradeLog>)
    ensures forall i | 0 <= i < |r| :: r[i].id != id && r[i] in logs
    ensures forall i | 0 <= i < |logs| && logs[i].id != id :: logs[i] in r
    ensures |r| <= |logs|
  {
    if |logs| == 0 then []
    else (if logs[0].id == id then [] else [logs[0]]) + DeleteTradeLog(logs[1..], id)
  }

  /** True when no record carries `id`. */
  predicate IdAbsent(logs: seq<TradeLog>, id: string) {
    forall i | 0 <= i < |logs| :: logs[i].id != id
  }

  /** Deleting an id nobody carries is a no-op. */
  lemma {:induction false} DeleteAbsentIsNoOp(logs: seq<TradeLog>, id: string)
    requires IdAbsent(logs, id)
    ensures DeleteTradeLog(logs, id) == logs
  {
    if |logs| > 0 {
      DeleteAbsentIsNoOp(logs[1..], id);
      assert logs == [logs[0]] + logs[1..];
    }
  }

  /** Deletion keeps relative order: it distributes over concatenation. */
  lemma {:induction false} DeleteDistributes(a: seq<TradeLog>, b: seq<TradeLog>, id: string)
    ensures DeleteTradeLog(a + b, id) == DeleteTradeLog(a, id) + DeleteTradeLog(b, id)
  {
    if |a| == 0 {
      assert a + b == b;
    } else {
      assert (a + b)[0] == a[0];
      assert (a + b)[1..] == a[1..] + b;
      DeleteDistributes(a[1..], b, id);
    }
  }

  /** Deleting the record just added under a fresh id gives back the list
      as it was before the add. */
  lemma AddThenDeleteRoundTrip(logs: seq<TradeLog>, input: NewTrade, newId: string)
    requires IdAbsent(logs, newId)
    ensures DeleteTradeLog(AddTradeLog(logs, input, newId), newId) == logs
  {
    var added := AddTradeLog(logs, input, newId);
    assert added == logs + [added[|logs|]];
    DeleteDistributes(logs, [added[|logs|]], newId);
    DeleteAbsentIsNoOp(logs, newId);
  }

  /** Updating twice with the same patch is the same as updating once. */
  lemma UpdateIdempotent(logs: seq<TradeLog>, id: string, patch: TradePatch)
    ensures UpdateTradeLog(UpdateTradeLog(logs, id, patch), id, patch) == UpdateTradeLog(logs, id, patch)
  {
    var once := UpdateTradeLog(logs, id, patch);
    var twice := UpdateTradeLog(once, id, patch);
    forall i | 0 <= i < |logs|
      ensures twice[i] == once[i]
    {
      if logs[i].id == id && once[i].id == id {
        assert Overlay(once[i], patch) == Overlay(logs[i], patch).(profitRate := once[i].profitRate);
      }
    }
  }

  /** Updating an id nobody carries is a no-op. */
  lemma UpdateAbsentIsNoOp(logs: seq<TradeLog>, id: string, patch: TradePatch)
    requires IdAbsent(logs, id)
    ensures UpdateTradeLog(logs, id, patch) == logs
  {
  }
}
