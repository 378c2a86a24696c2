/** The pure market-metric helpers of the API server: clamping, trade parsing, the 10-second
    price change, the whale activity score and the hype-versus-reality verdict.  The server's
    global trade buffer and clock are parameters here. */
module Metrics {
  import opened Wrappers
  import opened Trades
  import WhaleDetection

  /** `max(low, min(high, value))`. */
  function Clamp(value: real, low: real, high: real): (r: real)
    ensures r >= low
    ensures low <= high ==> r <= high
    ensures low <= value <= high ==> r == value
    ensures value < low ==> r == low
    ensures low <= high < value ==> r == high
  {
    var capped := if high <= value then high else value;
    if low >= capped then low else capped
  }

  // ---------------------------------------------------------------------------------------
  // Parsing a raw exchange trade

  /** A trade message from the exchange stream, with price and quantity already numeric.
      `isBuyerMaker` is None when the message has no such flag. */
  datatype RawTrade = RawTrade(
    tradeId: int,
    price: real,
    quantity: real,
    tradeTimeMs: int,
    isBuyerMaker: Option<bool>)

  /** The buyer is the maker only when the flag is present and true. */
  function BuyerIsMaker(raw: RawTrade): bool
  {
    raw.isBuyerMaker.GetOr(false)
  }

  function ParseTrade(raw: RawTrade): (t: Trade)
    ensures t.tradeId == raw.tradeId && t.timestampMs == raw.tradeTimeMs
    ensures t.price == raw.price && t.quantity == raw.quantity
    ensures t.value == raw.price * raw.quantity
    ensures t.isBuy <==> raw.isBuyerMaker != Some(true)
    ensures t.isBuy == !t.isBuyerMaker
  {
    var isBuyerMaker := BuyerIsMaker(raw);
    Trade(raw.tradeId, raw.tradeTimeMs, raw.price, raw.quantity, raw.price * raw.quantity,
          !isBuyerMaker, isBuyerMaker)
  }

  /** A trade with non-negative price and quantity has a non-negative value, and is a whale
      exactly when price times quantity reaches the threshold. */
  lemma ParsedValue(raw: RawTrade)
    requires raw.price >= 0.0 && raw.quantity >= 0.0
    ensures ParseTrade(raw).value >= 0.0
    ensures WhaleDetection.IsWhaleTrade(ParseTrade(raw).value) <==> raw.price * raw.quantity >= 500_000.0
  {
  }

  // ---------------------------------------------------------------------------------------
  // Ten-second price change

  const PriceChangeWindowMs: int := 10_000

  /** Percent change from the first to the last trade of the last ten seconds; None with no
      trades, fewer than two in the window, or a non-positive first price. */
  function PriceChange10s(trades: seq<Trade>, nowMs: int): (r: Option<real>)
    ensures r.None? <==>
      var recent := TradesSince(trades, nowMs - PriceChangeWindowMs);
      |recent| < 2 || recent[0].price <= 0.0
    ensures r.Some? ==>
      var recent := TradesSince(trades, nowMs - PriceChangeWindowMs);
      r.value == (recent[|recent| - 1].price - recent[0].price) / recent[0].price * 100.0
  {
    if trades == [] then None
    else
      var recent := TradesSince(trades, nowMs - PriceChangeWindowMs);
      if |recent| < 2 then None
      else
        var priceOpen := recent[0].price;
        var priceLast := recent[|recent| - 1].price;
        if priceOpen <= 0.0 then None
        else Some((priceLast - priceOpen) / priceOpen * 100.0)
  }

  /** The change has the sign of last minus first, and a fall can never exceed 100 percent
      while prices stay non-negative. */
  lemma PriceChangeSign(trades: seq<Trade>, nowMs: int)
    requires PriceChange10s(trades, nowMs).Some?
    ensures var recent := TradesSince(trades, nowMs - PriceChangeWindowMs);
            var first := recent[0].price;
            var last := recent[|recent| - 1].price;
            var change := PriceChange10s(trades, nowMs).value;
            && (change > 0.0 <==> last > first)
            && (change == 0.0 <==> last == first)
            && (last >= 0.0 ==> change >= -100.0)
  {
    var recent := TradesSince(trades, nowMs - PriceChangeWindowMs);
    var first := recent[0].price;
    var last := recent[|recent| - 1].price;
    var q := (last - first) / first;
    assert q * first == last - first;
  }

  /** Trades older than the window do not affect the result. */
  lemma {:induction false} PriceChangeIgnoresOldTrades(stale: seq<Trade>, trades: seq<Trade>, nowMs: int)
    requires forall t :: t in stale ==> t.timestampMs < nowMs - PriceChangeWindowMs
    ensures PriceChange10s(stale + trades, nowMs) == PriceChange10s(trades, nowMs)
  {
    TradesSinceSkipsOld(stale, trades, nowMs - PriceChangeWindowMs);
  }

  lemma {:induction false} TradesSinceSkipsOld(stale: seq<Trade>, trades: seq<Trade>, cutoffMs: int)
    requires forall t :: t in stale ==> t.timestampMs < cutoffMs
    ensures TradesSince(stale + trades, cutoffMs) == TradesSince(trades, cutoffMs)
  {
    if stale == [] {
      assert stale + trades == trades;
    } else {
      assert (stale + trades)[1..] == stale[1..] + trades;
      assert (stale + trades)[0] == stale[0] && stale[0] in stale;
      TradesSinceSkipsOld(stale[1..], trades, cutoffMs);
      assert TradesSince(stale + trades, cutoffMs) == [] + TradesSince(stale[1..] + trades, cutoffMs);
    }
  }

  // ---------------------------------------------------------------------------------------
  // Whale activity score

  /** Sum of `value` over the whale trades. */
  function SumWhaleValues(trades: seq<Trade>): (r: real)
    ensures r >= 0.0
  {
    if trades == [] then 0.0
    else (if WhaleDetection.IsWhaleTrade(trades[0].value) then trades[0].value else 0.0) + SumWhaleValues(trades[1..])
  }

  /** With non-negative values the whale part never exceeds the total. */
  lemma {:induction false} WhaleValuesWithinTotal(trades: seq<Trade>)
    requires forall t :: t in trades ==> t.value >= 0.0
    ensures SumWhaleValues(trades) <= SumValues(trades)
  {
    if trades != [] {
      assert trades[0] in trades;
      WhaleValuesWithinTotal(trades[1..]);
    }
  }

  /** Score in [0, 100] mixing traded volume (60%) and the whale share of it (40%), plus the
      whale value in the window.  `log50` stands for the base-50 logarithm. */
  function WhaleActivityScore(trades: seq<Trade>, nowMs: int, windowMinutes: int, log50: real -> real): (r: (real, real))
    ensures r.1 == SumWhaleValues(TradesSince(trades, nowMs - windowMinutes * 60_000))
    ensures 0.0 <= r.0 <= 100.0
    ensures SumValues(TradesSince(trades, nowMs - windowMinutes * 60_000)) <= 0.0 ==> r.0 == 0.0
    ensures r.1 == 0.0 ==> r.0 <= 60.0
  {
    var window := TradesSince(trades, nowMs - windowMinutes * 60_000);
    var whaleValue := SumWhaleValues(window);
    var totalValue := SumValues(window);
    if totalValue <= 0.0 then (0.0, whaleValue)
    else
      var whaleRatio := whaleValue / WhaleDetection.RMax(totalValue, 1.0);
      var volumeScore := Clamp(log50(WhaleDetection.RMax(totalValue / 1_000_000.0, 1.0)), 0.0, 1.0);
      var score := WhaleDetection.RMin((0.6 * volumeScore + 0.4 * whaleRatio) * 100.0, 100.0);
      (score, whaleValue)
  }

  // ---------------------------------------------------------------------------------------
  // Hype versus reality verdict

  const WhaleDominates: string := "Reality Check: Whale activity outpacing price hype. Institutional flows dominate."
  const HypeDominates: string := "Reality Check: Price hype outpacing whale activity. Retail-driven move risk."
  const InBalance: string := "Reality Check: Whale activity and price hype are in balance."

  /** Which of the two scores leads by more than 10 points, if either. */
  function InterpretHypeReality(socialScore: real, whaleScore: real): (r: string)
    ensures r == WhaleDominates <==> whaleScore - socialScore > 10.0
    ensures r == HypeDominates <==> socialScore - whaleScore > 10.0
    ensures r == InBalance <==> -10.0 <= whaleScore - socialScore <= 10.0
  {
    if whaleScore - socialScore > 10.0 then WhaleDominates
    else if socialScore - whaleScore > 10.0 then HypeDominates
    else InBalance
  }
}
