/** The trade record that the backend keeps in its recent-trade buffer (the dictionary built by
    `parse_trade`), shared by the whale engine and the market-metric helpers. */
module Trades {

  /** One parsed trade.  `timestampMs` is the exchange trade time in epoch milliseconds;
      `value` is the notional value in USD. */
  datatype Trade = Trade(
    tradeId: int,
    timestampMs: int,
    price: real,
    quantity: real,
    value: real,
    isBuy: bool,
    isBuyerMaker: bool)

  /** The trades whose timestamp is at or after `cutoffMs`, in their original order. */
  function TradesSince(trades: seq<Trade>, cutoffMs: int): (r: seq<Trade>)
    ensures |r| <= |trades|
    ensures forall t :: t in r <==> t in trades && t.timestampMs >= cutoffMs
  {
    if trades == [] then []
    else (if trades[0].timestampMs >= cutoffMs then [trades[0]] else []) + TradesSince(trades[1..], cutoffMs)
  }

  /** Sum of `value` over the trades. */
  function SumValues(trades: seq<Trade>): real
  {
    if trades == [] then 0.0 else trades[0].value + SumValues(trades[1..])
  }
}
