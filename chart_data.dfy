/** Candle-chart construction from the server's recent trades: trades are grouped into
    epoch-aligned buckets, institutional volume is added per bucket, and the requested window
    is walked bucket by bucket, with flat gap candles after the first populated one.

    Stored buckets are keyed by the trade time floored to a multiple of the interval, but the
    walk looks them up at `start + i * interval`, where `start` is derived from the current
    time.  The two meet only when the current time is itself a multiple of the interval
    (see `ChartEmptyUnlessAligned`). */
module ChartData {
  import opened Wrappers
  import opened Trades
  import WhaleDetection

  const MinIntervalSeconds: int := 5
  const MaxIntervalSeconds: int := 300

  /** An institutional-execution event: when it was seen and the volume it carries. */
  datatype InstitutionalEvent = InstitutionalEvent(timestampMs: int, volume: real)

  /** A bucket under construction. */
  datatype Bucket = Bucket(open: real, high: real, low: real, close: real, volume: real, whaleVolume: real)

  /** One candle of the chart; `timestamp` is in epoch seconds. */
  datatype Candle = Candle(timestamp: int, open: real, high: real, low: real, close: real, volume: real, whaleVolume: real)

  /** The requested interval limited to [5, 300] seconds. */
  function ClampInterval(intervalSeconds: int): (r: int)
    ensures MinIntervalSeconds <= r <= MaxIntervalSeconds
    ensures MinIntervalSeconds <= intervalSeconds <= MaxIntervalSeconds ==> r == intervalSeconds
    ensures intervalSeconds < MinIntervalSeconds ==> r == MinIntervalSeconds
    ensures intervalSeconds > MaxIntervalSeconds ==> r == MaxIntervalSeconds
  {
    var capped := if intervalSeconds <= MaxIntervalSeconds then intervalSeconds else MaxIntervalSeconds;
    if capped >= MinIntervalSeconds then capped else MinIntervalSeconds
  }

  /** The number of whole intervals in the window (the quotient truncated toward zero, as
      Python's `int()` does), but at least one. */
  function BucketCount(minutes: int, interval: int): (r: int)
    requires interval > 0
    ensures r >= 1
    ensures minutes * 60 >= interval ==> r * interval <= minutes * 60 < (r + 1) * interval
    ensures minutes * 60 < interval ==> r == 1
  {
    var span := minutes * 60;
    var whole := if span >= 0 then span / interval else -((-span) / interval);
    if whole >= 1 then whole else 1
  }

  /** First second of the window: `count - 1` intervals before `now`. */
  function WindowStart(nowSec: int, interval: int, count: int): int
  {
    nowSec - interval * (count - 1)
  }

  /** Epoch second of the bucket of a trade at `timestampMs`: its time floored to a multiple
      of the interval. */
  function BucketKey(timestampMs: int, interval: int): int
    requires interval > 0
  {
    (timestampMs / (1000 * interval)) * interval
  }

  /** The key is a multiple of the interval and the bucket it opens contains the trade time. */
  lemma BucketKeyFloors(timestampMs: int, interval: int)
    requires interval > 0
    ensures BucketKey(timestampMs, interval) % interval == 0
    ensures BucketKey(timestampMs, interval) * 1000 <= timestampMs < (BucketKey(timestampMs, interval) + interval) * 1000
  {
    var q := timestampMs / (1000 * interval);
    MultipleHasNoRemainder(q, interval);
    assert timestampMs == q * (1000 * interval) + timestampMs % (1000 * interval);
  }

  lemma MultipleHasNoRemainder(q: int, interval: int)
    requires interval > 0
    ensures (q * interval) % interval == 0
  {
    var m := q * interval;
    assert m == q * interval + 0;
    DivModUnique(m, interval, q, 0);
  }

  /** Euclidean division has only one quotient/remainder pair. */
  lemma DivModUnique(a: int, d: int, q: int, rem: int)
    requires d > 0 && 0 <= rem < d && a == q * d + rem
    ensures a / d == q && a % d == rem
  {
    var q0, r0 := a / d, a % d;
    assert a == q0 * d + r0 && 0 <= r0 < d;
    if q0 > q {
      MulDistributes(q0 - q, q, d);
      MulAtLeast(q0 - q, d);
    } else if q0 < q {
      MulDistributes(q - q0, q0, d);
      MulAtLeast(q - q0, d);
    }
  }

  lemma MulDistributes(k: int, q: int, d: int)
    ensures (k + q) * d == k * d + q * d
  {
  }

  lemma {:induction false} MulAtLeast(k: int, d: int)
    requires k >= 1 && d > 0
    ensures k * d >= d
  {
    if k > 1 {
      MulAtLeast(k - 1, d);
      MulDistributes(k - 1, 1, d);
    }
  }

  /** Adding whole intervals does not change the remainder. */
  lemma ShiftKeepsRemainder(a: int, interval: int, m: int)
    requires interval > 0
    ensures (a + interval * m) % interval == a % interval
  {
    DivModUnique(a + interval * m, interval, a / interval + m, a % interval);
  }

  // ---------------------------------------------------------------------------------------
  // Specification of the buckets

  /** The trades at or after `startSec` whose bucket is `key`, in input order. */
  function BucketTrades(trades: seq<Trade>, startSec: int, interval: int, key: int): seq<Trade>
    requires interval > 0
  {
    if trades == [] then []
    else
      var t := trades[|trades| - 1];
      BucketTrades(trades[..|trades| - 1], startSec, interval, key)
        + (if t.timestampMs >= startSec * 1000 && BucketKey(t.timestampMs, interval) == key then [t] else [])
  }

  /** The bucket after one more trade: a new bucket starts at the trade's price; an existing
      one widens its range and moves its close.  Quantity is added to the volume, and to the
      whale volume when the trade is a whale. */
  function Absorb(bucket: Option<Bucket>, t: Trade): Bucket
  {
    var p := t.price;
    var base := match bucket
      case None => Bucket(p, p, p, p, 0.0, 0.0)
      case Some(b) => b.(high := WhaleDetection.RMax(b.high, p), low := WhaleDetection.RMin(b.low, p), close := p);
    base.(volume := base.volume + t.quantity,
          whaleVolume := base.whaleVolume + (if WhaleDetection.IsWhaleTrade(t.value) then t.quantity else 0.0))
  }

  /** The bucket built from a non-empty run of trades, one trade at a time. */
  function Aggregate(trades: seq<Trade>): Bucket
    requires |trades| > 0
  {
    if |trades| == 1 then Absorb(None, trades[0])
    else Absorb(Some(Aggregate(trades[..|trades| - 1])), trades[|trades| - 1])
  }

  function SumQuantity(trades: seq<Trade>): real
  {
    if trades == [] then 0.0 else SumQuantity(trades[..|trades| - 1]) + trades[|trades| - 1].quantity
  }

  /** Quantity of the trades whose value makes them whales. */
  function SumWhaleQuantity(trades: seq<Trade>): real
  {
    if trades == [] then 0.0
    else
      var t := trades[|trades| - 1];
      SumWhaleQuantity(trades[..|trades| - 1]) + (if WhaleDetection.IsWhaleTrade(t.value) then t.quantity else 0.0)
  }

  /** An aggregated bucket opens at the first price, closes at the last, spans exactly the
      prices seen and sums the quantities. */
  lemma {:induction false} AggregateSummary(trades: seq<Trade>)
    requires |trades| > 0
    ensures var b := Aggregate(trades);
      && b.open == trades[0].price
      && b.close == trades[|trades| - 1].price
      && b.volume == SumQuantity(trades)
      && b.whaleVolume == SumWhaleQuantity(trades)
      && (forall i :: 0 <= i < |trades| ==> b.low <= trades[i].price <= b.high)
      && (exists i :: 0 <= i < |trades| && trades[i].price == b.high)
      && (exists i :: 0 <= i < |trades| && trades[i].price == b.low)
  {
    var n := |trades|;
    if n == 1 {
      assert trades[..0] == [];
      assert trades[0].price == Aggregate(trades).high;
    } else {
      var init := trades[..n - 1];
      AggregateSummary(init);
      var a := Aggregate(init);
      var b := Aggregate(trades);
      var hi :| 0 <= hi < n - 1 && init[hi].price == a.high;
      var lo :| 0 <= lo < n - 1 && init[lo].price == a.low;
      assert trades[hi] == init[hi] && trades[lo] == init[lo];
      if b.high == a.high { assert trades[hi].price == b.high; } else { assert trades[n - 1].price == b.high; }
      if b.low == a.low { assert trades[lo].price == b.low; } else { assert trades[n - 1].price == b.low; }
      forall i | 0 <= i < n
        ensures b.low <= trades[i].price <= b.high
      {
        if i < n - 1 { assert trades[i] == init[i]; }
      }
    }
  }

  /** Institutional volume whose event time falls into bucket `key`. */
  function InstitutionalVolume(events: seq<InstitutionalEvent>, interval: int, key: int): real
    requires interval > 0
  {
    if events == [] then 0.0
    else
      var e := events[|events| - 1];
      InstitutionalVolume(events[..|events| - 1], interval, key)
        + (if BucketKey(e.timestampMs, interval) == key then e.volume else 0.0)
  }

  // ---------------------------------------------------------------------------------------
  // Specification of the chart

  /** Whether the bucket looked up at step `i` of the walk holds any trade. */
  predicate Hit(trades: seq<Trade>, startSec: int, interval: int, i: int)
    requires interval > 0
  {
    |BucketTrades(trades, startSec, interval, startSec + interval * i)| > 0
  }

  /** The candle of a populated bucket, with the institutional volume of its key added. */
  function PopulatedCandle(trades: seq<Trade>, events: seq<InstitutionalEvent>, startSec: int, interval: int, key: int): Candle
    requires interval > 0
    requires |BucketTrades(trades, startSec, interval, key)| > 0
  {
    var b := Aggregate(BucketTrades(trades, startSec, interval, key));
    Candle(key, b.open, b.high, b.low, b.close, b.volume, b.whaleVolume + InstitutionalVolume(events, interval, key))
  }

  /** A gap candle: every price is the previous close, no volume. */
  function FlatCandle(key: int, close: real): Candle
  {
    Candle(key, close, close, close, close, 0.0, 0.0)
  }

  /** The candles of steps `i` .. `count - 1` of the walk, given the last close so far. */
  function EmitFrom(trades: seq<Trade>, events: seq<InstitutionalEvent>, startSec: int, interval: int,
                    i: int, count: int, lastClose: Option<real>): seq<Candle>
    requires interval > 0
    decreases count - i
  {
    if i >= count then []
    else
      var key := startSec + interval * i;
      if Hit(trades, startSec, interval, i) then
        var c := PopulatedCandle(trades, events, startSec, interval, key);
        [c] + EmitFrom(trades, events, startSec, interval, i + 1, count, Some(c.close))
      else if lastClose.Some? then
        [FlatCandle(key, lastClose.value)] + EmitFrom(trades, events, startSec, interval, i + 1, count, lastClose)
      else
        EmitFrom(trades, events, startSec, interval, i + 1, count, None)
  }

  /** The chart for a window of `minutes` ending at `nowSec`. */
  function Chart(trades: seq<Trade>, events: seq<InstitutionalEvent>, minutes: int, intervalSeconds: int, nowSec: int): seq<Candle>
  {
    if trades == [] then []
    else
      var interval := ClampInterval(intervalSeconds);
      var count := BucketCount(minutes, interval);
      EmitFrom(trades, events, WindowStart(nowSec, interval, count), interval, 0, count, None)
  }

  // ---------------------------------------------------------------------------------------
  // Properties of the chart

  /** Every trade of a bucket comes from the input, is not before the window start and has
      that bucket's key. */
  lemma {:induction false} BucketTradesMembers(trades: seq<Trade>, startSec: int, interval: int, key: int)
    requires interval > 0
    ensures forall t :: t in BucketTrades(trades, startSec, interval, key) <==>
      t in trades && t.timestampMs >= startSec * 1000 && BucketKey(t.timestampMs, interval) == key
  {
    if trades != [] {
      var init := trades[..|trades| - 1];
      BucketTradesMembers(init, startSec, interval, key);
      assert trades == init + [trades[|trades| - 1]];
    }
  }

  /** The close carried into candle `j` of `r` when the walk entered with `lastClose`. */
  function PrevClose(r: seq<Candle>, j: int, lastClose: Option<real>): Option<real>
    requires 0 <= j <= |r|
  {
    if j == 0 then lastClose else Some(r[j - 1].close)
  }

  /** The close known after step `i` of the walk. */
  function NextClose(trades: seq<Trade>, events: seq<InstitutionalEvent>, startSec: int, interval: int,
                     i: int, lastClose: Option<real>): Option<real>
    requires interval > 0
  {
    if Hit(trades, startSec, interval, i) then
      Some(PopulatedCandle(trades, events, startSec, interval, startSec + interval * i).close)
    else lastClose
  }

  /** A candle is the aggregate of its bucket when that bucket holds trades, and otherwise a
      flat candle at the carried close (so a gap is never the first candle). */
  ghost predicate CandleAt(trades: seq<Trade>, events: seq<InstitutionalEvent>, startSec: int, interval: int,
                           c: Candle, prev: Option<real>)
    requires interval > 0
  {
    if |BucketTrades(trades, startSec, interval, c.timestamp)| > 0 then
      c == PopulatedCandle(trades, events, startSec, interval, c.timestamp)
    else
      prev.Some? && c == FlatCandle(c.timestamp, prev.value)
  }

  /** Steps `i` .. of the walk that precede the candles of `r` find empty buckets. */
  ghost predicate LeadingEmpty(trades: seq<Trade>, startSec: int, interval: int, i: int, count: int, r: seq<Candle>)
    requires interval > 0
  {
    forall m :: i <= m < count - |r| ==> !Hit(trades, startSec, interval, m)
  }

  /** The candles of `r` carry the bucket times of the last `|r|` steps, in order. */
  ghost predicate StampedAtEnd(startSec: int, interval: int, count: int, r: seq<Candle>)
  {
    forall j :: 0 <= j < |r| ==> r[j].timestamp == startSec + interval * (count - |r| + j)
  }

  /** Every candle of `r` is what `CandleAt` demands, given the close carried into `r`. */
  ghost predicate CandlesFollow(trades: seq<Trade>, events: seq<InstitutionalEvent>, startSec: int, interval: int,
                                r: seq<Candle>, lastClose: Option<real>)
    requires interval > 0
  {
    forall j :: 0 <= j < |r| ==> CandleAt(trades, events, startSec, interval, r[j], PrevClose(r, j, lastClose))
  }

  /** The walk emits at most one candle per step, and one at every step once a close is
      known. */
  lemma {:induction false} EmitLength(trades: seq<Trade>, events: seq<InstitutionalEvent>, startSec: int, interval: int,
                                      i: int, count: int, lastClose: Option<real>)
    requires interval > 0 && i <= count
    ensures var r := EmitFrom(trades, events, startSec, interval, i, count, lastClose);
      && |r| <= count - i
      && (lastClose.Some? ==> |r| == count - i)
    decreases count - i
  {
    if i < count {
      var next := NextClose(trades, events, startSec, interval, i, lastClose);
      EmitLength(trades, events, startSec, interval, i + 1, count, next);
    }
  }

  /** The steps before the first emitted candle all find empty buckets. */
  lemma {:induction false} EmitSkipsEmpty(trades: seq<Trade>, events: seq<InstitutionalEvent>, startSec: int, interval: int,
                                          i: int, count: int, lastClose: Option<real>)
    requires interval > 0 && i <= count
    ensures LeadingEmpty(trades, startSec, interval, i, count, EmitFrom(trades, events, startSec, interval, i, count, lastClose))
    decreases count - i
  {
    EmitLength(trades, events, startSec, interval, i, count, lastClose);
    if i < count {
      if lastClose.None? && !Hit(trades, startSec, interval, i) {
        EmitSkipsEmpty(trades, events, startSec, interval, i + 1, count, None);
      } else {
        EmitLength(trades, events, startSec, interval, i + 1, count, NextClose(trades, events, startSec, interval, i, lastClose));
      }
    }
  }

  /** Emitted candles are stamped with consecutive bucket times ending at the last step. */
  lemma {:induction false} EmitStamps(trades: seq<Trade>, events: seq<InstitutionalEvent>, startSec: int, interval: int,
                                      i: int, count: int, lastClose: Option<real>)
    requires interval > 0 && i <= count
    ensures StampedAtEnd(startSec, interval, count, EmitFrom(trades, events, startSec, interval, i, count, lastClose))
    decreases count - i
  {
    if i < count {
      var r := EmitFrom(trades, events, startSec, interval, i, count, lastClose);
      var next := NextClose(trades, events, startSec, interval, i, lastClose);
      var rest := EmitFrom(trades, events, startSec, interval, i + 1, count, next);
      EmitStamps(trades, events, startSec, interval, i + 1, count, next);
      if Hit(trades, startSec, interval, i) || lastClose.Some? {
        EmitLength(trades, events, startSec, interval, i + 1, count, next);
        assert r == [r[0]] + rest;
        assert r[0].timestamp == startSec + interval * i;
        StampedCons(startSec, interval, count, r[0], rest);
      }
    }
  }

  /** A candle stamped one step before a stamped run extends it. */
  lemma StampedCons(startSec: int, interval: int, count: int, c: Candle, rest: seq<Candle>)
    requires StampedAtEnd(startSec, interval, count, rest)
    requires c.timestamp == startSec + interval * (count - |rest| - 1)
    ensures StampedAtEnd(startSec, interval, count, [c] + rest)
  {
    var r := [c] + rest;
    forall j | 0 <= j < |r|
      ensures r[j].timestamp == startSec + interval * (count - |r| + j)
    {
      if j > 0 {
        assert r[j] == rest[j - 1];
        assert count - |rest| + (j - 1) == count - |r| + j;
      }
    }
  }

  /** Each emitted candle is its bucket's aggregate, or a flat candle at the close carried
      from the previous candle (or from the walk's entry close). */
  lemma {:induction false} EmitCandles(trades: seq<Trade>, events: seq<InstitutionalEvent>, startSec: int, interval: int,
                                       i: int, count: int, lastClose: Option<real>)
    requires interval > 0 && i <= count
    ensures CandlesFollow(trades, events, startSec, interval,
                          EmitFrom(trades, events, startSec, interval, i, count, lastClose), lastClose)
    decreases count - i
  {
    if i < count {
      var r := EmitFrom(trades, events, startSec, interval, i, count, lastClose);
      var next := NextClose(trades, events, startSec, interval, i, lastClose);
      var rest := EmitFrom(trades, events, startSec, interval, i + 1, count, next);
      EmitCandles(trades, events, startSec, interval, i + 1, count, next);
      if Hit(trades, startSec, interval, i) || lastClose.Some? {
        assert r[1..] == rest && Some(r[0].close) == next;
        forall j | 0 < j < |r|
          ensures CandleAt(trades, events, startSec, interval, r[j], PrevClose(r, j, lastClose))
        {
          assert r[j] == rest[j - 1];
          assert PrevClose(r, j, lastClose) == PrevClose(rest, j - 1, next);
          assert CandleAt(trades, events, startSec, interval, rest[j - 1], PrevClose(rest, j - 1, next));
        }
      }
    }
  }

  /** A chart has at most one candle per bucket of the window; its candles are the last
      buckets of the window, in time order; empty buckets before the first candle are dropped,
      and every later empty bucket repeats the previous close with no volume. */
  lemma ChartShape(trades: seq<Trade>, events: seq<InstitutionalEvent>, minutes: int, intervalSeconds: int, nowSec: int)
    requires trades != []
    ensures var interval := ClampInterval(intervalSeconds);
      var count := BucketCount(minutes, interval);
      var start := WindowStart(nowSec, interval, count);
      var chart := Chart(trades, events, minutes, intervalSeconds, nowSec);
      && |chart| <= count
      && LeadingEmpty(trades, start, interval, 0, count, chart)
      && StampedAtEnd(start, interval, count, chart)
      && CandlesFollow(trades, events, start, interval, chart, None)
  {
    var interval := ClampInterval(intervalSeconds);
    var count := BucketCount(minutes, interval);
    var start := WindowStart(nowSec, interval, count);
    EmitLength(trades, events, start, interval, 0, count, None);
    EmitSkipsEmpty(trades, events, start, interval, 0, count, None);
    EmitStamps(trades, events, start, interval, 0, count, None);
    EmitCandles(trades, events, start, interval, 0, count, None);
  }

  /** Chart timestamps strictly ascend. */
  lemma ChartAscending(trades: seq<Trade>, events: seq<InstitutionalEvent>, minutes: int, intervalSeconds: int, nowSec: int)
    requires trades != []
    ensures var chart := Chart(trades, events, minutes, intervalSeconds, nowSec);
      forall j, k :: 0 <= j < k < |chart| ==> chart[j].timestamp < chart[k].timestamp
  {
    var interval := ClampInterval(intervalSeconds);
    var count := BucketCount(minutes, interval);
    var chart := Chart(trades, events, minutes, intervalSeconds, nowSec);
    ChartShape(trades, events, minutes, intervalSeconds, nowSec);
    forall j, k | 0 <= j < k < |chart|
      ensures chart[j].timestamp < chart[k].timestamp
    {
      var b := count - |chart|;
      MulDistributes(k - j, b + j, interval);
      MulAtLeast(k - j, interval);
      assert interval * (b + k) == interval * (b + j) + (k - j) * interval;
    }
  }

  /** Every candle of a chart lies within its own range: low <= open, close <= high. */
  lemma ChartCandlesWellFormed(trades: seq<Trade>, events: seq<InstitutionalEvent>, minutes: int, intervalSeconds: int, nowSec: int)
    requires trades != []
    ensures var chart := Chart(trades, events, minutes, intervalSeconds, nowSec);
      forall j :: 0 <= j < |chart| ==>
        chart[j].low <= chart[j].open <= chart[j].high && chart[j].low <= chart[j].close <= chart[j].high
  {
    var interval := ClampInterval(intervalSeconds);
    var count := BucketCount(minutes, interval);
    var start := WindowStart(nowSec, interval, count);
    var chart := Chart(trades, events, minutes, intervalSeconds, nowSec);
    ChartShape(trades, events, minutes, intervalSeconds, nowSec);
    forall j | 0 <= j < |chart|
      ensures chart[j].low <= chart[j].open <= chart[j].high && chart[j].low <= chart[j].close <= chart[j].high
    {
      var bt := BucketTrades(trades, start, interval, chart[j].timestamp);
      if |bt| > 0 {
        AggregateSummary(bt);
      }
    }
  }

  /** A populated candle opens at its bucket's first price, closes at its last, and carries the
      bucket's quantity, whale quantity plus institutional volume. */
  lemma PopulatedCandleFacts(trades: seq<Trade>, events: seq<InstitutionalEvent>, startSec: int, interval: int, key: int)
    requires interval > 0
    requires |BucketTrades(trades, startSec, interval, key)| > 0
    ensures var bt := BucketTrades(trades, startSec, interval, key);
      var c := PopulatedCandle(trades, events, startSec, interval, key);
      && c.timestamp == key
      && c.open == bt[0].price && c.close == bt[|bt| - 1].price
      && c.volume == SumQuantity(bt)
      && c.whaleVolume == SumWhaleQuantity(bt) + InstitutionalVolume(events, interval, key)
      && (forall t :: t in bt ==> c.low <= t.price <= c.high)
  {
    var bt := BucketTrades(trades, startSec, interval, key);
    AggregateSummary(bt);
    forall t | t in bt
      ensures Aggregate(bt).low <= t.price <= Aggregate(bt).high
    {
      var k :| 0 <= k < |bt| && bt[k] == t;
    }
  }

  /** Every bucket time of the walk has the remainder of the current time. */
  lemma StepRemainder(nowSec: int, interval: int, count: int, m: int)
    requires interval > 0
    ensures (WindowStart(nowSec, interval, count) + interval * m) % interval == nowSec % interval
  {
    var start := WindowStart(nowSec, interval, count);
    assert start == nowSec + interval * (1 - count);
    ShiftKeepsRemainder(nowSec, interval, 1 - count);
    ShiftKeepsRemainder(start, interval, m);
  }

  /** A bucket holding trades sits at a multiple of the interval. */
  lemma PopulatedKeyAligned(trades: seq<Trade>, startSec: int, interval: int, key: int)
    requires interval > 0
    requires |BucketTrades(trades, startSec, interval, key)| > 0
    ensures key % interval == 0
  {
    var bt := BucketTrades(trades, startSec, interval, key);
    BucketTradesMembers(trades, startSec, interval, key);
    assert bt[0] in bt;
    BucketKeyFloors(bt[0].timestampMs, interval);
  }

  /** Buckets are stored under multiples of the interval but looked up at `start + i *
      interval`; when the current time is not itself a multiple of the interval the two never
      meet and the chart is empty. */
  lemma ChartEmptyUnlessAligned(trades: seq<Trade>, events: seq<InstitutionalEvent>, minutes: int, intervalSeconds: int, nowSec: int)
    requires nowSec % ClampInterval(intervalSeconds) != 0
    ensures Chart(trades, events, minutes, intervalSeconds, nowSec) == []
  {
    if trades != [] {
      var interval := ClampInterval(intervalSeconds);
      var count := BucketCount(minutes, interval);
      var start := WindowStart(nowSec, interval, count);
      var chart := Chart(trades, events, minutes, intervalSeconds, nowSec);
      ChartShape(trades, events, minutes, intervalSeconds, nowSec);
      if chart != [] {
        var key := chart[0].timestamp;
        assert CandleAt(trades, events, start, interval, chart[0], PrevClose(chart, 0, None));
        PopulatedKeyAligned(trades, start, interval, key);
        assert key == start + interval * (count - |chart| + 0);
        StepRemainder(nowSec, interval, count, count - |chart|);
      }
    }
  }

  // ---------------------------------------------------------------------------------------
  // The walk started on the bucket grid

  /** The chart as it would be with the window aligned to the bucket grid: the current time
      floored to a multiple of the interval before the window start is derived from it. */
  function AlignedChart(trades: seq<Trade>, events: seq<InstitutionalEvent>, minutes: int, intervalSeconds: int, nowSec: int)
    : seq<Candle>
  {
    var interval := ClampInterval(intervalSeconds);
    Chart(trades, events, minutes, intervalSeconds, (nowSec / interval) * interval)
  }

  /** Of two multiples of the interval less than one interval apart, the first is not above
      the second. */
  lemma {:induction false} ScaleBelow(p: int, q: int, interval: int)
    requires interval > 0 && interval * p < interval * q + interval
    ensures p <= q
  {
    if p > q {
      MulAtLeast(p - q, interval);
      MulDistributes(p - q, q, interval);
    }
  }

  /** A multiple of the interval is the interval times its quotient. */
  lemma MultipleIsProduct(x: int, interval: int)
    requires interval > 0 && x % interval == 0
    ensures x == interval * (x / interval)
  {
  }

  /** A grid time within `count` intervals from a grid start is one of the walk's steps. */
  lemma StepOfKey(start: int, interval: int, count: int, key: int) returns (m: int)
    requires interval > 0 && start % interval == 0 && key % interval == 0
    requires start < key + interval && key < start + interval * (count - 1) + interval
    ensures 0 <= m < count && key == start + interval * m
  {
    MultipleIsProduct(start, interval);
    MultipleIsProduct(key, interval);
    var s, k := start / interval, key / interval;
    ScaleBelow(s, k, interval);
    m := k - s;
    MulDistributes(m, s, interval);
    MulDistributes(count - 1, s, interval);
    ScaleBelow(m, count - 1, interval);
  }

  /** With the window aligned, the bucket of a time in the window's span is one of the
      walk's steps. */
  lemma AlignedStep(nowSec: int, interval: int, count: int, timestampMs: int) returns (m: int)
    requires interval > 0
    requires var aligned := (nowSec / interval) * interval;
      WindowStart(aligned, interval, count) * 1000 <= timestampMs < (aligned + interval) * 1000
    ensures 0 <= m < count
    ensures BucketKey(timestampMs, interval) == WindowStart((nowSec / interval) * interval, interval, count) + interval * m
  {
    var aligned := (nowSec / interval) * interval;
    var start := WindowStart(aligned, interval, count);
    var key := BucketKey(timestampMs, interval);
    MultipleHasNoRemainder(nowSec / interval, interval);
    StepRemainder(aligned, interval, count, 0);
    BucketKeyFloors(timestampMs, interval);
    m := StepOfKey(start, interval, count, key);
  }

  /** A step whose bucket holds trades contributes that bucket's candle to the walk. */
  lemma HitIsCharted(trades: seq<Trade>, events: seq<InstitutionalEvent>, start: int, interval: int, count: int, m: int)
    requires interval > 0 && 0 <= m < count
    requires Hit(trades, start, interval, m)
    ensures PopulatedCandle(trades, events, start, interval, start + interval * m)
            in EmitFrom(trades, events, start, interval, 0, count, None)
  {
    var chart := EmitFrom(trades, events, start, interval, 0, count, None);
    EmitLength(trades, events, start, interval, 0, count, None);
    EmitSkipsEmpty(trades, events, start, interval, 0, count, None);
    EmitStamps(trades, events, start, interval, 0, count, None);
    EmitCandles(trades, events, start, interval, 0, count, None);
    var j := m - (count - |chart|);
    assert chart[j].timestamp == start + interval * m;
    assert CandleAt(trades, events, start, interval, chart[j], PrevClose(chart, j, None));
  }

  /** A trade of the window whose bucket is step `m` makes that step's candle appear. */
  lemma TradeIsCharted(trades: seq<Trade>, events: seq<InstitutionalEvent>, start: int, interval: int, count: int,
                       m: int, t: Trade)
    requires interval > 0 && 0 <= m < count
    requires t in trades && t.timestampMs >= start * 1000 && BucketKey(t.timestampMs, interval) == start + interval * m
    ensures |BucketTrades(trades, start, interval, start + interval * m)| > 0
    ensures PopulatedCandle(trades, events, start, interval, start + interval * m)
            in EmitFrom(trades, events, start, interval, 0, count, None)
  {
    BucketTradesMembers(trades, start, interval, start + interval * m);
    assert t in BucketTrades(trades, start, interval, start + interval * m);
    HitIsCharted(trades, events, start, interval, count, m);
  }

  /** With the window aligned, every trade of the window's time span shows up in the chart
      as the candle of its bucket. */
  lemma AlignedChartShowsEveryBucket(trades: seq<Trade>, events: seq<InstitutionalEvent>, minutes: int, intervalSeconds: int,
                                     nowSec: int, t: Trade)
    requires t in trades
    requires var interval := ClampInterval(intervalSeconds);
      var aligned := (nowSec / interval) * interval;
      WindowStart(aligned, interval, BucketCount(minutes, interval)) * 1000 <= t.timestampMs < (aligned + interval) * 1000
    ensures var interval := ClampInterval(intervalSeconds);
      var aligned := (nowSec / interval) * interval;
      var start := WindowStart(aligned, interval, BucketCount(minutes, interval));
      var key := BucketKey(t.timestampMs, interval);
      && |BucketTrades(trades, start, interval, key)| > 0
      && PopulatedCandle(trades, events, start, interval, key) in AlignedChart(trades, events, minutes, intervalSeconds, nowSec)
  {
    var interval := ClampInterval(intervalSeconds);
    var count := BucketCount(minutes, interval);
    var aligned := (nowSec / interval) * interval;
    var start := WindowStart(aligned, interval, count);
    var key := BucketKey(t.timestampMs, interval);
    var m := AlignedStep(nowSec, interval, count, t.timestampMs);
    TradeIsCharted(trades, events, start, interval, count, m, t);
    assert AlignedChart(trades, events, minutes, intervalSeconds, nowSec)
        == EmitFrom(trades, events, start, interval, 0, count, None);
  }

  // ---------------------------------------------------------------------------------------
  // One step of each loop

  lemma InstitutionalVolumeStep(events: seq<InstitutionalEvent>, j: int, interval: int, k: int)
    requires interval > 0 && 0 <= j < |events|
    ensures InstitutionalVolume(events[..j + 1], interval, k)
         == InstitutionalVolume(events[..j], interval, k)
            + (if BucketKey(events[j].timestampMs, interval) == k then events[j].volume else 0.0)
  {
    assert events[..j + 1][..j] == events[..j];
  }

  lemma BucketTradesStep(trades: seq<Trade>, i: int, startSec: int, interval: int, k: int)
    requires interval > 0 && 0 <= i < |trades|
    ensures var t := trades[i];
      BucketTrades(trades[..i + 1], startSec, interval, k)
        == BucketTrades(trades[..i], startSec, interval, k)
           + (if t.timestampMs >= startSec * 1000 && BucketKey(t.timestampMs, interval) == k then [t] else [])
  {
    assert trades[..i + 1][..i] == trades[..i];
  }

  /** Appending one trade to a bucket's run absorbs it into the bucket. */
  lemma AggregateStep(prev: seq<Trade>, t: Trade)
    ensures Aggregate(prev + [t]) == Absorb(if prev == [] then None else Some(Aggregate(prev)), t)
  {
    var next := prev + [t];
    if prev != [] {
      assert next[..|next| - 1] == prev;
    }
  }

  /** `buckets` holds exactly the populated buckets of `trades`, each aggregated. */
  ghost predicate BucketsMatch(buckets: map<int, Bucket>, trades: seq<Trade>, startSec: int, interval: int)
    requires interval > 0
  {
    && (forall k :: k in buckets <==> |BucketTrades(trades, startSec, interval, k)| > 0)
    && (forall k :: k in buckets ==> buckets[k] == Aggregate(BucketTrades(trades, startSec, interval, k)))
  }

  /** The bucket map after one trade: a trade before the window start is skipped; any other
      opens or extends the bucket of its floored key. */
  function AbsorbInto(buckets: map<int, Bucket>, t: Trade, startSec: int, interval: int): map<int, Bucket>
    requires interval > 0
  {
    if t.timestampMs >= startSec * 1000 then
      var key := BucketKey(t.timestampMs, interval);
      buckets[key := Absorb(if key in buckets then Some(buckets[key]) else None, t)]
    else buckets
  }

  /** One iteration of the bucket loop, seen from a single key. */
  lemma BucketStepAt(before: map<int, Bucket>, trades: seq<Trade>, i: int, startSec: int, interval: int, k: int)
    requires interval > 0 && 0 <= i < |trades|
    requires k in before <==> |BucketTrades(trades[..i], startSec, interval, k)| > 0
    requires k in before ==> before[k] == Aggregate(BucketTrades(trades[..i], startSec, interval, k))
    ensures var after := AbsorbInto(before, trades[i], startSec, interval);
      && (k in after <==> |BucketTrades(trades[..i + 1], startSec, interval, k)| > 0)
      && (k in after ==> after[k] == Aggregate(BucketTrades(trades[..i + 1], startSec, interval, k)))
  {
    var t := trades[i];
    BucketTradesStep(trades, i, startSec, interval, k);
    var prev := BucketTrades(trades[..i], startSec, interval, k);
    var after := AbsorbInto(before, t, startSec, interval);
    if t.timestampMs >= startSec * 1000 && BucketKey(t.timestampMs, interval) == k {
      AggregateStep(prev, t);
      assert BucketTrades(trades[..i + 1], startSec, interval, k) == prev + [t];
      assert after[k] == Absorb(if k in before then Some(before[k]) else None, t);
    } else {
      assert BucketTrades(trades[..i + 1], startSec, interval, k) == prev;
      assert k in after <==> k in before;
      assert k in after ==> after[k] == before[k];
    }
  }

  /** One iteration of the bucket loop keeps `BucketsMatch`. */
  lemma BucketsMatchStep(before: map<int, Bucket>, trades: seq<Trade>, i: int, startSec: int, interval: int)
    requires interval > 0 && 0 <= i < |trades|
    requires BucketsMatch(before, trades[..i], startSec, interval)
    ensures BucketsMatch(AbsorbInto(before, trades[i], startSec, interval), trades[..i + 1], startSec, interval)
  {
    var after := AbsorbInto(before, trades[i], startSec, interval);
    forall k
      ensures k in after <==> |BucketTrades(trades[..i + 1], startSec, interval, k)| > 0
      ensures k in after ==> after[k] == Aggregate(BucketTrades(trades[..i + 1], startSec, interval, k))
    {
      BucketStepAt(before, trades, i, startSec, interval, k);
    }
  }

  // ---------------------------------------------------------------------------------------
  // The imperative construction

  /** `m.get(k, 0.0)`. */
  function Lookup(m: map<int, real>, k: int): real
  {
    if k in m then m[k] else 0.0
  }

  /** Institutional volume per bucket key (the first loop of the source). */
  method CollectInstitutionalVolume(events: seq<InstitutionalEvent>, interval: int) returns (instVolume: map<int, real>)
    requires interval > 0
    ensures forall k :: Lookup(instVolume, k) == InstitutionalVolume(events, interval, k)
  {
    instVolume := map[];
    var j := 0;
    while j < |events|
      invariant 0 <= j <= |events|
      invariant forall k :: Lookup(instVolume, k) == InstitutionalVolume(events[..j], interval, k)
    {
      var e := events[j];
      var key := BucketKey(e.timestampMs, interval);
      ghost var before := instVolume;
      instVolume := instVolume[key := Lookup(instVolume, key) + e.volume];
      forall k
        ensures Lookup(instVolume, k) == InstitutionalVolume(events[..j + 1], interval, k)
      {
        InstitutionalVolumeStep(events, j, interval, k);
        assert Lookup(before, k) == InstitutionalVolume(events[..j], interval, k);
      }
      j := j + 1;
    }
    assert events[..j] == events;
  }

  /** The populated buckets of the window, keyed by floored epoch second (the second loop of
      the source); trades before `startSec` are skipped. */
  method CollectBuckets(trades: seq<Trade>, startSec: int, interval: int) returns (buckets: map<int, Bucket>)
    requires interval > 0
    ensures BucketsMatch(buckets, trades, startSec, interval)
  {
    buckets := map[];
    var i := 0;
    while i < |trades|
      invariant 0 <= i <= |trades|
      invariant BucketsMatch(buckets, trades[..i], startSec, interval)
    {
      BucketsMatchStep(buckets, trades, i, startSec, interval);
      buckets := AbsorbInto(buckets, trades[i], startSec, interval);
      i := i + 1;
    }
    assert trades[..i] == trades;
  }

  /** One step of the walk at bucket `key`: the candles it emits and the new last close. */
  function WalkStep(buckets: map<int, Bucket>, instVolume: map<int, real>, key: int, lastClose: Option<real>)
    : (seq<Candle>, Option<real>)
  {
    if key in buckets then
      var b := buckets[key];
      ([Candle(key, b.open, b.high, b.low, b.close, b.volume, b.whaleVolume + Lookup(instVolume, key))], Some(b.close))
    else if lastClose.Some? then
      ([FlatCandle(key, lastClose.value)], lastClose)
    else
      ([], None)
  }

  /** A walk step over matching maps emits what the chart specification emits at that step. */
  lemma WalkStepMatches(trades: seq<Trade>, events: seq<InstitutionalEvent>, startSec: int, interval: int,
                        n: int, count: int, lastClose: Option<real>,
                        buckets: map<int, Bucket>, instVolume: map<int, real>)
    requires interval > 0 && 0 <= n < count
    requires BucketsMatch(buckets, trades, startSec, interval)
    requires forall k :: Lookup(instVolume, k) == InstitutionalVolume(events, interval, k)
    ensures var step := WalkStep(buckets, instVolume, startSec + interval * n, lastClose);
      EmitFrom(trades, events, startSec, interval, n, count, lastClose)
        == step.0 + EmitFrom(trades, events, startSec, interval, n + 1, count, step.1)
  {
    var key := startSec + interval * n;
    assert key in buckets <==> Hit(trades, startSec, interval, n);
    if key in buckets {
      assert buckets[key] == Aggregate(BucketTrades(trades, startSec, interval, key));
      assert Lookup(instVolume, key) == InstitutionalVolume(events, interval, key);
    }
  }

  /** One walk step extends a correct prefix of the chart to a longer correct prefix. */
  lemma WalkPrefixStep(trades: seq<Trade>, events: seq<InstitutionalEvent>, startSec: int, interval: int,
                       n: int, count: int, lastClose: Option<real>,
                       buckets: map<int, Bucket>, instVolume: map<int, real>, chart: seq<Candle>)
    requires interval > 0 && 0 <= n < count
    requires BucketsMatch(buckets, trades, startSec, interval)
    requires forall k :: Lookup(instVolume, k) == InstitutionalVolume(events, interval, k)
    requires chart + EmitFrom(trades, events, startSec, interval, n, count, lastClose)
          == EmitFrom(trades, events, startSec, interval, 0, count, None)
    ensures var step := WalkStep(buckets, instVolume, startSec + interval * n, lastClose);
      (chart + step.0) + EmitFrom(trades, events, startSec, interval, n + 1, count, step.1)
        == EmitFrom(trades, events, startSec, interval, 0, count, None)
  {
    var step := WalkStep(buckets, instVolume, startSec + interval * n, lastClose);
    WalkStepMatches(trades, events, startSec, interval, n, count, lastClose, buckets, instVolume);
    var rest := EmitFrom(trades, events, startSec, interval, n + 1, count, step.1);
    assert (chart + step.0) + rest == chart + (step.0 + rest);
  }

  /** The walk over the window (the third loop of the source). */
  method Walk(trades: seq<Trade>, events: seq<InstitutionalEvent>, startSec: int, interval: int, count: int,
              buckets: map<int, Bucket>, instVolume: map<int, real>) returns (chart: seq<Candle>)
    requires interval > 0 && count >= 0
    requires BucketsMatch(buckets, trades, startSec, interval)
    requires forall k :: Lookup(instVolume, k) == InstitutionalVolume(events, interval, k)
    ensures chart == EmitFrom(trades, events, startSec, interval, 0, count, None)
  {
    chart := [];
    var lastClose: Option<real> := None;
    var n := 0;
    while n < count
      invariant 0 <= n <= count
      invariant chart + EmitFrom(trades, events, startSec, interval, n, count, lastClose)
             == EmitFrom(trades, events, startSec, interval, 0, count, None)
    {
      WalkPrefixStep(trades, events, startSec, interval, n, count, lastClose, buckets, instVolume, chart);
      var step := WalkStep(buckets, instVolume, startSec + interval * n, lastClose);
      chart := chart + step.0;
      lastClose := step.1;
      n := n + 1;
    }
  }

  /** The chart of the last `minutes` up to `nowSec`. */
  method BuildChartData(trades: seq<Trade>, events: seq<InstitutionalEvent>, minutes: int, intervalSeconds: int, nowSec: int)
    returns (chart: seq<Candle>)
    ensures trades == [] ==> chart == []
    ensures chart == Chart(trades, events, minutes, intervalSeconds, nowSec)
  {
    if trades == [] {
      return [];
    }
    var interval := ClampInterval(intervalSeconds);
    var count := BucketCount(minutes, interval);
    var start := WindowStart(nowSec, interval, count);
    var instVolume := CollectInstitutionalVolume(events, interval);
    var buckets := CollectBuckets(trades, start, interval);
    chart := Walk(trades, events, start, interval, count, buckets, instVolume);
  }
}
