/** The whale detection engine: classifies trades by notional value, scores whales, ranks
    similar earlier whales, aggregates whale buy/sell pressure and keeps a bounded history of
    detected whale alerts. */
module WhaleDetection {
  import opened Wrappers
  import opened PySlice
  import opened Trades

  /** Minimum notional value (USD) of a whale trade; the comparison is inclusive. */
  const WhaleThreshold: real := 500_000.0
  /** Notional value at which the whale score saturates at 1. */
  const ScoreCeilingValue: real := 5_000_000.0
  /** Whale volume that gives full momentum. */
  const MomentumVolume: real := 10_000_000.0
  /** How many whale alerts the engine keeps. */
  const MaxDetectedWhales: nat := 1000
  /** How many similar patterns are reported. */
  const TopPatterns: nat := 3

  function Abs(x: real): real { if x < 0.0 then -x else x }
  function RMax(a: real, b: real): real { if a >= b then a else b }
  function RMin(a: real, b: real): real { if a <= b then a else b }

  /** A trade is a whale when its value reaches the threshold (500 000 included). */
  predicate IsWhaleTrade(value: real)
    ensures IsWhaleTrade(value) ==> value > 0.0
  {
    value >= WhaleThreshold
  }

  /** Magnitude score: 0 for a non-whale, otherwise linear from the threshold to 5M, capped
      at 1 and never below 0.1. */
  function WhaleScore(value: real): (r: real)
    ensures !IsWhaleTrade(value) ==> r == 0.0
    ensures IsWhaleTrade(value) ==> 0.1 <= r <= 1.0
    ensures value >= ScoreCeilingValue ==> r == 1.0
  {
    if !IsWhaleTrade(value) then 0.0
    else
      var score := RMin((value - WhaleThreshold) / (ScoreCeilingValue - WhaleThreshold), 1.0);
      RMax(score, 0.1)
  }

  /** A larger trade value never gets a smaller whale score. */
  lemma WhaleScoreMonotone(a: real, b: real)
    requires a <= b
    ensures WhaleScore(a) <= WhaleScore(b)
  {
    if IsWhaleTrade(a) {
      assert (a - WhaleThreshold) / (ScoreCeilingValue - WhaleThreshold)
          <= (b - WhaleThreshold) / (ScoreCeilingValue - WhaleThreshold);
    }
  }

  // ---------------------------------------------------------------------------------------
  // Similar patterns

  /** One entry of the similar-patterns list. */
  datatype SimilarPattern = SimilarPattern(
    tradeId: int,
    timestampMs: int,
    price: real,
    value: real,
    isBuy: bool,
    similarityScore: real)

  /** Value proximity: 1 - |v - q| / max(v, q). */
  function SimilarityScore(v: real, q: real): real
    requires v > 0.0
  {
    1.0 - Abs(v - q) / RMax(v, q)
  }

  /** Quotients by a positive denominator: sign and comparison with 1 follow the numerator. */
  lemma QuotientFacts(a: real, m: real)
    requires m > 0.0
    ensures a >= 0.0 ==> a / m >= 0.0
    ensures a > 0.0 ==> a / m > 0.0
    ensures a <= m ==> a / m <= 1.0
    ensures a / m == 1.0 ==> a == m
    ensures -m <= a ==> -1.0 <= a / m
    ensures a / m == -1.0 ==> a == -m
  {
    var d := a / m;
    assert d * m == a;
  }

  /** For a positive candidate value the score is at most 1, is exactly 1 only for an equal
      value, and is non-negative whenever the query value is. */
  lemma SimilarityScoreBounds(v: real, q: real)
    requires v > 0.0
    ensures SimilarityScore(v, q) <= 1.0
    ensures SimilarityScore(v, q) == 1.0 <==> v == q
    ensures q >= 0.0 ==> SimilarityScore(v, q) >= 0.0
  {
    QuotientFacts(Abs(v - q), RMax(v, q));
  }

  function ToPattern(t: Trade, q: real): SimilarPattern
    requires t.value > 0.0
  {
    SimilarPattern(t.tradeId, t.timestampMs, t.price, t.value, t.isBuy, SimilarityScore(t.value, q))
  }

  /** The whale trades on side `isBuy`, in their original order. */
  function SideWhales(trades: seq<Trade>, isBuy: bool): (r: seq<Trade>)
    ensures |r| <= |trades|
    ensures forall t :: t in r <==> t in trades && IsWhaleTrade(t.value) && t.isBuy == isBuy
  {
    if trades == [] then []
    else
      var t := trades[0];
      (if IsWhaleTrade(t.value) && t.isBuy == isBuy then [t] else []) + SideWhales(trades[1..], isBuy)
  }

  /** Every candidate scored against the query value. */
  function ScoreAll(trades: seq<Trade>, q: real): (r: seq<SimilarPattern>)
    requires forall t :: t in trades ==> t.value > 0.0
    ensures |r| == |trades|
    ensures forall i :: 0 <= i < |trades| ==> r[i] == ToPattern(trades[i], q)
  {
    if trades == [] then [] else [ToPattern(trades[0], q)] + ScoreAll(trades[1..], q)
  }

  predicate SortedByScore(s: seq<SimilarPattern>)
  {
    forall i, j :: 0 <= i < j < |s| ==> s[i].similarityScore >= s[j].similarityScore
  }

  /** Places `p` before the first entry with a strictly smaller score: inserting the earlier
      element in front of equal scores keeps the sort stable. */
  function InsertByScore(p: SimilarPattern, s: seq<SimilarPattern>): seq<SimilarPattern>
  {
    if s == [] || p.similarityScore >= s[0].similarityScore then [p] + s
    else [s[0]] + InsertByScore(p, s[1..])
  }

  /** Python's stable `sorted(..., key=similarity_score, reverse=True)`. */
  function SortByScore(s: seq<SimilarPattern>): seq<SimilarPattern>
  {
    if s == [] then [] else InsertByScore(s[0], SortByScore(s[1..]))
  }

  lemma {:induction false} InsertByScorePermutes(p: SimilarPattern, s: seq<SimilarPattern>)
    ensures multiset(InsertByScore(p, s)) == multiset(s) + multiset{p}
  {
    if s != [] && p.similarityScore < s[0].similarityScore {
      InsertByScorePermutes(p, s[1..]);
      assert s == [s[0]] + s[1..];
    }
  }

  lemma {:induction false} InsertByScoreSorted(p: SimilarPattern, s: seq<SimilarPattern>)
    requires SortedByScore(s)
    ensures SortedByScore(InsertByScore(p, s))
  {
    var out := InsertByScore(p, s);
    if s == [] || p.similarityScore >= s[0].similarityScore {
      forall i, j | 0 <= i < j < |out|
        ensures out[i].similarityScore >= out[j].similarityScore
      {
        assert out[j] == s[j - 1];
        if i == 0 {
          assert s[0].similarityScore >= s[j - 1].similarityScore;
        } else {
          assert out[i] == s[i - 1];
        }
      }
    } else {
      var r := InsertByScore(p, s[1..]);
      InsertByScoreSorted(p, s[1..]);
      assert r[0] == p || r[0] == s[1];
      assert r[0].similarityScore <= s[0].similarityScore;
      forall i, j | 0 <= i < j < |out|
        ensures out[i].similarityScore >= out[j].similarityScore
      {
        assert out[j] == r[j - 1];
        if i == 0 {
          assert r[0].similarityScore >= r[j - 1].similarityScore;
        } else {
          assert out[i] == r[i - 1];
        }
      }
    }
  }

  /** The sort yields a permutation of its input ordered by descending score. */
  lemma {:induction false} SortByScoreCorrect(s: seq<SimilarPattern>)
    ensures multiset(SortByScore(s)) == multiset(s)
    ensures |SortByScore(s)| == |s|
    ensures SortedByScore(SortByScore(s))
  {
    if s != [] {
      SortByScoreCorrect(s[1..]);
      InsertByScorePermutes(s[0], SortByScore(s[1..]));
      InsertByScoreSorted(s[0], SortByScore(s[1..]));
      assert s == [s[0]] + s[1..];
      assert |multiset(SortByScore(s))| == |SortByScore(s)|;
    }
  }

  /** The whale trades of the same side among the last `lookbackCount` trades. */
  function PatternCandidates(tradeValue: real, isBuy: bool, recentTrades: seq<Trade>, lookbackCount: int): (r: seq<SimilarPattern>)
  {
    ScoreAll(SideWhales(Suffix(recentTrades, lookbackCount), isBuy), tradeValue)
  }

  /** Up to three earlier whale trades of the same side, most similar first. */
  function FindSimilarPatterns(tradeValue: real, isBuy: bool, recentTrades: seq<Trade>, lookbackCount: int): (r: seq<SimilarPattern>)
    ensures |r| == PySlice.Min(TopPatterns, |SideWhales(Suffix(recentTrades, lookbackCount), isBuy)|)
    ensures SortedByScore(r)
    ensures forall p :: p in r ==>
      exists t :: t in Suffix(recentTrades, lookbackCount) && IsWhaleTrade(t.value) && t.isBuy == isBuy
               && p == ToPattern(t, tradeValue)
    ensures tradeValue >= 0.0 ==> forall p :: p in r ==> 0.0 <= p.similarityScore <= 1.0
  {
    SimilarPatternsFacts(tradeValue, isBuy, Suffix(recentTrades, lookbackCount));
    TopOf(SortByScore(PatternCandidates(tradeValue, isBuy, recentTrades, lookbackCount)))
  }

  /** Python's `[:3]`. */
  function TopOf(sorted: seq<SimilarPattern>): seq<SimilarPattern>
  {
    if |sorted| <= TopPatterns then sorted else sorted[..TopPatterns]
  }

  /** A sorted list stays sorted when cut to a prefix, and that prefix dominates the rest. */
  lemma PrefixDominates(sorted: seq<SimilarPattern>, n: nat)
    requires SortedByScore(sorted) && n <= |sorted|
    ensures SortedByScore(sorted[..n])
    ensures forall p, k :: p in sorted[n..] && 0 <= k < n ==> p.similarityScore <= sorted[k].similarityScore
  {
    forall p, k | p in sorted[n..] && 0 <= k < n
      ensures p.similarityScore <= sorted[k].similarityScore
    {
      var m :| 0 <= m < |sorted| - n && sorted[n..][m] == p;
      assert sorted[n + m] == p;
    }
  }

  /** What sorting the scored same-side whales of `window` and keeping the first three
      guarantees. */
  lemma SimilarPatternsFacts(tradeValue: real, isBuy: bool, window: seq<Trade>)
    ensures var top := TopOf(SortByScore(ScoreAll(SideWhales(window, isBuy), tradeValue)));
      && |top| == PySlice.Min(TopPatterns, |SideWhales(window, isBuy)|)
      && SortedByScore(top)
      && (forall p :: p in top ==>
            exists t :: t in window && IsWhaleTrade(t.value) && t.isBuy == isBuy && p == ToPattern(t, tradeValue))
      && (tradeValue >= 0.0 ==> forall p :: p in top ==> 0.0 <= p.similarityScore <= 1.0)
  {
    var whales := SideWhales(window, isBuy);
    var candidates := ScoreAll(whales, tradeValue);
    var sorted := SortByScore(candidates);
    var top := TopOf(sorted);
    SortByScoreCorrect(candidates);
    PrefixDominates(sorted, |top|);
    assert top == sorted[..|top|];
    forall p | p in top
      ensures exists t :: t in window && IsWhaleTrade(t.value) && t.isBuy == isBuy && p == ToPattern(t, tradeValue)
      ensures tradeValue >= 0.0 ==> 0.0 <= p.similarityScore <= 1.0
    {
      assert p in sorted;
      assert p in multiset(sorted);
      assert p in candidates;
      var k :| 0 <= k < |candidates| && candidates[k] == p;
      var t := whales[k];
      assert t in whales;
      SimilarityScoreBounds(t.value, tradeValue);
    }
  }

  /** The first three of a sorted permutation of `all` dominate the rest of `all`. */
  lemma TopDominatesRest(sorted: seq<SimilarPattern>, all: seq<SimilarPattern>)
    requires SortedByScore(sorted) && multiset(sorted) == multiset(all)
    ensures multiset(TopOf(sorted)) <= multiset(all)
    ensures forall p: SimilarPattern, k: int :: p in multiset(all) - multiset(TopOf(sorted)) && 0 <= k < |TopOf(sorted)| ==>
              p.similarityScore <= TopOf(sorted)[k].similarityScore
  {
    var r := TopOf(sorted);
    var n := |r|;
    assert r == sorted[..n];
    PrefixDominates(sorted, n);
    assert sorted == r + sorted[n..];
    assert multiset(all) == multiset(r) + multiset(sorted[n..]);
    forall p: SimilarPattern, k: int | p in multiset(all) - multiset(r) && 0 <= k < n
      ensures p.similarityScore <= r[k].similarityScore
    {
      assert p in multiset(sorted[n..]);
      assert p in sorted[n..];
    }
  }

  /** The reported patterns are the best ones: every candidate left out scores no higher than
      any reported one. */
  lemma TopPatternsAreBest(tradeValue: real, isBuy: bool, recentTrades: seq<Trade>, lookbackCount: int)
    ensures var r := FindSimilarPatterns(tradeValue, isBuy, recentTrades, lookbackCount);
            var all := PatternCandidates(tradeValue, isBuy, recentTrades, lookbackCount);
            multiset(r) <= multiset(all) &&
            forall p: SimilarPattern, k: int :: p in multiset(all) - multiset(r) && 0 <= k < |r| ==>
              p.similarityScore <= r[k].similarityScore
  {
    var all := PatternCandidates(tradeValue, isBuy, recentTrades, lookbackCount);
    SortByScoreCorrect(all);
    TopDominatesRest(SortByScore(all), all);
  }

  // ---------------------------------------------------------------------------------------
  // Bull/bear power

  /** Whale buy/sell aggregates reported to clients. */
  datatype BullBear = BullBear(netBuyVolume: real, netSellVolume: real, bullPower: real, momentum: real)

  /** Sum of the values of the whale trades on side `isBuy`; other trades contribute nothing. */
  function WhaleVolume(trades: seq<Trade>, isBuy: bool): (r: real)
    ensures r >= 0.0
  {
    if trades == [] then 0.0
    else
      var t := trades[|trades| - 1];
      WhaleVolume(trades[..|trades| - 1], isBuy) + (if IsWhaleTrade(t.value) && t.isBuy == isBuy then t.value else 0.0)
  }

  /** Whale volume on a side is zero exactly when there is no whale trade on that side. */
  lemma WhaleVolumeZero(trades: seq<Trade>, isBuy: bool)
    ensures WhaleVolume(trades, isBuy) == 0.0 <==> SideWhales(trades, isBuy) == []
  {
    if SideWhales(trades, isBuy) == [] {
      WhaleVolumeWithoutWhales(trades, isBuy);
    } else {
      var w := SideWhales(trades, isBuy)[0];
      assert w in SideWhales(trades, isBuy);
      var i :| 0 <= i < |trades| && trades[i] == w;
      WhaleVolumeWithWhale(trades, isBuy, i);
    }
  }

  lemma {:induction false} WhaleVolumeWithoutWhales(trades: seq<Trade>, isBuy: bool)
    requires forall i :: 0 <= i < |trades| ==> !(IsWhaleTrade(trades[i].value) && trades[i].isBuy == isBuy)
    ensures WhaleVolume(trades, isBuy) == 0.0
  {
    if trades != [] {
      WhaleVolumeWithoutWhales(trades[..|trades| - 1], isBuy);
    }
  }

  lemma {:induction false} WhaleVolumeWithWhale(trades: seq<Trade>, isBuy: bool, i: int)
    requires 0 <= i < |trades| && IsWhaleTrade(trades[i].value) && trades[i].isBuy == isBuy
    ensures WhaleVolume(trades, isBuy) > 0.0
  {
    var init := trades[..|trades| - 1];
    if i < |trades| - 1 {
      assert init[i] == trades[i];
      WhaleVolumeWithWhale(init, isBuy, i);
    }
  }

  /** (buy - sell) / (buy + sell), or 0 when there is no volume at all. */
  function BullPower(buy: real, sell: real): real
  {
    var total := buy + sell;
    if total == 0.0 then 0.0 else (buy - sell) / total
  }

  /** Bull power runs from -1 (only sells) to 1 (only buys) and is positive when buys dominate. */
  lemma BullPowerRange(buy: real, sell: real)
    requires buy >= 0.0 && sell >= 0.0
    ensures -1.0 <= BullPower(buy, sell) <= 1.0
    ensures BullPower(buy, sell) == 1.0 <==> buy > 0.0 && sell == 0.0
    ensures BullPower(buy, sell) == -1.0 <==> sell > 0.0 && buy == 0.0
    ensures BullPower(buy, sell) > 0.0 <==> buy > sell
  {
    var total := buy + sell;
    if total > 0.0 {
      QuotientFacts(buy - sell, total);
      QuotientFacts(sell - buy, total);
      assert (sell - buy) / total == -BullPower(buy, sell);
    }
  }

  /** The aggregate reported for given whale buy and sell volumes. */
  function PowerOf(buy: real, sell: real): (r: BullBear)
    requires buy >= 0.0 && sell >= 0.0
    ensures r.netBuyVolume == buy && r.netSellVolume == sell
    ensures -1.0 <= r.bullPower <= 1.0
    ensures 0.0 <= r.momentum <= 1.0
    ensures buy + sell == 0.0 ==> r.bullPower == 0.0 && r.momentum == 0.0
    ensures r.bullPower == 1.0 <==> buy > 0.0 && sell == 0.0
    ensures r.bullPower == -1.0 <==> sell > 0.0 && buy == 0.0
    ensures r.bullPower > 0.0 <==> buy > sell
  {
    BullPowerRange(buy, sell);
    var bullPower := BullPower(buy, sell);
    var momentum := RMin(Abs(bullPower) * ((buy + sell) / MomentumVolume), 1.0);
    BullBear(buy, sell, bullPower, momentum)
  }

  /** The loop of the source: accumulate whale buy and sell volume, then derive the power. */
  method CalculateBullBearPower(trades: seq<Trade>) returns (r: BullBear)
    ensures trades == [] ==> r == BullBear(0.0, 0.0, 0.0, 0.0)
    ensures r.netBuyVolume == WhaleVolume(trades, true)
    ensures r.netSellVolume == WhaleVolume(trades, false)
    ensures r == PowerOf(WhaleVolume(trades, true), WhaleVolume(trades, false))
  {
    if trades == [] {
      return BullBear(0.0, 0.0, 0.0, 0.0);
    }
    var buyVolume := 0.0;
    var sellVolume := 0.0;
    var i := 0;
    while i < |trades|
      invariant 0 <= i <= |trades|
      invariant buyVolume == WhaleVolume(trades[..i], true)
      invariant sellVolume == WhaleVolume(trades[..i], false)
    {
      var t := trades[i];
      assert trades[..i + 1] == trades[..i] + [t];
      if IsWhaleTrade(t.value) {
        if t.isBuy {
          buyVolume := buyVolume + t.value;
        } else {
          sellVolume := sellVolume + t.value;
        }
      }
      i := i + 1;
    }
    assert trades[..i] == trades;
    r := PowerOf(buyVolume, sellVolume);
  }

  // ---------------------------------------------------------------------------------------
  // Hype versus reality

  datatype HypeVsReality = HypeVsReality(sentimentScore: real, whaleVolumeUsd: real, hypeRealityRatio: real)

  /** Sentiment divided by the whale volume in units of 10M, that unit floored at 0.1. */
  function AnalyzeHypeVsReality(sentimentScore: real, whaleVolume: real): (r: HypeVsReality)
    ensures r.sentimentScore == sentimentScore && r.whaleVolumeUsd == whaleVolume
    ensures r.hypeRealityRatio > 0.0 <==> sentimentScore > 0.0
    ensures r.hypeRealityRatio == 0.0 <==> sentimentScore == 0.0
    ensures Abs(r.hypeRealityRatio) <= 10.0 * Abs(sentimentScore)
    ensures whaleVolume <= 1_000_000.0 ==> r.hypeRealityRatio == 10.0 * sentimentScore
  {
    var unit := RMax(whaleVolume / MomentumVolume, 0.1);
    var ratio := sentimentScore / unit;
    assert Abs(ratio) == Abs(sentimentScore) / unit;
    assert Abs(sentimentScore) / unit <= Abs(sentimentScore) / 0.1;
    HypeVsReality(sentimentScore, whaleVolume, ratio)
  }

  // ---------------------------------------------------------------------------------------
  // History of detected whales

  /** A whale alert as broadcast and recorded by the engine. */
  datatype WhaleAlert = WhaleAlert(
    tradeId: int,
    timestampMs: int,
    price: real,
    quantity: real,
    tradeValue: real,
    isBuy: bool,
    whaleScore: real,
    bullBearSentiment: real,
    similarPatterns: seq<SimilarPattern>,
    alertLabel: Option<string>)

  class WhaleDetectionEngine {
    /** Most recent detected whales, oldest first. */
    var detectedWhales: seq<WhaleAlert>

    constructor ()
      ensures detectedWhales == []
    {
      detectedWhales := [];
    }

    /** Appends the alert and keeps only the last 1000. */
    method RecordWhaleTrade(alert: WhaleAlert)
      modifies this
      ensures |detectedWhales| <= MaxDetectedWhales
      ensures detectedWhales == Suffix(old(detectedWhales) + [alert], MaxDetectedWhales)
      ensures detectedWhales[|detectedWhales| - 1] == alert
      ensures |old(detectedWhales)| < MaxDetectedWhales ==> detectedWhales == old(detectedWhales) + [alert]
      ensures |old(detectedWhales)| == MaxDetectedWhales ==>
                detectedWhales == old(detectedWhales)[1..] + [alert]
    {
      detectedWhales := detectedWhales + [alert];
      if |detectedWhales| > MaxDetectedWhales {
        detectedWhales := detectedWhales[|detectedWhales| - MaxDetectedWhales..];
      }
    }

    /** The last `count` detected whales; `count == 0` gives all of them (Python's `[-0:]`). */
    method GetLatestWhales(count: int) returns (r: seq<WhaleAlert>)
      ensures |r| <= |detectedWhales|
      ensures count >= 1 ==> |r| == PySlice.Min(count, |detectedWhales|)
      ensures count == 0 ==> r == detectedWhales
      ensures r == detectedWhales[|detectedWhales| - |r|..]
    {
      r := Suffix(detectedWhales, count);
    }
  }
}
