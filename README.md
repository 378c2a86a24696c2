# Whale Watcher Pro backend core in Dafny

This project models the deterministic core of the Whale Watcher Pro API server, a service
that watches the BTC/USDT trade stream for "whale" trades. Three pieces are modelled:

- **The whale detection engine** (`WhaleDetection`). It classifies trades by notional value
  (whales start at 500 000 USD) and gives each whale a magnitude score. It ranks the most
  similar earlier whales on the same side and aggregates whale buy/sell volume into a
  bull/bear power and a momentum. It also keeps a bounded history of the last 1000 whale
  alerts, with a "latest n" query.
- **The market-metric helpers of the server** (`Metrics`, `ChartData`). These are clamping,
  trade parsing, the 10-second price change, the whale activity score and the
  hype-versus-reality verdict. They also include the candle chart: trades are bucketed into
  OHLC candles, institutional volume is added, and gaps are filled with flat candles.
- **The alert cooldown** (`Alerts`). A trade id may raise an alert at most once per 5-second
  period.

Shared pieces are `Trades` (the parsed trade record and the time-window filter), `PySlice`
(Python's `s[-n:]`, including `n == 0`) and `Wrappers` (`Option`).

The server's global state becomes parameters: the recent-trade buffer, the institutional
events and the clock. Trade and event times are integer epoch milliseconds. The chart's
current time is in whole epoch seconds, because the server drops microseconds. Prices,
quantities and values are exact reals. The base-50 logarithm of the activity score is a
function parameter `log50`.

The imperative parts keep their form, and each is proved against a functional
specification:
- `CalculateBullBearPower` uses an accumulator loop.
- `WhaleDetectionEngine` is a class whose history field is appended to and truncated.
- `CollectInstitutionalVolume` and `CollectBuckets` are loops that update maps.
- `Walk` is the loop that emits candles.
- `AlertManager` is a class whose cooldown map is updated in place.

The whale test is inclusive (`>= 500 000`), although the class docstring says "> $500,000".
The model follows the code.

## Model

| member | source | states |
|---|---|---|
| WhaleDetection.IsWhaleTrade | backend/services/whale_detection.py:19-27 | a trade is a whale exactly when its value is at least 500 000 (inclusive); a whale value is positive |
| WhaleDetection.WhaleScore | backend/services/whale_detection.py:29-39 | 0 for a non-whale; between 0.1 and 1 for a whale; exactly 1 from 5 000 000 on |
| WhaleDetection.WhaleScoreMonotone | backend/services/whale_detection.py:37-39 | a larger trade value never gets a smaller score |
| WhaleDetection.SimilarityScoreBounds | backend/services/whale_detection.py:69 | for a positive candidate value the similarity is at most 1; it is 1 exactly when the values are equal; it is non-negative when the query value is |
| WhaleDetection.SideWhales | backend/services/whale_detection.py:56-59 | keeps exactly the input trades that are whales on the requested side |
| WhaleDetection.ScoreAll | backend/services/whale_detection.py:62-72 | one scored entry per candidate, in candidate order, carrying its id, time, price, value, side and similarity |
| WhaleDetection.InsertByScorePermutes | backend/services/whale_detection.py:75-78 | one insertion step adds exactly the inserted entry to the multiset |
| WhaleDetection.InsertByScoreSorted | backend/services/whale_detection.py:75-78 | inserting into a list sorted by descending similarity keeps it sorted |
| WhaleDetection.SortByScoreCorrect | backend/services/whale_detection.py:75-78 | the descending sort by similarity is a permutation of its input and is ordered |
| WhaleDetection.PrefixDominates | backend/services/whale_detection.py:79 | a prefix of a sorted list is sorted, and every later entry scores no higher than any entry of the prefix |
| WhaleDetection.SimilarPatternsFacts | backend/services/whale_detection.py:56-79 | the top three of the sorted scored same-side whales: as many as min(3, candidates), sorted, each built from a same-side whale of the window, scores in [0, 1] for a non-negative query |
| WhaleDetection.FindSimilarPatterns | backend/services/whale_detection.py:41-84 | returns min(3, number of same-side whales among the last lookback trades) entries, sorted by descending similarity. Each is a same-side whale from that window; scores lie in [0, 1] for a non-negative query value |
| WhaleDetection.TopDominatesRest | backend/services/whale_detection.py:75-79 | the first three of a sorted permutation are drawn from the input and no remaining entry scores higher than any of them |
| WhaleDetection.TopPatternsAreBest | backend/services/whale_detection.py:75-79 | the reported patterns are a sub-multiset of the candidates, and no candidate left out scores higher than any reported one |
| WhaleDetection.WhaleVolume | backend/services/whale_detection.py:104-112 | the whale volume of a side is never negative |
| WhaleDetection.WhaleVolumeZero | backend/services/whale_detection.py:107-112 | a side's whale volume is zero exactly when that side has no whale trade |
| WhaleDetection.WhaleVolumeWithWhale | backend/services/whale_detection.py:107-112 | one whale trade on a side makes that side's volume positive |
| WhaleDetection.BullPowerRange | backend/services/whale_detection.py:114-120 | for non-negative volumes the power is in [-1, 1]. It is 1 exactly when only buys have volume, and -1 exactly when only sells do; it is positive exactly when buys exceed sells |
| WhaleDetection.PowerOf | backend/services/whale_detection.py:114-130 | reports both volumes; power in [-1, 1]; momentum in [0, 1]; both 0 without whale volume |
| WhaleDetection.CalculateBullBearPower | backend/services/whale_detection.py:86-139 | all zeros for no trades. Otherwise the buy and sell volumes are the sums of whale values on each side (non-whales contribute nothing), and power and momentum follow from them |
| WhaleDetection.AnalyzeHypeVsReality | backend/services/whale_detection.py:141-158 | echoes its inputs. The ratio has the sign of the sentiment and is zero exactly when the sentiment is; its size is at most 10 times the sentiment's, and exactly 10 times when whale volume is at most 1M |
| WhaleDetection.WhaleDetectionEngine.constructor | backend/services/whale_detection.py:21-23 | a new engine has no detected whales |
| WhaleDetection.WhaleDetectionEngine.RecordWhaleTrade | backend/services/whale_detection.py:160-166 | the history becomes the last 1000 of old history plus the new alert, so it never exceeds 1000. The alert is last and order is kept; below 1000 it is a plain append, and at 1000 the oldest entry drops |
| WhaleDetection.WhaleDetectionEngine.GetLatestWhales | backend/services/whale_detection.py:168-170 | returns a suffix of the history: min(count, length) entries for count >= 1, and the whole history for count 0 |
| PySlice.Suffix | backend/services/whale_detection.py:170 | Python `s[-n:]`: the whole list for n = 0; the last min(n, length) entries for n > 0; always a suffix |
| Trades.TradesSince | backend/main.py:263 | keeps exactly the trades at or after the cutoff |
| Metrics.Clamp | backend/main.py:68-69 | never below low. Within [low, high] when low <= high; the value itself when already inside; low below the range, high above it |
| Metrics.ParseTrade | backend/main.py:72-88 | passes id, time, price and quantity through. The value is price times quantity; the trade is a buy exactly when the buyer-is-maker flag is not set (a missing flag counts as false) |
| Metrics.ParsedValue | backend/main.py:73-75 | with non-negative price and quantity the value is non-negative and is a whale exactly when price times quantity reaches 500 000 |
| Metrics.PriceChange10s | backend/main.py:259-270 | None exactly when fewer than two trades fall in the last 10 s or the first of them has a non-positive price. Otherwise the percent change from the first to the last of them |
| Metrics.PriceChangeSign | backend/main.py:266-270 | the change is positive exactly when the last price is higher and zero exactly when equal; with non-negative prices it is at least -100 |
| Metrics.PriceChangeIgnoresOldTrades | backend/main.py:262-263 | prepending trades older than the 10-second window does not change the result |
| Metrics.TradesSinceSkipsOld | backend/main.py:263 | prepending trades older than the cutoff does not change the filtered window |
| Metrics.SumWhaleValues | backend/main.py:303-307 | the whale value of a window is never negative |
| Metrics.WhaleValuesWithinTotal | backend/main.py:303-308 | with non-negative values the whale value never exceeds the total value |
| Metrics.WhaleActivityScore | backend/main.py:297-316 | the second component is the window's whale value. The score lies in [0, 100] for every input; it is 0 when the window total is not positive and at most 60 without whale value |
| Metrics.InterpretHypeReality | backend/main.py:319-324 | the whale message exactly when whale leads by more than 10; the hype message exactly when social leads by more than 10; the balance message exactly otherwise |
| ChartData.ClampInterval | backend/main.py:178 | the interval lies in [5, 300]; it is unchanged inside, 5 below and 300 above |
| ChartData.BucketCount | backend/main.py:180 | at least one bucket; when the window spans at least one interval, the count is the number of whole intervals in it |
| ChartData.BucketKeyFloors | backend/main.py:195-196 | a trade's bucket key is a multiple of the interval, and the trade time falls inside that bucket |
| ChartData.BucketTradesMembers | backend/main.py:191-196 | a bucket's trades are exactly the input trades not before the window start whose floored key is that bucket |
| ChartData.AggregateSummary | backend/main.py:199-215 | a bucket opens at its first price and closes at its last. Its high and low are prices it saw, and bound every price; volume and whale volume are the quantity sums |
| ChartData.CollectInstitutionalVolume | backend/main.py:184-189 | for every key, the looked-up institutional volume (0 when absent) is the sum of the event volumes floored to that key |
| ChartData.BucketStepAt | backend/main.py:191-217 | one loop iteration keeps a key present exactly when its bucket has trades, holding that bucket's aggregate |
| ChartData.BucketsMatchStep | backend/main.py:191-217 | one loop iteration preserves "the map holds exactly the populated buckets, each aggregated" |
| ChartData.CollectBuckets | backend/main.py:191-217 | the map holds exactly the populated buckets of the window, each the aggregate of its trades in input order |
| ChartData.WalkStepMatches | backend/main.py:223-242 | one walk step over the collected maps emits what the chart specification emits at that step |
| ChartData.WalkPrefixStep | backend/main.py:222-242 | one walk step extends a correct prefix of the chart to a longer correct prefix |
| ChartData.Walk | backend/main.py:219-242 | the emitted candles are exactly the chart specification's candles |
| ChartData.BuildChartData | backend/main.py:174-244 | empty without trades; otherwise the chart of the clamped interval, bucket count and window start |
| ChartData.EmitLength | backend/main.py:222-242 | at most one candle per step, and one at every step once a close is known |
| ChartData.EmitSkipsEmpty | backend/main.py:226-233 | every step before the first emitted candle finds an empty bucket |
| ChartData.EmitStamps | backend/main.py:222-235 | emitted candles carry consecutive bucket times that end at the last step |
| ChartData.EmitCandles | backend/main.py:226-242 | each candle is its bucket's aggregate when the bucket has trades. Otherwise it is a flat candle at the previous close, so a gap never comes first |
| ChartData.ChartShape | backend/main.py:174-244 | at most bucket-count candles, at the last bucket times of the window, after a run of empty buckets. Each is populated or a flat gap after an earlier candle |
| ChartData.ChartAscending | backend/main.py:222-235 | chart timestamps strictly ascend |
| ChartData.ChartCandlesWellFormed | backend/main.py:199-240 | every candle has low <= open <= high and low <= close <= high |
| ChartData.PopulatedCandleFacts | backend/main.py:199-228 | a populated candle opens at its bucket's first price and closes at its last, and carries the quantity sum. Its whale volume is the whale quantity plus that key's institutional volume, and its range bounds every trade price |
| ChartData.StepRemainder | backend/main.py:181 | every bucket time looked up by the walk has the current time's remainder modulo the interval |
| ChartData.PopulatedKeyAligned | backend/main.py:195-196 | a bucket holding trades sits at a multiple of the interval |
| ChartData.ChartEmptyUnlessAligned | backend/main.py:223-224 | when the current time is not a multiple of the interval, the chart is empty |
| ChartData.AlignedStep | backend/main.py:179-181 | with the current time floored to the grid, any time in the window's span lies in one of the walk's steps |
| ChartData.HitIsCharted | backend/main.py:226-232 | a step whose bucket holds trades puts that bucket's candle in the chart |
| ChartData.TradeIsCharted | backend/main.py:191-232 | a window trade whose bucket is one of the walk's steps makes that bucket's candle appear |
| ChartData.AlignedChartShowsEveryBucket | backend/main.py:179-181 | with the window aligned to the grid, every trade in the window's span shows up as its bucket's candle |
| Alerts.CooldownCheck | backend/services/alerts.py:53-64 | allowed exactly when the id has no entry or one period has passed. An allowed check records now for the id; a refused one leaves the map unchanged; other ids are untouched and keys only grow |
| Alerts.CooldownWindow | backend/services/alerts.py:59-64 | after an allowed check at t, the same id is allowed again exactly from t plus one period |
| Alerts.Replay | backend/services/alerts.py:53-64 | a run of checks yields one outcome per check, and the cooldown map ends up holding exactly the trade ids that were checked (none is ever evicted) |
| Alerts.ReplayRemembers | backend/services/alerts.py:59-64 | every allowed check of a run stays recorded at its own time or later |
| Alerts.ReplayPrefix | backend/services/alerts.py:53-64 | the outcomes of a run's prefix are the run's first outcomes |
| Alerts.AllowedAt | backend/services/alerts.py:59-64 | a call's outcome in a run is the cooldown check against the map left by the calls before it |
| Alerts.AlertsSpaced | backend/services/alerts.py:59-64 | two allowed checks of the same id in one run are at least one period apart |
| Alerts.AlertManager.constructor | backend/services/alerts.py:22-25 | a new manager has an empty cooldown map and a 5-second period |
| Alerts.AlertManager.CheckAlertCooldown | backend/services/alerts.py:53-64 | the result and the new map are those of the cooldown decision on the old map |

## Left out

- `AlertManager.send_alerts` and the `external_services` field: these fan out concurrently to Discord and Telegram over the network.
- The server's network, websocket and background streaming code: `broadcast`, the ticker cache, the kline fetch, the REST and websocket handlers and the stream loops.
- `InstitutionalExecutionDetector` is not part of this model. Its events enter the chart as the `events` parameter, with a time and a volume each.
- Clock reads (`datetime.utcnow()`, `time.time()`) are parameters (`nowMs`, `nowSec`, `now`).
- The ISO-8601 timestamp strings of candles and patterns are left out. Candles carry epoch seconds and patterns carry epoch milliseconds.
- `datetime.utcfromtimestamp` and the naive-datetime `.timestamp()` round trip are left out. The model assumes the server runs in UTC, where both are plain epoch arithmetic.
- Metrics.ParseTrade: price and quantity arrive as numbers. The parsing of their decimal strings by `float(...)` is left out.
- Metrics.ParseTrade: an `is_buyer_maker` key present with value `None` is treated like a missing key. It gives a buy, and the stored flag is `false` rather than `None`.
- Metrics.WhaleActivityScore: `math.log(x, 50)` is the parameter `log50`. The clamp to [0, 1] bounds it whatever it returns.
- WhaleDetection.PowerOf: `round(x, 4)` on power and momentum is not modelled. The bounds are stated on the exact values.
- Floating point in general is left out. Prices, quantities and values are exact reals, with no rounding and no overflow.
- The `except` fallbacks of `find_similar_patterns` and `calculate_bull_bear_power` are left out. With typed trade records nothing in the `try` blocks can raise: whale values are positive, so the similarity divisor is never zero.
- The `historical_patterns` field of the engine is left out, because no operation uses it.
- The `whales_only` keyword that the server passes to `calculate_bull_bear_power` is left out. The engine's signature takes no such argument, and the model follows the signature.
- WhaleDetection.FindSimilarPatterns: the sort is modelled as stable, so equal scores keep their input order. No lemma states that stability.
- ChartData.BuildChartData: the source adds the institutional volume to the stored bucket object in place. The model adds it to the emitted candle instead. Each bucket time is visited once, so the result is the same.
- The default arguments (`lookback_count = 50`, `count = 20`, `window_minutes = 10`, `interval_seconds = 60`) are left out. Every model operation takes these values explicitly.

## Findings

| source | as written | input that shows it | evidently intended | confidence | as-written member | corrected member |
|---|---|---|---|---|---|---|
| backend/main.py:179-181 | the window start is the current time minus whole intervals, so the walk looks buckets up at times with the current time's remainder, while buckets are stored at multiples of the interval | one trade at 60 000 ms, minutes = 2, interval_seconds = 60, now = 61 s: the trade is stored under 60 s but the walk looks at 1 s and 61 s, so the chart is empty | start the window from the current time floored to the interval, so every populated bucket of the window is found | medium: the chart endpoint falls back to exchange klines when the chart is empty, which hides the effect; not executed | ChartData.ChartEmptyUnlessAligned | ChartData.AlignedChartShowsEveryBucket |

`BuildChartData` keeps the code's behaviour. `AlignedChart` is the chart with the current time
floored to the interval first, and `AlignedChartShowsEveryBucket` proves that it shows the
candle of every trade in the window.
