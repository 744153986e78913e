# Coin Dashboard signal engine and coin list, in Dafny

This project models the two pure cores of the Coin Dashboard client.

1. **The signal engine of `script.js`.**
   - `ema` is the exponential moving average.
   - `computeSignalFromCloses` turns hourly closes into an UP/DOWN/NEUTRAL signal. It uses log returns, 12/26 EMA momentum, the mean of the last 6 returns, and the annualized population volatility of the last 24 returns.
   - `runModels` blends each signal 0.4/0.6 with an optional server prediction. It then builds a weighted BTC/XRP/GALA aggregate and the BULL/BEAR/NEUTRAL traffic light from it.
   - `updateVolChart` builds the rolling realized-volatility and EWMA series.
2. **The coin list of `assets/coin-manager.js`.** This covers `loadCoins`, `addCoin` and `removeCoin` over an abstract storage slot.

JavaScript numbers are modelled as `real`. `Math.log` and `Math.sqrt` are function-valued parameters `ln` and `sqrt`:
- Nothing is assumed about `ln`. The one exception is the flat-series lemma, which assumes `ln(1) = 0`.
- `sqrt` is assumed to satisfy `Numerics.IsSqrt`: on non-negative arguments it is non-negative and squares back to its argument.

Failed or absent fetches are `Option` inputs. Explanation strings are kept as the values they embed (`Signal.Explain`), not as text.

Modules, one per component:
- `Numerics` holds sums, means, population variance, `slice(-n)` and square-root facts.
- `Smoothing` holds `ema`.
- `Signal` holds `computeSignalFromCloses`.
- `Volatility` holds the chart series.
- `Dashboard` holds the blend, the aggregation and one `runModels` cycle.
- `CoinManager` holds the coin list.
- `Wrappers` holds `Option`.

Points where the code's behaviour is easy to misread; the model follows the code:
- **Variance.** Both volatility estimates in `script.js` divide the sum of squared deviations by n, the window length, so they are population variances (`Numerics.TwoPointVariance`).
- **Momentum.** `script.js` divides by the last 26-period EMA as it is. The model requires positive closes and proves that divisor positive (`Smoothing.EmaPositive`).
- **Aggregation.** The aggregate reads the local, pre-blend scores. Server predictions change the panels but never the traffic light (`Dashboard.TrafficIgnoresServer`).
- **Rolling windows.** The chart's rolling windows stop one return short: the most recent return never enters any window (`Volatility.RollingVolOmitsLatestReturn`). The signal's window does include it.
- **Volatility scale.** The signal uses its volatility unscaled, although the explanation prints it with a `%` sign. The chart multiplies by 100.

## Model

| member | source | states |
|---|---|---|
| Smoothing.SmoothingFactor | script.js:17 | for a period of at least 1 the factor lies in (0, 1], and it is exactly 1 iff the period is 1 |
| Smoothing.Ema | script.js:16-25 | the EMA of a non-empty series has the same length, and its first value is the first input |
| Smoothing.EmaLoop | script.js:16-26 | the push-as-you-go JavaScript loop yields exactly the reference EMA sequence |
| Smoothing.EmaRecurrence | script.js:21-23 | every output after the first is the new input times k plus the previous output times (1 - k) |
| Smoothing.EmaPrefix | script.js:19-24 | the EMA of a prefix is the prefix of the EMA: an output never depends on later inputs |
| Smoothing.EmaPeriodOneIsIdentity | script.js:17-23 | with period 1 the EMA returns its input unchanged |
| Smoothing.EmaWithin | script.js:17-23 | for a period of at least 1, every output stays inside any interval that contains all the inputs |
| Smoothing.EmaWithinInputsSoFar | script.js:17-23 | output i lies inside every interval that contains inputs 0..i, whatever the later inputs are |
| Smoothing.EmaPositive | script.js:33-34 | all closes positive implies every EMA value positive, so the momentum divisor is non-zero |
| Numerics.SumSquaredDeviations | script.js:38 | the sum of squared deviations is never negative |
| Numerics.PopulationVariance | script.js:37-38 | the windowed variance is non-negative |
| Numerics.TwoPointVariance | script.js:38 | the variance divides by n: two points a, b give ((a - b)/2)^2 |
| Numerics.ConstantHasZeroVariance | script.js:37-38 | a constant window has itself as mean and zero variance |
| Numerics.MeanBounded | script.js:35 | the mean of values inside [lo, hi] is inside [lo, hi] |
| Numerics.LastN | script.js:35-36 | `slice(-n)` gives the last min(n, length) elements, as a suffix |
| Signal.Classify | script.js:41 | UP iff score > 0.6, DOWN iff score < -0.6, NEUTRAL iff -0.6 <= score <= 0.6, so exactly +-0.6 is NEUTRAL |
| Signal.ClassifyMonotone | script.js:41 | a higher score never gives a lower direction (DOWN < NEUTRAL < UP) |
| Signal.LogReturns | script.js:31-32 | there is one return fewer than closes, and return i is the log of close i+1 over close i |
| Signal.Momentum | script.js:33-34 | momentum is positive, negative or zero exactly when the last EMA12 is above, below or equal to the last EMA26 |
| Signal.RealizedVolAnnual | script.js:36-39 | the annualized realized volatility is non-negative and squares to the window's population variance times 8760, i.e. it is the standard deviation scaled by sqrt(8760) |
| Signal.ScoreMonotone | script.js:40-41 | the score rises with momentum and mean return, falls with volatility, and so does the direction |
| Signal.ComputeSignal | script.js:29-43 | no closes or fewer than 60 gives exactly {NEUTRAL, 0, insufficient data}, and only then is the explanation "insufficient data"; otherwise the volatility is non-negative and squares to the population variance of the last 24 log returns times 8760, the score is 1.2 * momentum + 100 * (mean of the last 6 log returns) - 0.02 * volatility, the explanation carries both, and the state is always the classification of the score |
| Signal.FlatReturnsVanish | script.js:31-32 | equal positive closes give only zero log returns when ln(1) = 0 |
| Signal.FlatMomentumVanishes | script.js:33-34 | equal positive closes keep both EMAs at the close, so momentum is exactly 0 |
| Signal.FlatSeriesIsNeutral | script.js:29-42 | a flat series of at least 60 positive closes yields score 0, volatility 0 and NEUTRAL, given ln(1) = 0 |
| Volatility.WindowStd | script.js:75 | `std` is non-negative and squares to the population variance of its window |
| Volatility.RollingVol | script.js:76-77 | the rolling list has max(0, |returns| - 24) non-negative entries; entry j is the annualized percent volatility of returns j..j+23 |
| Volatility.RollingVolOmitsLatestReturn | script.js:77 | replacing the most recent return leaves the rolling list unchanged: no window reaches it |
| Volatility.EwmaSeries | script.js:78-79 | the forecast recursion keeps the length and starts at the first realized value |
| Volatility.Ewma | script.js:78 | an empty realized list gives exactly [0]; otherwise one forecast per realized value, seeded with the first |
| Volatility.EwmaLoop | script.js:78-79 | the JavaScript loop yields exactly the reference forecast list |
| Volatility.EwmaRecurrence | script.js:79 | each later forecast is sqrt(0.94 * previous^2 + 0.06 * realized^2) |
| Volatility.EwmaNonNegative | script.js:78-79 | non-negative realized values give non-negative forecasts |
| Volatility.EwmaStepBetween | script.js:79 | one EWMA step lands between the previous forecast and the new realized value |
| Volatility.EwmaBetween | script.js:78-79 | every forecast lies between the previous forecast and the current realized value |
| Volatility.VolChart | script.js:71-79 | fewer than 50 closes (or none) produce no chart data; otherwise there are (number of closes - 25) realized values, value j being the population std of log returns j..j+23 of the closes times sqrt(8760) times 100, and the forecasts are exactly the EWMA of those values (as many, the first equal to the first realized value, so the 0 seed is unreachable here); both series are non-negative |
| Dashboard.CombinedScoreBetween | script.js:114 | the 0.4/0.6 blend lies between the local and the server score |
| Dashboard.Blend | script.js:112-119 | without a truthy server prediction the panel shows the local state and explanation unchanged; with one it shows the classification of 0.4 * local + 0.6 * server and both scores |
| Dashboard.BlendAgreement | script.js:114-115 | when the local and the server score classify alike, the blend shows that direction |
| Dashboard.BlendWithoutLocalEvidence | script.js:112-118 | a NEUTRAL local result with score 0, blended with any server score in [-1, 1], stays NEUTRAL (0.6 * 1 is not above 0.6) |
| Dashboard.Aggregate | script.js:144 | when every score is zero the denominator falls back to 1 and the aggregate is 0 |
| Dashboard.ZeroScoreIsExcluded | script.js:144 | a zero score adds to neither the numerator nor the weight denominator: dropping that symbol leaves the aggregate unchanged |
| Dashboard.AggregateBounded | script.js:144 | with positive weights and every score inside [-b, b], the aggregate is inside [-b, b] too (a weighted mean of the non-zero scores) |
| Dashboard.TrafficOf | script.js:145-147 | BULL iff aggregate > 0.5, BEAR iff aggregate < -0.5, NEUTRAL otherwise |
| Dashboard.MarketExample | script.js:144-147 | scores 1, -1, 0 at weights 1.5, 1.0, 0.8 aggregate to 0.2, which is NEUTRAL |
| Dashboard.RunModels | script.js:104-154 | each panel shows the blend of its local signal; the aggregate is the 1.5/1.0/0.8-weighted aggregate of the local, pre-blend BTC/XRP/GALA scores; the traffic light classifies that aggregate; the chart data comes from the BTC closes |
| Dashboard.TrafficIgnoresServer | script.js:109-147 | the aggregate and the traffic light do not depend on the server predictions (they use pre-blend scores) |
| Dashboard.MissingSymbolIsExcluded | script.js:132-144 | when GALA has no closes its score is 0 and it drops out: the aggregate equals the BTC/XRP aggregate with weights 1.5 and 1.0 |
| Dashboard.NoDataIsNeutral | script.js:104-147 | with no closes and no server opinion every panel is NEUTRAL, the aggregate is 0, the light NEUTRAL and no chart data exists |
| CoinManager.LeadingBlanks | assets/coin-manager.js:57 | counts the white space `trim` drops at the start: every counted character is white space and the next one, if any, is not |
| CoinManager.TrailingBlanks | assets/coin-manager.js:57 | counts the white space `trim` drops at the end: every counted character is white space and the one before them, if any, is not |
| CoinManager.Trim | assets/coin-manager.js:57 | the trimmed symbol is the slice of the input that starts right after its leading white space and is followed by white space only; it is empty iff the input is all white space, and otherwise starts and ends with non-white-space |
| CoinManager.TrimIdempotent | assets/coin-manager.js:59 | trimming twice is trimming once |
| CoinManager.UpperChar | assets/coin-manager.js:59 | a lower-case ASCII letter becomes the matching upper-case letter; every other character is left unchanged, so white space stays white space |
| CoinManager.ToUpper | assets/coin-manager.js:59 | upper-casing keeps the length and maps each character on its own, as `UpperChar` does |
| CoinManager.NormalizeIdempotent | assets/coin-manager.js:59 | trimming and upper-casing a stored symbol again gives it back unchanged |
| CoinManager.SaveCoins | assets/coin-manager.js:27-32 | after saving, the storage slot holds the array itself, element for element |
| CoinManager.LoadCoins | assets/coin-manager.js:11-25 | a stored array is returned as it is; an empty slot or a non-array yields the defaults; only an empty slot is written to, and then with the defaults returned |
| CoinManager.LoadCoinsIdempotent | assets/coin-manager.js:11-25 | loading again returns the same list and writes nothing |
| CoinManager.SaveThenLoad | assets/coin-manager.js:11-31 | loading what `saveCoins` stored returns exactly the saved list and writes nothing more |
| CoinManager.AddCoin | assets/coin-manager.js:56-68 | a missing or blank symbol changes nothing; otherwise the trimmed, upper-cased symbol is in the list afterwards, appended when new and with the list unchanged when already present |
| CoinManager.AddCoinAppends | assets/coin-manager.js:60-65 | adding grows the list by at most one and keeps all earlier entries in place |
| CoinManager.AddCoinKeepsDistinct | assets/coin-manager.js:60-65 | a duplicate-free list stays duplicate-free |
| CoinManager.AddCoinIdempotent | assets/coin-manager.js:56-65 | adding the same symbol twice is adding it once |
| CoinManager.RemoveCoin | assets/coin-manager.js:70-77 | an index below 0 or at least the length leaves the list unchanged; an index inside deletes exactly that entry, so the length drops by one and the others keep their order |
| CoinManager.RemoveCoinIsDeletion | assets/coin-manager.js:73 | removal takes exactly one occurrence of the indexed entry out of the multiset of symbols |
| CoinManager.RemoveCoinRemovesSymbol | assets/coin-manager.js:72-74 | in a duplicate-free list the removed symbol is gone and the list stays duplicate-free |
| CoinManager.RemoveUndoesAdd | assets/coin-manager.js:56-77 | removing the entry that `addCoin` just appended restores the list |
| CoinManager.DefaultsAreCanonical | assets/coin-manager.js:9 | the default symbols are distinct and already trimmed and upper-case |

## Left out

- `fetchCloses` and `serverPredict` are network I/O. Their results are `Option` inputs, where `None` means the fetch failed or no server is configured.
- `setSignal`, `drawStablecoinChart`, the Chart.js part of `updateVolChart`, the download handler, event listeners and the `setInterval` refresh are rendering and scheduling. They are not modelled.
- `updateVolChart` declares `const window=24`, which shadows the global `window`. As a result, `window.volChart` reads and writes a property of the number 24, so the old chart is never destroyed. This is rendering only and is not modelled.
- The `toFixed` formatting of explanation strings is not modelled. An explanation is kept as the numbers it embeds.
- NaN, Infinity and rounding of doubles are not modelled. In particular, `score || 0` is modelled as the score itself, which differs only for NaN.
- `Math.log` is left uninterpreted. The "monotone series classifies UP" end-to-end claim depends on transcendental numerics and is not stated.
- Smoothing.Ema: requires a non-empty input. JavaScript returns `[undefined]` for an empty array, which has no `real` counterpart. The only caller passes at least 60 closes.
- Signal.ComputeSignal: requires positive closes once at least 60 are given. JavaScript would divide by zero or take the log of a non-positive number and carry on with Infinity or NaN.
- Volatility.VolChart: requires positive closes once at least 50 are given, for the same reason.
- Dashboard.RunModels: requires positive closes for the symbols that reach the computation, for the same reason.
- `server_example/main.py` is not part of this model. It is a web service with library numerics and a trained classifier. Only the `[-1, 1]` range of its score is used, as a hypothesis of `Dashboard.BlendWithoutLocalEvidence`.
- `assets/ai_model.js` is not part of this model. It shows a random number on a timer.
- In `assets/coin-manager.js`, browser storage is the value `CoinManager.Stored`, and `saveCoins` is `CoinManager.SaveCoins`, which stores the array itself. `JSON.parse`/`JSON.stringify` are taken to round-trip string arrays, and an array holding non-strings is not distinguished. `setItem` is taken never to throw. The `coinsUpdated` event, `renderCoinTable` and the status messages are left out.
- CoinManager.ToUpper: upper-cases ASCII letters only. JavaScript's `toUpperCase` also maps other scripts, and can change the length, as with `ß` becoming `SS`. `trim` is modelled with JavaScript's full white-space and line-terminator set.
- CoinManager.RemoveCoin: takes an integer index. A non-numeric `data-idx` would reach `removeCoin` as NaN. NaN passes both range tests, and `splice(NaN, 1)` would then delete the first entry.
