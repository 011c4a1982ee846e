# A verified model of the trading bot's core

This project models the logic of `tqt`, a bot that runs tactical asset-allocation strategies on Korean and US
ETFs: the daily backtester and its walk-forward check, the rate limiter, the order protocol against the Toss
API, the local candle cache, the trading cycle with its risk layer, the paper and the live ledger, the
strategies' target weights, tick rounding and the drawdown figures. Each part is a Dafny model of the source's
own branches and constants, and the theorems are about whole runs or about every input.

Check everything with `dafny verify dfyconfig.toml`.

## How the model is built

- Code that changes state is a method with a loop or a class whose methods update its fields. Each is proved
  equal to a specification function on values, and the theorems are lemmas about those functions. Pure code is
  functions and lemmas.
- `Decimal` and `float` are exact `real`. A missing or NaN price is an absent key of a price map. A Python
  dictionary that is iterated keeps its insertion order (`OrderedDict`).
- Clocks, quotes, the network, the exchange calendar and the strategies' momentum scores are parameters, so a
  theorem holds for every behaviour of them. Hypotheses are stated where they are used: rates that are not
  negative, slippage below 1, prices that are not negative, a deterministic strategy, a clock that does not run
  backwards, a server that treats `clientOrderId` as an idempotency key and pages its history honestly, a sleeve
  that lists no symbol twice.

| files | what they model |
|---|---|
| `Wrappers`, `OrderedDict`, `Sorting` | option and result types, facts about reals, ordered dictionaries, the stable sort |
| `Costs`, `Engine`, `RebalanceLaws`, `RebalanceTheorems`, `TrackingTheorems`, `FillTheorems`, `SolvencyTheorems` | transaction costs and one rebalance |
| `Calendar`, `Backtest`, `BacktestTheorems`, `MarkTheorems` | period ends, the bar-by-bar run and what it records |
| `WalkForward`, `WalkForwardTheorems`, `WalkForwardExample` | windows, stitching and the comparison with one full run |
| `RateLimit` | the token buckets |
| `TossErrors`, `OrderProtocol`, `OrderTheorems` | error classes, the retry loop, the token cache, the server |
| `Live`, `LiveTheorems`, `SubmitTheorems` | the live broker as the caller of that protocol, its ledger and reconciliation |
| `CandleSync`, `CandleTheorems` | paging, upsert and incremental sync |
| `Broker`, `Paper`, `PaperTheorems`, `CurrencyTheorems` | snapshots, the paper ledger and the money they are counted in |
| `Risk`, `RiskTheorems` | kill switch, daily gates and the trading cycle |
| `Intents`, `IntentTheorems`, `LimitTheorems` | from target weights to orders, and the per-order gate |
| `Weights`, `Strategies`, `Portfolio` | target weights of the strategies and of the blended plan |
| `Tick`, `Drawdown` | tick rounding and drawdown figures |

## What turned out false, and when it holds

- *A backtest never borrows.* False for sales: the FINRA fee is charged per share, so liquidating a very cheap
  holding can cost more than it brings in, and cash goes negative under the shipped rates
  (`BacktestTheorems.UncoveredSaleBorrows`). No sale of a symbol at a price loses money if and only if the net
  price covers the per-share fee or the smallest sale above the dust threshold covers the fee's cap
  (`RebalanceLaws.SaleNeverLosesIff`). For a rebalance band of at most 100%, rebalancing at given prices takes no
  book into debt if and only if that holds for every tradable symbol (`SolvencyTheorems.NeverBorrowsIff`); where it
  holds at every open, every run is solvent. The paper broker has no dust threshold, so there the first half of the
  condition is the whole of it.
- *The out-of-sample curve compounds the in-sample returns after the first cut.* Each window drops its first bar's
  return, because `pct_change` has no predecessor for it. What is stitched is exactly the in-sample change between
  neighbouring bars of the same scored window (`WalkForwardTheorems.OutOfSampleIsInSample`), so it compounds to the
  in-sample growth if and only if the growth that no window carries multiplies to 1 (`CurveIsInSampleIff`). With a
  price that doubles on a window's first bar the account doubles and the stitched curve stays flat
  (`WalkForwardExample.DoublingIsLost`).
- *`walk_forward` terminates.* It does if and only if a test window is not of zero days, or the first cut is not
  before the last bar, or fewer than 60 bars lie up to it. Windows of negative length walk backwards until the
  history runs short, and score nothing (`WalkForwardTheorems.FoldLoopEndsIff`).
- *After a 429 nothing is granted before `retry_after`.* The first pass after the penalty forgets it. A lone caller
  honours it if and only if its first pass, plus the time its tokens take at the refill rate (at least 5 ms), reaches
  the end of it (`RateLimit.RetryAfterIsHonouredIff`); on the order group a minute is over after a ninth of a second.
- *A call that is not idempotent is never sent twice.* That holds if and only if it has no retries
  (`OrderTheorems.NonIdempotentSendsOnceIff`): transient refusals are sent again, and the flag guards transport
  failures only.
- *An incremental sync leaves no gap.* It leaves none if and only if the bars newer than the newest held one number
  at most `max_bars`, or `max_bars` is 0 and nothing is fetched; and it repairs a half-formed last bar if and only if
  they number fewer (`CandleTheorems`).
- *A limit price is rounded to the aggressive side.* So it is for KR. A US price is rounded half-even to the cent
  whatever the side, and is as aggressive as asked if and only if the rounding happens to go its way
  (`LiveTheorems.UsLimitPriceIs`); a BUY limit of 10.004 dollars goes out at 10.00.
- *The live fills table follows the exchange.* An order has a fill row if and only if its own submission saw it
  complete within the polling window: `sync_orders` updates order rows and never books a fill. A row whose status is
  known already keeps its quantity even if the exchange reports another.
- *A live sale sends a positive quantity.* It does unless less than one KR share may be sold, when it sends zero.
- *The daily-loss guard is always armed.* Its baseline is looked up by KST date among marks dated in UTC. Right after
  a cycle's own mark it exists if and only if it is 09:00 KST or later, so the scheduled 04:30 cycle never has one.
- *Backtest and live rebalance on the same sessions.* They differ if and only if the next session falls in the same
  month (or ISO week) number of another year; the shortest such gaps are 335 and 358 days.
- *Strategies need no leverage and no short sales.* Dual momentum needs none if and only if `top_n` is not negative,
  or cuts off all the scores, or no risk asset clears the floor (`Strategies.DualMomentumIsLongIff`, for a safe asset
  outside the risk set). A safe asset that is also held as a risk asset has its weight overwritten, and that much stays in cash.

## Model

| member | source | states |
|---|---|---|
| Engine.EquityOf | src/tqt/backtest/engine.py:248-255 | the running total is cash plus the value of every holding that has a price |
| Engine.DesiredIs | src/tqt/backtest/engine.py:280-292 | exactly the targets and the holdings get an entry: the target's share count, or 0 for what is not targeted, not priced or not wanted |
| Engine.OrderByDeltaIs | src/tqt/backtest/engine.py:294-295 | the order of trading is a permutation of the desired symbols, ascending by share delta |
| Engine.TradeOne | src/tqt/backtest/engine.py:297-363 | one symbol's pass through dust, band, affordability and whole-share branches decides the specified fill or none |
| Engine.Rebalance | src/tqt/backtest/engine.py:257-380 | the loop over the sorted orders, with its cash, positions, cost and traded totals, refines the specification the theorems below are about |
| RebalanceLaws.AffordableFits | src/tqt/backtest/engine.py:329-347 | a scaled-down buy divides by price times (1+c)(1+f) and pays price times (1+c+f), so it never costs more than the cash there is |
| RebalanceLaws.DecideFacts | src/tqt/backtest/engine.py:302-363 | every decided buy is affordable and at most what was wanted; every decided sale is the smaller of the delta and the holding; both are above dust and outside the band |
| RebalanceLaws.OrdersApproach | src/tqt/backtest/engine.py:297-363 | after any number of orders a holding lies between where it was and where it is wanted and is not negative; without a price it has not moved |
| RebalanceLaws.OrdersReplay | src/tqt/backtest/engine.py:348-377 | after any number of orders cash, holdings and batch cost are the replay of the fills |
| RebalanceLaws.OrdersConserve | src/tqt/backtest/engine.py:348-377 | equity plus costs plus slippage paid is the same after every order |
| RebalanceLaws.SaleNeverLosesIff | src/tqt/backtest/engine.py:351-363 | selling a symbol at a price can never drain cash, whatever the quantity above dust, if and only if a check on its price, rates, per-share fee and fee cap holds |
| RebalanceTheorems.NeverOvershoots | src/tqt/backtest/engine.py:280-379 | sells precede buys and no symbol trades twice; every holding ends between old and desired; untargeted holdings only shrink, unpriced ones are untouched, none is negative |
| RebalanceTheorems.RebalanceConserves | src/tqt/backtest/engine.py:348-380 | equity at the open falls by exactly the batch cost plus the sum of price difference times quantity over the fills, and the fills account for cash, cost and every holding |
| RebalanceTheorems.RebalanceStaysSolvent | src/tqt/backtest/engine.py:319-363 | where sales are covered, neither cash nor a holding is negative after any fill |
| RebalanceTheorems.RebalanceStaysWhole | src/tqt/backtest/engine.py:285-288 | without fractional shares every holding and every traded quantity stays a whole number |
| RebalanceTheorems.RebalanceIsIdempotent | src/tqt/backtest/engine.py:280-380 | without costs a second rebalance at the same prices and targets trades nothing, despite dust and band skips, cash-scaled buys and another sort order |
| RebalanceTheorems.FreeRebalanceKeepsEquity | src/tqt/backtest/engine.py:248-255 | without costs and slippage a rebalance leaves equity where it was |
| TrackingTheorems.RebalanceTracks | src/tqt/backtest/engine.py:297-363 | stated in the configuration's own figures: every position without a price, or whose drift is under the smallest order or, if held, inside the band, stays as it was; every other ends exactly on its goal, except a purchase whose outlay at the slipped price did not fit in the cash right before its own fill, which is cut to as many shares as that cash pays for, or to nothing if that is under the smallest order |
| TrackingTheorems.WantIsTarget | src/tqt/backtest/engine.py:280-288 | the wanted shares are worth the target weight of equity, exactly if divisible (by default for US only), else whole and towards zero by less than one share |
| FillTheorems.FillsPayTheirWay | src/tqt/backtest/engine.py:313-377 | every fill of a rebalance trades above its reference if bought and below it if sold, by exactly the country's basis points of it, and pays exactly the country's commission, tax, fees and spread |
| FillTheorems.EquityPaysForTrading | src/tqt/backtest/engine.py:313-380 | equity at the open falls by the charges plus the country's slippage rate times the reference value traded, and the traded total is the value of the fills |
| TrackingTheorems.RebalanceNeverGains | src/tqt/backtest/engine.py:314-366 | at the prices it trades at a rebalance never raises equity |
| Costs.CostIsNonNegative | src/tqt/backtest/costs.py:138-181 | no fill has a negative cost |
| Costs.ChargesAre | src/tqt/backtest/costs.py:122-182 | what a KR and what a US trade is charged, item by item, in the model's own rates, with the slippage only where it is asked for |
| Costs.SaleProceeds | src/tqt/backtest/costs.py:154-181 | a sale releases its notional less the proportional rates of its country and the capped per-share fee |
| Costs.BuyOutlay | src/tqt/backtest/costs.py:154-181 | a purchase takes its notional, the commission and the FX spread on it, and no tax or regulatory fee |
| Calendar.PeriodEndIsLocal | src/tqt/strategy/base.py:88-116 | on a sorted calendar a session that is not the newest ends its month, ISO week or year if and only if the very next session lies in another one |
| Calendar.NewestIsPeriodEnd | src/tqt/strategy/base.py:88-116 | the newest session always counts as a period end, which is why the engine must not act on it |
| Calendar.MonthlyTestAgreesIff | src/tqt/runner.py:157-181 | the live monthly test agrees with `month_end_dates` exactly when the next session is not in the same month of another year, and always within 334 days |
| Calendar.WeeklyTestAgreesIff | src/tqt/runner.py:176-178 | the live weekly test agrees with `week_end_dates` exactly when the next session is not in the same week number of another ISO year, and always within 357 days |
| Calendar.MonthlyBoundIsSharp | src/tqt/runner.py:181 | a closure of 335 days after which the two monthly tests part |
| Calendar.WeeklyBoundIsSharp | src/tqt/runner.py:176-178 | a closure of 358 days after which the two weekly tests part |
| Calendar.RebalanceDayIff | src/tqt/runner.py:157-181 | never on a closed day or without a calendar; every open day for a daily plan; else exactly when the next business day lies in another month, or in another Monday-to-Sunday week if within 51 weeks |
| Calendar.DaysAreConsecutive | src/tqt/runner.py:168-178 | the days of the model's calendar are numbered one by one across months, years and leap days, with 1 January 2000 a Saturday |
| Calendar.IsoWeeksAreNumbered | src/tqt/strategy/base.py:88-116 | ISO weeks are numbered from 1 to at most 53, from the week of the ISO year's first Thursday on |
| Backtest.Run | src/tqt/backtest/engine.py:153-224 | the bar loop (fill at the open, mark at the close, decide) refines the specification of a run |
| BacktestTheorems.DecisionIsLocal | src/tqt/backtest/engine.py:210-224 | a decision with a next bar inside a prefix is the same whether or not later bars exist |
| BacktestTheorems.NoLookahead | src/tqt/backtest/engine.py:173-224 | for every history and strategy, the run on the first k bars has exactly the full run's first k equity and turnover marks and its fills up to bar k-1 |
| BacktestTheorems.RunsOnlyAppend | src/tqt/backtest/engine.py:173-224 | later bars only append marks, and fills dated after the bars already seen |
| BacktestTheorems.RunReplays | src/tqt/backtest/engine.py:178-194 | at every bar cash, every holding and the total cost by component are the replay of the fills from the initial cash |
| MarkTheorems.MarksAreTrue | src/tqt/backtest/engine.py:196-199 | every equity mark is what the fills dated up to its bar made of the initial cash, plus the shares they left times that bar's closes |
| MarkTheorems.TurnoverIsTrue | src/tqt/backtest/engine.py:200-202 | every turnover is the value of the bar's own fills over the bar's mark, or 0 where that is not positive |
| MarkTheorems.DecisionIs | src/tqt/backtest/engine.py:210-224 | a decision is taken exactly on the last session of a period that is past the warm-up and has a next bar, from the dated closes up to that session and nothing else, and counts only if it names targets |
| MarkTheorems.BatchesAreTrue | src/tqt/backtest/engine.py:178-194 | a bar trades nothing unless the bar before it decided, and else rebalances the book the fills left to that decision's targets, at the bar's opens and on the book's equity at those opens |
| MarkTheorems.RunFillsPayTheirWay | src/tqt/backtest/engine.py:178-194 | every fill of every run carries the reason of the decision of the bar before, and pays slippage and charges on the opens of its own bar |
| BacktestTheorems.RunStaysSolvent | src/tqt/backtest/engine.py:319-363 | no leverage in any run: where every open covers its sales, neither cash nor a holding is negative after any fill or at any bar |
| BacktestTheorems.RunStaysWhole | src/tqt/backtest/engine.py:288 | where shares are not divisible no run ever holds or trades a fraction of one |
| BacktestTheorems.UncoveredSaleBorrows | src/tqt/backtest/costs.py:164-169 | with the shipped rates, liquidating 50,000 shares at 0.0001 dollars leaves negative cash |
| SolvencyTheorems.NeverBorrowsIff | src/tqt/backtest/engine.py:257-380 | for a band of at most 100% and prices that are not negative, no book without debt is ever taken into debt by a rebalance if and only if the sale of every tradable symbol is covered |
| WalkForward.ScoreFold | src/tqt/backtest/validate.py:73-84 | one fold runs on the bars up to its end and scores what lies after its cut, if that is more than five marks |
| WalkForward.StitchFolds | src/tqt/backtest/validate.py:65-99 | the fold loop, for every length of a test window with which it ends, visits exactly the specified windows, collects the scored ones in order and concatenates their returns |
| WalkForward.WalkForward | src/tqt/backtest/validate.py:57-105 | no data and a history without a scored window are errors; otherwise the stitched returns come back |
| WalkForwardTheorems.WindowsTile | src/tqt/backtest/validate.py:68-99 | the windows are non-empty, disjoint and consecutive, as long as a test window but for the last, start at the first cut and reach the last bar, unless the first holds fewer than 60 bars of history |
| WalkForwardTheorems.FoldLoopEndsIff | src/tqt/backtest/validate.py:66-99 | for every whole number of test days, some number of turns stops the fold loop if and only if the days are not zero, or the first cut is not before the last bar, or its history is shorter than 60 bars |
| WalkForwardTheorems.FoldIsFullRun | src/tqt/backtest/validate.py:71-81 | the scored equity of every fold is the slice of the in-sample run between its cut and its end |
| WalkForwardTheorems.PctChangeIs | src/tqt/backtest/validate.py:83-83 | the change between two marks is the one that grows the first into the second; from zero it is infinite, and from zero to zero there is none |
| WalkForwardTheorems.StitchedIsFullRun | src/tqt/backtest/validate.py:82-108 | a dated return is stitched if and only if it is the in-sample change between neighbouring bars of one window of more than five bars |
| WalkForwardTheorems.StitchedAscends | src/tqt/backtest/validate.py:104-105 | the concatenation is already in date order without a duplicate, so the sort and the deduplication change nothing |
| WalkForwardTheorems.StitchedCompounds | src/tqt/backtest/validate.py:104-106 | the out-of-sample curve compounds exactly the in-sample growth from the first to the last mark of each scored window |
| WalkForwardTheorems.OutOfSampleIsInSample | src/tqt/backtest/validate.py:57-108 | what comes back, for every length of a test window with which the loop ends, is in date order and holds exactly the in-sample changes inside the scored windows it visited; windows that walk backwards score nothing |
| WalkForwardTheorems.CurveIsInSampleIff | src/tqt/backtest/validate.py:82-108 | the stitched curve compounds to the in-sample growth since the bar before the first window if and only if the growth that no window carries multiplies to 1 |
| WalkForwardExample.DoublingIsLost | src/tqt/backtest/validate.py:57-108 | a history and a strategy for which the account doubles after the first cut and the stitched curve ends where it began |
| RateLimit.RateLimiter.Pass | src/tqt/toss/ratelimit.py:122-141 | one locked pass refills, caps, and grants or names its sleep, changing only the named bucket |
| RateLimit.RateLimiter.ObserveHeaders | src/tqt/toss/ratelimit.py:143-157 | a positive limit is learned and clips the tokens; a missing or non-positive one changes nothing |
| RateLimit.RateLimiter.Penalize | src/tqt/toss/ratelimit.py:159-166 | the bucket is emptied and its refill pushed back by a positive retry-after |
| RateLimit.RateLimiter.AcquireAlone | src/tqt/toss/ratelimit.py:122-141 | a lone caller under a steady documented limit is granted within two passes, after waiting nothing or exactly the first pass's sleep |
| RateLimit.SecondPassGrants | src/tqt/toss/ratelimit.py:127-139 | a pass that comes no sooner than the refused one's sleep is granted, because the ceiling is never below the request |
| RateLimit.RetryAfterIsForgotten | src/tqt/toss/ratelimit.py:131-166 | the first pass inside a retry-after is refused and forgets it, and the next one after its own sleep is granted |
| RateLimit.RetryAfterIsHonouredIff | src/tqt/toss/ratelimit.py:122-166 | a lone caller is granted nothing before the end of a retry-after, however its sleeps overshoot, if and only if its first pass plus the time its tokens take at the refill rate, at least 5 ms, reaches that end |
| RateLimit.RetryAfterIsOvertaken | src/tqt/toss/ratelimit.py:33-166 | on the order group a retry-after of 60 seconds is over in less than 0.2 |
| RateLimit.PenaltyEmpties | src/tqt/toss/ratelimit.py:159-166 | after a penalty the bucket holds only what has refilled since the end of a positive retry-after, or else since it last refilled |
| RateLimit.WindowBound | src/tqt/toss/ratelimit.py:104-166 | over every interleaving of acquire, observe and penalize with a clock that does not run backwards, the tokens granted in a window of length T are at most C + R*T |
| RateLimit.DocumentedBounds | src/tqt/toss/ratelimit.py:104-120 | for every trace C and R may be taken from the documented table: no header can raise them |
| RateLimit.OnlyTheOpenIsThrottled | src/tqt/toss/ratelimit.py:25-69 | every documented limit is the same all day but for ORDER_INFO, which drops from 6 to 3 from 09:00 to 09:10 KST, both ends included; an undocumented group gets 1 |
| RateLimit.RestedBucketIsFull | src/tqt/toss/ratelimit.py:104-141 | a bucket that has rested long enough holds the limit in force (the documented one of that time of day, or a lower one a header set), and never less than one token or than is asked for |
| RateLimit.OpenIsThrottled | src/tqt/toss/ratelimit.py:37-141 | single ORDER_INFO requests within those ten minutes never exceed 3 at once plus 3 a second less the margin, over every interleaving |
| RateLimit.LearnedLimitClips | src/tqt/toss/ratelimit.py:143-157 | from a header on, no more than its limit less the margin, plus the refill since the bucket was last refilled, is granted |
| RateLimit.LearnedLimitLasts | src/tqt/toss/ratelimit.py:104-157 | a learned limit bounds limit and refill rate at every later step until another header |
| TossErrors.ResentAnswersAre | src/tqt/toss/errors.py:51-177 | exactly 429, 5xx other than maintenance, a 401 for an expired or invalid token and a 409 for a request in progress are sent again |
| OrderProtocol.TokenManager.Token | src/tqt/toss/auth.py:68-110 | a fresh token is reused; otherwise one is issued, counted and cached, or the failure is returned and nothing changes |
| OrderProtocol.TokenManager.Invalidate | src/tqt/toss/auth.py:57-66 | the token is dropped and the issue count kept |
| OrderTheorems.TokenIsReusedIff | src/tqt/toss/auth.py:57-95 | a token is used again if and only if more than 300 seconds of its life are left; otherwise a new one is issued with its own life, or the failure is returned and nothing changes |
| OrderTheorems.OnlyRefusalDropsToken | src/tqt/toss/client.py:193-222 | a token is dropped exactly when it was refused with a 401 that will be tried again |
| OrderProtocol.TossClient.Request | src/tqt/toss/client.py:165-227 | the retry loop ends for every behaviour of the network and refines the specified sequence of turns, tokens and request count included |
| OrderTheorems.AtMostOnce | src/tqt/toss/client.py:627-652 | under any loss, delay or refusal, before and after the call returns, it sends at most max_retries + 1 copies with its key and body, and the server holds at most one order for the key; an acknowledged id names that order |
| OrderTheorems.FirstAnswerPlaces | src/tqt/toss/client.py:165-227 | when the first copy arrives and its answer comes back, one copy is sent, exactly the order asked for is added, and its id is returned |
| OrderTheorems.FailedCallMayPlace | src/tqt/toss/client.py:165-227 | a call that gave up on its only copy reports a transport error, counts no request, and that copy may still place exactly the order asked for |
| OrderTheorems.ResendDiscipline | src/tqt/toss/client.py:180-227 | a 422 is never sent again, nor a non-idempotent call after a transport failure; a copy after a refused token carries a newer token than any before |
| OrderTheorems.ChangingTheKeyDuplicates | src/tqt/toss/client.py:612-614 | with a new key for the second copy the same network and server create two orders |
| OrderTheorems.NonIdempotentResentAfter5xx | src/tqt/toss/client.py:219-222 | any call with retries that meets only 503 answers is sent at least twice, idempotent or not |
| OrderTheorems.NextCopyIff | src/tqt/toss/client.py:180-227 | another copy follows if and only if the last went unanswered and the call is idempotent, or was refused with a transient answer; retries remain; and a token is obtained |
| OrderTheorems.NonIdempotentSendsOnceIff | src/tqt/toss/client.py:180-227 | from any state of the world, a non-idempotent call is sent at most once whatever the network does if and only if it has no retries |
| OrderTheorems.RequestsAreAnswers | src/tqt/toss/client.py:180-190 | the request counter grows by exactly the answers a call receives |
| Live.LiveBroker.Submit | src/tqt/execution/live.py:116-206 | submit prepares, posts, logs the acknowledged order, polls and logs its end, as specified; a refusal or failure leaves the tables alone |
| Live.LiveBroker.SyncOrders | src/tqt/execution/live.py:296-336 | the reconciliation loop and its count refine the specified upsert |
| Live.AwaitFill | src/tqt/execution/live.py:209-225 | polling returns the first terminal report among at most five polls, or none if a poll fails before |
| LiveTheorems.TrimmedQuantityIs | src/tqt/execution/live.py:126-146 | what is sent is at most what was wished and, for a sale, what may be sold; it is whole for KR, and zero exactly for a KR sale with less than one sellable share |
| LiveTheorems.LimitPriceIs | src/tqt/execution/live.py:148-151 | a KR limit price is sent on its instrument's grid, at least as aggressive as asked, with no valid price in between |
| LiveTheorems.UsLimitPriceIs | src/tqt/execution/live.py:148-151 | a US limit price is sent in whole cents, at most half a cent away, and as aggressive as asked if and only if half-even rounding goes its way |
| LiveTheorems.UsBuyLosesGround | src/tqt/tick.py:54-60 | a US BUY limit of 10.004 is sent at 10.00 |
| LiveTheorems.SubmitPlacesAtMostOne | src/tqt/execution/live.py:121-181 | one submission under a fresh key leaves at most one order at the exchange; a reported order exists as prepared and is logged under its key, otherwise the tables are as they were |
| SubmitTheorems.SubmitSendsTheWish | src/tqt/execution/live.py:116-206 | a declined wish fails and a malformed one raises, and neither sends or writes anything; a reported order carries the wish at the exchange: its side, symbol, type and amount, as much of its quantity as goes, at a price no less aggressive for KR; its row and the answer say the same |
| SubmitTheorems.PreparedIs | src/tqt/execution/live.py:126-163 | exactly which wishes are declined (less than one KR share, or a sale of which nothing may be sold) and which raise (not exactly one of quantity and amount, a limit without a price, a market order with one, an amount at a limit) |
| SubmitTheorems.AwaitIsFirstFinal | src/tqt/execution/live.py:209-225 | the report waited for is the first of at most five with a final status, and there is none only if five are not final or a poll fails before |
| SubmitTheorems.FillRowIs | src/tqt/execution/live.py:274-293 | a fill row repeats the report's order, side, quantity and average price, and there is one exactly for a positive quantity at a non-zero price |
| LiveTheorems.FillsAreThoseSeen | src/tqt/execution/live.py:258-293 | over every run of submissions and reconciliations the fills of an order are exactly those its own submission saw |
| LiveTheorems.AtMostOneFill | src/tqt/execution/live.py:274-293 | no execution is ever booked twice |
| LiveTheorems.SyncAgrees | src/tqt/execution/live.py:303-332 | after a reconciliation every listed order has the exchange's status; a row whose status was known is untouched, any other takes the reported quantity and price, and a new one the reported symbol and side |
| LiveTheorems.SyncIsIdempotent | src/tqt/execution/live.py:303-336 | reconciling again with the same history changes nothing and counts nothing |
| LiveTheorems.FillIsBookedIffSeen | src/tqt/execution/live.py:209-332 | after a reconciliation a completed order has a fill row if and only if its own submission saw it complete with a priced fill |
| CandleSync.IterCandles | src/tqt/toss/client.py:377-401 | paging ends for every server; for an honest one it collects a newest stretch of at most max_bars that reaches the start, the cap or the stop |
| CandleSync.Store.UpsertCandles | src/tqt/data/store.py:247-274 | every row of the batch is written, a missing currency keeps the stored one, and no other series changes |
| CandleTheorems.CurrencyIsKept | src/tqt/data/store.py:262-274 | a row's currency is the last one that a candle named for it: one that names none never erases what is known |
| CandleSync.Store.CandleRange | src/tqt/data/store.py:276-282 | the earliest and the latest timestamp held, or neither for an empty series |
| CandleSync.Ingestor.SyncSymbol | src/tqt/data/ingest.py:67-97 | a failed fetch leaves the store unchanged; a successful one writes exactly what was collected from the resume point and reports the new range |
| CandleTheorems.NoGapIff | src/tqt/data/ingest.py:67-97 | a sync keeps the cache gapless if and only if the bars newer than the newest held one fit under max_bars (or max_bars is zero) |
| CandleTheorems.StaleBarIsRepairedIff | src/tqt/data/ingest.py:69-72 | a cache that is stale in its newest bar only agrees with the remote series after a sync if and only if the newer bars number fewer than max_bars |
| CandleTheorems.EveryRunIsGapless | src/tqt/data/ingest.py:67-97 | over every sequence of remote growth, failed and successful syncs from an empty store, where each success allows for the bars newer than the newest held one, the cache is a gapless stretch of the remote series |
| CandleTheorems.EveryRunIsCurrent | src/tqt/data/ingest.py:67-97 | where each success allows for one bar more, every held value is the remote one right after it, and only the newest held bar can fall behind until the next |
| CandleTheorems.FirstSync | src/tqt/data/ingest.py:72-85 | the first sync of an empty series leaves a gapless stretch with the remote values |
| Paper.PaperBroker.Check | src/tqt/execution/paper.py:186-239 | the price, quantity, holding and cash checks in the source's order decide the specified fill or the reason against it |
| Paper.PaperBroker.Submit | src/tqt/execution/paper.py:180-299 | a submission books exactly the assessed fill in cash, position, average price, order and fill tables, or changes nothing |
| Paper.PaperBroker.Reset | src/tqt/execution/paper.py:83-89 | cash, positions, orders and fills of the paper account are wiped and it is funded again |
| PaperTheorems.PaperLedgerReplays | src/tqt/execution/paper.py:230-299 | over every sequence of submissions cash and quantities replay from the fills at the FX rate of each, holdings are not negative and whole for KR, and each average lies between the lowest and highest price paid since the position was last flat |
| PaperTheorems.AveragesAreCosts | src/tqt/execution/paper.py:230-248 | over every sequence of submissions quantity times average price is what the shares held cost: what the purchases paid, less the share of it that each sale took along |
| CurrencyTheorems.SubmissionIs | src/tqt/execution/paper.py:141-248 | exactly which submissions are refused and why; any other is filled for all that was asked, or all that is held, at the crossed side of the book or the last trade, with its country's charges, and moves the pool by value and charges: in won for KR whatever the exchange rate, times the rate for the rest |
| CurrencyTheorems.WonPer | src/tqt/universe.py:199-201 | six decimal digits are a KR symbol, counted in won; everything else is counted at the exchange rate |
| CurrencyTheorems.EquitySplits | src/tqt/execution/broker.py:92-106 | equity is cash, plus the KR positions at their marks whatever the exchange rate, plus the US positions at their marks times the rate; a mark is the quote, else the average price |
| PaperTheorems.SaleNeverLosesIff | src/tqt/execution/paper.py:218-248 | no sale of any size can drain the pool if and only if the net price of a share covers the per-share fee |
| PaperTheorems.RoundTripPaysTheSpread | src/tqt/execution/paper.py:140-248 | buying and selling the same quantity against one order book restores every holding and loses at least the spread on it |
| PaperTheorems.PaperStaysSolvent | src/tqt/execution/paper.py:230-248 | over every sequence of submissions whose sales are covered, cash is never negative |
| Risk.RiskManager.CheckCycle | src/tqt/risk.py:123-142 | the verdict, and the halt a breached loss or a spent budget imposes |
| Risk.RiskManager.Halt | src/tqt/risk.py:104-111 | a halt sets its own switch, for today or for good, and leaves the other alone |
| Risk.RiskManager.Resume | src/tqt/risk.py:113-118 | a resume clears both switches and nothing else |
| Risk.Runner.Cycle | src/tqt/runner.py:192-255 | a cycle marks equity, checks, and places the planned orders one by one against a snapshot that is read again after every fill |
| Risk.Runner.TradingCycle | src/tqt/runner.py:192-318 | a cycle from its inputs: it goes ahead if a market is open, it is forced or a rebalance day, and there are targets; its orders are those planned from the snapshot it marked and checked |
| RiskTheorems.EveryOrderIsGated | src/tqt/runner.py:236-245 | an order of a cycle is filled if and only if it passes the gate on the account the orders before it left, at the data read after the last one filled, and the broker accepts it; any other changes nothing |
| Risk.Runner.Reset | src/tqt/execution/paper.py:83-89 | the account is funded again and every equity mark is gone, while the kill switch stays as it was |
| Risk.FirstEquity | src/tqt/data/store.py:484-490 | the earliest mark of a UTC date, or none exactly when that date has no mark |
| RiskTheorems.RefusedIff | src/tqt/risk.py:123-158 | a cycle is refused if and only if it is halted, or the first mark of its date (above zero) is lost by the limit or more, or the day's orders have reached theirs; a refusal halts the day unless it was halted already |
| RiskTheorems.LossStopsTheDay | src/tqt/risk.py:123-149 | in every run a cycle that marks such a loss places no order, nor does any later cycle of that KST date until a resume |
| RiskTheorems.KstIsNineHoursAhead | src/tqt/risk.py:144-158 | the dates of marks and orders are UTC days, those of halts and cycles the days of a clock nine hours ahead |
| RiskTheorems.CycleTradesWhenDue | src/tqt/runner.py:214-245 | an allowed cycle places its orders if and only if a market is open, it is forced or an open market is due, and the strategies named targets; every order is for an open market, and none is planned while the account is worth nothing |
| RiskTheorems.HaltedCycleDoesNothing | src/tqt/runner.py:209-213 | a cycle that begins halted changes neither the ledger nor the switch |
| RiskTheorems.ManualHaltLasts | src/tqt/risk.py:93-118 | in every run a manual halt lasts, and stops every cycle, until a resume, through rollovers, restarts and other halts |
| RiskTheorems.TodayHaltLasts | src/tqt/risk.py:93-118 | in every run a halt for a KST date lasts through that date unless resumed, and on later dates only the manual switch counts |
| RiskTheorems.HaltsAreIndependent | src/tqt/risk.py:93-118 | neither switch clears the other, and a resume clears both |
| RiskTheorems.RefusalStopsTheDay | src/tqt/risk.py:123-142 | once a cycle is refused no cycle checked on that KST date places an order until a resume |
| RiskTheorems.BudgetHoldsInEveryRun | src/tqt/risk.py:151-172 | with the paper broker no UTC day of any run ever holds more orders than the limit, even when midnight falls between check and submission |
| RiskTheorems.BudgetHoldsFromTheStart | src/tqt/risk.py:151-172 | so it is, counting the orders dated on the day one by one, for every history of events of a bot that starts with a funded paper account and no orders |
| RiskTheorems.BaselineExistsIffAfterNine | src/tqt/risk.py:144-149 | right after a cycle's own mark the daily-loss baseline exists if and only if it is 09:00 KST or later, and before that no loss is seen |
| Intents.BuildIntents | src/tqt/runner.py:258-318 | the loop over symbols plans the specified orders and sorts them by drift |
| IntentTheorems.SymbolSettles | src/tqt/runner.py:271-315 | once a symbol's plan is filled at unchanged equity it plans nothing more, lies within one share's value of its target, and exactly on it for a US symbol |
| IntentTheorems.FillingKeepsEquity | src/tqt/execution/broker.py:92-106 | an order filled at the mark without cost leaves the snapshot's equity unchanged |
| IntentTheorems.RebalanceReachesFixpoint | src/tqt/runner.py:262-318 | if marks equal quotes and every intent fills without cost, each traded US position is on target, each traded KR position within one share's value, and a second pass over any of the same symbols plans nothing |
| IntentTheorems.SecondLookIsEmpty | src/tqt/runner.py:258-318 | the same for the symbols a cycle itself looks at: planning again from the account after the fills plans nothing |
| IntentTheorems.PlannedIff | src/tqt/runner.py:262-318 | exactly which symbols are planned: in an open market, quoted above zero, at least one percentage point off target, with a share to trade and for a sale to sell; bought if under target and sold if over, for what the gap is worth at the quote |
| LimitTheorems.AcceptedBuyKeepsLimits | src/tqt/risk.py:164-226 | a purchase that passes the gate and fills at its checked price, equal to the mark and without cost, leaves the symbol's weight and the gross exposure within their limits and cash not negative |
| LimitTheorems.GateIff | src/tqt/risk.py:164-226 | exactly which orders pass: equity above zero, orders left for the day, and for a purchase weight and exposure within their limits, cash to cover it and no warning, for a sale something held and no more than that |
| Strategies.InTopIff | src/tqt/strategy/momentum.py:105-106 | a score is among the first n of the ranking if and only if fewer than n others beat it, ties broken by symbol |
| Strategies.FindSafeAsset | src/tqt/strategy/base.py:61-85 | the loop and the maximum of `_safe_weights` choose the specified safe asset |
| Strategies.SafeAssetIsBest | src/tqt/strategy/base.py:68-85 | the chosen safe asset is a candidate, and no candidate with a history did better |
| Strategies.BuyAndHoldIsUnleveraged | src/tqt/strategy/momentum.py:46-53 | everything available gets an equal part and together they are fully invested |
| Strategies.FaberWeights | src/tqt/strategy/momentum.py:207-232 | the loops of Faber's rule compute the specified weights |
| Strategies.FaberIsUnleveraged | src/tqt/strategy/momentum.py:207-232 | each candidate holds its slot exactly while in trend; the weights never exceed 1, and sum to 1 with a safe asset outside the candidates |
| Strategies.DualMomentumWeights | src/tqt/strategy/momentum.py:88-119 | the loops of dual momentum compute the specified weights |
| Strategies.DualMomentumIs | src/tqt/strategy/momentum.py:88-119 | for every top_n, 1/top_n goes to exactly the risk assets above the floor that are beaten by fewer others than the slice lets through, and nothing to any other but the safe asset; for top_n >= 0 the weights never need leverage, and they sum to 1 with a safe asset outside the risk set |
| Strategies.DualMomentumIsLongIff | src/tqt/strategy/momentum.py:88-119 | for every top_n and a safe asset outside the risk set, the weights are not negative, and unleveraged, if and only if top_n is not negative, or cuts off all the scores, or no risk asset clears the floor |
| Strategies.ParkingIs | src/tqt/strategy/momentum.py:115-116 | parking the rest invests everything except a weight that the safe asset already had and loses |
| Strategies.NegativeTopNSellsShort | src/tqt/strategy/momentum.py:106-113 | a concrete input with top_n = -1 and a negative weight |
| Strategies.VaaIsUnleveraged | src/tqt/strategy/momentum.py:161-188 | VAA never exceeds 1, and fails with a division by zero exactly when it should invest and top_n picks nothing |
| Strategies.VaaIs | src/tqt/strategy/momentum.py:161-188 | all in the safe asset when at least the threshold of scored symbols do not rise, else equal parts of exactly those that fewer others beat than the slice lets through |
| Strategies.BreadthIsNearestThird | src/tqt/strategy/momentum.py:143-159 | the default threshold is the whole number nearest to a third of the universe, between 1 and its size, with 1 for 4 assets and 4 for 12; a given one is taken unless it is zero |
| Strategies.VaaHoldsOnlyRisers | src/tqt/strategy/momentum.py:143-188 | with its defaults VAA holds a risk asset only if it is rising and no other did better |
| Portfolio.TargetWeights | src/tqt/portfolio.py:100-132 | the loops over sleeves and symbols, skipping failed strategies, compute the specified blend |
| Portfolio.PlanIsAcceptedIff | src/tqt/portfolio.py:63-74 | exactly the plans that neither borrow nor sell short are accepted, each sleeve's share then lying between 0 and 1.0001; a plan with both faults is reported as borrowing |
| Portfolio.BlendKeepsProportions | src/tqt/portfolio.py:123-130 | every symbol's weight is the sum of its sleeves' demands times one common factor |
| Portfolio.BlendIsUnleveraged | src/tqt/portfolio.py:63-132 | for an accepted plan of long sleeves the weights are not negative and sum to at most 1, and demand is cut only from above 1 and then to exactly 1 |
| Portfolio.FittingPlanIsNotScaled | src/tqt/portfolio.py:66-130 | a plan whose weights sum to at most 1, of sleeves that do not borrow, is never scaled |
| Tick.BuyIsLeastValid | src/tqt/tick.py:62-76 | for every table whose edges lie on both neighbours' grids, BUY gives the least valid price at or above |
| Tick.SellIsGreatestValid | src/tqt/tick.py:62-76 | SELL gives the greatest valid price at or below, and never needs the second snap |
| Tick.RoundingIsMonotoneAndIdempotent | src/tqt/tick.py:44-82 | both roundings are monotone, idempotent, and leave exactly the valid prices alone |
| Tick.PlainIsNearestValid | src/tqt/tick.py:67-76 | without a side the result is valid and no valid price is nearer |
| Tick.KrxTablesAreWellFormed | src/tqt/tick.py:18-32 | both published tables have every band edge on the grid of both neighbours |
| Drawdown.MaxDrawdownIsWorstPair | src/tqt/backtest/metrics.py:30-47 | for every curve without a running peak of zero, the running-maximum figure is at most e[j]/e[i]-1 for all i <= j with e[i] above and e[j] not below zero, and is attained at the reported peak and trough |
| Drawdown.FundedHasPeaks | src/tqt/backtest/metrics.py:30-32 | a curve that starts above zero has no running peak of zero, whatever it falls to |
| Drawdown.LongestUnderwater | src/tqt/backtest/metrics.py:49-59 | the loop returns the longest maximal underwater run in days, or 0 if there is none |
| Drawdown.LongestFitsTheCurve | src/tqt/backtest/metrics.py:49-59 | the longest stretch runs from an underwater day to a later day of the curve, so it is never negative and never longer than the curve |
| Drawdown.UnderwaterIs | src/tqt/backtest/metrics.py:49-49 | a day is under water exactly when it is below the greatest mark so far by more than one part in 10^12 |
| Drawdown.Details | src/tqt/backtest/metrics.py:41-70 | depth, first trough, first peak before it, first recovery and longest run, and nothing for fewer than two marks |

## Left out

- Rounding: Decimal's 28 digits, the float equity series and the text form of money in the database; all arithmetic is exact.
- Frame alignment in `Backtester.__init__`, the weights frame of the result, and every summary figure (CAGR, Sharpe, Sortino, deflated Sharpe, decay ratios, per-fold metrics) and `parameter_sweep`.
- Momentum scores, moving averages and the moment a series has enough history: the strategies start from the scores they compute.
- Locks and threads: limiter steps are atomic events in one order, with one registry of buckets; `snapshot` of the limiter is not modelled.
- The waits inside the retry loop (limiter, backoff) and the nested call that resolves the account number; they send no order.
- Paging against a remote series that grows while it is being paged, and the interval of a series, which is part of its name here.
- Live snapshot, cancelling, modifying and conditional orders, and the columns of the order tables that no decision reads (commission, tax, currency, times, reason).
- Halt reasons, event log, notifications, signals table, dashboard, command line, chat bots, IP watchdog and scheduling.
- The exchange calendar and the market clock: a session's answer is a parameter, and a calendar that cannot be fetched or parsed is its missing case.
- A halt while a cycle is under way: orders are not checked against the switch, so only whole cycles are covered.
- WalkForward: says nothing about windows of zero days with which the loop never ends, because there is no result to state.
- Drawdown: a curve whose running peak is zero somewhere, where pandas reports NaN or an infinity.
- RiskTheorems.BudgetHoldsInEveryRun: counts the rows of the orders table as the source does, so a reset of the paper account, which deletes them, starts the count again.
- IntentTheorems.RebalanceReachesFixpoint: assumes that fills are free and at the mark, as the claim needs; with costs equity moves and a second pass may trade.
