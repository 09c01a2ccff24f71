# Solana AI trading bot: position ledger, vetting and blacklist in Dafny

This project models the core of a Solana memecoin trading bot and proves
properties of that model. The bot watches new token launches, vets each
token, buys the ones that pass with a SOL amount fixed by the token's risk
level, and then monitors every open position on a timer. On each tick it
applies a prioritised chain of exit rules and a per-risk take-profit ladder.
The model covers three parts:

- **The ledger and trade executor** (`services/tradeService.js`).
  - The state is the `portfolio` map from mint address to position record and the realized PnL accumulator `totalPnlUsd`.
  - `buyToken` checks the wallet balance first and inserts a position only after a confirmed swap at a positive price.
  - `sellToken` makes up to three attempts. Each attempt re-reads the live balance.
  - `monitorPortfolio` checks each position in order:
    - an unknown (zero) price
    - a new price peak
    - the trailing stop
    - the hard stop at −10%
    - the stale-DANGER rule
    - the deep-loss DANGER rule
    - the GOOD / WARNING / DANGER take-profit handlers
  - `closeTokenAccount` is a call that never touches the ledger.
- **Token vetting** (`services/vettingService.js`).
  - `checkRug` is an ordered chain of rejecting guards over the fetched security report, followed by the derivation of the risk level.
  - `detectEarlyDevSell` scans the creator's recent transactions for a large sale.
- **The name/symbol blacklist** (`services/blacklistService.js`). It turns the blacklist file's lines into a set of terms and tests whether a name or symbol contains one of them, ignoring case.

Every network call is an input to the model, and so is the clock. This covers:
- the Jupiter quote and swap, and transaction confirmation
- the token price oracle and the SOL/USD rate
- balance reads
- the security-report request
- the creator's account and transaction history

Layout:

| file | module | contents |
|---|---|---|
| `common.dfy` | `Common` | `Option`, `Result`, `RiskLevel`, JavaScript truthiness of optional strings |
| `text.dfy` | `Text` | `toLowerCase`/`toUpperCase` on ASCII, `trim`, `split(/\r?\n/)`, `includes` |
| `blacklist.dfy` | `Blacklist` | class `Blacklist` (the module-level term set, `loadBlacklist`, `isBlacklisted`) |
| `vetting.dfy` | `Vetting` | `checkRug`'s pipeline, `detectEarlyDevSell`, the risk derivation |
| `trade_model.dfy` | `TradeModel` | the ledger as values: `BuySpec`, `SellSpec`, `Decide`, `MonitorStep`, `TickSpec` and their properties |
| `trade_service.dfy` | `TradeService` | class `Ledger`: the same operations updating the ledger in place, each proved to produce the state the `TradeModel` function describes |

The ledger's class invariant (`TradeModel.ValidState`) says that every open position:
- has a positive purchase price
- has a peak at or above its purchase price
- records only take-profit tiers 1 and 2, each at most once

`Buy`, `Sell`, the take-profit handlers, `CheckPosition` and `MonitorPortfolio` all preserve it.

Behaviour of the code that the model keeps as written (the lemma named in brackets proves it):

- **Tier 3 fires again.** The GOOD ladder records tiers 2 and 1 before selling, but never tier 3. A position that takes tier 3 and stays open takes it again on the next tick at the same price (`TopTierRepeats`).
- **The cost basis is charged per sale.** A sale of `p`% is charged `p`% of the original SOL cost, whatever was sold before. Selling half and then the rest, at exactly the purchase value, books a loss of half the cost (`CostBasisCountedPerSale`).
- **A buy can fail after inserting.** `buyToken` can report failure when the position is already inserted. This happens if the blacklist call after the insertion throws (`BuySpec`).
- **The amount can reach zero.** A partial sale whose rounded amount equals the whole balance leaves a position with an amount of 0 that stays in the ledger (`SellSuccessEffect` gives the amount). The next sell attempt on it finds a zero balance and removes it.

## Model

| member | source | states |
|---|---|---|
| Text.Lower | services/blacklistService.js:12 | lower-casing keeps the length, turns each upper-case letter into the lower-case letter that upper-cases back to it, and keeps every other character |
| Text.Upper | services/vettingService.js:285 | upper-casing keeps the length, turns each lower-case letter into the upper-case letter that lower-cases back to it, and keeps every other character |
| Text.TrimStartShape | services/blacklistService.js:11-12 | dropping leading white space leaves the suffix that starts at the first non-space character; everything dropped is white space |
| Text.TrimEndShape | services/blacklistService.js:11-12 | dropping trailing white space leaves the prefix that ends at the last non-space character; everything dropped is white space |
| Text.TrimShape | services/blacklistService.js:11-12 | `trim()` is blank exactly when the line is all white space; otherwise it is a slice of the line that begins and ends with a non-space character |
| Text.SplitNewlines | services/blacklistService.js:9 | splitting on newlines gives one piece more than there are newlines, no piece holds a newline, and joining the pieces with newlines gives the text back |
| Text.DropCarriageReturn | services/blacklistService.js:9 | a line that ends with a carriage return loses exactly that one character; any other line is kept as it is |
| Text.LinesShape | services/blacklistService.js:9 | `split(/\r?\n/)` gives the text between consecutive separators: one line per newline-separated piece (which join back to the text), each piece less the carriage return that ends it when a newline follows, the last piece whole; no line holds a newline |
| Text.ContainsAtOffset | services/blacklistService.js:36 | `includes` holds exactly when the term occurs at some offset of the string |
| Blacklist.CollectExactly | services/blacklistService.js:10-14 | folding the lines front to back collects exactly the terms some line contributes |
| Blacklist.CollectStep | services/blacklistService.js:10-14 | one more line adds exactly that line's contribution |
| Blacklist.TermsOfExactly | services/blacklistService.js:9-14 | the loaded terms are exactly the trimmed, lower-cased text of the non-blank lines |
| Blacklist.NoEmptyTerm | services/blacklistService.js:11 | blank and white-space-only lines are skipped, so no term is empty |
| Blacklist.LoadGrowsAndIsIdempotent | services/blacklistService.js:4-14 | loading only adds terms, and loading the same file twice equals loading it once |
| Blacklist.Blacklist.constructor | services/blacklistService.js:4 | the blacklist starts empty |
| Blacklist.Blacklist.Load | services/blacklistService.js:6-30 | the set after loading is the old set plus the file's terms (unchanged when the file is missing), and it still holds no empty term |
| Blacklist.Blacklist.IsBlacklisted | services/blacklistService.js:31-41 | true exactly when some term occurs in the lower-cased name or lower-cased symbol (a missing one reads as ""); always false for an empty blacklist |
| Vetting.FindHolding | services/vettingService.js:150-155 | a balance row of the creator for the mint is found exactly when one exists, and the amount found is that of the first such row, as `.find` returns |
| Vetting.ScanSalesExactly | services/vettingService.js:143-175 | the signature scan reports a sale exactly when a transaction of the last 300 s shows the creator selling at least the threshold share, and no fetch before it threw |
| Vetting.EarlyDevSold | services/vettingService.js:113-184 | a failed lookup, no token account or a zero first balance give false; otherwise true exactly when some recent transaction shows a sale of at least the threshold share of the first account's balance and no recent fetch before it threw |
| Vetting.OverallRisk | services/vettingService.js:283-288 | WARNING exactly when some level upper-cases to WARN and none to DANGER, otherwise DANGER (also for no risks); never GOOD |
| Vetting.Pow10Step | services/vettingService.js:245-246 | the market-cap divisor is 10 to the power of the decimals: 1 at 0, and each further decimal multiplies it by 10 |
| Vetting.CheckRug | services/vettingService.js:191-317 | a missing report rejects, a simulated loss rejects (before any other guard), and an accepted token's level is never GOOD |
| Vetting.CheckRugAcceptsExactly | services/vettingService.js:201-300 | a token is accepted exactly when every guard passes (see below), and its summary then carries the report's score, the report's risks and the derived level. The guards: no simulated loss; no freeze or mint authority; liquidity within [min, max]; a token section present; market cap at least the minimum; no early dev sell when a creator is known; every risk has a level |
| Vetting.MissingCreatorSkipsDevSellCheck | services/vettingService.js:257-280 | with no creator from the report or the fallback lookup the dev-sell check is skipped rather than rejecting |
| TradeModel.TradeAmountSol | services/tradeService.js:58 | the trade size is the level's amount, falling back to the DANGER amount when that is zero |
| TradeModel.BuySpec | services/tradeService.js:57-154 | an unaffordable trade, or no confirmed transaction, no positive price or no balance, changes nothing and fails; an affordable, confirmed, positively priced buy whose balance is read inserts the new position (peak at the purchase price, no tiers taken, the risk's trade amount), appends the purchase and BUY records, and succeeds exactly when the blacklist call completes; PnL is untouched |
| TradeModel.Round | services/tradeService.js:189 | `Math.round`: the result is within half a unit, halves rounded up |
| TradeModel.AttemptStep | services/tradeService.js:164-266 | a failed balance read retries; a zero live balance removes the position, records SOLD and ends without a sale; a rounded amount of 0 or less ends with no change; a failed or unconfirmed swap retries; a confirmed swap sells, adds the profit times the SOL/USD rate to PnL when the rate is positive, and appends exactly the SELL trade, followed by the SOLD mark on the BUY trade when 100% was sold |
| TradeModel.RunAttempts | services/tradeService.js:162-276 | no more attempts are made than remain |
| TradeModel.SellSpec | services/tradeService.js:156-160 | selling a mint that is not held changes nothing and reports no sale |
| TradeModel.RunAttemptsDecidedByLast | services/tradeService.js:162-276 | every attempt before the deciding one asked for a retry; the sell is exhausted exactly when every attempt asked for a retry, and then only SELL_FAILED is recorded |
| TradeModel.SellAttempts | services/tradeService.js:157-276 | at most three attempts; the last one made decides the outcome; exhausting all three leaves positions and PnL unchanged and records SELL_FAILED |
| TradeModel.SellDecidedAt | services/tradeService.js:162-266 | the first attempt that does not retry decides the sell: a zero balance gives "closed externally" with the position removed and SOLD recorded, a non-positive amount gives no change, and otherwise a confirmed swap gives a sale |
| TradeModel.SellPnlOnlyOnConfirmedSale | services/tradeService.js:226-237 | PnL changes only on a confirmed sale with a positive SOL/USD rate; every sale adds (outAmount/1e9 − tradeAmountSol·percent/100)·rate when the rate is positive and nothing otherwise |
| TradeModel.SellSuccessEffect | services/tradeService.js:189-256 | a successful 100% sale removes the position; a partial one changes only its amount, to balance − round(balance·percent/100) |
| TradeModel.FullSellRemoves | services/tradeService.js:177-252 | a 100% sell leaves the mint held exactly when it exhausted its attempts (a zero live balance also removes it) |
| TradeModel.SellFollows | services/tradeService.js:156-277 | a sell touches no other mint, changes at most the amount of the sold position, only appends records, and keeps the ledger valid |
| TradeModel.Peak | services/tradeService.js:409-410 | the peak after seeing a price is the larger of the old peak and the price |
| TradeModel.GoodTierChoice | services/tradeService.js:330-367 | the GOOD ladder picks the highest tier reached and not yet taken, and none exactly when no tier is open |
| TradeModel.TakeProfitFor | services/tradeService.js:330-392 | a GOOD position takes profit exactly when some tier is open, and then takes the tier `GoodTierChoice` picks, selling that tier's percentage; WARNING and DANGER sell 100% exactly when their target is reached |
| TradeModel.PnlSign | services/tradeService.js:412-440 | the profit is positive exactly above the purchase price, and at most −10% exactly at or below 0.9 of it |
| TradeModel.ExitRulesInOrder | services/tradeService.js:397-479 | exactly one decision per position and tick: each exit fires exactly when its condition holds and no earlier rule's does, in the order zero price, trailing stop, hard stop, stale DANGER, deep-loss DANGER; when none fires, the risk level's take-profit ladder decides |
| TradeModel.TrailingStopOnlyInProfit | services/tradeService.js:429-438 | the trailing stop fires only above the purchase price and with the drop from the peak at least the configured percentage |
| TradeModel.LossesAlwaysExit | services/tradeService.js:398-449 | a zero price, or a price at or below 90% of the purchase price, always decides to exit (`MonitorStepEffect` shows that an exit then sells 100%) |
| TradeModel.DangerRulesOnlyForDanger | services/tradeService.js:451-479 | the stale and deep-loss rules fire only for DANGER positions; the stale rule only in profit and after the holding time |
| TradeModel.JumpTakesTopTierOnly | services/tradeService.js:330-342 | a GOOD position past every tier, with no exit firing, takes only tier 3 that tick, at tier 3's sell percentage |
| TradeModel.TakeProfitOnlyWhenReached | services/tradeService.js:481-492 | a take-profit fires only at a known price above the hard stop, for the position's own risk level and its reached target |
| TradeModel.Touch | services/tradeService.js:409-410 | seeing a price changes nothing but the peak, which becomes the larger of the old peak and the price; the position stays valid |
| TradeModel.RecordKeepsValid | services/tradeService.js:353-365 | pushing an untaken tier 1 or 2 keeps the position valid and only extends its taken tiers |
| TradeModel.ApplyActionFollows | services/tradeService.js:412-492 | carrying out a hold, an exit or a take-profit keeps the ledger valid, touches no other mint and leaves the position's peak as it was |
| TradeModel.MonitorStepEffect | services/tradeService.js:337-492 | an exit sells 100% and keeps the position only when all three attempts fail; a hold changes only the peak; a take-profit of tier 1 or 2 records that tier before selling, so a position that stays open does not take the same tier again at the same price and time; every take-profit then makes exactly one sell of its percentage |
| TradeModel.MonitorStepFollows | services/tradeService.js:396-492 | one position's check keeps the ledger valid, touches no other mint, lets the position only evolve and leaves its peak at least the price seen |
| TradeModel.TopTierRepeats | services/tradeService.js:332-342 | tier 3 is not recorded: a position that takes it and stays open is decided the same way on the next tick at the same price |
| TradeModel.CostBasisCountedPerSale | services/tradeService.js:226-237 | selling 50% then 100% at the purchase value books −50 USD at a 100 USD/SOL rate |
| TradeModel.TickSpec | services/tradeService.js:394-494 | a tick, with each position checked at the clock reading of its own turn, keeps the ledger valid |
| TradeModel.TickOfEmpty | services/tradeService.js:395 | a tick over an empty portfolio changes nothing |
| TradeModel.TickFollows | services/tradeService.js:394-494 | across a tick no position appears, peaks never decrease, taken tiers only grow, and every visited survivor's peak is at least the price the tick saw |
| TradeService.CloseTokenAccount | services/tradeService.js:279-328 | the account is closed exactly when one of the first three attempts confirmed; the ledger is not involved |
| TradeService.Ledger.TryAttempt | services/tradeService.js:164-266 | one pass through the sell loop leaves exactly the ledger `AttemptStep` gives, reports whether it ended the sell, and reports a sale exactly for `AttemptStep`'s Sold |
| TradeService.Ledger.constructor | services/tradeService.js:41-42 | the ledger starts with no positions, zero PnL and no records |
| TradeService.Ledger.Buy | services/tradeService.js:57-154 | the new ledger and the result are exactly `BuySpec`'s, and the ledger stays valid |
| TradeService.Ledger.Sell | services/tradeService.js:156-277 | the retry loop leaves exactly `SellSpec`'s ledger and returns true exactly for a sale |
| TradeService.Ledger.HandleGoodRisk | services/tradeService.js:330-368 | the ledger becomes the result of recording and selling the tier `TakeProfitFor` picks, and stays valid |
| TradeService.Ledger.HandleWarningRisk | services/tradeService.js:370-380 | sells 100% exactly when the WARNING target is reached, otherwise changes nothing |
| TradeService.Ledger.HandleDangerRisk | services/tradeService.js:382-392 | sells 100% exactly when the DANGER target is reached, otherwise changes nothing |
| TradeService.Ledger.CheckPosition | services/tradeService.js:396-492 | one iteration of the monitor loop leaves exactly `MonitorStep`'s ledger |
| TradeService.Ledger.MonitorPortfolio | services/tradeService.js:394-494 | the monitor loop over the portfolio's mints, each checked at the clock reading of its own turn, leaves exactly `TickSpec`'s ledger and keeps it valid |

## Left out

- Logging (`logEvent`), console output and the SQLite database. The writes to the trade database (`addPurchasedToken`, `logTrade`, `updateTradeStatus`) are an append-only journal of records. A failure of these calls is not modelled, except for the blacklist call after a buy.
- `updateTradeStatus` is imported at services/tradeService.js:36 but is not defined in services/databaseService.js. The model treats it as a call that records the status.
- `addToBlacklist` is imported at services/tradeService.js:38 but is not defined in services/blacklistService.js. The model treats it as a call that completes or throws (`BuyEnv.blacklistCallSucceeds`). `metadata` may be undefined at that point; that case is one way for the call to throw.
- Network, RPC and time are inputs. This covers:
  - the Jupiter quote and swap requests, transaction deserialisation and confirmation
  - price and balance reads, the SOL/USD rate
  - the rugcheck report and the Helius creator lookup
  - the creator's accounts and signatures
  - `Date.now`: `monitorPortfolio` reads the clock once per position, at that position's turn, so the model takes one clock reading per mint (`clockOf`). The time spent by earlier positions' price reads, sells and 5-second retry delays is carried by those readings.
  - `sleep` and the retry delays, which change nothing but the time
- A failed buy quote or swap request, and an unconfirmed buy, are all the one input "no confirmed transaction".
- The wallet balance read of `buyToken` happens outside its `try`. A throw there is not modelled: the balance is an input.
- Floating point, `NaN` and `undefined` are not modelled, except in two places:
  - an unparsable live balance in `sellToken` is read as 0, as the code's `isNaN` test does;
  - a missing security-report field is modelled only where the code tests it.
  Prices, percentages and PnL are exact reals. The stored token amount (a decimal string in the code) is an integer.
- `sellToken`'s `sellPrice` is computed only for the log and is not modelled.
- `detectEarlyDevSell`: the 25-signature limit belongs to the RPC request, so the signatures are given as a sequence. A throw while fetching the accounts or the signatures is the failed-lookup input. A `null` block time is not modelled.
- The report's creator may be an object with an `address` field. The model takes the creator as an optional string.
- `getPortfolioSize`, `getTotalPnlUsd` and `getPortfolio` only read the state and are covered by `Ledger.State()`.
- Concurrency: the log-subscription callbacks and the interval monitor interleave at every `await` in the program. The model runs every operation to completion, one at a time. The iteration order of the portfolio `Map` is a parameter that enumerates its mints.
- The body of `closeTokenAccount` (building and sending the close instruction) is reduced to the confirmations of its three attempts.
- Text.Lower: maps only the ASCII letters, not all of Unicode as `toLowerCase` does.
- Text.Upper: maps only the ASCII letters, not all of Unicode as `toUpperCase` does.
- Text.TrimShape: white space covers the ASCII spaces, the no-break space and the byte-order mark, not every Unicode space character that `trim` removes.
