/** The position ledger as values: the records it holds, the exit policy
    evaluated on every monitor tick, and the effect of a buy, a sell (with
    its retry loop) and a monitor tick on the ledger. The imperative ledger
    in TradeService is proved to compute exactly these functions. Every
    network call (quote, swap, confirmation, price and balance reads, the
    SOL/USD rate) and the clock are inputs. */
module TradeModel {
  import opened Common

  const LamportsPerSol: real := 1000000000.0
  /** Attempts a sell makes before giving up. */
  const MaxRetries: nat := 3
  /** The fixed stop-loss threshold, in percent of the purchase price. */
  const HardStopPercent: real := -10.0
  const MsPerMinute: real := 60000.0

  /** A take-profit tier of a GOOD position: sell `sellPercent` of the
      current holding once the profit reaches `profitPercent`. */
  datatype ProfitTier = ProfitTier(profitPercent: real, sellPercent: real)

  /** The trading constants read from the environment. Nothing orders the
      three GOOD tiers. */
  datatype Config = Config(
    tradeAmountGood: real,
    tradeAmountWarning: real,
    tradeAmountDanger: real,
    minSolBalance: real,
    trailingStopLossPercent: real,
    staleDangerCoinMinutes: int,
    deepLossPercentDanger: real,
    takeProfitPercentDanger: real,
    takeProfitPercentWarning: real,
    tp1: ProfitTier,
    tp2: ProfitTier,
    tp3: ProfitTier)

  /** An open position. `amount` is the token balance in base units,
      `tradeAmountSol` the SOL spent, `profitTakenLevels` the GOOD tiers
      already taken, `purchaseTimestamp` in milliseconds. */
  datatype Position = Position(
    purchasePrice: real,
    amount: int,
    tradeAmountSol: real,
    riskLevel: RiskLevel,
    profitTakenLevels: seq<int>,
    purchaseTimestamp: int,
    highestPriceSeen: real,
    buySignature: string)

  datatype TradeKind = BuyTrade | SellTrade
  datatype TradeStatus = StatusSold | StatusSellFailed

  /** What the ledger writes to the trade database. */
  datatype Record =
    | Purchased(mint: string)
    | Trade(kind: TradeKind, mint: string, solAmount: real, signature: string)
    | StatusUpdate(signature: string, status: TradeStatus)

  /** The whole ledger: open positions by mint, realized PnL in USD, and
      the database records written so far. */
  datatype LedgerState = LedgerState(portfolio: map<string, Position>, totalPnlUsd: real, journal: seq<Record>)

  /** A confirmed transaction. */
  datatype TxResult = TxResult(signature: string, fee: real)

  // ---------------------------------------------------------------------
  // Invariants and how positions evolve

  /** The prices the exit rules divide by are positive. */
  predicate Priced(pos: Position) {
    pos.purchasePrice > 0.0 && pos.highestPriceSeen > 0.0
  }

  /** A position as the ledger keeps it: bought at a positive price, its
      peak at or above the purchase price, and only tiers 1 and 2 recorded,
      each at most once. */
  predicate ValidPosition(pos: Position) {
    && pos.purchasePrice > 0.0
    && pos.highestPriceSeen >= pos.purchasePrice
    && (forall i :: 0 <= i < |pos.profitTakenLevels| ==> pos.profitTakenLevels[i] in {1, 2})
    && (forall i, j :: 0 <= i < j < |pos.profitTakenLevels| ==> pos.profitTakenLevels[i] != pos.profitTakenLevels[j])
  }

  predicate ValidState(st: LedgerState) {
    forall m :: m in st.portfolio ==> ValidPosition(st.portfolio[m])
  }

  /** How a position may change while it stays open: the purchase facts are
      fixed, the peak never decreases and the taken tiers only grow. */
  predicate Evolves(p: Position, q: Position) {
    && q.purchasePrice == p.purchasePrice
    && q.tradeAmountSol == p.tradeAmountSol
    && q.riskLevel == p.riskLevel
    && q.purchaseTimestamp == p.purchaseTimestamp
    && q.buySignature == p.buySignature
    && q.highestPriceSeen >= p.highestPriceSeen
    && p.profitTakenLevels <= q.profitTakenLevels
  }

  /** `st'` is reachable from `st` by sells and monitor ticks: no position
      appears, every surviving one evolves, and the journal only grows. */
  predicate Follows(st: LedgerState, st': LedgerState) {
    && st'.portfolio.Keys <= st.portfolio.Keys
    && (forall m :: m in st'.portfolio ==> Evolves(st.portfolio[m], st'.portfolio[m]))
    && st.journal <= st'.journal
  }

  lemma FollowsTransitive(s1: LedgerState, s2: LedgerState, s3: LedgerState)
    requires Follows(s1, s2) && Follows(s2, s3)
    ensures Follows(s1, s3)
  {
    forall m | m in s3.portfolio
      ensures Evolves(s1.portfolio[m], s3.portfolio[m])
    {
      var p1, p2, p3 := s1.portfolio[m], s2.portfolio[m], s3.portfolio[m];
      assert p1.profitTakenLevels <= p2.profitTakenLevels <= p3.profitTakenLevels;
    }
  }

  // ---------------------------------------------------------------------
  // Buy

  /** The configured SOL amount of a risk level. */
  function LevelAmount(cfg: Config, risk: RiskLevel): real {
    match risk
    case Good => cfg.tradeAmountGood
    case Warning => cfg.tradeAmountWarning
    case Danger => cfg.tradeAmountDanger
  }

  /** The SOL amount for a risk level, falling back to the DANGER amount
      when the level's amount is zero. */
  function TradeAmountSol(cfg: Config, risk: RiskLevel): (r: real)
    ensures LevelAmount(cfg, risk) != 0.0 ==> r == LevelAmount(cfg, risk)
    ensures LevelAmount(cfg, risk) == 0.0 ==> r == cfg.tradeAmountDanger
  {
    var a := LevelAmount(cfg, risk);
    if a != 0.0 then a else cfg.tradeAmountDanger
  }

  /** The wallet holds at least the trade amount plus the reserve. */
  predicate Affordable(cfg: Config, risk: RiskLevel, walletLamports: int) {
    !(walletLamports as real / LamportsPerSol < TradeAmountSol(cfg, risk) + cfg.minSolBalance)
  }

  /** What the outside world answers during one buy. `tx` is None when the
      quote or swap request failed or the transaction did not confirm;
      `heldAmount` is None when the token balance read failed;
      `blacklistCallSucceeds` is false when the final blacklist call throws
      (for one, because no metadata was passed). */
  datatype BuyEnv = BuyEnv(
    walletLamports: int,
    tx: Option<TxResult>,
    freshPrice: real,
    heldAmount: Option<int>,
    blacklistCallSucceeds: bool)

  function NewPosition(cfg: Config, risk: RiskLevel, price: real, amount: int, now: int, tx: TxResult): Position {
    Position(price, amount, TradeAmountSol(cfg, risk), risk, [], now, price, tx.signature)
  }

  datatype BuyOutcome = BuyOutcome(state: LedgerState, ok: bool)

  /** buyToken. A position is inserted only after a confirmed transaction
      and a positive fresh price; the call reports success only if the
      blacklist call after the insertion also completes. */
  function BuySpec(st: LedgerState, cfg: Config, mint: string, risk: RiskLevel, env: BuyEnv, now: int): (r: BuyOutcome)
    ensures !Affordable(cfg, risk, env.walletLamports) ==> r == BuyOutcome(st, false)
    ensures env.tx.None? || env.freshPrice <= 0.0 || env.heldAmount.None? ==> r == BuyOutcome(st, false)
    ensures r.state.totalPnlUsd == st.totalPnlUsd
    ensures r.state.portfolio == st.portfolio || r.state.portfolio.Keys == st.portfolio.Keys + {mint}
    ensures r.state.portfolio != st.portfolio || r.ok ==>
      && Affordable(cfg, risk, env.walletLamports)
      && env.tx.Some? && env.freshPrice > 0.0 && env.heldAmount.Some?
      && r.state.portfolio == st.portfolio[mint := NewPosition(cfg, risk, env.freshPrice, env.heldAmount.value, now, env.tx.value)]
    ensures Affordable(cfg, risk, env.walletLamports) && env.tx.Some? && env.freshPrice > 0.0 && env.heldAmount.Some? ==>
      && r.state.portfolio == st.portfolio[mint := NewPosition(cfg, risk, env.freshPrice, env.heldAmount.value, now, env.tx.value)]
      && r.state.journal == st.journal + [Purchased(mint), Trade(BuyTrade, mint, TradeAmountSol(cfg, risk), env.tx.value.signature)]
      && r.ok == env.blacklistCallSucceeds
    ensures r.ok ==> mint in r.state.portfolio && ValidPosition(r.state.portfolio[mint])
    ensures st.journal <= r.state.journal
    ensures ValidState(st) ==> ValidState(r.state)
  {
    if !Affordable(cfg, risk, env.walletLamports) then BuyOutcome(st, false)
    else if env.tx.None? || !(env.freshPrice > 0.0) || env.heldAmount.None? then BuyOutcome(st, false)
    else
      var pos := NewPosition(cfg, risk, env.freshPrice, env.heldAmount.value, now, env.tx.value);
      var journal := st.journal + [Purchased(mint), Trade(BuyTrade, mint, pos.tradeAmountSol, env.tx.value.signature)];
      BuyOutcome(LedgerState(st.portfolio[mint := pos], st.totalPnlUsd, journal), env.blacklistCallSucceeds)
  }

  // ---------------------------------------------------------------------
  // Sell

  /** Math.round: the nearest integer, halves rounded up. */
  function Round(x: real): (r: int)
    ensures r as real - 0.5 <= x < r as real + 0.5
  {
    (x + 0.5).Floor
  }

  /** The base units a sell of `percent` of `balance` offers. */
  function AmountToSell(balance: int, percent: real): int {
    Round(balance as real * percent / 100.0)
  }

  /** Proceeds minus the share of the original SOL cost the sold percentage
      stands for. */
  function ProfitSol(pos: Position, percent: real, outAmount: int): real {
    outAmount as real / LamportsPerSol - pos.tradeAmountSol * (percent / 100.0)
  }

  /** What the swap part of one attempt gave: a failed quote, swap or
      transaction build (thrown and caught), an unconfirmed transaction, or
      a confirmation with the quoted output in lamports, the SOL/USD rate
      then read (0 when unknown), and the confirmations of the follow-up
      account-closing attempts. */
  datatype SwapResult =
    | SwapFailed
    | Unconfirmed
    | Confirmed(outAmount: int, solPriceUsd: real, tx: TxResult, closeResults: seq<bool>)

  /** What one sell attempt saw: the balance read threw, or the live balance
      (an unparsable balance reads as 0) and the swap outcome. */
  datatype SellAttempt = BalanceReadFailed | BalanceRead(balance: nat, swap: SwapResult)

  /** How a sell ended. Only Sold returns true. */
  datatype SellVerdict = NotHeld | ClosedExternally | NothingToSell | Sold | Exhausted

  datatype SellOutcome = SellOutcome(state: LedgerState, verdict: SellVerdict, attempts: nat)

  /** One attempt either asks for another try or ends the sell. */
  datatype Step = Retry | Finish(state: LedgerState, verdict: SellVerdict)

  /** One attempt of sellToken on `mint`, whose record when the sell began
      was `pos`. */
  function AttemptStep(st: LedgerState, mint: string, pos: Position, percent: real, a: SellAttempt): (r: Step)
    ensures r.Finish? && r.verdict != Sold ==> r.state.totalPnlUsd == st.totalPnlUsd
    ensures r.Finish? && r.verdict == NothingToSell ==> r.state == st
    ensures a.BalanceReadFailed? ==> r == Retry
    ensures a.BalanceRead? && a.balance == 0 ==>
      r == Finish(LedgerState(st.portfolio - {mint}, st.totalPnlUsd, st.journal + [StatusUpdate(pos.buySignature, StatusSold)]),
                  ClosedExternally)
    ensures a.BalanceRead? && a.balance != 0 && AmountToSell(a.balance, percent) <= 0 ==> r == Finish(st, NothingToSell)
    ensures a.BalanceRead? && a.balance != 0 && AmountToSell(a.balance, percent) > 0 ==>
      && (!a.swap.Confirmed? ==> r == Retry)
      && (a.swap.Confirmed? ==>
            && r.Finish? && r.verdict == Sold
            && r.state.totalPnlUsd
               == st.totalPnlUsd + (if a.swap.solPriceUsd > 0.0 then ProfitSol(pos, percent, a.swap.outAmount) * a.swap.solPriceUsd else 0.0)
            && r.state.journal
               == st.journal + [Trade(SellTrade, mint, a.swap.outAmount as real / LamportsPerSol, a.swap.tx.signature)]
                  + (if percent == 100.0 then [StatusUpdate(pos.buySignature, StatusSold)] else []))
  {
    match a
    case BalanceReadFailed => Retry
    case BalanceRead(balance, swap) =>
      if balance == 0 then
        Finish(st.(portfolio := st.portfolio - {mint}, journal := st.journal + [StatusUpdate(pos.buySignature, StatusSold)]),
               ClosedExternally)
      else
        var amountToSell := AmountToSell(balance, percent);
        if amountToSell <= 0 then Finish(st, NothingToSell)
        else match swap
          case SwapFailed => Retry
          case Unconfirmed => Retry
          case Confirmed(outAmount, solPrice, tx, _) =>
            var pnl := if solPrice > 0.0 then st.totalPnlUsd + ProfitSol(pos, percent, outAmount) * solPrice
                       else st.totalPnlUsd;
            var journal := st.journal + [Trade(SellTrade, mint, outAmount as real / LamportsPerSol, tx.signature)];
            if percent == 100.0 then
              Finish(LedgerState(st.portfolio - {mint}, pnl, journal + [StatusUpdate(pos.buySignature, StatusSold)]), Sold)
            else
              Finish(LedgerState(st.portfolio[mint := pos.(amount := balance - amountToSell)], pnl, journal), Sold)
  }

  /** The remaining attempts `rest`, after `made` attempts that all asked
      for a retry. When none is left the sell is marked SELL_FAILED. */
  function RunAttempts(st: LedgerState, mint: string, pos: Position, percent: real,
                       rest: seq<SellAttempt>, made: nat): (r: SellOutcome)
    ensures made <= r.attempts <= made + |rest|
    decreases |rest|
  {
    if rest == [] then
      SellOutcome(st.(journal := st.journal + [StatusUpdate(pos.buySignature, StatusSellFailed)]), Exhausted, made)
    else match AttemptStep(st, mint, pos, percent, rest[0])
      case Retry => RunAttempts(st, mint, pos, percent, rest[1..], made + 1)
      case Finish(st', verdict) => SellOutcome(st', verdict, made + 1)
  }

  /** sellToken(mint, percent) given the outcomes of its three attempts. */
  function SellSpec(st: LedgerState, mint: string, percent: real, outcomes: seq<SellAttempt>): (r: SellOutcome)
    requires |outcomes| == MaxRetries
    ensures mint !in st.portfolio ==> r == SellOutcome(st, NotHeld, 0)
  {
    if mint !in st.portfolio then SellOutcome(st, NotHeld, 0)
    else RunAttempts(st, mint, st.portfolio[mint], percent, outcomes, 0)
  }

  /** The attempts run in order: every attempt before the last one made
      asked for a retry, and the last one decided the outcome, unless all
      asked for a retry and the sell was exhausted. */
  lemma {:induction false} RunAttemptsDecidedByLast(st: LedgerState, mint: string, pos: Position, percent: real,
                                                   rest: seq<SellAttempt>, made: nat)
    ensures var r := RunAttempts(st, mint, pos, percent, rest, made);
      && (forall j :: 0 <= j < r.attempts - made && j < |rest| ==>
            j < r.attempts - made - 1 || r.verdict == Exhausted ==> AttemptStep(st, mint, pos, percent, rest[j]).Retry?)
      && (r.verdict == Exhausted <==> r.attempts == made + |rest| && forall j :: 0 <= j < |rest| ==> AttemptStep(st, mint, pos, percent, rest[j]).Retry?)
      && (r.verdict == Exhausted ==> r.state == st.(journal := st.journal + [StatusUpdate(pos.buySignature, StatusSellFailed)]))
      && (r.verdict != Exhausted ==>
            made < r.attempts && AttemptStep(st, mint, pos, percent, rest[r.attempts - made - 1]) == Finish(r.state, r.verdict))
    decreases |rest|
  {
    if rest != [] {
      var r := RunAttempts(st, mint, pos, percent, rest, made);
      match AttemptStep(st, mint, pos, percent, rest[0])
      case Retry =>
        RunAttemptsDecidedByLast(st, mint, pos, percent, rest[1..], made + 1);
        assert forall j :: 1 <= j < |rest| ==> rest[j] == rest[1..][j - 1];
      case Finish(_, _) =>
    }
  }

  /** The sell's outcome in terms of its attempts: at most three are made;
      when the sell ends otherwise than exhausted, the last attempt made
      decided it and all earlier ones asked for a retry; an exhausted sell
      tried all three, leaves positions and PnL alone and only records
      SELL_FAILED. */
  lemma SellAttempts(st: LedgerState, mint: string, percent: real, outcomes: seq<SellAttempt>)
    requires |outcomes| == MaxRetries && mint in st.portfolio
    ensures var r := SellSpec(st, mint, percent, outcomes);
      var pos := st.portfolio[mint];
      && 1 <= r.attempts <= MaxRetries
      && (forall j :: 0 <= j < r.attempts - 1 ==> AttemptStep(st, mint, pos, percent, outcomes[j]).Retry?)
      && (r.verdict != Exhausted ==> AttemptStep(st, mint, pos, percent, outcomes[r.attempts - 1]) == Finish(r.state, r.verdict))
      && (r.verdict == Exhausted <==> forall j :: 0 <= j < MaxRetries ==> AttemptStep(st, mint, pos, percent, outcomes[j]).Retry?)
      && (r.verdict == Exhausted ==>
            r.attempts == MaxRetries && r.state == LedgerState(st.portfolio, st.totalPnlUsd, st.journal + [StatusUpdate(pos.buySignature, StatusSellFailed)]))
  {
    RunAttemptsDecidedByLast(st, mint, st.portfolio[mint], percent, outcomes, 0);
  }

  /** Realized PnL moves only on a confirmed sale with a known SOL/USD rate,
      and then by the sale's profit in SOL times that rate; conversely a
      confirmed sale with a known rate adds exactly that profit, and one
      with an unknown rate leaves the PnL as it was. */
  lemma SellPnlOnlyOnConfirmedSale(st: LedgerState, mint: string, percent: real, outcomes: seq<SellAttempt>)
    requires |outcomes| == MaxRetries
    ensures var r := SellSpec(st, mint, percent, outcomes);
      r.state.totalPnlUsd != st.totalPnlUsd ==>
        && r.verdict == Sold && mint in st.portfolio && 1 <= r.attempts <= MaxRetries
        && var a := outcomes[r.attempts - 1];
           && a.BalanceRead? && a.swap.Confirmed? && a.swap.solPriceUsd > 0.0
           && r.state.totalPnlUsd
              == st.totalPnlUsd + ProfitSol(st.portfolio[mint], percent, a.swap.outAmount) * a.swap.solPriceUsd
    ensures var r := SellSpec(st, mint, percent, outcomes);
      r.verdict == Sold ==>
        && mint in st.portfolio && 1 <= r.attempts <= MaxRetries
        && var a := outcomes[r.attempts - 1];
           && a.BalanceRead? && a.swap.Confirmed?
           && r.state.totalPnlUsd
              == st.totalPnlUsd
                 + (if a.swap.solPriceUsd > 0.0 then ProfitSol(st.portfolio[mint], percent, a.swap.outAmount) * a.swap.solPriceUsd else 0.0)
  {
    if mint in st.portfolio {
      SellAttempts(st, mint, percent, outcomes);
    }
  }

  /** The first attempt that does not ask for a retry decides the sell:
      a zero live balance removes the position and records SOLD but
      returns false, a rounded amount of zero or less returns false with
      no change, and a confirmed swap sells. */
  lemma SellDecidedAt(st: LedgerState, mint: string, percent: real, outcomes: seq<SellAttempt>, k: nat)
    requires |outcomes| == MaxRetries && mint in st.portfolio && k < MaxRetries
    requires forall j :: 0 <= j < k ==> AttemptStep(st, mint, st.portfolio[mint], percent, outcomes[j]).Retry?
    requires AttemptStep(st, mint, st.portfolio[mint], percent, outcomes[k]).Finish?
    ensures var r := SellSpec(st, mint, percent, outcomes);
      var pos := st.portfolio[mint];
      var a := outcomes[k];
      && r.attempts == k + 1
      && Finish(r.state, r.verdict) == AttemptStep(st, mint, pos, percent, a)
      && (a.BalanceRead? && a.balance == 0 ==>
            r.verdict == ClosedExternally && mint !in r.state.portfolio
            && r.state.journal == st.journal + [StatusUpdate(pos.buySignature, StatusSold)])
      && (a.BalanceRead? && a.balance != 0 && AmountToSell(a.balance, percent) <= 0 ==>
            r.verdict == NothingToSell && r.state == st)
      && (a.BalanceRead? && a.balance != 0 && AmountToSell(a.balance, percent) > 0 ==>
            a.swap.Confirmed? && r.verdict == Sold)
  {
    SellAttempts(st, mint, percent, outcomes);
  }

  /** A successful partial sell changes only the position's amount, to the
      live balance minus the amount sold; a successful full sell removes the
      position. */
  lemma SellSuccessEffect(st: LedgerState, mint: string, percent: real, outcomes: seq<SellAttempt>)
    requires |outcomes| == MaxRetries
    ensures var r := SellSpec(st, mint, percent, outcomes);
      r.verdict == Sold ==>
        && mint in st.portfolio && 1 <= r.attempts <= MaxRetries
        && outcomes[r.attempts - 1].BalanceRead?
        && var b := outcomes[r.attempts - 1].balance;
           if percent == 100.0 then r.state.portfolio == st.portfolio - {mint}
           else r.state.portfolio == st.portfolio[mint := st.portfolio[mint].(amount := b - AmountToSell(b, percent))]
  {
    if mint in st.portfolio {
      SellAttempts(st, mint, percent, outcomes);
    }
  }

  /** A sell of 100% leaves the position out of the ledger whenever it did
      not exhaust its attempts: sold, or found closed on chain. */
  lemma FullSellRemoves(st: LedgerState, mint: string, outcomes: seq<SellAttempt>)
    requires |outcomes| == MaxRetries && mint in st.portfolio
    ensures var r := SellSpec(st, mint, 100.0, outcomes);
      (mint in r.state.portfolio <==> r.verdict == Exhausted)
      && r.verdict != NothingToSell
  {
    SellAttempts(st, mint, 100.0, outcomes);
  }

  /** A sell touches no other position, changes at most the amount of its
      own, records only appended to the journal, and keeps the ledger
      valid. */
  lemma SellFollows(st: LedgerState, mint: string, percent: real, outcomes: seq<SellAttempt>)
    requires |outcomes| == MaxRetries
    ensures var r := SellSpec(st, mint, percent, outcomes);
      && Follows(st, r.state)
      && (mint in r.state.portfolio ==> r.state.portfolio[mint] == st.portfolio[mint].(amount := r.state.portfolio[mint].amount))
      && (forall m :: m != mint ==> (m in r.state.portfolio <==> m in st.portfolio))
      && (forall m :: m != mint && m in st.portfolio ==> r.state.portfolio[m] == st.portfolio[m])
      && (ValidState(st) ==> ValidState(r.state))
  {
    if mint in st.portfolio {
      SellAttempts(st, mint, percent, outcomes);
      var r := SellSpec(st, mint, percent, outcomes);
      assert st.journal <= r.state.journal;
    }
  }

  // ---------------------------------------------------------------------
  // Exit policy

  /** The profit of the position at `price`, in percent. */
  function PnlPercent(pos: Position, price: real): real
    requires pos.purchasePrice > 0.0
  {
    (price - pos.purchasePrice) / pos.purchasePrice * 100.0
  }

  /** The drop of `price` below `peak`, in percent of the peak. */
  function DropFromPeak(peak: real, price: real): real
    requires peak > 0.0
  {
    (peak - price) / peak * 100.0
  }

  /** The peak after seeing `price`. */
  function Peak(pos: Position, price: real): (r: real)
    ensures r >= pos.highestPriceSeen && r >= price
    ensures r == pos.highestPriceSeen || r == price
  {
    if price > pos.highestPriceSeen then price else pos.highestPriceSeen
  }

  function HeldMinutes(pos: Position, now: int): real {
    (now - pos.purchaseTimestamp) as real / MsPerMinute
  }

  /** The exit rules, in priority order. */
  datatype ExitRule = ZeroPrice | TrailingStop | StopLoss | StaleDanger | DeepLossDanger

  /** A take-profit: a tier of a GOOD position, or the single WARNING or
      DANGER target. */
  datatype Target = GoodTier(level: nat) | WarningTarget | DangerTarget

  /** What one monitor tick does with a position. Exits sell 100%. */
  datatype Action = Hold | Exit(rule: ExitRule) | TakeProfit(target: Target, percent: real)

  function TierOf(cfg: Config, level: int): ProfitTier
    requires 1 <= level <= 3
  {
    if level == 1 then cfg.tp1 else if level == 2 then cfg.tp2 else cfg.tp3
  }

  /** Tier `level` has been reached and not yet taken. */
  predicate TierOpen(cfg: Config, levels: seq<int>, pnl: real, level: int)
    requires 1 <= level <= 3
  {
    pnl >= TierOf(cfg, level).profitPercent && level !in levels
  }

  /** handleGoodRisk's choice: the highest tier that is open, if any. */
  function GoodTierChoice(cfg: Config, levels: seq<int>, pnl: real): (r: Option<int>)
    ensures r.Some? ==> 1 <= r.value <= 3 && TierOpen(cfg, levels, pnl, r.value)
    ensures r.Some? ==> forall l :: r.value < l <= 3 ==> !TierOpen(cfg, levels, pnl, l)
    ensures r.None? <==> forall l :: 1 <= l <= 3 ==> !TierOpen(cfg, levels, pnl, l)
  {
    if TierOpen(cfg, levels, pnl, 3) then Some(3)
    else if TierOpen(cfg, levels, pnl, 2) then Some(2)
    else if TierOpen(cfg, levels, pnl, 1) then Some(1)
    else None
  }

  /** The risk-specific take-profit ladder (handleGoodRisk,
      handleWarningRisk, handleDangerRisk). */
  function TakeProfitFor(cfg: Config, risk: RiskLevel, levels: seq<int>, pnl: real): (r: Action)
    ensures r.Hold? || r.TakeProfit?
    ensures r.TakeProfit? && r.target.GoodTier? ==>
      risk == Good && 1 <= r.target.level <= 3 && TierOpen(cfg, levels, pnl, r.target.level)
      && r.percent == TierOf(cfg, r.target.level).sellPercent
    ensures r.TakeProfit? && !r.target.GoodTier? ==> r.percent == 100.0
    ensures risk == Good ==>
      && (r.TakeProfit? <==> GoodTierChoice(cfg, levels, pnl).Some?)
      && (r.TakeProfit? ==> r.target == GoodTier(GoodTierChoice(cfg, levels, pnl).value))
    ensures r == TakeProfit(WarningTarget, 100.0) <==> risk == Warning && pnl >= cfg.takeProfitPercentWarning
    ensures r == TakeProfit(DangerTarget, 100.0) <==> risk == Danger && pnl >= cfg.takeProfitPercentDanger
  {
    match risk
    case Good =>
      var choice := GoodTierChoice(cfg, levels, pnl);
      if choice.Some? then TakeProfit(GoodTier(choice.value), TierOf(cfg, choice.value).sellPercent) else Hold
    case Warning =>
      if pnl >= cfg.takeProfitPercentWarning then TakeProfit(WarningTarget, 100.0) else Hold
    case Danger =>
      if pnl >= cfg.takeProfitPercentDanger then TakeProfit(DangerTarget, 100.0) else Hold
  }

  /** The exit decision of one monitor tick for a position at `price`, at
      time `now` (milliseconds): the first rule that applies, in the order
      zero price, trailing stop, stop loss, stale DANGER, deep-loss DANGER,
      then the take-profit ladder. The trailing stop measures the drop from
      the peak including `price`. */
  function Decide(pos: Position, price: real, now: int, cfg: Config): Action
    requires Priced(pos)
  {
    if price == 0.0 then Exit(ZeroPrice)
    else
      var pnl := PnlPercent(pos, price);
      var drop := DropFromPeak(Peak(pos, price), price);
      if pnl > 0.0 && drop >= cfg.trailingStopLossPercent then Exit(TrailingStop)
      else if pnl <= HardStopPercent then Exit(StopLoss)
      else if pos.riskLevel == Danger && pnl > 0.0 && HeldMinutes(pos, now) > cfg.staleDangerCoinMinutes as real then
        Exit(StaleDanger)
      else if pos.riskLevel == Danger && pnl <= cfg.deepLossPercentDanger then Exit(DeepLossDanger)
      else TakeProfitFor(cfg, pos.riskLevel, pos.profitTakenLevels, pnl)
  }

  /** The sign of the profit is the sign of price minus purchase price. */
  lemma PnlSign(pos: Position, price: real)
    requires pos.purchasePrice > 0.0
    ensures PnlPercent(pos, price) > 0.0 <==> price > pos.purchasePrice
    ensures PnlPercent(pos, price) <= HardStopPercent <==> price <= 0.9 * pos.purchasePrice
  {
    var p := pos.purchasePrice;
    var pnl := PnlPercent(pos, price);
    assert pnl * p == (price - p) * 100.0;
    ScaleByPositive(0.0, pnl, p);
    ScaleByPositive(pnl, HardStopPercent, p);
  }

  /** Multiplying by a positive factor keeps the order of two reals. */
  lemma ScaleByPositive(x: real, y: real, p: real)
    requires p > 0.0
    ensures x <= y <==> x * p <= y * p
    ensures x < y <==> x * p < y * p
  {
    assert y * p - x * p == (y - x) * p;
  }

  /** The exit rules fire one at a time in their priority order: each
      fires exactly when its own condition holds and no earlier rule's
      does; when none fires, the risk level's take-profit ladder decides. */
  lemma ExitRulesInOrder(pos: Position, price: real, now: int, cfg: Config)
    requires Priced(pos)
    ensures var a := Decide(pos, price, now, cfg);
      var pnl := PnlPercent(pos, price);
      var trailing := pnl > 0.0 && DropFromPeak(Peak(pos, price), price) >= cfg.trailingStopLossPercent;
      var stale := pos.riskLevel == Danger && pnl > 0.0 && HeldMinutes(pos, now) > cfg.staleDangerCoinMinutes as real;
      var deep := pos.riskLevel == Danger && pnl <= cfg.deepLossPercentDanger;
      && (a == Exit(ZeroPrice) <==> price == 0.0)
      && (a == Exit(TrailingStop) <==> price != 0.0 && trailing)
      && (a == Exit(StopLoss) <==> price != 0.0 && !trailing && pnl <= HardStopPercent)
      && (a == Exit(StaleDanger) <==> price != 0.0 && !trailing && pnl > HardStopPercent && stale)
      && (a == Exit(DeepLossDanger) <==> price != 0.0 && !trailing && pnl > HardStopPercent && !stale && deep)
      && (!a.Exit? <==> price != 0.0 && !trailing && pnl > HardStopPercent && !stale && !deep)
      && (!a.Exit? ==> a == TakeProfitFor(cfg, pos.riskLevel, pos.profitTakenLevels, pnl))
  {
  }

  /** The trailing stop never fires on a position at or below its purchase
      price, and when it fires the price is at least the configured
      percentage below the peak. */
  lemma TrailingStopOnlyInProfit(pos: Position, price: real, now: int, cfg: Config)
    requires Priced(pos)
    ensures Decide(pos, price, now, cfg) == Exit(TrailingStop) ==>
      price > pos.purchasePrice && DropFromPeak(Peak(pos, price), price) >= cfg.trailingStopLossPercent
    ensures price <= pos.purchasePrice ==> Decide(pos, price, now, cfg) != Exit(TrailingStop)
  {
    PnlSign(pos, price);
  }

  /** A GOOD position whose profit jumps past every tier, while no exit rule
      fires, takes only the highest tier in that tick, selling its
      configured percentage. */
  lemma JumpTakesTopTierOnly(pos: Position, price: real, now: int, cfg: Config)
    requires Priced(pos) && pos.riskLevel == Good
    requires 3 !in pos.profitTakenLevels && PnlPercent(pos, price) >= cfg.tp3.profitPercent
    ensures var a := Decide(pos, price, now, cfg);
      !a.Exit? ==> a == TakeProfit(GoodTier(3), cfg.tp3.sellPercent)
  {
    ExitRulesInOrder(pos, price, now, cfg);
  }

  /** An unknown (zero) price, or a price 10% or more below the purchase
      price, always decides to exit. */
  lemma LossesAlwaysExit(pos: Position, price: real, now: int, cfg: Config)
    requires Priced(pos)
    ensures price == 0.0 ==> Decide(pos, price, now, cfg) == Exit(ZeroPrice)
    ensures price != 0.0 && price <= 0.9 * pos.purchasePrice ==> Decide(pos, price, now, cfg) == Exit(StopLoss)
  {
    PnlSign(pos, price);
  }

  /** The DANGER-only rules fire only for DANGER positions; the stale rule
      only in profit and after the configured holding time. */
  lemma DangerRulesOnlyForDanger(pos: Position, price: real, now: int, cfg: Config)
    requires Priced(pos)
    ensures Decide(pos, price, now, cfg) in {Exit(StaleDanger), Exit(DeepLossDanger)} ==> pos.riskLevel == Danger
    ensures Decide(pos, price, now, cfg) == Exit(StaleDanger) ==>
      price > pos.purchasePrice && HeldMinutes(pos, now) > cfg.staleDangerCoinMinutes as real
  {
    PnlSign(pos, price);
  }

  /** A take-profit fires only at a known price above the hard stop, and the
      GOOD ladder takes the highest open tier. */
  lemma TakeProfitOnlyWhenReached(pos: Position, price: real, now: int, cfg: Config)
    requires Priced(pos)
    ensures var a := Decide(pos, price, now, cfg);
      a.TakeProfit? ==>
        && price != 0.0 && price > 0.9 * pos.purchasePrice
        && (a.target.GoodTier? ==>
              && pos.riskLevel == Good
              && TierOpen(cfg, pos.profitTakenLevels, PnlPercent(pos, price), a.target.level)
              && forall l :: a.target.level < l <= 3 ==> !TierOpen(cfg, pos.profitTakenLevels, PnlPercent(pos, price), l))
        && (a.target == WarningTarget ==> pos.riskLevel == Warning && PnlPercent(pos, price) >= cfg.takeProfitPercentWarning)
        && (a.target == DangerTarget ==> pos.riskLevel == Danger && PnlPercent(pos, price) >= cfg.takeProfitPercentDanger)
  {
    PnlSign(pos, price);
  }

  // ---------------------------------------------------------------------
  // Monitor tick

  /** The position record after the tick has seen `price`: the peak is
      raised when the price exceeds it. */
  function Touch(pos: Position, price: real): (r: Position)
    ensures r == pos.(highestPriceSeen := Peak(pos, price))
    ensures Evolves(pos, r) && r.highestPriceSeen >= price
    ensures ValidPosition(pos) ==> ValidPosition(r)
  {
    if price > pos.highestPriceSeen then pos.(highestPriceSeen := price) else pos
  }

  /** Tiers 2 and 1 are recorded before their sell; tier 3 never is. */
  predicate RecordedBeforeSale(t: Target) {
    t.GoodTier? && (t.level == 1 || t.level == 2)
  }

  /** Carries out the decision for `mint`: exits sell 100%, a take-profit
      first records its tier when it is tier 1 or 2 and then sells. */
  function ApplyAction(st: LedgerState, mint: string, a: Action, outcomes: seq<SellAttempt>): (r: LedgerState)
    requires |outcomes| == MaxRetries && mint in st.portfolio
  {
    match a
    case Hold => st
    case Exit(_) => SellSpec(st, mint, 100.0, outcomes).state
    case TakeProfit(t, percent) =>
      var pos := st.portfolio[mint];
      var st' := if RecordedBeforeSale(t) then st.(portfolio := st.portfolio[mint := pos.(profitTakenLevels := pos.profitTakenLevels + [t.level])])
                 else st;
      SellSpec(st', mint, percent, outcomes).state
  }

  /** One iteration of monitorPortfolio for `mint` at `price`: raise the
      peak, decide, act. A mint that left the ledger is skipped. */
  function MonitorStep(st: LedgerState, cfg: Config, mint: string, price: real, now: int,
                       outcomes: seq<SellAttempt>): LedgerState
    requires ValidState(st) && |outcomes| == MaxRetries
  {
    if mint !in st.portfolio then st
    else
      var pos := st.portfolio[mint];
      ApplyAction(st.(portfolio := st.portfolio[mint := Touch(pos, price)]), mint, Decide(pos, price, now, cfg), outcomes)
  }

  /** Recording tier 1 or 2 keeps the position valid when the tier was open. */
  lemma RecordKeepsValid(pos: Position, level: int)
    requires ValidPosition(pos) && (level == 1 || level == 2) && level !in pos.profitTakenLevels
    ensures ValidPosition(pos.(profitTakenLevels := pos.profitTakenLevels + [level]))
    ensures Evolves(pos, pos.(profitTakenLevels := pos.profitTakenLevels + [level]))
  {
  }

  /** `r` differs from `st` at most in `mint`'s entry. */
  ghost predicate OnlyTouches(st: LedgerState, r: LedgerState, mint: string) {
    && (forall m :: m != mint ==> (m in r.portfolio <==> m in st.portfolio))
    && (forall m :: m != mint && m in st.portfolio ==> r.portfolio[m] == st.portfolio[m])
  }

  /** Carrying out a decision keeps the ledger valid, touches only its own
      mint and leaves that position's peak as it was. */
  lemma ApplyActionFollows(st: LedgerState, mint: string, a: Action, outcomes: seq<SellAttempt>)
    requires ValidState(st) && |outcomes| == MaxRetries && mint in st.portfolio
    requires a.TakeProfit? && RecordedBeforeSale(a.target) ==> a.target.level !in st.portfolio[mint].profitTakenLevels
    ensures var r := ApplyAction(st, mint, a, outcomes);
      && ValidState(r) && Follows(st, r) && OnlyTouches(st, r, mint)
      && (mint in r.portfolio ==> r.portfolio[mint].highestPriceSeen == st.portfolio[mint].highestPriceSeen)
  {
    match a
    case Hold =>
    case Exit(_) =>
      SellFollows(st, mint, 100.0, outcomes);
    case TakeProfit(t, percent) =>
      var pos := st.portfolio[mint];
      var st2 := if RecordedBeforeSale(t) then st.(portfolio := st.portfolio[mint := pos.(profitTakenLevels := pos.profitTakenLevels + [t.level])])
                 else st;
      if RecordedBeforeSale(t) {
        RecordKeepsValid(pos, t.level);
        assert Follows(st, st2);
      }
      SellFollows(st2, mint, percent, outcomes);
      FollowsTransitive(st, st2, SellSpec(st2, mint, percent, outcomes).state);
  }

  /** One monitor step keeps the ledger valid, touches only its own mint,
      lets that position only evolve, and leaves it with a peak at or above
      the price seen. */
  lemma MonitorStepFollows(st: LedgerState, cfg: Config, mint: string, price: real, now: int,
                           outcomes: seq<SellAttempt>)
    requires ValidState(st) && |outcomes| == MaxRetries
    ensures var r := MonitorStep(st, cfg, mint, price, now, outcomes);
      && ValidState(r) && Follows(st, r)
      && (forall m :: m != mint ==> (m in r.portfolio <==> m in st.portfolio))
      && (forall m :: m != mint && m in st.portfolio ==> r.portfolio[m] == st.portfolio[m])
      && (mint in r.portfolio ==> r.portfolio[mint].highestPriceSeen >= price)
  {
    if mint in st.portfolio {
      var pos := st.portfolio[mint];
      var st1 := st.(portfolio := st.portfolio[mint := Touch(pos, price)]);
      assert Follows(st, st1) && OnlyTouches(st, st1, mint);
      var a := Decide(pos, price, now, cfg);
      TakeProfitOnlyWhenReached(pos, price, now, cfg);
      ApplyActionFollows(st1, mint, a, outcomes);
      var r := ApplyAction(st1, mint, a, outcomes);
      FollowsTransitive(st, st1, r);
      assert OnlyTouches(st, r, mint);
    }
  }

  /** What one monitor step does with the decision it makes: an exit sells
      100% and leaves the position only when every attempt failed; a hold
      changes nothing but the peak; a take-profit of tier 1 or 2 records
      its tier before selling, so a position that stays open is not taken
      at that tier again at the same price and time. */
  lemma MonitorStepEffect(st: LedgerState, cfg: Config, mint: string, price: real, now: int,
                          outcomes: seq<SellAttempt>)
    requires ValidState(st) && |outcomes| == MaxRetries && mint in st.portfolio
    ensures var pos := st.portfolio[mint];
      var st1 := st.(portfolio := st.portfolio[mint := Touch(pos, price)]);
      var a := Decide(pos, price, now, cfg);
      var r := MonitorStep(st, cfg, mint, price, now, outcomes);
      && (a.Exit? ==> r == SellSpec(st1, mint, 100.0, outcomes).state
                      && (mint in r.portfolio <==> SellSpec(st1, mint, 100.0, outcomes).verdict == Exhausted))
      && (a.Hold? ==> r == st1)
      && (a.TakeProfit? && RecordedBeforeSale(a.target) && mint in r.portfolio ==>
            && a.target.level in r.portfolio[mint].profitTakenLevels
            && Priced(r.portfolio[mint])
            && Decide(r.portfolio[mint], price, now, cfg) != a)
      && (a.TakeProfit? ==>
            var p1 := st1.portfolio[mint];
            var st2 := if RecordedBeforeSale(a.target)
                       then st1.(portfolio := st1.portfolio[mint := p1.(profitTakenLevels := p1.profitTakenLevels + [a.target.level])])
                       else st1;
            r == SellSpec(st2, mint, a.percent, outcomes).state)
  {
    var pos := st.portfolio[mint];
    var st1 := st.(portfolio := st.portfolio[mint := Touch(pos, price)]);
    var a := Decide(pos, price, now, cfg);
    TakeProfitOnlyWhenReached(pos, price, now, cfg);
    match a
    case Hold =>
    case Exit(_) =>
      FullSellRemoves(st1, mint, outcomes);
    case TakeProfit(t, percent) =>
      if RecordedBeforeSale(t) {
        var p1 := st1.portfolio[mint];
        var st2 := st1.(portfolio := st1.portfolio[mint := p1.(profitTakenLevels := p1.profitTakenLevels + [t.level])]);
        SellFollows(st2, mint, percent, outcomes);
        var r := SellSpec(st2, mint, percent, outcomes).state;
        if mint in r.portfolio {
          var q := r.portfolio[mint];
          assert t.level in q.profitTakenLevels;
          assert Peak(q, price) == Peak(pos, price);
          TakeProfitOnlyWhenReached(q, price, now, cfg);
        }
      }
  }

  /** Tier 3 is never recorded: when a GOOD position takes its third tier
      and stays open, the next tick at the same price and time takes the
      same tier again. */
  lemma TopTierRepeats(st: LedgerState, cfg: Config, mint: string, price: real, now: int,
                       outcomes: seq<SellAttempt>)
    requires ValidState(st) && |outcomes| == MaxRetries && mint in st.portfolio
    requires Decide(st.portfolio[mint], price, now, cfg).TakeProfit?
    requires Decide(st.portfolio[mint], price, now, cfg).target == GoodTier(3)
    ensures var r := MonitorStep(st, cfg, mint, price, now, outcomes);
      mint in r.portfolio ==>
        && r.portfolio[mint].profitTakenLevels == st.portfolio[mint].profitTakenLevels
        && Priced(r.portfolio[mint])
        && Decide(r.portfolio[mint], price, now, cfg) == Decide(st.portfolio[mint], price, now, cfg)
  {
    var pos := st.portfolio[mint];
    var touched := Touch(pos, price);
    var st1 := st.(portfolio := st.portfolio[mint := touched]);
    var percent := Decide(pos, price, now, cfg).percent;
    var r := SellSpec(st1, mint, percent, outcomes);
    SellFollows(st1, mint, percent, outcomes);
    if mint in r.state.portfolio {
      assert Peak(r.state.portfolio[mint], price) == Peak(pos, price);
    }
  }

  /** The realized PnL charges each sale with its percentage of the whole
      original cost, whatever was sold before: selling half and then the
      rest, receiving 0.5 SOL each time for a 1 SOL position, books a
      loss of half the cost although the proceeds equal the cost. */
  lemma CostBasisCountedPerSale()
    ensures var pos := Position(1.0, 1000, 1.0, Good, [], 0, 1.0, "buy");
      var st := LedgerState(map["mint" := pos], 0.0, []);
      var first := [BalanceRead(1000, Confirmed(500000000, 100.0, TxResult("s1", 0.0), [])), BalanceReadFailed, BalanceReadFailed];
      var half := SellSpec(st, "mint", 50.0, first);
      var second := [BalanceRead(500, Confirmed(500000000, 100.0, TxResult("s2", 0.0), [])), BalanceReadFailed, BalanceReadFailed];
      var rest := SellSpec(half.state, "mint", 100.0, second);
      && half.verdict == Sold && half.state.portfolio["mint"].amount == 500
      && rest.verdict == Sold && "mint" !in rest.state.portfolio
      && rest.state.totalPnlUsd == -50.0
  {
    var pos := Position(1.0, 1000, 1.0, Good, [], 0, 1.0, "buy");
    assert AmountToSell(1000, 50.0) == 500;
    assert AmountToSell(500, 100.0) == 500;
  }

  /** monitorPortfolio: one step per mint of the snapshot `order`, in order.
      `priceOf` is the price oracle, `clockOf(m)` the clock reading (in
      milliseconds) taken when `m`'s turn comes, after the price fetches
      and sells of the mints before it, and `sells(m)` the outcomes of the
      sell attempts the tick makes for `m`. */
  function TickSpec(st: LedgerState, cfg: Config, order: seq<string>, priceOf: string -> real, clockOf: string -> int,
                    sells: string -> seq<SellAttempt>): (r: LedgerState)
    requires ValidState(st) && forall m :: |sells(m)| == MaxRetries
    ensures ValidState(r)
    decreases |order|
  {
    if order == [] then st
    else
      var m := order[0];
      MonitorStepFollows(st, cfg, m, priceOf(m), clockOf(m), sells(m));
      TickSpec(MonitorStep(st, cfg, m, priceOf(m), clockOf(m), sells(m)), cfg, order[1..], priceOf, clockOf, sells)
  }

  /** A tick over an empty portfolio changes nothing, whatever mints it is
      asked to visit. */
  lemma {:induction false} TickOfEmpty(st: LedgerState, cfg: Config, order: seq<string>, priceOf: string -> real,
                                       clockOf: string -> int, sells: string -> seq<SellAttempt>)
    requires ValidState(st) && forall m :: |sells(m)| == MaxRetries
    requires st.portfolio == map[]
    ensures TickSpec(st, cfg, order, priceOf, clockOf, sells) == st
    decreases |order|
  {
    if order != [] {
      TickOfEmpty(st, cfg, order[1..], priceOf, clockOf, sells);
    }
  }

  /** Across a whole tick no position appears, every surviving position
      evolves (its peak never decreases and its taken tiers only grow),
      and every surviving visited position has a peak at or above the price
      the tick saw for it. */
  lemma {:induction false} TickFollows(st: LedgerState, cfg: Config, order: seq<string>, priceOf: string -> real,
                                       clockOf: string -> int, sells: string -> seq<SellAttempt>)
    requires ValidState(st) && forall m :: |sells(m)| == MaxRetries
    ensures var r := TickSpec(st, cfg, order, priceOf, clockOf, sells);
      && Follows(st, r)
      && forall i :: 0 <= i < |order| && order[i] in r.portfolio ==> r.portfolio[order[i]].highestPriceSeen >= priceOf(order[i])
    decreases |order|
  {
    if order != [] {
      var m := order[0];
      var st1 := MonitorStep(st, cfg, m, priceOf(m), clockOf(m), sells(m));
      MonitorStepFollows(st, cfg, m, priceOf(m), clockOf(m), sells(m));
      TickFollows(st1, cfg, order[1..], priceOf, clockOf, sells);
      var r := TickSpec(st, cfg, order, priceOf, clockOf, sells);
      assert r == TickSpec(st1, cfg, order[1..], priceOf, clockOf, sells);
      FollowsTransitive(st, st1, r);
      forall i | 0 <= i < |order| && order[i] in r.portfolio
        ensures r.portfolio[order[i]].highestPriceSeen >= priceOf(order[i])
      {
        if i == 0 {
          assert Evolves(st1.portfolio[m], r.portfolio[m]);
        } else {
          assert order[i] == order[1..][i - 1];
        }
      }
    }
  }
}
