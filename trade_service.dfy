/** The trade executor as the program runs it: the ledger object whose
    portfolio, realized PnL and record journal its operations update in
    place. Each operation is proved to leave exactly the state the
    corresponding function of TradeModel describes, and to keep every open
    position valid. */
module TradeService {
  import opened Common
  import opened TradeModel

  /** closeTokenAccount: up to three attempts to close the emptied token
      account, stopping at the first confirmed one. It never touches the
      ledger; `confirmations[i]` says whether attempt i confirmed (a thrown
      attempt counts as unconfirmed). */
  method CloseTokenAccount(confirmations: seq<bool>) returns (closed: bool)
    ensures closed <==> exists i :: 0 <= i < 3 && i < |confirmations| && confirmations[i]
  {
    var i := 0;
    while i < 3 && i < |confirmations|
      invariant 0 <= i <= 3
      invariant forall j :: 0 <= j < i && j < |confirmations| ==> !confirmations[j]
    {
      if confirmations[i] {
        return true;
      }
      i := i + 1;
    }
    return false;
  }

  class Ledger {
    const cfg: Config
    /** Open positions by mint address. */
    var portfolio: map<string, Position>
    /** Realized profit and loss in USD. */
    var totalPnlUsd: real
    /** The records written to the trade database, oldest first. */
    var journal: seq<Record>

    function State(): LedgerState
      reads this
    {
      LedgerState(portfolio, totalPnlUsd, journal)
    }

    ghost predicate Valid()
      reads this
    {
      ValidState(State())
    }

    constructor (cfg: Config)
      ensures this.cfg == cfg && State() == LedgerState(map[], 0.0, []) && Valid()
    {
      this.cfg := cfg;
      portfolio := map[];
      totalPnlUsd := 0.0;
      journal := [];
    }

    /** buyToken(mint, risk). */
    method Buy(mint: string, risk: RiskLevel, env: BuyEnv, now: int) returns (ok: bool)
      requires Valid()
      modifies this
      ensures Valid()
      ensures BuyOutcome(State(), ok) == BuySpec(old(State()), cfg, mint, risk, env, now)
    {
      var tradeAmountSol := TradeAmountSol(cfg, risk);
      if env.walletLamports as real / LamportsPerSol < tradeAmountSol + cfg.minSolBalance {
        return false;
      }
      if env.tx.None? {
        return false;
      }
      var tx := env.tx.value;
      var purchasePrice := env.freshPrice;
      if !(purchasePrice > 0.0) {
        return false;
      }
      if env.heldAmount.None? {
        return false;
      }
      portfolio := portfolio[mint := Position(purchasePrice, env.heldAmount.value, tradeAmountSol, risk, [], now,
                                              purchasePrice, tx.signature)];
      journal := journal + [Purchased(mint)];
      journal := journal + [Trade(BuyTrade, mint, tradeAmountSol, tx.signature)];
      ok := env.blacklistCallSucceeds;
    }

    /** One attempt of sellToken on `mint`, whose record when the sell
        began was `position`: the body of its retry loop. `done` says the
        attempt ended the sell, `sold` that it ended it with a sale. */
    method TryAttempt(mint: string, position: Position, percent: real, a: SellAttempt) returns (done: bool, sold: bool)
      modifies this
      ensures var step := AttemptStep(old(State()), mint, position, percent, a);
        && (done <==> step.Finish?)
        && (step.Retry? ==> State() == old(State()) && !sold)
        && (step.Finish? ==> State() == step.state && (sold <==> step.verdict == Sold))
    {
      done, sold := false, false;
      if a.BalanceRead? {
        var onChainBalance := a.balance;
        if onChainBalance == 0 {
          portfolio := portfolio - {mint};
          journal := journal + [StatusUpdate(position.buySignature, StatusSold)];
          return true, false;
        }
        var amountToSell := AmountToSell(onChainBalance, percent);
        if amountToSell <= 0 {
          return true, false;
        }
        if a.swap.Confirmed? {
          var receivedSol := a.swap.outAmount as real / LamportsPerSol;
          var profitInSol := ProfitSol(position, percent, a.swap.outAmount);
          if a.swap.solPriceUsd > 0.0 {
            totalPnlUsd := totalPnlUsd + profitInSol * a.swap.solPriceUsd;
          }
          journal := journal + [Trade(SellTrade, mint, receivedSol, a.swap.tx.signature)];
          if percent == 100.0 {
            portfolio := portfolio - {mint};
            journal := journal + [StatusUpdate(position.buySignature, StatusSold)];
            // The outcome of closing the emptied account is not used.
            var _ := CloseTokenAccount(a.swap.closeResults);
          } else {
            portfolio := portfolio[mint := position.(amount := onChainBalance - amountToSell)];
          }
          return true, true;
        }
      }
    }

    /** sellToken(mint, percent): up to three attempts, each re-reading the
        live balance. True only for a confirmed sale. */
    method Sell(mint: string, percent: real, outcomes: seq<SellAttempt>) returns (sold: bool)
      requires Valid() && |outcomes| == MaxRetries
      modifies this
      ensures Valid()
      ensures State() == SellSpec(old(State()), mint, percent, outcomes).state
      ensures sold <==> SellSpec(old(State()), mint, percent, outcomes).verdict == Sold
    {
      ghost var st0 := State();
      if mint !in portfolio {
        return false;
      }
      var position := portfolio[mint];
      var attempt := 1;
      while attempt <= MaxRetries
        invariant 1 <= attempt <= MaxRetries + 1
        invariant State() == st0
        invariant SellSpec(st0, mint, percent, outcomes)
          == RunAttempts(st0, mint, position, percent, outcomes[attempt - 1..], attempt - 1)
      {
        var done;
        done, sold := TryAttempt(mint, position, percent, outcomes[attempt - 1]);
        if done {
          SellFollows(st0, mint, percent, outcomes);
          return;
        }
        assert outcomes[attempt - 1..][1..] == outcomes[attempt..];
        attempt := attempt + 1;
      }
      journal := journal + [StatusUpdate(position.buySignature, StatusSellFailed)];
      SellFollows(st0, mint, percent, outcomes);
      return false;
    }

    /** handleGoodRisk: sells the highest open tier's percentage, recording
        tiers 2 and 1 first. `position` is the record the ledger holds for
        `mint`. */
    method HandleGoodRisk(position: Position, pnlPercentage: real, mint: string, outcomes: seq<SellAttempt>)
      requires Valid() && |outcomes| == MaxRetries
      requires mint in portfolio && portfolio[mint] == position
      modifies this
      ensures Valid()
      ensures State() == ApplyAction(old(State()), mint, TakeProfitFor(cfg, Good, position.profitTakenLevels, pnlPercentage), outcomes)
    {
      var tp1, tp2, tp3 := cfg.tp1, cfg.tp2, cfg.tp3;
      var sold;
      if pnlPercentage >= tp3.profitPercent && 3 !in position.profitTakenLevels {
        sold := Sell(mint, tp3.sellPercent, outcomes);
      } else if pnlPercentage >= tp2.profitPercent && 2 !in position.profitTakenLevels {
        RecordKeepsValid(position, 2);
        portfolio := portfolio[mint := position.(profitTakenLevels := position.profitTakenLevels + [2])];
        sold := Sell(mint, tp2.sellPercent, outcomes);
      } else if pnlPercentage >= tp1.profitPercent && 1 !in position.profitTakenLevels {
        RecordKeepsValid(position, 1);
        portfolio := portfolio[mint := position.(profitTakenLevels := position.profitTakenLevels + [1])];
        sold := Sell(mint, tp1.sellPercent, outcomes);
      }
    }

    /** handleWarningRisk: sells everything once the WARNING target is reached. */
    method HandleWarningRisk(pnlPercentage: real, mint: string, outcomes: seq<SellAttempt>)
      requires Valid() && |outcomes| == MaxRetries
      modifies this
      ensures Valid()
      ensures pnlPercentage >= cfg.takeProfitPercentWarning ==> State() == SellSpec(old(State()), mint, 100.0, outcomes).state
      ensures pnlPercentage < cfg.takeProfitPercentWarning ==> State() == old(State())
    {
      if pnlPercentage >= cfg.takeProfitPercentWarning {
        var sold := Sell(mint, 100.0, outcomes);
      }
    }

    /** handleDangerRisk: sells everything once the DANGER target is reached. */
    method HandleDangerRisk(pnlPercentage: real, mint: string, outcomes: seq<SellAttempt>)
      requires Valid() && |outcomes| == MaxRetries
      modifies this
      ensures Valid()
      ensures pnlPercentage >= cfg.takeProfitPercentDanger ==> State() == SellSpec(old(State()), mint, 100.0, outcomes).state
      ensures pnlPercentage < cfg.takeProfitPercentDanger ==> State() == old(State())
    {
      if pnlPercentage >= cfg.takeProfitPercentDanger {
        var sold := Sell(mint, 100.0, outcomes);
      }
    }

    /** The body of monitorPortfolio's loop for one mint seen at
        `currentPrice` at time `now` (milliseconds). */
    method CheckPosition(mint: string, currentPrice: real, now: int, outcomes: seq<SellAttempt>)
      requires Valid() && |outcomes| == MaxRetries
      modifies this
      ensures Valid()
      ensures State() == MonitorStep(old(State()), cfg, mint, currentPrice, now, outcomes)
    {
      if mint !in portfolio {
        return;
      }
      var position := portfolio[mint];
      if currentPrice == 0.0 && mint in portfolio {
        assert portfolio[mint := Touch(position, currentPrice)] == portfolio;
        var sold := Sell(mint, 100.0, outcomes);
        return;
      }
      // The record as the tick found it, which the exit decision is taken on.
      ghost var seen := position;
      if currentPrice > position.highestPriceSeen {
        position := position.(highestPriceSeen := currentPrice);
        portfolio := portfolio[mint := position];
      } else {
        assert portfolio[mint := Touch(position, currentPrice)] == portfolio;
      }
      assert position == Touch(seen, currentPrice);
      var pnlPercentage := PnlPercent(position, currentPrice);
      var dropFromPeak := DropFromPeak(position.highestPriceSeen, currentPrice);
      if pnlPercentage > 0.0 && dropFromPeak >= cfg.trailingStopLossPercent {
        assert Decide(seen, currentPrice, now, cfg) == Exit(TrailingStop);
        var sold := Sell(mint, 100.0, outcomes);
        return;
      }
      if pnlPercentage <= HardStopPercent {
        assert Decide(seen, currentPrice, now, cfg) == Exit(StopLoss);
        var sold := Sell(mint, 100.0, outcomes);
        return;
      }
      var timeHeldMins := HeldMinutes(position, now);
      if position.riskLevel == Danger && pnlPercentage > 0.0 && timeHeldMins > cfg.staleDangerCoinMinutes as real {
        assert Decide(seen, currentPrice, now, cfg) == Exit(StaleDanger);
        var sold := Sell(mint, 100.0, outcomes);
        return;
      }
      if position.riskLevel == Danger && pnlPercentage <= cfg.deepLossPercentDanger {
        assert Decide(seen, currentPrice, now, cfg) == Exit(DeepLossDanger);
        var sold := Sell(mint, 100.0, outcomes);
        return;
      }
      assert Decide(seen, currentPrice, now, cfg) == TakeProfitFor(cfg, position.riskLevel, position.profitTakenLevels, pnlPercentage);
      if mint !in portfolio {
        return;
      }
      match position.riskLevel
      case Good => HandleGoodRisk(position, pnlPercentage, mint, outcomes);
      case Warning => HandleWarningRisk(pnlPercentage, mint, outcomes);
      case Danger => HandleDangerRisk(pnlPercentage, mint, outcomes);
    }

    /** monitorPortfolio: checks every open position once, in the order
        `order` in which the portfolio enumerates its mints. `priceOf` is
        the price oracle (0 when the price is unknown), `clockOf(m)` the
        clock reading taken at `m`'s turn, `sells(m)` the outcomes of the
        sell attempts made for `m` during this tick. */
    method MonitorPortfolio(order: seq<string>, priceOf: string -> real, clockOf: string -> int, sells: string -> seq<SellAttempt>)
      requires Valid() && forall m :: |sells(m)| == MaxRetries
      requires forall m :: m in order <==> m in portfolio
      requires forall i, j :: 0 <= i < j < |order| ==> order[i] != order[j]
      modifies this
      ensures Valid()
      ensures State() == TickSpec(old(State()), cfg, order, priceOf, clockOf, sells)
    {
      if |portfolio| == 0 {
        TickOfEmpty(State(), cfg, order, priceOf, clockOf, sells);
        return;
      }
      var i := 0;
      while i < |order|
        invariant 0 <= i <= |order|
        invariant Valid()
        invariant TickSpec(old(State()), cfg, order, priceOf, clockOf, sells) == TickSpec(State(), cfg, order[i..], priceOf, clockOf, sells)
      {
        var mint := order[i];
        ghost var before := State();
        CheckPosition(mint, priceOf(mint), clockOf(mint), sells(mint));
        assert order[i..][0] == mint && order[i..][1..] == order[i + 1..];
        assert TickSpec(before, cfg, order[i..], priceOf, clockOf, sells)
            == TickSpec(State(), cfg, order[i + 1..], priceOf, clockOf, sells);
        i := i + 1;
      }
    }
  }
}
