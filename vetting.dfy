/** Token vetting: the ordered guard pipeline that accepts or rejects a
    newly discovered token from an already fetched security report, the
    early-developer-sell detector that feeds it, and the derivation of the
    token's risk level. Every network fetch is an input here. */
module Vetting {
  import opened Common
  import opened Text

  /** The vetting thresholds read from the environment. */
  datatype VettingConfig = VettingConfig(
    minLiquidityUsd: real,
    maxLiquidityUsd: real,
    minMarketCapUsd: real,
    maxInitialDevSellPercent: real)

  /** The `token` part of the report. */
  datatype TokenInfo = TokenInfo(
    freezeAuthority: Option<string>,
    mintAuthority: Option<string>,
    supply: real,
    decimals: nat)

  /** One entry of the report's risk list; `level` is missing when the entry has none. */
  datatype RiskEntry = RiskEntry(level: Option<string>)

  /** The fields of the security report the pipeline reads. A missing
      `simulation` or `token` is None; a missing `risks` list reads as []. */
  datatype Report = Report(
    simulationLoss: Option<real>,
    token: Option<TokenInfo>,
    totalMarketLiquidity: real,
    price: real,
    creator: Option<string>,
    risks: seq<RiskEntry>,
    score: real)

  /** What an accepted token is summarised as. */
  datatype Summary = Summary(score: real, risks: seq<RiskEntry>, level: RiskLevel)

  /** Why a token was rejected; the source returns null in every case and
      logs which one it was. */
  datatype Rejection =
    | NoReport | Honeypot | Freezable | Mintable | LowLiquidity | HighLiquidity
    | LowMarketCap | EarlyDevSell | ReportError

  // ---------------------------------------------------------------------
  // Early developer sell

  /** A token balance row of a parsed transaction. */
  datatype Holding = Holding(owner: string, mint: string, amount: int)

  /** The result of fetching one transaction: the fetch threw, the
      transaction or its meta was missing, or its token balances. */
  datatype TxFetch = FetchThrows | NoMeta | Meta(pre: seq<Holding>, post: seq<Holding>)

  /** One recent signature of the creator: its block time in seconds and
      what fetching its transaction gave. */
  datatype CreatorTx = CreatorTx(blockTime: int, fetched: TxFetch)

  /** The creator's on-chain history: a failed account lookup, or the raw
      amounts of the creator's token accounts for the mint and the recent
      signatures, newest first. */
  datatype DevHistory = LookupFailed | History(accountAmounts: seq<int>, signatures: seq<CreatorTx>)

  /** No row before index `i` belongs to `owner` for `mint`. */
  predicate NoMatchBefore(rows: seq<Holding>, owner: string, mint: string, i: int)
    requires 0 <= i <= |rows|
  {
    forall j :: 0 <= j < i ==> !(rows[j].owner == owner && rows[j].mint == mint)
  }

  /** The amount of the first balance row owned by `owner` for `mint`. */
  function FindHolding(rows: seq<Holding>, owner: string, mint: string): (r: Option<int>)
    ensures r.Some? <==> exists i :: 0 <= i < |rows| && rows[i].owner == owner && rows[i].mint == mint
    ensures r.Some? ==> exists i :: 0 <= i < |rows| && rows[i] == Holding(owner, mint, r.value) && NoMatchBefore(rows, owner, mint, i)
    decreases |rows|
  {
    if rows == [] then None
    else if rows[0].owner == owner && rows[0].mint == mint then Some(rows[0].amount)
    else
      var r := FindHolding(rows[1..], owner, mint);
      assert forall i :: 1 <= i < |rows| ==> rows[i] == rows[1..][i - 1];
      if r.Some? then
        var k :| 0 <= k < |rows| - 1 && rows[1..][k] == Holding(owner, mint, r.value) && NoMatchBefore(rows[1..], owner, mint, k);
        assert rows[k + 1] == Holding(owner, mint, r.value) && NoMatchBefore(rows, owner, mint, k + 1);
        r
      else r
  }

  /** The transaction shows the creator selling at least the threshold
      share of `initial`. */
  predicate BigSale(creator: string, mint: string, initial: int, pre: seq<Holding>, post: seq<Holding>, maxPercent: real)
    requires initial != 0
  {
    var before := FindHolding(pre, creator, mint);
    var after := FindHolding(post, creator, mint);
    before.Some? && after.Some? && before.value - after.value > 0
    && (before.value - after.value) as real / initial as real * 100.0 >= maxPercent
  }

  /** A signature older than five minutes before `nowMs` is skipped. */
  predicate Recent(tx: CreatorTx, nowMs: int) {
    !(tx.blockTime as real < nowMs as real / 1000.0 - 300.0)
  }

  /** The scan over the creator's recent signatures: skip old ones and ones
      without meta, stop with true at the first big sale, and give false
      when a fetch throws. */
  function ScanSales(creator: string, mint: string, initial: int, txs: seq<CreatorTx>, nowMs: int, maxPercent: real): bool
    requires initial != 0
    decreases |txs|
  {
    if txs == [] then false
    else
      var tx := txs[0];
      if !Recent(tx, nowMs) then ScanSales(creator, mint, initial, txs[1..], nowMs, maxPercent)
      else match tx.fetched
        case FetchThrows => false
        case NoMeta => ScanSales(creator, mint, initial, txs[1..], nowMs, maxPercent)
        case Meta(pre, post) =>
          BigSale(creator, mint, initial, pre, post, maxPercent)
          || ScanSales(creator, mint, initial, txs[1..], nowMs, maxPercent)
  }

  /** A recent transaction whose fetch threw. */
  predicate ThrowsAt(txs: seq<CreatorTx>, i: int, nowMs: int)
    requires 0 <= i < |txs|
  {
    Recent(txs[i], nowMs) && txs[i].fetched.FetchThrows?
  }

  /** A recent transaction with a big sale. */
  predicate SaleAt(creator: string, mint: string, initial: int, txs: seq<CreatorTx>, i: int, nowMs: int, maxPercent: real)
    requires initial != 0 && 0 <= i < |txs|
  {
    Recent(txs[i], nowMs) && txs[i].fetched.Meta?
    && BigSale(creator, mint, initial, txs[i].fetched.pre, txs[i].fetched.post, maxPercent)
  }

  /** A recent transaction at `k` shows a big sale and no recent fetch
      before it threw. */
  predicate FirstSaleAt(creator: string, mint: string, initial: int, txs: seq<CreatorTx>, k: int, nowMs: int, maxPercent: real)
    requires initial != 0
  {
    0 <= k < |txs| && SaleAt(creator, mint, initial, txs, k, nowMs, maxPercent)
    && forall j :: 0 <= j < k ==> !ThrowsAt(txs, j, nowMs)
  }

  /** The scan finds a sale exactly when some recent transaction shows a
      big sale and no recent fetch before it threw. */
  lemma ScanSalesExactly(creator: string, mint: string, initial: int, txs: seq<CreatorTx>, nowMs: int, maxPercent: real)
    requires initial != 0
    ensures ScanSales(creator, mint, initial, txs, nowMs, maxPercent) <==>
      exists k :: 0 <= k < |txs| && SaleAt(creator, mint, initial, txs, k, nowMs, maxPercent)
        && forall j :: 0 <= j < k ==> !ThrowsAt(txs, j, nowMs)
  {
    if ScanSales(creator, mint, initial, txs, nowMs, maxPercent) {
      var k := ScanSalesSound(creator, mint, initial, txs, nowMs, maxPercent);
      assert FirstSaleAt(creator, mint, initial, txs, k, nowMs, maxPercent);
    }
    if exists k :: 0 <= k < |txs| && SaleAt(creator, mint, initial, txs, k, nowMs, maxPercent)
                   && forall j :: 0 <= j < k ==> !ThrowsAt(txs, j, nowMs) {
      var k :| 0 <= k < |txs| && SaleAt(creator, mint, initial, txs, k, nowMs, maxPercent)
               && forall j :: 0 <= j < k ==> !ThrowsAt(txs, j, nowMs);
      ScanSalesComplete(creator, mint, initial, txs, nowMs, maxPercent, k);
    }
  }

  /** A sale the scan reports is at some index with no throwing fetch
      before it. */
  lemma {:induction false} ScanSalesSound(creator: string, mint: string, initial: int, txs: seq<CreatorTx>, nowMs: int, maxPercent: real)
    returns (k: int)
    requires initial != 0 && ScanSales(creator, mint, initial, txs, nowMs, maxPercent)
    ensures FirstSaleAt(creator, mint, initial, txs, k, nowMs, maxPercent)
    decreases |txs|
  {
    var rest := txs[1..];
    if SaleAt(creator, mint, initial, txs, 0, nowMs, maxPercent) {
      return 0;
    }
    var k' := ScanSalesSound(creator, mint, initial, rest, nowMs, maxPercent);
    k := k' + 1;
    assert txs[k] == rest[k'];
    forall j | 0 <= j < k ensures !ThrowsAt(txs, j, nowMs) {
      if j > 0 {
        assert txs[j] == rest[j - 1] && !ThrowsAt(rest, j - 1, nowMs);
      }
    }
  }

  /** A sale at `k` with no throwing fetch before it is reported. */
  lemma {:induction false} ScanSalesComplete(creator: string, mint: string, initial: int, txs: seq<CreatorTx>, nowMs: int,
                                             maxPercent: real, k: int)
    requires initial != 0 && FirstSaleAt(creator, mint, initial, txs, k, nowMs, maxPercent)
    ensures ScanSales(creator, mint, initial, txs, nowMs, maxPercent)
    decreases |txs|
  {
    if k > 0 && !SaleAt(creator, mint, initial, txs, 0, nowMs, maxPercent) {
      var rest := txs[1..];
      assert !ThrowsAt(txs, 0, nowMs);
      assert txs[k] == rest[k - 1];
      forall j | 0 <= j < k - 1 ensures !ThrowsAt(rest, j, nowMs) {
        assert txs[j + 1] == rest[j] && !ThrowsAt(txs, j + 1, nowMs);
      }
      ScanSalesComplete(creator, mint, initial, rest, nowMs, maxPercent, k - 1);
    }
  }

  /** detectEarlyDevSell: whether the creator sold at least the threshold
      share of the balance of its first token account for the mint in a
      transaction of the last five minutes. A failed lookup, no account, a
      zero balance or a fetch that throws before such a sale give false. */
  function EarlyDevSold(creator: string, mint: string, history: DevHistory, nowMs: int, maxPercent: real): (r: bool)
    ensures history.LookupFailed? ==> !r
    ensures history.History? && (history.accountAmounts == [] || history.accountAmounts[0] == 0) ==> !r
    ensures r ==> (history.History? && history.accountAmounts != [] && history.accountAmounts[0] != 0
                   && exists k :: (0 <= k < |history.signatures|
                                   && SaleAt(creator, mint, history.accountAmounts[0], history.signatures, k, nowMs, maxPercent)))
    ensures history.History? && history.accountAmounts != [] && history.accountAmounts[0] != 0 ==>
      (r <==> exists k :: 0 <= k < |history.signatures|
                && SaleAt(creator, mint, history.accountAmounts[0], history.signatures, k, nowMs, maxPercent)
                && forall j :: 0 <= j < k ==> !ThrowsAt(history.signatures, j, nowMs))
  {
    match history
    case LookupFailed => false
    case History(accounts, txs) =>
      if accounts == [] then false
      else
        var initial := accounts[0];
        if initial == 0 then false
        else
          ScanSalesExactly(creator, mint, initial, txs, nowMs, maxPercent);
          ScanSales(creator, mint, initial, txs, nowMs, maxPercent)
  }

  // ---------------------------------------------------------------------
  // Risk level

  /** The overall risk of a token from its report's risk levels: DANGER if
      any level is DANGER, else WARNING if any is WARN, else DANGER (also
      for an empty list). Levels compare after upper-casing. */
  function OverallRisk(levels: seq<string>): (r: RiskLevel)
    ensures r != Good
    ensures r == Warning <==>
      (exists i :: 0 <= i < |levels| && Upper(levels[i]) == "WARN")
      && !(exists i :: 0 <= i < |levels| && Upper(levels[i]) == "DANGER")
  {
    var upper := seq(|levels|, i requires 0 <= i < |levels| => Upper(levels[i]));
    assert forall i :: 0 <= i < |levels| ==> upper[i] == Upper(levels[i]);
    if "DANGER" in upper then Danger
    else if "WARN" in upper then Warning
    else Danger
  }

  /** Every risk entry carries a level (upper-casing a missing one throws). */
  predicate AllLevelsPresent(risks: seq<RiskEntry>) {
    forall i :: 0 <= i < |risks| ==> risks[i].level.Some?
  }

  function LevelsOf(risks: seq<RiskEntry>): seq<string>
    requires AllLevelsPresent(risks)
  {
    seq(|risks|, i requires 0 <= i < |risks| => risks[i].level.value)
  }

  // ---------------------------------------------------------------------
  // The pipeline

  /** 10 to the power `n`. */
  function Pow10(n: nat): (r: real)
    ensures r >= 1.0
  {
    if n == 0 then 1.0 else 10.0 * Pow10(n - 1)
  }

  /** Pow10 is the power of ten: 1 at 0, and each step multiplies by 10. */
  lemma Pow10Step(n: nat)
    ensures Pow10(0) == 1.0
    ensures Pow10(n + 1) == 10.0 * Pow10(n)
  {
  }

  /** price * (supply / 10^decimals). */
  function MarketCap(price: real, token: TokenInfo): real {
    price * (token.supply / Pow10(token.decimals))
  }

  /** The creator address the dev-sell check uses: the report's, else the
      one the fallback lookup found. */
  function CreatorOf(report: Report, fallback: Option<string>): Option<string> {
    if Truthy(report.creator) then report.creator else fallback
  }

  /** checkRug: reject on the first failing guard, in the source's order,
      otherwise summarise the token with its derived risk level. `response`
      is None when the report request failed or returned no data;
      `fallbackCreator` is the creator lookup's answer, used only when the
      report names no creator; `history` is the creator's on-chain history. */
  function CheckRug(response: Option<Report>, mint: string, fallbackCreator: Option<string>,
                    history: DevHistory, nowMs: int, cfg: VettingConfig): (r: Result<Summary, Rejection>)
    ensures response.None? ==> r == Failure(NoReport)
    ensures response.Some? && response.value.simulationLoss.Some? && response.value.simulationLoss.value > 0.0
      ==> r == Failure(Honeypot)
    ensures r.Success? ==> r.value.level != Good
  {
    if response.None? then Failure(NoReport)
    else
      var report := response.value;
      if report.simulationLoss.Some? && report.simulationLoss.value > 0.0 then Failure(Honeypot)
      else if report.token.Some? && Truthy(report.token.value.freezeAuthority) then Failure(Freezable)
      else if report.token.Some? && Truthy(report.token.value.mintAuthority) then Failure(Mintable)
      else if report.totalMarketLiquidity < cfg.minLiquidityUsd then Failure(LowLiquidity)
      else if report.totalMarketLiquidity > cfg.maxLiquidityUsd then Failure(HighLiquidity)
      else if report.token.None? then Failure(ReportError)
      else if MarketCap(report.price, report.token.value) < cfg.minMarketCapUsd then Failure(LowMarketCap)
      else
        var creator := CreatorOf(report, fallbackCreator);
        if Truthy(creator) && EarlyDevSold(creator.value, mint, history, nowMs, cfg.maxInitialDevSellPercent) then
          Failure(EarlyDevSell)
        else if !AllLevelsPresent(report.risks) then Failure(ReportError)
        else Success(Summary(report.score, report.risks, OverallRisk(LevelsOf(report.risks))))
  }

  /** Every guard of the pipeline holds of the report, stated independently
      of the order in which they are checked. */
  predicate PassesAll(report: Report, mint: string, fallbackCreator: Option<string>,
                      history: DevHistory, nowMs: int, cfg: VettingConfig)
  {
    && !(report.simulationLoss.Some? && report.simulationLoss.value > 0.0)
    && report.token.Some?
    && !Truthy(report.token.value.freezeAuthority)
    && !Truthy(report.token.value.mintAuthority)
    && cfg.minLiquidityUsd <= report.totalMarketLiquidity <= cfg.maxLiquidityUsd
    && MarketCap(report.price, report.token.value) >= cfg.minMarketCapUsd
    && !(Truthy(CreatorOf(report, fallbackCreator))
         && EarlyDevSold(CreatorOf(report, fallbackCreator).value, mint, history, nowMs, cfg.maxInitialDevSellPercent))
    && AllLevelsPresent(report.risks)
  }

  /** A token is accepted exactly when every guard passes, and then its
      summary carries the derived risk level and the report's risk list. */
  lemma CheckRugAcceptsExactly(response: Option<Report>, mint: string, fallbackCreator: Option<string>,
                               history: DevHistory, nowMs: int, cfg: VettingConfig)
    ensures CheckRug(response, mint, fallbackCreator, history, nowMs, cfg).Success? <==>
      response.Some? && PassesAll(response.value, mint, fallbackCreator, history, nowMs, cfg)
    ensures CheckRug(response, mint, fallbackCreator, history, nowMs, cfg).Success? ==>
      CheckRug(response, mint, fallbackCreator, history, nowMs, cfg).value
        == Summary(response.value.score, response.value.risks, OverallRisk(LevelsOf(response.value.risks)))
  {
  }

  /** With no creator from the report or the fallback lookup, the dev-sell
      check is skipped rather than rejecting. */
  lemma MissingCreatorSkipsDevSellCheck(report: Report, mint: string, fallbackCreator: Option<string>,
                                        history: DevHistory, nowMs: int, cfg: VettingConfig)
    requires !Truthy(report.creator) && !Truthy(fallbackCreator)
    ensures CheckRug(Some(report), mint, fallbackCreator, history, nowMs, cfg) != Failure(EarlyDevSell)
  {
  }
}
