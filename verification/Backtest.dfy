/** Replaying a strategy against price history (worker/src/backtest.ts). Money is in USDG base
  * units, shares carry 18 decimals and prices 8. */
module Backtest {
  import opened Text
  import Basis

  datatype Leg = Leg(symbol: string, token: string)

  /** A price that is not quoted at a bar is missing. */
  datatype Bar = Bar(tSec: int, prices: map<string, nat>)

  datatype Intent =
    | Swap(sellToken: string, buyToken: string, sellAmountRaw: nat, notionalUsdg: nat)
    | VaultDeposit(amountUsdg: nat)
    | VaultWithdraw(amountUsdg: nat)
    | EquityOrder(notionalUsdg: nat)
    | Payment(amountUsdg: nat)
    | CurveTrade(notionalUsdg: nat)

  /** What the simulated account holds; shares stand in the order of the legs. */
  datatype Book = Book(cash: int, vault: int, shares: seq<nat>)

  datatype Snapshot = Snapshot(book: Book, bar: Bar, spentToday: nat)

  datatype AgentState = AgentState(spentToday: nat, opsToday: nat, highWaterMark: int, equity: int, nowSec: int)

  /** The strategy answers the k-th bar; the policy names the rule it refuses by. */
  datatype Config = Config(
    legs: seq<Leg>,
    initialCashUsdg: nat,
    executionCostBps: nat,
    vaultApyBps: nat,
    strategy: (nat, Snapshot) -> seq<Intent>,
    policy: (Intent, AgentState) -> Option<string>)

  const SCALE: nat := 100_000_000_000_000_000_000
  const YEAR_SEC: nat := 31_536_000
  const DAY_SEC: nat := 86_400
  const BPS: nat := 10_000

  // ── value ──────────────────────────────────────────────────────────────────

  function ValueUsdg(shares: nat, price8: nat): nat {
    shares * price8 / SCALE
  }

  function SharesFor(usdg: nat, price8: nat): nat {
    if price8 > 0 then usdg * SCALE / price8 else 0
  }

  function PriceOf(bar: Bar, symbol: string): nat {
    if symbol in bar.prices then bar.prices[symbol] else 0
  }

  predicate SharesFit(legs: seq<Leg>, b: Book) {
    |b.shares| == |legs|
  }

  function PositionsUsdg(legs: seq<Leg>, shares: seq<nat>, bar: Bar): nat
    requires |shares| == |legs|
  {
    if legs == [] then 0 else
      var n := |legs| - 1;
      PositionsUsdg(legs[..n], shares[..n], bar) + ValueUsdg(shares[n], PriceOf(bar, legs[n].symbol))
  }

  function Equity(legs: seq<Leg>, b: Book, bar: Bar): int
    requires SharesFit(legs, b)
  {
    b.cash + b.vault + PositionsUsdg(legs, b.shares, bar)
  }

  // ── fills ──────────────────────────────────────────────────────────────────

  /** The leg a token belongs to; of two with the same token the later one. */
  function LegOf(legs: seq<Leg>, token: string): (i: Option<nat>)
    ensures i.Some? ==> i.value < |legs| && Lower(legs[i.value].token) == Lower(token)
  {
    if legs == [] then None
    else if Lower(legs[|legs| - 1].token) == Lower(token) then Some(|legs| - 1)
    else LegOf(legs[..|legs| - 1], token)
  }

  function AfterCost(usdg: nat, costBps: nat): nat
    requires costBps <= BPS
  {
    usdg * (BPS - costBps) / BPS
  }

  function Least(a: int, b: int): int {
    if a > b then b else a
  }

  predicate Sane(cfg: Config) {
    cfg.executionCostBps <= BPS
  }

  function Filled(cfg: Config, bar: Bar, b: Book, intent: Intent): (r: Book)
    requires Sane(cfg) && SharesFit(cfg.legs, b)
    ensures SharesFit(cfg.legs, r)
  {
    match intent
    case VaultDeposit(amount) =>
      var moved := Least(amount, b.cash);
      b.(cash := b.cash - moved, vault := b.vault + moved)
    case VaultWithdraw(amount) =>
      var moved := Least(amount, b.vault);
      b.(cash := b.cash + moved, vault := b.vault - moved)
    case Swap(sellToken, buyToken, sellAmountRaw, _) =>
      var buy, sell := LegOf(cfg.legs, buyToken), LegOf(cfg.legs, sellToken);
      if buy.Some? then
        var i := buy.value;
        var price := PriceOf(bar, cfg.legs[i].symbol);
        if price == 0 || sellAmountRaw > b.cash then b
        else
          b.(cash := b.cash - sellAmountRaw,
             shares := b.shares[i := b.shares[i] + SharesFor(AfterCost(sellAmountRaw, cfg.executionCostBps), price)])
      else if sell.Some? then
        var i := sell.value;
        var price := PriceOf(bar, cfg.legs[i].symbol);
        if price == 0 || b.shares[i] == 0 then b
        else
          var raw: nat := if sellAmountRaw > b.shares[i] then b.shares[i] else sellAmountRaw;
          b.(cash := b.cash + AfterCost(ValueUsdg(raw, price), cfg.executionCostBps),
             shares := b.shares[i := b.shares[i] - raw])
      else b
    case _ => b
  }

  function Accrued(cfg: Config, b: Book, since: Option<int>, now: int): Book {
    if since.None? || cfg.vaultApyBps == 0 || b.vault <= 0 then b
    else b.(vault := b.vault + Basis.TruncDiv(b.vault * cfg.vaultApyBps * (now - since.value), BPS * YEAR_SEC))
  }

  // ── the replay ─────────────────────────────────────────────────────────────

  datatype Point = Point(tSec: int, equityUsdg: int)

  /** Everything the replay carries from bar to bar. */
  datatype Sim = Sim(
    book: Book, hwm: int, peak: int, maxDrawdownBps: int,
    spentToday: nat, ops: nat, dayIndex: Option<int>, prevT: Option<int>,
    executed: nat, rejected: seq<string>, series: seq<Point>)

  function Start(cfg: Config): Sim {
    Sim(Book(cfg.initialCashUsdg, 0, seq(|cfg.legs|, _ => 0)), 0, 0, 0, 0, 0, None, None, 0, [], [])
  }

  /** How far one equity lies below an earlier one, in basis points. */
  function Drawdown(peak: int, equity: int): nat {
    if peak > 0 && equity < peak then (peak - equity) * 10_000 / peak else 0
  }

  function Most(a: int, b: int): int {
    if a > b then a else b
  }

  /** What an intent adds to the day's spending. */
  function Spends(intent: Intent): nat {
    match intent
    case VaultWithdraw(_) => 0
    case Swap(_, _, _, notional) => notional
    case EquityOrder(notional) => notional
    case CurveTrade(notional) => notional
    case VaultDeposit(amount) => amount
    case Payment(amount) => amount
  }

  function StateOf(s: Sim, equity: int, now: int): AgentState {
    AgentState(s.spentToday, s.ops, s.hwm, equity, now)
  }

  function Taken(cfg: Config, bar: Bar, s: Sim, equity: int, intent: Intent): (r: Sim)
    requires Sane(cfg) && SharesFit(cfg.legs, s.book)
    ensures SharesFit(cfg.legs, r.book)
  {
    var refusal := cfg.policy(intent, StateOf(s, equity, bar.tSec));
    if refusal.Some? then s.(rejected := s.rejected + [refusal.value])
    else s.(book := Filled(cfg, bar, s.book, intent), ops := s.ops + 1, executed := s.executed + 1,
            spentToday := s.spentToday + Spends(intent))
  }

  function TakenAll(cfg: Config, bar: Bar, s: Sim, equity: int, intents: seq<Intent>): (r: Sim)
    requires Sane(cfg) && SharesFit(cfg.legs, s.book)
    ensures SharesFit(cfg.legs, r.book)
  {
    if intents == [] then s
    else Taken(cfg, bar, TakenAll(cfg, bar, s, equity, intents[..|intents| - 1]), equity, intents[|intents| - 1])
  }

  function DayOf(tSec: int): int {
    tSec / DAY_SEC
  }

  /** Interest, the day's budget, and the bar's equity with its high-water mark and drawdown. */
  function Opened(cfg: Config, s: Sim, bar: Bar): (r: Sim)
    requires SharesFit(cfg.legs, s.book)
    ensures SharesFit(cfg.legs, r.book)
  {
    var book := Accrued(cfg, s.book, s.prevT, bar.tSec);
    var equity := Equity(cfg.legs, book, bar);
    var peak := Most(equity, s.peak);
    var newDay := s.dayIndex != Some(DayOf(bar.tSec));
    Sim(book, Most(equity, s.hwm), peak, Most(Drawdown(peak, equity), s.maxDrawdownBps),
        if newDay then 0 else s.spentToday, if newDay then 0 else s.ops, Some(DayOf(bar.tSec)), Some(bar.tSec),
        s.executed, s.rejected, s.series + [Point(bar.tSec, equity)])
  }

  function Played(cfg: Config, k: nat, s: Sim, bar: Bar): (r: Sim)
    requires Sane(cfg) && SharesFit(cfg.legs, s.book)
    ensures SharesFit(cfg.legs, r.book)
  {
    var o := Opened(cfg, s, bar);
    TakenAll(cfg, bar, o, Equity(cfg.legs, o.book, bar), cfg.strategy(k, Snapshot(o.book, bar, o.spentToday)))
  }

  function Replay(cfg: Config, bars: seq<Bar>): (r: Sim)
    requires Sane(cfg)
    ensures SharesFit(cfg.legs, r.book)
  {
    if bars == [] then Start(cfg)
    else Played(cfg, |bars| - 1, Replay(cfg, bars[..|bars| - 1]), bars[|bars| - 1])
  }

  datatype Result = Result(
    finalEquityUsdg: int, pnlUsdg: int, maxDrawdownBps: int, series: seq<Point>, executed: nat, rejected: seq<string>)

  // ── the simulation ────────────────────────────────────────────────────────────

  class Simulation {
    const cfg: Config
    var cash: int
    var vault: int
    var shares: seq<nat>

    constructor (cfg: Config)
      ensures this.cfg == cfg && Held() == Start(cfg).book
    {
      this.cfg := cfg;
      cash, vault, shares := cfg.initialCashUsdg, 0, seq(|cfg.legs|, _ => 0);
    }

    function Held(): Book
      reads this
    {
      Book(cash, vault, shares)
    }

    method ApplyFill(bar: Bar, intent: Intent)
      requires Sane(cfg) && SharesFit(cfg.legs, Held())
      modifies this
      ensures Held() == Filled(cfg, bar, old(Held()), intent)
    {
      match intent
      case EquityOrder(_) => return;
      case Payment(_) => return;
      case CurveTrade(_) => return;
      case VaultDeposit(amountUsdg) =>
        var amt := if amountUsdg > cash then cash else amountUsdg;
        cash := cash - amt;
        vault := vault + amt;
      case VaultWithdraw(amountUsdg) =>
        var amt := if amountUsdg > vault then vault else amountUsdg;
        vault := vault - amt;
        cash := cash + amt;
      case Swap(sellToken, buyToken, sellAmountRaw, _) =>
        var buyLeg, sellLeg := LegOf(cfg.legs, buyToken), LegOf(cfg.legs, sellToken);
        if buyLeg.Some? {
          var price := PriceOf(bar, cfg.legs[buyLeg.value].symbol);
          if price == 0 || sellAmountRaw > cash { return; }
          var afterCost := AfterCost(sellAmountRaw, cfg.executionCostBps);
          cash := cash - sellAmountRaw;
          shares := shares[buyLeg.value := shares[buyLeg.value] + SharesFor(afterCost, price)];
        } else if sellLeg.Some? {
          var price := PriceOf(bar, cfg.legs[sellLeg.value].symbol);
          var held := shares[sellLeg.value];
          if price == 0 || held == 0 { return; }
          var raw: nat := if sellAmountRaw > held then held else sellAmountRaw;
          var gross := ValueUsdg(raw, price);
          cash := cash + AfterCost(gross, cfg.executionCostBps);
          shares := shares[sellLeg.value := held - raw];
        }
    }

    method RunBacktest(bars: seq<Bar>) returns (result: Result)
      requires Sane(cfg) && Held() == Start(cfg).book
      modifies this
      ensures Held() == Replay(cfg, bars).book
      ensures result == ResultOf(cfg, Replay(cfg, bars))
      ensures result.pnlUsdg == result.finalEquityUsdg - cfg.initialCashUsdg
      ensures result.finalEquityUsdg ==
              if result.series == [] then cfg.initialCashUsdg else result.series[|result.series| - 1].equityUsdg
    {
      var s := Start(cfg);
      for i := 0 to |bars|
        invariant s == Replay(cfg, bars[..i]) && Held() == s.book
      {
        assert bars[..i + 1][..i] == bars[..i];
        s := PlayBar(i, s, bars[i]);
      }
      assert bars[..|bars|] == bars;
      result := ResultOf(cfg, s);
    }

    /** One bar: open it, then take the strategy's intents one by one. */
    method PlayBar(k: nat, s: Sim, bar: Bar) returns (r: Sim)
      requires Sane(cfg) && SharesFit(cfg.legs, s.book) && Held() == s.book
      modifies this
      ensures r == Played(cfg, k, s, bar) && Held() == r.book
    {
      r := Opened(cfg, s, bar);
      vault := r.book.vault;
      var equity := Equity(cfg.legs, r.book, bar);
      var intents := cfg.strategy(k, Snapshot(r.book, bar, r.spentToday));
      ghost var begun := r;
      for i := 0 to |intents|
        invariant r == TakenAll(cfg, bar, begun, equity, intents[..i]) && Held() == r.book
      {
        var intent := intents[i];
        assert intents[..i + 1][..i] == intents[..i];
        var refusal := cfg.policy(intent, StateOf(r, equity, bar.tSec));
        if refusal.Some? {
          r := r.(rejected := r.rejected + [refusal.value]);
          continue;
        }
        ApplyFill(bar, intent);
        r := r.(book := Held(), ops := r.ops + 1, executed := r.executed + 1, spentToday := r.spentToday + Spends(intent));
      }
      assert intents[..|intents|] == intents;
    }
  }

  function ResultOf(cfg: Config, s: Sim): Result {
    var final := if s.series == [] then cfg.initialCashUsdg else s.series[|s.series| - 1].equityUsdg;
    Result(final, final - cfg.initialCashUsdg, s.maxDrawdownBps, s.series, s.executed, s.rejected)
  }
}
