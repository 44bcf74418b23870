/** The replay never makes money out of nothing, and its drawdown is the true one. */
module BacktestLaws {
  import opened Text
  import opened Backtest
  import Basis

  // ── rounding ───────────────────────────────────────────────────────────────

  lemma QuotientIs(a: nat, d: nat) returns (k: nat)
    requires d > 0
    ensures k == a / d && k * d <= a < k * d + d
  {
    k := a / d;
  }

  lemma QuotientBound(a: nat, q: nat, d: nat)
    requires d > 0
    ensures a <= q * d + (d - 1) ==> a / d <= q
    ensures q * d <= a ==> q <= a / d
  {
    var k := QuotientIs(a, d);
    Basis.Spread(q, 1, d);
    Basis.Spread(k, 1, d);
    if a <= q * d + (d - 1) { Basis.CancelLt(k, q + 1, d); }
    if q * d <= a { Basis.CancelLt(q, k + 1, d); }
  }

  lemma DivisionPieces(x: nat, y: nat, d: nat)
    requires d > 0
    ensures x / d + y / d <= (x + y) / d
  {
    var p := QuotientIs(x, d);
    var q := QuotientIs(y, d);
    assert (p + q) * d == p * d + q * d;
    QuotientBound(x + y, p + q, d);
  }

  lemma AddedWhole(x: nat, u: nat, y: nat, d: nat)
    requires d > 0 && y <= u * d
    ensures (x + y) / d <= x / d + u
  {
    var p := QuotientIs(x, d);
    assert (p + u) * d == p * d + u * d;
    QuotientBound(x + y, p + u, d);
  }

  /** Shares bought for some money are worth no more than it, at the price they were bought. */
  lemma BuyingAddsAtMost(held: nat, usdg: nat, price8: nat)
    ensures ValueUsdg(held + SharesFor(usdg, price8), price8) <= ValueUsdg(held, price8) + usdg
  {
    var n := SharesFor(usdg, price8);
    if price8 > 0 {
      assert n * price8 <= usdg * SCALE;
    } else {
      assert n * price8 == 0;
    }
    assert (held + n) * price8 == held * price8 + n * price8;
    AddedWhole(held * price8, usdg, n * price8, SCALE);
  }

  /** What is sold and what is kept are together worth no more than what was held. */
  lemma SellingSplits(held: nat, raw: nat, price8: nat)
    requires raw <= held
    ensures ValueUsdg(held - raw, price8) + ValueUsdg(raw, price8) <= ValueUsdg(held, price8)
  {
    assert (held - raw) * price8 + raw * price8 == held * price8;
    DivisionPieces((held - raw) * price8, raw * price8, SCALE);
  }

  lemma CostTakes(usdg: nat, costBps: nat)
    requires costBps <= BPS
    ensures AfterCost(usdg, costBps) <= usdg
  {
    assert usdg * (BPS - costBps) <= usdg * BPS by { assert usdg * costBps >= 0; }
    QuotientBound(usdg * (BPS - costBps), usdg, BPS);
  }

  // ── positions ──────────────────────────────────────────────────────────────

  lemma {:induction false} OnePositionChanged(legs: seq<Leg>, shares: seq<nat>, bar: Bar, i: nat, x: nat)
    requires |shares| == |legs| && i < |legs|
    ensures var price := PriceOf(bar, legs[i].symbol);
            PositionsUsdg(legs, shares[i := x], bar) + ValueUsdg(shares[i], price) ==
            PositionsUsdg(legs, shares, bar) + ValueUsdg(x, price)
  {
    var n := |legs| - 1;
    if i < n {
      assert shares[i := x][..n] == shares[..n][i := x];
      OnePositionChanged(legs[..n], shares[..n], bar, i, x);
    } else {
      assert shares[i := x][..n] == shares[..n];
    }
  }

  lemma {:induction false} ValueFollowsPrices(legs: seq<Leg>, shares: seq<nat>, a: Bar, b: Bar)
    requires |shares| == |legs| && a.prices == b.prices
    ensures PositionsUsdg(legs, shares, a) == PositionsUsdg(legs, shares, b)
  {
    if legs != [] {
      ValueFollowsPrices(legs[..|legs| - 1], shares[..|legs| - 1], a, b);
    }
  }

  lemma {:induction false} NothingHeld(legs: seq<Leg>, shares: seq<nat>, bar: Bar)
    requires |shares| == |legs| && forall x <- shares :: x == 0
    ensures PositionsUsdg(legs, shares, bar) == 0
  {
    if legs != [] {
      var n := |legs| - 1;
      assert shares[n] in shares && forall x <- shares[..n] :: x in shares;
      NothingHeld(legs[..n], shares[..n], bar);
    }
  }

  // ── one fill ───────────────────────────────────────────────────────────────

  predicate NonNegative(b: Book) {
    b.cash >= 0 && b.vault >= 0
  }

  /** No fill raises what the account is worth at the bar's own prices, or overdraws it. */
  lemma NoFillMints(cfg: Config, bar: Bar, b: Book, intent: Intent)
    requires Sane(cfg) && SharesFit(cfg.legs, b) && NonNegative(b)
    ensures NonNegative(Filled(cfg, bar, b, intent))
    ensures Equity(cfg.legs, Filled(cfg, bar, b, intent), bar) <= Equity(cfg.legs, b, bar)
  {
    match intent
    case Swap(sellToken, buyToken, amount, _) =>
      var buy, sell := LegOf(cfg.legs, buyToken), LegOf(cfg.legs, sellToken);
      if buy.Some? {
        var i := buy.value;
        var price := PriceOf(bar, cfg.legs[i].symbol);
        if price != 0 && amount <= b.cash {
          var spent := AfterCost(amount, cfg.executionCostBps);
          OnePositionChanged(cfg.legs, b.shares, bar, i, b.shares[i] + SharesFor(spent, price));
          BuyingAddsAtMost(b.shares[i], spent, price);
          CostTakes(amount, cfg.executionCostBps);
        }
      } else if sell.Some? {
        var i := sell.value;
        var price := PriceOf(bar, cfg.legs[i].symbol);
        if price != 0 && b.shares[i] != 0 {
          var raw: nat := if amount > b.shares[i] then b.shares[i] else amount;
          OnePositionChanged(cfg.legs, b.shares, bar, i, b.shares[i] - raw);
          SellingSplits(b.shares[i], raw, price);
          CostTakes(ValueUsdg(raw, price), cfg.executionCostBps);
        }
      }
    case _ =>
  }

  // ── what a fill costs ──────────────────────────────────────────────────────

  /** Money paid for shares buys them to within one unit, while a share's smallest part is
    * worth less than a unit. */
  lemma BuyingAddsAtLeast(held: nat, usdg: nat, price8: nat)
    requires 0 < price8 <= SCALE
    ensures ValueUsdg(held + SharesFor(usdg, price8), price8) + 1 >= ValueUsdg(held, price8) + usdg
  {
    var n := QuotientIs(usdg * SCALE, price8);
    assert (held + n) * price8 == held * price8 + n * price8;
    var v := QuotientIs(held * price8, SCALE);
    if v + usdg >= 1 {
      assert (v + usdg - 1) * SCALE == v * SCALE + usdg * SCALE - SCALE;
      QuotientBound((held + n) * price8, v + usdg - 1, SCALE);
    }
  }

  /** Selling loses at most the unit lost to rounding. */
  lemma SellingLosesAtMostOne(held: nat, raw: nat, price8: nat)
    requires raw <= held
    ensures ValueUsdg(held, price8) <= ValueUsdg(held - raw, price8) + ValueUsdg(raw, price8) + 1
  {
    var k := QuotientIs((held - raw) * price8, SCALE);
    var s := QuotientIs(raw * price8, SCALE);
    assert (held - raw) * price8 + raw * price8 == held * price8;
    QuotientBound(held * price8, k + s + 1, SCALE);
  }

  /** `q` is `num / den` rounded down. */
  predicate IsFloor(q: int, num: int, den: int) {
    q * den <= num < q * den + den
  }

  lemma FloorIsTheQuotient(q: nat, num: nat, den: nat)
    requires den > 0 && IsFloor(q, num, den)
    ensures q == num / den
  {
    QuotientBound(num, q, den);
  }

  /** The leg of a token: the last one listed under it, in any letter case. */
  predicate IsLegOf(legs: seq<Leg>, token: string, i: nat) {
    && i < |legs| && Lower(legs[i].token) == Lower(token)
    && forall j | i < j < |legs| :: Lower(legs[j].token) != Lower(token)
  }

  predicate HasLeg(legs: seq<Leg>, token: string) {
    exists i | 0 <= i < |legs| :: Lower(legs[i].token) == Lower(token)
  }

  lemma {:induction false} LegIs(legs: seq<Leg>, token: string, i: nat)
    requires IsLegOf(legs, token, i)
    ensures LegOf(legs, token) == Some(i)
  {
    if i < |legs| - 1 { LegIs(legs[..|legs| - 1], token, i); }
  }

  lemma {:induction false} NoLeg(legs: seq<Leg>, token: string)
    requires !HasLeg(legs, token)
    ensures LegOf(legs, token) == None
  {
    if legs != [] {
      assert forall i | 0 <= i < |legs| - 1 :: legs[..|legs| - 1][i] == legs[i];
      NoLeg(legs[..|legs| - 1], token);
    }
  }

  /** The bar quotes the leg at this price. */
  predicate Quotes(bar: Bar, leg: Leg, price: nat) {
    leg.symbol in bar.prices && bar.prices[leg.symbol] == price
  }

  /** Nothing but these holdings differs. */
  predicate OnlyThisLeg(b: Book, r: Book, i: nat) {
    && r.vault == b.vault && |r.shares| == |b.shares|
    && forall k | 0 <= k < |b.shares| && k != i :: r.shares[k] == b.shares[k]
  }

  /** An affordable buy of a quoted leg pays out exactly the amount and buys, for what is left
    * of it after the execution cost, the shares that buys at the quote, rounded down. What the
    * account is worth falls by that cost and at most one unit. */
  lemma BuyIsFair(
    cfg: Config, bar: Bar, b: Book, sellToken: string, buyToken: string, amount: nat, notional: nat,
    i: nat, price: nat, net: nat)
    requires Sane(cfg) && SharesFit(cfg.legs, b) && IsLegOf(cfg.legs, buyToken, i) && amount <= b.cash
    requires Quotes(bar, cfg.legs[i], price) && 0 < price <= SCALE
    requires IsFloor(net, amount * (10_000 - cfg.executionCostBps), 10_000)
    ensures var r := Filled(cfg, bar, b, Swap(sellToken, buyToken, amount, notional));
            && r.cash == b.cash - amount && OnlyThisLeg(b, r, i)
            && IsFloor(r.shares[i] - b.shares[i], net * 100_000_000_000_000_000_000, price)
            && amount - net <= Equity(cfg.legs, b, bar) - Equity(cfg.legs, r, bar) <= amount - net + 1
  {
    LegIs(cfg.legs, buyToken, i);
    FloorIsTheQuotient(net, amount * (10_000 - cfg.executionCostBps), BPS);
    assert AfterCost(amount, cfg.executionCostBps) == net;
    var bought := QuotientIs(net * SCALE, price);
    OnePositionChanged(cfg.legs, b.shares, bar, i, b.shares[i] + bought);
    BuyingAddsAtLeast(b.shares[i], net, price);
    BuyingAddsAtMost(b.shares[i], net, price);
  }

  /** A sale of a quoted leg parts with what was asked for or all there is, and brings its worth
    * at the quote, rounded down, less the execution cost. What the account is worth falls by
    * that cost and at most one unit. */
  lemma SaleIsFair(
    cfg: Config, bar: Bar, b: Book, sellToken: string, buyToken: string, amount: nat, notional: nat,
    i: nat, price: nat, sold: nat, gross: nat, net: nat)
    requires Sane(cfg) && SharesFit(cfg.legs, b) && !HasLeg(cfg.legs, buyToken) && IsLegOf(cfg.legs, sellToken, i)
    requires Quotes(bar, cfg.legs[i], price) && price > 0
    requires sold == if amount <= b.shares[i] then amount else b.shares[i]
    requires IsFloor(gross, sold * price, 100_000_000_000_000_000_000)
    requires IsFloor(net, gross * (10_000 - cfg.executionCostBps), 10_000)
    ensures var r := Filled(cfg, bar, b, Swap(sellToken, buyToken, amount, notional));
            && r.cash == b.cash + net && r.shares[i] == b.shares[i] - sold && OnlyThisLeg(b, r, i)
            && gross - net <= Equity(cfg.legs, b, bar) - Equity(cfg.legs, r, bar) <= gross - net + 1
  {
    NoLeg(cfg.legs, buyToken);
    LegIs(cfg.legs, sellToken, i);
    FloorIsTheQuotient(gross, sold * price, SCALE);
    FloorIsTheQuotient(net, gross * (10_000 - cfg.executionCostBps), BPS);
    assert ValueUsdg(sold, price) == gross && AfterCost(gross, cfg.executionCostBps) == net;
    if b.shares[i] != 0 {
      OnePositionChanged(cfg.legs, b.shares, bar, i, b.shares[i] - sold);
      SellingLosesAtMostOne(b.shares[i], sold, price);
      SellingSplits(b.shares[i], sold, price);
    } else {
      CostTakes(gross, cfg.executionCostBps);
    }
  }

  /** The bar gives the leg no price to trade at. */
  predicate NotQuoted(bar: Bar, leg: Leg) {
    leg.symbol in bar.prices ==> bar.prices[leg.symbol] == 0
  }

  /** An order nothing can be done with changes nothing: of tokens no leg is listed under, of a
    * leg that is not quoted, or for more cash than there is; and so does every order of a kind
    * the replay has no fills for. */
  lemma UnfillableOrdersChangeNothing(cfg: Config, bar: Bar, b: Book, intent: Intent, i: nat)
    requires Sane(cfg) && SharesFit(cfg.legs, b)
    requires match intent
             case Swap(sellToken, buyToken, amount, _) =>
               || (!HasLeg(cfg.legs, buyToken) && !HasLeg(cfg.legs, sellToken))
               || (IsLegOf(cfg.legs, buyToken, i) && (NotQuoted(bar, cfg.legs[i]) || amount > b.cash))
               || (!HasLeg(cfg.legs, buyToken) && IsLegOf(cfg.legs, sellToken, i)
                   && (NotQuoted(bar, cfg.legs[i]) || b.shares[i] == 0))
             case VaultDeposit(_) => false
             case VaultWithdraw(_) => false
             case _ => true
    ensures Filled(cfg, bar, b, intent) == b
  {
    if intent.Swap? {
      if HasLeg(cfg.legs, intent.buyToken) {
        LegIs(cfg.legs, intent.buyToken, i);
      } else {
        NoLeg(cfg.legs, intent.buyToken);
        if HasLeg(cfg.legs, intent.sellToken) { LegIs(cfg.legs, intent.sellToken, i); } else { NoLeg(cfg.legs, intent.sellToken); }
      }
    }
  }

  /** Money moved to or from the vault is only moved, and never more than there is. */
  lemma VaultMovesConserve(cfg: Config, bar: Bar, b: Book, amount: nat)
    requires Sane(cfg) && SharesFit(cfg.legs, b) && NonNegative(b)
    ensures var d, w := Filled(cfg, bar, b, VaultDeposit(amount)), Filled(cfg, bar, b, VaultWithdraw(amount));
            && Equity(cfg.legs, d, bar) == Equity(cfg.legs, b, bar) == Equity(cfg.legs, w, bar)
            && d.vault - b.vault == (if amount <= b.cash then amount else b.cash)
            && w.cash - b.cash == (if amount <= b.vault then amount else b.vault)
  {
  }

  /** Nor does any list of intents, whatever the policy lets through. */
  lemma {:induction false} NoBarMints(cfg: Config, bar: Bar, s: Sim, equity: int, intents: seq<Intent>)
    requires Sane(cfg) && SharesFit(cfg.legs, s.book) && NonNegative(s.book)
    ensures var r := TakenAll(cfg, bar, s, equity, intents);
            && NonNegative(r.book) && Equity(cfg.legs, r.book, bar) <= Equity(cfg.legs, s.book, bar)
            && r.series == s.series && r.prevT == s.prevT && r.maxDrawdownBps == s.maxDrawdownBps && r.peak == s.peak
            && r.executed + |r.rejected| == s.executed + |s.rejected| + |intents|
  {
    if intents != [] {
      var n := |intents| - 1;
      NoBarMints(cfg, bar, s, equity, intents[..n]);
      NoFillMints(cfg, bar, TakenAll(cfg, bar, s, equity, intents[..n]).book, intents[n]);
    }
  }

  // ── every run ──────────────────────────────────────────────────────────────

  ghost predicate InTimeOrder(bars: seq<Bar>) {
    forall i, j | 0 <= i < j < |bars| :: bars[i].tSec <= bars[j].tSec
  }

  lemma InterestIsNotNegative(cfg: Config, b: Book, since: int, now: int)
    requires NonNegative(b) && since <= now
    ensures NonNegative(Accrued(cfg, b, Some(since), now))
  {
    if b.vault > 0 {
      var grown := b.vault * cfg.vaultApyBps * (now - since);
      assert grown >= 0 by {
        assert b.vault * cfg.vaultApyBps >= 0;
        Basis.NonNegProduct(b.vault * cfg.vaultApyBps, now - since);
      }
      NonNegativeQuotient(grown);
    }
  }

  /** The vault earns simple interest over the time between two bars, rounded down, and
    * nothing at the first; nothing else moves. */
  lemma InterestIsSimple(cfg: Config, b: Book, since: int, now: int)
    requires b.vault >= 0 && since <= now
    ensures var r := Accrued(cfg, b, Some(since), now);
            && r.cash == b.cash && r.shares == b.shares
            && IsFloor(r.vault - b.vault, b.vault * cfg.vaultApyBps * (now - since), 10_000 * 31_536_000)
    ensures Accrued(cfg, b, None, now) == b
  {
    var grown := b.vault * cfg.vaultApyBps * (now - since);
    assert b.vault * cfg.vaultApyBps >= 0;
    Basis.NonNegProduct(b.vault * cfg.vaultApyBps, now - since);
    if b.vault > 0 && cfg.vaultApyBps > 0 {
      var q := QuotientIs(grown, BPS * YEAR_SEC);
    } else {
      assert b.vault * cfg.vaultApyBps == 0 && grown == 0;
    }
  }

  lemma NonNegativeQuotient(a: int)
    requires a >= 0
    ensures Basis.TruncDiv(a, BPS * YEAR_SEC) >= 0
  {
  }

  /** Over every run on bars in time order, nothing held is ever negative, and the series has
    * one point, never negative, for every bar. */
  lemma {:induction false} NothingGoesNegative(cfg: Config, bars: seq<Bar>)
    requires Sane(cfg) && InTimeOrder(bars)
    ensures var s := Replay(cfg, bars);
            && NonNegative(s.book)
            && |s.series| == |bars| && (forall i | 0 <= i < |bars| :: s.series[i].equityUsdg >= 0)
            && s.prevT == (if bars == [] then None else Some(bars[|bars| - 1].tSec))
  {
    if bars != [] {
      var n := |bars| - 1;
      NothingGoesNegative(cfg, bars[..n]);
      var s, bar := Replay(cfg, bars[..n]), bars[n];
      if n > 0 {
        assert bars[..n][n - 1] == bars[n - 1] && bars[n - 1].tSec <= bar.tSec;
        InterestIsNotNegative(cfg, s.book, bars[n - 1].tSec, bar.tSec);
      }
      var o := Opened(cfg, s, bar);
      assert NonNegative(o.book);
      NoBarMints(cfg, bar, o, Equity(cfg.legs, o.book, bar), cfg.strategy(n, Snapshot(o.book, bar, o.spentToday)));
    }
  }

  ghost predicate NeverRises(series: seq<Point>) {
    forall i, j | 0 <= i < j < |series| :: series[j].equityUsdg <= series[i].equityUsdg
  }

  ghost predicate ConstantPrices(bars: seq<Bar>) {
    forall i, j | 0 <= i < |bars| && 0 <= j < |bars| :: bars[i].prices == bars[j].prices
  }

  /** With prices that do not move and a vault that pays nothing, trading can only cost: the
    * equity series never rises and never exceeds the cash that went in. */
  lemma {:induction false} TradingAloneNeverPays(cfg: Config, bars: seq<Bar>)
    requires Sane(cfg) && cfg.vaultApyBps == 0 && ConstantPrices(bars)
    ensures var s := Replay(cfg, bars);
            && NonNegative(s.book) && NeverRises(s.series)
            && |s.series| == |bars| && (forall p <- s.series :: p.equityUsdg <= cfg.initialCashUsdg)
            && (bars != [] ==> Equity(cfg.legs, s.book, bars[|bars| - 1]) <= s.series[|bars| - 1].equityUsdg)
  {
    if bars != [] {
      var n := |bars| - 1;
      TradingAloneNeverPays(cfg, bars[..n]);
      var s, bar := Replay(cfg, bars[..n]), bars[n];
      var o := Opened(cfg, s, bar);
      assert o.book == s.book;
      if n > 0 {
        assert bars[..n][n - 1] == bars[n - 1] && bars[n - 1].prices == bar.prices;
        ValueFollowsPrices(cfg.legs, s.book.shares, bars[n - 1], bar);
        assert s.series[n - 1] in s.series;
      } else {
        NothingHeld(cfg.legs, s.book.shares, bar);
      }
      assert Equity(cfg.legs, o.book, bar) <= cfg.initialCashUsdg;
      NoBarMints(cfg, bar, o, Equity(cfg.legs, o.book, bar), cfg.strategy(n, Snapshot(o.book, bar, o.spentToday)));
    }
  }

  // ── drawdown ───────────────────────────────────────────────────────────────

  /** Seen from a higher peak a fall is no smaller. */
  lemma DrawdownGrowsWithThePeak(a: int, p: int, e: int)
    requires 0 <= e && a <= p
    ensures Drawdown(a, e) <= Drawdown(p, e)
  {
    if a > 0 && e < a {
      var k := (a - e) * 10_000 / a;
      assert k * a <= (a - e) * 10_000;
      assert k <= 10_000 by {
        assert (a - e) * 10_000 <= 10_000 * a;
        QuotientBound((a - e) * 10_000, 10_000, a);
      }
      assert e * 10_000 <= (10_000 - k) * a;
      assert (10_000 - k) * a <= (10_000 - k) * p by { Basis.NonNegProduct(10_000 - k, p - a); }
      assert k * p <= (p - e) * 10_000;
      QuotientBound((p - e) * 10_000, k, p);
    }
  }

  // ── the day's budget ───────────────────────────────────────────────────────

  /** What an order takes of the day's budget: all it moves, unless it brings money back. */
  function Outlay(intent: Intent): nat {
    match intent
    case Swap(_, _, _, notional) => notional
    case EquityOrder(notional) => notional
    case CurveTrade(notional) => notional
    case VaultDeposit(amount) => amount
    case Payment(amount) => amount
    case VaultWithdraw(_) => 0
  }

  function Outlays(intents: seq<Intent>): nat {
    if intents == [] then 0 else Outlays(intents[..|intents| - 1]) + Outlay(intents[|intents| - 1])
  }

  lemma {:induction false} OutlaysConcat(a: seq<Intent>, b: seq<Intent>)
    ensures Outlays(a + b) == Outlays(a) + Outlays(b)
  {
    if b == [] {
      assert a + b == a;
    } else {
      OutlaysConcat(a, b[..|b| - 1]);
      assert (a + b)[..|a + b| - 1] == a + b[..|b| - 1];
    }
  }

  /** The policy's answer to an order, asked with what the day has spent and done so far, the
    * peak, the bar's equity and its time. */
  function Asked(cfg: Config, bar: Bar, s: Sim, equity: int, intent: Intent): Option<string> {
    cfg.policy(intent, AgentState(s.spentToday, s.ops, s.hwm, equity, bar.tSec))
  }

  /** The orders of a bar the policy lets through, each asked about after those before it. */
  function Passed(cfg: Config, bar: Bar, s: Sim, equity: int, intents: seq<Intent>): seq<Intent>
    requires Sane(cfg) && SharesFit(cfg.legs, s.book)
  {
    if intents == [] then [] else
      var n := |intents| - 1;
      Passed(cfg, bar, s, equity, intents[..n]) +
      if Asked(cfg, bar, TakenAll(cfg, bar, s, equity, intents[..n]), equity, intents[n]).None? then [intents[n]] else []
  }

  /** A bar executes exactly the orders the policy lets through, and the day is charged for
    * them and for nothing else. */
  lemma {:induction false} PassedOrdersAreCharged(cfg: Config, bar: Bar, s: Sim, equity: int, intents: seq<Intent>)
    requires Sane(cfg) && SharesFit(cfg.legs, s.book)
    ensures var r := TakenAll(cfg, bar, s, equity, intents); var passed := Passed(cfg, bar, s, equity, intents);
            && r.ops == s.ops + |passed| && r.executed == s.executed + |passed|
            && r.spentToday == s.spentToday + Outlays(passed)
            && |r.rejected| == |s.rejected| + |intents| - |passed|
            && r.hwm == s.hwm && r.dayIndex == s.dayIndex
            && (passed == [] ==> r.book == s.book)
  {
    if intents != [] {
      var n := |intents| - 1;
      PassedOrdersAreCharged(cfg, bar, s, equity, intents[..n]);
      var before := Passed(cfg, bar, s, equity, intents[..n]);
      OutlaysConcat(before, [intents[n]]);
      assert [intents[n]][..0] == [] && before + [] == before;
      assert Spends(intents[n]) == Outlay(intents[n]);
    }
  }

  /** What the k-th bar executed. */
  function PassedAt(cfg: Config, bars: seq<Bar>, k: nat): seq<Intent>
    requires Sane(cfg) && k < |bars|
  {
    var o := Opened(cfg, Replay(cfg, bars[..k]), bars[k]);
    var equity := Equity(cfg.legs, o.book, bars[k]);
    Passed(cfg, bars[k], o, equity, cfg.strategy(k, Snapshot(o.book, bars[k], o.spentToday)))
  }

  /** The lists from the m-th on and before the n-th, one after another. */
  function Joined(lists: nat -> seq<Intent>, m: nat, n: nat): seq<Intent> {
    if n <= m then [] else Joined(lists, m, n - 1) + lists(n - 1)
  }

  /** The k-th list is charged to counters that start at m and carry over from there. */
  predicate Charges(count: nat -> nat, spent: nat -> nat, lists: nat -> seq<Intent>, m: nat, k: nat) {
    && count(k + 1) == (if k > m then count(k) else 0) + |lists(k)|
    && spent(k + 1) == (if k > m then spent(k) else 0) + Outlays(lists(k))
  }

  lemma {:induction false} CountersFollow(count: nat -> nat, spent: nat -> nat, lists: nat -> seq<Intent>, m: nat, n: nat)
    requires m < n && forall k: nat | m <= k < n :: Charges(count, spent, lists, m, k)
    ensures count(n) == |Joined(lists, m, n)| && spent(n) == Outlays(Joined(lists, m, n))
  {
    var k := n - 1;
    var before := Joined(lists, m, k);
    assert Charges(count, spent, lists, m, k);
    OutlaysConcat(before, lists(k));
    if k > m {
      CountersFollow(count, spent, lists, m, k);
    } else {
      assert before == [];
    }
  }

  function PassedBy(cfg: Config, bars: seq<Bar>): nat -> seq<Intent>
    requires Sane(cfg)
  {
    (k: nat) => if k < |bars| then PassedAt(cfg, bars, k) else []
  }

  /** What the bars from m on and before n executed. */
  function PassedSince(cfg: Config, bars: seq<Bar>, m: nat, n: nat): seq<Intent>
    requires Sane(cfg)
  {
    Joined(PassedBy(cfg, bars), m, n)
  }

  /** Bar m is the first of its day, and bars m to n - 1 are all of that day. */
  predicate OneDay(bars: seq<Bar>, m: nat, n: nat) {
    && m < n <= |bars|
    && (forall k | m <= k < n :: bars[k].tSec / 86_400 == bars[m].tSec / 86_400)
    && (m > 0 ==> bars[m - 1].tSec / 86_400 != bars[m].tSec / 86_400)
  }

  lemma DayIsThatOfTheLastBar(cfg: Config, bars: seq<Bar>, n: nat)
    requires Sane(cfg) && n <= |bars|
    ensures Replay(cfg, bars[..n]).dayIndex == if n == 0 then None else Some(bars[n - 1].tSec / 86_400)
  {
    if n > 0 {
      var o := Opened(cfg, Replay(cfg, bars[..n - 1]), bars[n - 1]);
      assert bars[..n][..n - 1] == bars[..n - 1];
      PassedOrdersAreCharged(cfg, bars[n - 1], o, Equity(cfg.legs, o.book, bars[n - 1]),
                             cfg.strategy(n - 1, Snapshot(o.book, bars[n - 1], o.spentToday)));
    }
  }

  /** A bar charges its own orders to the day that stands, or to a new one. */
  lemma BarCharges(cfg: Config, bars: seq<Bar>, n: nat)
    requires Sane(cfg) && n < |bars|
    ensures var before, after := Replay(cfg, bars[..n]), Replay(cfg, bars[..n + 1]);
            var carried := n > 0 && bars[n - 1].tSec / 86_400 == bars[n].tSec / 86_400;
            && after.ops == (if carried then before.ops else 0) + |PassedAt(cfg, bars, n)|
            && after.spentToday == (if carried then before.spentToday else 0) + Outlays(PassedAt(cfg, bars, n))
  {
    assert bars[..n + 1][..n] == bars[..n];
    DayIsThatOfTheLastBar(cfg, bars, n);
    var o := Opened(cfg, Replay(cfg, bars[..n]), bars[n]);
    PassedOrdersAreCharged(cfg, bars[n], o, Equity(cfg.legs, o.book, bars[n]),
                           cfg.strategy(n, Snapshot(o.book, bars[n], o.spentToday)));
  }

  /** The daily caps see one day: over every replay, the budget counts exactly the orders
    * executed since the day's first bar, however long the run and wherever it stands. */
  lemma BudgetCountsTheDay(cfg: Config, bars: seq<Bar>, m: nat, n: nat)
    requires Sane(cfg) && OneDay(bars, m, n)
    ensures var s := Replay(cfg, bars[..n]); var passed := PassedSince(cfg, bars, m, n);
            s.ops == |passed| && s.spentToday == Outlays(passed)
  {
    forall k: nat | m <= k < n
      ensures Charges(OpsAfter(cfg, bars), SpentAfter(cfg, bars), PassedBy(cfg, bars), m, k)
    {
      BarIsCharged(cfg, bars, m, n, k);
    }
    CountersFollow(OpsAfter(cfg, bars), SpentAfter(cfg, bars), PassedBy(cfg, bars), m, n);
  }

  function OpsAfter(cfg: Config, bars: seq<Bar>): nat -> nat
    requires Sane(cfg)
  {
    (k: nat) => if k <= |bars| then Replay(cfg, bars[..k]).ops else 0
  }

  function SpentAfter(cfg: Config, bars: seq<Bar>): nat -> nat
    requires Sane(cfg)
  {
    (k: nat) => if k <= |bars| then Replay(cfg, bars[..k]).spentToday else 0
  }

  lemma BarIsCharged(cfg: Config, bars: seq<Bar>, m: nat, n: nat, k: nat)
    requires Sane(cfg) && OneDay(bars, m, n) && m <= k < n
    ensures Charges(OpsAfter(cfg, bars), SpentAfter(cfg, bars), PassedBy(cfg, bars), m, k)
  {
    BarCharges(cfg, bars, k);
  }

  // ── the greatest fall ──────────────────────────────────────────────────────

  /** A fall from one figure to another of at least so many basis points of the first. */
  predicate FallsBy(high: int, low: int, bps: int) {
    0 < high && low < high && bps * high <= (high - low) * 10_000
  }

  /** Some later point lies at least so far below an earlier one. */
  ghost predicate SomeFall(series: seq<Point>, bps: int) {
    exists i, j | 0 <= i <= j < |series| :: FallsBy(series[i].equityUsdg, series[j].equityUsdg, bps)
  }

  /** The greatest fall from any point to any later one, in whole basis points. */
  ghost predicate IsMaxDrawdown(series: seq<Point>, m: int) {
    !SomeFall(series, m + 1) && (m > 0 ==> SomeFall(series, m))
  }

  lemma DrawdownIff(high: int, low: int, bps: nat)
    requires bps > 0
    ensures Drawdown(high, low) >= bps <==> FallsBy(high, low, bps)
  {
    if high > 0 && low < high {
      QuotientBound((high - low) * 10_000, bps, high);
      var k := QuotientIs((high - low) * 10_000, high);
      if k < bps { Basis.NonNegProduct(bps - 1 - k, high); assert (bps - 1 - k) * high >= 0; }
    }
  }

  lemma FallsByLess(high: int, low: int, a: int, b: int)
    requires a <= b && FallsBy(high, low, b)
    ensures FallsBy(high, low, a)
  {
    Basis.NonNegProduct(b - a, high);
    assert (b - a) * high == b * high - a * high;
  }

  ghost predicate IsPeak(series: seq<Point>, peak: int) {
    && (forall p <- series :: p.equityUsdg <= peak)
    && (peak == 0 || exists p <- series :: p.equityUsdg == peak)
  }

  /** Falls of the longer series that end before its last point are falls of the shorter one,
    * and one that ends there is no greater than the fall from the peak. */
  lemma NoFallBeats(series: seq<Point>, p: Point, high: int, record: int, i: nat, j: nat)
    requires i <= j < |series + [p]| && !SomeFall(series, record + 1) && p.equityUsdg >= 0 && record >= 0
    requires (forall q <- series :: q.equityUsdg <= high) && p.equityUsdg <= high
    requires Drawdown(high, p.equityUsdg) <= record
    ensures !FallsBy((series + [p])[i].equityUsdg, (series + [p])[j].equityUsdg, record + 1)
  {
    var all := series + [p];
    if j == |series| {
      assert i < |series| ==> series[i] in series;
      DrawdownGrowsWithThePeak(all[i].equityUsdg, high, p.equityUsdg);
      DrawdownIff(all[i].equityUsdg, p.equityUsdg, record + 1);
    } else {
      assert all[i] == series[i] && all[j] == series[j];
    }
  }

  lemma LessIsSomeFall(series: seq<Point>, a: int, b: int)
    requires a <= b && SomeFall(series, b)
    ensures SomeFall(series, a)
  {
    var i, j :| 0 <= i <= j < |series| && FallsBy(series[i].equityUsdg, series[j].equityUsdg, b);
    FallsByLess(series[i].equityUsdg, series[j].equityUsdg, a, b);
  }

  /** The record is a fall of the longer series. */
  lemma RecordIsAFall(series: seq<Point>, p: Point, peak: int, m: int)
    requires IsPeak(series, peak) && peak >= 0 && m >= 0
    requires m > 0 ==> SomeFall(series, m)
    requires var high := Most(p.equityUsdg, peak); Most(Drawdown(high, p.equityUsdg), m) > 0
    ensures var high := Most(p.equityUsdg, peak);
            SomeFall(series + [p], Most(Drawdown(high, p.equityUsdg), m))
  {
    var all, high := series + [p], Most(p.equityUsdg, peak);
    var d := Drawdown(high, p.equityUsdg);
    if d > m {
      var q :| q in series && q.equityUsdg == peak;
      var i :| 0 <= i < |series| && series[i] == q;
      DrawdownIff(high, p.equityUsdg, d);
      assert all[i] == q && all[|series|] == p;
      assert FallsBy(all[i].equityUsdg, all[|series|].equityUsdg, d);
    } else {
      var i, j :| 0 <= i <= j < |series| && FallsBy(series[i].equityUsdg, series[j].equityUsdg, m);
      assert all[i] == series[i] && all[j] == series[j];
    }
  }

  /** One more point: only its fall from the highest point so far can beat the record. */
  lemma OneMorePoint(series: seq<Point>, p: Point, peak: int, m: int)
    requires IsPeak(series, peak) && IsMaxDrawdown(series, m) && peak >= 0 && m >= 0 && p.equityUsdg >= 0
    ensures var high := Most(p.equityUsdg, peak);
            && IsPeak(series + [p], high)
            && IsMaxDrawdown(series + [p], Most(Drawdown(high, p.equityUsdg), m))
  {
    var all, high := series + [p], Most(p.equityUsdg, peak);
    var record := Most(Drawdown(high, p.equityUsdg), m);
    PeakOfOneMore(series, p, peak);
    if SomeFall(series, record + 1) { LessIsSomeFall(series, m + 1, record + 1); }
    forall i: nat, j: nat | i <= j < |all|
      ensures !FallsBy(all[i].equityUsdg, all[j].equityUsdg, record + 1)
    {
      NoFallBeats(series, p, high, record, i, j);
    }
    if record > 0 { RecordIsAFall(series, p, peak, m); }
  }

  lemma PeakOfOneMore(series: seq<Point>, p: Point, peak: int)
    requires IsPeak(series, peak)
    ensures IsPeak(series + [p], Most(p.equityUsdg, peak))
  {
    assert p == (series + [p])[|series|];
    assert forall q <- series :: q in series + [p];
  }

  /** The reported drawdown, taken only against the running peak, is the greatest fall over
    * every pair of an earlier and a later point, in whole basis points of the earlier; and the
    * mark the policy is shown is the highest point there was. */
  lemma {:induction false} ReportedDrawdownIsTheGreatest(cfg: Config, bars: seq<Bar>)
    requires Sane(cfg) && InTimeOrder(bars)
    ensures var s := Replay(cfg, bars);
            && s.peak == s.hwm >= 0 && s.maxDrawdownBps >= 0
            && IsPeak(s.series, s.hwm) && IsMaxDrawdown(s.series, s.maxDrawdownBps)
  {
    if bars != [] {
      var n := |bars| - 1;
      assert InTimeOrder(bars[..n]);
      ReportedDrawdownIsTheGreatest(cfg, bars[..n]);
      NothingGoesNegative(cfg, bars[..n]);
      NothingGoesNegative(cfg, bars);
      var s, bar := Replay(cfg, bars[..n]), bars[n];
      var o := Opened(cfg, s, bar);
      OpenedBookIsNonNegative(cfg, bars);
      NoBarMints(cfg, bar, o, Equity(cfg.legs, o.book, bar), cfg.strategy(n, Snapshot(o.book, bar, o.spentToday)));
      PassedOrdersAreCharged(cfg, bar, o, Equity(cfg.legs, o.book, bar), cfg.strategy(n, Snapshot(o.book, bar, o.spentToday)));
      assert Replay(cfg, bars).series == o.series;
      assert o.series[n].equityUsdg >= 0;
      OneMorePoint(s.series, o.series[n], s.peak, s.maxDrawdownBps);
    }
  }

  lemma OpenedBookIsNonNegative(cfg: Config, bars: seq<Bar>)
    requires Sane(cfg) && InTimeOrder(bars) && bars != []
    ensures NonNegative(Opened(cfg, Replay(cfg, bars[..|bars| - 1]), bars[|bars| - 1]).book)
  {
    var n := |bars| - 1;
    NothingGoesNegative(cfg, bars[..n]);
    if n > 0 {
      assert bars[..n][n - 1] == bars[n - 1] && bars[n - 1].tSec <= bars[n].tSec;
      InterestIsNotNegative(cfg, Replay(cfg, bars[..n]).book, bars[n - 1].tSec, bars[n].tSec);
    }
  }
}
