/** Weighted-average cost basis and realized P&L (worker/src/basis.ts).
  * Amounts are the source's bigints: `qtyRaw` in raw token units, `costUsdg` and
  * `cashUsdg` in cash base units. */
module Basis {
  datatype Side = Buy | Sell

  datatype BasisRow = BasisRow(qtyRaw: int, costUsdg: int)

  datatype Fill = Fill(side: Side, qtyRaw: int, cashUsdg: int)

  datatype FillResult = FillResult(
    basis: BasisRow, realizedUsdg: int, costOutUsdg: int, appliedQtyRaw: int, basisUnknown: bool)

  const ZERO_BASIS := BasisRow(0, 0)

  /** JavaScript's bigint division: truncation toward zero. */
  function TruncDiv(a: int, b: int): int
    requires b > 0
  {
    if a >= 0 then a / b else -((-a) / b)
  }

  function ApplyFill(prev: BasisRow, fill: Fill): FillResult {
    if fill.qtyRaw <= 0 then
      FillResult(prev, 0, 0, 0, false)
    else if fill.side.Buy? then
      FillResult(BasisRow(prev.qtyRaw + fill.qtyRaw, prev.costUsdg + fill.cashUsdg), 0, 0, fill.qtyRaw, false)
    else if prev.qtyRaw <= 0 then
      FillResult(ZERO_BASIS, 0, 0, 0, true)
    else
      var sold := if fill.qtyRaw < prev.qtyRaw then fill.qtyRaw else prev.qtyRaw;
      var costOut := if sold == prev.qtyRaw then prev.costUsdg else TruncDiv(prev.costUsdg * sold, prev.qtyRaw);
      var partlyUnbacked := sold < fill.qtyRaw;
      FillResult(
        BasisRow(prev.qtyRaw - sold, prev.costUsdg - costOut),
        if partlyUnbacked then 0 else fill.cashUsdg - costOut,
        costOut, sold, partlyUnbacked)
  }

  function UnrealizedUsdg(basis: BasisRow, marketValueUsdg: int): int {
    if basis.qtyRaw <= 0 then 0 else marketValueUsdg - basis.costUsdg
  }

  // ── whole runs of fills ────────────────────────────────────────────────────

  /** A sell is backed when the tracked quantity covers all of it. */
  predicate Backed(prev: BasisRow, fill: Fill) {
    fill.side.Sell? && fill.qtyRaw > 0 ==> fill.qtyRaw <= prev.qtyRaw
  }

  /** What a run of fills adds up to. `unbacked...` total the sells of more than is tracked,
    * for which the source books no realized figure. */
  datatype Totals = Totals(
    basis: BasisRow, spent: int, proceeds: int, realized: int, costOut: int,
    unbackedProceeds: int, unbackedCostOut: int)

  const OPENING := Totals(ZERO_BASIS, 0, 0, 0, 0, 0, 0)

  function Tally(t: Totals, fill: Fill): Totals {
    var r := ApplyFill(t.basis, fill);
    var moved := if fill.qtyRaw <= 0 then 0 else fill.cashUsdg;
    var backed := Backed(t.basis, fill);
    Totals(
      r.basis,
      t.spent + (if fill.side.Buy? then moved else 0),
      t.proceeds + (if fill.side.Sell? then moved else 0),
      t.realized + r.realizedUsdg,
      t.costOut + r.costOutUsdg,
      t.unbackedProceeds + (if backed then 0 else moved),
      t.unbackedCostOut + (if backed then 0 else r.costOutUsdg))
  }

  function Run(fills: seq<Fill>): Totals {
    if fills == [] then OPENING else Tally(Run(fills[..|fills| - 1]), fills[|fills| - 1])
  }

  predicate AllBacked(fills: seq<Fill>) {
    fills == [] ||
    (AllBacked(fills[..|fills| - 1]) && Backed(Run(fills[..|fills| - 1]).basis, fills[|fills| - 1]))
  }

  /** What one fill does to the quantity: a buy adds it, a sell takes it down to zero at
    * most, and what was applied is what changed. Selling more than is tracked, and only
    * that, is flagged, and then no profit is booked and nothing stays on the books. */
  lemma FillMovesTheQuantity(prev: BasisRow, fill: Fill)
    requires prev.qtyRaw >= 0 && fill.qtyRaw > 0
    ensures var r := ApplyFill(prev, fill);
            && r.basis.qtyRaw ==
               (if fill.side.Buy? then prev.qtyRaw + fill.qtyRaw
                else if fill.qtyRaw <= prev.qtyRaw then prev.qtyRaw - fill.qtyRaw else 0)
            && r.appliedQtyRaw == (if fill.side.Buy? then r.basis.qtyRaw - prev.qtyRaw else prev.qtyRaw - r.basis.qtyRaw)
            && (r.basisUnknown <==> fill.side.Sell? && fill.qtyRaw > prev.qtyRaw)
            && (r.basisUnknown ==> r.realizedUsdg == 0 && r.basis == ZERO_BASIS)
  {
  }

  /** No cost is created, lost or stranded: everything ever spent was either removed
    * by a sell or is still on the books, and an empty position carries no cost. */
  lemma {:induction false} CostIsConserved(fills: seq<Fill>)
    ensures var t := Run(fills);
            && t.spent == t.costOut + t.basis.costUsdg
            && t.basis.qtyRaw >= 0
            && (t.basis.qtyRaw == 0 ==> t.basis.costUsdg == 0)
  {
    if fills != [] {
      CostIsConserved(fills[..|fills| - 1]);
    }
  }

  /** Realized plus unrealized P&L, for every run: it misses the cash identity by
    * exactly what the unbacked sells brought in over the cost they took out. */
  lemma {:induction false} ProfitIdentity(fills: seq<Fill>, marketValueUsdg: int)
    requires Run(fills).basis.qtyRaw == 0 ==> marketValueUsdg == 0
    ensures var t := Run(fills);
            t.realized + UnrealizedUsdg(t.basis, marketValueUsdg) ==
            t.proceeds + marketValueUsdg - t.spent - (t.unbackedProceeds - t.unbackedCostOut)
  {
    CostIsConserved(fills);
    RealizedIsProceedsLessCost(fills);
  }

  lemma {:induction false} RealizedIsProceedsLessCost(fills: seq<Fill>)
    ensures var t := Run(fills);
            t.realized == (t.proceeds - t.unbackedProceeds) - (t.costOut - t.unbackedCostOut)
  {
    if fills != [] {
      RealizedIsProceedsLessCost(fills[..|fills| - 1]);
    }
  }

  /** The identity the file promises: exact, for every fully backed run. */
  lemma BackedProfitIdentity(fills: seq<Fill>, marketValueUsdg: int)
    requires AllBacked(fills)
    requires Run(fills).basis.qtyRaw == 0 ==> marketValueUsdg == 0
    ensures var t := Run(fills);
            t.realized + UnrealizedUsdg(t.basis, marketValueUsdg) == t.proceeds + marketValueUsdg - t.spent
  {
    NothingUnbacked(fills);
    ProfitIdentity(fills, marketValueUsdg);
  }

  lemma {:induction false} NothingUnbacked(fills: seq<Fill>)
    requires AllBacked(fills)
    ensures Run(fills).unbackedProceeds == 0 && Run(fills).unbackedCostOut == 0
  {
    if fills != [] {
      NothingUnbacked(fills[..|fills| - 1]);
      CostIsConserved(fills[..|fills| - 1]);
    }
  }

  // ── how far truncation can drift ───────────────────────────────────────────

  /** Selling `amounts` one after another, each strictly less than what is held. */
  predicate PartialSells(b: BasisRow, amounts: seq<int>)
    decreases |amounts|
  {
    amounts == [] ||
    (0 < amounts[0] < b.qtyRaw && PartialSells(AfterSell(b, amounts[0]), amounts[1..]))
  }

  function AfterSell(b: BasisRow, amount: int): BasisRow {
    ApplyFill(b, Fill(Sell, amount, 0)).basis
  }

  function AfterSells(b: BasisRow, amounts: seq<int>): BasisRow
    decreases |amounts|
  {
    if amounts == [] then b else AfterSells(AfterSell(b, amounts[0]), amounts[1..])
  }

  /** One partial sell leaves the pro-rata cost, rounded up. */
  lemma OneSellRoundsUp(b: BasisRow, amount: int)
    requires 0 < amount < b.qtyRaw && b.costUsdg >= 0
    ensures var a := AfterSell(b, amount);
            && a.qtyRaw == b.qtyRaw - amount
            && b.costUsdg * a.qtyRaw <= a.costUsdg * b.qtyRaw < b.costUsdg * a.qtyRaw + b.qtyRaw
  {
    var c, q := b.costUsdg, b.qtyRaw;
    var p := c * amount;
    var out := p / q;
    assert p == out * q + p % q && 0 <= p % q < q;
    assert (c - out) * q == c * q - out * q;
    assert c * (q - amount) == c * q - p;
  }

  /** After n partial sells from (Q, C) down to q > 0, the remaining cost lies in
    * [C*q/Q, C*q/Q + n): truncation drifts by less than one unit per sell. */
  lemma {:induction false} DriftIsBounded(b: BasisRow, amounts: seq<int>)
    requires b.qtyRaw > 0 && b.costUsdg >= 0
    requires PartialSells(b, amounts)
    ensures var a := AfterSells(b, amounts);
            && 0 < a.qtyRaw <= b.qtyRaw
            && b.costUsdg * a.qtyRaw <= a.costUsdg * b.qtyRaw
            && (amounts != [] ==> a.costUsdg * b.qtyRaw < b.costUsdg * a.qtyRaw + |amounts| * b.qtyRaw)
            && (amounts == [] ==> a == b)
    decreases |amounts|
  {
    if amounts != [] {
      var m := AfterSell(b, amounts[0]);
      OneSellRoundsUp(b, amounts[0]);
      assert m.costUsdg >= 0 by {
        if m.costUsdg < 0 {
          NegTimesPos(m.costUsdg, b.qtyRaw);
          NonNegProduct(b.costUsdg, m.qtyRaw);
        }
      }
      DriftIsBounded(m, amounts[1..]);
      var a := AfterSells(m, amounts[1..]);
      DriftStep(b.qtyRaw, b.costUsdg, m.qtyRaw, m.costUsdg, a.qtyRaw, a.costUsdg, |amounts| - 1);
    }
  }

  lemma NegTimesPos(x: int, y: int)
    requires x < 0 < y
    ensures x * y < 0
  {
  }

  lemma NonNegProduct(x: int, y: int)
    requires x >= 0 && y >= 0
    ensures x * y >= 0
  {
  }

  /** The arithmetic of chaining one step (Q, C) -> (r, d) with a bounded tail (r, d) -> (q, c). */
  lemma DriftStep(Q: int, C: int, r: int, d: int, q: int, c: int, n: int)
    requires 0 < q <= r <= Q && n >= 0
    requires C * r <= d * Q < C * r + Q
    requires d * q <= c * r
    requires n > 0 ==> c * r < d * q + n * r
    requires n == 0 ==> q == r && c == d
    ensures C * q <= c * Q < C * q + (n + 1) * Q
  {
    // lower bound: C*r*q <= d*Q*q == d*q*Q <= c*r*Q, then cancel r
    MulLe(C * r, d * Q, q);
    MulLe(d * q, c * r, Q);
    Swap(C, r, q);
    Swap(d, Q, q);
    Swap(c, r, Q);
    CancelLe(C * q, c * Q, r);
    if n > 0 {
      DriftUpper(Q, C, r, d, q, c, n);
    }
  }

  lemma DriftUpper(Q: int, C: int, r: int, d: int, q: int, c: int, n: int)
    requires 0 < q <= r <= Q && n > 0
    requires d * Q < C * r + Q
    requires c * r < d * q + n * r
    ensures c * Q < C * q + (n + 1) * Q
  {
    // c*r*Q < (d*q + n*r)*Q == d*Q*q + n*Q*r < (C*r + Q)*q + n*Q*r <= (C*q + (n+1)*Q)*r
    MulLt(c * r, d * q + n * r, Q);
    Spread(d * q, n * r, Q);
    MulLt(d * Q, C * r + Q, q);
    Spread(C * r, Q, q);
    MulLe(q, r, Q);
    Swap(c, r, Q);
    Swap(d, q, Q);
    Swap(n, r, Q);
    Swap(C, r, q);
    Spread(C * q + n * Q, Q, r);
    Spread(C * q, n * Q, r);
    Spread(n, 1, Q);
    CancelLt(c * Q, C * q + n * Q + Q, r);
  }

  lemma Swap(x: int, y: int, z: int)
    ensures x * y * z == x * z * y
  {
  }

  lemma Spread(x: int, y: int, k: int)
    ensures (x + y) * k == x * k + y * k
  {
  }

  lemma MulLe(x: int, y: int, k: int)
    requires x <= y && k > 0
    ensures x * k <= y * k
  {
  }

  lemma MulLt(x: int, y: int, k: int)
    requires x < y && k > 0
    ensures x * k < y * k
  {
  }

  lemma CancelLe(x: int, y: int, k: int)
    requires k > 0 && x * k <= y * k
    ensures x <= y
  {
    if x > y { MulLt(y, x, k); }
  }

  lemma CancelLt(x: int, y: int, k: int)
    requires k > 0 && x * k < y * k
    ensures x < y
  {
    if x >= y { MulLe(y, x, k); }
  }
}
