/** What the envelope check of `reconcile` can and cannot see, over whole runs: every
  * sequence of capital flows and fully backed fills, closed by a truthful mark. */
module BookEnvelope {
  import opened Text
  import opened BookAudit
  import Basis

  /** The gas a row carries; the figure in cash is absent when nothing priced it. */
  datatype Gas = NoGas | Burned(wei: int, usdg: Option<int>)

  /** `tx` is empty for a row with no transaction behind it. `Order` is one that moved
    * nothing: refused, whatever it was for, or reverted on chain. */
  datatype Event =
    | Flow(inbound: bool, amountUsdg: int, tx: string)
    | Trade(symbol: nat, fill: Basis.Fill, tx: string, gas: Gas)
    | Order(status: string, side: string, amountUsdg: int, tx: string, gas: Gas)

  /** The account as it really is, with running totals of what was traded and burned, and the
    * rows that can and cannot be checked against the chain. */
  datatype World = World(
    net: int, cash: int, bases: seq<Basis.BasisRow>, spent: int, costOut: int, realized: int, flows: nat,
    gasWei: int, gasUsdg: int, unpriced: nat, anchored: seq<Ref>, loose: seq<Ref>)

  function Traced(w: World, kind: string, num: nat, tx: string): World {
    if tx != "" then w.(anchored := w.anchored + [Ref(kind, num)]) else w.(loose := w.loose + [Ref(kind, num)])
  }

  /** Gas is a cost whoever pays it; only what landed has to be priced. */
  function Burn(w: World, gas: Gas, landed: bool): World {
    match gas
    case NoGas => w
    case Burned(wei, Some(usdg)) => w.(gasWei := w.gasWei + wei, gasUsdg := w.gasUsdg + usdg)
    case Burned(wei, None) => w.(gasWei := w.gasWei + wei, unpriced := w.unpriced + if landed then 1 else 0)
  }

  function Step(w: World, e: Event, num: nat): World
    requires e.Trade? ==> e.symbol < |w.bases|
  {
    match e
    case Flow(inbound, amount, tx) =>
      var signed := if inbound then amount else -amount;
      Traced(w.(net := w.net + signed, cash := w.cash + signed, flows := w.flows + 1), "flow", num, tx)
    case Trade(symbol, fill, tx, gas) =>
      var r := Basis.ApplyFill(w.bases[symbol], fill);
      Burn(Traced(w.(
        bases := w.bases[symbol := r.basis],
        cash := w.cash + (if fill.side.Buy? then -fill.cashUsdg else fill.cashUsdg),
        spent := w.spent + (if fill.side.Buy? then fill.cashUsdg else 0),
        costOut := w.costOut + r.costOutUsdg,
        realized := w.realized + r.realizedUsdg), "fill", num, tx), gas, true)
    case Order(_, _, _, tx, gas) => Burn(Traced(w, "fill", num, tx), gas, false)
  }

  function Start(symbols: nat): World {
    World(0, 0, seq(symbols, _ => Basis.ZERO_BASIS), 0, 0, 0, 0, 0, 0, 0, [], [])
  }

  /** A fill that moves something, for a known symbol, whose sale is fully backed; an order
    * that was refused, or reverted and so has no side. */
  predicate CanHappen(w: World, e: Event) {
    match e
    case Flow(_, _, _) => true
    case Trade(symbol, fill, _, _) =>
      && symbol < |w.bases| && fill.qtyRaw > 0 && fill.cashUsdg >= 0
      && Basis.Backed(w.bases[symbol], fill)
    case Order(status, side, _, _, _) => status == "rejected" || (status == "reverted" && side == "")
  }

  predicate Possible(symbols: nat, events: seq<Event>)
    decreases |events|, 0
  {
    events == [] ||
    (Possible(symbols, events[..|events| - 1]) &&
     CanHappen(After(symbols, events[..|events| - 1]), events[|events| - 1]))
  }

  function After(symbols: nat, events: seq<Event>): World
    requires Possible(symbols, events)
    decreases |events|, 1
  {
    if events == [] then Start(symbols)
    else Step(After(symbols, events[..|events| - 1]), events[|events| - 1], |events| - 1)
  }

  const BLANK := Payload(None, "", "", "", None, "", None, None, None, None, None, None, None, None)

  function WeiOf(gas: Gas): Option<int> {
    if gas.Burned? then Some(gas.wei) else None
  }

  function PriceOf(gas: Gas): Option<int> {
    if gas.Burned? then gas.usdg else None
  }

  /** What the worker journals for an event. */
  function Row(w: World, e: Event, num: nat): Entry
    requires CanHappen(w, e)
  {
    match e
    case Flow(inbound, amount, tx) =>
      Entry(num, "flow", Some(BLANK.(
        amountUsdg := Some(amount), direction := if inbound then "in" else "out", txHash := tx)))
    case Trade(symbol, fill, tx, gas) =>
      var r := Basis.ApplyFill(w.bases[symbol], fill);
      Entry(num, "fill", Some(BLANK.(
        status := "landed", txHash := tx, gasWei := WeiOf(gas), gasUsdg := PriceOf(gas),
        realizedPnlUsdg := if r.basisUnknown then None else Some(r.realizedUsdg),
        fillSide := if fill.side.Buy? then "buy" else "sell",
        fillCashUsdg := Some(fill.cashUsdg))))
    case Order(status, side, amount, tx, gas) =>
      Entry(num, "fill", Some(BLANK.(
        status := status, txHash := tx, gasWei := WeiOf(gas), gasUsdg := PriceOf(gas),
        amountUsdg := Some(amount), fillSide := side)))
  }

  function Journal(symbols: nat, events: seq<Event>): seq<Entry>
    requires Possible(symbols, events)
  {
    if events == [] then [] else
      var before := events[..|events| - 1];
      Journal(symbols, before) + [Row(After(symbols, before), events[|events| - 1], |before|)]
  }

  // ── what the run keeps ─────────────────────────────────────────────────────

  function Cost(bases: seq<Basis.BasisRow>): int {
    if bases == [] then 0 else bases[0].costUsdg + Cost(bases[1..])
  }

  lemma {:induction false} CostOfUpdate(bases: seq<Basis.BasisRow>, i: nat, r: Basis.BasisRow)
    requires i < |bases|
    ensures Cost(bases[i := r]) == Cost(bases) - bases[i].costUsdg + r.costUsdg
  {
    if i > 0 {
      CostOfUpdate(bases[1..], i - 1, r);
      assert bases[i := r][1..] == bases[1..][i - 1 := r];
    } else {
      assert bases[0 := r][1..] == bases[1..];
    }
  }

  lemma {:induction false} NothingHeldCostsNothing(bases: seq<Basis.BasisRow>)
    requires forall i | 0 <= i < |bases| :: bases[i] == Basis.ZERO_BASIS
    ensures Cost(bases) == 0
  {
    if bases != [] {
      NothingHeldCostsNothing(bases[1..]);
    }
  }

  lemma {:induction false} CostIsNonNegative(bases: seq<Basis.BasisRow>)
    requires forall i | 0 <= i < |bases| :: Sane(bases[i])
    ensures Cost(bases) >= 0
  {
    if bases != [] {
      assert forall i | 0 <= i < |bases[1..]| :: bases[1..][i] == bases[i + 1];
      CostIsNonNegative(bases[1..]);
    }
  }

  predicate Sane(b: Basis.BasisRow) {
    b.qtyRaw >= 0 && b.costUsdg >= 0 && (b.qtyRaw == 0 ==> b.costUsdg == 0)
  }

  ghost predicate Consistent(w: World) {
    && (forall i | 0 <= i < |w.bases| :: Sane(w.bases[i]))
    && Cost(w.bases) == w.spent - w.costOut
    && w.costOut >= 0
    && w.cash == w.net + w.realized - Cost(w.bases)
  }

  lemma BackedFillKeepsCost(prev: Basis.BasisRow, fill: Basis.Fill)
    requires Sane(prev) && fill.qtyRaw > 0 && fill.cashUsdg >= 0 && Basis.Backed(prev, fill)
    ensures var r := Basis.ApplyFill(prev, fill);
            && Sane(r.basis) && !r.basisUnknown && r.costOutUsdg >= 0
            && (fill.side.Buy? ==> r.costOutUsdg == 0 && r.realizedUsdg == 0 &&
                                   r.basis.costUsdg == prev.costUsdg + fill.cashUsdg)
            && (fill.side.Sell? ==> r.realizedUsdg == fill.cashUsdg - r.costOutUsdg &&
                                    r.basis.costUsdg == prev.costUsdg - r.costOutUsdg)
  {
    if fill.side.Sell? && fill.qtyRaw < prev.qtyRaw {
      ShareIsWithin(prev.costUsdg, fill.qtyRaw, prev.qtyRaw);
    }
  }

  lemma ShareIsWithin(cost: nat, sold: nat, held: nat)
    requires 0 < sold < held
    ensures 0 <= cost * sold && 0 <= cost * sold / held <= cost
  {
    Basis.NonNegProduct(cost, sold);
    if cost > 0 { Basis.MulLt(sold, held, cost); }
    assert cost * sold <= cost * held;
    Basis.CancelLe(cost * sold / held, cost, held);
  }

  lemma StepIsConsistent(w: World, e: Event, num: nat)
    requires Consistent(w) && CanHappen(w, e)
    ensures Consistent(Step(w, e, num))
  {
    if e.Trade? {
      BackedFillKeepsCost(w.bases[e.symbol], e.fill);
      CostOfUpdate(w.bases, e.symbol, Basis.ApplyFill(w.bases[e.symbol], e.fill).basis);
    }
  }

  lemma {:induction false} RunsAreConsistent(symbols: nat, events: seq<Event>)
    requires Possible(symbols, events)
    ensures Consistent(After(symbols, events))
  {
    if events == [] {
      NothingHeldCostsNothing(Start(symbols).bases);
    } else {
      var n := |events| - 1;
      RunsAreConsistent(symbols, events[..n]);
      StepIsConsistent(After(symbols, events[..n]), events[n], n);
    }
  }

  /** The book that is rebuilt from a journal whose rows stand for this world. */
  ghost function TheBook(w: World): Book {
    Book(w.net, w.realized, w.gasWei, w.gasUsdg, w.unpriced, None, w.flows, 0, w.spent, w.anchored, w.loose)
  }

  /** One row more, one event more. */
  lemma RowIsFaithful(w: World, e: Event, num: nat)
    requires CanHappen(w, e) && forall i | 0 <= i < |w.bases| :: Sane(w.bases[i])
    ensures Entered(TheBook(w), Row(w, e, num)) == TheBook(Step(w, e, num))
  {
    if e.Trade? { BackedFillKeepsCost(w.bases[e.symbol], e.fill); }
  }

  /** Rebuilding the book of a run gives the run's own totals: flows, profit, purchases, gas,
    * and every row with or without its transaction. */
  lemma {:induction false} JournalIsFaithful(symbols: nat, events: seq<Event>)
    requires Possible(symbols, events)
    ensures BookOf(Journal(symbols, events)) == TheBook(After(symbols, events))
  {
    if events != [] {
      var before := events[..|events| - 1];
      JournalIsFaithful(symbols, before);
      RunsAreConsistent(symbols, before);
      var j := Journal(symbols, events);
      assert j[..|before|] == Journal(symbols, before) && |j| == |before| + 1 by { JournalLength(symbols, before); }
      BookOneMore(j, |before|);
      assert j[..|before| + 1] == j;
      RowIsFaithful(After(symbols, before), events[|before|], |before|);
    }
  }

  lemma {:induction false} JournalLength(symbols: nat, events: seq<Event>)
    requires Possible(symbols, events)
    ensures |Journal(symbols, events)| == |events|
  {
    if events != [] { JournalLength(symbols, events[..|events| - 1]); }
  }

  /** The sums of the run's journal are the run's totals. */
  lemma JournalSums(symbols: nat, events: seq<Event>)
    requires Possible(symbols, events)
    ensures var w, j := After(symbols, events), Journal(symbols, events);
            && Sum(j, FlowAmount) == w.net && Sum(j, RealizedAmount) == w.realized
            && Sum(j, BuyNotional) == w.spent && Sum(j, FlowSeen) == w.flows
  {
    JournalIsFaithful(symbols, events);
  }

  // ── the closing mark ───────────────────────────────────────────────────────

  /** How the held symbols are valued: a market value each, which symbols no price
    * could be found for, how much cash sits in the vault, and what the vault earned. */
  datatype Valuation = Valuation(marked: seq<nat>, unpriced: seq<bool>, inVault: int, vaultGain: nat)

  predicate Fits(w: World, v: Valuation) {
    |v.marked| == |w.bases| == |v.unpriced|
  }

  function Positions(marked: seq<nat>, unpriced: seq<bool>): nat
    requires |marked| == |unpriced|
  {
    if marked == [] then 0
    else (if unpriced[0] then 0 else marked[0]) + Positions(marked[1..], unpriced[1..])
  }

  function QuarantinedCost(bases: seq<Basis.BasisRow>, unpriced: seq<bool>): int
    requires |bases| == |unpriced|
  {
    if bases == [] then 0
    else (if unpriced[0] then bases[0].costUsdg else 0) + QuarantinedCost(bases[1..], unpriced[1..])
  }

  lemma {:induction false} QuarantinedCostIsNonNegative(bases: seq<Basis.BasisRow>, unpriced: seq<bool>)
    requires |bases| == |unpriced| && forall i | 0 <= i < |bases| :: Sane(bases[i])
    ensures QuarantinedCost(bases, unpriced) >= 0
  {
    if bases != [] {
      assert forall i | 0 <= i < |bases[1..]| :: bases[1..][i] == bases[i + 1];
      QuarantinedCostIsNonNegative(bases[1..], unpriced[1..]);
    }
  }

  function Parts(w: World, v: Valuation): BookParts
    requires Fits(w, v)
  {
    BookParts(w.cash - v.inVault, v.inVault + v.vaultGain,
              Positions(v.marked, v.unpriced), QuarantinedCost(w.bases, v.unpriced))
  }

  function MarkRow(w: World, v: Valuation, num: nat): Entry
    requires Fits(w, v)
  {
    var p := Parts(w, v);
    Entry(num, "mark", Some(BLANK.(
      equityUsdg := Some(ComposeEquityUsdg(p)), cashUsdg := Some(p.cashUsdg),
      positionsUsdg := Some(p.positionsUsdg), vaultUsdg := Some(p.vaultUsdg),
      quarantinedCostUsdg := Some(p.quarantinedCostUsdg))))
  }

  /** Closing a journal with a mark changes what is published and no total. */
  lemma MarkOnlyPublishes(j: seq<Entry>, w: World, v: Valuation, num: nat)
    requires Fits(w, v)
    ensures var b, m := BookOf(j + [MarkRow(w, v, num)]), MarkRow(w, v, num);
            && b.netContributionsUsdg == Sum(j, FlowAmount)
            && b.realizedPnlUsdg == Sum(j, RealizedAmount)
            && b.grossBuyNotionalUsdg == Sum(j, BuyNotional)
            && b.flowCount == Sum(j, FlowSeen)
            && b.published == Some(MarkOf(m))
  {
    var closed := j + [MarkRow(w, v, num)];
    assert closed[..|closed| - 1] == j;
  }

  /** The verdict on a book closed by a truthful mark, from the totals of its journal. */
  lemma MarkedVerdict(j: seq<Entry>, w: World, v: Valuation, num: nat)
    requires Fits(w, v)
    ensures var p := Parts(w, v);
            var residual := ComposeEquityUsdg(p) - (Sum(j, FlowAmount) + Sum(j, RealizedAmount));
            var judged := Sum(j, FlowSeen) > 0 && (Sum(j, BuyNotional) > 0 || p.positionsUsdg <= ARITHMETIC_TOLERANCE);
            var verdict := Reconcile(BookOf(j + [MarkRow(w, v, num)]));
            && verdict.residualUsdg == Some(residual)
            && verdict.findings ==
               if judged && residual > p.positionsUsdg + p.quarantinedCostUsdg + ARITHMETIC_TOLERANCE then [MoneyFromNowhere]
               else if judged && residual < -Sum(j, BuyNotional) - ARITHMETIC_TOLERANCE then [ContributionsUnsupported]
               else []
  {
    MarkOnlyPublishes(j, w, v, num);
  }

  /** The key identity: what equity has left to explain is the marked positions, the
    * quarantined cost and the vault's earnings, less the cost still on the books. */
  lemma ResidualIsUnrealized(symbols: nat, events: seq<Event>, v: Valuation)
    requires Possible(symbols, events) && Fits(After(symbols, events), v)
    ensures var w := After(symbols, events);
            var p := Parts(w, v);
            Reconcile(BookOf(Journal(symbols, events) + [MarkRow(w, v, |events|)])).residualUsdg ==
            Some(p.positionsUsdg + p.quarantinedCostUsdg + v.vaultGain - (w.spent - w.costOut))
  {
    RunsAreConsistent(symbols, events);
    JournalSums(symbols, events);
    MarkedVerdict(Journal(symbols, events), After(symbols, events), v, |events|);
  }

  /** A truthful book is never accused of unsupported contributions or of not adding up.
    * It is reported as holding money from nowhere exactly when the vault earned more than
    * the cost still on the books plus the tolerance: vault interest is not a term the
    * check knows. */
  lemma TruthfulBookVerdict(symbols: nat, events: seq<Event>, v: Valuation)
    requires Possible(symbols, events) && Fits(After(symbols, events), v)
    ensures var w := After(symbols, events);
            var visible := w.spent > 0 || Parts(w, v).positionsUsdg <= ARITHMETIC_TOLERANCE;
            Reconcile(BookOf(Journal(symbols, events) + [MarkRow(w, v, |events|)])).findings ==
            if w.flows > 0 && visible && v.vaultGain > (w.spent - w.costOut) + ARITHMETIC_TOLERANCE
            then [MoneyFromNowhere] else []
  {
    var w := After(symbols, events);
    RunsAreConsistent(symbols, events);
    CostIsNonNegative(w.bases);
    QuarantinedCostIsNonNegative(w.bases, v.unpriced);
    JournalSums(symbols, events);
    MarkedVerdict(Journal(symbols, events), w, v, |events|);
  }

  /** Such a book: one deposit, never traded, all of it in the vault, whose interest passes
    * the tolerance. */
  lemma VaultInterestIsAccused(deposit: nat, interest: nat)
    requires interest > ARITHMETIC_TOLERANCE
    ensures var events, v := [Flow(true, deposit, "")], Valuation([], [], deposit, interest);
            && Possible(0, events) && Fits(After(0, events), v)
            && Reconcile(BookOf(Journal(0, events) + [MarkRow(After(0, events), v, 1)])).findings == [MoneyFromNowhere]
  {
    var events, v := [Flow(true, deposit, "")], Valuation([], [], deposit, interest);
    assert events[..0] == [];
    assert Possible(0, events[..0]) && After(0, events[..0]) == Start(0);
    assert After(0, events) == Step(Start(0), events[0], 0);
    TruthfulBookVerdict(0, events, v);
  }

  /** The promise, for books whose vault earned nothing: no finding, whatever was traded. */
  lemma TruthfulBookIsClean(symbols: nat, events: seq<Event>, v: Valuation)
    requires Possible(symbols, events) && Fits(After(symbols, events), v) && v.vaultGain == 0
    ensures Reconcile(BookOf(Journal(symbols, events) + [MarkRow(After(symbols, events), v, |events|)])).findings == []
  {
    TruthfulBookVerdict(symbols, events, v);
    RunsAreConsistent(symbols, events);
    CostIsNonNegative(After(symbols, events).bases);
  }

  /** The closing mark with an equity figure that is off by so much. */
  function MisstatedRow(w: World, v: Valuation, num: nat, off: int): Entry
    requires Fits(w, v)
  {
    var truth := MarkRow(w, v, num);
    truth.(payload := Some(truth.payload.value.(equityUsdg := Some(ComposeEquityUsdg(Parts(w, v)) + off))))
  }

  /** An equity figure published beside its own components is caught exactly when it is off by
    * more than the tolerance, in either direction. */
  lemma MisstatedEquityIsFlaggedIff(symbols: nat, events: seq<Event>, v: Valuation, off: int)
    requires Possible(symbols, events) && Fits(After(symbols, events), v)
    ensures var row := MisstatedRow(After(symbols, events), v, |events|, off);
            DoesNotAddUp in Reconcile(BookOf(Journal(symbols, events) + [row])).findings <==>
              off > ARITHMETIC_TOLERANCE || off < -ARITHMETIC_TOLERANCE
  {
    ClosedMisstated(Journal(symbols, events), After(symbols, events), v, |events|, off);
  }

  lemma ClosedMisstated(j: seq<Entry>, w: World, v: Valuation, num: nat, off: int)
    requires Fits(w, v)
    ensures DoesNotAddUp in Reconcile(BookOf(j + [MisstatedRow(w, v, num, off)])).findings <==>
              off > ARITHMETIC_TOLERANCE || off < -ARITHMETIC_TOLERANCE
  {
    var row := MisstatedRow(w, v, num, off);
    PublishedIsTheLastMark(j + [row], |j|);
    CompositionOf(BookOf(j + [row]), MarkOf(row));
  }

  /** A mark with all its parts is out of line exactly when they do not make up its equity. */
  lemma CompositionOf(b: Book, m: Mark)
    requires b.published == Some(m)
    requires m.cashUsdg.Some? && m.vaultUsdg.Some? && m.positionsUsdg.Some? && m.quarantinedCostUsdg.Some?
    ensures var parts := m.cashUsdg.value + m.vaultUsdg.value + m.positionsUsdg.value + m.quarantinedCostUsdg.value;
            DoesNotAddUp in Reconcile(b).findings <==>
              m.equityUsdg - parts > ARITHMETIC_TOLERANCE || m.equityUsdg - parts < -ARITHMETIC_TOLERANCE
  {
  }

  lemma PhantomOnlyAddsAFlow(j: seq<Entry>, at: nat, x: nat)
    requires at <= |j|
    ensures var k := j[..at] + [PhantomRow(x)] + j[at..];
            && Sum(k, FlowAmount) == Sum(j, FlowAmount) + x
            && Sum(k, RealizedAmount) == Sum(j, RealizedAmount)
            && Sum(k, BuyNotional) == Sum(j, BuyNotional)
            && Sum(k, FlowSeen) == Sum(j, FlowSeen) + 1
  {
    SumOfInserted(j, at, PhantomRow(x), FlowAmount);
    SumOfInserted(j, at, PhantomRow(x), RealizedAmount);
    SumOfInserted(j, at, PhantomRow(x), BuyNotional);
    SumOfInserted(j, at, PhantomRow(x), FlowSeen);
  }

  /** A contribution that never happened. */
  function PhantomRow(x: nat): Entry {
    Entry(0, "flow", Some(BLANK.(amountUsdg := Some(x), direction := "in")))
  }

  /** A phantom contribution of X, booked anywhere in the journal of a truthful book, is
    * flagged exactly when X exceeds the marked positions plus the quarantined cost plus what
    * the vault earned plus the cost sells have removed plus the tolerance, and the journal
    * shows a purchase (or holds nothing worth marking). Below that it passes unseen; it also
    * covers for as much vault interest as it is large. */
  lemma PhantomIsFlaggedIff(symbols: nat, events: seq<Event>, v: Valuation, at: nat, x: nat)
    requires Possible(symbols, events) && Fits(After(symbols, events), v)
    requires at <= |Journal(symbols, events)|
    ensures var w, j := After(symbols, events), Journal(symbols, events);
            var p := Parts(w, v);
            var visible := w.spent > 0 || p.positionsUsdg <= ARITHMETIC_TOLERANCE;
            Reconcile(BookOf(j[..at] + [PhantomRow(x)] + j[at..] + [MarkRow(w, v, |events|)])).findings ==
            if visible && x > p.positionsUsdg + p.quarantinedCostUsdg + v.vaultGain + w.costOut + ARITHMETIC_TOLERANCE
            then [ContributionsUnsupported]
            else if visible && v.vaultGain > (w.spent - w.costOut) + x + ARITHMETIC_TOLERANCE then [MoneyFromNowhere]
            else []
  {
    var w, j := After(symbols, events), Journal(symbols, events);
    RunsAreConsistent(symbols, events);
    CostIsNonNegative(w.bases);
    QuarantinedCostIsNonNegative(w.bases, v.unpriced);
    JournalSums(symbols, events);
    PhantomOnlyAddsAFlow(j, at, x);
    MarkedVerdict(j[..at] + [PhantomRow(x)] + j[at..], w, v, |events|);
  }
}
