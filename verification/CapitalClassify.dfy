/** Which USDG movements are the owner's capital (packages/core/src/capital-classify.ts). */
module CapitalClassify {
  import opened Text

  datatype CapitalKind = CapitalIn | CapitalOut | TradeOut | TradeIn | Internal | Protocol | Ambiguous

  datatype TransferLeg = TransferLeg(token: string, from: string, to: string, amountRaw: nat)

  /** The addresses a scan knows about. */
  datatype Known = Known(accounts: seq<string>, protocols: seq<string>, systems: seq<string>)

  predicate Listed(list: seq<string>, a: string) {
    exists i | 0 <= i < |list| :: Same(list[i], a)
  }

  /** A different token moved the other way in the same transaction. */
  predicate Paired(txLegs: seq<TransferLeg>, account: string, usdgToken: string, outbound: bool) {
    exists i | 0 <= i < |txLegs| ::
      && !Same(txLegs[i].token, usdgToken)
      && Same(if outbound then txLegs[i].to else txLegs[i].from, account)
      && txLegs[i].amountRaw > 0
  }

  function ClassifyUsdgMovement(
    account: string, usdg: TransferLeg, txLegs: seq<TransferLeg>, usdgToken: string, known: Known): CapitalKind
  {
    var outbound := Same(usdg.from, account);
    var inbound := Same(usdg.to, account);
    var counterparty := if outbound then usdg.to else usdg.from;
    if outbound == inbound then Ambiguous
    else if Paired(txLegs, account, usdgToken, outbound) then if outbound then TradeOut else TradeIn
    else if Listed(known.accounts, counterparty) then Internal
    else if Listed(known.systems, counterparty) then Protocol
    else if Listed(known.protocols, counterparty) then Ambiguous
    else if outbound then CapitalOut else CapitalIn
  }

  // ── what a verdict says about the transfer ─────────────────────────────────

  /** In the same receipt a positive amount of another token moved the other way. */
  ghost predicate OppositeLeg(txLegs: seq<TransferLeg>, account: string, usdgToken: string, outbound: bool) {
    exists leg | leg in txLegs ::
      && leg.amountRaw > 0 && Lower(leg.token) != Lower(usdgToken)
      && Lower(if outbound then leg.to else leg.from) == Lower(account)
  }

  ghost predicate NamedIn(list: seq<string>, a: string) {
    exists x | x in list :: Lower(x) == Lower(a)
  }

  /** Money crossing the account's boundary: exactly one end is the account. */
  predicate CrossesOut(account: string, leg: TransferLeg) {
    Lower(leg.from) == Lower(account) && Lower(leg.to) != Lower(account)
  }

  predicate CrossesIn(account: string, leg: TransferLeg) {
    Lower(leg.to) == Lower(account) && Lower(leg.from) != Lower(account)
  }

  /** The other end is nobody the system knows. */
  ghost predicate FromOutside(known: Known, other: string) {
    !NamedIn(known.accounts, other) && !NamedIn(known.systems, other) && !NamedIn(known.protocols, other)
  }

  lemma ListedIffNamed(list: seq<string>, a: string)
    ensures Listed(list, a) <==> NamedIn(list, a)
  {
  }

  lemma PairedIffOpposite(txLegs: seq<TransferLeg>, account: string, usdgToken: string, outbound: bool)
    ensures Paired(txLegs, account, usdgToken, outbound) <==> OppositeLeg(txLegs, account, usdgToken, outbound)
  {
  }

  /** A movement is capital if and only if it crosses the account's boundary, no other token
    * moved the other way in its receipt, and the other end is nobody the system knows; it is
    * in or out by the end the account is. */
  lemma CapitalIff(account: string, usdg: TransferLeg, txLegs: seq<TransferLeg>, usdgToken: string, known: Known)
    ensures var k := ClassifyUsdgMovement(account, usdg, txLegs, usdgToken, known);
            && (k.CapitalIn? <==> CrossesIn(account, usdg) && !OppositeLeg(txLegs, account, usdgToken, false)
                                  && FromOutside(known, usdg.from))
            && (k.CapitalOut? <==> CrossesOut(account, usdg) && !OppositeLeg(txLegs, account, usdgToken, true)
                                   && FromOutside(known, usdg.to))
  {
    var outbound := Lower(usdg.from) == Lower(account);
    var other := if outbound then usdg.to else usdg.from;
    PairedIffOpposite(txLegs, account, usdgToken, outbound);
    ListedIffNamed(known.accounts, other);
    ListedIffNamed(known.systems, other);
    ListedIffNamed(known.protocols, other);
  }

  /** What is not capital: a swap whoever the venue is; else a movement between the system's
    * own accounts; else infrastructure; and what nobody can decide, a movement that does not
    * cross the boundary or a known venue with nothing coming back. */
  lemma NotCapitalBecause(account: string, usdg: TransferLeg, txLegs: seq<TransferLeg>, usdgToken: string, known: Known)
    ensures var k := ClassifyUsdgMovement(account, usdg, txLegs, usdgToken, known);
            var out, crosses := CrossesOut(account, usdg), CrossesOut(account, usdg) || CrossesIn(account, usdg);
            var other := if out then usdg.to else usdg.from;
            var swap := crosses && OppositeLeg(txLegs, account, usdgToken, out);
            && (k.TradeOut? <==> swap && out) && (k.TradeIn? <==> swap && !out)
            && (k.Internal? <==> crosses && !swap && NamedIn(known.accounts, other))
            && (k.Protocol? <==> crosses && !swap && !NamedIn(known.accounts, other) && NamedIn(known.systems, other))
            && (k.Ambiguous? <==> !crosses || (!swap && !NamedIn(known.accounts, other)
                                               && !NamedIn(known.systems, other) && NamedIn(known.protocols, other)))
  {
    var outbound := Lower(usdg.from) == Lower(account);
    var other := if outbound then usdg.to else usdg.from;
    PairedIffOpposite(txLegs, account, usdgToken, outbound);
    ListedIffNamed(known.accounts, other);
    ListedIffNamed(known.systems, other);
    ListedIffNamed(known.protocols, other);
  }

  datatype CapitalMovement = CapitalMovement(
    txHash: string, blockNumber: nat, logIndex: nat, amountRaw: nat, kind: CapitalKind)

  /** What a movement adds to net contributed capital. */
  function Contribution(m: CapitalMovement): int {
    var amount: int := m.amountRaw;
    match m.kind
    case CapitalIn => amount
    case CapitalOut => -amount
    case _ => 0
  }

  predicate IsCapital(m: CapitalMovement) {
    m.kind.CapitalIn? || m.kind.CapitalOut?
  }

  datatype CapitalTotals = CapitalTotals(grossIn: nat, grossOut: nat, ambiguous: nat, tradeLegs: nat)

  function TotalCapital(movements: seq<CapitalMovement>): CapitalTotals {
    if movements == [] then CapitalTotals(0, 0, 0, 0) else
      var t := TotalCapital(movements[..|movements| - 1]);
      var m := movements[|movements| - 1];
      match m.kind
      case CapitalIn => t.(grossIn := t.grossIn + m.amountRaw)
      case CapitalOut => t.(grossOut := t.grossOut + m.amountRaw)
      case TradeIn => t.(tradeLegs := t.tradeLegs + 1)
      case TradeOut => t.(tradeLegs := t.tradeLegs + 1)
      case Ambiguous => t.(ambiguous := t.ambiguous + 1)
      case _ => t
  }

  function NetContribution(movements: seq<CapitalMovement>): int {
    if movements == [] then 0
    else NetContribution(movements[..|movements| - 1]) + Contribution(movements[|movements| - 1])
  }

  datatype AccountCapital = AccountCapital(movements: seq<CapitalMovement>, complete: bool)

  /** How many movements are of one kind. */
  function CountOf(movements: seq<CapitalMovement>, kind: CapitalKind): nat {
    if movements == [] then 0
    else CountOf(movements[..|movements| - 1], kind) + if movements[|movements| - 1].kind == kind then 1 else 0
  }

  /** What the movements of one kind come to. */
  function AmountOf(movements: seq<CapitalMovement>, kind: CapitalKind): nat {
    if movements == [] then 0
    else var m := movements[|movements| - 1];
         AmountOf(movements[..|movements| - 1], kind) + if m.kind == kind then m.amountRaw else 0
  }

  /** The totals are those of the kinds, and gross in less gross out is the net. */
  lemma {:induction false} TotalsAddUp(movements: seq<CapitalMovement>)
    ensures var t := TotalCapital(movements);
            && t.grossIn == AmountOf(movements, CapitalIn) && t.grossOut == AmountOf(movements, CapitalOut)
            && t.tradeLegs == CountOf(movements, TradeIn) + CountOf(movements, TradeOut)
            && t.ambiguous == CountOf(movements, Ambiguous)
            && t.grossIn - t.grossOut == NetContribution(movements)
    ensures TotalCapital(movements).ambiguous == 0 <==> forall m | m in movements :: !m.kind.Ambiguous?
  {
    if movements != [] {
      var n := |movements| - 1;
      TotalsAddUp(movements[..n]);
      assert movements == movements[..n] + [movements[n]];
      assert forall m :: m in movements <==> m in movements[..n] || m == movements[n];
    }
  }
}
