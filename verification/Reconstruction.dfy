/** Building the repair plan (worker/src/accounting-reconstruction.ts). */
module Reconstruction {
  import opened Text
  import opened Ledger
  import opened CapitalClassify
  import Sorting

  datatype AgentRow = AgentRow(smartAccount: string, epoch: int, mode: string)

  /** A flow row as the planner read it. */
  datatype Numbered = Numbered(id: nat, row: FlowRow)

  datatype ProposedFlowRow = ProposedFlowRow(
    agentId: string, epoch: int, direction: Direction, amountUsdg: nat,
    txHash: string, blockNumber: nat, logIndex: nat)

  datatype Blocked = NotBlocked | NoScanResult | ScanIncomplete | Unclassified(movements: nat)

  datatype AccountPlan = AccountPlan(
    smartAccount: string, epoch: int, isPaper: bool,
    existingInferredUsdg: int, existingTotalUsdg: int,
    insert: seq<ProposedFlowRow>, quarantine: seq<nat>,
    contributionsAfterUsdg: int, contributionsKnownAfter: bool, blocked: Blocked)

  /** Everything the planner is handed; `chain` and `onchainCash` are keyed in lower case. */
  datatype Evidence = Evidence(
    flows: seq<Numbered>, chain: map<string, AccountCapital>, onchainCash: map<string, int>)

  function EpochOf(a: AgentRow): int {
    if a.epoch == 0 then 1 else a.epoch
  }

  predicate InScope(f: Numbered, account: string, epoch: int) {
    Lower(f.row.agentId) == Lower(account) && f.row.epoch == epoch
  }

  /** Neither of an evidenced source nor naming a transaction. */
  predicate Inferred(r: FlowRow) {
    !(IsEvidencedFlow(r.source) || (r.txHash.Some? && r.txHash.value != ""))
  }

  function SignedProposal(r: ProposedFlowRow): int {
    var amount: int := r.amountUsdg;
    if r.direction.In? then amount else -amount
  }

  function Total(rows: seq<ProposedFlowRow>): int {
    if rows == [] then 0 else Total(rows[..|rows| - 1]) + SignedProposal(rows[|rows| - 1])
  }

  function Rows(flows: seq<Numbered>, account: string, epoch: int): seq<Numbered> {
    if flows == [] then [] else
      var f := flows[|flows| - 1];
      Rows(flows[..|flows| - 1], account, epoch) + if InScope(f, account, epoch) then [f] else []
  }

  function InferredRows(rows: seq<Numbered>): seq<Numbered> {
    if rows == [] then [] else
      var f := rows[|rows| - 1];
      InferredRows(rows[..|rows| - 1]) + if Inferred(f.row) then [f] else []
  }

  function SumSigned(rows: seq<Numbered>): int {
    if rows == [] then 0 else SumSigned(rows[..|rows| - 1]) + Signed(rows[|rows| - 1].row)
  }

  function Ids(rows: seq<Numbered>): seq<nat> {
    seq(|rows|, i requires 0 <= i < |rows| => rows[i].id)
  }

  function Proposal(account: string, epoch: int, m: CapitalMovement): ProposedFlowRow {
    ProposedFlowRow(account, epoch, if m.kind.CapitalIn? then In else Out, m.amountRaw,
                    m.txHash, m.blockNumber, m.logIndex)
  }

  function Proposals(account: string, epoch: int, movements: seq<CapitalMovement>): seq<ProposedFlowRow> {
    if movements == [] then [] else
      var m := movements[|movements| - 1];
      Proposals(account, epoch, movements[..|movements| - 1]) +
      if IsCapital(m) then [Proposal(account, epoch, m)] else []
  }

  function PlanFor(a: AgentRow, e: Evidence): AccountPlan {
    var account := a.smartAccount;
    var key := Lower(account);
    var epoch := EpochOf(a);
    var rows := Rows(e.flows, account, epoch);
    var inferred := InferredRows(rows);
    var scanned := key in e.chain;
    var complete := scanned && e.chain[key].complete;
    var insert := if complete then Proposals(account, epoch, e.chain[key].movements) else [];
    var ambiguous := if scanned then TotalCapital(e.chain[key].movements).ambiguous else 0;
    var blocked :=
      if !scanned then NoScanResult
      else if !complete then ScanIncomplete
      else if ambiguous > 0 then Unclassified(ambiguous)
      else NotBlocked;
    var noChainHistory := !scanned || e.chain[key].movements == [];
    var cash := if key in e.onchainCash then e.onchainCash[key] else 0;
    AccountPlan(account, epoch, a.mode == "paper" || (noChainHistory && cash == 0),
                SumSigned(inferred), SumSigned(rows), insert, Ids(inferred),
                Total(insert), blocked.NotBlocked?, blocked)
  }

  function Size(p: AccountPlan): nat {
    if p.existingInferredUsdg < 0 then -p.existingInferredUsdg else p.existingInferredUsdg
  }

  predicate Larger(p: AccountPlan, q: AccountPlan) {
    Size(p) >= Size(q)
  }

  function Planned(agents: seq<AgentRow>, plan: AgentRow -> AccountPlan): seq<AccountPlan> {
    if agents == [] then [] else Planned(agents[..|agents| - 1], plan) + [plan(agents[|agents| - 1])]
  }

  function PlansFor(agents: seq<AgentRow>, e: Evidence): seq<AccountPlan> {
    Planned(agents, a => PlanFor(a, e))
  }

  lemma {:induction false} PlannedAt(agents: seq<AgentRow>, plan: AgentRow -> AccountPlan)
    ensures |Planned(agents, plan)| == |agents|
    ensures forall i | 0 <= i < |agents| :: Planned(agents, plan)[i] == plan(agents[i])
  {
    if agents != [] { PlannedAt(agents[..|agents| - 1], plan); }
  }

  method ProposeInserts(account: string, epoch: int, movements: seq<CapitalMovement>)
    returns (insert: seq<ProposedFlowRow>)
    ensures insert == Proposals(account, epoch, movements)
  {
    insert := [];
    for j := 0 to |movements|
      invariant insert == Proposals(account, epoch, movements[..j])
    {
      assert movements[..j + 1][..j] == movements[..j];
      if !IsCapital(movements[j]) { continue; }
      insert := insert + [Proposal(account, epoch, movements[j])];
    }
    assert movements[..|movements|] == movements;
  }

  method PlanAccount(a: AgentRow, e: Evidence) returns (plan: AccountPlan)
    ensures plan == PlanFor(a, e)
  {
    var key := Lower(a.smartAccount);
    var epoch := EpochOf(a);
    var rows := Rows(e.flows, a.smartAccount, epoch);
    var inferred := InferredRows(rows);
    var insert: seq<ProposedFlowRow> := [];
    if key in e.chain && e.chain[key].complete {
      insert := ProposeInserts(a.smartAccount, epoch, e.chain[key].movements);
    }
    var blocked := NotBlocked;
    if key !in e.chain {
      blocked := NoScanResult;
    } else if !e.chain[key].complete {
      blocked := ScanIncomplete;
    } else if TotalCapital(e.chain[key].movements).ambiguous > 0 {
      blocked := Unclassified(TotalCapital(e.chain[key].movements).ambiguous);
    }
    var noChainHistory := key !in e.chain || e.chain[key].movements == [];
    var cash := if key in e.onchainCash then e.onchainCash[key] else 0;
    plan := AccountPlan(
      a.smartAccount, epoch, a.mode == "paper" || (noChainHistory && cash == 0),
      SumSigned(inferred), SumSigned(rows), insert, Ids(inferred), Total(insert), blocked.NotBlocked?, blocked);
  }

  /** How much, in either direction. */
  function InferredSize(v: int): int {
    if v >= 0 then v else -v
  }

  /** One plan per agent, the accounts with the most inferred capital first. */
  method PlanReconstruction(agents: seq<AgentRow>, e: Evidence) returns (plans: seq<AccountPlan>)
    ensures multiset(plans) == multiset(PlansFor(agents, e))
    ensures plans == Sorting.SortBy(PlansFor(agents, e), Larger)
    ensures forall i, j | 0 <= i < j < |plans| ::
              InferredSize(plans[i].existingInferredUsdg) >= InferredSize(plans[j].existingInferredUsdg)
  {
    plans := [];
    ghost var planOf := (a: AgentRow) => PlanFor(a, e);
    for i := 0 to |agents|
      invariant plans == Planned(agents[..i], planOf)
    {
      assert agents[..i + 1][..i] == agents[..i];
      var plan := PlanAccount(agents[i], e);
      plans := plans + [plan];
    }
    assert agents[..|agents|] == agents;
    assert plans == PlansFor(agents, e);
    LargerIsAnOrder();
    Sorting.SortBySorts(plans, Larger);
    plans := Sorting.SortBy(plans, Larger);
  }

  lemma LargerIsAnOrder()
    ensures Sorting.TotalOrder(Larger)
  {
    assert forall p, q :: Larger(p, q) || Larger(q, p);
  }

  // ── what a plan may rely on ────────────────────────────────────────────────

  /** The plan against the evidence it was read from, without naming how it is built. */
  ghost predicate Justified(p: AccountPlan, flows: seq<Numbered>) {
    && (forall id :: id in p.quarantine <==>
          exists f :: f in flows && f.id == id && InScope(f, p.smartAccount, p.epoch) && Inferred(f.row))
    && (forall r | r in p.insert :: r.agentId == p.smartAccount && r.epoch == p.epoch)
    && p.contributionsAfterUsdg == Total(p.insert)
  }

  lemma {:induction false} RowsAreInScope(flows: seq<Numbered>, account: string, epoch: int, f: Numbered)
    ensures f in Rows(flows, account, epoch) <==> f in flows && InScope(f, account, epoch)
  {
    if flows != [] {
      var n := |flows| - 1;
      RowsAreInScope(flows[..n], account, epoch, f);
      assert flows == flows[..n] + [flows[n]];
    }
  }

  lemma {:induction false} InferredRowsAreInferred(rows: seq<Numbered>, f: Numbered)
    ensures f in InferredRows(rows) <==> f in rows && Inferred(f.row)
  {
    if rows != [] {
      var n := |rows| - 1;
      InferredRowsAreInferred(rows[..n], f);
      assert rows == rows[..n] + [rows[n]];
    }
  }

  lemma {:induction false} ProposalsNameTheAccount(
    account: string, epoch: int, movements: seq<CapitalMovement>, r: ProposedFlowRow)
    requires r in Proposals(account, epoch, movements)
    ensures exists m :: m in movements && IsCapital(m) && r == Proposal(account, epoch, m)
  {
    var n := |movements| - 1;
    assert movements == movements[..n] + [movements[n]];
    if r in Proposals(account, epoch, movements[..n]) {
      ProposalsNameTheAccount(account, epoch, movements[..n], r);
    }
  }

  /** Every plan is justified: what it quarantines is exactly the account's inferred rows
    * of the epoch (so never one carrying a transaction or an evidenced source), and what
    * it inserts is filed under the account and epoch and sums to the figure it predicts. */
  lemma PlansAreJustified(a: AgentRow, e: Evidence)
    ensures Justified(PlanFor(a, e), e.flows)
  {
    var p := PlanFor(a, e);
    var rows := Rows(e.flows, a.smartAccount, p.epoch);
    var inferred := InferredRows(rows);
    forall f
      ensures f in inferred <==> f in e.flows && InScope(f, p.smartAccount, p.epoch) && Inferred(f.row)
    {
      RowsAreInScope(e.flows, a.smartAccount, p.epoch, f);
      InferredRowsAreInferred(rows, f);
    }
    forall id
      ensures id in p.quarantine <==>
              exists f :: f in e.flows && f.id == id && InScope(f, p.smartAccount, p.epoch) && Inferred(f.row)
    {
      if id in p.quarantine {
        var i :| 0 <= i < |inferred| && Ids(inferred)[i] == id;
        assert inferred[i] in e.flows;
      }
      if f :| f in e.flows && f.id == id && InScope(f, p.smartAccount, p.epoch) && Inferred(f.row) {
        assert f in inferred;
        var i :| 0 <= i < |inferred| && inferred[i] == f;
        assert Ids(inferred)[i] == id;
      }
    }
    forall r | r in p.insert
      ensures r.agentId == p.smartAccount && r.epoch == p.epoch
    {
      ProposalsNameTheAccount(a.smartAccount, p.epoch, e.chain[Lower(a.smartAccount)].movements, r);
    }
  }

  /** An account the repair may touch predicts exactly the net capital its complete,
    * unambiguous chain scan found. */
  lemma UnblockedPlanPredictsTheChain(a: AgentRow, e: Evidence)
    ensures PlanFor(a, e).blocked.NotBlocked? <==>
              Lower(a.smartAccount) in e.chain && e.chain[Lower(a.smartAccount)].complete &&
              (forall m | m in e.chain[Lower(a.smartAccount)].movements :: !m.kind.Ambiguous?)
    ensures PlanFor(a, e).blocked.NotBlocked? ==>
              PlanFor(a, e).contributionsAfterUsdg == NetContribution(e.chain[Lower(a.smartAccount)].movements)
  {
    if Lower(a.smartAccount) in e.chain {
      TotalsAddUp(e.chain[Lower(a.smartAccount)].movements);
      ProposalsCarryTheNet(a.smartAccount, EpochOf(a), e.chain[Lower(a.smartAccount)].movements);
    }
  }

  lemma {:induction false} ProposalsCarryTheNet(account: string, epoch: int, movements: seq<CapitalMovement>)
    ensures Total(Proposals(account, epoch, movements)) == NetContribution(movements)
  {
    if movements != [] {
      var n := |movements| - 1;
      ProposalsCarryTheNet(account, epoch, movements[..n]);
      var before, rows := Proposals(account, epoch, movements[..n]), Proposals(account, epoch, movements);
      if IsCapital(movements[n]) {
        assert rows[..|rows| - 1] == before;
      } else {
        assert rows == before;
      }
    }
  }

  // ── the figures a plan shows ───────────────────────────────────────────────

  /** Filed under the account, however it is spelled, in its epoch; an epoch of 0 is the first. */
  predicate Mine(r: FlowRow, a: AgentRow) {
    Lower(r.agentId) == Lower(a.smartAccount) && r.epoch == (if a.epoch == 0 then 1 else a.epoch)
  }

  /** Neither a receipt nor a carry, and naming no transaction. */
  predicate Guessed(r: FlowRow) {
    && r.source != "chain-log" && r.source != "epoch-carry"
    && (r.txHash == None || r.txHash == Some(""))
  }

  lemma MineIff(f: Numbered, a: AgentRow)
    ensures Mine(f.row, a) <==> InScope(f, a.smartAccount, EpochOf(a))
  {
  }

  lemma GuessedIff(r: FlowRow)
    ensures Guessed(r) <==> Inferred(r)
  {
  }

  /** One more row read changes the plan by that row: an account's own adds to what is on its
    * books, and when it is a guess to what is inferred and to the list to quarantine. From
    * the empty ledger on, this is what the figures are. */
  lemma PlanOfOneMoreRow(a: AgentRow, e: Evidence, more: Evidence, f: Numbered)
    requires more == e.(flows := e.flows + [f])
    ensures var p, q := PlanFor(a, e), PlanFor(a, more);
            var amount := if f.row.direction == In then f.row.amountUsdg else -f.row.amountUsdg;
            && q.existingTotalUsdg == p.existingTotalUsdg + (if Mine(f.row, a) then amount else 0)
            && q.existingInferredUsdg == p.existingInferredUsdg + (if Mine(f.row, a) && Guessed(f.row) then amount else 0)
            && q.quarantine == p.quarantine + if Mine(f.row, a) && Guessed(f.row) then [f.id] else []
    ensures e.flows == [] ==>
              var p := PlanFor(a, e); p.existingTotalUsdg == 0 && p.existingInferredUsdg == 0 && p.quarantine == []
  {
    MineIff(f, a);
    GuessedIff(f.row);
    FiguresOfOneMoreRow(e.flows, f, a.smartAccount, EpochOf(a));
    PlanFigures(a, e);
    PlanFigures(a, more);
  }

  lemma PlanFigures(a: AgentRow, e: Evidence)
    ensures var p, rows := PlanFor(a, e), Rows(e.flows, a.smartAccount, EpochOf(a));
            && p.existingTotalUsdg == SumSigned(rows)
            && p.existingInferredUsdg == SumSigned(InferredRows(rows))
            && p.quarantine == Ids(InferredRows(rows))
  {
  }

  /** What the ledger holds decides nothing else of a plan: what it inserts, what it predicts
    * and whether it may run come from the chain alone. */
  lemma TheChainDecidesTheRest(a: AgentRow, e: Evidence, flows: seq<Numbered>)
    ensures var p, q := PlanFor(a, e), PlanFor(a, e.(flows := flows));
            && q.insert == p.insert && q.contributionsAfterUsdg == p.contributionsAfterUsdg
            && q.blocked == p.blocked && q.contributionsKnownAfter == p.contributionsKnownAfter && q.isPaper == p.isPaper
  {
  }

  lemma FiguresOfOneMoreRow(flows: seq<Numbered>, f: Numbered, account: string, epoch: int)
    ensures var rows, more := Rows(flows, account, epoch), Rows(flows + [f], account, epoch);
            var mine, guessed := InScope(f, account, epoch), InScope(f, account, epoch) && Inferred(f.row);
            && SumSigned(more) == SumSigned(rows) + (if mine then Signed(f.row) else 0)
            && SumSigned(InferredRows(more)) == SumSigned(InferredRows(rows)) + (if guessed then Signed(f.row) else 0)
            && Ids(InferredRows(more)) == Ids(InferredRows(rows)) + if guessed then [f.id] else []
  {
    var rows, more := Rows(flows, account, epoch), Rows(flows + [f], account, epoch);
    assert (flows + [f])[..|flows|] == flows;
    if InScope(f, account, epoch) {
      assert more == rows + [f];
      OneMoreRow(rows, f);
    } else {
      assert more == rows;
    }
  }

  lemma OneMoreRow(rows: seq<Numbered>, f: Numbered)
    ensures SumSigned(rows + [f]) == SumSigned(rows) + Signed(f.row)
    ensures var inferred := InferredRows(rows); var grown := InferredRows(rows + [f]);
            && SumSigned(grown) == SumSigned(inferred) + (if Inferred(f.row) then Signed(f.row) else 0)
            && Ids(grown) == Ids(inferred) + if Inferred(f.row) then [f.id] else []
  {
    assert (rows + [f])[..|rows|] == rows;
    var inferred, grown := InferredRows(rows), InferredRows(rows + [f]);
    if Inferred(f.row) {
      assert grown == inferred + [f];
      assert grown[..|inferred|] == inferred;
    } else {
      assert grown == inferred;
    }
  }

  /** Why a plan is blocked, the earlier question deciding: no scan of the account, an
    * incomplete one, or movements nobody could decide and how many; only an unblocked plan
    * lets the contributions be known, and only a complete scan is inserted from. An account
    * is taken for paper when its mode says so or the chain has neither a movement nor cash. */
  lemma BlockedBecause(a: AgentRow, e: Evidence)
    ensures var p, key := PlanFor(a, e), Lower(a.smartAccount);
            && (p.blocked == NoScanResult <==> key !in e.chain)
            && (p.blocked == ScanIncomplete <==> key in e.chain && !e.chain[key].complete)
            && (p.blocked.Unclassified? <==>
                  key in e.chain && e.chain[key].complete && exists m :: m in e.chain[key].movements && m.kind == Ambiguous)
            && (p.blocked.Unclassified? ==> p.blocked.movements == CountOf(e.chain[key].movements, Ambiguous))
            && (p.contributionsKnownAfter <==> p.blocked == NotBlocked)
            && (p.blocked == NoScanResult || p.blocked == ScanIncomplete ==> p.insert == [] && p.contributionsAfterUsdg == 0)
            && (p.isPaper <==>
                  || a.mode == "paper"
                  || ((key in e.chain ==> |e.chain[key].movements| == 0) && (key in e.onchainCash ==> e.onchainCash[key] == 0)))
  {
    var key := Lower(a.smartAccount);
    if key in e.chain {
      TotalsAddUp(e.chain[key].movements);
    }
  }
}
