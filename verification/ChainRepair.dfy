/** From the chain's own transfers to the repaired books: the sweep, the classifier, the
  * planner and the repair, end to end (worker/src/chain-capital.ts,
  * worker/src/accounting-reconstruction.ts, worker/src/accounting-repair.ts). */
module ChainRepair {
  import opened Text
  import opened Ledger
  import opened CapitalClassify
  import opened Reconstruction
  import opened Repair
  import opened RepairLaws
  import Sweep = ChainSweep

  /** What was swept: the transfers in the window and what their receipts showed. */
  datatype Swept = Swept(
    logs: seq<Sweep.ChainLog>, short: bool, usdgToken: string, receipts: Sweep.Receipts, known: Known)

  /** Every entry the planner is handed is an entry of that sweep. */
  ghost predicate IsScan(chain: map<string, AccountCapital>, s: Swept) {
    forall key | key in chain :: Sweep.IsEntry(chain[key], s.short, s.logs, key, s.usdgToken, s.receipts, s.known)
  }

  ghost predicate Deposited(l: Sweep.ChainLog, account: string, s: Swept) {
    Sweep.IsDeposit(l, account, s.usdgToken, s.receipts, s.known)
  }

  ghost predicate Withdrew(l: Sweep.ChainLog, account: string, s: Swept) {
    Sweep.IsWithdrawal(l, account, s.usdgToken, s.receipts, s.known)
  }

  /** The row that files a transfer of the account, in the direction the owner moved it. */
  ghost predicate FiledAs(r: ProposedFlowRow, a: AgentRow, l: Sweep.ChainLog, s: Swept) {
    && r.agentId == a.smartAccount && r.epoch == (if a.epoch == 0 then 1 else a.epoch)
    && r.amountUsdg == l.amountRaw
    && r.txHash == l.txHash && r.blockNumber == l.blockNumber && r.logIndex == l.logIndex
    && (if r.direction.In? then Deposited(l, Lower(a.smartAccount), s) else Withdrew(l, Lower(a.smartAccount), s))
  }

  lemma {:induction false} ProposalsIff(
    account: string, epoch: int, movements: seq<CapitalMovement>, r: ProposedFlowRow)
    ensures r in Proposals(account, epoch, movements) <==>
              exists m | m in movements :: IsCapital(m) && r == Proposal(account, epoch, m)
  {
    if movements != [] {
      var n := |movements| - 1;
      ProposalsIff(account, epoch, movements[..n], r);
      assert movements == movements[..n] + [movements[n]];
      assert movements[n] in movements;
    }
  }

  /** A capital movement of the entry is proposed as the row that files its transfer. */
  lemma ProposalFiles(a: AgentRow, l: Sweep.ChainLog, s: Swept)
    requires Lower(l.token) == Lower(s.usdgToken)
    ensures var m := Sweep.Movement(l, Lower(a.smartAccount), s.usdgToken, s.receipts, s.known);
            && (IsCapital(m) <==> Deposited(l, Lower(a.smartAccount), s) || Withdrew(l, Lower(a.smartAccount), s))
            && (IsCapital(m) ==> FiledAs(Proposal(a.smartAccount, EpochOf(a), m), a, l, s))
  {
    Sweep.MovementSays(l, Lower(a.smartAccount), s.usdgToken, s.receipts, s.known);
  }

  lemma FiledIsTheProposal(r: ProposedFlowRow, a: AgentRow, l: Sweep.ChainLog, s: Swept)
    requires FiledAs(r, a, l, s)
    ensures var m := Sweep.Movement(l, Lower(a.smartAccount), s.usdgToken, s.receipts, s.known);
            IsCapital(m) && r == Proposal(a.smartAccount, EpochOf(a), m)
            && Sweep.Touches(l, Lower(a.smartAccount), s.usdgToken)
  {
    LowerTwice(a.smartAccount);
    Sweep.MovementSays(l, Lower(a.smartAccount), s.usdgToken, s.receipts, s.known);
  }

  /** What a plan inserts is exactly the owner's transfers in the swept window, each with its
    * own amount, direction and place on the chain; an incomplete scan inserts nothing. */
  lemma PlannedRowsAreTheTransfers(a: AgentRow, e: Evidence, s: Swept, r: ProposedFlowRow)
    requires IsScan(e.chain, s)
    ensures var key := Lower(a.smartAccount);
            r in PlanFor(a, e).insert <==>
              key in e.chain && e.chain[key].complete && exists l | l in s.logs :: FiledAs(r, a, l, s)
  {
    var key := Lower(a.smartAccount);
    if key in e.chain && e.chain[key].complete {
      var capital := e.chain[key];
      assert Sweep.IsEntry(capital, s.short, s.logs, key, s.usdgToken, s.receipts, s.known);
      ProposalsIff(a.smartAccount, EpochOf(a), capital.movements, r);
      if r in PlanFor(a, e).insert {
        var m :| m in capital.movements && IsCapital(m) && r == Proposal(a.smartAccount, EpochOf(a), m);
        assert Sweep.IsMovement(m, s.logs, key, s.usdgToken, s.receipts, s.known);
        var l :| l in s.logs && Sweep.Touches(l, key, s.usdgToken)
                 && m == Sweep.Movement(l, key, s.usdgToken, s.receipts, s.known);
        ProposalFiles(a, l, s);
      }
      if l :| l in s.logs && FiledAs(r, a, l, s) {
        FiledIsTheProposal(r, a, l, s);
        var m := Sweep.Movement(l, key, s.usdgToken, s.receipts, s.known);
        assert Sweep.IsMovement(m, s.logs, key, s.usdgToken, s.receipts, s.known);
      }
    }
  }

  /** An account the plan does not block is predicted to hold what its owner put in less what
    * its owner took out, over the very transfers of the chain. */
  lemma PredictionIsTheChains(a: AgentRow, e: Evidence, s: Swept)
    requires IsScan(e.chain, s) && PlanFor(a, e).blocked.NotBlocked?
    ensures PlanFor(a, e).contributionsAfterUsdg ==
            Sweep.DepositsLessWithdrawals(s.logs, Lower(a.smartAccount), s.usdgToken, s.receipts, s.known)
  {
    UnblockedPlanPredictsTheChain(a, e);
    assert Sweep.IsEntry(e.chain[Lower(a.smartAccount)], s.short, s.logs, Lower(a.smartAccount),
                         s.usdgToken, s.receipts, s.known);
  }

  /** The books hold a receipt row for this transfer, column by column. */
  ghost predicate OnTheBooks(u: Tables, a: AgentRow, l: Sweep.ChainLog, chainId: int, s: Swept) {
    exists id | id in u.flows :: IsRowOf(u.flows[id], a, l, chainId, s)
  }

  ghost predicate IsRowOf(row: FlowRow, a: AgentRow, l: Sweep.ChainLog, chainId: int, s: Swept) {
    && row.agentId == a.smartAccount && row.chainId == Some(chainId) && row.source == "chain-log"
    && row.txHash == Some(l.txHash) && row.logIndex == Some(l.logIndex) && row.amountUsdg == l.amountRaw
    && (if row.direction == In then Deposited(l, Lower(a.smartAccount), s) else Withdrew(l, Lower(a.smartAccount), s))
  }

  lemma LandedIsOnTheBooks(u: Tables, a: AgentRow, r: ProposedFlowRow, l: Sweep.ChainLog, chainId: int, s: Swept)
    requires Landed(u, a.smartAccount, chainId, r) && FiledAs(r, a, l, s)
    ensures OnTheBooks(u, a, l, chainId, s)
  {
    var id :| id in u.flows && Identity(u.flows[id]) == Some(IdentityOf(r, a.smartAccount, chainId))
              && Matches(u.flows[id], r);
    assert IsRowOf(u.flows[id], a, l, chainId, s);
  }

  /** The row a transfer of the owner's is filed as. */
  ghost function FilingOf(a: AgentRow, l: Sweep.ChainLog, s: Swept): ProposedFlowRow {
    ProposedFlowRow(a.smartAccount, EpochOf(a), if Deposited(l, Lower(a.smartAccount), s) then In else Out,
                    l.amountRaw, l.txHash, l.blockNumber, l.logIndex)
  }

  /** The whole way: after a run that stops nowhere, over plans made from a sweep, the books
    * of every account the run could act on net to what its owner put in less what its owner
    * took out, and every one of those transfers is a row of its own. */
  lemma RepairedBooksAreTheChains(
    t: Tables, agents: seq<AgentRow>, plans: seq<AccountPlan>, e: Evidence, s: Swept,
    opts: RepairOptions, chainId: int, clock: nat -> int, a: AgentRow)
    requires Valid(t) && t.chainIndex && Descends(e.flows, t) && IsScan(e.chain, s)
    requires multiset(plans) == multiset(PlansFor(agents, e)) && OneRowPerAgent(agents)
    requires !opts.resume && Batch(t, plans, opts, chainId, clock).Some?
    requires a in agents && Actionable(PlanFor(a, e), opts)
    ensures var u := Batch(t, plans, opts, chainId, clock).value;
            && Net(u.flows, a.smartAccount, EpochOf(a), u.nextId) ==
               Sweep.DepositsLessWithdrawals(s.logs, Lower(a.smartAccount), s.usdgToken, s.receipts, s.known)
            && forall l | l in s.logs
                          && (Deposited(l, Lower(a.smartAccount), s) || Withdrew(l, Lower(a.smartAccount), s)) ::
                 OnTheBooks(u, a, l, chainId, s)
  {
    PlannedListsAreJustified(agents, e, plans);
    CleanRunSettles(t, plans, e.flows, opts, chainId, clock);
    var u := Batch(t, plans, opts, chainId, clock).value;
    var i := PlannedSomewhere(agents, e, plans, a);
    assert Settled(u, plans[i], chainId);
    PredictionIsTheChains(a, e, s);
    forall l | l in s.logs && (Deposited(l, Lower(a.smartAccount), s) || Withdrew(l, Lower(a.smartAccount), s))
      ensures OnTheBooks(u, a, l, chainId, s)
    {
      var r := FilingOf(a, l, s);
      UnblockedPlanPredictsTheChain(a, e);
      PlannedRowsAreTheTransfers(a, e, s, r);
      assert FiledAs(r, a, l, s);
      var j :| 0 <= j < |plans[i].insert| && plans[i].insert[j] == r;
      LandedIsOnTheBooks(u, a, r, l, chainId, s);
    }
  }

  lemma PlannedSomewhere(agents: seq<AgentRow>, e: Evidence, plans: seq<AccountPlan>, a: AgentRow) returns (i: nat)
    requires multiset(plans) == multiset(PlansFor(agents, e)) && a in agents
    ensures i < |plans| && plans[i] == PlanFor(a, e)
  {
    PlansForEach(agents, e);
    var k :| 0 <= k < |agents| && agents[k] == a;
    assert PlansFor(agents, e)[k] in multiset(PlansFor(agents, e));
    assert PlanFor(a, e) in multiset(plans);
    i :| 0 <= i < |plans| && plans[i] == PlanFor(a, e);
  }
}
