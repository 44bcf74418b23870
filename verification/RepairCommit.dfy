/** When a repair can commit at all (worker/src/accounting-repair.ts, steps 1 to 4). */
module RepairCommit {
  import opened Text
  import opened Ledger
  import opened CapitalClassify
  import opened Reconstruction
  import opened Repair
  import opened RepairLaws

  // ── the condition, over the ledger and the plan before anything is written ──

  /** Two planned rows that name one chain log. */
  predicate SameLog(r: ProposedFlowRow, s: ProposedFlowRow) {
    r.txHash == s.txHash && r.logIndex == s.logIndex
  }

  /** What the ledger already holds of the planned logs, in whatever epoch, is what was
    * planned, and the plan does not contradict itself. */
  predicate Agrees(t: Tables, plan: AccountPlan, chainId: int) {
    && (forall i, id | 0 <= i < |plan.insert| && id in t.flows ::
          Identity(t.flows[id]) == Some(IdentityOf(plan.insert[i], plan.smartAccount, chainId)) ==>
          Matches(t.flows[id], plan.insert[i]))
    && (forall i, j | 0 <= i < j < |plan.insert| :: SameLog(plan.insert[i], plan.insert[j]) ==>
          plan.insert[i].direction == plan.insert[j].direction && plan.insert[i].amountUsdg == plan.insert[j].amountUsdg)
  }

  predicate PlannedBefore(plan: AccountPlan, n: nat)
    requires n < |plan.insert|
  {
    exists j | 0 <= j < n :: SameLog(plan.insert[j], plan.insert[n])
  }

  /** The signed amounts of the first `n` planned rows, each log once and only those the
    * ledger does not hold. */
  function Missing(t: Tables, plan: AccountPlan, chainId: int, n: nat): int
    requires n <= |plan.insert|
  {
    if n == 0 then 0 else
      Missing(t, plan, chainId, n - 1) +
      if Holds(t.flows, IdentityOf(plan.insert[n - 1], plan.smartAccount, chainId)) || PlannedBefore(plan, n - 1) then 0
      else SignedProposal(plan.insert[n - 1])
  }

  function Kept(t: Tables, plan: AccountPlan): map<nat, FlowRow> {
    map id | id in t.flows && id !in plan.quarantine :: t.flows[id]
  }

  /** What the account's books would hold if only the quarantine were carried out. */
  function SurvivingNet(t: Tables, plan: AccountPlan): int {
    Net(Kept(t, plan), plan.smartAccount, plan.epoch, t.nextId)
  }

  // ── the inserts ────────────────────────────────────────────────────────────

  predicate OwnRows(plan: AccountPlan) {
    forall r | r in plan.insert :: r.agentId == plan.smartAccount && r.epoch == plan.epoch
  }

  predicate PlannedAmong(plan: AccountPlan, n: nat, chainId: int, identity: LogIdentity)
    requires n <= |plan.insert|
  {
    exists j | 0 <= j < n :: IdentityOf(plan.insert[j], plan.smartAccount, chainId) == identity
  }

  lemma RowIdentity(plan: AccountPlan, n: nat, chainId: int)
    requires OwnRows(plan) && n < |plan.insert|
    ensures Identity(RowOf(plan.insert[n], chainId)) == Some(IdentityOf(plan.insert[n], plan.smartAccount, chainId))
  {
    assert plan.insert[n] in plan.insert;
  }

  lemma HoldsOneMore(u: Tables, r: FlowRow, identity: LogIdentity)
    requires Valid(u) && u.chainIndex && Identity(r).Some?
    ensures Holds(Inserted(u, r).flows, identity) <==> Holds(u.flows, identity) || Identity(r) == Some(identity)
  {
    var v := Inserted(u, r);
    if Holds(u.flows, identity) {
      var id :| id in u.flows && Identity(u.flows[id]) == Some(identity);
      assert id in v.flows && v.flows[id] == u.flows[id];
    }
    if !Conflicts(u, r) { assert u.nextId in v.flows && v.flows[u.nextId] == r; }
  }

  /** After any number of inserts the ledger holds what it held and what was planned so far. */
  lemma {:induction false} HeldAfterInserts(t: Tables, plan: AccountPlan, chainId: int, n: nat, identity: LogIdentity)
    requires Valid(t) && t.chainIndex && OwnRows(plan) && n <= |plan.insert|
    ensures Holds(InsertAll(t, plan.insert[..n], chainId).flows, identity) <==>
              Holds(t.flows, identity) || PlannedAmong(plan, n, chainId, identity)
  {
    if n == 0 {
      assert plan.insert[..0] == [];
    } else {
      assert plan.insert[..n][..n - 1] == plan.insert[..n - 1];
      HeldAfterInserts(t, plan, chainId, n - 1, identity);
      InsertAllIsValid(t, plan.insert[..n - 1], chainId);
      RowIdentity(plan, n - 1, chainId);
      HoldsOneMore(InsertAll(t, plan.insert[..n - 1], chainId), RowOf(plan.insert[n - 1], chainId), identity);
      assert PlannedAmong(plan, n, chainId, identity) <==>
             PlannedAmong(plan, n - 1, chainId, identity) ||
             IdentityOf(plan.insert[n - 1], plan.smartAccount, chainId) == identity;
    }
  }

  /** So the n-th row is refused by the index exactly when its log is held or already planned. */
  lemma ConflictsIff(t: Tables, plan: AccountPlan, chainId: int, n: nat)
    requires Valid(t) && t.chainIndex && OwnRows(plan) && n < |plan.insert|
    ensures Conflicts(InsertAll(t, plan.insert[..n], chainId), RowOf(plan.insert[n], chainId)) <==>
              Holds(t.flows, IdentityOf(plan.insert[n], plan.smartAccount, chainId)) || PlannedBefore(plan, n)
  {
    var identity := IdentityOf(plan.insert[n], plan.smartAccount, chainId);
    InsertAllIsValid(t, plan.insert[..n], chainId);
    HeldAfterInserts(t, plan, chainId, n, identity);
    RowIdentity(plan, n, chainId);
    assert PlannedAmong(plan, n, chainId, identity) <==> PlannedBefore(plan, n) by {
      assert forall j | 0 <= j < n ::
          IdentityOf(plan.insert[j], plan.smartAccount, chainId) == identity <==> SameLog(plan.insert[j], plan.insert[n]);
    }
  }

  /** One accepted row adds its amount to the books the quarantine leaves. */
  lemma NetOneMore(u: Tables, plan: AccountPlan, chainId: int, n: nat)
    requires Valid(u) && OwnRows(plan) && n < |plan.insert| && u.nextId !in plan.quarantine
    requires !Conflicts(u, RowOf(plan.insert[n], chainId))
    ensures SurvivingNet(Inserted(u, RowOf(plan.insert[n], chainId)), plan) ==
            SurvivingNet(u, plan) + SignedProposal(plan.insert[n])
  {
    assert plan.insert[n] in plan.insert;
    var v := Inserted(u, RowOf(plan.insert[n], chainId));
    NetAgrees(Kept(v, plan), Kept(u, plan), plan.smartAccount, plan.epoch, u.nextId);
  }

  lemma {:induction false} NetAfterInserts(t: Tables, plan: AccountPlan, chainId: int, n: nat)
    requires Valid(t) && t.chainIndex && OwnRows(plan) && n <= |plan.insert|
    requires forall id | id in plan.quarantine :: id < t.nextId
    ensures var u := InsertAll(t, plan.insert[..n], chainId);
            && u.nextId >= t.nextId
            && SurvivingNet(u, plan) == SurvivingNet(t, plan) + Missing(t, plan, chainId, n)
  {
    if n == 0 {
      assert plan.insert[..0] == [];
    } else {
      assert plan.insert[..n][..n - 1] == plan.insert[..n - 1];
      NetAfterInserts(t, plan, chainId, n - 1);
      InsertAllIsValid(t, plan.insert[..n - 1], chainId);
      ConflictsIff(t, plan, chainId, n - 1);
      var u := InsertAll(t, plan.insert[..n - 1], chainId);
      if !Conflicts(u, RowOf(plan.insert[n - 1], chainId)) { NetOneMore(u, plan, chainId, n - 1); }
    }
  }

  // ── what the read-back finds ───────────────────────────────────────────────

  lemma SameLogMatches(t: Tables, plan: AccountPlan, chainId: int, j: nat, i: nat)
    requires Agrees(t, plan, chainId) && i < |plan.insert| && j < |plan.insert|
    requires SameLog(plan.insert[j], plan.insert[i])
    ensures Matches(RowOf(plan.insert[j], chainId), plan.insert[i])
  {
    assert SameLog(plan.insert[i], plan.insert[j]);
  }

  lemma AgreedEvidenceLands(t: Tables, plan: AccountPlan, chainId: int, i: nat)
    requires Valid(t) && t.chainIndex && OwnRows(plan) && Agrees(t, plan, chainId) && i < |plan.insert|
    ensures Landed(InsertAll(t, plan.insert, chainId), plan.smartAccount, chainId, plan.insert[i])
  {
    var identity := IdentityOf(plan.insert[i], plan.smartAccount, chainId);
    var u := InsertAll(t, plan.insert, chainId);
    assert plan.insert[..|plan.insert|] == plan.insert;
    HeldAfterInserts(t, plan, chainId, |plan.insert|, identity);
    assert Holds(u.flows, identity) by { assert PlannedAmong(plan, |plan.insert|, chainId, identity); }
    InsertAllShape(t, plan.insert, chainId);
    var id :| id in u.flows && Identity(u.flows[id]) == Some(identity);
    if id !in t.flows {
      var r :| r in plan.insert && u.flows[id] == RowOf(r, chainId);
      var j :| 0 <= j < |plan.insert| && plan.insert[j] == r;
      SameLogMatches(t, plan, chainId, j, i);
    }
  }

  /** The index lets one row stand for a log, so what landed is what was held and planned. */
  lemma LandedEvidenceAgrees(t: Tables, plan: AccountPlan, chainId: int)
    requires Valid(t) && t.chainIndex
    requires Verified(InsertAll(t, plan.insert, chainId), plan.smartAccount, chainId, plan.insert)
    ensures Agrees(t, plan, chainId)
  {
    var u := InsertAll(t, plan.insert, chainId);
    InsertAllShape(t, plan.insert, chainId);
    InsertAllIsValid(t, plan.insert, chainId);
    forall i, id | 0 <= i < |plan.insert| && id in t.flows &&
                   Identity(t.flows[id]) == Some(IdentityOf(plan.insert[i], plan.smartAccount, chainId))
      ensures Matches(t.flows[id], plan.insert[i])
    {
      assert Landed(u, plan.smartAccount, chainId, plan.insert[i]);
      assert id in u.flows && u.flows[id] == t.flows[id];
    }
    forall i, j | 0 <= i < j < |plan.insert| && SameLog(plan.insert[i], plan.insert[j])
      ensures plan.insert[i].direction == plan.insert[j].direction && plan.insert[i].amountUsdg == plan.insert[j].amountUsdg
    {
      assert Landed(u, plan.smartAccount, chainId, plan.insert[i]);
      assert Landed(u, plan.smartAccount, chainId, plan.insert[j]);
    }
  }

  // ── the exact condition ────────────────────────────────────────────────────

  lemma ClearedKeepsTheRest(t: Tables, plan: AccountPlan, chainId: int, runId: string, now: int)
    ensures NetOf(Cleared(t, plan, chainId, runId, now), plan) == SurvivingNet(InsertAll(t, plan.insert, chainId), plan)
  {
    var u := InsertAll(t, plan.insert, chainId);
    var c := Cleared(t, plan, chainId, runId, now);
    QuarantineAllShape(u, plan.quarantine, StampOf(plan, runId, now));
    assert c.flows == Kept(u, plan);
  }

  /** A repair commits if and only if what the ledger already holds of the planned logs
    * agrees with the plan, and the rows its quarantine leaves in the account's epoch, with
    * the planned logs not yet held, net to the predicted figure. */
  lemma CommitSucceedsIff(t: Tables, plan: AccountPlan, flows: seq<Numbered>, chainId: int, runId: string, now: int)
    requires Valid(t) && t.chainIndex && Justified(plan, flows) && Descends(flows, t)
    ensures Committed(t, plan, chainId, runId, now).Some? <==>
              && Agrees(t, plan, chainId)
              && SurvivingNet(t, plan) + Missing(t, plan, chainId, |plan.insert|) == plan.contributionsAfterUsdg
  {
    QuarantineIdsAreOld(t, plan, flows);
    NetAfterInserts(t, plan, chainId, |plan.insert|);
    assert plan.insert[..|plan.insert|] == plan.insert;
    ClearedKeepsTheRest(t, plan, chainId, runId, now);
    if Agrees(t, plan, chainId) {
      forall i | 0 <= i < |plan.insert|
        ensures Landed(InsertAll(t, plan.insert, chainId), plan.smartAccount, chainId, plan.insert[i])
      {
        AgreedEvidenceLands(t, plan, chainId, i);
      }
    }
    if Verified(InsertAll(t, plan.insert, chainId), plan.smartAccount, chainId, plan.insert) {
      LandedEvidenceAgrees(t, plan, chainId);
    }
  }

  /** None of the planned rows is in the ledger yet, and no two are the same log. */
  predicate Fresh(t: Tables, plan: AccountPlan, chainId: int) {
    && (forall i | 0 <= i < |plan.insert| :: !Holds(t.flows, IdentityOf(plan.insert[i], plan.smartAccount, chainId)))
    && (forall i, j | 0 <= i < j < |plan.insert| :: !SameLog(plan.insert[i], plan.insert[j]))
  }

  lemma {:induction false} FreshIsAllMissing(t: Tables, plan: AccountPlan, chainId: int, n: nat)
    requires Fresh(t, plan, chainId) && n <= |plan.insert|
    ensures Missing(t, plan, chainId, n) == Total(plan.insert[..n])
  {
    if n > 0 {
      FreshIsAllMissing(t, plan, chainId, n - 1);
      assert plan.insert[..n][..n - 1] == plan.insert[..n - 1];
    }
  }

  /** A first repair, with none of its evidence in the ledger, commits exactly when the rows
    * it leaves in the account's epoch net to zero. */
  lemma FirstRepairCommitsIff(t: Tables, plan: AccountPlan, flows: seq<Numbered>, chainId: int, runId: string, now: int)
    requires Valid(t) && t.chainIndex && Justified(plan, flows) && Descends(flows, t) && Fresh(t, plan, chainId)
    ensures Committed(t, plan, chainId, runId, now).Some? <==> SurvivingNet(t, plan) == 0
  {
    CommitSucceedsIff(t, plan, flows, chainId, runId, now);
    FreshIsAllMissing(t, plan, chainId, |plan.insert|);
    assert plan.insert[..|plan.insert|] == plan.insert;
    forall i, id | 0 <= i < |plan.insert| && id in t.flows
      ensures Identity(t.flows[id]) != Some(IdentityOf(plan.insert[i], plan.smartAccount, chainId))
    {
      assert !Holds(t.flows, IdentityOf(plan.insert[i], plan.smartAccount, chainId));
    }
  }

  // ── three ledgers ──────────────────────────────────────────────────────────

  /** What the planner makes of one deposit found on chain for an account now in epoch 2. */
  function DepositPlan(account: string, flows: seq<Numbered>, deposit: nat): AccountPlan {
    var chain := map[Lower(account) := AccountCapital([CapitalMovement("0x1", 7, 0, deposit, CapitalIn)], true)];
    PlanFor(AgentRow(account, 2, "live"), Evidence(flows, chain, map[]))
  }

  function CarryRow(account: string, amount: nat): FlowRow {
    FlowRow(account, In, amount, None, None, None, "epoch-carry", 2, None)
  }

  /** The deposit as the scanner booked it while the account was in epoch 1. */
  function LoggedRow(account: string, amount: nat, chainId: int): FlowRow {
    FlowRow(account, In, amount, Some("0x1"), Some(7), Some(0), "chain-log", 1, Some(chainId))
  }

  lemma NothingInferred(p: AccountPlan, flows: seq<Numbered>)
    requires Justified(p, flows) && forall f | f in flows :: IsEvidencedFlow(f.row.source)
    ensures p.quarantine == []
  {
    if p.quarantine != [] {
      HasMember(p.quarantine);
      assert false;
    }
  }

  lemma HasMember(ids: seq<nat>)
    requires ids != []
    ensures exists id :: id in ids
  {
    assert ids[0] in ids;
  }

  lemma DepositPlanShape(account: string, flows: seq<Numbered>, deposit: nat)
    requires forall f | f in flows :: IsEvidencedFlow(f.row.source)
    ensures var p := DepositPlan(account, flows, deposit);
            && p.smartAccount == account && p.epoch == 2 && p.blocked.NotBlocked? && p.quarantine == []
            && p.insert == [ProposedFlowRow(account, 2, In, deposit, "0x1", 7, 0)]
            && p.contributionsAfterUsdg == deposit
            && Justified(p, flows)
  {
    var m := [CapitalMovement("0x1", 7, 0, deposit, CapitalIn)];
    var chain := map[Lower(account) := AccountCapital(m, true)];
    PlansAreJustified(AgentRow(account, 2, "live"), Evidence(flows, chain, map[]));
    var p := DepositPlan(account, flows, deposit);
    NothingInferred(p, flows);
    assert m[..0] == [] && TotalCapital(m[..0]) == CapitalTotals(0, 0, 0, 0);
    assert Proposals(account, 2, m[..0]) == [];
    assert Proposals(account, 2, m) == [Proposal(account, 2, m[0])];
    assert chain[Lower(account)].movements == m;
    assert p.insert[..0] == [] && Total(p.insert[..0]) == 0;
  }

  /** A one-deposit plan with nothing to quarantine, over any ledger whose held copy of the
    * deposit agrees with it. */
  lemma DepositCommitsIff(
    t: Tables, account: string, flows: seq<Numbered>, deposit: nat, chainId: int, runId: string, now: int)
    requires Valid(t) && t.chainIndex && Descends(flows, t)
    requires forall f | f in flows :: IsEvidencedFlow(f.row.source)
    requires Agrees(t, DepositPlan(account, flows, deposit), chainId)
    ensures Committed(t, DepositPlan(account, flows, deposit), chainId, runId, now).Some? <==>
              Net(t.flows, account, 2, t.nextId) ==
              if Holds(t.flows, LogIdentity(chainId, account, "0x1", 0)) then deposit else 0
  {
    var p := DepositPlan(account, flows, deposit);
    DepositPlanShape(account, flows, deposit);
    CommitSucceedsIff(t, p, flows, chainId, runId, now);
    assert Kept(t, p) == t.flows;
    assert !PlannedBefore(p, 0) && Missing(t, p, chainId, 0) == 0;
    assert Missing(t, p, chainId, 1) ==
           if Holds(t.flows, LogIdentity(chainId, account, "0x1", 0)) then 0 else deposit;
  }

  lemma NetOfOne(row: FlowRow, account: string, epoch: int)
    ensures Net(map[0 := row], account, epoch, 1) == if Belongs(row, account, epoch) then Signed(row) else 0
  {
    assert Net(map[0 := row], account, epoch, 0) == 0;
  }

  /** An account that crossed into epoch 2 with a carry on its books, and whose deposit the
    * ledger does not hold: the planner plans the repair, and it rolls back. */
  lemma CarryRollsBack(account: string, carry: nat, deposit: nat, chainId: int, runId: string, now: int)
    requires carry > 0
    ensures var rows := [Numbered(0, CarryRow(account, carry))];
            var t := Tables(map[0 := CarryRow(account, carry)], 1, [], map[], true);
            && Valid(t) && Descends(rows, t)
            && DepositPlan(account, rows, deposit).blocked.NotBlocked?
            && Committed(t, DepositPlan(account, rows, deposit), chainId, runId, now).None?
  {
    var row := CarryRow(account, carry);
    DepositPlanShape(account, [Numbered(0, row)], deposit);
    NetOfOne(row, account, 2);
    DepositCommitsIff(Tables(map[0 := row], 1, [], map[], true), account, [Numbered(0, row)], deposit, chainId, runId, now);
  }

  /** The same deposit booked live in epoch 1 and planned again in epoch 2, no carry anywhere:
    * the index refuses the row, and the epoch nets to nothing. */
  lemma LoggedEarlierRollsBack(account: string, deposit: nat, chainId: int, runId: string, now: int)
    requires deposit > 0
    ensures var rows := [Numbered(0, LoggedRow(account, deposit, chainId))];
            var t := Tables(map[0 := LoggedRow(account, deposit, chainId)], 1, [], map[], true);
            && Valid(t) && Descends(rows, t)
            && DepositPlan(account, rows, deposit).blocked.NotBlocked?
            && Committed(t, DepositPlan(account, rows, deposit), chainId, runId, now).None?
  {
    var row := LoggedRow(account, deposit, chainId);
    var t := Tables(map[0 := row], 1, [], map[], true);
    DepositPlanShape(account, [Numbered(0, row)], deposit);
    NetOfOne(row, account, 2);
    assert Identity(t.flows[0]) == Some(LogIdentity(chainId, account, "0x1", 0));
    DepositCommitsIff(t, account, [Numbered(0, row)], deposit, chainId, runId, now);
  }

  /** With both rows on the books the two faults cancel exactly when the carry is the deposit:
    * a carry does not always stop a repair. */
  lemma CarryOfLoggedDepositCommitsIff(
    account: string, carry: nat, deposit: nat, chainId: int, runId: string, now: int)
    ensures var rows := [Numbered(0, LoggedRow(account, deposit, chainId)), Numbered(1, CarryRow(account, carry))];
            var t := Tables(map[0 := rows[0].row, 1 := rows[1].row], 2, [], map[], true);
            Committed(t, DepositPlan(account, rows, deposit), chainId, runId, now).Some? <==> carry == deposit
  {
    var rows := [Numbered(0, LoggedRow(account, deposit, chainId)), Numbered(1, CarryRow(account, carry))];
    var f := map[0 := rows[0].row, 1 := rows[1].row];
    DepositPlanShape(account, rows, deposit);
    assert Net(f, account, 2, 1) == Net(f, account, 2, 0) + Weight(f, account, 2, 0) == 0;
    assert Net(f, account, 2, 2) == Weight(f, account, 2, 1) == carry;
    assert Identity(f[0]) == Some(LogIdentity(chainId, account, "0x1", 0));
    DepositCommitsIff(Tables(f, 2, [], map[], true), account, rows, deposit, chainId, runId, now);
  }
}
