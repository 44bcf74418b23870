/** What the repair promises over whole ledgers and whole batches. */
module RepairLaws {
  import opened Text
  import opened Ledger
  import opened Reconstruction
  import opened Repair

  /** The tables are the ones the plan's rows were read from, any number of writes later:
    * ids are never reused and a flow row is never rewritten. */
  ghost predicate Descends(flows: seq<Numbered>, t: Tables) {
    forall f | f in flows :: f.id < t.nextId && (f.id in t.flows ==> t.flows[f.id] == f.row)
  }

  predicate Archived(t: Tables, id: nat, row: FlowRow) {
    exists k | 0 <= k < |t.quarantine| :: t.quarantine[k].originalId == id && t.quarantine[k].row == row
  }

  // ── the shape of the two table-changing steps ──────────────────────────────

  lemma {:induction false} InsertAllShape(t: Tables, rows: seq<ProposedFlowRow>, chainId: int)
    requires Valid(t)
    ensures var u := InsertAll(t, rows, chainId);
            && t.nextId <= u.nextId
            && u.quarantine == t.quarantine && u.agents == t.agents && u.chainIndex == t.chainIndex
            && (forall id :: id in t.flows ==> id in u.flows && u.flows[id] == t.flows[id])
            && (forall id :: id in u.flows && id !in t.flows ==>
                  t.nextId <= id < u.nextId && exists r :: r in rows && u.flows[id] == RowOf(r, chainId))
  {
    if rows != [] {
      var n := |rows| - 1;
      InsertAllShape(t, rows[..n], chainId);
      InsertAllIsValid(t, rows[..n], chainId);
      assert rows == rows[..n] + [rows[n]];
      assert forall r :: r in rows[..n] ==> r in rows;
      assert rows[n] in rows;
    }
  }

  lemma {:induction false} QuarantineAllShape(t: Tables, ids: seq<nat>, stamp: Stamp)
    ensures var u := QuarantineAll(t, ids, stamp);
            && u.nextId == t.nextId && u.agents == t.agents && u.chainIndex == t.chainIndex
            && (forall id :: id in u.flows <==> id in t.flows && id !in ids)
            && (forall id :: id in u.flows ==> u.flows[id] == t.flows[id])
            && t.quarantine <= u.quarantine
            && (forall id :: id in t.flows && id in ids ==> Archived(u, id, t.flows[id]))
            && (forall k | |t.quarantine| <= k < |u.quarantine| ::
                  u.quarantine[k].originalId in ids && u.quarantine[k].originalId in t.flows &&
                  u.quarantine[k].stamp == stamp &&
                  u.quarantine[k].row == t.flows[u.quarantine[k].originalId])
  {
    if ids != [] {
      var n := |ids| - 1;
      QuarantineAllShape(t, ids[..n], stamp);
      assert ids == ids[..n] + [ids[n]];
      var v, u := QuarantineAll(t, ids[..n], stamp), QuarantineAll(t, ids, stamp);
      forall id | id in t.flows && id in ids
        ensures Archived(u, id, t.flows[id])
      {
        if id in ids[..n] {
          var k :| 0 <= k < |v.quarantine| && v.quarantine[k].originalId == id && v.quarantine[k].row == t.flows[id];
          assert u.quarantine[k] == v.quarantine[k];
        } else {
          assert u.quarantine[|v.quarantine|].originalId == id;
        }
      }
    }
  }

  // ── which accounts a run acts on ───────────────────────────────────────────

  /** A run acts on an account exactly when it was asked to (or named none), nothing blocks the
    * plan and the plan asks for something; with resume also only when some planned row has not
    * landed or some row is still to be moved. Every other account it leaves as it found it. */
  lemma ActsIff(t: Tables, plan: AccountPlan, opts: RepairOptions, chainId: int, now: int)
    ensures var due := (opts.accounts == [] || Lower(plan.smartAccount) in opts.accounts)
                       && plan.blocked == NotBlocked && (|plan.insert| > 0 || |plan.quarantine| > 0);
            var done := |plan.quarantine| == 0 && forall i | 0 <= i < |plan.insert| ::
                          Landed(t, plan.smartAccount, chainId, plan.insert[i]);
            Applied(t, plan, opts, chainId, now) ==
            if due && !(opts.resume && done) then Committed(t, plan, chainId, opts.runId, now) else Some(t)
  {
  }

  /** What landing means, column by column. */
  lemma LandedIff(t: Tables, account: string, chainId: int, r: ProposedFlowRow)
    ensures Landed(t, account, chainId, r) <==>
              exists id | id in t.flows ::
                var f := t.flows[id];
                && f.agentId == account && f.chainId == Some(chainId)
                && f.txHash == Some(r.txHash) && f.logIndex == Some(r.logIndex)
                && f.direction == r.direction && f.amountUsdg == r.amountUsdg && f.source == "chain-log"
  {
    if id :| id in t.flows && Identity(t.flows[id]) == Some(IdentityOf(r, account, chainId)) && Matches(t.flows[id], r) {
      assert t.flows[id].agentId == account;
    }
    if id :| id in t.flows && t.flows[id].agentId == account && t.flows[id].chainId == Some(chainId)
             && t.flows[id].txHash == Some(r.txHash) && t.flows[id].logIndex == Some(r.logIndex)
             && Matches(t.flows[id], r) {
      assert Identity(t.flows[id]) == Some(IdentityOf(r, account, chainId));
    }
  }

  // ── conservation ───────────────────────────────────────────────────────────

  /** A quarantined row, known by its id, is an inferred row of the plan's account and epoch. */
  lemma QuarantinedIsInferred(t: Tables, plan: AccountPlan, flows: seq<Numbered>, id: nat)
    requires Justified(plan, flows) && Descends(flows, t) && id in plan.quarantine && id in t.flows
    ensures Inferred(t.flows[id]) && id < t.nextId
    ensures Lower(t.flows[id].agentId) == Lower(plan.smartAccount) && t.flows[id].epoch == plan.epoch
  {
    var f :| f in flows && f.id == id && InScope(f, plan.smartAccount, plan.epoch) && Inferred(f.row);
  }

  /** Every row of `t` is in `u` untouched, or archived whole, never both; only inferred
    * rows move, and nothing archived before is lost. */
  predicate RowsConserved(t: Tables, u: Tables) {
    && (forall id | id in t.flows ::
          && (id in u.flows <==> !Archived(u, id, t.flows[id]))
          && (id in u.flows ==> u.flows[id] == t.flows[id])
          && (id !in u.flows ==> Inferred(t.flows[id])))
    && t.quarantine <= u.quarantine
  }

  predicate OnlyEvidenceIsNew(t: Tables, u: Tables, plan: AccountPlan, chainId: int) {
    forall id | id in u.flows && id !in t.flows :: exists r :: r in plan.insert && u.flows[id] == RowOf(r, chainId)
  }

  predicate OtherVerdictsKept(t: Tables, u: Tables, account: string) {
    forall a | a in t.agents && a != account :: a in u.agents && u.agents[a] == t.agents[a]
  }

  /** A committed repair conserves the ledger, adds only planned evidence, leaves every
    * planned row there and matching the chain, nets to the figure the operator was shown,
    * and changes nobody else's verdict. */
  lemma RepairConserves(
    t: Tables, plan: AccountPlan, flows: seq<Numbered>, chainId: int, runId: string, now: int)
    requires Valid(t) && Justified(plan, flows) && Descends(flows, t)
    requires Committed(t, plan, chainId, runId, now).Some?
    ensures var u := Committed(t, plan, chainId, runId, now).value;
            && Valid(u)
            && RowsConserved(t, u)
            && OnlyEvidenceIsNew(t, u, plan, chainId)
            && Verified(u, plan.smartAccount, chainId, plan.insert)
            && NetOf(u, plan) == plan.contributionsAfterUsdg
            && OtherVerdictsKept(t, u, plan.smartAccount)
  {
    var a := InsertAll(t, plan.insert, chainId);
    ClearingConserves(t, plan, flows, chainId, runId, now);
    DescendsThroughInserts(t, plan, flows, chainId);
    EvidenceSurvives(a, plan, plan, flows, chainId, runId, now);
    var cleared := Cleared(t, plan, chainId, runId, now);
    JudgingKeepsTheRows(t, cleared, plan, chainId, QualityAfter(cleared, plan, now));
  }

  /** The row says of the planned transfer whose it is, what moved and where the chain has it. */
  predicate IsReceiptFor(row: FlowRow, r: ProposedFlowRow, chainId: int) {
    && row.agentId == r.agentId && row.epoch == r.epoch && row.source == "chain-log" && row.chainId == Some(chainId)
    && row.direction == r.direction && row.amountUsdg == r.amountUsdg
    && row.txHash == Some(r.txHash) && row.blockNumber == Some(r.blockNumber) && row.logIndex == Some(r.logIndex)
  }

  /** Whatever a repair adds is the receipt of a planned transfer. */
  lemma AddedRowsAreReceipts(t: Tables, plan: AccountPlan, chainId: int, runId: string, now: int)
    requires Valid(t) && Committed(t, plan, chainId, runId, now).Some?
    ensures var u := Committed(t, plan, chainId, runId, now).value;
            forall id | id in u.flows && id !in t.flows ::
              exists r | r in plan.insert :: IsReceiptFor(u.flows[id], r, chainId)
  {
    InsertAllShape(t, plan.insert, chainId);
    QuarantineAllShape(InsertAll(t, plan.insert, chainId), plan.quarantine, StampOf(plan, runId, now));
    var u := Committed(t, plan, chainId, runId, now).value;
    forall id | id in u.flows && id !in t.flows
      ensures exists r | r in plan.insert :: IsReceiptFor(u.flows[id], r, chainId)
    {
      var r :| r in plan.insert && u.flows[id] == RowOf(r, chainId);
      assert IsReceiptFor(u.flows[id], r, chainId);
    }
  }

  /** Who moved a row, when, and the logs that stand in its place. */
  predicate SaysWhy(stamp: Stamp, plan: AccountPlan, runId: string, now: int) {
    && stamp.runId == runId && stamp.at == now && |stamp.replacedBy| == |plan.insert|
    && forall i | 0 <= i < |plan.insert| :: stamp.replacedBy[i] == (plan.insert[i].txHash, plan.insert[i].logIndex)
  }

  /** Every row a repair takes away is one the plan named, kept whole and signed with the
    * run, its time and the evidence that replaced it. */
  lemma MovedRowsSayWhy(t: Tables, plan: AccountPlan, chainId: int, runId: string, now: int)
    requires Valid(t) && Committed(t, plan, chainId, runId, now).Some?
    ensures var u := Committed(t, plan, chainId, runId, now).value;
            && |t.quarantine| <= |u.quarantine|
            && forall k | |t.quarantine| <= k < |u.quarantine| ::
                 && u.quarantine[k].originalId in plan.quarantine
                 && SaysWhy(u.quarantine[k].stamp, plan, runId, now)
  {
    var a, stamp := InsertAll(t, plan.insert, chainId), StampOf(plan, runId, now);
    InsertingMovesNothing(t, plan.insert, chainId);
    StampSaysWhy(plan, runId, now);
    MovedRowsAreStamped(a, plan, stamp, runId, now);
    assert Committed(t, plan, chainId, runId, now).value.quarantine == QuarantineAll(a, plan.quarantine, stamp).quarantine;
  }

  lemma StampSaysWhy(plan: AccountPlan, runId: string, now: int)
    ensures SaysWhy(StampOf(plan, runId, now), plan, runId, now)
  {
  }

  lemma MovedRowsAreStamped(a: Tables, plan: AccountPlan, stamp: Stamp, runId: string, now: int)
    requires SaysWhy(stamp, plan, runId, now)
    ensures var u := QuarantineAll(a, plan.quarantine, stamp);
            && |a.quarantine| <= |u.quarantine|
            && forall k | |a.quarantine| <= k < |u.quarantine| ::
                 u.quarantine[k].originalId in plan.quarantine && SaysWhy(u.quarantine[k].stamp, plan, runId, now)
  {
    QuarantineAllShape(a, plan.quarantine, stamp);
  }

  /** The verdict a repair writes: an account with an agents row is known, as of the repair,
    * if and only if the plan said so and only evidence is left of it. */
  lemma CommittedVerdictIff(t: Tables, plan: AccountPlan, chainId: int, runId: string, now: int)
    requires Valid(t) && Committed(t, plan, chainId, runId, now).Some?
    ensures var u := Committed(t, plan, chainId, runId, now).value;
            && u.agents.Keys == t.agents.Keys
            && (plan.smartAccount in u.agents ==>
                  && u.agents[plan.smartAccount].qualityAt == now
                  && (u.agents[plan.smartAccount].contributionsKnown <==>
                        plan.contributionsKnownAfter && OnlyEvidenceLeft(u, plan)))
  {
    InsertAllShape(t, plan.insert, chainId);
    QuarantineAllShape(InsertAll(t, plan.insert, chainId), plan.quarantine, StampOf(plan, runId, now));
  }

  /** The rows the planner read are all the rows there are. */
  ghost predicate ReadWhole(flows: seq<Numbered>, t: Tables) {
    forall id | id in t.flows :: exists f | f in flows :: f.id == id && f.row == t.flows[id]
  }

  /** A planned repair of the very ledger it was planned over makes the account known if and
    * only if no flow of it names a transaction under a source that is not evidence: those
    * rows are neither quarantined nor receipts, and keep it unknown for ever. */
  lemma PlannedRepairIsKnownIff(
    t: Tables, a: AgentRow, e: Evidence, chainId: int, runId: string, now: int)
    requires Valid(t) && Descends(e.flows, t) && ReadWhole(e.flows, t) && PlanFor(a, e).blocked.NotBlocked?
    requires Committed(t, PlanFor(a, e), chainId, runId, now).Some? && a.smartAccount in t.agents
    ensures var u := Committed(t, PlanFor(a, e), chainId, runId, now).value;
            && a.smartAccount in u.agents
            && (u.agents[a.smartAccount].contributionsKnown <==>
                  forall id | id in t.flows && t.flows[id].agentId == a.smartAccount && t.flows[id].epoch == EpochOf(a)
                              && t.flows[id].txHash.Some? && t.flows[id].txHash.value != "" ::
                    t.flows[id].source == "chain-log" || t.flows[id].source == "epoch-carry")
  {
    var plan := PlanFor(a, e);
    PlansAreJustified(a, e);
    CommittedVerdictIff(t, plan, chainId, runId, now);
    LeftIsNotInferred(t, plan, e.flows, chainId, runId, now);
  }

  lemma LeftIsNotInferred(
    t: Tables, plan: AccountPlan, flows: seq<Numbered>, chainId: int, runId: string, now: int)
    requires Valid(t) && Descends(flows, t) && ReadWhole(flows, t) && Justified(plan, flows)
    requires Committed(t, plan, chainId, runId, now).Some?
    ensures OnlyEvidenceLeft(Committed(t, plan, chainId, runId, now).value, plan) <==>
              forall id | id in t.flows && t.flows[id].agentId == plan.smartAccount && t.flows[id].epoch == plan.epoch
                          && t.flows[id].txHash.Some? && t.flows[id].txHash.value != "" ::
                t.flows[id].source == "chain-log" || t.flows[id].source == "epoch-carry"
  {
    var u := Committed(t, plan, chainId, runId, now).value;
    InsertAllShape(t, plan.insert, chainId);
    QuarantineAllShape(InsertAll(t, plan.insert, chainId), plan.quarantine, StampOf(plan, runId, now));
    forall id | id in t.flows && Belongs(t.flows[id], plan.smartAccount, plan.epoch)
      ensures id in u.flows <==> !Inferred(t.flows[id])
    {
      var f :| f in flows && f.id == id && f.row == t.flows[id];
      assert InScope(f, plan.smartAccount, plan.epoch);
      if id in plan.quarantine { QuarantinedIsInferred(t, plan, flows, id); }
    }
  }

  /** Recording the verdict touches one agent's row and no flow. */
  lemma JudgingKeepsTheRows(t: Tables, c: Tables, plan: AccountPlan, chainId: int, q: Quality)
    requires Valid(c) && RowsConserved(t, c) && OnlyEvidenceIsNew(t, c, plan, chainId) && c.agents == t.agents
    requires Verified(c, plan.smartAccount, chainId, plan.insert)
    ensures var u := Judged(c, plan.smartAccount, q);
            && Valid(u) && RowsConserved(t, u) && OnlyEvidenceIsNew(t, u, plan, chainId)
            && Verified(u, plan.smartAccount, chainId, plan.insert)
            && NetOf(u, plan) == NetOf(c, plan) && OtherVerdictsKept(t, u, plan.smartAccount)
  {
    var u := Judged(c, plan.smartAccount, q);
    assert u.flows == c.flows && u.quarantine == c.quarantine && u.nextId == c.nextId && u.chainIndex == c.chainIndex;
    forall i | 0 <= i < |plan.insert|
      ensures Landed(u, plan.smartAccount, chainId, plan.insert[i])
    {
      assert Landed(c, plan.smartAccount, chainId, plan.insert[i]);
    }
    forall id | id in t.flows
      ensures Archived(u, id, t.flows[id]) == Archived(c, id, t.flows[id])
    {
    }
  }

  lemma ClearingConserves(t: Tables, plan: AccountPlan, flows: seq<Numbered>, chainId: int, runId: string, now: int)
    requires Valid(t) && Justified(plan, flows) && Descends(flows, t)
    ensures var c := Cleared(t, plan, chainId, runId, now);
            && Valid(c) && RowsConserved(t, c) && OnlyEvidenceIsNew(t, c, plan, chainId)
            && c.agents == t.agents
  {
    var a := InsertAll(t, plan.insert, chainId);
    var stamp := StampOf(plan, runId, now);
    InsertAllShape(t, plan.insert, chainId);
    InsertAllIsValid(t, plan.insert, chainId);
    QuarantineAllShape(a, plan.quarantine, stamp);
    QuarantineAllIsValid(a, plan.quarantine, stamp);
    forall id | id in t.flows && id in plan.quarantine
      ensures Inferred(t.flows[id])
    {
      QuarantinedIsInferred(t, plan, flows, id);
    }
  }

  lemma DescendsThroughInserts(t: Tables, plan: AccountPlan, flows: seq<Numbered>, chainId: int)
    requires Valid(t) && Descends(flows, t)
    ensures Descends(flows, InsertAll(t, plan.insert, chainId))
  {
    InsertAllShape(t, plan.insert, chainId);
  }

  /** Quarantining for one plan never takes away the evidence of any plan. */
  lemma EvidenceSurvives(
    a: Tables, plan: AccountPlan, other: AccountPlan, flows: seq<Numbered>, chainId: int, runId: string, now: int)
    requires Justified(plan, flows) && Descends(flows, a)
    requires Verified(a, other.smartAccount, chainId, other.insert)
    ensures Verified(QuarantineAll(a, plan.quarantine, StampOf(plan, runId, now)),
                     other.smartAccount, chainId, other.insert)
  {
    var u := QuarantineAll(a, plan.quarantine, StampOf(plan, runId, now));
    QuarantineAllShape(a, plan.quarantine, StampOf(plan, runId, now));
    forall i | 0 <= i < |other.insert|
      ensures Landed(u, other.smartAccount, chainId, other.insert[i])
    {
      var r := other.insert[i];
      assert Landed(a, other.smartAccount, chainId, r);
      var id :| id in a.flows && Identity(a.flows[id]) == Some(IdentityOf(r, other.smartAccount, chainId)) &&
                Matches(a.flows[id], r);
      if id in plan.quarantine { QuarantinedIsInferred(a, plan, flows, id); }
      assert id in u.flows;
    }
  }

  // ── idempotence ────────────────────────────────────────────────────────────

  /** The plan has nothing left to do. */
  predicate Settled(t: Tables, plan: AccountPlan, chainId: int) {
    && Verified(t, plan.smartAccount, chainId, plan.insert)
    && (forall id | id in plan.quarantine :: id !in t.flows && id < t.nextId)
    && NetOf(t, plan) == plan.contributionsAfterUsdg
  }

  /** Same flows, ids and archived rows; only stamps and verdicts may differ. */
  predicate Alike(t: Tables, u: Tables) {
    && t.flows == u.flows && t.nextId == u.nextId && t.chainIndex == u.chainIndex
    && |t.quarantine| == |u.quarantine|
    && forall k | 0 <= k < |t.quarantine| ::
         t.quarantine[k].originalId == u.quarantine[k].originalId && t.quarantine[k].row == u.quarantine[k].row
  }

  lemma CommittedSettles(t: Tables, plan: AccountPlan, flows: seq<Numbered>, chainId: int, runId: string, now: int)
    requires Valid(t) && Justified(plan, flows) && Descends(flows, t)
    requires Committed(t, plan, chainId, runId, now).Some?
    ensures Settled(Committed(t, plan, chainId, runId, now).value, plan, chainId)
  {
    RepairConserves(t, plan, flows, chainId, runId, now);
    InsertAllShape(t, plan.insert, chainId);
    QuarantineAllShape(InsertAll(t, plan.insert, chainId), plan.quarantine, StampOf(plan, runId, now));
    QuarantineIdsAreOld(t, plan, flows);
  }

  /** Evidence that is already there is not inserted again. */
  lemma {:induction false} NothingToInsert(t: Tables, plan: AccountPlan, chainId: int, n: nat)
    requires t.chainIndex && Verified(t, plan.smartAccount, chainId, plan.insert)
    requires forall r | r in plan.insert :: r.agentId == plan.smartAccount
    requires n <= |plan.insert|
    ensures InsertAll(t, plan.insert[..n], chainId) == t
  {
    if n > 0 {
      NothingToInsert(t, plan, chainId, n - 1);
      assert plan.insert[..n][..n - 1] == plan.insert[..n - 1];
      assert Landed(t, plan.smartAccount, chainId, plan.insert[n - 1]);
      assert plan.insert[n - 1] in plan.insert;
      assert Conflicts(t, RowOf(plan.insert[n - 1], chainId));
    }
  }

  lemma {:induction false} NothingToMove(t: Tables, ids: seq<nat>, stamp: Stamp)
    requires forall id | id in ids :: id !in t.flows
    ensures QuarantineAll(t, ids, stamp) == t
  {
    if ids != [] {
      NothingToMove(t, ids[..|ids| - 1], stamp);
      assert ids[|ids| - 1] in ids;
    }
  }

  /** Committing a settled plan again inserts nothing, moves nothing and succeeds. */
  lemma SettledIsIdempotent(t: Tables, plan: AccountPlan, flows: seq<Numbered>, chainId: int, runId: string, now: int)
    requires t.chainIndex && Justified(plan, flows) && Settled(t, plan, chainId)
    ensures InsertAll(t, plan.insert, chainId) == t
    ensures Committed(t, plan, chainId, runId, now).Some?
    ensures Alike(Committed(t, plan, chainId, runId, now).value, t)
  {
    NothingToInsert(t, plan, chainId, |plan.insert|);
    assert plan.insert[..|plan.insert|] == plan.insert;
    NothingToMove(t, plan.quarantine, StampOf(plan, runId, now));
  }

  lemma {:induction false} NetAgrees(f: map<nat, FlowRow>, g: map<nat, FlowRow>, account: string, epoch: int, n: nat)
    requires forall id: nat | id < n :: Weight(f, account, epoch, id) == Weight(g, account, epoch, id)
    ensures Net(f, account, epoch, n) == Net(g, account, epoch, n)
  {
    if n > 0 { NetAgrees(f, g, account, epoch, n - 1); }
  }

  lemma {:induction false} NetBeyond(f: map<nat, FlowRow>, account: string, epoch: int, m: nat, n: nat)
    requires m <= n && forall id: nat | m <= id < n :: Weight(f, account, epoch, id) == 0
    ensures Net(f, account, epoch, n) == Net(f, account, epoch, m)
  {
    if m < n { NetBeyond(f, account, epoch, m, n - 1); }
  }

  /** A row of this account that another plan moves is one this account's plan moves too. */
  lemma SharedScope(t: Tables, done: AccountPlan, plan: AccountPlan, flows: seq<Numbered>, id: nat)
    requires Descends(flows, t) && Justified(done, flows) && Justified(plan, flows)
    requires id in t.flows && id in plan.quarantine && Belongs(t.flows[id], done.smartAccount, done.epoch)
    ensures id in done.quarantine
  {
    var f :| f in flows && f.id == id && InScope(f, plan.smartAccount, plan.epoch) && Inferred(f.row);
    assert InScope(f, done.smartAccount, done.epoch);
  }

  /** Repairing another account leaves a settled one settled. */
  lemma OthersStaySettled(
    t: Tables, done: AccountPlan, plan: AccountPlan, flows: seq<Numbered>, chainId: int, runId: string, now: int)
    requires Valid(t) && Descends(flows, t) && Justified(done, flows) && Justified(plan, flows)
    requires done.smartAccount != plan.smartAccount && Settled(t, done, chainId)
    requires Committed(t, plan, chainId, runId, now).Some?
    ensures Settled(Committed(t, plan, chainId, runId, now).value, done, chainId)
  {
    var a := InsertAll(t, plan.insert, chainId);
    var u := Committed(t, plan, chainId, runId, now).value;
    InsertAllShape(t, plan.insert, chainId);
    QuarantineAllShape(a, plan.quarantine, StampOf(plan, runId, now));
    DescendsThroughInserts(t, plan, flows, chainId);
    forall i | 0 <= i < |done.insert|
      ensures Landed(a, done.smartAccount, chainId, done.insert[i])
    {
      assert Landed(t, done.smartAccount, chainId, done.insert[i]);
    }
    EvidenceSurvives(a, plan, done, flows, chainId, runId, now);
    forall id: nat | id < u.nextId
      ensures Weight(u.flows, done.smartAccount, done.epoch, id) == Weight(t.flows, done.smartAccount, done.epoch, id)
    {
      if id in t.flows && id in plan.quarantine && Belongs(t.flows[id], done.smartAccount, done.epoch) {
        SharedScope(t, done, plan, flows, id);
      }
    }
    NetAgrees(u.flows, t.flows, done.smartAccount, done.epoch, u.nextId);
    NetBeyond(t.flows, done.smartAccount, done.epoch, t.nextId, u.nextId);
  }

  // ── batches ────────────────────────────────────────────────────────────────

  predicate OnePlanPerAccount(plans: seq<AccountPlan>) {
    forall i, j | 0 <= i < j < |plans| :: plans[i].smartAccount != plans[j].smartAccount
  }

  ghost predicate AllJustified(plans: seq<AccountPlan>, flows: seq<Numbered>) {
    forall i | 0 <= i < |plans| :: Justified(plans[i], flows)
  }

  predicate OneRowPerAgent(agents: seq<AgentRow>) {
    forall i, j | 0 <= i < j < |agents| :: agents[i].smartAccount != agents[j].smartAccount
  }

  lemma PlansForEach(agents: seq<AgentRow>, e: Evidence)
    ensures |PlansFor(agents, e)| == |agents|
    ensures forall i | 0 <= i < |agents| :: PlansFor(agents, e)[i] == PlanFor(agents[i], e)
  {
    PlannedAt(agents, a => PlanFor(a, e));
  }

  /** Every plan of a permutation of the planner's list is the plan of some agent. */
  lemma PlanOfSomeAgent(agents: seq<AgentRow>, e: Evidence, plans: seq<AccountPlan>, i: nat) returns (k: nat)
    requires multiset(plans) == multiset(PlansFor(agents, e)) && i < |plans|
    ensures k < |agents| && plans[i] == PlanFor(agents[k], e)
  {
    var planned := PlansFor(agents, e);
    assert plans[i] in multiset(plans);
    k :| 0 <= k < |planned| && planned[k] == plans[i];
    PlansForEach(agents, e);
  }

  lemma PlansAreDistinct(agents: seq<AgentRow>, e: Evidence)
    requires OneRowPerAgent(agents)
    ensures forall i, j | 0 <= i < j < |PlansFor(agents, e)| :: PlansFor(agents, e)[i] != PlansFor(agents, e)[j]
  {
    PlansForEach(agents, e);
    forall i, j | 0 <= i < j < |agents|
      ensures PlansFor(agents, e)[i] != PlansFor(agents, e)[j]
    {
      assert PlanFor(agents[i], e).smartAccount != PlanFor(agents[j], e).smartAccount;
    }
  }

  /** Whatever order the planner's sort leaves them in, its plans are justified by the rows it
    * read, and there is one per account, the account being the agents' primary key. */
  lemma PlannedListsAreJustified(agents: seq<AgentRow>, e: Evidence, plans: seq<AccountPlan>)
    requires multiset(plans) == multiset(PlansFor(agents, e)) && OneRowPerAgent(agents)
    ensures AllJustified(plans, e.flows) && OnePlanPerAccount(plans)
  {
    forall i | 0 <= i < |plans|
      ensures Justified(plans[i], e.flows)
    {
      var k := PlanOfSomeAgent(agents, e, plans, i);
      PlansAreJustified(agents[k], e);
    }
    forall i, j | 0 <= i < j < |plans|
      ensures plans[i].smartAccount != plans[j].smartAccount
    {
      var k := PlanOfSomeAgent(agents, e, plans, i);
      var l := PlanOfSomeAgent(agents, e, plans, j);
      if k == l {
        TwiceIsTwo(plans, i, j);
        PlansAreDistinct(agents, e);
        OnceIsOne(PlansFor(agents, e), plans[i]);
      }
    }
  }

  lemma TwiceIsTwo(s: seq<AccountPlan>, i: nat, j: nat)
    requires i < j < |s| && s[i] == s[j]
    ensures multiset(s)[s[i]] >= 2
  {
    assert s == s[..j] + s[j..];
    assert s[i] == s[..j][i] && s[..j][i] in multiset(s[..j]);
    assert s[j] == s[j..][0] && s[j..][0] in multiset(s[j..]);
    assert multiset(s) == multiset(s[..j]) + multiset(s[j..]);
  }

  lemma {:induction false} OnceIsOne(s: seq<AccountPlan>, p: AccountPlan)
    requires forall i, j | 0 <= i < j < |s| :: s[i] != s[j]
    ensures multiset(s)[p] <= 1
  {
    if s != [] {
      var n := |s| - 1;
      OnceIsOne(s[..n], p);
      assert s == s[..n] + [s[n]];
      assert s[n] !in s[..n];
    }
  }

  lemma AppliedDescends(t: Tables, plan: AccountPlan, flows: seq<Numbered>, opts: RepairOptions, chainId: int, now: int)
    requires Valid(t) && Justified(plan, flows) && Descends(flows, t)
    requires Applied(t, plan, opts, chainId, now).Some?
    ensures Descends(flows, Applied(t, plan, opts, chainId, now).value)
  {
    InsertAllShape(t, plan.insert, chainId);
    QuarantineAllShape(InsertAll(t, plan.insert, chainId), plan.quarantine, StampOf(plan, opts.runId, now));
  }

  /** Every account a batch may act on is settled. */
  predicate AllSettled(u: Tables, plans: seq<AccountPlan>, n: nat, opts: RepairOptions, chainId: int)
    requires n <= |plans|
  {
    forall i | 0 <= i < n && Actionable(plans[i], opts) :: Settled(u, plans[i], chainId)
  }

  lemma OneMoreSettles(
    v: Tables, plans: seq<AccountPlan>, n: nat, flows: seq<Numbered>, opts: RepairOptions, chainId: int, now: int)
    requires Valid(v) && Descends(flows, v) && n < |plans|
    requires OnePlanPerAccount(plans) && AllJustified(plans, flows) && !opts.resume
    requires AllSettled(v, plans, n, opts, chainId) && Applied(v, plans[n], opts, chainId, now).Some?
    ensures AllSettled(Applied(v, plans[n], opts, chainId, now).value, plans, n + 1, opts, chainId)
  {
    var u := Applied(v, plans[n], opts, chainId, now).value;
    if Actionable(plans[n], opts) {
      CommittedSettles(v, plans[n], flows, chainId, opts.runId, now);
    }
    forall i | 0 <= i < n + 1 && Actionable(plans[i], opts)
      ensures Settled(u, plans[i], chainId)
    {
      if i < n {
        AppliedKeepsSettled(v, plans[i], plans[n], flows, opts, chainId, now);
      }
    }
  }

  /** What a clean run (no resume) has established after its accounts. */
  lemma {:induction false} CleanRunSettles(
    t: Tables, plans: seq<AccountPlan>, flows: seq<Numbered>, opts: RepairOptions, chainId: int, clock: nat -> int)
    requires Valid(t) && t.chainIndex && Descends(flows, t)
    requires OnePlanPerAccount(plans) && AllJustified(plans, flows) && !opts.resume
    requires Batch(t, plans, opts, chainId, clock).Some?
    ensures var u := Batch(t, plans, opts, chainId, clock).value;
            && Valid(u) && u.chainIndex && Descends(flows, u)
            && AllSettled(u, plans, |plans|, opts, chainId)
  {
    if plans != [] {
      var n := |plans| - 1;
      CleanRunSettles(t, plans[..n], flows, opts, chainId, clock);
      var v := Batch(t, plans[..n], opts, chainId, clock).value;
      AppliedIsValid(v, plans[n], opts, chainId, clock(n));
      AppliedDescends(v, plans[n], flows, opts, chainId, clock(n));
      assert forall i | 0 <= i < n :: plans[..n][i] == plans[i];
      OneMoreSettles(v, plans, n, flows, opts, chainId, clock(n));
    }
  }

  lemma AppliedKeepsSettled(
    v: Tables, done: AccountPlan, plan: AccountPlan, flows: seq<Numbered>, opts: RepairOptions, chainId: int, now: int)
    requires Valid(v) && Descends(flows, v) && Justified(done, flows) && Justified(plan, flows) && !opts.resume
    requires done.smartAccount != plan.smartAccount && Settled(v, done, chainId)
    requires Applied(v, plan, opts, chainId, now).Some?
    ensures Settled(Applied(v, plan, opts, chainId, now).value, done, chainId)
  {
    if Actionable(plan, opts) {
      OthersStaySettled(v, done, plan, flows, chainId, opts.runId, now);
    }
  }

  lemma {:induction false} QuarantineAlike(t: Tables, u: Tables, ids: seq<nat>, s: Stamp, s': Stamp)
    requires Alike(t, u)
    ensures Alike(QuarantineAll(t, ids, s), QuarantineAll(u, ids, s'))
  {
    if ids != [] { QuarantineAlike(t, u, ids[..|ids| - 1], s, s'); }
  }

  lemma {:induction false} InsertAlike(t: Tables, u: Tables, rows: seq<ProposedFlowRow>, chainId: int)
    requires Alike(t, u)
    ensures Alike(InsertAll(t, rows, chainId), InsertAll(u, rows, chainId))
  {
    if rows != [] { InsertAlike(t, u, rows[..|rows| - 1], chainId); }
  }

  /** The run id, the clock and earlier stamps never decide what a repair does. */
  lemma CommittedAlike(
    t: Tables, u: Tables, plan: AccountPlan, chainId: int, runId: string, now: int, runId': string, now': int)
    requires Alike(t, u)
    ensures var a, b := Committed(t, plan, chainId, runId, now), Committed(u, plan, chainId, runId', now');
            && (a.Some? <==> b.Some?)
            && (a.Some? ==> Alike(a.value, b.value))
  {
    InsertAlike(t, u, plan.insert, chainId);
    QuarantineAlike(InsertAll(t, plan.insert, chainId), InsertAll(u, plan.insert, chainId), plan.quarantine,
                    StampOf(plan, runId, now), StampOf(plan, runId', now'));
  }

  predicate SameSelection(a: RepairOptions, b: RepairOptions) {
    a.accounts == b.accounts
  }

  /** Resumability. Take any clean run of a plan list, stop it after k accounts, and re-run
    * the list (with or without `resume`, under any run id and clock) from what it left. The
    * first j accounts of the re-run succeed and leave the flows and quarantine the clean
    * run has after max(j, k): finished accounts are untouched, the others are repaired.
    * The conclusion has the form of the premise, so it covers any number of interruptions. */
  lemma {:induction false} RerunReachesTheCleanRun(
    t: Tables, u: Tables, plans: seq<AccountPlan>, flows: seq<Numbered>, k: nat, j: nat,
    clean: RepairOptions, rerun: RepairOptions, chainId: int, clock: nat -> int, clock': nat -> int)
    requires Valid(t) && t.chainIndex && Descends(flows, t)
    requires OnePlanPerAccount(plans) && AllJustified(plans, flows) && !clean.resume && SameSelection(clean, rerun)
    requires k <= |plans| && j <= |plans|
    requires Batch(t, plans[..if j < k then k else j], clean, chainId, clock).Some?
    requires Batch(t, plans[..k], clean, chainId, clock).Some?
    requires Alike(u, Batch(t, plans[..k], clean, chainId, clock).value)
    ensures Batch(u, plans[..j], rerun, chainId, clock').Some?
    ensures Alike(Batch(u, plans[..j], rerun, chainId, clock').value,
                  Batch(t, plans[..if j < k then k else j], clean, chainId, clock).value)
  {
    if j > 0 {
      var n := j - 1;
      var m := if n < k then k else n;
      BatchOneMore(u, plans, n, rerun, chainId, clock');
      if n >= k { BatchOneMore(t, plans, n, clean, chainId, clock); }
      RerunReachesTheCleanRun(t, u, plans, flows, k, n, clean, rerun, chainId, clock, clock');
      var v := Batch(u, plans[..n], rerun, chainId, clock').value;
      var w := Batch(t, plans[..m], clean, chainId, clock).value;
      CleanPrefixSettles(t, plans, m, flows, clean, chainId, clock);
      if n < k {
        RerunOfFinished(v, w, plans[n], flows, clean, rerun, chainId, clock'(n));
      } else {
        RerunOfPending(v, w, plans[n], clean, rerun, chainId, clock(n), clock'(n));
      }
    }
  }

  lemma CleanPrefixSettles(
    t: Tables, plans: seq<AccountPlan>, m: nat, flows: seq<Numbered>, opts: RepairOptions, chainId: int, clock: nat -> int)
    requires Valid(t) && t.chainIndex && Descends(flows, t) && m <= |plans|
    requires OnePlanPerAccount(plans) && AllJustified(plans, flows) && !opts.resume
    requires Batch(t, plans[..m], opts, chainId, clock).Some?
    ensures var w := Batch(t, plans[..m], opts, chainId, clock).value;
            w.chainIndex && AllSettled(w, plans, m, opts, chainId)
  {
    assert forall i | 0 <= i < m :: plans[..m][i] == plans[i];
    CleanRunSettles(t, plans[..m], flows, opts, chainId, clock);
  }

  lemma RerunOfFinished(
    v: Tables, w: Tables, p: AccountPlan, flows: seq<Numbered>,
    clean: RepairOptions, rerun: RepairOptions, chainId: int, now: int)
    requires Alike(v, w) && w.chainIndex && Justified(p, flows) && SameSelection(clean, rerun)
    requires Actionable(p, clean) ==> Settled(w, p, chainId)
    ensures Applied(v, p, rerun, chainId, now).Some? && Alike(Applied(v, p, rerun, chainId, now).value, w)
  {
    if Actionable(p, rerun) && !AlreadyDone(v, p, rerun, chainId) {
      assert Settled(v, p, chainId) by {
        assert forall i | 0 <= i < |p.insert| ::
            Landed(w, p.smartAccount, chainId, p.insert[i]) ==> Landed(v, p.smartAccount, chainId, p.insert[i]);
      }
      SettledIsIdempotent(v, p, flows, chainId, rerun.runId, now);
    }
  }

  lemma RerunOfPending(
    v: Tables, w: Tables, p: AccountPlan,
    clean: RepairOptions, rerun: RepairOptions, chainId: int, now: int, now': int)
    requires Alike(v, w) && w.chainIndex && !clean.resume && SameSelection(clean, rerun)
    requires forall r | r in p.insert :: r.agentId == p.smartAccount
    requires Applied(w, p, clean, chainId, now).Some?
    ensures var a := Applied(v, p, rerun, chainId, now');
            a.Some? && Alike(a.value, Applied(w, p, clean, chainId, now).value)
  {
    if Actionable(p, rerun) {
      CommittedAlike(v, w, p, chainId, rerun.runId, now', clean.runId, now);
      if AlreadyDone(v, p, rerun, chainId) {
        NothingToInsert(v, p, chainId, |p.insert|);
        assert p.insert[..|p.insert|] == p.insert;
      }
    }
  }

  /** A finished account's re-run reports no insert (what `inserted` counts). */
  lemma FinishedAccountsInsertNothing(
    t: Tables, plans: seq<AccountPlan>, flows: seq<Numbered>, opts: RepairOptions, chainId: int,
    clock: nat -> int, i: nat)
    requires Valid(t) && t.chainIndex && Descends(flows, t)
    requires OnePlanPerAccount(plans) && AllJustified(plans, flows) && !opts.resume
    requires Batch(t, plans, opts, chainId, clock).Some? && i < |plans| && Actionable(plans[i], opts)
    ensures var u := Batch(t, plans, opts, chainId, clock).value;
            InsertAll(u, plans[i].insert, chainId).nextId == u.nextId
  {
    CleanRunSettles(t, plans, flows, opts, chainId, clock);
    SettledIsIdempotent(Batch(t, plans, opts, chainId, clock).value, plans[i], flows, chainId, opts.runId, clock(i));
  }

  /** Accounts that are blocked, unselected or already in order never stop a batch. */
  lemma {:induction false} OnlyActionableAccountsStopABatch(
    t: Tables, plans: seq<AccountPlan>, opts: RepairOptions, chainId: int, clock: nat -> int)
    requires forall i | 0 <= i < |plans| :: !Actionable(plans[i], opts)
    ensures Batch(t, plans, opts, chainId, clock) == Some(t)
  {
    if plans != [] {
      OnlyActionableAccountsStopABatch(t, plans[..|plans| - 1], opts, chainId, clock);
    }
  }

  lemma QuarantineIdsAreOld(t: Tables, plan: AccountPlan, flows: seq<Numbered>)
    requires Justified(plan, flows) && Descends(flows, t)
    ensures forall id | id in plan.quarantine :: id < t.nextId
  {
    forall id | id in plan.quarantine
      ensures id < t.nextId
    {
      var f :| f in flows && f.id == id && InScope(f, plan.smartAccount, plan.epoch) && Inferred(f.row);
    }
  }
}
