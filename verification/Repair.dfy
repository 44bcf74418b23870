/** The ledger repair: insert the evidence, verify it, quarantine what it replaces,
  * recompute, and commit or roll back (worker/src/accounting-repair.ts). */
module Repair {
  import opened Text
  import opened Ledger
  import opened Reconstruction

  datatype RepairMode = DryRun | VerifyOnly | Commit

  /** `accounts` is lower-cased by whoever parsed it. */
  datatype RepairOptions = RepairOptions(mode: RepairMode, accounts: seq<string>, runId: string, resume: bool)

  datatype RepairStage =
    | SkippedNotSelected | SkippedNothingToDo | WouldMutate | SkippedBlocked
    | AlreadyRepaired | VerifiedOnly | Recomputed | Failed

  datatype AccountRepairResult = AccountRepairResult(
    account: string, stage: RepairStage, inserted: nat, insertsAlreadyPresent: nat, quarantined: nat,
    contributionsBeforeUsdg: int, contributionsAfterUsdg: int, contributionsKnownAfter: bool)

  // ── one account's repair as a function of the tables ───────────────────────

  function RowOf(r: ProposedFlowRow, chainId: int): FlowRow {
    FlowRow(r.agentId, r.direction, r.amountUsdg, Some(r.txHash), Some(r.blockNumber), Some(r.logIndex),
            "chain-log", r.epoch, Some(chainId))
  }

  function IdentityOf(r: ProposedFlowRow, account: string, chainId: int): LogIdentity {
    LogIdentity(chainId, account, r.txHash, r.logIndex)
  }

  predicate Matches(row: FlowRow, r: ProposedFlowRow) {
    row.direction == r.direction && row.amountUsdg == r.amountUsdg && row.source == "chain-log"
  }

  /** The row the chain says should exist is there, exactly. */
  predicate Landed(t: Tables, account: string, chainId: int, r: ProposedFlowRow) {
    exists id :: id in t.flows && Identity(t.flows[id]) == Some(IdentityOf(r, account, chainId)) &&
                 Matches(t.flows[id], r)
  }

  predicate Verified(t: Tables, account: string, chainId: int, expected: seq<ProposedFlowRow>) {
    forall i | 0 <= i < |expected| :: Landed(t, account, chainId, expected[i])
  }

  function InsertAll(t: Tables, rows: seq<ProposedFlowRow>, chainId: int): Tables {
    if rows == [] then t
    else Inserted(InsertAll(t, rows[..|rows| - 1], chainId), RowOf(rows[|rows| - 1], chainId))
  }

  function QuarantineAll(t: Tables, ids: seq<nat>, stamp: Stamp): Tables {
    if ids == [] then t else Moved(QuarantineAll(t, ids[..|ids| - 1], stamp), ids[|ids| - 1], stamp)
  }

  function ReplacedBy(rows: seq<ProposedFlowRow>): seq<(string, int)> {
    seq(|rows|, i requires 0 <= i < |rows| => (rows[i].txHash, rows[i].logIndex))
  }

  function StampOf(plan: AccountPlan, runId: string, now: int): Stamp {
    Stamp(runId, now, ReplacedBy(plan.insert))
  }

  function Cleared(t: Tables, plan: AccountPlan, chainId: int, runId: string, now: int): Tables {
    QuarantineAll(InsertAll(t, plan.insert, chainId), plan.quarantine, StampOf(plan, runId, now))
  }

  function NetOf(t: Tables, plan: AccountPlan): int {
    Net(t.flows, plan.smartAccount, plan.epoch, t.nextId)
  }

  function QualityAfter(t: Tables, plan: AccountPlan, now: int): Quality {
    Quality(plan.contributionsKnownAfter && AllEvidenced(t.flows, plan.smartAccount, plan.epoch), now)
  }

  /** What the transaction commits, or None when it throws and nothing changes. */
  function Committed(t: Tables, plan: AccountPlan, chainId: int, runId: string, now: int): Option<Tables> {
    var cleared := Cleared(t, plan, chainId, runId, now);
    if !Verified(InsertAll(t, plan.insert, chainId), plan.smartAccount, chainId, plan.insert) then None
    else if NetOf(cleared, plan) != plan.contributionsAfterUsdg then None
    else Some(Judged(cleared, plan.smartAccount, QualityAfter(cleared, plan, now)))
  }

  predicate Selected(plan: AccountPlan, opts: RepairOptions) {
    opts.accounts != [] ==> Lower(plan.smartAccount) in opts.accounts
  }

  /** The plan asks for something and this run may touch the account. */
  predicate Actionable(plan: AccountPlan, opts: RepairOptions) {
    Selected(plan, opts) && plan.blocked.NotBlocked? && !(plan.insert == [] && plan.quarantine == [])
  }

  predicate AlreadyDone(t: Tables, plan: AccountPlan, opts: RepairOptions, chainId: int) {
    opts.resume && plan.quarantine == [] && Verified(t, plan.smartAccount, chainId, plan.insert)
  }

  /** The effect of one commit-mode account, None for a failure. */
  function Applied(t: Tables, plan: AccountPlan, opts: RepairOptions, chainId: int, now: int): Option<Tables> {
    if !Actionable(plan, opts) || AlreadyDone(t, plan, opts, chainId) then Some(t)
    else Committed(t, plan, chainId, opts.runId, now)
  }

  /** Every flow the account has left in the epoch is a receipt or a carry. */
  predicate OnlyEvidenceLeft(u: Tables, plan: AccountPlan) {
    forall id | id in u.flows && u.flows[id].agentId == plan.smartAccount && u.flows[id].epoch == plan.epoch ::
      u.flows[id].source == "chain-log" || u.flows[id].source == "epoch-carry"
  }

  // ── what keeps the tables valid ────────────────────────────────────────────

  lemma InsertedIsValid(t: Tables, r: FlowRow)
    requires Valid(t)
    ensures Valid(Inserted(t, r))
  {
  }

  lemma MovedIsValid(t: Tables, id: nat, stamp: Stamp)
    requires Valid(t)
    ensures Valid(Moved(t, id, stamp))
  {
  }

  lemma {:induction false} InsertAllIsValid(t: Tables, rows: seq<ProposedFlowRow>, chainId: int)
    requires Valid(t)
    ensures Valid(InsertAll(t, rows, chainId))
    ensures InsertAll(t, rows, chainId).chainIndex == t.chainIndex
  {
    if rows != [] {
      InsertAllIsValid(t, rows[..|rows| - 1], chainId);
      InsertedIsValid(InsertAll(t, rows[..|rows| - 1], chainId), RowOf(rows[|rows| - 1], chainId));
    }
  }

  lemma {:induction false} QuarantineAllIsValid(t: Tables, ids: seq<nat>, stamp: Stamp)
    requires Valid(t)
    ensures Valid(QuarantineAll(t, ids, stamp))
    ensures QuarantineAll(t, ids, stamp).chainIndex == t.chainIndex
  {
    if ids != [] {
      QuarantineAllIsValid(t, ids[..|ids| - 1], stamp);
      MovedIsValid(QuarantineAll(t, ids[..|ids| - 1], stamp), ids[|ids| - 1], stamp);
    }
  }

  lemma AppliedIsValid(t: Tables, plan: AccountPlan, opts: RepairOptions, chainId: int, now: int)
    requires Valid(t)
    ensures var a := Applied(t, plan, opts, chainId, now);
            a.Some? ==> Valid(a.value) && a.value.chainIndex == t.chainIndex
  {
    InsertAllIsValid(t, plan.insert, chainId);
    QuarantineAllIsValid(InsertAll(t, plan.insert, chainId), plan.quarantine, StampOf(plan, opts.runId, now));
  }

  // ── the tool ───────────────────────────────────────────────────────────────

  /** Read the evidence back. `ran` is false when the engine threw. */
  method VerifyInserted(db: SqliteDb, account: string, chainId: int, expected: seq<ProposedFlowRow>)
    returns (ran: bool, ok: bool, present: nat)
    requires Valid(db.tables)
    modifies db`fuse
    ensures db.fuse <= old(db.fuse) && (!ran ==> db.fuse == 0 && !ok)
    ensures ok ==> present == |expected|
    ensures ran && db.tables.chainIndex ==> (ok <==> Verified(db.tables, account, chainId, expected))
  {
    present := 0;
    ran := true;
    for i := 0 to |expected|
      invariant present == i && ran && db.fuse <= old(db.fuse)
      invariant db.tables.chainIndex ==> Verified(db.tables, account, chainId, expected[..i])
    {
      var r := expected[i];
      var row: Option<FlowRow>;
      ran, row := db.Select(IdentityOf(r, account, chainId));
      if !ran { return false, false, present; }
      if row.None? || !Matches(row.value, r) {
        assert db.tables.chainIndex ==> !Landed(db.tables, account, chainId, expected[i]);
        return true, false, present;
      }
      present := present + 1;
    }
    assert expected[..|expected|] == expected;
    ok := true;
  }

  /** Step 1. The unique index decides which rows are already there. */
  method InsertEvidence(db: SqliteDb, rows: seq<ProposedFlowRow>, chainId: int)
    returns (ran: bool, inserted: nat)
    requires Valid(db.tables)
    modifies db`fuse, db`tables
    ensures db.fuse <= old(db.fuse) && (!ran ==> db.fuse == 0)
    ensures ran ==> db.tables == InsertAll(old(db.tables), rows, chainId) && Valid(db.tables)
    ensures ran ==> inserted == db.tables.nextId - old(db.tables).nextId
    ensures inserted <= |rows|
  {
    ghost var start := db.tables;
    ran, inserted := true, 0;
    for i := 0 to |rows|
      invariant ran && db.fuse <= old(db.fuse)
      invariant db.tables == InsertAll(start, rows[..i], chainId)
      invariant inserted == db.tables.nextId - start.nextId && inserted <= i
    {
      var changes;
      ran, changes := db.InsertFlow(RowOf(rows[i], chainId));
      if !ran { return; }
      assert rows[..i + 1][..i] == rows[..i];
      inserted := inserted + changes;
    }
    assert rows[..|rows|] == rows;
    InsertAllIsValid(start, rows, chainId);
  }

  /** Step 3. A row a prior run already moved is passed over. */
  method QuarantineRows(db: SqliteDb, ids: seq<nat>, stamp: Stamp) returns (ran: bool, quarantined: nat)
    requires db.saved.Some?
    modifies db`fuse, db`tables
    ensures db.fuse <= old(db.fuse) && (!ran ==> db.fuse == 0)
    ensures ran ==> db.tables == QuarantineAll(old(db.tables), ids, stamp)
    ensures ran ==> quarantined == |db.tables.quarantine| - |old(db.tables).quarantine|
  {
    ghost var start := db.tables;
    ran, quarantined := true, 0;
    for i := 0 to |ids|
      invariant ran && db.fuse <= old(db.fuse)
      invariant db.tables == QuarantineAll(start, ids[..i], stamp)
      invariant quarantined == |db.tables.quarantine| - |start.quarantine|
    {
      var changes;
      ran, changes := db.MoveToQuarantine(ids[i], stamp);
      if !ran { return; }
      assert ids[..i + 1][..i] == ids[..i];
      quarantined := quarantined + changes;
    }
    assert ids[..|ids|] == ids;
  }

  /** Steps 1 to 5, inside the transaction. None is the throw that rolls back. */
  method RepairBody(db: SqliteDb, plan: AccountPlan, opts: RepairOptions, chainId: int, now: int)
    returns (r: Option<AccountRepairResult>)
    requires Valid(db.tables) && db.tables.chainIndex && db.saved.Some?
    modifies db`fuse, db`tables
    ensures db.fuse <= old(db.fuse)
    ensures r.Some? ==> Committed(old(db.tables), plan, chainId, opts.runId, now) == Some(db.tables)
    ensures r.Some? ==>
              && r.value.stage.Recomputed?
              && r.value.inserted == InsertAll(old(db.tables), plan.insert, chainId).nextId - old(db.tables).nextId
              && r.value.quarantined == |db.tables.quarantine| - |old(db.tables).quarantine|
              && r.value.contributionsAfterUsdg == plan.contributionsAfterUsdg
              && r.value.contributionsBeforeUsdg == plan.existingTotalUsdg
              && r.value.insertsAlreadyPresent + r.value.inserted == |plan.insert|
    ensures r.Some? ==>
              (r.value.contributionsKnownAfter <==> plan.contributionsKnownAfter && OnlyEvidenceLeft(db.tables, plan))
    ensures r.None? && db.fuse > 0 ==> Committed(old(db.tables), plan, chainId, opts.runId, now).None?
  {
    InsertAllIsValid(db.tables, plan.insert, chainId);
    InsertingMovesNothing(db.tables, plan.insert, chainId);

    var insertedAll, inserted := InsertEvidence(db, plan.insert, chainId);
    if !insertedAll { return None; }

    // before anything is taken away
    var ran, landed, present := VerifyInserted(db, plan.smartAccount, chainId, plan.insert);
    if !landed { return None; }

    var movedAll, quarantined := QuarantineRows(db, plan.quarantine, StampOf(plan, opts.runId, now));
    if !movedAll { return None; }

    // hold the ledger to the preview
    var recomputed, net, evidenced := db.Recompute(plan.smartAccount, plan.epoch);
    if !recomputed { return None; }
    var known := plan.contributionsKnownAfter && evidenced;
    if net != plan.contributionsAfterUsdg { return None; }

    var judged := db.UpdateQuality(plan.smartAccount, Quality(known, now));
    if !judged { return None; }
    return Some(AccountRepairResult(plan.smartAccount, Recomputed, inserted, present - inserted, quarantined,
                                    plan.existingTotalUsdg, net, known));
  }

  lemma {:induction false} InsertingMovesNothing(t: Tables, rows: seq<ProposedFlowRow>, chainId: int)
    ensures InsertAll(t, rows, chainId).quarantine == t.quarantine
    ensures InsertAll(t, rows, chainId).agents == t.agents
  {
    if rows != [] { InsertingMovesNothing(t, rows[..|rows| - 1], chainId); }
  }

  /** The sequence in one transaction: committed whole, or the tables as they were. */
  method InTransaction(db: SqliteDb, plan: AccountPlan, opts: RepairOptions, chainId: int, now: int)
    returns (r: Option<AccountRepairResult>)
    requires Valid(db.tables) && db.tables.chainIndex && db.saved.None?
    modifies db
    ensures db.saved.None? && db.fuse <= old(db.fuse)
    ensures r.None? ==> db.tables == old(db.tables)
    ensures r.None? && db.fuse > 0 ==> Committed(old(db.tables), plan, chainId, opts.runId, now).None?
    ensures r.Some? ==> Committed(old(db.tables), plan, chainId, opts.runId, now) == Some(db.tables)
    ensures r.Some? ==>
              && r.value.stage.Recomputed?
              && r.value.inserted == InsertAll(old(db.tables), plan.insert, chainId).nextId - old(db.tables).nextId
              && r.value.quarantined == |db.tables.quarantine| - |old(db.tables).quarantine|
              && r.value.contributionsAfterUsdg == plan.contributionsAfterUsdg
              && r.value.contributionsBeforeUsdg == plan.existingTotalUsdg
              && r.value.insertsAlreadyPresent + r.value.inserted == |plan.insert|
              && (r.value.contributionsKnownAfter <==> plan.contributionsKnownAfter && OnlyEvidenceLeft(db.tables, plan))
  {
    var began := db.Begin();
    if !began { return None; }
    r := RepairBody(db, plan, opts, chainId, now);
    if r.Some? {
      var committed := db.Commit();
      if committed { return; }
    }
    db.Rollback();
    r := None;
  }

  /** Repair one account. Nothing is written unless the account is actionable and the
    * mode is commit; then either the whole sequence is committed or nothing changed. An
    * engine that never threw fails exactly when the sequence cannot be committed. */
  method RepairAccount(db: SqliteDb, plan: AccountPlan, opts: RepairOptions, chainId: int, now: int)
    returns (r: AccountRepairResult)
    requires Valid(db.tables) && db.saved.None?
    requires opts.mode.Commit? ==> db.tables.chainIndex
    modifies db
    ensures Valid(db.tables) && db.saved.None? && db.fuse <= old(db.fuse)
    ensures db.tables.chainIndex == old(db.tables.chainIndex)
    ensures r.stage.Failed? || !opts.mode.Commit? || !Actionable(plan, opts) ==> db.tables == old(db.tables)
    ensures opts.mode.Commit? && !r.stage.Failed? ==>
              Applied(old(db.tables), plan, opts, chainId, now) == Some(db.tables)
    ensures opts.mode.Commit? && r.stage.Failed? && db.fuse > 0 ==>
              Applied(old(db.tables), plan, opts, chainId, now).None?
    ensures r.stage.Recomputed? ==>
              opts.mode.Commit? && Actionable(plan, opts) && !AlreadyDone(old(db.tables), plan, opts, chainId)
    ensures r.stage.Recomputed? ==>
              && r.inserted == InsertAll(old(db.tables), plan.insert, chainId).nextId - old(db.tables).nextId
              && r.quarantined == |db.tables.quarantine| - |old(db.tables).quarantine|
    ensures !r.stage.Recomputed? ==> r.inserted == 0 && r.quarantined == 0
    ensures r.stage.Recomputed? ==>
              && r.contributionsAfterUsdg == plan.contributionsAfterUsdg
              && r.contributionsBeforeUsdg == plan.existingTotalUsdg
              && r.insertsAlreadyPresent + r.inserted == |plan.insert|
    ensures r.stage.Recomputed? ==>
              (r.contributionsKnownAfter <==> plan.contributionsKnownAfter && OnlyEvidenceLeft(db.tables, plan))
    ensures r.contributionsKnownAfter && !r.stage.Recomputed? ==> r.stage.WouldMutate? && plan.contributionsKnownAfter
    ensures opts.mode.VerifyOnly? && Actionable(plan, opts) && db.tables.chainIndex && db.fuse > 0 ==>
              (r.stage.VerifiedOnly? <==> Verified(db.tables, plan.smartAccount, chainId, plan.insert))
    ensures opts.mode.DryRun? && Actionable(plan, opts) ==>
              && r.stage.WouldMutate? && r.contributionsAfterUsdg == plan.contributionsAfterUsdg
              && r.contributionsKnownAfter == plan.contributionsKnownAfter
    ensures r.stage == SkippedNotSelected <==> opts.accounts != [] && Lower(plan.smartAccount) !in opts.accounts
    ensures r.stage == SkippedBlocked <==> r.stage != SkippedNotSelected && plan.blocked != NotBlocked
    ensures r.stage == SkippedNothingToDo <==>
              r.stage != SkippedNotSelected && plan.blocked == NotBlocked && |plan.insert| + |plan.quarantine| == 0
  {
    var base := AccountRepairResult(plan.smartAccount, SkippedNothingToDo, 0, 0, 0,
                                    plan.existingTotalUsdg, plan.existingTotalUsdg, false);
    if opts.accounts != [] && Lower(plan.smartAccount) !in opts.accounts {
      return base.(stage := SkippedNotSelected);
    }
    if !plan.blocked.NotBlocked? { return base.(stage := SkippedBlocked); }
    if plan.insert == [] && plan.quarantine == [] { return base; }

    if opts.mode.VerifyOnly? {
      var ran, ok, present := VerifyInserted(db, plan.smartAccount, chainId, plan.insert);
      return base.(stage := if ok then VerifiedOnly else Failed, insertsAlreadyPresent := present);
    }
    if opts.mode.DryRun? {
      return base.(stage := WouldMutate, contributionsAfterUsdg := plan.contributionsAfterUsdg,
                   contributionsKnownAfter := plan.contributionsKnownAfter);
    }
    AppliedIsValid(db.tables, plan, opts, chainId, now);
    if opts.resume {
      var ran, ok, present := VerifyInserted(db, plan.smartAccount, chainId, plan.insert);
      if !ran { return base.(stage := Failed); }
      if ok && plan.quarantine == [] {
        return base.(stage := AlreadyRepaired, insertsAlreadyPresent := present);
      }
    }

    var out := InTransaction(db, plan, opts, chainId, now);
    return if out.Some? then out.value else base.(stage := Failed);
  }

  /** The batch as a function: account after account until one cannot be committed. */
  function Batch(t: Tables, plans: seq<AccountPlan>, opts: RepairOptions, chainId: int, clock: nat -> int)
    : Option<Tables>
  {
    if plans == [] then Some(t) else
      var n := |plans| - 1;
      var before := Batch(t, plans[..n], opts, chainId, clock);
      if before.None? then None else Applied(before.value, plans[n], opts, chainId, clock(n))
  }

  lemma BatchOneMore(t: Tables, plans: seq<AccountPlan>, n: nat, opts: RepairOptions, chainId: int, clock: nat -> int)
    requires n < |plans|
    ensures Batch(t, plans[..n + 1], opts, chainId, clock) ==
            var before := Batch(t, plans[..n], opts, chainId, clock);
            if before.None? then None else Applied(before.value, plans[n], opts, chainId, clock(n))
  {
    assert plans[..n + 1][..n] == plans[..n];
  }

  /** Walk the plans in order, stopping at the first failure; `clock(i)` is the time read
    * for the i-th account. */
  method RunRepair(db: SqliteDb, plans: seq<AccountPlan>, opts: RepairOptions, chainId: int, clock: nat -> int)
    returns (out: seq<AccountRepairResult>, done: nat)
    requires Valid(db.tables) && db.saved.None?
    modifies db
    ensures Valid(db.tables) && db.saved.None? && done <= |plans|
    ensures !opts.mode.Commit? || opts.accounts == [] || !old(db.tables).chainIndex ==> db.tables == old(db.tables)
    ensures opts.mode.Commit? && opts.accounts != [] && old(db.tables).chainIndex ==>
              Batch(old(db.tables), plans[..done], opts, chainId, clock) == Some(db.tables)
    ensures opts.mode.Commit? && opts.accounts != [] && old(db.tables).chainIndex && done < |plans| && db.fuse > 0 ==>
              Batch(old(db.tables), plans[..done + 1], opts, chainId, clock).None?
    ensures |out| >= done && forall i | 0 <= i < done :: !out[i].stage.Failed?
    ensures done < |plans| ==> |out| == done + 1 && out[done].stage.Failed?
  {
    out, done := [], 0;
    var refusal := AccountRepairResult("*", Failed, 0, 0, 0, 0, 0, false);
    if opts.mode.Commit? && opts.accounts == [] { return [refusal], 0; }
    if opts.mode.Commit? && !db.tables.chainIndex { return [refusal], 0; }
    ghost var start := db.tables;
    while done < |plans|
      invariant done <= |plans| && |out| == done
      invariant Valid(db.tables) && db.saved.None? && db.tables.chainIndex == start.chainIndex
      invariant forall i | 0 <= i < done :: !out[i].stage.Failed?
      invariant !opts.mode.Commit? ==> db.tables == start
      invariant opts.mode.Commit? ==> Batch(start, plans[..done], opts, chainId, clock) == Some(db.tables)
    {
      var r := RepairAccount(db, plans[done], opts, chainId, clock(done));
      BatchOneMore(start, plans, done, opts, chainId, clock);
      out := out + [r];
      if r.stage.Failed? { return; }
      done := done + 1;
    }
  }
}
