/** The ledger tables a repair touches, and the transactional driver they sit behind
  * (worker/src/db.ts, `SqliteDb`; the tables of worker/src/store.ts). */
module Ledger {
  import opened Text

  datatype Direction = In | Out

  /** A `flows` row, keyed by its AUTOINCREMENT id. */
  datatype FlowRow = FlowRow(
    agentId: string, direction: Direction, amountUsdg: int, txHash: Option<string>, blockNumber: Option<int>,
    logIndex: Option<int>, source: string, epoch: int, chainId: Option<int>)

  /** Which run moved a row, when, and what it was replaced by. */
  datatype Stamp = Stamp(runId: string, at: int, replacedBy: seq<(string, int)>)

  datatype QuarantineRow = QuarantineRow(originalId: nat, row: FlowRow, stamp: Stamp)

  datatype Quality = Quality(contributionsKnown: bool, qualityAt: int)

  datatype Tables = Tables(
    flows: map<nat, FlowRow>, nextId: nat, quarantine: seq<QuarantineRow>,
    agents: map<string, Quality>, chainIndex: bool)

  datatype LogIdentity = LogIdentity(chainId: int, agentId: string, txHash: string, logIndex: int)

  /** What the partial unique index sees of a row: nothing when any part is NULL. */
  function Identity(r: FlowRow): Option<LogIdentity> {
    if r.chainId.Some? && r.txHash.Some? && r.logIndex.Some?
    then Some(LogIdentity(r.chainId.value, r.agentId, r.txHash.value, r.logIndex.value)) else None
  }

  predicate Holds(flows: map<nat, FlowRow>, identity: LogIdentity) {
    exists id :: id in flows && Identity(flows[id]) == Some(identity)
  }

  predicate Conflicts(t: Tables, r: FlowRow) {
    t.chainIndex && Identity(r).Some? && Holds(t.flows, Identity(r).value)
  }

  function Signed(r: FlowRow): int {
    if r.direction.In? then r.amountUsdg else -r.amountUsdg
  }

  predicate Belongs(r: FlowRow, account: string, epoch: int) {
    r.agentId == account && r.epoch == epoch
  }

  function Weight(flows: map<nat, FlowRow>, account: string, epoch: int, id: nat): int {
    if id in flows && Belongs(flows[id], account, epoch) then Signed(flows[id]) else 0
  }

  /** Sum of the signed flows of one account and epoch among the ids below `n`. */
  function Net(flows: map<nat, FlowRow>, account: string, epoch: int, n: nat): int {
    if n == 0 then 0 else Net(flows, account, epoch, n - 1) + Weight(flows, account, epoch, n - 1)
  }

  predicate IsEvidencedFlow(source: string) {
    source == "chain-log" || source == "epoch-carry"
  }

  predicate AllEvidenced(flows: map<nat, FlowRow>, account: string, epoch: int) {
    forall id | id in flows :: Belongs(flows[id], account, epoch) ==> IsEvidencedFlow(flows[id].source)
  }

  /** Ids are handed out once; the index, when there, holds; and a quarantined row is
    * recorded once and is no longer in `flows`. */
  ghost predicate Valid(t: Tables) {
    && (forall id | id in t.flows :: id < t.nextId)
    && (t.chainIndex ==> forall i, j | i in t.flows && j in t.flows && i != j ::
          Identity(t.flows[i]).Some? ==> Identity(t.flows[i]) != Identity(t.flows[j]))
    && (forall k | 0 <= k < |t.quarantine| ::
          t.quarantine[k].originalId < t.nextId && t.quarantine[k].originalId !in t.flows)
    && (forall j, k | 0 <= j < k < |t.quarantine| :: t.quarantine[j].originalId != t.quarantine[k].originalId)
  }

  // ── what each statement does to the tables ─────────────────────────────────

  function Inserted(t: Tables, r: FlowRow): Tables {
    if Conflicts(t, r) then t else t.(flows := t.flows[t.nextId := r], nextId := t.nextId + 1)
  }

  function Moved(t: Tables, id: nat, stamp: Stamp): Tables {
    if id in t.flows
    then t.(flows := t.flows - {id}, quarantine := t.quarantine + [QuarantineRow(id, t.flows[id], stamp)])
    else t
  }

  function Judged(t: Tables, account: string, q: Quality): Tables {
    if account in t.agents then t.(agents := t.agents[account := q]) else t
  }

  /** One connection. `fuse` is how many more statements the engine will carry out
    * before it starts throwing; an engine that never fails has fuse to spare. */
  class SqliteDb {
    var tables: Tables
    var saved: Option<Tables>
    var fuse: nat

    constructor (t: Tables, fuse: nat)
      ensures tables == t && saved == None && this.fuse == fuse
    {
      tables, saved, this.fuse := t, None, fuse;
    }

    /** Every statement passes through here: false means it threw. */
    method Spend() returns (ok: bool)
      modifies this`fuse
      ensures ok == (old(fuse) > 0)
      ensures fuse == if ok then old(fuse) - 1 else 0
    {
      ok := fuse > 0;
      if ok { fuse := fuse - 1; }
    }

    method Begin() returns (ok: bool)
      modifies this`fuse, this`saved
      ensures fuse <= old(fuse) && (ok <==> old(fuse) > 0) && (!ok ==> fuse == 0 && saved == old(saved))
      ensures ok ==> saved == Some(tables)
    {
      ok := Spend();
      if ok { saved := Some(tables); }
    }

    method Commit() returns (ok: bool)
      modifies this`fuse, this`saved
      ensures fuse <= old(fuse) && (!ok ==> fuse == 0 && saved == old(saved))
      ensures ok ==> saved == None
    {
      ok := Spend();
      if ok { saved := None; }
    }

    /** Undoes everything since Begin. A ROLLBACK that throws finds the transaction
      * already gone, which leaves the tables in the same place. */
    method Rollback()
      requires saved.Some?
      modifies this`tables, this`saved
      ensures tables == old(saved).value && saved == None
    {
      tables := saved.value;
      saved := None;
    }

    method InsertFlow(r: FlowRow) returns (ok: bool, changes: nat)
      modifies this`fuse, this`tables
      ensures fuse <= old(fuse) && (!ok ==> fuse == 0 && tables == old(tables))
      ensures ok ==> tables == Inserted(old(tables), r) && changes == (if Conflicts(old(tables), r) then 0 else 1)
    {
      ok := Spend();
      changes := 0;
      if ok && !Conflicts(tables, r) {
        tables := Inserted(tables, r);
        changes := 1;
      }
    }

    /** SELECT … WHERE chain_id = ? AND agent_id = ? AND tx_hash = ? AND log_index = ?. */
    method Select(identity: LogIdentity) returns (ok: bool, row: Option<FlowRow>)
      modifies this`fuse
      ensures fuse <= old(fuse) && (!ok ==> fuse == 0)
      ensures ok ==> (row.Some? <==> Holds(tables.flows, identity))
      ensures ok && row.Some? ==>
                exists id :: id in tables.flows && tables.flows[id] == row.value && Identity(row.value) == Some(identity)
    {
      ok := Spend();
      row := None;
      if ok && Holds(tables.flows, identity) {
        var id :| id in tables.flows && Identity(tables.flows[id]) == Some(identity);
        row := Some(tables.flows[id]);
      }
    }

    /** INSERT INTO flows_quarantine SELECT … WHERE id = ?, then DELETE when it moved one. */
    method MoveToQuarantine(id: nat, stamp: Stamp) returns (ok: bool, changes: nat)
      requires saved.Some?
      modifies this`fuse, this`tables
      ensures fuse <= old(fuse) && (!ok ==> fuse == 0)
      ensures ok ==> tables == Moved(old(tables), id, stamp) && changes == (if id in old(tables).flows then 1 else 0)
    {
      ok := Spend();
      changes := 0;
      if !ok { return; }
      if id !in tables.flows { return; }
      var row := tables.flows[id];
      tables := tables.(quarantine := tables.quarantine + [QuarantineRow(id, row, stamp)]);
      ok := Spend();
      if !ok { return; }
      tables := tables.(flows := tables.flows - {id});
      changes := 1;
    }

    /** SELECT COUNT, SUM(±amount), SUM(unevidenced) for one account and epoch. */
    method Recompute(account: string, epoch: int) returns (ok: bool, net: int, evidenced: bool)
      modifies this`fuse
      ensures fuse <= old(fuse) && (!ok ==> fuse == 0)
      ensures ok ==> net == Net(tables.flows, account, epoch, tables.nextId)
      ensures ok ==> evidenced == AllEvidenced(tables.flows, account, epoch)
    {
      ok := Spend();
      net := 0;
      evidenced := true;
      if !ok { return; }
      for id := 0 to tables.nextId
        invariant net == Net(tables.flows, account, epoch, id)
      {
        if id in tables.flows && Belongs(tables.flows[id], account, epoch) {
          net := net + Signed(tables.flows[id]);
        }
      }
      evidenced := AllEvidenced(tables.flows, account, epoch);
    }

    method UpdateQuality(account: string, q: Quality) returns (ok: bool)
      modifies this`fuse, this`tables
      ensures fuse <= old(fuse) && (!ok ==> fuse == 0)
      ensures ok ==> tables == Judged(old(tables), account, q)
    {
      ok := Spend();
      if ok && account in tables.agents {
        tables := tables.(agents := tables.agents[account := q]);
      }
    }
  }
}
