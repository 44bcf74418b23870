/** Exactly-once booking over every run of the deposit scanner: passes that refuse, passes
  * whose booking stops part-way, restarts that forget the cursor, and nodes that lag
  * (worker/src/deposit-log.ts, worker/src/index.ts, worker/src/store.ts). */
module DepositRuns {
  import opened Text
  import opened CapitalClassify
  import opened DepositScan
  import Sorting

  /** What the chain holds, block by block, and what each transaction's receipt says. */
  datatype Env = Env(
    chain: nat -> seq<RawLog>, account: string, usdgToken: string,
    legs: string -> seq<TransferLeg>, directory: Known, maxLookback: nat)

  /** The cursor is memory and a restart loses it; the rows are durable. `start` is the block
    * the exact scan last opened at: what came before belongs to the inferred rows. */
  datatype State = State(cursor: Option<nat>, rows: seq<TransferFlow>, start: nat)

  /** One tick of the scanner. `answers` is whether both scans covered the window, `unread`
    * the transactions whose receipt could not be read, `books` how many of the flows found
    * are booked before the booking stops, `finishes` whether the pass then ends cleanly. */
  datatype Step =
    | Restart
    | Tick(head: nat, answers: bool, unread: set<string>, trades: set<string>, books: nat, finishes: bool)

  // ── the node and the books ─────────────────────────────────────────────────

  predicate OnSide(l: RawLog, account: string, inbound: bool) {
    Usable(l) && (if inbound then To(l) else From(l)) == Lower(account)
  }

  function OfBlock(logs: seq<RawLog>, account: string, inbound: bool): (r: seq<RawLog>)
    ensures forall l :: l in r <==> l in logs && OnSide(l, account, inbound)
  {
    if logs == [] then [] else
      OfBlock(logs[..|logs| - 1], account, inbound)
      + if OnSide(logs[|logs| - 1], account, inbound) then [logs[|logs| - 1]] else []
  }

  /** One direction's logs over the blocks [from, head]. */
  function SideLogs(env: Env, from: nat, head: nat, inbound: bool): (r: seq<RawLog>)
    ensures forall l :: l in r ==> InWindow(env, from, head, inbound, l)
    ensures forall b: nat, l | from <= b <= head && l in env.chain(b) && OnSide(l, env.account, inbound) :: l in r
    decreases if from > head then 0 else head - from + 1
  {
    if from > head then [] else OfBlock(env.chain(from), env.account, inbound) + SideLogs(env, from + 1, head, inbound)
  }

  ghost predicate InWindow(env: Env, from: nat, head: nat, inbound: bool, l: RawLog) {
    OnSide(l, env.account, inbound) && exists b: nat :: from <= b <= head && l in env.chain(b)
  }

  function KnownFlowKeys(rows: seq<TransferFlow>, from: nat): set<FlowKey> {
    set f | f in rows && f.blockNumber >= from :: KeyOfFlow(f)
  }

  function LastBlock(rows: seq<TransferFlow>): (mark: Option<nat>)
    ensures mark.None? <==> rows == []
    ensures mark.Some? ==> exists f <- rows :: f.blockNumber == mark.value
    ensures forall f <- rows :: mark.Some? && f.blockNumber <= mark.value
  {
    if rows == [] then None else
      var n := |rows| - 1;
      var before := LastBlock(rows[..n]);
      if before.Some? && before.value >= rows[n].blockNumber then before else Some(rows[n].blockNumber)
  }

  /** Where the next scan starts: the last recorded block itself, unless it lies further back
    * than the scan reaches. */
  function ResumeFrom(lastRecordedBlock: Option<nat>, head: nat, maxLookback: nat): nat {
    if lastRecordedBlock.None? then head
    else
      var floor := if head > maxLookback then head - maxLookback else 0;
      if lastRecordedBlock.value < floor then floor else lastRecordedBlock.value
  }

  /** The cursor a tick scans from; None when the tick only opens a fresh one at the head. */
  function ScanFrom(env: Env, s: State, head: nat): Option<nat> {
    if s.cursor.Some? then s.cursor
    else
      var mark := LastBlock(s.rows);
      if mark.None? || ResumeFrom(mark, head, env.maxLookback) > mark.value then None else mark
  }

  function JobOf(env: Env, s: State, from: nat, t: Step): Job
    requires t.Tick?
  {
    Job(env.account, env.usdgToken, KnownFlowKeys(s.rows, from), t.trades,
        (tx: string) => if tx in t.unread then None else Some(env.legs(tx)), env.directory)
  }

  function Found(env: Env, s: State, from: nat, t: Step): Option<seq<TransferFlow>>
    requires t.Tick?
  {
    PassOf(JobOf(env, s, from, t),
           if t.answers then Some(SideLogs(env, from, t.head, true)) else None,
           if t.answers then Some(SideLogs(env, from, t.head, false)) else None,
           from, t.head)
  }

  /** The flows are booked in order, as far as the booking gets; the cursor moves to the head
    * only when it got through them all. */
  function Settle(s: State, from: nat, flows: seq<TransferFlow>, head: nat, books: nat, finishes: bool): State {
    if books < |flows| then State(Some(from), s.rows + flows[..books], s.start)
    else State(Some(if finishes then head else from), s.rows + flows, s.start)
  }

  function Next(env: Env, s: State, t: Step): State {
    match t
    case Restart => s.(cursor := None)
    case Tick(head, _, _, _, books, finishes) =>
      var from := ScanFrom(env, s, head);
      if from.None? then State(Some(head), s.rows, head)
      else
        var flows := Found(env, s, from.value, t);
        if flows.None? then s.(cursor := from) else Settle(s, from.value, flows.value, head, books, finishes)
  }

  function Run(env: Env, steps: seq<Step>): State {
    if steps == [] then State(None, [], 0) else Next(env, Run(env, steps[..|steps| - 1]), steps[|steps| - 1])
  }

  // ── what is owed ───────────────────────────────────────────────────────────

  function BlockOf(l: RawLog): nat {
    if l.blockNumber.Some? then l.blockNumber.value else 0
  }

  /** A capital movement the chain holds. */
  predicate Owed(env: Env, l: RawLog) {
    && Usable(l) && l in env.chain(BlockOf(l))
    && Crossing(l, env.account)
    && IsCapitalKind(KindOf(CandidateOf(l, env.account), env.legs(Lower(l.txHash)), env.account, env.usdgToken, env.directory))
  }

  function FlowOf(env: Env, l: RawLog): TransferFlow
    requires Usable(l)
  {
    CandidateOf(l, env.account).flow
  }

  /** Every log names its own block, and a key names one log on the whole chain. */
  ghost predicate ChainIsSound(env: Env) {
    && (forall b: nat, l | l in env.chain(b) && Usable(l) :: l.blockNumber == Some(b))
    && (forall b: nat, c: nat, k, l |
          k in env.chain(b) && l in env.chain(c) && Usable(k) && Usable(l) && KeyOfLog(k) == KeyOfLog(l) :: k == l)
  }

  /** The ledger calls no transaction a trade that carries an owed movement. */
  ghost predicate TradesAreHonest(env: Env, t: Step) {
    t.Tick? ==> forall l | Owed(env, l) :: Lower(l.txHash) !in t.trades
  }

  ghost predicate Genuine(env: Env, f: TransferFlow) {
    exists l :: Owed(env, l) && f == FlowOf(env, l)
  }

  ghost predicate CoveredBelow(env: Env, rows: seq<TransferFlow>, start: nat, upTo: nat) {
    forall l | Owed(env, l) && start <= BlockOf(l) < upTo :: FlowOf(env, l) in rows
  }

  /** Nothing is booked twice, nothing that is not owed is booked, and below every booked
    * row, and below the cursor, everything owed since the scan opened is booked. */
  ghost predicate Inv(env: Env, s: State) {
    && DistinctKeys(s.rows)
    && (forall f <- s.rows :: Genuine(env, f))
    && (forall f <- s.rows | f.blockNumber >= s.start :: CoveredBelow(env, s.rows, s.start, f.blockNumber))
    && (s.cursor.Some? ==> CoveredBelow(env, s.rows, s.start, s.cursor.value))
  }

  // ── one pass ───────────────────────────────────────────────────────────────

  function RawOf(env: Env, from: nat, head: nat): seq<RawLog> {
    SideLogs(env, from, head, true) + SideLogs(env, from, head, false)
  }

  lemma RawIsTheWindow(env: Env, from: nat, head: nat)
    requires ChainIsSound(env)
    ensures KeysNameLogs(RawOf(env, from, head))
    ensures forall l | l in RawOf(env, from, head) :: Usable(l) && l in env.chain(BlockOf(l)) && from <= BlockOf(l) <= head
    ensures forall l | Owed(env, l) && from <= BlockOf(l) <= head :: l in RawOf(env, from, head)
  {
    forall l | l in RawOf(env, from, head)
      ensures Usable(l) && l in env.chain(BlockOf(l)) && from <= BlockOf(l) <= head
    {
      assert InWindow(env, from, head, l in SideLogs(env, from, head, true), l);
    }
    forall l | Owed(env, l) && from <= BlockOf(l) <= head
      ensures l in RawOf(env, from, head)
    {
      assert OnSide(l, env.account, true) || OnSide(l, env.account, false);
    }
  }

  /** What a pass is after: owed, in the window, in no row of it, and not called a trade. */
  ghost predicate Wanted(env: Env, s: State, from: nat, t: Step, l: RawLog)
    requires t.Tick?
  {
    && Owed(env, l) && from <= BlockOf(l) <= t.head
    && KeyOfLog(l) !in KnownFlowKeys(s.rows, from)
    && Lower(l.txHash) !in t.trades
  }

  lemma TakenIsWanted(env: Env, s: State, from: nat, t: Step, raw: seq<RawLog>, l: RawLog)
    requires t.Tick? && Takes(l, raw, JobOf(env, s, from, t))
    requires l in env.chain(BlockOf(l)) && from <= BlockOf(l) <= t.head
    ensures Wanted(env, s, from, t, l) && CandidateOf(l, env.account).flow == FlowOf(env, l)
  {
  }

  lemma FoundIsTheWanted(env: Env, s: State, from: nat, t: Step)
    requires ChainIsSound(env) && t.Tick? && from <= t.head && Found(env, s, from, t).Some?
    ensures var out := Found(env, s, from, t).value;
            && Sorting.Sorted(out, Before) && DistinctKeys(out)
            && (forall f <- out :: exists l :: Wanted(env, s, from, t, l) && f == FlowOf(env, l))
            && (forall l | Wanted(env, s, from, t, l) :: FlowOf(env, l) in out)
  {
    var job := JobOf(env, s, from, t);
    var raw := RawOf(env, from, t.head);
    var out := Found(env, s, from, t).value;
    RawIsTheWindow(env, from, t.head);
    PassFindsTheCapital(raw, job);
    forall f <- out
      ensures exists l :: Wanted(env, s, from, t, l) && f == FlowOf(env, l)
    {
      var l :| l in raw && Takes(l, raw, job) && f == CandidateOf(l, job.account).flow;
      TakenIsWanted(env, s, from, t, raw, l);
    }
    forall l | Wanted(env, s, from, t, l)
      ensures FlowOf(env, l) in out
    {
      assert l in raw && Sought(l, raw, job);
      assert Takes(l, raw, job);
    }
  }

  /** A known key of the window belongs to the very row of that movement. */
  lemma KnownMeansBooked(env: Env, rows: seq<TransferFlow>, from: nat, l: RawLog)
    requires ChainIsSound(env) && Owed(env, l) && from <= BlockOf(l)
    requires forall f <- rows :: Genuine(env, f)
    ensures KeyOfLog(l) in KnownFlowKeys(rows, from) <==> FlowOf(env, l) in rows
    ensures forall f <- rows :: KeyOfFlow(f) == KeyOfLog(l) ==> f == FlowOf(env, l)
  {
    forall f <- rows | KeyOfFlow(f) == KeyOfLog(l)
      ensures f == FlowOf(env, l)
    {
      var m :| Owed(env, m) && f == FlowOf(env, m);
      assert KeyOfLog(m) == KeyOfLog(l);
    }
    assert KeyOfFlow(FlowOf(env, l)) == KeyOfLog(l) && FlowOf(env, l).blockNumber == BlockOf(l);
  }

  /** What a pass adds to the rows it started from. */
  ghost predicate Completes(env: Env, rows: seq<TransferFlow>, from: nat, head: nat, out: seq<TransferFlow>) {
    && Sorting.Sorted(out, Before) && DistinctKeys(out)
    && (forall f <- out :: Genuine(env, f))
    && (forall f, g | f in out && g in rows :: KeyOfFlow(f) != KeyOfFlow(g))
    && (forall l | Owed(env, l) && from <= BlockOf(l) <= head :: FlowOf(env, l) in rows || FlowOf(env, l) in out)
  }

  /** What a pass found is owed, was not booked in any row, and with those rows accounts for
    * everything owed in the window. */
  lemma PassIsExact(env: Env, s: State, from: nat, t: Step)
    requires ChainIsSound(env) && t.Tick? && from <= t.head && TradesAreHonest(env, t)
    requires forall f <- s.rows :: Genuine(env, f)
    requires Found(env, s, from, t).Some?
    ensures Completes(env, s.rows, from, t.head, Found(env, s, from, t).value)
  {
    FoundIsTheWanted(env, s, from, t);
    var out := Found(env, s, from, t).value;
    forall f, g | f in out && g in s.rows
      ensures KeyOfFlow(f) != KeyOfFlow(g)
    {
      var l :| Wanted(env, s, from, t, l) && f == FlowOf(env, l);
      KnownMeansBooked(env, s.rows, from, l);
    }
    forall l | Owed(env, l) && from <= BlockOf(l) <= t.head
      ensures FlowOf(env, l) in s.rows || FlowOf(env, l) in out
    {
      KnownMeansBooked(env, s.rows, from, l);
      if KeyOfLog(l) !in KnownFlowKeys(s.rows, from) {
        assert Wanted(env, s, from, t, l);
      }
    }
  }

  // ── booking a prefix ───────────────────────────────────────────────────────

  lemma PrefixKeysAreDistinct(rows: seq<TransferFlow>, out: seq<TransferFlow>, k: nat)
    requires k <= |out| && DistinctKeys(rows) && DistinctKeys(out)
    requires forall f, g | f in out && g in rows :: KeyOfFlow(f) != KeyOfFlow(g)
    ensures DistinctKeys(rows + out[..k])
  {
    var all := rows + out[..k];
    forall i, j | 0 <= i < j < |all|
      ensures KeyOfFlow(all[i]) != KeyOfFlow(all[j])
    {
      if i < |rows| <= j {
        assert all[i] in rows && all[j] == out[j - |rows|] && out[j - |rows|] in out;
      }
    }
  }

  /** A chronological prefix leaves nothing behind below its own rows. */
  lemma PrefixLeavesNothingBelow(
    env: Env, rows: seq<TransferFlow>, start: nat, from: nat, head: nat, out: seq<TransferFlow>, k: nat, j: nat)
    requires Completes(env, rows, from, head, out) && j < k <= |out| && out[j].blockNumber <= head + 1
    requires CoveredBelow(env, rows, start, from)
    ensures CoveredBelow(env, rows + out[..k], start, out[j].blockNumber)
  {
    forall l | Owed(env, l) && start <= BlockOf(l) < out[j].blockNumber
      ensures FlowOf(env, l) in rows + out[..k]
    {
      var f := FlowOf(env, l);
      if f !in rows {
        assert f in out;
        var i :| 0 <= i < |out| && out[i] == f;
        assert j < i ==> Before(out[j], out[i]);
        assert out[..k][i] == f;
      }
    }
  }

  lemma GenuineIsInWindow(env: Env, s: State, from: nat, t: Step)
    requires ChainIsSound(env) && t.Tick? && from <= t.head && Found(env, s, from, t).Some?
    ensures forall f <- Found(env, s, from, t).value :: f.blockNumber <= t.head
  {
    FoundIsTheWanted(env, s, from, t);
  }

  /** Booking a prefix keeps everything the rows promise; booking it all settles the window. */
  lemma BookingKeepsTheRows(
    env: Env, s: State, from: nat, head: nat, out: seq<TransferFlow>, k: nat)
    requires Inv(env, s) && CoveredBelow(env, s.rows, s.start, from)
    requires Completes(env, s.rows, from, head, out) && k <= |out|
    requires forall f <- out :: f.blockNumber <= head
    ensures Inv(env, State(Some(from), s.rows + out[..k], s.start))
    ensures k == |out| ==> CoveredBelow(env, s.rows + out[..k], s.start, head + 1)
  {
    var rows := s.rows + out[..k];
    PrefixKeysAreDistinct(s.rows, out, k);
    forall f <- rows
      ensures Genuine(env, f)
    {
      assert f in s.rows || f in out;
    }
    forall f <- rows | f.blockNumber >= s.start
      ensures CoveredBelow(env, rows, s.start, f.blockNumber)
    {
      if f in s.rows {
        assert CoveredBelow(env, s.rows, s.start, f.blockNumber);
      } else {
        assert f in out[..k];
        var j :| 0 <= j < k && out[j] == f;
        assert out[j] in out;
        PrefixLeavesNothingBelow(env, s.rows, s.start, from, head, out, k, j);
      }
    }
    if k == |out| {
      assert out[..k] == out;
    }
  }

  // ── every run ──────────────────────────────────────────────────────────────

  /** Wherever a tick scans from, everything owed below is booked already. */
  lemma CoveredBelowTheScan(env: Env, s: State, head: nat)
    requires Inv(env, s) && ScanFrom(env, s, head).Some?
    ensures CoveredBelow(env, s.rows, s.start, ScanFrom(env, s, head).value)
  {
    var from := ScanFrom(env, s, head).value;
    if s.cursor.None? {
      var f :| f in s.rows && f.blockNumber == from;
      if f.blockNumber >= s.start {
        assert CoveredBelow(env, s.rows, s.start, f.blockNumber);
      }
    }
  }

  /** A pass that answered, with its first `k` flows booked. */
  lemma PassKeepsInv(env: Env, s: State, from: nat, t: Step, k: nat)
    requires ChainIsSound(env) && Inv(env, s) && t.Tick? && TradesAreHonest(env, t)
    requires CoveredBelow(env, s.rows, s.start, from)
    requires Found(env, s, from, t).Some? && k <= |Found(env, s, from, t).value|
    ensures var out := Found(env, s, from, t).value;
            && Inv(env, State(Some(from), s.rows + out[..k], s.start))
            && (k == |out| && from <= t.head ==> CoveredBelow(env, s.rows + out[..k], s.start, t.head + 1))
  {
    var out := Found(env, s, from, t).value;
    if t.head < from {
      assert s.rows + out[..k] == s.rows;
    } else {
      PassIsExact(env, s, from, t);
      GenuineIsInWindow(env, s, from, t);
      BookingKeepsTheRows(env, s, from, t.head, out, k);
    }
  }

  lemma SettlingKeepsInv(env: Env, s: State, from: nat, t: Step)
    requires ChainIsSound(env) && Inv(env, s) && t.Tick? && TradesAreHonest(env, t)
    requires CoveredBelow(env, s.rows, s.start, from) && Found(env, s, from, t).Some?
    ensures Inv(env, Settle(s, from, Found(env, s, from, t).value, t.head, t.books, t.finishes))
  {
    var out := Found(env, s, from, t).value;
    var k := if t.books < |out| then t.books else |out|;
    PassKeepsInv(env, s, from, t, k);
    assert out[..|out|] == out;
    LaterCursor(env, s, from, t.head, s.rows + out);
  }

  /** A node whose head lags behind the cursor only takes the cursor back. */
  lemma LaterCursor(env: Env, s: State, from: nat, head: nat, rows: seq<TransferFlow>)
    ensures CoveredBelow(env, rows, s.start, from) && head < from ==> CoveredBelow(env, rows, s.start, head)
    ensures CoveredBelow(env, rows, s.start, head + 1) ==> CoveredBelow(env, rows, s.start, head)
  {
  }

  /** A fresh opening lies above every row. */
  lemma OpeningKeepsInv(env: Env, s: State, head: nat)
    requires Inv(env, s) && ScanFrom(env, s, head).None?
    ensures Inv(env, State(Some(head), s.rows, head))
  {
    forall f <- s.rows
      ensures f.blockNumber < head
    {
      assert f.blockNumber <= LastBlock(s.rows).value;
    }
  }

  lemma StepKeepsInv(env: Env, s: State, t: Step)
    requires ChainIsSound(env) && Inv(env, s) && TradesAreHonest(env, t)
    ensures Inv(env, Next(env, s, t))
  {
    match t
    case Restart =>
    case Tick(head, _, _, _, _, _) =>
      if ScanFrom(env, s, head).None? {
        OpeningKeepsInv(env, s, head);
      } else {
        var from := ScanFrom(env, s, head).value;
        CoveredBelowTheScan(env, s, head);
        if Found(env, s, from, t).Some? {
          SettlingKeepsInv(env, s, from, t);
        }
      }
  }

  /** Over every run: no movement is booked twice, nothing is booked that is not capital, and
    * everything owed from where the scan opened up to the cursor is booked. */
  lemma {:induction false} EveryRunBooksExactlyOnce(env: Env, steps: seq<Step>)
    requires ChainIsSound(env)
    requires forall t <- steps :: TradesAreHonest(env, t)
    ensures Inv(env, Run(env, steps))
  {
    if steps != [] {
      var n := |steps| - 1;
      EveryRunBooksExactlyOnce(env, steps[..n]);
      StepKeepsInv(env, Run(env, steps[..n]), steps[n]);
    }
  }

  /** A pass that ran to its end leaves nothing owed up to and including its head, however
    * many crashes, refusals and partial bookings came before it. */
  lemma AFinishedPassLeavesNothing(env: Env, steps: seq<Step>, t: Step)
    requires ChainIsSound(env)
    requires forall u <- steps + [t] :: TradesAreHonest(env, u)
    requires t.Tick? && ScanFrom(env, Run(env, steps), t.head).Some?
    requires var from := ScanFrom(env, Run(env, steps), t.head).value;
             && from <= t.head
             && Found(env, Run(env, steps), from, t).Some?
             && t.books >= |Found(env, Run(env, steps), from, t).value|
    ensures var s := Run(env, steps + [t]);
            CoveredBelow(env, s.rows, s.start, t.head + 1) && DistinctKeys(s.rows)
  {
    var s := Run(env, steps);
    assert (steps + [t])[..|steps|] == steps;
    forall u <- steps
      ensures TradesAreHonest(env, u)
    {
      assert u in steps + [t];
    }
    EveryRunBooksExactlyOnce(env, steps);
    var from := ScanFrom(env, s, t.head).value;
    CoveredBelowTheScan(env, s, t.head);
    assert t in steps + [t];
    var out := Found(env, s, from, t).value;
    PassKeepsInv(env, s, from, t, |out|);
    assert out[..|out|] == out;
  }

  /** Opening stays where it was as long as every restart finds its last row within reach:
    * only a first scan, or a gap wider than the lookback, gives the range before the head to
    * the inferred rows. */
  lemma OpeningMovesOnlyOverAGap(env: Env, s: State, t: Step)
    ensures Next(env, s, t).start != s.start ==>
              && t.Tick? && s.cursor.None?
              && (s.rows == [] || t.head > env.maxLookback + LastBlock(s.rows).value)
              && Next(env, s, t) == State(Some(t.head), s.rows, t.head)
  {
  }

  /** The ledger's own list of trades is the one thing that can hide capital from a pass: an
    * owed movement in the window that no row holds is found exactly when its transaction is
    * not on that list. */
  lemma OnlyTheTradeListHides(env: Env, s: State, from: nat, t: Step, l: RawLog)
    requires ChainIsSound(env) && Inv(env, s) && t.Tick? && from <= t.head
    requires Found(env, s, from, t).Some?
    requires Owed(env, l) && from <= BlockOf(l) <= t.head && FlowOf(env, l) !in s.rows
    ensures FlowOf(env, l) in Found(env, s, from, t).value <==> Lower(l.txHash) !in t.trades
  {
    FoundIsTheWanted(env, s, from, t);
    KnownMeansBooked(env, s.rows, from, l);
    assert Wanted(env, s, from, t, l) <==> Lower(l.txHash) !in t.trades;
    var f := FlowOf(env, l);
    if f in Found(env, s, from, t).value {
      var m :| Wanted(env, s, from, t, m) && f == FlowOf(env, m);
      assert KeyOfLog(m) == KeyOfLog(l);
    }
  }

  /** Where a tick scans from: its cursor while it has one; without one, the block of the last
    * row, included, unless that lies further back than the lookback; and nowhere, opening at
    * the head instead, when it does or there is no row at all. */
  lemma ScanResumesAtTheLastRow(env: Env, s: State, head: nat, last: TransferFlow)
    ensures s.cursor.Some? ==> ScanFrom(env, s, head) == s.cursor
    ensures s.cursor.None? && s.rows == [] ==> ScanFrom(env, s, head) == None
    ensures s.cursor.None? && last in s.rows && (forall f <- s.rows :: f.blockNumber <= last.blockNumber) ==>
              ScanFrom(env, s, head) == if last.blockNumber + env.maxLookback < head then None else Some(last.blockNumber)
  {
  }

  // ── a hidden deposit ───────────────────────────────────────────────────────

  lemma {:induction false} ListedLogsAreNoCandidates(raw: seq<RawLog>, job: Job)
    requires forall l <- raw :: Lower(l.txHash) in job.tradeTxHashes
    ensures CandidatesOf(raw, job) == []
  {
    if raw != [] {
      var n := |raw| - 1;
      assert raw[n] in raw && forall l <- raw[..n] :: l in raw;
      ListedLogsAreNoCandidates(raw[..n], job);
    }
  }

  /** One deposit at block 7 from outside, in a transaction with no other leg. */
  function DepositAt7(account: string, outsider: string, tx: string, amount: nat): RawLog {
    RawLog(tx, Some(7), Some(0), Some(Transfer(outsider, account, amount)))
  }

  function OneDeposit(account: string, outsider: string, tx: string, amount: nat): Env {
    Env((b: nat) => if b == 7 then [DepositAt7(account, outsider, tx, amount)] else [], account, "usdg",
        (t: string) => [], Known([], [], []), 1000)
  }

  lemma TheDepositIsOwed(account: string, outsider: string, tx: string, amount: nat)
    requires Lower(account) != Lower(outsider) && amount > 0
    ensures var env := OneDeposit(account, outsider, tx, amount);
            ChainIsSound(env) && Owed(env, DepositAt7(account, outsider, tx, amount))
  {
    var env, l := OneDeposit(account, outsider, tx, amount), DepositAt7(account, outsider, tx, amount);
    LowerTwice(account);
    LowerTwice(outsider);
    var c := CandidateOf(l, account);
    var leg := TransferLeg(Lower("usdg"), c.from, c.to, amount);
    assert !Paired([leg], account, Lower("usdg"), false);
    assert !Listed([], c.from);
  }

  lemma OnlyTheDepositIsSeen(
    account: string, outsider: string, tx: string, amount: nat, from: nat, head: nat, inbound: bool)
    ensures forall l <- SideLogs(OneDeposit(account, outsider, tx, amount), from, head, inbound) :: l.txHash == tx
  {
    var env := OneDeposit(account, outsider, tx, amount);
    forall l <- SideLogs(env, from, head, inbound)
      ensures l.txHash == tx
    {
      assert InWindow(env, from, head, inbound, l);
    }
  }

  /** A pass that sees nothing but listed transactions finds nothing. */
  lemma ListedPassFindsNothing(env: Env, s: State, from: nat, t: Step)
    requires t.Tick? && t.answers && from <= t.head
    requires forall l <- SideLogs(env, from, t.head, true) :: Lower(l.txHash) in t.trades
    requires forall l <- SideLogs(env, from, t.head, false) :: Lower(l.txHash) in t.trades
    ensures Found(env, s, from, t) == Some([])
  {
    var job := JobOf(env, s, from, t);
    var raw := SideLogs(env, from, t.head, true) + SideLogs(env, from, t.head, false);
    ListedLogsAreNoCandidates(raw, job);
    assert CapitalOf([], job) == [];
  }

  lemma ListedDepositIsNotFound(account: string, outsider: string, tx: string, amount: nat, s: State)
    ensures Found(OneDeposit(account, outsider, tx, amount), s, 6, Tick(8, true, {}, {Lower(tx)}, 0, true)) == Some([])
  {
    OnlyTheDepositIsSeen(account, outsider, tx, amount, 6, 8, true);
    OnlyTheDepositIsSeen(account, outsider, tx, amount, 6, 8, false);
    ListedPassFindsNothing(OneDeposit(account, outsider, tx, amount), s, 6, Tick(8, true, {}, {Lower(tx)}, 0, true));
  }

  /** The scan opens at block 6 and then reads on to block 8 with the deposit's transaction on
    * the trade list: the pass ends cleanly, the cursor is past the deposit, nothing is
    * booked, and the promise of every honest run is broken. */
  lemma TradeListHidesADeposit(account: string, outsider: string, tx: string, amount: nat)
    requires Lower(account) != Lower(outsider) && amount > 0
    ensures var env := OneDeposit(account, outsider, tx, amount);
            var steps := [Tick(6, true, {}, {}, 0, true), Tick(8, true, {}, {Lower(tx)}, 0, true)];
            Run(env, steps) == State(Some(8), [], 6) && !Inv(env, Run(env, steps))
  {
    var env := OneDeposit(account, outsider, tx, amount);
    var first, second := Tick(6, true, {}, {}, 0, true), Tick(8, true, {}, {Lower(tx)}, 0, true);
    TheDepositIsOwed(account, outsider, tx, amount);
    assert [first, second][..1] == [first] && [first][..0] == [];
    var s := Run(env, [first]);
    assert s == Next(env, Run(env, []), first) == State(Some(6), [], 6);
    ListedDepositIsNotFound(account, outsider, tx, amount, s);
    assert BlockOf(DepositAt7(account, outsider, tx, amount)) == 7;
  }
}
