/** What the deposit scanner books, read off the transfers themselves: their direction, their
  * amount, and what they come to over a run (worker/src/deposit-log.ts). */
module DepositBooks {
  import opened Text
  import opened CapitalClassify
  import opened DepositScan
  import opened DepositRuns
  import Sorting

  // ── one flow and its log ───────────────────────────────────────────────────

  /** The flow says of the log where it stands, how much it moved and which way. */
  predicate Mirrors(f: TransferFlow, l: RawLog, account: string) {
    && Usable(l)
    && f.txHash == l.txHash && f.blockNumber == l.blockNumber.value && f.logIndex == l.logIndex.value
    && f.amountUsdg6 == l.transfer.value.value
    && (f.inbound <==> Lower(l.transfer.value.to) == Lower(account))
  }

  /** The owner's money: some of it crosses the account's boundary, nothing of another token
    * comes back in the same receipt, and the other end is nobody the system knows. */
  ghost predicate OwnersMove(
    l: RawLog, legs: seq<TransferLeg>, account: string, usdgToken: string, directory: Known)
  {
    && Usable(l) && l.transfer.value.value > 0
    && var from, to := l.transfer.value.from, l.transfer.value.to;
       || (Lower(to) == Lower(account) && Lower(from) != Lower(account)
           && !OppositeLeg(legs, account, usdgToken, false) && FromOutside(directory, from))
       || (Lower(from) == Lower(account) && Lower(to) != Lower(account)
           && !OppositeLeg(legs, account, usdgToken, true) && FromOutside(directory, to))
  }

  lemma OutsideInAnyCase(known: Known, a: string)
    ensures FromOutside(known, Lower(a)) <==> FromOutside(known, a)
  {
    LowerTwice(a);
  }

  lemma NoLegOfItsOwn(leg: TransferLeg, account: string, usdgToken: string, outbound: bool)
    requires Lower(leg.token) == Lower(usdgToken)
    ensures !OppositeLeg([leg], account, usdgToken, outbound)
  {
  }

  lemma OppositeInAnyCase(legs: seq<TransferLeg>, account: string, usdgToken: string, outbound: bool)
    ensures OppositeLeg(legs, account, Lower(usdgToken), outbound) <==> OppositeLeg(legs, account, usdgToken, outbound)
  {
    LowerTwice(usdgToken);
  }

  /** What the scanner takes for capital is the owner's money, and nothing else is. */
  lemma CapitalIsTheOwners(
    l: RawLog, legs: seq<TransferLeg>, account: string, usdgToken: string, directory: Known)
    requires Usable(l)
    ensures OwnersMove(l, legs, account, usdgToken, directory) <==>
              Crossing(l, account) && IsCapitalKind(KindOf(CandidateOf(l, account), legs, account, usdgToken, directory))
  {
    var from, to := l.transfer.value.from, l.transfer.value.to;
    var leg := TransferLeg(Lower(usdgToken), Lower(from), Lower(to), l.transfer.value.value);
    LowerTwice(from);
    LowerTwice(to);
    LowerTwice(usdgToken);
    CapitalIff(account, leg, if legs != [] then legs else [leg], Lower(usdgToken), directory);
    NoLegOfItsOwn(leg, account, usdgToken, true);
    NoLegOfItsOwn(leg, account, usdgToken, false);
    OppositeInAnyCase(if legs != [] then legs else [leg], account, usdgToken, true);
    OppositeInAnyCase(if legs != [] then legs else [leg], account, usdgToken, false);
    OutsideInAnyCase(directory, from);
    OutsideInAnyCase(directory, to);
  }

  lemma FlowMirrorsItsLog(l: RawLog, account: string)
    requires Usable(l) && Crossing(l, account)
    ensures Mirrors(CandidateOf(l, account).flow, l, account)
  {
  }

  /** A log a pass is after: the owner's money, in no row yet, on no list of trades, its
    * receipt read. */
  ghost predicate IsAfter(l: RawLog, job: Job) {
    && Usable(l) && FlowKey(Lower(l.txHash), l.logIndex.value) !in job.knownKeys
    && Lower(l.txHash) !in job.tradeTxHashes
    && job.receipts(Lower(l.txHash)).Some?
    && OwnersMove(l, job.receipts(Lower(l.txHash)).value, job.account, job.usdgToken, job.directory)
  }

  lemma TakesIffAfter(l: RawLog, raw: seq<RawLog>, job: Job)
    requires l in raw
    ensures Takes(l, raw, job) <==> IsAfter(l, job)
  {
    if Usable(l) && job.receipts(Lower(l.txHash)).Some? {
      CapitalIsTheOwners(l, job.receipts(Lower(l.txHash)).value, job.account, job.usdgToken, job.directory);
    }
  }

  /** Every flow a pass returns mirrors a log it is after, and every such log has its flow:
    * money coming to the account is booked in, money leaving it out, for what it was. */
  lemma FlowsMirrorTheLogs(raw: seq<RawLog>, job: Job)
    requires KeysNameLogs(raw) && FlowsOf(raw, job).Some?
    ensures forall f <- FlowsOf(raw, job).value :: exists l <- raw :: IsAfter(l, job) && Mirrors(f, l, job.account)
    ensures forall l <- raw | IsAfter(l, job) :: exists f <- FlowsOf(raw, job).value :: Mirrors(f, l, job.account)
  {
    PassFindsTheCapital(raw, job);
    forall f <- FlowsOf(raw, job).value
      ensures exists l <- raw :: IsAfter(l, job) && Mirrors(f, l, job.account)
    {
      var l :| l in raw && Takes(l, raw, job) && f == CandidateOf(l, job.account).flow;
      TakesIffAfter(l, raw, job);
      FlowMirrorsItsLog(l, job.account);
    }
    forall l <- raw | IsAfter(l, job)
      ensures exists f <- FlowsOf(raw, job).value :: Mirrors(f, l, job.account)
    {
      TakesIffAfter(l, raw, job);
      FlowMirrorsItsLog(l, job.account);
      assert CandidateOf(l, job.account).flow in FlowsOf(raw, job).value;
    }
  }

  /** A pass returns what it found in the order it happened on the chain. */
  lemma FlowsAreChronological(raw: seq<RawLog>, job: Job, i: nat, j: nat)
    requires KeysNameLogs(raw) && FlowsOf(raw, job).Some? && i < j < |FlowsOf(raw, job).value|
    ensures var f, g := FlowsOf(raw, job).value[i], FlowsOf(raw, job).value[j];
            f.blockNumber < g.blockNumber || (f.blockNumber == g.blockNumber && f.logIndex <= g.logIndex)
  {
    PassFindsTheCapital(raw, job);
  }

  // ── what refuses a pass ────────────────────────────────────────────────────

  /** Something moves over the account's boundary: not to itself, and not between others. */
  predicate CrossesTheBoundary(l: RawLog, account: string) {
    && Usable(l) && l.transfer.value.value > 0
    && ((Lower(l.transfer.value.to) == Lower(account)) != (Lower(l.transfer.value.from) == Lower(account)))
  }

  /** Money to or from a known venue with nothing of another token coming back: a trade or a
    * deposit, nobody can tell. */
  ghost predicate VenueAlone(
    l: RawLog, legs: seq<TransferLeg>, account: string, usdgToken: string, directory: Known)
    requires Usable(l)
  {
    var out := Lower(l.transfer.value.from) == Lower(account);
    var other := if out then l.transfer.value.to else l.transfer.value.from;
    && !OppositeLeg(legs, account, usdgToken, out)
    && NamedIn(directory.protocols, other) && !NamedIn(directory.accounts, other) && !NamedIn(directory.systems, other)
  }

  /** A movement in no row and on no list of trades that stops the pass: its receipt cannot be
    * read, or does not tell what it was. */
  ghost predicate Stops(l: RawLog, job: Job) {
    && CrossesTheBoundary(l, job.account)
    && FlowKey(Lower(l.txHash), l.logIndex.value) !in job.knownKeys && Lower(l.txHash) !in job.tradeTxHashes
    && (job.receipts(Lower(l.txHash)).None? || VenueAlone(l, job.receipts(Lower(l.txHash)).value, job.account, job.usdgToken, job.directory))
  }

  lemma NamedInAnyCase(list: seq<string>, a: string)
    ensures NamedIn(list, Lower(a)) <==> NamedIn(list, a)
  {
    LowerTwice(a);
  }

  lemma AmbiguousIsTheVenueAlone(l: RawLog, legs: seq<TransferLeg>, job: Job)
    requires Usable(l) && Crossing(l, job.account)
    ensures KindOf(CandidateOf(l, job.account), legs, job.account, job.usdgToken, job.directory).Ambiguous? <==>
              VenueAlone(l, legs, job.account, job.usdgToken, job.directory)
  {
    var from, to := l.transfer.value.from, l.transfer.value.to;
    var leg := TransferLeg(Lower(job.usdgToken), Lower(from), Lower(to), l.transfer.value.value);
    var out := Lower(from) == Lower(job.account);
    var other := if out then to else from;
    LowerTwice(from);
    LowerTwice(to);
    LowerTwice(job.usdgToken);
    var all := if legs != [] then legs else [leg];
    NotCapitalBecause(job.account, leg, all, Lower(job.usdgToken), job.directory);
    NoLegOfItsOwn(leg, job.account, job.usdgToken, out);
    OppositeInAnyCase(all, job.account, job.usdgToken, out);
    NamedInAnyCase(job.directory.accounts, other);
    NamedInAnyCase(job.directory.systems, other);
    NamedInAnyCase(job.directory.protocols, other);
  }

  lemma UndecidedStops(l: RawLog, raw: seq<RawLog>, job: Job)
    requires l in raw
    ensures Undecided(l, raw, job) <==> Stops(l, job)
  {
    if Usable(l) && Crossing(l, job.account) && job.receipts(Lower(l.txHash)).Some? {
      AmbiguousIsTheVenueAlone(l, job.receipts(Lower(l.txHash)).value, job);
    }
  }

  /** A read window is refused if and only if some movement in it stops the pass; an inverted
    * window has nothing to refuse, and one read in part is always refused. */
  lemma PassIsRefusedIff(
    job: Job, inbound: Option<seq<RawLog>>, outbound: Option<seq<RawLog>>, fromBlock: nat, toBlock: nat)
    requires inbound.Some? && outbound.Some? ==> KeysNameLogs(inbound.value + outbound.value)
    ensures PassOf(job, inbound, outbound, fromBlock, toBlock).None? <==>
              fromBlock <= toBlock &&
              (inbound.None? || outbound.None? || exists l <- inbound.value + outbound.value :: Stops(l, job))
    ensures fromBlock > toBlock ==> PassOf(job, inbound, outbound, fromBlock, toBlock) == Some([])
  {
    if inbound.Some? && outbound.Some? {
      var raw := inbound.value + outbound.value;
      PassRefusesIff(raw, job);
      forall l <- raw
        ensures Undecided(l, raw, job) <==> Stops(l, job)
      {
        UndecidedStops(l, raw, job);
      }
    }
  }

  // ── what is owed, and what it comes to ─────────────────────────────────────

  /** What is owed is the owner's money, where the chain holds it. */
  lemma OwedIff(env: Env, l: RawLog)
    ensures Owed(env, l) <==>
              && OwnersMove(l, env.legs(Lower(l.txHash)), env.account, env.usdgToken, env.directory)
              && l in env.chain(BlockOf(l))
  {
    if Usable(l) { CapitalIsTheOwners(l, env.legs(Lower(l.txHash)), env.account, env.usdgToken, env.directory); }
  }

  /** The owed logs of a block, each once. */
  function OwedOf(env: Env, logs: seq<RawLog>): (r: seq<RawLog>)
    ensures forall l :: l in r <==> l in logs && Owed(env, l)
    ensures Sorting.Distinct(r)
  {
    if logs == [] then [] else
      var before := OwedOf(env, logs[..|logs| - 1]);
      var l := logs[|logs| - 1];
      if Owed(env, l) && l !in before then before + [l] else before
  }

  /** The logs of the blocks from `from` on and below `upTo`. */
  function Gathered(of: nat -> seq<RawLog>, from: nat, upTo: nat): seq<RawLog> {
    if upTo <= from then [] else Gathered(of, from, upTo - 1) + of(upTo - 1)
  }

  lemma {:induction false} GatheredMembers(of: nat -> seq<RawLog>, from: nat, upTo: nat, l: RawLog)
    ensures l in Gathered(of, from, upTo) <==> exists b: nat | from <= b < upTo :: l in of(b)
  {
    if from < upTo { GatheredMembers(of, from, upTo - 1, l); }
  }

  /** No log stands in two blocks, or twice in one. */
  ghost predicate InOneBlock(of: nat -> seq<RawLog>) {
    && (forall b: nat :: Sorting.Distinct(of(b)))
    && (forall b: nat, c: nat, l | l in of(b) && l in of(c) :: b == c)
  }

  lemma {:induction false} GatheredIsDistinct(of: nat -> seq<RawLog>, from: nat, upTo: nat)
    requires InOneBlock(of)
    ensures Sorting.Distinct(Gathered(of, from, upTo))
  {
    if from < upTo {
      var before, last := Gathered(of, from, upTo - 1), of(upTo - 1);
      GatheredIsDistinct(of, from, upTo - 1);
      forall l <- before
        ensures l !in last
      {
        GatheredMembers(of, from, upTo - 1, l);
      }
      DistinctTogether(before, last);
    }
  }

  function OwedByBlock(env: Env): nat -> seq<RawLog> {
    (b: nat) => OwedOf(env, env.chain(b))
  }

  /** The owed logs of those blocks, each once. */
  function OwedBelow(env: Env, from: nat, upTo: nat): seq<RawLog> {
    Gathered(OwedByBlock(env), from, upTo)
  }

  lemma OwedInItsBlock(env: Env, b: nat, l: RawLog)
    requires ChainIsSound(env)
    ensures l in OwedByBlock(env)(b) <==> Owed(env, l) && BlockOf(l) == b
  {
  }

  lemma OwedBelowLists(env: Env, from: nat, upTo: nat, l: RawLog)
    requires ChainIsSound(env)
    ensures l in OwedBelow(env, from, upTo) <==> Owed(env, l) && from <= BlockOf(l) < upTo
  {
    GatheredMembers(OwedByBlock(env), from, upTo, l);
    OwedInItsBlock(env, BlockOf(l), l);
    if b: nat :| from <= b < upTo && l in OwedByBlock(env)(b) { OwedInItsBlock(env, b, l); }
  }

  lemma OwedBelowIsDistinct(env: Env, from: nat, upTo: nat)
    requires ChainIsSound(env)
    ensures Sorting.Distinct(OwedBelow(env, from, upTo))
  {
    var of := OwedByBlock(env);
    forall b: nat, c: nat, l | l in of(b) && l in of(c)
      ensures b == c
    {
      OwedInItsBlock(env, b, l);
      OwedInItsBlock(env, c, l);
    }
    forall b: nat
      ensures Sorting.Distinct(of(b))
    {
      assert of(b) == OwedOf(env, env.chain(b));
    }
    assert InOneBlock(of);
    GatheredIsDistinct(of, from, upTo);
  }

  lemma DistinctTogether(a: seq<RawLog>, b: seq<RawLog>)
    requires Sorting.Distinct(a) && Sorting.Distinct(b) && forall l <- a :: l !in b
    ensures Sorting.Distinct(a + b)
  {
    forall i, j | 0 <= i < j < |a + b|
      ensures (a + b)[i] != (a + b)[j]
    {
      if i < |a| <= j { assert a[i] in a && b[j - |a|] in b; }
    }
  }

  /** What a transfer came to for the account. */
  function MovedBy(l: RawLog, account: string): int {
    if l.transfer.None? then 0 else
      var value: int := l.transfer.value.value;
      if Lower(l.transfer.value.to) == Lower(account) then value else -value
  }

  /** What the transfers came to: in less out. */
  function NetMoved(logs: seq<RawLog>, account: string): int {
    if logs == [] then 0 else NetMoved(logs[..|logs| - 1], account) + MovedBy(logs[|logs| - 1], account)
  }

  function SignedRow(f: TransferFlow): int {
    var amount: int := f.amountUsdg6;
    if f.inbound then amount else -amount
  }

  function NetBooked(rows: seq<TransferFlow>): int {
    if rows == [] then 0 else NetBooked(rows[..|rows| - 1]) + SignedRow(rows[|rows| - 1])
  }

  /** The rows of some blocks. */
  function Within(rows: seq<TransferFlow>, from: nat, upTo: nat): (r: seq<TransferFlow>)
    ensures forall f :: f in r <==> f in rows && from <= f.blockNumber < upTo
  {
    if rows == [] then [] else
      var f := rows[|rows| - 1];
      Within(rows[..|rows| - 1], from, upTo) + if from <= f.blockNumber < upTo then [f] else []
  }

  lemma {:induction false} WithinKeepsKeysDistinct(rows: seq<TransferFlow>, from: nat, upTo: nat)
    requires DistinctKeys(rows)
    ensures DistinctKeys(Within(rows, from, upTo))
  {
    if rows != [] {
      var front, f := rows[..|rows| - 1], rows[|rows| - 1];
      assert rows == front + [f];
      DistinctOneMore(front, f);
      WithinKeepsKeysDistinct(front, from, upTo);
      DistinctOneMore(Within(front, from, upTo), f);
      assert Within(front, from, upTo) + [] == Within(front, from, upTo);
    }
  }

  lemma {:induction false} NetBookedConcat(a: seq<TransferFlow>, b: seq<TransferFlow>)
    ensures NetBooked(a + b) == NetBooked(a) + NetBooked(b)
  {
    if b == [] {
      assert a + b == a;
    } else {
      var front, f := b[..|b| - 1], b[|b| - 1];
      NetBookedConcat(a, front);
      assert (a + b)[..|a + b| - 1] == a + front;
    }
  }

  /** Taking one row out takes its amount out. */
  lemma NetOfThree(a: seq<TransferFlow>, f: TransferFlow, b: seq<TransferFlow>)
    ensures NetBooked((a + [f]) + b) == NetBooked(a + b) + SignedRow(f)
  {
    assert (a + [f])[..|a|] == a;
    NetBookedConcat(a, b);
    NetBookedConcat(a + [f], b);
  }

  lemma WithoutOne(a: seq<TransferFlow>, f: TransferFlow, b: seq<TransferFlow>)
    requires DistinctKeys((a + [f]) + b)
    ensures DistinctKeys(a + b) && f !in a + b
    ensures forall g :: g in a + b <==> g in (a + [f]) + b && g != f
  {
    var rows, rest := (a + [f]) + b, a + b;
    assert rows[|a|] == f;
    assert forall j | 0 <= j < |rest| :: rest[j] == rows[if j < |a| then j else j + 1];
    forall j, k | 0 <= j < k < |rest|
      ensures KeyOfFlow(rest[j]) != KeyOfFlow(rest[k])
    {
      assert KeyOfFlow(rows[if j < |a| then j else j + 1]) != KeyOfFlow(rows[if k < |a| then k else k + 1]);
    }
    assert forall j | 0 <= j < |rows| :: j != |a| ==> KeyOfFlow(rows[j]) != KeyOfFlow(f);
  }

  /** The rows are exactly the flows of these logs, one for each. */
  ghost predicate OneEach(flow: RawLog -> TransferFlow, rows: seq<TransferFlow>, logs: seq<RawLog>) {
    && (forall l <- logs :: flow(l) in rows)
    && (forall f <- rows :: exists l <- logs :: f == flow(l))
    && (forall l, m | l in logs && m in logs && flow(l) == flow(m) :: l == m)
  }

  lemma OneLogLess(
    flow: RawLog -> TransferFlow, rows: seq<TransferFlow>, rest: seq<TransferFlow>, front: seq<RawLog>, l: RawLog)
    requires OneEach(flow, rows, front + [l]) && l !in front
    requires forall f :: f in rest <==> f in rows && f != flow(l)
    ensures OneEach(flow, rest, front)
  {
    assert l in front + [l] && forall m <- front :: m in front + [l];
    forall f <- rest
      ensures exists m <- front :: f == flow(m)
    {
      var m :| m in front + [l] && f == flow(m);
      assert m in front;
    }
  }

  lemma NoRows(rows: seq<TransferFlow>)
    requires forall f :: f !in rows
    ensures NetBooked(rows) == 0
  {
    if rows != [] {
      HasRow(rows);
      assert false;
    }
  }

  lemma HasRow(rows: seq<TransferFlow>)
    requires rows != []
    ensures exists f :: f in rows
  {
    assert rows[0] in rows;
  }

  lemma {:induction false} NetsAgree(
    flow: RawLog -> TransferFlow, rows: seq<TransferFlow>, logs: seq<RawLog>, account: string)
    requires DistinctKeys(rows) && Sorting.Distinct(logs) && OneEach(flow, rows, logs)
    requires forall l <- logs :: SignedRow(flow(l)) == MovedBy(l, account)
    ensures NetBooked(rows) == NetMoved(logs, account)
    decreases |logs|
  {
    if logs == [] {
      NoRows(rows);
    } else {
      var front, l := logs[..|logs| - 1], logs[|logs| - 1];
      assert logs == front + [l];
      assert l in logs && l !in front && forall m <- front :: m in logs;
      var i :| 0 <= i < |rows| && rows[i] == flow(l);
      var a, b := rows[..i], rows[i + 1..];
      assert rows == (a + [flow(l)]) + b;
      NetOfThree(a, flow(l), b);
      WithoutOne(a, flow(l), b);
      OneLogLess(flow, rows, a + b, front, l);
      NetsAgree(flow, a + b, front, account);
    }
  }

  function FlowIn(env: Env): RawLog -> TransferFlow {
    (l: RawLog) => if Usable(l) then FlowOf(env, l) else TransferFlow(false, 0, "", 0, 0)
  }

  lemma OwedFlowsDiffer(env: Env, m: RawLog, l: RawLog)
    requires ChainIsSound(env) && Owed(env, m) && Owed(env, l) && FlowIn(env)(m) == FlowIn(env)(l)
    ensures m == l
  {
    assert KeyOfLog(m) == KeyOfLog(l);
  }

  /** Over every run: what is booked for the blocks the exact scan has covered comes to what
    * the chain moved of the owner's money over the account's boundary in them, in less out. */
  lemma BookedNetIsTheChains(env: Env, steps: seq<Step>)
    requires ChainIsSound(env)
    requires forall t <- steps :: TradesAreHonest(env, t)
    ensures var s := Run(env, steps);
            s.cursor.Some? ==>
              NetBooked(Within(s.rows, s.start, s.cursor.value)) ==
              NetMoved(OwedBelow(env, s.start, s.cursor.value), env.account)
  {
    EveryRunBooksExactlyOnce(env, steps);
    var s := Run(env, steps);
    if s.cursor.Some? {
      var logs := OwedBelow(env, s.start, s.cursor.value);
      forall l
        ensures l in logs <==> Owed(env, l) && s.start <= BlockOf(l) < s.cursor.value
      {
        OwedBelowLists(env, s.start, s.cursor.value, l);
      }
      OwedBelowIsDistinct(env, s.start, s.cursor.value);
      WithinKeepsKeysDistinct(s.rows, s.start, s.cursor.value);
      CoveredRowsAreTheFlows(env, s, logs);
      forall l <- logs
        ensures SignedRow(FlowIn(env)(l)) == MovedBy(l, env.account)
      {
        FlowMirrorsItsLog(l, env.account);
      }
      NetsAgree(FlowIn(env), Within(s.rows, s.start, s.cursor.value), logs, env.account);
    }
  }

  lemma CoveredRowsAreTheFlows(env: Env, s: State, logs: seq<RawLog>)
    requires ChainIsSound(env) && Inv(env, s) && s.cursor.Some?
    requires forall l :: l in logs <==> Owed(env, l) && s.start <= BlockOf(l) < s.cursor.value
    ensures OneEach(FlowIn(env), Within(s.rows, s.start, s.cursor.value), logs)
  {
    var rows := Within(s.rows, s.start, s.cursor.value);
    forall l <- logs
      ensures FlowIn(env)(l) in rows
    {
      assert FlowOf(env, l).blockNumber == BlockOf(l);
    }
    forall f <- rows
      ensures exists l <- logs :: f == FlowIn(env)(l)
    {
      assert Genuine(env, f);
      var l :| Owed(env, l) && f == FlowOf(env, l);
      assert BlockOf(l) == f.blockNumber;
      assert l in logs && f == FlowIn(env)(l);
    }
    forall l, m | l in logs && m in logs && FlowIn(env)(l) == FlowIn(env)(m)
      ensures l == m
    {
      OwedFlowsDiffer(env, l, m);
    }
  }

  /** A movement nobody can tell what it was. */
  ghost predicate Doubtful(env: Env, l: RawLog) {
    && CrossesTheBoundary(l, env.account)
    && VenueAlone(l, env.legs(Lower(l.txHash)), env.account, env.usdgToken, env.directory)
  }

  lemma NothingStopsAReadPass(env: Env, s: State, from: nat, t: Step)
    requires ChainIsSound(env) && t.Tick? && t.answers && t.unread == {} && from <= t.head
    requires forall b: nat, l | b <= t.head && l in env.chain(b) :: !Doubtful(env, l)
    ensures Found(env, s, from, t).Some?
  {
    var job, raw := JobOf(env, s, from, t), RawOf(env, from, t.head);
    RawIsTheWindow(env, from, t.head);
    PassIsRefusedIff(job, Some(SideLogs(env, from, t.head, true)), Some(SideLogs(env, from, t.head, false)), from, t.head);
    if l :| l in raw && Stops(l, job) {
      assert BlockOf(l) <= t.head && l in env.chain(BlockOf(l));
      assert Doubtful(env, l);
    }
  }

  /** Whatever happened before, one tick that reads everything, meets nothing doubtful and
    * books all it finds leaves nothing owed up to its head, and the next one starts there. */
  lemma ACleanTickBooksEverything(env: Env, steps: seq<Step>, head: nat, trades: set<string>) returns (books: nat)
    requires ChainIsSound(env) && (forall u <- steps :: TradesAreHonest(env, u))
    requires forall l | Owed(env, l) :: Lower(l.txHash) !in trades
    requires ScanFrom(env, Run(env, steps), head).Some? && ScanFrom(env, Run(env, steps), head).value <= head
    requires forall b: nat, l | b <= head && l in env.chain(b) :: !Doubtful(env, l)
    ensures var r := Run(env, steps + [Tick(head, true, {}, trades, books, true)]);
            && r.cursor == Some(head) && DistinctKeys(r.rows)
            && forall l | Owed(env, l) && r.start <= BlockOf(l) <= head :: FlowOf(env, l) in r.rows
  {
    var s := Run(env, steps);
    var from := ScanFrom(env, s, head).value;
    var job := JobOf(env, s, from, Tick(head, true, {}, trades, 0, true));
    NothingStopsAReadPass(env, s, from, Tick(head, true, {}, trades, 0, true));
    books := |Found(env, s, from, Tick(head, true, {}, trades, 0, true)).value|;
    var t := Tick(head, true, {}, trades, books, true);
    assert JobOf(env, s, from, t) == job;
    NothingStopsAReadPass(env, s, from, t);
    assert (steps + [t])[..|steps|] == steps;
    AFinishedPassLeavesNothing(env, steps, t);
  }
}
