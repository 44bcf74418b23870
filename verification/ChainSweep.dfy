/** Reading a fleet's capital off the chain through a node that may refuse
  * (worker/src/chain-capital.ts, `scanFleetCapital`). */
module ChainSweep {
  import opened Text
  import opened CapitalClassify
  import Sorting

  /** A USDG Transfer as the chain recorded it. */
  datatype ChainLog = ChainLog(
    txHash: string, blockNumber: nat, logIndex: nat, token: string, from: string, to: string, amountRaw: nat)

  datatype Side = Sent | Received

  /** How the node takes one eth_getLogs call. */
  datatype Reply = Answers | RateLimited | TooManyResults | OtherFailure

  /** The i-th call of a scan, for one block range and direction. */
  datatype Call = Call(number: nat, from: nat, to: nat, side: Side)

  const RATE_LIMIT_ATTEMPTS := 6
  const MAX_SPLIT_DEPTH := 24

  function Pow2(n: nat): nat {
    if n == 0 then 1 else 2 * Pow2(n - 1)
  }

  /** The splits still allowed at this depth bring the range down to `w` blocks. */
  predicate Splittable(w: nat, from: nat, to: nat, depth: nat) {
    depth <= MAX_SPLIT_DEPTH && to - from + 1 <= w * Pow2(MAX_SPLIT_DEPTH - depth)
  }

  lemma LastSplit(w: nat, from: nat, to: nat, depth: nat)
    requires from <= to && Splittable(w, from, to, depth)
    ensures w >= 1 && (depth == MAX_SPLIT_DEPTH ==> to - from + 1 <= w)
  {
    assert w * Pow2(0) == w;
  }

  predicate SpanReaches(w: nat, span: nat) {
    span <= w * Pow2(MAX_SPLIT_DEPTH)
  }

  lemma HalvesAreSplittable(w: nat, from: nat, to: nat, depth: nat)
    requires from < to && depth < MAX_SPLIT_DEPTH && Splittable(w, from, to, depth)
    ensures var mid := from + (to - from) / 2;
            Splittable(w, from, mid, depth + 1) && Splittable(w, mid + 1, to, depth + 1)
  {
    var half := w * Pow2(MAX_SPLIT_DEPTH - depth - 1);
    assert w * Pow2(MAX_SPLIT_DEPTH - depth) == 2 * half;
  }

  predicate Wanted(accounts: set<string>, log: ChainLog, side: Side) {
    Lower(if side.Sent? then log.from else log.to) in accounts
  }

  function Matching(logs: seq<ChainLog>, accounts: set<string>, side: Side): seq<ChainLog> {
    if logs == [] then [] else
      Matching(logs[..|logs| - 1], accounts, side) +
      if Wanted(accounts, logs[|logs| - 1], side) then [logs[|logs| - 1]] else []
  }

  /** The logs of blocks [from, to], block by block. */
  function Range(chain: nat -> seq<ChainLog>, from: nat, to: int): seq<ChainLog>
    decreases to - from
  {
    if from > to then [] else chain(from) + Range(chain, from + 1, to)
  }

  function Width(from: int, to: int): nat {
    if from <= to then to - from else 0
  }

  lemma {:induction false} RangeSplits(chain: nat -> seq<ChainLog>, from: nat, next: nat, to: int)
    requires from <= next && next <= to + 1
    ensures Range(chain, from, to) == Range(chain, from, next - 1) + Range(chain, next, to)
    decreases next - from
  {
    if from < next {
      RangeSplits(chain, from + 1, next, to);
      assert chain(from) + (Range(chain, from + 1, next - 1) + Range(chain, next, to)) ==
             (chain(from) + Range(chain, from + 1, next - 1)) + Range(chain, next, to);
    } else {
      assert [] + Range(chain, next, to) == Range(chain, next, to);
    }
  }

  lemma MatchingOneMore(logs: seq<ChainLog>, l: ChainLog, accounts: set<string>, side: Side)
    ensures Matching(logs + [l], accounts, side) ==
            Matching(logs, accounts, side) + if Wanted(accounts, l, side) then [l] else []
  {
    assert (logs + [l])[..|logs|] == logs;
  }

  lemma MatchingConcatOneMore(a: seq<ChainLog>, b: seq<ChainLog>, l: ChainLog, accounts: set<string>, side: Side)
    requires Matching(a + b, accounts, side) == Matching(a, accounts, side) + Matching(b, accounts, side)
    ensures Matching(a + (b + [l]), accounts, side) == Matching(a, accounts, side) + Matching(b + [l], accounts, side)
  {
    assert a + (b + [l]) == (a + b) + [l];
    MatchingOneMore(a + b, l, accounts, side);
    MatchingOneMore(b, l, accounts, side);
  }

  lemma {:induction false} MatchingConcat(a: seq<ChainLog>, b: seq<ChainLog>, accounts: set<string>, side: Side)
    ensures Matching(a + b, accounts, side) == Matching(a, accounts, side) + Matching(b, accounts, side)
  {
    if b == [] {
      assert a + b == a;
    } else {
      var front, last := b[..|b| - 1], b[|b| - 1];
      assert b == front + [last];
      MatchingConcat(a, front, accounts, side);
      MatchingConcatOneMore(a, front, last, accounts, side);
    }
  }

  lemma Append(h0: seq<ChainLog>, a: seq<ChainLog>, h1: seq<ChainLog>, b: seq<ChainLog>, h2: seq<ChainLog>)
    requires h1 == h0 + a && h2 == h1 + b
    ensures h2 == h0 + (a + b)
  {
  }

  /** Two readings one after the other, of the two parts of a range. */
  lemma Joined(
    h0: seq<ChainLog>, a: seq<ChainLog>, a': seq<ChainLog>, h1: seq<ChainLog>,
    b: seq<ChainLog>, b': seq<ChainLog>, h2: seq<ChainLog>, all: seq<ChainLog>)
    requires h1 == h0 + a && h2 == h1 + b && all == a' + b'
    requires multiset(a) <= multiset(a') && multiset(b) <= multiset(b')
    ensures h2 == h0 + (a + b) && multiset(a + b) <= multiset(all)
    ensures a == a' && b == b' ==> a + b == all
  {
  }

  /** One scan in flight. `chain` is what each block really holds; `node` is how each call is
    * taken. Neither the replies nor their timing are the scan's to choose. */
  class FleetScan {
    const chain: nat -> seq<ChainLog>
    const node: Call -> Reply
    const accounts: set<string>
    var hits: seq<ChainLog>
    var short: bool
    var calls: nat

    constructor (chain: nat -> seq<ChainLog>, node: Call -> Reply, accounts: set<string>)
      ensures this.chain == chain && this.node == node && this.accounts == accounts
      ensures hits == [] && !short && calls == 0
    {
      this.chain, this.node, this.accounts := chain, node, accounts;
      hits, short, calls := [], false, 0;
    }

    /** The node answers any range of up to `w` blocks, whatever it does with wider ones, and
      * never rate-limits or fails one call six times in a row. */
    ghost predicate Obliging(w: nat) {
      && (forall k: nat, from: nat, to: nat, side: Side | from <= to :: Decides(k, from, to, side))
      && (forall k: nat, from: nat, to: nat, side: Side | from <= to && to - from + 1 <= w ::
            !node(Call(k, from, to, side)).TooManyResults?)
    }

    /** Asked six times in a row for a range, it answers or says that it is too big. */
    ghost predicate Decides(k: nat, from: nat, to: nat, side: Side) {
      exists j: nat | k <= j < k + RATE_LIMIT_ATTEMPTS :: Decisive(node(Call(j, from, to, side)))
    }

    ghost predicate Decisive(reply: Reply) {
      reply.Answers? || reply.TooManyResults?
    }

    /** The logs a full reading of the range would add. */
    ghost function Logs(from: nat, to: int, side: Side): seq<ChainLog> {
      Matching(Range(chain, from, to), accounts, side)
    }

    /** One eth_getLogs call. */
    method Ask(from: nat, to: nat, side: Side) returns (reply: Reply)
      modifies this`hits, this`calls
      ensures calls == old(calls) + 1 && reply == node(Call(old(calls), from, to, side))
      ensures hits == if reply.Answers? then old(hits) + Logs(from, to, side) else old(hits)
    {
      reply := node(Call(calls, from, to, side));
      calls := calls + 1;
      if reply.Answers? {
        hits := hits + Matching(Range(chain, from, to), accounts, side);
      }
    }

    /** Over an obliging node a range refused for its size can still be split. */
    lemma TooManyCanSplit(from: nat, to: nat, side: Side, depth: nat, w: nat, k: nat)
      requires from <= to && Obliging(w) && Splittable(w, from, to, depth)
      requires node(Call(k, from, to, side)).TooManyResults?
      ensures from < to && depth < MAX_SPLIT_DEPTH
    {
      LastSplit(w, from, to, depth);
    }

    /** The same call up to six times, until the node answers or says the range is too big. */
    method Insist(from: nat, to: nat, side: Side) returns (reply: Reply)
      modifies this`hits, this`calls
      ensures old(calls) < calls <= old(calls) + RATE_LIMIT_ATTEMPTS
      ensures hits == if reply.Answers? then old(hits) + Logs(from, to, side) else old(hits)
      ensures reply == node(Call(calls - 1, from, to, side))
      ensures Decisive(reply) || !Decides(old(calls), from, to, side)
    {
      var attempt := 0;
      while true
        invariant 0 <= attempt < RATE_LIMIT_ATTEMPTS && calls == old(calls) + attempt && hits == old(hits)
        invariant forall j: nat | old(calls) <= j < calls :: !Decisive(node(Call(j, from, to, side)))
        decreases RATE_LIMIT_ATTEMPTS - attempt
      {
        reply := Ask(from, to, side);
        if reply.Answers? || reply.TooManyResults? || attempt == RATE_LIMIT_ATTEMPTS - 1 { return; }
        attempt := attempt + 1;
      }
    }

    /** Read one block range, splitting it only when the node says the answer is too big.
      * If coverage is not declared short, exactly the range's logs were added, each once;
      * if it is, what was added is still part of them. It is never short over a node that
      * answers ranges the splitting can reach. */
    method Sweep(from: nat, to: int, side: Side, depth: nat, ghost w: nat) returns (ghost added: seq<ChainLog>)
      requires from <= to
      modifies this`hits, this`short, this`calls
      ensures old(short) ==> short
      ensures hits == old(hits) + added
      ensures !short ==> added == Logs(from, to, side)
      ensures multiset(added) <= multiset(Logs(from, to, side))
      ensures calls <= old(calls) + 6 * (2 * (to - from + 1) - 1)
      ensures Obliging(w) && Splittable(w, from, to, depth) ==> short == old(short)
      decreases Width(from, to), 1
    {
      added := [];
      var reply := Insist(from, to, side);
      if reply.TooManyResults? && Obliging(w) && Splittable(w, from, to, depth) {
        TooManyCanSplit(from, to, side, depth, w, calls - 1);
      }
      if reply.Answers? {
        added := Logs(from, to, side);
      } else if reply.TooManyResults? && from < to && depth < MAX_SPLIT_DEPTH {
        added := SweepHalves(from, to, side, depth, w);
      } else {
        short := true;
      }
    }

    method SweepHalves(from: nat, to: int, side: Side, depth: nat, ghost w: nat) returns (ghost added: seq<ChainLog>)
      requires from < to && depth < MAX_SPLIT_DEPTH
      modifies this`hits, this`short, this`calls
      ensures old(short) ==> short
      ensures hits == old(hits) + added
      ensures !short ==> added == Logs(from, to, side)
      ensures multiset(added) <= multiset(Logs(from, to, side))
      ensures calls <= old(calls) + 6 * (2 * (to - from + 1) - 2)
      ensures Obliging(w) && Splittable(w, from, to, depth) ==> short == old(short)
      decreases Width(from, to), 0
    {
      if Splittable(w, from, to, depth) { HalvesAreSplittable(w, from, to, depth); }
      var mid := from + (to - from) / 2;
      Halves(from, mid, to, side);
      ghost var lower := Sweep(from, mid, side, depth + 1, w);
      ghost var middle := hits;
      ghost var upper := Sweep(mid + 1, to, side, depth + 1, w);
      Joined(old(hits), lower, Logs(from, mid, side), middle, upper, Logs(mid + 1, to, side), hits, Logs(from, to, side));
      added := lower + upper;
    }

    /** The logs of a range are those below a block and those from it on. */
    lemma SplitAt(from: nat, next: nat, to: nat, side: Side)
      requires from <= next <= to
      ensures Logs(from, to, side) == Logs(from, next - 1, side) + Logs(next, to, side)
    {
      var lower, upper := Range(chain, from, next - 1), Range(chain, next, to);
      RangeSplits(chain, from, next, to);
      MatchingConcat(lower, upper, accounts, side);
    }

    lemma Halves(from: nat, mid: nat, to: nat, side: Side)
      requires from <= mid < to
      ensures Logs(from, to, side) == Logs(from, mid, side) + Logs(mid + 1, to, side)
    {
      SplitAt(from, mid + 1, to, side);
    }

    /** One direction, in opening bids of at most `span` blocks. */
    method SweepSide(fromBlock: nat, toBlock: nat, span: nat, side: Side, ghost w: nat)
      requires span > 0
      modifies this`hits, this`short, this`calls
      ensures old(short) ==> short
      ensures !short ==> hits == old(hits) + Logs(fromBlock, toBlock, side)
      ensures Obliging(w) && SpanReaches(w, span) ==> short == old(short)
      ensures calls <= old(calls) + (if fromBlock <= toBlock then 12 * (toBlock - fromBlock + 1) else 0)
    {
      var from := fromBlock;
      ghost var read: seq<ChainLog> := [];
      while from <= toBlock
        invariant fromBlock <= from && (from <= toBlock + 1 || from == fromBlock)
        invariant old(short) ==> short
        invariant hits == old(hits) + read
        invariant !short ==> read == Logs(fromBlock, from - 1, side)
        invariant Obliging(w) && SpanReaches(w, span) ==> short == old(short)
        invariant calls <= old(calls) + 12 * (from - fromBlock)
      {
        var to := if from + span - 1 > toBlock then toBlock else from + span - 1;
        read := SweepBid(fromBlock, from, to, side, w, old(hits), read);
        from := to + 1;
      }
    }

    /** One opening bid, after everything below it. */
    method SweepBid(
      fromBlock: nat, from: nat, to: nat, side: Side, ghost w: nat, ghost start: seq<ChainLog>, ghost read: seq<ChainLog>)
      returns (ghost read': seq<ChainLog>)
      requires fromBlock <= from <= to && hits == start + read
      requires !short ==> read == Logs(fromBlock, from - 1, side)
      modifies this`hits, this`short, this`calls
      ensures old(short) ==> short
      ensures hits == start + read'
      ensures !short ==> read' == Logs(fromBlock, to, side)
      ensures calls <= old(calls) + 12 * (to - from + 1)
      ensures Obliging(w) && Splittable(w, from, to, 0) ==> short == old(short)
    {
      ghost var before := hits;
      ghost var added := Sweep(from, to, side, 0, w);
      SplitAt(fromBlock, from, to, side);
      Append(start, read, before, added, hits);
      read' := read + added;
    }

    /** Both directions. A scan that is not short holds exactly the logs sent by, then the
      * logs received by, the wanted accounts in [fromBlock, toBlock], each once; and it is
      * not short when 24 halvings of a span reach a width the node always answers. */
    method SweepFleet(fromBlock: nat, toBlock: nat, span: nat, ghost w: nat)
      requires span > 0 && hits == [] && !short && calls == 0
      modifies this`hits, this`short, this`calls
      ensures !short ==> hits == Logs(fromBlock, toBlock, Sent) + Logs(fromBlock, toBlock, Received)
      ensures fromBlock <= toBlock ==> calls <= 24 * (toBlock - fromBlock + 1)
      ensures Obliging(w) && SpanReaches(w, span) ==> !short
    {
      SweepSide(fromBlock, toBlock, span, Sent, w);
      SweepSide(fromBlock, toBlock, span, Received, w);
    }
  }

  // ── what the hits are worth ────────────────────────────────────────────────

  /** What a transaction's receipt shows, None when it could not be read. */
  type Receipts = string -> Option<seq<TransferLeg>>

  function LegOf(log: ChainLog): TransferLeg {
    TransferLeg(log.token, log.from, log.to, log.amountRaw)
  }

  predicate Touches(log: ChainLog, account: string, usdgToken: string) {
    Lower(log.token) == Lower(usdgToken) && (Same(log.from, account) || Same(log.to, account))
  }

  function Classify(log: ChainLog, account: string, usdgToken: string, receipts: Receipts, known: Known): CapitalKind {
    var legs := receipts(Lower(log.txHash));
    if legs.None? then Ambiguous
    else ClassifyUsdgMovement(account, LegOf(log), if legs.value == [] then [LegOf(log)] else legs.value, usdgToken, known)
  }

  function Movement(log: ChainLog, account: string, usdgToken: string, receipts: Receipts, known: Known): CapitalMovement {
    CapitalMovement(log.txHash, log.blockNumber, log.logIndex, log.amountRaw,
                    Classify(log, account, usdgToken, receipts, known))
  }

  predicate Earlier(a: CapitalMovement, b: CapitalMovement) {
    a.blockNumber < b.blockNumber || (a.blockNumber == b.blockNumber && a.logIndex <= b.logIndex)
  }

  /** In the order they happened: by block, and by position within it. */
  predicate Chronological(s: seq<CapitalMovement>) {
    forall i, j | 0 <= i < j < |s| ::
      s[i].blockNumber < s[j].blockNumber || (s[i].blockNumber == s[j].blockNumber && s[i].logIndex <= s[j].logIndex)
  }

  function MovementsOf(
    hits: seq<ChainLog>, account: string, usdgToken: string, receipts: Receipts, known: Known): seq<CapitalMovement>
  {
    if hits == [] then [] else
      var l := hits[|hits| - 1];
      MovementsOf(hits[..|hits| - 1], account, usdgToken, receipts, known) +
      if Touches(l, account, usdgToken) then [Movement(l, account, usdgToken, receipts, known)] else []
  }

  /** The movements of one account among the hits, one for every hit that touches it,
    * chronological, with the flag that says whether every window and every receipt behind
    * them was read. */
  method AccountMovements(
    hits: seq<ChainLog>, short: bool, account: string, usdgToken: string, receipts: Receipts, known: Known)
    returns (capital: AccountCapital)
    ensures Chronological(capital.movements)
    ensures capital.complete <==>
              !short && forall l | l in hits && Touches(l, account, usdgToken) :: receipts(Lower(l.txHash)).Some?
    ensures multiset(capital.movements) == multiset(MovementsOf(hits, account, usdgToken, receipts, known))
    ensures NetContribution(capital.movements) == Worth(hits, account, usdgToken, receipts, known)
  {
    var movements := [];
    var complete := !short;
    for i := 0 to |hits|
      invariant movements == MovementsOf(hits[..i], account, usdgToken, receipts, known)
      invariant complete <==>
        !short && forall l | l in hits[..i] && Touches(l, account, usdgToken) :: receipts(Lower(l.txHash)).Some?
    {
      var l := hits[i];
      assert hits[..i + 1][..i] == hits[..i];
      assert hits[..i + 1] == hits[..i] + [l];
      if !Touches(l, account, usdgToken) { continue; }
      if receipts(Lower(l.txHash)).None? { complete := false; }
      movements := movements + [Movement(l, account, usdgToken, receipts, known)];
    }
    assert hits[..|hits|] == hits;
    Sorting.SortBySorts(movements, Earlier);
    SortingKeepsTheNet(movements);
    MovementsAreWorth(hits, account, usdgToken, receipts, known);
    capital := AccountCapital(Sorting.SortBy(movements, Earlier), complete);
  }

  function SumOver(logs: seq<ChainLog>, f: ChainLog -> int): int {
    if logs == [] then 0 else SumOver(logs[..|logs| - 1], f) + f(logs[|logs| - 1])
  }

  function WorthOf(account: string, usdgToken: string, receipts: Receipts, known: Known): ChainLog -> int {
    (l: ChainLog) =>
      if Touches(l, account, usdgToken) then Contribution(Movement(l, account, usdgToken, receipts, known)) else 0
  }

  /** What the logs say an account's owner put in, each listed log counted where it stands. */
  function Worth(logs: seq<ChainLog>, account: string, usdgToken: string, receipts: Receipts, known: Known): int {
    SumOver(logs, WorthOf(account, usdgToken, receipts, known))
  }

  lemma MovementsAreWorthOneMore(
    hits: seq<ChainLog>, l: ChainLog, account: string, usdgToken: string, receipts: Receipts, known: Known)
    requires NetContribution(MovementsOf(hits, account, usdgToken, receipts, known)) ==
             Worth(hits, account, usdgToken, receipts, known)
    ensures NetContribution(MovementsOf(hits + [l], account, usdgToken, receipts, known)) ==
            Worth(hits + [l], account, usdgToken, receipts, known)
  {
    assert (hits + [l])[..|hits|] == hits;
    NetOneMore(MovementsOf(hits, account, usdgToken, receipts, known), Movement(l, account, usdgToken, receipts, known));
  }

  lemma {:induction false} MovementsAreWorth(
    hits: seq<ChainLog>, account: string, usdgToken: string, receipts: Receipts, known: Known)
    ensures NetContribution(MovementsOf(hits, account, usdgToken, receipts, known)) ==
            Worth(hits, account, usdgToken, receipts, known)
  {
    if hits != [] {
      var front, l := hits[..|hits| - 1], hits[|hits| - 1];
      assert hits == front + [l];
      MovementsAreWorth(front, account, usdgToken, receipts, known);
      MovementsAreWorthOneMore(front, l, account, usdgToken, receipts, known);
    }
  }

  lemma NetOneMore(s: seq<CapitalMovement>, m: CapitalMovement)
    ensures NetContribution(s + [m]) == NetContribution(s) + Contribution(m) && s + [] == s
  {
    assert (s + [m])[..|s|] == s;
  }

  // ── what that comes to, over the chain's own transfers ─────────────────────

  /** The receipt behind a USDG transfer was read and shows no other token going the other way. */
  ghost predicate Unpaired(l: ChainLog, account: string, usdgToken: string, receipts: Receipts, outbound: bool) {
    && Lower(l.token) == Lower(usdgToken) && receipts(Lower(l.txHash)).Some?
    && !OppositeLeg(receipts(Lower(l.txHash)).value, account, usdgToken, outbound)
  }

  /** USDG that reached the account from somebody outside, for nothing in return. */
  ghost predicate IsDeposit(l: ChainLog, account: string, usdgToken: string, receipts: Receipts, known: Known) {
    && Unpaired(l, account, usdgToken, receipts, false)
    && Lower(l.to) == Lower(account) && Lower(l.from) != Lower(account) && FromOutside(known, l.from)
  }

  /** USDG that left the account to somebody outside, for nothing in return. */
  ghost predicate IsWithdrawal(l: ChainLog, account: string, usdgToken: string, receipts: Receipts, known: Known) {
    && Unpaired(l, account, usdgToken, receipts, true)
    && Lower(l.from) == Lower(account) && Lower(l.to) != Lower(account) && FromOutside(known, l.to)
  }

  /** What the owner put in less what the owner took out. */
  ghost function DepositsLessWithdrawals(
    logs: seq<ChainLog>, account: string, usdgToken: string, receipts: Receipts, known: Known): int
  {
    if logs == [] then 0 else
      var l := logs[|logs| - 1];
      DepositsLessWithdrawals(logs[..|logs| - 1], account, usdgToken, receipts, known)
      + OwnersShare(l, account, usdgToken, receipts, known)
  }

  ghost function OwnersShare(l: ChainLog, account: string, usdgToken: string, receipts: Receipts, known: Known): int {
    var amount: int := l.amountRaw;
    if IsDeposit(l, account, usdgToken, receipts, known) then amount
    else if IsWithdrawal(l, account, usdgToken, receipts, known) then -amount
    else 0
  }

  /** What a movement says of the log it came from: where it stands, how much, and its kind;
    * a receipt that could not be read decides nothing. */
  lemma MovementSays(l: ChainLog, account: string, usdgToken: string, receipts: Receipts, known: Known)
    requires Lower(l.token) == Lower(usdgToken)
    ensures var m := Movement(l, account, usdgToken, receipts, known);
            && m.txHash == l.txHash && m.blockNumber == l.blockNumber && m.logIndex == l.logIndex
            && m.amountRaw == l.amountRaw
            && (m.kind.CapitalIn? <==> IsDeposit(l, account, usdgToken, receipts, known))
            && (m.kind.CapitalOut? <==> IsWithdrawal(l, account, usdgToken, receipts, known))
            && (receipts(Lower(l.txHash)).None? ==> m.kind.Ambiguous?)
  {
    var read := receipts(Lower(l.txHash));
    if read.Some? {
      var legs := if read.value == [] then [LegOf(l)] else read.value;
      CapitalIff(account, LegOf(l), legs, usdgToken, known);
      assert !OppositeLeg([LegOf(l)], account, usdgToken, true) && !OppositeLeg([LegOf(l)], account, usdgToken, false);
    }
  }

  lemma LogWorth(l: ChainLog, account: string, usdgToken: string, receipts: Receipts, known: Known)
    ensures WorthOf(account, usdgToken, receipts, known)(l) == OwnersShare(l, account, usdgToken, receipts, known)
  {
    if Lower(l.token) == Lower(usdgToken) { MovementSays(l, account, usdgToken, receipts, known); }
  }

  lemma {:induction false} WorthIsDepositsLessWithdrawals(
    logs: seq<ChainLog>, account: string, usdgToken: string, receipts: Receipts, known: Known)
    ensures Worth(logs, account, usdgToken, receipts, known) ==
            DepositsLessWithdrawals(logs, account, usdgToken, receipts, known)
  {
    if logs != [] {
      WorthIsDepositsLessWithdrawals(logs[..|logs| - 1], account, usdgToken, receipts, known);
      LogWorth(logs[|logs| - 1], account, usdgToken, receipts, known);
    }
  }

  /** A swap adds nothing to the account, wherever it stands: a transfer whose receipt moves
    * another token the other way can be left out of the chain. */
  lemma SwapsAddNothing(
    logs: seq<ChainLog>, k: nat, account: string, usdgToken: string, receipts: Receipts, known: Known)
    requires k < |logs| && receipts(Lower(logs[k].txHash)).Some?
    requires OppositeLeg(receipts(Lower(logs[k].txHash)).value, account, usdgToken, Lower(logs[k].from) == Lower(account))
    ensures Worth(logs, account, usdgToken, receipts, known) ==
            Worth(logs[..k] + logs[k + 1..], account, usdgToken, receipts, known)
  {
    var f := WorthOf(account, usdgToken, receipts, known);
    var a, b := logs[..k], logs[k + 1..];
    LogWorth(logs[k], account, usdgToken, receipts, known);
    assert logs == (a + [logs[k]]) + b;
    assert (a + [logs[k]])[..k] == a;
    SumConcat(a + [logs[k]], b, f);
    SumConcat(a, b, f);
  }

  lemma {:induction false} MatchingMembers(logs: seq<ChainLog>, accounts: set<string>, side: Side, l: ChainLog)
    ensures l in Matching(logs, accounts, side) <==> l in logs && Wanted(accounts, l, side)
  {
    if logs != [] {
      var n := |logs| - 1;
      MatchingMembers(logs[..n], accounts, side, l);
      assert logs == logs[..n] + [logs[n]];
    }
  }

  lemma {:induction false} MovementsMembers(
    hits: seq<ChainLog>, account: string, usdgToken: string, receipts: Receipts, known: Known, m: CapitalMovement)
    ensures m in MovementsOf(hits, account, usdgToken, receipts, known) <==>
              exists l | l in hits :: Touches(l, account, usdgToken) && m == Movement(l, account, usdgToken, receipts, known)
  {
    if hits != [] {
      var n := |hits| - 1;
      MovementsMembers(hits[..n], account, usdgToken, receipts, known, m);
      assert hits == hits[..n] + [hits[n]];
      assert hits[n] in hits;
    }
  }

  lemma {:induction false} PlacingKeepsTheNet(m: CapitalMovement, s: seq<CapitalMovement>)
    ensures NetContribution(Sorting.Place(m, s, Earlier)) == NetContribution(s) + Contribution(m)
  {
    var r := Sorting.Place(m, s, Earlier);
    if s == [] || Earlier(s[|s| - 1], m) {
      assert r[..|r| - 1] == s;
    } else {
      PlacingKeepsTheNet(m, s[..|s| - 1]);
      assert r[..|r| - 1] == Sorting.Place(m, s[..|s| - 1], Earlier);
    }
  }

  lemma {:induction false} SortingKeepsTheNet(s: seq<CapitalMovement>)
    ensures NetContribution(Sorting.SortBy(s, Earlier)) == NetContribution(s)
  {
    if s != [] {
      SortingKeepsTheNet(s[..|s| - 1]);
      PlacingKeepsTheNet(s[|s| - 1], Sorting.SortBy(s[..|s| - 1], Earlier));
    }
  }

  lemma {:induction false} SumConcat(a: seq<ChainLog>, b: seq<ChainLog>, f: ChainLog -> int)
    ensures SumOver(a + b, f) == SumOver(a, f) + SumOver(b, f)
  {
    if b == [] {
      assert a + b == a;
    } else {
      SumConcat(a, b[..|b| - 1], f);
      assert (a + b)[..|a + b| - 1] == a + b[..|b| - 1];
    }
  }

  /** The wanted accounts, as the topic filter pads and lower-cases them. */
  function Keys(accounts: seq<string>): (keys: set<string>)
    ensures forall a <- accounts :: Lower(a) in keys
  {
    set i | 0 <= i < |accounts| :: Lower(accounts[i])
  }

  /** A log that is capital for one wanted account is seen from that side alone. */
  lemma CapitalIsSeenOnce(
    log: ChainLog, account: string, accounts: set<string>, usdgToken: string, receipts: Receipts, known: Known)
    requires accounts == Keys(known.accounts) && Lower(account) in accounts
    requires IsCapital(Movement(log, account, usdgToken, receipts, known))
    ensures Wanted(accounts, log, Sent) != Wanted(accounts, log, Received)
  {
  }

  /** The sum over the logs one side of the sweep hits. */
  function SumSeen(logs: seq<ChainLog>, side: Side, accounts: set<string>, f: ChainLog -> int): int {
    if logs == [] then 0 else
      var l := logs[|logs| - 1];
      SumSeen(logs[..|logs| - 1], side, accounts, f) + if Wanted(accounts, l, side) then f(l) else 0
  }

  lemma {:induction false} SumOfMatching(logs: seq<ChainLog>, side: Side, accounts: set<string>, f: ChainLog -> int)
    ensures SumOver(Matching(logs, accounts, side), f) == SumSeen(logs, side, accounts, f)
  {
    if logs != [] {
      var n := |logs| - 1;
      SumOfMatching(logs[..n], side, accounts, f);
      var before := Matching(logs[..n], accounts, side);
      if Wanted(accounts, logs[n], side) {
        assert (before + [logs[n]])[..|before|] == before;
      } else {
        assert before + [] == before;
      }
    }
  }

  lemma {:induction false} SidesShareTheSum(logs: seq<ChainLog>, accounts: set<string>, f: ChainLog -> int)
    requires forall l | l in logs && f(l) != 0 :: Wanted(accounts, l, Sent) != Wanted(accounts, l, Received)
    ensures SumSeen(logs, Sent, accounts, f) + SumSeen(logs, Received, accounts, f) == SumOver(logs, f)
  {
    if logs != [] {
      var n := |logs| - 1;
      assert logs == logs[..n] + [logs[n]];
      assert logs[n] in logs;
      SidesShareTheSum(logs[..n], accounts, f);
    }
  }

  /** A log between two wanted accounts is hit twice, once from each side, and still no
    * capital is counted twice: over a complete two-sided sweep each account's net equals the
    * sum over the chain's own logs, every one taken once. */
  lemma CapitalIsCountedOnce(
    logs: seq<ChainLog>, account: string, accounts: set<string>, usdgToken: string, receipts: Receipts, known: Known)
    requires accounts == Keys(known.accounts) && Lower(account) in accounts
    ensures Worth(Matching(logs, accounts, Sent) + Matching(logs, accounts, Received),
                  account, usdgToken, receipts, known) ==
            Worth(logs, account, usdgToken, receipts, known)
  {
    var f := WorthOf(account, usdgToken, receipts, known);
    SumConcat(Matching(logs, accounts, Sent), Matching(logs, accounts, Received), f);
    SumOfMatching(logs, Sent, accounts, f);
    SumOfMatching(logs, Received, accounts, f);
    forall l | l in logs && f(l) != 0
      ensures Wanted(accounts, l, Sent) != Wanted(accounts, l, Received)
    {
      CapitalIsSeenOnce(l, account, accounts, usdgToken, receipts, known);
    }
    SidesShareTheSum(logs, accounts, f);
  }

  /** One account's entry over the window: complete exactly when the sweep was and every
    * receipt behind a transfer of the account was read; then it holds a movement for each of
    * those transfers and for nothing else, and nets to deposits less withdrawals, every
    * transfer of the chain taken once. */
  ghost predicate IsEntry(
    capital: AccountCapital, short: bool, logs: seq<ChainLog>, account: string, usdgToken: string,
    receipts: Receipts, known: Known)
  {
    && Chronological(capital.movements)
    && (short ==> !capital.complete)
    && (!short ==>
          && (capital.complete <==>
                forall l | l in logs && Touches(l, account, usdgToken) :: receipts(Lower(l.txHash)).Some?)
          && (forall m :: m in capital.movements <==> IsMovement(m, logs, account, usdgToken, receipts, known))
          && NetContribution(capital.movements) == DepositsLessWithdrawals(logs, account, usdgToken, receipts, known))
  }

  ghost predicate IsMovement(
    m: CapitalMovement, logs: seq<ChainLog>, account: string, usdgToken: string, receipts: Receipts, known: Known)
  {
    exists l | l in logs :: Touches(l, account, usdgToken) && m == Movement(l, account, usdgToken, receipts, known)
  }

  lemma EntryOfHits(
    capital: AccountCapital, logs: seq<ChainLog>, hits: seq<ChainLog>, account: string, accounts: set<string>,
    usdgToken: string, receipts: Receipts, known: Known)
    requires hits == Matching(logs, accounts, Sent) + Matching(logs, accounts, Received)
    requires accounts == Keys(known.accounts) && account in accounts && Lower(account) == account
    requires Chronological(capital.movements)
    requires capital.complete <==> forall l | l in hits && Touches(l, account, usdgToken) :: receipts(Lower(l.txHash)).Some?
    requires multiset(capital.movements) == multiset(MovementsOf(hits, account, usdgToken, receipts, known))
    requires NetContribution(capital.movements) == Worth(hits, account, usdgToken, receipts, known)
    ensures IsEntry(capital, false, logs, account, usdgToken, receipts, known)
  {
    forall l
      ensures l in hits && Touches(l, account, usdgToken) <==> l in logs && Touches(l, account, usdgToken)
    {
      MatchingMembers(logs, accounts, Sent, l);
      MatchingMembers(logs, accounts, Received, l);
    }
    forall m
      ensures m in capital.movements <==> IsMovement(m, logs, account, usdgToken, receipts, known)
    {
      MovementsMembers(hits, account, usdgToken, receipts, known, m);
      assert m in capital.movements <==> m in multiset(capital.movements);
      assert m in MovementsOf(hits, account, usdgToken, receipts, known) <==>
             m in multiset(MovementsOf(hits, account, usdgToken, receipts, known));
    }
    CapitalIsCountedOnce(logs, account, accounts, usdgToken, receipts, known);
    WorthIsDepositsLessWithdrawals(logs, account, usdgToken, receipts, known);
  }

  /** The whole reading: sweep both directions, then classify for each account. */
  method ScanFleetCapital(
    scan: FleetScan, fromBlock: nat, toBlock: nat, span: nat, usdgToken: string, receipts: Receipts, known: Known,
    ghost w: nat)
    returns (result: map<string, AccountCapital>)
    requires span > 0 && scan.accounts == Keys(known.accounts)
    requires scan.hits == [] && !scan.short && scan.calls == 0
    modifies scan
    ensures result.Keys == Keys(known.accounts)
    ensures forall a | a in result ::
              IsEntry(result[a], scan.short, Range(scan.chain, fromBlock, toBlock), a, usdgToken, receipts, known)
    ensures scan.Obliging(w) && SpanReaches(w, span) ==> !scan.short
  {
    scan.SweepFleet(fromBlock, toBlock, span, w);
    var hits, short := scan.hits, scan.short;
    ghost var logs := Range(scan.chain, fromBlock, toBlock);
    result := map[];
    var todo := scan.accounts;
    while todo != {}
      invariant todo <= scan.accounts && result.Keys == scan.accounts - todo
      invariant scan.short == short
      invariant forall a | a in result :: IsEntry(result[a], short, logs, a, usdgToken, receipts, known)
      decreases todo
    {
      var a :| a in todo;
      var capital := AccountMovements(hits, short, a, usdgToken, receipts, known);
      if !short {
        ghost var i :| 0 <= i < |known.accounts| && a == Lower(known.accounts[i]);
        LowerTwice(known.accounts[i]);
        EntryOfHits(capital, logs, hits, a, scan.accounts, usdgToken, receipts, known);
      }
      result := result[a := capital];
      todo := todo - {a};
    }
  }
}
