/** One pass of the deposit scanner (worker/src/deposit-log.ts): the USDG movements over the
  * account's boundary that the books do not hold yet and that are the owner's capital. */
module DepositScan {
  import opened Text
  import opened CapitalClassify
  import Sorting

  datatype Transfer = Transfer(from: string, to: string, value: nat)

  /** A log as the node returned it. A field that could not be read is None. */
  datatype RawLog = RawLog(
    txHash: string, blockNumber: Option<nat>, logIndex: Option<nat>, transfer: Option<Transfer>)

  datatype FlowKey = FlowKey(txHash: string, logIndex: nat)

  datatype TransferFlow = TransferFlow(
    inbound: bool, amountUsdg6: nat, txHash: string, blockNumber: nat, logIndex: nat)

  datatype Candidate = Candidate(flow: TransferFlow, from: string, to: string)

  /** What a pass is told: the account, the keys already booked, the transactions the ledger
    * calls trades, and what each transaction's receipt holds, None when it cannot be read. */
  datatype Job = Job(
    account: string, usdgToken: string,
    knownKeys: set<FlowKey>, tradeTxHashes: set<string>,
    receipts: string -> Option<seq<TransferLeg>>, directory: Known)

  function KeyOf(txHash: string, logIndex: nat): FlowKey {
    FlowKey(Lower(txHash), logIndex)
  }

  function KeyOfFlow(f: TransferFlow): FlowKey {
    KeyOf(f.txHash, f.logIndex)
  }

  /** Chronological: by block, and by position within the block. */
  function Before(a: TransferFlow, b: TransferFlow): bool {
    a.blockNumber < b.blockNumber || (a.blockNumber == b.blockNumber && a.logIndex <= b.logIndex)
  }

  // ── which logs are candidates ──────────────────────────────────────────────

  predicate Usable(l: RawLog) {
    l.blockNumber.Some? && l.logIndex.Some? && l.transfer.Some?
  }

  function KeyOfLog(l: RawLog): FlowKey
    requires Usable(l)
  {
    KeyOf(l.txHash, l.logIndex.value)
  }

  function From(l: RawLog): string
    requires Usable(l)
  {
    Lower(l.transfer.value.from)
  }

  function To(l: RawLog): string
    requires Usable(l)
  {
    Lower(l.transfer.value.to)
  }

  /** Money crossing the account's boundary. */
  predicate Crossing(l: RawLog, account: string)
    requires Usable(l)
  {
    && From(l) != To(l)
    && l.transfer.value.value != 0
    && (To(l) == Lower(account) || From(l) == Lower(account))
  }

  function CandidateOf(l: RawLog, account: string): Candidate
    requires Usable(l)
  {
    Candidate(TransferFlow(To(l) == Lower(account), l.transfer.value.value, l.txHash, l.blockNumber.value, l.logIndex.value),
              From(l), To(l))
  }

  /** Keys of the readable logs that were not booked before. */
  function SeenKeys(raw: seq<RawLog>, known: set<FlowKey>): set<FlowKey> {
    set l | l in raw && Usable(l) && KeyOfLog(l) !in known :: KeyOfLog(l)
  }

  predicate Passes(l: RawLog, seen: set<FlowKey>, job: Job) {
    && Usable(l)
    && KeyOfLog(l) !in seen && KeyOfLog(l) !in job.knownKeys
    && Crossing(l, job.account)
    && Lower(l.txHash) !in job.tradeTxHashes
  }

  function CandidatesOf(raw: seq<RawLog>, job: Job): seq<Candidate> {
    if raw == [] then [] else
      var n := |raw| - 1;
      CandidatesOf(raw[..n], job) +
      if Passes(raw[n], SeenKeys(raw[..n], job.knownKeys), job) then [CandidateOf(raw[n], job.account)] else []
  }

  // ── which candidates are capital ───────────────────────────────────────────

  function ReceiptOf(c: Candidate, job: Job): Option<seq<TransferLeg>> {
    job.receipts(Lower(c.flow.txHash))
  }

  function KindOf(c: Candidate, legs: seq<TransferLeg>, account: string, usdgToken: string, directory: Known): CapitalKind {
    var usdgLeg := TransferLeg(Lower(usdgToken), c.from, c.to, c.flow.amountUsdg6);
    ClassifyUsdgMovement(account, usdgLeg, if legs != [] then legs else [usdgLeg], Lower(usdgToken), directory)
  }

  function Kind(c: Candidate, job: Job): CapitalKind
    requires ReceiptOf(c, job).Some?
  {
    KindOf(c, ReceiptOf(c, job).value, job.account, job.usdgToken, job.directory)
  }

  predicate IsCapitalKind(k: CapitalKind) {
    k.CapitalIn? || k.CapitalOut?
  }

  predicate IsAmbiguous(c: Candidate, job: Job) {
    ReceiptOf(c, job).Some? && Kind(c, job).Ambiguous?
  }

  /** Every receipt was read, and every movement understood. */
  predicate Understood(cs: seq<Candidate>, job: Job) {
    && (forall c <- cs :: ReceiptOf(c, job).Some?)
    && !(exists c <- cs :: IsAmbiguous(c, job))
  }

  predicate IsCapital(c: Candidate, job: Job) {
    ReceiptOf(c, job).Some? && IsCapitalKind(Kind(c, job))
  }

  function CapitalOf(cs: seq<Candidate>, job: Job): seq<TransferFlow> {
    if cs == [] then [] else
      var n := |cs| - 1;
      CapitalOf(cs[..n], job) + if IsCapital(cs[n], job) then [cs[n].flow] else []
  }

  /** The flows of a pass, or None when it refuses: one receipt that cannot be read or one
    * movement that cannot be classified refuses the whole pass. */
  function FlowsOf(raw: seq<RawLog>, job: Job): Option<seq<TransferFlow>> {
    var cs := CandidatesOf(raw, job);
    if Understood(cs, job) then Some(Sorting.SortBy(CapitalOf(cs, job), Before)) else None
  }

  /** Both directions were read in full, and the window is not inverted. */
  function PassOf(
    job: Job, inbound: Option<seq<RawLog>>, outbound: Option<seq<RawLog>>, fromBlock: nat, toBlock: nat)
    : Option<seq<TransferFlow>>
  {
    if toBlock < fromBlock then Some([])
    else if inbound.None? || outbound.None? then None
    else FlowsOf(inbound.value + outbound.value, job)
  }

  // ── the pass itself ────────────────────────────────────────────────────────

  /** One more log, usable or not. */
  lemma SeenOneMore(raw: seq<RawLog>, l: RawLog, known: set<FlowKey>)
    ensures SeenKeys(raw + [l], known) ==
            SeenKeys(raw, known) + (if Usable(l) && KeyOfLog(l) !in known then {KeyOfLog(l)} else {})
  {
    forall k | k in SeenKeys(raw, known)
      ensures k in SeenKeys(raw + [l], known)
    {
      var m :| m in raw && Usable(m) && KeyOfLog(m) !in known && KeyOfLog(m) == k;
      assert m in raw + [l];
    }
    assert l in raw + [l];
    assert forall m | m in raw + [l] :: m in raw || m == l;
  }

  lemma CandidatesOneMore(raw: seq<RawLog>, l: RawLog, job: Job)
    ensures CandidatesOf(raw + [l], job) ==
            CandidatesOf(raw, job) + if Passes(l, SeenKeys(raw, job.knownKeys), job) then [CandidateOf(l, job.account)] else []
  {
    assert (raw + [l])[..|raw|] == raw;
  }

  /** One log: remember its key, and keep it if it is a candidate. */
  method Consider(l: RawLog, job: Job, seen: set<FlowKey>) returns (seen': set<FlowKey>, kept: Option<Candidate>)
    ensures seen' == seen + (if Usable(l) && KeyOfLog(l) !in job.knownKeys then {KeyOfLog(l)} else {})
    ensures kept == if Passes(l, seen, job) then Some(CandidateOf(l, job.account)) else None
  {
    seen', kept := seen, None;
    if l.blockNumber.None? || l.logIndex.None? { return; }
    if l.transfer.None? { return; }
    var from, to, value := Lower(l.transfer.value.from), Lower(l.transfer.value.to), l.transfer.value.value;
    var key := KeyOf(l.txHash, l.logIndex.value);
    if key in seen || key in job.knownKeys { return; }
    seen' := seen + {key};
    if from == to { return; }
    if value == 0 { return; }
    if Lower(l.txHash) in job.tradeTxHashes { return; }
    var mine := Lower(job.account);
    if to != mine && from != mine { return; }
    kept := Some(Candidate(TransferFlow(to == mine, value, l.txHash, l.blockNumber.value, l.logIndex.value), from, to));
  }

  method Gather(raw: seq<RawLog>, job: Job) returns (candidates: seq<Candidate>)
    ensures candidates == CandidatesOf(raw, job)
  {
    candidates := [];
    var seen: set<FlowKey> := {};
    for i := 0 to |raw|
      invariant candidates == CandidatesOf(raw[..i], job)
      invariant seen == SeenKeys(raw[..i], job.knownKeys)
    {
      assert raw[..i + 1] == raw[..i] + [raw[i]];
      SeenOneMore(raw[..i], raw[i], job.knownKeys);
      CandidatesOneMore(raw[..i], raw[i], job);
      var kept;
      seen, kept := Consider(raw[i], job, seen);
      if kept.Some? { candidates := candidates + [kept.value]; }
    }
    assert raw[..|raw|] == raw;
  }

  /** One receipt per transaction, or None at the first that cannot be read. */
  method ReadReceipts(candidates: seq<Candidate>, job: Job) returns (legs: Option<map<string, seq<TransferLeg>>>)
    ensures legs.Some? <==> forall c <- candidates :: ReceiptOf(c, job).Some?
    ensures legs.Some? ==>
              forall j | 0 <= j < |candidates| ::
                && Lower(candidates[j].flow.txHash) in legs.value
                && ReceiptOf(candidates[j], job) == Some(legs.value[Lower(candidates[j].flow.txHash)])
  {
    var legsByTx: map<string, seq<TransferLeg>> := map[];
    for i := 0 to |candidates|
      invariant forall j | 0 <= j < i :: Lower(candidates[j].flow.txHash) in legsByTx
      invariant forall k <- legsByTx :: job.receipts(k) == Some(legsByTx[k])
    {
      var k := Lower(candidates[i].flow.txHash);
      if k in legsByTx { continue; }
      var receipt := job.receipts(k);
      if receipt.None? {
        assert ReceiptOf(candidates[i], job).None?;
        return None;
      }
      legsByTx := legsByTx[k := receipt.value];
    }
    legs := Some(legsByTx);
  }

  /** The flows of the candidates whose kind is capital. */
  function Picked(cs: seq<Candidate>, kinds: seq<CapitalKind>): seq<TransferFlow>
    requires |cs| == |kinds|
  {
    if cs == [] then [] else
      var n := |cs| - 1;
      Picked(cs[..n], kinds[..n]) + if IsCapitalKind(kinds[n]) then [cs[n].flow] else []
  }

  lemma PickedOneMore(cs: seq<Candidate>, kinds: seq<CapitalKind>, c: Candidate, k: CapitalKind)
    requires |cs| == |kinds|
    ensures Picked(cs + [c], kinds + [k]) == Picked(cs, kinds) + if IsCapitalKind(k) then [c.flow] else []
  {
    assert (cs + [c])[..|cs|] == cs && (kinds + [k])[..|cs|] == kinds;
  }

  /** The kinds are those the receipts give. */
  ghost predicate AreKinds(cs: seq<Candidate>, kinds: seq<CapitalKind>, job: Job) {
    |kinds| == |cs| && forall j | 0 <= j < |cs| :: ReceiptOf(cs[j], job).Some? && kinds[j] == Kind(cs[j], job)
  }

  lemma {:induction false} PickedIsTheCapital(cs: seq<Candidate>, kinds: seq<CapitalKind>, job: Job)
    requires AreKinds(cs, kinds, job)
    ensures Picked(cs, kinds) == CapitalOf(cs, job)
  {
    if cs != [] {
      var n := |cs| - 1;
      PickedIsTheCapital(cs[..n], kinds[..n], job);
      assert IsCapital(cs[n], job) == IsCapitalKind(kinds[n]);
    }
  }

  lemma UnderstoodIffNoneAmbiguous(cs: seq<Candidate>, kinds: seq<CapitalKind>, job: Job)
    requires AreKinds(cs, kinds, job)
    ensures Understood(cs, job) <==> Ambiguous !in kinds
  {
    forall j | 0 <= j < |cs|
      ensures IsAmbiguous(cs[j], job) == (kinds[j] == Ambiguous)
    {
    }
    if Ambiguous in kinds {
      var j :| 0 <= j < |kinds| && kinds[j] == Ambiguous;
      assert cs[j] in cs && IsAmbiguous(cs[j], job);
    }
  }

  /** Classify the candidates one after another, keeping the capital; one ambiguous movement
    * refuses them all. `classify` gives each candidate's kind from its transaction's legs. */
  method KeepCapital(candidates: seq<Candidate>, classify: Candidate -> CapitalKind)
    returns (ok: bool, kept: seq<TransferFlow>)
    ensures var kinds := seq(|candidates|, j requires 0 <= j < |candidates| => classify(candidates[j]));
            && (ok <==> Ambiguous !in kinds)
            && (ok ==> kept == Picked(candidates, kinds))
  {
    kept := [];
    ghost var kinds := [];
    for i := 0 to |candidates|
      invariant kinds == seq(i, j requires 0 <= j < i => classify(candidates[j]))
      invariant kept == Picked(candidates[..i], kinds) && Ambiguous !in kinds
    {
      var c := candidates[i];
      var kind := classify(c);
      PickedOneMore(candidates[..i], kinds, c, kind);
      assert candidates[..i + 1] == candidates[..i] + [c];
      kinds := kinds + [kind];
      if kind.CapitalIn? || kind.CapitalOut? {
        kept := kept + [c.flow];
        continue;
      }
      if kind.Ambiguous? {
        ghost var all := seq(|candidates|, j requires 0 <= j < |candidates| => classify(candidates[j]));
        assert all[i] == Ambiguous;
        return false, kept;
      }
    }
    assert candidates[..|candidates|] == candidates;
    ok := true;
  }

  method FindTransferFlows(
    job: Job, inbound: Option<seq<RawLog>>, outbound: Option<seq<RawLog>>, fromBlock: nat, toBlock: nat)
    returns (flows: Option<seq<TransferFlow>>)
    ensures flows == PassOf(job, inbound, outbound, fromBlock, toBlock)
  {
    if toBlock < fromBlock { return Some([]); }
    if inbound.None? || outbound.None? { return None; }
    var candidates := Gather(inbound.value + outbound.value, job);
    var legs := ReadReceipts(candidates, job);
    if legs.None? { return None; }
    var legsByTx := legs.value;
    var classify := (c: Candidate) =>
      var tx := Lower(c.flow.txHash);
      KindOf(c, if tx in legsByTx then legsByTx[tx] else [], job.account, job.usdgToken, job.directory);
    var ok, out := KeepCapital(candidates, classify);
    ghost var kinds := seq(|candidates|, j requires 0 <= j < |candidates| => classify(candidates[j]));
    PickedIsTheCapital(candidates, kinds, job);
    UnderstoodIffNoneAmbiguous(candidates, kinds, job);
    if !ok { return None; }
    flows := Some(Sorting.SortBy(out, Before));
  }

  // ── what a pass finds ──────────────────────────────────────────────────────

  /** A log is named by its key. */
  ghost predicate KeysNameLogs(raw: seq<RawLog>) {
    forall a, b | a in raw && b in raw && Usable(a) && Usable(b) && KeyOfLog(a) == KeyOfLog(b) :: a == b
  }

  ghost predicate DistinctKeys(fs: seq<TransferFlow>) {
    forall i, j | 0 <= i < j < |fs| :: KeyOfFlow(fs[i]) != KeyOfFlow(fs[j])
  }

  /** A log the pass is looking for. */
  ghost predicate Sought(l: RawLog, raw: seq<RawLog>, job: Job) {
    && l in raw && Usable(l) && KeyOfLog(l) !in job.knownKeys
    && Crossing(l, job.account) && Lower(l.txHash) !in job.tradeTxHashes
  }

  ghost predicate CandidatesAreRight(raw: seq<RawLog>, job: Job, cs: seq<Candidate>) {
    && (forall c <- cs :: exists l <- raw :: Sought(l, raw, job) && c == CandidateOf(l, job.account))
    && (forall l <- raw | Sought(l, raw, job) :: CandidateOf(l, job.account) in cs)
    && (forall i, j | 0 <= i < j < |cs| :: KeyOfFlow(cs[i].flow) != KeyOfFlow(cs[j].flow))
  }

  lemma {:induction false} CandidatesAreTheSought(raw: seq<RawLog>, job: Job)
    requires KeysNameLogs(raw)
    ensures CandidatesAreRight(raw, job, CandidatesOf(raw, job))
  {
    if raw != [] {
      var n := |raw| - 1;
      var front, last := raw[..n], raw[n];
      assert raw == front + [last];
      CandidatesAreTheSought(front, job);
      var cs := CandidatesOf(front, job);
      var all := CandidatesOf(raw, job);
      var passes := Passes(last, SeenKeys(front, job.knownKeys), job);
      forall c <- all
        ensures exists l <- raw :: Sought(l, raw, job) && c == CandidateOf(l, job.account)
      {
        if c in cs {
          var l :| l in front && Sought(l, front, job) && c == CandidateOf(l, job.account);
          assert l in raw && Sought(l, raw, job);
        } else {
          assert passes && c == CandidateOf(last, job.account);
          assert last in raw && Sought(last, raw, job);
        }
      }
      forall l <- raw | Sought(l, raw, job)
        ensures CandidateOf(l, job.account) in all
      {
        if l in front {
          assert Sought(l, front, job);
        }
      }
      if passes {
        forall i | 0 <= i < |cs|
          ensures KeyOfFlow(cs[i].flow) != KeyOfLog(last)
        {
          assert cs[i] in cs;
          var l :| l in front && Sought(l, front, job) && cs[i] == CandidateOf(l, job.account);
          assert KeyOfLog(l) in SeenKeys(front, job.knownKeys);
        }
      }
    }
  }

  lemma {:induction false} CapitalIsTheCapitalOnes(cs: seq<Candidate>, job: Job, f: TransferFlow)
    ensures f in CapitalOf(cs, job) <==> exists c <- cs :: c.flow == f && IsCapital(c, job)
  {
    if cs != [] {
      var n := |cs| - 1;
      assert cs == cs[..n] + [cs[n]];
      assert forall c :: c in cs <==> c in cs[..n] || c == cs[n];
      CapitalIsTheCapitalOnes(cs[..n], job, f);
    }
  }

  lemma {:induction false} CapitalKeepsKeysDistinct(cs: seq<Candidate>, job: Job)
    requires forall i, j | 0 <= i < j < |cs| :: KeyOfFlow(cs[i].flow) != KeyOfFlow(cs[j].flow)
    ensures DistinctKeys(CapitalOf(cs, job))
  {
    if cs != [] {
      var n := |cs| - 1;
      CapitalKeepsKeysDistinct(cs[..n], job);
      var kept := CapitalOf(cs[..n], job);
      forall i | 0 <= i < |kept|
        ensures KeyOfFlow(kept[i]) != KeyOfFlow(cs[n].flow)
      {
        CapitalIsTheCapitalOnes(cs[..n], job, kept[i]);
        var c :| c in cs[..n] && c.flow == kept[i];
      }
    }
  }

  /** No flow of the list has this key. */
  ghost predicate KeyIsNew(f: TransferFlow, fs: seq<TransferFlow>) {
    forall g <- fs :: KeyOfFlow(g) != KeyOfFlow(f)
  }

  lemma DistinctOneMore(fs: seq<TransferFlow>, f: TransferFlow)
    ensures DistinctKeys(fs + [f]) <==> DistinctKeys(fs) && KeyIsNew(f, fs)
  {
    var all := fs + [f];
    if DistinctKeys(all) {
      forall i, j | 0 <= i < j < |fs|
        ensures KeyOfFlow(fs[i]) != KeyOfFlow(fs[j])
      {
        assert all[i] == fs[i] && all[j] == fs[j];
      }
      forall g <- fs
        ensures KeyOfFlow(g) != KeyOfFlow(f)
      {
        var i :| 0 <= i < |fs| && fs[i] == g;
        assert all[i] == g && all[|fs|] == f;
      }
    }
  }

  lemma {:induction false} PlacingKeepsKeysDistinct(f: TransferFlow, fs: seq<TransferFlow>)
    requires DistinctKeys(fs) && KeyIsNew(f, fs)
    ensures DistinctKeys(Sorting.Place(f, fs, Before))
    ensures forall g :: g in Sorting.Place(f, fs, Before) <==> g == f || g in fs
  {
    if fs == [] || Before(fs[|fs| - 1], f) {
      DistinctOneMore(fs, f);
    } else {
      var n := |fs| - 1;
      assert fs == fs[..n] + [fs[n]];
      DistinctOneMore(fs[..n], fs[n]);
      PlacingKeepsKeysDistinct(f, fs[..n]);
      DistinctOneMore(Sorting.Place(f, fs[..n], Before), fs[n]);
    }
  }

  lemma {:induction false} SortingKeepsKeysDistinct(fs: seq<TransferFlow>)
    requires DistinctKeys(fs)
    ensures DistinctKeys(Sorting.SortBy(fs, Before))
    ensures forall g :: g in Sorting.SortBy(fs, Before) <==> g in fs
  {
    if fs != [] {
      var n := |fs| - 1;
      assert fs == fs[..n] + [fs[n]];
      DistinctOneMore(fs[..n], fs[n]);
      SortingKeepsKeysDistinct(fs[..n]);
      PlacingKeepsKeysDistinct(fs[n], Sorting.SortBy(fs[..n], Before));
    }
  }

  lemma BeforeIsTotal()
    ensures Sorting.TotalOrder(Before)
  {
  }

  /** A sought log whose receipt was read and says it is capital. */
  ghost predicate Takes(l: RawLog, raw: seq<RawLog>, job: Job) {
    && Sought(l, raw, job)
    && IsCapital(CandidateOf(l, job.account), job)
  }

  /** A pass refuses exactly when it is looking for some log it cannot decide: one whose
    * receipt could not be read, or whose movement is ambiguous. */
  lemma PassRefusesIff(raw: seq<RawLog>, job: Job)
    requires KeysNameLogs(raw)
    ensures FlowsOf(raw, job).None? <==> exists l <- raw :: Undecided(l, raw, job)
  {
    var cs := CandidatesOf(raw, job);
    CandidatesAreTheSought(raw, job);
    if c :| c in cs && (ReceiptOf(c, job).None? || IsAmbiguous(c, job)) {
      var l :| l in raw && Sought(l, raw, job) && c == CandidateOf(l, job.account);
      assert Undecided(l, raw, job);
    }
    if l :| l in raw && Undecided(l, raw, job) {
      assert CandidateOf(l, job.account) in cs;
    }
  }

  ghost predicate Undecided(l: RawLog, raw: seq<RawLog>, job: Job) {
    && Sought(l, raw, job)
    && (ReceiptOf(CandidateOf(l, job.account), job).None? || IsAmbiguous(CandidateOf(l, job.account), job))
  }

  /** A pass that answers returns exactly the flows it is looking for that are capital, in
    * the order they happened, none of them twice and none that was booked before. */
  lemma PassFindsTheCapital(raw: seq<RawLog>, job: Job)
    requires KeysNameLogs(raw) && FlowsOf(raw, job).Some?
    ensures var out := FlowsOf(raw, job).value;
            && Sorting.Sorted(out, Before)
            && DistinctKeys(out)
            && (forall f <- out :: KeyOfFlow(f) !in job.knownKeys)
            && (forall f :: f in out <==> exists l <- raw :: Takes(l, raw, job) && f == CandidateOf(l, job.account).flow)
    ensures forall l <- raw | Sought(l, raw, job) :: ReceiptOf(CandidateOf(l, job.account), job).Some?
  {
    var cs := CandidatesOf(raw, job);
    CandidatesAreTheSought(raw, job);
    CapitalKeepsKeysDistinct(cs, job);
    SortingKeepsKeysDistinct(CapitalOf(cs, job));
    BeforeIsTotal();
    Sorting.SortBySorts(CapitalOf(cs, job), Before);
    var out := FlowsOf(raw, job).value;
    forall f
      ensures f in out <==> exists l <- raw :: Takes(l, raw, job) && f == CandidateOf(l, job.account).flow
    {
      CapitalIsTheCapitalOnes(cs, job, f);
      if f in out {
        var c :| c in cs && c.flow == f && IsCapital(c, job);
        var l :| l in raw && Sought(l, raw, job) && c == CandidateOf(l, job.account);
        assert Takes(l, raw, job);
      }
      if l :| l in raw && Takes(l, raw, job) && f == CandidateOf(l, job.account).flow {
        assert CandidateOf(l, job.account) in cs;
      }
    }
  }
}
