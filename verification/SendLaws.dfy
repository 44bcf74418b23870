/** What the send edge keeps: over one execution, and over every run of them. */
module SendLaws {
  import opened Text
  import opened GasLimits
  import Nonce = KernelNonce
  import opened SendEdge

  // ── counting what a log holds ──────────────────────────────────────────────

  function Sends(log: seq<Event>): nat {
    if log == [] then 0 else Sends(log[..|log| - 1]) + (if log[|log| - 1].Sent? then 1 else 0)
  }

  function Reads(log: seq<Event>): nat {
    if log == [] then 0 else Reads(log[..|log| - 1]) + (if log[|log| - 1].ReceiptRead? then 1 else 0)
  }

  lemma {:induction false} CountsAdd(a: seq<Event>, b: seq<Event>)
    ensures Sends(a + b) == Sends(a) + Sends(b)
    ensures Reads(a + b) == Reads(a) + Reads(b)
  {
    if b == [] {
      assert a + b == a;
    } else {
      assert (a + b)[..|a + b| - 1] == a + b[..|b| - 1];
      CountsAdd(a, b[..|b| - 1]);
    }
  }

  lemma {:induction false} CountsOfQuiet(log: seq<Event>)
    requires forall e <- log :: !e.Sent?
    ensures Sends(log) == 0
    ensures Reads(log) <= |log|
    ensures (forall e <- log :: !e.ReceiptRead?) ==> Reads(log) == 0
  {
    if log != [] {
      CountsOfQuiet(log[..|log| - 1]);
    }
  }

  // ── one execution ──────────────────────────────────────────────────────────

  /** A send is the step right after the hook's, for the same hash; without a hook it is
    * the step right after its own signature. */
  ghost predicate SentInOrder(log: seq<Event>, i: nat, hooked: bool)
    requires i < |log|
  {
    log[i].Sent? ==>
      && i > 0
      && (if hooked then log[i - 1] == Persisting(log[i].hash) else log[i - 1] == Signed(log[i].op))
  }

  ghost predicate Orderly(log: seq<Event>, hooked: bool) {
    forall i: nat | i < |log| :: SentInOrder(log, i, hooked)
  }

  predicate WentOut(o: Outcome) {
    o.Unresolved? || o.Reverted? || o.Landed?
  }

  lemma OrderlyConcat(a: seq<Event>, b: seq<Event>, hooked: bool)
    requires Orderly(a, hooked) && Orderly(b, hooked)
    ensures Orderly(a + b, hooked)
  {
    forall i: nat | i < |a + b| ensures SentInOrder(a + b, i, hooked) {
      if i < |a| {
        assert SentInOrder(a, i, hooked);
      } else {
        assert SentInOrder(b, i - |a|, hooked);
      }
    }
  }

  lemma AfterSendShape(w: World, hash: string)
    ensures var s := AfterSend(w, hash);
            Sends(s.events) == 0 && Reads(s.events) <= 3 && Orderly(s.events, true) && Orderly(s.events, false)
            && WentOut(s.outcome)
  {
    CountsOfQuiet(AfterSend(w, hash).events);
  }

  /** The steps from the signature to the send. */
  lemma SendShape(signed: SignedOp, hash: string, hooked: bool)
    ensures var steps := (if hooked then [Signed(signed), Persisting(hash)] else [Signed(signed)]) + [Sent(signed, hash)];
            Sends(steps) == 1 && Reads(steps) == 0 && Orderly(steps, hooked)
  {
    var persisted := if hooked then [Signed(signed), Persisting(hash)] else [Signed(signed)];
    CountsOfQuiet(persisted);
    assert (persisted + [Sent(signed, hash)])[..|persisted|] == persisted;
  }

  /** What the part from the signature on does, spelled out. */
  lemma TailShape(w: World, op: PreparedOp, hooked: bool)
    ensures var s := AfterGate(w, op, hooked);
            && Sends(s.events) == (if WentOut(s.outcome) then 1 else 0)
            && Reads(s.events) <= 3
            && Orderly(s.events, hooked)
            && !s.outcome.Refused?
            && (WentOut(s.outcome) <==> w.sign(op).Some? && (hooked ==> w.hookCompletes))
  {
    if w.sign(op).Some? {
      var signed := SignedOp(op, w.sign(op).value);
      var hash := w.hashOf(signed);
      if hooked && !w.hookCompletes {
        CountsOfQuiet([Signed(signed), Persisting(hash)]);
      } else {
        var steps := (if hooked then [Signed(signed), Persisting(hash)] else [Signed(signed)]) + [Sent(signed, hash)];
        SendShape(signed, hash, hooked);
        AfterSendShape(w, hash);
        CountsAdd(steps, AfterSend(w, hash).events);
        OrderlyConcat(steps, AfterSend(w, hash).events, hooked);
      }
    }
  }

  /** One execution sends at most once. A send means the outcome is one of the three that
    * say so; a refusal comes before any signature; a hook that throws stops the send; and
    * only the receipt read repeats, three times at most. */
  lemma SendsAtMostOnce(w: World, sponsored: bool, hooked: bool)
    ensures var s := StoryOf(w, sponsored, hooked);
            && Sends(s.events) == (if WentOut(s.outcome) then 1 else 0)
            && Reads(s.events) <= 3
            && Orderly(s.events, hooked)
            && (s.outcome.Refused? ==> forall e <- s.events :: e == Estimated)
            && (s.outcome.Refused? <==> GateOf(w, sponsored).Stop?)
            && (hooked && !w.hookCompletes ==> Sends(s.events) == 0)
            && (WentOut(s.outcome) <==>
                  GateOf(w, sponsored).Go? && w.sign(GateOf(w, sponsored).op).Some? && (hooked ==> w.hookCompletes))
  {
    var before := EstimatesOf(w);
    CountsOfQuiet(before);
    var gate := GateOf(w, sponsored);
    if gate.Go? {
      TailShape(w, gate.op, hooked);
      CountsAdd(before, AfterGate(w, gate.op, hooked).events);
      OrderlyConcat(before, AfterGate(w, gate.op, hooked).events, hooked);
    }
  }

  /** The first of the reads that answered. */
  ghost predicate AnswersAt(w: World, k: nat, receipt: Receipt) {
    && 1 <= k <= 3
    && w.receipts(k) == Some(receipt)
    && forall j | 1 <= j < k :: w.receipts(j).None?
  }

  lemma {:induction false} ReadingMeans(w: World, hash: string, attempt: nat)
    requires 1 <= attempt <= RECEIPT_ATTEMPTS + 1
    requires forall j | 1 <= j < attempt :: w.receipts(j).None?
    ensures var r := ReadsFrom(w, hash, attempt).1;
            && (r.Some? ==> exists k :: AnswersAt(w, k, r.value))
            && (r.None? ==> forall j | 1 <= j <= 3 :: w.receipts(j).None?)
    decreases RECEIPT_ATTEMPTS + 1 - attempt
  {
    if attempt <= RECEIPT_ATTEMPTS {
      if w.receipts(attempt).Some? {
        assert AnswersAt(w, attempt, w.receipts(attempt).value);
      } else {
        ReadingMeans(w, hash, attempt + 1);
      }
    }
  }

  /** A verdict about the chain is only ever the chain's: landed and reverted each need the
    * bundler to have accepted this very hash and the first answering read to say so.
    * Everything else that went out is unresolved. */
  lemma VerdictsAreTheChains(w: World, sponsored: bool, hooked: bool)
    requires WentOut(StoryOf(w, sponsored, hooked).outcome)
    ensures var o := StoryOf(w, sponsored, hooked).outcome;
            var hash := w.hashOf(SignedOp(GateOf(w, sponsored).op, w.sign(GateOf(w, sponsored).op).value));
            var taken := w.accepted.Some? && Lower(w.accepted.value) == Lower(hash);
            && o.hash == hash
            && (o.Landed? <==> taken && exists k, r :: AnswersAt(w, k, r) && r.success)
            && (o.Reverted? <==> taken && exists k, r :: AnswersAt(w, k, r) && !r.success)
            && (o.Unresolved? <==> !taken || forall j | 1 <= j <= 3 :: w.receipts(j).None?)
  {
    SendsAtMostOnce(w, sponsored, hooked);
    var op := GateOf(w, sponsored).op;
    var hash := w.hashOf(SignedOp(op, w.sign(op).value));
    ReadingMeans(w, hash, 1);
    assert StoryOf(w, sponsored, hooked).outcome == AfterSend(w, hash).outcome;
    forall k, r, m, q | AnswersAt(w, k, r) && AnswersAt(w, m, q) ensures k == m && r == q {
    }
  }

  // ── every run of executions ────────────────────────────────────────────────

  /** The log after executing these operations in turn, every one with the hook. */
  function RunLog(worlds: seq<World>, sponsored: bool): seq<Event> {
    if worlds == [] then []
    else RunLog(worlds[..|worlds| - 1], sponsored) + StoryOf(worlds[|worlds| - 1], sponsored, true).events
  }

  /** How many of them ended in an outcome that says the operation went out. */
  function OutCount(worlds: seq<World>, sponsored: bool): nat {
    if worlds == [] then 0
    else OutCount(worlds[..|worlds| - 1], sponsored)
         + (if WentOut(StoryOf(worlds[|worlds| - 1], sponsored, true).outcome) then 1 else 0)
  }

  /** Over any run with the hook supplied, every broadcast is the step right after the hook
    * was run for the same hash, and there are exactly as many broadcasts as outcomes
    * reporting one: nothing is ever sent twice or unaccounted for. */
  lemma {:induction false} EveryRunPersistsBeforeItSends(worlds: seq<World>, sponsored: bool)
    ensures Orderly(RunLog(worlds, sponsored), true)
    ensures Sends(RunLog(worlds, sponsored)) == OutCount(worlds, sponsored)
  {
    if worlds != [] {
      var front, last := worlds[..|worlds| - 1], worlds[|worlds| - 1];
      EveryRunPersistsBeforeItSends(front, sponsored);
      SendsAtMostOnce(last, sponsored, true);
      OrderlyConcat(RunLog(front, sponsored), StoryOf(last, sponsored, true).events, true);
      CountsAdd(RunLog(front, sponsored), StoryOf(last, sponsored, true).events);
    }
  }

  // ── what gets signed ───────────────────────────────────────────────────────

  /** The operation is shaped like an enable that was never included, and the chain shows
    * the permission it names is not installed. */
  predicate WideCeilingEarned(w: World) {
    && w.nonce.Some? && Nonce.IsFirstEnable(w.nonce.value) && Nonce.NonceSequence(w.nonce.value) == 0
    && ShownAbsent(w.enableCode, w.config)
  }

  /** The wide ceiling is granted exactly when it is earned, and an enable that is not
    * earned never reaches a signature. */
  lemma WideCeilingIff(w: World)
    requires w.nonce.Some?
    ensures var enable := ReadEnableState(w.nonce.value, w.enableCode, w.config);
            && (Ceiling(enable) == FIRST_ENABLE_GAS_BOUNDS <==> WideCeilingEarned(w))
            && (EnableRefusal(enable).Some? <==> Nonce.IsFirstEnable(w.nonce.value) && !WideCeilingEarned(w))
  {
  }

  /** What has to hold for an operation to reach its signature, and nothing more. */
  lemma ReachesTheSignatureIff(w: World, sponsored: bool)
    ensures GateOf(w, sponsored).Go? <==>
              && w.encodes && w.nonce.Some?
              && (Nonce.IsFirstEnable(w.nonce.value) ==> WideCeilingEarned(w))
              && var bounds := if WideCeilingEarned(w) then FIRST_ENABLE_GAS_BOUNDS else GAS_BOUNDS;
                 var v := VerdictOf(Answer(w.firstEstimate), SecondAnswer(w), bounds, sponsored);
              && v.Bounded? && w.prepare(v.gas).Some?
              && var op := w.prepare(v.gas).value;
              && (sponsored ==> SponsorLimits(w.stub, w.data).Sponsored? && BoundsHeld(v.gas, op.gas))
              && (!sponsored ==>
                    && op.maxFeePerGas.Some? && op.maxFeePerGas.value > 0 && w.balance.Some? && w.deposit.Some?
                    && TotalGas(v.gas) * op.maxFeePerGas.value <= w.deposit.value + w.balance.value)
  {
    if w.nonce.Some? {
      WideCeilingIff(w);
    }
  }

  // ── which refusal it is ────────────────────────────────────────────────────

  /** Shaped like an enable, and whatever else the node and the nonce have to say of it. */
  predicate Enables(w: World) {
    w.encodes && w.nonce.Some? && Nonce.IsFirstEnable(w.nonce.value)
  }

  /** The code and, where there is some, the whole permission record could be read. */
  predicate EnableReadable(w: World) {
    || w.enableCode == NoCode
    || (w.enableCode == HasCode && w.config.ConfigAnswered? && w.config.chars >= 194)
  }

  /** An enable is refused as replayed when it has a sequence, as unverified when the chain
    * could not be read and as redundant when the record names a signer. */
  lemma EnableRefusedBecause(w: World, sponsored: bool)
    ensures var g := GateOf(w, sponsored);
            && (g == Stop(EnableReplayed) <==> Enables(w) && Nonce.NonceSequence(w.nonce.value) > 0)
            && (g == Stop(EnableUnverified) <==>
                  Enables(w) && Nonce.NonceSequence(w.nonce.value) == 0 && !EnableReadable(w))
            && (g == Stop(EnableRedundant) <==>
                  && Enables(w) && Nonce.NonceSequence(w.nonce.value) == 0 && EnableReadable(w)
                  && w.enableCode == HasCode && w.config.signerWord > 0)
  {
  }

  /** The limit the final reply states, else the stub's, else ours. */
  function Settled(data: Option<int>, stub: Option<int>, ours: int): int {
    match (data, stub)
    case (Some(v), _) => v
    case (None, Some(v)) => v
    case (None, None) => ours
  }

  /** A sponsor is accepted when it answers as often as it has to with no limit above
    * 500,000, and its limits are then the last it stated of each, or 200,000 and 100,000. */
  lemma SponsoredIff(stub: SponsorReply, data: SponsorReply)
    ensures var s := SponsorLimits(stub, data);
            var stated := stub.Offered? && Settled(None, stub.verificationGas, 200_000) <= 500_000
                          && Settled(None, stub.postOpGas, 100_000) <= 500_000;
            && (s == Unsponsored(SponsorUnreachable) <==> stub == NoAnswer)
            && (s == Unsponsored(SponsorDeclined) <==> stated && !stub.isFinal && data == NoAnswer)
            && (s.Sponsored? && stub.isFinal ==>
                  stated && s == Sponsored(Settled(None, stub.verificationGas, 200_000), Settled(None, stub.postOpGas, 100_000)))
            && (s.Sponsored? && !stub.isFinal ==>
                  && stated && data.Offered?
                  && s == Sponsored(Settled(data.verificationGas, stub.verificationGas, 200_000),
                                    Settled(data.postOpGas, stub.postOpGas, 100_000)))
            && (s == Unsponsored(SponsorAbsurd) <==>
                  stub.Offered? && (!stated || (!stub.isFinal && data.Offered? &&
                    (Settled(data.verificationGas, stub.verificationGas, 200_000) > 500_000
                     || Settled(data.postOpGas, stub.postOpGas, 100_000) > 500_000))))
            && (s.Sponsored? || s.rule in {SponsorUnreachable, SponsorDeclined, SponsorAbsurd})
  {
  }

  /** The limits an operation is prepared with. */
  ghost predicate PreparedWith(w: World, sponsored: bool, v: GasVerdict, op: PreparedOp) {
    && w.encodes && w.nonce.Some?
    && (Nonce.IsFirstEnable(w.nonce.value) ==> WideCeilingEarned(w))
    && v == VerdictOf(Answer(w.firstEstimate), SecondAnswer(w),
                      if WideCeilingEarned(w) then FIRST_ENABLE_GAS_BOUNDS else GAS_BOUNDS, sponsored)
    && v.Bounded? && w.prepare(v.gas) == Some(op)
  }

  /** Whom a prepared operation is refused for: the account when its own prefund is short or
    * cannot be worked out, the sponsor for its own reasons or for a limit it changed. */
  lemma PreparedIsRefusedBecause(w: World, sponsored: bool, v: GasVerdict, op: PreparedOp)
    requires PreparedWith(w, sponsored, v, op)
    ensures var g := GateOf(w, sponsored); var s := SponsorLimits(w.stub, w.data);
            var known := op.maxFeePerGas.Some? && op.maxFeePerGas.value > 0 && w.balance.Some? && w.deposit.Some?;
            && (sponsored && s.Unsponsored? ==> g == Stop(s.rule))
            && (sponsored && s.Sponsored? && !BoundsHeld(v.gas, op.gas) ==> g == Stop(SponsorAbsurd))
            && (g == Stop(PrefundUnverified) <==> !sponsored && !known)
            && (g == Stop(PrefundShort) <==>
                  !sponsored && known && w.balance.value + w.deposit.value < TotalGas(v.gas) * op.maxFeePerGas.value)
  {
    WideCeilingIff(w);
    SponsoredIff(w.stub, w.data);
    assert ReadEnableState(w.nonce.value, w.enableCode, w.config).FreshEnable? <==> WideCeilingEarned(w);
  }

  // ── both quotes bind ───────────────────────────────────────────────────────

  /** A quote naming the three limits every operation carries. */
  predicate Complete(e: Estimate) {
    e.Quoted? && e.gas.callGasLimit.Some? && e.gas.verificationGasLimit.Some? && e.gas.preVerificationGas.Some?
  }

  function QuotedTotal(e: Estimate): int
    requires e.Quoted?
  {
    OrZero(e.gas.callGasLimit) + OrZero(e.gas.verificationGasLimit) + OrZero(e.gas.preVerificationGas)
    + OrZero(e.gas.paymasterVerificationGasLimit) + OrZero(e.gas.paymasterPostOpGasLimit)
  }

  /** The limits `gas` are what headroom makes of this very quote. */
  predicate CoversQuote(gas: UserOpGas, e: Estimate)
    requires Complete(e)
  {
    && gas.callGasLimit == 2 * e.gas.callGasLimit.value
    && e.gas.verificationGasLimit.value <= gas.verificationGasLimit
    && 4 * gas.verificationGasLimit <= 5 * e.gas.verificationGasLimit.value
    && e.gas.preVerificationGas.value <= gas.preVerificationGas
    && 4 * gas.preVerificationGas <= 5 * e.gas.preVerificationGas.value
    && CarriedAsItIs(e.gas.paymasterVerificationGasLimit, gas.paymasterVerificationGasLimit)
    && CarriedAsItIs(e.gas.paymasterPostOpGasLimit, gas.paymasterPostOpGasLimit)
  }

  /** Nothing is signed on a first quote that is incomplete; a second one that is complete
    * counts as much as the first. They are within four times of each other, and what is
    * signed has its headroom over the dearer of them. */
  lemma BothQuotesBind(w: World, sponsored: bool)
    requires GateOf(w, sponsored).Go?
    ensures var gas := GateOf(w, sponsored).gas; var a, b := w.firstEstimate, w.secondEstimate;
            && Complete(a)
            && (!Complete(b) ==> CoversQuote(gas, a))
            && (Complete(b) ==>
                  && WithinFourTimes(QuotedTotal(a), QuotedTotal(b))
                  && (QuotedTotal(a) >= QuotedTotal(b) ==> CoversQuote(gas, a))
                  && (QuotedTotal(a) < QuotedTotal(b) ==> CoversQuote(gas, b)))
  {
    var enable := ReadEnableState(w.nonce.value, w.enableCode, w.config);
    var first, second := Answer(w.firstEstimate), SecondAnswer(w);
    SignedGasIsBounded(first, second, Ceiling(enable), sponsored);
    RefusedBecause(first, second, Ceiling(enable), sponsored);
  }

  /** How often the bundler is asked to estimate: never for an operation that cannot be
    * encoded, has no nonce or is an enable nobody needs; once when its first quote is
    * incomplete; twice otherwise. Nothing else precedes a refusal, and nothing asks later. */
  lemma AsksTheBundlerTwice(w: World, sponsored: bool, hooked: bool)
    ensures var log := StoryOf(w, sponsored, hooked).events;
            var due := w.encodes && w.nonce.Some? && (Nonce.IsFirstEnable(w.nonce.value) ==> WideCeilingEarned(w));
            var asked := if !due then 0 else if !Complete(w.firstEstimate) then 1 else 2;
            && asked <= |log|
            && forall i | 0 <= i < |log| :: log[i] == Estimated <==> i < asked
  {
    if w.nonce.Some? { WideCeilingIff(w); }
    var gate := GateOf(w, sponsored);
    if gate.Go? {
      var rest := AfterGate(w, gate.op, hooked).events;
      forall e <- rest ensures e != Estimated {
      }
    }
  }

  /** The limits of the prepared operation are the ones it was given. */
  predicate LimitsKept(gas: UserOpGas, op: PreparedOp) {
    && op.gas.callGasLimit == Some(gas.callGasLimit)
    && op.gas.verificationGasLimit == Some(gas.verificationGasLimit)
    && op.gas.preVerificationGas == Some(gas.preVerificationGas)
    && OrZero(op.gas.paymasterVerificationGasLimit) == OrZero(gas.paymasterVerificationGasLimit)
    && OrZero(op.gas.paymasterPostOpGasLimit) == OrZero(gas.paymasterPostOpGasLimit)
  }

  function ReportedTotal(op: PreparedOp): int {
    OrZero(op.gas.callGasLimit) + OrZero(op.gas.verificationGasLimit) + OrZero(op.gas.preVerificationGas)
    + OrZero(op.gas.paymasterVerificationGasLimit) + OrZero(op.gas.paymasterPostOpGasLimit)
  }

  /** Whatever reaches the signature carries at most 3,000,000 gas, or 12,000,000 for an
    * enable the chain shows is needed; it lies between one and two times the dearer of the
    * two estimates; and an operation that pays for itself was seen to hold its prefund at
    * the very fee it carries. */
  lemma WhatIsSignedIsBounded(w: World, sponsored: bool)
    requires GateOf(w, sponsored).Go?
    requires LimitsKept(GateOf(w, sponsored).gas, GateOf(w, sponsored).op)
    ensures var g := GateOf(w, sponsored);
            var chosen := Dearer(Answer(w.firstEstimate).value, SecondAnswer(w));
            && ReportedTotal(g.op) <= (if WideCeilingEarned(w) then 12_000_000 else 3_000_000)
            && Answer(w.firstEstimate).Some?
            && CoreGas(chosen) <= CoreGas(g.gas) <= 2 * CoreGas(chosen)
            && (!sponsored ==>
                  && CoreGas(chosen) <= ReportedTotal(g.op) <= 2 * CoreGas(chosen)
                  && g.op.maxFeePerGas.Some? && w.balance.Some? && w.deposit.Some?
                  && ReportedTotal(g.op) * g.op.maxFeePerGas.value <= w.deposit.value + w.balance.value)
  {
    var enable := ReadEnableState(w.nonce.value, w.enableCode, w.config);
    WideCeilingIff(w);
    var g := GateOf(w, sponsored);
    SignedGasIsBounded(Answer(w.firstEstimate), SecondAnswer(w), Ceiling(enable), sponsored);
    assert ReportedTotal(g.op) == TotalGas(g.gas);
  }

  /** What the EntryPoint would ask of the account for these limits at this operation's fee. */
  function PrefundOf(w: World, total: int, op: PreparedOp): Option<Funds>
    requires op.maxFeePerGas.Some? && w.balance.Some? && w.deposit.Some?
  {
    Prefund(total * op.maxFeePerGas.value, Funds(w.deposit.value, w.balance.value))
  }

  /** An operation that pays for itself is prefunded by the EntryPoint when it was signed, and
    * would not have been when it was refused as short: the gate is neither lax nor strict. */
  lemma SignedIffPrefunded(w: World)
    requires w.balance.Some? ==> w.balance.value >= 0
    ensures var g := GateOf(w, false);
            g.Go? && LimitsKept(g.gas, g.op) ==>
              && g.op.maxFeePerGas.Some? && w.balance.Some? && w.deposit.Some?
              && PrefundOf(w, ReportedTotal(g.op), g.op).Some?
    ensures GateOf(w, false) == Stop(PrefundShort) ==>
              var enable := ReadEnableState(w.nonce.value, w.enableCode, w.config);
              var v := VerdictOf(Answer(w.firstEstimate), SecondAnswer(w), Ceiling(enable), false);
              && v.Bounded? && w.prepare(v.gas).Some?
              && var op := w.prepare(v.gas).value;
              && op.maxFeePerGas.Some? && w.balance.Some? && w.deposit.Some?
              && PrefundOf(w, v.total, op).None?
  {
    var g := GateOf(w, false);
    if g.Go? {
      CoveredIffPrefunded(g.gas, g.op.maxFeePerGas, w.balance, w.deposit);
      if LimitsKept(g.gas, g.op) { assert ReportedTotal(g.op) == TotalGas(g.gas); }
    }
    if g == Stop(PrefundShort) {
      var enable := ReadEnableState(w.nonce.value, w.enableCode, w.config);
      var v := VerdictOf(Answer(w.firstEstimate), SecondAnswer(w), Ceiling(enable), false);
      assert EnableRefusal(enable).None? && v.Bounded? && v.total == TotalGas(v.gas);
      var op := w.prepare(v.gas).value;
      CoveredIffPrefunded(v.gas, op.maxFeePerGas, w.balance, w.deposit);
    }
  }

  /** Under a sponsor nothing need be taken on trust about the three limits: any the
    * prepared operation reports is the one that was bounded. */
  lemma SponsoredLimitsAreHeld(w: World)
    requires GateOf(w, true).Go?
    ensures BoundsHeld(GateOf(w, true).gas, GateOf(w, true).op.gas)
  {
  }

  /** The three limits are all reported back. */
  predicate ReportsTheThree(op: PreparedOp) {
    op.gas.callGasLimit.Some? && op.gas.verificationGasLimit.Some? && op.gas.preVerificationGas.Some?
  }

  function CeilingOf(w: World): int {
    if WideCeilingEarned(w) then 12_000_000 else 3_000_000
  }

  /** A reply that passed has two limits of at most 500,000 each; the dearest that passes has
    * exactly that. */
  lemma SponsorLimitsAreCapped(stub: SponsorReply, data: SponsorReply)
    ensures var s := SponsorLimits(stub, data);
            s.Sponsored? ==> s.verificationGas <= PAYMASTER_GAS_MAX && s.postOpGas <= PAYMASTER_GAS_MAX
    ensures SponsorLimits(Offered(Some(PAYMASTER_GAS_MAX), Some(PAYMASTER_GAS_MAX), true), data) ==
            Sponsored(PAYMASTER_GAS_MAX, PAYMASTER_GAS_MAX)
  {
  }

  /** The sponsor's own two limits are not compared again after the operation is prepared, so
    * a sponsored operation can pass its ceiling, by what the two come to and never by more
    * than 1,000,000 gas. */
  lemma SponsoredTotalIsCapped(w: World)
    requires GateOf(w, true).Go? && ReportsTheThree(GateOf(w, true).op)
    ensures var g := GateOf(w, true); var s := SponsorLimits(w.stub, w.data);
            && CoreGas(g.gas) <= CeilingOf(w)
            && s.Sponsored? && ReportedTotal(g.op) == CoreGas(g.gas) + s.verificationGas + s.postOpGas
            && ReportedTotal(g.op) <= CeilingOf(w) + 1_000_000
  {
    WideCeilingIff(w);
    SponsoredLimitsAreHeld(w);
    SponsorLimitsAreCapped(w.stub, w.data);
    SignedGasIsBounded(Answer(w.firstEstimate), SecondAnswer(w),
                       Ceiling(ReadEnableState(w.nonce.value, w.enableCode, w.config)), true);
  }

  /** The same operation before another sponsor. */
  function Facing(w: World, stub: SponsorReply, data: SponsorReply): World {
    w.(stub := stub, data := data)
  }

  ghost predicate StaysUnder(w: World, stub: SponsorReply, data: SponsorReply) {
    var g := GateOf(Facing(w, stub, data), true);
    g.Go? ==> ReportedTotal(g.op) <= CeilingOf(w)
  }

  /** Known before anybody is asked to sponsor: the operation stays under its ceiling
    * whatever a sponsor answers if and only if its three limits leave 1,000,000 gas of it. */
  lemma StaysUnderForEverySponsorIff(w: World)
    requires GateOf(w, true).Go? && ReportsTheThree(GateOf(w, true).op)
    ensures (forall stub, data :: StaysUnder(w, stub, data)) <==>
              CoreGas(GateOf(w, true).gas) + 1_000_000 <= CeilingOf(w)
  {
    forall stub, data | CoreGas(GateOf(w, true).gas) + 1_000_000 <= CeilingOf(w)
      ensures StaysUnder(w, stub, data)
    {
      SponsorChangesNothingElse(w, stub, data);
      if GateOf(Facing(w, stub, data), true).Go? { SponsoredTotalIsCapped(Facing(w, stub, data)); }
    }
    var dearest := Offered(Some(PAYMASTER_GAS_MAX), Some(PAYMASTER_GAS_MAX), true);
    SponsorChangesNothingElse(w, dearest, NoAnswer);
    SponsorLimitsAreCapped(dearest, NoAnswer);
    SponsoredTotalIsCapped(Facing(w, dearest, NoAnswer));
    assert StaysUnder(w, dearest, NoAnswer) <==> CoreGas(GateOf(w, true).gas) + 1_000_000 <= CeilingOf(w);
  }

  /** Another sponsor changes the paymaster's two limits or stops the operation, no more. */
  lemma SponsorChangesNothingElse(w: World, stub: SponsorReply, data: SponsorReply)
    requires GateOf(w, true).Go?
    ensures var g, h := GateOf(w, true), GateOf(Facing(w, stub, data), true);
            && (h.Go? <==> SponsorLimits(stub, data).Sponsored?)
            && (h.Go? ==> h.gas == g.gas && (ReportsTheThree(h.op) <==> ReportsTheThree(g.op)))
            && CeilingOf(Facing(w, stub, data)) == CeilingOf(w)
  {
  }

  /** And such an operation is reached: 2,625,000 gas bounded, 3,625,000 signed. */
  lemma SponsoredOverTheCeiling()
    ensures exists w :: GateOf(w, true).Go? && CeilingOf(w) == 3_000_000 && ReportedTotal(GateOf(w, true).op) == 3_625_000
  {
    var quote := Quoted(ReportedGas(Some(1_000_000), Some(400_000), Some(100_000), None, None));
    var dearest := Offered(Some(PAYMASTER_GAS_MAX), Some(PAYMASTER_GAS_MAX), true);
    var keep := (g: UserOpGas) =>
      Some(PreparedOp(ReportedGas(Some(g.callGasLimit), Some(g.verificationGasLimit), Some(g.preVerificationGas), None, None),
                      Some(1), ""));
    var w := World(true, HasCode, Some(0), NoCode, ConfigFailed, quote, quote, keep, dearest, NoAnswer,
                   None, None, (op: PreparedOp) => None, (op: SignedOp) => "", true, None, (n: nat) => None);
    var first := UserOpGas(1_000_000, 400_000, 100_000, None, None);
    assert Candidates(first, Some(first)) == [first, first];
    var bounded := UserOpGas(2_000_000, 500_000, 125_000, None, None);
    assert Raised(first, GAS_BOUNDS) == bounded;
    assert VerdictOf(Some(first), Some(first), GAS_BOUNDS, true) == Bounded(bounded, 2_625_000);
    assert !Nonce.IsFirstEnable(0);
    assert GateOf(w, true) == PrepareGate(w, true, bounded, 2_625_000);
  }
}
