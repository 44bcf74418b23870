/** The one place an operation is signed and broadcast (worker/src/executor.ts). Every reply
  * of the node, the bundler and the caller's hook is a value of `World`; a call that throws
  * answers None, or false for the hook. */
module SendEdge {
  import opened Text
  import opened GasLimits
  import Nonce = KernelNonce

  // ── is the enable one anybody needs ────────────────────────────────────────

  datatype CodeReply = CodeFailed | NoCode | HasCode

  /** `permissionConfig(id)`: how many characters came back, and the third word of them. */
  datatype ConfigReply = ConfigFailed | ConfigAnswered(chars: nat, signerWord: nat)

  const SHORTEST_CONFIG := 2 + 64 * 3
  const ADDRESS_SPACE: nat := 0x1_0000_0000_0000_0000_0000_0000_0000_0000_0000_0000

  datatype EnableState =
    | NotAnEnable
    | FreshEnable(permissionId: nat)
    | ReplayedEnable(permissionId: nat, sequence: nat)
    | AlreadyInstalled(permissionId: nat, signer: nat)
    | Unreadable(permissionId: nat)

  function ReadEnableState(nonce: nat, code: CodeReply, config: ConfigReply): EnableState {
    if !Nonce.IsFirstEnable(nonce) then NotAnEnable
    else
      var id := Nonce.NoncePermissionId(nonce);
      if Nonce.NonceSequence(nonce) != 0 then ReplayedEnable(id, Nonce.NonceSequence(nonce))
      else if code.CodeFailed? then Unreadable(id)
      else if code.NoCode? then FreshEnable(id)
      else if config.ConfigFailed? || config.chars < SHORTEST_CONFIG then Unreadable(id)
      else if config.signerWord == 0 then FreshEnable(id)
      else AlreadyInstalled(id, config.signerWord % ADDRESS_SPACE)
  }

  /** The chain was asked, and said the permission the nonce names is not installed. */
  predicate ShownAbsent(code: CodeReply, config: ConfigReply) {
    || code.NoCode?
    || (code.HasCode? && config.ConfigAnswered? && config.chars >= SHORTEST_CONFIG && config.signerWord == 0)
  }

  // ── the world, and what the executor does in it ────────────────────────────

  datatype Estimate = NoQuote | Quoted(gas: ReportedGas)

  datatype PreparedOp = PreparedOp(gas: ReportedGas, maxFeePerGas: Option<int>, rest: string)

  datatype SignedOp = SignedOp(op: PreparedOp, signature: string)

  datatype Receipt = Receipt(success: bool, txHash: string)

  /** What the sponsor answered to one of its two calls; a field may be missing. */
  datatype SponsorReply = NoAnswer | Offered(verificationGas: Option<int>, postOpGas: Option<int>, isFinal: bool)

  datatype World = World(
    encodes: bool,
    code: CodeReply,
    nonce: Option<nat>,
    enableCode: CodeReply,
    config: ConfigReply,
    firstEstimate: Estimate,
    secondEstimate: Estimate,
    prepare: UserOpGas -> Option<PreparedOp>,
    stub: SponsorReply,
    data: SponsorReply,
    balance: Option<int>,
    deposit: Option<int>,
    sign: PreparedOp -> Option<string>,
    hashOf: SignedOp -> string,
    hookCompletes: bool,
    accepted: Option<string>,
    receipts: nat -> Option<Receipt>)

  datatype Refusal =
    | EnableReplayed | EnableRedundant | EnableUnverified
    | Gas(rule: GasRule)
    | SponsorUnreachable | SponsorDeclined | SponsorAbsurd
    | PrefundShort | PrefundUnverified

  datatype Event =
    | Estimated
    | Signed(op: SignedOp)
    | Persisting(hash: string)
    | Sent(op: SignedOp, hash: string)
    | ReceiptRead(hash: string)

  datatype Outcome =
    | Refused(rule: Refusal)
    | Broken
    | Unresolved(hash: string)
    | Reverted(hash: string)
    | Landed(hash: string, txHash: string)

  const RECEIPT_ATTEMPTS := 3

  // ── before the signature ───────────────────────────────────────────────────

  /** A quote that leaves out one of the three limits is no quote. */
  function Answer(e: Estimate): Option<UserOpGas> {
    if e.NoQuote? || e.gas.callGasLimit.None? || e.gas.verificationGasLimit.None? || e.gas.preVerificationGas.None? then None
    else Some(UserOpGas(e.gas.callGasLimit.value, e.gas.verificationGasLimit.value, e.gas.preVerificationGas.value,
                        e.gas.paymasterVerificationGasLimit, e.gas.paymasterPostOpGasLimit))
  }

  /** The second estimate is asked for only when the first one answered. */
  function SecondAnswer(w: World): Option<UserOpGas> {
    if Answer(w.firstEstimate).Some? then Answer(w.secondEstimate) else None
  }

  function Ceiling(enable: EnableState): GasBounds {
    if enable.FreshEnable? then FIRST_ENABLE_GAS_BOUNDS else GAS_BOUNDS
  }

  /** What decides whether anything is signed. */
  datatype Gate = Go(op: PreparedOp, gas: UserOpGas, total: int) | Stop(rule: Refusal) | Threw

  function EnableRefusal(enable: EnableState): Option<Refusal> {
    match enable
    case ReplayedEnable(_, _) => Some(EnableReplayed)
    case AlreadyInstalled(_, _) => Some(EnableRedundant)
    case Unreadable(_) => Some(EnableUnverified)
    case _ => None
  }

  function PrefundRefusal(w: World, gas: UserOpGas, op: PreparedOp): Option<Refusal> {
    match CheckPrefund(Some(gas), op.maxFeePerGas, w.balance, w.deposit)
    case Covered(_, _) => None
    case Short(_, _) => Some(PrefundShort)
    case Unverified => Some(PrefundUnverified)
  }

  const PAYMASTER_VERIFICATION_GAS := 200_000
  const PAYMASTER_POSTOP_GAS := 100_000
  const PAYMASTER_GAS_MAX := 500_000

  datatype SponsorVerdict = Sponsored(verificationGas: int, postOpGas: int) | Unsponsored(rule: Refusal)

  function Or(o: Option<int>, otherwise: int): int {
    if o.Some? then o.value else otherwise
  }

  /** Either limit above our ceiling refuses the whole reply. */
  function Clamped(verificationGas: int, postOpGas: int): SponsorVerdict {
    if verificationGas > PAYMASTER_GAS_MAX || postOpGas > PAYMASTER_GAS_MAX then Unsponsored(SponsorAbsurd)
    else Sponsored(verificationGas, postOpGas)
  }

  /** The stub, with our own limits where it states none, then the final reply spread over
    * it, where a limit it leaves out stays the stub's. */
  function SponsorLimits(stub: SponsorReply, data: SponsorReply): SponsorVerdict {
    match stub
    case NoAnswer => Unsponsored(SponsorUnreachable)
    case Offered(v, p, isFinal) =>
      var first := Clamped(Or(v, PAYMASTER_VERIFICATION_GAS), Or(p, PAYMASTER_POSTOP_GAS));
      if first.Unsponsored? || isFinal then first
      else match data
           case NoAnswer => Unsponsored(SponsorDeclined)
           case Offered(v', p', _) => Clamped(Or(v', first.verificationGas), Or(p', first.postOpGas))
  }

  function WithSponsor(op: PreparedOp, s: SponsorVerdict): PreparedOp
    requires s.Sponsored?
  {
    op.(gas := op.gas.(paymasterVerificationGasLimit := Some(s.verificationGas),
                       paymasterPostOpGasLimit := Some(s.postOpGas)))
  }

  function SponsorGate(w: World, gas: UserOpGas, total: int, op: PreparedOp): Gate {
    match SponsorLimits(w.stub, w.data)
    case Unsponsored(rule) => Stop(rule)
    case Sponsored(_, _) =>
      var sponsored := WithSponsor(op, SponsorLimits(w.stub, w.data));
      if BoundsHeld(gas, sponsored.gas) then Go(sponsored, gas, total) else Stop(SponsorAbsurd)
  }

  function PrepareGate(w: World, sponsored: bool, gas: UserOpGas, total: int): Gate {
    match w.prepare(gas)
    case None => Threw
    case Some(op) =>
      if sponsored then SponsorGate(w, gas, total, op)
      else match PrefundRefusal(w, gas, op)
           case Some(rule) => Stop(rule)
           case None => Go(op, gas, total)
  }

  function GateOf(w: World, sponsored: bool): Gate {
    if !w.encodes || w.nonce.None? then Threw
    else
      var enable := ReadEnableState(w.nonce.value, w.enableCode, w.config);
      if EnableRefusal(enable).Some? then Stop(EnableRefusal(enable).value)
      else
        match VerdictOf(Answer(w.firstEstimate), SecondAnswer(w), Ceiling(enable), sponsored)
        case Unbounded(rule) => Stop(Gas(rule))
        case Bounded(gas, total) => PrepareGate(w, sponsored, gas, total)
  }

  /** The estimates asked for: none before the enable is justified, the second only after
    * the first. */
  function EstimatesOf(w: World): seq<Event> {
    if !w.encodes || w.nonce.None?
       || EnableRefusal(ReadEnableState(w.nonce.value, w.enableCode, w.config)).Some? then []
    else if Answer(w.firstEstimate).None? then [Estimated]
    else [Estimated, Estimated]
  }

  // ── from the signature on ──────────────────────────────────────────────────

  /** Reading the receipt: the reads made, from `attempt` on, and the one that answered. */
  function ReadsFrom(w: World, hash: string, attempt: nat): (r: (seq<Event>, Option<Receipt>))
    requires 1 <= attempt <= RECEIPT_ATTEMPTS + 1
    ensures |r.0| <= RECEIPT_ATTEMPTS + 1 - attempt
    ensures forall e <- r.0 :: e == ReceiptRead(hash)
    decreases RECEIPT_ATTEMPTS + 1 - attempt
  {
    if attempt > RECEIPT_ATTEMPTS then ([], None)
    else if w.receipts(attempt).Some? then ([ReceiptRead(hash)], w.receipts(attempt))
    else
      var later := ReadsFrom(w, hash, attempt + 1);
      ([ReceiptRead(hash)] + later.0, later.1)
  }

  datatype Story = Story(events: seq<Event>, outcome: Outcome)

  function AfterSend(w: World, hash: string): Story {
    if w.accepted.None? || Lower(w.accepted.value) != Lower(hash) then Story([], Unresolved(hash))
    else
      var reading := ReadsFrom(w, hash, 1);
      Story(reading.0,
            if reading.1.None? then Unresolved(hash)
            else if !reading.1.value.success then Reverted(hash)
            else Landed(hash, reading.1.value.txHash))
  }

  function AfterGate(w: World, op: PreparedOp, hooked: bool): Story {
    match w.sign(op)
    case None => Story([], Broken)
    case Some(signature) =>
      var signed := SignedOp(op, signature);
      var hash := w.hashOf(signed);
      var persisted := if hooked then [Signed(signed), Persisting(hash)] else [Signed(signed)];
      if hooked && !w.hookCompletes then Story(persisted, Broken)
      else
        var rest := AfterSend(w, hash);
        Story(persisted + [Sent(signed, hash)] + rest.events, rest.outcome)
  }

  /** Everything one execution does, and how it ends. */
  function StoryOf(w: World, sponsored: bool, hooked: bool): Story {
    match GateOf(w, sponsored)
    case Threw => Story(EstimatesOf(w), Broken)
    case Stop(rule) => Story(EstimatesOf(w), Refused(rule))
    case Go(op, _, _) =>
      var rest := AfterGate(w, op, hooked);
      Story(EstimatesOf(w) + rest.events, rest.outcome)
  }

  // ── the executor ───────────────────────────────────────────────────────────

  class Executor {
    const sponsored: bool
    var deployed: Option<bool>
    var log: seq<Event>

    constructor (sponsored: bool)
      ensures this.sponsored == sponsored && deployed == None && log == []
    {
      this.sponsored, deployed, log := sponsored, None, [];
    }

    /** A failed read answers "not deployed"; the answer is read once and kept. */
    method IsDeployed(code: CodeReply) returns (live: bool)
      modifies this`deployed
      ensures deployed == Some(live)
      ensures live == if old(deployed).Some? then old(deployed).value else code.HasCode?
    {
      if deployed.Some? { return deployed.value; }
      deployed := Some(code.HasCode?);
      live := code.HasCode?;
    }

    /** Everything up to the signature: the limits are bounded, held and covered first. */
    method Clear(w: World) returns (gate: Gate)
      modifies this
      ensures gate == GateOf(w, sponsored)
      ensures log == old(log) + EstimatesOf(w)
      ensures deployed == if w.encodes && old(deployed).None? then Some(w.code.HasCode?) else old(deployed)
    {
      if !w.encodes { return Threw; }
      var accountLive := IsDeployed(w.code);
      if w.nonce.None? { return Threw; }
      var enable := ReadEnableState(w.nonce.value, w.enableCode, w.config);
      var bounds := if enable.FreshEnable? then FIRST_ENABLE_GAS_BOUNDS else GAS_BOUNDS;
      if enable.ReplayedEnable? { return Stop(EnableReplayed); }
      if enable.AlreadyInstalled? { return Stop(EnableRedundant); }
      if enable.Unreadable? { return Stop(EnableUnverified); }

      log := log + [Estimated];
      var first, second := Answer(w.firstEstimate), None;
      if first.Some? {
        log := log + [Estimated];
        second := Answer(w.secondEstimate);
      }
      var bounded := BoundGas(first, second, bounds, sponsored);
      if bounded.Unbounded? { return Stop(Gas(bounded.rule)); }

      var prepared := w.prepare(bounded.gas);
      if prepared.None? { return Threw; }
      if sponsored {
        var limits := SponsorLimits(w.stub, w.data);
        if limits.Unsponsored? { return Stop(limits.rule); }
        var op := WithSponsor(prepared.value, limits);
        if !BoundsHeld(bounded.gas, op.gas) { return Stop(SponsorAbsurd); }
        return Go(op, bounded.gas, bounded.total);
      } else {
        var prefund := CheckPrefund(Some(bounded.gas), prepared.value.maxFeePerGas, w.balance, w.deposit);
        if prefund.Short? { return Stop(PrefundShort); }
        if prefund.Unverified? { return Stop(PrefundUnverified); }
      }
      gate := Go(prepared.value, bounded.gas, bounded.total);
    }

    /** Only the read is retried. */
    method ReadReceipt(w: World, hash: string) returns (receipt: Option<Receipt>)
      modifies this`log
      ensures log == old(log) + ReadsFrom(w, hash, 1).0
      ensures receipt == ReadsFrom(w, hash, 1).1
    {
      receipt := None;
      var attempt := 1;
      while attempt <= RECEIPT_ATTEMPTS
        invariant 1 <= attempt <= RECEIPT_ATTEMPTS + 1
        invariant receipt == None
        invariant log + ReadsFrom(w, hash, attempt).0 == old(log) + ReadsFrom(w, hash, 1).0
        invariant ReadsFrom(w, hash, attempt).1 == ReadsFrom(w, hash, 1).1
      {
        log := log + [ReceiptRead(hash)];
        receipt := w.receipts(attempt);
        if receipt.Some? { break; }
        attempt := attempt + 1;
      }
    }

    /** The send, and what came of it. Nothing here is repeated but the read. */
    method Broadcast(w: World, signed: SignedOp, hash: string) returns (outcome: Outcome)
      modifies this
      ensures log == old(log) + ([Sent(signed, hash)] + AfterSend(w, hash).events)
      ensures outcome == AfterSend(w, hash).outcome
      ensures deployed == if w.accepted.Some? then Some(true) else old(deployed)
    {
      log := log + [Sent(signed, hash)];
      if w.accepted.None? { return Unresolved(hash); }
      deployed := Some(true);
      if Lower(w.accepted.value) != Lower(hash) { return Unresolved(hash); }
      var receipt := ReadReceipt(w, hash);
      if receipt.None? { return Unresolved(hash); }
      if !receipt.value.success { return Reverted(hash); }
      outcome := Landed(hash, receipt.value.txHash);
    }

    /** Sign, hash, let the hook store the hash, and only then send. */
    method SignAndSend(w: World, op: PreparedOp, hooked: bool) returns (outcome: Outcome)
      modifies this
      ensures log == old(log) + AfterGate(w, op, hooked).events
      ensures outcome == AfterGate(w, op, hooked).outcome
      ensures outcome.Reverted? || outcome.Landed? ==> deployed == Some(true)
    {
      var signature := w.sign(op);
      if signature.None? { return Broken; }
      var signed := SignedOp(op, signature.value);
      var hash := w.hashOf(signed);
      log := log + [Signed(signed)];
      if hooked {
        log := log + [Persisting(hash)];
        if !w.hookCompletes { return Broken; }
      }
      outcome := Broadcast(w, signed, hash);
    }

    method Execute(w: World, hooked: bool) returns (outcome: Outcome)
      modifies this
      ensures log == old(log) + StoryOf(w, sponsored, hooked).events
      ensures outcome == StoryOf(w, sponsored, hooked).outcome
      ensures outcome.Reverted? || outcome.Landed? ==> deployed == Some(true)
    {
      var gate := Clear(w);
      if gate.Threw? { return Broken; }
      if gate.Stop? { return Refused(gate.rule); }

      outcome := SignAndSend(w, gate.op, hooked);
    }
  }
}
