/** The gas limits an operation is signed with, and whether its account can cover them
  * (worker/src/gas-limits.ts, and the sponsor's post-condition in worker/src/paymaster.ts). */
module GasLimits {
  import opened Text

  datatype UserOpGas = UserOpGas(
    callGasLimit: int,
    verificationGasLimit: int,
    preVerificationGas: int,
    paymasterVerificationGasLimit: Option<int>,
    paymasterPostOpGasLimit: Option<int>)

  datatype GasBounds = GasBounds(
    callHeadroomBps: nat,
    verificationHeadroomBps: nat,
    preVerificationHeadroomBps: nat,
    disagreementBps: nat,
    absoluteMax: nat)

  const GAS_BOUNDS := GasBounds(20_000, 12_500, 12_500, 40_000, 3_000_000)
  const FIRST_ENABLE_GAS_BOUNDS := GAS_BOUNDS.(absoluteMax := 12_000_000)

  datatype GasRule = GasAbsurd | GasUnstable | GasUnreadable | GasPaymasterUnexpected

  datatype GasVerdict = Bounded(gas: UserOpGas, total: int) | Unbounded(rule: GasRule)

  function OrZero(o: Option<int>): int {
    if o.Some? then o.value else 0
  }

  function WhenPositive(v: int): Option<int> {
    if v > 0 then Some(v) else None
  }

  /** Division truncates toward zero, as it does on the source's integers. */
  function Bps(v: int, n: nat): int {
    if v >= 0 then v * n / 10_000 else -((-v) * n / 10_000)
  }

  /** The three limits every operation carries. */
  function CoreGas(g: UserOpGas): int {
    g.callGasLimit + g.verificationGasLimit + g.preVerificationGas
  }

  /** Everything the EntryPoint's prefund is computed from. */
  function TotalGas(g: UserOpGas): int {
    CoreGas(g) + OrZero(g.paymasterVerificationGasLimit) + OrZero(g.paymasterPostOpGasLimit)
  }

  /** An estimate that answered: none of the three limits is zero or less. */
  predicate Readable(g: UserOpGas) {
    g.callGasLimit > 0 && g.verificationGasLimit > 0 && g.preVerificationGas > 0
  }

  predicate CarriesPaymasterGas(g: UserOpGas) {
    OrZero(g.paymasterVerificationGasLimit) > 0 || OrZero(g.paymasterPostOpGasLimit) > 0
  }

  /** The estimates the bundler gave, in order. */
  function Candidates(first: UserOpGas, second: Option<UserOpGas>): seq<UserOpGas> {
    if second.Some? then [first, second.value] else [first]
  }

  /** The dearer estimate, the first one on a tie. */
  function Dearer(first: UserOpGas, second: Option<UserOpGas>): UserOpGas {
    if second.Some? && TotalGas(first) < TotalGas(second.value) then second.value else first
  }

  /** The estimate with headroom on the three limits; a sponsor's own are carried as they are. */
  function Raised(g: UserOpGas, bounds: GasBounds): UserOpGas {
    UserOpGas(
      Bps(g.callGasLimit, bounds.callHeadroomBps),
      Bps(g.verificationGasLimit, bounds.verificationHeadroomBps),
      Bps(g.preVerificationGas, bounds.preVerificationHeadroomBps),
      WhenPositive(OrZero(g.paymasterVerificationGasLimit)),
      WhenPositive(OrZero(g.paymasterPostOpGasLimit)))
  }

  /** Two estimates whose totals disagree by more than the tolerated multiple, as the code
    * measures it: the dearer against the multiple of the cheaper. */
  predicate Unstable(a: UserOpGas, b: UserOpGas, bounds: GasBounds) {
    var lo, hi := if TotalGas(a) <= TotalGas(b) then TotalGas(a) else TotalGas(b),
                  if TotalGas(a) <= TotalGas(b) then TotalGas(b) else TotalGas(a);
    hi > Bps(lo, bounds.disagreementBps)
  }

  /** What the limits of an operation come to, in the order the refusals take precedence. */
  function VerdictOf(first: Option<UserOpGas>, second: Option<UserOpGas>, bounds: GasBounds, sponsored: bool): GasVerdict {
    if first.None? then Unbounded(GasUnreadable)
    else if exists g <- Candidates(first.value, second) :: !Readable(g) then Unbounded(GasUnreadable)
    else if second.Some? && Unstable(first.value, second.value, bounds) then Unbounded(GasUnstable)
    else
      var chosen := Dearer(first.value, second);
      if !sponsored && CarriesPaymasterGas(chosen) then Unbounded(GasPaymasterUnexpected)
      else if TotalGas(Raised(chosen, bounds)) > bounds.absoluteMax then Unbounded(GasAbsurd)
      else Bounded(Raised(chosen, bounds), TotalGas(Raised(chosen, bounds)))
  }

  method BoundGas(first: Option<UserOpGas>, second: Option<UserOpGas>, bounds: GasBounds, sponsored: bool)
    returns (verdict: GasVerdict)
    ensures verdict == VerdictOf(first, second, bounds, sponsored)
  {
    if first.None? { return Unbounded(GasUnreadable); }
    var chosen := first.value;
    var candidates := Candidates(chosen, second);
    for i := 0 to |candidates|
      invariant forall j | 0 <= j < i :: Readable(candidates[j])
    {
      if !Readable(candidates[i]) {
        assert candidates[i] in Candidates(first.value, second);
        return Unbounded(GasUnreadable);
      }
    }
    if second.Some? {
      var a, b := TotalGas(chosen), TotalGas(second.value);
      var lo, hi := if a <= b then a else b, if a <= b then b else a;
      if hi > Bps(lo, bounds.disagreementBps) { return Unbounded(GasUnstable); }
      chosen := if a >= b then chosen else second.value;
    }
    var pmVer := OrZero(chosen.paymasterVerificationGasLimit);
    var pmPost := OrZero(chosen.paymasterPostOpGasLimit);
    if !sponsored && (pmVer > 0 || pmPost > 0) { return Unbounded(GasPaymasterUnexpected); }
    var gas := UserOpGas(
      Bps(chosen.callGasLimit, bounds.callHeadroomBps),
      Bps(chosen.verificationGasLimit, bounds.verificationHeadroomBps),
      Bps(chosen.preVerificationGas, bounds.preVerificationHeadroomBps),
      WhenPositive(pmVer),
      WhenPositive(pmPost));
    var total := TotalGas(gas);
    if total > bounds.absoluteMax { return Unbounded(GasAbsurd); }
    verdict := Bounded(gas, total);
  }

  lemma FourTimes(v: int)
    ensures Bps(v, 40_000) == 4 * v
  {
    if v >= 0 { assert v * 40_000 == 4 * v * 10_000; } else { assert (-v) * 40_000 == -4 * v * 10_000; }
  }

  /** A ceiling may be chosen; the headroom and the disagreement multiple are fixed. */
  predicate StandardBounds(bounds: GasBounds) {
    bounds == GAS_BOUNDS.(absoluteMax := bounds.absoluteMax)
  }

  /** Limits come out exactly when the bundler answered with three positive limits each time,
    * neither answer is more than four times the other, nobody pays who was not asked
    * to, and what the headroom makes of the dearer answer fits under the ceiling. */
  lemma BoundedIff(first: Option<UserOpGas>, second: Option<UserOpGas>, bounds: GasBounds, sponsored: bool)
    requires StandardBounds(bounds)
    ensures VerdictOf(first, second, bounds, sponsored).Bounded? <==>
              && first.Some?
              && var all := Candidates(first.value, second); var chosen := Dearer(first.value, second);
              && (forall g <- all :: g.callGasLimit > 0 && g.verificationGasLimit > 0 && g.preVerificationGas > 0)
              && (second.Some? ==> TotalGas(first.value) <= 4 * TotalGas(second.value)
                                   && TotalGas(second.value) <= 4 * TotalGas(first.value))
              && (sponsored || !CarriesPaymasterGas(chosen))
              && TotalGas(Raised(chosen, bounds)) <= bounds.absoluteMax
  {
  }

  predicate Answered(g: UserOpGas) {
    g.callGasLimit > 0 && g.verificationGasLimit > 0 && g.preVerificationGas > 0
  }

  predicate WithinFourTimes(a: int, b: int) {
    a <= 4 * b && b <= 4 * a
  }

  /** Both estimates answered, the second where one was asked for. */
  predicate BothAnswered(first: Option<UserOpGas>, second: Option<UserOpGas>) {
    first.Some? && Answered(first.value) && (second.Some? ==> Answered(second.value))
  }

  predicate Agreeing(first: Option<UserOpGas>, second: Option<UserOpGas>) {
    first.Some? && second.Some? ==> WithinFourTimes(TotalGas(first.value), TotalGas(second.value))
  }

  lemma UnreadableIff(first: Option<UserOpGas>, second: Option<UserOpGas>, bounds: GasBounds, sponsored: bool)
    requires StandardBounds(bounds)
    ensures VerdictOf(first, second, bounds, sponsored) == Unbounded(GasUnreadable) <==> !BothAnswered(first, second)
  {
    if first.Some? {
      var all := Candidates(first.value, second);
      assert first.value == all[0] && (second.Some? ==> second.value == all[1]);
      assert forall g <- all :: Readable(g) <==> Answered(g);
    }
  }

  /** Which refusal it is, the earlier question always deciding: an answer that is missing or
    * not positive, then two that are more than a factor of four apart, then a paymaster
    * nobody asked for, then the ceiling. */
  lemma RefusedBecause(first: Option<UserOpGas>, second: Option<UserOpGas>, bounds: GasBounds, sponsored: bool)
    requires StandardBounds(bounds)
    ensures var v := VerdictOf(first, second, bounds, sponsored);
            && (v == Unbounded(GasUnreadable) <==> !BothAnswered(first, second))
            && (v == Unbounded(GasUnstable) <==> BothAnswered(first, second) && !Agreeing(first, second))
            && (v == Unbounded(GasPaymasterUnexpected) <==>
                  && BothAnswered(first, second) && Agreeing(first, second)
                  && !sponsored && CarriesPaymasterGas(Dearer(first.value, second)))
            && (v == Unbounded(GasAbsurd) <==>
                  && BothAnswered(first, second) && Agreeing(first, second)
                  && (sponsored || !CarriesPaymasterGas(Dearer(first.value, second)))
                  && TotalGas(Raised(Dearer(first.value, second), bounds)) > bounds.absoluteMax)
  {
    UnreadableIff(first, second, bounds, sponsored);
    if first.Some? && second.Some? {
      FourTimes(TotalGas(first.value));
      FourTimes(TotalGas(second.value));
    }
  }

  /** A sponsor's limit is neither raised nor lowered; one that is not positive is left out. */
  predicate CarriedAsItIs(estimate: Option<int>, signed: Option<int>) {
    if estimate.Some? && estimate.value > 0 then signed == estimate else signed.None?
  }

  /** What is signed: never above the ceiling, never below any limit of the dearer estimate,
    * and never above twice it. An operation that pays for itself carries no paymaster gas,
    * so its whole total lies between one and two times the estimate's three limits. */
  lemma SignedGasIsBounded(first: Option<UserOpGas>, second: Option<UserOpGas>, bounds: GasBounds, sponsored: bool)
    requires StandardBounds(bounds)
    requires VerdictOf(first, second, bounds, sponsored).Bounded?
    ensures var v := VerdictOf(first, second, bounds, sponsored);
            var chosen := Dearer(first.value, second);
            && v.total == TotalGas(v.gas) <= bounds.absoluteMax
            && 0 < chosen.callGasLimit && v.gas.callGasLimit == 2 * chosen.callGasLimit
            && 0 < chosen.verificationGasLimit <= v.gas.verificationGasLimit
            && 0 < chosen.preVerificationGas <= v.gas.preVerificationGas
            && 4 * v.gas.verificationGasLimit <= 5 * chosen.verificationGasLimit < 4 * v.gas.verificationGasLimit + 4
            && 4 * v.gas.preVerificationGas <= 5 * chosen.preVerificationGas < 4 * v.gas.preVerificationGas + 4
            && CarriedAsItIs(chosen.paymasterVerificationGasLimit, v.gas.paymasterVerificationGasLimit)
            && CarriedAsItIs(chosen.paymasterPostOpGasLimit, v.gas.paymasterPostOpGasLimit)
            && CoreGas(chosen) <= CoreGas(v.gas) <= 2 * CoreGas(chosen)
            && (!sponsored ==> v.total == CoreGas(v.gas) && !CarriesPaymasterGas(v.gas))
            && (second.Some? ==> forall g <- Candidates(first.value, second) ::
                  TotalGas(g) <= TotalGas(chosen) <= 4 * TotalGas(g))
  {
    var a := first.value;
    var chosen := Dearer(a, second);
    assert chosen in Candidates(a, second);
    assert forall g <- Candidates(a, second) :: Readable(g);
    assert Readable(chosen) && Readable(a);
    if second.Some? {
      assert second.value in Candidates(a, second);
      FourTimes(TotalGas(a));
      FourTimes(TotalGas(second.value));
    }
  }

  /** With every paymaster field absent or non-negative, the total the prefund is computed
    * from lies between one and two times the dearer estimate's total, sponsored or not. */
  lemma SignedTotalIsWithinTwice(first: Option<UserOpGas>, second: Option<UserOpGas>, bounds: GasBounds, sponsored: bool)
    requires StandardBounds(bounds)
    requires VerdictOf(first, second, bounds, sponsored).Bounded?
    requires var chosen := Dearer(first.value, second);
             OrZero(chosen.paymasterVerificationGasLimit) >= 0 && OrZero(chosen.paymasterPostOpGasLimit) >= 0
    ensures var chosen := Dearer(first.value, second);
            TotalGas(chosen) <= VerdictOf(first, second, bounds, sponsored).total <= 2 * TotalGas(chosen)
  {
    SignedGasIsBounded(first, second, bounds, sponsored);
  }

  /** Which of two estimates came first decides nothing, unless their totals tie. */
  lemma EstimateOrderDoesNotMatter(a: UserOpGas, b: UserOpGas, bounds: GasBounds, sponsored: bool)
    requires TotalGas(a) != TotalGas(b)
    ensures VerdictOf(Some(a), Some(b), bounds, sponsored) == VerdictOf(Some(b), Some(a), bounds, sponsored)
  {
    var there, back := Candidates(a, Some(b)), Candidates(b, Some(a));
    assert a == there[0] && b == there[1] && a == back[1] && b == back[0];
    assert (exists g <- there :: !Readable(g)) <==> !Readable(a) || !Readable(b);
    assert (exists g <- back :: !Readable(g)) <==> !Readable(a) || !Readable(b);
  }

  // ── the prefund ────────────────────────────────────────────────────────────

  datatype PrefundVerdict =
    | Covered(required: int, covered: int)
    | Short(required: int, covered: int)
    | Unverified

  function CheckPrefund(gas: Option<UserOpGas>, maxFeePerGas: Option<int>, balance: Option<int>, deposit: Option<int>)
    : PrefundVerdict
  {
    if gas.None? then Unverified
    else if maxFeePerGas.None? || maxFeePerGas.value <= 0 then Unverified
    else if balance.None? || deposit.None? then Unverified
    else
      var required := TotalGas(gas.value) * maxFeePerGas.value;
      var covered := deposit.value + balance.value;
      if covered >= required then Covered(required, covered) else Short(required, covered)
  }

  /** The EntryPoint's side (ERC-4337, section "Account Contract Interface"): it asks the
    * account for what its deposit lacks, the account pays that out of its balance, and the
    * deposit then carries the prefund. None when the account cannot pay. */
  datatype Funds = Funds(deposit: int, balance: int)

  function Prefund(required: int, held: Funds): Option<Funds> {
    var missing := if required > held.deposit then required - held.deposit else 0;
    if missing > held.balance then None
    else Some(Funds(held.deposit + missing - required, held.balance - missing))
  }

  /** The check passes exactly the operations the EntryPoint would prefund, whatever part of
    * the money is on deposit, and nothing it could not read; what is over stays the account's. */
  lemma CoveredIffPrefunded(gas: UserOpGas, fee: Option<int>, balance: Option<int>, deposit: Option<int>)
    requires balance.Some? ==> balance.value >= 0
    ensures var v := CheckPrefund(Some(gas), fee, balance, deposit);
            && (v.Covered? <==>
                  && fee.Some? && fee.value > 0 && balance.Some? && deposit.Some?
                  && Prefund(TotalGas(gas) * fee.value, Funds(deposit.value, balance.value)).Some?)
            && (v.Covered? ==>
                  var left := Prefund(v.required, Funds(deposit.value, balance.value)).value;
                  left.balance >= 0 && left.deposit + left.balance == v.covered - v.required)
  {
  }

  /** A shortfall is the exact sum to send: with anything less the verdict stays short, with
    * it or more it is covered, on the account or on its deposit alike. */
  lemma ShortfallIsExact(gas: UserOpGas, fee: int, balance: int, deposit: int, sent: int)
    requires CheckPrefund(Some(gas), Some(fee), Some(balance), Some(deposit)).Short?
    ensures var v := CheckPrefund(Some(gas), Some(fee), Some(balance), Some(deposit));
            var onAccount := CheckPrefund(Some(gas), Some(fee), Some(balance + sent), Some(deposit));
            var onDeposit := CheckPrefund(Some(gas), Some(fee), Some(balance), Some(deposit + sent));
            && v.required - v.covered > 0
            && (onAccount.Covered? <==> sent >= v.required - v.covered)
            && (onDeposit.Covered? <==> onAccount.Covered?)
            && !onAccount.Unverified? && !onDeposit.Unverified?
  {
  }

  // ── the sponsor's post-condition ───────────────────────────────────────────

  /** The limits a prepared operation reports back; a field may be missing. */
  datatype ReportedGas = ReportedGas(
    callGasLimit: Option<int>,
    verificationGasLimit: Option<int>,
    preVerificationGas: Option<int>,
    paymasterVerificationGasLimit: Option<int>,
    paymasterPostOpGasLimit: Option<int>)

  predicate Held(bounded: int, reported: Option<int>) {
    reported.None? || reported.value == bounded
  }

  /** None of the three limits was changed; a limit that is not reported contradicts nothing. */
  predicate BoundsHeld(bounded: UserOpGas, prepared: ReportedGas) {
    && Held(bounded.callGasLimit, prepared.callGasLimit)
    && Held(bounded.verificationGasLimit, prepared.verificationGasLimit)
    && Held(bounded.preVerificationGas, prepared.preVerificationGas)
  }
}
