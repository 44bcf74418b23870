/** Who may book an opening balance: the durable verdict the parent derives
  * (worker/src/bootstrap-source.ts) and what it entitles a child to claim
  * (worker/src/bootstrap-state.ts). */
module Bootstrap {
  import opened Text

  // ── what the shared database holds for one account ─────────────────────────

  /** A durable `flows` row. `booking` numbers the opening balances of a run of the
    * protocol; nothing here reads it. */
  datatype DurableFlow = DurableFlow(
    epoch: int, inbound: bool, amountUsdg: int, hasTx: bool, source: string, at: int, booking: Option<nat>)

  datatype DurableMark = DurableMark(epoch: int, equityUsdg: int, cashUsdg: int, at: int)

  datatype AgentAccounting = AgentAccounting(hwmUsdg: int, epoch: int)

  datatype Durable = Durable(
    agent: Option<AgentAccounting>, flows: seq<DurableFlow>, marks: seq<DurableMark>, accruals: nat)

  datatype Accounting =
    | Established(
        highWaterMarkUsdg: int, netContributionsUsdg: int, anchoredContributionsUsdg: Option<int>,
        unanchoredFlowCount: Option<int>, carryRejected: bool, lastObservedCashUsdg: Option<int>,
        accountingEpoch: int, observedAt: int)
    | NoPriorAccounting(observedAt: int)
    | Unknown(observedAt: int)

  /** 0.0001 USDG at 18 decimals. */
  const CARRY_TOLERANCE := 100_000_000_000_000

  function SignedFlow(f: DurableFlow): int {
    if f.inbound then f.amountUsdg else -f.amountUsdg
  }

  predicate InEpoch(f: DurableFlow, epoch: int) {
    f.epoch == epoch
  }

  predicate Anchored(f: DurableFlow) {
    f.hasTx || f.source == "epoch-carry"
  }

  predicate Carry(f: DurableFlow) {
    f.source == "epoch-carry" && f.inbound
  }

  function Count(flows: seq<DurableFlow>, p: DurableFlow -> bool): nat {
    if flows == [] then 0 else Count(flows[..|flows| - 1], p) + if p(flows[|flows| - 1]) then 1 else 0
  }

  function NetWhere(flows: seq<DurableFlow>, p: DurableFlow -> bool): int {
    if flows == [] then 0
    else NetWhere(flows[..|flows| - 1], p) + if p(flows[|flows| - 1]) then SignedFlow(flows[|flows| - 1]) else 0
  }

  function MaxAt(flows: seq<DurableFlow>, epoch: int): int {
    if flows == [] then 0 else
      var f := flows[|flows| - 1];
      var m := MaxAt(flows[..|flows| - 1], epoch);
      if InEpoch(f, epoch) && f.at > m then f.at else m
  }

  /** ORDER BY at DESC, id DESC LIMIT 1, over all epochs or one. */
  function Newest(marks: seq<DurableMark>, epoch: Option<int>): Option<DurableMark> {
    if marks == [] then None else
      var m := marks[|marks| - 1];
      var best := Newest(marks[..|marks| - 1], epoch);
      if (epoch.Some? && m.epoch != epoch.value) || (best.Some? && best.value.at > m.at) then best else Some(m)
  }

  function DurableEpoch(d: Durable): int {
    if d.agent.Some? && d.agent.value.epoch >= 1 then d.agent.value.epoch else 1
  }

  function HighWaterMark(d: Durable): int {
    if d.agent.Some? then d.agent.value.hwmUsdg else 0
  }

  /** An epoch-opening carry is evidence only when it matches the mark it carries. */
  predicate CarryReconciles(opening: int, priorClose: Option<int>) {
    priorClose.Some? && -CARRY_TOLERANCE <= opening - priorClose.value <= CARRY_TOLERANCE
  }

  /** The three-way verdict. `shared` is None when a query threw. */
  function DeriveBootstrapAccounting(shared: Option<Durable>, nowSec: int): Accounting {
    if shared.None? then Unknown(nowSec)
    else
      var d := shared.value;
      var epoch := DurableEpoch(d);
      var ours := (f: DurableFlow) => InEpoch(f, epoch);
      var anchored := (f: DurableFlow) => InEpoch(f, epoch) && Anchored(f);
      var carries := (f: DurableFlow) => InEpoch(f, epoch) && Carry(f);
      var flowCount := Count(d.flows, ours);
      var mark := Newest(d.marks, None);
      var hwm := HighWaterMark(d);
      if hwm == 0 && flowCount == 0 && d.accruals == 0 && mark.None? then NoPriorAccounting(nowSec)
      else
        var latest := MaxAt(d.flows, epoch);
        var newest := if mark.Some? && mark.value.at > latest then mark.value.at else latest;
        var carryCount := Count(d.flows, carries);
        var priorClose :=
          if epoch > 1 && Newest(d.marks, Some(epoch - 1)).Some?
          then Some(Newest(d.marks, Some(epoch - 1)).value.equityUsdg) else None;
        var rejected := carryCount > 0 && !CarryReconciles(NetWhere(d.flows, carries), priorClose);
        var unanchored := flowCount - Count(d.flows, anchored) + (if rejected then carryCount else 0);
        Established(hwm, NetWhere(d.flows, ours), Some(NetWhere(d.flows, anchored)), Some(unanchored), rejected,
                    if mark.Some? then Some(mark.value.cashUsdg) else None,
                    epoch, if newest == 0 then nowSec else newest)
  }

  lemma {:induction false} CountIsZeroIff(flows: seq<DurableFlow>, p: DurableFlow -> bool)
    ensures Count(flows, p) == 0 <==> forall f | f in flows :: !p(f)
  {
    if flows != [] {
      var n := |flows| - 1;
      CountIsZeroIff(flows[..n], p);
      assert flows == flows[..n] + [flows[n]];
      assert flows[n] in flows;
    }
  }

  lemma {:induction false} NewestIsNoneIff(marks: seq<DurableMark>)
    ensures Newest(marks, None).None? <==> marks == []
  {
    if marks != [] { NewestIsNoneIff(marks[..|marks| - 1]); }
  }

  /** "New" is a positive finding: the read succeeded and every durable trace is absent.
    * The flows it looks for are those of the agent's current epoch only. */
  lemma NewIffNothingDurable(shared: Option<Durable>, nowSec: int)
    ensures DeriveBootstrapAccounting(shared, nowSec).NoPriorAccounting? <==>
              && shared.Some?
              && HighWaterMark(shared.value) == 0
              && (forall f | f in shared.value.flows :: f.epoch != DurableEpoch(shared.value))
              && shared.value.marks == []
              && shared.value.accruals == 0
    ensures DeriveBootstrapAccounting(shared, nowSec).Unknown? <==> shared.None?
  {
    if shared.Some? {
      var epoch := DurableEpoch(shared.value);
      CountIsZeroIff(shared.value.flows, (f: DurableFlow) => InEpoch(f, epoch));
      NewestIsNoneIff(shared.value.marks);
    }
  }

  // ── the anchor file ────────────────────────────────────────────────────────

  const BOOTSTRAP_SCHEMA_VERSION := 1
  const BOOTSTRAP_MAX_AGE_SEC := 21600

  // Money travels as decimal strings: a JSON number would round it.

  function Digits(n: nat): string {
    if n < 10 then ['0' + n as char] else Digits(n / 10) + ['0' + (n % 10) as char]
  }

  /** A bigint's own `toString`. */
  function Decimal(v: int): string {
    if v < 0 then "-" + Digits(-v) else Digits(v)
  }

  function Unsigned(s: string): string {
    if s != "" && s[0] == '-' then s[1..] else s
  }

  predicate AllDigits(s: string) {
    forall i | 0 <= i < |s| :: '0' <= s[i] <= '9'
  }

  const MAX_DIGITS: nat := 30

  /** The form the reader accepts: a sign at most, and 1 to 30 digits. */
  predicate IsMicro(s: string) {
    1 <= |Unsigned(s)| <= MAX_DIGITS && AllDigits(Unsigned(s))
  }

  function DigitOf(c: char): nat {
    if '0' <= c <= '9' then (c - '0') as nat else 0
  }

  function ValueOf(s: string): nat {
    if s == "" then 0 else ValueOf(s[..|s| - 1]) * 10 + DigitOf(s[|s| - 1])
  }

  function MicroToBigint(s: string): int
    requires IsMicro(s)
  {
    if s[0] == '-' then -(ValueOf(Unsigned(s)) as int) else ValueOf(Unsigned(s))
  }

  function Pow10(k: nat): nat {
    if k == 0 then 1 else 10 * Pow10(k - 1)
  }

  lemma {:induction false} DigitsReadBack(n: nat)
    ensures AllDigits(Digits(n)) && ValueOf(Digits(n)) == n
    ensures Digits(n) != "" && Digits(n)[0] != '-'
  {
    if n < 10 {
      assert Digits(n)[..0] == "";
    } else {
      DigitsReadBack(n / 10);
      assert Digits(n)[..|Digits(n)| - 1] == Digits(n / 10);
    }
  }

  lemma {:induction false} DigitsFitIff(n: nat, k: nat)
    requires k >= 1
    ensures |Digits(n)| <= k <==> n < Pow10(k)
  {
    if n >= 10 {
      if k == 1 {
        assert Digits(n / 10) != "" by { DigitsReadBack(n / 10); }
        assert Pow10(1) == 10 * Pow10(0);
      } else {
        DigitsFitIff(n / 10, k - 1);
      }
    } else {
      PowersGrow(k);
    }
  }

  lemma {:induction false} PowersGrow(k: nat)
    requires k >= 1
    ensures Pow10(k) >= 10
  {
    if k > 1 { PowersGrow(k - 1); }
  }

  /** A figure the reader accepts: fewer than 31 digits. */
  predicate FitsTheWire(v: int) {
    -(Pow10(MAX_DIGITS) as int) < v < Pow10(MAX_DIGITS)
  }

  function Magnitude(v: int): nat {
    if v < 0 then -v else v
  }

  lemma DecimalShape(v: int)
    ensures Unsigned(Decimal(v)) == Digits(Magnitude(v))
    ensures Decimal(v) != "" && (Decimal(v)[0] == '-' <==> v < 0)
    ensures AllDigits(Digits(Magnitude(v))) && ValueOf(Digits(Magnitude(v))) == Magnitude(v)
    ensures |Digits(Magnitude(v))| >= 1
  {
    DigitsReadBack(Magnitude(v));
    assert v < 0 ==> Decimal(v)[1..] == Digits(Magnitude(v));
  }

  /** What was written is accepted exactly when it has at most 30 digits, and then reads back
    * as the same figure. */
  lemma DecimalRoundTrip(v: int)
    ensures IsMicro(Decimal(v)) <==> FitsTheWire(v)
    ensures IsMicro(Decimal(v)) ==> MicroToBigint(Decimal(v)) == v
  {
    DecimalShape(v);
    DigitsFitIff(Magnitude(v), MAX_DIGITS);
    assert FitsTheWire(v) <==> Magnitude(v) < Pow10(MAX_DIGITS);
  }

  /** What the reader accepts, whoever wrote it: at most a minus sign, then 1 to 30 of the ten
    * digits and nothing else. */
  lemma AcceptedIff(s: string)
    ensures IsMicro(s) <==>
              exists d: string | s == d || s == "-" + d ::
                1 <= |d| <= 30 && forall c <- d :: c in "0123456789"
  {
    if IsMicro(s) {
      var d := Unsigned(s);
      assert s == d || s == "-" + d;
      forall c <- d ensures c in "0123456789" {
        DigitsAreTheTen(c);
      }
    }
    if d: string :| (s == d || s == "-" + d) && 1 <= |d| <= 30 && forall c <- d :: c in "0123456789" {
      forall c <- d ensures '0' <= c <= '9' && c != '-' {
        DigitsAreTheTen(c);
      }
      assert d[0] in d && forall i | 0 <= i < |d| :: d[i] in d;
      assert s == "-" + d ==> s[0] == '-' && s[1..] == d;
      assert Unsigned(s) == d;
    }
  }

  lemma DigitsAreTheTen(c: char)
    ensures c in "0123456789" <==> '0' <= c <= '9'
  {
    var ten := "0123456789";
    if '0' <= c <= '9' {
      assert ten[c as int - '0' as int] == c;
    }
  }

  /** Leading zeros change no figure. */
  lemma {:induction false} LeadingZerosMeanNothing(s: string)
    ensures ValueOf("0" + s) == ValueOf(s)
  {
    if s == "" {
      assert ("0" + s)[..0] == "";
    } else {
      assert ("0" + s)[..|s|] == "0" + s[..|s| - 1];
      LeadingZerosMeanNothing(s[..|s| - 1]);
    }
  }

  /** The accounting block as it stands in the file. */
  datatype Wire =
    | WireEstablished(
        highWaterMarkUsdg: string, netContributionsUsdg: string, anchoredContributionsUsdg: Option<string>,
        unanchoredFlowCount: Option<int>, carryRejected: bool, lastObservedCashUsdg: Option<string>,
        accountingEpoch: int, observedAt: int)
    | WireNoPrior(observedAt: int)
    | WireUnknown(observedAt: int)

  function DecimalOf(v: Option<int>): Option<string> {
    if v.Some? then Some(Decimal(v.value)) else None
  }

  function ToWire(a: Accounting): Wire {
    match a
    case Established(hwm, net, anchored, unanchored, rejected, cash, epoch, at) =>
      WireEstablished(Decimal(hwm), Decimal(net), DecimalOf(anchored), unanchored, rejected, DecimalOf(cash), epoch, at)
    case NoPriorAccounting(at) => WireNoPrior(at)
    case Unknown(at) => WireUnknown(at)
  }

  predicate IsMicroOrAbsent(s: Option<string>) {
    s.Some? ==> IsMicro(s.value)
  }

  /** Every money field or none: a figure outside the wire format spoils the whole block. */
  predicate WireReadable(w: Wire) {
    w.WireEstablished? ==>
      && IsMicro(w.highWaterMarkUsdg) && IsMicro(w.netContributionsUsdg)
      && IsMicroOrAbsent(w.anchoredContributionsUsdg) && IsMicroOrAbsent(w.lastObservedCashUsdg)
  }

  function FigureOf(s: Option<string>): Option<int>
    requires IsMicroOrAbsent(s)
  {
    if s.Some? then Some(MicroToBigint(s.value)) else None
  }

  function FromWire(w: Wire): Accounting
    requires WireReadable(w)
  {
    match w
    case WireEstablished(hwm, net, anchored, unanchored, rejected, cash, epoch, at) =>
      Established(MicroToBigint(hwm), MicroToBigint(net), FigureOf(anchored), unanchored, rejected, FigureOf(cash), epoch, at)
    case WireNoPrior(at) => NoPriorAccounting(at)
    case WireUnknown(at) => Unknown(at)
  }

  /** The file as JSON.parse leaves it; `accounting` is None when the block is not of the
    * shape or kind the reader knows. */
  datatype Anchor =
    | Missing
    | Unparseable
    | File(schemaVersion: int, tenantId: string, generatedAt: Option<int>, accounting: Option<Wire>)

  datatype AnchorVerdict = Valid(accounting: Accounting) | Absent | Malformed | Stale(ageSec: int) | UnsupportedVersion

  predicate Readable(a: Accounting) {
    a.Established? ==>
      && FitsTheWire(a.highWaterMarkUsdg) && FitsTheWire(a.netContributionsUsdg)
      && (a.anchoredContributionsUsdg.Some? ==> FitsTheWire(a.anchoredContributionsUsdg.value))
      && (a.lastObservedCashUsdg.Some? ==> FitsTheWire(a.lastObservedCashUsdg.value))
  }

  lemma WireRoundTrip(a: Accounting)
    ensures WireReadable(ToWire(a)) <==> Readable(a)
    ensures WireReadable(ToWire(a)) ==> FromWire(ToWire(a)) == a
  {
    if a.Established? {
      DecimalRoundTrip(a.highWaterMarkUsdg);
      DecimalRoundTrip(a.netContributionsUsdg);
      if a.anchoredContributionsUsdg.Some? { DecimalRoundTrip(a.anchoredContributionsUsdg.value); }
      if a.lastObservedCashUsdg.Some? { DecimalRoundTrip(a.lastObservedCashUsdg.value); }
    }
  }

  function ClassifyAnchor(raw: Anchor, tenantId: string, nowSec: int): AnchorVerdict {
    match raw
    case Missing => Absent
    case Unparseable => Malformed
    case File(version, tenant, generatedAt, accounting) =>
      if version != BOOTSTRAP_SCHEMA_VERSION then UnsupportedVersion
      else if Lower(tenant) != Lower(tenantId) then Malformed
      else if generatedAt.None? then Malformed
      else if accounting.None? || !WireReadable(accounting.value) then Malformed
      else
        var ageSec := nowSec - generatedAt.value;
        if ageSec > BOOTSTRAP_MAX_AGE_SEC then Stale(ageSec)
        else if ageSec < -BOOTSTRAP_MAX_AGE_SEC then Malformed
        else Valid(FromWire(accounting.value))
  }

  /** What the parent writes before it spawns a child. */
  function WriteAnchor(smartAccount: string, nowSec: int, accounting: Accounting): Anchor {
    File(BOOTSTRAP_SCHEMA_VERSION, Lower(smartAccount), Some(nowSec), Some(ToWire(accounting)))
  }

  /** Round trip: the child reads back exactly what the parent wrote for its own account,
    * if and only if the file is at most six hours off its clock and every figure has at most
    * 30 digits; anything else is no licence at all. */
  lemma AnchorRoundTrip(smartAccount: string, reader: string, written: int, read: int, accounting: Accounting)
    ensures ClassifyAnchor(WriteAnchor(smartAccount, written, accounting), reader, read) == Valid(accounting) <==>
              && Lower(smartAccount) == Lower(reader)
              && -BOOTSTRAP_MAX_AGE_SEC <= read - written <= BOOTSTRAP_MAX_AGE_SEC
              && Readable(accounting)
    ensures var v := ClassifyAnchor(WriteAnchor(smartAccount, written, accounting), reader, read);
            v.Valid? ==> v == Valid(accounting)
  {
    LowerTwice(smartAccount);
    ClassifiedAsValidIff(Lower(smartAccount), reader, written, read, ToWire(accounting));
    WireRoundTrip(accounting);
  }

  lemma ClassifiedAsValidIff(tenant: string, reader: string, written: int, read: int, w: Wire)
    ensures var v := ClassifyAnchor(File(BOOTSTRAP_SCHEMA_VERSION, tenant, Some(written), Some(w)), reader, read);
            && (v.Valid? <==> Lower(tenant) == Lower(reader) && WireReadable(w)
                              && -BOOTSTRAP_MAX_AGE_SEC <= read - written <= BOOTSTRAP_MAX_AGE_SEC)
            && (v.Valid? ==> v == Valid(FromWire(w)))
  {
  }

  /** Which refusal an anchor meets: no file; one this reader does not speak; one written more
    * than six hours before; and malformed for everything else, another account's, one without
    * a date or a readable block, and one from more than six hours ahead. */
  lemma AnchorRefusedBecause(raw: Anchor, tenantId: string, nowSec: int)
    ensures var v := ClassifyAnchor(raw, tenantId, nowSec);
            var sound := raw.File? && raw.schemaVersion == 1 && Lower(raw.tenantId) == Lower(tenantId)
                         && raw.generatedAt.Some? && raw.accounting.Some? && WireReadable(raw.accounting.value);
            && (v == Absent <==> raw == Missing)
            && (v == UnsupportedVersion <==> raw.File? && raw.schemaVersion != 1)
            && (v.Stale? <==> sound && raw.generatedAt.value + 21600 < nowSec)
            && (v.Stale? ==> v.ageSec == nowSec - raw.generatedAt.value)
            && (v.Valid? <==> sound && raw.generatedAt.value - 21600 <= nowSec <= raw.generatedAt.value + 21600)
  {
  }

  // ── what it entitles the worker to claim ───────────────────────────────────

  datatype OpeningBalanceLicence = NewAccount | Resume | NoLicence | SelfHostedLocal

  datatype AccountingLicence = AccountingLicence(
    licence: OpeningBalanceLicence, contributionsKnown: bool, netContributionsUsdg: Option<int>,
    highWaterMarkUsdg: Option<int>, lastObservedCashUsdg: Option<int>, accountingEpoch: Option<int>)

  const NO_LICENCE := AccountingLicence(NoLicence, false, None, None, None, None)

  function LicenceOf(verdict: AnchorVerdict, hosted: bool): AccountingLicence {
    if !hosted then NO_LICENCE.(licence := SelfHostedLocal, contributionsKnown := true)
    else if !verdict.Valid? then NO_LICENCE
    else
      var a := verdict.accounting;
      match a
      case NoPriorAccounting(_) => NO_LICENCE.(licence := NewAccount, contributionsKnown := true)
      case Unknown(_) => NO_LICENCE
      case Established(hwm, net, anchored, unanchored, _, cash, epoch, _) =>
        AccountingLicence(Resume, anchored == Some(net) && unanchored == Some(0), Some(net), Some(hwm), cash, Some(epoch))
  }

  datatype FirstObservationPlan =
    | BookOpeningBalance(amountUsdg: int)
    | LegacyLocal
    | ResumeClean
    | ResumeWithDrift(driftUsdg: int)
    | StandDown

  function PlanFirstObservation(
    licence: OpeningBalanceLicence, equityUsdg: int, cashUsdg: int, anchorCashUsdg: Option<int>,
    materialDriftUsdg: int): FirstObservationPlan
  {
    match licence
    case SelfHostedLocal => LegacyLocal
    case NewAccount => BookOpeningBalance(equityUsdg)
    case Resume =>
      var drift := if anchorCashUsdg.None? then 0 else cashUsdg - anchorCashUsdg.value;
      if drift > materialDriftUsdg || drift < -materialDriftUsdg then ResumeWithDrift(drift) else ResumeClean
    case NoLicence => StandDown
  }

  /** A hosted child books an opening balance if and only if the parent read the durable
    * state, found none, and said so in a file this child can trust. */
  lemma HostedBookingNeedsAnEmptyDurableState(
    shared: Option<Durable>, account: string, written: int, read: int,
    equityUsdg: int, cashUsdg: int, materialDriftUsdg: int)
    ensures var a := DeriveBootstrapAccounting(shared, written);
            var l := LicenceOf(ClassifyAnchor(WriteAnchor(account, written, a), account, read), true);
            PlanFirstObservation(l.licence, equityUsdg, cashUsdg, l.lastObservedCashUsdg, materialDriftUsdg).BookOpeningBalance? <==>
              && -BOOTSTRAP_MAX_AGE_SEC <= read - written <= BOOTSTRAP_MAX_AGE_SEC
              && shared.Some?
              && HighWaterMark(shared.value) == 0
              && (forall f | f in shared.value.flows :: f.epoch != DurableEpoch(shared.value))
              && shared.value.marks == []
              && shared.value.accruals == 0
  {
    var a := DeriveBootstrapAccounting(shared, written);
    AnchorRoundTrip(account, account, written, read, a);
    NewIffNothingDurable(shared, written);
  }

  /** What a child does at its first observation: without a parent the local ledger answers
    * for itself; under one it stands down and claims nothing unless the file is trustworthy
    * and the durable state was read. */
  lemma FirstObservationIs(
    verdict: AnchorVerdict, hosted: bool, equityUsdg: int, cashUsdg: int, materialDriftUsdg: int)
    ensures var l := LicenceOf(verdict, hosted);
            var plan := PlanFirstObservation(l.licence, equityUsdg, cashUsdg, l.lastObservedCashUsdg, materialDriftUsdg);
            && (plan == LegacyLocal <==> !hosted)
            && (plan == StandDown <==> hosted && (!verdict.Valid? || verdict.accounting.Unknown?))
            && (plan.BookOpeningBalance? <==> hosted && verdict.Valid? && verdict.accounting.NoPriorAccounting?)
            && (plan.BookOpeningBalance? ==> plan.amountUsdg == equityUsdg)
            && (plan == StandDown ==> !l.contributionsKnown)
            && (plan == LegacyLocal || plan.BookOpeningBalance? ==> l.contributionsKnown)
            && (!l.licence.Resume? ==>
                  l.netContributionsUsdg == None && l.highWaterMarkUsdg == None && l.lastObservedCashUsdg == None
                  && l.accountingEpoch == None)
  {
  }

  // ── what an established account is resumed with ────────────────────────────

  /** The newest of the marks, of one epoch or of all: the latest, the last written on a tie. */
  predicate IsNewest(marks: seq<DurableMark>, epoch: Option<int>, k: nat) {
    && k < |marks| && (epoch.Some? ==> marks[k].epoch == epoch.value)
    && forall j | 0 <= j < |marks| && (epoch.Some? ==> marks[j].epoch == epoch.value) ::
         marks[j].at < marks[k].at || (marks[j].at == marks[k].at && j <= k)
  }

  lemma {:induction false} NewestIsTheNewest(marks: seq<DurableMark>, epoch: Option<int>) returns (k: nat)
    ensures Newest(marks, epoch).Some? ==> IsNewest(marks, epoch, k) && Newest(marks, epoch) == Some(marks[k])
    ensures Newest(marks, epoch).None? ==>
              forall j | 0 <= j < |marks| :: epoch.Some? && marks[j].epoch != epoch.value
  {
    k := 0;
    if marks != [] {
      var n := |marks| - 1;
      k := NewestIsTheNewest(marks[..n], epoch);
      assert forall j | 0 <= j < n :: marks[..n][j] == marks[j];
      if Newest(marks, epoch) != Newest(marks[..n], epoch) || Newest(marks[..n], epoch).None? { k := n; }
      if Newest(marks, epoch).Some? && !IsNewest(marks, epoch, k) { k := n; }
    }
  }

  /** There is one newest mark. */
  lemma NewestIsUnique(marks: seq<DurableMark>, epoch: Option<int>, k: nat)
    requires IsNewest(marks, epoch, k)
    ensures Newest(marks, epoch) == Some(marks[k])
  {
    var j := NewestIsTheNewest(marks, epoch);
  }

  /** What the flows of one epoch came to in one direction. */
  function Moved(flows: seq<DurableFlow>, epoch: int, inbound: bool): int {
    if flows == [] then 0 else
      var f := flows[|flows| - 1];
      Moved(flows[..|flows| - 1], epoch, inbound) + if f.epoch == epoch && f.inbound == inbound then f.amountUsdg else 0
  }

  /** What the inbound carries of one epoch came to. */
  function Carried(flows: seq<DurableFlow>, epoch: int): int {
    if flows == [] then 0 else
      var f := flows[|flows| - 1];
      Carried(flows[..|flows| - 1], epoch)
      + if f.epoch == epoch && f.inbound && f.source == "epoch-carry" then f.amountUsdg else 0
  }

  lemma {:induction false} NetsAreSums(
    flows: seq<DurableFlow>, epoch: int, ours: DurableFlow -> bool, carries: DurableFlow -> bool)
    requires forall f :: ours(f) == InEpoch(f, epoch)
    requires forall f :: carries(f) == (InEpoch(f, epoch) && Carry(f))
    ensures NetWhere(flows, ours) == Moved(flows, epoch, true) - Moved(flows, epoch, false)
    ensures NetWhere(flows, carries) == Carried(flows, epoch)
  {
    if flows != [] { NetsAreSums(flows[..|flows| - 1], epoch, ours, carries); }
  }

  /** The account's epoch: what its row says, from 1 on. */
  predicate IsTheEpoch(d: Durable, epoch: int) {
    epoch == if d.agent.None? || d.agent.value.epoch < 1 then 1 else d.agent.value.epoch
  }

  predicate IsReceiptOrCarry(f: DurableFlow) {
    f.hasTx || f.source == "epoch-carry"
  }

  /** Mark `k` closed the epoch before, and the carries open with its equity. */
  predicate BackedBy(d: Durable, epoch: int, k: nat) {
    && IsNewest(d.marks, Some(epoch - 1), k)
    && Carried(d.flows, epoch) - d.marks[k].equityUsdg <= CARRY_TOLERANCE
    && d.marks[k].equityUsdg - Carried(d.flows, epoch) <= CARRY_TOLERANCE
  }

  ghost predicate CarryIsBacked(d: Durable, epoch: int) {
    epoch > 1 && exists k: nat :: BackedBy(d, epoch, k)
  }

  /** On the resume path contributions are known if and only if every flow of the epoch is a
    * receipt or a carry and, where a carry opened it, the newest mark of the epoch before
    * is there and agrees with what was carried. */
  lemma KnownIffEveryFlowIsEvidence(d: Durable, epoch: int, nowSec: int)
    requires IsTheEpoch(d, epoch) && DeriveBootstrapAccounting(Some(d), nowSec).Established?
    ensures LicenceOf(Valid(DeriveBootstrapAccounting(Some(d), nowSec)), true).contributionsKnown <==>
              && (forall f | f in d.flows && f.epoch == epoch :: IsReceiptOrCarry(f))
              && ((exists f | f in d.flows :: f.epoch == epoch && f.inbound && f.source == "epoch-carry") ==>
                    CarryIsBacked(d, epoch))
  {
    var ours := (f: DurableFlow) => InEpoch(f, epoch);
    var anchored := (f: DurableFlow) => InEpoch(f, epoch) && Anchored(f);
    var carries := (f: DurableFlow) => InEpoch(f, epoch) && Carry(f);
    AnchoredAmongOurs(d.flows, epoch, ours, anchored);
    NetsAreSums(d.flows, epoch, ours, carries);
    CountIsZeroIff(d.flows, carries);
    ReconcilesIffBacked(d, epoch);
  }

  lemma ReconcilesIffBacked(d: Durable, epoch: int)
    ensures CarryIsBacked(d, epoch) <==>
              && epoch > 1 && Newest(d.marks, Some(epoch - 1)).Some?
              && CarryReconciles(Carried(d.flows, epoch), Some(Newest(d.marks, Some(epoch - 1)).value.equityUsdg))
  {
    var k := NewestIsTheNewest(d.marks, Some(epoch - 1));
    if CarryIsBacked(d, epoch) {
      var j: nat :| BackedBy(d, epoch, j);
      NewestIsUnique(d.marks, Some(epoch - 1), j);
    }
    if Newest(d.marks, Some(epoch - 1)).Some? {
      assert BackedBy(d, epoch, k) <==>
             CarryReconciles(Carried(d.flows, epoch), Some(Newest(d.marks, Some(epoch - 1)).value.equityUsdg));
    }
  }

  /** The child resumes with the durable figures themselves: the peak and epoch of the agents
    * row, the epoch's inflows less its outflows, and the cash of the newest mark of all. */
  lemma ResumedFigures(d: Durable, epoch: int, nowSec: int, k: nat)
    requires IsTheEpoch(d, epoch) && DeriveBootstrapAccounting(Some(d), nowSec).Established?
    ensures var l := LicenceOf(Valid(DeriveBootstrapAccounting(Some(d), nowSec)), true);
            && l.licence == Resume && l.accountingEpoch == Some(epoch)
            && l.highWaterMarkUsdg == Some(if d.agent.Some? then d.agent.value.hwmUsdg else 0)
            && l.netContributionsUsdg == Some(Moved(d.flows, epoch, true) - Moved(d.flows, epoch, false))
            && (d.marks == [] ==> l.lastObservedCashUsdg == None)
            && (IsNewest(d.marks, None, k) ==> l.lastObservedCashUsdg == Some(d.marks[k].cashUsdg))
  {
    var ours := (f: DurableFlow) => InEpoch(f, epoch);
    var carries := (f: DurableFlow) => InEpoch(f, epoch) && Carry(f);
    NetsAreSums(d.flows, epoch, ours, carries);
    if IsNewest(d.marks, None, k) { NewestIsUnique(d.marks, None, k); }
  }

  lemma {:induction false} MaxAtIsTheLatest(flows: seq<DurableFlow>, epoch: int)
    ensures MaxAt(flows, epoch) >= 0
    ensures forall f <- flows | f.epoch == epoch :: f.at <= MaxAt(flows, epoch)
    ensures MaxAt(flows, epoch) > 0 ==> exists f <- flows :: f.epoch == epoch && f.at == MaxAt(flows, epoch)
  {
    if flows != [] {
      var front, last := flows[..|flows| - 1], flows[|flows| - 1];
      MaxAtIsTheLatest(front, epoch);
      assert flows == front + [last];
      if MaxAt(flows, epoch) > 0 {
        if last.epoch == epoch && last.at == MaxAt(flows, epoch) {
          assert last in flows;
        } else {
          var f :| f in front && f.epoch == epoch && f.at == MaxAt(front, epoch);
          assert f in flows;
        }
      }
    }
  }

  /** When the epoch's flows and the newest mark say they were observed. */
  ghost predicate ObservedThen(d: Durable, epoch: int, k: nat, at: int) {
    (k < |d.marks| && d.marks[k].at == at) || exists f <- d.flows :: f.epoch == epoch && f.at == at
  }

  /** The anchor is as fresh as the freshest of what it rests on, the epoch's flows and the
    * newest mark; resting on nothing that is dated, as fresh as the reading itself. */
  lemma ObservedAtIsTheFreshest(d: Durable, epoch: int, nowSec: int, k: nat)
    requires IsTheEpoch(d, epoch) && DeriveBootstrapAccounting(Some(d), nowSec).Established?
    requires if d.marks == [] then k == 0 else IsNewest(d.marks, None, k)
    ensures var at := DeriveBootstrapAccounting(Some(d), nowSec).observedAt;
            if exists t | t > 0 :: ObservedThen(d, epoch, k, t)
            then at > 0 && ObservedThen(d, epoch, k, at) && forall t | t > at :: !ObservedThen(d, epoch, k, t)
            else at == nowSec
  {
    MaxAtIsTheLatest(d.flows, epoch);
    if d.marks != [] { NewestIsUnique(d.marks, None, k); }
    var latest := MaxAt(d.flows, epoch);
    if latest > 0 { assert ObservedThen(d, epoch, k, latest); }
    if d.marks != [] { assert ObservedThen(d, epoch, k, d.marks[k].at); }
  }

  /** A resumed child that finds its cash further from that mark than is material stands down
    * from pricing the difference, in either direction, and otherwise carries on. */
  lemma DriftIsSeenIff(
    d: Durable, nowSec: int, k: nat, equityUsdg: int, cashUsdg: int, materialDriftUsdg: int)
    requires DeriveBootstrapAccounting(Some(d), nowSec).Established? && IsNewest(d.marks, None, k)
    ensures var l := LicenceOf(Valid(DeriveBootstrapAccounting(Some(d), nowSec)), true);
            PlanFirstObservation(l.licence, equityUsdg, cashUsdg, l.lastObservedCashUsdg, materialDriftUsdg) ==
            if -materialDriftUsdg <= cashUsdg - d.marks[k].cashUsdg <= materialDriftUsdg then ResumeClean
            else ResumeWithDrift(cashUsdg - d.marks[k].cashUsdg)
  {
    NewestIsUnique(d.marks, None, k);
  }

  lemma {:induction false} AnchoredAmongOurs(
    flows: seq<DurableFlow>, epoch: int, ours: DurableFlow -> bool, anchored: DurableFlow -> bool)
    requires forall f :: ours(f) == InEpoch(f, epoch)
    requires forall f :: anchored(f) == (InEpoch(f, epoch) && Anchored(f))
    ensures Count(flows, anchored) <= Count(flows, ours)
    ensures Count(flows, anchored) == Count(flows, ours) <==>
              forall f | f in flows && f.epoch == epoch :: Anchored(f)
    ensures Count(flows, anchored) == Count(flows, ours) ==> NetWhere(flows, anchored) == NetWhere(flows, ours)
  {
    if flows != [] {
      var n := |flows| - 1;
      AnchoredAmongOurs(flows[..n], epoch, ours, anchored);
      assert flows == flows[..n] + [flows[n]];
      assert flows[n] in flows;
    }
  }

  // ── doubt is sticky ────────────────────────────────────────────────────────

  datatype ContributionTruth = ContributionTruth(known: bool, doubted: bool)

  const INITIAL_TRUTH := ContributionTruth(false, false)

  function FoldLicence(prev: ContributionTruth, l: AccountingLicence): ContributionTruth {
    if prev.doubted then ContributionTruth(false, true) else ContributionTruth(l.contributionsKnown, false)
  }

  function Doubt(): ContributionTruth {
    ContributionTruth(false, true)
  }

  datatype TruthEvent = Rearmed(licence: AccountingLicence) | Doubted

  function Believed(events: seq<TruthEvent>): ContributionTruth {
    if events == [] then INITIAL_TRUTH else
      match events[|events| - 1]
      case Rearmed(l) => FoldLicence(Believed(events[..|events| - 1]), l)
      case Doubted => Doubt()
  }

  /** Over the life of a process contributions are believed exactly when nothing ever cast
    * doubt on them and the latest anchor vouches for them. */
  lemma {:induction false} DoubtIsNeverLifted(events: seq<TruthEvent>)
    ensures Believed(events).doubted <==> Doubted in events
    ensures Believed(events).known <==>
              Doubted !in events && events != [] && events[|events| - 1].licence.contributionsKnown
  {
    if events != [] {
      var n := |events| - 1;
      DoubtIsNeverLifted(events[..n]);
      assert events == events[..n] + [events[n]];
    }
  }
}
