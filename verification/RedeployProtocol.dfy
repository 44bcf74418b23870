/** The redeploy protocol: a parent that spawns one child at a time with a fresh anchor,
  * a child whose database may not survive it, and a one-way mirror between them
  * (worker/src/bootstrap-source.ts, bootstrap-state.ts; the steps of orchestrator.ts,
  * ledger-mirror.ts and index.ts that drive them). */
module RedeployProtocol {
  import opened Text
  import opened Bootstrap

  /** The child's own database: rows in id order. `oldTrades` says whether a trade filed in
    * epoch 1 predates the accounting fix. */
  datatype Local = Local(
    flows: seq<DurableFlow>, marks: seq<DurableMark>, accruals: nat, hwmUsdg: int, epoch: int, oldTrades: bool)

  /** A live child: the licence it armed with, and whether it has observed a balance yet. */
  datatype Process = Process(licence: AccountingLicence, observed: bool)

  /** `flowCursor` is the mirror's watermark into the child's flow ids; it is stored beside
    * the shared tables and outlives the database it points into. */
  datatype World = World(
    shared: Durable, flowCursor: nat, markCursor: nat, home: Local, child: Option<Process>, nextBooking: nat)

  /** A tick observes the balance when no chain scan covers it. What it books goes through
    * several writes that fail apart: the row that lands, the peak that is `raised` with it,
    * and the read and the event after them. Only when those go through as well is the
    * observation `recorded`; otherwise the next tick observes again. A row that does not land
    * is no step: the tick throws before anything changed. */
  datatype Step =
    | Spawn(readOk: bool, now: int, delaySec: int)   // derive, write the anchor, start the child, let it arm
    | Observe(equityUsdg: int, cashUsdg: int, raised: bool, recorded: bool)
    | ScanCovers                                      // a tick whose chain scan covers it, nothing is inferred
    | RecordFlow(flow: DurableFlow)                   // any other flow the child books
    | RecordMark(mark: DurableMark)
    | RecordTrade(at: int)
    | RecordAccrual
    | MirrorFlows(batch: nat) | MirrorMarks(batch: nat) | MirrorAccruals | MirrorAgent
    | Redeploy                                        // the process and its database are gone
    | Restart                                         // the process dies, its home survives

  const FRESH_HOME := Local([], [], 0, 0, 1, false)

  /** Rows older than this were written before the accounting was fixed. */
  const ACCOUNTING_FIXED_AT := 1_787_704_075

  function Max(a: int, b: int): int {
    if a >= b then a else b
  }

  function ArmedWith(w: World, readOk: bool, now: int, delaySec: int): AccountingLicence {
    var a := DeriveBootstrapAccounting(if readOk then Some(w.shared) else None, now);
    LicenceOf(ClassifyAnchor(WriteAnchor("account", now, a), "account", now + delaySec), true)
  }

  /** Arming restores the anchored peak and epoch; neither ever goes down. */
  function Restore(home: Local, l: AccountingLicence): Local {
    home.(hwmUsdg := if l.highWaterMarkUsdg.Some? then Max(home.hwmUsdg, l.highWaterMarkUsdg.value) else home.hwmUsdg,
          epoch := if l.accountingEpoch.Some? then Max(home.epoch, l.accountingEpoch.value) else home.epoch)
  }

  predicate OldHistory(home: Local) {
    home.oldTrades || exists m | m in home.marks :: m.epoch == 1 && m.at < ACCOUNTING_FIXED_AT
  }

  /** The capital carried over an epoch boundary: the last equity reading of epoch 1. */
  function CarriedOver(home: Local, at: int): seq<DurableFlow> {
    var last := Newest(home.marks, Some(1));
    if last.Some? && last.value.equityUsdg > 0
    then [DurableFlow(2, true, last.value.equityUsdg, false, "epoch-carry", at, None)] else []
  }

  /** Later in the same arming, a ledger with history from before the fix opens epoch 2. */
  function CrossBoundary(home: Local, at: int): Local {
    if home.epoch == 1 && OldHistory(home)
    then home.(epoch := 2, flows := home.flows + CarriedOver(home, at)) else home
  }

  function OpeningBalance(w: World, amount: int): DurableFlow {
    DurableFlow(w.home.epoch, true, amount, false, "inferred", 0, Some(w.nextBooking))
  }

  /** Where the mirror resumes: past the rows it copied, or from the start when the row it
    * last copied is no longer there. */
  function ResumeAt(cursor: nat, rows: nat): nat {
    if cursor <= rows then cursor else 0
  }

  /** How far one pass reads: at most a batch of rows. */
  function ReadTo(cursor: nat, rows: nat, batch: nat): (upTo: nat)
    ensures ResumeAt(cursor, rows) <= upTo <= rows
  {
    var start := ResumeAt(cursor, rows);
    if rows - start <= batch then rows else start + batch
  }

  /** A pass that finds no row leaves the watermark as it was. */
  function CursorAfter(cursor: nat, rows: nat, batch: nat): nat {
    if ReadTo(cursor, rows, batch) == ResumeAt(cursor, rows) then cursor else ReadTo(cursor, rows, batch)
  }

  function CopiedRows<T>(rows: seq<T>, cursor: nat, batch: nat): seq<T> {
    rows[ResumeAt(cursor, |rows|)..ReadTo(cursor, |rows|, batch)]
  }

  function Copied(w: World, batch: nat): seq<DurableFlow> {
    CopiedRows(w.home.flows, w.flowCursor, batch)
  }

  function Planned(p: Process, equityUsdg: int, cashUsdg: int): FirstObservationPlan {
    PlanFirstObservation(p.licence.licence, equityUsdg, cashUsdg, p.licence.lastObservedCashUsdg, 0)
  }

  function Next(w: World, s: Step): World {
    match s
    case Spawn(readOk, now, delaySec) =>
      if w.child.Some? then w else
        var l := ArmedWith(w, readOk, now, delaySec);
        w.(child := Some(Process(l, false)), home := CrossBoundary(Restore(w.home, l), now + delaySec))
    case Observe(equity, cash, raised, recorded) =>
      if w.child.None? || w.child.value.observed then w else
        var plan := Planned(w.child.value, equity, cash);
        var seen := w.(child := Some(w.child.value.(observed := recorded)));
        if plan.BookOpeningBalance? && plan.amountUsdg > 0 then
          seen.(home := w.home.(flows := w.home.flows + [OpeningBalance(w, plan.amountUsdg)],
                                hwmUsdg := if raised then Max(0, w.home.hwmUsdg + plan.amountUsdg) else w.home.hwmUsdg),
                nextBooking := w.nextBooking + 1)
        else seen
    case ScanCovers =>
      if w.child.None? then w else w.(child := Some(w.child.value.(observed := true)))
    case RecordFlow(flow) =>
      if w.child.None? then w
      else w.(home := w.home.(flows := w.home.flows + [flow.(booking := None, epoch := w.home.epoch)]))
    case RecordMark(mark) =>
      if w.child.None? then w
      else w.(home := w.home.(marks := w.home.marks + [mark.(epoch := w.home.epoch)],
                              hwmUsdg := Max(w.home.hwmUsdg, mark.equityUsdg)))
    case RecordTrade(at) =>
      if w.child.None? then w
      else w.(home := w.home.(oldTrades := w.home.oldTrades || (w.home.epoch == 1 && at < ACCOUNTING_FIXED_AT)))
    case RecordAccrual =>
      if w.child.None? then w else w.(home := w.home.(accruals := w.home.accruals + 1))
    case MirrorFlows(batch) =>
      w.(shared := w.shared.(flows := w.shared.flows + Copied(w, batch)),
         flowCursor := CursorAfter(w.flowCursor, |w.home.flows|, batch))
    case MirrorMarks(batch) =>
      w.(shared := w.shared.(marks := w.shared.marks + CopiedRows(w.home.marks, w.markCursor, batch)),
         markCursor := CursorAfter(w.markCursor, |w.home.marks|, batch))
    case MirrorAccruals =>
      w.(shared := w.shared.(accruals := w.shared.accruals + w.home.accruals))
    case MirrorAgent =>
      if w.child.None? then w else
        w.(shared := w.shared.(agent := Some(AgentAccounting(
          Max(HighWaterMark(w.shared), w.home.hwmUsdg), Max(DurableEpoch(w.shared), w.home.epoch)))))
    case Redeploy => w.(child := None, home := FRESH_HOME)
    case Restart => w.(child := None)
  }

  function Run(w: World, steps: seq<Step>): World {
    if steps == [] then w else Next(Run(w, steps[..|steps| - 1]), steps[|steps| - 1])
  }

  // ── the safety property ────────────────────────────────────────────────────

  function Opening(f: DurableFlow): bool {
    f.booking.Some?
  }

  /** Openings are counted as rows in the shared ledger and in the child's own. */
  function SharedOpenings(w: World): nat {
    Count(w.shared.flows, Opening)
  }

  function LocalOpenings(w: World): nat {
    Count(w.home.flows, Opening)
  }

  /** One opening balance at most in shared plus live-local state: one shared row, one local
    * row, and when both are there the local row is the very booking the mirror copied. */
  ghost predicate AtMostOneOpening(w: World) {
    && SharedOpenings(w) <= 1
    && LocalOpenings(w) <= 1
    && forall f, g | f in w.shared.flows && g in w.home.flows && Opening(f) && Opening(g) :: f.booking == g.booking
  }

  predicate OnRecord(w: World) {
    SharedOpenings(w) > 0 || LocalOpenings(w) > 0
  }

  /** The durable state reads as new although an opening balance was already made. */
  predicate Exposed(w: World) {
    DeriveBootstrapAccounting(Some(w.shared), 0).NoPriorAccounting? && OnRecord(w)
  }

  /** A live child that may still book an opening balance. */
  predicate Licensed(w: World) {
    w.child.Some? && !w.child.value.observed && w.child.value.licence.licence.NewAccount?
  }

  /** The rows of the child's ledger the mirror has not copied and may still copy hold no
    * opening the shared ledger already has. */
  ghost predicate NotRecopied(w: World) {
    SharedOpenings(w) > 0 && LocalOpenings(w) > 0 ==>
      w.flowCursor <= |w.home.flows| && NoneFrom(w.home.flows, w.flowCursor)
  }

  ghost predicate NoneFrom(rows: seq<DurableFlow>, k: nat) {
    forall i | k <= i < |rows| :: !Opening(rows[i])
  }

  ghost predicate BookedBelow(flows: seq<DurableFlow>, next: nat) {
    forall f | f in flows && Opening(f) :: f.booking.value < next
  }

  /** At most one opening, and what keeps a mirror pass and the next booking from hiding a
    * second: bookings are numbered below the next one. */
  ghost predicate Inv(w: World) {
    && AtMostOneOpening(w) && NotRecopied(w)
    && BookedBelow(w.shared.flows, w.nextBooking) && BookedBelow(w.home.flows, w.nextBooking)
  }

  /** And no live child holds a licence to book over an opening already made. */
  ghost predicate Steady(w: World) {
    Inv(w) && !(Licensed(w) && OnRecord(w))
  }

  /** The two ways a licence comes to stand over an opening already made: a fresh anchor
    * derived from an exposed durable state, and a booking whose observation is lost. */
  predicate Rearms(w: World, s: Step) {
    && s.Spawn? && s.readOk && -BOOTSTRAP_MAX_AGE_SEC <= s.delaySec <= BOOTSTRAP_MAX_AGE_SEC
    && w.child.None? && Exposed(w)
  }

  predicate Loses(w: World, s: Step) {
    s.Observe? && !s.recorded && s.equityUsdg > 0 && Licensed(w)
  }

  ghost predicate SteadyAt(w: World, steps: seq<Step>, k: nat)
    requires k <= |steps|
  {
    Steady(Run(w, steps[..k]))
  }

  predicate SafeAt(w: World, steps: seq<Step>, k: nat)
    requires k < |steps|
  {
    !Rearms(Run(w, steps[..k]), steps[k]) && !Loses(Run(w, steps[..k]), steps[k])
  }

  ghost predicate SafeSteps(w: World, steps: seq<Step>) {
    forall k | 0 <= k < |steps| :: SafeAt(w, steps, k)
  }

  /** Before anything happened: no child, an empty home, no opening on record. */
  predicate Initial(w: World) {
    w.child.None? && w.home == FRESH_HOME && SharedOpenings(w) == 0
  }

  lemma InitialIsSteady(w: World)
    requires Initial(w)
    ensures Steady(w)
  {
    CountIsZeroIff(w.shared.flows, Opening);
  }

  lemma {:induction false} CountConcat(a: seq<DurableFlow>, b: seq<DurableFlow>, p: DurableFlow -> bool)
    ensures Count(a + b, p) == Count(a, p) + Count(b, p)
  {
    if b == [] {
      assert a + b == a;
    } else {
      CountConcat(a, b[..|b| - 1], p);
      assert (a + b)[..|a + b| - 1] == a + b[..|b| - 1];
    }
  }

  lemma CountOne(f: DurableFlow, p: DurableFlow -> bool)
    ensures Count([f], p) == if p(f) then 1 else 0
  {
    assert [f][..0] == [];
  }

  // ── one step ───────────────────────────────────────────────────────────────

  /** A row that opens nothing changes neither count, wherever the mirror stands. */
  lemma AppendKeepsInv(w: World, f: DurableFlow, v: World)
    requires Inv(w) && f.booking.None?
    requires v.home.flows == w.home.flows + [f] && v.shared.flows == w.shared.flows
    requires v.flowCursor == w.flowCursor && v.nextBooking == w.nextBooking
    ensures Inv(v) && (OnRecord(v) <==> OnRecord(w))
  {
    CountConcat(w.home.flows, [f], Opening);
    CountOne(f, Opening);
  }

  /** The licence a spawn hands out is for a new account exactly when the durable state was
    * read, reads as new, and reaches the child in time. */
  lemma ArmedAsNewIff(w: World, readOk: bool, now: int, delaySec: int)
    ensures ArmedWith(w, readOk, now, delaySec).licence.NewAccount? <==>
              && readOk && -BOOTSTRAP_MAX_AGE_SEC <= delaySec <= BOOTSTRAP_MAX_AGE_SEC
              && DeriveBootstrapAccounting(Some(w.shared), 0).NoPriorAccounting?
  {
    var shared := if readOk then Some(w.shared) else None;
    AnchorRoundTrip("account", "account", now, now + delaySec, DeriveBootstrapAccounting(shared, now));
    NewIffNothingDurable(shared, now);
    NewIffNothingDurable(Some(w.shared), 0);
  }

  /** A child spawned over a durable state that reads as new, its anchor in time. */
  lemma SpawnedAsNew(w: World, now: int)
    requires w.child.None? && DeriveBootstrapAccounting(Some(w.shared), 0).NoPriorAccounting?
    ensures Next(w, Spawn(true, now, 0)) ==
            w.(child := Some(Process(NO_LICENCE.(licence := NewAccount, contributionsKnown := true), false)),
               home := CrossBoundary(w.home, now))
  {
    NewIffNothingDurable(Some(w.shared), 0);
    NewIffNothingDurable(Some(w.shared), now);
    AnchorRoundTrip("account", "account", now, now, DeriveBootstrapAccounting(Some(w.shared), now));
    var l := NO_LICENCE.(licence := NewAccount, contributionsKnown := true);
    assert ArmedWith(w, true, now, 0) == l;
    assert Restore(w.home, l) == w.home;
  }

  lemma SpawnIsSafeIff(w: World, s: Step)
    requires Steady(w) && s.Spawn?
    ensures Inv(Next(w, s)) && (Steady(Next(w, s)) <==> !Rearms(w, s))
  {
    if w.child.None? {
      ArmedAsNewIff(w, s.readOk, s.now, s.delaySec);
      var v := Next(w, s);
      var restored := Restore(w.home, ArmedWith(w, s.readOk, s.now, s.delaySec));
      if v.home.flows != w.home.flows {
        AppendKeepsInv(w, CarriedOver(restored, s.now + s.delaySec)[0], v);
      }
    }
  }

  /** A booking leaves its opening on record; if one was there already, the property is gone. */
  lemma BookingAddsOne(w: World, s: Step)
    requires Inv(w) && s.Observe? && Licensed(w) && s.equityUsdg > 0
    ensures LocalOpenings(Next(w, s)) == LocalOpenings(w) + 1 && Next(w, s).shared == w.shared
    ensures OnRecord(w) ==> !AtMostOneOpening(Next(w, s))
    ensures !OnRecord(w) ==> Inv(Next(w, s))
  {
    var f := OpeningBalance(w, s.equityUsdg);
    var v := Next(w, s);
    assert v.home.flows == w.home.flows + [f];
    CountConcat(w.home.flows, [f], Opening);
    CountOne(f, Opening);
    CountIsZeroIff(w.shared.flows, Opening);
    assert f in v.home.flows;
  }

  lemma ObserveIsSafeIff(w: World, s: Step)
    requires Steady(w) && s.Observe?
    ensures Inv(Next(w, s)) && (Steady(Next(w, s)) <==> !Loses(w, s))
  {
    if Licensed(w) && s.equityUsdg > 0 { BookingAddsOne(w, s); }
  }

  lemma CountOfParts(before: seq<DurableFlow>, part: seq<DurableFlow>, after: seq<DurableFlow>)
    ensures Count(part, Opening) <= Count(before + (part + after), Opening)
  {
    CountConcat(before, part + after, Opening);
    CountConcat(part, after, Opening);
  }

  /** Where there is at most one opening, all openings are that one. */
  lemma {:induction false} OneOpening(rows: seq<DurableFlow>)
    requires Count(rows, Opening) <= 1
    ensures forall i, j | 0 <= i < |rows| && 0 <= j < |rows| && Opening(rows[i]) && Opening(rows[j]) :: i == j
  {
    if rows != [] {
      var n := |rows| - 1;
      OneOpening(rows[..n]);
      CountIsZeroIff(rows[..n], Opening);
      assert forall i | 0 <= i < n :: rows[..n][i] == rows[i] && rows[..n][i] in rows[..n];
    }
  }

  /** A pass copies at most the opening the child booked, and nothing once the shared ledger
    * has it. */
  lemma CopiedOpenings(w: World, batch: nat)
    requires Inv(w)
    ensures Count(Copied(w, batch), Opening) <= LocalOpenings(w) <= 1
    ensures SharedOpenings(w) > 0 ==> Count(Copied(w, batch), Opening) == 0
  {
    var rows := w.home.flows;
    var start, upTo := ResumeAt(w.flowCursor, |rows|), ReadTo(w.flowCursor, |rows|, batch);
    assert rows == rows[..start] + (Copied(w, batch) + rows[upTo..]);
    CountOfParts(rows[..start], Copied(w, batch), rows[upTo..]);
    CountIsZeroIff(Copied(w, batch), Opening);
  }

  /** Once a pass has copied the opening, it is behind the watermark. */
  lemma NothingLeftToCopy(w: World, batch: nat)
    requires Inv(w) && Count(Copied(w, batch), Opening) > 0
    ensures NoneFrom(w.home.flows, ReadTo(w.flowCursor, |w.home.flows|, batch))
  {
    CountIsZeroIff(Copied(w, batch), Opening);
    OneOpening(w.home.flows);
  }

  lemma MirrorKeepsOne(w: World, batch: nat)
    requires Inv(w)
    ensures AtMostOneOpening(Next(w, MirrorFlows(batch)))
    ensures OnRecord(Next(w, MirrorFlows(batch))) <==> OnRecord(w)
  {
    CopiedOpenings(w, batch);
    CountConcat(w.shared.flows, Copied(w, batch), Opening);
    CountIsZeroIff(w.shared.flows, Opening);
    OneOpening(w.home.flows);
    CopiedRowsAreLocal(w, batch);
  }

  lemma CopiedRowsAreLocal(w: World, batch: nat)
    ensures forall f | f in Copied(w, batch) :: f in w.home.flows
  {
  }

  /** No mirror pass, of any batch size and from any watermark, copies a second opening. */
  lemma MirrorKeepsInv(w: World, batch: nat)
    requires Inv(w)
    ensures Inv(Next(w, MirrorFlows(batch)))
    ensures OnRecord(Next(w, MirrorFlows(batch))) <==> OnRecord(w)
  {
    MirrorKeepsOne(w, batch);
    CopiedRowsAreLocal(w, batch);
    var v := Next(w, MirrorFlows(batch));
    assert NotRecopied(v) by {
      CountConcat(w.shared.flows, Copied(w, batch), Opening);
      if Count(Copied(w, batch), Opening) > 0 { NothingLeftToCopy(w, batch); }
    }
  }

  /** A step never books a second opening by itself, and leaves no licence standing over one
    * exactly when it is neither a rearming spawn nor a lost observation. */
  lemma StepIsSafeIff(w: World, s: Step)
    requires Steady(w)
    ensures Inv(Next(w, s)) && (Steady(Next(w, s)) <==> !Rearms(w, s) && !Loses(w, s))
  {
    match s
    case Spawn(_, _, _) => SpawnIsSafeIff(w, s);
    case Observe(_, _, _, _) => ObserveIsSafeIff(w, s);
    case RecordFlow(f) =>
      if w.child.Some? { AppendKeepsInv(w, f.(booking := None, epoch := w.home.epoch), Next(w, s)); }
    case MirrorFlows(batch) => MirrorKeepsInv(w, batch);
    case _ =>
  }

  // ── every run ──────────────────────────────────────────────────────────────

  /** Over every interleaving the promise holds in every state, with no licence standing over
    * an opening already made, if and only if no step rearms and none loses its observation. */
  lemma EveryRunIsSteadyIff(w: World, steps: seq<Step>)
    requires Steady(w)
    ensures (forall k | 0 <= k <= |steps| :: SteadyAt(w, steps, k)) <==> SafeSteps(w, steps)
  {
    if SafeSteps(w, steps) {
      var k := 0;
      while k < |steps|
        invariant 0 <= k <= |steps|
        invariant forall j | 0 <= j <= k :: SteadyAt(w, steps, j)
      {
        PrefixIsSteadyIff(w, steps, k);
        k := k + 1;
      }
    } else {
      var k :| 0 <= k < |steps| && !SafeAt(w, steps, k);
      if SteadyAt(w, steps, k) {
        PrefixIsSteadyIff(w, steps, k);
        assert !SteadyAt(w, steps, k + 1);
      }
    }
  }

  lemma PrefixIsSteadyIff(w: World, steps: seq<Step>, k: nat)
    requires k < |steps| && SteadyAt(w, steps, k)
    ensures SteadyAt(w, steps, k + 1) <==> SafeAt(w, steps, k)
  {
    RunStep(w, steps, k);
    StepIsSafeIff(Run(w, steps[..k]), steps[k]);
  }

  /** So at most one opening balance ever exists in a run of safe steps. */
  lemma AtMostOneOpeningInEveryRun(w: World, steps: seq<Step>)
    requires Initial(w) && SafeSteps(w, steps)
    ensures AtMostOneOpening(Run(w, steps))
  {
    InitialIsSteady(w);
    EveryRunIsSteadyIff(w, steps);
    assert SteadyAt(w, steps, |steps|);
    assert steps[..|steps|] == steps;
  }

  /** And the condition is exact: once a licence stands over an opening already made, the next
    * funded observation breaks the promise. */
  lemma LicenceOverAnOpeningBooksAgain(w: World, s: Step)
    requires Inv(w) && Licensed(w) && OnRecord(w) && s.Observe? && s.equityUsdg > 0
    ensures !AtMostOneOpening(Next(w, s))
  {
    BookingAddsOne(w, s);
  }

  lemma ExposedSpawnBooksAgain(w: World, spawn: Step, s: Step)
    requires Inv(w) && Rearms(w, spawn) && s.Observe? && s.equityUsdg > 0
    ensures !AtMostOneOpening(Next(Next(w, spawn), s))
  {
    ArmedAsNewIff(w, spawn.readOk, spawn.now, spawn.delaySec);
    SpawnIsSafeIff(w, spawn);
    var armed := Next(w, spawn);
    if armed.home.flows != w.home.flows {
      CountConcat(w.home.flows, armed.home.flows[|w.home.flows|..], Opening);
      assert armed.home.flows == w.home.flows + armed.home.flows[|w.home.flows|..];
    }
    BookingAddsOne(armed, s);
  }

  /** A booking whose observation is lost is made again by the next funded tick no chain scan
    * covers, in the same process and whatever the durable state says. */
  lemma LostObservationBooksAgain(w: World, lost: Step, s: Step)
    requires Steady(w) && Loses(w, lost) && s.Observe? && s.equityUsdg > 0
    ensures !AtMostOneOpening(Next(Next(w, lost), s))
  {
    BookingAddsOne(w, lost);
    BookingAddsOne(Next(w, lost), s);
  }

  // ── the deployment the file was written for ────────────────────────────────

  /** Everything on record is filed in epoch 1. */
  ghost predicate FirstEpoch(w: World) {
    && DurableEpoch(w.shared) == 1 && w.home.epoch == 1
    && (forall f | f in w.shared.flows :: f.epoch == 1)
    && (forall f | f in w.home.flows :: f.epoch == 1)
    && (w.child.None? ==> w.home == FRESH_HOME)
  }

  lemma FirstEpochStep(w: World, s: Step)
    requires FirstEpoch(w) && !s.Restart?
    ensures FirstEpoch(Next(w, s))
  {
    match s
    case MirrorFlows(batch) => assert forall f | f in Copied(w, batch) :: f in w.home.flows;
    case _ =>
  }

  lemma RedeployedHomeIsNeverExposed(w: World)
    requires FirstEpoch(w) && w.child.None?
    ensures !Exposed(w)
  {
    NewIffNothingDurable(Some(w.shared), 0);
    CountIsZeroIff(w.shared.flows, Opening);
  }

  /** When every crash takes the child's database with it, every booking gets its observation
    * recorded, and the account is in its first accounting epoch, every interleaving of spawns
    * (with or without a readable database), observations, writes, mirror passes and redeploys
    * keeps at most one opening balance. */
  lemma RedeploysNeverDoubleBook(w: World, steps: seq<Step>)
    requires Initial(w) && FirstEpoch(w) && Restart !in steps
    requires forall s | s in steps && s.Observe? :: s.recorded
    ensures AtMostOneOpening(Run(w, steps))
  {
    InitialIsSteady(w);
    RedeploysStaySteady(w, steps);
  }

  lemma {:induction false} RedeploysStaySteady(w: World, steps: seq<Step>)
    requires Steady(w) && FirstEpoch(w) && Restart !in steps
    requires forall s | s in steps && s.Observe? :: s.recorded
    ensures Steady(Run(w, steps)) && FirstEpoch(Run(w, steps))
  {
    if steps != [] {
      var n := |steps| - 1;
      assert steps == steps[..n] + [steps[n]];
      assert steps[n] in steps;
      RedeploysStaySteady(w, steps[..n]);
      var v := Run(w, steps[..n]);
      if v.child.None? { RedeployedHomeIsNeverExposed(v); }
      StepIsSafeIff(v, steps[n]);
      FirstEpochStep(v, steps[n]);
    }
  }

  lemma RunStep(w: World, steps: seq<Step>, k: nat)
    requires k < |steps|
    ensures Run(w, steps[..k + 1]) == Next(Run(w, steps[..k]), steps[k])
  {
    assert steps[..k + 1][..k] == steps[..k];
  }

  // ── the three ways the promise is lost ─────────────────────────────────────

  const EMPTY_SHARED := Durable(None, [], [], 0)

  const START := World(EMPTY_SHARED, 0, 0, FRESH_HOME, None, 0)

  const BOOK := Observe(10, 10, true, true)

  lemma RunLast(w: World, steps: seq<Step>)
    requires steps != []
    ensures Run(w, steps) == Next(Run(w, steps[..|steps| - 1]), steps[|steps| - 1])
  {
  }

  lemma {:induction false} RunConcat(w: World, a: seq<Step>, b: seq<Step>)
    ensures Run(w, a + b) == Run(Run(w, a), b)
  {
    if b == [] {
      assert a + b == a;
    } else {
      var n := |b| - 1;
      RunConcat(w, a, b[..n]);
      assert (a + b)[..|a| + n] == a + b[..n] && (a + b)[|a| + n] == b[n];
      RunLast(w, a + b);
      RunLast(Run(w, a), b);
    }
  }

  lemma RunTwo(w: World, s: Step, t: Step)
    ensures Run(w, [s, t]) == Next(Next(w, s), t)
  {
    RunStep(w, [s, t], 0);
    RunStep(w, [s, t], 1);
    assert [s, t][..2] == [s, t];
  }

  /** The state of an account whose first child booked its balance and is gone, with no other
    * trace the durable verdict looks at. */
  lemma FirstBooking()
    ensures var w := Next(Next(START, Spawn(true, 0, 0)), BOOK);
            && w.home.flows == [DurableFlow(1, true, 10, false, "inferred", 0, Some(0))]
            && w.shared == EMPTY_SHARED && w.nextBooking == 1 && w.child.Some?
            && Inv(w) && LocalOpenings(w) == 1
  {
    InitialIsSteady(START);
    NewIffNothingDurable(Some(EMPTY_SHARED), 0);
    SpawnedAsNew(START, 0);
    assert !OldHistory(FRESH_HOME);
    BookingAddsOne(Next(START, Spawn(true, 0, 0)), BOOK);
  }

  lemma RestartedChildBooksAgain(w: World)
    requires Inv(w) && w.shared == EMPTY_SHARED && LocalOpenings(w) == 1
    ensures !AtMostOneOpening(Next(Next(Next(w, Restart), Spawn(true, 60, 0)), BOOK))
  {
    NewIffNothingDurable(Some(EMPTY_SHARED), 0);
    ExposedSpawnBooksAgain(Next(w, Restart), Spawn(true, 60, 0), BOOK);
  }

  /** A child that dies between its first observation and the next mirror pass, and whose
    * home survives (a restart inside one container), books its balance twice. */
  lemma RestartBeforeMirrorDoubleBooks()
    ensures var steps := [Spawn(true, 0, 0), BOOK] + [Restart] + [Spawn(true, 60, 0), BOOK];
            Initial(START) && !AtMostOneOpening(Run(START, steps))
  {
    FirstBooking();
    RunConcat(START, [Spawn(true, 0, 0), BOOK] + [Restart], [Spawn(true, 60, 0), BOOK]);
    RunConcat(START, [Spawn(true, 0, 0), BOOK], [Restart]);
    RunTwo(START, Spawn(true, 0, 0), BOOK);
    var w := Run(START, [Spawn(true, 0, 0), BOOK]);
    RunOne(w, Restart);
    RunTwo(Next(w, Restart), Spawn(true, 60, 0), BOOK);
    RestartedChildBooksAgain(w);
  }

  lemma RunOne(w: World, s: Step)
    ensures Run(w, [s]) == Next(w, s)
  {
    assert [s][..0] == [];
  }

  lemma RunSix(w: World, a: Step, b: Step, c: Step, d: Step, e: Step, f: Step)
    ensures Run(w, [a, b] + [c, d] + [e, f]) == Next(Next(Next(Next(Next(Next(w, a), b), c), d), e), f)
  {
    RunConcat(w, [a, b] + [c, d], [e, f]);
    RunConcat(w, [a, b], [c, d]);
    RunTwo(w, a, b);
    RunTwo(Run(w, [a, b]), c, d);
    RunTwo(Run(w, [a, b] + [c, d]), e, f);
  }

  /** An account whose first ledger holds a trade from before the fix crosses into epoch 2
    * when its worker restarts; its agent row reaches the shared database, and nothing else. */
  function ToEpochTwo(): seq<Step> {
    [Spawn(true, 0, 0), RecordTrade(0)] + [Restart, Spawn(true, 60, 0)] + [MirrorAgent, Redeploy]
  }

  const BUMPED := World(Durable(Some(AgentAccounting(0, 2)), [], [], 0), 0, 0, FRESH_HOME, None, 0)

  lemma OldTradeOnRecord(w: World)
    requires w == START
    ensures Next(Next(w, Spawn(true, 0, 0)), RecordTrade(0)).(child := None) ==
            w.(home := FRESH_HOME.(oldTrades := true))
  {
    NewIffNothingDurable(Some(w.shared), 0);
    SpawnedAsNew(w, 0);
    assert !OldHistory(FRESH_HOME);
  }

  lemma RestartCrosses(w: World)
    requires w.shared == EMPTY_SHARED && w.home == FRESH_HOME.(oldTrades := true)
    ensures Next(Next(w, Restart), Spawn(true, 60, 0)).home == FRESH_HOME.(oldTrades := true, epoch := 2)
    ensures Next(Next(w, Restart), Spawn(true, 60, 0)).child.Some?
    ensures Next(Next(w, Restart), Spawn(true, 60, 0)).(child := w.child, home := w.home) == w
  {
    NewIffNothingDurable(Some(w.shared), 0);
    SpawnedAsNew(Next(w, Restart), 60);
  }

  lemma OnlyTheAgentRowSurvives(w: World)
    requires w.child.Some? && w.home.epoch == 2 && w.home.hwmUsdg == 0
    requires w.(child := None, home := FRESH_HOME) == START
    ensures Next(Next(w, MirrorAgent), Redeploy) == BUMPED
  {
  }

  lemma EpochTwoIsReached(w: World)
    requires w == START
    ensures Run(w, ToEpochTwo()) == BUMPED
  {
    RunSix(w, Spawn(true, 0, 0), RecordTrade(0), Restart, Spawn(true, 60, 0), MirrorAgent, Redeploy);
    OldTradeOnRecord(w);
    var v := Next(Next(w, Spawn(true, 0, 0)), RecordTrade(0));
    RestartCrosses(v);
    OnlyTheAgentRowSurvives(Next(Next(v, Restart), Spawn(true, 60, 0)));
  }

  /** The child of a bumped account opens its book in epoch 1. */
  lemma BumpedChildBooks()
    ensures var w := Next(Next(BUMPED, Spawn(true, 120, 0)), BOOK);
            && w.home.flows == [DurableFlow(1, true, 10, false, "inferred", 0, Some(0))]
            && w.shared == BUMPED.shared && w.flowCursor == 0 && Inv(w)
  {
    NewIffNothingDurable(Some(BUMPED.shared), 0);
    InitialIsSteady(BUMPED);
    SpawnedAsNew(BUMPED, 120);
    assert !OldHistory(FRESH_HOME);
    BookingAddsOne(Next(BUMPED, Spawn(true, 120, 0)), BOOK);
  }

  lemma BumpedEpochExposes(w: World, f: DurableFlow)
    requires w.home.flows == [f] && Opening(f) && f.epoch == 1 && w.shared == BUMPED.shared && w.flowCursor == 0 && Inv(w)
    ensures var v := Next(Next(w, MirrorFlows(500)), Redeploy); Rearms(v, Spawn(true, 180, 0)) && Inv(v)
  {
    MirrorKeepsInv(w, 500);
    var v := Next(w, MirrorFlows(500));
    assert v.shared.flows == [f];
    CountOne(f, Opening);
    NewIffNothingDurable(Some(v.shared), 0);
  }

  function RedeployedTwice(): seq<Step> {
    [Spawn(true, 120, 0), BOOK] + [MirrorFlows(500), Redeploy] + [Spawn(true, 180, 0), BOOK]
  }

  lemma BumpedDoubleBooks()
    ensures !AtMostOneOpening(Run(BUMPED, RedeployedTwice()))
  {
    RunSix(BUMPED, Spawn(true, 120, 0), BOOK, MirrorFlows(500), Redeploy, Spawn(true, 180, 0), BOOK);
    BumpedChildBooks();
    var w := Next(Next(BUMPED, Spawn(true, 120, 0)), BOOK);
    BumpedEpochExposes(w, w.home.flows[0]);
    ExposedSpawnBooksAgain(Next(Next(w, MirrorFlows(500)), Redeploy), Spawn(true, 180, 0), BOOK);
  }

  /** Redeploys alone double-book once the shared agent row is past epoch 1 with nothing
    * else on record: the child files its opening in epoch 1, where the parent does not look.
    * Such a row is reached from a deployment that never booked anything. */
  lemma LaterEpochDoubleBooks()
    ensures Initial(START) && Restart !in RedeployedTwice()
    ensures !AtMostOneOpening(Run(START, ToEpochTwo() + RedeployedTwice()))
  {
    RunConcat(START, ToEpochTwo(), RedeployedTwice());
    EpochTwoIsReached(START);
    BumpedDoubleBooks();
  }

  /** One process, one epoch, no crash: the row of the first booking lands, a read after it
    * fails, and the next tick, not covered by a chain scan, books the balance again. */
  lemma FailedReadDoubleBooks()
    ensures var steps := [Spawn(true, 0, 0)] + [Observe(10, 10, true, false), BOOK];
            Initial(START) && !AtMostOneOpening(Run(START, steps))
  {
    RunConcat(START, [Spawn(true, 0, 0)], [Observe(10, 10, true, false), BOOK]);
    RunOne(START, Spawn(true, 0, 0));
    InitialIsSteady(START);
    NewIffNothingDurable(Some(EMPTY_SHARED), 0);
    SpawnedAsNew(START, 0);
    assert !OldHistory(FRESH_HOME);
    var armed := Next(START, Spawn(true, 0, 0));
    RunTwo(armed, Observe(10, 10, true, false), BOOK);
    LostObservationBooksAgain(armed, Observe(10, 10, true, false), BOOK);
  }

  // ── peaks and epochs ───────────────────────────────────────────────────────

  /** The durable peak and epoch only rise. */
  predicate SharedRises(w: World, r: World) {
    HighWaterMark(r.shared) >= HighWaterMark(w.shared) && DurableEpoch(r.shared) >= DurableEpoch(w.shared)
  }

  predicate HomeRises(w: World, r: World) {
    r.home.hwmUsdg >= w.home.hwmUsdg && r.home.epoch >= w.home.epoch
  }

  /** Only a redeploy, which takes the child's database with it, lowers the child's own. */
  lemma StepRises(w: World, s: Step)
    ensures SharedRises(w, Next(w, s))
    ensures s.MirrorAgent? && w.child.Some? ==>
              HighWaterMark(Next(w, s).shared) >= w.home.hwmUsdg && DurableEpoch(Next(w, s).shared) >= w.home.epoch
    ensures s.Redeploy? || HomeRises(w, Next(w, s))
  {
  }

  /** Whatever happens in whatever order, the parent's record of an account's peak and epoch
    * never goes down. */
  lemma {:induction false} DurablePeakNeverFalls(w: World, steps: seq<Step>)
    ensures SharedRises(w, Run(w, steps))
  {
    if steps != [] {
      DurablePeakNeverFalls(w, steps[..|steps| - 1]);
      StepRises(Run(w, steps[..|steps| - 1]), steps[|steps| - 1]);
    }
  }

  /** A child armed in time over an established account starts from its durable peak and
    * epoch, or from its own where those are higher, and from nothing else. */
  lemma ArmingRestoresThePeak(w: World, now: int, delaySec: int)
    requires w.child.None? && -BOOTSTRAP_MAX_AGE_SEC <= delaySec <= BOOTSTRAP_MAX_AGE_SEC
    requires var a := DeriveBootstrapAccounting(Some(w.shared), now); a.Established? && Readable(a)
    ensures var home := Restore(w.home, ArmedWith(w, true, now, delaySec));
            && HighWaterMark(w.shared) <= home.hwmUsdg && w.home.hwmUsdg <= home.hwmUsdg
            && home.hwmUsdg in {HighWaterMark(w.shared), w.home.hwmUsdg}
            && DurableEpoch(w.shared) <= home.epoch && w.home.epoch <= home.epoch
            && home.epoch in {DurableEpoch(w.shared), w.home.epoch}
            && home == w.home.(hwmUsdg := home.hwmUsdg, epoch := home.epoch)
  {
    AnchorRoundTrip("account", "account", now, now + delaySec, DeriveBootstrapAccounting(Some(w.shared), now));
  }

  /** The ledger remembers epoch 1 from before the accounting was fixed. */
  predicate FromBeforeTheFix(home: Local) {
    home.epoch == 1 && (home.oldTrades || exists m | m in home.marks :: m.epoch == 1 && m.at < 1_787_704_075)
  }

  /** A boundary is crossed exactly over such a ledger, and the equity its newest mark of epoch
    * 1 closed with opens epoch 2, in one inbound carry; a ledger that closed at nothing, or
    * was never marked, carries nothing. */
  lemma CrossingIsBridged(home: Local, at: int, k: nat)
    requires IsNewest(home.marks, Some(1), k)
    ensures var r := CrossBoundary(home, at);
            && (!FromBeforeTheFix(home) ==> r == home)
            && (FromBeforeTheFix(home) ==>
                  r.flows == home.flows +
                    if home.marks[k].equityUsdg > 0
                    then [DurableFlow(2, true, home.marks[k].equityUsdg, false, "epoch-carry", at, None)] else [])
            && (FromBeforeTheFix(home) ==> r == home.(epoch := 2, flows := r.flows))
  {
    NewestIsUnique(home.marks, Some(1), k);
    assert home.flows + [] == home.flows;
  }

  lemma {:induction false} NoneCarried(flows: seq<DurableFlow>, epoch: int)
    requires forall f <- flows :: f.epoch != epoch
    ensures Carried(flows, epoch) == 0
  {
    if flows != [] {
      assert flows == flows[..|flows| - 1] + [flows[|flows| - 1]];
      assert flows[|flows| - 1] in flows;
      NoneCarried(flows[..|flows| - 1], epoch);
    }
  }

  /** What a child carries over the boundary the parent accepts: once its rows are mirrored,
    * the carry agrees with the newest mark of the epoch it closed. */
  lemma TheCarryIsBacked(home: Local, at: int, k: nat, d: Durable)
    requires FromBeforeTheFix(home) && IsNewest(home.marks, Some(1), k) && home.marks[k].equityUsdg > 0
    requires (forall f <- home.flows :: f.epoch != 2)
    requires d.flows == CrossBoundary(home, at).flows && d.marks == home.marks
    ensures CarryIsBacked(d, 2)
  {
    CrossingIsBridged(home, at, k);
    NoneCarried(home.flows, 2);
    assert d.flows[..|d.flows| - 1] == home.flows;
    assert BackedBy(d, 2, k);
  }

  /** What is booked raises the child's own peak by as much, when that write goes through, and
    * otherwise leaves it. */
  lemma BookingRaisesThePeak(w: World, s: Step)
    requires s.Observe? && Licensed(w) && s.equityUsdg > 0 && w.home.hwmUsdg >= 0
    ensures Next(w, s).home.hwmUsdg == if s.raised then w.home.hwmUsdg + s.equityUsdg else w.home.hwmUsdg
    ensures var flows := Next(w, s).home.flows;
            && |flows| == |w.home.flows| + 1 && flows[..|w.home.flows|] == w.home.flows
            && flows[|w.home.flows|].inbound && flows[|w.home.flows|].amountUsdg == s.equityUsdg
            && flows[|w.home.flows|].epoch == w.home.epoch && !flows[|w.home.flows|].hasTx
  {
    assert Next(w, s).home.flows[..|w.home.flows|] == w.home.flows;
  }

  // ── the mirror ─────────────────────────────────────────────────────────────

  function Repeated(s: Step, n: nat): seq<Step> {
    if n == 0 then [] else Repeated(s, n - 1) + [s]
  }

  /** Everything up to some row has been copied, in order and once. */
  predicate FlowsCopied(w: World, r: World) {
    && r.home == w.home && w.flowCursor <= r.flowCursor <= |w.home.flows|
    && r.shared == w.shared.(flows := w.shared.flows + w.home.flows[w.flowCursor..r.flowCursor])
  }

  predicate MarksCopied(w: World, r: World) {
    && r.home == w.home && w.markCursor <= r.markCursor <= |w.home.marks|
    && r.shared == w.shared.(marks := w.shared.marks + w.home.marks[w.markCursor..r.markCursor])
  }

  lemma FlowPassCopies(w: World, v: World, batch: nat)
    requires batch > 0 && w.flowCursor <= |w.home.flows| && FlowsCopied(w, v)
    ensures var r := Next(v, MirrorFlows(batch));
            && FlowsCopied(w, r) && (r.flowCursor == |w.home.flows| || r.flowCursor >= v.flowCursor + batch)
  {
    var r := Next(v, MirrorFlows(batch));
    assert w.home.flows[w.flowCursor..v.flowCursor] + w.home.flows[v.flowCursor..r.flowCursor] ==
           w.home.flows[w.flowCursor..r.flowCursor];
  }

  lemma MarkPassCopies(w: World, v: World, batch: nat)
    requires batch > 0 && w.markCursor <= |w.home.marks| && MarksCopied(w, v)
    ensures var r := Next(v, MirrorMarks(batch));
            && MarksCopied(w, r) && (r.markCursor == |w.home.marks| || r.markCursor >= v.markCursor + batch)
  {
    var r := Next(v, MirrorMarks(batch));
    assert w.home.marks[w.markCursor..v.markCursor] + w.home.marks[v.markCursor..r.markCursor] ==
           w.home.marks[w.markCursor..r.markCursor];
  }

  lemma RunRepeated(w: World, s: Step, n: nat)
    ensures Run(w, Repeated(s, n + 1)) == Next(Run(w, Repeated(s, n)), s)
  {
    var steps := Repeated(s, n + 1);
    assert steps[..|steps| - 1] == Repeated(s, n);
  }

  /** However small its batches, a mirror left alone copies every row it had not copied, in
    * order, each once: after as many passes as there are rows it stands at the end. */
  lemma {:induction false} FlowsCatchUp(w: World, batch: nat, n: nat)
    requires batch > 0 && w.flowCursor <= |w.home.flows|
    ensures var r := Run(w, Repeated(MirrorFlows(batch), n));
            && FlowsCopied(w, r) && (r.flowCursor == |w.home.flows| || r.flowCursor >= w.flowCursor + n)
  {
    if n == 0 {
      assert w.shared.flows + w.home.flows[w.flowCursor..w.flowCursor] == w.shared.flows;
    } else {
      FlowsCatchUp(w, batch, n - 1);
      RunRepeated(w, MirrorFlows(batch), n - 1);
      FlowPassCopies(w, Run(w, Repeated(MirrorFlows(batch), n - 1)), batch);
    }
  }

  lemma {:induction false} MarksCatchUp(w: World, batch: nat, n: nat)
    requires batch > 0 && w.markCursor <= |w.home.marks|
    ensures var r := Run(w, Repeated(MirrorMarks(batch), n));
            && MarksCopied(w, r) && (r.markCursor == |w.home.marks| || r.markCursor >= w.markCursor + n)
  {
    if n == 0 {
      assert w.shared.marks + w.home.marks[w.markCursor..w.markCursor] == w.shared.marks;
    } else {
      MarksCatchUp(w, batch, n - 1);
      RunRepeated(w, MirrorMarks(batch), n - 1);
      MarkPassCopies(w, Run(w, Repeated(MirrorMarks(batch), n - 1)), batch);
    }
  }
}
