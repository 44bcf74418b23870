/** When the brain wakes (worker/src/brain-trigger.ts). Times are Unix seconds. */
module BrainTrigger {
  import opened Text

  datatype Reason = UserRequest | PortfolioChange | NewsEvent | PriceMove | ScheduledReview

  datatype TriggerState = TriggerState(
    lastFiredAt: map<Reason, nat>, lastPriceUsd: Option<real>, lastEquityUsdg: Option<real>, lastNewsKey: Option<string>)

  const EMPTY_TRIGGER_STATE := TriggerState(map[], None, None, None)

  datatype TriggerInputs = TriggerInputs(
    now: nat, priceUsd: Option<real>, equityUsdg: real, newsKey: Option<string>, userRequested: bool)

  datatype TriggerConfig = TriggerConfig(
    scheduledIntervalSec: nat, priceMovePct: real, equityMovePct: real, cooldownSec: map<Reason, nat>)

  datatype TriggerVerdict = TriggerVerdict(reason: Option<Reason>, candidates: seq<Reason>)

  function Abs(x: real): real {
    if x < 0.0 then -x else x
  }

  function PctMove(now: Option<real>, before: Option<real>): real {
    if now.None? || before.None? || before.value == 0.0 then 0.0
    else Abs(now.value - before.value) / Abs(before.value)
  }

  function Cooldown(cfg: TriggerConfig, r: Reason): nat {
    if r in cfg.cooldownSec then cfg.cooldownSec[r] else 0
  }

  predicate Cooled(state: TriggerState, now: nat, cfg: TriggerConfig, r: Reason) {
    r in state.lastFiredAt ==> now - state.lastFiredAt[r] >= Cooldown(cfg, r)
  }

  function LastOf(state: TriggerState, r: Reason): nat {
    if r in state.lastFiredAt then state.lastFiredAt[r] else 0
  }

  function Max(a: nat, b: nat): nat {
    if a >= b then a else b
  }

  /** The last run for whatever reason, or 0. */
  function LastAny(state: TriggerState): nat {
    Max(LastOf(state, UserRequest), Max(LastOf(state, PortfolioChange),
      Max(LastOf(state, NewsEvent), Max(LastOf(state, PriceMove), LastOf(state, ScheduledReview)))))
  }

  predicate IsNews(input: TriggerInputs, state: TriggerState) {
    input.newsKey.Some? && input.newsKey.value != "" && input.newsKey != state.lastNewsKey
  }

  /** A review is due when there never was a run, or none for the whole interval. */
  predicate Due(state: TriggerState, input: TriggerInputs, cfg: TriggerConfig) {
    LastAny(state) == 0 || input.now - LastAny(state) >= cfg.scheduledIntervalSec
  }

  predicate Qualifies(state: TriggerState, input: TriggerInputs, cfg: TriggerConfig, r: Reason) {
    match r
    case UserRequest => input.userRequested
    case PortfolioChange => PctMove(Some(input.equityUsdg), state.lastEquityUsdg) >= cfg.equityMovePct
    case NewsEvent => IsNews(input, state)
    case PriceMove => PctMove(input.priceUsd, state.lastPriceUsd) >= cfg.priceMovePct
    case ScheduledReview => Due(state, input, cfg)
  }

  const PRIORITY := [UserRequest, PortfolioChange, NewsEvent, PriceMove, ScheduledReview]

  /** The i-th reason, in priority order, qualifies and is past its cooldown. */
  predicate Ready(state: TriggerState, input: TriggerInputs, cfg: TriggerConfig, i: nat)
    requires i < |PRIORITY|
  {
    Qualifies(state, input, cfg, PRIORITY[i]) && Cooled(state, input.now, cfg, PRIORITY[i])
  }

  /** What fires is the first ready reason. */
  predicate Wins(state: TriggerState, input: TriggerInputs, cfg: TriggerConfig, i: nat)
    requires i < |PRIORITY|
  {
    Ready(state, input, cfg, i) && forall j: nat | j < i :: !Ready(state, input, cfg, j)
  }

  function WinnerFrom(state: TriggerState, input: TriggerInputs, cfg: TriggerConfig, i: nat): (w: Option<Reason>)
    requires i <= |PRIORITY|
    requires forall j: nat | j < i :: !Ready(state, input, cfg, j)
    ensures w.None? ==> forall k: nat | k < |PRIORITY| :: !Ready(state, input, cfg, k)
    ensures w.Some? ==> exists k: nat | k < |PRIORITY| :: Wins(state, input, cfg, k) && w.value == PRIORITY[k]
    decreases |PRIORITY| - i
  {
    if i == |PRIORITY| then None
    else if Ready(state, input, cfg, i) then
      assert Wins(state, input, cfg, i);
      Some(PRIORITY[i])
    else WinnerFrom(state, input, cfg, i + 1)
  }

  function Winner(state: TriggerState, input: TriggerInputs, cfg: TriggerConfig): Option<Reason> {
    WinnerFrom(state, input, cfg, 0)
  }

  method Push(s: seq<Reason>, r: Reason, holds: bool) returns (t: seq<Reason>)
    requires InPriorityOrder(s) && forall q <- s :: Rank(q) < Rank(r)
    ensures InPriorityOrder(t) && forall q <- t :: Rank(q) <= Rank(r)
    ensures forall q :: q in t <==> q in s || (holds && q == r)
  {
    t := if holds then s + [r] else s;
  }

  /** The reasons whose condition holds, a person asking first and the clock last. */
  method Collect(user: bool, portfolio: bool, news: bool, price: bool, due: bool) returns (candidates: seq<Reason>)
    ensures UserRequest in candidates <==> user
    ensures PortfolioChange in candidates <==> portfolio
    ensures NewsEvent in candidates <==> news
    ensures PriceMove in candidates <==> price
    ensures ScheduledReview in candidates <==> due
    ensures InPriorityOrder(candidates)
  {
    candidates := Push([], UserRequest, user);
    candidates := Push(candidates, PortfolioChange, portfolio);
    candidates := Push(candidates, NewsEvent, news);
    candidates := Push(candidates, PriceMove, price);
    candidates := Push(candidates, ScheduledReview, due);
  }

  method ShouldWake(state: TriggerState, input: TriggerInputs, cfg: TriggerConfig) returns (v: TriggerVerdict)
    ensures v.reason == Winner(state, input, cfg)
    ensures forall r :: r in v.candidates <==> Qualifies(state, input, cfg, r)
  {
    var equityMove := PctMove(Some(input.equityUsdg), state.lastEquityUsdg);
    var priceMove := PctMove(input.priceUsd, state.lastPriceUsd);
    var lastAny := LastAny(state);
    var candidates := Collect(
      input.userRequested,
      equityMove >= cfg.equityMovePct,
      input.newsKey.Some? && input.newsKey.value != "" && input.newsKey != state.lastNewsKey,
      priceMove >= cfg.priceMovePct,
      lastAny == 0 || input.now - lastAny >= cfg.scheduledIntervalSec);
    assert forall r :: r in candidates <==> Qualifies(state, input, cfg, r);
    for i := 0 to |candidates|
      invariant forall j | 0 <= j < i :: !Cooled(state, input.now, cfg, candidates[j])
    {
      var r := candidates[i];
      if Cooled(state, input.now, cfg, r) {
        FirstCoolCandidateWins(state, input, cfg, candidates, i);
        return TriggerVerdict(Some(r), candidates);
      }
    }
    v := TriggerVerdict(None, candidates);
    assert forall k: nat | k < |PRIORITY| :: !Ready(state, input, cfg, k);
  }

  function Rank(r: Reason): nat {
    match r
    case UserRequest => 0
    case PortfolioChange => 1
    case NewsEvent => 2
    case PriceMove => 3
    case ScheduledReview => 4
  }

  predicate InPriorityOrder(s: seq<Reason>) {
    forall i, j | 0 <= i < j < |s| :: Rank(s[i]) < Rank(s[j])
  }

  lemma FirstCoolCandidateWins(state: TriggerState, input: TriggerInputs, cfg: TriggerConfig, s: seq<Reason>, i: nat)
    requires InPriorityOrder(s) && i < |s| && Cooled(state, input.now, cfg, s[i])
    requires forall r :: r in s <==> Qualifies(state, input, cfg, r)
    requires forall j | 0 <= j < i :: !Cooled(state, input.now, cfg, s[j])
    ensures Winner(state, input, cfg) == Some(s[i])
  {
    var r := s[i];
    assert PRIORITY[Rank(r)] == r && r in s;
    forall j: nat | j < Rank(r)
      ensures !Ready(state, input, cfg, j)
    {
      if Qualifies(state, input, cfg, PRIORITY[j]) {
        assert Rank(PRIORITY[j]) == j && PRIORITY[j] in s;
        var k :| 0 <= k < |s| && s[k] == PRIORITY[j];
      }
    }
    assert Ready(state, input, cfg, Rank(r));
    OneWinner(state, input, cfg, Rank(r), 0);
  }

  lemma {:induction false} OneWinner(state: TriggerState, input: TriggerInputs, cfg: TriggerConfig, k: nat, i: nat)
    requires i <= k < |PRIORITY| && Wins(state, input, cfg, k)
    ensures WinnerFrom(state, input, cfg, i) == Some(PRIORITY[k])
    decreases k - i
  {
    if i < k {
      assert !Ready(state, input, cfg, i);
      OneWinner(state, input, cfg, k, i + 1);
    }
  }

  // ── what sets off a run ────────────────────────────────────────────────────

  /** A figure moved, either way, by at least this part of what it was. */
  predicate MovedBy(before: Option<real>, now: Option<real>, part: real) {
    && before.Some? && now.Some? && before.value != 0.0
    && var size := if before.value > 0.0 then before.value else -before.value;
       now.value - before.value >= part * size || before.value - now.value >= part * size
  }

  lemma MovedIff(before: Option<real>, now: Option<real>, part: real)
    requires part > 0.0
    ensures PctMove(now, before) >= part <==> MovedBy(before, now, part)
  {
    if before.Some? && now.Some? && before.value != 0.0 {
      var size := if before.value > 0.0 then before.value else -before.value;
      var move := if now.value > before.value then now.value - before.value else before.value - now.value;
      assert PctMove(now, before) == move / size;
      RatioAtLeast(move, size, part);
    }
  }

  lemma RatioAtLeast(a: real, b: real, part: real)
    requires b > 0.0
    ensures a / b >= part <==> a >= part * b
  {
    var q := a / b;
    assert q * b == a;
    if q >= part { assert (q - part) * b >= 0.0; } else { assert (part - q) * b > 0.0; }
  }

  /** What qualifies: a person asked, equity or price moved by its threshold from the last run's,
    * a news key other than the last one, and no run on record within the interval. */
  lemma QualifiesIff(state: TriggerState, input: TriggerInputs, cfg: TriggerConfig)
    requires cfg.priceMovePct > 0.0 && cfg.equityMovePct > 0.0
    ensures Qualifies(state, input, cfg, UserRequest) <==> input.userRequested
    ensures Qualifies(state, input, cfg, PortfolioChange) <==>
              MovedBy(state.lastEquityUsdg, Some(input.equityUsdg), cfg.equityMovePct)
    ensures Qualifies(state, input, cfg, PriceMove) <==> MovedBy(state.lastPriceUsd, input.priceUsd, cfg.priceMovePct)
    ensures Qualifies(state, input, cfg, NewsEvent) <==>
              input.newsKey.Some? && input.newsKey.value != ""
              && (state.lastNewsKey.None? || state.lastNewsKey.value != input.newsKey.value)
    ensures Qualifies(state, input, cfg, ScheduledReview) <==>
              || (forall r <- state.lastFiredAt :: state.lastFiredAt[r] == 0)
              || (forall r <- state.lastFiredAt :: input.now - state.lastFiredAt[r] >= cfg.scheduledIntervalSec)
  {
    MovedIff(state.lastEquityUsdg, Some(input.equityUsdg), cfg.equityMovePct);
    MovedIff(state.lastPriceUsd, input.priceUsd, cfg.priceMovePct);
    forall r <- state.lastFiredAt
      ensures state.lastFiredAt[r] <= LastAny(state)
    {
      LastAnyIsTheLatest(state, r);
    }
    if state.lastFiredAt != map[] {
      var r := LastAnyIsOnRecord(state);
    }
  }

  /** It qualifies, and its last run lies at least its own cooldown back. */
  predicate MayFire(state: TriggerState, input: TriggerInputs, cfg: TriggerConfig, r: Reason) {
    && Qualifies(state, input, cfg, r)
    && (r in state.lastFiredAt && r in cfg.cooldownSec ==> input.now - state.lastFiredAt[r] >= cfg.cooldownSec[r])
    && (r in state.lastFiredAt ==> input.now >= state.lastFiredAt[r])
  }

  /** What fires is the one reason that may, before which none may: a person first, then the
    * portfolio, news, the price, and the clock last. */
  lemma FiresIff(state: TriggerState, input: TriggerInputs, cfg: TriggerConfig, r: Reason)
    ensures Winner(state, input, cfg) == Some(r) <==>
              MayFire(state, input, cfg, r) && forall q | Rank(q) < Rank(r) :: !MayFire(state, input, cfg, q)
  {
    forall q
      ensures PRIORITY[Rank(q)] == q && (Ready(state, input, cfg, Rank(q)) <==> MayFire(state, input, cfg, q))
    {
    }
    forall j: nat | j < |PRIORITY|
      ensures Rank(PRIORITY[j]) == j
    {
    }
    if MayFire(state, input, cfg, r) && forall q | Rank(q) < Rank(r) :: !MayFire(state, input, cfg, q) {
      forall j: nat | j < Rank(r)
        ensures !Ready(state, input, cfg, j)
      {
        assert !MayFire(state, input, cfg, PRIORITY[j]);
      }
      OneWinner(state, input, cfg, Rank(r), 0);
    }
  }

  /** What the state becomes after a run: the baselines move whatever the reason was. */
  function AfterFiring(state: TriggerState, reason: Reason, input: TriggerInputs): TriggerState {
    TriggerState(state.lastFiredAt[reason := input.now], input.priceUsd, Some(input.equityUsdg), input.newsKey)
  }

  /** One real movement never bills twice: until price, equity or news change again, only a
    * person or the clock can set off another run. */
  lemma OneMovementFiresOnce(state: TriggerState, reason: Reason, input: TriggerInputs, later: TriggerInputs, cfg: TriggerConfig)
    requires cfg.priceMovePct > 0.0 && cfg.equityMovePct > 0.0
    requires later.priceUsd == input.priceUsd && later.equityUsdg == input.equityUsdg && later.newsKey == input.newsKey
    ensures var w := Winner(AfterFiring(state, reason, input), later, cfg);
            w.Some? ==> w.value == UserRequest || w.value == ScheduledReview
  {
    var next := AfterFiring(state, reason, input);
    assert PctMove(later.priceUsd, next.lastPriceUsd) == 0.0;
    assert PctMove(Some(later.equityUsdg), next.lastEquityUsdg) == 0.0;
  }

  /** And the next real movement is seen: after any run, whatever it was for, equity, price and
    * news are measured from what that run was shown, and the clock from its moment. */
  lemma TheNextMovementIsSeen(
    state: TriggerState, reason: Reason, input: TriggerInputs, later: TriggerInputs, cfg: TriggerConfig)
    requires cfg.priceMovePct > 0.0 && cfg.equityMovePct > 0.0
    ensures var next := AfterFiring(state, reason, input);
            && (Qualifies(next, later, cfg, PortfolioChange) <==>
                  MovedBy(Some(input.equityUsdg), Some(later.equityUsdg), cfg.equityMovePct))
            && (Qualifies(next, later, cfg, PriceMove) <==> MovedBy(input.priceUsd, later.priceUsd, cfg.priceMovePct))
            && (Qualifies(next, later, cfg, NewsEvent) <==>
                  later.newsKey.Some? && later.newsKey.value != "" && later.newsKey != input.newsKey)
            && reason in next.lastFiredAt && next.lastFiredAt[reason] == input.now
            && (forall r | r != reason :: r in next.lastFiredAt <==> r in state.lastFiredAt)
            && (forall r | r != reason && r in state.lastFiredAt :: next.lastFiredAt[r] == state.lastFiredAt[r])
  {
    QualifiesIff(AfterFiring(state, reason, input), later, cfg);
  }

  // ── runs ───────────────────────────────────────────────────────────────────

  datatype Fire = Fire(at: nat, reason: Reason)

  datatype Trace = Trace(state: TriggerState, fires: seq<Fire>)

  function Tick(t: Trace, input: TriggerInputs, cfg: TriggerConfig): Trace {
    var w := Winner(t.state, input, cfg);
    if w.None? then t
    else Trace(AfterFiring(t.state, w.value, input), t.fires + [Fire(input.now, w.value)])
  }

  function Run(cfg: TriggerConfig, inputs: seq<TriggerInputs>): Trace {
    if inputs == [] then Trace(EMPTY_TRIGGER_STATE, [])
    else Tick(Run(cfg, inputs[..|inputs| - 1]), inputs[|inputs| - 1], cfg)
  }

  /** The state remembers the last fire of each reason. */
  ghost predicate Remembers(t: Trace) {
    && (forall i | 0 <= i < |t.fires| ::
          t.fires[i].reason in t.state.lastFiredAt && t.fires[i].at <= t.state.lastFiredAt[t.fires[i].reason])
    && (forall r <- t.state.lastFiredAt :: Fire(t.state.lastFiredAt[r], r) in t.fires)
  }

  ghost predicate Spaced(fires: seq<Fire>, cfg: TriggerConfig) {
    forall i, j | 0 <= i < j < |fires| && fires[i].reason == fires[j].reason ::
      fires[j].at - fires[i].at >= Cooldown(cfg, fires[i].reason)
  }

  lemma {:induction false} EveryRunRemembers(cfg: TriggerConfig, inputs: seq<TriggerInputs>)
    ensures Remembers(Run(cfg, inputs)) && Spaced(Run(cfg, inputs).fires, cfg)
  {
    if inputs != [] {
      var n := |inputs| - 1;
      EveryRunRemembers(cfg, inputs[..n]);
      TickRemembers(Run(cfg, inputs[..n]), inputs[n], cfg);
    }
  }

  lemma TickRemembers(t: Trace, input: TriggerInputs, cfg: TriggerConfig)
    requires Remembers(t) && Spaced(t.fires, cfg)
    ensures Remembers(Tick(t, input, cfg)) && Spaced(Tick(t, input, cfg).fires, cfg)
  {
    var w := Winner(t.state, input, cfg);
    if w.Some? {
      var next := Tick(t, input, cfg);
      assert next.fires[|t.fires|] == Fire(input.now, w.value);
      forall r <- next.state.lastFiredAt
        ensures Fire(next.state.lastFiredAt[r], r) in next.fires
      {
        if r != w.value {
          assert Fire(t.state.lastFiredAt[r], r) in t.fires;
        }
      }
    }
  }

  /** Over every run, whatever the inputs and however the clock jumps, no reason fires twice
    * within its own cooldown, however many other runs lie between. */
  lemma NoReasonFiresWithinItsCooldown(cfg: TriggerConfig, inputs: seq<TriggerInputs>, i: nat, j: nat)
    requires var fires := Run(cfg, inputs).fires; i < j < |fires| && fires[i].reason == fires[j].reason
    ensures var fires := Run(cfg, inputs).fires; var r := fires[i].reason;
            fires[j].at >= fires[i].at && (r in cfg.cooldownSec ==> fires[j].at >= fires[i].at + cfg.cooldownSec[r])
  {
    EveryRunRemembers(cfg, inputs);
  }

  // ── never silent ───────────────────────────────────────────────────────────

  /** Once the interval has passed since any run, or none was ever made, something fires. */
  ghost predicate AlwaysWakesWhenDue(cfg: TriggerConfig) {
    forall state, input | WakeIsOwed(state, input, cfg) :: Winner(state, input, cfg).Some?
  }

  predicate WakeIsOwed(state: TriggerState, input: TriggerInputs, cfg: TriggerConfig) {
    state.lastFiredAt == map[] || input.now - LastAny(state) >= cfg.scheduledIntervalSec
  }

  /** The configured cadence works exactly when the review's own cooldown does not outlast it. */
  lemma NeverSilentIff(cfg: TriggerConfig)
    requires cfg.priceMovePct > 0.0 && cfg.equityMovePct > 0.0
    ensures AlwaysWakesWhenDue(cfg) <==>
              (ScheduledReview in cfg.cooldownSec ==> cfg.cooldownSec[ScheduledReview] <= cfg.scheduledIntervalSec)
  {
    if Cooldown(cfg, ScheduledReview) <= cfg.scheduledIntervalSec {
      forall state, input | WakeIsOwed(state, input, cfg)
        ensures Winner(state, input, cfg).Some?
      {
        if Winner(state, input, cfg).None? {
          ghost var ready := Ready(state, input, cfg, 4);
          assert false;
        }
      }
    } else {
      var state := TriggerState(map[ScheduledReview := 1], None, None, None);
      var input := TriggerInputs(1 + cfg.scheduledIntervalSec, None, 0.0, None, false);
      assert WakeIsOwed(state, input, cfg);
      assert forall k: nat | k < |PRIORITY| :: !Ready(state, input, cfg, k);
      assert Winner(state, input, cfg).None?;
    }
  }

  lemma LastAnyIsTheLatest(state: TriggerState, r: Reason)
    ensures LastOf(state, r) <= LastAny(state)
  {
    match r
    case UserRequest =>
    case PortfolioChange =>
    case NewsEvent =>
    case PriceMove =>
    case ScheduledReview =>
  }

  lemma LastAnyIsOnRecord(state: TriggerState) returns (r: Reason)
    requires state.lastFiredAt != map[]
    ensures r in state.lastFiredAt && state.lastFiredAt[r] == LastAny(state)
  {
    r :| r in state.lastFiredAt;
    LastAnyIsTheLatest(state, r);
    if LastAny(state) > 0 {
      if LastOf(state, UserRequest) == LastAny(state) { r := UserRequest; }
      else if LastOf(state, PortfolioChange) == LastAny(state) { r := PortfolioChange; }
      else if LastOf(state, NewsEvent) == LastAny(state) { r := NewsEvent; }
      else if LastOf(state, PriceMove) == LastAny(state) { r := PriceMove; }
      else { r := ScheduledReview; }
    }
  }

  /** When nothing fires, some run lies within the interval. */
  lemma RecentRunOnRecord(t: Trace, input: TriggerInputs, cfg: TriggerConfig)
    requires Remembers(t) && !WakeIsOwed(t.state, input, cfg)
    ensures exists f <- t.fires :: input.now - f.at < cfg.scheduledIntervalSec
  {
    var r := LastAnyIsOnRecord(t.state);
    assert Fire(LastAny(t.state), r) in t.fires;
  }

  /** Measured at every tick of every run, the brain ran within the last interval. */
  lemma NeverSilentForAnInterval(cfg: TriggerConfig, inputs: seq<TriggerInputs>)
    requires inputs != [] && cfg.scheduledIntervalSec > 0 && AlwaysWakesWhenDue(cfg)
    ensures exists f <- Run(cfg, inputs).fires :: inputs[|inputs| - 1].now - f.at < cfg.scheduledIntervalSec
  {
    var n := |inputs| - 1;
    var before, input := Run(cfg, inputs[..n]), inputs[n];
    EveryRunRemembers(cfg, inputs[..n]);
    var w := Winner(before.state, input, cfg);
    if w.Some? {
      var fires := before.fires + [Fire(input.now, w.value)];
      assert Run(cfg, inputs).fires == fires && fires[|before.fires|] in fires;
    } else {
      assert !WakeIsOwed(before.state, input, cfg);
      RecentRunOnRecord(before, input, cfg);
    }
  }

  // ── the shipped configuration ──────────────────────────────────────────────

  /** The configured interval; text that is not a finite number reads as None. */
  function ScheduledInterval(raw: Option<real>): nat {
    if raw.None? || raw.value < 60.0 then 4 * 3600 else raw.value.Floor
  }

  function Min(a: nat, b: nat): nat {
    if a <= b then a else b
  }

  function DefaultTriggers(raw: Option<real>): TriggerConfig {
    TriggerConfig(ScheduledInterval(raw), 0.03, 0.05, map[
      PriceMove := 1800,
      PortfolioChange := 1800,
      NewsEvent := 900,
      ScheduledReview := Min(3600, Max(30, ScheduledInterval(raw) / 2)),
      UserRequest := 60])
  }

  /** Whatever cadence is configured, the shipped triggers are never silent for longer. */
  lemma ShippedTriggersAreNeverSilent(raw: Option<real>, inputs: seq<TriggerInputs>)
    requires inputs != []
    ensures var cfg := DefaultTriggers(raw);
            && (if raw.Some? && raw.value >= 60.0
                then cfg.scheduledIntervalSec >= 60 && cfg.scheduledIntervalSec as real <= raw.value
                     && raw.value < (cfg.scheduledIntervalSec + 1) as real
                else cfg.scheduledIntervalSec == 14_400)
            && exists f <- Run(cfg, inputs).fires :: inputs[|inputs| - 1].now - f.at < cfg.scheduledIntervalSec
  {
    var cfg := DefaultTriggers(raw);
    NeverSilentIff(cfg);
    NeverSilentForAnInterval(cfg, inputs);
  }

  /** How many seconds the shipped triggers keep between two runs for one reason. */
  function ShippedGap(interval: nat, r: Reason): nat {
    match r
    case UserRequest => 60
    case PortfolioChange => 30 * 60
    case NewsEvent => 15 * 60
    case PriceMove => 30 * 60
    case ScheduledReview => if interval >= 7200 then 3600 else interval / 2
  }

  /** Over every run a person is heard once a minute at most, an equity or price move is acted
    * on every half hour, news every quarter, and a review waits an hour or half the interval. */
  lemma ShippedRunsAreSpaced(raw: Option<real>, inputs: seq<TriggerInputs>, i: nat, j: nat)
    requires var fires := Run(DefaultTriggers(raw), inputs).fires; i < j < |fires| && fires[i].reason == fires[j].reason
    ensures var cfg := DefaultTriggers(raw); var fires := Run(cfg, inputs).fires;
            fires[j].at >= fires[i].at + ShippedGap(cfg.scheduledIntervalSec, fires[i].reason)
  {
    NoReasonFiresWithinItsCooldown(DefaultTriggers(raw), inputs, i, j);
  }

  /** And it takes a move of 3% in price or 5% in equity; nothing waits longer than that. */
  lemma ShippedThresholds(raw: Option<real>, state: TriggerState, input: TriggerInputs)
    ensures Qualifies(state, input, DefaultTriggers(raw), PriceMove) <==> MovedBy(state.lastPriceUsd, input.priceUsd, 0.03)
    ensures Qualifies(state, input, DefaultTriggers(raw), PortfolioChange) <==>
              MovedBy(state.lastEquityUsdg, Some(input.equityUsdg), 0.05)
    ensures forall r :: Cooldown(DefaultTriggers(raw), r) == ShippedGap(ScheduledInterval(raw), r)
  {
    QualifiesIff(state, input, DefaultTriggers(raw));
  }
}
