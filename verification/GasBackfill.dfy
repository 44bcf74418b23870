/** Finding the feed round in force at a moment, through a node whose reads may fail
  * (worker/src/gas-backfill.ts). */
module GasBackfill {
  import opened Text
  import Nonce = KernelNonce

  /** `updatedAt` is zero for an id no round was published under. */
  datatype FeedRound = FeedRound(roundId: nat, priceUsd: real, updatedAt: nat)

  const MAX_ROUND_LAG_SEC := 21600
  const TWO_64: nat := 0x1_0000_0000_0000_0000
  const MAX_STEPS := 64

  // ── pricing ────────────────────────────────────────────────────────────────

  datatype GasPricing =
    | Priced(usdg: real, roundId: nat, lagSec: nat)
    | NoRound
    | PublishedAfterTheTrade
    | TooStale(lagSec: nat)
    | NoUsablePrice

  function PriceGasAtRound(gasWei: nat, tradeAtSec: int, round: Option<FeedRound>): GasPricing {
    if round.None? || round.value.updatedAt == 0 then NoRound
    else
      var lagSec := tradeAtSec - round.value.updatedAt;
      if lagSec < 0 then PublishedAfterTheTrade
      else if lagSec > MAX_ROUND_LAG_SEC then TooStale(lagSec)
      else if round.value.priceUsd <= 0.0 then NoUsablePrice
      else Priced(gasWei as real / 1_000_000_000_000_000_000.0 * round.value.priceUsd, round.value.roundId, lagSec)
  }

  // ── the feed and the reads ─────────────────────────────────────────────────

  /** The feed as it is, and which of the reads, in order, will fail. */
  class Reader {
    const feed: nat -> FeedRound
    const fails: nat -> bool
    var readCount: nat

    constructor (feed: nat -> FeedRound, fails: nat -> bool)
      ensures this.feed == feed && this.fails == fails && readCount == 0
    {
      this.feed, this.fails, readCount := feed, fails, 0;
    }

    method Read(id: nat) returns (r: Option<FeedRound>)
      modifies this`readCount
      ensures readCount == old(readCount) + 1
      ensures r == if fails(old(readCount)) then None else Some(feed(id))
    {
      r := if fails(readCount) then None else Some(feed(id));
      readCount := readCount + 1;
    }

    predicate Published(id: nat) {
      feed(id).updatedAt != 0
    }

    /** Nothing is published under any of these ids. */
    ghost predicate Gap(from: int, to: int) {
      forall id: nat | from <= id <= to :: feed(id).updatedAt == 0
    }

    ghost predicate NamesItself() {
      forall id: nat :: feed(id).roundId == id
    }

    ghost predicate NeverFails() {
      forall k: nat :: !fails(k)
    }

    /** The nearest published round at or below `from`, walking down at most 64 ids and
      * never under `floor`. */
    method NearestBelow(from: nat, floor: nat) returns (r: Option<FeedRound>)
      requires NamesItself() && floor <= from
      modifies this`readCount
      ensures r.Some? ==> floor <= r.value.roundId <= from && r.value == feed(r.value.roundId) && r.value.updatedAt != 0
      ensures r.Some? ==> from - r.value.roundId < 64
      ensures readCount <= old(readCount) + 64
      ensures NeverFails() && r.Some? ==> Gap(r.value.roundId + 1, from)
      ensures NeverFails() && r.None? ==> Gap(if from - 63 < floor then floor else from - 63, from)
      ensures NeverFails() && Published(from) ==> r == Some(feed(from)) && readCount == old(readCount) + 1
    {
      var j := from;
      var steps := 0;
      while j >= floor && steps < MAX_STEPS
        invariant 0 <= steps <= MAX_STEPS && j == from - steps && j >= -1
        invariant readCount == old(readCount) + steps
        invariant NeverFails() ==> Gap(j + 1, from)
        invariant NeverFails() && Published(from) ==> steps == 0
        decreases MAX_STEPS - steps
      {
        r := Read(j);
        if r.Some? && r.value.updatedAt != 0 { return; }
        if j == 0 { break; }
        j := j - 1;
        steps := steps + 1;
      }
      r := None;
    }
  }

  // ── what the search is for ─────────────────────────────────────────────────

  predicate Qualifies(r: FeedRound, atSec: int) {
    r.updatedAt != 0 && r.updatedAt <= atSec
  }

  function InPhase(phase: nat, agg: nat): nat {
    phase * TWO_64 + agg
  }

  /** The lowest id the search looks at: `window` rounds back, within the phase. */
  function Lowest(latest: FeedRound, window: nat): nat {
    var phase := latest.roundId / TWO_64;
    var latestAgg := latest.roundId % TWO_64;
    if latestAgg > window then InPhase(phase, latestAgg - window) else InPhase(phase, 1)
  }

  /** Later ids were published no earlier. */
  ghost predicate Chronological(feed: nat -> FeedRound, from: nat, to: nat) {
    forall a: nat, b: nat | from <= a <= b <= to && feed(a).updatedAt != 0 && feed(b).updatedAt != 0 ::
      feed(a).updatedAt <= feed(b).updatedAt
  }

  /** No 64 ids in a row are unset. */
  ghost predicate NoLongGap(reader: Reader, from: nat, to: nat) {
    forall a: nat | from <= a <= to - 63 :: HasRound(reader, a)
  }

  /** One of the 64 ids from `a` on is published. */
  ghost predicate HasRound(reader: Reader, a: nat) {
    !reader.Gap(a, a + 63)
  }

  ghost predicate Dense(reader: Reader, from: nat, to: nat) {
    forall id: nat | from <= id <= to :: reader.Published(id)
  }

  /** The node is well behaved over the ids searched. */
  ghost predicate Searchable(reader: Reader, floor: nat, top: nat) {
    && reader.NeverFails()
    && Chronological(reader.feed, floor, top)
    && NoLongGap(reader, floor, top)
  }

  function Pow2(k: nat): nat {
    if k == 0 then 1 else 2 * Pow2(k - 1)
  }

  /** Nothing in [from, to) was published by the moment. */
  ghost predicate NoneBy(reader: Reader, from: int, to: int, atSec: int) {
    forall id: nat | from <= id < to :: !Qualifies(reader.feed(id), atSec)
  }

  /** The bisection. Whatever the node does, a returned round was published inside the ids
    * searched and not after the moment; a searchable node gets the greatest such id, or
    * None exactly when there is none; and where every id is published, fewer than 2^k ids
    * cost at most k reads. */
  method Bisect(reader: Reader, atSec: int, floor: nat, top: nat, ghost k: nat) returns (best: Option<FeedRound>)
    requires reader.NamesItself()
    modifies reader`readCount
    ensures best.Some? ==> Qualifies(best.value, atSec) && best.value == reader.feed(best.value.roundId)
    ensures best.Some? ==> floor <= best.value.roundId <= top
    ensures Searchable(reader, floor, top) ==>
              NoneBy(reader, if best.Some? then best.value.roundId + 1 else floor, top + 1, atSec)
    ensures (reader.NeverFails() && Dense(reader, floor, top) && top - floor + 1 < Pow2(k)) ==>
              reader.readCount <= old(reader.readCount) + k
  {
    var lo: int := floor;
    var hi: int := top;
    best := None;
    ghost var searchable := Searchable(reader, floor, top);
    ghost var dense := reader.NeverFails() && Dense(reader, floor, top) && top - floor + 1 < Pow2(k);
    ghost var left: nat := k;
    while lo <= hi
      invariant floor <= lo && -1 <= hi <= top
      invariant best.Some? ==>
        && best.value == reader.feed(best.value.roundId) && Qualifies(best.value, atSec)
        && floor <= best.value.roundId < lo && best.value.roundId <= top
      invariant searchable ==> NoneBy(reader, hi + 1, top + 1, atSec)
      invariant searchable ==> NoneBy(reader, if best.Some? then best.value.roundId + 1 else floor, lo, atSec)
      invariant dense ==> reader.readCount == old(reader.readCount) + k - left
      invariant dense ==> left <= k && hi - lo + 1 < Pow2(left)
      decreases hi - lo
    {
      var mid := (lo + hi) / 2;
      var r := reader.NearestBelow(mid, lo);
      if dense {
        assert reader.Published(mid) && left > 0;
        left := left - 1;
      }
      if r.None? {
        if searchable { ShortGapOnly(reader, floor, top, lo, mid); }
        lo := mid + 1;
        continue;
      }
      if r.value.updatedAt <= atSec {
        best := r;
        lo := r.value.roundId + 1;
      } else {
        if searchable { TooLateFromHere(reader, floor, top, r.value, mid, atSec); }
        if r.value.roundId == 0 { break; }
        hi := r.value.roundId - 1;
      }
    }
  }

  /** The newest round published at or before `atSec`: the latest one, or what the
    * bisection finds among the last `window` rounds of the latest one's phase. */
  method FindRoundAt(reader: Reader, atSec: int, latest: FeedRound, window: nat, ghost k: nat)
    returns (best: Option<FeedRound>)
    requires reader.NamesItself()
    modifies reader`readCount
    ensures best.Some? ==> Qualifies(best.value, atSec)
    ensures best.Some? && best.value != latest ==>
              && best.value == reader.feed(best.value.roundId)
              && Lowest(latest, window) <= best.value.roundId <= latest.roundId
    ensures (Searchable(reader, Lowest(latest, window), latest.roundId) && latest == reader.feed(latest.roundId)) ==>
              NoneBy(reader, if best.Some? then best.value.roundId + 1 else Lowest(latest, window),
                     latest.roundId + 1, atSec)
    ensures (reader.NeverFails() && Dense(reader, Lowest(latest, window), latest.roundId)
             && latest.roundId - Lowest(latest, window) + 1 < Pow2(k)) ==>
              reader.readCount <= old(reader.readCount) + k
  {
    if latest.updatedAt != 0 && latest.updatedAt <= atSec { return Some(latest); }
    best := Bisect(reader, atSec, Lowest(latest, window), latest.roundId, k);
  }

  /** A round past the moment puts everything published above it past the moment too. */
  lemma TooLateFromHere(reader: Reader, floor: nat, top: nat, r: FeedRound, mid: nat, atSec: int)
    requires Searchable(reader, floor, top)
    requires floor <= r.roundId <= mid <= top && r == reader.feed(r.roundId)
    requires r.updatedAt != 0 && r.updatedAt > atSec
    ensures NoneBy(reader, r.roundId, top + 1, atSec)
  {
  }

  /** A walk that found nothing in 64 steps found nothing down to the floor. */
  lemma ShortGapOnly(reader: Reader, floor: nat, top: nat, lo: nat, mid: nat)
    requires NoLongGap(reader, floor, top)
    requires floor <= lo <= mid <= top
    requires reader.Gap(if mid - 63 < lo then lo else mid - 63, mid)
    ensures reader.Gap(lo, mid)
  {
    if mid - 63 > lo {
      ghost var seen := HasRound(reader, mid - 63);
      assert false;
    }
  }

  /** The search never leaves the phase of the latest round: it goes back `window` ids, or to
    * the phase's first one when it is nearer. */
  lemma SearchStaysInThePhase(latest: FeedRound, window: nat)
    requires latest.roundId % TWO_64 >= 1
    ensures var floor := Lowest(latest, window);
            && floor / TWO_64 == latest.roundId / TWO_64 && floor <= latest.roundId
            && (latest.roundId - floor == window || (latest.roundId - floor < window && floor % TWO_64 == 1))
  {
    var phase, agg := latest.roundId / TWO_64, latest.roundId % TWO_64;
    assert latest.roundId == phase * TWO_64 + agg;
    var back := if agg > window then agg - window else 1;
    Nonce.Split(phase, back, TWO_64);
  }

  /** Gas is priced from a round exactly when the round was published no later than the trade,
    * at most six hours before it, at a positive price, and then at that price: wei over 18
    * decimals, times it. A round that does not do says which of the three it failed. */
  lemma PricedIff(gasWei: nat, atSec: int, r: FeedRound)
    ensures var p := PriceGasAtRound(gasWei, atSec, Some(r)); var lag := atSec - r.updatedAt;
            && (p.NoRound? <==> r.updatedAt == 0)
            && (p.PublishedAfterTheTrade? <==> r.updatedAt > 0 && lag < 0)
            && (p.TooStale? <==> r.updatedAt > 0 && lag > 6 * 3600)
            && (p.NoUsablePrice? <==> r.updatedAt > 0 && 0 <= lag <= 6 * 3600 && r.priceUsd <= 0.0)
            && (p.Priced? ==> p.roundId == r.roundId && p.lagSec == lag
                              && p.usdg * 1_000_000_000_000_000_000.0 == gasWei as real * r.priceUsd)
  {
  }

  /** Pricing a round the search returned never meets a round from the trade's future. */
  lemma FoundRoundsPrice(r: FeedRound, gasWei: nat, atSec: int)
    requires r.updatedAt != 0 && r.updatedAt <= atSec
    ensures var p := PriceGasAtRound(gasWei, atSec, Some(r));
            p.Priced? || (p.TooStale? && atSec - r.updatedAt > 6 * 3600) || (p.NoUsablePrice? && r.priceUsd <= 0.0)
  {
    PricedIff(gasWei, atSec, r);
  }
}
