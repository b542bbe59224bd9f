/**
 The adaptive retransmission timeout (section 2 of RFC 6298) and the timers of unacknowledged data packets.
 Durations and times are integers in nanoseconds.
 */
module ArqRto {
  import opened Wire16
  import opened Enums

  datatype Adaptive = Adaptive(srtt: int, rttvar: int, currentBase: int, initialized: bool)

  function Clamp(v: int, lo: int, hi: int): int {
    if v < lo then lo else if v > hi then hi else v
  }

  function Abs(d: int): nat {
    if d < 0 then -d else d
  }

  function Max(a: int, b: int): int {
    if a < b then b else a
  }

  /** updateAdaptiveRTO. */
  function Update(s: Adaptive, sample: int, lo: int, hi: int): Adaptive {
    var x := Clamp(sample, lo, hi);
    var srtt := if s.initialized then (7 * s.srtt + x) / 8 else x;
    var rttvar := if s.initialized then (3 * s.rttvar + Abs(s.srtt - x)) / 4 else x / 2;
    Adaptive(srtt, rttvar, Clamp(srtt + 4 * rttvar, lo, hi), true)
  }

  /** The estimator of a new stream. */
  function Start(lo: int): Adaptive {
    Adaptive(0, 0, lo, false)
  }

  function After(samples: seq<int>, lo: int, hi: int): Adaptive
    decreases |samples|
  {
    if samples == [] then Start(lo)
    else
      var n := |samples| - 1;
      Update(After(samples[..n], lo, hi), samples[n], lo, hi)
  }

  /** Whatever the samples, the estimate stays where the clamped samples are, and the base within its limits. */
  lemma {:induction false} EstimateStaysInSampleRange(samples: seq<int>, lo: int, hi: int, least: int, greatest: int)
    requires 0 < lo <= least <= greatest <= hi && samples != []
    requires forall i :: 0 <= i < |samples| ==> least <= Clamp(samples[i], lo, hi) <= greatest
    ensures var s := After(samples, lo, hi);
            && least <= s.srtt <= greatest
            && 0 <= s.rttvar <= Max(greatest / 2, greatest - least)
            && least <= s.currentBase <= hi
    decreases |samples|
  {
    var n := |samples| - 1;
    if n > 0 {
      EstimateStaysInSampleRange(samples[..n], lo, hi, least, greatest);
      assert forall i :: 0 <= i < n ==> samples[..n][i] == samples[i];
    }
  }

  /** The limits of the estimator, for every sequence of samples. */
  ghost predicate Bounded(s: Adaptive, lo: int, hi: int) {
    && (s.initialized ==> lo <= s.srtt <= hi)
    && 0 <= s.rttvar <= hi
    && lo <= s.currentBase <= hi
  }

  lemma UpdateBounded(s: Adaptive, sample: int, lo: int, hi: int)
    requires 0 < lo <= hi && Bounded(s, lo, hi)
    ensures Bounded(Update(s, sample, lo, hi), lo, hi)
  {
  }

  lemma {:induction false} EstimatorBounds(samples: seq<int>, lo: int, hi: int)
    requires 0 < lo <= hi
    ensures Bounded(After(samples, lo, hi), lo, hi)
    ensures After(samples, lo, hi).initialized <==> samples != []
    decreases |samples|
  {
    if samples != [] {
      var n := |samples| - 1;
      EstimatorBounds(samples[..n], lo, hi);
      UpdateBounded(After(samples[..n], lo, hi), samples[n], lo, hi);
    }
  }

  function Repeated(x: int, n: nat): seq<int> {
    seq(n, _ => x)
  }

  /** On a steady path the variation dies out and the base timeout becomes the round-trip time itself. */
  lemma {:induction false} SteadyPathSettles(x: int, n: nat, lo: int, hi: int)
    requires 0 < lo <= x <= hi && n > 0
    ensures var s := After(Repeated(x, n), lo, hi);
            && s.srtt == x && 0 <= s.rttvar <= Max(0, x / 2 - (n - 1))
            && (n > x / 2 ==> s.currentBase == x)
    decreases n
  {
    assert Repeated(x, n)[..n - 1] == Repeated(x, n - 1);
    if n > 1 {
      SteadyPathSettles(x, n - 1, lo, hi);
    }
  }

  // ------------------------------------------------------------------
  // The standard's estimator, over the reals
  // ------------------------------------------------------------------

  /** SRTT and RTTVAR of section 2 of RFC 6298, with alpha = 1/8 and beta = 1/4 and without rounding. */
  datatype Standard = Standard(srtt: real, rttvar: real)

  function Distance(a: real, b: real): (d: real)
    ensures d >= 0.0
  {
    if a < b then b - a else a - b
  }

  function StandardAfter(samples: seq<int>, lo: int, hi: int): Standard
    requires samples != []
    decreases |samples|
  {
    var n := |samples| - 1;
    var r := Clamp(samples[n], lo, hi) as real;
    if n == 0 then Standard(r, r / 2.0)
    else
      var before := StandardAfter(samples[..n], lo, hi);
      Standard(0.875 * before.srtt + 0.125 * r, 0.75 * before.rttvar + 0.25 * Distance(before.srtt, r))
  }

  /** Rounding costs at most 8 ns in the smoothed time and 12 ns in the variation. */
  predicate Near(s: Adaptive, r: Standard) {
    Distance(s.srtt as real, r.srtt) <= 8.0 && Distance(s.rttvar as real, r.rttvar) <= 12.0
  }

  lemma Eighth(v: int)
    ensures v as real / 8.0 - 1.0 <= (v / 8) as real <= v as real / 8.0
  {
    assert v == 8 * (v / 8) + v % 8;
    assert v as real == 8.0 * (v / 8) as real + (v % 8) as real;
  }

  lemma Quarter(v: int)
    ensures v as real / 4.0 - 1.0 <= (v / 4) as real <= v as real / 4.0
  {
    assert v == 4 * (v / 4) + v % 4;
    assert v as real == 4.0 * (v / 4) as real + (v % 4) as real;
  }

  lemma NearAfterUpdate(s: Adaptive, r: Standard, x: int, s': Adaptive, r': Standard)
    requires Near(s, r) && s'.srtt == (7 * s.srtt + x) / 8 && s'.rttvar == (3 * s.rttvar + Abs(s.srtt - x)) / 4
    requires r'.srtt == 0.875 * r.srtt + 0.125 * x as real
    requires r'.rttvar == 0.75 * r.rttvar + 0.25 * Distance(r.srtt, x as real)
    ensures Near(s', r')
  {
    Eighth(7 * s.srtt + x);
    Quarter(3 * s.rttvar + Abs(s.srtt - x));
    assert (7 * s.srtt + x) as real == 7.0 * s.srtt as real + x as real;
    assert (3 * s.rttvar + Abs(s.srtt - x)) as real == 3.0 * s.rttvar as real + Abs(s.srtt - x) as real;
    assert Abs(s.srtt - x) as real == Distance(s.srtt as real, x as real);
  }

  /** For every sequence of samples the integer estimator stays within rounding of the standard's. */
  lemma {:induction false} EstimatorFollowsTheStandard(samples: seq<int>, lo: int, hi: int)
    requires 0 < lo <= hi && samples != []
    ensures Near(After(samples, lo, hi), StandardAfter(samples, lo, hi))
    decreases |samples|
  {
    var n := |samples| - 1;
    var x := Clamp(samples[n], lo, hi);
    if n == 0 {
      assert samples[..0] == [];
      Half(x);
    } else {
      EstimatorFollowsTheStandard(samples[..n], lo, hi);
      EstimatorBounds(samples[..n], lo, hi);
      NearAfterUpdate(After(samples[..n], lo, hi), StandardAfter(samples[..n], lo, hi), x,
                      After(samples, lo, hi), StandardAfter(samples, lo, hi));
    }
  }

  lemma Half(v: int)
    ensures Distance((v / 2) as real, v as real / 2.0) <= 1.0
  {
    assert v as real == 2.0 * (v / 2) as real + (v % 2) as real;
  }

  /** The base timeout is SRTT + 4 RTTVAR of the standard, cut to the limits, within 56 ns. */
  lemma BaseFollowsTheStandard(samples: seq<int>, lo: int, hi: int)
    requires 0 < lo <= hi && samples != []
    ensures var r, base := StandardAfter(samples, lo, hi), After(samples, lo, hi).currentBase as real;
            var rto := r.srtt + 4.0 * r.rttvar;
            Distance(base, if rto < lo as real then lo as real else if rto > hi as real then hi as real else rto) <= 56.0
  {
    EstimatorFollowsTheStandard(samples, lo, hi);
    var s := After(samples, lo, hi);
    assert (s.srtt + 4 * s.rttvar) as real == s.srtt as real + 4.0 * s.rttvar as real;
    CutNear(s.srtt + 4 * s.rttvar, StandardAfter(samples, lo, hi).srtt + 4.0 * StandardAfter(samples, lo, hi).rttvar, lo, hi);
  }

  lemma CutNear(v: int, r: real, lo: int, hi: int)
    requires lo <= hi && Distance(v as real, r) <= 56.0
    ensures Distance(Clamp(v, lo, hi) as real, if r < lo as real then lo as real else if r > hi as real then hi as real else r) <= 56.0
  {
  }

  // ------------------------------------------------------------------
  // Timers of unacknowledged packets
  // ------------------------------------------------------------------

  datatype Params = Params(rto: int, maxRto: int, nackRepeat: int) {
    predicate Valid() {
      0 < rto <= maxRto && 0 < nackRepeat
    }
  }

  datatype Item = Item(
    birth: nat,          // which send created it
    createdAt: int,
    lastSentAt: Option<int>,
    dispatched: bool,
    retries: nat,
    currentRTO: int,
    sampleEligible: bool,
    lastNackAt: Option<int>,
    pushes: nat,         // how often it was put on the transmit queue
    nackResends: seq<int>) // when a NACK made it be sent again

  /** One round-trip sample, and the packet it came from. */
  datatype Sample = Sample(value: int, item: Item)

  datatype Timers = Timers(adaptive: Adaptive, items: map<Seq16, Item>, births: nat, samples: seq<Sample>)

  datatype Step =
    | Sent(sn: Seq16, pushed: bool)
    | Dequeued(sn: Seq16)
    | Nacked(sn: Seq16, pushed: bool)
    | Resent(sn: Seq16, pushed: bool)
    | Acked(sn: Seq16)
    | Cleared

  /** currentDataBaseRTO. */
  function BaseRTO(p: Params, s: Adaptive): int {
    if s.currentBase <= 0 then p.rto else Clamp(s.currentBase, p.rto, p.maxRto)
  }

  /** Growth by 1.35 in integers. */
  function Grown(rto: int): int {
    rto * 135 / 100
  }

  predicate Due(item: Item, now: int) {
    item.dispatched && (item.lastSentAt.None? || now - item.lastSentAt.value >= item.currentRTO)
  }

  predicate NackHeeded(p: Params, item: Item, now: int) {
    item.lastNackAt.None? || now - item.lastNackAt.value >= p.nackRepeat
  }

  function Created(p: Params, t: Timers, pushed: bool, now: int): Item {
    var rto := BaseRTO(p, t.adaptive);
    Item(t.births, now, if pushed then None else Some(now - rto), !pushed, 0, rto, true, None, if pushed then 1 else 0, [])
  }

  /** checkRetransmits, for one due packet that the queue took. */
  function Retransmitted(p: Params, t: Timers, item: Item, now: int): Item {
    item.(lastSentAt := Some(now), dispatched := false, retries := item.retries + 1, sampleEligible := false,
          currentRTO := Clamp(Grown(item.currentRTO), BaseRTO(p, t.adaptive), p.maxRto), pushes := item.pushes + 1)
  }

  predicate Enabled(t: Timers, step: Step, now: int) {
    match step
    case Resent(sn, _) => sn in t.items && Due(t.items[sn], now)
    case _ => true
  }

  function Apply(p: Params, t: Timers, step: Step, now: int): Timers
    requires Enabled(t, step, now)
  {
    match step
    case Sent(sn, pushed) => t.(items := t.items[sn := Created(p, t, pushed, now)], births := t.births + 1)
    case Dequeued(sn) =>
      if sn !in t.items then t
      else t.(items := t.items[sn := t.items[sn].(lastSentAt := Some(now), dispatched := true)])
    case Nacked(sn, pushed) =>
      if sn !in t.items || !NackHeeded(p, t.items[sn], now) || !pushed then t
      else
        var item := t.items[sn];
        t.(items := t.items[sn := item.(lastNackAt := Some(now), sampleEligible := false, pushes := item.pushes + 1,
                                        nackResends := item.nackResends + [now])])
    case Resent(sn, pushed) =>
      if !pushed then t else t.(items := t.items[sn := Retransmitted(p, t, t.items[sn], now)])
    case Acked(sn) =>
      if sn !in t.items then t
      else
        var item, rest := t.items[sn], t.(items := t.items - {sn});
        if item.sampleEligible && item.dispatched && item.lastSentAt.Some? then
          var value := now - item.lastSentAt.value;
          rest.(adaptive := Update(t.adaptive, value, p.rto, p.maxRto), samples := t.samples + [Sample(value, item)])
        else rest
    case Cleared => t.(items := map[])
  }

  ghost predicate Run(p: Params, states: seq<Timers>, steps: seq<Step>, clocks: seq<int>) {
    && |states| == |steps| + 1 && |clocks| == |states|
    && states[0] == Timers(Start(p.rto), map[], 0, [])
    && forall i {:trigger steps[i]} :: 0 <= i < |steps| ==> RunStep(p, states[i], steps[i], states[i + 1], clocks[i], clocks[i + 1])
  }

  ghost predicate RunStep(p: Params, t: Timers, step: Step, t': Timers, before: int, now: int) {
    before <= now && Enabled(t, step, now) && t' == Apply(p, t, step, now)
  }

  // ------------------------------------------------------------------
  // The invariant
  // ------------------------------------------------------------------

  ghost predicate SpacedBy(times: seq<int>, gap: int) {
    forall i :: 0 < i < |times| ==> times[i] - times[i - 1] >= gap
  }

  ghost predicate ItemHolds(p: Params, item: Item, births: nat, clock: int) {
    && item.birth < births
    && p.rto <= item.currentRTO <= p.maxRto
    && (item.sampleEligible ==> item.pushes <= 1 && item.retries == 0)
    && item.createdAt <= clock
    && (item.lastSentAt.Some? ==> item.lastSentAt.value <= clock)
    && (item.retries > 0 ==> item.lastSentAt.Some? && RetriesPaid(p, item, item.lastSentAt.value))
    && SpacedBy(item.nackResends, p.nackRepeat)
    && item.lastNackAt == if item.nackResends == [] then None else Some(item.nackResends[|item.nackResends| - 1])
  }

  /** Each retry but the first was preceded by a full timeout. */
  ghost predicate RetriesPaid(p: Params, item: Item, at: int) {
    item.createdAt + (item.retries - 1) * p.rto <= at
  }

  ghost predicate Inv(p: Params, t: Timers, clock: int) {
    && Bounded(t.adaptive, p.rto, p.maxRto)
    && (forall sn :: sn in t.items ==> ItemHolds(p, t.items[sn], t.births, clock))
    && (forall i :: 0 <= i < |t.samples| ==> t.samples[i].item.pushes <= 1 && t.samples[i].item.retries == 0 && t.samples[i].value >= 0)
  }

  lemma RetransmittedHolds(p: Params, t: Timers, item: Item, now: int)
    requires p.Valid() && Bounded(t.adaptive, p.rto, p.maxRto) && ItemHolds(p, item, t.births, now) && Due(item, now)
    ensures ItemHolds(p, Retransmitted(p, t, item, now), t.births, now)
    ensures Retransmitted(p, t, item, now).currentRTO >= item.currentRTO
  {
    var r := item.retries;
    assert r > 0 ==> (r - 1) * p.rto + p.rto == r * p.rto;
  }

  lemma ClockMoves(p: Params, t: Timers, before: int, now: int)
    requires Inv(p, t, before) && before <= now
    ensures Inv(p, t, now)
  {
  }

  lemma NackedKeeps(p: Params, t: Timers, sn: Seq16, pushed: bool, now: int)
    requires p.Valid() && Inv(p, t, now)
    ensures Inv(p, Apply(p, t, Nacked(sn, pushed), now), now)
  {
  }

  lemma AckedKeeps(p: Params, t: Timers, sn: Seq16, now: int)
    requires p.Valid() && Inv(p, t, now)
    ensures Inv(p, Apply(p, t, Acked(sn), now), now)
  {
    if sn in t.items && t.items[sn].lastSentAt.Some? {
      UpdateBounded(t.adaptive, now - t.items[sn].lastSentAt.value, p.rto, p.maxRto);
    }
  }

  lemma StepKeeps(p: Params, t: Timers, step: Step, before: int, now: int)
    requires p.Valid() && Inv(p, t, before) && before <= now && Enabled(t, step, now)
    ensures Inv(p, Apply(p, t, step, now), now)
  {
    ClockMoves(p, t, before, now);
    match step
    case Resent(sn, pushed) => RetransmittedHolds(p, t, t.items[sn], now);
    case Nacked(sn, pushed) => NackedKeeps(p, t, sn, pushed, now);
    case Acked(sn) => AckedKeeps(p, t, sn, now);
    case _ =>
  }

  lemma {:induction false} Reachable(p: Params, states: seq<Timers>, steps: seq<Step>, clocks: seq<int>, i: nat)
    requires p.Valid() && Run(p, states, steps, clocks) && i < |states|
    ensures Inv(p, states[i], clocks[i])
  {
    if i > 0 {
      Reachable(p, states, steps, clocks, i - 1);
      StepAt(p, states, steps, clocks, i - 1);
    }
  }

  lemma StepAt(p: Params, states: seq<Timers>, steps: seq<Step>, clocks: seq<int>, i: nat)
    requires p.Valid() && Run(p, states, steps, clocks) && i < |steps| && Inv(p, states[i], clocks[i])
    ensures Inv(p, states[i + 1], clocks[i + 1])
  {
    StepKeeps(p, states[i], steps[i], clocks[i], clocks[i + 1]);
  }

  // ------------------------------------------------------------------
  // Every run
  // ------------------------------------------------------------------

  /** The estimator and every packet's own timeout stay within the configured limits. */
  lemma TimeoutsStayInBounds(p: Params, states: seq<Timers>, steps: seq<Step>, clocks: seq<int>, i: nat, sn: Seq16)
    requires p.Valid() && Run(p, states, steps, clocks) && i < |states|
    ensures Bounded(states[i].adaptive, p.rto, p.maxRto)
    ensures sn in states[i].items ==> p.rto <= states[i].items[sn].currentRTO <= p.maxRto
  {
    Reachable(p, states, steps, clocks, i);
  }

  /** No sample comes from a packet that was put on the queue twice (section 3 of RFC 6298). */
  lemma NoSampleFromRetransmission(p: Params, states: seq<Timers>, steps: seq<Step>, clocks: seq<int>, i: nat, k: nat)
    requires p.Valid() && Run(p, states, steps, clocks) && i < |states| && k < |states[i].samples|
    ensures var s := states[i].samples[k]; s.item.pushes <= 1 && s.item.retries == 0 && s.value >= 0
  {
    Reachable(p, states, steps, clocks, i);
  }

  /** A packet is retransmitted at most once more than its age has full timeouts. */
  lemma RetriesAreBoundedByAge(p: Params, states: seq<Timers>, steps: seq<Step>, clocks: seq<int>, i: nat, sn: Seq16)
    requires p.Valid() && Run(p, states, steps, clocks) && i < |states| && sn in states[i].items
    ensures var item := states[i].items[sn]; item.retries > 0 ==> (item.retries - 1) * p.rto <= clocks[i] - item.createdAt
  {
    Reachable(p, states, steps, clocks, i);
  }

  /** Resends asked for by NACKs of one packet keep the repeat interval. */
  lemma NackResendsAreSpaced(p: Params, states: seq<Timers>, steps: seq<Step>, clocks: seq<int>, i: nat, sn: Seq16)
    requires p.Valid() && Run(p, states, steps, clocks) && i < |states| && sn in states[i].items
    ensures SpacedBy(states[i].items[sn].nackResends, p.nackRepeat)
  {
    Reachable(p, states, steps, clocks, i);
  }

  /** The timeout of a packet never shrinks while the packet is unacknowledged. */
  lemma {:induction false} TimeoutNeverShrinks(p: Params, states: seq<Timers>, steps: seq<Step>, clocks: seq<int>,
                                               i: nat, j: nat, sn: Seq16)
    requires p.Valid() && Run(p, states, steps, clocks) && i <= j < |states| && sn in states[i].items
    ensures states[i].births <= states[j].births
    ensures sn in states[j].items && states[j].items[sn].birth == states[i].items[sn].birth ==>
              states[i].items[sn].currentRTO <= states[j].items[sn].currentRTO
    decreases j
  {
    if i < j {
      TimeoutNeverShrinks(p, states, steps, clocks, i, j - 1, sn);
      Reachable(p, states, steps, clocks, i);
      Reachable(p, states, steps, clocks, j - 1);
      StepNeverShrinks(p, states[j - 1], steps[j - 1], states[j], clocks[j - 1], clocks[j], sn, states[i].items[sn].birth);
    }
  }

  lemma StepNeverShrinks(p: Params, t: Timers, step: Step, t': Timers, before: int, now: int, sn: Seq16, birth: nat)
    requires p.Valid() && Inv(p, t, before) && RunStep(p, t, step, t', before, now) && birth < t.births
    ensures t.births <= t'.births
    ensures sn in t'.items && t'.items[sn].birth == birth ==>
              sn in t.items && t.items[sn].birth == birth && t.items[sn].currentRTO <= t'.items[sn].currentRTO
  {
    if step.Resent? {
      RetransmittedHolds(p, t, t.items[step.sn], now);
    }
  }

  // ------------------------------------------------------------------
  // What the steps do
  // ------------------------------------------------------------------

  /** A packet gives a sample when it is acknowledged exactly if it was sent just once and has left. */
  ghost predicate Untouched(item: Item) {
    item.retries == 0 && item.nackResends == []
  }

  function Values(samples: seq<Sample>): seq<int> {
    seq(|samples|, i requires 0 <= i < |samples| => samples[i].value)
  }

  ghost predicate Estimates(p: Params, s: Adaptive, samples: seq<Sample>) {
    s == After(Values(samples), p.rto, p.maxRto)
  }

  ghost predicate Sampling(p: Params, t: Timers) {
    && Estimates(p, t.adaptive, t.samples)
    && forall sn :: sn in t.items ==> (t.items[sn].sampleEligible <==> Untouched(t.items[sn]))
  }

  lemma ValuesPush(samples: seq<Sample>, s: Sample)
    ensures Values(samples + [s]) == Values(samples) + [s.value]
    ensures Values(samples + [s])[..|samples|] == Values(samples)
  {
  }

  lemma StepStaysSampling(p: Params, t: Timers, step: Step, t': Timers, before: int, now: int)
    requires Sampling(p, t) && RunStep(p, t, step, t', before, now)
    ensures Sampling(p, t')
  {
    if step.Acked? {
      AckStaysSampling(p, t, step.sn, now);
    } else if step.Nacked? {
      NackStaysSampling(p, t, step.sn, step.pushed, now);
    }
  }

  lemma AckStaysSampling(p: Params, t: Timers, sn: Seq16, now: int)
    requires Sampling(p, t)
    ensures Sampling(p, Apply(p, t, Acked(sn), now))
  {
    var t' := Apply(p, t, Acked(sn), now);
    AckedParts(p, t, sn, now, t');
    if t'.samples != t.samples {
      OneMoreSample(p, t.adaptive, t.samples, t'.samples[|t.samples|]);
    }
  }

  lemma AckedParts(p: Params, t: Timers, sn: Seq16, now: int, t': Timers)
    requires t' == Apply(p, t, Acked(sn), now)
    ensures forall k :: k in t'.items ==> k in t.items && t'.items[k] == t.items[k]
    ensures if t'.samples == t.samples then t'.adaptive == t.adaptive
            else |t'.samples| == |t.samples| + 1 && t'.samples == t.samples + [t'.samples[|t.samples|]]
                 && t'.adaptive == Update(t.adaptive, t'.samples[|t.samples|].value, p.rto, p.maxRto)
  {
  }

  lemma OneMoreSample(p: Params, s: Adaptive, samples: seq<Sample>, sample: Sample)
    requires Estimates(p, s, samples)
    ensures Estimates(p, Update(s, sample.value, p.rto, p.maxRto), samples + [sample])
  {
    ValuesPush(samples, sample);
    AfterPush(Values(samples), sample.value, p.rto, p.maxRto);
  }

  lemma AfterPush(values: seq<int>, v: int, lo: int, hi: int)
    ensures After(values + [v], lo, hi) == Update(After(values, lo, hi), v, lo, hi)
  {
    assert (values + [v])[..|values|] == values;
  }

  lemma NackStaysSampling(p: Params, t: Timers, sn: Seq16, pushed: bool, now: int)
    requires Sampling(p, t)
    ensures Sampling(p, Apply(p, t, Nacked(sn, pushed), now))
  {
  }

  lemma {:induction false} StaysSampling(p: Params, states: seq<Timers>, steps: seq<Step>, clocks: seq<int>, i: nat)
    requires Run(p, states, steps, clocks) && i < |states|
    ensures Sampling(p, states[i])
    decreases i
  {
    if i == 0 {
      assert Values([]) == [];
    } else {
      var step := steps[i - 1];
      StaysSampling(p, states, steps, clocks, i - 1);
      StepStaysSampling(p, states[i - 1], step, states[i], clocks[i - 1], clocks[i]);
    }
  }

  /** In every run the estimator is that of the samples taken so far, in their order. */
  lemma EstimatorOfSamples(p: Params, states: seq<Timers>, steps: seq<Step>, clocks: seq<int>, i: nat)
    requires Run(p, states, steps, clocks) && i < |states|
    ensures states[i].adaptive == After(Values(states[i].samples), p.rto, p.maxRto)
  {
    StaysSampling(p, states, steps, clocks, i);
  }

  /**
   An acknowledgement of a tracked packet ends its timer, and adds a sample exactly if the packet was neither
   retransmitted nor sent again for a NACK and has left the queue; the sample is the time since it left.
   */
  lemma SampledExactly(p: Params, states: seq<Timers>, steps: seq<Step>, clocks: seq<int>, i: nat, sn: Seq16)
    requires Run(p, states, steps, clocks) && i < |steps| && steps[i] == Acked(sn) && sn in states[i].items
    ensures sn !in states[i + 1].items
    ensures var item := states[i].items[sn];
            Values(states[i + 1].samples) == Values(states[i].samples) + (
              if item.retries == 0 && item.nackResends == [] && item.dispatched && item.lastSentAt.Some?
              then [clocks[i + 1] - item.lastSentAt.value] else [])
  {
    var step := steps[i];
    assert RunStep(p, states[i], step, states[i + 1], clocks[i], clocks[i + 1]);
    StaysSampling(p, states, steps, clocks, i);
    if |states[i + 1].samples| > |states[i].samples| {
      ValuesPush(states[i].samples, states[i + 1].samples[|states[i].samples|]);
    }
  }

  predicate About(step: Step, sn: Seq16) {
    step == Cleared || (!step.Cleared? && step.sn == sn)
  }

  /** A packet that nothing happens to stays as it is. */
  lemma {:induction false} Unchanged(p: Params, states: seq<Timers>, steps: seq<Step>, clocks: seq<int>, i: nat, j: nat, sn: Seq16)
    requires Run(p, states, steps, clocks) && i <= j < |states| && sn in states[i].items
    requires forall m :: i <= m < j ==> !About(steps[m], sn)
    ensures sn in states[j].items && states[j].items[sn] == states[i].items[sn]
    decreases j
  {
    if i < j {
      Unchanged(p, states, steps, clocks, i, j - 1, sn);
      var step := steps[j - 1];
      assert RunStep(p, states[j - 1], step, states[j], clocks[j - 1], clocks[j]) && !About(step, sn);
    }
  }

  lemma SentItem(p: Params, states: seq<Timers>, steps: seq<Step>, clocks: seq<int>, i: nat, sn: Seq16)
    requires Run(p, states, steps, clocks) && i < |steps| && steps[i] == Sent(sn, true)
    ensures sn in states[i + 1].items && Untouched(states[i + 1].items[sn])
  {
    var step := steps[i];
    assert RunStep(p, states[i], step, states[i + 1], clocks[i], clocks[i + 1]);
  }

  lemma DequeuedItem(p: Params, states: seq<Timers>, steps: seq<Step>, clocks: seq<int>, i: nat, sn: Seq16)
    requires Run(p, states, steps, clocks) && i < |steps| && steps[i] == Dequeued(sn) && sn in states[i].items
    ensures sn in states[i + 1].items
    ensures states[i + 1].items[sn] == states[i].items[sn].(lastSentAt := Some(clocks[i + 1]), dispatched := true)
  {
    var step := steps[i];
    assert RunStep(p, states[i], step, states[i + 1], clocks[i], clocks[i + 1]);
  }

  /** A packet that is sent, leaves the queue and is acknowledged gives its round-trip time. */
  lemma RoundTripIsMeasured(p: Params, states: seq<Timers>, steps: seq<Step>, clocks: seq<int>, i: nat, j: nat, k: nat, sn: Seq16)
    requires Run(p, states, steps, clocks) && i < j < k < |steps|
    requires steps[i] == Sent(sn, true) && steps[j] == Dequeued(sn) && steps[k] == Acked(sn)
    requires forall m :: i < m < k && m != j ==> !About(steps[m], sn)
    ensures Values(states[k + 1].samples) == Values(states[k].samples) + [clocks[k + 1] - clocks[j + 1]]
  {
    SentItem(p, states, steps, clocks, i, sn);
    Unchanged(p, states, steps, clocks, i + 1, j, sn);
    DequeuedItem(p, states, steps, clocks, j, sn);
    Unchanged(p, states, steps, clocks, j + 1, k, sn);
    SampledExactly(p, states, steps, clocks, k, sn);
  }

  /**
   A NACK that the queue takes is heeded exactly if none was heeded for the packet within the repeat interval.
   */
  lemma HeededExactly(p: Params, states: seq<Timers>, steps: seq<Step>, clocks: seq<int>, i: nat, sn: Seq16)
    requires p.Valid() && Run(p, states, steps, clocks) && i < |steps| && steps[i] == Nacked(sn, true) && sn in states[i].items
    ensures sn in states[i + 1].items
    ensures var resends := states[i].items[sn].nackResends;
            states[i + 1].items[sn].nackResends == resends + (
              if resends == [] || clocks[i + 1] - resends[|resends| - 1] >= p.nackRepeat then [clocks[i + 1]] else [])
  {
    var step := steps[i];
    assert RunStep(p, states[i], step, states[i + 1], clocks[i], clocks[i + 1]);
    Reachable(p, states, steps, clocks, i);
  }

  /** Growth by 1.34 a time. */
  function Compound(n: nat): real {
    if n == 0 then 1.0 else 1.34 * Compound(n - 1)
  }

  lemma GrownEnough(rto: int)
    requires rto >= 100
    ensures Grown(rto) as real >= 1.34 * rto as real
  {
    assert rto * 135 == 100 * (rto * 135 / 100) + rto * 135 % 100;
    assert (rto * 135) as real == 100.0 * Grown(rto) as real + (rto * 135 % 100) as real;
    assert (rto * 135) as real == 135.0 * rto as real;
  }

  ghost predicate BackedOff(p: Params, item: Item) {
    item.currentRTO == p.maxRto || item.currentRTO as real >= Compound(item.retries) * p.rto as real
  }

  lemma RetransmissionBacksOff(p: Params, t: Timers, item: Item, now: int)
    requires p.Valid() && p.rto >= 100 && p.rto <= item.currentRTO <= p.maxRto && BackedOff(p, item)
    ensures BackedOff(p, Retransmitted(p, t, item, now))
  {
    GrownEnough(item.currentRTO);
    var c, r := Compound(item.retries), p.rto as real;
    assert 1.34 * (c * r) == (1.34 * c) * r;
  }

  lemma BackOffStep(p: Params, t: Timers, step: Step, t': Timers, before: int, now: int, sn: Seq16)
    requires p.Valid() && p.rto >= 100 && Inv(p, t, before) && RunStep(p, t, step, t', before, now) && sn in t'.items
    requires sn in t.items ==> BackedOff(p, t.items[sn])
    ensures BackedOff(p, t'.items[sn])
  {
    if step == Resent(sn, true) {
      RetransmissionBacksOff(p, t, t.items[sn], now);
    }
  }

  /**
   Exponential back-off.  After `n` retransmissions a packet waits at least 1.34 to the power of `n` times the
   initial timeout, or the longest timeout; a timeout below 100 ns is never configured.
   */
  lemma {:induction false} BackOffIsExponential(p: Params, states: seq<Timers>, steps: seq<Step>, clocks: seq<int>, i: nat, sn: Seq16)
    requires p.Valid() && p.rto >= 100 && Run(p, states, steps, clocks) && i < |states| && sn in states[i].items
    ensures BackedOff(p, states[i].items[sn])
    decreases i
  {
    if i > 0 {
      var step := steps[i - 1];
      assert RunStep(p, states[i - 1], step, states[i], clocks[i - 1], clocks[i]);
      Reachable(p, states, steps, clocks, i - 1);
      if sn in states[i - 1].items {
        BackOffIsExponential(p, states, steps, clocks, i - 1, sn);
      }
      BackOffStep(p, states[i - 1], step, states[i], clocks[i - 1], clocks[i], sn);
    }
  }

  /** A retransmission that the queue takes is counted, waits for its turn again and restarts the timer. */
  lemma RetransmissionRestartsTimer(p: Params, states: seq<Timers>, steps: seq<Step>, clocks: seq<int>, i: nat, sn: Seq16)
    requires Run(p, states, steps, clocks) && i < |steps| && steps[i] == Resent(sn, true)
    ensures sn in states[i].items && sn in states[i + 1].items
    ensures var old', new' := states[i].items[sn], states[i + 1].items[sn];
            && new'.retries == old'.retries + 1 && new'.lastSentAt == Some(clocks[i + 1]) && !new'.dispatched
            && old'.dispatched && (old'.lastSentAt.Some? ==> clocks[i + 1] - old'.lastSentAt.value >= old'.currentRTO)
            && new'.createdAt == old'.createdAt
  {
    var step := steps[i];
    assert RunStep(p, states[i], step, states[i + 1], clocks[i], clocks[i + 1]);
  }

  /** A new packet waits for the base timeout of the estimator as it stands, and a retransmitted one at least as long. */
  lemma TimeoutsFollowTheEstimator(p: Params, states: seq<Timers>, steps: seq<Step>, clocks: seq<int>, i: nat, sn: Seq16, pushed: bool)
    requires p.Valid() && Run(p, states, steps, clocks) && i < |steps|
    ensures steps[i] == Sent(sn, pushed) ==>
              sn in states[i + 1].items && states[i + 1].items[sn].currentRTO == states[i].adaptive.currentBase
    ensures steps[i] == Resent(sn, true) ==>
              sn in states[i + 1].items && states[i + 1].items[sn].currentRTO >= states[i].adaptive.currentBase
  {
    var step := steps[i];
    assert RunStep(p, states[i], step, states[i + 1], clocks[i], clocks[i + 1]);
    Reachable(p, states, steps, clocks, i);
  }
}
