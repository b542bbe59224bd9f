/**
 The tracker of invalid session cookies: it reports a source once enough attempts fall into a sliding
 window, and at most once a window.  It keeps only as many attempts as the threshold; its specification
 keeps all of them.  Times are in nanoseconds; as the time of the last report, zero stands for "never".
 */
module CookieTracker {
  import opened Enums

  datatype Record = Record(attempts: seq<int>, lastEmitAt: int)

  const FRESH := Record([], 0)

  datatype Limits = Limits(window: int, threshold: int) {
    predicate Active() {
      window > 0 && threshold > 0
    }
  }

  // ------------------------------------------------------------------
  // The bounded record
  // ------------------------------------------------------------------

  /** pruneAttemptTimes drops the leading attempts before the cutoff. */
  function Pruned(attempts: seq<int>, cutoff: int): seq<int> {
    if attempts == [] || attempts[0] >= cutoff then attempts else Pruned(attempts[1..], cutoff)
  }

  method PruneAttemptTimes(attempts: seq<int>, cutoff: int) returns (kept: seq<int>)
    ensures kept == Pruned(attempts, cutoff)
  {
    var idx := 0;
    assert attempts[0..] == attempts;
    while idx < |attempts| && attempts[idx] < cutoff
      invariant 0 <= idx <= |attempts|
      invariant Pruned(attempts, cutoff) == Pruned(attempts[idx..], cutoff)
    {
      assert attempts[idx..][1..] == attempts[idx + 1..];
      idx := idx + 1;
    }
    kept := attempts[idx..];
  }

  /** appendBoundedAttempt: the newest attempts, at most `limit` of them. */
  function Appended(attempts: seq<int>, now: int, limit: int): seq<int>
    requires limit > 0
  {
    if |attempts| < limit then attempts + [now] else attempts[1..] + [now]
  }

  function Noted(r: Record, now: int, l: Limits): (Record, bool)
    requires l.Active()
  {
    var attempts := Appended(Pruned(r.attempts, now - l.window), now, l.threshold);
    var emit := |attempts| >= l.threshold && !(r.lastEmitAt != 0 && now - r.lastEmitAt < l.window);
    (Record(attempts, if emit then now else r.lastEmitAt), emit)
  }

  /** Cleanup of one record: nothing when it is dropped. */
  function Cleaned(r: Record, now: int, l: Limits): Option<Record> {
    var cutoff := now - l.window;
    var attempts := Pruned(r.attempts, cutoff);
    if attempts == [] && (r.lastEmitAt == 0 || r.lastEmitAt < cutoff) then None else Some(Record(attempts, r.lastEmitAt))
  }

  // ------------------------------------------------------------------
  // The tracker
  // ------------------------------------------------------------------

  /** Session, expected cookie (256 when unknown), cookie of the packet, state of the session. */
  datatype Key = Key(session: nat, expected: nat, packetCookie: nat, state: nat)

  function RecordOf(records: map<Key, Record>, key: Key): Record {
    if key in records then records[key] else FRESH
  }

  function NotedIn(records: map<Key, Record>, key: Key, now: int, l: Limits): (map<Key, Record>, bool)
    requires l.Active()
  {
    var (r, emit) := Noted(RecordOf(records, key), now, l);
    (records[key := r], emit)
  }

  function CleanedAll(records: map<Key, Record>, now: int, l: Limits): map<Key, Record> {
    if l.window <= 0 then records
    else map k | k in records && Cleaned(records[k], now, l).Some? :: Cleaned(records[k], now, l).value
  }

  class Tracker {
    var records: map<Key, Record>

    constructor ()
      ensures records == map[]
    {
      records := map[];
    }

    method Note(key: Key, now: int, l: Limits) returns (emit: bool)
      modifies this
      ensures (records, emit) == if l.Active() then NotedIn(old(records), key, now, l) else (old(records), false)
    {
      if l.window <= 0 || l.threshold <= 0 {
        return false;
      }
      var r := if key in records then records[key] else FRESH;
      var attempts := PruneAttemptTimes(r.attempts, now - l.window);
      attempts := if |attempts| < l.threshold then attempts + [now] else attempts[1..] + [now];
      if |attempts| < l.threshold {
        records := records[key := r.(attempts := attempts)];
        return false;
      }
      if r.lastEmitAt != 0 && now - r.lastEmitAt < l.window {
        records := records[key := r.(attempts := attempts)];
        return false;
      }
      records := records[key := Record(attempts, now)];
      return true;
    }

    method Cleanup(now: int, l: Limits)
      modifies this
      ensures records == CleanedAll(old(records), now, l)
    {
      if l.window <= 0 {
        return;
      }
      ghost var before := records;
      var cutoff := now - l.window;
      var left := records.Keys;
      while left != {}
        invariant left <= before.Keys && records.Keys <= before.Keys
        invariant forall k :: k in left ==> k in records && records[k] == before[k]
        invariant forall k :: k in before && k !in left ==>
                    if Cleaned(before[k], now, l).None? then k !in records
                    else k in records && records[k] == Cleaned(before[k], now, l).value
        decreases left
      {
        var key :| key in left;
        left := left - {key};
        var attempts := PruneAttemptTimes(records[key].attempts, cutoff);
        if |attempts| == 0 && (records[key].lastEmitAt == 0 || records[key].lastEmitAt < cutoff) {
          records := records - {key};
        } else {
          records := records[key := records[key].(attempts := attempts)];
        }
      }
    }
  }

  // ------------------------------------------------------------------
  // The unbounded log
  // ------------------------------------------------------------------

  /** How many of the attempts fall at or after a time. */
  function CountFrom(times: seq<int>, from: int): nat
    decreases |times|
  {
    if times == [] then 0
    else CountFrom(times[..|times| - 1], from) + if times[|times| - 1] >= from then 1 else 0
  }

  /** What a tracker with a full log answers to an attempt: enough in the window, and no report within it. */
  predicate Reports(log: seq<int>, emissions: seq<int>, now: int, l: Limits) {
    && CountFrom(log + [now], now - l.window) >= l.threshold
    && (emissions == [] || now - emissions[|emissions| - 1] >= l.window)
  }

  /** The reports such a tracker makes over a sequence of attempts: cleaning up plays no part in it. */
  function Emissions(log: seq<int>, l: Limits): seq<int>
    decreases |log|
  {
    if log == [] then []
    else
      var n := |log| - 1;
      var before := Emissions(log[..n], l);
      before + if Reports(log[..n], before, log[n], l) then [log[n]] else []
  }

  predicate Ascending(times: seq<int>) {
    forall i :: 0 < i < |times| ==> times[i - 1] <= times[i]
  }

  // ------------------------------------------------------------------
  // Runs
  // ------------------------------------------------------------------

  datatype Step = Attempt(key: Key) | CleanUp

  /** The tracker's records, with a full log of attempts for every key beside them. */
  datatype Tracked = Tracked(records: map<Key, Record>, logs: map<Key, seq<int>>)

  function LogOf(t: Tracked, key: Key): seq<int> {
    if key in t.logs then t.logs[key] else []
  }

  function Apply(t: Tracked, step: Step, now: int, l: Limits): (Tracked, bool)
    requires l.Active()
  {
    match step
    case Attempt(key) =>
      var (records, emit) := NotedIn(t.records, key, now, l);
      (Tracked(records, t.logs[key := LogOf(t, key) + [now]]), emit)
    case CleanUp => (t.(records := CleanedAll(t.records, now, l)), false)
  }

  ghost predicate Run(l: Limits, states: seq<Tracked>, steps: seq<Step>, answers: seq<bool>, clocks: seq<int>) {
    && l.Active() && |states| == |steps| + 1 && |clocks| == |states| && |answers| == |steps|
    && states[0] == Tracked(map[], map[])
    && forall i {:trigger steps[i]} :: 0 <= i < |steps| ==>
         clocks[i] <= clocks[i + 1] && RunStep(l, states[i], steps[i], states[i + 1], answers[i], clocks[i + 1])
  }

  ghost predicate RunStep(l: Limits, t: Tracked, step: Step, t': Tracked, answer: bool, now: int)
    requires l.Active()
  {
    Apply(t, step, now, l) == (t', answer)
  }

  /** The answer is that of a full log. */
  predicate Agrees(l: Limits, t: Tracked, step: Step, answer: bool, now: int) {
    step.Attempt? ==> (answer <==> Reports(LogOf(t, step.key), Emissions(LogOf(t, step.key), l), now, l))
  }

  /** The last report fell at time zero, less than a window ago. */
  predicate ReportedAtZero(emissions: seq<int>, now: int, l: Limits) {
    emissions != [] && emissions[|emissions| - 1] == 0 && now < l.window
  }

  /** That report is forgotten, and the window holds enough attempts for another. */
  predicate Forgets(l: Limits, t: Tracked, step: Step, now: int) {
    step.Attempt? && ForgetsReport(LogOf(t, step.key), now, l)
  }

  predicate ForgetsReport(log: seq<int>, now: int, l: Limits) {
    ReportedAtZero(Emissions(log, l), now, l) && CountFrom(log + [now], now - l.window) >= l.threshold
  }

  /** The kept attempts are the newest of the log; what is missing is too old, or the threshold is reached without it. */
  ghost predicate KeepsNewest(attempts: seq<int>, log: seq<int>, cutoff: int, threshold: int) {
    var dropped := |log| - |attempts|;
    && 0 <= dropped && |attempts| <= threshold && log[dropped..] == attempts
    && (|attempts| == threshold || forall i :: 0 <= i < dropped ==> log[i] < cutoff)
  }

  /** The last report is remembered as long as it matters. */
  ghost predicate KeepsEmission(lastEmitAt: int, emissions: seq<int>, cutoff: int) {
    if emissions == [] then lastEmitAt == 0
    else lastEmitAt == emissions[|emissions| - 1] || (lastEmitAt == 0 && emissions[|emissions| - 1] < cutoff)
  }

  ghost predicate Knows(r: Record, log: seq<int>, emissions: seq<int>, clock: int, l: Limits) {
    && Ascending(log) && (forall i :: 0 <= i < |log| ==> log[i] <= clock)
    && KeepsNewest(r.attempts, log, clock - l.window, l.threshold)
    && KeepsEmission(r.lastEmitAt, emissions, clock - l.window)
  }

  ghost predicate KeyInv(r: Record, log: seq<int>, clock: int, l: Limits) {
    Knows(r, log, Emissions(log, l), clock, l)
  }

  ghost predicate Inv(t: Tracked, clock: int, l: Limits) {
    forall key :: KeyInv(RecordOf(t.records, key), LogOf(t, key), clock, l)
  }

  lemma {:induction false} AscendingOrder(times: seq<int>, i: nat, j: nat)
    requires Ascending(times) && i <= j < |times|
    ensures times[i] <= times[j]
    decreases j
  {
    if i < j {
      AscendingOrder(times, i, j - 1);
    }
  }

  lemma {:induction false} PrunedSuffix(attempts: seq<int>, cutoff: int)
    ensures var d := |attempts| - |Pruned(attempts, cutoff)|;
            && 0 <= d && attempts[d..] == Pruned(attempts, cutoff)
            && (forall i :: 0 <= i < d ==> attempts[i] < cutoff)
            && (Pruned(attempts, cutoff) != [] ==> Pruned(attempts, cutoff)[0] >= cutoff)
    decreases |attempts|
  {
    if attempts != [] && attempts[0] < cutoff {
      PrunedSuffix(attempts[1..], cutoff);
      var d := |attempts[1..]| - |Pruned(attempts[1..], cutoff)|;
      assert attempts[1..][d..] == attempts[d + 1..];
      assert forall i :: 0 < i < d + 1 ==> attempts[i] == attempts[1..][i - 1];
    }
  }

  /** Pruning keeps the newest attempts of the log. */
  lemma PruneKeeps(attempts: seq<int>, log: seq<int>, before: int, cutoff: int, threshold: int)
    requires KeepsNewest(attempts, log, before, threshold) && Ascending(log) && before <= cutoff && threshold > 0
    ensures KeepsNewest(Pruned(attempts, cutoff), log, cutoff, threshold)
    ensures forall i :: 0 <= i < |Pruned(attempts, cutoff)| ==> Pruned(attempts, cutoff)[i] >= cutoff
  {
    var kept := Pruned(attempts, cutoff);
    PrunedSuffix(attempts, cutoff);
    var d0, d := |log| - |attempts|, |log| - |kept|;
    assert log[d0..][d - d0..] == log[d..];
    if d > d0 {
      assert attempts[d - d0 - 1] == log[d0..][d - d0 - 1] == log[d - 1];
      OlderThan(log, d, cutoff);
    }
    if kept != [] {
      assert kept[0] == log[d..][0] == log[d];
      NewerThan(log, d, cutoff);
      assert forall i :: 0 <= i < |kept| ==> kept[i] == log[d..][i] == log[d + i];
    }
  }

  lemma OlderThan(log: seq<int>, d: nat, cutoff: int)
    requires Ascending(log) && 0 < d <= |log| && log[d - 1] < cutoff
    ensures forall i :: 0 <= i < d ==> log[i] < cutoff
  {
    forall i | 0 <= i < d
      ensures log[i] < cutoff
    {
      AscendingOrder(log, i, d - 1);
    }
  }

  lemma NewerThan(log: seq<int>, d: nat, cutoff: int)
    requires Ascending(log) && d < |log| && log[d] >= cutoff
    ensures forall i :: d <= i < |log| ==> log[i] >= cutoff
  {
    forall i | d <= i < |log|
      ensures log[i] >= cutoff
    {
      AscendingOrder(log, d, i);
    }
  }

  /** Counting over a sorted log: everything from a point on. */
  lemma {:induction false} CountSplit(times: seq<int>, d: nat, from: int)
    requires d <= |times|
    requires forall i :: d <= i < |times| ==> times[i] >= from
    ensures CountFrom(times, from) >= |times| - d
    ensures (forall i :: 0 <= i < d ==> times[i] < from) ==> CountFrom(times, from) == |times| - d
    decreases |times|
  {
    if times != [] {
      var n := |times| - 1;
      CountSplit(times[..n], if d <= n then d else n, from);
    }
  }

  /** The bounded record knows exactly whether the window holds enough attempts. */
  lemma EnoughAttempts(attempts: seq<int>, log: seq<int>, clock: int, now: int, l: Limits)
    requires l.Active() && KeepsNewest(attempts, log, clock - l.window, l.threshold) && Ascending(log) && clock <= now
    requires forall i :: 0 <= i < |log| ==> log[i] <= now
    ensures var attempts' := Appended(Pruned(attempts, now - l.window), now, l.threshold);
            && KeepsNewest(attempts', log + [now], now - l.window, l.threshold)
            && (|attempts'| >= l.threshold <==> CountFrom(log + [now], now - l.window) >= l.threshold)
  {
    var cutoff := now - l.window;
    PruneKeeps(attempts, log, clock - l.window, cutoff, l.threshold);
    AppendKeeps(Pruned(attempts, cutoff), log, cutoff, now, l);
  }

  lemma AppendKeeps(kept: seq<int>, log: seq<int>, cutoff: int, now: int, l: Limits)
    requires l.Active() && KeepsNewest(kept, log, cutoff, l.threshold) && cutoff <= now
    requires forall i :: 0 <= i < |kept| ==> kept[i] >= cutoff
    ensures var attempts' := Appended(kept, now, l.threshold);
            && KeepsNewest(attempts', log + [now], cutoff, l.threshold)
            && (|attempts'| >= l.threshold <==> CountFrom(log + [now], cutoff) >= l.threshold)
  {
    var log' := log + [now];
    var attempts' := Appended(kept, now, l.threshold);
    var d := |log'| - |attempts'|;
    assert log'[d..] == attempts' by {
      assert log[|log| - |kept|..] == kept;
    }
    forall i | d <= i < |log'|
      ensures log'[i] >= cutoff
    {
      assert log'[i] == attempts'[i - d];
    }
    CountSplit(log', d, cutoff);
  }

  lemma LogGrows(log: seq<int>, before: int, now: int)
    requires Ascending(log) && before <= now && forall i :: 0 <= i < |log| ==> log[i] <= before
    ensures Ascending(log + [now]) && forall i :: 0 <= i < |log + [now]| ==> (log + [now])[i] <= now
  {
  }

  /** The remembered report decides as the last of all reports would, unless that one fell at time zero. */
  lemma EmissionDecides(lastEmitAt: int, emissions: seq<int>, before: int, now: int, l: Limits)
    requires l.Active() && KeepsEmission(lastEmitAt, emissions, before - l.window) && before <= now
    ensures !(lastEmitAt != 0 && now - lastEmitAt < l.window)
        <==> emissions == [] || now - emissions[|emissions| - 1] >= l.window || ReportedAtZero(emissions, now, l)
  {
  }

  lemma EmissionKept(lastEmitAt: int, emissions: seq<int>, before: int, now: int, emit: bool, l: Limits)
    requires l.Active() && KeepsEmission(lastEmitAt, emissions, before - l.window) && before <= now
    ensures KeepsEmission(if emit then now else lastEmitAt, emissions + (if emit then [now] else []), now - l.window)
  {
  }

  lemma EmissionsPush(log: seq<int>, now: int, l: Limits)
    ensures Emissions(log + [now], l) == Emissions(log, l) + if Reports(log, Emissions(log, l), now, l) then [now] else []
  {
    assert (log + [now])[..|log|] == log;
  }

  /** An attempt is answered as by a full log exactly unless a report at time zero was forgotten. */
  lemma AttemptAnswers(r: Record, log: seq<int>, before: int, now: int, l: Limits)
    requires l.Active() && KeyInv(r, log, before, l) && before <= now
    ensures Noted(r, now, l).1 == Reports(log, Emissions(log, l), now, l) <==> !ForgetsReport(log, now, l)
  {
    EnoughAttempts(r.attempts, log, before, now, l);
    EmissionDecides(r.lastEmitAt, Emissions(log, l), before, now, l);
  }

  lemma AttemptKeeps(r: Record, log: seq<int>, before: int, now: int, l: Limits)
    requires l.Active() && KeyInv(r, log, before, l) && before <= now
    requires Noted(r, now, l).1 == Reports(log, Emissions(log, l), now, l)
    ensures KeyInv(Noted(r, now, l).0, log + [now], now, l)
  {
    NotedKnows(r, log, Emissions(log, l), before, now, l);
    EmissionsPush(log, now, l);
  }

  lemma NotedKnows(r: Record, log: seq<int>, emissions: seq<int>, before: int, now: int, l: Limits)
    requires l.Active() && Knows(r, log, emissions, before, l) && before <= now
    ensures var (r', emit) := Noted(r, now, l); Knows(r', log + [now], emissions + (if emit then [now] else []), now, l)
  {
    EnoughAttempts(r.attempts, log, before, now, l);
    LogGrows(log, before, now);
    EmissionKept(r.lastEmitAt, emissions, before, now, Noted(r, now, l).1, l);
  }

  lemma CleanedRecord(r: Record, now: int, l: Limits)
    ensures var r' := if Cleaned(r, now, l).None? then FRESH else Cleaned(r, now, l).value;
            && r'.attempts == Pruned(r.attempts, now - l.window)
            && (r'.lastEmitAt == r.lastEmitAt || (r'.lastEmitAt == 0 && r.lastEmitAt < now - l.window))
  {
  }

  lemma CleanUpKeeps(r: Record, log: seq<int>, before: int, now: int, l: Limits)
    requires l.Active() && KeyInv(r, log, before, l) && before <= now
    ensures KeyInv(if Cleaned(r, now, l).None? then FRESH else Cleaned(r, now, l).value, log, now, l)
  {
    CleanedRecord(r, now, l);
    PruneKeeps(r.attempts, log, before - l.window, now - l.window, l.threshold);
    EmissionForgotten(r.lastEmitAt, Emissions(log, l), before, now, l);
  }

  /** A key that nothing happens to stays good as time goes on. */
  lemma WaitingKeeps(r: Record, log: seq<int>, before: int, now: int, l: Limits)
    requires l.Active() && KeyInv(r, log, before, l) && before <= now
    ensures KeyInv(r, log, now, l)
  {
    EmissionForgotten(r.lastEmitAt, Emissions(log, l), before, now, l);
  }

  /** A dropped record stands for a fresh one: its report is too old to matter. */
  lemma EmissionForgotten(lastEmitAt: int, emissions: seq<int>, before: int, now: int, l: Limits)
    requires l.Active() && KeepsEmission(lastEmitAt, emissions, before - l.window) && before <= now
    ensures KeepsEmission(lastEmitAt, emissions, now - l.window)
    ensures lastEmitAt == 0 || lastEmitAt < now - l.window ==> KeepsEmission(0, emissions, now - l.window)
  {
  }

  lemma AttemptStepKeeps(l: Limits, t: Tracked, key: Key, before: int, now: int)
    requires l.Active() && Inv(t, before, l) && before <= now
    ensures var (t', answer) := Apply(t, Attempt(key), now, l);
            && (Agrees(l, t, Attempt(key), answer, now) <==> !Forgets(l, t, Attempt(key), now))
            && (Agrees(l, t, Attempt(key), answer, now) ==> Inv(t', now, l))
  {
    var (t', answer) := Apply(t, Attempt(key), now, l);
    var r, log := RecordOf(t.records, key), LogOf(t, key);
    assert KeyInv(r, log, before, l);
    AttemptAnswers(r, log, before, now, l);
    AttemptParts(l, t, key, t', answer, now);
    if answer == Reports(log, Emissions(log, l), now, l) {
      AttemptKeeps(r, log, before, now, l);
      OthersKeep(l, t, t', key, before, now);
    }
  }

  lemma AttemptParts(l: Limits, t: Tracked, key: Key, t': Tracked, answer: bool, now: int)
    requires l.Active() && (t', answer) == Apply(t, Attempt(key), now, l)
    ensures (RecordOf(t'.records, key), answer) == Noted(RecordOf(t.records, key), now, l)
    ensures LogOf(t', key) == LogOf(t, key) + [now]
    ensures forall k :: k != key ==> RecordOf(t'.records, k) == RecordOf(t.records, k) && LogOf(t', k) == LogOf(t, k)
  {
  }

  lemma OthersKeep(l: Limits, t: Tracked, t': Tracked, key: Key, before: int, now: int)
    requires l.Active() && Inv(t, before, l) && before <= now
    requires KeyInv(RecordOf(t'.records, key), LogOf(t', key), now, l)
    requires forall k :: k != key ==> RecordOf(t'.records, k) == RecordOf(t.records, k) && LogOf(t', k) == LogOf(t, k)
    ensures Inv(t', now, l)
  {
    forall k
      ensures KeyInv(RecordOf(t'.records, k), LogOf(t', k), now, l)
    {
      if k != key {
        assert KeyInv(RecordOf(t.records, k), LogOf(t, k), before, l);
        WaitingKeeps(RecordOf(t.records, k), LogOf(t, k), before, now, l);
      }
    }
  }

  lemma CleanUpStepKeeps(l: Limits, t: Tracked, before: int, now: int)
    requires l.Active() && Inv(t, before, l) && before <= now
    ensures Inv(Apply(t, CleanUp, now, l).0, now, l)
  {
    var t' := Apply(t, CleanUp, now, l).0;
    forall k
      ensures KeyInv(RecordOf(t'.records, k), LogOf(t', k), now, l)
    {
      var r := RecordOf(t.records, k);
      assert KeyInv(r, LogOf(t, k), before, l);
      CleanUpKeeps(r, LogOf(t, k), before, now, l);
      assert k !in t.records ==> Cleaned(r, now, l).None?;
    }
  }

  lemma StepKeeps(l: Limits, t: Tracked, step: Step, t': Tracked, answer: bool, before: int, now: int)
    requires l.Active() && Inv(t, before, l) && before <= now && RunStep(l, t, step, t', answer, now)
    ensures Agrees(l, t, step, answer, now) <==> !Forgets(l, t, step, now)
    ensures Agrees(l, t, step, answer, now) ==> Inv(t', now, l)
  {
    if step.Attempt? {
      AttemptStepKeeps(l, t, step.key, before, now);
    } else {
      CleanUpStepKeeps(l, t, before, now);
    }
  }

  /** A step adds to one log at most, and a report of that log to its reports. */
  lemma LogStep(l: Limits, t: Tracked, step: Step, t': Tracked, answer: bool, now: int, key: Key)
    requires l.Active() && RunStep(l, t, step, t', answer, now) && Agrees(l, t, step, answer, now)
    ensures Emissions(LogOf(t', key), l)
         == Emissions(LogOf(t, key), l) + if step == Attempt(key) && answer then [now] else []
  {
    EmissionsPush(LogOf(t, key), now, l);
  }

  lemma StepOfRun(l: Limits, states: seq<Tracked>, steps: seq<Step>, answers: seq<bool>, clocks: seq<int>, i: nat)
    requires Run(l, states, steps, answers, clocks) && i < |steps|
    ensures clocks[i] <= clocks[i + 1] && RunStep(l, states[i], steps[i], states[i + 1], answers[i], clocks[i + 1])
  {
    var step := steps[i];
    assert RunStep(l, states[i], step, states[i + 1], answers[i], clocks[i + 1]);
  }

  /** As long as all answers agree with the full logs, the records know what they need to know. */
  lemma {:induction false} Reachable(l: Limits, states: seq<Tracked>, steps: seq<Step>, answers: seq<bool>, clocks: seq<int>, i: nat)
    requires Run(l, states, steps, answers, clocks) && i < |states|
    requires forall m :: 0 <= m < i ==> Agrees(l, states[m], steps[m], answers[m], clocks[m + 1])
    ensures Inv(states[i], clocks[i], l)
    decreases i
  {
    if i > 0 {
      Reachable(l, states, steps, answers, clocks, i - 1);
      StepOfRun(l, states, steps, answers, clocks, i - 1);
      StepKeeps(l, states[i - 1], steps[i - 1], states[i], answers[i - 1], clocks[i - 1], clocks[i]);
      assert Agrees(l, states[i - 1], steps[i - 1], answers[i - 1], clocks[i]);
    }
  }

  /** At the first call that might disagree: it does exactly if it forgets a report at time zero. */
  lemma AgreesAt(l: Limits, states: seq<Tracked>, steps: seq<Step>, answers: seq<bool>, clocks: seq<int>, i: nat)
    requires Run(l, states, steps, answers, clocks) && i < |steps|
    requires forall m :: 0 <= m < i ==> Agrees(l, states[m], steps[m], answers[m], clocks[m + 1])
    ensures Agrees(l, states[i], steps[i], answers[i], clocks[i + 1]) <==> !Forgets(l, states[i], steps[i], clocks[i + 1])
  {
    Reachable(l, states, steps, answers, clocks, i);
    StepOfRun(l, states, steps, answers, clocks, i);
    StepKeeps(l, states[i], steps[i], states[i + 1], answers[i], clocks[i], clocks[i + 1]);
  }

  lemma {:induction false} AgreesUpTo(l: Limits, states: seq<Tracked>, steps: seq<Step>, answers: seq<bool>, clocks: seq<int>, n: nat)
    requires Run(l, states, steps, answers, clocks) && n <= |steps|
    requires forall i :: 0 <= i < n ==> !Forgets(l, states[i], steps[i], clocks[i + 1])
    ensures forall i :: 0 <= i < n ==> Agrees(l, states[i], steps[i], answers[i], clocks[i + 1])
    decreases n
  {
    if n > 0 {
      AgreesUpTo(l, states, steps, answers, clocks, n - 1);
      AgreesAt(l, states, steps, answers, clocks, n - 1);
    }
  }

  /**
   Over all keys and with clean-ups anywhere in between, every attempt of a run is answered as by full
   logs, if and only if none comes within a window of a report at time zero with enough attempts for
   another: the tracker takes that report for none.
   */
  lemma AgreementExactly(l: Limits, states: seq<Tracked>, steps: seq<Step>, answers: seq<bool>, clocks: seq<int>)
    requires Run(l, states, steps, answers, clocks)
    ensures (forall i :: 0 <= i < |steps| ==> Agrees(l, states[i], steps[i], answers[i], clocks[i + 1]))
       <==> (forall i :: 0 <= i < |steps| ==> !Forgets(l, states[i], steps[i], clocks[i + 1]))
  {
    if forall i :: 0 <= i < |steps| ==> !Forgets(l, states[i], steps[i], clocks[i + 1]) {
      AgreesUpTo(l, states, steps, answers, clocks, |steps|);
    }
    if forall i :: 0 <= i < |steps| ==> Agrees(l, states[i], steps[i], answers[i], clocks[i + 1]) {
      forall i | 0 <= i < |steps|
        ensures !Forgets(l, states[i], steps[i], clocks[i + 1])
      {
        AgreesAt(l, states, steps, answers, clocks, i);
      }
    }
  }

  /** No call of the run reports at time zero: so it is with every clock that starts later. */
  ghost predicate NoReportAtZero(answers: seq<bool>, clocks: seq<int>)
    requires |clocks| == |answers| + 1
  {
    forall i :: 0 <= i < |answers| ==> answers[i] ==> clocks[i + 1] != 0
  }

  /** Then the full logs report at time zero neither, and nothing is forgotten. */
  lemma {:induction false} NothingForgotten(l: Limits, states: seq<Tracked>, steps: seq<Step>, answers: seq<bool>, clocks: seq<int>, n: nat)
    requires Run(l, states, steps, answers, clocks) && n < |states| && NoReportAtZero(answers, clocks)
    ensures forall i :: 0 <= i < n ==> Agrees(l, states[i], steps[i], answers[i], clocks[i + 1])
    ensures forall key :: 0 !in Emissions(LogOf(states[n], key), l)
    decreases n
  {
    if n > 0 {
      NothingForgotten(l, states, steps, answers, clocks, n - 1);
      AgreesAt(l, states, steps, answers, clocks, n - 1);
      StepOfRun(l, states, steps, answers, clocks, n - 1);
      forall key
        ensures 0 !in Emissions(LogOf(states[n], key), l)
      {
        LogStep(l, states[n - 1], steps[n - 1], states[n], answers[n - 1], clocks[n], key);
        assert 0 !in Emissions(LogOf(states[n - 1], key), l);
      }
    }
  }

  /**
   The bounded tracker answers every attempt as one with full logs would, wherever clean-ups and attempts
   of other keys come in between, and its reports are those of the full log.
   */
  lemma BoundedEqualsFullHistory(l: Limits, states: seq<Tracked>, steps: seq<Step>, answers: seq<bool>, clocks: seq<int>, i: nat)
    requires Run(l, states, steps, answers, clocks) && NoReportAtZero(answers, clocks) && i < |steps| && steps[i].Attempt?
    ensures var key := steps[i].key;
            var log := LogOf(states[i], key);
            && (answers[i] <==> Reports(log, Emissions(log, l), clocks[i + 1], l))
            && Emissions(LogOf(states[i + 1], key), l) == Emissions(log, l) + if answers[i] then [clocks[i + 1]] else []
  {
    NeverDisagrees(l, states, steps, answers, clocks, i);
    StepOfRun(l, states, steps, answers, clocks, i);
    LogStep(l, states[i], steps[i], states[i + 1], answers[i], clocks[i + 1], steps[i].key);
  }

  /** After a report, the last one of the key's log is not older. */
  lemma {:induction false} LastReport(l: Limits, states: seq<Tracked>, steps: seq<Step>, answers: seq<bool>, clocks: seq<int>, i: nat, j: nat)
    requires Run(l, states, steps, answers, clocks) && NoReportAtZero(answers, clocks)
    requires i < j < |states| && steps[i].Attempt? && answers[i]
    ensures clocks[i + 1] <= clocks[j]
    ensures LastIsFrom(states[j], steps[i].key, clocks[i + 1], l)
    decreases j
  {
    var m := j - 1;
    StepOfRun(l, states, steps, answers, clocks, m);
    NeverDisagrees(l, states, steps, answers, clocks, m);
    if m > i {
      LastReport(l, states, steps, answers, clocks, i, m);
    }
    LastReportStep(l, states[m], steps[m], states[j], answers[m], clocks[j], steps[i].key, clocks[i + 1]);
  }

  lemma NeverDisagrees(l: Limits, states: seq<Tracked>, steps: seq<Step>, answers: seq<bool>, clocks: seq<int>, i: nat)
    requires Run(l, states, steps, answers, clocks) && NoReportAtZero(answers, clocks) && i < |steps|
    ensures Agrees(l, states[i], steps[i], answers[i], clocks[i + 1])
  {
    NothingForgotten(l, states, steps, answers, clocks, i + 1);
  }

  ghost predicate LastIsFrom(t: Tracked, key: Key, at: int, l: Limits) {
    var emissions := Emissions(LogOf(t, key), l);
    emissions != [] && emissions[|emissions| - 1] >= at
  }

  lemma LastReportStep(l: Limits, t: Tracked, step: Step, t': Tracked, answer: bool, now: int, key: Key, at: int)
    requires l.Active() && RunStep(l, t, step, t', answer, now) && Agrees(l, t, step, answer, now) && at <= now
    requires (step == Attempt(key) && answer) || LastIsFrom(t, key, at, l)
    ensures LastIsFrom(t', key, at, l)
  {
    LogStep(l, t, step, t', answer, now, key);
    NotOlder(Emissions(LogOf(t, key), l), Emissions(LogOf(t', key), l), step == Attempt(key) && answer, now, at);
  }

  lemma NotOlder(before: seq<int>, after: seq<int>, added: bool, now: int, at: int)
    requires after == before + (if added then [now] else []) && at <= now
    requires added || (before != [] && before[|before| - 1] >= at)
    ensures after != [] && after[|after| - 1] >= at
  {
  }

  /** Reports of one key are at least one window apart. */
  lemma EmissionsAreSpaced(l: Limits, states: seq<Tracked>, steps: seq<Step>, answers: seq<bool>, clocks: seq<int>, i: nat, j: nat)
    requires Run(l, states, steps, answers, clocks) && NoReportAtZero(answers, clocks)
    requires i < j < |steps| && steps[i].Attempt? && steps[j] == steps[i] && answers[i] && answers[j]
    ensures clocks[j + 1] - clocks[i + 1] >= l.window
  {
    LastReport(l, states, steps, answers, clocks, i, j);
    BoundedEqualsFullHistory(l, states, steps, answers, clocks, j);
  }

  /** The failing case is met: with threshold one, two attempts at time zero are both reported. */
  lemma SomeReportIsForgotten(l: Limits, key: Key) returns (states: seq<Tracked>, steps: seq<Step>, answers: seq<bool>, clocks: seq<int>)
    requires l.Active() && l.threshold == 1
    ensures Run(l, states, steps, answers, clocks) && |steps| == 2 && Forgets(l, states[1], steps[1], clocks[2])
  {
    var t0 := Tracked(map[], map[]);
    var (t1, first) := Apply(t0, Attempt(key), 0, l);
    var (t2, second) := Apply(t1, Attempt(key), 0, l);
    states, steps, answers, clocks := [t0, t1, t2], [Attempt(key), Attempt(key)], [first, second], [0, 0, 0];
    assert LogOf(t1, key) == [0];
    EmissionsPush([], 0, l);
    assert [] + [0] == [0];
    CountSplit([0], 0, 0 - l.window);
    CountSplit([0] + [0], 0, 0 - l.window);
  }

  // ------------------------------------------------------------------
  // In terms of the calls
  // ------------------------------------------------------------------

  /** When the key was tried in the first `n` calls. */
  function AttemptTimes(steps: seq<Step>, clocks: seq<int>, key: Key, n: nat): seq<int>
    requires n <= |steps| < |clocks|
  {
    if n == 0 then [] else AttemptTimes(steps, clocks, key, n - 1) + if steps[n - 1] == Attempt(key) then [clocks[n]] else []
  }

  /** When it was reported. */
  function ReportTimes(steps: seq<Step>, answers: seq<bool>, clocks: seq<int>, key: Key, n: nat): seq<int>
    requires n <= |steps| < |clocks| && |answers| == |steps|
  {
    if n == 0 then []
    else ReportTimes(steps, answers, clocks, key, n - 1) + if steps[n - 1] == Attempt(key) && answers[n - 1] then [clocks[n]] else []
  }

  lemma {:induction false} LogIsAttempts(l: Limits, states: seq<Tracked>, steps: seq<Step>, answers: seq<bool>, clocks: seq<int>, n: nat, key: Key)
    requires Run(l, states, steps, answers, clocks) && n < |states|
    ensures LogOf(states[n], key) == AttemptTimes(steps, clocks, key, n)
    decreases n
  {
    if n > 0 {
      LogIsAttempts(l, states, steps, answers, clocks, n - 1, key);
      StepOfRun(l, states, steps, answers, clocks, n - 1);
      OneStepOfLog(l, states[n - 1], steps[n - 1], states[n], answers[n - 1], clocks[n], key);
    }
  }

  lemma OneStepOfLog(l: Limits, t: Tracked, step: Step, t': Tracked, answer: bool, now: int, key: Key)
    requires l.Active() && RunStep(l, t, step, t', answer, now)
    ensures LogOf(t', key) == LogOf(t, key) + if step == Attempt(key) then [now] else []
  {
  }

  lemma {:induction false} EmissionsAreReports(l: Limits, states: seq<Tracked>, steps: seq<Step>, answers: seq<bool>, clocks: seq<int>, n: nat, key: Key)
    requires Run(l, states, steps, answers, clocks) && NoReportAtZero(answers, clocks) && n < |states|
    ensures Emissions(LogOf(states[n], key), l) == ReportTimes(steps, answers, clocks, key, n)
    decreases n
  {
    if n > 0 {
      EmissionsAreReports(l, states, steps, answers, clocks, n - 1, key);
      StepOfRun(l, states, steps, answers, clocks, n - 1);
      NeverDisagrees(l, states, steps, answers, clocks, n - 1);
      LogStep(l, states[n - 1], steps[n - 1], states[n], answers[n - 1], clocks[n], key);
    }
  }

  /**
   An attempt is reported exactly when, this one included, at least the threshold of attempts of its key fall into
   the window that ends now, and no attempt of the key was reported within it.
   */
  lemma ReportedExactly(l: Limits, states: seq<Tracked>, steps: seq<Step>, answers: seq<bool>, clocks: seq<int>, i: nat, key: Key)
    requires Run(l, states, steps, answers, clocks) && NoReportAtZero(answers, clocks) && i < |steps| && steps[i] == Attempt(key)
    ensures var reports := ReportTimes(steps, answers, clocks, key, i);
            answers[i] == (&& CountFrom(AttemptTimes(steps, clocks, key, i + 1), clocks[i + 1] - l.window) >= l.threshold
                           && (reports == [] || clocks[i + 1] - reports[|reports| - 1] >= l.window))
  {
    BoundedEqualsFullHistory(l, states, steps, answers, clocks, i);
    LogIsAttempts(l, states, steps, answers, clocks, i, key);
    EmissionsAreReports(l, states, steps, answers, clocks, i, key);
  }

  // ------------------------------------------------------------------
  // What a clean-up leaves
  // ------------------------------------------------------------------

  /** The record keeps the newest attempts, and no report is later than the last attempt. */
  ghost predicate Tidy(r: Record, log: seq<int>, clock: int, l: Limits) {
    && Ascending(log) && (forall i :: 0 <= i < |log| ==> log[i] <= clock)
    && KeepsNewest(r.attempts, log, clock - l.window, l.threshold)
    && (r.lastEmitAt == 0 || (log != [] && r.lastEmitAt <= log[|log| - 1]))
  }

  lemma TidyAfterAttempt(r: Record, log: seq<int>, before: int, now: int, l: Limits)
    requires l.Active() && Tidy(r, log, before, l) && before <= now
    ensures Tidy(Noted(r, now, l).0, log + [now], now, l)
  {
    EnoughAttempts(r.attempts, log, before, now, l);
    LogGrows(log, before, now);
  }

  lemma TidyAfterCleanUp(r: Record, log: seq<int>, before: int, now: int, l: Limits)
    requires l.Active() && Tidy(r, log, before, l) && before <= now
    ensures Tidy(if Cleaned(r, now, l).None? then FRESH else Cleaned(r, now, l).value, log, now, l) && Tidy(r, log, now, l)
  {
    CleanedRecord(r, now, l);
    PruneKeeps(r.attempts, log, before - l.window, now - l.window, l.threshold);
  }

  lemma TidyStep(l: Limits, t: Tracked, step: Step, t': Tracked, answer: bool, before: int, now: int, key: Key)
    requires l.Active() && RunStep(l, t, step, t', answer, now) && before <= now
    requires Tidy(RecordOf(t.records, key), LogOf(t, key), before, l)
    ensures Tidy(RecordOf(t'.records, key), LogOf(t', key), now, l)
  {
    var r := RecordOf(t.records, key);
    TidyAfterCleanUp(r, LogOf(t, key), before, now, l);
    if step == Attempt(key) {
      AttemptParts(l, t, key, t', answer, now);
      TidyAfterAttempt(r, LogOf(t, key), before, now, l);
    } else if step.Attempt? {
      AttemptParts(l, t, step.key, t', answer, now);
    } else {
      assert key !in t.records ==> Cleaned(r, now, l).None?;
    }
  }

  lemma {:induction false} StaysTidy(l: Limits, states: seq<Tracked>, steps: seq<Step>, answers: seq<bool>, clocks: seq<int>, n: nat, key: Key)
    requires Run(l, states, steps, answers, clocks) && n < |states|
    ensures Tidy(RecordOf(states[n].records, key), LogOf(states[n], key), clocks[n], l)
    decreases n
  {
    if n > 0 {
      StaysTidy(l, states, steps, answers, clocks, n - 1, key);
      StepOfRun(l, states, steps, answers, clocks, n - 1);
      TidyStep(l, states[n - 1], steps[n - 1], states[n], answers[n - 1], clocks[n - 1], clocks[n], key);
    }
  }

  /** A record with no attempt in the window has reported nothing in it, and one with an attempt there is kept. */
  lemma CleanedExactly(r: Record, log: seq<int>, before: int, now: int, l: Limits)
    requires l.Active() && Tidy(r, log, before, l) && before <= now
    ensures Cleaned(r, now, l).Some? <==> (log != [] && log[|log| - 1] >= now - l.window) || (r.lastEmitAt != 0 && r.lastEmitAt >= now - l.window)
    ensures r.lastEmitAt != 0 && r.lastEmitAt >= now - l.window ==> log != [] && log[|log| - 1] >= now - l.window
  {
    var kept := Pruned(r.attempts, now - l.window);
    PruneKeeps(r.attempts, log, before - l.window, now - l.window, l.threshold);
    if log != [] {
      var d := |log| - |kept|;
      assert kept != [] ==> log[d..][|kept| - 1] == log[|log| - 1];
    }
  }

  /** After a clean-up exactly the keys tried within the last window have a record. */
  lemma CleanUpLeavesTheRecent(l: Limits, states: seq<Tracked>, steps: seq<Step>, answers: seq<bool>, clocks: seq<int>, i: nat, key: Key)
    requires Run(l, states, steps, answers, clocks) && i < |steps| && steps[i].CleanUp?
    ensures var times := AttemptTimes(steps, clocks, key, i);
            key in states[i + 1].records <==> times != [] && clocks[i + 1] - times[|times| - 1] <= l.window
  {
    StaysTidy(l, states, steps, answers, clocks, i, key);
    LogIsAttempts(l, states, steps, answers, clocks, i, key);
    StepOfRun(l, states, steps, answers, clocks, i);
    var r, now := RecordOf(states[i].records, key), clocks[i + 1];
    CleanedExactly(r, LogOf(states[i], key), clocks[i], now, l);
    assert key !in states[i].records ==> Cleaned(r, now, l).None?;
  }
}
