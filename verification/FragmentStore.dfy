/** Splitting a payload into fragments, and the store that puts fragments together again. */
module FragmentStore {
  import opened Octets
  import opened Pieces
  import opened Enums

  // ------------------------------------------------------------------
  // Splitting
  // ------------------------------------------------------------------

  /** fragmentPayload: a short payload, even an empty one, is a single fragment. */
  function Fragments(payload: Bytes, mtu: nat): seq<Bytes>
    requires mtu > 0
  {
    if |payload| <= mtu then [payload] else Cut(payload, mtu)
  }

  method FragmentPayload(payload: Bytes, mtu: nat) returns (fragments: seq<Bytes>)
    requires mtu > 0
    ensures fragments == Fragments(payload, mtu)
  {
    if |payload| <= mtu {
      return [payload];
    }
    fragments := [];
    var i: nat := 0;
    ghost var all := Cut(payload, mtu);
    assert payload[0..] == payload && all[0..] == all;
    while i < |payload|
      invariant i <= |payload| && |fragments| <= |all| && fragments == all[..|fragments|]
      invariant all[|fragments|..] == Cut(payload[i..], mtu)
      decreases |payload| - i
    {
      var end := if i + mtu > |payload| then |payload| else i + mtu;
      CutStep(payload, i, end, mtu, all, |fragments|);
      fragments := fragments + [payload[i..end]];
      i := end;
    }
    assert payload[i..] == [];
    assert |all[|fragments|..]| == 0;
  }

  /** The fragments join to the payload; none of several is empty. */
  lemma FragmentsJoin(payload: Bytes, mtu: nat)
    requires mtu > 0
    ensures Flatten(Fragments(payload, mtu)) == payload
    ensures |Fragments(payload, mtu)| >= 1
    ensures |Fragments(payload, mtu)| == 1 || forall i :: 0 <= i < |Fragments(payload, mtu)| ==> Fragments(payload, mtu)[i] != []
    ensures forall i :: 0 <= i < |Fragments(payload, mtu)| ==> |Fragments(payload, mtu)[i]| <= mtu
  {
    CutConcat(payload, mtu);
    FlattenOne(payload);
  }

  // ------------------------------------------------------------------
  // The store, as a value
  // ------------------------------------------------------------------

  /** `count` is an 8-bit counter; a chunk that was never filled, or filled with nothing, is absent. */
  datatype Entry = Entry(createdAt: int, total: Byte, chunks: map<nat, Bytes>, count: Byte)

  datatype State<!K(==)> = State(items: map<K, Entry>, completed: map<K, int>, lastPurge: Option<int>, conflicts: nat)

  datatype Outcome = Delivered(payload: Bytes) | Incomplete | AlreadyDone

  const PURGE_GAP := 1_000_000_000 // one second in nanoseconds

  predicate KeepsItem(e: Entry, now: int, retention: int) {
    e.createdAt > now - retention
  }

  /** purgeLocked. */
  function Purged<K(==)>(s: State<K>, now: int, retention: int): State<K> {
    if retention <= 0 then s.(items := map[], completed := map[])
    else
      s.(items := map k | k in s.items && KeepsItem(s.items[k], now, retention) :: s.items[k],
         completed := map k | k in s.completed && now < s.completed[k] :: s.completed[k])
  }

  function PurgedIfDue<K(==)>(s: State<K>, now: int, retention: int): State<K> {
    if s.lastPurge.None? || now - s.lastPurge.value >= PURGE_GAP
    then Purged(s, now, retention).(lastPurge := Some(now))
    else s
  }

  predicate IsDone<K(==)>(s: State<K>, key: K, now: int) {
    key in s.completed && now < s.completed[key]
  }

  function Filled(e: Entry, id: nat, payload: Bytes): Entry {
    e.(count := if id in e.chunks then e.count else (e.count + 1) % 256,
       chunks := if payload == [] && id !in e.chunks then e.chunks else e.chunks[id := payload])
  }

  predicate Complete(e: Entry, total: Byte) {
    e.count >= total && forall i :: 0 <= i < total ==> i in e.chunks
  }

  function Finished<K(==)>(s: State<K>, key: K, now: int, retention: int): State<K> {
    s.(items := s.items - {key},
       completed := if retention > 0 then s.completed[key := now + retention] else s.completed - {key})
  }

  /** The part of Collect behind the checks: fill the chunk, and assemble when all are there. */
  function Filling<K(==)>(s: State<K>, key: K, payload: Bytes, id: Byte, total: Byte, now: int, retention: int): (State<K>, Outcome) {
    var current := if key in s.items then s.items[key] else Entry(now, total, map[], 0);
    var filled := Filled(current, id, payload);
    if Complete(filled, total) then (Finished(s, key, now, retention), Delivered(Joined(filled.chunks, total)))
    else (s.(items := s.items[key := filled]), Incomplete)
  }

  function Collected<K(==)>(s: State<K>, key: K, payload: Bytes, id: Byte, total: Byte, now: int, retention: int): (State<K>, Outcome) {
    if total <= 1 then
      if retention <= 0 then (s, Delivered(payload))
      else
        var s1 := PurgedIfDue(s, now, retention);
        if IsDone(s1, key, now) then (s1, AlreadyDone) else (Finished(s1, key, now, retention), Delivered(payload))
    else if id >= total then (s, Incomplete)
    else
      var s1 := PurgedIfDue(s, now, retention);
      if IsDone(s1, key, now) then (s1, AlreadyDone)
      else if key in s1.items && s1.items[key].total != total then
        (s1.(items := s1.items - {key}, conflicts := s1.conflicts + 1), Incomplete)
      else Filling(s1, key, payload, id, total, now, retention)
  }

  // ------------------------------------------------------------------
  // The store, as an object
  // ------------------------------------------------------------------

  class Store<!K(==)> {
    var items: map<K, Entry>
    var completed: map<K, int>
    var lastPurge: Option<int>
    var conflicts: nat

    ghost function View(): State<K>
      reads this
    {
      State(items, completed, lastPurge, conflicts)
    }

    constructor ()
      ensures View() == State(map[], map[], None, 0)
    {
      items, completed, lastPurge, conflicts := map[], map[], None, 0;
    }

    method PurgeItems(now: int, retention: int)
      modifies this`items
      ensures items == map k | k in old(items) && KeepsItem(old(items)[k], now, retention) :: old(items)[k]
    {
      ghost var before := items;
      var left := items.Keys;
      while left != {}
        invariant left <= before.Keys
        invariant items == map k | k in before && (k in left || KeepsItem(before[k], now, retention)) :: before[k]
        decreases left
      {
        var key :| key in left;
        left := left - {key};
        if items[key].createdAt <= now - retention {
          items := items - {key};
        }
      }
    }

    method PurgeCompleted(now: int)
      modifies this`completed
      ensures completed == map k | k in old(completed) && now < old(completed)[k] :: old(completed)[k]
    {
      ghost var before := completed;
      var left := completed.Keys;
      while left != {}
        invariant left <= before.Keys
        invariant completed == map k | k in before && (k in left || now < before[k]) :: before[k]
        decreases left
      {
        var key :| key in left;
        left := left - {key};
        if now >= completed[key] {
          completed := completed - {key};
        }
      }
    }

    /** purgeLocked. */
    method Purge(now: int, retention: int)
      modifies this
      ensures View() == Purged(old(View()), now, retention)
    {
      if retention <= 0 {
        items, completed := map[], map[];
        return;
      }
      PurgeItems(now, retention);
      PurgeCompleted(now);
    }

    method PurgeIfDue(now: int, retention: int)
      modifies this
      ensures View() == PurgedIfDue(old(View()), now, retention)
    {
      if lastPurge.None? || now - lastPurge.value >= PURGE_GAP {
        Purge(now, retention);
        lastPurge := Some(now);
      }
    }

    method Remove(key: K)
      modifies this
      ensures View() == old(View()).(items := old(items) - {key}, completed := old(completed) - {key})
    {
      items := items - {key};
      completed := completed - {key};
    }

    method Finish(key: K, now: int, retention: int)
      modifies this`items, this`completed
      ensures View() == Finished(old(View()), key, now, retention)
    {
      items := items - {key};
      if retention > 0 {
        completed := completed[key := now + retention];
      } else {
        completed := completed - {key};
      }
    }

    method Collect(key: K, payload: Bytes, id: Byte, total: Byte, now: int, retention: int) returns (outcome: Outcome)
      modifies this
      ensures (View(), outcome) == Collected(old(View()), key, payload, id, total, now, retention)
    {
      if total <= 1 {
        if retention <= 0 {
          return Delivered(payload);
        }
        PurgeIfDue(now, retention);
        if key in completed && now < completed[key] {
          return AlreadyDone;
        }
        Finish(key, now, retention);
        return Delivered(payload);
      }
      if id >= total {
        return Incomplete;
      }
      PurgeIfDue(now, retention);
      if key in completed && now < completed[key] {
        return AlreadyDone;
      }
      if key in items && items[key].total != total {
        items := items - {key};
        conflicts := conflicts + 1;
        return Incomplete;
      }
      outcome := Fill(key, payload, id, total, now, retention);
    }

    method Fill(key: K, payload: Bytes, id: Byte, total: Byte, now: int, retention: int) returns (outcome: Outcome)
      modifies this`items, this`completed
      ensures (View(), outcome) == Filling(old(View()), key, payload, id, total, now, retention)
    {
      ghost var s := View();
      if key !in items {
        items := items[key := Entry(now, total, map[], 0)];
      }
      var entry := Filled(items[key], id, payload);
      items := items[key := entry];
      var assembled := Assemble(entry, total);
      assert items == s.items[key := entry];
      if assembled.None? {
        return Incomplete;
      }
      assert items - {key} == s.items - {key};
      Finish(key, now, retention);
      return Delivered(assembled.value);
    }

    /** The joining loop: nothing as long as a chunk is missing. */
    static method Assemble(entry: Entry, total: Byte) returns (assembled: Option<Bytes>)
      ensures assembled == if Complete(entry, total) then Some(Joined(entry.chunks, total)) else None
    {
      if entry.count < total {
        return None;
      }
      var joined: Bytes := [];
      for idx := 0 to total
        invariant forall i :: 0 <= i < idx ==> i in entry.chunks
        invariant joined == Joined(entry.chunks, idx)
      {
        if idx !in entry.chunks {
          return None;
        }
        joined := joined + entry.chunks[idx];
      }
      return Some(joined);
    }
  }

  // ------------------------------------------------------------------
  // Runs
  // ------------------------------------------------------------------

  datatype Step<!K> = Arrive(key: K, payload: Bytes, id: Byte, total: Byte) | PurgeAll | Forget(key: K)

  function Apply<K(==)>(s: State<K>, step: Step<K>, now: int, retention: int): (State<K>, Outcome) {
    match step
    case Arrive(key, payload, id, total) => Collected(s, key, payload, id, total, now, retention)
    case PurgeAll => (Purged(s, now, retention), Incomplete)
    case Forget(key) => (s.(items := s.items - {key}, completed := s.completed - {key}), Incomplete)
  }

  /** What may happen to a payload's key: one of its fragments arrives.  Anything may happen to other keys. */
  predicate Concerns<K(==)>(step: Step<K>, key: K, fragments: seq<Bytes>) {
    match step
    case Arrive(k, payload, id, total) => k == key ==> total == |fragments| && id < total && payload == fragments[id]
    case PurgeAll => true
    case Forget(k) => k != key
  }

  /** Nothing is known of the key, or only a completion that is over. */
  predicate Absent<K(==)>(s: State<K>, key: K, now: int) {
    key !in s.items && (key in s.completed ==> s.completed[key] <= now)
  }

  ghost predicate Run<K>(states: seq<State<K>>, steps: seq<Step<K>>, outcomes: seq<Outcome>, clocks: seq<int>,
                             retention: int, key: K, fragments: seq<Bytes>) {
    && |states| == |steps| + 1 && |clocks| == |states| && |outcomes| == |steps|
    && Absent(states[0], key, clocks[0])
    && forall i {:trigger steps[i]} :: 0 <= i < |steps| ==>
         clocks[i] <= clocks[i + 1]
         && RunStep(states[i], steps[i], states[i + 1], outcomes[i], clocks[i + 1], retention, key, fragments)
  }

  ghost predicate RunStep<K>(s: State<K>, step: Step<K>, s': State<K>, outcome: Outcome, now: int, retention: int, key: K, fragments: seq<Bytes>) {
    Concerns(step, key, fragments) && (s', outcome) == Apply(s, step, now, retention)
  }

  function Seen<K(==)>(seen: set<nat>, step: Step<K>, key: K): set<nat> {
    if step.Arrive? && step.key == key then seen + {step.id as nat} else seen
  }

  /** The fragments of the key that arrived in a number of steps. */
  function Arrived<K(==)>(steps: seq<Step<K>>, key: K): set<nat>
    decreases |steps|
  {
    if steps == [] then {} else Seen(Arrived(steps[..|steps| - 1], key), steps[|steps| - 1], key)
  }

  predicate All(seen: set<nat>, n: nat) {
    forall i :: 0 <= i < n ==> i in seen
  }

  /** A single fragment, or several that are not empty. */
  ghost predicate Whole(fragments: seq<Bytes>) {
    0 < |fragments| <= 255 && (|fragments| == 1 || forall i :: 0 <= i < |fragments| ==> fragments[i] != [])
  }

  ghost predicate EntryHolds(e: Entry, seen: set<nat>, fragments: seq<Bytes>, start: int) {
    && e.total == |fragments| && e.createdAt >= start && e.count == |seen|
    && e.chunks.Keys == seen && forall i :: i in seen ==> i < |fragments| && e.chunks[i] == fragments[i]
  }

  /** What the store knows of the key after `seen` arrived. */
  ghost predicate Holds<K>(s: State<K>, key: K, seen: set<nat>, fragments: seq<Bytes>, start: int, retention: int) {
    && (forall i :: i in seen ==> i < |fragments|)
    && if All(seen, |fragments|) then key !in s.items && key in s.completed && s.completed[key] >= start + retention
       else && (key in s.completed ==> s.completed[key] <= start)
            && (seen == {} ==> key !in s.items)
            && (seen != {} ==> key in s.items && EntryHolds(s.items[key], seen, fragments, start))
  }

  lemma PurgeKeeps<K>(s: State<K>, key: K, seen: set<nat>, fragments: seq<Bytes>, start: int, now: int, retention: int)
    requires Holds(s, key, seen, fragments, start, retention) && start <= now < start + retention
    ensures Holds(Purged(s, now, retention), key, seen, fragments, start, retention)
    ensures Holds(PurgedIfDue(s, now, retention), key, seen, fragments, start, retention)
  {
  }

  /** A fragment of the key arrives. */
  lemma ArrivalKeeps<K>(s: State<K>, key: K, id: Byte, seen: set<nat>, fragments: seq<Bytes>, start: int, now: int, retention: int)
    requires Whole(fragments) && id < |fragments|
    requires Holds(s, key, seen, fragments, start, retention) && start <= now < start + retention
    ensures var (s', outcome) := Collected(s, key, fragments[id], id, |fragments|, now, retention);
            && Holds(s', key, seen + {id as nat}, fragments, start, retention)
            && outcome == if All(seen, |fragments|) then AlreadyDone
                          else if All(seen + {id as nat}, |fragments|) then Delivered(Flatten(fragments)) else Incomplete
  {
    var n := |fragments|;
    var s1 := PurgedIfDue(s, now, retention);
    PurgeKeeps(s, key, seen, fragments, start, now, retention);
    if All(seen, n) {
      assert seen + {id as nat} == seen;
    } else if n == 1 {
      SingleKeeps(s, key, id, seen, fragments, start, now, retention);
    } else {
      FillingKeeps(s1, key, id, seen, fragments, start, now, retention);
    }
  }

  lemma SingleKeeps<K>(s: State<K>, key: K, id: Byte, seen: set<nat>, fragments: seq<Bytes>, start: int, now: int, retention: int)
    requires |fragments| == 1 && id == 0 && !All(seen, 1)
    requires Holds(s, key, seen, fragments, start, retention) && start <= now < start + retention
    ensures var (s', outcome) := Collected(s, key, fragments[0], id, 1, now, retention);
            Holds(s', key, seen + {0}, fragments, start, retention) && outcome == Delivered(Flatten(fragments))
  {
    PurgeKeeps(s, key, seen, fragments, start, now, retention);
    assert fragments == [fragments[0]];
    FlattenOne(fragments[0]);
  }

  lemma FillingKeeps<K>(s: State<K>, key: K, id: Byte, seen: set<nat>, fragments: seq<Bytes>, start: int, now: int, retention: int)
    requires 1 < |fragments| <= 255 && id < |fragments| && forall i :: 0 <= i < |fragments| ==> fragments[i] != []
    requires Holds(s, key, seen, fragments, start, retention) && start <= now < start + retention && !All(seen, |fragments|)
    ensures var (s', outcome) := Filling(s, key, fragments[id], id, |fragments|, now, retention);
            && Holds(s', key, seen + {id as nat}, fragments, start, retention)
            && outcome == if All(seen + {id as nat}, |fragments|) then Delivered(Flatten(fragments)) else Incomplete
  {
    var n := |fragments|;
    var current := if key in s.items then s.items[key] else Entry(now, n, map[], 0);
    CurrentHolds(s, key, seen, fragments, start, now, retention);
    FilledHolds(current, id, seen, fragments, start);
    FilledCompletes(Filled(current, id, fragments[id]), seen + {id as nat}, fragments, start);
    assert id as nat in seen + {id as nat};
  }

  lemma CurrentHolds<K>(s: State<K>, key: K, seen: set<nat>, fragments: seq<Bytes>, start: int, now: int, retention: int)
    requires |fragments| <= 255 && Holds(s, key, seen, fragments, start, retention) && start <= now && !All(seen, |fragments|)
    ensures EntryHolds(if key in s.items then s.items[key] else Entry(now, |fragments|, map[], 0), seen, fragments, start)
  {
  }

  lemma FilledCompletes(e: Entry, seen: set<nat>, fragments: seq<Bytes>, start: int)
    requires |fragments| <= 255 && EntryHolds(e, seen, fragments, start)
    ensures Complete(e, |fragments|) <==> All(seen, |fragments|)
    ensures All(seen, |fragments|) ==> Joined(e.chunks, |fragments|) == Flatten(fragments)
  {
    var n := |fragments|;
    if All(seen, n) {
      RangeSize(seen, n);
      JoinedParts(e.chunks, fragments, n);
      assert fragments[..n] == fragments;
    }
  }

  /** One more chunk; the 8-bit counter does not overflow, as some chunk was still missing. */
  lemma FilledHolds(e: Entry, id: Byte, seen: set<nat>, fragments: seq<Bytes>, start: int)
    requires |fragments| <= 255 && id < |fragments| && fragments[id] != []
    requires EntryHolds(e, seen, fragments, start)
    ensures EntryHolds(Filled(e, id, fragments[id]), seen + {id as nat}, fragments, start)
  {
    BoundedSize(seen, |fragments|);
    if id as nat in seen {
      assert seen + {id as nat} == seen;
    } else {
      BoundedSize(seen + {id as nat}, |fragments|);
    }
  }

  lemma {:induction false} BoundedSize(s: set<nat>, n: nat)
    requires forall i :: i in s ==> i < n
    ensures |s| <= n
    decreases n
  {
    if n > 0 {
      BoundedSize(s - {n - 1}, n - 1);
      if n - 1 in s {
        assert |s| == |s - {n - 1}| + 1;
      } else {
        assert s - {n - 1} == s;
      }
    } else {
      assert s == {};
    }
  }

  /** A step for another key, or a purge. */
  lemma OtherStepKeeps<K>(s: State<K>, step: Step<K>, key: K, seen: set<nat>, fragments: seq<Bytes>, start: int, now: int, retention: int)
    requires Concerns(step, key, fragments) && (step.Arrive? ==> step.key != key)
    requires Holds(s, key, seen, fragments, start, retention) && start <= now < start + retention
    ensures Holds(Apply(s, step, now, retention).0, key, seen, fragments, start, retention)
  {
    PurgeKeeps(s, key, seen, fragments, start, now, retention);
  }

  /** The answer to a fragment of the key, by what had arrived before and what has arrived now. */
  function Answer(before: set<nat>, after: set<nat>, n: nat, payload: Bytes): Outcome {
    if All(before, n) then AlreadyDone else if All(after, n) then Delivered(payload) else Incomplete
  }

  lemma StepKeeps<K>(s: State<K>, step: Step<K>, s': State<K>, outcome: Outcome, now: int, retention: int,
                     key: K, fragments: seq<Bytes>, seen: set<nat>, start: int)
    requires Whole(fragments) && RunStep(s, step, s', outcome, now, retention, key, fragments)
    requires Holds(s, key, seen, fragments, start, retention) && start <= now < start + retention
    ensures Holds(s', key, Seen(seen, step, key), fragments, start, retention)
    ensures step.Arrive? && step.key == key ==> outcome == Answer(seen, Seen(seen, step, key), |fragments|, Flatten(fragments))
  {
    if step.Arrive? && step.key == key {
      ArrivalKeeps(s, key, step.id, seen, fragments, start, now, retention);
    } else {
      OtherStepKeeps(s, step, key, seen, fragments, start, now, retention);
    }
  }

  lemma StepOfRun<K>(states: seq<State<K>>, steps: seq<Step<K>>, outcomes: seq<Outcome>, clocks: seq<int>,
                     retention: int, key: K, fragments: seq<Bytes>, i: nat)
    requires Run(states, steps, outcomes, clocks, retention, key, fragments) && i < |steps|
    ensures clocks[i] <= clocks[i + 1]
    ensures RunStep(states[i], steps[i], states[i + 1], outcomes[i], clocks[i + 1], retention, key, fragments)
  {
  }

  lemma {:induction false} Reachable<K>(states: seq<State<K>>, steps: seq<Step<K>>, outcomes: seq<Outcome>, clocks: seq<int>,
                                        retention: int, key: K, fragments: seq<Bytes>, i: nat)
    requires Run(states, steps, outcomes, clocks, retention, key, fragments) && Whole(fragments)
    requires i < |states| && clocks[i] < clocks[0] + retention
    ensures clocks[0] <= clocks[i] && Holds(states[i], key, Arrived(steps[..i], key), fragments, clocks[0], retention)
    decreases i
  {
    if i == 0 {
      assert steps[..0] == [];
      assert 0 !in Arrived(steps[..0], key);
    } else {
      StepOfRun(states, steps, outcomes, clocks, retention, key, fragments, i - 1);
      Reachable(states, steps, outcomes, clocks, retention, key, fragments, i - 1);
      StepAt(states, steps, outcomes, clocks, retention, key, fragments, i - 1);
      assert steps[..i][..i - 1] == steps[..i - 1];
    }
  }

  lemma StepAt<K>(states: seq<State<K>>, steps: seq<Step<K>>, outcomes: seq<Outcome>, clocks: seq<int>,
                  retention: int, key: K, fragments: seq<Bytes>, i: nat)
    requires Run(states, steps, outcomes, clocks, retention, key, fragments) && Whole(fragments)
    requires i < |steps| && clocks[i + 1] < clocks[0] + retention
    requires clocks[0] <= clocks[i] && Holds(states[i], key, Arrived(steps[..i], key), fragments, clocks[0], retention)
    ensures clocks[0] <= clocks[i + 1]
    ensures Holds(states[i + 1], key, Seen(Arrived(steps[..i], key), steps[i], key), fragments, clocks[0], retention)
    ensures steps[i].Arrive? && steps[i].key == key ==>
              outcomes[i] == Answer(Arrived(steps[..i], key), Seen(Arrived(steps[..i], key), steps[i], key), |fragments|, Flatten(fragments))
  {
    StepKeeps(states[i], steps[i], states[i + 1], outcomes[i], clocks[i + 1], retention, key, fragments,
              Arrived(steps[..i], key), clocks[0]);
  }

  /** The call answers a fragment of the key, within retention of the start of the run. */
  lemma AnsweredInTime<K>(states: seq<State<K>>, steps: seq<Step<K>>, outcomes: seq<Outcome>, clocks: seq<int>,
                          retention: int, key: K, fragments: seq<Bytes>, i: nat)
    requires Run(states, steps, outcomes, clocks, retention, key, fragments) && Whole(fragments)
    requires i < |steps| && steps[i].Arrive? && steps[i].key == key && clocks[i + 1] < clocks[0] + retention
    ensures var before := Arrived(steps[..i], key);
            outcomes[i] == Answer(before, before + {steps[i].id as nat}, |fragments|, Flatten(fragments))
  {
    StepOfRun(states, steps, outcomes, clocks, retention, key, fragments, i);
    Reachable(states, steps, outcomes, clocks, retention, key, fragments, i);
    StepAt(states, steps, outcomes, clocks, retention, key, fragments, i);
  }

  /**
   Reassembly.  Fragments of a payload arrive in any order and number, among purges and fragments of
   other keys: within retention the payload is delivered at the call that supplies the last missing
   fragment, and the fragments behind it are answered with "completed".
   */
  lemma DeliveredExactlyOnce<K>(states: seq<State<K>>, steps: seq<Step<K>>, outcomes: seq<Outcome>, clocks: seq<int>,
                                retention: int, key: K, payload: Bytes, mtu: nat, i: nat)
    requires mtu > 0 && |Fragments(payload, mtu)| <= 255
    requires Run(states, steps, outcomes, clocks, retention, key, Fragments(payload, mtu))
    requires i < |steps| && steps[i].Arrive? && steps[i].key == key && clocks[i + 1] < clocks[0] + retention
    ensures var before := Arrived(steps[..i], key);
            outcomes[i] == if All(before, |Fragments(payload, mtu)|) then AlreadyDone
                           else if All(before + {steps[i].id as nat}, |Fragments(payload, mtu)|) then Delivered(payload)
                           else Incomplete
  {
    FragmentsJoin(payload, mtu);
    AnsweredInTime(states, steps, outcomes, clocks, retention, key, Fragments(payload, mtu), i);
  }

  // ------------------------------------------------------------------
  // After a delivery
  // ------------------------------------------------------------------

  /** Call `i` is about a fragment of the key. */
  predicate Asks<K(==)>(steps: seq<Step<K>>, key: K, i: nat)
    requires i < |steps|
  {
    steps[i].Arrive? && steps[i].key == key
  }

  predicate Delivers<K(==)>(steps: seq<Step<K>>, outcomes: seq<Outcome>, key: K, i: nat)
    requires i < |steps| == |outcomes|
  {
    Asks(steps, key, i) && outcomes[i].Delivered?
  }

  /** The completion of the key ends at `until`. */
  predicate DoneUntil<K(==)>(s: State<K>, key: K, until: int, now: int) {
    (now < until ==> key in s.completed) && (key in s.completed ==> s.completed[key] == until)
  }

  lemma DeliveryCompletes<K>(s: State<K>, step: Step<K>, s': State<K>, outcome: Outcome, now: int, retention: int, key: K, fragments: seq<Bytes>)
    requires RunStep(s, step, s', outcome, now, retention, key, fragments) && retention > 0
    requires step.Arrive? && step.key == key && outcome.Delivered?
    ensures DoneUntil(s', key, now + retention, now)
  {
  }

  lemma CompletionStays<K>(s: State<K>, step: Step<K>, s': State<K>, outcome: Outcome, before: int, now: int, retention: int,
                           key: K, fragments: seq<Bytes>, until: int)
    requires RunStep(s, step, s', outcome, now, retention, key, fragments) && retention > 0
    requires DoneUntil(s, key, until, before) && before <= now
    ensures step.Arrive? && step.key == key ==> (outcome == AlreadyDone <==> now < until)
    ensures !(step.Arrive? && step.key == key && outcome.Delivered?) ==> DoneUntil(s', key, until, now)
  {
  }

  lemma {:induction false} StaysDone<K>(states: seq<State<K>>, steps: seq<Step<K>>, outcomes: seq<Outcome>, clocks: seq<int>,
                                        retention: int, key: K, fragments: seq<Bytes>, i: nat, j: nat)
    requires Run(states, steps, outcomes, clocks, retention, key, fragments) && retention > 0
    requires i < j < |states| && Delivers(steps, outcomes, key, i)
    requires forall m :: i < m < j ==> !Delivers(steps, outcomes, key, m)
    ensures DoneUntil(states[j], key, clocks[i + 1] + retention, clocks[j])
    decreases j
  {
    var step := steps[j - 1];
    if j == i + 1 {
      DeliveryCompletes(states[i], step, states[j], outcomes[i], clocks[j], retention, key, fragments);
    } else {
      StaysDone(states, steps, outcomes, clocks, retention, key, fragments, i, j - 1);
      assert !Delivers(steps, outcomes, key, j - 1);
      CompletionStays(states[j - 1], step, states[j], outcomes[j - 1], clocks[j - 1], clocks[j], retention, key, fragments,
                      clocks[i + 1] + retention);
    }
  }

  /** From one delivery to the next, a fragment is answered with "completed" exactly until retention is over. */
  lemma CompletedUntilExpiry<K>(states: seq<State<K>>, steps: seq<Step<K>>, outcomes: seq<Outcome>, clocks: seq<int>,
                                retention: int, key: K, fragments: seq<Bytes>, i: nat, j: nat)
    requires Run(states, steps, outcomes, clocks, retention, key, fragments) && retention > 0
    requires i < j < |steps| && Delivers(steps, outcomes, key, i) && Asks(steps, key, j)
    requires forall m :: i < m < j ==> !Delivers(steps, outcomes, key, m)
    ensures outcomes[j] == AlreadyDone <==> clocks[j + 1] < clocks[i + 1] + retention
  {
    StaysDone(states, steps, outcomes, clocks, retention, key, fragments, i, j);
    CompletionStays(states[j], steps[j], states[j + 1], outcomes[j], clocks[j], clocks[j + 1], retention, key, fragments,
                    clocks[i + 1] + retention);
  }

  lemma {:induction false} NoneBetween<K>(states: seq<State<K>>, steps: seq<Step<K>>, outcomes: seq<Outcome>, clocks: seq<int>,
                                          retention: int, key: K, fragments: seq<Bytes>, i: nat, j: nat)
    requires Run(states, steps, outcomes, clocks, retention, key, fragments) && retention > 0
    requires i < j < |states| && Delivers(steps, outcomes, key, i) && clocks[j] < clocks[i + 1] + retention
    ensures forall m :: i < m < j ==> !Delivers(steps, outcomes, key, m)
    decreases j
  {
    if j > i + 1 {
      StepOfRun(states, steps, outcomes, clocks, retention, key, fragments, j - 1);
      NoneBetween(states, steps, outcomes, clocks, retention, key, fragments, i, j - 1);
      if Asks(steps, key, j - 1) {
        CompletedUntilExpiry(states, steps, outcomes, clocks, retention, key, fragments, i, j - 1);
      }
    }
  }

  /** Once delivered, a payload is not delivered again before the retention of that delivery is over. */
  lemma NothingIsDeliveredTwice<K>(states: seq<State<K>>, steps: seq<Step<K>>, outcomes: seq<Outcome>, clocks: seq<int>,
                                   retention: int, key: K, fragments: seq<Bytes>, i: nat, j: nat)
    requires Run(states, steps, outcomes, clocks, retention, key, fragments) && retention > 0
    requires i < j < |steps| && Delivers(steps, outcomes, key, i) && Asks(steps, key, j)
    requires clocks[j + 1] < clocks[i + 1] + retention
    ensures outcomes[j] == AlreadyDone
  {
    StepOfRun(states, steps, outcomes, clocks, retention, key, fragments, j);
    NoneBetween(states, steps, outcomes, clocks, retention, key, fragments, i, j);
    CompletedUntilExpiry(states, steps, outcomes, clocks, retention, key, fragments, i, j);
  }

  // ------------------------------------------------------------------
  // Empty fragments
  // ------------------------------------------------------------------

  /** However often an empty fragment arrives and is counted, its chunk stays absent. */
  lemma HoleStays<K>(s: State<K>, step: Step<K>, s': State<K>, outcome: Outcome, now: int, retention: int, key: K, fragments: seq<Bytes>, hole: nat)
    requires RunStep(s, step, s', outcome, now, retention, key, fragments)
    requires 2 <= |fragments| <= 255 && hole < |fragments| && fragments[hole] == []
    requires key in s.items ==> hole !in s.items[key].chunks
    ensures key in s'.items ==> hole !in s'.items[key].chunks
    ensures step.Arrive? && step.key == key ==> !outcome.Delivered?
  {
    if step.Arrive? && step.key == key {
      HoleUnfilled(PurgedIfDue(s, now, retention), key, step.payload, step.id, |fragments|, now, retention, hole);
    }
  }

  lemma HoleUnfilled<K>(s: State<K>, key: K, payload: Bytes, id: Byte, total: Byte, now: int, retention: int, hole: nat)
    requires 2 <= total && id < total && hole < total && (id == hole ==> payload == [])
    requires key in s.items ==> hole !in s.items[key].chunks
    ensures var (s', outcome) := Filling(s, key, payload, id, total, now, retention);
            outcome == Incomplete && key in s'.items && hole !in s'.items[key].chunks
  {
    var current := if key in s.items then s.items[key] else Entry(now, total, map[], 0);
    assert hole !in Filled(current, id, payload).chunks;
  }

  lemma {:induction false} HoleRemains<K>(states: seq<State<K>>, steps: seq<Step<K>>, outcomes: seq<Outcome>, clocks: seq<int>,
                                          retention: int, key: K, fragments: seq<Bytes>, hole: nat, i: nat)
    requires Run(states, steps, outcomes, clocks, retention, key, fragments) && i < |states|
    requires 2 <= |fragments| <= 255 && hole < |fragments| && fragments[hole] == []
    ensures key in states[i].items ==> hole !in states[i].items[key].chunks
    ensures forall m :: 0 <= m < i ==> !Delivers(steps, outcomes, key, m)
    decreases i
  {
    if i > 0 {
      HoleRemains(states, steps, outcomes, clocks, retention, key, fragments, hole, i - 1);
      HoleStays(states[i - 1], steps[i - 1], states[i], outcomes[i - 1], clocks[i], retention, key, fragments, hole);
    }
  }

  /** The call at which the last missing fragment comes. */
  lemma {:induction false} SomeCallCompletes<K>(steps: seq<Step<K>>, key: K, n: nat, j: nat) returns (i: nat)
    requires n > 0 && j <= |steps| && All(Arrived(steps[..j], key), n)
    ensures i < j && Asks(steps, key, i)
    ensures !All(Arrived(steps[..i], key), n) && All(Arrived(steps[..i], key) + {steps[i].id as nat}, n)
    decreases j
  {
    if j == 0 {
      assert steps[..0] == [] && 0 !in Arrived(steps[..0], key);
    } else {
      assert steps[..j][..j - 1] == steps[..j - 1];
      if All(Arrived(steps[..j - 1], key), n) {
        i := SomeCallCompletes(steps, key, n, j - 1);
      } else {
        i := j - 1;
      }
    }
  }

  /** Several fragments that all arrive within retention are put together if and only if none is empty. */
  lemma DeliveredIffNoneEmpty<K>(states: seq<State<K>>, steps: seq<Step<K>>, outcomes: seq<Outcome>, clocks: seq<int>,
                                 retention: int, key: K, fragments: seq<Bytes>)
    requires Run(states, steps, outcomes, clocks, retention, key, fragments) && 2 <= |fragments| <= 255
    requires All(Arrived(steps, key), |fragments|) && clocks[|steps|] < clocks[0] + retention
    ensures (exists i :: 0 <= i < |steps| && Delivers(steps, outcomes, key, i)) <==> forall k :: 0 <= k < |fragments| ==> fragments[k] != []
  {
    if k :| 0 <= k < |fragments| && fragments[k] == [] {
      HoleRemains(states, steps, outcomes, clocks, retention, key, fragments, k, |steps|);
    } else {
      assert steps[..|steps|] == steps;
      var i := SomeCallCompletes(steps, key, |fragments|, |steps|);
      ClocksRise(states, steps, outcomes, clocks, retention, key, fragments, i + 1, |steps|);
      AnsweredInTime(states, steps, outcomes, clocks, retention, key, fragments, i);
      assert Delivers(steps, outcomes, key, i);
    }
  }

  lemma {:induction false} ClocksRise<K>(states: seq<State<K>>, steps: seq<Step<K>>, outcomes: seq<Outcome>, clocks: seq<int>,
                                         retention: int, key: K, fragments: seq<Bytes>, i: nat, j: nat)
    requires Run(states, steps, outcomes, clocks, retention, key, fragments) && i <= j < |clocks|
    ensures clocks[i] <= clocks[j]
    decreases j
  {
    if i < j {
      ClocksRise(states, steps, outcomes, clocks, retention, key, fragments, i, j - 1);
      StepOfRun(states, steps, outcomes, clocks, retention, key, fragments, j - 1);
    }
  }

  // ------------------------------------------------------------------
  // Housekeeping
  // ------------------------------------------------------------------

  /** A purge leaves exactly what is younger than retention and the completions that are not over. */
  lemma PurgedExactly<K>(s: State<K>, now: int, retention: int, key: K)
    ensures var s' := Purged(s, now, retention);
            && (key in s'.items <==> key in s.items && retention > 0 && now - s.items[key].createdAt < retention)
            && (key in s'.items ==> s'.items[key] == s.items[key])
            && (key in s'.completed <==> key in s.completed && retention > 0 && now < s.completed[key])
            && (key in s'.completed ==> s'.completed[key] == s.completed[key])
            && s'.conflicts == s.conflicts
  {
  }

  /** A number that is not one of several fragments is ignored, and nothing changes. */
  lemma ForeignNumberIsIgnored<K>(s: State<K>, key: K, payload: Bytes, id: Byte, total: Byte, now: int, retention: int)
    requires 1 < total <= id
    ensures Collected(s, key, payload, id, total, now, retention) == (s, Incomplete)
  {
  }

  /** What is alive at a call: not old enough for a purge that is due. */
  predicate Alive<K(==)>(s: State<K>, key: K, now: int, retention: int) {
    key in s.items && (s.lastPurge.None? || now - s.lastPurge.value >= 1_000_000_000 ==> retention > 0 && now - s.items[key].createdAt < retention)
  }

  /** A fragment that names another total ends the assembly it contradicts and is counted; no other call counts one. */
  lemma ConflictsAreCounted<K>(s: State<K>, key: K, payload: Bytes, id: Byte, total: Byte, now: int, retention: int)
    ensures var (s', outcome), clash := Collected(s, key, payload, id, total, now, retention),
                id < total && total > 1 && !(key in s.completed && now < s.completed[key] && (retention > 0 || !Due(s, now)))
                && Alive(s, key, now, retention) && s.items[key].total != total;
            && s'.conflicts == s.conflicts + (if clash then 1 else 0)
            && (clash ==> key !in s'.items && outcome == Incomplete)
  {
    PurgedExactly(s, now, retention, key);
  }

  predicate Due<K(==)>(s: State<K>, now: int) {
    s.lastPurge.None? || now - s.lastPurge.value >= 1_000_000_000
  }

  /** A call about one key leaves the assemblies of the others alone, except for those that are too old. */
  lemma OthersStay<K>(s: State<K>, key: K, payload: Bytes, id: Byte, total: Byte, now: int, retention: int, other: K)
    requires other != key
    ensures var s' := Collected(s, key, payload, id, total, now, retention).0;
            && (other in s'.items ==> other in s.items && s'.items[other] == s.items[other])
            && (Alive(s, other, now, retention) ==> other in s'.items)
  {
    PurgedExactly(s, now, retention, other);
  }

  /** Since the last purge nothing is older than retention was then. */
  ghost predicate FreshSincePurge<K>(s: State<K>, retention: int) {
    if s.lastPurge.None? then s.items == map[] && s.completed == map[]
    else
      && (forall k :: k in s.items ==> s.lastPurge.value - s.items[k].createdAt < retention)
      && (forall k :: k in s.completed ==> s.lastPurge.value < s.completed[k])
  }

  ghost predicate NotBefore<K>(s: State<K>, now: int) {
    s.lastPurge.Some? ==> s.lastPurge.value <= now
  }

  /** The store from its creation on, under calls about any keys. */
  ghost predicate StoreRun<K>(states: seq<State<K>>, steps: seq<Step<K>>, clocks: seq<int>, retention: int) {
    && |states| == |steps| + 1 && |clocks| == |states| && states[0] == State(map[], map[], None, 0)
    && forall i {:trigger steps[i]} :: 0 <= i < |steps| ==>
         clocks[i] <= clocks[i + 1] && states[i + 1] == Apply(states[i], steps[i], clocks[i + 1], retention).0
  }

  lemma StepStaysFresh<K>(s: State<K>, step: Step<K>, now: int, retention: int)
    requires retention > 0 && FreshSincePurge(s, retention) && NotBefore(s, now)
    ensures var s' := Apply(s, step, now, retention).0; FreshSincePurge(s', retention) && NotBefore(s', now)
    ensures step.Arrive? && (step.total <= 1 || step.id < step.total) ==>
              var s' := Apply(s, step, now, retention).0; s'.lastPurge.Some? && now - s'.lastPurge.value < 1_000_000_000
  {
    if step.Arrive? {
      PurgeRefreshes(s, now, retention);
    }
  }

  lemma PurgeRefreshes<K>(s: State<K>, now: int, retention: int)
    requires retention > 0 && FreshSincePurge(s, retention) && NotBefore(s, now)
    ensures var s' := PurgedIfDue(s, now, retention);
            && FreshSincePurge(s', retention) && s'.lastPurge.Some? && s'.lastPurge.value <= now
            && now - s'.lastPurge.value < 1_000_000_000
  {
  }

  /** At any point of a run, the store is fresh since its last purge. */
  lemma {:induction false} StaysFresh<K>(states: seq<State<K>>, steps: seq<Step<K>>, clocks: seq<int>, retention: int, i: nat)
    requires StoreRun(states, steps, clocks, retention) && retention > 0 && i < |states|
    ensures FreshSincePurge(states[i], retention) && NotBefore(states[i], clocks[i])
    decreases i
  {
    if i > 0 {
      var step := steps[i - 1];
      StaysFresh(states, steps, clocks, retention, i - 1);
      StepStaysFresh(states[i - 1], step, clocks[i], retention);
    }
  }

  /**
   Nothing is kept for long: behind every fragment that is taken in, no assembly is older than retention and one second,
   and no completion is over for more than one second.
   */
  lemma StaleIsForgotten<K>(states: seq<State<K>>, steps: seq<Step<K>>, clocks: seq<int>, retention: int, i: nat)
    requires StoreRun(states, steps, clocks, retention) && retention > 0
    requires i < |steps| && steps[i].Arrive? && (steps[i].total <= 1 || steps[i].id < steps[i].total)
    ensures var s, now := states[i + 1], clocks[i + 1];
            && (forall k :: k in s.items ==> now - s.items[k].createdAt < retention + 1_000_000_000)
            && (forall k :: k in s.completed ==> now - s.completed[k] < 1_000_000_000)
  {
    var step := steps[i];
    StaysFresh(states, steps, clocks, retention, i);
    StepStaysFresh(states[i], step, clocks[i + 1], retention);
  }
}
