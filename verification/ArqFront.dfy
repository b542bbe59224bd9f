/** Which of the due retransmissions go out as RESEND: a bounded selection of the oldest packets. */
module ArqFront {
  import opened Wire16
  import opened Sequences

  /** How far a job is behind the next number to send. */
  function Dist(sndNxt: Seq16, sn: Seq16): Seq16 {
    Sub16(sndNxt, sn)
  }

  /** A tenth of the window, between 1 and 64, and no more than there are jobs. */
  function FrontBudget(window: nat, jobs: nat): nat {
    var tenth := window / 10;
    var budget := if tenth < 1 then 1 else if tenth > 64 then 64 else tenth;
    if budget > jobs then jobs else budget
  }

  /** The budget spelt out: one below 20, 64 from 640 on, and a tenth of the window in between. */
  lemma BudgetExactly(window: nat, jobs: nat)
    ensures var share := if window < 20 then 1 else if window >= 640 then 64 else window / 10;
            FrontBudget(window, jobs) == if share < jobs then share else jobs
  {
  }

  ghost function Marked(kinds: seq<bool>): set<nat> {
    set i: nat | i < |kinds| && kinds[i]
  }

  /** `kinds` marks exactly `budget` jobs, none of them closer to `sndNxt` than an unmarked one. */
  ghost predicate MarksFront(sndNxt: Seq16, jobs: seq<Seq16>, budget: nat, kinds: seq<bool>) {
    && |kinds| == |jobs|
    && |Marked(kinds)| == budget
    && forall i, j :: 0 <= i < |jobs| && 0 <= j < |jobs| && kinds[i] && !kinds[j] ==>
         Dist(sndNxt, jobs[i]) >= Dist(sndNxt, jobs[j])
  }

  /** The jobs strictly further behind than job `i`. */
  ghost function Farther(sndNxt: Seq16, jobs: seq<Seq16>, i: nat): set<nat>
    requires i < |jobs|
  {
    set j: nat | j < |jobs| && Dist(sndNxt, jobs[j]) > Dist(sndNxt, jobs[i])
  }

  /** For distinct numbers the marking is determined, whatever the order of the jobs: it is decided by rank. */
  lemma RankDecides(sndNxt: Seq16, jobs: seq<Seq16>, budget: nat, kinds: seq<bool>, i: nat)
    requires MarksFront(sndNxt, jobs, budget, kinds) && i < |jobs|
    requires forall j, k :: 0 <= j < k < |jobs| ==> jobs[j] != jobs[k]
    ensures kinds[i] <==> |Farther(sndNxt, jobs, i)| < budget
  {
    var m, f := Marked(kinds), Farther(sndNxt, jobs, i);
    if kinds[i] {
      forall j | j in f
        ensures j in m - {i}
      {
      }
      SubsetSize(f, m - {i});
    } else {
      forall j | j in m
        ensures j in f
      {
        DistInjective(sndNxt, jobs[i], jobs[j]);
      }
      SubsetSize(m, f);
    }
  }

  lemma DistInjective(sndNxt: Seq16, a: Seq16, b: Seq16)
    ensures Dist(sndNxt, a) == Dist(sndNxt, b) ==> a == b
  {
  }

  // ------------------------------------------------------------------
  // The bounded insertion
  // ------------------------------------------------------------------

  ghost function Distances(sndNxt: Seq16, jobs: seq<Seq16>): seq<Seq16> {
    seq(|jobs|, i requires 0 <= i < |jobs| => Dist(sndNxt, jobs[i]))
  }

  ghost predicate Distinct(s: seq<nat>) {
    forall k, l :: 0 <= k < l < |s| ==> s[k] != s[l]
  }

  ghost predicate Descending(s: seq<Seq16>) {
    forall k, l :: 0 <= k < l < |s| ==> s[k] >= s[l]
  }

  /** `idx` lists distinct jobs below `seen`, furthest first, with their distances in `dist`. */
  ghost predicate Ranked(far: seq<Seq16>, seen: nat, idx: seq<nat>, dist: seq<Seq16>) {
    && seen <= |far| && |idx| == |dist| && Distinct(idx) && Descending(dist)
    && forall k :: 0 <= k < |idx| ==> idx[k] < seen && dist[k] == far[idx[k]]
  }

  /** Jobs below `seen` that are not listed are no further behind than any listed one. */
  ghost predicate Covers(far: seq<Seq16>, seen: nat, idx: seq<nat>, dist: seq<Seq16>) {
    forall j: nat, k :: j < seen <= |far| && j !in idx && 0 <= k < |dist| ==> dist[k] >= far[j]
  }

  ghost predicate Best(far: seq<Seq16>, seen: nat, budget: nat, idx: seq<nat>, dist: seq<Seq16>) {
    && Ranked(far, seen, idx, dist) && Covers(far, seen, idx, dist)
    && |idx| == (if seen < budget then seen else budget)
    && (seen <= budget ==> forall j: nat :: j < seen ==> j in idx)
  }

  function Cut<T>(s: seq<T>, limit: nat): seq<T> {
    if |s| > limit then s[..limit] else s
  }

  /** insertBest: shift the closer jobs down, insert, cut to the budget. */
  method InsertBest(jobs: seq<Seq16>, ghost far: seq<Seq16>, budget: nat, idx: seq<nat>, dist: seq<Seq16>, i: nat, d: Seq16)
    returns (idx': seq<nat>, dist': seq<Seq16>)
    requires 0 < budget && i < |jobs| == |far| && d == far[i]
    requires Best(far, i, budget, idx, dist)
    ensures Best(far, i + 1, budget, idx', dist')
  {
    var pos := |idx|;
    while pos > 0
      invariant 0 <= pos <= |idx|
      invariant forall k :: pos <= k < |dist| ==> dist[k] <= d
    {
      if dist[pos - 1] > d || (dist[pos - 1] == d && jobs[idx[pos - 1]] <= jobs[i]) {
        break;
      }
      pos := pos - 1;
    }
    idx', dist' := Cut(InsertAt(idx, pos, i), budget), Cut(InsertAt(dist, pos, d), budget);
    Inserted(far, budget, idx, dist, i, pos);
  }

  lemma InsertedDistinct(s: seq<nat>, pos: nat, x: nat)
    requires Distinct(s) && pos <= |s| && forall k :: 0 <= k < |s| ==> s[k] != x
    ensures Distinct(InsertAt(s, pos, x))
  {
  }

  lemma InsertedDescending(s: seq<Seq16>, pos: nat, d: Seq16)
    requires Descending(s) && pos <= |s|
    requires forall k :: pos <= k < |s| ==> s[k] <= d
    requires pos > 0 ==> s[pos - 1] >= d
    ensures Descending(InsertAt(s, pos, d))
  {
    assert forall k :: 0 <= k < pos ==> s[k] >= d;
  }

  lemma InsertedRanked(far: seq<Seq16>, idx: seq<nat>, dist: seq<Seq16>, i: nat, pos: nat)
    requires i < |far| && Ranked(far, i, idx, dist) && pos <= |idx|
    requires forall k :: pos <= k < |dist| ==> dist[k] <= far[i]
    requires pos > 0 ==> dist[pos - 1] >= far[i]
    ensures Ranked(far, i + 1, InsertAt(idx, pos, i), InsertAt(dist, pos, far[i]))
  {
    InsertedDistinct(idx, pos, i);
    InsertedDescending(dist, pos, far[i]);
  }

  lemma InsertKeepsMembers(s: seq<nat>, pos: nat, x: nat, j: nat)
    requires pos <= |s|
    ensures j in InsertAt(s, pos, x) <==> j in s || j == x
  {
    assert s == s[..pos] + s[pos..];
  }

  /** Cutting drops only from the near end. */
  lemma CutMember(s: seq<nat>, limit: nat, j: nat)
    requires j in s && |s| <= limit + 1
    ensures j in Cut(s, limit) || (|s| == limit + 1 && s[limit] == j)
  {
    var k :| 0 <= k < |s| && s[k] == j;
    if k < limit {
      assert Cut(s, limit)[k] == j;
    }
  }

  lemma CutRanked(far: seq<Seq16>, seen: nat, idx: seq<nat>, dist: seq<Seq16>, limit: nat)
    requires Ranked(far, seen, idx, dist)
    ensures Ranked(far, seen, Cut(idx, limit), Cut(dist, limit))
  {
  }

  lemma Inserted(far: seq<Seq16>, budget: nat, idx: seq<nat>, dist: seq<Seq16>, i: nat, pos: nat)
    requires 0 < budget && i < |far| && Best(far, i, budget, idx, dist) && pos <= |idx|
    requires forall k :: pos <= k < |dist| ==> dist[k] <= far[i]
    requires pos > 0 ==> dist[pos - 1] >= far[i]
    ensures Best(far, i + 1, budget, Cut(InsertAt(idx, pos, i), budget), Cut(InsertAt(dist, pos, far[i]), budget))
  {
    var idx1, dist1 := InsertAt(idx, pos, i), InsertAt(dist, pos, far[i]);
    InsertedRanked(far, idx, dist, i, pos);
    var idx', dist' := Cut(idx1, budget), Cut(dist1, budget);
    CutRanked(far, i + 1, idx1, dist1, budget);
    forall j: nat, k | j < i + 1 && j !in idx' && 0 <= k < |dist'|
      ensures dist'[k] >= far[j]
    {
      InsertKeepsMembers(idx, pos, i, j);
      if j in idx1 {
        CutMember(idx1, budget, j);
      } else {
        InsertedCovers(far, idx, dist, i, pos, j, k);
      }
    }
    if i + 1 <= budget {
      forall j: nat | j < i + 1
        ensures j in idx'
      {
        InsertKeepsMembers(idx, pos, i, j);
      }
    }
  }

  lemma InsertedCovers(far: seq<Seq16>, idx: seq<nat>, dist: seq<Seq16>, i: nat, pos: nat, j: nat, k: nat)
    requires i < |far| && |idx| == |dist| && pos <= |idx| && k < |dist| + 1
    requires Covers(far, i, idx, dist) && j < i && j !in idx && |dist| > 0 && k < |dist|
    requires forall l :: pos <= l < |dist| ==> dist[l] <= far[i]
    ensures InsertAt(dist, pos, far[i])[k] >= far[j]
  {
    assert dist[if k < pos then k else if k == pos then pos else k - 1] >= far[j];
  }

  /** retransmitPriorityKinds. */
  method PriorityKinds(window: nat, sndNxt: Seq16, jobs: seq<Seq16>) returns (kinds: seq<bool>)
    ensures MarksFront(sndNxt, jobs, FrontBudget(window, |jobs|), kinds)
  {
    if |jobs| == 0 {
      return [];
    }
    if |jobs| == 1 {
      kinds := [true];
      assert Marked(kinds) == {0};
      return;
    }
    var budget := FrontBudget(window, |jobs|);
    ghost var far := Distances(sndNxt, jobs);
    var idx: seq<nat>, dist: seq<Seq16> := [], [];
    for i := 0 to |jobs|
      invariant Best(far, i, budget, idx, dist)
    {
      var d := Dist(sndNxt, jobs[i]);
      if |idx| < budget {
        idx, dist := InsertBest(jobs, far, budget, idx, dist, i, d);
      } else {
        var last := |idx| - 1;
        if d > dist[last] || (d == dist[last] && jobs[i] < jobs[idx[last]]) {
          idx, dist := InsertBest(jobs, far, budget, idx, dist, i, d);
        }
      }
    }
    kinds := MarkAll(|jobs|, idx);
    BestMarksFront(sndNxt, jobs, budget, idx, dist, kinds);
  }

  /** The final loop: set a flag for every chosen index. */
  method MarkAll(n: nat, idx: seq<nat>) returns (kinds: seq<bool>)
    requires forall k :: 0 <= k < |idx| ==> idx[k] < n
    ensures |kinds| == n
    ensures forall j :: 0 <= j < n ==> (kinds[j] <==> j in idx)
  {
    kinds := seq(n, _ => false);
    for k := 0 to |idx|
      invariant |kinds| == n
      invariant forall j :: 0 <= j < n ==> (kinds[j] <==> j in idx[..k])
    {
      kinds := kinds[idx[k] := true];
    }
    assert idx[..|idx|] == idx;
  }

  lemma BestMarksFront(sndNxt: Seq16, jobs: seq<Seq16>, budget: nat, idx: seq<nat>, dist: seq<Seq16>, kinds: seq<bool>)
    requires Best(Distances(sndNxt, jobs), |jobs|, budget, idx, dist) && budget <= |jobs| == |kinds|
    requires forall j :: 0 <= j < |jobs| ==> (kinds[j] <==> j in idx)
    ensures MarksFront(sndNxt, jobs, budget, kinds)
  {
    var far := Distances(sndNxt, jobs);
    DistinctSize(idx);
    assert Marked(kinds) == set j: nat | j in idx;
    forall i, j | 0 <= i < |jobs| && 0 <= j < |jobs| && kinds[i] && !kinds[j]
      ensures far[i] >= far[j]
    {
      var k :| 0 <= k < |idx| && idx[k] == i;
      assert dist[k] >= far[j];
    }
  }

  lemma {:induction false} DistinctSize(s: seq<nat>)
    requires Distinct(s)
    ensures |set j: nat | j in s| == |s|
    decreases |s|
  {
    if s != [] {
      var n := |s| - 1;
      DistinctSize(s[..n]);
      assert (set j: nat | j in s) == (set j: nat | j in s[..n]) + {s[n]};
      assert s[n] !in s[..n];
    }
  }
}
