/** The receiver's search for gaps, and the pacing of the NACKs it sends for them. */
module ArqNack {
  import opened Wire16
  import opened Enums

  // ------------------------------------------------------------------
  // The gap scan
  // ------------------------------------------------------------------

  /** The numbers among the first `k` from `rcvNxt` on that are not buffered, lowest first. */
  function Missing(rcvNxt: Seq16, buffered: set<Seq16>, k: nat): seq<Seq16> {
    if k == 0 then []
    else Missing(rcvNxt, buffered, k - 1) + if Wire(rcvNxt + k - 1) in buffered then [] else [Wire(rcvNxt + k - 1)]
  }

  function Prefix<T>(s: seq<T>, limit: nat): seq<T> {
    if |s| <= limit then s else s[..limit]
  }

  /** About 5% of the configured gap, at least one. */
  function SampleCount(maxGap: nat): nat {
    var n := (maxGap + 19) / 20;
    if n < 1 then 1 else n
  }

  /** The configured gap as the scan sees it: cut to 16 bits, where zero reaches once around. */
  function Reach(maxGap: nat): nat {
    if maxGap % 65536 == 0 then 65536 else maxGap % 65536
  }

  predicate Scans(rcvNxt: Seq16, sn: Seq16, maxGap: nat) {
    maxGap > 0 && 0 < Sub16(sn, rcvNxt) < 32768
  }

  /** What the scan lists: every gap when the newest number is near, else the lowest ones and the highest near one. */
  function Candidates(rcvNxt: Seq16, buffered: set<Seq16>, sn: Seq16, maxGap: nat): seq<Seq16> {
    var diff := Sub16(sn, rcvNxt);
    if !Scans(rcvNxt, sn, maxGap) then []
    else if diff <= maxGap % 65536 then Missing(rcvNxt, buffered, diff)
    else
      var low := Prefix(Missing(rcvNxt, buffered, diff), SampleCount(maxGap));
      var near := Missing(rcvNxt, buffered, Reach(maxGap));
      low + if near == [] || near[|near| - 1] in low then [] else [near[|near| - 1]]
  }

  lemma WireOffset(rcvNxt: Seq16, sn: Seq16)
    ensures Wire(rcvNxt + Sub16(sn, rcvNxt)) == sn
    ensures Sub16(sn, rcvNxt) == 0 <==> sn == rcvNxt
  {
  }

  lemma OffsetOfWire(rcvNxt: Seq16, k: nat)
    requires k < 65536
    ensures Sub16(Wire(rcvNxt + k), rcvNxt) == k
  {
  }

  lemma Frontier(rcvNxt: Seq16, maxGap: nat)
    ensures (rcvNxt + maxGap % 65536 - 1) % 65536 == Wire(rcvNxt + Reach(maxGap) - 1)
  {
  }

  lemma PreviousWire(rcvNxt: Seq16, k: nat)
    requires k > 0
    ensures (Wire(rcvNxt + k) - 1) % 65536 == Wire(rcvNxt + k - 1)
  {
  }

  lemma StepWire(rcvNxt: Seq16, k: nat)
    ensures Next16(Wire(rcvNxt + k)) == Wire(rcvNxt + k + 1)
  {
  }

  lemma LastMissing(rcvNxt: Seq16, buffered: set<Seq16>, k: nat, at: Seq16)
    requires 0 < k <= 65536 && at == Wire(rcvNxt + k - 1)
    ensures at in buffered ==> Missing(rcvNxt, buffered, k) == Missing(rcvNxt, buffered, k - 1)
    ensures at !in buffered ==> var near := Missing(rcvNxt, buffered, k); near != [] && near[|near| - 1] == at
    ensures at == rcvNxt <==> k == 1
    ensures at == rcvNxt && at in buffered ==> Missing(rcvNxt, buffered, k) == []
  {
    OffsetOfWire(rcvNxt, k - 1);
    WireOffset(rcvNxt, at);
    assert k == 1 ==> Missing(rcvNxt, buffered, k - 1) == [];
  }

  /** maybeSendDataNacks, up to the list of candidates; both reads of the receive buffer see one state. */
  method Scan(rcvNxt: Seq16, buffered: set<Seq16>, sn: Seq16, maxGap: nat) returns (missing: seq<Seq16>)
    ensures missing == Candidates(rcvNxt, buffered, sn, maxGap)
  {
    missing := [];
    var diff := Sub16(sn, rcvNxt);
    if maxGap == 0 || diff == 0 || diff >= 32768 {
      return;
    }
    WireOffset(rcvNxt, sn);
    if diff <= maxGap % 65536 {
      missing := ScanAll(rcvNxt, buffered, sn);
    } else {
      missing := ScanLow(rcvNxt, buffered, sn, SampleCount(maxGap));
      var highest := ScanDown(rcvNxt, buffered, maxGap);
      if highest.Some? && highest.value !in missing {
        missing := missing + [highest.value];
      }
    }
  }

  method ScanAll(rcvNxt: Seq16, buffered: set<Seq16>, sn: Seq16) returns (missing: seq<Seq16>)
    ensures missing == Missing(rcvNxt, buffered, Sub16(sn, rcvNxt))
  {
    missing := [];
    var at := rcvNxt;
    ghost var k := 0;
    WireOffset(rcvNxt, sn);
    while at != sn
      invariant k <= Sub16(sn, rcvNxt) && at == Wire(rcvNxt + k)
      invariant missing == Missing(rcvNxt, buffered, k)
      decreases Sub16(sn, rcvNxt) - k
    {
      if at !in buffered {
        missing := missing + [at];
      }
      StepWire(rcvNxt, k);
      at := Next16(at);
      k := k + 1;
    }
    OffsetOfWire(rcvNxt, k);
  }

  method ScanLow(rcvNxt: Seq16, buffered: set<Seq16>, sn: Seq16, limit: nat) returns (missing: seq<Seq16>)
    ensures missing == Prefix(Missing(rcvNxt, buffered, Sub16(sn, rcvNxt)), limit)
  {
    missing := [];
    var at, added := rcvNxt, 0;
    ghost var k := 0;
    WireOffset(rcvNxt, sn);
    while at != sn && added < limit
      invariant k <= Sub16(sn, rcvNxt) && at == Wire(rcvNxt + k)
      invariant missing == Missing(rcvNxt, buffered, k) && added == |missing| <= limit
      decreases Sub16(sn, rcvNxt) - k
    {
      if at !in buffered {
        missing := missing + [at];
        added := added + 1;
      }
      StepWire(rcvNxt, k);
      at := Next16(at);
      k := k + 1;
    }
    OffsetOfWire(rcvNxt, k);
    MissingGrows(rcvNxt, buffered, k, Sub16(sn, rcvNxt));
  }

  /** The downward loop from the frontier: the last missing number within reach. */
  method ScanDown(rcvNxt: Seq16, buffered: set<Seq16>, maxGap: nat) returns (highest: Option<Seq16>)
    requires maxGap > 0
    ensures var near := Missing(rcvNxt, buffered, Reach(maxGap));
            highest == if near == [] then None else Some(near[|near| - 1])
  {
    var candidate: Seq16 := (rcvNxt + maxGap % 65536 - 1) % 65536;
    ghost var reach, k := Reach(maxGap), Reach(maxGap);
    Frontier(rcvNxt, maxGap);
    while true
      invariant 0 < k <= reach && candidate == Wire(rcvNxt + k - 1)
      invariant Missing(rcvNxt, buffered, k) == Missing(rcvNxt, buffered, reach)
      decreases k
    {
      LastMissing(rcvNxt, buffered, k, candidate);
      if candidate !in buffered {
        return Some(candidate);
      }
      if candidate == rcvNxt {
        return None;
      }
      PreviousWire(rcvNxt, k - 1);
      candidate := (candidate - 1) % 65536;
      k := k - 1;
    }
  }

  lemma {:induction false} MissingGrows(rcvNxt: Seq16, buffered: set<Seq16>, k: nat, l: nat)
    requires k <= l
    ensures var a, b := Missing(rcvNxt, buffered, k), Missing(rcvNxt, buffered, l); |a| <= |b| && b[..|a|] == a
    decreases l
  {
    if k < l {
      MissingGrows(rcvNxt, buffered, k, l - 1);
    }
  }

  /** `Missing` is sound, complete and sorted by distance from `rcvNxt`. */
  lemma {:induction false} MissingExactly(rcvNxt: Seq16, buffered: set<Seq16>, k: nat)
    requires k <= 65536
    ensures var m := Missing(rcvNxt, buffered, k);
            && |m| <= k
            && (forall x: Seq16 :: x in m <==> x !in buffered && Sub16(x, rcvNxt) < k)
            && (forall i, j :: 0 <= i < j < |m| ==> Sub16(m[i], rcvNxt) < Sub16(m[j], rcvNxt))
  {
    if k > 0 {
      MissingExactly(rcvNxt, buffered, k - 1);
      var x := Wire(rcvNxt + k - 1);
      OffsetOfWire(rcvNxt, k - 1);
      assert forall y: Seq16 :: Sub16(y, rcvNxt) == k - 1 ==> y == x by {
        forall y: Seq16 | Sub16(y, rcvNxt) == k - 1
          ensures y == x
        {
          WireOffset(rcvNxt, y);
        }
      }
    }
  }

  predicate InGap(rcvNxt: Seq16, sn: Seq16, x: Seq16) {
    Sub16(x, rcvNxt) < Sub16(sn, rcvNxt)
  }

  /** Every candidate is missing and listed once. */
  lemma CandidatesAreMissingOnce(rcvNxt: Seq16, buffered: set<Seq16>, sn: Seq16, maxGap: nat)
    ensures var c := Candidates(rcvNxt, buffered, sn, maxGap);
            && (forall x :: x in c ==> x !in buffered)
            && (forall i, j :: 0 <= i < j < |c| ==> c[i] != c[j])
  {
    MissingExactly(rcvNxt, buffered, Sub16(sn, rcvNxt));
    MissingExactly(rcvNxt, buffered, Reach(maxGap));
  }

  /** The lowest missing number is always a candidate. */
  lemma LowestMissingIsListed(rcvNxt: Seq16, buffered: set<Seq16>, sn: Seq16, maxGap: nat, x: Seq16)
    requires Scans(rcvNxt, sn, maxGap) && InGap(rcvNxt, sn, x) && x !in buffered
    requires forall y: Seq16 :: Sub16(y, rcvNxt) < Sub16(x, rcvNxt) ==> y in buffered
    ensures x in Candidates(rcvNxt, buffered, sn, maxGap)
  {
    MissingExactly(rcvNxt, buffered, Sub16(sn, rcvNxt));
    var m := Missing(rcvNxt, buffered, Sub16(sn, rcvNxt));
    assert m[0] == x;
  }

  /** A near scan lists every gap; a far one at most a sample and the frontier. */
  lemma CandidatesAreComplete(rcvNxt: Seq16, buffered: set<Seq16>, sn: Seq16, maxGap: nat)
    requires Scans(rcvNxt, sn, maxGap)
    ensures var c := Candidates(rcvNxt, buffered, sn, maxGap);
            if Sub16(sn, rcvNxt) <= maxGap % 65536
            then forall x: Seq16 :: x in c <==> x !in buffered && InGap(rcvNxt, sn, x)
            else |c| <= SampleCount(maxGap) + 1
  {
    MissingExactly(rcvNxt, buffered, Sub16(sn, rcvNxt));
  }

  /** A missing number stands in the list behind as many as are missing below it. */
  lemma RankOf(rcvNxt: Seq16, buffered: set<Seq16>, x: Seq16, l: nat)
    requires x !in buffered && Sub16(x, rcvNxt) < l <= 65536
    ensures var rank, m := |Missing(rcvNxt, buffered, Sub16(x, rcvNxt))|, Missing(rcvNxt, buffered, l);
            rank < |m| && m[rank] == x
  {
    var k: nat := Sub16(x, rcvNxt);
    WireOffset(rcvNxt, x);
    assert Missing(rcvNxt, buffered, k + 1) == Missing(rcvNxt, buffered, k) + [x];
    MissingGrows(rcvNxt, buffered, k + 1, l);
    assert Missing(rcvNxt, buffered, l)[..|Missing(rcvNxt, buffered, k + 1)|][|Missing(rcvNxt, buffered, k)|] == x;
  }

  /** Of a list sorted by distance, the first `sample` are those with fewer than `sample` missing below them. */
  lemma SampleIsLowest(rcvNxt: Seq16, buffered: set<Seq16>, l: nat, sample: nat, x: Seq16)
    requires l <= 65536
    ensures x in Prefix(Missing(rcvNxt, buffered, l), sample)
       <==> x !in buffered && Sub16(x, rcvNxt) < l && |Missing(rcvNxt, buffered, Sub16(x, rcvNxt))| < sample
  {
    MissingExactly(rcvNxt, buffered, l);
    var m := Missing(rcvNxt, buffered, l);
    if x in m {
      RankOf(rcvNxt, buffered, x, l);
      var rank := |Missing(rcvNxt, buffered, Sub16(x, rcvNxt))|;
      if rank < sample {
        assert Prefix(m, sample)[rank] == x;
      }
      if x in Prefix(m, sample) {
        var j :| 0 <= j < |Prefix(m, sample)| && Prefix(m, sample)[j] == x;
        assert m[j] == x == m[rank];
      }
    }
  }

  /** Missing, and nothing farther within reach is. */
  ghost predicate IsHighestMissing(rcvNxt: Seq16, buffered: set<Seq16>, reach: nat, x: Seq16) {
    && x !in buffered && Sub16(x, rcvNxt) < reach
    && forall y: Seq16 :: Sub16(x, rcvNxt) < Sub16(y, rcvNxt) < reach ==> y in buffered
  }

  /**
   A far scan lists exactly the lowest missing numbers, a twentieth of the configured gap rounded up, and the highest
   missing number within reach of the gap as 16 bits see it.
   */
  lemma FarScanExactly(rcvNxt: Seq16, buffered: set<Seq16>, sn: Seq16, maxGap: nat, sample: nat, reach: nat, x: Seq16)
    requires Scans(rcvNxt, sn, maxGap) && Sub16(sn, rcvNxt) > maxGap % 65536
    requires maxGap <= 20 * sample < maxGap + 20 && 0 < reach <= 65536 && reach % 65536 == maxGap % 65536
    ensures x in Candidates(rcvNxt, buffered, sn, maxGap)
       <==> (InGap(rcvNxt, sn, x) && x !in buffered && |Missing(rcvNxt, buffered, Sub16(x, rcvNxt))| < sample)
            || IsHighestMissing(rcvNxt, buffered, reach, x)
  {
    SampleIsLowest(rcvNxt, buffered, Sub16(sn, rcvNxt), sample, x);
    HighestExactly(rcvNxt, buffered, reach, x);
    assert Reach(maxGap) == reach && SampleCount(maxGap) == sample;
  }

  lemma HighestExactly(rcvNxt: Seq16, buffered: set<Seq16>, reach: nat, x: Seq16)
    requires 0 < reach <= 65536
    ensures IsHighestMissing(rcvNxt, buffered, reach, x)
       <==> Missing(rcvNxt, buffered, reach) != [] && x == Missing(rcvNxt, buffered, reach)[|Missing(rcvNxt, buffered, reach)| - 1]
  {
    MissingExactly(rcvNxt, buffered, reach);
    var near := Missing(rcvNxt, buffered, reach);
    if x in near {
      var j :| 0 <= j < |near| && near[j] == x;
      if j < |near| - 1 {
        assert near[|near| - 1] in near;
      }
    }
  }

  /**
   With a receive buffer inside the window, every candidate lies between `rcvNxt` and the newest number
   exactly unless the configured gap is a multiple of 65536: its 16-bit form is then zero, and the
   scan asks for the number just before `rcvNxt`.
   */
  lemma CandidatesLieInTheGap(rcvNxt: Seq16, buffered: set<Seq16>, sn: Seq16, maxGap: nat)
    requires Scans(rcvNxt, sn, maxGap)
    requires forall x :: x in buffered ==> Sub16(x, rcvNxt) < 32768
    ensures (forall x :: x in Candidates(rcvNxt, buffered, sn, maxGap) ==> InGap(rcvNxt, sn, x)) <==> maxGap % 65536 != 0
  {
    var diff := Sub16(sn, rcvNxt);
    MissingExactly(rcvNxt, buffered, diff);
    MissingExactly(rcvNxt, buffered, Reach(maxGap));
    if maxGap % 65536 == 0 {
      var before := Wire(rcvNxt + 65535);
      OffsetOfWire(rcvNxt, 65535);
      var near := Missing(rcvNxt, buffered, 65536);
      assert near[|near| - 1] == before;
      assert before in Candidates(rcvNxt, buffered, sn, maxGap);
      assert !InGap(rcvNxt, sn, before);
    }
  }

  // ------------------------------------------------------------------
  // Pacing
  // ------------------------------------------------------------------

  datatype Pace = Pace(initialDelay: nat, repeatInterval: nat)

  /** When each missing number was first seen and last asked for. */
  datatype Asked = Asked(firstSeen: map<Seq16, int>, lastSent: map<Seq16, int>)

  predicate ShouldSend(p: Pace, a: Asked, sn: Seq16, now: int) {
    if sn !in a.firstSeen then p.initialDelay == 0
    else if p.initialDelay > 0 && now - a.firstSeen[sn] < p.initialDelay then false
    else sn !in a.lastSent || now - a.lastSent[sn] >= p.repeatInterval
  }

  function Seen(a: Asked, sn: Seq16, now: int): Asked {
    if sn in a.firstSeen then a else a.(firstSeen := a.firstSeen[sn := now])
  }

  function Noted(a: Asked, sn: Seq16, now: int): Asked {
    a.(lastSent := a.lastSent[sn := now])
  }

  function Cleared(a: Asked, sn: Seq16): Asked {
    Asked(a.firstSeen - {sn}, a.lastSent - {sn})
  }

  /** One candidate: ask for it if it is time and the queue takes the packet. */
  function Asking(p: Pace, a: Asked, sn: Seq16, pushed: bool, now: int): Asked {
    var seen := Seen(a, sn, now);
    if ShouldSend(p, a, sn, now) && pushed then Noted(seen, sn, now) else seen
  }

  function AskingAll(p: Pace, a: Asked, missing: seq<Seq16>, pushed: seq<bool>, now: int): Asked
    requires |pushed| == |missing|
    decreases |missing|
  {
    if missing == [] then a
    else
      var n := |missing| - 1;
      Asking(p, AskingAll(p, a, missing[..n], pushed[..n], now), missing[n], pushed[n], now)
  }

  /** The NACKs that go out while a list of candidates is worked off. */
  function NacksFor(p: Pace, a: Asked, missing: seq<Seq16>, pushed: seq<bool>, now: int): seq<Seq16>
    requires |pushed| == |missing|
    decreases |missing|
  {
    if missing == [] then []
    else
      var n := |missing| - 1;
      NacksFor(p, a, missing[..n], pushed[..n], now)
      + if ShouldSend(p, AskingAll(p, a, missing[..n], pushed[..n], now), missing[n], now) && pushed[n] then [missing[n]] else []
  }

  class NackPacer {
    const pace: Pace
    var firstSeen: map<Seq16, int>
    var lastSent: map<Seq16, int>

    constructor (pace: Pace)
      ensures this.pace == pace && View() == Asked(map[], map[])
    {
      this.pace := pace;
      firstSeen, lastSent := map[], map[];
    }

    ghost function View(): Asked
      reads this
    {
      Asked(firstSeen, lastSent)
    }

    /** shouldSendDataNack. */
    method Consider(sn: Seq16, now: int) returns (send: bool)
      modifies this
      ensures send == ShouldSend(pace, old(View()), sn, now)
      ensures View() == Seen(old(View()), sn, now)
    {
      if sn !in firstSeen {
        firstSeen := firstSeen[sn := now];
        return pace.initialDelay == 0;
      }
      if pace.initialDelay > 0 && now - firstSeen[sn] < pace.initialDelay {
        return false;
      }
      if sn !in lastSent {
        return true;
      }
      return now - lastSent[sn] >= pace.repeatInterval;
    }

    method NoteSent(sn: Seq16, now: int)
      modifies this
      ensures View() == Noted(old(View()), sn, now)
    {
      lastSent := lastSent[sn := now];
    }

    /** clearSentDataNack. */
    method Clear(sn: Seq16)
      modifies this
      ensures View() == Cleared(old(View()), sn)
    {
      firstSeen := firstSeen - {sn};
      lastSent := lastSent - {sn};
    }

    /** The sending loop of maybeSendDataNacks; `pushed` is the queue's answer for each candidate. */
    method AskForAll(missing: seq<Seq16>, pushed: seq<bool>, now: int) returns (asked: seq<Seq16>)
      requires |pushed| == |missing|
      modifies this
      ensures View() == AskingAll(pace, old(View()), missing, pushed, now)
      ensures asked == NacksFor(pace, old(View()), missing, pushed, now)
    {
      asked := [];
      for i := 0 to |missing|
        invariant View() == AskingAll(pace, old(View()), missing[..i], pushed[..i], now)
        invariant asked == NacksFor(pace, old(View()), missing[..i], pushed[..i], now)
      {
        assert missing[..i + 1][..i] == missing[..i] && pushed[..i + 1][..i] == pushed[..i];
        var send := Consider(missing[i], now);
        if send && pushed[i] {
          NoteSent(missing[i], now);
          asked := asked + [missing[i]];
        }
      }
      assert missing[..|missing|] == missing && pushed[..|missing|] == pushed;
    }
  }

  datatype PaceStep = Ask(sn: Seq16, pushed: bool) | Forget(sn: Seq16) | ForgetAll

  /** Pacing state of all numbers, with the times each was asked for since it was last forgotten. */
  datatype History = History(asked: Asked, since: map<Seq16, int>, times: map<Seq16, seq<int>>)

  function TimesOf(h: History, sn: Seq16): seq<int> {
    if sn in h.times then h.times[sn] else []
  }

  function ApplyPace(p: Pace, h: History, s: PaceStep, now: int): History {
    match s
    case Ask(sn, pushed) =>
      History(Asking(p, h.asked, sn, pushed, now),
              if sn in h.since then h.since else h.since[sn := now],
              if ShouldSend(p, h.asked, sn, now) && pushed then h.times[sn := TimesOf(h, sn) + [now]] else h.times)
    case Forget(sn) => History(Cleared(h.asked, sn), h.since - {sn}, h.times - {sn})
    case ForgetAll => History(Asked(map[], map[]), map[], map[])
  }

  ghost predicate PaceRun(p: Pace, states: seq<History>, steps: seq<PaceStep>, clocks: seq<int>) {
    && |states| == |steps| + 1 && |clocks| == |states|
    && states[0] == History(Asked(map[], map[]), map[], map[])
    && forall i {:trigger steps[i]} :: 0 <= i < |steps| ==> clocks[i] <= clocks[i + 1] && states[i + 1] == ApplyPace(p, states[i], steps[i], clocks[i + 1])
  }

  /** The pacing state of one number agrees with the times it was asked for. */
  ghost predicate PaceHolds(p: Pace, h: History, sn: Seq16, clock: int) {
    var times := TimesOf(h, sn);
    && h.asked.firstSeen == h.since && (sn in h.since ==> h.since[sn] <= clock)
    && (forall i :: 0 < i < |times| ==> times[i] - times[i - 1] >= p.repeatInterval)
    && (times != [] ==> sn in h.since && times[0] >= h.since[sn] + p.initialDelay)
    && (sn in h.asked.lastSent <==> times != [])
    && (times != [] ==> h.asked.lastSent[sn] == times[|times| - 1])
  }

  lemma PaceStepKeeps(p: Pace, h: History, s: PaceStep, before: int, now: int, sn: Seq16)
    requires PaceHolds(p, h, sn, before) && before <= now
    ensures PaceHolds(p, ApplyPace(p, h, s, now), sn, now)
  {
  }

  /** NACKs for one number keep the initial delay and the repeat interval until the number is forgotten. */
  lemma {:induction false} NacksAreSpaced(p: Pace, states: seq<History>, steps: seq<PaceStep>, clocks: seq<int>, i: nat, sn: Seq16)
    requires PaceRun(p, states, steps, clocks) && i < |states|
    ensures PaceHolds(p, states[i], sn, clocks[i])
  {
    if i > 0 {
      NacksAreSpaced(p, states, steps, clocks, i - 1, sn);
      PaceStepKeeps(p, states[i - 1], steps[i - 1], clocks[i - 1], clocks[i], sn);
    }
  }

  function Last(times: seq<int>): int
    requires times != []
  {
    times[|times| - 1]
  }

  /**
   The other side: a number is asked for exactly when it is time.  An Ask that the queue takes adds its time if
   and only if the initial delay is zero or has passed since the number was first seen, and the number was not
   asked for since, or at least one repeat interval ago.
   */
  lemma AskedExactly(p: Pace, states: seq<History>, steps: seq<PaceStep>, clocks: seq<int>, i: nat, sn: Seq16)
    requires PaceRun(p, states, steps, clocks) && i < |steps| && steps[i].Ask? && steps[i].sn == sn
    ensures TimesOf(states[i + 1], sn) == TimesOf(states[i], sn) + (
              if && steps[i].pushed
                 && (p.initialDelay == 0 || (sn in states[i].since && clocks[i + 1] - states[i].since[sn] >= p.initialDelay))
                 && (TimesOf(states[i], sn) == [] || clocks[i + 1] - Last(TimesOf(states[i], sn)) >= p.repeatInterval)
              then [clocks[i + 1]] else [])
    ensures states[i + 1].since == if sn in states[i].since then states[i].since else states[i].since[sn := clocks[i + 1]]
    ensures forall other :: other != sn ==> TimesOf(states[i + 1], other) == TimesOf(states[i], other)
  {
    NacksAreSpaced(p, states, steps, clocks, i, sn);
    var step := steps[i];
    assert states[i + 1] == ApplyPace(p, states[i], step, clocks[i + 1]);
  }

  ghost predicate Once(missing: seq<Seq16>) {
    forall i, j :: 0 <= i < j < |missing| ==> missing[i] != missing[j]
  }

  /** The pacing state of `sn` is the same. */
  ghost predicate SamePace(a: Asked, b: Asked, sn: Seq16) {
    && (sn in b.firstSeen <==> sn in a.firstSeen) && (sn in a.firstSeen ==> b.firstSeen[sn] == a.firstSeen[sn])
    && (sn in b.lastSent <==> sn in a.lastSent) && (sn in a.lastSent ==> b.lastSent[sn] == a.lastSent[sn])
  }

  lemma AskingOther(p: Pace, a: Asked, b: Asked, other: Seq16, pushed: bool, now: int, sn: Seq16)
    requires SamePace(a, b, sn) && other != sn
    ensures SamePace(a, Asking(p, b, other, pushed, now), sn)
  {
  }

  /** Asking for other numbers leaves this one alone. */
  lemma {:induction false} AskingElsewhere(p: Pace, a: Asked, missing: seq<Seq16>, pushed: seq<bool>, now: int, sn: Seq16)
    requires |pushed| == |missing| && sn !in missing
    ensures SamePace(a, AskingAll(p, a, missing, pushed, now), sn) && sn !in NacksFor(p, a, missing, pushed, now)
    decreases |missing|
  {
    if missing != [] {
      var n := |missing| - 1;
      assert missing == missing[..n] + [missing[n]];
      AskingElsewhere(p, a, missing[..n], pushed[..n], now, sn);
      AskingOther(p, a, AskingAll(p, a, missing[..n], pushed[..n], now), missing[n], pushed[n], now, sn);
    }
  }

  /** Each number of a list without repetitions is judged by what was known before the list. */
  lemma {:induction false} ListedOrNot(p: Pace, a: Asked, missing: seq<Seq16>, pushed: seq<bool>, now: int, k: nat)
    requires |pushed| == |missing| && Once(missing) && k < |missing|
    ensures missing[k] in NacksFor(p, a, missing, pushed, now) <==> pushed[k] && ShouldSend(p, a, missing[k], now)
    decreases |missing|
  {
    var n := |missing| - 1;
    var sn := missing[k];
    if k < n {
      ListedOrNot(p, a, missing[..n], pushed[..n], now, k);
    } else {
      AskingElsewhere(p, a, missing[..n], pushed[..n], now, sn);
    }
  }

  /** Over every run, the candidates that are asked for are exactly those whose time it is and that the queue takes. */
  lemma ListedExactly(
    p: Pace, states: seq<History>, steps: seq<PaceStep>, clocks: seq<int>, i: nat,
    missing: seq<Seq16>, pushed: seq<bool>, now: int, k: nat)
    requires PaceRun(p, states, steps, clocks) && i < |states| && |pushed| == |missing| && Once(missing) && k < |missing|
    ensures var h, sn, times := states[i], missing[k], TimesOf(states[i], missing[k]);
            (sn in NacksFor(p, h.asked, missing, pushed, now))
            == (&& pushed[k]
                && (p.initialDelay == 0 || (sn in h.since && now - h.since[sn] >= p.initialDelay))
                && (times == [] || now - Last(times) >= p.repeatInterval))
  {
    NacksAreSpaced(p, states, steps, clocks, i, missing[k]);
    ListedOrNot(p, states[i].asked, missing, pushed, now, k);
  }
}
