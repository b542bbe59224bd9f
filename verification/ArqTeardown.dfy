/**
 Teardown terminates: from any reachable, non-virtual state, retransmit ticks alone close the stream.
 `Due` is the latest time at which a tick can still leave the stream open; no tick raises it.
 */
module ArqTeardown {
  import opened Wire16
  import opened ArqData
  import opened Enums
  import opened ArqClose
  import opened ArqCloseSafety
  import S = ArqCloseSafety

  function Max(a: int, b: int): int {
    if a < b then b else a
  }

  /** Three phases once no drain is pending: a reset awaits its answer, a half-close does, or nothing does. */
  function Undeferred(t: Tuning, e: Endpoint, last: int, gap: nat): int {
    var deadline := if e.wait.deadline.Some? then e.wait.deadline.value else last;
    if e.hs.rstSent then Max(last, deadline)
    else if e.wait.active then Max(last, deadline) + gap + t.ackWait
    else Max(last, e.lastProgress + t.inactivity) + 2 * (gap + t.ackWait)
  }

  /** `last` is the time of the previous tick, `gap` the longest time between ticks. */
  function Due(t: Tuning, e: Endpoint, last: int, gap: nat): int {
    if !e.deferral.active then Undeferred(t, e, last, gap)
    else
      var deadline := if e.deferral.deadline.Some? then e.deferral.deadline.value else last;
      var settled := Max(last, deadline) + gap;
      Max(Undeferred(t, e, settled, gap), settled + 2 * t.ackWait + gap)
  }

  /** Packet `p` was just emitted and its wait started. */
  predicate Restarted(t: Tuning, e: Endpoint, e': Endpoint, p: PacketType, now: int) {
    || e'.life.closed
    || (&& e'.wait == AckWait(true, p, Some(now + t.ackWait)) && !e'.deferral.active
        && !e'.life.isVirtual && (e'.hs.rstSent <==> p == PACKET_STREAM_RST))
  }

  /** Nothing that matters for teardown changed, except that a drain may have been given up. */
  predicate Unmoved(e: Endpoint, e': Endpoint) {
    && e'.life.closed == e.life.closed && e'.life.isVirtual == e.life.isVirtual
    && e'.hs == e.hs && e'.wait == e.wait && e'.lastProgress == e.lastProgress
    && (e'.deferral == e.deferral || e'.deferral == NO_DEFERRAL)
  }

  lemma EmitOutcome(t: Tuning, e: Endpoint, p: PacketType, reason: string, now: int)
    requires !e.life.closed && !e.life.isVirtual && IsTerminal(p)
    ensures var e' := Emit(t, e, p, reason, now);
            if WaitingFor(e, p) || e.hs.rstSent || e.hs.rstReceived || SentFlag(e.hs, p)
            then Unmoved(e, e') && !e'.deferral.active
            else Restarted(t, e, e', p, now)
  {
    if p == PACKET_STREAM_CLOSE_READ {
      MarkOutcome(FlagCloseReadSent(StartWaiting(t, BeginEmit(e, reason), p, now)));
    }
  }

  lemma MarkOutcome(e: Endpoint)
    ensures TryFinalizeRemoteEOF(e) == e || TryFinalizeRemoteEOF(e).life.closed
            || (TryFinalizeRemoteEOF(e) == e && e.life.isVirtual)
  {
  }

  lemma ResetOutcome(t: Tuning, e: Endpoint, reason: string, now: int)
    requires !e.life.closed && !e.life.isVirtual
    ensures var e' := CloseReset(t, e, reason, now);
            if AlreadyResetting(e) then e' == e else Restarted(t, e, e', PACKET_STREAM_RST, now)
  {
    if !AlreadyResetting(e) {
      EmitOutcome(t, BeginReset(e, reason), PACKET_STREAM_RST, reason, now);
    }
  }

  /** A fresh reset is never due later than before. */
  lemma ResetInTime(t: Tuning, e: Endpoint, e': Endpoint, last: int, now: int, gap: nat)
    requires !e.hs.rstSent && last <= now <= last + gap
    requires Restarted(t, e, e', PACKET_STREAM_RST, now)
    ensures e'.life.closed || Due(t, e', now, gap) <= Due(t, e, last, gap)
  {
  }

  lemma SettleOutcome(t: Tuning, e: Endpoint, last: int, now: int, gap: nat)
    requires Inv(t, e, last) && !e.life.closed && !e.life.isVirtual && e.deferral.active
    requires last <= now <= last + gap
    ensures var e' := SettleDrain(t, e, now);
            e'.life.closed || (!e'.life.isVirtual && Due(t, e', now, gap) <= Due(t, e, last, gap))
  {
    if DrainSettled(e, now) {
      var p := if e.snd.sndBuf == map[] then e.deferral.packet else PACKET_STREAM_RST;
      var e1 := WithoutDeferral(e);
      if p == PACKET_STREAM_RST {
        ResetOutcome(t, e1, "drain settled", now);
      } else {
        EmitOutcome(t, e1, p, "drain settled", now);
      }
      SettledInTime(t, e, SettleDrain(t, e, now), p, last, now, gap);
    }
  }

  lemma SettledInTime(t: Tuning, e: Endpoint, e': Endpoint, p: PacketType, last: int, now: int, gap: nat)
    requires Inv(t, e, last) && e.deferral.active && last <= now <= last + gap
    requires Restarted(t, e, e', p, now) || (Unmoved(e, e') && !e'.deferral.active)
    ensures e'.life.closed || Due(t, e', now, gap) <= Due(t, e, last, gap)
  {
  }

  lemma TerminalTickOutcome(t: Tuning, e: Endpoint, last: int, now: int, gap: nat)
    requires Inv(t, e, last) && !e.life.closed && !e.life.isVirtual && last <= now <= last + gap
    ensures var e' := TerminalTick(t, e, now).0;
            e'.life.closed || (!e'.life.isVirtual && Due(t, e', now, gap) <= Due(t, e, last, gap))
  {
    if e.deferral.active {
      SettleOutcome(t, e, last, now, gap);
    } else if e.wait.active && Passed(e.wait.deadline, now) {
      if e.wait.packet != PACKET_STREAM_RST {
        ResetOutcome(t, e, "Close handshake ACK wait timeout", now);
        ResetInTime(t, e, CloseReset(t, e, "Close handshake ACK wait timeout", now), last, now, gap);
      }
    } else if GraceElapsed(e, now) {
      EmitOutcome(t, e, PACKET_STREAM_CLOSE_WRITE, "Client close-read grace elapsed", now);
    } else if now - e.lastProgress > t.inactivity {
      ResetOutcome(t, e, "Stream Inactivity Timeout", now);
      if !AlreadyResetting(e) {
        ResetInTime(t, e, CloseReset(t, e, "Stream Inactivity Timeout", now), last, now, gap);
      }
    }
  }

  /** One tick never moves the due time later. */
  lemma TickOutcomeInTime(t: Tuning, e: Endpoint, outcome: TickOutcome, last: int, now: int, gap: nat)
    requires Inv(t, e, last) && !e.life.closed && !e.life.isVirtual && last <= now <= last + gap
    requires TickPossible(t, e, outcome, now)
    ensures var e' := Tick(t, e, outcome, now);
            e'.life.closed || (!e'.life.isVirtual && Due(t, e', now, gap) <= Due(t, e, last, gap))
  {
    TerminalTickOutcome(t, e, last, now, gap);
    var e1 := TerminalTick(t, e, now).0;
    if !outcome.Quiet? && !e1.life.closed {
      var e2 := if outcome.DataExpired? then e1 else DropTracked(e1, outcome.key);
      var reason := if outcome.DataExpired? then "Max retransmissions exceeded" else "Packet TTL expired";
      ResetOutcome(t, e2, reason, now);
      ExpiryInTime(t, e1, e2, CloseReset(t, e2, reason, now), now, gap);
    }
  }

  lemma ExpiryInTime(t: Tuning, e1: Endpoint, e2: Endpoint, e': Endpoint, now: int, gap: nat)
    requires e2 == e1.(tracked := e2.tracked)
    requires if AlreadyResetting(e2) then e' == e2 else Restarted(t, e2, e', PACKET_STREAM_RST, now)
    requires !e1.life.isVirtual
    ensures e'.life.closed || (!e'.life.isVirtual && Due(t, e', now, gap) <= Due(t, e1, now, gap))
  {
    if !AlreadyResetting(e2) {
      ResetInTime(t, e1, e', now, now, gap);
    }
  }

  /** A run of ticks alone. `times[0]` is the starting clock. */
  ghost predicate TickRun(t: Tuning, states: seq<Endpoint>, outcomes: seq<TickOutcome>, times: seq<int>, gap: nat) {
    && |states| == |outcomes| + 1 && |times| == |states|
    && forall i {:trigger outcomes[i]} :: 0 <= i < |outcomes| ==> TickStep(t, states[i], outcomes[i], states[i + 1], times[i], times[i + 1], gap)
  }

  ghost predicate TickStep(t: Tuning, e: Endpoint, outcome: TickOutcome, e': Endpoint, last: int, now: int, gap: nat) {
    && last <= now <= last + gap
    && TickPossible(t, e, outcome, now)
    && e' == Tick(t, e, outcome, now)
  }

  /** Closed, or still due by `due`. */
  predicate OnTime(t: Tuning, e: Endpoint, due: int, last: int, gap: nat) {
    e.life.closed || (!e.life.isVirtual && Due(t, e, last, gap) <= due)
  }

  lemma StepOnTime(t: Tuning, e: Endpoint, outcome: TickOutcome, e': Endpoint, due: int, last: int, now: int, gap: nat)
    requires Inv(t, e, last) && TickStep(t, e, outcome, e', last, now, gap) && OnTime(t, e, due, last, gap)
    ensures Inv(t, e', now) && OnTime(t, e', due, now, gap)
  {
    ClockMoves(t, e, last, now);
    TickKeeps(t, e, outcome, now);
    if !e.life.closed {
      TickOutcomeInTime(t, e, outcome, last, now, gap);
    }
  }

  lemma {:induction false} DueNeverRises(t: Tuning, states: seq<Endpoint>, outcomes: seq<TickOutcome>, times: seq<int>,
                                         due: int, gap: nat, i: nat)
    requires TickRun(t, states, outcomes, times, gap) && i < |states|
    requires Inv(t, states[0], times[0]) && OnTime(t, states[0], due, times[0], gap)
    ensures Inv(t, states[i], times[i]) && OnTime(t, states[i], due, times[i], gap)
  {
    if i > 0 {
      DueNeverRises(t, states, outcomes, times, due, gap, i - 1);
      StepOnTimeAt(t, states, outcomes, times, due, gap, i - 1);
    }
  }

  lemma StepOnTimeAt(t: Tuning, states: seq<Endpoint>, outcomes: seq<TickOutcome>, times: seq<int>,
                     due: int, gap: nat, i: nat)
    requires TickRun(t, states, outcomes, times, gap) && i < |outcomes|
    requires Inv(t, states[i], times[i]) && OnTime(t, states[i], due, times[i], gap)
    ensures Inv(t, states[i + 1], times[i + 1]) && OnTime(t, states[i + 1], due, times[i + 1], gap)
  {
    StepOnTime(t, states[i], outcomes[i], states[i + 1], due, times[i], times[i + 1], gap);
  }

  /** A tick that leaves the stream open comes no later than the due time. */
  lemma OpenMeansNotOverdue(t: Tuning, e: Endpoint, last: int, gap: nat)
    ensures last <= Due(t, e, last, gap)
  {
  }

  /** The bound in terms of the timeouts: one drain or inactivity period, and two acknowledgement waits. */
  lemma DueBound(t: Tuning, e: Endpoint, clock: int, gap: nat)
    requires Inv(t, e, clock)
    ensures Due(t, e, clock, gap) <= clock + t.drainTimeout + t.inactivity + 2 * t.ackWait + 3 * gap
  {
  }

  /** From every reachable non-virtual state, ticks alone close the stream within the sum of its timeouts. */
  lemma TeardownTerminates(t: Tuning, states: seq<Endpoint>, outcomes: seq<TickOutcome>, times: seq<int>, gap: nat, i: nat,
                           history: seq<Endpoint>, events: seq<Event>, clocks: seq<int>)
    requires Run(t, history, events, clocks)
    requires TickRun(t, states, outcomes, times, gap) && i < |states|
    requires states[0] == history[|history| - 1] && times[0] == clocks[|clocks| - 1] && !states[0].life.isVirtual
    requires times[i] > times[0] + t.drainTimeout + t.inactivity + 2 * t.ackWait + 3 * gap
    ensures states[i].life.closed
  {
    Reachable(t, history, events, clocks, |history| - 1);
    var due := Due(t, states[0], times[0], gap);
    DueNeverRises(t, states, outcomes, times, due, gap, i);
    DueBound(t, states[0], times[0], gap);
    OpenMeansNotOverdue(t, states[i], times[i], gap);
  }

  // ------------------------------------------------------------------
  // A reset that is marked only
  // ------------------------------------------------------------------

  /** The acknowledgement of a half-close is overdue. */
  predicate Overdue(e: Endpoint, now: int) {
    e.wait.active && Passed(e.wait.deadline, now) && e.wait.packet != PACKET_STREAM_RST
  }

  /** Open, with the peer's reset marked and nothing queued. */
  predicate Marked(e: Endpoint) {
    && !e.life.closed && !e.life.isVirtual && e.hs.rstReceived
    && e.snd.sndBuf == map[] && e.tracked == {}
    && (e.wait.active ==> IsTerminal(e.wait.packet))
  }

  /** One tick after the mark: a pending drain is given up, an overdue half-close hides the mark, else the stream closes. */
  lemma MarkedTick(t: Tuning, e: Endpoint, outcome: TickOutcome, now: int)
    requires Marked(e) && TickPossible(t, e, outcome, now) && (e.deferral.active ==> IsTerminal(e.deferral.packet))
    ensures var e' := Tick(t, e, outcome, now);
            if e.deferral.active then Marked(e') && !e'.deferral.active && e'.wait == e.wait
            else if Overdue(e, now) then e' == e
            else e'.life.closed
  {
  }

  lemma {:induction false} StuckForEver(t: Tuning, states: seq<Endpoint>, outcomes: seq<TickOutcome>, times: seq<int>, gap: nat, k: nat, i: nat)
    requires TickRun(t, states, outcomes, times, gap) && 0 < k <= i < |states|
    requires Marked(states[k - 1]) && !states[k - 1].deferral.active && Overdue(states[k - 1], times[k])
    ensures states[i] == states[k - 1] && times[k] <= times[i]
    decreases i
  {
    if i > k {
      StuckForEver(t, states, outcomes, times, gap, k, i - 1);
    }
    assert TickStep(t, states[i - 1], outcomes[i - 1], states[i], times[i - 1], times[i], gap);
    MarkedTick(t, states[i - 1], outcomes[i - 1], times[i]);
  }

  lemma {:induction false} ClosedForEver(t: Tuning, states: seq<Endpoint>, outcomes: seq<TickOutcome>, times: seq<int>, gap: nat, k: nat, i: nat)
    requires TickRun(t, states, outcomes, times, gap) && k <= i < |states| && states[k].life.closed
    ensures states[i].life.closed
    decreases i
  {
    if i > k {
      ClosedForEver(t, states, outcomes, times, gap, k, i - 1);
      assert TickStep(t, states[i - 1], outcomes[i - 1], states[i], times[i - 1], times[i], gap);
    }
  }

  /**
   Why a peer's reset is marked and the stream force-closed in one step.  Were it only marked, ticks
   would close the stream exactly unless the acknowledgement of a half-close is overdue at the first
   tick, or at the second when the first still gives up a drain; then no later tick does either.
   */
  lemma MarkedResetAlone(t: Tuning, e: Endpoint, states: seq<Endpoint>, outcomes: seq<TickOutcome>, times: seq<int>, gap: nat, i: nat)
    requires TickRun(t, states, outcomes, times, gap)
    requires Inv(t, e, times[0]) && !e.life.closed && !e.life.isVirtual
    requires states[0] == MarkRstReceived(e)
    requires var k := if e.deferral.active then 2 else 1; k <= i < |states|
    ensures var k := if e.deferral.active then 2 else 1;
            states[i].life.closed <==> !Overdue(states[0], times[k])
    ensures PeerReset(t, e, times[0]).life.closed
  {
    var k := if e.deferral.active then 2 else 1;
    assert TickStep(t, states[0], outcomes[0], states[1], times[0], times[1], gap);
    MarkedTick(t, states[0], outcomes[0], times[1]);
    if k == 2 {
      assert TickStep(t, states[1], outcomes[1], states[2], times[1], times[2], gap);
      MarkedTick(t, states[1], outcomes[1], times[2]);
    }
    if Overdue(states[0], times[k]) {
      StuckForEver(t, states, outcomes, times, gap, k, i);
    } else {
      ClosedForEver(t, states, outcomes, times, gap, k, i);
    }
  }

  /** The failing case is met: a half-close waits for its answer when the reset comes. */
  lemma SomeMarkedResetIsStuck(t: Tuning, isClient: bool) returns (e: Endpoint, now: int)
    ensures Inv(t, e, 0) && !e.life.closed && !e.life.isVirtual && !e.deferral.active
    ensures 0 <= now && Overdue(MarkRstReceived(e), now)
  {
    var e0 := S.Fresh(false, isClient, 0);
    e, now := Emit(t, e0, PACKET_STREAM_CLOSE_WRITE, "requested", 0), t.ackWait + 1;
    FreshHolds(t, false, isClient, 0);
    EmitKeeps(t, e0, PACKET_STREAM_CLOSE_WRITE, "requested", 0);
  }
}
