/** The timers of the close machine, to the tick: nothing happens before its time, and then it does. */
module ArqTimers {
  import opened Wire16
  import opened ArqData
  import opened Enums
  import opened ArqClose
  import opened ArqCloseSafety
  import opened ArqTeardown
  import opened ArqAnswers

  /** A tick at which nothing was retransmitted past its limits. */
  ghost predicate QuietRun(t: Tuning, states: seq<Endpoint>, times: seq<int>, gap: nat) {
    |states| > 0 && TickRun(t, states, seq(|states| - 1, _ => Quiet), times, gap)
  }

  lemma QuietStep(t: Tuning, states: seq<Endpoint>, times: seq<int>, gap: nat, i: nat)
    requires QuietRun(t, states, times, gap) && i + 1 < |states|
    ensures times[i] <= times[i + 1] && states[i + 1] == Tick(t, states[i], Quiet, times[i + 1])
  {
    var outcomes := seq(|states| - 1, _ => Quiet);
    assert outcomes[i] == Quiet;
    assert TickStep(t, states[i], outcomes[i], states[i + 1], times[i], times[i + 1], gap);
  }

  /** A client that got the answer to its CLOSE_READ gives the peer two seconds before it sends CLOSE_WRITE. */
  predicate GraceRuns(e: Endpoint) {
    && e.isClient && e.hs.closeReadSent && e.hs.closeReadAcked
    && !e.hs.closeWriteSent && !e.hs.closeWriteReceived && !e.hs.rstSent
  }

  /** When something is due, for a live endpoint: the end of the drain, of the wait, of the grace or of the patience. */
  function Alarm(t: Tuning, e: Endpoint): int {
    if e.deferral.active then if e.deferral.deadline.Some? then e.deferral.deadline.value else 0
    else
      var patience := e.lastProgress + t.inactivity;
      var first := if e.wait.active && e.wait.deadline.Some? && e.wait.deadline.value < patience then e.wait.deadline.value else patience;
      var grace := GraceEnd(e);
      if GraceRuns(e) && grace.Some? && grace.value - 1 < first then grace.value - 1 else first
  }

  /** Two seconds after the local end of stream or the answer to CLOSE_READ, whichever came first. */
  function GraceEnd(e: Endpoint): Option<int> {
    if e.clientEOFAt.None? then if e.closeReadAckedAt.None? then None else Some(e.closeReadAckedAt.value + 2_000_000_000)
    else if e.closeReadAckedAt.None? || e.clientEOFAt.value <= e.closeReadAckedAt.value then Some(e.clientEOFAt.value + 2_000_000_000)
    else Some(e.closeReadAckedAt.value + 2_000_000_000)
  }

  /** Something is left for a timer to do: an RST that was sent is only waited for. */
  predicate Armed(e: Endpoint) {
    !e.hs.rstSent && (e.deferral.active ==> e.snd.sndBuf != map[])
  }

  /** Before the alarm a tick changes nothing. */
  lemma NothingBeforeAlarm(t: Tuning, e: Endpoint, last: int, now: int)
    requires Inv(t, e, last) && last <= now && Alive(e) && Armed(e) && now <= Alarm(t, e)
    ensures Tick(t, e, Quiet, now) == e
  {
  }

  /** After it, a terminal packet goes out: CLOSE_WRITE when the grace is over, otherwise RST. */
  lemma AlarmGoesOff(t: Tuning, e: Endpoint, last: int, now: int)
    requires Inv(t, e, last) && last <= now && Alive(e) && Armed(e) && now > Alarm(t, e)
    ensures var e' := Tick(t, e, Quiet, now);
            var overdue := e.wait.active && now > e.wait.deadline.value;
            var grace := GraceEnd(e);
            if !e.deferral.active && !overdue && GraceRuns(e) && grace.Some? && now >= grace.value
            then GoneOut(t, e, e', PACKET_STREAM_CLOSE_WRITE, now)
            else GoneOut(t, e, e', PACKET_STREAM_RST, now)
  {
    ClockMoves(t, e, last, now);
    if e.deferral.active {
      DrainEnds(t, e, now, now);
    } else if e.wait.active && now > e.wait.deadline.value {
      Resetting(t, e, "Close handshake ACK wait timeout", now);
    } else if GraceElapsed(e, now) {
      Emitting(t, e, PACKET_STREAM_CLOSE_WRITE, "Client close-read grace elapsed", now);
    } else {
      Resetting(t, e, "Stream Inactivity Timeout", now);
    }
  }

  /** An unanswered RST closes the stream when its wait is over, and not before. */
  lemma RstWaitsItsTime(t: Tuning, e: Endpoint, last: int, now: int)
    requires Inv(t, e, last) && last <= now && Alive(e) && e.hs.rstSent && !e.deferral.active
    ensures e.wait.active && e.wait.deadline.Some?
    ensures var e' := Tick(t, e, Quiet, now); if now > e.wait.deadline.value then e'.life.closed else e' == e
  {
  }

  /** Over a run of quiet ticks: the endpoint stays as it is exactly until the first tick behind its alarm. */
  lemma {:induction false} AlarmToTheTick(t: Tuning, states: seq<Endpoint>, times: seq<int>, gap: nat, i: nat)
    requires QuietRun(t, states, times, gap) && i < |states|
    requires Inv(t, states[0], times[0]) && Alive(states[0]) && Armed(states[0])
    ensures times[i] <= Alarm(t, states[0]) || i == 0 ==> states[i] == states[0] && Inv(t, states[i], times[i])
    ensures i > 0 && times[i - 1] <= Alarm(t, states[0]) < times[i] ==>
              states[i].life.closed || states[i].firstSent != states[0].firstSent
    decreases i
  {
    if i > 0 {
      AlarmToTheTick(t, states, times, gap, i - 1);
      QuietStep(t, states, times, gap, i - 1);
      if states[i - 1] == states[0] && Inv(t, states[i - 1], times[i - 1]) {
        ClockMoves(t, states[0], times[i - 1], times[i]);
        if times[i] <= Alarm(t, states[0]) {
          NothingBeforeAlarm(t, states[0], times[i - 1], times[i]);
        } else {
          AlarmGoesOff(t, states[0], times[i - 1], times[i]);
        }
      }
    }
  }

  /** A packet that ends its stream when it expires. */
  predicate EndsStream(p: PacketType) {
    p == PACKET_STREAM_RST || p == PACKET_STREAM_CONNECT_FAIL
    || (PACKET_SOCKS5_CONNECT_FAIL <= p <= PACKET_SOCKS5_UPSTREAM_UNAVAILABLE && p % 2 == 0)
  }

  /** Before the alarm, a packet that ran out of time or retries resets the stream, or ends it if that was its purpose. */
  lemma ExpiryActs(t: Tuning, e: Endpoint, outcome: TickOutcome, last: int, now: int)
    requires Inv(t, e, last) && last <= now && Alive(e) && Armed(e) && now <= Alarm(t, e) && !e.hs.rstReceived
    requires !(e.deferral.active && e.deferral.packet == PACKET_STREAM_RST)
    requires outcome.DataExpired? || (outcome.ControlExpired? && outcome.key in e.tracked)
    requires TickPossible(t, e, outcome, now)
    ensures var e' := Tick(t, e, outcome, now);
            if outcome.ControlExpired? && EndsStream(outcome.key.packetType) then e'.life.closed
            else GoneOut(t, e, e', PACKET_STREAM_RST, now)
  {
    ClockMoves(t, e, last, now);
    NothingBeforeAlarm(t, e, last, now);
    if outcome.DataExpired? {
      Resetting(t, e, "Max retransmissions exceeded", now);
    } else {
      DropTrackedKeeps(t, e, outcome.key, now);
      Resetting(t, DropTracked(e, outcome.key), "Packet TTL expired", now);
    }
  }
}
