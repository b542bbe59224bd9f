/**
 What the close machine does when something happens, as opposed to what it never does: terminal packets
 go out, their answers are heeded, and a finished handshake closes the stream.
 */
module ArqAnswers {
  import opened Wire16
  import opened ArqData
  import opened Octets
  import opened Enums
  import opened ArqClose
  import opened ArqCloseSafety

  /** Neither closed nor virtual. */
  predicate Alive(e: Endpoint) {
    !e.life.closed && !e.life.isVirtual
  }

  // ------------------------------------------------------------------
  // Terminal packets go out
  // ------------------------------------------------------------------

  /** What stands in the way of a terminal packet: it was sent before, or a reset passed in either direction. */
  predicate Blocked(h: Handshake, p: PacketType) {
    SentFlag(h, p) || h.rstSent || h.rstReceived
  }

  /** The packet is on its way: first in its kind, flagged, tracked and waited for, unless that closed the stream. */
  predicate GoneOut(t: Tuning, e: Endpoint, e': Endpoint, p: PacketType, now: int) {
    && e'.firstSent == e.firstSent + [p] && SentFlag(e'.hs, p)
    && (t.reliableControl ==> ControlKey(p, 0, 0) in e'.tracked)
    && (e'.life.closed || e'.wait == AckWait(true, p, Some(now + t.ackWait)))
    && e'.local.stopRead && e'.deferral == NO_DEFERRAL && !e'.life.isVirtual
    && (forall k :: k in e'.tracked ==> k in e.tracked || k == ControlKey(p, 0, 0))
    && (e'.hs.closeReadAcked <==> e.hs.closeReadAcked) && (e'.hs.closeWriteAcked <==> e.hs.closeWriteAcked)
    && (e'.hs.closeWriteReceived <==> e.hs.closeWriteReceived) && (e'.snd == e.snd || e'.snd.sndBuf == map[])
  }

  /** Only the reason and a pending drain may have changed. */
  predicate HeldBack(e: Endpoint, e': Endpoint) {
    && e'.firstSent == e.firstSent && e'.hs == e.hs && e'.wait == e.wait && e'.tracked == e.tracked && e'.snd == e.snd
    && (e.local.stopRead ==> e'.local.stopRead) && Alive(e')
  }

  /** A terminal packet goes out exactly unless something stands in its way. */
  lemma Emitting(t: Tuning, e: Endpoint, p: PacketType, reason: string, now: int)
    requires Inv(t, e, now) && Alive(e) && IsTerminal(p)
    ensures var e' := Emit(t, e, p, reason, now);
            if Blocked(e.hs, p)
            then HeldBack(e, e') && e'.local.stopRead && e'.deferral == NO_DEFERRAL
            else GoneOut(t, e, e', p, now)
  {
    var e1 := BeginEmit(e, reason);
    if !Blocked(e.hs, p) && p == PACKET_STREAM_CLOSE_READ {
      ExaminedOutcome(FlagCloseReadSent(StartWaiting(t, e1, p, now)));
    }
  }

  /** With data unacknowledged, the packet waits for the drain; otherwise it goes out at once. */
  lemma Deferring(t: Tuning, e: Endpoint, p: PacketType, reason: string, now: int)
    requires Inv(t, e, now) && Alive(e) && (p == PACKET_STREAM_CLOSE_READ || p == PACKET_STREAM_CLOSE_WRITE)
    ensures var e' := DeferTerminal(t, e, p, now);
            if e.snd.sndBuf != map[]
            then && e'.deferral.active && e'.deferral.packet == p && e'.deferral.deadline.Some?
                 && e'.deferral.deadline.value >= now + t.drainTimeout
                 && HeldBack(e, e') && e'.local.stopRead
            else if Blocked(e.hs, p) then HeldBack(e, e')
            else GoneOut(t, e, e', p, now)
  {
    if e.snd.sndBuf == map[] {
      var e1 := WithoutDeferral(WithDeferral(t, e, p, now));
      WithDeferralKeeps(t, e, p, now);
      WithoutDeferralKeeps(t, WithDeferral(t, e, p, now), now);
      Emitting(t, e1, p, "drain settled", now);
    }
  }

  // ------------------------------------------------------------------
  // Answers to terminal packets
  // ------------------------------------------------------------------

  /** Packet `p` is on the list of tracked packets, or its answer is waited for. */
  predicate Expected(e: Endpoint, p: PacketType) {
    (exists k :: k in e.tracked && k.packetType == p) || (e.wait.active && e.wait.packet == p)
  }

  predicate AckedFlag(h: Handshake, p: PacketType) {
    || (p == PACKET_STREAM_CLOSE_READ && h.closeReadAcked)
    || (p == PACKET_STREAM_CLOSE_WRITE && h.closeWriteAcked)
    || (p == PACKET_STREAM_RST && h.rstAcked)
  }

  /** The packet an acknowledgement type answers, for the terminal packets. */
  function AnswerTo(p: PacketType): PacketType {
    if p == PACKET_STREAM_CLOSE_READ then PACKET_STREAM_CLOSE_READ_ACK
    else if p == PACKET_STREAM_CLOSE_WRITE then PACKET_STREAM_CLOSE_WRITE_ACK
    else PACKET_STREAM_RST_ACK
  }

  /** An expected answer to a terminal packet raises its flag, ends the wait and stops the retransmission. */
  lemma AnswerIsHeeded(t: Tuning, e: Endpoint, p: PacketType, sn: Seq16, fragment: Byte, before: int, now: int)
    requires Inv(t, e, before) && before <= now && Alive(e) && IsTerminal(p) && Expected(e, p)
    ensures var e' := ControlAcked(t, e, AnswerTo(p), sn, fragment, now);
            && AckedFlag(e'.hs, p)
            && !(e'.wait.active && e'.wait.packet == p)
            && (forall k :: k in e'.tracked ==> k.packetType != p)
            && (p == PACKET_STREAM_RST ==> e'.life.closed)
  {
    ClockMoves(t, e, before, now);
    var e1 := NoteControlAck(e, ControlKey(p, sn, fragment), now);
    assert IsTracked(e, ControlKey(p, sn, fragment)) || (e.wait.active && e.wait.packet == p);
    AckedWasSent(t, e, ControlKey(p, sn, fragment), now);
    NoteControlAckKeeps(t, e, ControlKey(p, sn, fragment), now);
    if p == PACKET_STREAM_CLOSE_WRITE {
      CloseWriteAnswered(t, e1, now);
    } else if p == PACKET_STREAM_CLOSE_READ {
      CloseReadAnswered(t, e1, now);
    }
  }

  lemma CloseReadAnswered(t: Tuning, e: Endpoint, now: int)
    requires Inv(t, e, now) && Alive(e) && (forall k :: k in e.tracked ==> k.packetType != PACKET_STREAM_CLOSE_READ)
    ensures var e' := Acknowledged(t, e, PACKET_STREAM_CLOSE_READ, now);
            && e'.hs.closeReadAcked && e'.closeReadAckedAt == Some(now)
            && !(e'.wait.active && e'.wait.packet == PACKET_STREAM_CLOSE_READ)
            && (forall k :: k in e'.tracked ==> k.packetType != PACKET_STREAM_CLOSE_READ)
  {
    ExaminedOutcome(SettleCloseReadAck(e, now));
  }

  /** Examining the close leaves the endpoint alone or closes it. */
  lemma ExaminedOutcome(e: Endpoint)
    requires Alive(e)
    ensures var e' := TryFinalizeRemoteEOF(e);
            e' == e || (&& e'.life.closed && e'.hs == e.hs && e'.wait == NO_WAIT && e'.tracked == {}
                        && e'.firstSent == e.firstSent && e'.closeReadAckedAt == e.closeReadAckedAt
                        && e'.deferral == NO_DEFERRAL && e'.local == e.local && e'.snd.sndBuf == map[])
  {
  }

  /** The answer to CLOSE_WRITE also makes a client close its reading side. */
  lemma CloseWriteAnswered(t: Tuning, e: Endpoint, now: int)
    requires Inv(t, e, now) && Alive(e) && e.hs.closeWriteSent
    requires forall k :: k in e.tracked ==> k.packetType != PACKET_STREAM_CLOSE_WRITE
    ensures var e' := Acknowledged(t, e, PACKET_STREAM_CLOSE_WRITE, now);
            && e'.hs.closeWriteAcked
            && !(e'.wait.active && e'.wait.packet == PACKET_STREAM_CLOSE_WRITE)
            && (forall k :: k in e'.tracked ==> k.packetType != PACKET_STREAM_CLOSE_WRITE)
            && (e.isClient && !e.hs.rstSent && !e.hs.rstReceived && !e.hs.closeReadReceived && !e'.life.closed ==>
                  e'.hs.closeReadSent || (e'.deferral.active && e'.deferral.packet == PACKET_STREAM_CLOSE_READ))
  {
    var e1 := SettleCloseWriteAck(e);
    SettleCloseWriteAckKeeps(t, e, now);
    ClientFollows(t, e1, now);
    var e2 := CloseReadAfterWriterBreak(t, e1, now);
    if Alive(e2) {
      ExaminedOutcome(e2);
    }
  }

  lemma ClientFollows(t: Tuning, e: Endpoint, now: int)
    requires Inv(t, e, now) && Alive(e) && e.hs.closeWriteAcked && e.local.writerBroken
    requires forall k :: k in e.tracked ==> k.packetType != PACKET_STREAM_CLOSE_WRITE
    ensures var e' := CloseReadAfterWriterBreak(t, e, now);
            && e'.hs.closeWriteAcked && !e'.life.isVirtual
            && !(e'.wait.active && e'.wait.packet == PACKET_STREAM_CLOSE_WRITE)
            && (forall k :: k in e'.tracked ==> k.packetType != PACKET_STREAM_CLOSE_WRITE)
            && (e.isClient && !e.hs.rstSent && !e.hs.rstReceived && !e.hs.closeReadReceived && !e'.life.closed ==>
                  e'.hs.closeReadSent || (e'.deferral.active && e'.deferral.packet == PACKET_STREAM_CLOSE_READ))
  {
    if e.isClient && !e.hs.rstSent && !e.hs.rstReceived && !e.hs.closeReadSent && !e.hs.closeReadReceived {
      if e.snd.sndBuf != map[] || e.local.writePending {
        Deferring(t, e, PACKET_STREAM_CLOSE_READ, "Client local endpoint disconnected after write side closed", now);
      } else {
        Emitting(t, e, PACKET_STREAM_CLOSE_READ, "Client local endpoint disconnected after write side closed", now);
      }
    }
  }

  /** An answer that nobody waits for changes nothing. */
  lemma StrayAnswerIsIgnored(t: Tuning, e: Endpoint, p: PacketType, sn: Seq16, fragment: Byte, now: int)
    requires IsTerminal(p) && Inv(t, e, now) && !Expected(e, p)
    ensures ControlAcked(t, e, AnswerTo(p), sn, fragment, now) == e
  {
  }

  /** Once an expected answer has come, its packet is never waited for again: no later tick finds it overdue. */
  lemma AnsweredForGood(t: Tuning, states: seq<Endpoint>, events: seq<Event>, clocks: seq<int>, p: PacketType, sn: Seq16, fragment: Byte,
                        i: nat, j: nat)
    requires Run(t, states, events, clocks) && i < j < |states|
    requires IsTerminal(p) && events[i] == ControlAckReceived(AnswerTo(p), sn, fragment)
    requires Alive(states[i]) && Expected(states[i], p)
    ensures AckedFlag(states[j].hs, p) && !(states[j].wait.active && states[j].wait.packet == p)
    ensures p == PACKET_STREAM_RST ==> states[j].life.closed
  {
    Reachable(t, states, events, clocks, i);
    assert RunStep(t, states[i], events[i], states[i + 1], clocks[i], clocks[i + 1]);
    AnswerIsHeeded(t, states[i], p, sn, fragment, clocks[i], clocks[i + 1]);
    FlagsAreMonotone(t, states, events, clocks, i + 1, j);
    Reachable(t, states, events, clocks, j);
  }

  // ------------------------------------------------------------------
  // Drains
  // ------------------------------------------------------------------

  /** A drain ends with its own packet on an empty send buffer, and with a reset when its time is over. */
  lemma DrainEnds(t: Tuning, e: Endpoint, before: int, now: int)
    requires Inv(t, e, before) && before <= now && Alive(e) && e.deferral.active
    ensures var e', p := SettleDrain(t, e, now), if e.snd.sndBuf == map[] then e.deferral.packet else PACKET_STREAM_RST;
            if e.snd.sndBuf != map[] && now <= e.deferral.deadline.value then e' == e
            else if Blocked(e.hs, p) then HeldBack(e, e') && !e'.deferral.active
            else GoneOut(t, e, e', p, now)
  {
    ClockMoves(t, e, before, now);
    var p := if e.snd.sndBuf == map[] then e.deferral.packet else PACKET_STREAM_RST;
    var e1 := WithoutDeferral(e);
    WithoutDeferralKeeps(t, e, now);
    if p == PACKET_STREAM_RST {
      Resetting(t, e1, "drain settled", now);
    } else {
      Emitting(t, e1, p, "drain settled", now);
    }
  }

  /** A reset goes out exactly unless one was sent, received, or waits for the drain. */
  lemma Resetting(t: Tuning, e: Endpoint, reason: string, now: int)
    requires Inv(t, e, now) && Alive(e)
    ensures var e' := CloseReset(t, e, reason, now);
            if Blocked(e.hs, PACKET_STREAM_RST) || (e.deferral.active && e.deferral.packet == PACKET_STREAM_RST) then e' == e
            else GoneOut(t, e, e', PACKET_STREAM_RST, now)
  {
    if !AlreadyResetting(e) {
      BeginResetKeeps(t, e, reason, now);
      Emitting(t, BeginReset(e, reason), PACKET_STREAM_RST, reason, now);
    }
  }

  /** The acknowledgement of the last chunk ends the drain. */
  lemma LastAckEndsDrain(t: Tuning, e: Endpoint, sn: Seq16, before: int, now: int)
    requires Inv(t, e, before) && before <= now && Alive(e) && e.deferral.active
    requires sn in e.snd.sndBuf && e.snd.sndBuf.Keys == {sn}
    ensures var e' := Handle(t, e, AckReceived(sn), now);
            || e'.life.closed
            || (Blocked(e.hs, e.deferral.packet) && e'.firstSent == e.firstSent && !e'.deferral.active)
            || GoneOut(t, e, e', e.deferral.packet, now)
  {
    ClockMoves(t, e, before, now);
    var e1 := NoteDataAck(e, sn, now);
    NoteDataAckKeeps(t, e, sn, now);
    ExaminedOutcome(e1);
    assert e1.snd.sndBuf == map[];
    DrainEnds(t, e1, now, now);
  }

  // ------------------------------------------------------------------
  // Requests and events
  // ------------------------------------------------------------------

  /** The packet that close options ask for; CLOSE_READ comes first. */
  function Requested(o: CloseOptions): PacketType {
    if o.sendCloseRead then PACKET_STREAM_CLOSE_READ
    else if o.sendCloseWrite then PACKET_STREAM_CLOSE_WRITE
    else PACKET_STREAM_RST
  }

  /** What each way of closing does to a live endpoint. */
  lemma CloseActs(t: Tuning, e: Endpoint, reason: string, o: CloseOptions, now: int)
    requires Inv(t, e, now) && Alive(e)
    ensures var e' := Close(t, e, reason, o, now);
            if o.force || (!o.sendRst && !o.sendCloseRead && !o.sendCloseWrite)
            then e'.life.closed && e'.life.closeReason == reason
            else
              var p := Requested(o);
              if o.afterDrain && p != PACKET_STREAM_CLOSE_WRITE && e.snd.sndBuf != map[] && !(p == PACKET_STREAM_RST && AlreadyResetting(e))
              then Alive(e') && e'.deferral.active && e'.deferral.packet == p && e'.firstSent == e.firstSent
              else if Blocked(e.hs, p) || (p == PACKET_STREAM_RST && AlreadyResetting(e))
              then e'.firstSent == e.firstSent && e'.hs == e.hs && Alive(e')
              else GoneOut(t, e, e', p, now)
  {
    Emitting(t, e, PACKET_STREAM_CLOSE_READ, reason, now);
    Emitting(t, e, PACKET_STREAM_CLOSE_WRITE, reason, now);
    Deferring(t, e, PACKET_STREAM_CLOSE_READ, reason, now);
    Resetting(t, e, reason, now);
  }

  /** The end of the local stream is announced: at once with nothing unacknowledged, otherwise after the drain. */
  lemma EndOfStreamIsAnnounced(t: Tuning, e: Endpoint, before: int, now: int)
    requires Inv(t, e, before) && before <= now && Alive(e) && !Blocked(e.hs, PACKET_STREAM_CLOSE_READ)
    ensures var e' := Handle(t, e, LocalEOF, now);
            && e'.local.stopRead
            && (e.isClient && e.clientEOFAt.None? ==> e'.clientEOFAt == Some(now))
            && if e.snd.sndBuf == map[] then GoneOut(t, e, e', PACKET_STREAM_CLOSE_READ, now)
               else Alive(e') && e'.deferral.active && e'.deferral.packet == PACKET_STREAM_CLOSE_READ && e'.firstSent == e.firstSent
  {
    ClockMoves(t, e, before, now);
    NoteClientEOFKeeps(t, e, now);
    Deferring(t, NoteClientEOF(e, now), PACKET_STREAM_CLOSE_READ, "Local App Closed Connection (EOF)", now);
  }

  /** A broken writer is reported to the peer, and what was received for it is dropped. */
  lemma BrokenWriterIsReported(t: Tuning, e: Endpoint, before: int, now: int)
    requires Inv(t, e, before) && before <= now && Alive(e) && !Blocked(e.hs, PACKET_STREAM_CLOSE_WRITE)
    ensures var e' := Handle(t, e, WriterBroke, now);
            e'.local.writerBroken && e'.rcv.rcvBuf == map[] && GoneOut(t, e, e', PACKET_STREAM_CLOSE_WRITE, now)
  {
    ClockMoves(t, e, before, now);
    WriterBrokenKeeps(t, e, now);
    Emitting(t, MarkLocalWriterBroken(e), PACKET_STREAM_CLOSE_WRITE, "Local App Write Error", now);
  }

  /** A peer that stops receiving ends the outbound data, and a pending drain with it. */
  lemma PeerCloseWriteEndsSending(t: Tuning, e: Endpoint, before: int, now: int)
    requires Inv(t, e, before) && before <= now && Alive(e)
    ensures var e' := Handle(t, e, CloseWriteReceived, now);
            && e'.hs.closeWriteReceived && e'.local.stopRead && e'.snd.sndBuf == map[] && !e'.deferral.active
            && (e.deferral.active && !Blocked(e.hs, e.deferral.packet) ==> e.deferral.packet in e'.firstSent)
  {
    ClockMoves(t, e, before, now);
    var e1 := FlagCloseWriteReceived(e);
    FlagCloseWriteReceivedKeeps(t, e, now);
    var e2 := SettleDrain(t, e1, now);
    PeerEndsDrain(t, e1, now);
    if Alive(e2) {
      ExaminedOutcome(e2);
    }
  }

  /** With the send buffer given up, a drain is over. */
  lemma PeerEndsDrain(t: Tuning, e: Endpoint, now: int)
    requires Inv(t, e, now) && Alive(e) && e.snd.sndBuf == map[] && e.hs.closeWriteReceived && e.local.stopRead
    ensures var e' := SettleDrain(t, e, now);
            && e'.hs.closeWriteReceived && e'.local.stopRead && e'.snd.sndBuf == map[] && !e'.deferral.active
            && !e'.life.isVirtual && (e'.life.closed ==> TryFinalizeRemoteEOF(e') == e')
            && (e.deferral.active && !Blocked(e.hs, e.deferral.packet) ==> e.deferral.packet in e'.firstSent)
  {
    if e.deferral.active {
      DrainEnds(t, e, now, now);
    }
  }

  lemma PeerResetCloses(t: Tuning, e: Endpoint, now: int)
    requires Alive(e)
    ensures var e' := Handle(t, e, ResetReceived, now);
            e'.life.closed && e'.hs.rstReceived && e'.life.state == Reset && e'.snd.sndBuf == map[] && e'.rcv.rcvBuf == map[]
  {
  }

  /** Both directions are at an end: everything received was written, and both half-closes are settled. */
  predicate BothEnded(e: Endpoint) {
    && e.hs.closeReadReceived && e.hs.closeReadSent && !(e.wait.active && e.wait.packet == PACKET_STREAM_CLOSE_READ)
    && e.rcv.rcvBuf == map[] && e.local.pendingInbound == 0 && !e.local.writePending && !e.local.writerBroken
    && (e.hs.closeWriteSent ==> e.hs.closeWriteAcked)
  }

  /** Whichever comes last, the end of both directions closes the stream in good order. */
  lemma BothEndedCloses(t: Tuning, e: Endpoint, v: Event, now: int)
    requires Alive(e) && BothEnded(e)
    requires v.WriterIdle? || v.WriteFinished? || v.CloseReadReceived? || (v.AckReceived? && v.sn in e.snd.sndBuf)
    ensures var e' := Handle(t, e, v, now); e'.life.closed && e'.life.closeReason == HANDSHAKE_COMPLETED
  {
    if v.AckReceived? {
      EndedIsExamined(NoteDataAck(e, v.sn, now));
    } else if v.CloseReadReceived? {
      EndedIsExamined(FlagCloseReadReceived(e));
    } else if v.WriterIdle? {
      EndedIsExamined(HalfCloseLocalWriter(e));
    }
  }

  lemma EndedIsExamined(e: Endpoint)
    requires Alive(e) && BothEnded(e)
    ensures var e' := TryFinalizeRemoteEOF(e); e'.life.closed && e'.life.closeReason == HANDSHAKE_COMPLETED
  {
  }

  lemma LastAnswerCloses(t: Tuning, e: Endpoint, sn: Seq16, fragment: Byte, before: int, now: int)
    requires Inv(t, e, before) && Alive(e) && Expected(e, PACKET_STREAM_CLOSE_READ) && BothEnded(e.(wait := NO_WAIT))
    ensures var e' := ControlAcked(t, e, PACKET_STREAM_CLOSE_READ_ACK, sn, fragment, now);
            e'.life.closed && e'.life.closeReason == HANDSHAKE_COMPLETED
  {
  }

  /** A client whose local side is gone and settled: both half-closes answered, nothing left to send or to write. */
  predicate Disconnected(e: Endpoint) {
    && e.isClient && e.local.writerBroken && e.hs.closeWriteAcked && e.hs.closeReadSent
    && e.snd.sndBuf == map[] && e.rcv.rcvBuf == map[] && e.local.pendingInbound == 0 && !e.local.writePending
    && !e.deferral.active
  }

  /** Such a client closes, when the writer is next looked at or when the answer to CLOSE_READ comes. */
  lemma DisconnectedCloses(t: Tuning, e: Endpoint, sn: Seq16, fragment: Byte, now: int)
    requires Alive(e) && Disconnected(e)
    ensures e.hs.closeReadAcked && !e.wait.active ==> Handle(t, e, WriterIdle, now).life.closed
    ensures Expected(e, PACKET_STREAM_CLOSE_READ) && (e.wait.active ==> e.wait.packet == PACKET_STREAM_CLOSE_READ) ==>
              ControlAcked(t, e, PACKET_STREAM_CLOSE_READ_ACK, sn, fragment, now).life.closed
  {
  }

  // ------------------------------------------------------------------
  // Progress
  // ------------------------------------------------------------------

  /** Settling a drain is no progress of its own. */
  lemma SettlingIsNoProgress(t: Tuning, e: Endpoint, now: int)
    ensures SettleDrain(t, e, now).lastProgress == e.lastProgress
  {
  }

  /** An acknowledged chunk is forgotten and puts the inactivity timeout off. */
  lemma AckIsProgress(t: Tuning, e: Endpoint, sn: Seq16, now: int)
    requires Alive(e) && sn in e.snd.sndBuf
    ensures Handle(t, e, AckReceived(sn), now).lastProgress == now
  {
    var e1 := NoteDataAck(e, sn, now);
    ExaminationIsNoProgress(e1);
    SettlingIsNoProgress(t, if e1.hs.closeReadReceived then TryFinalizeRemoteEOF(e1) else e1, now);
  }

  lemma ExaminationIsNoProgress(e: Endpoint)
    ensures TryFinalizeRemoteEOF(e).lastProgress == e.lastProgress
  {
  }

  /** So does the expected answer to a terminal packet. */
  lemma AnswerIsProgress(t: Tuning, e: Endpoint, p: PacketType, sn: Seq16, fragment: Byte, now: int)
    requires Alive(e) && IsTerminal(p) && Expected(e, p)
    ensures ControlAcked(t, e, AnswerTo(p), sn, fragment, now).lastProgress == now
  {
    var e1 := NoteControlAck(e, ControlKey(p, sn, fragment), now);
    assert IsTracked(e, ControlKey(p, sn, fragment)) || (e.wait.active && e.wait.packet == p);
    if p == PACKET_STREAM_CLOSE_READ {
      ExaminationIsNoProgress(SettleCloseReadAck(e1, now));
    } else if p == PACKET_STREAM_CLOSE_WRITE {
      FollowingIsNoProgress(t, SettleCloseWriteAck(e1), now);
      ExaminationIsNoProgress(CloseReadAfterWriterBreak(t, SettleCloseWriteAck(e1), now));
    }
  }

  lemma FollowingIsNoProgress(t: Tuning, e: Endpoint, now: int)
    ensures CloseReadAfterWriterBreak(t, e, now).lastProgress == e.lastProgress
  {
    SettlingIsNoProgress(t, WithDeferral(t, e, PACKET_STREAM_CLOSE_READ, now), now);
  }

  // ------------------------------------------------------------------
  // States
  // ------------------------------------------------------------------

  /** The peer's end of stream is noted, and half-closes the local writer once all that was received is written. */
  lemma PeerEndReachesWriter(t: Tuning, e: Endpoint, now: int)
    requires Alive(e)
    ensures Handle(t, e, CloseReadReceived, now).hs.closeReadReceived
    ensures Handle(t, e, WriterIdle, now).local.writeClosed
       <==> e.local.writeClosed || (e.hs.closeReadReceived && e.local.pendingInbound == 0)
  {
  }

  /** The state an endpoint shows while it closes: by the half-closes seen so far, a reset above all, a drain in between. */
  lemma StatesFollow(t: Tuning, e: Endpoint, before: int, now: int)
    requires Inv(t, e, before) && before <= now && Alive(e)
    ensures var e' := Emit(t, e, PACKET_STREAM_CLOSE_READ, "", now);
            !Blocked(e.hs, PACKET_STREAM_CLOSE_READ) && Alive(e') ==>
              e'.life.state == if e.hs.closeReadReceived then Closing else HalfClosedLocal
    ensures var e' := MarkCloseReadReceived(e);
            Alive(e') ==> e'.life.state == if e.hs.closeReadSent then Closing else HalfClosedRemote
    ensures var e' := CloseReset(t, e, "", now); !AlreadyResetting(e) ==> e'.life.state == Reset
    ensures var e' := DeferTerminal(t, e, PACKET_STREAM_CLOSE_READ, now);
            e.snd.sndBuf != map[] ==> e'.life.state == if e.life.state.Reset? || e.life.state.Closed? then e.life.state else Draining
    ensures var e' := FinalizeClose(e, "");
            && e'.life.closed
            && (e.hs.rstSent || e.hs.rstReceived ==> e'.life.state == Reset)
            && (!e.hs.rstSent && !e.hs.rstReceived && !e.life.state.Reset? && (e.hs.closeReadSent || e.hs.closeReadReceived) ==>
                  e'.life.state == TimeWait)
  {
    ExaminedOutcome(FlagCloseReadSent(StartWaiting(t, BeginEmit(e, ""), PACKET_STREAM_CLOSE_READ, now)));
  }
}
