/** What the close machine leaves alone in the data plane, operation by operation. */
module ArqFrame {
  import opened Wire16
  import opened ArqData
  import opened Octets
  import opened Enums
  import opened ArqClose
  import opened ArqCloseSafety

  predicate HandshakeClosed(e: Endpoint) {
    e.life.closed && e.life.closeReason == HANDSHAKE_COMPLETED
  }

  /** The peer's CLOSE_READ was or will be put on the network. */
  predicate Announced(e: Endpoint) {
    PACKET_STREAM_CLOSE_READ in e.firstSent
  }

  /** No reset and no CLOSE_WRITE from the peer: the outbound data was not given up. */
  predicate SendsCalmly(h: Handshake) {
    !h.rstSent && !h.rstReceived && !h.closeWriteReceived
  }

  /** No reset, no own CLOSE_WRITE and a working writer: the inbound data was not given up. */
  predicate ReceivesCalmly(e: Endpoint) {
    !e.hs.rstSent && !e.hs.rstReceived && !e.hs.closeWriteSent && !e.local.writerBroken
  }

  predicate Monotone(e: Endpoint, e': Endpoint) {
    && Rises(e.hs, e'.hs)
    && (e.local.writerBroken ==> e'.local.writerBroken)
    && (e.local.stopRead ==> e'.local.stopRead)
    && (e'.hs.closeReadReceived ==> e.hs.closeReadReceived)
    && (!e.life.isVirtual ==> !e'.life.isVirtual)
    && (e.life.closed ==> e'.life.closed && e'.life.closeReason == e.life.closeReason && e'.firstSent == e.firstSent)
    && (Announced(e) ==> Announced(e'))
  }

  /** Outbound data survives, and CLOSE_READ is announced only over an empty send buffer. */
  predicate KeepsOutbound(e: Endpoint, e': Endpoint) {
    && (e'.snd == e.snd || e'.snd == e.snd.(sndBuf := map[]))
    && (SendsCalmly(e'.hs) ==>
          && (e'.snd == e.snd || e'.life.closed)
          && (Announced(e') && !Announced(e) ==> e.snd.sndBuf == map[] && e'.local.stopRead))
  }

  /** Inbound data survives, and the handshake close happens only with nothing left to hand over. */
  predicate KeepsInbound(e: Endpoint, e': Endpoint) {
    && (e'.rcv == e.rcv || e'.rcv == e.rcv.(rcvBuf := map[]))
    && (ReceivesCalmly(e') ==>
          && (e'.rcv == e.rcv || e'.life.closed)
          && e'.local.writePending == e.local.writePending && e'.local.writeClosed == e.local.writeClosed
          && (HandshakeClosed(e') && !e.life.closed ==>
                e.rcv.rcvBuf == map[] && !e.local.writePending && e'.hs.closeReadReceived))
  }

  predicate Frame(e: Endpoint, e': Endpoint) {
    Monotone(e, e') && KeepsOutbound(e, e') && KeepsInbound(e, e')
  }

  lemma FrameThen(e: Endpoint, e1: Endpoint, e2: Endpoint)
    requires Frame(e, e1) && Frame(e1, e2)
    ensures Frame(e, e2)
  {
  }

  /** Closing state aside, data is left alone, or given up (`out`, `inn`) together with the flag that says so. */
  predicate Steady(e: Endpoint, e': Endpoint) {
    && e'.firstSent == e.firstSent
    && SameLife(e.life, e'.life) && Rises(e.hs, e'.hs) && e'.hs.closeReadReceived == e.hs.closeReadReceived
    && (e.local.writerBroken ==> e'.local.writerBroken) && (e.local.stopRead ==> e'.local.stopRead)
  }

  predicate Outbound(e: Endpoint, e': Endpoint, out: bool) {
    if out then e'.snd == e.snd.(sndBuf := map[]) && !SendsCalmly(e'.hs) else e'.snd == e.snd
  }

  predicate Inbound(e: Endpoint, e': Endpoint, inn: bool) {
    if inn then !ReceivesCalmly(e') && e'.rcv == e.rcv.(rcvBuf := map[])
    else e'.rcv == e.rcv && (ReceivesCalmly(e') ==>
           e'.local.writePending == e.local.writePending && e'.local.writeClosed == e.local.writeClosed)
  }

  predicate SameLife(l: Life, l': Life) {
    l'.closed == l.closed && (l.closed ==> l'.closeReason == l.closeReason) && l'.isVirtual == l.isVirtual
  }

  lemma UpdateFrame(e: Endpoint, e': Endpoint, out: bool, inn: bool)
    requires Steady(e, e') && Outbound(e, e', out) && Inbound(e, e', inn)
    ensures Frame(e, e')
  {
  }

  lemma FinalizeFrame(e: Endpoint, reason: string)
    requires reason != HANDSHAKE_COMPLETED
    ensures Frame(e, FinalizeClose(e, reason))
  {
  }

  lemma HandshakeFrame(e: Endpoint)
    requires RemoteEOFDone(e)
    ensures Frame(e, FinalizeClose(e, HANDSHAKE_COMPLETED))
  {
  }

  lemma TryFinalizeFrame(e: Endpoint)
    ensures Frame(e, TryFinalizeRemoteEOF(e))
  {
    if RemoteEOFDone(e) {
      HandshakeFrame(e);
    } else if LocalDisconnectDone(e) {
      FinalizeFrame(e, "client local disconnect completed");
    }
  }

  lemma BeginFrame(e: Endpoint, reason: string)
    requires !e.life.closed
    ensures Frame(e, BeginEmit(e, reason)) && BeginEmit(e, reason).local.stopRead
    ensures Frame(e, BeginReset(e, reason))
  {
  }

  lemma FlagCloseReadFrame(t: Tuning, e: Endpoint, now: int)
    ensures Frame(e, FlagCloseReadSent(StartWaiting(t, e, PACKET_STREAM_CLOSE_READ, now)))
  {
    UpdateFrame(e, FlagCloseReadSent(StartWaiting(t, e, PACKET_STREAM_CLOSE_READ, now)), false, false);
  }

  lemma FlagCloseWriteFrame(t: Tuning, e: Endpoint, now: int)
    requires !e.life.closed
    ensures Frame(e, MarkCloseWriteSent(StartWaiting(t, e, PACKET_STREAM_CLOSE_WRITE, now)))
  {
    UpdateFrame(e, MarkCloseWriteSent(StartWaiting(t, e, PACKET_STREAM_CLOSE_WRITE, now)), false, true);
  }

  lemma FlagRstFrame(t: Tuning, e: Endpoint, now: int)
    requires !e.life.closed
    ensures Frame(e, MarkRstSent(StartWaiting(t, ClearQueues(e), PACKET_STREAM_RST, now)))
  {
    UpdateFrame(e, MarkRstSent(StartWaiting(t, ClearQueues(e), PACKET_STREAM_RST, now)), true, true);
  }

  /** Queueing the packet: only CLOSE_READ matters, and it needs an empty send buffer before the call. */
  lemma SendFrame(t: Tuning, e: Endpoint, e1: Endpoint, p: PacketType)
    requires Frame(e, e1) && e.local.stopRead && !e.life.closed
    requires p == PACKET_STREAM_CLOSE_READ ==> e.snd.sndBuf == map[]
    ensures Frame(e, SendTerminal(t, e1, p))
  {
    var e2 := SendTerminal(t, e1, p);
    assert forall x :: x in e2.firstSent ==> x in e1.firstSent || x == p;
  }

  lemma FlaggedFrame(t: Tuning, e: Endpoint, p: PacketType, now: int)
    requires IsTerminal(p) && !e.life.closed
    ensures Frame(e, Flagged(t, e, p, now))
  {
    if p == PACKET_STREAM_CLOSE_WRITE {
      FlagCloseWriteFrame(t, e, now);
    } else if p == PACKET_STREAM_RST {
      FlagRstFrame(t, e, now);
    } else {
      FlagCloseReadFrame(t, e, now);
      var e1 := FlagCloseReadSent(StartWaiting(t, e, p, now));
      TryFinalizeFrame(e1);
      FrameThen(e, e1, TryFinalizeRemoteEOF(e1));
    }
  }

  lemma EmitFrame(t: Tuning, e: Endpoint, p: PacketType, reason: string, now: int)
    requires IsTerminal(p) && (p == PACKET_STREAM_CLOSE_READ ==> e.snd.sndBuf == map[])
    ensures Frame(e, Emit(t, e, p, reason, now))
  {
    if !e.life.closed && !e.life.isVirtual {
      BeginFrame(e, reason);
      var e1 := BeginEmit(e, reason);
      if !WaitingFor(e1, p) && !e1.hs.rstSent && !e1.hs.rstReceived && !SentFlag(e1.hs, p) {
        FlaggedFrame(t, e1, p, now);
        SendFrame(t, e1, Flagged(t, e1, p, now), p);
        FrameThen(e, e1, SendTerminal(t, Flagged(t, e1, p, now), p));
      }
    }
  }

  lemma ResetFrame(t: Tuning, e: Endpoint, reason: string, now: int)
    ensures Frame(e, CloseReset(t, e, reason, now))
  {
    if !e.life.closed {
      BeginFrame(e, reason);
      EmitFrame(t, BeginReset(e, reason), PACKET_STREAM_RST, reason, now);
      FrameThen(e, BeginReset(e, reason), Emit(t, BeginReset(e, reason), PACKET_STREAM_RST, reason, now));
    }
  }

  lemma SettleFrame(t: Tuning, e: Endpoint, now: int)
    ensures Frame(e, SettleDrain(t, e, now))
  {
    if !e.life.closed && e.deferral.active && DrainSettled(e, now) {
      var p := if e.snd.sndBuf == map[] then e.deferral.packet else PACKET_STREAM_RST;
      var e1 := WithoutDeferral(e);
      UpdateFrame(e, e1, false, false);
      AfterDrainFrame(t, e1, p, now);
      FrameThen(e, e1, AfterDrain(t, e1, p, now));
    }
  }

  lemma AfterDrainFrame(t: Tuning, e: Endpoint, p: PacketType, now: int)
    requires p == PACKET_STREAM_RST || e.snd.sndBuf == map[]
    ensures Frame(e, AfterDrain(t, e, p, now))
  {
    if p == PACKET_STREAM_RST {
      ResetFrame(t, e, "drain settled", now);
    } else if IsTerminal(p) {
      EmitFrame(t, e, p, "drain settled", now);
    } else {
      FinalizeFrame(e, "drain settled");
    }
  }

  lemma WithDeferralFrame(t: Tuning, e: Endpoint, p: PacketType, now: int)
    requires !e.life.closed
    ensures Frame(e, WithDeferral(t, e, p, now))
  {
  }

  lemma DeferFrame(t: Tuning, e: Endpoint, p: PacketType, now: int)
    ensures Frame(e, DeferTerminal(t, e, p, now))
  {
    if !e.life.closed && !e.life.isVirtual {
      WithDeferralFrame(t, e, p, now);
      SettleFrame(t, WithDeferral(t, e, p, now), now);
      FrameThen(e, WithDeferral(t, e, p, now), SettleDrain(t, WithDeferral(t, e, p, now), now));
    }
  }

  /** Callers send CLOSE_READ either after a drain or with nothing to drain. */
  predicate Considerate(e: Endpoint, o: CloseOptions) {
    !o.force && o.sendCloseRead && !o.afterDrain ==> e.snd.sndBuf == map[]
  }

  lemma CloseFrame(t: Tuning, e: Endpoint, reason: string, o: CloseOptions, now: int)
    requires Considerate(e, o) && reason != HANDSHAKE_COMPLETED
    ensures Frame(e, Close(t, e, reason, o, now))
  {
    if e.life.isVirtual && !o.force {
    } else if o.force || (!o.sendRst && !o.sendCloseRead && !o.sendCloseWrite) {
      assert Frame(e, NonVirtual(e));
      FinalizeFrame(NonVirtual(e), reason);
      FrameThen(e, NonVirtual(e), FinalizeClose(NonVirtual(e), reason));
    } else if o.sendCloseRead {
      if o.afterDrain {
        DeferFrame(t, e, PACKET_STREAM_CLOSE_READ, now);
      } else {
        EmitFrame(t, e, PACKET_STREAM_CLOSE_READ, reason, now);
      }
    } else if o.sendCloseWrite {
      EmitFrame(t, e, PACKET_STREAM_CLOSE_WRITE, reason, now);
    } else {
      ResetFrame(t, e, reason, now);
      if !e.life.closed {
        BeginFrame(e, reason);
        DeferFrame(t, BeginReset(e, reason), PACKET_STREAM_RST, now);
        FrameThen(e, BeginReset(e, reason), DeferTerminal(t, BeginReset(e, reason), PACKET_STREAM_RST, now));
      }
    }
  }

  lemma CloseFrameAfter(t: Tuning, e: Endpoint, e1: Endpoint, reason: string, o: CloseOptions, now: int)
    requires Frame(e, e1) && Considerate(e1, o) && reason != HANDSHAKE_COMPLETED
    ensures Frame(e, Close(t, e1, reason, o, now))
  {
    CloseFrame(t, e1, reason, o, now);
    FrameThen(e, e1, Close(t, e1, reason, o, now));
  }

  lemma TryFinalizeFrameAfter(e: Endpoint, e1: Endpoint)
    requires Frame(e, e1)
    ensures Frame(e, TryFinalizeRemoteEOF(e1))
  {
    TryFinalizeFrame(e1);
    FrameThen(e, e1, TryFinalizeRemoteEOF(e1));
  }

  lemma SettleFrameAfter(t: Tuning, e: Endpoint, e1: Endpoint, now: int)
    requires Frame(e, e1)
    ensures Frame(e, SettleDrain(t, e1, now))
  {
    SettleFrame(t, e1, now);
    FrameThen(e, e1, SettleDrain(t, e1, now));
  }

  // ------------------------------------------------------------------
  // Events
  // ------------------------------------------------------------------

  lemma NoteEOFFrame(e: Endpoint, now: int)
    ensures Frame(e, NoteClientEOF(e, now))
  {
  }

  lemma WriterBrokenFrame(e: Endpoint)
    ensures Frame(e, MarkLocalWriterBroken(e))
  {
    UpdateFrame(e, MarkLocalWriterBroken(e), false, true);
  }

  lemma FlagCloseWriteReceivedFrame(e: Endpoint)
    ensures Frame(e, FlagCloseWriteReceived(e))
  {
    UpdateFrame(e, FlagCloseWriteReceived(e), true, false);
  }

  lemma PeerCloseWriteFrame(t: Tuning, e: Endpoint, now: int)
    ensures Frame(e, PeerCloseWrite(t, e, now))
  {
    if !e.life.isVirtual {
      FlagCloseWriteReceivedFrame(e);
      SettleFrameAfter(t, e, FlagCloseWriteReceived(e), now);
      TryFinalizeFrameAfter(e, SettleDrain(t, FlagCloseWriteReceived(e), now));
    }
  }

  lemma MarkRstReceivedFrame(e: Endpoint)
    ensures Frame(e, MarkRstReceived(e))
  {
    if !e.life.isVirtual {
      UpdateFrame(e, MarkRstReceived(e), true, true);
    }
  }

  lemma PeerResetFrame(t: Tuning, e: Endpoint, now: int)
    ensures Frame(e, PeerReset(t, e, now))
  {
    var e1 := MarkRstReceived(e);
    MarkRstReceivedFrame(e);
    CloseFrameAfter(t, e, e1, "peer reset received", FORCE, now);
  }

  /** An acknowledged chunk leaves the send buffer; the rest of the call frames as usual. */
  lemma DataAckedFrame(t: Tuning, e: Endpoint, sn: Seq16, now: int)
    requires sn in e.snd.sndBuf
    ensures Frame(NoteDataAck(e, sn, now), DataAcked(t, e, sn, now))
  {
    var e1 := NoteDataAck(e, sn, now);
    TryFinalizeFrame(e1);
    SettleFrameAfter(t, e1, if e1.hs.closeReadReceived then TryFinalizeRemoteEOF(e1) else e1, now);
  }

  lemma SettleReadAckFrame(e: Endpoint, now: int)
    ensures Frame(e, SettleCloseReadAck(e, now))
  {
    UpdateFrame(e, SettleCloseReadAck(e, now), false, false);
  }

  /** The acknowledgement of CLOSE_WRITE leaves a broken writer. */
  lemma SettleWriteAckFrame(e: Endpoint)
    ensures Frame(e, SettleCloseWriteAck(e))
  {
    UpdateFrame(e, SettleCloseWriteAck(e), false, false);
  }

  lemma CloseWriteAckFrame(t: Tuning, e: Endpoint, now: int)
    ensures Frame(e, CloseWriteAcknowledged(t, e, now))
  {
    var e1 := SettleCloseWriteAck(e);
    SettleWriteAckFrame(e);
    var pending := e1.snd.sndBuf != map[] || e1.local.writePending;
    CloseFrameAfter(t, e, e1, "Client local endpoint disconnected after write side closed",
                    WITH_CLOSE_READ.(afterDrain := pending), now);
    TryFinalizeFrameAfter(e, CloseReadAfterWriterBreak(t, e1, now));
  }

  lemma RstAckFrame(e: Endpoint)
    requires !e.life.isVirtual
    ensures Frame(e, RstAcknowledged(e))
  {
    if !e.life.closed {
      assert RstAcknowledged(e).life.closed && RstAcknowledged(e).life.closeReason == "RST acknowledged";
    }
  }

  lemma ControlAckedFrame(t: Tuning, e: Endpoint, ack: PacketType, sn: Seq16, fragment: Byte, now: int)
    requires !e.life.isVirtual
    ensures Frame(e, ControlAcked(t, e, ack, sn, fragment, now))
  {
    var origin := ReverseControlAckFor(ack);
    if origin.Some? {
      var p := origin.value;
      var e1 := NoteControlAck(e, ControlKey(p, sn, fragment), now);
      UpdateFrame(e, e1, false, false);
      AcknowledgedFrame(t, e1, p, now);
      FrameThen(e, e1, Acknowledged(t, e1, p, now));
    }
  }

  lemma AcknowledgedFrame(t: Tuning, e: Endpoint, p: PacketType, now: int)
    requires !e.life.isVirtual
    ensures Frame(e, Acknowledged(t, e, p, now))
  {
    if p == PACKET_STREAM_CLOSE_READ {
      SettleReadAckFrame(e, now);
      TryFinalizeFrameAfter(e, SettleCloseReadAck(e, now));
    } else if p == PACKET_STREAM_CLOSE_WRITE {
      CloseWriteAckFrame(t, e, now);
    } else if p == PACKET_STREAM_RST {
      RstAckFrame(e);
    } else {
      FinalizeFrame(e, "acknowledged");
    }
  }

  lemma PeerResetTickFrame(t: Tuning, e: Endpoint, now: int)
    ensures Frame(e, Close(t, MarkRstReceived(e), "Peer reset signaled", FORCE, now))
  {
    MarkRstReceivedFrame(e);
    CloseFrameAfter(t, e, MarkRstReceived(e), "Peer reset signaled", FORCE, now);
  }

  lemma TerminalTickFrame(t: Tuning, e: Endpoint, now: int)
    ensures Frame(e, TerminalTick(t, e, now).0)
  {
    if e.deferral.active {
      SettleFrame(t, e, now);
    } else if e.wait.active && Passed(e.wait.deadline, now) {
      if e.wait.packet == PACKET_STREAM_RST {
        FinalizeFrame(e, "Terminal ACK wait timeout");
      } else {
        CloseFrame(t, e, "Close handshake ACK wait timeout", WITH_RST, now);
      }
    } else if e.hs.rstReceived && !e.life.closed {
      PeerResetTickFrame(t, e, now);
    } else if GraceElapsed(e, now) {
      CloseFrame(t, e, "Client close-read grace elapsed", WITH_CLOSE_WRITE, now);
    } else {
      CloseFrame(t, e, "Stream Inactivity Timeout", WITH_RST, now);
    }
  }

  lemma ExpiryFrame(t: Tuning, e: Endpoint, p: PacketType, now: int)
    ensures Frame(e, PacketExpired(t, e, p, now))
  {
    FinalizeFrame(e, "Packet TTL expired");
    CloseFrame(t, e, "Packet TTL expired", WITH_RST, now);
  }

  lemma DropFrame(t: Tuning, e: Endpoint, key: ControlKey, now: int)
    ensures Frame(e, PacketExpired(t, DropTracked(e, key), key.packetType, now))
  {
    UpdateFrame(e, DropTracked(e, key), false, false);
    ExpiryFrame(t, DropTracked(e, key), key.packetType, now);
    FrameThen(e, DropTracked(e, key), PacketExpired(t, DropTracked(e, key), key.packetType, now));
  }

  lemma TickFrame(t: Tuning, e: Endpoint, outcome: TickOutcome, now: int)
    requires TickPossible(t, e, outcome, now)
    ensures Frame(e, Tick(t, e, outcome, now))
  {
    if !e.life.closed {
      TerminalTickFrame(t, e, now);
      var e1 := TerminalTick(t, e, now).0;
      match outcome {
        case Quiet =>
        case DataExpired =>
          CloseFrameAfter(t, e, e1, "Max retransmissions exceeded", WITH_RST, now);
        case ControlExpired(key) =>
          DropFrame(t, e1, key, now);
          FrameThen(e, e1, PacketExpired(t, DropTracked(e1, key), key.packetType, now));
      }
    }
  }

  /** Events that neither move data nor announce the peer's end of stream, nor find the writer idle. */
  predicate IsQuiet(e: Endpoint, v: Event) {
    && !v.DataPlane? && !v.AckReceived? && !v.CloseReadReceived? && !v.WriterIdle?
    && (v.CloseCalled? ==> Considerate(e, v.options))
  }

  lemma EventFrame(t: Tuning, e: Endpoint, v: Event, now: int)
    requires Possible(t, e, v, now) && IsQuiet(e, v) && !e.life.isVirtual
    ensures Frame(e, Handle(t, e, v, now))
  {
    match v
    case CloseCalled(options) => CloseFrame(t, e, "requested", options, now);
    case LocalEOF =>
      NoteEOFFrame(e, now);
      CloseFrameAfter(t, e, NoteClientEOF(e, now), "Local App Closed Connection (EOF)", WITH_CLOSE_READ.(afterDrain := true), now);
    case WriterBroke =>
      WriterBrokenFrame(e);
      CloseFrameAfter(t, e, MarkLocalWriterBroken(e), "Local App Write Error", WITH_CLOSE_WRITE, now);
    case WriteFinished => TryFinalizeFrame(e);
    case TrackOther(key) =>
    case CloseWriteReceived => PeerCloseWriteFrame(t, e, now);
    case ResetReceived => PeerResetFrame(t, e, now);
    case ControlAckReceived(ack, sn, fragment) => ControlAckedFrame(t, e, ack, sn, fragment, now);
    case Ticked(outcome) => TickFrame(t, e, outcome, now);
  }
}
