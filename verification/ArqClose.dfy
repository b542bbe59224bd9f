/**
 The lifecycle of one ARQ endpoint: half-close and reset handshakes, drain before close, and the
 terminal branch of the retransmit tick.  Each function is one region under the endpoint's
 mutex, or one call that the properties take as a single step.  Times are integers; None is the zero time.
 */
module ArqClose {
  import opened Wire16
  import opened ArqData
  import opened Octets
  import opened Enums

  datatype StreamState =
    | Open | HalfClosedLocal | HalfClosedRemote | Closing | Reset | Closed | Draining | TimeWait

  /** Key of a tracked control packet: type, sequence number, fragment. */
  datatype ControlKey = ControlKey(packetType: PacketType, sn: Seq16, fragment: Byte)

  datatype Tuning = Tuning(drainTimeout: nat, ackWait: nat, inactivity: nat, reliableControl: bool)

  const GRACE := 2_000_000_000 // two seconds in nanoseconds
  const HANDSHAKE_COMPLETED := "close handshake completed"

  /** The nine handshake flags. */
  datatype Handshake = Handshake(
    closeReadSent: bool, closeReadReceived: bool, closeReadAcked: bool,
    closeWriteSent: bool, closeWriteReceived: bool, closeWriteAcked: bool,
    rstSent: bool, rstReceived: bool, rstAcked: bool)

  /** State of the local connection. */
  datatype Local = Local(
    writeClosed: bool, writerBroken: bool, writePending: bool, stopRead: bool, pendingInbound: nat)

  /** A terminal packet waiting for the outbound data to drain. */
  datatype Deferral = Deferral(active: bool, packet: PacketType, deadline: Option<int>)

  /** A terminal packet waiting for its acknowledgement. */
  datatype AckWait = AckWait(active: bool, packet: PacketType, deadline: Option<int>)

  const NO_DEFERRAL := Deferral(false, 0, None)
  const NO_WAIT := AckWait(false, 0, None)

  datatype Life = Life(
    state: StreamState, closed: bool, closeReason: string, isVirtual: bool,
    notified: nat) // calls of OnARQClosed

  datatype Endpoint = Endpoint(
    snd: Sender,
    rcv: Receiver,
    tracked: set<ControlKey>,
    life: Life,
    hs: Handshake,
    local: Local,
    deferral: Deferral,
    wait: AckWait,
    isClient: bool,
    lastProgress: int,
    clientEOFAt: Option<int>,
    closeReadAckedAt: Option<int>,
    firstSent: seq<PacketType>) // terminal packets in the order they were first put on the queue

  predicate Passed(deadline: Option<int>, now: int) {
    deadline.Some? && now > deadline.value
  }

  predicate WaitingFor(e: Endpoint, t: PacketType) {
    e.wait.active && e.wait.packet == t
  }

  function ClearQueues(e: Endpoint): Endpoint {
    e.(snd := e.snd.(sndBuf := map[]), rcv := e.rcv.(rcvBuf := map[]), tracked := {})
  }

  function ClearWaiting(e: Endpoint, t: PacketType): Endpoint {
    if WaitingFor(e, t) then e.(wait := NO_WAIT) else e
  }

  function SetState(e: Endpoint, state: StreamState): Endpoint {
    e.(life := e.life.(state := state))
  }

  // ------------------------------------------------------------------
  // Final close
  // ------------------------------------------------------------------

  function FinalState(e: Endpoint): StreamState {
    if e.life.state.Reset? || e.hs.rstReceived || e.hs.rstSent then Reset
    else if e.hs.closeReadSent || e.hs.closeReadReceived || e.hs.closeWriteSent || e.hs.closeWriteReceived then TimeWait
    else Closing
  }

  function FinalizeClose(e: Endpoint, reason: string): Endpoint {
    if e.life.closed || e.life.isVirtual then e
    else
      ClearQueues(e.(life := Life(FinalState(e), true, reason, false, e.life.notified + 1),
                     deferral := NO_DEFERRAL, wait := NO_WAIT))
  }

  predicate LocalDisconnectDone(e: Endpoint) {
    && e.isClient && !e.life.closed && e.local.writerBroken && e.hs.closeWriteAcked
    && e.hs.closeReadSent && e.hs.closeReadAcked
    && e.snd.sndBuf == map[] && e.rcv.rcvBuf == map[]
    && e.local.pendingInbound == 0 && !e.local.writePending && !e.wait.active && !e.deferral.active
  }

  function TryFinalizeLocalDisconnect(e: Endpoint): Endpoint {
    if LocalDisconnectDone(e) then FinalizeClose(e, "client local disconnect completed") else e
  }

  predicate RemoteEOFDone(e: Endpoint) {
    && !e.life.closed && e.hs.closeReadReceived
    && ((e.rcv.rcvBuf == map[] && e.local.pendingInbound == 0) || e.local.writerBroken)
    && (!e.local.writePending || e.local.writerBroken)
    && (e.hs.closeReadAcked || (e.hs.closeReadSent && !WaitingFor(e, PACKET_STREAM_CLOSE_READ)))
    && (if e.local.writerBroken then e.hs.closeWriteAcked || e.hs.closeWriteReceived
        else !e.hs.closeWriteSent || e.hs.closeWriteAcked)
  }

  function TryFinalizeRemoteEOF(e: Endpoint): Endpoint {
    if RemoteEOFDone(e) then FinalizeClose(e, HANDSHAKE_COMPLETED) else TryFinalizeLocalDisconnect(e)
  }

  // ------------------------------------------------------------------
  // Marks
  // ------------------------------------------------------------------

  function FlagCloseReadSent(e: Endpoint): Endpoint {
    SetState(e.(hs := e.hs.(closeReadSent := true)), if e.hs.closeReadReceived then Closing else HalfClosedLocal)
  }

  function MarkCloseReadSent(e: Endpoint): Endpoint {
    TryFinalizeRemoteEOF(FlagCloseReadSent(e))
  }

  function FlagCloseReadReceived(e: Endpoint): Endpoint {
    SetState(e.(hs := e.hs.(closeReadReceived := true)), if e.hs.closeReadSent then Closing else HalfClosedRemote)
  }

  function MarkCloseReadReceived(e: Endpoint): Endpoint {
    if e.life.isVirtual then e else TryFinalizeRemoteEOF(FlagCloseReadReceived(e))
  }

  function MarkCloseReadAcked(e: Endpoint, now: int): Endpoint {
    SetState(e.(hs := e.hs.(closeReadAcked := true), closeReadAckedAt := Some(now)),
             if e.hs.closeReadReceived then Closing else e.life.state)
  }

  function MarkCloseWriteSent(e: Endpoint): Endpoint {
    SetState(e.(hs := e.hs.(closeWriteSent := true),
                local := e.local.(writerBroken := true, writeClosed := true),
                rcv := e.rcv.(rcvBuf := map[])),
             if e.hs.closeReadReceived then Closing else e.life.state)
  }

  function MarkCloseWriteAcked(e: Endpoint): Endpoint {
    e.(hs := e.hs.(closeWriteAcked := true), local := e.local.(writerBroken := true, writeClosed := true))
  }

  function MarkRstSent(e: Endpoint): Endpoint {
    ClearQueues(SetState(e.(hs := e.hs.(rstSent := true)), Reset))
  }

  function MarkRstReceived(e: Endpoint): Endpoint {
    if e.life.isVirtual then e else ClearQueues(SetState(e.(hs := e.hs.(rstReceived := true)), Reset))
  }

  function MarkRstAcked(e: Endpoint): Endpoint {
    ClearQueues(SetState(e.(hs := e.hs.(rstAcked := true)), Reset))
  }

  function MarkLocalWriterBroken(e: Endpoint): Endpoint {
    e.(local := e.local.(writerBroken := true, writePending := false), rcv := e.rcv.(rcvBuf := map[]))
  }

  function NoteClientEOF(e: Endpoint, now: int): Endpoint {
    if e.isClient && e.clientEOFAt.None? then e.(clientEOFAt := Some(now)) else e
  }

  function HalfCloseLocalWriter(e: Endpoint): Endpoint {
    if e.local.writeClosed || e.life.closed then e else e.(local := e.local.(writeClosed := true))
  }

  // ------------------------------------------------------------------
  // Emitting a terminal packet, at once or after a drain
  // ------------------------------------------------------------------

  /** SendControlPacketWithTTL for a terminal packet. */
  function SendTerminal(t: Tuning, e: Endpoint, p: PacketType): Endpoint {
    var key := ControlKey(p, 0, 0);
    if !t.reliableControl then e.(firstSent := e.firstSent + [p])
    else if key in e.tracked then e
    else e.(firstSent := e.firstSent + [p], tracked := e.tracked + {key})
  }

  function StartWaiting(t: Tuning, e: Endpoint, p: PacketType, now: int): Endpoint {
    e.(wait := AckWait(true, p, Some(now + t.ackWait)))
  }

  /** The part of emitTerminalPacketWithTTL before the packet-specific branch. */
  function BeginEmit(e: Endpoint, reason: string): Endpoint {
    e.(life := e.life.(closeReason := reason), local := e.local.(stopRead := true), deferral := NO_DEFERRAL)
  }

  function Emit(t: Tuning, e: Endpoint, p: PacketType, reason: string, now: int): Endpoint {
    if e.life.closed || e.life.isVirtual then e
    else
      var e1 := BeginEmit(e, reason);
      if WaitingFor(e1, p) || e1.hs.rstSent || e1.hs.rstReceived then e1
      else if p == PACKET_STREAM_CLOSE_READ then
        if e1.hs.closeReadSent then e1
        else SendTerminal(t, MarkCloseReadSent(StartWaiting(t, e1, p, now)), p)
      else if p == PACKET_STREAM_CLOSE_WRITE then
        if e1.hs.closeWriteSent then e1
        else SendTerminal(t, MarkCloseWriteSent(StartWaiting(t, e1, p, now)), p)
      else if p == PACKET_STREAM_RST then
        SendTerminal(t, MarkRstSent(StartWaiting(t, ClearQueues(e1), p, now)), p)
      else e1
  }

  predicate AlreadyResetting(e: Endpoint) {
    || e.hs.rstSent || e.hs.rstReceived || WaitingFor(e, PACKET_STREAM_RST)
    || (e.deferral.active && e.deferral.packet == PACKET_STREAM_RST)
  }

  /** Close's own state change before a reset is emitted or deferred. */
  function BeginReset(e: Endpoint, reason: string): Endpoint {
    e.(life := e.life.(closeReason := reason, state := Reset), deferral := NO_DEFERRAL)
  }

  /** The reset branch of Close, without drain. */
  function CloseReset(t: Tuning, e: Endpoint, reason: string, now: int): Endpoint {
    if e.life.isVirtual || e.life.closed || AlreadyResetting(e) then e
    else Emit(t, BeginReset(e, reason), PACKET_STREAM_RST, reason, now)
  }

  predicate DrainSettled(e: Endpoint, now: int) {
    e.snd.sndBuf == map[] || Passed(e.deferral.deadline, now)
  }

  function WithoutDeferral(e: Endpoint): Endpoint {
    e.(deferral := NO_DEFERRAL)
  }

  function SettleDrain(t: Tuning, e: Endpoint, now: int): Endpoint {
    if e.life.closed || !e.deferral.active || !DrainSettled(e, now) then e
    else
      var p := if e.snd.sndBuf == map[] then e.deferral.packet else PACKET_STREAM_RST;
      AfterDrain(t, WithoutDeferral(e), p, now)
  }

  /** Close as settleTerminalDrain calls it. */
  function AfterDrain(t: Tuning, e: Endpoint, p: PacketType, now: int): Endpoint {
    if e.life.isVirtual then e
    else if p == PACKET_STREAM_CLOSE_READ || p == PACKET_STREAM_CLOSE_WRITE then Emit(t, e, p, "drain settled", now)
    else if p == PACKET_STREAM_RST then CloseReset(t, e, "drain settled", now)
    else FinalizeClose(e, "drain settled")
  }

  /** The deadline only ever moves later. */
  function DeferralDeadline(t: Tuning, e: Endpoint, now: int): int {
    var deadline := now + t.drainTimeout;
    if e.deferral.deadline.Some? && deadline <= e.deferral.deadline.value then e.deferral.deadline.value else deadline
  }

  function WithDeferral(t: Tuning, e: Endpoint, p: PacketType, now: int): Endpoint {
    SetState(
      e.(local := e.local.(stopRead := true), deferral := Deferral(true, p, Some(DeferralDeadline(t, e, now)))),
      if e.life.state.Reset? || e.life.state.Closed? then e.life.state else Draining)
  }

  function DeferTerminal(t: Tuning, e: Endpoint, p: PacketType, now: int): Endpoint {
    if e.life.closed || e.life.isVirtual then e
    else
      var e1 := WithDeferral(t, e, p, now);
      if e.snd.sndBuf == map[] then SettleDrain(t, e1, now) else e1
  }

  datatype CloseOptions = CloseOptions(
    force: bool, sendRst: bool, sendCloseWrite: bool, sendCloseRead: bool, afterDrain: bool)

  const FORCE := CloseOptions(true, false, false, false, false)
  const WITH_RST := CloseOptions(false, true, false, false, false)
  const WITH_CLOSE_WRITE := CloseOptions(false, false, true, false, false)
  const WITH_CLOSE_READ := CloseOptions(false, false, false, true, false)

  function NonVirtual(e: Endpoint): Endpoint {
    e.(life := e.life.(isVirtual := false))
  }

  /** The single close entry point. */
  function Close(t: Tuning, e: Endpoint, reason: string, o: CloseOptions, now: int): Endpoint {
    if e.life.isVirtual && !o.force then e
    else if o.force || (!o.sendRst && !o.sendCloseRead && !o.sendCloseWrite) then
      FinalizeClose(NonVirtual(e), reason)
    else if o.sendCloseRead then
      if o.afterDrain then DeferTerminal(t, e, PACKET_STREAM_CLOSE_READ, now)
      else Emit(t, e, PACKET_STREAM_CLOSE_READ, reason, now)
    else if o.sendCloseWrite then Emit(t, e, PACKET_STREAM_CLOSE_WRITE, reason, now)
    else if o.afterDrain && e.snd.sndBuf != map[] then
      if e.life.closed || AlreadyResetting(e) then e
      else DeferTerminal(t, BeginReset(e, reason), PACKET_STREAM_RST, now)
    else CloseReset(t, e, reason, now)
  }

  // ------------------------------------------------------------------
  // Peer packets and acknowledgements
  // ------------------------------------------------------------------

  function FlagCloseWriteReceived(e: Endpoint): Endpoint {
    e.(hs := e.hs.(closeWriteReceived := true), local := e.local.(stopRead := true),
       snd := e.snd.(sndBuf := map[]))
  }

  /** MarkCloseWriteReceived. */
  function PeerCloseWrite(t: Tuning, e: Endpoint, now: int): Endpoint {
    if e.life.isVirtual then e else TryFinalizeRemoteEOF(SettleDrain(t, FlagCloseWriteReceived(e), now))
  }

  /** A peer reset is marked and the stream force-closed, as one step. */
  function PeerReset(t: Tuning, e: Endpoint, now: int): Endpoint {
    Close(t, MarkRstReceived(e), "peer reset received", FORCE, now)
  }

  function NoteDataAck(e: Endpoint, sn: Seq16, now: int): Endpoint {
    e.(snd := ForgetAcked(e.snd, sn), lastProgress := now)
  }

  /** ReceiveAck for a tracked chunk. */
  function DataAcked(t: Tuning, e: Endpoint, sn: Seq16, now: int): Endpoint {
    if sn !in e.snd.sndBuf then e
    else
      var e1 := NoteDataAck(e, sn, now);
      SettleDrain(t, if e1.hs.closeReadReceived then TryFinalizeRemoteEOF(e1) else e1, now)
  }

  /** A client whose writer broke also closes its reading side. */
  function CloseReadAfterWriterBreak(t: Tuning, e: Endpoint, now: int): Endpoint {
    if e.isClient && e.local.writerBroken && !e.life.closed && !e.hs.rstSent && !e.hs.rstReceived
       && !e.hs.closeReadSent && !e.hs.closeReadReceived
    then
      var pending := e.snd.sndBuf != map[] || e.local.writePending;
      Close(t, e, "Client local endpoint disconnected after write side closed",
            WITH_CLOSE_READ.(afterDrain := pending), now)
    else e
  }

  function SettleCloseReadAck(e: Endpoint, now: int): Endpoint {
    ClearWaiting(MarkCloseReadAcked(e, now), PACKET_STREAM_CLOSE_READ)
  }

  function SettleCloseWriteAck(e: Endpoint): Endpoint {
    ClearWaiting(MarkCloseWriteAcked(e), PACKET_STREAM_CLOSE_WRITE)
  }

  function CloseReadAcknowledged(e: Endpoint, now: int): Endpoint {
    TryFinalizeRemoteEOF(SettleCloseReadAck(e, now))
  }

  function CloseWriteAcknowledged(t: Tuning, e: Endpoint, now: int): Endpoint {
    TryFinalizeRemoteEOF(CloseReadAfterWriterBreak(t, SettleCloseWriteAck(e), now))
  }

  function RstAcknowledged(e: Endpoint): Endpoint {
    FinalizeClose(MarkRstAcked(e), "RST acknowledged")
  }

  predicate IsTracked(e: Endpoint, key: ControlKey) {
    key in e.tracked
    || (IsCloseStreamPacket(key.packetType) && exists k :: k in e.tracked && k.packetType == key.packetType)
  }

  function Untrack(tracked: set<ControlKey>, key: ControlKey): set<ControlKey> {
    if IsCloseStreamPacket(key.packetType) then set k | k in tracked && k.packetType != key.packetType
    else tracked - {key}
  }

  /** A terminal packet type: the close machine emits these and waits for their acknowledgement. */
  predicate IsTerminal(p: PacketType) {
    p == PACKET_STREAM_CLOSE_READ || p == PACKET_STREAM_CLOSE_WRITE || p == PACKET_STREAM_RST
  }

  function NoteControlAck(e: Endpoint, key: ControlKey, now: int): Endpoint {
    e.(lastProgress := now, tracked := if IsTracked(e, key) then Untrack(e.tracked, key) else e.tracked)
  }

  /** What an acknowledgement of packet `p` brings about. */
  function Acknowledged(t: Tuning, e: Endpoint, p: PacketType, now: int): Endpoint {
    if p == PACKET_STREAM_CLOSE_READ then CloseReadAcknowledged(e, now)
    else if p == PACKET_STREAM_CLOSE_WRITE then CloseWriteAcknowledged(t, e, now)
    else if p == PACKET_STREAM_RST then RstAcknowledged(e)
    else if IsCloseStreamPacket(p) then FinalizeClose(e, "acknowledged")
    else e
  }

  /** ReceiveControlAck. */
  function ControlAcked(t: Tuning, e: Endpoint, ack: PacketType, sn: Seq16, fragment: Byte, now: int): Endpoint {
    var origin := ReverseControlAckFor(ack);
    if origin.None? then e
    else
      var p := origin.value;
      var key := ControlKey(p, sn, fragment);
      if !IsTracked(e, key) && !(IsTerminal(p) && e.wait.packet == p) then e
      else
        Acknowledged(t, NoteControlAck(e, key, now), p, now)
  }

  // ------------------------------------------------------------------
  // The retransmit tick
  // ------------------------------------------------------------------

  predicate GraceElapsed(e: Endpoint, now: int) {
    && e.isClient
    && ((e.clientEOFAt.Some? && now - e.clientEOFAt.value >= GRACE)
        || (e.closeReadAckedAt.Some? && now - e.closeReadAckedAt.value >= GRACE))
    && !e.life.closed && !e.hs.rstSent && !e.hs.rstReceived
    && e.hs.closeReadSent && e.hs.closeReadAcked
    && !e.hs.closeWriteSent && !e.hs.closeWriteAcked && !e.hs.closeWriteReceived
    && !WaitingFor(e, PACKET_STREAM_CLOSE_WRITE)
  }

  /** handleTerminalRetransmitState: the new state, and whether the tick ends here. */
  function TerminalTick(t: Tuning, e: Endpoint, now: int): (Endpoint, bool) {
    if e.deferral.active then
      var e1 := SettleDrain(t, e, now);
      (e1, e1.life.closed)
    else if e.wait.active && Passed(e.wait.deadline, now) then
      if e.wait.packet == PACKET_STREAM_RST then (FinalizeClose(e, "Terminal ACK wait timeout"), true)
      else if e.wait.packet == PACKET_STREAM_CLOSE_READ || e.wait.packet == PACKET_STREAM_CLOSE_WRITE then
        (Close(t, e, "Close handshake ACK wait timeout", WITH_RST, now), false)
      else (e, false)
    else if e.hs.rstReceived && !e.life.closed then
      (Close(t, MarkRstReceived(e), "Peer reset signaled", FORCE, now), true)
    else if GraceElapsed(e, now) then
      (Close(t, e, "Client close-read grace elapsed", WITH_CLOSE_WRITE, now), false)
    else if now - e.lastProgress > t.inactivity then
      (Close(t, e, "Stream Inactivity Timeout", WITH_RST, now), true)
    else (e, false)
  }

  /** handleTrackedPacketTTLExpiry. */
  function PacketExpired(t: Tuning, e: Endpoint, p: PacketType, now: int): Endpoint {
    if IsCloseStreamPacket(p) && p != PACKET_STREAM_CLOSE_READ && p != PACKET_STREAM_CLOSE_WRITE
    then FinalizeClose(e, "Packet TTL expired")
    else Close(t, e, "Packet TTL expired", WITH_RST, now)
  }

  function DropTracked(e: Endpoint, key: ControlKey): Endpoint {
    e.(tracked := e.tracked - {key})
  }

  /** What the rest of a tick meets: nothing, a data packet out of time, or an expired control packet. */
  datatype TickOutcome = Quiet | DataExpired | ControlExpired(key: ControlKey)

  predicate TickPossible(t: Tuning, e: Endpoint, outcome: TickOutcome, now: int) {
    var (e1, done) := TerminalTick(t, e, now);
    match outcome
    case Quiet => true
    case DataExpired => !e.life.closed && !done && e1.snd.sndBuf != map[]
    case ControlExpired(key) => !e.life.closed && !done && t.reliableControl && key in e1.tracked
  }

  /** checkRetransmits. */
  function Tick(t: Tuning, e: Endpoint, outcome: TickOutcome, now: int): Endpoint
    requires TickPossible(t, e, outcome, now)
  {
    if e.life.closed then e
    else
      var (e1, done) := TerminalTick(t, e, now);
      match outcome
      case Quiet => e1
      case DataExpired => Close(t, e1, "Max retransmissions exceeded", WITH_RST, now)
      case ControlExpired(key) => PacketExpired(t, DropTracked(e1, key), key.packetType, now)
  }
}
