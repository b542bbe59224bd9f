/** Safety of the close machine over every run of events. */
module ArqCloseSafety {
  import opened Wire16
  import opened ArqData
  import opened Octets
  import opened Enums
  import opened ArqClose

  // ------------------------------------------------------------------
  // Runs
  // ------------------------------------------------------------------

  /** Everything that can happen to an endpoint. */
  datatype Event =
    | DataPlane(snd: Sender, rcv: Receiver, inbound: nat, writePending: bool, progress: bool)
    | AckReceived(sn: Seq16)
    | CloseCalled(options: CloseOptions)
    | LocalEOF
    | WriterBroke
    | WriterIdle
    | WriteFinished
    | TrackOther(key: ControlKey)
    | CloseReadReceived
    | CloseWriteReceived
    | ResetReceived
    | ControlAckReceived(ack: PacketType, sn: Seq16, fragment: Byte)
    | Ticked(outcome: TickOutcome)

  predicate Possible(t: Tuning, e: Endpoint, v: Event, now: int) {
    match v
    case TrackOther(key) => !IsTerminal(key.packetType)
    case Ticked(outcome) => TickPossible(t, e, outcome, now)
    case _ => true
  }

  /** Sending, receiving and writing data: any change of the data plane. */
  function DataStep(e: Endpoint, v: Event, now: int): Endpoint
    requires v.DataPlane?
  {
    e.(snd := v.snd, rcv := v.rcv,
       local := e.local.(pendingInbound := v.inbound, writePending := v.writePending),
       lastProgress := if v.progress then now else e.lastProgress)
  }

  function Handle(t: Tuning, e: Endpoint, v: Event, now: int): Endpoint
    requires Possible(t, e, v, now)
  {
    match v
    case DataPlane(_, _, _, _, _) => DataStep(e, v, now)
    case AckReceived(sn) => DataAcked(t, e, sn, now)
    case CloseCalled(options) => Close(t, e, "requested", options, now)
    case LocalEOF =>
      Close(t, NoteClientEOF(e, now), "Local App Closed Connection (EOF)", WITH_CLOSE_READ.(afterDrain := true), now)
    case WriterBroke => Close(t, MarkLocalWriterBroken(e), "Local App Write Error", WITH_CLOSE_WRITE, now)
    case WriterIdle =>
      TryFinalizeRemoteEOF(
        if e.hs.closeReadReceived && e.local.pendingInbound == 0 then HalfCloseLocalWriter(e) else e)
    case WriteFinished => TryFinalizeRemoteEOF(e)
    case TrackOther(key) => if t.reliableControl then e.(tracked := e.tracked + {key}) else e
    case CloseReadReceived => MarkCloseReadReceived(e)
    case CloseWriteReceived => PeerCloseWrite(t, e, now)
    case ResetReceived => PeerReset(t, e, now)
    case ControlAckReceived(ack, sn, fragment) => ControlAcked(t, e, ack, sn, fragment, now)
    case Ticked(outcome) => Tick(t, e, outcome, now)
  }

  function Fresh(isVirtual: bool, isClient: bool, now: int): Endpoint {
    Endpoint(Sender(0, map[]), Receiver(0, map[]), {},
             Life(Open, false, "", isVirtual, 0),
             Handshake(false, false, false, false, false, false, false, false, false),
             Local(false, false, false, false, 0), NO_DEFERRAL, NO_WAIT, isClient, now, None, None, [])
  }

  /** A run: `clocks[i + 1]` is the time of event `i`, and `clocks[0]` that of creation. */
  ghost predicate Run(t: Tuning, states: seq<Endpoint>, events: seq<Event>, clocks: seq<int>) {
    && |states| == |events| + 1 && |clocks| == |states|
    && states[0] == Fresh(states[0].life.isVirtual, states[0].isClient, clocks[0])
    && forall i :: 0 <= i < |events| ==> RunStep(t, states[i], events[i], states[i + 1], clocks[i], clocks[i + 1])
  }

  ghost predicate RunStep(t: Tuning, e: Endpoint, v: Event, e': Endpoint, before: int, now: int) {
    before <= now && Possible(t, e, v, now) && e' == Handle(t, e, v, now)
  }

  // ------------------------------------------------------------------
  // The invariant
  // ------------------------------------------------------------------

  predicate SentFlag(h: Handshake, p: PacketType) {
    || (p == PACKET_STREAM_CLOSE_READ && h.closeReadSent)
    || (p == PACKET_STREAM_CLOSE_WRITE && h.closeWriteSent)
    || (p == PACKET_STREAM_RST && h.rstSent)
  }

  /** First emissions: each packet once, each flagged, and nothing after an RST. */
  ghost predicate EmissionsHold(h: Handshake, sent: seq<PacketType>) {
    && (forall i, j :: 0 <= i < j < |sent| ==> sent[i] != sent[j])
    && (forall i :: 0 <= i < |sent| ==> SentFlag(h, sent[i]))
    && (forall i :: 0 <= i < |sent| - 1 ==> sent[i] != PACKET_STREAM_RST)
  }

  ghost predicate WaitingHolds(t: Tuning, h: Handshake, w: AckWait, clock: int) {
    && (w.active ==> SentFlag(h, w.packet) && w.deadline.Some? && w.deadline.value <= clock + t.ackWait)
    && (!w.active ==> w == NO_WAIT)
    && (h.closeReadAcked ==> h.closeReadSent && w.packet != PACKET_STREAM_CLOSE_READ)
    && (h.closeWriteAcked ==> h.closeWriteSent && w.packet != PACKET_STREAM_CLOSE_WRITE)
  }

  ghost predicate DeferralHolds(t: Tuning, d: Deferral, clock: int) {
    && (d.active ==> IsTerminal(d.packet) && d.deadline.Some? && d.deadline.value <= clock + t.drainTimeout)
    && (!d.active ==> d.deadline.None?)
  }

  ghost predicate LifeHolds(life: Life, h: Handshake, w: AckWait, d: Deferral) {
    && (life.closed ==> !w.active && !d.active)
    && life.notified == (if life.closed then 1 else 0)
    && (h.rstReceived ==> life.closed)
    && (h.rstSent && !life.closed ==> w.active && w.packet == PACKET_STREAM_RST)
  }

  ghost predicate TrackedHolds(h: Handshake, tracked: set<ControlKey>) {
    forall k :: k in tracked && IsTerminal(k.packetType) ==> SentFlag(h, k.packetType)
  }

  ghost predicate Inv(t: Tuning, e: Endpoint, clock: int) {
    && EmissionsHold(e.hs, e.firstSent) && WaitingHolds(t, e.hs, e.wait, clock) && DeferralHolds(t, e.deferral, clock)
    && LifeHolds(e.life, e.hs, e.wait, e.deferral) && TrackedHolds(e.hs, e.tracked) && e.lastProgress <= clock
  }

  /** Flags only rise. */
  predicate Rises(h: Handshake, h': Handshake) {
    && (h.closeReadSent ==> h'.closeReadSent) && (h.closeReadReceived ==> h'.closeReadReceived)
    && (h.closeReadAcked ==> h'.closeReadAcked)
    && (h.closeWriteSent ==> h'.closeWriteSent) && (h.closeWriteReceived ==> h'.closeWriteReceived)
    && (h.closeWriteAcked ==> h'.closeWriteAcked)
    && (h.rstSent ==> h'.rstSent) && (h.rstReceived ==> h'.rstReceived) && (h.rstAcked ==> h'.rstAcked)
  }

  /** What one call may change: flags rise, closed stays, and nothing is first emitted after a reset. */
  ghost predicate Advances(e: Endpoint, e': Endpoint) {
    && Rises(e.hs, e'.hs)
    && (e.life.closed ==> e'.life.closed)
    && Extends(e.firstSent, e'.firstSent)
    && (e.hs.rstSent || e.hs.rstReceived ==> e'.firstSent == e.firstSent)
  }

  ghost predicate Extends(s: seq<PacketType>, s': seq<PacketType>) {
    |s| <= |s'| && s'[..|s|] == s
  }

  ghost predicate Good(t: Tuning, e: Endpoint, e': Endpoint, clock: int) {
    Inv(t, e', clock) && Advances(e, e')
  }

  // ------------------------------------------------------------------
  // Operations keep it
  // ------------------------------------------------------------------

  lemma FinalizeKeeps(t: Tuning, e: Endpoint, reason: string, clock: int)
    requires Inv(t, e, clock)
    ensures Good(t, e, FinalizeClose(e, reason), clock)
  {
  }

  lemma TryFinalizeKeeps(t: Tuning, e: Endpoint, clock: int)
    requires Inv(t, e, clock)
    ensures Good(t, e, TryFinalizeRemoteEOF(e), clock)
  {
    FinalizeKeeps(t, e, HANDSHAKE_COMPLETED, clock);
    FinalizeKeeps(t, e, "client local disconnect completed", clock);
  }

  lemma Then(t: Tuning, e: Endpoint, e1: Endpoint, e2: Endpoint, now: int)
    requires Good(t, e, e1, now) && Good(t, e1, e2, now)
    ensures Good(t, e, e2, now)
  {
    AdvancesThrough(e, e1, e2);
  }

  lemma AdvancesThrough(e: Endpoint, e1: Endpoint, e2: Endpoint)
    requires Advances(e, e1) && Advances(e1, e2)
    ensures Advances(e, e2)
  {
    assert e2.firstSent[..|e.firstSent|] == e2.firstSent[..|e1.firstSent|][..|e.firstSent|];
  }

  lemma ClockMoves(t: Tuning, e: Endpoint, before: int, now: int)
    requires Inv(t, e, before) && before <= now
    ensures Inv(t, e, now)
  {
  }

  // Single updates.

  lemma BeginEmitKeeps(t: Tuning, e: Endpoint, reason: string, now: int)
    requires Inv(t, e, now)
    ensures Good(t, e, BeginEmit(e, reason), now)
  {
  }

  lemma BeginResetKeeps(t: Tuning, e: Endpoint, reason: string, now: int)
    requires Inv(t, e, now)
    ensures Good(t, e, BeginReset(e, reason), now)
  {
  }

  lemma FlagCloseReadSentKeeps(t: Tuning, e: Endpoint, now: int)
    requires Inv(t, e, now) && !e.life.closed && !e.hs.rstSent && !e.hs.closeReadSent
    ensures Good(t, e, FlagCloseReadSent(StartWaiting(t, e, PACKET_STREAM_CLOSE_READ, now)), now)
  {
  }

  lemma MarkCloseWriteSentKeeps(t: Tuning, e: Endpoint, now: int)
    requires Inv(t, e, now) && !e.life.closed && !e.hs.rstSent && !e.hs.closeWriteSent
    ensures var e' := MarkCloseWriteSent(StartWaiting(t, e, PACKET_STREAM_CLOSE_WRITE, now));
            Good(t, e, e', now) && e'.hs.closeWriteSent && e'.firstSent == e.firstSent
  {
  }

  lemma MarkRstSentKeeps(t: Tuning, e: Endpoint, now: int)
    requires Inv(t, e, now) && !e.life.closed
    ensures var e' := MarkRstSent(StartWaiting(t, ClearQueues(e), PACKET_STREAM_RST, now));
            Good(t, e, e', now) && e'.hs.rstSent && e'.firstSent == e.firstSent
  {
  }

  lemma WithoutDeferralKeeps(t: Tuning, e: Endpoint, now: int)
    requires Inv(t, e, now)
    ensures Good(t, e, WithoutDeferral(e), now)
  {
  }

  lemma WithDeferralKeeps(t: Tuning, e: Endpoint, p: PacketType, now: int)
    requires Inv(t, e, now) && !e.life.closed && IsTerminal(p)
    ensures Good(t, e, WithDeferral(t, e, p, now), now)
  {
  }

  lemma NonVirtualKeeps(t: Tuning, e: Endpoint, now: int)
    requires Inv(t, e, now)
    ensures Good(t, e, NonVirtual(e), now)
  {
  }

  lemma FlagCloseReadReceivedKeeps(t: Tuning, e: Endpoint, now: int)
    requires Inv(t, e, now)
    ensures Good(t, e, FlagCloseReadReceived(e), now)
  {
  }

  lemma FlagCloseWriteReceivedKeeps(t: Tuning, e: Endpoint, now: int)
    requires Inv(t, e, now)
    ensures Good(t, e, FlagCloseWriteReceived(e), now)
  {
  }

  lemma NoteDataAckKeeps(t: Tuning, e: Endpoint, sn: Seq16, now: int)
    requires Inv(t, e, now)
    ensures Good(t, e, NoteDataAck(e, sn, now), now)
  {
  }

  lemma SettleCloseReadAckKeeps(t: Tuning, e: Endpoint, now: int)
    requires Inv(t, e, now) && e.hs.closeReadSent
    ensures Good(t, e, SettleCloseReadAck(e, now), now)
  {
  }

  lemma SettleCloseWriteAckKeeps(t: Tuning, e: Endpoint, now: int)
    requires Inv(t, e, now) && e.hs.closeWriteSent
    ensures Good(t, e, SettleCloseWriteAck(e), now)
  {
  }

  lemma MarkRstAckedKeeps(t: Tuning, e: Endpoint, now: int)
    requires Inv(t, e, now)
    ensures Good(t, e, MarkRstAcked(e), now)
  {
  }

  lemma NoteControlAckKeeps(t: Tuning, e: Endpoint, key: ControlKey, now: int)
    requires Inv(t, e, now)
    ensures Good(t, e, NoteControlAck(e, key, now), now)
  {
  }

  lemma DropTrackedKeeps(t: Tuning, e: Endpoint, key: ControlKey, now: int)
    requires Inv(t, e, now)
    ensures Good(t, e, DropTracked(e, key), now)
  {
  }

  lemma NoteClientEOFKeeps(t: Tuning, e: Endpoint, now: int)
    requires Inv(t, e, now)
    ensures Good(t, e, NoteClientEOF(e, now), now)
  {
  }

  lemma WriterBrokenKeeps(t: Tuning, e: Endpoint, now: int)
    requires Inv(t, e, now)
    ensures Good(t, e, MarkLocalWriterBroken(e), now)
  {
  }

  lemma HalfCloseKeeps(t: Tuning, e: Endpoint, now: int)
    requires Inv(t, e, now)
    ensures Good(t, e, HalfCloseLocalWriter(e), now)
  {
  }

  // Compound operations.

  /** Putting the packet on the queue after its flag was raised; `e0` is the state before the flag. */
  lemma SendTerminalKeeps(t: Tuning, e0: Endpoint, e: Endpoint, p: PacketType, clock: int)
    requires Inv(t, e0, clock) && Good(t, e0, e, clock) && e.firstSent == e0.firstSent
    requires !SentFlag(e0.hs, p) && !e0.hs.rstSent && !e0.hs.rstReceived && SentFlag(e.hs, p)
    ensures Good(t, e0, SendTerminal(t, e, p), clock)
  {
    var e' := SendTerminal(t, e, p);
    assert forall i :: 0 <= i < |e.firstSent| ==> SentFlag(e0.hs, e.firstSent[i]);
    assert EmissionsHold(e'.hs, e'.firstSent);
  }

  lemma EmitKeeps(t: Tuning, e: Endpoint, p: PacketType, reason: string, now: int)
    requires Inv(t, e, now) && IsTerminal(p)
    ensures Good(t, e, Emit(t, e, p, reason, now), now)
  {
    EmitCases(t, e, p, reason, now);
    BeginEmitKeeps(t, e, reason, now);
    var e1 := BeginEmit(e, reason);
    if Emits(e, p) {
      EmitFreshKeeps(t, e1, p, now);
      Then(t, e, e1, EmitFresh(t, e1, p, now), now);
    }
  }

  /** The call gets as far as the packet-specific branch and finds the packet unsent. */
  predicate Emits(e: Endpoint, p: PacketType) {
    && !e.life.closed && !e.life.isVirtual
    && !WaitingFor(e, p) && !e.hs.rstSent && !e.hs.rstReceived && !SentFlag(e.hs, p)
  }

  lemma EmitCases(t: Tuning, e: Endpoint, p: PacketType, reason: string, now: int)
    requires IsTerminal(p)
    ensures Emit(t, e, p, reason, now) ==
            if Emits(e, p) then EmitFresh(t, BeginEmit(e, reason), p, now)
            else if e.life.closed || e.life.isVirtual then e else BeginEmit(e, reason)
  {
  }

  function Flagged(t: Tuning, e: Endpoint, p: PacketType, now: int): Endpoint
    requires IsTerminal(p)
  {
    if p == PACKET_STREAM_CLOSE_READ then MarkCloseReadSent(StartWaiting(t, e, p, now))
    else if p == PACKET_STREAM_CLOSE_WRITE then MarkCloseWriteSent(StartWaiting(t, e, p, now))
    else MarkRstSent(StartWaiting(t, ClearQueues(e), p, now))
  }

  /** The emitting branch itself. */
  function EmitFresh(t: Tuning, e: Endpoint, p: PacketType, now: int): Endpoint
    requires IsTerminal(p)
  {
    SendTerminal(t, Flagged(t, e, p, now), p)
  }

  lemma MarkCloseReadSentKeeps(t: Tuning, e: Endpoint, now: int)
    requires Inv(t, e, now) && !e.life.closed && !e.hs.rstSent && !e.hs.closeReadSent
    ensures var e' := MarkCloseReadSent(StartWaiting(t, e, PACKET_STREAM_CLOSE_READ, now));
            Good(t, e, e', now) && e'.hs.closeReadSent && e'.firstSent == e.firstSent
  {
    FlagCloseReadSentKeeps(t, e, now);
    var e2 := FlagCloseReadSent(StartWaiting(t, e, PACKET_STREAM_CLOSE_READ, now));
    TryFinalizeAfter(t, e, e2, now);
    TryFinalizeSendsNothing(e2);
  }

  lemma TryFinalizeSendsNothing(e: Endpoint)
    ensures TryFinalizeRemoteEOF(e).firstSent == e.firstSent && TryFinalizeRemoteEOF(e).hs == e.hs
  {
  }

  lemma EmitFreshKeeps(t: Tuning, e: Endpoint, p: PacketType, now: int)
    requires Inv(t, e, now) && IsTerminal(p) && !e.life.closed && !e.hs.rstSent && !e.hs.rstReceived && !SentFlag(e.hs, p)
    ensures Good(t, e, EmitFresh(t, e, p, now), now)
  {
    if p == PACKET_STREAM_CLOSE_READ {
      MarkCloseReadSentKeeps(t, e, now);
    } else if p == PACKET_STREAM_CLOSE_WRITE {
      MarkCloseWriteSentKeeps(t, e, now);
    } else {
      MarkRstSentKeeps(t, e, now);
    }
    SendTerminalKeeps(t, e, Flagged(t, e, p, now), p, now);
  }

  lemma CloseResetKeeps(t: Tuning, e: Endpoint, reason: string, now: int)
    requires Inv(t, e, now)
    ensures Good(t, e, CloseReset(t, e, reason, now), now)
  {
    var e1 := BeginReset(e, reason);
    BeginResetKeeps(t, e, reason, now);
    EmitKeeps(t, e1, PACKET_STREAM_RST, reason, now);
    Then(t, e, e1, Emit(t, e1, PACKET_STREAM_RST, reason, now), now);
  }

  lemma SettleKeeps(t: Tuning, e: Endpoint, now: int)
    requires Inv(t, e, now)
    ensures Good(t, e, SettleDrain(t, e, now), now)
  {
    if !e.life.closed && e.deferral.active && DrainSettled(e, now) {
      var p := if e.snd.sndBuf == map[] then e.deferral.packet else PACKET_STREAM_RST;
      WithoutDeferralKeeps(t, e, now);
      AfterDrainKeeps(t, WithoutDeferral(e), p, now);
      Then(t, e, WithoutDeferral(e), AfterDrain(t, WithoutDeferral(e), p, now), now);
    }
  }

  lemma AfterDrainKeeps(t: Tuning, e: Endpoint, p: PacketType, now: int)
    requires Inv(t, e, now) && IsTerminal(p)
    ensures Good(t, e, AfterDrain(t, e, p, now), now)
  {
    if p == PACKET_STREAM_RST {
      CloseResetKeeps(t, e, "drain settled", now);
    } else {
      EmitKeeps(t, e, p, "drain settled", now);
    }
  }

  lemma DeferKeeps(t: Tuning, e: Endpoint, p: PacketType, now: int)
    requires Inv(t, e, now) && IsTerminal(p)
    ensures Good(t, e, DeferTerminal(t, e, p, now), now)
  {
    if !e.life.closed && !e.life.isVirtual {
      var e1 := WithDeferral(t, e, p, now);
      WithDeferralKeeps(t, e, p, now);
      SettleKeeps(t, e1, now);
      Then(t, e, e1, SettleDrain(t, e1, now), now);
    }
  }

  lemma CloseKeeps(t: Tuning, e: Endpoint, reason: string, o: CloseOptions, now: int)
    requires Inv(t, e, now)
    ensures Good(t, e, Close(t, e, reason, o, now), now)
  {
    if e.life.isVirtual && !o.force {
    } else if o.force || (!o.sendRst && !o.sendCloseRead && !o.sendCloseWrite) {
      NonVirtualKeeps(t, e, now);
      FinalizeKeeps(t, NonVirtual(e), reason, now);
      Then(t, e, NonVirtual(e), FinalizeClose(NonVirtual(e), reason), now);
    } else if o.sendCloseRead {
      DeferKeeps(t, e, PACKET_STREAM_CLOSE_READ, now);
      EmitKeeps(t, e, PACKET_STREAM_CLOSE_READ, reason, now);
    } else if o.sendCloseWrite {
      EmitKeeps(t, e, PACKET_STREAM_CLOSE_WRITE, reason, now);
    } else {
      CloseResetKeeps(t, e, reason, now);
      var e1 := BeginReset(e, reason);
      BeginResetKeeps(t, e, reason, now);
      DeferKeeps(t, e1, PACKET_STREAM_RST, now);
      Then(t, e, e1, DeferTerminal(t, e1, PACKET_STREAM_RST, now), now);
    }
  }

  lemma CloseAfter(t: Tuning, e: Endpoint, e1: Endpoint, reason: string, o: CloseOptions, now: int)
    requires Good(t, e, e1, now)
    ensures Good(t, e, Close(t, e1, reason, o, now), now)
  {
    CloseKeeps(t, e1, reason, o, now);
    Then(t, e, e1, Close(t, e1, reason, o, now), now);
  }

  lemma TryFinalizeAfter(t: Tuning, e: Endpoint, e1: Endpoint, now: int)
    requires Good(t, e, e1, now)
    ensures Good(t, e, TryFinalizeRemoteEOF(e1), now)
  {
    TryFinalizeKeeps(t, e1, now);
    Then(t, e, e1, TryFinalizeRemoteEOF(e1), now);
  }

  lemma SettleAfter(t: Tuning, e: Endpoint, e1: Endpoint, now: int)
    requires Good(t, e, e1, now)
    ensures Good(t, e, SettleDrain(t, e1, now), now)
  {
    SettleKeeps(t, e1, now);
    Then(t, e, e1, SettleDrain(t, e1, now), now);
  }

  lemma PeerCloseWriteKeeps(t: Tuning, e: Endpoint, now: int)
    requires Inv(t, e, now)
    ensures Good(t, e, PeerCloseWrite(t, e, now), now)
  {
    if !e.life.isVirtual {
      FlagCloseWriteReceivedKeeps(t, e, now);
      SettleAfter(t, e, FlagCloseWriteReceived(e), now);
      TryFinalizeAfter(t, e, SettleDrain(t, FlagCloseWriteReceived(e), now), now);
    }
  }

  /** Marking a reset breaks the invariant only until the forced close of the same step. */
  lemma PeerResetKeeps(t: Tuning, e: Endpoint, now: int)
    requires Inv(t, e, now)
    ensures Good(t, e, PeerReset(t, e, now), now)
    ensures PeerReset(t, e, now).life.closed
  {
    var e1 := NonVirtual(MarkRstReceived(e));
    assert PeerReset(t, e, now) == FinalizeClose(e1, "peer reset received");
    PeerResetState(e);
  }

  lemma PeerResetState(e: Endpoint)
    ensures var e' := FinalizeClose(NonVirtual(MarkRstReceived(e)), "peer reset received");
            && e'.life.closed
            && e'.life.notified == (if e.life.closed then e.life.notified else e.life.notified + 1)
            && e'.hs == (if e.life.isVirtual then e.hs else e.hs.(rstReceived := true))
            && e'.firstSent == e.firstSent && e'.lastProgress == e.lastProgress
            && e'.wait == (if e.life.closed then e.wait else NO_WAIT)
            && e'.deferral == (if e.life.closed then e.deferral else NO_DEFERRAL)
            && e'.tracked <= e.tracked
  {
  }

  lemma DataAckedKeeps(t: Tuning, e: Endpoint, sn: Seq16, now: int)
    requires Inv(t, e, now)
    ensures Good(t, e, DataAcked(t, e, sn, now), now)
  {
    if sn in e.snd.sndBuf {
      var e1 := NoteDataAck(e, sn, now);
      NoteDataAckKeeps(t, e, sn, now);
      TryFinalizeAfter(t, e, e1, now);
      SettleAfter(t, e, if e1.hs.closeReadReceived then TryFinalizeRemoteEOF(e1) else e1, now);
    }
  }

  lemma CloseWriteAckKeeps(t: Tuning, e: Endpoint, now: int)
    requires Inv(t, e, now) && e.hs.closeWriteSent
    ensures Good(t, e, CloseWriteAcknowledged(t, e, now), now)
  {
    var e1 := SettleCloseWriteAck(e);
    SettleCloseWriteAckKeeps(t, e, now);
    var pending := e1.snd.sndBuf != map[] || e1.local.writePending;
    CloseAfter(t, e, e1, "Client local endpoint disconnected after write side closed",
               WITH_CLOSE_READ.(afterDrain := pending), now);
    TryFinalizeAfter(t, e, CloseReadAfterWriterBreak(t, e1, now), now);
  }

  lemma CloseReadAckKeeps(t: Tuning, e: Endpoint, now: int)
    requires Inv(t, e, now) && e.hs.closeReadSent
    ensures Good(t, e, CloseReadAcknowledged(e, now), now)
  {
    SettleCloseReadAckKeeps(t, e, now);
    TryFinalizeAfter(t, e, SettleCloseReadAck(e, now), now);
  }

  lemma RstAckKeeps(t: Tuning, e: Endpoint, now: int)
    requires Inv(t, e, now)
    ensures Good(t, e, RstAcknowledged(e), now)
  {
    MarkRstAckedKeeps(t, e, now);
    FinalizeKeeps(t, MarkRstAcked(e), "RST acknowledged", now);
    Then(t, e, MarkRstAcked(e), RstAcknowledged(e), now);
  }

  lemma AcknowledgedKeeps(t: Tuning, e: Endpoint, p: PacketType, now: int)
    requires Inv(t, e, now) && (IsTerminal(p) ==> SentFlag(e.hs, p))
    ensures Good(t, e, Acknowledged(t, e, p, now), now)
  {
    if p == PACKET_STREAM_CLOSE_READ {
      CloseReadAckKeeps(t, e, now);
    } else if p == PACKET_STREAM_CLOSE_WRITE {
      CloseWriteAckKeeps(t, e, now);
    } else if p == PACKET_STREAM_RST {
      RstAckKeeps(t, e, now);
    } else {
      FinalizeKeeps(t, e, "acknowledged", now);
    }
  }

  lemma ControlAckStepKeeps(t: Tuning, e: Endpoint, key: ControlKey, now: int)
    requires Inv(t, e, now) && (IsTracked(e, key) || (IsTerminal(key.packetType) && e.wait.packet == key.packetType))
    ensures Good(t, e, Acknowledged(t, NoteControlAck(e, key, now), key.packetType, now), now)
  {
    AckedWasSent(t, e, key, now);
    NoteControlAckKeeps(t, e, key, now);
    var e1 := NoteControlAck(e, key, now);
    AcknowledgedKeeps(t, e1, key.packetType, now);
    Then(t, e, e1, Acknowledged(t, e1, key.packetType, now), now);
  }

  lemma ControlAckedKeeps(t: Tuning, e: Endpoint, ack: PacketType, sn: Seq16, fragment: Byte, now: int)
    requires Inv(t, e, now)
    ensures Good(t, e, ControlAcked(t, e, ack, sn, fragment, now), now)
  {
    var origin := ReverseControlAckFor(ack);
    if origin.Some? {
      var p, key := origin.value, ControlKey(origin.value, sn, fragment);
      if IsTracked(e, key) || (IsTerminal(p) && e.wait.packet == p) {
        ControlAckStepKeeps(t, e, key, now);
      }
    }
  }

  /** A terminal packet that is tracked or waited for was sent. */
  lemma AckedWasSent(t: Tuning, e: Endpoint, key: ControlKey, now: int)
    requires Inv(t, e, now) && (IsTracked(e, key) || (IsTerminal(key.packetType) && e.wait.packet == key.packetType))
    ensures IsTerminal(key.packetType) ==> SentFlag(e.hs, key.packetType)
  {
  }

  lemma TerminalTickKeeps(t: Tuning, e: Endpoint, now: int)
    requires Inv(t, e, now)
    ensures Good(t, e, TerminalTick(t, e, now).0, now)
  {
    SettleKeeps(t, e, now);
    FinalizeKeeps(t, e, "Terminal ACK wait timeout", now);
    CloseKeeps(t, e, "Close handshake ACK wait timeout", WITH_RST, now);
    CloseKeeps(t, e, "Client close-read grace elapsed", WITH_CLOSE_WRITE, now);
    CloseKeeps(t, e, "Stream Inactivity Timeout", WITH_RST, now);
  }

  lemma TickKeeps(t: Tuning, e: Endpoint, outcome: TickOutcome, now: int)
    requires Inv(t, e, now) && TickPossible(t, e, outcome, now)
    ensures Good(t, e, Tick(t, e, outcome, now), now)
  {
    if !e.life.closed {
      TerminalTickKeeps(t, e, now);
      var e1 := TerminalTick(t, e, now).0;
      match outcome {
        case Quiet =>
        case DataExpired =>
          CloseAfter(t, e, e1, "Max retransmissions exceeded", WITH_RST, now);
        case ControlExpired(key) =>
          DropTrackedKeeps(t, e1, key, now);
          Then(t, e, e1, DropTracked(e1, key), now);
          ExpiryKeeps(t, e, DropTracked(e1, key), key.packetType, now);
      }
    }
  }

  lemma ExpiryKeeps(t: Tuning, e: Endpoint, e1: Endpoint, p: PacketType, now: int)
    requires Good(t, e, e1, now)
    ensures Good(t, e, PacketExpired(t, e1, p, now), now)
  {
    FinalizeKeeps(t, e1, "Packet TTL expired", now);
    Then(t, e, e1, FinalizeClose(e1, "Packet TTL expired"), now);
    CloseAfter(t, e, e1, "Packet TTL expired", WITH_RST, now);
  }

  lemma DataStepKeeps(t: Tuning, e: Endpoint, v: Event, now: int)
    requires Inv(t, e, now) && v.DataPlane?
    ensures Good(t, e, DataStep(e, v, now), now)
  {
  }

  lemma TrackKeeps(t: Tuning, e: Endpoint, key: ControlKey, now: int)
    requires Inv(t, e, now) && !IsTerminal(key.packetType)
    ensures Good(t, e, e.(tracked := e.tracked + {key}), now)
  {
  }

  lemma EventKeeps(t: Tuning, e: Endpoint, v: Event, now: int)
    requires Inv(t, e, now) && Possible(t, e, v, now)
    ensures Good(t, e, Handle(t, e, v, now), now)
  {
    match v
    case DataPlane(_, _, _, _, _) => DataStepKeeps(t, e, v, now);
    case AckReceived(sn) => DataAckedKeeps(t, e, sn, now);
    case CloseCalled(options) => CloseKeeps(t, e, "requested", options, now);
    case LocalEOF =>
      NoteClientEOFKeeps(t, e, now);
      CloseAfter(t, e, NoteClientEOF(e, now), "Local App Closed Connection (EOF)", WITH_CLOSE_READ.(afterDrain := true), now);
    case WriterBroke =>
      WriterBrokenKeeps(t, e, now);
      CloseAfter(t, e, MarkLocalWriterBroken(e), "Local App Write Error", WITH_CLOSE_WRITE, now);
    case WriterIdle =>
      HalfCloseKeeps(t, e, now);
      TryFinalizeKeeps(t, e, now);
      TryFinalizeAfter(t, e, HalfCloseLocalWriter(e), now);
    case WriteFinished => TryFinalizeKeeps(t, e, now);
    case TrackOther(key) => TrackKeeps(t, e, key, now);
    case CloseReadReceived =>
      if !e.life.isVirtual {
        FlagCloseReadReceivedKeeps(t, e, now);
        TryFinalizeAfter(t, e, FlagCloseReadReceived(e), now);
      }
    case CloseWriteReceived => PeerCloseWriteKeeps(t, e, now);
    case ResetReceived => PeerResetKeeps(t, e, now);
    case ControlAckReceived(ack, sn, fragment) => ControlAckedKeeps(t, e, ack, sn, fragment, now);
    case Ticked(outcome) => TickKeeps(t, e, outcome, now);
  }

  /** One step of a run. */
  lemma StepKeeps(t: Tuning, e: Endpoint, v: Event, e': Endpoint, before: int, now: int)
    requires Inv(t, e, before) && RunStep(t, e, v, e', before, now)
    ensures Good(t, e, e', now)
  {
    ClockMoves(t, e, before, now);
    EventKeeps(t, e, v, now);
  }

  // ------------------------------------------------------------------
  // Every run
  // ------------------------------------------------------------------

  lemma FreshHolds(t: Tuning, isVirtual: bool, isClient: bool, now: int)
    ensures Inv(t, Fresh(isVirtual, isClient, now), now)
  {
  }

  lemma {:induction false} Reachable(t: Tuning, states: seq<Endpoint>, events: seq<Event>, clocks: seq<int>, i: nat)
    requires Run(t, states, events, clocks) && i < |states|
    ensures Inv(t, states[i], clocks[i])
  {
    if i == 0 {
      FreshHolds(t, states[0].life.isVirtual, states[0].isClient, clocks[0]);
    } else {
      Reachable(t, states, events, clocks, i - 1);
      assert RunStep(t, states[i - 1], events[i - 1], states[i], clocks[i - 1], clocks[i]);
      StepKeeps(t, states[i - 1], events[i - 1], states[i], clocks[i - 1], clocks[i]);
    }
  }

  lemma {:induction false} NeverReverts(t: Tuning, states: seq<Endpoint>, events: seq<Event>, clocks: seq<int>, i: nat, j: nat)
    requires Run(t, states, events, clocks) && i <= j < |states|
    ensures Advances(states[i], states[j])
    decreases j
  {
    if i < j {
      NeverReverts(t, states, events, clocks, i, j - 1);
      Reachable(t, states, events, clocks, j - 1);
      assert RunStep(t, states[j - 1], events[j - 1], states[j], clocks[j - 1], clocks[j]);
      StepKeeps(t, states[j - 1], events[j - 1], states[j], clocks[j - 1], clocks[j]);
      AdvancesThrough(states[i], states[j - 1], states[j]);
    }
  }

  /** Flags never revert, closed is absorbing, and after a reset no terminal packet is first emitted. */
  lemma FlagsAreMonotone(t: Tuning, states: seq<Endpoint>, events: seq<Event>, clocks: seq<int>, i: nat, j: nat)
    requires Run(t, states, events, clocks) && i <= j < |states|
    ensures Rises(states[i].hs, states[j].hs)
    ensures states[i].life.closed ==> states[j].life.closed
    ensures states[i].hs.rstSent || states[i].hs.rstReceived ==> states[j].firstSent == states[i].firstSent
  {
    NeverReverts(t, states, events, clocks, i, j);
  }

  /** CLOSE_READ, CLOSE_WRITE and RST are each first emitted at most once, and RST is last. */
  lemma EmittedAtMostOnce(t: Tuning, states: seq<Endpoint>, events: seq<Event>, clocks: seq<int>, i: nat, p: PacketType)
    requires Run(t, states, events, clocks) && i < |states|
    ensures multiset(states[i].firstSent)[p] <= 1
    ensures p in states[i].firstSent ==> IsTerminal(p) && SentFlag(states[i].hs, p)
    ensures PACKET_STREAM_RST in states[i].firstSent ==>
              states[i].firstSent[|states[i].firstSent| - 1] == PACKET_STREAM_RST
  {
    Reachable(t, states, events, clocks, i);
    DistinctMeansOnce(states[i].firstSent, p);
  }

  lemma {:induction false} DistinctMeansOnce(s: seq<PacketType>, p: PacketType)
    requires forall i, j :: 0 <= i < j < |s| ==> s[i] != s[j]
    ensures multiset(s)[p] <= 1
    decreases |s|
  {
    if s != [] {
      var k := |s| - 1;
      DistinctMeansOnce(s[..k], p);
      assert s == s[..k] + [s[k]];
      if s[k] == p {
        assert p !in s[..k];
      }
    }
  }

  /** A wait for an acknowledgement is always for a packet that was sent, and a sent RST is always waited for. */
  lemma WaitsAreJustified(t: Tuning, states: seq<Endpoint>, events: seq<Event>, clocks: seq<int>, i: nat)
    requires Run(t, states, events, clocks) && i < |states|
    ensures states[i].wait.active ==> SentFlag(states[i].hs, states[i].wait.packet)
    ensures states[i].hs.rstSent && !states[i].life.closed ==> WaitingFor(states[i], PACKET_STREAM_RST)
  {
    Reachable(t, states, events, clocks, i);
  }

  /** The owner is told of the close exactly once. */
  lemma ClosedNotifiedOnce(t: Tuning, states: seq<Endpoint>, events: seq<Event>, clocks: seq<int>, i: nat)
    requires Run(t, states, events, clocks) && i < |states|
    ensures states[i].life.notified == if states[i].life.closed then 1 else 0
  {
    Reachable(t, states, events, clocks, i);
  }
}
