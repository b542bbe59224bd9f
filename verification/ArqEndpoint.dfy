/**
 One ARQ endpoint as the program keeps it: an object whose methods update its fields.  Every method is
 proved against the specification of the close machine and of the data plane; what those specifications
 guarantee over whole runs is proved in the other Arq modules.
 */
module ArqEndpoint {
  import opened Wire16
  import opened ArqData
  import opened Octets
  import opened Enums
  import opened ArqClose
  import T = ArqTransport
  import C = ArqCloseSafety
  import A = ArqAnswers

  // ------------------------------------------------------------------
  // Windows
  // ------------------------------------------------------------------

  /** The window size the constructor settles on. */
  function WindowFor(configured: int): nat {
    if configured < 300 then 300 else configured
  }

  /** Four fifths of the window, at least 50: the bound on unacknowledged chunks. */
  function LimitFor(window: nat): nat {
    var l := window * 8 / 10;
    if l < 50 then 50 else l
  }

  /** Any two peers whose configuration was clamped to 1..6000 are within the reach of 16-bit numbers. */
  lemma ClampedConfigurationsAreValid(own: int, peer: int)
    requires 1 <= own <= 6000 && 1 <= peer <= 6000
    ensures T.Config(WindowFor(peer), LimitFor(WindowFor(own))).Valid()
  {
  }

  /** How far the clamp could be raised for two peers with equal settings. */
  lemma ValidConfigurationsExactly(configured: int)
    ensures T.Config(WindowFor(configured), LimitFor(WindowFor(configured))).Valid() <==> configured <= 18204
  {
  }

  // ------------------------------------------------------------------
  // Specification of the data plane calls that the close machine does not cover
  // ------------------------------------------------------------------

  /** What ioLoop sees before it reads: room in the send buffer, and no stop. */
  predicate MayRead(e: Endpoint, limit: nat) {
    |e.snd.sndBuf| < limit && !e.local.stopRead && !e.life.closed
  }

  function Read(e: Endpoint, chunk: Bytes, now: int): Endpoint {
    e.(snd := SendChunk(e.snd, chunk), lastProgress := now)
  }

  function Counted(e: Endpoint, count: nat): Endpoint {
    var pending := e.local.pendingInbound;
    e.(local := e.local.(pendingInbound := if pending >= count then pending - count else 0))
  }

  predicate Progressed(r: Receiver, window: nat, batch: seq<Segment>)
    decreases |batch|
  {
    batch != [] &&
    var n := |batch| - 1;
    Progressed(r, window, batch[..n]) || Classify(AcceptAll(r, window, batch[..n]), window, batch[n].sn).Fresh?
  }

  predicate WriterGone(e: Endpoint) {
    e.local.writerBroken || e.hs.closeWriteSent || e.hs.closeWriteAcked
  }

  predicate MustCloseWrite(e: Endpoint) {
    && e.local.writerBroken && !e.hs.closeWriteSent && !WaitingFor(e, PACKET_STREAM_CLOSE_WRITE)
    && !e.life.closed && !e.hs.rstReceived && !e.hs.rstSent
  }

  const WRITER_GONE := "Inbound data received after local writer closed"

  function BatchArrived(t: Tuning, window: nat, e: Endpoint, batch: seq<Segment>, now: int): Endpoint {
    var e1 := Counted(e, |batch|);
    if WriterGone(e) then if MustCloseWrite(e1) then Close(t, e1, WRITER_GONE, WITH_CLOSE_WRITE, now) else e1
    else Stored(window, e1, batch, now)
  }

  /** Closing the writing side does not touch the count of queued segments. */
  lemma CountSurvives(t: Tuning, e: Endpoint, now: int)
    ensures Close(t, e, WRITER_GONE, WITH_CLOSE_WRITE, now).local.pendingInbound == e.local.pendingInbound
  {
  }

  /** Data for a writer that is gone is not stored, and the peer is told to stop, once. */
  lemma GoneWriterRefuses(t: Tuning, window: nat, e: Endpoint, batch: seq<Segment>, before: int, now: int)
    requires C.Inv(t, e, before) && before <= now && A.Alive(e) && (e.local.writerBroken || e.hs.closeWriteSent)
    ensures var e' := BatchArrived(t, window, e, batch, now);
            if e.local.writerBroken && !e.hs.closeWriteSent && !e.hs.rstSent && !e.hs.rstReceived
            then A.GoneOut(t, Counted(e, |batch|), e', PACKET_STREAM_CLOSE_WRITE, now) && e'.rcv.rcvBuf == map[]
            else e' == Counted(e, |batch|)
  {
    C.ClockMoves(t, e, before, now);
    var e1 := Counted(e, |batch|);
    assert C.Inv(t, e1, now);
    A.Emitting(t, e1, PACKET_STREAM_CLOSE_WRITE, WRITER_GONE, now);
  }

  function Stored(window: nat, e: Endpoint, batch: seq<Segment>, now: int): Endpoint {
    e.(rcv := AcceptAll(e.rcv, window, batch),
       lastProgress := if Progressed(e.rcv, window, batch) then now else e.lastProgress)
  }

  /** The newest of two numbers, as the receiver compares them. */
  function Newest(a: Seq16, b: Seq16): Seq16 {
    if Sub16(b, a) < 32768 then b else a
  }

  /** The comparison picks the later index exactly while the later one is less than 32768 ahead. */
  lemma NewestIsLatest(n: nat, m: nat)
    requires n - 65536 < m < n + 65536
    ensures Newest(Wire(n), Wire(m)) == Wire(if n < m then m else n) <==> n - 32768 <= m < n + 32768
  {
    if m >= n {
      SubWire(m, n);
    } else {
      SubWireBehind(m, n);
    }
    WireEqual(n, m);
  }

  lemma WireEqual(n: nat, m: nat)
    requires n - 65536 < m < n + 65536
    ensures Wire(n) == Wire(m) <==> n == m
  {
    if n >= m {
      SubWire(n, m);
    } else {
      SubWire(m, n);
    }
  }

  function NewestOf(acked: seq<Seq16>): Option<Seq16>
    decreases |acked|
  {
    if acked == [] then None
    else
      var n := |acked| - 1;
      var before := NewestOf(acked[..n]);
      if before.None? then Some(acked[n]) else Some(Newest(before.value, acked[n]))
  }

  lemma BatchUnfolds(r: Receiver, window: nat, batch: seq<Segment>, i: nat)
    requires i < |batch|
    ensures var before, v := AcceptAll(r, window, batch[..i]), Classify(AcceptAll(r, window, batch[..i]), window, batch[i].sn);
            && AcceptAll(r, window, batch[..i + 1]) == Accept(before, window, batch[i])
            && AckedOf(r, window, batch[..i + 1]) == AckedOf(r, window, batch[..i]) + (if v.Acknowledged() then [batch[i].sn] else [])
            && Progressed(r, window, batch[..i + 1]) == (Progressed(r, window, batch[..i]) || v.Fresh?)
  {
    assert batch[..i + 1][..i] == batch[..i];
  }

  function TakeOut(e: Endpoint): Endpoint {
    e.(rcv := Drained(e.rcv), local := e.local.(writePending := Contiguous(e.rcv) != []))
  }

  /** The close options a settled drain asks for. */
  function OptionsFor(p: PacketType): CloseOptions {
    CloseOptions(false, p == PACKET_STREAM_RST, p == PACKET_STREAM_CLOSE_WRITE, p == PACKET_STREAM_CLOSE_READ, false)
  }

  lemma AfterDrainIsClose(t: Tuning, e: Endpoint, p: PacketType, now: int)
    ensures AfterDrain(t, e, p, now) == Close(t, e, "drain settled", OptionsFor(p), now)
  {
    assert !e.life.isVirtual ==> NonVirtual(e) == e;
  }

  // ------------------------------------------------------------------
  // The object
  // ------------------------------------------------------------------

  class Arq {
    const tuning: Tuning
    const windowSize: nat
    const limit: nat
    const isClient: bool
    var sndNxt: Seq16
    var sndBuf: map<Seq16, Bytes>
    var rcvNxt: Seq16
    var rcvBuf: map<Seq16, Bytes>
    var controlSndBuf: set<ControlKey>
    var life: Life
    var hs: Handshake
    var local: Local
    var deferral: Deferral
    var wait: AckWait
    var lastProgress: int
    var clientEOFAt: Option<int>
    var closeReadAckedAt: Option<int>
    var firstSent: seq<PacketType>

    ghost function View(): Endpoint
      reads this
    {
      Endpoint(Sender(sndNxt, sndBuf), Receiver(rcvNxt, rcvBuf), controlSndBuf, life, hs, local, deferral, wait,
               isClient, lastProgress, clientEOFAt, closeReadAckedAt, firstSent)
    }

    /** NewARQ. */
    constructor (tuning: Tuning, configured: int, isVirtual: bool, isClient: bool, now: int)
      ensures this.tuning == tuning && this.isClient == isClient
      ensures windowSize == (if configured < 300 then 300 else configured)
      ensures limit == if windowSize * 8 / 10 < 50 then 50 else windowSize * 8 / 10
      ensures View() == Endpoint(Sender(0, map[]), Receiver(0, map[]), {}, Life(Open, false, "", isVirtual, 0),
                                 Handshake(false, false, false, false, false, false, false, false, false),
                                 Local(false, false, false, false, 0), NO_DEFERRAL, NO_WAIT, isClient, now, None, None, [])
    {
      this.tuning, this.isClient := tuning, isClient;
      var w := WindowFor(configured);
      windowSize, limit := w, LimitFor(w);
      sndNxt, sndBuf, rcvNxt, rcvBuf, controlSndBuf := 0, map[], 0, map[], {};
      life := Life(Open, false, "", isVirtual, 0);
      hs := Handshake(false, false, false, false, false, false, false, false, false);
      local := Local(false, false, false, false, 0);
      deferral, wait := NO_DEFERRAL, NO_WAIT;
      lastProgress, clientEOFAt, closeReadAckedAt, firstSent := now, None, None, [];
    }

    // ---- data plane ----

    /** One turn of ioLoop over a read of `chunk`: nothing while the window is full or once reading has stopped. */
    method SendRead(chunk: Bytes, now: int) returns (sent: Option<Seq16>)
      modifies this
      ensures sent == if MayRead(old(View()), limit) && chunk != [] then Some(old(sndNxt)) else None
      ensures sent.Some? <==> |old(sndBuf)| < limit && !old(local).stopRead && !old(life).closed && chunk != []
      ensures View() == if sent.Some? then Read(old(View()), chunk, now) else old(View())
      ensures sent.Some? ==> sndBuf == old(sndBuf)[sent.value := chunk] && sndNxt as int == (old(sndNxt) + 1) % 65536 && lastProgress == now
    {
      if |sndBuf| >= limit {
        return None;
      }
      if local.stopRead || life.closed {
        return None;
      }
      if |chunk| == 0 {
        return None;
      }
      lastProgress := now;
      var sn := sndNxt;
      sndNxt := Next16(sndNxt);
      sndBuf := sndBuf[sn := chunk];
      return Some(sn);
    }

    /** Data for a broken writer: the peer is told to stop sending, once. */
    method RefuseForBrokenWriter(now: int)
      modifies this
      ensures var e := old(View());
              View() == if MustCloseWrite(e) then Close(tuning, e, WRITER_GONE, WITH_CLOSE_WRITE, now) else e
    {
      if local.writerBroken && !hs.closeWriteSent && !(wait.active && wait.packet == PACKET_STREAM_CLOSE_WRITE)
         && !life.closed && !hs.rstReceived && !hs.rstSent
      {
        CloseWith(WRITER_GONE, WITH_CLOSE_WRITE, now);
      }
    }

    /** ReceiveData: count the segment and queue it, unless nobody wants it any more. */
    method Announce(queueFull: bool, now: int) returns (taken: bool)
      modifies this
      ensures var e := old(View());
              var dead := e.life.closed || e.hs.rstReceived || e.hs.rstSent;
              && taken == (!dead && !e.local.writerBroken && !queueFull)
              && View() ==
                 if dead then e
                 else if e.local.writerBroken then
                   if MustCloseWrite(e) then Close(tuning, e, WRITER_GONE, WITH_CLOSE_WRITE, now) else e
                 else if queueFull then e
                 else e.(local := e.local.(pendingInbound := e.local.pendingInbound + 1))
    {
      if life.closed || hs.rstReceived || hs.rstSent {
        return false;
      }
      if local.writerBroken {
        RefuseForBrokenWriter(now);
        return false;
      }
      local := local.(pendingInbound := local.pendingInbound + 1);
      if !queueFull {
        return true;
      }
      if local.pendingInbound > 0 {
        local := local.(pendingInbound := local.pendingInbound - 1);
      }
      return false;
    }

    /** processReceivedDataBatch: the acknowledgements sent, and the number the gap scan starts from. */
    method ProcessReceivedDataBatch(batch: seq<Segment>, now: int) returns (acked: seq<Seq16>, newest: Option<Seq16>)
      modifies this
      ensures View() == BatchArrived(tuning, windowSize, old(View()), batch, now)
      ensures acked == if old(local.writerBroken || hs.closeWriteSent || hs.closeWriteAcked) then []
                       else AckedOf(old(View()).rcv, windowSize, batch)
      ensures newest == NewestOf(acked)
      ensures local.pendingInbound == if old(local.pendingInbound) >= |batch| then old(local.pendingInbound) - |batch| else 0
    {
      CountSurvives(tuning, Counted(View(), |batch|), now);
      CountDown(|batch|);
      if local.writerBroken || hs.closeWriteSent || hs.closeWriteAcked {
        RefuseForBrokenWriter(now);
        return [], None;
      }
      acked, newest := Store(batch, now);
    }

    method CountDown(count: nat)
      modifies this`local
      ensures View() == Counted(old(View()), count)
    {
      local := local.(pendingInbound := if local.pendingInbound >= count then local.pendingInbound - count else 0);
    }

    method Store(batch: seq<Segment>, now: int) returns (acked: seq<Seq16>, newest: Option<Seq16>)
      modifies this`rcvBuf, this`lastProgress
      ensures View() == Stored(windowSize, old(View()), batch, now)
      ensures acked == AckedOf(old(View()).rcv, windowSize, batch) && newest == NewestOf(acked)
    {
      var progressed;
      acked, newest, progressed := AcceptBatch(batch);
      if progressed {
        lastProgress := now;
      }
    }

    /** One segment: acknowledged or not, new or not. */
    method AcceptSegment(seg: Segment) returns (ack: bool, isNew: bool)
      modifies this`rcvBuf
      ensures View() == old(View()).(rcv := Accept(old(View()).rcv, windowSize, seg))
      ensures var v := Classify(old(View()).rcv, windowSize, seg.sn); ack == v.Acknowledged() && isNew == v.Fresh?
    {
      var sn, diff := seg.sn, Sub16(seg.sn, rcvNxt);
      if diff >= 32768 {
        return true, false;
      }
      if diff > windowSize {
        return false, false;
      }
      var present := sn in rcvBuf;
      if !present && |rcvBuf| >= windowSize && sn != rcvNxt {
        return false, false;
      }
      if !present {
        rcvBuf := rcvBuf[sn := seg.payload];
        return true, true;
      }
      return true, false;
    }

    method AcceptBatch(batch: seq<Segment>) returns (acked: seq<Seq16>, newest: Option<Seq16>, progressed: bool)
      modifies this`rcvBuf
      ensures View() == old(View()).(rcv := AcceptAll(old(View()).rcv, windowSize, batch))
      ensures acked == AckedOf(old(View()).rcv, windowSize, batch) && newest == NewestOf(acked)
      ensures progressed == Progressed(old(View()).rcv, windowSize, batch)
    {
      acked, newest, progressed := [], None, false;
      ghost var e, r := View(), Receiver(rcvNxt, rcvBuf);
      for i := 0 to |batch|
        invariant View() == e.(rcv := AcceptAll(r, windowSize, batch[..i]))
        invariant acked == AckedOf(r, windowSize, batch[..i]) && newest == NewestOf(acked)
        invariant progressed == Progressed(r, windowSize, batch[..i])
      {
        BatchUnfolds(r, windowSize, batch, i);
        var ack, isNew := AcceptSegment(batch[i]);
        if ack {
          assert (acked + [batch[i].sn])[..|acked|] == acked;
          newest := if newest.None? then Some(batch[i].sn) else Some(Newest(newest.value, batch[i].sn));
          acked := acked + [batch[i].sn];
        }
        progressed := progressed || isNew;
      }
      assert batch[..|batch|] == batch;
    }

    /** writeLoop: take the contiguous chunks out of the receive buffer. */
    method TakeContiguous() returns (toWrite: seq<Bytes>)
      modifies this
      ensures View() == TakeOut(old(View()))
      ensures toWrite == Contiguous(old(View()).rcv)
    {
      toWrite := TakeFront();
      local := local.(writePending := |toWrite| > 0);
    }

    method TakeFront() returns (toWrite: seq<Bytes>)
      modifies this`rcvNxt, this`rcvBuf
      ensures Receiver(rcvNxt, rcvBuf) == Drained(old(Receiver(rcvNxt, rcvBuf)))
      ensures toWrite == Contiguous(old(Receiver(rcvNxt, rcvBuf)))
    {
      toWrite := [];
      ghost var r := Receiver(rcvNxt, rcvBuf);
      while rcvNxt in rcvBuf
        invariant Drained(Receiver(rcvNxt, rcvBuf)) == Drained(r)
        invariant toWrite + Contiguous(Receiver(rcvNxt, rcvBuf)) == Contiguous(r)
        decreases |rcvBuf|
      {
        TakeUnfolds(Receiver(rcvNxt, rcvBuf));
        toWrite := toWrite + [rcvBuf[rcvNxt]];
        rcvBuf := rcvBuf - {rcvNxt};
        rcvNxt := Next16(rcvNxt);
      }
    }

    /** ReceiveAck. */
    method ReceiveAck(sn: Seq16, now: int) returns (handled: bool)
      modifies this
      ensures View() == DataAcked(tuning, old(View()), sn, now) && handled == (sn in old(sndBuf))
    {
      handled := sn in sndBuf;
      if handled {
        sndBuf := sndBuf - {sn};
        lastProgress := now;
        if hs.closeReadReceived {
          TryFinalizeRemoteEOF();
        }
        SettleTerminalDrain(now);
      }
    }

    // ---- final close ----

    method ClearAllQueues()
      modifies this`sndBuf, this`rcvBuf, this`controlSndBuf
      ensures View() == ClearQueues(old(View()))
    {
      sndBuf, rcvBuf, controlSndBuf := map[], map[], {};
    }

    method Finalize(reason: string)
      modifies this
      ensures View() == FinalizeClose(old(View()), reason)
    {
      if life.closed || life.isVirtual {
        return;
      }
      life := life.(closeReason := reason, closed := true);
      deferral, wait := NO_DEFERRAL, NO_WAIT;
      if life.state.Reset? || hs.rstReceived || hs.rstSent {
        life := life.(state := Reset);
      } else if hs.closeReadSent || hs.closeReadReceived || hs.closeWriteSent || hs.closeWriteReceived {
        life := life.(state := TimeWait);
      } else {
        life := life.(state := Closing);
      }
      ClearAllQueues();
      life := life.(notified := life.notified + 1);
    }

    method TryFinalizeClientLocalDisconnect()
      modifies this
      ensures View() == TryFinalizeLocalDisconnect(old(View()))
    {
      if isClient && !life.closed && local.writerBroken && hs.closeWriteAcked && hs.closeReadSent && hs.closeReadAcked
         && sndBuf == map[] && rcvBuf == map[] && local.pendingInbound == 0 && !local.writePending
         && !wait.active && !deferral.active
      {
        Finalize("client local disconnect completed");
      }
    }

    method TryFinalizeRemoteEOF()
      modifies this
      ensures View() == ArqClose.TryFinalizeRemoteEOF(old(View()))
    {
      var waitingForCloseReadAck := wait.active && wait.packet == PACKET_STREAM_CLOSE_READ;
      var receiveDrained := (rcvBuf == map[] && local.pendingInbound == 0) || local.writerBroken;
      var writeSideSettled :=
        (!local.writerBroken && (!hs.closeWriteSent || hs.closeWriteAcked))
        || (local.writerBroken && (hs.closeWriteAcked || hs.closeWriteReceived));
      if !life.closed && hs.closeReadReceived && receiveDrained && (!local.writePending || local.writerBroken)
         && (hs.closeReadAcked || (hs.closeReadSent && !waitingForCloseReadAck)) && writeSideSettled
      {
        Finalize(HANDSHAKE_COMPLETED);
        return;
      }
      TryFinalizeClientLocalDisconnect();
    }

    // ---- marks ----

    method MarkCloseReadSent()
      modifies this
      ensures View() == ArqClose.MarkCloseReadSent(old(View()))
    {
      hs := hs.(closeReadSent := true);
      life := life.(state := if hs.closeReadReceived then Closing else HalfClosedLocal);
      TryFinalizeRemoteEOF();
    }

    method MarkCloseReadReceived()
      modifies this
      ensures View() == ArqClose.MarkCloseReadReceived(old(View()))
    {
      if life.isVirtual {
        return;
      }
      hs := hs.(closeReadReceived := true);
      life := life.(state := if hs.closeReadSent then Closing else HalfClosedRemote);
      TryFinalizeRemoteEOF();
    }

    method MarkCloseReadAcked(now: int)
      modifies this
      ensures View() == ArqClose.MarkCloseReadAcked(old(View()), now)
    {
      hs := hs.(closeReadAcked := true);
      closeReadAckedAt := Some(now);
      if hs.closeReadReceived {
        life := life.(state := Closing);
      }
    }

    method MarkCloseWriteSent()
      modifies this
      ensures View() == ArqClose.MarkCloseWriteSent(old(View()))
    {
      hs := hs.(closeWriteSent := true);
      local := local.(writerBroken := true, writeClosed := true);
      rcvBuf := map[];
      if hs.closeReadReceived {
        life := life.(state := Closing);
      }
    }

    method MarkCloseWriteReceived(now: int)
      modifies this
      ensures View() == PeerCloseWrite(tuning, old(View()), now)
    {
      if life.isVirtual {
        return;
      }
      hs := hs.(closeWriteReceived := true);
      local := local.(stopRead := true);
      sndBuf := map[];
      SettleTerminalDrain(now);
      TryFinalizeRemoteEOF();
    }

    method MarkRstSent()
      modifies this
      ensures View() == ArqClose.MarkRstSent(old(View()))
    {
      hs := hs.(rstSent := true);
      ClearAllQueues();
      life := life.(state := Reset);
    }

    method MarkRstReceived()
      modifies this
      ensures View() == ArqClose.MarkRstReceived(old(View()))
    {
      if life.isVirtual {
        return;
      }
      hs := hs.(rstReceived := true);
      ClearAllQueues();
      life := life.(state := Reset);
    }

    method MarkWriterBroken()
      modifies this
      ensures View() == MarkLocalWriterBroken(old(View()))
    {
      local := local.(writerBroken := true, writePending := false);
      rcvBuf := map[];
    }

    // ---- emitting terminal packets ----

    /** SendControlPacketWithTTL for a terminal packet. */
    method SendControl(p: PacketType)
      modifies this
      ensures View() == SendTerminal(tuning, old(View()), p)
    {
      var key := ControlKey(p, 0, 0);
      if tuning.reliableControl {
        if key in controlSndBuf {
          return;
        }
        controlSndBuf := controlSndBuf + {key};
      }
      firstSent := firstSent + [p];
    }

    method Begin(reason: string)
      modifies this
      ensures View() == BeginEmit(old(View()), reason)
    {
      life := life.(closeReason := reason);
      local := local.(stopRead := true);
      deferral := NO_DEFERRAL;
    }

    method AwaitAck(p: PacketType, now: int)
      modifies this
      ensures View() == StartWaiting(tuning, old(View()), p, now)
    {
      wait := AckWait(true, p, Some(now + tuning.ackWait));
    }

    /** emitTerminalPacketWithTTL. */
    method EmitTerminal(p: PacketType, reason: string, now: int)
      modifies this
      ensures View() == Emit(tuning, old(View()), p, reason, now)
    {
      if life.closed || life.isVirtual {
        return;
      }
      Begin(reason);
      if wait.active && wait.packet == p {
        return;
      }
      if p == PACKET_STREAM_CLOSE_READ {
        if hs.rstSent || hs.rstReceived || hs.closeReadSent {
          return;
        }
        AwaitAck(p, now);
        MarkCloseReadSent();
        SendControl(p);
      } else if p == PACKET_STREAM_CLOSE_WRITE {
        if hs.rstReceived || hs.rstSent || hs.closeWriteSent {
          return;
        }
        AwaitAck(p, now);
        MarkCloseWriteSent();
        SendControl(p);
      } else if p == PACKET_STREAM_RST {
        if hs.rstReceived || hs.rstSent {
          return;
        }
        ClearAllQueues();
        AwaitAck(p, now);
        MarkRstSent();
        SendControl(p);
      }
    }

    method SettleTerminalDrain(now: int)
      modifies this
      ensures View() == SettleDrain(tuning, old(View()), now)
      decreases 1
    {
      if life.closed || !deferral.active {
        return;
      }
      var p: PacketType;
      if sndBuf == map[] {
        p := deferral.packet;
      } else if deferral.deadline.Some? && now > deferral.deadline.value {
        p := PACKET_STREAM_RST;
      } else {
        return;
      }
      deferral := NO_DEFERRAL;
      AfterDrainIsClose(tuning, View(), p, now);
      CloseWith("drain settled", OptionsFor(p), now);
    }

    method Defer(p: PacketType, now: int)
      modifies this
      ensures View() == DeferTerminal(tuning, old(View()), p, now)
      decreases 2
    {
      if life.closed || life.isVirtual {
        return;
      }
      if !life.state.Reset? && !life.state.Closed? {
        life := life.(state := Draining);
      }
      local := local.(stopRead := true);
      var deadline := now + tuning.drainTimeout;
      if deferral.deadline.Some? && deadline <= deferral.deadline.value {
        deadline := deferral.deadline.value;
      }
      deferral := Deferral(true, p, Some(deadline));
      if sndBuf == map[] {
        SettleTerminalDrain(now);
      }
    }

    /** Close. */
    method CloseWith(reason: string, o: CloseOptions, now: int)
      modifies this
      ensures View() == Close(tuning, old(View()), reason, o, now)
      decreases if o.afterDrain then 3 else 0
    {
      if life.isVirtual && !o.force {
        return;
      }
      if o.force || (!o.sendRst && !o.sendCloseRead && !o.sendCloseWrite) {
        life := life.(isVirtual := false);
        Finalize(reason);
        return;
      }
      if o.sendCloseRead {
        if o.afterDrain {
          Defer(PACKET_STREAM_CLOSE_READ, now);
          return;
        }
        EmitTerminal(PACKET_STREAM_CLOSE_READ, reason, now);
        return;
      }
      if o.sendCloseWrite {
        EmitTerminal(PACKET_STREAM_CLOSE_WRITE, reason, now);
        return;
      }
      if life.closed {
        return;
      }
      if hs.rstSent || hs.rstReceived || (wait.active && wait.packet == PACKET_STREAM_RST)
         || (deferral.active && deferral.packet == PACKET_STREAM_RST)
      {
        return;
      }
      var hasPendingData := sndBuf != map[];
      life := life.(closeReason := reason, state := Reset);
      deferral := NO_DEFERRAL;
      if o.afterDrain && hasPendingData {
        Defer(PACKET_STREAM_RST, now);
        return;
      }
      EmitTerminal(PACKET_STREAM_RST, reason, now);
    }

    // ---- acknowledgements of terminal packets ----

    method ClearWaitingAck(p: PacketType)
      modifies this
      ensures View() == ClearWaiting(old(View()), p)
    {
      if wait.active && wait.packet == p {
        wait := NO_WAIT;
      }
    }

    method CloseReadAfterBrokenWriter(now: int)
      modifies this
      ensures View() == CloseReadAfterWriterBreak(tuning, old(View()), now)
    {
      if isClient && local.writerBroken && !life.closed && !hs.rstSent && !hs.rstReceived
         && !hs.closeReadSent && !hs.closeReadReceived
      {
        var pendingOutbound := sndBuf != map[] || local.writePending;
        CloseWith("Client local endpoint disconnected after write side closed",
                  WITH_CLOSE_READ.(afterDrain := pendingOutbound), now);
      }
    }

    /** handleTrackedCloseOrResetAck, handleTrackedTerminalAck and handleWaitingTerminalAck. */
    method HandleTerminalAck(p: PacketType, now: int)
      modifies this
      ensures View() == Acknowledged(tuning, old(View()), p, now)
    {
      if p == PACKET_STREAM_CLOSE_READ {
        MarkCloseReadAcked(now);
        ClearWaitingAck(p);
        TryFinalizeRemoteEOF();
      } else if p == PACKET_STREAM_CLOSE_WRITE {
        hs := hs.(closeWriteAcked := true);
        local := local.(writerBroken := true, writeClosed := true);
        ClearWaitingAck(p);
        CloseReadAfterBrokenWriter(now);
        TryFinalizeRemoteEOF();
      } else if p == PACKET_STREAM_RST {
        hs := hs.(rstAcked := true);
        ClearAllQueues();
        life := life.(state := Reset);
        Finalize("RST acknowledged");
      } else if IsCloseStreamPacket(p) {
        Finalize("acknowledged");
      }
    }

    method ReceiveControlAck(ack: PacketType, sn: Seq16, fragment: Byte, now: int)
      modifies this
      ensures View() == ControlAcked(tuning, old(View()), ack, sn, fragment, now)
    {
      var origin := ReverseControlAckFor(ack);
      if origin.None? {
        return;
      }
      var p := origin.value;
      var key := ControlKey(p, sn, fragment);
      var tracked := key in controlSndBuf
                     || (IsCloseStreamPacket(p) && exists k :: k in controlSndBuf && k.packetType == p);
      if !tracked && !(IsTerminal(p) && wait.packet == p) {
        return;
      }
      lastProgress := now;
      if tracked {
        controlSndBuf := Untrack(controlSndBuf, key);
      }
      HandleTerminalAck(p, now);
    }

    // ---- the retransmit tick ----

    /** The acknowledgement of a terminal packet is overdue. */
    method HandleOverdueAck(now: int) returns (done: bool)
      requires !deferral.active && wait.active && Passed(wait.deadline, now)
      modifies this
      ensures (View(), done) == TerminalTick(tuning, old(View()), now)
    {
      var waitingFor := wait.packet;
      if waitingFor == PACKET_STREAM_RST {
        Finalize("Terminal ACK wait timeout");
        return true;
      }
      if waitingFor == PACKET_STREAM_CLOSE_READ || waitingFor == PACKET_STREAM_CLOSE_WRITE {
        CloseWith("Close handshake ACK wait timeout", WITH_RST, now);
      }
      return false;
    }

    /** A client whose half-close was acknowledged long enough ago. */
    predicate IsGraceOver(now: int)
      reads this
    {
      && isClient
      && ((clientEOFAt.Some? && now - clientEOFAt.value >= GRACE)
          || (closeReadAckedAt.Some? && now - closeReadAckedAt.value >= GRACE))
      && !life.closed && !hs.rstSent && !hs.rstReceived && hs.closeReadSent && hs.closeReadAcked
      && !hs.closeWriteSent && !hs.closeWriteAcked && !hs.closeWriteReceived
      && !(wait.active && wait.packet == PACKET_STREAM_CLOSE_WRITE)
    }

    /** handleTerminalRetransmitState. */
    method HandleTerminalState(now: int) returns (done: bool)
      modifies this
      ensures (View(), done) == TerminalTick(tuning, old(View()), now)
    {
      if deferral.active {
        if sndBuf == map[] || (deferral.deadline.Some? && now > deferral.deadline.value) {
          SettleTerminalDrain(now);
        }
        return life.closed;
      }
      if wait.active && wait.deadline.Some? && now > wait.deadline.value {
        done := HandleOverdueAck(now);
        return;
      }
      if hs.rstReceived && !life.closed {
        MarkRstReceived();
        CloseWith("Peer reset signaled", FORCE, now);
        return true;
      }
      if IsGraceOver(now) {
        CloseWith("Client close-read grace elapsed", WITH_CLOSE_WRITE, now);
        return false;
      }
      if now - lastProgress > tuning.inactivity {
        CloseWith("Stream Inactivity Timeout", WITH_RST, now);
        return true;
      }
      return false;
    }

    /** handleTrackedPacketTTLExpiry. */
    method ExpirePacket(p: PacketType, now: int)
      modifies this
      ensures View() == PacketExpired(tuning, old(View()), p, now)
    {
      if IsCloseStreamPacket(p) && p != PACKET_STREAM_CLOSE_READ && p != PACKET_STREAM_CLOSE_WRITE {
        Finalize("Packet TTL expired");
        return;
      }
      CloseWith("Packet TTL expired", WITH_RST, now);
    }

    // ---- local connection ----

    /** ioLoop meets the end of the local stream. */
    method ReadEOF(now: int)
      modifies this
      ensures View() == C.Handle(tuning, old(View()), C.LocalEOF, now)
    {
      if isClient && clientEOFAt.None? {
        clientEOFAt := Some(now);
      }
      CloseWith("Local App Closed Connection (EOF)", WITH_CLOSE_READ.(afterDrain := true), now);
    }

    /** writeLoop fails to write. */
    method WriteFailed(now: int)
      modifies this
      ensures View() == C.Handle(tuning, old(View()), C.WriterBroke, now)
    {
      MarkWriterBroken();
      CloseWith("Local App Write Error", WITH_CLOSE_WRITE, now);
    }

    /** writeLoop finds nothing to write. */
    method WriterIdle(now: int)
      modifies this
      ensures View() == C.Handle(tuning, old(View()), C.WriterIdle, now)
    {
      if hs.closeReadReceived && local.pendingInbound == 0 {
        if !local.writeClosed && !life.closed {
          local := local.(writeClosed := true);
        }
      }
      TryFinalizeRemoteEOF();
    }

    /** The owner of the stream handles the peer's RST: marked and force-closed. */
    method ResetByPeer(now: int)
      modifies this
      ensures View() == PeerReset(tuning, old(View()), now)
    {
      MarkRstReceived();
      CloseWith("peer reset received", FORCE, now);
    }
  }
}
