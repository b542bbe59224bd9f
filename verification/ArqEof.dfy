/**
 Graceful end of stream: one data direction together with the close machines at both of its ends.
 `a` sends the data, `b` receives it.  CLOSE_READ can reach `b` only once `a` has put it on the network;
 every other packet may be lost, late, repeated or forged.
 */
module ArqEof {
  import opened Wire16
  import opened ArqData
  import opened Octets
  import opened Pieces
  import opened ArqClose
  import opened ArqFrame
  import C = ArqCloseSafety
  import E = ArqEndpoint
  import T = ArqTransport
  import S = ArqTransportSafety

  datatype Pair = Pair(t: T.System, a: Endpoint, b: Endpoint)

  datatype PairStep =
    | Data(step: T.Step, progress: bool)
    | AckArrives(index: nat)
    | AtSender(event: C.Event)
    | AtReceiver(event: C.Event)

  ghost predicate Init(p: Pair, now: int) {
    && T.Init(p.t)
    && (exists client :: p.a == C.Fresh(false, client, now))
    && (exists client :: p.b == C.Fresh(false, client, now))
  }

  predicate Possible(c: T.Config, tn: Tuning, p: Pair, s: PairStep, now: int) {
    match s
    case Data(step, _) => T.Enabled(c, p.t, step) && DataPossible(p, step)
    case AckArrives(index) => T.Enabled(c, p.t, T.AckArrives(index))
    case AtSender(v) =>
      && C.Possible(tn, p.a, v, now) && !v.AckReceived?
      && (v.DataPlane? ==> v.snd == p.a.snd)
      && (v.CloseCalled? ==> Considerate(p.a, v.options))
    case AtReceiver(v) =>
      && C.Possible(tn, p.b, v, now)
      && (v.DataPlane? ==> v.rcv == p.b.rcv && v.writePending == p.b.local.writePending)
      && (v.CloseCalled? ==> Considerate(p.b, v.options))
      && (v.CloseReadReceived? ==> Announced(p.a))
      && (v.WriterIdle? ==> !p.b.local.writePending && p.b.rcv.rcvNxt !in p.b.rcv.rcvBuf)
  }

  predicate DataPossible(p: Pair, step: T.Step) {
    match step
    case Send(_) => true
    case Resend(_) => true
    case Arrive(_) => !p.b.life.closed && !p.b.hs.rstSent && !p.b.hs.rstReceived && !p.b.local.writerBroken
    case Process(_) => true
    case Take => !p.b.life.closed && !p.b.local.writePending
    case Write(_) => p.b.local.writePending && !p.b.local.writeClosed
    case _ => false
  }

  function Next(c: T.Config, tn: Tuning, p: Pair, s: PairStep, now: int): Pair
    requires Possible(c, tn, p, s, now)
  {
    match s
    case Data(step, progress) =>
      var t' := T.Apply(c, p.t, step);
      Pair(t', SenderAfter(p.a, t', step, now), ReceiverAfter(p.b, p.t, t', step, progress, now))
    case AckArrives(index) =>
      AfterSender(Pair(T.Apply(c, p.t, T.AckArrives(index)), p.a, p.b), DataAcked(tn, p.a, Wire(index), now))
    case AtSender(v) => AfterSender(p, C.Handle(tn, p.a, v, now))
    case AtReceiver(v) => AfterReceiver(p, C.Handle(tn, p.b, v, now))
  }

  function SenderAfter(a: Endpoint, t': T.System, step: T.Step, now: int): Endpoint {
    if step.Send? then a.(snd := t'.snd, lastProgress := now) else a
  }

  function ReceiverAfter(b: Endpoint, t: T.System, t': T.System, step: T.Step, progress: bool, now: int): Endpoint {
    var pending := b.local.pendingInbound;
    match step
    case Arrive(_) => b.(local := b.local.(pendingInbound := pending + 1))
    case Process(count) =>
      b.(rcv := t'.rcv, lastProgress := if progress then now else b.lastProgress,
         local := b.local.(pendingInbound := if pending >= count then pending - count else 0))
    case Take => b.(rcv := t'.rcv, local := b.local.(writePending := Contiguous(t.rcv) != []))
    case Write(_) => b.(lastProgress := now, local := b.local.(writePending := t'.writing != []))
    case _ => b
  }

  /** The data plane follows what a close operation did to the queues at either end. */
  function Follow(t: T.System, a: Endpoint, b: Endpoint): T.System {
    t.(snd := a.snd, cleared := t.cleared || a.snd != t.snd,
       stopped := t.stopped || a.local.stopRead || a.life.closed,
       rcv := b.rcv, reset := t.reset || b.rcv != t.rcv,
       broken := b.local.writerBroken, writing := if b.local.writerBroken then [] else t.writing)
  }

  function AfterSender(p: Pair, a': Endpoint): Pair {
    Pair(Follow(p.t, a', p.b), a', p.b)
  }

  function AfterReceiver(p: Pair, b': Endpoint): Pair {
    Pair(Follow(p.t, p.a, b'), p.a, b')
  }

  ghost predicate Run(c: T.Config, tn: Tuning, states: seq<Pair>, steps: seq<PairStep>, clocks: seq<int>) {
    && |states| == |steps| + 1 && |clocks| == |states|
    && Init(states[0], clocks[0])
    && forall i {:trigger steps[i]} :: 0 <= i < |steps| ==> RunStep(c, tn, states[i], steps[i], states[i + 1], clocks[i + 1])
  }

  ghost predicate RunStep(c: T.Config, tn: Tuning, p: Pair, s: PairStep, p': Pair, now: int) {
    Possible(c, tn, p, s, now) && p' == Next(c, tn, p, s, now)
  }

  // ------------------------------------------------------------------
  // The endpoint's calls are the transport's steps
  // ------------------------------------------------------------------

  /** The endpoint may read exactly when the transport may send, and does the same. */
  lemma ReadIsSend(c: T.Config, tn: Tuning, p: Pair, chunk: Bytes, now: int)
    requires Joined(p)
    ensures var send := Data(T.Send(chunk), true);
            && (E.MayRead(p.a, c.limit) <==> Possible(c, tn, p, send, now))
            && (E.MayRead(p.a, c.limit) ==> Next(c, tn, p, send, now).a == E.Read(p.a, chunk, now))
  {
  }

  lemma TakeOutIsTake(c: T.Config, tn: Tuning, p: Pair, now: int)
    requires Joined(p) && Possible(c, tn, p, Data(T.Take, true), now)
    ensures Next(c, tn, p, Data(T.Take, true), now).b == E.TakeOut(p.b)
  {
  }

  /** A batch handled by the endpoint is the transport's processing of the queued copies, acknowledgements included. */
  lemma BatchIsProcess(c: T.Config, tn: Tuning, p: Pair, count: nat, now: int)
    requires Joined(p) && !p.b.local.writerBroken && !p.b.hs.closeWriteSent && !p.b.hs.closeWriteAcked && count <= |p.t.inbound|
    requires var batch := T.OnWireAll(p.t.inbound[..count]);
             Possible(c, tn, p, Data(T.Process(count), E.Progressed(p.b.rcv, c.window, batch)), now)
    ensures var batch := T.OnWireAll(p.t.inbound[..count]);
            var p' := Next(c, tn, p, Data(T.Process(count), E.Progressed(p.b.rcv, c.window, batch)), now);
            && p'.b == E.BatchArrived(tn, c.window, p.b, batch, now)
            && forall sn :: sn in AckedOf(p.b.rcv, c.window, batch) ==> exists n :: n in p'.t.acks && Wire(n) == sn
  {
    var copies := p.t.inbound[..count];
    forall sn | sn in AckedOf(p.b.rcv, c.window, T.OnWireAll(copies))
      ensures exists n :: n in T.AckedIndices(p.b.rcv, c.window, copies) && Wire(n) == sn
    {
      S.AckedNumbersAreThoseOfIndices(p.b.rcv, c.window, copies, sn);
    }
  }

  // ------------------------------------------------------------------
  // The invariant
  // ------------------------------------------------------------------

  /** No RST and no CLOSE_WRITE concerning this direction, and a working writer. */
  predicate Calm(p: Pair) {
    SendsCalmly(p.a.hs) && ReceivesCalmly(p.b)
  }

  ghost predicate Joined(p: Pair) {
    && p.a.snd == p.t.snd && p.b.rcv == p.t.rcv && p.t.broken == p.b.local.writerBroken
    && !p.a.life.isVirtual && !p.b.life.isVirtual
    && (p.a.local.stopRead || p.a.life.closed <==> p.t.stopped)
  }

  /** Nothing more will be sent, and what was sent has arrived. */
  ghost predicate Sealed(t: T.System) {
    t.stopped && forall n: nat :: t.taken <= n < |t.sent| ==> Wire(n) in t.rcv.rcvBuf
  }

  predicate AllHandedOver(t: T.System) {
    t.stopped && t.taken == |t.sent| && t.writing == []
  }

  ghost predicate Kept(c: T.Config, p: Pair) {
    && T.Inv(c, p.t)
    && (p.t.cleared ==> p.a.life.closed) && (p.t.reset ==> p.b.life.closed)
    && (Announced(p.a) && !p.b.life.closed ==> Sealed(p.t))
    && (!p.b.local.writePending ==> p.t.writing == [])
    && (p.b.hs.closeReadReceived ==> Announced(p.a))
    && (HandshakeClosed(p.b) || p.b.local.writeClosed ==> AllHandedOver(p.t))
  }

  ghost predicate EofInv(c: T.Config, p: Pair) {
    Joined(p) && (Calm(p) ==> Kept(c, p))
  }

  // ------------------------------------------------------------------
  // Close operations
  // ------------------------------------------------------------------

  /** Queues are wiped the way the transport's own steps wipe them. */
  lemma FollowKeeps(c: T.Config, t: T.System, a: Endpoint, b: Endpoint)
    requires c.Valid() && T.Inv(c, t) && !t.broken && !b.local.writerBroken
    requires a.snd == t.snd || (a.snd == t.snd.(sndBuf := map[]) && a.life.closed)
    requires b.rcv == t.rcv || b.rcv == t.rcv.(rcvBuf := map[])
    ensures T.Inv(c, Follow(t, a, b))
  {
    var t1 := if a.local.stopRead || a.life.closed then T.Apply(c, t, T.StopReading) else t;
    var t2 := if a.snd != t.snd then T.Apply(c, t1, T.ClearSender) else t1;
    var t3 := if b.rcv != t.rcv then T.Apply(c, t2, T.ResetReceiver) else t2;
    S.StepKeeps(c, t, T.StopReading);
    S.StepKeeps(c, t1, T.ClearSender);
    S.StepKeeps(c, t2, T.ResetReceiver);
    assert t3 == Follow(t, a, b);
  }

  /** With an empty send buffer, conservation says that everything sent has arrived. */
  lemma EmptySendBufferSeals(t: T.System)
    requires t.Intact() && T.Conserved(t) && t.snd.sndBuf == map[]
    ensures forall n: nat :: t.taken <= n < |t.sent| ==> Wire(n) in t.rcv.rcvBuf
  {
  }

  lemma FrameAtSender(c: T.Config, p: Pair, a': Endpoint)
    requires c.Valid() && EofInv(c, p) && Frame(p.a, a')
    ensures EofInv(c, AfterSender(p, a'))
  {
    var p' := AfterSender(p, a');
    if Calm(p') {
      assert Calm(p);
      FollowKeeps(c, p.t, a', p.b);
      if Announced(a') && !Announced(p.a) && !p.b.life.closed {
        EmptySendBufferSeals(p.t);
      }
    }
  }

  /** Sealed, with nothing buffered and nothing in the writer's hands: all was handed over. */
  lemma SealedAndIdle(c: T.Config, t: T.System)
    requires T.Inv(c, t) && Sealed(t) && t.rcv.rcvNxt !in t.rcv.rcvBuf && t.writing == []
    ensures AllHandedOver(t)
  {
  }

  lemma FrameAtReceiver(c: T.Config, p: Pair, b': Endpoint)
    requires c.Valid() && EofInv(c, p) && Frame(p.b, b')
    ensures EofInv(c, AfterReceiver(p, b'))
  {
    var p' := AfterReceiver(p, b');
    if Calm(p') {
      assert Calm(p);
      FollowKeeps(c, p.t, p.a, b');
      if HandshakeClosed(b') && !p.b.life.closed {
        SealedAndIdle(c, p.t);
      }
    }
  }

  lemma AckKeeps(c: T.Config, tn: Tuning, p: Pair, index: nat, now: int)
    requires c.Valid() && EofInv(c, p) && T.Enabled(c, p.t, T.AckArrives(index))
    ensures EofInv(c, Next(c, tn, p, AckArrives(index), now))
  {
    var t1 := T.Apply(c, p.t, T.AckArrives(index));
    var noted := Wire(index) in p.a.snd.sndBuf;
    var a1 := if noted then NoteDataAck(p.a, Wire(index), now) else p.a;
    var p1 := Pair(t1, a1, p.b);
    assert a1.snd == t1.snd;
    if Calm(p1) {
      S.StepKeeps(c, p.t, T.AckArrives(index));
    }
    var a' := DataAcked(tn, p.a, Wire(index), now);
    if noted {
      DataAckedFrame(tn, p.a, Wire(index), now);
    }
    FrameAtSender(c, p1, a');
    assert Follow(t1, a', p.b) == Follow(p1.t, a', p.b);
  }

  lemma SenderEventKeeps(c: T.Config, tn: Tuning, p: Pair, v: C.Event, now: int)
    requires c.Valid() && EofInv(c, p) && Possible(c, tn, p, AtSender(v), now)
    ensures EofInv(c, Next(c, tn, p, AtSender(v), now))
  {
    var a' := C.Handle(tn, p.a, v, now);
    var a1 := match v
      case DataPlane(_, _, _, _, _) => a'
      case CloseReadReceived => FlagCloseReadReceived(p.a)
      case WriterIdle =>
        if p.a.hs.closeReadReceived && p.a.local.pendingInbound == 0 then HalfCloseLocalWriter(p.a) else p.a
      case _ => p.a;
    assert SameSender(p.a, a1);
    SameSenderKeeps(c, p, a1);
    if v.CloseReadReceived? || v.WriterIdle? {
      TryFinalizeFrame(a1);
    } else if v.DataPlane? {
    } else {
      EventFrame(tn, p.a, v, now);
    }
    FrameAtSender(c, p.(a := a1), a');
  }

  /** Changes at the sending end that its outbound data does not see. */
  predicate SameSender(a: Endpoint, a': Endpoint) {
    && a'.snd == a.snd && a'.firstSent == a.firstSent && SameLife(a.life, a'.life)
    && a'.local.stopRead == a.local.stopRead
    && (SendsCalmly(a'.hs) ==> SendsCalmly(a.hs))
  }

  lemma SameSenderKeeps(c: T.Config, p: Pair, a': Endpoint)
    requires EofInv(c, p) && SameSender(p.a, a')
    ensures EofInv(c, p.(a := a'))
  {
  }

  /** Changes at the receiving end that its inbound data does not see. */
  predicate SameReceiver(b: Endpoint, b': Endpoint) {
    && b'.rcv == b.rcv && SameLife(b.life, b'.life)
    && b'.local.writerBroken == b.local.writerBroken && b'.local.writePending == b.local.writePending
    && (ReceivesCalmly(b') ==> ReceivesCalmly(b))
  }

  lemma SameReceiverKeeps(c: T.Config, p: Pair, b': Endpoint)
    requires EofInv(c, p) && SameReceiver(p.b, b')
    requires b'.hs.closeReadReceived ==> p.b.hs.closeReadReceived || Announced(p.a)
    requires b'.local.writeClosed && !p.b.local.writeClosed ==> Calm(p) ==> AllHandedOver(p.t)
    ensures EofInv(c, p.(b := b'))
  {
  }

  /** The part of a receiver event that comes before the close machine proper. */
  function Prepared(b: Endpoint, v: C.Event, now: int): Endpoint {
    match v
    case DataPlane(_, _, _, _, _) => C.DataStep(b, v, now)
    case AckReceived(sn) => if sn in b.snd.sndBuf then NoteDataAck(b, sn, now) else b
    case CloseReadReceived => FlagCloseReadReceived(b)
    case WriterIdle => if b.hs.closeReadReceived && b.local.pendingInbound == 0 then HalfCloseLocalWriter(b) else b
    case _ => b
  }

  lemma PreparedKeeps(c: T.Config, tn: Tuning, p: Pair, v: C.Event, now: int)
    requires c.Valid() && EofInv(c, p) && Possible(c, tn, p, AtReceiver(v), now)
    ensures EofInv(c, p.(b := Prepared(p.b, v, now)))
  {
    if v.WriterIdle? && Calm(p) && p.b.hs.closeReadReceived && !p.b.life.closed {
      SealedAndIdle(c, p.t);
    }
    SameReceiverKeeps(c, p, Prepared(p.b, v, now));
  }

  lemma PreparedFrame(c: T.Config, tn: Tuning, p: Pair, v: C.Event, now: int)
    requires Possible(c, tn, p, AtReceiver(v), now) && !p.b.life.isVirtual
    ensures Frame(Prepared(p.b, v, now), C.Handle(tn, p.b, v, now))
  {
    if v.CloseReadReceived? || v.WriterIdle? {
      TryFinalizeFrame(Prepared(p.b, v, now));
    } else if v.AckReceived? {
      if v.sn in p.b.snd.sndBuf {
        DataAckedFrame(tn, p.b, v.sn, now);
      }
    } else if !v.DataPlane? {
      EventFrame(tn, p.b, v, now);
    }
  }

  lemma ReceiverEventKeeps(c: T.Config, tn: Tuning, p: Pair, v: C.Event, now: int)
    requires c.Valid() && EofInv(c, p) && Possible(c, tn, p, AtReceiver(v), now)
    ensures EofInv(c, Next(c, tn, p, AtReceiver(v), now))
  {
    PreparedKeeps(c, tn, p, v, now);
    PreparedFrame(c, tn, p, v, now);
    FrameAtReceiver(c, p.(b := Prepared(p.b, v, now)), C.Handle(tn, p.b, v, now));
  }

  // ------------------------------------------------------------------
  // Data steps
  // ------------------------------------------------------------------

  lemma ProcessStaysSealed(c: T.Config, t: T.System, count: nat)
    requires c.Valid() && T.Inv(c, t) && Sealed(t) && !t.broken && T.Enabled(c, t, T.Process(count))
    ensures Sealed(T.Apply(c, t, T.Process(count)))
  {
    var batch := t.inbound[..count];
    forall i | 0 <= i < |batch|
      ensures S.Genuine(c, t.sent, t.taken, batch[i])
    {
      assert T.YoungEnough(t, t.inbound[i]);
    }
    S.AcceptBatch(c, t.sent, t.taken, t.rcv, batch);
  }

  lemma TakeStaysSealed(c: T.Config, t: T.System)
    requires c.Valid() && T.Inv(c, t) && Sealed(t) && !t.broken && !t.reset
    ensures Sealed(T.Apply(c, t, T.Take))
  {
    var t' := T.Apply(c, t, T.Take);
    forall n: nat | t'.taken <= n < |t.sent|
      ensures Wire(n) in t'.rcv.rcvBuf
    {
      S.TakeKeepsReceived(t.taken, t.rcv, n);
    }
  }

  lemma SealedStays(c: T.Config, p: Pair, step: T.Step)
    requires c.Valid() && T.Inv(c, p.t) && Sealed(p.t) && !p.t.broken && !p.t.reset
    requires T.Enabled(c, p.t, step) && DataPossible(p, step)
    ensures Sealed(T.Apply(c, p.t, step))
  {
    if step.Process? {
      ProcessStaysSealed(c, p.t, step.count);
    } else if step.Take? {
      TakeStaysSealed(c, p.t);
    }
  }

  lemma HandedOverStays(c: T.Config, p: Pair, step: T.Step)
    requires c.Valid() && T.Inv(c, p.t) && AllHandedOver(p.t)
    requires T.Enabled(c, p.t, step) && DataPossible(p, step)
    ensures AllHandedOver(T.Apply(c, p.t, step))
  {
    if step.Take? {
      S.TakeKeepsWriter(c, p.t);
    }
  }

  lemma DataKeeps(c: T.Config, tn: Tuning, p: Pair, step: T.Step, progress: bool, now: int)
    requires c.Valid() && EofInv(c, p) && Possible(c, tn, p, Data(step, progress), now)
    ensures EofInv(c, Next(c, tn, p, Data(step, progress), now))
  {
    var p' := Next(c, tn, p, Data(step, progress), now);
    DataJoined(c, tn, p, step, progress, now);
    if Calm(p') {
      S.StepKeeps(c, p.t, step);
      if Announced(p.a) && !p.b.life.closed {
        SealedStays(c, p, step);
      }
      if HandshakeClosed(p.b) || p.b.local.writeClosed {
        HandedOverStays(c, p, step);
      }
    }
  }

  /** A data step touches the endpoints only in their queues and counters. */
  lemma DataJoined(c: T.Config, tn: Tuning, p: Pair, step: T.Step, progress: bool, now: int)
    requires Joined(p) && Possible(c, tn, p, Data(step, progress), now)
    ensures var p' := Next(c, tn, p, Data(step, progress), now);
            && Joined(p') && p'.t == T.Apply(c, p.t, step)
            && p'.a.hs == p.a.hs && p'.a.life == p.a.life && p'.a.firstSent == p.a.firstSent
            && p'.b.hs == p.b.hs && p'.b.life == p.b.life
            && p'.b.local.writerBroken == p.b.local.writerBroken && p'.b.local.writeClosed == p.b.local.writeClosed
            && p'.t.cleared == p.t.cleared && p'.t.reset == p.t.reset
            && (p.t.writing == [] ==> !p'.b.local.writePending ==> p'.t.writing == [])
            && (!p'.b.local.writePending ==> p.b.local.writePending ==> p'.t.writing == [])
  {
  }

  lemma StepKeeps(c: T.Config, tn: Tuning, p: Pair, s: PairStep, now: int)
    requires c.Valid() && EofInv(c, p) && Possible(c, tn, p, s, now)
    ensures EofInv(c, Next(c, tn, p, s, now))
  {
    match s
    case Data(step, progress) => DataKeeps(c, tn, p, step, progress, now);
    case AckArrives(index) => AckKeeps(c, tn, p, index, now);
    case AtSender(v) => SenderEventKeeps(c, tn, p, v, now);
    case AtReceiver(v) => ReceiverEventKeeps(c, tn, p, v, now);
  }

  // ------------------------------------------------------------------
  // Every run
  // ------------------------------------------------------------------

  lemma InitHolds(c: T.Config, p: Pair, now: int)
    requires Init(p, now)
    ensures EofInv(c, p)
  {
  }

  lemma {:induction false} Reachable(c: T.Config, tn: Tuning, states: seq<Pair>, steps: seq<PairStep>, clocks: seq<int>, i: nat)
    requires c.Valid() && Run(c, tn, states, steps, clocks) && i < |states|
    ensures EofInv(c, states[i])
  {
    if i == 0 {
      InitHolds(c, states[0], clocks[0]);
    } else {
      Reachable(c, tn, states, steps, clocks, i - 1);
      StepAt(c, tn, states, steps, clocks, i - 1);
    }
  }

  lemma StepAt(c: T.Config, tn: Tuning, states: seq<Pair>, steps: seq<PairStep>, clocks: seq<int>, i: nat)
    requires c.Valid() && Run(c, tn, states, steps, clocks) && i < |steps| && EofInv(c, states[i])
    ensures EofInv(c, states[i + 1])
  {
    StepKeeps(c, tn, states[i], steps[i], clocks[i + 1]);
  }

  /** Graceful end of stream loses nothing: a peer that completed the close handshake wrote every byte sent. */
  lemma GracefulEofLosesNothing(c: T.Config, tn: Tuning, states: seq<Pair>, steps: seq<PairStep>, clocks: seq<int>, i: nat)
    requires c.Valid() && Run(c, tn, states, steps, clocks) && i < |states|
    requires Calm(states[i]) && HandshakeClosed(states[i].b)
    ensures states[i].t.written == Flatten(states[i].t.sent)
  {
    Reachable(c, tn, states, steps, clocks, i);
    AllWritten(c, states[i].t);
  }

  /** The same holds as soon as the peer half-closes its writer. */
  lemma HalfCloseLosesNothing(c: T.Config, tn: Tuning, states: seq<Pair>, steps: seq<PairStep>, clocks: seq<int>, i: nat)
    requires c.Valid() && Run(c, tn, states, steps, clocks) && i < |states|
    requires Calm(states[i]) && states[i].b.local.writeClosed
    ensures states[i].t.written == Flatten(states[i].t.sent)
  {
    Reachable(c, tn, states, steps, clocks, i);
    AllWritten(c, states[i].t);
  }

  lemma AllWritten(c: T.Config, t: T.System)
    requires T.Inv(c, t) && !t.broken && AllHandedOver(t)
    ensures t.written == Flatten(t.sent)
  {
    assert t.sent[..t.taken] == t.sent;
    assert t.written + [] == t.written;
  }

  /** CLOSE_READ on the network means nothing more is read and everything sent has arrived, until the peer closes. */
  lemma AnnouncedMeansArrived(c: T.Config, tn: Tuning, states: seq<Pair>, steps: seq<PairStep>, clocks: seq<int>, i: nat, n: nat)
    requires c.Valid() && Run(c, tn, states, steps, clocks) && i < |states|
    requires Calm(states[i]) && Announced(states[i].a) && !states[i].b.life.closed && n < |states[i].t.sent|
    ensures var t := states[i].t;
            t.stopped && (n < t.taken || (Wire(n) in t.rcv.rcvBuf && t.rcv.rcvBuf[Wire(n)] == t.sent[n]))
  {
    Reachable(c, tn, states, steps, clocks, i);
    var t := states[i].t;
    if n >= t.taken {
      SubWire(n, t.taken);
      assert T.BufferEntry(c, t.sent, t.taken, t.rcv, Wire(n));
    }
  }
}
