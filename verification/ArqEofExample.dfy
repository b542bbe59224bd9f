/** A run that ends gracefully: the premises of the end-of-stream results can be met. */
module ArqEofExample {
  import opened Wire16
  import opened Octets
  import opened Pieces
  import opened ArqData
  import opened Enums
  import opened ArqClose
  import opened ArqFrame
  import opened ArqEof
  import C = ArqCloseSafety
  import T = ArqTransport

  const CHUNK: Bytes := [1]
  const COPY := T.Copy(0, CHUNK)

  /** The data plane while one chunk travels. */
  function Plane(snd: Sender, rcv: Receiver, inbound: seq<T.Copy>, writing: Bytes, written: Bytes, taken: nat, acks: set<nat>): T.System {
    T.System(snd, false, false, rcv, inbound, false, false, writing, written, [CHUNK], taken, {COPY}, acks)
  }

  const SENT := Sender(1, map[0 := CHUNK])
  const ACKED := Sender(1, map[])
  const WAITING := Receiver(0, map[])
  const HELD := Receiver(0, map[0 := CHUNK])
  const TAKEN := Receiver(1, map[])

  function Start(): Pair {
    Pair(T.System(Sender(0, map[]), false, false, WAITING, [], false, false, [], [], [], 0, {}, {}),
         C.Fresh(false, true, 0), C.Fresh(false, false, 0))
  }

  function SenderWith(snd: Sender): Endpoint {
    C.Fresh(false, true, 0).(snd := snd)
  }

  function ReceiverWith(rcv: Receiver, pending: nat, writePending: bool): Endpoint {
    C.Fresh(false, false, 0).(rcv := rcv, local := Local(false, false, writePending, false, pending))
  }

  ghost predicate Goes(c: T.Config, tn: Tuning, p: Pair, s: PairStep, p': Pair) {
    RunStep(c, tn, p, s, p', 0)
  }

  lemma Sending(c: T.Config, tn: Tuning)
    requires c.limit > 0
    ensures Goes(c, tn, Start(), Data(T.Send(CHUNK), true),
                 Pair(Plane(SENT, WAITING, [], [], [], 0, {}), SenderWith(SENT), ReceiverWith(WAITING, 0, false)))
  {
    assert map[][0 as Seq16 := CHUNK] == map[0 := CHUNK];
    assert {} + {COPY} == {COPY};
  }

  lemma Arriving(c: T.Config, tn: Tuning)
    ensures Goes(c, tn, Pair(Plane(SENT, WAITING, [], [], [], 0, {}), SenderWith(SENT), ReceiverWith(WAITING, 0, false)),
                 Data(T.Arrive(COPY), true),
                 Pair(Plane(SENT, WAITING, [COPY], [], [], 0, {}), SenderWith(SENT), ReceiverWith(WAITING, 1, false)))
  {
  }

  lemma Processing(c: T.Config, tn: Tuning)
    requires c.window > 0
    ensures Goes(c, tn, Pair(Plane(SENT, WAITING, [COPY], [], [], 0, {}), SenderWith(SENT), ReceiverWith(WAITING, 1, false)),
                 Data(T.Process(1), true),
                 Pair(Plane(SENT, HELD, [], [], [], 0, {0}), SenderWith(SENT), ReceiverWith(HELD, 0, false)))
  {
    var batch := T.OnWireAll([COPY]);
    assert [COPY][..1] == [COPY] && [COPY][1..] == [] && [COPY][..0] == [];
    assert batch == [Segment(0, CHUNK)] && batch[..0] == [];
    assert T.OnWireAll([]) == [];
    assert AcceptAll(WAITING, c.window, []) == WAITING;
    assert Classify(WAITING, c.window, 0).Fresh?;
    assert AcceptAll(WAITING, c.window, batch) == HELD;
    assert T.AckedIndices(WAITING, c.window, [COPY]) == {0};
  }

  lemma Taking(c: T.Config, tn: Tuning)
    ensures Goes(c, tn, Pair(Plane(SENT, HELD, [], [], [], 0, {0}), SenderWith(SENT), ReceiverWith(HELD, 0, false)),
                 Data(T.Take, true),
                 Pair(Plane(SENT, TAKEN, [], CHUNK, [], 1, {0}), SenderWith(SENT), ReceiverWith(TAKEN, 0, true)))
  {
    TakeUnfolds(HELD);
    assert TakenOne(HELD) == TAKEN;
    assert Drained(TAKEN) == TAKEN && Contiguous(TAKEN) == [];
    assert Contiguous(HELD) == [CHUNK];
    FlattenOne(CHUNK);
    assert [] + CHUNK == CHUNK;
  }

  lemma Writing(c: T.Config, tn: Tuning)
    ensures Goes(c, tn, Pair(Plane(SENT, TAKEN, [], CHUNK, [], 1, {0}), SenderWith(SENT), ReceiverWith(TAKEN, 0, true)),
                 Data(T.Write(1), true),
                 Pair(Plane(SENT, TAKEN, [], [], CHUNK, 1, {0}), SenderWith(SENT), ReceiverWith(TAKEN, 0, false)))
  {
    assert [] + CHUNK[..1] == CHUNK && CHUNK[1..] == [];
  }

  lemma Acknowledging(c: T.Config, tn: Tuning)
    ensures Goes(c, tn, Pair(Plane(SENT, TAKEN, [], [], CHUNK, 1, {0}), SenderWith(SENT), ReceiverWith(TAKEN, 0, false)),
                 AckArrives(0), Delivered())
  {
    assert ForgetAcked(SENT, 0) == ACKED;
    assert NoteDataAck(SenderWith(SENT), 0, 0) == SenderWith(ACKED);
  }

  /** The chunk is written and acknowledged. */
  function Delivered(): Pair {
    Pair(Plane(ACKED, TAKEN, [], [], CHUNK, 1, {0}), SenderWith(ACKED), ReceiverWith(TAKEN, 0, false))
  }

  // The endpoints as the close handshake proceeds.

  function SenderEnded(tn: Tuning): Endpoint {
    C.Handle(tn, SenderWith(ACKED), C.LocalEOF, 0)
  }

  function ReceiverTold(): Endpoint {
    MarkCloseReadReceived(ReceiverWith(TAKEN, 0, false))
  }

  function ReceiverEnded(tn: Tuning): Endpoint {
    C.Handle(tn, ReceiverTold(), C.LocalEOF, 0)
  }

  function ReceiverDone(tn: Tuning): Endpoint {
    ControlAcked(tn, ReceiverEnded(tn), PACKET_STREAM_CLOSE_READ_ACK, 0, 0, 0)
  }

  lemma SenderAnnounces(tn: Tuning)
    requires tn.reliableControl
    ensures var a := SenderEnded(tn); Announced(a) && SendsCalmly(a.hs) && a.snd == ACKED && !a.life.closed
  {
  }

  lemma ReceiverCloses(tn: Tuning)
    requires tn.reliableControl
    ensures var b := ReceiverTold(); b.rcv == TAKEN && !b.life.closed && ReceivesCalmly(b)
    ensures var b := ReceiverEnded(tn); b.rcv == TAKEN && !b.life.closed && ReceivesCalmly(b) && WaitingFor(b, PACKET_STREAM_CLOSE_READ)
    ensures HandshakeClosed(ReceiverDone(tn)) && ReceivesCalmly(ReceiverDone(tn))
  {
  }

  function Announcing(tn: Tuning): Pair {
    AfterSender(Delivered(), SenderEnded(tn))
  }

  function Told(tn: Tuning): Pair {
    AfterReceiver(Announcing(tn), ReceiverTold())
  }

  function Ended(tn: Tuning): Pair {
    AfterReceiver(Told(tn), ReceiverEnded(tn))
  }

  function Done(tn: Tuning): Pair {
    AfterReceiver(Ended(tn), ReceiverDone(tn))
  }

  lemma Announces(c: T.Config, tn: Tuning)
    ensures Goes(c, tn, Delivered(), AtSender(C.LocalEOF), Announcing(tn))
  {
  }

  lemma Tells(c: T.Config, tn: Tuning)
    requires tn.reliableControl
    ensures Goes(c, tn, Announcing(tn), AtReceiver(C.CloseReadReceived), Told(tn))
  {
    SenderAnnounces(tn);
  }

  lemma Ends(c: T.Config, tn: Tuning)
    ensures Goes(c, tn, Told(tn), AtReceiver(C.LocalEOF), Ended(tn))
  {
  }

  const ACK_OF_CLOSE := C.ControlAckReceived(PACKET_STREAM_CLOSE_READ_ACK, 0, 0)

  lemma AckHandled(tn: Tuning, b: Endpoint)
    ensures C.Possible(tn, b, ACK_OF_CLOSE, 0)
    ensures C.Handle(tn, b, ACK_OF_CLOSE, 0) == ControlAcked(tn, b, PACKET_STREAM_CLOSE_READ_ACK, 0, 0, 0)
  {
  }

  lemma ReceiverSteps(c: T.Config, tn: Tuning, p: Pair, v: C.Event, b': Endpoint)
    requires C.Possible(tn, p.b, v, 0) && b' == C.Handle(tn, p.b, v, 0) && v.ControlAckReceived?
    ensures Goes(c, tn, p, AtReceiver(v), AfterReceiver(p, b'))
  {
  }

  lemma Finishes(c: T.Config, tn: Tuning)
    ensures Goes(c, tn, Ended(tn), AtReceiver(ACK_OF_CLOSE), Done(tn))
  {
    var p := Ended(tn);
    AckHandled(tn, p.b);
    ReceiverSteps(c, tn, p, ACK_OF_CLOSE, ReceiverDone(tn));
  }

  /** Some run ends in this state. */
  ghost predicate Reaches(c: T.Config, tn: Tuning, p: Pair) {
    exists states, steps, clocks :: Run(c, tn, states, steps, clocks) && states[|states| - 1] == p
  }

  lemma StartReached(c: T.Config, tn: Tuning)
    ensures Reaches(c, tn, Start())
  {
    assert Init(Start(), 0);
    assert Run(c, tn, [Start()], [], [0]);
  }

  lemma OneMore(c: T.Config, tn: Tuning, p: Pair, s: PairStep, p': Pair)
    requires Reaches(c, tn, p) && Goes(c, tn, p, s, p')
    ensures Reaches(c, tn, p')
  {
    var states, steps, clocks :| Run(c, tn, states, steps, clocks) && states[|states| - 1] == p;
    RunGrows(c, tn, states, steps, clocks, s, p');
  }

  lemma RunGrows(c: T.Config, tn: Tuning, states: seq<Pair>, steps: seq<PairStep>, clocks: seq<int>, s: PairStep, p': Pair)
    requires Run(c, tn, states, steps, clocks) && RunStep(c, tn, states[|states| - 1], s, p', 0)
    ensures Run(c, tn, states + [p'], steps + [s], clocks + [0])
  {
    var states', steps', clocks' := states + [p'], steps + [s], clocks + [0];
    forall i {:trigger steps'[i]} | 0 <= i < |steps'|
      ensures RunStep(c, tn, states'[i], steps'[i], states'[i + 1], clocks'[i + 1])
    {
      if i < |steps| {
        assert steps'[i] == steps[i];
      }
    }
  }

  lemma ChunkDelivered(c: T.Config, tn: Tuning)
    requires c.window > 0 && c.limit > 0
    ensures Reaches(c, tn, Delivered())
  {
    var sent := Pair(Plane(SENT, WAITING, [], [], [], 0, {}), SenderWith(SENT), ReceiverWith(WAITING, 0, false));
    var arrived := Pair(Plane(SENT, WAITING, [COPY], [], [], 0, {}), SenderWith(SENT), ReceiverWith(WAITING, 1, false));
    var held := Pair(Plane(SENT, HELD, [], [], [], 0, {0}), SenderWith(SENT), ReceiverWith(HELD, 0, false));
    var taken := Pair(Plane(SENT, TAKEN, [], CHUNK, [], 1, {0}), SenderWith(SENT), ReceiverWith(TAKEN, 0, true));
    var written := Pair(Plane(SENT, TAKEN, [], [], CHUNK, 1, {0}), SenderWith(SENT), ReceiverWith(TAKEN, 0, false));
    StartReached(c, tn);
    Sending(c, tn);
    OneMore(c, tn, Start(), Data(T.Send(CHUNK), true), sent);
    Arriving(c, tn);
    OneMore(c, tn, sent, Data(T.Arrive(COPY), true), arrived);
    Processing(c, tn);
    OneMore(c, tn, arrived, Data(T.Process(1), true), held);
    Taking(c, tn);
    OneMore(c, tn, held, Data(T.Take, true), taken);
    Writing(c, tn);
    OneMore(c, tn, taken, Data(T.Write(1), true), written);
    Acknowledging(c, tn);
    OneMore(c, tn, written, AckArrives(0), Delivered());
  }

  lemma Closed(c: T.Config, tn: Tuning)
    requires Reaches(c, tn, Delivered()) && tn.reliableControl
    ensures Reaches(c, tn, Done(tn))
  {
    Announces(c, tn);
    OneMore(c, tn, Delivered(), AtSender(C.LocalEOF), Announcing(tn));
    Tells(c, tn);
    OneMore(c, tn, Announcing(tn), AtReceiver(C.CloseReadReceived), Told(tn));
    Ends(c, tn);
    OneMore(c, tn, Told(tn), AtReceiver(C.LocalEOF), Ended(tn));
    Finishes(c, tn);
    OneMore(c, tn, Ended(tn), AtReceiver(ACK_OF_CLOSE), Done(tn));
  }

  /** A chunk can be sent, delivered and acknowledged, and the receiver can complete the close handshake without a reset. */
  lemma GracefulRunExists(c: T.Config, tn: Tuning) returns (p: Pair)
    requires c.window > 0 && c.limit > 0 && tn.reliableControl
    ensures Reaches(c, tn, p) && Calm(p) && HandshakeClosed(p.b) && p.t.sent == [CHUNK]
  {
    p := Done(tn);
    ChunkDelivered(c, tn);
    Closed(c, tn);
    SenderAnnounces(tn);
    ReceiverCloses(tn);
  }
}
