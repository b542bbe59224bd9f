/**
 One direction of an ARQ stream: the sending half of one endpoint, the receiving half of its peer and
 the network between them.  The network may lose, duplicate, delay and reorder.  Every copy of a
 segment carries, for the proofs only, the unbounded index behind its 16-bit number.
 */
module ArqTransport {
  import opened Wire16
  import opened ArqData
  import opened Octets
  import opened Pieces

  /** `window`: the receiver's windowSize.  `limit`: the sender's bound on the number of unacknowledged chunks. */
  datatype Config = Config(window: nat, limit: nat) {
    /** How far the sender may run ahead of the receiver. */
    function Reach(): nat {
      window + limit + 1
    }

    predicate Valid() {
      Reach() <= 32768
    }
  }

  datatype Copy = Copy(index: nat, payload: Bytes) {
    function OnWire(): Segment {
      Segment(Wire(index), payload)
    }
  }

  datatype System = System(
    snd: Sender,
    stopped: bool,        // no further local reads
    cleared: bool,        // sndBuf was wiped by a reset or by the peer's CLOSE_WRITE
    rcv: Receiver,
    inbound: seq<Copy>,   // rxChan
    reset: bool,          // the receiver's queues were wiped by a reset or a final close
    broken: bool,         // the receiver's local writer is broken or closed
    writing: Bytes,       // taken out of rcvBuf, not yet accepted by the local writer
    written: Bytes,       // accepted by the local writer
    sent: seq<Bytes>,     // every chunk read from the sender's local connection
    taken: nat,           // number of chunks taken out of rcvBuf
    data: set<Copy>,      // every data copy ever put on the network
    acks: set<nat>        // indices named by every DATA_ACK ever put on the network
  ) {
    /** No reset, CLOSE_WRITE or writer break so far. */
    predicate Intact() {
      !cleared && !reset && !broken
    }
  }

  ghost predicate Init(s: System) {
    && s.snd == Sender(0, map[]) && s.rcv == Receiver(0, map[])
    && !s.stopped && s.Intact()
    && s.inbound == [] && s.writing == [] && s.written == [] && s.sent == [] && s.taken == 0
    && s.data == {} && s.acks == {}
  }

  // ------------------------------------------------------------------
  // Steps
  // ------------------------------------------------------------------

  datatype Step =
    | Send(chunk: Bytes)
    | Resend(sn: Seq16)
    | StopReading
    | ClearSender
    | Arrive(copy: Copy)
    | Process(count: nat)
    | Take
    | Write(count: nat)
    | ResetReceiver
    | BreakWriter
    | AckArrives(index: nat)

  function OnWireAll(copies: seq<Copy>): seq<Segment> {
    seq(|copies|, i requires 0 <= i < |copies| => copies[i].OnWire())
  }

  /** Indices acknowledged while a batch is processed. */
  function AckedIndices(r: Receiver, window: nat, batch: seq<Copy>): set<nat>
    decreases |batch|
  {
    if batch == [] then {}
    else
      var n := |batch| - 1;
      var before := AcceptAll(r, window, OnWireAll(batch[..n]));
      AckedIndices(r, window, batch[..n])
      + if Classify(before, window, Wire(batch[n].index)).Acknowledged() then {batch[n].index} else {}
  }

  /** When a step may happen.  The two age bounds are the only assumptions about the network. */
  predicate Enabled(c: Config, s: System, step: Step) {
    match step
    case Send(_) => !s.stopped && |s.snd.sndBuf| < c.limit
    case Resend(sn) => sn in s.snd.sndBuf
    case StopReading => true
    case ClearSender => true
    case Arrive(copy) => copy in s.data && !s.reset && !s.broken
    case Process(count) =>
      && count <= |s.inbound|
      && forall i :: 0 <= i < count ==> YoungEnough(s, s.inbound[i])
    case Take => true
    case Write(count) => count <= |s.writing|
    case ResetReceiver => true
    case BreakWriter => true
    case AckArrives(index) => index in s.acks && AckYoungEnough(s, index)
  }

  /** A data copy is processed at most 32768 numbers behind rcvNxt. */
  predicate YoungEnough(s: System, copy: Copy) {
    s.taken <= copy.index + 32768
  }

  /** An acknowledgement arrives at most 65536 sends after its chunk. */
  predicate AckYoungEnough(s: System, index: nat) {
    |s.sent| <= index + 65536
  }

  function Apply(c: Config, s: System, step: Step): System
    requires Enabled(c, s, step)
  {
    match step
    case Send(chunk) =>
      s.(snd := SendChunk(s.snd, chunk), sent := s.sent + [chunk], data := s.data + {Copy(|s.sent|, chunk)})
    case Resend(sn) =>
      var index := Latest(|s.sent|, sn);
      if index < 0 then s else s.(data := s.data + {Copy(index, s.snd.sndBuf[sn])})
    case StopReading => s.(stopped := true)
    case ClearSender => s.(stopped := true, cleared := true, snd := s.snd.(sndBuf := map[]))
    case Arrive(copy) => s.(inbound := s.inbound + [copy])
    case Process(count) =>
      var rest := s.(inbound := s.inbound[count..]);
      if s.broken then rest
      else
        var batch := s.inbound[..count];
        rest.(rcv := AcceptAll(s.rcv, c.window, OnWireAll(batch)),
              acks := s.acks + AckedIndices(s.rcv, c.window, batch))
    case Take =>
      var chunks := Contiguous(s.rcv);
      s.(rcv := Drained(s.rcv), taken := s.taken + |chunks|, writing := s.writing + Flatten(chunks))
    case Write(count) =>
      s.(written := s.written + s.writing[..count], writing := s.writing[count..])
    case ResetReceiver => s.(reset := true, rcv := s.rcv.(rcvBuf := map[]))
    case BreakWriter => s.(broken := true, writing := [], rcv := s.rcv.(rcvBuf := map[]))
    case AckArrives(index) => s.(snd := ForgetAcked(s.snd, Wire(index)))
  }

  /** A run: a start state and the steps taken from it. */
  ghost predicate Run(c: Config, states: seq<System>, steps: seq<Step>) {
    && |states| == |steps| + 1
    && Init(states[0])
    && forall i :: 0 <= i < |steps| ==> Enabled(c, states[i], steps[i]) && states[i + 1] == Apply(c, states[i], steps[i])
  }

  // ------------------------------------------------------------------
  // The invariant
  // ------------------------------------------------------------------

  /** Every unacknowledged entry is the newest chunk with its number. */
  ghost predicate SenderHolds(s: System) {
    && s.snd.sndNxt == Wire(|s.sent|)
    && forall sn :: sn in s.snd.sndBuf ==>
         Latest(|s.sent|, sn) >= 0 && s.snd.sndBuf[sn] == s.sent[Latest(|s.sent|, sn)]
  }

  /** Every buffered entry lies in the window and is the chunk its number stands for. */
  ghost predicate BufferHolds(c: Config, sent: seq<Bytes>, taken: nat, r: Receiver) {
    && r.rcvNxt == Wire(taken)
    && forall sn :: sn in r.rcvBuf ==> BufferEntry(c, sent, taken, r, sn)
  }

  ghost predicate BufferEntry(c: Config, sent: seq<Bytes>, taken: nat, r: Receiver, sn: Seq16)
    requires sn in r.rcvBuf
  {
    var ahead := Sub16(sn, Wire(taken));
    && ahead <= c.window
    && taken + ahead < |sent|
    && r.rcvBuf[sn] == sent[taken + ahead]
  }

  /** Copies on the network and in rxChan are genuine. */
  ghost predicate CopiesHold(c: Config, s: System) {
    && (forall copy :: copy in s.data ==> copy.index < |s.sent| && copy.payload == s.sent[copy.index])
    && (forall i :: 0 <= i < |s.inbound| ==> s.inbound[i] in s.data && s.inbound[i].index < s.taken + c.Reach())
  }

  /** Taken out already, or buffered. */
  ghost predicate Received(taken: nat, r: Receiver, n: nat) {
    n < taken || Wire(n) in r.rcvBuf
  }

  ghost predicate AckSound(c: Config, s: System) {
    && (forall n :: n in s.acks ==> n < s.taken + c.Reach() && n < |s.sent|)
    && (!s.reset && !s.broken ==> forall n :: n in s.acks ==> Received(s.taken, s.rcv, n))
  }

  ghost predicate Conserved(s: System) {
    s.Intact() ==>
      forall n: nat :: s.taken <= n < |s.sent| ==> Wire(n) in s.snd.sndBuf || Wire(n) in s.rcv.rcvBuf
  }

  ghost predicate AheadBounded(c: Config, s: System) {
    !s.reset && !s.broken ==> |s.sent| <= s.taken + c.Reach()
  }

  ghost predicate WriterHolds(s: System) {
    && s.taken <= |s.sent|
    && (s.broken ==> s.rcv.rcvBuf == map[])
    && s.written + s.writing <= Flatten(s.sent[..s.taken])
    && (!s.broken ==> s.written + s.writing == Flatten(s.sent[..s.taken]))
    && (s.cleared ==> s.stopped)
  }

  ghost predicate Inv(c: Config, s: System) {
    && SenderHolds(s) && BufferHolds(c, s.sent, s.taken, s.rcv) && CopiesHold(c, s)
    && AckSound(c, s) && Conserved(s) && AheadBounded(c, s) && WriterHolds(s)
  }
}
