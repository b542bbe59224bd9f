/** The two halves of the data plane of one ARQ endpoint, as values. */
module ArqData {
  import opened Wire16
  import opened Octets

  /** Next number to send, and the unacknowledged chunks by number. */
  datatype Sender = Sender(sndNxt: Seq16, sndBuf: map<Seq16, Bytes>)

  /** Next number to hand to the writer, and the accepted chunks by number. */
  datatype Receiver = Receiver(rcvNxt: Seq16, rcvBuf: map<Seq16, Bytes>)

  datatype Segment = Segment(sn: Seq16, payload: Bytes)

  /** What the receiver does with one arriving segment. */
  datatype Verdict = OldOrWrapped | BeyondWindow | WindowFull | Fresh | Duplicate {
    predicate Acknowledged() {
      OldOrWrapped? || Fresh? || Duplicate?
    }
  }

  /** ioLoop: the chunk just read takes the next number. */
  function SendChunk(s: Sender, chunk: Bytes): Sender {
    Sender(Next16(s.sndNxt), s.sndBuf[s.sndNxt := chunk])
  }

  /** ReceiveAck: forget the chunk with that number, if any. */
  function ForgetAcked(s: Sender, sn: Seq16): Sender {
    s.(sndBuf := s.sndBuf - {sn})
  }

  function Classify(r: Receiver, window: nat, sn: Seq16): Verdict {
    var diff := Sub16(sn, r.rcvNxt);
    if diff >= 32768 then OldOrWrapped
    else if diff > window then BeyondWindow
    else if sn !in r.rcvBuf && |r.rcvBuf| >= window && sn != r.rcvNxt then WindowFull
    else if sn !in r.rcvBuf then Fresh
    else Duplicate
  }

  function Accept(r: Receiver, window: nat, seg: Segment): Receiver {
    if Classify(r, window, seg.sn).Fresh?
    then r.(rcvBuf := r.rcvBuf[seg.sn := seg.payload])
    else r
  }

  function AcceptAll(r: Receiver, window: nat, batch: seq<Segment>): Receiver
    decreases |batch|
  {
    if batch == [] then r
    else
      var init := AcceptAll(r, window, batch[..|batch| - 1]);
      Accept(init, window, batch[|batch| - 1])
  }

  /** The numbers acknowledged while a batch is processed, in order. */
  function AckedOf(r: Receiver, window: nat, batch: seq<Segment>): seq<Seq16>
    decreases |batch|
  {
    if batch == [] then []
    else
      var n := |batch| - 1;
      var seg := batch[n];
      AckedOf(r, window, batch[..n])
      + if Classify(AcceptAll(r, window, batch[..n]), window, seg.sn).Acknowledged() then [seg.sn] else []
  }

  /** writeLoop: the receiver after the contiguous chunks at the front were taken out. */
  function Drained(r: Receiver): Receiver
    decreases |r.rcvBuf|
  {
    if r.rcvNxt !in r.rcvBuf then r
    else
      assert |r.rcvBuf - {r.rcvNxt}| < |r.rcvBuf| by { RemovalShrinks(r.rcvBuf, r.rcvNxt); }
      Drained(Receiver(Next16(r.rcvNxt), r.rcvBuf - {r.rcvNxt}))
  }

  /** writeLoop: the chunks taken out, oldest first. */
  function Contiguous(r: Receiver): seq<Bytes>
    decreases |r.rcvBuf|
  {
    if r.rcvNxt !in r.rcvBuf then []
    else
      assert |r.rcvBuf - {r.rcvNxt}| < |r.rcvBuf| by { RemovalShrinks(r.rcvBuf, r.rcvNxt); }
      [r.rcvBuf[r.rcvNxt]] + Contiguous(Receiver(Next16(r.rcvNxt), r.rcvBuf - {r.rcvNxt}))
  }

  /** The receiver after one turn of the take-out loop. */
  function TakenOne(r: Receiver): Receiver
    requires r.rcvNxt in r.rcvBuf
  {
    Receiver(Next16(r.rcvNxt), r.rcvBuf - {r.rcvNxt})
  }

  lemma TakeUnfolds(r: Receiver)
    requires r.rcvNxt in r.rcvBuf
    ensures |TakenOne(r).rcvBuf| < |r.rcvBuf|
    ensures Drained(r) == Drained(TakenOne(r))
    ensures Contiguous(r) == [r.rcvBuf[r.rcvNxt]] + Contiguous(TakenOne(r))
  {
    RemovalShrinks(r.rcvBuf, r.rcvNxt);
  }

  lemma RemovalShrinks<K, V>(m: map<K, V>, k: K)
    requires k in m
    ensures |m - {k}| == |m| - 1
  {
    assert (m - {k}).Keys == m.Keys - {k};
    assert |m.Keys - {k}| == |m.Keys| - 1;
    assert |m| == |m.Keys| && |m - {k}| == |(m - {k}).Keys|;
  }
}
