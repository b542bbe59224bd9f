/** Every reachable state of the transport satisfies its invariant, and what follows from that. */
module ArqTransportSafety {
  import opened Wire16
  import opened ArqData
  import opened Octets
  import opened Pieces
  import opened ArqTransport

  // ------------------------------------------------------------------
  // The receiver, one copy and one batch at a time
  // ------------------------------------------------------------------

  ghost predicate Genuine(c: Config, sent: seq<Bytes>, taken: nat, copy: Copy) {
    && copy.index < |sent| && copy.payload == sent[copy.index]
    && copy.index < taken + c.Reach()
    && taken <= copy.index + 32768
  }

  /** The 16-bit test tells old from new exactly when the copy is at most 32768 behind. */
  lemma OldIffBehind(c: Config, r: Receiver, taken: nat, n: nat)
    requires c.Valid() && r.rcvNxt == Wire(taken)
    requires n < taken + c.Reach() && taken < n + 65536
    ensures (Classify(r, c.window, Wire(n)).OldOrWrapped? <==> n < taken) <==> taken <= n + 32768
  {
    if n < taken {
      SubWireBehind(n, taken);
    } else {
      SubWire(n, taken);
    }
  }

  lemma AcceptOne(c: Config, sent: seq<Bytes>, taken: nat, r: Receiver, copy: Copy)
    requires c.Valid() && BufferHolds(c, sent, taken, r) && Genuine(c, sent, taken, copy)
    ensures BufferHolds(c, sent, taken, Accept(r, c.window, copy.OnWire()))
    ensures forall sn :: sn in r.rcvBuf ==> sn in Accept(r, c.window, copy.OnWire()).rcvBuf
    ensures Classify(r, c.window, Wire(copy.index)).Acknowledged()
            ==> Received(taken, Accept(r, c.window, copy.OnWire()), copy.index)
  {
    var n := copy.index;
    OldIffBehind(c, r, taken, n);
    if n >= taken {
      SubWire(n, taken);
    }
  }

  lemma {:induction false} AcceptBatch(c: Config, sent: seq<Bytes>, taken: nat, r: Receiver, batch: seq<Copy>)
    requires c.Valid() && BufferHolds(c, sent, taken, r)
    requires forall i :: 0 <= i < |batch| ==> Genuine(c, sent, taken, batch[i])
    ensures BufferHolds(c, sent, taken, AcceptAll(r, c.window, OnWireAll(batch)))
    ensures forall sn :: sn in r.rcvBuf ==> sn in AcceptAll(r, c.window, OnWireAll(batch)).rcvBuf
    ensures forall n :: n in AckedIndices(r, c.window, batch) ==>
              && Received(taken, AcceptAll(r, c.window, OnWireAll(batch)), n)
              && n < taken + c.Reach() && n < |sent|
    decreases |batch|
  {
    if batch != [] {
      var k := |batch| - 1;
      AcceptBatch(c, sent, taken, r, batch[..k]);
      assert OnWireAll(batch)[..k] == OnWireAll(batch[..k]);
      AcceptOne(c, sent, taken, AcceptAll(r, c.window, OnWireAll(batch[..k])), batch[k]);
    }
  }

  /** The acknowledgements on the wire are those of the acknowledged indices. */
  lemma {:induction false} AckedNumbersAreThoseOfIndices(r: Receiver, window: nat, batch: seq<Copy>, sn: Seq16)
    ensures sn in AckedOf(r, window, OnWireAll(batch)) <==> exists n :: n in AckedIndices(r, window, batch) && Wire(n) == sn
    decreases |batch|
  {
    if batch != [] {
      var k := |batch| - 1;
      AckedNumbersAreThoseOfIndices(r, window, batch[..k], sn);
      assert OnWireAll(batch)[..k] == OnWireAll(batch[..k]);
      if Classify(AcceptAll(r, window, OnWireAll(batch[..k])), window, Wire(batch[k].index)).Acknowledged() {
        assert batch[k].index in AckedIndices(r, window, batch);
      }
    }
  }

  /** One turn of the take-out loop. */
  lemma TakeOne(c: Config, sent: seq<Bytes>, taken: nat, r: Receiver)
    requires c.Valid() && BufferHolds(c, sent, taken, r) && r.rcvNxt in r.rcvBuf
    ensures taken < |sent| && r.rcvBuf[r.rcvNxt] == sent[taken]
    ensures BufferHolds(c, sent, taken + 1, Receiver(Next16(r.rcvNxt), r.rcvBuf - {r.rcvNxt}))
  {
    NextWire(taken);
    assert BufferEntry(c, sent, taken, r, r.rcvNxt);
    SubWire(taken, taken);
    var rest := Receiver(Next16(r.rcvNxt), r.rcvBuf - {r.rcvNxt});
    forall sn | sn in rest.rcvBuf
      ensures BufferEntry(c, sent, taken + 1, rest, sn)
    {
      assert BufferEntry(c, sent, taken, r, sn);
      SubWireStep(sn, taken);
    }
  }

  /** What writeLoop takes out is the next stretch of the sent chunks. */
  lemma {:induction false} TakeOut(c: Config, sent: seq<Bytes>, taken: nat, r: Receiver)
    requires c.Valid() && BufferHolds(c, sent, taken, r) && taken <= |sent|
    ensures TakenOut(c, sent, taken, Contiguous(r), Drained(r))
    decreases |r.rcvBuf|
  {
    if r.rcvNxt in r.rcvBuf {
      TakeUnfolds(r);
      TakeOne(c, sent, taken, r);
      TakeOut(c, sent, taken + 1, TakenOne(r));
      TakenOutExtends(c, sent, taken, r, Contiguous(TakenOne(r)), Drained(TakenOne(r)));
    }
  }

  ghost predicate TakenOut(c: Config, sent: seq<Bytes>, taken: nat, chunks: seq<Bytes>, rest: Receiver) {
    && taken + |chunks| <= |sent|
    && chunks == sent[taken..taken + |chunks|]
    && BufferHolds(c, sent, taken + |chunks|, rest)
  }

  lemma TakenOutExtends(c: Config, sent: seq<Bytes>, taken: nat, r: Receiver, chunks: seq<Bytes>, rest: Receiver)
    requires r.rcvNxt in r.rcvBuf && taken < |sent| && r.rcvBuf[r.rcvNxt] == sent[taken]
    requires TakenOut(c, sent, taken + 1, chunks, rest)
    ensures TakenOut(c, sent, taken, [r.rcvBuf[r.rcvNxt]] + chunks, rest)
  {
    var all := [r.rcvBuf[r.rcvNxt]] + chunks;
    assert taken + |all| == taken + 1 + |chunks|;
    assert all == sent[taken..taken + |all|];
  }

  /** writeLoop stops only at a gap and takes out nothing beyond it. */
  lemma {:induction false} TakeOutStops(taken: nat, r: Receiver)
    requires r.rcvNxt == Wire(taken)
    ensures var k := |Contiguous(r)|;
            && Drained(r).rcvNxt == Wire(taken + k) && Wire(taken + k) !in Drained(r).rcvBuf
            && Drained(r).rcvBuf.Keys <= r.rcvBuf.Keys
            && forall n: nat :: taken + k <= n < taken + 65536 && Wire(n) in r.rcvBuf ==> Wire(n) in Drained(r).rcvBuf
    decreases |r.rcvBuf|
  {
    if r.rcvNxt in r.rcvBuf {
      RemovalShrinks(r.rcvBuf, r.rcvNxt);
      NextWire(taken);
      var rest := Receiver(Next16(r.rcvNxt), r.rcvBuf - {r.rcvNxt});
      TakeOutStops(taken + 1, rest);
      forall n: nat | taken + 1 + |Contiguous(rest)| <= n < taken + 65536 && Wire(n) in r.rcvBuf
        ensures Wire(n) in rest.rcvBuf
      {
        SubWire(n, taken);
      }
    }
  }

  lemma InWindow(c: Config, sent: seq<Bytes>, taken: nat, r: Receiver, sn: Seq16)
    requires BufferHolds(c, sent, taken, r) && sn in r.rcvBuf
    ensures Sub16(sn, Wire(taken)) <= c.window
  {
    assert BufferEntry(c, sent, taken, r, sn);
  }

  // ------------------------------------------------------------------
  // One step
  // ------------------------------------------------------------------

  lemma SendKeeps(c: Config, s: System, chunk: Bytes)
    requires c.Valid() && Inv(c, s) && Enabled(c, s, Send(chunk))
    ensures Inv(c, Apply(c, s, Send(chunk)))
  {
    var n := |s.sent|;
    var s' := Apply(c, s, Send(chunk));
    NextWire(n);
    forall sn | sn in s'.snd.sndBuf
      ensures Latest(n + 1, sn) >= 0 && s'.snd.sndBuf[sn] == s'.sent[Latest(n + 1, sn)]
    {
      LatestStep(n, sn);
    }
    forall sn | sn in s.rcv.rcvBuf
      ensures BufferEntry(c, s'.sent, s.taken, s.rcv, sn)
    {
      assert BufferEntry(c, s.sent, s.taken, s.rcv, sn);
    }
    assert s'.sent[..s.taken] == s.sent[..s.taken];
    if s.Intact() {
      SendStaysInReach(c, s);
    }
  }

  /** The window argument: what is beyond the receiver's window is unacknowledged, hence counted. */
  lemma SendStaysInReach(c: Config, s: System)
    requires c.Valid() && Inv(c, s) && s.Intact() && |s.snd.sndBuf| < c.limit
    ensures |s.sent| + 1 <= s.taken + c.Reach()
  {
    var n, lo := |s.sent|, s.taken + c.window + 1;
    if lo <= n {
      forall i: nat | lo <= i < n
        ensures Wire(i) in s.snd.sndBuf.Keys
      {
        SubWire(i, s.taken);
        if Wire(i) in s.rcv.rcvBuf {
          InWindow(c, s.sent, s.taken, s.rcv, Wire(i));
        }
      }
      PigeonholeAtLeast(s.snd.sndBuf.Keys, lo, n);
    }
  }

  lemma ResendKeeps(c: Config, s: System, sn: Seq16)
    requires c.Valid() && Inv(c, s) && Enabled(c, s, Resend(sn))
    ensures Inv(c, Apply(c, s, Resend(sn)))
  {
    LatestIsGreatest(|s.sent|, sn);
  }

  lemma ProcessKeeps(c: Config, s: System, count: nat)
    requires c.Valid() && Inv(c, s) && Enabled(c, s, Process(count))
    ensures Inv(c, Apply(c, s, Process(count)))
  {
    if !s.broken {
      var batch := s.inbound[..count];
      forall i | 0 <= i < |batch|
        ensures Genuine(c, s.sent, s.taken, batch[i])
      {
        assert YoungEnough(s, s.inbound[i]);
      }
      AcceptBatch(c, s.sent, s.taken, s.rcv, batch);
    }
  }

  lemma TakeKeeps(c: Config, s: System)
    requires c.Valid() && Inv(c, s)
    ensures Inv(c, Apply(c, s, Take))
  {
    TakeKeepsBuffer(c, s);
    TakeKeepsWriter(c, s);
    TakeKeepsAccounts(c, s);
    assert SenderHolds(Apply(c, s, Take));
  }

  lemma TakeKeepsBuffer(c: Config, s: System)
    requires c.Valid() && Inv(c, s)
    ensures var s' := Apply(c, s, Take); BufferHolds(c, s'.sent, s'.taken, s'.rcv)
  {
    TakeOut(c, s.sent, s.taken, s.rcv);
  }

  lemma TakeKeepsAccounts(c: Config, s: System)
    requires c.Valid() && Inv(c, s)
    ensures var s' := Apply(c, s, Take);
            CopiesHold(c, s') && AckSound(c, s') && Conserved(s') && AheadBounded(c, s')
  {
    var s' := Apply(c, s, Take);
    forall n: nat | n < s.taken + c.Reach() && !s.reset && !s.broken && Received(s.taken, s.rcv, n)
      ensures Received(s'.taken, s'.rcv, n)
    {
      TakeKeepsReceived(s.taken, s.rcv, n);
    }
    forall n: nat | s.Intact() && s'.taken <= n < |s.sent|
      ensures Wire(n) in s'.snd.sndBuf || Wire(n) in s'.rcv.rcvBuf
    {
      if Wire(n) in s.rcv.rcvBuf {
        TakeKeepsReceived(s.taken, s.rcv, n);
      }
    }
  }

  lemma TakeKeepsReceived(taken: nat, r: Receiver, n: nat)
    requires r.rcvNxt == Wire(taken) && n < taken + 65536
    requires Received(taken, r, n)
    ensures Received(taken + |Contiguous(r)|, Drained(r), n)
  {
    TakeOutStops(taken, r);
  }

  lemma TakeKeepsWriter(c: Config, s: System)
    requires c.Valid() && Inv(c, s)
    ensures WriterHolds(Apply(c, s, Take))
  {
    TakeOut(c, s.sent, s.taken, s.rcv);
    var chunks := Contiguous(s.rcv);
    if !s.broken {
      WriterAppends(s.sent, s.taken, s.written, s.writing, chunks);
    } else {
      assert chunks == [] && Drained(s.rcv) == s.rcv;
      assert s.writing + Flatten(chunks) == s.writing;
    }
  }

  lemma WriterAppends(sent: seq<Bytes>, taken: nat, written: Bytes, writing: Bytes, chunks: seq<Bytes>)
    requires taken + |chunks| <= |sent| && chunks == sent[taken..taken + |chunks|]
    ensures written + writing == Flatten(sent[..taken]) ==>
              written + (writing + Flatten(chunks)) == Flatten(sent[..taken + |chunks|])
  {
    assert sent[..taken + |chunks|] == sent[..taken] + chunks;
    FlattenAppend(sent[..taken], chunks);
    assert written + (writing + Flatten(chunks)) == (written + writing) + Flatten(chunks);
  }

  lemma AckKeeps(c: Config, s: System, index: nat)
    requires c.Valid() && Inv(c, s) && Enabled(c, s, AckArrives(index))
    ensures Inv(c, Apply(c, s, AckArrives(index)))
  {
    var s' := Apply(c, s, AckArrives(index));
    forall n: nat | s.Intact() && s.taken <= n < |s.sent|
      ensures Wire(n) in s'.snd.sndBuf || Wire(n) in s.rcv.rcvBuf
    {
      if Wire(n) == Wire(index) {
        // Both are the newest index with that number.
        LatestExactly(|s.sent|, index);
        LatestExactly(|s.sent|, n);
        assert Received(s.taken, s.rcv, index);
      }
    }
  }

  lemma StepKeeps(c: Config, s: System, step: Step)
    requires c.Valid() && Inv(c, s) && Enabled(c, s, step)
    ensures Inv(c, Apply(c, s, step))
  {
    match step
    case Send(chunk) => SendKeeps(c, s, chunk);
    case Resend(sn) => ResendKeeps(c, s, sn);
    case StopReading =>
    case ClearSender =>
    case Arrive(copy) =>
      assert copy.index < |s.sent| <= s.taken + c.Reach();
    case Process(count) => ProcessKeeps(c, s, count);
    case Take => TakeKeeps(c, s);
    case Write(count) =>
      assert s.written + s.writing == (s.written + s.writing[..count]) + s.writing[count..];
    case ResetReceiver =>
    case BreakWriter =>
      assert s.written + [] == s.written;
      assert s.written <= s.written + s.writing;
    case AckArrives(index) => AckKeeps(c, s, index);
  }

  lemma {:induction false} Reachable(c: Config, states: seq<System>, steps: seq<Step>, i: nat)
    requires c.Valid() && Run(c, states, steps) && i < |states|
    ensures Inv(c, states[i])
  {
    if i > 0 {
      Reachable(c, states, steps, i - 1);
      StepKeeps(c, states[i - 1], steps[i - 1]);
    }
  }

  // ------------------------------------------------------------------
  // What every run guarantees
  // ------------------------------------------------------------------

  /** In-order delivery, whatever was lost, duplicated, reordered, reset or broken on the way. */
  lemma InOrderDelivery(c: Config, states: seq<System>, steps: seq<Step>, i: nat)
    requires c.Valid() && Run(c, states, steps) && i < |states|
    ensures states[i].written <= Flatten(states[i].sent)
  {
    Reachable(c, states, steps, i);
    var s := states[i];
    FlattenPrefix(s.sent, s.taken);
    assert s.written <= s.written + s.writing;
  }

  /** Conservation: an undisturbed stream holds every sent chunk somewhere, unaltered. */
  lemma Conservation(c: Config, states: seq<System>, steps: seq<Step>, i: nat, n: nat)
    requires c.Valid() && Run(c, states, steps) && i < |states|
    requires states[i].Intact() && n < |states[i].sent|
    ensures var s := states[i];
            || n < s.taken
            || (Wire(n) in s.rcv.rcvBuf && s.rcv.rcvBuf[Wire(n)] == s.sent[n])
            || (Wire(n) in s.snd.sndBuf && s.snd.sndBuf[Wire(n)] == s.sent[n])
  {
    Reachable(c, states, steps, i);
    var s := states[i];
    if n >= s.taken {
      SubWire(n, s.taken);
      LatestExactly(|s.sent|, n);
      if Wire(n) in s.rcv.rcvBuf {
        assert BufferEntry(c, s.sent, s.taken, s.rcv, Wire(n));
      }
    }
  }

  /** A DATA_ACK on the network names a chunk the receiver holds or has taken out. */
  lemma AckSoundness(c: Config, states: seq<System>, steps: seq<Step>, i: nat, n: nat)
    requires c.Valid() && Run(c, states, steps) && i < |states|
    requires !states[i].reset && !states[i].broken && n in states[i].acks
    ensures var s := states[i];
            && n < |s.sent|
            && (n < s.taken || (Wire(n) in s.rcv.rcvBuf && s.rcv.rcvBuf[Wire(n)] == s.sent[n]))
  {
    Reachable(c, states, steps, i);
    var s := states[i];
    assert Received(s.taken, s.rcv, n);
    if n >= s.taken {
      SubWire(n, s.taken);
      assert BufferEntry(c, s.sent, s.taken, s.rcv, Wire(n));
    }
  }

  /** Counting unacknowledged chunks is enough to keep the sender within reach of the receiver. */
  lemma SendAheadBound(c: Config, states: seq<System>, steps: seq<Step>, i: nat)
    requires c.Valid() && Run(c, states, steps) && i < |states|
    requires !states[i].reset && !states[i].broken
    ensures |states[i].sent| <= states[i].taken + c.window + c.limit + 1
  {
    Reachable(c, states, steps, i);
  }

  /** The receive buffer is bounded, and the next expected chunk is never refused. */
  lemma ReceiveBufferBound(c: Config, states: seq<System>, steps: seq<Step>, i: nat)
    requires c.Valid() && Run(c, states, steps) && i < |states|
    ensures |states[i].rcv.rcvBuf| <= c.window + 1
    ensures var v := Classify(states[i].rcv, c.window, states[i].rcv.rcvNxt); v.Fresh? || v.Duplicate?
    ensures Classify(states[i].rcv, c.window, states[i].rcv.rcvNxt).Fresh? ==> |states[i].rcv.rcvBuf| <= c.window
  {
    Reachable(c, states, steps, i);
    var s := states[i];
    forall sn | sn in s.rcv.rcvBuf.Keys
      ensures Sub16(sn, Wire(s.taken)) <= c.window
    {
      assert BufferEntry(c, s.sent, s.taken, s.rcv, sn);
    }
    PigeonholeAtMost(s.rcv.rcvBuf.Keys, s.taken, c.window);
  }

  /** An undisturbed stream with empty buffers has handed over every chunk. */
  lemma NothingPendingMeansAllTaken(c: Config, s: System)
    requires c.Valid() && Inv(c, s) && s.Intact()
    requires s.snd.sndBuf == map[] && Wire(s.taken) !in s.rcv.rcvBuf
    ensures s.taken == |s.sent|
  {
  }

  // ------------------------------------------------------------------
  // The age bounds are needed
  // ------------------------------------------------------------------

  /** An acknowledgement frees its own chunk exactly while it is at most 65536 sends old; otherwise a newer one. */
  lemma AckFreesItsOwnChunk(c: Config, s: System, index: nat)
    requires c.Valid() && Inv(c, s) && index in s.acks && Wire(index) in s.snd.sndBuf
    ensures s.snd.sndBuf[Wire(index)] == s.sent[Latest(|s.sent|, Wire(index))]
    ensures Latest(|s.sent|, Wire(index)) == index <==> AckYoungEnough(s, index)
  {
    LatestExactly(|s.sent|, index);
  }

  /** A copy older than the bound, but within one turn, is filed under a later index whenever it is buffered. */
  lemma StaleCopyIsMisfiled(c: Config, r: Receiver, taken: nat, copy: Copy)
    requires c.Valid() && r.rcvNxt == Wire(taken)
    requires copy.index + 32768 < taken < copy.index + 65536
    ensures Classify(r, c.window, Wire(copy.index)).Fresh? ==>
              var wrong := copy.index + 65536;
              && wrong > taken && Wire(wrong) == Wire(copy.index)
              && Sub16(Wire(copy.index), r.rcvNxt) == wrong - taken
              && Accept(r, c.window, copy.OnWire()).rcvBuf[Wire(wrong)] == copy.payload
    ensures Classify(r, c.window, Wire(copy.index)).Fresh? <==>
              && copy.index + 65536 - taken <= c.window
              && Wire(copy.index) !in r.rcvBuf
              && |r.rcvBuf| < c.window
  {
    SubWireBehind(copy.index, taken);
  }
}
