/**
 What the receiver does with genuine copies, both ways: what it accepts, what it acknowledges, what counts
 as progress; and that an undisturbed stream can always still be delivered in full.
 */
module ArqDelivery {
  import opened Wire16
  import opened ArqData
  import opened Octets
  import opened Pieces
  import opened ArqTransport
  import S = ArqTransportSafety
  import E = ArqEndpoint
  import opened Enums
  import opened ArqClose

  // ------------------------------------------------------------------
  // Acceptance
  // ------------------------------------------------------------------

  /** What was taken out or buffered before, or fits: inside the window, with room unless it is the next one. */
  predicate Wanted(c: Config, taken: nat, r: Receiver, n: nat) {
    || n < taken || Wire(n) in r.rcvBuf
    || (n - taken <= c.window && (n == taken || |r.rcvBuf| < c.window))
  }

  /** A genuine copy is held afterwards exactly if it is wanted; nothing else changes. */
  lemma AcceptedExactly(c: Config, sent: seq<Bytes>, taken: nat, r: Receiver, copy: Copy)
    requires c.Valid() && BufferHolds(c, sent, taken, r) && S.Genuine(c, sent, taken, copy)
    ensures var r' := Accept(r, c.window, copy.OnWire());
            && (Received(taken, r', copy.index) <==> Wanted(c, taken, r, copy.index))
            && r'.rcvNxt == r.rcvNxt
            && r'.rcvBuf == if !Received(taken, r, copy.index) && Wanted(c, taken, r, copy.index)
                            then r.rcvBuf[Wire(copy.index) := sent[copy.index]] else r.rcvBuf
  {
    Distances(c, r, taken, copy.index);
  }

  /** The wire distance of an index from the next expected one. */
  lemma Distances(c: Config, r: Receiver, taken: nat, n: nat)
    requires c.Valid() && r.rcvNxt == Wire(taken) && n < taken + c.Reach() && taken <= n + 32768
    ensures if n < taken then Sub16(Wire(n), r.rcvNxt) >= 32768 else Sub16(Wire(n), r.rcvNxt) == n - taken < 32768
    ensures Wire(n) == r.rcvNxt <==> n == taken
  {
    if n < taken {
      SubWireBehind(n, taken);
    } else {
      SubWire(n, taken);
    }
  }

  // ------------------------------------------------------------------
  // Acknowledgements
  // ------------------------------------------------------------------

  /** A copy is acknowledged exactly if its chunk is held or was handed on once the copy has been processed. */
  lemma AckedIffHeld(c: Config, sent: seq<Bytes>, taken: nat, r: Receiver, batch: seq<Copy>, i: nat)
    requires c.Valid() && BufferHolds(c, sent, taken, r) && i < |batch|
    requires forall k :: 0 <= k < |batch| ==> S.Genuine(c, sent, taken, batch[k])
    ensures AckedOf(r, c.window, OnWireAll(batch[..i + 1]))
         == AckedOf(r, c.window, OnWireAll(batch[..i]))
            + if Received(taken, AcceptAll(r, c.window, OnWireAll(batch[..i + 1])), batch[i].index) then [Wire(batch[i].index)] else []
  {
    var before := AcceptAll(r, c.window, OnWireAll(batch[..i]));
    S.AcceptBatch(c, sent, taken, r, batch[..i]);
    OnePushed(r, c.window, batch, i);
    AcceptedExactly(c, sent, taken, before, batch[i]);
    Distances(c, before, taken, batch[i].index);
  }

  lemma OnePushed(r: Receiver, window: nat, batch: seq<Copy>, i: nat)
    requires i < |batch|
    ensures var wire, all := OnWireAll(batch[..i]), OnWireAll(batch[..i + 1]);
            && all == wire + [batch[i].OnWire()] && all[..i] == wire
            && AcceptAll(r, window, all) == Accept(AcceptAll(r, window, wire), window, batch[i].OnWire())
  {
    assert batch[..i + 1][..i] == batch[..i];
    assert OnWireAll(batch[..i + 1])[..i] == OnWireAll(batch[..i]);
  }

  /** What a batch leaves held was held at once, and stays held. */
  lemma {:induction false} HeldAtOnce(c: Config, sent: seq<Bytes>, taken: nat, r: Receiver, batch: seq<Copy>, i: nat, j: nat)
    requires c.Valid() && BufferHolds(c, sent, taken, r) && i < j <= |batch|
    requires forall k :: 0 <= k < |batch| ==> S.Genuine(c, sent, taken, batch[k])
    ensures Received(taken, AcceptAll(r, c.window, OnWireAll(batch[..i + 1])), batch[i].index)
       <==> Received(taken, AcceptAll(r, c.window, OnWireAll(batch[..j])), batch[i].index)
    decreases j
  {
    if i + 1 < j {
      HeldAtOnce(c, sent, taken, r, batch, i, j - 1);
      GrowsByOne(c, sent, taken, r, batch, j - 1);
      RefusedStays(c, sent, taken, r, batch, i, j - 1);
    }
  }

  lemma GrowsByOne(c: Config, sent: seq<Bytes>, taken: nat, r: Receiver, batch: seq<Copy>, k: nat)
    requires c.Valid() && BufferHolds(c, sent, taken, r) && k < |batch|
    requires forall m :: 0 <= m < |batch| ==> S.Genuine(c, sent, taken, batch[m])
    ensures var before, after := AcceptAll(r, c.window, OnWireAll(batch[..k])), AcceptAll(r, c.window, OnWireAll(batch[..k + 1]));
            && BufferHolds(c, sent, taken, before)
            && after == Accept(before, c.window, batch[k].OnWire())
            && |before.rcvBuf| <= |after.rcvBuf|
            && forall sn :: sn in before.rcvBuf ==> sn in after.rcvBuf
  {
    S.AcceptBatch(c, sent, taken, r, batch[..k]);
    OnePushed(r, c.window, batch, k);
    var before := AcceptAll(r, c.window, OnWireAll(batch[..k]));
    S.AcceptOne(c, sent, taken, before, batch[k]);
    SubsetSize(before.rcvBuf.Keys, Accept(before, c.window, batch[k].OnWire()).rcvBuf.Keys);
  }

  /** What was refused is refused again: there is no more room than before. */
  lemma {:induction false} RefusedStays(c: Config, sent: seq<Bytes>, taken: nat, r: Receiver, batch: seq<Copy>, i: nat, j: nat)
    requires c.Valid() && BufferHolds(c, sent, taken, r) && i < j < |batch|
    requires forall k :: 0 <= k < |batch| ==> S.Genuine(c, sent, taken, batch[k])
    ensures !Received(taken, AcceptAll(r, c.window, OnWireAll(batch[..j])), batch[i].index)
        ==> !Received(taken, AcceptAll(r, c.window, OnWireAll(batch[..j + 1])), batch[i].index)
  {
    var before, n := AcceptAll(r, c.window, OnWireAll(batch[..j])), batch[i].index;
    GrowsByOne(c, sent, taken, r, batch, j);
    if !Received(taken, before, n) {
      HeldSoFar(c, sent, taken, r, batch, i, j);
      AcceptedExactly(c, sent, taken, before, batch[j]);
      if Wire(batch[j].index) == Wire(n) {
        SameNumber(c, sent, taken, batch[j], batch[i]);
      }
    }
  }

  /** Numbers of genuine copies tell their indices apart. */
  lemma SameNumber(c: Config, sent: seq<Bytes>, taken: nat, a: Copy, b: Copy)
    requires c.Valid() && S.Genuine(c, sent, taken, a) && S.Genuine(c, sent, taken, b) && Wire(a.index) == Wire(b.index)
    ensures a.index == b.index
  {
    if a.index < b.index {
      WireInjective(b.index, a.index);
    } else {
      WireInjective(a.index, b.index);
    }
  }

  /** A refused copy stays unwanted: the window does not move and the buffer does not shrink. */
  lemma {:induction false} HeldSoFar(c: Config, sent: seq<Bytes>, taken: nat, r: Receiver, batch: seq<Copy>, i: nat, j: nat)
    requires c.Valid() && BufferHolds(c, sent, taken, r) && i < j <= |batch|
    requires forall k :: 0 <= k < |batch| ==> S.Genuine(c, sent, taken, batch[k])
    requires !Received(taken, AcceptAll(r, c.window, OnWireAll(batch[..j])), batch[i].index)
    ensures !Wanted(c, taken, AcceptAll(r, c.window, OnWireAll(batch[..j])), batch[i].index)
    decreases j
  {
    GrowsByOne(c, sent, taken, r, batch, j - 1);
    if i + 1 < j {
      HeldSoFar(c, sent, taken, r, batch, i, j - 1);
    } else {
      AcceptedExactly(c, sent, taken, AcceptAll(r, c.window, OnWireAll(batch[..i])), batch[i]);
    }
  }

  /** Copy `k` was held once it had been processed. */
  predicate HeldAfter(c: Config, taken: nat, r: Receiver, batch: seq<Copy>, k: nat)
    requires k < |batch|
  {
    var n := batch[k].index;
    n < taken || Wire(n) in AcceptAll(r, c.window, OnWireAll(batch[..k + 1])).rcvBuf
  }

  lemma MemberOfPush(before: seq<Seq16>, after: seq<Seq16>, x: Seq16, more: bool, sn: Seq16)
    requires after == before + if more then [x] else []
    ensures sn in after <==> sn in before || (more && x == sn)
  {
  }

  /** Some copy of that number among the first `j` was held. */
  ghost predicate SomeHeld(c: Config, taken: nat, r: Receiver, batch: seq<Copy>, j: nat, sn: Seq16)
    requires j <= |batch|
  {
    exists k :: 0 <= k < j && Wire(batch[k].index) == sn && HeldAfter(c, taken, r, batch, k)
  }

  lemma SomeHeldStep(c: Config, taken: nat, r: Receiver, batch: seq<Copy>, j: nat, sn: Seq16)
    requires j < |batch|
    ensures SomeHeld(c, taken, r, batch, j + 1, sn)
       <==> SomeHeld(c, taken, r, batch, j, sn) || (HeldAfter(c, taken, r, batch, j) && Wire(batch[j].index) == sn)
  {
    if HeldAfter(c, taken, r, batch, j) && Wire(batch[j].index) == sn {
      assert Wire(batch[j].index) == sn && HeldAfter(c, taken, r, batch, j);
    }
  }

  lemma {:induction false} AckedMembers(c: Config, sent: seq<Bytes>, taken: nat, r: Receiver, batch: seq<Copy>, j: nat, sn: Seq16)
    requires c.Valid() && BufferHolds(c, sent, taken, r) && j <= |batch|
    requires forall k :: 0 <= k < |batch| ==> S.Genuine(c, sent, taken, batch[k])
    ensures sn in AckedOf(r, c.window, OnWireAll(batch[..j])) <==> SomeHeld(c, taken, r, batch, j, sn)
    decreases j
  {
    if j > 0 {
      AckedMembers(c, sent, taken, r, batch, j - 1, sn);
      AckedPush(c, sent, taken, r, batch, j - 1, sn);
      SomeHeldStep(c, taken, r, batch, j - 1, sn);
    }
  }

  lemma AckedPush(c: Config, sent: seq<Bytes>, taken: nat, r: Receiver, batch: seq<Copy>, j: nat, sn: Seq16)
    requires c.Valid() && BufferHolds(c, sent, taken, r) && j < |batch|
    requires forall k :: 0 <= k < |batch| ==> S.Genuine(c, sent, taken, batch[k])
    ensures sn in AckedOf(r, c.window, OnWireAll(batch[..j + 1]))
       <==> sn in AckedOf(r, c.window, OnWireAll(batch[..j])) || (HeldAfter(c, taken, r, batch, j) && Wire(batch[j].index) == sn)
  {
    AckedIffHeld(c, sent, taken, r, batch, j);
    MemberOfPush(AckedOf(r, c.window, OnWireAll(batch[..j])), AckedOf(r, c.window, OnWireAll(batch[..j + 1])),
                 Wire(batch[j].index), HeldAfter(c, taken, r, batch, j), sn);
  }

  /**
   The acknowledgements emitted for a batch of genuine copies are complete and sound: the number of a copy
   is among them if and only if its chunk is taken out or buffered once the batch has been processed.
   */
  lemma AcknowledgedExactly(c: Config, sent: seq<Bytes>, taken: nat, r: Receiver, batch: seq<Copy>, i: nat)
    requires c.Valid() && BufferHolds(c, sent, taken, r) && i < |batch|
    requires forall k :: 0 <= k < |batch| ==> S.Genuine(c, sent, taken, batch[k])
    ensures Wire(batch[i].index) in AckedOf(r, c.window, OnWireAll(batch))
       <==> Received(taken, AcceptAll(r, c.window, OnWireAll(batch)), batch[i].index)
  {
    var sn := Wire(batch[i].index);
    assert batch[..|batch|] == batch;
    AckedMembers(c, sent, taken, r, batch, |batch|, sn);
    HeldAtOnce(c, sent, taken, r, batch, i, |batch|);
    if k :| 0 <= k < |batch| && Wire(batch[k].index) == sn && HeldAfter(c, taken, r, batch, k) {
      SameNumber(c, sent, taken, batch[k], batch[i]);
      HeldAtOnce(c, sent, taken, r, batch, k, |batch|);
    }
    assert Received(taken, AcceptAll(r, c.window, OnWireAll(batch)), batch[i].index) ==> HeldAfter(c, taken, r, batch, i);
  }

  // ------------------------------------------------------------------
  // Progress
  // ------------------------------------------------------------------

  lemma AcceptGrows(r: Receiver, window: nat, seg: Segment)
    ensures |Accept(r, window, seg).rcvBuf| == |r.rcvBuf| + if Classify(r, window, seg.sn).Fresh? then 1 else 0
  {
    var r' := Accept(r, window, seg);
    if Classify(r, window, seg.sn).Fresh? {
      assert r'.rcvBuf.Keys == r.rcvBuf.Keys + {seg.sn};
      assert |r'.rcvBuf| == |r'.rcvBuf.Keys| && |r.rcvBuf| == |r.rcvBuf.Keys|;
    }
  }

  /** A batch counts as progress exactly if it left something new in the buffer. */
  lemma {:induction false} ProgressIsGrowth(r: Receiver, window: nat, batch: seq<Segment>)
    ensures |r.rcvBuf| <= |AcceptAll(r, window, batch).rcvBuf|
    ensures E.Progressed(r, window, batch) <==> |r.rcvBuf| < |AcceptAll(r, window, batch).rcvBuf|
    decreases |batch|
  {
    if batch != [] {
      var n := |batch| - 1;
      ProgressIsGrowth(r, window, batch[..n]);
      AcceptGrows(AcceptAll(r, window, batch[..n]), window, batch[n]);
    }
  }

  /** Through the endpoint: a batch puts the inactivity timeout off exactly if it brought something new. */
  lemma NewDataIsProgress(t: Tuning, window: nat, e: Endpoint, batch: seq<Segment>, now: int)
    requires !e.local.writerBroken && !e.hs.closeWriteSent && !e.hs.closeWriteAcked
    ensures var e' := E.BatchArrived(t, window, e, batch, now);
            && e'.rcv == AcceptAll(e.rcv, window, batch)
            && e'.lastProgress == if |e'.rcv.rcvBuf| > |e.rcv.rcvBuf| then now else e.lastProgress
  {
    ProgressIsGrowth(e.rcv, window, batch);
  }

  /** Of numbers less than 32768 apart, the gap scan starts at the latest. */
  lemma {:induction false} NewestOfIsLatest(acked: seq<Seq16>, indices: seq<nat>, at: nat)
    requires |acked| == |indices| && forall k :: 0 <= k < |acked| ==> acked[k] == Wire(indices[k])
    requires at < |indices| && forall k :: 0 <= k < |indices| ==> indices[at] < indices[k] + 32768 && indices[k] <= indices[at]
    ensures E.NewestOf(acked) == Some(Wire(indices[at]))
    decreases |acked|
  {
    var k := |acked| - 1;
    if at < k {
      NewestOfIsLatest(acked[..k], indices[..k], at);
      E.NewestIsLatest(indices[at], indices[k]);
    } else if k > 0 {
      var top := Greatest(indices[..k]);
      NewestOfIsLatest(acked[..k], indices[..k], top);
      E.NewestIsLatest(indices[top], indices[k]);
    }
  }

  lemma {:induction false} Greatest(s: seq<nat>) returns (top: nat)
    requires s != []
    ensures top < |s| && forall k :: 0 <= k < |s| ==> s[k] <= s[top]
    decreases |s|
  {
    var k := |s| - 1;
    top := k;
    if k > 0 {
      var before := Greatest(s[..k]);
      if s[k] < s[before] {
        top := before;
      }
    }
  }

  // ------------------------------------------------------------------
  // Delivery stays possible
  // ------------------------------------------------------------------

  ghost predicate Path(c: Config, states: seq<System>, steps: seq<Step>) {
    && |states| == |steps| + 1
    && forall i {:trigger steps[i]} :: 0 <= i < |steps| ==> Moves(c, states[i], steps[i], states[i + 1])
  }

  ghost predicate Moves(c: Config, s: System, step: Step, s': System) {
    Enabled(c, s, step) && s' == Apply(c, s, step)
  }

  ghost predicate CanReach(c: Config, s: System, s': System) {
    exists states, steps :: Path(c, states, steps) && states[0] == s && states[|states| - 1] == s'
  }

  lemma StayPut(c: Config, s: System)
    ensures CanReach(c, s, s)
  {
    assert Path(c, [s], []);
  }

  lemma OneMove(c: Config, start: System, s: System, step: Step)
    requires CanReach(c, start, s) && Enabled(c, s, step)
    ensures CanReach(c, start, Apply(c, s, step))
  {
    var states, steps :| Path(c, states, steps) && states[0] == start && states[|states| - 1] == s;
    var states', steps' := states + [Apply(c, s, step)], steps + [step];
    forall i {:trigger steps'[i]} | 0 <= i < |steps'|
      ensures Moves(c, states'[i], steps'[i], states'[i + 1])
    {
      if i < |steps| {
        assert steps'[i] == steps[i];
      }
    }
    assert Path(c, states', steps');
  }

  lemma Onward(c: Config, start: System, s: System, s': System)
    requires CanReach(c, start, s) && CanReach(c, s, s')
    ensures CanReach(c, start, s')
  {
    var states, steps :| Path(c, states, steps) && states[0] == s && states[|states| - 1] == s';
    OnwardAlong(c, start, states, steps, |steps|);
  }

  lemma {:induction false} OnwardAlong(c: Config, start: System, states: seq<System>, steps: seq<Step>, k: nat)
    requires Path(c, states, steps) && CanReach(c, start, states[0]) && k <= |steps|
    ensures CanReach(c, start, states[k])
  {
    if k > 0 {
      OnwardAlong(c, start, states, steps, k - 1);
      assert Moves(c, states[k - 1], steps[k - 1], states[k]);
      OneMove(c, start, states[k - 1], steps[k - 1]);
    }
  }

  /** Good, undisturbed, and nothing waits but unacknowledged chunks. */
  ghost predicate Idle(c: Config, s: System) {
    Inv(c, s) && s.Intact() && s.inbound == [] && s.writing == [] && Wire(s.taken) !in s.rcv.rcvBuf
  }

  /** Nothing that waits to be processed or acknowledged is more than 32768 numbers behind the newest chunk. */
  ghost predicate Recent(s: System) {
    && (forall i :: 0 <= i < |s.inbound| ==> |s.sent| <= s.inbound[i].index + 32768)
    && (forall sn :: sn in s.snd.sndBuf ==> |s.sent| <= Latest(|s.sent|, sn) + 32768)
  }

  /** Process, take out and write whatever has arrived. */
  lemma Settle(c: Config, start: System, s: System) returns (s': System)
    requires c.Valid() && Inv(c, s) && s.Intact() && Recent(s) && CanReach(c, start, s)
    ensures CanReach(c, start, s') && Idle(c, s') && s'.snd == s.snd && s'.sent == s.sent && s.taken <= s'.taken
    ensures s.acks <= s'.acks
  {
    var s1 := Apply(c, s, Process(|s.inbound|));
    OneMove(c, start, s, Process(|s.inbound|));
    S.StepKeeps(c, s, Process(|s.inbound|));
    var s2 := Apply(c, s1, Take);
    OneMove(c, start, s1, Take);
    S.StepKeeps(c, s1, Take);
    S.TakeOutStops(s1.taken, s1.rcv);
    s' := Apply(c, s2, Write(|s2.writing|));
    OneMove(c, start, s2, Write(|s2.writing|));
    S.StepKeeps(c, s2, Write(|s2.writing|));
  }

  /** The chunk that is missing at the front, or any other when none is: an entry to send again. */
  lemma NextToResend(c: Config, s: System) returns (sn: Seq16, n: nat)
    requires c.Valid() && Idle(c, s) && Recent(s) && s.snd.sndBuf != map[]
    ensures sn in s.snd.sndBuf && n == Latest(|s.sent|, sn) && Wire(n) == sn && n < |s.sent| <= n + 32768 && n <= s.taken
  {
    if s.taken < |s.sent| {
      sn := Wire(s.taken);
      assert sn in s.snd.sndBuf;
      LatestExactly(|s.sent|, s.taken);
    } else {
      sn :| sn in s.snd.sndBuf;
    }
    LatestIsGreatest(|s.sent|, sn);
    n := Latest(|s.sent|, sn);
  }

  /** An entry is sent again and its copy arrives. */
  lemma SendAgain(c: Config, start: System, s: System, sn: Seq16, n: nat) returns (s': System)
    requires c.Valid() && Idle(c, s) && CanReach(c, start, s)
    requires sn in s.snd.sndBuf && n == Latest(|s.sent|, sn) && n < |s.sent|
    ensures CanReach(c, start, s') && Inv(c, s') && s'.Intact()
    ensures s'.inbound == [Copy(n, s.sent[n])] && s'.snd == s.snd && s'.sent == s.sent && s'.taken == s.taken
  {
    var copy := Copy(n, s.sent[n]);
    var s1 := Apply(c, s, Resend(sn));
    OneMove(c, start, s, Resend(sn));
    S.StepKeeps(c, s, Resend(sn));
    s' := Apply(c, s1, Arrive(copy));
    OneMove(c, start, s1, Arrive(copy));
    S.StepKeeps(c, s1, Arrive(copy));
  }

  /** One entry sent again, received, acknowledged and forgotten. */
  lemma Round(c: Config, start: System, s: System, sn: Seq16, n: nat) returns (s': System)
    requires c.Valid() && Idle(c, s) && Recent(s) && CanReach(c, start, s)
    requires sn in s.snd.sndBuf && n == Latest(|s.sent|, sn) && Wire(n) == sn && n < |s.sent| <= n + 32768 && n <= s.taken
    ensures CanReach(c, start, s') && Inv(c, s') && s'.Intact() && Recent(s')
    ensures s'.sent == s.sent && s'.snd.sndBuf == s.snd.sndBuf - {sn}
  {
    var s2 := SendAgain(c, start, s, sn, n);
    var s3 := Apply(c, s2, Process(1));
    OneMove(c, start, s2, Process(1));
    S.StepKeeps(c, s2, Process(1));
    CopyIsAcked(c, s2, Copy(n, s.sent[n]));
    s' := Apply(c, s3, AckArrives(n));
    OneMove(c, start, s3, AckArrives(n));
    S.StepKeeps(c, s3, AckArrives(n));
  }

  /** A copy of the front chunk, or of an older one, is acknowledged when it is processed. */
  lemma CopyIsAcked(c: Config, s: System, copy: Copy)
    requires c.Valid() && Inv(c, s) && s.Intact() && s.inbound == [copy] && copy.index <= s.taken <= copy.index + 32768
    ensures copy.index in Apply(c, s, Process(1)).acks && Apply(c, s, Process(1)).inbound == []
  {
    var batch := s.inbound[..1];
    assert batch == [copy] && OnWireAll(batch[..0]) == [] && batch[..0] == [];
    Distances(c, s.rcv, s.taken, copy.index);
    assert copy.index in AckedIndices(s.rcv, c.window, batch);
  }

  /**
   No run paints itself into a corner: from every state of an undisturbed stream, as long as nothing waits
   behind the age bound, the network can still let every chunk be written and every chunk be acknowledged.
   */
  lemma {:induction false} DeliveryStaysPossible(c: Config, s: System) returns (done: System)
    requires c.Valid() && Inv(c, s) && s.Intact() && Recent(s)
    ensures CanReach(c, s, done) && done.sent == s.sent
    ensures done.written == Flatten(s.sent) && done.snd.sndBuf == map[]
    decreases |s.snd.sndBuf|
  {
    StayPut(c, s);
    var idle := Settle(c, s, s);
    if idle.snd.sndBuf == map[] {
      S.NothingPendingMeansAllTaken(c, idle);
      assert idle.sent[..idle.taken] == idle.sent && idle.written + [] == idle.written;
      done := idle;
    } else {
      var sn, n := NextToResend(c, idle);
      var next := Round(c, s, idle, sn, n);
      RemovalShrinks(s.snd.sndBuf, sn);
      done := DeliveryStaysPossible(c, next);
      Onward(c, s, next, done);
    }
  }
}
