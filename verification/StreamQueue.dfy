/** The transmit queue of one client stream: enqueue policy on top of the multi-level queue. */
module StreamQueue {
  import opened Enums
  import opened Octets
  import opened Mlq
  import opened Sequences

  datatype TxPacket = TxPacket(
    packetType: PacketType, sn: Word16, fragment: Byte, total: Byte, compression: Byte, ttl: int, payload: seq<Byte>)

  const PING_LIMIT := 500

  type Queued = seq<Entry<TxPacket>>

  /** Key extraction, as every queue operation of a stream does it. */
  function KeyFor(stream: Word16): TxPacket -> Key {
    (p: TxPacket) => PacketIdentityKey(stream, p.packetType, p.sn, p.fragment)
  }

  function WithKey(stream: Word16, t: PacketType, sn: Word16, fragment: Byte): Entry<TxPacket> -> bool {
    Matching(LEVELS, KeyIs(KeyFor(stream), PacketIdentityKey(stream, t, sn, fragment)))
  }

  predicate IsQueued(list: Queued, stream: Word16, t: PacketType, sn: Word16, fragment: Byte) {
    First(list, WithKey(stream, t, sn, fragment)).Some?
  }

  // ------------------------------------------------------------------
  // Policy on the simple list
  // ------------------------------------------------------------------

  predicate Refused(list: Queued, stream: Word16, p: TxPacket) {
    || (p.packetType == PACKET_PING && |list| > PING_LIMIT)
    || (p.packetType == PACKET_STREAM_DATA && IsQueued(list, stream, PACKET_STREAM_RESEND, p.sn, p.fragment))
    || IsQueued(list, stream, p.packetType, p.sn, p.fragment)
  }

  /** A RESEND takes the place of a queued DATA packet. */
  function AfterPush(list: Queued, stream: Word16, level: nat, p: TxPacket): Queued {
    if Refused(list, stream, p) then list
    else
      var pushed := Inserted(list, Entry(level, p));
      if p.packetType == PACKET_STREAM_RESEND
      then Taken(pushed, WithKey(stream, PACKET_STREAM_DATA, p.sn, p.fragment))
      else pushed
  }

  function AfterRemoval(list: Queued, stream: Word16, sn: Word16): Queued {
    Taken(Taken(list, WithKey(stream, PACKET_STREAM_DATA, sn, 0)), WithKey(stream, PACKET_STREAM_RESEND, sn, 0))
  }

  /** No number and fragment is queued both as DATA and as RESEND. */
  ghost predicate Exclusive(list: Queued) {
    forall x, y :: x in list && y in list ==> !Clash(x.item, y.item)
  }

  predicate Clash(data: TxPacket, resend: TxPacket) {
    && data.packetType == PACKET_STREAM_DATA && resend.packetType == PACKET_STREAM_RESEND
    && data.sn == resend.sn && data.fragment == resend.fragment
  }

  ghost predicate Leveled(list: Queued) {
    forall i :: 0 <= i < |list| ==> list[i].level < LEVELS
  }

  predicate Is(x: TxPacket, t: PacketType, sn: Word16, fragment: Byte) {
    x.packetType == t && x.sn == sn && x.fragment == fragment
  }

  /** Absent from the queue means no queued packet of that type, number and fragment. */
  lemma AbsentMeansNone(list: Queued, stream: Word16, t: PacketType, sn: Word16, fragment: Byte)
    requires Leveled(list) && IdentityOf(t).BySequenceAndFragment?
    ensures !IsQueued(list, stream, t, sn, fragment) <==> forall x :: x in list ==> !Is(x.item, t, sn, fragment)
  {
    var p, i := WithKey(stream, t, sn, fragment), IndexOf(list, WithKey(stream, t, sn, fragment));
    forall x | x in list
      ensures p(x) <==> Is(x.item, t, sn, fragment)
    {
      KeyIdentifies(stream, x.item.packetType, x.item.sn, x.item.fragment, stream, t, sn, fragment);
    }
    if i < |list| {
      assert list[i] in list;
    }
  }

  lemma TakenFrom(list: Queued, p: Entry<TxPacket> -> bool, x: Entry<TxPacket>)
    ensures x in Taken(list, p) ==> x in list
    ensures x in list && !p(x) ==> x in Taken(list, p)
  {
    var i := IndexOf(list, p);
    if i < |list| {
      assert list == list[..i] + [list[i]] + list[i + 1..];
    }
  }

  /** Removing entries keeps the exclusion and the distinctness of keys. */
  lemma TakenKeeps(list: Queued, stream: Word16, p: Entry<TxPacket> -> bool)
    requires Leveled(list) && DistinctKeys(list, KeyFor(stream))
    ensures Leveled(Taken(list, p)) && DistinctKeys(Taken(list, p), KeyFor(stream))
  {
    if IndexOf(list, p) < |list| {
      WithoutAt(list, IndexOf(list, p));
    }
  }

  lemma TakenStaysExclusive(list: Queued, p: Entry<TxPacket> -> bool)
    requires Exclusive(list)
    ensures Exclusive(Taken(list, p))
  {
    forall x | x in Taken(list, p)
      ensures x in list
    {
      TakenFrom(list, p, x);
    }
  }

  /** With distinct keys, taking out the first match leaves none. */
  lemma TakenIsGone(list: Queued, stream: Word16, t: PacketType, sn: Word16, fragment: Byte)
    requires Leveled(list) && DistinctKeys(list, KeyFor(stream))
    ensures !IsQueued(Taken(list, WithKey(stream, t, sn, fragment)), stream, t, sn, fragment)
  {
    var i := IndexOf(list, WithKey(stream, t, sn, fragment));
    if i < |list| {
      WithoutAt(list, i);
    }
  }

  lemma DistinctAfterInsert(list: Queued, stream: Word16, at: nat, e: Entry<TxPacket>)
    requires Leveled(list) && e.level < LEVELS && DistinctKeys(list, KeyFor(stream)) && at <= |list|
    requires !IsQueued(list, stream, e.item.packetType, e.item.sn, e.item.fragment)
    ensures Leveled(InsertAt(list, at, e)) && DistinctKeys(InsertAt(list, at, e), KeyFor(stream))
  {
    var p := WithKey(stream, e.item.packetType, e.item.sn, e.item.fragment);
    forall i | 0 <= i < |list|
      ensures KeyFor(stream)(list[i].item) != KeyFor(stream)(e.item)
    {
      assert !p(list[i]);
    }
  }

  lemma InsertedFrom(list: Queued, at: nat, e: Entry<TxPacket>, x: Entry<TxPacket>)
    requires at <= |list|
    ensures x in InsertAt(list, at, e) ==> x in list || x == e
  {
    assert list == list[..at] + list[at..];
  }

  /** Whatever is pushed, DATA and RESEND stay exclusive. */
  lemma PushKeepsExclusive(list: Queued, stream: Word16, level: nat, p: TxPacket)
    requires Leveled(list) && level < LEVELS && DistinctKeys(list, KeyFor(stream)) && Exclusive(list)
    ensures Exclusive(AfterPush(list, stream, level, p))
  {
    if !Refused(list, stream, p) {
      var e, at := Entry(level, p), IndexOf(list, (x: Entry<TxPacket>) => x.level > level);
      assert Inserted(list, e) == InsertAt(list, at, e);
      DistinctAfterInsert(list, stream, at, e);
      if p.packetType == PACKET_STREAM_RESEND {
        ResendReplacesData(list, stream, at, e);
      } else {
        InsertKeepsExclusive(list, stream, at, e);
      }
    }
  }

  lemma InsertKeepsExclusive(list: Queued, stream: Word16, at: nat, e: Entry<TxPacket>)
    requires at <= |list| && Leveled(list) && Exclusive(list) && e.item.packetType != PACKET_STREAM_RESEND
    requires e.item.packetType == PACKET_STREAM_DATA ==> !IsQueued(list, stream, PACKET_STREAM_RESEND, e.item.sn, e.item.fragment)
    ensures Exclusive(InsertAt(list, at, e))
  {
    AbsentMeansNone(list, stream, PACKET_STREAM_RESEND, e.item.sn, e.item.fragment);
    forall x, y | x in InsertAt(list, at, e) && y in InsertAt(list, at, e)
      ensures !Clash(x.item, y.item)
    {
      InsertedFrom(list, at, e, x);
      InsertedFrom(list, at, e, y);
    }
  }

  lemma ResendReplacesData(list: Queued, stream: Word16, at: nat, e: Entry<TxPacket>)
    requires at <= |list| && e.item.packetType == PACKET_STREAM_RESEND && Exclusive(list)
    requires Leveled(InsertAt(list, at, e)) && DistinctKeys(InsertAt(list, at, e), KeyFor(stream))
    ensures Exclusive(Taken(InsertAt(list, at, e), WithKey(stream, PACKET_STREAM_DATA, e.item.sn, e.item.fragment)))
  {
    var pushed, q := InsertAt(list, at, e), WithKey(stream, PACKET_STREAM_DATA, e.item.sn, e.item.fragment);
    var left := Taken(pushed, q);
    TakenIsGone(pushed, stream, PACKET_STREAM_DATA, e.item.sn, e.item.fragment);
    TakenKeeps(pushed, stream, q);
    AbsentMeansNone(left, stream, PACKET_STREAM_DATA, e.item.sn, e.item.fragment);
    forall x, y | x in left && y in left
      ensures !Clash(x.item, y.item)
    {
      TakenFrom(pushed, q, x);
      TakenFrom(pushed, q, y);
      InsertedFrom(list, at, e, x);
      InsertedFrom(list, at, e, y);
    }
  }

  // ------------------------------------------------------------------
  // The stream
  // ------------------------------------------------------------------

  class StreamClient {
    const stream: Word16
    const txQueue: MultiLevelQueue<TxPacket>

    ghost predicate Valid()
      reads this, txQueue
    {
      txQueue.Valid() && txQueue.keyOf == KeyFor(stream) && Exclusive(txQueue.List())
    }

    constructor (stream: Word16)
      ensures Valid() && fresh(txQueue) && txQueue.List() == [] && this.stream == stream
    {
      this.stream := stream;
      txQueue := new MultiLevelQueue(KeyFor(stream));
    }

    /** PushTXPacket. */
    method PushTXPacket(priority: int, p: TxPacket) returns (ok: bool)
      requires Valid()
      modifies txQueue
      ensures Valid()
      ensures ok <==> !Refused(old(txQueue.List()), stream, p)
      ensures txQueue.List() == AfterPush(old(txQueue.List()), stream, NormalizedPriority(p.packetType, priority), p)
    {
      var level := NormalizedPriority(p.packetType, priority);
      FlatBelow(txQueue.queues, LEVELS);
      PushKeepsExclusive(txQueue.List(), stream, level, p);
      if p.packetType == PACKET_PING && txQueue.fastSize > PING_LIMIT {
        return false;
      }
      var dataKey := PacketIdentityKey(stream, PACKET_STREAM_DATA, p.sn, p.fragment);
      var resendKey := PacketIdentityKey(stream, PACKET_STREAM_RESEND, p.sn, p.fragment);
      if p.packetType == PACKET_STREAM_DATA {
        var data := txQueue.Get(dataKey);
        if data.Some? {
          return false;
        }
        var resend := txQueue.Get(resendKey);
        if resend.Some? {
          return false;
        }
      } else if p.packetType == PACKET_STREAM_RESEND {
        var resend := txQueue.Get(resendKey);
        if resend.Some? {
          return false;
        }
      }
      ok := txQueue.Push(level, PacketIdentityKey(stream, p.packetType, p.sn, p.fragment), p);
      if ok && p.packetType == PACKET_STREAM_RESEND {
        var stale := txQueue.RemoveByKey(dataKey);
      }
    }

    /** PopNextTXPacket. */
    method PopNextTXPacket() returns (popped: Option<Entry<TxPacket>>)
      requires Valid()
      modifies txQueue
      ensures Valid()
      ensures if old(txQueue.List()) == [] then popped == None && txQueue.List() == []
              else popped == Some(old(txQueue.List())[0]) && txQueue.List() == old(txQueue.List())[1..]
    {
      popped := txQueue.Pop();
    }

    /** RemoveQueuedData: whatever of that number is queued, first or repeated transmission, goes. */
    method RemoveQueuedData(sn: Word16) returns (removedAny: bool)
      requires Valid()
      modifies txQueue
      ensures Valid()
      ensures txQueue.List() == AfterRemoval(old(txQueue.List()), stream, sn)
      ensures removedAny <==> IsQueued(old(txQueue.List()), stream, PACKET_STREAM_DATA, sn, 0)
                              || IsQueued(old(txQueue.List()), stream, PACKET_STREAM_RESEND, sn, 0)
      ensures !IsQueued(txQueue.List(), stream, PACKET_STREAM_DATA, sn, 0)
              && !IsQueued(txQueue.List(), stream, PACKET_STREAM_RESEND, sn, 0)
    {
      FlatBelow(txQueue.queues, LEVELS);
      RemovalClears(txQueue.List(), stream, sn);
      TakenOther(txQueue.List(), stream, sn);
      var data := txQueue.RemoveByKey(PacketIdentityKey(stream, PACKET_STREAM_DATA, sn, 0));
      var resend := txQueue.RemoveByKey(PacketIdentityKey(stream, PACKET_STREAM_RESEND, sn, 0));
      removedAny := data.Some? || resend.Some?;
    }

    /** RemoveQueuedDataNack. */
    method RemoveQueuedDataNack(sn: Word16) returns (removed: bool)
      requires Valid()
      modifies txQueue
      ensures Valid()
      ensures removed <==> IsQueued(old(txQueue.List()), stream, PACKET_STREAM_DATA_NACK, sn, 0)
      ensures txQueue.List() == Taken(old(txQueue.List()), WithKey(stream, PACKET_STREAM_DATA_NACK, sn, 0))
    {
      FlatBelow(txQueue.queues, LEVELS);
      TakenStaysExclusive(txQueue.List(), WithKey(stream, PACKET_STREAM_DATA_NACK, sn, 0));
      var nack := txQueue.RemoveByKey(PacketIdentityKey(stream, PACKET_STREAM_DATA_NACK, sn, 0));
      removed := nack.Some?;
    }
  }

  /** Taking out the DATA packet neither hides nor reveals the RESEND packet. */
  lemma TakenOther(list: Queued, stream: Word16, sn: Word16)
    requires Leveled(list) && DistinctKeys(list, KeyFor(stream))
    ensures var left := Taken(list, WithKey(stream, PACKET_STREAM_DATA, sn, 0));
            IsQueued(left, stream, PACKET_STREAM_RESEND, sn, 0) <==> IsQueued(list, stream, PACKET_STREAM_RESEND, sn, 0)
  {
    var q := WithKey(stream, PACKET_STREAM_DATA, sn, 0);
    var left := Taken(list, q);
    TakenKeeps(list, stream, q);
    AbsentMeansNone(list, stream, PACKET_STREAM_RESEND, sn, 0);
    AbsentMeansNone(left, stream, PACKET_STREAM_RESEND, sn, 0);
    forall x | x in list && Is(x.item, PACKET_STREAM_RESEND, sn, 0)
      ensures x in left
    {
      KeyIdentifies(stream, PACKET_STREAM_RESEND, sn, 0, stream, PACKET_STREAM_DATA, sn, 0);
      TakenFrom(list, q, x);
    }
    forall x | x in left
      ensures x in list
    {
      TakenFrom(list, q, x);
    }
  }

  lemma RemovalClears(list: Queued, stream: Word16, sn: Word16)
    requires Leveled(list) && DistinctKeys(list, KeyFor(stream)) && Exclusive(list)
    ensures var left := AfterRemoval(list, stream, sn);
            && Exclusive(left)
            && !IsQueued(left, stream, PACKET_STREAM_DATA, sn, 0) && !IsQueued(left, stream, PACKET_STREAM_RESEND, sn, 0)
  {
    var data, resend := WithKey(stream, PACKET_STREAM_DATA, sn, 0), WithKey(stream, PACKET_STREAM_RESEND, sn, 0);
    var l1 := Taken(list, data);
    TakenKeeps(list, stream, data);
    TakenKeeps(l1, stream, resend);
    TakenStaysExclusive(list, data);
    TakenStaysExclusive(l1, resend);
    TakenIsGone(list, stream, PACKET_STREAM_DATA, sn, 0);
    TakenIsGone(l1, stream, PACKET_STREAM_RESEND, sn, 0);
    AbsentMeansNone(l1, stream, PACKET_STREAM_DATA, sn, 0);
    AbsentMeansNone(Taken(l1, resend), stream, PACKET_STREAM_DATA, sn, 0);
    forall x | x in Taken(l1, resend)
      ensures x in l1
    {
      TakenFrom(l1, resend, x);
    }
  }

  // ------------------------------------------------------------------
  // What the queue holds
  // ------------------------------------------------------------------

  /** The queue takes the two for the same packet. */
  predicate Same(x: TxPacket, t: PacketType, sn: Word16, fragment: Byte) {
    && x.packetType == t
    && (t in {PACKET_SESSION_CLOSE, PACKET_SESSION_BUSY} || x.sn == sn)
    && (IdentityOf(t).BySequenceAndFragment? ==> x.fragment == fragment)
  }

  lemma QueuedExactly(list: Queued, stream: Word16, t: PacketType, sn: Word16, fragment: Byte)
    requires Leveled(list)
    ensures IsQueued(list, stream, t, sn, fragment) <==> exists x :: x in list && Same(x.item, t, sn, fragment)
  {
    var p, i := WithKey(stream, t, sn, fragment), IndexOf(list, WithKey(stream, t, sn, fragment));
    forall x | x in list
      ensures p(x) <==> Same(x.item, t, sn, fragment)
    {
      KeyIdentifies(stream, x.item.packetType, x.item.sn, x.item.fragment, stream, t, sn, fragment);
    }
    if i < |list| {
      assert list[i] in list;
    }
  }

  /**
   A packet is refused exactly when the queue holds the same packet, or holds the repetition of a DATA packet, or
   is full of more than 500 packets and the packet is a ping.
   */
  lemma RefusedExactly(list: Queued, stream: Word16, p: TxPacket)
    requires Leveled(list)
    ensures Refused(list, stream, p)
       <==> || (exists x :: x in list && Same(x.item, p.packetType, p.sn, p.fragment))
            || (p.packetType == PACKET_STREAM_DATA && exists x :: x in list && Is(x.item, PACKET_STREAM_RESEND, p.sn, p.fragment))
            || (p.packetType == PACKET_PING && |list| > 500)
  {
    QueuedExactly(list, stream, p.packetType, p.sn, p.fragment);
    AbsentMeansNone(list, stream, PACKET_STREAM_RESEND, p.sn, p.fragment);
  }

  /** Where keys are distinct, taking out a packet takes out that packet alone, and keeps the order of the others. */
  lemma TakenExactly(list: Queued, stream: Word16, t: PacketType, sn: Word16, fragment: Byte, x: Entry<TxPacket>)
    requires Leveled(list) && DistinctKeys(list, KeyFor(stream)) && IdentityOf(t).BySequenceAndFragment?
    ensures x in Taken(list, WithKey(stream, t, sn, fragment)) <==> x in list && !Is(x.item, t, sn, fragment)
  {
    var p := WithKey(stream, t, sn, fragment);
    TakenFrom(list, p, x);
    TakenKeeps(list, stream, p);
    TakenIsGone(list, stream, t, sn, fragment);
    AbsentMeansNone(Taken(list, p), stream, t, sn, fragment);
    if x in list {
      KeyIdentifies(stream, x.item.packetType, x.item.sn, x.item.fragment, stream, t, sn, fragment);
    }
  }

  /** The DATA packet whose place a RESEND packet takes. */
  predicate Replaced(x: TxPacket, p: TxPacket) {
    p.packetType == PACKET_STREAM_RESEND && Is(x, PACKET_STREAM_DATA, p.sn, p.fragment)
  }

  /** An accepted packet is queued, a RESEND packet drives out its DATA packet, and nothing else changes. */
  lemma PushContents(list: Queued, stream: Word16, level: nat, p: TxPacket, x: Entry<TxPacket>)
    requires Leveled(list) && level < LEVELS && DistinctKeys(list, KeyFor(stream)) && !Refused(list, stream, p)
    ensures x in AfterPush(list, stream, level, p) <==> x == Entry(level, p) || (x in list && !Replaced(x.item, p))
  {
    var e, at := Entry(level, p), IndexOf(list, (y: Entry<TxPacket>) => y.level > level);
    var pushed := InsertAt(list, at, e);
    assert Inserted(list, e) == pushed;
    DistinctAfterInsert(list, stream, at, e);
    InsertedExactly(list, at, e, x);
    if p.packetType == PACKET_STREAM_RESEND {
      TakenExactly(pushed, stream, PACKET_STREAM_DATA, p.sn, p.fragment, x);
    }
  }

  lemma InsertedExactly(list: Queued, at: nat, e: Entry<TxPacket>, x: Entry<TxPacket>)
    requires at <= |list|
    ensures x in InsertAt(list, at, e) <==> x in list || x == e
  {
    assert list == list[..at] + list[at..];
    assert InsertAt(list, at, e)[at] == e;
  }

  ghost predicate Ordered(list: Queued) {
    forall i, j :: 0 <= i < j < |list| ==> list[i].level <= list[j].level
  }

  /**
   An accepted packet stands behind everything as urgent as it and in front of everything less urgent, and the others
   keep their order; so packets of one urgency leave in the order they came.
   */
  lemma PushInOrder(list: Queued, stream: Word16, level: nat, p: TxPacket) returns (front: Queued, back: Queued)
    requires Leveled(list) && level < LEVELS && Ordered(list) && DistinctKeys(list, KeyFor(stream)) && !Refused(list, stream, p)
    ensures AfterPush(list, stream, level, p) == front + [Entry(level, p)] + back
    ensures front + back == if p.packetType == PACKET_STREAM_RESEND
                            then Taken(list, WithKey(stream, PACKET_STREAM_DATA, p.sn, p.fragment)) else list
    ensures (forall x :: x in front ==> x.level <= level) && (forall x :: x in back ==> x.level > level)
  {
    front, back := InsertedInOrder(list, Entry(level, p));
    if p.packetType == PACKET_STREAM_RESEND {
      KeyIdentifies(stream, p.packetType, p.sn, p.fragment, stream, PACKET_STREAM_DATA, p.sn, p.fragment);
      front, back := TakenAround(front, Entry(level, p), back, WithKey(stream, PACKET_STREAM_DATA, p.sn, p.fragment));
    }
  }

  lemma InsertedInOrder(list: Queued, e: Entry<TxPacket>) returns (front: Queued, back: Queued)
    requires Ordered(list)
    ensures Inserted(list, e) == front + [e] + back && front + back == list
    ensures (forall x :: x in front ==> x.level <= e.level) && (forall x :: x in back ==> x.level > e.level)
  {
    var at := IndexOf(list, (y: Entry<TxPacket>) => y.level > e.level);
    front, back := list[..at], list[at..];
    Around(list, at, e);
    Sides(list, at, e.level);
  }

  lemma Around(list: Queued, at: nat, e: Entry<TxPacket>)
    requires at <= |list|
    ensures InsertAt(list, at, e) == list[..at] + [e] + list[at..] && list[..at] + list[at..] == list
  {
  }

  lemma Sides(list: Queued, at: nat, level: nat)
    requires Ordered(list) && at <= |list| && (at < |list| ==> list[at].level > level)
    requires forall k :: 0 <= k < at ==> list[k].level <= level
    ensures (forall x :: x in list[..at] ==> x.level <= level) && (forall x :: x in list[at..] ==> x.level > level)
  {
    forall x | x in list[at..]
      ensures x.level > level
    {
      var k :| 0 <= k < |list| - at && list[at..][k] == x;
      assert list[at].level <= list[at + k].level;
    }
  }

  lemma FirstAround(front: Queued, e: Entry<TxPacket>, back: Queued, q: Entry<TxPacket> -> bool)
    requires !q(e)
    ensures var i := IndexOf(front + back, q); IndexOf(front + [e] + back, q) == if i < |front| then i else i + 1
  {
    var i, list, longer := IndexOf(front + back, q), front + back, front + [e] + back;
    assert forall k :: 0 <= k < |front| ==> longer[k] == list[k];
    assert forall k :: |front| < k < |longer| ==> longer[k] == list[k - 1];
    assert longer[|front|] == e;
    FirstAt(longer, if i < |front| then i else i + 1, q);
  }

  lemma TakenBefore(front: Queued, rest: Queued, q: Entry<TxPacket> -> bool, i: nat)
    requires i == IndexOf(front + rest, q) && i < |front|
    ensures Taken(front + rest, q) == (front[..i] + front[i + 1..]) + rest
  {
    assert (front + rest)[..i] == front[..i] && (front + rest)[i + 1..] == front[i + 1..] + rest;
  }

  lemma TakenBehind(front: Queued, rest: Queued, q: Entry<TxPacket> -> bool, i: nat)
    requires |front| + i == IndexOf(front + rest, q) && i < |rest|
    ensures Taken(front + rest, q) == front + (rest[..i] + rest[i + 1..])
  {
    assert (front + rest)[..|front| + i] == front + rest[..i] && (front + rest)[|front| + i + 1..] == rest[i + 1..];
  }

  lemma CutMembers(list: Queued, i: nat)
    requires i < |list|
    ensures forall x :: x in list[..i] + list[i + 1..] ==> x in list
  {
  }

  lemma Middle(front: Queued, e: Entry<TxPacket>, back: Queued)
    ensures front + [e] + back == front + ([e] + back)
  {
  }

  /** Taking something else out of `front + [e] + back` takes it out of `front + back`. */
  lemma TakenAround(front: Queued, e: Entry<TxPacket>, back: Queued, q: Entry<TxPacket> -> bool) returns (front': Queued, back': Queued)
    requires !q(e)
    ensures Taken(front + [e] + back, q) == front' + [e] + back' && Taken(front + back, q) == front' + back'
    ensures (forall x :: x in front' ==> x in front) && (forall x :: x in back' ==> x in back)
  {
    var i := IndexOf(front + back, q);
    front', back' := front, back;
    FirstAround(front, e, back, q);
    if i < |front| {
      front' := front[..i] + front[i + 1..];
      Middle(front, e, back);
      Middle(front', e, back);
      TakenBefore(front, [e] + back, q, i);
      TakenBefore(front, back, q, i);
      CutMembers(front, i);
    } else if i < |front + back| {
      var k := i - |front|;
      back' := back[..k] + back[k + 1..];
      TakenBehind(front + [e], back, q, k);
      TakenBehind(front, back, q, k);
      CutMembers(back, k);
    }
  }

  lemma FirstAt(list: Queued, i: nat, q: Entry<TxPacket> -> bool)
    requires i <= |list| && (forall k :: 0 <= k < i ==> !q(list[k])) && (i < |list| ==> q(list[i]))
    ensures IndexOf(list, q) == i
  {
  }

  /** After an acknowledgement exactly the unfragmented packets of that number are gone, the first and the repeated. */
  lemma RemovalContents(list: Queued, stream: Word16, sn: Word16, x: Entry<TxPacket>)
    requires Leveled(list) && DistinctKeys(list, KeyFor(stream))
    ensures x in AfterRemoval(list, stream, sn)
       <==> x in list && !Is(x.item, PACKET_STREAM_DATA, sn, 0) && !Is(x.item, PACKET_STREAM_RESEND, sn, 0)
  {
    var data := WithKey(stream, PACKET_STREAM_DATA, sn, 0);
    TakenKeeps(list, stream, data);
    TakenExactly(list, stream, PACKET_STREAM_DATA, sn, 0, x);
    TakenExactly(Taken(list, data), stream, PACKET_STREAM_RESEND, sn, 0, x);
  }

  /** An explicit priority counts; the others put answers first, then repetitions, data, half-closes and pings. */
  lemma Urgency(t: PacketType, priority: int, answer: PacketType, repeat: PacketType)
    requires answer in {PACKET_STREAM_DATA_ACK, PACKET_STREAM_DATA_NACK, PACKET_STREAM_SYN, PACKET_STREAM_CLOSE_WRITE_ACK,
                        PACKET_STREAM_CLOSE_READ, PACKET_STREAM_CLOSE_READ_ACK, PACKET_STREAM_RST, PACKET_STREAM_RST_ACK}
    requires repeat in {PACKET_STREAM_RESEND, PACKET_DNS_QUERY_REQ, PACKET_DNS_QUERY_RES}
    ensures NormalizedPriority(t, priority) == if 0 <= priority < LEVELS then priority else DefaultPriority(t)
    ensures DefaultPriority(answer) < DefaultPriority(repeat) < DefaultPriority(PACKET_STREAM_DATA)
    ensures DefaultPriority(PACKET_STREAM_DATA) < DefaultPriority(PACKET_STREAM_CLOSE_WRITE) < DefaultPriority(PACKET_PING)
  {
  }

  // ------------------------------------------------------------------
  // Stream identifiers
  // ------------------------------------------------------------------

  /** The `k`-th identifier after `start` on the circle 1..65535. */
  function OnCircle(start: Word16, k: nat): Word16
    requires start > 0
  {
    1 + (start - 1 + k) % 65535
  }

  function StartAfter(last: Word16): Word16 {
    if last == 65535 then 1 else last + 1
  }

  class StreamIds {
    var lastStreamID: Word16

    constructor ()
      ensures lastStreamID == 0
    {
      lastStreamID := 0;
    }

    /** get_new_stream_id: the first free identifier on the circle, if there is one. */
    method NewStreamID(active: set<Word16>) returns (id: Word16, ok: bool, ghost steps: nat)
      modifies this
      ensures ok ==> && id == OnCircle(StartAfter(old(lastStreamID)), steps) && id !in active && lastStreamID == id
                     && forall k: nat :: k < steps ==> OnCircle(StartAfter(old(lastStreamID)), k) in active
      ensures !ok ==> id == 0 && lastStreamID == old(lastStreamID) && forall x: Word16 :: 0 < x ==> x in active
    {
      var start: Word16 := (lastStreamID + 1) % 65536;
      if start == 0 {
        start := 1;
      }
      id := start;
      var wrapped := false;
      steps := 0;
      while true
        invariant start == StartAfter(old(lastStreamID)) && lastStreamID == old(lastStreamID)
        invariant steps < 65535 && id == OnCircle(start, steps) && (wrapped <==> start - 1 + steps >= 65535)
        invariant forall k: nat :: k < steps ==> OnCircle(start, k) in active
        decreases 65535 - steps
      {
        if id !in active {
          lastStreamID := id;
          return id, true, steps;
        }
        steps := steps + 1;
        id := (id + 1) % 65536;
        if id == 0 {
          id := 1;
          wrapped := true;
        }
        if wrapped && id == start {
          CircleIsComplete(start, steps, active);
          return 0, false, steps;
        }
      }
    }
  }

  lemma CircleIsComplete(start: Word16, steps: nat, active: set<Word16>)
    requires start > 0 && 65535 <= steps && forall k: nat :: k < steps ==> OnCircle(start, k) in active
    ensures forall x: Word16 :: 0 < x ==> x in active
  {
    forall x: Word16 | 0 < x
      ensures x in active
    {
      var k := (x - start) % 65535;
      assert OnCircle(start, k) == x;
    }
  }
}
