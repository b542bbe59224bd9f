/**
 The sharded DNS cache: per shard a map of entries and a list of their keys in order of use, and over
 all shards a count of pending entries.  The hash that picks a shard is a parameter.
 */
module DnsCache {
  import opened Octets
  import opened Enums

  const SHARDS := 32

  datatype Status = Pending | Ready

  /** None is the zero time. */
  datatype Entry = Entry(
    domain: Bytes, qtype: Word16, qclass: Word16, status: Status,
    createdAt: Option<int>, lastUsedAt: Option<int>, lastDispatchAt: Option<int>, response: Bytes)

  datatype Lookup = Lookup(status: Option<Status>, response: Bytes, dispatchNeeded: bool)

  datatype Tuning = Tuning(maxRecords: int, cacheTTL: int, pendingTimeout: int) {
    /** The share of one shard. */
    function Limit(): (limit: nat)
      ensures limit >= 1
      ensures limit * SHARDS <= maxRecords < (limit + 1) * SHARDS || (limit == 1 && maxRecords < SHARDS)
    {
      if maxRecords < 2 * SHARDS then 1 else maxRecords / SHARDS
    }
  }

  // ------------------------------------------------------------------
  // Responses
  // ------------------------------------------------------------------

  /** What SetReady stores: the response without its identifier. */
  function Normalized(raw: Bytes): Bytes
    requires |raw| >= 2
  {
    [0, 0] + raw[2..]
  }

  /** PatchResponseForQuery: identifier, RD and CD of the query. */
  function Patched(response: Bytes, query: Bytes): Bytes {
    if |response| < 2 || |query| < 2 then response
    else if |query| < 4 || |response| < 4 then query[..2] + response[2..]
    else query[..2] + [WithLowBit(response[2], query[2]), WithBit4(response[3], query[3])] + response[4..]
  }

  function WithLowBit(b: Byte, q: Byte): Byte {
    b - b % 2 + q % 2
  }

  function WithBit4(b: Byte, q: Byte): Byte {
    b - b / 16 % 2 * 16 + q / 16 % 2 * 16
  }

  /** Only the identifier and the bits 0x0110 of the flags are the query's; everything else is the stored response's. */
  lemma PatchedExactly(raw: Bytes, query: Bytes)
    requires |raw| >= 4 && |query| >= 4
    ensures var r := Patched(Normalized(raw), query);
            && |r| == |raw| && r[..2] == query[..2] && r[4..] == raw[4..]
            && r[2] / 2 == raw[2] / 2 && r[2] % 2 == query[2] % 2
            && r[3] / 32 == raw[3] / 32 && r[3] % 16 == raw[3] % 16 && r[3] / 16 % 2 == query[3] / 16 % 2
  {
  }

  /** What is too short for flags gets the identifier alone, and a query too short for one leaves it zero. */
  lemma PatchedInShort(raw: Bytes, query: Bytes)
    requires |raw| >= 2 && (|raw| < 4 || |query| < 4)
    ensures var r := Patched(Normalized(raw), query);
            |r| == |raw| && r[2..] == raw[2..] && r[..2] == if |query| < 2 then [0, 0] else query[..2]
  {
  }

  // ------------------------------------------------------------------
  // One shard
  // ------------------------------------------------------------------

  /** `order` lists the keys from the least to the most recently used. */
  datatype Shard<!K(==)> = Shard(items: map<K, Entry>, order: seq<K>)

  ghost predicate Distinct<K>(order: seq<K>) {
    forall i, j :: 0 <= i < j < |order| ==> order[i] != order[j]
  }

  function Without<K(==)>(order: seq<K>, key: K): seq<K>
    decreases |order|
  {
    if order == [] then []
    else
      var n := |order| - 1;
      Without(order[..n], key) + if order[n] == key then [] else [order[n]]
  }

  lemma {:induction false} WithoutMember<K>(order: seq<K>, key: K, k: K)
    ensures k in Without(order, key) <==> k in order && k != key
    decreases |order|
  {
    if order != [] {
      var n := |order| - 1;
      WithoutMember(order[..n], key, k);
      assert order == order[..n] + [order[n]];
    }
  }

  /** Used in ascending order of time. */
  ghost predicate Sorted<K>(order: seq<K>, uses: map<K, nat>) {
    && (forall k :: k in order ==> k in uses)
    && forall i, j :: 0 <= i < j < |order| ==> uses[order[i]] < uses[order[j]]
  }

  lemma SortedIsDistinct<K>(order: seq<K>, uses: map<K, nat>)
    requires Sorted(order, uses)
    ensures Distinct(order)
  {
    assert forall i :: 0 <= i < |order| ==> order[i] in order;
  }

  lemma {:induction false} WithoutSorted<K>(order: seq<K>, uses: map<K, nat>, key: K)
    requires Sorted(order, uses)
    ensures Sorted(Without(order, key), uses)
    decreases |order|
  {
    if order != [] {
      var n := |order| - 1;
      assert forall k :: k in order[..n] ==> k in order;
      WithoutSorted(order[..n], uses, key);
      forall k | k in Without(order[..n], key)
        ensures uses[k] < uses[order[n]]
      {
        WithoutMember(order[..n], key, k);
        var i :| 0 <= i < n && order[..n][i] == k;
        assert uses[order[i]] < uses[order[n]];
      }
      PushSorted(Without(order[..n], key), uses, order[n]);
    }
  }

  lemma PushSorted<K>(order: seq<K>, uses: map<K, nat>, key: K)
    requires Sorted(order, uses) && key in uses && forall k :: k in order ==> uses[k] < uses[key]
    ensures Sorted(order + [key], uses)
  {
    assert forall i :: 0 <= i < |order| ==> order[i] in order;
  }

  /** Everything a shard keeps: same keys in map and list, list in order of use. */
  ghost predicate ShardHolds<K>(s: Shard<K>, uses: map<K, nat>, ticks: nat) {
    && Sorted(s.order, uses) && (forall k :: k in s.order ==> uses[k] < ticks)
    && (forall k :: k in s.order ==> k in s.items) && (forall k :: k in s.items ==> k in s.order)
  }

  function Removed<K(==)>(s: Shard<K>, key: K): Shard<K> {
    Shard(s.items - {key}, Without(s.order, key))
  }

  /** Entry `e` under `key`, now the most recently used. */
  function Placed<K(==)>(s: Shard<K>, key: K, e: Entry): Shard<K> {
    Shard(s.items[key := e], Without(s.order, key) + [key])
  }

  lemma RemovedHolds<K>(s: Shard<K>, key: K, uses: map<K, nat>, ticks: nat)
    requires ShardHolds(s, uses, ticks)
    ensures ShardHolds(Removed(s, key), uses, ticks)
  {
    WithoutSorted(s.order, uses, key);
    forall k | k in Without(s.order, key) || k in s.order
      ensures k in Without(s.order, key) <==> k in s.order && k != key
    {
      WithoutMember(s.order, key, k);
    }
  }

  lemma SortedUnder<K>(order: seq<K>, uses: map<K, nat>, key: K, tick: nat)
    requires Sorted(order, uses) && key !in order
    ensures Sorted(order, uses[key := tick])
  {
    assert forall i :: 0 <= i < |order| ==> order[i] in order;
  }

  lemma PlacedSorted<K>(s: Shard<K>, key: K, uses: map<K, nat>, ticks: nat)
    requires ShardHolds(s, uses, ticks)
    ensures Sorted(Without(s.order, key) + [key], uses[key := ticks])
  {
    var left := Without(s.order, key);
    WithoutSorted(s.order, uses, key);
    WithoutMember(s.order, key, key);
    SortedUnder(left, uses, key, ticks);
    forall k | k in left
      ensures uses[key := ticks][k] < ticks
    {
      WithoutMember(s.order, key, k);
    }
    PushSorted(left, uses[key := ticks], key);
  }

  lemma PlacedHolds<K>(s: Shard<K>, key: K, e: Entry, uses: map<K, nat>, ticks: nat)
    requires ShardHolds(s, uses, ticks)
    ensures ShardHolds(Placed(s, key, e), uses[key := ticks], ticks + 1)
  {
    PlacedSorted(s, key, uses, ticks);
    var order := Without(s.order, key) + [key];
    forall k | k in order
      ensures k in s.items[key := e] && uses[key := ticks][k] < ticks + 1
    {
      WithoutMember(s.order, key, k);
    }
    forall k | k in s.items[key := e]
      ensures k in order
    {
      WithoutMember(s.order, key, k);
    }
  }

  /** Uses of keys that the shard does not hold do not matter. */
  lemma HoldsElsewhere<K>(s: Shard<K>, key: K, uses: map<K, nat>, ticks: nat)
    requires ShardHolds(s, uses, ticks) && key !in s.items
    ensures ShardHolds(s, uses[key := ticks], ticks + 1)
  {
    assert forall i :: 0 <= i < |s.order| ==> s.order[i] in s.order;
  }

  // ------------------------------------------------------------------
  // Counting pending entries
  // ------------------------------------------------------------------

  function PendingKeys<K(==)>(s: Shard<K>): set<K> {
    set k | k in s.items && s.items[k].status.Pending?
  }

  function PendingIn<K(==)>(shards: seq<Shard<K>>): nat {
    if shards == [] then 0 else PendingIn(shards[..|shards| - 1]) + |PendingKeys(shards[|shards| - 1])|
  }

  lemma {:induction false} PendingUpdate<K>(shards: seq<Shard<K>>, i: nat, s: Shard<K>)
    requires i < |shards|
    ensures PendingIn(shards[i := s]) == PendingIn(shards) - |PendingKeys(shards[i])| + |PendingKeys(s)|
    ensures PendingIn(shards) >= |PendingKeys(shards[i])|
    decreases |shards|
  {
    var n := |shards| - 1;
    if i < n {
      PendingUpdate(shards[..n], i, s);
      assert shards[i := s][..n] == shards[..n][i := s];
    } else {
      assert shards[i := s][..n] == shards[..n];
    }
  }

  function One(b: bool): nat {
    if b then 1 else 0
  }

  lemma PendingAfterRemoval<K>(s: Shard<K>, key: K)
    requires key in s.items
    ensures |PendingKeys(Removed(s, key))| == |PendingKeys(s)| - One(s.items[key].status.Pending?)
  {
    if s.items[key].status.Pending? {
      assert PendingKeys(Removed(s, key)) == PendingKeys(s) - {key};
    } else {
      assert PendingKeys(Removed(s, key)) == PendingKeys(s);
    }
  }

  lemma PendingAfterPlacing<K>(s: Shard<K>, key: K, e: Entry)
    ensures |PendingKeys(Placed(s, key, e))|
         == |PendingKeys(s)| - One(key in s.items && s.items[key].status.Pending?) + One(e.status.Pending?)
  {
    var before := PendingKeys(s) - {key};
    if e.status.Pending? {
      assert PendingKeys(Placed(s, key, e)) == before + {key};
    } else {
      assert PendingKeys(Placed(s, key, e)) == before;
    }
    if key in PendingKeys(s) {
      assert PendingKeys(s) == before + {key};
    } else {
      assert PendingKeys(s) == before;
    }
  }

  // ------------------------------------------------------------------
  // Eviction
  // ------------------------------------------------------------------

  function Evicted<K(==)>(s: Shard<K>, limit: nat): Shard<K>
    decreases |s.order|
  {
    if |s.order| <= limit then s
    else
      assert |Without(s.order, s.order[0])| < |s.order| by { WithoutShrinks(s.order, s.order[0]); }
      Evicted(Removed(s, s.order[0]), limit)
  }

  lemma {:induction false} WithoutShrinks<K>(order: seq<K>, key: K)
    ensures |Without(order, key)| <= |order|
    ensures key in order ==> |Without(order, key)| < |order|
    decreases |order|
  {
    if order != [] {
      var n := |order| - 1;
      WithoutShrinks(order[..n], key);
      assert order == order[..n] + [order[n]];
    }
  }

  lemma {:induction false} WithoutFirst<K>(order: seq<K>)
    requires order != [] && Distinct(order)
    ensures Without(order, order[0]) == order[1..]
    decreases |order|
  {
    if |order| > 1 {
      var n := |order| - 1;
      WithoutFirst(order[..n]);
      assert order[1..] == order[..n][1..] + [order[n]];
    }
  }

  /** The keys an eviction leaves. */
  function Drop(length: nat, limit: nat): (drop: nat)
    ensures drop <= length
  {
    if length <= limit then 0 else length - limit
  }

  lemma {:induction false} EvictedItems<K>(s: Shard<K>, limit: nat)
    ensures forall k :: k in Evicted(s, limit).items ==> k in s.items && Evicted(s, limit).items[k] == s.items[k]
    decreases |s.order|
  {
    if |s.order| > limit {
      WithoutShrinks(s.order, s.order[0]);
      EvictedItems(Removed(s, s.order[0]), limit);
    }
  }

  lemma EvictedOnce<K>(s: Shard<K>, limit: nat)
    requires |s.order| > limit
    ensures Evicted(s, limit) == Evicted(Removed(s, s.order[0]), limit)
  {
  }

  lemma {:induction false} WithoutAbsent<K>(order: seq<K>, key: K)
    requires key !in order
    ensures Without(order, key) == order
    decreases |order|
  {
    if order != [] {
      WithoutAbsent(order[..|order| - 1], key);
    }
  }

  lemma {:induction false} WithoutIndex<K>(order: seq<K>, i: nat)
    requires Distinct(order) && i < |order|
    ensures Without(order, order[i]) == order[..i] + order[i + 1..]
    decreases |order|
  {
    var n := |order| - 1;
    if i < n {
      WithoutIndex(order[..n], i);
      assert order[i + 1..] == order[..n][i + 1..] + [order[n]];
    } else {
      WithoutAbsent(order[..n], order[i]);
    }
  }

  /** Eviction drops the least recently used keys and nothing else. */
  lemma {:induction false} EvictedOrder<K>(s: Shard<K>, limit: nat)
    requires Distinct(s.order)
    ensures Evicted(s, limit).order == s.order[Drop(|s.order|, limit)..]
    decreases |s.order|
  {
    if |s.order| > limit {
      WithoutFirst(s.order);
      EvictedOrder(Removed(s, s.order[0]), limit);
      EvictedOnce(s, limit);
      assert s.order[1..][Drop(|s.order| - 1, limit)..] == s.order[Drop(|s.order|, limit)..];
    }
  }

  lemma {:induction false} EvictedHolds<K>(s: Shard<K>, limit: nat, uses: map<K, nat>, ticks: nat)
    requires ShardHolds(s, uses, ticks)
    ensures ShardHolds(Evicted(s, limit), uses, ticks)
    decreases |s.order|
  {
    if |s.order| > limit {
      RemovedHolds(s, s.order[0], uses, ticks);
      WithoutShrinks(s.order, s.order[0]);
      EvictedHolds(Removed(s, s.order[0]), limit, uses, ticks);
      EvictedOnce(s, limit);
    }
  }

  /** Every key that goes was used before every key that stays. */
  lemma EvictsLeastRecentlyUsed<K>(s: Shard<K>, limit: nat, uses: map<K, nat>, ticks: nat, gone: K, kept: K)
    requires ShardHolds(s, uses, ticks)
    requires gone in s.items && gone !in Evicted(s, limit).items && kept in Evicted(s, limit).items
    ensures gone in uses && kept in uses && uses[gone] < uses[kept]
  {
    SortedIsDistinct(s.order, uses);
    EvictedOrder(s, limit);
    EvictedHolds(s, limit, uses, ticks);
    var d := Drop(|s.order|, limit);
    EarlierIsOlder(s.order, uses, d, gone, kept);
  }

  lemma EarlierIsOlder<K>(order: seq<K>, uses: map<K, nat>, d: nat, gone: K, kept: K)
    requires Sorted(order, uses) && d <= |order| && gone in order && gone !in order[d..] && kept in order[d..]
    ensures gone in uses && kept in uses && uses[gone] < uses[kept]
  {
    assert order == order[..d] + order[d..];
    var i :| 0 <= i < d && order[i] == gone;
    var j :| d <= j < |order| && order[j] == kept;
  }

  /** The number of entries and the length of the list agree. */
  lemma {:induction false} SizeIsLength<K>(items: map<K, Entry>, order: seq<K>)
    requires Distinct(order) && (forall k :: k in order ==> k in items) && (forall k :: k in items ==> k in order)
    ensures |items| == |order|
    decreases |order|
  {
    if order == [] {
      assert items == map[];
    } else {
      var n := |order| - 1;
      var k := order[n];
      assert order == order[..n] + [k];
      SizeIsLength(items - {k}, order[..n]);
      assert (items - {k}).Keys == items.Keys - {k};
      assert |items| == |items.Keys| && |items - {k}| == |(items - {k}).Keys|;
    }
  }

  /** What is inserted at the back survives its own eviction. */
  lemma JustPlacedStays<K>(s: Shard<K>, key: K, e: Entry, limit: nat, uses: map<K, nat>, ticks: nat)
    requires ShardHolds(s, uses, ticks) && limit >= 1
    ensures var s' := Evicted(Placed(s, key, e), limit);
            && key in s'.items && s'.items[key] == e && |s'.items| <= (if |s.items| < limit then limit else |s.items|)
            && |s'.order| <= limit && |s'.items| == |s'.order|
  {
    var placed := Placed(s, key, e);
    PlacedHolds(s, key, e, uses, ticks);
    SortedIsDistinct(placed.order, uses[key := ticks]);
    EvictedOrder(placed, limit);
    EvictedHolds(placed, limit, uses[key := ticks], ticks + 1);
    EvictedItems(placed, limit);
    var s' := Evicted(placed, limit);
    assert s'.order[|s'.order| - 1] == key;
    SortedIsDistinct(s'.order, uses[key := ticks]);
    SizeIsLength(s'.items, s'.order);
  }

  /** No more goes than must: an eviction leaves as many entries as the limit allows. */
  lemma EvictsNoMoreThanNeeded<K>(s: Shard<K>, limit: nat, uses: map<K, nat>, ticks: nat)
    requires ShardHolds(s, uses, ticks)
    ensures |Evicted(s, limit).items| == if |s.items| <= limit then |s.items| else limit
  {
    SortedIsDistinct(s.order, uses);
    SizeIsLength(s.items, s.order);
    EvictedHolds(s, limit, uses, ticks);
    EvictedOrder(s, limit);
    SortedIsDistinct(Evicted(s, limit).order, uses);
    SizeIsLength(Evicted(s, limit).items, Evicted(s, limit).order);
  }

  // ------------------------------------------------------------------
  // Operations on a shard
  // ------------------------------------------------------------------

  /** isExpired: a pending entry never expires. */
  predicate IsExpired(t: Tuning, e: Entry, now: int) {
    e.status.Ready? && (e.lastUsedAt.None? || now - e.lastUsedAt.value >= t.cacheTTL)
  }

  function Touched(e: Entry, now: int): Entry {
    e.(lastUsedAt := Some(now))
  }

  predicate DispatchDue(t: Tuning, e: Entry, now: int) {
    e.lastDispatchAt.None? || now - e.lastDispatchAt.value >= t.pendingTimeout
  }

  function NewPending(domain: Bytes, qtype: Word16, qclass: Word16, now: int): Entry {
    Entry(domain, qtype, qclass, Pending, Some(now), Some(now), Some(now), [])
  }

  function NewReady(domain: Bytes, qtype: Word16, qclass: Word16, raw: Bytes, now: int): Entry
    requires |raw| >= 2
  {
    Entry(domain, qtype, qclass, Ready, Some(now), Some(now), None, Normalized(raw))
  }

  /** LookupOrCreatePending on a live entry. */
  function Answered(t: Tuning, e: Entry, now: int): (Entry, Lookup) {
    var touched := Touched(e, now);
    if e.status.Ready? then (touched, Lookup(Some(Ready), e.response, false))
    else if DispatchDue(t, e, now) then (touched.(lastDispatchAt := Some(now)), Lookup(Some(Pending), [], true))
    else (touched, Lookup(Some(Pending), [], false))
  }

  function LookedUp<K(==)>(t: Tuning, s: Shard<K>, key: K, blank: Entry, now: int): (Shard<K>, Lookup) {
    if key in s.items && !IsExpired(t, s.items[key], now) then
      var (e, answer) := Answered(t, s.items[key], now);
      (Placed(s, key, e), answer)
    else
      var rest := if key in s.items then Removed(s, key) else s;
      (Evicted(Placed(rest, key, blank), t.Limit()), Lookup(Some(Pending), [], true))
  }

  /** GetReady. */
  function Got<K(==)>(t: Tuning, s: Shard<K>, key: K, query: Bytes, now: int): (Shard<K>, Option<Bytes>) {
    if key !in s.items then (s, None)
    else
      var e := s.items[key];
      if IsExpired(t, e, now) then (Removed(s, key), None)
      else (Placed(s, key, Touched(e, now)), if e.status.Ready? && e.response != [] then Some(Patched(e.response, query)) else None)
  }

  function Overwritten(e: Entry, domain: Bytes, qtype: Word16, qclass: Word16, raw: Bytes, now: int): Entry
    requires |raw| >= 2
  {
    Entry(domain, qtype, qclass, Ready, if e.createdAt.None? then Some(now) else e.createdAt, Some(now), e.lastDispatchAt, Normalized(raw))
  }

  /** SetReady. */
  function SetTo<K(==)>(t: Tuning, s: Shard<K>, key: K, domain: Bytes, qtype: Word16, qclass: Word16, raw: Bytes, now: int): Shard<K>
    requires |raw| >= 2
  {
    if key in s.items then Placed(s, key, Overwritten(s.items[key], domain, qtype, qclass, raw, now))
    else Evicted(Placed(s, key, NewReady(domain, qtype, qclass, raw, now)), t.Limit())
  }

  // ------------------------------------------------------------------
  // The whole store
  // ------------------------------------------------------------------

  /** Every ready entry holds the bytes last set for its key. */
  ghost predicate Faithful<K>(s: Shard<K>, written: map<K, Bytes>) {
    forall k :: k in s.items && s.items[k].status.Ready? ==>
      k in written && |written[k]| >= 2 && s.items[k].response == Normalized(written[k])
  }

  /** Only what was last set for `key` may differ. */
  ghost predicate Notes<K>(written: map<K, Bytes>, key: K, written': map<K, Bytes>) {
    written' == written || (key in written' && written' == written[key := written'[key]])
  }

  /** A ready entry holds what was last set for its key. */
  ghost predicate Holding<K>(e: Entry, key: K, written: map<K, Bytes>) {
    e.status.Ready? ==> key in written && |written[key]| >= 2 && e.response == Normalized(written[key])
  }

  ghost predicate InPlace<K>(s: Shard<K>, i: nat, shardOf: K -> nat) {
    forall k :: k in s.items ==> shardOf(k) % SHARDS == i
  }

  ghost predicate ShardFits<K>(t: Tuning, s: Shard<K>, i: nat, uses: map<K, nat>, ticks: nat, written: map<K, Bytes>, shardOf: K -> nat) {
    ShardHolds(s, uses, ticks) && |s.order| <= t.Limit() && Faithful(s, written) && InPlace(s, i, shardOf)
  }

  ghost predicate StoreHolds<K>(t: Tuning, shards: seq<Shard<K>>, uses: map<K, nat>, ticks: nat, written: map<K, Bytes>, shardOf: K -> nat) {
    |shards| == SHARDS && forall i :: 0 <= i < SHARDS ==> ShardFits(t, shards[i], i, uses, ticks, written, shardOf)
  }

  /** A change of one key, in the shard it belongs to. */
  lemma StoreAfter<K>(t: Tuning, shards: seq<Shard<K>>, uses: map<K, nat>, ticks: nat, written: map<K, Bytes>, shardOf: K -> nat,
                      key: K, s: Shard<K>, written': map<K, Bytes>)
    requires StoreHolds(t, shards, uses, ticks, written, shardOf)
    requires Notes(written, key, written')
    requires ShardFits(t, s, shardOf(key) % SHARDS, uses[key := ticks], ticks + 1, written', shardOf)
    ensures StoreHolds(t, shards[shardOf(key) % SHARDS := s], uses[key := ticks], ticks + 1, written', shardOf)
  {
    forall i | 0 <= i < SHARDS && i != shardOf(key) % SHARDS
      ensures ShardFits(t, shards[i], i, uses[key := ticks], ticks + 1, written', shardOf)
    {
      assert ShardFits(t, shards[i], i, uses, ticks, written, shardOf);
      assert key !in shards[i].items;
      HoldsElsewhere(shards[i], key, uses, ticks);
    }
  }

  lemma PlacedContents<K>(s: Shard<K>, i: nat, written: map<K, Bytes>, shardOf: K -> nat, key: K, e: Entry, written': map<K, Bytes>)
    requires Faithful(s, written) && InPlace(s, i, shardOf) && shardOf(key) % SHARDS == i
    requires Notes(written, key, written')
    requires Holding(e, key, written')
    ensures Faithful(Placed(s, key, e), written') && InPlace(Placed(s, key, e), i, shardOf)
  {
  }

  lemma EvictedContents<K>(s: Shard<K>, limit: nat, i: nat, written: map<K, Bytes>, shardOf: K -> nat)
    requires Faithful(s, written) && InPlace(s, i, shardOf)
    ensures Faithful(Evicted(s, limit), written) && InPlace(Evicted(s, limit), i, shardOf)
  {
    EvictedItems(s, limit);
  }

  /** Placing an entry, with room made if it is new. */
  lemma PlacedFits<K>(t: Tuning, s: Shard<K>, i: nat, uses: map<K, nat>, ticks: nat, written: map<K, Bytes>, shardOf: K -> nat,
                      key: K, e: Entry, written': map<K, Bytes>)
    requires ShardFits(t, s, i, uses, ticks, written, shardOf) && shardOf(key) % SHARDS == i
    requires Notes(written, key, written')
    requires Holding(e, key, written')
    ensures ShardFits(t, Evicted(Placed(s, key, e), t.Limit()), i, uses[key := ticks], ticks + 1, written', shardOf)
  {
    var placed := Placed(s, key, e);
    PlacedHolds(s, key, e, uses, ticks);
    EvictedHolds(placed, t.Limit(), uses[key := ticks], ticks + 1);
    PlacedContents(s, i, written, shardOf, key, e, written');
    EvictedContents(placed, t.Limit(), i, written', shardOf);
    JustPlacedStays(s, key, e, t.Limit(), uses, ticks);
  }

  /** A key that was there before makes no room necessary. */
  lemma ReplacedStays<K>(s: Shard<K>, key: K, e: Entry, limit: nat)
    requires key in s.order && |s.order| <= limit
    ensures Evicted(Placed(s, key, e), limit) == Placed(s, key, e)
  {
    WithoutShrinks(s.order, key);
  }

  lemma PendingReplaced<K>(shards: seq<Shard<K>>, i: nat, key: K, e: Entry, placed: Shard<K>)
    requires i < |shards| && key in shards[i].items && placed == Placed(shards[i], key, e)
    ensures PendingIn(shards[i := placed])
         == PendingIn(shards) - One(shards[i].items[key].status.Pending?) + One(e.status.Pending?)
    ensures PendingIn(shards) >= One(shards[i].items[key].status.Pending?)
  {
    var s := shards[i];
    PendingAfterPlacing(s, key, e);
    PendingUpdate(shards, i, Placed(s, key, e));
    if s.items[key].status.Pending? {
      assert key in PendingKeys(s);
    }
  }

  /** Replacing an entry keeps the store's invariant. */
  lemma StoreAfterReplace<K>(t: Tuning, shards: seq<Shard<K>>, uses: map<K, nat>, ticks: nat, written: map<K, Bytes>, shardOf: K -> nat,
                             i: nat, key: K, e: Entry, placed: Shard<K>, written': map<K, Bytes>)
    requires StoreHolds(t, shards, uses, ticks, written, shardOf) && i == shardOf(key) % SHARDS && key in shards[i].items
    requires Notes(written, key, written') && Holding(e, key, written') && placed == Placed(shards[i], key, e)
    ensures StoreHolds(t, shards[i := placed], uses[key := ticks], ticks + 1, written', shardOf)
  {
    var s := shards[i];
    assert ShardFits(t, s, i, uses, ticks, written, shardOf);
    PlacedFits(t, s, i, uses, ticks, written, shardOf, key, e, written');
    ReplacedStays(s, key, e, t.Limit());
    StoreAfter(t, shards, uses, ticks, written, shardOf, key, placed, written');
  }

  lemma PendingCreated<K>(shards: seq<Shard<K>>, i: nat, s: Shard<K>, key: K, e: Entry, placed: Shard<K>)
    requires i < |shards| && key !in s.items && placed == Placed(s, key, e)
    ensures |PendingKeys(placed)| == |PendingKeys(s)| + One(e.status.Pending?)
    ensures PendingIn(shards) >= |PendingKeys(shards[i])|
  {
    PendingAfterPlacing(s, key, e);
    PendingUpdate(shards, i, placed);
  }

  /** Inserting an entry keeps the store's invariant. */
  lemma StoreAfterCreate<K>(t: Tuning, shards: seq<Shard<K>>, uses: map<K, nat>, ticks: nat, written: map<K, Bytes>, shardOf: K -> nat,
                            i: nat, s: Shard<K>, key: K, e: Entry, evicted: Shard<K>, written': map<K, Bytes>)
    requires StoreHolds(t, shards, uses, ticks, written, shardOf) && i == shardOf(key) % SHARDS
    requires ShardFits(t, s, i, uses, ticks, written, shardOf)
    requires Notes(written, key, written') && Holding(e, key, written') && evicted == Evicted(Placed(s, key, e), t.Limit())
    ensures StoreHolds(t, shards[i := evicted], uses[key := ticks], ticks + 1, written', shardOf)
  {
    PlacedFits(t, s, i, uses, ticks, written, shardOf, key, e, written');
    StoreAfter(t, shards, uses, ticks, written, shardOf, key, evicted, written');
  }

  lemma RemovedFits<K>(t: Tuning, s: Shard<K>, i: nat, uses: map<K, nat>, ticks: nat, written: map<K, Bytes>, shardOf: K -> nat, key: K)
    requires ShardFits(t, s, i, uses, ticks, written, shardOf)
    ensures ShardFits(t, Removed(s, key), i, uses, ticks, written, shardOf)
  {
    RemovedHolds(s, key, uses, ticks);
    WithoutShrinks(s.order, key);
  }

  /** Forgetting keys changes nothing for the others. */
  lemma StoreAfterRemoval<K>(t: Tuning, shards: seq<Shard<K>>, uses: map<K, nat>, ticks: nat, written: map<K, Bytes>, shardOf: K -> nat,
                             i: nat, s: Shard<K>)
    requires StoreHolds(t, shards, uses, ticks, written, shardOf) && i < SHARDS
    requires ShardFits(t, s, i, uses, ticks, written, shardOf)
    ensures StoreHolds(t, shards[i := s], uses, ticks, written, shardOf)
  {
  }

  /** The times an entry carries: its key's last use, and when a dispatch of a pending one was last asked for. */
  ghost predicate Stamp<K>(e: Entry, key: K, lastUse: map<K, int>, asked: map<K, int>) {
    && key in lastUse && e.lastUsedAt == Some(lastUse[key])
    && (e.status.Pending? ==> key in asked && e.lastDispatchAt == Some(asked[key]))
  }

  ghost predicate ShardStamped<K>(s: Shard<K>, lastUse: map<K, int>, asked: map<K, int>) {
    forall k :: k in s.items ==> Stamp(s.items[k], k, lastUse, asked)
  }

  ghost predicate Stamped<K>(shards: seq<Shard<K>>, lastUse: map<K, int>, asked: map<K, int>) {
    forall i :: 0 <= i < |shards| ==> ShardStamped(shards[i], lastUse, asked)
  }

  /** Entries of `s'` are those of `s`, except that `key` now has `e`, if it is there. */
  ghost predicate Derived<K>(s: Shard<K>, s': Shard<K>, key: K, e: Entry) {
    forall k :: k in s'.items ==> if k == key then s'.items[k] == e else k in s.items && s'.items[k] == s.items[k]
  }

  lemma PlacedDerived<K>(s: Shard<K>, key: K, e: Entry, limit: nat)
    ensures Derived(s, Placed(s, key, e), key, e) && Derived(s, Evicted(Placed(s, key, e), limit), key, e)
    ensures Derived(s, Evicted(Placed(Removed(s, key), key, e), limit), key, e)
  {
    EvictedItems(Placed(s, key, e), limit);
    EvictedItems(Placed(Removed(s, key), key, e), limit);
  }

  /** No entry but the key's is new or different. */
  ghost predicate OthersKept<K>(before: seq<Shard<K>>, after: seq<Shard<K>>, key: K) {
    && |after| == |before|
    && forall i, k :: 0 <= i < |after| && k in after[i].items && k != key ==>
         k in before[i].items && after[i].items[k] == before[i].items[k]
  }

  /** The stamps after a use of `key`. */
  lemma StampedAfter<K>(shards: seq<Shard<K>>, i: nat, s': Shard<K>, shardOf: K -> nat, key: K, e: Entry,
                        lastUse: map<K, int>, asked: map<K, int>, now: int, asked': map<K, int>)
    requires Stamped(shards, lastUse, asked) && i < |shards| && Derived(shards[i], s', key, e)
    requires forall j :: 0 <= j < |shards| ==> InPlace(shards[j], j, shardOf)
    requires i == shardOf(key) % SHARDS && (asked' == asked || asked' == asked[key := now])
    requires key in s'.items ==> Stamp(e, key, lastUse[key := now], asked')
    ensures Stamped(shards[i := s'], lastUse[key := now], asked') && OthersKept(shards, shards[i := s'], key)
  {
    forall j | 0 <= j < |shards| && j != i
      ensures ShardStamped(shards[j], lastUse[key := now], asked')
    {
      assert InPlace(shards[j], j, shardOf) && ShardStamped(shards[j], lastUse, asked);
    }
    assert ShardStamped(shards[i], lastUse, asked);
  }

  /** Everything but the status and the times of use and dispatch is as it was. */
  predicate SameRecord(e: Entry, e': Entry) {
    e'.domain == e.domain && e'.qtype == e.qtype && e'.qclass == e.qclass && e'.createdAt == e.createdAt && e'.response == e.response
  }

  /** What a lookup means, in terms of what the shard held and of the times of use. */
  lemma LookedUpMeans<K>(t: Tuning, s: Shard<K>, i: nat, key: K, blank: Entry, now: int, uses: map<K, nat>, ticks: nat,
                         written: map<K, Bytes>, shardOf: K -> nat, lastUse: map<K, int>, asked: map<K, int>,
                         s': Shard<K>, answer: Lookup) returns (e: Entry)
    requires ShardFits(t, s, i, uses, ticks, written, shardOf) && ShardStamped(s, lastUse, asked)
    requires (s', answer) == LookedUp(t, s, key, blank, now) && blank == NewPending(blank.domain, blank.qtype, blank.qclass, now)
    ensures Derived(s, s', key, e) && key in s'.items && s'.items[key] == e
    ensures Stamp(e, key, lastUse[key := now], if answer.dispatchNeeded then asked[key := now] else asked)
    ensures if key in s.items && s.items[key].status.Ready? && now - lastUse[key] < t.cacheTTL
            then key in written && |written[key]| >= 2 && answer == Lookup(Some(Ready), Normalized(written[key]), false) && e.status.Ready?
            else answer.status == Some(Pending) && answer.response == [] && e.status.Pending?
                 && (answer.dispatchNeeded <==>
                     key !in s.items || s.items[key].status.Ready? || now - asked[key] >= t.pendingTimeout)
  {
    if key in s.items && !IsExpired(t, s.items[key], now) {
      e := Answered(t, s.items[key], now).0;
      PlacedDerived(s, key, e, t.Limit());
    } else {
      e := blank;
      LookedUpAnew(t, s, i, key, blank, uses, ticks, written, shardOf);
    }
  }

  /** A lookup keeps the record of an entry that is alive and makes a new one otherwise. */
  lemma LookupKeepsRecord<K>(t: Tuning, s: Shard<K>, i: nat, key: K, blank: Entry, now: int, uses: map<K, nat>, ticks: nat,
                             written: map<K, Bytes>, shardOf: K -> nat, lastUse: map<K, int>, asked: map<K, int>)
    requires ShardFits(t, s, i, uses, ticks, written, shardOf) && ShardStamped(s, lastUse, asked)
    ensures var s' := LookedUp(t, s, key, blank, now).0;
            && key in s'.items
            && SameRecord(if key in s.items && (s.items[key].status.Pending? || now - lastUse[key] < t.cacheTTL) then s.items[key] else blank,
                          s'.items[key])
  {
    LookedUpAnew(t, s, i, key, blank, uses, ticks, written, shardOf);
  }

  lemma LookedUpAnew<K>(t: Tuning, s: Shard<K>, i: nat, key: K, blank: Entry, uses: map<K, nat>, ticks: nat,
                        written: map<K, Bytes>, shardOf: K -> nat)
    requires ShardFits(t, s, i, uses, ticks, written, shardOf)
    ensures var s' := Evicted(Placed(if key in s.items then Removed(s, key) else s, key, blank), t.Limit());
            Derived(s, s', key, blank) && key in s'.items && s'.items[key] == blank
  {
    var rest := if key in s.items then Removed(s, key) else s;
    RemovedHolds(s, key, uses, ticks);
    JustPlacedStays(rest, key, blank, t.Limit(), uses, ticks);
    PlacedDerived(s, key, blank, t.Limit());
  }

  /** What GetReady means. */
  lemma GotMeans<K>(t: Tuning, s: Shard<K>, i: nat, key: K, query: Bytes, now: int, uses: map<K, nat>, ticks: nat,
                    written: map<K, Bytes>, shardOf: K -> nat, lastUse: map<K, int>, asked: map<K, int>,
                    s': Shard<K>, response: Option<Bytes>) returns (e: Entry)
    requires ShardFits(t, s, i, uses, ticks, written, shardOf) && ShardStamped(s, lastUse, asked)
    requires (s', response) == Got(t, s, key, query, now)
    ensures Derived(s, s', key, e) && (key in s'.items ==> Stamp(e, key, lastUse[key := now], asked))
    ensures response.Some? <==> key in s.items && s.items[key].status.Ready? && now - lastUse[key] < t.cacheTTL
    ensures response.Some? ==> key in written && |written[key]| >= 2 && response.value == Patched(Normalized(written[key]), query)
    ensures key in s'.items && s'.items[key].status.Ready? <==> response.Some?
    ensures key in s'.items ==> key in s.items && SameRecord(s.items[key], s'.items[key])
  {
    e := if key in s.items then Touched(s.items[key], now) else NewPending([], 0, 0, now);
    PlacedDerived(s, key, e, t.Limit());
  }

  /** What SetReady means. */
  lemma SetMeans<K>(t: Tuning, s: Shard<K>, i: nat, key: K, domain: Bytes, qtype: Word16, qclass: Word16, raw: Bytes, now: int,
                    uses: map<K, nat>, ticks: nat, written: map<K, Bytes>, shardOf: K -> nat,
                    lastUse: map<K, int>, asked: map<K, int>, s': Shard<K>) returns (e: Entry)
    requires ShardFits(t, s, i, uses, ticks, written, shardOf) && ShardStamped(s, lastUse, asked) && |raw| >= 2
    requires s' == SetTo(t, s, key, domain, qtype, qclass, raw, now)
    ensures Derived(s, s', key, e) && Stamp(e, key, lastUse[key := now], asked)
    ensures key in s'.items && s'.items[key] == e && e.status.Ready?
    ensures e.domain == domain && e.qtype == qtype && e.qclass == qclass
    ensures e.createdAt == if key in s.items && s.items[key].createdAt.Some? then s.items[key].createdAt else Some(now)
  {
    e := if key in s.items then Overwritten(s.items[key], domain, qtype, qclass, raw, now)
         else NewReady(domain, qtype, qclass, raw, now);
    JustPlacedStays(s, key, e, t.Limit(), uses, ticks);
    PlacedDerived(s, key, e, t.Limit());
  }

  lemma StampedAfterClear<K>(shards: seq<Shard<K>>, shards': seq<Shard<K>>, lastUse: map<K, int>, asked: map<K, int>)
    requires Stamped(shards, lastUse, asked) && |shards'| == |shards|
    requires forall i :: 0 <= i < |shards| ==> shards'[i].items == ReadyEntries(shards[i].items)
    ensures Stamped(shards', lastUse, asked)
  {
    forall i | 0 <= i < |shards'|
      ensures ShardStamped(shards'[i], lastUse, asked)
    {
      assert ShardStamped(shards[i], lastUse, asked);
    }
  }

  class Store<!K(==)> {
    const tuning: Tuning
    const noKey: K
    const shardOf: K -> nat
    var shards: seq<Shard<K>>
    var pendingTotal: nat
    ghost var uses: map<K, nat>
    ghost var ticks: nat
    ghost var written: map<K, Bytes>
    /** When a call last named the key, and when a lookup last asked for its dispatch. */
    ghost var lastUse: map<K, int>
    ghost var asked: map<K, int>

    /** Lists in order of use, sizes within the limit, ready entries as they were set, pending entries counted. */
    ghost predicate Consistent()
      reads this
    {
      StoreHolds(tuning, shards, uses, ticks, written, shardOf) && pendingTotal == PendingIn(shards)
    }

    ghost predicate Valid()
      reads this
    {
      Consistent() && Stamped(shards, lastUse, asked)
    }

    ghost function EntryOf(key: K): Option<Entry>
      requires |shards| == SHARDS
      reads this`shards
    {
      var items := shards[IndexOf(key)].items;
      if key in items then Some(items[key]) else None
    }

    /** An entry is held for the key, and a response was set for it. */
    ghost predicate HoldsReady(key: K)
      requires |shards| == SHARDS
      reads this`shards
    {
      EntryOf(key).Some? && EntryOf(key).value.status.Ready?
    }

    /** The time since the key was last used. */
    ghost function Idle(key: K, now: int): int
      reads this`lastUse
    {
      if key in lastUse then now - lastUse[key] else 0
    }

    /** The time since a dispatch was last asked for. */
    ghost function Waiting(key: K, now: int): int
      reads this`asked
    {
      if key in asked then now - asked[key] else 0
    }

    /** New, with the defaults for settings out of range. */
    constructor (maxRecords: int, cacheTTL: int, pendingTimeout: int, noKey: K, shardOf: K -> nat)
      ensures Valid() && written == map[] && lastUse == map[] && asked == map[] && this.noKey == noKey && this.shardOf == shardOf
      ensures shards == seq(SHARDS, _ => Shard(map[], []))
      ensures tuning == Tuning(if maxRecords < 1 then 1 else maxRecords,
                               if cacheTTL <= 0 then 3_600_000_000_000 else cacheTTL,
                               if pendingTimeout <= 0 then 30_000_000_000 else pendingTimeout)
    {
      tuning := Tuning(if maxRecords < 1 then 1 else maxRecords,
                       if cacheTTL <= 0 then 3_600_000_000_000 else cacheTTL,
                       if pendingTimeout <= 0 then 30_000_000_000 else pendingTimeout);
      this.noKey, this.shardOf := noKey, shardOf;
      shards := seq(SHARDS, _ => Shard(map[], []));
      pendingTotal, uses, ticks, written, lastUse, asked := 0, map[], 0, map[], map[], map[];
      new;
      NothingPending(shards);
    }

    function IndexOf(key: K): (i: nat)
      ensures i < SHARDS
    {
      shardOf(key) % SHARDS
    }

    /** removeElementLocked: the count goes down with a pending entry. */
    method RemoveElement(s: Shard<K>, key: K) returns (s': Shard<K>)
      requires key in s.items && pendingTotal >= |PendingKeys(s)|
      modifies this`pendingTotal
      ensures s' == Removed(s, key) && pendingTotal - |PendingKeys(s')| == old(pendingTotal) - |PendingKeys(s)|
    {
      PendingAfterRemoval(s, key);
      if s.items[key].status.Pending? {
        if pendingTotal > 0 {
          assert key in PendingKeys(s);
          pendingTotal := pendingTotal - 1;
        }
      }
      s' := Removed(s, key);
    }

    /** evictIfNeededLocked. */
    method EvictIfNeeded(s: Shard<K>, ghost u: map<K, nat>, ghost n: nat) returns (s': Shard<K>)
      requires ShardHolds(s, u, n) && pendingTotal >= |PendingKeys(s)|
      modifies this`pendingTotal
      ensures s' == Evicted(s, tuning.Limit()) && pendingTotal - |PendingKeys(s')| == old(pendingTotal) - |PendingKeys(s)|
      ensures pendingTotal >= |PendingKeys(s')|
    {
      var limit := tuning.Limit();
      s' := s;
      SizeOfShard(s', u, n);
      while |s'.items| > limit
        invariant ShardHolds(s', u, n) && |s'.items| == |s'.order| && Evicted(s', limit) == Evicted(s, limit)
        invariant pendingTotal >= |PendingKeys(s')|
        invariant pendingTotal - |PendingKeys(s')| == old(pendingTotal) - |PendingKeys(s)|
        decreases |s'.order|
      {
        var front := s'.order[0];
        RemovedHolds(s', front, u, n);
        WithoutShrinks(s'.order, front);
        EvictedOnce(s', limit);
        s' := RemoveElement(s', front);
        SizeOfShard(s', u, n);
      }
    }

    /** Put a shard that changed in one key in its place, with the bookkeeping. */
    method Install(i: nat, s: Shard<K>, key: K, ghost written': map<K, Bytes>)
      requires i < |shards| && pendingTotal == PendingIn(shards[i := s])
      requires StoreHolds(tuning, shards[i := s], uses[key := ticks], ticks + 1, written', shardOf)
      modifies this`shards, this`uses, this`ticks, this`written
      ensures Consistent() && written == written' && shards == old(shards)[i := s]
    {
      shards := shards[i := s];
      uses, ticks, written := uses[key := ticks], ticks + 1, written';
    }

    /** The count follows an entry that changes its status. */
    method Recount(before: Status, after: Status)
      requires before.Pending? ==> pendingTotal > 0
      modifies this`pendingTotal
      ensures pendingTotal == old(pendingTotal) - One(before.Pending?) + One(after.Pending?)
    {
      if before.Pending? && after.Ready? {
        if pendingTotal > 0 {
          pendingTotal := pendingTotal - 1;
        }
      } else if before.Ready? && after.Pending? {
        pendingTotal := pendingTotal + 1;
      }
    }

    method LookupOrCreatePending(key: K, domain: Bytes, qtype: Word16, qclass: Word16, now: int) returns (answer: Lookup)
      requires Valid()
      modifies this
      ensures Valid() && written == old(written)
      ensures if key == noKey then answer == Lookup(None, [], false) && shards == old(shards)
              else var i := IndexOf(key);
                   (shards, answer) == (old(shards)[i := LookedUp(tuning, old(shards)[i], key, NewPending(domain, qtype, qclass, now), now).0],
                                        LookedUp(tuning, old(shards)[i], key, NewPending(domain, qtype, qclass, now), now).1)
      ensures key != noKey ==>
                if old(HoldsReady(key)) && old(Idle(key, now)) < tuning.cacheTTL
                then key in written && |written[key]| >= 2 && answer == Lookup(Some(Ready), Normalized(written[key]), false)
                else answer.status == Some(Pending) && answer.response == []
                     && (answer.dispatchNeeded <==> old(EntryOf(key).None? || HoldsReady(key) || Waiting(key, now) >= tuning.pendingTimeout))
      ensures key != noKey ==> EntryOf(key).Some? && (HoldsReady(key) <==> answer.status == Some(Ready)) && OthersKept(old(shards), shards, key)
      ensures lastUse == if key == noKey then old(lastUse) else old(lastUse)[key := now]
      ensures asked == if answer.dispatchNeeded then old(asked)[key := now] else old(asked)
    {
      if key == noKey {
        return Lookup(None, [], false);
      }
      var i := IndexOf(key);
      ghost var before, u, n := shards, uses, ticks;
      answer := LookUpIn(i, key, NewPending(domain, qtype, qclass, now), now);
      assert ShardFits(tuning, before[i], i, u, n, written, shardOf) && ShardStamped(before[i], lastUse, asked);
      ghost var e := LookedUpMeans(tuning, before[i], i, key, NewPending(domain, qtype, qclass, now), now, u, n,
                                   written, shardOf, lastUse, asked, shards[i], answer);
      NoteUse(before, u, n, written, i, key, e, now, answer.dispatchNeeded);
    }

    /** The part under the lock of the shard. */
    method LookUpIn(i: nat, key: K, blank: Entry, now: int) returns (answer: Lookup)
      requires Consistent() && i == IndexOf(key) && blank.status.Pending?
      modifies this`shards, this`pendingTotal, this`uses, this`ticks, this`written
      ensures Consistent() && written == old(written)
      ensures (shards, answer) == (old(shards)[i := LookedUp(tuning, old(shards)[i], key, blank, now).0],
                                   LookedUp(tuning, old(shards)[i], key, blank, now).1)
    {
      var s := shards[i];
      assert ShardFits(tuning, s, i, uses, ticks, written, shardOf);
      PendingUpdate(shards, i, s);
      if key in s.items && !IsExpired(tuning, s.items[key], now) {
        var (e, found) := Answered(tuning, s.items[key], now);
        Replace(i, key, e, written);
        return found;
      }
      if key in s.items {
        RemovedFits(tuning, s, i, uses, ticks, written, shardOf, key);
        s := RemoveElement(s, key);
      }
      Create(i, s, key, blank, written);
      return Lookup(Some(Pending), [], true);
    }

    /** The stamps follow the key's new entry. */
    ghost method NoteUse(before: seq<Shard<K>>, u: map<K, nat>, n: nat, w: map<K, Bytes>, i: nat, key: K, e: Entry, now: int, dispatch: bool)
      requires Consistent() && StoreHolds(tuning, before, u, n, w, shardOf) && Stamped(before, lastUse, asked) && i == IndexOf(key)
      requires shards == before[i := shards[i]] && Derived(before[i], shards[i], key, e)
      requires key in shards[i].items ==> Stamp(e, key, lastUse[key := now], if dispatch then asked[key := now] else asked)
      modifies this`lastUse, this`asked
      ensures Valid() && OthersKept(before, shards, key)
      ensures lastUse == old(lastUse)[key := now] && asked == if dispatch then old(asked)[key := now] else old(asked)
    {
      assert forall j :: 0 <= j < SHARDS ==> ShardFits(tuning, before[j], j, u, n, w, shardOf);
      StampedAfter(before, i, shards[i], shardOf, key, e, lastUse, asked, now, if dispatch then asked[key := now] else asked);
      lastUse := lastUse[key := now];
      if dispatch {
        asked := asked[key := now];
      }
    }

    /** Change an entry and move it to the back. */
    method Replace(i: nat, key: K, e: Entry, ghost written': map<K, Bytes>)
      requires Consistent() && i == IndexOf(key) && key in shards[i].items
      requires Notes(written, key, written')
      requires Holding(e, key, written')
      modifies this`shards, this`pendingTotal, this`uses, this`ticks, this`written
      ensures Consistent() && written == written' && shards == old(shards)[i := Placed(old(shards)[i], key, e)]
    {
      var placed := Placed(shards[i], key, e);
      PendingReplaced(shards, i, key, e, placed);
      Recount(shards[i].items[key].status, e.status);
      MoveToBack(i, key, e, placed, written');
    }

    method MoveToBack(i: nat, key: K, e: Entry, placed: Shard<K>, ghost written': map<K, Bytes>)
      requires StoreHolds(tuning, shards, uses, ticks, written, shardOf) && i == IndexOf(key) && key in shards[i].items
      requires Notes(written, key, written') && Holding(e, key, written') && placed == Placed(shards[i], key, e)
      requires pendingTotal == PendingIn(shards[i := placed])
      modifies this`shards, this`uses, this`ticks, this`written
      ensures Consistent() && written == written' && shards == old(shards)[i := placed]
    {
      StoreAfterReplace(tuning, shards, uses, ticks, written, shardOf, i, key, e, placed, written');
      Install(i, placed, key, written');
    }

    /** Insert an entry at the back of a shard from which its key was taken, and make room. */
    method Create(i: nat, s: Shard<K>, key: K, e: Entry, ghost written': map<K, Bytes>)
      requires i == IndexOf(key) && key !in s.items
      requires StoreHolds(tuning, shards, uses, ticks, written, shardOf) && ShardFits(tuning, s, i, uses, ticks, written, shardOf)
      requires pendingTotal == PendingIn(shards) - |PendingKeys(shards[i])| + |PendingKeys(s)|
      requires Notes(written, key, written')
      requires Holding(e, key, written')
      modifies this`shards, this`pendingTotal, this`uses, this`ticks, this`written
      ensures Consistent() && written == written' && shards == old(shards)[i := Evicted(Placed(s, key, e), tuning.Limit())]
    {
      var evicted := MakeRoom(i, s, key, e);
      StoreAfterCreate(tuning, shards, uses, ticks, written, shardOf, i, s, key, e, evicted, written');
      Install(i, evicted, key, written');
    }

    method MakeRoom(i: nat, s: Shard<K>, key: K, e: Entry) returns (evicted: Shard<K>)
      requires i < |shards| && key !in s.items && ShardHolds(s, uses, ticks)
      requires pendingTotal == PendingIn(shards) - |PendingKeys(shards[i])| + |PendingKeys(s)|
      modifies this`pendingTotal
      ensures evicted == Evicted(Placed(s, key, e), tuning.Limit()) && pendingTotal == PendingIn(shards[i := evicted])
    {
      ghost var others := PendingIn(shards) - |PendingKeys(shards[i])|;
      var placed := Placed(s, key, e);
      PendingCreated(shards, i, s, key, e, placed);
      PlacedHolds(s, key, e, uses, ticks);
      if e.status.Pending? {
        pendingTotal := pendingTotal + 1;
      }
      assert pendingTotal == others + |PendingKeys(placed)| && others >= 0;
      evicted := EvictIfNeeded(placed, uses[key := ticks], ticks + 1);
      PendingUpdate(shards, i, evicted);
    }

    method DropPending(ghost first: Shard<K>, s: Shard<K>, at: nat, ghost i: nat) returns (s': Shard<K>)
      requires ShardFits(tuning, s, i, uses, ticks, written, shardOf) && pendingTotal >= |PendingKeys(s)|
      requires at < |s.order| && s.order[at] in s.items && s.items[s.order[at]].status.Pending? && Sifted(first, s, at)
      modifies this`pendingTotal
      ensures ShardFits(tuning, s', i, uses, ticks, written, shardOf) && Sifted(first, s', at)
      ensures pendingTotal >= |PendingKeys(s')| && |s'.order| == |s.order| - 1
      ensures pendingTotal - |PendingKeys(s')| == old(pendingTotal) - |PendingKeys(s)|
    {
      SiftDrops(first, s, at, uses);
      RemovedFits(tuning, s, i, uses, ticks, written, shardOf, s.order[at]);
      s' := RemoveElement(s, s.order[at]);
    }

    /** One shard of ClearPending: walk the list, drop what is pending. */
    method ClearShard(s: Shard<K>, ghost i: nat) returns (s': Shard<K>)
      requires ShardFits(tuning, s, i, uses, ticks, written, shardOf) && pendingTotal >= |PendingKeys(s)|
      modifies this`pendingTotal
      ensures ShardFits(tuning, s', i, uses, ticks, written, shardOf)
      ensures s'.items == ReadyEntries(s.items)
      ensures pendingTotal - |PendingKeys(s')| == old(pendingTotal) - |PendingKeys(s)|
    {
      s' := s;
      var at: nat := 0;
      while at < |s'.order|
        invariant at <= |s'.order| && ShardFits(tuning, s', i, uses, ticks, written, shardOf)
        invariant pendingTotal >= |PendingKeys(s')|
        invariant pendingTotal - |PendingKeys(s')| == old(pendingTotal) - |PendingKeys(s)|
        invariant Sifted(s, s', at)
        decreases |s'.order| - at
      {
        if s'.items[s'.order[at]].status.Pending? {
          s' := DropPending(s, s', at, i);
        } else {
          at := at + 1;
        }
      }
      OnlyReadyLeft(s, s');
    }

    method ClearPending()
      requires Valid()
      modifies this`shards, this`pendingTotal
      ensures Valid() && pendingTotal == 0
      ensures forall i :: 0 <= i < SHARDS ==> shards[i].items == ReadyEntries(old(shards)[i].items)
    {
      ghost var before := shards;
      for i := 0 to SHARDS
        invariant Consistent()
        invariant forall j :: i <= j < SHARDS ==> shards[j] == before[j]
        invariant forall j :: 0 <= j < i ==> shards[j].items == ReadyEntries(before[j].items)
      {
        PendingUpdate(shards, i, shards[i]);
        var s := ClearShard(shards[i], i);
        PendingUpdate(shards, i, s);
        StoreAfterRemoval(tuning, shards, uses, ticks, written, shardOf, i, s);
        shards := shards[i := s];
      }
      AllReady(shards);
      StampedAfterClear(before, shards, lastUse, asked);
    }

    method GetReady(key: K, query: Bytes, now: int) returns (response: Option<Bytes>)
      requires Valid()
      modifies this
      ensures Valid() && written == old(written)
      ensures if key == noKey then response == None && shards == old(shards)
              else var i := IndexOf(key);
                   (shards, response) == (old(shards)[i := Got(tuning, old(shards)[i], key, query, now).0],
                                          Got(tuning, old(shards)[i], key, query, now).1)
      ensures key != noKey ==> (response.Some? <==> old(HoldsReady(key)) && old(Idle(key, now)) < tuning.cacheTTL)
      ensures response.Some? ==> key in written && |written[key]| >= 2 && response.value == Patched(Normalized(written[key]), query)
      ensures key != noKey ==> OthersKept(old(shards), shards, key)
      ensures key != noKey ==> (HoldsReady(key) <==> response.Some?)
      ensures lastUse == (if key == noKey then old(lastUse) else old(lastUse)[key := now]) && asked == old(asked)
    {
      if key == noKey {
        return None;
      }
      var i := IndexOf(key);
      ghost var before, u, n := shards, uses, ticks;
      response := GetIn(i, key, query, now);
      assert ShardFits(tuning, before[i], i, u, n, written, shardOf) && ShardStamped(before[i], lastUse, asked);
      ghost var e := GotMeans(tuning, before[i], i, key, query, now, u, n, written, shardOf, lastUse, asked, shards[i], response);
      NoteUse(before, u, n, written, i, key, e, now, false);
    }

    method GetIn(i: nat, key: K, query: Bytes, now: int) returns (response: Option<Bytes>)
      requires Consistent() && i == IndexOf(key)
      modifies this`shards, this`pendingTotal, this`uses, this`ticks, this`written
      ensures Consistent() && written == old(written)
      ensures (shards, response) == (old(shards)[i := Got(tuning, old(shards)[i], key, query, now).0],
                                     Got(tuning, old(shards)[i], key, query, now).1)
    {
      var s := shards[i];
      assert ShardFits(tuning, s, i, uses, ticks, written, shardOf);
      if key !in s.items {
        assert shards[i := s] == shards;
        return None;
      }
      var e := s.items[key];
      if IsExpired(tuning, e, now) {
        PendingUpdate(shards, i, Removed(s, key));
        RemovedFits(tuning, s, i, uses, ticks, written, shardOf, key);
        StoreAfterRemoval(tuning, shards, uses, ticks, written, shardOf, i, Removed(s, key));
        s := RemoveElement(s, key);
        shards := shards[i := s];
        return None;
      }
      Replace(i, key, Touched(e, now), written);
      if e.status != Ready || e.response == [] {
        return None;
      }
      return Some(Patched(e.response, query));
    }

    method SetReady(key: K, domain: Bytes, qtype: Word16, qclass: Word16, raw: Bytes, now: int)
      requires Valid()
      modifies this
      ensures Valid() && asked == old(asked)
      ensures if key == noKey || |raw| < 2 then shards == old(shards) && written == old(written) && lastUse == old(lastUse)
              else var i := IndexOf(key);
                   && shards == old(shards)[i := SetTo(tuning, old(shards)[i], key, domain, qtype, qclass, raw, now)]
                   && written == old(written)[key := raw] && lastUse == old(lastUse)[key := now]
                   && HoldsReady(key) && OthersKept(old(shards), shards, key)
                   && var e := EntryOf(key).value; e.domain == domain && e.qtype == qtype && e.qclass == qclass
    {
      if key == noKey || |raw| < 2 {
        return;
      }
      var i := IndexOf(key);
      ghost var before, u, n, w := shards, uses, ticks, written;
      SetIn(i, key, domain, qtype, qclass, raw, now);
      assert ShardFits(tuning, before[i], i, u, n, w, shardOf) && ShardStamped(before[i], lastUse, asked);
      ghost var e := SetMeans(tuning, before[i], i, key, domain, qtype, qclass, raw, now, u, n, w, shardOf, lastUse, asked, shards[i]);
      NoteUse(before, u, n, w, i, key, e, now, false);
    }

    method SetIn(i: nat, key: K, domain: Bytes, qtype: Word16, qclass: Word16, raw: Bytes, now: int)
      requires Consistent() && i == IndexOf(key) && |raw| >= 2
      modifies this`shards, this`pendingTotal, this`uses, this`ticks, this`written
      ensures Consistent() && written == old(written)[key := raw]
      ensures shards == old(shards)[i := SetTo(tuning, old(shards)[i], key, domain, qtype, qclass, raw, now)]
    {
      var s := shards[i];
      assert ShardFits(tuning, s, i, uses, ticks, written, shardOf);
      if key in s.items {
        Replace(i, key, Overwritten(s.items[key], domain, qtype, qclass, raw, now), written[key := raw]);
      } else {
        Create(i, s, key, NewReady(domain, qtype, qclass, raw, now), written[key := raw]);
      }
    }
  }

  /** ClearPending keeps exactly the ready entries. */
  function ReadyEntries<K(==)>(items: map<K, Entry>): map<K, Entry> {
    map k | k in items && items[k].status.Ready? :: items[k]
  }

  /** The walk has passed `at` keys, all ready, and dropped only pending ones. */
  ghost predicate Sifted<K>(s: Shard<K>, s': Shard<K>, at: nat) {
    && (forall k :: k in s'.items ==> k in s.items && s'.items[k] == s.items[k])
    && (forall k :: k in s.items && s.items[k].status.Ready? ==> k in s'.items)
    && at <= |s'.order|
    && (forall j :: 0 <= j < at ==> s'.order[j] in s'.items && s'.items[s'.order[j]].status.Ready?)
  }

  lemma SiftDrops<K>(s: Shard<K>, s': Shard<K>, at: nat, uses: map<K, nat>)
    requires Sifted(s, s', at) && Sorted(s'.order, uses) && at < |s'.order|
    requires s'.order[at] in s'.items && s'.items[s'.order[at]].status.Pending?
    ensures Sifted(s, Removed(s', s'.order[at]), at) && |Removed(s', s'.order[at]).order| == |s'.order| - 1
  {
    SortedIsDistinct(s'.order, uses);
    WithoutIndex(s'.order, at);
    var left := Without(s'.order, s'.order[at]);
    assert forall j :: 0 <= j < at ==> left[j] == s'.order[j];
  }

  lemma OnlyReadyLeft<K>(s: Shard<K>, s': Shard<K>)
    requires Sifted(s, s', |s'.order|) && forall k :: k in s'.items ==> k in s'.order
    ensures s'.items == ReadyEntries(s.items)
  {
    forall k | k in s'.items
      ensures s'.items[k].status.Ready?
    {
      var j :| 0 <= j < |s'.order| && s'.order[j] == k;
    }
  }

  lemma {:induction false} AllReady<K>(shards: seq<Shard<K>>)
    requires forall i :: 0 <= i < |shards| ==> forall k :: k in shards[i].items ==> shards[i].items[k].status.Ready?
    ensures PendingIn(shards) == 0
    decreases |shards|
  {
    if shards != [] {
      AllReady(shards[..|shards| - 1]);
      assert PendingKeys(shards[|shards| - 1]) == {};
    }
  }

  lemma {:induction false} NothingPending<K>(shards: seq<Shard<K>>)
    requires forall i :: 0 <= i < |shards| ==> shards[i].items == map[]
    ensures PendingIn(shards) == 0
    decreases |shards|
  {
    if shards != [] {
      var n := |shards| - 1;
      NothingPending(shards[..n]);
      assert PendingKeys(shards[n]) == {};
    }
  }

  lemma SizeOfShard<K>(s: Shard<K>, uses: map<K, nat>, ticks: nat)
    requires ShardHolds(s, uses, ticks)
    ensures |s.items| == |s.order|
  {
    SortedIsDistinct(s.order, uses);
    SizeIsLength(s.items, s.order);
  }
}
