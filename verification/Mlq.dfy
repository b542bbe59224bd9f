/**
 The multi-level transmit queue: six FIFO levels behind a bitmask and a census of queued keys.  Its
 specification is one list, ordered by level and by arrival within a level.
 */
module Mlq {
  import opened Enums
  import opened Sequences

  type Key = nat

  datatype Entry<T> = Entry(level: nat, item: T)

  const LEVELS := 6
  const DEFAULT_LEVEL := 3

  // ------------------------------------------------------------------
  // The simple list
  // ------------------------------------------------------------------

  /** A new entry goes behind everything of its level and of more urgent levels. */
  function Inserted<T>(list: seq<Entry<T>>, e: Entry<T>): seq<Entry<T>> {
    InsertAt(list, IndexOf(list, (x: Entry<T>) => x.level > e.level), e)
  }

  // ------------------------------------------------------------------
  // Levels as a list
  // ------------------------------------------------------------------

  function Tagged<T>(level: nat, items: seq<T>): seq<Entry<T>> {
    seq(|items|, i requires 0 <= i < |items| => Entry(level, items[i]))
  }

  /** The entries of the levels below `n`. */
  function Flat<T>(queues: seq<seq<T>>, n: nat): seq<Entry<T>>
    requires n <= |queues|
  {
    if n == 0 then [] else Flat(queues, n - 1) + Tagged(n - 1, queues[n - 1])
  }

  /** The entries of level `n` and above. */
  function Rest<T>(queues: seq<seq<T>>, n: nat): seq<Entry<T>>
    requires n <= |queues|
    decreases |queues| - n
  {
    if n == |queues| then [] else Tagged(n, queues[n]) + Rest(queues, n + 1)
  }

  lemma {:induction false} FlatSplits<T>(queues: seq<seq<T>>, n: nat)
    requires n <= |queues|
    ensures Flat(queues, |queues|) == Flat(queues, n) + Rest(queues, n)
    decreases |queues| - n
  {
    if n < |queues| {
      FlatSplits(queues, n + 1);
    }
  }

  lemma {:induction false} FlatBelow<T>(queues: seq<seq<T>>, n: nat)
    requires n <= |queues|
    ensures forall k :: 0 <= k < |Flat(queues, n)| ==> Flat(queues, n)[k].level < n
  {
    if n > 0 {
      FlatBelow(queues, n - 1);
    }
  }

  lemma {:induction false} RestAbove<T>(queues: seq<seq<T>>, n: nat)
    requires n <= |queues|
    ensures forall k :: 0 <= k < |Rest(queues, n)| ==> n <= Rest(queues, n)[k].level < |queues|
    decreases |queues| - n
  {
    if n < |queues| {
      RestAbove(queues, n + 1);
    }
  }

  /** The list is ordered by level, so its head is the oldest of the most urgent items. */
  lemma {:induction false} FlatOrdered<T>(queues: seq<seq<T>>, n: nat)
    requires n <= |queues|
    ensures forall i, j :: 0 <= i < j < |Flat(queues, n)| ==> Flat(queues, n)[i].level <= Flat(queues, n)[j].level
  {
    if n > 0 {
      FlatOrdered(queues, n - 1);
      FlatBelow(queues, n - 1);
    }
  }

  lemma {:induction false} FlatFrame<T>(queues: seq<seq<T>>, level: nat, items: seq<T>, n: nat)
    requires n <= level < |queues|
    ensures Flat(queues[level := items], n) == Flat(queues, n)
  {
    if n > 0 {
      FlatFrame(queues, level, items, n - 1);
    }
  }

  lemma {:induction false} RestFrame<T>(queues: seq<seq<T>>, level: nat, items: seq<T>, n: nat)
    requires level < n <= |queues|
    ensures Rest(queues[level := items], n) == Rest(queues, n)
    decreases |queues| - n
  {
    if n < |queues| {
      RestFrame(queues, level, items, n + 1);
    }
  }

  /** The list around one level, before and after that level is replaced. */
  lemma Around<T>(queues: seq<seq<T>>, level: nat, items: seq<T>)
    requires level < |queues|
    ensures var pre, post := Flat(queues, level), Rest(queues, level + 1);
            && Flat(queues, |queues|) == pre + Tagged(level, queues[level]) + post
            && Flat(queues[level := items], |queues|) == pre + Tagged(level, items) + post
            && (forall k :: 0 <= k < |pre| ==> pre[k].level < level)
            && (forall k :: 0 <= k < |post| ==> level < post[k].level)
  {
    FlatSplits(queues, level);
    FlatSplits(queues[level := items], level);
    FlatFrame(queues, level, items, level);
    RestFrame(queues, level, items, level + 1);
    FlatBelow(queues, level);
    RestAbove(queues, level + 1);
  }

  lemma InsertedBetween<T>(pre: seq<Entry<T>>, post: seq<Entry<T>>, e: Entry<T>)
    requires forall k :: 0 <= k < |pre| ==> pre[k].level <= e.level
    requires forall k :: 0 <= k < |post| ==> e.level < post[k].level
    ensures Inserted(pre + post, e) == pre + [e] + post
  {
    IndexOfSplit(pre, post, (x: Entry<T>) => x.level > e.level);
  }

  /** Appending to a level is insertion into the list. */
  lemma AppendInserts<T>(queues: seq<seq<T>>, level: nat, x: T)
    requires level < |queues|
    ensures Flat(queues[level := queues[level] + [x]], |queues|) == Inserted(Flat(queues, |queues|), Entry(level, x))
  {
    var e, post := Entry(level, x), Rest(queues, level + 1);
    Around(queues, level, queues[level] + [x]);
    TaggedAppend(level, queues[level], x);
    LevelBounds(queues, level);
    InsertedBetween(Flat(queues, level) + Tagged(level, queues[level]), post, e);
    AppendMiddle(Flat(queues, level), Tagged(level, queues[level]), e, post);
  }

  lemma TaggedAppend<T>(level: nat, items: seq<T>, x: T)
    ensures Tagged(level, items + [x]) == Tagged(level, items) + [Entry(level, x)]
  {
  }

  lemma AppendMiddle<T>(a: seq<T>, b: seq<T>, x: T, c: seq<T>)
    ensures a + (b + [x]) + c == (a + b) + [x] + c
  {
  }

  lemma LevelBounds<T>(queues: seq<seq<T>>, level: nat)
    requires level < |queues|
    ensures var pre := Flat(queues, level) + Tagged(level, queues[level]);
            forall k :: 0 <= k < |pre| ==> pre[k].level <= level
  {
    FlatBelow(queues, level);
  }

  /** Removing from a level is removal from the list. */
  lemma RemovalRemoves<T>(queues: seq<seq<T>>, level: nat, i: nat)
    requires level < |queues| && i < |queues[level]|
    ensures var list, at := Flat(queues, |queues|), |Flat(queues, level)| + i;
            && at < |list| && list[at] == Entry(level, queues[level][i])
            && Flat(queues[level := Without(queues[level], i)], |queues|) == Without(list, at)
  {
    Around(queues, level, Without(queues[level], i));
    TaggedWithout(level, queues[level], i);
    WithoutMiddle(Flat(queues, level), Tagged(level, queues[level]), Rest(queues, level + 1), i);
  }

  lemma TaggedWithout<T>(level: nat, items: seq<T>, i: nat)
    requires i < |items|
    ensures Tagged(level, Without(items, i)) == Without(Tagged(level, items), i)
  {
  }

  lemma WithoutMiddle<T>(a: seq<T>, b: seq<T>, c: seq<T>, i: nat)
    requires i < |b|
    ensures a + Without(b, i) + c == Without(a + b + c, |a| + i)
    ensures (a + b + c)[|a| + i] == b[i]
  {
  }

  /** The first match of the list lies in the first level that has one. */
  lemma FirstMatch<T>(queues: seq<seq<T>>, level: nat, i: nat, p: Entry<T> -> bool)
    requires level < |queues| && i < |queues[level]| && p(Entry(level, queues[level][i]))
    requires forall k :: 0 <= k < |Flat(queues, level)| ==> !p(Flat(queues, level)[k])
    requires forall k :: 0 <= k < i ==> !p(Entry(level, queues[level][k]))
    ensures IndexOf(Flat(queues, |queues|), p) == |Flat(queues, level)| + i
  {
    Around(queues, level, queues[level]);
    assert queues[level := queues[level]] == queues;
    var before, items, after := Flat(queues, level), Tagged(level, queues[level]), Rest(queues, level + 1);
    SplitMiddle(before, items, after, i);
    NoMatchBefore(before, items, i, p);
    assert (items[i..] + after)[0] == items[i];
    IndexOfSplit(before + items[..i], items[i..] + after, p);
  }

  lemma SplitMiddle<T>(a: seq<T>, b: seq<T>, c: seq<T>, i: nat)
    requires i <= |b|
    ensures a + b + c == (a + b[..i]) + (b[i..] + c)
  {
    assert b == b[..i] + b[i..];
  }

  lemma NoMatchBefore<T>(a: seq<T>, b: seq<T>, i: nat, p: T -> bool)
    requires i <= |b| && forall k :: 0 <= k < |a| ==> !p(a[k])
    requires forall k :: 0 <= k < i ==> !p(b[k])
    ensures forall k :: 0 <= k < |a| + i ==> !p((a + b[..i])[k])
  {
  }

  // ------------------------------------------------------------------
  // The bitmask
  // ------------------------------------------------------------------

  function Bit(level: nat): bv16
    requires level < LEVELS
  {
    match level case 0 => 1 case 1 => 2 case 2 => 4 case 3 => 8 case 4 => 16 case 5 => 32
  }

  predicate Has(mask: bv16, level: nat)
    requires level < LEVELS
  {
    mask & Bit(level) != 0
  }

  /** Only the six level bits are ever used. */
  predicate Narrow(mask: bv16) {
    mask & 0xFFC0 == 0
  }

  lemma SetBits(mask: bv16, b: bv16, c: bv16)
    ensures (mask | b) & c == (mask & c) | (b & c)
  {
  }

  lemma ClearOwn(mask: bv16, b: bv16)
    ensures (mask & !b) & b == 0
  {
  }

  lemma ClearOther(mask: bv16, b: bv16, c: bv16)
    requires b & c == 0
    ensures (mask & !b) & c == mask & c
  {
  }

  lemma ClearNarrow(mask: bv16, b: bv16)
    ensures Narrow(mask) ==> Narrow(mask & !b)
  {
  }

  lemma SetNarrow(mask: bv16, b: bv16)
    requires Narrow(b)
    ensures Narrow(mask) ==> Narrow(mask | b)
  {
  }

  lemma DistinctBits(level: nat, k: nat)
    requires level < LEVELS && k < LEVELS
    ensures Bit(level) & Bit(k) == if level == k then Bit(k) else 0
    ensures Bit(k) != 0 && Narrow(Bit(k))
  {
  }

  lemma SetBit(mask: bv16, level: nat, k: nat)
    requires level < LEVELS && k < LEVELS
    ensures Has(mask | Bit(level), k) <==> k == level || Has(mask, k)
    ensures Narrow(mask) ==> Narrow(mask | Bit(level))
  {
    DistinctBits(level, k);
    SetBits(mask, Bit(level), Bit(k));
    SetNarrow(mask, Bit(level));
    DistinctBits(level, level);
  }

  lemma ClearOwnBit(mask: bv16, level: nat)
    requires level < LEVELS
    ensures !Has(mask & !Bit(level), level)
    ensures Narrow(mask) ==> Narrow(mask & !Bit(level))
  {
    ClearOwn(mask, Bit(level));
    ClearNarrow(mask, Bit(level));
  }

  lemma ClearOtherBit(mask: bv16, level: nat, k: nat)
    requires level < LEVELS && k < LEVELS && level != k
    ensures Has(mask & !Bit(level), k) <==> Has(mask, k)
  {
    DistinctBits(level, k);
    ClearOther(mask, Bit(level), Bit(k));
  }

  lemma NonZeroHas(mask: bv16)
    requires Narrow(mask)
    ensures mask == 0 <==> !Has(mask, 0) && !Has(mask, 1) && !Has(mask, 2) && !Has(mask, 3) && !Has(mask, 4) && !Has(mask, 5)
  {
  }

  /** bits.TrailingZeros16 on a mask of levels. */
  function TrailingZeros(mask: bv16): (level: nat)
    requires Narrow(mask) && mask != 0
    ensures level < LEVELS && Has(mask, level)
    ensures forall k :: 0 <= k < level ==> !Has(mask, k)
  {
    NonZeroHas(mask);
    if Has(mask, 0) then 0 else if Has(mask, 1) then 1 else if Has(mask, 2) then 2
    else if Has(mask, 3) then 3 else if Has(mask, 4) then 4 else 5
  }

  ghost predicate MaskHolds<T>(mask: bv16, queues: seq<seq<T>>)
    requires |queues| == LEVELS
  {
    Narrow(mask) && forall k :: 0 <= k < LEVELS ==> (Has(mask, k) <==> queues[k] != [])
  }

  lemma MaskSet<T>(mask: bv16, queues: seq<seq<T>>, level: nat, items: seq<T>)
    requires |queues| == LEVELS && MaskHolds(mask, queues) && level < LEVELS && items != []
    ensures MaskHolds(mask | Bit(level), queues[level := items])
  {
    forall k: nat | k < LEVELS
      ensures Has(mask | Bit(level), k) <==> k == level || queues[k] != []
    {
      SetBit(mask, level, k);
    }
    SetBit(mask, level, 0);
  }

  /** The bit of a level is cleared when the level has run empty. */
  function MaskFor<T>(mask: bv16, level: nat, left: seq<T>): bv16
    requires level < LEVELS
  {
    if left == [] then mask & !Bit(level) else mask
  }

  /** Taking an item away clears the bit when the level runs empty. */
  lemma MaskAfterRemoval<T>(mask: bv16, queues: seq<seq<T>>, level: nat, items: seq<T>)
    requires |queues| == LEVELS && MaskHolds(mask, queues) && level < LEVELS && queues[level] != []
    ensures MaskHolds(MaskFor(mask, level, items), queues[level := items])
  {
    forall k: nat | k < LEVELS
      ensures Has(mask & !Bit(level), k) <==> k != level && queues[k] != []
    {
      if k != level {
        ClearOtherBit(mask, level, k);
      } else {
        ClearOwnBit(mask, level);
      }
    }
    ClearOwnBit(mask, level);
  }

  lemma {:induction false} AllEmpty<T>(queues: seq<seq<T>>, n: nat)
    requires n <= |queues|
    requires forall k :: 0 <= k < n ==> queues[k] == []
    ensures Flat(queues, n) == []
  {
    if n > 0 {
      AllEmpty(queues, n - 1);
    }
  }

  // ------------------------------------------------------------------
  // The census
  // ------------------------------------------------------------------

  ghost predicate DistinctKeys<T>(list: seq<Entry<T>>, keyOf: T -> Key) {
    forall i, j :: 0 <= i < j < |list| ==> keyOf(list[i].item) != keyOf(list[j].item)
  }

  ghost predicate Counts<T>(census: map<Key, T>, list: seq<Entry<T>>, keyOf: T -> Key) {
    forall i :: 0 <= i < |list| ==> keyOf(list[i].item) in census && census[keyOf(list[i].item)] == list[i].item
  }

  ghost predicate Queued<T>(list: seq<Entry<T>>, x: T) {
    exists i :: 0 <= i < |list| && list[i].item == x
  }

  ghost predicate CountsOnly<T>(census: map<Key, T>, list: seq<Entry<T>>, keyOf: T -> Key) {
    forall k :: k in census ==> keyOf(census[k]) == k && Queued(list, census[k])
  }

  /** The census is a bijection between keys and queued items. */
  ghost predicate CensusHolds<T>(census: map<Key, T>, list: seq<Entry<T>>, keyOf: T -> Key) {
    DistinctKeys(list, keyOf) && Counts(census, list, keyOf) && CountsOnly(census, list, keyOf)
  }

  lemma QueuedAfterInsert<T>(list: seq<Entry<T>>, i: nat, e: Entry<T>, x: T)
    requires i <= |list|
    ensures Queued(InsertAt(list, i, e), x) <==> Queued(list, x) || x == e.item
  {
    var list' := InsertAt(list, i, e);
    assert list'[i] == e;
    if Queued(list, x) {
      var j :| 0 <= j < |list| && list[j].item == x;
      assert list'[if j < i then j else j + 1] == list[j];
    }
  }

  lemma QueuedAfterRemoval<T>(list: seq<Entry<T>>, i: nat, x: T)
    requires i < |list| && Queued(list, x) && x != list[i].item
    ensures Queued(Without(list, i), x)
  {
    var j :| 0 <= j < |list| && list[j].item == x;
    assert Without(list, i)[if j < i then j else j - 1] == list[j];
  }

  lemma CensusAfterInsert<T>(census: map<Key, T>, list: seq<Entry<T>>, keyOf: T -> Key, i: nat, e: Entry<T>)
    requires CensusHolds(census, list, keyOf) && keyOf(e.item) !in census && i <= |list|
    ensures CensusHolds(census[keyOf(e.item) := e.item], InsertAt(list, i, e), keyOf)
  {
    var census' := census[keyOf(e.item) := e.item];
    forall k | k in census'
      ensures keyOf(census'[k]) == k && Queued(InsertAt(list, i, e), census'[k])
    {
      QueuedAfterInsert(list, i, e, census'[k]);
    }
    assert forall j :: 0 <= j < |list| ==> keyOf(list[j].item) != keyOf(e.item);
  }

  lemma CensusAfterRemoval<T>(census: map<Key, T>, list: seq<Entry<T>>, keyOf: T -> Key, i: nat)
    requires CensusHolds(census, list, keyOf) && i < |list|
    ensures CensusHolds(census - {keyOf(list[i].item)}, Without(list, i), keyOf)
  {
    var census' := census - {keyOf(list[i].item)};
    WithoutAt(list, i);
    forall k | k in census'
      ensures Queued(Without(list, i), census'[k])
    {
      QueuedAfterRemoval(list, i, census[k]);
    }
  }

  lemma {:induction false} CensusSize<T>(census: map<Key, T>, list: seq<Entry<T>>, keyOf: T -> Key)
    requires CensusHolds(census, list, keyOf)
    ensures |census| == |list|
    decreases |list|
  {
    if list == [] {
      assert census == map[];
    } else {
      var k := keyOf(list[0].item);
      CensusAfterRemoval(census, list, keyOf, 0);
      CensusSize(census - {k}, Without(list, 0), keyOf);
      assert (census - {k}).Keys == census.Keys - {k};
      assert |census| == |census.Keys| && |census - {k}| == |(census - {k}).Keys|;
    }
  }

  // ------------------------------------------------------------------
  // Queries on the list
  // ------------------------------------------------------------------

  /** Entries no less urgent than `max` whose item satisfies `p`. */
  function Matching<T>(max: int, p: T -> bool): Entry<T> -> bool {
    (e: Entry<T>) => e.level <= max && p(e.item)
  }

  function AtLevel<T>(level: int): Entry<T> -> bool {
    (e: Entry<T>) => e.level == level
  }

  function KeyIs<T>(keyOf: T -> Key, key: Key): T -> bool {
    (x: T) => keyOf(x) == key
  }

  /** The list after its first entry satisfying `p`, if any, was taken out. */
  function Taken<T>(list: seq<Entry<T>>, p: Entry<T> -> bool): seq<Entry<T>> {
    var i := IndexOf(list, p);
    if i < |list| then Without(list, i) else list
  }

  function First<T>(list: seq<Entry<T>>, p: Entry<T> -> bool): Option<T> {
    var i := IndexOf(list, p);
    if i < |list| then Some(list[i].item) else None
  }

  /** Out-of-range priorities fall back to the default level. */
  function LevelFor(priority: int): nat {
    if 0 <= priority < LEVELS then priority else DEFAULT_LEVEL
  }

  lemma {:induction false} NoMatchInLevels<T>(queues: seq<seq<T>>, n: nat, p: Entry<T> -> bool)
    requires n <= |queues|
    requires forall l, i :: 0 <= l < n && 0 <= i < |queues[l]| ==> !p(Entry(l, queues[l][i]))
    ensures forall k :: 0 <= k < |Flat(queues, n)| ==> !p(Flat(queues, n)[k])
  {
    if n > 0 {
      NoMatchInLevels(queues, n - 1, p);
    }
  }

  /** A key is in the census exactly when some queued item has it. */
  lemma CensusFinds<T>(census: map<Key, T>, list: seq<Entry<T>>, keyOf: T -> Key, key: Key)
    requires CensusHolds(census, list, keyOf) && forall i :: 0 <= i < |list| ==> list[i].level < LEVELS
    ensures key in census <==> First(list, Matching(LEVELS, KeyIs(keyOf, key))).Some?
    ensures key in census ==> First(list, Matching(LEVELS, KeyIs(keyOf, key))) == Some(census[key])
  {
    if key in census {
      assert Queued(list, census[key]);
      var i :| 0 <= i < |list| && list[i].item == census[key];
      assert Matching(LEVELS, KeyIs(keyOf, key))(list[i]);
    }
  }

  lemma HeadOfLevel<T>(queues: seq<seq<T>>, level: nat)
    requires level < |queues|
    ensures var i := IndexOf(Flat(queues, |queues|), AtLevel(level));
            if queues[level] == [] then i == |Flat(queues, |queues|)| else i == |Flat(queues, level)|
  {
    Around(queues, level, queues[level]);
    assert queues[level := queues[level]] == queues;
    if queues[level] != [] {
      FirstMatch(queues, level, 0, AtLevel(level));
    } else {
      NoMatchInLevels(queues, |queues|, AtLevel(level));
    }
  }

  // ------------------------------------------------------------------
  // The queue
  // ------------------------------------------------------------------

  /** Mask, census and count agree with the levels. */
  ghost predicate Agrees<T>(queues: seq<seq<T>>, bitmask: bv16, census: map<Key, T>, fastSize: int, keyOf: T -> Key) {
    && |queues| == LEVELS
    && MaskHolds(bitmask, queues)
    && CensusHolds(census, Flat(queues, LEVELS), keyOf)
    && fastSize == |Flat(queues, LEVELS)|
  }

  lemma AgreesAfterPush<T>(queues: seq<seq<T>>, bitmask: bv16, census: map<Key, T>, fastSize: int, keyOf: T -> Key, level: nat, x: T)
    requires Agrees(queues, bitmask, census, fastSize, keyOf) && level < LEVELS && keyOf(x) !in census
    ensures Agrees(queues[level := queues[level] + [x]], bitmask | Bit(level), census[keyOf(x) := x], fastSize + 1, keyOf)
  {
    AppendInserts(queues, level, x);
    assert MaskHolds(bitmask | Bit(level), queues[level := queues[level] + [x]]) by {
      MaskSet(bitmask, queues, level, queues[level] + [x]);
    }
    var list := Flat(queues, LEVELS);
    CensusAfterInsert(census, list, keyOf, IndexOf(list, (e: Entry<T>) => e.level > level), Entry(level, x));
  }

  lemma AgreesAfterRemoval<T>(queues: seq<seq<T>>, bitmask: bv16, census: map<Key, T>, fastSize: int, keyOf: T -> Key, level: nat, i: nat)
    requires Agrees(queues, bitmask, census, fastSize, keyOf) && level < LEVELS && i < |queues[level]|
    ensures var left := Without(queues[level], i);
            Agrees(queues[level := left], MaskFor(bitmask, level, left), census - {keyOf(queues[level][i])}, fastSize - 1, keyOf)
  {
    var left, at := Without(queues[level], i), |Flat(queues, level)| + i;
    RemovalRemoves(queues, level, i);
    WithoutAt(Flat(queues, LEVELS), at);
    CensusAfterRemoval(census, Flat(queues, LEVELS), keyOf, at);
    assert MaskHolds(MaskFor(bitmask, level, left), queues[level := left]) by {
      MaskAfterRemoval(bitmask, queues, level, left);
    }
  }

  lemma ListAfterPush<T>(queues: seq<seq<T>>, level: nat, x: T, list: seq<Entry<T>>)
    requires |queues| == LEVELS && level < LEVELS && list == Flat(queues, LEVELS)
    ensures Flat(queues[level := queues[level] + [x]], LEVELS) == Inserted(list, Entry(level, x))
  {
    AppendInserts(queues, level, x);
  }

  lemma ListAfterRemoval<T>(queues: seq<seq<T>>, level: nat, i: nat, list: seq<Entry<T>>)
    requires |queues| == LEVELS && level < LEVELS && i < |queues[level]| && list == Flat(queues, LEVELS)
    ensures var at := |Flat(queues, level)| + i;
            && at < |list| && list[at] == Entry(level, queues[level][i])
            && Flat(queues[level := Without(queues[level], i)], LEVELS) == Without(list, at)
  {
    RemovalRemoves(queues, level, i);
  }

  class MultiLevelQueue<T> {
    const keyOf: T -> Key
    var queues: seq<seq<T>>
    var bitmask: bv16
    var census: map<Key, T>
    var fastSize: int

    ghost function List(): seq<Entry<T>>
      reads this
      requires |queues| == LEVELS
    {
      Flat(queues, LEVELS)
    }

    ghost predicate Valid()
      reads this
    {
      Agrees(queues, bitmask, census, fastSize, keyOf)
    }

    constructor (keyOf: T -> Key)
      ensures Valid() && List() == [] && this.keyOf == keyOf
    {
      this.keyOf := keyOf;
      queues, bitmask, census, fastSize := seq(LEVELS, _ => []), 0, map[], 0;
      new;
      AllEmpty(queues, LEVELS);
      NonZeroHas(0);
    }

    method Push(priority: int, key: Key, item: T) returns (ok: bool)
      requires Valid() && key == keyOf(item)
      modifies this
      ensures Valid()
      ensures ok <==> First(old(List()), Matching(LEVELS, KeyIs(keyOf, key))).None?
      ensures List() == if ok then Inserted(old(List()), Entry(LevelFor(priority), item)) else old(List())
    {
      FlatBelow(queues, LEVELS);
      CensusFinds(census, List(), keyOf, key);
      if key in census {
        return false;
      }
      var level := if priority < 0 || priority >= LEVELS then DEFAULT_LEVEL else priority;
      ListAfterPush(queues, level, item, List());
      Lengthen(level, key, item);
      return true;
    }

    /** Put an item at the end of a level, and keep the mask, the census and the count in step. */
    method Lengthen(level: nat, key: Key, item: T)
      requires Valid() && level < LEVELS && key == keyOf(item) && key !in census
      modifies this
      ensures Valid() && queues == old(queues)[level := old(queues)[level] + [item]]
    {
      AgreesAfterPush(queues, bitmask, census, fastSize, keyOf, level, item);
      queues := queues[level := queues[level] + [item]];
      census, bitmask, fastSize := census[key := item], bitmask | Bit(level), fastSize + 1;
    }

    /** Shorten a level by one, and keep the mask, the census and the count in step. */
    method Shorten(level: nat, i: nat)
      requires Valid() && level < LEVELS && i < |queues[level]|
      modifies this
      ensures Valid() && queues == old(queues)[level := Without(old(queues)[level], i)]
    {
      AgreesAfterRemoval(queues, bitmask, census, fastSize, keyOf, level, i);
      var item, left := queues[level][i], Without(queues[level], i);
      queues, census, fastSize, bitmask :=
        queues[level := left], census - {keyOf(item)}, fastSize - 1, MaskFor(bitmask, level, left);
    }

    /** Take item `i` out of a level. */
    method TakeFrom(level: nat, i: nat) returns (item: T)
      requires Valid() && level < LEVELS && i < |queues[level]|
      modifies this
      ensures Valid()
      ensures var at := |Flat(old(queues), level)| + i;
              at < |old(List())| && old(List())[at] == Entry(level, item) && List() == Without(old(List()), at)
    {
      item := queues[level][i];
      ListAfterRemoval(queues, level, i, List());
      Shorten(level, i);
    }

    /** The level that the mask names first holds the head of the list. */
    lemma MaskNamesHead()
      requires Valid()
      ensures bitmask == 0 <==> List() == []
      ensures bitmask != 0 ==>
                var level := TrailingZeros(bitmask);
                Flat(queues, level) == [] && queues[level] != [] && List()[0] == Entry(level, queues[level][0])
    {
      NonZeroHas(bitmask);
      if bitmask == 0 {
        AllEmpty(queues, LEVELS);
      } else {
        var level := TrailingZeros(bitmask);
        AllEmpty(queues, level);
        RemovalRemoves(queues, level, 0);
      }
    }

    method Pop() returns (popped: Option<Entry<T>>)
      requires Valid()
      modifies this
      ensures Valid()
      ensures if old(List()) == [] then popped == None && List() == []
              else popped == Some(old(List())[0]) && List() == old(List())[1..]
    {
      MaskNamesHead();
      if bitmask == 0 {
        return None;
      }
      var level := TrailingZeros(bitmask);
      var item := TakeFrom(level, 0);
      return Some(Entry(level, item));
    }

    method Peek() returns (head: Option<Entry<T>>)
      requires Valid()
      ensures head == if List() == [] then None else Some(List()[0])
    {
      MaskNamesHead();
      if bitmask == 0 {
        return None;
      }
      var level := TrailingZeros(bitmask);
      return Some(Entry(level, queues[level][0]));
    }

    method Get(key: Key) returns (item: Option<T>)
      requires Valid()
      ensures item == First(List(), Matching(LEVELS, KeyIs(keyOf, key)))
    {
      FlatBelow(queues, LEVELS);
      CensusFinds(census, List(), keyOf, key);
      item := if key in census then Some(census[key]) else None;
    }

    /** Scan one level. */
    method SearchLevel(level: nat, p: T -> bool) returns (i: nat)
      requires Valid() && level < LEVELS
      ensures i <= |queues[level]| && (i < |queues[level]| ==> p(queues[level][i]))
      ensures forall k :: 0 <= k < i ==> !p(queues[level][k])
    {
      i := 0;
      while i < |queues[level]|
        invariant i <= |queues[level]|
        invariant forall k :: 0 <= k < i ==> !p(queues[level][k])
      {
        if p(queues[level][i]) {
          return;
        }
        i := i + 1;
      }
    }

    /** Scan the levels that the mask names, most urgent first, down to `max`. */
    method Search(max: int, p: T -> bool) returns (found: bool, level: nat, i: nat)
      requires Valid()
      ensures found ==> level < LEVELS && i < |queues[level]|
                        && IndexOf(List(), Matching(max, p)) == |Flat(queues, level)| + i
      ensures !found ==> IndexOf(List(), Matching(max, p)) == |List()|
    {
      var tempMask := bitmask;
      ghost var seen: nat := 0;
      level, i := 0, 0;
      while tempMask != 0
        invariant Narrow(tempMask) && seen <= LEVELS
        invariant forall k: nat :: k < LEVELS ==> (Has(tempMask, k) <==> seen <= k && queues[k] != [])
        invariant forall l, k :: 0 <= l < seen && 0 <= k < |queues[l]| ==> !Matching(max, p)(Entry(l, queues[l][k]))
        decreases LEVELS - seen
      {
        level := TrailingZeros(tempMask);
        if level > max {
          LevelsBeyond(level, max, p, seen);
          return false, level, i;
        }
        i := SearchLevel(level, p);
        LevelsBetween(level, max, p, seen);
        if i < |queues[level]| {
          NoMatchInLevels(queues, level, Matching(max, p));
          FirstMatch(queues, level, i, Matching(max, p));
          return true, level, i;
        }
        ClearKeeps(tempMask, seen, level);
        tempMask := tempMask & !Bit(level);
        seen := level + 1;
      }
      NonZeroHas(tempMask);
      NoMatchInLevels(queues, LEVELS, Matching(max, p));
      return false, level, i;
    }

    /** Levels the mask skips are empty. */
    lemma LevelsBetween(level: nat, max: int, p: T -> bool, seen: nat)
      requires |queues| == LEVELS && seen <= level < LEVELS
      requires forall l, k :: 0 <= l < seen && 0 <= k < |queues[l]| ==> !Matching(max, p)(Entry(l, queues[l][k]))
      requires forall l :: seen <= l < level ==> queues[l] == []
      ensures forall l, k :: 0 <= l < level && 0 <= k < |queues[l]| ==> !Matching(max, p)(Entry(l, queues[l][k]))
    {
    }

    lemma LevelsBeyond(level: nat, max: int, p: T -> bool, seen: nat)
      requires |queues| == LEVELS && seen <= level < LEVELS && max < level
      requires forall l, k :: 0 <= l < seen && 0 <= k < |queues[l]| ==> !Matching(max, p)(Entry(l, queues[l][k]))
      requires forall l :: seen <= l < level ==> queues[l] == []
      ensures IndexOf(List(), Matching(max, p)) == |List()|
    {
      NoMatchInLevels(queues, LEVELS, Matching(max, p));
    }

    lemma ClearKeeps(mask: bv16, seen: nat, level: nat)
      requires |queues| == LEVELS && Narrow(mask) && seen <= level < LEVELS
      requires forall k: nat :: k < LEVELS ==> (Has(mask, k) <==> seen <= k && queues[k] != [])
      requires forall k: nat :: k < level ==> !Has(mask, k)
      ensures Narrow(mask & !Bit(level))
      ensures forall k: nat :: k < LEVELS ==> (Has(mask & !Bit(level), k) <==> level + 1 <= k && queues[k] != [])
    {
      forall k: nat | k < LEVELS
        ensures Has(mask & !Bit(level), k) <==> level + 1 <= k && queues[k] != []
      {
        if k != level {
          ClearOtherBit(mask, level, k);
        } else {
          ClearOwnBit(mask, level);
        }
      }
      ClearOwnBit(mask, level);
    }

    method RemoveByKey(key: Key) returns (removed: Option<T>)
      requires Valid()
      modifies this
      ensures Valid()
      ensures removed == First(old(List()), Matching(LEVELS, KeyIs(keyOf, key)))
      ensures List() == Taken(old(List()), Matching(LEVELS, KeyIs(keyOf, key)))
    {
      FlatBelow(queues, LEVELS);
      CensusFinds(census, List(), keyOf, key);
      if key !in census {
        return None;
      }
      var found, level, i := Search(LEVELS, KeyIs(keyOf, key));
      if !found {
        return None;
      }
      var item := TakeFrom(level, i);
      return Some(item);
    }

    method PopIf(priority: int, p: T -> bool) returns (popped: Option<T>)
      requires Valid()
      modifies this
      ensures Valid()
      ensures var head := First(old(List()), AtLevel(priority));
              if head.Some? && p(head.value) then popped == head && List() == Taken(old(List()), AtLevel(priority))
              else popped == None && List() == old(List())
    {
      FlatBelow(queues, LEVELS);
      if priority < 0 || priority >= LEVELS {
        return None;
      }
      HeadOfLevel(queues, priority);
      if !Has(bitmask, priority) || !p(queues[priority][0]) {
        RemovalRemovesHead(priority);
        return None;
      }
      RemovalRemovesHead(priority);
      var item := TakeFrom(priority, 0);
      return Some(item);
    }

    lemma RemovalRemovesHead(level: nat)
      requires Valid() && level < LEVELS
      ensures queues[level] != [] ==> |Flat(queues, level)| < |List()| && List()[|Flat(queues, level)|] == Entry(level, queues[level][0])
    {
      if queues[level] != [] {
        RemovalRemoves(queues, level, 0);
      }
    }

    method PopAnyIf(maxPriority: int, p: T -> bool) returns (popped: Option<T>)
      requires Valid()
      modifies this
      ensures Valid()
      ensures popped == First(old(List()), Matching(maxPriority, p))
      ensures List() == Taken(old(List()), Matching(maxPriority, p))
    {
      var found, level, i := Search(maxPriority, p);
      if !found {
        return None;
      }
      var item := TakeFrom(level, i);
      return Some(item);
    }

    /** Every item is handed to the callback once, most urgent first. */
    method Clear() returns (released: seq<T>)
      requires Valid()
      modifies this
      ensures Valid() && List() == []
      ensures |released| == |old(List())| && forall i :: 0 <= i < |released| ==> released[i] == old(List())[i].item
    {
      released := [];
      for l := 0 to LEVELS
        invariant |released| == |Flat(queues, l)|
        invariant forall i :: 0 <= i < |released| ==> released[i] == Flat(queues, l)[i].item
        invariant queues == old(queues)
      {
        released := released + queues[l];
      }
      queues := seq(LEVELS, _ => []);
      census, bitmask, fastSize := map[], 0, 0;
      AllEmpty(queues, LEVELS);
      NonZeroHas(0);
    }

    method Size() returns (n: nat)
      requires Valid()
      ensures n == |List()| && n == fastSize
    {
      CensusSize(census, List(), keyOf);
      n := |census|;
    }

    method HighestPriority() returns (level: int)
      requires Valid()
      ensures level == if List() == [] then -1 else List()[0].level
    {
      MaskNamesHead();
      level := if bitmask == 0 then -1 else TrailingZeros(bitmask);
    }
  }
}
