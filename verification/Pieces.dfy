/** Byte strings cut into pieces and put together again. */
module Pieces {
  import opened Octets

  /** The byte stream made of a sequence of chunks. */
  function Flatten(chunks: seq<Bytes>): Bytes
    decreases |chunks|
  {
    if chunks == [] then [] else Flatten(chunks[..|chunks| - 1]) + chunks[|chunks| - 1]
  }

  lemma FlattenAppend(a: seq<Bytes>, b: seq<Bytes>)
    ensures Flatten(a + b) == Flatten(a) + Flatten(b)
    decreases |b|
  {
    if b == [] {
      assert a + b == a;
    } else {
      var n := |b| - 1;
      assert (a + b)[..|a + b| - 1] == a + b[..n];
      FlattenAppend(a, b[..n]);
    }
  }

  lemma FlattenPrefix(a: seq<Bytes>, k: nat)
    requires k <= |a|
    ensures Flatten(a[..k]) <= Flatten(a)
  {
    var x, y := a[..k], a[k..];
    assert a == x + y;
    FlattenAppend(x, y);
  }

  lemma FlattenLast(all: seq<Bytes>, init: seq<Bytes>, last: Bytes)
    requires all == init + [last]
    ensures Flatten(all) == Flatten(init) + last
  {
    assert all[..|all| - 1] == init;
  }

  lemma FlattenThree(front: seq<Bytes>, x: Bytes, back: seq<Bytes>)
    ensures Flatten(front + [x] + back) == Flatten(front) + x + Flatten(back)
  {
    FlattenAppend(front + [x], back);
    FlattenLast(front + [x], front, x);
  }

  lemma SeqSplits(a: seq<Bytes>, i: nat)
    requires i < |a|
    ensures a == a[..i] + [a[i]] + a[i + 1..] && a[..i + 1] == a[..i] + [a[i]]
  {
  }

  lemma FlattenSplits(a: seq<Bytes>, i: nat)
    requires i < |a|
    ensures Flatten(a) == Flatten(a[..i]) + a[i] + Flatten(a[i + 1..])
    ensures Flatten(a[..i + 1]) == Flatten(a[..i]) + a[i]
  {
    SeqSplits(a, i);
    FlattenThree(a[..i], a[i], a[i + 1..]);
    FlattenLast(a[..i + 1], a[..i], a[i]);
  }

  function Cut(s: Bytes, size: nat): seq<Bytes>
    requires size > 0
    decreases |s|
  {
    if s == [] then [] else if |s| <= size then [s] else [s[..size]] + Cut(s[size..], size)
  }

  lemma {:induction false} CutConcat(s: Bytes, size: nat)
    requires size > 0
    ensures Flatten(Cut(s, size)) == s
    ensures forall i :: 0 <= i < |Cut(s, size)| ==> 1 <= |Cut(s, size)[i]| <= size
    decreases |s|
  {
    if |s| > size {
      CutConcat(s[size..], size);
      assert s == s[..size] + s[size..];
      FlattenAppend([s[..size]], Cut(s[size..], size));
      FlattenOne(s[..size]);
    } else if s != [] {
      FlattenOne(s);
    }
  }

  lemma FlattenOne(s: Bytes)
    ensures Flatten([s]) == s
  {
    assert [s][..0] == [];
  }

  lemma CutStep(payload: Bytes, cursor: nat, end: nat, size: nat, parts: seq<Bytes>, id: nat)
    requires size > 0 && cursor < |payload| && end == (if cursor + size > |payload| then |payload| else cursor + size)
    requires id <= |parts| && parts[id..] == Cut(payload[cursor..], size)
    ensures id < |parts| && parts[id] == payload[cursor..end] && parts[id + 1..] == Cut(payload[end..], size)
  {
    var rest := payload[cursor..];
    assert parts[id..][0] == parts[id] && parts[id..][1..] == parts[id + 1..];
    if |rest| > size {
      assert rest[..size] == payload[cursor..end] && rest[size..] == payload[end..];
    } else {
      assert rest == payload[cursor..end] && payload[end..] == [];
    }
  }

  /** The first `n` entries of a map, joined. */
  function Joined(chunks: map<nat, Bytes>, n: nat): Bytes
    requires forall i :: 0 <= i < n ==> i in chunks
  {
    if n == 0 then [] else Joined(chunks, n - 1) + chunks[n - 1]
  }

  lemma {:induction false} JoinedParts(chunks: map<nat, Bytes>, parts: seq<Bytes>, n: nat)
    requires n <= |parts| && forall i :: 0 <= i < n ==> i in chunks && chunks[i] == parts[i]
    ensures Joined(chunks, n) == Flatten(parts[..n])
  {
    if n > 0 {
      JoinedParts(chunks, parts, n - 1);
      assert parts[..n][..n - 1] == parts[..n - 1];
    }
  }

  lemma {:induction false} RangeSize(keys: set<nat>, n: nat)
    requires forall i: nat :: i in keys <==> i < n
    ensures |keys| == n
    decreases n
  {
    if n > 0 {
      RangeSize(keys - {n - 1}, n - 1);
      assert |keys| == |keys - {n - 1}| + 1;
    } else {
      assert keys == {};
    }
  }
}
