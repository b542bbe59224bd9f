/** 16-bit wrapping sequence numbers, and the unbounded indices behind them. */
module Wire16 {
  type Seq16 = x: int | 0 <= x < 65536

  /** The number a packet of index `n` carries on the wire. */
  function Wire(n: nat): Seq16 {
    n % 65536
  }

  /** `uint16` subtraction. */
  function Sub16(a: Seq16, b: Seq16): Seq16 {
    (a - b) % 65536
  }

  /** `uint16` increment. */
  function Next16(a: Seq16): Seq16 {
    (a + 1) % 65536
  }

  /** The greatest index below `n` carrying `sn`; negative when there is none. */
  function Latest(n: nat, sn: Seq16): int {
    n - 1 - Sub16(Wire(n + 65535), sn)
  }

  lemma SubWire(n: nat, m: nat)
    requires m <= n < m + 65536
    ensures Sub16(Wire(n), Wire(m)) == n - m
  {
  }

  lemma SubWireBehind(n: nat, m: nat)
    requires n < m <= n + 65536
    ensures Sub16(Wire(n), Wire(m)) == (65536 - (m - n)) % 65536
  {
  }

  /** Moving the reference point one up brings every other number one closer. */
  lemma SubWireStep(sn: Seq16, n: nat)
    requires sn != Wire(n)
    ensures Sub16(sn, Wire(n + 1)) == Sub16(sn, Wire(n)) - 1
  {
  }

  lemma NextWire(n: nat)
    ensures Next16(Wire(n)) == Wire(n + 1)
  {
  }

  lemma LatestIsGreatest(n: nat, sn: Seq16)
    ensures Latest(n, sn) < n && Latest(n, sn) >= n - 65536
    ensures Latest(n, sn) >= 0 ==> Wire(Latest(n, sn)) == sn
    ensures forall m: nat :: m < n && Wire(m) == sn ==> m <= Latest(n, sn)
  {
  }

  /** An index is the latest with its number exactly while fewer than 65536 newer ones exist. */
  lemma LatestExactly(n: nat, m: nat)
    requires m < n
    ensures Latest(n, Wire(m)) == m <==> n <= m + 65536
  {
  }

  lemma LatestStep(n: nat, sn: Seq16)
    ensures Latest(n + 1, sn) == if sn == Wire(n) then n else Latest(n, sn)
  {
  }

  lemma WireInjective(n: nat, m: nat)
    requires Wire(n) == Wire(m) && m <= n < m + 65536
    ensures n == m
  {
  }

  /** Numbers of a run of consecutive indices. */
  ghost function Span(lo: nat, hi: nat): set<Seq16>
    requires lo <= hi
    decreases hi
  {
    if lo == hi then {} else Span(lo, hi - 1) + {Wire(hi - 1)}
  }

  lemma SpanContains(lo: nat, hi: nat, i: nat)
    requires lo <= i < hi
    ensures Wire(i) in Span(lo, hi)
    decreases hi
  {
    if i < hi - 1 {
      SpanContains(lo, hi - 1, i);
    }
  }

  lemma SpanMember(lo: nat, hi: nat, sn: Seq16) returns (i: nat)
    requires lo <= hi && sn in Span(lo, hi)
    ensures lo <= i < hi && Wire(i) == sn
    decreases hi
  {
    if sn == Wire(hi - 1) {
      i := hi - 1;
    } else {
      i := SpanMember(lo, hi - 1, sn);
    }
  }

  lemma {:induction false} SpanSize(lo: nat, hi: nat)
    requires lo <= hi <= lo + 65536
    ensures |Span(lo, hi)| == hi - lo
    decreases hi
  {
    if lo < hi {
      SpanSize(lo, hi - 1);
      if Wire(hi - 1) in Span(lo, hi - 1) {
        var i := SpanMember(lo, hi - 1, Wire(hi - 1));
        WireInjective(hi - 1, i);
      }
    }
  }

  lemma SubsetSize<T>(a: set<T>, b: set<T>)
    requires a <= b
    ensures |a| <= |b|
  {
    assert b == a + (b - a);
  }

  /** Pigeonhole: a set holding the numbers of `hi - lo` consecutive indices is at least that large. */
  lemma PigeonholeAtLeast(s: set<Seq16>, lo: nat, hi: nat)
    requires lo <= hi <= lo + 65536
    requires forall i: nat :: lo <= i < hi ==> Wire(i) in s
    ensures hi - lo <= |s|
  {
    SpanSize(lo, hi);
    forall sn | sn in Span(lo, hi)
      ensures sn in s
    {
      var i := SpanMember(lo, hi, sn);
    }
    SubsetSize(Span(lo, hi), s);
  }

  /** The index a number stands for when it is counted ahead of index `r`. */
  lemma WireAhead(r: nat, sn: Seq16)
    ensures Wire(r + Sub16(sn, Wire(r))) == sn
  {
  }

  /** Pigeonhole: a set of numbers at most `w` ahead of index `r` has at most `w + 1` members. */
  lemma PigeonholeAtMost(s: set<Seq16>, r: nat, w: nat)
    requires w < 65536
    requires forall sn :: sn in s ==> Sub16(sn, Wire(r)) <= w
    ensures |s| <= w + 1
    ensures Wire(r) !in s ==> |s| <= w
  {
    SpanSize(r, r + w + 1);
    forall sn | sn in s
      ensures sn in Span(r, r + w + 1)
    {
      WireAhead(r, sn);
      SpanContains(r, r + w + 1, r + Sub16(sn, Wire(r)));
    }
    SubsetSize(s, Span(r, r + w + 1));
    if Wire(r) !in s {
      SubsetSize(s + {Wire(r)}, Span(r, r + w + 1)) by {
        SpanContains(r, r + w + 1, r);
      }
    }
  }
}
