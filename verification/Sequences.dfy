/** Positions, insertion and removal in sequences. */
module Sequences {
  /** Position of the first element that satisfies `p`; the length when none does. */
  function IndexOf<T>(s: seq<T>, p: T -> bool): (i: nat)
    ensures i <= |s|
    ensures forall k :: 0 <= k < i ==> !p(s[k])
    ensures i < |s| ==> p(s[i])
  {
    if s == [] || p(s[0]) then 0 else 1 + IndexOf(s[1..], p)
  }

  lemma {:induction false} IndexOfSplit<T>(pre: seq<T>, post: seq<T>, p: T -> bool)
    requires forall k :: 0 <= k < |pre| ==> !p(pre[k])
    requires post == [] || p(post[0])
    ensures IndexOf(pre + post, p) == |pre|
  {
    if pre == [] {
      assert pre + post == post;
    } else {
      assert (pre + post)[1..] == pre[1..] + post;
      IndexOfSplit(pre[1..], post, p);
    }
  }

  function Without<T>(s: seq<T>, i: nat): seq<T>
    requires i < |s|
  {
    s[..i] + s[i + 1..]
  }

  lemma WithoutAt<T>(s: seq<T>, i: nat)
    requires i < |s|
    ensures |Without(s, i)| == |s| - 1
    ensures forall k :: 0 <= k < |s| - 1 ==> Without(s, i)[k] == if k < i then s[k] else s[k + 1]
  {
  }

  function InsertAt<T>(s: seq<T>, i: nat, x: T): (r: seq<T>)
    requires i <= |s|
    ensures |r| == |s| + 1
    ensures forall k :: 0 <= k < |r| ==> r[k] == if k < i then s[k] else if k == i then x else s[k - 1]
  {
    s[..i] + [x] + s[i..]
  }
}
