/** The matcher of request names against the allowed domains: a trie of labels, read from the right. */
module DomainTrie {
  import opened Octets
  import opened Enums
  import opened DnsName

  // ------------------------------------------------------------------
  // Labels from the right
  // ------------------------------------------------------------------

  /** strings.LastIndexByte(s, '.'). */
  function LastDot(s: Bytes): (i: int)
    ensures -1 <= i < |s|
    ensures i >= 0 ==> s[i] == DOT
  {
    if s == [] then -1 else if s[|s| - 1] == DOT then |s| - 1 else LastDot(s[..|s| - 1])
  }

  /** The labels as the loops visit them: last label first, and nothing before a leading dot. */
  function Path(s: Bytes): seq<Label>
    decreases |s|
  {
    if s == [] then []
    else
      var k := LastDot(s);
      [s[k + 1..]] + if k <= 0 then [] else Path(s[..k])
  }

  /** How much text labels take, with the dots between them. */
  function Span(labels: seq<Label>): nat {
    if labels == [] then 0 else |labels[0]| + (if |labels| == 1 then 0 else 1 + Span(labels[1..]))
  }

  /** The domain is the name or a suffix of it that begins at a label. */
  predicate LabelSuffix(domain: Bytes, name: Bytes) {
    var at := |name| - |domain|;
    && at >= 0 && name[at..] == domain && (at > 0 ==> name[at - 1] == DOT)
  }

  /** A domain without empty labels, one label at a time from the right. */
  ghost predicate Solid(domain: Bytes)
    decreases |domain|
  {
    var k := LastDot(domain);
    domain != [] && k + 1 < |domain| && k != 0 && (k > 0 ==> Solid(domain[..k]))
  }

  lemma {:induction false} LastDotAppend(pre: Bytes, s: Bytes)
    ensures LastDot(pre + s) == if LastDot(s) >= 0 then |pre| + LastDot(s) else LastDot(pre)
    decreases |s|
  {
    if s == [] {
      assert pre + s == pre;
    } else {
      assert (pre + s)[..|pre + s| - 1] == pre + s[..|s| - 1];
      LastDotAppend(pre, s[..|s| - 1]);
    }
  }

  lemma LastDotBehind(pre: Bytes, s: Bytes)
    requires pre == [] || pre[|pre| - 1] == DOT
    ensures LastDot(pre + s) == |pre| + LastDot(s)
    ensures (pre + s)[|pre| + LastDot(s) + 1..] == s[LastDot(s) + 1..]
  {
    LastDotAppend(pre, s);
  }

  /** The last dot of a name that ends in a domain lies in the domain, or just before it. */
  lemma SuffixDots(domain: Bytes, name: Bytes, pre: Bytes)
    requires domain != [] && LabelSuffix(domain, name) && pre == name[..|name| - |domain|]
    ensures name == pre + domain
    ensures LastDot(name) == |pre| + LastDot(domain)
    ensures name[LastDot(name) + 1..] == domain[LastDot(domain) + 1..]
  {
    assert name == pre + domain;
    assert pre == [] || pre[|pre| - 1] == DOT;
    LastDotBehind(pre, domain);
  }

  /** One label off the right end of both. */
  lemma SuffixStep(domain: Bytes, name: Bytes, k: nat, m: nat)
    requires k < |domain| && m < |name| && domain[k] == DOT && name[m] == DOT && name[m + 1..] == domain[k + 1..]
    ensures LabelSuffix(domain[..k], name[..m]) <==> LabelSuffix(domain, name)
  {
    assert name == name[..m] + [DOT] + name[m + 1..] && domain == domain[..k] + [DOT] + domain[k + 1..];
    if m >= k {
      var at := m - k;
      assert name[at..] == name[..m][at..] + [DOT] + name[m + 1..];
      if name[at..] == domain {
        assert name[..m][at..] == name[at..][..k];
      }
    }
  }

  /** Matching label by label is matching as a label-aligned suffix. */
  lemma {:induction false} SuffixIsPathPrefix(domain: Bytes, name: Bytes)
    requires Solid(domain)
    ensures LabelSuffix(domain, name) <==> IsPrefix(Path(domain), Path(name))
    decreases |domain|
  {
    var k, m := LastDot(domain), LastDot(name);
    if name == [] {
      PathNotEmpty(domain);
    } else if k < 0 {
      SingleLabel(domain, name);
    } else if m <= 0 {
      FewLabels(domain, name);
    } else {
      SuffixIsPathPrefix(domain[..k], name[..m]);
      ManyLabels(domain, name, k, m);
      ManyParts(domain, name, k, m);
    }
  }

  /** A domain of several labels does not end a name of one. */
  lemma FewLabels(domain: Bytes, name: Bytes)
    requires Solid(domain) && LastDot(domain) >= 0 && name != [] && LastDot(name) <= 0
    ensures !LabelSuffix(domain, name) && !IsPrefix(Path(domain), Path(name))
  {
    PathOfMore(domain);
    PathTail(name);
    if LabelSuffix(domain, name) {
      SuffixDots(domain, name, name[..|name| - |domain|]);
    }
  }

  lemma ManyLabels(domain: Bytes, name: Bytes, k: nat, m: nat)
    requires domain != [] && k == LastDot(domain) && m == LastDot(name)
    ensures LabelSuffix(domain, name) <==> domain[k + 1..] == name[m + 1..] && LabelSuffix(domain[..k], name[..m])
  {
    if LabelSuffix(domain, name) {
      SuffixDots(domain, name, name[..|name| - |domain|]);
    }
    if name[m + 1..] == domain[k + 1..] {
      SuffixStep(domain, name, k, m);
    }
  }

  lemma ManyParts(domain: Bytes, name: Bytes, k: nat, m: nat)
    requires Solid(domain) && name != [] && k == LastDot(domain) && m == LastDot(name) && m > 0
    ensures IsPrefix(Path(domain), Path(name)) <==> domain[k + 1..] == name[m + 1..] && IsPrefix(Path(domain[..k]), Path(name[..m]))
  {
    PathOfMore(domain);
    PathTail(name);
    PrefixStep(domain[k + 1..], name[m + 1..], Path(domain[..k]), Path(name[..m]));
  }

  lemma PathTail(rest: Bytes)
    requires rest != []
    ensures LastDot(rest) <= 0 ==> Path(rest) == [rest[LastDot(rest) + 1..]]
    ensures LastDot(rest) > 0 ==> Path(rest) == [rest[LastDot(rest) + 1..]] + Path(rest[..LastDot(rest)])
  {
  }

  lemma SingleLabel(domain: Bytes, name: Bytes)
    requires Solid(domain) && LastDot(domain) < 0 && name != []
    ensures LabelSuffix(domain, name) <==> IsPrefix(Path(domain), Path(name))
  {
    PathOfOne(domain);
    FirstOfPath(domain, name);
    if LabelSuffix(domain, name) {
      SuffixDots(domain, name, name[..|name| - |domain|]);
      assert domain[LastDot(domain) + 1..] == domain;
    }
  }

  lemma FirstOfPath(part: Label, name: Bytes)
    requires name != []
    ensures IsPrefix([part], Path(name)) <==> name[LastDot(name) + 1..] == part
  {
    var path := Path(name);
    assert path[..1] == [path[0]];
    assert [path[0]] == [part] <==> path[0] == part;
  }

  predicate IsPrefix(a: seq<Label>, b: seq<Label>) {
    |a| <= |b| && b[..|a|] == a
  }

  lemma PrefixStep(x: Label, y: Label, a: seq<Label>, b: seq<Label>)
    ensures IsPrefix([x] + a, [y] + b) <==> x == y && IsPrefix(a, b)
  {
    if |a| <= |b| {
      assert ([y] + b)[..|a| + 1] == [y] + b[..|a|];
      if [x] + a == [y] + b[..|a|] {
        assert ([x] + a)[0] == x && ([x] + a)[1..] == a;
        assert ([y] + b[..|a|])[1..] == b[..|a|];
      }
    }
  }

  lemma PathOfOne(a: Bytes)
    requires Solid(a) && LastDot(a) < 0
    ensures Path(a) == [a]
  {
    assert a[LastDot(a) + 1..] == a;
  }

  lemma PathOfMore(a: Bytes)
    requires Solid(a) && LastDot(a) >= 0
    ensures LastDot(a) > 0 && Path(a) == [a[LastDot(a) + 1..]] + Path(a[..LastDot(a)]) && |Path(a)| > 1
  {
    assert Path(a[..LastDot(a)]) != [];
  }

  lemma LastLabelBack(a: Bytes)
    requires LastDot(a) >= 0
    ensures a == a[..LastDot(a)] + [DOT] + a[LastDot(a) + 1..]
  {
  }

  /** Equal paths mean equal domains. */
  lemma {:induction false} PathInjective(a: Bytes, b: Bytes)
    requires Solid(a) && Solid(b) && Path(a) == Path(b)
    ensures a == b
    decreases |a|
  {
    if LastDot(a) < 0 {
      PathOfOne(a);
      SingleInjective(a, b);
    } else if LastDot(b) < 0 {
      PathOfOne(b);
      SingleInjective(b, a);
    } else {
      PathOfMore(a);
      PathOfMore(b);
      HeadTail(a[LastDot(a) + 1..], b[LastDot(b) + 1..], Path(a[..LastDot(a)]), Path(b[..LastDot(b)]));
      PathInjective(a[..LastDot(a)], b[..LastDot(b)]);
      LastLabelBack(a);
      LastLabelBack(b);
    }
  }

  lemma SingleInjective(a: Bytes, b: Bytes)
    requires Solid(b) && Path(b) == [a]
    ensures a == b
  {
    if LastDot(b) < 0 {
      PathOfOne(b);
      assert [a][0] == [b][0];
    } else {
      PathOfMore(b);
    }
  }

  lemma HeadTail(x: Label, y: Label, a: seq<Label>, b: seq<Label>)
    requires [x] + a == [y] + b
    ensures x == y && a == b
  {
    assert ([x] + a)[0] == x && ([y] + b)[0] == y;
    assert ([x] + a)[1..] == a && ([y] + b)[1..] == b;
  }

  // ------------------------------------------------------------------
  // The trie
  // ------------------------------------------------------------------

  datatype Node = Node(children: map<Label, Node>, domain: Bytes)

  const EMPTY := Node(map[], [])

  function Child(node: Node, part: Label): Node {
    if part in node.children then node.children[part] else EMPTY
  }

  function Insert(node: Node, path: seq<Label>, domain: Bytes): Node
    decreases |path|
  {
    if path == [] then node.(domain := domain)
    else node.(children := node.children[path[0] := Insert(Child(node, path[0]), path[1..], domain)])
  }

  /** buildDomainTrie. */
  function Build(domains: seq<Bytes>): Node {
    if domains == [] then EMPTY
    else var d := domains[|domains| - 1]; Insert(Build(domains[..|domains| - 1]), Path(d), d)
  }

  function DomainAt(node: Node, path: seq<Label>): Bytes
    decreases |path|
  {
    if path == [] then node.domain
    else if path[0] !in node.children then []
    else DomainAt(node.children[path[0]], path[1..])
  }

  lemma NothingInEmpty(path: seq<Label>)
    ensures DomainAt(EMPTY, path) == []
  {
  }

  lemma {:induction false} InsertSets(node: Node, path: seq<Label>, domain: Bytes, q: seq<Label>)
    ensures DomainAt(Insert(node, path, domain), q) == if q == path then domain else DomainAt(node, q)
    decreases |path|
  {
    if path != [] && q != [] {
      assert q == path <==> q[0] == path[0] && q[1..] == path[1..];
      InsertSets(Child(node, path[0]), path[1..], domain, q[1..]);
      NothingInEmpty(q[1..]);
    }
  }

  ghost predicate AllSolid(domains: seq<Bytes>) {
    forall i :: 0 <= i < |domains| ==> Solid(domains[i])
  }

  /** The trie holds exactly the domains it was built from, each at its path. */
  lemma {:induction false} BuildHolds(domains: seq<Bytes>, q: seq<Label>)
    requires AllSolid(domains)
    ensures DomainAt(Build(domains), q) != [] ==> DomainAt(Build(domains), q) in domains && Path(DomainAt(Build(domains), q)) == q
    ensures forall d :: d in domains && Path(d) == q ==> DomainAt(Build(domains), q) == d
    decreases |domains|
  {
    if domains != [] {
      var n := |domains| - 1;
      var d := domains[n];
      BuildHolds(domains[..n], q);
      InsertSets(Build(domains[..n]), Path(d), d, q);
      forall x | x in domains && Path(x) == q
        ensures DomainAt(Build(domains), q) == x
      {
        if Path(d) == q {
          PathInjective(x, d);
        } else {
          assert x in domains[..n];
        }
      }
    }
  }

  // ------------------------------------------------------------------
  // Finding the domain
  // ------------------------------------------------------------------

  /** How many labels of the path the deepest domain on it takes; zero when there is none. */
  function Deepest(node: Node, path: seq<Label>): (depth: nat)
    ensures depth <= |path|
    decreases |path|
  {
    if path == [] || path[0] !in node.children then 0
    else
      var child := node.children[path[0]];
      var below := Deepest(child, path[1..]);
      if below > 0 then below + 1 else if child.domain != [] then 1 else 0
  }

  lemma {:induction false} DeepestIsDeepest(node: Node, path: seq<Label>, n: nat)
    requires 0 < n <= |path|
    ensures var d := Deepest(node, path);
            (n == d ==> DomainAt(node, path[..n]) != []) && (n > d ==> DomainAt(node, path[..n]) == [])
    decreases |path|
  {
    if path[0] in node.children {
      assert path[..n][1..] == path[1..][..n - 1];
      if n > 1 {
        DeepestIsDeepest(node.children[path[0]], path[1..], n - 1);
      }
    }
  }

  datatype Match = Match(domain: Bytes, at: int)

  /** The walk down the trie over the labels that end at `end`, with the best match so far. */
  function Walk(node: Node, path: seq<Label>, end: int, best: Option<Match>): Option<Match>
    decreases |path|
  {
    if path == [] || path[0] !in node.children then best
    else
      var child, at := node.children[path[0]], end - |path[0]|;
      Walk(child, path[1..], at - 1, if child.domain != [] then Some(Match(child.domain, at)) else best)
  }

  lemma PathStep(name: Bytes, offset: nat)
    requires 0 < offset <= |name|
    ensures var start, path := LastDot(name[..offset]), Path(name[..offset]);
            && path != [] && path[0] == name[start + 1..offset]
            && (start <= 0 ==> path[1..] == [])
            && (start > 0 ==> path[1..] == Path(name[..start]))
  {
    var rest, start := name[..offset], LastDot(name[..offset]);
    assert rest[start + 1..] == name[start + 1..offset];
    assert start > 0 ==> rest[..start] == name[..start];
  }

  /** What remains of the path at an offset of the name. */
  ghost function Ahead(name: Bytes, offset: nat): seq<Label>
    requires offset <= |name|
  {
    Path(name[..offset])
  }

  lemma AheadAtEnds(name: Bytes)
    ensures Ahead(name, |name|) == Path(name) && Ahead(name, 0) == []
  {
    assert name[..|name|] == name && name[..0] == [];
  }

  lemma WalkStep(node: Node, name: Bytes, offset: nat, best: Option<Match>, start: int, part: Label)
    requires 0 < offset <= |name| && start == LastDot(name[..offset]) && part == name[start + 1..offset]
    ensures Walk(node, Ahead(name, offset), offset, best) ==
            if part !in node.children then best
            else
              var child := node.children[part];
              Walk(child, if start < 0 then [] else Ahead(name, start), start,
                   if child.domain != [] then Some(Match(child.domain, start + 1)) else best)
  {
    PathStep(name, offset);
    WalkOn(node, Ahead(name, offset), offset, best, part, if start < 0 then [] else Ahead(name, start));
  }

  lemma WalkOn(node: Node, path: seq<Label>, end: int, best: Option<Match>, part: Label, rest: seq<Label>)
    requires path != [] && path[0] == part && path[1..] == rest
    ensures Walk(node, path, end, best) ==
            if part !in node.children then best
            else
              var child, at := node.children[part], end - |part|;
              Walk(child, rest, at - 1, if child.domain != [] then Some(Match(child.domain, at)) else best)
  {
  }

  /** findAllowedDomain, up to the position of the match. */
  method FindAllowed(root: Node, name: Bytes) returns (found: Option<Match>)
    ensures found == Walk(root, Path(name), |name|, None)
  {
    found := None;
    var node, offset: nat := root, |name|;
    AheadAtEnds(name);
    while offset > 0
      invariant offset <= |name|
      invariant Walk(root, Path(name), |name|, None) == Walk(node, Ahead(name, offset), offset, found)
      decreases offset
    {
      var start := LastDot(name[..offset]);
      var labelStart := start + 1;
      var part := name[labelStart..offset];
      WalkStep(node, name, offset, found, start, part);
      if part !in node.children {
        return;
      }
      node := node.children[part];
      if node.domain != [] {
        found := Some(Match(node.domain, labelStart));
      }
      if start < 0 {
        return;
      }
      offset := start;
    }
  }

  /** The walk returns the deepest domain on the path, and where it begins. */
  lemma {:induction false} WalkFindsDeepest(node: Node, path: seq<Label>, end: int, best: Option<Match>)
    ensures var d := Deepest(node, path);
            Walk(node, path, end, best) == if d == 0 then best else Some(Match(DomainAt(node, path[..d]), end - Span(path[..d])))
    decreases |path|
  {
    if path != [] && path[0] in node.children {
      var child, at := node.children[path[0]], end - |path[0]|;
      var better := if child.domain != [] then Some(Match(child.domain, at)) else best;
      var below := Deepest(child, path[1..]);
      WalkFindsDeepest(child, path[1..], at - 1, better);
      assert path[..below + 1][1..] == path[1..][..below];
      assert path[..1] == [path[0]];
    }
  }

  lemma {:induction false} SpanOfDomain(domain: Bytes)
    requires Solid(domain)
    ensures Span(Path(domain)) == |domain|
    decreases |domain|
  {
    if LastDot(domain) < 0 {
      PathOfOne(domain);
    } else {
      PathOfMore(domain);
      SpanOfDomain(domain[..LastDot(domain)]);
    }
  }

  lemma {:induction false} SpanGrows(path: seq<Label>, i: nat, j: nat)
    requires i <= j <= |path|
    ensures Span(path[..i]) <= Span(path[..j])
    decreases |path|
  {
    if i > 0 {
      assert path[..i][1..] == path[1..][..i - 1] && path[..j][1..] == path[1..][..j - 1];
      SpanGrows(path[1..], i - 1, j - 1);
    }
  }

  /** The match is allowed, ends the name at a label, and is the longest that does; none is missed. */
  ghost predicate IsLongest(found: Option<Match>, domains: seq<Bytes>, name: Bytes) {
    if found.None? then forall d :: d in domains ==> !LabelSuffix(d, name)
    else && found.value.domain in domains && LabelSuffix(found.value.domain, name)
         && found.value.at == |name| - |found.value.domain|
         && forall d :: d in domains && LabelSuffix(d, name) ==> |d| <= |found.value.domain|
  }

  ghost predicate FindsLongest(root: Node, domains: seq<Bytes>, name: Bytes) {
    IsLongest(Walk(root, Path(name), |name|, None), domains, name)
  }

  /** The domain found is allowed, ends the name at a label, and is the longest that does; none is missed. */
  lemma LongestAllowedDomain(domains: seq<Bytes>, name: Bytes)
    requires AllSolid(domains)
    ensures FindsLongest(Build(domains), domains, name)
  {
    var root, path := Build(domains), Path(name);
    var depth := Deepest(root, path);
    WalkFindsDeepest(root, path, |name|, None);
    forall d | d in domains && LabelSuffix(d, name)
      ensures |Path(d)| <= depth && |d| <= Span(path[..depth])
    {
      SuffixIsPathPrefix(d, name);
      BuildHolds(domains, Path(d));
      PathNotEmpty(d);
      DeepestIsDeepest(root, path, |Path(d)|);
      SpanOfDomain(d);
      SpanGrows(path, |Path(d)|, depth);
    }
    if depth > 0 {
      DeepestIsDeepest(root, path, depth);
      BuildHolds(domains, path[..depth]);
      var found := DomainAt(root, path[..depth]);
      SuffixIsPathPrefix(found, name);
      SpanOfDomain(found);
    } else {
      forall d | d in domains
        ensures !LabelSuffix(d, name)
      {
        PathNotEmpty(d);
      }
    }
  }

  lemma PathNotEmpty(domain: Bytes)
    requires domain != []
    ensures Path(domain) != []
  {
  }
}
