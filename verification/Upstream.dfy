/** The upstream tunnel: a frame travels as base-36 labels in the name of a TXT question. */
module Upstream {
  import opened Octets
  import opened Enums
  import opened DnsName
  import opened DnsMessage
  import opened DomainTrie
  import Base36

  // ------------------------------------------------------------------
  // The matcher
  // ------------------------------------------------------------------

  datatype Action = FormatError | NoData | Process

  datatype Decision = Decision(action: Action, base: Bytes, labels: Bytes)

  /** stripLabelDots. */
  function StripDots(s: Bytes): Bytes {
    if s == [] then []
    else if s[|s| - 1] == DOT then StripDots(s[..|s| - 1])
    else StripDots(s[..|s| - 1]) + [s[|s| - 1]]
  }

  method StripLabelDots(s: Bytes) returns (r: Bytes)
    ensures r == StripDots(s)
  {
    r := [];
    for i := 0 to |s|
      invariant r == StripDots(s[..i])
    {
      assert s[..i + 1][..i] == s[..i];
      if s[i] != DOT {
        r := r + [s[i]];
      }
    }
    assert s[..|s|] == s;
  }

  /** normalizeParsedDomain drops one trailing dot. */
  function RequestName(q: Question): Bytes {
    TrimDot(q.name)
  }

  /** What stands before the domain, without its dots. */
  function LabelsBefore(name: Bytes, at: int): Bytes {
    if 0 < at <= |name| then StripDots(name[..at - 1]) else []
  }

  function DecideOn(qtype: Word16, minLabelLength: nat, base: Bytes, labels: Bytes): (d: Decision)
    ensures d.base == base
  {
    if qtype != TYPE_TXT || labels == [] then Decision(NoData, base, [])
    else if |labels| < minLabelLength then Decision(NoData, base, labels)
    else Decision(Process, base, labels)
  }

  /** Matcher.Match. */
  function Decide(root: Node, minLabelLength: nat, request: Request): Decision {
    if request.questions == [] then Decision(FormatError, [], [])
    else
      var name := RequestName(request.questions[0]);
      if name == [] || name == [DOT] then Decision(FormatError, [], [])
      else Judge(Walk(root, Path(name), |name|, None), request.questions[0].qtype, minLabelLength, name)
  }

  function Judge(found: Option<Match>, qtype: Word16, minLabelLength: nat, name: Bytes): Decision {
    if found.None? then Decision(NoData, [], [])
    else DecideOn(qtype, minLabelLength, found.value.domain, LabelsBefore(name, found.value.at))
  }

  /** The least length the matcher asks for. */
  function MinLabelLength(configured: int): nat {
    if configured < 1 then 3 else configured
  }

  // ------------------------------------------------------------------
  // The name of the question
  // ------------------------------------------------------------------

  /** What PrepareTunnelDomainQname lets through: lower case, no final dot, encodable. */
  ghost predicate Prepared(domain: Bytes) {
    && domain != [] && TrimDot(domain) == domain && LowerAll(domain) == domain
    && EncodeName(domain).Some?
  }

  /** The full name a frame's text travels under. */
  function TunnelName(domain: Bytes, text: Bytes): Bytes {
    Join(TextLabels(text)) + [DOT] + domain
  }

  lemma {:induction false} JoinTwo(a: seq<Label>, b: seq<Label>)
    requires a != [] && b != []
    ensures Join(a + b) == Join(a) + [DOT] + Join(b)
    decreases |a|
  {
    if |a| == 1 {
      assert (a + b)[1..] == b;
    } else {
      assert (a + b)[1..] == a[1..] + b;
      JoinTwo(a[1..], b);
    }
  }

  /** The name on the wire has the tunnel name as its text, and keeps the limits of RFC 1035. */
  lemma TunnelNameOnWire(domain: Bytes, text: Bytes)
    requires Prepared(domain) && text != []
    ensures Proper(TextLabels(text) + Split(domain))
    ensures Carrier(text) + EncodeName(domain).value == WireName(TextLabels(text) + Split(domain))
    ensures Join(TextLabels(text) + Split(domain)) == TunnelName(domain, text)
    ensures |TunnelName(domain, text)| == EncodedQNameLen(|text|, |domain|)
    ensures EncodedQNameLen(|text|, |domain|) <= MAX_NAME ==> |Carrier(text) + EncodeName(domain).value| <= 255
  {
    TextLabelsProper(text);
    SplitJoin(domain);
    WireLabelsAppend(TextLabels(text), Split(domain));
    JoinTwo(TextLabels(text), Split(domain));
    WireLength(TextLabels(text) + Split(domain));
  }

  lemma LowerNoop(s: Bytes)
    requires forall i :: 0 <= i < |s| ==> Lower(s[i]) == s[i]
    ensures LowerAll(s) == s
  {
  }

  lemma {:induction false} TextLabelsLower(text: Bytes)
    requires LowerAll(text) == text
    ensures LowerAll(Join(TextLabels(text))) == Join(TextLabels(text))
    decreases |text|
  {
    if |text| > MAX_LABEL {
      var rest := text[MAX_LABEL..];
      assert LowerAll(rest) == rest && LowerAll(text[..MAX_LABEL]) == text[..MAX_LABEL];
      TextLabelsLower(rest);
      LowerJoin(text[..MAX_LABEL], Join(TextLabels(rest)));
      assert TextLabels(text)[1..] == TextLabels(rest);
    }
  }

  lemma LowerJoin(a: Bytes, b: Bytes)
    requires LowerAll(a) == a && LowerAll(b) == b
    ensures LowerAll(a + [DOT] + b) == a + [DOT] + b
  {
  }

  lemma TunnelNameIsLower(domain: Bytes, text: Bytes)
    requires LowerAll(domain) == domain && LowerAll(text) == text
    ensures LowerAll(TunnelName(domain, text)) == TunnelName(domain, text)
  {
    TextLabelsLower(text);
    LowerJoin(Join(TextLabels(text)), domain);
  }

  // ------------------------------------------------------------------
  // Dots
  // ------------------------------------------------------------------

  lemma {:induction false} StripAppend(a: Bytes, b: Bytes)
    ensures StripDots(a + b) == StripDots(a) + StripDots(b)
    decreases |b|
  {
    if b == [] {
      assert a + b == a;
    } else {
      assert (a + b)[..|a + b| - 1] == a + b[..|b| - 1];
      StripAppend(a, b[..|b| - 1]);
    }
  }

  lemma {:induction false} StripDotless(s: Bytes)
    requires Dotless(s)
    ensures StripDots(s) == s
    decreases |s|
  {
    if s != [] {
      StripDotless(s[..|s| - 1]);
    }
  }

  lemma {:induction false} StripTextLabels(text: Bytes)
    requires Dotless(text)
    ensures StripDots(Join(TextLabels(text))) == text
    decreases |text|
  {
    if |text| <= MAX_LABEL {
      StripDotless(text);
    } else {
      var a, b := text[..MAX_LABEL], text[MAX_LABEL..];
      assert TextLabels(text)[1..] == TextLabels(b) && text == a + b;
      StripTextLabels(b);
      StripDotless(a);
      StripAppend(a + [DOT], Join(TextLabels(b)));
      StripAppend(a, [DOT]);
      assert [DOT][..0] == [];
    }
  }

  // ------------------------------------------------------------------
  // The server's view of the question
  // ------------------------------------------------------------------

  /** The same packet, but for the case of the letters in its name. */
  predicate SameButForCase(packet: Bytes, packet': Bytes, nameLength: nat) {
    var end := HEADER_SIZE + nameLength;
    && |packet'| == |packet| && end <= |packet|
    && packet'[..HEADER_SIZE] == packet[..HEADER_SIZE] && packet'[end..] == packet[end..]
    && SameText(packet'[HEADER_SIZE..end], packet[HEADER_SIZE..end])
  }

  /** The name of a built question parses to the tunnel name. */
  lemma NameParses(domain: Bytes, text: Bytes, packet': Bytes)
    requires Prepared(domain) && text != [] && LowerAll(text) == text
    requires var wire := Carrier(text) + EncodeName(domain).value;
             HEADER_SIZE + |wire| <= |packet'| && SameText(packet'[HEADER_SIZE..HEADER_SIZE + |wire|], wire)
    ensures var end := HEADER_SIZE + |Carrier(text) + EncodeName(domain).value|;
            var name := NameAt(packet', HEADER_SIZE, MAX_JUMPS);
            name.Parsed? && name.next == end && TextOf(name.labels) == TunnelName(domain, text)
  {
    TunnelNameOnWire(domain, text);
    var labels := TextLabels(text) + Split(domain);
    NameRoundTrip(packet', HEADER_SIZE, labels, MAX_JUMPS);
    JoinLower(labels);
    TunnelNameIsLower(domain, text);
    assert LowerLabels(labels) != [];
  }

  /** One question and a plausible header make a request. */
  lemma RequestOf(packet': Bytes, q: Question, end: nat)
    requires |packet'| >= HEADER_SIZE && LikelyRequest(ParseHeader(packet')) && ParseHeader(packet').qd == 1
    requires QuestionAt(packet', HEADER_SIZE) == Some((q, end))
    ensures ParseRequest(packet') == Some(Request(ParseHeader(packet'), [q], end))
  {
    assert QuestionsAt(packet', HEADER_SIZE, 0) == Questions([], HEADER_SIZE);
    QuestionStep(packet', HEADER_SIZE, 0, [], HEADER_SIZE);
    assert [] + [q] == [q];
  }

  /** A built question, with its letters in any case, parses to the tunnel name. */
  lemma QuestionParses(id: Word16, domain: Bytes, text: Bytes, qtype: Word16, udpSize: Word16, packet': Bytes)
    requires Prepared(domain) && text != [] && LowerAll(text) == text
    requires EncodedQNameLen(|text|, |domain|) <= MAX_NAME
    requires SameButForCase(BuildQuestion(id, domain, EncodeName(domain).value, text, qtype, udpSize).value, packet',
                            |Carrier(text) + EncodeName(domain).value|)
    ensures var end := HEADER_SIZE + |Carrier(text) + EncodeName(domain).value| + 4;
            ParseRequest(packet') == Some(Request(QueryHeader(id, udpSize), [Question(TunnelName(domain, text), qtype, CLASS_IN)], end))
  {
    var wire := Carrier(text) + EncodeName(domain).value;
    var end := HEADER_SIZE + |wire|;
    LayoutOf(id, domain, text, qtype, udpSize, packet');
    NameParses(domain, text, packet');
    QuestionReads(packet', end, TunnelName(domain, text), qtype);
    RequestOf(packet', Question(TunnelName(domain, text), qtype, CLASS_IN), end + 4);
  }

  lemma QuestionReads(packet': Bytes, end: nat, text: Bytes, qtype: Word16)
    requires HEADER_SIZE <= end && end + 4 <= |packet'|
    requires var name := NameAt(packet', HEADER_SIZE, MAX_JUMPS); name.Parsed? && name.next == end && TextOf(name.labels) == text
    requires Read16(packet', end) == qtype && Read16(packet', end + 2) == CLASS_IN
    ensures QuestionAt(packet', HEADER_SIZE) == Some((Question(text, qtype, CLASS_IN), end + 4))
  {
  }

  /** Where everything lies in the packet. */
  lemma LayoutOf(id: Word16, domain: Bytes, text: Bytes, qtype: Word16, udpSize: Word16, packet': Bytes)
    requires Prepared(domain) && text != [] && EncodedQNameLen(|text|, |domain|) <= MAX_NAME
    requires SameButForCase(BuildQuestion(id, domain, EncodeName(domain).value, text, qtype, udpSize).value, packet',
                            |Carrier(text) + EncodeName(domain).value|)
    ensures var wire := Carrier(text) + EncodeName(domain).value;
            var end := HEADER_SIZE + |wire|;
            && end + 4 <= |packet'| && SameText(packet'[HEADER_SIZE..end], wire)
            && Read16(packet', end) == qtype && Read16(packet', end + 2) == CLASS_IN
            && ParseHeader(packet') == QueryHeader(id, udpSize) && LikelyRequest(ParseHeader(packet'))
  {
    var h := HeaderBytes(QueryHeader(id, udpSize));
    var packet := h + (Carrier(text) + EncodeName(domain).value) + (Be16(qtype) + Be16(CLASS_IN) + Opt(udpSize));
    BuiltAs(id, domain, text, qtype, udpSize);
    CaseChanged(h, Carrier(text) + EncodeName(domain).value, qtype, Opt(udpSize), packet, packet');
    HeaderParses(QueryHeader(id, udpSize), packet'[HEADER_SIZE..]);
    QueriesAreLikely(id, udpSize);
  }

  lemma QueriesAreLikely(id: Word16, udpSize: Word16)
    ensures LikelyRequest(QueryHeader(id, udpSize))
  {
  }

  lemma BuiltAs(id: Word16, domain: Bytes, text: Bytes, qtype: Word16, udpSize: Word16)
    requires Prepared(domain) && text != [] && EncodedQNameLen(|text|, |domain|) <= MAX_NAME
    ensures BuildQuestion(id, domain, EncodeName(domain).value, text, qtype, udpSize)
         == Some(HeaderBytes(QueryHeader(id, udpSize)) + (Carrier(text) + EncodeName(domain).value)
                 + (Be16(qtype) + Be16(CLASS_IN) + Opt(udpSize)))
  {
    var h := HeaderBytes(QueryHeader(id, udpSize));
    Regroup(h, Carrier(text), EncodeName(domain).value, Be16(qtype), Be16(CLASS_IN), Opt(udpSize));
  }

  lemma Regroup(a: Bytes, b: Bytes, c: Bytes, d: Bytes, e: Bytes, f: Bytes)
    ensures a + b + c + d + e + f == a + (b + c) + (d + e + f)
  {
  }

  lemma CaseChanged(h: Bytes, wire: Bytes, qtype: Word16, opt: Bytes, packet: Bytes, packet': Bytes)
    requires |h| == HEADER_SIZE && packet == h + wire + (Be16(qtype) + Be16(CLASS_IN) + opt)
    requires SameButForCase(packet, packet', |wire|)
    ensures var end := HEADER_SIZE + |wire|;
            && end + 4 <= |packet'| && SameText(packet'[HEADER_SIZE..end], wire)
            && Read16(packet', end) == qtype && Read16(packet', end + 2) == CLASS_IN
            && packet' == h + packet'[HEADER_SIZE..]
  {
    var end, tail := HEADER_SIZE + |wire|, Be16(qtype) + Be16(CLASS_IN) + opt;
    assert packet[HEADER_SIZE..end] == wire && packet[end..] == tail && packet[..HEADER_SIZE] == h;
    assert forall i :: 0 <= i < 4 ==> packet'[end + i] == packet'[end..][i] == tail[i];
  }

  // ------------------------------------------------------------------
  // Round trip
  // ------------------------------------------------------------------

  /** The server takes the frame in. */
  predicate Received(d: Decision, frame: Bytes) {
    d.action.Process? && Base36.Decode(d.labels) == Some(frame)
  }

  /** Some allowed domain strictly extends the chosen one and ends the tunnel name. */
  ghost predicate Shadowed(allowed: seq<Bytes>, domain: Bytes, text: Bytes) {
    exists d :: d in allowed && |d| > |domain| && LabelSuffix(d, TunnelName(domain, text))
  }

  lemma DomainEndsTunnelName(domain: Bytes, text: Bytes)
    ensures LabelSuffix(domain, TunnelName(domain, text))
  {
    var name := TunnelName(domain, text);
    assert name[|name| - |domain|..] == domain;
  }

  lemma EncodedIsDotless(frame: Bytes)
    requires frame != []
    ensures Base36.Encode(frame) != [] && Dotless(Base36.Encode(frame)) && LowerAll(Base36.Encode(frame)) == Base36.Encode(frame)
  {
    Base36.EncodedIsLower(frame);
    Base36.EncodedLength(frame);
    LowerNoop(Base36.Encode(frame));
    assert Base36.DigitOf(DOT).None?;
  }

  lemma SuffixesOfOneLength(a: Bytes, b: Bytes, name: Bytes)
    requires LabelSuffix(a, name) && LabelSuffix(b, name) && |a| == |b|
    ensures a == b
  {
  }

  /** The decision on a plain TXT question rests on the match alone. */
  lemma DecisionOnName(root: Node, name: Bytes, minLength: nat, request: Request)
    requires request.questions == [Question(name, TYPE_TXT, CLASS_IN)]
    requires TrimDot(name) == name && |name| > 1
    ensures Decide(root, minLength, request) == Judge(Walk(root, Path(name), |name|, None), TYPE_TXT, minLength, name)
  {
  }

  lemma TunnelNameShape(domain: Bytes, text: Bytes)
    requires domain != [] && TrimDot(domain) == domain && text != []
    ensures var name := TunnelName(domain, text);
            && TrimDot(name) == name && |name| > |domain| + 1
            && LabelsBefore(name, |name| - |domain|) == StripDots(Join(TextLabels(text)))
  {
    var name := TunnelName(domain, text);
    TextLabelsProper(text);
    assert name[|name| - 1] == domain[|domain| - 1];
    assert name[..|name| - |domain| - 1] == Join(TextLabels(text));
  }

  /** The longest domain is the chosen one exactly unless a longer one shadows it. */
  lemma LongestOnTunnelName(found: Option<Match>, allowed: seq<Bytes>, domain: Bytes, text: Bytes)
    requires IsLongest(found, allowed, TunnelName(domain, text)) && domain in allowed
    ensures found.Some? && found.value.at == |TunnelName(domain, text)| - |found.value.domain|
    ensures found.value.domain in allowed && (found.value.domain == domain <==> !Shadowed(allowed, domain, text))
  {
    var name := TunnelName(domain, text);
    DomainEndsTunnelName(domain, text);
    var base := found.value.domain;
    if |base| == |domain| {
      SuffixesOfOneLength(base, domain, name);
    }
  }

  /** What the matcher makes of the tunnel name. */
  lemma DecisionOnTunnelName(root: Node, allowed: seq<Bytes>, domain: Bytes, text: Bytes, minLength: nat, request: Request)
    requires FindsLongest(root, allowed, TunnelName(domain, text)) && domain in allowed
    requires domain != [] && TrimDot(domain) == domain
    requires text != [] && Dotless(text) && |text| >= minLength
    requires request.questions == [Question(TunnelName(domain, text), TYPE_TXT, CLASS_IN)]
    ensures var d := Decide(root, minLength, request);
            if Shadowed(allowed, domain, text) then d.base != domain && |d.labels| < |text|
            else d == Decision(Process, domain, text)
  {
    var name := TunnelName(domain, text);
    TunnelNameShape(domain, text);
    DecisionOnName(root, name, minLength, request);
    LongestDecides(Walk(root, Path(name), |name|, None), allowed, domain, text, minLength);
  }

  lemma LongestDecides(found: Option<Match>, allowed: seq<Bytes>, domain: Bytes, text: Bytes, minLength: nat)
    requires IsLongest(found, allowed, TunnelName(domain, text)) && domain in allowed
    requires domain != [] && TrimDot(domain) == domain && text != [] && Dotless(text) && |text| >= minLength
    ensures var d := Judge(found, TYPE_TXT, minLength, TunnelName(domain, text));
            if Shadowed(allowed, domain, text) then d.base != domain && |d.labels| < |text|
            else d == Decision(Process, domain, text)
  {
    LongestOnTunnelName(found, allowed, domain, text);
    TunnelNameShape(domain, text);
    StripTextLabels(text);
    if Shadowed(allowed, domain, text) {
      FewerLabels(domain, text, found.value.at);
    }
  }

  /** A match further left leaves less of the text. */
  lemma FewerLabels(domain: Bytes, text: Bytes, at: int)
    requires domain != [] && text != [] && Dotless(text) && at < |TunnelName(domain, text)| - |domain|
    ensures |LabelsBefore(TunnelName(domain, text), at)| < |text|
  {
    var name, joined := TunnelName(domain, text), Join(TextLabels(text));
    LastOfJoined(text);
    StripTextLabels(text);
    if at > 0 {
      assert name[..at - 1] == joined[..at - 1];
      StripPrefix(joined, at - 1);
    }
  }

  lemma {:induction false} LastOfJoined(text: Bytes)
    requires text != []
    ensures var joined := Join(TextLabels(text)); joined != [] && joined[|joined| - 1] == text[|text| - 1]
    decreases |text|
  {
    if |text| > MAX_LABEL {
      LastOfJoined(text[MAX_LABEL..]);
    }
  }

  lemma StripPrefix(s: Bytes, m: nat)
    requires m < |s| && s[|s| - 1] != DOT
    ensures |StripDots(s[..m])| < |StripDots(s)|
  {
    assert s == s[..m] + s[m..];
    StripAppend(s[..m], s[m..]);
  }

  // ------------------------------------------------------------------
  // What is written, and what is taken in
  // ------------------------------------------------------------------

  /** A question is refused exactly without a domain, or when the tunnel name is longer than a name may be. */
  lemma BuiltExactly(id: Word16, domain: Bytes, text: Bytes, qtype: Word16, udpSize: Word16)
    requires Prepared(domain)
    ensures BuildQuestion(id, domain, EncodeName(domain).value, text, qtype, udpSize).Some?
       <==> EncodeName(domain).value != [] && (text == [] || |TunnelName(domain, text)| <= 253)
    ensures BuildQuestion(id, [], EncodeName(domain).value, text, qtype, udpSize).None?
  {
    if text != [] {
      TunnelNameOnWire(domain, text);
    }
  }

  /**
   The bytes of a built question: the identifier, the flags of a recursive query, one question and at most one
   additional record, the name, type and class, and last an OPT record that offers the given size.
   */
  lemma QuestionBytes(id: Word16, domain: Bytes, qname: Bytes, text: Bytes, qtype: Word16, udpSize: Word16, packet: Bytes)
    requires BuildQuestion(id, domain, qname, text, qtype, udpSize) == Some(packet)
    ensures var end := |packet| - if udpSize == 0 then 0 else 11;
            && 16 <= end
            && packet[..12] == [id / 256, id % 256, 1, 0, 0, 1, 0, 0, 0, 0, 0, if udpSize == 0 then 0 else 1]
            && packet[12..end - 4] == Carrier(text) + qname && packet[end - 4..end] == [qtype / 256, qtype % 256, 0, 1]
            && packet[end..] == if udpSize == 0 then [] else [0, 0, 41, udpSize / 256, udpSize % 256, 0, 0, 0, 0, 0, 0]
  {
    var h := HeaderBytes(QueryHeader(id, udpSize));
    Regroup(h, Carrier(text), qname, Be16(qtype), Be16(CLASS_IN), Opt(udpSize));
    CutQuestion(h, Carrier(text) + qname, Be16(qtype) + Be16(CLASS_IN), Opt(udpSize), packet);
    HeadOfQuery(id, udpSize);
    assert Opt(udpSize) == if udpSize == 0 then [] else [0, 0, 41, udpSize / 256, udpSize % 256, 0, 0, 0, 0, 0, 0];
  }

  lemma HeadOfQuery(id: Word16, udpSize: Word16)
    ensures HeaderBytes(QueryHeader(id, udpSize))
         == [id / 256, id % 256, 1, 0, 0, 1, 0, 0, 0, 0, 0, if udpSize == 0 then 0 else 1]
  {
  }

  lemma CutQuestion(head: Bytes, name: Bytes, fixed: Bytes, opt: Bytes, packet: Bytes)
    requires |head| == 12 && |fixed| == 4 && packet == head + name + (fixed + opt)
    ensures var end := |packet| - |opt|;
            && packet[..12] == head && packet[12..end - 4] == name && packet[end - 4..end] == fixed && packet[end..] == opt
  {
  }

  /** `best` is the longest allowed domain that ends the name at a label. */
  ghost predicate LongestEnding(allowed: seq<Bytes>, name: Bytes, best: Bytes) {
    best in allowed && LabelSuffix(best, name) && forall d :: d in allowed && LabelSuffix(d, name) ==> |d| <= |best|
  }

  /**
   A request is processed exactly when it asks for TXT, an allowed domain ends its name, and enough characters stand
   before the longest such domain; those characters, without the dots, are what is processed.
   */
  lemma ProcessedExactly(allowed: seq<Bytes>, configured: int, request: Request, name: Bytes, best: Bytes, d: Decision)
    requires AllSolid(allowed) && request.questions != [] && name == TrimDot(request.questions[0].name)
    requires d == Decide(Build(allowed), MinLabelLength(configured), request)
    ensures name == [] || name == [DOT] ==> d == Decision(FormatError, [], [])
    ensures name != [] && name != [DOT] ==>
              JudgedOn(allowed, request.questions[0].qtype, if configured < 1 then 3 else configured, name, best, d)
  {
    var minLength := MinLabelLength(configured);
    if name != [] && name != [DOT] {
      DecideIsJudge(Build(allowed), minLength, request, name);
      LongestAllowedDomain(allowed, name);
      JudgedExactly(Walk(Build(allowed), Path(name), |name|, None), allowed, request.questions[0].qtype, minLength, name, best);
    }
  }

  lemma DecideIsJudge(root: Node, minLength: nat, request: Request, name: Bytes)
    requires request.questions != [] && name == TrimDot(request.questions[0].name) && name != [] && name != [DOT]
    ensures Decide(root, minLength, request) == Judge(Walk(root, Path(name), |name|, None), request.questions[0].qtype, minLength, name)
  {
  }

  /** Nothing without an allowed domain; else processed exactly for TXT with enough characters before the longest. */
  ghost predicate JudgedOn(allowed: seq<Bytes>, qtype: Word16, minLength: nat, name: Bytes, best: Bytes, d: Decision) {
    && ((forall e :: e in allowed ==> !LabelSuffix(e, name)) ==> d == Decision(NoData, [], []))
    && (LongestEnding(allowed, name, best) ==>
          var before := if |name| <= |best| + 1 then [] else StripDots(name[..|name| - |best| - 1]);
          && d.base == best
          && (d.action.Process? <==> qtype == 16 && |before| >= minLength)
          && (d.action.Process? ==> d.labels == before)
          && (!d.action.Process? ==> d.action.NoData?))
  }

  lemma JudgedExactly(found: Option<Match>, allowed: seq<Bytes>, qtype: Word16, minLength: nat, name: Bytes, best: Bytes)
    requires IsLongest(found, allowed, name) && minLength >= 1
    ensures JudgedOn(allowed, qtype, minLength, name, best, Judge(found, qtype, minLength, name))
  {
    if LongestEnding(allowed, name, best) {
      assert |found.value.domain| == |best|;
      SuffixesOfOneLength(found.value.domain, best, name);
      assert name[..0] == [];
    }
  }

  /** Without a question there is nothing to judge. */
  lemma NoQuestion(root: Node, minLength: nat, request: Request)
    requires request.questions == []
    ensures Decide(root, minLength, request) == Decision(FormatError, [], [])
  {
  }

  /**
   The upstream round trip.  A question built for a frame, with the letters of its name in any case, is
   parsed, matched and decoded to that frame exactly unless another allowed domain shadows the chosen one;
   the frame then counts for the domain it was sent to.
   */
  lemma UpstreamRoundTrip(id: Word16, allowed: seq<Bytes>, domain: Bytes, frame: Bytes, configuredMin: int, udpSize: Word16, packet': Bytes)
    requires Prepared(domain) && AllSolid(allowed) && domain in allowed && frame != []
    requires var text := Base36.Encode(frame);
             && EncodedQNameLen(|text|, |domain|) <= MAX_NAME && |text| >= MinLabelLength(configuredMin)
             && SameButForCase(BuildQuestion(id, domain, EncodeName(domain).value, text, TYPE_TXT, udpSize).value, packet',
                               |Carrier(text) + EncodeName(domain).value|)
    ensures var request := ParseRequest(packet');
            && request.Some?
            && var d := Decide(Build(allowed), MinLabelLength(configuredMin), request.value);
               && (Received(d, frame) <==> !Shadowed(allowed, domain, Base36.Encode(frame)))
               && (Received(d, frame) ==> d.base == domain)
  {
    var text := Base36.Encode(frame);
    EncodedIsDotless(frame);
    QuestionParses(id, domain, text, TYPE_TXT, udpSize, packet');
    LongestAllowedDomain(allowed, TunnelName(domain, text));
    DecisionOnTunnelName(Build(allowed), allowed, domain, text, MinLabelLength(configuredMin), ParseRequest(packet').value);
    Base36.RoundTrip(frame, text);
    var d := Decide(Build(allowed), MinLabelLength(configuredMin), ParseRequest(packet').value);
    if Base36.Decode(d.labels) == Some(frame) {
      Base36.DecodeFixesLength(d.labels, frame);
    }
  }

  /** The failing case is met: "00.a" takes the byte 0, sent as "00" to "a", away from it. */
  lemma SomeDomainShadows() returns (allowed: seq<Bytes>, domain: Bytes, frame: Bytes)
    ensures Prepared(domain) && AllSolid(allowed) && domain in allowed && frame != []
    ensures var text := Base36.Encode(frame);
            && EncodedQNameLen(|text|, |domain|) <= MAX_NAME && |text| >= MinLabelLength(1)
            && Shadowed(allowed, domain, text)
  {
    var longer: Bytes := [48, 48, 46, 97];
    domain, frame := [97], [0];
    allowed := [domain, longer];
    Base36.ZeroByteIsTwoZeros();
    assert TunnelName(domain, [48, 48]) == longer;
    assert LabelSuffix(longer, longer);
  }
}
