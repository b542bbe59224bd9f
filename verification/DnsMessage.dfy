/** DNS messages (section 4.1 of RFC 1035): header, questions and the tunnel's TXT question. */
module DnsMessage {
  import opened Octets
  import opened Enums
  import opened DnsName

  const HEADER_SIZE := 12
  const TYPE_TXT: Word16 := 16
  const TYPE_OPT: Word16 := 41
  const CLASS_IN: Word16 := 1
  const QUERY_FLAGS: Word16 := 0x0100

  datatype Header = Header(id: Word16, flags: Word16, qd: Word16, an: Word16, ns: Word16, ar: Word16)

  function HeaderBytes(h: Header): (r: Bytes)
    ensures |r| == HEADER_SIZE
  {
    Be16(h.id) + Be16(h.flags) + Be16(h.qd) + Be16(h.an) + Be16(h.ns) + Be16(h.ar)
  }

  /** parseHeader; QR is the top bit of the flags, the operation code the next four. */
  function ParseHeader(data: Bytes): Header
    requires |data| >= HEADER_SIZE
  {
    Header(Read16(data, 0), Read16(data, 2), Read16(data, 4), Read16(data, 6), Read16(data, 8), Read16(data, 10))
  }

  lemma HeaderParses(h: Header, rest: Bytes)
    ensures ParseHeader(HeaderBytes(h) + rest) == h
  {
    var d := HeaderBytes(h) + rest;
    assert d[0] == h.id / 256 && d[1] == h.id % 256 && d[2] == h.flags / 256 && d[3] == h.flags % 256;
    assert d[4] == h.qd / 256 && d[5] == h.qd % 256 && d[6] == h.an / 256 && d[7] == h.an % 256;
    assert d[8] == h.ns / 256 && d[9] == h.ns % 256 && d[10] == h.ar / 256 && d[11] == h.ar % 256;
  }

  /** isLikelyDNSRequestHeader. */
  predicate LikelyRequest(h: Header) {
    && h.flags / 32768 == 0
    && 1 <= h.qd <= 64
    && h.flags / 2048 % 16 <= 6
    && h.an <= 256 && h.ns <= 256 && h.ar <= 256
  }

  /** In bytes: a query, of an operation code up to 6, with 1 to 64 questions and at most 256 records in each section. */
  lemma LikelyExactly(data: Bytes)
    requires |data| >= HEADER_SIZE
    ensures LikelyRequest(ParseHeader(data)) ==
            (&& data[2] < 128 && data[2] / 8 % 16 <= 6
             && 1 <= data[4] as int * 256 + data[5] as int <= 64 && data[6] as int * 256 + data[7] as int <= 256
             && data[8] as int * 256 + data[9] as int <= 256 && data[10] as int * 256 + data[11] as int <= 256)
  {
    FlagByte(data[2], data[3]);
  }

  lemma FlagByte(high: Byte, low: Byte)
    ensures (high as int * 256 + low as int) / 2048 % 16 == high / 8 % 16
    ensures (high as int * 256 + low as int) / 32768 == 0 <==> high < 128
  {
    var flags := high as int * 256 + low as int;
    assert flags / 256 == high && flags / 2048 == flags / 256 / 8;
  }

  // ------------------------------------------------------------------
  // Questions
  // ------------------------------------------------------------------

  datatype Question = Question(name: Bytes, qtype: Word16, qclass: Word16)

  datatype Questions = Questions(list: seq<Question>, next: nat) | BadQuestions

  /** The question at an offset. */
  function QuestionAt(data: Bytes, offset: nat): Option<(Question, nat)> {
    var name := NameAt(data, offset, MAX_JUMPS);
    if name.BadName? || name.next + 4 > |data| then None
    else Some((Question(TextOf(name.labels), Read16(data, name.next), Read16(data, name.next + 2)), name.next + 4))
  }

  function QuestionsAt(data: Bytes, offset: nat, count: nat): Questions
    decreases count
  {
    if count == 0 then Questions([], offset)
    else
      var before := QuestionsAt(data, offset, count - 1);
      if before.BadQuestions? then BadQuestions
      else
        var q := QuestionAt(data, before.next);
        if q.None? then BadQuestions else Questions(before.list + [q.value.0], q.value.1)
  }

  lemma {:induction false} BadStaysBad(data: Bytes, offset: nat, i: nat, count: nat)
    requires i <= count && QuestionsAt(data, offset, i).BadQuestions?
    ensures QuestionsAt(data, offset, count).BadQuestions?
    decreases count
  {
    if i < count {
      BadStaysBad(data, offset, i, count - 1);
    }
  }

  lemma QuestionStep(data: Bytes, start: nat, i: nat, list: seq<Question>, offset: nat)
    requires QuestionsAt(data, start, i) == Questions(list, offset)
    ensures var q := QuestionAt(data, offset);
            QuestionsAt(data, start, i + 1) == if q.None? then BadQuestions else Questions(list + [q.value.0], q.value.1)
  {
  }

  method ParseQuestion(data: Bytes, offset: nat) returns (q: Option<(Question, nat)>)
    ensures q == QuestionAt(data, offset)
  {
    var name, next := ParseName(data, offset);
    if name.None? || next + 4 > |data| {
      return None;
    }
    return Some((Question(name.value, Read16(data, next), Read16(data, next + 2)), next + 4));
  }

  /** parseQuestions. */
  method ParseQuestions(data: Bytes, start: nat, count: nat) returns (r: Questions)
    ensures r == QuestionsAt(data, start, count)
  {
    var list: seq<Question>, offset: nat := [], start;
    for i := 0 to count
      invariant QuestionsAt(data, start, i) == Questions(list, offset)
    {
      QuestionStep(data, start, i, list, offset);
      var q := ParseQuestion(data, offset);
      if q.None? {
        BadStaysBad(data, start, i + 1, count);
        return BadQuestions;
      }
      list := list + [q.value.0];
      offset := q.value.1;
    }
    return Questions(list, offset);
  }

  datatype Request = Request(header: Header, questions: seq<Question>, questionEnd: nat)

  /** ParseDNSRequestLite. */
  function ParseRequest(data: Bytes): Option<Request> {
    if |data| < HEADER_SIZE || !LikelyRequest(ParseHeader(data)) then None
    else
      var qs := QuestionsAt(data, HEADER_SIZE, ParseHeader(data).qd);
      if qs.BadQuestions? then None else Some(Request(ParseHeader(data), qs.list, qs.next))
  }

  // ------------------------------------------------------------------
  // The tunnel question
  // ------------------------------------------------------------------

  /** Labels of at most 63 characters. */
  function TextLabels(text: Bytes): seq<Label> {
    if |text| <= MAX_LABEL then [text] else [text[..MAX_LABEL]] + TextLabels(text[MAX_LABEL..])
  }

  lemma {:induction false} TextLabelsProper(text: Bytes)
    requires text != []
    ensures Proper(TextLabels(text)) && TextLabels(text) != []
    ensures |Join(TextLabels(text))| == |text| + (|text| - 1) / MAX_LABEL
    ensures |WireLabels(TextLabels(text))| == |text| + (|text| + MAX_LABEL - 1) / MAX_LABEL
    decreases |text|
  {
    if |text| > MAX_LABEL {
      TextLabelsProper(text[MAX_LABEL..]);
    } else {
      assert TextLabels(text)[1..] == [];
    }
  }

  /** encodedQNameLen. */
  function EncodedQNameLen(chars: int, domainLen: nat): nat {
    if chars <= 0 then domainLen else chars + (chars - 1) / MAX_LABEL + 1 + domainLen
  }

  function Opt(udpSize: Word16): Bytes {
    if udpSize == 0 then [] else [0] + Be16(TYPE_OPT) + Be16(udpSize) + [0, 0, 0, 0] + Be16(0)
  }

  function QueryHeader(id: Word16, udpSize: Word16): Header {
    Header(id, QUERY_FLAGS, 1, 0, 0, if udpSize > 0 then 1 else 0)
  }

  /** The labels that carry the text, in wire form and without the final zero. */
  function Carrier(text: Bytes): Bytes {
    if text == [] then [] else TextLabelsProper(text); WireLabels(TextLabels(text))
  }

  /** BuildTunnelTXTQuestionPacketPrepared; `qname` is the wire form of the domain. */
  function BuildQuestion(id: Word16, domain: Bytes, qname: Bytes, text: Bytes, qtype: Word16, udpSize: Word16): Option<Bytes> {
    if domain == [] || qname == [] then None
    else if text != [] && EncodedQNameLen(|text|, |domain|) > MAX_NAME then None
    else
      Some(HeaderBytes(QueryHeader(id, udpSize)) + Carrier(text) + qname + Be16(qtype) + Be16(CLASS_IN) + Opt(udpSize))
  }

  /** Write bytes into a buffer that is filled from the front. */
  method Put(packet: array<Byte>, offset: nat, src: Bytes) returns (next: nat)
    requires offset + |src| <= packet.Length
    modifies packet
    ensures next == offset + |src|
    ensures packet[..next] == old(packet[..offset]) + src
    ensures forall k :: next <= k < packet.Length ==> packet[k] == old(packet[k])
  {
    next := offset + |src|;
    forall i | 0 <= i < |src| {
      packet[offset + i] := src[i];
    }
  }

  /** The loops of the builder: header, labels, domain, question and OPT record, at growing offsets. */
  method BuildQuestionPacket(id: Word16, domain: Bytes, qname: Bytes, text: Bytes, qtype: Word16, udpSize: Word16)
    returns (built: Option<Bytes>)
    ensures built == BuildQuestion(id, domain, qname, text, qtype, udpSize)
  {
    if domain == [] || qname == [] {
      return None;
    }
    if text != [] && EncodedQNameLen(|text|, |domain|) > MAX_NAME {
      return None;
    }
    var labelCount := (|text| + MAX_LABEL - 1) / MAX_LABEL;
    var qnameLen := |text| + labelCount + |qname|;
    var optLen := if udpSize > 0 then 11 else 0;
    CarrierLength(text);
    var packet := new Byte[HEADER_SIZE + qnameLen + 4 + optLen](_ => 0);
    var tail := Be16(qtype) + Be16(CLASS_IN) + Opt(udpSize);
    var header := HeaderBytes(QueryHeader(id, udpSize));
    var offset := Put(packet, 0, header);
    offset := PutLabels(packet, offset, text);
    offset := Put(packet, offset, qname);
    offset := Put(packet, offset, tail);
    assert packet[..offset] == packet[..];
    SixParts(header, Carrier(text), qname, Be16(qtype), Be16(CLASS_IN), Opt(udpSize));
    return Some(packet[..]);
  }

  lemma SixParts(a: Bytes, b: Bytes, c: Bytes, d: Bytes, e: Bytes, f: Bytes)
    ensures [] + a + b + c + (d + e + f) == a + b + c + d + e + f
  {
  }

  lemma CarrierLength(text: Bytes)
    ensures |Carrier(text)| == |text| + (|text| + MAX_LABEL - 1) / MAX_LABEL
  {
    if text != [] {
      TextLabelsProper(text);
    }
  }

  method PutLabels(packet: array<Byte>, at: nat, text: Bytes) returns (offset: nat)
    requires at + |Carrier(text)| <= packet.Length
    modifies packet
    ensures offset == at + |Carrier(text)| && packet[..offset] == old(packet[..at]) + Carrier(text)
  {
    offset := at;
    var start := 0;
    ghost var all := packet[..at] + Carrier(text);
    assert text[0..] == text;
    while start < |text|
      invariant 0 <= start <= |text| && at <= offset
      invariant offset + |Carrier(text[start..])| == at + |Carrier(text)|
      invariant packet[..offset] + Carrier(text[start..]) == all
    {
      var end := if start + MAX_LABEL > |text| then |text| else start + MAX_LABEL;
      CarrierStep(text, start, end);
      Assoc(packet[..offset], [end - start] + text[start..end], Carrier(text[end..]));
      offset := Put(packet, offset, [end - start] + text[start..end]);
      start := end;
    }
    assert text[start..] == [];
    assert packet[..offset] + [] == packet[..offset];
  }

  lemma Assoc(a: Bytes, b: Bytes, c: Bytes)
    ensures a + (b + c) == (a + b) + c
  {
  }

  lemma CarrierStep(text: Bytes, start: nat, end: nat)
    requires start < |text| && end == (if start + MAX_LABEL > |text| then |text| else start + MAX_LABEL)
    ensures Carrier(text[start..]) == [end - start] + text[start..end] + Carrier(text[end..])
  {
    var rest := text[start..];
    TextLabelsProper(rest);
    if |rest| > MAX_LABEL {
      assert rest[..MAX_LABEL] == text[start..end] && rest[MAX_LABEL..] == text[end..];
    } else {
      assert rest == text[start..end] && TextLabels(rest)[1..] == [];
    }
  }

  // ------------------------------------------------------------------
  // How much fits
  // ------------------------------------------------------------------

  lemma QNameLenGrows(a: nat, b: nat, domainLen: nat)
    requires a <= b
    ensures EncodedQNameLen(a, domainLen) <= EncodedQNameLen(b, domainLen)
  {
  }

  /** CalculateMaxEncodedQNameChars: the binary search finds how many characters fit beside a domain. */
  method MaxEncodedChars(domainLen: nat) returns (best: nat)
    ensures domainLen == 0 ==> best == MAX_NAME
    ensures domainLen > 0 ==> forall n :: 0 < n <= MAX_NAME ==> (EncodedQNameLen(n, domainLen) <= MAX_NAME <==> n <= best)
  {
    if domainLen <= 0 {
      return MAX_NAME;
    }
    var low, high := 0, MAX_NAME;
    best := 0;
    while low <= high
      invariant 0 <= low <= MAX_NAME + 1 && -1 <= high <= MAX_NAME && low <= high + 1 && best <= MAX_NAME
      invariant best == (if low == 0 then 0 else low - 1)
      invariant forall n :: 0 < n < low ==> EncodedQNameLen(n, domainLen) <= MAX_NAME
      invariant forall n :: high < n <= MAX_NAME ==> n == 0 || EncodedQNameLen(n, domainLen) > MAX_NAME
      decreases high - low
    {
      var mid := (low + high) / 2;
      forall n: nat | n <= MAX_NAME
        ensures n <= mid ==> EncodedQNameLen(n, domainLen) <= EncodedQNameLen(mid, domainLen)
        ensures mid <= n ==> EncodedQNameLen(mid, domainLen) <= EncodedQNameLen(n, domainLen)
      {
        if n <= mid {
          QNameLenGrows(n, mid, domainLen);
        } else {
          QNameLenGrows(mid, n, domainLen);
        }
      }
      if EncodedQNameLen(mid, domainLen) <= MAX_NAME {
        best := mid;
        low := mid + 1;
      } else {
        high := mid - 1;
      }
    }
  }
}
