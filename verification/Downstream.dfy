/** The downstream tunnel: a packet travels in the TXT answers of a DNS response. */
module Downstream {
  import opened Octets
  import opened Pieces
  import opened Enums
  import opened DnsName
  import opened DnsMessage
  import opened DnsResponse
  import opened VpnFrame
  import opened TxtAnswers

  // ------------------------------------------------------------------
  // Character strings of a TXT record
  // ------------------------------------------------------------------

  /** appendLengthPrefixedTXT and appendLengthPrefixedBase64TXT, for data of one string. */
  function TxtString(data: Bytes): Bytes
    requires |data| <= MAX_STRING
  {
    [|data|] + data
  }

  /** The strings from an offset on; a string that claims too much is cut. */
  function Strings(rdata: Bytes, offset: nat): Bytes
    decreases |rdata| - offset
  {
    if offset >= |rdata| then []
    else
      var size := rdata[offset];
      if offset + 1 + size > |rdata| then rdata[offset + 1..]
      else rdata[offset + 1..offset + 1 + size] + Strings(rdata, offset + 1 + size)
  }

  function TxtData(rdata: Bytes): Bytes {
    if rdata == [] then []
    else if rdata[0] as nat + 1 == |rdata| then rdata[1..]
    else Strings(rdata, 0)
  }

  /** extractTXTBytes: one pass to measure, one to copy. */
  method ExtractTxtBytes(rdata: Bytes) returns (data: Bytes)
    ensures data == TxtData(rdata)
  {
    if |rdata| == 0 {
      return [];
    }
    if rdata[0] as nat + 1 == |rdata| {
      return rdata[1..];
    }
    var total := MeasureStrings(rdata);
    var out := new Byte[total](_ => 0);
    var offset: nat, written: nat := 0, 0;
    while offset < |rdata|
      invariant written + |Strings(rdata, offset)| == total
      invariant out[..written] + Strings(rdata, offset) == Strings(rdata, 0)
      decreases |rdata| - offset
    {
      var size: nat := rdata[offset];
      var end := if offset + 1 + size > |rdata| then |rdata| else offset + 1 + size;
      StringStep(rdata, offset, end, out[..written]);
      written := Put(out, written, rdata[offset + 1..end]);
      offset := if offset + 1 + size > |rdata| then |rdata| else end;
    }
    assert out[..written] + [] == out[..];
    return out[..];
  }

  method MeasureStrings(rdata: Bytes) returns (total: nat)
    ensures total == |Strings(rdata, 0)|
  {
    total := 0;
    var offset: nat := 0;
    while offset < |rdata|
      invariant total + |Strings(rdata, offset)| == |Strings(rdata, 0)|
      decreases |rdata| - offset
    {
      var size: nat := rdata[offset];
      offset := offset + 1;
      if offset + size > |rdata| {
        total := total + (|rdata| - offset);
        return;
      }
      total := total + size;
      offset := offset + size;
    }
  }

  lemma StringStep(rdata: Bytes, offset: nat, end: nat, done: Bytes)
    requires offset < |rdata|
    requires end == if offset + 1 + rdata[offset] > |rdata| then |rdata| else offset + 1 + rdata[offset]
    ensures offset < end <= |rdata| && Strings(rdata, offset) == rdata[offset + 1..end] + Strings(rdata, end)
    ensures done + Strings(rdata, offset) == (done + rdata[offset + 1..end]) + Strings(rdata, end)
  {
    if offset + 1 + rdata[offset] > |rdata| {
      assert rdata[offset + 1..end] + [] == rdata[offset + 1..];
    }
  }

  lemma OneString(data: Bytes)
    requires |data| <= MAX_STRING
    ensures TxtData(TxtString(data)) == data
  {
  }

  /** What lies in front of the strings does not matter. */
  lemma {:induction false} StringsBehind(front: Bytes, rdata: Bytes, offset: nat)
    ensures Strings(front + rdata, |front| + offset) == Strings(rdata, offset)
    decreases |rdata| - offset
  {
    if offset < |rdata| {
      var size, all, at := rdata[offset] as nat, front + rdata, |front| + offset;
      assert all[at] == rdata[offset];
      if offset + 1 + size > |rdata| {
        assert all[at + 1..] == rdata[offset + 1..];
      } else {
        assert all[at + 1..at + 1 + size] == rdata[offset + 1..offset + 1 + size];
        StringsBehind(front, rdata, offset + 1 + size);
      }
    }
  }

  /** Character strings, each behind its length. */
  function Wrapped(parts: seq<Bytes>): Bytes
    requires forall i :: 0 <= i < |parts| ==> |parts[i]| <= MAX_STRING
  {
    if parts == [] then [] else TxtString(parts[0]) + Wrapped(parts[1..])
  }

  lemma FlattenFront(parts: seq<Bytes>)
    requires parts != []
    ensures Flatten(parts) == parts[0] + Flatten(parts[1..])
  {
    assert parts == [parts[0]] + parts[1..];
    FlattenAppend([parts[0]], parts[1..]);
    FlattenOne(parts[0]);
  }

  lemma OneStringThenRest(part: Bytes, rest: Bytes)
    requires |part| <= MAX_STRING
    ensures Strings(TxtString(part) + rest, 0) == part + Strings(rest, 0)
  {
    var all := TxtString(part) + rest;
    assert all[0] == |part| && all[1..1 + |part|] == part;
    StringsBehind(TxtString(part), rest, 0);
  }

  lemma {:induction false} StringsJoin(parts: seq<Bytes>)
    requires forall i :: 0 <= i < |parts| ==> |parts[i]| <= MAX_STRING
    ensures Strings(Wrapped(parts), 0) == Flatten(parts)
  {
    if parts != [] {
      StringsJoin(parts[1..]);
      FlattenFront(parts);
      OneStringThenRest(parts[0], Wrapped(parts[1..]));
    }
  }

  /** The first string alone, or all the strings of a record: the shortcut for one string makes no difference. */
  lemma ShortcutAgrees(rdata: Bytes)
    ensures TxtData(rdata) == Strings(rdata, 0)
  {
    if rdata != [] && rdata[0] as nat + 1 == |rdata| {
      assert rdata[1..1 + rdata[0]] == rdata[1..];
    }
  }

  /** A record of any number of character strings gives their joined contents; a last one that claims too much is cut. */
  lemma AllStringsAreJoined(parts: seq<Bytes>, size: Byte, tail: Bytes)
    requires (forall i :: 0 <= i < |parts| ==> |parts[i]| <= MAX_STRING) && |tail| < size
    ensures TxtData(Wrapped(parts)) == Flatten(parts)
    ensures TxtData(Wrapped(parts) + ([size] + tail)) == Flatten(parts) + tail
  {
    StringsJoin(parts);
    ShortcutAgrees(Wrapped(parts));
    ShortcutAgrees(Wrapped(parts) + ([size] + tail));
    CutLastString(parts, size, tail);
  }

  lemma {:induction false} CutLastString(parts: seq<Bytes>, size: Byte, tail: Bytes)
    requires (forall i :: 0 <= i < |parts| ==> |parts[i]| <= MAX_STRING) && |tail| < size
    ensures Strings(Wrapped(parts) + ([size] + tail), 0) == Flatten(parts) + tail
  {
    if parts == [] {
      CutAlone(size, tail);
    } else {
      CutLastString(parts[1..], size, tail);
      FlattenFront(parts);
      CutBehindOne(parts[0], Wrapped(parts[1..]), [size] + tail, Flatten(parts[1..]), tail);
    }
  }

  lemma CutAlone(size: Byte, tail: Bytes)
    requires |tail| < size
    ensures Strings([] + ([size] + tail), 0) == [] + tail
  {
    var last := [size] + tail;
    assert [] + last == last && last[1..] == tail;
  }

  lemma CutBehindOne(part: Bytes, wrapped: Bytes, last: Bytes, rest: Bytes, tail: Bytes)
    requires |part| <= MAX_STRING && Strings(wrapped + last, 0) == rest + tail
    ensures Strings(TxtString(part) + wrapped + last, 0) == part + rest + tail
  {
    assert TxtString(part) + wrapped + last == TxtString(part) + (wrapped + last);
    OneStringThenRest(part, wrapped + last);
  }

  // ------------------------------------------------------------------
  // Extracting
  // ------------------------------------------------------------------

  /** extractTXTAnswerPayloads. */
  function TxtPayloads(answers: seq<Record>): seq<Bytes> {
    if answers == [] then []
    else
      var n := |answers| - 1;
      TxtPayloads(answers[..n])
      + if answers[n].rtype == TYPE_TXT && TxtData(answers[n].rdata) != [] then [TxtData(answers[n].rdata)] else []
  }

  /** ExtractVPNResponse, behind the DNS parser. */
  function Extract(answers: seq<Record>, base: bool): Option<VpnPacket> {
    var raws := TxtPayloads(answers);
    if raws == [] then None else Assemble(raws, base)
  }

  // ------------------------------------------------------------------
  // Building
  // ------------------------------------------------------------------

  /** sameDNSName, for ASCII names. */
  predicate SameName(a: Bytes, b: Bytes) {
    LowerAll(TrimDot(a)) == LowerAll(TrimDot(b))
  }

  /** responseAnswerNameBytes: the question's own bytes when the answer has its name. */
  function AnswerName(request: Bytes, name: Bytes): Option<Bytes>
    requires |request| >= HEADER_SIZE
  {
    var first := NameAt(request, HEADER_SIZE, MAX_JUMPS);
    if ParseHeader(request).qd > 0 && first.Parsed? && HEADER_SIZE < first.next <= |request| && SameName(TextOf(first.labels), name)
    then Some(request[HEADER_SIZE..first.next])
    else EncodeName(name)
  }

  /** extractQuestionSection: where the questions end; zero when they cannot be walked. */
  function QuestionEnd(request: Bytes, h: Header): (end: nat)
    requires |request| >= HEADER_SIZE
    ensures end == 0 || HEADER_SIZE <= end <= |request|
  {
    SkipStaysInside(request, HEADER_SIZE, h.qd);
    var end := SkipQuestions(request, HEADER_SIZE, h.qd);
    if end.None? then 0 else end.value
  }

  lemma {:induction false} SkipStaysInside(data: Bytes, offset: nat, count: nat)
    requires offset <= |data|
    ensures var end := SkipQuestions(data, offset, count); end.Some? ==> offset <= end.value <= |data|
    decreases count
  {
    var name := SkipAt(data, offset);
    if count > 0 && name.Some? && name.value + 4 <= |data| {
      SkipMoves(data, offset);
      SkipStaysInside(data, name.value + 4, count - 1);
    }
  }

  function StringsOf(p: VpnPacket, base: bool): (r: Option<seq<Bytes>>)
    ensures r.Some? ==> Fits(r.value) && |r.value| < 65536
  {
    var cs := Chunks(p, base);
    if cs.None? then None
    else
      ChunksFit(p, base);
      Some(seq(|cs.value|, i requires 0 <= i < |cs.value| => TxtString(Armor(cs.value[i], base))))
  }

  /** What building comes to: a packet, an error, or a slice out of range. */
  datatype Built = Built(packet: Bytes) | Refused | OutOfRange

  /** BuildVPNResponsePacket. */
  function BuildVpnResponse(request: Bytes, name: Bytes, p: VpnPacket, base: bool): Built {
    var strings := StringsOf(p, base);
    if !IsValid(p.packetType) || strings.None? || |request| < HEADER_SIZE then Refused
    else
      var owner := AnswerName(request, name);
      if owner.None? then Refused
      else Outcome(BuildResponse(HeaderToAnswer(request), QuestionSection(request), owner.value, strings.value, OptToCopy(request)))
  }

  /** Without questions when they cannot be walked. */
  function HeaderToAnswer(request: Bytes): Header
    requires |request| >= HEADER_SIZE
  {
    var h := ParseHeader(request);
    if QuestionEnd(request, h) == 0 then h.(qd := 0) else h
  }

  function QuestionSection(request: Bytes): Bytes
    requires |request| >= HEADER_SIZE
  {
    var end := QuestionEnd(request, ParseHeader(request));
    if end == 0 then [] else request[HEADER_SIZE..end]
  }

  function OptToCopy(request: Bytes): Bytes
    requires |request| >= HEADER_SIZE
  {
    OptOf(request, ParseHeader(request), QuestionEnd(request, ParseHeader(request)))
  }

  function Outcome(response: Option<Bytes>): Built {
    if response.None? then OutOfRange else Built(response.value)
  }

  // ------------------------------------------------------------------
  // The request
  // ------------------------------------------------------------------

  /** One question with a plainly spelled name; an OPT record, if any, is owned by the root. */
  ghost predicate Plain(request: Bytes, labels: seq<Label>) {
    && |request| >= HEADER_SIZE && ParseHeader(request).qd == 1 && Proper(labels)
    && LiesAt(request, HEADER_SIZE, WireName(labels))
    && HEADER_SIZE + |WireName(labels)| + 4 <= |request|
    && var opt := OptOf(request, ParseHeader(request), HEADER_SIZE + |WireName(labels)| + 4);
       opt != [] ==> opt[0] == 0
  }

  lemma PlainQuestion(request: Bytes, labels: seq<Label>)
    requires Plain(request, labels)
    ensures var end := HEADER_SIZE + |WireName(labels)| + 4;
            && NameAt(request, HEADER_SIZE, MAX_JUMPS) == Parsed(LowerLabels(labels), end - 4)
            && QuestionEnd(request, ParseHeader(request)) == end
  {
    NameRoundTrip(request, HEADER_SIZE, labels, MAX_JUMPS);
    SkipAgreesWithParse(request, HEADER_SIZE, MAX_JUMPS);
    assert SkipQuestions(request, HEADER_SIZE + |WireName(labels)| + 4, 0).Some?;
  }

  /** Whatever name the answers get, it is spelled out in proper labels. */
  lemma AnswerNameIsProper(request: Bytes, labels: seq<Label>, name: Bytes) returns (owner: seq<Label>)
    requires Plain(request, labels) && AnswerName(request, name).Some?
    ensures Proper(owner) && AnswerName(request, name).value == WireName(owner)
    ensures LowerAll(TrimDot(TextOf(LowerLabels(owner)))) == LowerAll(TrimDot(name))
  {
    PlainQuestion(request, labels);
    if SameName(TextOf(LowerLabels(labels)), name) {
      owner := labels;
    } else if TrimDot(name) == [] {
      owner := [];
    } else {
      owner := Split(TrimDot(name));
      OwnText(TrimDot(name));
    }
  }

  lemma OwnText(text: Bytes)
    requires text != [] && Proper(Split(text))
    ensures LowerAll(TrimDot(TextOf(LowerLabels(Split(text))))) == LowerAll(text)
  {
    SplitJoin(text);
    JoinLower(Split(text));
    EndsInNoDot(Split(text));
    assert LowerAll(LowerAll(text)) == LowerAll(text);
  }

  lemma {:induction false} EndsInNoDot(labels: seq<Label>)
    requires Proper(labels) && labels != [] && forall i :: 0 <= i < |labels| ==> Dotless(labels[i])
    ensures Join(labels) != [] && Join(labels)[|Join(labels)| - 1] != DOT
    decreases |labels|
  {
    var first := labels[0];
    assert first[|first| - 1] != DOT;
    if |labels| > 1 {
      EndsInNoDot(labels[1..]);
      assert Join(labels) == first + [DOT] + Join(labels[1..]);
    }
  }

  /** The answers are owned by the name asked for in the call, up to the case of its letters and a final dot. */
  lemma AnswersCarryTheName(request: Bytes, labels: seq<Label>, name: Bytes, p: VpnPacket, base: bool) returns (text: Bytes)
    requires Plain(request, labels) && Normal(p)
    requires AnswerName(request, name).Some? && Chunks(p, base).Some?
    requires AllNamesFit(p, base, HEADER_SIZE + |WireName(labels)| + 4, AnswerName(request, name).value)
    ensures var built := BuildVpnResponse(request, name, p, base);
            && built.Built? && ParsePacket(built.packet).Some?
            && ParsePacket(built.packet).value.answers == TxtRecords(text, StringsOf(p, base).value)
    ensures LowerAll(TrimDot(text)) == LowerAll(TrimDot(name))
  {
    var h, end := ParseHeader(request), HEADER_SIZE + |WireName(labels)| + 4;
    var strings, opt, question := StringsOf(p, base).value, OptOf(request, h, end), request[HEADER_SIZE..end];
    PlainParts(request, labels, end, question, opt);
    var owner := AnswerNameIsProper(request, labels, name);
    FitsIffRoomy(p, base, owner, end, strings);
    BuiltOver(request, end, name, p, base, strings, opt, question);
    ResponseParses(h, question, labels, owner, strings, opt);
    text := TextOf(LowerLabels(owner));
  }

  lemma {:induction false} OptShape(data: Bytes, offset: nat, count: nat)
    requires FirstOpt(data, offset, count) != [] && FirstOpt(data, offset, count)[0] == 0
    ensures var opt := FirstOpt(data, offset, count); |opt| >= 11 && |opt| == 11 + Read16(opt, 9)
    decreases count
  {
    var end := SkipRecord(data, offset);
    SkipMoves(data, offset);
    var at := SkipAt(data, offset).value;
    if Read16(data, at) == TYPE_OPT {
      var opt := data[offset..end.value];
      assert opt[0] == data[offset] && opt[9] == data[offset + 9] && opt[10] == data[offset + 10];
    } else {
      OptShape(data, end.value, count - 1);
    }
  }

  /** A copied OPT record parses where it was put. */
  lemma OptParses(data: Bytes, offset: nat, opt: Bytes)
    requires |opt| >= 11 && opt[0] == 0 && |opt| == 11 + Read16(opt, 9) && LiesAt(data, offset, opt)
    ensures RecordsAt(data, offset, 1).Records?
  {
    assert forall i :: 0 <= i < 11 ==> data[offset + i] == data[offset..offset + |opt|][i] == opt[i];
    assert NameAt(data, offset, MAX_JUMPS) == Parsed([], offset + 1);
    assert RecordsAt(data, offset, 0) == Records([], offset);
  }

  // ------------------------------------------------------------------
  // The response
  // ------------------------------------------------------------------

  predicate ProperOpt(opt: Bytes) {
    opt != [] ==> |opt| >= 11 && opt[0] == 0 && |opt| == 11 + Read16(opt, 9)
  }

  /** One question under a spelled name, behind the header. */
  predicate OneQuestion(h: Header, question: Bytes, labels: seq<Label>) {
    && h.qd == 1 && Proper(labels)
    && |question| == |WireName(labels)| + 4 && question[..|WireName(labels)|] == WireName(labels)
  }

  /** The builder has room for what it writes, or more. */
  predicate Roomy(owner: seq<Label>, at: nat, count: nat) {
    count <= 1 || at <= MAX_POINTER || owner == []
  }

  /** With room enough, a response over one plain question parses to its answers. */
  lemma ResponseParses(h: Header, question: Bytes, labels: seq<Label>, owner: seq<Label>, payloads: seq<Bytes>, opt: Bytes)
    requires OneQuestion(h, question, labels) && Proper(owner) && Fits(payloads) && |payloads| < 65536 && ProperOpt(opt)
    requires Roomy(owner, HEADER_SIZE + |question|, |payloads|)
    ensures var built := BuildResponse(h, question, WireName(owner), payloads, opt);
            && built.Some?
            && var m := ParsePacket(built.value); m.Some? && m.value.answers == TxtRecords(TextOf(LowerLabels(owner)), payloads)
  {
    var at, name := HEADER_SIZE + |question|, WireName(owner);
    var answers := Answers(name, at, payloads);
    var head := ResponseHeader(h, |payloads|, opt);
    var room := at + Reserved(name, payloads) + |opt|;
    RoomSuffices(owner, at, payloads);
    var rest := Zeros(room - at - |answers| - |opt|);
    WholeResponse(h, question, name, payloads, opt, answers, rest);
    SectionsParse(HeaderBytes(head) + question + answers + opt + rest, head, question, labels, owner, payloads, answers, opt, rest);
  }

  /** The OPT record copied from the request follows the answers. */
  lemma OptComesLast(h: Header, question: Bytes, labels: seq<Label>, owner: seq<Label>, payloads: seq<Bytes>, opt: Bytes)
    requires OneQuestion(h, question, labels) && Proper(owner) && Fits(payloads) && |payloads| < 65536 && ProperOpt(opt)
    requires Roomy(owner, HEADER_SIZE + |question|, |payloads|)
    ensures var built := BuildResponse(h, question, WireName(owner), payloads, opt);
            && built.Some?
            && var answers := RecordsAt(built.value, HEADER_SIZE + |question|, |payloads|);
               answers.Records? && LiesAt(built.value, answers.next, opt)
  {
    var at, name := HEADER_SIZE + |question|, WireName(owner);
    var answers := Answers(name, at, payloads);
    var head := ResponseHeader(h, |payloads|, opt);
    RoomSuffices(owner, at, payloads);
    var rest := Zeros(Reserved(name, payloads) - |answers|);
    WholeResponse(h, question, name, payloads, opt, answers, rest);
    var data := HeaderBytes(head) + question + answers + opt + rest;
    SectionsLie(data, head, question, answers, opt, rest);
    AllAnswersParse(data, at, owner, payloads);
  }

  lemma WholeResponse(h: Header, question: Bytes, name: Bytes, payloads: seq<Bytes>, opt: Bytes, answers: Bytes, rest: Bytes)
    requires Fits(payloads) && |payloads| < 65536 && answers == Answers(name, HEADER_SIZE + |question|, payloads)
    requires Reserved(name, payloads) >= |answers| && rest == Zeros(Reserved(name, payloads) - |answers|)
    ensures BuildResponse(h, question, name, payloads, opt)
         == Some(HeaderBytes(ResponseHeader(h, |payloads|, opt)) + question + answers + opt + rest)
  {
    LengthOf(HeaderBytes(ResponseHeader(h, |payloads|, opt)), question, answers, opt);
  }

  lemma CutResponse(h: Header, question: Bytes, name: Bytes, payloads: seq<Bytes>, opt: Bytes, answers: Bytes, room: nat)
    requires Fits(payloads) && |payloads| < 65536 && answers == Answers(name, HEADER_SIZE + |question|, payloads)
    requires room == HEADER_SIZE + |question| + Reserved(name, payloads) + |opt| && Reserved(name, payloads) < |answers|
    ensures var wanted, built := HeaderBytes(ResponseHeader(h, |payloads|, opt)) + question + answers + opt,
                                 BuildResponse(h, question, name, payloads, opt);
            && room < |wanted|
            && (built.Some? ==> HeadsFit(room, HEADER_SIZE + |question|, name, HEADER_SIZE + |question|, payloads)
                                && built.value == wanted[..room])
  {
    var wanted := HeaderBytes(ResponseHeader(h, |payloads|, opt)) + question + answers + opt;
    LengthOf(HeaderBytes(ResponseHeader(h, |payloads|, opt)), question, answers, opt);
    assert wanted[..room] + Zeros(0) == wanted[..room];
  }

  lemma LengthOf(a: Bytes, b: Bytes, c: Bytes, d: Bytes)
    ensures |a + b + c + d| == |a| + |b| + |c| + |d|
  {
  }

  lemma SectionsParse(data: Bytes, h: Header, question: Bytes, labels: seq<Label>, owner: seq<Label>, payloads: seq<Bytes>,
                      answers: Bytes, opt: Bytes, rest: Bytes)
    requires OneQuestion(h, question, labels) && h.an == |payloads| && h.ns == 0 && h.ar == (if opt == [] then 0 else 1)
    requires Proper(owner) && Fits(payloads) && ProperOpt(opt)
    requires answers == Answers(WireName(owner), HEADER_SIZE + |question|, payloads)
    requires data == HeaderBytes(h) + question + answers + opt + rest
    ensures var m := ParsePacket(data); m.Some? && m.value.answers == TxtRecords(TextOf(LowerLabels(owner)), payloads)
  {
    SectionsLie(data, h, question, answers, opt, rest);
    SectionsInPlace(data, h, question, labels, owner, payloads, answers, opt);
  }

  lemma SectionsInPlace(data: Bytes, h: Header, question: Bytes, labels: seq<Label>, owner: seq<Label>, payloads: seq<Bytes>,
                        answers: Bytes, opt: Bytes)
    requires OneQuestion(h, question, labels) && h.an == |payloads| && h.ns == 0 && h.ar == (if opt == [] then 0 else 1)
    requires Proper(owner) && Fits(payloads) && ProperOpt(opt)
    requires answers == Answers(WireName(owner), HEADER_SIZE + |question|, payloads)
    requires |data| >= HEADER_SIZE && ParseHeader(data) == h && LiesAt(data, HEADER_SIZE, question)
    requires LiesAt(data, HEADER_SIZE + |question|, answers) && LiesAt(data, HEADER_SIZE + |question| + |answers|, opt)
    ensures var m := ParsePacket(data); m.Some? && m.value.answers == TxtRecords(TextOf(LowerLabels(owner)), payloads)
  {
    var at := HEADER_SIZE + |question|;
    QuestionInPlace(data, h.qd, question, labels);
    AnswersEndAt(data, at, owner, payloads, TextOf(LowerLabels(owner)), at + |answers|);
    OptInPlace(data, at + |answers|, h.ar, opt);
    PacketParses(data, h, at, TxtRecords(TextOf(LowerLabels(owner)), payloads), at + |answers|);
  }

  lemma OptInPlace(data: Bytes, offset: nat, count: nat, opt: Bytes)
    requires count <= 1 && ProperOpt(opt) && LiesAt(data, offset, opt)
    ensures opt != [] ==> RecordsAt(data, offset, count).Records?
  {
    if opt != [] {
      OptParses(data, offset, opt);
    }
  }

  lemma SectionsLie(data: Bytes, h: Header, question: Bytes, answers: Bytes, opt: Bytes, rest: Bytes)
    requires data == HeaderBytes(h) + question + answers + opt + rest
    ensures |data| >= HEADER_SIZE && ParseHeader(data) == h && LiesAt(data, HEADER_SIZE, question)
    ensures LiesAt(data, HEADER_SIZE + |question|, answers) && LiesAt(data, HEADER_SIZE + |question| + |answers|, opt)
  {
    Layout(HeaderBytes(h), question, answers, opt, rest, data);
    HeaderParses(h, data[HEADER_SIZE..]);
  }

  /** The sections of a message without authorities, one after the other. */
  lemma PacketParses(data: Bytes, h: Header, at: nat, answers: seq<Record>, end: nat)
    requires |data| >= HEADER_SIZE && ParseHeader(data) == h && h.qd == 1 && h.ns == 0 && h.ar <= 1
    requires QuestionsEnd(data, h.qd, at)
    requires RecordsAt(data, at, h.an) == Records(answers, end)
    requires h.ar == 1 ==> RecordsAt(data, end, h.ar).Records?
    ensures var m := ParsePacket(data); m.Some? && m.value.answers == answers
  {
    assert RecordsAt(data, end, 0) == Records([], end);
  }

  lemma Layout(h: Bytes, question: Bytes, answers: Bytes, opt: Bytes, rest: Bytes, data: Bytes)
    requires data == h + question + answers + opt + rest
    ensures data == h + data[|h|..]
    ensures LiesAt(data, |h|, question) && LiesAt(data, |h| + |question|, answers)
    ensures LiesAt(data, |h| + |question| + |answers|, opt)
  {
    assert data[..] == data;
    assert LiesAt(data, 0, h + question + answers + opt + rest);
    LiesAtParts(data, 0, h + question + answers + opt, rest);
    LiesAtParts(data, 0, h + question + answers, opt);
    LiesAtParts(data, 0, h + question, answers);
    LiesAtParts(data, 0, h, question);
  }

  /** The question section ends at `at`. */
  predicate QuestionsEnd(data: Bytes, count: nat, at: nat) {
    QuestionsAt(data, HEADER_SIZE, count).Questions? && QuestionsAt(data, HEADER_SIZE, count).next == at
  }

  lemma QuestionInPlace(data: Bytes, count: nat, question: Bytes, labels: seq<Label>)
    requires count == 1 && Proper(labels) && |question| == |WireName(labels)| + 4 && question[..|WireName(labels)|] == WireName(labels)
    requires LiesAt(data, HEADER_SIZE, question)
    ensures QuestionsEnd(data, count, HEADER_SIZE + |question|)
  {
    var wire := WireName(labels);
    assert question == wire + question[|wire|..];
    LiesAtParts(data, HEADER_SIZE, wire, question[|wire|..]);
    NameRoundTrip(data, HEADER_SIZE, labels, MAX_JUMPS);
    assert QuestionsAt(data, HEADER_SIZE, 0) == Questions([], HEADER_SIZE);
    QuestionStep(data, HEADER_SIZE, 0, [], HEADER_SIZE);
  }

  // ------------------------------------------------------------------
  // A response cut short
  // ------------------------------------------------------------------

  /** Without room for all names, building runs out of range, or what it builds does not parse. */
  lemma ResponseLost(h: Header, question: Bytes, labels: seq<Label>, owner: seq<Label>, payloads: seq<Bytes>, opt: Bytes)
    requires OneQuestion(h, question, labels) && Proper(owner) && Fits(payloads) && |payloads| < 65536 && ProperOpt(opt)
    requires !Roomy(owner, HEADER_SIZE + |question|, |payloads|)
    ensures var built := BuildResponse(h, question, WireName(owner), payloads, opt); built.Some? ==> ParsePacket(built.value).None?
  {
    var at, name := HEADER_SIZE + |question|, WireName(owner);
    var answers, head := Answers(name, at, payloads), ResponseHeader(h, |payloads|, opt);
    var room := at + Reserved(name, payloads) + |opt|;
    RoomSuffices(owner, at, payloads);
    CutResponse(h, question, name, payloads, opt, answers, room);
    if HeadsFit(room, at, name, at, payloads) {
      var wanted := HeaderBytes(head) + question + answers + opt;
      QuestionOfCut(wanted[..room], wanted, head, question, labels, answers, opt, room);
      RecordsOfCut(wanted[..room], wanted, head, question, owner, payloads, answers, opt, room, TextOf(LowerLabels(owner)));
      CutSections(wanted[..room], wanted, head, question, answers, opt, room);
      PacketFails(wanted[..room], head, at, TextOf(LowerLabels(owner)), payloads, opt, at + |answers|);
    }
  }

  lemma QuestionOfCut(data: Bytes, wanted: Bytes, h: Header, question: Bytes, labels: seq<Label>, answers: Bytes, opt: Bytes, room: nat)
    requires OneQuestion(h, question, labels)
    requires wanted == HeaderBytes(h) + question + answers + opt && HEADER_SIZE + |question| <= room < |wanted| && data == wanted[..room]
    ensures QuestionsEnd(data, h.qd, HEADER_SIZE + |question|)
  {
    CutSections(data, wanted, h, question, answers, opt, room);
    QuestionInPlace(data, h.qd, question, labels);
  }

  lemma RecordsOfCut(data: Bytes, wanted: Bytes, h: Header, question: Bytes, owner: seq<Label>, payloads: seq<Bytes>,
                     answers: Bytes, opt: Bytes, room: nat, text: Bytes)
    requires Proper(owner) && Fits(payloads) && payloads != [] && ProperOpt(opt)
    requires h.an == |payloads| && h.ar == (if opt == [] then 0 else 1) && text == TextOf(LowerLabels(owner))
    requires wanted == HeaderBytes(h) + question + answers + opt && HEADER_SIZE + |question| <= room < |wanted| && data == wanted[..room]
    requires answers == Answers(WireName(owner), HEADER_SIZE + |question|, payloads)
    requires HeadsFit(room, HEADER_SIZE + |question|, WireName(owner), HEADER_SIZE + |question|, payloads)
    ensures RecordsFail(data, HEADER_SIZE + |question|, h.an, h.ar, text, payloads, opt, HEADER_SIZE + |question| + |answers|)
  {
    CutSections(data, wanted, h, question, answers, opt, room);
    CutRecordsFail(data, HEADER_SIZE + |question|, h.ar, owner, payloads, answers, opt, text);
  }

  /** Either the answers do not parse, or they do and the OPT record behind them does not. */
  predicate RecordsFail(data: Bytes, at: nat, count: nat, extra: nat, owner: Bytes, payloads: seq<Bytes>, opt: Bytes, end: nat) {
    || RecordsAt(data, at, count).BadRecords?
    || (&& opt != [] && RecordsAt(data, at, count) == Records(TxtRecords(owner, payloads), end)
        && RecordsAt(data, end, extra).BadRecords?)
  }

  lemma CutRecordsFail(data: Bytes, at: nat, extra: nat, owner: seq<Label>, payloads: seq<Bytes>, answers: Bytes, opt: Bytes, text: Bytes)
    requires Proper(owner) && Fits(payloads) && payloads != [] && ProperOpt(opt) && (opt != [] ==> extra == 1)
    requires answers == Answers(WireName(owner), at, payloads) && at <= |data| < at + |answers| + |opt|
    requires HeadsFit(|data|, at, WireName(owner), at, payloads)
    requires |data| < at + |answers| ==> data[at..] == answers[..|data| - at]
    requires |data| >= at + |answers| ==> LiesAt(data, at, answers) && data[at + |answers|..] == opt[..|data| - at - |answers|]
    requires text == TextOf(LowerLabels(owner))
    ensures RecordsFail(data, at, |payloads|, extra, text, payloads, opt, at + |answers|)
  {
    if |data| < at + |answers| {
      CutAnswersFail(data, at, owner, payloads);
    } else {
      CutBehindAnswers(data, at, extra, owner, payloads, answers, opt, text);
    }
  }

  lemma CutBehindAnswers(data: Bytes, at: nat, extra: nat, owner: seq<Label>, payloads: seq<Bytes>, answers: Bytes, opt: Bytes, text: Bytes)
    requires Proper(owner) && Fits(payloads) && ProperOpt(opt) && answers == Answers(WireName(owner), at, payloads)
    requires LiesAt(data, at, answers) && |data| < at + |answers| + |opt| && extra == 1
    requires data[at + |answers|..] == opt[..|data| - at - |answers|]
    requires text == TextOf(LowerLabels(owner))
    ensures RecordsFail(data, at, |payloads|, extra, text, payloads, opt, at + |answers|)
  {
    var end := at + |answers|;
    AnswersEndAt(data, at, owner, payloads, text, end);
    OptIsCut(data, at, |payloads|, extra, text, payloads, opt, end);
  }

  lemma AnswersEndAt(data: Bytes, at: nat, owner: seq<Label>, payloads: seq<Bytes>, text: Bytes, end: nat)
    requires Proper(owner) && Fits(payloads) && LiesAt(data, at, Answers(WireName(owner), at, payloads))
    requires text == TextOf(LowerLabels(owner)) && end == at + |Answers(WireName(owner), at, payloads)|
    ensures RecordsAt(data, at, |payloads|) == Records(TxtRecords(text, payloads), end)
  {
    AllAnswersParse(data, at, owner, payloads);
  }

  lemma OptIsCut(data: Bytes, at: nat, count: nat, extra: nat, owner: Bytes, payloads: seq<Bytes>, opt: Bytes, end: nat)
    requires RecordsAt(data, at, count) == Records(TxtRecords(owner, payloads), end) && extra == 1
    requires opt != [] && ProperOpt(opt) && end <= |data| < end + |opt| && data[end..] == opt[..|data| - end]
    ensures RecordsFail(data, at, count, extra, owner, payloads, opt, end)
  {
    CutOptFails(data, end, extra, opt);
  }

  lemma PacketFails(data: Bytes, h: Header, at: nat, owner: Bytes, payloads: seq<Bytes>, opt: Bytes, end: nat)
    requires |data| >= HEADER_SIZE && ParseHeader(data) == h && h.qd == 1 && h.ns == 0 && h.ar == if opt == [] then 0 else 1
    requires QuestionsEnd(data, h.qd, at)
    requires RecordsFail(data, at, h.an, h.ar, owner, payloads, opt, end)
    ensures ParsePacket(data).None?
  {
    assert RecordsAt(data, end, 0) == Records([], end);
  }

  lemma CutSections(data: Bytes, wanted: Bytes, h: Header, question: Bytes, answers: Bytes, opt: Bytes, room: nat)
    requires wanted == HeaderBytes(h) + question + answers + opt && HEADER_SIZE + |question| <= room < |wanted| && data == wanted[..room]
    ensures |data| == room && ParseHeader(data) == h && LiesAt(data, HEADER_SIZE, question)
    ensures var at := HEADER_SIZE + |question|;
            && (room < at + |answers| ==> data[at..] == answers[..room - at])
            && (room >= at + |answers| ==> LiesAt(data, at, answers) && data[at + |answers|..] == opt[..room - at - |answers|])
  {
    var head, at := HeaderBytes(h) + question, HEADER_SIZE + |question|;
    assert wanted[..at] == head && wanted[at..] == answers + opt;
    assert data[..at] == head && data[at..] == (answers + opt)[..room - at];
    assert data == HeaderBytes(h) + data[HEADER_SIZE..] by {
      assert data[..HEADER_SIZE] == head[..HEADER_SIZE] == HeaderBytes(h);
    }
    HeaderParses(h, data[HEADER_SIZE..]);
    assert data[HEADER_SIZE..at] == data[..at][HEADER_SIZE..] == question;
    if room >= at + |answers| {
      assert data[at..at + |answers|] == data[at..][..|answers|] == answers;
      assert data[at + |answers|..] == data[at..][|answers|..];
    }
  }

  lemma CutOptFails(data: Bytes, offset: nat, count: nat, opt: Bytes)
    requires count == 1 && opt != [] && ProperOpt(opt) && offset <= |data| < offset + |opt| && data[offset..] == opt[..|data| - offset]
    ensures RecordsAt(data, offset, count).BadRecords?
  {
    assert forall i :: 0 <= i < |data| - offset ==> data[offset + i] == data[offset..][i] == opt[i];
    assert RecordsAt(data, offset, 0) == Records([], offset);
    assert offset < |data| ==> NameAt(data, offset, MAX_JUMPS) == Parsed([], offset + 1);
  }

  // ------------------------------------------------------------------
  // Round trip
  // ------------------------------------------------------------------

  lemma {:induction false} PayloadMember(answers: seq<Record>, raw: Bytes)
    ensures raw in TxtPayloads(answers) <==> exists r :: r in answers && r.rtype == TYPE_TXT && TxtData(r.rdata) != [] && TxtData(r.rdata) == raw
    decreases |answers|
  {
    if answers != [] {
      var n := |answers| - 1;
      PayloadMember(answers[..n], raw);
      assert answers == answers[..n] + [answers[n]];
    }
  }

  /** The same records, in any order and number. */
  predicate Rearranged(answers: seq<Record>, answers': seq<Record>) {
    (forall r :: r in answers' ==> r in answers) && (forall r :: r in answers ==> r in answers')
  }

  /** Chunk `i` as a record. */
  function ChunkRecord(owner: Bytes, p: VpnPacket, base: bool, i: nat): Record
    requires Chunks(p, base).Some? && i < |Chunks(p, base).value|
  {
    ChunksFit(p, base);
    TxtRecord(owner, TxtString(Armor(Chunks(p, base).value[i], base)))
  }

  lemma ChunkRecordHolds(owner: Bytes, p: VpnPacket, base: bool, i: nat)
    requires Chunks(p, base).Some? && i < |Chunks(p, base).value|
    ensures var r, raw := ChunkRecord(owner, p, base, i), Armor(Chunks(p, base).value[i], base);
            r.rtype == TYPE_TXT && TxtData(r.rdata) == raw && raw != []
  {
    ChunksFit(p, base);
    ArmorRoundTrip(Chunks(p, base).value[i], base);
    OneString(Armor(Chunks(p, base).value[i], base));
  }

  lemma AnswersArrive(owner: Bytes, p: VpnPacket, base: bool, answers: seq<Record>)
    requires StringsOf(p, base).Some? && Rearranged(TxtRecords(owner, StringsOf(p, base).value), answers)
    ensures Arrivals(Chunks(p, base).value, TxtPayloads(answers), base)
  {
    var cs, records := Chunks(p, base).value, TxtRecords(owner, StringsOf(p, base).value);
    assert forall i :: 0 <= i < |cs| ==> records[i] == ChunkRecord(owner, p, base, i);
    forall raw | raw in TxtPayloads(answers)
      ensures exists i :: 0 <= i < |cs| && raw == Armor(cs[i], base)
    {
      PayloadMember(answers, raw);
      var r :| r in answers && r.rtype == TYPE_TXT && TxtData(r.rdata) != [] && TxtData(r.rdata) == raw;
      assert r in records;
      var i :| 0 <= i < |records| && records[i] == r;
      ChunkRecordHolds(owner, p, base, i);
    }
    forall i | 0 <= i < |cs|
      ensures Armor(cs[i], base) in TxtPayloads(answers)
    {
      ChunkRecordHolds(owner, p, base, i);
      assert records[i] in answers;
      PayloadMember(answers, Armor(cs[i], base));
    }
  }

  /** Answers as built, or rearranged when there are several, give back the packet. */
  lemma ExtractInverts(owner: Bytes, p: VpnPacket, base: bool, answers: seq<Record>)
    requires Normal(p) && StringsOf(p, base).Some?
    requires var records := TxtRecords(owner, StringsOf(p, base).value);
             answers == records || (Rearranged(records, answers) && |records| > 1)
    ensures Extract(answers, base) == Some(p)
  {
    ChunksFit(p, base);
    AnswersArrive(owner, p, base, answers);
    if OneAnswer(p, base) {
      SingleExtract(owner, p, base, answers);
    } else {
      AnswersInAnyOrder(p, base, TxtPayloads(answers));
      var cs := Chunks(p, base).value;
      assert Armor(cs[0], base) in TxtPayloads(answers);
    }
  }

  lemma SingleExtract(owner: Bytes, p: VpnPacket, base: bool, answers: seq<Record>)
    requires Normal(p) && OneAnswer(p, base) && StringsOf(p, base).Some?
    requires answers == TxtRecords(owner, StringsOf(p, base).value)
    ensures Extract(answers, base) == Some(p)
  {
    var frame := HeaderOf(p) + p.payload;
    ChunkRecordHolds(owner, p, base, 0);
    assert answers == [ChunkRecord(owner, p, base, 0)];
    assert answers[..0] == [];
    assert TxtPayloads(answers) == [Armor(frame, base)];
    ArmorRoundTrip(frame, base);
    FrameRoundTrip(p);
  }

  /** The client parses the response and gets the packet back. */
  predicate Recovered(built: Built, p: VpnPacket, base: bool) {
    && built.Built?
    && var m := ParsePacket(built.packet);
       m.Some? && Extract(m.value.answers, base) == Some(p)
  }

  ghost predicate RecoveredInAnyOrder(built: Built, p: VpnPacket, base: bool)
    requires Recovered(built, p, base)
  {
    var answers := ParsePacket(built.packet).value.answers;
    forall answers' :: Rearranged(answers, answers') ==> Extract(answers', base) == Some(p)
  }

  /** There is one answer, a pointer reaches the first of several, or their name is the root. */
  predicate AllNamesFit(p: VpnPacket, base: bool, questionEnd: nat, answerName: Bytes) {
    OneAnswer(p, base) || questionEnd <= MAX_POINTER || answerName == [0]
  }

  /**
   The downstream round trip.  The response built for a plain request gives back the packet exactly if
   there is room for the names of all answers, and then in any order and number of copies when the packet
   took several.
   */
  lemma DownstreamRoundTrip(request: Bytes, labels: seq<Label>, name: Bytes, p: VpnPacket, base: bool)
    requires Plain(request, labels) && Normal(p)
    requires AnswerName(request, name).Some? && Chunks(p, base).Some?
    ensures var built, end := BuildVpnResponse(request, name, p, base), QuestionEnd(request, ParseHeader(request));
            && end == HEADER_SIZE + |WireName(labels)| + 4
            && (Recovered(built, p, base) <==> AllNamesFit(p, base, end, AnswerName(request, name).value))
            && (Recovered(built, p, base) && !OneAnswer(p, base) ==> RecoveredInAnyOrder(built, p, base))
            && (built.Built? ==> AnswersRequest(built.packet, request, |Chunks(p, base).value|, OptToCopy(request), end))
  {
    PlainQuestion(request, labels);
    PacketComesBack(request, labels, name, p, base);
    if BuildVpnResponse(request, name, p, base).Built? {
      ResponseAnswersRequest(request, name, p, base);
    }
  }

  lemma PacketComesBack(request: Bytes, labels: seq<Label>, name: Bytes, p: VpnPacket, base: bool)
    requires Plain(request, labels) && Normal(p)
    requires AnswerName(request, name).Some? && Chunks(p, base).Some?
    ensures var built, end := BuildVpnResponse(request, name, p, base), HEADER_SIZE + |WireName(labels)| + 4;
            && (Recovered(built, p, base) <==> AllNamesFit(p, base, end, AnswerName(request, name).value))
            && (Recovered(built, p, base) && !OneAnswer(p, base) ==> RecoveredInAnyOrder(built, p, base))
  {
    var h, end := ParseHeader(request), HEADER_SIZE + |WireName(labels)| + 4;
    var strings, opt, question := StringsOf(p, base).value, OptOf(request, h, end), request[HEADER_SIZE..end];
    PlainParts(request, labels, end, question, opt);
    var owner := AnswerNameIsProper(request, labels, name);
    FitsIffRoomy(p, base, owner, end, strings);
    BuiltOver(request, end, name, p, base, strings, opt, question);
    RoomDecides(h, question, labels, owner, p, base, strings, opt);
  }

  lemma PlainParts(request: Bytes, labels: seq<Label>, end: nat, question: Bytes, opt: Bytes)
    requires Plain(request, labels) && end == HEADER_SIZE + |WireName(labels)| + 4
    requires question == request[HEADER_SIZE..end] && opt == OptOf(request, ParseHeader(request), end)
    ensures OneQuestion(ParseHeader(request), question, labels) && ProperOpt(opt)
    ensures QuestionEnd(request, ParseHeader(request)) == end && |question| == end - HEADER_SIZE
  {
    PlainQuestion(request, labels);
    OptOfPlain(request, labels);
    assert question[..|WireName(labels)|] == WireName(labels);
  }

  lemma FitsIffRoomy(p: VpnPacket, base: bool, owner: seq<Label>, end: nat, strings: seq<Bytes>)
    requires Proper(owner) && Chunks(p, base).Some? && StringsOf(p, base) == Some(strings)
    ensures AllNamesFit(p, base, end, WireName(owner)) <==> Roomy(owner, end, |strings|)
  {
    ChunksFit(p, base);
    NeverTwoBytes(owner);
  }

  lemma RoomDecides(h: Header, question: Bytes, labels: seq<Label>, owner: seq<Label>, p: VpnPacket, base: bool, strings: seq<Bytes>, opt: Bytes)
    requires OneQuestion(h, question, labels) && Proper(owner) && ProperOpt(opt) && Normal(p)
    requires StringsOf(p, base) == Some(strings)
    ensures var built := Outcome(BuildResponse(h, question, WireName(owner), strings, opt));
            && (Recovered(built, p, base) <==> Roomy(owner, HEADER_SIZE + |question|, |strings|))
            && (Recovered(built, p, base) && !OneAnswer(p, base) ==> RecoveredInAnyOrder(built, p, base))
  {
    if Roomy(owner, HEADER_SIZE + |question|, |strings|) {
      ResponseParses(h, question, labels, owner, strings, opt);
      AnswersExtract(TextOf(LowerLabels(owner)), p, base);
    } else {
      ResponseLost(h, question, labels, owner, strings, opt);
    }
  }

  lemma BuiltOver(request: Bytes, end: nat, name: Bytes, p: VpnPacket, base: bool, strings: seq<Bytes>, opt: Bytes, question: Bytes)
    requires |request| >= HEADER_SIZE && IsValid(p.packetType) && AnswerName(request, name).Some? && StringsOf(p, base) == Some(strings)
    requires var h := ParseHeader(request); 0 < end == QuestionEnd(request, h) && opt == OptOf(request, h, end)
    requires question == request[HEADER_SIZE..end]
    ensures BuildVpnResponse(request, name, p, base)
         == Outcome(BuildResponse(ParseHeader(request), question, AnswerName(request, name).value, strings, opt))
  {
  }

  lemma AnswersExtract(text: Bytes, p: VpnPacket, base: bool)
    requires Normal(p) && StringsOf(p, base).Some?
    ensures var records := TxtRecords(text, StringsOf(p, base).value);
            && Extract(records, base) == Some(p)
            && (!OneAnswer(p, base) ==> forall answers' :: Rearranged(records, answers') ==> Extract(answers', base) == Some(p))
  {
    var records := TxtRecords(text, StringsOf(p, base).value);
    ExtractInverts(text, p, base, records);
    ChunksFit(p, base);
    forall answers' | !OneAnswer(p, base) && Rearranged(records, answers')
      ensures Extract(answers', base) == Some(p)
    {
      ExtractInverts(text, p, base, answers');
    }
  }

  // A question that ends behind the reach of a pointer.

  const LONG_LABELS: seq<Label> := seq(256, _ => seq(63, _ => 97))

  lemma {:induction false} FullLabelsLength(labels: seq<Label>)
    requires forall i :: 0 <= i < |labels| ==> |labels[i]| == 63
    ensures |WireName(labels)| == 64 * |labels| + 1
  {
    if labels != [] {
      WireNameUnfolds(labels);
      FullLabelsLength(labels[1..]);
    }
  }

  /** A request under a name of 256 full labels. */
  lemma LongRequest() returns (request: Bytes)
    ensures Plain(request, LONG_LABELS) && HEADER_SIZE + |WireName(LONG_LABELS)| + 4 > MAX_POINTER
  {
    var h, wire, tail: Bytes := Header(0, 0x0100, 1, 0, 0, 0), WireName(LONG_LABELS), [0, 16, 0, 1];
    request := HeaderBytes(h) + wire + tail;
    FullLabelsLength(LONG_LABELS);
    assert request == HeaderBytes(h) + request[HEADER_SIZE..];
    HeaderParses(h, request[HEADER_SIZE..]);
    assert request[HEADER_SIZE..HEADER_SIZE + |wire|] == wire;
  }

  /** The failing case is met: a packet of 300 bytes is lost behind such a request. */
  lemma LongQuestionLosesPacket(base: bool) returns (request: Bytes, name: Bytes, p: VpnPacket)
    ensures Plain(request, LONG_LABELS) && Normal(p) && AnswerName(request, name).Some? && Chunks(p, base).Some?
    ensures !Recovered(BuildVpnResponse(request, name, p, base), p, base)
  {
    request := LongRequest();
    name := TextOf(LowerLabels(LONG_LABELS));
    p := VpnPacket(1, PACKET_STREAM_DATA, 0, 1, 0, 0, 0, 0, seq(300, _ => 0));
    PlainQuestion(request, LONG_LABELS);
    CutCount(p.payload[FirstPart(p.packetType, base)..], base);
    DownstreamRoundTrip(request, LONG_LABELS, name, p, base);
    NeverTwoBytes(LONG_LABELS);
  }

  // ------------------------------------------------------------------
  // The response answers its request
  // ------------------------------------------------------------------

  /** Identifier, operation code, RD and CD are the request's; QR and RA are set, AA, TC and the response code are not. */
  predicate Answers16(packet: Bytes, request: Bytes)
    requires |packet| >= HEADER_SIZE && |request| >= HEADER_SIZE
  {
    && packet[..2] == request[..2]
    && packet[2] / 128 == 1 && packet[2] / 8 % 16 == request[2] / 8 % 16 && packet[2] / 2 % 4 == 0 && packet[2] % 2 == request[2] % 2
    && packet[3] / 128 == 1 && packet[3] / 32 % 4 == 0 && packet[3] / 16 % 2 == request[3] / 16 % 2 && packet[3] % 16 == 0
  }

  lemma FlagsOfResponse(flags: Word16, high: Byte, low: Byte)
    requires flags == high as int * 256 + low
    ensures var f := ResponseFlags(flags);
            && f / 256 / 128 == 1 && f / 256 / 8 % 16 == high / 8 % 16 && f / 256 / 2 % 4 == 0 && f / 256 % 2 == high % 2
            && f % 256 / 128 == 1 && f % 256 / 32 % 4 == 0 && f % 256 / 16 % 2 == low / 16 % 2 && f % 256 % 16 == 0
  {
    var code, rd, cd := high / 8 % 16, high % 2, low / 16 % 2;
    FlagBits(flags, high, low);
    assert ResponseFlags(flags) == 256 * (128 + 8 * code + rd) + (128 + 16 * cd);
    HighByte(code, rd);
  }

  lemma FlagBits(flags: Word16, high: Byte, low: Byte)
    requires flags == high as int * 256 + low
    ensures flags / 2048 % 16 == high / 8 % 16 && flags / 256 % 2 == high % 2 && flags / 16 % 2 == low / 16 % 2
  {
    assert flags / 256 == high;
    assert flags / 2048 == flags / 256 / 8;
    assert flags / 16 == high * 16 + low / 16;
  }

  lemma HighByte(code: nat, rd: nat)
    requires code < 16 && rd < 2
    ensures var b := 128 + 8 * code + rd; b / 128 == 1 && b / 8 % 16 == code && b / 2 % 4 == 0 && b % 2 == rd
  {
  }

  lemma HeaderOfResponse(request: Bytes, count: Word16, opt: Bytes)
    requires |request| >= HEADER_SIZE
    ensures var head := HeaderBytes(ResponseHeader(HeaderToAnswer(request), count, opt));
            && |head| == HEADER_SIZE && Answers16(head, request)
            && Read16(head, 4) == HeaderToAnswer(request).qd && Read16(head, 6) == count && Read16(head, 8) == 0
            && Read16(head, 10) == if opt == [] then 0 else 1
  {
    var h := ParseHeader(request);
    FlagsOfResponse(h.flags, request[2], request[3]);
    assert HeaderBytes(ResponseHeader(HeaderToAnswer(request), count, opt))[..2] == Be16(h.id) == request[..2];
  }

  /** Whatever is built begins with a header and the question section, however much of the rest is cut. */
  lemma FrontOfResponse(h: Header, question: Bytes, name: Bytes, payloads: seq<Bytes>, opt: Bytes)
    requires Fits(payloads) && |payloads| < 65536
    ensures var built := BuildResponse(h, question, name, payloads, opt);
            built.Some? ==> HeaderBytes(ResponseHeader(h, |payloads|, opt)) + question <= built.value
  {
    var front := HeaderBytes(ResponseHeader(h, |payloads|, opt)) + question;
    var room := HEADER_SIZE + |question| + Reserved(name, payloads) + |opt|;
    ClipFront(front, Answers(name, HEADER_SIZE + |question|, payloads) + opt, room);
    assert front + (Answers(name, HEADER_SIZE + |question|, payloads) + opt)
        == front + Answers(name, HEADER_SIZE + |question|, payloads) + opt;
  }

  lemma ClipFront(front: Bytes, rest: Bytes, room: nat)
    requires |front| <= room
    ensures front <= Clip(room, front + rest)
  {
    assert (front + rest)[..|front|] == front;
  }

  /**
   A response that answers its request: identifier and flags as they must be, the request's question
   section when it ends at `end` and none when it cannot be walked, `count` answers, no authorities, and an
   additional record exactly if the request had an OPT record.
   */
  predicate AnswersRequest(packet: Bytes, request: Bytes, count: nat, opt: Bytes, end: nat) {
    && |request| >= HEADER_SIZE && |packet| >= HEADER_SIZE && Answers16(packet, request)
    && Read16(packet, 6) == count && Read16(packet, 8) == 0
    && Read16(packet, 10) == (if opt == [] then 0 else 1)
    && if end == 0 then packet[4..6] == [0, 0]
       else HEADER_SIZE <= end <= |request| && end <= |packet|
            && packet[4..6] == request[4..6] && packet[HEADER_SIZE..end] == request[HEADER_SIZE..end]
  }

  /** Every response that is built answers its request. */
  lemma ResponseAnswersRequest(request: Bytes, name: Bytes, p: VpnPacket, base: bool)
    requires BuildVpnResponse(request, name, p, base).Built?
    ensures Chunks(p, base).Some? && |request| >= HEADER_SIZE
    ensures AnswersRequest(BuildVpnResponse(request, name, p, base).packet, request, |Chunks(p, base).value|,
                           OptToCopy(request), QuestionEnd(request, ParseHeader(request)))
  {
    var count, packet := |Chunks(p, base).value|, BuildVpnResponse(request, name, p, base).packet;
    FrontOfBuilt(request, name, p, base);
    BuiltBehindFront(packet, request, count, OptToCopy(request), QuestionEnd(request, ParseHeader(request)));
  }

  lemma FrontOfBuilt(request: Bytes, name: Bytes, p: VpnPacket, base: bool)
    requires BuildVpnResponse(request, name, p, base).Built?
    ensures |request| >= HEADER_SIZE && Chunks(p, base).Some? && |Chunks(p, base).value| < 65536
    ensures HeaderBytes(ResponseHeader(HeaderToAnswer(request), |Chunks(p, base).value|, OptToCopy(request))) + QuestionSection(request)
         <= BuildVpnResponse(request, name, p, base).packet
  {
    FrontOfResponse(HeaderToAnswer(request), QuestionSection(request), AnswerName(request, name).value, StringsOf(p, base).value,
                    OptToCopy(request));
  }

  lemma BuiltBehindFront(packet: Bytes, request: Bytes, count: Word16, opt: Bytes, end: nat)
    requires |request| >= HEADER_SIZE && end == QuestionEnd(request, ParseHeader(request))
    requires HeaderBytes(ResponseHeader(HeaderToAnswer(request), count, opt)) + QuestionSection(request) <= packet
    ensures AnswersRequest(packet, request, count, opt, end)
  {
    HeaderOfResponse(request, count, opt);
    HeadAnswers(packet, HeaderBytes(ResponseHeader(HeaderToAnswer(request), count, opt)), request, count, QuestionSection(request), opt, end);
  }

  lemma HeadAnswers(packet: Bytes, head: Bytes, request: Bytes, count: Word16, question: Bytes, opt: Bytes, end: nat)
    requires |head| == HEADER_SIZE && |request| >= HEADER_SIZE && head + question <= packet && Answers16(head, request)
    requires Read16(head, 6) == count && Read16(head, 8) == 0 && Read16(head, 10) == if opt == [] then 0 else 1
    requires end == 0 || HEADER_SIZE <= end <= |request|
    requires question == if end == 0 then [] else request[HEADER_SIZE..end]
    requires Read16(head, 4) == if end == 0 then 0 else Read16(request, 4)
    ensures AnswersRequest(packet, request, count, opt, end)
  {
    FrontReads(packet, head, question, request);
    assert request[4..6] == Be16(Read16(request, 4));
  }

  lemma FrontReads(packet: Bytes, head: Bytes, question: Bytes, request: Bytes)
    requires |head| == HEADER_SIZE && |request| >= HEADER_SIZE && head + question <= packet && Answers16(head, request)
    ensures |packet| >= HEADER_SIZE + |question| && Answers16(packet, request)
    ensures Read16(packet, 4) == Read16(head, 4) && Read16(packet, 6) == Read16(head, 6)
    ensures Read16(packet, 8) == Read16(head, 8) && Read16(packet, 10) == Read16(head, 10)
    ensures packet[4..6] == Be16(Read16(head, 4)) && packet[HEADER_SIZE..HEADER_SIZE + |question|] == question
  {
    assert forall i :: 0 <= i < HEADER_SIZE ==> packet[i] == (head + question)[i] == head[i];
    assert packet[..2] == head[..2];
    assert packet[HEADER_SIZE..HEADER_SIZE + |question|] == (head + question)[HEADER_SIZE..];
  }

  lemma OptOfPlain(request: Bytes, labels: seq<Label>)
    requires Plain(request, labels)
    ensures var opt := OptOf(request, ParseHeader(request), HEADER_SIZE + |WireName(labels)| + 4);
            ProperOpt(opt)
  {
    var h, end := ParseHeader(request), HEADER_SIZE + |WireName(labels)| + 4;
    if OptOf(request, h, end) != [] {
      OptShape(request, SkipRecords(request, SkipRecords(request, end, h.an).value, h.ns).value, h.ar);
    }
  }
}
