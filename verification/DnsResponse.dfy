/** DNS responses with TXT answers: records, skipping, the copied OPT record, building and parsing. */
module DnsResponse {
  import opened Octets
  import opened Pieces
  import opened Enums
  import opened DnsName
  import opened DnsMessage

  // ------------------------------------------------------------------
  // Resource records
  // ------------------------------------------------------------------

  datatype Record = Record(name: Bytes, rtype: Word16, rclass: Word16, ttl: nat, rdata: Bytes)

  datatype Records = Records(list: seq<Record>, next: nat) | BadRecords

  function RecordAt(data: Bytes, offset: nat): Option<(Record, nat)> {
    var name := NameAt(data, offset, MAX_JUMPS);
    if name.BadName? || name.next + 10 > |data| then None
    else
      var at := name.next;
      var end := at + 10 + Read16(data, at + 8);
      if end > |data| then None
      else
        Some((Record(TextOf(name.labels), Read16(data, at), Read16(data, at + 2),
                     Read16(data, at + 4) * 65536 + Read16(data, at + 6), data[at + 10..end]), end))
  }

  function RecordsAt(data: Bytes, offset: nat, count: nat): Records
    decreases count
  {
    if count == 0 then Records([], offset)
    else
      var before := RecordsAt(data, offset, count - 1);
      if before.BadRecords? then BadRecords
      else
        var r := RecordAt(data, before.next);
        if r.None? then BadRecords else Records(before.list + [r.value.0], r.value.1)
  }

  lemma RecordStep(data: Bytes, start: nat, i: nat, list: seq<Record>, offset: nat)
    requires RecordsAt(data, start, i) == Records(list, offset)
    ensures var r := RecordAt(data, offset);
            RecordsAt(data, start, i + 1) == if r.None? then BadRecords else Records(list + [r.value.0], r.value.1)
  {
  }

  lemma {:induction false} BadStaysBad(data: Bytes, offset: nat, i: nat, count: nat)
    requires i <= count && RecordsAt(data, offset, i).BadRecords?
    ensures RecordsAt(data, offset, count).BadRecords?
    decreases count
  {
    if i < count {
      BadStaysBad(data, offset, i, count - 1);
    }
  }

  method ParseRecord(data: Bytes, offset: nat) returns (r: Option<(Record, nat)>)
    ensures r == RecordAt(data, offset)
  {
    var name, at := ParseName(data, offset);
    if name.None? || at + 10 > |data| {
      return None;
    }
    var end := at + 10 + Read16(data, at + 8);
    if end > |data| {
      return None;
    }
    return Some((Record(name.value, Read16(data, at), Read16(data, at + 2),
                        Read16(data, at + 4) * 65536 + Read16(data, at + 6), data[at + 10..end]), end));
  }

  /** parseResourceRecords. */
  method ParseRecords(data: Bytes, start: nat, count: nat) returns (r: Records)
    ensures r == RecordsAt(data, start, count)
  {
    var list: seq<Record>, offset: nat := [], start;
    for i := 0 to count
      invariant RecordsAt(data, start, i) == Records(list, offset)
    {
      RecordStep(data, start, i, list, offset);
      var rr := ParseRecord(data, offset);
      if rr.None? {
        BadStaysBad(data, start, i + 1, count);
        return BadRecords;
      }
      list := list + [rr.value.0];
      offset := rr.value.1;
    }
    return Records(list, offset);
  }

  datatype Message = Message(header: Header, questions: seq<Question>, answers: seq<Record>)

  /** ParsePacket; authorities and additional records must parse too. */
  function ParsePacket(data: Bytes): Option<Message> {
    if |data| < HEADER_SIZE then None
    else
      var h := ParseHeader(data);
      var qs := QuestionsAt(data, HEADER_SIZE, h.qd);
      if qs.BadQuestions? then None
      else
        var answers := RecordsAt(data, qs.next, h.an);
        if answers.BadRecords? then None
        else
          var authorities := RecordsAt(data, answers.next, h.ns);
          if authorities.BadRecords? then None
          else if RecordsAt(data, authorities.next, h.ar).BadRecords? then None
          else Some(Message(h, qs.list, answers.list))
  }

  // ------------------------------------------------------------------
  // Skipping
  // ------------------------------------------------------------------

  /** skipName: a pointer ends the name in place. */
  function SkipAt(data: Bytes, offset: nat): Option<nat>
    decreases |data| - offset
  {
    if offset >= |data| then None
    else if data[offset] == 0 then Some(offset + 1)
    else if data[offset] >= 192 then if offset + 1 >= |data| then None else Some(offset + 2)
    else if data[offset] > MAX_LABEL then None
    else SkipAt(data, offset + 1 + data[offset])
  }

  /** Skipping ends where parsing ends. */
  lemma {:induction false} SkipAgreesWithParse(data: Bytes, offset: nat, jumps: nat)
    requires NameAt(data, offset, jumps).Parsed?
    ensures SkipAt(data, offset) == Some(NameAt(data, offset, jumps).next)
    decreases |data| - offset
  {
    if data[offset] != 0 && data[offset] < 192 {
      SkipAgreesWithParse(data, offset + 1 + data[offset], jumps);
    }
  }

  method SkipName(data: Bytes, start: nat) returns (end: Option<nat>)
    ensures end == SkipAt(data, start)
  {
    var offset: nat := start;
    while true
      invariant SkipAt(data, start) == SkipAt(data, offset)
      decreases |data| - offset
    {
      if offset >= |data| {
        return None;
      }
      var length := data[offset];
      if length == 0 {
        return Some(offset + 1);
      }
      if length >= 192 {
        return if offset + 1 >= |data| then None else Some(offset + 2);
      }
      if length > MAX_LABEL {
        return None;
      }
      offset := offset + length + 1;
    }
  }

  /** The end of `count` questions, or of `count` records. */
  function SkipQuestions(data: Bytes, offset: nat, count: nat): Option<nat>
    decreases count
  {
    if count == 0 then Some(offset)
    else
      var name := SkipAt(data, offset);
      if name.None? || name.value + 4 > |data| then None else SkipQuestions(data, name.value + 4, count - 1)
  }

  function SkipRecord(data: Bytes, offset: nat): Option<nat> {
    var name := SkipAt(data, offset);
    if name.None? || name.value + 10 > |data| then None
    else
      var end := name.value + 10 + Read16(data, name.value + 8);
      if end > |data| then None else Some(end)
  }

  function SkipRecords(data: Bytes, offset: nat, count: nat): Option<nat>
    decreases count
  {
    if count == 0 then Some(offset)
    else
      var end := SkipRecord(data, offset);
      if end.None? then None else SkipRecords(data, end.value, count - 1)
  }

  /** findFirstOPTRecordInAdditional: the bytes of the first OPT record, if the walk reaches one. */
  function FirstOpt(data: Bytes, offset: nat, count: nat): (opt: Bytes)
    ensures opt != [] ==> |opt| >= 11
    decreases count
  {
    if count == 0 then []
    else
      var end := SkipRecord(data, offset);
      if end.None? then []
      else
        SkipMoves(data, offset);
        if Read16(data, SkipAt(data, offset).value) == TYPE_OPT then data[offset..end.value]
        else FirstOpt(data, end.value, count - 1)
  }

  lemma {:induction false} SkipMoves(data: Bytes, offset: nat)
    ensures SkipAt(data, offset).Some? ==> offset < SkipAt(data, offset).value
    decreases |data| - offset
  {
    if offset < |data| && 0 < data[offset] <= MAX_LABEL {
      SkipMoves(data, offset + 1 + data[offset]);
    }
  }

  /** findOPTRecordRange, as the bytes that are copied. */
  function OptOf(request: Bytes, h: Header, questionEnd: nat): Bytes {
    if h.ar == 0 || questionEnd < HEADER_SIZE || questionEnd > |request| then []
    else
      var answers := SkipRecords(request, questionEnd, h.an);
      if answers.None? then []
      else
        var authorities := SkipRecords(request, answers.value, h.ns);
        if authorities.None? then [] else FirstOpt(request, authorities.value, h.ar)
  }

  predicate IsRecord(data: Bytes, start: nat, r: Record, end: nat) {
    RecordAt(data, start) == Some((r, end))
  }

  /** The records lie one behind another: record `j` from `ends[j]` to `ends[j + 1]`. */
  ghost predicate Chain(data: Bytes, list: seq<Record>, ends: seq<nat>) {
    && |ends| == |list| + 1
    && forall j :: 0 <= j < |list| ==> IsRecord(data, ends[j], list[j], ends[j + 1])
  }

  lemma {:induction false} RecordsLieInAChain(data: Bytes, offset: nat, count: nat, list: seq<Record>, next: nat) returns (ends: seq<nat>)
    requires RecordsAt(data, offset, count) == Records(list, next)
    ensures Chain(data, list, ends) && |list| == count && ends[0] == offset && ends[count] == next
    decreases count
  {
    if count == 0 {
      ends := [offset];
    } else {
      var before, at, r := LastRecord(data, offset, count, list, next);
      var most := RecordsLieInAChain(data, offset, count - 1, before, at);
      ChainGrows(data, before, most, r, next);
      ends := most + [next];
    }
  }

  lemma LastRecord(data: Bytes, offset: nat, count: nat, list: seq<Record>, next: nat) returns (before: seq<Record>, at: nat, r: Record)
    requires count > 0 && RecordsAt(data, offset, count) == Records(list, next)
    ensures RecordsAt(data, offset, count - 1) == Records(before, at) && IsRecord(data, at, r, next) && list == before + [r]
  {
    before, at := RecordsAt(data, offset, count - 1).list, RecordsAt(data, offset, count - 1).next;
    r := RecordAt(data, at).value.0;
  }

  lemma ChainGrows(data: Bytes, list: seq<Record>, ends: seq<nat>, r: Record, end: nat)
    requires Chain(data, list, ends) && IsRecord(data, ends[|list|], r, end)
    ensures Chain(data, list + [r], ends + [end])
  {
  }

  /** Where a record parses, skipping it ends where parsing does, and finds its type. */
  lemma SkipAgreesWithRecord(data: Bytes, offset: nat)
    requires RecordAt(data, offset).Some?
    ensures SkipRecord(data, offset) == Some(RecordAt(data, offset).value.1)
    ensures SkipAt(data, offset).Some? && SkipAt(data, offset).value + 2 <= |data|
            && Read16(data, SkipAt(data, offset).value) == RecordAt(data, offset).value.0.rtype
    ensures offset < RecordAt(data, offset).value.1 <= |data|
  {
    SkipAgreesWithParse(data, offset, MAX_JUMPS);
    SkipMoves(data, offset);
  }

  /** `k` is the place of the first OPT record, or the length of a list without one. */
  predicate FirstOptPlace(list: seq<Record>, k: nat) {
    k <= |list| && (forall j :: 0 <= j < k ==> list[j].rtype != TYPE_OPT) && (k < |list| ==> list[k].rtype == TYPE_OPT)
  }

  /** The walk stops at an OPT record and goes on behind any other. */
  lemma OptHere(data: Bytes, offset: nat, r: Record, end: nat, count: nat)
    requires count > 0 && IsRecord(data, offset, r, end)
    ensures offset < end <= |data|
    ensures FirstOpt(data, offset, count) == if r.rtype == TYPE_OPT then data[offset..end] else FirstOpt(data, end, count - 1)
  {
    SkipAgreesWithRecord(data, offset);
  }

  /** `found[j]` is what the walk finds from record `j` on. */
  ghost predicate Walk(data: Bytes, list: seq<Record>, ends: seq<nat>, found: seq<Bytes>) {
    && |ends| == |found| == |list| + 1 && found[|list|] == []
    && forall j :: 0 <= j < |list| ==> Found(data, list[j], ends[j], ends[j + 1], found[j], found[j + 1])
  }

  predicate Found(data: Bytes, r: Record, start: nat, end: nat, here: Bytes, behind: Bytes) {
    start < end <= |data| && here == if r.rtype == TYPE_OPT then data[start..end] else behind
  }

  lemma {:induction false} WalkFindsFirst(data: Bytes, list: seq<Record>, ends: seq<nat>, found: seq<Bytes>, k: nat, i: nat)
    requires Walk(data, list, ends, found) && FirstOptPlace(list, k) && i <= k
    ensures k == |list| ==> found[i] == []
    ensures k < |list| ==> ends[k] < ends[k + 1] <= |data| && found[i] == data[ends[k]..ends[k + 1]]
    decreases k - i
  {
    if i < |list| {
      assert Found(data, list[i], ends[i], ends[i + 1], found[i], found[i + 1]);
      if i < k {
        WalkFindsFirst(data, list, ends, found, k, i + 1);
      }
    }
  }

  /** What the walk finds from each record on. */
  lemma {:induction false} WalkOfChain(data: Bytes, list: seq<Record>, ends: seq<nat>, i: nat) returns (found: seq<Bytes>)
    requires Chain(data, list, ends) && i <= |list|
    ensures Walk(data, list[i..], ends[i..], found) && found[0] == FirstOpt(data, ends[i], |list| - i)
    decreases |list| - i
  {
    if i == |list| {
      found := [[]];
    } else {
      assert IsRecord(data, ends[i], list[i], ends[i + 1]);
      var rest := WalkOfChain(data, list, ends, i + 1);
      OptHere(data, ends[i], list[i], ends[i + 1], |list| - i);
      found := WalkOne(data, list[i..], ends[i..], rest, FirstOpt(data, ends[i], |list| - i));
    }
  }

  lemma WalkOne(data: Bytes, list: seq<Record>, ends: seq<nat>, rest: seq<Bytes>, here: Bytes) returns (found: seq<Bytes>)
    requires |list| > 0 && |ends| == |list| + 1 && Walk(data, list[1..], ends[1..], rest)
    requires Found(data, list[0], ends[0], ends[1], here, rest[0])
    ensures found == [here] + rest && Walk(data, list, ends, found)
  {
    found := [here] + rest;
    forall j | 0 <= j < |list| ensures Found(data, list[j], ends[j], ends[j + 1], found[j], found[j + 1]) {
      if j > 0 {
        assert Found(data, list[1..][j - 1], ends[1..][j - 1], ends[1..][j], rest[j - 1], rest[j]);
      }
    }
  }

  /** Of records that parse, the bytes copied are exactly those of the first OPT record, and none without one. */
  lemma FirstOptIsFirst(data: Bytes, offset: nat, count: nat, list: seq<Record>, next: nat, k: nat) returns (ends: seq<nat>)
    requires RecordsAt(data, offset, count) == Records(list, next) && FirstOptPlace(list, k)
    ensures Chain(data, list, ends) && |list| == count && ends[0] == offset
    ensures k == count ==> FirstOpt(data, offset, count) == []
    ensures k < count ==> ends[k] < ends[k + 1] <= |data| && FirstOpt(data, offset, count) == data[ends[k]..ends[k + 1]]
  {
    ends := RecordsLieInAChain(data, offset, count, list, next);
    FirstOfChain(data, list, ends, offset, k);
  }

  lemma FirstOfChain(data: Bytes, list: seq<Record>, ends: seq<nat>, offset: nat, k: nat)
    requires Chain(data, list, ends) && ends[0] == offset && FirstOptPlace(list, k)
    ensures k == |list| ==> FirstOpt(data, offset, |list|) == []
    ensures k < |list| ==> ends[k] < ends[k + 1] <= |data| && FirstOpt(data, offset, |list|) == data[ends[k]..ends[k + 1]]
  {
    var found := WalkOfChain(data, list, ends, 0);
    FirstOfAll(data, list, ends, found, k);
  }

  lemma FirstOfAll(data: Bytes, list: seq<Record>, ends: seq<nat>, found: seq<Bytes>, k: nat)
    requires |ends| == |list| + 1 && Walk(data, list[0..], ends[0..], found) && FirstOptPlace(list, k)
    ensures k == |list| ==> found[0] == []
    ensures k < |list| ==> ends[k] < ends[k + 1] <= |data| && found[0] == data[ends[k]..ends[k + 1]]
  {
    assert list[0..] == list && ends[0..] == ends;
    WalkFindsFirst(data, list, ends, found, k, 0);
  }

  /** Skipping records that parse ends where they end. */
  lemma {:induction false} SkipOfChain(data: Bytes, list: seq<Record>, ends: seq<nat>, i: nat)
    requires Chain(data, list, ends) && i <= |list|
    ensures SkipRecords(data, ends[i], |list| - i) == Some(ends[|list|])
    decreases |list| - i
  {
    if i < |list| {
      assert IsRecord(data, ends[i], list[i], ends[i + 1]);
      SkipHere(data, ends[i], list[i], ends[i + 1], |list| - i);
      SkipOfChain(data, list, ends, i + 1);
    }
  }

  lemma SkipHere(data: Bytes, offset: nat, r: Record, end: nat, count: nat)
    requires count > 0 && IsRecord(data, offset, r, end)
    ensures SkipRecords(data, offset, count) == SkipRecords(data, end, count - 1)
  {
    SkipAgreesWithRecord(data, offset);
  }

  lemma SkipParsed(data: Bytes, offset: nat, count: nat, list: seq<Record>, next: nat)
    requires RecordsAt(data, offset, count) == Records(list, next)
    ensures SkipRecords(data, offset, count) == Some(next)
  {
    var ends := RecordsLieInAChain(data, offset, count, list, next);
    SkipOfChain(data, list, ends, 0);
  }

  /**
   * When a request's records parse, what is copied is the bytes of the first OPT record of its additional section,
   * and nothing when there is none.
   */
  lemma OptOfParsed(request: Bytes, h: Header, at: nat, answers: Records, authorities: Records, extra: Records, k: nat)
    returns (ends: seq<nat>)
    requires HEADER_SIZE <= at <= |request| && answers.Records? && authorities.Records? && extra.Records?
    requires answers == RecordsAt(request, at, h.an) && authorities == RecordsAt(request, answers.next, h.ns)
    requires extra == RecordsAt(request, authorities.next, h.ar) && FirstOptPlace(extra.list, k)
    ensures Chain(request, extra.list, ends) && |extra.list| == h.ar && ends[0] == authorities.next
    ensures k == h.ar ==> OptOf(request, h, at) == []
    ensures k < h.ar ==> ends[k] < ends[k + 1] <= |request| && OptOf(request, h, at) == request[ends[k]..ends[k + 1]]
  {
    ends := FirstOptIsFirst(request, authorities.next, h.ar, extra.list, extra.next, k);
    SkipParsed(request, at, h.an, answers.list, answers.next);
    SkipParsed(request, answers.next, h.ns, authorities.list, authorities.next);
    OptIsFirstOpt(request, h, at, answers.next, authorities.next);
  }

  lemma OptIsFirstOpt(request: Bytes, h: Header, at: nat, answersEnd: nat, authoritiesEnd: nat)
    requires HEADER_SIZE <= at <= |request| && SkipRecords(request, at, h.an) == Some(answersEnd)
    requires SkipRecords(request, answersEnd, h.ns) == Some(authoritiesEnd)
    ensures OptOf(request, h, at) == FirstOpt(request, authoritiesEnd, h.ar)
  {
  }

  // ------------------------------------------------------------------
  // Building
  // ------------------------------------------------------------------

  /** buildResponseFlags without an error code: QR and RA set, the operation code, RD and CD copied. */
  function ResponseFlags(flags: Word16): Word16 {
    0x8080 + flags / 2048 % 16 * 2048 + flags / 256 % 2 * 256 + flags / 16 % 2 * 16
  }

  /** The fixed fields of a TXT record behind its name. */
  function TxtHead(payload: Bytes): Bytes
    requires |payload| < 65536
  {
    Be16(TYPE_TXT) + Be16(CLASS_IN) + [0, 0, 0, 0] + Be16(|payload|)
  }

  function TxtTail(payload: Bytes): Bytes
    requires |payload| < 65536
  {
    TxtHead(payload) + payload
  }

  const MAX_POINTER := 0x3FFF // the largest offset a compression pointer holds

  function Pointer(at: nat): Bytes
    requires at <= MAX_POINTER
  {
    Be16(0xC000 + at)
  }

  predicate Fits(payloads: seq<Bytes>) {
    forall i :: 0 <= i < |payloads| ==> |payloads[i]| < 65536
  }

  /** The first answer spells its name out; the others point to it when a pointer reaches that far. */
  function Owner(name: Bytes, at: nat, n: nat): Bytes {
    if n > 0 && at <= MAX_POINTER then Pointer(at) else name
  }

  /** The answer records, one by one. */
  function Rendered(name: Bytes, at: nat, payloads: seq<Bytes>): seq<Bytes>
    requires Fits(payloads)
  {
    seq(|payloads|, i requires 0 <= i < |payloads| => Owner(name, at, i) + TxtTail(payloads[i]))
  }

  function Answers(name: Bytes, at: nat, payloads: seq<Bytes>): Bytes
    requires Fits(payloads)
  {
    Flatten(Rendered(name, at, payloads))
  }

  /** What the builder reserves for the answers: two bytes for every name but the first, wherever they start. */
  function Reserved(name: Bytes, payloads: seq<Bytes>): nat
    decreases |payloads|
  {
    if payloads == [] then 0
    else
      var n := |payloads| - 1;
      Reserved(name, payloads[..n]) + (if n > 0 then 2 else |name|) + 10 + |payloads[n]|
  }

  /** The bytes that find room. */
  function Clip(room: nat, s: Bytes): Bytes {
    if |s| <= room then s else s[..room]
  }

  /** The fixed fields of every answer find room; a name or a payload that does not is cut. */
  predicate HeadsFit(room: nat, start: nat, name: Bytes, at: nat, payloads: seq<Bytes>)
    requires Fits(payloads)
  {
    payloads == [] || start + |Answers(name, at, payloads)| - |payloads[|payloads| - 1]| <= room
  }

  function Zeros(n: nat): Bytes {
    seq(n, _ => 0)
  }

  /** BuildTXTResponsePacket: nothing when a fixed field falls outside the reserved room. */
  function BuildResponse(h: Header, question: Bytes, name: Bytes, payloads: seq<Bytes>, opt: Bytes): Option<Bytes>
    requires Fits(payloads) && |payloads| < 65536
  {
    var at := HEADER_SIZE + |question|;
    var room := at + Reserved(name, payloads) + |opt|;
    var wanted := HeaderBytes(ResponseHeader(h, |payloads|, opt)) + question + Answers(name, at, payloads) + opt;
    if !HeadsFit(room, at, name, at, payloads) then None
    else Some(Clip(room, wanted) + Zeros(room - |Clip(room, wanted)|))
  }

  function ResponseHeader(h: Header, answers: Word16, opt: Bytes): Header {
    Header(h.id, ResponseFlags(h.flags), h.qd, answers, 0, if opt == [] then 0 else 1)
  }

  method BuildResponsePacket(h: Header, question: Bytes, name: Bytes, payloads: seq<Bytes>, opt: Bytes) returns (built: Option<Bytes>)
    requires Fits(payloads) && |payloads| < 65536
    ensures built == BuildResponse(h, question, name, payloads, opt)
  {
    built := BuildBehind(HeaderBytes(ResponseHeader(h, |payloads|, opt)) + question, name, payloads, opt);
  }

  method BuildBehind(before: Bytes, name: Bytes, payloads: seq<Bytes>, opt: Bytes) returns (built: Option<Bytes>)
    requires Fits(payloads)
    ensures var at := |before|;
            var room := at + Reserved(name, payloads) + |opt|;
            var wanted := before + Answers(name, at, payloads) + opt;
            built == if !HeadsFit(room, at, name, at, payloads) then None
                     else Some(Clip(room, wanted) + Zeros(room - |Clip(room, wanted)|))
  {
    var reserved := AnswersLength(name, payloads);
    var packet := new Byte[|before| + reserved + |opt|](_ => 0);
    var offset := Put(packet, 0, before);
    assert packet[..offset] == before;
    var ok: bool;
    offset, ok := PutAnswers(packet, offset, name, |before|, payloads);
    if !ok {
      return None;
    }
    var response := Finish(packet, offset, opt, before + Answers(name, |before|, payloads));
    return Some(response);
  }

  /** The OPT record comes last; what is left of the packet stays zero. */
  method Finish(packet: array<Byte>, start: nat, opt: Bytes, ghost whole: Bytes) returns (response: Bytes)
    requires start <= packet.Length && packet[..start] == Clip(packet.Length, whole)
    requires forall k :: start <= k < packet.Length ==> packet[k] == 0
    modifies packet
    ensures response == Clip(packet.Length, whole + opt) + Zeros(packet.Length - |Clip(packet.Length, whole + opt)|)
  {
    ClipTwice(packet.Length, whole, opt);
    var offset := Copy(packet, start, opt);
    assert packet[offset..] == Zeros(packet.Length - offset);
    assert packet[..] == packet[..offset] + packet[offset..];
    return packet[..];
  }

  /** The sum that sizes the packet. */
  method AnswersLength(name: Bytes, payloads: seq<Bytes>) returns (length: nat)
    ensures length == Reserved(name, payloads)
  {
    length := 0;
    for i := 0 to |payloads|
      invariant length == Reserved(name, payloads[..i])
    {
      assert payloads[..i + 1][..i] == payloads[..i];
      var nameLen := if |payloads| > 1 && i > 0 then 2 else |name|;
      length := length + nameLen + 10 + |payloads[i]|;
    }
    assert payloads[..|payloads|] == payloads;
  }

  /** The answer loop of the builder, at growing offsets; not `ok` when a fixed field falls outside the packet. */
  method PutAnswers(packet: array<Byte>, start: nat, name: Bytes, at: nat, payloads: seq<Bytes>) returns (offset: nat, ok: bool)
    requires Fits(payloads) && start <= packet.Length
    modifies packet
    ensures ok <==> HeadsFit(packet.Length, start, name, at, payloads)
    ensures ok ==> offset <= packet.Length
    ensures ok ==> packet[..offset] == Clip(packet.Length, old(packet[..start]) + Answers(name, at, payloads))
    ensures forall k :: offset <= k < packet.Length ==> packet[k] == old(packet[k])
  {
    offset := start;
    ghost var before, rendered := packet[..start], Rendered(name, at, payloads);
    for i := 0 to |payloads|
      invariant offset <= packet.Length
      invariant packet[..offset] == Clip(packet.Length, before + Flatten(rendered[..i]))
      invariant i > 0 ==> start + |Flatten(rendered[..i])| - |payloads[i - 1]| <= packet.Length
      invariant forall k :: offset <= k < packet.Length ==> packet[k] == old(packet[k])
    {
      FlattenSplits(rendered, i);
      HeadsBefore(name, at, payloads, i);
      Assoc3(before, Flatten(rendered[..i]), rendered[i]);
      var owner := if i > 0 && at <= MAX_POINTER then Pointer(at) else name;
      offset, ok := PutAnswer(packet, offset, owner, payloads[i], before + Flatten(rendered[..i]));
      if !ok {
        return;
      }
    }
    assert rendered[..|payloads|] == rendered;
    ok := true;
  }

  /** The fixed fields of one answer end before those of the last do. */
  lemma HeadsBefore(name: Bytes, at: nat, payloads: seq<Bytes>, i: nat)
    requires Fits(payloads) && i < |payloads|
    ensures |Flatten(Rendered(name, at, payloads)[..i])| + |Owner(name, at, i)| + 10
         <= |Answers(name, at, payloads)| - |payloads[|payloads| - 1]|
  {
    var pieces, n := Rendered(name, at, payloads), |payloads| - 1;
    TailLength(payloads[i]);
    TailLength(payloads[n]);
    BeforeLast(pieces, i);
  }

  lemma BeforeLast(pieces: seq<Bytes>, i: nat)
    requires i < |pieces|
    ensures var n := |pieces| - 1;
            && |Flatten(pieces)| == |Flatten(pieces[..n])| + |pieces[n]|
            && (i < n ==> |Flatten(pieces[..i])| + |pieces[i]| <= |Flatten(pieces[..n])|)
  {
    var front := pieces[..|pieces| - 1];
    if i < |front| {
      FlattenSplits(front, i);
      assert front[..i] == pieces[..i];
    }
  }

  /** One answer behind `whole`, of which the packet holds what found room. */
  method PutAnswer(packet: array<Byte>, start: nat, owner: Bytes, payload: Bytes, ghost whole: Bytes) returns (offset: nat, ok: bool)
    requires |payload| < 65536 && start <= packet.Length && packet[..start] == Clip(packet.Length, whole)
    modifies packet
    ensures ok <==> |whole| + |owner| + 10 <= packet.Length
    ensures ok ==> offset <= packet.Length && packet[..offset] == Clip(packet.Length, whole + (owner + TxtTail(payload)))
    ensures start <= offset && forall k :: offset <= k < packet.Length ==> packet[k] == old(packet[k])
  {
    ghost var room := packet.Length;
    ClipTwice(room, whole, owner);
    offset := Copy(packet, start, owner);
    if offset + 10 > packet.Length {
      return offset, false;
    }
    ghost var named := packet[..offset];
    offset := Put(packet, offset, TxtHead(payload));
    ClipTwice(room, whole + owner + TxtHead(payload), payload);
    offset := Copy(packet, offset, payload);
    Assoc4(whole, owner, TxtHead(payload), payload);
    ok := true;
  }

  /** The built-in copy: as much of the source as the packet has room for. */
  method Copy(packet: array<Byte>, offset: nat, src: Bytes) returns (next: nat)
    requires offset <= packet.Length
    modifies packet
    ensures next == offset + |Clip(packet.Length - offset, src)|
    ensures packet[..next] == old(packet[..offset]) + Clip(packet.Length - offset, src)
    ensures forall k :: next <= k < packet.Length ==> packet[k] == old(packet[k])
  {
    next := Put(packet, offset, Clip(packet.Length - offset, src));
  }

  lemma ClipTwice(room: nat, whole: Bytes, part: Bytes)
    ensures Clip(room, whole) + Clip(room - |Clip(room, whole)|, part) == Clip(room, whole + part)
  {
  }

  lemma Assoc4(a: Bytes, b: Bytes, c: Bytes, d: Bytes)
    ensures a + b + c + d == a + (b + (c + d))
  {
  }

  lemma Assoc3(a: Bytes, b: Bytes, c: Bytes)
    ensures a + b + c == a + (b + c)
  {
  }

  // ------------------------------------------------------------------
  // The response parses
  // ------------------------------------------------------------------

  /** `part` lies in the data at an offset. */
  predicate LiesAt(data: Bytes, offset: nat, part: Bytes) {
    offset + |part| <= |data| && data[offset..offset + |part|] == part
  }

  lemma LiesAtParts(data: Bytes, offset: nat, a: Bytes, b: Bytes)
    requires LiesAt(data, offset, a + b)
    ensures LiesAt(data, offset, a) && LiesAt(data, offset + |a|, b)
  {
    assert data[offset..offset + |a + b|][..|a|] == a && data[offset..offset + |a + b|][|a|..] == b;
  }

  /** The record made of a name that parses and a TXT tail. */
  lemma RecordParses(data: Bytes, offset: nat, labels: seq<Label>, at: nat, payload: Bytes)
    requires |payload| < 65536 && NameAt(data, offset, MAX_JUMPS) == Parsed(labels, at) && LiesAt(data, at, TxtTail(payload))
    ensures RecordAt(data, offset) == Some((TxtRecord(TextOf(labels), payload), at + 10 + |payload|))
  {
    var tail := TxtTail(payload);
    assert |tail| == 10 + |payload|;
    assert forall i :: 0 <= i < 10 ==> data[at + i] == data[at..at + |tail|][i] == tail[i];
    assert tail[0] == 0 && tail[1] == 16 && tail[2] == 0 && tail[3] == 1;
    assert tail[4] == 0 && tail[5] == 0 && tail[6] == 0 && tail[7] == 0;
    assert tail[8] == |payload| / 256 && tail[9] == |payload| % 256;
    assert data[at + 10..at + 10 + |payload|] == data[at..at + |tail|][10..] == payload;
  }

  /** A pointer leads to the labels of the name it points to. */
  lemma PointerParses(data: Bytes, offset: nat, at: nat, labels: seq<Label>, next: nat)
    requires at <= MAX_POINTER && at < |data| && LiesAt(data, offset, Pointer(at))
    requires NameAt(data, at, MAX_JUMPS - 1) == Parsed(labels, next)
    ensures NameAt(data, offset, MAX_JUMPS) == Parsed(labels, offset + 2)
  {
    assert data[offset..offset + 2][0] == data[offset] && data[offset..offset + 2][1] == data[offset + 1];
    assert Read16(data, offset) == 0xC000 + at;
  }

  function TxtRecord(name: Bytes, payload: Bytes): Record {
    Record(name, TYPE_TXT, CLASS_IN, 0, payload)
  }

  function TxtRecords(name: Bytes, payloads: seq<Bytes>): seq<Record> {
    seq(|payloads|, i requires 0 <= i < |payloads| => TxtRecord(name, payloads[i]))
  }

  /** The owner name of answer `i`: spelled out, or a pointer to the first one. */
  lemma OwnerParses(data: Bytes, at: nat, labels: seq<Label>, i: nat, start: nat)
    requires Proper(labels) && LiesAt(data, start, Owner(WireName(labels), at, i))
    requires i > 0 ==> LiesAt(data, at, WireName(labels))
    ensures NameAt(data, start, MAX_JUMPS) == Parsed(LowerLabels(labels), start + |Owner(WireName(labels), at, i)|)
  {
    if i > 0 && at <= MAX_POINTER {
      NameRoundTrip(data, at, labels, MAX_JUMPS - 1);
      PointerParses(data, start, at, LowerLabels(labels), at + |WireName(labels)|);
    } else {
      NameRoundTrip(data, start, labels, MAX_JUMPS);
    }
  }

  lemma AnswerParses(data: Bytes, at: nat, labels: seq<Label>, payload: Bytes, i: nat, piece: Bytes, start: nat, end: nat)
    requires Proper(labels) && (i > 0 ==> LiesAt(data, at, WireName(labels)))
    requires |payload| < 65536 && piece == Owner(WireName(labels), at, i) + TxtTail(payload)
    requires LiesAt(data, start, piece) && end == start + |piece|
    ensures RecordAt(data, start) == Some((TxtRecord(TextOf(LowerLabels(labels)), payload), end))
  {
    var owner := Owner(WireName(labels), at, i);
    LiesAtParts(data, start, owner, TxtTail(payload));
    OwnerParses(data, at, labels, i, start);
    RecordParses(data, start, LowerLabels(labels), start + |owner|, payload);
    TailLength(payload);
  }

  lemma TailLength(payload: Bytes)
    requires |payload| < 65536
    ensures |TxtTail(payload)| == 10 + |payload|
  {
  }

  /** Piece `i` of the first `k` lies where the pieces before it end. */
  lemma PieceLies(data: Bytes, at: nat, pieces: seq<Bytes>, k: nat, i: nat)
    requires i < k <= |pieces| && LiesAt(data, at, Flatten(pieces[..k]))
    ensures LiesAt(data, at + |Flatten(pieces[..i])|, pieces[i])
    ensures |Flatten(pieces[..i + 1])| == |Flatten(pieces[..i])| + |pieces[i]|
    ensures i == 0 ==> LiesAt(data, at, pieces[i])
  {
    var some := pieces[..k];
    FlattenSplits(some, i);
    assert some[..i] == pieces[..i] && some[..i + 1] == pieces[..i + 1];
    LiesAtParts(data, at, Flatten(some[..i]) + some[i], Flatten(some[i + 1..]));
    LiesAtParts(data, at, Flatten(some[..i]), some[i]);
  }

  /** The first `k` answers parse, each under the same name, and end at `end`. */
  predicate ParseUpTo(data: Bytes, at: nat, owner: Bytes, payloads: seq<Bytes>, k: nat, end: nat)
    requires k <= |payloads|
  {
    RecordsAt(data, at, k) == Records(TxtRecords(owner, payloads[..k]), end)
  }

  /** The ends of the answers before each. */
  ghost function Ends(at: nat, pieces: seq<Bytes>, k: nat): seq<nat>
    requires k <= |pieces|
  {
    seq(k + 1, i requires 0 <= i <= k => at + |Flatten(pieces[..i])|)
  }

  predicate AnswerInPlace(data: Bytes, owner: Bytes, payloads: seq<Bytes>, ends: seq<nat>, i: nat)
    requires i < |payloads| && i + 1 < |ends|
  {
    RecordAt(data, ends[i]) == Some((TxtRecord(owner, payloads[i]), ends[i + 1]))
  }

  /** The first `k` answers parse where they lie. */
  lemma AnswersParse(data: Bytes, at: nat, labels: seq<Label>, payloads: seq<Bytes>, pieces: seq<Bytes>, k: nat)
    requires Proper(labels) && Fits(payloads) && pieces == Rendered(WireName(labels), at, payloads)
    requires k <= |payloads| && LiesAt(data, at, Flatten(pieces[..k]))
    ensures ParseUpTo(data, at, TextOf(LowerLabels(labels)), payloads, k, at + |Flatten(pieces[..k])|)
    ensures k > 0 ==> LiesAt(data, at, WireName(labels))
  {
    var ends := Ends(at, pieces, k);
    PiecesLie(data, at, pieces, k, ends);
    AnswersLie(data, at, labels, payloads, pieces, k, ends);
    AnswersAddUp(data, TextOf(LowerLabels(labels)), payloads, ends, k);
  }

  lemma PiecesLie(data: Bytes, at: nat, pieces: seq<Bytes>, k: nat, ends: seq<nat>)
    requires k <= |pieces| && LiesAt(data, at, Flatten(pieces[..k])) && ends == Ends(at, pieces, k)
    ensures ends[0] == at && ends[k] == at + |Flatten(pieces[..k])|
    ensures forall i :: 0 <= i < k ==> LiesAt(data, ends[i], pieces[i]) && ends[i + 1] == ends[i] + |pieces[i]|
  {
    forall i | 0 <= i < k
      ensures LiesAt(data, ends[i], pieces[i]) && ends[i + 1] == ends[i] + |pieces[i]|
    {
      PieceLies(data, at, pieces, k, i);
    }
  }

  lemma AnswersLie(data: Bytes, at: nat, labels: seq<Label>, payloads: seq<Bytes>, pieces: seq<Bytes>, k: nat, ends: seq<nat>)
    requires Proper(labels) && Fits(payloads) && pieces == Rendered(WireName(labels), at, payloads)
    requires k <= |payloads| && |ends| == k + 1 && ends[0] == at
    requires forall i :: 0 <= i < k ==> LiesAt(data, ends[i], pieces[i]) && ends[i + 1] == ends[i] + |pieces[i]|
    ensures forall i :: 0 <= i < k ==> AnswerInPlace(data, TextOf(LowerLabels(labels)), payloads, ends, i)
    ensures k > 0 ==> LiesAt(data, at, WireName(labels))
  {
    forall i | 0 <= i < k
      ensures LiesAt(data, at, WireName(labels)) && AnswerInPlace(data, TextOf(LowerLabels(labels)), payloads, ends, i)
    {
      AnswerLies(data, at, labels, payloads, pieces[0], pieces[i], ends, i);
    }
    if k > 0 {
      AnswerLies(data, at, labels, payloads, pieces[0], pieces[0], ends, 0);
    }
  }

  lemma AnswerLies(data: Bytes, at: nat, labels: seq<Label>, payloads: seq<Bytes>, first: Bytes, piece: Bytes, ends: seq<nat>, i: nat)
    requires Proper(labels) && Fits(payloads) && i < |payloads| && i + 1 < |ends|
    requires first == WireName(labels) + TxtTail(payloads[0]) && LiesAt(data, at, first)
    requires piece == Owner(WireName(labels), at, i) + TxtTail(payloads[i]) && LiesAt(data, ends[i], piece)
    requires ends[i + 1] == ends[i] + |piece|
    ensures LiesAt(data, at, WireName(labels)) && AnswerInPlace(data, TextOf(LowerLabels(labels)), payloads, ends, i)
  {
    LiesAtParts(data, at, WireName(labels), TxtTail(payloads[0]));
    AnswerParses(data, at, labels, payloads[i], i, piece, ends[i], ends[i + 1]);
  }

  lemma {:induction false} AnswersAddUp(data: Bytes, owner: Bytes, payloads: seq<Bytes>, ends: seq<nat>, k: nat)
    requires k <= |payloads| && k < |ends|
    requires forall i :: 0 <= i < k ==> AnswerInPlace(data, owner, payloads, ends, i)
    ensures ParseUpTo(data, ends[0], owner, payloads, k, ends[k])
    decreases k
  {
    if k == 0 {
      assert TxtRecords(owner, payloads[..0]) == [];
    } else {
      AnswersAddUp(data, owner, payloads, ends, k - 1);
      assert AnswerInPlace(data, owner, payloads, ends, k - 1);
      RecordsPush(data, ends[0], owner, payloads, k - 1, ends[k - 1], ends[k]);
    }
  }

  lemma RecordsPush(data: Bytes, at: nat, owner: Bytes, payloads: seq<Bytes>, k: nat, start: nat, end: nat)
    requires k < |payloads|
    requires RecordsAt(data, at, k) == Records(TxtRecords(owner, payloads[..k]), start)
    requires RecordAt(data, start) == Some((TxtRecord(owner, payloads[k]), end))
    ensures RecordsAt(data, at, k + 1) == Records(TxtRecords(owner, payloads[..k + 1]), end)
  {
    RecordStep(data, at, k, TxtRecords(owner, payloads[..k]), start);
    assert TxtRecords(owner, payloads[..k + 1]) == TxtRecords(owner, payloads[..k]) + [TxtRecord(owner, payloads[k])];
  }

  /** All answers parse. */
  lemma AllAnswersParse(data: Bytes, at: nat, labels: seq<Label>, payloads: seq<Bytes>)
    requires Proper(labels) && Fits(payloads) && LiesAt(data, at, Answers(WireName(labels), at, payloads))
    ensures RecordsAt(data, at, |payloads|)
         == Records(TxtRecords(TextOf(LowerLabels(labels)), payloads), at + |Answers(WireName(labels), at, payloads)|)
  {
    var pieces := Rendered(WireName(labels), at, payloads);
    assert payloads[..|payloads|] == payloads && pieces[..|payloads|] == pieces;
    AnswersParse(data, at, labels, payloads, pieces, |payloads|);
  }

  // ------------------------------------------------------------------
  // Room for the answers
  // ------------------------------------------------------------------

  /** How much longer the answers are than what was reserved for them. */
  lemma {:induction false} Excess(name: Bytes, at: nat, payloads: seq<Bytes>, pieces: seq<Bytes>, k: nat)
    requires Fits(payloads) && pieces == Rendered(name, at, payloads) && k <= |payloads|
    ensures |Flatten(pieces[..k])| - Reserved(name, payloads[..k])
         == if k == 0 || at <= MAX_POINTER then 0 else (k - 1) * (|name| - 2)
    decreases k
  {
    if k > 0 {
      Excess(name, at, payloads, pieces, k - 1);
      PieceGrows(name, at, payloads, pieces, k - 1);
      ReservedGrows(name, payloads, k - 1);
      if k > 1 {
        assert (k - 2) * (|name| - 2) + (|name| - 2) == (k - 1) * (|name| - 2);
      }
    }
  }

  lemma PieceGrows(name: Bytes, at: nat, payloads: seq<Bytes>, pieces: seq<Bytes>, k: nat)
    requires Fits(payloads) && pieces == Rendered(name, at, payloads) && k < |payloads|
    ensures |Flatten(pieces[..k + 1])| == |Flatten(pieces[..k])| + |Owner(name, at, k)| + 10 + |payloads[k]|
  {
    FlattenSplits(pieces, k);
    TailLength(payloads[k]);
  }

  lemma ReservedGrows(name: Bytes, payloads: seq<Bytes>, k: nat)
    requires k < |payloads|
    ensures Reserved(name, payloads[..k + 1])
         == Reserved(name, payloads[..k]) + (if k > 0 then 2 else |name|) + 10 + |payloads[k]|
  {
    assert payloads[..k + 1][..k] == payloads[..k];
  }

  /** The builder reserves what it writes exactly for a single answer, or when pointers reach the first one. */
  lemma RoomSuffices(labels: seq<Label>, at: nat, payloads: seq<Bytes>)
    requires Proper(labels) && Fits(payloads)
    ensures var name := WireName(labels);
            && (Reserved(name, payloads) == |Answers(name, at, payloads)| <==> |payloads| <= 1 || at <= MAX_POINTER)
            && (Reserved(name, payloads) >= |Answers(name, at, payloads)|
                <==> |payloads| <= 1 || at <= MAX_POINTER || labels == [])
  {
    var name := WireName(labels);
    var pieces := Rendered(name, at, payloads);
    assert pieces[..|payloads|] == pieces && payloads[..|payloads|] == payloads;
    Excess(name, at, payloads, pieces, |payloads|);
    NeverTwoBytes(labels);
    if |payloads| > 1 {
      SignOfProduct(|payloads| - 1, |name| - 2);
    }
  }

  /** A name is the root, or a label and what follows. */
  lemma NeverTwoBytes(labels: seq<Label>)
    requires Proper(labels)
    ensures labels == [] ==> |WireName(labels)| == 1
    ensures labels != [] ==> |WireName(labels)| >= 3
  {
    if labels != [] {
      WireNameUnfolds(labels);
    }
  }

  lemma SignOfProduct(n: int, d: int)
    requires n > 0
    ensures n * d == 0 <==> d == 0
    ensures n * d > 0 <==> d > 0
  {
  }

  /** Answers cut inside the payload of the last one do not parse. */
  lemma CutAnswersFail(data: Bytes, at: nat, labels: seq<Label>, payloads: seq<Bytes>)
    requires Proper(labels) && Fits(payloads) && payloads != []
    requires at <= |data| < at + |Answers(WireName(labels), at, payloads)|
    requires HeadsFit(|data|, at, WireName(labels), at, payloads)
    requires data[at..] == Answers(WireName(labels), at, payloads)[..|data| - at]
    ensures RecordsAt(data, at, |payloads|).BadRecords?
  {
    var start := LastIsCut(data, at, labels, payloads);
    LastFails(data, at, TextOf(LowerLabels(labels)), payloads, |payloads| - 1, start);
  }

  /** All answers but the last parse, and the last does not. */
  lemma LastIsCut(data: Bytes, at: nat, labels: seq<Label>, payloads: seq<Bytes>) returns (start: nat)
    requires Proper(labels) && Fits(payloads) && payloads != []
    requires at <= |data| < at + |Answers(WireName(labels), at, payloads)|
    requires HeadsFit(|data|, at, WireName(labels), at, payloads)
    requires data[at..] == Answers(WireName(labels), at, payloads)[..|data| - at]
    ensures ParseUpTo(data, at, TextOf(LowerLabels(labels)), payloads, |payloads| - 1, start) && RecordAt(data, start).None?
  {
    var n, pieces := |payloads| - 1, Rendered(WireName(labels), at, payloads);
    var front, owner, last := Flatten(pieces[..n]), Owner(WireName(labels), at, n), payloads[n];
    start := at + |front|;
    CutPieces(data, at, WireName(labels), payloads, pieces, front, owner, last);
    AnswersParse(data, at, labels, payloads, pieces, n);
    CutAnswerFails(data, at, labels, n, owner, start, last);
  }

  lemma CutPieces(data: Bytes, at: nat, name: Bytes, payloads: seq<Bytes>, pieces: seq<Bytes>, front: Bytes, owner: Bytes, last: Bytes)
    requires Fits(payloads) && payloads != [] && pieces == Rendered(name, at, payloads)
    requires var n := |payloads| - 1; front == Flatten(pieces[..n]) && owner == Owner(name, at, n) && last == payloads[n]
    requires at <= |data| < at + |Answers(name, at, payloads)| && HeadsFit(|data|, at, name, at, payloads)
    requires data[at..] == Answers(name, at, payloads)[..|data| - at]
    ensures LiesAt(data, at, front) && LiesAt(data, at + |front|, owner) && |last| < 65536
    ensures LiesAt(data, at + |front| + |owner|, TxtHead(last)) && at + |front| + |owner| + 10 + |last| > |data|
  {
    LastPiece(name, at, payloads, pieces, front, owner, last);
    CutParts(data, at, front, owner, TxtHead(last), last);
  }

  lemma LastPiece(name: Bytes, at: nat, payloads: seq<Bytes>, pieces: seq<Bytes>, front: Bytes, owner: Bytes, last: Bytes)
    requires Fits(payloads) && payloads != [] && pieces == Rendered(name, at, payloads)
    requires var n := |payloads| - 1; front == Flatten(pieces[..n]) && owner == Owner(name, at, n) && last == payloads[n]
    ensures |last| < 65536 && |TxtHead(last)| == 10
    ensures Answers(name, at, payloads) == front + (owner + (TxtHead(last) + last))
  {
    FlattenLast(pieces, pieces[..|payloads| - 1], pieces[|payloads| - 1]);
  }

  lemma LastFails(data: Bytes, at: nat, owner: Bytes, payloads: seq<Bytes>, n: nat, start: nat)
    requires n < |payloads| && ParseUpTo(data, at, owner, payloads, n, start) && RecordAt(data, start).None?
    ensures RecordsAt(data, at, n + 1).BadRecords?
  {
  }

  lemma CutAnswerFails(data: Bytes, at: nat, labels: seq<Label>, n: nat, owner: Bytes, start: nat, last: Bytes)
    requires Proper(labels) && |last| < 65536 && owner == Owner(WireName(labels), at, n)
    requires n > 0 ==> LiesAt(data, at, WireName(labels))
    requires LiesAt(data, start, owner) && LiesAt(data, start + |owner|, TxtHead(last))
    requires start + |owner| + 10 + |last| > |data|
    ensures RecordAt(data, start).None?
  {
    OwnerParses(data, at, labels, n, start);
    CutRecordFails(data, start, LowerLabels(labels), start + |owner|, last);
  }

  lemma CutParts(data: Bytes, at: nat, front: Bytes, owner: Bytes, head: Bytes, last: Bytes)
    requires at + |front| + |owner| + |head| <= |data| <= at + |front + (owner + (head + last))|
    requires data[at..] == (front + (owner + (head + last)))[..|data| - at]
    ensures LiesAt(data, at, front) && LiesAt(data, at + |front|, owner) && LiesAt(data, at + |front| + |owner|, head)
  {
    var parts := front + owner + head;
    assert front + (owner + (head + last)) == parts + last;
    assert data[at..][..|parts|] == parts;
    LiesAtParts(data, at, front + owner, head);
    LiesAtParts(data, at, front, owner);
  }

  lemma CutRecordFails(data: Bytes, offset: nat, labels: seq<Label>, at: nat, payload: Bytes)
    requires |payload| < 65536 && NameAt(data, offset, MAX_JUMPS) == Parsed(labels, at)
    requires LiesAt(data, at, TxtHead(payload)) && at + 10 + |payload| > |data|
    ensures RecordAt(data, offset).None?
  {
    var head := TxtHead(payload);
    assert forall i :: 0 <= i < 10 ==> data[at + i] == data[at..at + |head|][i] == head[i];
    assert head[8] == |payload| / 256 && head[9] == |payload| % 256;
  }
}
