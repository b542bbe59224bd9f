/** A downstream frame is cut into TXT answers and put together again from answers in any order. */
module TxtAnswers {
  import opened Octets
  import opened Enums
  import opened Pieces
  import opened VpnFrame
  import Base64

  const MAX_STRING := 255
  const MAX_PARTS := 255

  // ------------------------------------------------------------------
  // Strings
  // ------------------------------------------------------------------

  function Armor(data: Bytes, base: bool): Bytes {
    if base then Base64.Encode(data) else data
  }

  function Unarmor(text: Bytes, base: bool): Option<Bytes> {
    if base then Base64.Decode(text) else Some(text)
  }

  /** How much data one answer may hold: 255 bytes raw, 191 under base 64. */
  function MaxChunk(base: bool): nat {
    if base then 191 else 255
  }

  lemma ArmorRoundTrip(data: Bytes, base: bool)
    ensures Unarmor(Armor(data, base), base) == Some(data)
    ensures |data| <= MaxChunk(base) ==> |Armor(data, base)| <= MAX_STRING
    ensures data != [] ==> Armor(data, base) != []
  {
    if base {
      Base64.RoundTrip(data);
      Base64.EncodedLength(data);
    }
  }

  // ------------------------------------------------------------------
  // Cutting
  // ------------------------------------------------------------------

  /** The number of cuts, as the builder computes it. */
  lemma {:induction false} CutCount(s: Bytes, base: bool)
    ensures var size := MaxChunk(base) - 1; |Cut(s, size)| == (|s| + size - 1) / size
    decreases |s|
  {
    var size := MaxChunk(base) - 1;
    if |s| > size {
      CutCount(s[size..], base);
    }
  }

  /** What the first answer carries of the payload, beside its prefix and the header. */
  function FirstPart(t: PacketType, base: bool): nat {
    MaxChunk(base) - 2 - HeaderSize(t)
  }

  function Parts(p: VpnPacket, base: bool): seq<Bytes> {
    var first := if |p.payload| < FirstPart(p.packetType, base) then |p.payload| else FirstPart(p.packetType, base);
    [p.payload[..first]] + Cut(p.payload[first..], MaxChunk(base) - 1)
  }

  lemma PartsConcat(p: VpnPacket, base: bool)
    ensures Flatten(Parts(p, base)) == p.payload
    ensures |Parts(p, base)[0]| <= FirstPart(p.packetType, base)
    ensures forall i :: 1 <= i < |Parts(p, base)| ==> |Parts(p, base)[i]| <= MaxChunk(base) - 1
  {
    var first := |Parts(p, base)[0]|;
    HeadAndCuts(p.payload, first, MaxChunk(base) - 1);
  }

  lemma HeadAndCuts(s: Bytes, first: nat, size: nat)
    requires first <= |s| && size > 0
    ensures var parts := [s[..first]] + Cut(s[first..], size);
            Flatten(parts) == s && forall i :: 1 <= i < |parts| ==> |parts[i]| <= size
  {
    CutConcat(s[first..], size);
    FlattenAppend([s[..first]], Cut(s[first..], size));
    FlattenOne(s[..first]);
    assert s == s[..first] + s[first..];
  }

  predicate OneAnswer(p: VpnPacket, base: bool) {
    |HeaderOf(p) + p.payload| <= MaxChunk(base)
  }

  /** Chunk `i` of `n`: the first names the number of chunks and repeats the header, the others their position. */
  function Chunk(p: VpnPacket, base: bool, i: nat): Bytes
    requires i < |Parts(p, base)| <= MAX_PARTS
  {
    if i == 0 then [0, |Parts(p, base)|] + HeaderOf(p) + Parts(p, base)[0] else [i] + Parts(p, base)[i]
  }

  /** buildTXTAnswerChunks for a frame that its own parser accepts, before the strings are armored. */
  function Chunks(p: VpnPacket, base: bool): Option<seq<Bytes>> {
    if OneAnswer(p, base) then Some([HeaderOf(p) + p.payload])
    else if |Parts(p, base)| > MAX_PARTS then None
    else Some(seq(|Parts(p, base)|, i requires 0 <= i < |Parts(p, base)| => Chunk(p, base, i)))
  }

  /** No answer exceeds one character string of 255 bytes, and only a large frame takes several. */
  lemma ChunksFit(p: VpnPacket, base: bool)
    requires Chunks(p, base).Some?
    ensures var cs := Chunks(p, base).value;
            && (forall i :: 0 <= i < |cs| ==> cs[i] != [] && |Armor(cs[i], base)| <= MAX_STRING)
            && (|cs| == 1 <==> OneAnswer(p, base))
  {
    var cs := Chunks(p, base).value;
    PartsConcat(p, base);
    HeaderLength(p);
    forall i | 0 <= i < |cs|
      ensures cs[i] != [] && |Armor(cs[i], base)| <= MAX_STRING
    {
      ArmorRoundTrip(cs[i], base);
    }
    if !OneAnswer(p, base) {
      assert |p.payload| > FirstPart(p.packetType, base);
      CutCount(p.payload[FirstPart(p.packetType, base)..], base);
    }
  }

  /** The cutting loops of the builder. */
  method BuildChunks(p: VpnPacket, base: bool) returns (chunks: Option<seq<Bytes>>)
    ensures chunks == Chunks(p, base)
  {
    var header := HeaderOf(p);
    HeaderLength(p);
    var maxChunk := MaxChunk(base);
    if |header + p.payload| <= maxChunk {
      return Some([header + p.payload]);
    }
    var maxChunk0 := maxChunk - 2 - |header|;
    var remaining := |p.payload| - maxChunk0;
    var maxChunkN := maxChunk - 1;
    var total := 1 + (remaining + maxChunkN - 1) / maxChunkN;
    CutCount(p.payload[maxChunk0..], base);
    if total > MAX_PARTS {
      return None;
    }
    ghost var parts := Parts(p, base);
    assert parts == [p.payload[..maxChunk0]] + Cut(p.payload[maxChunk0..], maxChunkN);
    var rest := AppendChunks(p.payload, maxChunk0, maxChunkN);
    var list := [[0, total] + header + p.payload[..maxChunk0]] + rest;
    forall i | 0 <= i < |parts|
      ensures list[i] == Chunk(p, base, i)
    {
      if i > 0 {
        assert list[i] == rest[i - 1] && parts[i] == Cut(p.payload[maxChunk0..], maxChunkN)[i - 1];
      }
    }
    assert list == Chunks(p, base).value;
    return Some(list);
  }

  /** appendRawTXTAnswerChunks and appendBase64TXTAnswerChunks: the chunks behind the first, numbered from one. */
  method AppendChunks(payload: Bytes, start: nat, size: nat) returns (list: seq<Bytes>)
    requires size > 0 && start <= |payload| && |Cut(payload[start..], size)| < MAX_PARTS
    ensures var parts := Cut(payload[start..], size);
            |list| == |parts| && forall i :: 0 <= i < |parts| ==> list[i] == [i + 1] + parts[i]
  {
    list := [];
    var cursor: nat := start;
    ghost var parts := Cut(payload[start..], size);
    assert parts[0..] == parts;
    while cursor < |payload|
      invariant start <= cursor <= |payload| && |list| <= |parts|
      invariant parts[|list|..] == Cut(payload[cursor..], size)
      invariant forall i :: 0 <= i < |list| ==> list[i] == [i + 1] + parts[i]
      decreases |payload| - cursor
    {
      var end := if cursor + size > |payload| then |payload| else cursor + size;
      CutStep(payload, cursor, end, size, parts, |list|);
      list := list + [[|list| + 1] + payload[cursor..end]];
      cursor := end;
    }
    assert payload[cursor..] == [];
    assert |parts[|list|..]| == 0;
  }

  // ------------------------------------------------------------------
  // Assembling
  // ------------------------------------------------------------------

  datatype Assembly = Assembly(chunks: map<nat, Bytes>, total: nat, header: Option<VpnPacket>) | Malformed

  const NOTHING_YET := Assembly(map[], 0, None)

  /** One answer's worth of data. */
  function Took(a: Assembly, data: Bytes): Assembly
    requires a.Assembly?
  {
    if data == [] then a
    else if data[0] != 0 then a.(chunks := a.chunks[data[0] as nat := data[1..]])
    else if |data| < 3 || data[1] == 0 then Malformed
    else
      var parsed := Parse(data[2..]);
      if parsed.None? then Malformed
      else Assembly(a.chunks[0 := parsed.value.payload], data[1], parsed)
  }

  function TakeAll(raws: seq<Bytes>, base: bool): Assembly
    decreases |raws|
  {
    if raws == [] then NOTHING_YET
    else
      var n := |raws| - 1;
      var a, data := TakeAll(raws[..n], base), Unarmor(raws[n], base);
      if a.Malformed? || data.None? then Malformed else Took(a, data.value)
  }

  predicate Complete(a: Assembly) {
    && a.Assembly? && a.header.Some? && a.total > 0 && |a.chunks| == a.total
    && (forall i :: 0 <= i < a.total ==> i in a.chunks)
    && (forall i :: i in a.chunks ==> i < a.total)
  }

  /** assembleVPNResponse, with compression off. */
  function Assemble(raws: seq<Bytes>, base: bool): Option<VpnPacket> {
    if |raws| == 1 then
      var data := Unarmor(raws[0], base);
      if data.None? then None else Parse(data.value)
    else
      var a := TakeAll(raws, base);
      if Complete(a) then Some(a.header.value.(payload := Joined(a.chunks, a.total))) else None
  }

  lemma {:induction false} MalformedStays(raws: seq<Bytes>, base: bool, k: nat)
    requires k <= |raws| && TakeAll(raws[..k], base).Malformed?
    ensures TakeAll(raws, base).Malformed?
    decreases |raws|
  {
    if k < |raws| {
      assert raws[..|raws| - 1][..k] == raws[..k];
      MalformedStays(raws[..|raws| - 1], base, k);
    } else {
      assert raws[..k] == raws;
    }
  }

  /** The slots of the assembler hold what the specification's map holds. */
  ghost predicate Mirrors(slots: seq<Option<Bytes>>, chunks: map<nat, Bytes>) {
    && (forall i :: i in chunks ==> i < |slots|)
    && (forall i :: 0 <= i < |slots| ==> slots[i] == if i in chunks then Some(chunks[i]) else None)
  }

  lemma MirrorsAfter(slots: seq<Option<Bytes>>, chunks: map<nat, Bytes>, i: nat, x: Bytes)
    requires Mirrors(slots, chunks) && i < |slots|
    ensures Mirrors(slots[i := Some(x)], chunks[i := x])
    ensures |chunks[i := x]| == |chunks| + (if slots[i].None? then 1 else 0)
  {
    SizeAfter(chunks, i, x);
  }

  lemma SizeAfter(chunks: map<nat, Bytes>, i: nat, x: Bytes)
    ensures |chunks[i := x]| == |chunks| + (if i in chunks then 0 else 1)
  {
    var chunks' := chunks[i := x];
    assert |chunks| == |chunks.Keys| && |chunks'| == |chunks'.Keys|;
    if i in chunks {
      assert chunks'.Keys == chunks.Keys;
    } else {
      assert chunks'.Keys == chunks.Keys + {i};
    }
  }

  lemma TakeAllStep(raws: seq<Bytes>, base: bool, k: nat)
    requires k < |raws| && TakeAll(raws[..k], base).Assembly?
    ensures TakeAll(raws[..k + 1], base) ==
            if Unarmor(raws[k], base).None? then Malformed else Took(TakeAll(raws[..k], base), Unarmor(raws[k], base).value)
  {
    assert raws[..k + 1][..k] == raws[..k];
  }

  /** The loops of assembleVPNResponse over several answers. */
  method AssembleSeveral(raws: seq<Bytes>, base: bool) returns (packet: Option<VpnPacket>)
    ensures var a := TakeAll(raws, base);
            packet == if Complete(a) then Some(a.header.value.(payload := Joined(a.chunks, a.total))) else None
  {
    var slots: seq<Option<Bytes>> := seq(256, _ => None);
    var total, seen: nat, header: Option<VpnPacket> := 0, 0, None;
    ghost var chunks: map<nat, Bytes> := map[];
    for k := 0 to |raws|
      invariant |slots| == 256 && Mirrors(slots, chunks) && seen == |chunks|
      invariant TakeAll(raws[..k], base) == Assembly(chunks, total, header)
    {
      TakeAllStep(raws, base, k);
      var data := Unarmor(raws[k], base);
      if data.None? {
        MalformedStays(raws, base, k + 1);
        return None;
      }
      var raw := data.value;
      if raw != [] {
        var id: nat, part := raw[0], raw[1..];
        if raw[0] == 0 {
          if |raw| < 3 || raw[1] == 0 {
            MalformedStays(raws, base, k + 1);
            return None;
          }
          var parsed := Parse(raw[2..]);
          if parsed.None? {
            MalformedStays(raws, base, k + 1);
            return None;
          }
          total, header, part := raw[1], parsed, parsed.value.payload;
        }
        MirrorsAfter(slots, chunks, id, part);
        seen := if slots[id].None? then seen + 1 else seen;
        slots := slots[id := Some(part)];
        chunks := chunks[id := part];
      }
    }
    assert raws[..|raws|] == raws;
    packet := Finish(slots, total, seen, header, chunks);
  }

  /** The checks and the joining loop at the end. */
  method Finish(slots: seq<Option<Bytes>>, total: nat, seen: nat, header: Option<VpnPacket>, ghost chunks: map<nat, Bytes>)
    returns (packet: Option<VpnPacket>)
    requires total <= |slots| && Mirrors(slots, chunks) && seen == |chunks|
    ensures var a := Assembly(chunks, total, header);
            packet == if Complete(a) then Some(header.value.(payload := Joined(chunks, total))) else None
  {
    if header.None? || total <= 0 || seen != total {
      return None;
    }
    for i := 0 to total
      invariant forall k :: 0 <= k < i ==> slots[k].Some?
    {
      if slots[i].None? {
        return None;
      }
    }
    for i := total to |slots|
      invariant forall k :: total <= k < i ==> slots[k].None?
    {
      if slots[i].Some? {
        return None;
      }
    }
    var payload := [];
    for i := 0 to total
      invariant payload == Joined(chunks, i)
    {
      payload := payload + slots[i].value;
    }
    return Some(header.value.(payload := payload));
  }

  /** assembleVPNResponse. */
  method AssembleAnswers(raws: seq<Bytes>, base: bool) returns (packet: Option<VpnPacket>)
    ensures packet == Assemble(raws, base)
  {
    if |raws| == 1 {
      var data := Unarmor(raws[0], base);
      return if data.None? then None else Parse(data.value);
    }
    packet := AssembleSeveral(raws, base);
  }

  // ------------------------------------------------------------------
  // Any order, any number of copies
  // ------------------------------------------------------------------

  /** Only chunks of this frame arrive, and each does. */
  ghost predicate Arrivals(cs: seq<Bytes>, raws: seq<Bytes>, base: bool) {
    && (forall raw :: raw in raws ==> exists i :: 0 <= i < |cs| && raw == Armor(cs[i], base))
    && (forall i :: 0 <= i < |cs| ==> Armor(cs[i], base) in raws)
  }

  /** The chunks seen so far, each with its part of the payload. */
  ghost predicate Seen(p: VpnPacket, base: bool, raws: seq<Bytes>, a: Assembly)
    requires |Parts(p, base)| <= MAX_PARTS
  {
    && a.Assembly?
    && (forall i :: i in a.chunks <==> 0 <= i < |Parts(p, base)| && Armor(Chunk(p, base, i), base) in raws)
    && (forall i :: i in a.chunks ==> a.chunks[i] == Parts(p, base)[i])
    && (0 in a.chunks ==> a.total == |Parts(p, base)| && a.header == Some(p.(payload := Parts(p, base)[0])))
  }

  lemma TookChunk(p: VpnPacket, base: bool, a: Assembly, i: nat)
    requires Normal(p) && i < |Parts(p, base)| <= MAX_PARTS && a.Assembly?
    ensures Took(a, Chunk(p, base, i)) ==
            if i > 0 then a.(chunks := a.chunks[i := Parts(p, base)[i]])
            else Assembly(a.chunks[0 := Parts(p, base)[0]], |Parts(p, base)|, Some(p.(payload := Parts(p, base)[0])))
  {
    var data := Chunk(p, base, i);
    if i == 0 {
      HeaderLength(p);
      assert data[2..] == HeaderOf(p) + Parts(p, base)[0];
      ParseSplits(p, Parts(p, base)[0]);
    } else {
      assert data[1..] == Parts(p, base)[i];
    }
  }

  lemma ChunksDistinct(p: VpnPacket, base: bool, i: nat, j: nat)
    requires i < |Parts(p, base)| <= MAX_PARTS && j < |Parts(p, base)|
    ensures Armor(Chunk(p, base, i), base) == Armor(Chunk(p, base, j), base) ==> i == j
  {
    ArmorRoundTrip(Chunk(p, base, i), base);
    ArmorRoundTrip(Chunk(p, base, j), base);
    assert Chunk(p, base, i)[0] == i && Chunk(p, base, j)[0] == j;
  }

  lemma SeenStep(p: VpnPacket, base: bool, raws: seq<Bytes>, a: Assembly, i: nat)
    requires Normal(p) && i < |Parts(p, base)| <= MAX_PARTS && Seen(p, base, raws, a)
    ensures Seen(p, base, raws + [Armor(Chunk(p, base, i), base)], Took(a, Chunk(p, base, i)))
  {
    TookChunk(p, base, a, i);
    forall j | 0 <= j < |Parts(p, base)|
      ensures Armor(Chunk(p, base, j), base) in raws + [Armor(Chunk(p, base, i), base)] <==>
              j == i || Armor(Chunk(p, base, j), base) in raws
    {
      ChunksDistinct(p, base, i, j);
    }
  }

  lemma TakeLast(raws: seq<Bytes>, base: bool, data: Bytes)
    requires raws != [] && TakeAll(raws[..|raws| - 1], base).Assembly? && Unarmor(raws[|raws| - 1], base) == Some(data)
    ensures TakeAll(raws, base) == Took(TakeAll(raws[..|raws| - 1], base), data)
  {
  }

  ghost predicate IsChunk(p: VpnPacket, base: bool, raw: Bytes)
    requires |Parts(p, base)| <= MAX_PARTS
  {
    exists i :: 0 <= i < |Parts(p, base)| && raw == Armor(Chunk(p, base, i), base)
  }

  lemma {:induction false} SeenAll(p: VpnPacket, base: bool, raws: seq<Bytes>)
    requires Normal(p) && |Parts(p, base)| <= MAX_PARTS
    requires forall raw :: raw in raws ==> IsChunk(p, base, raw)
    ensures Seen(p, base, raws, TakeAll(raws, base))
    decreases |raws|
  {
    if raws != [] {
      var n := |raws| - 1;
      SeenAll(p, base, raws[..n]);
      SeenPush(p, base, raws[..n], raws[n], TakeAll(raws[..n], base));
      TakeLast(raws, base, Unarmor(raws[n], base).value);
      assert raws[..n] + [raws[n]] == raws;
    }
  }

  lemma SeenPush(p: VpnPacket, base: bool, before: seq<Bytes>, raw: Bytes, a: Assembly)
    requires Normal(p) && |Parts(p, base)| <= MAX_PARTS && IsChunk(p, base, raw) && Seen(p, base, before, a)
    ensures Unarmor(raw, base).Some? && Seen(p, base, before + [raw], Took(a, Unarmor(raw, base).value))
  {
    var i :| 0 <= i < |Parts(p, base)| && raw == Armor(Chunk(p, base, i), base);
    ArmorRoundTrip(Chunk(p, base, i), base);
    SeenStep(p, base, before, a, i);
  }

  lemma ArrivedAreChunks(p: VpnPacket, base: bool, raws: seq<Bytes>)
    requires !OneAnswer(p, base) && Chunks(p, base).Some? && Arrivals(Chunks(p, base).value, raws, base)
    ensures forall raw :: raw in raws ==> IsChunk(p, base, raw)
    ensures forall i :: 0 <= i < |Parts(p, base)| ==> Armor(Chunk(p, base, i), base) in raws
  {
    var cs := Chunks(p, base).value;
    assert forall i :: 0 <= i < |cs| ==> cs[i] == Chunk(p, base, i);
    forall raw | raw in raws
      ensures IsChunk(p, base, raw)
    {
      var i :| 0 <= i < |cs| && raw == Armor(cs[i], base);
    }
    forall i | 0 <= i < |Parts(p, base)|
      ensures Armor(Chunk(p, base, i), base) in raws
    {
      assert Armor(cs[i], base) in raws;
    }
  }

  /** Once every chunk was seen, the parts join to the payload. */
  lemma SeenJoins(p: VpnPacket, base: bool, raws: seq<Bytes>, a: Assembly)
    requires |Parts(p, base)| <= MAX_PARTS && Seen(p, base, raws, a)
    requires forall i :: 0 <= i < |Parts(p, base)| ==> Armor(Chunk(p, base, i), base) in raws
    ensures Complete(a) && a.header.value.(payload := Joined(a.chunks, a.total)) == p
  {
    var parts := Parts(p, base);
    RangeSize(a.chunks.Keys, |parts|);
    assert |a.chunks| == |a.chunks.Keys|;
    JoinedParts(a.chunks, parts, |parts|);
    assert parts[..|parts|] == parts;
    PartsConcat(p, base);
  }

  lemma SeveralAnswers(p: VpnPacket, base: bool, raws: seq<Bytes>)
    requires !OneAnswer(p, base) && Chunks(p, base).Some?
    requires forall i :: 0 <= i < |Parts(p, base)| ==> Armor(Chunk(p, base, i), base) in raws
    ensures |raws| != 1
  {
    ChunksFit(p, base);
    ChunksDistinct(p, base, 0, 1);
    TwoOfMany(raws, Armor(Chunk(p, base, 0), base), Armor(Chunk(p, base, 1), base));
  }

  /** Several answers, in any order and with any number of copies, give back the packet. */
  lemma AnswersInAnyOrder(p: VpnPacket, base: bool, raws: seq<Bytes>)
    requires Normal(p) && !OneAnswer(p, base) && Chunks(p, base).Some?
    requires Arrivals(Chunks(p, base).value, raws, base)
    ensures Assemble(raws, base) == Some(p)
  {
    ArrivedAreChunks(p, base, raws);
    SeenAll(p, base, raws);
    SeenJoins(p, base, raws, TakeAll(raws, base));
    SeveralAnswers(p, base, raws);
  }

  /** And as long as one is missing, nothing comes out; a lone answer is read as a whole frame and is left aside here. */
  lemma RecoveredExactly(p: VpnPacket, base: bool, raws: seq<Bytes>)
    requires Normal(p) && !OneAnswer(p, base) && Chunks(p, base).Some? && |raws| != 1
    requires forall raw :: raw in raws ==> exists i :: 0 <= i < |Chunks(p, base).value| && raw == Armor(Chunks(p, base).value[i], base)
    ensures Assemble(raws, base)
         == if forall i :: 0 <= i < |Chunks(p, base).value| ==> Armor(Chunks(p, base).value[i], base) in raws then Some(p) else None
  {
    var cs := Chunks(p, base).value;
    if forall i :: 0 <= i < |cs| ==> Armor(cs[i], base) in raws {
      AnswersInAnyOrder(p, base, raws);
    } else {
      var i :| 0 <= i < |cs| && Armor(cs[i], base) !in raws;
      ChunksOfParts(p, base, raws);
      SeenAll(p, base, raws);
      SomeMissing(p, base, raws, TakeAll(raws, base), i);
    }
  }

  lemma ChunksOfParts(p: VpnPacket, base: bool, raws: seq<Bytes>)
    requires !OneAnswer(p, base) && Chunks(p, base).Some?
    requires forall raw :: raw in raws ==> exists i :: 0 <= i < |Chunks(p, base).value| && raw == Armor(Chunks(p, base).value[i], base)
    ensures |Chunks(p, base).value| == |Parts(p, base)| && forall raw :: raw in raws ==> IsChunk(p, base, raw)
  {
    var cs := Chunks(p, base).value;
    assert forall i :: 0 <= i < |cs| ==> cs[i] == Chunk(p, base, i);
    forall raw | raw in raws
      ensures IsChunk(p, base, raw)
    {
      var i :| 0 <= i < |cs| && raw == Armor(cs[i], base);
    }
  }

  lemma SomeMissing(p: VpnPacket, base: bool, raws: seq<Bytes>, a: Assembly, i: nat)
    requires |Parts(p, base)| <= MAX_PARTS && Seen(p, base, raws, a)
    requires i < |Parts(p, base)| && Armor(Chunk(p, base, i), base) !in raws
    ensures !Complete(a)
  {
    assert i !in a.chunks;
  }

  lemma TwoOfMany(raws: seq<Bytes>, x: Bytes, y: Bytes)
    requires x in raws && y in raws && x != y
    ensures |raws| != 1
  {
  }

  // ------------------------------------------------------------------
  // A single answer
  // ------------------------------------------------------------------

  function Copies(x: Bytes, n: nat): seq<Bytes> {
    seq(n, _ => x)
  }

  lemma {:induction false} CopiesTake(x: Bytes, n: nat, base: bool)
    requires n > 0 && Unarmor(x, base).Some?
    ensures var a, data := TakeAll(Copies(x, n), base), Unarmor(x, base).value;
            && (a.Assembly? && a.header.Some? ==> |data| >= 3 && data[0] == 0 && a.total == data[1] && a.header == Parse(data[2..]))
            && (a.Assembly? ==> a.chunks.Keys <= {if data == [] then 0 else data[0] as nat})
            && (a.Assembly? && data != [] && data[0] == 0 && 0 in a.chunks ==> Parse(data[2..]).Some? && a.chunks[0] == Parse(data[2..]).value.payload)
    decreases n
  {
    assert Copies(x, n)[..n - 1] == Copies(x, n - 1);
    if n > 1 {
      CopiesTake(x, n - 1, base);
    } else {
      assert Copies(x, 0) == [];
    }
  }

  /** A frame in one answer comes back exactly when the answer arrives once: a second copy is read as a chunk. */
  lemma SingleAnswerNeedsOneCopy(p: VpnPacket, base: bool, copies: nat)
    requires Normal(p) && OneAnswer(p, base) && copies > 0
    ensures Assemble(Copies(Armor(HeaderOf(p) + p.payload, base), copies), base) == Some(p) <==> copies == 1
  {
    var data := HeaderOf(p) + p.payload;
    var x := Armor(data, base);
    ArmorRoundTrip(data, base);
    FrameRoundTrip(p);
    if copies > 1 {
      CopiesTake(x, copies, base);
      var a := TakeAll(Copies(x, copies), base);
      if Complete(a) {
        OneChunk(a.chunks, data[0] as nat);
        ShorterPayload(p, data, a);
      }
    }
  }

  lemma OneChunk(chunks: map<nat, Bytes>, k: nat)
    requires chunks.Keys <= {k}
    ensures |chunks| <= 1
  {
    if k in chunks {
      assert chunks.Keys == {k};
    } else {
      assert chunks.Keys == {};
    }
    assert |chunks| == |chunks.Keys|;
  }

  /** Read as a chunk, the frame loses its first two bytes, so what comes out differs in type or length. */
  lemma ShorterPayload(p: VpnPacket, data: Bytes, a: Assembly)
    requires data == HeaderOf(p) + p.payload && Complete(a) && a.total == 1 && |data| >= 3 && data[0] == 0
    requires a.header == Parse(data[2..]) && a.chunks[0] == Parse(data[2..]).value.payload
    ensures a.header.value.(payload := Joined(a.chunks, a.total)) != p
  {
    HeaderLength(p);
    var q := Parse(data[2..]).value;
    assert Joined(a.chunks, 1) == Joined(a.chunks, 0) + a.chunks[0];
    assert [] + a.chunks[0] == a.chunks[0];
    assert |q.payload| == |data| - 2 - HeaderSize(q.packetType);
  }
}
