/** The tunnel's own packet header: optional extensions by packet type, a cookie and a check byte. */
module VpnFrame {
  import opened Octets
  import opened Enums

  /** Fields that the packet type does not carry are zero. */
  datatype VpnPacket = VpnPacket(
    session: Byte, packetType: PacketType, cookie: Byte, stream: Word16, sequence: Word16,
    fragment: Byte, total: Byte, compression: Byte, payload: Bytes)

  predicate IsValid(t: PacketType) {
    1 <= t <= PACKET_SESSION_BUSY || t == PACKET_ERROR_DROP
  }

  predicate HasStream(t: PacketType) {
    || t in {1, 4}
    || PACKET_STREAM_SYN <= t <= PACKET_STREAM_RESEND
    || PACKET_STREAM_CLOSE_WRITE <= t <= PACKET_DNS_QUERY_RES_ACK
  }

  predicate HasFragment(t: PacketType) {
    t in {1, 4, PACKET_STREAM_DATA, PACKET_STREAM_RESEND, PACKET_SOCKS5_SYN}
    || PACKET_DNS_QUERY_REQ <= t <= PACKET_DNS_QUERY_RES_ACK
  }

  predicate HasCompression(t: PacketType) {
    t in {1, 4, PACKET_STREAM_DATA, PACKET_STREAM_RESEND, PACKET_PACKED_CONTROL_BLOCKS, PACKET_DNS_QUERY_REQ, PACKET_DNS_QUERY_RES}
  }

  /** HeaderRawSize of a valid type. */
  function HeaderSize(t: PacketType): (n: nat)
    ensures 4 <= n <= 11
  {
    4 + (if HasStream(t) then 4 else 0) + (if HasFragment(t) then 2 else 0) + (if HasCompression(t) then 1 else 0)
  }

  /** Header sizes by packet type number. */
  lemma HeaderSizes(t: PacketType)
    requires IsValid(t)
    ensures HeaderSize(t) ==
            if t in {0x01, 0x04, 0x0F, 0x12, 0x32, 0x33} then 11
            else if t in {0x1A, 0x34, 0x35} then 10
            else if t == 0x13 then 5
            else if 0x09 <= t <= 0x35 then 8
            else 4
  {
  }

  /** computeHeaderCheckByte, on 8-bit words. */
  function CheckByte(header: Bytes): Byte {
    Checked(header, |header|) as int
  }

  function Checked(header: Bytes, n: nat): bv8
    requires n <= |header|
  {
    if n == 0 then ((|header| * 17 + 0x5D) % 256) as bv8
    else Mixed(Checked(header, n - 1), header[n - 1], n - 1)
  }

  function Mixed(acc: bv8, b: Byte, idx: nat): bv8 {
    (acc + b as bv8 + (idx % 256) as bv8) ^ ((b as bv8) << (idx % 4))
  }

  /** The loop of computeHeaderCheckByte. */
  method ComputeCheckByte(header: Bytes) returns (check: Byte)
    ensures check == CheckByte(header)
  {
    var acc := ((|header| * 17 + 0x5D) % 256) as bv8;
    for idx := 0 to |header|
      invariant acc == Checked(header, idx)
    {
      acc := Mixed(acc, header[idx], idx);
    }
    return acc as int;
  }

  /** The check byte of a ping of session 1 with cookie 2, worked out. */
  lemma CheckByteOfPing()
    ensures CheckByte([1, PACKET_PING, 2]) == 0x92
  {
    var header: Bytes := [1, PACKET_PING, 2];
    assert Checked(header, 0) == 0x90;
    assert Checked(header, 1) == 0x90;
    assert Checked(header, 2) == 0x96;
    assert Checked(header, 3) == 0x92;
  }

  // ------------------------------------------------------------------
  // Building and parsing
  // ------------------------------------------------------------------

  /** The header up to and including the cookie. */
  function Head(p: VpnPacket): Bytes {
    [p.session, p.packetType]
    + (if HasStream(p.packetType) then Be16(p.stream) + Be16(p.sequence) else [])
    + (if HasFragment(p.packetType) then [p.fragment, p.total] else [])
    + (if HasCompression(p.packetType) then [p.compression] else [])
    + [p.cookie]
  }

  function HeaderOf(p: VpnPacket): Bytes {
    Head(p) + [CheckByte(Head(p))]
  }

  /** BuildRaw. */
  function BuildRaw(p: VpnPacket): Option<Bytes> {
    if IsValid(p.packetType) then Some(HeaderOf(p) + p.payload) else None
  }

  /** Parse, and ParseAtOffset on the rest of the data. */
  function Parse(data: Bytes): Option<VpnPacket> {
    if |data| < 4 || !IsValid(data[1]) || |data| < HeaderSize(data[1]) then None
    else
      var t: PacketType := data[1];
      var afterStream := if HasStream(t) then 6 else 2;
      var afterFragment := afterStream + if HasFragment(t) then 2 else 0;
      var at := afterFragment + if HasCompression(t) then 1 else 0;
      var p := VpnPacket(data[0], t, data[at],
                         if HasStream(t) then Read16(data, 2) else 0, if HasStream(t) then Read16(data, 4) else 0,
                         if HasFragment(t) then data[afterStream] else 0, if HasFragment(t) then data[afterStream + 1] else 0,
                         if HasCompression(t) then data[afterFragment] else 0, data[at + 2..]);
      if HasFragment(t) && p.total > 1 && p.fragment >= p.total then None
      else if data[at + 1] != CheckByte(data[..at + 1]) then None
      else Some(p)
  }

  /** Packets that the parser takes back unchanged. */
  predicate Normal(p: VpnPacket) {
    && IsValid(p.packetType)
    && (!HasStream(p.packetType) ==> p.stream == 0 && p.sequence == 0)
    && (!HasFragment(p.packetType) ==> p.fragment == 0 && p.total == 0)
    && (!HasCompression(p.packetType) ==> p.compression == 0)
    && (p.total > 1 ==> p.fragment < p.total)
  }

  lemma HeaderLength(p: VpnPacket)
    ensures |HeaderOf(p)| == HeaderSize(p.packetType)
  {
  }

  /** Parsing inverts building: exactly the normal packets come back. */
  lemma FrameRoundTrip(p: VpnPacket)
    requires IsValid(p.packetType)
    ensures Parse(BuildRaw(p).value) == Some(p) <==> Normal(p)
  {
    var data, h := BuildRaw(p).value, Head(p);
    HeaderLength(p);
    assert data[..|h|] == h && data[|h| + 1..] == p.payload;
    assert data[0] == h[0] && data[1] == h[1];
    if HasStream(p.packetType) {
      assert data[2] == h[2] && data[3] == h[3] && data[4] == h[4] && data[5] == h[5];
    }
    assert forall i :: 0 <= i < |h| ==> data[i] == h[i];
  }

  /** The header alone decides everything but the payload. */
  lemma ParseSplits(p: VpnPacket, payload: Bytes)
    requires Normal(p)
    ensures Parse(HeaderOf(p) + payload) == Some(p.(payload := payload))
  {
    FrameRoundTrip(p.(payload := payload));
  }

  /** The frame of a data packet, byte by byte. */
  lemma DataFrameBytes(p: VpnPacket)
    requires p.packetType in {PACKET_STREAM_DATA, PACKET_STREAM_RESEND}
    ensures var head := [p.session, p.packetType, p.stream / 256, p.stream % 256, p.sequence / 256, p.sequence % 256,
                         p.fragment, p.total, p.compression, p.cookie];
            BuildRaw(p) == Some(head + [CheckByte(head)] + p.payload)
  {
    assert Head(p) == [p.session, p.packetType, p.stream / 256, p.stream % 256, p.sequence / 256, p.sequence % 256,
                       p.fragment, p.total, p.compression, p.cookie];
  }

  /** A frame with any other check byte is refused. */
  lemma WrongCheckByteIsRefused(p: VpnPacket, check: Byte, payload: Bytes)
    requires IsValid(p.packetType) && check != CheckByte(Head(p))
    ensures Parse(Head(p) + [check] + payload) == None
  {
    var data, h := Head(p) + [check] + payload, Head(p);
    HeaderLength(p);
    assert data[..|h|] == h && data[|h|] == check;
    assert data[1] == h[1];
  }

  /** So is a frame that ends within its header. */
  lemma CutHeaderIsRefused(p: VpnPacket, k: nat)
    requires IsValid(p.packetType) && k < |HeaderOf(p)|
    ensures Parse(HeaderOf(p)[..k]) == None
  {
    HeaderLength(p);
  }
}
