/** Packet types, the acknowledgement tables and the queue identity of a packet. */
module Enums {
  import opened Octets

  type PacketType = Byte

  const PACKET_PING: PacketType := 0x07
  const PACKET_PONG: PacketType := 0x08
  const PACKET_STREAM_SYN: PacketType := 0x09
  const PACKET_STREAM_CONNECTED: PacketType := 0x0B
  const PACKET_STREAM_CONNECT_FAIL: PacketType := 0x0D
  const PACKET_STREAM_DATA: PacketType := 0x0F
  const PACKET_STREAM_DATA_ACK: PacketType := 0x10
  const PACKET_STREAM_DATA_NACK: PacketType := 0x11
  const PACKET_STREAM_RESEND: PacketType := 0x12
  const PACKET_PACKED_CONTROL_BLOCKS: PacketType := 0x13
  const PACKET_STREAM_CLOSE_WRITE: PacketType := 0x14
  const PACKET_STREAM_CLOSE_WRITE_ACK: PacketType := 0x15
  const PACKET_STREAM_CLOSE_READ: PacketType := 0x16
  const PACKET_STREAM_CLOSE_READ_ACK: PacketType := 0x17
  const PACKET_STREAM_RST: PacketType := 0x18
  const PACKET_STREAM_RST_ACK: PacketType := 0x19
  const PACKET_SOCKS5_SYN: PacketType := 0x1A
  const PACKET_SOCKS5_CONNECT_FAIL: PacketType := 0x1C
  const PACKET_SOCKS5_UPSTREAM_UNAVAILABLE: PacketType := 0x2E
  const PACKET_SOCKS5_CONNECTED: PacketType := 0x30
  const PACKET_SOCKS5_CONNECTED_ACK: PacketType := 0x31
  const PACKET_DNS_QUERY_REQ: PacketType := 0x32
  const PACKET_DNS_QUERY_RES: PacketType := 0x33
  const PACKET_DNS_QUERY_REQ_ACK: PacketType := 0x34
  const PACKET_DNS_QUERY_RES_ACK: PacketType := 0x35
  const PACKET_SESSION_CLOSE: PacketType := 0x36
  const PACKET_SESSION_BUSY: PacketType := 0x37
  const PACKET_ERROR_DROP: PacketType := 0xFF

  datatype Option<+T> = None | Some(value: T)

  /** The acknowledgement that answers a control packet. */
  function ControlAckFor(t: PacketType): Option<PacketType> {
    if t == PACKET_DNS_QUERY_REQ then Some(PACKET_DNS_QUERY_REQ_ACK)
    else if t == PACKET_DNS_QUERY_RES then Some(PACKET_DNS_QUERY_RES_ACK)
    else if t in {PACKET_STREAM_SYN, PACKET_STREAM_CONNECTED, PACKET_STREAM_CONNECT_FAIL,
                  PACKET_STREAM_CLOSE_WRITE, PACKET_STREAM_CLOSE_READ, PACKET_STREAM_RST, PACKET_SOCKS5_SYN}
    then Some(t + 1)
    else if PACKET_SOCKS5_CONNECT_FAIL <= t <= PACKET_SOCKS5_CONNECTED && t % 2 == 0 then Some(t + 1)
    else None
  }

  /** The control packet an acknowledgement answers. */
  function ReverseControlAckFor(ack: PacketType): Option<PacketType> {
    if ack == PACKET_DNS_QUERY_REQ_ACK then Some(PACKET_DNS_QUERY_REQ)
    else if ack == PACKET_DNS_QUERY_RES_ACK then Some(PACKET_DNS_QUERY_RES)
    else if ack > 0 && ack <= PACKET_SOCKS5_CONNECTED_ACK && ControlAckFor(ack - 1) == Some(ack) then Some(ack - 1)
    else None
  }

  /** Packet types whose acknowledgement or expiry ends a stream. */
  predicate IsCloseStreamPacket(t: PacketType) {
    || t in {PACKET_STREAM_RST, PACKET_STREAM_CLOSE_WRITE, PACKET_STREAM_CLOSE_READ, PACKET_STREAM_CONNECT_FAIL}
    || (PACKET_SOCKS5_CONNECT_FAIL <= t <= PACKET_SOCKS5_UPSTREAM_UNAVAILABLE && t % 2 == 0)
  }

  /** The table, by number: DNS packets are answered two types later, setup and close packets by the next type. */
  lemma AckTable(t: PacketType)
    ensures ControlAckFor(t) ==
            if t in {0x32, 0x33} then Some(t + 2)
            else if t in {0x09, 0x0B, 0x0D, 0x14, 0x16, 0x18, 0x1A, 0x1C, 0x1E, 0x20, 0x22, 0x24, 0x26, 0x28, 0x2A, 0x2C, 0x2E, 0x30}
            then Some(t + 1)
            else None
  {
  }

  /** The reverse table inverts the acknowledgement table: no two packets share an acknowledgement. */
  lemma AckTablesInvert(t: PacketType, ack: PacketType)
    ensures ControlAckFor(t) == Some(ack) <==> ReverseControlAckFor(ack) == Some(t)
  {
  }

  // ------------------------------------------------------------------
  // Queue identity
  // ------------------------------------------------------------------

  /** What tells two queued packets of one type and stream apart. */
  datatype Identity = BySequenceAndFragment | BySequence | ByType

  function IdentityOf(t: PacketType): Identity {
    if t in {PACKET_SESSION_CLOSE, PACKET_SESSION_BUSY} then ByType
    else if PACKET_STREAM_CLOSE_WRITE <= t <= PACKET_STREAM_RST_ACK
         || PACKET_STREAM_CONNECTED <= t <= PACKET_STREAM_CONNECT_FAIL + 1
         || PACKET_SOCKS5_CONNECT_FAIL <= t <= PACKET_SOCKS5_CONNECTED_ACK
         || t in {PACKET_PACKED_CONTROL_BLOCKS, PACKET_ERROR_DROP, PACKET_PING, PACKET_PONG}
    then BySequence
    else BySequenceAndFragment
  }

  /** The 64-bit key; the shifted fields do not overlap, so the bitwise or is a sum. */
  function PacketIdentityKey(stream: Word16, t: PacketType, sn: Word16, fragment: PacketType): nat {
    stream * 0x100_0000_0000 + t * 0x1_0000_0000 + LowBits(t, sn, fragment)
  }

  /** Two packets share a key exactly when they agree in everything that identifies their type. */
  lemma KeyIdentifies(stream: Word16, t: PacketType, sn: Word16, fragment: PacketType,
                      stream': Word16, t': PacketType, sn': Word16, fragment': PacketType)
    ensures PacketIdentityKey(stream, t, sn, fragment) == PacketIdentityKey(stream', t', sn', fragment') <==>
            && stream == stream' && t == t'
            && (!IdentityOf(t).ByType? ==> sn == sn')
            && (IdentityOf(t).BySequenceAndFragment? ==> fragment == fragment')
    ensures PacketIdentityKey(stream, t, sn, fragment) < 0x1_0000_0000_0000_0000
  {
    FieldsIdentify(stream, t, LowBits(t, sn, fragment), stream', t', LowBits(t', sn', fragment'));
  }

  /** The fields below the packet type, which take 24 bits. */
  function LowBits(t: PacketType, sn: Word16, fragment: Byte): (low: nat)
    ensures low < 0x100_0000
  {
    match IdentityOf(t)
    case BySequenceAndFragment => sn * 256 + fragment
    case BySequence => sn * 256
    case ByType => 0
  }

  lemma FieldsIdentify(stream: Word16, t: PacketType, low: nat, stream': Word16, t': PacketType, low': nat)
    requires low < 0x100_0000 && low' < 0x100_0000
    ensures stream * 0x100_0000_0000 + t * 0x1_0000_0000 + low == stream' * 0x100_0000_0000 + t' * 0x1_0000_0000 + low' <==>
            stream == stream' && t == t' && low == low'
  {
  }

  /** DefaultPacketPriority. */
  function DefaultPriority(t: PacketType): nat {
    if t in {PACKET_STREAM_RESEND, PACKET_DNS_QUERY_RES, PACKET_DNS_QUERY_REQ} then 1
    else if t in {PACKET_STREAM_CLOSE_WRITE, PACKET_SESSION_CLOSE} then 4
    else if t in {PACKET_PING, PACKET_PONG} then 5
    else if PACKET_STREAM_SYN <= t <= PACKET_STREAM_CONNECT_FAIL + 1
         || PACKET_STREAM_DATA_ACK <= t <= PACKET_STREAM_DATA_NACK
         || PACKET_STREAM_CLOSE_WRITE_ACK <= t <= PACKET_SOCKS5_CONNECTED_ACK
         || t in {PACKET_DNS_QUERY_REQ_ACK, PACKET_DNS_QUERY_RES_ACK} then 0
    else 3
  }

  /** NormalizePacketPriority. */
  function NormalizedPriority(t: PacketType, priority: int): (p: nat)
    ensures p <= 5
  {
    if 0 <= priority <= 5 then priority else DefaultPriority(t)
  }
}
