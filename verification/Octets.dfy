/** Bytes, 16-bit words and ASCII letters. */
module Octets {
  type Byte = x: int | 0 <= x < 256
  type Bytes = seq<Byte>
  type Word16 = x: int | 0 <= x < 65536

  const DOT: Byte := 46

  function Lower(ch: Byte): Byte {
    if 65 <= ch <= 90 then ch + 32 else ch
  }

  function LowerAll(s: Bytes): (r: Bytes)
    ensures |r| == |s| && forall i :: 0 <= i < |s| ==> r[i] == Lower(s[i])
  {
    seq(|s|, i requires 0 <= i < |s| => Lower(s[i]))
  }

  /** Equal up to the case of ASCII letters. */
  predicate SameText(a: Bytes, b: Bytes) {
    |a| == |b| && forall i :: 0 <= i < |a| ==> Lower(a[i]) == Lower(b[i])
  }

  /** Big-endian 16-bit words. */
  function Be16(v: Word16): Bytes {
    [v / 256, v % 256]
  }

  function Read16(data: Bytes, at: nat): Word16
    requires at + 2 <= |data|
  {
    (data[at] as int) * 256 + (data[at + 1] as int)
  }
}
