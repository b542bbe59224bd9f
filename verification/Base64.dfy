/** Base 64 without padding (section 4 of RFC 4648), as the Go library's RawStdEncoding encodes and decodes it. */
module Base64 {
  import opened Octets
  import opened Enums

  type Digit64 = x: int | 0 <= x < 64

  function Letter(d: Digit64): Byte {
    if d < 26 then 65 + d else if d < 52 then 71 + d else if d < 62 then d - 4 else if d == 62 then 43 else 47
  }

  function DigitOf(ch: Byte): Option<Digit64> {
    if 65 <= ch <= 90 then Some(ch - 65)
    else if 97 <= ch <= 122 then Some(ch - 71)
    else if 48 <= ch <= 57 then Some(ch + 4)
    else if ch == 43 then Some(62)
    else if ch == 47 then Some(63)
    else None
  }

  /** The letters of section 4 of RFC 4648, in its order. */
  lemma LettersAreTheStandard(d: Digit64)
    ensures d < 26 ==> Letter(d) == 'A' as int + d
    ensures 26 <= d < 52 ==> Letter(d) == 'a' as int + (d - 26)
    ensures 52 <= d < 62 ==> Letter(d) == '0' as int + (d - 52)
    ensures Letter(62) == '+' as int && Letter(63) == '/' as int
  {
  }

  function Encode(data: Bytes): Bytes {
    if |data| == 0 then []
    else if |data| == 1 then [Letter(data[0] / 4), Letter(data[0] % 4 * 16)]
    else if |data| == 2 then
      [Letter(data[0] / 4), Letter(data[0] % 4 * 16 + data[1] / 16), Letter(data[1] % 16 * 4)]
    else
      [Letter(data[0] / 4), Letter(data[0] % 4 * 16 + data[1] / 16), Letter(data[1] % 16 * 4 + data[2] / 64), Letter(data[2] % 64)]
      + Encode(data[3..])
  }

  /** RawStdEncoding.EncodedLen. */
  function EncodedLen(n: nat): nat {
    n / 3 * 4 + (n % 3 * 8 + 5) / 6
  }

  lemma {:induction false} EncodedLength(data: Bytes)
    ensures |Encode(data)| == EncodedLen(|data|)
    decreases |data|
  {
    if |data| >= 3 {
      EncodedLength(data[3..]);
    }
  }

  function Decode(text: Bytes): Option<Bytes> {
    if |text| == 0 then Some([])
    else if |text| == 1 then None
    else
      var a, b := DigitOf(text[0]), DigitOf(text[1]);
      if a.None? || b.None? then None
      else
        var first: Byte := a.value * 4 + b.value / 16;
        if |text| == 2 then Some([first])
        else
          var c := DigitOf(text[2]);
          if c.None? then None
          else
            var second: Byte := b.value % 16 * 16 + c.value / 4;
            if |text| == 3 then Some([first, second])
            else
              var d, rest := DigitOf(text[3]), Decode(text[4..]);
              if d.None? || rest.None? then None
              else Some([first, second, c.value % 4 * 64 + d.value] + rest.value)
  }

  lemma LetterDecodes(d: Digit64)
    ensures DigitOf(Letter(d)) == Some(d)
  {
  }

  /** Three bytes regrouped into four digits and back. */
  lemma Regroup(x: Byte, y: Byte, z: Byte)
    ensures x / 4 * 4 + (x % 4 * 16 + y / 16) / 16 == x
    ensures (x % 4 * 16 + y / 16) % 16 * 16 + (y % 16 * 4 + z / 64) / 4 == y
    ensures (y % 16 * 4 + z / 64) % 4 * 64 + z % 64 == z
  {
  }

  lemma OneDecodes(x: Byte)
    ensures Decode([Letter(x / 4), Letter(x % 4 * 16)]) == Some([x])
  {
    LetterDecodes(x / 4);
    LetterDecodes(x % 4 * 16);
    Regroup(x, 0, 0);
  }

  lemma TwoDecode(x: Byte, y: Byte)
    ensures Decode([Letter(x / 4), Letter(x % 4 * 16 + y / 16), Letter(y % 16 * 4)]) == Some([x, y])
  {
    LetterDecodes(x / 4);
    LetterDecodes(x % 4 * 16 + y / 16);
    LetterDecodes(y % 16 * 4);
    Regroup(x, y, 0);
  }

  lemma OneRoundTrip(data: Bytes)
    requires |data| == 1
    ensures Decode(Encode(data)) == Some(data)
  {
    OneDecodes(data[0]);
    assert data == [data[0]];
  }

  lemma TwoRoundTrip(data: Bytes)
    requires |data| == 2
    ensures Decode(Encode(data)) == Some(data)
  {
    TwoDecode(data[0], data[1]);
    assert data == [data[0], data[1]];
  }

  lemma FourDecode(text: Bytes, a: Digit64, b: Digit64, c: Digit64, d: Digit64)
    requires |text| >= 4 && text[0] == Letter(a) && text[1] == Letter(b) && text[2] == Letter(c) && text[3] == Letter(d)
    requires Decode(text[4..]).Some?
    ensures Decode(text) == Some([a * 4 + b / 16, b % 16 * 16 + c / 4, c % 4 * 64 + d] + Decode(text[4..]).value)
  {
    LetterDecodes(a);
    LetterDecodes(b);
    LetterDecodes(c);
    LetterDecodes(d);
  }

  lemma EncodeLong(data: Bytes)
    requires |data| >= 3
    ensures var t := Encode(data);
            && |t| >= 4 && t[4..] == Encode(data[3..])
            && t[0] == Letter(data[0] / 4) && t[1] == Letter(data[0] % 4 * 16 + data[1] / 16)
            && t[2] == Letter(data[1] % 16 * 4 + data[2] / 64) && t[3] == Letter(data[2] % 64)
  {
  }

  lemma ThreeDecode(text: Bytes, x: Byte, y: Byte, z: Byte, rest: Bytes)
    requires |text| >= 4 && text[0] == Letter(x / 4) && text[1] == Letter(x % 4 * 16 + y / 16)
    requires text[2] == Letter(y % 16 * 4 + z / 64) && text[3] == Letter(z % 64)
    requires Decode(text[4..]) == Some(rest)
    ensures Decode(text) == Some([x, y, z] + rest)
  {
    FourDecode(text, x / 4, x % 4 * 16 + y / 16, y % 16 * 4 + z / 64, z % 64);
    Regroup(x, y, z);
  }

  lemma {:induction false} RoundTrip(data: Bytes)
    ensures Decode(Encode(data)) == Some(data)
    decreases |data|
  {
    if |data| == 1 {
      OneRoundTrip(data);
    } else if |data| == 2 {
      TwoRoundTrip(data);
    } else if |data| >= 3 {
      RoundTrip(data[3..]);
      EncodeLong(data);
      ThreeDecode(Encode(data), data[0], data[1], data[2], data[3..]);
      assert data == [data[0], data[1], data[2]] + data[3..];
    }
  }
}
