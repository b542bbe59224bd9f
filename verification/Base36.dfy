/**
 Lower-case base 36: bytes in blocks of seven become eleven characters, and a shorter last block the
 number of characters its size needs.  Characters are their ASCII codes; either letter case decodes.
 */
module Base36 {
  import opened Enums
  import opened Octets

  type Digit = x: int | 0 <= x < 36
  type Word64 = x: int | 0 <= x < 0x1_0000_0000_0000_0000

  // ------------------------------------------------------------------
  // Positional notation
  // ------------------------------------------------------------------

  type Base = b: int | b == 36 || b == 256 witness 36

  function Times(v: nat, b: Base): nat {
    if b == 36 then v * 36 else v * 256
  }

  function Quotient(v: nat, b: Base): nat {
    if b == 36 then v / 36 else v / 256
  }

  function Rest(v: nat, b: Base): nat {
    if b == 36 then v % 36 else v % 256
  }

  function Pow(b: Base, e: nat): nat {
    if e == 0 then 1 else Times(Pow(b, e - 1), b)
  }

  /** The number that digits in base `b` stand for, most significant first. */
  function Value(b: Base, digits: seq<nat>): nat {
    if digits == [] then 0 else Times(Value(b, digits[..|digits| - 1]), b) + digits[|digits| - 1]
  }

  /** The last `count` digits of `v` in base `b`. */
  function Digits(b: Base, v: nat, count: nat): (r: seq<nat>)
    ensures |r| == count && forall i :: 0 <= i < count ==> r[i] < b
    decreases count
  {
    if count == 0 then [] else Digits(b, Quotient(v, b), count - 1) + [Rest(v, b)]
  }

  /** Peeling the last digit off the unwritten part. */
  lemma DigitsStep(b: Base, all: seq<nat>, v: nat, i: nat)
    requires i < |all| && all[..i + 1] == Digits(b, v, i + 1)
    ensures all[..i] == Digits(b, Quotient(v, b), i) && all[i] == Rest(v, b)
  {
    assert all[i] == all[..i + 1][i];
    assert all[..i] == all[..i + 1][..i];
  }

  lemma {:induction false} ValueBound(b: Base, digits: seq<nat>)
    requires forall i :: 0 <= i < |digits| ==> digits[i] < b
    ensures Value(b, digits) < Pow(b, |digits|)
    decreases |digits|
  {
    if digits != [] {
      ValueBound(b, digits[..|digits| - 1]);
    }
  }

  lemma PeelDigit(b: Base, v: nat, d: nat)
    requires d < b
    ensures Quotient(Times(v, b) + d, b) == v && Rest(Times(v, b) + d, b) == d
  {
  }

  lemma {:induction false} DigitsOfValue(b: Base, digits: seq<nat>)
    requires forall i :: 0 <= i < |digits| ==> digits[i] < b
    ensures Digits(b, Value(b, digits), |digits|) == digits
    decreases |digits|
  {
    if digits != [] {
      var n := |digits| - 1;
      PeelDigit(b, Value(b, digits[..n]), digits[n]);
      DigitsOfValue(b, digits[..n]);
      assert digits == digits[..n] + [digits[n]];
    }
  }

  lemma {:induction false} ValueOfDigits(b: Base, v: nat, count: nat)
    requires v < Pow(b, count)
    ensures Value(b, Digits(b, v, count)) == v
    decreases count
  {
    if count > 0 {
      ValueOfDigits(b, Quotient(v, b), count - 1);
      var d := Digits(b, v, count);
      assert d[..|d| - 1] == Digits(b, Quotient(v, b), count - 1);
    }
  }

  // ------------------------------------------------------------------
  // Blocks
  // ------------------------------------------------------------------

  /** lowerBase36EncodedCharsByBytes. */
  function CharsFor(bytes: nat): nat
    requires bytes <= 7
  {
    match bytes case 0 => 0 case 1 => 2 case 2 => 4 case 3 => 5 case 4 => 7 case 5 => 8 case 6 => 10 case 7 => 11
  }

  /** lowerBase36DecodedBytesByChars. */
  function BytesFor(chars: nat): nat
    requires chars <= 11
  {
    match chars
    case 2 => 1 case 4 => 2 case 5 => 3 case 7 => 4 case 8 => 5 case 10 => 6 case 11 => 7
    case _ => 0
  }

  /** Every block size fits its number of characters, in 64 bits, and the size is recovered from that number. */
  lemma BlocksFit(k: nat)
    requires 1 <= k <= 7
    ensures Pow(256, k) <= Pow(36, CharsFor(k)) <= Pow(36, 11) < 0x1_0000_0000_0000_0000
    ensures BytesFor(CharsFor(k)) == k
    ensures Pow(36, CharsFor(k) - 1) < Pow(256, k)
  {
    Powers();
  }

  lemma Powers()
    ensures Pow(36, 1) == 36 && Pow(36, 2) == 1296 && Pow(36, 3) == 46656 && Pow(36, 4) == 1679616
    ensures Pow(36, 5) == 60466176 && Pow(36, 6) == 2176782336 && Pow(36, 7) == 78364164096
    ensures Pow(36, 8) == 2821109907456 && Pow(36, 9) == 101559956668416 && Pow(36, 10) == 3656158440062976
    ensures Pow(36, 11) == 131621703842267136
    ensures Pow(256, 1) == 256 && Pow(256, 2) == 65536 && Pow(256, 3) == 16777216 && Pow(256, 4) == 4294967296
    ensures Pow(256, 5) == 1099511627776 && Pow(256, 6) == 281474976710656 && Pow(256, 7) == 72057594037927936
  {
  }

  function Letter(d: Digit): Byte {
    if d < 10 then 48 + d else 87 + d
  }

  /** The decode map: either case of a letter, or nothing. */
  function DigitOf(ch: Byte): Option<Digit> {
    if 48 <= ch <= 57 then Some(ch - 48)
    else if 97 <= ch <= 122 then Some(ch - 87)
    else if 65 <= ch <= 90 then Some(ch - 55)
    else None
  }

  /** The digits, then the letters in lower case. */
  lemma LettersInOrder(d: Digit)
    ensures Letter(d) == if d < 10 then '0' as int + d else 'a' as int + (d - 10)
  {
  }

  function Letters(digits: seq<nat>): Bytes
    requires forall i :: 0 <= i < |digits| ==> digits[i] < 36
  {
    seq(|digits|, i requires 0 <= i < |digits| => Letter(digits[i]))
  }

  function EncodeBlock(data: Bytes): (text: Bytes)
    requires |data| <= 7
    ensures |text| == CharsFor(|data|)
  {
    Letters(Digits(36, Value(256, data), CharsFor(|data|)))
  }

  function Encode(data: Bytes): Bytes
    decreases |data|
  {
    if |data| < 7 then EncodeBlock(data) else EncodeBlock(data[..7]) + Encode(data[7..])
  }

  /** EncodedLenLowerBase36. */
  function EncodedLen(n: nat): nat {
    n / 7 * 11 + CharsFor(n % 7)
  }

  lemma {:induction false} EncodedLength(data: Bytes)
    ensures |Encode(data)| == EncodedLen(|data|)
    decreases |data|
  {
    if |data| >= 7 {
      EncodedLength(data[7..]);
      LengthStep(|data|);
    }
  }

  lemma LengthStep(n: nat)
    requires n >= 7
    ensures EncodedLen(n) == 11 + EncodedLen(n - 7)
  {
  }

  /** The number a block of characters stands for, if all of them are letters or digits. */
  function BlockValue(text: Bytes): Option<nat> {
    if text == [] then Some(0)
    else
      var n := |text| - 1;
      var v, d := BlockValue(text[..n]), DigitOf(text[n]);
      if v.None? || d.None? then None else Some(v.value * 36 + d.value)
  }

  function BytesOf(v: nat, count: nat): (r: Bytes)
    ensures |r| == count
  {
    var d := Digits(256, v, count);
    seq(count, i requires 0 <= i < count => d[i])
  }

  /** decodedLenLowerBase36: a length no encoder produces is refused. */
  function DecodedLen(n: nat): Option<nat> {
    var k := BytesFor(n % 11);
    if n % 11 != 0 && k == 0 then None else Some(n / 11 * 7 + k)
  }

  /** lowerBase36NextDecodeBlock. */
  function BlockChars(remaining: nat): nat {
    if remaining >= 11 then 11 else remaining
  }

  function DecodeBlocks(text: Bytes): Option<Bytes>
    decreases |text|
  {
    if text == [] then Some([])
    else
      var c := BlockChars(|text|);
      var v, rest := BlockValue(text[..c]), DecodeBlocks(text[c..]);
      if v.None? || rest.None? then None else Some(BytesOf(v.value, BytesFor(c)) + rest.value)
  }

  function Decode(text: Bytes): Option<Bytes> {
    if DecodedLen(|text|).None? then None else DecodeBlocks(text)
  }

  // ------------------------------------------------------------------
  // Round trip
  // ------------------------------------------------------------------

  lemma LetterDecodes(d: Digit, ch: Byte)
    requires Lower(ch) == Lower(Letter(d))
    ensures DigitOf(ch) == Some(d)
  {
  }

  lemma {:induction false} BlockValueOf(digits: seq<nat>, text: Bytes)
    requires forall i :: 0 <= i < |digits| ==> digits[i] < 36
    requires SameText(text, Letters(digits))
    ensures BlockValue(text) == Some(Value(36, digits))
    decreases |text|
  {
    if text != [] {
      var n := |text| - 1;
      assert Letters(digits)[..n] == Letters(digits[..n]);
      BlockValueOf(digits[..n], text[..n]);
      LetterDecodes(digits[n], text[n]);
    }
  }

  lemma BlockRoundTrip(data: Bytes, text: Bytes)
    requires 1 <= |data| <= 7 && SameText(text, EncodeBlock(data))
    ensures BlockValue(text) == Some(Value(256, data)) && BytesOf(Value(256, data), |data|) == data
  {
    var c, v := CharsFor(|data|), Value(256, data);
    BlockValueOf(Digits(36, v, c), text);
    ValueBound(256, data);
    BlocksFit(|data|);
    ValueOfDigits(36, v, c);
    DigitsOfValue(256, data);
  }

  /** The whole data comes back, whatever happened to the case of the letters. */
  lemma {:induction false} BlocksRoundTrip(data: Bytes, text: Bytes)
    requires SameText(text, Encode(data))
    ensures DecodeBlocks(text) == Some(data)
    decreases |data|
  {
    if 0 < |data| {
      var k := if |data| < 7 then |data| else 7;
      var c := CharsFor(k);
      BlocksFit(k);
      EncodeSplits(data, k);
      assert data == data[..k] + data[k..];
      BlockRoundTrip(data[..k], text[..c]);
      BlocksRoundTrip(data[k..], text[c..]);
    }
  }

  /** The first block and the rest; a short block is the last one. */
  lemma EncodeSplits(data: Bytes, k: nat)
    requires 0 < k <= 7 && k <= |data| && (k < 7 ==> k == |data|)
    ensures Encode(data) == EncodeBlock(data[..k]) + Encode(data[k..])
    ensures BlockChars(|Encode(data)|) == CharsFor(k)
  {
    if |data| < 7 {
      assert data[..k] == data;
      EncodeShort(data);
      EncodeShort(data[k..]);
      assert Encode(data[k..]) == [];
    } else {
      EncodeLong(data);
    }
  }

  lemma RoundTrip(data: Bytes, text: Bytes)
    requires SameText(text, Encode(data))
    ensures Decode(text) == Some(data)
    ensures DecodedLen(EncodedLen(|data|)) == Some(|data|)
  {
    EncodedLength(data);
    LengthsInvert(|data|);
    BlocksRoundTrip(data, text);
  }

  lemma LengthsInvert(n: nat)
    ensures DecodedLen(EncodedLen(n)) == Some(n)
  {
    var blocks, rem := n / 7, n % 7;
    assert EncodedLen(n) == blocks * 11 + CharsFor(rem);
  }

  /** Encoding is injective and its text has only digits and lower-case letters. */
  lemma EncodeInjective(a: Bytes, b: Bytes)
    ensures Encode(a) == Encode(b) ==> a == b
  {
    RoundTrip(a, Encode(a));
    if Encode(a) == Encode(b) {
      RoundTrip(b, Encode(b));
    }
  }

  lemma BlockIsLower(data: Bytes)
    requires |data| <= 7
    ensures var t := EncodeBlock(data); forall i :: 0 <= i < |t| ==> DigitOf(t[i]).Some? && Lower(t[i]) == t[i]
  {
  }

  lemma {:induction false} EncodedIsLower(data: Bytes)
    ensures forall i :: 0 <= i < |Encode(data)| ==> DigitOf(Encode(data)[i]).Some? && Lower(Encode(data)[i]) == Encode(data)[i]
    decreases |data|
  {
    if |data| >= 7 {
      EncodedIsLower(data[7..]);
      BlockIsLower(data[..7]);
    } else {
      BlockIsLower(data);
    }
  }

  // ------------------------------------------------------------------
  // The loops
  // ------------------------------------------------------------------

  /** writeBase36Block. */
  method WriteBlock(dst: array<Byte>, at: nat, val: Word64, count: nat)
    requires at + count <= dst.Length
    modifies dst
    ensures |Digits(36, val, count)| == count && forall i :: 0 <= i < count ==> Digits(36, val, count)[i] < 36
    ensures dst[..] == old(dst[..at]) + Letters(Digits(36, val, count)) + old(dst[at + count..])
  {
    ghost var all := Letters(Digits(36, val, count));
    var i, v: Word64 := count, val;
    while i > 0
      invariant 0 <= i <= count
      invariant Digits(36, val, count)[..i] == Digits(36, v, i)
      invariant dst[..at] == old(dst[..at]) && dst[at + count..] == old(dst[at + count..])
      invariant dst[at + i..at + count] == all[i..]
    {
      i := i - 1;
      DigitsStep(36, Digits(36, val, count), v, i);
      dst[at + i] := Letter(v % 36);
      v := v / 36;
    }
    assert dst[..] == dst[..at] + dst[at..at + count] + dst[at + count..];
  }

  /** The shifts that pack a block into one word. */
  method PackBlock(block: Bytes) returns (val: Word64)
    requires |block| <= 7
    ensures val == Value(256, block)
  {
    val := 0;
    for i := 0 to |block|
      invariant val == Value(256, block[..i])
    {
      assert block[..i + 1][..i] == block[..i];
      PackFits(block[..i + 1]);
      val := val * 256 + block[i];
    }
    assert block[..|block|] == block;
  }

  lemma PackFits(block: Bytes)
    requires |block| <= 7
    ensures Value(256, block) < 0x1_0000_0000_0000_0000
  {
    ValueBound(256, block);
    Powers();
  }

  /** EncodeLowerBase36To. */
  method EncodeTo(dst: array<Byte>, data: Bytes) returns (offset: nat)
    requires EncodedLen(|data|) <= dst.Length
    modifies dst
    ensures offset == EncodedLen(|data|) && dst[..offset] == Encode(data) && dst[offset..] == old(dst[offset..])
  {
    offset := 0;
    var src := data;
    ghost var end := EncodedLen(|data|);
    while |src| >= 7
      invariant offset + EncodedLen(|src|) == end
      invariant dst[..offset] + Encode(src) == Encode(data)
      invariant dst[end..] == old(dst[end..])
    {
      LengthStep(|src|);
      EncodeLong(src);
      EncodeOne(dst, offset, src[..7], Encode(src[7..]), end);
      offset := offset + 11;
      src := src[7..];
    }
    if |src| > 0 {
      EncodeShort(src);
      ShortLength(|src|);
      EncodeOne(dst, offset, src, [], end);
      offset := offset + CharsFor(|src|);
    }
  }

  lemma EncodeLong(src: Bytes)
    requires |src| >= 7
    ensures Encode(src) == EncodeBlock(src[..7]) + Encode(src[7..])
  {
  }

  lemma EncodeShort(src: Bytes)
    requires |src| < 7
    ensures Encode(src) == EncodeBlock(src)
  {
  }

  lemma ShortLength(n: nat)
    requires n < 7
    ensures EncodedLen(n) == CharsFor(n)
  {
  }

  /** One block; `rest` is the text still to come, `end` where the text will end. */
  method EncodeOne(dst: array<Byte>, offset: nat, block: Bytes, ghost rest: Bytes, ghost end: nat)
    requires 1 <= |block| <= 7 && offset + CharsFor(|block|) <= end <= dst.Length
    modifies dst
    ensures dst[..offset + CharsFor(|block|)] == old(dst[..offset]) + EncodeBlock(block)
    ensures dst[..offset + CharsFor(|block|)] + rest == old(dst[..offset]) + (EncodeBlock(block) + rest)
    ensures dst[end..] == old(dst[end..])
  {
    var val := PackBlock(block);
    ghost var before := dst[..];
    WriteBlock(dst, offset, val, CharsFor(|block|));
    Appended(before, dst[..], offset, EncodeBlock(block), rest, end);
  }

  /** What writing one more block does to the finished part and to what lies behind. */
  lemma Appended(before: Bytes, after: Bytes, offset: nat, block: Bytes, rest: Bytes, end: nat)
    requires offset + |block| <= end <= |before|
    requires after == before[..offset] + block + before[offset + |block|..]
    ensures |after| == |before| && after[end..] == before[end..]
    ensures after[..offset + |block|] == before[..offset] + block
    ensures after[..offset + |block|] + rest == before[..offset] + (block + rest)
  {
  }

  /** readBase36Block: the value of a block, which never overflows 64 bits. */
  method ReadBlock(text: Bytes) returns (val: Option<Word64>)
    requires |text| <= 11
    ensures val == BlockValue(text)
  {
    var v: Word64 := 0;
    for i := 0 to |text|
      invariant BlockValue(text[..i]) == Some(v)
    {
      assert text[..i + 1][..i] == text[..i];
      BlockFits(text[..i + 1]);
      var digit := DigitOf(text[i]);
      if digit.None? {
        BlockNone(text, i);
        return None;
      }
      v := v * 36 + digit.value;
    }
    assert text[..|text|] == text;
    return Some(v);
  }

  lemma {:induction false} BlockFits(text: Bytes)
    requires |text| <= 11
    ensures BlockValue(text).Some? ==> BlockValue(text).value < Pow(36, |text|) <= Pow(36, 11) < 0x1_0000_0000_0000_0000
    decreases |text|
  {
    Powers();
    if text != [] && BlockValue(text).Some? {
      var n := |text| - 1;
      BlockFits(text[..n]);
    }
  }

  /** One bad character spoils the block. */
  lemma {:induction false} BlockNone(text: Bytes, i: nat)
    requires i < |text| && DigitOf(text[i]).None?
    ensures BlockValue(text).None?
    decreases |text|
  {
    if i < |text| - 1 {
      BlockNone(text[..|text| - 1], i);
    }
  }

  /** The bytes of a block, written from the last to the first. */
  method WriteBytes(dst: array<Byte>, at: nat, val: Word64, count: nat)
    requires at + count <= dst.Length
    modifies dst
    ensures dst[..] == old(dst[..at]) + BytesOf(val, count) + old(dst[at + count..])
  {
    ghost var all := BytesOf(val, count);
    var i, v: Word64 := count, val;
    while i > 0
      invariant 0 <= i <= count
      invariant Digits(256, val, count)[..i] == Digits(256, v, i)
      invariant dst[..at] == old(dst[..at]) && dst[at + count..] == old(dst[at + count..])
      invariant dst[at + i..at + count] == all[i..]
    {
      i := i - 1;
      DigitsStep(256, Digits(256, val, count), v, i);
      dst[at + i] := v % 256;
      v := v / 256;
    }
    assert dst[..] == dst[..at] + dst[at..at + count] + dst[at + count..];
  }

  /** DecodeLowerBase36 and DecodeLowerBase36String, which differ only in the type of the text. */
  method DecodeText(text: Bytes) returns (data: Option<Bytes>)
    ensures data == Decode(text)
  {
    if |text| == 0 {
      return Some([]);
    }
    var total := DecodedLen(|text|);
    if total.None? {
      return None;
    }
    LengthIsTotal(|text|);
    var out := new Byte[total.value](_ => 0);
    var ok := DecodeInto(out, text);
    return if ok then Some(out[..]) else None;
  }

  method DecodeInto(out: array<Byte>, text: Bytes) returns (ok: bool)
    requires out.Length == Total(|text|)
    modifies out
    ensures DecodeBlocks(text) == if ok then Some(out[..]) else None
  {
    var offset: nat, src := 0, text;
    assert out[..0] == [];
    PrefixedNothing(DecodeBlocks(text));
    while |src| > 0
      invariant offset <= out.Length && offset + Total(|src|) == out.Length
      invariant DecodeBlocks(text) == Prefixed(out[..offset], DecodeBlocks(src))
      decreases |src|
    {
      var charCount := BlockChars(|src|);
      var blockSize := BytesFor(charCount);
      DecodeStep(src);
      ghost var done := out[..offset];
      ok := DecodeOne(out, offset, src[..charCount], blockSize);
      if !ok {
        return;
      }
      PrefixedStep(done, out[offset..offset + blockSize], DecodeBlocks(src[charCount..]));
      offset := offset + blockSize;
      src := src[charCount..];
    }
    assert out[..offset] + [] == out[..];
    return true;
  }

  /** One block: read its characters, write its bytes. */
  method DecodeOne(out: array<Byte>, offset: nat, block: Bytes, size: nat) returns (ok: bool)
    requires |block| <= 11 && offset + size <= out.Length
    modifies out
    ensures ok == BlockValue(block).Some?
    ensures ok ==> out[..offset + size] == old(out[..offset]) + BytesOf(BlockValue(block).value, size)
    ensures ok ==> out[offset..offset + size] == BytesOf(BlockValue(block).value, size)
  {
    var val := ReadBlock(block);
    if val.None? {
      return false;
    }
    ghost var before := out[..];
    WriteBytes(out, offset, val.value, size);
    Appended(before, out[..], offset, BytesOf(val.value, size), [], offset + size);
    return true;
  }

  ghost function Prefixed(done: Bytes, rest: Option<Bytes>): Option<Bytes> {
    if rest.None? then None else Some(done + rest.value)
  }

  lemma PrefixedNothing(rest: Option<Bytes>)
    ensures Prefixed([], rest) == rest
  {
    if rest.Some? {
      assert [] + rest.value == rest.value;
    }
  }

  lemma DecodeStep(text: Bytes)
    requires text != []
    ensures var c := BlockChars(|text|); var v := BlockValue(text[..c]);
            DecodeBlocks(text) == if v.None? then None else Prefixed(BytesOf(v.value, BytesFor(c)), DecodeBlocks(text[c..]))
  {
  }

  lemma PrefixedStep(done: Bytes, block: Bytes, rest: Option<Bytes>)
    ensures Prefixed(done, Prefixed(block, rest)) == Prefixed(done + block, rest)
  {
    if rest.Some? {
      assert done + (block + rest.value) == (done + block) + rest.value;
    }
  }

  /** The bytes that the blocks of a text of length `n` decode to. */
  function Total(n: nat): nat {
    if n == 0 then 0 else BytesFor(BlockChars(n)) + Total(n - BlockChars(n))
  }

  lemma {:induction false} LengthIsTotal(n: nat)
    requires DecodedLen(n).Some?
    ensures DecodedLen(n).value == Total(n)
  {
    if n >= 11 {
      Elevens(n);
      LengthIsTotal(n - 11);
      var k := BytesFor(n % 11);
      assert DecodedLen(n).value == n / 11 * 7 + k;
      assert DecodedLen(n - 11).value == (n / 11 - 1) * 7 + k;
    }
  }

  lemma Elevens(n: nat)
    requires n >= 11
    ensures (n - 11) / 11 == n / 11 - 1 && (n - 11) % 11 == n % 11
  {
  }

  lemma {:induction false} DecodedSize(text: Bytes)
    ensures DecodeBlocks(text).Some? ==> |DecodeBlocks(text).value| == Total(|text|)
    decreases |text|
  {
    if text != [] {
      DecodedSize(text[BlockChars(|text|)..]);
    }
  }

  /** Only texts as long as its encoding decode to some data. */
  lemma DecodeFixesLength(text: Bytes, data: Bytes)
    requires Decode(text) == Some(data)
    ensures |text| == |Encode(data)|
  {
    DecodedSize(text);
    LengthIsTotal(|text|);
    LengthsInvertBack(|text|);
    EncodedLength(data);
  }

  lemma LengthsInvertBack(n: nat)
    requires DecodedLen(n).Some?
    ensures EncodedLen(DecodedLen(n).value) == n
  {
    var blocks, rem := n / 11, n % 11;
    var k := BytesFor(rem);
    assert k < 7 && CharsFor(k) == rem;
    assert (blocks * 7 + k) / 7 == blocks && (blocks * 7 + k) % 7 == k;
  }

  lemma ZeroByteIsTwoZeros()
    ensures Encode([0]) == [48, 48]
  {
    assert [0][..0] == [] && Value(256, [0]) == 0;
    assert Digits(36, 0, 1) == [0];
    assert Digits(36, 0, 2) == [0, 0];
  }
}
