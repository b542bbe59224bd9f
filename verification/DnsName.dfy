/** Domain names: dotted text, wire form (section 3.1 of RFC 1035) and compression pointers (section 4.1.4). */
module DnsName {
  import opened Octets
  import opened Enums

  type Label = Bytes

  const MAX_NAME := 253
  const MAX_LABEL := 63
  const MAX_JUMPS := 10

  // ------------------------------------------------------------------
  // Dotted text and labels
  // ------------------------------------------------------------------

  predicate ProperLabel(part: Label) {
    1 <= |part| <= MAX_LABEL
  }

  predicate Proper(labels: seq<Label>) {
    forall i :: 0 <= i < |labels| ==> ProperLabel(labels[i])
  }

  predicate Dotless(s: Bytes) {
    DOT !in s
  }

  function Join(labels: seq<Label>): Bytes {
    if labels == [] then []
    else if |labels| == 1 then labels[0]
    else labels[0] + [DOT] + Join(labels[1..])
  }

  /** Position of the first dot; the length when there is none. */
  function FirstDot(s: Bytes): (i: nat)
    ensures i <= |s| && Dotless(s[..i]) && (i < |s| ==> s[i] == DOT)
  {
    if s == [] || s[0] == DOT then 0 else 1 + FirstDot(s[1..])
  }

  function Split(s: Bytes): seq<Label>
    decreases |s|
  {
    var i := FirstDot(s);
    if i == |s| then [s] else [s[..i]] + Split(s[i + 1..])
  }

  lemma {:induction false} FirstDotUnique(s: Bytes, i: nat)
    requires i <= |s| && Dotless(s[..i]) && (i < |s| ==> s[i] == DOT)
    ensures FirstDot(s) == i
    decreases i
  {
    if i > 0 {
      assert s[0] == s[..i][0];
      assert s[1..][..i - 1] == s[..i][1..];
      FirstDotUnique(s[1..], i - 1);
    }
  }

  lemma {:induction false} SplitJoin(s: Bytes)
    ensures Join(Split(s)) == s && Split(s) != []
    ensures forall i :: 0 <= i < |Split(s)| ==> Dotless(Split(s)[i])
    decreases |s|
  {
    var i := FirstDot(s);
    if i < |s| {
      SplitJoin(s[i + 1..]);
      assert s == s[..i] + [DOT] + s[i + 1..];
    } else {
      assert s[..i] == s;
    }
  }

  lemma {:induction false} JoinSplit(labels: seq<Label>)
    requires labels != [] && forall i :: 0 <= i < |labels| ==> Dotless(labels[i])
    ensures Split(Join(labels)) == labels
    decreases |labels|
  {
    var s := Join(labels);
    if |labels| == 1 {
      assert s[..|s|] == s;
      FirstDotUnique(s, |s|);
    } else {
      var n := |labels[0]|;
      assert s[..n] == labels[0] && s[n] == DOT && s[n + 1..] == Join(labels[1..]);
      FirstDotUnique(s, n);
      JoinSplit(labels[1..]);
    }
  }

  // ------------------------------------------------------------------
  // Wire form
  // ------------------------------------------------------------------

  function WireLabels(labels: seq<Label>): Bytes
    requires Proper(labels)
  {
    if labels == [] then [] else [|labels[0]|] + labels[0] + WireLabels(labels[1..])
  }

  function WireName(labels: seq<Label>): Bytes
    requires Proper(labels)
  {
    WireLabels(labels) + [0]
  }

  lemma {:induction false} WireLabelsAppend(a: seq<Label>, b: seq<Label>)
    requires Proper(a) && Proper(b)
    ensures Proper(a + b) && WireLabels(a + b) == WireLabels(a) + WireLabels(b)
  {
    if a == [] {
      assert a + b == b;
    } else {
      assert (a + b)[1..] == a[1..] + b;
      WireLabelsAppend(a[1..], b);
    }
  }

  lemma WireLabelsPush(done: seq<Label>, part: Label)
    requires Proper(done) && ProperLabel(part)
    ensures Proper(done + [part]) && WireLabels(done + [part]) == WireLabels(done) + [|part|] + part
  {
    assert [part][1..] == [];
    assert WireLabels([part]) == [|part|] + part + [];
    WireLabelsAppend(done, [part]);
  }

  /** A name on the wire is one byte longer than its text plus the final zero. */
  lemma {:induction false} WireLength(labels: seq<Label>)
    requires Proper(labels) && labels != []
    ensures |WireLabels(labels)| == |Join(labels)| + 1
    decreases |labels|
  {
    if |labels| > 1 {
      WireLength(labels[1..]);
    } else {
      assert labels[1..] == [];
    }
  }

  // ------------------------------------------------------------------
  // Parsing
  // ------------------------------------------------------------------

  datatype Parsed = Parsed(labels: seq<Label>, next: nat) | BadName

  /** The name at an offset: its labels in lower case, and where the name ends in place. */
  function NameAt(data: Bytes, offset: nat, jumps: nat): Parsed
    decreases jumps, |data| - offset
  {
    if offset >= |data| then BadName
    else
      var length := data[offset];
      if length == 0 then Parsed([], offset + 1)
      else if length >= 192 then
        if offset + 1 >= |data| || jumps == 0 then BadName
        else
          var ptr := Read16(data, offset) % 0x4000;
          if ptr >= |data| then BadName
          else
            var rest := NameAt(data, ptr, jumps - 1);
            if rest.BadName? then BadName else Parsed(rest.labels, offset + 2)
      else if length > MAX_LABEL || offset + 1 + length > |data| then BadName
      else
        var rest := NameAt(data, offset + 1 + length, jumps);
        if rest.BadName? then BadName
        else Parsed([LowerAll(data[offset + 1..offset + 1 + length])] + rest.labels, rest.next)
  }

  /** The text of a parsed name; the root is a single dot. */
  function TextOf(labels: seq<Label>): Bytes {
    if labels == [] then [DOT] else Join(labels)
  }

  lemma {:induction false} JoinAppend(a: seq<Label>, part: Label)
    ensures Join(a + [part]) == if a == [] then part else Join(a) + [DOT] + part
    decreases |a|
  {
    if |a| >= 1 {
      assert (a + [part])[1..] == a[1..] + [part];
      JoinAppend(a[1..], part);
    }
  }

  /** What is still to be parsed, seen from the labels already written. */
  ghost function Continued(done: seq<Label>, rest: Parsed, jumped: bool, origNext: nat): Parsed {
    if rest.BadName? then BadName else Parsed(done + rest.labels, if jumped then origNext else rest.next)
  }

  lemma ContinuedStep(done: seq<Label>, part: Label, rest: Parsed, jumped: bool, origNext: nat)
    requires rest.Parsed?
    ensures Continued(done, Parsed([part] + rest.labels, rest.next), jumped, origNext)
         == Continued(done + [part], rest, jumped, origNext)
  {
    assert done + ([part] + rest.labels) == (done + [part]) + rest.labels;
  }

  /** What the loop of parseName has done so far agrees with the whole name. */
  ghost predicate Parsing(data: Bytes, whole: Parsed, done: seq<Label>, text: Bytes, offset: nat, jumps: nat, jumped: bool, next: nat) {
    && jumps <= MAX_JUMPS && (!jumped ==> jumps == 0)
    && text == Join(done) && (done != [] ==> text != [])
    && whole == Continued(done, NameAt(data, offset, MAX_JUMPS - jumps), jumped, next)
  }

  lemma AfterLabel(data: Bytes, whole: Parsed, done: seq<Label>, text: Bytes, offset: nat, jumps: nat, jumped: bool, next: nat)
    requires Parsing(data, whole, done, text, offset, jumps, jumped, next)
    requires offset < |data| && 1 <= data[offset] <= MAX_LABEL && offset + 1 + data[offset] <= |data|
    ensures var end := offset + 1 + data[offset];
            var part := LowerAll(data[offset + 1..end]);
            Parsing(data, whole, done + [part], (if text == [] then [] else text + [DOT]) + part, end, jumps, jumped,
                    if jumped then next else end)
  {
    var end := offset + 1 + data[offset];
    var part, rest := LowerAll(data[offset + 1..end]), NameAt(data, end, MAX_JUMPS - jumps);
    if rest.Parsed? {
      ContinuedStep(done, part, rest, jumped, next);
    }
    JoinAppend(done, part);
  }

  lemma AfterPointer(data: Bytes, whole: Parsed, done: seq<Label>, text: Bytes, offset: nat, jumps: nat, jumped: bool, next: nat)
    requires Parsing(data, whole, done, text, offset, jumps, jumped, next)
    requires offset + 1 < |data| && data[offset] >= 192 && jumps < MAX_JUMPS && Read16(data, offset) % 0x4000 < |data|
    ensures Parsing(data, whole, done, text, Read16(data, offset) % 0x4000, jumps + 1, true, if jumped then next else offset + 2)
  {
  }

  lemma AfterEnd(data: Bytes, whole: Parsed, done: seq<Label>, text: Bytes, offset: nat, jumps: nat, jumped: bool, next: nat)
    requires Parsing(data, whole, done, text, offset, jumps, jumped, next) && offset < |data| && data[offset] == 0
    ensures whole == Parsed(done, if jumped then next else offset + 1) && (done == [] <==> text == [])
  {
    assert done + [] == done;
  }

  /** parseName. */
  method ParseName(data: Bytes, start: nat) returns (name: Option<Bytes>, next: nat)
    ensures match NameAt(data, start, MAX_JUMPS)
            case BadName => name == None
            case Parsed(labels, end) => name == Some(TextOf(labels)) && next == end
  {
    next := start;
    if start >= |data| {
      return None, next;
    }
    var offset: nat, jumped, jumps: nat, text: Bytes, hasLabel := start, false, 0, [], false;
    ghost var done: seq<Label>, whole := [], NameAt(data, start, MAX_JUMPS);
    while true
      invariant Parsing(data, whole, done, text, offset, jumps, jumped, next) && (hasLabel <==> done != [])
      invariant whole == NameAt(data, start, MAX_JUMPS)
      decreases MAX_JUMPS - jumps, |data| - offset
    {
      if offset >= |data| {
        return None, next;
      }
      var length := data[offset];
      if length == 0 {
        AfterEnd(data, whole, done, text, offset, jumps, jumped, next);
        offset := offset + 1;
        if !jumped {
          next := offset;
        }
        break;
      }
      if length >= 192 {
        if offset + 1 >= |data| || jumps >= MAX_JUMPS {
          return None, next;
        }
        var ptr := Read16(data, offset) % 0x4000;
        if ptr >= |data| {
          return None, next;
        }
        AfterPointer(data, whole, done, text, offset, jumps, jumped, next);
        if !jumped {
          next := offset + 2;
          jumped := true;
        }
        offset := ptr;
        jumps := jumps + 1;
        continue;
      }
      if length > MAX_LABEL {
        return None, next;
      }
      var end := offset + 1 + length;
      if end > |data| {
        return None, next;
      }
      AfterLabel(data, whole, done, text, offset, jumps, jumped, next);
      var part := LowerAll(data[offset + 1..end]);
      text := (if text == [] then [] else text + [DOT]) + part;
      done := done + [part];
      hasLabel := true;
      offset := end;
      if !jumped {
        next := offset;
      }
    }
    if !hasLabel {
      return Some([DOT]), next;
    }
    return Some(text), next;
  }

  function LowerLabels(labels: seq<Label>): (r: seq<Label>)
    ensures |r| == |labels| && forall i :: 0 <= i < |r| ==> r[i] == LowerAll(labels[i])
  {
    seq(|labels|, i requires 0 <= i < |labels| => LowerAll(labels[i]))
  }

  /** An uncompressed name parses back to its labels, whatever the case of its letters on the wire. */
  lemma {:induction false} NameRoundTrip(data: Bytes, offset: nat, labels: seq<Label>, jumps: nat)
    requires Proper(labels) && offset + |WireName(labels)| <= |data|
    requires SameText(data[offset..offset + |WireName(labels)|], WireName(labels))
    ensures NameAt(data, offset, jumps) == Parsed(LowerLabels(labels), offset + |WireName(labels)|)
    decreases |labels|
  {
    var wire := WireName(labels);
    assert Lower(data[offset..offset + |wire|][0]) == Lower(wire[0]);
    if labels != [] {
      WireNameUnfolds(labels);
      LabelMatches(data, offset, wire, labels[0], WireName(labels[1..]));
      NameRoundTrip(data, offset + 1 + |labels[0]|, labels[1..], jumps);
      assert LowerLabels(labels) == [LowerAll(labels[0])] + LowerLabels(labels[1..]);
    }
  }

  lemma WireNameUnfolds(labels: seq<Label>)
    requires Proper(labels) && labels != []
    ensures WireName(labels) == [|labels[0]|] + labels[0] + WireName(labels[1..])
  {
  }

  /** The first label of a name matches up to case, and so does the rest. */
  lemma LabelMatches(data: Bytes, offset: nat, wire: Bytes, part: Label, rest: Bytes)
    requires ProperLabel(part) && wire == [|part|] + part + rest
    requires offset + |wire| <= |data| && SameText(data[offset..offset + |wire|], wire)
    ensures var after := offset + 1 + |part|;
            && data[offset] == |part| && LowerAll(data[offset + 1..after]) == LowerAll(part)
            && after + |rest| == offset + |wire| && SameText(data[after..after + |rest|], rest)
  {
    var after, here := offset + 1 + |part|, data[offset..offset + |wire|];
    assert here[0] == data[offset];
    forall i | 0 <= i < |part|
      ensures Lower(data[offset + 1 + i]) == Lower(part[i])
    {
      assert here[1 + i] == data[offset + 1 + i] && wire[1 + i] == part[i];
    }
    forall i | 0 <= i < |rest|
      ensures Lower(data[after..after + |rest|][i]) == Lower(rest[i])
    {
      assert here[1 + |part| + i] == data[after + i] && wire[1 + |part| + i] == rest[i];
    }
  }

  // ------------------------------------------------------------------
  // Encoding text
  // ------------------------------------------------------------------

  function TrimDot(name: Bytes): Bytes {
    if name != [] && name[|name| - 1] == DOT then name[..|name| - 1] else name
  }

  /** encodeDNSNameStrict, for names without surrounding space. */
  function EncodeName(name: Bytes): Option<Bytes> {
    var text := TrimDot(name);
    if text == [] then Some([0])
    else if |text| > MAX_NAME || !Proper(Split(text)) then None
    else Some(WireName(Split(text)))
  }

  /** The labels from position `start` on; none behind the end. */
  ghost function LabelsFrom(text: Bytes, start: nat): seq<Label> {
    if start <= |text| then Split(text[start..]) else []
  }

  lemma SplitAt(s: Bytes, k: nat)
    requires k <= |s| && Dotless(s[..k]) && (k < |s| ==> s[k] == DOT)
    ensures k < |s| ==> Split(s) == [s[..k]] + Split(s[k + 1..])
    ensures k == |s| ==> Split(s) == [s]
  {
    FirstDotUnique(s, k);
  }

  /** A label ends at a dot or at the end of the text. */
  lemma LabelEnds(text: Bytes, start: nat, i: nat)
    requires start <= i <= |text| && Dotless(text[start..i]) && (i < |text| ==> text[i] == DOT)
    ensures LabelsFrom(text, start) == [text[start..i]] + LabelsFrom(text, i + 1)
  {
    var s, k := text[start..], i - start;
    assert s[..k] == text[start..i];
    SplitAt(s, k);
    if i < |text| {
      assert s[k + 1..] == text[i + 1..];
    } else {
      assert s == text[start..i];
    }
  }

  /** What the scan has written so far agrees with the whole text. */
  ghost predicate Encoding(text: Bytes, done: seq<Label>, encoded: Bytes, start: nat) {
    && Proper(done) && encoded == WireLabels(done)
    && Split(text) == done + LabelsFrom(text, start)
  }

  lemma AfterClosing(text: Bytes, done: seq<Label>, encoded: Bytes, start: nat, i: nat)
    requires Encoding(text, done, encoded, start)
    requires start <= i <= |text| && Dotless(text[start..i]) && (i < |text| ==> text[i] == DOT)
    ensures var part := text[start..i];
            if ProperLabel(part) then Encoding(text, done + [part], encoded + [|part|] + part, i + 1) else !Proper(Split(text))
  {
    var part := text[start..i];
    LabelEnds(text, start, i);
    PushLabel(Split(text), done, part, LabelsFrom(text, i + 1));
    if ProperLabel(part) {
      WireLabelsPush(done, part);
    }
  }

  lemma PushLabel(all: seq<Label>, done: seq<Label>, part: Label, rest: seq<Label>)
    requires all == done + ([part] + rest)
    ensures all == (done + [part]) + rest
    ensures !ProperLabel(part) ==> !Proper(all)
  {
    assert all[|done|] == part;
  }

  /** The scan over the text: every dot, and the end, closes a label. */
  method EncodeStrict(name: Bytes) returns (wire: Option<Bytes>)
    ensures wire == EncodeName(name)
  {
    var text := TrimDot(name);
    if text == [] {
      return Some([0]);
    }
    if |text| > MAX_NAME {
      return None;
    }
    var encoded: Bytes, labelStart: nat, i: nat := [], 0, 0;
    ghost var done: seq<Label> := [];
    assert text[0..] == text;
    while i <= |text|
      invariant labelStart <= i <= |text| + 1 && (i > |text| ==> labelStart > |text|)
      invariant i <= |text| ==> Dotless(text[labelStart..i])
      invariant Encoding(text, done, encoded, labelStart)
    {
      if i < |text| && text[i] != DOT {
        assert text[labelStart..i + 1] == text[labelStart..i] + [text[i]];
        i := i + 1;
        continue;
      }
      AfterClosing(text, done, encoded, labelStart, i);
      var part := text[labelStart..i];
      if |part| == 0 || |part| > MAX_LABEL {
        return None;
      }
      done := done + [part];
      encoded := encoded + [|part|] + part;
      labelStart := i + 1;
      i := i + 1;
    }
    assert done + [] == done;
    return Some(encoded + [0]);
  }

  /** An encoded name obeys the limits of RFC 1035 (section 2.3.4) and parses back to its lower-case text. */
  lemma EncodedNameParses(name: Bytes, data: Bytes, offset: nat)
    requires EncodeName(name).Some? && TrimDot(name) != []
    requires var wire := EncodeName(name).value;
             offset + |wire| <= |data| && SameText(data[offset..offset + |wire|], wire)
    ensures |EncodeName(name).value| <= 255
    ensures var parsed := NameAt(data, offset, MAX_JUMPS);
            parsed.Parsed? && TextOf(parsed.labels) == LowerAll(TrimDot(name)) && parsed.next == offset + |EncodeName(name).value|
  {
    var text := TrimDot(name);
    NameRoundTrip(data, offset, Split(text), MAX_JUMPS);
    SplitJoin(text);
    JoinLower(Split(text));
    WireLength(Split(text));
  }

  lemma {:induction false} JoinLower(labels: seq<Label>)
    ensures Join(LowerLabels(labels)) == LowerAll(Join(labels))
    decreases |labels|
  {
    if |labels| > 1 {
      assert LowerLabels(labels)[1..] == LowerLabels(labels[1..]);
      JoinLower(labels[1..]);
    }
  }
}
