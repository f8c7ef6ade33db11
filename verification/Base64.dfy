/** Base64 (sections 3.5 and 4 of RFC 4648) as Python's `base64` module computes it. */
module Base64 {
  import opened Wrappers
  import opened Utf8

  type Six = v: nat | v < 64

  const PAD: Code := 0x3D

  /** The alphabet of table 1, section 4 of RFC 4648. */
  function Digit(v: Six): Code {
    if v < 26 then 0x41 + v
    else if v < 52 then 0x61 + (v - 26)
    else if v < 62 then 0x30 + (v - 52)
    else if v == 62 then 0x2B
    else 0x2F
  }

  function Value(c: Code): Option<Six> {
    if 0x41 <= c <= 0x5A then Some(c - 0x41)
    else if 0x61 <= c <= 0x7A then Some(c - 0x61 + 26)
    else if 0x30 <= c <= 0x39 then Some(c - 0x30 + 52)
    else if c == 0x2B then Some(62)
    else if c == 0x2F then Some(63)
    else None
  }

  lemma ValueOfDigit(v: Six)
    ensures Value(Digit(v)) == Some(v) && 0x21 <= Digit(v) <= 0x7E && Digit(v) != PAD
  {
  }

  /** The four six-bit values of three bytes. */
  function V0(a: int): Six
    requires 0 <= a < 256
  {
    a / 4
  }

  function V1(a: int, b: int): Six
    requires 0 <= a < 256 && 0 <= b < 256
  {
    a % 4 * 16 + b / 16
  }

  function V2(b: int, c: int): Six
    requires 0 <= b < 256 && 0 <= c < 256
  {
    b % 16 * 4 + c / 64
  }

  function V3(c: int): Six
    requires 0 <= c < 256
  {
    c % 64
  }

  function Group1(a: int): Text
    requires 0 <= a < 256
  {
    [Digit(V0(a)), Digit(V1(a, 0)), PAD, PAD]
  }

  function Group2(a: int, b: int): Text
    requires 0 <= a < 256 && 0 <= b < 256
  {
    [Digit(V0(a)), Digit(V1(a, b)), Digit(V2(b, 0)), PAD]
  }

  function Group3(a: int, b: int, c: int): Text
    requires 0 <= a < 256 && 0 <= b < 256 && 0 <= c < 256
  {
    [Digit(V0(a)), Digit(V1(a, b)), Digit(V2(b, c)), Digit(V3(c))]
  }

  /** `b64encode`. */
  function Encode(b: Bytes): Text {
    if |b| == 0 then []
    else if |b| == 1 then Group1(b[0])
    else if |b| == 2 then Group2(b[0], b[1])
    else Group3(b[0], b[1], b[2]) + Encode(b[3..])
  }

  /** The three bytes of four six-bit values. */
  function First(v0: Six, v1: Six): Byte { v0 * 4 + v1 / 16 }

  function Second(v1: Six, v2: Six): Byte { v1 % 16 * 16 + v2 / 4 }

  function Third(v2: Six, v3: Six): Byte { v2 % 4 * 64 + v3 }

  /** `b64decode(validate=True)` on four characters.  Left-over bits of a padded group
      are dropped, as section 3.5 of RFC 4648 allows a decoder to do. */
  function DecodeGroup(s: Text, last: bool): Option<Bytes>
    requires |s| == 4
  {
    if Value(s[0]).None? || Value(s[1]).None? then None
    else if last && s[2] == PAD && s[3] == PAD then
      Some([First(Value(s[0]).value, Value(s[1]).value)])
    else if Value(s[2]).None? then None
    else if last && s[3] == PAD then
      Some([First(Value(s[0]).value, Value(s[1]).value), Second(Value(s[1]).value, Value(s[2]).value)])
    else if Value(s[3]).None? then None
    else
      Some([First(Value(s[0]).value, Value(s[1]).value), Second(Value(s[1]).value, Value(s[2]).value),
            Third(Value(s[2]).value, Value(s[3]).value)])
  }

  /** None is `binascii.Error`. */
  function Decode(s: Text): Option<Bytes> {
    if s == [] then Some([])
    else if |s| < 4 then None
    else
      match (DecodeGroup(s[..4], |s| == 4), Decode(s[4..]))
      case (Some(head), Some(tail)) => Some(head + tail)
      case _ => None
  }

  /** Three bytes survive the split into four six-bit values. */
  lemma GroupArithmetic(a: int, b: int, c: int)
    requires 0 <= a < 256 && 0 <= b < 256 && 0 <= c < 256
    ensures First(V0(a), V1(a, b)) == a
    ensures Second(V1(a, b), V2(b, c)) == b
    ensures Third(V2(b, c), V3(c)) == c
  {
  }

  lemma DecodeDigits(v0: Six, v1: Six, v2: Six, v3: Six, last: bool)
    ensures DecodeGroup([Digit(v0), Digit(v1), Digit(v2), Digit(v3)], last) == Some([First(v0, v1), Second(v1, v2), Third(v2, v3)])
    ensures DecodeGroup([Digit(v0), Digit(v1), Digit(v2), PAD], true) == Some([First(v0, v1), Second(v1, v2)])
    ensures DecodeGroup([Digit(v0), Digit(v1), PAD, PAD], true) == Some([First(v0, v1)])
  {
    ValueOfDigit(v0);
    ValueOfDigit(v1);
    ValueOfDigit(v2);
    ValueOfDigit(v3);
  }

  lemma DecodeGroup1(a: Byte)
    ensures DecodeGroup(Group1(a), true) == Some([a])
  {
    DecodeDigits(V0(a), V1(a, 0), 0, 0, true);
    GroupArithmetic(a, 0, 0);
  }

  lemma DecodeGroup2(a: Byte, b: Byte)
    ensures DecodeGroup(Group2(a, b), true) == Some([a, b])
  {
    DecodeDigits(V0(a), V1(a, b), V2(b, 0), 0, true);
    GroupArithmetic(a, b, 0);
  }

  lemma DecodeGroup3(a: Byte, b: Byte, c: Byte, last: bool)
    ensures DecodeGroup(Group3(a, b, c), last) == Some([a, b, c])
  {
    DecodeDigits(V0(a), V1(a, b), V2(b, c), V3(c), last);
    GroupArithmetic(a, b, c);
  }

  lemma DecodePrepend(group: Text, tail: Text, head: Bytes, rest: Bytes)
    requires |group| == 4 && DecodeGroup(group, tail == []) == Some(head) && Decode(tail) == Some(rest)
    ensures Decode(group + tail) == Some(head + rest)
  {
    var s := group + tail;
    assert s[..4] == group && s[4..] == tail && s != [];
    assert |s| == 4 <==> tail == [];
  }

  lemma DecodeLong(a: Byte, b: Byte, c: Byte, rest: Bytes)
    requires Decode(Encode(rest)) == Some(rest)
    ensures Decode(Group3(a, b, c) + Encode(rest)) == Some([a, b, c] + rest)
  {
    DecodeGroup3(a, b, c, Encode(rest) == []);
    DecodePrepend(Group3(a, b, c), Encode(rest), [a, b, c], rest);
  }

  lemma DecodeLast(group: Text, head: Bytes)
    requires |group| == 4 && DecodeGroup(group, true) == Some(head)
    ensures Decode(group) == Some(head)
  {
    DecodePrepend(group, [], head, []);
    assert group + [] == group && head + [] == head;
  }

  lemma DecodeOne(a: Byte)
    ensures Decode(Group1(a)) == Some([a])
  {
    DecodeGroup1(a);
    DecodeLast(Group1(a), [a]);
  }

  lemma DecodeTwo(a: Byte, b: Byte)
    ensures Decode(Group2(a, b)) == Some([a, b])
  {
    DecodeGroup2(a, b);
    DecodeLast(Group2(a, b), [a, b]);
  }

  /** Decoding undoes encoding. */
  lemma {:induction false} DecodeEncode(b: Bytes)
    ensures Decode(Encode(b)) == Some(b)
  {
    if |b| == 1 {
      DecodeOne(b[0]);
      assert b == [b[0]];
    } else if |b| == 2 {
      DecodeTwo(b[0], b[1]);
      assert b == [b[0], b[1]];
    } else if |b| >= 3 {
      var rest := b[3..];
      DecodeEncode(rest);
      DecodeLong(b[0], b[1], b[2], rest);
      assert Encode(b) == Group3(b[0], b[1], b[2]) + Encode(rest);
      assert b == [b[0], b[1], b[2]] + rest;
    }
  }

  /** Base64 text is graphic ASCII: no spaces, no control characters, nothing above 0x7E. */
  lemma {:induction false} EncodeIsGraphic(b: Bytes)
    ensures forall i :: 0 <= i < |Encode(b)| ==> 0x21 <= Encode(b)[i] <= 0x7E
  {
    if |b| >= 3 { EncodeIsGraphic(b[3..]); }
  }

  // ---------- the alphabet and the order of bits ----------

  /** The alphabet, written out, and nothing else is a digit. */
  lemma Alphabet(c: Code, v: Six)
    ensures v < 26 ==> Digit(v) == 'A' as int + v
    ensures 26 <= v < 52 ==> Digit(v) == 'a' as int + (v - 26)
    ensures 52 <= v < 62 ==> Digit(v) == '0' as int + (v - 52)
    ensures Digit(62) == '+' as int && Digit(63) == '/' as int
    ensures Value(c) == Some(v) <==> Digit(v) == c
    ensures PAD == '=' as int
  {
  }

  /** The test vectors of section 10 of RFC 4648. */
  lemma Vectors()
    ensures Encode([0x66]) == Literal("Zg==") && Encode([0x66, 0x6F]) == Literal("Zm8=")
    ensures Encode([0x66, 0x6F, 0x6F]) == Literal("Zm9v")
    ensures Encode([0x66, 0x6F, 0x6F, 0x62]) == Literal("Zm9vYg==")
  {
    var foob: Bytes := [0x66, 0x6F, 0x6F, 0x62];
    assert foob[3..] == [0x62] && foob[..3] == [0x66, 0x6F, 0x6F];
  }

  /** The decoder takes nothing but digits and padding. */
  lemma {:induction false} DecodesAlphabet(t: Text)
    requires Decode(t).Some?
    ensures forall i | 0 <= i < |t| :: t[i] == PAD || Value(t[i]).Some?
  {
    if |t| > 4 { DecodesAlphabet(t[4..]); }
    forall i | 0 <= i < |t| ensures t[i] == PAD || Value(t[i]).Some? {
      if i >= 4 { assert t[i] == t[4..][i - 4]; }
    }
  }
}
