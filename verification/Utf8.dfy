/** Python `str` and `bytes` values, and the strict UTF-8 codec that the header
    and event-stream code relies on.  A `str` is a sequence of code points and may
    hold lone surrogates, which `str.encode("utf-8")` refuses. */
module Utf8 {
  import opened Wrappers

  type Code = c: nat | c < 0x11_0000
  type Byte = b: nat | b < 0x100
  type Text = seq<Code>
  type Bytes = seq<Byte>

  const LF: Code := 0x0A
  const CR: Code := 0x0D

  /** A text written out. */
  function Literal(s: string): (t: Text)
    ensures |t| == |s| && forall i | 0 <= i < |s| :: t[i] == s[i] as int
  {
    seq(|s|, i requires 0 <= i < |s| => s[i] as int)
  }

  predicate Surrogate(c: Code) { 0xD800 <= c < 0xE000 }

  predicate Encodable(t: Text) { forall i :: 0 <= i < |t| ==> !Surrogate(t[i]) }

  function EncodeCode(c: Code): Bytes {
    if c < 0x80 then [c]
    else if c < 0x800 then [0xC0 + c / 64, 0x80 + c % 64]
    else if c < 0x1_0000 then [0xE0 + c / 64 / 64, 0x80 + c / 64 % 64, 0x80 + c % 64]
    else [0xF0 + c / 64 / 64 / 64, 0x80 + c / 64 / 64 % 64, 0x80 + c / 64 % 64, 0x80 + c % 64]
  }

  /** The bytes of `t` when every code point has a UTF-8 form. */
  function EncodeAll(t: Text): Bytes {
    if t == [] then [] else EncodeCode(t[0]) + EncodeAll(t[1..])
  }

  /** `str.encode("utf-8")`; None is UnicodeEncodeError. */
  function Encode(t: Text): Option<Bytes> {
    if Encodable(t) then Some(EncodeAll(t)) else None
  }

  predicate Continuation(b: Byte) { 0x80 <= b < 0xC0 }

  /** `high` followed by the six payload bits of a continuation byte. */
  function Append(high: nat, b: Byte): nat
    requires Continuation(b)
  {
    var payload: int := b;
    high * 64 + (payload - 0x80)
  }

  function Lead(b: Byte, base: nat): nat
    requires base <= b
  {
    var lead: int := b;
    lead - base
  }

  /** The first code point of `b` and the number of bytes it takes; None is an error. */
  function DecodeFirst(b: Bytes): Option<(Code, nat)>
    requires b != []
  {
    if b[0] < 0x80 then Some((b[0], 1))
    else if 0xC2 <= b[0] <= 0xDF && |b| >= 2 && Continuation(b[1]) then
      Some((Append(Lead(b[0], 0xC0), b[1]), 2))
    else if 0xE0 <= b[0] <= 0xEF && |b| >= 3 && Continuation(b[1]) && Continuation(b[2]) then
      var c := Append(Append(Lead(b[0], 0xE0), b[1]), b[2]);
      if c >= 0x800 && !Surrogate(c) then Some((c, 3)) else None
    else if 0xF0 <= b[0] <= 0xF4 && |b| >= 4 && Continuation(b[1]) && Continuation(b[2]) && Continuation(b[3]) then
      var c := Append(Append(Append(Lead(b[0], 0xF0), b[1]), b[2]), b[3]);
      if 0x1_0000 <= c < 0x11_0000 then Some((c, 4)) else None
    else None
  }

  lemma FirstFits(b: Bytes)
    requires b != [] && DecodeFirst(b).Some?
    ensures 1 <= DecodeFirst(b).value.1 <= |b|
  {
  }

  /** `bytes.decode("utf-8")`; None is UnicodeDecodeError. */
  function Decode(b: Bytes): Option<Text>
    decreases |b|, 1
  {
    if b == [] then Some([]) else DecodeNext(b)
  }

  /** The first code point and the rest. */
  function DecodeNext(b: Bytes): Option<Text>
    requires b != []
    decreases |b|, 0
  {
    match DecodeFirst(b)
    case None => None
    case Some((c, n)) =>
      match Decode(b[n..])
      case None => None
      case Some(rest) => Some([c] + rest)
  }

  lemma EncodeCodeThenFirst(c: Code, rest: Bytes)
    requires !Surrogate(c)
    ensures DecodeFirst(EncodeCode(c) + rest) == Some((c, |EncodeCode(c)|))
  {
    var e := EncodeCode(c);
    var b := e + rest;
    assert b[0] == e[0];
    if |e| >= 2 { assert b[1] == e[1] && Continuation(b[1]); }
    if |e| >= 3 { assert b[2] == e[2] && Continuation(b[2]); }
    if |e| >= 4 { assert b[3] == e[3] && Continuation(b[3]); }
  }

  lemma FirstIsCanonical(b: Bytes)
    requires b != [] && DecodeFirst(b).Some?
    ensures var (c, n) := DecodeFirst(b).value;
            !Surrogate(c) && 1 <= n <= |b| && b[..n] == EncodeCode(c)
  {
    var (c, n) := DecodeFirst(b).value;
    if n >= 2 { AppendSplits(b, n); }
    assert |EncodeCode(c)| == n;
    assert forall i :: 0 <= i < n ==> b[i] == EncodeCode(c)[i];
  }

  /** Division by 64 takes a code point apart again. */
  lemma AppendSplits(b: Bytes, n: nat)
    requires 2 <= n <= 4 && n <= |b|
    requires forall i :: 1 <= i < n ==> Continuation(b[i])
    ensures forall high: nat, i :: 1 <= i < n ==>
              Append(high, b[i]) / 64 == high && 0x80 + Append(high, b[i]) % 64 == b[i]
  {
  }

  /** One encoded code point in front of `rest` decodes to that code point in front. */
  lemma DecodePrepend(c: Code, rest: Bytes)
    requires !Surrogate(c)
    ensures Decode(EncodeCode(c) + rest) == match Decode(rest) case None => None case Some(t) => Some([c] + t)
  {
    var e := EncodeCode(c);
    var b := e + rest;
    EncodeCodeThenFirst(c, rest);
    assert |e| >= 1 && b != [];
    assert b[|e|..] == rest;
  }

  /** Decoding undoes encoding. */
  lemma {:induction false} DecodeEncode(t: Text)
    requires Encodable(t)
    ensures Decode(EncodeAll(t)) == Some(t)
  {
    if t != [] {
      DecodeEncode(t[1..]);
      DecodePrepend(t[0], EncodeAll(t[1..]));
      assert t == [t[0]] + t[1..];
    }
  }

  lemma Splice(b: Bytes, n: nat, first: Bytes, rest: Bytes)
    requires n <= |b| && b[..n] == first && b[n..] == rest
    ensures first + rest == b
  {
  }

  lemma EncodeAllPrepend(c: Code, t: Text)
    ensures EncodeAll([c] + t) == EncodeCode(c) + EncodeAll(t)
  {
    assert ([c] + t)[1..] == t;
  }

  /** Encoding undoes decoding: the strict decoder accepts only the encoder's own output. */
  lemma {:induction false} EncodeDecode(b: Bytes)
    requires Decode(b).Some?
    ensures Encodable(Decode(b).value) && EncodeAll(Decode(b).value) == b
  {
    if b != [] {
      FirstIsCanonical(b);
      var (c, n) := DecodeFirst(b).value;
      var rest := b[n..];
      EncodeDecode(rest);
      var t := Decode(rest).value;
      assert Decode(b).value == [c] + t;
      EncodeAllPrepend(c, t);
      Splice(b, n, EncodeCode(c), EncodeAll(t));
    }
  }

  function Prefixed(t: Text, rest: Option<Text>): Option<Text> {
    match rest case None => None case Some(u) => Some(t + u)
  }

  lemma PrefixedTwice(t: Text, u: Text, rest: Option<Text>)
    ensures Prefixed(t, Prefixed(u, rest)) == Prefixed(t + u, rest)
  {
    if rest.Some? { assert t + (u + rest.value) == t + u + rest.value; }
  }

  /** More bytes behind a code point do not change it. */
  lemma FirstOfConcat(a: Bytes, b: Bytes)
    requires a != [] && DecodeFirst(a).Some?
    ensures DecodeFirst(a + b) == DecodeFirst(a)
  {
    var s := a + b;
    assert s[0] == a[0];
    if |a| >= 2 { assert s[1] == a[1]; }
    if |a| >= 3 { assert s[2] == a[2]; }
    if |a| >= 4 { assert s[3] == a[3]; }
  }

  lemma DecodeConcatStep(a: Bytes, b: Bytes, c: Code, n: nat)
    requires a != [] && n <= |a| && DecodeFirst(a) == Some((c, n))
    ensures Decode(a) == Prefixed([c], Decode(a[n..]))
    ensures Decode(a + b) == Prefixed([c], Decode(a[n..] + b))
  {
    FirstOfConcat(a, b);
    assert (a + b)[n..] == a[n..] + b;
    assert Decode(a) == DecodeNext(a) && Decode(a + b) == DecodeNext(a + b);
  }

  /** A decodable prefix can be decoded on its own. */
  lemma {:induction false} DecodeConcat(a: Bytes, b: Bytes)
    requires Decode(a).Some?
    ensures Decode(a + b) == Prefixed(Decode(a).value, Decode(b))
  {
    if a == [] {
      assert a + b == b;
      if Decode(b).Some? { assert [] + Decode(b).value == Decode(b).value; }
    } else {
      assert Decode(a) == DecodeNext(a);
      var (c, n) := DecodeFirst(a).value;
      FirstFits(a);
      DecodeConcatStep(a, b, c, n);
      DecodeConcat(a[n..], b);
      PrefixedTwice([c], Decode(a[n..]).value, Decode(b));
    }
  }

  lemma Regroup(x: Bytes, y: Bytes, z: Bytes)
    ensures x + y + z == x + (y + z)
  {
  }

  /** Text may be cut in front of any ASCII byte. */
  lemma {:induction false} DecodeCut(a: Bytes, b: Bytes)
    requires b != [] && b[0] < 0x80 && Decode(a + b).Some?
    ensures Decode(a).Some?
  {
    if a != [] {
      FirstIsCanonical(a + b);
      var (c, n) := DecodeFirst(a + b).value;
      CutLength(a, b);
      assert (a + b)[n..] == a[n..] + b;
      DecodeCut(a[n..], b);
    }
  }

  lemma CutLength(a: Bytes, b: Bytes)
    requires a != [] && b != [] && b[0] < 0x80 && DecodeFirst(a + b).Some?
    ensures DecodeFirst(a + b).value.1 <= |a| && DecodeFirst(a) == DecodeFirst(a + b)
  {
    var n := DecodeFirst(a + b).value.1;
    var s := a + b;
    assert s[0] == a[0] && s[|a|] == b[0];
    if |a| >= 2 { assert s[1] == a[1]; }
    if |a| >= 3 { assert s[2] == a[2]; }
    if |a| >= 4 { assert s[3] == a[3]; }
  }

  /** An ASCII code point shows in the text only where its byte shows. */
  lemma {:induction false} DecodeAbsent(b: Bytes, x: Code)
    requires x < 0x80 && Decode(b).Some? && x !in b
    ensures x !in Decode(b).value
  {
    if b != [] {
      FirstIsCanonical(b);
      var (c, n) := DecodeFirst(b).value;
      assert forall y | y in b[n..] :: y in b;
      DecodeAbsent(b[n..], x);
      assert Decode(b).value == [c] + Decode(b[n..]).value;
      assert b[..n][0] == b[0];
    }
  }
}
