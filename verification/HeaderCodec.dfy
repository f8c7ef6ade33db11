/** The `Mcp-Name` / `Mcp-Param-*` header codec: the encoder of mcp_hub.py and the
    decoder of mcp_transport.py. */
module HeaderCodec {
  import opened Wrappers
  import opened Utf8
  import Base64

  /** The decoder's outcomes: McpHeaderMismatch, or the plain ValueError that `b64decode` raises on a
      non-ASCII string, which the transport answers as an invalid request, not as a header mismatch. */
  datatype DecodeError = HeaderMismatch | InvalidRequest

  const PREFIX: Text := [0x3D, 0x3F, 0x62, 0x61, 0x73, 0x65, 0x36, 0x34, 0x3F]  // =?base64?
  const SUFFIX: Text := [0x3F, 0x3D]                                            // ?=
  /** Ten characters in which the prefix and the suffix share their question mark. */
  const OVERLAP: Text := [0x3D, 0x3F, 0x62, 0x61, 0x73, 0x65, 0x36, 0x34, 0x3F, 0x3D]

  /** The characters `str.strip()` removes. */
  predicate Space(c: Code) {
    0x09 <= c <= 0x0D || 0x1C <= c <= 0x20 || c == 0x85 || c == 0xA0 || c == 0x1680
    || 0x2000 <= c <= 0x200A || c == 0x2028 || c == 0x2029 || c == 0x202F || c == 0x205F || c == 0x3000
  }

  function LStrip(t: Text): Text { if t != [] && Space(t[0]) then LStrip(t[1..]) else t }

  function RStrip(t: Text): Text { if t != [] && Space(t[|t| - 1]) then RStrip(t[..|t| - 1]) else t }

  function Strip(t: Text): Text { RStrip(LStrip(t)) }

  lemma {:induction false} LStripShrinks(t: Text)
    ensures |LStrip(t)| <= |t|
  {
    if t != [] && Space(t[0]) { LStripShrinks(t[1..]); }
  }

  lemma {:induction false} RStripShrinks(t: Text)
    ensures |RStrip(t)| <= |t|
  {
    if t != [] && Space(t[|t| - 1]) { RStripShrinks(t[..|t| - 1]); }
  }

  /** `t == t.strip()` says exactly that neither end is a space. */
  lemma StripFixed(t: Text)
    ensures t == Strip(t) <==> (t == [] || (!Space(t[0]) && !Space(t[|t| - 1])))
  {
    if t != [] && Space(t[0]) {
      LStripShrinks(t[1..]);
      RStripShrinks(LStrip(t));
    } else if t != [] && Space(t[|t| - 1]) {
      RStripShrinks(t[..|t| - 1]);
    }
  }

  predicate Printable(t: Text) { forall i :: 0 <= i < |t| ==> 0x20 <= t[i] <= 0x7E }

  predicate Ascii(t: Text) { forall i :: 0 <= i < |t| ==> t[i] < 0x80 }

  /** What may stand in a header as it is. */
  predicate PlainSafe(t: Text) { t != [] && t == Strip(t) && Printable(t) }

  predicate StartsWith(t: Text, p: Text) { |t| >= |p| && t[..|p|] == p }

  predicate EndsWith(t: Text, p: Text) { |t| >= |p| && t[|t| - |p|..] == p }

  /** `value.startswith("=?base64?") and value.endswith("?=")`: the two may overlap. */
  predicate SentinelForm(t: Text) { StartsWith(t, PREFIX) && EndsWith(t, SUFFIX) }

  function Wrap(body: Text): Text { PREFIX + body + SUFFIX }

  /** `_encode_mcp_header_value`; None is the UnicodeEncodeError of a lone surrogate. */
  function EncodeValue(value: Text): Option<Text> {
    if PlainSafe(value) && !SentinelForm(value) then Some(value)
    else match Utf8.Encode(value)
      case None => None
      case Some(raw) => Some(Wrap(Base64.Encode(raw)))
  }

  /** `value[len("=?base64?"):-2]`, which Python reads as empty when the bounds cross. */
  function SentinelBody(value: Text): Text
    requires SentinelForm(value)
  {
    if |value| < |PREFIX| + |SUFFIX| then [] else value[|PREFIX|..|value| - |SUFFIX|]
  }

  /** `_decode_mcp_header_value`. */
  function DecodeValue(value: Text): Result<Text, DecodeError> {
    if value == [] then Err(HeaderMismatch)
    else if SentinelForm(value) then
      var encoded := SentinelBody(value);
      if !Ascii(encoded) then Err(InvalidRequest)
      else match Base64.Decode(encoded)
        case None => Err(HeaderMismatch)
        case Some(raw) =>
          if Base64.Encode(raw) != encoded then Err(HeaderMismatch)
          else match Utf8.Decode(raw)
            case None => Err(HeaderMismatch)
            case Some(text) => Ok(text)
    else if value != Strip(value) || !Printable(value) then Err(HeaderMismatch)
    else Ok(value)
  }

  lemma WrapShape(body: Text)
    ensures SentinelForm(Wrap(body)) && Wrap(body) != [] && SentinelBody(Wrap(body)) == body
  {
    assert Wrap(body)[..|PREFIX|] == PREFIX;
    assert Wrap(body)[|PREFIX| + |body|..] == SUFFIX;
  }

  /** A sentinel-shaped value is its body wrapped, or the overlapping ten characters. */
  lemma SentinelShape(value: Text)
    requires SentinelForm(value)
    ensures value == Wrap(SentinelBody(value)) || (value == OVERLAP && SentinelBody(value) == [])
  {
    assert value[..9][8] == value[8] && value[|value| - 2..][1] == value[|value| - 1];
    assert |value| >= 10;
    if |value| >= |PREFIX| + |SUFFIX| {
      assert value == value[..|PREFIX|] + value[|PREFIX|..|value| - |SUFFIX|] + value[|value| - |SUFFIX|..];
    } else {
      assert value[..9] == PREFIX && value[8..] == SUFFIX;
      assert value == value[..9] + [value[9]];
      assert value[9] == value[8..][1];
    }
  }

  lemma {:induction false} PlainIsEncodable(value: Text)
    requires Printable(value)
    ensures Encodable(value)
  {
    assert forall i :: 0 <= i < |value| ==> value[i] <= 0x7E;
  }

  /** The encoder fails exactly on lone surrogates. */
  lemma EncodeDefined(value: Text)
    ensures EncodeValue(value).Some? <==> Encodable(value)
  {
    if PlainSafe(value) { PlainIsEncodable(value); }
  }

  /** Decoding a canonical sentinel gives back the text it was made from. */
  lemma DecodeSentinel(value: Text)
    requires Encodable(value)
    ensures DecodeValue(Wrap(Base64.Encode(EncodeAll(value)))) == Ok(value)
  {
    var raw := EncodeAll(value);
    var encoded := Base64.Encode(raw);
    WrapShape(encoded);
    Base64.EncodeIsGraphic(raw);
    Base64.DecodeEncode(raw);
    Utf8.DecodeEncode(value);
    assert Ascii(encoded);
  }

  /** Round trip: what the encoder writes, the decoder reads back, for every value it accepts. */
  lemma RoundTrip(value: Text)
    requires Encodable(value)
    ensures EncodeValue(value).Some? && DecodeValue(EncodeValue(value).value) == Ok(value)
  {
    EncodeDefined(value);
    DecodeSentinel(value);
  }

  /** Two values never share an encoding. */
  lemma EncodeInjective(a: Text, b: Text)
    requires Encodable(a) && Encodable(b) && EncodeValue(a) == EncodeValue(b)
    ensures a == b
  {
    RoundTrip(a);
    RoundTrip(b);
  }

  /** Every encoder output is a non-empty line of printable ASCII without edge spaces. */
  lemma EncodeIsSafe(value: Text)
    requires Encodable(value)
    ensures EncodeValue(value).Some? && PlainSafe(EncodeValue(value).value)
  {
    EncodeDefined(value);
    if !PlainSafe(value) || SentinelForm(value) {
      var raw := EncodeAll(value);
      Base64.EncodeIsGraphic(raw);
      var out := Wrap(Base64.Encode(raw));
      assert out[0] == 0x3D && out[|out| - 1] == 0x3D;
      StripFixed(out);
    }
  }

  /** The decoder reads a sentinel only in the encoder's canonical base64, except for the
      overlapping form, which it also reads as the empty string. */
  lemma SentinelAccepted(header: Text, value: Text)
    requires SentinelForm(header)
    ensures DecodeValue(header) == Ok(value) <==>
            (Encodable(value) && header == Wrap(Base64.Encode(EncodeAll(value)))) || (header == OVERLAP && value == [])
  {
    SentinelShape(header);
    if DecodeValue(header) == Ok(value) {
      var raw := Base64.Decode(SentinelBody(header)).value;
      Utf8.EncodeDecode(raw);
    }
    if Encodable(value) { DecodeSentinel(value); }
  }

  /** The second reading of the empty string: the decoder is not injective. */
  lemma OverlapReadsAsEmpty()
    ensures DecodeValue(OVERLAP) == Ok([]) && DecodeValue(Wrap([])) == Ok([]) && OVERLAP != Wrap([])
    ensures EncodeValue([]) == Some(Wrap([]))
  {
    assert OVERLAP[..9] == PREFIX && OVERLAP[8..] == SUFFIX;
    assert Base64.Encode([]) == [] && Utf8.Decode([]) == Some([]) && EncodeAll([]) == [];
    DecodeSentinel([]);
  }

  /** The name check of `do_POST`: for a non-empty body name the header passes exactly when it is
      the name itself, where that is plain text and no sentinel, or its canonical sentinel. */
  lemma NameCheck(header: Text, name: Text)
    requires name != []
    ensures DecodeValue(header) == Ok(name) <==>
            (header == name && PlainSafe(name) && !SentinelForm(name))
            || (Encodable(name) && header == Wrap(Base64.Encode(EncodeAll(name))))
  {
    if SentinelForm(header) {
      SentinelAccepted(header, name);
    } else {
      if Encodable(name) { WrapShape(Base64.Encode(EncodeAll(name))); }
    }
  }

  // ---------- the two forms, written out ----------

  /** The characters that `str.strip()` removes. */
  lemma SpacesWrittenOut(c: Code)
    ensures Space(c) <==> c in [9, 10, 11, 12, 13, 28, 29, 30, 31, 32, 133, 160, 5760, 8192, 8193, 8194, 8195, 8196, 8197,
                                8198, 8199, 8200, 8201, 8202, 8232, 8233, 8239, 8287, 12288]
  {
  }

  /** Stripping cuts off spaces at both ends, all of them, and nothing else. */
  lemma StripCuts(t: Text) returns (before: Text, behind: Text)
    ensures t == before + Strip(t) + behind
    ensures (forall i | 0 <= i < |before| :: Space(before[i])) && (forall i | 0 <= i < |behind| :: Space(behind[i]))
    ensures Strip(t) != [] ==> !Space(Strip(t)[0]) && !Space(Strip(t)[|Strip(t)| - 1])
  {
    before := LStripCuts(t);
    behind := RStripCuts(LStrip(t));
    if Strip(t) != [] { assert Strip(t)[0] == LStrip(t)[0]; }
  }

  lemma {:induction false} LStripCuts(t: Text) returns (before: Text)
    ensures t == before + LStrip(t) && (forall i | 0 <= i < |before| :: Space(before[i]))
    ensures LStrip(t) != [] ==> !Space(LStrip(t)[0])
  {
    before := [];
    if t != [] && Space(t[0]) {
      var more := LStripCuts(t[1..]);
      before := [t[0]] + more;
      assert t == [t[0]] + t[1..];
    }
  }

  lemma {:induction false} RStripPrefix(t: Text)
    ensures RStrip(t) <= t && (forall i | |RStrip(t)| <= i < |t| :: Space(t[i]))
    ensures RStrip(t) != [] ==> !Space(t[|RStrip(t)| - 1])
  {
    if t != [] && Space(t[|t| - 1]) { RStripPrefix(t[..|t| - 1]); }
  }

  lemma RStripCuts(t: Text) returns (behind: Text)
    ensures t == RStrip(t) + behind && (forall i | 0 <= i < |behind| :: Space(behind[i]))
    ensures RStrip(t) != [] ==> !Space(RStrip(t)[|RStrip(t)| - 1])
  {
    RStripPrefix(t);
    behind := t[|RStrip(t)|..];
  }

  /** Printable ASCII without a space at either end. */
  predicate Presentable(t: Text) {
    t != [] && t[0] != ' ' as int && t[|t| - 1] != ' ' as int && forall i | 0 <= i < |t| :: ' ' as int <= t[i] <= '~' as int
  }

  predicate LooksWrapped(t: Text) {
    |t| >= 10 && t[..9] == Literal("=?base64?") && t[|t| - 2..] == Literal("?=")
  }

  lemma FormsWrittenOut(t: Text)
    ensures PlainSafe(t) <==> Presentable(t)
    ensures SentinelForm(t) <==> LooksWrapped(t)
    ensures PREFIX == Literal("=?base64?") && SUFFIX == Literal("?=") && OVERLAP == Literal("=?base64?=")
  {
    PlainWrittenOut(t);
    WrappedWrittenOut(t);
  }

  lemma PlainWrittenOut(t: Text)
    ensures PlainSafe(t) <==> Presentable(t)
  {
    if t != [] { StripFixed(t); }
    if Presentable(t) { assert !Space(t[0]) && !Space(t[|t| - 1]); }
  }

  lemma WrappedWrittenOut(t: Text)
    ensures SentinelForm(t) <==> LooksWrapped(t)
    ensures PREFIX == Literal("=?base64?") && SUFFIX == Literal("?=") && OVERLAP == Literal("=?base64?=")
  {
    if SentinelForm(t) { SentinelShape(t); }
  }

  /** A value that can stand in a header stands as it is, unless it looks wrapped; every other value is
      wrapped. */
  lemma EncodedForm(value: Text)
    ensures Presentable(value) && !LooksWrapped(value) ==> EncodeValue(value) == Some(value)
    ensures Encodable(value) && !(Presentable(value) && !LooksWrapped(value)) ==>
              EncodeValue(value) == Some(Literal("=?base64?") + Base64.Encode(EncodeAll(value)) + Literal("?="))
  {
    FormsWrittenOut(value);
  }

  /** A header that does not look wrapped is read as it is, exactly when it is presentable. */
  lemma PlainAccepted(header: Text, value: Text)
    requires !LooksWrapped(header)
    ensures DecodeValue(header) == Ok(value) <==> header == value && Presentable(header)
    ensures DecodeValue(header) != Err(InvalidRequest)
  {
    FormsWrittenOut(header);
    if header != [] { StripFixed(header); }
  }

  /** A wrapped body that is not ASCII is an invalid request, and nothing else is. */
  lemma NonAsciiBody(header: Text)
    requires LooksWrapped(header)
    ensures DecodeValue(header) == Err(InvalidRequest) <==> !Ascii(header)
  {
    FormsWrittenOut(header);
    SentinelShape(header);
    AsciiBody(header, SentinelBody(header));
  }

  lemma AsciiBody(header: Text, body: Text)
    requires header == Wrap(body) || (header == OVERLAP && body == [])
    ensures Ascii(header) <==> Ascii(body)
  {
    if header == Wrap(body) {
      forall i | 0 <= i < |body| ensures header[|PREFIX| + i] == body[i] { }
      forall i | 0 <= i < |header| ensures header[i] < 0x80 || (9 <= i < 9 + |body| && header[i] == body[i - 9]) { }
    }
  }
}
