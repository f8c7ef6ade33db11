/** `_mcp_parameter_headers`: the request headers that mirror annotated arguments. */
module ParameterHeaders {
  import opened Wrappers
  import opened Utf8
  import opened Json
  import opened HeaderMirror
  import opened Seqs
  import HeaderCodec

  /** ValueError or TypeError of the walk; McpUpstreamError for an argument of the wrong type or an
      integer outside the safe range; UnicodeEncodeError for a string with a lone surrogate. */
  datatype MirrorError = FromWalk(error: WalkError) | UnsafeArgument | UnencodableArgument

  const MAX_SAFE_INTEGER := 0x1F_FFFF_FFFF_FFFF

  const HEADER_PREFIX: Text := [0x4D, 0x63, 0x70, 0x2D, 0x50, 0x61, 0x72, 0x61, 0x6D, 0x2D]  // Mcp-Param-
  const TRUE: Text := [0x74, 0x72, 0x75, 0x65]
  const FALSE: Text := [0x66, 0x61, 0x6C, 0x73, 0x65]

  function HeaderKey(name: Text): Text { HEADER_PREFIX + name }

  function Digits(n: nat): Text {
    if n < 10 then [0x30 + n] else Digits(n / 10) + [0x30 + n % 10]
  }

  /** `str(n)`. */
  function Decimal(n: int): Text { if n < 0 then [0x2D] + Digits(-n) else Digits(n) }

  /** The argument at `path`. */
  function Resolve(arguments: Json, path: seq<Key>): Option<Json>
    decreases |path|
  {
    if path == [] then Some(arguments)
    else if arguments.Obj? && path[0] in arguments.m then Resolve(arguments.m[path[0]], path[1..])
    else None
  }

  /** The annotation's path leads to an argument that is not null. */
  predicate Active(a: Annotation, arguments: Json) {
    Resolve(arguments, a.path).Some? && Resolve(arguments, a.path).value != Null
  }

  /** The text form of an argument that has the declared type; None is McpUpstreamError. */
  function TextForm(declared: Declared, value: Json): Option<Text> {
    match (declared, value)
    case (DeclaredString, Str(text)) => Some(text)
    case (DeclaredInteger, Int(n)) => if -MAX_SAFE_INTEGER <= n <= MAX_SAFE_INTEGER then Some(Decimal(n)) else None
    case (DeclaredBoolean, Bool(b)) => Some(if b then TRUE else FALSE)
    case _ => None
  }

  /** The annotated argument can be sent: it has a text form, and that form has a UTF-8 encoding. */
  predicate Sendable(a: Annotation, arguments: Json)
    requires Active(a, arguments)
  {
    var text := TextForm(a.declared, Resolve(arguments, a.path).value);
    text.Some? && Encodable(text.value)
  }

  /** Header names that differ when case is ignored differ. */
  lemma KeysDistinct(anns: set<Annotation>, a: Annotation, b: Annotation)
    requires NamesDistinct(anns) && a in anns && b in anns && a != b
    ensures HeaderKey(a.name) != HeaderKey(b.name)
  {
    assert a.name == HeaderKey(a.name)[|HEADER_PREFIX|..];
    assert b.name == HeaderKey(b.name)[|HEADER_PREFIX|..];
  }

  /** The annotations of a whole schema, in the order the walk met them. */
  method HeaderAnnotations(schema: Json) returns (r: Result<seq<Annotation>, WalkError>)
    ensures r.Ok? <==> Accepted(schema, [], true, {})
    ensures r.Err? ==> Explains(r.error, schema, [], true, {})
    ensures r.Ok? ==> |r.value| == |Annotations(schema, [])|
    ensures r.Ok? ==> forall a :: a in r.value <==> a in Annotations(schema, [])
    ensures r.Ok? ==> forall i, j | 0 <= i < j < |r.value| ::
              r.value[i].path != r.value[j].path && Fold(r.value[i].name) != Fold(r.value[j].name)
  {
    var walk := new AnnotationWalk();
    var error := walk.Walk(schema, [], true);
    if error.Some? { return Err(error.value); }
    r := Ok(walk.annotations);
    assert walk.annotations[0..] == walk.annotations;
    AllApart(schema, r.value);
  }

  /** The annotations of an accepted schema, each listed once, differ in path and in folded name. */
  lemma AllApart(schema: Json, list: seq<Annotation>)
    requires NamesDistinct(Annotations(schema, [])) && |list| == |Annotations(schema, [])|
    requires forall a :: a in list <==> a in Annotations(schema, [])
    ensures forall i, j | 0 <= i < j < |list| :: list[i].path != list[j].path && Fold(list[i].name) != Fold(list[j].name)
  {
    NoRepeats(list, Annotations(schema, []));
    forall i, j | 0 <= i < j < |list|
      ensures list[i].path != list[j].path && Fold(list[i].name) != Fold(list[j].name)
    {
      assert list[i] in list && list[j] in list;
      if list[i].path == list[j].path { PathsDistinct(schema, [], list[i], list[j]); }
    }
  }

  /** A list as long as the set of its elements repeats none. */
  lemma {:induction false} NoRepeats(s: seq<Annotation>, elements: set<Annotation>)
    requires |s| == |elements| && forall a :: a in s <==> a in elements
    ensures forall i, j | 0 <= i < j < |s| :: s[i] != s[j]
  {
    forall i, j | 0 <= i < j < |s| ensures s[i] != s[j] {
      if s[i] == s[j] {
        var rest := s[..j] + s[j + 1..];
        assert forall a :: a in elements ==> a in rest by {
          forall a | a in elements ensures a in rest {
            var k :| 0 <= k < |s| && s[k] == a;
            assert a == rest[if k < j then k else if k == j then i else k - 1];
          }
        }
        FewElements(rest, elements);
      }
    }
  }

  lemma {:induction false} FewElements(s: seq<Annotation>, elements: set<Annotation>)
    requires forall a | a in elements :: a in s
    ensures |elements| <= |s|
  {
    if s == [] {
      assert elements == {};
    } else {
      FewElements(s[1..], elements - {s[0]});
      assert |elements| <= |elements - {s[0]}| + 1;
    }
  }

  /** The header of `a` is there and decodes to the text form of its argument. */
  ghost predicate Carries(headers: map<Text, Text>, a: Annotation, arguments: Json)
    requires Active(a, arguments)
  {
    && Sendable(a, arguments)
    && HeaderKey(a.name) in headers
    && HeaderCodec.DecodeValue(headers[HeaderKey(a.name)])
       == Ok(TextForm(a.declared, Resolve(arguments, a.path).value).value)
  }

  ghost function ActiveIn(done: set<Annotation>, arguments: Json): set<Annotation> {
    set a | a in done && Active(a, arguments)
  }

  ghost function KeysOf(anns: set<Annotation>): set<Text> { set a | a in anns :: HeaderKey(a.name) }

  /** What the headers built for the annotations in `done` must be. */
  ghost predicate Mirrors(headers: map<Text, Text>, done: set<Annotation>, arguments: Json) {
    && headers.Keys == KeysOf(ActiveIn(done, arguments))
    && |headers.Keys| == |ActiveIn(done, arguments)|
    && forall a | a in ActiveIn(done, arguments) :: Carries(headers, a, arguments)
  }

  /** `headers` after the annotation `a` has had its turn. */
  function AfterTurn(headers: map<Text, Text>, a: Annotation, arguments: Json): map<Text, Text>
    requires Active(a, arguments) ==> Sendable(a, arguments)
  {
    if !Active(a, arguments) then headers
    else
      var text := TextForm(a.declared, Resolve(arguments, a.path).value).value;
      assert HeaderCodec.EncodeValue(text).Some? by { HeaderCodec.EncodeDefined(text); }
      headers[HeaderKey(a.name) := HeaderCodec.EncodeValue(text).value]
  }

  lemma ActiveTurn(done: set<Annotation>, a: Annotation, arguments: Json)
    requires a !in done
    ensures ActiveIn(done + {a}, arguments) == ActiveIn(done, arguments) + if Active(a, arguments) then {a} else {}
    ensures a !in ActiveIn(done, arguments)
  {
  }

  lemma KeysTurn(anns: set<Annotation>, a: Annotation, keys: set<Text>)
    requires a !in anns && keys == KeysOf(anns) && |keys| == |anns|
    requires forall b | b in anns :: HeaderKey(b.name) != HeaderKey(a.name)
    ensures keys + {HeaderKey(a.name)} == KeysOf(anns + {a}) && |keys + {HeaderKey(a.name)}| == |anns + {a}|
  {
    assert HeaderKey(a.name) !in keys;
  }

  lemma CarriesNew(headers: map<Text, Text>, a: Annotation, arguments: Json)
    requires Active(a, arguments) && Sendable(a, arguments)
    ensures Carries(AfterTurn(headers, a, arguments), a, arguments)
  {
    HeaderCodec.RoundTrip(TextForm(a.declared, Resolve(arguments, a.path).value).value);
  }

  lemma CarriesKept(headers: map<Text, Text>, a: Annotation, b: Annotation, arguments: Json)
    requires Active(a, arguments) ==> Sendable(a, arguments)
    requires Active(b, arguments) && Carries(headers, b, arguments) && HeaderKey(b.name) != HeaderKey(a.name)
    ensures Carries(AfterTurn(headers, a, arguments), b, arguments)
  {
  }

  lemma CarriedAfter(headers: map<Text, Text>, active: set<Annotation>, a: Annotation, arguments: Json)
    requires Active(a, arguments) && Sendable(a, arguments)
    requires forall b | b in active :: Active(b, arguments) && Carries(headers, b, arguments)
    requires forall b | b in active :: HeaderKey(b.name) != HeaderKey(a.name)
    ensures forall b | b in active + {a} :: Active(b, arguments) && Carries(AfterTurn(headers, a, arguments), b, arguments)
  {
    CarriesNew(headers, a, arguments);
    forall b | b in active ensures Carries(AfterTurn(headers, a, arguments), b, arguments) {
      CarriesKept(headers, a, b, arguments);
    }
  }

  lemma MirrorsAdd(headers: map<Text, Text>, after: map<Text, Text>, done: set<Annotation>, a: Annotation, arguments: Json)
    requires Mirrors(headers, done, arguments) && a !in done && Active(a, arguments)
    requires forall b | b in done :: HeaderKey(b.name) != HeaderKey(a.name)
    requires after.Keys == headers.Keys + {HeaderKey(a.name)}
    requires forall b | b in ActiveIn(done, arguments) + {a} :: Active(b, arguments) && Carries(after, b, arguments)
    ensures Mirrors(after, done + {a}, arguments)
  {
    ActiveTurn(done, a, arguments);
    KeysTurn(ActiveIn(done, arguments), a, headers.Keys);
  }

  lemma AfterTurnKeys(headers: map<Text, Text>, a: Annotation, arguments: Json)
    requires Active(a, arguments) && Sendable(a, arguments)
    ensures AfterTurn(headers, a, arguments).Keys == headers.Keys + {HeaderKey(a.name)}
  {
  }

  lemma MirrorsTurn(headers: map<Text, Text>, after: map<Text, Text>, done: set<Annotation>, a: Annotation, arguments: Json)
    requires Mirrors(headers, done, arguments) && a !in done
    requires forall b | b in done :: HeaderKey(b.name) != HeaderKey(a.name)
    requires Active(a, arguments) ==> Sendable(a, arguments)
    requires after == AfterTurn(headers, a, arguments)
    ensures Mirrors(after, done + {a}, arguments)
  {
    if Active(a, arguments) {
      CarriedAfter(headers, ActiveIn(done, arguments), a, arguments);
      AfterTurnKeys(headers, a, arguments);
      MirrorsAdd(headers, after, done, a, arguments);
    } else {
      ActiveTurn(done, a, arguments);
    }
  }

  /** One turn of the loop over the annotations. */
  method MirrorOne(headers: map<Text, Text>, a: Annotation, arguments: Json) returns (r: Result<map<Text, Text>, MirrorError>)
    ensures r.Ok? <==> (Active(a, arguments) ==> Sendable(a, arguments))
    ensures r.Ok? ==> r.value == AfterTurn(headers, a, arguments)
    ensures r.Err? ==>
              Active(a, arguments)
              && r.error == if TextForm(a.declared, Resolve(arguments, a.path).value).None? then UnsafeArgument else UnencodableArgument
  {
    var current := Follow(arguments, a.path);
    if current == None || current.value == Null { return Ok(headers); }
    var text := TextForm(a.declared, current.value);
    if text.None? { return Err(UnsafeArgument); }
    HeaderCodec.EncodeDefined(text.value);
    var header := HeaderCodec.EncodeValue(text.value);
    if header.None? { return Err(UnencodableArgument); }
    r := Ok(headers[HeaderKey(a.name) := header.value]);
  }

  /** `_mcp_parameter_headers`: one header for every annotation whose path leads to an argument that
      is not null, no other header, and each decodes to the text form of that argument. */
  method ParameterHeaders(schema: Json, arguments: Json) returns (r: Result<map<Text, Text>, MirrorError>)
    ensures r.Ok? <==>
            Accepted(schema, [], true, {})
            && forall a | a in Annotations(schema, []) && Active(a, arguments) :: Sendable(a, arguments)
    ensures r.Ok? ==> Mirrors(r.value, Annotations(schema, []), arguments)
    ensures r.Err? && r.error.FromWalk? <==> !Accepted(schema, [], true, {})
  {
    var annotations := HeaderAnnotations(schema);
    if annotations.Err? { return Err(FromWalk(annotations.error)); }
    assert ToSet(annotations.value) == Annotations(schema, []);
    r := MirrorAll(Annotations(schema, []), annotations.value, arguments);
  }

  /** All active annotations among `done` can be sent. */
  ghost predicate AllSendable(done: set<Annotation>, arguments: Json) {
    forall a | a in done && Active(a, arguments) :: Sendable(a, arguments)
  }

  /** The loop over the annotations. */
  method MirrorAll(ghost anns: set<Annotation>, list: seq<Annotation>, arguments: Json)
    returns (r: Result<map<Text, Text>, MirrorError>)
    requires NamesDistinct(anns) && anns == ToSet(list) && forall j, k | 0 <= j < k < |list| :: list[j] != list[k]
    ensures r.Ok? <==> AllSendable(anns, arguments)
    ensures r.Ok? ==> Mirrors(r.value, anns, arguments)
    ensures r.Err? ==> !r.error.FromWalk?
  {
    r := Ok(map[]);
    for i := 0 to |list|
      invariant r.Ok? && Mirrors(r.value, ToSet(list[..i]), arguments) && AllSendable(ToSet(list[..i]), arguments)
    {
      r := MirrorNext(anns, list, i, r.value, arguments);
      if r.Err? { return; }
    }
    assert list[..|list|] == list;
  }

  /** One turn, in terms of the annotations done so far. */
  method MirrorNext(ghost anns: set<Annotation>, list: seq<Annotation>, i: nat, headers: map<Text, Text>, arguments: Json)
    returns (r: Result<map<Text, Text>, MirrorError>)
    requires NamesDistinct(anns) && anns == ToSet(list) && forall j, k | 0 <= j < k < |list| :: list[j] != list[k]
    requires i < |list| && Mirrors(headers, ToSet(list[..i]), arguments) && AllSendable(ToSet(list[..i]), arguments)
    ensures r.Err? ==> !AllSendable(anns, arguments) && !r.error.FromWalk?
    ensures r.Ok? ==> Mirrors(r.value, ToSet(list[..i + 1]), arguments) && AllSendable(ToSet(list[..i + 1]), arguments)
  {
    assert list[i] in anns;
    OneMore(anns, list, i);
    r := MirrorOne(headers, list[i], arguments);
    if r.Ok? { MirrorsTurn(headers, r.value, ToSet(list[..i]), list[i], arguments); }
  }

  lemma OneMore(anns: set<Annotation>, list: seq<Annotation>, i: nat)
    requires i < |list| && NamesDistinct(anns) && anns == ToSet(list)
    requires forall j, k | 0 <= j < k < |list| :: list[j] != list[k]
    ensures ToSet(list[..i + 1]) == ToSet(list[..i]) + {list[i]} && list[i] !in ToSet(list[..i])
    ensures forall b | b in ToSet(list[..i]) :: HeaderKey(b.name) != HeaderKey(list[i].name)
  {
    assert list[..i + 1] == list[..i] + [list[i]];
    forall b | b in ToSet(list[..i]) ensures HeaderKey(b.name) != HeaderKey(list[i].name) {
      assert list[i] in list && b in list;
      KeysDistinct(anns, b, list[i]);
    }
  }

  /** The inner loop over the parts of a path. */
  method Follow(arguments: Json, path: seq<Key>) returns (found: Option<Json>)
    ensures found == Resolve(arguments, path)
  {
    var current := arguments;
    for i := 0 to |path|
      invariant Resolve(arguments, path) == Resolve(current, path[i..])
    {
      if !current.Obj? || path[i] !in current.m { return None; }
      assert path[i..][1..] == path[i + 1..];
      current := current.m[path[i]];
    }
    found := Some(current);
  }

  // ---------- text forms, written out ----------

  /** The number that a text of digits stands for. */
  function Number(digits: Text): nat
    requires forall i | 0 <= i < |digits| :: '0' as int <= digits[i] <= '9' as int
  {
    if digits == [] then 0 else 10 * Number(digits[..|digits| - 1]) + (digits[|digits| - 1] - '0' as int)
  }

  /** Digits without a leading zero that stand for the number. */
  lemma {:induction false} DigitsStand(n: nat)
    ensures Digits(n) != [] && (forall i | 0 <= i < |Digits(n)| :: '0' as int <= Digits(n)[i] <= '9' as int)
    ensures Number(Digits(n)) == n && (Digits(n)[0] == '0' as int ==> n == 0)
  {
    if n < 10 {
      assert Digits(n)[..0] == [];
    } else {
      DigitsStand(n / 10);
      assert Digits(n)[..|Digits(n)| - 1] == Digits(n / 10);
    }
  }

  /** The text form of each declared type: the string itself, `true` and `false`, and the decimal form of an
      integer of at most 53 bits with a minus sign if it is negative; other values have none. */
  lemma TextForms(text: Text, n: int, declared: Declared, value: Json)
    ensures TextForm(DeclaredString, Str(text)) == Some(text)
    ensures TextForm(DeclaredBoolean, Bool(true)) == Some(Literal("true"))
    ensures TextForm(DeclaredBoolean, Bool(false)) == Some(Literal("false"))
    ensures TextForm(DeclaredInteger, Int(n)) ==
            (if n > 9007199254740991 || n < -9007199254740991 then None
             else if n < 0 then Some(Literal("-") + Digits(-n)) else Some(Digits(n)))
    ensures TextForm(declared, value).Some? ==>
              (declared.DeclaredString? && value.Str?) || (declared.DeclaredBoolean? && value.Bool?)
              || (declared.DeclaredInteger? && value.Int?)
    ensures HeaderKey(text) == Literal("Mcp-Param-") + text
  {
    assert TRUE == Literal("true") && FALSE == Literal("false") && [0x2D] == Literal("-");
    assert HEADER_PREFIX == Literal("Mcp-Param-");
  }
}
