/** Validation of tool arguments: the applicator vocabulary of JSON Schema 2020-12 over
    reference-free schemas.  Regular expressions and the assertion keywords that hold no
    subschema (`type`, `enum`, `required`, ...) are parameters. */
module SchemaEval {
  import opened Wrappers
  import opened Utf8
  import opened Json
  import opened Schema

  /** `leaf(keyword, value, instance)`, `regex(pattern, name)` and the text of a member name. */
  datatype Library = Library(leaf: (Key, Json, Json) -> bool, regex: (Key, Key) -> bool, text: Key -> Text)

  /** A verdict with the members and items the schema has evaluated. */
  datatype Verdict = Verdict(valid: bool, names: set<Key>, indices: set<nat>)

  const REJECT := Verdict(false, {}, {})

  /** How the child schemas judge instances. */
  type Evaluator = (Json, Json) -> Verdict

  /** One schema object as the evaluator reads it: its child schemas and its plain assertions. */
  datatype View = View(
    properties: map<Key, Json>, patterns: map<Key, Json>, dependents: map<Key, Json>,
    additional: Option<Json>, names: Option<Json>, restNames: Option<Json>,
    prefix: seq<Json>, items: Option<Json>, contains: Option<Json>, restItems: Option<Json>,
    allOf: seq<Json>, anyOf: Option<seq<Json>>, oneOf: Option<seq<Json>>, not_: Option<Json>,
    if_: Option<Json>, then_: Option<Json>, else_: Option<Json>,
    minContains: int, maxContains: Option<int>,
    leaves: map<Key, Json>)

  function ViewOf(s: Json): View
    requires s.Obj?
  {
    View(Table(s, PROPERTIES), Table(s, PATTERN_PROPERTIES), Table(s, DEPENDENT_SCHEMAS),
         Single(s, ADDITIONAL_PROPERTIES), Single(s, PROPERTY_NAMES), Single(s, UNEVALUATED_PROPERTIES),
         List(s, PREFIX_ITEMS), Single(s, ITEMS), Single(s, CONTAINS), Single(s, UNEVALUATED_ITEMS),
         List(s, ALL_OF), GivenList(s, ANY_OF), GivenList(s, ONE_OF), Single(s, NOT),
         Single(s, IF), Single(s, THEN), Single(s, ELSE),
         if MIN_CONTAINS in s.m && s.m[MIN_CONTAINS].Int? then s.m[MIN_CONTAINS].n else 1,
         if MAX_CONTAINS in s.m && s.m[MAX_CONTAINS].Int? then Some(s.m[MAX_CONTAINS].n) else None,
         map k | k in s.m && KindOf(k) == OtherKind :: s.m[k])
  }

  function GivenList(s: Json, keyword: Key): Option<seq<Json>>
    requires s.Obj?
  {
    if keyword in s.m then Some(List(s, keyword)) else None
  }

  ghost function Eval(lib: Library, s: Json, x: Json): Verdict
    decreases s
  {
    match s
    case Bool(b) => Verdict(b, {}, {})
    case Obj(m) => Combine(lib, (c, y) => if c < s then Eval(lib, c, y) else REJECT, ViewOf(s), x)
    case _ => REJECT
  }

  ghost function Combine(lib: Library, ev: Evaluator, v: View, x: Json): Verdict {
    Verdict(Accepts(lib, ev, v, x), NamesSeen(lib, ev, v, x), ItemsSeen(ev, v, x))
  }

  ghost predicate Accepts(lib: Library, ev: Evaluator, v: View, x: Json) {
    && (forall k | k in v.leaves :: lib.leaf(k, v.leaves[k], x))
    && ObjectAccepted(lib, ev, v, x) && ArrayAccepted(ev, v, x) && LogicAccepted(ev, v, x)
    && RestAccepted(lib, ev, v, x)
  }

  /** The members that count as evaluated. */
  ghost function NamesSeen(lib: Library, ev: Evaluator, v: View, x: Json): set<Key> {
    set n | n in Members(x) && (v.restNames.Some? || EvaluatesName(lib, ev, v, x, n))
  }

  /** The items that count as evaluated. */
  ghost function ItemsSeen(ev: Evaluator, v: View, x: Json): set<nat> {
    set i: nat | i < |Elements(x)| && (v.restItems.Some? || EvaluatesIndex(ev, v, x, i))
  }

  // ---------- assertions ----------

  predicate Passes(ev: Evaluator, c: Option<Json>, x: Json) { c.Some? ==> ev(c.value, x).valid }

  ghost predicate ObjectAccepted(lib: Library, ev: Evaluator, v: View, x: Json) {
    && PropertiesAccept(ev, v.properties, x) && PatternsAccept(lib, ev, v.patterns, x)
    && AdditionalAccept(lib, ev, v, x) && NamesAccept(lib, ev, v.names, x) && DependentsAccept(ev, v.dependents, x)
  }

  ghost predicate PropertiesAccept(ev: Evaluator, m: map<Key, Json>, x: Json) {
    forall n | n in m && n in Members(x) :: ev(m[n], Members(x)[n]).valid
  }

  ghost predicate PatternsAccept(lib: Library, ev: Evaluator, m: map<Key, Json>, x: Json) {
    forall p, n | p in m && n in Members(x) && lib.regex(p, n) :: ev(m[p], Members(x)[n]).valid
  }

  ghost predicate AdditionalAccept(lib: Library, ev: Evaluator, v: View, x: Json) {
    forall n | n in Members(x) && !Named(lib, v, n) :: Passes(ev, v.additional, Members(x)[n])
  }

  ghost predicate NamesAccept(lib: Library, ev: Evaluator, c: Option<Json>, x: Json) {
    forall n | n in Members(x) :: Passes(ev, c, Str(lib.text(n)))
  }

  ghost predicate DependentsAccept(ev: Evaluator, m: map<Key, Json>, x: Json) {
    forall n | n in m && n in Members(x) :: ev(m[n], x).valid
  }

  /** `n` is covered by `properties` or by a pattern. */
  ghost predicate Named(lib: Library, v: View, n: Key) {
    n in v.properties || exists p | p in v.patterns :: lib.regex(p, n)
  }

  ghost predicate ArrayAccepted(ev: Evaluator, v: View, x: Json) {
    && (forall i | 0 <= i < |v.prefix| && i < |Elements(x)| :: ev(v.prefix[i], Elements(x)[i]).valid)
    && (forall i | |v.prefix| <= i < |Elements(x)| :: Passes(ev, v.items, Elements(x)[i]))
    && (v.contains.Some? && x.Arr? ==>
          v.minContains <= |Contained(ev, v.contains.value, x)|
          && (v.maxContains.Some? ==> |Contained(ev, v.contains.value, x)| <= v.maxContains.value))
  }

  /** The items that satisfy the `contains` schema `c`. */
  ghost function Contained(ev: Evaluator, c: Json, x: Json): set<nat> {
    set i: nat | i < |Elements(x)| && ev(c, Elements(x)[i]).valid
  }

  ghost predicate LogicAccepted(ev: Evaluator, v: View, x: Json) {
    && AllAccept(ev, v.allOf, x)
    && (v.anyOf.Some? ==> AnyAccepts(ev, v.anyOf.value, x))
    && (v.oneOf.Some? ==> ExactlyOne(ev, v.oneOf.value, x))
    && (v.not_.Some? ==> !Passes(ev, v.not_, x))
    && (v.if_.Some? ==> Passes(ev, Branch(ev, v, x), x))
  }

  ghost predicate AllAccept(ev: Evaluator, ss: seq<Json>, x: Json) { forall i | 0 <= i < |ss| :: ev(ss[i], x).valid }

  ghost predicate AnyAccepts(ev: Evaluator, ss: seq<Json>, x: Json) { exists i | 0 <= i < |ss| :: ev(ss[i], x).valid }

  ghost predicate ExactlyOne(ev: Evaluator, ss: seq<Json>, x: Json) {
    exists i | 0 <= i < |ss| :: ev(ss[i], x).valid && forall j | 0 <= j < |ss| && j != i :: !ev(ss[j], x).valid
  }

  /** The branch an `if` takes. */
  function Branch(ev: Evaluator, v: View, x: Json): Option<Json> {
    if v.if_.None? then None else if ev(v.if_.value, x).valid then v.then_ else v.else_
  }

  // ---------- what has been evaluated ----------

  ghost predicate ListName(ev: Evaluator, ss: seq<Json>, x: Json, n: Key) {
    exists i | 0 <= i < |ss| :: ev(ss[i], x).valid && n in ev(ss[i], x).names
  }

  ghost predicate ListIndex(ev: Evaluator, ss: seq<Json>, x: Json, n: nat) {
    exists i | 0 <= i < |ss| :: ev(ss[i], x).valid && n in ev(ss[i], x).indices
  }

  ghost predicate DependentName(ev: Evaluator, m: map<Key, Json>, x: Json, n: Key) {
    exists d | d in m && d in Members(x) :: ev(m[d], x).valid && n in ev(m[d], x).names
  }

  ghost predicate DependentIndex(ev: Evaluator, m: map<Key, Json>, x: Json, n: nat) {
    exists d | d in m && d in Members(x) :: ev(m[d], x).valid && n in ev(m[d], x).indices
  }

  function Given(ss: Option<seq<Json>>): seq<Json> { if ss.Some? then ss.value else [] }

  predicate OptName(ev: Evaluator, c: Option<Json>, x: Json, n: Key) {
    c.Some? && ev(c.value, x).valid && n in ev(c.value, x).names
  }

  predicate OptIndex(ev: Evaluator, c: Option<Json>, x: Json, n: nat) {
    c.Some? && ev(c.value, x).valid && n in ev(c.value, x).indices
  }

  ghost predicate LogicName(ev: Evaluator, v: View, x: Json, n: Key) {
    || ListName(ev, v.allOf, x, n) || ListName(ev, Given(v.anyOf), x, n) || ListName(ev, Given(v.oneOf), x, n)
    || OptName(ev, v.if_, x, n) || OptName(ev, Branch(ev, v, x), x, n)
  }

  ghost predicate LogicIndex(ev: Evaluator, v: View, x: Json, i: nat) {
    || ListIndex(ev, v.allOf, x, i) || ListIndex(ev, Given(v.anyOf), x, i) || ListIndex(ev, Given(v.oneOf), x, i)
    || OptIndex(ev, v.if_, x, i) || OptIndex(ev, Branch(ev, v, x), x, i)
  }

  ghost predicate EvaluatesName(lib: Library, ev: Evaluator, v: View, x: Json, n: Key) {
    || Named(lib, v, n) || v.additional.Some?
    || DependentName(ev, v.dependents, x, n)
    || LogicName(ev, v, x, n)
  }

  ghost predicate EvaluatesIndex(ev: Evaluator, v: View, x: Json, i: nat) {
    || i < |v.prefix| || v.items.Some?
    || (v.contains.Some? && i in Contained(ev, v.contains.value, x))
    || DependentIndex(ev, v.dependents, x, i)
    || LogicIndex(ev, v, x, i)
  }

  ghost predicate RestAccepted(lib: Library, ev: Evaluator, v: View, x: Json) {
    && (forall n | n in Members(x) && !EvaluatesName(lib, ev, v, x, n) :: Passes(ev, v.restNames, Members(x)[n]))
    && (forall i: nat | i < |Elements(x)| && !EvaluatesIndex(ev, v, x, i) :: Passes(ev, v.restItems, Elements(x)[i]))
  }

  // ---------- children that judge alike ----------

  ghost predicate SameChild(ev': Evaluator, c': Json, ev: Evaluator, c: Json) { forall y :: ev'(c', y) == ev(c, y) }

  ghost predicate SameOpt(ev': Evaluator, c': Option<Json>, ev: Evaluator, c: Option<Json>) {
    c'.Some? == c.Some? && (c.Some? ==> SameChild(ev', c'.value, ev, c.value))
  }

  ghost predicate SameSeq(ev': Evaluator, ss': seq<Json>, ev: Evaluator, ss: seq<Json>) {
    |ss'| == |ss| && forall i | 0 <= i < |ss| :: SameChild(ev', ss'[i], ev, ss[i])
  }

  ghost predicate SameMap(ev': Evaluator, m': map<Key, Json>, ev: Evaluator, m: map<Key, Json>) {
    m'.Keys == m.Keys && forall n | n in m :: SameChild(ev', m'[n], ev, m[n])
  }

  ghost predicate SameObject(ev': Evaluator, v': View, ev: Evaluator, v: View) {
    && SameMap(ev', v'.properties, ev, v.properties) && SameMap(ev', v'.patterns, ev, v.patterns)
    && SameMap(ev', v'.dependents, ev, v.dependents)
    && SameOpt(ev', v'.additional, ev, v.additional) && SameOpt(ev', v'.names, ev, v.names)
    && SameOpt(ev', v'.restNames, ev, v.restNames)
  }

  ghost predicate SameArray(ev': Evaluator, v': View, ev: Evaluator, v: View) {
    && SameSeq(ev', v'.prefix, ev, v.prefix) && SameOpt(ev', v'.items, ev, v.items)
    && SameOpt(ev', v'.contains, ev, v.contains) && SameOpt(ev', v'.restItems, ev, v.restItems)
    && v'.minContains == v.minContains && v'.maxContains == v.maxContains
  }

  ghost predicate SameLogic(ev': Evaluator, v': View, ev: Evaluator, v: View) {
    && SameSeq(ev', v'.allOf, ev, v.allOf)
    && v'.anyOf.Some? == v.anyOf.Some? && SameSeq(ev', Given(v'.anyOf), ev, Given(v.anyOf))
    && v'.oneOf.Some? == v.oneOf.Some? && SameSeq(ev', Given(v'.oneOf), ev, Given(v.oneOf))
    && SameOpt(ev', v'.not_, ev, v.not_) && SameOpt(ev', v'.if_, ev, v.if_)
    && SameOpt(ev', v'.then_, ev, v.then_) && SameOpt(ev', v'.else_, ev, v.else_)
  }

  ghost predicate SameView(ev': Evaluator, v': View, ev: Evaluator, v: View) {
    SameObject(ev', v', ev, v) && SameArray(ev', v', ev, v) && SameLogic(ev', v', ev, v) && v'.leaves == v.leaves
  }

  lemma NamedAgrees(lib: Library, v': View, v: View, n: Key)
    requires v'.properties.Keys == v.properties.Keys && v'.patterns.Keys == v.patterns.Keys
    ensures Named(lib, v', n) == Named(lib, v, n)
  {
    assert n in v'.properties <==> n in v.properties.Keys;
    assert forall p :: p in v'.patterns <==> p in v.patterns.Keys;
  }

  lemma MapsAgree(lib: Library, ev': Evaluator, m': map<Key, Json>, ev: Evaluator, m: map<Key, Json>, x: Json)
    requires SameMap(ev', m', ev, m)
    ensures PropertiesAccept(ev', m', x) == PropertiesAccept(ev, m, x)
    ensures DependentsAccept(ev', m', x) == DependentsAccept(ev, m, x)
  {
    assert forall n :: n in m' <==> n in m.Keys;
  }

  lemma PatternsAgree(lib: Library, ev': Evaluator, m': map<Key, Json>, ev: Evaluator, m: map<Key, Json>, x: Json)
    requires SameMap(ev', m', ev, m)
    ensures PatternsAccept(lib, ev', m', x) == PatternsAccept(lib, ev, m, x)
  {
    assert forall n :: n in m' <==> n in m.Keys;
  }

  lemma PassesAgree(ev': Evaluator, c': Option<Json>, ev: Evaluator, c: Option<Json>)
    requires SameOpt(ev', c', ev, c)
    ensures forall y :: Passes(ev', c', y) == Passes(ev, c, y)
  {
  }

  lemma AdditionalAgrees(lib: Library, ev': Evaluator, v': View, ev: Evaluator, v: View, x: Json)
    requires SameMap(ev', v'.properties, ev, v.properties) && SameMap(ev', v'.patterns, ev, v.patterns)
    requires SameOpt(ev', v'.additional, ev, v.additional)
    ensures AdditionalAccept(lib, ev', v', x) == AdditionalAccept(lib, ev, v, x)
  {
    PassesAgree(ev', v'.additional, ev, v.additional);
    forall n ensures Named(lib, v', n) == Named(lib, v, n) { NamedAgrees(lib, v', v, n); }
  }

  lemma ObjectAgrees(lib: Library, ev': Evaluator, v': View, ev: Evaluator, v: View, x: Json)
    requires SameObject(ev', v', ev, v)
    ensures ObjectAccepted(lib, ev', v', x) == ObjectAccepted(lib, ev, v, x)
  {
    MapsAgree(lib, ev', v'.properties, ev, v.properties, x);
    MapsAgree(lib, ev', v'.dependents, ev, v.dependents, x);
    PatternsAgree(lib, ev', v'.patterns, ev, v.patterns, x);
    AdditionalAgrees(lib, ev', v', ev, v, x);
    PassesAgree(ev', v'.names, ev, v.names);
  }

  lemma ArrayAgrees(ev': Evaluator, v': View, ev: Evaluator, v: View, x: Json)
    requires SameArray(ev', v', ev, v)
    ensures v.contains.Some? ==> Contained(ev', v'.contains.value, x) == Contained(ev, v.contains.value, x)
    ensures ArrayAccepted(ev', v', x) == ArrayAccepted(ev, v, x)
  {
  }

  lemma BranchAgrees(ev': Evaluator, v': View, ev: Evaluator, v: View, x: Json)
    requires SameLogic(ev', v', ev, v)
    ensures SameOpt(ev', Branch(ev', v', x), ev, Branch(ev, v, x))
  {
  }

  lemma SeqsAgree(ev': Evaluator, ss': seq<Json>, ev: Evaluator, ss: seq<Json>, x: Json)
    requires SameSeq(ev', ss', ev, ss)
    ensures AllAccept(ev', ss', x) == AllAccept(ev, ss, x) && AnyAccepts(ev', ss', x) == AnyAccepts(ev, ss, x)
  {
    forall i | 0 <= i < |ss| ensures ev'(ss'[i], x) == ev(ss[i], x) { }
  }

  lemma LogicAgrees(ev': Evaluator, v': View, ev: Evaluator, v: View, x: Json)
    requires SameLogic(ev', v', ev, v)
    ensures LogicAccepted(ev', v', x) == LogicAccepted(ev, v, x)
  {
    SeqsAgree(ev', v'.allOf, ev, v.allOf, x);
    if v.anyOf.Some? { SeqsAgree(ev', v'.anyOf.value, ev, v.anyOf.value, x); }
    if v.oneOf.Some? { ExactlyOneAgrees(ev', v'.oneOf.value, ev, v.oneOf.value, x); }
    PassesAgree(ev', v'.not_, ev, v.not_);
    BranchAgrees(ev', v', ev, v, x);
    PassesAgree(ev', Branch(ev', v', x), ev, Branch(ev, v, x));
  }

  lemma ExactlyOneAgrees(ev': Evaluator, ss': seq<Json>, ev: Evaluator, ss: seq<Json>, x: Json)
    requires SameSeq(ev', ss', ev, ss)
    ensures ExactlyOne(ev', ss', x) == ExactlyOne(ev, ss, x)
  {
    assert forall i | 0 <= i < |ss| :: ev'(ss'[i], x) == ev(ss[i], x);
  }

  lemma ListNameAgrees(ev': Evaluator, ss': seq<Json>, ev: Evaluator, ss: seq<Json>, x: Json, n: Key)
    requires SameSeq(ev', ss', ev, ss)
    ensures ListName(ev', ss', x, n) == ListName(ev, ss, x, n)
  {
    assert forall i | 0 <= i < |ss| :: ev'(ss'[i], x) == ev(ss[i], x);
  }

  lemma ListIndexAgrees(ev': Evaluator, ss': seq<Json>, ev: Evaluator, ss: seq<Json>, x: Json, n: nat)
    requires SameSeq(ev', ss', ev, ss)
    ensures ListIndex(ev', ss', x, n) == ListIndex(ev, ss, x, n)
  {
    assert forall i | 0 <= i < |ss| :: ev'(ss'[i], x) == ev(ss[i], x);
  }

  lemma DependentsAgree(ev': Evaluator, m': map<Key, Json>, ev: Evaluator, m: map<Key, Json>, x: Json, n: Key, i: nat)
    requires SameMap(ev', m', ev, m)
    ensures DependentName(ev', m', x, n) == DependentName(ev, m, x, n)
    ensures DependentIndex(ev', m', x, i) == DependentIndex(ev, m, x, i)
  {
    assert forall d | d in m :: d in m' && ev'(m'[d], x) == ev(m[d], x);
    assert forall d | d in m' :: d in m;
  }

  lemma LogicNameAgrees(ev': Evaluator, v': View, ev: Evaluator, v: View, x: Json, n: Key)
    requires SameLogic(ev', v', ev, v)
    ensures LogicName(ev', v', x, n) == LogicName(ev, v, x, n)
  {
    BranchAgrees(ev', v', ev, v, x);
    ListNameAgrees(ev', v'.allOf, ev, v.allOf, x, n);
    ListNameAgrees(ev', Given(v'.anyOf), ev, Given(v.anyOf), x, n);
    ListNameAgrees(ev', Given(v'.oneOf), ev, Given(v.oneOf), x, n);
  }

  lemma LogicIndexAgrees(ev': Evaluator, v': View, ev: Evaluator, v: View, x: Json, n: nat)
    requires SameLogic(ev', v', ev, v)
    ensures LogicIndex(ev', v', x, n) == LogicIndex(ev, v, x, n)
  {
    BranchAgrees(ev', v', ev, v, x);
    ListIndexAgrees(ev', v'.allOf, ev, v.allOf, x, n);
    ListIndexAgrees(ev', Given(v'.anyOf), ev, Given(v.anyOf), x, n);
    ListIndexAgrees(ev', Given(v'.oneOf), ev, Given(v.oneOf), x, n);
  }

  lemma NameAgrees(lib: Library, ev': Evaluator, v': View, ev: Evaluator, v: View, x: Json, n: Key)
    requires SameView(ev', v', ev, v)
    ensures EvaluatesName(lib, ev', v', x, n) == EvaluatesName(lib, ev, v, x, n)
  {
    NamedAgrees(lib, v', v, n);
    DependentsAgree(ev', v'.dependents, ev, v.dependents, x, n, 0);
    LogicNameAgrees(ev', v', ev, v, x, n);
  }

  lemma IndexAgrees(ev': Evaluator, v': View, ev: Evaluator, v: View, x: Json, i: nat)
    requires SameView(ev', v', ev, v)
    ensures EvaluatesIndex(ev', v', x, i) == EvaluatesIndex(ev, v, x, i)
  {
    ArrayAgrees(ev', v', ev, v, x);
    DependentsAgree(ev', v'.dependents, ev, v.dependents, x, TYPE, i);
    LogicIndexAgrees(ev', v', ev, v, x, i);
  }

  lemma NamesAgree(lib: Library, ev': Evaluator, v': View, ev: Evaluator, v: View, x: Json)
    requires SameView(ev', v', ev, v)
    ensures forall n :: EvaluatesName(lib, ev', v', x, n) == EvaluatesName(lib, ev, v, x, n)
    ensures NamesSeen(lib, ev', v', x) == NamesSeen(lib, ev, v, x)
  {
    forall n ensures EvaluatesName(lib, ev', v', x, n) == EvaluatesName(lib, ev, v, x, n) {
      NameAgrees(lib, ev', v', ev, v, x, n);
    }
  }

  lemma ItemsAgree(ev': Evaluator, v': View, ev: Evaluator, v: View, x: Json)
    requires SameView(ev', v', ev, v)
    ensures forall i: nat :: EvaluatesIndex(ev', v', x, i) == EvaluatesIndex(ev, v, x, i)
    ensures ItemsSeen(ev', v', x) == ItemsSeen(ev, v, x)
  {
    forall i: nat ensures EvaluatesIndex(ev', v', x, i) == EvaluatesIndex(ev, v, x, i) {
      IndexAgrees(ev', v', ev, v, x, i);
    }
  }

  lemma AcceptsAgrees(lib: Library, ev': Evaluator, v': View, ev: Evaluator, v: View, x: Json)
    requires SameView(ev', v', ev, v) && RestAccepted(lib, ev', v', x) == RestAccepted(lib, ev, v, x)
    ensures Accepts(lib, ev', v', x) == Accepts(lib, ev, v, x)
  {
    ObjectAgrees(lib, ev', v', ev, v, x);
    ArrayAgrees(ev', v', ev, v, x);
    LogicAgrees(ev', v', ev, v, x);
  }

  lemma CombineAgrees(lib: Library, ev': Evaluator, v': View, ev: Evaluator, v: View, x: Json)
    requires SameView(ev', v', ev, v)
    ensures Combine(lib, ev', v', x) == Combine(lib, ev, v, x)
  {
    NamesAgree(lib, ev', v', ev, v, x);
    ItemsAgree(ev', v', ev, v, x);
    RestAgrees(lib, ev', v', ev, v, x);
    AcceptsAgrees(lib, ev', v', ev, v, x);
  }

  lemma RestAgrees(lib: Library, ev': Evaluator, v': View, ev: Evaluator, v: View, x: Json)
    requires SameOpt(ev', v'.restNames, ev, v.restNames) && SameOpt(ev', v'.restItems, ev, v.restItems)
    requires forall n :: EvaluatesName(lib, ev', v', x, n) == EvaluatesName(lib, ev, v, x, n)
    requires forall i: nat :: EvaluatesIndex(ev', v', x, i) == EvaluatesIndex(ev, v, x, i)
    ensures RestAccepted(lib, ev', v', x) == RestAccepted(lib, ev, v, x)
  {
    forall y ensures Passes(ev', v'.restNames, y) == Passes(ev, v.restNames, y) { }
    forall y ensures Passes(ev', v'.restItems, y) == Passes(ev, v.restItems, y) { }
  }

  // ---------- stripping does not change validation ----------

  /** `ev'` judges the stripped children of `s` as `ev` judges the children. */
  ghost predicate Alike(ev': Evaluator, ev: Evaluator, s: Json) {
    s.Obj? && Strip(s).Obj? && forall c: Json | c < s && Strip(c) < Strip(s) :: SameChild(ev', Strip(c), ev, c)
  }

  lemma TableAlike(ev': Evaluator, ev: Evaluator, s: Json, keyword: Key)
    requires Alike(ev', ev, s) && KindOf(keyword) == MapKind
    ensures SameMap(ev', Table(Strip(s), keyword), ev, Table(s, keyword))
  {
    StripReads(s);
  }

  lemma SingleAlike(ev': Evaluator, ev: Evaluator, s: Json, keyword: Key)
    requires Alike(ev', ev, s) && KindOf(keyword) == SingleKind
    ensures SameOpt(ev', Single(Strip(s), keyword), ev, Single(s, keyword))
  {
    StripReads(s);
  }

  lemma ListAlike(ev': Evaluator, ev: Evaluator, s: Json, keyword: Key)
    requires Alike(ev', ev, s) && KindOf(keyword) == ListKind
    ensures SameSeq(ev', List(Strip(s), keyword), ev, List(s, keyword))
    ensures GivenList(Strip(s), keyword).Some? == GivenList(s, keyword).Some?
    ensures SameSeq(ev', Given(GivenList(Strip(s), keyword)), ev, Given(GivenList(s, keyword)))
  {
    StripReads(s);
    assert keyword in Strip(s).m <==> keyword in s.m.Keys;
  }

  lemma PlainKey(s: Json, k: Key)
    requires s.Obj? && KindOf(k) == OtherKind
    ensures Strip(s).Obj? && (k in Strip(s).m <==> k in s.m)
    ensures k in s.m ==> Strip(s).m[k] == s.m[k]
  {
  }

  lemma PlainAlike(s: Json)
    requires s.Obj? && Strip(s).Obj?
    ensures ViewOf(Strip(s)).leaves == ViewOf(s).leaves
  {
    forall k | KindOf(k) == OtherKind
      ensures (k in Strip(s).m <==> k in s.m) && (k in s.m ==> Strip(s).m[k] == s.m[k])
    {
      PlainKey(s, k);
    }
    var a, b := ViewOf(Strip(s)).leaves, ViewOf(s).leaves;
    assert forall k :: k in a <==> k in b;
    assert forall k | k in b :: a[k] == b[k];
  }

  lemma ObjectAlike(ev': Evaluator, ev: Evaluator, s: Json)
    requires Alike(ev', ev, s)
    ensures SameObject(ev', ViewOf(Strip(s)), ev, ViewOf(s))
  {
    TableAlike(ev', ev, s, PROPERTIES);
    TableAlike(ev', ev, s, PATTERN_PROPERTIES);
    TableAlike(ev', ev, s, DEPENDENT_SCHEMAS);
    SingleAlike(ev', ev, s, ADDITIONAL_PROPERTIES);
    SingleAlike(ev', ev, s, PROPERTY_NAMES);
    SingleAlike(ev', ev, s, UNEVALUATED_PROPERTIES);
  }

  lemma ArrayAlike(ev': Evaluator, ev: Evaluator, s: Json)
    requires Alike(ev', ev, s)
    ensures SameArray(ev', ViewOf(Strip(s)), ev, ViewOf(s))
  {
    SingleAlike(ev', ev, s, ITEMS);
    SingleAlike(ev', ev, s, CONTAINS);
    SingleAlike(ev', ev, s, UNEVALUATED_ITEMS);
    ListAlike(ev', ev, s, PREFIX_ITEMS);
    PlainKey(s, MIN_CONTAINS);
    PlainKey(s, MAX_CONTAINS);
  }

  lemma LogicAlike(ev': Evaluator, ev: Evaluator, s: Json)
    requires Alike(ev', ev, s)
    ensures SameLogic(ev', ViewOf(Strip(s)), ev, ViewOf(s))
  {
    SingleAlike(ev', ev, s, NOT);
    SingleAlike(ev', ev, s, IF);
    SingleAlike(ev', ev, s, THEN);
    SingleAlike(ev', ev, s, ELSE);
    ListAlike(ev', ev, s, ALL_OF);
    ListAlike(ev', ev, s, ANY_OF);
    ListAlike(ev', ev, s, ONE_OF);
  }

  /** The stripped schema reads as the same view with each child stripped. */
  lemma StripView(s: Json, ev': Evaluator, ev: Evaluator)
    requires Alike(ev', ev, s)
    ensures SameView(ev', ViewOf(Strip(s)), ev, ViewOf(s))
  {
    ObjectAlike(ev', ev, s);
    ArrayAlike(ev', ev, s);
    LogicAlike(ev', ev, s);
    PlainAlike(s);
  }

  /** The schema the Hub advertises gives every instance the verdict of the schema it enforces,
      down to the members and items counted as evaluated. */
  lemma {:induction false} StripPreservesValidation(lib: Library, s: Json, x: Json)
    ensures Eval(lib, Strip(s), x) == Eval(lib, s, x)
    decreases s
  {
    if s.Obj? {
      var t := Strip(s);
      var ev := (c: Json, y: Json) => if c < s then Eval(lib, c, y) else REJECT;
      var ev' := (c: Json, y: Json) => if c < t then Eval(lib, c, y) else REJECT;
      forall c: Json, y: Json | c < s && Strip(c) < t ensures ev'(Strip(c), y) == ev(c, y) {
        StripPreservesValidation(lib, c, y);
      }
      StripView(s, ev', ev);
      CombineAgrees(lib, ev', ViewOf(t), ev, ViewOf(s), x);
    }
  }
}
