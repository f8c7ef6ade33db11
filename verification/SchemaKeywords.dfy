/** What each keyword of a schema means, on schemas that hold it alone or beside those it depends on. */
module SchemaKeywords {
  import opened Wrappers
  import opened Json
  import opened Schema
  import opened SchemaEval

  ghost predicate Valid(lib: Library, s: Json, x: Json) { Eval(lib, s, x).valid }

  /** Every schema as it judges, without the bookkeeping of the recursion. */
  ghost function Judges(lib: Library): Evaluator { (c, y) => Eval(lib, c, y) }

  lemma {:induction false} EvalView(lib: Library, s: Json, x: Json)
    requires s.Obj?
    ensures Eval(lib, s, x) == Combine(lib, Judges(lib), ViewOf(s), x)
  {
    var ev: Evaluator := (c, y) => if c < s then Eval(lib, c, y) else REJECT;
    SameChildren(lib, s, ev);
    CombineAgrees(lib, ev, ViewOf(s), Judges(lib), ViewOf(s), x);
  }

  lemma {:induction false} SameChildren(lib: Library, s: Json, ev: Evaluator)
    requires s.Obj? && forall c, y | c < s :: ev(c, y) == Eval(lib, c, y)
    ensures SameView(ev, ViewOf(s), Judges(lib), ViewOf(s))
  {
    GivenSmaller(s, ANY_OF);
    GivenSmaller(s, ONE_OF);
  }

  lemma GivenSmaller(s: Json, k: Key)
    requires s.Obj?
    ensures forall i | 0 <= i < |Given(GivenList(s, k))| :: Given(GivenList(s, k))[i] < s
  {
  }

  // ---------- keywords that are not there do not judge ----------

  predicate NoObject(v: View) {
    v.properties == map[] && v.patterns == map[] && v.dependents == map[] && v.additional.None? && v.names.None?
  }

  predicate NoArray(v: View) { v.prefix == [] && v.items.None? && v.contains.None? }

  predicate NoLogic(v: View) { v.allOf == [] && v.anyOf.None? && v.oneOf.None? && v.not_.None? && v.if_.None? }

  predicate NoRest(v: View) { v.restNames.None? && v.restItems.None? }

  lemma Quiet(lib: Library, ev: Evaluator, v: View, x: Json)
    ensures NoObject(v) ==> ObjectAccepted(lib, ev, v, x)
    ensures NoArray(v) ==> ArrayAccepted(ev, v, x)
    ensures NoLogic(v) ==> LogicAccepted(ev, v, x)
    ensures NoRest(v) ==> RestAccepted(lib, ev, v, x)
  {
  }

  predicate LogicKey(k: Key) {
    JudgingKey(k) || k == THEN || k == ELSE || SilentKey(k)
  }

  predicate JudgingKey(k: Key) { k == ALL_OF || k == ANY_OF || k == ONE_OF || k == NOT || k == IF }

  predicate ObjectKey(k: Key) {
    || k == PROPERTIES || k == PATTERN_PROPERTIES || k == DEPENDENT_SCHEMAS
    || k == ADDITIONAL_PROPERTIES || k == PROPERTY_NAMES
  }

  predicate ArrayKey(k: Key) {
    k == PREFIX_ITEMS || k == ITEMS || k == CONTAINS || k == MIN_CONTAINS || k == MAX_CONTAINS
  }

  predicate RestKey(k: Key) { k == UNEVALUATED_PROPERTIES || k == UNEVALUATED_ITEMS }

  predicate SilentKey(k: Key) { k == DEFS || k == DEFINITIONS || k == CONTENT_SCHEMA || k == X_MCP_HEADER }

  /** Fields whose keywords are missing are empty. */
  lemma {:induction false} EmptyParts(s: Json, v: View)
    requires s.Obj? && v == ViewOf(s)
    ensures (forall k | k in s.m :: !ObjectKey(k)) ==> NoObject(v)
    ensures (forall k | k in s.m :: !ArrayKey(k)) ==> NoArray(v)
    ensures (forall k | k in s.m :: !LogicKey(k)) ==> NoLogic(v)
    ensures (forall k | k in s.m :: !RestKey(k)) ==> NoRest(v)
    ensures (forall k | k in s.m :: KindOf(k) != OtherKind) ==> v.leaves == map[]
  {
  }

  lemma KeysApart()
    ensures forall k :: LogicKey(k) ==> !ObjectKey(k) && !ArrayKey(k) && !RestKey(k) && KindOf(k) != OtherKind
    ensures forall k :: ObjectKey(k) ==> !LogicKey(k) && !ArrayKey(k) && !RestKey(k) && KindOf(k) != OtherKind
    ensures forall k :: ArrayKey(k) ==> !LogicKey(k) && !ObjectKey(k) && !RestKey(k)
  {
  }

  /** The verdict, part by part. */
  lemma {:induction false} Parts(lib: Library, s: Json, x: Json) returns (v: View)
    requires s.Obj?
    ensures v == ViewOf(s)
    ensures (forall k | k in s.m :: !ObjectKey(k)) ==> ObjectAccepted(lib, Judges(lib), v, x)
    ensures (forall k | k in s.m :: !ArrayKey(k)) ==> ArrayAccepted(Judges(lib), v, x)
    ensures (forall k | k in s.m :: !LogicKey(k)) ==> LogicAccepted(Judges(lib), v, x)
    ensures (forall k | k in s.m :: !RestKey(k)) ==> RestAccepted(lib, Judges(lib), v, x)
    ensures (forall k | k in s.m && KindOf(k) == OtherKind :: lib.leaf(k, s.m[k], x)) ==>
              forall k | k in v.leaves :: lib.leaf(k, v.leaves[k], x)
    ensures Valid(lib, s, x) <==> Accepts(lib, Judges(lib), v, x)
  {
    v := ViewOf(s);
    EmptyParts(s, v);
    EvalView(lib, s, x);
    Quiet(lib, Judges(lib), v, x);
  }

  ghost predicate BranchAccepts(lib: Library, s: Json, x: Json)
    requires s.Obj? && IF in s.m
  {
    Passes(Judges(lib), if Valid(lib, s.m[IF], x) then Single(s, THEN) else Single(s, ELSE), x)
  }

  lemma {:induction false} OnlyLogic(lib: Library, s: Json, x: Json)
    requires s.Obj? && forall k | k in s.m :: LogicKey(k)
    ensures Valid(lib, s, x) <==> LogicMeans(lib, s, x)
  {
    KeysApart();
    var v := Parts(lib, s, x);
    LogicRead(lib, s, v, x);
  }

  /** The verdict of the logic keywords of `s`. */
  ghost predicate LogicMeans(lib: Library, s: Json, x: Json)
    requires s.Obj?
  {
    && (ALL_OF in s.m ==> AllAccept(Judges(lib), List(s, ALL_OF), x))
    && (ANY_OF in s.m ==> AnyAccepts(Judges(lib), List(s, ANY_OF), x))
    && (ONE_OF in s.m ==> ExactlyOne(Judges(lib), List(s, ONE_OF), x))
    && (NOT in s.m ==> Single(s, NOT).None? || !Valid(lib, s.m[NOT], x))
    && (IF in s.m ==> Single(s, IF).None? || BranchAccepts(lib, s, x))
  }

  lemma {:induction false} LogicRead(lib: Library, s: Json, v: View, x: Json)
    requires s.Obj? && v == ViewOf(s)
    ensures LogicAccepted(Judges(lib), v, x) <==> LogicMeans(lib, s, x)
  {
  }

  lemma AbsentObject(lib: Library, s: Json, v: View, x: Json)
    requires s.Obj? && v == ViewOf(s)
    ensures PROPERTIES !in s.m ==> PropertiesAccept(Judges(lib), v.properties, x)
    ensures PATTERN_PROPERTIES !in s.m ==> PatternsAccept(lib, Judges(lib), v.patterns, x)
    ensures ADDITIONAL_PROPERTIES !in s.m ==> AdditionalAccept(lib, Judges(lib), v, x)
    ensures PROPERTY_NAMES !in s.m ==> NamesAccept(lib, Judges(lib), v.names, x)
    ensures DEPENDENT_SCHEMAS !in s.m ==> DependentsAccept(Judges(lib), v.dependents, x)
  {
  }

  lemma {:induction false} OnlyObject(lib: Library, s: Json, x: Json) returns (v: View)
    requires s.Obj? && forall k | k in s.m :: ObjectKey(k)
    ensures v.properties == Table(s, PROPERTIES) && v.patterns == Table(s, PATTERN_PROPERTIES)
    ensures v.additional == Single(s, ADDITIONAL_PROPERTIES)
    ensures Valid(lib, s, x) <==>
            && (PROPERTIES in s.m ==> PropertiesAccept(Judges(lib), v.properties, x))
            && (PATTERN_PROPERTIES in s.m ==> PatternsAccept(lib, Judges(lib), v.patterns, x))
            && (ADDITIONAL_PROPERTIES in s.m ==> AdditionalAccept(lib, Judges(lib), v, x))
            && (PROPERTY_NAMES in s.m ==> NamesAccept(lib, Judges(lib), Single(s, PROPERTY_NAMES), x))
            && (DEPENDENT_SCHEMAS in s.m ==> DependentsAccept(Judges(lib), Table(s, DEPENDENT_SCHEMAS), x))
  {
    KeysApart();
    v := Parts(lib, s, x);
    AbsentObject(lib, s, v, x);
  }

  lemma {:induction false} OnlyArray(lib: Library, s: Json, x: Json) returns (v: View)
    requires s.Obj? && forall k | k in s.m :: ArrayKey(k)
    requires forall k | k in s.m && KindOf(k) == OtherKind :: lib.leaf(k, s.m[k], x)
    ensures v.prefix == List(s, PREFIX_ITEMS) && v.items == Single(s, ITEMS) && v.contains == Single(s, CONTAINS)
    ensures MIN_CONTAINS in s.m && s.m[MIN_CONTAINS].Int? ==> v.minContains == s.m[MIN_CONTAINS].n
    ensures MIN_CONTAINS !in s.m ==> v.minContains == 1
    ensures MAX_CONTAINS in s.m && s.m[MAX_CONTAINS].Int? ==> v.maxContains == Some(s.m[MAX_CONTAINS].n)
    ensures MAX_CONTAINS !in s.m ==> v.maxContains == None
    ensures Valid(lib, s, x) <==> ArrayAccepted(Judges(lib), v, x)
  {
    KeysApart();
    v := Parts(lib, s, x);
  }

  /** `true` accepts everything and `false` nothing; an object without keywords accepts everything, and
      what is no schema nothing. */
  lemma {:induction false} Constants(lib: Library, s: Json, x: Json)
    ensures Valid(lib, Bool(true), x) && !Valid(lib, Bool(false), x) && Valid(lib, Obj(map[]), x)
    ensures !IsSchema(s) ==> !Valid(lib, s, x)
  {
    OnlyLogic(lib, Obj(map[]), x);
  }

  /** A keyword that holds no schema is asked for its own verdict. */
  lemma {:induction false} PlainKeyword(lib: Library, k: Key, w: Json, x: Json)
    requires KindOf(k) == OtherKind
    ensures Valid(lib, Obj(map[k := w]), x) <==> lib.leaf(k, w, x)
  {
    var s := Obj(map[k := w]);
    EvalView(lib, s, x);
    Quiet(lib, Judges(lib), ViewOf(s), x);
    var leaves := ViewOf(s).leaves;
    assert leaves == map[k := w];
    assert k in leaves && leaves[k] == w;
  }

  /** Definitions, annotations and unused branches do not judge. */
  lemma {:induction false} SilentKeyword(lib: Library, k: Key, w: Json, x: Json)
    requires SilentKey(k) || k == THEN || k == ELSE
    ensures Valid(lib, Obj(map[k := w]), x)
  {
    OnlyLogic(lib, Obj(map[k := w]), x);
  }

  // ---------- logic ----------

  lemma {:induction false} AllOf(lib: Library, list: seq<Json>, x: Json)
    ensures Valid(lib, Obj(map[ALL_OF := Arr(list)]), x) <==> forall i | 0 <= i < |list| :: Valid(lib, list[i], x)
  {
    var s := Obj(map[ALL_OF := Arr(list)]);
    assert List(s, ALL_OF) == list;
    OnlyLogic(lib, s, x);
  }

  lemma {:induction false} AnyOf(lib: Library, list: seq<Json>, x: Json)
    ensures Valid(lib, Obj(map[ANY_OF := Arr(list)]), x) <==> exists i :: 0 <= i < |list| && Valid(lib, list[i], x)
  {
    var s := Obj(map[ANY_OF := Arr(list)]);
    assert List(s, ANY_OF) == list;
    OnlyLogic(lib, s, x);
  }

  lemma {:induction false} OneOf(lib: Library, list: seq<Json>, x: Json)
    ensures Valid(lib, Obj(map[ONE_OF := Arr(list)]), x) <==> OnlyAt(lib, list, x)
  {
    var s := Obj(map[ONE_OF := Arr(list)]);
    assert List(s, ONE_OF) == list;
    OnlyLogic(lib, s, x);
    OneMeans(lib, list, x);
  }

  /** One of the list accepts, and no other does. */
  ghost predicate OnlyAt(lib: Library, list: seq<Json>, x: Json) {
    exists i :: 0 <= i < |list| && Valid(lib, list[i], x) && forall j | 0 <= j < |list| && Valid(lib, list[j], x) :: j == i
  }

  lemma OneMeans(lib: Library, list: seq<Json>, x: Json)
    ensures ExactlyOne(Judges(lib), list, x) <==> OnlyAt(lib, list, x)
  {
    if ExactlyOne(Judges(lib), list, x) {
      var i :| 0 <= i < |list| && Judges(lib)(list[i], x).valid
               && forall j | 0 <= j < |list| && j != i :: !Judges(lib)(list[j], x).valid;
      assert Valid(lib, list[i], x);
      forall j | 0 <= j < |list| && Valid(lib, list[j], x) ensures j == i { assert Judges(lib)(list[j], x).valid; }
    }
    if OnlyAt(lib, list, x) {
      var i :| 0 <= i < |list| && Valid(lib, list[i], x) && forall j | 0 <= j < |list| && Valid(lib, list[j], x) :: j == i;
      assert Judges(lib)(list[i], x).valid;
      forall j | 0 <= j < |list| && j != i ensures !Judges(lib)(list[j], x).valid { assert !Valid(lib, list[j], x); }
    }
  }

  lemma {:induction false} Not(lib: Library, c: Json, x: Json)
    requires IsSchema(c)
    ensures Valid(lib, Obj(map[NOT := c]), x) <==> !Valid(lib, c, x)
  {
    var s := Obj(map[NOT := c]);
    assert Single(s, NOT) == Some(c);
    OnlyLogic(lib, s, x);
  }

  lemma {:induction false} IfThenElse(lib: Library, s: Json, x: Json)
    requires s.Obj? && IF in s.m && forall k | k in s.m :: (k == IF || k == THEN || k == ELSE) && IsSchema(s.m[k])
    ensures Valid(lib, s, x) <==>
            if Valid(lib, s.m[IF], x) then THEN in s.m ==> Valid(lib, s.m[THEN], x)
            else ELSE in s.m ==> Valid(lib, s.m[ELSE], x)
  {
    BranchJudges(lib, s, x);
  }

  lemma {:induction false} BranchJudges(lib: Library, s: Json, x: Json)
    requires s.Obj? && IF in s.m && forall k | k in s.m :: (k == IF || k == THEN || k == ELSE) && IsSchema(s.m[k])
    ensures Valid(lib, s, x) <==> BranchAccepts(lib, s, x)
  {
    OnlyLogic(lib, s, x);
  }

  // ---------- objects ----------

  lemma {:induction false} Properties(lib: Library, table: map<Key, Json>, x: Json)
    ensures Valid(lib, Obj(map[PROPERTIES := Obj(table)]), x) <==>
            forall n | n in table && n in Members(x) :: Valid(lib, table[n], Members(x)[n])
  {
    var s := Obj(map[PROPERTIES := Obj(table)]);
    assert Table(s, PROPERTIES) == table;
    var v := OnlyObject(lib, s, x);
  }

  lemma {:induction false} PatternProperties(lib: Library, table: map<Key, Json>, x: Json)
    ensures Valid(lib, Obj(map[PATTERN_PROPERTIES := Obj(table)]), x) <==>
            forall p, n | p in table && n in Members(x) && lib.regex(p, n) :: Valid(lib, table[p], Members(x)[n])
  {
    var s := Obj(map[PATTERN_PROPERTIES := Obj(table)]);
    assert Table(s, PATTERN_PROPERTIES) == table;
    var v := OnlyObject(lib, s, x);
  }

  /** Additional properties are those that neither a name nor a pattern covers. */
  lemma {:induction false} AdditionalProperties(lib: Library, s: Json, x: Json)
    requires s.Obj? && ADDITIONAL_PROPERTIES in s.m && IsSchema(s.m[ADDITIONAL_PROPERTIES])
    requires forall k | k in s.m :: k == PROPERTIES || k == PATTERN_PROPERTIES || k == ADDITIONAL_PROPERTIES
    ensures var table, patterns := Table(s, PROPERTIES), Table(s, PATTERN_PROPERTIES);
            Valid(lib, s, x) <==>
            && (forall n | n in table && n in Members(x) :: Valid(lib, table[n], Members(x)[n]))
            && (forall p, n | p in patterns && n in Members(x) && lib.regex(p, n) :: Valid(lib, patterns[p], Members(x)[n]))
            && (forall n | n in Members(x) && n !in table && (forall p | p in patterns :: !lib.regex(p, n)) ::
                  Valid(lib, s.m[ADDITIONAL_PROPERTIES], Members(x)[n]))
  {
    var v := OnlyObject(lib, s, x);
    RestOfMembers(lib, v, s.m[ADDITIONAL_PROPERTIES], x);
  }

  lemma RestOfMembers(lib: Library, v: View, c: Json, x: Json)
    requires v.additional == Some(c)
    ensures AdditionalAccept(lib, Judges(lib), v, x) <==>
            forall n | n in Members(x) && n !in v.properties && (forall p | p in v.patterns :: !lib.regex(p, n)) ::
              Valid(lib, c, Members(x)[n])
  {
  }

  lemma {:induction false} PropertyNames(lib: Library, c: Json, x: Json)
    requires IsSchema(c)
    ensures Valid(lib, Obj(map[PROPERTY_NAMES := c]), x) <==> forall n | n in Members(x) :: Valid(lib, c, Str(lib.text(n)))
  {
    var s := Obj(map[PROPERTY_NAMES := c]);
    assert Single(s, PROPERTY_NAMES) == Some(c);
    var v := OnlyObject(lib, s, x);
  }

  lemma {:induction false} DependentSchemas(lib: Library, table: map<Key, Json>, x: Json)
    ensures Valid(lib, Obj(map[DEPENDENT_SCHEMAS := Obj(table)]), x) <==>
            forall n | n in table && n in Members(x) :: Valid(lib, table[n], x)
  {
    var s := Obj(map[DEPENDENT_SCHEMAS := Obj(table)]);
    assert Table(s, DEPENDENT_SCHEMAS) == table;
    var v := OnlyObject(lib, s, x);
  }

  // ---------- arrays ----------

  /** The items of the prefix are judged each by its own schema, all others by `items`. */
  lemma {:induction false} Items(lib: Library, s: Json, x: Json)
    requires s.Obj? && ITEMS in s.m && IsSchema(s.m[ITEMS])
    requires forall k | k in s.m :: k == PREFIX_ITEMS || k == ITEMS
    ensures var prefix := List(s, PREFIX_ITEMS);
            Valid(lib, s, x) <==>
            && (forall i | 0 <= i < |prefix| && i < |Elements(x)| :: Valid(lib, prefix[i], Elements(x)[i]))
            && (forall i | |prefix| <= i < |Elements(x)| :: Valid(lib, s.m[ITEMS], Elements(x)[i]))
  {
    var v := OnlyArray(lib, s, x);
  }

  predicate CountKey(k: Key) { k == MIN_CONTAINS || k == MAX_CONTAINS }

  /** The number of items that `c` accepts is within the bounds; without bounds, at least one. */
  lemma {:induction false} Contains(lib: Library, s: Json, x: Json)
    requires s.Obj? && CONTAINS in s.m && IsSchema(s.m[CONTAINS]) && x.Arr?
    requires forall k | k in s.m :: k == CONTAINS || (CountKey(k) && s.m[k].Int? && lib.leaf(k, s.m[k], x))
    ensures var n := |set i: nat | i < |x.items| && Valid(lib, s.m[CONTAINS], x.items[i])|;
            Valid(lib, s, x) <==>
            && (if MIN_CONTAINS in s.m then s.m[MIN_CONTAINS].n <= n else 1 <= n)
            && (MAX_CONTAINS in s.m ==> n <= s.m[MAX_CONTAINS].n)
  {
    var v := OnlyArray(lib, s, x);
    ContainedItems(lib, s.m[CONTAINS], x);
  }

  lemma ContainedItems(lib: Library, c: Json, x: Json)
    requires x.Arr?
    ensures Contained(Judges(lib), c, x) == set i: nat | i < |x.items| && Valid(lib, c, x.items[i])
  {
    assert Elements(x) == x.items;
    forall i: nat | i < |x.items| ensures Judges(lib)(c, x.items[i]).valid <==> Valid(lib, c, x.items[i]) { }
  }

  // ---------- what is left over ----------

  lemma RestView(s: Json, a: Json, c: Json, k: Key)
    requires k == UNEVALUATED_PROPERTIES || k == UNEVALUATED_ITEMS
    requires s == Obj(map[ALL_OF := Arr([a]), k := c]) && IsSchema(c)
    ensures var v := ViewOf(s);
            && NoObject(v) && NoArray(v) && v.leaves == map[] && v.allOf == [a]
            && v.anyOf == None && v.oneOf == None && v.not_ == None && v.if_ == None
            && v.restNames == (if k == UNEVALUATED_PROPERTIES then Some(c) else None)
            && v.restItems == (if k == UNEVALUATED_ITEMS then Some(c) else None)
  {
  }

  lemma {:induction false} RestLogic(lib: Library, v: View, a: Json, x: Json)
    requires v.allOf == [a] && v.anyOf == None && v.oneOf == None && v.not_ == None && v.if_ == None
    ensures LogicAccepted(Judges(lib), v, x) <==> Valid(lib, a, x)
  {
    assert [a][0] == a;
  }

  lemma {:induction false} RestNames(lib: Library, v: View, a: Json, x: Json, n: Key)
    requires NoObject(v) && v.allOf == [a] && v.anyOf == None && v.oneOf == None && v.if_ == None
    ensures EvaluatesName(lib, Judges(lib), v, x, n) <==> Valid(lib, a, x) && n in Eval(lib, a, x).names
  {
    assert [a][0] == a;
  }

  lemma {:induction false} RestItems(lib: Library, v: View, a: Json, x: Json, i: nat)
    requires NoObject(v) && NoArray(v) && v.allOf == [a] && v.anyOf == None && v.oneOf == None && v.if_ == None
    ensures EvaluatesIndex(Judges(lib), v, x, i) <==> Valid(lib, a, x) && i in Eval(lib, a, x).indices
  {
    assert [a][0] == a;
  }

  lemma {:induction false} NamesLeft(lib: Library, v: View, a: Json, c: Json, x: Json)
    requires NoObject(v) && v.allOf == [a] && v.anyOf == None && v.oneOf == None && v.if_ == None
    requires Valid(lib, a, x) && v.restNames == Some(c) && v.restItems == None
    ensures RestAccepted(lib, Judges(lib), v, x) <==>
            forall n | n in Members(x) && n !in Eval(lib, a, x).names :: Valid(lib, c, Members(x)[n])
  {
    forall n { RestNames(lib, v, a, x, n); }
  }

  lemma {:induction false} ItemsLeft(lib: Library, v: View, a: Json, c: Json, x: Json)
    requires NoObject(v) && NoArray(v) && v.allOf == [a] && v.anyOf == None && v.oneOf == None && v.if_ == None
    requires Valid(lib, a, x) && v.restItems == Some(c) && v.restNames == None
    ensures RestAccepted(lib, Judges(lib), v, x) <==>
            forall i: nat | i < |Elements(x)| && i !in Eval(lib, a, x).indices :: Valid(lib, c, Elements(x)[i])
  {
    forall i: nat { RestItems(lib, v, a, x, i); }
  }

  lemma OnlyRest(lib: Library, s: Json, x: Json)
    requires s.Obj? && NoObject(ViewOf(s)) && NoArray(ViewOf(s)) && ViewOf(s).leaves == map[]
    ensures Valid(lib, s, x) <==> LogicAccepted(Judges(lib), ViewOf(s), x) && RestAccepted(lib, Judges(lib), ViewOf(s), x)
  {
    EvalView(lib, s, x);
    Quiet(lib, Judges(lib), ViewOf(s), x);
  }

  /** `unevaluatedProperties` judges the members that the schemas beside it have not evaluated. */
  lemma {:induction false} UnevaluatedProperties(lib: Library, a: Json, c: Json, x: Json)
    requires IsSchema(c)
    ensures Valid(lib, Obj(map[ALL_OF := Arr([a]), UNEVALUATED_PROPERTIES := c]), x) <==>
            Valid(lib, a, x) && forall n | n in Members(x) && n !in Eval(lib, a, x).names :: Valid(lib, c, Members(x)[n])
  {
    var s := Obj(map[ALL_OF := Arr([a]), UNEVALUATED_PROPERTIES := c]);
    RestView(s, a, c, UNEVALUATED_PROPERTIES);
    OnlyRest(lib, s, x);
    RestLogic(lib, ViewOf(s), a, x);
    if Valid(lib, a, x) { NamesLeft(lib, ViewOf(s), a, c, x); }
  }

  /** `unevaluatedItems` judges the items that the schemas beside it have not evaluated. */
  lemma {:induction false} UnevaluatedItems(lib: Library, a: Json, c: Json, x: Json)
    requires IsSchema(c)
    ensures Valid(lib, Obj(map[ALL_OF := Arr([a]), UNEVALUATED_ITEMS := c]), x) <==>
            Valid(lib, a, x) && forall i: nat | i < |Elements(x)| && i !in Eval(lib, a, x).indices :: Valid(lib, c, Elements(x)[i])
  {
    var s := Obj(map[ALL_OF := Arr([a]), UNEVALUATED_ITEMS := c]);
    RestView(s, a, c, UNEVALUATED_ITEMS);
    OnlyRest(lib, s, x);
    RestLogic(lib, ViewOf(s), a, x);
    if Valid(lib, a, x) { ItemsLeft(lib, ViewOf(s), a, c, x); }
  }

  // ---------- what counts as evaluated ----------

  /** A verdict reports members and items of the instance alone. */
  lemma {:induction false} EvaluatedExist(lib: Library, s: Json, x: Json)
    ensures forall n | n in Eval(lib, s, x).names :: n in Members(x)
    ensures forall i | i in Eval(lib, s, x).indices :: i < |Elements(x)|
    ensures s.Bool? ==> Eval(lib, s, x).names == {} && Eval(lib, s, x).indices == {}
  {
    if s.Obj? { EvalView(lib, s, x); }
  }

  /** What makes the member `n` evaluated. */
  lemma {:induction false} NameSeen(lib: Library, s: Json, x: Json, n: Key) returns (v: View)
    requires s.Obj? && n in Members(x)
    ensures v == ViewOf(s)
    ensures n in Eval(lib, s, x).names <==> v.restNames.Some? || EvaluatesName(lib, Judges(lib), v, x, n)
    ensures (forall k | k in s.m :: !LogicKey(k)) ==> !LogicName(Judges(lib), v, x, n)
  {
    EvalView(lib, s, x);
    v := ViewOf(s);
    EmptyParts(s, v);
  }

  /** What makes the item `i` evaluated. */
  lemma {:induction false} ItemSeen(lib: Library, s: Json, x: Json, i: nat) returns (v: View)
    requires s.Obj? && i < |Elements(x)|
    ensures v == ViewOf(s)
    ensures i in Eval(lib, s, x).indices <==> v.restItems.Some? || EvaluatesIndex(Judges(lib), v, x, i)
    ensures (forall k | k in s.m :: !LogicKey(k)) ==> !LogicIndex(Judges(lib), v, x, i)
  {
    EvalView(lib, s, x);
    v := ViewOf(s);
    EmptyParts(s, v);
  }

  /** A member with a schema under its name is evaluated. */
  lemma {:induction false} NamedMember(lib: Library, s: Json, x: Json, n: Key)
    requires s.Obj? && n in Members(x) && forall k | k in s.m :: k == PROPERTIES
    ensures n in Eval(lib, s, x).names <==> n in Table(s, PROPERTIES)
  {
    var v := NameSeen(lib, s, x, n);
  }

  /** A member whose name a pattern matches is evaluated. */
  lemma {:induction false} PatternMember(lib: Library, s: Json, x: Json, n: Key)
    requires s.Obj? && n in Members(x) && forall k | k in s.m :: k == PATTERN_PROPERTIES
    ensures n in Eval(lib, s, x).names <==> exists p :: p in Table(s, PATTERN_PROPERTIES) && lib.regex(p, n)
  {
    var v := NameSeen(lib, s, x, n);
  }

  /** A schema for all other members leaves none unevaluated. */
  lemma {:induction false} RestMember(lib: Library, s: Json, x: Json, n: Key)
    requires s.Obj? && n in Members(x)
    requires Single(s, ADDITIONAL_PROPERTIES).Some? || Single(s, UNEVALUATED_PROPERTIES).Some?
    ensures n in Eval(lib, s, x).names
  {
    var v := NameSeen(lib, s, x, n);
  }

  /** A schema that a present member brings in passes on what it has evaluated. */
  lemma {:induction false} DependentMember(lib: Library, s: Json, x: Json, n: Key)
    requires s.Obj? && n in Members(x) && forall k | k in s.m :: k == DEPENDENT_SCHEMAS
    ensures n in Eval(lib, s, x).names <==>
            exists d :: d in Table(s, DEPENDENT_SCHEMAS) && d in Members(x)
                        && Valid(lib, Table(s, DEPENDENT_SCHEMAS)[d], x) && n in Eval(lib, Table(s, DEPENDENT_SCHEMAS)[d], x).names
  {
    var v := NameSeen(lib, s, x, n);
  }

  /** An array has no members, so it brings in none of these schemas. */
  lemma {:induction false} DependentItem(lib: Library, s: Json, x: Json, i: nat)
    requires s.Obj? && i < |Elements(x)| && forall k | k in s.m :: k == DEPENDENT_SCHEMAS
    ensures i !in Eval(lib, s, x).indices
  {
    var v := ItemSeen(lib, s, x, i);
  }

  /** Of a list of schemas, those that accept pass on what they have evaluated. */
  lemma {:induction false} ListMember(lib: Library, s: Json, list: Key, x: Json, n: Key)
    requires s.Obj? && n in Members(x) && (list == ALL_OF || list == ANY_OF || list == ONE_OF)
    requires forall k | k in s.m :: k == list
    ensures n in Eval(lib, s, x).names <==>
            exists j :: 0 <= j < |List(s, list)| && Valid(lib, List(s, list)[j], x) && n in Eval(lib, List(s, list)[j], x).names
  {
    var v := NameSeen(lib, s, x, n);
  }

  lemma {:induction false} ListItem(lib: Library, s: Json, list: Key, x: Json, i: nat)
    requires s.Obj? && i < |Elements(x)| && (list == ALL_OF || list == ANY_OF || list == ONE_OF)
    requires forall k | k in s.m :: k == list
    ensures i in Eval(lib, s, x).indices <==>
            exists j :: 0 <= j < |List(s, list)| && Valid(lib, List(s, list)[j], x) && i in Eval(lib, List(s, list)[j], x).indices
  {
    var v := ItemSeen(lib, s, x, i);
  }

  lemma OnlyBranch(lib: Library, s: Json, v: View, x: Json)
    requires s.Obj? && v == ViewOf(s) && forall k | k in s.m :: k == IF || k == THEN || k == ELSE
    ensures forall n :: LogicName(Judges(lib), v, x, n) <==>
                          OptName(Judges(lib), v.if_, x, n) || OptName(Judges(lib), Branch(Judges(lib), v, x), x, n)
    ensures forall i :: LogicIndex(Judges(lib), v, x, i) <==>
                          OptIndex(Judges(lib), v.if_, x, i) || OptIndex(Judges(lib), Branch(Judges(lib), v, x), x, i)
    ensures v.properties == map[] && v.patterns == map[] && v.dependents == map[] && v.additional == None
    ensures v.prefix == [] && v.items == None && v.contains == None && v.restNames == None && v.restItems == None
  {
  }

  /** The condition, when it holds, and the branch taken pass on what they have evaluated. */
  lemma {:induction false} BranchMember(lib: Library, s: Json, x: Json, n: Key)
    requires s.Obj? && n in Members(x) && IF in s.m
    requires forall k | k in s.m :: (k == IF || k == THEN || k == ELSE) && IsSchema(s.m[k])
    ensures n in Eval(lib, s, x).names <==>
            if Valid(lib, s.m[IF], x) then n in Eval(lib, s.m[IF], x).names || PassedOn(lib, s, THEN, x, n)
            else PassedOn(lib, s, ELSE, x, n)
  {
    var v := NameSeen(lib, s, x, n);
    OnlyBranch(lib, s, v, x);
  }

  ghost predicate PassedOn(lib: Library, s: Json, k: Key, x: Json, n: Key)
    requires s.Obj?
  {
    k in s.m && Valid(lib, s.m[k], x) && n in Eval(lib, s.m[k], x).names
  }

  lemma {:induction false} BranchItem(lib: Library, s: Json, x: Json, i: nat)
    requires s.Obj? && i < |Elements(x)| && IF in s.m
    requires forall k | k in s.m :: (k == IF || k == THEN || k == ELSE) && IsSchema(s.m[k])
    ensures i in Eval(lib, s, x).indices <==>
            if Valid(lib, s.m[IF], x) then i in Eval(lib, s.m[IF], x).indices || ItemPassedOn(lib, s, THEN, x, i)
            else ItemPassedOn(lib, s, ELSE, x, i)
  {
    var v := ItemSeen(lib, s, x, i);
    OnlyBranch(lib, s, v, x);
  }

  ghost predicate ItemPassedOn(lib: Library, s: Json, k: Key, x: Json, i: nat)
    requires s.Obj?
  {
    k in s.m && Valid(lib, s.m[k], x) && i in Eval(lib, s.m[k], x).indices
  }

  /** An item of the prefix is evaluated, and one that `contains` accepts. */
  lemma {:induction false} CountedItem(lib: Library, s: Json, x: Json, i: nat)
    requires s.Obj? && i < |Elements(x)|
    requires forall k | k in s.m :: k == PREFIX_ITEMS || k == CONTAINS
    ensures i in Eval(lib, s, x).indices <==>
            i < |List(s, PREFIX_ITEMS)| || (Single(s, CONTAINS).Some? && Valid(lib, s.m[CONTAINS], Elements(x)[i]))
  {
    var v := ItemSeen(lib, s, x, i);
  }

  /** A schema for all other items leaves none unevaluated. */
  lemma {:induction false} RestItem(lib: Library, s: Json, x: Json, i: nat)
    requires s.Obj? && i < |Elements(x)| && (Single(s, ITEMS).Some? || Single(s, UNEVALUATED_ITEMS).Some?)
    ensures i in Eval(lib, s, x).indices
  {
    var v := ItemSeen(lib, s, x, i);
  }
}
