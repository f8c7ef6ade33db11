/** Tool schemas: the keywords mcp_hub.py walks and the removal of routing annotations. */
module Schema {
  import opened Wrappers
  import opened Json
  import opened Seqs

  datatype Kind = MapKind | SingleKind | ListKind | MarkKind | OtherKind

  function KindOf(keyword: Key): Kind {
    if keyword <= PROPERTIES then MapKind
    else if keyword <= UNEVALUATED_PROPERTIES then SingleKind
    else if keyword <= PREFIX_ITEMS then ListKind
    else if keyword == X_MCP_HEADER then MarkKind
    else OtherKind
  }

  // ---------- child schemas ----------

  /** The child schemas under a name-to-schema keyword. */
  function Table(s: Json, keyword: Key): (r: map<Key, Json>)
    requires s.Obj?
    ensures forall n :: n in r ==> r[n] < s
  {
    if keyword in s.m && s.m[keyword].Obj? then s.m[keyword].m else map[]
  }

  /** The child schema under a one-schema keyword. */
  function Single(s: Json, keyword: Key): (r: Option<Json>)
    requires s.Obj?
    ensures r.Some? ==> r.value < s
  {
    if keyword in s.m && IsSchema(s.m[keyword]) then Some(s.m[keyword]) else None
  }

  /** The child schemas under a list keyword. */
  function List(s: Json, keyword: Key): (r: seq<Json>)
    requires s.Obj?
    ensures forall i :: 0 <= i < |r| ==> r[i] < s
  {
    if keyword in s.m && s.m[keyword].Arr? then s.m[keyword].items else []
  }

  /** One step from a schema to a child that `_schema_children` yields. */
  datatype Step = ByName(keyword: Key, name: Key) | ByKeyword(keyword: Key) | ByIndex(keyword: Key, index: nat)

  function Child(s: Json, step: Step): (r: Option<Json>)
    ensures r.Some? ==> r.value < s && IsSchema(r.value)
  {
    if !s.Obj? then None
    else match step
      case ByName(k, n) =>
        if KindOf(k) == MapKind && n in Table(s, k) && IsSchema(Table(s, k)[n]) then Some(Table(s, k)[n]) else None
      case ByKeyword(k) => if KindOf(k) == SingleKind then Single(s, k) else None
      case ByIndex(k, i) =>
        if KindOf(k) == ListKind && i < |List(s, k)| && IsSchema(List(s, k)[i]) then Some(List(s, k)[i]) else None
  }

  // ---------- `_schema_children` ----------

  /** The child schemas of `v` under the keywords below `k` but `exclude`, each with its own step. */
  ghost predicate ChildrenBelow(v: Json, k: Key, exclude: set<Key>, children: seq<Json>, steps: seq<Step>) {
    && |children| == |steps| && Distinct(steps)
    && (forall i | 0 <= i < |steps| :: Child(v, steps[i]) == Some(children[i]))
    && forall step :: step in steps <==> Child(v, step).Some? && step.keyword < k && step.keyword !in exclude
  }

  ghost predicate ChildrenAt(v: Json, k: Key, children: seq<Json>, steps: seq<Step>) {
    && |children| == |steps| && Distinct(steps)
    && (forall i | 0 <= i < |steps| :: Child(v, steps[i]) == Some(children[i]))
    && forall step :: step in steps <==> Child(v, step).Some? && step.keyword == k
  }

  lemma ChildrenJoin(v: Json, k: Key, exclude: set<Key>, children: seq<Json>, steps: seq<Step>,
                     more: seq<Json>, moreSteps: seq<Step>)
    requires ChildrenBelow(v, k, exclude, children, steps) && ChildrenAt(v, k, more, moreSteps) && k !in exclude
    ensures ChildrenBelow(v, k + 1, exclude, children + more, steps + moreSteps)
  {
    forall i, j | 0 <= i < |steps| && 0 <= j < |moreSteps| ensures steps[i] != moreSteps[j] {
      assert steps[i] in steps && moreSteps[j] in moreSteps;
    }
  }

  /** `_schema_children`, each child with the step that leads to it. */
  method SchemaChildren(v: Json, exclude: set<Key>) returns (children: seq<Json>, steps: seq<Step>)
    requires v.Obj?
    ensures |children| == |steps| && Distinct(steps)
    ensures forall i | 0 <= i < |steps| :: Child(v, steps[i]) == Some(children[i])
    ensures forall step :: step in steps <==> Child(v, step).Some? && step.keyword !in exclude
  {
    children, steps := [], [];
    for k := 0 to X_MCP_HEADER
      invariant ChildrenBelow(v, k, exclude, children, steps)
    {
      if k !in exclude {
        var more, moreSteps := ChildrenUnder(v, k);
        ChildrenJoin(v, k, exclude, children, steps, more, moreSteps);
        children, steps := children + more, steps + moreSteps;
      }
    }
  }

  method ChildrenUnder(v: Json, k: Key) returns (children: seq<Json>, steps: seq<Step>)
    requires v.Obj?
    ensures ChildrenAt(v, k, children, steps)
  {
    children, steps := [], [];
    match KindOf(k) {
      case MapKind =>
        var table := Table(v, k);
        var names := table.Keys;
        while names != {}
          invariant names <= table.Keys && |children| == |steps| && Distinct(steps)
          invariant forall i | 0 <= i < |steps| :: Child(v, steps[i]) == Some(children[i])
          invariant forall step :: step in steps <==>
                      Child(v, step).Some? && step.keyword == k && step.name !in names
        {
          var n :| n in names;
          if IsSchema(table[n]) { children, steps := children + [table[n]], steps + [ByName(k, n)]; }
          names := names - {n};
        }
      case SingleKind =>
        if Single(v, k).Some? { children, steps := [Single(v, k).value], [ByKeyword(k)]; }
      case ListKind =>
        var list := List(v, k);
        for i := 0 to |list|
          invariant |children| == |steps| && Distinct(steps)
          invariant forall j | 0 <= j < |steps| :: Child(v, steps[j]) == Some(children[j])
          invariant forall step :: step in steps <==> Child(v, step).Some? && step.keyword == k && step.index < i
        {
          if IsSchema(list[i]) { children, steps := children + [list[i]], steps + [ByIndex(k, i)]; }
        }
      case _ =>
    }
  }

  // ---------- `_strip_mcp_header_annotations` ----------

  function Strip(v: Json): Json
    decreases v, 0
  {
    match v
    case Obj(m) => Obj(map k | k in m && k != X_MCP_HEADER :: StripAt(k, m[k]))
    case _ => v
  }

  function StripAt(keyword: Key, v: Json): Json
    decreases v, 1
  {
    match KindOf(keyword)
    case MapKind => if v.Obj? then Obj(map n | n in v.m :: Strip(v.m[n])) else v
    case SingleKind => if v.Obj? then Strip(v) else v
    case ListKind => if v.Arr? then Arr(seq(|v.items|, i requires 0 <= i < |v.items| => Strip(v.items[i]))) else v
    case _ => v
  }

  /** How stripping shows through each way of reading a schema. */
  lemma StripReads(s: Json)
    requires s.Obj?
    ensures Strip(s).Obj? && Strip(s).m.Keys == s.m.Keys - {X_MCP_HEADER}
    ensures forall k | KindOf(k) == OtherKind && k in s.m :: Strip(s).m[k] == s.m[k]
    ensures forall k | KindOf(k) == MapKind ::
              Table(Strip(s), k).Keys == Table(s, k).Keys
              && forall n | n in Table(s, k) :: Table(Strip(s), k)[n] == Strip(Table(s, k)[n])
    ensures forall k | KindOf(k) == SingleKind ::
              match Single(s, k) case None => Single(Strip(s), k) == None case Some(c) => Single(Strip(s), k) == Some(Strip(c))
    ensures forall k | KindOf(k) == ListKind ::
              |List(Strip(s), k)| == |List(s, k)|
              && forall i | 0 <= i < |List(s, k)| :: List(Strip(s), k)[i] == Strip(List(s, k)[i])
  {
  }

  /** Stripping twice is stripping once. */
  lemma {:induction false} StripIdempotent(v: Json)
    ensures Strip(Strip(v)) == Strip(v)
    decreases v, 0
  {
    if v.Obj? {
      forall k | k in v.m && k != X_MCP_HEADER
        ensures StripAt(k, StripAt(k, v.m[k])) == StripAt(k, v.m[k])
      {
        StripAtIdempotent(k, v.m[k]);
      }
      StripReads(v);
      assert Strip(Strip(v)).m == Strip(v).m;
    }
  }

  lemma {:induction false} StripAtIdempotent(keyword: Key, v: Json)
    ensures StripAt(keyword, StripAt(keyword, v)) == StripAt(keyword, v)
    decreases v, 1
  {
    match KindOf(keyword)
    case MapKind =>
      if v.Obj? {
        forall n | n in v.m ensures Strip(Strip(v.m[n])) == Strip(v.m[n]) { StripIdempotent(v.m[n]); }
        assert StripAt(keyword, StripAt(keyword, v)).m == StripAt(keyword, v).m;
      }
    case SingleKind => StripIdempotent(v);
    case ListKind =>
      if v.Arr? {
        forall i | 0 <= i < |v.items| ensures Strip(Strip(v.items[i])) == Strip(v.items[i]) { StripIdempotent(v.items[i]); }
        assert StripAt(keyword, StripAt(keyword, v)).items == StripAt(keyword, v).items;
      }
    case _ =>
  }

  /** Only annotations go: a property, a definition or a pattern that is merely named like the
      annotation stays, with its own schema stripped, and so does all data under other keywords. */
  lemma StripKeepsNames(s: Json, keyword: Key, name: Key)
    requires s.Obj? && KindOf(keyword) == MapKind && name in Table(s, keyword)
    ensures Strip(s).Obj? && name in Table(Strip(s), keyword)
    ensures Table(Strip(s), keyword)[name] == Strip(Table(s, keyword)[name])
  {
    StripReads(s);
  }

  // ---------- nodes ----------

  /** The addresses `_bound_schema` visits, relative to `v`. */
  ghost predicate Visits(v: Json, address: seq<Step>)
    decreases |address|
  {
    address == [] || (Child(v, address[0]).Some? && Visits(Child(v, address[0]).value, address[1..]))
  }

  ghost function At(v: Json, address: seq<Step>): Json
    requires Visits(v, address)
    decreases |address|
  {
    if address == [] then v else At(Child(v, address[0]).value, address[1..])
  }

  lemma StripChild(s: Json, step: Step)
    ensures match Child(s, step) case None => Child(Strip(s), step) == None case Some(c) => Child(Strip(s), step) == Some(Strip(c))
  {
    if s.Obj? {
      StripReads(s);
    }
  }

  /** The stripped schema has the same nodes, each one stripped, and none carries an annotation:
      the depth and the node count that `_bound_schema` limits do not change, and no walk over
      `_schema_children` can meet an annotation again. */
  lemma {:induction false} StripLeavesNoMark(v: Json, address: seq<Step>)
    ensures Visits(Strip(v), address) <==> Visits(v, address)
    ensures Visits(v, address) ==> At(Strip(v), address) == Strip(At(v, address))
    ensures Visits(v, address) ==> !(At(Strip(v), address).Obj? && X_MCP_HEADER in At(Strip(v), address).m)
    decreases |address|
  {
    if address == [] {
      if v.Obj? { StripReads(v); }
    } else {
      StripChild(v, address[0]);
      if Child(v, address[0]).Some? {
        StripLeavesNoMark(Child(v, address[0]).value, address[1..]);
      }
    }
  }

  // ---------- keywords, written out ----------

  /** Which keywords hold a table of schemas, one schema, or a list of schemas. */
  lemma Keywords(k: Key)
    ensures KindOf(k) == MapKind <==> k in [DEFS, DEFINITIONS, DEPENDENT_SCHEMAS, PATTERN_PROPERTIES, PROPERTIES]
    ensures KindOf(k) == SingleKind <==>
            k in [ADDITIONAL_PROPERTIES, CONTAINS, CONTENT_SCHEMA, ELSE, IF, ITEMS, NOT, PROPERTY_NAMES, THEN,
                  UNEVALUATED_ITEMS, UNEVALUATED_PROPERTIES]
    ensures KindOf(k) == ListKind <==> k in [ALL_OF, ANY_OF, ONE_OF, PREFIX_ITEMS]
    ensures KindOf(k) == MarkKind <==> k == X_MCP_HEADER
  {
  }

  /** The names are different names. */
  lemma KeysDiffer()
    ensures var all := [DEFS, DEFINITIONS, DEPENDENT_SCHEMAS, PATTERN_PROPERTIES, PROPERTIES, ADDITIONAL_PROPERTIES, CONTAINS,
                        CONTENT_SCHEMA, ELSE, IF, ITEMS, NOT, PROPERTY_NAMES, THEN, UNEVALUATED_ITEMS, UNEVALUATED_PROPERTIES,
                        ALL_OF, ANY_OF, ONE_OF, PREFIX_ITEMS, X_MCP_HEADER, TYPE, MIN_CONTAINS, MAX_CONTAINS];
            forall i, j | 0 <= i < j < |all| :: all[i] != all[j]
  {
  }
}
