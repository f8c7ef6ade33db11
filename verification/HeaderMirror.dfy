/** The annotation walk of mcp_hub.py and the request headers it drives. */
module HeaderMirror {
  import opened Wrappers
  import opened Utf8
  import opened Json
  import opened Schema

  datatype Declared = DeclaredString | DeclaredInteger | DeclaredBoolean

  datatype Annotation = Annotation(name: Text, path: seq<Key>, declared: Declared)

  /** ValueError, which callers turn into a rejected tool; and the TypeError of looking up an
      unhashable `type` in a set, which they do not expect. */
  datatype WalkError = InvalidAnnotation | UnhashableType

  const STRING: Text := [0x73, 0x74, 0x72, 0x69, 0x6E, 0x67]
  const INTEGER: Text := [0x69, 0x6E, 0x74, 0x65, 0x67, 0x65, 0x72]
  const BOOLEAN: Text := [0x62, 0x6F, 0x6F, 0x6C, 0x65, 0x61, 0x6E]

  /** tchar, section 5.6.2 of RFC 9110. */
  predicate TokenChar(c: Code) {
    0x30 <= c <= 0x39 || 0x41 <= c <= 0x5A || 0x61 <= c <= 0x7A
    || c in {0x21, 0x23, 0x24, 0x25, 0x26, 0x27, 0x2A, 0x2B, 0x2D, 0x2E, 0x5E, 0x5F, 0x60, 0x7C, 0x7E}
  }

  predicate Token(t: Text) { t != [] && forall i :: 0 <= i < |t| ==> TokenChar(t[i]) }

  /** `str.casefold()` of a token. */
  function Fold(t: Text): Text {
    seq(|t|, i requires 0 <= i < |t| => if 0x41 <= t[i] <= 0x5A then t[i] + 0x20 else t[i])
  }

  function DeclaredOf(v: Json): Option<Declared>
    requires v.Obj?
  {
    if TYPE !in v.m || !v.m[TYPE].Str? then None
    else if v.m[TYPE].text == STRING then Some(DeclaredString)
    else if v.m[TYPE].text == INTEGER then Some(DeclaredInteger)
    else if v.m[TYPE].text == BOOLEAN then Some(DeclaredBoolean)
    else None
  }

  predicate Marked(v: Json) { v.Obj? && X_MCP_HEADER in v.m }

  /** An annotation the walk may keep, the clash with names seen before aside. */
  predicate NodeOk(v: Json, path: seq<Key>, reachable: bool)
    requires Marked(v)
  {
    && reachable && path != []
    && v.m[X_MCP_HEADER].Str? && Token(v.m[X_MCP_HEADER].text)
    && DeclaredOf(v).Some?
  }

  /** `properties` is absent, null, or an object of schemas. */
  predicate PropertiesOk(v: Json)
    requires v.Obj?
  {
    PROPERTIES in v.m && !v.m[PROPERTIES].Null? ==>
      v.m[PROPERTIES].Obj? && forall n | n in v.m[PROPERTIES].m :: IsSchema(v.m[PROPERTIES].m[n])
  }

  ghost predicate Acceptable(v: Json, path: seq<Key>, reachable: bool)
    decreases v
  {
    v.Obj? ==>
      && (Marked(v) ==> NodeOk(v, path, reachable))
      && PropertiesOk(v)
      && (forall n | n in Table(v, PROPERTIES) :: Acceptable(Table(v, PROPERTIES)[n], path + [n], reachable))
      && (forall step | Child(v, step).Some? && step.keyword != PROPERTIES :: Acceptable(Child(v, step).value, path, false))
  }

  function Own(v: Json, path: seq<Key>): set<Annotation> {
    if Marked(v) && NodeOk(v, path, true) then {Annotation(v.m[X_MCP_HEADER].text, path, DeclaredOf(v).value)} else {}
  }

  /** The annotations that properties reach from `v`. */
  ghost function Annotations(v: Json, path: seq<Key>): set<Annotation>
    decreases v
  {
    Own(v, path) + if v.Obj? then Under(v, path, Table(v, PROPERTIES).Keys) else {}
  }

  ghost function Under(v: Json, path: seq<Key>, names: set<Key>): set<Annotation>
    requires v.Obj? && names <= Table(v, PROPERTIES).Keys
    decreases v, 0
  {
    set n, a | n in names && a in Annotations(Table(v, PROPERTIES)[n], path + [n]) :: a
  }

  function Folds(anns: set<Annotation>): set<Text> { set a | a in anns :: Fold(a.name) }

  /** No two annotations share a header name, upper and lower case taken as equal. */
  ghost predicate NamesDistinct(anns: set<Annotation>) {
    forall a, b | a in anns && b in anns && Fold(a.name) == Fold(b.name) :: a == b
  }

  /** What a walk from `v` accepts when the folded names in `seen` are taken. */
  ghost predicate Accepted(v: Json, path: seq<Key>, reachable: bool, seen: set<Text>) {
    Acceptable(v, path, reachable) && NamesDistinct(Annotations(v, path)) && Folds(Annotations(v, path)) !! seen
  }

  lemma {:induction false} PathsExtend(v: Json, path: seq<Key>, a: Annotation)
    requires a in Annotations(v, path)
    ensures |path| <= |a.path| && a.path[..|path|] == path
    decreases v
  {
    if a !in Own(v, path) {
      var n :| n in Table(v, PROPERTIES) && a in Annotations(Table(v, PROPERTIES)[n], path + [n]);
      PathsExtend(Table(v, PROPERTIES)[n], path + [n], a);
      assert (path + [n])[..|path|] == path;
      assert a.path[..|path|] == a.path[..|path| + 1][..|path|];
    }
  }

  /** Annotations below different properties have different paths, and none has the node's own. */
  lemma SiblingsApart(v: Json, path: seq<Key>, n: Key, names: set<Key>, a: Annotation)
    requires v.Obj? && names <= Table(v, PROPERTIES).Keys && n in Table(v, PROPERTIES) && n !in names
    requires a in Annotations(Table(v, PROPERTIES)[n], path + [n])
    ensures a !in Own(v, path) && a !in Under(v, path, names)
  {
    PathsExtend(Table(v, PROPERTIES)[n], path + [n], a);
    assert a.path[..|path| + 1][|path|] == n;
    forall m | m in names ensures a !in Annotations(Table(v, PROPERTIES)[m], path + [m]) {
      if a in Annotations(Table(v, PROPERTIES)[m], path + [m]) {
        PathsExtend(Table(v, PROPERTIES)[m], path + [m], a);
      }
    }
  }

  /** An annotation that is not the node's own stands below the property that its path names next. */
  lemma Below(v: Json, path: seq<Key>, a: Annotation) returns (n: Key)
    requires a in Annotations(v, path) && a !in Own(v, path)
    ensures v.Obj? && n in Table(v, PROPERTIES) && a in Annotations(Table(v, PROPERTIES)[n], path + [n])
    ensures |path| < |a.path| && a.path[|path|] == n
  {
    n :| n in Table(v, PROPERTIES) && a in Annotations(Table(v, PROPERTIES)[n], path + [n]);
    PathsExtend(Table(v, PROPERTIES)[n], path + [n], a);
    assert a.path[..|path| + 1][|path|] == n;
  }

  /** Two annotations on one path are one annotation. */
  lemma {:induction false} PathsDistinct(v: Json, path: seq<Key>, a: Annotation, b: Annotation)
    requires a in Annotations(v, path) && b in Annotations(v, path) && a.path == b.path
    ensures a == b
    decreases v
  {
    if a !in Own(v, path) {
      var m := Below(v, path, a);
      if b !in Own(v, path) {
        var n := Below(v, path, b);
        PathsDistinct(Table(v, PROPERTIES)[m], path + [m], a, b);
      }
    } else if b !in Own(v, path) {
      var n := Below(v, path, b);
    }
  }

  /** Where annotations are not allowed, an acceptable schema has none. */
  lemma {:induction false} UnreachableHasNone(v: Json, path: seq<Key>)
    requires Acceptable(v, path, false)
    ensures Annotations(v, path) == {}
    decreases v
  {
    if v.Obj? {
      forall n | n in Table(v, PROPERTIES) ensures Annotations(Table(v, PROPERTIES)[n], path + [n]) == {} {
        UnreachableHasNone(Table(v, PROPERTIES)[n], path + [n]);
      }
    }
  }

  /** The walk finds nothing in a stripped schema. */
  lemma {:induction false} StrippedHasNone(v: Json, path: seq<Key>)
    ensures Annotations(Strip(v), path) == {}
    decreases v
  {
    if v.Obj? {
      StripReads(v);
      forall n | n in Table(v, PROPERTIES) ensures Annotations(Strip(Table(v, PROPERTIES)[n]), path + [n]) == {} {
        StrippedHasNone(Table(v, PROPERTIES)[n], path + [n]);
      }
    }
  }

  /** What the walk accepts it still accepts once stripped, wherever it meets it. */
  lemma {:induction false} StrippedStaysAcceptable(v: Json, path: seq<Key>, reachable: bool, path': seq<Key>, reachable': bool)
    requires Acceptable(v, path, reachable)
    ensures Acceptable(Strip(v), path', reachable')
    decreases v
  {
    if v.Obj? {
      StripReads(v);
      var t := Strip(v);
      assert PropertiesOk(t);
      forall n | n in Table(t, PROPERTIES) ensures Acceptable(Table(t, PROPERTIES)[n], path' + [n], reachable') {
        StrippedStaysAcceptable(Table(v, PROPERTIES)[n], path + [n], reachable, path' + [n], reachable');
      }
      forall step | Child(t, step).Some? && step.keyword != PROPERTIES
        ensures Acceptable(Child(t, step).value, path', false)
      {
        StripChild(v, step);
        StrippedStaysAcceptable(Child(v, step).value, path, false, path', false);
      }
    }
  }

  // ---------- the walk as a sum of its parts ----------

  /** What the property loop has found while `names` are still to be visited. */
  ghost function Found(v: Json, path: seq<Key>, names: set<Key>): set<Annotation>
    requires v.Obj? && names <= Table(v, PROPERTIES).Keys
  {
    Own(v, path) + Under(v, path, Table(v, PROPERTIES).Keys - names)
  }

  /** The properties outside `names` are fine, and so is what they and the node itself add. */
  ghost predicate Done(v: Json, path: seq<Key>, reachable: bool, names: set<Key>, taken: set<Text>)
    requires v.Obj? && names <= Table(v, PROPERTIES).Keys
  {
    && (forall n | n in Table(v, PROPERTIES) && n !in names ::
          IsSchema(Table(v, PROPERTIES)[n]) && Acceptable(Table(v, PROPERTIES)[n], path + [n], reachable))
    && NamesDistinct(Found(v, path, names)) && Folds(Found(v, path, names)) !! taken
  }

  /** The child schemas outside `properties` hold no annotation and no malformed `properties`. */
  ghost predicate OthersOk(v: Json, path: seq<Key>)
    requires v.Obj?
  {
    forall step | Child(v, step).Some? && step.keyword != PROPERTIES :: Acceptable(Child(v, step).value, path, false)
  }

  lemma AcceptedParts(v: Json, path: seq<Key>, reachable: bool, taken: set<Text>)
    requires v.Obj?
    ensures Accepted(v, path, reachable, taken) <==>
            && (Marked(v) ==> NodeOk(v, path, reachable))
            && PropertiesOk(v) && Done(v, path, reachable, {}, taken) && OthersOk(v, path)
    ensures Found(v, path, {}) == Annotations(v, path)
    ensures Found(v, path, Table(v, PROPERTIES).Keys) == Own(v, path)
  {
    assert Table(v, PROPERTIES).Keys - {} == Table(v, PROPERTIES).Keys;
    assert Under(v, path, Table(v, PROPERTIES).Keys - Table(v, PROPERTIES).Keys) == {};
  }

  lemma NextProperty(v: Json, path: seq<Key>, n: Key, names: set<Key>)
    requires v.Obj? && names <= Table(v, PROPERTIES).Keys && n in names
    ensures Found(v, path, names - {n}) == Found(v, path, names) + Annotations(Table(v, PROPERTIES)[n], path + [n])
    ensures Found(v, path, names) !! Annotations(Table(v, PROPERTIES)[n], path + [n])
  {
    var rest := Table(v, PROPERTIES).Keys - names;
    assert Table(v, PROPERTIES).Keys - (names - {n}) == rest + {n};
    forall a | a in Annotations(Table(v, PROPERTIES)[n], path + [n]) ensures a !in Found(v, path, names) {
      SiblingsApart(v, path, n, rest, a);
    }
    assert Under(v, path, rest + {n}) == Under(v, path, rest) + Annotations(Table(v, PROPERTIES)[n], path + [n]);
  }

  lemma FoundGrows(v: Json, path: seq<Key>, names: set<Key>)
    requires v.Obj? && names <= Table(v, PROPERTIES).Keys
    ensures Found(v, path, names) <= Found(v, path, {})
  {
  }

  /** Disjoint additions with distinct names stay distinct. */
  lemma DistinctSum(found: set<Annotation>, more: set<Annotation>, taken: set<Text>)
    requires found !! more
    ensures Folds(found + more) == Folds(found) + Folds(more)
    ensures NamesDistinct(found + more) && Folds(found + more) !! taken <==>
            && NamesDistinct(found) && Folds(found) !! taken
            && NamesDistinct(more) && Folds(more) !! taken + Folds(found)
  {
    assert Folds(found + more) == Folds(found) + Folds(more);
    if NamesDistinct(found + more) {
      forall f | f in Folds(more) ensures f !in Folds(found) {
        var b :| b in more && Fold(b.name) == f;
        assert forall a | a in found :: Fold(a.name) == f ==> a == b;
      }
    }
    if Folds(more) !! taken + Folds(found) {
      forall a, b | a in found && b in more ensures Fold(a.name) != Fold(b.name) {
        assert Fold(a.name) in Folds(found) && Fold(b.name) in Folds(more);
      }
    }
  }

  /** One turn of the property loop. */
  lemma PropertyStep(v: Json, path: seq<Key>, reachable: bool, n: Key, names: set<Key>, taken: set<Text>)
    requires v.Obj? && names <= Table(v, PROPERTIES).Keys && n in names
    requires Done(v, path, reachable, names, taken) && IsSchema(Table(v, PROPERTIES)[n])
    ensures Done(v, path, reachable, names - {n}, taken) <==>
            Accepted(Table(v, PROPERTIES)[n], path + [n], reachable, taken + Folds(Found(v, path, names)))
  {
    NextProperty(v, path, n, names);
    DistinctSum(Found(v, path, names), Annotations(Table(v, PROPERTIES)[n], path + [n]), taken);
  }

  /** A bad start stays bad. */
  lemma DoneShrinks(v: Json, path: seq<Key>, reachable: bool, names: set<Key>, taken: set<Text>)
    requires v.Obj? && names <= Table(v, PROPERTIES).Keys && Done(v, path, reachable, {}, taken)
    ensures Done(v, path, reachable, names, taken)
  {
    FoundGrows(v, path, names);
  }

  // ---------- unhashable types ----------

  /** An annotated node whose `type` cannot be looked up in a set. */
  predicate Unhashable(v: Json) { Marked(v) && TYPE in v.m && (v.m[TYPE].Arr? || v.m[TYPE].Obj?) }

  /** The schema with `string` in place of every unhashable `type` of an annotated node. */
  function Typed(v: Json): Json
    decreases v, 0
  {
    match v
    case Obj(m) => Obj(map k | k in m :: if k == TYPE && Unhashable(v) then Str(STRING) else TypedAt(k, m[k]))
    case _ => v
  }

  function TypedAt(keyword: Key, v: Json): Json
    decreases v, 1
  {
    match KindOf(keyword)
    case MapKind => if v.Obj? then Obj(map n | n in v.m :: Typed(v.m[n])) else v
    case SingleKind => if v.Obj? then Typed(v) else v
    case ListKind => if v.Arr? then Arr(seq(|v.items|, i requires 0 <= i < |v.items| => Typed(v.items[i]))) else v
    case _ => v
  }

  lemma TypedReads(v: Json)
    requires v.Obj?
    ensures Typed(v).Obj? && Typed(v).m.Keys == v.m.Keys
    ensures X_MCP_HEADER in v.m ==> Typed(v).m[X_MCP_HEADER] == v.m[X_MCP_HEADER]
    ensures TYPE in v.m ==> Typed(v).m[TYPE] == if Unhashable(v) then Str(STRING) else v.m[TYPE]
    ensures PROPERTIES in v.m ==> (Typed(v).m[PROPERTIES].Null? <==> v.m[PROPERTIES].Null?)
    ensures PROPERTIES in v.m ==> (Typed(v).m[PROPERTIES].Obj? <==> v.m[PROPERTIES].Obj?)
  {
  }

  lemma TypedChildren(v: Json)
    requires v.Obj?
    ensures forall k | KindOf(k) == MapKind ::
              Table(Typed(v), k).Keys == Table(v, k).Keys
              && forall n | n in Table(v, k) :: Table(Typed(v), k)[n] == Typed(Table(v, k)[n])
    ensures forall k | KindOf(k) == SingleKind ::
              match Single(v, k) case None => Single(Typed(v), k) == None case Some(c) => Single(Typed(v), k) == Some(Typed(c))
    ensures forall k | KindOf(k) == ListKind ::
              |List(Typed(v), k)| == |List(v, k)|
              && forall i | 0 <= i < |List(v, k)| :: List(Typed(v), k)[i] == Typed(List(v, k)[i])
  {
  }

  lemma TypedChild(v: Json, step: Step)
    ensures match Child(v, step) case None => Child(Typed(v), step) == None case Some(c) => Child(Typed(v), step) == Some(Typed(c))
  {
    if v.Obj? { TypedChildren(v); }
  }

  /** The lookup of this node's `type` raises: everything checked before it is fine. */
  predicate RaisesHere(v: Json, path: seq<Key>, reachable: bool, taken: set<Text>) {
    && Unhashable(v) && reachable && path != []
    && v.m[X_MCP_HEADER].Str? && Token(v.m[X_MCP_HEADER].text) && Fold(v.m[X_MCP_HEADER].text) !in taken
  }

  lemma OwnTyped(v: Json, path: seq<Key>, reachable: bool, taken: set<Text>)
    requires v.Obj?
    ensures OwnOk(v, path, reachable, taken) ==> Own(Typed(v), path) == Own(v, path)
    ensures OwnOk(Typed(v), path, reachable, taken) ==>
              OwnOk(v, path, reachable, taken) || RaisesHere(v, path, reachable, taken)
  {
    TypedReads(v);
  }

  lemma RaisesTyped(v: Json, path: seq<Key>, reachable: bool, taken: set<Text>)
    requires RaisesHere(v, path, reachable, taken)
    ensures Typed(v) != v
  {
    TypedReads(v);
    assert Typed(v).m[TYPE] == Str(STRING);
  }

  /** What the walk has found so far does not depend on unhashable types. */
  lemma FoundTyped(v: Json, path: seq<Key>, reachable: bool, names: set<Key>, taken: set<Text>)
    requires v.Obj? && names <= Table(v, PROPERTIES).Keys && OwnOk(v, path, reachable, taken)
    requires Done(v, path, reachable, names, taken)
    ensures Typed(v).Obj? && names <= Table(Typed(v), PROPERTIES).Keys
    ensures Found(Typed(v), path, names) == Found(v, path, names)
  {
    TypedReads(v);
    TypedChildren(v);
    OwnTyped(v, path, reachable, taken);
    forall n | n in Table(v, PROPERTIES) && n !in names
      ensures Table(Typed(v), PROPERTIES)[n] == Table(v, PROPERTIES)[n]
    {
      AcceptableTyped(Table(v, PROPERTIES)[n], path + [n], reachable);
    }
    assert Under(Typed(v), path, Table(v, PROPERTIES).Keys - names) == Under(v, path, Table(v, PROPERTIES).Keys - names);
  }

  /** A property that fails for another reason than an unhashable type fails the whole node. */
  lemma PropertyFails(v: Json, path: seq<Key>, reachable: bool, n: Key, names: set<Key>, taken: set<Text>)
    requires v.Obj? && names <= Table(v, PROPERTIES).Keys && OwnOk(v, path, reachable, taken)
    requires Done(v, path, reachable, names, taken) && n in names && IsSchema(Table(v, PROPERTIES)[n])
    requires !Accepted(Typed(Table(v, PROPERTIES)[n]), path + [n], reachable, taken + Folds(Found(v, path, names)))
    ensures !Accepted(Typed(v), path, reachable, taken)
  {
    FoundTyped(v, path, reachable, names, taken);
    TypedChildren(v);
    var t := Typed(v);
    if Accepted(t, path, reachable, taken) {
      AcceptedParts(t, path, reachable, taken);
      DoneShrinks(t, path, reachable, names, taken);
      DoneShrinks(t, path, reachable, names - {n}, taken);
      PropertyStep(t, path, reachable, n, names, taken);
    }
  }

  lemma MalformedTyped(v: Json, path: seq<Key>, reachable: bool, taken: set<Text>)
    requires v.Obj? && !PropertiesOk(v)
    ensures !Accepted(Typed(v), path, reachable, taken)
  {
    TypedReads(v);
    TypedChildren(v);
    if PROPERTIES in v.m && v.m[PROPERTIES].Obj? {
      var n :| n in v.m[PROPERTIES].m && !IsSchema(v.m[PROPERTIES].m[n]);
      assert Table(Typed(v), PROPERTIES)[n] == Typed(Table(v, PROPERTIES)[n]);
    }
    assert !PropertiesOk(Typed(v));
  }

  /** A child that is changed by typing changes the node. */
  lemma ChildTyped(v: Json, step: Step, c: Json)
    requires Child(v, step) == Some(c) && Typed(c) != c
    ensures Typed(v) != v
  {
    TypedChild(v, step);
  }

  /** An acceptable schema has no unhashable type at an annotated node, wherever the walks come. */
  lemma {:induction false} AcceptableTyped(v: Json, path: seq<Key>, reachable: bool)
    requires Acceptable(v, path, reachable)
    ensures Typed(v) == v
    decreases v, 0
  {
    if v.Obj? {
      forall k | k in v.m ensures Typed(v).m[k] == v.m[k] {
        if k != TYPE { AcceptableTypedAt(v, path, reachable, k); }
      }
      assert Typed(v).m == v.m;
    }
  }

  lemma {:induction false} AcceptableTypedAt(v: Json, path: seq<Key>, reachable: bool, k: Key)
    requires v.Obj? && k in v.m && Acceptable(v, path, reachable)
    ensures TypedAt(k, v.m[k]) == v.m[k]
    decreases v.m[k], 1
  {
    var w := v.m[k];
    match KindOf(k)
    case MapKind =>
      if w.Obj? {
        forall n | n in w.m ensures Typed(w.m[n]) == w.m[n] {
          if k == PROPERTIES {
            assert Table(v, PROPERTIES)[n] == w.m[n];
            AcceptableTyped(w.m[n], path + [n], reachable);
          } else if IsSchema(w.m[n]) {
            assert Child(v, ByName(k, n)) == Some(w.m[n]);
            AcceptableTyped(w.m[n], path, false);
          }
        }
        assert TypedAt(k, w).m == w.m;
      }
    case SingleKind =>
      if w.Obj? {
        assert Child(v, ByKeyword(k)) == Some(w);
        AcceptableTyped(w, path, false);
      }
    case ListKind =>
      if w.Arr? {
        forall i | 0 <= i < |w.items| ensures Typed(w.items[i]) == w.items[i] {
          if IsSchema(w.items[i]) {
            assert Child(v, ByIndex(k, i)) == Some(w.items[i]);
            AcceptableTyped(w.items[i], path, false);
          }
        }
        assert TypedAt(k, w).items == w.items;
      }
    case _ =>
  }

  // ---------- the walk ----------

  /** `after` is `before` with `more` appended, each annotation once. */
  ghost predicate Appended(before: seq<Annotation>, after: seq<Annotation>, more: set<Annotation>) {
    && |after| == |before| + |more| && after[..|before|] == before
    && forall a :: a in after[|before|..] <==> a in more
  }

  lemma AppendedTwice(s: seq<Annotation>, t: seq<Annotation>, u: seq<Annotation>, m: set<Annotation>, n: set<Annotation>)
    requires Appended(s, t, m) && Appended(t, u, n) && m !! n
    ensures Appended(s, u, m + n)
  {
    assert u[..|s|] == u[..|t|][..|s|];
    assert u[|s|..] == t[|s|..] + u[|t|..];
    assert |m + n| == |m| + |n|;
  }

  lemma PropertyAppended(v: Json, path: seq<Key>, n: Key, names: set<Key>,
                         before: seq<Annotation>, sofar: seq<Annotation>, after: seq<Annotation>)
    requires v.Obj? && names <= Table(v, PROPERTIES).Keys && n in names
    requires Appended(before, sofar, Found(v, path, names))
    requires Appended(sofar, after, Annotations(Table(v, PROPERTIES)[n], path + [n]))
    ensures Appended(before, after, Found(v, path, names - {n}))
    ensures Folds(Found(v, path, names - {n})) ==
            Folds(Found(v, path, names)) + Folds(Annotations(Table(v, PROPERTIES)[n], path + [n]))
  {
    NextProperty(v, path, n, names);
    AppendedTwice(before, sofar, after, Found(v, path, names), Annotations(Table(v, PROPERTIES)[n], path + [n]));
  }

  /** The accumulator of `_mcp_header_annotations`: the list and the set its closure mutates. */
  class AnnotationWalk {
    var annotations: seq<Annotation>
    var seen: set<Text>

    constructor ()
      ensures annotations == [] && seen == {}
    {
      annotations, seen := [], {};
    }

    /** The head of `walk`: the annotation of this very node. */
    method VisitNode(v: Json, path: seq<Key>, reachable: bool) returns (error: Option<WalkError>)
      requires Marked(v)
      modifies this
      ensures error.None? <==> NodeOk(v, path, reachable) && Fold(v.m[X_MCP_HEADER].text) !in old(seen)
      ensures error.None? ==> Appended(old(annotations), annotations, Own(v, path)) && seen == old(seen) + Folds(Own(v, path))
      ensures error == Some(UnhashableType) <==> RaisesHere(v, path, reachable, old(seen))
    {
      var value := v.m[X_MCP_HEADER];
      if !reachable || path == [] || !value.Str? || !Token(value.text) || Fold(value.text) in seen {
        return Some(InvalidAnnotation);
      }
      if TYPE in v.m && (v.m[TYPE].Arr? || v.m[TYPE].Obj?) {
        return Some(UnhashableType);
      }
      var declared := DeclaredOf(v);
      if declared.None? { return Some(InvalidAnnotation); }
      seen := seen + {Fold(value.text)};
      annotations := annotations + [Annotation(value.text, path, declared.value)];
      error := None;
      assert Own(v, path) == {Annotation(value.text, path, declared.value)};
      assert annotations[|old(annotations)|..] == [Annotation(value.text, path, declared.value)];
    }

    /** `walk`.  Dictionaries and keyword sets are visited in an arbitrary order, so that with several
        defects any may be met first; the TypeError comes only when there is an unhashable type, and
        always when the schema would be accepted but for such types. */
    method Walk(v: Json, path: seq<Key>, reachable: bool) returns (error: Option<WalkError>)
      modifies this
      ensures error.None? <==> Accepted(v, path, reachable, old(seen))
      ensures error.None? ==> Appended(old(annotations), annotations, Annotations(v, path))
      ensures error.None? ==> seen == old(seen) + Folds(Annotations(v, path))
      ensures error.Some? ==> Explains(error.value, v, path, reachable, old(seen))
      decreases v, 3
    {
      if !v.Obj? {
        assert Annotations(v, path) == {};
        return None;
      }
      error := VisitOwn(v, path, reachable);
      if error.None? {
        AcceptedParts(v, path, reachable, old(seen));
        error := WalkBelow(v, path, reachable, old(annotations), old(seen));
      }
    }

    /** All children of a node whose own annotation is fine. */
    method WalkBelow(v: Json, path: seq<Key>, reachable: bool, ghost before: seq<Annotation>, ghost taken: set<Text>)
      returns (error: Option<WalkError>)
      requires v.Obj? && OwnOk(v, path, reachable, taken)
      requires Appended(before, annotations, Own(v, path)) && seen == taken + Folds(Own(v, path))
      modifies this
      ensures error.None? <==> PropertiesOk(v) && Done(v, path, reachable, {}, taken) && OthersOk(v, path)
      ensures error.None? ==> Appended(before, annotations, Found(v, path, {})) && seen == taken + Folds(Found(v, path, {}))
      ensures error.Some? ==> Explains(error.value, v, path, reachable, taken)
      decreases v, 2
    {
      OwnIsDone(v, path, reachable, taken);
      error := VisitProperties(v, path, reachable, before, taken);
      if error.None? { error := WalkOthers(v, path, reachable, taken); }
    }

    /** The annotation of this node, if it has one. */
    method VisitOwn(v: Json, path: seq<Key>, reachable: bool) returns (error: Option<WalkError>)
      requires v.Obj?
      modifies this
      ensures error.None? <==> OwnOk(v, path, reachable, old(seen))
      ensures error.None? ==> Appended(old(annotations), annotations, Own(v, path)) && seen == old(seen) + Folds(Own(v, path))
      ensures error.Some? ==>
                !Accepted(v, path, reachable, old(seen)) && Explains(error.value, v, path, reachable, old(seen))
    {
      if X_MCP_HEADER in v.m {
        error := VisitNode(v, path, reachable);
        if error.Some? {
          OwnFails(v, path, reachable, old(seen));
          OwnFailsTyped(v, path, reachable, old(seen), error.value);
        }
      } else {
        assert Own(v, path) == {};
        error := None;
      }
    }

    /** The `properties` of this node, if it has any. */
    method VisitProperties(v: Json, path: seq<Key>, reachable: bool, ghost before: seq<Annotation>, ghost taken: set<Text>)
      returns (error: Option<WalkError>)
      requires v.Obj? && Done(v, path, reachable, Table(v, PROPERTIES).Keys, taken)
      requires OwnOk(v, path, reachable, taken)
      requires Found(v, path, Table(v, PROPERTIES).Keys) == Own(v, path)
      requires Appended(before, annotations, Own(v, path)) && seen == taken + Folds(Own(v, path))
      modifies this
      ensures error.None? <==> PropertiesOk(v) && Done(v, path, reachable, {}, taken)
      ensures error.None? ==> Appended(before, annotations, Found(v, path, {})) && seen == taken + Folds(Found(v, path, {}))
      ensures error.Some? ==> Explains(error.value, v, path, reachable, taken)
      decreases v, 1, 2
    {
      if PROPERTIES in v.m && !v.m[PROPERTIES].Null? {
        if !v.m[PROPERTIES].Obj? {
          MalformedTyped(v, path, reachable, taken);
          return Some(InvalidAnnotation);
        }
        error := WalkProperties(v, path, reachable, before, taken);
      } else {
        assert Table(v, PROPERTIES).Keys == {};
        error := None;
      }
    }

    /** The loop over `properties`. */
    method WalkProperties(v: Json, path: seq<Key>, reachable: bool, ghost before: seq<Annotation>, ghost taken: set<Text>)
      returns (error: Option<WalkError>)
      requires v.Obj? && PROPERTIES in v.m && v.m[PROPERTIES].Obj?
      requires Done(v, path, reachable, Table(v, PROPERTIES).Keys, taken)
      requires OwnOk(v, path, reachable, taken)
      requires Found(v, path, Table(v, PROPERTIES).Keys) == Own(v, path)
      requires Appended(before, annotations, Own(v, path)) && seen == taken + Folds(Own(v, path))
      modifies this
      ensures error.None? <==> PropertiesOk(v) && Done(v, path, reachable, {}, taken)
      ensures error.None? ==> Appended(before, annotations, Found(v, path, {})) && seen == taken + Folds(Found(v, path, {}))
      ensures error.Some? ==> Explains(error.value, v, path, reachable, taken)
      decreases v, 1, 1
    {
      var table := Table(v, PROPERTIES);
      var names := table.Keys;
      while names != {}
        invariant names <= table.Keys
        invariant Done(v, path, reachable, names, taken)
        invariant Appended(before, annotations, Found(v, path, names)) && seen == taken + Folds(Found(v, path, names))
      {
        var n :| n in names;
        error := WalkProperty(v, path, reachable, n, names, before, taken);
        if error.Some? {
          if Done(v, path, reachable, {}, taken) { DoneShrinks(v, path, reachable, names - {n}, taken); }
          return;
        }
        names := names - {n};
      }
      error := None;
    }

    /** One property. */
    method WalkProperty(v: Json, path: seq<Key>, reachable: bool, n: Key, ghost names: set<Key>,
                        ghost before: seq<Annotation>, ghost taken: set<Text>)
      returns (error: Option<WalkError>)
      requires v.Obj? && names <= Table(v, PROPERTIES).Keys && n in names && OwnOk(v, path, reachable, taken)
      requires PROPERTIES in v.m && v.m[PROPERTIES].Obj? && Done(v, path, reachable, names, taken)
      requires Appended(before, annotations, Found(v, path, names)) && seen == taken + Folds(Found(v, path, names))
      modifies this
      ensures error.None? ==> IsSchema(Table(v, PROPERTIES)[n]) && Done(v, path, reachable, names - {n}, taken)
      ensures error.None? ==> Appended(before, annotations, Found(v, path, names - {n}))
      ensures error.None? ==> seen == taken + Folds(Found(v, path, names - {n}))
      ensures error.Some? ==> !PropertiesOk(v) || !Done(v, path, reachable, names - {n}, taken)
      ensures error.Some? ==> Explains(error.value, v, path, reachable, taken)
      decreases v, 1, 0
    {
      var child := Table(v, PROPERTIES)[n];
      if !IsSchema(child) {
        MalformedTyped(v, path, reachable, taken);
        return Some(InvalidAnnotation);
      }
      ghost var sofar := annotations;
      error := Walk(child, path + [n], reachable);
      if error.Some? {
        PropertyRefused(v, path, reachable, n, names, taken, error.value);
      } else {
        PropertyAccepted(v, path, reachable, n, names, taken, before, sofar, annotations);
      }
    }

    /** The loop over the other child schemas. */
    method WalkOthers(v: Json, path: seq<Key>, ghost reachable: bool, ghost taken: set<Text>)
      returns (error: Option<WalkError>)
      requires v.Obj?
      modifies this
      ensures error.None? <==> OthersOk(v, path)
      ensures error.None? ==> annotations == old(annotations) && seen == old(seen)
      ensures error.Some? ==> Explains(error.value, v, path, reachable, taken)
      decreases v, 1
    {
      var children, steps := SchemaChildren(v, {PROPERTIES});
      for i := 0 to |children|
        invariant forall j | 0 <= j < i :: Acceptable(children[j], path, false)
        invariant annotations == old(annotations) && seen == old(seen)
      {
        var c := children[i];
        assert steps[i] in steps && Child(v, steps[i]) == Some(c);
        if Acceptable(c, path, false) { UnreachableHasNone(c, path); }
        error := Walk(c, path, false);
        if error.Some? {
          OtherFails(v, path, reachable, steps[i], c, old(seen), taken, error.value);
          return;
        }
        assert annotations == annotations[..|old(annotations)|];
      }
      error := None;
      forall step | Child(v, step).Some? && step.keyword != PROPERTIES
        ensures Acceptable(Child(v, step).value, path, false)
      {
        assert step in steps;
      }
    }
  }

  /** What an error says: there is an unhashable type, or there is another defect. */
  ghost predicate Explains(error: WalkError, v: Json, path: seq<Key>, reachable: bool, taken: set<Text>) {
    if error == UnhashableType then Typed(v) != v else !Accepted(Typed(v), path, reachable, taken)
  }

  /** Nothing is wrong with the annotations of `v` but unhashable types. */
  ghost predicate OnlyUnhashable(v: Json) { Typed(v) != v && Accepted(Typed(v), [], true, {}) }

  lemma OwnFailsTyped(v: Json, path: seq<Key>, reachable: bool, taken: set<Text>, error: WalkError)
    requires v.Obj? && !OwnOk(v, path, reachable, taken)
    requires error == UnhashableType <==> RaisesHere(v, path, reachable, taken)
    ensures Explains(error, v, path, reachable, taken)
  {
    if error == UnhashableType {
      RaisesTyped(v, path, reachable, taken);
    } else {
      TypedReads(v);
      OwnTyped(v, path, reachable, taken);
      OwnFails(Typed(v), path, reachable, taken);
    }
  }

  lemma PropertyAccepted(v: Json, path: seq<Key>, reachable: bool, n: Key, names: set<Key>, taken: set<Text>,
                         before: seq<Annotation>, sofar: seq<Annotation>, after: seq<Annotation>)
    requires v.Obj? && names <= Table(v, PROPERTIES).Keys && n in names
    requires Done(v, path, reachable, names, taken) && IsSchema(Table(v, PROPERTIES)[n])
    requires Accepted(Table(v, PROPERTIES)[n], path + [n], reachable, taken + Folds(Found(v, path, names)))
    requires Appended(before, sofar, Found(v, path, names))
    requires Appended(sofar, after, Annotations(Table(v, PROPERTIES)[n], path + [n]))
    ensures Done(v, path, reachable, names - {n}, taken) && Appended(before, after, Found(v, path, names - {n}))
    ensures taken + Folds(Found(v, path, names - {n}))
            == taken + Folds(Found(v, path, names)) + Folds(Annotations(Table(v, PROPERTIES)[n], path + [n]))
  {
    PropertyStep(v, path, reachable, n, names, taken);
    PropertyAppended(v, path, n, names, before, sofar, after);
  }

  lemma PropertyRefused(v: Json, path: seq<Key>, reachable: bool, n: Key, names: set<Key>, taken: set<Text>, error: WalkError)
    requires v.Obj? && names <= Table(v, PROPERTIES).Keys && OwnOk(v, path, reachable, taken)
    requires Done(v, path, reachable, names, taken) && n in names && IsSchema(Table(v, PROPERTIES)[n])
    requires !Accepted(Table(v, PROPERTIES)[n], path + [n], reachable, taken + Folds(Found(v, path, names)))
    requires Explains(error, Table(v, PROPERTIES)[n], path + [n], reachable, taken + Folds(Found(v, path, names)))
    ensures !Done(v, path, reachable, names - {n}, taken) && Explains(error, v, path, reachable, taken)
  {
    PropertyStep(v, path, reachable, n, names, taken);
    PropertyFailsTyped(v, path, reachable, n, names, taken, error);
  }

  lemma PropertyFailsTyped(v: Json, path: seq<Key>, reachable: bool, n: Key, names: set<Key>, taken: set<Text>, error: WalkError)
    requires v.Obj? && names <= Table(v, PROPERTIES).Keys && OwnOk(v, path, reachable, taken)
    requires Done(v, path, reachable, names, taken) && n in names && IsSchema(Table(v, PROPERTIES)[n])
    requires Explains(error, Table(v, PROPERTIES)[n], path + [n], reachable, taken + Folds(Found(v, path, names)))
    ensures Explains(error, v, path, reachable, taken)
  {
    if error == UnhashableType {
      ChildTyped(v, ByName(PROPERTIES, n), Table(v, PROPERTIES)[n]);
    } else {
      PropertyFails(v, path, reachable, n, names, taken);
    }
  }

  lemma OtherFails(v: Json, path: seq<Key>, reachable: bool, step: Step, c: Json, seen: set<Text>, taken: set<Text>,
                   error: WalkError)
    requires Child(v, step) == Some(c) && step.keyword != PROPERTIES && Explains(error, c, path, false, seen)
    ensures Explains(error, v, path, reachable, taken)
  {
    if error == UnhashableType {
      ChildTyped(v, step, c);
    } else {
      TypedReads(v);
      TypedChild(v, step);
      if Acceptable(Typed(c), path, false) { UnreachableHasNone(Typed(c), path); }
      AcceptedParts(Typed(v), path, reachable, taken);
    }
  }

  /** The annotation of `v` itself, if there is one, is fine. */
  predicate OwnOk(v: Json, path: seq<Key>, reachable: bool, taken: set<Text>) {
    Marked(v) ==> NodeOk(v, path, reachable) && Fold(v.m[X_MCP_HEADER].text) !in taken
  }

  lemma OwnFails(v: Json, path: seq<Key>, reachable: bool, taken: set<Text>)
    requires v.Obj? && !OwnOk(v, path, reachable, taken)
    ensures !Accepted(v, path, reachable, taken)
  {
    AcceptedParts(v, path, reachable, taken);
    if NodeOk(v, path, reachable) { OwnIsReported(v, path, reachable, taken); }
  }

  lemma OwnIsDone(v: Json, path: seq<Key>, reachable: bool, taken: set<Text>)
    requires v.Obj? && OwnOk(v, path, reachable, taken)
    ensures Done(v, path, reachable, Table(v, PROPERTIES).Keys, taken)
    ensures Found(v, path, Table(v, PROPERTIES).Keys) == Own(v, path)
  {
    AcceptedParts(v, path, reachable, taken);
  }

  lemma OwnIsReported(v: Json, path: seq<Key>, reachable: bool, taken: set<Text>)
    requires Marked(v) && NodeOk(v, path, reachable) && Fold(v.m[X_MCP_HEADER].text) in taken
    ensures !Done(v, path, reachable, {}, taken)
  {
    var a := Annotation(v.m[X_MCP_HEADER].text, path, DeclaredOf(v).value);
    assert a in Found(v, path, {});
    assert Fold(a.name) in Folds(Found(v, path, {}));
  }

  // ---------- names, written out ----------

  /** The declared types, and the characters of a token: section 5.6.2 of RFC 9110. */
  lemma NamesWrittenOut(c: Code, v: Json, t: Text)
    ensures Token(t) <==> |t| > 0 && forall c | c in t :: TokenChar(c)
    ensures TokenChar(c) <==>
            || '0' as int <= c <= '9' as int || 'A' as int <= c <= 'Z' as int || 'a' as int <= c <= 'z' as int
            || c in ['!' as int, '#' as int, '$' as int, '%' as int, '&' as int, '\'' as int, '*' as int, '+' as int,
                     '-' as int, '.' as int, '^' as int, '_' as int, '`' as int, '|' as int, '~' as int]
    ensures v.Obj? && TYPE in v.m ==>
              && (DeclaredOf(v) == Some(DeclaredString) <==> v.m[TYPE] == Str(Literal("string")))
              && (DeclaredOf(v) == Some(DeclaredInteger) <==> v.m[TYPE] == Str(Literal("integer")))
              && (DeclaredOf(v) == Some(DeclaredBoolean) <==> v.m[TYPE] == Str(Literal("boolean")))
  {
    assert STRING == Literal("string") && INTEGER == Literal("integer") && BOOLEAN == Literal("boolean");
  }

  /** Two names fold alike exactly when they differ at most in the case of letters. */
  lemma FoldsAlike(a: Text, b: Text)
    ensures Fold(a) == Fold(b) <==>
            |a| == |b| && forall i | 0 <= i < |a| ::
              a[i] == b[i] || (65 <= a[i] <= 90 && b[i] == a[i] + 32) || (65 <= b[i] <= 90 && a[i] == b[i] + 32)
  {
    if |a| == |b| && forall i | 0 <= i < |a| ::
         a[i] == b[i] || (65 <= a[i] <= 90 && b[i] == a[i] + 32) || (65 <= b[i] <= 90 && a[i] == b[i] + 32) {
      assert Fold(a) == Fold(b);
    }
    if Fold(a) == Fold(b) {
      forall i | 0 <= i < |a|
        ensures a[i] == b[i] || (65 <= a[i] <= 90 && b[i] == a[i] + 32) || (65 <= b[i] <= 90 && a[i] == b[i] + 32)
      {
        assert Fold(a)[i] == Fold(b)[i];
      }
    }
  }
}
