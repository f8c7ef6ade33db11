/** The check that admits a schema to the cache, and what later calls may rely on because of it. */
module ToolSchemas {
  import opened Wrappers
  import opened Utf8
  import opened Json
  import opened Schema
  import SchemaBound
  import SchemaCache
  import SchemaEval
  import HeaderMirror
  import ParameterHeaders

  /** The dialect and the meta-schema accept the document. */
  type MetaSchema = Json -> bool

  ghost predicate Admitted(v: Json, meta: MetaSchema) {
    SchemaBound.Bounded(v) && meta(v) && HeaderMirror.Accepted(v, [], true, {})
  }

  /** `check` admits exactly what `_validate_schema_document` and the annotation walk let through. */
  ghost predicate Implements(check: SchemaCache.Checker, meta: MetaSchema) {
    forall v :: check(v) == SchemaCache.Fine <==> Admitted(v, meta)
  }

  /** `_validate_schema_document` and `_mcp_header_annotations` on one tool: what passes is admitted, and
      the TypeError that is not caught comes from the walk over an otherwise valid document, only when a
      type is unhashable, and always when nothing but such types is wrong.  In between, with other defects
      beside them, it depends on the order in which the walk meets them. */
  method CheckSchema(v: Json, meta: MetaSchema) returns (c: SchemaCache.Check)
    ensures c == SchemaCache.Fine <==> Admitted(v, meta)
    ensures c == SchemaCache.Uncaught ==>
              SchemaBound.Bounded(v) && meta(v) && !HeaderMirror.Accepted(v, [], true, {}) && HeaderMirror.Typed(v) != v
    ensures SchemaBound.Bounded(v) && meta(v) && HeaderMirror.OnlyUnhashable(v) ==> c == SchemaCache.Uncaught
  {
    var bounded := SchemaBound.BoundSchema(v);
    if !bounded || !meta(v) { return SchemaCache.Refused; }
    var annotations := ParameterHeaders.HeaderAnnotations(v);
    if annotations.Ok? {
      HeaderMirror.AcceptableTyped(v, [], true);
      return SchemaCache.Fine;
    }
    return if annotations.error.UnhashableType? then SchemaCache.Uncaught else SchemaCache.Refused;
  }

  /** Every schema that a lookup finds was admitted, and the listing it comes from advertised it without
      its annotations. */
  lemma FoundIsAdmitted(installs: seq<SchemaCache.Installed>, check: SchemaCache.Checker, meta: MetaSchema,
                        upstream: nat, name: Text, token: Option<Text>, allowStale: bool, now: real, schema: Json)
    returns (i: nat)
    requires SchemaCache.AllConsistent(installs, check) && Implements(check, meta)
    requires SchemaCache.Lookup(installs, upstream, name, token, allowStale, now) == Some(schema)
    ensures Admitted(schema, meta)
    ensures var listing := SchemaCache.Latest(installs, upstream).value;
            i < |listing.advertised| && listing.advertised[i] == SchemaCache.Advertised(name, Strip(schema))
  {
    var listing := SchemaCache.Latest(installs, upstream).value;
    assert SchemaCache.Consistent(listing, check);
    assert SchemaCache.AdvertisedAs(listing, name);
    i :| 0 <= i < |listing.advertised| && listing.advertised[i].name == name;
  }

  /** The advertised schema keeps within the same bounds, has no annotation left, and gives all arguments
      the verdict of the schema that calls enforce. */
  lemma AdvertisedEqualsEnforced(schema: Json, meta: MetaSchema, lib: SchemaEval.Library)
    requires Admitted(schema, meta)
    ensures SchemaBound.Bounded(Strip(schema))
    ensures HeaderMirror.Accepted(Strip(schema), [], true, {}) && HeaderMirror.Annotations(Strip(schema), []) == {}
    ensures forall x :: SchemaEval.Eval(lib, Strip(schema), x) == SchemaEval.Eval(lib, schema, x)
  {
    SchemaBound.StripKeepsBound(schema);
    HeaderMirror.StrippedStaysAcceptable(schema, [], true, [], true);
    HeaderMirror.StrippedHasNone(schema, []);
    forall x ensures SchemaEval.Eval(lib, Strip(schema), x) == SchemaEval.Eval(lib, schema, x) {
      SchemaEval.StripPreservesValidation(lib, schema, x);
    }
  }

  /** What `call_tool` of the client has before it sends: no schema, a refused argument, an argument that
      no header can carry, or the headers. */
  datatype Prepared =
    | Unavailable(failure: SchemaCache.ListError) | Rejected
    | NotMirrored(error: ParameterHeaders.MirrorError) | Ready(headers: map<Text, Text>)

  /** `call_tool` of the client up to the dispatch; `judge` is the jsonschema library. */
  method PrepareCall(client: SchemaCache.UpstreamClient, upstream: nat, name: Text, token: Option<Text>,
                     fetch: SchemaCache.Fetch, check: SchemaCache.Checker, before: real, listed: real, after: real,
                     judge: (Json, Json) -> bool, arguments: Json, ghost meta: MetaSchema, ghost lib: SchemaEval.Library)
    returns (r: Prepared, ghost schema: Option<Json>, ghost advertised: Json)
    requires client.Valid() && SchemaCache.AllConsistent(client.installs, check) && Implements(check, meta)
    requires forall s, x :: judge(s, x) == SchemaEval.Eval(lib, s, x).valid
    modifies client
    ensures client.Valid() && SchemaCache.AllConsistent(client.installs, check)
    ensures r.Unavailable? <==> schema.None?
    ensures var cached := SchemaCache.Lookup(old(client.installs), upstream, name, token, false, before);
            schema == if cached.Some? then cached
                      else if SchemaCache.Lists(fetch, check) then SchemaCache.Lookup(client.installs, upstream, name, token, true, after)
                      else None
    ensures schema.Some? ==>
              var listing := SchemaCache.Latest(client.installs, upstream);
              && listing.Some? && SchemaCache.Advertised(name, advertised) in listing.value.advertised
              && (r.Rejected? <==> !judge(advertised, arguments))
              && (r.Ready? || r.NotMirrored? ==> (r.Ready? <==>
                    ParameterHeaders.AllSendable(HeaderMirror.Annotations(schema.value, []), arguments)))
    ensures r.Ready? ==> ParameterHeaders.Mirrors(r.headers, HeaderMirror.Annotations(schema.value, []), arguments)
    ensures r.NotMirrored? ==> !r.error.FromWalk?
  {
    schema, advertised := None, Null;
    var found := client.SchemaForCall(upstream, name, token, fetch, check, before, listed, after);
    if found.Err? { return Unavailable(found.error), None, Null; }
    schema, advertised := Some(found.value), Strip(found.value);
    ghost var i := FoundIsAdmitted(client.installs, check, meta, upstream, name, token, true, after, found.value);
    AdvertisedEqualsEnforced(found.value, meta, lib);
    if !judge(found.value, arguments) { return Rejected, schema, advertised; }
    var headers := ParameterHeaders.ParameterHeaders(found.value, arguments);
    r := if headers.Ok? then Ready(headers.value) else NotMirrored(headers.error);
  }
}
