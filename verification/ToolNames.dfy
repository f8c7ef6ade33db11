/** Tool names: the listing of the Hub and the routing of `call_tool` must agree. */
module ToolNames {
  import opened Wrappers
  import opened Utf8
  import opened HeaderCodec
  import opened Seqs
  import opened Sorting

  const DOT: Code := 0x2E
  const STAR: Code := 0x2A
  const GENOS: Text := [0x67, 0x65, 0x6E, 0x6F, 0x73]
  const NAME_LIMIT: nat := 160
  const SCOPE_LIMIT: nat := 256

  predicate Lower(c: Code) { 0x61 <= c <= 0x7A }

  predicate Digit(c: Code) { 0x30 <= c <= 0x39 }

  predicate HeadChar(c: Code) { Lower(c) || Digit(c) || c == 0x5F || c == 0x2D }

  predicate TailChar(c: Code) { HeadChar(c) || 0x41 <= c <= 0x5A || c == DOT }

  /** `^[a-z][a-z0-9_-]{1,31}$` */
  predicate NamespaceShape(t: Text) {
    2 <= |t| <= 32 && Lower(t[0]) && forall i :: 0 <= i < |t| ==> HeadChar(t[i])
  }

  /** The part of a scope behind its first dot. */
  predicate ScopeTail(t: Text) {
    t == [STAR] || (1 <= |t| <= 96 && forall i :: 0 <= i < |t| ==> TailChar(t[i]))
  }

  /** `str.partition(".")`: the place of the first dot, or the length of the text. */
  function FirstDot(t: Text): (d: nat)
    ensures d <= |t|
    ensures d < |t| ==> t[d] == DOT
    ensures DOT !in t[..d]
  {
    if t == [] || t[0] == DOT then 0
    else
      var d := FirstDot(t[1..]);
      assert t[..d + 1] == [t[0]] + t[1..][..d];
      d + 1
  }

  /** `^[a-z][a-z0-9_-]{1,31}\.(?:\*|[a-zA-Z0-9_.-]{1,96})$` */
  predicate ScopeShape(t: Text) {
    var d := FirstDot(t);
    d < |t| && NamespaceShape(t[..d]) && ScopeTail(t[d + 1..])
  }

  lemma FirstDotUnique(head: Text, tail: Text)
    requires DOT !in head
    ensures FirstDot(head + [DOT] + tail) == |head|
  {
    var t := head + [DOT] + tail;
    var d := FirstDot(t);
    forall i | 0 <= i < d ensures t[i] != DOT { assert t[i] in t[..d]; }
    assert t[|head|] == DOT;
    forall i | 0 <= i < |head| ensures t[i] != DOT { assert t[i] == head[i] && head[i] in head; }
  }

  lemma NamespaceHasNoDot(ns: Text)
    requires NamespaceShape(ns)
    ensures DOT !in ns
  {
  }

  // ---------- scopes ----------

  function StripAll(scopes: seq<Text>): (r: seq<Text>)
    ensures |r| == |scopes| && forall i | 0 <= i < |r| :: r[i] == Strip(scopes[i])
  {
    if scopes == [] then [] else StripAll(scopes[..|scopes| - 1]) + [Strip(scopes[|scopes| - 1])]
  }

  predicate AllFit(all: seq<Text>) { forall s | s in all :: ScopeShape(s) }

  /** `normalize_scopes`: all scopes must fit; each is kept once, stripped, in order. */
  method NormalizeScopes(scopes: seq<Text>) returns (r: Result<seq<Text>, string>)
    ensures r.Ok? <==> |scopes| <= 256 && AllFit(StripAll(scopes))
    ensures r.Ok? ==> (forall s :: s in r.value <==> s in StripAll(scopes)) && Distinct(r.value)
    ensures r.Ok? ==> SortedBy(r.value, (s: Text) => s)
  {
    if |scopes| > SCOPE_LIMIT { return Err("invalid MCP scopes"); }
    ghost var all := StripAll(scopes);
    var clean: seq<Text> := [];
    for i := 0 to |scopes|
      invariant AllFit(all[..i])
      invariant forall s :: s in clean <==> s in all[..i]
      invariant Distinct(clean)
    {
      var value := Strip(scopes[i]);
      assert value == all[i];
      FitOne(all, i);
      if !ScopeShape(value) { return Err("invalid MCP scope"); }
      clean := AddOnce(clean, value);
    }
    assert all[..|all|] == all;
    SortSorts(clean, (s: Text) => s);
    return Ok(Sort(clean, (s: Text) => s));
  }

  lemma FitOne(all: seq<Text>, i: nat)
    requires i < |all|
    ensures all[..i + 1] == all[..i] + [all[i]]
    ensures AllFit(all[..i + 1]) <==> AllFit(all[..i]) && ScopeShape(all[i])
    ensures AllFit(all) ==> ScopeShape(all[i])
  {
    assert all[..i + 1] == all[..i] + [all[i]];
  }

  function AddOnce(clean: seq<Text>, value: Text): (r: seq<Text>)
    ensures forall s :: s in r <==> s in clean || s == value
    ensures Distinct(clean) ==> Distinct(r)
  {
    if value in clean then clean else clean + [value]
  }

  /** One scope grants one name. */
  predicate Grants(scope: Text, name: Text) {
    scope == name
    || (EndsWith(scope, [DOT, STAR]) && StartsWith(name, scope[..|scope| - 1]))
  }

  predicate Allows(scopes: seq<Text>, name: Text) { exists s :: s in scopes && Grants(s, name) }

  /** `scope_allows`. */
  method ScopeAllows(scopes: seq<Text>, name: Text) returns (r: bool)
    ensures r == Allows(scopes, name)
  {
    for i := 0 to |scopes|
      invariant forall k | 0 <= k < i :: !Grants(scopes[k], name)
    {
      if Grants(scopes[i], name) { return true; }
    }
    return false;
  }

  // ---------- the registry ----------

  /** A registered active upstream; `remotes` are the names its client lists now, None when it
      is degraded. */
  datatype Upstream = Upstream(id: nat, namespace: Text, remotes: Option<seq<Text>>)

  /** What the store's uniqueness rule, `normalize_namespace` and the reserved name guarantee. */
  predicate Registered(upstreams: seq<Upstream>) {
    && (forall i | 0 <= i < |upstreams| :: NamespaceShape(upstreams[i].namespace) && upstreams[i].namespace != GENOS)
    && (forall i, j | 0 <= i < j < |upstreams| :: upstreams[i].namespace != upstreams[j].namespace)
  }

  /** What the client's listing guarantees about the names of one upstream. */
  predicate RemoteNames(names: seq<Text>) {
    && (forall i | 0 <= i < |names| :: names[i] != [] && Encodable(names[i]) && |EncodeAll(names[i])| <= NAME_LIMIT)
    && (forall i, j | 0 <= i < j < |names| :: names[i] != names[j])
  }

  predicate Listings(upstreams: seq<Upstream>) {
    forall i | 0 <= i < |upstreams| && upstreams[i].remotes.Some? :: RemoteNames(upstreams[i].remotes.value)
  }

  function FullName(ns: Text, remote: Text): Text { ns + [DOT] + remote }

  // ---------- routing ----------

  datatype Target = Local | Remote(upstream: nat, name: Text) | UnknownTool | UnknownUpstream

  /** `next(item for item in upstreams if item.namespace == namespace)`; the length means none. */
  function FindUpstream(upstreams: seq<Upstream>, ns: Text): (i: nat)
    ensures i <= |upstreams|
    ensures i < |upstreams| ==> upstreams[i].namespace == ns
    ensures forall k | 0 <= k < i :: upstreams[k].namespace != ns
  {
    if upstreams == [] || upstreams[0].namespace == ns then 0 else 1 + FindUpstream(upstreams[1..], ns)
  }

  /** Where `call_tool` sends a granted name. */
  function Resolve(local: seq<Text>, upstreams: seq<Upstream>, name: Text): Target {
    if name in local then Local
    else
      var d := FirstDot(name);
      if d == |name| || name[..d] == GENOS || d + 1 == |name| then UnknownTool
      else
        var i := FindUpstream(upstreams, name[..d]);
        if i == |upstreams| then UnknownUpstream else Remote(i, name[d + 1..])
  }

  // ---------- the listing ----------

  datatype Tool = Tool(name: Text, target: Target)

  /** `any(scope.startswith(namespace + "."))`. */
  predicate Prefilter(scopes: seq<Text>, ns: Text) { exists s :: s in scopes && StartsWith(s, ns + [DOT]) }

  predicate Shown(scopes: seq<Text>, local: seq<Text>, full: Text) { full !in local && Allows(scopes, full) }

  /** Tool `t` is one of the remote tools `names` of upstream `i` that the loop appends. */
  predicate FromUpstream(scopes: seq<Text>, local: seq<Text>, ns: Text, i: nat, names: seq<Text>, t: Tool) {
    exists r :: r in names && t == Tool(FullName(ns, r), Remote(i, r)) && Shown(scopes, local, FullName(ns, r))
  }

  predicate FromUpstreams(scopes: seq<Text>, local: seq<Text>, upstreams: seq<Upstream>, k: nat, t: Tool)
    requires k <= |upstreams|
  {
    exists i: nat :: i < k && upstreams[i].remotes.Some? && Prefilter(scopes, upstreams[i].namespace)
      && FromUpstream(scopes, local, upstreams[i].namespace, i, upstreams[i].remotes.value, t)
  }

  predicate FromLocal(scopes: seq<Text>, local: seq<Text>, t: Tool) {
    t.target == Local && t.name in local && Allows(scopes, t.name)
  }

  /** The remote tools of one upstream. */
  method ListUpstream(scopes: seq<Text>, local: seq<Text>, ns: Text, i: nat, names: seq<Text>) returns (tools: seq<Tool>)
    requires RemoteNames(names)
    ensures forall t :: t in tools <==> FromUpstream(scopes, local, ns, i, names, t)
    ensures forall a, b | 0 <= a < b < |tools| :: tools[a] != tools[b]
  {
    tools := [];
    for k := 0 to |names|
      invariant forall t :: t in tools <==> FromUpstream(scopes, local, ns, i, names[..k], t)
      invariant forall a, b | 0 <= a < b < |tools| :: tools[a] != tools[b]
    {
      var full := FullName(ns, names[k]);
      var tool := Tool(full, Remote(i, names[k]));
      assert names[..k + 1] == names[..k] + [names[k]];
      var allowed := ScopeAllows(scopes, full);
      if !(full in local || !allowed) {
        forall a | 0 <= a < |tools| ensures tools[a] != tool {
          assert tools[a] in tools;
        }
        tools := tools + [tool];
      }
    }
    assert names[..|names|] == names;
  }

  /** `list_tools` of the Hub. */
  method ListTools(scopes: seq<Text>, local: seq<Text>, upstreams: seq<Upstream>) returns (tools: seq<Tool>)
    requires Listings(upstreams) && forall a, b | 0 <= a < b < |local| :: local[a] != local[b]
    ensures forall t :: t in tools <==> FromLocal(scopes, local, t) || FromUpstreams(scopes, local, upstreams, |upstreams|, t)
    ensures Distinct(tools) && SortedBy(tools, (t: Tool) => t.name)
  {
    tools := CollectTools(scopes, local, upstreams);
    SortSorts(tools, (t: Tool) => t.name);
    tools := Sort(tools, (t: Tool) => t.name);
  }

  /** The loops of `list_tools`. */
  method CollectTools(scopes: seq<Text>, local: seq<Text>, upstreams: seq<Upstream>) returns (tools: seq<Tool>)
    requires Listings(upstreams) && forall a, b | 0 <= a < b < |local| :: local[a] != local[b]
    ensures forall t :: t in tools <==> FromLocal(scopes, local, t) || FromUpstreams(scopes, local, upstreams, |upstreams|, t)
    ensures Distinct(tools)
  {
    tools := [];
    for k := 0 to |local|
      invariant forall t :: t in tools <==> t.target == Local && t.name in local[..k] && Allows(scopes, t.name)
      invariant forall a, b | 0 <= a < b < |tools| :: tools[a] != tools[b]
    {
      assert local[..k + 1] == local[..k] + [local[k]];
      var allowed := ScopeAllows(scopes, local[k]);
      if allowed {
        forall a | 0 <= a < |tools| ensures tools[a] != Tool(local[k], Local) {
          assert tools[a] in tools;
        }
        tools := tools + [Tool(local[k], Local)];
      }
    }
    assert local[..|local|] == local;
    for i := 0 to |upstreams|
      invariant forall t :: t in tools <==> FromLocal(scopes, local, t) || FromUpstreams(scopes, local, upstreams, i, t)
      invariant forall a, b | 0 <= a < b < |tools| :: tools[a] != tools[b]
    {
      if Prefilter(scopes, upstreams[i].namespace) && upstreams[i].remotes.Some? {
        var more := ListUpstream(scopes, local, upstreams[i].namespace, i, upstreams[i].remotes.value);
        forall a, b | 0 <= a < |tools| && 0 <= b < |more| ensures tools[a] != more[b] {
          assert tools[a] in tools && more[b] in more;
        }
        tools := tools + more;
      }
    }
  }

  // ---------- what the listing promises ----------

  /** A granted name behind a namespace has a scope behind that namespace: the pre-filter drops
      no upstream from which a normalized scope allows a tool. */
  lemma PrefilterDropsNothing(scopes: seq<Text>, ns: Text, remote: Text)
    requires AllFit(scopes) && NamespaceShape(ns)
    requires Allows(scopes, FullName(ns, remote))
    ensures Prefilter(scopes, ns)
  {
    var s :| s in scopes && Grants(s, FullName(ns, remote));
    if s == FullName(ns, remote) {
      assert s[..|ns| + 1] == ns + [DOT];
    } else {
      WildcardScope(s, ns, remote);
    }
  }

  /** A wildcard scope names exactly one namespace. */
  lemma WildcardScope(s: Text, ns: Text, remote: Text)
    requires ScopeShape(s) && NamespaceShape(ns) && EndsWith(s, [DOT, STAR])
    requires StartsWith(FullName(ns, remote), s[..|s| - 1])
    ensures s == ns + [DOT, STAR]
  {
    var d := FirstDot(s);
    assert s[|s| - 2..][1] == STAR && s[|s| - 1] == STAR;
    assert s[d + 1..][|s| - d - 2] == STAR;
    assert s == s[..d] + [DOT, STAR];
    NamespaceHasNoDot(ns);
    FirstDotUnique(ns, remote);
    var full := FullName(ns, remote);
    assert full[..d + 1] == s[..d + 1];
    assert full[d] == full[..d + 1][d] == DOT;
    FirstDotUnique(s[..d], full[d + 1..]);
    assert full == full[..d] + [DOT] + full[d + 1..];
    assert full[..d] == full[..d + 1][..d] == s[..d + 1][..d] == s[..d];
    assert full[..|ns|] == ns;
  }

  /** First-dot splitting leads back to the upstream and the remote name. */
  lemma ResolvesBack(local: seq<Text>, upstreams: seq<Upstream>, i: nat, remote: Text)
    requires Registered(upstreams) && i < |upstreams| && remote != []
    requires FullName(upstreams[i].namespace, remote) !in local
    ensures Resolve(local, upstreams, FullName(upstreams[i].namespace, remote)) == Remote(i, remote)
  {
    var ns := upstreams[i].namespace;
    NamespaceHasNoDot(ns);
    FirstDotUnique(ns, remote);
    var full := FullName(ns, remote);
    assert full[..|ns|] == ns && full[|ns| + 1..] == remote;
    var k := FindUpstream(upstreams, ns);
    assert !(i < k) && !(k < i);
  }

  lemma ResolvedName(local: seq<Text>, upstreams: seq<Upstream>, name: Text)
    requires Resolve(local, upstreams, name).Remote?
    ensures var target := Resolve(local, upstreams, name);
            && target.upstream < |upstreams| && name !in local
            && name == FullName(upstreams[target.upstream].namespace, target.name)
  {
    var d := FirstDot(name);
    assert name == name[..d] + [DOT] + name[d + 1..];
  }

  /** What the Hub has to offer: its local tools and the tools of its reachable upstreams. */
  predicate Offered(local: seq<Text>, upstreams: seq<Upstream>, t: Tool) {
    match t.target
    case Local => t.name in local
    case Remote(i, r) => i < |upstreams| && upstreams[i].remotes.Some? && r in upstreams[i].remotes.value
    case _ => false
  }

  /** The listing holds exactly the offered tools that `call_tool` grants and routes back. */
  lemma ListedExactly(scopes: seq<Text>, local: seq<Text>, upstreams: seq<Upstream>, t: Tool)
    requires Registered(upstreams) && Listings(upstreams) && AllFit(scopes)
    ensures FromLocal(scopes, local, t) || FromUpstreams(scopes, local, upstreams, |upstreams|, t) <==>
            Offered(local, upstreams, t) && Allows(scopes, t.name) && Resolve(local, upstreams, t.name) == t.target
  {
    if FromUpstreams(scopes, local, upstreams, |upstreams|, t) {
      ListedResolves(scopes, local, upstreams, t);
    }
    if t.target.Remote? && Offered(local, upstreams, t) && Allows(scopes, t.name)
       && Resolve(local, upstreams, t.name) == t.target {
      ResolvedName(local, upstreams, t.name);
      PrefilterDropsNothing(scopes, upstreams[t.target.upstream].namespace, t.target.name);
      var i := t.target.upstream;
      assert FromUpstream(scopes, local, upstreams[i].namespace, i, upstreams[i].remotes.value, t);
    }
  }

  lemma ListedResolves(scopes: seq<Text>, local: seq<Text>, upstreams: seq<Upstream>, t: Tool)
    requires Registered(upstreams) && Listings(upstreams) && FromUpstreams(scopes, local, upstreams, |upstreams|, t)
    ensures Offered(local, upstreams, t) && Allows(scopes, t.name) && Resolve(local, upstreams, t.name) == t.target
  {
    var i: nat :| i < |upstreams| && upstreams[i].remotes.Some? && Prefilter(scopes, upstreams[i].namespace)
      && FromUpstream(scopes, local, upstreams[i].namespace, i, upstreams[i].remotes.value, t);
    var r :| r in upstreams[i].remotes.value && t == Tool(FullName(upstreams[i].namespace, r), Remote(i, r))
      && Shown(scopes, local, FullName(upstreams[i].namespace, r));
    ResolvesBack(local, upstreams, i, r);
  }

  /** The names of a listing are pairwise distinct. */
  lemma DistinctNames(scopes: seq<Text>, local: seq<Text>, upstreams: seq<Upstream>, tools: seq<Tool>)
    requires Registered(upstreams) && Listings(upstreams) && AllFit(scopes)
    requires forall t | t in tools :: FromLocal(scopes, local, t) || FromUpstreams(scopes, local, upstreams, |upstreams|, t)
    requires forall a, b | 0 <= a < b < |tools| :: tools[a] != tools[b]
    ensures forall a, b | 0 <= a < b < |tools| :: tools[a].name != tools[b].name
  {
    forall a, b | 0 <= a < b < |tools| ensures tools[a].name != tools[b].name {
      assert tools[a] in tools && tools[b] in tools;
      ListedExactly(scopes, local, upstreams, tools[a]);
      ListedExactly(scopes, local, upstreams, tools[b]);
    }
  }

  // ---------- reaching a listed tool through the transport ----------

  /** The body and header checks of `do_POST` for `tools/call`. */
  predicate TransportAccepts(name: Text, header: Text) {
    name != [] && 0 !in name && Encodable(name) && |EncodeAll(name)| <= NAME_LIMIT && DecodeValue(header) == Ok(name)
  }

  lemma {:induction false} EncodeAllConcat(a: Text, b: Text)
    ensures EncodeAll(a + b) == EncodeAll(a) + EncodeAll(b)
  {
    if a == [] {
      assert a + b == b;
    } else {
      assert (a + b)[1..] == a[1..] + b;
      EncodeAllConcat(a[1..], b);
    }
  }

  lemma {:induction false} AsciiLength(t: Text)
    requires forall i :: 0 <= i < |t| ==> t[i] < 0x80
    ensures |EncodeAll(t)| == |t| && Encodable(t)
  {
    if t != [] { AsciiLength(t[1..]); }
  }

  /** A listed remote tool can be called exactly when its full name keeps within 160 bytes and has
      no NUL: the client bounds only the remote part of the name. */
  lemma ListedReachable(ns: Text, remote: Text)
    requires NamespaceShape(ns) && remote != [] && Encodable(remote)
    ensures (exists header :: TransportAccepts(FullName(ns, remote), header))
            <==> |ns| + 1 + |EncodeAll(remote)| <= 160 && 0 !in remote
  {
    var full := FullName(ns, remote);
    AsciiLength(ns + [DOT]);
    EncodeAllConcat(ns + [DOT], remote);
    assert 0 in full <==> 0 in remote;
    assert Encodable(full);
    RoundTrip(full);
    if |ns| + 1 + |EncodeAll(remote)| <= NAME_LIMIT && 0 !in remote {
      assert TransportAccepts(full, EncodeValue(full).value);
    }
  }

  // ---------- shapes, written out ----------

  /** Namespaces and scopes as the patterns of the store have them. */
  lemma ShapesWrittenOut(t: Text, tail: Text)
    ensures NamespaceShape(t) <==>
            && 2 <= |t| <= 32 && 'a' as int <= t[0] <= 'z' as int
            && forall i | 0 <= i < |t| ::
                 'a' as int <= t[i] <= 'z' as int || '0' as int <= t[i] <= '9' as int || t[i] == '_' as int || t[i] == '-' as int
    ensures ScopeTail(tail) <==>
            || tail == Literal("*")
            || (1 <= |tail| <= 96
                && forall i | 0 <= i < |tail| ::
                     || 'a' as int <= tail[i] <= 'z' as int || 'A' as int <= tail[i] <= 'Z' as int
                     || '0' as int <= tail[i] <= '9' as int || tail[i] in ['_' as int, '.' as int, '-' as int])
    ensures NamespaceShape(t) && ScopeTail(tail) ==> ScopeShape(t + Literal(".") + tail)
    ensures GENOS == Literal("genos") && DOT == '.' as int
  {
    assert Literal("*") == [STAR] && Literal(".") == [DOT];
    if NamespaceShape(t) {
      NamespaceHasNoDot(t);
      FirstDotUnique(t, tail);
      var scope := t + [DOT] + tail;
      assert scope[..|t|] == t && scope[|t| + 1..] == tail;
    }
  }

  /** A scope is a namespace, a dot and a tail. */
  lemma ScopeParts(scope: Text) returns (ns: Text, tail: Text)
    requires ScopeShape(scope)
    ensures scope == ns + Literal(".") + tail && NamespaceShape(ns) && ScopeTail(tail)
  {
    var d := FirstDot(scope);
    ns, tail := scope[..d], scope[d + 1..];
    assert Literal(".") == [DOT];
  }

  /** A scope grants its own name, and a wildcard every name behind its dot. */
  lemma GrantsWrittenOut(head: Text, scope: Text, name: Text)
    ensures Grants(name, name)
    ensures Grants(head + Literal(".*"), name) <==>
            name == head + Literal(".*") || (|name| > |head| && name[..|head| + 1] == head + Literal("."))
    ensures Grants(scope, name) && scope != name ==> |scope| >= 2 && scope[|scope| - 2..] == Literal(".*")
  {
    assert Literal(".*") == [DOT, STAR] && Literal(".") == [DOT];
    var wild := head + [DOT, STAR];
    assert wild[|wild| - 2..] == [DOT, STAR] && wild[..|wild| - 1] == head + [DOT];
  }

  /** Where a name that no local tool has goes: nowhere without a dot, behind the reserved namespace, or with
      an empty rest; else to the upstream of its namespace, if there is one. */
  lemma RoutesWrittenOut(local: seq<Text>, upstreams: seq<Upstream>, ns: Text, rest: Text, name: Text)
    requires '.' as int !in ns && name == ns + Literal(".") + rest
    ensures name in local ==> Resolve(local, upstreams, name) == Local
    ensures name !in local && (ns == Literal("genos") || rest == []) ==> Resolve(local, upstreams, name) == UnknownTool
    ensures name !in local && ns != Literal("genos") && rest != [] ==>
              if forall i | 0 <= i < |upstreams| :: upstreams[i].namespace != ns
              then Resolve(local, upstreams, name) == UnknownUpstream
              else exists i: nat :: i < |upstreams| && upstreams[i].namespace == ns && Resolve(local, upstreams, name) == Remote(i, rest)
    ensures ns !in local ==> Resolve(local, upstreams, ns) == UnknownTool
  {
    assert Literal(".") == [DOT] && GENOS == Literal("genos");
    FirstDotUnique(ns, rest);
    assert name[..|ns|] == ns && name[|ns| + 1..] == rest;
    var i := FindUpstream(upstreams, ns);
    assert FirstDot(ns) == |ns|;
  }
}
