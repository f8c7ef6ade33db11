/** The upstream client: bounded paging of `tools/list`, the choice of tools, and the schema cache. */
module SchemaCache {
  import opened Wrappers
  import opened Utf8
  import opened Json
  import opened Schema
  import ToolNames

  const MAX_PAGES: nat := 16
  const MAX_TOOLS: nat := 512
  const MAX_TTL: nat := 300_000

  datatype Scope = PublicScope | PrivateScope

  /** A tool as the upstream sends it: not an object with a string name, or a name and an object
      schema of type `object`, if it has one. */
  datatype RawTool = Junk | Tool(name: Text, schema: Option<Json>)

  datatype Next = End | Cursor(cursor: Text) | NotText

  /** The answer to one `tools/list` request; `Unhashable` is one that is fine up to its `cacheScope`,
      a list or an object, which raises TypeError when it is looked up. */
  datatype Page = Fault | Malformed | Unhashable | Page(tools: seq<RawTool>, ttl: nat, scope: Scope, next: Next)

  /** Validation of one schema document and its annotations: fine, refused, or an error that the
      client does not catch. */
  datatype Check = Fine | Refused | Uncaught

  datatype ListError = UpstreamError | UncaughtError

  type Fetch = (nat, Option<Text>) -> Page

  // ---------- paging ----------

  /** The cursor sent with request `i`, when every page before has one. */
  function CursorAt(fetch: Fetch, i: nat): Option<Text> {
    if i == 0 then None
    else
      var page := fetch(i - 1, CursorAt(fetch, i - 1));
      if page.Page? && page.next.Cursor? then Some(page.next.cursor) else None
  }

  function PageAt(fetch: Fetch, i: nat): Page { fetch(i, CursorAt(fetch, i)) }

  /** The tools of the first `n` pages, in order. */
  function ToolsOf(fetch: Fetch, n: nat): seq<RawTool> {
    if n == 0 then []
    else ToolsOf(fetch, n - 1) + (if PageAt(fetch, n - 1).Page? then PageAt(fetch, n - 1).tools else [])
  }

  function MinTtl(fetch: Fetch, n: nat): nat
    requires n > 0
  {
    if n == 1 then Ttl(fetch, 0) else Min(MinTtl(fetch, n - 1), Ttl(fetch, n - 1))
  }

  function Ttl(fetch: Fetch, i: nat): nat { if PageAt(fetch, i).Page? then PageAt(fetch, i).ttl else 0 }

  function Min(a: nat, b: nat): nat { if b < a then b else a }

  /** The lifetime of a listing is the shortest of its pages. */
  lemma {:induction false} ShortestLifetime(fetch: Fetch, n: nat)
    requires n > 0
    ensures forall i | 0 <= i < n :: MinTtl(fetch, n) <= Ttl(fetch, i)
    ensures exists i :: 0 <= i < n && MinTtl(fetch, n) == Ttl(fetch, i)
  {
    if n > 1 {
      ShortestLifetime(fetch, n - 1);
      if MinTtl(fetch, n) == Ttl(fetch, n - 1) {
        assert 0 <= n - 1 < n && MinTtl(fetch, n) == Ttl(fetch, n - 1);
      } else {
        var i :| 0 <= i < n - 1 && MinTtl(fetch, n - 1) == Ttl(fetch, i);
        assert MinTtl(fetch, n) == Ttl(fetch, i);
      }
    } else {
      assert MinTtl(fetch, n) == Ttl(fetch, 0);
    }
  }

  /** The first `n` pages are well-formed, of one scope and bounded, and each names a new cursor. */
  predicate Continues(fetch: Fetch, n: nat) {
    n == 0
    || (&& Continues(fetch, n - 1) && OfOneScope(fetch, n - 1) && PageAt(fetch, n - 1).next.Cursor?
        && NewAt(fetch, n - 1) && |ToolsOf(fetch, n)| <= MAX_TOOLS)
  }

  /** The cursor of page `n` was not named before. */
  predicate NewAt(fetch: Fetch, n: nat) {
    forall i | 0 <= i < n && PageAt(fetch, i).Page? && PageAt(fetch, n).Page? :: PageAt(fetch, i).next != PageAt(fetch, n).next
  }

  predicate OfOneScope(fetch: Fetch, i: nat) {
    PageAt(fetch, i).Page? && PageAt(fetch, 0).Page? && PageAt(fetch, i).scope == PageAt(fetch, 0).scope
  }

  /** The listing is complete after `n` pages. */
  predicate Complete(fetch: Fetch, n: nat) {
    && 1 <= n <= 16 && Continues(fetch, n - 1)
    && OfOneScope(fetch, n - 1) && PageAt(fetch, n - 1).next == End
    && |ToolsOf(fetch, n)| <= 512
  }

  ghost predicate Completes(fetch: Fetch) { exists n :: Complete(fetch, n) }

  /** Page `n` is asked for, and raises TypeError. */
  predicate RaisesAt(fetch: Fetch, n: nat) { n < MAX_PAGES && Continues(fetch, n) && PageAt(fetch, n).Unhashable? }

  ghost predicate Raises(fetch: Fetch) { exists n :: RaisesAt(fetch, n) }

  datatype Collected = Collected(tools: seq<RawTool>, ttl: nat, scope: Scope)

  /** All tools of the `n` pages of a complete listing, with the shortest lifetime. */
  predicate IsListing(fetch: Fetch, n: nat, c: Collected) {
    Complete(fetch, n) && c == Collected(ToolsOf(fetch, n), MinTtl(fetch, n), PageAt(fetch, 0).scope)
  }

  datatype Turn = Broken(error: ListError) | Last(collected: Collected, pages: nat) | More(loop: Loop)

  /** The variables of the paging loop. */
  datatype Loop = Loop(tools: seq<RawTool>, cursor: Option<Text>, seen: set<Text>, scope: Option<Scope>, ttl: nat)

  const START: Loop := Loop([], None, {}, None, 0)

  /** What the loop makes of page `n`. */
  function NextTurn(n: nat, response: Page, loop: Loop): Turn {
    if response.Unhashable? then Broken(UncaughtError)
    else if !response.Page? || (loop.scope.Some? && loop.scope.value != response.scope) then Broken(UpstreamError)
    else
      var tools := loop.tools + response.tools;
      var ttl := if n == 0 then response.ttl else Min(loop.ttl, response.ttl);
      if |tools| > MAX_TOOLS then Broken(UpstreamError)
      else if response.next == End then Last(Collected(tools, ttl, response.scope), n + 1)
      else if response.next == NotText || response.next.cursor in loop.seen then Broken(UpstreamError)
      else More(Loop(tools, Some(response.next.cursor), loop.seen + {response.next.cursor}, Some(response.scope), ttl))
  }

  /** The loop after `n` turns, as far as it got. */
  function Turns(fetch: Fetch, n: nat): Turn {
    if n == 0 then More(START)
    else match Turns(fetch, n - 1)
      case More(l) => NextTurn(n - 1, fetch(n - 1, l.cursor), l)
      case done => done
  }

  /** The paging loop of `list_tools`: it succeeds exactly on a bounded listing without repeated
      cursors, and then returns all its tools with the shortest lifetime; and an error that callers do
      not catch escapes exactly when a page it asks for has an unhashable scope. */
  method CollectPages(fetch: Fetch) returns (r: Result<Collected, ListError>, ghost n: nat)
    ensures r.Ok? <==> Completes(fetch)
    ensures r.Ok? ==> IsListing(fetch, n, r.value)
    ensures r == Err(UncaughtError) <==> Raises(fetch)
  {
    var turn, page := More(START), 0;
    while page < MAX_PAGES && turn.More?
      invariant page <= MAX_PAGES && turn == Turns(fetch, page)
    {
      turn := NextTurn(page, fetch(page, turn.loop.cursor), turn.loop);
      page := page + 1;
    }
    TurnsEnd(fetch, page, turn);
    n := if turn.Last? then turn.pages else 0;
    r := if turn.Last? then Ok(turn.collected) else Err(if turn.Broken? then turn.error else UpstreamError);
  }

  /** How the loop ends: with the complete listing, or, broken or out of pages, without any. */
  lemma TurnsEnd(fetch: Fetch, n: nat, turn: Turn)
    requires n <= MAX_PAGES && turn == Turns(fetch, n) && (turn.More? ==> n == MAX_PAGES)
    ensures turn.Last? <==> Completes(fetch)
    ensures turn.Last? ==> IsListing(fetch, turn.pages, turn.collected)
    ensures Raises(fetch) <==> turn == Broken(UncaughtError)
  {
    TurnsHold(fetch, n, turn);
    if turn.More? { NeverEnds(fetch); }
  }

  /** What is known after `n` turns. */
  ghost predicate TurnHolds(fetch: Fetch, n: nat, turn: Turn) {
    match turn
    case Broken(error) => !Completes(fetch) && (error == UncaughtError <==> Raises(fetch))
    case Last(collected, pages) => Completes(fetch) && IsListing(fetch, pages, collected) && !Raises(fetch)
    case More(l) => Paging(fetch, n, l.tools, l.cursor, l.seen, l.scope, l.ttl)
  }

  lemma {:induction false} TurnsHold(fetch: Fetch, n: nat, turn: Turn)
    requires n <= MAX_PAGES && turn == Turns(fetch, n)
    ensures TurnHolds(fetch, n, turn)
  {
    if n > 0 {
      var before := Turns(fetch, n - 1);
      TurnsHold(fetch, n - 1, before);
      TurnAfter(fetch, n - 1, before, turn);
    }
  }

  lemma TurnAfter(fetch: Fetch, n: nat, before: Turn, turn: Turn)
    requires n < MAX_PAGES && TurnHolds(fetch, n, before)
    requires turn == if before.More? then NextTurn(n, fetch(n, before.loop.cursor), before.loop) else before
    ensures TurnHolds(fetch, n + 1, turn)
  {
    if before.More? { OneTurn(fetch, n, before.loop, turn); }
  }

  lemma OneTurn(fetch: Fetch, n: nat, loop: Loop, turn: Turn)
    requires n < MAX_PAGES && Paging(fetch, n, loop.tools, loop.cursor, loop.seen, loop.scope, loop.ttl)
    requires turn == NextTurn(n, PageAt(fetch, n), loop)
    ensures TurnHolds(fetch, n + 1, turn)
  {
    match turn
    case Broken(_) => BreaksHere(fetch, n, loop);
    case Last(_, _) => LastTurn(fetch, n, loop, turn);
    case More(next) =>
      PagingNext(fetch, n, loop.tools, loop.cursor, loop.seen, loop.scope, loop.ttl);
      CursorNext(fetch, n, loop.tools, loop.cursor, loop.seen, loop.scope, loop.ttl, next.ttl);
  }

  lemma LastTurn(fetch: Fetch, n: nat, loop: Loop, turn: Turn)
    requires n < MAX_PAGES && Paging(fetch, n, loop.tools, loop.cursor, loop.seen, loop.scope, loop.ttl)
    requires turn == NextTurn(n, PageAt(fetch, n), loop) && turn.Last?
    ensures Completes(fetch) && IsListing(fetch, turn.pages, turn.collected) && !Raises(fetch)
  {
    PagingNext(fetch, n, loop.tools, loop.cursor, loop.seen, loop.scope, loop.ttl);
    assert Complete(fetch, n + 1);
    RaisesNot(fetch, n);
  }

  lemma BreaksHere(fetch: Fetch, n: nat, loop: Loop)
    requires n < MAX_PAGES && Paging(fetch, n, loop.tools, loop.cursor, loop.seen, loop.scope, loop.ttl)
    requires NextTurn(n, PageAt(fetch, n), loop).Broken?
    ensures !Completes(fetch)
    ensures NextTurn(n, PageAt(fetch, n), loop).error == UncaughtError <==> Raises(fetch)
  {
    BreaksStuck(fetch, n, loop);
    StopsHere(fetch, n);
    if PageAt(fetch, n).Unhashable? {
      assert RaisesAt(fetch, n);
    } else {
      RaisesNot(fetch, n);
    }
  }

  lemma BreaksStuck(fetch: Fetch, n: nat, loop: Loop)
    requires Paging(fetch, n, loop.tools, loop.cursor, loop.seen, loop.scope, loop.ttl)
    requires NextTurn(n, PageAt(fetch, n), loop).Broken?
    ensures Stuck(fetch, n)
  {
    var page := PageAt(fetch, n);
    if OfOneScope(fetch, n) && page.next.Cursor? && page.next.cursor in loop.seen {
      var i :| 0 <= i < n && PageAt(fetch, i).Page? && PageAt(fetch, i).next == Cursor(page.next.cursor);
    }
  }

  /** Where the listing ends or gets stuck otherwise, no page raises. */
  lemma RaisesNot(fetch: Fetch, n: nat)
    requires Continues(fetch, n) && !PageAt(fetch, n).Unhashable?
    requires Stuck(fetch, n) || (PageAt(fetch, n).Page? && PageAt(fetch, n).next == End)
    ensures !Raises(fetch)
  {
    forall k: nat ensures !RaisesAt(fetch, k) {
      if RaisesAt(fetch, k) {
        if k < n { ContinuesAt(fetch, n, k); }
        if n < k { ContinuesAt(fetch, k, n); }
      }
    }
  }

  /** The variables of the loop before page `n`. */
  ghost predicate Paging(fetch: Fetch, n: nat, tools: seq<RawTool>, cursor: Option<Text>, seen: set<Text>,
                         scope: Option<Scope>, ttl: nat) {
    && Continues(fetch, n) && cursor == CursorAt(fetch, n) && tools == ToolsOf(fetch, n)
    && SeenBefore(fetch, n, seen)
    && scope == (if n == 0 then None else Some(PageAt(fetch, 0).scope))
    && (n > 0 ==> ttl == MinTtl(fetch, n))
  }

  ghost predicate SeenBefore(fetch: Fetch, n: nat, seen: set<Text>) {
    forall c :: c in seen <==> exists i :: 0 <= i < n && PageAt(fetch, i) .Page? && PageAt(fetch, i).next == Cursor(c)
  }

  /** One page that the loop accepts. */
  lemma PagingNext(fetch: Fetch, n: nat, tools: seq<RawTool>, cursor: Option<Text>, seen: set<Text>,
                   scope: Option<Scope>, ttl: nat)
    requires Paging(fetch, n, tools, cursor, seen, scope, ttl) && OfOneScope(fetch, n)
    requires |tools + PageAt(fetch, n).tools| <= MAX_TOOLS
    ensures var page := PageAt(fetch, n);
            && (page.next == End && n < MAX_PAGES ==> Complete(fetch, n + 1))
            && tools + page.tools == ToolsOf(fetch, n + 1)
            && (if n == 0 then page.ttl else Min(ttl, page.ttl)) == MinTtl(fetch, n + 1)
  {
  }

  /** A page with a new cursor leads to the next turn. */
  lemma CursorNext(fetch: Fetch, n: nat, tools: seq<RawTool>, cursor: Option<Text>, seen: set<Text>,
                   scope: Option<Scope>, ttl: nat, ttl': nat)
    requires Paging(fetch, n, tools, cursor, seen, scope, ttl) && OfOneScope(fetch, n)
    requires tools + PageAt(fetch, n).tools == ToolsOf(fetch, n + 1) && |ToolsOf(fetch, n + 1)| <= MAX_TOOLS
    requires ttl' == MinTtl(fetch, n + 1) && PageAt(fetch, n).next.Cursor? && PageAt(fetch, n).next.cursor !in seen
    ensures var page := PageAt(fetch, n);
            Paging(fetch, n + 1, tools + page.tools, Some(page.next.cursor), seen + {page.next.cursor},
                   Some(page.scope), ttl')
  {
    NewCursor(fetch, n, seen);
    SeenNext(fetch, n, seen);
  }

  lemma OtherCursor(fetch: Fetch, n: nat, seen: set<Text>, i: nat, cursor: Text)
    requires Continues(fetch, n) && SeenBefore(fetch, n, seen) && cursor !in seen && i < n
    ensures PageAt(fetch, i).Page? && PageAt(fetch, i).next != Cursor(cursor)
  {
    ContinuesAt(fetch, n, i);
  }

  lemma NewCursor(fetch: Fetch, n: nat, seen: set<Text>)
    requires Continues(fetch, n) && SeenBefore(fetch, n, seen) && OfOneScope(fetch, n)
    requires PageAt(fetch, n).next.Cursor? && PageAt(fetch, n).next.cursor !in seen
    requires |ToolsOf(fetch, n + 1)| <= MAX_TOOLS
    ensures Continues(fetch, n + 1)
  {
    forall i | 0 <= i < n ensures PageAt(fetch, i).Page? && PageAt(fetch, i).next != PageAt(fetch, n).next {
      OtherCursor(fetch, n, seen, i, PageAt(fetch, n).next.cursor);
    }
    assert NewAt(fetch, n);
  }

  lemma SeenNext(fetch: Fetch, n: nat, seen: set<Text>)
    requires SeenBefore(fetch, n, seen) && PageAt(fetch, n).Page? && PageAt(fetch, n).next.Cursor?
    ensures SeenBefore(fetch, n + 1, seen + {PageAt(fetch, n).next.cursor})
  {
  }

  lemma NeverEnds(fetch: Fetch)
    requires Continues(fetch, MAX_PAGES)
    ensures !Completes(fetch) && !Raises(fetch)
  {
    forall k: nat ensures !RaisesAt(fetch, k) {
      if k < MAX_PAGES { ContinuesAt(fetch, MAX_PAGES, k); }
    }
    forall k: nat ensures !Complete(fetch, k) {
      if 1 <= k <= MAX_PAGES { ContinuesAt(fetch, MAX_PAGES, k - 1); }
    }
  }

  /** Page `i` makes the listing impossible to complete. */
  predicate Stuck(fetch: Fetch, i: nat) {
    || !OfOneScope(fetch, i) || |ToolsOf(fetch, i + 1)| > MAX_TOOLS || PageAt(fetch, i).next == NotText
    || (PageAt(fetch, i).next.Cursor? && exists j | 0 <= j < i :: PageAt(fetch, j).Page? && PageAt(fetch, j).next == PageAt(fetch, i).next)
  }

  lemma StopsHere(fetch: Fetch, i: nat)
    requires Continues(fetch, i) && Stuck(fetch, i)
    ensures !Completes(fetch)
  {
    forall k | Complete(fetch, k) ensures false { StopsBefore(fetch, i, k); }
  }

  lemma StopsBefore(fetch: Fetch, i: nat, k: nat)
    requires Continues(fetch, i) && Stuck(fetch, i)
    ensures !Complete(fetch, k)
  {
    if Complete(fetch, k) {
      if k - 1 < i {
        ContinuesAt(fetch, i, k - 1);
      } else if k - 1 == i {
        CompleteNotStuck(fetch, k);
      } else {
        PassesNotStuck(fetch, k - 1, i);
      }
    }
  }

  lemma PassesNotStuck(fetch: Fetch, n: nat, i: nat)
    requires Continues(fetch, n) && i < n
    ensures !Stuck(fetch, i)
  {
    ContinuesAt(fetch, n, i);
  }

  lemma CompleteNotStuck(fetch: Fetch, k: nat)
    requires Complete(fetch, k)
    ensures !Stuck(fetch, k - 1)
  {
  }

  lemma {:induction false} ContinuesAt(fetch: Fetch, n: nat, i: nat)
    requires Continues(fetch, n) && i < n
    ensures OfOneScope(fetch, i) && PageAt(fetch, i).next.Cursor? && NewAt(fetch, i) && |ToolsOf(fetch, i + 1)| <= MAX_TOOLS
  {
    if i < n - 1 { ContinuesAt(fetch, n - 1, i); }
  }

  // ---------- the choice of tools ----------

  type Checker = Json -> Check

  predicate Fits(tool: RawTool) {
    && tool.Tool? && tool.name != [] && Encodable(tool.name) && |EncodeAll(tool.name)| <= ToolNames.NAME_LIMIT
    && tool.schema.Some?
  }

  /** A tool whose name has no UTF-8 form, or whose schema makes validation itself fail, ends the
      whole listing with an error the client does not catch. */
  predicate Breaks(tool: RawTool, check: Checker) {
    (tool.Tool? && tool.name != [] && !Encodable(tool.name)) || (Fits(tool) && check(tool.schema.value) == Uncaught)
  }

  predicate Kept(tool: RawTool, check: Checker) { Fits(tool) && check(tool.schema.value) == Fine }

  /** A kept tool as the upstream sent it. */
  datatype Offer = Offer(name: Text, schema: Json)

  function KeptTools(tools: seq<RawTool>, check: Checker): seq<Offer> {
    if tools == [] then []
    else
      var t := tools[|tools| - 1];
      KeptTools(tools[..|tools| - 1], check) + (if Kept(t, check) then [Offer(t.name, t.schema.value)] else [])
  }

  predicate NamesDistinct(kept: seq<Offer>) { forall i, j | 0 <= i < j < |kept| :: kept[i].name != kept[j].name }

  predicate Named(kept: seq<Offer>, n: Text) { exists i :: 0 <= i < |kept| && kept[i].name == n }

  /** A tool as the Hub advertises it. */
  datatype Advertised = Advertised(name: Text, schema: Json)

  datatype Selection = Selection(schemas: map<Text, Json>, safe: seq<Advertised>)

  /** The selection holds the kept tools in order: their schemas as sent, and stripped for clients. */
  ghost predicate Selects(s: Selection, kept: seq<Offer>) {
    && |s.safe| == |kept|
    && (forall i | 0 <= i < |kept| :: s.safe[i] == Advertised(kept[i].name, Strip(kept[i].schema)))
    && (forall n :: n in s.schemas <==> Named(kept, n))
    && (forall i | 0 <= i < |kept| :: kept[i].name in s.schemas && s.schemas[kept[i].name] == kept[i].schema)
  }

  /** The first breaking tool is met before any kept name repeats. */
  predicate BreaksFirst(tools: seq<RawTool>, i: nat, check: Checker) {
    i < |tools| && Breaks(tools[i], check) && NamesDistinct(KeptTools(tools[..i], check))
  }

  predicate BreaksBeforeClash(tools: seq<RawTool>, check: Checker) {
    exists i: nat :: i < |tools| && BreaksFirst(tools, i, check)
  }

  predicate NoneBreaks(tools: seq<RawTool>, check: Checker) { forall i | 0 <= i < |tools| :: !Breaks(tools[i], check) }

  predicate Selectable(tools: seq<RawTool>, check: Checker) {
    NoneBreaks(tools, check) && NamesDistinct(KeptTools(tools, check))
  }

  /** The selection made from the first `i` tools. */
  ghost predicate Selecting(tools: seq<RawTool>, i: nat, check: Checker, s: Selection)
    requires i <= |tools|
  {
    && (forall k | 0 <= k < i :: !Breaks(tools[k], check))
    && NamesDistinct(KeptTools(tools[..i], check)) && Selects(s, KeptTools(tools[..i], check))
  }

  /** A tool that is not kept. */
  lemma SelectingSkip(tools: seq<RawTool>, i: nat, check: Checker, s: Selection)
    requires i < |tools| && Selecting(tools, i, check, s) && !Breaks(tools[i], check) && !Kept(tools[i], check)
    ensures Selecting(tools, i + 1, check, s)
  {
    KeptNext(tools, i, check);
    assert KeptTools(tools[..i], check) + [] == KeptTools(tools[..i], check);
  }

  /** A kept tool with a new name. */
  lemma SelectingAdd(tools: seq<RawTool>, i: nat, check: Checker, s: Selection, offer: Offer)
    requires i < |tools| && Selecting(tools, i, check, s) && !Breaks(tools[i], check) && Kept(tools[i], check)
    requires offer == Offer(tools[i].name, tools[i].schema.value) && offer.name !in s.schemas
    ensures Selecting(tools, i + 1, check, Add(s, offer))
  {
    KeptNext(tools, i, check);
    SelectsNext(s, KeptTools(tools[..i], check), offer);
  }

  /** A kept tool whose name is taken: from here on the kept names repeat. */
  lemma SelectingClash(tools: seq<RawTool>, i: nat, check: Checker, s: Selection, offer: Offer)
    requires i < |tools| && Selecting(tools, i, check, s) && Kept(tools[i], check)
    requires offer == Offer(tools[i].name, tools[i].schema.value) && offer.name in s.schemas
    ensures !NamesDistinct(KeptTools(tools, check)) && !BreaksBeforeClash(tools, check)
  {
    var kept := KeptTools(tools[..i], check);
    TakenName(s, kept, offer.name);
    KeptNotBreaks(tools[i], check);
    KeptNext(tools, i, check);
    ClashFirst(tools, i, check, kept, offer);
  }

  lemma TakenName(s: Selection, kept: seq<Offer>, name: Text)
    requires Selects(s, kept) && name in s.schemas
    ensures Named(kept, name)
  {
  }

  lemma KeptNotBreaks(tool: RawTool, check: Checker)
    requires Kept(tool, check)
    ensures !Breaks(tool, check)
  {
  }

  lemma ClashFirst(tools: seq<RawTool>, i: nat, check: Checker, kept: seq<Offer>, offer: Offer)
    requires i < |tools| && KeptTools(tools[..i + 1], check) == kept + [offer] && Named(kept, offer.name)
    requires forall k | 0 <= k <= i :: !Breaks(tools[k], check)
    ensures !NamesDistinct(KeptTools(tools, check)) && !BreaksBeforeClash(tools, check)
  {
    assert tools[..|tools|] == tools;
    ClashStays(tools, i, |tools|, check, kept, offer);
    forall j: nat | j < |tools| ensures !BreaksFirst(tools, j, check) {
      if j > i { ClashStays(tools, i, j, check, kept, offer); }
    }
  }

  lemma ClashStays(tools: seq<RawTool>, i: nat, j: nat, check: Checker, kept: seq<Offer>, offer: Offer)
    requires i < j <= |tools| && KeptTools(tools[..i + 1], check) == kept + [offer] && Named(kept, offer.name)
    ensures !NamesDistinct(KeptTools(tools[..j], check))
  {
    assert tools[..j][..i + 1] == tools[..i + 1];
    KeptPrefix(tools[..j], i + 1, check);
    NotDistinct(KeptTools(tools[..j], check), kept, offer);
  }

  lemma SelectingAll(tools: seq<RawTool>, check: Checker, s: Selection)
    requires Selecting(tools, |tools|, check, s)
    ensures NoneBreaks(tools, check) && NamesDistinct(KeptTools(tools, check)) && Selects(s, KeptTools(tools, check))
  {
    assert tools[..|tools|] == tools;
  }

  /** The tests that the tool loop makes of one tool, in its order. */
  method Judge(tool: RawTool, check: Checker) returns (kept: bool, breaks: bool)
    ensures kept <==> Kept(tool, check)
    ensures breaks <==> Breaks(tool, check)
  {
    if !tool.Tool? || tool.name == [] { return false, false; }
    if !Encodable(tool.name) { return false, true; }
    if |EncodeAll(tool.name)| > 160 || tool.schema.None? { return false, false; }
    var verdict := check(tool.schema.value);
    return verdict == Fine, verdict == Uncaught;
  }

  /** The tool loop of `list_tools`: it fails exactly on a breaking tool or a repeated name, whichever
      it meets first. */
  method SelectTools(tools: seq<RawTool>, check: Checker) returns (r: Result<Selection, ListError>)
    ensures r == Err(UncaughtError) <==> BreaksBeforeClash(tools, check)
    ensures r.Ok? <==> Selectable(tools, check)
    ensures r.Ok? ==> Selects(r.value, KeptTools(tools, check))
  {
    var s := Selection(map[], []);
    assert tools[..0] == [];
    for i := 0 to |tools|
      invariant Selecting(tools, i, check, s)
    {
      var tool := tools[i];
      var kept, breaks := Judge(tool, check);
      if breaks {
        assert BreaksFirst(tools, i, check);
        return Err(UncaughtError);
      }
      if kept {
        var offer := Offer(tool.name, tool.schema.value);
        if tool.name in s.schemas {
          SelectingClash(tools, i, check, s, offer);
          return Err(UpstreamError);
        }
        SelectingAdd(tools, i, check, s, offer);
        s := Add(s, offer);
      } else {
        SelectingSkip(tools, i, check, s);
      }
    }
    SelectingAll(tools, check, s);
    return Ok(s);
  }

  function Add(s: Selection, offer: Offer): Selection {
    Selection(s.schemas[offer.name := offer.schema], s.safe + [Advertised(offer.name, Strip(offer.schema))])
  }

  lemma KeptNext(tools: seq<RawTool>, i: nat, check: Checker)
    requires i < |tools|
    ensures KeptTools(tools[..i + 1], check) ==
            KeptTools(tools[..i], check)
            + (if Kept(tools[i], check) then [Offer(tools[i].name, tools[i].schema.value)] else [])
  {
    assert tools[..i + 1][..i] == tools[..i];
  }

  lemma {:induction false} KeptPrefix(tools: seq<RawTool>, i: nat, check: Checker)
    requires i <= |tools|
    ensures KeptTools(tools[..i], check) <= KeptTools(tools, check)
  {
    if i == |tools| {
      assert tools[..i] == tools;
    } else {
      KeptPrefix(tools[..|tools| - 1], i, check);
      assert tools[..|tools| - 1][..i] == tools[..i];
    }
  }

  lemma NotDistinct(all: seq<Offer>, kept: seq<Offer>, offer: Offer)
    requires kept + [offer] <= all && Named(kept, offer.name)
    ensures !NamesDistinct(all)
  {
    var k :| 0 <= k < |kept| && kept[k].name == offer.name;
    assert all[k] == (kept + [offer])[k] && all[|kept|] == (kept + [offer])[|kept|];
  }

  lemma SelectsNext(s: Selection, kept: seq<Offer>, offer: Offer)
    requires Selects(s, kept) && offer.name !in s.schemas && NamesDistinct(kept)
    ensures NamesDistinct(kept + [offer]) && Selects(Add(s, offer), kept + [offer])
  {
    var more := kept + [offer];
    assert !Named(kept, offer.name);
    forall i | 0 <= i < |kept| ensures more[i] == kept[i] && more[i].name != offer.name { }
    assert more[|kept|] == offer;
    forall n ensures Named(more, n) <==> Named(kept, n) || n == offer.name {
      if Named(kept, n) {
        var i :| 0 <= i < |kept| && kept[i].name == n;
        assert more[i].name == n;
      }
    }
  }

  lemma {:induction false} KeptFit(tools: seq<RawTool>, check: Checker, i: nat)
    requires i < |KeptTools(tools, check)|
    ensures var o := KeptTools(tools, check)[i]; Fits(Tool(o.name, Some(o.schema)))
  {
    var before := KeptTools(tools[..|tools| - 1], check);
    if i < |before| {
      KeptFit(tools[..|tools| - 1], check, i);
      assert KeptTools(tools, check)[i] == before[i];
    }
  }

  /** What the Hub relies on: the advertised names of one upstream are usable and distinct. */
  lemma AdvertisedNames(s: Selection, tools: seq<RawTool>, check: Checker, names: seq<Text>)
    requires Selects(s, KeptTools(tools, check)) && NamesDistinct(KeptTools(tools, check))
    requires |names| == |s.safe| && forall i | 0 <= i < |names| :: names[i] == s.safe[i].name
    ensures ToolNames.RemoteNames(names)
  {
    forall i | 0 <= i < |names|
      ensures names[i] != [] && Encodable(names[i]) && |EncodeAll(names[i])| <= ToolNames.NAME_LIMIT
    {
      KeptFit(tools, check, i);
    }
  }

  // ---------- the cache ----------

  /** The cache context: `public`, or the fingerprint of a credential, where no credential counts
      as the empty one. */
  datatype Context = Public | Private(token: Text)

  function PrivateContext(token: Option<Text>): Context { Private(if token.Some? then token.value else []) }

  datatype CacheKey = CacheKey(upstream: nat, context: Context, name: Text)

  datatype Cached = Cached(expires: real, schema: Json)

  /** One installed listing, and what it advertised. */
  datatype Installed = Installed(upstream: nat, context: Context, expires: real, schemas: map<Text, Json>,
                                 advertised: seq<Advertised>)

  predicate AdvertisedAs(listing: Installed, name: Text) {
    exists i :: 0 <= i < |listing.advertised| && listing.advertised[i].name == name
  }

  /** A listing whose schemas passed `check` and are those it advertised, stripped. */
  predicate Consistent(listing: Installed, check: Checker) {
    && (forall n | n in listing.schemas :: check(listing.schemas[n]) == Fine && AdvertisedAs(listing, n))
    && (forall i | 0 <= i < |listing.advertised| ::
          listing.advertised[i].name in listing.schemas
          && listing.advertised[i].schema == Strip(listing.schemas[listing.advertised[i].name]))
  }

  predicate AllConsistent(installs: seq<Installed>, check: Checker) {
    forall i | 0 <= i < |installs| :: Consistent(installs[i], check)
  }

  lemma ConsistentAppend(before: seq<Installed>, after: seq<Installed>, check: Checker)
    requires |after| == |before| + 1 && after[..|before|] == before && Consistent(after[|before|], check)
    ensures AllConsistent(before, check) ==> AllConsistent(after, check)
  {
    forall i | 0 <= i < |before| ensures after[i] == before[i] { assert after[..|before|][i] == before[i]; }
  }

  lemma {:induction false} KeptChecked(tools: seq<RawTool>, check: Checker)
    ensures forall i | 0 <= i < |KeptTools(tools, check)| :: check(KeptTools(tools, check)[i].schema) == Fine
  {
    if tools != [] { KeptChecked(tools[..|tools| - 1], check); }
  }

  lemma SelectedConsistent(listing: Installed, tools: seq<RawTool>, check: Checker, kept: seq<Offer>)
    requires kept == KeptTools(tools, check) && Selects(Selection(listing.schemas, listing.advertised), kept)
    ensures Consistent(listing, check)
  {
    KeptChecked(tools, check);
    forall n | n in listing.schemas ensures check(listing.schemas[n]) == Fine && AdvertisedAs(listing, n) {
      var i :| 0 <= i < |kept| && kept[i].name == n;
      assert listing.advertised[i].name == n;
    }
  }

  /** The most recent listing installed for an upstream. */
  function Latest(installs: seq<Installed>, upstream: nat): (r: Option<Installed>)
    ensures r.Some? ==> r.value in installs && r.value.upstream == upstream
  {
    if installs == [] then None
    else if installs[|installs| - 1].upstream == upstream then Some(installs[|installs| - 1])
    else Latest(installs[..|installs| - 1], upstream)
  }

  /** What the most recent listing of its upstream says about a key. */
  function Expected(installs: seq<Installed>, key: CacheKey): Option<Cached> {
    match Latest(installs, key.upstream)
    case None => None
    case Some(listing) =>
      if key.context == listing.context && key.name in listing.schemas
      then Some(Cached(listing.expires, listing.schemas[key.name])) else None
  }

  lemma ExpectedAfter(installs: seq<Installed>, listing: Installed, key: CacheKey)
    ensures Expected(installs + [listing], key) ==
            if key.upstream != listing.upstream then Expected(installs, key)
            else if key.context == listing.context && key.name in listing.schemas
            then Some(Cached(listing.expires, listing.schemas[key.name])) else None
  {
    assert (installs + [listing])[..|installs|] == installs;
  }

  class UpstreamClient {
    var cache: map<CacheKey, Cached>
    ghost var installs: seq<Installed>

    constructor ()
      ensures Valid() && installs == []
    {
      cache := map[];
      installs := [];
    }

    /** The cache is exactly the most recent listing of every upstream. */
    ghost predicate Valid()
      reads this
    {
      forall key: CacheKey :: Get(key) == Expected(installs, key)
    }

    function Get(key: CacheKey): Option<Cached>
      reads this
    {
      if key in cache then Some(cache[key]) else None
    }

    /** `list_tools` of the client: an error leaves the cache alone; success replaces all entries of
        the upstream by those of this listing. */
    method ListTools(upstream: nat, token: Option<Text>, fetch: Fetch, check: Checker, now: real)
      returns (r: Result<seq<Advertised>, ListError>, ghost n: nat)
      requires Valid()
      modifies this
      ensures Valid()
      ensures Completes(fetch) ==> Complete(fetch, n)
      ensures r.Ok? <==> Completes(fetch) && Selectable(ToolsOf(fetch, n), check)
      ensures r == Err(UncaughtError) <==>
                Raises(fetch) || (Completes(fetch) && BreaksBeforeClash(ToolsOf(fetch, n), check))
      ensures r.Err? ==> cache == old(cache) && installs == old(installs)
      ensures r.Ok? ==> |installs| == |old(installs)| + 1 && installs[..|old(installs)|] == old(installs)
      ensures r.Ok? ==>
                var kept, listing := KeptTools(ToolsOf(fetch, n), check), installs[|old(installs)|];
                && Selects(Selection(listing.schemas, r.value), kept) && NamesDistinct(kept)
                && listing.advertised == r.value && Consistent(listing, check)
                && listing.upstream == upstream
                && listing.context == (if PageAt(fetch, 0).scope == PublicScope then Public else PrivateContext(token))
                && listing.expires == now + Min(MAX_TTL, MinTtl(fetch, n)) as real / 1000.0
                && now <= listing.expires <= now + 300.0
    {
      var collected, pages := CollectPages(fetch);
      n := pages;
      if collected.Err? { return Err(collected.error), n; }
      var ttl := Min(MAX_TTL, collected.value.ttl);
      var expires := now + ttl as real / 1000.0;
      var context := if collected.value.scope == PublicScope then Public else PrivateContext(token);
      var selection := SelectTools(collected.value.tools, check);
      if selection.Err? { return Err(selection.error), n; }
      var listing := Installed(upstream, context, expires, selection.value.schemas, selection.value.safe);
      SelectedConsistent(listing, collected.value.tools, check, KeptTools(collected.value.tools, check));
      Install(listing);
      return Ok(selection.value.safe), n;
    }

    /** The locked region at the end of `list_tools`. */
    method Install(listing: Installed)
      requires Valid()
      modifies this
      ensures Valid() && installs == old(installs) + [listing]
    {
      var others := map key | key in cache && key.upstream != listing.upstream :: cache[key];
      cache := others;
      var names := listing.schemas.Keys;
      while names != {}
        invariant names <= listing.schemas.Keys && installs == old(installs)
        invariant forall key :: Get(key) ==
                    if key.upstream != listing.upstream then old(Get(key))
                    else if key.context == listing.context && key.name in listing.schemas && key.name !in names
                    then Some(Cached(listing.expires, listing.schemas[key.name])) else None
        decreases names
      {
        var name :| name in names;
        cache := cache[CacheKey(listing.upstream, listing.context, name) := Cached(listing.expires, listing.schemas[name])];
        names := names - {name};
      }
      installs := installs + [listing];
      forall key: CacheKey ensures Get(key) == Expected(installs, key) {
        ExpectedAfter(old(installs), listing, key);
      }
    }

    /** `_cached_schema`: it finds a schema exactly when the most recent listing of the upstream has
        one under this name, the listing is public or was fetched with this very credential, and it
        has not expired or staleness is allowed. */
    method CachedSchema(upstream: nat, name: Text, token: Option<Text>, allowStale: bool, now: real)
      returns (r: Option<Json>)
      requires Valid()
      ensures r == Lookup(installs, upstream, name, token, allowStale, now)
    {
      var cached := Get(CacheKey(upstream, PrivateContext(token), name));
      if cached.None? {
        cached := Get(CacheKey(upstream, Public, name));
      }
      if cached.None? { return None; }
      if !allowStale && cached.value.expires <= now { return None; }
      return Some(cached.value.schema);
    }

    /** How `call_tool` of the client gets its schema. */
    method SchemaForCall(upstream: nat, name: Text, token: Option<Text>, fetch: Fetch, check: Checker,
                         before: real, listed: real, after: real)
      returns (r: Result<Json, ListError>)
      requires Valid()
      modifies this
      ensures Valid()
      ensures old(installs) <= installs && |installs| <= |old(installs)| + 1
      ensures old(AllConsistent(installs, check)) ==> AllConsistent(installs, check)
      ensures r.Ok? ==> Lookup(installs, upstream, name, token, true, after) == Some(r.value)
      ensures var cached := Lookup(old(installs), upstream, name, token, false, before);
              if cached.Some? then r == Ok(cached.value) && installs == old(installs)
              else if !Lists(fetch, check) then r.Err? && installs == old(installs)
              else |installs| == |old(installs)| + 1 && installs[|old(installs)|].upstream == upstream
                   && r == match Lookup(installs, upstream, name, token, true, after)
                           case Some(schema) => Ok(schema)
                           case None => Err(UpstreamError)
    {
      var schema := CachedSchema(upstream, name, token, false, before);
      if schema.None? {
        var tools, n := ListTools(upstream, token, fetch, check, listed);
        ListsWhen(fetch, check, n, tools.Ok?);
        if tools.Err? { return Err(tools.error); }
        ConsistentAppend(old(installs), installs, check);
        schema := CachedSchema(upstream, name, token, true, after);
      }
      if schema.None? { return Err(UpstreamError); }
      return Ok(schema.value);
    }
  }

  /** A listing can be fetched and its tools be selected. */
  ghost predicate Lists(fetch: Fetch, check: Checker) { exists n :: Complete(fetch, n) && Selectable(ToolsOf(fetch, n), check) }

  /** A listing is complete at one place only. */
  lemma ListsWhen(fetch: Fetch, check: Checker, n: nat, works: bool)
    requires Completes(fetch) ==> Complete(fetch, n)
    requires works <==> Completes(fetch) && Selectable(ToolsOf(fetch, n), check)
    ensures works <==> Lists(fetch, check)
  {
    forall k: nat | Complete(fetch, k) && Complete(fetch, n) ensures k == n { CompleteOnce(fetch, k, n); }
  }

  lemma CompleteOnce(fetch: Fetch, k: nat, n: nat)
    requires Complete(fetch, k) && Complete(fetch, n)
    ensures k == n
  {
    if k < n { ContinuesAt(fetch, n - 1, k - 1); }
    if n < k { ContinuesAt(fetch, k - 1, n - 1); }
  }

  predicate Visible(context: Context, token: Option<Text>) { context == Public || context == PrivateContext(token) }

  /** What a lookup answers, read off the history of installed listings. */
  function Lookup(installs: seq<Installed>, upstream: nat, name: Text, token: Option<Text>, allowStale: bool, now: real): Option<Json> {
    match Latest(installs, upstream)
    case None => None
    case Some(listing) =>
      if Visible(listing.context, token) && name in listing.schemas && (allowStale || now < listing.expires)
      then Some(listing.schemas[name]) else None
  }
}
