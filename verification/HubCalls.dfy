/** `call_tool` of the Hub: rate limit, grant, routing, continuation, DISPATCH row, execution. */
module HubCalls {
  import opened Wrappers
  import opened Utf8
  import opened ToolNames
  import opened Continuations
  import opened RateLimit
  import opened Seqs

  datatype Class = RateLimited | Forbidden | InvalidArguments | Dispatch | UnknownTool | UnknownUpstream

  /** What a call does to the world: audit rows that became durable, and executions of a tool. */
  datatype Event = Row(kind: Class) | Ran(target: Target, state: Option<State>)

  datatype Outcome = Answered | ToolError | NotGranted | Limited | NoSuchTool | Degraded | AuditFailed

  datatype Request = Request(principal: nat, name: Text, arguments: nat, inputResponses: bool, requestState: Option<Handle>)

  datatype Reply = Failed | Complete | InputRequired(state: Option<State>)

  /** How the upstream client behaves: it stops before the dispatch callback, or sends the call. */
  datatype Client = FailsBefore | RefusesBefore | Sends(reply: Reply)

  /** Everything outside the Hub that one call meets: whether the audit row can be written, whether
      a local tool's schema accepts the arguments, the secret, the client, the clock, the fresh handle. */
  datatype Env = Env(started: real, auditWorks: bool, argumentsValid: bool, secretWorks: bool, client: Client,
                     takeAt: real, storeAt: real, handle: Handle)

  /** What an admitted and granted call needs in order to be executed. */
  predicate MayRun(local: seq<Text>, upstreams: seq<Upstream>, q: Request, env: Env, table: Table) {
    && env.auditWorks
    && match Resolve(local, upstreams, q.name)
       case Local => !q.inputResponses && q.requestState.None? && env.argumentsValid
       case Remote(i, r) =>
         && !q.inputResponses && env.secretWorks && env.client.Sends? && i < |upstreams|
         && (q.requestState.Some? ==> Taken(q, upstreams[i].id, env, table).0.Some?)
       case _ => false
  }

  /** Executions go where the name resolves to, and pass on the state that was taken for this caller. */
  predicate RanRight(events: seq<Event>, local: seq<Text>, upstreams: seq<Upstream>, q: Request, env: Env, table: Table) {
    forall e | e in events && e.Ran? :: e.target == Resolve(local, upstreams, q.name) &&
      (e.target.Remote? ==> e.target.upstream < |upstreams|
                            && e.state == Taken(q, upstreams[e.target.upstream].id, env, table).0)
  }

  function CallerOf(q: Request, upstream: nat): Caller { Caller(q.principal, upstream, q.name, q.arguments) }

  /** `_take_continuation`, when the request carries a state. */
  function Taken(q: Request, upstream: nat, env: Env, table: Table): (Option<State>, Table) {
    match q.requestState
    case None => (None, table)
    case Some(h) => TakeAt(table, env.takeAt, h, CallerOf(q, upstream))
  }

  /** At most one execution, directly behind its own durable DISPATCH row. */
  predicate Disciplined(events: seq<Event>) {
    && (forall j | 0 <= j < |events| && events[j].Ran? :: j > 0 && events[j - 1] == Row(Dispatch))
    && (forall j, k | 0 <= j < k < |events| :: !(events[j].Ran? && events[k].Ran?))
  }

  predicate Runs(events: seq<Event>) { exists e :: e in events && e.Ran? }

  // ---------- what a call answers ----------

  /** A refusal has one audit row, and fails when that cannot be written. */
  function Refusal(env: Env, outcome: Outcome, kind: Class): (Outcome, seq<Event>) {
    if env.auditWorks then (outcome, [Row(kind)]) else (AuditFailed, [])
  }

  function LocalAnswer(q: Request, env: Env): (Outcome, seq<Event>) {
    if q.inputResponses || q.requestState.Some? || !env.argumentsValid then Refusal(env, ToolError, InvalidArguments)
    else if !env.auditWorks then (AuditFailed, [])
    else (Answered, [Row(Dispatch), Ran(Local, None)])
  }

  function RemoteAnswer(target: Target, upstream: nat, q: Request, env: Env, table: Table): (Outcome, seq<Event>) {
    var taken := Taken(q, upstream, env, table).0;
    if q.inputResponses || (q.requestState.Some? && taken.None?) then Refusal(env, ToolError, InvalidArguments)
    else if !env.secretWorks || env.client.FailsBefore? then (Degraded, [])
    else if env.client.RefusesBefore? then (ToolError, [])
    else if !env.auditWorks then (AuditFailed, [])
    else (if env.client.reply.Complete? || AsksBack(env) then Answered else Degraded, [Row(Dispatch), Ran(target, taken)])
  }

  /** The answer to a granted call. */
  function Answer(local: seq<Text>, upstreams: seq<Upstream>, q: Request, env: Env, table: Table): (Outcome, seq<Event>) {
    match Resolve(local, upstreams, q.name)
    case Local => LocalAnswer(q, env)
    case UnknownTool => Refusal(env, NoSuchTool, Class.UnknownTool)
    case UnknownUpstream => Refusal(env, NoSuchTool, Class.UnknownUpstream)
    case Remote(i, r) => if i < |upstreams| then RemoteAnswer(Remote(i, r), upstreams[i].id, q, env, table) else (Degraded, [])
  }

  lemma LocalRight(q: Request, env: Env)
    ensures var events := LocalAnswer(q, env).1;
            && Disciplined(events) && (forall e | e in events && e.Ran? :: e == Ran(Local, None))
            && (Runs(events) <==> env.auditWorks && !q.inputResponses && q.requestState.None? && env.argumentsValid)
  {
    if env.auditWorks && !q.inputResponses && q.requestState.None? && env.argumentsValid {
      assert LocalAnswer(q, env).1[1].Ran?;
    }
  }

  lemma RemoteRight(target: Target, upstream: nat, q: Request, env: Env, table: Table)
    ensures var events := RemoteAnswer(target, upstream, q, env, table).1;
            && Disciplined(events)
            && (forall e | e in events && e.Ran? :: e == Ran(target, Taken(q, upstream, env, table).0))
            && (Runs(events) <==>
                  && env.auditWorks && !q.inputResponses && env.secretWorks && env.client.Sends?
                  && (q.requestState.Some? ==> Taken(q, upstream, env, table).0.Some?))
  {
    var events := RemoteAnswer(target, upstream, q, env, table).1;
    if |events| == 2 { assert events[1].Ran?; }
  }

  /** A granted call executes at most once, behind its DISPATCH row, exactly when nothing stands in its way,
      and forwards the state that was taken for it. */
  lemma AnswerRight(local: seq<Text>, upstreams: seq<Upstream>, q: Request, env: Env, table: Table)
    ensures var events := Answer(local, upstreams, q, env, table).1;
            && Disciplined(events) && (Runs(events) <==> MayRun(local, upstreams, q, env, table))
            && RanRight(events, local, upstreams, q, env, table)
            && (forall e | e in events && e.Ran? && e.target == Local :: e.state.None?)
  {
    match Resolve(local, upstreams, q.name)
    case Local => LocalRight(q, env);
    case Remote(i, r) => if i < |upstreams| { RemoteRight(Remote(i, r), upstreams[i].id, q, env, table); }
    case _ =>
  }

  lemma AnswerReported(local: seq<Text>, upstreams: seq<Upstream>, q: Request, env: Env, table: Table, scopes: seq<Text>)
    ensures var (outcome, events) := Answer(local, upstreams, q, env, table);
            outcome != Outcome.Limited && outcome != NotGranted && Reported(outcome, events, true, scopes, local, upstreams, q, env)
  {
    match Resolve(local, upstreams, q.name)
    case Local => LocalRight(q, env);
    case Remote(i, r) =>
      if i < |upstreams| { RemoteRight(Remote(i, r), upstreams[i].id, q, env, table); } else { ResolvedName(local, upstreams, q.name); }
    case _ =>
  }

  // ---------- what a call leaves of the continuations ----------

  /** The upstream answered with a state for the next call. */
  predicate AsksBack(env: Env) { env.client.Sends? && env.client.reply.InputRequired? && env.client.reply.state.Some? }

  /** The table after a granted call: a federated one takes what it names, and stores what came back. */
  function TableAfter(local: seq<Text>, upstreams: seq<Upstream>, q: Request, env: Env, ran: bool, table: Table): Table {
    match Resolve(local, upstreams, q.name)
    case Remote(i, _) =>
      if q.inputResponses || i >= |upstreams| then table
      else
        var rest := Taken(q, upstreams[i].id, env, table).1;
        if ran && AsksBack(env)
        then StoreAt(rest, env.storeAt, env.handle, CallerOf(q, upstreams[i].id), env.client.reply.state.value) else rest
    case _ => table
  }

  /** The same as calls of the table. */
  function Moves(local: seq<Text>, upstreams: seq<Upstream>, q: Request, env: Env, ran: bool): seq<Continuations.Call> {
    match Resolve(local, upstreams, q.name)
    case Remote(i, _) =>
      if q.inputResponses || i >= |upstreams| then []
      else
        var caller := CallerOf(q, upstreams[i].id);
        (if q.requestState.Some? then [Take(env.takeAt, q.requestState.value, caller)] else [])
        + (if ran && AsksBack(env) then [Store(env.storeAt, env.handle, caller, env.client.reply.state.value)] else [])
    case _ => []
  }

  /** The table after a list of its calls. */
  function Moved(table: Table, moves: seq<Continuations.Call>): Table {
    Folded(Step, table, moves)
  }

  lemma MovedTwice(table: Table, first: seq<Continuations.Call>, then_: seq<Continuations.Call>)
    ensures Moved(table, first + then_) == Moved(Moved(table, first), then_)
  {
    FoldedTwice(Step, table, first, then_);
  }

  lemma MovesMake(local: seq<Text>, upstreams: seq<Upstream>, q: Request, env: Env, ran: bool, table: Table)
    ensures Moved(table, Moves(local, upstreams, q, env, ran)) == TableAfter(local, upstreams, q, env, ran, table)
  {
    match Resolve(local, upstreams, q.name)
    case Remote(i, _) =>
      if !q.inputResponses && i < |upstreams| {
        var caller := CallerOf(q, upstreams[i].id);
        var first := if q.requestState.Some? then [Take(env.takeAt, q.requestState.value, caller)] else [];
        var next := if ran && AsksBack(env) then [Store(env.storeAt, env.handle, caller, env.client.reply.state.value)] else [];
        MovedTwice(table, first, next);
        MovedOne(table, first);
        MovedOne(Moved(table, first), next);
      }
    case _ =>
  }

  lemma MovedOne(table: Table, moves: seq<Continuations.Call>)
    requires |moves| <= 1
    ensures Moved(table, moves) == if moves == [] then table else Step(table, moves[0])
  {
    if moves != [] {
      assert moves[..|moves| - 1] == [];
      assert Moved(table, []) == table;
      assert Moved(table, moves) == Step(Moved(table, []), moves[0]);
    }
  }

  /** One finished call, as the history keeps it, with its calls of the continuation table. */
  datatype Call = Call(attempt: Attempt, events: seq<Event>, moves: seq<Continuations.Call>)

  /** All calls of the continuation table. */
  function AllMoves(calls: seq<Call>): seq<Continuations.Call> {
    if calls == [] then [] else AllMoves(calls[..|calls| - 1]) + calls[|calls| - 1].moves
  }

  /** A state that a call forwards was delivered to this very call. */
  predicate Honest(call: Call, table: Table) {
    forall e | e in call.events && e.Ran? && e.state.Some? ::
      call.moves != [] && call.moves[0].Take? && Delivery(table, call.moves[0]) == e.state
  }

  predicate AllHonest(calls: seq<Call>) {
    calls == []
    || (AllHonest(calls[..|calls| - 1]) && Honest(calls[|calls| - 1], Moved([], AllMoves(calls[..|calls| - 1]))))
  }

  lemma {:induction false} HonestAt(calls: seq<Call>, k: nat)
    requires AllHonest(calls) && k < |calls|
    ensures Honest(calls[k], Moved([], AllMoves(calls[..k])))
  {
    var before := calls[..|calls| - 1];
    if k < |before| {
      HonestAt(before, k);
      assert before[..k] == calls[..k];
    }
  }

  /** The table is what the calls of the history made of it, and forwarded states came out of it. */
  predicate Linked(table: Table, calls: seq<Call>) { table == Moved([], AllMoves(calls)) && AllHonest(calls) }

  lemma LinkedNext(table: Table, calls: seq<Call>, call: Call, after: Table)
    requires Linked(table, calls) && Honest(call, table) && after == Moved(table, call.moves)
    ensures Linked(after, calls + [call])
  {
    var all := calls + [call];
    assert all[..|calls|] == calls;
    MovedTwice([], AllMoves(calls), call.moves);
  }

  lemma ForwardsHonestly(local: seq<Text>, upstreams: seq<Upstream>, q: Request, env: Env, table: Table, call: Call)
    requires RanRight(call.events, local, upstreams, q, env, table)
    requires forall e | e in call.events && e.Ran? && e.target == Local :: e.state.None?
    requires Runs(call.events) ==> MayRun(local, upstreams, q, env, table)
    requires call.moves == Moves(local, upstreams, q, env, Runs(call.events))
    ensures Honest(call, table)
  {
    forall e | e in call.events && e.Ran? && e.state.Some?
      ensures call.moves != [] && call.moves[0].Take? && Delivery(table, call.moves[0]) == e.state
    {
      assert Runs(call.events);
      assert e.target == Resolve(local, upstreams, q.name);
    }
  }

  function Attempts(calls: seq<Call>): (r: seq<Attempt>)
    ensures |r| == |calls| && forall k | 0 <= k < |r| :: r[k] == calls[k].attempt
  {
    seq(|calls|, k requires 0 <= k < |calls| => calls[k].attempt)
  }

  /** The call is executed exactly when it was admitted, is granted, and nothing stands in its way. */
  predicate Served(events: seq<Event>, admitted: bool, scopes: seq<Text>, local: seq<Text>, upstreams: seq<Upstream>,
                   q: Request, env: Env, table: Table) {
    && (Runs(events) <==> (admitted && Allows(scopes, q.name) && MayRun(local, upstreams, q, env, table)))
    && RanRight(events, local, upstreams, q, env, table)
  }

  /** Each outcome with its rows: a refusal has its one row, an answer its execution, and a failed
      audit neither. */
  predicate Reported(outcome: Outcome, events: seq<Event>, admitted: bool, scopes: seq<Text>, local: seq<Text>,
                     upstreams: seq<Upstream>, q: Request, env: Env) {
    match outcome
    case AuditFailed => !env.auditWorks && events == []
    case Limited => !admitted && events == [Row(RateLimited)]
    case NotGranted => admitted && !Allows(scopes, q.name) && events == [Row(Forbidden)]
    case NoSuchTool =>
      || (Resolve(local, upstreams, q.name) == Target.UnknownTool && events == [Row(Class.UnknownTool)])
      || (Resolve(local, upstreams, q.name) == Target.UnknownUpstream && events == [Row(Class.UnknownUpstream)])
    case ToolError => events == [Row(InvalidArguments)] || (events == [] && env.client.RefusesBefore?)
    case Degraded => events == [] || Runs(events)
    case Answered => Runs(events)
  }

  /** What holds of every history: the answers are the limiter's, and only granted calls execute,
      each at most once and behind its DISPATCH row. */
  predicate Sound(calls: seq<Call>, limit: nat) {
    && RateLimit.Limited(Attempts(calls), limit)
    && (forall k | 0 <= k < |calls| :: Disciplined(calls[k].events))
    && (forall k | 0 <= k < |calls| && Runs(calls[k].events) :: calls[k].attempt.granted)
  }

  function DequeOf(windows: map<nat, seq<real>>, p: nat): seq<real> { if p in windows then windows[p] else [] }

  /** The deques after one attempt. */
  function Attempted(windows: map<nat, seq<real>>, a: Attempt): map<nat, seq<real>> {
    windows[a.principal := WindowNext(DequeOf(windows, a.principal), a, a.principal)]
  }

  /** The deques are those that the history leaves. */
  ghost predicate Tracks(windows: map<nat, seq<real>>, calls: seq<Call>) {
    forall p: nat :: DequeOf(windows, p) == WindowAfter(Attempts(calls), p)
  }

  /** What the hub keeps. */
  ghost predicate InStep(limit: nat, windows: map<nat, seq<real>>, history: seq<Call>) {
    limit > 0 && Sound(history, limit) && Tracks(windows, history)
  }

  /** The limiter has room for one more call. */
  predicate Grantable(windows: map<nat, seq<real>>, limit: nat, p: nat, now: real) {
    |Prune(DequeOf(windows, p), now - WINDOW)| < limit
  }

  /** The answer to a call and the table that it leaves: refused calls leave it alone. */
  predicate Concludes(scopes: seq<Text>, local: seq<Text>, upstreams: seq<Upstream>, q: Request, env: Env, granted: bool,
                      outcome: Outcome, events: seq<Event>, before: Table, after: Table) {
    if !granted then (outcome, events) == Refusal(env, Outcome.Limited, RateLimited) && after == before
    else if !Allows(scopes, q.name) then (outcome, events) == Refusal(env, NotGranted, Forbidden) && after == before
    else (outcome, events) == Answer(local, upstreams, q, env, before)
         && after == TableAfter(local, upstreams, q, env, Runs(events), before)
  }

  /** The same, with what the answer means. */
  predicate Concluded(scopes: seq<Text>, local: seq<Text>, upstreams: seq<Upstream>, q: Request, env: Env, granted: bool,
                      outcome: Outcome, events: seq<Event>, before: Table, after: Table) {
    && Concludes(scopes, local, upstreams, q, env, granted, outcome, events, before, after)
    && Served(events, granted, scopes, local, upstreams, q, env, before)
    && Reported(outcome, events, granted, scopes, local, upstreams, q, env)
  }

  function CallOf(scopes: seq<Text>, local: seq<Text>, upstreams: seq<Upstream>, q: Request, env: Env, granted: bool,
                  events: seq<Event>): Call {
    Call(Attempt(q.principal, env.started, granted), events,
         if granted && Allows(scopes, q.name) then Moves(local, upstreams, q, env, Runs(events)) else [])
  }

  class Hub {
    const limit: nat
    var windows: map<nat, seq<real>>
    var continuations: Table
    ghost var history: seq<Call>

    constructor (configured: int)
      ensures Valid() && history == [] && continuations == []
      ensures limit == (if configured < 1 then 1 else if configured > 10000 then 10000 else configured)
    {
      limit := if configured < 1 then 1 else if configured > 10000 then 10000 else configured;
      windows := map[];
      continuations := [];
      history := [];
    }

    ghost predicate Valid()
      reads this
    {
      InStep(limit, windows, history) && Linked(continuations, history)
    }

    /** `_consume_tool_rate_limit`. */
    method ConsumeToolRateLimit(principal: nat, now: real) returns (granted: bool)
      modifies this`windows
      ensures granted == Grantable(old(windows), limit, principal, now)
      ensures windows == Attempted(old(windows), Attempt(principal, now, granted))
    {
      var cutoff := now - 60.0;
      var window := DequeOf(windows, principal);
      while window != [] && window[0] <= cutoff
        invariant Prune(window, cutoff) == Prune(DequeOf(old(windows), principal), cutoff)
      {
        window := window[1..];
      }
      if |window| >= limit {
        windows := windows[principal := window];
        assert window + [] == window;
        return false;
      }
      windows := windows[principal := window + [now]];
      return true;
    }

    /** `call_tool`: a call executes exactly when the limiter grants it and nothing stands in its way. */
    method CallTool(scopes: seq<Text>, local: seq<Text>, upstreams: seq<Upstream>, q: Request, env: Env)
      returns (outcome: Outcome, events: seq<Event>)
      requires Valid()
      modifies this
      ensures Valid()
      ensures Concluded(scopes, local, upstreams, q, env, Grantable(old(windows), limit, q.principal, env.started),
                        outcome, events, old(continuations), continuations)
      ensures history == old(history) +
                [CallOf(scopes, local, upstreams, q, env, Grantable(old(windows), limit, q.principal, env.started), events)]
    {
      var granted := ConsumeToolRateLimit(q.principal, env.started);
      outcome, events := Serve(scopes, local, upstreams, q, env, granted);
      Finished(scopes, local, upstreams, q, env, granted, outcome, events, old(continuations), continuations);
      Record(old(windows), old(continuations), CallOf(scopes, local, upstreams, q, env, granted, events));
    }

    /** The finished call enters the history. */
    ghost method Record(before: map<nat, seq<real>>, table: Table, call: Call)
      requires InStep(limit, before, history) && windows == Attempted(before, call.attempt)
      requires Linked(table, history) && Honest(call, table) && continuations == Moved(table, call.moves)
      requires Disciplined(call.events) && (Runs(call.events) ==> call.attempt.granted)
      requires call.attempt.granted == Grantable(before, limit, call.attempt.principal, call.attempt.now)
      modifies this`history
      ensures Valid() && history == old(history) + [call]
    {
      StepHistory(limit, before, windows, table, continuations, history, call);
      history := history + [call];
    }

    /** `call_tool` behind the limiter. */
    method Serve(scopes: seq<Text>, local: seq<Text>, upstreams: seq<Upstream>, q: Request, env: Env, granted: bool)
      returns (outcome: Outcome, events: seq<Event>)
      modifies this`continuations
      ensures Concludes(scopes, local, upstreams, q, env, granted, outcome, events, old(continuations), continuations)
      ensures history == old(history) && windows == old(windows)
    {
      if !granted {
        events := if env.auditWorks then [Row(RateLimited)] else [];
        return if env.auditWorks then Outcome.Limited else AuditFailed, events;
      }
      var allowed := ScopeAllows(scopes, q.name);
      if !allowed {
        events := if env.auditWorks then [Row(Forbidden)] else [];
        return if env.auditWorks then NotGranted else AuditFailed, events;
      }
      outcome, events := Route(local, upstreams, q, env);
    }

    /** The granted part of `call_tool`. */
    method Route(local: seq<Text>, upstreams: seq<Upstream>, q: Request, env: Env)
      returns (outcome: Outcome, events: seq<Event>)
      modifies this`continuations
      ensures (outcome, events) == Answer(local, upstreams, q, env, old(continuations))
      ensures continuations == TableAfter(local, upstreams, q, env, Runs(events), old(continuations))
    {
      var target := Resolve(local, upstreams, q.name);
      match target
      case Local =>
        outcome, events := RunLocal(q, env);
      case UnknownTool =>
        events := if env.auditWorks then [Row(Class.UnknownTool)] else [];
        outcome := if env.auditWorks then NoSuchTool else AuditFailed;
      case UnknownUpstream =>
        events := if env.auditWorks then [Row(Class.UnknownUpstream)] else [];
        outcome := if env.auditWorks then NoSuchTool else AuditFailed;
      case Remote(i, remote) =>
        ResolvedName(local, upstreams, q.name);
        outcome, events := RunRemote(target, upstreams[i].id, q, env);
    }

    method RunLocal(q: Request, env: Env) returns (outcome: Outcome, events: seq<Event>)
      ensures (outcome, events) == LocalAnswer(q, env)
    {
      if !env.auditWorks { return AuditFailed, []; }
      if q.inputResponses || q.requestState.Some? || !env.argumentsValid {
        return ToolError, [Row(InvalidArguments)];
      }
      events := [Row(Dispatch), Ran(Local, None)];
      outcome := Answered;
    }

    /** The federated part: the continuation is taken before anything is sent. */
    method RunRemote(target: Target, upstream: nat, q: Request, env: Env) returns (outcome: Outcome, events: seq<Event>)
      requires target.Remote?
      modifies this`continuations
      ensures (outcome, events) == RemoteAnswer(target, upstream, q, env, old(continuations))
      ensures q.inputResponses ==> continuations == old(continuations)
      ensures !q.inputResponses ==>
                var table := Taken(q, upstream, env, old(continuations)).1;
                continuations == (if Runs(events) && AsksBack(env)
                                  then StoreAt(table, env.storeAt, env.handle, CallerOf(q, upstream), env.client.reply.state.value)
                                  else table)
    {
      RemoteRight(target, upstream, q, env, continuations);
      if q.inputResponses {
        if !env.auditWorks { return AuditFailed, []; }
        return ToolError, [Row(InvalidArguments)];
      }
      var taken := Taken(q, upstream, env, continuations);
      continuations := taken.1;
      if q.requestState.Some? && taken.0.None? {
        if !env.auditWorks { return AuditFailed, []; }
        return ToolError, [Row(InvalidArguments)];
      }
      if !env.secretWorks || env.client.FailsBefore? { return Degraded, []; }
      if env.client.RefusesBefore? { return ToolError, []; }
      if !env.auditWorks { return AuditFailed, []; }
      events := [Row(Dispatch), Ran(target, taken.0)];
      match env.client.reply
      case Failed => outcome := Degraded;
      case Complete => outcome := Answered;
      case InputRequired(state) =>
        if state.None? { return Degraded, events; }
        continuations := StoreAt(continuations, env.storeAt, env.handle, CallerOf(q, upstream), state.value);
        outcome := Answered;
    }
  }

  /** What is known of a finished call, whichever way it went. */
  lemma Finished(scopes: seq<Text>, local: seq<Text>, upstreams: seq<Upstream>, q: Request, env: Env, granted: bool,
                 outcome: Outcome, events: seq<Event>, before: Table, after: Table)
    requires Concludes(scopes, local, upstreams, q, env, granted, outcome, events, before, after)
    ensures Concluded(scopes, local, upstreams, q, env, granted, outcome, events, before, after)
    ensures var call := CallOf(scopes, local, upstreams, q, env, granted, events);
            && Disciplined(events) && (Runs(events) ==> granted)
            && Honest(call, before) && after == Moved(before, call.moves)
  {
    var call := CallOf(scopes, local, upstreams, q, env, granted, events);
    if granted && Allows(scopes, q.name) {
      AnswerRight(local, upstreams, q, env, before);
      AnswerReported(local, upstreams, q, env, before, scopes);
      MovesMake(local, upstreams, q, env, Runs(events), before);
      ForwardsHonestly(local, upstreams, q, env, before, call);
    }
  }

  /** One more call in the history, the deques and the table. */
  lemma StepHistory(limit: nat, before: map<nat, seq<real>>, windows: map<nat, seq<real>>, table: Table, after: Table,
                    history: seq<Call>, call: Call)
    requires InStep(limit, before, history) && windows == Attempted(before, call.attempt)
    requires Linked(table, history) && Honest(call, table) && after == Moved(table, call.moves)
    requires Disciplined(call.events) && (Runs(call.events) ==> call.attempt.granted)
    requires call.attempt.granted == Grantable(before, limit, call.attempt.principal, call.attempt.now)
    ensures InStep(limit, windows, history + [call]) && Linked(after, history + [call])
  {
    HistoryGrows(before, history, call, limit);
    LinkedNext(table, history, call, after);
  }

  lemma AttemptsAppend(history: seq<Call>, call: Call)
    ensures Attempts(history + [call]) == Attempts(history) + [call.attempt]
  {
    var all := history + [call];
    assert all[..|all| - 1] == history;
  }

  lemma SoundNext(history: seq<Call>, call: Call, limit: nat)
    requires Sound(history, limit) && Disciplined(call.events) && (Runs(call.events) ==> call.attempt.granted)
    requires Attempts(history + [call]) == Attempts(history) + [call.attempt]
    requires RateLimit.Limited(Attempts(history) + [call.attempt], limit)
    ensures Sound(history + [call], limit)
  {
  }

  lemma AnswerFromDeque(windows: map<nat, seq<real>>, history: seq<Call>, a: Attempt, limit: nat)
    requires Tracks(windows, history)
    requires a.granted == Grantable(windows, limit, a.principal, a.now)
    ensures AnswersRight(Attempts(history), a, limit)
  {
    assert DequeOf(windows, a.principal) == WindowAfter(Attempts(history), a.principal);
  }

  /** A finished call keeps the history sound, and the deques in step with it. */
  lemma HistoryGrows(windows: map<nat, seq<real>>, history: seq<Call>, call: Call, limit: nat)
    requires InStep(limit, windows, history)
    requires Disciplined(call.events) && (Runs(call.events) ==> call.attempt.granted)
    requires call.attempt.granted == Grantable(windows, limit, call.attempt.principal, call.attempt.now)
    ensures InStep(limit, Attempted(windows, call.attempt), history + [call])
  {
    AttemptsAppend(history, call);
    AnswerFromDeque(windows, history, call.attempt, limit);
    LimitedAppend(Attempts(history), call.attempt, limit);
    SoundNext(history, call, limit);
    TracksNext(windows, history, call);
  }

  lemma TracksNext(windows: map<nat, seq<real>>, history: seq<Call>, call: Call)
    requires Tracks(windows, history) && Attempts(history + [call]) == Attempts(history) + [call.attempt]
    ensures Tracks(Attempted(windows, call.attempt), history + [call])
  {
    var after := Attempted(windows, call.attempt);
    forall p: nat ensures DequeOf(after, p) == WindowAfter(Attempts(history + [call]), p) {
      WindowAppend(Attempts(history), call.attempt, p);
      assert DequeOf(windows, p) == WindowAfter(Attempts(history), p);
    }
  }

  // ---------- over whole histories ----------

  /** The executions of `p` whose calls started within a minute. */
  function Executions(calls: seq<Call>, p: nat, t: real, closedLeft: bool): nat {
    if calls == [] then 0
    else
      var last := calls[|calls| - 1];
      Executions(calls[..|calls| - 1], p, t, closedLeft)
      + (if last.attempt.principal == p && Runs(last.events) && Within(last.attempt.now, t, closedLeft) then 1 else 0)
  }

  lemma {:induction false} CountAppend(a: seq<real>, x: real, t: real, closedLeft: bool)
    ensures Count(a + [x], t, closedLeft) == Count(a, t, closedLeft) + (if Within(x, t, closedLeft) then 1 else 0)
  {
    assert (a + [x])[..|a|] == a;
  }

  lemma {:induction false} ExecutionsGranted(calls: seq<Call>, p: nat, t: real, closedLeft: bool)
    requires forall k | 0 <= k < |calls| && Runs(calls[k].events) :: calls[k].attempt.granted
    ensures Executions(calls, p, t, closedLeft) <= Count(Granted(Attempts(calls), p), t, closedLeft)
  {
    if calls != [] {
      var before, last := calls[..|calls| - 1], calls[|calls| - 1];
      ExecutionsGranted(before, p, t, closedLeft);
      var a := Attempts(calls);
      assert a[..|a| - 1] == Attempts(before);
      var g := Granted(Attempts(before), p);
      if last.attempt.principal == p && last.attempt.granted {
        CountAppend(g, last.attempt.now, t, closedLeft);
      } else {
        assert g + [] == g;
      }
    }
  }

  /** In every history with an ordered clock, no half-open minute sees more than the limit of
      executions for one principal. */
  lemma ExecutionsBounded(calls: seq<Call>, limit: nat, p: nat, t: real, closedLeft: bool)
    requires Sound(calls, limit) && limit > 0 && ClockOrdered(Attempts(calls))
    ensures Executions(calls, p, t, closedLeft) <= limit
  {
    ExecutionsGranted(calls, p, t, closedLeft);
    AtMostLimitPerMinute(Attempts(calls), p, limit, t, closedLeft);
  }

  // ---------- continuations over whole histories ----------

  /** The clock does not run backwards, and no handle is drawn twice. */
  predicate PlausibleMoves(moves: seq<Continuations.Call>) {
    && (forall i, j | 0 <= i < j < |moves| :: moves[i].now <= moves[j].now)
    && (forall i, j | 0 <= i < j < |moves| && moves[i].Store? && moves[j].Store? :: moves[i].handle != moves[j].handle)
  }

  /** Where the calls of the table that call `k` made stand among all. */
  function Offset(calls: seq<Call>, k: nat): nat
    requires k <= |calls|
  {
    |AllMoves(calls[..k])|
  }

  lemma {:induction false} MovesAt(calls: seq<Call>, k: nat)
    requires k < |calls|
    ensures AllMoves(calls[..k + 1]) == AllMoves(calls[..k]) + calls[k].moves
    ensures AllMoves(calls[..k + 1]) <= AllMoves(calls)
    decreases |calls| - k
  {
    assert calls[..k + 1][..k] == calls[..k];
    if k + 1 == |calls| {
      assert calls[..k + 1] == calls;
    } else {
      MovesAt(calls, k + 1);
      assert AllMoves(calls[..k + 1]) <= AllMoves(calls[..k + 2]);
    }
  }

  lemma {:induction false} RunTables(h: History, n: nat)
    requires Run(h) && n <= |h.calls|
    ensures h.tables[n] == Moved([], h.calls[..n])
  {
    if n > 0 {
      RunTables(h, n - 1);
      Happened(h, n - 1);
      assert h.calls[..n][..n - 1] == h.calls[..n - 1];
    }
  }

  /** The history of the table behind the calls of the Hub. */
  lemma {:induction false} TableHistory(calls: seq<Call>) returns (h: History)
    requires PlausibleMoves(AllMoves(calls))
    ensures h.calls == AllMoves(calls) && Plausible(h)
  {
    h := Replay(AllMoves(calls));
  }

  lemma {:induction false} FirstMove(calls: seq<Call>, k: nat)
    requires k < |calls| && calls[k].moves != []
    ensures Offset(calls, k) < |AllMoves(calls)| && AllMoves(calls)[Offset(calls, k)] == calls[k].moves[0]
    ensures AllMoves(calls)[..Offset(calls, k)] == AllMoves(calls[..k])
  {
    MovesAt(calls, k);
  }

  lemma {:induction false} DeliveredAt(h: History, n: nat)
    requires Run(h) && n < |h.calls|
    ensures h.delivered[n] == Delivery(Moved([], h.calls[..n]), h.calls[n])
  {
    RunTables(h, n);
    Happened(h, n);
  }

  /** What the first call of the table made by call `k` delivers. */
  lemma {:induction false} DeliveredTo(calls: seq<Call>, h: History, k: nat)
    requires Run(h) && h.calls == AllMoves(calls) && k < |calls| && calls[k].moves != []
    ensures Offset(calls, k) < |h.calls| && h.calls[Offset(calls, k)] == calls[k].moves[0]
    ensures h.delivered[Offset(calls, k)] == Delivery(Moved([], AllMoves(calls[..k])), calls[k].moves[0])
  {
    FirstMove(calls, k);
    DeliveredAt(h, Offset(calls, k));
  }

  lemma {:induction false} OffsetsOrdered(calls: seq<Call>, j: nat, k: nat)
    requires j < k <= |calls|
    ensures Offset(calls, j) + |calls[j].moves| <= Offset(calls, k)
  {
    MovesAt(calls[..k], j);
    assert calls[..k][..j + 1] == calls[..j + 1] && calls[..k][..j] == calls[..j];
  }

  /** The call was executed with a state that it took. */
  predicate RanWith(call: Call, s: State) { exists e :: e in call.events && e.Ran? && e.state == Some(s) }

  /** No handle serves two executions: two calls that were executed with a continued state named different
      handles. */
  lemma {:induction false} StateUsedOnce(calls: seq<Call>, j: nat, k: nat, s: State, t: State)
    requires AllHonest(calls) && PlausibleMoves(AllMoves(calls)) && j < k < |calls|
    requires RanWith(calls[j], s) && RanWith(calls[k], t)
    ensures calls[j].moves != [] && calls[k].moves != [] && calls[j].moves[0].handle != calls[k].moves[0].handle
  {
    HonestAt(calls, j);
    HonestAt(calls, k);
    var h := TableHistory(calls);
    DeliveredTo(calls, h, j);
    DeliveredTo(calls, h, k);
    OffsetsOrdered(calls, j, k);
    DeliveredOnce(h, Offset(calls, j), Offset(calls, k));
  }

  /** A state that a call forwards was stored, under the handle that it names, by an earlier call of the
      same principal for the same tool and arguments, less than 300 seconds before. */
  lemma {:induction false} StateComesFrom(calls: seq<Call>, k: nat, s: State) returns (i: nat)
    requires AllHonest(calls) && PlausibleMoves(AllMoves(calls)) && k < |calls| && RanWith(calls[k], s)
    ensures calls[k].moves != [] && i < Offset(calls, k) <= |AllMoves(calls)|
    ensures var store, take := AllMoves(calls)[i], calls[k].moves[0];
            && store.Store? && store.state == s && store.handle == take.handle && store.caller == take.caller
            && take.now < store.now + LIFETIME
  {
    HonestAt(calls, k);
    var h := TableHistory(calls);
    DeliveredTo(calls, h, k);
    MovesAt(calls, k);
    i := DeliveredSafely(h, Offset(calls, k));
  }

  /** A fresh handle is honoured: the next call of its caller that names it within 300 seconds gets the
      state. */
  lemma {:induction false} NextCallHonoured(calls: seq<Call>, k: nat)
    requires PlausibleMoves(AllMoves(calls)) && 0 < k < |calls|
    requires calls[k].moves != [] && calls[k].moves[0].Take?
    requires calls[k - 1].moves != [] && calls[k - 1].moves[|calls[k - 1].moves| - 1].Store?
    requires var store, take := calls[k - 1].moves[|calls[k - 1].moves| - 1], calls[k].moves[0];
             store.handle == take.handle && store.caller == take.caller && take.now < store.now + LIFETIME
    ensures Delivery(Moved([], AllMoves(calls[..k])), calls[k].moves[0])
            == Some(calls[k - 1].moves[|calls[k - 1].moves| - 1].state)
  {
    var h := TableHistory(calls);
    var j := Offset(calls, k);
    MovesAt(calls, k - 1);
    DeliveredTo(calls, h, k);
    assert AllMoves(calls[..k - 1 + 1])[j - 1] == calls[k - 1].moves[|calls[k - 1].moves| - 1];
    assert h.calls[j - 1] == AllMoves(calls[..k])[j - 1];
    DeliveredWhenDue(h, j - 1, j);
  }
}
