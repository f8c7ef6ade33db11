/** Cards: status changes by compare-and-swap, and event rows that land later, in any order. */
module Kanban {
  import opened Wrappers

  datatype Status = BACKLOG | PROCESS | WAITING_INPUT | WAITING_APPROVAL | VERIFY | FAILED | CANCELLED | DONE

  type CardId = nat
  type Task = nat

  /** `TRANSITIONS` */
  function Successors(s: Status): set<Status> {
    match s
    case BACKLOG => {PROCESS, CANCELLED}
    case PROCESS => {WAITING_INPUT, WAITING_APPROVAL, VERIFY, FAILED, CANCELLED}
    case WAITING_INPUT => {PROCESS, CANCELLED}
    case WAITING_APPROVAL => {PROCESS, VERIFY, CANCELLED}
    case VERIFY => {DONE, PROCESS, FAILED, CANCELLED}
    case FAILED => {BACKLOG, CANCELLED}
    case CANCELLED => {BACKLOG}
    case DONE => {}
  }

  predicate Edge(c: Change) { c.to in Successors(c.from) }

  /** A STATUS_CHANGED pair. */
  datatype Change = Change(from: Status, to: Status)

  // ---------- walks ----------

  /** The consecutive pairs of a history. */
  function Pairs(h: seq<Status>): multiset<Change> {
    if |h| < 2 then multiset{}
    else Pairs(h[..|h| - 1]) + multiset{Change(h[|h| - 2], h[|h| - 1])}
  }

  predicate Walk(h: seq<Status>) {
    h != [] && h[0] == BACKLOG && forall i | 0 <= i < |h| - 1 :: Edge(Change(h[i], h[i + 1]))
  }

  lemma WalkGrows(h: seq<Status>, c: Change)
    requires Walk(h) && h[|h| - 1] == c.from && Edge(c)
    ensures Walk(h + [c.to]) && Pairs(h + [c.to]) == Pairs(h) + multiset{c}
  {
    var n := h + [c.to];
    assert n[..|n| - 1] == h;
  }

  /** DONE is absorbing, and entered only from VERIFY. */
  lemma DoneAbsorbs(h: seq<Status>, i: nat)
    requires Walk(h) && i < |h| && h[i] == DONE
    ensures i == |h| - 1 && i > 0 && h[i - 1] == VERIFY
  {
    assert i < |h| - 1 ==> Edge(Change(h[i], h[i + 1]));
    assert i > 0 ==> Edge(Change(h[i - 1], h[i]));
  }

  const STATUSES: seq<Status> := [BACKLOG, PROCESS, WAITING_INPUT, WAITING_APPROVAL, VERIFY, FAILED, CANCELLED, DONE]

  /** How often `m` leaves `x` for one of `ys`. */
  function OutTo(m: multiset<Change>, x: Status, ys: seq<Status>): nat {
    if ys == [] then 0 else m[Change(x, ys[0])] + OutTo(m, x, ys[1..])
  }

  /** How often `m` enters `x` from one of `ys`. */
  function InFrom(m: multiset<Change>, x: Status, ys: seq<Status>): nat {
    if ys == [] then 0 else m[Change(ys[0], x)] + InFrom(m, x, ys[1..])
  }

  function Out(m: multiset<Change>, x: Status): nat { OutTo(m, x, STATUSES) }

  function In(m: multiset<Change>, x: Status): nat { InFrom(m, x, STATUSES) }

  function One(b: bool): int { if b then 1 else 0 }

  /** The position of a status in the list. */
  function Rank(x: Status): nat {
    match x
    case BACKLOG => 0
    case PROCESS => 1
    case WAITING_INPUT => 2
    case WAITING_APPROVAL => 3
    case VERIFY => 4
    case FAILED => 5
    case CANCELLED => 6
    case DONE => 7
  }

  lemma {:induction false} AddTo(m: multiset<Change>, c: Change, x: Status, ys: seq<Status>)
    requires forall i, j | 0 <= i < j < |ys| :: ys[i] != ys[j]
    ensures OutTo(m + multiset{c}, x, ys) == OutTo(m, x, ys) + One(c.from == x && c.to in ys)
    ensures InFrom(m + multiset{c}, x, ys) == InFrom(m, x, ys) + One(c.to == x && c.from in ys)
  {
    if ys != [] {
      AddTo(m, c, x, ys[1..]);
      assert ys[0] !in ys[1..];
    }
  }

  lemma AddOne(m: multiset<Change>, c: Change, x: Status)
    ensures Out(m + multiset{c}, x) == Out(m, x) + One(c.from == x)
    ensures In(m + multiset{c}, x) == In(m, x) + One(c.to == x)
  {
    StatusesDiffer();
    AddTo(m, c, x, STATUSES);
    AllStatuses(c.from);
    AllStatuses(c.to);
  }

  lemma StatusAt(i: nat)
    requires i < |STATUSES|
    ensures Rank(STATUSES[i]) == i
  {
    match i
    case 0 =>
    case 1 =>
    case 2 =>
    case 3 =>
    case 4 =>
    case 5 =>
    case 6 =>
    case _ =>
  }

  lemma StatusesDiffer()
    ensures forall i, j | 0 <= i < j < |STATUSES| :: STATUSES[i] != STATUSES[j]
  {
    forall i, j | 0 <= i < j < |STATUSES| ensures STATUSES[i] != STATUSES[j] {
      StatusAt(i);
      StatusAt(j);
    }
  }

  lemma AllStatuses(x: Status)
    ensures x in STATUSES
  {
    var all := STATUSES;
    assert all[0].BACKLOG? && all[1].PROCESS? && all[2].WAITING_INPUT? && all[3].WAITING_APPROVAL?;
    assert all[4].VERIFY? && all[5].FAILED? && all[6].CANCELLED? && all[7].DONE?;
  }

  lemma {:induction false} NoPairs(x: Status, ys: seq<Status>)
    ensures OutTo(multiset{}, x, ys) == 0 && InFrom(multiset{}, x, ys) == 0
  {
    if ys != [] { NoPairs(x, ys[1..]); }
  }

  /** The pairs balance like a trail: what leaves a status minus what enters it is one at the start,
      minus one at the end, and zero elsewhere. */
  lemma {:induction false} Balanced(h: seq<Status>, x: Status)
    requires h != []
    ensures Out(Pairs(h), x) - In(Pairs(h), x) == One(x == h[0]) - One(x == h[|h| - 1])
  {
    if |h| > 1 {
      var before := h[..|h| - 1];
      Balanced(before, x);
      AddOne(Pairs(before), Change(h[|h| - 2], h[|h| - 1]), x);
    } else {
      NoPairs(x, STATUSES);
    }
  }

  /** The unordered pairs of a history determine where it ends. */
  lemma EndDetermined(g: seq<Status>, h: seq<Status>)
    requires Walk(g) && Walk(h) && Pairs(g) == Pairs(h)
    ensures g[|g| - 1] == h[|h| - 1]
  {
    Balanced(g, g[|g| - 1]);
    Balanced(h, g[|g| - 1]);
  }

  // ---------- interleavings ----------

  /** A card row, its STATUS_CHANGED rows in the order they landed, the changes whose row is still to
      come (or was lost with its writer), the statuses the row has had, and whether it is assigned to
      the resident agent. */
  datatype Card = Card(status: Status, task: Option<Task>, recorded: seq<Change>, inFlight: multiset<Change>,
                       history: seq<Status>, forAgent: bool)

  function New(forAgent: bool): Card { Card(BACKLOG, None, [], multiset{}, [BACKLOG], forAgent) }

  /** What a process intends after its reads, which may be stale by now. */
  datatype Intent = Intent(card: CardId, change: Change)

  datatype State = State(cards: map<CardId, Card>, intents: multiset<Intent>)

  datatype Event =
    | Create(card: CardId, forAgent: bool)
    | Intend(intent: Intent)               // an owner read `from` and checked the edge
    | Result(card: CardId, succeeded: bool)  // a tick found the result of a PROCESS card
    | Claim(card: CardId, task: Task)      // a tick queued a task for a BACKLOG card and set its id
    | Swap(intent: Intent)                 // UPDATE ... WHERE status = expected
    | RecordRow(card: CardId, change: Change)
    | Crash(intent: Intent)

  predicate Enabled(s: State, e: Event) {
    match e
    case Create(card, _) => card !in s.cards
    case Intend(i) => i.card in s.cards && Edge(i.change)
    case Result(card, _) => card in s.cards
    case Claim(card, _) => card in s.cards
    case Swap(i) => i in s.intents && i.card in s.cards
    case RecordRow(card, change) => card in s.cards && change in s.cards[card].inFlight
    case Crash(i) => i in s.intents
  }

  function Put(s: State, id: CardId, card: Card): State { s.(cards := s.cards[id := card]) }

  function Want(s: State, i: Intent): State { s.(intents := s.intents + multiset{i}) }

  function Swapped(card: Card, change: Change): Card {
    if card.status != change.from then card
    else card.(status := change.to, inFlight := card.inFlight + multiset{change}, history := card.history + [change.to])
  }

  function Recorded(card: Card, change: Change): Card {
    card.(recorded := card.recorded + [change], inFlight := card.inFlight - multiset{change})
  }

  function Apply(s: State, e: Event): State
    requires Enabled(s, e)
  {
    match e
    case Create(id, forAgent) => Put(s, id, New(forAgent))
    case Intend(i) => Want(s, i)
    case Result(id, succeeded) => Want(s, Intent(id, Change(PROCESS, if succeeded then VERIFY else FAILED)))
    case Claim(id, task) => Want(Put(s, id, s.cards[id].(task := Some(task))), Intent(id, Change(BACKLOG, PROCESS)))
    case Swap(i) => Put(s.(intents := s.intents - multiset{i}), i.card, Swapped(s.cards[i.card], i.change))
    case RecordRow(id, change) => Put(s, id, Recorded(s.cards[id], change))
    case Crash(i) => s.(intents := s.intents - multiset{i})
  }

  predicate CardInv(card: Card) {
    && Walk(card.history) && card.history[|card.history| - 1] == card.status
    && multiset(card.recorded) + card.inFlight == Pairs(card.history)
  }

  predicate Inv(s: State) {
    (forall id | id in s.cards :: CardInv(s.cards[id])) && (forall i | i in s.intents :: Edge(i.change))
  }

  lemma SwapKeeps(card: Card, change: Change)
    requires CardInv(card) && Edge(change)
    ensures CardInv(Swapped(card, change))
  {
    if card.status == change.from { WalkGrows(card.history, change); }
  }

  lemma RecordKeeps(card: Card, change: Change)
    requires CardInv(card) && change in card.inFlight
    ensures CardInv(Recorded(card, change))
  {
  }

  /** Whoever intends a change may be gone before making it. */
  lemma IntentsMayDie(s: State, i: Intent)
    requires i in s.intents
    ensures Enabled(s, Crash(i)) && Apply(s, Crash(i)).cards == s.cards
  {
  }

  lemma PutKeeps(s: State, id: CardId, card: Card)
    requires Inv(s) && CardInv(card)
    ensures Inv(Put(s, id, card))
  {
  }

  lemma WantKeeps(s: State, i: Intent)
    requires Inv(s) && Edge(i.change)
    ensures Inv(Want(s, i))
  {
  }

  lemma NewCard(forAgent: bool)
    ensures CardInv(New(forAgent))
  {
    assert Pairs([BACKLOG]) == multiset{};
  }

  lemma StepKeeps(s: State, e: Event)
    requires Inv(s) && Enabled(s, e)
    ensures Inv(Apply(s, e))
  {
    match e
    case Create(id, forAgent) =>
      NewCard(forAgent);
      PutKeeps(s, id, New(forAgent));
    case Intend(i) => WantKeeps(s, i);
    case Result(id, succeeded) => WantKeeps(s, Intent(id, Change(PROCESS, if succeeded then VERIFY else FAILED)));
    case Claim(id, task) =>
      PutKeeps(s, id, s.cards[id].(task := Some(task)));
      WantKeeps(Put(s, id, s.cards[id].(task := Some(task))), Intent(id, Change(BACKLOG, PROCESS)));
    case Swap(i) =>
      SwapKeeps(s.cards[i.card], i.change);
      PutKeeps(s.(intents := s.intents - multiset{i}), i.card, Swapped(s.cards[i.card], i.change));
    case RecordRow(id, change) =>
      RecordKeeps(s.cards[id], change);
      PutKeeps(s, id, Recorded(s.cards[id], change));
    case Crash(i) =>
  }

  predicate Possible(run: seq<Event>)
    decreases |run|, 0
  {
    run == [] || (Possible(run[..|run| - 1]) && Enabled(After(run[..|run| - 1]), run[|run| - 1]))
  }

  function After(run: seq<Event>): State
    requires Possible(run)
    decreases |run|, 1
  {
    if run == [] then State(map[], multiset{}) else Apply(After(run[..|run| - 1]), run[|run| - 1])
  }

  lemma {:induction false} Reachable(run: seq<Event>)
    requires Possible(run)
    ensures Inv(After(run))
  {
    if run != [] {
      Reachable(run[..|run| - 1]);
      StepKeeps(After(run[..|run| - 1]), run[|run| - 1]);
    }
  }

  /** In every interleaving, the statuses of a card form a walk from BACKLOG, and its event rows,
      landed or not, are exactly the steps of that walk and balance accordingly. */
  lemma CardHistory(run: seq<Event>, id: CardId, x: Status)
    requires Possible(run) && id in After(run).cards
    ensures var card := After(run).cards[id];
            var rows := multiset(card.recorded) + card.inFlight;
            && Walk(card.history) && card.history[|card.history| - 1] == card.status
            && rows == Pairs(card.history) && (forall c | c in rows :: Edge(c))
            && Out(rows, x) - In(rows, x) == One(x == BACKLOG) - One(x == card.status)
  {
    Reachable(run);
    var card := After(run).cards[id];
    Balanced(card.history, x);
    PairsAreEdges(card.history);
  }

  lemma {:induction false} PairsAreEdges(h: seq<Status>)
    requires Walk(h)
    ensures forall c | c in Pairs(h) :: Edge(c)
  {
    if |h| > 1 {
      PairsAreEdges(h[..|h| - 1]);
      assert Edge(Change(h[|h| - 2], h[|h| - 2 + 1]));
    }
  }

  /** A DONE card stays DONE whatever happens next. */
  lemma {:induction false} DoneStays(run: seq<Event>, more: seq<Event>, id: CardId)
    requires Possible(run) && Possible(run + more) && id in After(run).cards && After(run).cards[id].status == DONE
    ensures id in After(run + more).cards && After(run + more).cards[id].status == DONE
    ensures After(run + more).cards[id].history == After(run).cards[id].history
  {
    if more == [] {
      assert run + more == run;
    } else {
      var all, before := run + more, more[..|more| - 1];
      assert all[..|all| - 1] == run + before && all[|all| - 1] == more[|more| - 1];
      DoneStays(run, before, id);
      Reachable(run + before);
      var s, e := After(run + before), more[|more| - 1];
      assert e.Swap? ==> e.intent in s.intents;
      DoneStep(s, e, id);
    }
  }

  lemma DoneStep(s: State, e: Event, id: CardId)
    requires Enabled(s, e) && id in s.cards && s.cards[id].status == DONE && (e.Swap? ==> Edge(e.intent.change))
    ensures id in Apply(s, e).cards && Apply(s, e).cards[id].status == DONE
    ensures Apply(s, e).cards[id].history == s.cards[id].history
  {
    match e
    case Swap(i) =>
      assert i.card == id ==> Swapped(s.cards[id], i.change) == s.cards[id];
    case Create(_, _) =>
    case Intend(_) =>
    case Result(_, _) =>
    case Claim(_, _) =>
    case RecordRow(_, _) =>
    case Crash(_) =>
  }

  // ---------- the code, undisturbed ----------

  datatype TransitionError = NotFound | InvalidTransition | Conflict | StoreError

  datatype TickState = ResultApplied(card: CardId) | AgentBusy | NothingToDo | NeedsAction | Claimed(card: CardId)

  /** What `queue_task` answers to a tick. */
  datatype Queued = ProviderInactive | ClaimExists | Accepted(task: Task)

  /** The methods of the Card store and of KanbanSystem, run without interference.  The ghost fields
      show that they are runs of the system above. */
  class KanbanSystem {
    var cards: map<CardId, Card>
    ghost var state: State
    ghost var run: seq<Event>

    constructor ()
      ensures Valid() && cards == map[]
    {
      cards := map[];
      state := State(map[], multiset{});
      run := [];
    }

    ghost predicate Valid()
      reads this
    {
      state.cards == cards && Possible(run) && After(run) == state
    }

    ghost method Record(e: Event)
      requires Possible(run) && After(run) == state && Enabled(state, e)
      modifies this`run, this`state
      ensures run == old(run) + [e] && state == Apply(old(state), e) && Possible(run) && After(run) == state
    {
      assert (run + [e])[..|run|] == run;
      run, state := run + [e], Apply(state, e);
    }

    /** `create_card`: a new Card starts in BACKLOG. */
    method CreateCard(id: CardId, forAgent: bool)
      requires Valid() && id !in cards
      modifies this
      ensures Valid() && old(run) <= run
      ensures cards == old(cards)[id := New(forAgent)]
    {
      cards := cards[id := New(forAgent)];
      Record(Create(id, forAgent));
    }

    /** `transition` of the store: the compare-and-swap, then the event row, which may fail to land. */
    method Swap(id: CardId, change: Change, eventLands: bool) returns (r: Option<TransitionError>)
      requires Valid() && Intent(id, change) in state.intents && id in cards
      modifies this
      ensures Valid() && old(run) <= run
      ensures var swapped := Swapped(old(cards)[id], change);
              if old(cards)[id].status != change.from then r == Some(Conflict) && cards == old(cards)
              else if !eventLands then r == Some(StoreError) && cards == old(cards)[id := swapped]
              else r == None && cards == old(cards)[id := Recorded(swapped, change)]
    {
      Record(Event.Swap(Intent(id, change)));
      if cards[id].status != change.from {
        assert cards[id := cards[id]] == cards;
        return Some(Conflict);
      }
      cards := cards[id := Swapped(cards[id], change)];
      if !eventLands { return Some(StoreError); }
      Record(RecordRow(id, change));
      cards := cards[id := Recorded(cards[id], change)];
      return None;
    }

    /** `transition` of KanbanSystem: only an edge of TRANSITIONS is taken. */
    method Transition(id: CardId, to: Status, eventLands: bool) returns (r: Option<TransitionError>)
      requires Valid()
      modifies this
      ensures Valid() && old(run) <= run
      ensures id !in old(cards) ==> r == Some(NotFound) && cards == old(cards)
      ensures id in old(cards) ==>
                var change := Change(old(cards)[id].status, to);
                if !Edge(change) then r == Some(InvalidTransition) && cards == old(cards)
                else r == (if eventLands then None else Some(StoreError))
                     && OnlyMoved(old(cards), cards, id, to, old(cards)[id].task, eventLands)
    {
      if id !in cards { return Some(NotFound); }
      var change := Change(cards[id].status, to);
      if !Edge(change) { return Some(InvalidTransition); }
      Record(Intend(Intent(id, change)));
      SwapMoves(cards[id], to, cards[id].task);
      r := Swap(id, change, eventLands);
    }

    /** The first listed Card with a task that has a result; the length of the list means none. */
    method FindResult(listed: seq<CardId>, results: map<Task, bool>) returns (i: nat)
      requires forall k | 0 <= k < |listed| :: listed[k] in cards && cards[listed[k]].status == PROCESS
      ensures i == FirstResult(cards, results, listed)
    {
      i := 0;
      while i < |listed| && !(cards[listed[i]].task.Some? && cards[listed[i]].task.value in results)
        invariant i <= |listed| && forall k | 0 <= k < i :: !HasResult(cards, results, listed[k])
      {
        i := i + 1;
      }
    }

    /** The first listed Card that is assigned to the agent; the length of the list means none. */
    method FindBacklog(listed: seq<CardId>) returns (i: nat)
      requires forall k | 0 <= k < |listed| :: listed[k] in cards
      ensures i == FirstAssigned(cards, listed)
    {
      i := 0;
      while i < |listed| && !cards[listed[i]].forAgent
        invariant i <= |listed| && forall k | 0 <= k < i :: !cards[listed[k]].forAgent
      {
        i := i + 1;
      }
    }

    /** The result branch of `agent_tick`. */
    method ApplyResult(id: CardId, succeeded: bool, eventLands: bool) returns (error: Option<TransitionError>)
      requires Valid() && id in cards && cards[id].status == PROCESS
      modifies this
      ensures Valid() && old(run) <= run
      ensures OnlyMoved(old(cards), cards, id, if succeeded then VERIFY else FAILED, old(cards)[id].task, eventLands)
      ensures error == if eventLands then None else Some(StoreError)
    {
      Record(Result(id, succeeded));
      SwapMoves(cards[id], if succeeded then VERIFY else FAILED, cards[id].task);
      error := Swap(id, Change(PROCESS, if succeeded then VERIFY else FAILED), eventLands);
    }

    /** The claiming branch of `agent_tick`, once its task is queued. */
    method ClaimCard(id: CardId, task: Task, eventLands: bool) returns (error: Option<TransitionError>)
      requires Valid() && id in cards && cards[id].status == BACKLOG
      modifies this
      ensures Valid() && old(run) <= run
      ensures OnlyMoved(old(cards), cards, id, PROCESS, Some(task), eventLands)
      ensures error == if eventLands then None else Some(StoreError)
    {
      SwapMoves(cards[id], PROCESS, Some(task));
      Record(Claim(id, task));
      cards := cards[id := cards[id].(task := Some(task))];
      error := Swap(id, Change(BACKLOG, PROCESS), eventLands);
    }

    /** `agent_tick`: it advances at most one Card.  The first listed PROCESS Card with a result goes to
        VERIFY or FAILED; without one, the first listed BACKLOG Card of the agent is claimed.  `order`
        holds all Cards by age. */
    method AgentTick(order: seq<CardId>, results: map<Task, bool>, claimExists: bool, queued: Queued, eventLands: bool)
      returns (tick: TickState, error: Option<TransitionError>)
      requires Valid() && Ordered(cards, order)
      modifies this
      ensures Valid() && old(run) <= run
      ensures tick == Decision(old(cards), order, results, claimExists, queued)
      ensures tick.ResultApplied? ==>
                OnlyMoved(old(cards), cards, tick.card, if results[old(cards)[tick.card].task.value] then VERIFY else FAILED,
                          old(cards)[tick.card].task, eventLands)
      ensures tick.Claimed? ==> OnlyMoved(old(cards), cards, tick.card, PROCESS, Some(queued.task), eventLands)
      ensures error == if eventLands || !(tick.ResultApplied? || tick.Claimed?) then None else Some(StoreError)
      ensures !tick.ResultApplied? && !tick.Claimed? ==> cards == old(cards)
    {
      var process, backlog := ListCards(cards, order, PROCESS), ListCards(cards, order, BACKLOG);
      var found := FindResult(process, results);
      if found < |process| {
        error := ApplyResult(process[found], results[cards[process[found]].task.value], eventLands);
        return ResultApplied(process[found]), error;
      }
      if claimExists { return AgentBusy, None; }
      var i := FindBacklog(backlog);
      if i == |backlog| { return NothingToDo, None; }
      match queued
      case ProviderInactive => return NeedsAction, None;
      case ClaimExists => return AgentBusy, None;
      case Accepted(task) =>
        error := ClaimCard(backlog[i], task, eventLands);
        return Claimed(backlog[i]), error;
    }
  }

  // ---------- what a tick can see ----------

  const LIST_LIMIT: nat := 200

  /** `order` holds every Card once. */
  ghost predicate Ordered(cards: map<CardId, Card>, order: seq<CardId>) {
    && (forall id :: id in order <==> id in cards)
    && forall i, j | 0 <= i < j < |order| :: order[i] != order[j]
  }

  /** That is, the Cards are listed as often as they exist. */
  lemma OrderedExactly(cards: map<CardId, Card>, order: seq<CardId>)
    ensures Ordered(cards, order) <==> multiset(order) == multiset(cards.Keys)
  {
    if multiset(order) == multiset(cards.Keys) {
      forall id ensures id in order <==> id in cards {
        assert id in order <==> id in multiset(order);
        assert id in cards <==> id in multiset(cards.Keys);
      }
      forall i, j | 0 <= i < j < |order| ensures order[i] != order[j] {
        if order[i] == order[j] { TwiceCounted(order, i, j); }
      }
    }
    if Ordered(cards, order) {
      forall id ensures multiset(order)[id] == multiset(cards.Keys)[id] {
        if id in order { OnceCounted(order, id); }
        assert id in order <==> id in multiset(order);
      }
      assert multiset(order) == multiset(cards.Keys);
    }
  }

  lemma TwiceCounted(order: seq<CardId>, i: nat, j: nat)
    requires i < j < |order| && order[i] == order[j]
    ensures multiset(order)[order[i]] >= 2
  {
    assert order == order[..i] + [order[i]] + order[i + 1..j] + [order[j]] + order[j + 1..];
  }

  lemma {:induction false} OnceCounted(order: seq<CardId>, id: CardId)
    requires id in order && forall i, j | 0 <= i < j < |order| :: order[i] != order[j]
    ensures multiset(order)[id] == 1
  {
    var before, last := order[..|order| - 1], order[|order| - 1];
    assert order == before + [last];
    if id == last {
      assert id !in before;
      assert id !in multiset(before);
    } else {
      OnceCounted(before, id);
    }
  }

  /** `list_cards(status=...)`: the oldest Cards in that status, up to the limit. */
  function ListCards(cards: map<CardId, Card>, order: seq<CardId>, status: Status): (listed: seq<CardId>)
    requires forall id | id in order :: id in cards
    ensures |listed| <= LIST_LIMIT && forall i | 0 <= i < |listed| :: listed[i] in order && cards[listed[i]].status == status
  {
    if order == [] then []
    else
      var seen, id := ListCards(cards, order[..|order| - 1], status), order[|order| - 1];
      if |seen| < LIST_LIMIT && cards[id].status == status then seen + [id] else seen
  }

  /** How many of the Cards are in the status. */
  function InStatus(cards: map<CardId, Card>, order: seq<CardId>, status: Status): nat
    requires forall id | id in order :: id in cards
  {
    if order == [] then 0
    else InStatus(cards, order[..|order| - 1], status) + (if cards[order[|order| - 1]].status == status then 1 else 0)
  }

  lemma {:induction false} ListedCount(cards: map<CardId, Card>, order: seq<CardId>, status: Status)
    requires forall id | id in order :: id in cards
    ensures |ListCards(cards, order, status)| ==
            if InStatus(cards, order, status) < LIST_LIMIT then InStatus(cards, order, status) else LIST_LIMIT
  {
    if order != [] { ListedCount(cards, order[..|order| - 1], status); }
  }

  /** A tick lists a Card exactly when fewer than 200 older ones are in the same status: a Card with a
      result, or a BACKLOG Card of the agent, behind 200 others is passed over. */
  lemma {:induction false} SeenExactly(cards: map<CardId, Card>, order: seq<CardId>, i: nat, status: Status)
    requires i < |order| && forall id | id in order :: id in cards
    requires forall j, k | 0 <= j < k < |order| :: order[j] != order[k]
    ensures order[i] in ListCards(cards, order, status) <==>
            cards[order[i]].status == status && InStatus(cards, order[..i], status) < 200
  {
    var before := order[..|order| - 1];
    if i == |before| {
      ListedCount(cards, before, status);
      forall id | id in ListCards(cards, before, status) ensures id in before { }
    } else {
      SeenExactly(cards, before, i, status);
      assert before[..i] == order[..i];
    }
  }

  predicate HasResult(cards: map<CardId, Card>, results: map<Task, bool>, id: CardId) {
    id in cards && cards[id].status == PROCESS && cards[id].task.Some? && cards[id].task.value in results
  }

  predicate Assigned(cards: map<CardId, Card>, id: CardId) { id in cards && cards[id].forAgent }

  /** The first listed Card with a result; the length of the list means none. */
  function FirstResult(cards: map<CardId, Card>, results: map<Task, bool>, listed: seq<CardId>): (i: nat)
    ensures i <= |listed| && (i < |listed| ==> HasResult(cards, results, listed[i]))
    ensures forall k | 0 <= k < i :: !HasResult(cards, results, listed[k])
  {
    if listed == [] || HasResult(cards, results, listed[0]) then 0 else 1 + FirstResult(cards, results, listed[1..])
  }

  /** The first listed Card of the agent; the length of the list means none. */
  function FirstAssigned(cards: map<CardId, Card>, listed: seq<CardId>): (i: nat)
    ensures i <= |listed| && (i < |listed| ==> Assigned(cards, listed[i]))
    ensures forall k | 0 <= k < i :: !Assigned(cards, listed[k])
  {
    if listed == [] || Assigned(cards, listed[0]) then 0 else 1 + FirstAssigned(cards, listed[1..])
  }

  /** What a tick decides, and about which Card. */
  function Decision(cards: map<CardId, Card>, order: seq<CardId>, results: map<Task, bool>, claimExists: bool,
                    queued: Queued): TickState
    requires forall id | id in order :: id in cards
  {
    var process, backlog := ListCards(cards, order, PROCESS), ListCards(cards, order, BACKLOG);
    var found, next := FirstResult(cards, results, process), FirstAssigned(cards, backlog);
    if found < |process| then ResultApplied(process[found])
    else if claimExists then AgentBusy
    else if next == |backlog| then NothingToDo
    else match queued
      case ProviderInactive => NeedsAction
      case ClaimExists => AgentBusy
      case Accepted(_) => Claimed(backlog[next])
  }

  /** Fewer than 200 older Cards share the status of the Card at `i`. */
  predicate InReach(cards: map<CardId, Card>, order: seq<CardId>, i: nat)
    requires i < |order| && forall id | id in order :: id in cards
  {
    InStatus(cards, order[..i], cards[order[i]].status) < LIST_LIMIT
  }

  /** A tick has something to do about the Card at `i`, if it only sees it. */
  predicate Due(cards: map<CardId, Card>, order: seq<CardId>, results: map<Task, bool>, i: nat)
    requires i < |order| && forall id | id in order :: id in cards
  {
    HasResult(cards, results, order[i]) || (cards[order[i]].status == BACKLOG && cards[order[i]].forAgent)
  }

  /** A tick is idle exactly when there is no claim and no Card in reach is due: one that is due behind
      200 older Cards of its status waits, whatever those are waiting for. */
  lemma {:induction false} IdleExactly(cards: map<CardId, Card>, order: seq<CardId>, results: map<Task, bool>, claimExists: bool,
                                       queued: Queued)
    requires Ordered(cards, order)
    ensures Decision(cards, order, results, claimExists, queued) == NothingToDo <==>
            !claimExists && forall i | 0 <= i < |order| && Due(cards, order, results, i) :: !InReach(cards, order, i)
  {
    if Decision(cards, order, results, claimExists, queued) == NothingToDo {
      forall i | 0 <= i < |order| && Due(cards, order, results, i) ensures !InReach(cards, order, i) {
        NoneDue(cards, order, results, claimExists, queued, i);
      }
    } else if !claimExists {
      NotIdle(cards, order, results, queued);
    }
  }

  /** An idle tick has no due Card in reach. */
  lemma {:induction false} NoneDue(cards: map<CardId, Card>, order: seq<CardId>, results: map<Task, bool>, claimExists: bool,
                                   queued: Queued, i: nat)
    requires Ordered(cards, order) && Decision(cards, order, results, claimExists, queued) == NothingToDo
    requires i < |order| && Due(cards, order, results, i)
    ensures !InReach(cards, order, i)
  {
    IdleFinds(cards, order, results, claimExists, queued);
    SeenExactly(cards, order, i, cards[order[i]].status);
    if InReach(cards, order, i) { DueSeen(cards, order, results, i); }
  }

  lemma {:induction false} IdleFinds(cards: map<CardId, Card>, order: seq<CardId>, results: map<Task, bool>, claimExists: bool,
                                     queued: Queued)
    requires Ordered(cards, order) && Decision(cards, order, results, claimExists, queued) == NothingToDo
    ensures var process, backlog := ListCards(cards, order, PROCESS), ListCards(cards, order, BACKLOG);
            FirstResult(cards, results, process) >= |process| && FirstAssigned(cards, backlog) >= |backlog|
  {
  }

  /** A due Card in reach is found, or another before it. */
  lemma {:induction false} DueSeen(cards: map<CardId, Card>, order: seq<CardId>, results: map<Task, bool>, i: nat)
    requires Ordered(cards, order) && i < |order| && Due(cards, order, results, i)
    requires order[i] in ListCards(cards, order, cards[order[i]].status)
    ensures var process, backlog := ListCards(cards, order, PROCESS), ListCards(cards, order, BACKLOG);
            FirstResult(cards, results, process) < |process| || FirstAssigned(cards, backlog) < |backlog|
  {
    var listed := ListCards(cards, order, cards[order[i]].status);
    var k :| 0 <= k < |listed| && listed[k] == order[i];
    assert HasResult(cards, results, listed[k]) || Assigned(cards, listed[k]);
  }

  /** A tick that finds work finds a due Card in reach. */
  lemma {:induction false} NotIdle(cards: map<CardId, Card>, order: seq<CardId>, results: map<Task, bool>, queued: Queued)
    requires Ordered(cards, order) && Decision(cards, order, results, false, queued) != NothingToDo
    ensures exists i :: 0 <= i < |order| && Due(cards, order, results, i) && InReach(cards, order, i)
  {
    var process, backlog := ListCards(cards, order, PROCESS), ListCards(cards, order, BACKLOG);
    var found, next := FirstResult(cards, results, process), FirstAssigned(cards, backlog);
    var id := if found < |process| then process[found] else backlog[next];
    var i :| 0 <= i < |order| && order[i] == id;
    SeenExactly(cards, order, i, cards[id].status);
    assert Due(cards, order, results, i);
    assert InReach(cards, order, i);
  }

  /** The oldest Card in reach that has a result is taken up, whether or not there is a claim. */
  lemma ResultFirst(cards: map<CardId, Card>, order: seq<CardId>, results: map<Task, bool>, claimExists: bool, queued: Queued,
                    i: nat)
    requires Ordered(cards, order) && i < |order| && InReach(cards, order, i) && HasResult(cards, results, order[i])
    requires forall j | 0 <= j < i :: !HasResult(cards, results, order[j])
    ensures Decision(cards, order, results, claimExists, queued) == ResultApplied(order[i])
  {
    ResultAt(cards, order, results, i);
  }

  /** Without a result in reach, a claim makes the tick wait. */
  lemma ClaimNext(cards: map<CardId, Card>, order: seq<CardId>, results: map<Task, bool>, queued: Queued)
    requires Ordered(cards, order)
    requires forall i | 0 <= i < |order| && InReach(cards, order, i) :: !HasResult(cards, results, order[i])
    ensures Decision(cards, order, results, true, queued) == AgentBusy
  {
    NoResultSeen(cards, order, results);
  }

  lemma NoResultSeen(cards: map<CardId, Card>, order: seq<CardId>, results: map<Task, bool>)
    requires Ordered(cards, order)
    requires forall i | 0 <= i < |order| && InReach(cards, order, i) :: !HasResult(cards, results, order[i])
    ensures var process := ListCards(cards, order, PROCESS); FirstResult(cards, results, process) == |process|
  {
    var process := ListCards(cards, order, PROCESS);
    var found := FirstResult(cards, results, process);
    if found < |process| {
      var i :| 0 <= i < |order| && order[i] == process[found];
      SeenExactly(cards, order, i, PROCESS);
    }
  }

  /** Without a result in reach and without a claim, the oldest BACKLOG Card of the agent in reach is next:
      it is claimed when its task is queued. */
  lemma BacklogNext(cards: map<CardId, Card>, order: seq<CardId>, results: map<Task, bool>, queued: Queued, i: nat)
    requires Ordered(cards, order) && i < |order| && InReach(cards, order, i)
    requires cards[order[i]].status == BACKLOG && cards[order[i]].forAgent
    requires forall j | 0 <= j < i :: !(cards[order[j]].status == BACKLOG && cards[order[j]].forAgent)
    requires forall j | 0 <= j < |order| && InReach(cards, order, j) :: !HasResult(cards, results, order[j])
    ensures Decision(cards, order, results, false, queued) ==
            match queued
            case ProviderInactive => NeedsAction
            case ClaimExists => AgentBusy
            case Accepted(_) => Claimed(order[i])
  {
    NoResultSeen(cards, order, results);
    AssignedAt(cards, order, i);
  }

  lemma ListedGrows(cards: map<CardId, Card>, order: seq<CardId>, status: Status)
    requires order != [] && forall id | id in order :: id in cards
    ensures var older, listed := ListCards(cards, order[..|order| - 1], status), ListCards(cards, order, status);
            older <= listed && |listed| <= |older| + 1 && (|listed| > |older| ==> listed[|older|] == order[|order| - 1])
    ensures cards[order[|order| - 1]].status == status && InReach(cards, order, |order| - 1) ==>
              |ListCards(cards, order, status)| == |ListCards(cards, order[..|order| - 1], status)| + 1
  {
    ListedCount(cards, order[..|order| - 1], status);
  }

  lemma {:induction false} ResultAt(cards: map<CardId, Card>, order: seq<CardId>, results: map<Task, bool>, i: nat)
    requires (forall id | id in order :: id in cards) && i < |order|
    requires InReach(cards, order, i) && HasResult(cards, results, order[i])
    requires forall j | 0 <= j < i :: !HasResult(cards, results, order[j])
    ensures var process := ListCards(cards, order, PROCESS);
            var found := FirstResult(cards, results, process);
            found < |process| && process[found] == order[i]
  {
    var before := order[..|order| - 1];
    var older, process := ListCards(cards, before, PROCESS), ListCards(cards, order, PROCESS);
    ListedGrows(cards, order, PROCESS);
    if i < |before| {
      assert before[..i] == order[..i];
      ResultAt(cards, before, results, i);
      assert process[FirstResult(cards, results, older)] == older[FirstResult(cards, results, older)];
    } else {
      assert order[..i] == before;
      forall k | 0 <= k < |older| ensures !HasResult(cards, results, process[k]) {
        assert process[k] == older[k] && older[k] in before;
      }
    }
  }

  lemma {:induction false} AssignedAt(cards: map<CardId, Card>, order: seq<CardId>, i: nat)
    requires (forall id | id in order :: id in cards) && i < |order|
    requires InReach(cards, order, i) && cards[order[i]].status == BACKLOG && cards[order[i]].forAgent
    requires forall j | 0 <= j < i :: !(cards[order[j]].status == BACKLOG && cards[order[j]].forAgent)
    ensures var backlog := ListCards(cards, order, BACKLOG);
            var next := FirstAssigned(cards, backlog);
            next < |backlog| && backlog[next] == order[i]
  {
    var before := order[..|order| - 1];
    var older, backlog := ListCards(cards, before, BACKLOG), ListCards(cards, order, BACKLOG);
    ListedGrows(cards, order, BACKLOG);
    if i < |before| {
      assert before[..i] == order[..i];
      AssignedAt(cards, before, i);
      assert backlog[FirstAssigned(cards, older)] == older[FirstAssigned(cards, older)];
    } else {
      assert order[..i] == before;
      forall k | 0 <= k < |older| ensures !Assigned(cards, backlog[k]) {
        assert backlog[k] == older[k] && older[k] in before;
      }
    }
  }

  /** The edges of TRANSITIONS, written out. */
  lemma EdgesWrittenOut(c: Change)
    ensures Edge(c) <==>
            c in [Change(BACKLOG, PROCESS), Change(BACKLOG, CANCELLED), Change(PROCESS, WAITING_INPUT),
                  Change(PROCESS, WAITING_APPROVAL), Change(PROCESS, VERIFY), Change(PROCESS, FAILED),
                  Change(PROCESS, CANCELLED), Change(WAITING_INPUT, PROCESS), Change(WAITING_INPUT, CANCELLED),
                  Change(WAITING_APPROVAL, PROCESS), Change(WAITING_APPROVAL, VERIFY), Change(WAITING_APPROVAL, CANCELLED),
                  Change(VERIFY, DONE), Change(VERIFY, PROCESS), Change(VERIFY, FAILED), Change(VERIFY, CANCELLED),
                  Change(FAILED, BACKLOG), Change(FAILED, CANCELLED), Change(CANCELLED, BACKLOG)]
  {
  }

  /** The card one step on: its new status in the row and the history, its task, and the event row, landed
      or not. */
  function MovedCard(card: Card, to: Status, task: Option<Task>, lands: bool): Card {
    var change := Change(card.status, to);
    Card(to, task, if lands then card.recorded + [change] else card.recorded,
         if lands then card.inFlight else card.inFlight + multiset{change}, card.history + [to], card.forAgent)
  }

  /** One card moved one step on, and nothing else changed. */
  predicate OnlyMoved(before: map<CardId, Card>, after: map<CardId, Card>, id: CardId, to: Status, task: Option<Task>, lands: bool) {
    id in before && after == before[id := MovedCard(before[id], to, task, lands)]
  }

  lemma SwapMoves(card: Card, to: Status, task: Option<Task>)
    ensures var swapped := Swapped(card.(task := task), Change(card.status, to));
            && swapped == MovedCard(card, to, task, false)
            && Recorded(swapped, Change(card.status, to)) == MovedCard(card, to, task, true)
  {
    var change := Change(card.status, to);
    assert card.inFlight + multiset{change} - multiset{change} == card.inFlight;
  }
}
