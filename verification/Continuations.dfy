/** The Hub's table of federated continuations: bounded, expiring and single-use. */
module Continuations {
  import opened Wrappers
  import Utf8

  type Handle = nat
  type State = nat

  const LIFETIME: real := 300.0
  const CAPACITY: nat := 4096

  /** Whom a continuation belongs to; `arguments` stands for the hash of the arguments. */
  datatype Caller = Caller(principal: nat, upstream: nat, tool: Utf8.Text, arguments: nat)

  datatype Record = Record(caller: Caller, state: State, expires: real)

  datatype Entry = Entry(handle: Handle, record: Record)

  /** The dictionary, in insertion order. */
  type Table = seq<Entry>

  // ---------- deleting keys ----------

  datatype Criterion = NotExpired(now: real) | NotHandle(handle: Handle)

  predicate Stays(c: Criterion, e: Entry) {
    match c
    case NotExpired(now) => now < e.record.expires
    case NotHandle(h) => e.handle != h
  }

  function Keep(t: Table, c: Criterion): Table {
    if t == [] then [] else (if Stays(c, t[0]) then [t[0]] else []) + Keep(t[1..], c)
  }

  lemma {:induction false} KeepConcat(a: Table, b: Table, c: Criterion)
    ensures Keep(a + b, c) == Keep(a, c) + Keep(b, c)
  {
    if a == [] {
      assert a + b == b;
    } else {
      var rest := a[1..];
      var first := if Stays(c, a[0]) then [a[0]] else [];
      assert (a + b)[0] == a[0] && (a + b)[1..] == rest + b;
      KeepConcat(rest, b, c);
      assert Keep(a + b, c) == first + (Keep(rest, c) + Keep(b, c)) == first + Keep(rest, c) + Keep(b, c);
    }
  }

  lemma {:induction false} KeepMember(t: Table, c: Criterion, e: Entry)
    ensures e in Keep(t, c) <==> e in t && Stays(c, e)
  {
    if t != [] {
      KeepMember(t[1..], c, e);
      assert e in t <==> e == t[0] || e in t[1..];
    }
  }

  lemma {:induction false} KeepLength(t: Table, c: Criterion)
    ensures |Keep(t, c)| <= |t|
    ensures (exists e :: e in t && !Stays(c, e)) ==> |Keep(t, c)| < |t|
  {
    if t != [] {
      KeepLength(t[1..], c);
      if e :| e in t && !Stays(c, e) && Stays(c, t[0]) {
        assert e in t[1..];
      }
    }
  }

  // ---------- the shape of a table ----------

  predicate Sorted(t: Table) {
    forall i, j | 0 <= i < j < |t| :: t[i].record.expires <= t[j].record.expires
  }

  predicate Distinct(t: Table) {
    forall i, j | 0 <= i < j < |t| :: t[i].handle != t[j].handle
  }

  predicate WellFormed(t: Table) { Sorted(t) && Distinct(t) && |t| <= CAPACITY }

  predicate Holds(t: Table, h: Handle) { exists e :: e in t && e.handle == h }

  /** The dictionary lookup `get(handle)`. */
  function Get(t: Table, h: Handle): (r: Option<Record>)
    ensures r.Some? ==> Entry(h, r.value) in t
    ensures r.None? <==> !Holds(t, h)
  {
    if t == [] then None
    else if t[0].handle == h then
      assert t[0] in t;
      Some(t[0].record)
    else
      var r := Get(t[1..], h);
      assert forall e :: e in t <==> e == t[0] || e in t[1..];
      r
  }

  lemma GetMember(t: Table, e: Entry)
    requires Distinct(t) && e in t
    ensures Get(t, e.handle) == Some(e.record)
  {
    var r := Get(t, e.handle);
    assert Holds(t, e.handle);
    var i :| 0 <= i < |t| && t[i] == e;
    var j :| 0 <= j < |t| && t[j] == Entry(e.handle, r.value);
  }

  lemma {:induction false} KeepShape(t: Table, c: Criterion)
    requires Sorted(t) && Distinct(t)
    ensures Sorted(Keep(t, c)) && Distinct(Keep(t, c)) && |Keep(t, c)| <= |t|
  {
    if t != [] {
      var kept := Keep(t[1..], c);
      KeepShape(t[1..], c);
      KeptBehind(t, c, kept);
      PutFirst(t[0], kept);
    }
  }

  /** An entry in front of a table whose entries all expire later and have other handles. */
  lemma PutFirst(e: Entry, t: Table)
    requires Sorted(t) && Distinct(t)
    requires forall i | 0 <= i < |t| :: e.record.expires <= t[i].record.expires && e.handle != t[i].handle
    ensures Sorted([e] + t) && Distinct([e] + t)
  {
  }

  lemma KeptBehind(t: Table, c: Criterion, kept: Table)
    requires Sorted(t) && Distinct(t) && t != [] && kept == Keep(t[1..], c)
    ensures forall i | 0 <= i < |kept| :: t[0].record.expires <= kept[i].record.expires && t[0].handle != kept[i].handle
  {
    forall i | 0 <= i < |kept| ensures t[0].record.expires <= kept[i].record.expires && t[0].handle != kept[i].handle {
      KeepMember(t[1..], c, kept[i]);
      FirstBefore(t, kept[i]);
    }
  }

  /** The first entry expires no later than any other, and has another handle. */
  lemma FirstBefore(t: Table, e: Entry)
    requires Sorted(t) && Distinct(t) && t != [] && e in t[1..]
    ensures t[0].record.expires <= e.record.expires && t[0].handle != e.handle
  {
    var j :| 0 <= j < |t[1..]| && t[1..][j] == e;
    assert t[j + 1] == e;
  }

  // ---------- one call ----------

  /** `min` over the dictionary: the first entry that expires earliest. */
  predicate FirstMin(t: Table, k: nat) {
    && k < |t|
    && (forall j | 0 <= j < |t| :: t[k].record.expires <= t[j].record.expires)
    && (forall j | 0 <= j < k :: t[k].record.expires < t[j].record.expires)
  }

  function Earliest(t: Table): (k: nat)
    requires t != []
    ensures FirstMin(t, k)
  {
    if |t| == 1 then 0
    else
      var last: nat := |t| - 1;
      var k := Earliest(t[..last]);
      if t[last].record.expires < t[k].record.expires then last else k
  }

  function Evict(t: Table): Table {
    if |t| >= CAPACITY then Keep(t, NotHandle(t[Earliest(t)].handle)) else t
  }

  /** Eviction removes exactly one entry, and none of those that stay expires earlier. */
  lemma EvictsEarliest(t: Table)
    requires Distinct(t) && |t| >= CAPACITY
    ensures exists out :: out in t && out !in Evict(t)
              && (forall e | e in t && e != out :: e in Evict(t) && out.record.expires <= e.record.expires)
  {
    var out := t[Earliest(t)];
    forall e | e in t ensures e in Evict(t) <==> e != out {
      KeepMember(t, NotHandle(out.handle), e);
      GetMember(t, e);
      GetMember(t, out);
    }
  }

  function StoreAt(t: Table, now: real, h: Handle, caller: Caller, state: State): Table {
    Evict(Keep(t, NotExpired(now))) + [Entry(h, Record(caller, state, now + LIFETIME))]
  }

  function TakeAt(t: Table, now: real, h: Handle, caller: Caller): (Option<State>, Table) {
    match Get(t, h)
    case None => (None, t)
    case Some(record) =>
      if record.expires <= now then (None, Keep(t, NotHandle(h)))
      else if record.caller != caller then (None, t)
      else (Some(record.state), Keep(t, NotHandle(h)))
  }

  class ContinuationTable {
    var entries: Table

    constructor ()
      ensures entries == []
    {
      entries := [];
    }

    /** `del self._continuations[key]`. */
    method Delete(h: Handle)
      modifies this
      ensures entries == Keep(old(entries), NotHandle(h))
    {
      entries := Keep(entries, NotHandle(h));
    }

    /** The key whose entry `min` selects. */
    method Oldest() returns (k: nat)
      requires entries != []
      ensures k == Earliest(entries)
    {
      k := 0;
      for i := 1 to |entries|
        invariant FirstMin(entries[..i], k)
      {
        assert entries[..i + 1][..i] == entries[..i];
        if entries[i].record.expires < entries[k].record.expires { k := i; }
      }
      assert entries[..|entries|] == entries;
      var other := Earliest(entries);
      assert !(k < other) && !(other < k);
    }

    /** Deletes every expired key, in the order of the dictionary. */
    method DeleteExpired(now: real)
      requires Distinct(entries)
      modifies this
      ensures entries == Keep(old(entries), NotExpired(now))
    {
      var all := entries;
      var live: Table := [];
      for i := 0 to |all|
        invariant entries == all && live == Keep(all[..i], NotExpired(now))
      {
        assert all[..i + 1] == all[..i] + [all[i]];
        KeepConcat(all[..i], [all[i]], NotExpired(now));
        if now < all[i].record.expires { live := live + [all[i]]; }
      }
      assert all[..|all|] == all;
      entries := live;
    }

    /** `_store_continuation`; `h` is the fresh handle. */
    method Store(now: real, h: Handle, caller: Caller, state: State)
      requires WellFormed(entries) && !Holds(entries, h)
      modifies this
      ensures entries == StoreAt(old(entries), now, h, caller, state)
    {
      DeleteExpired(now);
      if |entries| >= CAPACITY {
        var k := Oldest();
        Delete(entries[k].handle);
      }
      entries := entries + [Entry(h, Record(caller, state, now + LIFETIME))];
    }

    /** `_take_continuation`. */
    method Take(now: real, h: Handle, caller: Caller) returns (r: Option<State>)
      modifies this
      ensures (r, entries) == TakeAt(old(entries), now, h, caller)
    {
      var record := Get(entries, h);
      if record.None? { return None; }
      if record.value.expires <= now {
        Delete(h);
        return None;
      }
      if record.value.caller != caller { return None; }
      Delete(h);
      return Some(record.value.state);
    }
  }

  // ---------- runs ----------

  datatype Call =
    | Store(now: real, handle: Handle, caller: Caller, state: State)
    | Take(now: real, handle: Handle, caller: Caller)

  function Step(t: Table, call: Call): Table {
    match call
    case Store(now, h, caller, state) => StoreAt(t, now, h, caller, state)
    case Take(now, h, caller) => TakeAt(t, now, h, caller).1
  }

  /** What one call delivers. */
  function Delivery(t: Table, call: Call): Option<State> {
    match call
    case Store(_, _, _, _) => None
    case Take(now, h, caller) => TakeAt(t, now, h, caller).0
  }

  /** A history: the calls, the tables before and after them, and what each call delivered. */
  datatype History = History(calls: seq<Call>, tables: seq<Table>, delivered: seq<Option<State>>)

  predicate Happens(t: Table, call: Call, t': Table, delivered: Option<State>) {
    t' == Step(t, call) && delivered == Delivery(t, call)
  }

  /** The history of a run that starts with an empty table. */
  predicate Run(h: History) {
    && |h.tables| == |h.calls| + 1 && |h.delivered| == |h.calls| && h.tables[0] == []
    && forall k {:trigger Happens(h.tables[k], h.calls[k], h.tables[k + 1], h.delivered[k])} | 0 <= k < |h.calls| ::
         Happens(h.tables[k], h.calls[k], h.tables[k + 1], h.delivered[k])
  }

  /** The clock does not run backwards, and no handle is drawn twice. */
  predicate Plausible(h: History) {
    && Run(h)
    && (forall i, j | 0 <= i < j < |h.calls| :: h.calls[i].now <= h.calls[j].now)
    && (forall i, j | 0 <= i < j < |h.calls| && h.calls[i].Store? && h.calls[j].Store? :: h.calls[i].handle != h.calls[j].handle)
  }

  function Handles(calls: seq<Call>): set<Handle> { set k | 0 <= k < |calls| && calls[k].Store? :: calls[k].handle }

  /** A run is plausible exactly when no call comes before its predecessor and each stored handle is new;
      calls may come at the same instant. */
  lemma PlausibleExactly(h: History)
    requires Run(h)
    ensures Plausible(h) <==>
            && (forall k | 0 < k < |h.calls| :: !(h.calls[k].now < h.calls[k - 1].now))
            && (forall k | 0 <= k < |h.calls| && h.calls[k].Store? :: h.calls[k].handle !in Handles(h.calls[..k]))
  {
    if (forall k | 0 < k < |h.calls| :: !(h.calls[k].now < h.calls[k - 1].now))
       && (forall k | 0 <= k < |h.calls| && h.calls[k].Store? :: h.calls[k].handle !in Handles(h.calls[..k])) {
      forall i, j | 0 <= i < j < |h.calls| ensures h.calls[i].now <= h.calls[j].now { ClockChains(h.calls, i, j); }
      forall i, j | 0 <= i < j < |h.calls| && h.calls[i].Store? && h.calls[j].Store?
        ensures h.calls[i].handle != h.calls[j].handle
      {
        assert h.calls[..j][i] == h.calls[i];
      }
    }
  }

  lemma {:induction false} ClockChains(calls: seq<Call>, i: nat, j: nat)
    requires i <= j < |calls| && forall k | 0 < k < |calls| :: !(calls[k].now < calls[k - 1].now)
    ensures calls[i].now <= calls[j].now
  {
    if i < j { ClockChains(calls, i, j - 1); }
  }

  lemma Happened(h: History, k: nat)
    requires Run(h) && k < |h.calls|
    ensures h.tables[k + 1] == Step(h.tables[k], h.calls[k]) && h.delivered[k] == Delivery(h.tables[k], h.calls[k])
  {
    assert Happens(h.tables[k], h.calls[k], h.tables[k + 1], h.delivered[k]);
  }

  /** Every sequence of calls has its history. */
  lemma {:induction false} Replay(calls: seq<Call>) returns (h: History)
    ensures h.calls == calls && Run(h)
  {
    if calls == [] {
      h := History([], [[]], []);
    } else {
      var n := |calls| - 1;
      var g := Replay(calls[..n]);
      var t := g.tables[n];
      h := History(calls, g.tables + [Step(t, calls[n])], g.delivered + [Delivery(t, calls[n])]);
      forall k | 0 <= k < |calls| ensures Happens(h.tables[k], h.calls[k], h.tables[k + 1], h.delivered[k]) {
        if k < n { assert Happens(g.tables[k], g.calls[k], g.tables[k + 1], g.delivered[k]); }
      }
    }
  }

  /** Entry `e` was made by call `i`. */
  predicate MadeBy(call: Call, e: Entry) {
    call.Store? && e == Entry(call.handle, Record(call.caller, call.state, call.now + LIFETIME))
  }

  lemma StepMember(t: Table, call: Call, e: Entry)
    requires e in Step(t, call)
    ensures e in t || MadeBy(call, e)
    ensures call.Take? && TakeAt(t, call.now, call.handle, call.caller).0.Some? ==> e.handle != call.handle
  {
    match call
    case Store(now, h, caller, state) =>
      var live := Keep(t, NotExpired(now));
      if e in Evict(live) {
        if |live| >= CAPACITY { KeepMember(live, NotHandle(live[Earliest(live)].handle), e); }
        KeepMember(t, NotExpired(now), e);
      }
    case Take(now, h, caller) => KeepMember(t, NotHandle(h), e);
  }

  /** Where an entry of the table comes from, one call back. */
  lemma OriginStep(h: History, n: nat, e: Entry)
    requires Run(h) && n < |h.calls| && e in h.tables[n + 1]
    ensures e in h.tables[n] || MadeBy(h.calls[n], e)
    ensures h.calls[n].handle == e.handle ==> h.delivered[n].None?
  {
    Happened(h, n);
    StepMember(h.tables[n], h.calls[n], e);
  }

  /** Every entry of the table was made by an earlier call and not delivered since. */
  lemma {:induction false} Origin(h: History, n: nat, e: Entry) returns (i: nat)
    requires Plausible(h) && n <= |h.calls| && e in h.tables[n]
    ensures i < n && MadeBy(h.calls[i], e)
    ensures forall k | i < k < n && h.calls[k].handle == e.handle :: h.delivered[k].None?
  {
    assert n > 0;
    OriginStep(h, n - 1, e);
    if MadeBy(h.calls[n - 1], e) {
      i := n - 1;
    } else {
      i := Origin(h, n - 1, e);
    }
  }

  lemma EvictShape(t: Table)
    requires WellFormed(t)
    ensures WellFormed(Evict(t)) && |Evict(t)| < CAPACITY
    ensures forall e | e in Evict(t) :: e in t
  {
    if |t| >= CAPACITY {
      var out := t[Earliest(t)];
      var c := NotHandle(out.handle);
      KeepShape(t, c);
      assert out in t && !Stays(c, out);
      KeepLength(t, c);
      forall e | e in Evict(t) ensures e in t { KeepMember(t, c, e); }
    }
  }

  lemma AppendShape(t: Table, e: Entry)
    requires WellFormed(t) && |t| < CAPACITY && !Holds(t, e.handle)
    requires forall x | x in t :: x.record.expires <= e.record.expires
    ensures WellFormed(t + [e])
  {
    var u := t + [e];
    forall k | 0 <= k < |t| ensures u[k] in t && u[k].handle != e.handle && u[k].record.expires <= e.record.expires {
    }
  }

  lemma StoreShape(t: Table, now: real, h: Handle, caller: Caller, state: State)
    requires WellFormed(t) && !Holds(t, h)
    requires forall e | e in t :: e.record.expires <= now + LIFETIME
    ensures WellFormed(StoreAt(t, now, h, caller, state))
  {
    var live := Keep(t, NotExpired(now));
    KeepShape(t, NotExpired(now));
    EvictShape(live);
    forall e | e in live ensures e in t { KeepMember(t, NotExpired(now), e); }
    AppendShape(Evict(live), Entry(h, Record(caller, state, now + LIFETIME)));
  }

  /** What is in the table was stored before, so it has another handle and expires no later. */
  lemma EarlierEntries(h: History, n: nat, e: Entry)
    requires Plausible(h) && n < |h.calls| && h.calls[n].Store? && e in h.tables[n]
    ensures e.record.expires <= h.calls[n].now + LIFETIME && e.handle != h.calls[n].handle
  {
    var i := Origin(h, n, e);
  }

  lemma StepShape(t: Table, call: Call)
    requires WellFormed(t)
    requires call.Store? ==> forall e | e in t :: e.record.expires <= call.now + LIFETIME && e.handle != call.handle
    ensures WellFormed(Step(t, call))
  {
    match call
    case Store(now, h, caller, state) => StoreShape(t, now, h, caller, state);
    case Take(now, h, caller) => KeepShape(t, NotHandle(h));
  }

  lemma BoundedNext(h: History, n: nat)
    requires Plausible(h) && n < |h.calls| && WellFormed(h.tables[n])
    ensures WellFormed(h.tables[n + 1])
  {
    if h.calls[n].Store? {
      forall e | e in h.tables[n] ensures e.record.expires <= h.calls[n].now + LIFETIME && e.handle != h.calls[n].handle {
        EarlierEntries(h, n, e);
      }
    }
    Happened(h, n);
    StepShape(h.tables[n], h.calls[n]);
  }

  /** The table never exceeds its capacity, and is always in order of expiry. */
  lemma {:induction false} Bounded(h: History, n: nat)
    requires Plausible(h) && n <= |h.calls|
    ensures WellFormed(h.tables[n]) && |h.tables[n]| <= 4096
  {
    if n > 0 {
      Bounded(h, n - 1);
      BoundedNext(h, n - 1);
    }
  }

  /** A delivered state was stored under the same handle by the same principal, for the same
      upstream, tool and arguments, less than 300 seconds before, and is delivered for the first time. */
  lemma DeliveredSafely(h: History, j: nat) returns (i: nat)
    requires Plausible(h) && j < |h.calls| && h.delivered[j].Some?
    ensures i < j && h.calls[i].Store? && h.calls[i].handle == h.calls[j].handle && h.calls[i].caller == h.calls[j].caller
    ensures h.delivered[j] == Some(h.calls[i].state) && h.calls[j].now < h.calls[i].now + 300.0
    ensures forall k | i < k < j && h.calls[k].handle == h.calls[j].handle :: h.delivered[k].None?
  {
    Happened(h, j);
    var record := Get(h.tables[j], h.calls[j].handle).value;
    i := Origin(h, j, Entry(h.calls[j].handle, record));
  }

  /** Each stored state is delivered at most once. */
  lemma DeliveredOnce(h: History, j: nat, k: nat)
    requires Plausible(h) && j < k < |h.calls| && h.delivered[j].Some? && h.delivered[k].Some?
    ensures h.calls[j].handle != h.calls[k].handle
  {
    var i := DeliveredSafely(h, j);
    var i' := DeliveredSafely(h, k);
    assert h.calls[j].handle == h.calls[k].handle ==> i == i';
  }

  /** How many continuations the calls from `from` to `to` store. */
  function Stores(h: History, from: nat, to: nat): nat
    requires from <= to <= |h.calls|
  {
    if from == to then 0 else Stores(h, from, to - 1) + (if h.calls[to - 1].Store? then 1 else 0)
  }

  /** It is their number. */
  lemma {:induction false} StoresCounts(h: History, from: nat, to: nat)
    requires from <= to <= |h.calls|
    ensures Stores(h, from, to) == |set k | from <= k < to && h.calls[k].Store?|
  {
    var all := set k | from <= k < to && h.calls[k].Store?;
    if from < to {
      StoresCounts(h, from, to - 1);
      var before := set k | from <= k < to - 1 && h.calls[k].Store?;
      assert all == before + (if h.calls[to - 1].Store? then {to - 1} else {});
    } else {
      assert all == {};
    }
  }

  /** One call keeps an entry that it neither delivers, nor finds expired, nor can evict. */
  lemma StepKeeps(t: Table, call: Call, e: Entry, before: Table, behind: Table) returns (before': Table, behind': Table)
    requires WellFormed(t) && t == before + [e] + behind && call.now < e.record.expires
    requires call.Take? && call.handle == e.handle ==> TakeAt(t, call.now, call.handle, call.caller).0.None?
    requires call.Store? ==> |behind| + 1 < CAPACITY
    ensures Step(t, call) == before' + [e] + behind'
    ensures |behind'| <= |behind| + (if call.Store? then 1 else 0)
  {
    match call
    case Store(now, h, caller, state) => before', behind' := StoreStepKeeps(t, now, h, caller, state, e, before, behind);
    case Take(now, h, caller) => before', behind' := TakeStepKeeps(t, now, h, caller, e, before, behind);
  }

  lemma StoreStepKeeps(t: Table, now: real, h: Handle, caller: Caller, state: State, e: Entry, before: Table, behind: Table)
    returns (before': Table, behind': Table)
    requires WellFormed(t) && t == before + [e] + behind && now < e.record.expires && |behind| + 1 < CAPACITY
    ensures StoreAt(t, now, h, caller, state) == before' + [e] + behind' && |behind'| <= |behind| + 1
  {
    before', behind' := KeepAround(t, NotExpired(now), e, before, behind);
    KeepShape(t, NotExpired(now));
    before', behind' := EvictKeeps(Keep(t, NotExpired(now)), e, before', behind');
    behind' := behind' + [Entry(h, Record(caller, state, now + LIFETIME))];
  }

  lemma EvictKeeps(live: Table, e: Entry, before: Table, behind: Table) returns (before': Table, behind': Table)
    requires WellFormed(live) && live == before + [e] + behind && |behind| + 1 < CAPACITY
    ensures Evict(live) == before' + [e] + behind' && |behind'| <= |behind|
  {
    before', behind' := before, behind;
    if |live| >= CAPACITY {
      assert before != [] && live[0] == before[0] && live[|before|] == e;
      assert Earliest(live) == 0;
      before', behind' := KeepAround(live, NotHandle(live[0].handle), e, before, behind);
    }
  }

  lemma TakeStepKeeps(t: Table, now: real, h: Handle, caller: Caller, e: Entry, before: Table, behind: Table)
    returns (before': Table, behind': Table)
    requires WellFormed(t) && t == before + [e] + behind && now < e.record.expires
    requires h == e.handle ==> TakeAt(t, now, h, caller).0.None?
    ensures TakeAt(t, now, h, caller).1 == before' + [e] + behind' && |behind'| <= |behind|
  {
    before', behind' := before, behind;
    if h == e.handle {
      assert e in t;
      GetMember(t, e);
    } else if TakeAt(t, now, h, caller).1 != t {
      before', behind' := KeepAround(t, NotHandle(h), e, before, behind);
    }
  }

  lemma KeepAround(t: Table, c: Criterion, e: Entry, before: Table, behind: Table) returns (before': Table, behind': Table)
    requires t == before + [e] + behind && Stays(c, e)
    ensures Keep(t, c) == before' + [e] + behind' && |behind'| <= |behind|
  {
    before', behind' := Keep(before, c), Keep(behind, c);
    KeepConcat(before + [e], behind, c);
    KeepConcat(before, [e], c);
    KeepLength(behind, c);
  }

  lemma SurvivesFirst(h: History, i: nat, e: Entry) returns (before: Table)
    requires Run(h) && i < |h.calls| && MadeBy(h.calls[i], e)
    ensures h.tables[i + 1] == before + [e] + []
  {
    Happened(h, i);
    before := Evict(Keep(h.tables[i], NotExpired(h.calls[i].now)));
    assert before + [e] + [] == before + [e];
  }

  lemma SurvivesNext(h: History, n: nat, e: Entry, before: Table, behind: Table) returns (before': Table, behind': Table)
    requires Plausible(h) && n < |h.calls| && h.tables[n] == before + [e] + behind
    requires h.calls[n].now < e.record.expires && (h.calls[n].Store? ==> |behind| + 1 < CAPACITY)
    requires h.calls[n].handle == e.handle ==> h.delivered[n].None?
    ensures h.tables[n + 1] == before' + [e] + behind'
    ensures |behind'| <= |behind| + (if h.calls[n].Store? then 1 else 0)
  {
    Bounded(h, n);
    Happened(h, n);
    before', behind' := StepKeeps(h.tables[n], h.calls[n], e, before, behind);
  }

  /** Entry `e` stands in table `t` with at most `later` entries behind it. */
  predicate Stands(t: Table, e: Entry, before: Table, behind: Table, later: nat) {
    t == before + [e] + behind && |behind| <= later
  }

  /** A stored entry stays in the table until it is delivered or expires, unless 4096 further
      continuations are stored; at most the later ones stand behind it. */
  lemma {:induction false} Survives(h: History, i: nat, n: nat, e: Entry) returns (before: Table, behind: Table)
    requires Plausible(h) && i < n <= |h.calls| && MadeBy(h.calls[i], e)
    requires forall k | i < k < n :: h.calls[k].now < e.record.expires
    requires forall k | i < k < n && h.calls[k].handle == e.handle :: h.delivered[k].None?
    requires Stores(h, i + 1, n) < CAPACITY
    ensures Stands(h.tables[n], e, before, behind, Stores(h, i + 1, n))
  {
    if n == i + 1 {
      before := SurvivesFirst(h, i, e);
      behind := [];
    } else {
      before, behind := Survives(h, i, n - 1, e);
      before, behind := SurvivesNext(h, n - 1, e, before, behind);
    }
  }

  /** The owner gets the state back, whatever others tried in between: it is delivered unless it was
      delivered already, has expired, or was pushed out by 4096 later continuations. */
  lemma DeliveredWhenDue(h: History, i: nat, j: nat)
    requires Plausible(h) && i < j < |h.calls| && h.calls[i].Store? && h.calls[j].Take?
    requires h.calls[j].handle == h.calls[i].handle && h.calls[j].caller == h.calls[i].caller
    requires h.calls[j].now < h.calls[i].now + 300.0
    requires forall k | i < k < j && h.calls[k].handle == h.calls[i].handle :: h.delivered[k].None?
    requires Stores(h, i + 1, j) < 4096
    ensures h.delivered[j] == Some(h.calls[i].state)
  {
    var e := Entry(h.calls[i].handle, Record(h.calls[i].caller, h.calls[i].state, h.calls[i].now + LIFETIME));
    var before, behind := Survives(h, i, j, e);
    Bounded(h, j);
    Happened(h, j);
    assert (before + [e] + behind)[|before|] == e;
    GetMember(h.tables[j], e);
  }
}
