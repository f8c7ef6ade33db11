/** The sliding-window limit on tool calls. */
module RateLimit {
  const WINDOW: real := 60.0

  /** `popleft` while the head is at or before the cutoff. */
  function Prune(window: seq<real>, cutoff: real): seq<real> {
    if window != [] && window[0] <= cutoff then Prune(window[1..], cutoff) else window
  }

  predicate Sorted(a: seq<real>) { forall i, j | 0 <= i < j < |a| :: a[i] <= a[j] }

  /** On an ordered history, pruning keeps exactly the part behind the cutoff. */
  lemma {:induction false} PruneIsRecent(a: seq<real>, cutoff: real)
    requires Sorted(a)
    ensures |Prune(a, cutoff)| <= |a| && Prune(a, cutoff) == a[|a| - |Prune(a, cutoff)|..]
    ensures forall k | 0 <= k < |a| :: a[k] <= cutoff <==> k < |a| - |Prune(a, cutoff)|
  {
    if a != [] && a[0] <= cutoff { PruneIsRecent(a[1..], cutoff); }
  }

  lemma {:induction false} PruneTwice(a: seq<real>, earlier: real, later: real)
    requires earlier <= later
    ensures Prune(Prune(a, earlier), later) == Prune(a, later)
  {
    if a != [] && a[0] <= earlier { PruneTwice(a[1..], earlier, later); }
  }

  lemma {:induction false} PruneAppend(a: seq<real>, cutoff: real, x: real)
    requires cutoff < x
    ensures Prune(a + [x], cutoff) == Prune(a, cutoff) + [x]
  {
    if a != [] && a[0] <= cutoff {
      assert (a + [x])[1..] == a[1..] + [x];
      PruneAppend(a[1..], cutoff, x);
    }
  }

  // ---------- runs ----------

  /** A call of `_consume_tool_rate_limit` and its answer. */
  datatype Attempt = Attempt(principal: nat, now: real, granted: bool)

  /** The deque of `p` after the attempts. */
  function WindowAfter(log: seq<Attempt>, p: nat): seq<real> {
    if log == [] then []
    else
      var last := log[|log| - 1];
      WindowNext(WindowAfter(log[..|log| - 1], p), last, p)
  }

  function WindowNext(window: seq<real>, last: Attempt, p: nat): seq<real> {
    if last.principal != p then window
    else Prune(window, last.now - WINDOW) + (if last.granted then [last.now] else [])
  }

  /** The limiter answers `attempt` after `log`. */
  predicate AnswersRight(log: seq<Attempt>, attempt: Attempt, limit: nat) {
    attempt.granted <==> |Prune(WindowAfter(log, attempt.principal), attempt.now - WINDOW)| < limit
  }

  /** The start times of the granted calls of `p`. */
  function Granted(log: seq<Attempt>, p: nat): seq<real> {
    if log == [] then []
    else
      var last := log[|log| - 1];
      Granted(log[..|log| - 1], p) + (if last.principal == p && last.granted then [last.now] else [])
  }

  /** Every answer is the limiter's: granted exactly when the pruned deque is below the limit. */
  predicate Limited(log: seq<Attempt>, limit: nat) {
    forall k | 0 <= k < |log| :: AnswersRight(log[..k], log[k], limit)
  }

  predicate ClockOrdered(log: seq<Attempt>) { forall i, j | 0 <= i < j < |log| :: log[i].now <= log[j].now }

  lemma {:induction false} GrantedOrdered(log: seq<Attempt>, p: nat, now: real)
    requires ClockOrdered(log) && forall k | 0 <= k < |log| :: log[k].now <= now
    ensures Sorted(Granted(log, p)) && forall k | 0 <= k < |Granted(log, p)| :: Granted(log, p)[k] <= now
  {
    if log != [] {
      GrantedOrdered(log[..|log| - 1], p, log[|log| - 1].now);
    }
  }

  /** One attempt of `p` more, on the deque and on the history. */
  lemma HistoryNext(window: seq<real>, granted: seq<real>, last: Attempt, cutoff: real)
    requires Prune(window, last.now - WINDOW) == Prune(granted, last.now - WINDOW) && last.now - WINDOW <= cutoff
    ensures var own := if last.granted then [last.now] else [];
            Prune(WindowNext(window, last, last.principal), cutoff) == Prune(granted + own, cutoff)
  {
    var c := last.now - WINDOW;
    if last.granted {
      PruneAppend(window, c, last.now);
      PruneAppend(granted, c, last.now);
      PruneTwice(window + [last.now], c, cutoff);
      PruneTwice(granted + [last.now], c, cutoff);
    } else {
      PruneTwice(window, c, cutoff);
      PruneTwice(granted, c, cutoff);
      assert granted + [] == granted && Prune(window, c) + [] == Prune(window, c);
    }
  }

  /** At any later attempt the pruned deque is the whole granted history cut to the last minute. */
  lemma {:induction false} WindowIsHistory(log: seq<Attempt>, p: nat, now: real)
    requires ClockOrdered(log) && forall k | 0 <= k < |log| :: log[k].now <= now
    ensures Prune(WindowAfter(log, p), now - WINDOW) == Prune(Granted(log, p), now - WINDOW)
  {
    if log != [] {
      var before, last := log[..|log| - 1], log[|log| - 1];
      if last.principal != p {
        WindowIsHistory(before, p, now);
        assert Granted(log, p) == Granted(before, p);
      } else {
        WindowIsHistory(before, p, last.now);
        HistoryNext(WindowAfter(before, p), Granted(before, p), last, now - WINDOW);
      }
    }
  }

  /** Any `limit` granted calls of one principal are followed by the next no earlier than a minute
      after the first of them. */
  predicate Spaced(a: seq<real>, limit: nat) {
    forall k: nat | k + limit < |a| :: a[k] + WINDOW <= a[k + limit]
  }

  lemma AppendSpaced(a: seq<real>, limit: nat, x: real)
    requires limit > 0 && Spaced(a, limit) && (|a| >= limit ==> a[|a| - limit] + WINDOW <= x)
    ensures Spaced(a + [x], limit)
  {
    var b := a + [x];
    forall k: nat | k + limit < |b| ensures b[k] + WINDOW <= b[k + limit] {
      if k + limit < |a| { assert a[k] + WINDOW <= a[k + limit]; }
    }
  }

  lemma LimitedPrefix(log: seq<Attempt>, limit: nat)
    requires Limited(log, limit) && ClockOrdered(log) && log != []
    ensures Limited(log[..|log| - 1], limit) && ClockOrdered(log[..|log| - 1])
  {
    var before := log[..|log| - 1];
    forall k | 0 <= k < |before| ensures AnswersRight(before[..k], before[k], limit) {
      assert log[..k] == before[..k] && log[k] == before[k];
    }
  }

  /** A granted call finds less than the limit in the last minute of the granted history. */
  lemma GrantFindsRoom(log: seq<Attempt>, limit: nat)
    requires Limited(log, limit) && ClockOrdered(log) && log != [] && log[|log| - 1].granted
    ensures var last := log[|log| - 1];
            var g := Granted(log[..|log| - 1], last.principal);
            |g| >= limit > 0 ==> g[|g| - limit] + WINDOW <= last.now
  {
    var before, last := log[..|log| - 1], log[|log| - 1];
    WindowIsHistory(before, last.principal, last.now);
    GrantedOrdered(before, last.principal, last.now);
    PruneIsRecent(Granted(before, last.principal), last.now - WINDOW);
    assert AnswersRight(log[..|log| - 1], log[|log| - 1], limit);
  }

  lemma {:induction false} GrantedSpaced(log: seq<Attempt>, p: nat, limit: nat)
    requires Limited(log, limit) && ClockOrdered(log) && limit > 0
    ensures Spaced(Granted(log, p), limit)
  {
    if log != [] {
      LimitedPrefix(log, limit);
      GrantedSpaced(log[..|log| - 1], p, limit);
      var g, last := Granted(log[..|log| - 1], p), log[|log| - 1];
      if last.principal == p && last.granted {
        GrantFindsRoom(log, limit);
        AppendSpaced(g, limit, last.now);
      } else {
        assert g + [] == g;
      }
    }
  }

  // ---------- counting ----------

  /** A minute from `t` on, closed at one end. */
  predicate Within(x: real, t: real, closedLeft: bool) {
    if closedLeft then t <= x < t + WINDOW else t < x <= t + WINDOW
  }

  function Count(a: seq<real>, t: real, closedLeft: bool): nat {
    if a == [] then 0
    else Count(a[..|a| - 1], t, closedLeft) + (if Within(a[|a| - 1], t, closedLeft) then 1 else 0)
  }

  lemma {:induction false} CountSkips(a: seq<real>, m: nat, t: real, closedLeft: bool)
    requires m <= |a| && forall k | 0 <= k < m :: !Within(a[k], t, closedLeft)
    ensures Count(a, t, closedLeft) <= |a| - m
  {
    if a != [] {
      if m == |a| {
        CountSkips(a[..|a| - 1], m - 1, t, closedLeft);
      } else {
        CountSkips(a[..|a| - 1], m, t, closedLeft);
      }
    }
  }

  /** Spaced times put at most `limit` into any minute. */
  lemma {:induction false} SpacedCount(a: seq<real>, limit: nat, t: real, closedLeft: bool)
    requires Sorted(a) && Spaced(a, limit) && limit > 0
    ensures Count(a, t, closedLeft) <= limit
  {
    if a != [] {
      var n := |a| - 1;
      if Within(a[n], t, closedLeft) {
        if n >= limit {
          assert a[n - limit] + WINDOW <= a[n - limit + limit];
          forall k | 0 <= k < n - limit + 1 ensures !Within(a[k], t, closedLeft) {
            assert k < n - limit ==> a[k] <= a[n - limit];
          }
          CountSkips(a, n - limit + 1, t, closedLeft);
        } else {
          CountSkips(a, 0, t, closedLeft);
        }
      } else {
        SpacedCount(a[..n], limit, t, closedLeft);
      }
    }
  }

  /** No half-open minute holds more than the limit of granted calls of one principal. */
  lemma AtMostLimitPerMinute(log: seq<Attempt>, p: nat, limit: nat, t: real, closedLeft: bool)
    requires Limited(log, limit) && ClockOrdered(log) && limit > 0
    ensures Count(Granted(log, p), t, closedLeft) <= limit
  {
    GrantedSpaced(log, p, limit);
    if log == [] {
      assert Granted(log, p) == [];
    } else {
      GrantedOrdered(log, p, log[|log| - 1].now);
    }
    SpacedCount(Granted(log, p), limit, t, closedLeft);
  }

  /** What a pruned history still holds lies within the minute. */
  lemma PrunedCount(g: seq<real>, now: real)
    requires Sorted(g) && forall k | 0 <= k < |g| :: g[k] <= now
    ensures Count(g, now - WINDOW, false) >= |Prune(g, now - WINDOW)|
  {
    PruneIsRecent(g, now - WINDOW);
    CountTail(g, |g| - |Prune(g, now - WINDOW)|, now - WINDOW, false);
  }

  /** The limiter refuses only when it must: a refused call finds the limit used up in the last minute. */
  lemma RefusedOnlyWhenFull(log: seq<Attempt>, k: nat, limit: nat)
    requires Limited(log, limit) && ClockOrdered(log) && k < |log| && !log[k].granted
    ensures Count(Granted(log[..k], log[k].principal), log[k].now - WINDOW, false) >= limit
  {
    var before, p, now := log[..k], log[k].principal, log[k].now;
    assert AnswersRight(log[..k], log[k], limit);
    WindowIsHistory(before, p, now);
    GrantedOrdered(before, p, now);
    PrunedCount(Granted(before, p), now);
  }

  lemma {:induction false} CountTail(a: seq<real>, m: nat, t: real, closedLeft: bool)
    requires m <= |a| && forall k | m <= k < |a| :: Within(a[k], t, closedLeft)
    ensures Count(a, t, closedLeft) >= |a| - m
  {
    if m < |a| { CountTail(a[..|a| - 1], m, t, closedLeft); }
  }

  // ---------- one attempt more ----------

  lemma WindowAppend(log: seq<Attempt>, attempt: Attempt, p: nat)
    ensures WindowAfter(log + [attempt], p) == WindowNext(WindowAfter(log, p), attempt, p)
  {
    var all := log + [attempt];
    assert all[..|all| - 1] == log;
  }

  lemma LimitedAppend(log: seq<Attempt>, attempt: Attempt, limit: nat)
    requires Limited(log, limit) && AnswersRight(log, attempt, limit)
    ensures Limited(log + [attempt], limit)
  {
    var all := log + [attempt];
    forall k | 0 <= k < |all| ensures AnswersRight(all[..k], all[k], limit) {
      if k < |log| { assert all[..k] == log[..k] && all[k] == log[k]; } else { assert all[..k] == log; }
    }
  }
}
