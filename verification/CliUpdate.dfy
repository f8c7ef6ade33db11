/** The resident agent's command-line tool: immutable version directories behind two links. */
module CliUpdate {
  import opened Wrappers

  type Dir = nat

  datatype Triple = Triple(major: nat, minor: nat, patch: nat)

  /** What a binary prints as its version, and what `_semver` finds in it. */
  datatype Version = Version(text: nat, triple: Option<Triple>)

  /** A binary, known by its SHA-256, and the version it reports. */
  datatype Binary = Binary(sha256: nat, version: Version)

  predicate Less(a: Triple, b: Triple) {
    a.major < b.major || (a.major == b.major && (a.minor < b.minor || (a.minor == b.minor && a.patch < b.patch)))
  }

  lemma LessTransitive(a: Triple, b: Triple, c: Triple)
    requires !Less(b, a) && !Less(c, b)
    ensures !Less(c, a)
  {
  }

  datatype Outcome = Deferred | Throttled | Current | Installed | Updated | RolledBack | Failed | Raised

  /** The links and the version directories. */
  datatype Store = Store(current: Option<Dir>, previous: Option<Dir>, versions: map<Dir, Binary>)

  predicate WellFormed(s: Store) {
    && (s.current.Some? ==> s.current.value in s.versions)
    && (s.previous.Some? ==> s.previous.value in s.versions)
  }

  /** The version of the active binary. */
  function Active(s: Store): Option<Version>
    requires WellFormed(s)
  {
    if s.current.None? then None else Some(s.versions[s.current.value].version)
  }

  function ActiveTriple(s: Store): Option<Triple>
    requires WellFormed(s)
  {
    if Active(s).None? then None else Active(s).value.triple
  }

  /** Everything outside: the layout, the work claim, the age of the last check, the staged release
      (None when staging fails) and its directory name, whether the running binary tells its version,
      the copy's checksum, and the two probes behind the cutover. */
  datatype Env = Env(writable: bool, claimed: bool, force: bool, recent: bool, staged: Option<Binary>, dir: Dir,
                     tells: bool, copies: bool, verifies: bool, probes: bool)

  /** What every call of `ensure_latest` keeps and changes. */
  predicate Ensures(a: Store, b: Store, env: Env, outcome: Outcome) {
    && WellFormed(a) && WellFormed(b)
    && (forall d | d in a.versions :: d in b.versions && b.versions[d] == a.versions[d])
    && (forall d | d in b.versions && d !in a.versions :: d == env.dir && env.staged == Some(b.versions[d]))
    && (outcome != Installed && outcome != Updated ==> b.current == a.current && b.previous == a.previous)
    && (outcome == Installed || outcome == Updated ==>
          && env.staged.Some? && env.verifies && env.probes
          && b.current == Some(env.dir) && b.versions[env.dir] == env.staged.value
          && b.previous == (if a.current.Some? && a.current.value != env.dir then a.current else a.previous))
    && (outcome == Updated ==> Active(a).Some? && env.tells)
    && (env.tells && ActiveTriple(a).Some? && ActiveTriple(b).Some? ==>
          !Less(ActiveTriple(b).value, ActiveTriple(a).value))
  }

  /** Nothing stands in the way of the staged release. */
  predicate Cuts(s: Store, env: Env)
    requires WellFormed(s)
  {
    && env.writable && !env.claimed && (env.force || !env.recent)
    && env.staged.Some? && env.staged.value.version.triple.Some?
    && (env.tells && ActiveTriple(s).Some? ==> !Less(env.staged.value.version.triple.value, ActiveTriple(s).value))
    && (env.tells ==> Active(s) != Some(env.staged.value.version))
    && (if env.dir in s.versions then s.versions[env.dir] == env.staged.value else env.copies)
    && env.verifies && env.probes
  }

  /** The staged release is older than the active version. */
  predicate OlderStaged(s: Store, env: Env)
    requires WellFormed(s)
  {
    && env.staged.Some? && env.staged.value.version.triple.Some? && ActiveTriple(s).Some?
    && Less(env.staged.value.version.triple.value, ActiveTriple(s).value)
  }

  /** The active version went down. */
  predicate Downgraded(a: Store, b: Store)
    requires WellFormed(a) && WellFormed(b)
  {
    ActiveTriple(a).Some? && ActiveTriple(b).Some? && Less(ActiveTriple(b).value, ActiveTriple(a).value)
  }

  /** What a successful explicit rollback does. */
  predicate Rolls(a: Store, b: Store) {
    && WellFormed(a) && WellFormed(b) && b.versions == a.versions
    && a.previous.Some? && b.current == a.previous
    && b.previous == (if a.current.Some? then a.current else a.previous)
  }

  // ---------- what an update computes ----------

  /** The store and the outcome of one call. */
  datatype Result = Result(store: Store, outcome: Outcome)

  predicate Storable(s: Store, dir: Dir, candidate: Binary, copies: bool) {
    if dir in s.versions then s.versions[dir] == candidate else copies
  }

  /** The store with the candidate behind `current`, and the old target behind `previous`. */
  function Activated(s: Store, dir: Dir, candidate: Binary): Store {
    Store(Some(dir), if s.current.Some? && s.current.value != dir then s.current else s.previous, s.versions[dir := candidate])
  }

  /** A staged release with a version: it is older, cannot be stored, is already active, fails behind
      the cutover, or stays. */
  function Offered(s: Store, env: Env, candidate: Binary): Result
    requires WellFormed(s) && candidate.version.triple.Some?
  {
    var seen := if env.tells then Active(s) else None;
    if seen.Some? && seen.value.triple.Some? && Less(candidate.version.triple.value, seen.value.triple.value)
    then Result(s, Current)
    else if !Storable(s, env.dir, candidate, env.copies) then Result(s, Failed)
    else if seen == Some(candidate.version) then Result(s.(versions := s.versions[env.dir := candidate]), Current)
    else if !env.verifies || !env.probes then Result(s.(versions := s.versions[env.dir := candidate]), RolledBack)
    else Result(Activated(s, env.dir, candidate), if seen.Some? then Updated else Installed)
  }

  function Latest(s: Store, env: Env): Result
    requires WellFormed(s)
  {
    if !env.writable then Result(s, Raised)
    else if env.claimed then Result(s, Deferred)
    else if !env.force && env.recent then Result(s, Throttled)
    else if env.staged.None? || env.staged.value.version.triple.None? then Result(s, Failed)
    else Offered(s, env, env.staged.value)
  }

  /** A candidate that can be stored changes no stored version. */
  lemma StoredStay(s: Store, dir: Dir, candidate: Binary, copies: bool)
    requires WellFormed(s) && Storable(s, dir, candidate, copies)
    ensures var versions := s.versions[dir := candidate];
            && (forall d | d in s.versions :: d in versions && versions[d] == s.versions[d])
            && (forall d | d in versions && d !in s.versions :: d == dir && versions[d] == candidate)
  {
  }

  /** Every call keeps the stored versions and, unless it installs, the links; an installation is complete. */
  lemma LatestKeeps(s: Store, env: Env)
    requires WellFormed(s)
    ensures var r := Latest(s, env); Ensures(s, r.store, env, r.outcome)
  {
    if env.staged.Some? && Storable(s, env.dir, env.staged.value, env.copies) {
      StoredStay(s, env.dir, env.staged.value, env.copies);
    }
  }

  /** A release is installed exactly when nothing stands in its way. */
  lemma InstalledExactly(s: Store, env: Env)
    requires WellFormed(s)
    ensures var r := Latest(s, env); r.outcome == Installed || r.outcome == Updated <==> Cuts(s, env)
    ensures Latest(s, env).outcome == Updated ==> env.tells && s.current.Some?
    ensures Latest(s, env).outcome == Installed ==> !(env.tells && s.current.Some?)
  {
  }

  /** When every other outcome comes, and what it may leave behind. */
  lemma OtherOutcomes(s: Store, env: Env)
    requires WellFormed(s)
    ensures var r := Latest(s, env);
            && (r.outcome == Raised <==> !env.writable)
            && (r.outcome == Deferred <==> env.writable && env.claimed)
            && (r.outcome == Throttled <==> env.writable && !env.claimed && !env.force && env.recent)
            && (r.outcome in {Raised, Deferred, Throttled, Failed} ==> r.store == s)
            && (r.outcome == RolledBack ==> !env.verifies || !env.probes)
  {
  }

  /** A release with a greater version than the running one tells, first difference in major, minor or
      patch, is installed exactly when it can be stored and both probes pass. */
  lemma NewerInstalled(s: Store, env: Env, a: Triple, b: Triple)
    requires WellFormed(s) && env.writable && !env.claimed && (env.force || !env.recent) && env.tells
    requires ActiveTriple(s) == Some(a) && env.staged.Some? && env.staged.value.version.triple == Some(b)
    requires b.major > a.major || (b.major == a.major && (b.minor > a.minor || (b.minor == a.minor && b.patch > a.patch)))
    ensures Latest(s, env) == Result(Activated(s, env.dir, env.staged.value), Updated) <==>
              && (if env.dir in s.versions then s.versions[env.dir] == env.staged.value else env.copies)
              && env.verifies && env.probes
  {
  }

  /** A release with a smaller version is never stored or installed over one that tells its own. */
  lemma OlderRefused(s: Store, env: Env, a: Triple, b: Triple)
    requires WellFormed(s) && env.writable && !env.claimed && (env.force || !env.recent) && env.tells
    requires ActiveTriple(s) == Some(a) && env.staged.Some? && env.staged.value.version.triple == Some(b)
    requires b.major < a.major || (b.major == a.major && (b.minor < a.minor || (b.minor == a.minor && b.patch < a.patch)))
    ensures Latest(s, env) == Result(s, Current)
  {
  }

  /** The active version goes down exactly when nothing stands in the way of an older release and the
      running binary does not tell its version. */
  lemma DowngradedExactly(s: Store, env: Env)
    requires WellFormed(s)
    ensures WellFormed(Latest(s, env).store)
    ensures Downgraded(s, Latest(s, env).store) <==> Cuts(s, env) && !env.tells && OlderStaged(s, env)
    ensures Downgraded(s, Latest(s, env).store) ==>
              var a, b := ActiveTriple(s).value, ActiveTriple(Latest(s, env).store).value;
              b.major < a.major || (b.major == a.major && (b.minor < a.minor || (b.minor == a.minor && b.patch < a.patch)))
  {
    LatestKeeps(s, env);
    InstalledExactly(s, env);
  }

  class AntigravityCliManager {
    var store: Store

    constructor ()
      ensures store == Store(None, None, map[])
    {
      store := Store(None, None, map[]);
    }

    /** `_store_candidate`: a stored version is kept as it is, and anything else under its name refused. */
    method StoreCandidate(dir: Dir, candidate: Binary, copies: bool) returns (stored: bool)
      requires WellFormed(store)
      modifies this
      ensures WellFormed(store)
      ensures stored <==> (if dir in old(store).versions then old(store).versions[dir] == candidate else copies)
      ensures store == (if stored then old(store).(versions := old(store).versions[dir := candidate]) else old(store))
    {
      if dir in store.versions {
        assert store.versions[dir] == candidate ==> store.versions[dir := candidate] == store.versions;
        return store.versions[dir] == candidate;
      }
      if !copies { return false; }
      store := store.(versions := store.versions[dir := candidate]);
      return true;
    }

    /** `_restore_current`. */
    method RestoreCurrent(target: Option<Dir>)
      modifies this
      ensures store == old(store).(current := target)
    {
      store := store.(current := target);
    }

    /** `ensure_latest`. */
    method EnsureLatest(env: Env) returns (outcome: Outcome)
      requires WellFormed(store)
      modifies this
      ensures Result(store, outcome) == Latest(old(store), env) && WellFormed(store)
    {
      if !env.writable { return Raised; }
      var seen := if env.tells then Active(store) else None;
      if env.claimed { return Deferred; }
      if !env.force && env.recent { return Throttled; }
      if env.staged.None? || env.staged.value.version.triple.None? { return Failed; }
      var candidate := env.staged.value;
      if seen.Some? && seen.value.triple.Some? && Less(candidate.version.triple.value, seen.value.triple.value) {
        return Current;
      }
      var stored := StoreCandidate(env.dir, candidate, env.copies);
      if !stored { return Failed; }
      if seen == Some(candidate.version) { return Current; }
      var target := store.current;
      store := store.(current := Some(env.dir));
      if !env.verifies || !env.probes {
        RestoreCurrent(target);
        return RolledBack;
      }
      if target.Some? && target.value != env.dir {
        store := store.(previous := target);
      }
      return if seen.Some? then Updated else Installed;
    }

    /** `rollback`: None is success.  A failed verification puts the current link back, if there was one. */
    method Rollback(tells: bool, verifies: bool) returns (error: Option<string>)
      requires WellFormed(store)
      modifies this
      ensures WellFormed(store)
      ensures error == None <==> old(store).previous.Some? && tells && verifies
      ensures error == None ==> Rolls(old(store), store)
      ensures error.Some? ==>
                store == (if old(store).previous.Some? && old(store).current.None?
                          then old(store).(current := old(store).previous) else old(store))
    {
      if store.previous.None? { return Some("NO_PREVIOUS_VERSION"); }
      var previousTarget, currentTarget := store.previous, store.current;
      store := store.(current := previousTarget);
      if !tells || !verifies {
        if currentTarget.Some? { store := store.(current := currentTarget); }
        return Some("ROLLBACK_TARGET_VERIFY_FAILED");
      }
      if currentTarget.Some? && currentTarget != previousTarget {
        store := store.(previous := currentTarget);
      }
      return None;
    }
  }

  // ---------- over runs ----------

  datatype Step = Update(env: Env, outcome: Outcome) | Rollback | FailedRollback

  predicate Follows(a: Store, step: Step, b: Store) {
    match step
    case Update(env, outcome) => Ensures(a, b, env, outcome)
    case Rollback => Rolls(a, b)
    case FailedRollback => WellFormed(a) && WellFormed(b) && b.versions == a.versions
  }

  predicate Run(stores: seq<Store>, steps: seq<Step>) {
    |stores| == |steps| + 1 && WellFormed(stores[0]) && forall i | 0 <= i < |steps| :: Follows(stores[i], steps[i], stores[i + 1])
  }

  /** The content of a stored version never changes, over any run of updates and rollbacks. */
  lemma {:induction false} ContentNeverChanges(stores: seq<Store>, steps: seq<Step>, i: nat, j: nat, d: Dir)
    requires Run(stores, steps) && i <= j < |stores| && d in stores[i].versions
    ensures d in stores[j].versions && stores[j].versions[d] == stores[i].versions[d]
  {
    if i < j {
      ContentNeverChanges(stores, steps, i, j - 1, d);
      assert Follows(stores[j - 1], steps[j - 1], stores[j]);
    }
  }

  /** In a run of updates alone, in which the running binary always told its version and every
      version parses, the active triple never decreases. */
  lemma NeverDowngrades(stores: seq<Store>, steps: seq<Step>, i: nat, j: nat)
    requires Run(stores, steps) && i <= j < |stores| && forall k | 0 <= k < |stores| :: WellFormed(stores[k])
    requires forall k | i <= k < j :: steps[k].Update? && steps[k].env.tells
    requires forall k | i <= k <= j :: ActiveTriple(stores[k]).Some?
    ensures var a, b := ActiveTriple(stores[i]).value, ActiveTriple(stores[j]).value;
            b.major > a.major
            || (b.major == a.major && (b.minor > a.minor || (b.minor == a.minor && b.patch >= a.patch)))
  {
    NotOlder(stores, steps, i, j);
  }

  lemma {:induction false} NotOlder(stores: seq<Store>, steps: seq<Step>, i: nat, j: nat)
    requires Run(stores, steps) && i <= j < |stores| && forall k | 0 <= k < |stores| :: WellFormed(stores[k])
    requires forall k | i <= k < j :: steps[k].Update? && steps[k].env.tells
    requires forall k | i <= k <= j :: ActiveTriple(stores[k]).Some?
    ensures !Less(ActiveTriple(stores[j]).value, ActiveTriple(stores[i]).value)
  {
    if i < j {
      NotOlder(stores, steps, i, j - 1);
      assert Follows(stores[j - 1], steps[j - 1], stores[j]);
      LessTransitive(ActiveTriple(stores[i]).value, ActiveTriple(stores[j - 1]).value, ActiveTriple(stores[j]).value);
    }
  }

  /** The condition is needed: when the running binary does not tell its version, an older release
      is installed over it. */
  method DowngradeHappens() returns (manager: AntigravityCliManager)
    ensures fresh(manager) && WellFormed(manager.store)
    ensures Active(manager.store) == Some(Version(1, Some(Triple(1, 0, 0)))) && manager.store.previous == Some(2)
    ensures manager.store.versions[2].version == Version(2, Some(Triple(2, 0, 0)))
  {
    manager := new AntigravityCliManager();
    var two, one := Binary(2, Version(2, Some(Triple(2, 0, 0)))), Binary(1, Version(1, Some(Triple(1, 0, 0))));
    var first := manager.EnsureLatest(Env(true, false, true, false, Some(two), 2, true, true, true, true));
    assert Active(manager.store) == Some(Version(2, Some(Triple(2, 0, 0))));
    var second := manager.EnsureLatest(Env(true, false, true, false, Some(one), 1, false, true, true, true));
  }

  /** Two successful rollbacks cancel out exactly when there was a current version to go back to. */
  lemma TwoRollbacksCancel(a: Store, b: Store, c: Store)
    requires Rolls(a, b) && Rolls(b, c)
    ensures c == a <==> a.current.Some?
  {
  }

  /** An update to a different directory is undone by one successful rollback. */
  lemma RollbackUndoesUpdate(a: Store, b: Store, c: Store, env: Env)
    requires Ensures(a, b, env, Updated) && Rolls(b, c) && a.current != b.current
    ensures c.current == a.current && c.previous == b.current
  {
  }
}
