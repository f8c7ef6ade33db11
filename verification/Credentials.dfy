/** One credential: its secret files and its database row, under concurrent rotations, disables and
    reads.  Credentials with different ids share neither files nor rows. */
module Credentials {
  import opened Wrappers

  type Material = nat
  type Process = nat

  /** SHA-256 of the material, cut to 16 digits, taken as injective. */
  datatype Fingerprint = Fingerprint(of: Material)

  datatype Row = Row(active: nat, enabled: bool, fingerprint: Fingerprint)

  /** Where a running operation stands.  `rotate` reads the row, stores the file, swaps the row, and
      deletes the file again on any error; `add` stores revision 1 and inserts the row. */
  datatype Step =
    | Reading(expected: nat, material: Material)
    | Stored(expected: nat, material: Material)
    | Deleting(expected: nat, material: Material)
    | Holding(revision: nat, seen: Material)

  /** `committed` is the last secret whose row change committed. */
  datatype State = State(row: Option<Row>, files: map<nat, Material>, steps: map<Process, Step>, committed: Option<Material>)

  datatype Event =
    | AddStore(p: Process, material: Material)
    | RotateRead(p: Process, material: Material)
    | Store(p: Process)
    | Commit(p: Process)
    | FaultBeforeCommit(p: Process)
    | FaultAfterCommit(p: Process)
    | Delete(p: Process)
    | Disable
    | ReadRow(p: Process)
    | ReadFile(p: Process)
    | Crash(p: Process)

  const INITIAL: State := State(None, map[], map[], None)

  predicate Enabled(s: State, e: Event) {
    match e
    case AddStore(p, _) => p !in s.steps && s.row.None? && s.files == map[] && s.steps == map[]
    case RotateRead(p, _) => p !in s.steps && s.row.Some?
    case Store(p) => p in s.steps && s.steps[p].Reading?
    case Commit(p) => p in s.steps && s.steps[p].Stored?
    case FaultBeforeCommit(p) => p in s.steps && s.steps[p].Stored?
    case FaultAfterCommit(p) => p in s.steps && s.steps[p].Stored?
    case Delete(p) => p in s.steps && s.steps[p].Deleting?
    case Disable => true
    case ReadRow(p) => p !in s.steps && s.row.Some? && s.row.value.enabled && s.row.value.active in s.files
    case ReadFile(p) => p in s.steps && s.steps[p].Holding?
    case Crash(p) => p in s.steps
  }

  function End(s: State, p: Process): State { s.(steps := s.steps - {p}) }

  function Set(s: State, p: Process, step: Step): State { s.(steps := s.steps[p := step]) }

  /** The row after an insert (from nothing, as revision 1) or a successful compare-and-swap. */
  predicate Matches(row: Option<Row>, expected: nat) {
    match row case None => expected == 0 case Some(r) => r.active == expected
  }

  function Committed(s: State, step: Step): State
    requires step.Stored?
  {
    s.(row := Some(Row(step.expected + 1, true, Fingerprint(step.material))), committed := Some(step.material))
  }

  function Apply(s: State, e: Event): State
    requires Enabled(s, e)
  {
    match e
    case AddStore(p, m) => Set(s, p, Reading(0, m))
    case RotateRead(p, m) => Set(s, p, Reading(s.row.value.active, m))
    case Store(p) =>
      var step := s.steps[p];
      if step.expected + 1 in s.files && s.files[step.expected + 1] != step.material then End(s, p)
      else Set(s, p, Stored(step.expected, step.material)).(files := s.files[step.expected + 1 := step.material])
    case Commit(p) =>
      var step := s.steps[p];
      if Matches(s.row, step.expected) then End(Committed(s, step), p)
      else Set(s, p, Deleting(step.expected, step.material))
    case FaultBeforeCommit(p) => Set(s, p, Deleting(s.steps[p].expected, s.steps[p].material))
    case FaultAfterCommit(p) =>
      var step := s.steps[p];
      Set(if Matches(s.row, step.expected) then Committed(s, step) else s, p, Deleting(step.expected, step.material))
    case Delete(p) => End(s, p).(files := s.files - {s.steps[p].expected + 1})
    case Disable => if s.row.None? then s else s.(row := Some(s.row.value.(enabled := false)))
    case ReadRow(p) => Set(s, p, Holding(s.row.value.active, s.files[s.row.value.active]))
    case ReadFile(p) => End(s, p)
    case Crash(p) => End(s, p)
  }

  /** A running operation has read the active revision and carries material `m`. */
  predicate Carried(s: State, m: Material) { exists p :: p in s.steps && CarriesHere(s, p, m) }

  predicate CarriesHere(s: State, p: Process, m: Material) {
    p in s.steps && !s.steps[p].Holding? && s.steps[p].expected == Active(s) && s.steps[p].material == m
  }

  /** No two operations overlap on one revision with the same material; a secret may come back later. */
  predicate Fresh(s: State, e: Event) {
    match e
    case AddStore(_, m) => !Carried(s, m)
    case RotateRead(_, m) => !Carried(s, m)
    case _ => true
  }

  // ---------- the invariant ----------

  function Active(s: State): nat { if s.row.Some? then s.row.value.active else 0 }

  /** The row and its file agree, and no committed revision has lost its file. */
  predicate Agrees(s: State) {
    && (forall k | 1 <= k <= Active(s) :: k in s.files)
    && (forall k | k in s.files :: 1 <= k <= Active(s) + 1)
    && (s.row.Some? ==>
          && 1 <= Active(s) && Active(s) in s.files
          && s.row.value.fingerprint == Fingerprint(s.files[Active(s)])
          && s.committed == Some(s.files[Active(s)]))
  }

  predicate StepAgrees(s: State, step: Step) {
    match step
    case Reading(expected, m) => expected <= Active(s) && (expected < Active(s) && expected + 1 in s.files ==> s.files[expected + 1] != m)
    case Stored(expected, m) => expected == Active(s) && expected + 1 in s.files && s.files[expected + 1] == m
    case Deleting(expected, m) => expected == Active(s) && expected + 1 in s.files && s.files[expected + 1] == m
    case Holding(revision, seen) => 1 <= revision <= Active(s) && revision in s.files && s.files[revision] == seen
  }

  predicate StepsAgree(s: State) { forall p | p in s.steps :: StepAgrees(s, s.steps[p]) }

  /** No two running operations on one revision carry the same material. */
  predicate Apart(s: State) {
    forall p, q | p in s.steps && q in s.steps && p != q && !s.steps[p].Holding? && !s.steps[q].Holding?
                  && s.steps[p].expected == s.steps[q].expected ::
      s.steps[p].material != s.steps[q].material
  }

  predicate Inv(s: State) { Agrees(s) && StepsAgree(s) && Apart(s) }

  lemma StartKeeps(s: State, e: Event)
    requires Inv(s) && Enabled(s, e) && Fresh(s, e) && (e.AddStore? || e.RotateRead?)
    ensures Inv(Apply(s, e))
  {
    forall q | q in s.steps ensures !CarriesHere(s, q, e.material) { }
  }

  lemma StoreStep(s: State, p: Process, q: Process)
    requires Inv(s) && Enabled(s, Store(p)) && q in Apply(s, Store(p)).steps
    ensures StepAgrees(Apply(s, Store(p)), Apply(s, Store(p)).steps[q])
  {
    assert StepAgrees(s, s.steps[q]) && StepAgrees(s, s.steps[p]);
  }

  /** Storing a revision's file keeps the invariant, whether the file is new, equal, or another's. */
  lemma StoreKeeps(s: State, p: Process)
    requires Inv(s) && Enabled(s, Store(p))
    ensures Inv(Apply(s, Store(p)))
  {
    var n := Apply(s, Store(p));
    StoreAgrees(s, p);
    forall q | q in n.steps ensures StepAgrees(n, n.steps[q]) { StoreStep(s, p, q); }
    assert Apart(n);
  }

  lemma StoreAgrees(s: State, p: Process)
    requires Inv(s) && Enabled(s, Store(p))
    ensures Agrees(Apply(s, Store(p)))
  {
    assert StepAgrees(s, s.steps[p]);
  }

  /** When overlapping materials are distinct, a swap that reaches the database always finds its expected revision. */
  lemma CommitKeeps(s: State, p: Process)
    requires Inv(s) && Enabled(s, Commit(p))
    ensures Inv(Apply(s, Commit(p)))
    ensures Matches(s.row, s.steps[p].expected) && Apply(s, Commit(p)).committed == Some(s.steps[p].material)
  {
    var n := Apply(s, Commit(p));
    assert StepAgrees(s, s.steps[p]);
    forall q | q in n.steps ensures StepAgrees(n, n.steps[q]) {
      assert StepAgrees(s, s.steps[q]);
    }
  }

  lemma DeleteKeeps(s: State, p: Process)
    requires Inv(s) && Enabled(s, Delete(p))
    ensures Inv(Apply(s, Delete(p)))
  {
    var n := Apply(s, Delete(p));
    assert StepAgrees(s, s.steps[p]);
    forall q | q in n.steps ensures StepAgrees(n, n.steps[q]) {
      assert StepAgrees(s, s.steps[q]);
    }
  }

  lemma OtherKeeps(s: State, e: Event)
    requires Inv(s) && Enabled(s, e)
    requires e.FaultBeforeCommit? || e.Disable? || e.ReadRow? || e.ReadFile? || e.Crash?
    ensures Inv(Apply(s, e))
  {
    var n := Apply(s, e);
    assert n.files == s.files && Active(n) == Active(s) && n.committed == s.committed;
    forall q | q in n.steps ensures StepAgrees(n, n.steps[q]) {
      assert q in s.steps ==> StepAgrees(s, s.steps[q]);
    }
  }

  // ---------- runs ----------

  predicate Possible(run: seq<Event>)
    decreases |run|, 0
  {
    run == [] || (Possible(run[..|run| - 1]) && Enabled(After(run[..|run| - 1]), run[|run| - 1]))
  }

  function After(run: seq<Event>): State
    requires Possible(run)
    decreases |run|, 1
  {
    if run == [] then INITIAL else Apply(After(run[..|run| - 1]), run[|run| - 1])
  }

  /** The event starts no operation with a material that overlaps, and is no fault behind a commit. */
  predicate CarefulEvent(s: State, e: Event) { Fresh(s, e) && !e.FaultAfterCommit? }

  /** All events of the run behind the first `k` are careful. */
  predicate Careful(run: seq<Event>, k: nat)
    requires Possible(run)
    decreases |run|
  {
    |run| <= k || (Careful(run[..|run| - 1], k) && CarefulEvent(After(run[..|run| - 1]), run[|run| - 1]))
  }

  /** Materials that overlap on one revision are distinct, and database faults strike only before the
      commit. */
  predicate Tame(run: seq<Event>)
    requires Possible(run)
  {
    Careful(run, 0)
  }

  lemma {:induction false} Reachable(run: seq<Event>)
    requires Possible(run) && Tame(run)
    ensures Inv(After(run))
  {
    if run != [] {
      var s, e := After(run[..|run| - 1]), run[|run| - 1];
      Reachable(run[..|run| - 1]);
      match e
      case AddStore(_, _) => StartKeeps(s, e);
      case RotateRead(_, _) => StartKeeps(s, e);
      case Store(p) => StoreKeeps(s, p);
      case Commit(p) => CommitKeeps(s, p);
      case Delete(p) => DeleteKeeps(s, p);
      case _ => OtherKeeps(s, e);
    }
  }

  /** In every tame interleaving the active revision has the file its fingerprint names, all
      revisions up to it have files, and reading it gives the last committed secret. */
  lemma FilesFollowRow(run: seq<Event>)
    requires Possible(run) && Tame(run) && After(run).row.Some?
    ensures var s := After(run);
            && s.row.value.active in s.files && Fingerprint(s.files[s.row.value.active]) == s.row.value.fingerprint
            && s.committed == Some(s.files[s.row.value.active])
            && forall k | 1 <= k <= s.row.value.active :: k in s.files
  {
    Reachable(run);
  }

  /** A reader that saw the row of an active credential finds, however late, the secret that was
      committed when it looked. */
  lemma GrantedReadSucceeds(run: seq<Event>, p: Process)
    requires Possible(run) && Tame(run) && p in After(run).steps && After(run).steps[p].Holding?
    ensures var s := After(run);
            s.steps[p].revision in s.files && s.files[s.steps[p].revision] == s.steps[p].seen
  {
    Reachable(run);
    assert StepAgrees(After(run), After(run).steps[p]);
  }

  /** What the reader saw is what was committed at that moment. */
  lemma ReaderSeesCommitted(run: seq<Event>, p: Process)
    requires Possible(run) && Tame(run) && Enabled(After(run), ReadRow(p))
    ensures Some(Apply(After(run), ReadRow(p)).steps[p].seen) == After(run).committed
  {
    Reachable(run);
  }

  /** A file that a crashed rotation left behind, with no operation at work on it or with its material. */
  predicate Orphan(s: State) {
    && s.row.Some? && Active(s) + 1 in s.files
    && forall p | p in s.steps :: s.steps[p].Holding? || (s.steps[p].Reading? && s.steps[p].material != s.files[Active(s) + 1])
  }

  /** The event starts a rotation to the very secret in the orphan. */
  predicate Adopts(s: State, e: Event)
    requires Orphan(s)
  {
    e.RotateRead? && e.material == s.files[Active(s) + 1]
  }

  /** Nothing but a rotation to its very secret gets past an orphan: until one starts, the active
      revision stays where it is. */
  lemma OrphanBlocks(s: State, e: Event)
    requires Inv(s) && Orphan(s) && Enabled(s, e)
    ensures Orphan(Apply(s, e)) <==> !Adopts(s, e)
    ensures Active(Apply(s, e)) == Active(s)
  {
    var n := Apply(s, e);
    if e.Store? { assert StepAgrees(s, s.steps[e.p]); }
    if Adopts(s, e) { assert n.steps[e.p] == Reading(Active(s), s.files[Active(s) + 1]); }
    assert n.files == s.files && Active(n) == Active(s);
  }

  /** And such a rotation does get past it. */
  lemma OrphanAdopted(run: seq<Event>, s: State, p: Process) returns (run': seq<Event>, n: State)
    requires Reaches(run, s) && Orphan(s) && p !in s.steps
    ensures run' == run + [RotateRead(p, s.files[Active(s) + 1]), Store(p), Commit(p)] && Reaches(run', n)
    ensures Active(n) == Active(s) + 1 && n.files == s.files && n.committed == Some(s.files[Active(s) + 1])
  {
    run', n := Extend(run, s, RotateRead(p, s.files[Active(s) + 1]));
    run', n := Extend(run', n, Store(p));
    run', n := Extend(run', n, Commit(p));
  }

  // ---------- what happens without the two conditions ----------

  predicate Reaches(run: seq<Event>, s: State) { Possible(run) && After(run) == s }

  lemma Extend(run: seq<Event>, s: State, e: Event) returns (run': seq<Event>, n: State)
    requires Reaches(run, s) && Enabled(s, e)
    ensures run' == run + [e] && n == Apply(s, e) && Reaches(run', n)
  {
    run', n := run + [e], Apply(s, e);
    assert run'[..|run|] == run;
  }

  lemma Added(m: Material) returns (run: seq<Event>, s: State)
    ensures Reaches(run, s)
    ensures s == State(Some(Row(1, true, Fingerprint(m))), map[1 := m], map[], Some(m)) && Tame(run)
  {
    assert Reaches([], INITIAL);
    run, s := Go([], INITIAL, AddStore(0, m), 0);
    run, s := Go(run, s, Store(0), 0);
    run, s := Go(run, s, Commit(0), 0);
  }

  /** A rotation that crashes behind its file leaves an orphan. */
  lemma OrphanHappens(m: Material, next: Material) returns (run: seq<Event>, s: State)
    requires m != next
    ensures Reaches(run, s) && Tame(run) && Orphan(s) && Active(s) == 1 && s.files == map[1 := m, 2 := next]
  {
    run, s := Added(m);
    run, s := Go(run, s, RotateRead(1, next), 0);
    run, s := Go(run, s, Store(1), 0);
    run, s := Go(run, s, Crash(1), 0);
    assert s.steps == map[];
  }

  /** A reader that looked before a rotation finishes behind it, with the secret that it saw. */
  lemma ReadAcrossRotation(m: Material, next: Material) returns (run: seq<Event>, s: State)
    requires m != next
    ensures Reaches(run, s) && Tame(run) && s.row == Some(Row(2, true, Fingerprint(next)))
    ensures 5 in s.steps && s.steps[5] == Holding(1, m) && Enabled(s, ReadFile(5)) && Apply(s, ReadFile(5)).steps == map[]
  {
    run, s := ReaderHolds(m);
    run, s := Go(run, s, RotateRead(1, next), 0);
    run, s := Go(run, s, Store(1), 0);
    run, s := Go(run, s, Commit(1), 0);
    assert s.steps == map[5 := Holding(1, m)];
    assert Apply(s, ReadFile(5)).steps == map[];
  }

  lemma ReaderHolds(m: Material) returns (run: seq<Event>, s: State)
    ensures Reaches(run, s) && Tame(run)
    ensures s == State(Some(Row(1, true, Fingerprint(m))), map[1 := m], map[5 := Holding(1, m)], Some(m))
  {
    run, s := Added(m);
    run, s := Go(run, s, ReadRow(5), 0);
  }

  /** A disabled credential is not read, a file only by a reader that saw the row, and a credential is added
      only where there is none. */
  lemma OnlyThen(s: State, p: Process, m: Material)
    ensures Enabled(s, ReadRow(p)) ==> s.row.Some? && s.row.value.enabled && s.row.value.active in s.files && p !in s.steps
    ensures Enabled(s, ReadFile(p)) ==> p in s.steps && s.steps[p].Holding?
    ensures Enabled(s, AddStore(p, m)) <==> s.row == None && s.files == map[] && s.steps == map[]
    ensures Enabled(s, RotateRead(p, m)) <==> s.row.Some? && p !in s.steps
  {
  }

  /** Two concurrent rotations to the same secret: the loser's clean-up deletes the file of the
      revision that the winner has just made active. */
  lemma EqualMaterialsLoseFile(m: Material, next: Material) returns (run: seq<Event>)
    requires m != next
    ensures Possible(run) && After(run).row == Some(Row(2, true, Fingerprint(next))) && 2 !in After(run).files
  {
    var s;
    run, s := Added(m);
    run, s := Extend(run, s, RotateRead(1, next));
    run, s := Extend(run, s, RotateRead(2, next));
    run, s := Extend(run, s, Store(1));
    run, s := Extend(run, s, Store(2));
    run, s := Extend(run, s, Commit(1));
    run, s := Extend(run, s, Commit(2));
    run, s := Extend(run, s, Delete(2));
  }

  /** A fault behind the commit does the same with a single rotation. */
  lemma LateFaultLosesFile(m: Material, next: Material) returns (run: seq<Event>)
    requires m != next
    ensures Possible(run) && After(run).row == Some(Row(2, true, Fingerprint(next))) && 2 !in After(run).files
  {
    var s;
    run, s := Added(m);
    run, s := Extend(run, s, RotateRead(1, next));
    run, s := Extend(run, s, Store(1));
    run, s := Extend(run, s, FaultAfterCommit(1));
    run, s := Extend(run, s, Delete(1));
  }

  // ---------- the conditions are exact ----------

  /** The active revision has no file. */
  predicate Loses(s: State) { s.row.Some? && s.row.value.active !in s.files }

  /** One more careful event. */
  lemma Go(run: seq<Event>, s: State, e: Event, k: nat) returns (run': seq<Event>, n: State)
    requires Reaches(run, s) && Careful(run, k) && k <= |run| && Enabled(s, e) && CarefulEvent(s, e)
    ensures run' == run + [e] && n == Apply(s, e) && Reaches(run', n) && Careful(run', k)
  {
    run', n := Extend(run, s, e);
    assert run'[..|run|] == run;
  }

  lemma {:induction false} CarefulJoin(run: seq<Event>, k: nat)
    requires Possible(run) && k <= |run| && Careful(run, k)
    requires Possible(run[..k]) && Tame(run[..k])
    ensures Tame(run)
  {
    if |run| == k {
      assert run[..k] == run;
    } else {
      assert run[..|run| - 1][..k] == run[..k];
      CarefulJoin(run[..|run| - 1], k);
    }
  }

  /** `r` carries `m` on the active revision, whose next file is free or already holds `m`. */
  predicate Working(s: State, r: Process, m: Material) {
    && CarriesHere(s, r, m)
    && (if Active(s) + 1 in s.files then s.files[Active(s) + 1] == m else s.steps[r].Reading?)
  }

  /** The state once `r` has stored its file and failed. */
  function Failed(s: State, r: Process, m: Material): State {
    s.(steps := s.steps[r := Deleting(Active(s), m)], files := s.files[Active(s) + 1 := m])
  }

  lemma Fail(run: seq<Event>, s: State, r: Process, m: Material, k: nat) returns (run': seq<Event>, n: State)
    requires Reaches(run, s) && Careful(run, k) && k <= |run| && Working(s, r, m)
    ensures run <= run' && Reaches(run', n) && Careful(run', k) && n == Failed(s, r, m)
  {
    run', n := run, s;
    if n.steps[r].Reading? { run', n := Go(run', n, Store(r), k); }
    if n.steps[r].Stored? { run', n := Go(run', n, FaultBeforeCommit(r), k); }
    assert n.files == Failed(s, r, m).files;
    assert n.steps == Failed(s, r, m).steps;
  }

  /** Processes `p` and `q` overlap on the active revision with material `m`. */
  predicate Overlap(s: State, p: Process, q: Process, m: Material) {
    && s.row.Some? && p != q && CarriesHere(s, q, m)
    && p in s.steps && s.steps[p] == Reading(Active(s), m)
  }

  /** The states in which `p` stores, commits, and loses its file to the clean-up of `q`. */
  lemma Overtaken(s: State, p: Process, q: Process, m: Material) returns (a: State, b: State, c: State)
    requires Overlap(s, p, q, m) && Working(s, q, m)
    ensures Enabled(Failed(s, q, m), Store(p)) && a == Apply(Failed(s, q, m), Store(p))
    ensures Enabled(a, Commit(p)) && b == Apply(a, Commit(p))
    ensures Enabled(b, Delete(q)) && c == Apply(b, Delete(q)) && Loses(c)
  {
    a := Apply(Failed(s, q, m), Store(p));
    b := Apply(a, Commit(p));
    c := Apply(b, Delete(q));
  }

  /** When the next file is free or the one that both would write: `q` stores it and fails, `p` makes it
      active, and the clean-up of `q` deletes it. */
  lemma OverlapLoses(run: seq<Event>, s: State, p: Process, q: Process, m: Material, k: nat)
    returns (run': seq<Event>, n: State)
    requires Reaches(run, s) && Careful(run, k) && k <= |run| && Overlap(s, p, q, m) && Working(s, q, m)
    ensures run <= run' && Reaches(run', n) && Careful(run', k) && Loses(n)
  {
    var a, b, c := Overtaken(s, p, q, m);
    run', n := Fail(run, s, q, m, k);
    run', n := Go(run', n, Store(p), k);
    run', n := Go(run', n, Commit(p), k);
    run', n := Go(run', n, Delete(q), k);
  }

  /** A process that is not running. */
  lemma {:induction false} Idle(busy: set<Process>) returns (p: Process)
    ensures forall q | q in busy :: q < p
    decreases busy
  {
    p := 0;
    if busy != {} {
      var q :| q in busy;
      var above := Idle(busy - {q});
      p := if q < above then above else q + 1;
      forall o | o in busy ensures o < p { assert o == q || o in busy - {q}; }
    }
  }

  /** Someone who can delete a foreign next file: its owner, or an operation that takes it over. */
  lemma Holder(run: seq<Event>, s: State, p: Process, q: Process, m: Material, f: Material, k: nat)
    returns (run': seq<Event>, n: State, r: Process)
    requires Reaches(run, s) && Careful(run, k) && k <= |run| && Overlap(s, p, q, m)
    requires Active(s) + 1 in s.files && s.files[Active(s) + 1] == f != m
    ensures run <= run' && Reaches(run', n) && Careful(run', k) && n.files == s.files && n.row == s.row
    ensures Overlap(n, p, q, m) && n.steps[q] == s.steps[q] && r != p && r != q && Working(n, r, f)
  {
    if Carried(s, f) {
      r :| r in s.steps && CarriesHere(s, r, f);
      run', n := run, s;
    } else {
      r := Idle(s.steps.Keys);
      run', n := Go(run, s, RotateRead(r, f), k);
    }
  }

  /** Once `r` has failed and deleted its file, the next file is free for `p` and `q`. */
  lemma Withdrawn(s: State, p: Process, q: Process, r: Process, m: Material, f: Material)
    requires Overlap(s, p, q, m) && Working(s, r, f) && f != m && r != p && r != q && s.steps[q].Reading?
    ensures Enabled(Failed(s, r, f), Delete(r))
    ensures var n := Apply(Failed(s, r, f), Delete(r)); Overlap(n, p, q, m) && Working(n, q, m)
  {
  }

  lemma FileFreed(run: seq<Event>, s: State, p: Process, q: Process, m: Material, k: nat)
    returns (run': seq<Event>, n: State)
    requires Reaches(run, s) && Careful(run, k) && k <= |run| && Overlap(s, p, q, m) && s.steps[q].Reading?
    requires Active(s) + 1 in s.files && s.files[Active(s) + 1] != m
    ensures run <= run' && Reaches(run', n) && Careful(run', k) && Overlap(n, p, q, m) && Working(n, q, m)
  {
    var f, r := s.files[Active(s) + 1], 0;
    run', n, r := Holder(run, s, p, q, m, f, k);
    Withdrawn(n, p, q, r, m, f);
    run', n := Fail(run', n, r, f, k);
    run', n := Go(run', n, Delete(r), k);
  }

  /** A rotation that overlaps can lose the file. */
  lemma CarriedLoses(run: seq<Event>, s: State, e: Event, q: Process) returns (full: seq<Event>, n: State)
    requires Reaches(run, s) && Inv(s) && Enabled(s, e) && e.RotateRead? && CarriesHere(s, q, e.material)
    ensures run + [e] <= full && Reaches(full, n) && Careful(full, |run| + 1) && Loses(n)
  {
    assert StepAgrees(s, s.steps[q]);
    full, n := Extend(run, s, e);
    if Active(n) + 1 in n.files && n.files[Active(n) + 1] != e.material {
      full, n := FileFreed(full, n, e.p, q, e.material, |run| + 1);
    }
    full, n := OverlapLoses(full, n, e.p, q, e.material, |run| + 1);
  }

  /** A fault behind a commit loses the file when the clean-up runs. */
  lemma LateLoses(run: seq<Event>, s: State, p: Process) returns (full: seq<Event>, n: State)
    requires Reaches(run, s) && Inv(s) && Enabled(s, FaultAfterCommit(p))
    ensures run + [FaultAfterCommit(p)] <= full && Reaches(full, n) && Careful(full, |run| + 1) && Loses(n)
  {
    assert StepAgrees(s, s.steps[p]);
    full, n := Extend(run, s, FaultAfterCommit(p));
    full, n := Go(full, n, Delete(p), |run| + 1);
  }

  /** A careless event can cost the active revision its file, even if all that follows is careful. */
  lemma CarelessLoses(run: seq<Event>, s: State, e: Event) returns (full: seq<Event>, n: State)
    requires Reaches(run, s) && Inv(s) && Enabled(s, e) && !CarefulEvent(s, e)
    ensures run + [e] <= full && Reaches(full, n) && Careful(full, |run| + 1) && Loses(n)
  {
    if e.FaultAfterCommit? {
      full, n := LateLoses(run, s, e.p);
    } else {
      var q :| q in s.steps && CarriesHere(s, q, e.material);
      full, n := CarriedLoses(run, s, e, q);
    }
  }

  lemma CarefulKeeps(run: seq<Event>, s: State, e: Event, full: seq<Event>)
    requires Reaches(run, s) && Tame(run) && Enabled(s, e) && CarefulEvent(s, e)
    requires run + [e] <= full && Possible(full) && Careful(full, |run| + 1)
    ensures !Loses(After(full))
  {
    var first, n := Go(run, s, e, 0);
    assert full[..|run| + 1] == first;
    CarefulJoin(full, |run| + 1);
    if After(full).row.Some? { FilesFollowRow(full); }
  }

  /** The run goes on behind `event` without another careless one, and loses the active revision's file. */
  predicate LosesLater(event: seq<Event>, full: seq<Event>) {
    event <= full && Possible(full) && Careful(full, |event|) && Loses(After(full))
  }

  lemma NeverLost(run: seq<Event>, s: State, e: Event)
    requires Reaches(run, s) && Tame(run) && Enabled(s, e) && CarefulEvent(s, e)
    ensures forall full :: !LosesLater(run + [e], full)
  {
    forall full ensures !LosesLater(run + [e], full) {
      if LosesLater(run + [e], full) { CarefulKeeps(run, s, e, full); }
    }
  }

  /** The two conditions are exact: behind a run that kept them, the next event keeps them exactly when
      no careful continuation can ever lose the file of the active revision. */
  lemma CarefulExactly(run: seq<Event>, e: Event)
    requires Possible(run) && Tame(run) && Enabled(After(run), e)
    ensures CarefulEvent(After(run), e) <==> forall full :: !LosesLater(run + [e], full)
  {
    var s := After(run);
    if CarefulEvent(s, e) {
      NeverLost(run, s, e);
    } else {
      Reachable(run);
      var full, n := CarelessLoses(run, s, e);
      assert LosesLater(run + [e], full);
    }
  }

  /** An undisturbed rotation. */
  lemma Rotates(run: seq<Event>, s: State, m: Material) returns (run': seq<Event>, n: State)
    requires Reaches(run, s) && Tame(run) && s.row.Some? && s.steps == map[] && Active(s) + 1 !in s.files
    ensures Reaches(run', n) && Tame(run')
    ensures n == State(Some(Row(Active(s) + 1, true, Fingerprint(m))), s.files[Active(s) + 1 := m], map[], Some(m))
  {
    run', n := Go(run, s, RotateRead(0, m), 0);
    run', n := Go(run', n, Store(0), 0);
    run', n := Go(run', n, Commit(0), 0);
    assert n.steps == map[];
  }

  /** Rotating away and back to the first secret is a careful run. */
  lemma SecretComesBack(m: Material, next: Material) returns (run: seq<Event>)
    ensures Possible(run) && Tame(run) && After(run).row == Some(Row(3, true, Fingerprint(m)))
  {
    var s;
    run, s := Added(m);
    run, s := Rotates(run, s, next);
    run, s := Rotates(run, s, m);
  }

  // ---------- the code, undisturbed ----------

  datatype CredentialError = NotFound | AlreadyStored | DatabaseError | IsDisabled | NotGranted | MaterialMissing

  /** The methods of CredentialService for one secret id, run without interference.  The ghost fields
      show that they are runs of the system above. */
  class CredentialService {
    var row: Option<Row>
    var files: map<nat, Material>
    ghost var state: State
    ghost var run: seq<Event>

    constructor ()
      ensures Valid() && row == None && files == map[]
    {
      row, files := None, map[];
      state, run := INITIAL, [];
    }

    ghost predicate Tracked()
      reads this
    {
      state.row == row && state.files == files && Reaches(run, state)
    }

    ghost predicate Valid()
      reads this
    {
      Tracked() && state.steps == map[]
    }

    ghost method Record(e: Event)
      requires Reaches(run, state) && Enabled(state, e)
      modifies this`run, this`state
      ensures run == old(run) + [e] && state == Apply(old(state), e) && Reaches(run, state)
    {
      run, state := Extend(run, state, e);
    }

    /** `store_revision`: an existing file is kept when it holds the same secret, and refused otherwise. */
    method StoreRevision(p: Process, revision: nat, material: Material) returns (stored: bool)
      requires Tracked() && revision > 0 && state.steps == map[p := Reading(revision - 1, material)]
      modifies this
      ensures Tracked() && old(run) <= run && row == old(row)
      ensures stored <==> (revision in old(files) ==> old(files)[revision] == material)
      ensures stored ==> files == old(files)[revision := material] && state.steps == map[p := Stored(revision - 1, material)]
      ensures !stored ==> files == old(files) && state.steps == map[]
    {
      Record(Store(p));
      if revision in files && files[revision] != material {
        assert map[p := Reading(revision - 1, material)] - {p} == map[];
        return false;
      }
      files := files[revision := material];
      return true;
    }

    /** `delete_revision` of the clean-up. */
    method DeleteRevision(p: Process, revision: nat, ghost material: Material)
      requires Tracked() && revision > 0 && state.steps == map[p := Deleting(revision - 1, material)]
      modifies this
      ensures Valid() && old(run) <= run && row == old(row) && files == old(files) - {revision}
    {
      Record(Delete(p));
      assert map[p := Deleting(revision - 1, material)] - {p} == map[];
      files := files - {revision};
    }

    /** The row change of `add` and `rotate`, which either commits or fails before it does. */
    method ChangeRow(p: Process, revision: nat, material: Material, fault: bool) returns (r: Option<CredentialError>)
      requires Tracked() && revision > 0 && state.steps == map[p := Stored(revision - 1, material)]
      requires Matches(row, revision - 1)
      modifies this
      ensures Valid() && old(run) <= run
      ensures if fault then r == Some(DatabaseError) && row == old(row) && files == old(files) - {revision}
              else r == None && row == Some(Row(revision, true, Fingerprint(material))) && files == old(files)
    {
      if fault {
        Record(FaultBeforeCommit(p));
        assert map[p := Stored(revision - 1, material)][p := Deleting(revision - 1, material)]
               == map[p := Deleting(revision - 1, material)];
        DeleteRevision(p, revision, material);
        return Some(DatabaseError);
      }
      Record(Commit(p));
      assert map[p := Stored(revision - 1, material)] - {p} == map[];
      row := Some(Row(revision, true, Fingerprint(material)));
      return None;
    }

    /** `add`: a refused insert leaves no file. */
    method Add(p: Process, material: Material, fault: bool) returns (r: Option<CredentialError>)
      requires Valid() && row.None? && files == map[]
      modifies this
      ensures Valid() && old(run) <= run && (r == None <==> !fault)
      ensures r == None ==> row == Some(Row(1, true, Fingerprint(material))) && files == map[1 := material]
      ensures r != None ==> row == None && files == map[]
    {
      Record(AddStore(p, material));
      var stored := StoreRevision(p, 1, material);
      r := ChangeRow(p, 1, material, fault);
    }

    /** `rotate`: on success the next revision is active and holds the secret; on an error the row is
        as before, and of the files only the next revision can be missing. */
    method Rotate(p: Process, material: Material, fault: bool) returns (r: Option<CredentialError>)
      requires Valid()
      modifies this
      ensures Valid() && old(run) <= run
      ensures old(row).None? ==> r == Some(NotFound) && row == old(row) && files == old(files)
      ensures old(row).Some? ==>
                var next := old(row).value.active + 1;
                if next in old(files) && old(files)[next] != material
                then r == Some(AlreadyStored) && row == old(row) && files == old(files)
                else if fault then r == Some(DatabaseError) && row == old(row) && files == old(files) - {next}
                else r == None && row == Some(Row(next, true, Fingerprint(material))) && files == old(files)[next := material]
    {
      if row.None? { return Some(NotFound); }
      var next := row.value.active + 1;
      Record(RotateRead(p, material));
      var stored := StoreRevision(p, next, material);
      if !stored { return Some(AlreadyStored); }
      r := ChangeRow(p, next, material, fault);
      assert fault ==> files == old(files) - {next};
    }

    /** `disable`. */
    method DisableCredential() returns (r: Option<CredentialError>)
      requires Valid()
      modifies this
      ensures Valid() && old(run) <= run && files == old(files)
      ensures old(row).None? ==> r == Some(NotFound) && row == old(row)
      ensures old(row).Some? ==> r == None && row == Some(old(row).value.(enabled := false))
    {
      if row.None? { return Some(NotFound); }
      Record(Disable);
      row := Some(row.value.(enabled := false));
      return None;
    }

    /** `get_secret_for_consumer`: a granted read of an active credential returns the last committed
        secret, when no two operations overlapped with the same material and no fault struck behind a commit. */
    method GetSecret(granted: bool) returns (r: Result<Material, CredentialError>)
      requires Valid()
      ensures r == if row.None? then Err(NotFound)
                   else if !row.value.enabled then Err(IsDisabled)
                   else if !granted then Err(NotGranted)
                   else if row.value.active in files then Ok(files[row.value.active]) else Err(MaterialMissing)
      ensures Tame(run) && row.Some? && row.value.enabled && granted ==> r.Ok? && state.committed == Some(r.value)
      ensures r == Err(MaterialMissing) <==> row.Some? && row.value.enabled && granted && row.value.active !in files
    {
      if Tame(run) && row.Some? { FilesFollowRow(run); }
      if row.None? { return Err(NotFound); }
      if !row.value.enabled { return Err(IsDisabled); }
      if !granted { return Err(NotGranted); }
      if row.value.active !in files { return Err(MaterialMissing); }
      return Ok(files[row.value.active]);
    }
  }
}
