/** Backup, restore and update of an installed host: symlink-free trees, the database as a value, the
    release link, and faults that may strike any step. */
module Lifecycle {
  import opened Wrappers

  type Name = nat
  type Sha = nat

  const BACKUPS: Name := 0
  const SECRETS: Name := 1
  const MANIFEST: Name := 2
  const ENVIRONMENT: Name := 3
  const INSTANCE_ID: Name := 4
  const PRESERVED: Name := 5

  lemma NamesDiffer()
    ensures var all := [BACKUPS, SECRETS, MANIFEST, ENVIRONMENT, INSTANCE_ID, PRESERVED];
            forall i, j | 0 <= i < j < |all| :: all[i] != all[j]
  {
  }

  /** A line of genos.env: the release line, or any other. */
  datatype Line = ReleaseSha(sha: Sha) | Other(text: nat)

  /** A file: text lines, an install manifest that is a JSON object, a valid UUID, or anything else. */
  datatype Content = Lines(lines: seq<Line>) | ManifestObject(release: Option<Sha>, rest: nat) | Uuid(id: nat) | Raw(data: nat)

  datatype Node = File(content: Content) | Dir(entries: Entries)

  type Entries = map<Name, Node>

  /** The host: the state and config directories, the database, the target of the `current` link and
      the staged releases. */
  datatype Host = Host(state: Option<Entries>, config: Option<Entries>, db: nat, current: Option<Sha>, releases: set<Sha>)

  datatype Archive = Archive(state: Entries, config: Option<Entries>, db: nat, includeSecrets: bool, instance: nat)

  function Get(dir: Option<Entries>, n: Name): Option<Node> {
    if dir.Some? && n in dir.value then Some(dir.value[n]) else None
  }

  function UuidAt(dir: Option<Entries>): Option<nat> {
    match Get(dir, INSTANCE_ID)
    case Some(File(Uuid(id))) => Some(id)
    case _ => None
  }

  /** `_instance_id`: from the config, else from the config an uninstall preserved. */
  function Instance(h: Host): Option<nat> {
    if UuidAt(h.config).Some? then UuidAt(h.config)
    else match Get(h.state, PRESERVED)
      case Some(Dir(entries)) => UuidAt(Some(entries))
      case _ => None
  }

  /** The config's own id comes first; an id that an uninstall preserved counts only without it. */
  lemma InstanceFound(h: Host, id: nat)
    ensures h.config.Some? && INSTANCE_ID in h.config.value && h.config.value[INSTANCE_ID] == File(Uuid(id)) ==>
              Instance(h) == Some(id)
    ensures !(h.config.Some? && INSTANCE_ID in h.config.value
              && h.config.value[INSTANCE_ID].File? && h.config.value[INSTANCE_ID].content.Uuid?) ==>
              (Instance(h) == Some(id) <==>
                 && h.state.Some? && PRESERVED in h.state.value && h.state.value[PRESERVED].Dir?
                 && INSTANCE_ID in h.state.value[PRESERVED].entries
                 && h.state.value[PRESERVED].entries[INSTANCE_ID] == File(Uuid(id)))
  {
  }

  function EntriesOf(dir: Option<Entries>): Entries { if dir.Some? then dir.value else map[] }

  // ---------- pruning ----------

  /** `copytree` with `ignore_patterns("backups")`: entries of that name vanish at every depth. */
  function PruneNode(v: Node): (r: Node)
    ensures r.Dir? <==> v.Dir?
  {
    match v
    case File(_) => v
    case Dir(entries) => Dir(map n | n in entries && n != BACKUPS :: PruneNode(entries[n]))
  }

  function Prune(m: Entries): Entries { PruneNode(Dir(m)).entries }

  /** The file a path leads to. */
  function FileAt(m: Entries, path: seq<Name>): Option<Content>
    decreases |path|
  {
    if path == [] || path[0] !in m then None
    else match m[path[0]]
      case File(c) => if |path| == 1 then Some(c) else None
      case Dir(entries) => FileAt(entries, path[1..])
  }

  /** Pruning keeps exactly the files whose path has no component named `backups`. */
  lemma {:induction false} PruneKeepsFiles(m: Entries, path: seq<Name>)
    ensures FileAt(Prune(m), path) == if BACKUPS in path then None else FileAt(m, path)
    decreases |path|
  {
    if path != [] && path[0] in m && path[0] != BACKUPS {
      match m[path[0]]
      case File(_) =>
        assert PruneNode(Dir(m)).entries[path[0]] == m[path[0]];
        assert |path| == 1 ==> path == [path[0]];
      case Dir(entries) =>
        PruneKeepsFiles(entries, path[1..]);
        assert BACKUPS in path <==> BACKUPS in path[1..];
    }
  }

  // ---------- what the operations compute ----------

  predicate HasSecrets(m: Entries) { SECRETS in m && m[SECRETS].Dir? }

  /** `_copy_state_snapshot`. */
  function Snapshot(m: Entries, includeSecrets: bool): Entries {
    map n | n in m && n != BACKUPS && (n != SECRETS || includeSecrets) :: m[n]
  }

  /** What `backup` archives. */
  function BackupOf(h: Host, includeSecrets: bool): Archive
    requires Instance(h).Some?
  {
    Archive(Snapshot(EntriesOf(h.state), includeSecrets), h.config, h.db, includeSecrets, Instance(h).value)
  }

  /** The host once an archive file has landed below `backups`. */
  function WithBackup(h: Host, name: Name): Host
    requires h.state.Some?
  {
    var before := match Get(h.state, BACKUPS) { case Some(Dir(entries)) => entries case _ => map[] };
    h.(state := Some(h.state.value[BACKUPS := Dir(before[name := File(Raw(0))])]))
  }

  /** Only that file is new: all other files stay where they are. */
  lemma BackupAddsOne(h: Host, name: Name, path: seq<Name>)
    requires h.state.Some? && (BACKUPS in h.state.value ==> h.state.value[BACKUPS].Dir?)
    requires !([BACKUPS, name] <= path)
    ensures FileAt(EntriesOf(WithBackup(h, name).state), path) == FileAt(EntriesOf(h.state), path)
    ensures FileAt(EntriesOf(WithBackup(h, name).state), [BACKUPS, name]).Some?
  {
    var after := EntriesOf(WithBackup(h, name).state);
    assert [BACKUPS, name][1..] == [name];
    if |path| > 1 && path[0] == BACKUPS {
      assert path[1] == name ==> [BACKUPS, name] <= path;
    }
  }

  /** The secret rule of `_verify_backup_manifest`. */
  predicate Verified(a: Archive) { a.includeSecrets == HasSecrets(a.state) }

  /** What `_restore_files` leaves of the old entries. */
  predicate Survives(n: Name, a: Archive) { n == BACKUPS || (n == SECRETS && !HasSecrets(a.state)) }

  /** What `_restore_files` copies. */
  predicate Copied(n: Name, a: Archive) { n in a.state && (n != SECRETS || HasSecrets(a.state)) }

  function RestoredState(old_: Entries, a: Archive): Entries {
    (map n | n in old_ && Survives(n, a) :: old_[n]) + (map n | n in a.state && Copied(n, a) :: a.state[n])
  }

  function Restored(h: Host, a: Archive): Host {
    h.(state := Some(RestoredState(EntriesOf(h.state), a)), config := if a.config.Some? then a.config else h.config, db := a.db)
  }

  /** What `_rollback_restore_checkpoint` makes of a host captured as `h`. */
  function RolledBack(h: Host): Host { h.(state := Some(Prune(EntriesOf(h.state)))) }

  // ---------- what backup and restore promise ----------

  /** A backup is accepted by restore exactly when secrets were not asked for, or exist. */
  lemma BackupVerified(h: Host, includeSecrets: bool)
    requires Instance(h).Some?
    ensures Verified(BackupOf(h, includeSecrets)) <==>
            !includeSecrets || (h.state.Some? && SECRETS in h.state.value && h.state.value[SECRETS].Dir?)
  {
  }

  /** Backup, any mutation, restore: outside `backups` and `secrets` the backed-up state is back; the
      secrets come from the archive exactly when included and otherwise stay as found, as the backups
      do; the database is back, and so is the config, which stays as found when there was none. */
  lemma BackupRestore(before: Host, found: Host, includeSecrets: bool)
    requires Instance(before).Some? && Verified(BackupOf(before, includeSecrets))
    ensures var after := Restored(found, BackupOf(before, includeSecrets));
            && (forall n: Name | n != BACKUPS && n != SECRETS :: Get(after.state, n) == Get(before.state, n))
            && Get(after.state, BACKUPS) == Get(found.state, BACKUPS)
            && Get(after.state, SECRETS) == Get(if includeSecrets then before.state else found.state, SECRETS)
            && after.db == before.db && after.config == (if before.config.Some? then before.config else found.config)
            && after.current == found.current && after.releases == found.releases
  {
    var a := BackupOf(before, includeSecrets);
    BackupVerified(before, includeSecrets);
    forall n: Name
      ensures Get(Restored(found, a).state, n) ==
              if Copied(n, a) then Some(a.state[n]) else if Survives(n, a) then Get(found.state, n) else None
    {
      RestoredGet(found, a, n);
    }
  }

  lemma RestoredGet(h: Host, a: Archive, n: Name)
    ensures Get(Restored(h, a).state, n) ==
            if Copied(n, a) then Some(a.state[n]) else if Survives(n, a) then Get(h.state, n) else None
  {
  }

  /** A rolled-back restore leaves every file where it was, except below entries named `backups`. */
  lemma RollbackKeeps(h: Host, path: seq<Name>)
    ensures var after := RolledBack(h);
            && FileAt(EntriesOf(after.state), path) == (if BACKUPS in path then None else FileAt(EntriesOf(h.state), path))
            && after.config == h.config && after.db == h.db && after.current == h.current
  {
    PruneKeepsFiles(EntriesOf(h.state), path);
  }

  // ---------- release identity ----------

  /** `read_text().splitlines()`. */
  function LinesOf(c: Content): seq<Line> {
    match c
    case Lines(lines) => lines
    case ManifestObject(_, rest) => [Other(rest)]
    case Uuid(id) => [Other(id)]
    case Raw(data) => [Other(data)]
  }

  predicate Carries(lines: seq<Line>) { exists i :: 0 <= i < |lines| && lines[i].ReleaseSha? }

  /** Every release line names this release, with one more behind the others when there was none; all other
      lines stay. */
  predicate Names(after: seq<Line>, before: seq<Line>, sha: Sha) {
    && |after| == |before| + (if Carries(before) then 0 else 1)
    && (forall i | 0 <= i < |before| :: after[i] == if before[i].ReleaseSha? then ReleaseSha(sha) else before[i])
    && (!Carries(before) ==> after[|before|] == ReleaseSha(sha))
  }

  lemma CarriesNext(lines: seq<Line>, i: nat)
    requires i < |lines|
    ensures Carries(lines[..i + 1]) <==> Carries(lines[..i]) || lines[i].ReleaseSha?
  {
    if Carries(lines[..i]) {
      var j :| 0 <= j < i && lines[..i][j].ReleaseSha?;
      assert lines[..i + 1][j].ReleaseSha?;
    }
    if lines[i].ReleaseSha? { assert lines[..i + 1][i].ReleaseSha?; }
  }

  /** The file names this release and no other. */
  lemma NamesOne(after: seq<Line>, before: seq<Line>, sha: Sha)
    requires Names(after, before, sha)
    ensures ReleaseSha(sha) in after && forall line | line in after && line.ReleaseSha? :: line.sha == sha
  {
    if Carries(before) {
      var i :| 0 <= i < |before| && before[i].ReleaseSha?;
      assert after[i] == ReleaseSha(sha);
    }
    forall line | line in after && line.ReleaseSha? ensures line.sha == sha {
      var i :| 0 <= i < |after| && after[i] == line;
      assert i < |before| ==> after[i] == if before[i].ReleaseSha? then ReleaseSha(sha) else before[i];
    }
  }

  // ---------- the service ----------

  /** What a failing step may leave of the trees and the database. */
  datatype Damage = Damage(state: Option<Entries>, config: Option<Entries>, db: nat)

  function Damaged(h: Host, d: Damage): Host { h.(state := d.state, config := d.config, db := d.db) }

  /** What the running services make of a host: they may write anything, or nothing. */
  function Drifted(h: Host, drift: Option<Damage>): Host { if drift.None? then h else Damaged(h, drift.value) }

  datatype RestoreResult = Succeeded | Refused | RolledBackAfterFailure | RollbackFailed

  /** Which steps of a restore fail, and what they leave; `usable` sums up the checks of the archive
      file itself, and `drift` is what the started services write before the health verdict. */
  datatype RestoreFaults = RestoreFaults(usable: bool, captures: bool, files: Option<Damage>, database: Option<Damage>,
                                         drift: Option<Damage>, healthy: bool, rollback: Option<Damage>)

  datatype UpdateResult = Updated | NotStarted | FailedBeforeCutover | RestoredMessage | IncompleteMessage

  /** Whether verification, staging, the switch of the link, each of the two identity writes, the
      services and the health probe, and the switch back of the link work; `drift` is what the services
      write until the health verdict: the new release migrates the database and writes its state. */
  datatype UpdateFaults = UpdateFaults(verifies: bool, backup: Option<Name>, stages: bool, cuts: bool,
                                       environment: bool, manifest: bool, drift: Option<Damage>, healthy: bool,
                                       cutsBack: bool, restore: RestoreFaults)

  class LifecycleService {
    var host: Host

    constructor (host: Host)
      ensures this.host == host
    {
      this.host := host;
    }

    /** The loop of `_copy_state_snapshot`. */
    method CopyStateSnapshot(includeSecrets: bool) returns (target: Entries)
      ensures target == Snapshot(EntriesOf(host.state), includeSecrets)
    {
      target := map[];
      if host.state.None? { return; }
      var names := host.state.value.Keys;
      while names != {}
        invariant names <= host.state.value.Keys
        invariant target == map n | n in host.state.value && n !in names && n != BACKUPS && (n != SECRETS || includeSecrets)
                                  :: host.state.value[n]
        decreases names
      {
        var n :| n in names;
        names := names - {n};
        if !(n == BACKUPS || (n == SECRETS && !includeSecrets)) {
          target := target[n := host.state.value[n]];
        }
      }
    }

    /** `backup`: None when the host has no identity or a step fails; the archive file lands below
        `backups`, under `name`. */
    method Backup(includeSecrets: bool, name: Option<Name>) returns (archive: Option<Archive>)
      modifies this
      ensures archive.Some? <==> Instance(old(host)).Some? && old(host).state.Some? && name.Some?
      ensures archive.Some? ==> archive.value == BackupOf(old(host), includeSecrets)
      ensures host == if archive.Some? then WithBackup(old(host), name.value) else old(host)
    {
      if Instance(host).None? || host.state.None? || name.None? { return None; }
      var state := CopyStateSnapshot(includeSecrets);
      archive := Some(Archive(state, host.config, host.db, includeSecrets, Instance(host).value));
      var before := match Get(host.state, BACKUPS) { case Some(Dir(entries)) => entries case _ => map[] };
      host := host.(state := Some(host.state.value[BACKUPS := Dir(before[name.value := File(Raw(0))])]));
    }

    /** The deleting loop of `_restore_files`. */
    static method ClearState(found: Entries, a: Archive) returns (state: Entries)
      ensures state == map n | n in found && Survives(n, a) :: found[n]
    {
      state := found;
      var names := found.Keys;
      while names != {}
        invariant names <= found.Keys
        invariant forall n :: n in state <==> n in found && (n in names || Survives(n, a))
        invariant forall n | n in state :: state[n] == found[n]
        decreases names
      {
        var n :| n in names;
        names := names - {n};
        if !(n == BACKUPS || (n == SECRETS && !(SECRETS in a.state && a.state[SECRETS].Dir?))) { state := state - {n}; }
      }
    }

    /** The copying loop of `_restore_files`. */
    static method CopyState(kept: Entries, a: Archive) returns (state: Entries)
      ensures state == kept + (map n | n in a.state && Copied(n, a) :: a.state[n])
    {
      state := kept;
      var names := a.state.Keys;
      while names != {}
        invariant names <= a.state.Keys
        invariant forall n :: n in state <==> n in kept || (Copied(n, a) && n !in names)
        invariant forall n | n in state :: state[n] == if Copied(n, a) && n !in names then a.state[n] else kept[n]
        decreases names
      {
        var n :| n in names;
        names := names - {n};
        if n != SECRETS || (SECRETS in a.state && a.state[SECRETS].Dir?) { state := state[n := a.state[n]]; }
      }
    }

    /** `_restore_files`: it clears and copies the state, and replaces the config by an archived one. */
    method RestoreFiles(a: Archive, fault: Option<Damage>) returns (done: bool)
      modifies this
      ensures done <==> fault.None?
      ensures done ==> host == Restored(old(host), a).(db := old(host).db)
      ensures !done ==> host == Damaged(old(host), fault.value)
    {
      if fault.Some? {
        host := Damaged(host, fault.value);
        return false;
      }
      var state := ClearState(EntriesOf(host.state), a);
      state := CopyState(state, a);
      host := host.(state := Some(state));
      if a.config.Some? { host := host.(config := a.config); }
      return true;
    }

    /** `restore`: it succeeds completely, and the started services write on from there; or it refuses
        without effect; or it rolls back, and with it what the services wrote. */
    method Restore(a: Archive, allowReplace: bool, faults: RestoreFaults) returns (r: RestoreResult)
      modifies this
      ensures r == Succeeded ==> Verified(a) && host == Drifted(Restored(old(host), a), faults.drift)
      ensures r == Refused ==> host == old(host)
      ensures r == RolledBackAfterFailure ==> host == RolledBack(old(host))
      ensures r == RollbackFailed ==>
                faults.rollback.Some? && host == Damaged(old(host), faults.rollback.value)
      ensures r == Refused <==>
                || !faults.usable || !Verified(a) || !faults.captures
                || (Instance(old(host)).Some? && Instance(old(host)).value != a.instance && !allowReplace)
      ensures r == RolledBackAfterFailure ==> faults.rollback.None?
      ensures host.current == old(host).current && host.releases == old(host).releases
      ensures r == Succeeded <==>
                && faults.usable && Verified(a) && faults.captures && faults.files.None? && faults.database.None? && faults.healthy
                && (Instance(old(host)).None? || Instance(old(host)).value == a.instance || allowReplace)
    {
      if !faults.usable || a.includeSecrets != HasSecrets(a.state) { return Refused; }
      var instance := Instance(host);
      if instance.Some? && instance.value != a.instance && !allowReplace { return Refused; }
      if !faults.captures { return Refused; }
      var checkpoint := RolledBack(host);
      var done := RestoreFiles(a, faults.files);
      if done {
        if faults.database.None? {
          host := Drifted(host.(db := a.db), faults.drift);
          if faults.healthy { return Succeeded; }
        } else {
          host := Damaged(host, faults.database.value);
        }
      }
      if faults.rollback.Some? {
        host := Damaged(host, faults.rollback.value);
        return RollbackFailed;
      }
      host := host.(state := checkpoint.state, config := checkpoint.config, db := checkpoint.db);
      return RolledBackAfterFailure;
    }

    /** The line loop of `_write_release_identity`. */
    method ReleaseLines(lines: seq<Line>, sha: Sha) returns (updated: seq<Line>)
      ensures Names(updated, lines, sha)
    {
      updated := [];
      var replaced := false;
      for i := 0 to |lines|
        invariant |updated| == i && (replaced <==> Carries(lines[..i]))
        invariant forall j | 0 <= j < i :: updated[j] == if lines[j].ReleaseSha? then ReleaseSha(sha) else lines[j]
      {
        CarriesNext(lines, i);
        if lines[i].ReleaseSha? {
          updated := updated + [ReleaseSha(sha)];
          replaced := true;
        } else {
          updated := updated + [lines[i]];
        }
      }
      assert lines[..|lines|] == lines;
      if !replaced { updated := updated + [ReleaseSha(sha)]; }
    }

    /** `_write_release_identity`: first the environment file, then the manifest; a failure may leave
        the first written. */
    method WriteReleaseIdentity(sha: Sha, environment: bool, manifest: bool) returns (done: bool)
      modifies this
      ensures host.db == old(host).db && host.current == old(host).current && host.releases == old(host).releases
      ensures forall n: Name | n != ENVIRONMENT :: Get(host.config, n) == Get(old(host).config, n)
      ensures host.config.None? <==> old(host).config.None?
      ensures forall n: Name | n != MANIFEST :: Get(host.state, n) == Get(old(host).state, n)
      ensures done ==> Identified(host, old(host), sha)
      ensures done <==> environment && manifest && Identifiable(old(host))
    {
      var env := Get(host.config, ENVIRONMENT);
      if env.None? || env.value.Dir? { return false; }
      var lines := ReleaseLines(LinesOf(env.value.content), sha);
      if !environment { return false; }
      host := host.(config := Some(host.config.value[ENVIRONMENT := File(Lines(lines))]));
      var old_ := Get(host.state, MANIFEST);
      if old_.None? || old_.value.Dir? || !old_.value.content.ManifestObject? || !manifest { return false; }
      host := host.(state := Some(host.state.value[MANIFEST := File(ManifestObject(Some(sha), old_.value.content.rest))]));
      return true;
    }

    /** `_current_release`: the link's target, when it resolves. */
    function CurrentRelease(): Option<Sha>
      reads this
    {
      ResolvedLink(host)
    }

    /** `update`.  `left` is what the operation itself leaves, before the services that it starts last
        write on from there; when the way back fails, it is what that way started from. */
    method Update(sha: Sha, faults: UpdateFaults) returns (r: UpdateResult, ghost left: Host)
      modifies this
      ensures r == Updated <==>
                && Instance(old(host)).Some? && old(host).state.Some? && faults.verifies && faults.backup.Some? && faults.stages
                && faults.cuts && faults.environment && faults.manifest && faults.healthy && Identifiable(old(host))
      ensures r == Updated ==> faults.backup.Some? && old(host).state.Some? && Converged(old(host), left, sha, faults.backup.value)
      ensures r == Updated ==>
                host == Drifted(left, faults.drift) && (SameIdentity(host, left) ==> Identified(host, old(host), sha))
      ensures r == RestoredMessage || r == IncompleteMessage ==>
                faults.backup.Some? && Instance(old(host)).Some? && old(host).state.Some?
                && WentBack(old(host), left, host, r, sha, faults)
      ensures r == NotStarted <==> Instance(old(host)).None? || old(host).state.None? || !faults.verifies
      ensures r == FailedBeforeCutover <==> r != NotStarted && (faults.backup.None? || !faults.stages || !faults.cuts)
      ensures r == NotStarted ==> left == host == old(host)
      ensures r == FailedBeforeCutover ==>
                left == host && old(host).releases <= host.releases <= old(host).releases + {sha}
                && host.(releases := old(host).releases)
                   in {old(host), if faults.backup.Some? && old(host).state.Some?
                                  then WithBackup(old(host), faults.backup.value) else old(host)}
    {
      left := host;
      if Instance(host).None? || host.state.None? || !faults.verifies { return NotStarted, left; }
      var previous := CurrentRelease();
      var archive := Backup(false, faults.backup);
      left := host;
      if archive.None? || !faults.stages { return FailedBeforeCutover, left; }
      ghost var backedUp := host;
      host := host.(releases := host.releases + {sha});
      left := host;
      if !faults.cuts { return FailedBeforeCutover, left; }
      host := host.(current := Some(sha));
      var done := WriteReleaseIdentity(sha, faults.environment, faults.manifest);
      left := host;
      host := Drifted(host, faults.drift);
      if done && faults.healthy {
        StillIdentified(left, old(host), backedUp, sha);
        IdentityStands(host, left, old(host), sha);
        return Updated, left;
      }
      r, left := GoBack(archive.value, previous, sha, faults, old(host));
    }

    /** The handler of `update`: the link goes back, and the state with it. */
    method GoBack(archive: Archive, previous: Option<Sha>, sha: Sha, faults: UpdateFaults, ghost before: Host)
      returns (r: UpdateResult, ghost left: Host)
      requires Instance(before).Some? && before.state.Some? && faults.backup.Some?
      requires archive == BackupOf(before, false) && previous == ResolvedLink(before)
      requires Touched(before, host, sha, faults)
      modifies this
      ensures r == RestoredMessage || r == IncompleteMessage
      ensures WentBack(before, left, host, r, sha, faults)
    {
      var linked := true;
      if previous.Some? {
        if faults.cutsBack { host := host.(current := previous); } else { linked := false; }
      }
      ghost var found := host;
      var restored := Restore(archive, false, faults.restore);
      if !linked || restored != Succeeded { return IncompleteMessage, found; }
      left := Restored(found, archive);
      BackupRestore(before, found, false);
      return RestoredMessage, left;
    }
  }

  function ResolvedLink(h: Host): Option<Sha> { if h.current.Some? && h.current.value in h.releases then h.current else None }

  /** The updated host: the link, the two identity files, one more backup and the staged release; all else
      is as it was. */
  ghost predicate Converged(before: Host, after: Host, sha: Sha, backup: Name)
    requires before.state.Some?
  {
    && after.current == Some(sha) && after.releases == before.releases + {sha} && after.db == before.db
    && Identified(after, before, sha)
    && (forall n: Name | n != MANIFEST :: Get(after.state, n) == Get(WithBackup(before, backup).state, n))
    && (forall n: Name | n != ENVIRONMENT :: Get(after.config, n) == Get(before.config, n))
  }

  /** A host on the way of an update, behind the cutover. */
  ghost predicate Touched(before: Host, found: Host, sha: Sha, faults: UpdateFaults)
    requires before.state.Some? && faults.backup.Some?
  {
    && found.current == Some(sha) && found.releases == before.releases + {sha}
    && Instance(found) == Instance(Drifted(before, faults.drift))
    && (before.config.None? ==> found.config == Drifted(before, faults.drift).config)
    && KeptAside(before, found, faults)
  }

  /** The secrets and the backups are as they were, but for the new archive and for what services wrote. */
  ghost predicate KeptAside(before: Host, after: Host, faults: UpdateFaults)
    requires before.state.Some? && faults.backup.Some?
  {
    forall n | n == SECRETS || n == BACKUPS ::
      Get(after.state, n) == Get(Drifted(WithBackup(before, faults.backup.value), faults.drift).state, n)
  }

  /** The link leads to a release that is there. */
  predicate HasRelease(h: Host) { exists sha :: h.current == Some(sha) && sha in h.releases }

  /** How an update that failed behind the cutover ends. */
  ghost predicate WentBack(before: Host, left: Host, after: Host, r: UpdateResult, sha: Sha, faults: UpdateFaults)
    requires Instance(before).Some? && before.state.Some? && faults.backup.Some?
  {
    && after.releases == before.releases + {sha} && KeptAside(before, left, faults)
    && after.current == (if HasRelease(before) && faults.cutsBack then before.current else Some(sha))
    && (r == RestoredMessage ==> BackAsBefore(left, before, faults.drift) && after == Drifted(left, faults.restore.drift))
    && (r == RestoredMessage <==>
          (HasRelease(before) ==> faults.cutsBack) && Works(faults.restore) && !ChangesInstance(before, faults.drift))
    && (r != RestoredMessage && faults.restore.rollback.None? ==>
          || after == left || after == RolledBack(left)
          || (!faults.cutsBack && after == Drifted(Restored(left, BackupOf(before, false)), faults.restore.drift)))
  }

  /** The environment file and the manifest name the release; the rest of both is kept. */
  predicate Identified(after: Host, before: Host, sha: Sha) {
    && (match (Get(after.config, ENVIRONMENT), Get(before.config, ENVIRONMENT))
        case (Some(File(Lines(lines))), Some(File(c))) => Names(lines, LinesOf(c), sha)
        case _ => false)
    && (match (Get(after.state, MANIFEST), Get(before.state, MANIFEST))
        case (Some(File(ManifestObject(Some(s), rest))), Some(File(ManifestObject(_, rest')))) => s == sha && rest == rest'
        case _ => false)
  }

  /** The two files that carry the release identity are there. */
  predicate Identifiable(h: Host) {
    && Get(h.config, ENVIRONMENT).Some? && Get(h.config, ENVIRONMENT).value.File?
    && Get(h.state, MANIFEST).Some? && Get(h.state, MANIFEST).value.File?
    && Get(h.state, MANIFEST).value.content.ManifestObject?
  }

  lemma StillIdentified(after: Host, before: Host, backedUp: Host, sha: Sha)
    requires Identified(after, backedUp, sha) && backedUp.config == before.config
    requires Get(backedUp.state, MANIFEST) == Get(before.state, MANIFEST)
    ensures Identified(after, before, sha)
  {
  }

  /** No step of the restore fails. */
  predicate Works(f: RestoreFaults) { f.usable && f.captures && f.files.None? && f.database.None? && f.healthy }

  /** The services gave the host another identity, which keeps a restore from replacing it. */
  predicate ChangesInstance(h: Host, drift: Option<Damage>) {
    Instance(Drifted(h, drift)).Some? && Instance(Drifted(h, drift)) != Instance(h)
  }

  predicate SameIdentity(a: Host, b: Host) {
    Get(a.config, ENVIRONMENT) == Get(b.config, ENVIRONMENT) && Get(a.state, MANIFEST) == Get(b.state, MANIFEST)
  }

  lemma IdentityStands(after: Host, left: Host, before: Host, sha: Sha)
    requires Identified(left, before, sha)
    ensures SameIdentity(after, left) ==> Identified(after, before, sha)
  {
  }

  /** The state outside `backups` and `secrets`, the config and the database are as before, whatever was
      written in between; only a config that was not there before can be left behind by what was. */
  ghost predicate BackAsBefore(after: Host, before: Host, written: Option<Damage>) {
    && (forall n: Name | n != BACKUPS && n != SECRETS :: Get(after.state, n) == Get(before.state, n))
    && after.config == (if before.config.None? && written.Some? then written.value.config else before.config)
    && after.db == before.db
  }
}
