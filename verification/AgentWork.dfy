/** The claim, queue and result files of the single agent, with any number of submitters and one
    worker that may crash between any two file operations. */
module AgentWork {
  import opened Utf8

  type Task = nat

  /** The claim file: absent, created but not yet written, or naming a task. */
  datatype Claim = Unclaimed | Opening(task: Task) | Held(task: Task)

  datatype Files = Files(claim: Claim, queue: map<Task, Text>, results: set<Task>)

  /** How far the submitter of a task is: it has created the claim, written it, is undoing it after
      a failed queue write, has been told that the task is accepted, or is gone. */
  datatype Submitter = Created | Written | Undoing | Dropping | Accepted | Gone

  datatype Worker =
    | Idle
    | Seen(task: Task)
    | Loaded(task: Task, prompt: Text)
    | Finished(task: Task)
    | Releasing(task: Task)
    | Dropped(task: Task)

  /** `prompts` remembers what each task was submitted with. */
  datatype State = State(files: Files, submitters: map<Task, Submitter>, prompts: map<Task, Text>, worker: Worker)

  /** One file operation, or one failure. */
  datatype Event =
    | CreateClaim(task: Task, prompt: Text)
    | WriteClaim(task: Task)
    | ClaimWriteFails(task: Task)
    | WriteQueue(task: Task)
    | QueueWriteFails(task: Task)
    | ReadOwnClaim(task: Task)
    | UnlinkOwnClaim(task: Task)
    | SubmitterCrash(task: Task)
    | SeeQueue(task: Task)
    | LoadTask
    | WriteResult
    | UnlinkQueue
    | ReadClaim
    | UnlinkClaim
    | WorkerCrash
    | Compensate(task: Task)

  const INITIAL: State := State(Files(Unclaimed, map[], {}), map[], map[], Idle)

  predicate At(s: State, t: Task, pc: Submitter) { t in s.submitters && s.submitters[t] == pc }

  /** Which operations a process may do next. */
  predicate Enabled(s: State, e: Event) {
    match e
    case CreateClaim(t, _) => t !in s.submitters && s.files.claim.Unclaimed?  // O_EXCL, fresh task id
    case WriteClaim(t) => At(s, t, Created)
    case ClaimWriteFails(t) => At(s, t, Created)
    case WriteQueue(t) => At(s, t, Written)
    case QueueWriteFails(t) => At(s, t, Written)
    case ReadOwnClaim(t) => At(s, t, Undoing)
    case UnlinkOwnClaim(t) => At(s, t, Dropping)
    case SubmitterCrash(t) => t in s.submitters && s.submitters[t] != Accepted
    case SeeQueue(t) => s.worker.Idle? && t in s.files.queue
    case LoadTask => s.worker.Seen?
    case WriteResult => s.worker.Loaded? && s.worker.prompt != []
    case UnlinkQueue => s.worker.Finished? || (s.worker.Loaded? && s.worker.prompt == [])
    case ReadClaim => s.worker.Releasing?
    case UnlinkClaim => s.worker.Dropped?
    case WorkerCrash => true
    case Compensate(t) => At(s, t, Accepted)
  }

  function WithClaim(s: State, c: Claim): State { s.(files := s.files.(claim := c)) }

  function Move(s: State, t: Task, pc: Submitter): State { s.(submitters := s.submitters[t := pc]) }

  function Apply(s: State, e: Event): State
    requires Enabled(s, e)
  {
    match e
    case CreateClaim(t, prompt) => Move(WithClaim(s, Opening(t)), t, Created).(prompts := s.prompts[t := prompt])
    case WriteClaim(t) => Move(WithClaim(s, Held(t)), t, Written)
    case ClaimWriteFails(t) => Move(WithClaim(s, Unclaimed), t, Gone)  // unlink without looking
    case WriteQueue(t) =>
      var prompt := if t in s.prompts then s.prompts[t] else [];
      Move(s.(files := s.files.(queue := s.files.queue[t := prompt])), t, Accepted)
    case QueueWriteFails(t) => Move(s, t, Undoing)
    case ReadOwnClaim(t) => Move(s, t, if s.files.claim == Held(t) then Dropping else Gone)
    case UnlinkOwnClaim(t) => Move(WithClaim(s, Unclaimed), t, Gone)
    case SubmitterCrash(t) => Move(s, t, Gone)
    case SeeQueue(t) => s.(worker := Seen(t))
    case LoadTask =>
      var t := s.worker.task;
      s.(worker := if t in s.files.queue then Loaded(t, s.files.queue[t]) else Idle)
    case WriteResult =>
      s.(files := s.files.(results := s.files.results + {s.worker.task}), worker := Finished(s.worker.task))
    case UnlinkQueue =>
      s.(files := s.files.(queue := s.files.queue - {s.worker.task}), worker := Releasing(s.worker.task))
    case ReadClaim => s.(worker := if s.files.claim == Held(s.worker.task) then Dropped(s.worker.task) else Idle)
    case UnlinkClaim => WithClaim(s, Unclaimed).(worker := Idle)
    case WorkerCrash => s.(worker := Idle)
    case Compensate(t) => if s.files.claim == Held(t) then WithClaim(s, Unclaimed) else s
  }

  // ---------- the invariant ----------

  /** A queue file exists only under a claim naming its task. */
  predicate QueueClaimed(s: State) { forall t | t in s.files.queue :: s.files.claim == Held(t) }

  /** The submitters that still own the claim, and their task is nowhere else. */
  predicate SubmittersOwn(s: State) {
    forall t | t in s.submitters ::
      match s.submitters[t]
      case Created => s.files.claim == Opening(t)
      case Written => s.files.claim == Held(t) && Untouched(s, t)
      case Undoing => s.files.claim == Held(t) && Untouched(s, t)
      case Dropping => s.files.claim == Held(t) && Untouched(s, t)
      case _ => true
  }

  predicate Untouched(s: State, t: Task) {
    t !in s.files.queue && (s.worker.Idle? || s.worker.task != t)
  }

  /** The worker's task is queued until it unlinks it, and then still claimed. */
  predicate WorkerOwns(s: State) {
    match s.worker
    case Idle => true
    case Seen(t) => t in s.files.queue
    case Loaded(t, prompt) => t in s.files.queue && s.files.queue[t] == prompt
    case Finished(t) => t in s.files.queue && t in s.files.results
    case Releasing(t) => t !in s.files.queue && s.files.claim == Held(t)
    case Dropped(t) => t !in s.files.queue && s.files.claim == Held(t)
  }

  predicate KnownTasks(s: State) {
    && (forall t | t in s.files.queue :: t in s.submitters && t in s.prompts && s.files.queue[t] == s.prompts[t])
    && (forall t | t in s.submitters :: t in s.prompts)
    && (forall t | t in s.files.results :: t in s.prompts && s.prompts[t] != [] && t in s.submitters)
  }

  /** An accepted task with a prompt is in the queue or has a result. */
  predicate NothingLost(s: State) {
    forall t | At(s, t, Accepted) && t in s.prompts && s.prompts[t] != [] :: t in s.files.queue || t in s.files.results
  }

  predicate Inv(s: State) {
    QueueClaimed(s) && SubmittersOwn(s) && WorkerOwns(s) && KnownTasks(s) && NothingLost(s)
  }

  lemma InitialInv()
    ensures Inv(INITIAL)
  {
  }

  lemma SubmitterStep(s: State, e: Event)
    requires Inv(s) && Enabled(s, e)
    requires e.CreateClaim? || e.WriteClaim? || e.ClaimWriteFails? || e.QueueWriteFails? || e.ReadOwnClaim?
             || e.UnlinkOwnClaim? || e.SubmitterCrash?
    ensures Inv(Apply(s, e))
  {
    var n := Apply(s, e);
    assert n.files.queue == s.files.queue && n.files.results == s.files.results && n.worker == s.worker;
  }

  lemma EnqueueStep(s: State, e: Event)
    requires Inv(s) && Enabled(s, e) && e.WriteQueue?
    ensures Inv(Apply(s, e))
  {
  }

  lemma WorkerStep(s: State, e: Event)
    requires Inv(s) && Enabled(s, e)
    requires e.SeeQueue? || e.LoadTask? || e.WriteResult? || e.UnlinkQueue? || e.ReadClaim? || e.UnlinkClaim? || e.WorkerCrash?
    ensures Inv(Apply(s, e))
  {
    var n := Apply(s, e);
    assert n.submitters == s.submitters && n.prompts == s.prompts;
  }

  // ---------- runs ----------

  /** Whether every event of a run is enabled when it happens. */
  predicate Possible(run: seq<Event>)
    decreases |run|, 0
  {
    run == [] || (Possible(run[..|run| - 1]) && Enabled(After(run[..|run| - 1]), run[|run| - 1]))
  }

  function After(run: seq<Event>): State
    requires Possible(run)
    decreases |run|, 1
  {
    if run == [] then INITIAL else Apply(After(run[..|run| - 1]), run[|run| - 1])
  }

  predicate WithoutCompensation(run: seq<Event>) { forall i | 0 <= i < |run| :: !run[i].Compensate? }

  lemma {:induction false} Reachable(run: seq<Event>)
    requires Possible(run) && WithoutCompensation(run)
    ensures Inv(After(run))
  {
    if run == [] {
      InitialInv();
    } else {
      Reachable(run[..|run| - 1]);
      var s, e := After(run[..|run| - 1]), run[|run| - 1];
      if e.WriteQueue? {
        EnqueueStep(s, e);
      } else if e.CreateClaim? || e.WriteClaim? || e.ClaimWriteFails? || e.QueueWriteFails? || e.ReadOwnClaim?
                || e.UnlinkOwnClaim? || e.SubmitterCrash? {
        SubmitterStep(s, e);
      } else {
        WorkerStep(s, e);
      }
    }
  }

  /** In every run without the compensation: at most one task is queued, and only under its own
      claim; the worker's release meets its own claim; no accepted prompt is lost. */
  lemma SingleAgentWork(run: seq<Event>)
    requires Possible(run) && WithoutCompensation(run)
    ensures var s := After(run);
            && (forall t | t in s.files.queue :: s.files.claim == Held(t))
            && |s.files.queue| <= 1
            && (s.worker.Releasing? || s.worker.Dropped? ==> s.files.claim == Held(s.worker.task))
            && (forall t | At(s, t, Accepted) && t in s.prompts && s.prompts[t] != [] ::
                  t in s.files.queue || t in s.files.results)
  {
    Reachable(run);
    var s := After(run);
    if t :| t in s.files.queue {
      assert s.files.queue.Keys == {t};
      assert |s.files.queue| == |s.files.queue.Keys|;
    }
  }

  /** Only an accepted task with a prompt ever has a result. */
  lemma ResultsHavePrompts(run: seq<Event>, t: Task)
    requires Possible(run) && WithoutCompensation(run) && t in After(run).files.results
    ensures t in After(run).prompts && After(run).prompts[t] != []
  {
    Reachable(run);
  }

  /** A process can die at each of its steps, and dying changes no file; an accepted task stays accepted. */
  lemma Crashes(s: State, t: Task, e: Event)
    ensures Enabled(s, WorkerCrash) && Apply(s, WorkerCrash).files == s.files && Apply(s, WorkerCrash).worker == Idle
    ensures At(s, t, Created) || At(s, t, Written) || At(s, t, Undoing) || At(s, t, Dropping) ==>
              Enabled(s, SubmitterCrash(t)) && Apply(s, SubmitterCrash(t)) == s.(submitters := s.submitters[t := Gone])
    ensures At(s, t, Accepted) && Enabled(s, e) && !e.CreateClaim? ==> At(Apply(s, e), t, Accepted)
  {
  }

  /** A claim is created only where there is none, and every other step belongs to the process that is there. */
  lemma StepsInOrder(s: State, t: Task, prompt: Text)
    ensures Enabled(s, CreateClaim(t, prompt)) <==> s.files.claim == Unclaimed && t !in s.submitters
    ensures Enabled(s, WriteQueue(t)) ==> At(s, t, Written)
    ensures Enabled(s, SeeQueue(t)) <==> s.worker == Idle && t in s.files.queue
    ensures Enabled(s, WriteResult) <==> s.worker.Loaded? && s.worker.prompt != []
    ensures Enabled(s, UnlinkQueue) ==> s.worker.Finished? || (s.worker.Loaded? && s.worker.prompt == [])
  {
  }

  /** The result of a task is written before its queue file goes: a removed prompt has a result. */
  lemma ResultFirst(run: seq<Event>, t: Task)
    requires Possible(run) && WithoutCompensation(run) && run != [] && run[|run| - 1] == UnlinkQueue
    requires t in After(run[..|run| - 1]).files.queue && t !in After(run).files.queue
    ensures t in After(run).files.results || After(run[..|run| - 1]).files.queue[t] == []
  {
    var before := run[..|run| - 1];
    assert WithoutCompensation(before);
    Reachable(before);
  }

  // ---------- what the model also shows ----------

  /** A claim whose task is out of the queue and which no process is about to release. */
  predicate Stuck(s: State, t: Task) {
    && s.files.claim == Held(t) && t !in s.files.queue
    && (At(s, t, Gone) || At(s, t, Accepted))
    && !((s.worker.Releasing? || s.worker.Dropped?) && s.worker.task == t)
  }

  lemma StuckStep(s: State, e: Event, t: Task)
    requires Inv(s) && Stuck(s, t) && Enabled(s, e) && !e.Compensate?
    ensures Stuck(Apply(s, e), t) && !e.CreateClaim?
  {
  }

  lemma PossibleConcat(run: seq<Event>, e: Event)
    requires Possible(run) && Enabled(After(run), e)
    ensures Possible(run + [e]) && After(run + [e]) == Apply(After(run), e)
  {
    assert (run + [e])[..|run|] == run;
  }

  /** After a worker crash between unlink and release the claim is held for ever: no later run
      accepts another task. */
  lemma {:induction false} CrashBlocksForEver(run: seq<Event>, more: seq<Event>, t: Task)
    requires Possible(run + more) && WithoutCompensation(run + more) && Possible(run) && Stuck(After(run), t)
    ensures Stuck(After(run + more), t) && forall i | 0 <= i < |more| :: !more[i].CreateClaim?
  {
    if more == [] {
      assert run + more == run;
    } else {
      var before := more[..|more| - 1];
      var all := run + more;
      assert all[..|all| - 1] == run + before && all[|all| - 1] == more[|more| - 1];
      CrashBlocksForEver(run, before, t);
      Reachable(run + before);
      StuckStep(After(run + before), more[|more| - 1], t);
    }
  }

  // ---------- two concrete runs ----------

  predicate Reaches(run: seq<Event>, s: State) { Possible(run) && After(run) == s }

  lemma Extend(run: seq<Event>, s: State, e: Event) returns (run': seq<Event>, n: State)
    requires Reaches(run, s) && Enabled(s, e)
    ensures run' == run + [e] && n == Apply(s, e) && Reaches(run', n)
    ensures WithoutCompensation(run) && !e.Compensate? ==> WithoutCompensation(run')
  {
    PossibleConcat(run, e);
    run', n := run + [e], Apply(s, e);
  }

  /** An undisturbed submission. */
  lemma Submit(run: seq<Event>, s: State, t: Task, prompt: Text) returns (run': seq<Event>, n: State)
    requires Reaches(run, s) && s.files.claim.Unclaimed? && t !in s.submitters
    ensures Reaches(run', n) && (WithoutCompensation(run) ==> WithoutCompensation(run'))
    ensures n == State(Files(Held(t), s.files.queue[t := prompt], s.files.results),
                       s.submitters[t := Accepted], s.prompts[t := prompt], s.worker)
  {
    run', n := Extend(run, s, CreateClaim(t, prompt));
    run', n := Extend(run', n, WriteClaim(t));
    run', n := Extend(run', n, WriteQueue(t));
  }

  /** The worker's way from a queue file to the release. */
  lemma Work(run: seq<Event>, s: State, t: Task) returns (run': seq<Event>, n: State)
    requires Reaches(run, s) && s.worker.Idle? && t in s.files.queue && s.files.queue[t] != []
    ensures Reaches(run', n) && run <= run' && (WithoutCompensation(run) ==> WithoutCompensation(run'))
    ensures n == State(Files(s.files.claim, s.files.queue - {t}, s.files.results + {t}), s.submitters, s.prompts, Releasing(t))
  {
    run', n := Extend(run, s, SeeQueue(t));
    run', n := Extend(run', n, LoadTask);
    run', n := Extend(run', n, WriteResult);
    run', n := Extend(run', n, UnlinkQueue);
  }

  /** Such a crash exists: one accepted task, its result, its unlinked queue file, the crash. */
  lemma StuckRun(prompt: Text) returns (run: seq<Event>)
    requires prompt != []
    ensures Possible(run) && WithoutCompensation(run) && Stuck(After(run), 1)
  {
    var s;
    run, s := Submit([], INITIAL, 1, prompt);
    run, s := Work(run, s, 1);
    run, s := Extend(run, s, WorkerCrash);
  }

  /** With the compensation of `agent_tick` the queue file outlives its claim: a second task is
      queued beside it, and the worker's release meets a foreign claim. */
  lemma CompensationBreaksClaim(prompt: Text) returns (both: seq<Event>, run: seq<Event>)
    requires prompt != []
    ensures Possible(both) && After(both).files.queue.Keys == {1, 2} && After(both).files.claim == Held(2)
    ensures both <= run && Possible(run) && After(run).worker == Releasing(1) && After(run).files.claim == Held(2)
  {
    var s;
    run, s := Submit([], INITIAL, 1, prompt);
    run, s := Extend(run, s, Compensate(1));
    both, s := Submit(run, s, 2, prompt);
    run, s := Work(both, s, 1);
  }

  // ---------- the code, undisturbed ----------

  datatype QueueOutcome = NeedsAction | Busy | Failed | Queued

  /** The methods of the store and one turn of the worker loop, run without interference.  The ghost
      fields show that they are runs of the system above. */
  class AgentRuntimeStore {
    var files: Files
    ghost var state: State
    ghost var run: seq<Event>

    constructor ()
      ensures Valid() && run == []
    {
      files := Files(Unclaimed, map[], {});
      state := INITIAL;
      run := [];
    }

    ghost predicate Valid()
      reads this
    {
      state.files == files && Reaches(run, state) && WithoutCompensation(run)
    }

    ghost method Record(e: Event)
      requires Reaches(run, state) && WithoutCompensation(run) && Enabled(state, e) && !e.Compensate?
      modifies this`run, this`state
      ensures run == old(run) + [e] && state == Apply(old(state), e)
      ensures Reaches(run, state) && WithoutCompensation(run)
    {
      run, state := Extend(run, state, e);
    }

    /** `claim_work`: exclusive creation, then the payload; a failed payload takes the file back. */
    method ClaimWork(t: Task, prompt: Text, writeFails: bool) returns (busy: bool, claimed: bool)
      requires Valid() && t !in state.submitters
      modifies this
      ensures Valid() && old(run) <= run
      ensures busy <==> !old(files).claim.Unclaimed?
      ensures claimed <==> !busy && !writeFails
      ensures files == (if claimed then old(files).(claim := Held(t)) else old(files))
      ensures claimed ==> At(state, t, Written) && t in state.prompts && state.prompts[t] == prompt
      ensures busy ==> state == old(state)
    {
      if !files.claim.Unclaimed? { return true, false; }
      files := files.(claim := Opening(t));
      Record(CreateClaim(t, prompt));
      if writeFails {
        files := files.(claim := Unclaimed);
        Record(ClaimWriteFails(t));
        return false, false;
      }
      files := files.(claim := Held(t));
      Record(WriteClaim(t));
      return false, true;
    }

    /** `release_work`: only a claim of this task is removed; a foreign one is an error. */
    method ReleaseWork(t: Task, ghost byWorker: bool) returns (foreign: bool)
      requires Valid() && !files.claim.Opening?
      requires if byWorker then state.worker == Releasing(t) else At(state, t, Undoing)
      modifies this
      ensures Valid() && old(run) <= run
      ensures foreign <==> old(files).claim.Held? && old(files).claim.task != t
      ensures files == (if old(files).claim == Held(t) then old(files).(claim := Unclaimed) else old(files))
      ensures byWorker ==> state.worker == Idle && state.submitters == old(state).submitters
    {
      var claim := files.claim;
      if byWorker { Record(ReadClaim); } else { Record(ReadOwnClaim(t)); }
      if claim == Unclaimed { return false; }
      if claim.task != t { return true; }
      files := files.(claim := Unclaimed);
      if byWorker { Record(UnlinkClaim); } else { Record(UnlinkOwnClaim(t)); }
      return false;
    }

    /** `queue_task`: accepted exactly when the provider is active, no claim exists and both files can
        be written; otherwise no file changes. */
    method QueueTask(t: Task, prompt: Text, active: bool, claimFails: bool, queueFails: bool) returns (r: QueueOutcome)
      requires Valid() && t !in state.submitters
      modifies this
      ensures Valid() && old(run) <= run
      ensures r == (if !active then NeedsAction else if !old(files).claim.Unclaimed? then Busy
                    else if claimFails || queueFails then Failed else Queued)
      ensures r == Queued ==> files == old(files).(claim := Held(t), queue := old(files).queue[t := prompt])
      ensures r != Queued ==> files == old(files)
    {
      if !active { return NeedsAction; }
      var busy, claimed := ClaimWork(t, prompt, claimFails);
      if busy { return Busy; }
      if !claimed { return Failed; }
      if queueFails {
        Record(QueueWriteFails(t));
        var foreign := ReleaseWork(t, false);
        return Failed;
      }
      files := files.(queue := files.queue[t := prompt]);
      Record(WriteQueue(t));
      return Queued;
    }

    /** The turn up to the release: the result, if there is a prompt, and the unlinked queue file. */
    method RunTask(t: Task)
      requires Valid() && state.worker.Idle? && t in files.queue
      modifies this
      ensures Valid() && old(run) <= run && state.worker == Releasing(t)
      ensures files == Files(old(files).claim, old(files).queue - {t},
                             if old(files).queue[t] == [] then old(files).results else old(files).results + {t})
    {
      Record(SeeQueue(t));
      var prompt := files.queue[t];
      Record(LoadTask);
      if prompt != [] {
        files := files.(results := files.results + {t});
        Record(WriteResult);
      }
      files := files.(queue := files.queue - {t});
      Record(UnlinkQueue);
    }

    /** One turn of `worker_loop`: a queued task ends with a result, or without one when its prompt is
        empty, and with its claim released. */
    method WorkerTurn() returns (foreign: bool)
      requires Valid() && state.worker.Idle?
      modifies this
      ensures Valid() && old(run) <= run && state.worker.Idle? && !foreign
      ensures old(files).queue == map[] ==> files == old(files)
      ensures old(files).queue != map[] ==> exists t :: t in old(files).queue && files == Worked(old(files), t)
    {
      Reachable(run);
      if files.queue == map[] { return false; }
      var t :| t in files.queue;
      RunTask(t);
      foreign := ReleaseWork(t, true);
      assert files == Worked(old(files), t);
    }
  }

  /** The files after a worker's turn with task `t`. */
  function Worked(files: Files, t: Task): Files
    requires t in files.queue
  {
    Files(Unclaimed, files.queue - {t}, if files.queue[t] == [] then files.results else files.results + {t})
  }
}
