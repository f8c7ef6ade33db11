/** The native installer: a plan of steps, executed with a checkpoint behind each, and resumed. */
module Install {
  import opened Wrappers

  type Step = nat

  datatype RunState = Queued | Running | Succeeded | Failed

  datatype Evidence = Pass(step: Step) | Fail

  /** `install-run.json`. */
  datatype RunFile = RunFile(planHash: nat, state: RunState, checkpoint: Option<Step>, evidence: seq<Evidence>)

  datatype Plan = Plan(hash: nat, steps: seq<Step>)

  /** How one operation ends: normally, with an exception and without effect, or with the death of
      the process before or after its effect. */
  datatype Fate = Fine | Raises | DiesBefore | DiesAfter

  datatype Outcome = Finished | Raised | Died

  /** The steps with a recorded PASS, in the order of the records. */
  function Passes(evidence: seq<Evidence>): seq<Step> {
    if evidence == [] then []
    else
      var e := evidence[|evidence| - 1];
      Passes(evidence[..|evidence| - 1]) + (if e.Pass? then [e.step] else [])
  }

  function PassedOn(file: Option<RunFile>): seq<Step> { if file.None? then [] else Passes(file.value.evidence) }

  lemma PassAppend(evidence: seq<Evidence>, e: Evidence)
    ensures Passes(evidence + [e]) == Passes(evidence) + (if e.Pass? then [e.step] else [])
  {
    assert (evidence + [e])[..|evidence|] == evidence;
  }

  predicate Distinct(plan: Plan) { forall i, j | 0 <= i < j < |plan.steps| :: plan.steps[i] != plan.steps[j] }

  /** The PASS records of the plan's own file are a prefix of the plan, and all of it on success. */
  predicate Ordered(plan: Plan, file: Option<RunFile>) {
    file.Some? && file.value.planHash == plan.hash ==>
      && Passes(file.value.evidence) <= plan.steps
      && (file.value.state == Succeeded ==> Passes(file.value.evidence) == plan.steps)
  }

  /** What one `execute` does to the file, and which steps it runs. */
  predicate Executes(plan: Plan, before: Option<RunFile>, after: Option<RunFile>, ran: seq<Step>) {
    && Ordered(plan, after) && PassedOn(before) <= PassedOn(after)
    && (before.Some? ==> after.Some? && after.value.planHash == before.value.planHash)
    && (after.Some? && before.None? ==> after.value.planHash == plan.hash)
    && (before.Some? && before.value.planHash != plan.hash ==> after == before && ran == [])
    && (before.None? || before.value.planHash == plan.hash ==>
          |PassedOn(before)| <= |plan.steps| && ran <= plan.steps[|PassedOn(before)|..])
  }

  // ---------- how far an install gets ----------

  /** A persist lands although the process may die behind it. */
  predicate Lands(fate: Fate) { fate == Fine || fate == DiesAfter }

  /** An exception ends in an exception, unless the process dies while the failure is recorded. */
  function AfterRaise(failFate: Fate): Outcome { if failFate == DiesBefore || failFate == DiesAfter then Died else Raised }

  /** The manifest or the file belongs to another plan. */
  predicate Foreign(plan: Plan, manifest: Option<nat>, file: Option<RunFile>) {
    (manifest.Some? && manifest.value != plan.hash) || (file.Some? && file.value.planHash != plan.hash)
  }

  /** Steps `from` to `to` and their persists end normally; `fates` says how the operations end: the first
      persist, then each step and its persist, then the last persist. */
  predicate Smooth(fates: nat -> Fate, from: nat, to: nat) {
    forall j: nat | from <= j < to :: fates(2 * j + 1) == Fine && fates(2 * j + 2) == Fine
  }

  predicate StoppedBy(fates: nat -> Fate, r: nat, ends: (Fate, Fate)) { ends == (fates(2 * r + 1), fates(2 * r + 2)) }

  /** A step or its persist raises an exception. */
  predicate StepRaises(step: Fate, persist: Fate) { step == Raises || (step == Fine && persist == Raises) }

  /** The install stops at step `r`: it was attempted, and recorded only when it and a write behind it worked. */
  predicate StopsAt(plan: Plan, passed: nat, r: nat, after: Option<RunFile>, outcome: Outcome, ran: seq<Step>,
                    step: Fate, persist: Fate, failFate: Fate)
    requires passed <= r < |plan.steps|
  {
    && !(step == Fine && persist == Fine) && after.Some? && ran == plan.steps[passed..r + 1]
    && outcome == (if StepRaises(step, persist) then AfterRaise(failFate) else Died)
    && after.value.state == (if StepRaises(step, persist) && Lands(failFate) then RunState.Failed else Running)
    && PassedOn(after) ==
       if Records(step, persist, failFate) then plan.steps[..r + 1] else plan.steps[..r]
  }

  /** All steps are done; the last persist decides about success. */
  predicate Completes(plan: Plan, passed: nat, after: Option<RunFile>, outcome: Outcome, ran: seq<Step>, last: Fate,
                      failFate: Fate)
    requires passed <= |plan.steps|
  {
    && ran == plan.steps[passed..] && after.Some? && PassedOn(after) == plan.steps
    && outcome == (match last case Fine => Finished case Raises => AfterRaise(failFate) case _ => Died)
    && after.value.state == (match last
                             case Fine => Succeeded
                             case DiesAfter => Succeeded
                             case DiesBefore => Running
                             case Raises => if Lands(failFate) then RunState.Failed else Running)
  }

  /** The first persist fails: nothing runs. */
  predicate NeverStarts(before: Option<RunFile>, after: Option<RunFile>, outcome: Outcome, ran: seq<Step>, first: Fate) {
    && ran == [] && outcome == (if first == Raises then Raised else Died) && PassedOn(after) == PassedOn(before)
    && (first != DiesAfter ==> after == before) && (first == DiesAfter ==> after.Some? && after.value.state == Running)
  }

  /** How an install of this plan ends: it gets through to the end, or exactly to the first operation that
      does not end normally. */
  predicate Ends(plan: Plan, before: Option<RunFile>, after: Option<RunFile>, outcome: Outcome, ran: seq<Step>,
                 fates: nat -> Fate, failFate: Fate, r: nat) {
    var passed := |PassedOn(before)|;
    if fates(0) != Fine then NeverStarts(before, after, outcome, ran, fates(0))
    else
      && passed <= r <= |plan.steps| && Smooth(fates, passed, r)
      && if r == |plan.steps| then Completes(plan, passed, after, outcome, ran, fates(2 * |plan.steps| + 1), failFate)
         else StopsAt(plan, passed, r, after, outcome, ran, fates(2 * r + 1), fates(2 * r + 2), failFate)
  }

  /** When nothing goes wrong, every step that is not recorded yet runs, once and in order, and success is
      on disk. */
  lemma FineFinishes(plan: Plan, before: Option<RunFile>, after: Option<RunFile>, outcome: Outcome, ran: seq<Step>,
                     fates: nat -> Fate, failFate: Fate, r: nat)
    requires Ends(plan, before, after, outcome, ran, fates, failFate, r)
    requires forall j :: fates(j) == Fine
    ensures outcome == Finished && |PassedOn(before)| <= |plan.steps| && ran == plan.steps[|PassedOn(before)|..]
    ensures after.Some? && after.value.state == Succeeded && PassedOn(after) == plan.steps
  {
  }

  lemma FinishedIsAll(plan: Plan, before: Option<RunFile>, after: Option<RunFile>, ran: seq<Step>,
                      fates: nat -> Fate, failFate: Fate, r: nat)
    requires Ends(plan, before, after, Finished, ran, fates, failFate, r)
    ensures after.Some? && after.value.state == Succeeded && PassedOn(after) == plan.steps
  {
  }

  /** Only an operation that does not end normally keeps an install from finishing. */
  lemma UnfinishedHasCause(plan: Plan, before: Option<RunFile>, after: Option<RunFile>, outcome: Outcome, ran: seq<Step>,
                           fates: nat -> Fate, failFate: Fate, r: nat) returns (j: nat)
    requires Ends(plan, before, after, outcome, ran, fates, failFate, r) && outcome != Finished
    ensures j <= 2 * |plan.steps| + 1 && fates(j) != Fine
  {
    j := if fates(0) != Fine then 0
         else if r < |plan.steps| && fates(2 * r + 1) != Fine then 2 * r + 1
         else if r < |plan.steps| then 2 * r + 2
         else 2 * |plan.steps| + 1;
  }

  /** The steps still to do are exactly those behind the recorded prefix. */
  lemma PrefixMembers(plan: Plan, passed: seq<Step>, i: nat)
    requires Distinct(plan) && passed <= plan.steps && i < |plan.steps|
    ensures plan.steps[i] in passed <==> i < |passed|
  {
    if i < |passed| { assert passed[i] == plan.steps[i]; }
    if plan.steps[i] in passed {
      var k :| 0 <= k < |passed| && passed[k] == plan.steps[i];
      assert plan.steps[k] == passed[k];
    }
  }

  class NativeProvisioner {
    const plan: Plan
    var file: Option<RunFile>
    var completed: set<Step>

    constructor (plan: Plan, file: Option<RunFile>)
      ensures this.plan == plan && this.file == file && completed == {}
    {
      this.plan := plan;
      this.file := file;
      completed := {};
    }

    /** The part of `_load_resume_state` that collects recorded steps. */
    method LoadCompleted()
      requires file.Some?
      modifies this`completed
      ensures completed == old(completed) + (set s | s in Passes(file.value.evidence))
    {
      var evidence := file.value.evidence;
      for i := 0 to |evidence|
        invariant completed == old(completed) + (set s | s in Passes(evidence[..i]))
      {
        assert evidence[..i + 1] == evidence[..i] + [evidence[i]];
        PassAppend(evidence[..i], evidence[i]);
        if evidence[i].Pass? { completed := completed + {evidence[i].step}; }
      }
      assert evidence[..|evidence|] == evidence;
    }

    /** `_persist_run`: an atomic replacement of the file. */
    method Persist(run: RunFile, fate: Fate)
      modifies this`file
      ensures file == if fate == Fine || fate == DiesAfter then Some(run) else old(file)
    {
      if fate == Fine || fate == DiesAfter { file := Some(run); }
    }

    /** The handler of `execute`: the failure is recorded, if its own persist works. */
    method Fails(run: RunFile, fate: Fate) returns (outcome: Outcome)
      modifies this`file
      ensures file == if fate == Fine || fate == DiesAfter then Some(Failure(run)) else old(file)
      ensures outcome == AfterRaise(fate)
    {
      Persist(Failure(run), fate);
      outcome := if fate == DiesBefore || fate == DiesAfter then Died else Raised;
    }

    /** One turn of the loop of `execute` for a step that is not done; None means it goes on. */
    method RunStep(run: RunFile, step: Step, stepFate: Fate, fate: Fate, failFate: Fate)
      returns (run': RunFile, outcome: Option<Outcome>)
      requires file == Some(run)
      modifies this
      ensures file == Some(StepLeaves(run, step, stepFate, fate, failFate))
      ensures outcome.Some? ==>
                outcome.value == (if StepRaises(stepFate, fate) then AfterRaise(failFate) else Died)
      ensures outcome == None <==> stepFate == Fine && fate == Fine
      ensures stepFate == Fine && fate == Raises && failFate == Raises ==> file == old(file)
      ensures outcome == None ==> file == Some(run') && run' == Passed(run, step)
      ensures completed == old(completed) + if stepFate == Fine then {step} else {}
    {
      run' := run;
      if stepFate == Raises {
        var end := Fails(run, failFate);
        return run', Some(end);
      }
      if stepFate != Fine { return run', Some(Died); }
      completed := completed + {step};
      run' := run.(checkpoint := Some(step), evidence := run.evidence + [Pass(step)]);
      Persist(run', fate);
      if fate == Raises {
        var end := Fails(run', failFate);
        return run', Some(end);
      }
      if fate != Fine { return run', Some(Died); }
      return run', None;
    }

    /** One turn of the loop of `execute`, in the terms of the file before it. */
    method TakeStep(i: nat, run: RunFile, ran: seq<Step>, stepFate: Fate, fate: Fate, failFate: Fate,
                    ghost before: Option<RunFile>) returns (run': RunFile, stopped: Option<Outcome>, ran': seq<Step>)
      requires i < |plan.steps| && Distinct(plan) && file == Some(run) && Progress(plan, before, i, run, ran, completed)
      modifies this
      ensures stopped.Some? ==> Stops(plan, before, i, file, stopped.value, ran', (stepFate, fate), failFate)
      ensures stopped.None? ==> file == Some(run') && Progress(plan, before, i + 1, run', ran', completed)
      ensures stopped.None? && |PassedOn(before)| <= i ==> stepFate == Fine && fate == Fine
      ensures stopped.Some? ==> Knows(plan, if stepFate == Fine then i + 1 else i, completed)
    {
      if plan.steps[i] in completed {
        SkippedStep(plan, before, i, run, ran, completed);
        return run, None, ran;
      }
      NextStep(plan, before, i, run, ran, completed);
      KnowsNext(plan, PassedOn(before), i, completed);
      ran' := ran + [plan.steps[i]];
      run', stopped := RunStep(run, plan.steps[i], stepFate, fate, failFate);
      if stopped.Some? { TurnStops(plan, before, i, run, ran', file, stopped.value, stepFate, fate, failFate); }
    }

    /** The loop of `execute`. */
    method RunSteps(start: RunFile, fates: nat -> Fate, failFate: Fate, ghost before: Option<RunFile>)
      returns (run: RunFile, stopped: Option<Outcome>, ran: seq<Step>, ghost reached: nat, ghost ends: (Fate, Fate))
      requires Distinct(plan) && file == Some(start) && Progress(plan, before, 0, start, [], completed)
      modifies this
      ensures |PassedOn(before)| <= reached <= |plan.steps| && Smooth(fates, |PassedOn(before)|, reached)
      ensures stopped.Some? ==> StoppedBy(fates, reached, ends) && Stops(plan, before, reached, file, stopped.value, ran, ends, failFate)
      ensures stopped.Some? ==> reached < |plan.steps| && Knows(plan, if ends.0 == Fine then reached + 1 else reached, completed)
      ensures stopped.None? ==> reached == |plan.steps|
      ensures stopped.None? ==> file == Some(run) && Progress(plan, before, |plan.steps|, run, ran, completed)
    {
      run, stopped, ran, reached, ends := start, None, [], |plan.steps|, (Fine, Fine);
      for i := 0 to |plan.steps|
        invariant Smooth(fates, |PassedOn(before)|, i) && reached == |plan.steps|
        invariant Progress(plan, before, i, run, ran, completed) && file == Some(run) && stopped == None
      {
        var stepFate, fate := fates(2 * i + 1), fates(2 * i + 2);
        run, stopped, ran := TakeStep(i, run, ran, stepFate, fate, failFate, before);
        if stopped.Some? { return run, stopped, ran, i, (stepFate, fate); }
      }
    }

    /** The end of `execute`. */
    method Finish(run: RunFile, fate: Fate, failFate: Fate) returns (outcome: Outcome)
      requires file == Some(run)
      modifies this`file
      ensures outcome == (match fate case Fine => Finished case Raises => AfterRaise(failFate) case _ => Died)
      ensures file == Some(if Lands(fate) then run.(state := Succeeded)
                           else if fate == Raises && Lands(failFate) then Failure(run.(state := Succeeded)) else run)
    {
      Persist(run.(state := Succeeded), fate);
      if fate == Raises {
        outcome := Fails(run.(state := Succeeded), failFate);
        return outcome;
      }
      return if fate == Fine then Finished else Died;
    }

    /** `execute` behind the support gates, with the fates of its operations; `failFate` is that of the
        persist of a failure, and `reached` the first step that does not end normally.  The object is new:
        nothing but the file tells it what was done. */
    method Execute(manifest: Option<nat>, fates: nat -> Fate, failFate: Fate)
      returns (outcome: Outcome, ran: seq<Step>, ghost reached: nat)
      requires Distinct(plan) && Ordered(plan, file) && completed == {}
      modifies this
      ensures Executes(plan, old(file), file, ran)
      ensures Foreign(plan, manifest, old(file)) ==> outcome == Raised && ran == [] && file == old(file) && completed == {}
      ensures !Foreign(plan, manifest, old(file)) ==> Ends(plan, old(file), file, outcome, ran, fates, failFate, reached)
      ensures !Foreign(plan, manifest, old(file)) ==> Knows(plan, KnownSteps(plan, old(file), fates, reached), completed)
      ensures outcome == Finished ==> file.Some? && file.value.state == Succeeded && PassedOn(file) == plan.steps
    {
      if (manifest.Some? && manifest.value != plan.hash) || (file.Some? && file.value.planHash != plan.hash) {
        NothingDone(plan, file);
        return Raised, [], 0;
      }
      outcome, ran, reached := ExecuteOwn(fates, failFate);
    }

    /** `execute` for a new file or one of this plan. */
    method ExecuteOwn(fates: nat -> Fate, failFate: Fate) returns (outcome: Outcome, ran: seq<Step>, ghost reached: nat)
      requires Distinct(plan) && Ordered(plan, file) && completed == {} && (file.Some? ==> file.value.planHash == plan.hash)
      modifies this
      ensures Executes(plan, old(file), file, ran)
      ensures Ends(plan, old(file), file, outcome, ran, fates, failFate, reached)
      ensures Knows(plan, KnownSteps(plan, old(file), fates, reached), completed)
      ensures outcome == Finished ==> file.Some? && file.value.state == Succeeded && PassedOn(file) == plan.steps
    {
      NothingDone(plan, file);
      if file.Some? { LoadCompleted(); }
      ghost var before := file;
      var run := RunFile(plan.hash, Running, if file.Some? then file.value.checkpoint else None,
                         if file.Some? then file.value.evidence else []);
      Persist(run, fates(0));
      FirstPersist(plan, before, run);
      KnowsLoaded(plan, PassedOn(before), completed);
      if fates(0) != Fine { return if fates(0) == Raises then Raised else Died, [], 0; }
      outcome, ran, reached := ExecuteSteps(run, fates, failFate, before);
      if outcome == Finished { FinishedIsAll(plan, before, file, ran, fates, failFate, reached); }
    }

    /** The loop of `execute`, and its end. */
    method ExecuteSteps(start: RunFile, fates: nat -> Fate, failFate: Fate, ghost before: Option<RunFile>)
      returns (outcome: Outcome, ran: seq<Step>, ghost reached: nat)
      requires Distinct(plan) && file == Some(start) && Progress(plan, before, 0, start, [], completed) && fates(0) == Fine
      modifies this
      ensures Executes(plan, before, file, ran)
      ensures Ends(plan, before, file, outcome, ran, fates, failFate, reached)
      ensures Knows(plan, KnownSteps(plan, before, fates, reached), completed)
    {
      var run, stopped;
      ghost var ends;
      run, stopped, ran, reached, ends := RunSteps(start, fates, failFate, before);
      if stopped.Some? {
        StopsInOrder(plan, before, reached, file, stopped.value, ran, ends, failFate);
        return stopped.value, ran, reached;
      }
      AllSteps(plan, before, run, ran, completed);
      AllStepsRan(plan, before, run, ran, completed);
      KnowsAll(plan, PassedOn(before), completed);
      outcome := Finish(run, fates(2 * |plan.steps| + 1), failFate);
    }
  }

  /** The object knows the first `k` steps as done. */
  ghost predicate Knows(plan: Plan, k: nat, completed: set<Step>) {
    k <= |plan.steps| && forall s :: s in completed <==> s in plan.steps[..k]
  }

  /** How many steps the object knows as done behind an install: those recorded before it and those that
      worked, also when recording the last of them failed. */
  function KnownSteps(plan: Plan, before: Option<RunFile>, fates: nat -> Fate, r: nat): nat {
    if fates(0) != Fine then |PassedOn(before)| else if r < |plan.steps| && fates(2 * r + 1) == Fine then r + 1 else r
  }

  lemma KnowsNext(plan: Plan, passed: seq<Step>, i: nat, completed: set<Step>)
    requires i < |plan.steps| && passed <= plan.steps && |passed| <= i && Marked(plan, passed, i, completed)
    ensures Knows(plan, i, completed) && Knows(plan, i + 1, completed + {plan.steps[i]})
  {
    assert plan.steps[..i + 1] == plan.steps[..i] + [plan.steps[i]];
    forall s | s in passed ensures s in plan.steps[..i] {
      var k :| 0 <= k < |passed| && passed[k] == s;
      assert plan.steps[..i][k] == s;
    }
  }

  lemma KnowsAll(plan: Plan, passed: seq<Step>, completed: set<Step>)
    requires passed <= plan.steps && Marked(plan, passed, |plan.steps|, completed)
    ensures Knows(plan, |plan.steps|, completed)
  {
    assert plan.steps[..|plan.steps|] == plan.steps;
    forall s | s in passed ensures s in plan.steps {
      var k :| 0 <= k < |passed| && passed[k] == s;
      assert plan.steps[k] == s;
    }
  }

  lemma KnowsLoaded(plan: Plan, passed: seq<Step>, completed: set<Step>)
    requires passed <= plan.steps && forall s :: s in completed <==> s in passed
    ensures Knows(plan, |passed|, completed)
  {
    assert plan.steps[..|passed|] == passed;
  }

  /** The run with one more PASS. */
  function Passed(run: RunFile, step: Step): RunFile {
    run.(checkpoint := Some(step), evidence := run.evidence + [Pass(step)])
  }

  /** What a turn of the loop leaves in the file. */
  function StepLeaves(run: RunFile, step: Step, stepFate: Fate, fate: Fate, failFate: Fate): RunFile {
    if stepFate == Raises then if Lands(failFate) then Failure(run) else run
    else if stepFate != Fine || fate == DiesBefore then run
    else if fate == Raises then if Lands(failFate) then Failure(Passed(run, step)) else run
    else Passed(run, step)
  }

  /** The step is recorded, then or with the failure behind it. */
  predicate Records(stepFate: Fate, fate: Fate, failFate: Fate) {
    stepFate == Fine && (Lands(fate) || (fate == Raises && Lands(failFate)))
  }

  lemma LeavesRecorded(run: RunFile, step: Step, stepFate: Fate, fate: Fate, failFate: Fate)
    ensures Passes(StepLeaves(run, step, stepFate, fate, failFate).evidence) ==
            if Records(stepFate, fate, failFate) then Passes(run.evidence) + [step] else Passes(run.evidence)
  {
    PassAppend(run.evidence, Pass(step));
    PassAppend(run.evidence, Fail);
    PassAppend(Passed(run, step).evidence, Fail);
  }

  lemma LeavesState(run: RunFile, step: Step, stepFate: Fate, fate: Fate, failFate: Fate)
    requires run.state == Running && !(stepFate == Fine && fate == Fine)
    ensures StepLeaves(run, step, stepFate, fate, failFate).state ==
            if StepRaises(stepFate, fate) && Lands(failFate) then RunState.Failed else Running
  {
  }

  lemma TurnStops(plan: Plan, before: Option<RunFile>, i: nat, run: RunFile, ran: seq<Step>, file: Option<RunFile>,
                  outcome: Outcome, stepFate: Fate, fate: Fate, failFate: Fate)
    requires |PassedOn(before)| <= i < |plan.steps| && run.state == Running && Passes(run.evidence) == plan.steps[..i]
    requires ran == plan.steps[|PassedOn(before)|..i + 1] && !(stepFate == Fine && fate == Fine)
    requires file == Some(StepLeaves(run, plan.steps[i], stepFate, fate, failFate))
    requires outcome == (if StepRaises(stepFate, fate) then AfterRaise(failFate) else Died) && run.planHash == plan.hash
    ensures Stops(plan, before, i, file, outcome, ran, (stepFate, fate), failFate)
  {
    LeavesRecorded(run, plan.steps[i], stepFate, fate, failFate);
    LeavesState(run, plan.steps[i], stepFate, fate, failFate);
    assert plan.steps[..i + 1] == plan.steps[..i] + [plan.steps[i]];
  }

  /** The install of this plan stops at step `r`. */
  predicate Stops(plan: Plan, before: Option<RunFile>, r: nat, after: Option<RunFile>, outcome: Outcome, ran: seq<Step>,
                  ends: (Fate, Fate), failFate: Fate) {
    && |PassedOn(before)| <= r < |plan.steps| && after.Some? && after.value.planHash == plan.hash
    && StopsAt(plan, |PassedOn(before)|, r, after, outcome, ran, ends.0, ends.1, failFate)
  }

  /** Wherever an install stops, it leaves the file in order. */
  lemma StopsInOrder(plan: Plan, before: Option<RunFile>, r: nat, after: Option<RunFile>, outcome: Outcome, ran: seq<Step>,
                     ends: (Fate, Fate), failFate: Fate)
    requires Ours(plan, before) && Stops(plan, before, r, after, outcome, ran, ends, failFate)
    ensures Executes(plan, before, after, ran)
  {
    RunsNext(plan, before, r, after.value, ran);
  }

  /** The loop of `execute` before step `i`. */
  ghost predicate Progress(plan: Plan, before: Option<RunFile>, i: nat, run: RunFile, ran: seq<Step>, completed: set<Step>) {
    && Ours(plan, before) && i <= |plan.steps|
    && Marked(plan, PassedOn(before), i, completed)
    && Recorded(plan, |PassedOn(before)|, i, run, ran)
  }

  ghost predicate Marked(plan: Plan, passed: seq<Step>, i: nat, completed: set<Step>)
    requires i <= |plan.steps|
  {
    forall s :: s in completed <==> s in passed || s in plan.steps[..i]
  }

  predicate Recorded(plan: Plan, passed: nat, i: nat, run: RunFile, ran: seq<Step>)
    requires passed <= |plan.steps| && i <= |plan.steps|
  {
    && run.planHash == plan.hash && run.state == Running
    && Passes(run.evidence) == plan.steps[..Max(passed, i)]
    && ran == plan.steps[passed..Max(passed, i)]
  }

  /** The file is new or this plan's own. */
  predicate Ours(plan: Plan, file: Option<RunFile>) {
    && (file.Some? ==> file.value.planHash == plan.hash)
    && PassedOn(file) <= plan.steps
  }

  lemma FirstPersist(plan: Plan, before: Option<RunFile>, run: RunFile)
    requires Ordered(plan, before) && (before.Some? ==> before.value.planHash == plan.hash)
    requires run.planHash == plan.hash && run.state == Running
    requires run.evidence == (if before.Some? then before.value.evidence else [])
    ensures Executes(plan, before, Some(run), [])
    ensures Progress(plan, before, 0, run, [], set s | s in PassedOn(before))
  {
    assert plan.steps[..0] == [];
  }

  lemma MarkedNext(plan: Plan, passed: seq<Step>, i: nat, completed: set<Step>)
    requires Distinct(plan) && passed <= plan.steps && i < |plan.steps| && Marked(plan, passed, i, completed)
    ensures plan.steps[i] in completed <==> i < |passed|
    ensures Marked(plan, passed, i + 1, completed + {plan.steps[i]})
  {
    PrefixMembers(plan, passed, i);
    PrefixMembers(plan, plan.steps[..i], i);
    assert plan.steps[..i + 1] == plan.steps[..i] + [plan.steps[i]];
  }

  /** A recorded step is skipped. */
  lemma SkippedStep(plan: Plan, before: Option<RunFile>, i: nat, run: RunFile, ran: seq<Step>, completed: set<Step>)
    requires Distinct(plan) && Progress(plan, before, i, run, ran, completed) && i < |plan.steps|
    requires plan.steps[i] in completed
    ensures Progress(plan, before, i + 1, run, ran, completed)
  {
    MarkedNext(plan, PassedOn(before), i, completed);
    assert completed + {plan.steps[i]} == completed;
  }

  /** A turn that goes on makes progress. */
  lemma NextStep(plan: Plan, before: Option<RunFile>, i: nat, run: RunFile, ran: seq<Step>, completed: set<Step>)
    requires Distinct(plan) && Progress(plan, before, i, run, ran, completed) && i < |plan.steps|
    requires plan.steps[i] !in completed
    ensures var step := plan.steps[i];
            Progress(plan, before, i + 1, Passed(run, step), ran + [step], completed + {step})
    ensures |PassedOn(before)| <= i && Passes(run.evidence) == plan.steps[..i]
    ensures ran + [plan.steps[i]] == plan.steps[|PassedOn(before)|..i + 1]
  {
    MarkedNext(plan, PassedOn(before), i, completed);
    RecordedNext(plan, |PassedOn(before)|, i, run, ran);
  }

  lemma RecordedNext(plan: Plan, passed: nat, i: nat, run: RunFile, ran: seq<Step>)
    requires passed <= i < |plan.steps| && Recorded(plan, passed, i, run, ran)
    ensures Recorded(plan, passed, i + 1, Passed(run, plan.steps[i]), ran + [plan.steps[i]])
    ensures Passes(run.evidence) == plan.steps[..i] && ran + [plan.steps[i]] == plan.steps[passed..i + 1]
  {
    assert plan.steps[..i + 1] == plan.steps[..i] + [plan.steps[i]];
    assert plan.steps[passed..i + 1] == plan.steps[passed..i] + [plan.steps[i]];
    PassAppend(run.evidence, Pass(plan.steps[i]));
  }

  lemma RunsNext(plan: Plan, before: Option<RunFile>, i: nat, run: RunFile, ran: seq<Step>)
    requires Ours(plan, before) && |PassedOn(before)| <= i < |plan.steps|
    requires run.planHash == plan.hash && run.state != Succeeded && ran == plan.steps[|PassedOn(before)|..i + 1]
    requires Passes(run.evidence) == plan.steps[..i] || Passes(run.evidence) == plan.steps[..i + 1]
    ensures Executes(plan, before, Some(run), ran)
  {
    var passed := PassedOn(before);
    assert passed == plan.steps[..|passed|];
    assert passed <= plan.steps[..i] && passed <= plan.steps[..i + 1];
    assert ran == plan.steps[|passed|..][..i + 1 - |passed|];
  }

  /** Behind the loop all steps are recorded. */
  lemma AllSteps(plan: Plan, before: Option<RunFile>, run: RunFile, ran: seq<Step>, completed: set<Step>)
    requires Progress(plan, before, |plan.steps|, run, ran, completed)
    ensures Executes(plan, before, Some(run), ran)
    ensures Executes(plan, before, Some(run.(state := Succeeded)), ran) && Passes(run.evidence) == plan.steps
    ensures Executes(plan, before, Some(Failure(run.(state := Succeeded))), ran)
  {
    var passed := PassedOn(before);
    assert passed == plan.steps[..|passed|];
    assert Max(|passed|, |plan.steps|) == |plan.steps|;
    assert plan.steps[..|plan.steps|] == plan.steps;
    assert ran == plan.steps[|passed|..];
    PassAppend(run.evidence, Fail);
  }

  lemma AllStepsRan(plan: Plan, before: Option<RunFile>, run: RunFile, ran: seq<Step>, completed: set<Step>)
    requires Progress(plan, before, |plan.steps|, run, ran, completed)
    ensures ran == plan.steps[|PassedOn(before)|..] && run.state == Running && Passes(run.evidence) == plan.steps
    ensures Passes(Failure(run.(state := Succeeded)).evidence) == plan.steps
  {
    assert Max(|PassedOn(before)|, |plan.steps|) == |plan.steps|;
    assert plan.steps[..|plan.steps|] == plan.steps;
    PassAppend(run.evidence, Fail);
  }

  function Max(a: nat, b: nat): nat { if a < b then b else a }

  /** The run as the exception handler persists it. */
  function Failure(run: RunFile): RunFile { run.(state := RunState.Failed, evidence := run.evidence + [Fail]) }

  lemma NothingDone(plan: Plan, file: Option<RunFile>)
    requires Ordered(plan, file)
    ensures Executes(plan, file, file, [])
  {
  }

  // ---------- why the object must be new ----------

  /** After a step whose PASS could not be persisted, the same object still counts the step as done:
      it would skip it, and the next record leaves a gap in the plan. */
  method ReusedObjectSkips() returns (p: NativeProvisioner)
    ensures fresh(p) && p.plan.steps == [1, 2] && 1 in p.completed
    ensures PassedOn(p.file) == [2] && !Ordered(p.plan, p.file)
  {
    var run := RunFile(0, Running, None, []);
    p := new NativeProvisioner(Plan(0, [1, 2]), Some(run));
    var r, outcome := p.RunStep(run, 1, Fine, Raises, Raises);
    r, outcome := p.RunStep(run, 2, Fine, Fine, Fine);
    PassAppend(run.evidence, Pass(2));
    assert PassedOn(p.file) == [2];
    assert [1, 2][..1][0] == 1;
  }

  // ---------- over runs ----------

  /** A sequence of installs of one plan, each by a new process: what the file holds before and
      after each, and the steps it ran. */
  predicate Installs(plan: Plan, files: seq<Option<RunFile>>, ran: seq<seq<Step>>) {
    && |files| == |ran| + 1 && Ordered(plan, files[0])
    && forall k {:trigger ran[k]} | 0 <= k < |ran| ::
         Executes(plan, files[k], files[k + 1], ran[k])
  }

  lemma ExecuteGrows(plan: Plan, before: Option<RunFile>, after: Option<RunFile>, ran: seq<Step>)
    requires Executes(plan, before, after, ran)
    ensures Ordered(plan, after) && PassedOn(before) <= PassedOn(after)
    ensures before.Some? ==> after.Some? && after.value.planHash == before.value.planHash
  {
  }

  lemma PrefixTransitive(a: seq<Step>, b: seq<Step>, c: seq<Step>)
    requires a <= b && b <= c
    ensures a <= c
  {
  }

  /** The records only grow, in order. */
  lemma {:induction false} RecordsGrow(plan: Plan, files: seq<Option<RunFile>>, ran: seq<seq<Step>>, i: nat, j: nat)
    requires Installs(plan, files, ran) && i <= j < |files|
    ensures PassedOn(files[i]) <= PassedOn(files[j]) && Ordered(plan, files[j])
    ensures files[i].Some? ==> files[j].Some? && files[j].value.planHash == files[i].value.planHash
  {
    if i < j {
      RecordsGrow(plan, files, ran, i, j - 1);
      assert Executes(plan, files[j - 1], files[j - 1 + 1], ran[j - 1]);
      ExecuteGrows(plan, files[j - 1], files[j], ran[j - 1]);
      PrefixTransitive(PassedOn(files[i]), PassedOn(files[j - 1]), PassedOn(files[j]));
    } else if i > 0 {
      assert Executes(plan, files[i - 1], files[i - 1 + 1], ran[i - 1]);
      ExecuteGrows(plan, files[i - 1], files[i], ran[i - 1]);
    }
  }

  /** Over any sequence of installs with failures and crashes: the records stay a duplicate-free
      prefix of the plan that only grows, a recorded step is never run again, and success on disk
      means that every step passed. */
  lemma NeverRunAgain(plan: Plan, files: seq<Option<RunFile>>, ran: seq<seq<Step>>, i: nat, j: nat, s: Step)
    requires Distinct(plan) && Installs(plan, files, ran) && i <= j < |ran|
    requires files[i].Some? && files[i].value.planHash == plan.hash && s in PassedOn(files[i])
    ensures s !in ran[j] && s in PassedOn(files[j + 1]) && PassedOn(files[j + 1]) <= plan.steps
    ensures files[j + 1].value.state == Succeeded ==> PassedOn(files[j + 1]) == plan.steps
  {
    RecordsGrow(plan, files, ran, i, j);
    RecordsGrow(plan, files, ran, i, j + 1);
    var passed := PassedOn(files[j]);
    assert Executes(plan, files[j], files[j + 1], ran[j]);
    var k :| 0 <= k < |PassedOn(files[i])| && PassedOn(files[i])[k] == s;
    assert passed[k] == s && plan.steps[k] == s && PassedOn(files[j + 1])[k] == s;
    forall m | 0 <= m < |ran[j]| ensures ran[j][m] != s {
      assert ran[j][m] == plan.steps[|passed|..][m] == plan.steps[|passed| + m];
    }
  }
}
