/** What the supervisor guarantees over whole runs, for every interleaving. */
module SupervisorRuns {
  import opened Model
  import opened Supervisor
  import opened SupervisorSteps
  import opened SupervisorProof

  // ----- runs

  ghost predicate Run(systems: seq<System>, steps: seq<Step>, max: nat) {
    && |systems| == |steps| + 1 && systems[0] == NewSystem(max)
    && forall i :: 0 <= i < |steps| ==> Enabled(systems[i], steps[i]) && systems[i + 1] == Next(systems[i], steps[i])
  }

  lemma EffectsKeepMax(sys: System, id: TaskId, p: TaskPhase, at: DrainPc)
    ensures TaskEffect(sys, id, p).max == sys.max && DrainEffect(sys, at).max == sys.max
  {
  }

  lemma CallerKeepsMax(sys: System, c: Caller, pc: Pc, elapsed: bool)
    ensures CallerNext(sys, c, pc, elapsed).max == sys.max
  {
    hide DrainTarget, DrainEffect, Admission, WithRecord, WithHandle;
    if pc.Drain? { EffectsKeepMax(sys, 0, Running, pc.at); }
  }

  lemma NextKeepsMax(sys: System, s: Step)
    requires Enabled(sys, s)
    ensures Next(sys, s).max == sys.max
  {
    hide TaskTarget, TaskEffect, CallerNext, NeedsLock, Tracked, Starts;
    match s {
      case Begin(_, _) =>
      case Advance(c, elapsed) => CallerKeepsMax(sys, c, sys.callers[c], elapsed);
      case TaskStep(id, _) => EffectsKeepMax(sys, id, sys.phases[id], CheckRuntime);
    }
  }

  lemma {:induction false} RunKeepsInv(systems: seq<System>, steps: seq<Step>, max: nat, i: nat)
    requires Run(systems, steps, max) && i < |systems|
    ensures Inv(systems[i]) && systems[i].max == max
  {
    hide Inv, Next, Enabled;
    if i == 0 {
      NewInv(max);
    } else {
      RunKeepsInv(systems, steps, max, i - 1);
      NextKeepsMax(systems[i - 1], steps[i - 1]);
      NextKeepsInv(systems[i - 1], steps[i - 1]);
    }
  }

  /** Whenever the lock is free the shared state is in order: at most `max` tasks, all below
      `nextId`, each with its own abort handle, and a recorded failure has closed admission. */
  lemma FreeLockShowsOrder(systems: seq<System>, steps: seq<Step>, max: nat, i: nat)
    requires Run(systems, steps, max) && i < |systems| && systems[i].lock.None?
    ensures SharedOk(systems[i].shared, max)
  {
    var sys := systems[i];
    RunKeepsInv(systems, steps, max, i);
    forall id | id in sys.shared.tasks
      ensures 1 <= id < sys.shared.nextId && sys.shared.tasks[id].abort == Some(id)
    {
      assert RecordFits(sys, id);
    }
  }

  /** The records are the registrations of the live tasks, plus the one a `spawn` holding the
      lock is about to hand to the tracker: a panicking task always finds its record, so the
      fallback name is never used, and the failure carries the name given at `spawn`. */
  lemma RecordsAreLiveTasks(systems: seq<System>, steps: seq<Step>, max: nat, i: nat)
    requires Run(systems, steps, max) && i < |systems|
    ensures var sys := systems[i];
            && (forall id :: Live(sys, id) ==>
                id in sys.shared.tasks && id in sys.names && sys.shared.tasks[id].name == sys.names[id])
            && (forall id :: id in sys.shared.tasks ==> Live(sys, id) || (sys.lock.Some? && Untracked(sys, id)))
            && (sys.shared.terminalFailure.Some? ==>
                  var f := sys.shared.terminalFailure.value; f.id in sys.names && f.name == sys.names[f.id])
  {
    var sys := systems[i];
    RunKeepsInv(systems, steps, max, i);
    forall id | id in sys.shared.tasks
      ensures RecordFits(sys, id)
    {
    }
    hide Live, Untracked;
  }

  /** What no operation undoes. */
  ghost predicate Monotone(a: System, b: System) {
    && a.shared.nextId <= b.shared.nextId
    && (!a.shared.accepting ==> !b.shared.accepting && b.shared.nextId == a.shared.nextId)
    && (a.shared.terminalFailure.Some? ==> b.shared.terminalFailure == a.shared.terminalFailure)
    && (a.shared.drainReported ==> b.shared.drainReported)
    && (a.closed ==> b.closed) && (a.cancelled ==> b.cancelled)
    && forall c :: c in a.callers && Finished(a.callers[c]) ==> c in b.callers && b.callers[c] == a.callers[c]
  }

  lemma GotoIsMonotone(sys: System, n: System, c: Caller)
    requires c in sys.callers && !Finished(sys.callers[c]) && c in n.callers
    requires n.callers == sys.callers[c := n.callers[c]]
    requires n.shared.(drainReported := true) == sys.shared.(drainReported := true)
    requires (sys.shared.drainReported ==> n.shared.drainReported)
    requires n.closed == sys.closed && n.cancelled == sys.cancelled
    ensures Monotone(sys, n)
  {
  }

  lemma DrainIsMonotone(sys: System, c: Caller, elapsed: bool)
    requires Enabled(sys, Advance(c, elapsed)) && sys.callers[c].Drain?
    ensures Monotone(sys, CallerNext(sys, c, sys.callers[c], elapsed))
  {
    var n := CallerNext(sys, c, sys.callers[c], elapsed);
    hide Tracked, Handles, NeedsLock, Monotone, DrainTarget;
    GotoIsMonotone(sys, n, c);
  }

  lemma SpawnIsMonotone(sys: System, c: Caller, elapsed: bool)
    requires Enabled(sys, Advance(c, elapsed)) && CallerFits(sys, c)
    requires sys.callers[c].SpawnEnter? || sys.callers[c].SpawnTrack? || sys.callers[c].SpawnHandle?
    ensures Monotone(sys, CallerNext(sys, c, sys.callers[c], elapsed))
  {
    hide Tracked, Handles, DrainTarget, DrainEffect, NeedsLock;
  }

  lemma QuiesceIsMonotone(sys: System, c: Caller, elapsed: bool)
    requires Enabled(sys, Advance(c, elapsed))
    requires (sys.callers[c].QuiesceEnter? || sys.callers[c].QuiesceClose? || sys.callers[c].QuiesceCancel?)
    ensures Monotone(sys, CallerNext(sys, c, sys.callers[c], elapsed))
  {
    hide Tracked, Handles, DrainTarget, DrainEffect, NeedsLock, Admission;
  }

  lemma CallerIsMonotone(sys: System, c: Caller, elapsed: bool)
    requires Enabled(sys, Advance(c, elapsed)) && !sys.callers[c].Drain? && CallerFits(sys, c)
    ensures Monotone(sys, CallerNext(sys, c, sys.callers[c], elapsed))
  {
    hide CallerFits, CallerNext, Monotone, NeedsLock, Tracked;
    if sys.callers[c].QuiesceEnter? || sys.callers[c].QuiesceClose? || sys.callers[c].QuiesceCancel? {
      QuiesceIsMonotone(sys, c, elapsed);
    } else {
      SpawnIsMonotone(sys, c, elapsed);
    }
  }

  lemma TaskIsMonotone(sys: System, id: TaskId, panics: bool)
    requires Enabled(sys, TaskStep(id, panics))
    ensures Monotone(sys, TaskNext(sys, id, panics))
  {
    hide TaskTarget, Finished;
    EffectKeepsCallers(sys, id, sys.phases[id]);
    EffectIsMonotone(sys, id, sys.phases[id]);
    hide TaskEffect;
  }

  lemma EffectIsMonotone(sys: System, id: TaskId, p: TaskPhase)
    ensures var m := TaskEffect(sys, id, p);
            && m.shared.nextId == sys.shared.nextId && (!sys.shared.accepting ==> !m.shared.accepting)
            && (sys.shared.terminalFailure.Some? ==> m.shared.terminalFailure == sys.shared.terminalFailure)
            && (sys.closed ==> m.closed) && (sys.cancelled ==> m.cancelled)
  {
  }

  lemma NextIsMonotone(sys: System, s: Step)
    requires Inv(sys) && Enabled(sys, s)
    ensures Monotone(sys, Next(sys, s))
  {
    if s.Advance? { assert CallerFits(sys, s.c); }
    hide Inv, CallerFits, CallerNext, TaskNext;
    match s {
      case Begin(_, _) =>
      case TaskStep(id, panics) => TaskIsMonotone(sys, id, panics);
      case Advance(c, elapsed) =>
        if sys.callers[c].Drain? { DrainIsMonotone(sys, c, elapsed); } else { CallerIsMonotone(sys, c, elapsed); }
    }
  }

  lemma {:induction false} RunIsMonotone(systems: seq<System>, steps: seq<Step>, max: nat, i: nat, j: nat)
    requires Run(systems, steps, max) && i <= j < |systems|
    ensures Monotone(systems[i], systems[j])
    decreases j - i
  {
    if i < j {
      RunIsMonotone(systems, steps, max, i, j - 1);
      RunKeepsInv(systems, steps, max, j - 1);
      NextIsMonotone(systems[j - 1], steps[j - 1]);
      hide Inv, Next, Enabled;
    }
  }

  /** Once closed, admission stays closed and no task is ever admitted again; the first
      terminal failure is never overwritten. */
  lemma ClosedAdmissionIsSticky(systems: seq<System>, steps: seq<Step>, max: nat, i: nat, j: nat)
    requires Run(systems, steps, max) && i <= j < |systems|
    ensures !systems[i].shared.accepting ==>
        !systems[j].shared.accepting && systems[j].shared.nextId == systems[i].shared.nextId
    ensures systems[i].shared.terminalFailure.Some? ==>
              !systems[j].shared.accepting && systems[j].shared.terminalFailure == systems[i].shared.terminalFailure
  {
    RunIsMonotone(systems, steps, max, i, j);
    RunKeepsInv(systems, steps, max, i);
    hide CallerFits, RecordsOk, TasksOk, OneClaim, Run;
  }

  /** A step that admits a task, and the identity it gets. */
  predicate Admits(sys: System, s: Step) {
    && s.Advance? && s.c in sys.callers && sys.callers[s.c].SpawnEnter?
    && Admission(sys.shared, sys.max, sys.callers[s.c].runtime).None?
  }

  /** No identity is given out twice. */
  lemma IdentitiesAreUnique(systems: seq<System>, steps: seq<Step>, max: nat, i: nat, j: nat)
    requires Run(systems, steps, max) && i < j < |steps| && Admits(systems[i], steps[i]) && Admits(systems[j], steps[j])
    ensures systems[i].shared.nextId < systems[j].shared.nextId
    ensures systems[i + 1].callers[steps[i].c] == SpawnTrack(systems[i].shared.nextId)
    ensures systems[j + 1].callers[steps[j].c] == SpawnTrack(systems[j].shared.nextId)
  {
    RunIsMonotone(systems, steps, max, i + 1, j);
  }

  /** Over any sequence of stop and dispose calls at most one drain returns an error, and if
      it is a task failure it is the first one. */
  lemma AtMostOneDrainError(systems: seq<System>, steps: seq<Step>, max: nat, i: nat, c: Caller, d: Caller)
    requires Run(systems, steps, max) && i < |systems|
    requires c in systems[i].callers && systems[i].callers[c].Drain? && systems[i].callers[c].at.Drained?
    requires d in systems[i].callers && systems[i].callers[d].Drain? && systems[i].callers[d].at.Drained?
    requires systems[i].callers[c].at.error.Some? && systems[i].callers[d].at.error.Some?
    ensures c == d
    ensures systems[i].callers[c].at.error.value.FailedTask? ==>
              systems[i].shared.terminalFailure == Some(systems[i].callers[c].at.error.value.failure)
  {
    RunKeepsInv(systems, steps, max, i);
    assert CallerFits(systems[i], c) && CallerFits(systems[i], d);
    hide DrainFits;
  }

  /** A drain that began after a `quiesce`. */
  predicate SealedDrain(sys: System, c: Caller) {
    c in sys.callers && sys.callers[c].Drain? && sys.callers[c].sealed
  }

  /** If such a drain claimed the report and returned no error, no task has failed or will
      ever fail: no failure is lost. And nothing runs any more. */
  lemma NoFailureIsLost(systems: seq<System>, steps: seq<Step>, max: nat, i: nat, j: nat, c: Caller)
    requires Run(systems, steps, max) && i <= j < |systems|
    requires SealedDrain(systems[i], c) && systems[i].callers[c].at == Drained(true, None)
    ensures systems[j].shared.terminalFailure.None?
    ensures Tracked(systems[j]) == {} && systems[j].shared.tasks == map[]
  {
    RunKeepsInv(systems, steps, max, j);
    RunIsMonotone(systems, steps, max, i, j);
    var sys := systems[j];
    assert CallerFits(sys, c);
    EmptyTrackerMeansIdle(sys);
    hide Inv, Run, CallerFits;
  }

  lemma EmptyTrackerMeansIdle(sys: System)
    requires Inv(sys) && sys.closed && Tracked(sys) == {}
    ensures sys.shared.tasks == map[]
  {
    assert forall id :: id in sys.shared.tasks ==> RecordFits(sys, id);
    forall id
      ensures !Live(sys, id) && !Untracked(sys, id)
    {
      assert id !in Tracked(sys);
      if sys.lock.Some? { assert CallerFits(sys, sys.lock.value); }
    }
    assert sys.shared.tasks.Keys == {};
  }

  /** Such a drain never waits on a timer without a runtime, and when it waits for aborted
      tasks it has aborted every one that still has a record. */
  lemma SealedDrainIsSafe(systems: seq<System>, steps: seq<Step>, max: nat, i: nat, c: Caller)
    requires Run(systems, steps, max) && i < |systems| && SealedDrain(systems[i], c)
    ensures !systems[i].callers[c].at.NoTimer?
    ensures systems[i].callers[c].at.WaitingAgain? ==> systems[i].shared.tasks.Keys <= systems[i].aborted
  {
    RunKeepsInv(systems, steps, max, i);
    assert CallerFits(systems[i], c);
    hide RecordsOk, TasksOk, AdmissionOk, OneClaim, LockOk;
  }
}
