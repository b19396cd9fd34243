/** When a drain that returned no error can still miss a failure. */
module LostFailures {
  import opened Model
  import opened Supervisor
  import opened SupervisorSteps
  import opened SupervisorProof
  import opened SupervisorRuns

  // ----- continuations

  ghost predicate Path(systems: seq<System>, steps: seq<Step>) {
    && |systems| == |steps| + 1
    && forall i :: 0 <= i < |steps| ==> Enabled(systems[i], steps[i]) && systems[i + 1] == Next(systems[i], steps[i])
  }

  /** Some continuation of `sys`, in any interleaving, ends in a state with the property. */
  ghost predicate CanReach(sys: System, goal: System -> bool) {
    exists systems, steps :: Path(systems, steps) && systems[0] == sys && goal(systems[|systems| - 1])
  }

  lemma Already(sys: System, goal: System -> bool)
    requires goal(sys)
    ensures CanReach(sys, goal)
  {
    assert Path([sys], []) && [sys][0] == sys;
  }

  lemma Prepend(sys: System, s: Step, goal: System -> bool)
    requires Enabled(sys, s) && CanReach(Next(sys, s), goal)
    ensures CanReach(sys, goal)
  {
    hide Enabled, Next;
    var systems, steps :| Path(systems, steps) && systems[0] == Next(sys, s) && goal(systems[|systems| - 1]);
    var longer := [sys] + systems;
    assert Path(longer, [s] + steps) && longer[0] == sys && longer[|longer| - 1] == systems[|systems| - 1];
  }

  function Failed(): System -> bool {
    (n: System) => n.shared.terminalFailure.Some?
  }

  // ----- the condition

  predicate MayPanic(sys: System, id: TaskId) {
    id in sys.phases && (sys.phases[id].Running? || sys.phases[id].Panicked?)
  }

  /** A `spawn` holds the lock and is about to hand its task to the tracker. */
  predicate MidSpawn(sys: System) {
    sys.lock.Some? && sys.lock.value in sys.callers && sys.callers[sys.lock.value].SpawnTrack?
  }

  /** Admission is open and neither capacity nor identities are used up for good. */
  predicate AdmissionOpen(sys: System) {
    sys.shared.accepting && sys.max > 0 && sys.shared.nextId < MAX_U64
  }

  /** A failure is recorded, a task may still panic, or one may still be admitted. */
  ghost predicate MayFail(sys: System) {
    sys.shared.terminalFailure.Some? || (exists id :: MayPanic(sys, id)) || MidSpawn(sys) || AdmissionOpen(sys)
  }

  // ----- a failure that may come does come in some continuation

  lemma PanickedFails(sys: System, id: TaskId)
    requires sys.lock.None? && id in sys.phases && sys.phases[id].Panicked?
    ensures CanReach(sys, Failed())
  {
    assert Enabled(sys, TaskStep(id, false)) && Failed()(Next(sys, TaskStep(id, false)));
    hide Enabled, Next, CanReach;
    Already(Next(sys, TaskStep(id, false)), Failed());
    Prepend(sys, TaskStep(id, false), Failed());
  }

  lemma FreeTaskFails(sys: System, id: TaskId)
    requires sys.lock.None? && MayPanic(sys, id)
    ensures CanReach(sys, Failed())
  {
    if sys.phases[id].Panicked? {
      PanickedFails(sys, id);
    } else {
      var n := Next(sys, TaskStep(id, true));
      assert Enabled(sys, TaskStep(id, true)) && n.lock.None? && n.phases[id].Panicked?;
      hide Enabled, Next, CanReach;
      PanickedFails(n, id);
      Prepend(sys, TaskStep(id, true), Failed());
    }
  }

  /** The holder of the lock is one operation from releasing it. */
  predicate NearRelease(sys: System) {
    && sys.lock.Some? && sys.lock.value in sys.callers
    && (sys.callers[sys.lock.value].SpawnHandle? || sys.callers[sys.lock.value].QuiesceCancel?)
  }

  lemma Release(sys: System)
    requires NearRelease(sys)
    ensures var s := Advance(sys.lock.value, false);
            Enabled(sys, s) && var n := Next(sys, s);
            n.lock.None? && n.phases == sys.phases && n.max == sys.max && n.shared.accepting == sys.shared.accepting
            && n.shared.nextId == sys.shared.nextId && n.shared.tasks.Keys == sys.shared.tasks.Keys
            && n.shared.terminalFailure == sys.shared.terminalFailure
            && n.shared.drainReported == sys.shared.drainReported
  {
    hide DrainTarget, DrainEffect;
  }

  lemma NearTaskFails(sys: System, id: TaskId)
    requires NearRelease(sys) && MayPanic(sys, id)
    ensures CanReach(sys, Failed())
  {
    Release(sys);
    hide Enabled, Next, CanReach;
    var s := Advance(sys.lock.value, false);
    FreeTaskFails(Next(sys, s), id);
    Prepend(sys, s, Failed());
  }

  /** `spawn` hands its task to the tracker. */
  lemma TrackStep(sys: System)
    requires MidSpawn(sys)
    ensures var c := sys.lock.value; var id := sys.callers[c].id;
            Enabled(sys, Advance(c, false)) && var n := Next(sys, Advance(c, false));
            NearRelease(n) && n.lock == sys.lock && MayPanic(n, id) && n.shared == sys.shared && n.max == sys.max
            && n.callers == sys.callers[c := SpawnHandle(id)] && n.phases == sys.phases[id := Running]
  {
    hide DrainTarget, DrainEffect;
  }

  lemma MidSpawnFails(sys: System)
    requires MidSpawn(sys)
    ensures CanReach(sys, Failed())
  {
    TrackStep(sys);
    hide Enabled, Next, CanReach, NearRelease, MayPanic;
    var s := Advance(sys.lock.value, false);
    NearTaskFails(Next(sys, s), sys.callers[sys.lock.value].id);
    Prepend(sys, s, Failed());
  }

  lemma LockedTaskFails(sys: System, id: TaskId)
    requires Inv(sys) && sys.lock.Some? && MayPanic(sys, id)
    ensures CanReach(sys, Failed())
  {
    assert LockOk(sys);
    var c := sys.lock.value;
    hide Inv, CanReach;
    if MidSpawn(sys) {
      MidSpawnFails(sys);
    } else if NearRelease(sys) {
      NearTaskFails(sys, id);
    } else {
      var s := Advance(c, false);
      CloseStep(sys);
      hide Enabled, Next;
      NearTaskFails(Next(sys, s), id);
      Prepend(sys, s, Failed());
    }
  }

  lemma CloseStep(sys: System)
    requires sys.lock.Some? && sys.lock.value in sys.callers && sys.callers[sys.lock.value].QuiesceClose?
    ensures var s := Advance(sys.lock.value, false);
            Enabled(sys, s) && NearRelease(Next(sys, s)) && Next(sys, s).phases == sys.phases
  {
    hide DrainTarget, DrainEffect;
  }

  lemma FreshCaller(callers: map<Caller, Pc>) returns (c: Caller)
    ensures c !in callers
  {
    c := AboveAll(callers.Keys);
  }

  lemma {:induction false} AboveAll(s: set<Caller>) returns (c: Caller)
    ensures forall d :: d in s ==> d < c
    decreases |s|
  {
    if s == {} {
      c := 0;
    } else {
      var d :| d in s;
      var least := AboveAll(s - {d});
      c := if least <= d then d + 1 else least;
      forall x | x in s ensures x < c { if x != d { assert x in s - {d}; } }
    }
  }

  /** With the lock free and room for a task, a new `spawn` admits one. */
  lemma SpawnSteps(sys: System, c: Caller)
    requires sys.lock.None? && AdmissionOpen(sys) && |sys.shared.tasks| < sys.max && c !in sys.callers
    ensures Enabled(sys, Begin(c, SpawnEnter("job", true)))
    ensures var a := Next(sys, Begin(c, SpawnEnter("job", true)));
            Enabled(a, Advance(c, false)) && MidSpawn(Next(a, Advance(c, false)))
  {
    hide DrainTarget, DrainEffect;
  }

  lemma RoomFails(sys: System)
    requires sys.lock.None? && AdmissionOpen(sys) && |sys.shared.tasks| < sys.max
    ensures CanReach(sys, Failed())
  {
    var c := FreshCaller(sys.callers);
    SpawnSteps(sys, c);
    hide Enabled, Next, CanReach, MidSpawn, AdmissionOpen;
    var s := Begin(c, SpawnEnter("job", true));
    MidSpawnFails(Next(Next(sys, s), Advance(c, false)));
    Prepend(Next(sys, s), Advance(c, false), Failed());
    Prepend(sys, s, Failed());
  }

  /** The registration of a task that cannot panic any more is dropped, which makes room. */
  lemma DropStep(sys: System, id: TaskId)
    requires sys.lock.None? && AdmissionOpen(sys) && |sys.shared.tasks| <= sys.max && id in sys.phases
    requires sys.phases[id].Ending? && id in sys.shared.tasks
    ensures Enabled(sys, TaskStep(id, false))
    ensures var n := Next(sys, TaskStep(id, false)); n.lock.None? && AdmissionOpen(n) && |n.shared.tasks| < n.max
  {
    MapSize(sys.shared.tasks, id, sys.shared.tasks[id]);
  }

  lemma EndingFails(sys: System, id: TaskId)
    requires sys.lock.None? && AdmissionOpen(sys) && |sys.shared.tasks| <= sys.max && id in sys.phases
    requires sys.phases[id].Ending? && id in sys.shared.tasks
    ensures CanReach(sys, Failed())
  {
    DropStep(sys, id);
    hide Enabled, Next, CanReach, AdmissionOpen;
    RoomFails(Next(sys, TaskStep(id, false)));
    Prepend(sys, TaskStep(id, false), Failed());
  }

  lemma CancellingFails(sys: System, id: TaskId)
    requires sys.lock.None? && AdmissionOpen(sys) && |sys.shared.tasks| <= sys.max && id in sys.phases
    requires sys.phases[id].Cancelling? && id in sys.shared.tasks
    ensures CanReach(sys, Failed())
  {
    var n := Next(sys, TaskStep(id, false));
    assert Enabled(sys, TaskStep(id, false)) && n.lock.None? && AdmissionOpen(n) && n.shared == sys.shared
        && n.max == sys.max && n.phases[id].Ending?;
    hide Enabled, Next, CanReach, AdmissionOpen;
    EndingFails(n, id);
    Prepend(sys, TaskStep(id, false), Failed());
  }

  lemma FullFails(sys: System)
    requires Inv(sys) && sys.lock.None? && AdmissionOpen(sys) && |sys.shared.tasks| == sys.max
    ensures CanReach(sys, Failed())
  {
    hide CanReach;
    if sys.shared.terminalFailure.Some? {
      Already(sys, Failed());
    } else {
      var id :| id in sys.shared.tasks;
      assert RecordFits(sys, id);
      match sys.phases[id] {
        case Cancelling => CancellingFails(sys, id);
        case Ending => EndingFails(sys, id);
        case _ => FreeTaskFails(sys, id);
      }
    }
  }

  lemma OpenFails(sys: System)
    requires Inv(sys) && sys.lock.None? && AdmissionOpen(sys)
    ensures CanReach(sys, Failed())
  {
    if |sys.shared.tasks| < sys.max { RoomFails(sys); } else { FullFails(sys); }
  }

  lemma LockedOpenFails(sys: System)
    requires Inv(sys) && sys.lock.Some? && AdmissionOpen(sys)
    ensures CanReach(sys, Failed())
  {
    assert LockOk(sys) && CallerFits(sys, sys.lock.value);
    hide CanReach;
    if MidSpawn(sys) {
      MidSpawnFails(sys);
    } else {
      var s := Advance(sys.lock.value, false);
      Release(sys);
      NextKeepsInv(sys, s);
      hide Enabled, Next, Inv;
      OpenFails(Next(sys, s));
      Prepend(sys, s, Failed());
    }
  }

  lemma MayFailFails(sys: System)
    requires Inv(sys) && MayFail(sys)
    ensures CanReach(sys, Failed())
  {
    hide Inv, CanReach;
    if sys.shared.terminalFailure.Some? {
      Already(sys, Failed());
    } else if id :| MayPanic(sys, id) {
      if sys.lock.None? { FreeTaskFails(sys, id); } else { LockedTaskFails(sys, id); }
    } else if MidSpawn(sys) {
      MidSpawnFails(sys);
    } else {
      if sys.lock.None? { OpenFails(sys); } else { LockedOpenFails(sys); }
    }
  }

  // ----- and otherwise none ever does

  lemma QuietTask(sys: System, id: TaskId, panics: bool)
    requires Enabled(sys, TaskStep(id, panics)) && !MayFail(sys)
    ensures !MayFail(TaskNext(sys, id, panics))
  {
    assert !MayPanic(sys, id);
    var n := TaskNext(sys, id, panics);
    forall q ensures !MayPanic(n, q) { assert !MayPanic(sys, q); }
    hide MayPanic;
  }

  lemma QuietCaller(sys: System, c: Caller, elapsed: bool)
    requires Enabled(sys, Advance(c, elapsed)) && CallerFits(sys, c) && |sys.shared.tasks| <= sys.max
    requires sys.shared.nextId <= MAX_U64 && !MayFail(sys)
    ensures !MayFail(CallerNext(sys, c, sys.callers[c], elapsed))
  {
    hide CallerNext, CallerFits, MayPanic, Tracked, NeedsLock;
    if sys.callers[c].Drain? {
      QuietDrain(sys, c, elapsed);
    } else {
      var n := CallerNext(sys, c, sys.callers[c], elapsed);
      CallerTouches(sys, c, elapsed);
      forall q ensures MayPanic(n, q) == MayPanic(sys, q) { SamePanics(sys, n, q); }
    }
  }

  /** A `spawn` that may not admit and a `quiesce` leave nothing new that may fail. */
  lemma CallerTouches(sys: System, c: Caller, elapsed: bool)
    requires Enabled(sys, Advance(c, elapsed)) && CallerFits(sys, c) && !sys.callers[c].Drain? && !AdmissionOpen(sys)
    requires !MidSpawn(sys)
    requires |sys.shared.tasks| <= sys.max && sys.shared.nextId <= MAX_U64
    ensures var n := CallerNext(sys, c, sys.callers[c], elapsed);
            && n.phases == sys.phases && n.max == sys.max && n.shared.nextId == sys.shared.nextId
            && n.shared.terminalFailure == sys.shared.terminalFailure && (n.shared.accepting ==> sys.shared.accepting)
                && !MidSpawn(n)
  {
    hide DrainTarget, DrainEffect, Tracked;
    assert sys.callers[c].SpawnEnter? ==> Admission(sys.shared, sys.max, sys.callers[c].runtime).Some?;
    hide Admission, AdmissionOpen;
  }

  lemma SamePanics(sys: System, n: System, q: TaskId)
    requires n.phases == sys.phases
    ensures MayPanic(n, q) == MayPanic(sys, q)
  {
  }

  /** A drain touches neither the tasks, nor the lock, nor admission. */
  lemma DrainTouches(sys: System, c: Caller, elapsed: bool)
    requires Enabled(sys, Advance(c, elapsed)) && sys.callers[c].Drain?
    ensures var n := CallerNext(sys, c, sys.callers[c], elapsed);
            && n.phases == sys.phases && n.lock == sys.lock && n.max == sys.max && c in n.callers && n.callers[c].Drain?
            && n.callers == sys.callers[c := n.callers[c]]
            && n.shared.(drainReported := true) == sys.shared.(drainReported := true)
  {
    hide DrainTarget, Handles, Tracked, NeedsLock;
  }

  lemma QuietDrain(sys: System, c: Caller, elapsed: bool)
    requires c in sys.callers && Enabled(sys, Advance(c, elapsed)) && sys.callers[c].Drain?
    ensures MayFail(CallerNext(sys, c, sys.callers[c], elapsed)) <==> MayFail(sys)
  {
    hide CallerNext, Enabled, MayPanic;
    var n := CallerNext(sys, c, sys.callers[c], elapsed);
    DrainTouches(sys, c, elapsed);
    forall q ensures MayPanic(n, q) == MayPanic(sys, q) { SamePanics(sys, n, q); }
    assert n.shared.terminalFailure == sys.shared.terminalFailure && n.shared.accepting == sys.shared.accepting
        && n.shared.nextId == sys.shared.nextId;
  }

  lemma QuietStays(sys: System, s: Step)
    requires Inv(sys) && Enabled(sys, s) && !MayFail(sys)
    ensures !MayFail(Next(sys, s))
  {
    match s {
      case Begin(c, pc) =>
        forall q ensures MayPanic(Next(sys, s), q) == MayPanic(sys, q) {}
        hide MayPanic;
      case TaskStep(id, panics) => QuietTask(sys, id, panics);
      case Advance(c, elapsed) =>
        assert CallerFits(sys, c);
        QuietCaller(sys, c, elapsed);
    }
  }

  lemma {:induction false} PathKeeps(systems: seq<System>, steps: seq<Step>, i: nat)
    requires Path(systems, steps) && i < |systems| && Inv(systems[0])
    ensures Inv(systems[i]) && Monotone(systems[0], systems[i])
    ensures !MayFail(systems[0]) ==> !MayFail(systems[i])
  {
    hide Inv, Next, Enabled, MayFail, Monotone;
    if i > 0 {
      PathKeeps(systems, steps, i - 1);
      NextKeepsInv(systems[i - 1], steps[i - 1]);
      NextIsMonotone(systems[i - 1], steps[i - 1]);
      MonotoneThen(systems[0], systems[i - 1], systems[i]);
      if !MayFail(systems[0]) { QuietStays(systems[i - 1], steps[i - 1]); }
    } else {
      MonotoneSelf(systems[0]);
    }
  }

  lemma MonotoneSelf(a: System)
    ensures Monotone(a, a)
  {
  }

  lemma MonotoneThen(a: System, b: System, c: System)
    requires Monotone(a, b) && Monotone(b, c)
    ensures Monotone(a, c)
  {
  }

  /** In any reachable state: some continuation records a terminal failure exactly when one is
      recorded, a task may still panic, a `spawn` is under way, or admission is still open. */
  lemma FailureIsPossibleIff(sys: System)
    requires Inv(sys)
    ensures CanReach(sys, Failed()) <==> MayFail(sys)
  {
    if MayFail(sys) {
      MayFailFails(sys);
    } else if CanReach(sys, Failed()) {
      var systems, steps :| Path(systems, steps) && systems[0] == sys && Failed()(systems[|systems| - 1]);
      PathKeeps(systems, steps, |systems| - 1);
    }
  }

  // ----- drains

  predicate Silent(sys: System, c: Caller) {
    c in sys.callers && sys.callers[c].Drain? && sys.callers[c].at == Drained(true, None)
  }

  /** A drain has used up the one report without an error, and a failure is on record. */
  function Lost(c: Caller): System -> bool {
    (n: System) => Silent(n, c) && n.shared.terminalFailure.Some?
  }

  lemma SilentThenFails(sys: System, c: Caller)
    requires Inv(sys) && Silent(sys, c)
    ensures CanReach(sys, Lost(c)) <==> CanReach(sys, Failed())
  {
    if CanReach(sys, Failed()) {
      var systems, steps :| Path(systems, steps) && systems[0] == sys && Failed()(systems[|systems| - 1]);
      PathKeeps(systems, steps, |systems| - 1);
      assert Lost(c)(systems[|systems| - 1]);
    }
    if CanReach(sys, Lost(c)) {
      var systems, steps :| Path(systems, steps) && systems[0] == sys && Lost(c)(systems[|systems| - 1]);
      assert Failed()(systems[|systems| - 1]);
    }
    hide Path;
  }

  /** For any drain that has claimed the report and returned no error, in any run: a failure
      is or can still be lost exactly when one may still be recorded. */
  lemma SilentDrainLosesIff(systems: seq<System>, steps: seq<Step>, max: nat, i: nat, c: Caller)
    requires Run(systems, steps, max) && i < |systems| && Silent(systems[i], c)
    ensures CanReach(systems[i], Lost(c)) <==> MayFail(systems[i])
  {
    RunKeepsInv(systems, steps, max, i);
    hide Run, Inv, CanReach, MayFail;
    SilentThenFails(systems[i], c);
    FailureIsPossibleIff(systems[i]);
  }

  /** A drain that has waited for the closed tracker to empty leaves nothing that may fail. */
  lemma WaitedDrainIsFinal(sys: System)
    requires Inv(sys) && sys.closed && Tracked(sys) == {}
    ensures MayFail(sys) <==> sys.shared.terminalFailure.Some?
  {
    forall id ensures !MayPanic(sys, id) { assert id !in Tracked(sys); }
    if sys.lock.Some? { assert CallerFits(sys, sys.lock.value); }
    hide MayPanic, Tracked;
  }

  /** The guard of the early return in `drain`: the tracker is empty, nothing is reported yet. */
  ghost predicate AtEarlyReturn(sys: System, c: Caller) {
    && c in sys.callers && sys.callers[c].Drain? && sys.callers[c].at.CheckEmpty? && Tracked(sys) == {}
    && !sys.shared.drainReported && sys.shared.terminalFailure.None?
  }

  lemma QuietGuard(sys: System, c: Caller)
    requires AtEarlyReturn(sys, c)
    ensures MayFail(sys) <==> AdmissionOpen(sys) || MidSpawn(sys)
  {
    forall id ensures !MayPanic(sys, id) { assert id !in Tracked(sys); }
    hide MayPanic, Tracked;
  }

  lemma DrainAdvances(sys: System, c: Caller, at: DrainPc)
    requires Inv(sys) && c in sys.callers && sys.callers[c].Drain? && sys.callers[c].at == at
    requires at.CheckEmpty? || ((at.Claiming? || at.Reading?) && sys.lock.None?)
    ensures Enabled(sys, Advance(c, false))
    ensures var n := Next(sys, Advance(c, false));
            && Inv(n) && (MayFail(n) <==> MayFail(sys)) && n.lock == sys.lock && c in n.callers
            && n.callers == sys.callers[c := n.callers[c]] && n.callers[c] == sys.callers[c].(at := n.callers[c].at)
            && n.callers[c].at == DrainTarget(sys, sys.callers[c].runtime, at, false)
            && n.shared == if at.Claiming? then sys.shared.(drainReported := true) else sys.shared
  {
    assert Enabled(sys, Advance(c, false));
    hide Inv, Tracked, Handles, MayFail, DrainTarget;
    NextKeepsInv(sys, Advance(c, false));
    QuietDrain(sys, c, false);
  }

  /** The early return claims the report and finds no failure on record. */
  lemma ClaimsSilently(sys: System, c: Caller)
    requires Inv(sys) && MayFail(sys) && sys.lock.None? && !sys.shared.drainReported && sys.shared.terminalFailure.None?
    requires c in sys.callers && sys.callers[c].Drain? && sys.callers[c].at == Claiming({})
    ensures CanReach(sys, Lost(c))
  {
    hide Inv, MayFail, CanReach, Next, Enabled;
    var s := Advance(c, false);
    DrainAdvances(sys, c, Claiming({}));
    var a := Next(sys, s);
    assert a.callers[c].at == Reading({});
    DrainAdvances(a, c, Reading({}));
    var z := Next(a, s);
    assert Silent(z, c);
    MayFailFails(z);
    SilentThenFails(z, c);
    Prepend(a, s, Lost(c));
    Prepend(sys, s, Lost(c));
  }

  lemma MidSpawnClaims(sys: System, c: Caller)
    requires Inv(sys) && MidSpawn(sys) && !sys.shared.drainReported && sys.shared.terminalFailure.None?
    requires c in sys.callers && sys.callers[c].Drain? && sys.callers[c].at == Claiming({})
    ensures CanReach(sys, Lost(c))
  {
    var s := Advance(sys.lock.value, false);
    TrackStep(sys);
    NextKeepsInv(sys, s);
    var a := Next(sys, s);
    hide Inv, CanReach, Enabled;
    Release(a);
    NextKeepsInv(a, s);
    var b := Next(a, s);
    assert MayPanic(b, sys.callers[sys.lock.value].id) && c in b.callers && b.callers[c] == sys.callers[c];
    hide Next;
    ClaimsSilently(b, c);
    Prepend(a, s, Lost(c));
    Prepend(sys, s, Lost(c));
  }

  /** While admission is open and the tracker empty, the lock is free or held by a `spawn`
      that is about to hand over its task. */
  lemma OpenLock(sys: System, c: Caller)
    requires Inv(sys) && AtEarlyReturn(sys, c) && (AdmissionOpen(sys) || MidSpawn(sys)) && sys.lock.Some?
    ensures MidSpawn(sys)
  {
    var d := sys.lock.value;
    assert CallerFits(sys, d);
    if sys.callers[d].SpawnHandle? {
      var id := sys.callers[d].id;
      assert RecordFits(sys, id);
      assert id !in Tracked(sys);
    }
  }

  /** Stated at the guard: the drain that takes the early return can use up the report and
      miss a failure exactly when admission is still open, or a `spawn` is under way. */
  lemma EarlyReturnLosesIff(sys: System, c: Caller)
    requires Inv(sys) && AtEarlyReturn(sys, c)
    ensures CanReach(sys, Lost(c)) <==> AdmissionOpen(sys) || MidSpawn(sys)
  {
    QuietGuard(sys, c);
    if AdmissionOpen(sys) || MidSpawn(sys) {
      if sys.lock.Some? { OpenLock(sys, c); }
      DrainAdvances(sys, c, CheckEmpty);
      var a := Next(sys, Advance(c, false));
      assert a.callers[c].at == Claiming({});
      assert MidSpawn(sys) ==> MidSpawn(a);
      hide Inv, MayFail, CanReach, Next, Enabled, AdmissionOpen, MidSpawn;
      if sys.lock.None? { ClaimsSilently(a, c); } else { MidSpawnClaims(a, c); }
      Prepend(sys, Advance(c, false), Lost(c));
    } else if CanReach(sys, Lost(c)) {
      var systems, steps :| Path(systems, steps) && systems[0] == sys && Lost(c)(systems[|systems| - 1]);
      PathKeeps(systems, steps, |systems| - 1);
    }
  }

  /** A new supervisor is drained before anything else. */
  lemma FirstDrain(max: nat)
    ensures var sys, s := NewSystem(max), Begin(0, Drain(true, false, CheckRuntime));
            && Enabled(sys, s) && Enabled(Next(sys, s), Advance(0, false))
            && AtEarlyReturn(Next(Next(sys, s), Advance(0, false)), 0)
            && !MidSpawn(Next(Next(sys, s), Advance(0, false)))
            && Next(Next(sys, s), Advance(0, false)).shared == NEW_STATE
            && Next(Next(sys, s), Advance(0, false)).max == max
  {
    var sys, s := NewSystem(max), Begin(0, Drain(true, false, CheckRuntime));
    assert Tracked(Next(sys, s)) == {} && Tracked(Next(Next(sys, s), Advance(0, false))) == {};
    hide Tracked;
  }

  /** Without a `quiesce` a failure can be lost in every supervisor that admits tasks at all:
      the drain of a new one uses up the report, and a task that panics later is not reported. */
  lemma UnsealedDrainCanLoseFailure(max: nat)
    ensures CanReach(NewSystem(max), Lost(0)) <==> max > 0
  {
    var sys, s := NewSystem(max), Begin(0, Drain(true, false, CheckRuntime));
    NewInv(max);
    assert !MayPanic(sys, 0);
    if max > 0 {
      hide Inv, Next, Enabled, CanReach, AtEarlyReturn, MidSpawn;
      FirstDrain(max);
      NextKeepsInv(sys, s);
      NextKeepsInv(Next(sys, s), Advance(0, false));
      EarlyReturnLosesIff(Next(Next(sys, s), Advance(0, false)), 0);
      Prepend(Next(sys, s), Advance(0, false), Lost(0));
      Prepend(sys, s, Lost(0));
    } else if CanReach(sys, Lost(0)) {
      var systems, steps :| Path(systems, steps) && systems[0] == sys && Lost(0)(systems[|systems| - 1]);
      PathKeeps(systems, steps, |systems| - 1);
    }
  }
}
