/** Every step of the supervisor protocol keeps the invariant of `SupervisorSteps`. */
module SupervisorProof {
  import opened Model
  import opened Supervisor
  import opened SupervisorSteps

  // ----- steps of a task

  lemma OthersFitTask(sys: System, id: TaskId, panics: bool, c: Caller)
    requires TasksOk(sys) && AdmissionOk(sys) && LockOk(sys) && Enabled(sys, TaskStep(id, panics)) && c in sys.callers
    requires CallerFits(sys, c)
    ensures CallerFits(TaskNext(sys, id, panics), c)
  {
    var n := TaskNext(sys, id, panics);
    assert id in Tracked(sys);
    TrackedShrinks(sys, id, panics);
    hide Tracked, AdmissionOk, Registered;
  }

  lemma TrackedShrinks(sys: System, id: TaskId, panics: bool)
    requires id in sys.phases && !sys.phases[id].Gone?
    ensures Tracked(TaskNext(sys, id, panics)) <= Tracked(sys)
  {
  }

  lemma TaskKeepsInv(sys: System, id: TaskId, panics: bool)
    requires Inv(sys) && Enabled(sys, TaskStep(id, panics))
    ensures Inv(TaskNext(sys, id, panics))
  {
    var n := TaskNext(sys, id, panics);
    forall c | c in n.callers
      ensures CallerFits(n, c)
    {
      OthersFitTask(sys, id, panics, c);
    }
    hide RecordsOk, TasksOk, AdmissionOk, CallerFits;
    TaskKeepsRecords(sys, id, panics);
    TaskKeepsAdmission(sys, id, panics);
    TaskKeepsRest(sys, id, panics);
  }

  lemma TaskKeepsRest(sys: System, id: TaskId, panics: bool)
    requires LockOk(sys) && OneClaim(sys) && id in sys.phases
    ensures var n := TaskNext(sys, id, panics); LockOk(n) && OneClaim(n) && n.callers == sys.callers
  {
    hide LockOk, OneClaim, TaskEffect, TaskTarget;
    EffectKeepsCallers(sys, id, sys.phases[id]);
    SameCallers(sys, TaskNext(sys, id, panics));
  }

  lemma EffectKeepsCallers(sys: System, id: TaskId, p: TaskPhase)
    ensures var m := TaskEffect(sys, id, p);
            m.callers == sys.callers && m.lock == sys.lock && m.shared.drainReported == sys.shared.drainReported
  {
  }

  lemma SameCallers(sys: System, n: System)
    requires LockOk(sys) && OneClaim(sys)
    requires n.callers == sys.callers && n.lock == sys.lock && (sys.shared.drainReported ==> n.shared.drainReported)
    ensures LockOk(n) && OneClaim(n)
  {
  }

  /** The same records, and no task appears or drops its registration. */
  ghost predicate SameTasks(sys: System, n: System) {
    && n.shared.tasks == sys.shared.tasks && n.shared.nextId == sys.shared.nextId && n.names == sys.names
    && (forall id :: Spawning(n, id) <==> Spawning(sys, id)) && (forall id :: Untracked(n, id) <==> Untracked(sys, id))
    && n.phases.Keys == sys.phases.Keys && forall id :: Live(n, id) <==> Live(sys, id)
  }

  lemma SameTasksKeep(sys: System, n: System)
    requires SameTasks(sys, n) && RecordsOk(sys) && TasksOk(sys) && LockOk(sys)
    ensures RecordsOk(n) && TasksOk(n)
  {
    hide Live, Spawning, Untracked;
    forall id | id in n.shared.tasks ensures RecordFits(n, id) { assert RecordFits(sys, id); }
  }

  lemma RemovalKeepsRecords(sys: System, id: TaskId)
    requires RecordsOk(sys) && TasksOk(sys) && id in sys.phases && sys.phases[id].Ending? && sys.lock.None?
    ensures var n := TaskNext(sys, id, false); RecordsOk(n) && TasksOk(n)
  {
    var n := TaskNext(sys, id, false);
    forall q ensures Live(n, q) <==> Live(sys, q) && q != id {}
    hide Live;
    forall q | q in n.shared.tasks ensures RecordFits(n, q) { assert RecordFits(sys, q); }
  }

  lemma TaskKeepsRecords(sys: System, id: TaskId, panics: bool)
    requires RecordsOk(sys) && TasksOk(sys) && LockOk(sys) && Enabled(sys, TaskStep(id, panics))
    ensures var n := TaskNext(sys, id, panics); RecordsOk(n) && TasksOk(n)
  {
    var n := TaskNext(sys, id, panics);
    if sys.phases[id].Ending? {
      RemovalKeepsRecords(sys, id);
    } else {
      hide RecordsOk, TasksOk, TaskNext, SameTasks;
      LiveStays(sys, id, panics);
      SameTasksKeep(sys, n);
    }
  }

  lemma EffectKeepsTasks(sys: System, id: TaskId, p: TaskPhase)
    requires !p.Ending?
    ensures var m := TaskEffect(sys, id, p);
            m.shared.tasks == sys.shared.tasks && m.shared.nextId == sys.shared.nextId && m.lock == sys.lock
                && m.callers == sys.callers && m.names == sys.names
  {
  }

  lemma TargetKeepsRegistration(p: TaskPhase, panics: bool)
    requires !p.Ending?
    ensures Registered(TaskTarget(p, panics)) == Registered(p)
  {
  }

  lemma LiveStays(sys: System, id: TaskId, panics: bool)
    requires id in sys.phases && !sys.phases[id].Ending?
    ensures SameTasks(sys, TaskNext(sys, id, panics))
  {
    hide TaskTarget, Registered, TaskEffect;
    EffectKeepsTasks(sys, id, sys.phases[id]);
    TargetKeepsRegistration(sys.phases[id], panics);
  }

  lemma PanicKeepsAdmission(sys: System, id: TaskId)
    requires RecordsOk(sys) && TasksOk(sys) && AdmissionOk(sys) && sys.lock.None? && id in sys.phases
    requires sys.phases[id].Panicked?
    ensures AdmissionOk(TaskNext(sys, id, false))
  {
    assert Live(sys, id);
    assert RecordFits(sys, id);
    hide RecordsOk, TasksOk, Live;
  }

  lemma RemovalKeepsAdmission(sys: System, id: TaskId)
    requires AdmissionOk(sys) && id in sys.phases && sys.phases[id].Ending?
    ensures AdmissionOk(TaskNext(sys, id, false))
  {
    MapSize(sys.shared.tasks, id, TaskRecord("", None));
  }

  lemma TaskKeepsAdmission(sys: System, id: TaskId, panics: bool)
    requires RecordsOk(sys) && TasksOk(sys) && AdmissionOk(sys) && Enabled(sys, TaskStep(id, panics))
    ensures AdmissionOk(TaskNext(sys, id, panics))
  {
    match sys.phases[id] {
      case Panicked => PanicKeepsAdmission(sys, id);
      case Ending => RemovalKeepsAdmission(sys, id);
      case _ =>
        hide RecordsOk, TasksOk;
    }
  }

  // ----- steps of a caller

  /** What the step of one caller may do to the others. */
  ghost predicate Yields(sys: System, n: System, c: Caller) {
    && c in n.callers && (forall d :: d in n.callers && d != c ==> d in sys.callers && n.callers[d] == sys.callers[d])
    && (forall d :: d in sys.callers ==> d in n.callers)
    && (sys.lock.Some? && sys.lock.value != c ==>
        n.lock == sys.lock && n.shared == sys.shared && n.phases == sys.phases)
    && (sys.closed ==> n.closed && Tracked(n) <= Tracked(sys) && n.shared.tasks.Keys <= sys.shared.tasks.Keys)
    && sys.aborted <= n.aborted && n.shared.terminalFailure == sys.shared.terminalFailure
  }

  lemma OthersFit(sys: System, n: System, c: Caller)
    requires Yields(sys, n, c) && forall d :: d in sys.callers ==> CallerFits(sys, d)
    ensures forall d :: d in n.callers && d != c ==> CallerFits(n, d)
  {
    hide Tracked;
    forall d | d in n.callers && d != c
      ensures CallerFits(n, d)
    {
      assert CallerFits(sys, d);
    }
  }

  /** The invariant, put together from what one caller's step does. */
  lemma CallerKeepsInv(sys: System, n: System, c: Caller)
    requires Inv(sys) && Yields(sys, n, c) && CallerFits(n, c)
    requires RecordsOk(n) && TasksOk(n) && AdmissionOk(n) && OneClaim(n) && LockOk(n)
    ensures Inv(n)
  {
    hide RecordsOk, TasksOk, AdmissionOk, OneClaim, LockOk, CallerFits, Yields;
    OthersFit(sys, n, c);
    assert forall d :: d in n.callers ==> d == c || CallerFits(n, d);
  }

  /** Only the caller's place changes. */
  lemma GotoKeeps(sys: System, c: Caller, pc: Pc)
    requires Inv(sys) && sys.lock != Some(c) && !(pc.SpawnTrack? || pc.SpawnHandle?)
    requires c in sys.callers ==> Claimed(pc) == Claimed(sys.callers[c])
    requires c !in sys.callers ==> !Claimed(pc)
    requires CallerFits(Goto(sys, c, pc), c)
    ensures Inv(Goto(sys, c, pc))
  {
    var n := Goto(sys, c, pc);
    assert Tracked(n) == Tracked(sys);
    assert SameTasks(sys, n);
    SameTasksKeep(sys, n);
    GotoKeepsAdmission(sys, c, pc);
    hide RecordsOk, TasksOk, AdmissionOk, CallerFits, SameTasks;
    CallerKeepsInv(sys, n, c);
  }

  lemma GotoKeepsAdmission(sys: System, c: Caller, pc: Pc)
    requires AdmissionOk(sys)
    ensures AdmissionOk(Goto(sys, c, pc))
  {
  }

  lemma BeginKeepsInv(sys: System, c: Caller, pc: Pc)
    requires Inv(sys) && Enabled(sys, Begin(c, pc))
    ensures Inv(Goto(sys, c, pc))
  {
    hide RecordsOk, TasksOk, AdmissionOk, OneClaim;
    GotoKeeps(sys, c, pc);
  }

  // ----- spawn

  lemma RefusalKeepsInv(sys: System, c: Caller, error: SpawnError)
    requires Inv(sys) && c in sys.callers && sys.callers[c].SpawnEnter? && sys.lock.None?
    ensures Inv(Goto(sys, c, SpawnDone(Err(error))))
  {
    hide RecordsOk, TasksOk, AdmissionOk, OneClaim;
    GotoKeeps(sys, c, SpawnDone(Err(error)));
  }

  ghost predicate AtSpawn(sys: System, c: Caller) {
    Inv(sys) && c in sys.callers && sys.callers[c].SpawnEnter? && sys.lock.None?
        && Admission(sys.shared, sys.max, sys.callers[c].runtime).None?
  }

  lemma InsertKeepsRecords(sys: System, c: Caller)
    requires AtSpawn(sys, c)
    ensures var n := CallerNext(sys, c, sys.callers[c], false); RecordsOk(n) && TasksOk(n)
  {
    var n := CallerNext(sys, c, sys.callers[c], false);
    var id := sys.shared.nextId;
    assert n.phases == sys.phases && n.lock == Some(c) && n.callers[c] == SpawnTrack(id);
    assert forall q :: Untracked(n, q) <==> q == id;
    forall q ensures Live(n, q) <==> Live(sys, q) {}
    hide Live, CallerNext, CallerFits;
    forall q | q in n.shared.tasks ensures RecordFits(n, q) { assert q != id ==> RecordFits(sys, q); }
  }

  lemma InsertKeepsRest(sys: System, c: Caller)
    requires AtSpawn(sys, c)
    ensures var n := CallerNext(sys, c, sys.callers[c], false);
            AdmissionOk(n) && OneClaim(n) && LockOk(n) && CallerFits(n, c) && Yields(sys, n, c)
  {
    var n := CallerNext(sys, c, sys.callers[c], false);
    var id := sys.shared.nextId;
    MapSize(sys.shared.tasks, id, TaskRecord(sys.callers[c].name, None));
    assert n.phases == sys.phases && n.lock == Some(c) && n.callers == sys.callers[c := SpawnTrack(id)];
    assert Tracked(n) == Tracked(sys);
    hide RecordsOk, Tracked;
  }

  lemma TrackKeepsRecords(sys: System, c: Caller, id: TaskId)
    requires RecordsOk(sys) && TasksOk(sys) && c in sys.callers && sys.callers[c] == SpawnTrack(id)
    requires CallerFits(sys, c)
    ensures var n := CallerNext(sys, c, sys.callers[c], false); RecordsOk(n) && TasksOk(n)
  {
    var n := CallerNext(sys, c, sys.callers[c], false);
    forall q ensures Live(n, q) <==> Live(sys, q) || q == id {}
    forall q ensures Untracked(sys, q) <==> q == id {}
    forall q ensures !Untracked(n, q) && (Spawning(n, q) <==> q == id) {}
    hide Live, Untracked, Spawning;
    forall q | q in n.shared.tasks ensures RecordFits(n, q) { assert RecordFits(sys, q); }
    assert RecordFits(sys, id);
  }

  lemma TrackKeepsRest(sys: System, c: Caller, id: TaskId)
    requires AdmissionOk(sys) && OneClaim(sys) && LockOk(sys) && c in sys.callers && sys.callers[c] == SpawnTrack(id)
    requires CallerFits(sys, c)
    ensures var n := CallerNext(sys, c, sys.callers[c], false);
            AdmissionOk(n) && OneClaim(n) && LockOk(n) && CallerFits(n, c) && Yields(sys, n, c)
  {
    var n := CallerNext(sys, c, sys.callers[c], false);
    assert n.callers == sys.callers[c := SpawnHandle(id)] && n.phases == sys.phases[id := Running];
    hide Tracked;
  }

  lemma HandleKeepsRecords(sys: System, c: Caller, id: TaskId)
    requires RecordsOk(sys) && TasksOk(sys) && c in sys.callers && sys.callers[c] == SpawnHandle(id)
    requires CallerFits(sys, c)
    ensures var n := CallerNext(sys, c, sys.callers[c], false); RecordsOk(n) && TasksOk(n)
  {
    var n := CallerNext(sys, c, sys.callers[c], false);
    forall q ensures Live(n, q) <==> Live(sys, q) {}
    forall q ensures !Untracked(n, q) && !Untracked(sys, q) && (Spawning(sys, q) <==> q == id) {}
    assert n.shared.tasks.Keys == sys.shared.tasks.Keys;
    hide Live, Untracked, Spawning;
    forall q | q in n.shared.tasks ensures RecordFits(n, q) { assert RecordFits(sys, q); }
  }

  lemma HandleKeepsRest(sys: System, c: Caller, id: TaskId)
    requires AdmissionOk(sys) && OneClaim(sys) && LockOk(sys) && c in sys.callers && sys.callers[c] == SpawnHandle(id)
    requires CallerFits(sys, c)
    ensures var n := CallerNext(sys, c, sys.callers[c], false);
            AdmissionOk(n) && OneClaim(n) && LockOk(n) && CallerFits(n, c) && Yields(sys, n, c)
  {
    var n := CallerNext(sys, c, sys.callers[c], false);
    MapSize(sys.shared.tasks, id, TaskRecord("", None));
    MapSize(sys.shared.tasks, id, n.shared.tasks[id]);
    assert n.callers == sys.callers[c := SpawnDone(Ok(id))] && n.phases == sys.phases;
    assert Tracked(n) == Tracked(sys);
    hide Tracked;
  }

  lemma SpawnKeepsInv(sys: System, c: Caller, elapsed: bool)
    requires Inv(sys) && Enabled(sys, Advance(c, elapsed))
    requires (sys.callers[c].SpawnEnter? || sys.callers[c].SpawnTrack? || sys.callers[c].SpawnHandle?)
    ensures Inv(CallerNext(sys, c, sys.callers[c], elapsed))
  {
    var n := CallerNext(sys, c, sys.callers[c], false);
    assert n == CallerNext(sys, c, sys.callers[c], elapsed);
    assert CallerFits(sys, c);
    assert sys.callers[c].SpawnEnter? && Admission(sys.shared, sys.max, sys.callers[c].runtime).None? ==>
        AtSpawn(sys, c);
    var refused := if sys.callers[c].SpawnEnter? then Admission(sys.shared, sys.max, sys.callers[c].runtime) else None;
    if refused.Some? { RefusalKeepsInv(sys, c, refused.value); }
    assert refused.Some? ==> n == Goto(sys, c, SpawnDone(Err(refused.value)));
    hide RecordsOk, TasksOk, AdmissionOk, OneClaim, LockOk, CallerFits, Yields, CallerNext, Admission;
    match sys.callers[c] {
      case SpawnEnter(_, _) =>
        if refused.None? {
          InsertKeepsRecords(sys, c);
          InsertKeepsRest(sys, c);
          CallerKeepsInv(sys, n, c);
        }
      case SpawnTrack(id) =>
        TrackKeepsRecords(sys, c, id);
        TrackKeepsRest(sys, c, id);
        CallerKeepsInv(sys, n, c);
      case SpawnHandle(id) =>
        HandleKeepsRecords(sys, c, id);
        HandleKeepsRest(sys, c, id);
        CallerKeepsInv(sys, n, c);
      case _ =>
    }
  }

  // ----- quiesce and drain

  predicate AtQuiesce(sys: System, c: Caller) {
    c in sys.callers && ((sys.callers[c].QuiesceEnter? && sys.lock.None?) || sys.callers[c].QuiesceClose?
        || sys.callers[c].QuiesceCancel?)
  }

  lemma QuiesceKeepsRest(sys: System, c: Caller)
    requires AdmissionOk(sys) && OneClaim(sys) && LockOk(sys) && AtQuiesce(sys, c) && CallerFits(sys, c)
    ensures var n := CallerNext(sys, c, sys.callers[c], false);
            AdmissionOk(n) && OneClaim(n) && LockOk(n) && CallerFits(n, c)
  {
  }

  lemma QuiesceYields(sys: System, c: Caller)
    requires AtQuiesce(sys, c) && CallerFits(sys, c)
    ensures var n := CallerNext(sys, c, sys.callers[c], false); Yields(sys, n, c) && SameTasks(sys, n)
  {
    var n := CallerNext(sys, c, sys.callers[c], false);
    assert n.phases == sys.phases && n.shared.tasks == sys.shared.tasks;
    assert Tracked(n) == Tracked(sys);
    hide Tracked, Live;
  }

  lemma QuiesceKeepsInv(sys: System, c: Caller, elapsed: bool)
    requires Inv(sys) && Enabled(sys, Advance(c, elapsed))
    requires (sys.callers[c].QuiesceEnter? || sys.callers[c].QuiesceClose? || sys.callers[c].QuiesceCancel?)
    ensures Inv(CallerNext(sys, c, sys.callers[c], elapsed))
  {
    var n := CallerNext(sys, c, sys.callers[c], false);
    hide RecordsOk, TasksOk, AdmissionOk, OneClaim, LockOk, CallerFits, Yields, SameTasks;
    QuiesceKeepsRest(sys, c);
    QuiesceYields(sys, c);
    SameTasksKeep(sys, n);
    CallerKeepsInv(sys, n, c);
  }

  lemma DrainMoves(sys: System, c: Caller, at: DrainPc, aborted: set<TaskId>)
    requires Inv(sys) && c in sys.callers && sys.callers[c].Drain?
    requires Claimed(sys.callers[c]) == Claimed(sys.callers[c].(at := at))
    requires sys.aborted <= aborted
    requires CallerFits(Goto(sys.(aborted := aborted), c, sys.callers[c].(at := at)), c)
    ensures Inv(Goto(sys.(aborted := aborted), c, sys.callers[c].(at := at)))
  {
    assert CallerFits(sys, c);
    AbortsKeepInv(sys, aborted);
    hide Inv;
    assert sys.lock != Some(c) by { LockIsNoDrain(sys, c); }
    GotoKeeps(sys.(aborted := aborted), c, sys.callers[c].(at := at));
  }

  lemma LockIsNoDrain(sys: System, c: Caller)
    requires Inv(sys) && c in sys.callers && sys.callers[c].Drain?
    ensures sys.lock != Some(c)
  {
  }

  lemma AbortsKeepInv(sys: System, aborted: set<TaskId>)
    requires Inv(sys) && sys.aborted <= aborted
    ensures Inv(sys.(aborted := aborted))
  {
    var n := sys.(aborted := aborted);
    assert Tracked(n) == Tracked(sys);
    assert SameTasks(sys, n);
    SameTasksKeep(sys, n);
    hide RecordsOk, TasksOk, SameTasks, Tracked;
    forall d | d in n.callers ensures CallerFits(n, d) { assert CallerFits(sys, d); }
  }

  /** Every live task's record has a handle once the lock is free: `abort_all` misses none. */
  lemma AbortsReachAll(sys: System)
    requires RecordsOk(sys) && sys.lock.None?
    ensures sys.shared.tasks.Keys <= Handles(sys.shared)
  {
    forall id | id in sys.shared.tasks
      ensures id in Handles(sys.shared)
    {
      assert RecordFits(sys, id);
      assert sys.shared.tasks[id].abort.value == id;
    }
  }

  lemma TrackedStays(sys: System, aborted: set<TaskId>, c: Caller, pc: Pc)
    ensures Tracked(Goto(sys.(aborted := aborted), c, pc)) == Tracked(sys)
  {
  }

  predicate Plain(at: DrainPc) {
    !at.Claiming? && !at.ClaimWithoutRuntime? && !at.Reading?
  }

  lemma PlainDrainLands(sys: System, c: Caller, elapsed: bool)
    requires c in sys.callers && sys.callers[c].Drain? && Plain(sys.callers[c].at) && Enabled(sys, Advance(c, elapsed))
    ensures var n := CallerNext(sys, c, sys.callers[c], elapsed);
            && c in n.callers && n.callers[c].Drain? && sys.aborted <= n.aborted
            && n == Goto(sys.(aborted := n.aborted), c, sys.callers[c].(at := n.callers[c].at))
            && !Claimed(n.callers[c]) && !Claimed(sys.callers[c])
  {
    hide Tracked, Handles;
  }

  lemma PlainDrainFits(sys: System, c: Caller, elapsed: bool)
    requires c in sys.callers && sys.callers[c].Drain? && Plain(sys.callers[c].at) && Enabled(sys, Advance(c, elapsed))
    requires CallerFits(sys, c)
    requires sys.lock.None? ==> sys.shared.tasks.Keys <= Handles(sys.shared)
    ensures var n := CallerNext(sys, c, sys.callers[c], elapsed); c in n.callers && CallerFits(n, c)
  {
    var n := CallerNext(sys, c, sys.callers[c], elapsed);
    hide Tracked, Handles;
    PlainDrainLands(sys, c, elapsed);
    TrackedStays(sys, n.aborted, c, n.callers[c]);
    assert n.closed == sys.closed && n.shared == sys.shared && n.callers[c].runtime == sys.callers[c].runtime
        && n.callers[c].sealed == sys.callers[c].sealed;
  }

  /** Drain operations that do not claim the report. */
  lemma PlainDrainKeepsInv(sys: System, c: Caller, elapsed: bool)
    requires Inv(sys) && Enabled(sys, Advance(c, elapsed)) && sys.callers[c].Drain? && Plain(sys.callers[c].at)
    ensures Inv(CallerNext(sys, c, sys.callers[c], elapsed))
  {
    var n := CallerNext(sys, c, sys.callers[c], elapsed);
    if sys.lock.None? { AbortsReachAll(sys); }
    hide Handles, Tracked, CallerFits, CallerNext, RecordsOk, TasksOk, AdmissionOk, OneClaim, LockOk;
    PlainDrainLands(sys, c, elapsed);
    PlainDrainFits(sys, c, elapsed);
    DrainMoves(sys, c, n.callers[c].at, n.aborted);
  }

  predicate AtReport(sys: System, c: Caller) {
    c in sys.callers && sys.callers[c].Drain? && sys.lock.None? && !Plain(sys.callers[c].at)
  }

  lemma ReadingKeepsRest(sys: System, c: Caller)
    requires AdmissionOk(sys) && OneClaim(sys) && LockOk(sys) && AtReport(sys, c) && CallerFits(sys, c)
    ensures var n := CallerNext(sys, c, sys.callers[c], false);
            AdmissionOk(n) && OneClaim(n) && LockOk(n) && CallerFits(n, c)
  {
    var n := CallerNext(sys, c, sys.callers[c], false);
    assert Tracked(n) == Tracked(sys);
    hide Tracked, Handles;
  }

  lemma ReadingYields(sys: System, c: Caller)
    requires AtReport(sys, c)
    ensures var n := CallerNext(sys, c, sys.callers[c], false); Yields(sys, n, c) && SameTasks(sys, n)
  {
    var n := CallerNext(sys, c, sys.callers[c], false);
    assert n.phases == sys.phases && n.shared.tasks == sys.shared.tasks;
    assert Tracked(n) == Tracked(sys);
    hide Tracked, Live, DrainTarget, Handles;
  }

  lemma ReportKeepsInv(sys: System, c: Caller, elapsed: bool)
    requires Inv(sys) && Enabled(sys, Advance(c, elapsed)) && sys.callers[c].Drain?
    requires sys.callers[c].at.Claiming? || sys.callers[c].at.ClaimWithoutRuntime? || sys.callers[c].at.Reading?
    ensures Inv(CallerNext(sys, c, sys.callers[c], elapsed))
  {
    var n := CallerNext(sys, c, sys.callers[c], false);
    assert n == CallerNext(sys, c, sys.callers[c], elapsed);
    hide RecordsOk, TasksOk, AdmissionOk, OneClaim, LockOk, CallerFits, Yields, SameTasks, CallerNext;
    ReadingKeepsRest(sys, c);
    ReadingYields(sys, c);
    SameTasksKeep(sys, n);
    CallerKeepsInv(sys, n, c);
  }

  /** Every operation of every spawner, task, quiescing call and drain keeps the invariant. */
  lemma NextKeepsInv(sys: System, s: Step)
    requires Inv(sys) && Enabled(sys, s)
    ensures Inv(Next(sys, s))
  {
    hide Inv, CallerNext, TaskNext;
    match s {
      case Begin(c, pc) => BeginKeepsInv(sys, c, pc);
      case TaskStep(id, panics) => TaskKeepsInv(sys, id, panics);
      case Advance(c, elapsed) =>
        match sys.callers[c] {
          case SpawnEnter(_, _) => SpawnKeepsInv(sys, c, elapsed);
          case SpawnTrack(_) => SpawnKeepsInv(sys, c, elapsed);
          case SpawnHandle(_) => SpawnKeepsInv(sys, c, elapsed);
          case QuiesceEnter => QuiesceKeepsInv(sys, c, elapsed);
          case QuiesceClose => QuiesceKeepsInv(sys, c, elapsed);
          case QuiesceCancel => QuiesceKeepsInv(sys, c, elapsed);
          case Drain(_, _, at) =>
            if Plain(at) { PlainDrainKeepsInv(sys, c, elapsed); } else { ReportKeepsInv(sys, c, elapsed); }
          case _ =>
        }
    }
  }
}
