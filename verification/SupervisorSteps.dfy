/** The supervisor as a concurrent protocol: any number of spawners, tasks, quiescing calls
    and drains, one atomic operation at a time. `spawn` and `quiesce` hold the state lock over
    several operations; every other locked section is one operation. */
module SupervisorSteps {
  import opened Model
  import opened Supervisor

  type Caller = nat

  /** A task from the moment the tracker has it until its future is destroyed. */
  datatype TaskPhase =
    | Running
    | Panicked          // about to record the panic
    | ClosingTracker    // recorded, about to close the tracker
    | Cancelling        // about to cancel the shared token
    | Ending            // about to drop its registration
    | Untracking        // registration dropped, tracker token still held
    | Gone

  datatype DrainError = FailedTask(failure: TaskFailure) | DrainTimeout(pending: set<TaskId>) | DrainNoRuntime

  datatype DrainPc =
    | CheckRuntime
    | AbortWithoutRuntime
    | ClaimWithoutRuntime
    | CheckEmpty
    | Waiting
    | TimedOut
    | Aborting(pending: set<TaskId>)
    | WaitingAgain(pending: set<TaskId>)
    | Claiming(pending: set<TaskId>)
    | Reading(pending: set<TaskId>)
    | Drained(claimed: bool, error: Option<DrainError>)
    | NoTimer           // a timer was created without a runtime

  /** `runtime`: the draining thread has one. `sealed`: a `quiesce` had closed the tracker before. */
  datatype Pc =
    | SpawnEnter(name: TaskName, runtime: bool)
    | SpawnTrack(id: TaskId)
    | SpawnHandle(id: TaskId)
    | SpawnDone(result: Result<TaskId, SpawnError>)
    | QuiesceEnter
    | QuiesceClose
    | QuiesceCancel
    | QuiesceDone
    | Drain(runtime: bool, sealed: bool, at: DrainPc)

  /** `aborted` and `names` are history: the tasks some `abort_all` has aborted, and the name
      each task was spawned with. */
  datatype System = System(
    max: nat,
    shared: Shared,
    lock: Option<Caller>,
    phases: map<TaskId, TaskPhase>,
    closed: bool,
    cancelled: bool,
    callers: map<Caller, Pc>,
    aborted: set<TaskId>,
    names: map<TaskId, TaskName>)

  function NewSystem(max: nat): System {
    System(max, NEW_STATE, None, map[], false, false, map[], {}, map[])
  }

  predicate Registered(p: TaskPhase) {
    !p.Untracking? && !p.Gone?
  }

  /** The tracker's tokens. */
  function Tracked(sys: System): set<TaskId> {
    set id | id in sys.phases && !sys.phases[id].Gone?
  }

  // ----- steps

  datatype Step =
    | Begin(c: Caller, pc: Pc)              // a call of `spawn`, `quiesce` or `drain_failure` starts
    | Advance(c: Caller, elapsed: bool)     // its next operation; `elapsed`: the drain budget is used up
    | TaskStep(id: TaskId, panics: bool)    // a task's next operation; `panics`: its body panics now

  predicate Starts(sys: System, pc: Pc) {
    pc.SpawnEnter? || pc.QuiesceEnter? || (pc.Drain? && pc.at.CheckRuntime? && pc.sealed == sys.closed)
  }

  predicate NeedsLock(pc: Pc) {
    pc.SpawnEnter? || pc.QuiesceEnter?
    || (pc.Drain? && (pc.at.AbortWithoutRuntime? || pc.at.ClaimWithoutRuntime? || pc.at.TimedOut? || pc.at.Aborting?
                      || pc.at.Claiming? || pc.at.Reading?))
  }

  predicate Finished(pc: Pc) {
    pc.SpawnDone? || pc.QuiesceDone? || (pc.Drain? && (pc.at.Drained? || pc.at.NoTimer?))
  }

  predicate Enabled(sys: System, s: Step) {
    match s
    case Begin(c, pc) => c !in sys.callers && Starts(sys, pc)
    case Advance(c, elapsed) =>
      && c in sys.callers && !Finished(sys.callers[c]) && (NeedsLock(sys.callers[c]) ==> sys.lock.None?)
      && var pc := sys.callers[c];
      (pc.Drain? && ((pc.at.Waiting? && !elapsed) || pc.at.WaitingAgain?) ==> sys.closed && Tracked(sys) == {})
    case TaskStep(id, _) =>
      id in sys.phases && !sys.phases[id].Gone?
          && (sys.phases[id].Panicked? || sys.phases[id].Ending? ==> sys.lock.None?)
  }

  function Goto(sys: System, c: Caller, pc: Pc): System {
    sys.(callers := sys.callers[c := pc])
  }

  function TaskTarget(p: TaskPhase, panics: bool): TaskPhase {
    match p
    case Running => if panics then Panicked else Ending
    case Panicked => ClosingTracker
    case ClosingTracker => Cancelling
    case Cancelling => Ending
    case Ending => Untracking
    case Untracking => Gone
    case Gone => Gone
  }

  /** `record_panic` runs under the lock, then closes the tracker, then cancels; dropping the
      registration removes the record. */
  function TaskEffect(sys: System, id: TaskId, p: TaskPhase): System {
    match p
    case Panicked => sys.(shared := WithPanic(sys.shared, id))
    case ClosingTracker => sys.(closed := true)
    case Cancelling => sys.(cancelled := true)
    case Ending => sys.(shared := WithoutTask(sys.shared, id))
    case _ => sys
  }

  function TaskNext(sys: System, id: TaskId, panics: bool): System
    requires id in sys.phases
  {
    TaskEffect(sys, id, sys.phases[id]).(phases := sys.phases[id := TaskTarget(sys.phases[id], panics)])
  }

  /** Where a drain goes from `at`. */
  function DrainTarget(sys: System, runtime: bool, at: DrainPc, elapsed: bool): DrainPc {
    match at
    case CheckRuntime => if !runtime && Tracked(sys) != {} then AbortWithoutRuntime else CheckEmpty
    case AbortWithoutRuntime => ClaimWithoutRuntime
    case ClaimWithoutRuntime => if sys.shared.drainReported then Drained(false, None)
        else Drained(true, Some(DrainNoRuntime))
    case CheckEmpty => if Tracked(sys) == {} then Claiming({}) else if !runtime then NoTimer else Waiting
    case Waiting => if elapsed then TimedOut else Claiming({})
    case TimedOut => Aborting(sys.shared.tasks.Keys)
    case Aborting(pending) => WaitingAgain(pending)
    case WaitingAgain(pending) => Claiming(pending)
    case Claiming(pending) => if sys.shared.drainReported then Drained(false, None) else Reading(pending)
    case Reading(pending) => Drained(true, DrainResult(sys.shared.terminalFailure, pending))
    case _ => at
  }

  function DrainResult(failure: Option<TaskFailure>, pending: set<TaskId>): Option<DrainError> {
    if failure.Some? then Some(FailedTask(failure.value))
    else if pending == {} then None else Some(DrainTimeout(pending))
  }

  /** `abort_all` aborts every handle there is; claiming sets `drain_reported`. */
  function DrainEffect(sys: System, at: DrainPc): System {
    if at.AbortWithoutRuntime? || at.Aborting? then sys.(aborted := sys.aborted + Handles(sys.shared))
    else if at.ClaimWithoutRuntime? || at.Claiming? then sys.(shared := sys.shared.(drainReported := true))
    else sys
  }

  function CallerNext(sys: System, c: Caller, pc: Pc, elapsed: bool): System {
    match pc
    case SpawnEnter(name, runtime) =>
      var refused := Admission(sys.shared, sys.max, runtime);
      if refused.Some? then Goto(sys, c, SpawnDone(Err(refused.value)))
      else
        var id := sys.shared.nextId;
        Goto(sys.(lock := Some(c), shared := WithRecord(sys.shared, name), names := sys.names[id := name]), c,
            SpawnTrack(id))
    case SpawnTrack(id) => Goto(sys.(phases := sys.phases[id := Running]), c, SpawnHandle(id))
    case SpawnHandle(id) => Goto(sys.(lock := None, shared := WithHandle(sys.shared, id)), c, SpawnDone(Ok(id)))
    case QuiesceEnter => Goto(sys.(lock := Some(c), shared := sys.shared.(accepting := false)), c, QuiesceClose)
    case QuiesceClose => Goto(sys.(closed := true), c, QuiesceCancel)
    case QuiesceCancel => Goto(sys.(lock := None, cancelled := true), c, QuiesceDone)
    case Drain(runtime, sealed, at) => Goto(DrainEffect(sys, at), c,
        Drain(runtime, sealed, DrainTarget(sys, runtime, at, elapsed)))
    case _ => sys
  }

  function Next(sys: System, s: Step): System
    requires Enabled(sys, s)
  {
    match s
    case Begin(c, pc) => Goto(sys, c, pc)
    case Advance(c, elapsed) => CallerNext(sys, c, sys.callers[c], elapsed)
    case TaskStep(id, panics) => TaskNext(sys, id, panics)
  }

  // ----- the invariant

  /** The task a `spawn` has recorded but not yet given its abort handle. */
  predicate Spawning(sys: System, id: TaskId) {
    && sys.lock.Some? && sys.lock.value in sys.callers
    && (sys.callers[sys.lock.value] == SpawnTrack(id) || sys.callers[sys.lock.value] == SpawnHandle(id))
  }

  predicate Untracked(sys: System, id: TaskId) {
    sys.lock.Some? && sys.lock.value in sys.callers && sys.callers[sys.lock.value] == SpawnTrack(id)
  }

  predicate Live(sys: System, id: TaskId) {
    id in sys.phases && Registered(sys.phases[id])
  }

  ghost predicate RecordFits(sys: System, id: TaskId)
    requires id in sys.shared.tasks
  {
    && 1 <= id < sys.shared.nextId && id in sys.names && sys.shared.tasks[id].name == sys.names[id]
    && (sys.shared.tasks[id].abort == Some(id) || Spawning(sys, id))
    && (Live(sys, id) || Untracked(sys, id))
  }

  ghost predicate RecordsOk(sys: System) {
    forall id :: id in sys.shared.tasks ==> RecordFits(sys, id)
  }

  ghost predicate TasksOk(sys: System) {
    && (forall id :: Live(sys, id) ==> id in sys.shared.tasks)
    && (forall id :: id in sys.phases ==> id < sys.shared.nextId && !Untracked(sys, id))
    && (forall id :: id in sys.names ==> id < sys.shared.nextId)
  }

  ghost predicate AdmissionOk(sys: System) {
    && |sys.shared.tasks| <= sys.max && 1 <= sys.shared.nextId <= MAX_U64
    && (sys.closed ==> !sys.shared.accepting)
    && (sys.shared.terminalFailure.Some? ==>
          && !sys.shared.accepting && var f := sys.shared.terminalFailure.value;
          f.id in sys.names && f.name == sys.names[f.id])
    && (forall id :: id in sys.phases && sys.phases[id].ClosingTracker? ==> sys.shared.terminalFailure.Some?)
  }

  ghost predicate CallerFits(sys: System, c: Caller)
    requires c in sys.callers
  {
    match sys.callers[c]
    case SpawnTrack(id) => sys.lock == Some(c) && sys.shared.accepting && id in sys.shared.tasks && id !in sys.phases
    case SpawnHandle(id) => sys.lock == Some(c) && sys.shared.accepting && id in sys.shared.tasks
    case QuiesceClose => sys.lock == Some(c) && !sys.shared.accepting
    case QuiesceCancel => sys.lock == Some(c) && !sys.shared.accepting && sys.closed
    case Drain(runtime, sealed, at) => (sealed ==> sys.closed && DrainFits(sys, runtime, at)) && ReportFits(sys, at)
    case _ => true
  }

  /** A drain that started after admission was closed. */
  ghost predicate DrainFits(sys: System, runtime: bool, at: DrainPc) {
    match at
    case CheckEmpty => runtime || Tracked(sys) == {}
    case WaitingAgain(_) => sys.shared.tasks.Keys <= sys.aborted
    case Claiming(_) => Tracked(sys) == {}
    case Reading(_) => Tracked(sys) == {}
    case Drained(claimed, error) =>
      claimed && error != Some(DrainNoRuntime) ==>
          Tracked(sys) == {} && (error.None? ==> sys.shared.terminalFailure.None?)
    case NoTimer => false
    case _ => true
  }

  ghost predicate ReportFits(sys: System, at: DrainPc) {
    match at
    case Drained(claimed, error) =>
      && (error.Some? ==> claimed)
      && (error.Some? && error.value.FailedTask? ==> sys.shared.terminalFailure == Some(error.value.failure))
    case _ => true
  }

  /** The drain that has claimed the report. */
  predicate Claimed(pc: Pc) {
    pc.Drain? && (pc.at.Reading? || (pc.at.Drained? && pc.at.claimed))
  }

  ghost predicate OneClaim(sys: System) {
    && (forall c :: c in sys.callers && Claimed(sys.callers[c]) ==> sys.shared.drainReported)
    && (forall c, d :: c in sys.callers && d in sys.callers && Claimed(sys.callers[c]) && Claimed(sys.callers[d]) ==>
        c == d)
  }

  ghost predicate LockOk(sys: System) {
    sys.lock.Some? ==>
      && sys.lock.value in sys.callers && var pc := sys.callers[sys.lock.value];
      pc.SpawnTrack? || pc.SpawnHandle? || pc.QuiesceClose? || pc.QuiesceCancel?
  }

  ghost predicate Inv(sys: System) {
    && RecordsOk(sys) && TasksOk(sys) && AdmissionOk(sys) && OneClaim(sys) && LockOk(sys)
    && forall c :: c in sys.callers ==> CallerFits(sys, c)
  }

  lemma NewInv(max: nat)
    ensures Inv(NewSystem(max))
  {
  }
}
