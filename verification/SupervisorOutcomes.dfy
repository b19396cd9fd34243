/** What a drain reports, and what `spawn`, `quiesce`, a task and a drain do when they run alone. */
module SupervisorOutcomes {
  import opened Model
  import opened Supervisor
  import opened SupervisorSteps
  import opened SupervisorProof
  import opened SupervisorRuns

  // ----- what a drain has seen

  /** History of one drain: whether it found tasks and no runtime, whether it last saw the tracker
      empty (and closed, if it waited for that), whether its budget elapsed, the tasks recorded when it then looked, whether the report
      was taken when it claimed it, and the failure it then read. */
  datatype DrainLog = DrainLog(
    busy: bool,
    empty: bool,
    elapsed: bool,
    pending: Option<set<TaskId>>,
    reported: Option<bool>,
    failure: Option<Option<TaskFailure>>)

  const NOTHING_SEEN := DrainLog(false, false, false, None, None, None)

  /** What the drain sees in one of its operations, from where it stands. */
  function Sees(sys: System, log: DrainLog, runtime: bool, at: DrainPc, elapsed: bool): DrainLog {
    if at.CheckRuntime? then log.(busy := !runtime && Tracked(sys) != {})
    else if at.CheckEmpty? then log.(empty := Tracked(sys) == {})
    else if at.Waiting? && elapsed then log.(elapsed := true)
    else if at.Waiting? || at.WaitingAgain? then log.(empty := sys.closed && Tracked(sys) == {})
    else if at.TimedOut? then log.(pending := Some(sys.shared.tasks.Keys))
    else if at.Claiming? || at.ClaimWithoutRuntime? then log.(reported := Some(sys.shared.drainReported))
    else if at.Reading? then log.(failure := Some(sys.shared.terminalFailure))
    else log
  }

  /** This step is an operation of the drain of `c`. */
  predicate Drains(sys: System, s: Step, c: Caller) {
    s.Advance? && s.c == c && c in sys.callers && sys.callers[c].Drain?
  }

  function LogAt(systems: seq<System>, steps: seq<Step>, c: Caller, i: nat): DrainLog
    requires i <= |steps| < |systems|
  {
    if i == 0 then NOTHING_SEEN
    else
      var sys, s, log := systems[i - 1], steps[i - 1], LogAt(systems, steps, c, i - 1);
      if Drains(sys, s, c) then Sees(sys, log, sys.callers[c].runtime, sys.callers[c].at, s.elapsed) else log
  }

  /** Where a drain stands agrees with what it has seen. */
  predicate LogFits(at: DrainPc, log: DrainLog) {
    match at
    case CheckRuntime => log == NOTHING_SEEN
    case AbortWithoutRuntime => log == NOTHING_SEEN.(busy := true)
    case ClaimWithoutRuntime => log == NOTHING_SEEN.(busy := true)
    case CheckEmpty => log == NOTHING_SEEN
    case Waiting => log == NOTHING_SEEN
    case TimedOut => log == NOTHING_SEEN.(elapsed := true)
    case Aborting(pending) => log == NOTHING_SEEN.(elapsed := true, pending := Some(pending))
    case WaitingAgain(pending) => log == NOTHING_SEEN.(elapsed := true, pending := Some(pending))
    case Claiming(pending) => Pending(log, pending) && log.reported.None? && log.failure.None?
    case Reading(pending) => Pending(log, pending) && log.reported == Some(false) && log.failure.None?
    case Drained(claimed, error) => Reports(log, claimed, error)
    case NoTimer => log == NOTHING_SEEN
  }

  /** The tasks that were left: those recorded when the budget had elapsed, or none. */
  predicate Pending(log: DrainLog, pending: set<TaskId>) {
    !log.busy && log.empty && if log.elapsed then log.pending == Some(pending) else pending == {}
  }

  /** What a finished drain reports. A drain that comes second reports nothing; one without a
      runtime reports that; a recorded failure wins over a timeout; a timeout names the tasks that
      were still recorded; otherwise it is silent. The last time it looked the tracker was empty. */
  predicate Reports(log: DrainLog, claimed: bool, error: Option<DrainError>) {
    && log.reported == Some(!claimed)
    && if !claimed then error == None
       else if log.busy then log.failure.None? && error == Some(DrainNoRuntime)
       else
         && log.failure.Some? && log.empty && (log.elapsed ==> log.pending.Some?)
         && match log.failure.value
            case Some(failure) => error == Some(FailedTask(failure))
            case None =>
              error == if log.elapsed && log.pending.value != {} then Some(DrainTimeout(log.pending.value)) else None
  }

  lemma DrainStep(sys: System, log: DrainLog, c: Caller, elapsed: bool)
    requires Enabled(sys, Advance(c, elapsed)) && sys.callers[c].Drain? && LogFits(sys.callers[c].at, log)
    ensures var pc := sys.callers[c];
            LogFits(DrainTarget(sys, pc.runtime, pc.at, elapsed), Sees(sys, log, pc.runtime, pc.at, elapsed))
  {
  }

  lemma OtherCallers(sys: System, s: Step, c: Caller)
    requires Enabled(sys, s) && c in sys.callers && !(s.Advance? && s.c == c)
    ensures c in Next(sys, s).callers && Next(sys, s).callers[c] == sys.callers[c]
  {
    hide CallerNext, NeedsLock, Starts, Tracked, TaskTarget, TaskEffect;
    match s {
      case TaskStep(id, panics) => EffectKeepsCallers(sys, id, sys.phases[id]);
      case Advance(d, elapsed) => CallerStep(sys, d, elapsed);
      case _ =>
    }
  }

  /** A step of a caller moves only that caller, and a drain stays a drain. */
  lemma CallerStep(sys: System, c: Caller, elapsed: bool)
    requires c in sys.callers && !Finished(sys.callers[c])
    ensures var n := CallerNext(sys, c, sys.callers[c], elapsed);
            && c in n.callers && n.callers == sys.callers[c := n.callers[c]]
            && (n.callers[c].Drain? <==> sys.callers[c].Drain?)
  {
    hide CallerNext;
    if sys.callers[c].Drain? { DrainCallerStep(sys, c, elapsed); } else { OtherCallerStep(sys, c, elapsed); }
  }

  lemma DrainCallerStep(sys: System, c: Caller, elapsed: bool)
    requires c in sys.callers && sys.callers[c].Drain?
    ensures var n := CallerNext(sys, c, sys.callers[c], elapsed);
            c in n.callers && n.callers == sys.callers[c := n.callers[c]] && n.callers[c].Drain?
  {
    hide Handles, DrainTarget;
  }

  lemma OtherCallerStep(sys: System, c: Caller, elapsed: bool)
    requires c in sys.callers && !sys.callers[c].Drain? && !Finished(sys.callers[c])
    ensures var n := CallerNext(sys, c, sys.callers[c], elapsed);
            c in n.callers && n.callers == sys.callers[c := n.callers[c]] && !n.callers[c].Drain?
  {
    hide Admission, WithRecord, WithHandle, DrainTarget, DrainEffect;
  }

  lemma OwnCaller(sys: System, c: Caller, elapsed: bool)
    requires Enabled(sys, Advance(c, elapsed)) && sys.callers[c].Drain?
    ensures var pc, n := sys.callers[c], Next(sys, Advance(c, elapsed));
            && c in n.callers && n.callers[c].Drain? && n.callers[c].runtime == pc.runtime
            && n.callers[c].at == DrainTarget(sys, pc.runtime, pc.at, elapsed)
  {
    hide DrainTarget, NeedsLock, Tracked;
  }

  lemma {:induction false} DrainSoFar(systems: seq<System>, steps: seq<Step>, max: nat, i: nat, c: Caller)
    requires Run(systems, steps, max) && i < |systems|
    ensures c !in systems[i].callers ==> LogAt(systems, steps, c, i) == NOTHING_SEEN
    ensures c in systems[i].callers && systems[i].callers[c].Drain? ==>
              LogFits(systems[i].callers[c].at, LogAt(systems, steps, c, i))
    ensures c in systems[i].callers && !systems[i].callers[c].Drain? ==> LogAt(systems, steps, c, i) == NOTHING_SEEN
  {
    hide Enabled, Next, LogFits, DrainTarget, Sees;
    if i > 0 {
      DrainSoFar(systems, steps, max, i - 1, c);
      var sys, s := systems[i - 1], steps[i - 1];
      if c !in sys.callers {
        NewCaller(sys, s, c);
      } else if Drains(sys, s, c) {
        DrainStep(sys, LogAt(systems, steps, c, i - 1), c, s.elapsed);
        OwnCaller(sys, c, s.elapsed);
      } else if s.Advance? && s.c == c {
        StaysOtherwise(sys, c, s.elapsed);
      } else {
        OtherCallers(sys, s, c);
      }
    }
  }

  lemma NewCaller(sys: System, s: Step, c: Caller)
    requires Enabled(sys, s) && c !in sys.callers
    ensures var n := Next(sys, s); c in n.callers && n.callers[c].Drain? ==> LogFits(n.callers[c].at, NOTHING_SEEN)
  {
    hide DrainTarget, NeedsLock, Tracked, Handles, Admission, WithRecord, WithHandle, TaskTarget, TaskEffect;
    if s.TaskStep? { EffectKeepsCallers(sys, s.id, sys.phases[s.id]); }
  }

  lemma StaysOtherwise(sys: System, c: Caller, elapsed: bool)
    requires Enabled(sys, Advance(c, elapsed)) && !sys.callers[c].Drain?
    ensures var n := Next(sys, Advance(c, elapsed)); c in n.callers && !n.callers[c].Drain?
  {
    CallerStep(sys, c, elapsed);
    hide CallerNext, NeedsLock, Tracked;
  }

  /** In every run, what a finished drain reports is decided by what it saw. */
  lemma DrainReportsWhatItSaw(systems: seq<System>, steps: seq<Step>, max: nat, i: nat, c: Caller)
    requires Run(systems, steps, max) && i < |systems|
    requires c in systems[i].callers && systems[i].callers[c].Drain? && systems[i].callers[c].at.Drained?
    ensures Reports(LogAt(systems, steps, c, i), systems[i].callers[c].at.claimed, systems[i].callers[c].at.error)
  {
    hide Enabled, Next, LogAt, Reports, LogFits;
    DrainSoFar(systems, steps, max, i, c);
    DrainedFits(systems[i].callers[c].at, LogAt(systems, steps, c, i));
  }

  lemma DrainedFits(at: DrainPc, log: DrainLog)
    requires LogFits(at, log) && at.Drained?
    ensures Reports(log, at.claimed, at.error)
  {
  }

  /** A drain that claims the report and reads no failure times out exactly when its budget elapsed
      while tasks were recorded, and it names those tasks. */
  lemma TimeoutIff(systems: seq<System>, steps: seq<Step>, max: nat, i: nat, c: Caller, tasks: set<TaskId>)
    requires Run(systems, steps, max) && i < |systems|
    requires c in systems[i].callers && systems[i].callers[c].Drain? && systems[i].callers[c].at.Drained?
    requires systems[i].callers[c].at.claimed && LogAt(systems, steps, c, i).failure == Some(None)
    ensures var log, error := LogAt(systems, steps, c, i), systems[i].callers[c].at.error;
            && (error == Some(DrainTimeout(tasks)) <==> log.elapsed && log.pending == Some(tasks) && tasks != {})
            && (error == None <==> (log.elapsed ==> log.pending == Some({}))) && log.empty
  {
    DrainReportsWhatItSaw(systems, steps, max, i, c);
    hide LogAt, Run;
  }

  // ----- operations that run alone

  /** These steps lead from `sys` to `n`. */
  predicate RunsThrough(sys: System, steps: seq<Step>, n: System)
    decreases |steps|
  {
    if steps == [] then n == sys
    else Enabled(sys, steps[0]) && RunsThrough(Next(sys, steps[0]), steps[1..], n)
  }

  lemma Before(sys: System, s: Step, m: System, rest: seq<Step>, n: System)
    requires Enabled(sys, s) && Next(sys, s) == m && RunsThrough(m, rest, n)
    ensures RunsThrough(sys, [s] + rest, n)
  {
    assert ([s] + rest)[1..] == rest;
    hide Enabled, Next;
  }

  lemma NoMore(sys: System)
    ensures RunsThrough(sys, [], sys)
  {
  }

  lemma Flat4(a: Step, b: Step, c: Step, d: Step)
    ensures [a] + ([b] + ([c] + ([d] + []))) == [a, b, c, d]
  {
  }

  lemma Flat6(a: Step, b: Step, c: Step, d: Step, e: Step, f: Step)
    ensures [a] + ([b] + ([c] + ([d] + ([e] + ([f] + []))))) == [a, b, c, d, e, f]
  {
  }

  lemma Again(sys: System, c: Caller, pc: Pc, next: Pc)
    ensures Goto(Goto(sys, c, pc), c, next) == Goto(sys, c, next)
  {
    assert sys.callers[c := pc][c := next] == sys.callers[c := next];
  }

  // ----- spawn

  /** The task `name` admitted: recorded with its own handle, tracked and running. */
  function Spawned(sys: System, name: TaskName): System {
    var id := sys.shared.nextId;
    sys.(shared := sys.shared.(nextId := id + 1, tasks := sys.shared.tasks[id := TaskRecord(name, Some(id))]),
         phases := sys.phases[id := Running], names := sys.names[id := name])
  }

  /** With the lock free, admission open, a runtime, capacity and identities left, `spawn`
      succeeds with the next identity. */
  lemma SpawnSucceeds(sys: System, c: Caller, name: TaskName)
    requires c !in sys.callers && sys.lock.None? && sys.shared.accepting
    requires |sys.shared.tasks| < sys.max && sys.shared.nextId != MAX_U64
    ensures RunsThrough(sys, [Begin(c, SpawnEnter(name, true)), Advance(c, false), Advance(c, false),
                              Advance(c, false)],
                        Goto(Spawned(sys, name), c, SpawnDone(Ok(sys.shared.nextId))))
  {
    var id := sys.shared.nextId;
    var recorded := sys.(lock := Some(c), shared := WithRecord(sys.shared, name), names := sys.names[id := name]);
    var tracked := recorded.(phases := sys.phases[id := Running]);
    var end := Goto(Spawned(sys, name), c, SpawnDone(Ok(id)));
    HandledRecord(sys.shared, name);
    Again(recorded, c, SpawnEnter(name, true), SpawnTrack(id));
    Again(tracked, c, SpawnTrack(id), SpawnHandle(id));
    Again(Spawned(sys, name), c, SpawnHandle(id), SpawnDone(Ok(id)));
    NoMore(end);
    Before(Goto(tracked, c, SpawnHandle(id)), Advance(c, false), end, [], end);
    Before(Goto(recorded, c, SpawnTrack(id)), Advance(c, false), Goto(tracked, c, SpawnHandle(id)),
           [Advance(c, false)] + [], end);
    Before(Goto(sys, c, SpawnEnter(name, true)), Advance(c, false), Goto(recorded, c, SpawnTrack(id)),
           [Advance(c, false)] + ([Advance(c, false)] + []), end);
    Before(sys, Begin(c, SpawnEnter(name, true)), Goto(sys, c, SpawnEnter(name, true)),
           [Advance(c, false)] + ([Advance(c, false)] + ([Advance(c, false)] + [])), end);
    hide RunsThrough;
    Flat4(Begin(c, SpawnEnter(name, true)), Advance(c, false), Advance(c, false), Advance(c, false));
  }

  /** Otherwise it refuses and changes nothing: a closed supervisor before a missing runtime,
      and that before exhausted capacity or identities. */
  lemma SpawnRefuses(sys: System, c: Caller, name: TaskName, runtime: bool, error: SpawnError)
    requires c !in sys.callers && sys.lock.None?
    requires !sys.shared.accepting || !runtime || |sys.shared.tasks| >= sys.max || sys.shared.nextId == MAX_U64
    requires error == if !sys.shared.accepting then SpawnClosed else if !runtime then SpawnNoRuntime else SpawnCapacity
    ensures RunsThrough(sys, [Begin(c, SpawnEnter(name, runtime)), Advance(c, false)],
                        Goto(sys, c, SpawnDone(Err(error))))
  {
    var end := Goto(sys, c, SpawnDone(Err(error)));
    Again(sys, c, SpawnEnter(name, runtime), SpawnDone(Err(error)));
    NoMore(end);
    Before(Goto(sys, c, SpawnEnter(name, runtime)), Advance(c, false), end, [], end);
    Before(sys, Begin(c, SpawnEnter(name, runtime)), Goto(sys, c, SpawnEnter(name, runtime)), [Advance(c, false)] + [],
           end);
  }

  // ----- quiesce

  /** `quiesce` closes admission and the tracker and cancels, and changes nothing else. */
  lemma QuiesceCloses(sys: System, c: Caller)
    requires c !in sys.callers && sys.lock.None?
    ensures RunsThrough(sys, [Begin(c, QuiesceEnter), Advance(c, false), Advance(c, false), Advance(c, false)],
                        Goto(sys.(shared := sys.shared.(accepting := false), closed := true, cancelled := true), c,
                             QuiesceDone))
  {
    var locked := sys.(lock := Some(c), shared := sys.shared.(accepting := false));
    var closed := locked.(closed := true);
    var open := closed.(lock := None, cancelled := true);
    var end := Goto(open, c, QuiesceDone);
    Again(locked, c, QuiesceEnter, QuiesceClose);
    Again(closed, c, QuiesceClose, QuiesceCancel);
    Again(open, c, QuiesceCancel, QuiesceDone);
    NoMore(end);
    Before(Goto(closed, c, QuiesceCancel), Advance(c, false), end, [], end);
    Before(Goto(locked, c, QuiesceClose), Advance(c, false), Goto(closed, c, QuiesceCancel), [Advance(c, false)] + [],
           end);
    Before(Goto(sys, c, QuiesceEnter), Advance(c, false), Goto(locked, c, QuiesceClose),
           [Advance(c, false)] + ([Advance(c, false)] + []), end);
    Before(sys, Begin(c, QuiesceEnter), Goto(sys, c, QuiesceEnter),
           [Advance(c, false)] + ([Advance(c, false)] + ([Advance(c, false)] + [])), end);
    hide RunsThrough;
    Flat4(Begin(c, QuiesceEnter), Advance(c, false), Advance(c, false), Advance(c, false));
  }

  // ----- tasks

  function InPhase(sys: System, id: TaskId, p: TaskPhase): System {
    sys.(phases := sys.phases[id := p])
  }

  lemma PhaseAgain(sys: System, id: TaskId, p: TaskPhase, q: TaskPhase)
    ensures InPhase(InPhase(sys, id, p), id, q) == InPhase(sys, id, q)
  {
    assert sys.phases[id := p][id := q] == sys.phases[id := q];
  }

  /** A task that ends has its record removed and leaves the tracker. */
  lemma TaskEnds(sys: System, id: TaskId)
    requires id in sys.phases && sys.phases[id].Running? && sys.lock.None?
    ensures RunsThrough(sys, [TaskStep(id, false), TaskStep(id, false), TaskStep(id, false)],
                        InPhase(sys.(shared := sys.shared.(tasks := sys.shared.tasks - {id})), id, Gone))
  {
    TaskDropsOut(sys, id);
    var end := InPhase(sys.(shared := sys.shared.(tasks := sys.shared.tasks - {id})), id, Gone);
    Before(sys, TaskStep(id, false), InPhase(sys, id, Ending), [TaskStep(id, false)] + ([TaskStep(id, false)] + []),
           end);
  }

  lemma TaskDropsOut(sys: System, id: TaskId)
    requires id in sys.phases && sys.lock.None?
    ensures RunsThrough(InPhase(sys, id, Ending), [TaskStep(id, false)] + ([TaskStep(id, false)] + []),
                        InPhase(sys.(shared := sys.shared.(tasks := sys.shared.tasks - {id})), id, Gone))
  {
    var removed := sys.(shared := sys.shared.(tasks := sys.shared.tasks - {id}));
    var end := InPhase(removed, id, Gone);
    PhaseAgain(removed, id, Ending, Untracking);
    PhaseAgain(removed, id, Untracking, Gone);
    NoMore(end);
    Before(InPhase(removed, id, Untracking), TaskStep(id, false), end, [], end);
    Before(InPhase(sys, id, Ending), TaskStep(id, false), InPhase(removed, id, Untracking), [TaskStep(id, false)] + [],
           end);
  }

  /** A task that panics is recorded as the failure unless there is one, closes admission and the
      tracker, cancels, and then leaves like any other. */
  lemma TaskPanics(sys: System, id: TaskId)
    requires id in sys.phases && sys.phases[id].Running? && id in sys.shared.tasks && sys.lock.None?
    ensures RunsThrough(sys, [TaskStep(id, true), TaskStep(id, false), TaskStep(id, false), TaskStep(id, false),
                              TaskStep(id, false), TaskStep(id, false)],
              InPhase(sys.(shared := sys.shared.(
                             accepting := false, tasks := sys.shared.tasks - {id},
                             terminalFailure := if sys.shared.terminalFailure.Some? then sys.shared.terminalFailure
                                                else Some(TaskFailure(id, sys.shared.tasks[id].name))),
                           closed := true, cancelled := true), id, Gone))
  {
    var recorded := sys.(shared := WithPanic(sys.shared, id));
    var closed := recorded.(closed := true);
    var cancelled := closed.(cancelled := true);
    PhaseAgain(recorded, id, Panicked, ClosingTracker);
    PhaseAgain(closed, id, ClosingTracker, Cancelling);
    PhaseAgain(cancelled, id, Cancelling, Ending);
    var end := InPhase(cancelled.(shared := cancelled.shared.(tasks := cancelled.shared.tasks - {id})), id, Gone);
    TaskDropsOut(cancelled, id);
    var last := [TaskStep(id, false)] + ([TaskStep(id, false)] + []);
    Before(InPhase(closed, id, Cancelling), TaskStep(id, false), InPhase(cancelled, id, Ending), last, end);
    Before(InPhase(recorded, id, ClosingTracker), TaskStep(id, false), InPhase(closed, id, Cancelling),
           [TaskStep(id, false)] + last, end);
    Before(InPhase(sys, id, Panicked), TaskStep(id, false), InPhase(recorded, id, ClosingTracker),
           [TaskStep(id, false)] + ([TaskStep(id, false)] + last), end);
    Before(sys, TaskStep(id, true), InPhase(sys, id, Panicked),
           [TaskStep(id, false)] + ([TaskStep(id, false)] + ([TaskStep(id, false)] + last)), end);
    hide RunsThrough;
    Flat6(TaskStep(id, true), TaskStep(id, false), TaskStep(id, false), TaskStep(id, false), TaskStep(id, false),
          TaskStep(id, false));
  }

  // ----- drains

  function At(sys: System, c: Caller, runtime: bool, at: DrainPc): System {
    Goto(sys, c, Drain(runtime, sys.closed, at))
  }

  /** One operation of a drain that runs alone. */
  lemma DrainOn(sys: System, c: Caller, runtime: bool, at: DrainPc, elapsed: bool, m: System, next: DrainPc,
                rest: seq<Step>, n: System)
    requires sys.lock.None? && !at.Drained? && !at.NoTimer?
    requires ((at.Waiting? && !elapsed) || at.WaitingAgain?) ==> sys.closed && Tracked(sys) == {}
    requires m == DrainEffect(sys, at) && next == DrainTarget(sys, runtime, at, elapsed)
    requires RunsThrough(At(m, c, runtime, next), rest, n)
    ensures RunsThrough(At(sys, c, runtime, at), [Advance(c, elapsed)] + rest, n)
  {
    SameHere(sys, At(sys, c, runtime, at), runtime, at, elapsed);
    Again(m, c, Drain(runtime, sys.closed, at), Drain(runtime, sys.closed, next));
    hide DrainTarget, Tracked, RunsThrough, Handles;
    Before(At(sys, c, runtime, at), Advance(c, elapsed), At(m, c, runtime, next), rest, n);
  }

  /** A drain's operation does not look at the callers. */
  lemma SameHere(sys: System, n: System, runtime: bool, at: DrainPc, elapsed: bool)
    requires n == sys.(callers := n.callers)
    ensures Tracked(n) == Tracked(sys) && DrainTarget(n, runtime, at, elapsed) == DrainTarget(sys, runtime, at, elapsed)
    ensures DrainEffect(n, at) == DrainEffect(sys, at).(callers := n.callers)
  {
  }

  lemma DrainBegins(sys: System, c: Caller, runtime: bool, rest: seq<Step>, n: System)
    requires c !in sys.callers && RunsThrough(At(sys, c, runtime, CheckRuntime), rest, n)
    ensures RunsThrough(sys, [Begin(c, Drain(runtime, sys.closed, CheckRuntime))] + rest, n)
  {
    Before(sys, Begin(c, Drain(runtime, sys.closed, CheckRuntime)), At(sys, c, runtime, CheckRuntime), rest, n);
  }

  /** The report of a drain that has `pending` left: whoever comes first gets it. */
  function Reported(sys: System, c: Caller, runtime: bool, pending: set<TaskId>): System {
    if sys.shared.drainReported then At(sys, c, runtime, Drained(false, None))
    else
      var error := if sys.shared.terminalFailure.Some? then Some(FailedTask(sys.shared.terminalFailure.value))
                   else if pending != {} then Some(DrainTimeout(pending)) else None;
      At(sys.(shared := sys.shared.(drainReported := true)), c, runtime, Drained(true, error))
  }

  /** The operations of a drain that claims and, if it gets the report, reads. */
  function ClaimSteps(sys: System, c: Caller): seq<Step> {
    if sys.shared.drainReported then [Advance(c, false)] + [] else [Advance(c, false)] + ([Advance(c, false)] + [])
  }

  lemma DrainClaims(sys: System, c: Caller, runtime: bool, pending: set<TaskId>)
    requires sys.lock.None?
    ensures RunsThrough(At(sys, c, runtime, Claiming(pending)), ClaimSteps(sys, c), Reported(sys, c, runtime, pending))
  {
    hide RunsThrough;
    var end := Reported(sys, c, runtime, pending);
    NoMore(end);
    var claimed := sys.(shared := sys.shared.(drainReported := true));
    if sys.shared.drainReported {
      assert claimed == sys;
      DrainOn(sys, c, runtime, Claiming(pending), false, sys, Drained(false, None), [], end);
    } else {
      DrainOn(claimed, c, runtime, Reading(pending), false, claimed, end.callers[c].at, [], end);
      DrainOn(sys, c, runtime, Claiming(pending), false, claimed, Reading(pending), [Advance(c, false)] + [], end);
    }
  }

  /** With the tracker empty a drain returns at once, with the report if nobody has it yet. */
  lemma DrainFindsNothing(sys: System, c: Caller, runtime: bool)
    requires c !in sys.callers && sys.lock.None? && Tracked(sys) == {}
    ensures RunsThrough(sys, [Begin(c, Drain(runtime, sys.closed, CheckRuntime))]
                             + ([Advance(c, false)] + ([Advance(c, false)] + ClaimSteps(sys, c))),
                        Reported(sys, c, runtime, {}))
  {
    hide RunsThrough, ClaimSteps, Reported;
    var end := Reported(sys, c, runtime, {});
    DrainClaims(sys, c, runtime, {});
    DrainOn(sys, c, runtime, CheckEmpty, false, sys, Claiming({}), ClaimSteps(sys, c), end);
    DrainOn(sys, c, runtime, CheckRuntime, false, sys, CheckEmpty, [Advance(c, false)] + ClaimSteps(sys, c), end);
    DrainBegins(sys, c, runtime, [Advance(c, false)] + ([Advance(c, false)] + ClaimSteps(sys, c)), end);
  }

  /** With tasks tracked and a runtime, a drain whose budget elapses aborts every recorded task
      and goes on waiting for the tracker, with the recorded tasks pending. */
  lemma DrainTimesOut(sys: System, c: Caller)
    requires Inv(sys) && c !in sys.callers && sys.lock.None? && Tracked(sys) != {}
    ensures RunsThrough(sys, [Begin(c, Drain(true, sys.closed, CheckRuntime)), Advance(c, false), Advance(c, false),
                              Advance(c, true), Advance(c, false), Advance(c, false)],
                        At(sys.(aborted := sys.aborted + sys.shared.tasks.Keys), c, true,
                           WaitingAgain(sys.shared.tasks.Keys)))
  {
    TimeoutPath(sys);
    hide RunsThrough, Inv, Handles, DrainTarget, DrainEffect, At, Tracked;
    var tasks := sys.shared.tasks.Keys;
    var aborted := sys.(aborted := sys.aborted + tasks);
    var end := At(aborted, c, true, WaitingAgain(tasks));
    NoMore(end);
    DrainOn(sys, c, true, Aborting(tasks), false, aborted, WaitingAgain(tasks), [], end);
    DrainOn(sys, c, true, TimedOut, false, sys, Aborting(tasks), [Advance(c, false)] + [], end);
    var rest := [Advance(c, false)] + ([Advance(c, false)] + []);
    DrainOn(sys, c, true, Waiting, true, sys, TimedOut, rest, end);
    DrainOn(sys, c, true, CheckEmpty, false, sys, Waiting, [Advance(c, true)] + rest, end);
    DrainOn(sys, c, true, CheckRuntime, false, sys, CheckEmpty, [Advance(c, false)] + ([Advance(c, true)] + rest), end);
    DrainBegins(sys, c, true, [Advance(c, false)] + ([Advance(c, false)] + ([Advance(c, true)] + rest)), end);
    Flat6(Begin(c, Drain(true, sys.closed, CheckRuntime)), Advance(c, false), Advance(c, false), Advance(c, true),
          Advance(c, false), Advance(c, false));
  }

  lemma TimeoutPath(sys: System)
    requires Inv(sys) && sys.lock.None? && Tracked(sys) != {}
    ensures var tasks := sys.shared.tasks.Keys;
            && DrainTarget(sys, true, CheckRuntime, false) == CheckEmpty && DrainEffect(sys, CheckRuntime) == sys
            && DrainTarget(sys, true, CheckEmpty, false) == Waiting && DrainEffect(sys, CheckEmpty) == sys
            && DrainTarget(sys, true, Waiting, true) == TimedOut && DrainEffect(sys, Waiting) == sys
            && DrainTarget(sys, true, TimedOut, false) == Aborting(tasks) && DrainEffect(sys, TimedOut) == sys
            && DrainTarget(sys, true, Aborting(tasks), false) == WaitingAgain(tasks)
            && DrainEffect(sys, Aborting(tasks)) == sys.(aborted := sys.aborted + tasks)
  {
    AllCanBeAborted(sys);
    hide Inv, Handles;
  }

  lemma NoRuntimePath(sys: System)
    requires Inv(sys) && sys.lock.None? && Tracked(sys) != {}
    ensures var aborted := sys.(aborted := sys.aborted + sys.shared.tasks.Keys);
            && DrainTarget(sys, false, CheckRuntime, false) == AbortWithoutRuntime
            && DrainEffect(sys, CheckRuntime) == sys
            && DrainTarget(sys, false, AbortWithoutRuntime, false) == ClaimWithoutRuntime
            && DrainEffect(sys, AbortWithoutRuntime) == aborted
            && DrainTarget(aborted, false, ClaimWithoutRuntime, false) ==
                 (if sys.shared.drainReported then Drained(false, None) else Drained(true, Some(DrainNoRuntime)))
            && DrainEffect(aborted, ClaimWithoutRuntime) ==
                 aborted.(shared := aborted.shared.(drainReported := true))
  {
    AllCanBeAborted(sys);
    hide Inv, Handles;
  }

  lemma AllCanBeAborted(sys: System)
    requires Inv(sys) && sys.lock.None?
    ensures Handles(sys.shared) == sys.shared.tasks.Keys
  {
    forall id | id in sys.shared.tasks
      ensures sys.shared.tasks[id].abort == Some(id)
    {
      assert RecordFits(sys, id);
    }
    forall id | id in sys.shared.tasks
      ensures id in Handles(sys.shared)
    {
      assert sys.shared.tasks[id].abort.value == id;
    }
  }

  /** Once the aborted tasks have left the closed tracker, that drain reports. */
  lemma TimedOutDrainReports(sys: System, c: Caller, pending: set<TaskId>)
    requires sys.lock.None? && sys.closed && Tracked(sys) == {}
    ensures RunsThrough(At(sys, c, true, WaitingAgain(pending)), [Advance(c, false)] + ClaimSteps(sys, c),
                        Reported(sys, c, true, pending))
  {
    hide RunsThrough, ClaimSteps, Reported;
    DrainClaims(sys, c, true, pending);
    DrainOn(sys, c, true, WaitingAgain(pending), false, sys, Claiming(pending), ClaimSteps(sys, c),
            Reported(sys, c, true, pending));
  }

  /** With tasks tracked and no runtime, a drain aborts every recorded task and reports that. */
  lemma DrainWithoutRuntime(sys: System, c: Caller)
    requires Inv(sys) && c !in sys.callers && sys.lock.None? && Tracked(sys) != {}
    ensures var n := sys.(aborted := sys.aborted + sys.shared.tasks.Keys, shared := sys.shared.(drainReported := true));
            RunsThrough(sys, [Begin(c, Drain(false, sys.closed, CheckRuntime)), Advance(c, false), Advance(c, false),
                              Advance(c, false)],
                        At(n, c, false, if sys.shared.drainReported then Drained(false, None)
                                        else Drained(true, Some(DrainNoRuntime))))
  {
    NoRuntimePath(sys);
    hide RunsThrough, Inv, Handles, DrainTarget, DrainEffect, At, Tracked;
    var aborted := sys.(aborted := sys.aborted + sys.shared.tasks.Keys);
    var n := aborted.(shared := aborted.shared.(drainReported := true));
    var last := if sys.shared.drainReported then Drained(false, None) else Drained(true, Some(DrainNoRuntime));
    var end := At(n, c, false, last);
    NoMore(end);
    DrainOn(aborted, c, false, ClaimWithoutRuntime, false, n, last, [], end);
    DrainOn(sys, c, false, AbortWithoutRuntime, false, aborted, ClaimWithoutRuntime, [Advance(c, false)] + [], end);
    DrainOn(sys, c, false, CheckRuntime, false, sys, AbortWithoutRuntime,
            [Advance(c, false)] + ([Advance(c, false)] + []), end);
    DrainBegins(sys, c, false, [Advance(c, false)] + ([Advance(c, false)] + ([Advance(c, false)] + [])), end);
    Flat4(Begin(c, Drain(false, sys.closed, CheckRuntime)), Advance(c, false), Advance(c, false), Advance(c, false));
  }
}
