/** The task supervisor's mutex-protected state: what each locked section does to it, and
    the class whose methods run those sections. */
module Supervisor {
  import opened Model
  import opened Ordering

  type TaskId = nat
  type TaskName = string

  const MAX_U64: nat := 0xFFFF_FFFF_FFFF_FFFF
  const UNKNOWN_TASK: TaskName := "unknown-task"

  datatype SpawnError = SpawnClosed | SpawnCapacity | SpawnNoRuntime

  /** An abort handle is represented by the task it aborts. */
  datatype TaskRecord = TaskRecord(name: TaskName, abort: Option<TaskId>)

  datatype TaskFailure = TaskFailure(id: TaskId, name: TaskName)

  datatype Shared = Shared(
    accepting: bool,
    nextId: nat,
    tasks: map<TaskId, TaskRecord>,
    terminalFailure: Option<TaskFailure>,
    drainReported: bool)

  const NEW_STATE := Shared(true, 1, map[], None, false)

  // ----- the locked sections

  /** The admission checks of `spawn`, in the order they are made. */
  function Admission(st: Shared, max: nat, runtime: bool): Option<SpawnError> {
    if !st.accepting then Some(SpawnClosed)
    else if !runtime then Some(SpawnNoRuntime)
    else if |st.tasks| >= max then Some(SpawnCapacity)
    else if st.nextId == MAX_U64 then Some(SpawnCapacity)
    else None
  }

  function WithRecord(st: Shared, name: TaskName): Shared {
    st.(nextId := st.nextId + 1, tasks := st.tasks[st.nextId := TaskRecord(name, None)])
  }

  function WithHandle(st: Shared, id: TaskId): Shared {
    if id in st.tasks then st.(tasks := st.tasks[id := st.tasks[id].(abort := Some(id))]) else st
  }

  function WithPanic(st: Shared, id: TaskId): Shared {
    var name := if id in st.tasks then st.tasks[id].name else UNKNOWN_TASK;
    st.(accepting := false,
        terminalFailure := if st.terminalFailure.None? then Some(TaskFailure(id, name)) else st.terminalFailure)
  }

  function WithoutTask(st: Shared, id: TaskId): Shared {
    st.(tasks := st.tasks - {id})
  }

  function Handles(st: Shared): set<TaskId> {
    set id | id in st.tasks && st.tasks[id].abort.Some? :: st.tasks[id].abort.value
  }

  // ----- what every locked section keeps

  /** Holds whenever the lock is free. */
  ghost predicate SharedOk(st: Shared, max: nat) {
    && |st.tasks| <= max && 1 <= st.nextId <= MAX_U64
    && (forall id :: id in st.tasks ==> 1 <= id < st.nextId && st.tasks[id].abort == Some(id))
    && (st.terminalFailure.Some? ==> !st.accepting && st.terminalFailure.value.id < st.nextId)
  }

  /** Before and after any number of locked sections. */
  ghost predicate Later(a: Shared, b: Shared) {
    && a.nextId <= b.nextId
    && (!a.accepting ==> !b.accepting && b.nextId == a.nextId && b.tasks.Keys <= a.tasks.Keys)
    && (a.terminalFailure.Some? ==> b.terminalFailure == a.terminalFailure)
    && (a.drainReported ==> b.drainReported)
    && (forall id :: id in b.tasks && id < a.nextId ==> id in a.tasks && b.tasks[id].name == a.tasks[id].name)
  }

  lemma MapSize<T(!new)>(m: map<TaskId, T>, k: TaskId, v: T)
    ensures |m[k := v]| == if k in m then |m| else |m| + 1
    ensures |m - {k}| == if k in m then |m| - 1 else |m|
  {
    assert m[k := v].Keys == m.Keys + {k};
    assert (m - {k}).Keys == m.Keys - {k};
    if k in m { assert m.Keys + {k} == m.Keys; } else { assert m.Keys - {k} == m.Keys; }
  }

  lemma SpawnKeepsShared(st: Shared, max: nat, runtime: bool, name: TaskName)
    requires SharedOk(st, max) && Admission(st, max, runtime).None?
    ensures var n := WithHandle(WithRecord(st, name), st.nextId);
            && SharedOk(n, max) && Later(st, n) && st.nextId !in st.tasks
            && n.tasks == st.tasks[st.nextId := TaskRecord(name, Some(st.nextId))]
  {
    assert st.nextId < MAX_U64;
    hide WithHandle, WithRecord, SharedOk, Later;
    HandledRecord(st, name);
    AddedKeepsShared(st, max, TaskRecord(name, Some(st.nextId)));
    AddedIsLater(st, max, TaskRecord(name, Some(st.nextId)));
  }

  lemma AddedKeepsShared(st: Shared, max: nat, record: TaskRecord)
    requires SharedOk(st, max) && st.accepting && |st.tasks| < max && st.nextId < MAX_U64
    requires record.abort == Some(st.nextId)
    ensures SharedOk(st.(nextId := st.nextId + 1, tasks := st.tasks[st.nextId := record]), max)
    ensures st.nextId !in st.tasks
  {
    MapSize(st.tasks, st.nextId, record);
  }

  lemma AddedIsLater(st: Shared, max: nat, record: TaskRecord)
    requires SharedOk(st, max) && st.accepting
    ensures Later(st, st.(nextId := st.nextId + 1, tasks := st.tasks[st.nextId := record]))
  {
  }

  lemma HandledRecord(st: Shared, name: TaskName)
    ensures WithHandle(WithRecord(st, name), st.nextId)
         == st.(nextId := st.nextId + 1, tasks := st.tasks[st.nextId := TaskRecord(name, Some(st.nextId))])
  {
  }

  lemma PanicKeepsShared(st: Shared, max: nat, id: TaskId)
    requires SharedOk(st, max) && id in st.tasks
    ensures var n := WithPanic(st, id);
            SharedOk(n, max) && Later(st, n) && n.terminalFailure.Some? && !n.accepting
  {
  }

  lemma RemovalKeepsShared(st: Shared, max: nat, id: TaskId)
    requires SharedOk(st, max)
    ensures SharedOk(WithoutTask(st, id), max) && Later(st, WithoutTask(st, id))
  {
    if st.tasks != map[] { MapSize(st.tasks, id, TaskRecord("", None)); }
    assert (st.tasks - {id}).Keys <= st.tasks.Keys;
  }

  /** Outside the lock every record can be aborted, by the handle of its own task. */
  lemma HandlesCoverTasks(st: Shared, max: nat)
    requires SharedOk(st, max)
    ensures Handles(st) == st.tasks.Keys
  {
    forall id | id in st.tasks ensures id in Handles(st) { assert st.tasks[id].abort.value == id; }
  }

  // ----- the supervisor

  class TaskSupervisor {
    const maxTasks: nat
    var accepting: bool
    var nextId: nat
    var tasks: map<TaskId, TaskRecord>
    var terminalFailure: Option<TaskFailure>
    var drainReported: bool
    /** The tracker: the tasks whose futures are not destroyed yet, and whether it is closed. */
    var tracked: set<TaskId>
    var trackerClosed: bool
    var cancelled: bool

    ghost predicate Valid()
      reads this
    {
      && SharedOk(Contents(), maxTasks)
      && tasks.Keys <= tracked && (forall id :: id in tracked ==> id < nextId)
      && (trackerClosed ==> !accepting)
    }

    function Contents(): Shared
      reads this
    {
      Shared(accepting, nextId, tasks, terminalFailure, drainReported)
    }

    constructor (maxTasks: nat)
      ensures Valid() && Contents() == NEW_STATE && this.maxTasks == maxTasks
      ensures tracked == {} && !trackerClosed && !cancelled
    {
      this.maxTasks := maxTasks;
      accepting, nextId, tasks, terminalFailure, drainReported := true, 1, map[], None, false;
      tracked, trackerClosed, cancelled := {}, false, false;
    }

    method Spawn(name: TaskName, runtime: bool) returns (r: Result<TaskId, SpawnError>)
      requires Valid()
      modifies this
      ensures Valid() && Later(old(Contents()), Contents())
      ensures !old(accepting) ==> r == Err(SpawnClosed)
      ensures old(accepting) && !runtime ==> r == Err(SpawnNoRuntime)
      ensures old(accepting) && runtime ==> (r.Ok? <==> |old(tasks)| < maxTasks && old(nextId) < MAX_U64)
      ensures old(accepting) && runtime && r.Err? ==> r == Err(SpawnCapacity)
      ensures r.Err? ==> Contents() == old(Contents()) && tracked == old(tracked)
      ensures r.Ok? ==> r.value == old(nextId) && r.value !in old(tasks) && r.value !in old(tracked)
      ensures r.Ok? ==> tracked == old(tracked) + {r.value}
      ensures r.Ok? ==>
              Contents() == old(Contents()).(nextId := r.value + 1,
                                             tasks := old(tasks)[r.value := TaskRecord(name, Some(r.value))])
      ensures trackerClosed == old(trackerClosed) && cancelled == old(cancelled)
    {
      ghost var before := Contents();
      if !accepting {
        return Err(SpawnClosed);
      }
      if !runtime {
        return Err(SpawnNoRuntime);
      }
      if |tasks| >= maxTasks {
        return Err(SpawnCapacity);
      }
      var id := nextId;
      if nextId == MAX_U64 {
        return Err(SpawnCapacity);
      }
      SpawnKeepsShared(before, maxTasks, runtime, name);
      hide SharedOk, Later;
      nextId := nextId + 1;
      tasks := tasks[id := TaskRecord(name, None)];
      tracked := tracked + {id};
      if id in tasks {
        tasks := tasks[id := tasks[id].(abort := Some(id))];
      }
      assert Contents() == WithHandle(WithRecord(before, name), id);
      r := Ok(id);
    }

    /** A task's body panicked; its registration is still alive. */
    method RecordPanic(id: TaskId)
      requires Valid() && id in tasks
      modifies this
      ensures Valid() && Later(old(Contents()), Contents())
      ensures !accepting && trackerClosed && cancelled && tasks == old(tasks) && tracked == old(tracked)
      ensures nextId == old(nextId) && drainReported == old(drainReported)
      ensures terminalFailure == if old(terminalFailure).Some? then old(terminalFailure)
          else Some(TaskFailure(id, old(tasks)[id].name))
    {
      PanicKeepsShared(Contents(), maxTasks, id);
      if terminalFailure.None? {
        var name := if id in tasks then tasks[id].name else UNKNOWN_TASK;
        terminalFailure := Some(TaskFailure(id, name));
      }
      accepting := false;
      trackerClosed := true;
      cancelled := true;
    }

    /** A registration is dropped: its task finished, panicked or was aborted. */
    method DropRegistration(id: TaskId)
      requires Valid()
      modifies this
      ensures Valid() && Later(old(Contents()), Contents())
      ensures Contents() == old(Contents()).(tasks := old(tasks) - {id}) && tracked == old(tracked)
      ensures trackerClosed == old(trackerClosed) && cancelled == old(cancelled)
    {
      RemovalKeepsShared(Contents(), maxTasks, id);
      tasks := tasks - {id};
      assert tasks.Keys <= old(tasks).Keys;
    }

    method Quiesce()
      requires Valid()
      modifies this
      ensures Valid() && Later(old(Contents()), Contents())
      ensures Contents() == old(Contents()).(accepting := false) && trackerClosed && cancelled
      ensures tracked == old(tracked)
    {
      accepting := false;
      trackerClosed := true;
      cancelled := true;
    }

    /** The handles that are then aborted: every unfinished task has exactly one, in identity order. */
    method AbortHandles() returns (handles: seq<TaskId>)
      requires Valid()
      ensures Ascending(IdLess, handles) && forall id :: id in handles <==> id in tasks
    {
      HandlesCoverTasks(Contents(), maxTasks);
      IdOrder();
      handles := [];
      var ids := Enumerate(IdLess, tasks.Keys);
      AscendProperties(IdLess, tasks.Keys);
      for k := 0 to |ids|
        invariant handles == ids[..k]
      {
        assert ids[k] in tasks;
        var record := tasks[ids[k]];
        if record.abort.Some? {
          handles := handles + [record.abort.value];
        }
      }
      assert ids[..|ids|] == ids;
    }

    /** A snapshot of the unfinished tasks in identity order. */
    method PendingTasks() returns (pending: seq<(TaskId, TaskName)>)
      requires Valid()
      ensures |pending| == |tasks|
      ensures forall k :: 0 <= k < |pending| ==> pending[k].0 in tasks && pending[k].1 == tasks[pending[k].0].name
      ensures forall j, k :: 0 <= j < k < |pending| ==> pending[j].0 < pending[k].0
    {
      IdOrder();
      var ids := Enumerate(IdLess, tasks.Keys);
      AscendProperties(IdLess, tasks.Keys);
      pending := [];
      for k := 0 to |ids|
        invariant |pending| == k
        invariant forall j :: 0 <= j < k ==>
            pending[j].0 == ids[j] && ids[j] in tasks && pending[j].1 == tasks[ids[j]].name
      {
        assert ids[k] in tasks;
        pending := pending + [(ids[k], tasks[ids[k]].name)];
      }
    }

    method ClaimDrainReport() returns (claimed: bool)
      requires Valid()
      modifies `drainReported
      ensures Valid() && claimed == !old(drainReported) && drainReported
    {
      if drainReported {
        claimed := false;
      } else {
        drainReported := true;
        claimed := true;
      }
    }
  }
}
