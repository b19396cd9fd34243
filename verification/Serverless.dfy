/** Serverless admission over the scope tree: concurrent admissions, rollbacks and lease
    drops, one atomic operation at a time. A call runs its scope operations on the scope
    tree as the thread of the same number. */
module Serverless {
  import opened Model
  import opened Ordering
  import opened ScopeTree

  datatype AdmissionError = AdmissionClosed | AdmissionCapacity | DeadlineExceeded

  /** Where a call of `begin_invocation`, and then its lease, is. */
  datatype Phase =
    | Entered                    // about to read `accepting`
    | CheckingDeadline
    | Reserving                  // about to update `active`
    | Reserved                   // capacity taken, about to read `accepting` again
    | Creating                   // inside `child`
    | RollingBack                // about to give the capacity back
    | Rejected(error: AdmissionError)
    | Leased(scope: Ref)         // the invocation is live
    | BeginClosing(scope: Ref)   // the lease is being dropped: inside `begin_close`
    | BeginClosed(scope: Ref)
    | FinishClosing(scope: Ref)  // inside `finish_close`
    | Dropping(scope: Ref)       // about to release the scope itself
    | Releasing                  // the counter field is dropped last
    | Done

  /** `shutdown` holds the host exclusively, so it overlaps no call and no lease. */
  datatype Shutdown =
    | Serving
    | ShutdownBegin(thread: Thread)
    | ShutdownSwept(thread: Thread)
    | ShutdownFinish(thread: Thread)
    | ShutDown

  datatype Host = Host(
    tree: State,
    app: Ref,
    max: nat,
    accepting: bool,
    active: nat,
    calls: map<Thread, Phase>,
    shutdown: Shutdown)

  function NewHost(app: Ref, max: nat): Host {
    Host(Initial(app), app, max, true, 0, map[], Serving)
  }

  /** Capacity is held from the update of `active` to its decrement. */
  predicate Holding(p: Phase) {
    !(p.Entered? || p.CheckingDeadline? || p.Reserving? || p.Rejected? || p.Done?)
  }

  ghost function Holders(calls: map<Thread, Phase>): set<Thread> {
    set i | i in calls && Holding(calls[i])
  }

  predicate Over(p: Phase) {
    p.Rejected? || p.Done?
  }

  /** The scope a call owns: created and not yet released. */
  function Owned(h: Host, i: Thread): Option<Ref>
    requires i in h.calls
  {
    match h.calls[i]
    case Creating =>
      var stack := StackOf(h.tree, i);
      if |stack| == 1 && stack[0].Child? then
        match stack[0].child
        case LockChildren(c) => Some(c)
        case Recheck(c) => Some(c)
        case Push(c) => Some(c)
        case ChildDone(result) => result
        case _ => None
      else None
    case Leased(c) => Some(c)
    case BeginClosing(c) => Some(c)
    case BeginClosed(c) => Some(c)
    case FinishClosing(c) => Some(c)
    case Dropping(c) => Some(c)
    case _ => None
  }

  /** The owned scope is in the application's child list. */
  predicate Listed(h: Host, i: Thread)
    requires i in h.calls
  {
    match h.calls[i]
    case Creating =>
      var stack := StackOf(h.tree, i);
      |stack| == 1 && stack[0].Child? && stack[0].child.ChildDone? && stack[0].child.result.Some?
    case Leased(_) => true
    case BeginClosing(_) => true
    case BeginClosed(_) => true
    case FinishClosing(_) => true
    case _ => false
  }

  // ----- steps

  datatype Step =
    | Enter
    | Load                        // the next read or write of `accepting`, the deadline or `active`
    | Deadline(elapsed: bool)
    | TreeStep(slot: Ref)         // the next atomic operation of the running scope operation
    | DropLease
    | StartShutdown
    | ShutdownStep(slot: Ref)

  ghost predicate StepEnabled(h: Host, i: Thread, s: Step) {
    match s
    case Enter => (h.shutdown.Serving? || h.shutdown.ShutDown?) && (i in h.calls ==> Over(h.calls[i]))
        && StackOf(h.tree, i) == []
    case Load =>
      i in h.calls && (match h.calls[i]
                      case Entered => true
                      case Reserving => true
                      case Reserved => !h.accepting || Enabled(h.tree, i, StartChild(h.app))
                      case RollingBack => true
                      case BeginClosed(c) => Enabled(h.tree, i, StartFinish(c))
                      case Dropping(c) => Enabled(h.tree, i, Action.Drop(c))
                      case Releasing => true
                      case _ => false)
    case Deadline(_) => i in h.calls && h.calls[i].CheckingDeadline?
    case TreeStep(slot) =>
      && i in h.calls && (h.calls[i].Creating? || h.calls[i].BeginClosing? || h.calls[i].FinishClosing?)
      && Enabled(h.tree, i, Advance(slot))
    case DropLease => i in h.calls && h.calls[i].Leased? && Enabled(h.tree, i, StartBegin(h.calls[i].scope))
    case StartShutdown =>
      h.shutdown.Serving? && i !in h.calls && (forall j :: j in h.calls ==> Over(h.calls[j]))
          && Enabled(h.tree, i, StartBegin(h.app))
    case ShutdownStep(slot) =>
      (match h.shutdown
       case ShutdownBegin(t) => i == t && Enabled(h.tree, t, Advance(slot))
       case ShutdownSwept(t) => i == t && Enabled(h.tree, t, StartFinish(h.app))
       case ShutdownFinish(t) => i == t && Enabled(h.tree, t, Advance(slot))
       case _ => false)
  }

  function Move(h: Host, i: Thread, p: Phase): Host {
    h.(calls := h.calls[i := p])
  }

  ghost function AfterLoad(h: Host, i: Thread): Host
    requires StepEnabled(h, i, Load)
  {
    match h.calls[i]
    case Entered => Move(h, i, if h.accepting then CheckingDeadline else Rejected(AdmissionClosed))
    case Reserving =>
      if h.active < h.max then Move(h.(active := h.active + 1), i, Reserved)
          else Move(h, i, Rejected(AdmissionCapacity))
    case Reserved =>
      if !h.accepting then Move(h, i, RollingBack)
          else Move(h.(tree := Next(h.tree, i, StartChild(h.app))), i, Creating)
    case RollingBack => Move(h.(active := Decrement(h.active)), i, Rejected(AdmissionClosed))
    case BeginClosed(c) => Move(h.(tree := Next(h.tree, i, StartFinish(c))), i, FinishClosing(c))
    case Dropping(c) => Move(h.(tree := Next(h.tree, i, Action.Drop(c))), i, Releasing)
    case Releasing => Move(h.(active := Decrement(h.active)), i, Done)
    case _ => h
  }

  /** `fetch_sub` on an unsigned counter wraps below zero; 2^64 stands for the wrapped value. */
  function Decrement(n: nat): nat {
    if n == 0 then 0x1_0000_0000_0000_0000 - 1 else n - 1
  }

  /** Where a call is after one operation of `child`, `begin_close` or `finish_close`. */
  function PhaseAfter(p: Phase, before: seq<Frame>, after: seq<Frame>): Phase {
    if after != [] then p
    else match p
         case Creating =>
           if |before| == 1 && before[0].Child? && before[0].child.ChildDone? && before[0].child.result.Some?
           then Leased(before[0].child.result.value) else RollingBack
         case BeginClosing(c) => BeginClosed(c)
         case FinishClosing(c) => Dropping(c)
         case _ => p
  }

  ghost function StepNext(h: Host, i: Thread, s: Step): Host
    requires StepEnabled(h, i, s)
  {
    match s
    case Enter => Move(h, i, Entered)
    case Load => AfterLoad(h, i)
    case Deadline(elapsed) => Move(h, i, if elapsed then Rejected(DeadlineExceeded) else Reserving)
    case TreeStep(slot) =>
      var n := Next(h.tree, i, Advance(slot));
      Move(h.(tree := n), i, PhaseAfter(h.calls[i], StackOf(h.tree, i), StackOf(n, i)))
    case DropLease => Move(h.(tree := Next(h.tree, i, StartBegin(h.calls[i].scope))), i, BeginClosing(h.calls[i].scope))
    case StartShutdown => h.(tree := Next(h.tree, i, StartBegin(h.app)), accepting := false,
        shutdown := ShutdownBegin(i))
    case ShutdownStep(slot) =>
      match h.shutdown
      case ShutdownBegin(t) =>
        var n := Next(h.tree, t, Advance(slot));
        h.(tree := n, shutdown := if StackOf(n, t) == [] then ShutdownSwept(t) else h.shutdown)
      case ShutdownSwept(t) => h.(tree := Next(h.tree, t, StartFinish(h.app)), shutdown := ShutdownFinish(t))
      case ShutdownFinish(t) =>
        var n := Next(h.tree, t, Advance(slot));
        h.(tree := n, shutdown := if StackOf(n, t) == [] then ShutDown else h.shutdown)
      case _ => h
  }

  // ----- the invariant

  ghost predicate OwnScope(h: Host, c: Ref) {
    c != h.app && c in h.tree.alive && Allocated(h.tree, c) && h.tree.parent[c] == Some(h.app)
  }

  /** A call's stack is the one its phase calls for. */
  ghost predicate CallFits(h: Host, i: Thread)
    requires i in h.calls
  {
    var stack := StackOf(h.tree, i);
    && (Owned(h, i).Some? ==> OwnScope(h, Owned(h, i).value))
    && match h.calls[i]
       case Creating => |stack| == 1 && stack[0].Child? && stack[0].scope == h.app
       case BeginClosing(c) => |stack| == 1 && stack[0].Begin? && stack[0].scope == c
           && (stack[0].begin.Sweep? ==> stack[0].begin.todo == [])
       case BeginClosed(c) => stack == [] && c in h.tree.swept
       case FinishClosing(c) => |stack| == 1 && stack[0].Finish? && stack[0].scope == c
           && (stack[0].finish.FinishSweep? ==> stack[0].finish.todo == [])
       case _ => stack == []
  }

  /** No two calls own the same scope. */
  ghost predicate OwnersDiffer(h: Host) {
    forall i, j :: i in h.calls && j in h.calls && i != j && Owned(h, i).Some? ==> Owned(h, i) != Owned(h, j)
  }

  /** The application's child list is what the listed calls own, without repeats. */
  ghost predicate ListExact(h: Host) {
    && h.app in h.tree.children && NoRepeats(h.tree.children[h.app])
    && (forall i :: i in h.calls && Listed(h, i) ==> Owned(h, i).Some? && Owned(h, i).value in h.tree.children[h.app])
    && (forall c :: c in h.tree.children[h.app] ==> exists i :: i in h.calls && Listed(h, i) && Owned(h, i) == Some(c))
  }

  ghost predicate OnlyAppHasChildren(h: Host) {
    forall r :: r in h.tree.children && r != h.app ==> h.tree.children[r] == []
  }

  ghost predicate AppOk(h: Host) {
    h.app in h.tree.alive && Allocated(h.tree, h.app) && h.tree.parent[h.app] == None
  }

  ghost predicate CountExact(h: Host) {
    h.active == |Holders(h.calls)| && h.active <= h.max
  }

  /** Threads that are no calls are idle, except the one shutting down; it runs alone. */
  ghost predicate ShutdownFits(h: Host) {
    && (forall t :: t in h.tree.stacks && t !in h.calls && !Shutting(h, t) ==> h.tree.stacks[t] == [])
    && (!h.shutdown.Serving? ==> !h.accepting && forall i :: i in h.calls ==> Over(h.calls[i]) || h.calls[i].Entered?)
    && match h.shutdown
       case ShutdownBegin(t) =>
         && t !in h.calls && var stack := StackOf(h.tree, t);
         |stack| == 1 && stack[0].Begin? && stack[0].scope == h.app
             && (stack[0].begin.Sweep? ==> stack[0].begin.todo == [])
       case ShutdownSwept(t) => t !in h.calls && StackOf(h.tree, t) == []
       case ShutdownFinish(t) =>
         && t !in h.calls && var stack := StackOf(h.tree, t);
         |stack| == 1 && stack[0].Finish? && stack[0].scope == h.app
             && (stack[0].finish.FinishSweep? ==> stack[0].finish.todo == [])
       case _ => true
  }

  predicate Shutting(h: Host, t: Thread) {
    match h.shutdown
    case ShutdownBegin(u) => t == u
    case ShutdownSwept(u) => t == u
    case ShutdownFinish(u) => t == u
    case _ => false
  }

  ghost predicate HostInv(h: Host) {
    && Inv(h.tree) && AppOk(h) && OnlyAppHasChildren(h)
    && (forall i :: i in h.calls ==> CallFits(h, i))
    && OwnersDiffer(h) && ListExact(h) && CountExact(h) && ShutdownFits(h)
  }

  lemma NewHostInv(app: Ref, max: nat)
    ensures HostInv(NewHost(app, max))
  {
    InitialInv(app);
    assert Holders(map[]) == {};
  }
}
