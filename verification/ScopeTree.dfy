/** Scope closure as a concurrent protocol: any number of threads run `child`,
    `begin_close` and `finish_close` on one tree of scopes, one atomic operation at a time. */
module ScopeTree {
  import opened Model

  type Ref = nat
  type Thread = nat

  datatype ChildPc =
    | CheckOpen
    | Allocate
    | LockChildren(child: Ref)
    | Recheck(child: Ref)
    | Push(child: Ref)
    | ChildDone(result: Option<Ref>)

  datatype BeginPc =
    | Swap
    | RestoreClosed
    | Snapshot
    | Sweep(todo: seq<Ref>)

  datatype FinishPc =
    | FinishSnapshot
    | FinishSweep(todo: seq<Ref>)
    | StoreClosed
    | Unregister

  /** One activation of a scope operation; `scope` is the receiver. */
  datatype Frame =
    | Child(scope: Ref, child: ChildPc)
    | Begin(scope: Ref, begin: BeginPc)
    | Finish(scope: Ref, finish: FinishPc)

  /** `alive` are the scopes that a weak reference can still upgrade to. The last three
      fields are history: the scopes ever pushed to a child list, those whose child list
      some `begin_close` has read, and those on which some `begin_close` has returned. */
  datatype State = State(
    state: map<Ref, ScopeState>,
    parent: map<Ref, Option<Ref>>,
    id: map<Ref, nat>,
    children: map<Ref, seq<Ref>>,
    alive: set<Ref>,
    nextId: nat,
    locks: map<Ref, Thread>,
    stacks: map<Thread, seq<Frame>>,
    registered: set<Ref>,
    snapshotted: set<Ref>,
    swept: set<Ref>)

  ghost predicate Allocated(st: State, r: Ref) {
    r in st.state && r in st.parent && r in st.id && r in st.children
  }

  function StackOf(st: State, t: Thread): seq<Frame> {
    if t in st.stacks then st.stacks[t] else []
  }

  function WithStack(st: State, t: Thread, stack: seq<Frame>): State {
    st.(stacks := st.stacks[t := stack])
  }

  function ReplaceTop(st: State, t: Thread, frame: Frame): State
    requires StackOf(st, t) != []
  {
    var stack := StackOf(st, t);
    WithStack(st, t, stack[..|stack| - 1] + [frame])
  }

  function Pop(st: State, t: Thread): State
    requires StackOf(st, t) != []
  {
    var stack := StackOf(st, t);
    WithStack(st, t, stack[..|stack| - 1])
  }

  function Call(st: State, t: Thread, caller: Frame, callee: Frame): State
    requires StackOf(st, t) != []
  {
    var stack := StackOf(st, t);
    WithStack(st, t, stack[..|stack| - 1] + [caller, callee])
  }

  // ----- `Scope::application` and the steps

  /** One open scope without a parent. */
  function Initial(root: Ref): State {
    State(map[root := Open], map[root := None], map[root := 0], map[root := []], {root}, 1, map[], map[], {}, {}, {})
  }

  /** A scope a frame keeps alive. */
  predicate Holds(frame: Frame, r: Ref) {
    || frame.scope == r
    || (frame.Child? && match frame.child
                        case LockChildren(c) => c == r
                        case Recheck(c) => c == r
                        case Push(c) => c == r
                        case ChildDone(result) => result == Some(r)
                        case _ => false)
  }

  datatype Action =
    | StartChild(scope: Ref)
    | StartBegin(scope: Ref)
    | StartFinish(scope: Ref)
    | Advance(slot: Ref)
    | Drop(ref: Ref)

  /** Retained entries of the parent's list: alive and not the finished scope. */
  function Retain(children: seq<Ref>, alive: set<Ref>, ids: map<Ref, nat>, gone: nat): seq<Ref> {
    if children == [] then []
    else
      var rest := Retain(children[1..], alive, ids, gone);
      var c := children[0];
      if c in alive && c in ids && ids[c] != gone then [c] + rest else rest
  }

  ghost predicate Enabled(st: State, t: Thread, a: Action) {
    match a
    case StartChild(s) => StackOf(st, t) == [] && s in st.alive && Allocated(st, s)
    case StartBegin(s) => StackOf(st, t) == [] && s in st.alive && Allocated(st, s)
    // the caller of `finish_close` has seen `begin_close` return
    case StartFinish(s) => StackOf(st, t) == [] && s in st.alive && Allocated(st, s) && s in st.swept
    case Drop(r) =>
      r in st.alive && forall u, i :: u in st.stacks && 0 <= i < |st.stacks[u]| ==> !Holds(st.stacks[u][i], r)
    case Advance(slot) => StackOf(st, t) != [] && FrameEnabled(st, t, StackOf(st, t)[|StackOf(st, t)| - 1], slot)
  }

  ghost predicate FrameEnabled(st: State, t: Thread, frame: Frame, slot: Ref) {
    && Allocated(st, frame.scope)
    && match frame
       case Child(s, pc) =>
         (match pc
          case Allocate => !(slot in st.state || slot in st.parent || slot in st.id || slot in st.children)
          case LockChildren(_) => s !in st.locks
          case _ => true)
       case Begin(s, pc) => pc.Snapshot? ==> s !in st.locks
       case Finish(s, pc) =>
         && (pc.FinishSnapshot? ==> s !in st.locks)
         && (pc.Unregister? && st.parent[s].Some? && st.parent[s].value in st.alive ==>
               Allocated(st, st.parent[s].value) && st.parent[s].value !in st.locks)
  }

  ghost function Next(st: State, t: Thread, a: Action): State
    requires Enabled(st, t, a)
  {
    match a
    case StartChild(s) => WithStack(st, t, [Child(s, CheckOpen)])
    case StartBegin(s) => WithStack(st, t, [Begin(s, Swap)])
    case StartFinish(s) => WithStack(st, t, [Finish(s, FinishSnapshot)])
    case Drop(r) => st.(alive := st.alive - {r})
    case Advance(slot) =>
      var top := StackOf(st, t)[|StackOf(st, t)| - 1];
      match top
      case Child(s, pc) => ChildStep(st, t, s, pc, slot)
      case Begin(s, pc) => BeginStep(st, t, s, pc)
      case Finish(s, pc) => FinishStep(st, t, s, pc)
  }

  function ChildStep(st: State, t: Thread, s: Ref, pc: ChildPc, slot: Ref): State
    requires StackOf(st, t) != [] && s in st.state && s in st.children
  {
    match pc
    case CheckOpen =>
      ReplaceTop(st, t, Child(s, if st.state[s] != Open then ChildDone(None) else Allocate))
    case Allocate =>
      ReplaceTop(st.(state := st.state[slot := Open], parent := st.parent[slot := Some(s)],
                     id := st.id[slot := st.nextId],
                     children := st.children[slot := []], alive := st.alive + {slot}, nextId := st.nextId + 1),
                 t, Child(s, LockChildren(slot)))
    case LockChildren(c) =>
      ReplaceTop(st.(locks := st.locks[s := t]), t, Child(s, Recheck(c)))
    case Recheck(c) =>
      if st.state[s] != Open then ReplaceTop(st.(locks := st.locks - {s}), t, Child(s, ChildDone(None)))
      else ReplaceTop(st, t, Child(s, Push(c)))
    case Push(c) =>
      ReplaceTop(st.(children := st.children[s := st.children[s] + [c]], locks := st.locks - {s},
                     registered := st.registered + {c}),
                 t, Child(s, ChildDone(Some(c))))
    case ChildDone(_) => Pop(st, t)
  }

  function BeginStep(st: State, t: Thread, s: Ref, pc: BeginPc): State
    requires StackOf(st, t) != [] && s in st.state && s in st.children
  {
    match pc
    case Swap =>
      ReplaceTop(st.(state := st.state[s := Closing]), t,
                 Begin(s, if st.state[s] == Closed then RestoreClosed else Snapshot))
    case RestoreClosed =>
      Pop(st.(state := st.state[s := Closed], swept := st.swept + {s}), t)
    case Snapshot =>
      ReplaceTop(st.(snapshotted := st.snapshotted + {s}), t, Begin(s, Sweep(st.children[s])))
    case Sweep(todo) =>
      if todo == [] then Pop(st.(swept := st.swept + {s}), t)
      else if todo[0] in st.alive then Call(st, t, Begin(s, Sweep(todo[1..])), Begin(todo[0], Swap))
      else ReplaceTop(st, t, Begin(s, Sweep(todo[1..])))
  }

  function FinishStep(st: State, t: Thread, s: Ref, pc: FinishPc): State
    requires StackOf(st, t) != [] && s in st.state && s in st.children && s in st.parent && s in st.id
    requires pc.Unregister? && st.parent[s].Some? && st.parent[s].value in st.alive ==>
        st.parent[s].value in st.children
  {
    match pc
    case FinishSnapshot => ReplaceTop(st, t, Finish(s, FinishSweep(st.children[s])))
    case FinishSweep(todo) =>
      if todo == [] then ReplaceTop(st, t, Finish(s, StoreClosed))
      else if todo[0] in st.alive then Call(st, t, Finish(s, FinishSweep(todo[1..])), Finish(todo[0], FinishSnapshot))
      else ReplaceTop(st, t, Finish(s, FinishSweep(todo[1..])))
    case StoreClosed => ReplaceTop(st.(state := st.state[s := Closed]), t, Finish(s, Unregister))
    case Unregister =>
      if st.parent[s].Some? && st.parent[s].value in st.alive then
        var p := st.parent[s].value;
        Pop(st.(children := st.children[p := Retain(st.children[p], st.alive, st.id, st.id[s])]), t)
      else
        Pop(st, t)
  }

  // ----- the invariant

  /** `c` was registered under `s` and can still be reached. */
  ghost predicate LiveChild(st: State, s: Ref, c: Ref) {
    c in st.registered && c in st.alive && c in st.parent && st.parent[c] == Some(s)
  }

  /** Every scope mentioned anywhere is fully allocated. */
  ghost predicate Known(st: State) {
    && (forall r :: r in st.alive || r in st.registered || r in st.snapshotted ==> Allocated(st, r))
    && (forall r :: r in st.state || r in st.parent || r in st.id || r in st.children ==> Allocated(st, r))
    && (forall r :: r in st.parent && st.parent[r].Some? ==> Allocated(st, st.parent[r].value))
  }

  /** Child lists hold registered children of their scope. */
  ghost predicate Linked(st: State) {
    forall s, c :: s in st.children && c in st.children[s] ==>
        c in st.registered && c in st.parent && st.parent[c] == Some(s)
  }

  /** Identities are distinct, and below the shared counter. */
  ghost predicate DistinctIds(st: State) {
    && (forall r :: r in st.id ==> st.id[r] < st.nextId)
    && (forall r, q :: r in st.id && q in st.id && st.id[r] == st.id[q] ==> r == q)
  }

  ghost predicate TreeOk(st: State) {
    Known(st) && Linked(st) && DistinctIds(st)
  }

  /** Swept scopes were snapshotted, snapshotted ones are not open, closed ones were swept. */
  ghost predicate StatesOk(st: State) {
    && st.swept <= st.snapshotted
    && (forall r :: r in st.snapshotted && r in st.state ==> st.state[r] != Open)
    && (forall r :: r in st.state && st.state[r] == Closed ==> r in st.swept)
  }

  /** A live child is in its parent's list, or has been swept. */
  ghost predicate Findable(st: State) {
    forall s, c :: LiveChild(st, s, c) ==> (s in st.children && c in st.children[s]) || c in st.swept
  }

  /** The live children of a swept scope are swept. */
  ghost predicate Sealed(st: State) {
    forall s, c :: s in st.swept && LiveChild(st, s, c) ==> c in st.swept
  }

  ghost predicate ClosureOk(st: State) {
    StatesOk(st) && Findable(st) && Sealed(st)
  }

  /** A child list is locked exactly by the thread that is between its lock and its push. */
  ghost predicate LocksFit(locks: map<Ref, Thread>, stacks: map<Thread, seq<Frame>>) {
    && (forall s :: s in locks ==> locks[s] in stacks && HoldsLock(stacks[locks[s]], s))
    && (forall t, s :: t in stacks && HoldsLock(stacks[t], s) ==> s in locks && locks[s] == t)
  }

  ghost predicate HoldsLock(stack: seq<Frame>, s: Ref) {
    && |stack| == 1 && stack[0].Child? && stack[0].scope == s
    && (stack[0].child.Recheck? || stack[0].child.Push?)
  }

  /** Every live registered child of `s` is swept, still to be swept, or being swept. */
  ghost predicate Covered(st: State, s: Ref, todo: seq<Ref>, callee: Option<Ref>) {
    forall c :: LiveChild(st, s, c) ==> c in st.swept || c in todo || callee == Some(c)
  }

  /** What holds of a frame: `callee` is the frame above it, `depth` the stack's height. */
  ghost predicate FrameFits(st: State, frame: Frame, callee: Option<Frame>, depth: nat) {
    && frame.scope in st.alive
    && match frame
       case Child(s, pc) => depth == 1 && ChildFits(st, s, pc)
       case Begin(s, pc) => (callee.Some? ==> pc.Sweep? && callee.value.Begin?) && BeginFits(st, s, pc, callee)
       case Finish(s, pc) => (callee.Some? ==> pc.FinishSweep? && callee.value.Finish?) && FinishFits(st, s, pc)
  }

  ghost predicate IsChildOf(st: State, c: Ref, s: Ref) {
    c in st.alive && c in st.parent && st.parent[c] == Some(s)
  }

  ghost predicate ChildFits(st: State, s: Ref, pc: ChildPc) {
    match pc
    case CheckOpen => true
    case Allocate => true
    case LockChildren(c) => IsChildOf(st, c, s)
    case Recheck(c) => IsChildOf(st, c, s)
    case Push(c) => IsChildOf(st, c, s) && s !in st.snapshotted
    case ChildDone(result) => result.Some? ==> result.value in st.alive
  }

  ghost predicate BeginFits(st: State, s: Ref, pc: BeginPc, callee: Option<Frame>) {
    match pc
    case Swap => true
    case RestoreClosed => s in st.swept
    case Snapshot => s in st.state && st.state[s] != Open
    case Sweep(todo) =>
      && s in st.snapshotted && Covered(st, s, todo, if callee.Some? then Some(callee.value.scope) else None)
      && forall c :: c in todo ==> Allocated(st, c)
  }

  ghost predicate FinishFits(st: State, s: Ref, pc: FinishPc) {
    && s in st.swept
    && (pc.FinishSweep? ==> forall c :: c in pc.todo ==> Allocated(st, c) && (c in st.alive ==> c in st.swept))
  }

  ghost predicate FrameOk(st: State, stack: seq<Frame>, i: nat)
    requires i < |stack|
  {
    FrameFits(st, stack[i], if i + 1 < |stack| then Some(stack[i + 1]) else None, |stack|)
  }

  ghost predicate StackOk(st: State, stack: seq<Frame>) {
    forall i :: 0 <= i < |stack| ==> FrameOk(st, stack, i)
  }

  ghost predicate Inv(st: State) {
    && TreeOk(st) && ClosureOk(st) && LocksFit(st.locks, st.stacks)
    && forall t :: t in st.stacks ==> StackOk(st, st.stacks[t])
  }

  lemma InitialInv(root: Ref)
    ensures Inv(Initial(root))
  {
  }
}
