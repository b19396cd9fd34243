/** Every step of the scope protocol keeps the invariant of `ScopeTree`. */
module ScopeClosure {
  import opened Model
  import opened ScopeTree

  /** How the shared state may change in one step. */
  ghost predicate Evolves(st: State, n: State) {
    && (forall r :: Allocated(st, r) ==> Allocated(n, r) && n.parent[r] == st.parent[r] && n.id[r] == st.id[r])
    && (forall r :: Allocated(st, r) && st.state[r] != Open ==> n.state[r] != Open)
    && st.swept <= n.swept && st.registered <= n.registered && st.snapshotted <= n.snapshotted
    && (forall r :: r in n.alive && r !in st.alive ==> !Allocated(st, r) && r !in n.registered)
    && (forall c :: c in n.registered && c !in st.registered ==>
          Allocated(st, c) && st.parent[c].Some? && st.parent[c].value !in st.snapshotted)
    && (forall r :: r in n.snapshotted && r !in st.snapshotted ==> r !in st.locks)
  }

  ghost predicate KeepsHeld(st: State, n: State, stack: seq<Frame>) {
    forall r, i :: r in st.alive && 0 <= i < |stack| && Holds(stack[i], r) ==> r in n.alive
  }

  lemma LiveChildWas(st: State, n: State, s: Ref, c: Ref)
    requires TreeOk(st) && Evolves(st, n) && LiveChild(n, s, c)
    ensures LiveChild(st, s, c) || (c !in st.registered && s !in st.snapshotted)
  {
  }

  /** Frames of a stack that does not move stay in order while the shared state evolves. */
  lemma FrameStable(st: State, n: State, stack: seq<Frame>, i: nat)
    requires TreeOk(st) && Evolves(st, n) && i < |stack| && FrameOk(st, stack, i)
    requires KeepsHeld(st, n, stack)
    requires forall s :: HoldsLock(stack, s) ==> s in st.locks
    ensures FrameOk(n, stack, i)
  {
    var f := stack[i];
    assert Holds(f, f.scope);
    match f {
      case Child(s, pc) => ChildStable(st, n, stack);
      case Begin(s, pc) =>
        BeginStable(st, n, s, pc, if i + 1 < |stack| then Some(stack[i + 1]) else None);
      case Finish(s, pc) => FinishStable(st, n, s, pc);
    }
    hide Evolves, TreeOk, ChildFits, BeginFits, FinishFits;
  }

  lemma ChildStable(st: State, n: State, stack: seq<Frame>)
    requires TreeOk(st) && Evolves(st, n) && KeepsHeld(st, n, stack)
    requires |stack| == 1 && stack[0].Child? && ChildFits(st, stack[0].scope, stack[0].child)
    requires forall s :: HoldsLock(stack, s) ==> s in st.locks
    ensures ChildFits(n, stack[0].scope, stack[0].child)
  {
    var s := stack[0].scope;
    match stack[0].child {
      case LockChildren(c) => assert Holds(stack[0], c);
      case Recheck(c) => assert Holds(stack[0], c);
      case Push(c) => assert Holds(stack[0], c); assert HoldsLock(stack, s);
      case ChildDone(result) => if result.Some? { assert Holds(stack[0], result.value); }
      case _ =>
    }
  }

  lemma BeginStable(st: State, n: State, s: Ref, pc: BeginPc, callee: Option<Frame>)
    requires TreeOk(st) && Evolves(st, n) && BeginFits(st, s, pc, callee)
    ensures BeginFits(n, s, pc, callee)
  {
    if pc.Sweep? {
      CoveredStable(st, n, s, pc.todo, if callee.Some? then Some(callee.value.scope) else None);
      hide Covered;
    }
  }

  lemma FinishStable(st: State, n: State, s: Ref, pc: FinishPc)
    requires TreeOk(st) && Evolves(st, n) && FinishFits(st, s, pc)
    ensures FinishFits(n, s, pc)
  {
  }

  lemma CoveredStable(st: State, n: State, s: Ref, todo: seq<Ref>, callee: Option<Ref>)
    requires TreeOk(st) && Evolves(st, n) && s in st.snapshotted && Covered(st, s, todo, callee)
    ensures Covered(n, s, todo, callee)
  {
    forall c | LiveChild(n, s, c)
      ensures c in n.swept || c in todo || callee == Some(c)
    {
      LiveChildWas(st, n, s, c);
    }
  }

  lemma StackStable(st: State, n: State, stack: seq<Frame>)
    requires TreeOk(st) && Evolves(st, n) && StackOk(st, stack) && KeepsHeld(st, n, stack)
    requires forall s :: HoldsLock(stack, s) ==> s in st.locks
    ensures StackOk(n, stack)
  {
    forall i | 0 <= i < |stack|
      ensures FrameOk(n, stack, i)
    {
      FrameStable(st, n, stack, i);
    }
  }

  /** Only the stack of the stepping thread changes. */
  ghost predicate OnlyMoves(st: State, n: State, t: Thread) {
    && (forall u :: u in st.stacks ==> u in n.stacks)
    && (forall u :: u in n.stacks && u != t ==> u in st.stacks && n.stacks[u] == st.stacks[u])
  }

  /** The four parts of the invariant, put together from what one step does. */
  lemma Assemble(st: State, n: State, t: Thread)
    requires Inv(st) && TreeOk(n) && ClosureOk(n) && LocksFit(n.locks, n.stacks) && Evolves(st, n)
    requires OnlyMoves(st, n, t)
    requires forall u :: u in st.stacks && u != t ==> KeepsHeld(st, n, st.stacks[u])
    requires StackOk(n, StackOf(n, t))
    ensures Inv(n)
  {
    hide TreeOk, ClosureOk, Evolves, FrameOk, StackOk, KeepsHeld, LocksFit;
    forall u | u in n.stacks
      ensures StackOk(n, n.stacks[u])
    {
      if u != t {
        LockIsOwned(st, u);
        StackStable(st, n, st.stacks[u]);
      }
    }
  }

  lemma LockIsOwned(st: State, u: Thread)
    requires LocksFit(st.locks, st.stacks) && u in st.stacks
    ensures forall s :: HoldsLock(st.stacks[u], s) ==> s in st.locks
  {
  }

  /** Equal up to stacks and locks. */
  ghost predicate SameShared(st: State, n: State) {
    && n.state == st.state && n.parent == st.parent && n.id == st.id && n.children == st.children && n.alive == st.alive
    && n.nextId == st.nextId && n.registered == st.registered && n.snapshotted == st.snapshotted && n.swept == st.swept
  }

  lemma SameSharedKeeps(st: State, n: State)
    requires SameShared(st, n)
    ensures TreeOk(st) ==> TreeOk(n)
    ensures ClosureOk(st) ==> ClosureOk(n)
    ensures Evolves(st, n)
  {
    if TreeOk(st) { SameTree(st, n); }
    if ClosureOk(st) { SameClosure(st, n); }
    hide TreeOk, ClosureOk;
  }

  lemma SameTree(st: State, n: State)
    requires SameShared(st, n) && TreeOk(st)
    ensures TreeOk(n)
  {
    SameKnown(st, n);
    hide Known;
  }

  lemma SameKnown(st: State, n: State)
    requires n.state == st.state && n.parent == st.parent && n.id == st.id && n.children.Keys == st.children.Keys
    requires n.alive <= st.alive && n.registered == st.registered && n.snapshotted == st.snapshotted && Known(st)
    ensures Known(n)
  {
    forall r ensures Allocated(n, r) <==> Allocated(st, r) {}
    hide Allocated;
  }

  lemma SameClosure(st: State, n: State)
    requires SameShared(st, n) && ClosureOk(st)
    ensures ClosureOk(n)
  {
    SameFindable(st, n);
    hide Findable, Sealed;
  }

  /** Fewer live children, the same lists and at least as much swept. */
  lemma SameFindable(st: State, n: State)
    requires n.children == st.children && n.swept == st.swept && n.parent == st.parent && n.registered == st.registered
    requires n.alive <= st.alive
    ensures Findable(st) ==> Findable(n)
    ensures Sealed(st) ==> Sealed(n)
  {
    forall s, c | LiveChild(n, s, c) ensures LiveChild(st, s, c) {}
    hide LiveChild;
  }

  lemma SharedKeepsHeld(st: State, n: State, stack: seq<Frame>)
    requires st.alive <= n.alive
    ensures KeepsHeld(st, n, stack)
  {
  }

  ghost predicate NoLock(stack: seq<Frame>) {
    forall s :: !HoldsLock(stack, s)
  }

  lemma LocksUntouched(st: State, n: State, t: Thread)
    requires LocksFit(st.locks, st.stacks) && n.locks == st.locks && OnlyMoves(st, n, t)
    requires NoLock(StackOf(st, t)) && NoLock(StackOf(n, t))
    ensures LocksFit(n.locks, n.stacks)
  {
    forall u, s | u in n.stacks && HoldsLock(n.stacks[u], s)
      ensures s in n.locks && n.locks[s] == u
    {
      assert u != t && HoldsLock(st.stacks[u], s);
    }
    forall s | s in n.locks
      ensures n.locks[s] in n.stacks && HoldsLock(n.stacks[n.locks[s]], s)
    {
      assert HoldsLock(st.stacks[st.locks[s]], s);
    }
  }

  lemma LockTaken(st: State, n: State, t: Thread, s: Ref)
    requires LocksFit(st.locks, st.stacks) && OnlyMoves(st, n, t) && s !in st.locks && n.locks == st.locks[s := t]
    requires NoLock(StackOf(st, t)) && t in n.stacks && HoldsLock(n.stacks[t], s)
    ensures LocksFit(n.locks, n.stacks)
  {
    forall u, r | u in n.stacks && HoldsLock(n.stacks[u], r)
      ensures r in n.locks && n.locks[r] == u
    {
      if u != t { assert HoldsLock(st.stacks[u], r); }
    }
    forall r | r in n.locks
      ensures n.locks[r] in n.stacks && HoldsLock(n.stacks[n.locks[r]], r)
    {
      if r != s { assert HoldsLock(st.stacks[st.locks[r]], r); }
    }
  }

  lemma LockReleased(st: State, n: State, t: Thread, s: Ref)
    requires LocksFit(st.locks, st.stacks) && OnlyMoves(st, n, t) && n.locks == st.locks - {s}
    requires HoldsLock(StackOf(st, t), s) && t in st.stacks && NoLock(StackOf(n, t))
    ensures LocksFit(n.locks, n.stacks)
  {
    assert HoldsLock(st.stacks[t], s);
    forall u, r | u in n.stacks && HoldsLock(n.stacks[u], r)
      ensures r in n.locks && n.locks[r] == u
    {
      assert u != t && HoldsLock(st.stacks[u], r);
      assert st.locks[r] == u && st.locks[s] == t;
    }
    forall r | r in n.locks
      ensures n.locks[r] in n.stacks && HoldsLock(n.stacks[n.locks[r]], r)
    {
      assert HoldsLock(st.stacks[st.locks[r]], r);
    }
  }

  lemma LockKept(st: State, n: State, t: Thread, s: Ref)
    requires LocksFit(st.locks, st.stacks) && OnlyMoves(st, n, t) && n.locks == st.locks
    requires t in st.stacks && t in n.stacks && HoldsLock(st.stacks[t], s) && HoldsLock(n.stacks[t], s)
    ensures LocksFit(n.locks, n.stacks)
  {
    forall u, r | u in n.stacks && HoldsLock(n.stacks[u], r)
      ensures r in n.locks && n.locks[r] == u
    {
      if u != t { assert HoldsLock(st.stacks[u], r); }
    }
    forall r | r in n.locks
      ensures n.locks[r] in n.stacks && HoldsLock(n.stacks[n.locks[r]], r)
    {
      assert HoldsLock(st.stacks[st.locks[r]], r);
    }
  }

  // ----- starting an operation, dropping a handle

  lemma StartKeepsInv(st: State, t: Thread, frame: Frame)
    requires Inv(st) && StackOf(st, t) == [] && frame.scope in st.alive
    requires frame == Child(frame.scope, CheckOpen) || frame == Begin(frame.scope, Swap)
             || (frame == Finish(frame.scope, FinishSnapshot) && frame.scope in st.swept)
    ensures Inv(WithStack(st, t, [frame]))
  {
    var n := WithStack(st, t, [frame]);
    assert FrameOk(n, [frame], 0);
    hide Inv, FrameOk;
    MoveKeepsInv(st, n, t);
  }

  lemma DropKeepsInv(st: State, r: Ref)
    requires Inv(st) && r in st.alive
    requires forall u, i :: u in st.stacks && 0 <= i < |st.stacks[u]| ==> !Holds(st.stacks[u][i], r)
    ensures Inv(st.(alive := st.alive - {r}))
  {
    var n := st.(alive := st.alive - {r});
    hide TreeOk, ClosureOk, Evolves, StackOk, Holds, LocksFit;
    DropKeepsShared(st, r);
    DropEvolves(st, r);
    forall u | u in n.stacks
      ensures StackOk(n, n.stacks[u])
    {
      DropKeepsStack(st, r, u);
    }
  }

  lemma DropKeepsShared(st: State, r: Ref)
    requires TreeOk(st) && ClosureOk(st)
    ensures TreeOk(st.(alive := st.alive - {r})) && ClosureOk(st.(alive := st.alive - {r}))
  {
    var n := st.(alive := st.alive - {r});
    SameKnown(st, n);
    SameFindable(st, n);
    hide Known, Findable, Sealed;
  }

  lemma DropEvolves(st: State, r: Ref)
    ensures Evolves(st, st.(alive := st.alive - {r}))
  {
  }

  lemma DropKeepsStack(st: State, r: Ref, u: Thread)
    requires TreeOk(st) && LocksFit(st.locks, st.stacks) && u in st.stacks && StackOk(st, st.stacks[u])
    requires forall i :: 0 <= i < |st.stacks[u]| ==> !Holds(st.stacks[u][i], r)
    requires Evolves(st, st.(alive := st.alive - {r}))
    ensures StackOk(st.(alive := st.alive - {r}), st.stacks[u])
  {
    LockIsOwned(st, u);
    hide Evolves, TreeOk, StackOk, Holds, LocksFit;
    StackStable(st, st.(alive := st.alive - {r}), st.stacks[u]);
  }

  // ----- stacks of the stepping thread

  /** The frames below the top, when the top stays an activation on the same scope. */
  lemma LowerFramesOk(st: State, n: State, stack: seq<Frame>, moved: seq<Frame>)
    requires TreeOk(st) && Evolves(st, n) && st.alive <= n.alive && StackOk(st, stack) && NoLock(stack)
    requires 0 < |stack| <= |moved| && moved[..|stack| - 1] == stack[..|stack| - 1]
    requires var top, new_ := stack[|stack| - 1], moved[|stack| - 1];
             new_.scope == top.scope && new_.Begin? == top.Begin? && new_.Finish? == top.Finish?
    ensures forall i :: 0 <= i < |stack| - 1 ==> FrameOk(n, moved, i)
  {
    hide Evolves, TreeOk;
    forall i | 0 <= i < |stack| - 1
      ensures FrameOk(n, moved, i)
    {
      assert moved[i] == stack[..|stack| - 1][i] == stack[i];
      assert i + 1 < |stack| - 1 ==> moved[i + 1] == stack[..|stack| - 1][i + 1] == stack[i + 1];
      FrameStable(st, n, stack, i);
    }
  }

  lemma ReplaceTopOk(st: State, n: State, stack: seq<Frame>, frame: Frame)
    requires TreeOk(st) && Evolves(st, n) && st.alive <= n.alive && StackOk(st, stack) && |stack| > 0 && NoLock(stack)
    requires var top := stack[|stack| - 1];
             frame.scope == top.scope && frame.Begin? == top.Begin? && frame.Finish? == top.Finish?
    requires FrameOk(n, stack[..|stack| - 1] + [frame], |stack| - 1)
    ensures StackOk(n, stack[..|stack| - 1] + [frame])
  {
    hide FrameOk, Evolves, TreeOk;
    LowerFramesOk(st, n, stack, stack[..|stack| - 1] + [frame]);
  }

  lemma PopOk(st: State, n: State, stack: seq<Frame>)
    requires TreeOk(st) && Evolves(st, n) && st.alive <= n.alive && StackOk(st, stack) && |stack| > 0
    requires NoLock(stack)
    requires var top := stack[|stack| - 1]; top.Begin? ==> top.scope in n.swept
    ensures StackOk(n, stack[..|stack| - 1])
  {
    var last := |stack| - 1;
    hide Evolves, TreeOk;
    forall i | 0 <= i < last
      ensures FrameOk(n, stack[..last], i)
    {
      FrameStable(st, n, stack, i);
      assert FrameOk(n, stack, i);
    }
  }

  lemma CallOk(st: State, n: State, stack: seq<Frame>, caller: Frame, callee: Frame)
    requires TreeOk(st) && Evolves(st, n) && st.alive <= n.alive && StackOk(st, stack) && |stack| > 0 && NoLock(stack)
    requires var top := stack[|stack| - 1];
             caller.scope == top.scope && caller.Begin? == top.Begin? && caller.Finish? == top.Finish?
    requires FrameOk(n, stack[..|stack| - 1] + [caller, callee], |stack| - 1)
    requires FrameOk(n, stack[..|stack| - 1] + [caller, callee], |stack|)
    ensures StackOk(n, stack[..|stack| - 1] + [caller, callee])
  {
    hide FrameOk, Evolves, TreeOk;
    LowerFramesOk(st, n, stack, stack[..|stack| - 1] + [caller, callee]);
  }

  /** A step that leaves the shared state and the locks alone. */
  lemma MoveKeepsInv(st: State, n: State, t: Thread)
    requires Inv(st) && SameShared(st, n) && n.locks == st.locks && OnlyMoves(st, n, t)
    requires NoLock(StackOf(st, t)) && NoLock(StackOf(n, t)) && StackOk(n, StackOf(n, t))
    ensures Inv(n)
  {
    SameSharedKeeps(st, n);
    LocksUntouched(st, n, t);
    ShareKeepsInv(st, n, t);
  }

  /** A step whose effects on the shared state, the locks and its own stack are in order. */
  lemma ShareKeepsInv(st: State, n: State, t: Thread)
    requires Inv(st) && TreeOk(n) && ClosureOk(n) && Evolves(st, n) && st.alive <= n.alive
    requires OnlyMoves(st, n, t) && LocksFit(n.locks, n.stacks) && StackOk(n, StackOf(n, t))
    ensures Inv(n)
  {
    hide TreeOk, ClosureOk, LocksFit, Evolves, StackOk;
    forall u | u in st.stacks ensures KeepsHeld(st, n, st.stacks[u]) { SharedKeepsHeld(st, n, st.stacks[u]); }
    Assemble(st, n, t);
  }

  /** A step of one frame on the shared state that keeps the locks. */
  lemma FrameStepKeepsInv(st: State, n: State, t: Thread)
    requires Inv(st) && TreeOk(n) && ClosureOk(n) && Evolves(st, n) && st.alive <= n.alive
    requires n.locks == st.locks && OnlyMoves(st, n, t) && NoLock(StackOf(st, t)) && NoLock(StackOf(n, t))
    requires StackOk(n, StackOf(n, t))
    ensures Inv(n)
  {
    hide TreeOk, ClosureOk, Evolves, StackOk;
    LocksUntouched(st, n, t);
    ShareKeepsInv(st, n, t);
  }

  lemma StackIsOk(st: State, t: Thread)
    requires Inv(st) && StackOf(st, t) != []
    ensures t in st.stacks && StackOk(st, StackOf(st, t))
    ensures FrameFits(st, StackOf(st, t)[|StackOf(st, t)| - 1], None, |StackOf(st, t)|)
  {
    assert FrameOk(st, StackOf(st, t), |StackOf(st, t)| - 1);
  }

  lemma InvHolds(st: State)
    requires Inv(st)
    ensures TreeOk(st) && ClosureOk(st) && LocksFit(st.locks, st.stacks)
  {
  }

  // ----- begin_close

  /** The set of allocated scopes and their links are the same. */
  ghost predicate SameNodes(st: State, m: State) {
    && m.state.Keys == st.state.Keys && m.parent == st.parent && m.id == st.id && m.children.Keys == st.children.Keys
    && m.alive == st.alive && m.nextId == st.nextId && m.registered == st.registered
  }

  lemma NodesKeepKnown(st: State, m: State)
    requires SameNodes(st, m) && Known(st) && forall r :: r in m.snapshotted ==> r in st.snapshotted || Allocated(st, r)
    ensures Known(m)
  {
    forall r ensures Allocated(m, r) <==> Allocated(st, r) {}
    hide Allocated, SameNodes;
  }

  lemma NodesEvolve(st: State, m: State)
    requires SameNodes(st, m) && st.swept <= m.swept && st.snapshotted <= m.snapshotted
    requires forall r :: r in st.state && st.state[r] != Open ==> m.state[r] != Open
    requires forall r :: r in m.snapshotted && r !in st.snapshotted ==> r !in st.locks
    ensures Evolves(st, m)
  {
    forall r | Allocated(st, r) ensures Allocated(m, r) && m.parent[r] == st.parent[r] && m.id[r] == st.id[r] {}
    hide Allocated;
  }

  lemma TreeFrom(m: State)
    requires Known(m) && Linked(m) && DistinctIds(m) && StatesOk(m) && Findable(m) && Sealed(m)
    ensures TreeOk(m) && ClosureOk(m)
  {
    hide Known, Linked, DistinctIds, StatesOk, Findable, Sealed;
  }

  lemma NodesKeepLinks(st: State, m: State)
    requires SameNodes(st, m) && m.children == st.children && Linked(st) && DistinctIds(st)
    ensures Linked(m) && DistinctIds(m)
  {
  }

  /** Storing `Closing`, or `Closed` on a swept scope. */
  lemma StoreKeepsShared(st: State, s: Ref, v: ScopeState)
    requires TreeOk(st) && ClosureOk(st) && Allocated(st, s) && v != Open && (v == Closed ==> s in st.swept)
    ensures var n := st.(state := st.state[s := v]); TreeOk(n) && ClosureOk(n) && Evolves(st, n)
  {
    var n := st.(state := st.state[s := v]);
    hide Known, Findable, Sealed, Evolves, StatesOk, Linked, DistinctIds;
    NodesKeepKnown(st, n);
    NodesKeepLinks(st, n);
    SameFindable(st, n);
    NodesEvolve(st, n);
    StoreStatesOk(st, s, v);
    TreeFrom(n);
  }

  lemma StoreStatesOk(st: State, s: Ref, v: ScopeState)
    requires StatesOk(st) && v != Open && (v == Closed ==> s in st.swept)
    ensures StatesOk(st.(state := st.state[s := v]))
  {
  }

  lemma SwapKeepsInv(st: State, t: Thread, s: Ref)
    requires Inv(st) && StackOf(st, t) != [] && Top(st, t) == Begin(s, Swap) && Allocated(st, s)
    ensures Inv(BeginStep(st, t, s, Swap))
  {
    hide Inv, TreeOk, ClosureOk, Evolves, StackOk, LocksFit, Covered, ReplaceTop;
    var frame := Begin(s, if st.state[s] == Closed then RestoreClosed else Snapshot);
    var m := st.(state := st.state[s := Closing]);
    InvHolds(st);
    StackIsOk(st, t);
    ClosedIsSwept(st, s);
    StoreKeepsShared(st, s, Closing);
    ReplaceStep(st, m, t, frame);
  }

  lemma ClosedIsSwept(st: State, s: Ref)
    requires ClosureOk(st) && s in st.state
    ensures st.state[s] == Closed ==> s in st.swept
    ensures s in st.snapshotted ==> st.state[s] != Open
    ensures s in st.swept ==> s in st.snapshotted
  {
  }

  ghost predicate Continues(top: Frame, frame: Frame) {
    frame.scope == top.scope && !frame.Child? && frame.Begin? == top.Begin? && frame.Finish? == top.Finish?
  }

  function Top(st: State, t: Thread): Frame
    requires StackOf(st, t) != []
  {
    StackOf(st, t)[|StackOf(st, t)| - 1]
  }

  lemma NoLockOnTop(stack: seq<Frame>)
    requires stack != [] && !stack[|stack| - 1].Child?
    ensures NoLock(stack)
  {
  }

  /** The top frame moves on within the same activation. */
  lemma ReplaceStep(st: State, m: State, t: Thread, frame: Frame)
    requires Inv(st) && TreeOk(m) && ClosureOk(m) && Evolves(st, m) && st.alive <= m.alive && m.locks == st.locks
    requires m.stacks == st.stacks
    requires StackOf(st, t) != [] && Continues(Top(st, t), frame) && FrameFits(m, frame, None, |StackOf(st, t)|)
    ensures Inv(ReplaceTop(m, t, frame))
  {
    var stack := StackOf(st, t);
    StackIsOk(st, t);
    hide TreeOk, ClosureOk, Evolves, FrameFits, StackOk, LocksFit, HoldsLock, NoLock;
    ReplacedIsOk(st, m, stack, frame);
    OwnStep(st, m, ReplaceTop(m, t, frame), t, stack[..|stack| - 1] + [frame]);
  }

  lemma ReplacedIsOk(st: State, m: State, stack: seq<Frame>, frame: Frame)
    requires TreeOk(st) && Evolves(st, m) && st.alive <= m.alive && StackOk(st, stack)
    requires stack != [] && Continues(stack[|stack| - 1], frame) && FrameFits(m, frame, None, |stack|)
    ensures NoLock(stack) && NoLock(stack[..|stack| - 1] + [frame]) && StackOk(m, stack[..|stack| - 1] + [frame])
  {
    hide TreeOk, Evolves, FrameFits, StackOk, HoldsLock;
    NoLockOnTop(stack);
    NoLockOnTop(stack[..|stack| - 1] + [frame]);
    ReplaceTopOk(st, m, stack, frame);
  }

  /** `n` is `m` with the stack of `t` replaced. */
  lemma OwnStep(st: State, m: State, n: State, t: Thread, moved: seq<Frame>)
    requires Inv(st) && TreeOk(m) && ClosureOk(m) && Evolves(st, m) && st.alive <= m.alive
    requires m.locks == st.locks && m.stacks == st.stacks && n == WithStack(m, t, moved)
    requires NoLock(StackOf(st, t)) && NoLock(moved) && StackOk(m, moved)
    ensures Inv(n)
  {
    hide TreeOk, ClosureOk, Evolves, StackOk;
    AfterMove(st, m, n, moved);
    FrameStepKeepsInv(st, n, t);
  }

  lemma EvolvesThen(st: State, m: State, n: State)
    requires Evolves(st, m) && SameShared(m, n)
    ensures Evolves(st, n)
  {
    forall r ensures Allocated(n, r) <==> Allocated(m, r) {}
  }

  lemma SameStackOk(m: State, n: State, stack: seq<Frame>)
    requires SameShared(m, n) && StackOk(m, stack)
    ensures StackOk(n, stack)
  {
    forall s, c ensures LiveChild(n, s, c) <==> LiveChild(m, s, c) {}
    forall i | 0 <= i < |stack|
      ensures FrameOk(n, stack, i)
    {
      assert FrameOk(m, stack, i);
    }
  }

  /** The top activation returns. */
  lemma PopStep(st: State, m: State, t: Thread)
    requires Inv(st) && TreeOk(m) && ClosureOk(m) && Evolves(st, m) && st.alive <= m.alive && m.locks == st.locks
    requires m.stacks == st.stacks
    requires var stack := StackOf(st, t);
             stack != [] && NoLock(stack) && var top := stack[|stack| - 1]; top.Begin? ==> top.scope in m.swept
    ensures Inv(Pop(m, t))
  {
    var stack := StackOf(st, t);
    var moved := stack[..|stack| - 1];
    StackIsOk(st, t);
    hide TreeOk, ClosureOk, Evolves, LocksFit;
    assert NoLock(moved) by {
      if |moved| == 1 { assert FrameOk(st, stack, 0); }
    }
    PopOk(st, m, stack);
    hide FrameOk, StackOk;
    OwnStep(st, m, Pop(m, t), t, moved);
  }

  /** The top activation calls itself on a child. */
  lemma CallStep(st: State, t: Thread, caller: Frame, callee: Frame)
    requires Inv(st) && StackOf(st, t) != [] && Continues(Top(st, t), caller) && !callee.Child?
    requires FrameFits(st, caller, Some(callee), |StackOf(st, t)| + 1)
    requires FrameFits(st, callee, None, |StackOf(st, t)| + 1)
    ensures Inv(Call(st, t, caller, callee))
  {
    var stack := StackOf(st, t);
    var moved := stack[..|stack| - 1] + [caller, callee];
    StackIsOk(st, t);
    SameSharedKeeps(st, st);
    hide TreeOk, ClosureOk, Evolves, FrameFits, StackOk, LocksFit, HoldsLock;
    NoLockOnTop(stack);
    NoLockOnTop(moved);
    CallOk(st, st, stack, caller, callee);
    OwnStep(st, st, Call(st, t, caller, callee), t, moved);
  }

  lemma RestoreKeepsInv(st: State, t: Thread, s: Ref)
    requires Inv(st) && StackOf(st, t) != [] && Top(st, t) == Begin(s, RestoreClosed) && Allocated(st, s)
    ensures Inv(BeginStep(st, t, s, RestoreClosed))
  {
    hide Inv, TreeOk, ClosureOk, Evolves, StackOk, LocksFit, Pop;
    InvHolds(st);
    StackIsOk(st, t);
    NoLockOnTop(StackOf(st, t));
    var m := st.(state := st.state[s := Closed]);
    assert st.swept + {s} == st.swept;
    StoreKeepsShared(st, s, Closed);
    PopStep(st, m, t);
  }

  lemma SnapshotKeepsShared(st: State, s: Ref)
    requires TreeOk(st) && ClosureOk(st) && Allocated(st, s) && st.state[s] != Open && s !in st.locks
    ensures var m := st.(snapshotted := st.snapshotted + {s}); TreeOk(m) && ClosureOk(m) && Evolves(st, m)
  {
    var m := st.(snapshotted := st.snapshotted + {s});
    hide Known, Findable, Sealed, Evolves, Linked, DistinctIds;
    NodesKeepKnown(st, m);
    NodesKeepLinks(st, m);
    SameFindable(st, m);
    NodesEvolve(st, m);
    TreeFrom(m);
  }

  /** After the snapshot every live registered child is in the list that will be swept. */
  lemma SnapshotCovers(st: State, s: Ref)
    requires TreeOk(st) && ClosureOk(st) && Allocated(st, s)
    ensures Covered(st, s, st.children[s], None)
    ensures forall c :: c in st.children[s] ==> Allocated(st, c)
    ensures s in st.swept ==> forall c :: c in st.children[s] && c in st.alive ==> c in st.swept
  {
    forall c | c in st.children[s]
      ensures c in st.registered && c in st.parent && st.parent[c] == Some(s)
    {
    }
    forall c | c in st.children[s] && c in st.alive
      ensures LiveChild(st, s, c)
    {
    }
  }

  lemma SnapshotKeepsInv(st: State, t: Thread, s: Ref)
    requires Inv(st) && StackOf(st, t) != [] && Top(st, t) == Begin(s, Snapshot)
    requires Allocated(st, s) && s !in st.locks
    ensures Inv(BeginStep(st, t, s, Snapshot))
  {
    var frame := Begin(s, Sweep(st.children[s]));
    var m := st.(snapshotted := st.snapshotted + {s});
    StackIsOk(st, t);
    hide TreeOk, ClosureOk, Evolves, StackOk, LocksFit;
    SnapshotKeepsShared(st, s);
    SnapshotCovers(m, s);
    hide Covered;
    ReplaceStep(st, m, t, frame);
  }

  lemma SweptKeepsShared(st: State, s: Ref)
    requires TreeOk(st) && ClosureOk(st) && s in st.snapshotted && Covered(st, s, [], None)
    ensures var m := st.(swept := st.swept + {s}); TreeOk(m) && ClosureOk(m) && Evolves(st, m)
  {
    hide Known, Findable, Sealed, Evolves, Linked, DistinctIds, Covered, StatesOk;
    var m := st.(swept := st.swept + {s});
    SweptSeals(st, s);
    NodesKeepKnown(st, m);
    NodesKeepLinks(st, m);
    NodesEvolve(st, m);
    SweptStates(st, s);
    TreeFrom(m);
  }

  lemma SweptStates(st: State, s: Ref)
    requires StatesOk(st) && s in st.snapshotted
    ensures StatesOk(st.(swept := st.swept + {s}))
  {
  }

  lemma SweptSeals(st: State, s: Ref)
    requires Findable(st) && Sealed(st) && Covered(st, s, [], None)
    ensures var m := st.(swept := st.swept + {s}); Findable(m) && Sealed(m)
  {
    var m := st.(swept := st.swept + {s});
    forall p, c ensures LiveChild(m, p, c) <==> LiveChild(st, p, c) {}
    hide LiveChild;
  }

  ghost predicate AtBegin(st: State, t: Thread, s: Ref, pc: BeginPc) {
    Inv(st) && StackOf(st, t) != [] && Top(st, t) == Begin(s, pc) && s in st.alive && BeginFits(st, s, pc, None)
  }

  lemma SweepReturns(st: State, t: Thread, s: Ref)
    requires AtBegin(st, t, s, Sweep([]))
    ensures Inv(Pop(st.(swept := st.swept + {s}), t))
  {
    hide TreeOk, ClosureOk, Evolves, StackOk, LocksFit, Covered;
    NoLockOnTop(StackOf(st, t));
    SweptKeepsShared(st, s);
    PopStep(st, st.(swept := st.swept + {s}), t);
  }

  lemma SweepCalls(st: State, t: Thread, s: Ref, todo: seq<Ref>)
    requires todo != [] && AtBegin(st, t, s, Sweep(todo)) && todo[0] in st.alive
    ensures Inv(Call(st, t, Begin(s, Sweep(todo[1..])), Begin(todo[0], Swap)))
  {
    SweepOne(st, s, todo);
    hide Inv, Covered;
    CallStep(st, t, Begin(s, Sweep(todo[1..])), Begin(todo[0], Swap));
  }

  lemma SweepSkips(st: State, t: Thread, s: Ref, todo: seq<Ref>)
    requires todo != [] && AtBegin(st, t, s, Sweep(todo)) && todo[0] !in st.alive
    ensures Inv(ReplaceTop(st, t, Begin(s, Sweep(todo[1..]))))
  {
    SweepOne(st, s, todo);
    hide TreeOk, ClosureOk, Evolves, StackOk, LocksFit, Covered;
    SameSharedKeeps(st, st);
    ReplaceStep(st, st, t, Begin(s, Sweep(todo[1..])));
  }

  lemma SweepKeepsInv(st: State, t: Thread, s: Ref, todo: seq<Ref>)
    requires Inv(st) && StackOf(st, t) != [] && Top(st, t) == Begin(s, Sweep(todo)) && Allocated(st, s)
    ensures Inv(BeginStep(st, t, s, Sweep(todo)))
  {
    StackIsOk(st, t);
    hide Inv, BeginFits;
    if todo == [] {
      SweepReturns(st, t, s);
    } else if todo[0] in st.alive {
      SweepCalls(st, t, s, todo);
    } else {
      SweepSkips(st, t, s, todo);
    }
  }

  lemma SweepOne(st: State, s: Ref, todo: seq<Ref>)
    requires todo != [] && Covered(st, s, todo, None)
    ensures todo[0] in st.alive ==> Covered(st, s, todo[1..], Some(todo[0]))
    ensures todo[0] !in st.alive ==> Covered(st, s, todo[1..], None)
    ensures forall c :: c in todo[1..] ==> c in todo
  {
    assert todo == [todo[0]] + todo[1..];
  }

  // ----- finish_close

  lemma FinishSnapshotKeepsInv(st: State, t: Thread, s: Ref)
    requires Inv(st) && StackOf(st, t) != [] && Top(st, t) == Finish(s, FinishSnapshot) && Allocated(st, s)
    ensures Inv(FinishStep(st, t, s, FinishSnapshot))
  {
    var frame := Finish(s, FinishSweep(st.children[s]));
    StackIsOk(st, t);
    hide TreeOk, ClosureOk, Evolves, StackOk, LocksFit, Covered;
    SnapshotCovers(st, s);
    SameSharedKeeps(st, st);
    ReplaceStep(st, st, t, frame);
  }

  lemma FinishSweepKeepsInv(st: State, t: Thread, s: Ref, todo: seq<Ref>)
    requires Inv(st) && StackOf(st, t) != [] && Top(st, t) == Finish(s, FinishSweep(todo)) && Allocated(st, s)
    ensures Inv(FinishStep(st, t, s, FinishSweep(todo)))
  {
    hide Inv, TreeOk, ClosureOk, Evolves, StackOk, LocksFit, ReplaceTop, Call;
    InvHolds(st);
    StackIsOk(st, t);
    if todo == [] {
      SameSharedKeeps(st, st);
      ReplaceStep(st, st, t, Finish(s, StoreClosed));
    } else {
      assert todo == [todo[0]] + todo[1..];
      if todo[0] in st.alive {
        CallStep(st, t, Finish(s, FinishSweep(todo[1..])), Finish(todo[0], FinishSnapshot));
      } else {
        SameSharedKeeps(st, st);
        ReplaceStep(st, st, t, Finish(s, FinishSweep(todo[1..])));
      }
    }
  }

  lemma StoreClosedKeepsInv(st: State, t: Thread, s: Ref)
    requires Inv(st) && StackOf(st, t) != [] && Top(st, t) == Finish(s, StoreClosed) && Allocated(st, s)
    ensures Inv(FinishStep(st, t, s, StoreClosed))
  {
    hide Inv, TreeOk, ClosureOk, Evolves, StackOk, LocksFit, Covered, ReplaceTop;
    InvHolds(st);
    StackIsOk(st, t);
    StoreKeepsShared(st, s, Closed);
    ReplaceStep(st, st.(state := st.state[s := Closed]), t, Finish(s, Unregister));
  }

  lemma {:induction false} RetainMembers(children: seq<Ref>, alive: set<Ref>, ids: map<Ref, nat>, gone: nat, c: Ref)
    ensures c in Retain(children, alive, ids, gone) <==> c in children && c in alive && c in ids && ids[c] != gone
  {
    if children != [] {
      RetainMembers(children[1..], alive, ids, gone, c);
      assert children == [children[0]] + children[1..];
    }
  }

  lemma RetainKeepsShared(st: State, s: Ref, p: Ref)
    requires TreeOk(st) && ClosureOk(st) && Allocated(st, s) && Allocated(st, p) && s in st.swept
    ensures var m := st.(children := st.children[p := Retain(st.children[p], st.alive, st.id, st.id[s])]);
            TreeOk(m) && ClosureOk(m) && Evolves(st, m)
  {
    var m := st.(children := st.children[p := Retain(st.children[p], st.alive, st.id, st.id[s])]);
    RetainKeepsLinks(st, s, p);
    hide Known, Findable, Sealed, Evolves, Linked, DistinctIds, StatesOk;
    NodesKeepKnown(st, m);
    NodesEvolve(st, m);
    RetainStates(st, m);
    TreeFrom(m);
  }

  lemma RetainStates(st: State, m: State)
    requires StatesOk(st) && m.state == st.state && m.snapshotted == st.snapshotted && m.swept == st.swept
    ensures StatesOk(m)
  {
  }

  lemma RetainKeepsLinks(st: State, s: Ref, p: Ref)
    requires Linked(st) && DistinctIds(st) && Findable(st) && Sealed(st) && Allocated(st, s) && Allocated(st, p)
    requires s in st.swept
    requires Known(st)
    ensures var m := st.(children := st.children[p := Retain(st.children[p], st.alive, st.id, st.id[s])]);
            Linked(m) && DistinctIds(m) && Findable(m) && Sealed(m)
  {
    var m := st.(children := st.children[p := Retain(st.children[p], st.alive, st.id, st.id[s])]);
    forall c
      ensures c in m.children[p] <==> c in st.children[p] && c in st.alive && c in st.id && st.id[c] != st.id[s]
    {
      RetainMembers(st.children[p], st.alive, st.id, st.id[s], c);
    }
    RetainSeals(st, m);
    hide Sealed, LiveChild, Retain;
    RetainStaysFindable(st, m, s, p);
  }

  lemma RetainStaysFindable(st: State, m: State, s: Ref, p: Ref)
    requires Known(st) && Findable(st) && DistinctIds(st) && p in st.children && s in st.id && s in st.swept
    requires p in m.children && m == st.(children := st.children[p := m.children[p]])
    requires forall c :: c in m.children[p] <==>
        c in st.children[p] && c in st.alive && c in st.id && st.id[c] != st.id[s]
    ensures Findable(m)
  {
    forall q, c | LiveChild(m, q, c)
      ensures (q in m.children && c in m.children[q]) || c in m.swept
    {
      assert LiveChild(st, q, c) && Allocated(st, c);
      if q == p && c in st.children[p] && c !in m.children[p] { assert c == s; }
    }
  }

  lemma RetainSeals(st: State, m: State)
    requires Sealed(st) && m.parent == st.parent && m.alive == st.alive && m.registered == st.registered
    requires m.swept == st.swept
    ensures Sealed(m)
  {
    forall q, c ensures LiveChild(m, q, c) <==> LiveChild(st, q, c) {}
    hide LiveChild;
  }

  lemma UnregisterKeepsInv(st: State, t: Thread, s: Ref)
    requires Inv(st) && StackOf(st, t) != [] && Top(st, t) == Finish(s, Unregister) && Allocated(st, s)
    requires st.parent[s].Some? && st.parent[s].value in st.alive ==> Allocated(st, st.parent[s].value)
    ensures Inv(FinishStep(st, t, s, Unregister))
  {
    hide Inv, TreeOk, ClosureOk, Evolves, StackOk, LocksFit, Pop, Retain;
    InvHolds(st);
    StackIsOk(st, t);
    NoLockOnTop(StackOf(st, t));
    SameSharedKeeps(st, st);
    if st.parent[s].Some? && st.parent[s].value in st.alive {
      var p := st.parent[s].value;
      RetainKeepsShared(st, s, p);
      PopStep(st, st.(children := st.children[p := Retain(st.children[p], st.alive, st.id, st.id[s])]), t);
    } else {
      PopStep(st, st, t);
    }
  }

  /** `finish_close` removes the finished scope and dead entries from its parent's list, and
      nothing else from any list. */
  lemma UnregisterKeepsOthers(st: State, t: Thread, s: Ref, q: Ref, c: Ref)
    requires Inv(st) && StackOf(st, t) != [] && Top(st, t) == Finish(s, Unregister) && Allocated(st, s)
    requires q in st.children
    requires st.parent[s].Some? && st.parent[s].value in st.alive ==> Allocated(st, st.parent[s].value)
    ensures var n := FinishStep(st, t, s, Unregister);
            && n.children.Keys == st.children.Keys
            && if st.parent[s] == Some(q) && q in st.alive
               then c in n.children[q] <==> c in st.children[q] && c in st.alive && c != s
               else n.children[q] == st.children[q]
  {
    if st.parent[s].Some? && st.parent[s].value in st.alive {
      var p := st.parent[s].value;
      RetainMembers(st.children[p], st.alive, st.id, st.id[s], c);
      hide StackOk, ClosureOk, LocksFit, Retain;
    }
  }

  // ----- child

  /** A child frame is alone on its stack and moves on, possibly changing shared state and locks. */
  lemma ChildMoves(st: State, m: State, t: Thread, s: Ref, pc: ChildPc, pc': ChildPc)
    requires Inv(st) && StackOf(st, t) == [Child(s, pc)]
    requires TreeOk(m) && ClosureOk(m) && Evolves(st, m) && st.alive <= m.alive && m.stacks == st.stacks
    requires LocksFit(m.locks, ReplaceTop(m, t, Child(s, pc')).stacks)
    requires s in m.alive && ChildFits(m, s, pc')
    ensures Inv(ReplaceTop(m, t, Child(s, pc')))
  {
    var moved := [Child(s, pc')];
    assert StackOf(m, t)[..0] + moved == moved;
    hide Inv, TreeOk, ClosureOk, Evolves, LocksFit, HoldsLock, ChildFits, StackOk;
    SingleOk(m, s, pc');
    MovedKeepsInv(st, m, t, moved);
  }

  lemma MovedKeepsInv(st: State, m: State, t: Thread, moved: seq<Frame>)
    requires Inv(st) && TreeOk(m) && ClosureOk(m) && Evolves(st, m) && st.alive <= m.alive && m.stacks == st.stacks
    requires LocksFit(m.locks, WithStack(m, t, moved).stacks) && StackOk(m, moved)
    ensures Inv(WithStack(m, t, moved))
  {
    var n := WithStack(m, t, moved);
    hide Inv, TreeOk, ClosureOk, Evolves, LocksFit, StackOk;
    AfterMove(st, m, n, moved);
    ShareKeepsInv(st, n, t);
  }

  lemma AfterMove(st: State, m: State, n: State, moved: seq<Frame>)
    requires TreeOk(m) && ClosureOk(m) && Evolves(st, m) && StackOk(m, moved) && SameShared(m, n)
    ensures TreeOk(n) && ClosureOk(n) && Evolves(st, n) && StackOk(n, moved)
  {
    SameSharedKeeps(m, n);
    EvolvesThen(st, m, n);
    SameStackOk(m, n, moved);
    hide TreeOk, ClosureOk, Evolves, StackOk;
  }

  lemma SingleOk(m: State, s: Ref, pc: ChildPc)
    requires s in m.alive && ChildFits(m, s, pc)
    ensures StackOk(m, [Child(s, pc)])
  {
    hide ChildFits;
    assert FrameOk(m, [Child(s, pc)], 0);
  }

  /** The locks after a child frame moved, by whether it held and holds the lock. */
  lemma ChildLocks(st: State, m: State, t: Thread, s: Ref, pc: ChildPc, pc': ChildPc)
    requires LocksFit(st.locks, st.stacks) && StackOf(st, t) == [Child(s, pc)] && m.stacks == st.stacks
    requires var held, holds := pc.Recheck? || pc.Push?, pc'.Recheck? || pc'.Push?;
             && (!held && holds ==> s !in st.locks)
             && m.locks == if holds == held then st.locks else if holds then st.locks[s := t] else st.locks - {s}
    ensures LocksFit(m.locks, ReplaceTop(m, t, Child(s, pc')).stacks)
  {
    var n := ReplaceTop(m, t, Child(s, pc'));
    assert n.stacks[t] == [Child(s, pc')];
    assert OnlyMoves(st, n, t);
    hide LocksFit;
    if pc.Recheck? || pc.Push? {
      assert HoldsLock(st.stacks[t], s);
      if pc'.Recheck? || pc'.Push? { LockKept(st, n, t, s); } else { LockReleased(st, n, t, s); }
    } else {
      if pc'.Recheck? || pc'.Push? { LockTaken(st, n, t, s); } else { LocksUntouched(st, n, t); }
    }
  }

  lemma AllocateKeepsShared(st: State, s: Ref, slot: Ref)
    requires TreeOk(st) && ClosureOk(st) && Allocated(st, s)
    requires !(slot in st.state || slot in st.parent || slot in st.id || slot in st.children)
    ensures var m := st.(state := st.state[slot := Open], parent := st.parent[slot := Some(s)],
                         id := st.id[slot := st.nextId],
                         children := st.children[slot := []], alive := st.alive + {slot}, nextId := st.nextId + 1);
            TreeOk(m) && ClosureOk(m) && Evolves(st, m) && IsChildOf(m, slot, s)
  {
    var m := st.(state := st.state[slot := Open], parent := st.parent[slot := Some(s)], id := st.id[slot := st.nextId],
                 children := st.children[slot := []], alive := st.alive + {slot}, nextId := st.nextId + 1);
    assert !Allocated(st, slot);
    AllocateKeepsKnown(st, m, s, slot);
    AllocateKeepsLinks(st, m, slot);
    AllocateEvolves(st, m, slot);
    hide Known, Linked, DistinctIds, Findable, Sealed, Evolves;
    AllocateStates(st, m, slot);
    TreeFrom(m);
  }

  ghost predicate AddsNode(st: State, m: State, s: Ref, slot: Ref) {
    && !(slot in st.state || slot in st.parent || slot in st.id || slot in st.children)
    && m.state == st.state[slot := Open] && m.parent == st.parent[slot := Some(s)] && m.id == st.id[slot := st.nextId]
    && m.children == st.children[slot := []] && m.alive == st.alive + {slot} && m.nextId == st.nextId + 1
    && m.registered == st.registered && m.snapshotted == st.snapshotted && m.swept == st.swept && m.locks == st.locks
  }

  lemma AllocateKeepsKnown(st: State, m: State, s: Ref, slot: Ref)
    requires AddsNode(st, m, s, slot) && Known(st) && Allocated(st, s)
    ensures Known(m)
  {
    forall r ensures Allocated(m, r) <==> Allocated(st, r) || r == slot {}
    hide Allocated;
  }

  lemma AllocateKeepsLinks(st: State, m: State, slot: Ref)
    requires exists s :: AddsNode(st, m, s, slot)
    requires Known(st) && Linked(st) && DistinctIds(st) && Findable(st) && Sealed(st)
    ensures Linked(m) && DistinctIds(m) && Findable(m) && Sealed(m)
  {
    assert slot in st.registered ==> Allocated(st, slot);
    forall p, c ensures LiveChild(m, p, c) <==> LiveChild(st, p, c) {}
    hide LiveChild, Known, Linked, DistinctIds;
    AllocateKeepsIds(st, m, slot);
  }

  lemma AllocateKeepsIds(st: State, m: State, slot: Ref)
    requires exists s :: AddsNode(st, m, s, slot)
    requires Linked(st) && DistinctIds(st)
    ensures Linked(m) && DistinctIds(m)
  {
  }

  lemma AllocateEvolves(st: State, m: State, slot: Ref)
    requires exists s :: AddsNode(st, m, s, slot)
    requires Known(st)
    ensures Evolves(st, m)
  {
    assert !Allocated(st, slot);
  }

  lemma AllocateStates(st: State, m: State, slot: Ref)
    requires exists s :: AddsNode(st, m, s, slot)
    requires StatesOk(st) && !Allocated(st, slot) && forall r :: r in st.snapshotted ==> Allocated(st, r)
    ensures StatesOk(m)
  {
  }

  lemma PushKeepsShared(st: State, s: Ref, c: Ref)
    requires TreeOk(st) && ClosureOk(st) && Allocated(st, s) && IsChildOf(st, c, s) && s !in st.snapshotted
    ensures var m := st.(children := st.children[s := st.children[s] + [c]], locks := st.locks - {s},
        registered := st.registered + {c});
            TreeOk(m) && ClosureOk(m) && Evolves(st, m)
  {
    var m := st.(children := st.children[s := st.children[s] + [c]], locks := st.locks - {s},
        registered := st.registered + {c});
    assert Allocated(st, c);
    PushKeepsKnown(st, m, s, c);
    PushKeepsLinks(st, m, s, c);
    PushEvolves(st, m, s, c);
    hide Known, Linked, DistinctIds, Findable, Sealed, Evolves, StatesOk;
    RetainStates(st, m);
    TreeFrom(m);
  }

  ghost predicate AddsChild(st: State, m: State, s: Ref, c: Ref) {
    && s in st.children && m.state == st.state && m.parent == st.parent && m.id == st.id && m.alive == st.alive
    && m.nextId == st.nextId
    && m.children == st.children[s := st.children[s] + [c]] && m.registered == st.registered + {c}
    && m.snapshotted == st.snapshotted && m.swept == st.swept
  }

  lemma PushKeepsKnown(st: State, m: State, s: Ref, c: Ref)
    requires AddsChild(st, m, s, c) && Known(st) && Allocated(st, c)
    ensures Known(m)
  {
    forall r ensures Allocated(m, r) <==> Allocated(st, r) {}
    hide Allocated;
  }

  lemma PushKeepsLinks(st: State, m: State, s: Ref, c: Ref)
    requires AddsChild(st, m, s, c) && Linked(st) && DistinctIds(st) && Findable(st) && Sealed(st)
    requires IsChildOf(st, c, s) && s !in st.swept
    ensures Linked(m) && DistinctIds(m) && Findable(m) && Sealed(m)
  {
    assert m.children[s] == st.children[s] + [c];
    forall p, d ensures LiveChild(m, p, d) <==> LiveChild(st, p, d) || (p == s && d == c) {}
    hide LiveChild;
  }

  lemma PushEvolves(st: State, m: State, s: Ref, c: Ref)
    requires AddsChild(st, m, s, c) && Allocated(st, c) && st.parent[c] == Some(s) && s !in st.snapshotted
    ensures Evolves(st, m)
  {
    forall r ensures Allocated(m, r) <==> Allocated(st, r) {}
  }

  ghost predicate AtChild(st: State, t: Thread, s: Ref, pc: ChildPc) {
    Inv(st) && StackOf(st, t) == [Child(s, pc)] && Allocated(st, s) && s in st.alive && ChildFits(st, s, pc)
  }

  lemma CheckKeepsInv(st: State, t: Thread, s: Ref, slot: Ref)
    requires AtChild(st, t, s, CheckOpen)
    ensures Inv(ChildStep(st, t, s, CheckOpen, slot))
  {
    hide TreeOk, ClosureOk, Evolves, StackOk, LocksFit;
    var pc' := if st.state[s] != Open then ChildDone(None) else Allocate;
    SameSharedKeeps(st, st);
    ChildLocks(st, st, t, s, CheckOpen, pc');
    ChildMoves(st, st, t, s, CheckOpen, pc');
  }

  lemma AllocateKeepsInv(st: State, t: Thread, s: Ref, slot: Ref)
    requires AtChild(st, t, s, Allocate)
    requires !(slot in st.state || slot in st.parent || slot in st.id || slot in st.children)
    ensures Inv(ChildStep(st, t, s, Allocate, slot))
  {
    hide TreeOk, ClosureOk, Evolves, StackOk, LocksFit;
    var m := st.(state := st.state[slot := Open], parent := st.parent[slot := Some(s)], id := st.id[slot := st.nextId],
                 children := st.children[slot := []], alive := st.alive + {slot}, nextId := st.nextId + 1);
    AllocateKeepsShared(st, s, slot);
    ChildLocks(st, m, t, s, Allocate, LockChildren(slot));
    ChildMoves(st, m, t, s, Allocate, LockChildren(slot));
  }

  lemma LockKeepsInv(st: State, t: Thread, s: Ref, c: Ref, slot: Ref)
    requires AtChild(st, t, s, LockChildren(c)) && s !in st.locks
    ensures Inv(ChildStep(st, t, s, LockChildren(c), slot))
  {
    hide TreeOk, ClosureOk, Evolves, StackOk, LocksFit;
    var m := st.(locks := st.locks[s := t]);
    SameSharedKeeps(st, m);
    ChildLocks(st, m, t, s, LockChildren(c), Recheck(c));
    ChildMoves(st, m, t, s, LockChildren(c), Recheck(c));
  }

  lemma RecheckKeepsInv(st: State, t: Thread, s: Ref, c: Ref, slot: Ref)
    requires AtChild(st, t, s, Recheck(c))
    ensures Inv(ChildStep(st, t, s, Recheck(c), slot))
  {
    hide Inv, TreeOk, ClosureOk, Evolves, StackOk, LocksFit, ReplaceTop;
    InvHolds(st);
    OpenIsFresh(st, s);
    var m := if st.state[s] != Open then st.(locks := st.locks - {s}) else st;
    var pc' := if st.state[s] != Open then ChildDone(None) else Push(c);
    SameSharedKeeps(st, m);
    ChildLocks(st, m, t, s, Recheck(c), pc');
    ChildMoves(st, m, t, s, Recheck(c), pc');
  }

  lemma PushKeepsInv(st: State, t: Thread, s: Ref, c: Ref, slot: Ref)
    requires AtChild(st, t, s, Push(c))
    ensures Inv(ChildStep(st, t, s, Push(c), slot))
  {
    hide TreeOk, ClosureOk, Evolves, StackOk, LocksFit;
    var m := st.(children := st.children[s := st.children[s] + [c]], locks := st.locks - {s},
        registered := st.registered + {c});
    PushKeepsShared(st, s, c);
    ChildLocks(st, m, t, s, Push(c), ChildDone(Some(c)));
    ChildMoves(st, m, t, s, Push(c), ChildDone(Some(c)));
  }

  lemma ChildKeepsInv(st: State, t: Thread, s: Ref, pc: ChildPc, slot: Ref)
    requires Inv(st) && StackOf(st, t) != [] && Top(st, t) == Child(s, pc) && FrameEnabled(st, t, Child(s, pc), slot)
    ensures Inv(ChildStep(st, t, s, pc, slot))
  {
    StackIsOk(st, t);
    assert StackOf(st, t) == [Child(s, pc)];
    assert AtChild(st, t, s, pc);
    hide Inv, ChildStep, AtChild;
    match pc {
      case CheckOpen => CheckKeepsInv(st, t, s, slot);
      case Allocate => AllocateKeepsInv(st, t, s, slot);
      case LockChildren(c) => LockKeepsInv(st, t, s, c, slot);
      case Recheck(c) => RecheckKeepsInv(st, t, s, c, slot);
      case Push(c) => PushKeepsInv(st, t, s, c, slot);
      case ChildDone(r) => ReturnKeepsInv(st, t, s, r, slot);
    }
  }

  lemma ReturnKeepsInv(st: State, t: Thread, s: Ref, r: Option<Ref>, slot: Ref)
    requires AtChild(st, t, s, ChildDone(r))
    ensures Inv(ChildStep(st, t, s, ChildDone(r), slot))
  {
    hide TreeOk, ClosureOk, Evolves, StackOk, LocksFit;
    SameSharedKeeps(st, st);
    PopStep(st, st, t);
  }

  lemma OpenIsFresh(st: State, s: Ref)
    requires ClosureOk(st) && s in st.state
    ensures st.state[s] == Open ==> s !in st.snapshotted
  {
  }

  // ----- every step, every run

  /** Every step of every thread keeps the invariant. */
  lemma NextKeepsInv(st: State, t: Thread, a: Action)
    requires Inv(st) && Enabled(st, t, a)
    ensures Inv(Next(st, t, a))
  {
    match a {
      case StartChild(s) => StartKeepsInv(st, t, Child(s, CheckOpen));
      case StartBegin(s) => StartKeepsInv(st, t, Begin(s, Swap));
      case StartFinish(s) => StartKeepsInv(st, t, Finish(s, FinishSnapshot));
      case Drop(r) => DropKeepsInv(st, r);
      case Advance(slot) =>
        var top := Top(st, t);
        hide Inv, ChildStep, BeginStep, FinishStep;
        match top {
          case Child(s, pc) => ChildKeepsInv(st, t, s, pc, slot);
          case Begin(s, pc) =>
            match pc {
              case Swap => SwapKeepsInv(st, t, s);
              case RestoreClosed => RestoreKeepsInv(st, t, s);
              case Snapshot => SnapshotKeepsInv(st, t, s);
              case Sweep(todo) => SweepKeepsInv(st, t, s, todo);
            }
          case Finish(s, pc) =>
            match pc {
              case FinishSnapshot => FinishSnapshotKeepsInv(st, t, s);
              case FinishSweep(todo) => FinishSweepKeepsInv(st, t, s, todo);
              case StoreClosed => StoreClosedKeepsInv(st, t, s);
              case Unregister => UnregisterKeepsInv(st, t, s);
            }
        }
    }
  }
}
