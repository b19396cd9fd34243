/** What `finish_close` achieves over whole runs: the subtree it returns on is closed. */
module ScopeFinish {
  import opened Model
  import opened ScopeTree
  import opened ScopeClosure
  import opened ScopeRuns
  import opened ScopeStates

  /** This step is the store of a `finish_close` of `s`. */
  predicate Stores(st: State, t: Thread, a: Action, s: Ref) {
    a.Advance? && StackOf(st, t) != [] && Top(st, t) == Finish(s, StoreClosed)
  }

  ghost function Stored(st: State, t: Thread, a: Action): set<Ref> {
    if a.Advance? && StackOf(st, t) != [] && Top(st, t).Finish? && Top(st, t).finish.StoreClosed?
    then {Top(st, t).scope} else {}
  }

  // ----- the invariant: `fin` are the scopes some `finish_close` has stored as closed

  /** Every live registered child of `s` is finished, still to be finished, or being finished. */
  ghost predicate Finishing(st: State, fin: set<Ref>, s: Ref, todo: seq<Ref>, callee: Option<Ref>) {
    forall c :: LiveChild(st, s, c) ==> c in fin || c in todo || callee == Some(c)
  }

  ghost predicate FinFrame(st: State, fin: set<Ref>, frame: Frame, callee: Option<Frame>) {
    frame.Finish? ==>
      match frame.finish
      case FinishSnapshot => true
      case FinishSweep(todo) =>
        Finishing(st, fin, frame.scope, todo, if callee.Some? then Some(callee.value.scope) else None)
      case StoreClosed => Finishing(st, fin, frame.scope, [], None)
      case Unregister => frame.scope in fin
  }

  ghost predicate FinFrameOk(st: State, fin: set<Ref>, stack: seq<Frame>, i: nat)
    requires i < |stack|
  {
    FinFrame(st, fin, stack[i], if i + 1 < |stack| then Some(stack[i + 1]) else None)
  }

  ghost predicate FinStack(st: State, fin: set<Ref>, stack: seq<Frame>) {
    forall i: nat :: i < |stack| ==> FinFrameOk(st, fin, stack, i)
  }

  /** A live child is in its parent's list or finished, and those of a finished scope are finished. */
  ghost predicate FinShared(st: State, fin: set<Ref>) {
    && fin <= st.swept
    && (forall s, c :: LiveChild(st, s, c) ==> (s in st.children && c in st.children[s]) || c in fin)
    && (forall s, c :: s in fin && LiveChild(st, s, c) ==> c in fin)
  }

  ghost predicate FinInv(st: State, fin: set<Ref>) {
    FinShared(st, fin) && forall t :: t in st.stacks ==> FinStack(st, fin, st.stacks[t])
  }

  // ----- what a step may do to it

  /** A swept scope gets no new live child. */
  ghost predicate NoNewChild(st: State, n: State) {
    forall s, c :: s in st.swept && LiveChild(n, s, c) ==> LiveChild(st, s, c)
  }

  lemma FinStackStable(st: State, n: State, fin: set<Ref>, more: set<Ref>, stack: seq<Frame>)
    requires StackOk(st, stack) && FinStack(st, fin, stack) && NoNewChild(st, n) && fin <= more
    ensures FinStack(n, more, stack)
  {
    hide LiveChild;
    forall i: nat | i < |stack|
      ensures FinFrameOk(n, more, stack, i)
    {
      assert FrameOk(st, stack, i);
      assert FinFrameOk(st, fin, stack, i);
      hide FrameOk;
      if stack[i].Finish? { FinishIsSwept(st, stack, i); }
    }
  }

  lemma FinishIsSwept(st: State, stack: seq<Frame>, i: nat)
    requires i < |stack| && FrameOk(st, stack, i) && stack[i].Finish?
    ensures stack[i].scope in st.swept
  {
  }

  lemma ReplaceFin(n: State, fin: set<Ref>, stack: seq<Frame>, frame: Frame)
    requires FinStack(n, fin, stack) && stack != []
    requires var top := stack[|stack| - 1]; frame.scope == top.scope && frame.Finish? == top.Finish?
    requires FinFrame(n, fin, frame, None)
    ensures FinStack(n, fin, stack[..|stack| - 1] + [frame])
  {
    var moved, k := stack[..|stack| - 1] + [frame], |stack| - 1;
    hide Finishing;
    forall i: nat | i < |moved|
      ensures FinFrameOk(n, fin, moved, i)
    {
      if i < k {
        assert FinFrameOk(n, fin, stack, i);
        assert moved[i] == stack[i] && (i + 1 < k ==> moved[i + 1] == stack[i + 1]);
      }
    }
  }

  lemma CallFin(n: State, fin: set<Ref>, stack: seq<Frame>, caller: Frame, callee: Frame)
    requires FinStack(n, fin, stack) && stack != []
    requires var top := stack[|stack| - 1]; caller.scope == top.scope && caller.Finish? == top.Finish?
    requires FinFrame(n, fin, caller, Some(callee)) && FinFrame(n, fin, callee, None)
    ensures FinStack(n, fin, stack[..|stack| - 1] + [caller, callee])
  {
    var moved, k := stack[..|stack| - 1] + [caller, callee], |stack| - 1;
    hide Finishing;
    forall i: nat | i < |moved|
      ensures FinFrameOk(n, fin, moved, i)
    {
      if i < k {
        assert FinFrameOk(n, fin, stack, i);
        assert moved[i] == stack[i] && (i + 1 < k ==> moved[i + 1] == stack[i + 1]);
      }
    }
  }

  lemma PopFin(n: State, fin: set<Ref>, stack: seq<Frame>)
    requires FinStack(n, fin, stack) && stack != []
    requires stack[|stack| - 1].scope in fin || (|stack| > 1 ==> !stack[|stack| - 2].Finish?)
    ensures FinStack(n, fin, stack[..|stack| - 1])
  {
    var rest := stack[..|stack| - 1];
    forall i: nat | i < |rest|
      ensures FinFrameOk(n, fin, rest, i)
    {
      assert FinFrameOk(n, fin, stack, i);
    }
  }

  /** Everything but the stack of `t` follows from what happens to lists and children. */
  lemma FinAssemble(st: State, n: State, fin: set<Ref>, more: set<Ref>, t: Thread)
    requires Inv(st) && FinInv(st, fin) && fin <= more && FinShared(n, more) && NoNewChild(st, n)
    requires forall u :: u in n.stacks && u != t ==> u in st.stacks && n.stacks[u] == st.stacks[u]
    requires t in n.stacks ==> FinStack(n, more, n.stacks[t])
    ensures FinInv(n, more)
  {
    hide FinStack, FinShared, NoNewChild;
    forall u | u in n.stacks
      ensures FinStack(n, more, n.stacks[u])
    {
      if u != t { FinStackStable(st, n, fin, more, st.stacks[u]); }
    }
  }

  /** A step that leaves lists and registrations alone, and adds no registered live scope. */
  ghost predicate Quiet(st: State, n: State) {
    && n.children == st.children && n.parent == st.parent && n.registered == st.registered && st.swept <= n.swept
    && n.alive <= st.alive
  }

  lemma QuietKeeps(st: State, n: State, fin: set<Ref>)
    requires FinShared(st, fin) && Quiet(st, n)
    ensures FinShared(n, fin) && NoNewChild(st, n)
  {
    forall s, c | LiveChild(n, s, c) ensures LiveChild(st, s, c) {}
    hide LiveChild;
  }

  // ----- the steps

  lemma StartKeepsFin(st: State, fin: set<Ref>, t: Thread, frame: Frame)
    requires Inv(st) && FinInv(st, fin) && (frame.Finish? ==> frame.finish.FinishSnapshot?)
    ensures FinInv(WithStack(st, t, [frame]), fin)
  {
    var n := WithStack(st, t, [frame]);
    QuietKeeps(st, n, fin);
    assert FinFrameOk(n, fin, [frame], 0);
    hide FinShared, NoNewChild, Inv;
    FinAssemble(st, n, fin, fin, t);
  }

  lemma DropKeepsFin(st: State, fin: set<Ref>, t: Thread, r: Ref)
    requires Inv(st) && FinInv(st, fin)
    ensures FinInv(st.(alive := st.alive - {r}), fin)
  {
    var n := st.(alive := st.alive - {r});
    QuietKeeps(st, n, fin);
    if t in st.stacks { FinStackStable(st, n, fin, fin, st.stacks[t]); }
    hide FinShared, NoNewChild, FinStack;
    FinAssemble(st, n, fin, fin, t);
  }

  lemma AllocateIsQuietEnough(st: State, n: State, fin: set<Ref>, s: Ref, slot: Ref)
    requires Known(st) && FinShared(st, fin) && !Allocated(st, slot) && slot !in st.parent && slot !in st.children
    requires n.parent == st.parent[slot := Some(s)] && n.children == st.children[slot := []]
    requires n.alive == st.alive + {slot} && n.registered == st.registered && n.swept == st.swept
    ensures FinShared(n, fin) && NoNewChild(st, n)
  {
    forall r, c | LiveChild(n, r, c) ensures LiveChild(st, r, c) { assert c != slot; }
    hide LiveChild;
  }

  lemma PushAddsListed(st: State, n: State, fin: set<Ref>, s: Ref, c: Ref)
    requires FinShared(st, fin) && s in st.children && s !in st.swept && c in st.parent && st.parent[c] == Some(s)
    requires n.parent == st.parent && n.children == st.children[s := st.children[s] + [c]]
    requires n.alive == st.alive && n.registered == st.registered + {c} && n.swept == st.swept
    ensures FinShared(n, fin) && NoNewChild(st, n)
  {
    forall r, d | LiveChild(n, r, d)
      ensures LiveChild(st, r, d) || (r == s && d == c)
    {
    }
    hide LiveChild;
  }

  lemma ChildKeepsFin(st: State, fin: set<Ref>, t: Thread, s: Ref, pc: ChildPc, slot: Ref)
    requires Inv(st) && FinInv(st, fin) && StackOf(st, t) != [] && Top(st, t) == Child(s, pc)
    requires FrameEnabled(st, t, Child(s, pc), slot)
    ensures FinInv(ChildStep(st, t, s, pc, slot), fin)
  {
    hide FinStack, NoNewChild, FinShared, Inv;
    var n := ChildStep(st, t, s, pc, slot);
    ChildAlone(st, t, s, pc);
    ChildShared(st, fin, t, s, pc, slot);
    ChildStackFin(n, fin, StackOf(n, t));
    FinAssemble(st, n, fin, fin, t);
  }

  lemma ChildShared(st: State, fin: set<Ref>, t: Thread, s: Ref, pc: ChildPc, slot: Ref)
    requires Inv(st) && FinShared(st, fin) && StackOf(st, t) == [Child(s, pc)] && ChildFits(st, s, pc)
    requires FrameEnabled(st, t, Child(s, pc), slot)
    ensures var n := ChildStep(st, t, s, pc, slot); FinShared(n, fin) && NoNewChild(st, n)
  {
    InvHolds(st);
    hide Inv, FinShared, NoNewChild, Linked, DistinctIds;
    var n := ChildStep(st, t, s, pc, slot);
    match pc {
      case Allocate => AllocateIsQuietEnough(st, n, fin, s, slot);
      case Push(c) => PushIsEarly(st, s, c); PushAddsListed(st, n, fin, s, c);
      case _ => QuietKeeps(st, n, fin);
    }
  }

  lemma ChildAlone(st: State, t: Thread, s: Ref, pc: ChildPc)
    requires Inv(st) && StackOf(st, t) != [] && Top(st, t) == Child(s, pc)
    ensures StackOf(st, t) == [Child(s, pc)] && ChildFits(st, s, pc)
  {
    StackIsOk(st, t);
  }

  lemma ChildStackFin(n: State, fin: set<Ref>, stack: seq<Frame>)
    requires stack == [] || (|stack| == 1 && stack[0].Child?)
    ensures FinStack(n, fin, stack)
  {
  }

  lemma PushIsEarly(st: State, s: Ref, c: Ref)
    requires ClosureOk(st) && ChildFits(st, s, Push(c))
    ensures s !in st.swept
  {
  }

  lemma BelowABegin(st: State, t: Thread)
    requires Inv(st) && StackOf(st, t) != [] && Top(st, t).Begin?
    ensures var stack := StackOf(st, t); |stack| > 1 ==> !stack[|stack| - 2].Finish?
  {
    StackIsOk(st, t);
    var stack := StackOf(st, t);
    if |stack| > 1 { assert FrameOk(st, stack, |stack| - 2); }
  }

  /** What a quiet step leaves of the moving stack. */
  lemma QuietStack(st: State, n: State, fin: set<Ref>, t: Thread)
    requires Inv(st) && FinInv(st, fin) && Quiet(st, n) && StackOf(st, t) != []
    ensures FinShared(n, fin) && NoNewChild(st, n) && FinStack(n, fin, StackOf(st, t))
  {
    StackIsOk(st, t);
    QuietKeeps(st, n, fin);
    FinStackStable(st, n, fin, fin, StackOf(st, t));
  }

  lemma TopFinFrame(st: State, fin: set<Ref>, t: Thread)
    requires FinInv(st, fin) && StackOf(st, t) != []
    ensures FinFrame(st, fin, Top(st, t), None)
  {
    assert FinFrameOk(st, fin, StackOf(st, t), |StackOf(st, t)| - 1);
  }

  lemma MoreFinished(st: State, fin: set<Ref>, more: set<Ref>, stack: seq<Frame>)
    requires FinStack(st, fin, stack) && fin <= more
    ensures FinStack(st, more, stack)
  {
    hide LiveChild;
    forall i: nat | i < |stack| ensures FinFrameOk(st, more, stack, i) { assert FinFrameOk(st, fin, stack, i); }
  }

  lemma BeginKeepsFin(st: State, fin: set<Ref>, t: Thread, s: Ref, pc: BeginPc)
    requires Inv(st) && FinInv(st, fin) && StackOf(st, t) != [] && Top(st, t) == Begin(s, pc) && Allocated(st, s)
    ensures FinInv(BeginStep(st, t, s, pc), fin)
  {
    hide Inv, FinInv, FinShared, FinStack, NoNewChild, Finishing;
    var n, stack := BeginStep(st, t, s, pc), StackOf(st, t);
    BelowABegin(st, t);
    QuietStack(st, n, fin, t);
    hide Quiet;
    match pc {
      case Swap => ReplaceFin(n, fin, stack, Begin(s, if st.state[s] == Closed then RestoreClosed else Snapshot));
      case RestoreClosed => PopFin(n, fin, stack);
      case Snapshot => ReplaceFin(n, fin, stack, Begin(s, Sweep(st.children[s])));
      case Sweep(todo) =>
        if todo == [] { PopFin(n, fin, stack); }
        else if todo[0] in st.alive { CallFin(n, fin, stack, Begin(s, Sweep(todo[1..])), Begin(todo[0], Swap)); }
        else { ReplaceFin(n, fin, stack, Begin(s, Sweep(todo[1..]))); }
    }
    FinAssemble(st, n, fin, fin, t);
  }

  /** Where a `finish_close` stands after its next operation, and the frame it leaves below. */
  lemma FinishFrames(st: State, n: State, fin: set<Ref>, s: Ref, todo: seq<Ref>)
    requires Quiet(st, n) && Finishing(st, fin, s, todo, None) && todo != []
    ensures todo[0] in st.alive ==> Finishing(n, fin, s, todo[1..], Some(todo[0]))
    ensures todo[0] !in st.alive ==> Finishing(n, fin, s, todo[1..], None)
  {
    forall c | LiveChild(n, s, c)
      ensures c in fin || c in todo[1..] || c == todo[0]
    {
      assert LiveChild(st, s, c);
    }
  }

  lemma QuietFinishing(st: State, n: State, fin: set<Ref>, s: Ref, todo: seq<Ref>)
    requires Quiet(st, n) && Finishing(st, fin, s, todo, None)
    ensures Finishing(n, fin, s, todo, None)
  {
    forall c | LiveChild(n, s, c) ensures c in fin || c in todo { assert LiveChild(st, s, c); }
  }

  lemma SweepKeepsFin(st: State, fin: set<Ref>, t: Thread, s: Ref, todo: seq<Ref>)
    requires Inv(st) && FinInv(st, fin) && StackOf(st, t) != [] && Top(st, t) == Finish(s, FinishSweep(todo))
    requires Allocated(st, s)
    ensures FinInv(FinishStep(st, t, s, FinishSweep(todo)), fin)
  {
    hide Inv, FinInv, FinShared, FinStack, NoNewChild, Finishing;
    var n, stack := FinishStep(st, t, s, FinishSweep(todo)), StackOf(st, t);
    TopFinFrame(st, fin, t);
    QuietStack(st, n, fin, t);
    QuietFinishing(st, n, fin, s, todo);
    if todo != [] { FinishFrames(st, n, fin, s, todo); }
    hide Quiet;
    if todo == [] {
      ReplaceFin(n, fin, stack, Finish(s, StoreClosed));
    } else if todo[0] in st.alive {
      CallFin(n, fin, stack, Finish(s, FinishSweep(todo[1..])), Finish(todo[0], FinishSnapshot));
    } else {
      ReplaceFin(n, fin, stack, Finish(s, FinishSweep(todo[1..])));
    }
    FinAssemble(st, n, fin, fin, t);
  }

  lemma SnapshotKeepsFin(st: State, fin: set<Ref>, t: Thread, s: Ref)
    requires Inv(st) && FinInv(st, fin) && StackOf(st, t) != [] && Top(st, t) == Finish(s, FinishSnapshot)
    requires Allocated(st, s)
    ensures FinInv(FinishStep(st, t, s, FinishSnapshot), fin)
  {
    hide Inv, FinInv, FinStack, NoNewChild;
    var n, stack := FinishStep(st, t, s, FinishSnapshot), StackOf(st, t);
    QuietStack(st, n, fin, t);
    assert Finishing(n, fin, s, st.children[s], None);
    hide FinShared, Finishing, Quiet;
    ReplaceFin(n, fin, stack, Finish(s, FinishSweep(st.children[s])));
    FinAssemble(st, n, fin, fin, t);
  }

  lemma StoreKeepsFin(st: State, fin: set<Ref>, t: Thread, s: Ref)
    requires Inv(st) && FinInv(st, fin) && StackOf(st, t) != [] && Top(st, t) == Finish(s, StoreClosed)
    requires Allocated(st, s)
    ensures FinInv(FinishStep(st, t, s, StoreClosed), fin + {s})
  {
    hide FinShared, NoNewChild, FinStack, Finishing, FinInv;
    var n, stack := FinishStep(st, t, s, StoreClosed), StackOf(st, t);
    StackIsOk(st, t);
    hide Inv;
    TopFinFrame(st, fin, t);
    QuietStack(st, n, fin, t);
    OneMoreFinished(st, n, fin, s);
    MoreFinished(n, fin, fin + {s}, stack);
    ReplaceFin(n, fin + {s}, stack, Finish(s, Unregister));
    FinAssemble(st, n, fin, fin + {s}, t);
  }

  lemma OneMoreFinished(st: State, n: State, fin: set<Ref>, s: Ref)
    requires FinShared(n, fin) && Quiet(st, n) && Finishing(st, fin, s, [], None) && s in st.swept
    ensures FinShared(n, fin + {s})
  {
    QuietFinishing(st, n, fin, s, []);
    hide LiveChild;
  }

  lemma UnregisterKeepsFin(st: State, fin: set<Ref>, t: Thread, s: Ref)
    requires Inv(st) && FinInv(st, fin) && StackOf(st, t) != [] && Top(st, t) == Finish(s, Unregister)
    requires FrameEnabled(st, t, Finish(s, Unregister), 0)
    ensures FinInv(FinishStep(st, t, s, Unregister), fin)
  {
    var n, stack := FinishStep(st, t, s, Unregister), StackOf(st, t);
    InvHolds(st);
    StackIsOk(st, t);
    assert FinFrameOk(st, fin, stack, |stack| - 1);
    if st.parent[s].Some? && st.parent[s].value in st.alive {
      PruneKeepsShared(st, n, fin, s, st.parent[s].value);
    } else {
      QuietKeeps(st, n, fin);
    }
    FinStackStable(st, n, fin, fin, stack);
    hide FinShared, NoNewChild, Inv, FinStack, Finishing;
    PopFin(n, fin, stack);
    FinAssemble(st, n, fin, fin, t);
  }

  lemma PruneKeepsShared(st: State, n: State, fin: set<Ref>, s: Ref, p: Ref)
    requires TreeOk(st) && FinShared(st, fin) && s in fin && s in st.id && p in st.children
    requires n.children == st.children[p := Retain(st.children[p], st.alive, st.id, st.id[s])]
    requires n.parent == st.parent && n.registered == st.registered && n.swept == st.swept && n.alive == st.alive
    ensures FinShared(n, fin) && NoNewChild(st, n)
  {
    forall r, c | LiveChild(n, r, c)
      ensures LiveChild(st, r, c) && ((r in n.children && c in n.children[r]) || c in fin)
    {
      assert LiveChild(st, r, c);
      RetainMembers(st.children[p], st.alive, st.id, st.id[s], c);
      assert Allocated(st, c);
    }
    hide LiveChild, TreeOk, Retain;
  }

  lemma FinishKeepsFin(st: State, fin: set<Ref>, t: Thread, s: Ref, pc: FinishPc)
    requires Inv(st) && FinInv(st, fin) && StackOf(st, t) != [] && Top(st, t) == Finish(s, pc)
    requires FrameEnabled(st, t, Finish(s, pc), 0)
    ensures FinInv(FinishStep(st, t, s, pc), fin + if pc.StoreClosed? then {s} else {})
  {
    assert fin + {} == fin;
    hide Inv, FinInv, FinishStep;
    match pc {
      case FinishSnapshot => SnapshotKeepsFin(st, fin, t, s);
      case FinishSweep(todo) => SweepKeepsFin(st, fin, t, s, todo);
      case StoreClosed => StoreKeepsFin(st, fin, t, s);
      case Unregister => UnregisterKeepsFin(st, fin, t, s);
    }
  }

  /** Every step of every operation keeps it; a store adds its scope. */
  lemma NextKeepsFin(st: State, fin: set<Ref>, t: Thread, a: Action)
    requires Inv(st) && FinInv(st, fin) && Enabled(st, t, a)
    ensures FinInv(Next(st, t, a), fin + Stored(st, t, a))
  {
    assert fin + {} == fin;
    hide Inv, FinInv, ChildStep, BeginStep, FinishStep;
    match a {
      case StartChild(s) => StartKeepsFin(st, fin, t, Child(s, CheckOpen));
      case StartBegin(s) => StartKeepsFin(st, fin, t, Begin(s, Swap));
      case StartFinish(s) => StartKeepsFin(st, fin, t, Finish(s, FinishSnapshot));
      case Drop(r) => DropKeepsFin(st, fin, t, r);
      case Advance(slot) =>
        match Top(st, t) {
          case Child(s, pc) => ChildKeepsFin(st, fin, t, s, pc, slot);
          case Begin(s, pc) => BeginKeepsFin(st, fin, t, s, pc);
          case Finish(s, pc) => FinishKeepsFin(st, fin, t, s, pc);
        }
    }
  }

  // ----- runs

  /** The scopes some `finish_close` has stored as closed by state `i`. */
  ghost function Finished(states: seq<State>, threads: seq<Thread>, actions: seq<Action>, i: nat): set<Ref>
    requires i <= |actions| && |states| == |actions| + 1 && |threads| == |actions|
  {
    if i == 0 then {}
    else Finished(states, threads, actions, i - 1) + Stored(states[i - 1], threads[i - 1], actions[i - 1])
  }

  lemma InitialFin(root: Ref)
    ensures FinInv(Initial(root), {})
  {
  }

  lemma {:induction false} RunKeepsFin(states: seq<State>, threads: seq<Thread>, actions: seq<Action>, root: Ref,
      i: nat)
    requires Run(states, threads, actions, root) && i < |states|
    ensures FinInv(states[i], Finished(states, threads, actions, i))
  {
    hide FinInv, Inv, Next, Enabled, Stored, Initial;
    if i == 0 {
      InitialFin(root);
    } else {
      RunKeepsFin(states, threads, actions, root, i - 1);
      RunKeepsInv(states, threads, actions, root, i - 1);
      NextKeepsFin(states[i - 1], Finished(states, threads, actions, i - 1), threads[i - 1], actions[i - 1]);
    }
  }

  lemma {:induction false} FinishedGrows(states: seq<State>, threads: seq<Thread>, actions: seq<Action>, i: nat, j: nat)
    requires i <= j <= |actions| && |states| == |actions| + 1 && |threads| == |actions|
    ensures Finished(states, threads, actions, i) <= Finished(states, threads, actions, j)
    decreases j - i
  {
    if i < j { FinishedGrows(states, threads, actions, i, j - 1); }
  }

  /** A finished scope was stored as closed by some step. */
  lemma {:induction false} FinishedWasClosed(states: seq<State>, threads: seq<Thread>, actions: seq<Action>, root: Ref,
      j: nat, s: Ref) returns (k: nat)
    requires Run(states, threads, actions, root) && j < |states| && s in Finished(states, threads, actions, j)
    ensures k <= j && s in states[k].state && states[k].state[s] == Closed
  {
    hide Next, Enabled, Inv;
    if s in Finished(states, threads, actions, j - 1) {
      k := FinishedWasClosed(states, threads, actions, root, j - 1, s);
    } else {
      k := j;
      StoreCloses(states[j - 1], threads[j - 1], actions[j - 1], s);
    }
  }

  lemma StoreCloses(st: State, t: Thread, a: Action, s: Ref)
    requires Enabled(st, t, a) && s in Stored(st, t, a)
    ensures s in Next(st, t, a).state && Next(st, t, a).state[s] == Closed
  {
    StateAfter(st, t, a, s);
    hide Next;
  }

  lemma {:induction false} ChainIsFinished(st: State, fin: set<Ref>, path: seq<Ref>, k: nat)
    requires FinShared(st, fin) && Chain(st, path) && path[0] in fin && k < |path|
    ensures path[k] in fin
  {
    if k > 0 {
      ChainIsFinished(st, fin, path, k - 1);
      assert LiveChild(st, path[k - 1], path[k]);
    }
  }

  /** Once `finish_close` has stored a scope as closed it has closed everything below it: in
      every later state all its live registered descendants are closed, unless a repeated
      `begin_close` is between its swap and its store. */
  lemma FinishedSubtreeStaysClosed(states: seq<State>, threads: seq<Thread>, actions: seq<Action>, root: Ref,
                                   i: nat, j: nat, path: seq<Ref>, k: nat)
    requires Run(states, threads, actions, root) && i <= j < |states| && k < |path|
    requires path[0] in Finished(states, threads, actions, i) && Chain(states[j], path)
    ensures path[k] in states[j].state && (states[j].state[path[k]] == Closed || Restoring(states[j], path[k]))
  {
    var fin := Finished(states, threads, actions, j);
    FinishedGrows(states, threads, actions, i, j);
    RunKeepsFin(states, threads, actions, root, j);
    hide Run, Restoring, Finished;
    ChainIsFinished(states[j], fin, path, k);
    var m := FinishedWasClosed(states, threads, actions, root, j, path[k]);
    ClosedIsRestored(states, threads, actions, root, m, j, path[k]);
  }
}
