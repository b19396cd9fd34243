/** What closing a scope means over whole runs, for every interleaving. */
module ScopeRuns {
  import opened Model
  import opened ScopeTree
  import opened ScopeClosure

  /** What no step undoes. */
  ghost predicate Monotone(st: State, n: State) {
    && (forall r :: r in st.state ==> r in n.state && (st.state[r] != Open ==> n.state[r] != Open))
    && (forall r :: r in st.parent ==> r in n.parent && n.parent[r] == st.parent[r])
    && (forall r :: r in st.id ==> r in n.id && n.id[r] == st.id[r])
    && st.swept <= n.swept && st.registered <= n.registered
    && (forall c :: c in n.registered && c !in st.registered ==>
          c in n.parent && n.parent[c].Some? && n.parent[c].value !in st.swept)
  }

  lemma ChildMonotone(st: State, t: Thread, s: Ref, pc: ChildPc, slot: Ref)
    requires Inv(st) && StackOf(st, t) != [] && Top(st, t) == Child(s, pc) && FrameEnabled(st, t, Child(s, pc), slot)
    ensures Monotone(st, ChildStep(st, t, s, pc, slot))
  {
    hide Inv, TreeOk, ClosureOk, StackOk, LocksFit;
    StackIsOk(st, t);
    if pc.Push? {
      PushMonotone(st, t, s, pc.child);
    } else if pc.Allocate? {
      AllocateMonotone(st, t, s, slot);
    }
  }

  lemma PushMonotone(st: State, t: Thread, s: Ref, c: Ref)
    requires Inv(st) && StackOf(st, t) != [] && Allocated(st, s) && ChildFits(st, s, Push(c))
    ensures Monotone(st, ChildStep(st, t, s, Push(c), 0))
  {
    hide TreeOk, StackOk, LocksFit, Findable, Sealed;
  }

  lemma AllocateMonotone(st: State, t: Thread, s: Ref, slot: Ref)
    requires StackOf(st, t) != [] && FrameEnabled(st, t, Child(s, Allocate), slot)
    ensures Monotone(st, ChildStep(st, t, s, Allocate, slot))
  {
  }

  lemma BeginMonotone(st: State, t: Thread, s: Ref, pc: BeginPc)
    requires Inv(st) && StackOf(st, t) != [] && Top(st, t) == Begin(s, pc) && Allocated(st, s)
    ensures Monotone(st, BeginStep(st, t, s, pc))
  {
    hide Inv;
  }

  lemma FinishMonotone(st: State, t: Thread, s: Ref, pc: FinishPc)
    requires Inv(st) && StackOf(st, t) != [] && Top(st, t) == Finish(s, pc) && FrameEnabled(st, t, Finish(s, pc), 0)
    ensures Monotone(st, FinishStep(st, t, s, pc))
  {
    hide Inv;
  }

  lemma NextIsMonotone(st: State, t: Thread, a: Action)
    requires Inv(st) && Enabled(st, t, a)
    ensures Monotone(st, Next(st, t, a))
  {
    hide Inv, Monotone, ChildStep, BeginStep, FinishStep;
    if a.Advance? {
      match Top(st, t) {
        case Child(s, pc) => ChildMonotone(st, t, s, pc, a.slot);
        case Begin(s, pc) => BeginMonotone(st, t, s, pc);
        case Finish(s, pc) => FinishMonotone(st, t, s, pc);
      }
    } else {
      StartOrDropMonotone(st, Next(st, t, a));
    }
  }

  lemma StartOrDropMonotone(st: State, n: State)
    requires n == st.(stacks := n.stacks, alive := n.alive)
    ensures Monotone(st, n)
  {
  }

  // ----- runs

  ghost predicate Run(states: seq<State>, threads: seq<Thread>, actions: seq<Action>, root: Ref) {
    && |states| == |actions| + 1 && |threads| == |actions|
    && states[0] == Initial(root)
    && forall i :: 0 <= i < |actions| ==>
        Enabled(states[i], threads[i], actions[i]) && states[i + 1] == Next(states[i], threads[i], actions[i])
  }

  lemma {:induction false} RunKeepsInv(states: seq<State>, threads: seq<Thread>, actions: seq<Action>, root: Ref,
      i: nat)
    requires Run(states, threads, actions, root) && i < |states|
    ensures Inv(states[i])
  {
    if i == 0 {
      InitialInv(root);
    } else {
      RunKeepsInv(states, threads, actions, root, i - 1);
      NextKeepsInv(states[i - 1], threads[i - 1], actions[i - 1]);
    }
  }

  lemma SelfMonotone(st: State)
    ensures Monotone(st, st)
  {
  }

  lemma MonotoneTransitive(a: State, b: State, c: State)
    requires Monotone(a, b) && Monotone(b, c)
    ensures Monotone(a, c)
  {
  }

  lemma {:induction false} RunIsMonotone(states: seq<State>, threads: seq<Thread>, actions: seq<Action>, root: Ref,
      i: nat, j: nat)
    requires Run(states, threads, actions, root) && i <= j < |states|
    ensures Monotone(states[i], states[j])
    decreases j - i
  {
    hide Monotone, Inv, Next, Enabled, Initial;
    if i == j {
      SelfMonotone(states[i]);
    } else {
      RunIsMonotone(states, threads, actions, root, i, j - 1);
      RunKeepsInv(states, threads, actions, root, j - 1);
      NextIsMonotone(states[j - 1], threads[j - 1], actions[j - 1]);
      MonotoneTransitive(states[i], states[j - 1], states[j]);
    }
  }

  /** A chain of live registered scopes, each the child of the one before. */
  ghost predicate Chain(st: State, path: seq<Ref>) {
    path != [] && forall i :: 0 <= i < |path| - 1 ==> LiveChild(st, path[i], path[i + 1])
  }

  lemma {:induction false} ChainIsSwept(st: State, path: seq<Ref>, k: nat)
    requires Inv(st) && Chain(st, path) && path[0] in st.swept && k < |path|
    ensures path[k] in st.swept && path[k] in st.state && st.state[path[k]] != Open
  {
    if k > 0 {
      ChainIsSwept(st, path, k - 1);
      assert LiveChild(st, path[k - 1], path[k]);
    }
    assert path[k] in st.swept;
    assert Allocated(st, path[k]);
  }

  /** Once `begin_close` has returned on a scope, then in every later state all its live
      registered descendants are closing or closed. */
  lemma ClosedSubtreeStaysClosed(states: seq<State>, threads: seq<Thread>, actions: seq<Action>, root: Ref,
                                 i: nat, j: nat, path: seq<Ref>)
    requires Run(states, threads, actions, root) && i <= j < |states|
    requires path != [] && path[0] in states[i].swept && Chain(states[j], path)
    ensures forall k :: 0 <= k < |path| ==> path[k] in states[j].state && states[j].state[path[k]] != Open
  {
    RunKeepsInv(states, threads, actions, root, j);
    RunIsMonotone(states, threads, actions, root, i, j);
    forall k | 0 <= k < |path|
      ensures path[k] in states[j].state && states[j].state[path[k]] != Open
    {
      ChainIsSwept(states[j], path, k);
    }
  }

  /** ... and no `child` call on any of them succeeds any more. */
  lemma NoChildAfterClose(states: seq<State>, threads: seq<Thread>, actions: seq<Action>, root: Ref,
                          i: nat, j: nat, path: seq<Ref>, c: Ref)
    requires Run(states, threads, actions, root) && i <= j < |states|
    requires path != [] && path[0] in states[i].swept && Chain(states[i], path)
    requires c in states[j].registered && c in states[j].parent && states[j].parent[c] == Some(path[|path| - 1])
    ensures c in states[i].registered
  {
    RunKeepsInv(states, threads, actions, root, i);
    RunIsMonotone(states, threads, actions, root, i, j);
    ChainIsSwept(states[i], path, |path| - 1);
  }

  /** No scope is ever open again. */
  lemma NeverOpenAgain(states: seq<State>, threads: seq<Thread>, actions: seq<Action>, root: Ref, i: nat, j: nat,
      r: Ref)
    requires Run(states, threads, actions, root) && i <= j < |states|
    requires r in states[i].state && states[i].state[r] != Open
    ensures r in states[j].state && states[j].state[r] != Open
  {
    RunIsMonotone(states, threads, actions, root, i, j);
  }

  /** Scopes of one application have distinct identities, and keep them. */
  lemma IdentitiesAreDistinct(states: seq<State>, threads: seq<Thread>, actions: seq<Action>, root: Ref, i: nat, j: nat,
      r: Ref, q: Ref)
    requires Run(states, threads, actions, root) && i <= j < |states|
    requires r in states[i].id && q in states[j].id && r != q
    ensures r in states[j].id && states[j].id[r] == states[i].id[r] && states[j].id[q] != states[i].id[r]
  {
    RunKeepsInv(states, threads, actions, root, j);
    RunIsMonotone(states, threads, actions, root, i, j);
  }
}
