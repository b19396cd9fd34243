/** What each scope operation achieves when its thread runs on alone: when `child` succeeds
    and when it refuses, and that `begin_close` and `finish_close` return, and with what. */
module ScopeProgress {
  import opened Model
  import opened ScopeTree
  import opened ScopeClosure
  import opened ScopeRuns

  // ----- the steps of one thread

  ghost predicate ReachesIn(st: State, t: Thread, n: State, k: nat)
    decreases k
  {
    if k == 0 then n == st
    else exists slot :: Enabled(st, t, Advance(slot)) && ReachesIn(Next(st, t, Advance(slot)), t, n, k - 1)
  }

  /** The thread's own next operations lead from `st` to `n`. */
  ghost predicate Reaches(st: State, t: Thread, n: State) {
    exists k :: ReachesIn(st, t, n, k)
  }

  lemma Here(st: State, t: Thread)
    ensures Reaches(st, t, st)
  {
    assert ReachesIn(st, t, st, 0);
  }

  lemma OneStep(st: State, t: Thread, slot: Ref, n: State)
    requires Enabled(st, t, Advance(slot)) && Reaches(Next(st, t, Advance(slot)), t, n)
    ensures Reaches(st, t, n)
  {
    hide Enabled, Next;
    var k: nat :| ReachesIn(Next(st, t, Advance(slot)), t, n, k);
    assert ReachesIn(st, t, n, k + 1);
  }

  lemma {:induction false} Then(st: State, t: Thread, m: State, n: State, k: nat)
    requires ReachesIn(st, t, m, k) && Reaches(m, t, n)
    ensures Reaches(st, t, n)
    decreases k
  {
    hide Enabled, Next;
    if k > 0 {
      var slot :| Enabled(st, t, Advance(slot)) && ReachesIn(Next(st, t, Advance(slot)), t, m, k - 1);
      Then(Next(st, t, Advance(slot)), t, m, n, k - 1);
      OneStep(st, t, slot, n);
    }
  }

  lemma Onward(st: State, t: Thread, m: State, n: State)
    requires Reaches(st, t, m) && Reaches(m, t, n)
    ensures Reaches(st, t, n)
  {
    var k: nat :| ReachesIn(st, t, m, k);
    Then(st, t, m, n, k);
  }

  /** `t` is in no operation and its caller holds `s`. */
  ghost predicate MayCall(st: State, t: Thread, s: Ref) {
    StackOf(st, t) == [] && s in st.alive && Allocated(st, s)
  }

  // ----- child

  /** A `child` call comes to refuse exactly at a check that does not find its receiver open,
      and comes to succeed exactly by listing its child last. */
  lemma ChildTurnsAwayIff(st: State, t: Thread, slot: Ref, s: Ref, pc: ChildPc)
    requires Enabled(st, t, Advance(slot)) && Top(st, t) == Child(s, pc) && !pc.ChildDone?
    ensures var n := Next(st, t, Advance(slot));
            && StackOf(n, t) != [] && Top(n, t).Child? && Top(n, t).scope == s
            && (Top(n, t).child == ChildDone(None) <==> (pc.CheckOpen? || pc.Recheck?) && st.state[s] != Open)
            && (forall c :: Top(n, t).child == ChildDone(Some(c)) <==> pc == Push(c))
            && (forall c :: pc == Push(c) ==> n.children == st.children[s := st.children[s] + [c]])
  {
  }

  ghost predicate Fresh(st: State, slot: Ref) {
    !(slot in st.state || slot in st.parent || slot in st.id || slot in st.children)
  }

  /** A new open scope `c` under `s`: the next identity, last in the list of `s`. */
  ghost function WithChild(st: State, s: Ref, c: Ref): State
    requires s in st.children
  {
    st.(state := st.state[c := Open], parent := st.parent[c := Some(s)], id := st.id[c := st.nextId],
        children := st.children[c := []][s := st.children[s] + [c]], alive := st.alive + {c}, nextId := st.nextId + 1,
        registered := st.registered + {c})
  }

  ghost predicate Steps(st: State, t: Thread, slot: Ref, n: State) {
    Enabled(st, t, Advance(slot)) && Next(st, t, Advance(slot)) == n
  }

  /** `c` allocated under `s`, not yet registered. */
  ghost function Born(st: State, s: Ref, c: Ref): State {
    st.(state := st.state[c := Open], parent := st.parent[c := Some(s)], id := st.id[c := st.nextId],
        children := st.children[c := []], alive := st.alive + {c}, nextId := st.nextId + 1)
  }

  ghost function InChild(st: State, t: Thread, s: Ref, pc: ChildPc): State {
    WithStack(st, t, [Child(s, pc)])
  }

  lemma CheckStep(st: State, t: Thread, s: Ref, c: Ref)
    requires Allocated(st, s) && st.state[s] == Open
    ensures Steps(InChild(st, t, s, CheckOpen), t, c, InChild(st, t, s, Allocate))
  {
    Single(st, t, Child(s, CheckOpen), Child(s, Allocate));
  }

  lemma AllocateStep(st: State, t: Thread, s: Ref, c: Ref)
    requires Allocated(st, s) && Fresh(st, c)
    ensures Steps(InChild(st, t, s, Allocate), t, c, InChild(Born(st, s, c), t, s, LockChildren(c)))
  {
    Single(Born(st, s, c), t, Child(s, Allocate), Child(s, LockChildren(c)));
    Single(st, t, Child(s, Allocate), Child(s, Allocate));
    assert InChild(st, t, s, Allocate).(stacks := st.stacks) == st;
  }

  lemma LockStep(st: State, t: Thread, s: Ref, c: Ref)
    requires Allocated(st, s) && s !in st.locks
    ensures Steps(InChild(st, t, s, LockChildren(c)), t, c,
                  InChild(st.(locks := st.locks[s := t]), t, s, Recheck(c)))
  {
    Single(st.(locks := st.locks[s := t]), t, Child(s, LockChildren(c)), Child(s, Recheck(c)));
  }

  lemma RecheckStep(st: State, t: Thread, s: Ref, c: Ref)
    requires Allocated(st, s) && st.state[s] == Open
    ensures Steps(InChild(st, t, s, Recheck(c)), t, c, InChild(st, t, s, Push(c)))
  {
    Single(st, t, Child(s, Recheck(c)), Child(s, Push(c)));
  }

  lemma PushStep(st: State, t: Thread, s: Ref, c: Ref)
    requires Allocated(st, s) && s !in st.locks
    ensures Steps(InChild(st.(locks := st.locks[s := t]), t, s, Push(c)), t, c,
                  InChild(st.(children := st.children[s := st.children[s] + [c]], registered := st.registered + {c}), t,
                          s, ChildDone(Some(c))))
  {
    var listed := st.(children := st.children[s := st.children[s] + [c]], registered := st.registered + {c});
    Single(listed, t, Child(s, Push(c)), Child(s, ChildDone(Some(c))));
    assert st.locks[s := t] - {s} == st.locks;
  }

  lemma BornIsListed(st: State, s: Ref, c: Ref)
    requires Allocated(st, s) && Fresh(st, c)
    ensures var b := Born(st, s, c);
            && Allocated(b, s) && b.locks == st.locks && b.state[s] == st.state[s]
            && b.(children := b.children[s := b.children[s] + [c]], registered := b.registered + {c})
               == WithChild(st, s, c)
  {
  }

  /** On an open scope whose list is not locked, a `child` that runs alone registers and
      returns a new scope. */
  lemma ChildSucceeds(st: State, t: Thread, s: Ref, c: Ref)
    requires MayCall(st, t, s) && st.state[s] == Open && s !in st.locks && Fresh(st, c)
    ensures Enabled(st, t, StartChild(s))
    ensures Reaches(Next(st, t, StartChild(s)), t, InChild(WithChild(st, s, c), t, s, ChildDone(Some(c))))
  {
    var b := Born(st, s, c);
    var locked := b.(locks := b.locks[s := t]);
    var end := InChild(WithChild(st, s, c), t, s, ChildDone(Some(c)));
    assert Next(st, t, StartChild(s)) == InChild(st, t, s, CheckOpen);
    assert Allocated(st, s);
    BornIsListed(st, s, c);
    hide Reaches, Enabled, Next, Born, WithChild, InChild;
    Here(end, t);
    PushStep(b, t, s, c);
    OneStep(InChild(locked, t, s, Push(c)), t, c, end);
    RecheckStep(locked, t, s, c);
    OneStep(InChild(locked, t, s, Recheck(c)), t, c, end);
    LockStep(b, t, s, c);
    OneStep(InChild(b, t, s, LockChildren(c)), t, c, end);
    AllocateStep(st, t, s, c);
    OneStep(InChild(st, t, s, Allocate), t, c, end);
    CheckStep(st, t, s, c);
    OneStep(InChild(st, t, s, CheckOpen), t, c, end);
  }

  lemma Single(st: State, t: Thread, frame: Frame, next: Frame)
    ensures ReplaceTop(WithStack(st, t, [frame]), t, next) == WithStack(st, t, [next])
    ensures StackOf(WithStack(st, t, [frame]), t) == [frame]
  {
    assert [frame][..0] + [next] == [next];
    assert st.stacks[t := [frame]][t := [next]] == st.stacks[t := [next]];
  }

  /** On a scope that is not open it refuses and leaves everything as it was. */
  lemma ChildRefuses(st: State, t: Thread, s: Ref)
    requires MayCall(st, t, s) && st.state[s] != Open
    ensures Enabled(st, t, StartChild(s))
    ensures Reaches(Next(st, t, StartChild(s)), t, WithStack(st, t, [Child(s, ChildDone(None))]))
  {
    var s0, s1 := WithStack(st, t, [Child(s, CheckOpen)]), WithStack(st, t, [Child(s, ChildDone(None))]);
    Single(st, t, Child(s, CheckOpen), Child(s, ChildDone(None)));
    Here(s1, t);
    assert Enabled(s0, t, Advance(0)) && Next(s0, t, Advance(0)) == s1;
    OneStep(s0, t, 0, s1);
  }

  // ----- the tree has no cycle

  /** A scope's identity is below those of its children. */
  ghost predicate Ranked(st: State) {
    forall r :: r in st.parent && st.parent[r].Some? ==>
        st.parent[r].value in st.id && r in st.id && st.id[st.parent[r].value] < st.id[r]
  }

  lemma NextKeepsRanked(st: State, t: Thread, a: Action)
    requires Inv(st) && Ranked(st) && Enabled(st, t, a)
    ensures Ranked(Next(st, t, a))
  {
    InvHolds(st);
    hide Inv, StatesOk, Findable, Sealed, Linked, Ranked, Known, DistinctIds, ChildStep, BeginStep, FinishStep,
      FrameEnabled, LocksFit;
    if a.Advance? {
      match Top(st, t) {
        case Child(s, pc) => ChildKeepsRanked(st, t, s, pc, a.slot);
        case Begin(s, pc) => BeginKeepsLinks(st, t, s, pc); SameRanks(st, Next(st, t, a));
        case Finish(s, pc) => FinishKeepsLinks(st, t, s, pc); SameRanks(st, Next(st, t, a));
      }
    } else {
      SameRanks(st, Next(st, t, a));
    }
  }

  lemma BeginKeepsLinks(st: State, t: Thread, s: Ref, pc: BeginPc)
    requires StackOf(st, t) != [] && s in st.state && s in st.children
    ensures BeginStep(st, t, s, pc).parent == st.parent && BeginStep(st, t, s, pc).id == st.id
  {
  }

  lemma FinishKeepsLinks(st: State, t: Thread, s: Ref, pc: FinishPc)
    requires StackOf(st, t) != [] && FrameEnabled(st, t, Finish(s, pc), 0)
    ensures FinishStep(st, t, s, pc).parent == st.parent && FinishStep(st, t, s, pc).id == st.id
  {
    hide Retain;
  }

  lemma SameRanks(st: State, n: State)
    requires Ranked(st) && n.parent == st.parent && n.id == st.id
    ensures Ranked(n)
  {
  }

  lemma ChildLinks(st: State, t: Thread, s: Ref, pc: ChildPc, slot: Ref)
    requires StackOf(st, t) != [] && s in st.state && s in st.children
    ensures var n := ChildStep(st, t, s, pc, slot);
            if pc.Allocate? then n.parent == st.parent[slot := Some(s)] && n.id == st.id[slot := st.nextId]
            else n.parent == st.parent && n.id == st.id
  {
  }

  lemma ChildKeepsRanked(st: State, t: Thread, s: Ref, pc: ChildPc, slot: Ref)
    requires Known(st) && DistinctIds(st) && Ranked(st) && StackOf(st, t) != []
    requires FrameEnabled(st, t, Child(s, pc), slot)
    ensures Ranked(ChildStep(st, t, s, pc, slot))
  {
    hide ReplaceTop, Pop;
    var n := ChildStep(st, t, s, pc, slot);
    ChildLinks(st, t, s, pc, slot);
    hide ChildStep;
    if pc.Allocate? {
      forall r | r in n.parent && n.parent[r].Some?
        ensures n.parent[r].value in n.id && r in n.id && n.id[n.parent[r].value] < n.id[r]
      {
        if r != slot { assert n.parent[r] == st.parent[r]; }
      }
    } else {
      SameRanks(st, n);
    }
  }

  lemma InitialRanked(root: Ref)
    ensures Ranked(Initial(root))
  {
  }

  lemma {:induction false} RunIsRanked(states: seq<State>, threads: seq<Thread>, actions: seq<Action>, root: Ref,
      i: nat)
    requires Run(states, threads, actions, root) && i < |states|
    ensures Ranked(states[i])
  {
    hide Inv, Next, Enabled, Ranked, Initial;
    if i == 0 {
      InitialRanked(root);
    } else {
      RunIsRanked(states, threads, actions, root, i - 1);
      RunKeepsInv(states, threads, actions, root, i - 1);
      NextKeepsRanked(states[i - 1], threads[i - 1], actions[i - 1]);
    }
  }

  /** `path` leads from `s` down to `r`. */
  ghost predicate Descends(parent: map<Ref, Option<Ref>>, path: seq<Ref>, s: Ref, r: Ref) {
    && path != [] && path[0] == s && path[|path| - 1] == r
    && forall i :: 0 < i < |path| ==> path[i] in parent && parent[path[i]] == Some(path[i - 1])
  }

  /** `r` is `s` or below it. */
  ghost predicate Under(parent: map<Ref, Option<Ref>>, s: Ref, r: Ref) {
    exists path :: Descends(parent, path, s, r)
  }

  lemma UnderSelf(parent: map<Ref, Option<Ref>>, s: Ref)
    ensures Under(parent, s, s)
  {
    assert Descends(parent, [s], s, s);
  }

  lemma UnderChild(parent: map<Ref, Option<Ref>>, s: Ref, c: Ref, r: Ref)
    requires c in parent && parent[c] == Some(s) && Under(parent, c, r)
    ensures Under(parent, s, r)
  {
    var path :| Descends(parent, path, c, r);
    var longer := [s] + path;
    forall i | 0 < i < |longer| ensures longer[i] in parent && parent[longer[i]] == Some(longer[i - 1]) {
      assert longer[i] == path[i - 1] && (i > 1 ==> longer[i - 1] == path[i - 2]);
    }
    assert Descends(parent, longer, s, r);
  }

  // ----- begin_close

  /** `n` is `st` with `t` back at `stack` and some open scopes below `s` closing. */
  ghost predicate Closes(st: State, n: State, t: Thread, stack: seq<Frame>, s: Ref) {
    && n == WithStack(st, t, stack).(state := n.state, snapshotted := n.snapshotted, swept := n.swept)
    && n.state.Keys == st.state.Keys
    && forall r :: r in st.state && n.state[r] != st.state[r] ==>
         st.state[r] == Open && n.state[r] == Closing && Under(st.parent, s, r)
  }

  ghost predicate Ready(st: State, t: Thread, stack: seq<Frame>) {
    Inv(st) && Ranked(st) && st.locks == map[] && StackOf(st, t) == stack && t in st.stacks
  }

  lemma StepReady(st: State, t: Thread, slot: Ref, stack: seq<Frame>, moved: seq<Frame>)
    requires Ready(st, t, stack) && Enabled(st, t, Advance(slot))
    requires var n := Next(st, t, Advance(slot)); n.locks == map[] && StackOf(n, t) == moved && t in n.stacks
    ensures Ready(Next(st, t, Advance(slot)), t, moved)
  {
    hide Inv, Ranked, Next, Enabled;
    NextKeepsInv(st, t, Advance(slot));
    NextKeepsRanked(st, t, Advance(slot));
  }

  lemma ScopeIsKnown(st: State, t: Thread, below: seq<Frame>, frame: Frame)
    requires Ready(st, t, below + [frame])
    ensures Allocated(st, frame.scope) && frame.scope in st.alive && Top(st, t) == frame
    ensures st.id[frame.scope] < st.nextId
    ensures forall c :: c in st.children[frame.scope] ==> c in st.parent && st.parent[c] == Some(frame.scope)
  {
    InvHolds(st);
    StackIsOk(st, t);
  }

  lemma Moves(st: State, t: Thread, below: seq<Frame>, frame: Frame, next: Frame, callee: Frame)
    requires StackOf(st, t) == below + [frame]
    ensures ReplaceTop(st, t, next) == WithStack(st, t, below + [next])
    ensures Pop(st, t) == WithStack(st, t, below)
    ensures Call(st, t, next, callee) == WithStack(st, t, below + [next] + [callee])
  {
    var stack := below + [frame];
    assert stack[..|stack| - 1] == below;
    assert below + [next, callee] == below + [next] + [callee];
  }

  lemma ClosesThen(st: State, m: State, n: State, t: Thread, mid: seq<Frame>, stack: seq<Frame>, s: Ref)
    requires Closes(st, m, t, mid, s) && Closes(m, n, t, stack, s)
    ensures Closes(st, n, t, stack, s)
  {
    hide Under;
    assert st.stacks[t := mid][t := stack] == st.stacks[t := stack];
  }

  lemma ClosesBelow(st: State, n: State, t: Thread, stack: seq<Frame>, s: Ref, c: Ref)
    requires Closes(st, n, t, stack, c) && c in st.parent && st.parent[c] == Some(s)
    ensures Closes(st, n, t, stack, s)
  {
    forall r | r in st.state && n.state[r] != st.state[r] ensures Under(st.parent, s, r) {
      UnderChild(st.parent, s, c, r);
    }
    hide Under;
  }

  lemma OnlyMovesCloses(st: State, n: State, t: Thread, stack: seq<Frame>, s: Ref)
    requires n == WithStack(st, t, stack).(snapshotted := n.snapshotted, swept := n.swept)
    ensures Closes(st, n, t, stack, s)
  {
  }

  /** One operation of `begin_close` on `s`. */
  lemma BeginOnce(st: State, t: Thread, below: seq<Frame>, s: Ref, pc: BeginPc)
    requires Ready(st, t, below + [Begin(s, pc)])
    ensures Enabled(st, t, Advance(0)) && Top(st, t) == Begin(s, pc)
    ensures s in st.state && s in st.children && s in st.id && st.id[s] < st.nextId
    ensures Next(st, t, Advance(0)) == BeginStep(st, t, s, pc)
    ensures forall c :: c in st.children[s] ==> c in st.parent && st.parent[c] == Some(s)
  {
    ScopeIsKnown(st, t, below, Begin(s, pc));
    hide Ready, BeginStep;
    assert FrameEnabled(st, t, Begin(s, pc), 0) by { NoLocks(st, t, below + [Begin(s, pc)]); }
  }

  lemma NoLocks(st: State, t: Thread, stack: seq<Frame>)
    requires Ready(st, t, stack)
    ensures st.locks == map[] && StackOf(st, t) == stack
  {
  }

  /** The sweep over `todo` returns and closes what is open below. */
  lemma {:induction false} SweepReturns(st: State, t: Thread, below: seq<Frame>, s: Ref, todo: seq<Ref>)
      returns (n: State)
    requires Ready(st, t, below + [Begin(s, Sweep(todo))]) && s in st.id
    requires forall c :: c in todo ==> c in st.parent && st.parent[c] == Some(s)
    ensures Reaches(st, t, n) && Ready(n, t, below) && Closes(st, n, t, below, s) && s in n.swept
    decreases st.nextId - st.id[s], 0, |todo|
  {
    hide Reaches, Ready, Closes;
    BeginOnce(st, t, below, s, Sweep(todo));
    var m := Next(st, t, Advance(0));
    if todo == [] {
      n := m;
      SweepEnds(st, t, below, s);
      Here(n, t);
    } else if todo[0] in st.alive {
      SweepCallsNext(st, t, below, s, todo);
      var caller := Begin(s, Sweep(todo[1..]));
      ChildRank(st, s, todo[0]);
      var m2 := BeginReturns(m, t, below + [caller], todo[0]);
      AfterChild(st, m, m2, t, below, s, todo);
      n := SweepReturns(m2, t, below, s, todo[1..]);
      ClosesThen(st, m2, n, t, below + [caller], below, s);
      Onward(m, t, m2, n);
    } else {
      SweepPasses(st, t, below, s, todo);
      n := SweepReturns(m, t, below, s, todo[1..]);
      ClosesThen(st, m, n, t, below + [Begin(s, Sweep(todo[1..]))], below, s);
    }
    OneStep(st, t, 0, n);
  }

  lemma SweepEnds(st: State, t: Thread, below: seq<Frame>, s: Ref)
    requires Ready(st, t, below + [Begin(s, Sweep([]))])
    ensures Enabled(st, t, Advance(0))
    ensures var n := Next(st, t, Advance(0)); Ready(n, t, below) && Closes(st, n, t, below, s) && s in n.swept
  {
    BeginOnce(st, t, below, s, Sweep([]));
    Moves(st.(swept := st.swept + {s}), t, below, Begin(s, Sweep([])), Begin(s, Swap), Begin(s, Swap));
    var n := Next(st, t, Advance(0));
    assert n == WithStack(st.(swept := st.swept + {s}), t, below);
    NoLocks(st, t, below + [Begin(s, Sweep([]))]);
    hide BeginStep, Enabled, Inv, Ranked;
    OnlyMovesCloses(st, n, t, below, s);
    StepReady(st, t, 0, below + [Begin(s, Sweep([]))], below);
  }

  lemma SweepPasses(st: State, t: Thread, below: seq<Frame>, s: Ref, todo: seq<Ref>)
    requires Ready(st, t, below + [Begin(s, Sweep(todo))]) && todo != [] && todo[0] !in st.alive
    ensures Enabled(st, t, Advance(0))
    ensures var n, stack := Next(st, t, Advance(0)), below + [Begin(s, Sweep(todo[1..]))];
            && Ready(n, t, stack) && Closes(st, n, t, stack, s)
            && n.nextId == st.nextId && n.id == st.id && n.parent == st.parent
  {
    BeginOnce(st, t, below, s, Sweep(todo));
    var next := Begin(s, Sweep(todo[1..]));
    Moves(st, t, below, Begin(s, Sweep(todo)), next, next);
    var n := Next(st, t, Advance(0));
    assert n == WithStack(st, t, below + [next]);
    NoLocks(st, t, below + [Begin(s, Sweep(todo))]);
    hide BeginStep, Enabled, Inv, Ranked;
    OnlyMovesCloses(st, n, t, below + [next], s);
    StepReady(st, t, 0, below + [Begin(s, Sweep(todo))], below + [next]);
  }

  lemma SweepCallsNext(st: State, t: Thread, below: seq<Frame>, s: Ref, todo: seq<Ref>)
    requires Ready(st, t, below + [Begin(s, Sweep(todo))]) && todo != [] && todo[0] in st.alive
    ensures Enabled(st, t, Advance(0))
    ensures var n, caller := Next(st, t, Advance(0)), Begin(s, Sweep(todo[1..]));
            && Ready(n, t, below + [caller] + [Begin(todo[0], Swap)])
            && n == WithStack(st, t, below + [caller] + [Begin(todo[0], Swap)])
  {
    BeginOnce(st, t, below, s, Sweep(todo));
    var caller, callee := Begin(s, Sweep(todo[1..])), Begin(todo[0], Swap);
    Moves(st, t, below, Begin(s, Sweep(todo)), caller, callee);
    NoLocks(st, t, below + [Begin(s, Sweep(todo))]);
    hide BeginStep, Enabled, Inv, Ranked;
    StepReady(st, t, 0, below + [Begin(s, Sweep(todo))], below + [caller] + [callee]);
  }

  lemma ChildRank(st: State, s: Ref, c: Ref)
    requires c in st.parent && st.parent[c] == Some(s) && exists t, stack :: Ready(st, t, stack)
    ensures s in st.id && c in st.id && st.id[s] < st.id[c] < st.nextId
  {
    var t, stack :| Ready(st, t, stack);
    InvHolds(st);
    hide Inv;
  }

  lemma AfterChild(st: State, m: State, m2: State, t: Thread, below: seq<Frame>, s: Ref, todo: seq<Ref>)
    requires todo != [] && todo[0] in st.parent && st.parent[todo[0]] == Some(s)
    requires m == WithStack(st, t, below + [Begin(s, Sweep(todo[1..]))] + [Begin(todo[0], Swap)])
    requires Closes(m, m2, t, below + [Begin(s, Sweep(todo[1..]))], todo[0])
    ensures Closes(st, m2, t, below + [Begin(s, Sweep(todo[1..]))], s)
    ensures m2.nextId == st.nextId && m2.id == st.id && m2.parent == st.parent
  {
    var mid := below + [Begin(s, Sweep(todo[1..]))];
    ClosesBelow(m, m2, t, mid, s, todo[0]);
    hide Under;
    assert st.stacks[t := mid + [Begin(todo[0], Swap)]][t := mid] == st.stacks[t := mid];
  }

  /** `begin_close` returns; a closed scope is closed again, any other is closing. */
  lemma {:induction false} BeginReturns(st: State, t: Thread, below: seq<Frame>, s: Ref) returns (n: State)
    requires Ready(st, t, below + [Begin(s, Swap)]) && s in st.id
    ensures Reaches(st, t, n) && Ready(n, t, below) && Closes(st, n, t, below, s) && s in n.swept
    ensures s in st.state && s in n.state && n.state[s] == if st.state[s] == Closed then Closed else Closing
    decreases st.nextId - st.id[s], 1, 0
  {
    hide Reaches, Ready, Closes;
    BeginOnce(st, t, below, s, Swap);
    var m := Next(st, t, Advance(0));
    if st.state[s] == Closed {
      n := CloseAgain(st, t, below, s);
    } else {
      var m2 := SwapAndSnapshot(st, t, below, s);
      n := SweepReturns(m2, t, below, s, st.children[s]);
      ClosesThen(st, m2, n, t, below + [Begin(s, Sweep(st.children[s]))], below, s);
      ClosingStays(m2, n, t, below, s);
      Onward(st, t, m2, n);
    }
  }

  lemma ClosingStays(m: State, n: State, t: Thread, below: seq<Frame>, s: Ref)
    requires Closes(m, n, t, below, s) && s in m.state && m.state[s] == Closing
    ensures s in n.state && n.state[s] == Closing
  {
    hide Under;
  }

  lemma CloseAgain(st: State, t: Thread, below: seq<Frame>, s: Ref) returns (n: State)
    requires Ready(st, t, below + [Begin(s, Swap)]) && s in st.state && st.state[s] == Closed
    ensures Reaches(st, t, n) && Ready(n, t, below) && Closes(st, n, t, below, s) && s in n.swept
    ensures s in n.state && n.state[s] == Closed
  {
    hide Reaches, Inv, Ranked, Enabled;
    BeginOnce(st, t, below, s, Swap);
    var swapped := st.(state := st.state[s := Closing]);
    Moves(swapped, t, below, Begin(s, Swap), Begin(s, RestoreClosed), Begin(s, Swap));
    var m := Next(st, t, Advance(0));
    assert m == WithStack(swapped, t, below + [Begin(s, RestoreClosed)]);
    StepReady(st, t, 0, below + [Begin(s, Swap)], below + [Begin(s, RestoreClosed)]);
    BeginOnce(m, t, below, s, RestoreClosed);
    var restored := m.(state := m.state[s := Closed], swept := m.swept + {s});
    Moves(restored, t, below, Begin(s, RestoreClosed), Begin(s, Swap), Begin(s, Swap));
    n := Next(m, t, Advance(0));
    assert n == WithStack(restored, t, below);
    StepReady(m, t, 0, below + [Begin(s, RestoreClosed)], below);
    hide Next;
    Here(n, t);
    OneStep(m, t, 0, n);
    OneStep(st, t, 0, n);
    assert st.state[s := Closing][s := Closed] == st.state;
    assert st.stacks[t := below + [Begin(s, RestoreClosed)]][t := below] == st.stacks[t := below];
    OnlyMovesCloses(st, n, t, below, s);
  }

  lemma SwapAndSnapshot(st: State, t: Thread, below: seq<Frame>, s: Ref) returns (n: State)
    requires Ready(st, t, below + [Begin(s, Swap)]) && s in st.state && st.state[s] != Closed && s in st.children
    ensures var stack := below + [Begin(s, Sweep(st.children[s]))];
            Reaches(st, t, n) && Ready(n, t, stack) && Closes(st, n, t, stack, s)
    ensures s in n.state && n.state[s] == Closing
    ensures n.nextId == st.nextId && n.id == st.id && n.parent == st.parent
  {
    hide Reaches, Inv, Ranked, Enabled;
    BeginOnce(st, t, below, s, Swap);
    var swapped := st.(state := st.state[s := Closing]);
    Moves(swapped, t, below, Begin(s, Swap), Begin(s, Snapshot), Begin(s, Swap));
    var m := Next(st, t, Advance(0));
    assert m == WithStack(swapped, t, below + [Begin(s, Snapshot)]);
    StepReady(st, t, 0, below + [Begin(s, Swap)], below + [Begin(s, Snapshot)]);
    BeginOnce(m, t, below, s, Snapshot);
    var taken, next := m.(snapshotted := m.snapshotted + {s}), Begin(s, Sweep(st.children[s]));
    Moves(taken, t, below, Begin(s, Snapshot), next, next);
    n := Next(m, t, Advance(0));
    assert n == WithStack(taken, t, below + [next]);
    StepReady(m, t, 0, below + [Begin(s, Snapshot)], below + [next]);
    hide Next;
    Here(n, t);
    OneStep(m, t, 0, n);
    OneStep(st, t, 0, n);
    UnderSelf(st.parent, s);
    assert st.stacks[t := below + [Begin(s, Snapshot)]][t := below + [next]] == st.stacks[t := below + [next]];
  }

  /** With no child list locked, a `begin_close` that runs alone returns, whatever the tree: it
      leaves its scope closing, or closed if it was closed, and changes no other scope except
      open ones below it, which it leaves closing. No live registered scope below is open then
      (`ClosedSubtreeStaysClosed`). */
  lemma BeginCloseReturns(st: State, t: Thread, s: Ref) returns (n: State)
    requires Inv(st) && Ranked(st) && st.locks == map[] && MayCall(st, t, s)
    ensures Enabled(st, t, StartBegin(s))
    ensures Reaches(Next(st, t, StartBegin(s)), t, n) && Inv(n) && s in n.swept && StackOf(n, t) == []
    ensures n.(state := st.state, snapshotted := st.snapshotted, swept := st.swept, stacks := st.stacks) == st
    ensures forall u :: u != t ==> StackOf(n, u) == StackOf(st, u)
    ensures s in n.state && n.state[s] == if st.state[s] == Closed then Closed else Closing
    ensures n.state.Keys == st.state.Keys
    ensures forall r :: r in st.state && n.state[r] != st.state[r] ==>
              st.state[r] == Open && n.state[r] == Closing && Under(st.parent, s, r)
  {
    hide Inv, Ranked, Reaches, Under, Closes;
    var m := Next(st, t, StartBegin(s));
    assert m == WithStack(st, t, [Begin(s, Swap)]) && s in st.state && s in st.id;
    NextKeepsInv(st, t, StartBegin(s));
    NextKeepsRanked(st, t, StartBegin(s));
    hide Enabled, Next;
    assert [] + [Begin(s, Swap)] == [Begin(s, Swap)];
    n := BeginReturns(m, t, [], s);
    NoLocks(n, t, []);
    ClosesMeans(st, n, t, [Begin(s, Swap)], s);
  }

  lemma ClosesMeans(st: State, n: State, t: Thread, stack: seq<Frame>, s: Ref)
    requires Closes(WithStack(st, t, stack), n, t, [], s)
    ensures n.(state := st.state, snapshotted := st.snapshotted, swept := st.swept, stacks := st.stacks) == st
    ensures forall u :: u != t ==> StackOf(n, u) == StackOf(st, u)
    ensures n.state.Keys == st.state.Keys
    ensures forall r :: r in st.state && n.state[r] != st.state[r] ==>
              st.state[r] == Open && n.state[r] == Closing && Under(st.parent, s, r)
  {
    hide Under;
  }

  // ----- finish_close

  /** `n` is `st` with `t` back at `stack`, some scopes below `s` closed, and some entries gone
      from child lists: dead ones and ones below `s`. */
  ghost predicate Finishes(st: State, n: State, t: Thread, stack: seq<Frame>, s: Ref) {
    && n == WithStack(st, t, stack).(state := n.state, children := n.children)
    && n.state.Keys == st.state.Keys && n.children.Keys == st.children.Keys
    && (forall r :: r in st.state && n.state[r] != st.state[r] ==> n.state[r] == Closed && Under(st.parent, s, r))
    && (forall q, c :: q in st.children && c in n.children[q] ==> c in st.children[q])
    && (forall q, c :: q in st.children && c in st.children[q] && c !in n.children[q] ==>
          c !in st.alive || Under(st.parent, s, c))
  }

  /** `s` itself: closed, without a live entry in its list, and in no list of a live parent. */
  ghost predicate IsFinished(n: State, s: Ref) {
    && s in n.state && n.state[s] == Closed
    && s in n.children && (forall c :: c in n.children[s] ==> c !in n.alive)
    && s in n.parent && (n.parent[s].Some? && n.parent[s].value in n.alive ==>
          n.parent[s].value in n.children && s !in n.children[n.parent[s].value])
  }

  /** The live scopes in `todo` are closed. */
  ghost predicate AllClosed(n: State, todo: seq<Ref>) {
    forall c :: c in todo && c in n.alive ==> c in n.state && n.state[c] == Closed
  }

  lemma FinishesThen(st: State, m: State, n: State, t: Thread, mid: seq<Frame>, stack: seq<Frame>, s: Ref)
    requires Finishes(st, m, t, mid, s) && Finishes(m, n, t, stack, s)
    ensures Finishes(st, n, t, stack, s)
  {
    hide Under;
    assert st.stacks[t := mid][t := stack] == st.stacks[t := stack];
    forall r | r in st.state && n.state[r] != st.state[r]
      ensures n.state[r] == Closed && Under(st.parent, s, r)
    {
      if m.state[r] == st.state[r] { assert n.state[r] != m.state[r]; }
    }
  }

  lemma FinishesBelow(st: State, n: State, t: Thread, stack: seq<Frame>, s: Ref, c: Ref)
    requires Finishes(st, n, t, stack, c) && c in st.parent && st.parent[c] == Some(s)
    ensures Finishes(st, n, t, stack, s)
  {
    forall r | Under(st.parent, c, r) ensures Under(st.parent, s, r) { UnderChild(st.parent, s, c, r); }
    hide Under;
  }

  lemma OnlyMovesFinishes(st: State, n: State, t: Thread, stack: seq<Frame>, s: Ref)
    requires n == WithStack(st, t, stack)
    ensures Finishes(st, n, t, stack, s)
  {
  }

  /** What was closed stays closed. */
  lemma ClosedStays(m: State, n: State, t: Thread, stack: seq<Frame>, s: Ref, todo: seq<Ref>)
    requires Finishes(m, n, t, stack, s) && AllClosed(m, todo)
    ensures AllClosed(n, todo)
  {
    hide Under;
  }

  /** One operation of `finish_close` on `s`. */
  lemma FinishOnce(st: State, t: Thread, below: seq<Frame>, s: Ref, pc: FinishPc)
    requires Ready(st, t, below + [Finish(s, pc)])
    ensures Enabled(st, t, Advance(0)) && Top(st, t) == Finish(s, pc) && FrameEnabled(st, t, Finish(s, pc), 0)
    ensures s in st.alive && s in st.state && s in st.children && s in st.id && s in st.parent && st.id[s] < st.nextId
    ensures Next(st, t, Advance(0)) == FinishStep(st, t, s, pc)
    ensures forall c :: c in st.children[s] ==> c in st.parent && st.parent[c] == Some(s)
  {
    ScopeIsKnown(st, t, below, Finish(s, pc));
    hide FinishStep;
    NoLocks(st, t, below + [Finish(s, pc)]);
    InvHolds(st);
    hide Inv, Ranked;
  }

  /** The sweep over `todo` returns with `s` finished and every live scope in `todo` closed. */
  lemma {:induction false} FinishSweepReturns(st: State, t: Thread, below: seq<Frame>, s: Ref, todo: seq<Ref>)
      returns (n: State)
    requires Ready(st, t, below + [Finish(s, FinishSweep(todo))]) && s in st.id && s in st.children
    requires forall c :: c in todo ==> c in st.parent && st.parent[c] == Some(s)
    requires forall c :: c in st.children[s] ==> c in todo || c !in st.alive
    ensures Reaches(st, t, n) && Ready(n, t, below) && Finishes(st, n, t, below, s)
    ensures IsFinished(n, s) && AllClosed(n, todo)
    decreases st.nextId - st.id[s], 0, |todo|
  {
    hide Reaches, Ready, Finishes, IsFinished, AllClosed;
    FinishOnce(st, t, below, s, FinishSweep(todo));
    if todo == [] {
      n := FinishEnds(st, t, below, s);
    } else if todo[0] in st.alive {
      var m := FinishCallsNext(st, t, below, s, todo);
      var caller := Finish(s, FinishSweep(todo[1..]));
      ChildRank(st, s, todo[0]);
      var m2 := FinishReturns(m, t, below + [caller], todo[0]);
      AfterFinishedChild(st, m, m2, t, below, s, todo);
      n := FinishSweepReturns(m2, t, below, s, todo[1..]);
      FinishesThen(st, m2, n, t, below + [caller], below, s);
      ClosedStays(m2, n, t, below, s, [todo[0]]);
      ClosedJoin(n, todo);
      Onward(m, t, m2, n);
      OneStep(st, t, 0, n);
    } else {
      var m := FinishPasses(st, t, below, s, todo);
      n := FinishSweepReturns(m, t, below, s, todo[1..]);
      FinishesThen(st, m, n, t, below + [Finish(s, FinishSweep(todo[1..]))], below, s);
      DeadJoin(st, n, t, below, s, todo);
      OneStep(st, t, 0, n);
    }
  }

  lemma ClosedJoin(n: State, todo: seq<Ref>)
    requires todo != [] && AllClosed(n, [todo[0]]) && AllClosed(n, todo[1..])
    ensures AllClosed(n, todo)
  {
    assert todo == [todo[0]] + todo[1..] && todo[0] in [todo[0]];
  }

  lemma DeadJoin(st: State, n: State, t: Thread, stack: seq<Frame>, s: Ref, todo: seq<Ref>)
    requires todo != [] && todo[0] !in st.alive && AllClosed(n, todo[1..]) && Finishes(st, n, t, stack, s)
    ensures AllClosed(n, todo)
  {
    hide Under;
    assert todo == [todo[0]] + todo[1..];
  }

  lemma FinishPasses(st: State, t: Thread, below: seq<Frame>, s: Ref, todo: seq<Ref>) returns (n: State)
    requires Ready(st, t, below + [Finish(s, FinishSweep(todo))]) && todo != [] && todo[0] !in st.alive
    requires s in st.children && forall c :: c in st.children[s] ==> c in todo || c !in st.alive
    ensures Enabled(st, t, Advance(0)) && n == Next(st, t, Advance(0))
    ensures var stack := below + [Finish(s, FinishSweep(todo[1..]))];
            Ready(n, t, stack) && Finishes(st, n, t, stack, s)
    ensures n.nextId == st.nextId && n.id == st.id && n.parent == st.parent
    ensures s in n.children && forall c :: c in n.children[s] ==> c in todo[1..] || c !in n.alive
  {
    FinishOnce(st, t, below, s, FinishSweep(todo));
    var next := Finish(s, FinishSweep(todo[1..]));
    Moves(st, t, below, Finish(s, FinishSweep(todo)), next, next);
    n := Next(st, t, Advance(0));
    assert n == WithStack(st, t, below + [next]);
    NoLocks(st, t, below + [Finish(s, FinishSweep(todo))]);
    hide FinishStep, Enabled, Inv, Ranked, Finishes;
    OnlyMovesFinishes(st, n, t, below + [next], s);
    StepReady(st, t, 0, below + [Finish(s, FinishSweep(todo))], below + [next]);
    assert todo == [todo[0]] + todo[1..];
  }

  lemma FinishCallsNext(st: State, t: Thread, below: seq<Frame>, s: Ref, todo: seq<Ref>) returns (n: State)
    requires Ready(st, t, below + [Finish(s, FinishSweep(todo))]) && todo != [] && todo[0] in st.alive
    ensures Enabled(st, t, Advance(0)) && n == Next(st, t, Advance(0))
    ensures var stack := below + [Finish(s, FinishSweep(todo[1..]))] + [Finish(todo[0], FinishSnapshot)];
            Ready(n, t, stack) && n == WithStack(st, t, stack)
  {
    FinishOnce(st, t, below, s, FinishSweep(todo));
    var caller, callee := Finish(s, FinishSweep(todo[1..])), Finish(todo[0], FinishSnapshot);
    Moves(st, t, below, Finish(s, FinishSweep(todo)), caller, callee);
    n := Next(st, t, Advance(0));
    NoLocks(st, t, below + [Finish(s, FinishSweep(todo))]);
    hide FinishStep, Enabled, Inv, Ranked;
    StepReady(st, t, 0, below + [Finish(s, FinishSweep(todo))], below + [caller] + [callee]);
  }

  lemma AfterFinishedChild(st: State, m: State, m2: State, t: Thread, below: seq<Frame>, s: Ref, todo: seq<Ref>)
    requires todo != [] && todo[0] in st.parent && st.parent[todo[0]] == Some(s) && s in st.children && s in st.alive
    requires forall c :: c in st.children[s] ==> c in todo || c !in st.alive
    requires m == WithStack(st, t, below + [Finish(s, FinishSweep(todo[1..]))] + [Finish(todo[0], FinishSnapshot)])
    requires Finishes(m, m2, t, below + [Finish(s, FinishSweep(todo[1..]))], todo[0]) && IsFinished(m2, todo[0])
    ensures Finishes(st, m2, t, below + [Finish(s, FinishSweep(todo[1..]))], s)
    ensures m2.nextId == st.nextId && m2.id == st.id && m2.parent == st.parent && AllClosed(m2, [todo[0]])
    ensures s in m2.children && forall c :: c in m2.children[s] ==> c in todo[1..] || c !in m2.alive
  {
    var mid := below + [Finish(s, FinishSweep(todo[1..]))];
    FinishesBelow(m, m2, t, mid, s, todo[0]);
    hide Under;
    assert st.stacks[t := mid + [Finish(todo[0], FinishSnapshot)]][t := mid] == st.stacks[t := mid];
    assert todo == [todo[0]] + todo[1..];
  }

  /** The last three operations: nothing is left to sweep. */
  lemma FinishEnds(st: State, t: Thread, below: seq<Frame>, s: Ref) returns (n: State)
    requires Ready(st, t, below + [Finish(s, FinishSweep([]))])
    requires s in st.children && forall c :: c in st.children[s] ==> c !in st.alive
    ensures Reaches(st, t, n) && Ready(n, t, below) && Finishes(st, n, t, below, s)
    ensures IsFinished(n, s) && AllClosed(n, [])
  {
    hide Reaches, Inv, Ranked, Enabled, Finishes, IsFinished, Retain;
    var toStore, toUnregister := Finish(s, StoreClosed), Finish(s, Unregister);
    FinishOnce(st, t, below, s, FinishSweep([]));
    Moves(st, t, below, Finish(s, FinishSweep([])), toStore, toStore);
    var m := Next(st, t, Advance(0));
    assert m == WithStack(st, t, below + [toStore]);
    StepReady(st, t, 0, below + [Finish(s, FinishSweep([]))], below + [toStore]);
    FinishOnce(m, t, below, s, StoreClosed);
    var stored := m.(state := m.state[s := Closed]);
    Moves(stored, t, below, toStore, toUnregister, toStore);
    var m2 := Next(m, t, Advance(0));
    assert m2 == WithStack(stored, t, below + [toUnregister]);
    StepReady(m, t, 0, below + [toStore], below + [toUnregister]);
    n := UnregisterReturns(m2, t, below, s);
    OneStep(m, t, 0, n);
    OneStep(st, t, 0, n);
    hide Next;
    assert st.stacks[t := below + [toStore]][t := below + [toUnregister]] == st.stacks[t := below + [toUnregister]];
    StoredFinishes(st, m2, t, below + [toUnregister], s);
    FinishesThen(st, m2, n, t, below + [toUnregister], below, s);
  }

  lemma StoredFinishes(st: State, n: State, t: Thread, stack: seq<Frame>, s: Ref)
    requires s in st.state && n == st.(state := st.state[s := Closed], stacks := st.stacks[t := stack])
    ensures Finishes(st, n, t, stack, s)
  {
    UnderSelf(st.parent, s);
    hide Under;
  }

  lemma UnregisterReturns(st: State, t: Thread, below: seq<Frame>, s: Ref) returns (n: State)
    requires Ready(st, t, below + [Finish(s, Unregister)]) && s in st.state && st.state[s] == Closed
    requires s in st.children && forall c :: c in st.children[s] ==> c !in st.alive
    ensures Reaches(st, t, n) && Ready(n, t, below) && Finishes(st, n, t, below, s) && IsFinished(n, s)
  {
    hide Reaches, Inv, Ranked, Enabled, Retain, Finishes, IsFinished;
    FinishOnce(st, t, below, s, Unregister);
    n := Next(st, t, Advance(0));
    Pruned(st, n, t, below, s);
    StepReady(st, t, 0, below + [Finish(s, Unregister)], below);
    Here(n, t);
    OneStep(st, t, 0, n);
  }

  lemma Pruned(st: State, n: State, t: Thread, below: seq<Frame>, s: Ref)
    requires Ready(st, t, below + [Finish(s, Unregister)]) && FrameEnabled(st, t, Finish(s, Unregister), 0)
    requires n == FinishStep(st, t, s, Unregister)
    requires s in st.state && st.state[s] == Closed && forall c :: c in st.children[s] ==> c !in st.alive
    ensures Finishes(st, n, t, below, s) && IsFinished(n, s) && n.locks == map[] && StackOf(n, t) == below
    ensures t in n.stacks
  {
    hide Ranked, Under, Retain, Inv, FrameEnabled;
    UnderSelf(st.parent, s);
    PrunedState(st, n, t, below, s);
    hide FinishStep;
    if st.parent[s].Some? && st.parent[s].value in st.alive {
      var p := st.parent[s].value;
      forall c ensures c in n.children[p] <==> c in st.children[p] && c in st.alive && c != s {
        PrunedMember(st, s, p, c);
      }
    }
  }

  lemma PrunedState(st: State, n: State, t: Thread, below: seq<Frame>, s: Ref)
    requires StackOf(st, t) == below + [Finish(s, Unregister)] && FrameEnabled(st, t, Finish(s, Unregister), 0)
    requires n == FinishStep(st, t, s, Unregister)
    ensures Allocated(st, s)
    ensures if st.parent[s].Some? && st.parent[s].value in st.alive
            then var p := st.parent[s].value;
                 && p in st.children
                 && var kept := Retain(st.children[p], st.alive, st.id, st.id[s]);
                    n == WithStack(st.(children := st.children[p := kept]), t, below)
            else n == WithStack(st, t, below)
  {
    hide Retain;
    var top := Finish(s, Unregister);
    Moves(st, t, below, top, top, top);
    if st.parent[s].Some? && st.parent[s].value in st.alive {
      var p := st.parent[s].value;
      var pruned := st.(children := st.children[p := Retain(st.children[p], st.alive, st.id, st.id[s])]);
      Moves(pruned, t, below, top, top, top);
    }
  }

  lemma PrunedMember(st: State, s: Ref, p: Ref, c: Ref)
    requires Inv(st) && Allocated(st, s) && p in st.children
    ensures c in Retain(st.children[p], st.alive, st.id, st.id[s]) <==> c in st.children[p] && c in st.alive && c != s
  {
    InvHolds(st);
    RetainMembers(st.children[p], st.alive, st.id, st.id[s], c);
    if c in st.alive { assert Allocated(st, c); }
    hide Inv, Retain;
  }

  /** `finish_close` returns with its scope finished and the live children it found closed. */
  lemma {:induction false} FinishReturns(st: State, t: Thread, below: seq<Frame>, s: Ref) returns (n: State)
    requires Ready(st, t, below + [Finish(s, FinishSnapshot)]) && s in st.id
    ensures Reaches(st, t, n) && Ready(n, t, below) && Finishes(st, n, t, below, s) && IsFinished(n, s)
    ensures s in st.children && AllClosed(n, st.children[s])
    decreases st.nextId - st.id[s], 1, 0
  {
    hide Reaches, Inv, Ranked, Enabled, Finishes, IsFinished, AllClosed;
    FinishOnce(st, t, below, s, FinishSnapshot);
    var next := Finish(s, FinishSweep(st.children[s]));
    Moves(st, t, below, Finish(s, FinishSnapshot), next, next);
    var m := Next(st, t, Advance(0));
    assert m == WithStack(st, t, below + [next]);
    StepReady(st, t, 0, below + [Finish(s, FinishSnapshot)], below + [next]);
    hide Ready, FinishStep, Next;
    n := FinishSweepReturns(m, t, below, s, st.children[s]);
    OneStep(st, t, 0, n);
    OnlyMovesFinishes(st, m, t, below + [next], s);
    FinishesThen(st, m, n, t, below + [next], below, s);
  }

  /** With no child list locked, a `finish_close` that runs alone returns, whatever the tree: its
      scope is closed, has no live child in its list and is in no list of a live parent; the
      live children it had are closed; nothing else changes except below it. */
  lemma FinishCloseReturns(st: State, t: Thread, s: Ref) returns (n: State)
    requires Inv(st) && Ranked(st) && st.locks == map[] && MayCall(st, t, s) && s in st.swept
    ensures Enabled(st, t, StartFinish(s))
    ensures Reaches(Next(st, t, StartFinish(s)), t, n) && Inv(n) && IsFinished(n, s) && StackOf(n, t) == []
    ensures n.(state := st.state, children := st.children, stacks := st.stacks) == st
    ensures forall u :: u != t ==> StackOf(n, u) == StackOf(st, u)
    ensures AllClosed(n, st.children[s])
    ensures n.state.Keys == st.state.Keys && n.children.Keys == st.children.Keys
    ensures forall r :: r in st.state && n.state[r] != st.state[r] ==> n.state[r] == Closed && Under(st.parent, s, r)
    ensures forall q, c :: q in st.children && c in n.children[q] ==> c in st.children[q]
    ensures forall q, c :: q in st.children && c in st.children[q] && c !in n.children[q] ==>
              c !in st.alive || Under(st.parent, s, c)
  {
    hide Inv, Ranked, Reaches, Under, Finishes, IsFinished, AllClosed;
    var m := Next(st, t, StartFinish(s));
    assert m == WithStack(st, t, [Finish(s, FinishSnapshot)]) && s in st.id && s in st.children;
    NextKeepsInv(st, t, StartFinish(s));
    NextKeepsRanked(st, t, StartFinish(s));
    hide Enabled, Next;
    assert [] + [Finish(s, FinishSnapshot)] == [Finish(s, FinishSnapshot)];
    n := FinishReturns(m, t, [], s);
    NoLocks(n, t, []);
    FinishesMeans(st, n, t, [Finish(s, FinishSnapshot)], s);
  }

  lemma FinishesMeans(st: State, n: State, t: Thread, stack: seq<Frame>, s: Ref)
    requires Finishes(WithStack(st, t, stack), n, t, [], s)
    ensures n.(state := st.state, children := st.children, stacks := st.stacks) == st
    ensures forall u :: u != t ==> StackOf(n, u) == StackOf(st, u)
    ensures n.state.Keys == st.state.Keys && n.children.Keys == st.children.Keys
    ensures forall r :: r in st.state && n.state[r] != st.state[r] ==> n.state[r] == Closed && Under(st.parent, s, r)
    ensures forall q, c :: q in st.children && c in n.children[q] ==> c in st.children[q]
    ensures forall q, c :: q in st.children && c in st.children[q] && c !in n.children[q] ==>
              c !in st.alive || Under(st.parent, s, c)
  {
    hide Under;
  }
}
