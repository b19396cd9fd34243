/** The closure state of one scope over a run: when it is monotone, and when it is not. */
module ScopeStates {
  import opened Model
  import opened ScopeTree
  import opened ScopeClosure
  import opened ScopeRuns

  /** This step is the swap of a `begin_close` of `s`. */
  predicate Swaps(st: State, t: Thread, a: Action, s: Ref) {
    a.Advance? && StackOf(st, t) != [] && Top(st, t) == Begin(s, Swap)
  }

  /** Some thread has swapped `s` while it was closed and is about to store `Closed` again. */
  ghost predicate Restoring(st: State, s: Ref) {
    exists t :: RestoresNext(st, t, s)
  }

  predicate RestoresNext(st: State, t: Thread, s: Ref) {
    StackOf(st, t) != [] && Top(st, t) == Begin(s, RestoreClosed)
  }

  lemma BeginState(st: State, t: Thread, r: Ref, pc: BeginPc, s: Ref)
    requires StackOf(st, t) != [] && Allocated(st, r) && s in st.state
    ensures var n := BeginStep(st, t, r, pc);
            && s in n.state
            && n.state[s] == if r != s then st.state[s]
                             else if pc.Swap? then Closing
                             else if pc.RestoreClosed? then Closed
                             else st.state[s]
  {
  }

  lemma FinishState(st: State, t: Thread, r: Ref, pc: FinishPc, s: Ref)
    requires StackOf(st, t) != [] && FrameEnabled(st, t, Finish(r, pc), 0) && s in st.state
    ensures var n := FinishStep(st, t, r, pc);
            s in n.state && n.state[s] == if r == s && pc.StoreClosed? then Closed else st.state[s]
  {
  }

  lemma ChildState(st: State, t: Thread, r: Ref, pc: ChildPc, slot: Ref, s: Ref)
    requires StackOf(st, t) != [] && FrameEnabled(st, t, Child(r, pc), slot) && s in st.state
    ensures var n := ChildStep(st, t, r, pc, slot); s in n.state && n.state[s] == st.state[s]
  {
  }

  /** What one step does to the state of `s`. */
  lemma StateAfter(st: State, t: Thread, a: Action, s: Ref)
    requires Enabled(st, t, a) && s in st.state
    ensures var n := Next(st, t, a);
            && s in n.state
            && n.state[s] == if Swaps(st, t, a, s) then Closing
                             else if a.Advance? && Top(st, t) in {Begin(s, RestoreClosed), Finish(s, StoreClosed)}
                               then Closed
                             else st.state[s]
  {
    if a.Advance? {
      match Top(st, t) {
        case Child(r, pc) => ChildState(st, t, r, pc, a.slot, s);
        case Begin(r, pc) => BeginState(st, t, r, pc, s);
        case Finish(r, pc) => FinishState(st, t, r, pc, s);
      }
      hide ChildStep, BeginStep, FinishStep, FrameEnabled;
    }
  }

  /** A step takes a closed scope out of `Closed` exactly when it is the swap of a `begin_close`. */
  lemma ClosedLeavesIff(st: State, t: Thread, a: Action, s: Ref)
    requires Enabled(st, t, a) && s in st.state && st.state[s] == Closed
    ensures s in Next(st, t, a).state && (Next(st, t, a).state[s] != Closed <==> Swaps(st, t, a, s))
  {
    StateAfter(st, t, a, s);
    hide Next, Enabled;
  }

  lemma ChildStacks(st: State, t: Thread, r: Ref, pc: ChildPc, slot: Ref, u: Thread)
    requires StackOf(st, t) != [] && r in st.state && r in st.children && u != t
    ensures StackOf(ChildStep(st, t, r, pc, slot), u) == StackOf(st, u)
  {
  }

  lemma BeginStacks(st: State, t: Thread, r: Ref, pc: BeginPc, u: Thread)
    requires StackOf(st, t) != [] && r in st.state && r in st.children && u != t
    ensures StackOf(BeginStep(st, t, r, pc), u) == StackOf(st, u)
  {
  }

  lemma FinishStacks(st: State, t: Thread, r: Ref, pc: FinishPc, u: Thread)
    requires StackOf(st, t) != [] && FrameEnabled(st, t, Finish(r, pc), 0) && u != t
    ensures StackOf(FinishStep(st, t, r, pc), u) == StackOf(st, u)
  {
  }

  lemma OtherStacks(st: State, t: Thread, a: Action, u: Thread)
    requires Enabled(st, t, a) && (u != t || a.Drop?)
    ensures StackOf(Next(st, t, a), u) == StackOf(st, u)
  {
    hide ChildStep, BeginStep, FinishStep;
    if a.Advance? {
      match Top(st, t) {
        case Child(r, pc) => ChildStacks(st, t, r, pc, a.slot, u);
        case Begin(r, pc) => BeginStacks(st, t, r, pc, u);
        case Finish(r, pc) => FinishStacks(st, t, r, pc, u);
      }
    }
  }

  lemma SwapOfClosedRestores(st: State, t: Thread, a: Action, s: Ref)
    requires Enabled(st, t, a) && s in st.state && st.state[s] == Closed && Swaps(st, t, a, s)
    ensures RestoresNext(Next(st, t, a), t, s)
  {
    var stack := StackOf(st, t);
    assert StackOf(Next(st, t, a), t) == stack[..|stack| - 1] + [Begin(s, RestoreClosed)];
  }

  ghost predicate ClosedOrRestoring(st: State, s: Ref) {
    s in st.state && (st.state[s] == Closed || Restoring(st, s))
  }

  lemma StepKeepsClosed(st: State, t: Thread, a: Action, s: Ref)
    requires Enabled(st, t, a) && ClosedOrRestoring(st, s)
    ensures ClosedOrRestoring(Next(st, t, a), s)
  {
    StateAfter(st, t, a, s);
    if st.state[s] == Closed {
      if Swaps(st, t, a, s) { SwapOfClosedRestores(st, t, a, s); }
    } else {
      var u :| RestoresNext(st, u, s);
      if u != t || a.Drop? {
        OtherStacks(st, t, a, u);
        assert RestoresNext(Next(st, t, a), u, s);
      } else {
        assert a.Advance?;
      }
    }
    hide Next, Enabled;
  }

  /** Once a scope has been closed, in every later state it is closed, or a repeated
      `begin_close` is between its swap and its store. */
  lemma {:induction false} ClosedIsRestored(states: seq<State>, threads: seq<Thread>, actions: seq<Action>, root: Ref,
      i: nat, j: nat, s: Ref)
    requires Run(states, threads, actions, root) && i <= j < |states|
    requires s in states[i].state && states[i].state[s] == Closed
    ensures s in states[j].state && (states[j].state[s] == Closed || Restoring(states[j], s))
    decreases j - i
  {
    if i < j {
      ClosedIsRestored(states, threads, actions, root, i, j - 1, s);
      StepKeepsClosed(states[j - 1], threads[j - 1], actions[j - 1], s);
      hide Next, Enabled, Restoring;
    }
  }

  // ----- monotone over a run

  function Rank(v: ScopeState): nat {
    match v
    case Open => 0
    case Closing => 1
    case Closed => 2
  }

  /** `s` never goes back towards open. */
  ghost predicate NeverGoesBack(states: seq<State>, s: Ref) {
    forall i, j :: 0 <= i <= j < |states| && s in states[i].state && s in states[j].state ==>
        Rank(states[i].state[s]) <= Rank(states[j].state[s])
  }

  /** Step `k` of the run swaps `s` while it is closed. */
  ghost predicate SwapsClosed(states: seq<State>, threads: seq<Thread>, actions: seq<Action>, s: Ref, k: nat)
    requires |states| == |actions| + 1 && |threads| == |actions|
  {
    k < |actions| && s in states[k].state && states[k].state[s] == Closed && Swaps(states[k], threads[k], actions[k], s)
  }

  lemma StepRank(st: State, t: Thread, a: Action, s: Ref)
    requires Inv(st) && Enabled(st, t, a) && s in st.state && !(st.state[s] == Closed && Swaps(st, t, a, s))
    ensures s in Next(st, t, a).state && Rank(st.state[s]) <= Rank(Next(st, t, a).state[s])
  {
    StateAfter(st, t, a, s);
    NextIsMonotone(st, t, a);
    hide Next, Enabled, Inv;
  }

  lemma {:induction false} RankGrows(states: seq<State>, threads: seq<Thread>, actions: seq<Action>, root: Ref, s: Ref,
      i: nat, j: nat)
    requires Run(states, threads, actions, root) && i <= j < |states| && s in states[i].state
    requires forall k: nat :: k < |actions| ==> !SwapsClosed(states, threads, actions, s, k)
    ensures s in states[j].state && Rank(states[i].state[s]) <= Rank(states[j].state[s])
    decreases j - i
  {
    hide Next, Enabled, Inv, Initial, Swaps, Rank;
    if i < j {
      RankGrows(states, threads, actions, root, s, i, j - 1);
      RunKeepsInv(states, threads, actions, root, j - 1);
      assert !SwapsClosed(states, threads, actions, s, j - 1);
      StepRank(states[j - 1], threads[j - 1], actions[j - 1], s);
    }
  }

  /** Over any run the closure state of a scope is monotone exactly when no `begin_close`
      swaps it while it is closed. */
  lemma MonotoneIffNoRepeatedClose(states: seq<State>, threads: seq<Thread>, actions: seq<Action>, root: Ref, s: Ref)
    requires Run(states, threads, actions, root)
    ensures NeverGoesBack(states, s) <==>
            forall k: nat :: k < |actions| ==> !SwapsClosed(states, threads, actions, s, k)
  {
    if k: nat :| k < |actions| && SwapsClosed(states, threads, actions, s, k) {
      ClosedLeavesIff(states[k], threads[k], actions[k], s);
      assert Rank(states[k].state[s]) > Rank(states[k + 1].state[s]);
    } else {
      forall i, j | 0 <= i <= j < |states| && s in states[i].state && s in states[j].state
        ensures Rank(states[i].state[s]) <= Rank(states[j].state[s])
      {
        RankGrows(states, threads, actions, root, s, i, j);
      }
    }
    hide Next, Enabled;
  }

  // ----- a run that goes back

  /** Only thread 0 has done anything; its stack is `stack`. */
  function WithFrames(st: State, stack: seq<Frame>): State {
    st.(stacks := map[0 := stack])
  }

  lemma SingleFrame(st: State, frame: Frame, next: Frame)
    requires st.stacks == map[0 := [frame]]
    ensures StackOf(st, 0) == [frame] && Top(st, 0) == frame
    ensures ReplaceTop(st, 0, next) == WithFrames(st, [next]) && Pop(st, 0) == WithFrames(st, [])
  {
    assert [frame][..0] == [] && [] + [next] == [next];
    assert map[0 := [frame]][0 := [next]] == map[0 := [next]];
    assert map[0 := [frame]][0 := []] == map[0 := []];
  }

  /** The shared state of an application scope without children, by what has happened to it. */
  function Alone(root: Ref, v: ScopeState, snapshotted: bool, swept: bool): State {
    Initial(root).(state := map[root := v],
                   snapshotted := if snapshotted then {root} else {},
                   swept := if swept then {root} else {})
  }

  /** The application scope is closed, and then closed again. */
  function CloseTwiceAt(root: Ref, i: nat): State {
    match i
    case 0 => Initial(root)
    case 1 => WithFrames(Alone(root, Open, false, false), [Begin(root, Swap)])
    case 2 => WithFrames(Alone(root, Closing, false, false), [Begin(root, Snapshot)])
    case 3 => WithFrames(Alone(root, Closing, true, false), [Begin(root, Sweep([]))])
    case 4 => WithFrames(Alone(root, Closing, true, true), [])
    case 5 => WithFrames(Alone(root, Closing, true, true), [Finish(root, FinishSnapshot)])
    case 6 => WithFrames(Alone(root, Closing, true, true), [Finish(root, FinishSweep([]))])
    case 7 => WithFrames(Alone(root, Closing, true, true), [Finish(root, StoreClosed)])
    case 8 => WithFrames(Alone(root, Closed, true, true), [Finish(root, Unregister)])
    case 9 => WithFrames(Alone(root, Closed, true, true), [])
    case 10 => WithFrames(Alone(root, Closed, true, true), [Begin(root, Swap)])
    case _ => WithFrames(Alone(root, Closing, true, true), [Begin(root, RestoreClosed)])
  }

  function CloseTwiceAction(root: Ref, i: nat): Action {
    if i == 0 || i == 9 then StartBegin(root) else if i == 4 then StartFinish(root) else Advance(root)
  }

  ghost predicate StepTo(st: State, a: Action, n: State) {
    Enabled(st, 0, a) && n == Next(st, 0, a)
  }

  lemma StartAlone(root: Ref, st: State, v: ScopeState, seen: bool)
    requires (st == Initial(root) && v == Open && !seen) || st == WithFrames(Alone(root, v, seen, seen), [])
    ensures StepTo(st, StartBegin(root), WithFrames(Alone(root, v, seen, seen), [Begin(root, Swap)]))
    ensures seen ==> StepTo(st, StartFinish(root),
        WithFrames(Alone(root, v, seen, seen), [Finish(root, FinishSnapshot)]))
  {
  }

  lemma BeginAlone(root: Ref, v: ScopeState, snapshotted: bool, swept: bool, pc: BeginPc, w: ScopeState,
      snapshotted': bool, next: BeginPc)
    requires pc.Swap? ==> w == Closing && snapshotted' == snapshotted
    requires pc.Swap? ==> next == if v == Closed then RestoreClosed else Snapshot
    requires pc.Snapshot? ==> w == v && snapshotted' && next == Sweep([])
    requires pc.Swap? || pc.Snapshot?
    ensures StepTo(WithFrames(Alone(root, v, snapshotted, swept), [Begin(root, pc)]), Advance(root),
                   WithFrames(Alone(root, w, snapshotted', swept), [Begin(root, next)]))
  {
    var st := WithFrames(Alone(root, v, snapshotted, swept), [Begin(root, pc)]);
    var m := st.(state := map[root := w], snapshotted := if snapshotted' then {root} else {});
    SingleFrame(st, Begin(root, pc), Begin(root, next));
    SingleFrame(m, Begin(root, pc), Begin(root, next));
    assert map[root := v][root := w] == map[root := w];
    assert BeginStep(st, 0, root, pc) == ReplaceTop(m, 0, Begin(root, next));
    hide ReplaceTop, BeginStep, Pop;
  }

  lemma SweepAlone(root: Ref, v: ScopeState)
    ensures StepTo(WithFrames(Alone(root, v, true, false), [Begin(root, Sweep([]))]), Advance(root),
        WithFrames(Alone(root, v, true, true), []))
  {
    var st := WithFrames(Alone(root, v, true, false), [Begin(root, Sweep([]))]);
    SingleFrame(st.(swept := {root}), Begin(root, Sweep([])), Begin(root, Swap));
  }

  lemma FinishAlone(root: Ref, v: ScopeState, pc: FinishPc, w: ScopeState, next: FinishPc)
    requires pc.FinishSnapshot? ==> w == v && next == FinishSweep([])
    requires pc.FinishSweep? ==> pc.todo == [] && w == v && next == StoreClosed
    requires pc.StoreClosed? ==> w == Closed && next == Unregister
    requires !pc.Unregister?
    ensures StepTo(WithFrames(Alone(root, v, true, true), [Finish(root, pc)]), Advance(root),
        WithFrames(Alone(root, w, true, true), [Finish(root, next)]))
  {
    var st := WithFrames(Alone(root, v, true, true), [Finish(root, pc)]);
    var m := st.(state := map[root := w]);
    SingleFrame(st, Finish(root, pc), Finish(root, next));
    SingleFrame(m, Finish(root, pc), Finish(root, next));
    assert map[root := v][root := w] == map[root := w];
    assert FinishStep(st, 0, root, pc) == ReplaceTop(m, 0, Finish(root, next));
    hide ReplaceTop, FinishStep, Pop;
  }

  lemma UnregisterAlone(root: Ref)
    ensures StepTo(WithFrames(Alone(root, Closed, true, true), [Finish(root, Unregister)]), Advance(root),
        WithFrames(Alone(root, Closed, true, true), []))
  {
    SingleFrame(WithFrames(Alone(root, Closed, true, true), [Finish(root, Unregister)]), Finish(root, Unregister),
        Begin(root, Swap));
  }

  lemma CloseTwiceStep(root: Ref, i: nat)
    requires i < 11
    ensures StepTo(CloseTwiceAt(root, i), CloseTwiceAction(root, i), CloseTwiceAt(root, i + 1))
  {
    hide StepTo, WithFrames, Alone, Initial;
    match i {
      case 0 => StartAlone(root, Initial(root), Open, false);
      case 1 => BeginAlone(root, Open, false, false, Swap, Closing, false, Snapshot);
      case 2 => BeginAlone(root, Closing, false, false, Snapshot, Closing, true, Sweep([]));
      case 3 => SweepAlone(root, Closing);
      case 4 => StartAlone(root, WithFrames(Alone(root, Closing, true, true), []), Closing, true);
      case 5 => FinishAlone(root, Closing, FinishSnapshot, Closing, FinishSweep([]));
      case 6 => FinishAlone(root, Closing, FinishSweep([]), Closing, StoreClosed);
      case 7 => FinishAlone(root, Closing, StoreClosed, Closed, Unregister);
      case 8 => UnregisterAlone(root);
      case 9 => StartAlone(root, WithFrames(Alone(root, Closed, true, true), []), Closed, true);
      case _ => BeginAlone(root, Closed, true, true, Swap, Closing, true, RestoreClosed);
    }
  }

  function CloseTwice(root: Ref): (r: seq<State>)
    ensures |r| == 12 && forall i :: 0 <= i < 12 ==> r[i] == CloseTwiceAt(root, i)
  {
    seq(12, i requires 0 <= i => CloseTwiceAt(root, i))
  }

  function CloseTwiceActions(root: Ref): (r: seq<Action>)
    ensures |r| == 11 && forall i :: 0 <= i < 11 ==> r[i] == CloseTwiceAction(root, i)
  {
    seq(11, i requires 0 <= i => CloseTwiceAction(root, i))
  }

  lemma CloseTwiceIsRun(root: Ref)
    ensures Run(CloseTwice(root), seq(11, i => 0), CloseTwiceActions(root), root)
  {
    assert CloseTwiceAt(root, 0) == Initial(root);
    hide Enabled, Next, CloseTwiceAt, CloseTwiceAction, CloseTwice, CloseTwiceActions, Initial;
    forall i: nat | i < 11
      ensures Enabled(CloseTwice(root)[i], 0, CloseTwiceActions(root)[i])
      ensures CloseTwice(root)[i + 1] == Next(CloseTwice(root)[i], 0, CloseTwiceActions(root)[i])
    {
      CloseTwiceStep(root, i);
    }
  }

  lemma CloseTwiceStates(root: Ref)
    ensures CloseTwice(root)[10].state == map[root := Closed] && CloseTwice(root)[11].state == map[root := Closing]
  {
    hide CloseTwice;
    assert CloseTwiceAt(root, 10).state == map[root := Closed] && CloseTwiceAt(root, 11).state == map[root := Closing];
  }

  /** The closure state is not monotone: this run takes the application scope from closed
      back to closing. */
  lemma RepeatedCloseReopensClosing(root: Ref)
    ensures Run(CloseTwice(root), seq(11, i => 0), CloseTwiceActions(root), root)
    ensures CloseTwice(root)[10].state == map[root := Closed] && CloseTwice(root)[11].state == map[root := Closing]
    ensures !NeverGoesBack(CloseTwice(root), root)
  {
    hide CloseTwice, CloseTwiceActions, Run;
    CloseTwiceIsRun(root);
    CloseTwiceStates(root);
    assert Rank(CloseTwice(root)[10].state[root]) > Rank(CloseTwice(root)[11].state[root]);
  }
}
