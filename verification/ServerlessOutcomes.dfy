/** Which calls of `begin_invocation` are admitted, and why the others are rejected. */
module ServerlessOutcomes {
  import opened Model
  import opened Ordering
  import opened ScopeTree
  import opened ScopeClosure
  import opened ScopeStates
  import opened ScopeProgress
  import opened Serverless
  import opened ServerlessProof
  import opened ServerlessRuns

  // ----- the checks of a call

  /** The deadline of the call had passed when it looked. */
  predicate FoundElapsed(s: Step) {
    s == Deadline(true)
  }

  /** `active` was at the bound when the call tried to raise it. */
  predicate FoundFull(h: Host, i: Thread, s: Step) {
    s.Load? && i in h.calls && h.calls[i].Reserving? && h.active >= h.max
  }

  /** The host was not accepting at one of its two checks, or the application scope was not open
      at one of the two checks of `child`. */
  predicate FoundClosed(h: Host, i: Thread, s: Step) {
    && i in h.calls
    && ((s.Load? && (h.calls[i].Entered? || h.calls[i].Reserved?) && !h.accepting)
        || (s.TreeStep? && h.calls[i].Creating? && AtScopeCheck(h, i) && h.app in h.tree.state
            && h.tree.state[h.app] != Open))
  }

  predicate AtScopeCheck(h: Host, i: Thread) {
    && StackOf(h.tree, i) != [] && Top(h.tree, i).Child?
    && (Top(h.tree, i).child.CheckOpen? || Top(h.tree, i).child.Recheck?)
  }

  /** Turned away as closed, or on the way out: giving the capacity back. */
  predicate TurnedAway(h: Host, i: Thread) {
    && i in h.calls
    && (h.calls[i] == Rejected(AdmissionClosed) || h.calls[i].RollingBack?
        || (h.calls[i].Creating? && StackOf(h.tree, i) == [Child(h.app, ChildDone(None))]))
  }

  // ----- one step

  lemma OthersAreUntouched(h: Host, i: Thread, s: Step, j: Thread)
    requires StepEnabled(h, i, s) && j in h.calls && j != i
    ensures var n := StepNext(h, i, s);
            j in n.calls && n.calls[j] == h.calls[j] && StackOf(n.tree, j) == StackOf(h.tree, j) && n.app == h.app
  {
    hide Next, Enabled, PhaseAfter;
    match s {
      case TreeStep(slot) => OtherStacks(h.tree, i, Advance(slot), j);
      case Load =>
        match h.calls[i] {
          case Reserved => if h.accepting { OtherStacks(h.tree, i, StartChild(h.app), j); }
          case BeginClosed(c) => OtherStacks(h.tree, i, StartFinish(c), j);
          case Dropping(c) => OtherStacks(h.tree, i, Action.Drop(c), j);
          case _ =>
        }
      case DropLease => OtherStacks(h.tree, i, StartBegin(h.calls[i].scope), j);
      case StartShutdown => OtherStacks(h.tree, i, StartBegin(h.app), j);
      case ShutdownStep(slot) =>
        match h.shutdown {
          case ShutdownBegin(t) => OtherStacks(h.tree, t, Advance(slot), j);
          case ShutdownSwept(t) => OtherStacks(h.tree, t, StartFinish(h.app), j);
          case ShutdownFinish(t) => OtherStacks(h.tree, t, Advance(slot), j);
          case _ =>
        }
      case _ =>
    }
  }

  /** How one step of the call itself moves it between outcomes. */
  lemma OutcomeAfter(h: Host, i: Thread, s: Step)
    requires HostInv(h) && StepEnabled(h, i, s) && i in h.calls && !s.Enter?
    ensures var n := StepNext(h, i, s);
            && i in n.calls
            && (n.calls[i] == Rejected(DeadlineExceeded) <==>
                  h.calls[i] == Rejected(DeadlineExceeded) || FoundElapsed(s))
            && (n.calls[i] == Rejected(AdmissionCapacity) <==>
                  h.calls[i] == Rejected(AdmissionCapacity) || FoundFull(h, i, s))
            && (TurnedAway(n, i) <==> TurnedAway(h, i) || FoundClosed(h, i, s))
  {
    hide HostInv, Enabled, Next, Inv, ListExact, OwnersDiffer, OnlyAppHasChildren, AppOk, Owned, CallFits, AfterLoad,
      PhaseAfter;
    InvParts(h);
    NoCallShutsDown(h, i);
    match s {
      case TreeStep(slot) => TreeOutcome(h, i, slot);
      case Load => LoadOutcome(h, i);
      case _ =>
    }
  }

  lemma LoadOutcome(h: Host, i: Thread)
    requires StepEnabled(h, i, Load) && i in h.calls
    ensures var n := AfterLoad(h, i);
            && i in n.calls && n.calls[i] != Rejected(DeadlineExceeded) && h.calls[i] != Rejected(DeadlineExceeded)
            && (n.calls[i] == Rejected(AdmissionCapacity) <==> FoundFull(h, i, Load))
            && h.calls[i] != Rejected(AdmissionCapacity)
            && (TurnedAway(n, i) <==> TurnedAway(h, i) || FoundClosed(h, i, Load))
  {
    hide Enabled;
    if h.calls[i].Reserved? && h.accepting {
      assert StackOf(AfterLoad(h, i).tree, i) == [Child(h.app, CheckOpen)];
    }
  }

  lemma TreeOutcome(h: Host, i: Thread, slot: Ref)
    requires StepEnabled(h, i, TreeStep(slot)) && CallFits(h, i)
    ensures var n := StepNext(h, i, TreeStep(slot));
            && i in n.calls && !n.calls[i].Rejected? && !h.calls[i].Rejected?
            && (TurnedAway(n, i) <==> TurnedAway(h, i) || FoundClosed(h, i, TreeStep(slot)))
  {
    hide Owned, OwnScope;
    if h.calls[i].Creating? { CreatingOutcome(h, i, slot); }
    hide Next, Enabled;
  }

  lemma CreatingOutcome(h: Host, i: Thread, slot: Ref)
    requires StepEnabled(h, i, TreeStep(slot)) && CallFits(h, i) && h.calls[i].Creating?
    ensures var n := StepNext(h, i, TreeStep(slot));
            && i in n.calls && !n.calls[i].Rejected?
            && (TurnedAway(n, i) <==> TurnedAway(h, i) || FoundClosed(h, i, TreeStep(slot)))
  {
    hide Owned, OwnScope;
    var pc := Top(h.tree, i).child;
    var m := Next(h.tree, i, Advance(slot));
    assert StackOf(h.tree, i) == [Child(h.app, pc)];
    if pc.ChildDone? {
      assert StackOf(m, i) == [];
    } else {
      ChildTurnsAwayIff(h.tree, i, slot, h.app, pc);
      ChildStaysAlone(h.tree, i, slot, h.app, pc);
    }
    hide Next, Enabled;
  }

  lemma ChildStaysAlone(st: State, t: Thread, slot: Ref, s: Ref, pc: ChildPc)
    requires Enabled(st, t, Advance(slot)) && StackOf(st, t) == [Child(s, pc)] && !pc.ChildDone?
    ensures |StackOf(Next(st, t, Advance(slot)), t)| == 1 && s in st.state
  {
  }

  lemma NoCallShutsDown(h: Host, i: Thread)
    requires HostInv(h) && i in h.calls
    ensures !Shutting(h, i)
  {
    CountIs(h);
    hide HostInv;
  }

  // ----- a whole call

  /** Step `e` is where the call of `i` under way at `k` entered. */
  ghost predicate LastEntry(hosts: seq<Host>, threads: seq<Thread>, steps: seq<Step>, i: Thread, e: nat, k: nat) {
    && e < k <= |steps| && |threads| == |steps| && |hosts| == |steps| + 1
    && threads[e] == i && steps[e].Enter?
    && forall j :: e < j < k && threads[j] == i ==> !steps[j].Enter?
  }

  ghost predicate ElapsedAt(threads: seq<Thread>, steps: seq<Step>, i: Thread, j: nat)
    requires j < |steps| == |threads|
  {
    threads[j] == i && FoundElapsed(steps[j])
  }

  ghost predicate FullAt(hosts: seq<Host>, threads: seq<Thread>, steps: seq<Step>, i: Thread, j: nat)
    requires j < |steps| == |threads| && |hosts| == |steps| + 1
  {
    threads[j] == i && FoundFull(hosts[j], i, steps[j])
  }

  ghost predicate ClosedAt(hosts: seq<Host>, threads: seq<Thread>, steps: seq<Step>, i: Thread, j: nat)
    requires j < |steps| == |threads| && |hosts| == |steps| + 1
  {
    threads[j] == i && FoundClosed(hosts[j], i, steps[j])
  }

  /** Every rejection has its cause, and every cause leads to its rejection: since the call
      entered, its deadline step found the deadline passed, or its update found `active` at the
      bound, or one of its four checks found the host or the application scope closed. */
  lemma {:induction false} RejectionHasCause(hosts: seq<Host>, threads: seq<Thread>, steps: seq<Step>, app: Ref,
      max: nat, i: Thread, e: nat, k: nat)
    requires HostRun(hosts, threads, steps, app, max) && LastEntry(hosts, threads, steps, i, e, k)
    ensures i in hosts[k].calls
    ensures hosts[k].calls[i] == Rejected(DeadlineExceeded) <==>
            exists j :: e < j < k && ElapsedAt(threads, steps, i, j)
    ensures hosts[k].calls[i] == Rejected(AdmissionCapacity) <==>
            exists j :: e < j < k && FullAt(hosts, threads, steps, i, j)
    ensures TurnedAway(hosts[k], i) <==> exists j :: e < j < k && ClosedAt(hosts, threads, steps, i, j)
    decreases k
  {
    hide HostInv, StepNext, StepEnabled, TurnedAway, FoundFull, FoundClosed, FoundElapsed;
    if k == e + 1 {
      EntersFresh(hosts[e], i);
    } else {
      RejectionHasCause(hosts, threads, steps, app, max, i, e, k - 1);
      RunKeepsHostInv(hosts, threads, steps, app, max, k - 1);
      var h, u, s := hosts[k - 1], threads[k - 1], steps[k - 1];
      if u == i {
        OutcomeAfter(h, i, s);
      } else {
        OthersAreUntouched(h, u, s, i);
        SameStack(h, hosts[k], i);
      }
      assert ElapsedAt(threads, steps, i, k - 1) <==> u == i && FoundElapsed(s);
      assert FullAt(hosts, threads, steps, i, k - 1) <==> u == i && FoundFull(h, i, s);
      assert ClosedAt(hosts, threads, steps, i, k - 1) <==> u == i && FoundClosed(h, i, s);
    }
  }

  lemma EntersFresh(h: Host, i: Thread)
    requires StepEnabled(h, i, Enter)
    ensures var n := StepNext(h, i, Enter); i in n.calls && n.calls[i].Entered? && !TurnedAway(n, i)
  {
  }

  lemma SameStack(h: Host, n: Host, i: Thread)
    requires i in h.calls && i in n.calls && n.calls[i] == h.calls[i] && n.app == h.app
    requires StackOf(n.tree, i) == StackOf(h.tree, i)
    ensures TurnedAway(n, i) <==> TurnedAway(h, i)
  {
  }

  // ----- a call that runs alone

  /** These steps of `i` lead from `h` to `n`. */
  ghost predicate RunsThrough(h: Host, i: Thread, steps: seq<Step>, n: Host)
    decreases |steps|
  {
    if steps == [] then n == h
    else StepEnabled(h, i, steps[0]) && RunsThrough(StepNext(h, i, steps[0]), i, steps[1..], n)
  }

  lemma Before(h: Host, i: Thread, s: Step, m: Host, rest: seq<Step>, n: Host)
    requires StepEnabled(h, i, s) && StepNext(h, i, s) == m && RunsThrough(m, i, rest, n)
    ensures RunsThrough(h, i, [s] + rest, n)
  {
    assert ([s] + rest)[1..] == rest;
    hide StepEnabled, StepNext;
  }

  lemma NoMore(h: Host, i: Thread)
    ensures RunsThrough(h, i, [], h)
  {
  }

  /** `i` has no call under way and the host is not shutting down. */
  ghost predicate MayEnter(h: Host, i: Thread) {
    (h.shutdown.Serving? || h.shutdown.ShutDown?) && (i in h.calls ==> Over(h.calls[i])) && StackOf(h.tree, i) == []
  }

  lemma Again(h: Host, i: Thread, p: Phase, q: Phase)
    ensures Move(Move(h, i, p), i, q) == Move(h, i, q)
  {
    assert h.calls[i := p][i := q] == h.calls[i := q];
  }

  /** A host that does not accept rejects at once. */
  lemma RejectsWhenNotAccepting(h: Host, i: Thread)
    requires MayEnter(h, i) && !h.accepting
    ensures RunsThrough(h, i, [Enter, Load], Move(h, i, Rejected(AdmissionClosed)))
  {
    var entered, end := Move(h, i, Entered), Move(h, i, Rejected(AdmissionClosed));
    Again(h, i, Entered, Rejected(AdmissionClosed));
    NoMore(end, i);
    Before(entered, i, Load, end, [], end);
    Before(h, i, Enter, entered, [Load], end);
    assert [Load] + [] == [Load] && [Enter] + [Load] == [Enter, Load];
  }

  /** With its deadline passed a call is rejected before it takes any capacity. */
  lemma RejectsWhenElapsed(h: Host, i: Thread)
    requires MayEnter(h, i) && h.accepting
    ensures RunsThrough(h, i, [Enter, Load, Deadline(true)], Move(h, i, Rejected(DeadlineExceeded)))
  {
    var end := Move(h, i, Rejected(DeadlineExceeded));
    Again(h, i, Entered, CheckingDeadline);
    Again(h, i, CheckingDeadline, Rejected(DeadlineExceeded));
    NoMore(end, i);
    Before(Move(h, i, CheckingDeadline), i, Deadline(true), end, [], end);
    Before(Move(h, i, Entered), i, Load, Move(h, i, CheckingDeadline), [Deadline(true)], end);
    Before(h, i, Enter, Move(h, i, Entered), [Load, Deadline(true)], end);
    assert [Deadline(true)] + [] == [Deadline(true)] && [Load] + [Deadline(true)] == [Load, Deadline(true)];
    assert [Enter] + [Load, Deadline(true)] == [Enter, Load, Deadline(true)];
  }

  /** The steps up to the update of `active`, for a host that accepts. */
  lemma UpToReserving(h: Host, i: Thread, rest: seq<Step>, n: Host)
    requires MayEnter(h, i) && h.accepting && RunsThrough(Move(h, i, Reserving), i, rest, n)
    ensures RunsThrough(h, i, [Enter, Load, Deadline(false)] + rest, n)
  {
    Again(h, i, Entered, CheckingDeadline);
    Again(h, i, CheckingDeadline, Reserving);
    Before(Move(h, i, CheckingDeadline), i, Deadline(false), Move(h, i, Reserving), rest, n);
    Before(Move(h, i, Entered), i, Load, Move(h, i, CheckingDeadline), [Deadline(false)] + rest, n);
    Before(h, i, Enter, Move(h, i, Entered), [Load] + ([Deadline(false)] + rest), n);
    assert [Enter] + ([Load] + ([Deadline(false)] + rest)) == [Enter, Load, Deadline(false)] + rest;
  }

  /** At the bound a call is rejected. */
  lemma RejectsWhenFull(h: Host, i: Thread)
    requires MayEnter(h, i) && h.accepting && h.active >= h.max
    ensures RunsThrough(h, i, [Enter, Load, Deadline(false), Load], Move(h, i, Rejected(AdmissionCapacity)))
  {
    var end := Move(h, i, Rejected(AdmissionCapacity));
    Again(h, i, Reserving, Rejected(AdmissionCapacity));
    NoMore(end, i);
    Before(Move(h, i, Reserving), i, Load, end, [], end);
    UpToReserving(h, i, [Load] + [], end);
    assert [Enter, Load, Deadline(false)] + ([Load] + []) == [Enter, Load, Deadline(false), Load];
  }

  /** The host with one more holder, whose `child` is at `pc` on the tree `tree`. */
  ghost function Creates(h: Host, i: Thread, tree: State, pc: ChildPc): Host {
    h.(active := h.active + 1, calls := h.calls[i := Creating], tree := InChild(tree, i, h.app, pc))
  }

  /** The steps up to the first check of `child`, with capacity left. */
  lemma UpToCreating(h: Host, i: Thread, rest: seq<Step>, n: Host)
    requires MayEnter(h, i) && h.accepting && h.active < h.max && AppOk(h)
    requires RunsThrough(Creates(h, i, h.tree, CheckOpen), i, rest, n)
    ensures RunsThrough(h, i, [Enter, Load, Deadline(false), Load, Load] + rest, n)
  {
    hide RunsThrough, StepEnabled, StepNext, Creates, Enabled;
    var raised := h.(active := h.active + 1);
    TakesCapacity(h, i);
    Before(Move(raised, i, Reserved), i, Load, Creates(h, i, h.tree, CheckOpen), rest, n);
    Before(Move(h, i, Reserving), i, Load, Move(raised, i, Reserved), [Load] + rest, n);
    UpToReserving(h, i, [Load] + ([Load] + rest), n);
    assert [Enter, Load, Deadline(false)] + ([Load] + ([Load] + rest))
        == [Enter, Load, Deadline(false), Load, Load] + rest;
  }

  /** The update of `active`, and the start of `child`. */
  lemma TakesCapacity(h: Host, i: Thread)
    requires MayEnter(h, i) && h.accepting && h.active < h.max && AppOk(h)
    ensures var raised := Move(h.(active := h.active + 1), i, Reserved);
            && StepEnabled(Move(h, i, Reserving), i, Load) && StepNext(Move(h, i, Reserving), i, Load) == raised
            && StepEnabled(raised, i, Load) && StepNext(raised, i, Load) == Creates(h, i, h.tree, CheckOpen)
  {
    var raised := h.(active := h.active + 1);
    Again(h, i, Reserving, Reserved);
    Again(raised, i, Reserving, Reserved);
    Again(raised, i, Reserved, Creating);
    assert Enabled(h.tree, i, StartChild(h.app));
  }

  /** One operation of `child` inside a call. */
  lemma CreatesOn(h: Host, i: Thread, tree: State, pc: ChildPc, slot: Ref, tree': State, pc': ChildPc, rest: seq<Step>,
                  n: Host)
    requires Steps(InChild(tree, i, h.app, pc), i, slot, InChild(tree', i, h.app, pc'))
    requires RunsThrough(Creates(h, i, tree', pc'), i, rest, n)
    ensures RunsThrough(Creates(h, i, tree, pc), i, [TreeStep(slot)] + rest, n)
  {
    hide Enabled, Next;
    assert h.calls[i := Creating][i := Creating] == h.calls[i := Creating];
    Before(Creates(h, i, tree, pc), i, TreeStep(slot), Creates(h, i, tree', pc'), rest, n);
  }

  /** `child` has returned: a lease, or the way back. */
  lemma CreateReturns(h: Host, i: Thread, tree: State, result: Option<Ref>, rest: seq<Step>, n: Host)
    requires Allocated(tree, h.app)
    requires var p := if result.Some? then Leased(result.value) else RollingBack;
             RunsThrough(Move(h, i, p).(active := h.active + 1, tree := WithStack(tree, i, [])), i, rest, n)
    ensures RunsThrough(Creates(h, i, tree, ChildDone(result)), i, [TreeStep(0)] + rest, n)
  {
    var st, p := InChild(tree, i, h.app, ChildDone(result)), if result.Some? then Leased(result.value) else RollingBack;
    assert StackOf(st, i) == [Child(h.app, ChildDone(result))];
    assert tree.stacks[i := [Child(h.app, ChildDone(result))]][i := []] == tree.stacks[i := []];
    assert Steps(st, i, 0, WithStack(tree, i, []));
    hide Enabled, Next;
    assert h.calls[i := Creating][i := p] == h.calls[i := p];
    Before(Creates(h, i, tree, ChildDone(result)), i, TreeStep(0),
           Move(h, i, p).(active := h.active + 1, tree := WithStack(tree, i, [])), rest, n);
  }

  /** The steps of a call that is admitted; `c` is the scope it creates. */
  function Admitted(c: Ref): seq<Step> {
    [Enter, Load, Deadline(false), Load, Load,
     TreeStep(c), TreeStep(c), TreeStep(c), TreeStep(c), TreeStep(c), TreeStep(0)]
  }

  /** With the host accepting, its application scope open and not locked, capacity left and the
      deadline not passed, the call's own steps end in a lease on a new scope. */
  lemma AdmitsWhenItMay(h: Host, i: Thread, c: Ref)
    requires MayEnter(h, i) && h.accepting && h.active < h.max && AppOk(h)
    requires h.tree.state[h.app] == Open && h.app !in h.tree.locks && Fresh(h.tree, c)
    ensures RunsThrough(h, i, Admitted(c),
              Move(h, i, Leased(c)).(active := h.active + 1, tree := WithStack(WithChild(h.tree, h.app, c), i, [])))
  {
    var t, app := h.tree, h.app;
    var b := Born(t, app, c);
    var locked := b.(locks := b.locks[app := i]);
    var made := WithChild(t, app, c);
    var end := Move(h, i, Leased(c)).(active := h.active + 1, tree := WithStack(made, i, []));
    BornIsListed(t, app, c);
    CheckStep(t, i, app, c);
    AllocateStep(t, i, app, c);
    LockStep(b, i, app, c);
    RecheckStep(locked, i, app, c);
    PushStep(b, i, app, c);
    assert Allocated(made, app);
    hide RunsThrough, Creates, Born, WithChild, InChild, Steps;
    NoMore(end, i);
    CreateReturns(h, i, made, Some(c), [], end);
    CreatesOn(h, i, locked, Push(c), c, made, ChildDone(Some(c)), [TreeStep(0)] + [], end);
    CreatesOn(h, i, locked, Recheck(c), c, locked, Push(c), [TreeStep(c)] + ([TreeStep(0)] + []), end);
    CreatesOn(h, i, b, LockChildren(c), c, locked, Recheck(c), [TreeStep(c)] + ([TreeStep(c)] + ([TreeStep(0)] + [])),
              end);
    CreatesOn(h, i, t, Allocate, c, b, LockChildren(c),
              [TreeStep(c)] + ([TreeStep(c)] + ([TreeStep(c)] + ([TreeStep(0)] + []))), end);
    CreatesOn(h, i, t, CheckOpen, c, t, Allocate,
              [TreeStep(c)] + ([TreeStep(c)] + ([TreeStep(c)] + ([TreeStep(c)] + ([TreeStep(0)] + [])))), end);
    var inChild := [TreeStep(c)] + ([TreeStep(c)] + ([TreeStep(c)] + ([TreeStep(c)]
                     + ([TreeStep(c)] + ([TreeStep(0)] + [])))));
    UpToCreating(h, i, inChild, end);
    AdmittedSteps(c);
  }

  /** With the application scope no longer open the call gives its capacity back and is rejected. */
  lemma RejectsWhenScopeClosed(h: Host, i: Thread)
    requires MayEnter(h, i) && h.accepting && h.active < h.max && AppOk(h) && h.tree.state[h.app] != Open
    ensures RunsThrough(h, i, [Enter, Load, Deadline(false), Load, Load, TreeStep(0), TreeStep(0), Load],
              Move(h, i, Rejected(AdmissionClosed)).(tree := WithStack(h.tree, i, [])))
  {
    var t, app := h.tree, h.app;
    var back := Move(h, i, RollingBack).(active := h.active + 1, tree := WithStack(t, i, []));
    var end := Move(h, i, Rejected(AdmissionClosed)).(tree := WithStack(t, i, []));
    assert Allocated(t, app);
    hide StepEnabled, StepNext, Steps, InChild, RunsThrough, Creates, Move, WithStack;
    RefuseStep(t, i, app);
    RollsBack(h, i);
    NoMore(end, i);
    Before(back, i, Load, end, [], end);
    CreateReturns(h, i, t, None, [Load] + [], end);
    CreatesOn(h, i, t, CheckOpen, 0, t, ChildDone(None), [TreeStep(0)] + ([Load] + []), end);
    var inChild := [TreeStep(0)] + ([TreeStep(0)] + ([Load] + []));
    UpToCreating(h, i, inChild, end);
    TurnedAwaySteps();
  }

  lemma RefuseStep(t: State, i: Thread, app: Ref)
    requires Allocated(t, app) && t.state[app] != Open
    ensures Steps(InChild(t, i, app, CheckOpen), i, 0, InChild(t, i, app, ChildDone(None)))
  {
    Single(t, i, Child(app, CheckOpen), Child(app, ChildDone(None)));
  }

  lemma RollsBack(h: Host, i: Thread)
    ensures var back := Move(h, i, RollingBack).(active := h.active + 1, tree := WithStack(h.tree, i, []));
            && StepEnabled(back, i, Load)
            && StepNext(back, i, Load) == Move(h, i, Rejected(AdmissionClosed)).(tree := WithStack(h.tree, i, []))
  {
    Again(h, i, RollingBack, Rejected(AdmissionClosed));
    hide Next, Enabled;
  }

  lemma AdmittedSteps(c: Ref)
    ensures [Enter, Load, Deadline(false), Load, Load]
            + ([TreeStep(c)] + ([TreeStep(c)] + ([TreeStep(c)] + ([TreeStep(c)]
            + ([TreeStep(c)] + ([TreeStep(0)] + [])))))) == Admitted(c)
  {
  }

  lemma TurnedAwaySteps()
    ensures [Enter, Load, Deadline(false), Load, Load] + ([TreeStep(0)] + ([TreeStep(0)] + ([Load] + [])))
         == [Enter, Load, Deadline(false), Load, Load, TreeStep(0), TreeStep(0), Load]
  {
  }

  // ----- dropping a lease, and shutdown

  ghost predicate HostReachesIn(h: Host, i: Thread, n: Host, k: nat)
    decreases k
  {
    if k == 0 then n == h
    else exists s :: StepEnabled(h, i, s) && HostReachesIn(StepNext(h, i, s), i, n, k - 1)
  }

  /** The thread's own steps lead from `h` to `n`. */
  ghost predicate HostReaches(h: Host, i: Thread, n: Host) {
    exists k :: HostReachesIn(h, i, n, k)
  }

  lemma Arrived(h: Host, i: Thread)
    ensures HostReaches(h, i, h)
  {
    assert HostReachesIn(h, i, h, 0);
  }

  lemma StepOn(h: Host, i: Thread, s: Step, n: Host)
    requires StepEnabled(h, i, s) && HostReaches(StepNext(h, i, s), i, n)
    ensures HostReaches(h, i, n)
  {
    hide StepEnabled, StepNext;
    var k: nat :| HostReachesIn(StepNext(h, i, s), i, n, k);
    assert HostReachesIn(h, i, n, k + 1);
  }

  /** A call runs its scope operation to the end: it moves on when its stack is empty. */
  lemma {:induction false} TreeRunsOn(h: Host, i: Thread, m: State, k: nat, n: Host)
    requires i in h.calls && (h.calls[i].BeginClosing? || h.calls[i].FinishClosing?)
    requires ReachesIn(h.tree, i, m, k) && k > 0 && StackOf(m, i) == []
    requires var c := h.calls[i].scope;
             HostReaches(Move(h, i, if h.calls[i].BeginClosing? then BeginClosed(c) else Dropping(c)).(tree := m), i, n)
    ensures HostReaches(h, i, n)
    decreases k
  {
    hide Next, Enabled;
    var slot :| Enabled(h.tree, i, Advance(slot)) && ReachesIn(Next(h.tree, i, Advance(slot)), i, m, k - 1);
    var h' := StepNext(h, i, TreeStep(slot));
    if k > 1 {
      StillRunning(h'.tree, i, m, k - 1);
      assert h.calls[i := h.calls[i]] == h.calls;
      TreeRunsOn(h', i, m, k - 1, n);
    }
    StepOn(h, i, TreeStep(slot), n);
  }

  lemma StillRunning(st: State, i: Thread, m: State, k: nat)
    requires ReachesIn(st, i, m, k) && k > 0
    ensures StackOf(st, i) != []
  {
    hide Next;
    var slot :| Enabled(st, i, Advance(slot)) && ReachesIn(Next(st, i, Advance(slot)), i, m, k - 1);
  }

  lemma RunsOn(h: Host, i: Thread, m: State, n: Host)
    requires i in h.calls && (h.calls[i].BeginClosing? || h.calls[i].FinishClosing?)
    requires Reaches(h.tree, i, m) && StackOf(h.tree, i) != [] && StackOf(m, i) == []
    requires var c := h.calls[i].scope;
             HostReaches(Move(h, i, if h.calls[i].BeginClosing? then BeginClosed(c) else Dropping(c)).(tree := m), i, n)
    ensures HostReaches(h, i, n)
  {
    var k: nat :| ReachesIn(h.tree, i, m, k);
    TreeRunsOn(h, i, m, k, n);
  }

  lemma NobodyHolds(h: Host, i: Thread, c: Ref)
    requires HostInv(h) && i in h.calls && h.calls[i] == Leased(c)
    ensures StackOf(h.tree, i) == [] && h.shutdown.Serving? && c != h.app && Allocated(h.tree, c) && c in h.tree.alive
    ensures h.tree.parent[c] == Some(h.app)
    ensures forall u, k :: u in h.tree.stacks && 0 <= k < |h.tree.stacks[u]| ==> !Holds(h.tree.stacks[u][k], c)
  {
    CountIs(h);
    InvParts(h);
    AtPhaseFits(h, i);
    assert Owned(h, i) == Some(c) && CallFits(h, i);
    forall u, k | u in h.tree.stacks && 0 <= k < |h.tree.stacks[u]|
      ensures !Holds(h.tree.stacks[u][k], c)
    {
      if u in h.calls {
        CallHoldsNot(h, i, u, c);
      } else {
        IdleStack(h, u);
      }
    }
    hide HostInv, Inv, ListExact, OnlyAppHasChildren, AppOk, CallFits, OwnersDiffer;
  }

  lemma IdleStack(h: Host, u: Thread)
    requires ShutdownFits(h) && h.shutdown.Serving? && u in h.tree.stacks && u !in h.calls
    ensures h.tree.stacks[u] == []
  {
  }

  lemma CallHoldsNot(h: Host, i: Thread, u: Thread, c: Ref)
    requires i in h.calls && h.calls[i] == Leased(c) && u in h.calls && OwnersDiffer(h) && CallFits(h, u) && c != h.app
    ensures forall k :: 0 <= k < |StackOf(h.tree, u)| ==> !Holds(StackOf(h.tree, u)[k], c)
  {
    assert Owned(h, i) == Some(c);
    hide OwnersDiffer;
    if u != i { OwnsAnother(h, i, u); }
    hide OwnScope;
  }

  lemma OwnsAnother(h: Host, i: Thread, u: Thread)
    requires i in h.calls && u in h.calls && u != i && OwnersDiffer(h) && Owned(h, i).Some?
    ensures Owned(h, u) != Owned(h, i)
  {
  }

  /** The last link of a path, and the path without it. */
  lemma LastLink(parent: map<Ref, Option<Ref>>, path: seq<Ref>, c: Ref, d: Ref)
    requires Descends(parent, path, c, d) && |path| > 1
    ensures d in parent && parent[d] == Some(path[|path| - 2])
    ensures Descends(parent, path[..|path| - 1], c, path[|path| - 2])
  {
  }

  /** A scope without parent is below none. */
  lemma RootNotBelow(parent: map<Ref, Option<Ref>>, app: Ref, c: Ref)
    requires app in parent && parent[app] == None && c != app
    ensures !Under(parent, c, app)
  {
    if path :| Descends(parent, path, c, app) {
      if |path| > 1 { LastLink(parent, path, c, app); }
    }
  }

  /** A child of the application scope is not below another one. */
  lemma NotBelow(parent: map<Ref, Option<Ref>>, app: Ref, c: Ref, d: Ref)
    requires app in parent && parent[app] == None && d in parent && parent[d] == Some(app) && c != app && c != d
    ensures !Under(parent, c, d)
  {
    RootNotBelow(parent, app, c);
    if path :| Descends(parent, path, c, d) {
      if |path| > 1 { LastLink(parent, path, c, d); }
    }
  }

  lemma SameRanked(st: State, n: State)
    requires Ranked(st) && n.parent == st.parent && n.id == st.id
    ensures Ranked(n)
  {
  }

  /** With no child list locked, a lease that is dropped gives everything back: its scope is
      closed, off the application's list and released, and `active` is one less. */
  lemma LeaseDropReturns(h: Host, i: Thread, c: Ref) returns (n: Host)
    requires HostInv(h) && Ranked(h.tree) && h.tree.locks == map[] && i in h.calls && h.calls[i] == Leased(c)
    ensures HostReaches(h, i, n) && n.calls == h.calls[i := Done]
    ensures h.active > 0 && n == h.(tree := n.tree, calls := n.calls, active := h.active - 1)
    ensures n.tree.alive == h.tree.alive - {c} && c in n.tree.state && n.tree.state[c] == Closed
    ensures h.app in h.tree.state && h.app in n.tree.state && n.tree.state[h.app] == h.tree.state[h.app]
    ensures h.app in h.tree.children && h.app in n.tree.children
    ensures forall d: Ref :: d in n.tree.children[h.app] <==> d in h.tree.children[h.app] && d != c
  {
    NobodyHolds(h, i, c);
    InvParts(h);
    HolderIsCounted(h, i);
    var begun := Next(h.tree, i, StartBegin(c));
    var m1 := BeginCloseReturns(h.tree, i, c);
    SameRanked(h.tree, m1);
    assert Enabled(m1, i, StartFinish(c));
    var m2 := FinishCloseReturns(m1, i, c);
    n := DropSteps(h, i, c, begun, m1, m2);
    hide HostReaches, Reaches, Ranked, Inv, HostInv, CallFits, OwnersDiffer, OnlyAppHasChildren;
    DroppedList(h, m1, m2, c);
  }

  /** The application's list after the scope of a lease has been closed. */
  lemma DroppedList(h: Host, m1: State, m2: State, c: Ref)
    requires HostInv(h) && c != h.app && Allocated(h.tree, c) && h.tree.parent[c] == Some(h.app)
    requires m1.children == h.tree.children && m1.parent == h.tree.parent && m1.alive == h.tree.alive
    requires m1.state.Keys == h.tree.state.Keys && m2.state.Keys == m1.state.Keys
    requires m2.alive == m1.alive && m2.parent == m1.parent && IsFinished(m2, c)
    requires forall r :: r in h.tree.state && m1.state[r] != h.tree.state[r] ==> Under(h.tree.parent, c, r)
    requires forall r :: r in m1.state && m2.state[r] != m1.state[r] ==> Under(h.tree.parent, c, r)
    requires m2.children.Keys == m1.children.Keys
    requires forall q, d :: q in m1.children && d in m2.children[q] ==> d in m1.children[q]
    requires forall q, d :: q in m1.children && d in m1.children[q] && d !in m2.children[q] ==>
               d !in m1.alive || Under(m1.parent, c, d)
    ensures h.app in m2.children && forall d: Ref :: d in m2.children[h.app] <==> d in h.tree.children[h.app] && d != c
    ensures h.app in h.tree.state && h.app in m2.state && m2.state[h.app] == h.tree.state[h.app]
  {
    InvParts(h);
    OwnedAreAlive(h);
    hide HostInv, Under, Owned, Listed;
    forall d: Ref
      ensures d in m2.children[h.app] <==> d in h.tree.children[h.app] && d != c
    {
      if d in h.tree.children[h.app] && d != c {
        var j :| j in h.calls && Listed(h, j) && Owned(h, j) == Some(d);
        assert d in h.tree.alive;
        ListedUnderApp(h, d);
        NotBelow(h.tree.parent, h.app, c, d);
      }
    }
    RootNotBelow(h.tree.parent, h.app, c);
  }

  lemma ListedUnderApp(h: Host, d: Ref)
    requires Inv(h.tree) && h.app in h.tree.children && d in h.tree.children[h.app]
    ensures d in h.tree.parent && h.tree.parent[d] == Some(h.app)
  {
    InvHolds(h.tree);
    hide Inv;
  }

  lemma DropSteps(h: Host, i: Thread, c: Ref, begun: State, m1: State, m2: State) returns (n: Host)
    requires i in h.calls && h.calls[i] == Leased(c) && h.active > 0 && Enabled(h.tree, i, StartBegin(c))
    requires begun == Next(h.tree, i, StartBegin(c)) && Reaches(begun, i, m1) && StackOf(m1, i) == []
    requires Enabled(m1, i, StartFinish(c)) && Reaches(Next(m1, i, StartFinish(c)), i, m2) && StackOf(m2, i) == []
    requires m2.alive == h.tree.alive && c in h.tree.alive
    requires forall u :: u != i ==> StackOf(m2, u) == StackOf(h.tree, u)
    requires forall u, k :: u in h.tree.stacks && 0 <= k < |h.tree.stacks[u]| ==> !Holds(h.tree.stacks[u][k], c)
    ensures HostReaches(h, i, n)
    ensures n == h.(tree := m2.(alive := m2.alive - {c}), calls := h.calls[i := Done], active := h.active - 1)
  {
    hide Reaches, HostReaches, Holds, StepEnabled, StepNext, Move;
    var finishing := Next(m1, i, StartFinish(c));
    var dropped := m2.(alive := m2.alive - {c});
    n := Move(h, i, Done).(tree := dropped, active := h.active - 1);
    MoveIs(h, i, Done);
    assert StackOf(begun, i) != [] && StackOf(finishing, i) != [];
    NobodyHoldsStill(h.tree, m2, i, c);
    hide Enabled, Next;
    Arrived(n, i);
    CountDown(h, i, dropped);
    StepOn(Move(h, i, Releasing).(tree := dropped), i, Load, n);
    ReleaseStep(h, i, c, m2);
    StepOn(Move(h, i, Dropping(c)).(tree := m2), i, Load, n);
    InPhase(h, i, FinishClosing(c), Dropping(c), finishing);
    RunsOn(Move(h, i, FinishClosing(c)).(tree := finishing), i, m2, n);
    FinishClosingStep(h, i, c, m1);
    StepOn(Move(h, i, BeginClosed(c)).(tree := m1), i, Load, n);
    InPhase(h, i, BeginClosing(c), BeginClosed(c), begun);
    RunsOn(Move(h, i, BeginClosing(c)).(tree := begun), i, m1, n);
    DropLeaseStep(h, i, c);
    StepOn(h, i, DropLease, n);
  }

  lemma MoveIs(h: Host, i: Thread, p: Phase)
    ensures Move(h, i, p) == h.(calls := h.calls[i := p])
  {
  }

  lemma InPhase(h: Host, i: Thread, p: Phase, q: Phase, tree: State)
    ensures var n := Move(h, i, p).(tree := tree);
            && i in n.calls && n.calls[i] == p && n.tree == tree
            && forall m: State :: Move(n, i, q).(tree := m) == Move(h, i, q).(tree := m)
  {
    Again(h, i, p, q);
  }

  lemma NobodyHoldsStill(st: State, m: State, i: Thread, c: Ref)
    requires StackOf(m, i) == [] && c in m.alive && forall u :: u != i ==> StackOf(m, u) == StackOf(st, u)
    requires forall u, k :: u in st.stacks && 0 <= k < |st.stacks[u]| ==> !Holds(st.stacks[u][k], c)
    ensures Enabled(m, i, Action.Drop(c)) && Next(m, i, Action.Drop(c)) == m.(alive := m.alive - {c})
  {
    hide Holds;
    forall u, k | u in m.stacks && 0 <= k < |m.stacks[u]| ensures !Holds(m.stacks[u][k], c) {
      assert StackOf(m, u) == StackOf(st, u);
    }
  }

  lemma DropLeaseStep(h: Host, i: Thread, c: Ref)
    requires i in h.calls && h.calls[i] == Leased(c) && Enabled(h.tree, i, StartBegin(c))
    ensures StepEnabled(h, i, DropLease)
    ensures StepNext(h, i, DropLease) == Move(h, i, BeginClosing(c)).(tree := Next(h.tree, i, StartBegin(c)))
  {
    hide Enabled, Next;
  }

  lemma FinishClosingStep(h: Host, i: Thread, c: Ref, m: State)
    requires Enabled(m, i, StartFinish(c))
    ensures var b := Move(h, i, BeginClosed(c)).(tree := m);
            && StepEnabled(b, i, Load)
            && StepNext(b, i, Load) == Move(h, i, FinishClosing(c)).(tree := Next(m, i, StartFinish(c)))
  {
    hide Enabled, Next;
    Again(h, i, BeginClosed(c), FinishClosing(c));
  }

  lemma ReleaseStep(h: Host, i: Thread, c: Ref, m: State)
    requires Enabled(m, i, Action.Drop(c))
    ensures var b := Move(h, i, Dropping(c)).(tree := m);
            && StepEnabled(b, i, Load)
            && StepNext(b, i, Load) == Move(h, i, Releasing).(tree := Next(m, i, Action.Drop(c)))
  {
    hide Enabled, Next;
    Again(h, i, Dropping(c), Releasing);
  }

  lemma CountDown(h: Host, i: Thread, tree: State)
    requires h.active > 0
    ensures var b := Move(h, i, Releasing).(tree := tree);
            && StepEnabled(b, i, Load)
            && StepNext(b, i, Load) == Move(h, i, Done).(tree := tree, active := h.active - 1)
  {
    Again(h, i, Releasing, Done);
  }

  lemma {:induction false} ShutdownRunsOn(h: Host, t: Thread, m: State, k: nat, n: Host)
    requires h.shutdown == ShutdownBegin(t) || h.shutdown == ShutdownFinish(t)
    requires ReachesIn(h.tree, t, m, k) && k > 0 && StackOf(m, t) == []
    requires var after := if h.shutdown.ShutdownBegin? then ShutdownSwept(t) else ShutDown;
             HostReaches(h.(tree := m, shutdown := after), t, n)
    ensures HostReaches(h, t, n)
    decreases k
  {
    hide Next, Enabled;
    var slot :| Enabled(h.tree, t, Advance(slot)) && ReachesIn(Next(h.tree, t, Advance(slot)), t, m, k - 1);
    var h' := StepNext(h, t, ShutdownStep(slot));
    if k > 1 {
      StillRunning(h'.tree, t, m, k - 1);
      ShutdownRunsOn(h', t, m, k - 1, n);
    }
    StepOn(h, t, ShutdownStep(slot), n);
  }

  /** With no child list locked and every call over, shutdown returns: it stops accepting and
      leaves the application scope closed. */
  lemma ShutdownReturns(h: Host, t: Thread) returns (n: Host)
    requires HostInv(h) && Ranked(h.tree) && h.tree.locks == map[]
    requires h.shutdown.Serving? && t !in h.calls && forall j :: j in h.calls ==> Over(h.calls[j])
    ensures StepEnabled(h, t, StartShutdown)
    ensures HostReaches(h, t, n) && n == h.(tree := n.tree, accepting := false, shutdown := ShutDown)
    ensures n.tree.alive == h.tree.alive && n.tree.children == h.tree.children
    ensures h.app in n.tree.state && n.tree.state[h.app] == Closed
  {
    hide HostInv, Inv, ListExact, OwnersDiffer, CallFits, OnlyAppHasChildren, Ranked, Reaches;
    InvParts(h);
    assert StackOf(h.tree, t) == [] by { CountIs(h); NotShutting(h, t); }
    var begun := Next(h.tree, t, StartBegin(h.app));
    var m1 := BeginCloseReturns(h.tree, t, h.app);
    SameRanked(h.tree, m1);
    var finishing := Next(m1, t, StartFinish(h.app));
    var m2 := FinishCloseReturns(m1, t, h.app);
    n := h.(tree := m2, accepting := false, shutdown := ShutDown);
    ShutdownSteps(h, t, begun, m1, finishing, m2);
    hide HostReaches;
    NothingListed(h, m2);
  }

  lemma NotShutting(h: Host, t: Thread)
    requires ShutdownFits(h) && h.shutdown.Serving? && t !in h.calls
    ensures StackOf(h.tree, t) == []
  {
  }

  /** Nothing is registered when no call is under way, so no list loses anything. */
  lemma NothingListed(h: Host, m: State)
    requires HostInv(h) && forall j :: j in h.calls ==> Over(h.calls[j])
    requires m.children.Keys == h.tree.children.Keys
    requires forall q, c :: q in h.tree.children && c in m.children[q] ==> c in h.tree.children[q]
    ensures m.children == h.tree.children
  {
    hide HostInv, Inv, NoRepeats, Listed, Owned, OwnersDiffer, CallFits, AppOk;
    InvParts(h);
    forall j | j in h.calls ensures !Listed(h, j) { OverIsNotListed(h, j); }
    SomeMember(h.tree.children[h.app]);
    forall q | q in m.children
      ensures m.children[q] == h.tree.children[q] == []
    {
      SomeMember(m.children[q]);
    }
  }

  lemma OverIsNotListed(h: Host, j: Thread)
    requires j in h.calls && Over(h.calls[j])
    ensures !Listed(h, j)
  {
  }

  lemma ShutdownSteps(h: Host, t: Thread, begun: State, m1: State, finishing: State, m2: State)
    requires StepEnabled(h, t, StartShutdown) && begun == Next(h.tree, t, StartBegin(h.app))
    requires Reaches(begun, t, m1) && StackOf(m1, t) == [] && Enabled(m1, t, StartFinish(h.app))
    requires finishing == Next(m1, t, StartFinish(h.app)) && Reaches(finishing, t, m2) && StackOf(m2, t) == []
    ensures HostReaches(h, t, h.(tree := m2, accepting := false, shutdown := ShutDown))
  {
    hide HostReaches, StepEnabled, StepNext, ReachesIn;
    var n := h.(tree := m2, accepting := false, shutdown := ShutDown);
    var h1 := h.(tree := begun, accepting := false, shutdown := ShutdownBegin(t));
    var h2 := h.(tree := m1, accepting := false, shutdown := ShutdownSwept(t));
    var h3 := h.(tree := finishing, accepting := false, shutdown := ShutdownFinish(t));
    ShutdownMovesOn(h, t, m1);
    hide Enabled, Next;
    var k1: nat :| ReachesIn(begun, t, m1, k1);
    var k2: nat :| ReachesIn(finishing, t, m2, k2);
    NotYet(begun, t, m1, k1);
    NotYet(finishing, t, m2, k2);
    Arrived(n, t);
    ShutdownRunsOn(h3, t, m2, k2, n);
    StepOn(h2, t, ShutdownStep(0), n);
    ShutdownRunsOn(h1, t, m1, k1, n);
    StepOn(h, t, StartShutdown, n);
  }

  lemma ShutdownMovesOn(h: Host, t: Thread, m: State)
    requires StepEnabled(h, t, StartShutdown) && Enabled(m, t, StartFinish(h.app))
    ensures var begun, finishing := Next(h.tree, t, StartBegin(h.app)), Next(m, t, StartFinish(h.app));
            var swept := h.(tree := m, accepting := false, shutdown := ShutdownSwept(t));
            && StackOf(begun, t) != [] && StackOf(finishing, t) != []
            && StepNext(h, t, StartShutdown) == h.(tree := begun, accepting := false, shutdown := ShutdownBegin(t))
            && StepEnabled(swept, t, ShutdownStep(0))
            && StepNext(swept, t, ShutdownStep(0)) == swept.(tree := finishing, shutdown := ShutdownFinish(t))
  {
  }

  lemma NotYet(st: State, t: Thread, m: State, k: nat)
    requires ReachesIn(st, t, m, k) && StackOf(st, t) != [] && StackOf(m, t) == []
    ensures k > 0
  {
    hide Enabled, Next;
  }

  // ----- the tree of a host never has a cycle

  lemma StepKeepsRanked(h: Host, i: Thread, s: Step)
    requires HostInv(h) && Ranked(h.tree) && StepEnabled(h, i, s)
    ensures Ranked(StepNext(h, i, s).tree)
  {
    InvParts(h);
    hide HostInv, Inv, Ranked, Next, Enabled, PhaseAfter;
    match s {
      case TreeStep(slot) => NextKeepsRanked(h.tree, i, Advance(slot));
      case Load =>
        match h.calls[i] {
          case Reserved => if h.accepting { NextKeepsRanked(h.tree, i, StartChild(h.app)); }
          case BeginClosed(c) => NextKeepsRanked(h.tree, i, StartFinish(c));
          case Dropping(c) => NextKeepsRanked(h.tree, i, Action.Drop(c));
          case _ =>
        }
      case DropLease => NextKeepsRanked(h.tree, i, StartBegin(h.calls[i].scope));
      case StartShutdown => NextKeepsRanked(h.tree, i, StartBegin(h.app));
      case ShutdownStep(slot) =>
        match h.shutdown {
          case ShutdownBegin(t) => NextKeepsRanked(h.tree, t, Advance(slot));
          case ShutdownSwept(t) => NextKeepsRanked(h.tree, t, StartFinish(h.app));
          case ShutdownFinish(t) => NextKeepsRanked(h.tree, t, Advance(slot));
          case _ =>
        }
      case _ =>
    }
  }

  lemma {:induction false} HostIsRanked(hosts: seq<Host>, threads: seq<Thread>, steps: seq<Step>, app: Ref, max: nat,
      k: nat)
    requires HostRun(hosts, threads, steps, app, max) && k < |hosts|
    ensures Ranked(hosts[k].tree)
  {
    hide HostInv, Ranked, StepNext, StepEnabled, Initial;
    if k == 0 {
      InitialRanked(app);
    } else {
      HostIsRanked(hosts, threads, steps, app, max, k - 1);
      RunKeepsHostInv(hosts, threads, steps, app, max, k - 1);
      StepKeepsRanked(hosts[k - 1], threads[k - 1], steps[k - 1]);
    }
  }
}
