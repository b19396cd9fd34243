/** Every step of the serverless host keeps its invariant; what that means for capacity. */
module ServerlessProof {
  import opened Model
  import opened Ordering
  import opened ScopeTree
  import opened ScopeClosure
  import opened Serverless

  // ----- capacity bookkeeping

  lemma HoldersMove(calls: map<Thread, Phase>, i: Thread, p: Phase)
    ensures Holders(calls[i := p]) == if Holding(p) then Holders(calls) + {i} else Holders(calls) - {i}
  {
  }

  lemma HoldersSize(calls: map<Thread, Phase>, i: Thread, p: Phase)
    ensures var held := i in calls && Holding(calls[i]);
            |Holders(calls[i := p])| == |Holders(calls)| + (if Holding(p) then 1 else 0) - (if held then 1 else 0)
  {
    HoldersMove(calls, i, p);
    assert i in Holders(calls) <==> i in calls && Holding(calls[i]);
    hide Holders;
    if i in Holders(calls) {
      assert Holders(calls) + {i} == Holders(calls);
    } else {
      assert Holders(calls) - {i} == Holders(calls);
    }
  }

  // ----- steps that leave the scope tree alone

  predicate Plain(p: Phase) {
    p.Entered? || p.CheckingDeadline? || p.Reserving? || p.Reserved? || p.RollingBack? || p.Rejected? || p.Releasing?
        || p.Done?
  }

  lemma PlainKeepsCalls(h: Host, i: Thread, p: Phase, active: nat)
    requires (i in h.calls ==> Plain(h.calls[i])) && Plain(p) && StackOf(h.tree, i) == []
    requires forall j :: j in h.calls ==> CallFits(h, j)
    ensures var n := Move(h.(active := active), i, p);
            && (forall j :: j in n.calls ==> CallFits(n, j))
            && (forall j :: j in h.calls ==> j in n.calls && Owned(n, j) == Owned(h, j) && Listed(n, j) == Listed(h, j))
            && Owned(n, i) == None && !Listed(n, i)
  {
    var n := Move(h.(active := active), i, p);
    forall j | j in h.calls && j != i
      ensures CallFits(n, j) && Owned(n, j) == Owned(h, j) && Listed(n, j) == Listed(h, j)
    {
      assert CallFits(h, j);
      SameTreeFits(h, n, j);
    }
    PlainFits(h, i, p, active);
    PlainOwnsNone(h, i);
    hide CallFits, Owned, Listed;
  }

  lemma SameTreeFits(h: Host, n: Host, j: Thread)
    requires n.tree == h.tree && n.app == h.app && j in h.calls && j in n.calls && n.calls[j] == h.calls[j]
    requires CallFits(h, j)
    ensures CallFits(n, j) && Owned(n, j) == Owned(h, j) && Listed(n, j) == Listed(h, j)
  {
    assert Owned(n, j) == Owned(h, j);
  }

  lemma PlainFits(h: Host, i: Thread, p: Phase, active: nat)
    requires Plain(p) && StackOf(h.tree, i) == []
    ensures var n := Move(h.(active := active), i, p); CallFits(n, i) && Owned(n, i) == None && !Listed(n, i)
  {
  }

  lemma PlainOwnsNone(h: Host, i: Thread)
    ensures i in h.calls && Plain(h.calls[i]) ==> Owned(h, i) == None && !Listed(h, i)
  {
  }

  lemma SameOwnersKeepLists(h: Host, n: Host, i: Thread)
    requires n.tree == h.tree && n.app == h.app && i in n.calls && n.calls.Keys == h.calls.Keys + {i}
    requires forall j :: j in h.calls ==> Owned(n, j) == Owned(h, j) && Listed(n, j) == Listed(h, j)
    requires Owned(n, i) == None && !Listed(n, i)
    requires OwnersDiffer(h) && ListExact(h)
    ensures OwnersDiffer(n) && ListExact(n)
  {
    hide Owned, Listed, NoRepeats;
    forall c | c in n.tree.children[n.app]
      ensures exists j :: j in n.calls && Listed(n, j) && Owned(n, j) == Some(c)
    {
      var j :| j in h.calls && Listed(h, j) && Owned(h, j) == Some(c);
      assert j in n.calls && Listed(n, j) && Owned(n, j) == Some(c);
    }
  }

  lemma PlainKeepsInv(h: Host, i: Thread, p: Phase, active: nat)
    requires HostInv(h) && (i in h.calls ==> Plain(h.calls[i])) && Plain(p) && StackOf(h.tree, i) == []
    requires active == |Holders(h.calls[i := p])| && active <= h.max
    requires ShutdownFits(Move(h.(active := active), i, p))
    ensures HostInv(Move(h.(active := active), i, p))
  {
    hide Inv, OwnersDiffer, ListExact, ShutdownFits, CallFits, Owned, Listed, OnlyAppHasChildren;
    var n := Move(h.(active := active), i, p);
    PlainKeepsCalls(h, i, p, active);
    SameOwnersKeepLists(h, n, i);
    SameChildren(h, n);
  }

  lemma SameChildren(h: Host, n: Host)
    requires OnlyAppHasChildren(h) && n.tree == h.tree && n.app == h.app
    ensures OnlyAppHasChildren(n)
  {
  }

  /** While a call is under way no shutdown has begun. */
  lemma CallMeansServing(h: Host, i: Thread)
    requires ShutdownFits(h) && i in h.calls && !Over(h.calls[i]) && !h.calls[i].Entered?
    ensures h.shutdown.Serving?
  {
  }

  lemma ServingFits(h: Host, i: Thread, p: Phase, active: nat)
    requires ShutdownFits(h) && h.shutdown.Serving?
    ensures ShutdownFits(Move(h.(active := active), i, p))
  {
  }

  lemma OverFits(h: Host, i: Thread, p: Phase)
    requires ShutdownFits(h) && (Over(p) || p.Entered?) && (h.shutdown.Serving? || h.shutdown.ShutDown? || i in h.calls)
    ensures ShutdownFits(Move(h, i, p))
  {
  }

  lemma StackIsIdle(h: Host, i: Thread)
    requires i in h.calls && CallFits(h, i) && Plain(h.calls[i])
    ensures StackOf(h.tree, i) == []
  {
  }

  lemma EnterKeepsInv(h: Host, i: Thread)
    requires HostInv(h) && StepEnabled(h, i, Enter)
    ensures HostInv(StepNext(h, i, Enter))
  {
    HoldersSize(h.calls, i, Entered);
    OverFits(h, i, Entered);
    hide HostInv, Holders;
    assert h.(active := h.active) == h;
    assert HostInv(h) && h.active == |Holders(h.calls)| && h.active <= h.max by { CountIs(h); }
    PlainKeepsInv(h, i, Entered, h.active);
  }

  lemma CountIs(h: Host)
    requires HostInv(h)
    ensures h.active == |Holders(h.calls)| && h.active <= h.max
    ensures ShutdownFits(h)
    ensures forall i :: i in h.calls ==> CallFits(h, i)
  {
  }

  /** One move between plain phases, with the capacity change it makes. */
  lemma PlainMove(h: Host, i: Thread, p: Phase, active: nat)
    requires HostInv(h) && i in h.calls && Plain(h.calls[i]) && Plain(p)
    requires active == h.active + (if Holding(p) then 1 else 0) - (if Holding(h.calls[i]) then 1 else 0)
    requires active <= h.max
    requires h.shutdown.Serving? || (active == h.active && (Over(p) || p.Entered?))
    ensures HostInv(Move(h.(active := active), i, p))
  {
    CountIs(h);
    StackIsIdle(h, i);
    HoldersSize(h.calls, i, p);
    if h.shutdown.Serving? {
      ServingFits(h, i, p, active);
    } else {
      OverFits(h, i, p);
      assert h.(active := h.active) == h;
    }
    hide HostInv, Holders, ShutdownFits, CallFits;
    PlainKeepsInv(h, i, p, active);
  }

  lemma HolderIsCounted(h: Host, i: Thread)
    requires HostInv(h) && i in h.calls && Holding(h.calls[i])
    ensures h.active >= 1
  {
    assert i in Holders(h.calls);
  }

  lemma ShutdownMeansClosed(h: Host)
    requires ShutdownFits(h)
    ensures !h.shutdown.Serving? ==> !h.accepting
  {
  }

  lemma PlainLoadKeepsInv(h: Host, i: Thread)
    requires HostInv(h) && StepEnabled(h, i, Load)
    requires Plain(h.calls[i]) && (h.calls[i].Reserved? ==> !h.accepting)
    ensures HostInv(AfterLoad(h, i))
  {
    hide HostInv, ShutdownFits, CallFits, Holders;
    CountIs(h);
    if !h.calls[i].Entered? { CallMeansServing(h, i); }
    if Holding(h.calls[i]) { HolderIsCounted(h, i); }
    ShutdownMeansClosed(h);
    assert h.(active := h.active) == h;
    match h.calls[i] {
      case Entered => PlainMove(h, i, if h.accepting then CheckingDeadline else Rejected(AdmissionClosed), h.active);
      case Reserving =>
        if h.active < h.max {
          PlainMove(h, i, Reserved, h.active + 1);
        } else {
          PlainMove(h, i, Rejected(AdmissionCapacity), h.active);
        }
      case Reserved => PlainMove(h, i, RollingBack, h.active);
      case RollingBack => PlainMove(h, i, Rejected(AdmissionClosed), h.active - 1);
      case Releasing => PlainMove(h, i, Done, h.active - 1);
      case _ =>
    }
  }

  lemma DeadlineKeepsInv(h: Host, i: Thread, elapsed: bool)
    requires HostInv(h) && StepEnabled(h, i, Deadline(elapsed))
    ensures HostInv(StepNext(h, i, Deadline(elapsed)))
  {
    CountIs(h);
    CallMeansServing(h, i);
    assert h.(active := h.active) == h;
    hide HostInv, ShutdownFits, CallFits;
    PlainMove(h, i, if elapsed then Rejected(DeadlineExceeded) else Reserving, h.active);
  }

  // ----- steps of the scope tree

  /** How one thread's operation on the tree looks to everybody else. */
  ghost predicate Calm(st: State, m: State, i: Thread, gone: set<Ref>) {
    && OnlyMoves(st, m, i)
    && (forall r :: Allocated(st, r) ==> Allocated(m, r) && m.parent[r] == st.parent[r])
    && st.swept <= m.swept && st.alive - gone <= m.alive
  }

  /** The calls other than `i` are where they were. */
  ghost predicate OthersStay(h: Host, n: Host, i: Thread) {
    && n.app == h.app
    && (forall j :: j in n.calls && j != i ==> j in h.calls && n.calls[j] == h.calls[j])
    && (forall j :: j in h.calls ==> j in n.calls)
  }

  ghost predicate SameOwnership(h: Host, n: Host, i: Thread) {
    && (forall j :: j in h.calls ==> j in n.calls)
    && (forall j :: j in n.calls && j != i ==>
        j in h.calls && Owned(n, j) == Owned(h, j) && Listed(n, j) == Listed(h, j))
  }

  lemma OtherStack(st: State, m: State, i: Thread, j: Thread)
    requires OnlyMoves(st, m, i) && j != i
    ensures StackOf(m, j) == StackOf(st, j)
  {
  }

  lemma OtherKept(h: Host, n: Host, i: Thread, gone: set<Ref>, j: Thread)
    requires Calm(h.tree, n.tree, i, gone) && n.app == h.app && j in h.calls && j in n.calls && n.calls[j] == h.calls[j]
    requires j != i
    requires CallFits(h, j) && (Owned(h, j).Some? ==> Owned(h, j).value !in gone)
    ensures CallFits(n, j) && Owned(n, j) == Owned(h, j) && Listed(n, j) == Listed(h, j)
  {
    OtherStack(h.tree, n.tree, i, j);
    assert Owned(n, j) == Owned(h, j);
    hide OnlyMoves;
  }

  lemma OthersKept(h: Host, n: Host, i: Thread, gone: set<Ref>)
    requires Calm(h.tree, n.tree, i, gone) && OthersStay(h, n, i)
    requires forall j :: j in h.calls ==> CallFits(h, j)
    requires forall j :: j in h.calls && j != i && Owned(h, j).Some? ==> Owned(h, j).value !in gone
    ensures SameOwnership(h, n, i)
    ensures forall j :: j in n.calls && j != i ==> CallFits(n, j)
  {
    hide Calm, CallFits, Owned, Listed;
    forall j | j in n.calls && j != i
      ensures CallFits(n, j) && Owned(n, j) == Owned(h, j) && Listed(n, j) == Listed(h, j)
    {
      assert CallFits(h, j);
      OtherKept(h, n, i, gone, j);
    }
  }

  /** What call `i` owns afterwards: the same scope, none, or one nobody knew before. */
  ghost predicate OwnerMoves(h: Host, n: Host, i: Thread) {
    i in n.calls && Owned(n, i).Some? ==>
      (i in h.calls && Owned(n, i) == Owned(h, i)) || !Allocated(h.tree, Owned(n, i).value)
  }

  lemma OwnersStayApart(h: Host, n: Host, i: Thread)
    requires SameOwnership(h, n, i) && OwnerMoves(h, n, i) && OwnersDiffer(h)
    requires forall j :: j in h.calls ==> CallFits(h, j)
    ensures OwnersDiffer(n)
  {
    forall j | j in h.calls && Owned(h, j).Some?
      ensures Allocated(h.tree, Owned(h, j).value)
    {
      assert CallFits(h, j);
    }
    hide CallFits, Owned, Listed, Allocated;
  }

  /** No child list changed; new scopes start without children. */
  ghost predicate SameLists(st: State, m: State) {
    && (forall r :: r in st.children ==> r in m.children && m.children[r] == st.children[r])
    && (forall r :: r in m.children && r !in st.children ==> m.children[r] == [])
  }

  lemma ListsStay(h: Host, n: Host, i: Thread)
    requires SameOwnership(h, n, i) && SameLists(h.tree, n.tree) && n.app == h.app
    requires OnlyAppHasChildren(h) && ListExact(h)
    requires i in n.calls ==>
        i in h.calls && Listed(n, i) == Listed(h, i) && (Listed(h, i) ==> Owned(n, i) == Owned(h, i))
    ensures ListExact(n) && OnlyAppHasChildren(n)
  {
    hide Owned, Listed, NoRepeats;
    forall c | c in n.tree.children[n.app]
      ensures exists j :: j in n.calls && Listed(n, j) && Owned(n, j) == Some(c)
    {
      var j :| j in h.calls && Listed(h, j) && Owned(h, j) == Some(c);
      assert j in n.calls && Listed(n, j) && Owned(n, j) == Some(c);
    }
  }

  /** `push` adds the scope of call `i`. */
  lemma ListGrows(h: Host, n: Host, i: Thread, c: Ref)
    requires SameOwnership(h, n, i) && n.app == h.app && OnlyAppHasChildren(h) && ListExact(h) && OwnersDiffer(h)
    requires n.tree.children == h.tree.children[h.app := h.tree.children[h.app] + [c]]
    requires i in h.calls && i in n.calls && !Listed(h, i) && Listed(n, i) && Owned(h, i) == Some(c)
    requires Owned(n, i) == Some(c)
    ensures ListExact(n) && OnlyAppHasChildren(n)
  {
    hide Owned, Listed;
    var list := h.tree.children[h.app];
    forall j | j in h.calls && Listed(h, j)
      ensures Owned(h, j) != Some(c)
    {
      assert j != i;
    }
    assert c !in list;
    forall d | d in n.tree.children[n.app]
      ensures exists j :: j in n.calls && Listed(n, j) && Owned(n, j) == Some(d)
    {
      if d in list {
        var j :| j in h.calls && Listed(h, j) && Owned(h, j) == Some(d);
        assert j in n.calls && Listed(n, j) && Owned(n, j) == Some(d);
      } else {
        assert i in n.calls && Listed(n, i) && Owned(n, i) == Some(d);
      }
    }
  }

  lemma {:induction false} RetainNoRepeats(children: seq<Ref>, alive: set<Ref>, ids: map<Ref, nat>, gone: nat)
    requires NoRepeats(children)
    ensures NoRepeats(Retain(children, alive, ids, gone))
  {
    if children != [] {
      RetainNoRepeats(children[1..], alive, ids, gone);
      RetainMembers(children[1..], alive, ids, gone, children[0]);
    }
  }

  /** `retain` removes exactly the scope of call `i`: the others' scopes are alive. */
  lemma ListShrinks(h: Host, n: Host, i: Thread, c: Ref)
    requires SameOwnership(h, n, i) && n.app == h.app && OnlyAppHasChildren(h) && ListExact(h) && OwnersDiffer(h)
    requires c in h.tree.id && DistinctIds(h.tree)
    requires forall j :: j in h.calls && Owned(h, j).Some? ==>
        Owned(h, j).value in h.tree.alive && Owned(h, j).value in h.tree.id
    requires n.tree.children == h.tree.children[h.app :=
        Retain(h.tree.children[h.app], h.tree.alive, h.tree.id, h.tree.id[c])]
    requires i in h.calls && i in n.calls && !Listed(n, i) && Owned(h, i) == Some(c)
    ensures ListExact(n) && OnlyAppHasChildren(n)
  {
    hide Owned, Listed;
    var list := h.tree.children[h.app];
    RetainNoRepeats(list, h.tree.alive, h.tree.id, h.tree.id[c]);
    hide NoRepeats;
    forall d
      ensures d in n.tree.children[n.app] <==> d in list && d in h.tree.alive && d in h.tree.id && d != c
    {
      RetainMembers(list, h.tree.alive, h.tree.id, h.tree.id[c], d);
    }
    forall d | d in n.tree.children[n.app]
      ensures exists j :: j in n.calls && Listed(n, j) && Owned(n, j) == Some(d)
    {
      var j :| j in h.calls && Listed(h, j) && Owned(h, j) == Some(d);
      assert j in n.calls && Listed(n, j) && Owned(n, j) == Some(d);
    }
  }

  /** What a call must still show once its own step on the tree is understood. */
  ghost predicate StepShown(h: Host, n: Host, i: Thread) {
    && Inv(n.tree) && AppOk(n) && OnlyAppHasChildren(n) && ListExact(n) && OwnerMoves(h, n, i)
    && SameOwnership(h, n, i) && (forall j :: j in n.calls && j != i ==> CallFits(n, j))
  }

  /** A call moves while holding its capacity. */
  lemma HolderKeepsInv(h: Host, n: Host, i: Thread, m: State, p: Phase)
    requires HostInv(h) && i in h.calls && h.shutdown.Serving? && Holding(h.calls[i]) && Holding(p)
    requires n == Move(h.(tree := m), i, p) && OnlyMoves(h.tree, m, i)
    requires StepShown(h, n, i) && CallFits(n, i)
    ensures HostInv(n)
  {
    HoldersSize(h.calls, i, p);
    assert ShutdownFits(n);
    assert CountExact(n);
    hide Inv, AppOk, OnlyAppHasChildren, ListExact, OwnerMoves, SameOwnership, CallFits, ShutdownFits, CountExact,
      Holders;
    OwnersStayApart(h, n, i);
  }

  lemma AppStays(h: Host, n: Host, i: Thread, gone: set<Ref>)
    requires AppOk(h) && n.app == h.app && Calm(h.tree, n.tree, i, gone) && h.app !in gone
    ensures AppOk(n)
  {
  }

  /** No call but `i` owns a scope of `gone`. */
  ghost predicate Spares(h: Host, i: Thread, gone: set<Ref>) {
    && h.app !in gone
    && forall j :: j in h.calls && j != i && Owned(h, j).Some? ==> Owned(h, j).value !in gone
  }

  lemma InvParts(h: Host)
    requires HostInv(h)
    ensures Inv(h.tree) && AppOk(h) && OnlyAppHasChildren(h) && OwnersDiffer(h) && ListExact(h)
    ensures forall i :: i in h.calls ==> CallFits(h, i)
  {
  }

  lemma SparedShow(h: Host, n: Host, i: Thread, gone: set<Ref>)
    requires HostInv(h) && OthersStay(h, n, i) && Calm(h.tree, n.tree, i, gone) && Spares(h, i, gone)
    ensures SameOwnership(h, n, i) && AppOk(n) && forall j :: j in n.calls && j != i ==> CallFits(n, j)
  {
    InvParts(h);
    hide HostInv, Calm, CallFits, Owned, OthersStay, SameOwnership, AppOk;
    OthersKept(h, n, i, gone);
    AppStays(h, n, i, gone);
  }

  lemma MoveLeavesOthers(h: Host, i: Thread, m: State, p: Phase)
    ensures OthersStay(h, Move(h.(tree := m), i, p), i)
  {
  }

  /** Steps of a call that change no child list. */
  lemma ListlessKeepsInv(h: Host, n: Host, i: Thread, m: State, p: Phase, gone: set<Ref>)
    requires HostInv(h) && i in h.calls && h.shutdown.Serving? && Holding(h.calls[i]) && Holding(p)
    requires n == Move(h.(tree := m), i, p) && Inv(m) && Calm(h.tree, m, i, gone) && SameLists(h.tree, m)
    requires Spares(h, i, gone)
    requires CallFits(n, i) && OwnerMoves(h, n, i)
    requires Listed(n, i) == Listed(h, i) && (Listed(h, i) ==> Owned(n, i) == Owned(h, i))
    ensures HostInv(n)
  {
    assert OnlyMoves(h.tree, m, i);
    MoveLeavesOthers(h, i, m, p);
    InvParts(h);
    hide HostInv, Inv, Calm, SameLists, CallFits, Owned, Listed, OwnerMoves, OnlyMoves, ListExact,
      OnlyAppHasChildren, AppOk, OwnersDiffer, SameOwnership, Holding, Spares, OthersStay;
    SparedShow(h, n, i, gone);
    ListsStay(h, n, i);
    HolderKeepsInv(h, n, i, m, p);
  }

  lemma ChildCalm(st: State, t: Thread, s: Ref, pc: ChildPc, slot: Ref)
    requires StackOf(st, t) != [] && FrameEnabled(st, t, Child(s, pc), slot)
    ensures var m := ChildStep(st, t, s, pc, slot); Calm(st, m, t, {}) && (!pc.Push? ==> SameLists(st, m))
  {
  }

  lemma BeginCalm(st: State, t: Thread, s: Ref, pc: BeginPc)
    requires StackOf(st, t) != [] && Allocated(st, s)
    ensures var m := BeginStep(st, t, s, pc); Calm(st, m, t, {}) && SameLists(st, m)
  {
  }

  lemma FinishCalm(st: State, t: Thread, s: Ref, pc: FinishPc)
    requires StackOf(st, t) != [] && FrameEnabled(st, t, Finish(s, pc), 0)
    ensures var m := FinishStep(st, t, s, pc);
            Calm(st, m, t, {}) && (!pc.Unregister? || st.parent[s].None? ==> SameLists(st, m))
  {
  }

  lemma StartCalm(st: State, t: Thread, frame: Frame)
    ensures Calm(st, WithStack(st, t, [frame]), t, {}) && SameLists(st, WithStack(st, t, [frame]))
  {
  }

  // ----- the steps of a call on the tree, one by one

  ghost predicate AtPhase(h: Host, i: Thread) {
    HostInv(h) && i in h.calls && !Over(h.calls[i]) && !h.calls[i].Entered?
  }

  lemma AtPhaseFits(h: Host, i: Thread)
    requires AtPhase(h, i)
    ensures CallFits(h, i) && h.shutdown.Serving? && AppOk(h) && OnlyAppHasChildren(h) && Inv(h.tree)
  {
  }

  lemma NothingGone(h: Host, i: Thread)
    ensures Spares(h, i, {})
  {
  }

  ghost predicate Starts(h: Host, i: Thread, frame: Frame, p: Phase)
    requires i in h.calls
  {
    || (h.calls[i] == Reserved && p == Creating && frame == Child(h.app, CheckOpen))
    || (h.calls[i].Leased? && p == BeginClosing(h.calls[i].scope) && frame == Begin(h.calls[i].scope, Swap))
    || (h.calls[i].BeginClosed? && p == FinishClosing(h.calls[i].scope)
        && frame == Finish(h.calls[i].scope, FinishSnapshot))
  }

  lemma StartFits(h: Host, i: Thread, frame: Frame, p: Phase)
    requires i in h.calls && CallFits(h, i) && Starts(h, i, frame, p)
    ensures var n := Move(h.(tree := WithStack(h.tree, i, [frame])), i, p);
            CallFits(n, i) && OwnerMoves(h, n, i) && Listed(n, i) == Listed(h, i)
                && (Listed(h, i) ==> Owned(n, i) == Owned(h, i))
  {
    assert StackOf(WithStack(h.tree, i, [frame]), i) == [frame];
  }

  /** A call starts one of its scope operations. */
  lemma StartsKeepInv(h: Host, i: Thread, frame: Frame, p: Phase)
    requires AtPhase(h, i) && Holding(h.calls[i]) && StackOf(h.tree, i) == [] && Inv(WithStack(h.tree, i, [frame]))
    requires Starts(h, i, frame, p)
    ensures HostInv(Move(h.(tree := WithStack(h.tree, i, [frame])), i, p))
  {
    hide HostInv, Inv, Calm, SameLists, Spares, CallFits, OwnerMoves, Listed, Owned, AppOk, OnlyAppHasChildren;
    var m := WithStack(h.tree, i, [frame]);
    var n := Move(h.(tree := m), i, p);
    AtPhaseFits(h, i);
    StartCalm(h.tree, i, frame);
    NothingGone(h, i);
    StartFits(h, i, frame, p);
    ListlessKeepsInv(h, n, i, m, p, {});
  }

  /** Releasing the scope itself: nobody else owns it. */
  lemma DroppingKeepsInv(h: Host, i: Thread, c: Ref)
    requires AtPhase(h, i) && h.calls[i] == Dropping(c) && Inv(h.tree.(alive := h.tree.alive - {c}))
    ensures HostInv(Move(h.(tree := h.tree.(alive := h.tree.alive - {c})), i, Releasing))
  {
    hide HostInv, Inv, Calm, SameLists, Spares, CallFits, OwnerMoves, Listed, Owned, AppOk, OnlyAppHasChildren;
    var m := h.tree.(alive := h.tree.alive - {c});
    var n := Move(h.(tree := m), i, Releasing);
    AtPhaseFits(h, i);
    InvParts(h);
    DropFits(h, i, c);
    ListlessKeepsInv(h, n, i, m, Releasing, {c});
  }

  lemma DropFits(h: Host, i: Thread, c: Ref)
    requires i in h.calls && h.calls[i] == Dropping(c) && CallFits(h, i) && OwnersDiffer(h)
    ensures var m := h.tree.(alive := h.tree.alive - {c}); var n := Move(h.(tree := m), i, Releasing);
            && Calm(h.tree, m, i, {c}) && SameLists(h.tree, m) && Spares(h, i, {c})
            && CallFits(n, i) && OwnerMoves(h, n, i) && !Listed(n, i) && !Listed(h, i)
  {
    OwnersDifferSpare(h, i, c);
    hide OwnersDiffer, Spares;
  }

  lemma OwnersDifferSpare(h: Host, i: Thread, c: Ref)
    requires OwnersDiffer(h) && i in h.calls && Owned(h, i) == Some(c) && c != h.app
    ensures Spares(h, i, {c})
  {
    hide Owned;
  }

  lemma CreatingKeepsInv(h: Host, i: Thread, slot: Ref)
    requires AtPhase(h, i) && h.calls[i].Creating? && StepEnabled(h, i, TreeStep(slot))
    requires Inv(Next(h.tree, i, Advance(slot))) && !Top(h.tree, i).child.Push?
    ensures HostInv(StepNext(h, i, TreeStep(slot)))
  {
    AtPhaseFits(h, i);
    var pc := Top(h.tree, i).child;
    var m := ChildStep(h.tree, i, h.app, pc, slot);
    var p := PhaseAfter(Creating, StackOf(h.tree, i), StackOf(m, i));
    var n := Move(h.(tree := m), i, p);
    ChildCalm(h.tree, i, h.app, pc, slot);
    NothingGone(h, i);
    CreatingFits(h, i, slot);
    hide HostInv, Inv, Calm, SameLists, Spares, CallFits, OwnerMoves, Owned, Listed;
    ListlessKeepsInv(h, n, i, m, p, {});
  }

  lemma CreatingFits(h: Host, i: Thread, slot: Ref)
    requires i in h.calls && h.calls[i].Creating? && CallFits(h, i) && AppOk(h)
    requires FrameEnabled(h.tree, i, Top(h.tree, i), slot)
    ensures var m := ChildStep(h.tree, i, h.app, Top(h.tree, i).child, slot);
            var p := PhaseAfter(Creating, StackOf(h.tree, i), StackOf(m, i));
            var n := Move(h.(tree := m), i, p);
            && CallFits(n, i) && OwnerMoves(h, n, i) && Holding(p)
            && (!Top(h.tree, i).child.Push? ==>
                Listed(n, i) == Listed(h, i) && (Listed(h, i) ==> Owned(n, i) == Owned(h, i)))
  {
  }

  lemma PushListKeepsInv(h: Host, i: Thread, slot: Ref, c: Ref)
    requires AtPhase(h, i) && h.calls[i].Creating? && StepEnabled(h, i, TreeStep(slot))
    requires Inv(Next(h.tree, i, Advance(slot))) && Top(h.tree, i).child == Push(c)
    ensures HostInv(StepNext(h, i, TreeStep(slot)))
  {
    AtPhaseFits(h, i);
    InvParts(h);
    var m := ChildStep(h.tree, i, h.app, Push(c), slot);
    var n := Move(h.(tree := m), i, Creating);
    PushSteps(h, i, slot, c);
    hide HostInv, Inv, Calm, Spares, CallFits, OwnerMoves, Owned, Listed, SameOwnership, OthersStay, ListExact,
      OnlyAppHasChildren, OwnersDiffer, AppOk;
    ChildCalm(h.tree, i, h.app, Push(c), slot);
    assert OnlyMoves(h.tree, m, i) by { CalmMoves(h.tree, m, i); }
    NothingGone(h, i);
    CreatingFits(h, i, slot);
    MoveLeavesOthers(h, i, m, Creating);
    SparedShow(h, n, i, {});
    ListGrows(h, n, i, c);
    HolderKeepsInv(h, n, i, m, Creating);
  }

  lemma CalmMoves(st: State, m: State, i: Thread)
    requires Calm(st, m, i, {})
    ensures OnlyMoves(st, m, i)
  {
  }

  lemma PushSteps(h: Host, i: Thread, slot: Ref, c: Ref)
    requires i in h.calls && h.calls[i].Creating? && CallFits(h, i) && StepEnabled(h, i, TreeStep(slot))
    requires Top(h.tree, i).child == Push(c)
    ensures var m := ChildStep(h.tree, i, h.app, Push(c), slot); var n := Move(h.(tree := m), i, Creating);
            && m == Next(h.tree, i, Advance(slot)) && n == StepNext(h, i, TreeStep(slot))
            && m.children == h.tree.children[h.app := h.tree.children[h.app] + [c]]
            && !Listed(h, i) && Listed(n, i) && Owned(h, i) == Some(c) && Owned(n, i) == Some(c)
  {
    assert StackOf(ChildStep(h.tree, i, h.app, Push(c), slot), i) == [Child(h.app, ChildDone(Some(c)))];
  }

  // ----- the lease is dropped

  lemma BeginFitsCall(h: Host, i: Thread, slot: Ref)
    requires i in h.calls && h.calls[i].BeginClosing? && CallFits(h, i) && OnlyAppHasChildren(h)
    requires Enabled(h.tree, i, Advance(slot))
    ensures var m := Next(h.tree, i, Advance(slot));
            var p := PhaseAfter(h.calls[i], StackOf(h.tree, i), StackOf(m, i));
            var n := Move(h.(tree := m), i, p);
            && Calm(h.tree, m, i, {}) && SameLists(h.tree, m)
            && CallFits(n, i) && OwnerMoves(h, n, i) && Holding(p) && Listed(n, i) && Listed(h, i)
            && Owned(n, i) == Owned(h, i)
  {
    var c := h.calls[i].scope;
    var pc := Top(h.tree, i).begin;
    BeginCalm(h.tree, i, c, pc);
    var m := BeginStep(h.tree, i, c, pc);
    assert StackOf(m, i) == [] || StackOf(m, i) == [Top(m, i)];
    hide Calm, SameLists;
  }

  lemma BeginClosingKeepsInv(h: Host, i: Thread, slot: Ref)
    requires AtPhase(h, i) && h.calls[i].BeginClosing? && StepEnabled(h, i, TreeStep(slot))
    requires Inv(Next(h.tree, i, Advance(slot)))
    ensures HostInv(StepNext(h, i, TreeStep(slot)))
  {
    hide HostInv, Inv, Calm, SameLists, Spares, CallFits, OwnerMoves, Owned, Listed, AppOk, OnlyAppHasChildren,
      Enabled, Next;
    AtPhaseFits(h, i);
    var m := Next(h.tree, i, Advance(slot));
    var p := PhaseAfter(h.calls[i], StackOf(h.tree, i), StackOf(m, i));
    NothingGone(h, i);
    BeginFitsCall(h, i, slot);
    ListlessKeepsInv(h, Move(h.(tree := m), i, p), i, m, p, {});
  }

  lemma FinishFitsCall(h: Host, i: Thread, slot: Ref)
    requires i in h.calls && h.calls[i].FinishClosing? && CallFits(h, i) && OnlyAppHasChildren(h) && AppOk(h)
    requires Enabled(h.tree, i, Advance(slot))
    ensures var m := Next(h.tree, i, Advance(slot));
            var p := PhaseAfter(h.calls[i], StackOf(h.tree, i), StackOf(m, i));
            var n := Move(h.(tree := m), i, p);
            var c := h.calls[i].scope;
            && Calm(h.tree, m, i, {}) && CallFits(n, i) && OwnerMoves(h, n, i) && Holding(p)
            && Owned(n, i) == Owned(h, i) == Some(c)
            && if Top(h.tree, i).finish.Unregister?
               then !Listed(n, i) && c in h.tree.id
                    && m.children == h.tree.children[h.app :=
                        Retain(h.tree.children[h.app], h.tree.alive, h.tree.id, h.tree.id[c])]
               else SameLists(h.tree, m) && Listed(n, i) && Listed(h, i)
  {
    var c := h.calls[i].scope;
    var pc := Top(h.tree, i).finish;
    FinishCalm(h.tree, i, c, pc);
    var m := FinishStep(h.tree, i, c, pc);
    assert StackOf(m, i) == [] || StackOf(m, i) == [Top(m, i)];
    hide Calm, SameLists;
  }

  lemma FinishClosingKeepsInv(h: Host, i: Thread, slot: Ref)
    requires AtPhase(h, i) && h.calls[i].FinishClosing? && StepEnabled(h, i, TreeStep(slot))
    requires Inv(Next(h.tree, i, Advance(slot)))
    ensures HostInv(StepNext(h, i, TreeStep(slot)))
  {
    hide HostInv, Inv, Calm, SameLists, Spares, CallFits, OwnerMoves, Owned, Listed, AppOk, OnlyAppHasChildren,
      Enabled, Next, Retain, OnlyMoves, SameOwnership, OthersStay, ListExact, OwnersDiffer;
    AtPhaseFits(h, i);
    var m := Next(h.tree, i, Advance(slot));
    var p := PhaseAfter(h.calls[i], StackOf(h.tree, i), StackOf(m, i));
    var n := Move(h.(tree := m), i, p);
    NothingGone(h, i);
    FinishFitsCall(h, i, slot);
    if Top(h.tree, i).finish.Unregister? {
      InvParts(h);
      CalmMoves(h.tree, m, i);
      MoveLeavesOthers(h, i, m, p);
      SparedShow(h, n, i, {});
      OwnedAreAlive(h);
      ListShrinks(h, n, i, h.calls[i].scope);
      HolderKeepsInv(h, n, i, m, p);
    } else {
      ListlessKeepsInv(h, n, i, m, p, {});
    }
  }

  lemma OwnedAreAlive(h: Host)
    requires HostInv(h)
    ensures DistinctIds(h.tree)
    ensures forall j :: j in h.calls && Owned(h, j).Some? ==>
        Owned(h, j).value in h.tree.alive && Owned(h, j).value in h.tree.id
  {
    forall j | j in h.calls && Owned(h, j).Some?
      ensures Owned(h, j).value in h.tree.alive && Owned(h, j).value in h.tree.id
    {
      assert CallFits(h, j);
    }
  }

  // ----- shutdown

  ghost predicate OnlyTree(h: Host, n: Host, m: State) {
    n == h.(tree := m, accepting := n.accepting, shutdown := n.shutdown)
  }

  /** An operation of the thread that shuts down, which is no call. */
  lemma ShutdownMoves(h: Host, n: Host, t: Thread, m: State)
    requires HostInv(h) && OnlyTree(h, n, m) && t !in h.calls && Inv(m)
    requires Calm(h.tree, m, t, {}) && SameLists(h.tree, m) && ShutdownFits(n)
    ensures HostInv(n)
  {
    assert OthersStay(h, n, t) && OwnerMoves(h, n, t) && CountExact(n);
    InvParts(h);
    NothingGone(h, t);
    assert HostInv(n) by {
      hide Calm, SameLists, ShutdownFits, CallFits, Owned, Listed, OwnerMoves, OthersStay, SameOwnership, AppOk,
        Spares, CountExact, Inv, ListExact, OnlyAppHasChildren, OwnersDiffer;
      SparedShow(h, n, t, {});
      ListsStay(h, n, t);
      OwnersStayApart(h, n, t);
    }
  }

  lemma StartShutdownKeepsInv(h: Host, t: Thread)
    requires HostInv(h) && StepEnabled(h, t, StartShutdown)
    ensures HostInv(StepNext(h, t, StartShutdown))
  {
    var m := WithStack(h.tree, t, [Begin(h.app, Swap)]);
    var n := StepNext(h, t, StartShutdown);
    NextKeepsInv(h.tree, t, StartBegin(h.app));
    StartCalm(h.tree, t, Begin(h.app, Swap));
    CountIs(h);
    StartShutdownFits(h, t);
    hide HostInv, Inv, Calm, SameLists, ShutdownFits, StepEnabled;
    ShutdownMoves(h, n, t, m);
  }

  lemma StartShutdownFits(h: Host, t: Thread)
    requires ShutdownFits(h) && StepEnabled(h, t, StartShutdown)
    ensures ShutdownFits(StepNext(h, t, StartShutdown))
  {
  }

  lemma SomeMember(s: seq<Ref>)
    ensures s == [] || exists c :: c in s
  {
    if s != [] { assert s[0] in s; }
  }

  /** With no lease left the application scope has no child to close. */
  lemma NoChildLeft(h: Host)
    requires ShutdownFits(h) && ListExact(h) && OnlyAppHasChildren(h) && !h.shutdown.Serving?
    ensures h.tree.children[h.app] == []
    ensures forall r :: r in h.tree.children ==> h.tree.children[r] == []
  {
    hide NoRepeats;
    forall i | i in h.calls
      ensures !Listed(h, i)
    {
      assert Over(h.calls[i]) || h.calls[i].Entered?;
    }
    SomeMember(h.tree.children[h.app]);
  }

  /** The other threads stay idle. */
  lemma ShutdownStackFits(h: Host, n: Host, t: Thread)
    requires ShutdownFits(h) && OnlyTree(h, n, n.tree) && Shutting(h, t) && OnlyMoves(h.tree, n.tree, t)
    requires (Shutting(n, t) || StackOf(n.tree, t) == [])
    ensures forall u :: u in n.tree.stacks && u !in n.calls && !Shutting(n, u) ==> n.tree.stacks[u] == []
  {
  }

  lemma AppIsAllocated(h: Host)
    requires AppOk(h)
    ensures Allocated(h.tree, h.app)
  {
  }

  lemma ShutdownBeginFits(h: Host, t: Thread, slot: Ref)
    requires ShutdownFits(h) && AppOk(h) && (forall r :: r in h.tree.children ==> h.tree.children[r] == [])
    requires StepEnabled(h, t, ShutdownStep(slot)) && h.shutdown.ShutdownBegin?
    ensures var n := StepNext(h, t, ShutdownStep(slot));
            && Calm(h.tree, n.tree, t, {}) && SameLists(h.tree, n.tree) && ShutdownFits(n) && t !in h.calls
            && OnlyTree(h, n, Next(h.tree, t, Advance(slot)))
  {
    hide Calm, SameLists, AppOk;
    var pc := Top(h.tree, t).begin;
    AppIsAllocated(h);
    BeginCalm(h.tree, t, h.app, pc);
    var m := BeginStep(h.tree, t, h.app, pc);
    CalmMoves(h.tree, m, t);
    assert StackOf(m, t) == [] || StackOf(m, t) == [Top(m, t)];
    ShutdownStackFits(h, StepNext(h, t, ShutdownStep(slot)), t);
    hide OnlyMoves;
  }

  lemma ShutdownFinishFits(h: Host, t: Thread, slot: Ref)
    requires ShutdownFits(h) && AppOk(h) && (forall r :: r in h.tree.children ==> h.tree.children[r] == [])
    requires StepEnabled(h, t, ShutdownStep(slot)) && h.shutdown.ShutdownFinish?
    ensures var n := StepNext(h, t, ShutdownStep(slot));
            && Calm(h.tree, n.tree, t, {}) && SameLists(h.tree, n.tree) && ShutdownFits(n) && t !in h.calls
            && OnlyTree(h, n, Next(h.tree, t, Advance(slot)))
  {
    var pc := Top(h.tree, t).finish;
    FinishCalm(h.tree, t, h.app, pc);
    var m := FinishStep(h.tree, t, h.app, pc);
    assert StackOf(m, t) == [] || StackOf(m, t) == [Top(m, t)];
    ShutdownStackFits(h, StepNext(h, t, ShutdownStep(slot)), t);
    hide Calm, SameLists;
  }

  lemma ShutdownSweptFits(h: Host, t: Thread, slot: Ref)
    requires ShutdownFits(h) && AppOk(h) && StepEnabled(h, t, ShutdownStep(slot)) && h.shutdown.ShutdownSwept?
    ensures var n := StepNext(h, t, ShutdownStep(slot));
            && Calm(h.tree, n.tree, t, {}) && SameLists(h.tree, n.tree) && ShutdownFits(n) && t !in h.calls
            && OnlyTree(h, n, Next(h.tree, t, StartFinish(h.app)))
  {
    StartCalm(h.tree, t, Finish(h.app, FinishSnapshot));
    hide Calm, SameLists;
  }

  lemma ShutdownStepKeepsInv(h: Host, t: Thread, slot: Ref)
    requires HostInv(h) && StepEnabled(h, t, ShutdownStep(slot))
    ensures HostInv(StepNext(h, t, ShutdownStep(slot)))
  {
    var n := StepNext(h, t, ShutdownStep(slot));
    CountIs(h);
    InvParts(h);
    NoChildLeft(h);
    if h.shutdown.ShutdownSwept? {
      NextKeepsInv(h.tree, t, StartFinish(h.app));
      hide HostInv, Inv, Calm, SameLists, ShutdownFits, CallFits, OwnersDiffer, ListExact;
      ShutdownSweptFits(h, t, slot);
      ShutdownMoves(h, n, t, Next(h.tree, t, StartFinish(h.app)));
    } else {
      NextKeepsInv(h.tree, t, Advance(slot));
      hide HostInv, Inv, Calm, SameLists, ShutdownFits, CallFits, OwnersDiffer, ListExact;
      if h.shutdown.ShutdownBegin? { ShutdownBeginFits(h, t, slot); } else { ShutdownFinishFits(h, t, slot); }
      ShutdownMoves(h, n, t, Next(h.tree, t, Advance(slot)));
    }
  }
}
