/** Capacity, the child list and shutdown over every run of the serverless host. */
module ServerlessRuns {
  import opened Model
  import opened Ordering
  import opened ScopeTree
  import opened ScopeClosure
  import opened Serverless
  import opened ServerlessProof

  lemma LoadKeepsInv(h: Host, i: Thread)
    requires HostInv(h) && StepEnabled(h, i, Load)
    ensures HostInv(AfterLoad(h, i))
  {
    if Plain(h.calls[i]) && (h.calls[i].Reserved? ==> !h.accepting) {
      PlainLoadKeepsInv(h, i);
    } else {
      assert AtPhase(h, i);
      hide HostInv, Inv, AtPhase, AfterLoad;
      match h.calls[i] {
        case Reserved => CreateKeepsInv(h, i);
        case BeginClosed(c) => CloseKeepsInv(h, i, c);
        case Dropping(c) => ReleaseKeepsInv(h, i, c);
        case _ =>
      }
    }
  }

  lemma CreateKeepsInv(h: Host, i: Thread)
    requires AtPhase(h, i) && StepEnabled(h, i, Load) && h.calls[i].Reserved? && h.accepting
    ensures HostInv(AfterLoad(h, i))
  {
    hide HostInv, Inv, CallFits;
    AtPhaseFits(h, i);
    NextKeepsInv(h.tree, i, StartChild(h.app));
    StartsKeepInv(h, i, Child(h.app, CheckOpen), Creating);
  }

  lemma CloseKeepsInv(h: Host, i: Thread, c: Ref)
    requires AtPhase(h, i) && StepEnabled(h, i, Load) && h.calls[i] == BeginClosed(c)
    ensures HostInv(AfterLoad(h, i))
  {
    hide HostInv, Inv, CallFits;
    AtPhaseFits(h, i);
    NextKeepsInv(h.tree, i, StartFinish(c));
    StartsKeepInv(h, i, Finish(c, FinishSnapshot), FinishClosing(c));
  }

  lemma ReleaseKeepsInv(h: Host, i: Thread, c: Ref)
    requires AtPhase(h, i) && StepEnabled(h, i, Load) && h.calls[i] == Dropping(c)
    ensures HostInv(AfterLoad(h, i))
  {
    hide HostInv, Inv, CallFits;
    AtPhaseFits(h, i);
    NextKeepsInv(h.tree, i, Action.Drop(c));
    DroppingKeepsInv(h, i, c);
  }

  lemma TreeStepKeepsInv(h: Host, i: Thread, slot: Ref)
    requires HostInv(h) && StepEnabled(h, i, TreeStep(slot))
    ensures HostInv(StepNext(h, i, TreeStep(slot)))
  {
    assert AtPhase(h, i);
    AtPhaseFits(h, i);
    hide HostInv, Inv, Next;
    NextKeepsInv(h.tree, i, Advance(slot));
    match h.calls[i] {
      case Creating =>
        if Top(h.tree, i).child.Push? {
          PushListKeepsInv(h, i, slot, Top(h.tree, i).child.child);
        } else {
          CreatingKeepsInv(h, i, slot);
        }
      case BeginClosing(c) => BeginClosingKeepsInv(h, i, slot);
      case FinishClosing(c) => FinishClosingKeepsInv(h, i, slot);
      case _ =>
    }
  }

  lemma DropLeaseKeepsInv(h: Host, i: Thread)
    requires HostInv(h) && StepEnabled(h, i, DropLease)
    ensures HostInv(StepNext(h, i, DropLease))
  {
    assert AtPhase(h, i);
    hide HostInv, Inv, CallFits, AppOk, OnlyAppHasChildren;
    AtPhaseFits(h, i);
    NextKeepsInv(h.tree, i, StartBegin(h.calls[i].scope));
    StartsKeepInv(h, i, Begin(h.calls[i].scope, Swap), BeginClosing(h.calls[i].scope));
  }

  /** Every step of every call, lease and shutdown keeps the invariant. */
  lemma StepKeepsInv(h: Host, i: Thread, s: Step)
    requires HostInv(h) && StepEnabled(h, i, s)
    ensures HostInv(StepNext(h, i, s))
  {
    hide HostInv;
    match s {
      case Enter => EnterKeepsInv(h, i);
      case Load => LoadKeepsInv(h, i);
      case Deadline(elapsed) => DeadlineKeepsInv(h, i, elapsed);
      case TreeStep(slot) => TreeStepKeepsInv(h, i, slot);
      case DropLease => DropLeaseKeepsInv(h, i);
      case StartShutdown => StartShutdownKeepsInv(h, i);
      case ShutdownStep(slot) => ShutdownStepKeepsInv(h, i, slot);
    }
  }

  /** Any interleaving, from a new host. */
  ghost predicate HostRun(hosts: seq<Host>, threads: seq<Thread>, steps: seq<Step>, app: Ref, max: nat) {
    && |hosts| == |steps| + 1 && |threads| == |steps|
    && hosts[0] == NewHost(app, max)
    && forall k :: 0 <= k < |steps| ==>
        StepEnabled(hosts[k], threads[k], steps[k]) && hosts[k + 1] == StepNext(hosts[k], threads[k], steps[k])
  }

  lemma {:induction false} RunKeepsHostInv(hosts: seq<Host>, threads: seq<Thread>, steps: seq<Step>, app: Ref, max: nat,
      k: nat)
    requires HostRun(hosts, threads, steps, app, max) && k < |hosts|
    ensures HostInv(hosts[k]) && hosts[k].max == max && hosts[k].app == app
  {
    hide HostInv;
    if k == 0 {
      NewHostInv(app, max);
    } else {
      RunKeepsHostInv(hosts, threads, steps, app, max, k - 1);
      StepKeepsInv(hosts[k - 1], threads[k - 1], steps[k - 1]);
    }
  }

  // ----- capacity

  lemma {:induction false} OwnersBound(h: Host, list: seq<Ref>, owners: set<Thread>)
    requires NoRepeats(list)
    requires forall c :: c in list ==> exists i :: i in owners && i in h.calls && Owned(h, i) == Some(c)
    ensures |list| <= |owners|
  {
    hide Owned;
    if list != [] {
      assert list[0] in list;
      var i :| i in owners && i in h.calls && Owned(h, i) == Some(list[0]);
      forall c | c in list[1..]
        ensures exists j :: j in owners - {i} && j in h.calls && Owned(h, j) == Some(c)
      {
        var j :| j in owners && j in h.calls && Owned(h, j) == Some(c);
        assert j in owners - {i};
      }
      OwnersBound(h, list[1..], owners - {i});
    }
  }

  lemma ListWithinHolders(h: Host)
    requires ListExact(h)
    ensures |h.tree.children[h.app]| <= |Holders(h.calls)|
  {
    forall c | c in h.tree.children[h.app]
      ensures exists i :: i in Holders(h.calls) && i in h.calls && Owned(h, i) == Some(c)
    {
      var i :| i in h.calls && Listed(h, i) && Owned(h, i) == Some(c);
      assert i in Holders(h.calls);
    }
    OwnersBound(h, h.tree.children[h.app], Holders(h.calls));
  }

  /** Registered invocation scopes never outnumber `active`, `active` never exceeds the
      configured bound, and `active` counts the live leases plus the calls past the
      `fetch_update` that have not yet given their capacity back. */
  lemma CapacityBound(hosts: seq<Host>, threads: seq<Thread>, steps: seq<Step>, app: Ref, max: nat, k: nat)
    requires HostRun(hosts, threads, steps, app, max) && k < |hosts|
    ensures app in hosts[k].tree.children
    ensures |hosts[k].tree.children[app]| <= hosts[k].active <= max
    ensures hosts[k].active == |Holders(hosts[k].calls)|
  {
    RunKeepsHostInv(hosts, threads, steps, app, max, k);
    InvParts(hosts[k]);
    CountIs(hosts[k]);
    ListWithinHolders(hosts[k]);
    hide HostInv, Holders;
  }

  /** A step changes `active` by at most one, and no decrement ever wraps below zero. */
  lemma ActiveNeverWraps(hosts: seq<Host>, threads: seq<Thread>, steps: seq<Step>, app: Ref, max: nat, k: nat)
    requires HostRun(hosts, threads, steps, app, max) && k < |steps|
    ensures var h, i, s := hosts[k], threads[k], steps[k];
            hosts[k + 1].active ==
              if s.Load? && h.calls[i].Reserving? && h.active < max then h.active + 1
              else if s.Load? && (h.calls[i].RollingBack? || h.calls[i].Releasing?) then h.active - 1
              else h.active
  {
    hide HostInv, StepNext, StepEnabled, AfterLoad, Holders, NewHost;
    RunKeepsHostInv(hosts, threads, steps, app, max, k);
    var h, i := hosts[k], threads[k];
    if i in h.calls && Holding(h.calls[i]) {
      HolderIsCounted(h, i);
    }
    ActiveAfter(h, i, steps[k]);
  }

  lemma ActiveAfter(h: Host, i: Thread, s: Step)
    requires StepEnabled(h, i, s)
    ensures s.Load? ==> i in h.calls
    ensures StepNext(h, i, s).active ==
              if s.Load? && h.calls[i].Reserving? && h.active < h.max then h.active + 1
              else if s.Load? && (h.calls[i].RollingBack? || h.calls[i].Releasing?) then Decrement(h.active)
              else h.active
  {
    hide Next;
  }

  // ----- the child list at rest

  /** No call of `begin_invocation` and no drop of a lease is in flight. */
  predicate AtRest(h: Host) {
    forall i :: i in h.calls ==> Over(h.calls[i]) || h.calls[i].Leased?
  }

  ghost function Leases(h: Host): set<Thread> {
    set i | i in h.calls && h.calls[i].Leased?
  }

  lemma {:induction false} DistinctBound(h: Host, owners: set<Thread>, list: seq<Ref>)
    requires forall i :: i in owners ==> i in h.calls && Owned(h, i).Some? && Owned(h, i).value in list
    requires OwnersDiffer(h)
    ensures |owners| <= |list|
    decreases |owners|
  {
    hide Owned;
    if owners != {} {
      var i :| i in owners;
      var k :| 0 <= k < |list| && list[k] == Owned(h, i).value;
      var rest := list[..k] + list[k + 1..];
      forall j | j in owners - {i}
        ensures Owned(h, j).value in rest
      {
        var q :| 0 <= q < |list| && list[q] == Owned(h, j).value;
        assert q != k;
        assert rest[if q < k then q else q - 1] == list[q];
      }
      DistinctBound(h, owners - {i}, rest);
    }
  }

  /** With nothing in flight the application's child list holds exactly the scopes of the
      outstanding invocation guards, once each, and `active` is their number. */
  lemma ListIsOutstandingGuards(hosts: seq<Host>, threads: seq<Thread>, steps: seq<Step>, app: Ref, max: nat, k: nat)
    requires HostRun(hosts, threads, steps, app, max) && k < |hosts| && AtRest(hosts[k])
    ensures app in hosts[k].tree.children && NoRepeats(hosts[k].tree.children[app])
    ensures forall c: Ref :: c in hosts[k].tree.children[app] <==>
        exists i :: i in hosts[k].calls && hosts[k].calls[i] == Leased(c)
    ensures |hosts[k].tree.children[app]| == |Leases(hosts[k])| == hosts[k].active
  {
    var h := hosts[k];
    RunKeepsHostInv(hosts, threads, steps, app, max, k);
    InvParts(h);
    CountIs(h);
    hide HostInv, Inv, HostRun, CallFits, ListExact, OwnersDiffer, NoRepeats, ShutdownFits, OnlyAppHasChildren;
    ListAtRest(h);
    ListWithinHolders(h);
  }

  lemma CallAtRest(h: Host, i: Thread)
    requires AtRest(h) && i in h.calls
    ensures Holding(h.calls[i]) <==> h.calls[i].Leased?
    ensures Listed(h, i) <==> h.calls[i].Leased?
    ensures h.calls[i].Leased? ==> Owned(h, i) == Some(h.calls[i].scope)
  {
  }

  lemma ListAtRest(h: Host)
    requires AtRest(h) && ListExact(h) && OwnersDiffer(h)
    ensures h.app in h.tree.children && NoRepeats(h.tree.children[h.app]) && Holders(h.calls) == Leases(h)
    ensures forall c: Ref :: c in h.tree.children[h.app] <==> exists i :: i in h.calls && h.calls[i] == Leased(c)
    ensures |Leases(h)| <= |h.tree.children[h.app]|
  {
    hide NoRepeats, Owned, Listed, OwnersDiffer, Over, Holding;
    var list := h.tree.children[h.app];
    forall i | i in h.calls
      ensures i in Holders(h.calls) <==> h.calls[i].Leased?
      ensures Listed(h, i) <==> h.calls[i].Leased?
      ensures h.calls[i].Leased? ==> Owned(h, i) == Some(h.calls[i].scope)
    {
      CallAtRest(h, i);
    }
    forall c: Ref
      ensures c in list <==> exists i :: i in h.calls && h.calls[i] == Leased(c)
    {
      if c in list {
        var i :| i in h.calls && Listed(h, i) && Owned(h, i) == Some(c);
        assert h.calls[i] == Leased(c);
      }
      if i :| i in h.calls && h.calls[i] == Leased(c) {
        assert Listed(h, i) && Owned(h, i) == Some(c);
      }
    }
    DistinctBound(h, Leases(h), list);
  }

  /** The scopes of two live leases have different identities. */
  lemma LeasesHaveDistinctScopes(hosts: seq<Host>, threads: seq<Thread>, steps: seq<Step>, app: Ref, max: nat, k: nat,
      i: Thread, j: Thread)
    requires HostRun(hosts, threads, steps, app, max) && k < |hosts| && i != j
    requires i in hosts[k].calls && hosts[k].calls[i].Leased? && j in hosts[k].calls && hosts[k].calls[j].Leased?
    ensures var h := hosts[k]; var c, d := h.calls[i].scope, h.calls[j].scope;
            c in h.tree.id && d in h.tree.id && h.tree.id[c] != h.tree.id[d]
  {
    hide HostInv, Inv, CallFits, HostRun, ListExact, OnlyAppHasChildren, AppOk;
    var h := hosts[k];
    RunKeepsHostInv(hosts, threads, steps, app, max, k);
    InvParts(h);
    OwnedAreAlive(h);
    assert Owned(h, i) == Some(h.calls[i].scope) && Owned(h, j) == Some(h.calls[j].scope);
  }

  // ----- shutdown

  lemma {:induction false} ShutdownIsFinal(hosts: seq<Host>, threads: seq<Thread>, steps: seq<Step>, app: Ref, max: nat,
      k: nat, m: nat)
    requires HostRun(hosts, threads, steps, app, max) && k <= m < |hosts| && !hosts[k].shutdown.Serving?
    ensures !hosts[m].shutdown.Serving?
    decreases m - k
  {
    if k < m {
      ShutdownIsFinal(hosts, threads, steps, app, max, k, m - 1);
      hide Next, StepEnabled;
    }
  }

  /** From the start of `shutdown` on no call holds capacity or a scope: nothing is
      admitted any more, and the application scope has no child left to close. */
  lemma NothingAdmittedAfterShutdown(hosts: seq<Host>, threads: seq<Thread>, steps: seq<Step>, app: Ref, max: nat,
      k: nat, m: nat, i: Thread)
    requires HostRun(hosts, threads, steps, app, max) && k <= m < |hosts| && !hosts[k].shutdown.Serving?
    ensures hosts[m].active == 0 && app in hosts[m].tree.children && hosts[m].tree.children[app] == []
    ensures i in hosts[m].calls ==> !hosts[m].calls[i].Leased?
  {
    ShutdownIsFinal(hosts, threads, steps, app, max, k, m);
    RunKeepsHostInv(hosts, threads, steps, app, max, m);
    var h := hosts[m];
    InvParts(h);
    CountIs(h);
    NoChildLeft(h);
    assert forall j :: j in h.calls ==> !Holding(h.calls[j]);
    assert Holders(h.calls) == {};
  }
}
