/** The hook calls of a lifecycle run: which calls are made, in which order, and what follows. */
module LifecycleTrace {
  import opened Model
  import opened Ordering
  import opened GraphFacts

  datatype Phase = Initialize | Start | Quiesce | Stop | Dispose {
    function Rank(): nat {
      match this
      case Initialize => 0
      case Start => 1
      case Quiesce => 2
      case Stop => 3
      case Dispose => 4
    }
  }

  datatype FailureRecord = FailureRecord(phase: Phase, plugin: PluginId, tag: string, message: string)

  /** One hook call, the scope state it saw, and the failure it ended in. A failing commit
      ends the `Initialize` step it belongs to. */
  datatype Event = Event(plugin: PluginId, phase: Phase, scope: ScopeState, failure: Option<FailureRecord>)

  datatype Call = Call(plugin: PluginId, phase: Phase, scope: ScopeState)

  function Calls(trace: seq<Event>): (r: seq<Call>)
    ensures |r| == |trace|
  {
    seq(|trace|, i requires 0 <= i < |trace| => Call(trace[i].plugin, trace[i].phase, trace[i].scope))
  }

  /** Failures of the steps, in call order. */
  function Failures(trace: seq<Event>): seq<FailureRecord> {
    if trace == [] then []
    else Failures(trace[..|trace| - 1]) +
         match trace[|trace| - 1].failure
         case None => []
         case Some(record) => [record]
  }

  lemma {:induction false} FailuresConcat(a: seq<Event>, b: seq<Event>)
    ensures Failures(a + b) == Failures(a) + Failures(b)
  {
    if b == [] {
      assert a + b == a;
    } else {
      var n := |b| - 1;
      FailuresConcat(a, b[..n]);
      assert (a + b)[..|a + b| - 1] == a + b[..n];
    }
  }

  // ----- the calls of a run

  function Each(ps: seq<PluginId>, phase: Phase, scope: ScopeState): (r: seq<Call>)
    ensures |r| == |ps|
  {
    seq(|ps|, i requires 0 <= i < |ps| => Call(ps[i], phase, scope))
  }

  /** One cleanup phase: last plugin first, with the scope closing. */
  function Cleanup(ps: seq<PluginId>, phase: Phase): seq<Call> {
    Each(Reversed(ps), phase, Closing)
  }

  datatype End =
    | InitializeFailed(at: nat)
    | StartFailed(at: nat)
    | Running
    | ShutDown

  ghost predicate EndsWithin(order: seq<PluginId>, end: End) {
    match end
    case InitializeFailed(k) => k < |order|
    case StartFailed(k) => k < |order|
    case _ => true
  }

  /** The calls before cleanup: every plugin is initialized before any is started. */
  function ForwardCalls(order: seq<PluginId>, end: End): seq<Call>
    requires EndsWithin(order, end)
  {
    match end
    case InitializeFailed(k) => Each(order[..k + 1], Initialize, Open)
    case StartFailed(k) => Each(order, Initialize, Open) + Each(order[..k + 1], Start, Open)
    case _ => Each(order, Initialize, Open) + Each(order, Start, Open)
  }

  /** The cleanup calls: quiesce, stop and dispose, one phase after the other. */
  function CleanupCalls(order: seq<PluginId>, end: End): seq<Call>
    requires EndsWithin(order, end)
  {
    match end
    case InitializeFailed(k) => Cleanup(order[..k + 1], Dispose)
    case StartFailed(k) => Cleanup(order[..k + 1], Quiesce) + Cleanup(order[..k + 1], Stop) + Cleanup(order, Dispose)
    case Running => []
    case ShutDown => Cleanup(order, Quiesce) + Cleanup(order, Stop) + Cleanup(order, Dispose)
  }

  /** `trace` is a run over `order` that ends in `end`: these calls, all forward steps
      successful except the one the run failed at. */
  ghost predicate Follows(trace: seq<Event>, order: seq<PluginId>, end: End) {
    && EndsWithin(order, end)
    && Calls(trace) == ForwardCalls(order, end) + CleanupCalls(order, end)
    && var forward := |ForwardCalls(order, end)|;
       forall i :: 0 <= i < forward ==>
           (trace[i].failure.Some? <==> (end.InitializeFailed? || end.StartFailed?) && i == forward - 1)
  }

  ghost function CleanupFailures(trace: seq<Event>, order: seq<PluginId>, end: End): seq<FailureRecord>
    requires Follows(trace, order, end)
  {
    Failures(trace[|ForwardCalls(order, end)|..])
  }

  lemma FollowsCalls(trace: seq<Event>, order: seq<PluginId>, end: End)
    requires Follows(trace, order, end)
    ensures EndsWithin(order, end) && Calls(trace) == ForwardCalls(order, end) + CleanupCalls(order, end)
  {
  }

  lemma CallAt(trace: seq<Event>, i: nat)
    requires i < |trace|
    ensures Calls(trace)[i] == Call(trace[i].plugin, trace[i].phase, trace[i].scope)
  {
  }

  // ----- exactly once

  ghost function CountOf(calls: seq<Call>, p: PluginId, phase: Phase): nat {
    if calls == [] then 0
    else CountOf(calls[..|calls| - 1], p, phase) +
         if calls[|calls| - 1].plugin == p && calls[|calls| - 1].phase == phase then 1 else 0
  }

  lemma {:induction false} CountConcat(a: seq<Call>, b: seq<Call>, p: PluginId, phase: Phase)
    ensures CountOf(a + b, p, phase) == CountOf(a, p, phase) + CountOf(b, p, phase)
  {
    if b == [] {
      assert a + b == a;
    } else {
      var n := |b| - 1;
      CountConcat(a, b[..n], p, phase);
      assert (a + b)[..|a + b| - 1] == a + b[..n];
    }
  }

  lemma {:induction false} CountEach(ps: seq<PluginId>, phase: Phase, scope: ScopeState, p: PluginId, q: Phase)
    requires NoRepeats(ps)
    ensures CountOf(Each(ps, phase, scope), p, q) == if p in ps && phase == q then 1 else 0
  {
    if ps != [] {
      var n := |ps| - 1;
      CountEach(ps[..n], phase, scope, p, q);
      assert Each(ps, phase, scope)[..n] == Each(ps[..n], phase, scope);
      assert p in ps <==> p in ps[..n] || p == ps[n];
      if p == ps[n] { assert p !in ps[..n]; }
    }
  }

  lemma ReversedFacts(ps: seq<PluginId>)
    requires NoRepeats(ps)
    ensures NoRepeats(Reversed(ps)) && forall p :: p in Reversed(ps) <==> p in ps
  {
    forall p: PluginId
      ensures p in Reversed(ps) <==> p in ps
    {
      if p in ps {
        var i :| 0 <= i < |ps| && ps[i] == p;
        assert Reversed(ps)[|ps| - 1 - i] == p;
      }
    }
  }

  lemma CountCleanup(ps: seq<PluginId>, phase: Phase, p: PluginId, q: Phase)
    requires NoRepeats(ps)
    ensures CountOf(Cleanup(ps, phase), p, q) == if p in ps && phase == q then 1 else 0
  {
    ReversedFacts(ps);
    CountEach(Reversed(ps), phase, Closing, p, q);
  }

  lemma PrefixNoRepeats(order: seq<PluginId>, k: nat)
    requires NoRepeats(order) && k <= |order|
    ensures NoRepeats(order[..k])
  {
  }

  /** How often each phase of each plugin runs. */
  ghost predicate RunsPhase(order: seq<PluginId>, end: End, p: PluginId, phase: Phase)
    requires EndsWithin(order, end)
  {
    match end
    case InitializeFailed(k) => p in order[..k + 1] && (phase == Initialize || phase == Dispose)
    case StartFailed(k) =>
      if phase == Initialize || phase == Dispose then p in order else p in order[..k + 1]
    case Running => p in order && (phase == Initialize || phase == Start)
    case ShutDown => p in order
  }

  lemma CountInRun(trace: seq<Event>, order: seq<PluginId>, end: End, p: PluginId, phase: Phase)
    requires NoRepeats(order) && Follows(trace, order, end)
    ensures CountOf(Calls(trace), p, phase) == if RunsPhase(order, end, p, phase) then 1 else 0
  {
    hide NoRepeats, CountOf, Each, Cleanup, Calls;
    CountConcat(ForwardCalls(order, end), CleanupCalls(order, end), p, phase);
    match end {
      case InitializeFailed(k) =>
        PrefixNoRepeats(order, k + 1);
        CountEach(order[..k + 1], Initialize, Open, p, phase);
        CountCleanup(order[..k + 1], Dispose, p, phase);
      case StartFailed(k) =>
        PrefixNoRepeats(order, k + 1);
        CountEach(order, Initialize, Open, p, phase);
        CountEach(order[..k + 1], Start, Open, p, phase);
        CountConcat(Each(order, Initialize, Open), Each(order[..k + 1], Start, Open), p, phase);
        CountThree(order[..k + 1], order[..k + 1], order, p, phase);
      case Running =>
        CountForward(order, p, phase);
        assert CountOf([], p, phase) == 0 by { CountNothing(p, phase); }
      case ShutDown =>
        CountForward(order, p, phase);
        CountThree(order, order, order, p, phase);
    }
  }

  lemma CountNothing(p: PluginId, phase: Phase)
    ensures CountOf([], p, phase) == 0
  {
  }

  lemma CountForward(order: seq<PluginId>, p: PluginId, phase: Phase)
    requires NoRepeats(order)
    ensures CountOf(Each(order, Initialize, Open) + Each(order, Start, Open), p, phase)
            == if p in order && (phase == Initialize || phase == Start) then 1 else 0
  {
    CountEach(order, Initialize, Open, p, phase);
    CountEach(order, Start, Open, p, phase);
    CountConcat(Each(order, Initialize, Open), Each(order, Start, Open), p, phase);
  }

  lemma CountThree(a: seq<PluginId>, b: seq<PluginId>, c: seq<PluginId>, p: PluginId, phase: Phase)
    requires NoRepeats(a) && NoRepeats(b) && NoRepeats(c)
    ensures CountOf(Cleanup(a, Quiesce) + Cleanup(b, Stop) + Cleanup(c, Dispose), p, phase) ==
            if (phase == Quiesce && p in a) || (phase == Stop && p in b) || (phase == Dispose && p in c) then 1 else 0
  {
    CountCleanup(a, Quiesce, p, phase);
    CountCleanup(b, Stop, p, phase);
    CountCleanup(c, Dispose, p, phase);
    CountConcat(Cleanup(a, Quiesce), Cleanup(b, Stop), p, phase);
    CountConcat(Cleanup(a, Quiesce) + Cleanup(b, Stop), Cleanup(c, Dispose), p, phase);
  }

  /** Over a failed start or a completed shutdown, what was initialized is disposed once,
      what was started is quiesced and stopped once, and nothing else is touched. */
  lemma CleanupMatchesAttempts(trace: seq<Event>, order: seq<PluginId>, end: End, p: PluginId)
    requires NoRepeats(order) && Follows(trace, order, end) && !end.Running?
    ensures CountOf(Calls(trace), p, Initialize) == CountOf(Calls(trace), p, Dispose) <= 1
    ensures CountOf(Calls(trace), p, Start) == CountOf(Calls(trace), p, Quiesce) == CountOf(Calls(trace), p, Stop) <= 1
    ensures CountOf(Calls(trace), p, Start) <= CountOf(Calls(trace), p, Initialize)
    ensures end.ShutDown? ==> (CountOf(Calls(trace), p, Start) == 1 <==> p in order)
  {
    forall phase: Phase
      ensures CountOf(Calls(trace), p, phase) == if RunsPhase(order, end, p, phase) then 1 else 0
    {
      CountInRun(trace, order, end, p, phase);
    }
    if end.StartFailed? && p in order[..end.at + 1] {
      var i :| 0 <= i < end.at + 1 && order[..end.at + 1][i] == p;
      assert order[i] == p;
    }
  }

  // ----- order of the calls

  /** Phases never overlap; inside a phase plugins go in startup order while the
      application comes up and in exactly reverse order while it is taken down. */
  ghost predicate InOrder(order: seq<PluginId>, a: Call, b: Call) {
    || a.phase.Rank() < b.phase.Rank()
    || (a.phase == b.phase
        && if a.phase.Rank() <= 1 then Precedes(order, a.plugin, b.plugin) else Precedes(order, b.plugin, a.plugin))
  }

  ghost predicate Ordered(order: seq<PluginId>, calls: seq<Call>) {
    forall i, j :: 0 <= i < j < |calls| ==> InOrder(order, calls[i], calls[j])
  }

  ghost predicate RanksWithin(calls: seq<Call>, lo: nat, hi: nat) {
    forall i :: 0 <= i < |calls| ==> lo <= calls[i].phase.Rank() < hi
  }

  lemma OrderedConcat(order: seq<PluginId>, a: seq<Call>, b: seq<Call>, lo: nat, mid: nat, hi: nat)
    requires Ordered(order, a) && Ordered(order, b) && RanksWithin(a, lo, mid) && RanksWithin(b, mid, hi)
    requires lo <= mid <= hi
    ensures Ordered(order, a + b) && RanksWithin(a + b, lo, hi)
  {
  }

  lemma EachOrdered(order: seq<PluginId>, k: nat, phase: Phase)
    requires k <= |order| && phase.Rank() <= 1
    ensures Ordered(order, Each(order[..k], phase, Open))
    ensures RanksWithin(Each(order[..k], phase, Open), phase.Rank(), phase.Rank() + 1)
  {
    var calls := Each(order[..k], phase, Open);
    forall i, j | 0 <= i < j < k
      ensures InOrder(order, calls[i], calls[j])
    {
      assert order[i] == calls[i].plugin && order[j] == calls[j].plugin;
    }
  }

  lemma CleanupOrdered(order: seq<PluginId>, k: nat, phase: Phase)
    requires k <= |order| && phase.Rank() >= 2
    ensures Ordered(order, Cleanup(order[..k], phase))
    ensures RanksWithin(Cleanup(order[..k], phase), phase.Rank(), phase.Rank() + 1)
  {
    var calls := Cleanup(order[..k], phase);
    forall i, j | 0 <= i < j < k
      ensures InOrder(order, calls[i], calls[j])
    {
      assert order[k - 1 - i] == calls[i].plugin && order[k - 1 - j] == calls[j].plugin;
    }
  }

  lemma CleanupThreeOrdered(order: seq<PluginId>, k: nat)
    requires k <= |order|
    ensures var calls := Cleanup(order[..k], Quiesce) + Cleanup(order[..k], Stop) + Cleanup(order, Dispose);
            Ordered(order, calls) && RanksWithin(calls, 2, 5)
  {
    hide Ordered, RanksWithin, Cleanup;
    assert order[..|order|] == order;
    CleanupOrdered(order, k, Quiesce);
    CleanupOrdered(order, k, Stop);
    CleanupOrdered(order, |order|, Dispose);
    OrderedConcat(order, Cleanup(order[..k], Quiesce), Cleanup(order[..k], Stop), 2, 3, 4);
    OrderedConcat(order, Cleanup(order[..k], Quiesce) + Cleanup(order[..k], Stop), Cleanup(order, Dispose), 2, 4, 5);
  }

  lemma ForwardOrdered(order: seq<PluginId>, k: nat)
    requires k <= |order|
    ensures var calls := Each(order, Initialize, Open) + Each(order[..k], Start, Open);
            Ordered(order, calls) && RanksWithin(calls, 0, 2)
  {
    hide Ordered, RanksWithin, Each;
    assert order[..|order|] == order;
    EachOrdered(order, |order|, Initialize);
    EachOrdered(order, k, Start);
    OrderedConcat(order, Each(order, Initialize, Open), Each(order[..k], Start, Open), 0, 1, 2);
  }

  /** Phase barriers and reverse cleanup hold in every run. */
  lemma CallsAreOrdered(trace: seq<Event>, order: seq<PluginId>, end: End)
    requires Follows(trace, order, end)
    ensures Ordered(order, Calls(trace))
  {
    hide Ordered, RanksWithin, Each, Cleanup;
    var f, c := ForwardCalls(order, end), CleanupCalls(order, end);
    assert order[..|order|] == order;
    match end {
      case InitializeFailed(k) =>
        EachOrdered(order, k + 1, Initialize);
        CleanupOrdered(order, k + 1, Dispose);
        WiderRanks(c, 4, 5, 1);
        OrderedConcat(order, f, c, 0, 1, 5);
      case StartFailed(k) =>
        ForwardOrdered(order, k + 1);
        CleanupThreeOrdered(order, k + 1);
        OrderedConcat(order, f, c, 0, 2, 5);
      case Running =>
        ForwardOrdered(order, |order|);
        assert f + c == f;
      case ShutDown =>
        ForwardOrdered(order, |order|);
        CleanupThreeOrdered(order, |order|);
        OrderedConcat(order, f, c, 0, 2, 5);
    }
  }

  lemma WiderRanks(calls: seq<Call>, lo: nat, hi: nat, lower: nat)
    requires RanksWithin(calls, lo, hi) && lower <= lo
    ensures RanksWithin(calls, lower, hi)
  {
  }

  ghost predicate ScopesFit(calls: seq<Call>) {
    forall i :: 0 <= i < |calls| ==> calls[i].scope == if calls[i].phase.Rank() <= 1 then Open else Closing
  }

  lemma CleanupScopesFit(ps: seq<PluginId>, phase: Phase)
    requires phase.Rank() >= 2
    ensures ScopesFit(Cleanup(ps, phase))
  {
  }

  lemma ScopesFitConcat(a: seq<Call>, b: seq<Call>)
    requires ScopesFit(a) && ScopesFit(b)
    ensures ScopesFit(a + b)
  {
  }

  /** Forward steps see the open scope; every cleanup hook sees it closing. */
  lemma CleanupSeesClosing(trace: seq<Event>, order: seq<PluginId>, end: End)
    requires Follows(trace, order, end)
    ensures ScopesFit(Calls(trace))
  {
    var started := match end { case InitializeFailed(k) => [] case StartFailed(k) => order[..k + 1] case _ => order };
    ScopesFitConcat(Each(order, Initialize, Open), Each(started, Start, Open));
    CleanupScopesFit(started, Quiesce);
    CleanupScopesFit(started, Stop);
    CleanupScopesFit(order, Dispose);
    ScopesFitConcat(Cleanup(started, Quiesce), Cleanup(started, Stop));
    ScopesFitConcat(Cleanup(started, Quiesce) + Cleanup(started, Stop), Cleanup(order, Dispose));
    if end.InitializeFailed? { CleanupScopesFit(order[..end.at + 1], Dispose); }
    assert ScopesFit(ForwardCalls(order, end)) && ScopesFit(CleanupCalls(order, end));
    hide ScopesFit, Each, Cleanup, Calls;
    ScopesFitConcat(ForwardCalls(order, end), CleanupCalls(order, end));
  }

  // ----- providers are there

  ghost predicate InitializedBefore(trace: seq<Event>, i: nat, q: PluginId)
    requires i < |trace|
  {
    exists j :: 0 <= j < i && trace[j].plugin == q && trace[j].phase == Initialize && trace[j].failure.None?
  }

  ghost predicate DisposedBefore(trace: seq<Event>, i: nat, q: PluginId)
    requires i < |trace|
  {
    exists j :: 0 <= j < i && trace[j].plugin == q && trace[j].phase == Dispose
  }

  lemma NotBothWays(order: seq<PluginId>, p: PluginId, q: PluginId)
    requires NoRepeats(order) && Precedes(order, q, p)
    ensures !Precedes(order, p, q)
  {
  }

  /** The initialize step of the plugin at position `a` is step `a`. */
  lemma InitializeAt(trace: seq<Event>, order: seq<PluginId>, end: End, a: nat)
    requires Follows(trace, order, end) && a < |order| && (end.InitializeFailed? ==> a <= end.at)
    ensures a < |trace| && Calls(trace)[a] == Call(order[a], Initialize, Open)
    ensures a < |ForwardCalls(order, end)|
  {
    var f := ForwardCalls(order, end);
    match end {
      case InitializeFailed(k) => assert f[a] == Call(order[..k + 1][a], Initialize, Open);
      case StartFailed(k) => assert f[a] == Each(order, Initialize, Open)[a];
      case _ => assert f[a] == Each(order, Initialize, Open)[a];
    }
    assert Calls(trace)[a] == (f + CleanupCalls(order, end))[a];
  }

  /** A plugin whose hooks run was reached by the initialize loop. */
  lemma CalledIsReached(trace: seq<Event>, order: seq<PluginId>, end: End, i: nat, b: nat)
    requires NoRepeats(order) && Follows(trace, order, end) && i < |trace| && b < |order| && order[b] == trace[i].plugin
    ensures end.InitializeFailed? ==> b <= end.at
    ensures trace[i].phase == Initialize ==> i == b
  {
    var f, c := ForwardCalls(order, end), CleanupCalls(order, end);
    assert Calls(trace)[i] == (f + c)[i];
    if end.InitializeFailed? {
      var k := end.at;
      if i < |f| {
        assert f[i].plugin == order[i];
      } else {
        assert c[i - |f|].plugin == order[k - (i - |f|)];
      }
    } else if trace[i].phase == Initialize {
      assert i < |order|;
      assert f[i] == Each(order, Initialize, Open)[i];
    }
  }

  /** Whenever any hook of `p` runs, a plugin that precedes it in startup order has
      initialized successfully and has not been disposed. */
  lemma EarlierPluginsAreUp(trace: seq<Event>, order: seq<PluginId>, end: End, i: nat, q: PluginId)
    requires NoRepeats(order) && Follows(trace, order, end) && i < |trace|
    requires Precedes(order, q, trace[i].plugin)
    ensures InitializedBefore(trace, i, q) && !DisposedBefore(trace, i, q)
  {
    hide Follows, NoRepeats, Ordered;
    var p := trace[i].plugin;
    var a, b :| 0 <= a < b < |order| && order[a] == q && order[b] == p;
    CalledIsReached(trace, order, end, i, b);
    InitializeAt(trace, order, end, a);
    CallsAreOrdered(trace, order, end);
    UpBefore(trace, order, end, i, a, b);
    NotBothWays(order, p, q);
    forall j | 0 <= j < i && trace[j].plugin == q && trace[j].phase == Dispose
      ensures false
    {
      OrderedAt(order, Calls(trace), j, i);
    }
  }

  lemma OrderedAt(order: seq<PluginId>, calls: seq<Call>, i: nat, j: nat)
    requires Ordered(order, calls) && i < j < |calls|
    ensures InOrder(order, calls[i], calls[j])
  {
  }

  lemma UpBefore(trace: seq<Event>, order: seq<PluginId>, end: End, i: nat, a: nat, b: nat)
    requires Follows(trace, order, end) && i < |trace| && a < b < |order|
    requires Ordered(order, Calls(trace)) && a < |trace| && Calls(trace)[a] == Call(order[a], Initialize, Open)
    requires end.InitializeFailed? ==> b <= end.at
    requires trace[i].phase == Initialize ==> i == b
    ensures a < i && trace[a].failure.None?
  {
    if i < a { OrderedAt(order, Calls(trace), i, a); }
    assert a < |ForwardCalls(order, end)| - 1;
  }

  /** In a run over a resolved graph every selected provider of a plugin is initialized
      and not yet disposed whenever one of the plugin's hooks runs, rollback included. */
  lemma ProvidersAreUp(spec: CompositionSpec, g: ResolvedGraph, trace: seq<Event>, end: End, i: nat, r: nat,
      q: PluginId)
    requires ResolvedFrom(spec, g) && Follows(trace, g.startupOrder, end) && i < |trace|
    requires r < |g.requirements| && g.requirements[r].consumer == trace[i].plugin && q in g.requirements[r].providers
    ensures InitializedBefore(trace, i, q) && !DisposedBefore(trace, i, q)
  {
    hide Follows, ResolvedFrom, NoRepeats;
    ProvidersStartFirst(spec, g);
    EarlierPluginsAreUp(trace, g.startupOrder, end, i, q);
  }
}
