/** The lifecycle executor: transactional startup, rollback and shutdown.

    A hook answers whatever it likes. The ghost `trace` records every hook call with the failure
    the executor saw in it; it is kept equal to the calls the hooks logged and the answers they
    gave. */
module Lifecycle {
  import opened Model
  import opened Composition
  import opened GraphFacts
  import opened Provisions
  import opened LifecycleTrace
  import opened PluginHooks

  datatype LifecycleFailure = LifecycleFailure(primary: FailureRecord, cleanupFailures: seq<FailureRecord>)
  datatype ShutdownReport = ShutdownReport(failures: seq<FailureRecord>)

  // ----- the shape of the trace on the way

  /** The first `k` plugins have initialized and nothing else has run. */
  ghost predicate Initialized(trace: seq<Event>, order: seq<PluginId>, k: nat) {
    k <= |order| && |trace| == k && forall i :: 0 <= i < k ==> trace[i] == Event(order[i], Initialize, Open, None)
  }

  /** Every plugin has initialized and the first `k` have started. */
  ghost predicate Started(trace: seq<Event>, order: seq<PluginId>, k: nat) {
    && k <= |order| && |trace| == |order| + k
    && Initialized(trace[..|order|], order, |order|)
    && forall i :: 0 <= i < k ==> trace[|order| + i] == Event(order[i], Start, Open, None)
  }

  /** The cleanup calls of `phases`, one phase after the other. */
  function CleanupPhases(ps: seq<PluginId>, phases: seq<Phase>): seq<Call> {
    if phases == [] then [] else CleanupPhases(ps, phases[..|phases| - 1]) + Cleanup(ps, phases[|phases| - 1])
  }

  lemma NothingCleanedUp(ps: seq<PluginId>)
    ensures CleanupPhases(ps, []) == [] && Failures([]) == [] && Calls([]) == []
  {
  }

  lemma CleanupLength(ps: seq<PluginId>, phase: Phase)
    ensures |Cleanup(ps, phase)| == |ps|
  {
  }

  lemma OneMoreCleanup(added: seq<Event>, event: Event, ps: seq<PluginId>, phase: Phase, i: nat)
    requires i < |ps| && event.plugin == ps[|ps| - 1 - i] && event.phase == phase && event.scope == Closing
    ensures |Cleanup(ps, phase)| == |ps| && Calls(added + [event]) == Calls(added) + [Cleanup(ps, phase)[i]]
    ensures Failures(added + [event]) == Failures(added) + if event.failure.Some? then [event.failure.value] else []
  {
    assert (added + [event])[..|added|] == added;
  }

  lemma PhaseDone(ps: seq<PluginId>, phases: seq<Phase>, m: nat)
    requires m < |phases|
    ensures CleanupPhases(ps, phases[..m + 1]) == CleanupPhases(ps, phases[..m]) + Cleanup(ps, phases[m])
    ensures |Cleanup(ps, phases[m])| == |ps| && Cleanup(ps, phases[m])[..|ps|] == Cleanup(ps, phases[m])
  {
    assert phases[..m + 1][..m] == phases[..m];
  }

  lemma PhasesOne(ps: seq<PluginId>, a: Phase)
    ensures CleanupPhases(ps, [a]) == Cleanup(ps, a)
  {
    assert [a][..0] == [];
    assert CleanupPhases(ps, [a]) == CleanupPhases(ps, [a][..0]) + Cleanup(ps, a);
  }

  lemma PhasesTwo(ps: seq<PluginId>, a: Phase, b: Phase)
    ensures CleanupPhases(ps, [a, b]) == Cleanup(ps, a) + Cleanup(ps, b)
  {
    assert [a, b][..1] == [a];
    PhasesOne(ps, a);
  }

  lemma PhasesThree(ps: seq<PluginId>, a: Phase, b: Phase, c: Phase)
    ensures CleanupPhases(ps, [a, b, c]) == Cleanup(ps, a) + Cleanup(ps, b) + Cleanup(ps, c)
  {
    assert [a, b, c][..2] == [a, b];
    PhasesTwo(ps, a, b);
  }

  lemma CallsConcat(a: seq<Event>, b: seq<Event>)
    ensures Calls(a + b) == Calls(a) + Calls(b)
  {
  }

  ghost predicate FailureMatches(trace: seq<Event>, order: seq<PluginId>, end: End, failure: LifecycleFailure) {
    && Follows(trace, order, end) && (end.InitializeFailed? || end.StartFailed?)
    && var last := |ForwardCalls(order, end)| - 1;
       && trace[last].failure == Some(failure.primary)
       && failure.cleanupFailures == CleanupFailures(trace, order, end)
  }

  lemma InitializeFailure(trace: seq<Event>, order: seq<PluginId>, k: nat, primary: FailureRecord, cleanup: seq<Event>)
    requires Initialized(trace, order, k) && k < |order| && Calls(cleanup) == Cleanup(order[..k + 1], Dispose)
    ensures FailureMatches(trace + [Event(order[k], Initialize, Open, Some(primary))] + cleanup, order,
                           InitializeFailed(k), LifecycleFailure(primary, Failures(cleanup)))
  {
    var forward := trace + [Event(order[k], Initialize, Open, Some(primary))];
    assert Calls(forward) == Each(order[..k + 1], Initialize, Open);
    CallsConcat(forward, cleanup);
    assert (forward + cleanup)[k + 1..] == cleanup;
  }

  lemma InitializedCalls(trace: seq<Event>, order: seq<PluginId>)
    requires Initialized(trace, order, |order|)
    ensures Calls(trace) == Each(order, Initialize, Open)
  {
  }

  lemma StartedCalls(trace: seq<Event>, order: seq<PluginId>, k: nat)
    requires Started(trace, order, k)
    ensures Calls(trace) == Each(order, Initialize, Open) + Each(order[..k], Start, Open)
  {
    InitializedCalls(trace[..|order|], order);
    assert trace == trace[..|order|] + trace[|order|..];
    CallsConcat(trace[..|order|], trace[|order|..]);
    assert Calls(trace[|order|..]) == Each(order[..k], Start, Open);
  }

  lemma NoFailureYet(trace: seq<Event>, order: seq<PluginId>, k: nat, i: nat)
    requires Started(trace, order, k) && i < |trace|
    ensures trace[i].failure.None?
  {
    if i < |order| {
      assert trace[i] == trace[..|order|][i];
    } else {
      assert trace[|order| + (i - |order|)] == Event(order[i - |order|], Phase.Start, Open, None);
    }
  }

  lemma StartFailure(trace: seq<Event>, order: seq<PluginId>, k: nat, primary: FailureRecord, cleanup: seq<Event>)
    requires Started(trace, order, k) && k < |order|
    requires Calls(cleanup) == Cleanup(order[..k + 1], Quiesce) + Cleanup(order[..k + 1], Stop)
        + Cleanup(order, Dispose)
    ensures FailureMatches(trace + [Event(order[k], Start, Open, Some(primary))] + cleanup, order, StartFailed(k),
                           LifecycleFailure(primary, Failures(cleanup)))
  {
    var event := Event(order[k], Start, Open, Some(primary));
    var forward := trace + [event];
    StartedCalls(trace, order, k);
    CallsConcat(trace, [event]);
    assert Each(order[..k + 1], Start, Open) == Each(order[..k], Start, Open) + Calls([event]);
    assert Calls(forward) == ForwardCalls(order, StartFailed(k));
    CallsConcat(forward, cleanup);
    assert (forward + cleanup)[|forward|..] == cleanup;
    forall i | 0 <= i < |forward|
      ensures forward[i].failure.Some? <==> i == |forward| - 1
    {
      if i < |trace| {
        NoFailureYet(trace, order, k, i);
        assert forward[i] == trace[i];
      } else {
        assert forward[i] == event;
      }
    }
  }

  lemma AllStarted(trace: seq<Event>, order: seq<PluginId>)
    requires Started(trace, order, |order|)
    ensures Follows(trace, order, Running)
  {
    StartedCalls(trace, order, |order|);
    assert order[..|order|] == order;
    forall i | 0 <= i < |trace| ensures trace[i].failure.None? { NoFailureYet(trace, order, |order|, i); }
  }

  lemma ShutDownFollows(trace: seq<Event>, order: seq<PluginId>, cleanup: seq<Event>)
    requires Follows(trace, order, Running)
    requires Calls(cleanup) == Cleanup(order, Quiesce) + Cleanup(order, Stop) + Cleanup(order, Dispose)
    ensures Follows(trace + cleanup, order, ShutDown)
    ensures CleanupFailures(trace + cleanup, order, ShutDown) == Failures(cleanup)
  {
    CallsConcat(trace, cleanup);
    assert (trace + cleanup)[|trace|..] == cleanup;
  }

  lemma RecordsOneMore(a: Answers, plugins: Plugins, trace: seq<Event>, e: Event)
    requires Truthful(a, plugins, trace) && Told(a, plugins, e)
    ensures Truthful(a, plugins, trace + [e])
    ensures Calls(trace + [e]) == Calls(trace) + [Call(e.plugin, e.phase, e.scope)]
  {
    TruthfulConcat(a, plugins, trace, [e]);
    CallsConcat(trace, [e]);
  }

  lemma PluginsAreKnown(spec: CompositionSpec, g: ResolvedGraph, p: PluginId)
    requires ResolvedFrom(spec, g) && p in g.startupOrder
    ensures p in g.plugins
  {
    ProvidersStartFirst(spec, g);
  }

  /** The failure a run reports is that of the first hook that failed, under its own plugin,
      phase, tag and message. */
  lemma PrimaryIsFirstFailure(a: Answers, plugins: Plugins, trace: seq<Event>, order: seq<PluginId>, end: End,
                              failure: LifecycleFailure)
    requires FailureMatches(trace, order, end, failure) && Truthful(a, plugins, trace)
    ensures match end
            case InitializeFailed(k) =>
              && (forall j :: 0 <= j < k ==> Brings(a, plugins, order[j])) && !Brings(a, plugins, order[k])
              && InitializeRecord(a, plugins, order[k], failure.primary)
            case StartFailed(k) =>
              && (forall j :: 0 <= j < |order| ==> Brings(a, plugins, order[j]))
              && (forall j :: 0 <= j < k ==> a.later(order[j], Phase.Start).None?)
              && a.later(order[k], Phase.Start).Some?
              && var error := a.later(order[k], Phase.Start).value;
                 failure.primary == FailureRecord(Phase.Start, order[k], SafeTag(error.tag), error.message)
            case _ => false
  {
    EndIsFirstFailure(a, plugins, trace, order, end);
    LastForwardEvent(trace, order, end);
    assert Told(a, plugins, trace[|ForwardCalls(order, end)| - 1]);
    hide Brings, InitializeRecord, SafeTag, Calls, Follows, ForwardCalls, Each, CleanupFailures;
  }

  lemma LastForwardEvent(trace: seq<Event>, order: seq<PluginId>, end: End)
    requires Follows(trace, order, end) && (end.InitializeFailed? || end.StartFailed?)
    ensures var n := |ForwardCalls(order, end)|;
            && 1 <= n <= |trace| && trace[n - 1].plugin == order[end.at]
            && trace[n - 1].phase == if end.InitializeFailed? then Phase.Initialize else Phase.Start
  {
    hide Follows, ForwardCalls, CleanupCalls, Calls;
    FollowsCalls(trace, order, end);
    LastForwardCall(order, end);
    CallAt(trace, |ForwardCalls(order, end)| - 1);
  }

  lemma LastForwardCall(order: seq<PluginId>, end: End)
    requires EndsWithin(order, end) && (end.InitializeFailed? || end.StartFailed?)
    ensures var calls, phase := ForwardCalls(order, end), if end.InitializeFailed? then Initialize else Phase.Start;
            calls != [] && calls[|calls| - 1] == Call(order[end.at], phase, Open)
  {
  }

  // ----- the executor

  /** One cleanup hook, for a rollback or a shutdown; a failure is returned, never propagated. */
  method RunCleanupHook(hooks: HookSet, plugin: PluginId, phase: Phase, scope: ScopeState, ghost plugins: Plugins)
      returns (r: Option<FailureRecord>)
    requires phase.Rank() >= 2
    modifies hooks`log
    ensures hooks.log == old(hooks.log) + [Call(plugin, phase, scope)]
    ensures Told(hooks.answers, plugins, Event(plugin, phase, scope, r))
  {
    var result := hooks.Run(plugin, phase, scope);
    r := if result.Some? then Some(Record(plugin, phase, result.value)) else None;
  }

  /** The cleanup loops of a rollback and of a shutdown: every hook of every phase is attempted,
      last plugin first, and the failures are kept in call order. */
  method RunCleanupHooks(hooks: HookSet, plugins: seq<PluginId>, phases: seq<Phase>, scope: ScopeState,
                         ghost known: Plugins)
      returns (failures: seq<FailureRecord>, ghost added: seq<Event>)
    requires scope == Closing && forall phase :: phase in phases ==> phase.Rank() >= 2
    modifies hooks`log
    ensures hooks.log == old(hooks.log) + Calls(added) && Truthful(hooks.answers, known, added)
    ensures Calls(added) == CleanupPhases(plugins, phases) && failures == Failures(added)
  {
    hide Calls, Cleanup, CleanupPhases, Failures, Truthful, Told;
    failures, added := [], [];
    NothingCleanedUp(plugins);
    assert Truthful(hooks.answers, known, []) by { NothingToTell(hooks.answers, known); }
    for m := 0 to |phases|
      invariant hooks.log == old(hooks.log) + Calls(added) && Truthful(hooks.answers, known, added)
      invariant Calls(added) == CleanupPhases(plugins, phases[..m]) && failures == Failures(added)
    {
      var phase := phases[m];
      assert phase in phases;
      ghost var before := added;
      CleanupLength(plugins, phase);
      for i := 0 to |plugins|
        invariant hooks.log == old(hooks.log) + Calls(added) && Truthful(hooks.answers, known, added)
        invariant Calls(added) == Calls(before) + Cleanup(plugins, phase)[..i] && failures == Failures(added)
      {
        var plugin := plugins[|plugins| - 1 - i];
        var failure := RunCleanupHook(hooks, plugin, phase, scope, known);
        ghost var event := Event(plugin, phase, scope, failure);
        OneMoreCleanup(added, event, plugins, phase, i);
        RecordsOneMore(hooks.answers, known, added, event);
        if failure.Some? { failures := failures + [failure.value]; }
        added := added + [event];
      }
      PhaseDone(plugins, phases, m);
    }
    assert phases[..|phases|] == phases;
  }

  lemma NothingToTell(a: Answers, plugins: Plugins)
    ensures Truthful(a, plugins, [])
  {
  }

  class ResolvedApp {
    const graph: ResolvedGraph
    const hooks: HookSet
    var scope: ScopeState
    ghost var trace: seq<Event>

    constructor (graph: ResolvedGraph, hooks: HookSet)
      requires hooks.log == []
      ensures this.graph == graph && this.hooks == hooks && scope == Open && trace == [] && Recorded()
    {
      this.graph, this.hooks := graph, hooks;
      scope := Open;
      trace := [];
    }

    /** The trace is what the hooks logged, with the failures they answered. */
    ghost predicate Recorded()
      reads this, hooks
    {
      hooks.log == Calls(trace) && Truthful(hooks.answers, graph.plugins, trace)
    }

    /** Every hook of every phase is attempted, last plugin first; failures are kept in call order. */
    method RunCleanups(plugins: seq<PluginId>, phases: seq<Phase>)
        returns (failures: seq<FailureRecord>, ghost added: seq<Event>)
      requires Recorded() && scope == Closing && forall phase :: phase in phases ==> phase.Rank() >= 2
      modifies this`trace, hooks`log
      ensures Recorded() && trace == old(trace) + added
      ensures Calls(added) == CleanupPhases(plugins, phases) && failures == Failures(added)
    {
      failures, added := RunCleanupHooks(hooks, plugins, phases, scope, graph.plugins);
      trace := trace + added;
      TruthfulConcat(hooks.answers, graph.plugins, old(trace), added);
      CallsConcat(old(trace), added);
    }

    method RollbackDispose(plugins: seq<PluginId>) returns (failures: seq<FailureRecord>, ghost added: seq<Event>)
      requires Recorded() && scope == Open
      modifies this, hooks`log
      ensures Recorded() && scope == Closed
      ensures trace == old(trace) + added && Calls(added) == Cleanup(plugins, Dispose) && failures == Failures(added)
    {
      scope := Closing;
      PhasesOne(plugins, Dispose);
      failures, added := RunCleanups(plugins, [Dispose]);
      scope := Closed;
    }

    method RollbackStart(affected: seq<PluginId>, initialized: seq<PluginId>)
        returns (failures: seq<FailureRecord>, ghost added: seq<Event>)
      requires Recorded() && scope == Open
      modifies this, hooks`log
      ensures Recorded() && scope == Closed
      ensures trace == old(trace) + added && failures == Failures(added)
      ensures Calls(added) == Cleanup(affected, Quiesce) + Cleanup(affected, Stop) + Cleanup(initialized, Dispose)
    {
      scope := Closing;
      PhasesTwo(affected, Quiesce, Stop);
      PhasesOne(initialized, Dispose);
      ghost var first, second;
      failures, first := RunCleanups(affected, [Quiesce, Stop]);
      var rest;
      rest, second := RunCleanups(initialized, [Dispose]);
      failures, added := failures + rest, first + second;
      FailuresConcat(first, second);
      CallsConcat(first, second);
      scope := Closed;
    }

    /** Initializes the next plugin and publishes what it staged, or rolls everything back. */
    method InitializeOne(plugin: PluginId, registry: Registry, initialized: seq<PluginId>, ghost spec: CompositionSpec)
      returns (r: Option<LifecycleFailure>)
      requires ResolvedFrom(spec, graph) && scope == Open && Recorded()
      requires |initialized| < |graph.startupOrder| && initialized == graph.startupOrder[..|initialized|]
      requires plugin == graph.startupOrder[|initialized|]
      requires Initialized(trace, graph.startupOrder, |initialized|)
      requires registry.provisions.Keys == OffersOf(graph.plugins, initialized)
      requires Published(hooks.answers, registry.provisions)
      modifies this, hooks`log, registry
      ensures Recorded() && Published(hooks.answers, registry.provisions)
      ensures r.None? <==> Brings(hooks.answers, graph.plugins, plugin)
      ensures r.None? ==>
                && scope == Open && Initialized(trace, graph.startupOrder, |initialized| + 1)
                && registry.provisions.Keys == OffersOf(graph.plugins, graph.startupOrder[..|initialized| + 1])
      ensures r.Some? ==>
                && scope == Closed && registry.provisions == old(registry.provisions)
                && FailureMatches(trace, graph.startupOrder, InitializeFailed(|initialized|), r.value)
    {
      hide ResolvedFrom, Initialized, OffersOf, FailureMatches, Matches, CommitFails, Calls, Published, AfterCommit;
      ghost var order, k := graph.startupOrder, |initialized|;
      ProvidersStartFirst(spec, graph);
      assert plugin in order && initialized + [plugin] == order[..k + 1];
      PrefixCommitsDependencies(spec, graph, registry.provisions, k);
      GraphCardinalities(spec, graph);
      ghost var before := trace;
      ghost var answers, plugins := hooks.answers, graph.plugins;
      PluginsAreKnown(spec, graph, plugin);
      var result := hooks.Initialize(graph, registry.provisions, plugin, scope);
      if result.Err? {
        var primary := Record(plugin, Initialize, result.error);
        trace := trace + [Event(plugin, Initialize, Open, Some(primary))];
        RecordsOneMore(answers, plugins, before, Event(plugin, Initialize, Open, Some(primary)));
        var failures, cleanup := RollbackDispose(initialized + [plugin]);
        InitializeFailure(before, order, k, primary, cleanup);
        return Some(LifecycleFailure(primary, failures));
      }
      ghost var committed := registry.provisions;
      var refused := registry.Commit(plugin, graph.plugins[plugin], result.value);
      if refused.Some? {
        var primary := FailureRecord(Initialize, plugin, CommitTag(refused.value), "");
        trace := trace + [Event(plugin, Initialize, Open, Some(primary))];
        RecordsOneMore(answers, plugins, before, Event(plugin, Initialize, Open, Some(primary)));
        var failures, cleanup := RollbackDispose(initialized + [plugin]);
        InitializeFailure(before, order, k, primary, cleanup);
        return Some(LifecycleFailure(primary, failures));
      }
      CommitExtendsKeys(graph.plugins, order, k, committed, result.value);
      PublishedAfterCommit(answers, committed, plugin);
      trace := trace + [Event(plugin, Initialize, Open, None)];
      RecordsOneMore(answers, plugins, before, Event(plugin, Initialize, Open, None));
      InitializedOneMore(before, order, k);
      return None;
    }

    method InitializeAll(order: seq<PluginId>, registry: Registry, ghost spec: CompositionSpec)
      returns (r: Result<seq<PluginId>, LifecycleFailure>)
      requires ResolvedFrom(spec, graph) && order == graph.startupOrder && scope == Open && trace == [] && Recorded()
      requires registry.provisions == map[]
      modifies this, hooks`log, registry
      ensures Recorded() && Published(hooks.answers, registry.provisions)
      ensures r.Ok? ==>
                && r.value == order && scope == Open && Initialized(trace, order, |order|)
                && registry.provisions.Keys == OffersOf(graph.plugins, order)
      ensures r.Ok? <==> forall i :: 0 <= i < |order| ==> Brings(hooks.answers, graph.plugins, order[i])
      ensures r.Err? ==> scope == Closed && exists k :: FailureMatches(trace, order, InitializeFailed(k), r.error)
    {
      hide ResolvedFrom, FailureMatches, Brings, Truthful, Calls;
      var initialized: seq<PluginId> := [];
      for i := 0 to |order|
        invariant initialized == order[..i] && scope == Open && Initialized(trace, order, i)
        invariant Recorded() && Published(hooks.answers, registry.provisions)
        invariant forall j :: 0 <= j < i ==> Brings(hooks.answers, graph.plugins, order[j])
        invariant registry.provisions.Keys == OffersOf(graph.plugins, initialized)
      {
        var failure := InitializeOne(order[i], registry, initialized, spec);
        if failure.Some? { return Err(failure.value); }
        initialized := initialized + [order[i]];
      }
      assert order[..|order|] == order;
      return Ok(initialized);
    }

    /** Starts the next plugin, or quiesces and stops the affected ones and disposes all. */
    method StartOne(plugin: PluginId, started: seq<PluginId>, initialized: seq<PluginId>)
        returns (r: Option<LifecycleFailure>)
      requires scope == Open && initialized == graph.startupOrder && Recorded()
      requires |started| < |graph.startupOrder| && started == graph.startupOrder[..|started|]
      requires plugin == graph.startupOrder[|started|]
      requires Started(trace, graph.startupOrder, |started|)
      modifies this, hooks`log
      ensures Recorded()
      ensures r.None? <==> hooks.answers.later(plugin, Phase.Start).None?
      ensures r.None? ==> scope == Open && Started(trace, graph.startupOrder, |started| + 1)
      ensures r.Some? ==> scope == Closed && FailureMatches(trace, graph.startupOrder, StartFailed(|started|), r.value)
    {
      hide Started, FailureMatches, Calls;
      ghost var order, k, before := graph.startupOrder, |started|, trace;
      ghost var answers, plugins := hooks.answers, graph.plugins;
      assert started + [plugin] == order[..k + 1];
      var result := hooks.Run(plugin, Phase.Start, scope);
      if result.Some? {
        var primary := Record(plugin, Phase.Start, result.value);
        trace := trace + [Event(plugin, Phase.Start, Open, Some(primary))];
        RecordsOneMore(answers, plugins, before, Event(plugin, Phase.Start, Open, Some(primary)));
        var failures, cleanup := RollbackStart(started + [plugin], initialized);
        StartFailure(before, order, k, primary, cleanup);
        return Some(LifecycleFailure(primary, failures));
      }
      trace := trace + [Event(plugin, Phase.Start, Open, None)];
      RecordsOneMore(answers, plugins, before, Event(plugin, Phase.Start, Open, None));
      StartedOneMore(before, order, k);
      return None;
    }

    method StartAll(order: seq<PluginId>, initialized: seq<PluginId>) returns (r: Option<LifecycleFailure>)
      requires scope == Open && order == initialized == graph.startupOrder && Initialized(trace, order, |order|)
      requires Recorded()
      modifies this, hooks`log
      ensures Recorded()
      ensures r.None? <==> forall i :: 0 <= i < |order| ==> hooks.answers.later(order[i], Phase.Start).None?
      ensures r.None? ==> scope == Open && Started(trace, order, |order|)
      ensures r.Some? ==> scope == Closed && exists k :: FailureMatches(trace, order, StartFailed(k), r.value)
    {
      hide FailureMatches, Truthful, Calls;
      var started: seq<PluginId> := [];
      assert trace[..|order|] == trace;
      for i := 0 to |order|
        invariant started == order[..i] && scope == Open && Started(trace, order, i) && Recorded()
        invariant forall j :: 0 <= j < i ==> hooks.answers.later(order[j], Phase.Start).None?
      {
        var failure := StartOne(order[i], started, initialized);
        if failure.Some? { return Some(failure.value); }
        started := started + [order[i]];
      }
      return None;
    }

    /** All plugins come up, or the run ends in a complete rollback and the failure that caused it. */
    method Start(ghost spec: CompositionSpec) returns (r: Result<RunningApp, LifecycleFailure>)
      requires ResolvedFrom(spec, graph) && scope == Open && trace == [] && Recorded()
      modifies this, hooks`log
      ensures Recorded()
      ensures r.Ok? <==> ComesUp(hooks.answers, graph.plugins, graph.startupOrder)
      ensures r.Ok? ==> fresh(r.value) && fresh(r.value.registry) && r.value.graph == graph && r.value.hooks == hooks
      ensures r.Ok? ==> r.value.Valid() && r.value.terminal.None?
      ensures r.Ok? ==> r.value.trace == trace && Follows(trace, graph.startupOrder, Running)
      ensures r.Err? ==> scope == Closed && exists end :: FailureMatches(trace, graph.startupOrder, end, r.error)
    {
      hide ResolvedFrom, FailureMatches, Initialized, Started, Brings, Truthful, Calls, Published;
      var order := graph.startupOrder;
      var registry := new Registry();
      var initialized := InitializeAll(order, registry, spec);
      if initialized.Err? { return Err(initialized.error); }
      var failure := StartAll(order, initialized.value);
      if failure.Some? { return Err(failure.value); }
      AllStarted(trace, order);
      var app := new RunningApp(graph, hooks, registry, scope, trace);
      return Ok(app);
    }
  }

  lemma InitializedOneMore(trace: seq<Event>, order: seq<PluginId>, k: nat)
    requires Initialized(trace, order, k) && k < |order|
    ensures Initialized(trace + [Event(order[k], Initialize, Open, None)], order, k + 1)
  {
  }

  lemma StartedOneMore(trace: seq<Event>, order: seq<PluginId>, k: nat)
    requires Started(trace, order, k) && k < |order|
    ensures Started(trace + [Event(order[k], Start, Open, None)], order, k + 1)
  {
    assert (trace + [Event(order[k], Start, Open, None)])[..|order|] == trace[..|order|];
  }

  class RunningApp {
    const graph: ResolvedGraph
    const hooks: HookSet
    const registry: Registry
    var scope: ScopeState
    var terminal: Option<ShutdownReport>
    ghost var trace: seq<Event>

    /** Running with an open scope, or shut down with the report of that one shutdown. */
    ghost predicate Valid()
      reads this, registry, hooks
    {
      && registry.provisions.Keys == OffersOf(graph.plugins, graph.startupOrder)
      && Published(hooks.answers, registry.provisions)
      && hooks.log == Calls(trace) && Truthful(hooks.answers, graph.plugins, trace)
      && match terminal
         case None => scope == Open && Follows(trace, graph.startupOrder, Running)
         case Some(report) =>
           && scope == Closed && Follows(trace, graph.startupOrder, ShutDown)
           && report.failures == CleanupFailures(trace, graph.startupOrder, ShutDown)
    }

    constructor (graph: ResolvedGraph, hooks: HookSet, registry: Registry, scope: ScopeState, ghost trace: seq<Event>)
      requires scope == Open && Follows(trace, graph.startupOrder, Running)
      requires registry.provisions.Keys == OffersOf(graph.plugins, graph.startupOrder)
      requires Published(hooks.answers, registry.provisions)
      requires hooks.log == Calls(trace) && Truthful(hooks.answers, graph.plugins, trace)
      ensures Valid() && terminal.None? && this.trace == trace
      ensures this.graph == graph && this.hooks == hooks && this.registry == registry
    {
      this.graph, this.hooks, this.registry := graph, hooks, registry;
      this.scope, this.terminal, this.trace := scope, None, trace;
    }

    /** A root export, available until shutdown begins. */
    method CapabilityFrom(provider: PluginId, marker: Marker) returns (r: Result<Provision, AccessError>)
      requires Valid()
      ensures terminal.Some? <==> r == Err(ApplicationUnavailable)
      ensures terminal.None? && marker.Err? ==> r == Err(InvalidAccessContract(marker.error))
      ensures terminal.None? && marker.Ok? ==>
                if provider in graph.startupOrder && Offers(graph.plugins, provider, marker.value.capability)
                then r == if MarkerFits(registry.provisions, provider, marker.value)
                          then Ok(registry.provisions[(provider, marker.value.capability)])
                          else Err(TypeMismatch(provider, marker.value.capability))
                else r == Err(MissingProvision(provider, marker.value.capability))
    {
      if terminal.Some? || scope != Open {
        return Err(ApplicationUnavailable);
      }
      if marker.Err? {
        return Err(InvalidAccessContract(marker.error));
      }
      assert provider in graph.startupOrder && Offers(graph.plugins, provider, marker.value.capability)
        <==> (provider, marker.value.capability) in OffersOf(graph.plugins, graph.startupOrder);
      return Get(registry.provisions, provider, marker.value);
    }

    /** Takes everything down once; a repeated call returns the first report and runs no hook. */
    method Shutdown() returns (report: ShutdownReport)
      requires Valid()
      modifies this, hooks`log
      ensures Valid() && terminal == Some(report)
      ensures old(terminal).Some? ==> old(terminal) == Some(report) && trace == old(trace)
      ensures old(terminal).Some? ==> hooks.log == old(hooks.log)
      ensures old(terminal).None? ==> Follows(trace, graph.startupOrder, ShutDown)
                                      && report.failures == CleanupFailures(trace, graph.startupOrder, ShutDown)
    {
      if terminal.Some? {
        return terminal.value;
      }
      hide CleanupPhases, Failures, Follows, CleanupFailures, Cleanup, Calls, Truthful, OffersOf, Published;
      scope := Closing;
      var order := graph.startupOrder;
      var failures, added := RunCleanupHooks(hooks, order, [Quiesce, Stop, Dispose], scope, graph.plugins);
      trace := trace + added;
      TruthfulConcat(hooks.answers, graph.plugins, old(trace), added);
      CallsConcat(old(trace), added);
      scope := Closed;
      PhasesThree(order, Quiesce, Stop, Dispose);
      ShutDownFollows(old(trace), order, added);
      report := ShutdownReport(failures);
      terminal := Some(report);
    }
  }
}
