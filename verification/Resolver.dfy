/** Resolution of a composition into its graph. */
module Resolver {
  import opened Model
  import opened Ordering
  import opened Topology
  import opened Composition
  import opened Inputs
  import opened Requirements

  // ----- diagnostics

  /** Missing optional providers and offers no edge selects, in semantic order. */
  method GraphDiagnostics(plugins: Plugins, requirements: seq<ResolvedRequirement>, edges: seq<ResolvedEdge>)
    returns (r: seq<Diagnostic>)
    ensures StrictTotal(DiagnosticLess)
    ensures r == Ascend(DiagnosticLess, DiagnosticsFor(plugins, requirements, edges))
  {
    var selected: set<Key> := {};
    for i := 0 to |edges|
      invariant forall p: PluginId, c: CapabilityId :: (p, c) in selected <==> IsSelected(edges[..i], p, c)
    {
      SelectedStep(edges, i);
      selected := selected + {(edges[i].provider, edges[i].capability)};
    }
    assert edges[..|edges|] == edges;
    var missing := MissingOptionals(requirements);
    var unselected := UnselectedOffers(plugins, selected, edges);
    DiagnosticOrder();
    assert missing + unselected == DiagnosticsFor(plugins, requirements, edges);
    r := Enumerate(DiagnosticLess, missing + unselected);
  }

  lemma SelectedStep(edges: seq<ResolvedEdge>, i: nat)
    requires i < |edges|
    ensures forall p: PluginId, c: CapabilityId :: IsSelected(edges[..i + 1], p, c) <==>
                           IsSelected(edges[..i], p, c) || (p, c) == (edges[i].provider, edges[i].capability)
  {
    assert edges[..i + 1] == edges[..i] + [edges[i]];
    forall p: PluginId, c: CapabilityId
      ensures IsSelected(edges[..i + 1], p, c) <==>
              IsSelected(edges[..i], p, c) || (p, c) == (edges[i].provider, edges[i].capability)
    {
      if (p, c) == (edges[i].provider, edges[i].capability) { assert edges[i] in edges[..i + 1]; }
      if IsSelected(edges[..i], p, c) {
        var e :| e in edges[..i] && e.provider == p && e.capability == c;
        assert e in edges[..i + 1];
      }
    }
  }

  method MissingOptionals(requirements: seq<ResolvedRequirement>) returns (missing: set<Diagnostic>)
    ensures missing == set r | r in requirements && IsMissing(r)
                         :: OptionalProviderMissing(r.consumer, r.capability)
  {
    missing := {};
    for i := 0 to |requirements|
      invariant missing == set r | r in requirements[..i] && IsMissing(r)
                             :: OptionalProviderMissing(r.consumer, r.capability)
    {
      var requirement := requirements[i];
      assert requirements[..i + 1] == requirements[..i] + [requirement];
      if |requirement.providers| == 0 && requirement.cardinality.PermitsZero() {
        missing := missing + {OptionalProviderMissing(requirement.consumer, requirement.capability)};
      }
    }
    assert requirements[..|requirements|] == requirements;
  }

  method UnselectedOffers(plugins: Plugins, selected: set<Key>, ghost edges: seq<ResolvedEdge>)
      returns (unselected: set<Diagnostic>)
    requires forall p: PluginId, c: CapabilityId :: (p, c) in selected <==> IsSelected(edges, p, c)
    ensures unselected ==
            set p, c | p in plugins && c in plugins[p].offers && !IsSelected(edges, p, c) :: UnselectedOffer(p, c)
  {
    unselected := {};
    var todo := plugins.Keys;
    while todo != {}
      invariant todo <= plugins.Keys
      invariant forall d :: d in unselected <==>
                  d.UnselectedOffer? && d.provider in plugins && d.provider !in todo
                  && d.capability in plugins[d.provider].offers && !IsSelected(edges, d.provider, d.capability)
      decreases todo
    {
      var p := First(todo);
      var offered := plugins[p].offers.Keys;
      while offered != {}
        invariant offered <= plugins[p].offers.Keys
        invariant forall d :: d in unselected <==>
                    d.UnselectedOffer? && d.provider in plugins && d.capability in plugins[d.provider].offers
                    && (d.provider !in todo || (d.provider == p && d.capability !in offered))
                    && !IsSelected(edges, d.provider, d.capability)
        decreases offered
      {
        var c := First(offered);
        if (p, c) !in selected {
          unselected := unselected + {UnselectedOffer(p, c)};
        }
        offered := offered - {c};
      }
      todo := todo - {p};
    }
  }

  // ----- facts about the edges of a graph

  ghost predicate BoundToPlugins(plugins: Plugins, bindings: Bindings) {
    forall k :: k in bindings ==> bindings[k] in plugins
  }

  lemma GraphEdgeMembers(plugins: Plugins, bindings: Bindings, e: ResolvedEdge)
    ensures e in GraphEdges(plugins, bindings) <==>
            Declares(plugins, (e.consumer, e.capability))
                && e.provider in Selected(plugins, bindings, (e.consumer, e.capability))
  {
    EdgeOrder();
    AscendProperties(EdgeLess, EdgesFor(plugins, bindings, Keys(plugins)));
    var k := (e.consumer, e.capability);
    if Declares(plugins, k) && e.provider in Selected(plugins, bindings, k) {
      assert k in Keys(plugins);
      assert ResolvedEdge(e.provider, k.0, k.1) in EdgesFor(plugins, bindings, Keys(plugins));
    }
  }

  lemma GraphEdgesWithin(plugins: Plugins, bindings: Bindings)
    requires BoundToPlugins(plugins, bindings)
    ensures EdgesWithin(plugins.Keys, GraphEdges(plugins, bindings))
  {
    forall e | e in GraphEdges(plugins, bindings)
      ensures e.provider in plugins && e.consumer in plugins
    {
      GraphEdgeMembers(plugins, bindings, e);
    }
  }

  /** Rejecting self-dependencies keeps every plugin out of its own providers. */
  lemma NoSelfArc(plugins: Plugins, bindings: Bindings, limits: GraphLimits)
    requires SelfDependencies(plugins) == {} && SelectionOk(plugins, bindings, limits)
    ensures forall v :: v in GraphDependencies(plugins, bindings) ==> v !in GraphDependencies(plugins, bindings)[v]
  {
    hide GraphEdges;
    forall v | v in plugins
      ensures !HasEdge(GraphEdges(plugins, bindings), v, v)
    {
      forall c: CapabilityId
        ensures ResolvedEdge(v, v, c) !in GraphEdges(plugins, bindings)
      {
        GraphEdgeMembers(plugins, bindings, ResolvedEdge(v, v, c));
        if Declares(plugins, (v, c)) {
          assert (v, c) in Keys(plugins);
          assert Selectable(plugins, bindings, (v, c));
          assert (v, c) !in SelfDependencies(plugins);
        }
      }
    }
  }

  // ----- resolution

  /** The one error a failing composition reports. */
  ghost predicate Explains(spec: CompositionSpec, e: ResolveError) {
    var plugins, bindings := Index(spec.plugins), BindingIndex(spec.bindings);
    if !SchemaOk(spec) then
      e == UnsupportedSchemaVersion(spec.schemaVersion, COMPOSITION_SCHEMA_VERSION)
    else if spec.limits.maxPlugins > ABSOLUTE_MAX_PLUGINS then
      e == ConfiguredLimitExceeded(PluginsLimit, spec.limits.maxPlugins, ABSOLUTE_MAX_PLUGINS)
    else if spec.limits.maxCapabilitiesPerPlugin > ABSOLUTE_MAX_CAPABILITIES_PER_PLUGIN then
      e == ConfiguredLimitExceeded(CapabilitiesLimit, spec.limits.maxCapabilitiesPerPlugin,
          ABSOLUTE_MAX_CAPABILITIES_PER_PLUGIN)
    else if spec.limits.maxEdges > ABSOLUTE_MAX_EDGES then
      e == ConfiguredLimitExceeded(EdgesLimit, spec.limits.maxEdges, ABSOLUTE_MAX_EDGES)
    else if |spec.plugins| > spec.limits.maxPlugins then
      e == PluginLimitExceeded(|spec.plugins|, spec.limits.maxPlugins)
    else if !PluginsOk(spec) then
      exists i :: 0 <= i < |spec.plugins| && FirstBadPlugin(spec.plugins, spec.limits, i, e)
    else if Conflicts(plugins) != {} then
      exists k :: IsLeast(KeyLess, Conflicts(plugins), k)
                  && e == if k.0 < k.1 then PluginConflict(k.0, k.1) else PluginConflict(k.1, k.0)
    else if SelfDependencies(plugins) != {} then
      exists k :: IsLeast(KeyLess, SelfDependencies(plugins), k) && e == SelfDependency(k.0, k.1)
    else if !BindingsOk(plugins, spec.bindings) then
      exists i :: 0 <= i < |spec.bindings| && FirstBadBinding(plugins, spec.bindings, i, e)
    else if !SelectionOk(plugins, bindings, spec.limits) then
      exists done, k :: FailsAt(plugins, bindings, done, k, spec.limits.maxEdges, e)
    else if UnusedBindings(plugins, bindings) != {} then
      exists k :: IsLeast(KeyLess, UnusedBindings(plugins, bindings), k) && e == UnusedBinding(k.0, k.1)
    else
      && !Acyclic(GraphDependencies(plugins, bindings))
      && e == DependencyCycle(ReportedCycle(GraphDependencies(plugins, bindings)))
      && |e.cycle| >= 3 && IsSimpleDependencyCycle(GraphDependencies(plugins, bindings), e.cycle)
  }

  /** What a call of `Resolve` on `spec` may return. */
  ghost predicate Outcome(spec: CompositionSpec, r: Result<ResolvedGraph, ResolveError>) {
    && (r.Ok? <==> Composable(spec))
    && (r.Ok? ==> IsResolution(spec, r.value))
    && (r.Err? ==> Explains(spec, r.error))
  }

  method ValidateLimits(spec: CompositionSpec) returns (r: Option<ResolveError>)
    ensures r.None? <==> SchemaOk(spec) && LimitsOk(spec)
    ensures r.Some? ==> Explains(spec, r.value)
  {
    if spec.schemaVersion != COMPOSITION_SCHEMA_VERSION {
      return Some(UnsupportedSchemaVersion(spec.schemaVersion, COMPOSITION_SCHEMA_VERSION));
    }
    if spec.limits.maxPlugins > ABSOLUTE_MAX_PLUGINS {
      return Some(ConfiguredLimitExceeded(PluginsLimit, spec.limits.maxPlugins, ABSOLUTE_MAX_PLUGINS));
    }
    if spec.limits.maxCapabilitiesPerPlugin > ABSOLUTE_MAX_CAPABILITIES_PER_PLUGIN {
      return Some(ConfiguredLimitExceeded(CapabilitiesLimit, spec.limits.maxCapabilitiesPerPlugin,
          ABSOLUTE_MAX_CAPABILITIES_PER_PLUGIN));
    }
    if spec.limits.maxEdges > ABSOLUTE_MAX_EDGES {
      return Some(ConfiguredLimitExceeded(EdgesLimit, spec.limits.maxEdges, ABSOLUTE_MAX_EDGES));
    }
    if |spec.plugins| > spec.limits.maxPlugins {
      return Some(PluginLimitExceeded(|spec.plugins|, spec.limits.maxPlugins));
    }
    return None;
  }

  /** The least binding no requirement used, if any. */
  method FindUnused(plugins: Plugins, bindings: Bindings, used: set<Key>) returns (r: Option<ResolveError>)
    requires used == Keys(plugins) * bindings.Keys
    ensures r.None? <==> UnusedBindings(plugins, bindings) == {}
    ensures r.Some? ==>
            exists k :: IsLeast(KeyLess, UnusedBindings(plugins, bindings), k) && r.value == UnusedBinding(k.0, k.1)
  {
    var unused := bindings.Keys - used;
    assert unused == UnusedBindings(plugins, bindings);
    KeyOrder();
    AscendProperties(KeyLess, unused);
    var listed := Enumerate(KeyLess, unused);
    if |listed| == 0 {
      return None;
    }
    assert listed == [Least(KeyLess, unused)] + Ascend(KeyLess, unused - {Least(KeyLess, unused)});
    return Some(UnusedBinding(listed[0].0, listed[0].1));
  }

  /** Everything the graph needs except its startup order. */
  method Assemble(plugins: Plugins, bindings: Bindings, requirements: seq<ResolvedRequirement>,
      edgeSet: set<ResolvedEdge>)
    returns (r: Result<ResolvedGraph, ResolveError>)
    requires BoundToPlugins(plugins, bindings)
    requires requirements == GraphRequirements(plugins, bindings)
    requires edgeSet == EdgesFor(plugins, bindings, Keys(plugins))
    ensures r.Ok? <==> Acyclic(GraphDependencies(plugins, bindings))
    ensures r.Ok? ==> IsGraphOf(plugins, bindings, r.value)
    ensures r.Err? ==> r.error == DependencyCycle(ReportedCycle(GraphDependencies(plugins, bindings)))
    ensures r.Err? ==> IsSimpleDependencyCycle(GraphDependencies(plugins, bindings), r.error.cycle)
  {
    EdgeOrder();
    var edges := Enumerate(EdgeLess, edgeSet);
    assert edges == GraphEdges(plugins, bindings);
    GraphEdgesWithin(plugins, bindings);
    hide Acyclic, IsLeastTopological, GraphRequirements, EdgesFor, Keys, StrictTotal, DiagnosticsFor, Ascend,
      DependenciesOf, GraphEdges, IsSimpleDependencyCycle, ReportedCycle;
    var diagnostics := GraphDiagnostics(plugins, requirements, edges);
    var startup := TopologicalOrder(plugins.Keys, edges);
    if startup.Err? {
      return Err(startup.error);
    }
    return Ok(ResolvedGraph(plugins, requirements, edges, diagnostics, startup.value));
  }

  /** Resolution succeeds exactly on composable inputs, yields their graph, and
      otherwise reports the error of the first stage that fails. */
  method Resolve(spec: CompositionSpec) returns (r: Result<ResolvedGraph, ResolveError>)
    ensures Outcome(spec, r)
  {
    hide SelectionOk, BindingsOk, Acyclic, IsGraphOf, GraphDependencies, Conflicts, SelfDependencies, UnusedBindings,
      FirstBadPlugin, FirstBadBinding, FailsAt, IsSimpleDependencyCycle, ReportedCycle, Indexes, GraphRequirements,
      EdgesFor, Keys, LimitsOk, SchemaOk, IsLeast, Explains;
    var refused := ValidateLimits(spec);
    if refused.Some? { return Err(refused.value); }
    var indexed := IndexPlugins(spec.plugins, spec.limits);
    if indexed.Err? { BadPluginExplains(spec, indexed.error); return Err(indexed.error); }
    var plugins := indexed.value;
    var conflict := ValidateConflicts(plugins);
    if conflict.Some? { ConflictExplains(spec, conflict.value); return Err(conflict.value); }
    var selfDependency := ValidateNoSelfDependencies(plugins);
    if selfDependency.Some? { SelfDependencyExplains(spec, selfDependency.value); return Err(selfDependency.value); }
    var providers := CollectCandidates(plugins);
    var bound := ValidatedBindings(spec.bindings, plugins);
    if bound.Err? { BadBindingExplains(spec, bound.error); return Err(bound.error); }
    var bindings := bound.value;
    var failure, requirements, edgeSet, used := ResolveRequirements(plugins, bindings, providers, spec.limits);
    if failure.Some? { FailureExplains(spec, failure.value); return Err(failure.value); }
    var unused := FindUnused(plugins, bindings, used);
    if unused.Some? { UnusedExplains(spec, unused.value); return Err(unused.value); }
    r := Assemble(plugins, bindings, requirements, edgeSet);
    if r.Err? { CycleExplains(spec, r.error); }
  }

  /** A missing or incompatible provider is reported only for an unbound requirement that asks
      for exactly one or for at least one, and that no installed offer satisfies. */
  lemma MissingProviderIsRequired(spec: CompositionSpec, e: ResolveError)
    requires Explains(spec, e) && (e.MissingProvider? || e.IncompatibleProvider?)
    ensures var plugins, k := Index(spec.plugins), (e.consumer, e.capability);
            && Declares(plugins, k) && k !in BindingIndex(spec.bindings)
            && (RequirementAt(plugins, k).cardinality.ExactlyOne? || RequirementAt(plugins, k).cardinality.OneOrMore?)
            && Compatible(plugins, k) == {} && (e.MissingProvider? <==> Offering(plugins, k.1) == {})
  {
    hide SelectionOk, BindingsOk, PluginsOk, Acyclic, GraphDependencies, Conflicts, SelfDependencies, UnusedBindings,
      Index, BindingIndex, EdgesFor, Keys, Selectable, IsSimpleDependencyCycle, ReportedCycle, IsLeast;
    var plugins := Index(spec.plugins);
    var done, k :| FailsAt(plugins, BindingIndex(spec.bindings), done, k, spec.limits.maxEdges, e);
    if e.MissingProvider? { NothingCompatible(plugins, k); }
  }

  lemma NothingCompatible(plugins: Plugins, k: Key)
    requires Declares(plugins, k) && Offering(plugins, k.1) == {}
    ensures Compatible(plugins, k) == {}
  {
    forall p ensures p !in Compatible(plugins, k) { assert p !in Offering(plugins, k.1); }
  }

  ghost predicate PluginsReady(spec: CompositionSpec) {
    SchemaOk(spec) && LimitsOk(spec) && PluginsOk(spec)
  }

  lemma BadPluginExplains(spec: CompositionSpec, e: ResolveError)
    requires SchemaOk(spec) && LimitsOk(spec) && !PluginsOk(spec)
    requires exists i :: 0 <= i < |spec.plugins| && FirstBadPlugin(spec.plugins, spec.limits, i, e)
    ensures Explains(spec, e)
  {
    hide FirstBadPlugin, PluginsOk;
  }

  lemma ConflictExplains(spec: CompositionSpec, e: ResolveError)
    requires PluginsReady(spec)
    requires exists k :: IsLeast(KeyLess, Conflicts(Index(spec.plugins)), k)
                         && e == if k.0 < k.1 then PluginConflict(k.0, k.1) else PluginConflict(k.1, k.0)
    ensures Explains(spec, e)
  {
    hide PluginsOk;
  }

  lemma SelfDependencyExplains(spec: CompositionSpec, e: ResolveError)
    requires PluginsReady(spec) && Conflicts(Index(spec.plugins)) == {}
    requires exists k :: IsLeast(KeyLess, SelfDependencies(Index(spec.plugins)), k) && e == SelfDependency(k.0, k.1)
    ensures Explains(spec, e)
  {
    hide PluginsOk;
  }

  lemma BadBindingExplains(spec: CompositionSpec, e: ResolveError)
    requires PluginsReady(spec) && Conflicts(Index(spec.plugins)) == {} && SelfDependencies(Index(spec.plugins)) == {}
    requires !BindingsOk(Index(spec.plugins), spec.bindings)
    requires exists i :: 0 <= i < |spec.bindings| && FirstBadBinding(Index(spec.plugins), spec.bindings, i, e)
    ensures Explains(spec, e)
  {
    hide PluginsOk, FirstBadBinding, BindingsOk;
  }

  ghost predicate BindingsReady(spec: CompositionSpec) {
    && PluginsReady(spec) && Conflicts(Index(spec.plugins)) == {} && SelfDependencies(Index(spec.plugins)) == {}
    && BindingsOk(Index(spec.plugins), spec.bindings)
  }

  lemma FailureExplains(spec: CompositionSpec, e: ResolveError)
    requires BindingsReady(spec)
    requires !SelectionOk(Index(spec.plugins), BindingIndex(spec.bindings), spec.limits)
    requires exists done, k ::
        FailsAt(Index(spec.plugins), BindingIndex(spec.bindings), done, k, spec.limits.maxEdges, e)
    ensures Explains(spec, e)
  {
    hide PluginsOk, FailsAt, BindingsOk, SelectionOk;
  }

  lemma UnusedExplains(spec: CompositionSpec, e: ResolveError)
    requires BindingsReady(spec)
    requires SelectionOk(Index(spec.plugins), BindingIndex(spec.bindings), spec.limits)
    requires exists k ::
               && IsLeast(KeyLess, UnusedBindings(Index(spec.plugins), BindingIndex(spec.bindings)), k)
               && e == UnusedBinding(k.0, k.1)
    ensures Explains(spec, e)
  {
    hide PluginsOk, BindingsOk, SelectionOk;
  }

  lemma CycleExplains(spec: CompositionSpec, e: ResolveError)
    requires BindingsReady(spec)
    requires SelectionOk(Index(spec.plugins), BindingIndex(spec.bindings), spec.limits)
    requires UnusedBindings(Index(spec.plugins), BindingIndex(spec.bindings)) == {}
    requires !Acyclic(GraphDependencies(Index(spec.plugins), BindingIndex(spec.bindings)))
    requires e == DependencyCycle(ReportedCycle(GraphDependencies(Index(spec.plugins), BindingIndex(spec.bindings))))
    requires IsSimpleDependencyCycle(GraphDependencies(Index(spec.plugins), BindingIndex(spec.bindings)), e.cycle)
    ensures Explains(spec, e)
  {
    NoSelfArc(Index(spec.plugins), BindingIndex(spec.bindings), spec.limits);
    CycleLength(GraphDependencies(Index(spec.plugins), BindingIndex(spec.bindings)), e.cycle);
    hide PluginsOk, BindingsOk, SelectionOk, GraphDependencies, Acyclic, IsSimpleDependencyCycle, ReportedCycle,
      UnusedBindings;
  }
}
