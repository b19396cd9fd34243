/** What it means for a composition to be resolvable, and what its graph then is. */
module Composition {
  import opened Model
  import opened Ordering
  import opened Topology

  type Plugins = map<PluginId, PluginDescriptor>
  type Bindings = map<Key, PluginId>

  ghost predicate Keyed(plugins: Plugins) {
    forall p :: p in plugins ==> plugins[p].id == p
  }

  // ----- selection

  predicate Declares(plugins: Plugins, k: Key) {
    k.0 in plugins && k.1 in plugins[k.0].requirements
  }

  function RequirementAt(plugins: Plugins, k: Key): Requirement
    requires Declares(plugins, k)
  {
    plugins[k.0].requirements[k.1]
  }

  predicate Offers(plugins: Plugins, p: PluginId, capability: CapabilityId) {
    p in plugins && capability in plugins[p].offers
  }

  predicate IsCompatible(plugins: Plugins, k: Key, p: PluginId)
    requires Declares(plugins, k)
  {
    Offers(plugins, p, k.1) && RequirementAt(plugins, k).version.matches(plugins[p].offers[k.1])
  }

  ghost function Offering(plugins: Plugins, capability: CapabilityId): set<PluginId> {
    set p | p in plugins && Offers(plugins, p, capability)
  }

  ghost function Compatible(plugins: Plugins, k: Key): set<PluginId>
    requires Declares(plugins, k)
  {
    set p | p in plugins && IsCompatible(plugins, k, p)
  }

  /** A binding selects its provider; otherwise every compatible provider is selected. */
  ghost function Selected(plugins: Plugins, bindings: Bindings, k: Key): set<PluginId>
    requires Declares(plugins, k)
  {
    if k in bindings then {bindings[k]} else Compatible(plugins, k)
  }

  /** What each cardinality asks of a requirement, bound or not. */
  ghost predicate Selectable(plugins: Plugins, bindings: Bindings, k: Key)
    requires Declares(plugins, k)
  {
    match RequirementAt(plugins, k).cardinality
    case ExactlyOne => if k in bindings then IsCompatible(plugins, k, bindings[k]) else |Compatible(plugins, k)| == 1
    case ZeroOrOne => if k in bindings then IsCompatible(plugins, k, bindings[k]) else |Compatible(plugins, k)| <= 1
    case ZeroOrMore => k !in bindings
    case OneOrMore => k !in bindings && |Compatible(plugins, k)| >= 1
  }

  // ----- the resolved graph

  ghost function Keys(plugins: Plugins): set<Key> {
    set p, c | p in plugins && c in plugins[p].requirements :: (p, c)
  }

  ghost predicate AllDeclared(plugins: Plugins, keys: set<Key>) {
    forall k :: k in keys ==> Declares(plugins, k)
  }

  ghost function ResolvedAt(plugins: Plugins, bindings: Bindings, k: Key): ResolvedRequirement
    requires Declares(plugins, k)
  {
    IdOrder();
    ResolvedRequirement(k.0, k.1, RequirementAt(plugins, k).cardinality, Ascend(IdLess, Selected(plugins, bindings, k)))
  }

  ghost function ResolvedList(plugins: Plugins, bindings: Bindings, keys: seq<Key>): seq<ResolvedRequirement>
    requires forall k :: k in keys ==> Declares(plugins, k)
  {
    seq(|keys|, i requires 0 <= i < |keys| => assert keys[i] in keys; ResolvedAt(plugins, bindings, keys[i]))
  }

  ghost function EdgesFor(plugins: Plugins, bindings: Bindings, keys: set<Key>): set<ResolvedEdge>
    requires AllDeclared(plugins, keys)
  {
    set k, q | k in keys && q in Selected(plugins, bindings, k) :: ResolvedEdge(q, k.0, k.1)
  }

  /** An optional requirement that is left without a provider. */
  ghost predicate IsMissing(r: ResolvedRequirement) {
    r.providers == [] && (r.cardinality.ZeroOrOne? || r.cardinality.ZeroOrMore?)
  }

  ghost function DiagnosticsFor(plugins: Plugins, requirements: seq<ResolvedRequirement>,
      edges: seq<ResolvedEdge>): set<Diagnostic> {
    (set r | r in requirements && IsMissing(r)
       :: OptionalProviderMissing(r.consumer, r.capability))
    + (set p, c | p in plugins && c in plugins[p].offers && !IsSelected(edges, p, c) :: UnselectedOffer(p, c))
  }

  ghost predicate IsSelected(edges: seq<ResolvedEdge>, provider: PluginId, capability: CapabilityId) {
    exists e :: e in edges && e.provider == provider && e.capability == capability
  }

  ghost function GraphRequirements(plugins: Plugins, bindings: Bindings): seq<ResolvedRequirement> {
    KeyOrder();
    AscendProperties(KeyLess, Keys(plugins));
    ResolvedList(plugins, bindings, Ascend(KeyLess, Keys(plugins)))
  }

  ghost function GraphEdges(plugins: Plugins, bindings: Bindings): seq<ResolvedEdge> {
    EdgeOrder();
    Ascend(EdgeLess, EdgesFor(plugins, bindings, Keys(plugins)))
  }

  ghost function GraphDependencies(plugins: Plugins, bindings: Bindings): Dependencies {
    DependenciesOf(plugins.Keys, GraphEdges(plugins, bindings))
  }

  ghost predicate IsGraphOf(plugins: Plugins, bindings: Bindings, g: ResolvedGraph) {
    && g.plugins == plugins
    && g.requirements == GraphRequirements(plugins, bindings)
    && g.edges == GraphEdges(plugins, bindings)
    && (DiagnosticOrder(); g.diagnostics == Ascend(DiagnosticLess, DiagnosticsFor(plugins, g.requirements, g.edges)))
    && IsLeastTopological(GraphDependencies(plugins, bindings), g.startupOrder)
  }

  // ----- the declared inputs

  function DeclarationCount(d: PluginDescriptor): nat {
    |d.offers| + |d.requirements|
  }

  ghost predicate WithinCapabilityLimit(plugins: seq<PluginDescriptor>, limits: GraphLimits) {
    forall d :: d in plugins ==> DeclarationCount(d) <= limits.maxCapabilitiesPerPlugin
  }

  ghost predicate DistinctPlugins(plugins: seq<PluginDescriptor>) {
    forall i, j :: 0 <= i < j < |plugins| ==> plugins[i].id != plugins[j].id
  }

  ghost function Index(plugins: seq<PluginDescriptor>): Plugins {
    if plugins == [] then map[]
    else
      var last := plugins[|plugins| - 1];
      Index(plugins[..|plugins| - 1])[last.id := last]
  }

  function BindingKey(b: Binding): Key {
    (b.consumer, b.capability)
  }

  ghost predicate KnownBindings(plugins: Plugins, bindings: seq<Binding>) {
    forall b :: b in bindings ==> b.consumer in plugins && b.provider in plugins
  }

  ghost predicate DistinctBindings(bindings: seq<Binding>) {
    forall i, j :: 0 <= i < j < |bindings| ==> BindingKey(bindings[i]) != BindingKey(bindings[j])
  }

  ghost function BindingIndex(bindings: seq<Binding>): Bindings {
    if bindings == [] then map[]
    else
      var last := bindings[|bindings| - 1];
      BindingIndex(bindings[..|bindings| - 1])[BindingKey(last) := last.provider]
  }

  // ----- the stages of resolution

  ghost predicate SchemaOk(spec: CompositionSpec) {
    spec.schemaVersion == COMPOSITION_SCHEMA_VERSION
  }

  ghost predicate LimitsOk(spec: CompositionSpec) {
    && spec.limits.maxPlugins <= ABSOLUTE_MAX_PLUGINS
    && spec.limits.maxCapabilitiesPerPlugin <= ABSOLUTE_MAX_CAPABILITIES_PER_PLUGIN
    && spec.limits.maxEdges <= ABSOLUTE_MAX_EDGES
    && |spec.plugins| <= spec.limits.maxPlugins
  }

  ghost predicate PluginsOk(spec: CompositionSpec) {
    WithinCapabilityLimit(spec.plugins, spec.limits) && DistinctPlugins(spec.plugins)
  }

  ghost function Conflicts(plugins: Plugins): set<Key> {
    set p, c | p in plugins && c in plugins[p].conflicts && c in plugins :: (p, c)
  }

  ghost function SelfDependencies(plugins: Plugins): set<Key> {
    set p, c | p in plugins && c in plugins[p].requirements && c in plugins[p].offers :: (p, c)
  }

  ghost predicate BindingsOk(plugins: Plugins, bindings: seq<Binding>) {
    KnownBindings(plugins, bindings) && DistinctBindings(bindings)
  }

  ghost predicate SelectionOk(plugins: Plugins, bindings: Bindings, limits: GraphLimits) {
    && (forall k :: k in Keys(plugins) ==> Selectable(plugins, bindings, k))
    && |EdgesFor(plugins, bindings, Keys(plugins))| <= limits.maxEdges
  }

  ghost function UnusedBindings(plugins: Plugins, bindings: Bindings): set<Key> {
    bindings.Keys - Keys(plugins)
  }

  /** The composition contract, stated without reference to the order of the inputs. */
  ghost predicate Composable(spec: CompositionSpec) {
    var plugins, bindings := Index(spec.plugins), BindingIndex(spec.bindings);
    && SchemaOk(spec) && LimitsOk(spec) && PluginsOk(spec)
    && Conflicts(plugins) == {} && SelfDependencies(plugins) == {}
    && BindingsOk(plugins, spec.bindings)
    && SelectionOk(plugins, bindings, spec.limits)
    && UnusedBindings(plugins, bindings) == {}
    && Acyclic(GraphDependencies(plugins, bindings))
  }

  ghost predicate IsResolution(spec: CompositionSpec, g: ResolvedGraph) {
    IsGraphOf(Index(spec.plugins), BindingIndex(spec.bindings), g)
  }
}
