/** Data of the composition resolver: descriptors, bindings, resolved graphs and errors.

    An identifier is used only through equality and its byte order, so it is
    represented by its rank in that order (module `Identifiers` proves that the
    rank exists and is faithful). A version is compared for equality only, and a
    version requirement is an arbitrary predicate on versions. */
module Model {
  import opened Ordering

  type PluginId = nat
  type CapabilityId = nat

  datatype Result<+T, +E> = Ok(value: T) | Err(error: E)
  datatype Option<+T> = None | Some(value: T)

  datatype Version = Version(major: nat, minor: nat, patch: nat, suffix: string)
  datatype VersionReq = VersionReq(matches: Version -> bool)

  datatype Cardinality = ExactlyOne | ZeroOrOne | ZeroOrMore | OneOrMore {
    predicate IsBindable() {
      ExactlyOne? || ZeroOrOne?
    }

    predicate PermitsZero() {
      ZeroOrOne? || ZeroOrMore?
    }
  }

  datatype Requirement = Requirement(version: VersionReq, cardinality: Cardinality)

  /** `offers` and `requirements` are keyed by capability, as in the source. */
  datatype PluginDescriptor = PluginDescriptor(
    id: PluginId,
    version: Version,
    offers: map<CapabilityId, Version>,
    requirements: map<CapabilityId, Requirement>,
    conflicts: set<PluginId>)

  datatype Binding = Binding(consumer: PluginId, capability: CapabilityId, provider: PluginId)

  datatype GraphLimits = GraphLimits(maxPlugins: nat, maxCapabilitiesPerPlugin: nat, maxEdges: nat)

  datatype CompositionSpec = CompositionSpec(
    schemaVersion: nat,
    limits: GraphLimits,
    plugins: seq<PluginDescriptor>,
    bindings: seq<Binding>)

  /** A requirement is identified by its consumer and capability. */
  type Key = (PluginId, CapabilityId)

  datatype ResolvedRequirement = ResolvedRequirement(
    consumer: PluginId,
    capability: CapabilityId,
    cardinality: Cardinality,
    providers: seq<PluginId>)

  datatype ResolvedEdge = ResolvedEdge(provider: PluginId, consumer: PluginId, capability: CapabilityId)

  datatype Diagnostic =
    | OptionalProviderMissing(consumer: PluginId, capability: CapabilityId)
    | UnselectedOffer(provider: PluginId, capability: CapabilityId)

  datatype ResolvedGraph = ResolvedGraph(
    plugins: map<PluginId, PluginDescriptor>,
    requirements: seq<ResolvedRequirement>,
    edges: seq<ResolvedEdge>,
    diagnostics: seq<Diagnostic>,
    startupOrder: seq<PluginId>)

  datatype LimitName = PluginsLimit | CapabilitiesLimit | EdgesLimit

  datatype ResolveError =
    | UnsupportedSchemaVersion(schema: nat, supportedSchema: nat)
    | ConfiguredLimitExceeded(limit: LimitName, configured: nat, absolute: nat)
    | PluginLimitExceeded(plugins: nat, maxPlugins: nat)
    | CapabilityLimitExceeded(plugin: PluginId, declarations: nat, maxDeclarations: nat)
    | EdgeLimitExceeded(edges: nat, maxEdges: nat)
    | DuplicatePlugin(plugin: PluginId)
    | PluginConflict(plugin: PluginId, conflict: PluginId)
    | SelfDependency(plugin: PluginId, capability: CapabilityId)
    | MissingProvider(consumer: PluginId, capability: CapabilityId)
    | IncompatibleProvider(consumer: PluginId, capability: CapabilityId, available: seq<(PluginId, Version)>)
    | AmbiguousProvider(consumer: PluginId, capability: CapabilityId, providers: seq<PluginId>)
    | UnknownBindingConsumer(consumer: PluginId)
    | UnknownBindingProvider(provider: PluginId)
    | UnusedBinding(consumer: PluginId, capability: CapabilityId)
    | BoundProviderDoesNotOffer(consumer: PluginId, capability: CapabilityId, provider: PluginId)
    | IncompatibleBinding(consumer: PluginId, capability: CapabilityId, provider: PluginId, provided: Version)
    | DuplicateBinding(consumer: PluginId, capability: CapabilityId)
    | BindingForMultiple(consumer: PluginId, capability: CapabilityId)
    | DependencyCycle(cycle: seq<PluginId>)

  /** Closure state of a runtime scope. */
  datatype ScopeState = Open | Closing | Closed

  const COMPOSITION_SCHEMA_VERSION: nat := 1
  const GRAPH_REPORT_SCHEMA_VERSION: nat := 1
  const ABSOLUTE_MAX_PLUGINS: nat := 65_536
  const ABSOLUTE_MAX_CAPABILITIES_PER_PLUGIN: nat := 4_096
  const ABSOLUTE_MAX_EDGES: nat := 1_048_576

  // The derived orders of the keys held in ordered collections.

  predicate IdLess(a: nat, b: nat) {
    a < b
  }

  predicate KeyLess(a: Key, b: Key) {
    a.0 < b.0 || (a.0 == b.0 && a.1 < b.1)
  }

  predicate EdgeLess(a: ResolvedEdge, b: ResolvedEdge) {
    || a.provider < b.provider
    || (a.provider == b.provider && KeyLess((a.consumer, a.capability), (b.consumer, b.capability)))
  }

  predicate DiagnosticLess(a: Diagnostic, b: Diagnostic) {
    match (a, b)
    case (OptionalProviderMissing(p, c), OptionalProviderMissing(q, d)) => KeyLess((p, c), (q, d))
    case (UnselectedOffer(p, c), UnselectedOffer(q, d)) => KeyLess((p, c), (q, d))
    case (OptionalProviderMissing(_, _), UnselectedOffer(_, _)) => true
    case (UnselectedOffer(_, _), OptionalProviderMissing(_, _)) => false
  }

  lemma IdOrder()
    ensures StrictTotal(IdLess)
  {
  }

  lemma KeyOrder()
    ensures StrictTotal(KeyLess)
  {
  }

  lemma EdgeOrder()
    ensures StrictTotal(EdgeLess)
  {
  }

  lemma DiagnosticOrder()
    ensures StrictTotal(DiagnosticLess)
  {
  }

  /** `pop_first` and the iteration order of a set of identifiers. */
  method First(s: set<PluginId>) returns (m: PluginId)
    requires s != {}
    ensures m in s && forall x :: x in s ==> m <= x
  {
    m :| m in s;
    var rest := s;
    while rest != {}
      invariant rest <= s && m in s && forall x :: x in s && x !in rest ==> m <= x
      decreases rest
    {
      var x :| x in rest;
      if x < m { m := x; }
      rest := rest - {x};
    }
  }
}
