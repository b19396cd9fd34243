/** What every resolved graph satisfies. */
module GraphFacts {
  import opened Model
  import opened Ordering
  import opened Topology
  import opened Composition
  import opened Inputs
  import opened Resolver

  ghost predicate ResolvedFrom(spec: CompositionSpec, g: ResolvedGraph) {
    Composable(spec) && IsResolution(spec, g)
  }

  function KeyOf(r: ResolvedRequirement): Key {
    (r.consumer, r.capability)
  }

  /** By consumer, then by capability, without repeats. */
  ghost predicate KeysAscend(rs: seq<ResolvedRequirement>) {
    forall i, j :: 0 <= i < j < |rs| ==>
        || rs[i].consumer < rs[j].consumer
        || (rs[i].consumer == rs[j].consumer && rs[i].capability < rs[j].capability)
  }

  /** By provider, then by consumer, then by capability, without repeats. */
  ghost predicate EdgesAscend(es: seq<ResolvedEdge>) {
    forall i, j :: 0 <= i < j < |es| ==>
        || es[i].provider < es[j].provider
        || (es[i].provider == es[j].provider && es[i].consumer < es[j].consumer)
        || (es[i].provider == es[j].provider && es[i].consumer == es[j].consumer && es[i].capability < es[j].capability)
  }

  /** Missing optional providers by consumer and capability, then unselected offers by
      provider and capability, without repeats. */
  ghost predicate DiagnosticsAscend(ds: seq<Diagnostic>) {
    && (forall i, j :: 0 <= i < j < |ds| && ds[i].UnselectedOffer? ==> ds[j].UnselectedOffer?)
    && (forall i, j :: 0 <= i < j < |ds| && ds[i].OptionalProviderMissing? && ds[j].OptionalProviderMissing? ==>
          || ds[i].consumer < ds[j].consumer
          || (ds[i].consumer == ds[j].consumer && ds[i].capability < ds[j].capability))
    && (forall i, j :: 0 <= i < j < |ds| && ds[i].UnselectedOffer? && ds[j].UnselectedOffer? ==>
          || ds[i].provider < ds[j].provider
          || (ds[i].provider == ds[j].provider && ds[i].capability < ds[j].capability))
  }

  lemma IndexFacts(spec: CompositionSpec)
    requires PluginsOk(spec) && BindingsOk(Index(spec.plugins), spec.bindings)
    ensures Keyed(Index(spec.plugins)) && BoundToPlugins(Index(spec.plugins), BindingIndex(spec.bindings))
  {
    var plugins, bindings := Index(spec.plugins), BindingIndex(spec.bindings);
    forall p | p in plugins ensures plugins[p].id == p { IndexKeys(spec.plugins, p); }
    forall k | k in bindings ensures bindings[k] in plugins { BindingIndexKeys(spec.bindings, k); }
  }

  // ----- requirements

  /** The requirements of a graph are its declared keys in strict order, each resolved. */
  lemma RequirementsAreKeys(plugins: Plugins, bindings: Bindings, g: ResolvedGraph)
    requires g.requirements == GraphRequirements(plugins, bindings)
    ensures KeysAscend(g.requirements)
    ensures forall i :: 0 <= i < |g.requirements| ==>
              Declares(plugins, KeyOf(g.requirements[i]))
                  && g.requirements[i] == ResolvedAt(plugins, bindings, KeyOf(g.requirements[i]))
    ensures forall k :: k in Keys(plugins) ==> exists i :: 0 <= i < |g.requirements| && KeyOf(g.requirements[i]) == k
  {
    KeyOrder();
    var keys := Ascend(KeyLess, Keys(plugins));
    AscendProperties(KeyLess, Keys(plugins));
    assert |g.requirements| == |keys|;
    forall i | 0 <= i < |keys|
      ensures Declares(plugins, keys[i]) && g.requirements[i] == ResolvedAt(plugins, bindings, keys[i])
    {
      assert keys[i] in keys;
    }
    forall k | k in Keys(plugins)
      ensures exists i :: 0 <= i < |g.requirements| && KeyOf(g.requirements[i]) == k
    {
      var i :| 0 <= i < |keys| && keys[i] == k;
      assert KeyOf(g.requirements[i]) == k;
    }
  }

  ghost predicate CardinalityHolds(r: ResolvedRequirement) {
    match r.cardinality
    case ExactlyOne => |r.providers| == 1
    case ZeroOrOne => |r.providers| <= 1
    case ZeroOrMore => true
    case OneOrMore => |r.providers| >= 1
  }

  /** What a resolved requirement says about its declaration and its providers. */
  ghost predicate RequirementFacts(g: ResolvedGraph, r: ResolvedRequirement) {
    && Declares(g.plugins, KeyOf(r)) && r.cardinality == RequirementAt(g.plugins, KeyOf(r)).cardinality
    && CardinalityHolds(r)
    && (forall i, j :: 0 <= i < j < |r.providers| ==> r.providers[i] < r.providers[j])
    && (forall q :: q in r.providers ==> IsCompatible(g.plugins, KeyOf(r), q))
  }

  lemma RequirementIsFactual(spec: CompositionSpec, g: ResolvedGraph, i: nat)
    requires ResolvedFrom(spec, g) && i < |g.requirements|
    ensures RequirementFacts(g, g.requirements[i])
  {
    var plugins, bindings := Index(spec.plugins), BindingIndex(spec.bindings);
    hide GraphRequirements, GraphEdges, GraphDependencies, IsLeastTopological, DiagnosticsFor, EdgesFor, Acyclic;
    RequirementsAreKeys(plugins, bindings, g);
    var k := KeyOf(g.requirements[i]);
    assert k in Keys(plugins);
    assert Selectable(plugins, bindings, k);
    ResolvedIsFactual(g, plugins, bindings, k);
  }

  lemma ResolvedIsFactual(g: ResolvedGraph, plugins: Plugins, bindings: Bindings, k: Key)
    requires g.plugins == plugins && Declares(plugins, k) && Selectable(plugins, bindings, k)
    ensures RequirementFacts(g, ResolvedAt(plugins, bindings, k))
  {
    IdOrder();
    AscendProperties(IdLess, Selected(plugins, bindings, k));
    if k in bindings {
      assert |{bindings[k]}| == 1;
    }
    var providers := Ascend(IdLess, Selected(plugins, bindings, k));
    forall i, j | 0 <= i < j < |providers|
      ensures providers[i] < providers[j]
    {
      assert IdLess(providers[i], providers[j]);
    }
  }

  // ----- indexed lookup

  /** `binary_search_by` over the requirement keys. */
  function Search(rs: seq<ResolvedRequirement>, k: Key, lo: nat, hi: nat): Option<ResolvedRequirement>
    requires lo <= hi <= |rs|
    decreases hi - lo
  {
    if lo == hi then None
    else
      var mid := (lo + hi) / 2;
      if KeyOf(rs[mid]) == k then Some(rs[mid])
      else if KeyLess(KeyOf(rs[mid]), k) then Search(rs, k, mid + 1, hi)
      else Search(rs, k, lo, mid)
  }

  function FindRequirement(g: ResolvedGraph, consumer: PluginId,
      capability: CapabilityId): Option<ResolvedRequirement> {
    Search(g.requirements, (consumer, capability), 0, |g.requirements|)
  }

  function Scan(rs: seq<ResolvedRequirement>, k: Key): Option<ResolvedRequirement> {
    if rs == [] then None else if KeyOf(rs[0]) == k then Some(rs[0]) else Scan(rs[1..], k)
  }

  lemma {:induction false} ScanFinds(rs: seq<ResolvedRequirement>, k: Key)
    ensures Scan(rs, k).Some? ==> Scan(rs, k).value in rs && KeyOf(Scan(rs, k).value) == k
    ensures Scan(rs, k).None? ==> forall i :: 0 <= i < |rs| ==> KeyOf(rs[i]) != k
  {
    if rs != [] && KeyOf(rs[0]) != k {
      ScanFinds(rs[1..], k);
      if Scan(rs, k).None? {
        forall i | 0 <= i < |rs| ensures KeyOf(rs[i]) != k {
          if i > 0 { assert rs[i] == rs[1..][i - 1]; }
        }
      }
    }
  }

  lemma {:induction false} SearchFinds(rs: seq<ResolvedRequirement>, k: Key, lo: nat, hi: nat)
    requires KeysAscend(rs) && lo <= hi <= |rs|
    ensures Search(rs, k, lo, hi).Some? ==>
        exists i :: lo <= i < hi && rs[i] == Search(rs, k, lo, hi).value && KeyOf(rs[i]) == k
    ensures Search(rs, k, lo, hi).None? ==> forall i :: lo <= i < hi ==> KeyOf(rs[i]) != k
    decreases hi - lo
  {
    if lo < hi {
      var mid := (lo + hi) / 2;
      if KeyOf(rs[mid]) == k {
      } else if KeyLess(KeyOf(rs[mid]), k) {
        SearchFinds(rs, k, mid + 1, hi);
      } else {
        SearchFinds(rs, k, lo, mid);
      }
    }
  }

  /** On strictly ordered requirements the binary search is the linear scan. */
  lemma SearchIsScan(rs: seq<ResolvedRequirement>, k: Key)
    requires KeysAscend(rs)
    ensures Search(rs, k, 0, |rs|) == Scan(rs, k)
  {
    SearchFinds(rs, k, 0, |rs|);
    ScanFinds(rs, k);
    if Search(rs, k, 0, |rs|).Some? {
      var i :| 0 <= i < |rs| && rs[i] == Search(rs, k, 0, |rs|).value && KeyOf(rs[i]) == k;
      var j :| 0 <= j < |rs| && rs[j] == Scan(rs, k).value;
      assert i == j;
    }
  }

  /** Lookup finds exactly the declared requirements, and the entry is the resolved one. */
  lemma LookupFindsDeclared(spec: CompositionSpec, g: ResolvedGraph, k: Key)
    requires ResolvedFrom(spec, g)
    ensures FindRequirement(g, k.0, k.1) == Scan(g.requirements, k)
    ensures FindRequirement(g, k.0, k.1).Some? <==> Declares(g.plugins, k)
    ensures FindRequirement(g, k.0, k.1).Some? ==>
              && KeyOf(FindRequirement(g, k.0, k.1).value) == k
              && RequirementFacts(g, FindRequirement(g, k.0, k.1).value)
  {
    var plugins, bindings := Index(spec.plugins), BindingIndex(spec.bindings);
    hide GraphRequirements, GraphEdges, GraphDependencies, IsLeastTopological, DiagnosticsFor, EdgesFor, Acyclic,
      SelectionOk, RequirementFacts;
    RequirementsAreKeys(plugins, bindings, g);
    SearchIsScan(g.requirements, k);
    ScanFinds(g.requirements, k);
    assert Declares(plugins, k) <==> k in Keys(plugins);
    if Scan(g.requirements, k).Some? {
      var i :| 0 <= i < |g.requirements| && g.requirements[i] == Scan(g.requirements, k).value;
      RequirementIsFactual(spec, g, i);
    }
  }

  // ----- edges

  /** `e` comes from a provider of the requirement with its consumer and capability. */
  ghost predicate Flattens(requirements: seq<ResolvedRequirement>, e: ResolvedEdge) {
    exists i :: 0 <= i < |requirements| && KeyOf(requirements[i]) == (e.consumer, e.capability)
        && e.provider in requirements[i].providers
  }

  lemma EdgeIsFlattened(spec: CompositionSpec, g: ResolvedGraph, e: ResolvedEdge)
    requires ResolvedFrom(spec, g)
    ensures e in g.edges <==> Flattens(g.requirements, e)
  {
    var plugins, bindings := Index(spec.plugins), BindingIndex(spec.bindings);
    hide GraphRequirements, GraphEdges, GraphDependencies, IsLeastTopological, DiagnosticsFor, EdgesFor, Acyclic,
      SelectionOk;
    RequirementsAreKeys(plugins, bindings, g);
    GraphEdgeMembers(plugins, bindings, e);
    var k := (e.consumer, e.capability);
    if Declares(plugins, k) {
      assert k in Keys(plugins);
      IdOrder();
      AscendProperties(IdLess, Selected(plugins, bindings, k));
    }
  }

  /** The edges are strictly sorted and are the requirements' providers, flattened. */
  lemma EdgesFlattenRequirements(spec: CompositionSpec, g: ResolvedGraph)
    requires ResolvedFrom(spec, g)
    ensures EdgesAscend(g.edges)
    ensures forall e :: e in g.edges <==> Flattens(g.requirements, e)
  {
    var plugins, bindings := Index(spec.plugins), BindingIndex(spec.bindings);
    EdgeOrder();
    AscendProperties(EdgeLess, EdgesFor(plugins, bindings, Keys(plugins)));
    hide Composable, EdgesFor, Flattens;
    forall e ensures e in g.edges <==> Flattens(g.requirements, e) { EdgeIsFlattened(spec, g, e); }
  }

  ghost function ProviderCount(rs: seq<ResolvedRequirement>): nat {
    if rs == [] then 0 else ProviderCount(rs[..|rs| - 1]) + |rs[|rs| - 1].providers|
  }

  /** Edges under distinct keys are distinct, so their number is the provider total. */
  lemma {:induction false} EdgeTotal(plugins: Plugins, bindings: Bindings, keys: seq<Key>)
    requires NoRepeats(keys) && forall k :: k in keys ==> Declares(plugins, k)
    ensures |EdgesFor(plugins, bindings, Elements(keys))| == ProviderCount(ResolvedList(plugins, bindings, keys))
  {
    hide EdgesFor, Requirements.NewEdges, ResolvedAt, ResolvedList, ProviderCount;
    if keys == [] {
      NoEdges(plugins, bindings, keys);
    } else {
      var n := |keys| - 1;
      var k, rest := keys[n], keys[..n];
      assert keys[n] in keys;
      EdgeTotal(plugins, bindings, rest);
      assert Elements(keys) == Elements(rest) + {k};
      Requirements.EdgesAppend(plugins, bindings, Elements(rest), k);
      NewEdgeCount(plugins, bindings, k);
      LastProviders(plugins, bindings, keys);
    }
  }

  lemma NoEdges(plugins: Plugins, bindings: Bindings, keys: seq<Key>)
    requires keys == []
    ensures EdgesFor(plugins, bindings, Elements(keys)) == {} && ProviderCount(ResolvedList(plugins, bindings, keys)) == 0
  {
  }

  lemma LastProviders(plugins: Plugins, bindings: Bindings, keys: seq<Key>)
    requires keys != [] && forall k :: k in keys ==> Declares(plugins, k)
    ensures var n := |keys| - 1;
            ProviderCount(ResolvedList(plugins, bindings, keys)) ==
              ProviderCount(ResolvedList(plugins, bindings, keys[..n]))
                  + |ResolvedAt(plugins, bindings, keys[n]).providers|
  {
    var n := |keys| - 1;
    assert keys[n] in keys;
    assert ResolvedList(plugins, bindings, keys)[..n] == ResolvedList(plugins, bindings, keys[..n]);
    hide ResolvedAt;
  }

  lemma {:induction false} ImageSize(s: set<PluginId>, k: Key)
    ensures |set q | q in s :: ResolvedEdge(q, k.0, k.1)| == |s|
  {
    if s != {} {
      var x :| x in s;
      ImageSize(s - {x}, k);
      assert (set q | q in s :: ResolvedEdge(q, k.0, k.1)) == (set q | q in s - {x} :: ResolvedEdge(q, k.0, k.1))
          + {ResolvedEdge(x, k.0, k.1)};
    }
  }

  lemma NewEdgeCount(plugins: Plugins, bindings: Bindings, k: Key)
    requires Declares(plugins, k)
    ensures |Requirements.NewEdges(plugins, bindings, k)| == |ResolvedAt(plugins, bindings, k).providers|
  {
    IdOrder();
    ImageSize(Selected(plugins, bindings, k), k);
    AscendProperties(IdLess, Selected(plugins, bindings, k));
  }

  /** Conservation: one edge for each selected provider, all of them within the limit. */
  lemma EdgeCountIsProviderCount(spec: CompositionSpec, g: ResolvedGraph)
    requires ResolvedFrom(spec, g)
    ensures |g.edges| == ProviderCount(g.requirements) <= spec.limits.maxEdges
    ensures EdgesAscend(g.edges)
  {
    hide Acyclic, IsLeastTopological, GraphDependencies, DiagnosticsFor, ResolvedAt, Index, BindingIndex, BindingsOk,
      PluginsOk, Conflicts, SelfDependencies, UnusedBindings, Selectable;
    var plugins, bindings := Index(spec.plugins), BindingIndex(spec.bindings);
    KeyOrder();
    EdgeOrder();
    var keys := Ascend(KeyLess, Keys(plugins));
    AscendProperties(KeyLess, Keys(plugins));
    AscendProperties(EdgeLess, EdgesFor(plugins, bindings, Keys(plugins)));
    assert Elements(keys) == Keys(plugins);
    NoRepeatsWhenAscending(keys);
    EdgeTotal(plugins, bindings, keys);
  }

  lemma NoRepeatsWhenAscending(keys: seq<Key>)
    requires Ascending(KeyLess, keys)
    ensures NoRepeats(keys)
  {
    forall i, j | 0 <= i < j < |keys| ensures keys[i] != keys[j] { assert KeyLess(keys[i], keys[j]); }
  }

  // ----- diagnostics

  /** A diagnostic is listed exactly for a requirement without providers and for an offer
      without a selecting edge; the list is strictly ordered. */
  lemma DiagnosticsAreExact(spec: CompositionSpec, g: ResolvedGraph, p: PluginId, c: CapabilityId)
    requires ResolvedFrom(spec, g)
    ensures OptionalProviderMissing(p, c) in g.diagnostics <==>
            exists i :: 0 <= i < |g.requirements| && KeyOf(g.requirements[i]) == (p, c)
                && g.requirements[i].providers == []
    ensures UnselectedOffer(p, c) in g.diagnostics <==> Offers(g.plugins, p, c) && !IsSelected(g.edges, p, c)
    ensures DiagnosticsAscend(g.diagnostics)
  {
    hide Composable, IsResolution, StrictTotal, Ascend, DiagnosticsFor;
    DiagnosticListIs(spec, g);
    AscendProperties(DiagnosticLess, DiagnosticsFor(g.plugins, g.requirements, g.edges));
    DiagnosticMembers(g.plugins, g.requirements, g.edges, p, c);
    forall i | 0 <= i < |g.requirements| && KeyOf(g.requirements[i]) == (p, c) && g.requirements[i].providers == []
      ensures IsMissing(g.requirements[i])
    {
      RequirementIsFactual(spec, g, i);
    }
  }

  lemma DiagnosticListIs(spec: CompositionSpec, g: ResolvedGraph)
    requires ResolvedFrom(spec, g)
    ensures StrictTotal(DiagnosticLess)
    ensures g.diagnostics == Ascend(DiagnosticLess, DiagnosticsFor(g.plugins, g.requirements, g.edges))
  {
    DiagnosticOrder();
  }

  lemma DiagnosticMembers(plugins: Plugins, rs: seq<ResolvedRequirement>, edges: seq<ResolvedEdge>, p: PluginId,
      c: CapabilityId)
    ensures OptionalProviderMissing(p, c) in DiagnosticsFor(plugins, rs, edges) <==>
            exists i :: 0 <= i < |rs| && KeyOf(rs[i]) == (p, c) && IsMissing(rs[i])
    ensures UnselectedOffer(p, c) in DiagnosticsFor(plugins, rs, edges) <==>
        Offers(plugins, p, c) && !IsSelected(edges, p, c)
  {
    if i :| 0 <= i < |rs| && KeyOf(rs[i]) == (p, c) && IsMissing(rs[i]) {
      assert rs[i] in rs;
    }
  }

  // ----- startup order

  ghost predicate Precedes(order: seq<PluginId>, q: PluginId, p: PluginId) {
    exists i, j :: 0 <= i < j < |order| && order[i] == q && order[j] == p
  }

  /** The startup order lists every plugin once, and providers before consumers. */
  lemma ProvidersStartFirst(spec: CompositionSpec, g: ResolvedGraph)
    requires ResolvedFrom(spec, g)
    ensures NoRepeats(g.startupOrder)
    ensures forall p :: p in g.startupOrder <==> p in g.plugins
    ensures forall i, q :: 0 <= i < |g.requirements| && q in g.requirements[i].providers
              ==> Precedes(g.startupOrder, q, g.requirements[i].consumer)
  {
    var plugins, bindings := Index(spec.plugins), BindingIndex(spec.bindings);
    var deps := GraphDependencies(plugins, bindings);
    forall i, q: PluginId | 0 <= i < |g.requirements| && q in g.requirements[i].providers
      ensures Precedes(g.startupOrder, q, g.requirements[i].consumer)
    {
      var e := ResolvedEdge(q, g.requirements[i].consumer, g.requirements[i].capability);
      EdgeIsFlattened(spec, g, e);
      assert e in g.edges;
      EdgeOrdersStartup(spec, g, e);
    }
  }

  lemma EdgeOrdersStartup(spec: CompositionSpec, g: ResolvedGraph, e: ResolvedEdge)
    requires ResolvedFrom(spec, g) && e in g.edges
    ensures Precedes(g.startupOrder, e.provider, e.consumer)
  {
    var plugins, bindings := Index(spec.plugins), BindingIndex(spec.bindings);
    var deps := GraphDependencies(plugins, bindings);
    IndexFacts(spec);
    GraphEdgesWithin(plugins, bindings);
    assert HasEdge(g.edges, e.provider, e.consumer) by {
      assert ResolvedEdge(e.provider, e.consumer, e.capability) in g.edges;
    }
    assert DependsOn(deps, e.consumer, e.provider);
    hide GraphEdges, GraphRequirements, GraphDependencies, Composable, DiagnosticsFor;
    var order := g.startupOrder;
    assert e.consumer in order;
    var j :| 0 <= j < |order| && order[j] == e.consumer;
    assert deps[order[j]] <= Elements(order[..j]);
    var i :| 0 <= i < j && order[i] == e.provider;
  }
}
