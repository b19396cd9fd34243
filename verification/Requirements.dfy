/** The provider index and the requirement loop of resolution. */
module Requirements {
  import opened Model
  import opened Ordering
  import opened Composition
  import opened Selection

  // ----- the provider index

  type Providers = map<CapabilityId, seq<Candidate>>

  function Lookup(providers: Providers, capability: CapabilityId): seq<Candidate> {
    if capability in providers then providers[capability] else []
  }

  ghost predicate Indexes(plugins: Plugins, done: set<PluginId>, providers: Providers) {
    forall capability :: Lists(plugins, done, capability, Lookup(providers, capability))
  }

  /** Candidate lists by capability, each in ascending plugin order. */
  method CollectCandidates(plugins: Plugins) returns (providers: Providers)
    ensures Indexes(plugins, plugins.Keys, providers)
  {
    hide Lists;
    providers := map[];
    NothingListed(plugins);
    var todo := plugins.Keys;
    ghost var done: set<PluginId> := {};
    while todo != {}
      invariant todo !! done && todo + done == plugins.Keys
      invariant forall x, y :: x in done && y in todo ==> x < y
      invariant Indexes(plugins, done, providers)
      decreases todo
    {
      var p := First(todo);
      ghost var before := providers;
      var offered := plugins[p].offers.Keys;
      while offered != {}
        invariant offered <= plugins[p].offers.Keys
        invariant forall c :: if c in plugins[p].offers && c !in offered
                    then Lists(plugins, done + {p}, c, Lookup(providers, c))
                    else Lookup(providers, c) == Lookup(before, c)
        decreases offered
      {
        var capability := First(offered);
        AppendCandidate(plugins, done, capability, Lookup(providers, capability), p);
        providers := providers[capability := Lookup(providers, capability)
            + [Candidate(p, plugins[p].offers[capability])]];
        offered := offered - {capability};
      }
      forall c ensures Lists(plugins, done + {p}, c, Lookup(providers, c)) {
        if c !in plugins[p].offers { NotOffered(plugins, done, c, Lookup(before, c), p); }
      }
      todo, done := todo - {p}, done + {p};
    }
    assert done == plugins.Keys;
  }

  lemma NothingListed(plugins: Plugins)
    ensures Indexes(plugins, {}, map[])
  {
  }

  lemma AppendCandidate(plugins: Plugins, done: set<PluginId>, capability: CapabilityId, candidates: seq<Candidate>,
      p: PluginId)
    requires Lists(plugins, done, capability, candidates) && Offers(plugins, p, capability)
    requires forall x :: x in done ==> x < p
    ensures Lists(plugins, done + {p}, capability, candidates + [Candidate(p, plugins[p].offers[capability])])
  {
    var last := Candidate(p, plugins[p].offers[capability]);
    forall i | 0 <= i < |candidates|
      ensures candidates[i].plugin < p
    {
      assert candidates[i] in candidates;
    }
    var all := PluginsOf(candidates + [last]);
    assert forall i :: 0 <= i < |candidates| ==> all[i] == PluginsOf(candidates)[i];
    forall c
      ensures c in candidates + [last] <==>
              c.plugin in done + {p} && Offers(plugins, c.plugin, capability)
                  && c.version == plugins[c.plugin].offers[capability]
    {
      assert c in candidates + [last] <==> c in candidates || c == last;
    }
  }

  lemma NotOffered(plugins: Plugins, done: set<PluginId>, capability: CapabilityId, candidates: seq<Candidate>,
      p: PluginId)
    requires Lists(plugins, done, capability, candidates) && !Offers(plugins, p, capability)
    ensures Lists(plugins, done + {p}, capability, candidates)
  {
  }

  // ----- the requirement loop

  /** The accumulators after the requirements in `done`. */
  ghost predicate Accumulated(plugins: Plugins, bindings: Bindings, done: set<Key>, maxEdges: nat,
                              requirements: seq<ResolvedRequirement>, edges: set<ResolvedEdge>, used: set<Key>) {
    && AllDeclared(plugins, done)
    && (forall k :: k in done ==> Selectable(plugins, bindings, k))
    && requirements == ListOf(plugins, bindings, done)
    && edges == EdgesFor(plugins, bindings, done) && |edges| <= maxEdges
    && used == done * bindings.Keys
  }

  ghost function ListOf(plugins: Plugins, bindings: Bindings, done: set<Key>): seq<ResolvedRequirement>
    requires AllDeclared(plugins, done)
  {
    KeyOrder();
    AscendProperties(KeyLess, done);
    ResolvedList(plugins, bindings, Ascend(KeyLess, done))
  }

  ghost function NewEdges(plugins: Plugins, bindings: Bindings, k: Key): set<ResolvedEdge>
    requires Declares(plugins, k)
  {
    set q | q in Selected(plugins, bindings, k) :: ResolvedEdge(q, k.0, k.1)
  }

  ghost predicate Above(done: set<Key>, k: Key) {
    forall j :: j in done ==> KeyLess(j, k)
  }

  lemma {:induction false} AscendAppend(done: set<Key>, k: Key)
    requires StrictTotal(KeyLess) && Above(done, k)
    ensures Ascend(KeyLess, done + {k}) == Ascend(KeyLess, done) + [k]
  {
    AscendProperties(KeyLess, done);
    AscendProperties(KeyLess, done + {k});
    var s := Ascend(KeyLess, done) + [k];
    assert Ascending(KeyLess, s);
    hide Ascending, Ascend, KeyLess, Above, StrictTotal;
    forall x ensures x in s <==> x in done + {k} {}
    AscendingUnique(KeyLess, Ascend(KeyLess, done + {k}), s);
  }

  lemma ListAppend(plugins: Plugins, bindings: Bindings, done: set<Key>, k: Key)
    requires AllDeclared(plugins, done) && Declares(plugins, k) && Above(done, k)
    ensures ListOf(plugins, bindings, done + {k}) == ListOf(plugins, bindings, done)
        + [ResolvedAt(plugins, bindings, k)]
  {
    KeyOrder();
    AscendAppend(done, k);
    AscendProperties(KeyLess, done);
    AscendProperties(KeyLess, done + {k});
    hide StrictTotal, Ascending, Ascend, ResolvedAt, Above;
    ResolvedListAppend(plugins, bindings, Ascend(KeyLess, done), k);
  }

  lemma ResolvedListAppend(plugins: Plugins, bindings: Bindings, keys: seq<Key>, k: Key)
    requires Declares(plugins, k) && forall j :: j in keys ==> Declares(plugins, j)
    ensures forall j :: j in keys + [k] ==> Declares(plugins, j)
    ensures ResolvedList(plugins, bindings, keys + [k]) == ResolvedList(plugins, bindings, keys)
        + [ResolvedAt(plugins, bindings, k)]
  {
  }

  lemma EdgesAppend(plugins: Plugins, bindings: Bindings, done: set<Key>, k: Key)
    requires AllDeclared(plugins, done) && Declares(plugins, k)
    ensures EdgesFor(plugins, bindings, done + {k}) == EdgesFor(plugins, bindings, done)
        + NewEdges(plugins, bindings, k)
    ensures k !in done ==> EdgesFor(plugins, bindings, done) !! NewEdges(plugins, bindings, k)
  {
  }

  /** Adds one edge for each selected provider, stopping at the first one over the limit. */
  method InsertEdges(edges0: set<ResolvedEdge>, selected: seq<PluginId>, k: Key, maxEdges: nat)
    returns (r: Result<set<ResolvedEdge>, ResolveError>)
    requires |edges0| <= maxEdges
    ensures var all := edges0 + set q | q in selected :: ResolvedEdge(q, k.0, k.1);
            && (r.Ok? <==> |all| <= maxEdges)
            && (r.Ok? ==> r.value == all)
            && (r.Err? ==> r.error == EdgeLimitExceeded(maxEdges + 1, maxEdges))
  {
    var edges := edges0;
    ghost var all := edges0 + set q | q in selected :: ResolvedEdge(q, k.0, k.1);
    for i := 0 to |selected|
      invariant edges0 <= edges <= all
      invariant forall j :: 0 <= j < i ==> ResolvedEdge(selected[j], k.0, k.1) in edges
      invariant |edges| <= maxEdges
    {
      var edge := ResolvedEdge(selected[i], k.0, k.1);
      assert selected[i] in selected;
      edges := edges + {edge};
      if |edges| > maxEdges {
        SubsetSize(edges, all);
        return Err(EdgeLimitExceeded(|edges|, maxEdges));
      }
    }
    assert edges == all;
    return Ok(edges);
  }

  /** Requirement `k` is the first to fail, with this error; all smaller ones were resolved. */
  ghost predicate FailsAt(plugins: Plugins, bindings: Bindings, done: set<Key>, k: Key, maxEdges: nat,
      e: ResolveError) {
    && AllDeclared(plugins, done) && Declares(plugins, k)
    && done == (set j | j in Keys(plugins) && KeyLess(j, k))
    && (forall j :: j in done ==> Selectable(plugins, bindings, j))
    && |EdgesFor(plugins, bindings, done)| <= maxEdges
    && if Selectable(plugins, bindings, k) then
         e == EdgeLimitExceeded(maxEdges + 1, maxEdges) && |EdgesFor(plugins, bindings, done + {k})| > maxEdges
       else
         SelectionFails(plugins, bindings, k, e)
  }

  lemma AccumulateOne(plugins: Plugins, bindings: Bindings, done: set<Key>, maxEdges: nat,
                      requirements: seq<ResolvedRequirement>, edges: set<ResolvedEdge>, used: set<Key>,
                      k: Key, selected: seq<PluginId>, edges': set<ResolvedEdge>)
    requires Accumulated(plugins, bindings, done, maxEdges, requirements, edges, used)
    requires Declares(plugins, k) && Above(done, k) && Selectable(plugins, bindings, k)
    requires StrictTotal(IdLess) && selected == Ascend(IdLess, Selected(plugins, bindings, k))
    requires edges' == edges + NewEdges(plugins, bindings, k) && |edges'| <= maxEdges
    ensures Accumulated(plugins, bindings, done + {k}, maxEdges,
              requirements + [ResolvedRequirement(k.0, k.1, RequirementAt(plugins, k).cardinality, selected)],
              edges', if k in bindings then used + {k} else used)
  {
    hide Selectable, EdgesFor, ListOf, Ascend, StrictTotal, NewEdges, Above, Selected, ResolvedAt;
    ListAppend(plugins, bindings, done, k);
    EdgesAppend(plugins, bindings, done, k);
    ResolvedAtIs(plugins, bindings, k, selected);
    UsedAppend(done, bindings, k);
  }

  lemma ResolvedAtIs(plugins: Plugins, bindings: Bindings, k: Key, selected: seq<PluginId>)
    requires Declares(plugins, k) && StrictTotal(IdLess) && selected == Ascend(IdLess, Selected(plugins, bindings, k))
    ensures ResolvedAt(plugins, bindings, k) == ResolvedRequirement(k.0, k.1, RequirementAt(plugins, k).cardinality,
        selected)
  {
    hide StrictTotal, Selected, Ascend;
  }

  lemma UsedAppend(done: set<Key>, bindings: Bindings, k: Key)
    ensures (done + {k}) * bindings.Keys == if k in bindings then done * bindings.Keys + {k} else done * bindings.Keys
  {
  }

  lemma SelectedEdges(plugins: Plugins, bindings: Bindings, k: Key, selected: seq<PluginId>)
    requires Declares(plugins, k) && StrictTotal(IdLess) && selected == Ascend(IdLess, Selected(plugins, bindings, k))
    ensures (set q | q in selected :: ResolvedEdge(q, k.0, k.1)) == NewEdges(plugins, bindings, k)
  {
    AscendProperties(IdLess, Selected(plugins, bindings, k));
  }

  /** The keys of the plugins before `p`, and of `p` itself outside `required`. */
  ghost predicate DoneBefore(plugins: Plugins, done: set<Key>, p: PluginId, required: set<CapabilityId>) {
    && p in plugins && required <= plugins[p].requirements.Keys
    && (forall x, y :: x in plugins[p].requirements && x !in required && y in required ==> x < y)
    && forall k :: k in done <==> k in Keys(plugins) && (k.0 < p || (k.0 == p && k.1 !in required))
  }

  lemma LeastRequiredIsNext(plugins: Plugins, done: set<Key>, p: PluginId, required: set<CapabilityId>, c: CapabilityId)
    requires DoneBefore(plugins, done, p, required) && c in required && forall x :: x in required ==> c <= x
    ensures Declares(plugins, (p, c)) && AllDeclared(plugins, done) && Above(done, (p, c))
    ensures done == set j | j in Keys(plugins) && KeyLess(j, (p, c))
    ensures DoneBefore(plugins, done + {(p, c)}, p, required - {c})
  {
    assert (p, c) in Keys(plugins);
  }

  ghost function KeysBefore(plugins: Plugins, p: PluginId): set<Key> {
    set k | k in Keys(plugins) && k.0 < p
  }

  ghost function KeysThrough(plugins: Plugins, p: PluginId): set<Key> {
    set k | k in Keys(plugins) && k.0 <= p
  }

  lemma AllOfPluginDone(plugins: Plugins, done: set<Key>, p: PluginId)
    requires DoneBefore(plugins, done, p, {})
    ensures done == KeysThrough(plugins, p)
  {
  }

  /** The requirements of one plugin, in capability order. */
  method ResolvePlugin(plugins: Plugins, bindings: Bindings, providers: Providers, maxEdges: nat, p: PluginId,
                       requirements0: seq<ResolvedRequirement>, edges0: set<ResolvedEdge>, used0: set<Key>)
    returns (failure: Option<ResolveError>, requirements: seq<ResolvedRequirement>, edges: set<ResolvedEdge>,
        used: set<Key>)
    requires p in plugins && Indexes(plugins, plugins.Keys, providers)
    requires forall k :: k in bindings ==> bindings[k] in plugins
    requires Accumulated(plugins, bindings, KeysBefore(plugins, p), maxEdges, requirements0, edges0, used0)
    ensures failure.None? ==>
        Accumulated(plugins, bindings, KeysThrough(plugins, p), maxEdges, requirements, edges, used)
    ensures failure.Some? ==> exists done, k :: FailsAt(plugins, bindings, done, k, maxEdges, failure.value)
  {
    ghost var done := KeysBefore(plugins, p);
    assert DoneBefore(plugins, done, p, plugins[p].requirements.Keys);
    hide Accumulated, DoneBefore, Selectable, Lists, Selected, NewEdges, EdgesFor, FailsAt, Above, Keys, StrictTotal,
      ResolvedAt, SelectionFails;
    requirements, edges, used := requirements0, edges0, used0;
    var required := plugins[p].requirements.Keys;
    while required != {}
      invariant required <= plugins[p].requirements.Keys
      invariant DoneBefore(plugins, done, p, required)
      invariant Accumulated(plugins, bindings, done, maxEdges, requirements, edges, used)
      decreases required
    {
      var capability := First(required);
      var key := (p, capability);
      LeastRequiredIsNext(plugins, done, p, required, capability);
      SelectionMeetsSpec(plugins, bindings, key, Lookup(providers, capability));
      var requirement := plugins[p].requirements[capability];
      var selected := SelectProviders(p, capability, requirement, BindingAt(bindings, key),
          Lookup(providers, capability), plugins);
      if selected.Err? {
        SelectionStops(plugins, bindings, done, maxEdges, requirements, edges, used, key, selected.error);
        return Some(selected.error), requirements, edges, used;
      }
      AccumulatedBound(plugins, bindings, done, maxEdges, requirements, edges, used);
      SelectedEdges(plugins, bindings, key, selected.value);
      var inserted := InsertEdges(edges, selected.value, key, maxEdges);
      if inserted.Err? {
        LimitStops(plugins, bindings, done, maxEdges, requirements, edges, used, key);
        return Some(inserted.error), requirements, edges, used;
      }
      AccumulateOne(plugins, bindings, done, maxEdges, requirements, edges, used, key, selected.value, inserted.value);
      requirements := requirements + [ResolvedRequirement(p, capability, requirement.cardinality, selected.value)];
      edges, done, required := inserted.value, done + {key}, required - {capability};
      used := if key in bindings then used + {key} else used;
    }
    AllOfPluginDone(plugins, done, p);
    return None, requirements, edges, used;
  }

  lemma AccumulatedBound(plugins: Plugins, bindings: Bindings, done: set<Key>, maxEdges: nat,
                         requirements: seq<ResolvedRequirement>, edges: set<ResolvedEdge>, used: set<Key>)
    requires Accumulated(plugins, bindings, done, maxEdges, requirements, edges, used)
    ensures |edges| <= maxEdges
  {
  }

  lemma SelectionStops(plugins: Plugins, bindings: Bindings, done: set<Key>, maxEdges: nat,
                       requirements: seq<ResolvedRequirement>, edges: set<ResolvedEdge>, used: set<Key>, k: Key,
                       e: ResolveError)
    requires Accumulated(plugins, bindings, done, maxEdges, requirements, edges, used) && Declares(plugins, k)
    requires done == set j | j in Keys(plugins) && KeyLess(j, k)
    requires !Selectable(plugins, bindings, k) && SelectionFails(plugins, bindings, k, e)
    ensures FailsAt(plugins, bindings, done, k, maxEdges, e)
  {
    hide Selectable, SelectionFails;
  }

  lemma LimitStops(plugins: Plugins, bindings: Bindings, done: set<Key>, maxEdges: nat,
                   requirements: seq<ResolvedRequirement>, edges: set<ResolvedEdge>, used: set<Key>, k: Key)
    requires Accumulated(plugins, bindings, done, maxEdges, requirements, edges, used) && Declares(plugins, k)
    requires done == set j | j in Keys(plugins) && KeyLess(j, k)
    requires Selectable(plugins, bindings, k) && |edges + NewEdges(plugins, bindings, k)| > maxEdges
    ensures FailsAt(plugins, bindings, done, k, maxEdges, EdgeLimitExceeded(maxEdges + 1, maxEdges))
  {
    EdgesAppend(plugins, bindings, done, k);
    hide Selectable, SelectionFails, NewEdges, EdgesFor, Keys;
  }

  lemma FailureIsNotOk(plugins: Plugins, bindings: Bindings, done: set<Key>, k: Key, limits: GraphLimits,
      e: ResolveError)
    requires FailsAt(plugins, bindings, done, k, limits.maxEdges, e)
    ensures !SelectionOk(plugins, bindings, limits)
  {
    assert k in Keys(plugins);
    if Selectable(plugins, bindings, k) {
      EdgesMonotone(plugins, bindings, done + {k}, Keys(plugins));
    }
  }

  lemma EdgesMonotone(plugins: Plugins, bindings: Bindings, a: set<Key>, b: set<Key>)
    requires a <= b && AllDeclared(plugins, b)
    ensures |EdgesFor(plugins, bindings, a)| <= |EdgesFor(plugins, bindings, b)|
  {
    SubsetSize(EdgesFor(plugins, bindings, a), EdgesFor(plugins, bindings, b));
  }

  /** The requirement loop: every requirement resolved, or the first failure in key order. */
  method ResolveRequirements(plugins: Plugins, bindings: Bindings, providers: Providers, limits: GraphLimits)
    returns (failure: Option<ResolveError>, requirements: seq<ResolvedRequirement>, edges: set<ResolvedEdge>,
        used: set<Key>)
    requires Indexes(plugins, plugins.Keys, providers)
    requires forall k :: k in bindings ==> bindings[k] in plugins
    ensures failure.None? <==> SelectionOk(plugins, bindings, limits)
    ensures failure.None? ==>
              && requirements == GraphRequirements(plugins, bindings)
              && edges == EdgesFor(plugins, bindings, Keys(plugins))
              && used == Keys(plugins) * bindings.Keys
    ensures failure.Some? ==> exists done, k :: FailsAt(plugins, bindings, done, k, limits.maxEdges, failure.value)
  {
    hide Accumulated, Indexes, FailsAt, SelectionOk, EdgesFor, GraphRequirements, Ascend, KeysBefore, KeysThrough,
      KeysOutside, LeftAbove, Keys;
    failure, requirements, edges, used := None, [], {}, {};
    ghost var done: set<Key> := {};
    NothingAccumulated(plugins, bindings, limits.maxEdges);
    NoneOutside(plugins);
    var todo := plugins.Keys;
    while todo != {}
      invariant LeftAbove(plugins, todo) && done == KeysOutside(plugins, todo)
      invariant failure.None? && Accumulated(plugins, bindings, done, limits.maxEdges, requirements, edges, used)
      decreases todo
    {
      var p := First(todo);
      PluginIsNext(plugins, todo, p);
      failure, requirements, edges, used :=
        ResolvePlugin(plugins, bindings, providers, limits.maxEdges, p, requirements, edges, used);
      if failure.Some? {
        ghost var failed, k :| FailsAt(plugins, bindings, failed, k, limits.maxEdges, failure.value);
        FailureIsNotOk(plugins, bindings, failed, k, limits, failure.value);
        return;
      }
      done := KeysThrough(plugins, p);
      PluginIsDone(plugins, todo, p);
      todo := todo - {p};
    }
    AllAccumulated(plugins, bindings, done, limits, requirements, edges, used);
  }

  lemma NothingAccumulated(plugins: Plugins, bindings: Bindings, maxEdges: nat)
    ensures Accumulated(plugins, bindings, {}, maxEdges, [], {}, {})
  {
    assert ListOf(plugins, bindings, {}) == [];
    assert EdgesFor(plugins, bindings, {}) == {};
  }

  /** The plugins in `todo` come after all others. */
  ghost predicate LeftAbove(plugins: Plugins, todo: set<PluginId>) {
    todo <= plugins.Keys && forall x, y :: x in plugins && x !in todo && y in todo ==> x < y
  }

  ghost function KeysOutside(plugins: Plugins, todo: set<PluginId>): set<Key> {
    set k | k in Keys(plugins) && k.0 !in todo
  }

  lemma NoneOutside(plugins: Plugins)
    ensures LeftAbove(plugins, plugins.Keys) && KeysOutside(plugins, plugins.Keys) == {}
    ensures KeysOutside(plugins, {}) == Keys(plugins)
  {
  }

  lemma PluginIsNext(plugins: Plugins, todo: set<PluginId>, p: PluginId)
    requires LeftAbove(plugins, todo) && p in todo && forall x :: x in todo ==> p <= x
    ensures p in plugins && KeysOutside(plugins, todo) == KeysBefore(plugins, p)
  {
  }

  lemma PluginIsDone(plugins: Plugins, todo: set<PluginId>, p: PluginId)
    requires LeftAbove(plugins, todo) && p in todo && forall x :: x in todo ==> p <= x
    ensures LeftAbove(plugins, todo - {p}) && KeysThrough(plugins, p) == KeysOutside(plugins, todo - {p})
  {
  }

  lemma AllAccumulated(plugins: Plugins, bindings: Bindings, done: set<Key>, limits: GraphLimits,
                       requirements: seq<ResolvedRequirement>, edges: set<ResolvedEdge>, used: set<Key>)
    requires Accumulated(plugins, bindings, done, limits.maxEdges, requirements, edges, used)
    requires done == Keys(plugins)
    ensures SelectionOk(plugins, bindings, limits)
    ensures requirements == GraphRequirements(plugins, bindings) && edges == EdgesFor(plugins, bindings, Keys(plugins))
    ensures used == Keys(plugins) * bindings.Keys
  {
  }
}
