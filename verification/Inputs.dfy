/** Validation of the declared plugins and bindings, in declaration order. */
module Inputs {
  import opened Model
  import opened Ordering
  import opened Composition

  /** Declaration `i` is the first that breaks the capability limit or repeats an identity. */
  ghost predicate FirstBadPlugin(declared: seq<PluginDescriptor>, limits: GraphLimits, i: nat, e: ResolveError)
    requires i < |declared|
  {
    var d := declared[i];
    && WithinCapabilityLimit(declared[..i], limits) && DistinctPlugins(declared[..i])
    && if DeclarationCount(d) > limits.maxCapabilitiesPerPlugin then
         e == CapabilityLimitExceeded(d.id, DeclarationCount(d), limits.maxCapabilitiesPerPlugin)
       else
         (exists j :: 0 <= j < i && declared[j].id == d.id) && e == DuplicatePlugin(d.id)
  }

  ghost predicate FirstBadBinding(plugins: Plugins, declared: seq<Binding>, i: nat, e: ResolveError)
    requires i < |declared|
  {
    var b := declared[i];
    && BindingsOk(plugins, declared[..i])
    && if b.consumer !in plugins then e == UnknownBindingConsumer(b.consumer)
       else if b.provider !in plugins then e == UnknownBindingProvider(b.provider)
       else
         && (exists j :: 0 <= j < i && BindingKey(declared[j]) == BindingKey(b))
         && e == DuplicateBinding(b.consumer, b.capability)
  }

  lemma {:induction false} IndexKeys(declared: seq<PluginDescriptor>, p: PluginId)
    ensures p in Index(declared) <==> exists i :: 0 <= i < |declared| && declared[i].id == p
    ensures p in Index(declared) ==> Index(declared)[p].id == p && Index(declared)[p] in declared
  {
    if declared != [] {
      var n := |declared| - 1;
      IndexKeys(declared[..n], p);
      if p in Index(declared[..n]) && declared[n].id != p {
        var i :| 0 <= i < n && declared[..n][i].id == p;
        assert declared[i].id == p;
      }
    }
  }

  lemma {:induction false} IndexHolds(declared: seq<PluginDescriptor>, i: nat)
    requires DistinctPlugins(declared) && i < |declared|
    ensures declared[i].id in Index(declared) && Index(declared)[declared[i].id] == declared[i]
  {
    var n := |declared| - 1;
    if i < n {
      assert declared[..n][i] == declared[i];
      IndexHolds(declared[..n], i);
    }
  }

  lemma {:induction false} BindingIndexKeys(declared: seq<Binding>, k: Key)
    ensures k in BindingIndex(declared) <==> exists i :: 0 <= i < |declared| && BindingKey(declared[i]) == k
    ensures k in BindingIndex(declared) ==> Binding(k.0, k.1, BindingIndex(declared)[k]) in declared
  {
    if declared != [] {
      var n := |declared| - 1;
      BindingIndexKeys(declared[..n], k);
      if k in BindingIndex(declared[..n]) && BindingKey(declared[n]) != k {
        var i :| 0 <= i < n && BindingKey(declared[..n][i]) == k;
        assert BindingKey(declared[i]) == k;
      }
    }
  }

  lemma {:induction false} BindingIndexHolds(declared: seq<Binding>, i: nat)
    requires DistinctBindings(declared) && i < |declared|
    ensures BindingKey(declared[i]) in BindingIndex(declared)
    ensures BindingIndex(declared)[BindingKey(declared[i])] == declared[i].provider
  {
    var n := |declared| - 1;
    if i < n {
      assert declared[..n][i] == declared[i];
      BindingIndexHolds(declared[..n], i);
    }
  }

  /** The first loop of resolution. */
  method IndexPlugins(declared: seq<PluginDescriptor>, limits: GraphLimits) returns (r: Result<Plugins, ResolveError>)
    ensures r.Ok? <==> WithinCapabilityLimit(declared, limits) && DistinctPlugins(declared)
    ensures r.Ok? ==> r.value == Index(declared) && Keyed(r.value)
    ensures r.Err? ==> exists i :: 0 <= i < |declared| && FirstBadPlugin(declared, limits, i, r.error)
  {
    var plugins: Plugins := map[];
    for i := 0 to |declared|
      invariant plugins == Index(declared[..i])
      invariant WithinCapabilityLimit(declared[..i], limits) && DistinctPlugins(declared[..i])
    {
      var descriptor := declared[i];
      assert descriptor in declared;
      IndexKeys(declared[..i], descriptor.id);
      var declarations := |descriptor.offers| + |descriptor.requirements|;
      if declarations > limits.maxCapabilitiesPerPlugin {
        assert FirstBadPlugin(declared, limits, i,
            CapabilityLimitExceeded(descriptor.id, declarations, limits.maxCapabilitiesPerPlugin));
        return Err(CapabilityLimitExceeded(descriptor.id, declarations, limits.maxCapabilitiesPerPlugin));
      }
      if descriptor.id in plugins {
        var j :| 0 <= j < i && declared[..i][j].id == descriptor.id;
        assert declared[j].id == declared[i].id;
        assert FirstBadPlugin(declared, limits, i, DuplicatePlugin(descriptor.id));
        return Err(DuplicatePlugin(descriptor.id));
      }
      AppendPlugin(declared, limits, i);
      plugins := plugins[descriptor.id := descriptor];
    }
    assert declared[..|declared|] == declared;
    forall p | p in plugins ensures plugins[p].id == p { IndexKeys(declared, p); }
    return Ok(plugins);
  }

  lemma AppendPlugin(declared: seq<PluginDescriptor>, limits: GraphLimits, i: nat)
    requires i < |declared| && WithinCapabilityLimit(declared[..i], limits) && DistinctPlugins(declared[..i])
    requires DeclarationCount(declared[i]) <= limits.maxCapabilitiesPerPlugin && declared[i].id !in Index(declared[..i])
    ensures WithinCapabilityLimit(declared[..i + 1], limits) && DistinctPlugins(declared[..i + 1])
    ensures Index(declared[..i + 1]) == Index(declared[..i])[declared[i].id := declared[i]]
  {
    IndexKeys(declared[..i], declared[i].id);
    assert declared[..i + 1] == declared[..i] + [declared[i]];
    assert declared[..i + 1][..i] == declared[..i];
    forall j | 0 <= j < i
      ensures declared[j].id != declared[i].id
    {
      assert declared[..i][j] == declared[j];
    }
  }

  /** The binding loop of resolution. */
  method ValidatedBindings(declared: seq<Binding>, plugins: Plugins) returns (r: Result<Bindings, ResolveError>)
    ensures r.Ok? <==> BindingsOk(plugins, declared)
    ensures r.Ok? ==> r.value == BindingIndex(declared) && forall k :: k in r.value ==> r.value[k] in plugins
    ensures r.Err? ==> exists i :: 0 <= i < |declared| && FirstBadBinding(plugins, declared, i, r.error)
  {
    var bindings: Bindings := map[];
    for i := 0 to |declared|
      invariant bindings == BindingIndex(declared[..i])
      invariant BindingsOk(plugins, declared[..i])
      invariant forall k :: k in bindings ==> bindings[k] in plugins
    {
      var binding := declared[i];
      assert binding in declared;
      if binding.consumer !in plugins {
        assert FirstBadBinding(plugins, declared, i, UnknownBindingConsumer(binding.consumer));
        return Err(UnknownBindingConsumer(binding.consumer));
      }
      if binding.provider !in plugins {
        assert FirstBadBinding(plugins, declared, i, UnknownBindingProvider(binding.provider));
        return Err(UnknownBindingProvider(binding.provider));
      }
      var key := (binding.consumer, binding.capability);
      BindingIndexKeys(declared[..i], key);
      if key in bindings {
        var j :| 0 <= j < i && BindingKey(declared[..i][j]) == key;
        assert BindingKey(declared[j]) == BindingKey(declared[i]);
        assert FirstBadBinding(plugins, declared, i, DuplicateBinding(binding.consumer, binding.capability));
        return Err(DuplicateBinding(binding.consumer, binding.capability));
      }
      AppendBinding(plugins, declared, i);
      bindings := bindings[key := binding.provider];
    }
    assert declared[..|declared|] == declared;
    return Ok(bindings);
  }

  lemma AppendBinding(plugins: Plugins, declared: seq<Binding>, i: nat)
    requires i < |declared| && BindingsOk(plugins, declared[..i])
    requires declared[i].consumer in plugins && declared[i].provider in plugins
    requires BindingKey(declared[i]) !in BindingIndex(declared[..i])
    ensures BindingsOk(plugins, declared[..i + 1])
    ensures BindingIndex(declared[..i + 1]) ==
            BindingIndex(declared[..i])[BindingKey(declared[i]) := declared[i].provider]
  {
    BindingIndexKeys(declared[..i], BindingKey(declared[i]));
    assert declared[..i + 1] == declared[..i] + [declared[i]];
    assert declared[..i + 1][..i] == declared[..i];
    forall j | 0 <= j < i
      ensures BindingKey(declared[j]) != BindingKey(declared[i])
    {
      assert declared[..i][j] == declared[j];
    }
  }

  /** Conflicts are reported for the least declaring plugin and its least installed conflict. */
  method ValidateConflicts(plugins: Plugins) returns (r: Option<ResolveError>)
    ensures r.None? <==> Conflicts(plugins) == {}
    ensures r.Some? ==> exists k :: IsLeast(KeyLess, Conflicts(plugins), k) &&
                                    r.value == if k.0 < k.1 then PluginConflict(k.0, k.1) else PluginConflict(k.1, k.0)
  {
    var todo := plugins.Keys;
    while todo != {}
      invariant todo <= plugins.Keys
      invariant forall k :: k in Conflicts(plugins) ==> k.0 in todo
      decreases todo
    {
      var p := First(todo);
      var conflicts := plugins[p].conflicts;
      while conflicts != {}
        invariant conflicts <= plugins[p].conflicts
        invariant forall k :: k in Conflicts(plugins) && k.0 == p ==> k.1 in conflicts
        decreases conflicts
      {
        var c := First(conflicts);
        if c in plugins {
          assert IsLeast(KeyLess, Conflicts(plugins), (p, c));
          return Some(if p < c then PluginConflict(p, c) else PluginConflict(c, p));
        }
        conflicts := conflicts - {c};
      }
      todo := todo - {p};
    }
    return None;
  }

  /** A self-dependency is reported for the least plugin and its least such capability. */
  method ValidateNoSelfDependencies(plugins: Plugins) returns (r: Option<ResolveError>)
    ensures r.None? <==> SelfDependencies(plugins) == {}
    ensures r.Some? ==>
            exists k :: IsLeast(KeyLess, SelfDependencies(plugins), k) && r.value == SelfDependency(k.0, k.1)
  {
    var todo := plugins.Keys;
    while todo != {}
      invariant todo <= plugins.Keys
      invariant forall k :: k in SelfDependencies(plugins) ==> k.0 in todo
      decreases todo
    {
      var p := First(todo);
      var required := plugins[p].requirements.Keys;
      while required != {}
        invariant required <= plugins[p].requirements.Keys
        invariant forall k :: k in SelfDependencies(plugins) && k.0 == p ==> k.1 in required
        decreases required
      {
        var c := First(required);
        if c in plugins[p].offers {
          assert IsLeast(KeyLess, SelfDependencies(plugins), (p, c));
          return Some(SelfDependency(p, c));
        }
        required := required - {c};
      }
      todo := todo - {p};
    }
    return None;
  }
}
