/** Provider selection for one requirement. */
module Selection {
  import opened Model
  import opened Ordering
  import opened Composition

  datatype Candidate = Candidate(plugin: PluginId, version: Version)

  function PluginsOf(candidates: seq<Candidate>): (r: seq<PluginId>)
    ensures |r| == |candidates|
  {
    seq(|candidates|, i requires 0 <= i < |candidates| => candidates[i].plugin)
  }

  function Available(candidates: seq<Candidate>): (r: seq<(PluginId, Version)>)
    ensures |r| == |candidates|
  {
    seq(|candidates|, i requires 0 <= i < |candidates| => (candidates[i].plugin, candidates[i].version))
  }

  function Filter(candidates: seq<Candidate>, version: VersionReq): seq<Candidate> {
    if candidates == [] then []
    else
      var rest := Filter(candidates[1..], version);
      if version.matches(candidates[0].version) then [candidates[0]] + rest else rest
  }

  /** The providers chosen for `consumer`'s requirement on `capability`. */
  function SelectProviders(consumer: PluginId, capability: CapabilityId, requirement: Requirement,
      binding: Option<PluginId>, candidates: seq<Candidate>, plugins: Plugins): Result<seq<PluginId>, ResolveError>
    requires binding.Some? ==> binding.value in plugins
  {
    if binding.Some? && !requirement.cardinality.IsBindable() then
      Err(BindingForMultiple(consumer, capability))
    else if binding.Some? then
      var provider := binding.value;
      var descriptor := plugins[provider];
      if capability !in descriptor.offers then
        Err(BoundProviderDoesNotOffer(consumer, capability, provider))
      else if !requirement.version.matches(descriptor.offers[capability]) then
        Err(IncompatibleBinding(consumer, capability, provider, descriptor.offers[capability]))
      else
        Ok([provider])
    else
      var compatible := PluginsOf(Filter(candidates, requirement.version));
      match requirement.cardinality
      case ExactlyOne | ZeroOrOne =>
        if |compatible| == 1 then Ok(compatible)
        else if |compatible| == 0 && requirement.cardinality.PermitsZero() then Ok([])
        else if |compatible| == 0 && |candidates| == 0 then Err(MissingProvider(consumer, capability))
        else if |compatible| == 0 then Err(IncompatibleProvider(consumer, capability, Available(candidates)))
        else Err(AmbiguousProvider(consumer, capability, compatible))
      case OneOrMore =>
        if |compatible| == 0 && |candidates| == 0 then Err(MissingProvider(consumer, capability))
        else if |compatible| == 0 then Err(IncompatibleProvider(consumer, capability, Available(candidates)))
        else Ok(compatible)
      case ZeroOrMore => Ok(compatible)
  }

  /** `candidates` lists the offers of `capability` among `done`, by ascending plugin. */
  ghost predicate Lists(plugins: Plugins, done: set<PluginId>, capability: CapabilityId, candidates: seq<Candidate>) {
    && Ascending(IdLess, PluginsOf(candidates))
    && forall c :: c in candidates <==>
         c.plugin in done && Offers(plugins, c.plugin, capability) && c.version == plugins[c.plugin].offers[capability]
  }

  lemma {:induction false} FilterProperties(candidates: seq<Candidate>, version: VersionReq)
    requires Ascending(IdLess, PluginsOf(candidates))
    ensures Ascending(IdLess, PluginsOf(Filter(candidates, version)))
    ensures forall c :: c in Filter(candidates, version) <==> c in candidates && version.matches(c.version)
  {
    if candidates != [] {
      var tail := candidates[1..];
      assert PluginsOf(tail) == PluginsOf(candidates)[1..];
      FilterProperties(tail, version);
      var rest := Filter(tail, version);
      assert candidates == [candidates[0]] + tail;
      forall i | 0 <= i < |rest|
        ensures candidates[0].plugin < rest[i].plugin
      {
        assert rest[i] in tail;
        var j :| 0 <= j < |tail| && tail[j] == rest[i];
        assert PluginsOf(candidates)[0] < PluginsOf(candidates)[j + 1];
      }
      if version.matches(candidates[0].version) {
        AscendingCons(candidates[0].plugin, PluginsOf(rest));
        assert PluginsOf([candidates[0]] + rest) == [candidates[0].plugin] + PluginsOf(rest);
      }
    }
  }

  lemma AscendingCons(x: PluginId, s: seq<PluginId>)
    requires Ascending(IdLess, s) && forall i :: 0 <= i < |s| ==> x < s[i]
    ensures Ascending(IdLess, [x] + s)
  {
  }

  lemma PluginsOfMembers(candidates: seq<Candidate>, p: PluginId)
    ensures p in PluginsOf(candidates) <==> exists c :: c in candidates && c.plugin == p
  {
    if p in PluginsOf(candidates) {
      var i :| 0 <= i < |candidates| && PluginsOf(candidates)[i] == p;
      assert candidates[i] in candidates;
    }
    if c :| c in candidates && c.plugin == p {
      var i :| 0 <= i < |candidates| && candidates[i] == c;
      assert PluginsOf(candidates)[i] == p;
    }
  }

  /** The filtered candidates are exactly the compatible providers, in identity order. */
  lemma CompatibleAreFiltered(plugins: Plugins, k: Key, candidates: seq<Candidate>)
    requires Declares(plugins, k) && Lists(plugins, plugins.Keys, k.1, candidates)
    ensures StrictTotal(IdLess)
    ensures PluginsOf(Filter(candidates, RequirementAt(plugins, k).version)) == Ascend(IdLess, Compatible(plugins, k))
  {
    IdOrder();
    var version := RequirementAt(plugins, k).version;
    var filtered := Filter(candidates, version);
    FilterProperties(candidates, version);
    AscendProperties(IdLess, Compatible(plugins, k));
    forall p
      ensures p in PluginsOf(filtered) <==> p in Compatible(plugins, k)
    {
      PluginsOfMembers(filtered, p);
      if p in Compatible(plugins, k) {
        assert Candidate(p, plugins[p].offers[k.1]) in filtered;
      }
    }
    AscendingUnique(IdLess, PluginsOf(filtered), Ascend(IdLess, Compatible(plugins, k)));
  }

  lemma OfferingIsListed(plugins: Plugins, capability: CapabilityId, candidates: seq<Candidate>)
    requires Lists(plugins, plugins.Keys, capability, candidates)
    ensures |candidates| == 0 <==> Offering(plugins, capability) == {}
  {
    if |candidates| > 0 {
      assert candidates[0] in candidates;
      assert candidates[0].plugin in Offering(plugins, capability);
    }
    if p :| p in Offering(plugins, capability) {
      assert Candidate(p, plugins[p].offers[capability]) in candidates;
    }
  }

  /** Which error a requirement that cannot be selected reports. */
  ghost predicate SelectionFails(plugins: Plugins, bindings: Bindings, k: Key, e: ResolveError)
    requires Declares(plugins, k)
  {
    var cardinality := RequirementAt(plugins, k).cardinality;
    var single := cardinality.ExactlyOne? || cardinality.ZeroOrOne?;
    var required := cardinality.ExactlyOne? || cardinality.OneOrMore?;
    IdOrder();
    match e
    case BindingForMultiple(c, cap) =>
      (c, cap) == k && k in bindings && !single
    case BoundProviderDoesNotOffer(c, cap, provider) =>
      (c, cap) == k && k in bindings && single && bindings[k] == provider && !Offers(plugins, provider, cap)
    case IncompatibleBinding(c, cap, provider, provided) =>
      && (c, cap) == k && k in bindings && single && bindings[k] == provider
      && Offers(plugins, provider, cap) && plugins[provider].offers[cap] == provided
      && !IsCompatible(plugins, k, provider)
    case MissingProvider(c, cap) =>
      (c, cap) == k && k !in bindings && required && Offering(plugins, cap) == {}
    case IncompatibleProvider(c, cap, available) =>
      && (c, cap) == k && k !in bindings && required
      && Compatible(plugins, k) == {} && Offering(plugins, cap) != {}
      && (forall i, j :: 0 <= i < j < |available| ==> available[i].0 < available[j].0)
      && forall p, v :: (p, v) in available <==> Offers(plugins, p, cap) && plugins[p].offers[cap] == v
    case AmbiguousProvider(c, cap, providers) =>
      (c, cap) == k && k !in bindings && single && |Compatible(plugins, k)| >= 2
          && providers == Ascend(IdLess, Compatible(plugins, k))
    case _ => false
  }

  function BindingAt(bindings: Bindings, k: Key): Option<PluginId> {
    if k in bindings then Some(bindings[k]) else None
  }

  /** Selection meets its specification: success exactly when the requirement is
      selectable, the selected providers in identity order, and the error that applies. */
  lemma SelectionMeetsSpec(plugins: Plugins, bindings: Bindings, k: Key, candidates: seq<Candidate>)
    requires Declares(plugins, k) && Lists(plugins, plugins.Keys, k.1, candidates)
    requires k in bindings ==> bindings[k] in plugins
    ensures StrictTotal(IdLess)
    ensures var r := SelectProviders(k.0, k.1, RequirementAt(plugins, k), BindingAt(bindings, k), candidates, plugins);
            && (r.Ok? <==> Selectable(plugins, bindings, k))
            && (r.Ok? ==> r.value == Ascend(IdLess, Selected(plugins, bindings, k)))
            && (r.Err? ==> SelectionFails(plugins, bindings, k, r.error))
  {
    if k in bindings {
      IdOrder();
      AscendSingleton(bindings[k]);
      hide StrictTotal, Lists;
    } else {
      UnboundSelection(plugins, bindings, k, candidates);
    }
  }

  lemma UnboundSelection(plugins: Plugins, bindings: Bindings, k: Key, candidates: seq<Candidate>)
    requires Declares(plugins, k) && Lists(plugins, plugins.Keys, k.1, candidates) && k !in bindings
    ensures StrictTotal(IdLess)
    ensures var r := SelectProviders(k.0, k.1, RequirementAt(plugins, k), None, candidates, plugins);
            && (r.Ok? <==> Selectable(plugins, bindings, k))
            && (r.Ok? ==> r.value == Ascend(IdLess, Selected(plugins, bindings, k)))
            && (r.Err? ==> SelectionFails(plugins, bindings, k, r.error))
  {
    IdOrder();
    hide StrictTotal, Ascending, Lists, Offering, Compatible, Filter, PluginsOf;
    CompatibleAreFiltered(plugins, k, candidates);
    OfferingIsListed(plugins, k.1, candidates);
    CompatibleSize(plugins, k);
    AvailableListsOffers(plugins, k.1, candidates);
  }

  lemma CompatibleSize(plugins: Plugins, k: Key)
    requires Declares(plugins, k) && StrictTotal(IdLess)
    ensures |Ascend(IdLess, Compatible(plugins, k))| == |Compatible(plugins, k)|
    ensures Compatible(plugins, k) == {} <==> |Compatible(plugins, k)| == 0
    ensures Compatible(plugins, k) == {} ==> Ascend(IdLess, Compatible(plugins, k)) == []
  {
    AscendProperties(IdLess, Compatible(plugins, k));
  }

  lemma AscendSingleton(p: PluginId)
    requires StrictTotal(IdLess)
    ensures Ascend(IdLess, {p}) == [p]
  {
    assert Least(IdLess, {p}) == p;
    assert {p} - {p} == {};
  }

  lemma AvailableListsOffers(plugins: Plugins, capability: CapabilityId, candidates: seq<Candidate>)
    requires Lists(plugins, plugins.Keys, capability, candidates)
    ensures var a := Available(candidates);
            && (forall i, j :: 0 <= i < j < |a| ==> a[i].0 < a[j].0)
            && forall p, v :: (p, v) in a <==> Offers(plugins, p, capability) && plugins[p].offers[capability] == v
  {
    var a := Available(candidates);
    forall i, j | 0 <= i < j < |a|
      ensures a[i].0 < a[j].0
    {
      assert IdLess(PluginsOf(candidates)[i], PluginsOf(candidates)[j]);
    }
    forall p, v
      ensures (p, v) in a <==> Offers(plugins, p, capability) && plugins[p].offers[capability] == v
    {
      if (p, v) in a {
        var i :| 0 <= i < |a| && a[i] == (p, v);
        assert candidates[i] in candidates;
      }
      if Offers(plugins, p, capability) && plugins[p].offers[capability] == v {
        assert Candidate(p, v) in candidates;
        var i :| 0 <= i < |candidates| && candidates[i] == Candidate(p, v);
        assert a[i] == (p, v);
      }
    }
  }
}
