/** Staged provisions, the registry they commit to, and lookups during initialization. */
module Provisions {
  import opened Model
  import opened Composition
  import opened GraphFacts

  /** A published capability: its contract version, the identity of its marker type, and the handle. */
  datatype Provision = Provision(version: Version, marker: nat, handle: nat)

  type ProvisionSet = map<CapabilityId, Provision>
  type Committed = map<Key, Provision>

  /** The parsed constants of a marker type; parsing fails on a malformed identifier or version. */
  datatype Contract = Contract(capability: CapabilityId, version: Version, marker: nat)
  datatype ContractError = InvalidIdentifier | InvalidVersion
  type Marker = Result<Contract, ContractError>

  datatype ProvisionError =
    | InvalidProvisionContract(contract: ContractError)
    | DuplicateProvision(capability: CapabilityId)
    | UndeclaredProvision(plugin: PluginId, capability: CapabilityId)
    | VersionMismatch(plugin: PluginId, capability: CapabilityId, declared: Version, actual: Version)
    | MissingOffer(plugin: PluginId, capability: CapabilityId)

  datatype AccessError =
    | ApplicationUnavailable
    | InvalidAccessContract(contract: ContractError)
    | Undeclared(consumer: PluginId, capability: CapabilityId)
    | CardinalityMismatch(consumer: PluginId, capability: CapabilityId, cardinality: Cardinality)
    | MissingProvision(provider: PluginId, capability: CapabilityId)
    | TypeMismatch(provider: PluginId, capability: CapabilityId)

  /** One `provide` of a handle under a marker type; it consumes the set, so a failure loses it. */
  function Provide(staged: ProvisionSet, marker: Marker, handle: nat): Result<ProvisionSet, ProvisionError> {
    match marker
    case Err(e) => Err(InvalidProvisionContract(e))
    case Ok(c) =>
      if c.capability in staged then Err(DuplicateProvision(c.capability))
      else Ok(staged[c.capability := Provision(c.version, c.marker, handle)])
  }

  /** What a hook writes: a chain of `provide` calls, cut short at the first failure. */
  function ProvideAll(staged: ProvisionSet, items: seq<(Marker, nat)>): Result<ProvisionSet, ProvisionError>
    decreases |items|
  {
    if items == [] then Ok(staged)
    else match Provide(staged, items[0].0, items[0].1)
         case Err(e) => Err(e)
         case Ok(more) => ProvideAll(more, items[1..])
  }

  predicate Fits(items: seq<(Marker, nat)>, i: nat)
    requires i < |items|
  {
    items[i].0.Ok? && forall j :: 0 <= j < i && items[j].0.Ok? ==>
        items[j].0.value.capability != items[i].0.value.capability
  }

  /** Every marker is valid and no capability comes twice. */
  predicate AllFit(items: seq<(Marker, nat)>) {
    forall i: nat :: i < |items| ==> Fits(items, i)
  }

  ghost predicate Holds(staged: ProvisionSet, item: (Marker, nat)) {
    && item.0.Ok? && item.0.value.capability in staged
    && staged[item.0.value.capability] == Provision(item.0.value.version, item.0.value.marker, item.1)
  }

  /** `staged` holds one entry for each item and nothing else. */
  ghost predicate StagesExactly(staged: ProvisionSet, items: seq<(Marker, nat)>) {
    && (forall i :: 0 <= i < |items| ==> Holds(staged, items[i]))
    && (forall c :: c in staged ==> exists i :: 0 <= i < |items| && items[i].0.Ok? && items[i].0.value.capability == c)
  }

  /** The first item that does not fit, and why. */
  ghost predicate ProvideFails(items: seq<(Marker, nat)>, e: ProvisionError) {
    exists i: nat :: i < |items| && !Fits(items, i) && AllFit(items[..i])
      && e == if items[i].0.Err? then InvalidProvisionContract(items[i].0.error)
          else DuplicateProvision(items[i].0.value.capability)
  }

  lemma FitsInPrefix(items: seq<(Marker, nat)>, n: nat, i: nat)
    requires i < n <= |items|
    ensures Fits(items[..n], i) <==> Fits(items, i)
  {
    assert forall j :: 0 <= j <= i ==> items[..n][j] == items[j];
  }

  /** One more item on a set that stages the items before it. */
  lemma ProvideOne(staged: ProvisionSet, items: seq<(Marker, nat)>, n: nat)
    requires n < |items| && StagesExactly(staged, items[..n])
    ensures var r := Provide(staged, items[n].0, items[n].1);
            if Fits(items, n) then r.Ok? && StagesExactly(r.value, items[..n + 1])
            else r == Err(if items[n].0.Err? then InvalidProvisionContract(items[n].0.error)
                else DuplicateProvision(items[n].0.value.capability))
  {
    var r := Provide(staged, items[n].0, items[n].1);
    var before, upto := items[..n], items[..n + 1];
    assert forall j :: 0 <= j < n ==> before[j] == items[j] == upto[j] && Holds(staged, before[j]);
    if Fits(items, n) {
      forall j | 0 <= j < |upto| ensures Holds(r.value, upto[j]) {}
      forall c | c in r.value
        ensures exists i :: 0 <= i < |upto| && upto[i].0.Ok? && upto[i].0.value.capability == c
      {
        if c in staged {
          var i :| 0 <= i < n && before[i].0.Ok? && before[i].0.value.capability == c;
          assert upto[i] == items[i];
        } else {
          assert upto[n] == items[n];
        }
      }
    }
  }

  lemma {:induction false} ProvideRest(staged: ProvisionSet, items: seq<(Marker, nat)>, n: nat)
    requires n <= |items| && AllFit(items[..n]) && StagesExactly(staged, items[..n])
    ensures var r := ProvideAll(staged, items[n..]);
            && (r.Ok? <==> AllFit(items))
            && (r.Ok? ==> StagesExactly(r.value, items))
            && (r.Err? ==> ProvideFails(items, r.error))
    decreases |items| - n
  {
    if n == |items| {
      assert items[..n] == items;
    } else {
      ProvideOne(staged, items, n);
      assert items[n..][1..] == items[n + 1..] && items[n..][0] == items[n];
      hide StagesExactly, Provide;
      if Fits(items, n) {
        var upto := items[..n + 1];
        forall i: nat | i < |upto|
          ensures Fits(upto, i)
        {
          if i < n { FitsInPrefix(items, n, i); }
          FitsInPrefix(items, n + 1, i);
        }
        ProvideRest(Provide(staged, items[n].0, items[n].1).value, items, n + 1);
      }
    }
  }

  /** Staging a list succeeds exactly when every marker is valid and no capability repeats;
      the set then holds exactly the listed provisions. Otherwise the first misfit is reported. */
  lemma StagingIsExact(items: seq<(Marker, nat)>)
    ensures var r := ProvideAll(map[], items);
            && (r.Ok? <==> AllFit(items))
            && (r.Ok? ==> StagesExactly(r.value, items))
            && (r.Err? ==> ProvideFails(items, r.error))
  {
    assert items[0..] == items;
    ProvideRest(map[], items, 0);
  }

  /** Exactly the declared offers are staged, each at its declared version. */
  ghost predicate Matches(descriptor: PluginDescriptor, staged: ProvisionSet) {
    staged.Keys == descriptor.offers.Keys && forall c :: c in staged ==> staged[c].version == descriptor.offers[c]
  }

  ghost predicate Unacceptable(descriptor: PluginDescriptor, staged: ProvisionSet, c: CapabilityId) {
    c in staged && (c !in descriptor.offers || staged[c].version != descriptor.offers[c])
  }

  /** The least unacceptable staged capability, or else the least offer that is not staged. */
  ghost predicate CommitFails(plugin: PluginId, descriptor: PluginDescriptor, staged: ProvisionSet, e: ProvisionError) {
    match e
    case UndeclaredProvision(p, c) =>
      p == plugin && c in staged && c !in descriptor.offers && NoneBelow(descriptor, staged, c)
    case VersionMismatch(p, c, declared, actual) =>
      && p == plugin && c in staged && c in descriptor.offers && NoneBelow(descriptor, staged, c)
      && declared == descriptor.offers[c] != staged[c].version == actual
    case MissingOffer(p, c) =>
      && p == plugin && c in descriptor.offers && c !in staged
      && (forall d: CapabilityId :: !Unacceptable(descriptor, staged, d))
      && (forall d :: d in descriptor.offers && d < c ==> d in staged)
    case _ => false
  }

  ghost predicate NoneBelow(descriptor: PluginDescriptor, staged: ProvisionSet, c: CapabilityId) {
    forall d: CapabilityId :: d < c ==> !Unacceptable(descriptor, staged, d)
  }

  ghost function AfterCommit(committed: Committed, plugin: PluginId, staged: ProvisionSet): Committed {
    map k | k in committed.Keys + (set c | c in staged :: (plugin, c)) ::
      if k.0 == plugin && k.1 in staged then staged[k.1] else committed[k]
  }

  ghost function OffersOf(plugins: Plugins, ps: seq<PluginId>): set<Key> {
    set p, c | p in ps && p in plugins && c in plugins[p].offers :: (p, c)
  }

  class Registry {
    var provisions: Committed

    constructor ()
      ensures provisions == map[]
    {
      provisions := map[];
    }

    /** All staged provisions are published, or the registry is left as it was. */
    method Commit(plugin: PluginId, descriptor: PluginDescriptor, staged: ProvisionSet)
        returns (r: Option<ProvisionError>)
      modifies this
      ensures r.None? <==> Matches(descriptor, staged)
      ensures r.None? ==> provisions == AfterCommit(old(provisions), plugin, staged)
      ensures r.Some? ==> provisions == old(provisions) && CommitFails(plugin, descriptor, staged, r.value)
    {
      hide AfterCommit, CommitFails;
      r := Validate(plugin, descriptor, staged);
      if r.Some? { return; }
      var publishing := staged.Keys;
      ghost var published: ProvisionSet := map[];
      PublishNothing(provisions, plugin);
      while publishing != {}
        invariant publishing !! published.Keys && publishing + published.Keys == staged.Keys
        invariant forall c :: c in published ==> published[c] == staged[c]
        invariant provisions == AfterCommit(old(provisions), plugin, published)
        decreases publishing
      {
        var capability := First(publishing);
        PublishOne(old(provisions), plugin, published, capability, staged[capability]);
        provisions := provisions[(plugin, capability) := staged[capability]];
        publishing, published := publishing - {capability}, published[capability := staged[capability]];
      }
      assert published == staged;
    }
  }

  lemma PublishNothing(committed: Committed, plugin: PluginId)
    ensures AfterCommit(committed, plugin, map[]) == committed
  {
  }

  lemma PublishOne(committed: Committed, plugin: PluginId, published: ProvisionSet, c: CapabilityId, p: Provision)
    ensures AfterCommit(committed, plugin, published[c := p]) ==
            AfterCommit(committed, plugin, published)[(plugin, c) := p]
  {
  }

  /** The two checking loops of a commit. */
  method Validate(plugin: PluginId, descriptor: PluginDescriptor, staged: ProvisionSet)
      returns (r: Option<ProvisionError>)
    ensures r.None? <==> Matches(descriptor, staged)
    ensures r.Some? ==> CommitFails(plugin, descriptor, staged, r.value)
  {
    var checking := staged.Keys;
    while checking != {}
      invariant checking <= staged.Keys
      invariant forall c :: c in staged && c !in checking ==> !Unacceptable(descriptor, staged, c)
      decreases checking
    {
      var capability := First(checking);
      if capability !in descriptor.offers {
        return Some(UndeclaredProvision(plugin, capability));
      }
      if descriptor.offers[capability] != staged[capability].version {
        return Some(VersionMismatch(plugin, capability, descriptor.offers[capability], staged[capability].version));
      }
      checking := checking - {capability};
    }
    assert forall c :: c in staged ==> !Unacceptable(descriptor, staged, c);
    var expected := descriptor.offers.Keys;
    while expected != {}
      invariant expected <= descriptor.offers.Keys
      invariant forall c :: c in descriptor.offers && c !in expected ==> c in staged
      decreases expected
    {
      var capability := First(expected);
      if capability !in staged {
        return Some(MissingOffer(plugin, capability));
      }
      expected := expected - {capability};
    }
    return None;
  }

  /** Publishing the offers of the next plugin extends the committed keys by its offers. */
  lemma CommitExtendsKeys(plugins: Plugins, order: seq<PluginId>, k: nat, committed: Committed, staged: ProvisionSet)
    requires k < |order| && order[k] in plugins && Matches(plugins[order[k]], staged)
    requires committed.Keys == OffersOf(plugins, order[..k])
    ensures AfterCommit(committed, order[k], staged).Keys == OffersOf(plugins, order[..k + 1])
  {
    assert order[..k + 1] == order[..k] + [order[k]];
    forall key: Key
      ensures key in OffersOf(plugins, order[..k + 1]) <==>
              key in OffersOf(plugins, order[..k]) || (key.0 == order[k] && key.1 in plugins[order[k]].offers)
    {
    }
  }

  // ----- access during initialization

  function Get(committed: Committed, provider: PluginId, c: Contract): Result<Provision, AccessError> {
    if (provider, c.capability) !in committed then Err(MissingProvision(provider, c.capability))
    else if committed[(provider, c.capability)].marker != c.marker then Err(TypeMismatch(provider, c.capability))
    else Ok(committed[(provider, c.capability)])
  }

  ghost predicate CardinalitiesHold(g: ResolvedGraph) {
    forall i :: 0 <= i < |g.requirements| ==> CardinalityHolds(g.requirements[i])
  }

  lemma {:induction false} SearchReturnsMember(rs: seq<ResolvedRequirement>, k: Key, lo: nat, hi: nat)
    requires lo <= hi <= |rs|
    ensures Search(rs, k, lo, hi).Some? ==>
              exists i :: 0 <= i < |rs| && rs[i] == Search(rs, k, lo, hi).value && KeyOf(rs[i]) == k
    decreases hi - lo
  {
    if lo < hi {
      var mid := (lo + hi) / 2;
      if KeyOf(rs[mid]) != k {
        if KeyLess(KeyOf(rs[mid]), k) {
          SearchReturnsMember(rs, k, mid + 1, hi);
        } else {
          SearchReturnsMember(rs, k, lo, mid);
        }
      }
    }
  }

  /** An exactly-one dependency; the index is in range because the graph fixed its cardinality. */
  function Require(g: ResolvedGraph, committed: Committed, consumer: PluginId, marker: Marker)
    : Result<Provision, AccessError>
    requires CardinalitiesHold(g)
  {
    if marker.Err? then Err(InvalidAccessContract(marker.error))
    else
      var c := marker.value;
      SearchReturnsMember(g.requirements, (consumer, c.capability), 0, |g.requirements|);
      match FindRequirement(g, consumer, c.capability)
      case None => Err(Undeclared(consumer, c.capability))
      case Some(r) =>
        if !r.cardinality.ExactlyOne? then Err(CardinalityMismatch(consumer, c.capability, r.cardinality))
        else Get(committed, r.providers[0], c)
  }

  function Optional(g: ResolvedGraph, committed: Committed, consumer: PluginId, marker: Marker)
    : Result<Option<Provision>, AccessError>
  {
    if marker.Err? then Err(InvalidAccessContract(marker.error))
    else
      var c := marker.value;
      match FindRequirement(g, consumer, c.capability)
      case None => Err(Undeclared(consumer, c.capability))
      case Some(r) =>
        if !r.cardinality.ZeroOrOne? then Err(CardinalityMismatch(consumer, c.capability, r.cardinality))
        else if r.providers == [] then Ok(None)
        else match Get(committed, r.providers[0], c)
             case Ok(provision) => Ok(Some(provision))
             case Err(e) => Err(e)
  }

  function Collect(committed: Committed, providers: seq<PluginId>, c: Contract): Result<seq<Provision>, AccessError> {
    if providers == [] then Ok([])
    else match Get(committed, providers[0], c)
         case Err(e) => Err(e)
         case Ok(provision) =>
           match Collect(committed, providers[1..], c)
           case Err(e) => Err(e)
           case Ok(rest) => Ok([provision] + rest)
  }

  function All(g: ResolvedGraph, committed: Committed, consumer: PluginId, marker: Marker)
    : Result<seq<Provision>, AccessError>
  {
    if marker.Err? then Err(InvalidAccessContract(marker.error))
    else
      var c := marker.value;
      match FindRequirement(g, consumer, c.capability)
      case None => Err(Undeclared(consumer, c.capability))
      case Some(r) =>
        if !(r.cardinality.ZeroOrMore? || r.cardinality.OneOrMore?) then
          Err(CardinalityMismatch(consumer, c.capability, r.cardinality))
        else Collect(committed, r.providers, c)
  }

  /** Every selected provider of `consumer` has published the capability it was selected for. */
  ghost predicate DependenciesCommitted(g: ResolvedGraph, committed: Committed, consumer: PluginId) {
    forall i, q :: 0 <= i < |g.requirements| && g.requirements[i].consumer == consumer
        && q in g.requirements[i].providers
      ==> (q, g.requirements[i].capability) in committed
  }

  /** When the next plugin initializes, all it may ask for is in the registry. */
  lemma PrefixCommitsDependencies(spec: CompositionSpec, g: ResolvedGraph, committed: Committed, k: nat)
    requires ResolvedFrom(spec, g) && k < |g.startupOrder|
    requires committed.Keys == OffersOf(g.plugins, g.startupOrder[..k])
    ensures DependenciesCommitted(g, committed, g.startupOrder[k])
  {
    hide Composable, IsResolution;
    var order := g.startupOrder;
    ProvidersStartFirst(spec, g);
    forall i, q: PluginId | 0 <= i < |g.requirements| && g.requirements[i].consumer == order[k]
        && q in g.requirements[i].providers
      ensures (q, g.requirements[i].capability) in committed
    {
      RequirementIsFactual(spec, g, i);
      var a, b :| 0 <= a < b < |order| && order[a] == q && order[b] == g.requirements[i].consumer;
      assert b == k && order[..k][a] == q;
    }
  }

  /** `q` published the capability with the marker that is asked for. */
  predicate MarkerFits(committed: Committed, q: PluginId, c: Contract) {
    (q, c.capability) in committed && committed[(q, c.capability)].marker == c.marker
  }

  /** The handles of all providers in order, or the first provider with another marker. */
  lemma {:induction false} CollectResult(committed: Committed, providers: seq<PluginId>, c: Contract)
    requires forall q :: q in providers ==> (q, c.capability) in committed
    ensures var r := Collect(committed, providers, c);
            && (r.Ok? <==> forall q :: q in providers ==> MarkerFits(committed, q, c))
            && (r.Ok? ==> |r.value| == |providers|
                          && forall i :: 0 <= i < |providers| ==> r.value[i] == committed[(providers[i], c.capability)])
            && (r.Err? ==> exists i :: 0 <= i < |providers| && r.error == TypeMismatch(providers[i], c.capability)
                                       && !MarkerFits(committed, providers[i], c)
                                       && forall j :: 0 <= j < i ==> MarkerFits(committed, providers[j], c))
  {
    if providers != [] {
      CollectResult(committed, providers[1..], c);
      assert providers == [providers[0]] + providers[1..];
      var rest := Collect(committed, providers[1..], c);
      if MarkerFits(committed, providers[0], c) && rest.Err? {
        var i :| 0 <= i < |providers| - 1 && rest.error == TypeMismatch(providers[1..][i], c.capability)
                 && !MarkerFits(committed, providers[1..][i], c)
                 && forall j :: 0 <= j < i ==> MarkerFits(committed, providers[1..][j], c);
        assert providers[i + 1] == providers[1..][i];
        assert forall j :: 0 < j < i + 1 ==> providers[j] == providers[1..][j - 1];
      }
    }
  }

  /** What `require` returns for a declared requirement of a plugin whose dependencies are committed. */
  ghost predicate RequireFits(committed: Committed, consumer: PluginId, r: ResolvedRequirement, c: Contract,
      result: Result<Provision, AccessError>) {
    if !r.cardinality.ExactlyOne? then result == Err(CardinalityMismatch(consumer, c.capability, r.cardinality))
    else
      && |r.providers| == 1 && (r.providers[0], c.capability) in committed
      && result == if MarkerFits(committed, r.providers[0], c) then Ok(committed[(r.providers[0], c.capability)])
                   else Err(TypeMismatch(r.providers[0], c.capability))
  }

  ghost predicate OptionalFits(committed: Committed, consumer: PluginId, r: ResolvedRequirement, c: Contract,
      result: Result<Option<Provision>, AccessError>) {
    if !r.cardinality.ZeroOrOne? then result == Err(CardinalityMismatch(consumer, c.capability, r.cardinality))
    else if r.providers == [] then result == Ok(None)
    else
      && |r.providers| == 1 && (r.providers[0], c.capability) in committed
      && result == if MarkerFits(committed, r.providers[0], c) then Ok(Some(committed[(r.providers[0], c.capability)]))
                   else Err(TypeMismatch(r.providers[0], c.capability))
  }

  ghost predicate AllFits(committed: Committed, consumer: PluginId, r: ResolvedRequirement, c: Contract,
      result: Result<seq<Provision>, AccessError>) {
    if r.cardinality.ExactlyOne? || r.cardinality.ZeroOrOne? then
      result == Err(CardinalityMismatch(consumer, c.capability, r.cardinality))
    else
      && (forall q :: q in r.providers ==> (q, c.capability) in committed)
      && (result.Ok? <==> forall q :: q in r.providers ==> MarkerFits(committed, q, c))
      && (result.Ok? ==> |result.value| == |r.providers|
                         && forall i :: 0 <= i < |r.providers| ==>
                             result.value[i] == committed[(r.providers[i], c.capability)])
      && (result.Err? ==> exists i ::
                            && 0 <= i < |r.providers|
                            && result.error == TypeMismatch(r.providers[i], c.capability)
                                      && !MarkerFits(committed, r.providers[i], c)
                                      && forall j :: 0 <= j < i ==> MarkerFits(committed, r.providers[j], c))
  }

  /** What the three lookups of one marker give. */
  ghost predicate AccessFits(g: ResolvedGraph, committed: Committed, consumer: PluginId, marker: Marker,
      require_: Result<Provision, AccessError>, optional: Result<Option<Provision>, AccessError>,
      all: Result<seq<Provision>, AccessError>) {
    match marker
    case Err(e) =>
      var invalid := InvalidAccessContract(e);
      require_ == Err(invalid) && optional == Err(invalid) && all == Err(invalid)
    case Ok(c) =>
      match FindRequirement(g, consumer, c.capability)
      case None =>
        var undeclared := Undeclared(consumer, c.capability);
        require_ == Err(undeclared) && optional == Err(undeclared) && all == Err(undeclared)
      case Some(r) =>
        && RequireFits(committed, consumer, r, c, require_) && OptionalFits(committed, consumer, r, c, optional)
        && AllFits(committed, consumer, r, c, all)
  }

  /** The three lookups once the dependencies are committed: an invalid marker, an undeclared
      capability, a wrong access mode, a wrong marker, or the published handles; never a missing
      provision. */
  lemma AccessNeverMisses(g: ResolvedGraph, committed: Committed, consumer: PluginId, marker: Marker)
    requires CardinalitiesHold(g) && DependenciesCommitted(g, committed, consumer)
    ensures AccessFits(g, committed, consumer, marker, Require(g, committed, consumer, marker),
                       Optional(g, committed, consumer, marker), All(g, committed, consumer, marker))
  {
    if marker.Ok? { ValidAccess(g, committed, consumer, marker.value); }
  }

  lemma ValidAccess(g: ResolvedGraph, committed: Committed, consumer: PluginId, c: Contract)
    requires CardinalitiesHold(g) && DependenciesCommitted(g, committed, consumer)
    ensures AccessFits(g, committed, consumer, Ok(c), Require(g, committed, consumer, Ok(c)),
                       Optional(g, committed, consumer, Ok(c)), All(g, committed, consumer, Ok(c)))
  {
    SearchReturnsMember(g.requirements, (consumer, c.capability), 0, |g.requirements|);
    if FindRequirement(g, consumer, c.capability).Some? {
      var r := FindRequirement(g, consumer, c.capability).value;
      var i :| 0 <= i < |g.requirements| && g.requirements[i] == r && KeyOf(r) == (consumer, c.capability);
      assert forall q :: q in r.providers ==> (q, c.capability) in committed;
      assert CardinalityHolds(r);
      assert r.providers != [] ==> r.providers[0] in r.providers;
      CollectResult(committed, r.providers, c);
    }
  }

  lemma GraphCardinalities(spec: CompositionSpec, g: ResolvedGraph)
    requires ResolvedFrom(spec, g)
    ensures CardinalitiesHold(g)
  {
    hide ResolvedFrom;
    forall i | 0 <= i < |g.requirements|
      ensures CardinalityHolds(g.requirements[i])
    {
      RequirementIsFactual(spec, g, i);
    }
  }
}
