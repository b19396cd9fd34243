/** Which error a failing composition reports, and when that depends on the order in which
    plugins and bindings were added. */
module ErrorOrder {
  import opened Model
  import opened Ordering
  import opened Topology
  import opened Composition
  import opened Selection
  import opened Inputs
  import opened Requirements
  import opened Resolver
  import opened Permutation

  // ----- a list scanned for single faults and repeated keys

  /** What the scan of a list reports at its first bad element: its own fault, or that its key
      was seen before. */
  ghost predicate Stops<T, K, E>(s: seq<T>, own: T -> Option<E>, key: T -> K, repeat_: T -> E, i: nat, e: E) {
    && i < |s|
    && (forall j :: 0 <= j < i ==> own(s[j]).None?)
    && (forall j, k :: 0 <= j < k < i ==> key(s[j]) != key(s[k]))
    && if own(s[i]).Some? then e == own(s[i]).value
       else (exists j :: 0 <= j < i && key(s[j]) == key(s[i])) && e == repeat_(s[i])
  }

  /** The faults of a list, whatever the order of its elements. */
  ghost predicate HasFault<T, K, E>(s: seq<T>, own: T -> Option<E>, key: T -> K, repeat_: T -> E, e: E) {
    || (exists i :: 0 <= i < |s| && own(s[i]) == Some(e))
    || (exists i, j ::
          0 <= i < |s| && 0 <= j < |s| && i != j && own(s[i]).None? && own(s[j]).None?
          && key(s[i]) == key(s[j]) && e == repeat_(s[j]))
  }

  lemma StopIsFault<T, K, E>(s: seq<T>, own: T -> Option<E>, key: T -> K, repeat_: T -> E, i: nat, e: E)
    requires Stops(s, own, key, repeat_, i, e)
    ensures HasFault(s, own, key, repeat_, e)
  {
  }

  lemma FaultTransfers<T, K, E>(s: seq<T>, t: seq<T>, own: T -> Option<E>, key: T -> K, repeat_: T -> E, e: E)
    requires multiset(s) == multiset(t) && HasFault(t, own, key, repeat_, e)
    ensures HasFault(s, own, key, repeat_, e)
  {
    SameMembers(s, t);
    if i :| 0 <= i < |t| && own(t[i]) == Some(e) {
      assert t[i] in s;
    } else {
      var i, j :| 0 <= i < |t| && 0 <= j < |t| && i != j && own(t[i]).None? && own(t[j]).None? && key(t[i]) == key(t[j])
          && e == repeat_(t[j]);
      var k, l := Origins(s, t, if i < j then i else j, if i < j then j else i);
    }
  }

  /** Moves element `i` to the front. */
  function ToFront<T>(s: seq<T>, i: nat): (r: seq<T>)
    requires i < |s|
    ensures multiset(r) == multiset(s) && |r| == |s| && r[0] == s[i]
    ensures forall j :: 0 <= j < |s| && j != i ==> r[if j < i then j + 1 else j] == s[j]
  {
    assert s == s[..i] + [s[i]] + s[i + 1..];
    [s[i]] + s[..i] + s[i + 1..]
  }

  lemma RepeatCanStop<T, K, E>(s: seq<T>, own: T -> Option<E>, key: T -> K, repeat_: T -> E, i: nat, j: nat)
      returns (t: seq<T>)
    requires i < |s| && j < |s| && i != j && own(s[i]).None? && own(s[j]).None? && key(s[i]) == key(s[j])
    ensures multiset(t) == multiset(s) && Stops(t, own, key, repeat_, 1, repeat_(s[j]))
  {
    var u := ToFront(s, j);
    var k := if i < j then i + 1 else i;
    t := ToFront(u, k);
    hide ToFront;
    assert t[1] == u[0] == s[j] && t[0] == u[k] == s[i];
  }

  /** Every fault is the one reported for some order of the elements. */
  lemma FaultCanStop<T, K, E>(s: seq<T>, own: T -> Option<E>, key: T -> K, repeat_: T -> E, e: E)
      returns (t: seq<T>, at: nat)
    requires HasFault(s, own, key, repeat_, e)
    ensures multiset(t) == multiset(s) && Stops(t, own, key, repeat_, at, e)
  {
    if i :| 0 <= i < |s| && own(s[i]) == Some(e) {
      t, at := ToFront(s, i), 0;
    } else {
      var i, j :| 0 <= i < |s| && 0 <= j < |s| && i != j && own(s[i]).None? && own(s[j]).None? && key(s[i]) == key(s[j])
          && e == repeat_(s[j]);
      t := RepeatCanStop(s, own, key, repeat_, i, j);
      at := 1;
    }
  }

  // ----- the plugin list

  function PluginOwnFault(limits: GraphLimits): PluginDescriptor -> Option<ResolveError> {
    (d: PluginDescriptor) =>
      if DeclarationCount(d) > limits.maxCapabilitiesPerPlugin
      then Some(CapabilityLimitExceeded(d.id, DeclarationCount(d), limits.maxCapabilitiesPerPlugin)) else None
  }

  function PluginKey(): PluginDescriptor -> PluginId {
    (d: PluginDescriptor) => d.id
  }

  function PluginRepeat(): PluginDescriptor -> ResolveError {
    (d: PluginDescriptor) => DuplicatePlugin(d.id)
  }

  /** A descriptor over the capability limit, or two within it with the same identity. */
  ghost predicate PluginFault(plugins: seq<PluginDescriptor>, limits: GraphLimits, e: ResolveError) {
    HasFault(plugins, PluginOwnFault(limits), PluginKey(), PluginRepeat(), e)
  }

  lemma AllWithinLimit(plugins: seq<PluginDescriptor>, limits: GraphLimits, i: nat)
    requires i <= |plugins|
    ensures WithinCapabilityLimit(plugins[..i], limits) <==>
            forall j :: 0 <= j < i ==> PluginOwnFault(limits)(plugins[j]).None?
  {
    assert forall j :: 0 <= j < i ==> plugins[..i][j] == plugins[j] && plugins[j] in plugins[..i];
  }

  lemma AllDistinct(plugins: seq<PluginDescriptor>, i: nat)
    requires i <= |plugins|
    ensures DistinctPlugins(plugins[..i]) <==>
            forall j, k :: 0 <= j < k < i ==> PluginKey()(plugins[j]) != PluginKey()(plugins[k])
  {
    assert forall j :: 0 <= j < i ==> plugins[..i][j] == plugins[j];
  }

  lemma FirstBadPluginStops(plugins: seq<PluginDescriptor>, limits: GraphLimits, i: nat, e: ResolveError)
    requires i < |plugins|
    ensures FirstBadPlugin(plugins, limits, i, e) <==>
        Stops(plugins, PluginOwnFault(limits), PluginKey(), PluginRepeat(), i, e)
  {
    hide WithinCapabilityLimit, DistinctPlugins;
    AllWithinLimit(plugins, limits, i);
    AllDistinct(plugins, i);
  }

  /** A list that is not all right stops its scan somewhere. */
  lemma {:induction false} FaultyListStops<T, K, E>(s: seq<T>, own: T -> Option<E>, key: T -> K, repeat_: T -> E,
      n: nat) returns (i: nat, e: E)
    requires n <= |s|
    requires !((forall j :: 0 <= j < n ==> own(s[j]).None?)
        && (forall j, k :: 0 <= j < k < n ==> key(s[j]) != key(s[k])))
    ensures Stops(s, own, key, repeat_, i, e)
  {
    if !((forall j :: 0 <= j < n - 1 ==> own(s[j]).None?)
        && (forall j, k :: 0 <= j < k < n - 1 ==> key(s[j]) != key(s[k]))) {
      i, e := FaultyListStops(s, own, key, repeat_, n - 1);
    } else {
      i := n - 1;
      e := if own(s[i]).Some? then own(s[i]).value else repeat_(s[i]);
    }
  }

  ghost predicate PluginListFails(a: CompositionSpec) {
    SchemaOk(a) && LimitsOk(a) && !PluginsOk(a)
  }

  lemma PluginListFailsToo(a: CompositionSpec, b: CompositionSpec)
    requires Rearranges(a, b) && PluginListFails(a)
    ensures PluginListFails(b)
  {
    SameMembers(a.plugins, b.plugins);
    if PluginsOk(b) { DistinctKeysTransfer(b.plugins, a.plugins, (d: PluginDescriptor) => d.id); }
  }

  lemma ExplainsPlugin(a: CompositionSpec, e: ResolveError)
    requires PluginListFails(a)
    ensures Explains(a, e) <==> exists i :: 0 <= i < |a.plugins| && FirstBadPlugin(a.plugins, a.limits, i, e)
  {
    hide FirstBadPlugin, PluginsOk, Index, BindingIndex;
  }

  /** The errors reported over all orders of the plugins are exactly the faults of the list. */
  lemma PluginErrorsAreFaults(a: CompositionSpec, e: ResolveError)
    requires PluginListFails(a)
    ensures (exists b :: Rearranges(a, b) && Explains(b, e)) <==> PluginFault(a.plugins, a.limits, e)
  {
    hide Explains, PluginListFails, HasFault, Stops, FirstBadPlugin;
    if b :| Rearranges(a, b) && Explains(b, e) {
      PluginListFailsToo(a, b);
      ExplainsPlugin(b, e);
      var i :| 0 <= i < |b.plugins| && FirstBadPlugin(b.plugins, b.limits, i, e);
      FirstBadPluginStops(b.plugins, b.limits, i, e);
      StopIsFault(b.plugins, PluginOwnFault(a.limits), PluginKey(), PluginRepeat(), i, e);
      FaultTransfers(a.plugins, b.plugins, PluginOwnFault(a.limits), PluginKey(), PluginRepeat(), e);
    }
    if PluginFault(a.plugins, a.limits, e) {
      PluginFaultIsReported(a, e);
    }
  }

  lemma PluginFaultIsReported(a: CompositionSpec, e: ResolveError)
    requires PluginListFails(a) && PluginFault(a.plugins, a.limits, e)
    ensures exists b :: Rearranges(a, b) && Explains(b, e)
  {
    hide Explains, PluginListFails, HasFault, FirstBadPlugin;
    var t, i := FaultCanStop(a.plugins, PluginOwnFault(a.limits), PluginKey(), PluginRepeat(), e);
    var b := a.(plugins := t);
    assert Rearranges(a, b);
    PluginListFailsToo(a, b);
    FirstBadPluginStops(t, a.limits, i, e);
    ExplainsPlugin(b, e);
  }

  lemma PluginListReports(a: CompositionSpec) returns (e: ResolveError)
    requires PluginListFails(a)
    ensures Explains(a, e) && PluginFault(a.plugins, a.limits, e)
  {
    var own, key := PluginOwnFault(a.limits), PluginKey();
    var i;
    i, e := FaultyListStops(a.plugins, own, key, PluginRepeat(), |a.plugins|);
    FirstBadPluginStops(a.plugins, a.limits, i, e);
    hide FirstBadPlugin, Stops, HasFault;
    StopIsFault(a.plugins, own, key, PluginRepeat(), i, e);
    ExplainsPlugin(a, e);
  }

  /** The error does not depend on the order of the plugins exactly when the list has one fault. */
  lemma PluginOrderMattersIff(a: CompositionSpec)
    requires PluginListFails(a)
    ensures (forall b, e, f :: Rearranges(a, b) && Explains(a, e) && Explains(b, f) ==> e == f)
       <==> (forall e, f :: PluginFault(a.plugins, a.limits, e) && PluginFault(a.plugins, a.limits, f) ==> e == f)
  {
    hide Explains, PluginListFails, PluginFault;
    var own := PluginListReports(a);
    assert Rearranges(a, a);
    forall e ensures (exists b :: Rearranges(a, b) && Explains(b, e)) <==> PluginFault(a.plugins, a.limits, e) {
      PluginErrorsAreFaults(a, e);
    }
    hide Rearranges;
    if forall b, e, f :: Rearranges(a, b) && Explains(a, e) && Explains(b, f) ==> e == f {
      forall f | PluginFault(a.plugins, a.limits, f)
        ensures f == own
      {
        var b :| Rearranges(a, b) && Explains(b, f);
      }
    }
    if forall e, f :: PluginFault(a.plugins, a.limits, e) && PluginFault(a.plugins, a.limits, f) ==> e == f {
      forall b, e, f | Rearranges(a, b) && Explains(a, e) && Explains(b, f)
        ensures e == f
      {
        assert PluginFault(a.plugins, a.limits, e) && PluginFault(a.plugins, a.limits, f);
      }
    }
  }

  lemma RepeatAtFront(d: PluginDescriptor, rest: seq<PluginDescriptor>, limits: GraphLimits)
    requires DeclarationCount(d) <= limits.maxCapabilitiesPerPlugin
    ensures FirstBadPlugin([d, d] + rest, limits, 1, DuplicatePlugin(d.id)) && !DistinctPlugins([d, d] + rest)
  {
    var s := [d, d] + rest;
    assert s[..1] == [d] && s[0] == d && s[1] == d;
  }

  function FourPlugins(plugins: seq<PluginDescriptor>): CompositionSpec {
    CompositionSpec(COMPOSITION_SCHEMA_VERSION, GraphLimits(4, 4, 4), plugins, [])
  }

  lemma RepeatIsReported(d: PluginDescriptor, rest: seq<PluginDescriptor>)
    requires DeclarationCount(d) == 0 && |rest| == 2
    ensures Explains(FourPlugins([d, d] + rest), DuplicatePlugin(d.id))
  {
    var a := FourPlugins([d, d] + rest);
    RepeatAtFront(d, rest, a.limits);
    hide FirstBadPlugin, Explains, DistinctPlugins, WithinCapabilityLimit;
    ExplainsPlugin(a, DuplicatePlugin(d.id));
  }

  /** Two identities, each declared twice: which one is reported depends on the order. */
  lemma InsertionOrderDecidesError() returns (a: CompositionSpec, b: CompositionSpec, e: ResolveError, f: ResolveError)
    ensures Rearranges(a, b) && Explains(a, e) && Explains(b, f) && e != f
  {
    hide Explains;
    var p := PluginDescriptor(1, Version(1, 0, 0, ""), map[], map[], {});
    var q := p.(id := 2);
    a, b := FourPlugins([p, p] + [q, q]), FourPlugins([q, q] + [p, p]);
    e, f := DuplicatePlugin(1), DuplicatePlugin(2);
    RepeatIsReported(p, [q, q]);
    RepeatIsReported(q, [p, p]);
  }

  // ----- the binding list

  function BindingOwnFault(plugins: Plugins): Binding -> Option<ResolveError> {
    (b: Binding) =>
      if b.consumer !in plugins then Some(UnknownBindingConsumer(b.consumer))
      else if b.provider !in plugins then Some(UnknownBindingProvider(b.provider)) else None
  }

  function KeyOfBinding(): Binding -> Key {
    (b: Binding) => BindingKey(b)
  }

  function BindingRepeat(): Binding -> ResolveError {
    (b: Binding) => DuplicateBinding(b.consumer, b.capability)
  }

  /** A binding with an unknown end, or two known ones for one consumer and capability. */
  ghost predicate BindingFault(plugins: Plugins, bindings: seq<Binding>, e: ResolveError) {
    HasFault(bindings, BindingOwnFault(plugins), KeyOfBinding(), BindingRepeat(), e)
  }

  lemma FirstBadBindingStops(plugins: Plugins, bindings: seq<Binding>, i: nat, e: ResolveError)
    requires i < |bindings|
    ensures FirstBadBinding(plugins, bindings, i, e) <==>
        Stops(bindings, BindingOwnFault(plugins), KeyOfBinding(), BindingRepeat(), i, e)
  {
    var own, key := BindingOwnFault(plugins), KeyOfBinding();
    assert KnownBindings(plugins, bindings[..i]) <==> forall j :: 0 <= j < i ==> own(bindings[j]).None? by {
      assert forall j :: 0 <= j < i ==> bindings[..i][j] == bindings[j] && bindings[j] in bindings[..i];
    }
    assert DistinctBindings(bindings[..i]) <==>
           forall j, k :: 0 <= j < k < i ==> key(bindings[j]) != key(bindings[k]) by {
      assert forall j :: 0 <= j < i ==> bindings[..i][j] == bindings[j];
    }
  }

  /** Every check before the bindings passes, and the bindings fail. */
  ghost predicate BindingListFails(a: CompositionSpec) {
    var plugins := Index(a.plugins);
    && SchemaOk(a) && LimitsOk(a) && PluginsOk(a) && Conflicts(plugins) == {} && SelfDependencies(plugins) == {}
    && !BindingsOk(plugins, a.bindings)
  }

  lemma SamePlugins(a: CompositionSpec, b: CompositionSpec)
    requires Rearranges(a, b) && PluginsOk(a)
    ensures PluginsOk(b) && Index(a.plugins) == Index(b.plugins) && |a.plugins| == |b.plugins|
  {
    SameMembers(a.plugins, b.plugins);
    IndexInvariant(a.plugins, b.plugins);
  }

  lemma SameBindings(plugins: Plugins, s: seq<Binding>, t: seq<Binding>)
    requires multiset(s) == multiset(t) && BindingsOk(plugins, s)
    ensures BindingsOk(plugins, t) && BindingIndex(s) == BindingIndex(t)
  {
    SameMembers(s, t);
    BindingIndexInvariant(s, t);
  }

  lemma BindingListFailsToo(a: CompositionSpec, b: CompositionSpec)
    requires Rearranges(a, b) && BindingListFails(a)
    ensures BindingListFails(b) && Index(a.plugins) == Index(b.plugins)
  {
    hide BindingsOk, PluginsOk, Index, Conflicts, SelfDependencies;
    SamePlugins(a, b);
    if BindingsOk(Index(a.plugins), b.bindings) { SameBindings(Index(a.plugins), b.bindings, a.bindings); }
  }

  ghost predicate SomeBadBinding(plugins: Plugins, bindings: seq<Binding>, e: ResolveError) {
    exists i :: 0 <= i < |bindings| && FirstBadBinding(plugins, bindings, i, e)
  }

  lemma ExplainsBinding(a: CompositionSpec, e: ResolveError)
    requires BindingListFails(a)
    ensures Explains(a, e) <==> SomeBadBinding(Index(a.plugins), a.bindings, e)
  {
    var plugins := Index(a.plugins);
    assert Conflicts(plugins) == {} && SelfDependencies(plugins) == {} && !BindingsOk(plugins, a.bindings)
        && PluginsOk(a);
    hide FirstBadBinding, PluginsOk, Index, BindingIndex, BindingsOk, Conflicts, SelfDependencies;
    if Explains(a, e) {
      var i :| 0 <= i < |a.bindings| && FirstBadBinding(plugins, a.bindings, i, e);
    }
  }

  lemma BindingFaultIsReported(a: CompositionSpec, e: ResolveError)
    requires BindingListFails(a) && BindingFault(Index(a.plugins), a.bindings, e)
    ensures exists b :: Rearranges(a, b) && Explains(b, e)
  {
    hide Explains, BindingListFails, HasFault, FirstBadBinding;
    var t, i := FaultCanStop(a.bindings, BindingOwnFault(Index(a.plugins)), KeyOfBinding(), BindingRepeat(), e);
    var b := a.(bindings := t);
    assert Rearranges(a, b);
    BindingListFailsToo(a, b);
    FirstBadBindingStops(Index(a.plugins), t, i, e);
    ExplainsBinding(b, e);
  }

  /** The errors reported over all orders are exactly the faults of the binding list. */
  lemma BindingErrorsAreFaults(a: CompositionSpec, e: ResolveError)
    requires BindingListFails(a)
    ensures (exists b :: Rearranges(a, b) && Explains(b, e)) <==> BindingFault(Index(a.plugins), a.bindings, e)
  {
    hide Explains, BindingListFails, HasFault, Stops, FirstBadBinding;
    var own := BindingOwnFault(Index(a.plugins));
    if b :| Rearranges(a, b) && Explains(b, e) {
      BindingListFailsToo(a, b);
      ExplainsBinding(b, e);
      var i :| 0 <= i < |b.bindings| && FirstBadBinding(Index(b.plugins), b.bindings, i, e);
      FirstBadBindingStops(Index(b.plugins), b.bindings, i, e);
      StopIsFault(b.bindings, own, KeyOfBinding(), BindingRepeat(), i, e);
      FaultTransfers(a.bindings, b.bindings, own, KeyOfBinding(), BindingRepeat(), e);
    }
    if BindingFault(Index(a.plugins), a.bindings, e) {
      BindingFaultIsReported(a, e);
    }
  }

  lemma BindingListReports(a: CompositionSpec) returns (e: ResolveError)
    requires BindingListFails(a)
    ensures Explains(a, e) && BindingFault(Index(a.plugins), a.bindings, e)
  {
    var own, key := BindingOwnFault(Index(a.plugins)), KeyOfBinding();
    var i;
    i, e := FaultyListStops(a.bindings, own, key, BindingRepeat(), |a.bindings|);
    FirstBadBindingStops(Index(a.plugins), a.bindings, i, e);
    hide FirstBadBinding, Stops, HasFault, Index;
    StopIsFault(a.bindings, own, key, BindingRepeat(), i, e);
    ExplainsBinding(a, e);
  }

  /** The error does not depend on the order of the bindings exactly when the list has one fault. */
  lemma BindingOrderMattersIff(a: CompositionSpec)
    requires BindingListFails(a)
    ensures (forall b, e, f :: Rearranges(a, b) && Explains(a, e) && Explains(b, f) ==> e == f)
       <==> (forall e, f ::
              BindingFault(Index(a.plugins), a.bindings, e) && BindingFault(Index(a.plugins), a.bindings, f) ==> e == f)
  {
    hide Explains, BindingListFails, BindingFault, Index;
    var own := BindingListReports(a);
    assert Rearranges(a, a);
    forall e ensures (exists b :: Rearranges(a, b) && Explains(b, e)) <==>
        BindingFault(Index(a.plugins), a.bindings, e) {
      BindingErrorsAreFaults(a, e);
    }
    hide Rearranges;
    if forall b, e, f :: Rearranges(a, b) && Explains(a, e) && Explains(b, f) ==> e == f {
      forall f | BindingFault(Index(a.plugins), a.bindings, f)
        ensures f == own
      {
        var b :| Rearranges(a, b) && Explains(b, f);
      }
    }
    if forall e, f :: BindingFault(Index(a.plugins), a.bindings, e) && BindingFault(Index(a.plugins), a.bindings, f) ==>
        e == f {
      forall b, e, f | Rearranges(a, b) && Explains(a, e) && Explains(b, f)
        ensures e == f
      {
        assert BindingFault(Index(a.plugins), a.bindings, e) && BindingFault(Index(a.plugins), a.bindings, f);
      }
    }
  }

  /** Two bindings for consumers that are not installed, in this order. */
  function TwoBindings(p: PluginId, q: PluginId): CompositionSpec {
    CompositionSpec(COMPOSITION_SCHEMA_VERSION, GraphLimits(4, 4, 4), [], [Binding(p, 0, 0), Binding(q, 0, 0)])
  }

  lemma FirstBindingIsReported(p: PluginId, q: PluginId)
    ensures Explains(TwoBindings(p, q), UnknownBindingConsumer(p))
  {
    var a := TwoBindings(p, q);
    assert a.bindings[0] in a.bindings;
    assert a.bindings[..0] == [];
    assert BindingListFails(a) && FirstBadBinding(Index(a.plugins), a.bindings, 0, UnknownBindingConsumer(p));
    hide Explains, FirstBadBinding, BindingListFails;
    ExplainsBinding(a, UnknownBindingConsumer(p));
  }

  /** Two bindings with an unknown consumer: which one is reported depends on the order. */
  lemma BindingOrderDecidesError() returns (a: CompositionSpec, b: CompositionSpec, e: ResolveError, f: ResolveError)
    ensures Rearranges(a, b) && Explains(a, e) && Explains(b, f) && e != f
  {
    hide Explains;
    a, b, e, f := TwoBindings(1, 2), TwoBindings(2, 1), UnknownBindingConsumer(1), UnknownBindingConsumer(2);
    FirstBindingIsReported(1, 2);
    FirstBindingIsReported(2, 1);
  }

  // ----- every other failure

  /** The plugin list and, if it gets that far, the binding list pass their scans. */
  ghost predicate ListsPass(a: CompositionSpec) {
    !PluginListFails(a) && !BindingListFails(a)
  }

  lemma SameExplanation(a: CompositionSpec, b: CompositionSpec, f: ResolveError)
    requires Rearranges(a, b) && ListsPass(a) && Explains(b, f)
    ensures Explains(a, f)
  {
    hide PluginsOk, BindingsOk, SelectionOk, Conflicts, SelfDependencies, FailsAt, UnusedBindings, Index,
      BindingIndex, Acyclic, IsSimpleDependencyCycle, ReportedCycle, GraphDependencies, FirstBadPlugin,
      FirstBadBinding, ListsPass;
    SameMembers(a.plugins, b.plugins);
    if SchemaOk(a) && LimitsOk(a) { ListsAgree(a, b); }
  }

  lemma ListsAgree(a: CompositionSpec, b: CompositionSpec)
    requires Rearranges(a, b) && ListsPass(a) && SchemaOk(a) && LimitsOk(a)
    ensures PluginsOk(a) && PluginsOk(b) && Index(a.plugins) == Index(b.plugins) && |a.plugins| == |b.plugins|
    ensures Conflicts(Index(a.plugins)) == {} && SelfDependencies(Index(a.plugins)) == {} ==>
              && BindingsOk(Index(a.plugins), a.bindings) && BindingsOk(Index(b.plugins), b.bindings)
              && BindingIndex(a.bindings) == BindingIndex(b.bindings)
  {
    hide PluginsOk, BindingsOk, Index, BindingIndex, Conflicts, SelfDependencies;
    SamePlugins(a, b);
    var plugins := Index(a.plugins);
    if Conflicts(plugins) == {} && SelfDependencies(plugins) == {} { SameBindings(plugins, a.bindings, b.bindings); }
  }

  // ----- the error is determined

  lemma StopIsUnique<T, K, E>(s: seq<T>, own: T -> Option<E>, key: T -> K, repeat_: T -> E, i: nat, e: E, j: nat, f: E)
    requires Stops(s, own, key, repeat_, i, e) && Stops(s, own, key, repeat_, j, f)
    ensures i == j && e == f
  {
  }

  lemma FailingKeyOrdered(plugins: Plugins, bindings: Bindings, max: nat, d: set<Key>, k: Key, e: ResolveError,
      c: set<Key>, j: Key, f: ResolveError)
    requires FailsAt(plugins, bindings, d, k, max, e) && FailsAt(plugins, bindings, c, j, max, f)
    ensures !KeyLess(k, j)
  {
    if KeyLess(k, j) {
      assert k in Keys(plugins);
      assert k in c;
      KeyOrder();
      assert d + {k} <= c;
      EdgesMonotone(plugins, bindings, d + {k}, c);
    }
  }

  lemma {:induction false} AscendingPairsUnique<V(!new)>(s: seq<(PluginId, V)>, t: seq<(PluginId, V)>)
    requires forall i, j :: 0 <= i < j < |s| ==> s[i].0 < s[j].0
    requires forall i, j :: 0 <= i < j < |t| ==> t[i].0 < t[j].0
    requires forall p: PluginId, v: V :: (p, v) in s <==> (p, v) in t
    ensures s == t
  {
    assert forall x :: x in s <==> (x.0, x.1) in s;
    if s != [] && t != [] {
      assert (s[0].0, s[0].1) in t && (t[0].0, t[0].1) in s;
      assert s[0] == t[0];
      forall p: PluginId, v: V ensures (p, v) in s[1..] <==> (p, v) in t[1..] {
        TailPair(s, (p, v));
        TailPair(t, (p, v));
      }
      AscendingPairsUnique(s[1..], t[1..]);
    } else {
      SomePair(s);
      SomePair(t);
    }
  }

  lemma SomePair<V(!new)>(s: seq<(PluginId, V)>)
    ensures s == [] || exists p: PluginId, v: V :: (p, v) in s
  {
    if s != [] { assert (s[0].0, s[0].1) in s; }
  }

  lemma TailPair<V(!new)>(s: seq<(PluginId, V)>, x: (PluginId, V))
    requires s != [] && forall i, j :: 0 <= i < j < |s| ==> s[i].0 < s[j].0
    ensures x in s[1..] <==> x in s && x != s[0]
  {
    if x in s && x != s[0] {
      var i :| 0 <= i < |s| && s[i] == x;
      assert s[1..][i - 1] == x;
    }
  }

  lemma SelectionErrorUnique(plugins: Plugins, bindings: Bindings, k: Key, e: ResolveError, f: ResolveError)
    requires Declares(plugins, k) && SelectionFails(plugins, bindings, k, e) && SelectionFails(plugins, bindings, k, f)
    ensures e == f
  {
    assert Compatible(plugins, k) <= Offering(plugins, k.1);
    if e.IncompatibleProvider? && f.IncompatibleProvider? {
      AscendingPairsUnique(e.available, f.available);
    }
  }

  lemma FailureIsUnique(plugins: Plugins, bindings: Bindings, max: nat, d: set<Key>, k: Key, e: ResolveError,
      c: set<Key>, j: Key, f: ResolveError)
    requires FailsAt(plugins, bindings, d, k, max, e) && FailsAt(plugins, bindings, c, j, max, f)
    ensures e == f
  {
    FailingKeyOrdered(plugins, bindings, max, d, k, e, c, j, f);
    FailingKeyOrdered(plugins, bindings, max, c, j, f, d, k, e);
    assert k == j;
    hide SelectionFails, Selectable;
    if !Selectable(plugins, bindings, k) { SelectionErrorUnique(plugins, bindings, k, e, f); }
  }

  lemma BadPluginUnique(a: CompositionSpec, e: ResolveError, f: ResolveError)
    requires PluginListFails(a) && Explains(a, e) && Explains(a, f)
    ensures e == f
  {
    hide Explains, FirstBadPlugin, Stops, PluginListFails;
    ExplainsPlugin(a, e);
    ExplainsPlugin(a, f);
    var i: nat :| i < |a.plugins| && FirstBadPlugin(a.plugins, a.limits, i, e);
    var j: nat :| j < |a.plugins| && FirstBadPlugin(a.plugins, a.limits, j, f);
    FirstBadPluginStops(a.plugins, a.limits, i, e);
    FirstBadPluginStops(a.plugins, a.limits, j, f);
    StopIsUnique(a.plugins, PluginOwnFault(a.limits), PluginKey(), PluginRepeat(), i, e, j, f);
  }

  lemma BadBindingUnique(a: CompositionSpec, e: ResolveError, f: ResolveError)
    requires BindingListFails(a) && Explains(a, e) && Explains(a, f)
    ensures e == f
  {
    hide Explains, FirstBadBinding, Stops, BindingListFails, Index;
    ExplainsBinding(a, e);
    ExplainsBinding(a, f);
    var plugins := Index(a.plugins);
    var i: nat :| i < |a.bindings| && FirstBadBinding(plugins, a.bindings, i, e);
    var j: nat :| j < |a.bindings| && FirstBadBinding(plugins, a.bindings, j, f);
    FirstBadBindingStops(plugins, a.bindings, i, e);
    FirstBadBindingStops(plugins, a.bindings, j, f);
    StopIsUnique(a.bindings, BindingOwnFault(plugins), KeyOfBinding(), BindingRepeat(), i, e, j, f);
  }

  lemma LeastUnique(s: set<Key>, k: Key, j: Key)
    requires IsLeast(KeyLess, s, k) && IsLeast(KeyLess, s, j)
    ensures k == j
  {
    KeyOrder();
  }

  lemma FailuresAgree(plugins: Plugins, bindings: Bindings, max: nat, e: ResolveError, f: ResolveError)
    requires exists d, k :: FailsAt(plugins, bindings, d, k, max, e)
    requires exists c, j :: FailsAt(plugins, bindings, c, j, max, f)
    ensures e == f
  {
    hide FailsAt;
    var d, k :| FailsAt(plugins, bindings, d, k, max, e);
    var c, j :| FailsAt(plugins, bindings, c, j, max, f);
    FailureIsUnique(plugins, bindings, max, d, k, e, c, j, f);
  }

  lemma LeastAgree(s: set<Key>)
    ensures forall k, j :: IsLeast(KeyLess, s, k) && IsLeast(KeyLess, s, j) ==> k == j
  {
    forall k, j | IsLeast(KeyLess, s, k) && IsLeast(KeyLess, s, j) ensures k == j { LeastUnique(s, k, j); }
  }

  /** The selection of providers is reached and fails. */
  ghost predicate SelectionIsReached(a: CompositionSpec) {
    var plugins := Index(a.plugins);
    && SchemaOk(a) && LimitsOk(a) && PluginsOk(a) && Conflicts(plugins) == {} && SelfDependencies(plugins) == {}
    && BindingsOk(plugins, a.bindings) && !SelectionOk(plugins, BindingIndex(a.bindings), a.limits)
  }

  lemma ExplainsSelection(a: CompositionSpec, e: ResolveError)
    requires SelectionIsReached(a) && Explains(a, e)
    ensures exists d, k :: FailsAt(Index(a.plugins), BindingIndex(a.bindings), d, k, a.limits.maxEdges, e)
  {
    var plugins := Index(a.plugins);
    assert Conflicts(plugins) == {} && SelfDependencies(plugins) == {} && BindingsOk(plugins, a.bindings)
        && PluginsOk(a);
    hide PluginsOk, Index, BindingIndex, BindingsOk, Conflicts, SelfDependencies, SelectionOk, FailsAt;
  }

  /** A check of the installed plugins fails: a conflict or a self-dependency. */
  ghost predicate InstallFails(a: CompositionSpec) {
    Conflicts(Index(a.plugins)) != {} || SelfDependencies(Index(a.plugins)) != {}
  }

  ghost predicate LeastConflict(s: set<Key>, e: ResolveError) {
    exists k :: IsLeast(KeyLess, s, k) && e == if k.0 < k.1 then PluginConflict(k.0, k.1) else PluginConflict(k.1, k.0)
  }

  ghost predicate LeastSelfDependency(s: set<Key>, e: ResolveError) {
    exists k :: IsLeast(KeyLess, s, k) && e == SelfDependency(k.0, k.1)
  }

  lemma ExplainsInstall(a: CompositionSpec, e: ResolveError)
    requires SchemaOk(a) && LimitsOk(a) && PluginsOk(a) && InstallFails(a) && Explains(a, e)
    ensures if Conflicts(Index(a.plugins)) != {} then LeastConflict(Conflicts(Index(a.plugins)), e)
            else LeastSelfDependency(SelfDependencies(Index(a.plugins)), e)
  {
    hide PluginsOk, Index, BindingIndex, Conflicts, SelfDependencies, IsLeast, KeyLess;
  }

  lemma LimitErrorUnique(a: CompositionSpec, e: ResolveError, f: ResolveError)
    requires !(SchemaOk(a) && LimitsOk(a)) && Explains(a, e) && Explains(a, f)
    ensures e == f
  {
    hide Index, BindingIndex, PluginsOk;
  }

  lemma PassedPlugins(a: CompositionSpec)
    requires ListsPass(a) && SchemaOk(a) && LimitsOk(a)
    ensures PluginsOk(a)
  {
  }

  lemma InstallErrorUnique(a: CompositionSpec, e: ResolveError, f: ResolveError)
    requires ListsPass(a) && InstallFails(a) && Explains(a, e) && Explains(a, f)
    ensures e == f
  {
    hide Explains, ListsPass, PluginsOk, Index, Conflicts, SelfDependencies, IsLeast, KeyLess, InstallFails;
    if SchemaOk(a) && LimitsOk(a) {
      hide SchemaOk, LimitsOk;
      PassedPlugins(a);
      LeastAgree(Conflicts(Index(a.plugins)));
      LeastAgree(SelfDependencies(Index(a.plugins)));
      ExplainsInstall(a, e);
      ExplainsInstall(a, f);
    } else {
      LimitErrorUnique(a, e, f);
    }
  }

  ghost predicate LeastUnused(s: set<Key>, e: ResolveError) {
    exists k :: IsLeast(KeyLess, s, k) && e == UnusedBinding(k.0, k.1)
  }

  lemma ExplainsLast(a: CompositionSpec, e: ResolveError)
    requires SchemaOk(a) && LimitsOk(a) && ListsPass(a) && !InstallFails(a) && !SelectionIsReached(a) && Explains(a, e)
    ensures var plugins, bindings := Index(a.plugins), BindingIndex(a.bindings);
            if UnusedBindings(plugins, bindings) != {} then LeastUnused(UnusedBindings(plugins, bindings), e)
            else e == DependencyCycle(ReportedCycle(GraphDependencies(plugins, bindings)))
  {
    hide PluginsOk, BindingsOk, SelectionOk, Conflicts, SelfDependencies, FailsAt, UnusedBindings, Index,
      BindingIndex, Acyclic, IsSimpleDependencyCycle, ReportedCycle, GraphDependencies, FirstBadPlugin,
      FirstBadBinding, IsLeast, KeyLess;
  }

  lemma LastErrorUnique(a: CompositionSpec, e: ResolveError, f: ResolveError)
    requires ListsPass(a) && !InstallFails(a) && !SelectionIsReached(a) && Explains(a, e) && Explains(a, f)
    ensures e == f
  {
    hide Explains, ListsPass, InstallFails, SelectionIsReached, UnusedBindings, Index, BindingIndex, ReportedCycle,
      GraphDependencies, IsLeast, KeyLess;
    if SchemaOk(a) && LimitsOk(a) {
      hide SchemaOk, LimitsOk;
      ExplainsLast(a, e);
      ExplainsLast(a, f);
      LeastAgree(UnusedBindings(Index(a.plugins), BindingIndex(a.bindings)));
    } else {
      LimitErrorUnique(a, e, f);
    }
  }

  lemma LaterErrorUnique(a: CompositionSpec, e: ResolveError, f: ResolveError)
    requires ListsPass(a) && Explains(a, e) && Explains(a, f)
    ensures e == f
  {
    hide Explains, ListsPass, InstallFails, SelectionIsReached, FailsAt;
    if InstallFails(a) {
      InstallErrorUnique(a, e, f);
    } else if SelectionIsReached(a) {
      ExplainsSelection(a, e);
      ExplainsSelection(a, f);
      FailuresAgree(Index(a.plugins), BindingIndex(a.bindings), a.limits.maxEdges, e, f);
    } else {
      LastErrorUnique(a, e, f);
    }
  }

  /** Apart from the two list scans, the error is the same for every order of the inputs, the
      reported cycle included. */
  lemma OtherErrorsAreOrderIndependent(a: CompositionSpec, b: CompositionSpec, e: ResolveError, f: ResolveError)
    requires Rearranges(a, b) && ListsPass(a) && Explains(a, e) && Explains(b, f)
    ensures e == f
  {
    SameExplanation(a, b, f);
    hide Explains, ListsPass, Rearranges;
    LaterErrorUnique(a, e, f);
  }

  /** One order, one error: the contract of `Resolve` determines it. */
  lemma ErrorIsDetermined(a: CompositionSpec, e: ResolveError, f: ResolveError)
    requires Explains(a, e) && Explains(a, f)
    ensures e == f
  {
    hide Explains, PluginListFails, BindingListFails;
    if PluginListFails(a) { BadPluginUnique(a, e, f); }
    else if BindingListFails(a) { BadBindingUnique(a, e, f); }
    else { LaterErrorUnique(a, e, f); }
  }
}
