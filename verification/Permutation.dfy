/** Resolution does not depend on the order in which plugins and bindings are added. */
module Permutation {
  import opened Model
  import opened Topology
  import opened Composition
  import opened Inputs
  import opened Resolver

  ghost predicate Rearranges(a: CompositionSpec, b: CompositionSpec) {
    && a.schemaVersion == b.schemaVersion && a.limits == b.limits
    && multiset(a.plugins) == multiset(b.plugins)
    && multiset(a.bindings) == multiset(b.bindings)
  }

  lemma {:induction false} SameMembers<T>(a: seq<T>, b: seq<T>)
    requires multiset(a) == multiset(b)
    ensures |a| == |b|
    ensures forall x :: x in a <==> x in b
  {
    assert |multiset(a)| == |a| && |multiset(b)| == |b|;
    forall x
      ensures x in a <==> x in b
    {
      assert x in a <==> x in multiset(a);
      assert x in b <==> x in multiset(b);
    }
  }

  /** An element at two positions has multiplicity at least two, and conversely. */
  lemma {:induction false} RepeatIsMultiplicity<T>(s: seq<T>, x: T)
    ensures multiset(s)[x] >= 2 <==> exists i, j :: 0 <= i < j < |s| && s[i] == x && s[j] == x
  {
    if s != [] {
      var n := |s| - 1;
      RepeatIsMultiplicity(s[..n], x);
      assert s == s[..n] + [s[n]];
      assert multiset(s) == multiset(s[..n]) + multiset{s[n]};
      if s[n] == x && multiset(s)[x] >= 2 {
        assert x in multiset(s[..n]);
        assert x in s[..n];
        var i :| 0 <= i < n && s[..n][i] == x;
        assert s[i] == x && s[n] == x;
      }
      if i, j :| 0 <= i < j < |s| && s[i] == x && s[j] == x {
        if j == n {
          assert s[..n][i] == x;
          assert x in multiset(s[..n]);
        } else {
          assert s[..n][i] == x && s[..n][j] == x;
        }
      }
      if multiset(s[..n])[x] >= 2 {
        var i, j :| 0 <= i < j < n && s[..n][i] == x && s[..n][j] == x;
        assert s[i] == x && s[j] == x;
      }
    }
  }

  /** Two positions of a rearrangement come from two different positions. */
  lemma Origins<T>(a: seq<T>, b: seq<T>, i: nat, j: nat) returns (k: nat, l: nat)
    requires multiset(a) == multiset(b) && i < j < |b|
    ensures k < |a| && l < |a| && k != l && a[k] == b[i] && a[l] == b[j]
  {
    SameMembers(a, b);
    if b[i] == b[j] {
      RepeatIsMultiplicity(b, b[i]);
      RepeatIsMultiplicity(a, b[i]);
      k, l :| 0 <= k < l < |a| && a[k] == b[i] && a[l] == b[i];
    } else {
      assert b[i] in a && b[j] in a;
      k :| 0 <= k < |a| && a[k] == b[i];
      l :| 0 <= l < |a| && a[l] == b[j];
    }
  }

  /** Distinctness under a key survives rearrangement. */
  lemma DistinctKeysTransfer<T, K>(a: seq<T>, b: seq<T>, key: T -> K)
    requires multiset(a) == multiset(b)
    requires forall i, j :: 0 <= i < j < |a| ==> key(a[i]) != key(a[j])
    ensures forall i, j :: 0 <= i < j < |b| ==> key(b[i]) != key(b[j])
  {
    forall i, j | 0 <= i < j < |b|
      ensures key(b[i]) != key(b[j])
    {
      var k, l := Origins(a, b, i, j);
      assert key(a[if k < l then k else l]) != key(a[if k < l then l else k]);
    }
  }

  lemma IndexInvariant(a: seq<PluginDescriptor>, b: seq<PluginDescriptor>)
    requires multiset(a) == multiset(b) && DistinctPlugins(a)
    ensures DistinctPlugins(b) && Index(a) == Index(b)
  {
    DistinctKeysTransfer(a, b, (d: PluginDescriptor) => d.id);
    SameMembers(a, b);
    forall p: PluginId
      ensures p in Index(a) <==> p in Index(b)
      ensures p in Index(a) ==> Index(a)[p] == Index(b)[p]
    {
      IndexKeys(a, p);
      IndexKeys(b, p);
      if p in Index(a) {
        var i :| 0 <= i < |b| && b[i] == Index(a)[p];
        IndexHolds(b, i);
      }
      if p in Index(b) {
        var i :| 0 <= i < |a| && a[i] == Index(b)[p];
        IndexHolds(a, i);
      }
    }
  }

  lemma BindingIndexInvariant(a: seq<Binding>, b: seq<Binding>)
    requires multiset(a) == multiset(b) && DistinctBindings(a)
    ensures DistinctBindings(b) && BindingIndex(a) == BindingIndex(b)
  {
    DistinctKeysTransfer(a, b, (x: Binding) => BindingKey(x));
    SameMembers(a, b);
    forall k: Key
      ensures k in BindingIndex(a) <==> k in BindingIndex(b)
      ensures k in BindingIndex(a) ==> BindingIndex(a)[k] == BindingIndex(b)[k]
    {
      BindingIndexKeys(a, k);
      BindingIndexKeys(b, k);
      if k in BindingIndex(a) {
        var i :| 0 <= i < |b| && b[i] == Binding(k.0, k.1, BindingIndex(a)[k]);
        BindingIndexHolds(b, i);
      }
      if k in BindingIndex(b) {
        var i :| 0 <= i < |a| && a[i] == Binding(k.0, k.1, BindingIndex(b)[k]);
        BindingIndexHolds(a, i);
      }
    }
  }

  lemma ComposableTransfers(a: CompositionSpec, b: CompositionSpec)
    requires Rearranges(a, b) && Composable(a)
    ensures Composable(b)
    ensures Index(a.plugins) == Index(b.plugins) && BindingIndex(a.bindings) == BindingIndex(b.bindings)
  {
    hide SelectionOk, Acyclic, GraphDependencies, Conflicts, SelfDependencies, UnusedBindings;
    SameMembers(a.plugins, b.plugins);
    SameMembers(a.bindings, b.bindings);
    IndexInvariant(a.plugins, b.plugins);
    BindingIndexInvariant(a.bindings, b.bindings);
  }

  /** The graph of a composition is unique. */
  lemma GraphUnique(plugins: Plugins, bindings: Bindings, g: ResolvedGraph, h: ResolvedGraph)
    requires IsGraphOf(plugins, bindings, g) && IsGraphOf(plugins, bindings, h)
    ensures g == h
  {
    hide GraphRequirements, GraphEdges, GraphDependencies, IsLeastTopological;
    LeastTopologicalUnique(GraphDependencies(plugins, bindings), g.startupOrder, h.startupOrder);
  }

  /** Rearranging the inputs changes neither success nor the resolved graph. */
  lemma ResolutionIsOrderIndependent(a: CompositionSpec, b: CompositionSpec,
                                     ra: Result<ResolvedGraph, ResolveError>, rb: Result<ResolvedGraph, ResolveError>)
    requires Rearranges(a, b) && Outcome(a, ra) && Outcome(b, rb)
    ensures ra.Ok? <==> rb.Ok?
    ensures ra.Ok? ==> ra == rb
  {
    hide Composable, IsGraphOf, Explains;
    if ra.Ok? { ComposableTransfers(a, b); }
    if rb.Ok? { ComposableTransfers(b, a); }
    if ra.Ok? {
      GraphUnique(Index(a.plugins), BindingIndex(a.bindings), ra.value, rb.value);
    }
  }
}
