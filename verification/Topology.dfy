/** Kahn's algorithm with an ordered ready set. */
module Topology {
  import opened Model
  import opened Ordering
  import opened CycleSearch

  ghost predicate HasEdge(edges: seq<ResolvedEdge>, provider: PluginId, consumer: PluginId) {
    exists capability :: ResolvedEdge(provider, consumer, capability) in edges
  }

  /** The distinct plugins that `consumer` has an edge from. */
  ghost function ProvidersOf(edges: seq<ResolvedEdge>, consumer: PluginId): (r: set<PluginId>)
    ensures forall p :: p in r <==> HasEdge(edges, p, consumer)
  {
    if edges == [] then {}
    else
      var n, e := |edges| - 1, edges[|edges| - 1];
      assert forall p, k :: ResolvedEdge(p, consumer, k) in edges <==>
                            ResolvedEdge(p, consumer, k) in edges[..n] || ResolvedEdge(p, consumer, k) == e;
      ProvidersOf(edges[..n], consumer) + if e.consumer == consumer then {e.provider} else {}
  }

  /** The distinct provider-to-consumer relation, read from the consumer's side. */
  type Dependencies = map<PluginId, set<PluginId>>

  ghost function DependenciesOf(nodes: set<PluginId>, edges: seq<ResolvedEdge>): Dependencies {
    map v | v in nodes :: ProvidersOf(edges, v)
  }

  ghost predicate EdgesWithin(nodes: set<PluginId>, edges: seq<ResolvedEdge>) {
    forall e :: e in edges ==> e.provider in nodes && e.consumer in nodes
  }

  ghost predicate Closed(deps: Dependencies) {
    forall v :: v in deps ==> deps[v] <= deps.Keys
  }

  ghost predicate DependsOn(deps: Dependencies, consumer: PluginId, provider: PluginId) {
    consumer in deps && provider in deps[consumer]
  }

  /** A permutation of the nodes in which every provider precedes its consumers. */
  ghost predicate IsTopological(deps: Dependencies, order: seq<PluginId>) {
    && NoRepeats(order)
    && (forall x :: x in order <==> x in deps)
    && ProvidersFirst(deps, order)
  }

  ghost predicate ProvidersFirst(deps: Dependencies, order: seq<PluginId>) {
    forall i :: 0 <= i < |order| ==> order[i] in deps && deps[order[i]] <= Elements(order[..i])
  }

  /** The nodes not in `done` whose providers all are. */
  ghost function Available(deps: Dependencies, done: set<PluginId>): set<PluginId> {
    set v | v in deps && v !in done && deps[v] <= done
  }

  /** Each entry is the least node available at its position. */
  ghost predicate Greedy(deps: Dependencies, order: seq<PluginId>) {
    forall i :: 0 <= i < |order| ==> IsLeast(IdLess, Available(deps, Elements(order[..i])), order[i])
  }

  /** `a` is `b`, or smaller at the first position where they differ. */
  ghost predicate LexicographicallyAtMost(a: seq<PluginId>, b: seq<PluginId>) {
    a == b || exists k :: 0 <= k < |a| && k < |b| && a[..k] == b[..k] && a[k] < b[k]
  }

  ghost predicate IsLeastTopological(deps: Dependencies, order: seq<PluginId>) {
    IsTopological(deps, order) && forall other :: IsTopological(deps, other) ==> LexicographicallyAtMost(order, other)
  }

  /** A closed walk along provider-to-consumer arcs. */
  ghost predicate IsDependencyCycle(deps: Dependencies, w: seq<PluginId>) {
    && |w| >= 2 && w[0] == w[|w| - 1]
    && (forall i :: 0 <= i < |w| - 1 ==> DependsOn(deps, w[i + 1], w[i]))
  }

  ghost predicate IsSimpleDependencyCycle(deps: Dependencies, w: seq<PluginId>) {
    IsDependencyCycle(deps, w) && NoRepeats(w[..|w| - 1])
  }

  ghost predicate Acyclic(deps: Dependencies) {
    forall w :: !IsDependencyCycle(deps, w)
  }

  lemma {:induction false} WalkMovesForward(deps: Dependencies, order: seq<PluginId>, w: seq<PluginId>, j: nat)
    requires NoRepeats(order) && ProvidersFirst(deps, order)
    requires |w| >= 2 && (forall i :: 0 <= i < |w| - 1 ==> DependsOn(deps, w[i + 1], w[i]))
    requires j < |order| && order[j] == w[|w| - 1]
    ensures exists i :: 0 <= i < j && order[i] == w[0]
    decreases |w|
  {
    var last := |w| - 1;
    assert DependsOn(deps, order[j], w[last - 1]);
    assert w[last - 1] in Elements(order[..j]);
    var i :| 0 <= i < j && order[i] == w[last - 1];
    if last > 1 {
      WalkMovesForward(deps, order, w[..last], i);
      var i' :| 0 <= i' < i && order[i'] == w[..last][0];
    }
  }

  /** An order that puts providers first rules out cycles. */
  lemma TopologicalIsAcyclic(deps: Dependencies, order: seq<PluginId>)
    requires IsTopological(deps, order)
    ensures Acyclic(deps)
  {
    forall w
      ensures !IsDependencyCycle(deps, w)
    {
      if IsDependencyCycle(deps, w) {
        assert DependsOn(deps, w[|w| - 1], w[|w| - 2]);
        assert w[|w| - 1] in order;
        var j :| 0 <= j < |order| && order[j] == w[|w| - 1];
        WalkMovesForward(deps, order, w, j);
        assert false;
      }
    }
  }

  /** The greedy order is the lexicographically least topological order. */
  lemma {:induction false} GreedyIsLeast(deps: Dependencies, order: seq<PluginId>, other: seq<PluginId>, k: nat)
    requires IsTopological(deps, order) && Greedy(deps, order)
    requires IsTopological(deps, other)
    requires k <= |order| == |other| && order[..k] == other[..k]
    ensures LexicographicallyAtMost(order, other)
    decreases |order| - k
  {
    if k == |order| {
      assert order == order[..k] && other == other[..k];
    } else if order[k] == other[k] {
      assert order[..k + 1] == order[..k] + [order[k]];
      assert other[..k + 1] == other[..k] + [other[k]];
      GreedyIsLeast(deps, order, other, k + 1);
    } else {
      assert other[k] in other;
      assert other[k] !in other[..k];
      assert other[k] in Available(deps, Elements(order[..k]));
    }
  }

  lemma TopologicalLength(deps: Dependencies, order: seq<PluginId>)
    requires IsTopological(deps, order)
    ensures |order| == |deps|
  {
    NoRepeatsCount(order);
    assert Elements(order) == deps.Keys;
  }

  lemma GreedyIsLeastTopological(deps: Dependencies, order: seq<PluginId>)
    requires IsTopological(deps, order) && Greedy(deps, order)
    ensures IsLeastTopological(deps, order)
  {
    forall other | IsTopological(deps, other)
      ensures LexicographicallyAtMost(order, other)
    {
      TopologicalLength(deps, order);
      TopologicalLength(deps, other);
      GreedyIsLeast(deps, order, other, 0);
    }
  }

  /** The startup order is a function of the dependency relation alone. */
  lemma LeastTopologicalUnique(deps: Dependencies, a: seq<PluginId>, b: seq<PluginId>)
    requires IsLeastTopological(deps, a) && IsLeastTopological(deps, b)
    ensures a == b
  {
    LexicographicAntisymmetry(a, b);
  }

  lemma LexicographicAntisymmetry(a: seq<PluginId>, b: seq<PluginId>)
    requires LexicographicallyAtMost(a, b) && LexicographicallyAtMost(b, a)
    ensures a == b
  {
    if a != b {
      var k :| 0 <= k < |a| && k < |b| && a[..k] == b[..k] && a[k] < b[k];
      assert forall i :: 0 <= i < k ==> a[i] == a[..k][i] && b[i] == b[..k][i];
      forall l | 0 <= l < |b| && l < |a|
        ensures !(b[..l] == a[..l] && b[l] < a[l])
      {
        if k < l { assert a[..l][k] == a[k] && b[..l][k] == b[k]; }
      }
      assert false;
    }
  }

  /** `adjacency` is the same relation, read from the provider's side. */
  ghost predicate AdjacencyOf(deps: Dependencies, adjacency: Adjacency) {
    forall p, c :: Arc(adjacency, p, c) <==> DependsOn(deps, c, p)
  }

  /** The in-degree of a node is the number of distinct providers it waits for. */
  ghost predicate Counts(pending: Dependencies, indegree: map<PluginId, nat>) {
    && (forall v :: v in indegree <==> v in pending)
    && (forall v :: v in pending ==> indegree[v] == |pending[v]|)
  }

  lemma SetCount(pending: Dependencies, indegree: map<PluginId, nat>, c: PluginId, providers: set<PluginId>, n: nat)
    requires Counts(pending, indegree) && n == |providers|
    ensures Counts(pending[c := providers], indegree[c := n])
  {
  }

  lemma InsertOne(s: set<PluginId>, p: PluginId)
    ensures |s + {p}| == |s| + if p in s then 0 else 1
  {
    if p in s { assert s + {p} == s; }
  }

  lemma RemoveOne(s: set<PluginId>, p: PluginId)
    requires p in s
    ensures |s| > 0 && |s - {p}| == |s| - 1
    ensures |s| == 1 <==> s - {p} == {}
  {
    if |s| == 1 { assert |s - {p}| == 0; }
  }

  ghost function AddDependency(deps: Dependencies, e: ResolvedEdge): Dependencies
    requires e.consumer in deps
  {
    deps[e.consumer := deps[e.consumer] + {e.provider}]
  }

  lemma DependenciesGrow(nodes: set<PluginId>, edges: seq<ResolvedEdge>, i: nat)
    requires i < |edges| && edges[i].consumer in nodes
    ensures DependenciesOf(nodes, edges[..i + 1]) == AddDependency(DependenciesOf(nodes, edges[..i]), edges[i])
  {
    forall v | v in nodes
      ensures ProvidersOf(edges[..i + 1], v) ==
              ProvidersOf(edges[..i], v) + (if edges[i].consumer == v then {edges[i].provider} else {})
    {
      assert edges[..i + 1][..i] == edges[..i];
    }
    var after, before := DependenciesOf(nodes, edges[..i + 1]), DependenciesOf(nodes, edges[..i]);
    assert forall v :: v in nodes ==> after[v] == AddDependency(before, edges[i])[v];
  }

  /** Adjacency and in-degrees; a provider that appears in several edges counts once. */
  method BuildAdjacency(nodes: set<PluginId>, edges: seq<ResolvedEdge>)
    returns (indegree: map<PluginId, nat>, adjacency: Adjacency)
    requires EdgesWithin(nodes, edges)
    ensures AdjacencyOf(DependenciesOf(nodes, edges), adjacency)
    ensures Counts(DependenciesOf(nodes, edges), indegree)
  {
    hide Counts, AdjacencyOf, EdgesWithin, ProvidersOf;
    indegree := map v | v in nodes :: 0;
    adjacency := map[];
    ghost var deps := DependenciesOf(nodes, []);
    NoEdges(nodes);
    for i := 0 to |edges|
      invariant deps == DependenciesOf(nodes, edges[..i])
      invariant AdjacencyOf(deps, adjacency)
      invariant Counts(deps, indegree)
    {
      var edge := edges[i];
      EdgeEnds(nodes, edges, i);
      DependenciesGrow(nodes, edges, i);
      var consumers := if edge.provider in adjacency then adjacency[edge.provider] else {};
      ArcIsDependency(deps, adjacency, edge.provider, edge.consumer);
      AddOne(deps, indegree, edge, edge.consumer !in consumers);
      if edge.consumer !in consumers {
        indegree := indegree[edge.consumer := indegree[edge.consumer] + 1];
      }
      adjacency := AddArc(deps, adjacency, edge);
      deps := AddDependency(deps, edge);
    }
    assert edges[..|edges|] == edges;
  }

  lemma NoEdges(nodes: set<PluginId>)
    ensures AdjacencyOf(DependenciesOf(nodes, []), map[])
    ensures Counts(DependenciesOf(nodes, []), map v | v in nodes :: 0)
  {
    assert forall v :: v in nodes ==> DependenciesOf(nodes, [])[v] == {};
  }

  lemma EdgeEnds(nodes: set<PluginId>, edges: seq<ResolvedEdge>, i: nat)
    requires EdgesWithin(nodes, edges) && i < |edges|
    ensures edges[i].consumer in nodes && edges[i].provider in nodes
  {
    assert edges[i] in edges;
  }

  lemma ArcIsDependency(deps: Dependencies, adjacency: Adjacency, p: PluginId, c: PluginId)
    requires AdjacencyOf(deps, adjacency)
    ensures Arc(adjacency, p, c) <==> DependsOn(deps, c, p)
  {
  }

  function AddArc(ghost deps: Dependencies, adjacency: Adjacency, e: ResolvedEdge): (r: Adjacency)
    requires AdjacencyOf(deps, adjacency) && e.consumer in deps
    ensures AdjacencyOf(AddDependency(deps, e), r)
  {
    var consumers := if e.provider in adjacency then adjacency[e.provider] else {};
    var r := adjacency[e.provider := consumers + {e.consumer}];
    assert forall p, c :: Arc(r, p, c) <==> Arc(adjacency, p, c) || (p == e.provider && c == e.consumer);
    r
  }

  lemma AddOne(deps: Dependencies, indegree: map<PluginId, nat>, e: ResolvedEdge, isNew: bool)
    requires Counts(deps, indegree) && e.consumer in deps && (isNew <==> e.provider !in deps[e.consumer])
    ensures e.consumer in indegree
    ensures Counts(AddDependency(deps, e), if isNew then indegree[e.consumer := indegree[e.consumer] + 1] else indegree)
  {
    var c := e.consumer;
    InsertOne(deps[c], e.provider);
    SetCount(deps, indegree, c, deps[c] + {e.provider}, |deps[c] + {e.provider}|);
    assert indegree[c := indegree[c]] == indegree;
  }

  /** `pending` after the consumers in `released` have seen `next` leave. */
  ghost function Without(pending: Dependencies, next: PluginId, released: set<PluginId>): Dependencies {
    map v | v in pending :: if v in released then pending[v] - {next} else pending[v]
  }

  ghost function ConsumersOf(pending: Dependencies, p: PluginId): set<PluginId> {
    set v | v in pending && p in pending[v]
  }

  ghost function Unblocked(pending: Dependencies, within: set<PluginId>): set<PluginId> {
    set v | v in within && v in pending && pending[v] == {}
  }

  /** The inner loop for one emitted node: each decrement acts on a positive count. */
  method Release(ghost pending: Dependencies, adjacency: Adjacency, next: PluginId,
                 indegree0: map<PluginId, nat>, ready0: set<PluginId>)
    returns (indegree: map<PluginId, nat>, ready: set<PluginId>)
    requires Counts(pending, indegree0)
    requires (if next in adjacency then adjacency[next] else {}) == ConsumersOf(pending, next)
    ensures Counts(Without(pending, next, ConsumersOf(pending, next)), indegree)
    ensures ready == ready0 + Unblocked(Without(pending, next, ConsumersOf(pending, next)), ConsumersOf(pending, next))
  {
    hide Counts, Without, Unblocked, ConsumersOf;
    indegree, ready := indegree0, ready0;
    var todo := if next in adjacency then adjacency[next] else {};
    ghost var consumers := todo;
    ghost var released: set<PluginId> := {};
    ReleaseNone(pending, next, ready0);
    while todo != {}
      invariant todo !! released && todo + released == consumers
      invariant Counts(Without(pending, next, released), indegree)
      invariant ready == ready0 + Unblocked(Without(pending, next, released), released)
      decreases todo
    {
      var consumer := First(todo);
      assert consumer in consumers;
      ReleaseOne(pending, indegree, next, released, consumer);
      MoveElement(todo, released, consumer);
      UnionAssociates(ready0, Unblocked(Without(pending, next, released), released),
                      if indegree[consumer] == 1 then {consumer} else {});
      indegree := indegree[consumer := indegree[consumer] - 1];
      if indegree[consumer] == 0 {
        ready := ready + {consumer};
      }
      todo, released := todo - {consumer}, released + {consumer};
    }
    assert released == consumers;
  }

  lemma ReleaseNone(pending: Dependencies, next: PluginId, ready: set<PluginId>)
    ensures Without(pending, next, {}) == pending
    ensures ready == ready + Unblocked(pending, {})
  {
  }

  lemma MoveElement<T>(todo: set<T>, done: set<T>, x: T)
    requires x in todo && todo !! done
    ensures (todo - {x}) !! (done + {x}) && (todo - {x}) + (done + {x}) == todo + done
  {
  }

  lemma UnionAssociates<T>(a: set<T>, b: set<T>, c: set<T>)
    ensures a + (b + c) == (a + b) + c
  {
  }

  lemma ReleaseOne(pending: Dependencies, indegree: map<PluginId, nat>, next: PluginId, released: set<PluginId>,
      c: PluginId)
    requires Counts(Without(pending, next, released), indegree)
    requires c !in released && c in ConsumersOf(pending, next)
    ensures c in indegree && indegree[c] > 0
    ensures Counts(Without(pending, next, released + {c}), indegree[c := indegree[c] - 1])
    ensures Unblocked(Without(pending, next, released + {c}), released + {c}) ==
            Unblocked(Without(pending, next, released), released) + if indegree[c] == 1 then {c} else {}
  {
    hide Counts, Without, Unblocked;
    WithoutOneMore(pending, next, released, c);
    RemoveOne(pending[c], next);
    var now := Without(pending, next, released);
    IndegreeOf(now, indegree, c);
    SetCount(now, indegree, c, pending[c] - {next}, |pending[c] - {next}|);
    UnblockOne(now, released, c, pending[c] - {next});
  }

  lemma IndegreeOf(pending: Dependencies, indegree: map<PluginId, nat>, c: PluginId)
    requires Counts(pending, indegree) && c in pending
    ensures c in indegree && indegree[c] == |pending[c]|
  {
  }

  lemma WithoutOneMore(pending: Dependencies, next: PluginId, released: set<PluginId>, c: PluginId)
    requires c in pending && c !in released
    ensures Without(pending, next, released).Keys == pending.Keys && Without(pending, next, released)[c] == pending[c]
    ensures Without(pending, next, released + {c}) == Without(pending, next, released)[c := pending[c] - {next}]
  {
  }

  lemma UnblockOne(pending: Dependencies, released: set<PluginId>, c: PluginId, providers: set<PluginId>)
    requires c in pending && c !in released
    ensures Unblocked(pending[c := providers], released + {c}) ==
            Unblocked(pending, released) + if providers == {} then {c} else {}
  {
  }

  ghost function Remaining(deps: Dependencies, emitted: set<PluginId>): Dependencies {
    map v | v in deps :: deps[v] - emitted
  }

  /** What the main loop keeps: `order` is a greedy prefix, and `ready` and `indegree`
      describe exactly the nodes whose providers it has already emitted. */
  ghost predicate Progress(deps: Dependencies, order: seq<PluginId>, ready: set<PluginId>,
      indegree: map<PluginId, nat>) {
    && NoRepeats(order) && (forall x :: x in order ==> x in deps)
    && ProvidersFirst(deps, order) && Greedy(deps, order)
    && ready == Available(deps, Elements(order))
    && Counts(Remaining(deps, Elements(order)), indegree)
  }

  lemma EmitNext(deps: Dependencies, order: seq<PluginId>, ready: set<PluginId>, indegree: map<PluginId, nat>,
      next: PluginId)
    requires Progress(deps, order, ready, indegree) && next in ready && forall x :: x in ready ==> next <= x
    ensures NoRepeats(order + [next]) && next in deps && forall x :: x in order + [next] ==> x in deps
    ensures ProvidersFirst(deps, order + [next]) && Greedy(deps, order + [next])
  {
    hide Counts;
    var order' := order + [next];
    forall i | 0 <= i < |order'|
      ensures order'[i] in deps && deps[order'[i]] <= Elements(order'[..i])
      ensures IsLeast(IdLess, Available(deps, Elements(order'[..i])), order'[i])
    {
      if i < |order| {
        assert order'[..i] == order[..i];
      } else {
        assert order'[..i] == order;
      }
    }
  }

  ghost predicate Settled(deps: Dependencies, emitted: set<PluginId>) {
    forall v :: v in emitted && v in deps ==> deps[v] <= emitted
  }

  lemma EmittedIsSettled(deps: Dependencies, order: seq<PluginId>)
    requires ProvidersFirst(deps, order)
    ensures Settled(deps, Elements(order))
  {
    forall v | v in order
      ensures v in deps && deps[v] <= Elements(order)
    {
      var i :| 0 <= i < |order| && order[i] == v;
      assert deps[order[i]] <= Elements(order[..i]);
    }
  }

  lemma EmitReleases(deps: Dependencies, emitted: set<PluginId>, next: PluginId)
    requires next in Available(deps, emitted) && Settled(deps, emitted)
    ensures Without(Remaining(deps, emitted), next, ConsumersOf(Remaining(deps, emitted), next)) ==
            Remaining(deps, emitted + {next})
    ensures (Available(deps, emitted) - {next})
            + Unblocked(Remaining(deps, emitted + {next}), ConsumersOf(Remaining(deps, emitted), next))
            == Available(deps, emitted + {next})
  {
    var before, after := Remaining(deps, emitted), Remaining(deps, emitted + {next});
    assert forall v :: v in deps ==> after[v] == if next in before[v] then before[v] - {next} else before[v];
    forall v
      ensures v in Available(deps, emitted + {next}) <==>
              v in Available(deps, emitted) - {next} || v in Unblocked(after, ConsumersOf(before, next))
    {
      if v in deps {
        assert after[v] == {} <==> deps[v] <= emitted + {next};
      }
    }
  }

  lemma NextConsumers(deps: Dependencies, adjacency: Adjacency, emitted: set<PluginId>, next: PluginId)
    requires AdjacencyOf(deps, adjacency) && next !in emitted
    ensures (if next in adjacency then adjacency[next] else {}) == ConsumersOf(Remaining(deps, emitted), next)
  {
    var consumers := if next in adjacency then adjacency[next] else {};
    forall v
      ensures v in consumers <==> v in ConsumersOf(Remaining(deps, emitted), next)
    {
      ArcIsDependency(deps, adjacency, next, v);
    }
  }

  lemma StartOfSort(deps: Dependencies, indegree: map<PluginId, nat>, ready: set<PluginId>)
    requires Counts(deps, indegree) && ready == set v | v in indegree && indegree[v] == 0
    ensures Progress(deps, [], ready, indegree)
  {
    hide Counts, Available, Remaining, ProvidersFirst, Greedy;
    assert Elements<PluginId>([]) == {};
    NothingEmitted(deps);
    ReadyIsAvailable(deps, indegree, ready);
  }

  lemma NothingEmitted(deps: Dependencies)
    ensures Remaining(deps, {}) == deps
    ensures ProvidersFirst(deps, []) && Greedy(deps, [])
  {
    assert forall v :: v in deps ==> deps[v] - {} == deps[v];
  }

  lemma ReadyIsAvailable(deps: Dependencies, indegree: map<PluginId, nat>, ready: set<PluginId>)
    requires Counts(deps, indegree) && ready == set v | v in indegree && indegree[v] == 0
    ensures ready == Available(deps, {})
  {
    forall v
      ensures v in ready <==> v in Available(deps, {})
    {
      if v in deps { assert deps[v] == {} <==> indegree[v] == 0; }
    }
  }

  lemma StepOfSort(deps: Dependencies, adjacency: Adjacency, order: seq<PluginId>, ready: set<PluginId>,
      indegree: map<PluginId, nat>, next: PluginId, ready': set<PluginId>, indegree': map<PluginId, nat>)
    requires AdjacencyOf(deps, adjacency)
    requires Progress(deps, order, ready, indegree) && next in ready && forall x :: x in ready ==> next <= x
    requires var pending := Remaining(deps, Elements(order));
             && Counts(Without(pending, next, ConsumersOf(pending, next)), indegree')
             && ready' == (ready - {next})
                 + Unblocked(Without(pending, next, ConsumersOf(pending, next)), ConsumersOf(pending, next))
    ensures Progress(deps, order + [next], ready', indegree')
    ensures |Elements(order)| < |Elements(order + [next])| <= |deps|
  {
    hide Counts, Without, Unblocked, ConsumersOf, Remaining, Available, ProvidersFirst, Greedy, Settled, AdjacencyOf;
    NextIsNew(deps, order, ready, indegree, next);
    EmitNext(deps, order, ready, indegree, next);
    EmittedIsSettled(deps, order);
    EmitReleases(deps, Elements(order), next);
    assert Elements(order + [next]) == Elements(order) + {next};
    EmittedBound(deps, order + [next]);
  }

  lemma EmittedBound(deps: Dependencies, order: seq<PluginId>)
    requires forall x :: x in order ==> x in deps
    ensures |Elements(order)| <= |deps|
  {
    SubsetSize(Elements(order), deps.Keys);
  }

  /** Nothing ready and everything emitted: the order is the least topological one. */
  lemma SortSucceeds(deps: Dependencies, order: seq<PluginId>, indegree: map<PluginId, nat>)
    requires Progress(deps, order, {}, indegree) && |order| == |deps|
    ensures IsLeastTopological(deps, order) && Acyclic(deps)
  {
    NoRepeatsCount(order);
    SubsetSize(Elements(order), deps.Keys);
    assert forall x :: x in order <==> x in Elements(order);
    GreedyIsLeastTopological(deps, order);
    TopologicalIsAcyclic(deps, order);
  }

  /** Nothing ready but nodes left: each of them waits for another one that is left. */
  lemma SortIsStuck(deps: Dependencies, adjacency: Adjacency, order: seq<PluginId>, indegree: map<PluginId, nat>,
      left: set<PluginId>)
    requires Closed(deps) && AdjacencyOf(deps, adjacency)
    requires Progress(deps, order, {}, indegree) && |order| != |deps|
    requires left == set v | v in indegree && indegree[v] > 0
    ensures left != {} && forall v :: v in left ==> HasPredecessor(adjacency, left, v)
  {
    var emitted := Elements(order);
    EmittedIsSettled(deps, order);
    LeftIsNotEmitted(deps, emitted, indegree, left);
    NoRepeatsCount(order);
    assert emitted <= deps.Keys && emitted != deps.Keys;
    hide Progress, Counts, Settled, AdjacencyOf;
    forall v | v in left
      ensures HasPredecessor(adjacency, left, v)
    {
      var u :| u in deps[v] - emitted;
      assert u in left;
      assert Arc(adjacency, u, v) by { ArcIsDependency(deps, adjacency, u, v); }
    }
  }

  lemma LeftIsNotEmitted(deps: Dependencies, emitted: set<PluginId>, indegree: map<PluginId, nat>, left: set<PluginId>)
    requires Available(deps, emitted) == {} && Settled(deps, emitted) && Counts(Remaining(deps, emitted), indegree)
    requires left == set v | v in indegree && indegree[v] > 0
    ensures left == deps.Keys - emitted
    ensures forall v :: v in left ==> deps[v] - emitted != {}
  {
    forall v | v in deps
      ensures v in left <==> deps[v] - emitted != {}
      ensures v in left <==> v !in emitted
    {
      assert v !in Available(deps, emitted);
      assert indegree[v] == |Remaining(deps, emitted)[v]|;
      EmptyDifference(deps[v], emitted);
    }
  }

  lemma EmptyDifference<T>(a: set<T>, b: set<T>)
    ensures a - b == {} <==> a <= b
  {
    if a - b == {} { assert forall x :: x in a ==> x !in a - b; }
  }

  // ----- which cycle is reported

  ghost predicate WaitsWithin(deps: Dependencies, w: set<PluginId>, v: PluginId) {
    v in deps && exists u :: u in w && u in deps[v]
  }

  /** Every member waits for a member. */
  ghost predicate SelfWaiting(deps: Dependencies, w: set<PluginId>) {
    forall v :: v in w ==> WaitsWithin(deps, w, v)
  }

  /** The nodes no order can ever emit: those in some set whose members wait for each other. */
  ghost function Stalled(deps: Dependencies): set<PluginId> {
    set v | v in deps && exists w: set<PluginId> :: SelfWaiting(deps, w) && v in w
  }

  /** The stalled consumers of each stalled node, in ascending order. */
  ghost function StalledConsumers(deps: Dependencies): map<PluginId, seq<PluginId>> {
    IdOrder();
    map p | p in Stalled(deps) :: Ascend(IdLess, StalledConsumersOf(deps, p))
  }

  ghost function StalledConsumersOf(deps: Dependencies, p: PluginId): set<PluginId> {
    set v | v in Stalled(deps) && p in deps[v]
  }

  /** The one cycle the search reports, as a function of the dependency relation alone. */
  ghost function ReportedCycle(deps: Dependencies): seq<PluginId> {
    CycleOf(StalledConsumers(deps))
  }

  /** No emitted node is in a set whose members wait for each other. */
  lemma {:induction false} EmittedIsNotWaiting(deps: Dependencies, order: seq<PluginId>, w: set<PluginId>, i: nat)
    requires ProvidersFirst(deps, order) && SelfWaiting(deps, w) && i < |order|
    ensures order[i] !in w
    decreases i
  {
    hide WaitsWithin;
    if order[i] in w {
      var u := AwaitedMember(deps, w, order[i]);
      assert u in Elements(order[..i]);
      var j :| 0 <= j < i && order[j] == u;
      EmittedIsNotWaiting(deps, order, w, j);
    }
  }

  lemma AwaitedMember(deps: Dependencies, w: set<PluginId>, v: PluginId) returns (u: PluginId)
    requires WaitsWithin(deps, w, v)
    ensures v in deps && u in w && u in deps[v]
  {
    u :| u in w && u in deps[v];
  }

  lemma LeftWaits(deps: Dependencies, emitted: set<PluginId>, left: set<PluginId>, v: PluginId)
    requires Closed(deps) && left == deps.Keys - emitted && v in left && deps[v] - emitted != {}
    ensures WaitsWithin(deps, left, v)
  {
    var u :| u in deps[v] - emitted;
    assert u in left;
  }

  lemma LeftIsStalled(deps: Dependencies, order: seq<PluginId>, left: set<PluginId>)
    requires ProvidersFirst(deps, order) && Closed(deps) && left == deps.Keys - Elements(order)
    requires forall v :: v in left ==> deps[v] - Elements(order) != {}
    ensures left == Stalled(deps)
  {
    hide WaitsWithin, Closed, ProvidersFirst;
    forall v | v in left
      ensures WaitsWithin(deps, left, v)
    {
      LeftWaits(deps, Elements(order), left, v);
    }
    assert SelfWaiting(deps, left);
    forall v | v in Stalled(deps)
      ensures v in left
    {
      var w: set<PluginId> :| SelfWaiting(deps, w) && v in w;
      forall i | 0 <= i < |order| ensures order[i] != v { EmittedIsNotWaiting(deps, order, w, i); }
    }
  }

  lemma StalledLists(deps: Dependencies, adjacency: Adjacency)
    requires AdjacencyOf(deps, adjacency)
    ensures NeighbourLists(Stalled(deps), adjacency) == StalledConsumers(deps)
  {
    hide Outgoing, StalledConsumersOf, AdjacencyOf, SelfWaiting;
    forall p | p in Stalled(deps)
      ensures Outgoing(Stalled(deps), adjacency, p) == StalledConsumersOf(deps, p)
    {
      StalledArcs(deps, adjacency, p);
    }
  }

  lemma StalledArcs(deps: Dependencies, adjacency: Adjacency, p: PluginId)
    requires AdjacencyOf(deps, adjacency)
    ensures Outgoing(Stalled(deps), adjacency, p) == StalledConsumersOf(deps, p)
  {
    hide SelfWaiting;
    forall v
      ensures v in Outgoing(Stalled(deps), adjacency, p) <==> v in StalledConsumersOf(deps, p)
    {
      assert Arc(adjacency, p, v) <==> DependsOn(deps, v, p);
    }
  }

  /** What is left when the sort is stuck does not depend on the order of emission. */
  lemma StuckIsStalled(deps: Dependencies, adjacency: Adjacency, order: seq<PluginId>, indegree: map<PluginId, nat>,
      left: set<PluginId>)
    requires AdjacencyOf(deps, adjacency) && Closed(deps) && Progress(deps, order, {}, indegree)
    requires left == set v | v in indegree && indegree[v] > 0
    ensures CycleOf(NeighbourLists(left, adjacency)) == ReportedCycle(deps)
  {
    EmittedIsSettled(deps, order);
    LeftIsNotEmitted(deps, Elements(order), indegree, left);
    hide Stalled, AdjacencyOf, Counts, Settled, NeighbourLists, StalledConsumers, CycleOf;
    LeftIsStalled(deps, order, left);
    StalledLists(deps, adjacency);
  }

  lemma CycleIsDependencyCycle(deps: Dependencies, adjacency: Adjacency, left: set<PluginId>, c: seq<PluginId>)
    requires AdjacencyOf(deps, adjacency) && SimpleCycle(adjacency, left, c)
    ensures IsSimpleDependencyCycle(deps, c) && !Acyclic(deps)
  {
    forall i | 0 <= i < |c| - 1
      ensures DependsOn(deps, c[i + 1], c[i])
    {
      assert Arc(adjacency, c[i], c[i + 1]);
    }
    assert IsDependencyCycle(deps, c);
  }

  lemma EdgesClose(nodes: set<PluginId>, edges: seq<ResolvedEdge>)
    requires EdgesWithin(nodes, edges)
    ensures Closed(DependenciesOf(nodes, edges))
    ensures DependenciesOf(nodes, edges).Keys == nodes
  {
    forall v, p | v in nodes && p in ProvidersOf(edges, v)
      ensures p in nodes
    {
      var k :| ResolvedEdge(p, v, k) in edges;
    }
  }

  /** The startup order exists exactly when the dependency relation is acyclic; it is
      then the least topological order, and otherwise the error names a simple cycle. */
  method TopologicalOrder(nodes: set<PluginId>, edges: seq<ResolvedEdge>)
      returns (r: Result<seq<PluginId>, ResolveError>)
    requires EdgesWithin(nodes, edges)
    ensures r.Ok? <==> Acyclic(DependenciesOf(nodes, edges))
    ensures r.Ok? ==> IsLeastTopological(DependenciesOf(nodes, edges), r.value)
    ensures r.Err? ==> r.error.DependencyCycle? && IsSimpleDependencyCycle(DependenciesOf(nodes, edges), r.error.cycle)
    ensures r.Err? ==> r.error.cycle == ReportedCycle(DependenciesOf(nodes, edges))
  {
    hide ReportedCycle, CycleOf, NeighbourLists, EdgesWithin, AdjacencyOf, Counts, DependenciesOf, Progress, Closed,
      IsLeastTopological, Acyclic, SimpleCycle, HasCycle, HasPredecessor, Without, ConsumersOf, Unblocked, Remaining,
      IsSimpleDependencyCycle;
    ghost var deps := DependenciesOf(nodes, edges);
    EdgesClose(nodes, edges);
    var indegree, adjacency := BuildAdjacency(nodes, edges);
    var ready := set v | v in indegree && indegree[v] == 0;
    var order: seq<PluginId> := [];
    StartOfSort(deps, indegree, ready);
    while ready != {}
      invariant Progress(deps, order, ready, indegree)
      decreases |deps| - |Elements(order)|
    {
      var next := First(ready);
      NextIsNew(deps, order, ready, indegree, next);
      NextConsumers(deps, adjacency, Elements(order), next);
      var indegree', ready' := Release(Remaining(deps, Elements(order)), adjacency, next, indegree, ready - {next});
      StepOfSort(deps, adjacency, order, ready, indegree, next, ready', indegree');
      order, indegree, ready := order + [next], indegree', ready';
    }
    if |order| != |nodes| {
      var left := set v | v in indegree && indegree[v] > 0;
      SortIsStuck(deps, adjacency, order, indegree, left);
      var cycle := FindCycle(left, adjacency);
      CycleIsDependencyCycle(deps, adjacency, left, cycle);
      StuckIsStalled(deps, adjacency, order, indegree, left);
      return Err(DependencyCycle(cycle));
    }
    SortSucceeds(deps, order, indegree);
    return Ok(order);
  }

  lemma NextIsNew(deps: Dependencies, order: seq<PluginId>, ready: set<PluginId>, indegree: map<PluginId, nat>,
      next: PluginId)
    requires Progress(deps, order, ready, indegree) && next in ready
    ensures next !in Elements(order)
    ensures Counts(Remaining(deps, Elements(order)), indegree)
  {
  }

  /** Without self-dependencies a cycle has at least two distinct plugins. */
  lemma CycleLength(deps: Dependencies, cycle: seq<PluginId>)
    requires IsSimpleDependencyCycle(deps, cycle)
    requires forall v :: v in deps ==> v !in deps[v]
    ensures |cycle| >= 3
  {
    assert DependsOn(deps, cycle[1], cycle[0]);
  }
}
