/** The explicit-stack depth-first search that turns a stalled topological sort
    into a cycle witness. */
module CycleSearch {
  import opened Model
  import opened Ordering

  type Adjacency = map<PluginId, set<PluginId>>

  ghost predicate Arc(adjacency: Adjacency, a: PluginId, b: PluginId) {
    a in adjacency && b in adjacency[a]
  }

  /** A closed walk inside `within`: first equals last, consecutive entries are arcs. */
  ghost predicate ClosedWalk(adjacency: Adjacency, within: set<PluginId>, w: seq<PluginId>) {
    && |w| >= 2
    && w[0] == w[|w| - 1]
    && (forall i :: 0 <= i < |w| ==> w[i] in within)
    && (forall i :: 0 <= i < |w| - 1 ==> Arc(adjacency, w[i], w[i + 1]))
  }

  ghost predicate SimpleCycle(adjacency: Adjacency, within: set<PluginId>, c: seq<PluginId>) {
    ClosedWalk(adjacency, within, c) && NoRepeats(c[..|c| - 1])
  }

  ghost predicate HasCycle(adjacency: Adjacency, within: set<PluginId>) {
    exists w :: ClosedWalk(adjacency, within, w)
  }

  ghost predicate HasPredecessor(adjacency: Adjacency, within: set<PluginId>, v: PluginId) {
    exists u :: u in within && Arc(adjacency, u, v)
  }

  /** `f` lists `within` so that every arc leads to an earlier entry. */
  ghost predicate SinksFirst(adjacency: Adjacency, within: set<PluginId>, f: seq<PluginId>) {
    && NoRepeats(f)
    && (forall x :: x in f ==> x in within)
    && (forall i, y :: 0 <= i < |f| && y in within && Arc(adjacency, f[i], y) ==> y in f[..i])
  }

  /** A listing with sinks first leaves no room for a closed walk. */
  lemma {:induction false} SinksFirstHasNoCycle(adjacency: Adjacency, within: set<PluginId>, f: seq<PluginId>,
      w: seq<PluginId>)
    requires SinksFirst(adjacency, within, f)
    requires forall x :: x in within ==> x in f
    requires |w| >= 2 && (forall i :: 0 <= i < |w| ==> w[i] in within)
    requires forall i :: 0 <= i < |w| - 1 ==> Arc(adjacency, w[i], w[i + 1])
    ensures exists i, j :: 0 <= i < j < |f| && f[j] == w[0] && f[i] == w[|w| - 1]
    decreases |w|
  {
    assert w[0] in f;
    var j :| 0 <= j < |f| && f[j] == w[0];
    assert w[1] in f[..j];
    var i :| 0 <= i < j && f[i] == w[1];
    if |w| > 2 {
      SinksFirstHasNoCycle(adjacency, within, f, w[1..]);
      var i', j' :| 0 <= i' < j' < |f| && f[j'] == w[1..][0] && f[i'] == w[1..][|w| - 2];
      assert i == j';
      assert 0 <= i' < j < |f| && f[i'] == w[|w| - 1];
    }
  }

  lemma LastComesOnce<T>(s: seq<T>, i: nat)
    requires NoRepeats(s) && i < |s|
    ensures s[|s| - 1] !in s[..i]
  {
    forall k | 0 <= k < i ensures s[..i][k] != s[|s| - 1] {}
  }

  /** A sinks-first listing of a non-empty set ends with a node nothing points to. */
  lemma SinksFirstHasSource(adjacency: Adjacency, within: set<PluginId>, f: seq<PluginId>) returns (v: PluginId)
    requires within != {} && SinksFirst(adjacency, within, f)
    requires forall x :: x in within ==> x in f
    ensures v in within && forall u :: u in within ==> !Arc(adjacency, u, v)
  {
    var x :| x in within;
    assert x in f;
    v := f[|f| - 1];
    assert v in f && v in within;
    forall u | u in within
      ensures !Arc(adjacency, u, v)
    {
      assert u in f;
      var i :| 0 <= i < |f| && f[i] == u;
      LastComesOnce(f, i);
    }
  }

  datatype Visit = Visiting | Done

  /** A stack frame: the node and the index of its next neighbour. */
  datatype Frame = Frame(node: PluginId, next: nat)

  predicate InBounds(neighbours: map<PluginId, seq<PluginId>>, frame: Frame) {
    frame.node in neighbours && frame.next <= |neighbours[frame.node]|
  }

  /** Neighbours still to be looked at, plus one for each frame still to be popped. */
  ghost function Work(neighbours: map<PluginId, seq<PluginId>>, stack: seq<Frame>): nat {
    if stack == [] then 0
    else
      var top := stack[|stack| - 1];
      Work(neighbours, stack[..|stack| - 1])
        + if InBounds(neighbours, top) then |neighbours[top.node]| - top.next + 1 else 0
  }

  ghost predicate NeighboursOf(neighbours: map<PluginId, seq<PluginId>>, remaining: set<PluginId>,
      adjacency: Adjacency) {
    && neighbours.Keys == remaining
    && forall p, y :: p in remaining ==> (y in neighbours[p] <==> y in remaining && Arc(adjacency, p, y))
  }

  ghost function Outgoing(remaining: set<PluginId>, adjacency: Adjacency, p: PluginId): set<PluginId> {
    if p in adjacency then adjacency[p] * remaining else {}
  }

  /** The remaining arcs out of each remaining node, in ascending order. */
  ghost function NeighbourLists(remaining: set<PluginId>, adjacency: Adjacency): map<PluginId, seq<PluginId>> {
    IdOrder();
    map p | p in remaining :: Ascend(IdLess, Outgoing(remaining, adjacency, p))
  }

  method Neighbours(remaining: set<PluginId>, adjacency: Adjacency) returns (neighbours: map<PluginId, seq<PluginId>>)
    ensures NeighboursOf(neighbours, remaining, adjacency)
    ensures forall p :: p in remaining ==> Ascending(IdLess, neighbours[p])
    ensures neighbours == NeighbourLists(remaining, adjacency)
  {
    IdOrder();
    neighbours := map[];
    var todo := remaining;
    while todo != {}
      invariant todo <= remaining && neighbours.Keys == remaining - todo
      invariant forall p :: p in neighbours ==> neighbours[p] == Ascend(IdLess, Outgoing(remaining, adjacency, p))
      decreases todo
    {
      var p :| p in todo;
      var outgoing := if p in adjacency then adjacency[p] * remaining else {};
      var listed := Enumerate(IdLess, outgoing);
      neighbours, todo := neighbours[p := listed], todo - {p};
    }
    forall p | p in remaining
      ensures ListsOutgoing(remaining, adjacency, p)
    {
      OutgoingListed(remaining, adjacency, p);
    }
    hide Ascending, Ascend, Arc;
  }

  /** The list of `p` is ascending and holds exactly its arcs to remaining nodes. */
  ghost predicate ListsOutgoing(remaining: set<PluginId>, adjacency: Adjacency, p: PluginId)
    requires StrictTotal(IdLess)
  {
    var listed := Ascend(IdLess, Outgoing(remaining, adjacency, p));
    Ascending(IdLess, listed) && forall y :: y in listed <==> y in remaining && Arc(adjacency, p, y)
  }

  lemma OutgoingListed(remaining: set<PluginId>, adjacency: Adjacency, p: PluginId)
    requires StrictTotal(IdLess)
    ensures ListsOutgoing(remaining, adjacency, p)
  {
    AscendProperties(IdLess, Outgoing(remaining, adjacency, p));
  }

  /** The local variables of one search. */
  datatype Search = Search(stack: seq<Frame>, path: seq<PluginId>, positions: map<PluginId, nat>,
      states: map<PluginId, Visit>) {
    ghost predicate Valid(neighbours: map<PluginId, seq<PluginId>>, finished: seq<PluginId>) {
      && |stack| == |path| && NoRepeats(path)
      && (forall k :: 0 <= k < |stack| ==> FrameOk(neighbours, finished, k))
      && (forall x :: x in positions <==> x in path)
      && (forall k :: 0 <= k < |path| ==> path[k] in positions && positions[path[k]] == k)
      && StatesAre(states, path, finished)
    }

    /** A frame sits inside its neighbour list; the neighbours it has passed are
        finished, except the one explored by the frame above it. */
    ghost predicate FrameOk(neighbours: map<PluginId, seq<PluginId>>, finished: seq<PluginId>, k: nat)
      requires |stack| == |path| && k < |stack|
    {
      && InBounds(neighbours, stack[k]) && stack[k].node == path[k]
      && if k == |stack| - 1 then
           forall j :: 0 <= j < stack[k].next ==> neighbours[path[k]][j] in finished
         else
           && stack[k].next > 0 && neighbours[path[k]][stack[k].next - 1] == path[k + 1]
           && forall j :: 0 <= j < stack[k].next - 1 ==> neighbours[path[k]][j] in finished
    }

    ghost predicate Exploring(neighbours: map<PluginId, seq<PluginId>>, finished: seq<PluginId>, next: PluginId) {
      && Valid(neighbours, finished) && |stack| > 0
      && var top := stack[|stack| - 1];
         top.node in neighbours && top.next < |neighbours[top.node]| && next == neighbours[top.node][top.next]
    }

    function Bump(): Search
      requires |stack| > 0
    {
      var top := stack[|stack| - 1];
      this.(stack := stack[|stack| - 1 := Frame(top.node, top.next + 1)])
    }

    function Push(next: PluginId): Search {
      Search(stack + [Frame(next, 0)], path + [next], positions[next := |path|], states[next := Visiting])
    }

    function Pop(): Search
      requires |stack| > 0 && |path| > 0
    {
      var node := stack[|stack| - 1].node;
      Search(stack[..|stack| - 1], path[..|path| - 1], positions - {node}, states[node := Done])
    }
  }

  ghost predicate StatesAre(states: map<PluginId, Visit>, path: seq<PluginId>, finished: seq<PluginId>) {
    && (forall x :: x in states <==> x in path || x in finished)
    && (forall x :: x in path ==> x !in finished && x in states && states[x] == Visiting)
    && (forall x :: x in finished ==> x in states && states[x] == Done)
  }

  lemma PopKeepsValid(s: Search, neighbours: map<PluginId, seq<PluginId>>, finished: seq<PluginId>)
    requires s.Valid(neighbours, finished) && |s.stack| > 0
    ensures |s.path| > 0 && s.Pop().Valid(neighbours, finished + [s.stack[|s.stack| - 1].node])
  {
    var n, node := |s.stack| - 1, s.stack[|s.stack| - 1].node;
    assert s.FrameOk(neighbours, finished, n);
    forall k | 0 <= k < n
      ensures s.Pop().FrameOk(neighbours, finished + [node], k)
    {
      PopKeepsFrame(s, neighbours, finished, k);
    }
    PopKeepsStates(s.path, s.states, finished, node);
    hide Search.FrameOk, StatesAre;
    assert forall x :: x in s.path <==> x in s.path[..n] || x == node;
  }

  lemma PopKeepsFrame(s: Search, neighbours: map<PluginId, seq<PluginId>>, finished: seq<PluginId>, k: nat)
    requires |s.stack| == |s.path| && k < |s.stack| - 1
    requires s.FrameOk(neighbours, finished, k) && s.path[|s.path| - 1] == s.stack[|s.stack| - 1].node
    ensures s.Pop().FrameOk(neighbours, finished + [s.stack[|s.stack| - 1].node], k)
  {
  }

  lemma PopKeepsStates(path: seq<PluginId>, states: map<PluginId, Visit>, finished: seq<PluginId>, node: PluginId)
    requires StatesAre(states, path, finished) && NoRepeats(path) && |path| > 0 && node == path[|path| - 1]
    ensures StatesAre(states[node := Done], path[..|path| - 1], finished + [node])
  {
    var rest := path[..|path| - 1];
    assert forall x :: x in path <==> x in rest || x == node;
    assert forall x :: x in finished + [node] <==> x in finished || x == node;
    assert node !in rest;
  }

  lemma FinishKeepsSinksFirst(remaining: set<PluginId>, adjacency: Adjacency, finished: seq<PluginId>, node: PluginId)
    requires SinksFirst(adjacency, remaining, finished) && node in remaining && node !in finished
    requires forall y :: y in remaining && Arc(adjacency, node, y) ==> y in finished
    ensures SinksFirst(adjacency, remaining, finished + [node])
  {
    assert (finished + [node])[..|finished|] == finished;
    assert forall i :: 0 <= i < |finished| ==> (finished + [node])[..i] == finished[..i];
  }

  lemma TopIsExhausted(s: Search, neighbours: map<PluginId, seq<PluginId>>, finished: seq<PluginId>,
                       remaining: set<PluginId>, adjacency: Adjacency, node: PluginId)
    requires NeighboursOf(neighbours, remaining, adjacency) && s.Valid(neighbours, finished)
    requires |s.stack| > 0 && s.stack[|s.stack| - 1].node == node
    requires node in neighbours ==> s.stack[|s.stack| - 1].next >= |neighbours[node]|
    ensures node in remaining && node !in finished
    ensures forall y :: y in remaining && Arc(adjacency, node, y) ==> y in finished
  {
    assert s.FrameOk(neighbours, finished, |s.stack| - 1);
    assert node in s.path;
  }

  lemma BumpKeepsValid(s: Search, neighbours: map<PluginId, seq<PluginId>>, finished: seq<PluginId>, next: PluginId)
    requires s.Exploring(neighbours, finished, next) && next in finished
    ensures s.Bump().Valid(neighbours, finished)
  {
    forall k | 0 <= k < |s.stack|
      ensures s.Bump().FrameOk(neighbours, finished, k)
    {
      assert s.FrameOk(neighbours, finished, k);
    }
  }

  lemma PushKeepsValid(s: Search, neighbours: map<PluginId, seq<PluginId>>, finished: seq<PluginId>, next: PluginId)
    requires s.Exploring(neighbours, finished, next) && next !in s.states && next in neighbours
    ensures s.Bump().Push(next).Valid(neighbours, finished)
  {
    var s' := s.Bump().Push(next);
    assert next !in s.path && next !in finished;
    forall k | 0 <= k < |s'.stack|
      ensures s'.FrameOk(neighbours, finished, k)
    {
      if k < |s.stack| { assert s.FrameOk(neighbours, finished, k); }
    }
    PushKeepsStates(s.path, s.states, finished, next);
    hide StatesAre, Search.FrameOk;
    assert forall x :: x in s'.path <==> x in s.path || x == next;
  }

  lemma PushKeepsStates(path: seq<PluginId>, states: map<PluginId, Visit>, finished: seq<PluginId>, next: PluginId)
    requires StatesAre(states, path, finished) && next !in states
    ensures StatesAre(states[next := Visiting], path + [next], finished)
  {
    assert forall x :: x in path + [next] <==> x in path || x == next;
  }

  /** The path of a search is a path of the graph. */
  lemma PathArcs(s: Search, neighbours: map<PluginId, seq<PluginId>>, finished: seq<PluginId>,
                 remaining: set<PluginId>, adjacency: Adjacency, k: nat)
    requires NeighboursOf(neighbours, remaining, adjacency) && s.Valid(neighbours, finished) && k < |s.path|
    ensures s.path[k] in remaining
    ensures k + 1 < |s.path| ==> Arc(adjacency, s.path[k], s.path[k + 1])
  {
    assert s.FrameOk(neighbours, finished, k);
    if k + 1 < |s.path| {
      assert s.path[k + 1] in neighbours[s.path[k]];
    }
  }

  /** Meeting a node that is being visited closes a simple cycle. */
  lemma BackArcClosesCycle(s: Search, neighbours: map<PluginId, seq<PluginId>>, finished: seq<PluginId>,
                           remaining: set<PluginId>, adjacency: Adjacency, next: PluginId)
    requires NeighboursOf(neighbours, remaining, adjacency)
    requires s.Exploring(neighbours, finished, next) && next in s.states && s.states[next] == Visiting
    ensures next in s.positions && s.positions[next] < |s.path|
    ensures SimpleCycle(adjacency, remaining, s.path[s.positions[next]..] + [next])
  {
    assert next in s.path;
    var at := s.positions[next];
    var n := |s.path|;
    var c := s.path[at..] + [next];
    assert s.FrameOk(neighbours, finished, n - 1);
    assert next in neighbours[s.path[n - 1]];
    forall i | 0 <= i < |c| - 1
      ensures c[i] in remaining && Arc(adjacency, c[i], c[i + 1])
    {
      PathArcs(s, neighbours, finished, remaining, adjacency, at + i);
    }
    assert c[..|c| - 1] == s.path[at..];
    SuffixNoRepeats(s.path, at);
  }

  lemma SuffixNoRepeats<T>(s: seq<T>, at: nat)
    requires NoRepeats(s) && at <= |s|
    ensures NoRepeats(s[at..])
  {
    forall i, j | 0 <= i < j < |s| - at
      ensures s[at..][i] != s[at..][j]
    {
      assert s[at..][i] == s[at + i] && s[at..][j] == s[at + j];
    }
  }

  lemma NeighbourRemains(neighbours: map<PluginId, seq<PluginId>>, remaining: set<PluginId>, adjacency: Adjacency,
      p: PluginId, j: nat)
    requires NeighboursOf(neighbours, remaining, adjacency) && p in neighbours && j < |neighbours[p]|
    ensures neighbours[p][j] in remaining
  {
    assert neighbours[p][j] in neighbours[p];
  }

  lemma NeighbourIsListed(neighbours: map<PluginId, seq<PluginId>>, remaining: set<PluginId>, adjacency: Adjacency,
      p: PluginId)
    requires NeighboursOf(neighbours, remaining, adjacency) && p in remaining
    ensures p in neighbours
  {
  }

  lemma WorkDecreases(s: Search, neighbours: map<PluginId, seq<PluginId>>)
    requires |s.stack| > 0 && |s.path| > 0
    ensures var top := s.stack[|s.stack| - 1];
            InBounds(neighbours, top) ==>
              && Work(neighbours, s.Pop().stack) < Work(neighbours, s.stack)
              && (top.next < |neighbours[top.node]| ==> Work(neighbours, s.Bump().stack) < Work(neighbours, s.stack))
    ensures s.Bump().states == s.states
  {
    assert s.Bump().stack[..|s.stack| - 1] == s.stack[..|s.stack| - 1];
  }

  lemma TopIsVisited(s: Search, neighbours: map<PluginId, seq<PluginId>>, finished: seq<PluginId>)
    requires s.Valid(neighbours, finished) && |s.stack| > 0
    ensures |s.path| > 0 && s.Pop().states.Keys == s.states.Keys
  {
    assert s.FrameOk(neighbours, finished, |s.stack| - 1);
    assert s.path[|s.path| - 1] in s.path;
  }

  // ----- the search as a function

  function StartAt(start: PluginId, states: map<PluginId, Visit>): Search {
    Search([Frame(start, 0)], [start], map[start := 0], states[start := Visiting])
  }

  /** Where a search ends: the cycle it closes, if any, and what it has visited. */
  ghost function Explored(neighbours: map<PluginId, seq<PluginId>>, s: Search)
    : (Option<seq<PluginId>>, map<PluginId, Visit>)
    decreases |neighbours.Keys - s.states.Keys|, Work(neighbours, s.stack)
  {
    if s.stack == [] || s.path == [] || !InBounds(neighbours, s.stack[|s.stack| - 1]) then (None, s.states)
    else
      WorkDecreases(s, neighbours);
      var top := s.stack[|s.stack| - 1];
      if top.next >= |neighbours[top.node]| then
        PopLeavesNoMore(neighbours.Keys, s);
        Explored(neighbours, s.Pop())
      else
        var next := neighbours[top.node][top.next];
        if next !in s.states && next in neighbours then
          Shrinks(neighbours.Keys, s, next);
          Explored(neighbours, s.Bump().Push(next))
        else if next in s.states && s.states[next] == Done then Explored(neighbours, s.Bump())
        else if next in s.positions && s.positions[next] <= |s.path|
            then (Some(s.path[s.positions[next]..] + [next]), s.states)
        else (None, s.states)
  }

  lemma PopLeavesNoMore(nodes: set<PluginId>, s: Search)
    requires |s.stack| > 0 && |s.path| > 0
    ensures |nodes - s.Pop().states.Keys| <= |nodes - s.states.Keys|
  {
    var node := s.stack[|s.stack| - 1].node;
    assert s.Pop().states.Keys == s.states.Keys + {node};
    SubsetSize(nodes - s.Pop().states.Keys, nodes - s.states.Keys);
  }

  /** The first cycle met when the starts are tried in turn. */
  ghost function FirstCycle(neighbours: map<PluginId, seq<PluginId>>, starts: seq<PluginId>,
      states: map<PluginId, Visit>): Option<seq<PluginId>>
    decreases |starts|
  {
    if starts == [] then None
    else if starts[0] in states then FirstCycle(neighbours, starts[1..], states)
    else
      var (cycle, visited) := Explored(neighbours, StartAt(starts[0], states));
      if cycle.Some? then cycle else FirstCycle(neighbours, starts[1..], visited)
  }

  /** What the search reports for these arcs, trying the nodes in ascending order. */
  ghost function CycleOf(neighbours: map<PluginId, seq<PluginId>>): seq<PluginId> {
    IdOrder();
    match FirstCycle(neighbours, Ascend(IdLess, neighbours.Keys), map[])
    case Some(cycle) => cycle
    case None => if neighbours.Keys == {} then [] else [Least(IdLess, neighbours.Keys)]
  }

  /** A search from one unvisited start: a cycle, or everything reached is finished. */
  method Explore(start: PluginId, neighbours: map<PluginId, seq<PluginId>>, states0: map<PluginId, Visit>,
                 ghost remaining: set<PluginId>, ghost adjacency: Adjacency, ghost finished0: seq<PluginId>)
    returns (cycle: Option<seq<PluginId>>, states: map<PluginId, Visit>, ghost finished: seq<PluginId>)
    requires NeighboursOf(neighbours, remaining, adjacency)
    requires start in remaining && start !in states0
    requires SinksFirst(adjacency, remaining, finished0) && StatesAre(states0, [], finished0)
    ensures cycle.Some? ==> SimpleCycle(adjacency, remaining, cycle.value)
    ensures cycle.None? ==>
              && SinksFirst(adjacency, remaining, finished) && StatesAre(states, [], finished)
              && start in finished && finished0 <= finished
    ensures (cycle, states) == Explored(neighbours, StartAt(start, states0))
  {
    hide SinksFirst, NeighboursOf, StatesAre, SimpleCycle, Search.Valid, Search.FrameOk, Search.Exploring,
      Search.Pop, Search.Push, Search.Bump, Work, Explored;
    var s := Search([Frame(start, 0)], [start], map[start := 0], states0[start := Visiting]);
    finished := finished0;
    StartIsValid(start, neighbours, states0, finished, remaining, adjacency);
    while |s.stack| > 0
      invariant s.Valid(neighbours, finished)
      invariant SinksFirst(adjacency, remaining, finished)
      invariant finished0 <= finished
      invariant start in s.states
      invariant Explored(neighbours, s) == Explored(neighbours, StartAt(start, states0))
      decreases |remaining - s.states.Keys|, Work(neighbours, s.stack)
    {
      var top := s.stack[|s.stack| - 1];
      TopIsInBounds(s, neighbours, finished);
      var outgoing := neighbours[top.node];
      WorkDecreases(s, neighbours);
      NextOfSearch(neighbours, s);
      if top.next >= |outgoing| {
        TopIsExhausted(s, neighbours, finished, remaining, adjacency, top.node);
        FinishKeepsSinksFirst(remaining, adjacency, finished, top.node);
        PopKeepsValid(s, neighbours, finished);
        TopIsVisited(s, neighbours, finished);
        s, finished := s.Pop(), finished + [top.node];
      } else {
        var next := outgoing[top.next];
        assert |s.stack| > 0;
        NeighbourRemains(neighbours, remaining, adjacency, top.node, top.next);
        if next !in s.states {
          NeighbourIsListed(neighbours, remaining, adjacency, next);
          PushKeepsValid(s, neighbours, finished, next);
          Shrinks(remaining, s, next);
          s := s.Bump().Push(next);
        } else if s.states[next] == Visiting {
          BackArcClosesCycle(s, neighbours, finished, remaining, adjacency, next);
          return Some(s.path[s.positions[next]..] + [next]), s.states, finished;
        } else {
          VisitedIsFinished(s, neighbours, finished, next);
          BumpKeepsValid(s, neighbours, finished, next);
          s := s.Bump();
        }
      }
    }
    EndIsSettled(s, neighbours, finished, start);
    EndOfSearch(neighbours, s);
    return None, s.states, finished;
  }

  /** One step of the search leads to the same end. */
  lemma NextOfSearch(neighbours: map<PluginId, seq<PluginId>>, s: Search)
    requires |s.stack| > 0 && |s.path| > 0 && InBounds(neighbours, s.stack[|s.stack| - 1])
    ensures var top := s.stack[|s.stack| - 1];
            if top.next >= |neighbours[top.node]| then Explored(neighbours, s) == Explored(neighbours, s.Pop())
            else
              var next := neighbours[top.node][top.next];
              && (next !in s.states && next in neighbours ==>
                  Explored(neighbours, s) == Explored(neighbours, s.Bump().Push(next)))
              && (next in s.states && s.states[next] == Done ==>
                  Explored(neighbours, s) == Explored(neighbours, s.Bump()))
              && (next in s.states && s.states[next] == Visiting && next in s.positions
                  && s.positions[next] <= |s.path| ==>
                    Explored(neighbours, s) == (Some(s.path[s.positions[next]..] + [next]), s.states))
  {
  }

  lemma EndOfSearch(neighbours: map<PluginId, seq<PluginId>>, s: Search)
    requires s.stack == []
    ensures Explored(neighbours, s) == (None, s.states)
  {
  }

  lemma StartIsValid(start: PluginId, neighbours: map<PluginId, seq<PluginId>>, states: map<PluginId, Visit>,
                     finished: seq<PluginId>, remaining: set<PluginId>, adjacency: Adjacency)
    requires NeighboursOf(neighbours, remaining, adjacency) && start in remaining && start !in states
    requires StatesAre(states, [], finished)
    ensures Search([Frame(start, 0)], [start], map[start := 0], states[start := Visiting]).Valid(neighbours, finished)
  {
    assert Search([Frame(start, 0)], [start], map[start := 0], states[start := Visiting])
        .FrameOk(neighbours, finished, 0);
  }

  lemma TopIsInBounds(s: Search, neighbours: map<PluginId, seq<PluginId>>, finished: seq<PluginId>)
    requires s.Valid(neighbours, finished) && |s.stack| > 0
    ensures InBounds(neighbours, s.stack[|s.stack| - 1])
    ensures |s.stack| == |s.path|
    ensures var top := s.stack[|s.stack| - 1];
            top.next < |neighbours[top.node]| ==> s.Exploring(neighbours, finished, neighbours[top.node][top.next])
  {
    assert s.FrameOk(neighbours, finished, |s.stack| - 1);
  }

  lemma EndIsSettled(s: Search, neighbours: map<PluginId, seq<PluginId>>, finished: seq<PluginId>, start: PluginId)
    requires s.Valid(neighbours, finished) && |s.stack| == 0 && start in s.states
    ensures StatesAre(s.states, [], finished) && start in finished
  {
  }

  /** A node that is visited but not being visited has been finished. */
  lemma VisitedIsFinished(s: Search, neighbours: map<PluginId, seq<PluginId>>, finished: seq<PluginId>, next: PluginId)
    requires s.Valid(neighbours, finished) && next in s.states && s.states[next] != Visiting
    ensures next in finished
  {
  }

  lemma Shrinks(remaining: set<PluginId>, s: Search, next: PluginId)
    requires next in remaining && next !in s.states && |s.stack| > 0
    ensures |remaining - s.Bump().Push(next).states.Keys| < |remaining - s.states.Keys|
    ensures s.Bump().Push(next).states.Keys == s.states.Keys + {next}
  {
    assert s.Bump().Push(next).states == s.states[next := Visiting];
    assert s.Bump().Push(next).states.Keys == s.states.Keys + {next};
    LessRemains(remaining, s.states.Keys, next);
  }

  lemma LessRemains<T>(a: set<T>, b: set<T>, x: T)
    requires x in a && x !in b
    ensures |a - (b + {x})| < |a - b|
  {
    assert a - (b + {x}) == (a - b) - {x};
  }

  /** The witness is a simple cycle exactly when there is a cycle, in particular
      whenever every remaining node still waits for a remaining predecessor. */
  method FindCycle(remaining: set<PluginId>, adjacency: Adjacency) returns (cycle: seq<PluginId>)
    ensures HasCycle(adjacency, remaining) ==> SimpleCycle(adjacency, remaining, cycle)
    ensures !HasCycle(adjacency, remaining) ==> cycle == if remaining == {} then [] else [Least(IdLess, remaining)]
    ensures remaining != {} && (forall v :: v in remaining ==> HasPredecessor(adjacency, remaining, v))
            ==> HasCycle(adjacency, remaining)
    ensures cycle == CycleOf(NeighbourLists(remaining, adjacency))
  {
    hide Explored, FirstCycle, CycleOf, NeighbourLists, HasPredecessor, SinksFirst, NeighboursOf, HasCycle,
      SimpleCycle, StatesAre, StrictTotal, Ascending;
    IdOrder();
    var neighbours := Neighbours(remaining, adjacency);
    NothingFinished(adjacency, remaining);
    var states: map<PluginId, Visit> := map[];
    ghost var finished: seq<PluginId> := [];
    AscendProperties(IdLess, remaining);
    var starts := Enumerate(IdLess, remaining);
    for i := 0 to |starts|
      invariant SinksFirst(adjacency, remaining, finished) && StatesAre(states, [], finished)
      invariant forall k :: 0 <= k < i ==> starts[k] in finished
      invariant FirstCycle(neighbours, starts, map[]) == FirstCycle(neighbours, starts[i..], states)
    {
      assert starts[i] in starts;
      FirstCycleStep(neighbours, starts, i, states);
      if starts[i] in states {
        KnownIsFinished(states, finished, starts[i]);
      } else {
        var found;
        ghost var before := finished;
        found, states, finished := Explore(starts[i], neighbours, states, remaining, adjacency, finished);
        if found.Some? {
          FoundIsWitness(adjacency, remaining, found.value);
          CycleOfIs(neighbours, remaining, adjacency, found);
          return found.value;
        }
        PrefixElements(before, finished);
      }
    }
    NothingLeftToFind(adjacency, remaining, finished);
    assert starts[|starts|..] == [];
    NoStartLeft(neighbours, states);
    CycleOfIs(neighbours, remaining, adjacency, None);
    cycle := if |starts| == 0 then [] else [starts[0]];
    assert remaining == {} <==> |starts| == 0 by { if |starts| > 0 { assert starts[0] in remaining; } }
    if |starts| > 0 { LeastIsFirst(remaining, starts); }
  }

  lemma FirstCycleStep(neighbours: map<PluginId, seq<PluginId>>, starts: seq<PluginId>, i: nat,
      states: map<PluginId, Visit>)
    requires i < |starts|
    ensures FirstCycle(neighbours, starts[i..], states) ==
              if starts[i] in states then FirstCycle(neighbours, starts[i + 1..], states)
              else
                var (cycle, visited) := Explored(neighbours, StartAt(starts[i], states));
                if cycle.Some? then cycle else FirstCycle(neighbours, starts[i + 1..], visited)
  {
    assert starts[i..][0] == starts[i] && starts[i..][1..] == starts[i + 1..];
  }

  lemma NoStartLeft(neighbours: map<PluginId, seq<PluginId>>, states: map<PluginId, Visit>)
    ensures FirstCycle(neighbours, [], states) == None
  {
  }

  lemma CycleOfIs(neighbours: map<PluginId, seq<PluginId>>, remaining: set<PluginId>, adjacency: Adjacency,
      found: Option<seq<PluginId>>)
    requires StrictTotal(IdLess) && NeighboursOf(neighbours, remaining, adjacency)
    requires FirstCycle(neighbours, Ascend(IdLess, remaining), map[]) == found
    ensures CycleOf(neighbours) ==
            if found.Some? then found.value else if remaining == {} then [] else [Least(IdLess, remaining)]
  {
    assert neighbours.Keys == remaining;
    hide FirstCycle, NeighboursOf, StrictTotal, Ascend;
  }

  lemma KnownIsFinished(states: map<PluginId, Visit>, finished: seq<PluginId>, x: PluginId)
    requires StatesAre(states, [], finished) && x in states
    ensures x in finished
  {
  }

  lemma NothingFinished(adjacency: Adjacency, within: set<PluginId>)
    ensures SinksFirst(adjacency, within, []) && StatesAre(map[], [], [])
  {
  }

  lemma FoundIsWitness(adjacency: Adjacency, within: set<PluginId>, c: seq<PluginId>)
    requires SimpleCycle(adjacency, within, c)
    ensures HasCycle(adjacency, within)
  {
    assert ClosedWalk(adjacency, within, c);
  }

  lemma PrefixElements<T>(a: seq<T>, b: seq<T>)
    requires a <= b
    ensures forall x :: x in a ==> x in b
  {
    assert forall k :: 0 <= k < |a| ==> a[k] == b[k];
  }

  lemma LeastIsFirst(s: set<PluginId>, listed: seq<PluginId>)
    requires s != {} && listed == Ascend(IdLess, s) && |listed| > 0
    ensures listed[0] == Least(IdLess, s)
  {
    assert listed == [Least(IdLess, s)] + Ascend(IdLess, s - {Least(IdLess, s)});
  }

  lemma NothingLeftToFind(adjacency: Adjacency, within: set<PluginId>, f: seq<PluginId>)
    requires SinksFirst(adjacency, within, f)
    requires forall x :: x in within ==> x in f
    ensures !HasCycle(adjacency, within)
    ensures within != {} ==> exists v :: v in within && !HasPredecessor(adjacency, within, v)
  {
    if HasCycle(adjacency, within) {
      var w :| ClosedWalk(adjacency, within, w);
      SinksFirstHasNoCycle(adjacency, within, f, w);
      assert false;
    }
    if within != {} {
      var v := SinksFirstHasSource(adjacency, within, f);
      assert !HasPredecessor(adjacency, within, v);
    }
  }
}
