/** The order in which the agents of an AgentSystem run: Kahn's algorithm with a
    fallback for cycles, and the command line's own copy of it.

    A system is its declared agents and its graph, where each graph key carries
    the outgoing agent names of its node (in order, repeats allowed). */
module ExecutionOrder {

  type Name = string
  type Graph = map<Name, seq<Name>>

  datatype System = System(agents: seq<Name>, graph: Graph)

  /** One occurrence of an edge: the graph key it leaves and its place in that key's list. */
  datatype Edge = Edge(from: Name, at: nat)

  predicate NoDup(s: seq<Name>) {
    forall i, j :: 0 <= i < j < |s| ==> s[i] != s[j]
  }

  function Elems(s: seq<Name>): set<Name> {
    set x | x in s
  }

  ghost predicate IsEdge(g: Graph, e: Edge) {
    e.from in g && e.at < |g[e.from]|
  }

  ghost function AllEdges(g: Graph): set<Edge> {
    set k, i | k in g && 0 <= i < |g[k]| :: Edge(k, i)
  }

  /** The edges of `es` that enter `to`. */
  ghost function Into(g: Graph, es: set<Edge>, to: Name): set<Edge> {
    set e | e in es && IsEdge(g, e) && g[e.from][e.at] == to
  }

  // ---------------------------------------------------------------- the pure form

  /** The variables of the drain loop. */
  datatype Kahn = Kahn(indegree: map<Name, int>, queue: seq<Name>, queued: set<Name>, order: seq<Name>)

  ghost function RelaxOne(s: Kahn, to: Name): Kahn {
    if to !in s.indegree then s
    else
      var d := s.indegree[to] - 1;
      if d == 0 && to !in s.queued
      then Kahn(s.indegree[to := d], s.queue + [to], s.queued + {to}, s.order)
      else s.(indegree := s.indegree[to := d])
  }

  ghost function RelaxAll(s: Kahn, targets: seq<Name>): (r: Kahn)
    ensures r.order == s.order && s.queue <= r.queue
  {
    if targets == [] then s else RelaxOne(RelaxAll(s, targets[..|targets| - 1]), targets[|targets| - 1])
  }

  /** Pops left: every pop removes one queue entry, every push turns an unqueued agent into one. */
  ghost function Potential(s: Kahn): nat {
    |s.queue| + |s.indegree.Keys - s.queued|
  }

  lemma RelaxOnePotential(s: Kahn, to: Name)
    ensures Potential(RelaxOne(s, to)) == Potential(s)
  {
    var agents := s.indegree.Keys;
    assert to in agents ==> s.indegree[to := s.indegree[to] - 1].Keys == agents;
    assert to in agents && to !in s.queued ==> agents - (s.queued + {to}) == (agents - s.queued) - {to};
  }

  lemma {:induction false} RelaxAllPotential(s: Kahn, targets: seq<Name>)
    ensures Potential(RelaxAll(s, targets)) == Potential(s)
  {
    hide Potential, RelaxOne;
    if targets != [] {
      RelaxAllPotential(s, targets[..|targets| - 1]);
      RelaxOnePotential(RelaxAll(s, targets[..|targets| - 1]), targets[|targets| - 1]);
    }
  }

  ghost function Visit(g: Graph, s: Kahn): Kahn
    requires s.queue != []
  {
    var current := s.queue[0];
    if current in s.order then s.(queue := s.queue[1..])
    else if current in g then RelaxAll(Take(s), g[current])
    else Take(s)
  }

  /** Every visit uses up a pop. */
  lemma VisitShrinks(g: Graph, s: Kahn)
    requires s.queue != []
    ensures Potential(Visit(g, s)) < Potential(s)
  {
    hide RelaxAll;
    if s.queue[0] in g {
      RelaxAllPotential(Take(s), g[s.queue[0]]);
    }
  }

  ghost function Take(s: Kahn): Kahn
    requires s.queue != []
  {
    s.(queue := s.queue[1..], order := s.order + [s.queue[0]])
  }

  ghost function Drain(g: Graph, s: Kahn): Kahn
    decreases Potential(s)
  {
    if s.queue == [] then s
    else
      VisitShrinks(g, s);
      Drain(g, Visit(g, s))
  }

  ghost function Indegrees(sys: System): map<Name, int> {
    map a | a in sys.agents :: |Into(sys.graph, AllEdges(sys.graph), a)|
  }

  /** The agents no graph edge enters, in declaration order. */
  ghost function Roots(sys: System): seq<Name> {
    RootsOf(Indegrees(sys), sys.agents)
  }

  ghost function RootsOf(indegree: map<Name, int>, agents: seq<Name>): seq<Name>
    requires forall a :: a in agents ==> a in indegree
  {
    if agents == [] then []
    else
      var before, last := RootsOf(indegree, agents[..|agents| - 1]), agents[|agents| - 1];
      if indegree[last] == 0 then before + [last] else before
  }

  ghost function Start(sys: System): Kahn {
    Kahn(Indegrees(sys), Roots(sys), Elems(Roots(sys)), [])
  }

  /** The agents taken by the drain loop, in the order they are taken. */
  ghost function Drained(sys: System): seq<Name> {
    Drain(sys.graph, Start(sys)).order
  }

  /** The declared agents that are not in `done`, in declaration order. */
  ghost function Without(agents: seq<Name>, done: seq<Name>): seq<Name> {
    if agents == [] then []
    else
      var before, last := Without(agents[..|agents| - 1], done), agents[|agents| - 1];
      if last in done then before else before + [last]
  }

  ghost function Order(sys: System): seq<Name> {
    if sys.agents == [] || sys.graph == map[] then sys.agents
    else Drained(sys) + Without(sys.agents, Drained(sys))
  }

  // ---------------------------------------------------------------- what every step keeps

  /** `left` is the set of edges not yet subtracted from the indegrees. */
  ghost predicate Counts(sys: System, s: Kahn, left: set<Edge>) {
    && left <= AllEdges(sys.graph)
    && s.indegree.Keys == Elems(sys.agents)
    && (forall a :: a in s.indegree ==> s.indegree[a] == |Into(sys.graph, left, a)|)
    && (forall a :: a in s.indegree ==> (a in s.queued <==> s.indegree[a] == 0))
    && s.queued <= Elems(sys.agents)
  }

  /** Every edge into `order[j]` leaves an earlier entry. */
  ghost predicate Forward(g: Graph, order: seq<Name>) {
    forall j, k :: 0 <= j < |order| && k in g && order[j] in g[k] ==> k in order[..j]
  }

  ghost predicate Inv(sys: System, s: Kahn) {
    && Counts(sys, s, EdgesOutside(sys.graph, s.order))
    && NoDup(s.order)
    && s.queued == Elems(s.order) + Elems(s.queue)
    && Forward(sys.graph, s.order)
  }

  ghost function EdgesOutside(g: Graph, order: seq<Name>): set<Edge> {
    set e | e in AllEdges(g) && e.from !in order
  }

  lemma RootsChosen(indegree: map<Name, int>, agents: seq<Name>)
    requires forall a :: a in agents ==> a in indegree
    ensures forall a :: a in RootsOf(indegree, agents) <==> a in agents && indegree[a] == 0
    ensures NoDup(agents) ==> NoDup(RootsOf(indegree, agents))
  {
  }

  lemma StartInv(sys: System)
    ensures Inv(sys, Start(sys))
  {
    RootsChosen(Indegrees(sys), sys.agents);
    assert EdgesOutside(sys.graph, []) == AllEdges(sys.graph);
  }

  /** Subtracting one edge keeps the counts exact. */
  lemma RelaxOneCounts(sys: System, s: Kahn, left: set<Edge>, e: Edge)
    requires Counts(sys, s, left) && e in left
    ensures Counts(sys, RelaxOne(s, sys.graph[e.from][e.at]), left - {e})
  {
    hide Into;
    assert e in AllEdges(sys.graph);
    AddEdge(sys.graph, left - {e}, e);
    assert left - {e} + {e} == left;
  }

  /** `left` without the first `n` edges of key `k`. */
  ghost function Beyond(left: set<Edge>, k: Name, n: nat): set<Edge> {
    set e | e in left && !(e.from == k && e.at < n)
  }

  lemma {:induction false} RelaxAllCounts(sys: System, s: Kahn, left: set<Edge>, k: Name, n: nat)
    requires Counts(sys, s, left) && k in sys.graph && n <= |sys.graph[k]|
    requires forall i :: 0 <= i < |sys.graph[k]| ==> Edge(k, i) in left
    ensures Counts(sys, RelaxAll(s, sys.graph[k][..n]), Beyond(left, k, n))
  {
    hide Counts, RelaxOne;
    var out := sys.graph[k];
    if n == 0 {
      assert Beyond(left, k, n) == left;
    } else {
      RelaxAllCounts(sys, s, left, k, n - 1);
      assert out[..n][..n - 1] == out[..n - 1];
      BeyondStep(left, k, n);
      RelaxOneCounts(sys, RelaxAll(s, out[..n - 1]), Beyond(left, k, n - 1), Edge(k, n - 1));
    }
  }

  lemma BeyondStep(left: set<Edge>, k: Name, n: nat)
    requires n > 0 && Edge(k, n - 1) in left
    ensures Edge(k, n - 1) in Beyond(left, k, n - 1)
    ensures Beyond(left, k, n) == Beyond(left, k, n - 1) - {Edge(k, n - 1)}
  {
  }

  lemma RelaxOneQueue(s: Kahn, to: Name, taken: set<Name>)
    requires s.queued == taken + Elems(s.queue)
    ensures RelaxOne(s, to).queued == taken + Elems(RelaxOne(s, to).queue)
  {
  }

  /** Relaxing only adds to the queue what it adds to the queued set. */
  lemma {:induction false} RelaxAllQueue(s: Kahn, targets: seq<Name>, taken: set<Name>)
    requires s.queued == taken + Elems(s.queue)
    ensures RelaxAll(s, targets).queued == taken + Elems(RelaxAll(s, targets).queue)
  {
    hide RelaxOne, Elems;
    if targets != [] {
      RelaxAllQueue(s, targets[..|targets| - 1], taken);
      RelaxOneQueue(RelaxAll(s, targets[..|targets| - 1]), targets[|targets| - 1], taken);
    }
  }

  lemma OutsideStep(g: Graph, order: seq<Name>, current: Name)
    requires current !in order
    ensures EdgesOutside(g, order + [current])
         == (if current in g then Beyond(EdgesOutside(g, order), current, |g[current]|) else EdgesOutside(g, order))
    ensures current in g ==> forall i :: 0 <= i < |g[current]| ==> Edge(current, i) in EdgesOutside(g, order)
  {
  }

  lemma VisitCounts(sys: System, s: Kahn)
    requires Inv(sys, s) && s.queue != [] && s.queue[0] !in s.order
    ensures Counts(sys, Visit(sys.graph, s), EdgesOutside(sys.graph, s.order + [s.queue[0]]))
  {
    var g, current := sys.graph, s.queue[0];
    OutsideStep(g, s.order, current);
    if current in g {
      RelaxAllCounts(sys, Take(s), EdgesOutside(g, s.order), current, |g[current]|);
      assert g[current][..|g[current]|] == g[current];
    }
  }

  lemma VisitQueue(g: Graph, s: Kahn)
    requires s.queue != [] && s.queued == Elems(s.order) + Elems(s.queue)
    ensures Visit(g, s).queued == Elems(Visit(g, s).order) + Elems(Visit(g, s).queue)
  {
    hide RelaxAll;
    var current := s.queue[0];
    assert s.queue == [current] + s.queue[1..];
    if current !in s.order && current in g {
      RelaxAllQueue(Take(s), g[current], Elems(s.order + [current]));
    }
  }

  lemma VisitInv(sys: System, s: Kahn)
    requires Inv(sys, s) && s.queue != []
    ensures Inv(sys, Visit(sys.graph, s))
  {
    hide RelaxAll, Into, Forward;
    VisitQueue(sys.graph, s);
    if s.queue[0] !in s.order {
      VisitCounts(sys, s);
      TakenForward(sys, s);
      assert Visit(sys.graph, s).order == s.order + [s.queue[0]];
    }
  }

  /** A queued agent has no edge left into it, so all its sources are already in the order. */
  lemma TakenForward(sys: System, s: Kahn)
    requires Inv(sys, s) && s.queue != [] && s.queue[0] !in s.order
    ensures Forward(sys.graph, s.order + [s.queue[0]])
  {
    var g, current := sys.graph, s.queue[0];
    assert current in s.queued;
    forall k | k in g && current in g[k] ensures k in s.order {
      var i: nat :| i < |g[k]| && g[k][i] == current;
      assert k !in s.order ==> Edge(k, i) in Into(g, EdgesOutside(g, s.order), current);
    }
    forall j | 0 <= j < |s.order| + 1
      ensures (s.order + [current])[..j] == s.order[..j]
    {
    }
  }

  lemma {:induction false} DrainInv(sys: System, s: Kahn)
    requires Inv(sys, s)
    ensures Inv(sys, Drain(sys.graph, s)) && Drain(sys.graph, s).queue == []
    decreases Potential(s)
  {
    if s.queue != [] {
      VisitInv(sys, s);
      VisitShrinks(sys.graph, s);
      DrainInv(sys, Visit(sys.graph, s));
    }
  }

  /** Once the queue is empty, an agent left over still has an edge from a key left over. */
  lemma LeftOver(sys: System, end: Kahn, a: Name)
    requires Inv(sys, end) && end.queue == [] && a in sys.agents && a !in end.order
    ensures exists k :: k in sys.graph && a in sys.graph[k] && k !in end.order
  {
    var into := Into(sys.graph, EdgesOutside(sys.graph, end.order), a);
    assert a in end.indegree && a !in end.queued;
    assert |into| != 0;
    var e :| e in into;
    assert sys.graph[e.from][e.at] == a;
  }

  /** The facts about the drained agents that the theorems below use. */
  lemma DrainedFacts(sys: System)
    ensures NoDup(Drained(sys)) && Forward(sys.graph, Drained(sys))
    ensures forall a :: a in Drained(sys) ==> a in sys.agents
  {
    StartInv(sys);
    DrainInv(sys, Start(sys));
    var end := Drain(sys.graph, Start(sys));
    forall a | a in end.order ensures a in sys.agents {
      assert a in end.queued;
    }
  }

  lemma LeftOverSource(sys: System, a: Name) returns (k: Name)
    requires a in sys.agents && a !in Drained(sys)
    ensures k in sys.graph && a in sys.graph[k] && k !in Drained(sys)
  {
    StartInv(sys);
    DrainInv(sys, Start(sys));
    LeftOver(sys, Drain(sys.graph, Start(sys)), a);
    k :| k in sys.graph && a in sys.graph[k] && k !in Drained(sys);
  }

  // ---------------------------------------------------------------- what the order means

  ghost predicate Step(g: Graph, a: Name, b: Name) {
    a in g && b in g[a]
  }

  ghost predicate IsWalk(g: Graph, p: seq<Name>) {
    p != [] && forall i :: 0 <= i < |p| - 1 ==> Step(g, p[i], p[i + 1])
  }

  ghost predicate OnCycle(g: Graph, v: Name) {
    exists c :: IsWalk(g, c) && |c| >= 2 && c[0] == v && c[|c| - 1] == v
  }

  /** A node the drain loop can never take: it lies on a cycle or is a graph key that is no agent. */
  ghost predicate Stuck(sys: System, v: Name) {
    OnCycle(sys.graph, v) || (v in sys.graph && v !in sys.agents)
  }

  ghost predicate Blocked(sys: System, a: Name) {
    exists p :: IsWalk(sys.graph, p) && p[|p| - 1] == a && Stuck(sys, p[0])
  }

  /** A walk into a forward order only visits entries of it, at increasing places. */
  lemma {:induction false} WalkInto(g: Graph, order: seq<Name>, p: seq<Name>, j: nat)
    requires Forward(g, order) && IsWalk(g, p) && j < |order| && p[|p| - 1] == order[j]
    ensures |p| == 1 || p[0] in order[..j]
  {
    if |p| >= 2 {
      var init := p[..|p| - 1];
      assert Step(g, p[|p| - 2], p[|p| - 2 + 1]);
      assert p[|p| - 2] in order[..j];
      var i :| 0 <= i < j && order[i] == p[|p| - 2];
      WalkInto(g, order, init, i);
    }
  }

  lemma ForwardNotBlocked(sys: System, order: seq<Name>, a: Name)
    requires NoDup(order) && Forward(sys.graph, order) && a in order
    requires forall x :: x in order ==> x in sys.agents
    ensures !Blocked(sys, a)
  {
    if Blocked(sys, a) {
      var p :| IsWalk(sys.graph, p) && p[|p| - 1] == a && Stuck(sys, p[0]);
      var j :| 0 <= j < |order| && order[j] == a;
      WalkInto(sys.graph, order, p, j);
      var i :| 0 <= i < |order| && order[i] == p[0];
      if OnCycle(sys.graph, p[0]) {
        var c :| IsWalk(sys.graph, c) && |c| >= 2 && c[0] == p[0] && c[|c| - 1] == p[0];
        WalkInto(sys.graph, order, c, i);
      }
      assert false;
    }
  }

  lemma {:induction false} NoDupFits(p: seq<Name>, universe: set<Name>)
    requires NoDup(p) && forall x :: x in p ==> x in universe
    ensures |p| <= |universe|
  {
    if p != [] {
      NoDupFits(p[1..], universe - {p[0]});
    }
  }

  /** From an agent left over, walk back `n` edges among the left-over agents, unless a key
      outside the agents is met first. */
  lemma {:induction false} BackWalk(sys: System, a: Name, n: nat) returns (p: seq<Name>)
    requires a in sys.agents && a !in Drained(sys)
    ensures IsWalk(sys.graph, p) && p[|p| - 1] == a
    ensures (p[0] in sys.graph && p[0] !in sys.agents) || (|p| == n + 1 && forall x :: x in p ==> x in sys.agents)
    decreases n
  {
    if n == 0 {
      p := [a];
    } else {
      var k := LeftOverSource(sys, a);
      assert Step(sys.graph, k, a);
      if k in sys.agents {
        var q := BackWalk(sys, k, n - 1);
        p := q + [a];
      } else {
        p := [k, a];
      }
    }
  }

  lemma WalkSlice(g: Graph, p: seq<Name>, i: nat, j: nat)
    requires IsWalk(g, p) && i < j <= |p|
    ensures IsWalk(g, p[i..j])
  {
  }

  lemma CycleBy(g: Graph, c: seq<Name>)
    requires IsWalk(g, c) && |c| >= 2 && c[0] == c[|c| - 1]
    ensures OnCycle(g, c[0])
  {
  }

  lemma BlockedBy(sys: System, p: seq<Name>)
    requires IsWalk(sys.graph, p) && Stuck(sys, p[0])
    ensures Blocked(sys, p[|p| - 1])
  {
  }

  lemma RepeatBlocks(sys: System, p: seq<Name>, i: nat, j: nat)
    requires IsWalk(sys.graph, p) && i < j < |p| && p[i] == p[j]
    ensures Blocked(sys, p[|p| - 1])
  {
    hide OnCycle, Blocked;
    WalkSlice(sys.graph, p, i, j + 1);
    WalkSlice(sys.graph, p, i, |p|);
    hide IsWalk;
    CycleBy(sys.graph, p[i..j + 1]);
    BlockedBy(sys, p[i..|p|]);
  }

  lemma LeftOverBlocked(sys: System, a: Name)
    requires a in sys.agents && a !in Drained(sys)
    ensures Blocked(sys, a)
  {
    var p := BackWalk(sys, a, |sys.agents|);
    if p[0] !in sys.agents {
      assert Stuck(sys, p[0]);
    } else {
      if NoDup(p) {
        NoDupFits(p, Elems(sys.agents));
        ElemsSize(sys.agents);
        assert false;
      }
      var i, j :| 0 <= i < j < |p| && p[i] == p[j];
      RepeatBlocks(sys, p, i, j);
    }
  }

  lemma {:induction false} ElemsSize(s: seq<Name>)
    ensures |Elems(s)| <= |s|
  {
    if s != [] {
      ElemsSize(s[1..]);
      assert Elems(s) == Elems(s[1..]) + {s[0]};
    }
  }

  /** The appended tail is exactly the agents reachable from a cycle or from a graph key outside
      the declared agents. */
  lemma DrainedExactly(sys: System, a: Name)
    requires a in sys.agents
    ensures a in Drained(sys) <==> !Blocked(sys, a)
  {
    DrainedFacts(sys);
    if a in Drained(sys) {
      ForwardNotBlocked(sys, Drained(sys), a);
    } else {
      LeftOverBlocked(sys, a);
    }
  }

  lemma {:induction false} WithoutCounts(agents: seq<Name>, done: seq<Name>, a: Name)
    ensures multiset(Without(agents, done))[a] == (if a in done then 0 else multiset(agents)[a])
  {
    if agents != [] {
      WithoutCounts(agents[..|agents| - 1], done, a);
      assert agents == agents[..|agents| - 1] + [agents[|agents| - 1]];
    }
  }

  lemma {:induction false} NoDupCounts(s: seq<Name>, a: Name)
    requires NoDup(s)
    ensures multiset(s)[a] == (if a in s then 1 else 0)
  {
    if s != [] {
      NoDupCounts(s[1..], a);
      assert s == [s[0]] + s[1..];
    }
  }

  /** How often each name occurs in the order, repeated declarations included: an agent the loop
      takes occurs once, any other exactly as often as it is declared. */
  lemma OrderCounts(sys: System, a: Name)
    requires sys.graph != map[]
    ensures multiset(Order(sys))[a] == (if a in Drained(sys) then 1 else multiset(sys.agents)[a])
  {
    DrainedFacts(sys);
    if sys.agents != [] {
      WithoutCounts(sys.agents, Drained(sys), a);
      NoDupCounts(Drained(sys), a);
    }
  }

  /** Duplicate-free agents come out as a permutation. */
  lemma OrderPermutes(sys: System)
    requires NoDup(sys.agents)
    ensures multiset(Order(sys)) == multiset(sys.agents)
    ensures NoDup(Order(sys))
  {
    if sys.graph != map[] {
      forall a ensures multiset(Order(sys))[a] == multiset(sys.agents)[a] {
        DrainedFacts(sys);
        OrderCounts(sys, a);
        NoDupCounts(sys.agents, a);
      }
      SameCountsNoDup(sys.agents, Order(sys));
    }
  }

  lemma {:induction false} SameCountsNoDup(s: seq<Name>, t: seq<Name>)
    requires NoDup(s) && multiset(s) == multiset(t)
    ensures NoDup(t)
  {
    forall i, j | 0 <= i < j < |t| ensures t[i] != t[j] {
      NoDupCounts(s, t[i]);
      if t[i] == t[j] {
        TwiceCounted(t, i, j);
      }
    }
  }

  lemma OrderElems(sys: System)
    requires NoDup(sys.agents)
    ensures forall a :: a in Order(sys) <==> a in sys.agents
  {
    OrderPermutes(sys);
    forall a ensures a in Order(sys) <==> a in sys.agents {
      assert a in multiset(Order(sys)) <==> a in multiset(sys.agents);
    }
  }

  lemma DrainedAllIff(sys: System)
    ensures (forall a :: a in sys.agents ==> a in Drained(sys)) <==> (forall a :: a in sys.agents ==> !Blocked(sys, a))
  {
    forall a | a in sys.agents ensures a in Drained(sys) <==> !Blocked(sys, a) {
      DrainedExactly(sys, a);
    }
  }

  lemma AllDrained(sys: System)
    requires forall a :: a in sys.agents ==> a in Drained(sys)
    ensures Forward(sys.graph, Order(sys))
  {
    DrainedFacts(sys);
    var drained := Drained(sys);
    WithoutNone(sys.agents, drained);
    assert drained + [] == drained;
  }

  /** The order is a topological sort of all declared agents exactly when none of them is reachable
      from a cycle or from a key outside the agents. */
  lemma TopologicalIff(sys: System)
    requires NoDup(sys.agents)
    ensures Forward(sys.graph, Order(sys)) <==> forall a :: a in sys.agents ==> !Blocked(sys, a)
  {
    if Forward(sys.graph, Order(sys)) {
      OrderPermutes(sys);
      OrderElems(sys);
      forall a | a in sys.agents ensures !Blocked(sys, a) {
        ForwardNotBlocked(sys, Order(sys), a);
      }
    }
    DrainedAllIff(sys);
    if forall a :: a in sys.agents ==> !Blocked(sys, a) {
      AllDrained(sys);
    }
  }

  lemma {:induction false} WithoutNone(agents: seq<Name>, done: seq<Name>)
    requires forall a :: a in agents ==> a in done
    ensures Without(agents, done) == []
  {
    if agents != [] {
      WithoutNone(agents[..|agents| - 1], done);
    }
  }

  /** `picked` is what is left of `all` after deleting entries, in the same order. */
  ghost predicate InOrderOf(picked: seq<Name>, all: seq<Name>) {
    exists places: seq<nat> :: Places(places, picked, all)
  }

  predicate Places(places: seq<nat>, picked: seq<Name>, all: seq<Name>) {
    && |places| == |picked|
    && (forall i :: 0 <= i < |places| ==> places[i] < |all| && all[places[i]] == picked[i])
    && (forall i, j :: 0 <= i < j < |places| ==> places[i] < places[j])
  }

  lemma PlacesGrow(places: seq<nat>, picked: seq<Name>, all: seq<Name>, x: Name)
    requires Places(places, picked, all)
    ensures InOrderOf(picked, all + [x]) && InOrderOf(picked + [x], all + [x])
  {
    assert Places(places, picked, all + [x]);
    assert Places(places + [|all|], picked + [x], all + [x]);
  }

  lemma NoPlaces()
    ensures InOrderOf([], [])
  {
    assert Places([], [], []);
  }

  /** Roots and left-over agents both come in declaration order. */
  lemma {:induction false} DeclarationOrder(indegree: map<Name, int>, agents: seq<Name>, done: seq<Name>)
    requires forall a :: a in agents ==> a in indegree
    ensures InOrderOf(RootsOf(indegree, agents), agents) && InOrderOf(Without(agents, done), agents)
  {
    hide Places;
    if agents == [] {
      NoPlaces();
    } else {
      var init, last := agents[..|agents| - 1], agents[|agents| - 1];
      DeclarationOrder(indegree, init, done);
      assert agents == init + [last];
      var p :| Places(p, RootsOf(indegree, init), init);
      PlacesGrow(p, RootsOf(indegree, init), init, last);
      var q :| Places(q, Without(init, done), init);
      PlacesGrow(q, Without(init, done), init, last);
    }
  }

  // ---------------------------------------------------------------- entry points

  /** Nothing queued or taken is queued again. */
  ghost predicate Distinct(s: Kahn) {
    NoDup(s.order + s.queue) && s.queued == Elems(s.order + s.queue)
  }

  lemma RelaxOneDistinct(s: Kahn, to: Name)
    requires Distinct(s)
    ensures Distinct(RelaxOne(s, to))
  {
    assert s.order + (s.queue + [to]) == (s.order + s.queue) + [to];
  }

  lemma {:induction false} RelaxAllDistinct(s: Kahn, targets: seq<Name>)
    requires Distinct(s)
    ensures Distinct(RelaxAll(s, targets))
  {
    hide RelaxOne, Distinct;
    if targets != [] {
      RelaxAllDistinct(s, targets[..|targets| - 1]);
      RelaxOneDistinct(RelaxAll(s, targets[..|targets| - 1]), targets[|targets| - 1]);
    }
  }

  lemma VisitDistinct(g: Graph, s: Kahn)
    requires Distinct(s) && s.queue != []
    ensures Distinct(Visit(g, s))
    ensures s.order + s.queue <= Visit(g, s).order + Visit(g, s).queue
  {
    hide RelaxAll;
    var current := s.queue[0];
    assert s.order + s.queue == (s.order + [current]) + s.queue[1..];
    assert (s.order + s.queue)[|s.order|] == current;
    assert forall i :: 0 <= i < |s.order| ==> s.order[i] == (s.order + s.queue)[i];
    assert Distinct(Take(s));
    if current in g {
      RelaxAllDistinct(Take(s), g[current]);
    }
  }

  lemma {:induction false} DrainPrefix(g: Graph, s: Kahn)
    requires Distinct(s)
    ensures s.order + s.queue <= Drain(g, s).order
    decreases Potential(s)
  {
    if s.queue != [] {
      VisitDistinct(g, s);
      VisitShrinks(g, s);
      DrainPrefix(g, Visit(g, s));
    }
  }

  /** The entry points start the order exactly when the graph is empty or no root is declared twice. */
  lemma EntryPointsFirst(sys: System)
    ensures Roots(sys) <= Order(sys) <==> sys.graph == map[] || NoDup(Roots(sys))
    ensures NoDup(sys.agents) ==> Roots(sys) <= Order(sys)
  {
    RootsChosen(Indegrees(sys), sys.agents);
    if sys.graph == map[] {
      assert AllEdges(sys.graph) == {};
      AllRoots(Indegrees(sys), sys.agents);
    } else if NoDup(Roots(sys)) {
      assert [] + Roots(sys) == Roots(sys);
      DrainPrefix(sys.graph, Start(sys));
    } else {
      RepeatedRoots(sys);
    }
  }

  /** So they do not for an agent declared twice beside a graph. */
  lemma DoubledRoot()
    ensures var sys := System(["a", "a"], map["b" := []]); !(Roots(sys) <= Order(sys))
  {
    hide Order;
    var sys := System(["a", "a"], map["b" := []]);
    assert AllEdges(sys.graph) == {};
    AllRoots(Indegrees(sys), sys.agents);
    assert Roots(sys)[0] == Roots(sys)[1] && "b" in sys.graph;
    EntryPointsFirst(sys);
  }

  lemma RepeatedRoots(sys: System)
    requires sys.graph != map[] && !NoDup(Roots(sys))
    ensures !(Roots(sys) <= Order(sys))
  {
    var roots, order := Roots(sys), Order(sys);
    var i, j :| 0 <= i < j < |roots| && roots[i] == roots[j];
    RootsDrained(sys, roots[i]);
    OrderCounts(sys, roots[i]);
    if roots <= order {
      TwiceCounted(order, i, j);
    }
  }

  lemma TwiceCounted(s: seq<Name>, i: nat, j: nat)
    requires i < j < |s| && s[i] == s[j]
    ensures multiset(s)[s[i]] >= 2
  {
    assert s == s[..i] + [s[i]] + s[i + 1..j] + [s[j]] + s[j + 1..];
  }

  lemma RootsDrained(sys: System, a: Name)
    requires a in Roots(sys)
    ensures a in Drained(sys)
  {
    RootsChosen(Indegrees(sys), sys.agents);
    if a !in Drained(sys) {
      var k := LeftOverSource(sys, a);
      EnteredNotRoot(sys, k, a);
    }
  }

  lemma EnteredNotRoot(sys: System, k: Name, a: Name)
    requires a in sys.agents && k in sys.graph && a in sys.graph[k]
    ensures Indegrees(sys)[a] != 0
  {
    var i: nat :| i < |sys.graph[k]| && sys.graph[k][i] == a;
    assert Edge(k, i) in Into(sys.graph, AllEdges(sys.graph), a);
  }

  lemma {:induction false} AllRoots(indegree: map<Name, int>, agents: seq<Name>)
    requires forall a :: a in agents ==> a in indegree && indegree[a] == 0
    ensures RootsOf(indegree, agents) == agents
  {
    if agents != [] {
      AllRoots(indegree, agents[..|agents| - 1]);
    }
  }

  // ---------------------------------------------------------------- the order among drained agents

  /** Where an agent is freed: the place of a source in the order, and an index in that source's list. */
  datatype Mark = Mark(place: nat, index: nat)

  predicate Before(m: Mark, n: Mark) {
    m.place < n.place || (m.place == n.place && m.index < n.index)
  }

  /** `index` is the last occurrence of `x` in the list. */
  predicate LastAt(list: seq<Name>, index: nat, x: Name) {
    index < |list| && list[index] == x && forall i :: index < i < |list| ==> list[i] != x
  }

  /** The mark is the latest source of `x` in the order, with the last occurrence of `x` in its list. */
  ghost predicate FreedAt(g: Graph, order: seq<Name>, x: Name, m: Mark) {
    && m.place < |order| && order[m.place] in g && LastAt(g[order[m.place]], m.index, x)
    && forall q :: m.place < q < |order| && order[q] in g ==> x !in g[order[q]]
  }

  /** The marks, in increasing order, of the entries of `total` behind the first `n`. */
  ghost predicate Marked(g: Graph, order: seq<Name>, total: seq<Name>, n: nat, marks: seq<Mark>) {
    && |total| == n + |marks|
    && (forall m :: 0 <= m < |marks| ==> FreedAt(g, order, total[n + m], marks[m]))
    && (forall m, k :: 0 <= m < k < |marks| ==> Before(marks[m], marks[k]))
  }

  /** Which sequence the drained agents are, said without the loops: the agents that are not blocked, each once;
      first the roots, as declared; then the others in the order in which they are freed, each behind all its
      sources. */
  ghost predicate FreedOrder(sys: System, order: seq<Name>, marks: seq<Mark>) {
    && NoDup(order) && (forall a :: a in order <==> a in sys.agents && !Blocked(sys, a))
    && Roots(sys) <= order && Marked(sys.graph, order, order, |Roots(sys)|, marks)
    && forall m :: 0 <= m < |marks| ==> marks[m].place < |Roots(sys)| + m
  }

  ghost function Picked(list: seq<Name>, idx: seq<nat>): seq<Name>
    requires forall i :: 0 <= i < |idx| ==> idx[i] < |list|
  {
    seq(|idx|, i requires 0 <= i < |idx| => list[idx[i]])
  }

  /** The indices at which agents are freed by one source: increasing, and each the agent's last. */
  ghost predicate FreedIndices(list: seq<Name>, idx: seq<nat>, n: nat) {
    && (forall i :: 0 <= i < |idx| ==> idx[i] < n && idx[i] < |list| && LastAt(list, idx[i], list[idx[i]]))
    && (forall i, j :: 0 <= i < j < |idx| ==> idx[i] < idx[j])
  }

  /** An agent queued when edge `e` is subtracted has no edge left, so none later in the same list. */
  lemma QueuedAtLast(sys: System, s: Kahn, left: set<Edge>, k: Name, n: nat)
    requires k in sys.graph && n < |sys.graph[k]| && Counts(sys, s, Beyond(left, k, n)) && Edge(k, n) in left
    requires forall i :: 0 <= i < |sys.graph[k]| ==> Edge(k, i) in left
    ensures var t := RelaxOne(s, sys.graph[k][n]);
            t.queue == s.queue || (t.queue == s.queue + [sys.graph[k][n]] && LastAt(sys.graph[k], n, sys.graph[k][n]))
  {
    hide Into;
    var to := sys.graph[k][n];
    var t := RelaxOne(s, to);
    if t.queue != s.queue {
      BeyondStep(left, k, n + 1);
      RelaxOneCounts(sys, s, Beyond(left, k, n), Edge(k, n));
      assert t.indegree[to] == 0;
      forall i: nat | n < i < |sys.graph[k]| ensures sys.graph[k][i] != to {
        NoneLeft(sys.graph, Beyond(left, k, n + 1), to, Edge(k, i));
      }
    }
  }

  lemma NoneLeft(g: Graph, left: set<Edge>, to: Name, e: Edge)
    requires |Into(g, left, to)| == 0 && e in left && IsEdge(g, e)
    ensures g[e.from][e.at] != to
  {
    assert e in Into(g, left, to) <==> g[e.from][e.at] == to;
  }

  /** What relaxing the first `n` targets of `k` adds to the queue. */
  lemma {:induction false} RelaxAllAdds(sys: System, s: Kahn, left: set<Edge>, k: Name, n: nat) returns (idx: seq<nat>)
    requires Counts(sys, s, left) && k in sys.graph && n <= |sys.graph[k]|
    requires forall i :: 0 <= i < |sys.graph[k]| ==> Edge(k, i) in left
    ensures FreedIndices(sys.graph[k], idx, n)
    ensures RelaxAll(s, sys.graph[k][..n]).queue == s.queue + Picked(sys.graph[k], idx)
  {
    hide Counts, RelaxOne, LastAt;
    var out := sys.graph[k];
    if n == 0 {
      idx := [];
    } else {
      idx := RelaxAllAdds(sys, s, left, k, n - 1);
      assert out[..n][..n - 1] == out[..n - 1];
      var t := RelaxAll(s, out[..n - 1]);
      RelaxAllCounts(sys, s, left, k, n - 1);
      QueuedAtLast(sys, t, left, k, n - 1);
      if RelaxOne(t, out[n - 1]).queue != t.queue {
        PickedMore(out, idx, n - 1);
        idx := idx + [n - 1];
      }
    }
  }

  lemma PickedMore(list: seq<Name>, idx: seq<nat>, n: nat)
    requires (forall i :: 0 <= i < |idx| ==> idx[i] < |list|) && n < |list|
    ensures Picked(list, idx + [n]) == Picked(list, idx) + [list[n]]
  {
  }

  /** What is queued or taken has no source that is not taken. */
  lemma NoSourceLeft(sys: System, s: Kahn, x: Name, k: Name)
    requires Inv(sys, s) && (x in s.order || x in s.queue) && k in sys.graph && x in sys.graph[k]
    ensures k in s.order
  {
    hide Forward;
    assert x in s.queued;
    var i: nat :| i < |sys.graph[k]| && sys.graph[k][i] == x;
    if k !in s.order {
      NoneLeft(sys.graph, EdgesOutside(sys.graph, s.order), x, Edge(k, i));
    }
  }

  /** A visit marks what it queues with the place it takes, behind all earlier marks. */
  lemma VisitMarks(sys: System, s: Kahn, n: nat, marks: seq<Mark>) returns (more: seq<Mark>)
    requires Inv(sys, s) && Distinct(s) && s.queue != [] && Marked(sys.graph, s.order, s.order + s.queue, n, marks)
    ensures var t := Visit(sys.graph, s); Marked(sys.graph, t.order, t.order + t.queue, n, more)
  {
    hide Inv, Distinct, RelaxAll, Before, LastAt;
    var g, current, t := sys.graph, s.queue[0], Visit(sys.graph, s);
    var total := s.order + s.queue;
    assert total[|s.order|] == current;
    assert current !in s.order by { HeadNotTaken(s); }
    assert total == (s.order + [current]) + s.queue[1..];
    var idx: seq<nat> := [];
    if current in g {
      CountsAtVisit(sys, s);
      idx := RelaxAllAdds(sys, Take(s), EdgesOutside(g, s.order), current, |g[current]|);
      assert g[current][..|g[current]|] == g[current];
      assert t.order + t.queue == total + Picked(g[current], idx);
    } else {
      assert t.order + t.queue == total + [];
    }
    more := marks + seq(|idx|, i requires 0 <= i < |idx| => Mark(|s.order|, idx[i]));
    forall m | 0 <= m < |more| ensures FreedAt(g, t.order, (t.order + t.queue)[n + m], more[m]) {
      if m < |marks| {
        StillFreed(sys, s, total[n + m], marks[m]);
      }
    }
    MarksIncrease(|s.order|, marks, idx, more);
  }

  lemma HeadNotTaken(s: Kahn)
    requires Distinct(s) && s.queue != []
    ensures s.queue[0] !in s.order
  {
    var total := s.order + s.queue;
    assert total[|s.order|] == s.queue[0];
    assert forall i :: 0 <= i < |s.order| ==> s.order[i] == total[i];
  }

  lemma CountsAtVisit(sys: System, s: Kahn)
    requires Inv(sys, s) && s.queue != [] && s.queue[0] !in s.order && s.queue[0] in sys.graph
    ensures Counts(sys, Take(s), EdgesOutside(sys.graph, s.order))
    ensures forall i :: 0 <= i < |sys.graph[s.queue[0]]| ==> Edge(s.queue[0], i) in EdgesOutside(sys.graph, s.order)
  {
    hide Into, Forward;
    OutsideStep(sys.graph, s.order, s.queue[0]);
  }

  /** The head of the queue is no source of what is queued or taken, so it frees none of it again. */
  lemma StillFreed(sys: System, s: Kahn, x: Name, m: Mark)
    requires Inv(sys, s) && s.queue != [] && s.queue[0] !in s.order && x in s.order + s.queue && FreedAt(sys.graph, s.order, x, m)
    ensures FreedAt(sys.graph, s.order + [s.queue[0]], x, m)
  {
    hide Inv, LastAt;
    var current := s.queue[0];
    if current in sys.graph && x in sys.graph[current] {
      NoSourceLeft(sys, s, x, current);
    }
  }

  lemma MarksIncrease(place: nat, marks: seq<Mark>, idx: seq<nat>, more: seq<Mark>)
    requires (forall m :: 0 <= m < |marks| ==> marks[m].place < place) && (forall i, j :: 0 <= i < j < |idx| ==> idx[i] < idx[j])
    requires |more| == |marks| + |idx| && more[..|marks|] == marks && forall i :: 0 <= i < |idx| ==> more[|marks| + i] == Mark(place, idx[i])
    requires forall m, k :: 0 <= m < k < |marks| ==> Before(marks[m], marks[k])
    ensures forall m, k :: 0 <= m < k < |more| ==> Before(more[m], more[k])
  {
    assert forall m :: 0 <= m < |marks| ==> more[m] == marks[m];
    forall m, k | 0 <= m < k < |more| ensures Before(more[m], more[k]) {
      if m >= |marks| {
        assert more[m] == Mark(place, idx[m - |marks|]) && more[k] == Mark(place, idx[k - |marks|]);
      } else if k >= |marks| {
        assert more[k] == Mark(place, idx[k - |marks|]);
      }
    }
  }

  lemma {:induction false} DrainMarks(sys: System, s: Kahn, n: nat, marks: seq<Mark>) returns (end: seq<Mark>)
    requires Inv(sys, s) && Distinct(s) && Marked(sys.graph, s.order, s.order + s.queue, n, marks)
    ensures var order := Drain(sys.graph, s).order; Marked(sys.graph, order, order, n, end)
    decreases Potential(s)
  {
    hide Inv, Distinct, Marked;
    if s.queue == [] {
      assert s.order + s.queue == s.order;
      end := marks;
    } else {
      VisitInv(sys, s);
      VisitDistinct(sys.graph, s);
      VisitShrinks(sys.graph, s);
      end := VisitMarks(sys, s, n, marks);
      end := DrainMarks(sys, Visit(sys.graph, s), n, end);
    }
  }

  /** For distinct agents the drained part of the order is the freed order. */
  lemma DrainedInFreedOrder(sys: System) returns (marks: seq<Mark>)
    requires NoDup(sys.agents)
    ensures FreedOrder(sys, Drained(sys), marks)
  {
    hide Blocked, Marked;
    StartInv(sys);
    RootsChosen(Indegrees(sys), sys.agents);
    StartDistinct(sys);
    marks := DrainMarks(sys, Start(sys), |Roots(sys)|, []);
    DrainPrefix(sys.graph, Start(sys));
    assert [] + Roots(sys) == Roots(sys);
    DrainedFacts(sys);
    forall a ensures a in Drained(sys) <==> a in sys.agents && !Blocked(sys, a) {
      if a in sys.agents {
        DrainedExactly(sys, a);
      }
    }
    SourcesEarlier(sys.graph, Drained(sys), |Roots(sys)|, marks);
  }

  lemma StartDistinct(sys: System)
    requires NoDup(Roots(sys))
    ensures Distinct(Start(sys)) && Marked(sys.graph, Start(sys).order, Start(sys).order + Start(sys).queue, |Roots(sys)|, [])
  {
    assert [] + Roots(sys) == Roots(sys);
  }

  lemma SourcesEarlier(g: Graph, order: seq<Name>, n: nat, marks: seq<Mark>)
    requires NoDup(order) && Forward(g, order) && Marked(g, order, order, n, marks)
    ensures forall m :: 0 <= m < |marks| ==> marks[m].place < n + m
  {
    forall m | 0 <= m < |marks| ensures marks[m].place < n + m {
      var p := marks[m].place;
      assert FreedAt(g, order, order[n + m], marks[m]);
      assert order[p] in order[..n + m];
    }
  }

  /** What the order of a system with distinct agents is, said without the loops: without a graph the agents as
      declared; else the agents that are not blocked, in freed order, and then the blocked ones as declared. */
  ghost predicate Meant(sys: System, order: seq<Name>) {
    && (sys.graph == map[] ==> order == sys.agents)
    && (sys.graph != map[] && NoDup(sys.agents) ==> exists front, marks, back :: order == front + back && MeantParts(sys, front, marks, back))
  }

  ghost predicate MeantParts(sys: System, front: seq<Name>, marks: seq<Mark>, back: seq<Name>) {
    && FreedOrder(sys, front, marks) && InOrderOf(back, sys.agents) && NoDup(back)
    && forall a :: a in back <==> a in sys.agents && Blocked(sys, a)
  }

  lemma OrderMeant(sys: System)
    ensures Meant(sys, Order(sys))
  {
    if sys.graph != map[] && NoDup(sys.agents) {
      hide Blocked, FreedOrder, InOrderOf, Drained, Indegrees, Order, Without, NoDup;
      var front, back := Drained(sys), Without(sys.agents, Drained(sys));
      var marks := DrainedInFreedOrder(sys);
      IndegreesCover(sys);
      DeclarationOrder(Indegrees(sys), sys.agents, front);
      OrderPermutes(sys);
      WithoutElems(sys.agents, front);
      forall a ensures a in back <==> a in sys.agents && Blocked(sys, a) {
        if a in sys.agents {
          DrainedExactly(sys, a);
        }
      }
      NoAgents(sys);
      SuffixNoDup(front, back);
      assert MeantParts(sys, front, marks, back);
    }
  }

  lemma SuffixNoDup(front: seq<Name>, back: seq<Name>)
    requires NoDup(front + back)
    ensures NoDup(back)
  {
    assert forall i :: 0 <= i < |back| ==> back[i] == (front + back)[|front| + i];
  }

  lemma IndegreesCover(sys: System)
    ensures forall a :: a in sys.agents ==> a in Indegrees(sys)
  {
  }

  lemma {:induction false} WithoutElems(agents: seq<Name>, done: seq<Name>)
    ensures forall a :: a in Without(agents, done) <==> a in agents && a !in done
  {
    if agents != [] {
      WithoutElems(agents[..|agents| - 1], done);
      assert agents == agents[..|agents| - 1] + [agents[|agents| - 1]];
    }
  }

  lemma NoAgents(sys: System)
    requires sys.graph != map[]
    ensures Order(sys) == Drained(sys) + Without(sys.agents, Drained(sys))
  {
    hide Drained;
    if sys.agents == [] {
      DrainedFacts(sys);
      if Drained(sys) != [] {
        SomethingIn(Drained(sys));
      }
    }
  }

  lemma SomethingIn(s: seq<Name>)
    requires s != []
    ensures exists a :: a in s
  {
    assert s[0] in s;
  }

  // Nothing else is in freed order.

  /** Two orders that agree up to `n` give an agent whose sources are all before `n` the same mark. */
  lemma SameMark(g: Graph, s: seq<Name>, t: seq<Name>, n: nat, x: Name, m: Mark, k: Mark)
    requires NoDup(s) && NoDup(t) && n <= |s| && n <= |t| && s[..n] == t[..n] && (forall a :: a in s <==> a in t)
    requires FreedAt(g, s, x, m) && FreedAt(g, t, x, k) && m.place < n
    ensures m == k
  {
    assert s[m.place] == s[..n][m.place] == t[..n][m.place] == t[m.place];
    assert x in g[t[m.place]];
    assert m.place <= k.place;
    var source := t[k.place];
    assert source in t && source in s && x in g[source];
    var r :| 0 <= r < |s| && s[r] == source;
    assert r <= m.place;
    assert t[r] == t[..n][r] == s[..n][r] == s[r];
    assert r == k.place;
  }

  lemma SameNext(sys: System, s: seq<Name>, marks: seq<Mark>, t: seq<Name>, notes: seq<Mark>, n: nat)
    requires FreedOrder(sys, s, marks) && FreedOrder(sys, t, notes) && |s| == |t| && |Roots(sys)| <= n < |s| && s[..n] == t[..n]
    ensures s[n] == t[n]
  {
    hide Blocked, FreedAt;
    var roots := |Roots(sys)|;
    var x, y := s[n], t[n];
    if x != y {
      assert x in t && y in s;
      var b := PlaceBehind(s, t, n);
      var a := PlaceBehind(t, s, n);
      assert Before(marks[n - roots], marks[a - roots]) && Before(notes[n - roots], notes[b - roots]);
      assert FreedAt(sys.graph, s, s[roots + (a - roots)], marks[a - roots]);
      SameMark(sys.graph, s, t, n, x, marks[n - roots], notes[b - roots]);
      SameMark(sys.graph, t, s, n, y, notes[n - roots], marks[a - roots]);
    }
  }

  /** The n-th entry of one comes behind place `n` in the other. */
  lemma PlaceBehind(s: seq<Name>, t: seq<Name>, n: nat) returns (b: nat)
    requires NoDup(s) && n < |s| && n < |t| && s[..n] == t[..n] && s[n] in t && s[n] != t[n]
    ensures n < b < |t| && t[b] == s[n]
  {
    b :| 0 <= b < |t| && t[b] == s[n];
    forall i | 0 <= i < n ensures t[i] == s[i] {
      assert t[..n][i] == s[..n][i];
    }
  }

  lemma {:induction false} SamePrefix(sys: System, s: seq<Name>, marks: seq<Mark>, t: seq<Name>, notes: seq<Mark>, n: nat)
    requires FreedOrder(sys, s, marks) && FreedOrder(sys, t, notes) && |s| == |t| && |Roots(sys)| <= n <= |s|
    ensures s[..n] == t[..n]
    decreases n
  {
    hide FreedOrder;
    if n == |Roots(sys)| {
      RootsFirst(sys, s, marks);
      RootsFirst(sys, t, notes);
    } else {
      SamePrefix(sys, s, marks, t, notes, n - 1);
      SameNext(sys, s, marks, t, notes, n - 1);
      assert s[..n] == s[..n - 1] + [s[n - 1]] && t[..n] == t[..n - 1] + [t[n - 1]];
    }
  }

  lemma RootsFirst(sys: System, s: seq<Name>, marks: seq<Mark>)
    requires FreedOrder(sys, s, marks)
    ensures |Roots(sys)| <= |s| && s[..|Roots(sys)|] == Roots(sys)
  {
    hide Marked, Blocked;
  }

  /** At most one sequence is in freed order. */
  lemma OneFreedOrder(sys: System, s: seq<Name>, marks: seq<Mark>, t: seq<Name>, notes: seq<Mark>)
    requires FreedOrder(sys, s, marks) && FreedOrder(sys, t, notes)
    ensures s == t
  {
    hide Marked, Blocked;
    SameElemsSize(s, t);
    RootsFirst(sys, s, marks);
    SamePrefix(sys, s, marks, t, notes, |s|);
    assert s[..|s|] == s && t[..|t|] == t;
  }

  lemma SameElemsSize(s: seq<Name>, t: seq<Name>)
    requires NoDup(s) && NoDup(t) && forall a :: a in s <==> a in t
    ensures |s| == |t|
  {
    NoDupFits(s, Elems(t));
    NoDupFits(t, Elems(s));
    ElemsSize(s);
    ElemsSize(t);
  }

  // ---------------------------------------------------------------- the loops

  /** Counts, for every agent, the edges that enter it. The graph is a map, so its keys come in any
      order; the counts do not depend on it. */
  method CountIndegrees(sys: System) returns (indegree: map<Name, int>)
    ensures indegree == Indegrees(sys)
  {
    hide Into;
    indegree := map a | a in sys.agents :: 0;
    NothingCounted(sys.graph);
    var todo := sys.graph.Keys;
    ghost var counted: set<Edge> := {};
    while todo != {}
      invariant todo <= sys.graph.Keys
      invariant indegree.Keys == Elems(sys.agents)
      invariant counted == set e | e in AllEdges(sys.graph) && e.from !in todo
      invariant forall a :: a in indegree ==> indegree[a] == |Into(sys.graph, counted, a)|
    {
      var k :| k in todo;
      indegree := CountOutgoing(sys.graph, k, indegree, counted);
      todo := todo - {k};
      counted := counted + Edges(sys.graph, k, |sys.graph[k]|);
    }
    assert counted == AllEdges(sys.graph);
  }

  lemma NothingCounted(g: Graph)
    ensures forall a :: Into(g, {}, a) == {}
  {
  }

  /** The first `n` edges that leave `k`. */
  ghost function Edges(g: Graph, k: Name, n: nat): set<Edge>
    requires k in g && n <= |g[k]|
  {
    set i | 0 <= i < n :: Edge(k, i)
  }

  method CountOutgoing(g: Graph, k: Name, before: map<Name, int>, ghost counted: set<Edge>) returns (indegree: map<Name, int>)
    requires k in g && forall e :: e in counted ==> e.from != k
    requires forall a :: a in before ==> before[a] == |Into(g, counted, a)|
    ensures indegree.Keys == before.Keys
    ensures forall a :: a in indegree ==> indegree[a] == |Into(g, counted + Edges(g, k, |g[k]|), a)|
  {
    hide Into;
    indegree := before;
    assert counted + Edges(g, k, 0) == counted;
    for i := 0 to |g[k]|
      invariant indegree.Keys == before.Keys
      invariant forall a :: a in indegree ==> indegree[a] == |Into(g, counted + Edges(g, k, i), a)|
    {
      var to := g[k][i];
      assert counted + Edges(g, k, i + 1) == counted + Edges(g, k, i) + {Edge(k, i)};
      AddEdge(g, counted + Edges(g, k, i), Edge(k, i));
      if to in indegree {
        indegree := indegree[to := indegree[to] + 1];
      }
    }
  }

  lemma AddEdge(g: Graph, es: set<Edge>, e: Edge)
    requires IsEdge(g, e) && e !in es
    ensures forall a :: |Into(g, es + {e}, a)| == |Into(g, es, a)| + (if a == g[e.from][e.at] then 1 else 0)
  {
    forall a ensures |Into(g, es + {e}, a)| == |Into(g, es, a)| + (if a == g[e.from][e.at] then 1 else 0) {
      if a == g[e.from][e.at] {
        assert Into(g, es + {e}, a) == Into(g, es, a) + {e};
      } else {
        assert Into(g, es + {e}, a) == Into(g, es, a);
      }
    }
  }

  method FindRoots(agents: seq<Name>, indegree: map<Name, int>) returns (roots: seq<Name>)
    requires forall a :: a in agents ==> a in indegree
    ensures roots == RootsOf(indegree, agents)
  {
    roots := [];
    for i := 0 to |agents|
      invariant roots == RootsOf(indegree, agents[..i])
    {
      assert agents[..i + 1][..i] == agents[..i];
      if indegree[agents[i]] == 0 {
        roots := roots + [agents[i]];
      }
    }
    assert agents[..|agents|] == agents;
  }

  method RelaxTargets(targets: seq<Name>, indegree0: map<Name, int>, queue0: seq<Name>, queued0: set<Name>, ghost order: seq<Name>)
    returns (indegree: map<Name, int>, queue: seq<Name>, queued: set<Name>)
    ensures RelaxAll(Kahn(indegree0, queue0, queued0, order), targets) == Kahn(indegree, queue, queued, order)
  {
    indegree, queue, queued := indegree0, queue0, queued0;
    ghost var taken := Kahn(indegree, queue, queued, order);
    for i := 0 to |targets|
      invariant RelaxAll(taken, targets[..i]) == Kahn(indegree, queue, queued, order)
    {
      assert targets[..i + 1][..i] == targets[..i];
      var to := targets[i];
      if to in indegree {
        indegree := indegree[to := indegree[to] - 1];
        if indegree[to] == 0 && to !in queued {
          queue, queued := queue + [to], queued + {to};
        }
      }
    }
    assert targets[..|targets|] == targets;
  }

  /** One round of the drain loop: pop the head and, unless it was visited, take and relax it. */
  method VisitHead(g: Graph, s: Kahn, visited: set<Name>) returns (next: Kahn, visitedNext: set<Name>)
    requires s.queue != [] && visited == Elems(s.order)
    ensures next == Visit(g, s) && visitedNext == Elems(next.order)
  {
    var current, queue := s.queue[0], s.queue[1..];
    if current in visited {
      return s.(queue := queue), visited;
    }
    var order := s.order + [current];
    visitedNext := visited + {current};
    next := s.(queue := queue, order := order);
    if current in g {
      var indegree, waiting, queued := RelaxTargets(g[current], s.indegree, queue, s.queued, order);
      next := Kahn(indegree, waiting, queued, order);
    }
  }

  method DrainQueue(g: Graph, start: map<Name, int>, roots: seq<Name>) returns (order: seq<Name>)
    ensures order == Drain(g, Kahn(start, roots, Elems(roots), [])).order
  {
    var s, visited := Kahn(start, roots, Elems(roots), []), {};
    ghost var end := Drain(g, s);
    while s.queue != []
      invariant visited == Elems(s.order) && Drain(g, s) == end
      decreases Potential(s)
    {
      VisitShrinks(g, s);
      s, visited := VisitHead(g, s, visited);
    }
    order := s.order;
  }

  method AppendRest(agents: seq<Name>, visited: seq<Name>) returns (order: seq<Name>)
    ensures order == visited + Without(agents, visited)
  {
    order := visited;
    for i := 0 to |agents|
      invariant order == visited + Without(agents[..i], visited)
    {
      assert agents[..i + 1][..i] == agents[..i];
      if agents[i] !in visited {
        order := order + [agents[i]];
      }
    }
    assert agents[..|agents|] == agents;
  }

  method ExecutionAgentOrder(sys: System) returns (order: seq<Name>)
    ensures order == Order(sys) && Meant(sys, order)
  {
    hide Meant;
    OrderMeant(sys);
    if sys.agents == [] {
      return [];
    }
    if sys.graph == map[] {
      return sys.agents;
    }
    var indegree := CountIndegrees(sys);
    var queue := FindRoots(sys.agents, indegree);
    if queue == [] {
      AllLeft(sys.agents);
      return sys.agents;
    }
    order := DrainQueue(sys.graph, indegree, queue);
    order := AppendRest(sys.agents, order);
  }

  /** The command line's copy: it has no early return for an empty queue, and the same result. */
  method TaskOrderFromSystem(sys: System) returns (order: seq<Name>)
    ensures order == Order(sys) && Meant(sys, order)
  {
    hide Meant;
    OrderMeant(sys);
    if sys.agents == [] {
      return [];
    }
    if sys.graph == map[] {
      return sys.agents;
    }
    var indegree := CountIndegrees(sys);
    var queue := FindRoots(sys.agents, indegree);
    order := DrainQueue(sys.graph, indegree, queue);
    order := AppendRest(sys.agents, order);
  }

  method SystemEntryPoints(sys: System) returns (roots: seq<Name>)
    ensures roots == Roots(sys)
    ensures NoDup(sys.agents) ==> roots <= Order(sys)
  {
    EntryPointsFirst(sys);
    if sys.agents == [] {
      return [];
    }
    var indegree := CountIndegrees(sys);
    roots := FindRoots(sys.agents, indegree);
  }

  lemma {:induction false} AllLeft(agents: seq<Name>)
    ensures Without(agents, []) == agents
  {
    if agents != [] {
      AllLeft(agents[..|agents| - 1]);
    }
  }
}
