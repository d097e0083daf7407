/**
 * Directed graphs with the two queries the engine asks of its graph library:
 * "does this graph have a cycle?" and "is this sequence a topological order?".
 * Cycle detection is computed through a reachability closure and is proved
 * equivalent to the existence of a closed path; the chain graph that a
 * pipeline builds from its children is characterised completely.
 */
module Graphs {

  /** A directed graph. Parallel edges of a multigraph do not affect reachability, so edges form a set. */
  datatype Graph<V> = Graph(vertices: set<V>, edges: set<(V, V)>)

  /** Every vertex mentioned by the graph, including edge endpoints. */
  function Nodes<V(==)>(g: Graph<V>): set<V>
  {
    g.vertices + (set e | e in g.edges :: e.0) + (set e | e in g.edges :: e.1)
  }

  /** The vertices one edge away from some vertex of `s`. */
  function Succ<V(==)>(g: Graph<V>, s: set<V>): (r: set<V>)
    ensures r <= Nodes(g)
    ensures forall e :: e in g.edges && e.0 in s ==> e.1 in r
  {
    set e | e in g.edges && e.0 in s :: e.1
  }

  /** The least superset of `s` that is closed under successors. */
  function Closure<V(==)>(g: Graph<V>, s: set<V>): (c: set<V>)
    requires s <= Nodes(g)
    ensures s <= c <= Nodes(g)
    ensures Succ(g, c) <= c
    decreases |Nodes(g) - s|
  {
    var next := s + Succ(g, s);
    if next == s then s
    else
      StrictSubsetSmaller(Nodes(g) - next, Nodes(g) - s);
      Closure(g, next)
  }

  /** A set strictly inside another has fewer elements. */
  lemma {:induction false} StrictSubsetSmaller<V>(a: set<V>, b: set<V>)
    requires a < b
    ensures |a| < |b|
  {
    var x :| x in b && x !in a;
    SubsetNotLarger(a, b - {x});
  }

  /** A subset has at most as many elements as its superset. */
  lemma {:induction false} SubsetNotLarger<V>(a: set<V>, b: set<V>)
    requires a <= b
    ensures |a| <= |b|
    decreases a
  {
    if a != {} {
      var x :| x in a;
      SubsetNotLarger(a - {x}, b - {x});
    }
  }

  /** The vertices reachable from `u` by a path of at least one edge. */
  function ReachPlus<V(==)>(g: Graph<V>, u: V): set<V>
  {
    Closure(g, Succ(g, {u}))
  }

  /** What the source's cycle detector answers: some vertex reaches itself. */
  predicate HasCycle<V(==)>(g: Graph<V>)
  {
    exists v :: v in Nodes(g) && v in ReachPlus(g, v)
  }

  /** Consecutive vertices of `p` are joined by edges. */
  ghost predicate IsPath<V>(g: Graph<V>, p: seq<V>)
  {
    forall i :: 0 <= i < |p| - 1 ==> (p[i], p[i + 1]) in g.edges
  }

  /** There is a path of at least one edge from `u` to `v`. */
  ghost predicate Reaches<V(!new)>(g: Graph<V>, u: V, v: V)
  {
    exists p :: |p| >= 2 && p[0] == u && p[|p| - 1] == v && IsPath(g, p)
  }

  /** A closure is contained in every successor-closed superset of its seed. */
  lemma {:induction false} ClosureLeast<V>(g: Graph<V>, s: set<V>, t: set<V>)
    requires s <= Nodes(g) && s <= t && Succ(g, t) <= t
    ensures Closure(g, s) <= t
    decreases |Nodes(g) - s|
  {
    var next := s + Succ(g, s);
    if next != s {
      assert Succ(g, s) <= Succ(g, t);
      StrictSubsetSmaller(Nodes(g) - next, Nodes(g) - s);
      ClosureLeast(g, next, t);
    }
  }

  /** Every vertex of a closure seeded with vertices reachable from `u` is reachable from `u`. */
  lemma {:induction false} ClosureSound<V(!new)>(g: Graph<V>, s: set<V>, u: V)
    requires s <= Nodes(g)
    requires forall w :: w in s ==> Reaches(g, u, w)
    ensures forall w :: w in Closure(g, s) ==> Reaches(g, u, w)
    decreases |Nodes(g) - s|
  {
    var next := s + Succ(g, s);
    forall w | w in Succ(g, s) ensures Reaches(g, u, w) {
      var e :| e in g.edges && e.0 in s && e.1 == w;
      var p :| |p| >= 2 && p[0] == u && p[|p| - 1] == e.0 && IsPath(g, p);
      var q := p + [w];
      assert IsPath(g, q) by {
        forall i | 0 <= i < |q| - 1 ensures (q[i], q[i + 1]) in g.edges {
          if i < |p| - 1 { assert q[i] == p[i] && q[i + 1] == p[i + 1]; }
        }
      }
      assert q[0] == u && q[|q| - 1] == w;
    }
    if next != s {
      StrictSubsetSmaller(Nodes(g) - next, Nodes(g) - s);
      ClosureSound(g, next, u);
    }
  }

  /** `ReachPlus` computes exactly the vertices reachable by a non-empty path. */
  lemma {:induction false} ReachPlusIffReaches<V(!new)>(g: Graph<V>, u: V, v: V)
    ensures v in ReachPlus(g, u) <==> Reaches(g, u, v)
  {
    forall w | w in Succ(g, {u}) ensures Reaches(g, u, w) {
      var e :| e in g.edges && e.0 == u && e.1 == w;
      assert IsPath(g, [u, w]);
    }
    ClosureSound(g, Succ(g, {u}), u);
    if Reaches(g, u, v) {
      var p :| |p| >= 2 && p[0] == u && p[|p| - 1] == v && IsPath(g, p);
      PathStaysInReach(g, p);
    }
  }

  /** Along a path from `p[0]`, every later vertex lies in `ReachPlus(g, p[0])`. */
  lemma {:induction false} PathStaysInReach<V>(g: Graph<V>, p: seq<V>)
    requires |p| >= 2 && IsPath(g, p)
    ensures forall i :: 1 <= i < |p| ==> p[i] in ReachPlus(g, p[0])
  {
    var c := ReachPlus(g, p[0]);
    assert (p[0], p[1]) in g.edges;
    var i := 1;
    while i < |p|
      invariant 1 <= i <= |p|
      invariant forall k :: 1 <= k < i ==> p[k] in c
      invariant p[i - 1] in c || i == 1
    {
      if i > 1 {
        assert (p[i - 1], p[i]) in g.edges;
        assert p[i] in Succ(g, c);
      }
      i := i + 1;
    }
  }

  /** The cycle detector answers "yes" exactly when the graph holds a closed path. */
  lemma {:induction false} HasCycleIffClosedPath<V(!new)>(g: Graph<V>)
    ensures HasCycle(g) <==> exists v :: v in Nodes(g) && Reaches(g, v, v)
  {
    forall v ensures v in ReachPlus(g, v) <==> Reaches(g, v, v) {
      ReachPlusIffReaches(g, v, v);
    }
  }

  /** Adding edges never removes a cycle. */
  lemma {:induction false} HasCycleMonotone<V(!new)>(g: Graph<V>, h: Graph<V>)
    requires g.edges <= h.edges
    ensures HasCycle(g) ==> HasCycle(h)
  {
    HasCycleIffClosedPath(g);
    HasCycleIffClosedPath(h);
    if HasCycle(g) {
      var v :| v in Nodes(g) && Reaches(g, v, v);
      var p :| |p| >= 2 && p[0] == v && p[|p| - 1] == v && IsPath(g, p);
      assert IsPath(h, p);
      assert (p[0], p[1]) in h.edges;
      assert v in Nodes(h) && Reaches(h, v, v);
    }
  }

  /** No element occurs twice. */
  predicate Distinct<V(==)>(s: seq<V>)
  {
    forall i, j :: 0 <= i < j < |s| ==> s[i] != s[j]
  }

  /** The edge from child `i - 1` to child `i`. */
  function Link<V>(s: seq<V>, i: int): (V, V)
    requires 0 < i < |s|
  {
    (s[i - 1], s[i])
  }

  /** The graph the source builds over a pipeline's children: one edge from each child to the next. */
  function Chain<V(==)>(s: seq<V>): (g: Graph<V>)
    ensures forall i :: 0 < i < |s| ==> Link(s, i) in g.edges
  {
    Graph(set x | x in s, set i | 0 < i < |s| :: Link(s, i))
  }

  /** Some child is immediately followed by the same object: its chain edge would be a self-loop. */
  predicate AdjacentRepeat<V(==)>(s: seq<V>)
  {
    exists i :: 0 < i < |s| && s[i - 1] == s[i]
  }

  /** The chain holds a self-loop exactly when a child immediately repeats, and such a repeat breaks distinctness. */
  lemma {:induction false} ChainLoopIffAdjacentRepeat<V>(s: seq<V>)
    ensures (exists v :: (v, v) in Chain(s).edges) <==> AdjacentRepeat(s)
    ensures AdjacentRepeat(s) ==> !Distinct(s)
  {
    if AdjacentRepeat(s) {
      var i :| 0 < i < |s| && s[i - 1] == s[i];
      assert Link(s, i) == (s[i], s[i]);
      assert (s[i], s[i]) in Chain(s).edges;
    }
    if v :| (v, v) in Chain(s).edges {
      var i :| 0 < i < |s| && (v, v) == Link(s, i);
      assert s[i - 1] == s[i];
    }
  }

  /** A chain over pairwise distinct children is acyclic; a repeated child closes a cycle. */
  lemma {:induction false} ChainCycleIffRepeat<V(!new)>(s: seq<V>)
    ensures HasCycle(Chain(s)) <==> !Distinct(s)
  {
    if Distinct(s) {
      forall v | v in Nodes(Chain(s)) ensures v !in ReachPlus(Chain(s), v) {
        ChainDistinctNoReturn(s, v);
      }
    } else {
      var i, j :| 0 <= i < j < |s| && s[i] == s[j];
      ChainRepeatReturns(s, i, j);
    }
  }

  /** In a chain over distinct children no vertex reaches itself. */
  lemma {:induction false} ChainDistinctNoReturn<V>(s: seq<V>, v: V)
    requires Distinct(s) && v in Nodes(Chain(s))
    ensures v !in ReachPlus(Chain(s), v)
  {
    var g := Chain(s);
    var k :| 0 <= k < |s| && s[k] == v;
    var t := set m | k < m < |s| :: s[m];
    forall e | e in g.edges && e.0 in t ensures e.1 in t {
      var i :| 0 < i < |s| && e == Link(s, i);
      var m :| k < m < |s| && s[m] == e.0;
      assert s[i - 1] == s[m];
      assert i - 1 == m;
      assert e.1 == s[i];
    }
    forall e | e in g.edges && e.0 == v ensures e.1 in t {
      var i :| 0 < i < |s| && e == Link(s, i);
      assert s[i - 1] == s[k];
      assert i - 1 == k;
      assert e.1 == s[i];
    }
    ClosureLeast(g, Succ(g, {v}), t);
  }

  /** A child occurring at positions `i < j` reaches itself along the chain. */
  lemma {:induction false} ChainRepeatReturns<V(!new)>(s: seq<V>, i: nat, j: nat)
    requires i < j < |s| && s[i] == s[j]
    ensures s[i] in Nodes(Chain(s)) && s[i] in ReachPlus(Chain(s), s[i])
  {
    var g := Chain(s);
    var p := s[i..j + 1];
    assert IsPath(g, p) by {
      forall n | 0 <= n < |p| - 1 ensures (p[n], p[n + 1]) in g.edges {
        assert p[n] == s[i + n] && p[n + 1] == s[i + n + 1];
        assert Link(s, i + n + 1) in g.edges;
      }
    }
    assert Reaches(g, s[i], s[i]) by { assert p[0] == s[i] && p[|p| - 1] == s[j]; }
    ReachPlusIffReaches(g, s[i], s[i]);
  }

  /** `o` lists every vertex exactly once, and every edge points forward in `o`. */
  ghost predicate IsTopologicalOrder<V>(g: Graph<V>, o: seq<V>)
  {
    && Distinct(o)
    && (set x | x in o) == g.vertices
    && forall i, j :: 0 <= i < |o| && 0 <= j < |o| && (o[i], o[j]) in g.edges ==> i < j
  }

  /** The position of `x` in `o`. */
  function IndexOf<V(==)>(o: seq<V>, x: V): (k: nat)
    requires x in o
    ensures k < |o| && o[k] == x
  {
    if o[0] == x then 0 else 1 + IndexOf(o[1..], x)
  }

  /** A sequence without repetitions has as many distinct elements as entries. */
  lemma {:induction false} DistinctCardinality<V>(s: seq<V>)
    requires Distinct(s)
    ensures |set x | x in s| == |s|
  {
    if s != [] {
      DistinctCardinality(s[1..]);
      assert (set x | x in s) == {s[0]} + (set x | x in s[1..]);
    }
  }

  /**
   * The only topological order of a chain over pairwise distinct children is
   * the list order itself: the source's topological iterator visits children
   * in the order they were added.
   */
  lemma {:induction false} ChainTopologicalOrderIsListOrder<V>(s: seq<V>, o: seq<V>)
    requires Distinct(s)
    ensures IsTopologicalOrder(Chain(s), o) <==> o == s
  {
    var g := Chain(s);
    if o == s {
      forall i, j | 0 <= i < |o| && 0 <= j < |o| && (o[i], o[j]) in g.edges ensures i < j {
        var k :| 0 < k < |s| && (o[i], o[j]) == Link(s, k);
        assert i == k - 1 && j == k;
      }
    }
    if IsTopologicalOrder(g, o) {
      DistinctCardinality(s);
      DistinctCardinality(o);
      var n := |s|;
      assert |o| == n;
      // positions of the children in `o` strictly increase along the chain
      forall m | 0 <= m < n ensures s[m] in o {
        ChainStepForward(s, o, m);
      }
      var k := 0;
      while k < n
        invariant 0 <= k <= n
        invariant forall m :: 0 <= m < k ==> IndexOf(o, s[m]) >= m
      {
        ChainStepForward(s, o, k);
        k := k + 1;
      }
      k := n;
      while k > 0
        invariant 0 <= k <= n
        invariant forall m :: k <= m < n ==> IndexOf(o, s[m]) <= m
      {
        ChainStepForward(s, o, k - 1);
        if k < n { ChainStepForward(s, o, k); }
        k := k - 1;
      }
      forall m | 0 <= m < n ensures o[m] == s[m] {
        ChainStepForward(s, o, m);
        assert IndexOf(o, s[m]) == m;
      }
    }
  }

  /** In a topological order of a chain, child `k` is listed, and after child `k - 1`. */
  lemma {:induction false} ChainStepForward<V>(s: seq<V>, o: seq<V>, k: nat)
    requires IsTopologicalOrder(Chain(s), o) && k < |s|
    ensures s[k] in o
    ensures 0 < k ==> s[k - 1] in o && IndexOf(o, s[k - 1]) < IndexOf(o, s[k])
  {
    assert s[k] in Chain(s).vertices;
    if 0 < k {
      assert s[k - 1] in Chain(s).vertices;
      assert Link(s, k) in Chain(s).edges;
    }
  }
}
