/**
 * `buildGraph`: flattening the node tree into a labelled directed multigraph
 * of string vertices, as drawn by `Pipeline.render`. A leaf is one vertex; a
 * Pipeline, Parallel or Fork is a start and an end vertex around its children
 * (threaded one after another for a Pipeline, fanned out between start and
 * end for a Parallel or Fork). Each node hangs its subgraph off a root vertex
 * and returns the vertex its successor hangs off. The multigraph refuses an
 * edge from a vertex to itself, and that refusal ends the drawing.
 */
module PipelineGraph {
  import opened Wrappers
  import opened Nodes

  /** A multigraph: a vertex set and the edges in insertion order (parallel edges allowed). */
  datatype LGraph = LGraph(vertices: set<string>, edges: seq<(string, string)>)

  /** Every edge joins two vertices of the graph. */
  predicate Closed(g: LGraph)
  {
    forall i :: 0 <= i < |g.edges| ==> g.edges[i].0 in g.vertices && g.edges[i].1 in g.vertices
  }

  /** No edge leads from a vertex to itself: a directed multigraph refuses loops. */
  predicate Loopless(g: LGraph)
  {
    forall i :: 0 <= i < |g.edges| ==> g.edges[i].0 != g.edges[i].1
  }

  /** `h` only adds vertices and appends edges to `g`. */
  predicate Extends(g: LGraph, h: LGraph)
  {
    g.vertices <= h.vertices && g.edges <= h.edges
  }

  /**
   * What drawing yields: the vertex the successor hangs off and the grown
   * graph, or the refusal of a loop edge together with the graph as drawn up
   * to that edge.
   */
  datatype Drawing = Drawn(exit: string, graph: LGraph) | Refused(graph: LGraph)

  const PipelineStartTag := " - [Pipeline Start]"
  const PipelineEndTag := " - [Pipeline End]"
  const ParallelStartTag := " - <Parallel>"
  const ParallelEndTag := " - </Parallel>"
  const ForkStartTag := " - [Fork Start]"
  const ForkEndTag := " - [Fork End]"

  /** The vertex a node's subgraph is entered by: the leaf's id, or the composite's start vertex. */
  function Entry(n: Node): string
  {
    match n
    case Leaf(_, id, _) => id
    case Seq(_, id, _, _) => id + PipelineStartTag
    case Par(_, id, _) => id + ParallelStartTag
    case Fork(_, id, _) => id + ForkStartTag
  }

  /** The vertex `buildGraph` returns: the leaf's id, or the composite's end vertex. */
  function Exit(n: Node): string
  {
    match n
    case Leaf(_, id, _) => id
    case Seq(_, id, _, _) => id + PipelineEndTag
    case Par(_, id, _) => id + ParallelEndTag
    case Fork(_, id, _) => id + ForkEndTag
  }

  function WithEdge(g: LGraph, u: string, v: string): LGraph
  {
    LGraph(g.vertices, g.edges + [(u, v)])
  }

  /** `addEdge(u, v)`: refused when `u == v`, else the edge is appended and drawing goes on from `v`. */
  function Link(g: LGraph, u: string, v: string): Drawing
  {
    if u == v then Refused(g) else Drawn(v, WithEdge(g, u, v))
  }

  /**
   * `buildGraph(root, graph)` of a node, returning the new root and the grown
   * graph, or the refusal of the first loop edge it tries to add. Only a
   * Pipeline accepts no root (the top of `buildPiplineGraph`); every other
   * call site passes the vertex returned by the previous node.
   */
  function Build(n: Node, root: Option<string>, g: LGraph): (r: Drawing)
    requires n.Seq? || root.Some?
    ensures r.Drawn? ==> r.exit == Exit(n)
    decreases Size(n), 1
  {
    match n
    case Leaf(_, id, _) =>
      Link(LGraph(g.vertices + {id}, g.edges), root.value, id)
    case Seq(_, id, _, stages) =>
      var start := id + PipelineStartTag;
      var end := id + PipelineEndTag;
      var g1 := LGraph(g.vertices + {start, end}, g.edges);
      var d := if root.Some? then Link(g1, root.value, start) else Drawn(start, g1);
      if d.Refused? then d
      else
        var c := BuildChain(stages, start, d.graph);
        if c.Refused? then c else Link(c.graph, c.exit, end)
    case Par(_, id, ps) =>
      var start := id + ParallelStartTag;
      var end := id + ParallelEndTag;
      var d := Link(LGraph(g.vertices + {start, end}, g.edges), root.value, start);
      if d.Refused? then d else BuildFan(ps, start, end, d.graph)
    case Fork(_, id, ps) =>
      var start := id + ForkStartTag;
      var end := id + ForkEndTag;
      var d := Link(LGraph(g.vertices + {start, end}, g.edges), root.value, start);
      if d.Refused? then d else BuildFan(ps, start, end, d.graph)
  }

  /** The loop of `Pipeline.buildGraph`: each child hangs off the vertex the previous one returned. */
  function BuildChain(s: seq<Node>, subRoot: string, g: LGraph): Drawing
    decreases SizeAll(s), 2
  {
    if s == [] then Drawn(subRoot, g)
    else
      var c := Build(s[0], Some(subRoot), g);
      if c.Refused? then c else BuildChain(s[1..], c.exit, c.graph)
  }

  /** The loop of `Parallel.buildGraph` and `Fork.buildGraph`: each child hangs off start, its end links to end. */
  function BuildFan(s: seq<Node>, start: string, end: string, g: LGraph): (r: Drawing)
    ensures r.Drawn? ==> r.exit == end
    decreases SizeAll(s), 2
  {
    if s == [] then Drawn(end, g)
    else
      var c := Build(s[0], Some(start), g);
      if c.Refused? then c
      else
        var e := Link(c.graph, c.exit, end);
        if e.Refused? then e else BuildFan(s[1..], start, end, e.graph)
  }

  /**
   * Drawing a node's subgraph only adds to the graph and never draws a loop,
   * whether it succeeds or is refused. A root equal to the node's entry
   * vertex is refused at once. On success the entry and returned vertices are
   * part of the graph, and (given a root) the first edge drawn links the root
   * to the node's entry vertex.
   */
  lemma {:induction false} BuildGrows(n: Node, root: Option<string>, g: LGraph)
    requires n.Seq? || root.Some?
    requires Closed(g) && Loopless(g) && (root.Some? ==> root.value in g.vertices)
    ensures var r := Build(n, root, g);
      Closed(r.graph) && Loopless(r.graph) && Extends(g, r.graph)
    ensures root.Some? && root.value == Entry(n) ==> Build(n, root, g).Refused?
    ensures var r := Build(n, root, g);
      r.Drawn? ==> Entry(n) in r.graph.vertices && Exit(n) in r.graph.vertices
    ensures var r := Build(n, root, g);
      root.Some? && r.Drawn? ==> |r.graph.edges| > |g.edges| && r.graph.edges[|g.edges|] == (root.value, Entry(n))
    decreases Size(n), 1
  {
    match n
    case Leaf(_, id, _) =>
    case Seq(_, id, _, stages) =>
      var start := id + PipelineStartTag;
      var end := id + PipelineEndTag;
      var g1 := LGraph(g.vertices + {start, end}, g.edges);
      var d := if root.Some? then Link(g1, root.value, start) else Drawn(start, g1);
      if d.Drawn? {
        ChainGrows(stages, start, d.graph);
      }
    case Par(_, id, ps) =>
      var start := id + ParallelStartTag;
      var end := id + ParallelEndTag;
      var d := Link(LGraph(g.vertices + {start, end}, g.edges), root.value, start);
      if d.Drawn? {
        FanGrows(ps, start, end, d.graph);
      }
    case Fork(_, id, ps) =>
      var start := id + ForkStartTag;
      var end := id + ForkEndTag;
      var d := Link(LGraph(g.vertices + {start, end}, g.edges), root.value, start);
      if d.Drawn? {
        FanGrows(ps, start, end, d.graph);
      }
  }

  /** The vertex child `k` of a Pipeline chain hangs off: the chain's root for the first, else the previous child's end. */
  function HangsOff(s: seq<Node>, subRoot: string, k: nat): string
    requires k < |s|
  {
    if k == 0 then subRoot else Exit(s[k - 1])
  }

  /**
   * The Pipeline loop threads its children: child 0 hangs off the start
   * vertex, child k off the end vertex of child k-1, and the loop returns the
   * last child's end vertex (the start vertex when there are no children).
   */
  lemma {:induction false} ChainGrows(s: seq<Node>, subRoot: string, g: LGraph)
    requires Closed(g) && Loopless(g) && subRoot in g.vertices
    ensures var r := BuildChain(s, subRoot, g);
      Closed(r.graph) && Loopless(r.graph) && Extends(g, r.graph)
    ensures var r := BuildChain(s, subRoot, g);
      r.Drawn? ==>
        && r.exit in r.graph.vertices
        && r.exit == (if s == [] then subRoot else Exit(s[|s| - 1]))
        && forall k :: 0 <= k < |s| ==> (HangsOff(s, subRoot, k), Entry(s[k])) in r.graph.edges
    decreases SizeAll(s), 2
  {
    if s != [] {
      var c := Build(s[0], Some(subRoot), g);
      BuildGrows(s[0], Some(subRoot), g);
      if c.Drawn? {
        ChainGrows(s[1..], c.exit, c.graph);
        var r := BuildChain(s, subRoot, g);
        assert r == BuildChain(s[1..], c.exit, c.graph);
        if r.Drawn? {
          assert (subRoot, Entry(s[0])) in r.graph.edges by {
            assert c.graph.edges[|g.edges|] == (subRoot, Entry(s[0]));
            assert c.graph.edges <= r.graph.edges;
            assert r.graph.edges[|g.edges|] == c.graph.edges[|g.edges|];
          }
          forall k | 1 <= k < |s|
            ensures (HangsOff(s, subRoot, k), Entry(s[k])) in r.graph.edges
          {
            var t := s[1..];
            assert t[k - 1] == s[k];
            assert HangsOff(t, c.exit, k - 1) == HangsOff(s, subRoot, k);
          }
          if |s| > 1 {
            assert s[1..][|s[1..]| - 1] == s[|s| - 1];
          }
        }
      }
    }
  }

  /**
   * The Parallel and Fork loop: every child hangs off the start vertex, and
   * every child's returned end vertex is linked to the end vertex.
   */
  lemma {:induction false} FanGrows(s: seq<Node>, start: string, end: string, g: LGraph)
    requires Closed(g) && Loopless(g) && start in g.vertices && end in g.vertices
    ensures var r := BuildFan(s, start, end, g);
      Closed(r.graph) && Loopless(r.graph) && Extends(g, r.graph)
    ensures var r := BuildFan(s, start, end, g);
      r.Drawn? ==> forall k :: 0 <= k < |s| ==> (start, Entry(s[k])) in r.graph.edges && (Exit(s[k]), end) in r.graph.edges
    decreases SizeAll(s), 2
  {
    if s != [] {
      var c := Build(s[0], Some(start), g);
      BuildGrows(s[0], Some(start), g);
      if c.Drawn? {
        var e := Link(c.graph, c.exit, end);
        if e.Drawn? {
          var g1 := e.graph;
          FanGrows(s[1..], start, end, g1);
          var r := BuildFan(s, start, end, g);
          assert r == BuildFan(s[1..], start, end, g1);
          if r.Drawn? {
            assert (start, Entry(s[0])) in r.graph.edges by {
              assert g1.edges[|g.edges|] == (start, Entry(s[0]));
              assert r.graph.edges[|g.edges|] == g1.edges[|g.edges|];
            }
            assert (Exit(s[0]), end) in r.graph.edges by {
              assert g1.edges[|c.graph.edges|] == (Exit(s[0]), end);
              assert r.graph.edges[|c.graph.edges|] == g1.edges[|c.graph.edges|];
            }
            forall k | 1 <= k < |s|
              ensures (start, Entry(s[k])) in r.graph.edges && (Exit(s[k]), end) in r.graph.edges
            {
              assert s[1..][k - 1] == s[k];
            }
          }
        }
      }
    }
  }

  /**
   * The graph `buildPiplineGraph` draws for a top-level pipeline never holds
   * a loop. When drawing succeeds, both of its tag vertices are present,
   * every edge joins present vertices, its first child hangs off the start
   * vertex and each later child off the end vertex of the one before, and the
   * last edge closes the chain into the end vertex.
   */
  lemma {:induction false} PipelineGraphShape(n: Node)
    requires n.Seq?
    ensures var r := Build(n, None, LGraph({}, []));
      Closed(r.graph) && Loopless(r.graph)
    ensures var r := Build(n, None, LGraph({}, []));
      r.Drawn? ==>
        && Entry(n) in r.graph.vertices && Exit(n) in r.graph.vertices
        && |r.graph.edges| > 0
        && r.graph.edges[|r.graph.edges| - 1] ==
           (if n.stages == [] then Entry(n) else Exit(n.stages[|n.stages| - 1]), Exit(n))
        && forall k :: 0 <= k < |n.stages| ==> (HangsOff(n.stages, Entry(n), k), Entry(n.stages[k])) in r.graph.edges
  {
    var g1 := LGraph({Entry(n), Exit(n)}, []);
    assert LGraph({} + {Entry(n), Exit(n)}, []) == g1;
    ChainGrows(n.stages, Entry(n), g1);
    BuildGrows(n, None, LGraph({}, []));
  }

  /**
   * A chain of leaf children is drawn exactly when no child's id equals the
   * vertex it hangs off: the chain's root for the first child, the previous
   * child's id for every later one.
   */
  lemma {:induction false} LeafChainDrawnIff(s: seq<Node>, subRoot: string, g: LGraph)
    requires forall k :: 0 <= k < |s| ==> s[k].Leaf?
    ensures BuildChain(s, subRoot, g).Drawn? <==> forall k :: 0 <= k < |s| ==> HangsOff(s, subRoot, k) != s[k].id
    decreases |s|
  {
    if s != [] {
      var c := Build(s[0], Some(subRoot), g);
      if c.Drawn? {
        var t := s[1..];
        LeafChainDrawnIff(t, c.exit, c.graph);
        assert BuildChain(s, subRoot, g) == BuildChain(t, c.exit, c.graph);
        if forall k :: 0 <= k < |t| ==> HangsOff(t, c.exit, k) != t[k].id {
          forall k | 0 <= k < |s|
            ensures HangsOff(s, subRoot, k) != s[k].id
          {
            if k > 0 {
              assert t[k - 1] == s[k];
              assert HangsOff(t, c.exit, k - 1) == HangsOff(s, subRoot, k);
            }
          }
        } else {
          var k :| 0 <= k < |t| && HangsOff(t, c.exit, k) == t[k].id;
          assert t[k] == s[k + 1];
          assert HangsOff(s, subRoot, k + 1) == s[k + 1].id;
        }
      }
    }
  }

  /**
   * `buildPiplineGraph` of a pipeline of leaf wrappers succeeds exactly when
   * no two neighbouring children share an id, the first child's id is not
   * the start vertex and the last child's id is not the end vertex; any such
   * coincidence is a loop edge, which the multigraph refuses.
   */
  lemma {:induction false} LeafPipelineDrawnIff(n: Node)
    requires n.Seq? && forall k :: 0 <= k < |n.stages| ==> n.stages[k].Leaf?
    ensures Build(n, None, LGraph({}, [])).Drawn? <==>
      && (n.stages != [] ==> n.stages[0].id != Entry(n) && n.stages[|n.stages| - 1].id != Exit(n))
      && forall k :: 0 < k < |n.stages| ==> n.stages[k - 1].id != n.stages[k].id
  {
    var s := n.stages;
    var g1 := LGraph({Entry(n), Exit(n)}, []);
    assert LGraph({} + {Entry(n), Exit(n)}, []) == g1;
    assert |Entry(n)| != |Exit(n)|;
    LeafChainDrawnIff(s, Entry(n), g1);
    ChainGrows(s, Entry(n), g1);
    assert forall k :: 0 < k < |s| ==> HangsOff(s, Entry(n), k) == s[k - 1].id;
    if forall k :: 0 < k < |s| ==> s[k - 1].id != s[k].id {
      if s != [] && s[0].id != Entry(n) {
        assert forall k :: 0 <= k < |s| ==> HangsOff(s, Entry(n), k) != s[k].id;
      }
    }
  }

  /**
   * The directed multigraph the `buildGraph` methods grow in place. An edge
   * may only join vertices already added and may not be a loop; adding a
   * vertex twice is harmless.
   */
  class MultiGraph {
    var vertices: set<string>
    var edges: seq<(string, string)>

    function Model(): LGraph
      reads this
    {
      LGraph(vertices, edges)
    }

    /** Every edge joins two distinct vertices: kept because `AddEdge` refuses anything else. */
    predicate Valid()
      reads this
    {
      Closed(Model()) && Loopless(Model())
    }

    constructor ()
      ensures Valid() && Model() == LGraph({}, [])
    {
      vertices := {};
      edges := [];
    }

    method AddVertex(v: string)
      modifies this
      requires Valid()
      ensures Valid() && Model() == LGraph(old(vertices) + {v}, old(edges))
    {
      vertices := vertices + {v};
    }

    /** `addEdge(u, v)`: a loop is refused and leaves the graph as it was; any other edge is appended. */
    method AddEdge(u: string, v: string) returns (added: bool)
      modifies this
      requires Valid() && u in vertices && v in vertices
      ensures Valid()
      ensures added <==> u != v
      ensures Model() == Link(old(Model()), u, v).graph
    {
      if u == v {
        return false;
      }
      edges := edges + [(u, v)];
      added := true;
    }
  }

  /**
   * `buildGraph(root, graph)` of any node, growing `graph` in place and
   * returning the vertex its successor hangs off, or failing with the
   * multigraph's message at the first loop edge; it does exactly what `Build`
   * describes.
   */
  method BuildGraph(graph: MultiGraph, n: Node, root: Option<string>) returns (r: Result<string, string>)
    modifies graph
    requires graph.Valid()
    requires n.Seq? || root.Some?
    requires root.Some? ==> root.value in graph.vertices
    ensures graph.Valid()
    ensures graph.Model() == Build(n, root, old(graph.Model())).graph
    ensures r.Ok? <==> Build(n, root, old(graph.Model())).Drawn?
    ensures r.Ok? ==> r.value == Exit(n)
    ensures r.Err? ==> r.error == LoopsNotAllowed
    decreases Size(n)
  {
    match n
    case Leaf(_, id, _) =>
      graph.AddVertex(id);
      var added := graph.AddEdge(root.value, id);
      r := if added then Ok(id) else Err(LoopsNotAllowed);
    case Seq(_, id, _, stages) =>
      var start := id + PipelineStartTag;
      var end := id + PipelineEndTag;
      ghost var g0 := graph.Model();
      graph.AddVertex(start);
      graph.AddVertex(end);
      assert graph.vertices == g0.vertices + {start, end};
      var subRoot := start;
      if root.Some? {
        var added := graph.AddEdge(root.value, start);
        if !added {
          return Err(LoopsNotAllowed);
        }
      }
      ghost var g2 := graph.Model();
      assert Build(n, root, g0) == (var c := BuildChain(stages, start, g2); if c.Refused? then c else Link(c.graph, c.exit, end));
      var i := 0;
      while i < |stages|
        invariant 0 <= i <= |stages|
        invariant graph.Valid() && subRoot in graph.vertices && end in graph.vertices
        invariant BuildChain(stages, start, g2) == BuildChain(stages[i..], subRoot, graph.Model())
      {
        SizeAllElement(stages, i);
        assert stages[i..][0] == stages[i] && stages[i..][1..] == stages[i + 1..];
        BuildGrows(stages[i], Some(subRoot), graph.Model());
        var c := BuildGraph(graph, stages[i], Some(subRoot));
        if c.Err? {
          return c;
        }
        subRoot := c.value;
        i := i + 1;
      }
      assert stages[i..] == [];
      var added := graph.AddEdge(subRoot, end);
      r := if added then Ok(end) else Err(LoopsNotAllowed);
    case Par(_, id, ps) =>
      r := BuildFanGraph(graph, n, id + ParallelStartTag, id + ParallelEndTag, root.value);
    case Fork(_, id, ps) =>
      r := BuildFanGraph(graph, n, id + ForkStartTag, id + ForkEndTag, root.value);
  }

  /** The shared body of `Parallel.buildGraph` and `Fork.buildGraph`. */
  method BuildFanGraph(graph: MultiGraph, n: Node, start: string, end: string, root: string) returns (r: Result<string, string>)
    modifies graph
    requires n.Par? || n.Fork?
    requires start == Entry(n) && end == Exit(n)
    requires graph.Valid() && root in graph.vertices
    ensures graph.Valid()
    ensures graph.Model() == Build(n, Some(root), old(graph.Model())).graph
    ensures r.Ok? <==> Build(n, Some(root), old(graph.Model())).Drawn?
    ensures r.Ok? ==> r.value == Exit(n)
    ensures r.Err? ==> r.error == LoopsNotAllowed
    decreases Size(n), 1
  {
    ghost var g0 := graph.Model();
    graph.AddVertex(start);
    graph.AddVertex(end);
    assert graph.vertices == g0.vertices + {start, end};
    var added := graph.AddEdge(root, start);
    if !added {
      return Err(LoopsNotAllowed);
    }
    assert Build(n, Some(root), g0) == BuildFan(n.pipelines, start, end, graph.Model());
    r := BuildFanChildren(graph, n.pipelines, start, end);
  }

  /** The Parallel/Fork loop: each child hung off the start vertex, its end linked to the end vertex. */
  method BuildFanChildren(graph: MultiGraph, ps: seq<Node>, start: string, end: string) returns (r: Result<string, string>)
    modifies graph
    requires graph.Valid() && start in graph.vertices && end in graph.vertices
    ensures graph.Valid()
    ensures graph.Model() == BuildFan(ps, start, end, old(graph.Model())).graph
    ensures r.Ok? <==> BuildFan(ps, start, end, old(graph.Model())).Drawn?
    ensures r.Ok? ==> r.value == end
    ensures r.Err? ==> r.error == LoopsNotAllowed
    decreases SizeAll(ps) + 1, 0
  {
    ghost var g1 := graph.Model();
    var i := 0;
    while i < |ps|
      invariant 0 <= i <= |ps|
      invariant graph.Valid() && start in graph.vertices && end in graph.vertices
      invariant BuildFan(ps, start, end, g1) == BuildFan(ps[i..], start, end, graph.Model())
    {
      SizeAllElement(ps, i);
      ghost var gm := graph.Model();
      FanUnfold(ps[i..], start, end, gm);
      assert ps[i..][0] == ps[i] && ps[i..][1..] == ps[i + 1..];
      BuildGrows(ps[i], Some(start), gm);
      var c := BuildGraph(graph, ps[i], Some(start));
      if c.Err? {
        return c;
      }
      var linked := graph.AddEdge(c.value, end);
      if !linked {
        return Err(LoopsNotAllowed);
      }
      i := i + 1;
    }
    assert ps[i..] == [];
    r := Ok(end);
  }

  /** One turn of the Parallel/Fork loop: draw the first child, then link its end to the end vertex. */
  lemma {:induction false} FanUnfold(s: seq<Node>, start: string, end: string, g: LGraph)
    requires s != []
    ensures var c := Build(s[0], Some(start), g);
      BuildFan(s, start, end, g) ==
        if c.Refused? then c
        else if Link(c.graph, c.exit, end).Refused? then Link(c.graph, c.exit, end)
        else BuildFan(s[1..], start, end, Link(c.graph, c.exit, end).graph)
  {
  }

  /** `buildPiplineGraph`: a fresh graph, drawn from the pipeline with no root; the loop refusal escapes. */
  method BuildPipelineGraph(n: Node) returns (r: Result<MultiGraph, string>)
    requires n.Seq?
    ensures r.Ok? <==> Build(n, None, LGraph({}, [])).Drawn?
    ensures r.Ok? ==> fresh(r.value) && r.value.Valid() && r.value.Model() == Build(n, None, LGraph({}, [])).graph
    ensures r.Err? ==> r.error == LoopsNotAllowed
  {
    var graph := new MultiGraph();
    var drawn := BuildGraph(graph, n, None);
    if drawn.Err? {
      return Err(drawn.error);
    }
    r := Ok(graph);
  }
}
