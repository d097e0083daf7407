/**
 * The pipeline generator: the builder stage that turns a validated
 * specification into an executable node tree. It first refuses
 * specifications whose id graph has a cycle, then creates one vertex per
 * declared id (a stage from its class's builder, a pipeline, or a parallel),
 * wires each pipeline to its steps and each parallel to its pipelines, and
 * stores the root pipeline, holding the top-level steps, in the context.
 */
module Generator {
  import opened Wrappers
  import opened Context
  import opened Nodes
  import opened Specification
  import opened BuilderContext
  import Graphs

  type Edge = (string, string)

  // ---------------------------------------------------------------------
  // The cycle check over the specification's id graph
  // ---------------------------------------------------------------------

  /** The edges from `start` along `steps`: start to the first step, then each step to the next. */
  function RootChain(start: string, steps: seq<string>): seq<Edge>
  {
    if steps == [] then []
    else RootChain(start, steps[..|steps| - 1])
         + [(if |steps| == 1 then start else steps[|steps| - 2], steps[|steps| - 1])]
  }

  /** One edge from `from` to each of `tos`, in order. */
  function Star(from: string, tos: seq<string>): seq<Edge>
  {
    if tos == [] then [] else Star(from, tos[..|tos| - 1]) + [(from, tos[|tos| - 1])]
  }

  /** The ids of a list of pipeline definitions, in order. */
  function IdsOf(ps: seq<PipelineDef>): seq<string>
  {
    seq(|ps|, i requires 0 <= i < |ps| => ps[i].id)
  }

  /** Each parallel pipeline to each of its steps. */
  function PipelineEdges(ps: seq<PipelineDef>): seq<Edge>
  {
    if ps == [] then []
    else PipelineEdges(ps[..|ps| - 1]) + Star(ps[|ps| - 1].id, ps[|ps| - 1].steps)
  }

  /** Each parallel to each of its pipelines. */
  function ParallelEdges(pars: seq<ParallelDef>): seq<Edge>
  {
    if pars == [] then []
    else ParallelEdges(pars[..|pars| - 1]) + Star(pars[|pars| - 1].id, IdsOf(pars[|pars| - 1].pipelines))
  }

  /** The vertices of the id graph: the specification's own id and every declared id. */
  function SpecVertices(s: Spec): set<string>
  {
    {s.id} + DeclaredIds(s)
  }

  /** The edges of the id graph, in the order they are added. */
  function SpecEdges(s: Spec): seq<Edge>
  {
    RootChain(s.id, s.steps) + PipelineEdges(AllParallelPipelines(s.parallels)) + ParallelEdges(s.parallels)
  }

  /** A directed multigraph takes an edge between two of its vertices, but no self-loop. */
  predicate Accepted(vertices: set<string>, e: Edge)
  {
    e.0 in vertices && e.1 in vertices && e.0 != e.1
  }

  const EdgeRefused := "the id graph refuses an edge: an unknown id or a self-loop"

  /**
   * `isPipelineAcyclic`, which despite its name answers whether the id
   * graph HAS a cycle. No top-level steps: no cycle, without building the
   * graph. An edge the graph refuses ends the check with an error.
   */
  function CycleCheck(s: Spec): Result<bool, string>
  {
    if s.steps == [] then Ok(false)
    else
      var es := SpecEdges(s);
      if exists i :: 0 <= i < |es| && !Accepted(SpecVertices(s), es[i]) then Err(EdgeRefused)
      else Ok(Graphs.HasCycle(Graphs.Graph(SpecVertices(s), set e | e in es)))
  }

  /** The method form of the check: the graph's edges are collected loop by loop, as the source adds them. */
  method IsPipelineAcyclic(s: Spec) returns (r: Result<bool, string>)
    ensures r == CycleCheck(s)
  {
    if |s.steps| == 0 {
      return Ok(false);
    }
    var vertices := SpecVertices(s);
    var root := AddRootChain(s.id, s.steps);
    var subs := AddPipelineEdges(AllParallelPipelines(s.parallels));
    var pars := AddParallelEdges(s.parallels);
    var edges := root + subs + pars;
    if exists i :: 0 <= i < |edges| && !Accepted(vertices, edges[i]) {
      return Err(EdgeRefused);
    }
    r := Ok(Graphs.HasCycle(Graphs.Graph(vertices, set e | e in edges)));
  }

  /** The root loop: an edge from the current start to each step, which becomes the next start. */
  method AddRootChain(start: string, steps: seq<string>) returns (edges: seq<Edge>)
    ensures edges == RootChain(start, steps)
  {
    edges := [];
    var startId := start;
    for i := 0 to |steps|
      invariant edges == RootChain(start, steps[..i])
      invariant startId == if i == 0 then start else steps[i - 1]
    {
      assert steps[..i + 1][..i] == steps[..i];
      edges := edges + [(startId, steps[i])];
      startId := steps[i];
    }
    assert steps[..|steps|] == steps;
  }

  /** One edge from `from` to each of `tos`. */
  method AddStar(from: string, tos: seq<string>) returns (edges: seq<Edge>)
    ensures edges == Star(from, tos)
  {
    edges := [];
    for j := 0 to |tos|
      invariant edges == Star(from, tos[..j])
    {
      assert tos[..j + 1][..j] == tos[..j];
      edges := edges + [(from, tos[j])];
    }
    assert tos[..|tos|] == tos;
  }

  /** The sub-pipeline loop: each pipeline to each of its steps. */
  method AddPipelineEdges(ps: seq<PipelineDef>) returns (edges: seq<Edge>)
    ensures edges == PipelineEdges(ps)
  {
    edges := [];
    for i := 0 to |ps|
      invariant edges == PipelineEdges(ps[..i])
    {
      assert ps[..i + 1][..i] == ps[..i];
      var star := AddStar(ps[i].id, ps[i].steps);
      edges := edges + star;
    }
    assert ps[..|ps|] == ps;
  }

  /** The parallel loop: each parallel to each of its pipelines. */
  method AddParallelEdges(pars: seq<ParallelDef>) returns (edges: seq<Edge>)
    ensures edges == ParallelEdges(pars)
  {
    edges := [];
    for i := 0 to |pars|
      invariant edges == ParallelEdges(pars[..i])
    {
      assert pars[..i + 1][..i] == pars[..i];
      var star := AddStar(pars[i].id, IdsOf(pars[i].pipelines));
      edges := edges + star;
    }
    assert pars[..|pars|] == pars;
  }

  /** The start of the root loop's edge number `i`: the root id, then the previous step. */
  function StartOf(start: string, steps: seq<string>, i: nat): string
    requires i < |steps|
  {
    if i == 0 then start else steps[i - 1]
  }

  /** The root chain's edges run from `start` to the first step and from each step to the next. */
  lemma {:induction false} RootChainLinks(start: string, steps: seq<string>)
    ensures |RootChain(start, steps)| == |steps|
    ensures forall i :: 0 <= i < |steps| ==> RootChain(start, steps)[i] == (StartOf(start, steps, i), steps[i])
  {
    if steps != [] {
      var init := steps[..|steps| - 1];
      RootChainLinks(start, init);
      forall i | 0 <= i < |steps|
        ensures RootChain(start, steps)[i] == (StartOf(start, steps, i), steps[i])
      {
        if i < |init| {
          assert RootChain(start, steps)[i] == RootChain(start, init)[i];
          assert init[i] == steps[i];
          assert StartOf(start, init, i) == StartOf(start, steps, i);
        }
      }
    }
  }

  /** The id graph's first edges are the root chain, as links of `[s.id] + s.steps`. */
  lemma {:induction false} RootEdgesFirst(s: Spec)
    ensures |s.steps| <= |SpecEdges(s)|
    ensures forall i :: 0 < i <= |s.steps| ==> SpecEdges(s)[i - 1] == Graphs.Link([s.id] + s.steps, i)
  {
    RootChainLinks(s.id, s.steps);
    var x := [s.id] + s.steps;
    forall i | 0 < i <= |s.steps|
      ensures SpecEdges(s)[i - 1] == Graphs.Link(x, i)
    {
      assert SpecEdges(s)[i - 1] == RootChain(s.id, s.steps)[i - 1];
      assert x[i - 1] == StartOf(s.id, s.steps, i - 1);
    }
  }

  /**
   * A root chain that names some step twice, or names the specification's
   * own id, is never accepted: either an edge is refused or the check finds
   * a cycle.
   */
  lemma {:induction false} RepeatedRootStepIsCycle(s: Spec)
    requires s.steps != [] && !Graphs.Distinct([s.id] + s.steps)
    ensures CycleCheck(s) != Ok(false)
  {
    var x := [s.id] + s.steps;
    var es := SpecEdges(s);
    var g := Graphs.Graph(SpecVertices(s), set e | e in es);
    RootEdgesFirst(s);
    forall e | e in Graphs.Chain(x).edges
      ensures e in g.edges
    {
      var i :| 0 < i < |x| && e == Graphs.Link(x, i);
      assert es[i - 1] == e;
    }
    Graphs.ChainCycleIffRepeat(x);
    Graphs.HasCycleMonotone(Graphs.Chain(x), g);
  }

  /** When the check passes, every top-level step names a declared stage, pipeline or parallel. */
  lemma {:induction false} AcyclicRootStepsDeclared(s: Spec)
    requires CycleCheck(s) == Ok(false)
    ensures forall i :: 0 <= i < |s.steps| ==> s.steps[i] in DeclaredIds(s)
  {
    if s.steps != [] {
      var x := [s.id] + s.steps;
      var es := SpecEdges(s);
      RootEdgesFirst(s);
      if !Graphs.Distinct(x) {
        RepeatedRootStepIsCycle(s);
      }
      forall i | 0 <= i < |s.steps|
        ensures s.steps[i] in DeclaredIds(s)
      {
        assert es[i] == Graphs.Link(x, i + 1) == (x[i], s.steps[i]);
        assert Accepted(SpecVertices(s), es[i]);
        assert x[0] != x[i + 1];
      }
    }
  }

  // ---------------------------------------------------------------------
  // The vertices: one object per declared id
  // ---------------------------------------------------------------------

  /** The stage builders the class loader can find: a class name to the stage its builder builds. */
  type Registry = map<string, Stage>

  /** What a declared id stands for once the vertices exist. */
  datatype Vertex = SimpleVertex(stage: Stage) | PipelineVertex | ParallelVertex

  const NoBuilderPrefix := "Could not construct a StageBuilder for class: "

  /** Every stage definition names a class whose builder can be found. */
  predicate Loadable(stages: seq<StageDef>, reg: Registry)
  {
    forall i :: 0 <= i < |stages| ==> stages[i].className in reg
  }

  /** The class name of the first stage definition whose builder cannot be found. */
  function FirstUnloadable(stages: seq<StageDef>, reg: Registry): (r: Option<string>)
    ensures r.None? <==> Loadable(stages, reg)
    ensures r.Some? ==> exists i :: 0 <= i < |stages| && stages[i].className == r.value && r.value !in reg
                                    && Loadable(stages[..i], reg)
  {
    if stages == [] then None
    else if stages[0].className !in reg then
      assert Loadable(stages[..0], reg);
      Some(stages[0].className)
    else
      var r := FirstUnloadable(stages[1..], reg);
      assert forall i :: 0 <= i < |stages| - 1 ==> stages[1..][i] == stages[i + 1];
      if r.Some? then
        var i :| 0 <= i < |stages| - 1 && stages[1..][i].className == r.value && r.value !in reg
                 && Loadable(stages[1..][..i], reg);
        assert stages[..i + 1] == [stages[0]] + stages[1..][..i];
        r
      else r
  }

  /** The stage loop's puts: each definition's id to a simple vertex holding the stage its class builds. */
  function PutStages(stages: seq<StageDef>, reg: Registry): map<string, Vertex>
    requires Loadable(stages, reg)
  {
    if stages == [] then map[]
    else
      var d := stages[|stages| - 1];
      PutStages(stages[..|stages| - 1], reg)[d.id := SimpleVertex(reg[d.className])]
  }

  /** Puts `v` under each of `ids`, in order. */
  function PutIds(m: map<string, Vertex>, ids: seq<string>, v: Vertex): map<string, Vertex>
  {
    if ids == [] then m else PutIds(m, ids[..|ids| - 1], v)[ids[|ids| - 1] := v]
  }

  /** `generateVertices`' map: stages, then parallel pipelines, then parallels; a later put replaces an earlier one. */
  function Vertices(s: Spec, reg: Registry): map<string, Vertex>
    requires Loadable(s.stages, reg)
  {
    PutIds(PutIds(PutStages(s.stages, reg), PipelineIds(s), PipelineVertex), ParallelIds(s), ParallelVertex)
  }

  /** Putting a list of ids adds exactly those keys, all mapped to `v`. */
  lemma {:induction false} PutIdsContents(m: map<string, Vertex>, ids: seq<string>, v: Vertex)
    ensures PutIds(m, ids, v).Keys == m.Keys + set x | x in ids
    ensures forall k :: k in PutIds(m, ids, v) ==> PutIds(m, ids, v)[k] == if k in ids then v else m[k]
  {
    if ids != [] {
      var init := ids[..|ids| - 1];
      PutIdsContents(m, init, v);
      assert ids == init + [ids[|ids| - 1]];
    }
  }

  /** No later stage definition reuses the id of definition `i`. */
  predicate LastOfItsId(stages: seq<StageDef>, i: int)
    requires 0 <= i < |stages|
  {
    forall j :: i < j < |stages| ==> stages[j].id != stages[i].id
  }

  /** The stage loop defines exactly the stage ids. */
  lemma {:induction false} PutStagesKeys(stages: seq<StageDef>, reg: Registry)
    requires Loadable(stages, reg)
    ensures PutStages(stages, reg).Keys == set d | d in stages :: d.id
  {
    if stages != [] {
      var init := stages[..|stages| - 1];
      assert Loadable(init, reg);
      PutStagesKeys(init, reg);
      assert stages == init + [stages[|stages| - 1]];
    }
  }

  /** The definition listed last for an id decides that id's stage. */
  lemma {:induction false} PutStagesLastWins(stages: seq<StageDef>, reg: Registry, i: int)
    requires Loadable(stages, reg) && 0 <= i < |stages| && LastOfItsId(stages, i)
    ensures stages[i].id in PutStages(stages, reg)
    ensures PutStages(stages, reg)[stages[i].id] == SimpleVertex(reg[stages[i].className])
  {
    var n := |stages| - 1;
    if i < n {
      var init := stages[..n];
      assert Loadable(init, reg);
      assert init[i] == stages[i];
      assert LastOfItsId(init, i) by {
        forall j | i < j < |init| ensures init[j].id != init[i].id {
          assert init[j] == stages[j];
        }
      }
      PutStagesLastWins(init, reg, i);
      assert stages[n].id != stages[i].id;
    }
  }

  /** Later kinds win: a parallel id is a parallel, else a pipeline id a pipeline, else a stage id a stage. */
  lemma {:induction false} VerticesContents(s: Spec, reg: Registry)
    requires Loadable(s.stages, reg)
    ensures Vertices(s, reg).Keys == DeclaredIds(s)
    ensures forall id :: id in ParallelIds(s) ==> Vertices(s, reg)[id] == ParallelVertex
    ensures forall id :: id in PipelineIds(s) && id !in ParallelIds(s) ==> Vertices(s, reg)[id] == PipelineVertex
  {
    var m0 := PutStages(s.stages, reg);
    PutStagesKeys(s.stages, reg);
    assert (set d | d in s.stages :: d.id) == set x | x in StageIds(s) by {
      forall x | x in StageIds(s) ensures exists d :: d in s.stages && d.id == x {
        var i :| 0 <= i < |StageIds(s)| && StageIds(s)[i] == x;
        assert s.stages[i] in s.stages;
      }
      forall d | d in s.stages ensures d.id in StageIds(s) {
        var i :| 0 <= i < |s.stages| && s.stages[i] == d;
        assert StageIds(s)[i] == d.id;
      }
    }
    var m1 := PutIds(m0, PipelineIds(s), PipelineVertex);
    PutIdsContents(m0, PipelineIds(s), PipelineVertex);
    PutIdsContents(m1, ParallelIds(s), ParallelVertex);
  }

  /** A stage id that no pipeline or parallel reuses holds the stage of its last definition. */
  lemma {:induction false} VerticesStage(s: Spec, reg: Registry, i: int)
    requires Loadable(s.stages, reg) && 0 <= i < |s.stages| && LastOfItsId(s.stages, i)
    requires s.stages[i].id !in PipelineIds(s) && s.stages[i].id !in ParallelIds(s)
    ensures s.stages[i].id in Vertices(s, reg)
    ensures Vertices(s, reg)[s.stages[i].id] == SimpleVertex(reg[s.stages[i].className])
  {
    var m0 := PutStages(s.stages, reg);
    PutStagesLastWins(s.stages, reg, i);
    var m1 := PutIds(m0, PipelineIds(s), PipelineVertex);
    PutIdsContents(m0, PipelineIds(s), PipelineVertex);
    PutIdsContents(m1, ParallelIds(s), ParallelVertex);
  }

  // ---------------------------------------------------------------------
  // Wiring: the lookups and casts of the two wiring loops
  // ---------------------------------------------------------------------

  /** `id` stands for a pipeline object. */
  predicate IsPipeline(m: map<string, Vertex>, id: string)
  {
    id in m && m[id] == PipelineVertex
  }

  /** The sub-pipeline loop succeeds: each definition's id is a pipeline and each of its steps is some vertex. */
  predicate PipelinesWired(ps: seq<PipelineDef>, m: map<string, Vertex>)
  {
    forall i :: 0 <= i < |ps| ==> IsPipeline(m, ps[i].id) && forall x :: x in ps[i].steps ==> x in m
  }

  /** The parallel loop succeeds: each pipeline of each parallel is a pipeline. */
  predicate ParallelsWired(pars: seq<ParallelDef>, m: map<string, Vertex>)
  {
    forall i :: 0 <= i < |pars| ==> forall p :: p in pars[i].pipelines ==> IsPipeline(m, p.id)
  }

  predicate Wired(s: Spec, m: map<string, Vertex>)
  {
    PipelinesWired(AllParallelPipelines(s.parallels), m) && ParallelsWired(s.parallels, m)
  }

  /**
   * What looking `id` up and casting its object to a pipeline throws: a
   * null dereference when the id names no vertex, a failed cast when it
   * names a stage or a parallel.
   */
  function PipelineCast(m: map<string, Vertex>, id: string): (f: Option<Exception>)
    ensures f.None? <==> IsPipeline(m, id)
    ensures f == Some(NullDereference) <==> id !in m
  {
    if id !in m then Some(NullDereference)
    else if m[id] != PipelineVertex then Some(CastFailure)
    else None
  }

  /** What wiring one sub-pipeline definition throws: the cast of its own object, then the lookup of an unknown step. */
  function PipelineDefFailure(d: PipelineDef, m: map<string, Vertex>): Option<Exception>
  {
    if !IsPipeline(m, d.id) then PipelineCast(m, d.id)
    else if exists x :: x in d.steps && x !in m then Some(NullDereference)
    else None
  }

  /** The sub-pipeline loop's exception: that of the first definition whose wiring throws. */
  function PipelinesFailure(ps: seq<PipelineDef>, m: map<string, Vertex>): Option<Exception>
  {
    if ps == [] then None
    else if PipelineDefFailure(ps[0], m).Some? then PipelineDefFailure(ps[0], m)
    else PipelinesFailure(ps[1..], m)
  }

  /** The exception of the first member pipeline whose cast fails. */
  function CastsFailure(ps: seq<PipelineDef>, m: map<string, Vertex>): Option<Exception>
  {
    if ps == [] then None
    else if PipelineCast(m, ps[0].id).Some? then PipelineCast(m, ps[0].id)
    else CastsFailure(ps[1..], m)
  }

  /** The parallel loop's exception: that of the first parallel with a member that is not a pipeline. */
  function ParallelsFailure(pars: seq<ParallelDef>, m: map<string, Vertex>): Option<Exception>
  {
    if pars == [] then None
    else if CastsFailure(pars[0].pipelines, m).Some? then CastsFailure(pars[0].pipelines, m)
    else ParallelsFailure(pars[1..], m)
  }

  /** What the two wiring loops throw: the sub-pipeline loop runs first. */
  function WiringFailure(s: Spec, m: map<string, Vertex>): Option<Exception>
  {
    var f := PipelinesFailure(AllParallelPipelines(s.parallels), m);
    if f.Some? then f else ParallelsFailure(s.parallels, m)
  }

  /** The sub-pipeline loop throws nothing exactly when every lookup and cast in it succeeds. */
  lemma {:induction false} PipelinesFailureIffUnwired(ps: seq<PipelineDef>, m: map<string, Vertex>)
    ensures PipelinesFailure(ps, m).None? <==> PipelinesWired(ps, m)
    ensures PipelinesFailure(ps, m).Some? ==> PipelinesFailure(ps, m).value in {NullDereference, CastFailure}
  {
    if ps != [] {
      PipelinesFailureIffUnwired(ps[1..], m);
      if PipelineDefFailure(ps[0], m).None? {
        assert PipelinesWired(ps, m) <==> PipelinesWired(ps[1..], m) by {
          if PipelinesWired(ps[1..], m) {
            forall i | 0 <= i < |ps| ensures IsPipeline(m, ps[i].id) && forall x :: x in ps[i].steps ==> x in m {
              if i > 0 {
                assert ps[i] == ps[1..][i - 1];
              }
            }
          }
          if PipelinesWired(ps, m) {
            forall i | 0 <= i < |ps[1..]| ensures IsPipeline(m, ps[1..][i].id) && forall x :: x in ps[1..][i].steps ==> x in m {
              assert ps[1..][i] == ps[i + 1];
            }
          }
        }
      }
    }
  }

  /** A member cast loop throws nothing exactly when every member is a pipeline. */
  lemma {:induction false} CastsFailureIffUnwired(ps: seq<PipelineDef>, m: map<string, Vertex>)
    ensures CastsFailure(ps, m).None? <==> forall p :: p in ps ==> IsPipeline(m, p.id)
    ensures CastsFailure(ps, m).Some? ==> CastsFailure(ps, m).value in {NullDereference, CastFailure}
  {
    if ps != [] {
      CastsFailureIffUnwired(ps[1..], m);
      assert forall p :: p in ps <==> p == ps[0] || p in ps[1..];
    }
  }

  /** The parallel loop throws nothing exactly when every member of every parallel is a pipeline. */
  lemma {:induction false} ParallelsFailureIffUnwired(pars: seq<ParallelDef>, m: map<string, Vertex>)
    ensures ParallelsFailure(pars, m).None? <==> ParallelsWired(pars, m)
    ensures ParallelsFailure(pars, m).Some? ==> ParallelsFailure(pars, m).value in {NullDereference, CastFailure}
  {
    if pars != [] {
      ParallelsFailureIffUnwired(pars[1..], m);
      CastsFailureIffUnwired(pars[0].pipelines, m);
      if CastsFailure(pars[0].pipelines, m).None? {
        assert ParallelsWired(pars, m) <==> ParallelsWired(pars[1..], m) by {
          if ParallelsWired(pars[1..], m) {
            forall i | 0 <= i < |pars| ensures forall p :: p in pars[i].pipelines ==> IsPipeline(m, p.id) {
              if i > 0 {
                assert pars[i] == pars[1..][i - 1];
              }
            }
          }
          if ParallelsWired(pars, m) {
            forall i | 0 <= i < |pars[1..]| ensures forall p :: p in pars[1..][i].pipelines ==> IsPipeline(m, p.id) {
              assert pars[1..][i] == pars[i + 1];
            }
          }
        }
      }
    }
  }

  /**
   * Wiring throws nothing exactly when every lookup and cast succeeds, and
   * what it throws is a null dereference or a failed cast.
   */
  lemma {:induction false} WiringFailureIffUnwired(s: Spec, m: map<string, Vertex>)
    ensures WiringFailure(s, m).None? <==> Wired(s, m)
    ensures WiringFailure(s, m).Some? ==> WiringFailure(s, m).value in {NullDereference, CastFailure}
  {
    PipelinesFailureIffUnwired(AllParallelPipelines(s.parallels), m);
    ParallelsFailureIffUnwired(s.parallels, m);
  }

  /** The sub-pipeline loop: stops at the first definition whose id or step does not resolve, with its exception. */
  method WirePipelines(ps: seq<PipelineDef>, m: map<string, Vertex>) returns (f: Option<Exception>)
    ensures f == PipelinesFailure(ps, m)
  {
    for i := 0 to |ps|
      invariant PipelinesFailure(ps[i..], m) == PipelinesFailure(ps, m)
    {
      assert ps[i..][0] == ps[i] && ps[i..][1..] == ps[i + 1..];
      if !IsPipeline(m, ps[i].id) {
        return PipelineCast(m, ps[i].id);
      }
      var steps := ps[i].steps;
      for j := 0 to |steps|
        invariant forall k :: 0 <= k < j ==> steps[k] in m
      {
        if steps[j] !in m {
          assert steps[j] in ps[i].steps;
          return Some(NullDereference);
        }
      }
      assert forall x :: x in steps ==> x in m;
    }
    assert ps[|ps|..] == [];
    return None;
  }

  /** The parallel loop: stops at the first parallel pipeline whose id is not a pipeline, with its exception. */
  method WireParallels(pars: seq<ParallelDef>, m: map<string, Vertex>) returns (f: Option<Exception>)
    ensures f == ParallelsFailure(pars, m)
  {
    for i := 0 to |pars|
      invariant ParallelsFailure(pars[i..], m) == ParallelsFailure(pars, m)
    {
      assert pars[i..][0] == pars[i] && pars[i..][1..] == pars[i + 1..];
      var ps := pars[i].pipelines;
      for j := 0 to |ps|
        invariant CastsFailure(ps[j..], m) == CastsFailure(ps, m)
      {
        assert ps[j..][0] == ps[j] && ps[j..][1..] == ps[j + 1..];
        if !IsPipeline(m, ps[j].id) {
          return PipelineCast(m, ps[j].id);
        }
      }
      assert ps[|ps|..] == [];
    }
    assert pars[|pars|..] == [];
    return None;
  }

  /**
   * `generateVertices`: the three put loops, then the two wiring loops. A
   * stage class without a builder ends it with the builder error; a failed
   * lookup or cast in the wiring ends it with the exception it throws.
   */
  method GenerateVertices(s: Spec, reg: Registry) returns (r: Result<map<string, Vertex>, string>)
    ensures FirstUnloadable(s.stages, reg).Some? ==> r == Err(NoBuilderPrefix + FirstUnloadable(s.stages, reg).value)
    ensures FirstUnloadable(s.stages, reg).None? ==>
      r == match WiringFailure(s, Vertices(s, reg))
           case None => Ok(Vertices(s, reg))
           case Some(e) => Err(Describe(e))
  {
    var stages := PutStageVertices(s.stages, reg);
    if stages.Err? {
      return Err(stages.error);
    }
    var m := stages.value;
    m := PutAll(m, PipelineIds(s), PipelineVertex);
    m := PutAll(m, ParallelIds(s), ParallelVertex);
    var f := WirePipelines(AllParallelPipelines(s.parallels), m);
    if f.None? {
      f := WireParallels(s.parallels, m);
    }
    r := if f.Some? then Err(Describe(f.value)) else Ok(m);
  }

  /** The stage put loop: a simple vertex per stage definition, ending at the first class without a builder. */
  method PutStageVertices(stages: seq<StageDef>, reg: Registry) returns (r: Result<map<string, Vertex>, string>)
    ensures FirstUnloadable(stages, reg).Some? ==> r == Err(NoBuilderPrefix + FirstUnloadable(stages, reg).value)
    ensures FirstUnloadable(stages, reg).None? ==> r == Ok(PutStages(stages, reg))
  {
    var m: map<string, Vertex> := map[];
    for i := 0 to |stages|
      invariant Loadable(stages[..i], reg) && m == PutStages(stages[..i], reg)
    {
      var d := stages[i];
      assert stages[..i + 1][..i] == stages[..i];
      if d.className !in reg {
        FirstUnloadableAt(stages, reg, i);
        return Err(NoBuilderPrefix + d.className);
      }
      m := m[d.id := SimpleVertex(reg[d.className])];
    }
    assert stages[..|stages|] == stages;
    r := Ok(m);
  }

  /** The first stage whose class has no builder is the one `FirstUnloadable` names. */
  lemma {:induction false} FirstUnloadableAt(stages: seq<StageDef>, reg: Registry, i: nat)
    requires i < |stages| && Loadable(stages[..i], reg) && stages[i].className !in reg
    ensures FirstUnloadable(stages, reg) == Some(stages[i].className)
  {
    if i > 0 {
      assert stages[0] == stages[..i][0];
      var rest := stages[1..];
      assert rest[..i - 1] == stages[1..i];
      FirstUnloadableAt(rest, reg, i - 1);
    }
  }

  /** A put loop: `v` under each id in turn. */
  method PutAll(m0: map<string, Vertex>, ids: seq<string>, v: Vertex) returns (m: map<string, Vertex>)
    ensures m == PutIds(m0, ids, v)
  {
    m := m0;
    for i := 0 to |ids|
      invariant m == PutIds(m0, ids[..i], v)
    {
      assert ids[..i + 1][..i] == ids[..i];
      m := m[ids[i] := v];
    }
    assert ids[..|ids|] == ids;
  }

  // ---------------------------------------------------------------------
  // The node tree the wired vertices form
  // ---------------------------------------------------------------------

  /** The steps the pipeline object of `id` receives: those of every definition with that id, in order. */
  function StepsFor(ps: seq<PipelineDef>, id: string): seq<string>
  {
    if ps == [] then []
    else StepsFor(ps[..|ps| - 1], id) + if ps[|ps| - 1].id == id then ps[|ps| - 1].steps else []
  }

  /** The pipelines the parallel object of `id` receives: those of every parallel with that id, in order. */
  function MembersFor(pars: seq<ParallelDef>, id: string): seq<string>
  {
    if pars == [] then []
    else MembersFor(pars[..|pars| - 1], id) + if pars[|pars| - 1].id == id then IdsOf(pars[|pars| - 1].pipelines) else []
  }

  const Unresolved := "an id names no vertex"
  const TooDeep := "the nesting of the specification is deeper than its number of ids"

  /**
   * The node the vertex of `id` becomes once wired: a leaf for a stage, a
   * pipeline holding the nodes of its steps, a parallel holding the nodes
   * of its pipelines. Every generated object stands for its id, so all of
   * them carry the same `ref`; the root pipeline, a separate object, has
   * its own. `fuel` bounds the nesting depth.
   */
  function Resolve(m: map<string, Vertex>, s: Spec, id: string, fuel: nat): (r: Result<Node, string>)
    ensures r.Ok? ==> r.value.id == id
    decreases fuel, 1, 0
  {
    if id !in m then Err(Unresolved)
    else if fuel == 0 then Err(TooDeep)
    else match m[id]
      case SimpleVertex(st) => Ok(Leaf(1, id, Some(st)))
      case PipelineVertex =>
        var c := ResolveAll(m, s, StepsFor(AllParallelPipelines(s.parallels), id), fuel - 1);
        if c.Err? then Err(c.error) else Ok(Seq(1, id, s.fastFail, c.value))
      case ParallelVertex =>
        var c := ResolveAll(m, s, MembersFor(s.parallels, id), fuel - 1);
        if c.Err? then Err(c.error) else Ok(Par(1, id, c.value))
  }

  /** The nodes of a list of ids, or the first failure. */
  function ResolveAll(m: map<string, Vertex>, s: Spec, ids: seq<string>, fuel: nat): Result<seq<Node>, string>
    decreases fuel, 2, |ids|
  {
    if ids == [] then Ok([])
    else
      var h := Resolve(m, s, ids[0], fuel);
      if h.Err? then Err(h.error)
      else
        var t := ResolveAll(m, s, ids[1..], fuel);
        if t.Err? then Err(t.error) else Ok([h.value] + t.value)
  }

  /** Resolving a list resolves each id on its own, position by position. */
  lemma {:induction false} ResolveAllElementwise(m: map<string, Vertex>, s: Spec, ids: seq<string>, fuel: nat)
    ensures ResolveAll(m, s, ids, fuel).Ok? <==> forall i :: 0 <= i < |ids| ==> Resolve(m, s, ids[i], fuel).Ok?
    ensures ResolveAll(m, s, ids, fuel).Ok? ==>
      var ns := ResolveAll(m, s, ids, fuel).value;
      |ns| == |ids| && forall i :: 0 <= i < |ids| ==> ns[i] == Resolve(m, s, ids[i], fuel).value
    ensures forall i :: 0 <= i < |ids| && Resolve(m, s, ids[i], fuel).Err? && (forall k :: 0 <= k < i ==> Resolve(m, s, ids[k], fuel).Ok?) ==>
      ResolveAll(m, s, ids, fuel) == Err(Resolve(m, s, ids[i], fuel).error)
  {
    if ids != [] {
      ResolveAllElementwise(m, s, ids[1..], fuel);
      assert forall i :: 0 < i < |ids| ==> ids[1..][i - 1] == ids[i];
    }
  }

  /** Every step `StepsFor` lists comes from a definition with that id. */
  lemma {:induction false} StepsForSource(ps: seq<PipelineDef>, id: string, x: string)
    requires x in StepsFor(ps, id)
    ensures exists i :: 0 <= i < |ps| && ps[i].id == id && x in ps[i].steps
  {
    var n := |ps| - 1;
    if x in StepsFor(ps[..n], id) {
      StepsForSource(ps[..n], id, x);
      var i :| 0 <= i < n && ps[..n][i].id == id && x in ps[..n][i].steps;
      assert ps[..n][i] == ps[i];
    }
  }

  /** Every pipeline `MembersFor` lists belongs to a parallel with that id. */
  lemma {:induction false} MembersForSource(pars: seq<ParallelDef>, id: string, x: string)
    requires x in MembersFor(pars, id)
    ensures exists i, p :: 0 <= i < |pars| && pars[i].id == id && p in pars[i].pipelines && p.id == x
  {
    var n := |pars| - 1;
    if x in MembersFor(pars[..n], id) {
      MembersForSource(pars[..n], id, x);
      var i, p :| 0 <= i < n && pars[..n][i].id == id && p in pars[..n][i].pipelines && p.id == x;
      assert pars[..n][i] == pars[i];
    } else {
      var ids := IdsOf(pars[n].pipelines);
      var k :| 0 <= k < |ids| && ids[k] == x;
      assert pars[n].pipelines[k] in pars[n].pipelines;
    }
  }

  /** Once the wiring succeeded, a declared id can fail to resolve only by running out of depth. */
  lemma {:induction false} WiredResolves(m: map<string, Vertex>, s: Spec, id: string, fuel: nat)
    requires Wired(s, m) && id in m
    ensures Resolve(m, s, id, fuel).Ok? || Resolve(m, s, id, fuel) == Err(TooDeep)
    decreases fuel, 1, 0
  {
    if fuel > 0 {
      match m[id]
      case SimpleVertex(_) =>
      case PipelineVertex =>
        var ps := AllParallelPipelines(s.parallels);
        var xs := StepsFor(ps, id);
        forall x | x in xs ensures x in m {
          StepsForSource(ps, id, x);
        }
        WiredResolvesAll(m, s, xs, fuel - 1);
      case ParallelVertex =>
        var xs := MembersFor(s.parallels, id);
        forall x | x in xs ensures x in m {
          MembersForSource(s.parallels, id, x);
        }
        WiredResolvesAll(m, s, xs, fuel - 1);
    }
  }

  /** The list form of `WiredResolves`. */
  lemma {:induction false} WiredResolvesAll(m: map<string, Vertex>, s: Spec, ids: seq<string>, fuel: nat)
    requires Wired(s, m) && forall x :: x in ids ==> x in m
    ensures ResolveAll(m, s, ids, fuel).Ok? || ResolveAll(m, s, ids, fuel) == Err(TooDeep)
    decreases fuel, 2, |ids|
  {
    if ids != [] {
      WiredResolves(m, s, ids[0], fuel);
      WiredResolvesAll(m, s, ids[1..], fuel);
    }
  }

  /** The root loop: each top-level step's node, added in order. */
  method ResolveSteps(m: map<string, Vertex>, s: Spec, ids: seq<string>, fuel: nat) returns (r: Result<seq<Node>, string>)
    ensures r == ResolveAll(m, s, ids, fuel)
  {
    ResolveAllElementwise(m, s, ids, fuel);
    var nodes: seq<Node> := [];
    for i := 0 to |ids|
      invariant |nodes| == i
      invariant forall k :: 0 <= k < i ==> Resolve(m, s, ids[k], fuel).Ok? && nodes[k] == Resolve(m, s, ids[k], fuel).value
    {
      var n := Resolve(m, s, ids[i], fuel);
      if n.Err? {
        return Err(n.error);
      }
      nodes := nodes + [n.value];
    }
    assert ResolveAll(m, s, ids, fuel).Ok?;
    assert nodes == ResolveAll(m, s, ids, fuel).value;
    r := Ok(nodes);
  }

  // ---------------------------------------------------------------------
  // The generator stage
  // ---------------------------------------------------------------------

  const NotAcyclic := "Pipeline specification is not acyclic, please correct and try again"

  /**
   * What the generator produces from a specification: the root pipeline,
   * named by the specification's id, with its fast-fail flag and the nodes
   * of its top-level steps, or the first failure.
   */
  function Generate(s: Spec, reg: Registry): Result<Node, string>
  {
    var c := CycleCheck(s);
    if c.Err? then Err(c.error)
    else if c.value then Err(NotAcyclic)
    else match FirstUnloadable(s.stages, reg)
      case Some(cn) => Err(NoBuilderPrefix + cn)
      case None =>
        var m := Vertices(s, reg);
        var w := WiringFailure(s, m);
        if w.Some? then Err(Describe(w.value))
        else
          var ns := ResolveAll(m, s, s.steps, |m| + 1);
          if ns.Err? then Err(ns.error) else Ok(Seq(0, s.id, s.fastFail, ns.value))
  }

  /**
   * `doWork`: generates the pipeline of the stored specification and adds
   * it to the context under the pipeline key. Without a specification in
   * the context it throws when reading it (the error carries the
   * exception's text). A failure leaves the store as it was.
   */
  method DoWork(ctx: ExecutionContext<BuilderObject>, reg: Registry) returns (r: Result<(), string>)
    modifies ctx
    ensures ctx.status == old(ctx.status) && ctx.eventLog == old(ctx.eventLog)
    ensures StoredSpec(old(ctx.objects)).None? ==>
      r == Err(Describe(MissingSpec(old(ctx.objects)))) && ctx.objects == old(ctx.objects)
    ensures StoredSpec(old(ctx.objects)).Some? ==>
      var g := Generate(StoredSpec(old(ctx.objects)).value, reg);
      && (g.Ok? ==> r.Ok? && ctx.objects == old(ctx.objects)[PipelineKey := PipelineObject(g.value)])
      && (g.Err? ==> r == Err(g.error) && ctx.objects == old(ctx.objects))
  {
    var stored := StoredSpec(ctx.objects);
    if stored.None? {
      return Err(Describe(MissingSpec(ctx.objects)));
    }
    var s := stored.value;
    var cycle := IsPipelineAcyclic(s);
    if cycle.Err? {
      return Err(cycle.error);
    }
    if cycle.value {
      return Err(NotAcyclic);
    }
    var vertices := GenerateVertices(s, reg);
    if vertices.Err? {
      return Err(vertices.error);
    }
    var m := vertices.value;
    var steps := ResolveSteps(m, s, s.steps, |m| + 1);
    if steps.Err? {
      return Err(steps.error);
    }
    ctx.AddObject(PipelineKey, PipelineObject(Seq(0, s.id, s.fastFail, steps.value)));
    r := Ok(());
  }

  /**
   * The shape of a wired vertex's node: a stage's leaf holds its stage; a
   * pipeline holds, in order, the nodes of the steps of every definition
   * with its id and the specification's fast-fail flag; a parallel holds the
   * nodes of its pipelines, each of which is a pipeline.
   */
  lemma {:induction false} ResolvedShape(m: map<string, Vertex>, s: Spec, id: string, fuel: nat)
    requires Wired(s, m) && Resolve(m, s, id, fuel).Ok?
    ensures var n := Resolve(m, s, id, fuel).value;
      match m[id]
      case SimpleVertex(st) => n == Leaf(1, id, Some(st))
      case PipelineVertex =>
        var xs := StepsFor(AllParallelPipelines(s.parallels), id);
        && n.Seq? && n.ref == 1 && n.fastFail == s.fastFail && |n.stages| == |xs|
        && forall k :: 0 <= k < |xs| ==> n.stages[k].id == xs[k]
      case ParallelVertex =>
        var xs := MembersFor(s.parallels, id);
        && n.Par? && n.ref == 1 && |n.pipelines| == |xs|
        && forall k :: 0 <= k < |xs| ==> n.pipelines[k].id == xs[k] && n.pipelines[k].Seq?
  {
    match m[id]
    case SimpleVertex(_) =>
    case PipelineVertex =>
      ResolveAllElementwise(m, s, StepsFor(AllParallelPipelines(s.parallels), id), fuel - 1);
    case ParallelVertex =>
      var xs := MembersFor(s.parallels, id);
      ResolveAllElementwise(m, s, xs, fuel - 1);
      forall k | 0 <= k < |xs|
        ensures Resolve(m, s, xs[k], fuel - 1).value.Seq?
      {
        MembersForSource(s.parallels, id, xs[k]);
        assert IsPipeline(m, xs[k]);
      }
  }

  /**
   * A generated pipeline passed every stage of generation; it is the root
   * pipeline named by the specification, holding one node per top-level
   * step, each the node of that step's vertex, and its children are
   * pairwise different, so the pipeline's own cycle check lets it run.
   */
  lemma {:induction false} GeneratedRootPipeline(s: Spec, reg: Registry)
    requires Generate(s, reg).Ok?
    ensures CycleCheck(s) == Ok(false) && Loadable(s.stages, reg) && Wired(s, Vertices(s, reg))
    ensures var n := Generate(s, reg).value;
      var m := Vertices(s, reg);
      && n.Seq? && n.ref == 0 && n.id == s.id && n.fastFail == s.fastFail && |n.stages| == |s.steps|
      && (forall i :: 0 <= i < |s.steps| ==>
           Resolve(m, s, s.steps[i], |m| + 1).Ok? && n.stages[i] == Resolve(m, s, s.steps[i], |m| + 1).value && n.stages[i].id == s.steps[i])
      && !Graphs.HasCycle(Graphs.Chain(n.stages))
  {
    var n := Generate(s, reg).value;
    var m := Vertices(s, reg);
    WiringFailureIffUnwired(s, m);
    ResolveAllElementwise(m, s, s.steps, |m| + 1);
    if s.steps != [] && !Graphs.Distinct([s.id] + s.steps) {
      RepeatedRootStepIsCycle(s);
    }
    DistinctIdsDistinctNodes(n.stages, s.id, s.steps);
    Graphs.ChainCycleIffRepeat(n.stages);
  }

  /** Nodes whose ids are pairwise different steps are pairwise different. */
  lemma {:induction false} DistinctIdsDistinctNodes(ns: seq<Node>, root: string, steps: seq<string>)
    requires |ns| == |steps| && forall i :: 0 <= i < |ns| ==> ns[i].id == steps[i]
    requires steps == [] || Graphs.Distinct([root] + steps)
    ensures Graphs.Distinct(ns)
  {
    forall i, j | 0 <= i < j < |ns|
      ensures ns[i] != ns[j]
    {
      assert ([root] + steps)[i + 1] != ([root] + steps)[j + 1];
    }
  }

  /**
   * A specification that passes the cycle check, whose stage classes all
   * have builders and whose wiring succeeds, is generated; only the depth
   * bound can stop it.
   */
  lemma {:induction false} WiredSpecGenerates(s: Spec, reg: Registry)
    requires CycleCheck(s) == Ok(false) && Loadable(s.stages, reg) && Wired(s, Vertices(s, reg))
    ensures Generate(s, reg).Ok? || Generate(s, reg) == Err(TooDeep)
  {
    AcyclicRootStepsDeclared(s);
    VerticesContents(s, reg);
    var m := Vertices(s, reg);
    WiringFailureIffUnwired(s, m);
    WiredResolvesAll(m, s, s.steps, |m| + 1);
  }
}
