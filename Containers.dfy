/**
 * The node objects a program assembles: `StageWrapper` (a leaf around one
 * stage), `Pipeline`, `Parallel` and `Fork`. Each object describes itself as
 * a `Node` value (`AsNode`), and its `doWork` is proved to do what the
 * engine does for that value. A composite holds its children as they were
 * when added (values for a Pipeline's stages, objects for the child
 * pipelines of a Parallel or Fork, whose contexts it sets).
 */
module Containers {
  import opened Wrappers
  import opened Context
  import opened Nodes
  import opened PipelineGraph
  import Engine
  import Graphs

  /** A callback registered for a stage id; `callback` stands for the callback object. */
  datatype Registration = Registration(stageId: string, callback: nat)

  /** `k` copies of `r`, the registrations a child listed `k` times receives. */
  function Repeat(r: Registration, k: nat): (s: seq<Registration>)
    ensures |s| == k && forall i :: 0 <= i < k ==> s[i] == r
  {
    if k == 0 then [] else Repeat(r, k - 1) + [r]
  }

  /** A leaf: an id around an optional inner stage. The id never changes. */
  class StageWrapper {
    const ref: nat
    const id: string
    const stage: Option<Stage>

    /** A wrapper with only an id has no inner stage. */
    constructor (ref: nat, id: string)
      ensures this.ref == ref && this.id == id && stage == None
    {
      this.ref := ref;
      this.id := id;
      stage := None;
    }

    constructor WithStage(ref: nat, id: string, stage: Stage)
      ensures this.ref == ref && this.id == id && this.stage == Some(stage)
    {
      this.ref := ref;
      this.id := id;
      this.stage := Some(stage);
    }

    function AsNode(): Node
    {
      Leaf(ref, id, stage)
    }

    /** `setId` has an empty body: the id given to the constructor stays. */
    method SetId(newId: string)
    {
    }

    function GetId(): string
    {
      id
    }

    /** The inner stage's class name; None where Java would dereference a null stage. */
    function GetStageClassName(): (r: Option<string>)
      ensures r.Some? <==> stage.Some?
      ensures stage.Some? ==> r.value == stage.value.className
    {
      ClassName(AsNode())
    }

    /** The default hooks do nothing. */
    method Init<V>(ctx: ExecutionContext<V>)
    {
    }

    method Close<V>(ctx: ExecutionContext<V>)
    {
    }

    /**
     * Delegates to the inner stage: raises exactly when the stage raises,
     * passing its exception on unchanged, and when there is no stage to
     * delegate to; logs nothing of its own.
     */
    method DoWork<V>(ctx: ExecutionContext<V>) returns (t: Trace)
      modifies ctx
      ensures t == Work(AsNode())
      ensures t.steps == [] && (t.outcome.Raised? <==> stage.None? || stage.value.failure.Some?)
      ensures stage.Some? && stage.value.failure.Some? ==> t.outcome == Raised(stage.value.failure.value)
      ensures ctx.eventLog == old(ctx.eventLog) && ctx.status == old(ctx.status) && ctx.objects == old(ctx.objects)
    {
      t := Engine.DoWork(ctx, AsNode());
    }

    /**
     * Adds the vertex `id` and the edge `root -> id`, and returns `id`; when
     * `root` is `id` itself the multigraph refuses the loop, leaving the
     * vertex added and no edge.
     */
    method BuildGraph(graph: MultiGraph, root: string) returns (r: Result<string, string>)
      modifies graph
      requires graph.Valid() && root in graph.vertices
      ensures graph.Valid()
      ensures r == if root == id then Err(LoopsNotAllowed) else Ok(id)
      ensures graph.Model() ==
        if root == id then LGraph(old(graph.vertices) + {id}, old(graph.edges))
        else WithEdge(LGraph(old(graph.vertices) + {id}, old(graph.edges)), root, id)
    {
      r := PipelineGraph.BuildGraph(graph, AsNode(), Some(root));
    }
  }

  /** A chain of stages run one after another, with its own fast-fail flag and context. */
  class Pipeline<V> {
    const ref: nat
    const id: string
    var fastFail: bool
    var stages: seq<Node>
    var context: ExecutionContext?<V>
    var preCallbacks: seq<Registration>
    var postCallbacks: seq<Registration>

    function AsNode(): Node
      reads this
    {
      Seq(ref, id, fastFail, stages)
    }

    /** Fast-fail is on unless a constructor says otherwise. */
    constructor (ref: nat, id: string)
      ensures this.ref == ref && this.id == id && fastFail
      ensures stages == [] && context == null && preCallbacks == [] && postCallbacks == []
    {
      this.ref := ref;
      this.id := id;
      fastFail := true;
      stages := [];
      context := null;
      preCallbacks := [];
      postCallbacks := [];
    }

    constructor WithFastFail(ref: nat, id: string, fastFail: bool)
      ensures this.ref == ref && this.id == id && this.fastFail == fastFail
      ensures stages == [] && context == null && preCallbacks == [] && postCallbacks == []
    {
      this.ref := ref;
      this.id := id;
      this.fastFail := fastFail;
      stages := [];
      context := null;
      preCallbacks := [];
      postCallbacks := [];
    }

    constructor WithContext(context: ExecutionContext<V>, ref: nat, id: string, fastFail: bool)
      ensures this.ref == ref && this.id == id && this.fastFail == fastFail
      ensures stages == [] && this.context == context && preCallbacks == [] && postCallbacks == []
    {
      this.ref := ref;
      this.id := id;
      this.fastFail := fastFail;
      stages := [];
      this.context := context;
      preCallbacks := [];
      postCallbacks := [];
    }

    /** The list constructors copy the given children, in order. */
    constructor WithStages(ref: nat, id: string, fastFail: bool, stages: seq<Node>)
      ensures this.ref == ref && this.id == id && this.fastFail == fastFail
      ensures this.stages == stages && context == null && preCallbacks == [] && postCallbacks == []
    {
      this.ref := ref;
      this.id := id;
      this.fastFail := fastFail;
      this.stages := [] + stages;
      context := null;
      preCallbacks := [];
      postCallbacks := [];
    }

    constructor WithContextAndStages(context: ExecutionContext<V>, ref: nat, id: string, fastFail: bool, stages: seq<Node>)
      ensures this.ref == ref && this.id == id && this.fastFail == fastFail
      ensures this.stages == stages && this.context == context && preCallbacks == [] && postCallbacks == []
    {
      this.ref := ref;
      this.id := id;
      this.fastFail := fastFail;
      this.stages := [] + stages;
      this.context := context;
      preCallbacks := [];
      postCallbacks := [];
    }

    method SetContext(ctx: ExecutionContext?<V>)
      modifies this
      ensures context == ctx
      ensures fastFail == old(fastFail) && stages == old(stages)
      ensures preCallbacks == old(preCallbacks) && postCallbacks == old(postCallbacks)
    {
      context := ctx;
    }

    function GetContext(): ExecutionContext?<V>
      reads this
    {
      context
    }

    /** Appends one child at the end and returns this same pipeline. */
    method AddStage(n: Node) returns (self: Pipeline<V>)
      modifies this
      ensures self == this
      ensures stages == old(stages) + [n]
      ensures fastFail == old(fastFail) && context == old(context)
      ensures preCallbacks == old(preCallbacks) && postCallbacks == old(postCallbacks)
    {
      stages := stages + [n];
      self := this;
    }

    /** Appends the given children at the end, in order, and returns this same pipeline. */
    method AddStages(ns: seq<Node>) returns (self: Pipeline<V>)
      modifies this
      ensures self == this
      ensures stages == old(stages) + ns
      ensures fastFail == old(fastFail) && context == old(context)
      ensures preCallbacks == old(preCallbacks) && postCallbacks == old(postCallbacks)
    {
      stages := stages + ns;
      self := this;
    }

    function GetStages(): seq<Node>
      reads this
    {
      stages
    }

    method RegisterPreStageCallback(stageId: string, callback: nat)
      modifies this
      ensures preCallbacks == old(preCallbacks) + [Registration(stageId, callback)]
      ensures postCallbacks == old(postCallbacks)
      ensures fastFail == old(fastFail) && stages == old(stages) && context == old(context)
    {
      preCallbacks := preCallbacks + [Registration(stageId, callback)];
    }

    method RegisterPostStageCallback(stageId: string, callback: nat)
      modifies this
      ensures postCallbacks == old(postCallbacks) + [Registration(stageId, callback)]
      ensures preCallbacks == old(preCallbacks)
      ensures fastFail == old(fastFail) && stages == old(stages) && context == old(context)
    {
      postCallbacks := postCallbacks + [Registration(stageId, callback)];
    }

    /** Rejects a chain that repeats a child, else runs the children in list order under this pipeline's fast-fail. */
    method DoWork(ctx: ExecutionContext<V>) returns (t: Trace)
      modifies ctx
      ensures t == Work(AsNode())
      ensures ctx.eventLog == old(ctx.eventLog) + Events(t.steps)
      ensures ctx.status == old(ctx.status) && ctx.objects == old(ctx.objects)
    {
      t := Engine.DoWork(ctx, AsNode());
    }

    /**
     * `run(context)`: in progress, then `doWork`; success when it returns,
     * failure (after an EXCEPTION event showing the exception's `toString()`)
     * when it raises. Never raises itself.
     */
    method Run(ctx: ExecutionContext<V>)
      modifies ctx
      ensures ctx.status == Nodes.Run(AsNode()).status
      ensures ctx.eventLog == old(ctx.eventLog) + Events(Nodes.Run(AsNode()).steps)
      ensures ctx.objects == old(ctx.objects)
    {
      ctx.SetInProgress();
      var start := Event(id, PipelineInProgress, RunDetails(PipelineClass));
      ctx.CreateEvent(start.id, start.eventType, start.details);
      var w := DoWork(ctx);
      ghost var steps := [Logged(start)] + w.steps;
      EventsAppend([Logged(start)], w.steps);
      match w.outcome {
      case Returned =>
        ctx.SetSuccess();
        var done := Event(id, SuccessEvent, RunDetails(PipelineClass));
        ctx.CreateEvent(done.id, done.eventType, done.details);
        EventsAppend(steps, [Logged(done)]);
      case Raised(e) =>
        var thrown := Event(id, ExceptionEvent, Describe(e));
        ctx.CreateEvent(thrown.id, thrown.eventType, thrown.details);
        ctx.SetFailure();
        var done := Event(id, FailureEvent, RunDetails(PipelineClass));
        ctx.CreateEvent(done.id, done.eventType, done.details);
        EventsAppend(steps, [Logged(thrown), Logged(done)]);
        assert Events([Logged(thrown), Logged(done)]) == [thrown] + Events([Logged(done)]);
      }
    }

    /** `run()`: the same on a fresh context, which is returned. */
    method RunFresh() returns (ctx: ExecutionContext<V>)
      ensures fresh(ctx)
      ensures ctx.status == Nodes.Run(AsNode()).status
      ensures ctx.eventLog == Events(Nodes.Run(AsNode()).steps) && ctx.objects == map[]
    {
      ctx := new ExecutionContext();
      Run(ctx);
    }

    /**
     * `call()`, as a parallel or forked child is invoked: `doWork` on the
     * context handed to it. Without a context, a chain with a child followed
     * by itself still fails on its loop edge and a cyclic chain on its cycle
     * check, an empty pipeline returns, and any other fails on the null
     * context before logging anything.
     */
    method Call() returns (t: Trace)
      modifies context
      ensures context != null ==> t == Work(AsNode())
      ensures context != null ==> context.eventLog == old(context.eventLog) + Events(t.steps)
      ensures context != null ==> context.status == old(context.status) && context.objects == old(context.objects)
      ensures context == null ==>
        t == Trace([], if Graphs.AdjacentRepeat(stages) then Raised(LoopRefused)
                       else if !Graphs.Distinct(stages) then Raised(CycleDetected)
                       else if stages == [] then Returned else Raised(NullDereference))
    {
      if context == null {
        Graphs.ChainCycleIffRepeat(stages);
        if Graphs.AdjacentRepeat(stages) {
          t := Trace([], Raised(LoopRefused));
        } else if Graphs.HasCycle(Graphs.Chain(stages)) {
          t := Trace([], Raised(CycleDetected));
        } else if stages == [] {
          t := Trace([], Returned);
        } else {
          t := Trace([], Raised(NullDereference));
        }
      } else {
        t := DoWork(context);
      }
    }

    /**
     * This pipeline's subgraph, hung off `root` when there is one; returns
     * the end vertex, or the multigraph's message at the first loop edge.
     */
    method BuildGraph(graph: MultiGraph, root: Option<string>) returns (r: Result<string, string>)
      modifies graph
      requires graph.Valid() && (root.Some? ==> root.value in graph.vertices)
      ensures graph.Valid()
      ensures r.Ok? <==> Build(AsNode(), root, old(graph.Model())).Drawn?
      ensures r.Ok? ==> r.value == id + PipelineEndTag
      ensures r.Err? ==> r.error == LoopsNotAllowed
      ensures graph.Model() == Build(AsNode(), root, old(graph.Model())).graph
    {
      r := PipelineGraph.BuildGraph(graph, AsNode(), root);
    }

    /** `buildPiplineGraph`: the whole graph, drawn from scratch with no root, or the loop refusal. */
    method BuildPipelineGraph() returns (r: Result<MultiGraph, string>)
      ensures r.Ok? <==> Build(AsNode(), None, LGraph({}, [])).Drawn?
      ensures r.Ok? ==> fresh(r.value) && r.value.Valid() && r.value.Model() == Build(AsNode(), None, LGraph({}, [])).graph
      ensures r.Err? ==> r.error == LoopsNotAllowed
    {
      r := PipelineGraph.BuildPipelineGraph(AsNode());
    }
  }

  /** The node values of a list of child pipelines, in order. */
  function NodesOf<V>(ps: seq<Pipeline<V>>): (r: seq<Node>)
    reads set p | p in ps
    ensures |r| == |ps| && forall i :: 0 <= i < |ps| ==> r[i] == ps[i].AsNode()
  {
    if ps == [] then [] else [ps[0].AsNode()] + NodesOf(ps[1..])
  }

  /** Every listed child pipeline now holds `ctx`; nothing else about any child changed. */
  twostate predicate HandedOff<V>(ps: seq<Pipeline<V>>, ctx: ExecutionContext<V>)
    reads set p | p in ps
  {
    forall p :: p in ps ==>
      && p.context == ctx
      && p.fastFail == old(p.fastFail) && p.stages == old(p.stages)
      && p.preCallbacks == old(p.preCallbacks) && p.postCallbacks == old(p.postCallbacks)
  }

  /** The context hand-off loop of `Parallel.doWork` and `Fork.doWork`. */
  method HandOff<V>(ps: seq<Pipeline<V>>, ctx: ExecutionContext<V>)
    modifies set p | p in ps
    ensures HandedOff(ps, ctx)
    ensures NodesOf(ps) == old(NodesOf(ps))
  {
    var i := 0;
    while i < |ps|
      invariant 0 <= i <= |ps|
      invariant forall p :: p in ps[..i] ==> p.context == ctx
      invariant forall p :: p in ps ==>
        && p.fastFail == old(p.fastFail) && p.stages == old(p.stages)
        && p.preCallbacks == old(p.preCallbacks) && p.postCallbacks == old(p.postCallbacks)
    {
      ps[i].SetContext(ctx);
      assert ps[..i + 1] == ps[..i] + [ps[i]];
      i := i + 1;
    }
    assert ps[..i] == ps;
  }

  /**
   * Invokes every child pipeline once, in list order, each through `call()`
   * on the context it was handed; the outcome is the first child failure met.
   */
  method InvokeAll<V>(ps: seq<Pipeline<V>>, ctx: ExecutionContext<V>) returns (t: Trace)
    requires forall p :: p in ps ==> p.context == ctx
    modifies ctx
    ensures t == All(NodesOf(ps))
    ensures ctx.eventLog == old(ctx.eventLog) + Events(t.steps)
    ensures ctx.status == old(ctx.status) && ctx.objects == old(ctx.objects)
  {
    var s := NodesOf(ps);
    var steps: seq<Step> := [];
    var first := Returned;
    var i := 0;
    while i < |ps|
      invariant 0 <= i <= |ps| && Engine.AllSoFar(s, i, steps, first)
      invariant ctx.eventLog == old(ctx.eventLog) + Events(steps)
      invariant ctx.status == old(ctx.status) && ctx.objects == old(ctx.objects)
    {
      ghost var before := ctx.eventLog;
      var w := ps[i].Call();
      Engine.AllSoFarStep(s, i, steps, first);
      Engine.LogGrows(old(ctx.eventLog), before, ctx.eventLog, steps, w.steps);
      steps := steps + w.steps;
      if first == Returned {
        first := w.outcome;
      }
      i := i + 1;
    }
    assert s[i..] == [];
    t := Trace(steps, first);
  }

  /** Registers `r` with every listed child: a child listed `k` times receives it `k` times. */
  method ForwardPre<V>(ps: seq<Pipeline<V>>, r: Registration)
    modifies set p | p in ps
    ensures forall p :: p in ps ==>
      && p.preCallbacks == old(p.preCallbacks) + Repeat(r, multiset(ps)[p])
      && p.postCallbacks == old(p.postCallbacks)
      && p.fastFail == old(p.fastFail) && p.stages == old(p.stages) && p.context == old(p.context)
  {
    var i := 0;
    ghost var seen: multiset<Pipeline<V>> := multiset{};
    while i < |ps|
      invariant 0 <= i <= |ps| && seen == multiset(ps[..i])
      invariant forall p :: p in ps ==>
        && p.preCallbacks == old(p.preCallbacks) + Repeat(r, seen[p])
        && p.postCallbacks == old(p.postCallbacks)
        && p.fastFail == old(p.fastFail) && p.stages == old(p.stages) && p.context == old(p.context)
    {
      var q := ps[i];
      assert ps[..i + 1] == ps[..i] + [q];
      q.RegisterPreStageCallback(r.stageId, r.callback);
      seen := seen[q := seen[q] + 1];
      i := i + 1;
    }
    assert ps[..i] == ps;
  }

  /** As `ForwardPre`, for post-stage callbacks. */
  method ForwardPost<V>(ps: seq<Pipeline<V>>, r: Registration)
    modifies set p | p in ps
    ensures forall p :: p in ps ==>
      && p.postCallbacks == old(p.postCallbacks) + Repeat(r, multiset(ps)[p])
      && p.preCallbacks == old(p.preCallbacks)
      && p.fastFail == old(p.fastFail) && p.stages == old(p.stages) && p.context == old(p.context)
  {
    var i := 0;
    ghost var seen: multiset<Pipeline<V>> := multiset{};
    while i < |ps|
      invariant 0 <= i <= |ps| && seen == multiset(ps[..i])
      invariant forall p :: p in ps ==>
        && p.postCallbacks == old(p.postCallbacks) + Repeat(r, seen[p])
        && p.preCallbacks == old(p.preCallbacks)
        && p.fastFail == old(p.fastFail) && p.stages == old(p.stages) && p.context == old(p.context)
    {
      var q := ps[i];
      assert ps[..i + 1] == ps[..i] + [q];
      q.RegisterPostStageCallback(r.stageId, r.callback);
      seen := seen[q := seen[q] + 1];
      i := i + 1;
    }
    assert ps[..i] == ps;
  }

  /** Child pipelines run side by side on one shared context. */
  class Parallel<V> {
    const ref: nat
    const id: string
    var pipelines: seq<Pipeline<V>>
    var preCallbacks: seq<Registration>
    var postCallbacks: seq<Registration>

    function AsNode(): Node
      reads this, set p | p in pipelines
    {
      Par(ref, id, NodesOf(pipelines))
    }

    constructor (ref: nat, id: string)
      ensures this.ref == ref && this.id == id
      ensures pipelines == [] && preCallbacks == [] && postCallbacks == []
    {
      this.ref := ref;
      this.id := id;
      pipelines := [];
      preCallbacks := [];
      postCallbacks := [];
    }

    /** Appends one child pipeline and returns this same object. */
    method AddParallelPipeline(p: Pipeline<V>) returns (self: Parallel<V>)
      modifies this
      ensures self == this && pipelines == old(pipelines) + [p]
      ensures preCallbacks == old(preCallbacks) && postCallbacks == old(postCallbacks)
    {
      pipelines := pipelines + [p];
      self := this;
    }

    /** Appends the given child pipelines in order and returns this same object. */
    method AddParallelPipelines(ps: seq<Pipeline<V>>) returns (self: Parallel<V>)
      modifies this
      ensures self == this && pipelines == old(pipelines) + ps
      ensures preCallbacks == old(preCallbacks) && postCallbacks == old(postCallbacks)
    {
      pipelines := pipelines + ps;
      self := this;
    }

    function GetParallelPipelines(): seq<Pipeline<V>>
      reads this
    {
      pipelines
    }

    /**
     * Hands `ctx` to every child, runs them all, and raises when any child
     * raised (the first failing future's exception, wrapped).
     */
    method DoWork(ctx: ExecutionContext<V>) returns (t: Trace)
      modifies ctx, set p | p in pipelines
      ensures HandedOff(pipelines, ctx)
      ensures t == old(Work(AsNode()))
      ensures t.outcome.Raised? <==> exists k :: 0 <= k < |pipelines| && old(Work(pipelines[k].AsNode())).outcome.Raised?
      ensures ctx.eventLog == old(ctx.eventLog) + Events(t.steps)
      ensures ctx.status == old(ctx.status) && ctx.objects == old(ctx.objects)
    {
      ghost var nodes := NodesOf(pipelines);
      assert Work(AsNode()) == Trace(All(nodes).steps, ParallelOutcome(All(nodes).outcome));
      assert forall k :: 0 <= k < |pipelines| ==> nodes[k] == pipelines[k].AsNode();
      AllRaisesIffSomeChildRaises(nodes);
      HandOff(pipelines, ctx);
      var all := InvokeAll(pipelines, ctx);
      t := Trace(all.steps, ParallelOutcome(all.outcome));
    }

    /** Registers the callback here and forwards the registration to every child. */
    method RegisterPreStageCallback(stageId: string, callback: nat)
      modifies this, set p | p in pipelines
      ensures preCallbacks == old(preCallbacks) + [Registration(stageId, callback)]
      ensures postCallbacks == old(postCallbacks) && pipelines == old(pipelines)
      ensures forall p :: p in pipelines ==>
        && p.preCallbacks == old(p.preCallbacks) + Repeat(Registration(stageId, callback), multiset(pipelines)[p])
        && p.postCallbacks == old(p.postCallbacks)
        && p.fastFail == old(p.fastFail) && p.stages == old(p.stages) && p.context == old(p.context)
    {
      preCallbacks := preCallbacks + [Registration(stageId, callback)];
      ForwardPre(pipelines, Registration(stageId, callback));
    }

    method RegisterPostStageCallback(stageId: string, callback: nat)
      modifies this, set p | p in pipelines
      ensures postCallbacks == old(postCallbacks) + [Registration(stageId, callback)]
      ensures preCallbacks == old(preCallbacks) && pipelines == old(pipelines)
      ensures forall p :: p in pipelines ==>
        && p.postCallbacks == old(p.postCallbacks) + Repeat(Registration(stageId, callback), multiset(pipelines)[p])
        && p.preCallbacks == old(p.preCallbacks)
        && p.fastFail == old(p.fastFail) && p.stages == old(p.stages) && p.context == old(p.context)
    {
      postCallbacks := postCallbacks + [Registration(stageId, callback)];
      ForwardPost(pipelines, Registration(stageId, callback));
    }

    /** The Parallel subgraph hung off `root`: start and end tags with every child fanned out between them, or the first loop refusal. */
    method BuildGraph(graph: MultiGraph, root: string) returns (r: Result<string, string>)
      modifies graph
      requires graph.Valid() && root in graph.vertices
      ensures graph.Valid()
      ensures r.Ok? <==> Build(AsNode(), Some(root), old(graph.Model())).Drawn?
      ensures r.Ok? ==> r.value == id + ParallelEndTag
      ensures r.Err? ==> r.error == LoopsNotAllowed
      ensures graph.Model() == Build(AsNode(), Some(root), old(graph.Model())).graph
    {
      r := PipelineGraph.BuildGraph(graph, AsNode(), Some(root));
    }
  }

  /** Child pipelines started on one shared context; the fork never reports a child's failure. */
  class Fork<V> {
    const ref: nat
    const id: string
    var pipelines: seq<Pipeline<V>>

    function AsNode(): Node
      reads this, set p | p in pipelines
    {
      Nodes.Fork(ref, id, NodesOf(pipelines))
    }

    constructor (ref: nat, id: string)
      ensures this.ref == ref && this.id == id && pipelines == []
    {
      this.ref := ref;
      this.id := id;
      pipelines := [];
    }

    /** The list constructor copies the given pipelines, in order. */
    constructor WithPipelines(ref: nat, id: string, ps: seq<Pipeline<V>>)
      ensures this.ref == ref && this.id == id && pipelines == ps
    {
      this.ref := ref;
      this.id := id;
      pipelines := [] + ps;
    }

    method AddPipeline(p: Pipeline<V>) returns (self: Fork<V>)
      modifies this
      ensures self == this && pipelines == old(pipelines) + [p]
    {
      pipelines := pipelines + [p];
      self := this;
    }

    method AddPipelines(ps: seq<Pipeline<V>>) returns (self: Fork<V>)
      modifies this
      ensures self == this && pipelines == old(pipelines) + ps
    {
      pipelines := pipelines + ps;
      self := this;
    }

    /** Hands `ctx` to every child, runs them all, and returns whatever they did. */
    method DoWork(ctx: ExecutionContext<V>) returns (t: Trace)
      modifies ctx, set p | p in pipelines
      ensures HandedOff(pipelines, ctx)
      ensures t == old(Work(AsNode())) && t.outcome == Returned
      ensures t.steps == old(All(NodesOf(pipelines))).steps
      ensures ctx.eventLog == old(ctx.eventLog) + Events(t.steps)
      ensures ctx.status == old(ctx.status) && ctx.objects == old(ctx.objects)
    {
      HandOff(pipelines, ctx);
      var all := InvokeAll(pipelines, ctx);
      t := Trace(all.steps, Returned);
    }

    /** The Fork subgraph hung off `root`: start and end tags with every child fanned out between them, or the first loop refusal. */
    method BuildGraph(graph: MultiGraph, root: string) returns (r: Result<string, string>)
      modifies graph
      requires graph.Valid() && root in graph.vertices
      ensures graph.Valid()
      ensures r.Ok? <==> Build(AsNode(), Some(root), old(graph.Model())).Drawn?
      ensures r.Ok? ==> r.value == id + ForkEndTag
      ensures r.Err? ==> r.error == LoopsNotAllowed
      ensures graph.Model() == Build(AsNode(), Some(root), old(graph.Model())).graph
    {
      r := PipelineGraph.BuildGraph(graph, AsNode(), Some(root));
    }
  }
}
