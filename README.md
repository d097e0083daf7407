# Pipeline engine and saga participant, modelled in Dafny

This project models the core of a Java pipeline library and its saga participant, and proves properties of that model.

**Running pipelines.** A pipeline is an ordered list of stage wrappers. It checks that its chain of children has no cycle and runs the children in order through a stage runner. The runner calls the lifecycle hooks and callbacks and logs CALLING_STAGE, CALLED_STAGE and EXCEPTION events in an execution context. Fast-fail decides whether a failing child ends the run. A Parallel runs all of its child pipelines and fails when one of them fails. A Fork runs all of its children and ignores their outcome. `run` wraps `doWork` with the PIPELINE_IN_PROGRESS, SUCCESS, EXCEPTION and FAILURE events and sets the context's status.

**Building pipelines.** A builder reads a pipeline specification: stage definitions, parallel definitions with numbered parallel pipelines, and top-level steps. It then runs a bootstrap pipeline of two stages:
- a validator, which is itself a fast-fail pipeline of six checks;
- a generator, which rejects cyclic id graphs, builds one vertex per declared id, wires pipelines and parallels, and stores the root pipeline in the context.

A template builder assembles specification templates from scanned annotations. A saga participant registers transactions under unique names and dispatches requests to them.

**How the model is organised.**
- `Nodes` gives the meaning of execution as pure functions. A node tree yields a trace: the hooks called and events logged, in order, and whether the call returns or raises. A user stage is seen only through its outcome: its class name and the exception its `doWork` raises, if any.
- `Engine` and the classes in `Containers` are imperative. Their methods are proved to append exactly the events of that trace to an `ExecutionContext` object.
- `Graphs` defines reachability, cycles and topological orders. It proves three facts about a pipeline's chain graph. It holds a loop edge exactly when a child is immediately followed by itself. It is cyclic exactly when a child object repeats. Its only topological order is list order.
- `PipelineGraph` models `buildGraph` on a mutable multigraph.
- `Specification`, `Validator`, `Generator`, `Builder` and `SpecTemplates` model building, with each check's verdict stated in both directions.
- `Saga` models the participant's registry.
- `BuilderContext` holds the object-store keys.

Java `null` strings are the empty string; the validator treats both alike. Where a null id is printed into a name, the names differ from Java's: the validation pipeline of a null id is named "validate: " where Java writes "validate: null", and a parallel pipeline id gets the prefix "" where Java writes "null" ("[0]" for "null[0]"). A Java object's identity is the `ref` field of a node value.

## Model

| member | source | states |
|---|---|---|
| Context.EventIdWithinPrefix | Pipeline/src/main/java/org/dplevine/patterns/pipeline/ExecutionContext.java:66-72 | An enclosing id that starts with the event's own id is always returned unchanged. |
| Context.EventIdWithinSuffix | Pipeline/src/main/java/org/dplevine/patterns/pipeline/ExecutionContext.java:66-72 | An enclosing id that ends with the event's id is also returned unchanged: `contains` matches at any position, not only at the front. |
| Context.EventIdWithinShorter | Pipeline/src/main/java/org/dplevine/patterns/pipeline/ExecutionContext.java:66-72 | An enclosing id shorter than the event's id cannot contain it, so the empty string comes back. |
| Context.StageEvents | Pipeline/src/main/java/org/dplevine/patterns/pipeline/ExecutionContext.java:152-156 | An entry is kept exactly when it is in the log and carries the requested id; never more entries than the log. |
| Context.ExceptionEvents | Pipeline/src/main/java/org/dplevine/patterns/pipeline/ExecutionContext.java:146-150 | An entry is kept exactly when it is in the log and has type EXCEPTION. |
| Context.StageEventsAppend | Pipeline/src/main/java/org/dplevine/patterns/pipeline/ExecutionContext.java:152-156 | Filtering a concatenated log is filtering each part and concatenating, so kept entries stay in log order. |
| Context.ExceptionEventsAppend | Pipeline/src/main/java/org/dplevine/patterns/pipeline/ExecutionContext.java:146-150 | The same order-preservation property for the EXCEPTION filter. |
| Context.LastOfStageEvents | Pipeline/src/main/java/org/dplevine/patterns/pipeline/ExecutionContext.java:158-167 | The latest log entry about an id is the last entry of that id's filtered events. |
| Context.NoStageEvents | Pipeline/src/main/java/org/dplevine/patterns/pipeline/ExecutionContext.java:152-156 | A log with no entry about an id filters to the empty list. |
| Context.ExecutionContext.constructor | Pipeline/src/main/java/org/dplevine/patterns/pipeline/ExecutionContext.java:22-26 | A new context has status UNDEFINED, an empty object store and an empty log. |
| Context.ExecutionContext.CreateEvent | Pipeline/src/main/java/org/dplevine/patterns/pipeline/ExecutionContext.java:93-96 | Exactly one event (id, type, details) is appended to the log; status and store are unchanged. |
| Context.ExecutionContext.AddObject | Pipeline/src/main/java/org/dplevine/patterns/pipeline/ExecutionContext.java:106-108 | The store maps the key to the new value, replacing any earlier one; nothing else changes. |
| Context.ExecutionContext.ClearAllObjects | Pipeline/src/main/java/org/dplevine/patterns/pipeline/ExecutionContext.java:110-112 | The store becomes empty; status and log are unchanged. |
| Context.ExecutionContext.GetObject | Pipeline/src/main/java/org/dplevine/patterns/pipeline/ExecutionContext.java:114-116 | A value is returned exactly when the key is stored, and it is the stored value; otherwise null. |
| Context.ExecutionContext.SetFailure | Pipeline/src/main/java/org/dplevine/patterns/pipeline/ExecutionContext.java:132-134 | Status becomes FAILURE; store and log are unchanged. |
| Context.ExecutionContext.SetSuccess | Pipeline/src/main/java/org/dplevine/patterns/pipeline/ExecutionContext.java:136-138 | Status becomes SUCCESS; store and log are unchanged. |
| Context.ExecutionContext.SetInProgress | Pipeline/src/main/java/org/dplevine/patterns/pipeline/ExecutionContext.java:140 | Status becomes IN_PROGRESS; store and log are unchanged. |
| Context.ExecutionContext.GetExceptionEvents | Pipeline/src/main/java/org/dplevine/patterns/pipeline/ExecutionContext.java:146-150 | Returns exactly the log entries of type EXCEPTION. |
| Context.ExecutionContext.GetStageEvents | Pipeline/src/main/java/org/dplevine/patterns/pipeline/ExecutionContext.java:152-156 | Returns exactly the log entries about the given id. |
| Context.ExecutionContext.GetLastStageEvent | Pipeline/src/main/java/org/dplevine/patterns/pipeline/ExecutionContext.java:158-167 | The backward scan returns null exactly when no entry has the id; otherwise the latest entry with that id. |
| Context.ExactlyOneStatus | Pipeline/src/main/java/org/dplevine/patterns/pipeline/ExecutionContext.java:118-130 | Exactly one of the four status tests holds for any context. |
| Nodes.ClassName | Pipeline/src/main/java/org/dplevine/patterns/pipeline/StageWrapper.java:29-31 | A class name exists except for a leaf wrapper built without a stage; for a leaf it is its stage's class name. |
| Nodes.Run | Pipeline/src/main/java/org/dplevine/patterns/pipeline/Pipeline.java:144-158 | The run succeeds exactly when doWork returns and fails exactly when it raises. The first event is PIPELINE_IN_PROGRESS; the last is SUCCESS or FAILURE. A failure is preceded by an EXCEPTION event whose details are the raised exception's `toString()`: its class name, then ": " and its message when it has one. |
| Nodes.RunnerLifecycle | Pipeline/src/main/java/org/dplevine/patterns/pipeline/StageRunner.java:18-43 | init and pre-callbacks come first; post-callbacks (success or error kind) and close come last, on both paths. A missing stage raises a NullPointerException. A stage that raised is rethrown under fast-fail as a PipelineExecutionException with the same message, and swallowed otherwise. |
| Nodes.ChainStepOutcome | Pipeline/src/main/java/org/dplevine/patterns/pipeline/Pipeline.java:116-134 | One loop iteration raises exactly for a child without a stage (a NullPointerException, nothing logged) or a child that raised under fast-fail. The rethrown exception is an ExecutionException whose message is the runner's exception's `toString()`. |
| Nodes.RunnerEvents | Pipeline/src/main/java/org/dplevine/patterns/pipeline/StageRunner.java:18-43 | The runner logs CALLING_STAGE, then the stage's own events, then exactly one CALLED_STAGE or EXCEPTION event. The EXCEPTION details are the class name, ": " and the exception's message ("null" when it has none). |
| Nodes.ChainStepEvents | Pipeline/src/main/java/org/dplevine/patterns/pipeline/Pipeline.java:116-134 | A loop iteration logs CALLING_STAGE, the runner's events, then CALLED_STAGE, or EXCEPTION when the failure is re-raised under fast-fail. The EXCEPTION details are the class name followed directly by the runner's exception's message. |
| Nodes.FirstRaise | Pipeline/src/main/java/org/dplevine/patterns/pipeline/Pipeline.java:116-134 | Names the first child whose iteration raises: every earlier child returned. |
| Nodes.ChainRunsUpToFirstRaise | Pipeline/src/main/java/org/dplevine/patterns/pipeline/Pipeline.java:98-136 | Children run in list order, each wholly before the next, up to and including the first that raises. The loop raises exactly when such a child exists, and then with that child's exception. |
| Nodes.FailFastStopsAtFirstFailure | Pipeline/src/main/java/org/dplevine/patterns/pipeline/Pipeline.java:125-132 | Under fast-fail the first failing child ends the loop, which raises; no later child runs. |
| Nodes.ChainStopsAt | Pipeline/src/main/java/org/dplevine/patterns/pipeline/Pipeline.java:125-132 | The loop stops with a raise at the first raising iteration, having run exactly the children up to it. |
| Nodes.FirstFailureRaises | Pipeline/src/main/java/org/dplevine/patterns/pipeline/Pipeline.java:125-132 | Under fast-fail the first failing child is where the loop stops. |
| Nodes.ContinueRunsEveryChild | Pipeline/src/main/java/org/dplevine/patterns/pipeline/Pipeline.java:125-133 | Without fast-fail every child runs and the loop returns, provided every child has a stage. |
| Nodes.AllRaisesIffSomeChildRaises | Pipeline/src/main/java/org/dplevine/patterns/pipeline/Parallel.java:72-90 | The children, run in list order, raise exactly when one of them raised, and then with the first raising child's exception. |
| Nodes.ParallelRaisesFirstFailure | Pipeline/src/main/java/org/dplevine/patterns/pipeline/Parallel.java:72-90 | A Parallel raises exactly when one of its child pipelines raised. The first such child's exception is wrapped by `future.get` in an ExecutionException, then by doWork in a PipelineExecutionException whose message is the ExecutionException's message, which is that child's exception's `toString()`. |
| Nodes.PipelineChecksCycleFirst | Pipeline/src/main/java/org/dplevine/patterns/pipeline/Pipeline.java:98-117 | A pipeline whose chain graph would hold a loop edge raises the multigraph's IllegalArgumentException "loops not allowed" before running anything. A loop-free chain graph with a cycle raises the "must be acyclic" exception before running anything. An acyclic one runs its chain, and the only topological order of that graph is list order. |
| Nodes.LeafIterationEvents | Pipeline/src/main/java/org/dplevine/patterns/pipeline/Pipeline.java:116-134 | The exact four events a leaf child logs in one iteration, for each combination of failure and fast-fail, with the stage exception's message in the runner's EXCEPTION event and in the loop's. |
| Nodes.RunEvents | Pipeline/src/main/java/org/dplevine/patterns/pipeline/Pipeline.java:144-158 | A run logs PIPELINE_IN_PROGRESS, then everything doWork logged, then SUCCESS, or EXCEPTION (carrying the exception's `toString()`) and FAILURE. |
| Nodes.FailFastScenario | Pipeline/src/main/java/org/dplevine/patterns/pipeline/Pipeline.java:98-158 | Fast-fail pipeline [A, B] with A raising IllegalStateException("boom"): the exact event log, with "StageA: boom", "StageAboom" and the doubly wrapped exception text; B never runs, and the status is FAILURE. |
| Nodes.ContinueScenario | Pipeline/src/main/java/org/dplevine/patterns/pipeline/Pipeline.java:98-158 | The same pipeline without fast-fail: A's failure is logged as "StageA: boom", B runs, and the status is SUCCESS. |
| Engine.DoWork | Pipeline/src/main/java/org/dplevine/patterns/pipeline/StageWrapper.java:41-43 | doWork of any node returns the trace Work specifies and appends exactly its events to the context log. For a pipeline that is first the loop-edge error, then the cycle error, then its chain. The framework itself adds nothing to the store or status; a stage's own writes are not modelled. |
| Engine.RunChain | Pipeline/src/main/java/org/dplevine/patterns/pipeline/Pipeline.java:116-134 | The loop over an acyclic pipeline's children returns the Chain trace and logs exactly its events. |
| Engine.RunAll | Pipeline/src/main/java/org/dplevine/patterns/pipeline/Parallel.java:79-84 | Every child pipeline's doWork in order; returns the All trace and logs exactly its events. |
| Engine.RunStage | Pipeline/src/main/java/org/dplevine/patterns/pipeline/StageRunner.java:18-43 | StageRunner.run returns the Runner trace and logs exactly its events. |
| Engine.PipelineStep | Pipeline/src/main/java/org/dplevine/patterns/pipeline/Pipeline.java:117-133 | One loop iteration returns the ChainStep trace and logs exactly its events. |
| Containers.StageWrapper.constructor | Pipeline/src/main/java/org/dplevine/patterns/pipeline/StageWrapper.java:12-14 | A wrapper built from an id alone has that id and no inner stage. |
| Containers.StageWrapper.WithStage | Pipeline/src/main/java/org/dplevine/patterns/pipeline/StageWrapper.java:16-19 | A wrapper built from an id and a stage holds both. |
| Containers.StageWrapper.GetStageClassName | Pipeline/src/main/java/org/dplevine/patterns/pipeline/StageWrapper.java:29-31 | Returns a class name exactly when there is an inner stage, and it is that stage's class name. |
| Containers.StageWrapper.DoWork | Pipeline/src/main/java/org/dplevine/patterns/pipeline/StageWrapper.java:41-43 | Delegates to the inner stage: raises exactly when the stage raises or is missing; logs nothing itself. |
| Containers.StageWrapper.BuildGraph | Pipeline/src/main/java/org/dplevine/patterns/pipeline/StageWrapper.java:45-49 | Adds the vertex id and the edge root -> id, and returns id. When root is id itself the multigraph refuses the loop: the vertex stays added, no edge is drawn, and the "loops not allowed" error comes back. |
| Containers.Pipeline.constructor | Pipeline/src/main/java/org/dplevine/patterns/pipeline/Pipeline.java:44-46 | A new pipeline has the id, fast-fail on, no children, no context, no callbacks. |
| Containers.Pipeline.WithFastFail | Pipeline/src/main/java/org/dplevine/patterns/pipeline/Pipeline.java:48-51 | As above, with the given fast-fail flag. |
| Containers.Pipeline.WithContext | Pipeline/src/main/java/org/dplevine/patterns/pipeline/Pipeline.java:53-57 | As above, also holding the given context. |
| Containers.Pipeline.WithStages | Pipeline/src/main/java/org/dplevine/patterns/pipeline/Pipeline.java:59-63 | As above, with the given children in order. |
| Containers.Pipeline.WithContextAndStages | Pipeline/src/main/java/org/dplevine/patterns/pipeline/Pipeline.java:65-70 | As above, with both a context and the children. |
| Containers.Pipeline.SetContext | Pipeline/src/main/java/org/dplevine/patterns/pipeline/Pipeline.java:73-75 | Only the context changes. |
| Containers.Pipeline.AddStage | Pipeline/src/main/java/org/dplevine/patterns/pipeline/Pipeline.java:82-85 | The child is appended at the end; the same pipeline is returned; nothing else changes. |
| Containers.Pipeline.AddStages | Pipeline/src/main/java/org/dplevine/patterns/pipeline/Pipeline.java:87-90 | The children are appended in order; the same pipeline is returned. |
| Containers.Pipeline.RegisterPreStageCallback | Pipeline/src/main/java/org/dplevine/patterns/pipeline/Parallel.java:94 | The registration is appended to this pipeline's pre-stage callbacks only. This is the base behaviour that `super.registerPreStageCallback` reaches; its definition is not part of this model, so it is assumed. |
| Containers.Pipeline.RegisterPostStageCallback | Pipeline/src/main/java/org/dplevine/patterns/pipeline/Parallel.java:100 | The registration is appended to this pipeline's post-stage callbacks only. This is the base behaviour that `super.registerPostStageCallback` reaches; its definition is not part of this model, so it is assumed. |
| Containers.Pipeline.DoWork | Pipeline/src/main/java/org/dplevine/patterns/pipeline/Pipeline.java:98-136 | Returns the Work trace of this pipeline and logs exactly its events: "loops not allowed" when a child is immediately followed by itself, else the cycle exception when a child occurs twice, else the chain under its own fast-fail. |
| Containers.Pipeline.Run | Pipeline/src/main/java/org/dplevine/patterns/pipeline/Pipeline.java:144-158 | The context ends with the status Run specifies and gains exactly Run's events; the framework itself adds nothing to the store, and a stage's own writes are not modelled; run never raises. |
| Containers.Pipeline.RunFresh | Pipeline/src/main/java/org/dplevine/patterns/pipeline/Pipeline.java:138-142 | run() on a fresh context: its status and log are exactly those of Run, and its store is empty. |
| Containers.Pipeline.Call | Pipeline/src/main/java/org/dplevine/patterns/pipeline/Pipeline.java:162-164 | With a context, doWork on it. Without one, a pipeline with a child immediately followed by itself raises "loops not allowed", one with a child repeated further apart raises the cycle exception, an empty pipeline returns, and any other raises a NullPointerException; nothing is logged. |
| Containers.Pipeline.BuildGraph | Pipeline/src/main/java/org/dplevine/patterns/pipeline/Pipeline.java:167-185 | The graph grows exactly as Build specifies. The end tag vertex is returned exactly when Build draws the subgraph; otherwise the "loops not allowed" error comes back. |
| Containers.Pipeline.BuildPipelineGraph | Pipeline/src/main/java/org/dplevine/patterns/pipeline/Pipeline.java:187-191 | A fresh graph holding exactly what Build draws with no root, when Build draws it; otherwise the "loops not allowed" error. |
| Containers.HandOff | Pipeline/src/main/java/org/dplevine/patterns/pipeline/Parallel.java:74 | Every child pipeline now holds the given context; their node values are unchanged. |
| Containers.InvokeAll | Pipeline/src/main/java/org/dplevine/patterns/pipeline/Parallel.java:79-84 | Each child is invoked once, in list order, on the context it holds. Returns the All trace of the children and logs exactly its events. |
| Containers.ForwardPre | Pipeline/src/main/java/org/dplevine/patterns/pipeline/Parallel.java:95 | Every listed child receives the pre-stage registration once per occurrence in the list; nothing else of theirs changes. |
| Containers.ForwardPost | Pipeline/src/main/java/org/dplevine/patterns/pipeline/Parallel.java:101 | The same for post-stage registrations. |
| Containers.Parallel.constructor | Pipeline/src/main/java/org/dplevine/patterns/pipeline/Parallel.java:31-33 | A new Parallel has the id, no child pipelines and no callbacks. |
| Containers.Parallel.AddParallelPipeline | Pipeline/src/main/java/org/dplevine/patterns/pipeline/Parallel.java:35-38 | The pipeline is appended; the same object is returned. |
| Containers.Parallel.AddParallelPipelines | Pipeline/src/main/java/org/dplevine/patterns/pipeline/Parallel.java:41-44 | The pipelines are appended in order; the same object is returned. |
| Containers.Parallel.DoWork | Pipeline/src/main/java/org/dplevine/patterns/pipeline/Parallel.java:72-90 | Every child is handed the context and run. The result raises exactly when some child raised, and the log gains exactly the children's events. |
| Containers.Parallel.RegisterPreStageCallback | Pipeline/src/main/java/org/dplevine/patterns/pipeline/Parallel.java:93-96 | Registers here and forwards to every child pipeline. |
| Containers.Parallel.RegisterPostStageCallback | Pipeline/src/main/java/org/dplevine/patterns/pipeline/Parallel.java:99-102 | Registers here and forwards to every child pipeline. |
| Containers.Parallel.BuildGraph | Pipeline/src/main/java/org/dplevine/patterns/pipeline/Parallel.java:106-115 | The graph grows exactly as Build specifies for the Parallel tags and fan. The end tag is returned exactly when Build draws it; otherwise the "loops not allowed" error. |
| Containers.Fork.constructor | Pipeline/src/main/java/org/dplevine/patterns/pipeline/Fork.java:22-24 | A new Fork has the id and no pipelines. |
| Containers.Fork.WithPipelines | Pipeline/src/main/java/org/dplevine/patterns/pipeline/Fork.java:26-29 | The list constructor copies the given pipelines in order. |
| Containers.Fork.AddPipeline | Pipeline/src/main/java/org/dplevine/patterns/pipeline/Fork.java:31-34 | The pipeline is appended; the same object is returned. |
| Containers.Fork.AddPipelines | Pipeline/src/main/java/org/dplevine/patterns/pipeline/Fork.java:37-40 | The pipelines are appended in order; the same object is returned. |
| Containers.Fork.DoWork | Pipeline/src/main/java/org/dplevine/patterns/pipeline/Fork.java:56-70 | Every child is handed the context and run. The Fork itself always returns, and the log gains exactly the children's events. |
| Containers.Fork.BuildGraph | Pipeline/src/main/java/org/dplevine/patterns/pipeline/Fork.java:73-85 | The graph grows exactly as Build specifies for the Fork tags and fan. The end tag is returned exactly when Build draws it; otherwise the "loops not allowed" error. |
| Graphs.Closure | Pipeline/src/main/java/org/dplevine/patterns/pipeline/Pipeline.java:109 | The least successor-closed superset of the seed within the graph's vertices (the reachability the cycle detector relies on). |
| Graphs.ClosureLeast | Pipeline/src/main/java/org/dplevine/patterns/pipeline/Pipeline.java:109 | The closure lies inside every successor-closed superset of its seed. |
| Graphs.ClosureSound | Pipeline/src/main/java/org/dplevine/patterns/pipeline/Pipeline.java:109 | Everything in a closure seeded with vertices reachable from u is reachable from u. |
| Graphs.ReachPlusIffReaches | Pipeline/src/main/java/org/dplevine/patterns/pipeline/Pipeline.java:109 | The computed reach set is exactly the vertices reachable by a non-empty path. |
| Graphs.HasCycleIffClosedPath | Pipeline/src/main/java/org/dplevine/patterns/pipeline/PipelineGenerator.java:84 | The cycle detector answers yes exactly when some vertex reaches itself. |
| Graphs.HasCycleMonotone | Pipeline/src/main/java/org/dplevine/patterns/pipeline/PipelineGenerator.java:84 | Adding edges never removes a cycle. |
| Graphs.ChainCycleIffRepeat | Pipeline/src/main/java/org/dplevine/patterns/pipeline/Pipeline.java:100-111 | The chain graph over a pipeline's children has a cycle exactly when some child object occurs twice. |
| Graphs.ChainLoopIffAdjacentRepeat | Pipeline/src/main/java/org/dplevine/patterns/pipeline/Pipeline.java:103-105 | The chain graph holds a loop edge exactly when some child is immediately followed by the same object, and such a repeat means the children are not distinct. |
| Graphs.ChainTopologicalOrderIsListOrder | Pipeline/src/main/java/org/dplevine/patterns/pipeline/Pipeline.java:115-117 | Over distinct children, the only topological order of the chain graph is the list order. |
| PipelineGraph.Build | Pipeline/src/main/java/org/dplevine/patterns/pipeline/Pipeline.java:167-185 | A drawing that succeeds returns its node's end vertex (the wrapper id, or the end tag). A drawing stops at the first edge whose two ends coincide, which the multigraph refuses. |
| PipelineGraph.BuildGrows | Pipeline/src/main/java/org/dplevine/patterns/pipeline/Parallel.java:106-115 | Drawing only adds vertices and edges, keeps every edge between present vertices and never draws a loop, whether it succeeds or is refused. A root equal to the node's entry vertex is refused. A successful drawing adds the entry and end vertices and first links the root to the entry. |
| PipelineGraph.ChainGrows | Pipeline/src/main/java/org/dplevine/patterns/pipeline/Pipeline.java:179-181 | Drawing a chain keeps the graph closed and loopless. On success, child 0 hangs off the start vertex and child k off child k-1's end, and the loop returns the last child's end, or the start when there are no children. |
| PipelineGraph.FanGrows | Pipeline/src/main/java/org/dplevine/patterns/pipeline/Fork.java:80-82 | Drawing a fan keeps the graph closed and loopless. On success every child hangs off the start tag and each child's end is linked to the end tag. |
| PipelineGraph.PipelineGraphShape | Pipeline/src/main/java/org/dplevine/patterns/pipeline/Pipeline.java:187-191 | The top-level graph never holds a loop, and every edge joins present vertices. When drawing succeeds it holds both tags, the children are threaded in order, and the last edge closes into the end tag. |
| PipelineGraph.LeafChainDrawnIff | Pipeline/src/main/java/org/dplevine/patterns/pipeline/Pipeline.java:179-181 | A chain of leaf wrappers is drawn exactly when no child's id equals the vertex it hangs off. |
| PipelineGraph.LeafPipelineDrawnIff | Pipeline/src/main/java/org/dplevine/patterns/pipeline/Pipeline.java:187-191 | The graph of a pipeline of leaf wrappers is drawn exactly when no two neighbouring children share an id, the first child's id is not the start tag and the last child's id is not the end tag. |
| PipelineGraph.MultiGraph.constructor | Pipeline/src/main/java/org/dplevine/patterns/pipeline/Pipeline.java:188 | A new graph is empty. |
| PipelineGraph.MultiGraph.AddVertex | Pipeline/src/main/java/org/dplevine/patterns/pipeline/Pipeline.java:170-171 | The vertex set gains the vertex; edges are unchanged. |
| PipelineGraph.MultiGraph.AddEdge | Pipeline/src/main/java/org/dplevine/patterns/pipeline/Pipeline.java:177 | An edge between two present, distinct vertices is appended, and parallel edges are allowed. An edge from a vertex to itself is refused and leaves the graph as it was. |
| PipelineGraph.BuildGraph | Pipeline/src/main/java/org/dplevine/patterns/pipeline/Pipeline.java:167-185 | Grows the graph in place exactly as Build specifies. It returns the end vertex exactly when Build draws the subgraph, and otherwise the "loops not allowed" error. |
| PipelineGraph.BuildFanGraph | Pipeline/src/main/java/org/dplevine/patterns/pipeline/Parallel.java:106-115 | The shared Parallel/Fork drawing grows the graph exactly as Build specifies, and fails exactly when Build is refused. |
| PipelineGraph.BuildFanChildren | Pipeline/src/main/java/org/dplevine/patterns/pipeline/Parallel.java:113 | The Parallel/Fork loop grows the graph exactly as BuildFan specifies and returns the end vertex exactly when BuildFan draws every child; otherwise the "loops not allowed" error. |
| PipelineGraph.BuildPipelineGraph | Pipeline/src/main/java/org/dplevine/patterns/pipeline/Pipeline.java:187-191 | A fresh graph holding exactly what Build draws with no root, when Build draws it; otherwise the "loops not allowed" error. |
| Specification.NatToString | Pipeline/src/main/java/org/dplevine/patterns/pipeline/PipelineSpecification.java:86 | An int is written with at least one digit, and with one digit exactly below 10. |
| Specification.NatToStringInjective | Pipeline/src/main/java/org/dplevine/patterns/pipeline/PipelineSpecification.java:86 | Different numbers are written differently. |
| Specification.PipelineIdInjective | Pipeline/src/main/java/org/dplevine/patterns/pipeline/PipelineSpecification.java:85-87 | Within one parallel, different numbers give different pipeline ids. |
| Specification.WellNumberedIdsDistinct | Pipeline/src/main/java/org/dplevine/patterns/pipeline/PipelineSpecification.java:94-99 | The pipelines of a well-numbered parallel have pairwise different ids. |
| Specification.AllParallelPipelinesMembers | Pipeline/src/main/java/org/dplevine/patterns/pipeline/PipelineSpecification.java:152-156 | A pipeline definition is listed exactly when some parallel holds it. |
| Specification.ParallelDefinition.constructor | Pipeline/src/main/java/org/dplevine/patterns/pipeline/PipelineSpecification.java:73-74 | A new parallel definition has no id and no pipelines. |
| Specification.ParallelDefinition.WithPipelines | Pipeline/src/main/java/org/dplevine/patterns/pipeline/PipelineSpecification.java:76-79 | The list constructor keeps every pipeline's steps and renumbers them "<id>[k]" from 0. |
| Specification.ParallelDefinition.SetId | Pipeline/src/main/java/org/dplevine/patterns/pipeline/PipelineSpecification.java:81-83 | Only the id changes. |
| Specification.ParallelDefinition.AddParallelPipeline | Pipeline/src/main/java/org/dplevine/patterns/pipeline/PipelineSpecification.java:89-92 | Appends a pipeline with the given steps, numbered by the count before appending; keeps the numbering invariant. |
| Specification.ParallelDefinition.SetParallelPipelines | Pipeline/src/main/java/org/dplevine/patterns/pipeline/PipelineSpecification.java:94-99 | Appends every given pipeline in order, each renamed to the next number. Earlier pipelines are kept and the numbering invariant holds. |
| Specification.PipelineSpecification.constructor | Pipeline/src/main/java/org/dplevine/patterns/pipeline/PipelineSpecification.java:29-30 | A new specification has no id, no stages, parallels or steps, and fast-fail on. |
| Specification.PipelineSpecification.WithId | Pipeline/src/main/java/org/dplevine/patterns/pipeline/PipelineSpecification.java:32-34 | As above, with the given id. |
| Specification.PipelineSpecification.SetId | Pipeline/src/main/java/org/dplevine/patterns/pipeline/PipelineSpecification.java:162-164 | Only the id changes. |
| Specification.PipelineSpecification.SetStages | Pipeline/src/main/java/org/dplevine/patterns/pipeline/PipelineSpecification.java:166-168 | Only the stage list changes. |
| Specification.PipelineSpecification.SetParallels | Pipeline/src/main/java/org/dplevine/patterns/pipeline/PipelineSpecification.java:170-172 | Only the parallel list changes. |
| Specification.PipelineSpecification.SetSteps | Pipeline/src/main/java/org/dplevine/patterns/pipeline/PipelineSpecification.java:174-176 | Only the step list changes. |
| Specification.PipelineSpecification.GetAllParallelPipelines | Pipeline/src/main/java/org/dplevine/patterns/pipeline/PipelineSpecification.java:152-156 | Returns every parallel's pipelines, parallel after parallel; a pipeline is listed exactly when some parallel holds it. |
| Validator.DuplicatesEmptyIffDistinct | Pipeline/src/main/java/org/dplevine/patterns/pipeline/PipelineSpecValidator.java:57-64 | The duplicate set is empty exactly when no id repeats. |
| Validator.FindDuplicates | Pipeline/src/main/java/org/dplevine/patterns/pipeline/PipelineSpecValidator.java:54-60 | The seen-set scan collects exactly the ids that occur more than once. |
| Validator.NullIdsCheck | Pipeline/src/main/java/org/dplevine/patterns/pipeline/PipelineSpecValidator.java:23-49 | Passes exactly when the specification id, every stage, parallel and parallel-pipeline id, and every step are non-empty. |
| Validator.UniqueIdsCheck | Pipeline/src/main/java/org/dplevine/patterns/pipeline/PipelineSpecValidator.java:52-66 | Passes exactly when stage, parallel and pipeline ids are pairwise different; a rejection reports exactly the repeated ids. |
| Validator.StageDefsCheck | Pipeline/src/main/java/org/dplevine/patterns/pipeline/PipelineSpecValidator.java:69-80 | Passes exactly when every stage has a class name; a rejection reports exactly the malformed stages' ids. |
| Validator.PipelineDefsCheck | Pipeline/src/main/java/org/dplevine/patterns/pipeline/PipelineSpecValidator.java:83-102 | Passes exactly when every parallel pipeline's steps are declared ids; a rejection reports exactly the offending pipelines. |
| Validator.ParallelDefsCheckNeverRejects | Pipeline/src/main/java/org/dplevine/patterns/pipeline/PipelineSpecValidator.java:105-124 | The parallel check always passes, since each parallel pipeline's id is itself added to the declared ids. |
| Validator.StepsCheck | Pipeline/src/main/java/org/dplevine/patterns/pipeline/PipelineSpecValidator.java:127-144 | Passes exactly when every top-level step is a declared id; a rejection reports exactly the unresolved steps. |
| Validator.StagesFor | Pipeline/src/main/java/org/dplevine/patterns/pipeline/PipelineSpecValidator.java:151-156 | Six wrapper stages in check order. Each raises exactly when its check rejects, with a PipelineBuilderException carrying the check's message. |
| Validator.StagesForDistinct | Pipeline/src/main/java/org/dplevine/patterns/pipeline/PipelineSpecValidator.java:151-156 | The six check stages are different objects, so the validation chain has no cycle. |
| Validator.StagesForFailIffSomeReject | Pipeline/src/main/java/org/dplevine/patterns/pipeline/PipelineSpecValidator.java:149-158 | The fast-fail validation run fails exactly when some check rejects, and succeeds exactly when all pass. |
| Validator.ValidationFailsIffSomeCheckRejects | Pipeline/src/main/java/org/dplevine/patterns/pipeline/PipelineSpecValidator.java:147-165 | For any specification, validation fails exactly when one of the six checks rejects it. |
| Validator.ValidationStopsAtFirstRejection | Pipeline/src/main/java/org/dplevine/patterns/pipeline/PipelineSpecValidator.java:149-158 | The first rejecting check ends the run: exactly the checks up to it run. The run raises an ExecutionException wrapping that check's message. |
| Validator.NewValidationPipeline | Pipeline/src/main/java/org/dplevine/patterns/pipeline/PipelineSpecValidator.java:149-156 | The validation pipeline is named "validate: <id>", fast-fail, with the six checks in order. |
| Validator.Validate | Pipeline/src/main/java/org/dplevine/patterns/pipeline/PipelineSpecValidator.java:147-165 | With a stored specification: the context gets the run's status and events, and validation succeeds exactly when all six checks pass. Without one it throws what reading the specification throws and changes nothing: a NullPointerException when the key is absent, a ClassCastException when it holds another object. |
| Validator.RunChecks | Pipeline/src/main/java/org/dplevine/patterns/pipeline/PipelineSpecValidator.java:158-164 | Runs the six check stages on the context and succeeds exactly when all verdicts pass. |
| Generator.IsPipelineAcyclic | Pipeline/src/main/java/org/dplevine/patterns/pipeline/PipelineGenerator.java:45-85 | The loops collect the id graph's edges as the source adds them; the answer equals CycleCheck. |
| Generator.AddRootChain | Pipeline/src/main/java/org/dplevine/patterns/pipeline/PipelineGenerator.java:60-64 | The root loop yields an edge from the current start to each step, which becomes the next start. |
| Generator.AddStar | Pipeline/src/main/java/org/dplevine/patterns/pipeline/PipelineGenerator.java:69-72 | One edge from the start to each target, in order. |
| Generator.AddPipelineEdges | Pipeline/src/main/java/org/dplevine/patterns/pipeline/PipelineGenerator.java:67-73 | Each pipeline definition gets an edge to each of its steps. |
| Generator.AddParallelEdges | Pipeline/src/main/java/org/dplevine/patterns/pipeline/PipelineGenerator.java:76-82 | Each parallel gets an edge to each of its pipelines. |
| Generator.RootChainLinks | Pipeline/src/main/java/org/dplevine/patterns/pipeline/PipelineGenerator.java:60-64 | Root edge i runs from the specification id (i = 0) or step i-1 to step i. |
| Generator.RootEdgesFirst | Pipeline/src/main/java/org/dplevine/patterns/pipeline/PipelineGenerator.java:54-64 | The first edges of the id graph link [spec id] + steps in order. |
| Generator.RepeatedRootStepIsCycle | Pipeline/src/main/java/org/dplevine/patterns/pipeline/PipelineGenerator.java:59-84 | Root steps that repeat, or name the specification id, never pass the check: an edge is refused or a cycle is found. |
| Generator.AcyclicRootStepsDeclared | Pipeline/src/main/java/org/dplevine/patterns/pipeline/PipelineGenerator.java:53-64 | When the check passes, every top-level step names a declared stage, pipeline or parallel. |
| Generator.FirstUnloadable | Pipeline/src/main/java/org/dplevine/patterns/pipeline/PipelineGenerator.java:90-98 | Names a class exactly when some stage class has no builder: the first such class, after only loadable ones. |
| Generator.FirstUnloadableAt | Pipeline/src/main/java/org/dplevine/patterns/pipeline/PipelineGenerator.java:116-118 | The first stage whose class has no builder is the one reported. |
| Generator.PutIdsContents | Pipeline/src/main/java/org/dplevine/patterns/pipeline/PipelineGenerator.java:119-120 | A put loop adds exactly its ids, each mapped to the new vertex; other keys keep their vertices. |
| Generator.PutStagesKeys | Pipeline/src/main/java/org/dplevine/patterns/pipeline/PipelineGenerator.java:116-118 | The stage loop defines exactly the stage ids. |
| Generator.PutStagesLastWins | Pipeline/src/main/java/org/dplevine/patterns/pipeline/PipelineGenerator.java:116-118 | The last definition for an id decides that id's stage. |
| Generator.VerticesContents | Pipeline/src/main/java/org/dplevine/patterns/pipeline/PipelineGenerator.java:113-120 | The vertex map has exactly the declared ids. A parallel id is a parallel vertex, else a pipeline id is a pipeline vertex: later puts win. |
| Generator.VerticesStage | Pipeline/src/main/java/org/dplevine/patterns/pipeline/PipelineGenerator.java:116-120 | A stage id no pipeline or parallel reuses holds the stage built from its last definition's class. |
| Generator.PipelineCast | Pipeline/src/main/java/org/dplevine/patterns/pipeline/PipelineGenerator.java:124 | Looking an id up and casting its object to Pipeline throws nothing exactly when the id is a pipeline vertex. It throws a NullPointerException exactly when the id names no vertex, and otherwise a ClassCastException. |
| Generator.PipelinesFailureIffUnwired | Pipeline/src/main/java/org/dplevine/patterns/pipeline/PipelineGenerator.java:123-126 | The sub-pipeline loop throws nothing exactly when every definition's id is a pipeline and each of its steps names a vertex. What it throws is a NullPointerException or a ClassCastException. |
| Generator.CastsFailureIffUnwired | Pipeline/src/main/java/org/dplevine/patterns/pipeline/PipelineGenerator.java:131 | The cast loop over one parallel's members throws nothing exactly when every member id is a pipeline vertex. What it throws is a NullPointerException or a ClassCastException. |
| Generator.ParallelsFailureIffUnwired | Pipeline/src/main/java/org/dplevine/patterns/pipeline/PipelineGenerator.java:129-132 | The parallel loop throws nothing exactly when every member of every parallel is a pipeline vertex. What it throws is a NullPointerException or a ClassCastException. |
| Generator.WiringFailureIffUnwired | Pipeline/src/main/java/org/dplevine/patterns/pipeline/PipelineGenerator.java:123-132 | The two wiring loops throw nothing exactly when the specification is wired. Otherwise they throw a NullPointerException or a ClassCastException. |
| Generator.WirePipelines | Pipeline/src/main/java/org/dplevine/patterns/pipeline/PipelineGenerator.java:123-126 | The sub-pipeline loop throws the exception of the first definition whose wiring fails: the cast of its own id first, then the lookup of an unknown step. It throws nothing when every lookup and cast succeeds. |
| Generator.WireParallels | Pipeline/src/main/java/org/dplevine/patterns/pipeline/PipelineGenerator.java:129-132 | The parallel loop throws the exception of the first member, in parallel order, whose id is not a pipeline vertex: a NullPointerException when the id names no vertex, otherwise a ClassCastException. |
| Generator.GenerateVertices | Pipeline/src/main/java/org/dplevine/patterns/pipeline/PipelineGenerator.java:113-135 | A class without a builder yields the builder error naming the first such class. Otherwise the vertex map, or the text of the exception the first failing lookup or cast throws. The sub-pipeline loop runs before the parallel loop. |
| Generator.PutStageVertices | Pipeline/src/main/java/org/dplevine/patterns/pipeline/PipelineGenerator.java:116-118 | The stage loop stops with the builder error at the first unloadable class, otherwise yields the stage puts. |
| Generator.PutAll | Pipeline/src/main/java/org/dplevine/patterns/pipeline/PipelineGenerator.java:119-120 | A forEach put loop yields the map with each id put in turn. |
| Generator.Resolve | Pipeline/src/main/java/org/dplevine/patterns/pipeline/PipelineGenerator.java:123-132 | A wired vertex's node carries the id it was built for. |
| Generator.ResolveAllElementwise | Pipeline/src/main/java/org/dplevine/patterns/pipeline/PipelineGenerator.java:125 | Resolving a list succeeds exactly when every id resolves, position by position; otherwise it fails with the first failure. |
| Generator.StepsForSource | Pipeline/src/main/java/org/dplevine/patterns/pipeline/PipelineGenerator.java:123-126 | Every step a pipeline object receives comes from a definition with that id. |
| Generator.MembersForSource | Pipeline/src/main/java/org/dplevine/patterns/pipeline/PipelineGenerator.java:129-132 | Every pipeline a parallel object receives belongs to a parallel with that id. |
| Generator.WiredResolves | Pipeline/src/main/java/org/dplevine/patterns/pipeline/PipelineGenerator.java:123-132 | Once wiring succeeded, a declared id can fail to resolve only by exceeding the depth bound. |
| Generator.WiredResolvesAll | Pipeline/src/main/java/org/dplevine/patterns/pipeline/PipelineGenerator.java:155 | The same for a list of ids. |
| Generator.ResolveSteps | Pipeline/src/main/java/org/dplevine/patterns/pipeline/PipelineGenerator.java:155 | The root loop yields the nodes of the top-level steps in order, or the first failure. |
| Generator.DoWork | Pipeline/src/main/java/org/dplevine/patterns/pipeline/PipelineGenerator.java:138-160 | On success the generated pipeline is stored under PIPELINE. A failure leaves the store as it was; a failed wiring lookup or cast reports the NullPointerException or ClassCastException it throws. A missing specification gives the NullPointerException of `spec.getId()`, or the ClassCastException of the cast when the key holds another object. Status and log are never touched. |
| Generator.ResolvedShape | Pipeline/src/main/java/org/dplevine/patterns/pipeline/PipelineGenerator.java:117-132 | A stage vertex becomes its leaf. A pipeline vertex gets, in order, the steps of every definition with its id, and the spec's fast-fail. A parallel vertex gets its pipelines, each a pipeline. |
| Generator.GeneratedRootPipeline | Pipeline/src/main/java/org/dplevine/patterns/pipeline/PipelineGenerator.java:138-160 | A generated pipeline passed the cycle check, loading and wiring. It is named by the spec, has one node per top-level step, and has distinct children, so it runs. |
| Generator.DistinctIdsDistinctNodes | Pipeline/src/main/java/org/dplevine/patterns/pipeline/PipelineGenerator.java:155 | Nodes whose ids are pairwise different steps are pairwise different objects. |
| Generator.WiredSpecGenerates | Pipeline/src/main/java/org/dplevine/patterns/pipeline/PipelineGenerator.java:138-160 | An acyclic, loadable, wired specification is generated; only the depth bound can stop it. |
| Builder.RunBuilderStages | Pipeline/src/main/java/org/dplevine/patterns/pipeline/PipelineBuilder.java:44-47 | Validator then generator, the generator only after validation succeeds, then the PIPELINE lookup. The result equals BuildResult, or "could not be generated" without a specification. |
| Builder.BuildFromPipelineSpecification | Pipeline/src/main/java/org/dplevine/patterns/pipeline/PipelineBuilder.java:41-52 | The result is the generated pipeline when all six checks pass and generation succeeds; otherwise the builder failure. |
| Builder.BuildFromPathName | Pipeline/src/main/java/org/dplevine/patterns/pipeline/PipelineBuilder.java:19-39 | A path containing ".json" is read as JSON, else one containing ".yaml" as YAML, else the unrecognised-suffix error. A failed read yields "could not be generated". |
| Builder.BuiltPipelineShape | Pipeline/src/main/java/org/dplevine/patterns/pipeline/PipelineBuilder.java:41-52 | A built pipeline passed all six checks, the cycle check and class loading. It is the spec-named root pipeline with one node per step and runs past its own cycle check. |
| Builder.UniquePipelineIdIsPipeline | Pipeline/src/main/java/org/dplevine/patterns/pipeline/PipelineGenerator.java:119-124 | When ids are unique, every parallel-pipeline id is a pipeline vertex, so its cast cannot fail. |
| Builder.AcceptedSpecIsWired | Pipeline/src/main/java/org/dplevine/patterns/pipeline/PipelineGenerator.java:123-132 | A specification passing the unique-id and pipeline checks cannot fail wiring. |
| Builder.CheckedSpecIsGenerated | Pipeline/src/main/java/org/dplevine/patterns/pipeline/PipelineBuilder.java:41-52 | A checked, acyclic specification whose classes load is generated; only the depth bound can stop it. |
| SpecTemplates.PutBuildersContents | Pipeline/src/main/java/org/dplevine/patterns/pipeline/SpecTemplateBuilder.java:75-80 | After a class is scanned, each of its ids names that class, and every other id keeps its definition. |
| SpecTemplates.AsWrittenLosesRootDefinition | Pipeline/src/main/java/org/dplevine/patterns/pipeline/SpecTemplateBuilder.java:82-92 | Counterexample, key as written: a parallel key "a1" replaces root "a1"'s definition silently, without an error. |
| SpecTemplates.AsWrittenLosesParallelDefinition | Pipeline/src/main/java/org/dplevine/patterns/pipeline/SpecTemplateBuilder.java:83-90 | Counterexample, key as written: a second class restarts the index at 0 and replaces the first class's parallel definition. |
| SpecTemplates.AsWrittenRefusesFreshRoot | Pipeline/src/main/java/org/dplevine/patterns/pipeline/SpecTemplateBuilder.java:84-90 | Counterexample: one class declaring a parallel of root "a" (key "a0") and then the root "a0" fails as a duplicate root as written, while the scan with separate keys accepts it. |
| SpecTemplates.ScanStepsKeysAgree | Pipeline/src/main/java/org/dplevine/patterns/pipeline/SpecTemplateBuilder.java:85-90 | Scanning keeps root keys on root definitions and parallel keys on parallel ones. |
| SpecTemplates.ScanPreserves | Pipeline/src/main/java/org/dplevine/patterns/pipeline/SpecTemplateBuilder.java:82-92 | A scan never removes or replaces a root definition or another class's definition. |
| SpecTemplates.ScanKeepsEveryDefinition | Pipeline/src/main/java/org/dplevine/patterns/pipeline/SpecTemplateBuilder.java:82-92 | A successful scan keeps every earlier entry and files every definition it meets. |
| SpecTemplates.ScanRejectsIffRootRepeated | Pipeline/src/main/java/org/dplevine/patterns/pipeline/SpecTemplateBuilder.java:85-87 | A class's scan fails exactly when one of its root definitions repeats a root id. |
| SpecTemplates.RootDefs | Pipeline/src/main/java/org/dplevine/patterns/pipeline/SpecTemplateBuilder.java:109 | Keeps exactly the definitions whose parallel id is empty. |
| SpecTemplates.ParallelDefs | Pipeline/src/main/java/org/dplevine/patterns/pipeline/SpecTemplateBuilder.java:114 | Keeps exactly the definitions with a parallel id. |
| SpecTemplates.OfRoot | Pipeline/src/main/java/org/dplevine/patterns/pipeline/SpecTemplateBuilder.java:116 | Keeps exactly the definitions of the given root. |
| SpecTemplates.RootTemplatesContents | Pipeline/src/main/java/org/dplevine/patterns/pipeline/SpecTemplateBuilder.java:109-111 | With distinct root ids there is one template per root definition, with its id and steps, and no other. |
| SpecTemplates.GroupIndex | Pipeline/src/main/java/org/dplevine/patterns/pipeline/SpecTemplateBuilder.java:119 | Finds the group with the parallel id, or reports that none exists yet. |
| SpecTemplates.AddToExisting | Pipeline/src/main/java/org/dplevine/patterns/pipeline/SpecTemplateBuilder.java:123 | Joining an existing group changes that group alone, by one more numbered pipeline. |
| SpecTemplates.AddToExistingGroup | Pipeline/src/main/java/org/dplevine/patterns/pipeline/SpecTemplateBuilder.java:118-124 | Adding to an existing group keeps the grouping invariant. |
| SpecTemplates.AddToNewGroup | Pipeline/src/main/java/org/dplevine/patterns/pipeline/SpecTemplateBuilder.java:119-123 | Opening a group for a new parallel id keeps the grouping invariant. |
| SpecTemplates.GroupedShape | Pipeline/src/main/java/org/dplevine/patterns/pipeline/SpecTemplateBuilder.java:115-126 | One group per parallel id, pipelines numbered from 0, carrying in order the steps of exactly that id's definitions; nothing left out. |
| SpecTemplates.RootDefsDistinct | Pipeline/src/main/java/org/dplevine/patterns/pipeline/SpecTemplateBuilder.java:109 | The root definitions met in iteration order have pairwise different root ids, one per root key. |
| SpecTemplates.TemplatesFromRoots | Pipeline/src/main/java/org/dplevine/patterns/pipeline/SpecTemplateBuilder.java:106-133 | Later assembly steps keep each root template's id, fast-fail and steps, and add no template. |
| SpecTemplates.TemplatesRoots | Pipeline/src/main/java/org/dplevine/patterns/pipeline/SpecTemplateBuilder.java:109-111 | One template per root key, named by its root id, holding that definition's steps, with fast-fail on. |
| SpecTemplates.TemplatesStages | Pipeline/src/main/java/org/dplevine/patterns/pipeline/SpecTemplateBuilder.java:129-133 | Every template holds the same stage list: exactly one stage per stage-builder definition. |
| SpecTemplates.TemplatesParallels | Pipeline/src/main/java/org/dplevine/patterns/pipeline/SpecTemplateBuilder.java:114-126 | Each template's parallels group exactly its root's parallel definitions by parallel id, and each definition's steps are in its group. |
| SpecTemplates.ArrangedGroupsOf | Pipeline/src/main/java/org/dplevine/patterns/pipeline/SpecTemplateBuilder.java:125 | Listing a grouping's groups in any iteration order of their ids is still a grouping of the same definitions. |
| SpecTemplates.ListedGroupsOf | Pipeline/src/main/java/org/dplevine/patterns/pipeline/SpecTemplateBuilder.java:117-125 | Groups listed in some order of a grouping of the definitions are themselves a grouping of them. |
| SpecTemplates.AssembledParallels | Pipeline/src/main/java/org/dplevine/patterns/pipeline/SpecTemplateBuilder.java:114-126 | Whatever order the parallel groups come out in, each assembled template's parallels group exactly its root's parallel definitions. |
| SpecTemplates.WithStagesRearranged | Pipeline/src/main/java/org/dplevine/patterns/pipeline/SpecTemplateBuilder.java:129-133 | Giving every template the same stage list keeps the templates a reordering of the reference templates' parallel groups. |
| SpecTemplates.ScanPackagesStops | Pipeline/src/main/java/org/dplevine/patterns/pipeline/SpecTemplateBuilder.java:98-103 | Once a package fails, later packages change nothing. |
| SpecTemplates.ScanStepsClassesStops | Pipeline/src/main/java/org/dplevine/patterns/pipeline/SpecTemplateBuilder.java:69-73 | Once a class fails, later classes change nothing. |
| SpecTemplates.ScanStepsClassesKeysAgree | Pipeline/src/main/java/org/dplevine/patterns/pipeline/SpecTemplateBuilder.java:69-73 | Scanning classes keeps keys and definitions in agreement. |
| SpecTemplates.ScanPackagesKeysAgree | Pipeline/src/main/java/org/dplevine/patterns/pipeline/SpecTemplateBuilder.java:98-103 | Scanning packages keeps keys and definitions in agreement. |
| SpecTemplates.ScanBuilderClassesAgree | Pipeline/src/main/java/org/dplevine/patterns/pipeline/SpecTemplateBuilder.java:75-80 | Every stage-builder definition is filed under its own id. |
| SpecTemplates.Enumerate | Pipeline/src/main/java/org/dplevine/patterns/pipeline/SpecTemplateBuilder.java:109 | Yields one iteration order of a map's keys: each key exactly once. |
| SpecTemplates.GroupParallels | Pipeline/src/main/java/org/dplevine/patterns/pipeline/SpecTemplateBuilder.java:117-125 | The grouping loop yields a grouping of the definitions (GroupsOf). Its groups are those of Grouped, listed in one iteration order of their ids, as the values of the map come out. |
| SpecTemplates.MakeRootTemplates | Pipeline/src/main/java/org/dplevine/patterns/pipeline/SpecTemplateBuilder.java:109-111 | The template loop yields RootTemplates of the root definitions. |
| SpecTemplates.AddParallels | Pipeline/src/main/java/org/dplevine/patterns/pipeline/SpecTemplateBuilder.java:115-126 | The loop over templates gives each one its root's grouped parallels, each template's groups listed in an iteration order of their own map; nothing else changes. |
| SpecTemplates.MakeStageList | Pipeline/src/main/java/org/dplevine/patterns/pipeline/SpecTemplateBuilder.java:129-130 | One stage definition per stage-builder definition, in iteration order. |
| SpecTemplates.AddStages | Pipeline/src/main/java/org/dplevine/patterns/pipeline/SpecTemplateBuilder.java:131-133 | Every template gets the same stage list. |
| SpecTemplates.SpecTemplateBuilder.constructor | Pipeline/src/main/java/org/dplevine/patterns/pipeline/SpecTemplateBuilder.java:16-18 | A missing package list becomes an empty one; both maps start empty. |
| SpecTemplates.SpecTemplateBuilder.ScanForStageBuilders | Pipeline/src/main/java/org/dplevine/patterns/pipeline/SpecTemplateBuilder.java:75-80 | Each listed id of the class is filed under a definition naming the class; the steps map is unchanged. |
| SpecTemplates.SpecTemplateBuilder.ScanForPipelineSteps | Pipeline/src/main/java/org/dplevine/patterns/pipeline/SpecTemplateBuilder.java:82-92 | Files the class's steps definitions with the running index, under the separate root and parallel keys of the corrected scan (ScanSteps), not the string keys as written. A repeated root fails, with the map as reached. |
| SpecTemplates.SpecTemplateBuilder.ScanPackage | Pipeline/src/main/java/org/dplevine/patterns/pipeline/SpecTemplateBuilder.java:98-103 | A package's stage-builder classes, then its steps classes up to the first failure, using the corrected steps scan. |
| SpecTemplates.SpecTemplateBuilder.SpecTemplatesFromAnnotations | Pipeline/src/main/java/org/dplevine/patterns/pipeline/SpecTemplateBuilder.java:94-136 | Scans every package in order with the corrected steps scan; a failed scan is returned as the error. Otherwise the result is the templates assembled under some iteration order of the two maps, with each template's parallel groups in some iteration order of their own map. |
| SpecTemplates.SpecTemplateBuilder.Assemble | Pipeline/src/main/java/org/dplevine/patterns/pipeline/SpecTemplateBuilder.java:106-133 | The assembly equals Templates for some iteration order of the two scanned maps (filled by the corrected scan), except that each template's parallel groups come in some iteration order of their own map. |
| Saga.Register | Saga/src/main/java/org/dplevine/patterns/saga/SagaParticipant.java:27-33 | Refused, with the duplicate message, exactly when the name is registered. Otherwise the registry gains exactly that entry and keeps all others. |
| Saga.Dispatch | Saga/src/main/java/org/dplevine/patterns/saga/SagaParticipant.java:40-42 | Succeeds exactly for a registered name, handing the context back; otherwise the null dereference. |
| Saga.RegisteredNameDispatches | Saga/src/main/java/org/dplevine/patterns/saga/SagaTransaction.java:17-19 | A registered name keeps dispatching to its transaction, and returns the context, whatever is registered later. |
| Saga.RegisterAllKeeps | Saga/src/main/java/org/dplevine/patterns/saga/SagaParticipant.java:29-32 | A sequence of registrations never removes or replaces an entry. |
| Saga.RegisterAllContents | Saga/src/main/java/org/dplevine/patterns/saga/SagaParticipant.java:27-33 | Without a refusal, the registry gains exactly the names used, each mapped to its transaction. |
| Saga.RegisterAllSucceedsIffFresh | Saga/src/main/java/org/dplevine/patterns/saga/SagaParticipant.java:29-31 | A sequence of registrations goes through exactly when its names are new and pairwise different. |
| Saga.SagaParticipant.constructor | Saga/src/main/java/org/dplevine/patterns/saga/SagaParticipant.java:11 | A new participant has an empty registry. |
| Saga.SagaParticipant.RegisterSagaTransaction | Saga/src/main/java/org/dplevine/patterns/saga/SagaParticipant.java:27-33 | Behaves as Register: a duplicate throws and leaves the registry; otherwise exactly the entry is added. |
| Saga.SagaParticipant.DispatchRequest | Saga/src/main/java/org/dplevine/patterns/saga/SagaParticipant.java:40-42 | Equals Dispatch on the current registry; the registry is only read. |

## Left out

- I/O and parsing: reading JSON or YAML files is a parameter `read` of `Builder.BuildFromPathName`; event timestamps, JSON `toString` and logging are not modelled.
- Reflection and class loading: a `Registry` map from class name to stage stands for `ClassLoader.loadClass` and the builder's `buildStage`.
- Classpath scanning: `AnnotationScanner` is not part of this model. A package's annotated classes are a `PackageScan` parameter.
- Concurrency: thread pools, futures and `invokeAll` are modelled as running the child pipelines one after another in list order. Interleavings, shutdown and THREADPOOL_SIZE are not modelled.
- Hash-map iteration order: it is a parameter, an enumeration of the keys (`Enumerates`), for the two scan maps and for the map grouping each template's parallels. The results are proved for every order.
- Graph rendering and image types of `Pipeline.java` are not modelled. The pipeline graph (`PipelineGraph`) refuses a self-loop with jgrapht's "loops not allowed" message; the generator's id graph merges jgrapht's errors for an unknown vertex and a self-loop into one message. Exception classes are not modelled for these graph errors.
- The six validator stages' class names are one placeholder constant (`CheckClassName`), because their lambdas have no stable class name. A rejecting check's exception carries that check's fixed message. The offending ids are kept beside it as a set, not printed into the message, because the source prints a `HashSet`, whose text follows hash order.
- Aliasing: containers hold their children as values. A child changed after it was added is not seen through the container.
- Fast-fail of the stage runner: `StageRunner.java:33` reads the context's fast-fail flag, which `ExecutionContext.java` does not define. The model passes the enclosing pipeline's flag.
- Composite stages' class names: `Pipeline.java:120` calls `getStageClassName`, which would dereference a null stage for a nested Pipeline, Parallel or Fork. The model gives these composites their own class name, as `Parallel.java:54` (`setStage(this)`) shows is intended. Only a leaf wrapper built without a stage raises there.
- The generator calls `spec.getPipelines()` and `spec.getFastFail()`, which `PipelineSpecification.java` does not define. The model reads them as all parallel pipelines (`getAllParallelPipelines`) and as a fast-fail flag held by the specification, on by default. `PipelineGenerator.java:120` also calls `new Parallel(id, spec.getFastFail())`, but `Parallel.java` defines only `Parallel(String id)` (:30); the model builds the Parallel from its id alone and drops the flag.
- Generator.Resolve: nesting is bounded by fuel (the number of vertices plus one). The model does not prove that this bound always suffices for an acyclic specification. `Generator.WiredSpecGenerates` and `Builder.CheckedSpecIsGenerated` state that only this bound can stop generation.
- Saga: the participant's singleton and sidecar wiring are not modelled. As written, its constructor (`SagaParticipant.java:13-21`) creates a new participant inside itself and never returns, so the model's constructor only creates the empty registry. `registerSagaTransactions` has an empty body. A transaction's back-reference to its participant is not kept. The saga context is a type parameter.
- User stages: a stage is modelled as its outcome, a class name and an optional exception (`Nodes.Stage`). Its `doWork` receives the shared context and may read it or write to it (`ExecutionContext.java:106` makes `addObject` public, and `SpecFromJsonGenerator.java:26` and `HelloWorld.java:23` do so). Those reads and writes are not modelled, so the run methods' "store and status unchanged" clauses say what the framework itself does, not what a stage may do. The builder's own generator stage is modelled separately, with its write to the store (`Generator.DoWork`).
- Exception texts: a stage's exception is its class name and an optional message. A NullPointerException raised by the runtime has no message, so the JVM's helpful NullPointerException text is not modelled. Stack traces and causes beyond the message are not modelled.
- SpecTemplates.StepsDef: a steps definition always holds a list of steps. `SpecTemplateBuilder.java:47-49` leaves the list null for a null array, but every array comes from an annotation value, and Java never lets one be null.
- Callbacks are recorded as registrations (stage id, callback number); invoking them is the `PreCallbacks` and `PostCallbacks` steps of a trace.

## Findings

| source | as written | input that shows it | evidently intended | confidence | as-written member | corrected member |
|---|---|---|---|---|---|---|
| Pipeline/src/main/java/org/dplevine/patterns/pipeline/SpecTemplateBuilder.java:85-90 | A parallel steps definition is filed in the same map as root definitions. Its key is the root id plus a per-class running index, which restarts at 0 for every class. | One class declaring a parallel of root "a", the root "a1", then a second parallel of "a": key "a1" silently replaces root "a1". Two classes each declaring a parallel of root "a" both use key "a0". Because the duplicate-root test at line 85 looks among all keys, one class declaring a parallel of "a" and then the root "a0" is refused as a duplicate root, although "a0" has one root definition. | Every scanned definition is kept: root and parallel keys never collide, and classes do not overwrite each other; only a repeated root definition is refused. | high (not executed) | SpecTemplates.ScanStepsAsWritten, with SpecTemplates.AsWrittenLosesRootDefinition, SpecTemplates.AsWrittenLosesParallelDefinition and SpecTemplates.AsWrittenRefusesFreshRoot | SpecTemplates.ScanSteps with the `StepsKey` datatype, with SpecTemplates.ScanKeepsEveryDefinition and SpecTemplates.ScanRejectsIffRootRepeated |
