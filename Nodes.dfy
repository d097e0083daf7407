/**
 * What running the node tree does. A node is a leaf wrapper around a user
 * stage, a Pipeline (ordered children and a fast-fail flag), a Parallel or a
 * Fork (child pipelines). Running a node produces a trace: the lifecycle
 * hooks it invokes and the events it logs, in order, and whether it returns
 * normally or raises. These functions are the specification that the
 * imperative engine and container classes are proved against.
 */
module Nodes {
  import opened Wrappers
  import opened Context
  import Graphs

  /**
   * A Java exception as the event log sees it: its runtime class name and
   * its message, which may be null.
   */
  datatype Exception = Exception(className: string, message: Option<string>)

  /** `getLocalizedMessage()` inside a string concatenation: a null message prints as "null". */
  function MessageText(e: Exception): string
  {
    if e.message.Some? then e.message.value else "null"
  }

  /** `Throwable.toString()`: the class name, followed by ": " and the message when there is one. */
  function Describe(e: Exception): string
  {
    if e.message.Some? then e.className + ": " + e.message.value else e.className
  }

  const PipelineExecutionExceptionClass := "org.dplevine.patterns.pipeline.PipelineExecutionException"
  const ExecutionExceptionClass := "java.util.concurrent.ExecutionException"

  /** `new PipelineExecutionException(e)`: a pipeline exception carrying `e`'s message. */
  function PipelineExecution(e: Exception): Exception
  {
    Exception(PipelineExecutionExceptionClass, e.message)
  }

  /** `new ExecutionException(e)`: its message is `e.toString()`. */
  function ExecutionFailure(e: Exception): Exception
  {
    Exception(ExecutionExceptionClass, Some(Describe(e)))
  }

  /** The message of the IllegalArgumentException a directed multigraph throws for a loop edge. */
  const LoopsNotAllowed := "loops not allowed"

  /** What `Pipeline.doWork` throws when a child is immediately followed by itself: its chain edge is a loop. */
  const LoopRefused := Exception("java.lang.IllegalArgumentException", Some(LoopsNotAllowed))

  /** What `Pipeline.doWork` throws when its chain graph has a cycle. */
  const CycleDetected := Exception("java.lang.Exception", Some("The pipeline must be acyclic, cycles detected"))

  /** A null dereference; the text the JVM may attach to it is not modelled. */
  const NullDereference := Exception("java.lang.NullPointerException", None)

  /**
   * A user stage, seen only through its class name and the exception its
   * `doWork` raises, if any; what it reads from or writes to the context it
   * is handed is not part of the model.
   */
  datatype Stage = Stage(className: string, failure: Option<Exception>)

  /**
   * A node of the executable tree. `ref` stands for the identity of the Java
   * object: two children of one pipeline are the same object exactly when
   * they are equal values.
   */
  datatype Node =
    | Leaf(ref: nat, id: string, stage: Option<Stage>)
    | Seq(ref: nat, id: string, fastFail: bool, stages: seq<Node>)
    | Par(ref: nat, id: string, pipelines: seq<Node>)
    | Fork(ref: nat, id: string, pipelines: seq<Node>)

  const PipelineClass := "org.dplevine.patterns.pipeline.Pipeline"
  const ParallelClass := "org.dplevine.patterns.pipeline.Parallel"
  const ForkClass := "org.dplevine.patterns.pipeline.Fork"

  /** The class name of the stage a node wraps; a leaf built without a stage has none. */
  function ClassName(n: Node): (r: Option<string>)
    ensures r.None? <==> n.Leaf? && n.stage.None?
    ensures n.Leaf? && n.stage.Some? ==> r == Some(n.stage.value.className)
  {
    match n
    case Leaf(_, _, st) => if st.Some? then Some(st.value.className) else None
    case Seq(_, _, _, _) => Some(PipelineClass)
    case Par(_, _, _) => Some(ParallelClass)
    case Fork(_, _, _) => Some(ForkClass)
  }

  /** The callback kinds handed to pre- and post-stage callbacks. */
  datatype StageEvent = PreStageCallback | PostStageCallbackSuccess | PostStageCallbackError

  /** One observable step of a run: a lifecycle hook or a logged event. */
  datatype Step =
    | Init(id: string)
    | PreCallbacks(id: string)
    | PostCallbacks(id: string, kind: StageEvent)
    | Close(id: string)
    | Logged(event: Event)

  /** How a call ends: it returns the context, or it raises an exception. */
  datatype Outcome = Returned | Raised(exception: Exception)

  datatype Trace = Trace(steps: seq<Step>, outcome: Outcome)

  /** The events logged by a sequence of steps, in order. */
  function Events(steps: seq<Step>): seq<Event>
  {
    if steps == [] then []
    else (if steps[0].Logged? then [steps[0].event] else []) + Events(steps[1..])
  }

  lemma {:induction false} EventsAppend(a: seq<Step>, b: seq<Step>)
    ensures Events(a + b) == Events(a) + Events(b)
  {
    if a == [] {
      assert a + b == b;
    } else {
      assert (a + b)[0] == a[0] && (a + b)[1..] == a[1..] + b;
      EventsAppend(a[1..], b);
    }
  }

  /** Appending one step adds its event, if it is a logged event, to the end. */
  lemma {:induction false} EventsSnoc(steps: seq<Step>, x: Step)
    ensures Events(steps + [x]) == Events(steps) + (if x.Logged? then [x.event] else [])
  {
    EventsAppend(steps, [x]);
  }

  function DoWorkDetails(className: string): string { className + ".doWork()" }
  function RunDetails(className: string): string { className + ".run()" }

  /** Measures for the mutual recursion over the tree. */
  function Size(n: Node): (r: nat)
    ensures r >= 1
  {
    match n
    case Leaf(_, _, _) => 1
    case Seq(_, _, _, s) => 1 + SizeAll(s)
    case Par(_, _, s) => 1 + SizeAll(s)
    case Fork(_, _, s) => 1 + SizeAll(s)
  }

  function SizeAll(s: seq<Node>): nat
  {
    if s == [] then 0 else Size(s[0]) + SizeAll(s[1..])
  }

  /** Each element of a child list is no larger than the whole list. */
  lemma {:induction false} SizeAllElement(s: seq<Node>, i: nat)
    requires i < |s|
    ensures Size(s[i]) <= SizeAll(s)
  {
    if i > 0 {
      SizeAllElement(s[1..], i - 1);
    }
  }

  /**
   * `doWork` of a node. A leaf delegates to its stage (a leaf without a stage
   * raises a null dereference); a Pipeline raises at once when a child object
   * is immediately followed by itself (its chain graph refuses the loop edge)
   * or occurs twice further apart (its chain graph has a cycle), and otherwise
   * runs its chain;
   * a Parallel runs every child pipeline and raises when one of them raised;
   * a Fork runs every child pipeline and ignores their outcomes.
   */
  function Work(n: Node): Trace
    decreases Size(n), 0
  {
    match n
    case Leaf(_, _, st) => Trace([], StageOutcome(st))
    case Seq(_, _, ff, stages) =>
      if Graphs.AdjacentRepeat(stages) then Trace([], Raised(LoopRefused))
      else if Graphs.Distinct(stages) then Chain(stages, ff)
      else Trace([], Raised(CycleDetected))
    case Par(_, _, ps) =>
      var a := All(ps);
      Trace(a.steps, ParallelOutcome(a.outcome))
    case Fork(_, _, ps) => Trace(All(ps).steps, Returned)
  }

  /** The wrapper's `doWork` delegates to its stage; without one it dereferences null. */
  function StageOutcome(st: Option<Stage>): Outcome
  {
    if st.None? then Raised(NullDereference)
    else if st.value.failure.Some? then Raised(st.value.failure.value)
    else Returned
  }

  /**
   * A Parallel's outcome from the first failing child's exception: `future.get`
   * wraps it in an ExecutionException, which `doWork` wraps in a
   * PipelineExecutionException.
   */
  function ParallelOutcome(o: Outcome): Outcome
  {
    if o.Raised? then Raised(PipelineExecution(ExecutionFailure(o.exception))) else Returned
  }

  /**
   * `StageRunner.run` with fast-fail flag `ff`: init, pre-callbacks, CALLING,
   * doWork, CALLED or EXCEPTION, post-callbacks, close. Without a stage the
   * class-name lookup itself fails, again in the exception handler, so only
   * the `finally` part runs and the failure escapes whatever `ff` says.
   */
  function Runner(n: Node, ff: bool): Trace
    decreases Size(n), 1
  {
    var id := n.id;
    match ClassName(n)
    case None =>
      Trace([Init(id), PreCallbacks(id), PostCallbacks(id, PostStageCallbackSuccess), Close(id)], Raised(NullDereference))
    case Some(cn) =>
      var w := Work(n);
      var head := [Init(id), PreCallbacks(id), Logged(Event(id, CallingStage, DoWorkDetails(cn)))] + w.steps;
      match w.outcome
      case Returned =>
        Trace(head + [Logged(Event(id, CalledStage, DoWorkDetails(cn))),
                      PostCallbacks(id, PostStageCallbackSuccess), Close(id)], Returned)
      case Raised(e) =>
        Trace(head + [Logged(Event(id, ExceptionEvent, cn + ": " + MessageText(e))),
                      PostCallbacks(id, PostStageCallbackError), Close(id)],
              if ff then Raised(PipelineExecution(e)) else Returned)
  }

  /**
   * One iteration of the loop in `Pipeline.doWork`: CALLING, init, the runner,
   * close, CALLED; on a failure EXCEPTION and close, re-raised under fast-fail.
   * A child without a stage fails on its class name before anything is logged,
   * and again inside the handler, so the failure escapes the loop.
   */
  function ChainStep(n: Node, ff: bool): Trace
    decreases Size(n), 2
  {
    var id := n.id;
    match ClassName(n)
    case None => Trace([], Raised(NullDereference))
    case Some(cn) =>
      var r := Runner(n, ff);
      var head := [Logged(Event(id, CallingStage, DoWorkDetails(cn))), Init(id)] + r.steps;
      match r.outcome
      case Returned =>
        Trace(head + [Close(id), Logged(Event(id, CalledStage, DoWorkDetails(cn)))], Returned)
      case Raised(e) =>
        Trace(head + [Logged(Event(id, ExceptionEvent, cn + MessageText(e))), Close(id)],
              if ff then Raised(ExecutionFailure(e)) else Returned)
  }

  /** The children of an acyclic pipeline in list order, stopping at the first one that raises. */
  function Chain(s: seq<Node>, ff: bool): Trace
    decreases SizeAll(s), 3
  {
    if s == [] then Trace([], Returned)
    else
      var h := ChainStep(s[0], ff);
      if h.outcome.Raised? then h
      else
        var t := Chain(s[1..], ff);
        Trace(h.steps + t.steps, t.outcome)
  }

  /**
   * Every child pipeline's `doWork`, in list order; raises the first failing
   * child's exception, as the `future.get` loop meets it first.
   */
  function All(s: seq<Node>): Trace
    decreases SizeAll(s), 3
  {
    if s == [] then Trace([], Returned)
    else
      var h := Work(s[0]);
      var t := All(s[1..]);
      Trace(h.steps + t.steps, if h.outcome.Raised? then h.outcome else t.outcome)
  }

  /** What `Pipeline.run(context)` adds to the context: its steps and the final status. */
  datatype RunResult = RunResult(steps: seq<Step>, status: Status)

  /**
   * `Pipeline.run(context)`: IN_PROGRESS, doWork, then SUCCESS, or an
   * EXCEPTION event carrying the caught exception's `toString()` and FAILURE.
   */
  function Run(n: Node): (r: RunResult)
    requires n.Seq?
    ensures r.status == Success <==> Work(n).outcome == Returned
    ensures r.status == Failure <==> Work(n).outcome.Raised?
    ensures |r.steps| >= 2
    ensures r.steps[0] == Logged(Event(n.id, PipelineInProgress, RunDetails(PipelineClass)))
    ensures r.steps[|r.steps| - 1] ==
      Logged(Event(n.id, if r.status == Success then SuccessEvent else FailureEvent, RunDetails(PipelineClass)))
    ensures r.status == Failure ==>
      r.steps[|r.steps| - 2] == Logged(Event(n.id, ExceptionEvent, Describe(Work(n).outcome.exception)))
  {
    var w := Work(n);
    var start := [Logged(Event(n.id, PipelineInProgress, RunDetails(PipelineClass)))] + w.steps;
    match w.outcome
    case Returned =>
      RunResult(start + [Logged(Event(n.id, SuccessEvent, RunDetails(PipelineClass)))], Success)
    case Raised(e) =>
      RunResult(start + [Logged(Event(n.id, ExceptionEvent, Describe(e))),
                         Logged(Event(n.id, FailureEvent, RunDetails(PipelineClass)))], Failure)
  }

  /** A run of steps that contains no logged event logs nothing. */
  lemma {:induction false} EventsOfHooks(steps: seq<Step>)
    requires forall i :: 0 <= i < |steps| ==> !steps[i].Logged?
    ensures Events(steps) == []
  {
    if steps != [] {
      EventsOfHooks(steps[1..]);
    }
  }

  /**
   * The runner's lifecycle: init and pre-callbacks first; post-callbacks
   * (told whether the stage failed) and then close last, on success and on
   * failure alike. The runner raises only for a wrapper without a stage (the
   * null dereference escapes), or when the stage raised and fast-fail is on
   * (the stage's exception wrapped in a PipelineExecutionException).
   */
  lemma {:induction false} RunnerLifecycle(n: Node, ff: bool)
    ensures var t := Runner(n, ff).steps;
      && |t| >= 4 && t[0] == Init(n.id) && t[1] == PreCallbacks(n.id)
      && t[|t| - 1] == Close(n.id)
      && t[|t| - 2] == PostCallbacks(n.id, if ClassName(n).Some? && Work(n).outcome.Raised?
                                           then PostStageCallbackError else PostStageCallbackSuccess)
    ensures Runner(n, ff).outcome ==
      if ClassName(n).None? then Raised(NullDereference)
      else if ff && Work(n).outcome.Raised? then Raised(PipelineExecution(Work(n).outcome.exception))
      else Returned
  {
  }

  /**
   * One loop iteration of `Pipeline.doWork` raises exactly for a child
   * without a stage, which logs nothing and lets the null dereference escape,
   * or for a child whose `doWork` raised under fast-fail, whose exception
   * reaches the loop wrapped twice: by the runner and by the loop.
   */
  lemma {:induction false} ChainStepOutcome(n: Node, ff: bool)
    ensures ClassName(n).None? ==> ChainStep(n, ff).steps == []
    ensures ChainStep(n, ff).outcome ==
      if ClassName(n).None? then Raised(NullDereference)
      else if ff && Work(n).outcome.Raised? then Raised(ExecutionFailure(PipelineExecution(Work(n).outcome.exception)))
      else Returned
  {
    RunnerLifecycle(n, ff);
  }

  /**
   * The runner logs CALLING, then whatever the stage logs, then exactly one
   * more event for the wrapper: CALLED when `doWork` returned, EXCEPTION with
   * the class name and the exception's message when it raised. A wrapper
   * without a stage logs nothing.
   */
  lemma {:induction false} RunnerEvents(n: Node, ff: bool)
    ensures ClassName(n).None? ==> Events(Runner(n, ff).steps) == []
    ensures ClassName(n).Some? ==>
      var ev := Events(Runner(n, ff).steps);
      && |ev| == |Events(Work(n).steps)| + 2
      && ev[0] == Event(n.id, CallingStage, DoWorkDetails(ClassName(n).value))
      && ev[1..|ev| - 1] == Events(Work(n).steps)
      && ev[|ev| - 1] == (if Work(n).outcome == Returned
                          then Event(n.id, CalledStage, DoWorkDetails(ClassName(n).value))
                          else Event(n.id, ExceptionEvent, ClassName(n).value + ": " + MessageText(Work(n).outcome.exception)))
  {
    var id := n.id;
    RunnerLifecycle(n, ff);
    if ClassName(n).Some? {
      var cn := ClassName(n).value;
      var w := Work(n);
      var calling := Event(id, CallingStage, DoWorkDetails(cn));
      var pre := [Init(id), PreCallbacks(id), Logged(calling)];
      var last := if w.outcome == Returned then Event(id, CalledStage, DoWorkDetails(cn))
                  else Event(id, ExceptionEvent, cn + ": " + MessageText(w.outcome.exception));
      var kind := if w.outcome == Returned then PostStageCallbackSuccess else PostStageCallbackError;
      var post := [Logged(last), PostCallbacks(id, kind), Close(id)];
      assert Runner(n, ff).steps == pre + w.steps + post;
      EventsAppend(pre + w.steps, post);
      EventsAppend(pre, w.steps);
      assert Events([Logged(calling)]) == [calling];
      assert Events(pre[1..]) == [calling];
      assert Events(pre) == [calling];
      assert Events([Close(id)]) == [];
      assert Events(post[1..]) == [];
      assert Events(post) == [last];
      var ev := Events(Runner(n, ff).steps);
      var inner := Events(w.steps);
      assert ev == [calling] + inner + [last];
      assert ev[1..|ev| - 1] == inner;
    } else {
      EventsOfHooks(Runner(n, ff).steps);
    }
  }

  /**
   * One iteration of the pipeline loop logs CALLING for the child, then the
   * runner's events, then one more event: CALLED when the runner returned
   * (also after a failure it swallowed in continue mode), or, when it raised
   * under fast-fail, EXCEPTION with the class name followed directly by the
   * stage's own message, which the runner's wrapper passes on.
   */
  lemma {:induction false} ChainStepEvents(n: Node, ff: bool)
    requires ClassName(n).Some?
    ensures var ev := Events(ChainStep(n, ff).steps);
      && |ev| == |Events(Runner(n, ff).steps)| + 2
      && ev[0] == Event(n.id, CallingStage, DoWorkDetails(ClassName(n).value))
      && ev[1..|ev| - 1] == Events(Runner(n, ff).steps)
      && ev[|ev| - 1] == (if ff && Work(n).outcome.Raised?
                          then Event(n.id, ExceptionEvent, ClassName(n).value + MessageText(Work(n).outcome.exception))
                          else Event(n.id, CalledStage, DoWorkDetails(ClassName(n).value)))
  {
    var id := n.id;
    var cn := ClassName(n).value;
    var r := Runner(n, ff);
    RunnerLifecycle(n, ff);
    var calling := Event(id, CallingStage, DoWorkDetails(cn));
    var last := if r.outcome == Returned then Event(id, CalledStage, DoWorkDetails(cn))
                else Event(id, ExceptionEvent, cn + MessageText(r.outcome.exception));
    var pre := [Logged(calling), Init(id)];
    var post := if r.outcome == Returned then [Close(id), Logged(last)] else [Logged(last), Close(id)];
    assert ChainStep(n, ff).steps == pre + r.steps + post;
    EventsAppend(pre + r.steps, post);
    EventsAppend(pre, r.steps);
    assert Events(pre) == [calling];
    assert Events(post[1..]) == (if r.outcome == Returned then [last] else []);
    assert Events(post) == [last];
    var ev := Events(ChainStep(n, ff).steps);
    var inner := Events(r.steps);
    assert ev == [calling] + inner + [last];
    assert ev[1..|ev| - 1] == inner;
  }

  /** Index of the first child whose loop iteration raises, or `|s|` when none does. */
  function FirstRaise(s: seq<Node>, ff: bool): (k: nat)
    ensures k <= |s|
    ensures forall j :: 0 <= j < k ==> ChainStep(s[j], ff).outcome == Returned
    ensures k < |s| ==> ChainStep(s[k], ff).outcome.Raised?
  {
    if s == [] then 0
    else if ChainStep(s[0], ff).outcome.Raised? then 0
    else 1 + FirstRaise(s[1..], ff)
  }

  lemma {:induction false} FirstRaiseAt(s: seq<Node>, ff: bool, i: nat)
    requires i < |s|
    requires ChainStep(s[i], ff).outcome.Raised?
    requires forall j :: 0 <= j < i ==> ChainStep(s[j], ff).outcome == Returned
    ensures FirstRaise(s, ff) == i
  {
  }

  /** The loop iterations for the children of `s`, one after another in list order. */
  function ChainSteps(s: seq<Node>, ff: bool): seq<Step>
  {
    if s == [] then [] else ChainStep(s[0], ff).steps + ChainSteps(s[1..], ff)
  }

  /**
   * The pipeline loop runs the children in list order, each child's steps
   * wholly before the next child's, up to and including the first child whose
   * iteration raises; no later child runs, and the loop raises exactly when
   * such a child exists, with that child's exception.
   */
  lemma {:induction false} ChainRunsUpToFirstRaise(s: seq<Node>, ff: bool)
    ensures var k := FirstRaise(s, ff);
      && Chain(s, ff).outcome == (if k < |s| then ChainStep(s[k], ff).outcome else Returned)
      && Chain(s, ff).steps == ChainSteps(s[..if k < |s| then k + 1 else |s|], ff)
  {
    if s != [] {
      ChainRunsUpToFirstRaise(s[1..], ff);
      var k := FirstRaise(s, ff);
      var m := if k < |s| then k + 1 else |s|;
      assert s[..m][0] == s[0];
      assert s[..m][1..] == s[1..][..m - 1];
      if ChainStep(s[0], ff).outcome.Raised? {
        assert s[..m][1..] == [];
      }
    }
  }

  /**
   * Under fast-fail the first child that raises (or has no stage) ends the
   * loop, which raises that child's iteration's exception.
   */
  lemma {:induction false} FailFastStopsAtFirstFailure(s: seq<Node>, i: nat)
    requires i < |s|
    requires ClassName(s[i]).None? || Work(s[i]).outcome.Raised?
    requires forall j :: 0 <= j < i ==> ClassName(s[j]).Some? && Work(s[j]).outcome == Returned
    ensures Chain(s, true).outcome == ChainStep(s[i], true).outcome && Chain(s, true).outcome.Raised?
    ensures Chain(s, true).steps == ChainSteps(s[..i + 1], true)
  {
    FirstFailureRaises(s, i);
    ChainStopsAt(s, true, i);
  }

  lemma {:induction false} ChainStopsAt(s: seq<Node>, ff: bool, i: nat)
    requires i < |s| && FirstRaise(s, ff) == i
    ensures Chain(s, ff).outcome == ChainStep(s[i], ff).outcome && Chain(s, ff).outcome.Raised?
    ensures Chain(s, ff).steps == ChainSteps(s[..i + 1], ff)
  {
    ChainRunsUpToFirstRaise(s, ff);
  }

  lemma {:induction false} FirstFailureRaises(s: seq<Node>, i: nat)
    requires i < |s|
    requires ClassName(s[i]).None? || Work(s[i]).outcome.Raised?
    requires forall j :: 0 <= j < i ==> ClassName(s[j]).Some? && Work(s[j]).outcome == Returned
    ensures FirstRaise(s, true) == i
  {
    ChainStepOutcome(s[i], true);
    forall j | 0 <= j < i
      ensures ChainStep(s[j], true).outcome == Returned
    {
      ChainStepOutcome(s[j], true);
    }
    FirstRaiseAt(s, true, i);
  }

  /** In continue mode every child runs and the loop returns, provided every child has a stage. */
  lemma {:induction false} ContinueRunsEveryChild(s: seq<Node>)
    requires forall j :: 0 <= j < |s| ==> ClassName(s[j]).Some?
    ensures Chain(s, false) == Trace(ChainSteps(s, false), Returned)
  {
    ChainRunsUpToFirstRaise(s, false);
    forall j | 0 <= j < |s|
      ensures ChainStep(s[j], false).outcome == Returned
    {
      ChainStepOutcome(s[j], false);
    }
    assert FirstRaise(s, false) == |s|;
    assert s[..|s|] == s;
  }

  /**
   * Every child pipeline runs either way; the children together raise exactly
   * when one of them raised, and then with the exception of the first child
   * in list order that raised, as the `future.get` loop meets it.
   */
  lemma {:induction false} AllRaisesIffSomeChildRaises(s: seq<Node>)
    ensures All(s).outcome.Raised? <==> exists i :: 0 <= i < |s| && Work(s[i]).outcome.Raised?
    ensures All(s).outcome.Raised? ==>
      exists i :: 0 <= i < |s| && All(s).outcome == Work(s[i]).outcome
        && forall j :: 0 <= j < i ==> Work(s[j]).outcome == Returned
  {
    if s != [] {
      AllRaisesIffSomeChildRaises(s[1..]);
      if exists i :: 0 <= i < |s[1..]| && Work(s[1..][i]).outcome.Raised? {
        var i :| 0 <= i < |s[1..]| && Work(s[1..][i]).outcome.Raised?;
        assert Work(s[i + 1]).outcome.Raised?;
      }
      if exists i :: 0 <= i < |s| && Work(s[i]).outcome.Raised? {
        var i :| 0 <= i < |s| && Work(s[i]).outcome.Raised?;
        if i > 0 {
          assert Work(s[1..][i - 1]).outcome.Raised?;
        }
      }
      if All(s).outcome.Raised? {
        if Work(s[0]).outcome.Raised? {
          assert All(s).outcome == Work(s[0]).outcome;
        } else {
          assert Work(s[0]).outcome == Returned;
          var i :| 0 <= i < |s[1..]| && All(s[1..]).outcome == Work(s[1..][i]).outcome
            && forall j :: 0 <= j < i ==> Work(s[1..][j]).outcome == Returned;
          forall j | 0 <= j < i + 1
            ensures Work(s[j]).outcome == Returned
          {
            if j > 0 {
              assert s[j] == s[1..][j - 1];
            }
          }
          assert All(s).outcome == Work(s[i + 1]).outcome;
        }
      }
    }
  }

  /**
   * A Parallel raises exactly when one of its child pipelines raised, with
   * the first such child's exception wrapped by `future.get` and then by
   * `doWork`; its message is that exception's `toString()`.
   */
  lemma {:induction false} ParallelRaisesFirstFailure(n: Node)
    requires n.Par?
    ensures Work(n).outcome.Raised? <==> exists i :: 0 <= i < |n.pipelines| && Work(n.pipelines[i]).outcome.Raised?
    ensures Work(n).outcome.Raised? ==>
      exists i :: 0 <= i < |n.pipelines| && (forall j :: 0 <= j < i ==> Work(n.pipelines[j]).outcome == Returned)
        && Work(n.pipelines[i]).outcome.Raised?
        && Work(n).outcome.exception ==
           Exception(PipelineExecutionExceptionClass, Some(Describe(Work(n.pipelines[i]).outcome.exception)))
  {
    AllRaisesIffSomeChildRaises(n.pipelines);
  }

  /**
   * A pipeline raises before any child runs when its chain graph would hold
   * a loop edge (a child immediately followed by itself) or has a cycle (some
   * child object occurs twice); an acyclic one runs its children in the
   * graph's topological order, which is exactly list order.
   */
  lemma {:induction false} PipelineChecksCycleFirst(n: Node)
    requires n.Seq?
    ensures (exists v :: (v, v) in Graphs.Chain(n.stages).edges) ==> Work(n) == Trace([], Raised(LoopRefused))
    ensures (forall v :: (v, v) !in Graphs.Chain(n.stages).edges) && Graphs.HasCycle(Graphs.Chain(n.stages)) ==>
      Work(n) == Trace([], Raised(CycleDetected))
    ensures !Graphs.HasCycle(Graphs.Chain(n.stages)) ==>
      Work(n) == Chain(n.stages, n.fastFail)
      && forall o :: Graphs.IsTopologicalOrder(Graphs.Chain(n.stages), o) <==> o == n.stages
  {
    Graphs.ChainLoopIffAdjacentRepeat(n.stages);
    Graphs.ChainCycleIffRepeat(n.stages);
    if Graphs.Distinct(n.stages) {
      forall o
        ensures Graphs.IsTopologicalOrder(Graphs.Chain(n.stages), o) <==> o == n.stages
      {
        Graphs.ChainTopologicalOrderIsListOrder(n.stages, o);
      }
    }
  }

  /**
   * A leaf child logs four events in one loop iteration: CALLING from the
   * pipeline and again from the runner, then the runner's CALLED, or its
   * EXCEPTION "<class>: <message>", then the pipeline's CALLED (also after a
   * failure swallowed in continue mode) or, under fast-fail after a failure,
   * its EXCEPTION "<class><message>".
   */
  lemma {:induction false} LeafIterationEvents(n: Node, ff: bool)
    requires n.Leaf? && n.stage.Some?
    ensures var cn := n.stage.value.className;
      var f := n.stage.value.failure;
      Events(ChainStep(n, ff).steps) ==
        [ Event(n.id, CallingStage, DoWorkDetails(cn)),
          Event(n.id, CallingStage, DoWorkDetails(cn)),
          if f.Some? then Event(n.id, ExceptionEvent, cn + ": " + MessageText(f.value))
          else Event(n.id, CalledStage, DoWorkDetails(cn)),
          if f.Some? && ff then Event(n.id, ExceptionEvent, cn + MessageText(f.value))
          else Event(n.id, CalledStage, DoWorkDetails(cn)) ]
  {
    var cn := n.stage.value.className;
    assert Work(n) == Trace([], StageOutcome(n.stage));
    RunnerEvents(n, ff);
    ChainStepEvents(n, ff);
    var inner := Events(Runner(n, ff).steps);
    assert |inner| == 2;
    assert inner[0] == Event(n.id, CallingStage, DoWorkDetails(cn));
  }

  /**
   * `Pipeline.run` logs PIPELINE_IN_PROGRESS, then everything `doWork`
   * logged, then SUCCESS, or EXCEPTION with the caught exception's
   * `toString()` followed by FAILURE.
   */
  lemma {:induction false} RunEvents(n: Node)
    requires n.Seq?
    ensures Events(Run(n).steps) ==
      [Event(n.id, PipelineInProgress, RunDetails(PipelineClass))] + Events(Work(n).steps) +
      (if Work(n).outcome == Returned then [Event(n.id, SuccessEvent, RunDetails(PipelineClass))]
       else [Event(n.id, ExceptionEvent, Describe(Work(n).outcome.exception)),
             Event(n.id, FailureEvent, RunDetails(PipelineClass))])
  {
    var w := Work(n);
    var start := [Logged(Event(n.id, PipelineInProgress, RunDetails(PipelineClass)))];
    var tail := if w.outcome == Returned then [Logged(Event(n.id, SuccessEvent, RunDetails(PipelineClass)))]
                else [Logged(Event(n.id, ExceptionEvent, Describe(w.outcome.exception))),
                      Logged(Event(n.id, FailureEvent, RunDetails(PipelineClass)))];
    assert Run(n).steps == start + w.steps + tail;
    EventsAppend(start + w.steps, tail);
    EventsAppend(start, w.steps);
    assert Events(tail[1..]) == if w.outcome == Returned then [] else [Event(n.id, FailureEvent, RunDetails(PipelineClass))];
  }

  /** The exception stage A of the two scenarios raises. */
  const Boom := Exception("java.lang.IllegalStateException", Some("boom"))

  /** The runner's and the loop's texts for Boom: the class name with and without ": " before the message. */
  lemma {:induction false} BoomStageTexts()
    ensures "StageA" + ": " + MessageText(Boom) == "StageA: boom"
    ensures "StageA" + MessageText(Boom) == "StageAboom"
  {
    assert MessageText(Boom) == "boom";
  }

  /** `run`'s text for Boom after the runner and the loop have wrapped it. */
  lemma {:induction false} BoomRunText()
    ensures Describe(ExecutionFailure(PipelineExecution(Boom))) ==
      ExecutionExceptionClass + ": " + PipelineExecutionExceptionClass + ": boom"
  {
    var inner := PipelineExecutionExceptionClass + ": " + "boom";
    assert Describe(PipelineExecution(Boom)) == inner;
    assert ExecutionExceptionClass + ": " + inner == ExecutionExceptionClass + ": " + PipelineExecutionExceptionClass + ": boom";
  }

  /**
   * Fast-fail scenario: steps [A, B], A raising "boom". A is called and fails,
   * B never runs, the run fails, and the run's EXCEPTION event shows the
   * stage's exception as wrapped by the runner and then by the loop.
   */
  lemma {:induction false} FailFastScenario()
    ensures var a := Leaf(1, "A", Some(Stage("StageA", Some(Boom))));
      var b := Leaf(2, "B", Some(Stage("StageB", None)));
      var r := Run(Seq(0, "P", true, [a, b]));
      && r.status == Failure
      && Events(r.steps) ==
        [ Event("P", PipelineInProgress, RunDetails(PipelineClass)),
          Event("A", CallingStage, DoWorkDetails("StageA")),
          Event("A", CallingStage, DoWorkDetails("StageA")),
          Event("A", ExceptionEvent, "StageA: boom"),
          Event("A", ExceptionEvent, "StageAboom"),
          Event("P", ExceptionEvent, ExecutionExceptionClass + ": " + PipelineExecutionExceptionClass + ": boom"),
          Event("P", FailureEvent, RunDetails(PipelineClass)) ]
  {
    var a := Leaf(1, "A", Some(Stage("StageA", Some(Boom))));
    var b := Leaf(2, "B", Some(Stage("StageB", None)));
    var p := Seq(0, "P", true, [a, b]);
    BoomStageTexts();
    BoomRunText();
    assert Graphs.Distinct([a, b]);
    FailFastStopsAtFirstFailure([a, b], 0);
    assert [a, b][..1] == [a];
    assert Work(p).steps == ChainStep(a, true).steps;
    LeafIterationEvents(a, true);
    assert Events(Work(p).steps) ==
      [ Event("A", CallingStage, DoWorkDetails("StageA")), Event("A", CallingStage, DoWorkDetails("StageA")),
        Event("A", ExceptionEvent, "StageA: boom"), Event("A", ExceptionEvent, "StageAboom") ];
    ChainStepOutcome(a, true);
    assert Work(p).outcome == Raised(ExecutionFailure(PipelineExecution(Boom)));
    RunEvents(p);
  }

  /**
   * Continue-mode scenario: the same steps without fast-fail. A's failure is
   * logged with its message, then B runs and the run succeeds.
   */
  lemma {:induction false} ContinueScenario()
    ensures var a := Leaf(1, "A", Some(Stage("StageA", Some(Boom))));
      var b := Leaf(2, "B", Some(Stage("StageB", None)));
      var r := Run(Seq(0, "P", false, [a, b]));
      && r.status == Success
      && Events(r.steps) ==
        [ Event("P", PipelineInProgress, RunDetails(PipelineClass)),
          Event("A", CallingStage, DoWorkDetails("StageA")),
          Event("A", CallingStage, DoWorkDetails("StageA")),
          Event("A", ExceptionEvent, "StageA: boom"),
          Event("A", CalledStage, DoWorkDetails("StageA")),
          Event("B", CallingStage, DoWorkDetails("StageB")),
          Event("B", CallingStage, DoWorkDetails("StageB")),
          Event("B", CalledStage, DoWorkDetails("StageB")),
          Event("B", CalledStage, DoWorkDetails("StageB")),
          Event("P", SuccessEvent, RunDetails(PipelineClass)) ]
  {
    var a := Leaf(1, "A", Some(Stage("StageA", Some(Boom))));
    var b := Leaf(2, "B", Some(Stage("StageB", None)));
    var p := Seq(0, "P", false, [a, b]);
    BoomStageTexts();
    assert Graphs.Distinct([a, b]);
    ContinueRunsEveryChild([a, b]);
    assert [a, b][1..] == [b];
    assert ChainSteps([b], false) == ChainStep(b, false).steps + ChainSteps([], false);
    assert ChainSteps([a, b], false) == ChainStep(a, false).steps + ChainStep(b, false).steps;
    EventsAppend(ChainStep(a, false).steps, ChainStep(b, false).steps);
    LeafIterationEvents(a, false);
    LeafIterationEvents(b, false);
    assert Work(p) == Chain([a, b], false);
    assert Events(Work(p).steps) ==
      [ Event("A", CallingStage, DoWorkDetails("StageA")), Event("A", CallingStage, DoWorkDetails("StageA")),
        Event("A", ExceptionEvent, "StageA: boom"), Event("A", CalledStage, DoWorkDetails("StageA")),
        Event("B", CallingStage, DoWorkDetails("StageB")), Event("B", CallingStage, DoWorkDetails("StageB")),
        Event("B", CalledStage, DoWorkDetails("StageB")), Event("B", CalledStage, DoWorkDetails("StageB")) ];
    RunEvents(p);
  }
}
