/**
 * The engine that runs a node tree against a shared ExecutionContext:
 * `StageRunner.run`, the loop of `Pipeline.doWork`, and `doWork` for each
 * kind of node. Each method returns the trace it produced. It is proved to
 * produce exactly the trace that the matching function of `Nodes` specifies,
 * to grow the log by exactly that trace's events, and to leave the status and
 * the object store alone.
 */
module Engine {
  import opened Context
  import opened Nodes
  import Graphs

  /** `doWork` of any node, dispatched on its kind. */
  method DoWork<V>(ctx: ExecutionContext<V>, n: Node) returns (t: Trace)
    modifies ctx
    ensures t == Work(n)
    ensures ctx.eventLog == old(ctx.eventLog) + Events(t.steps)
    ensures ctx.status == old(ctx.status) && ctx.objects == old(ctx.objects)
    decreases Size(n), 0
  {
    match n
    case Leaf(_, _, st) =>
      // the wrapper delegates to its stage; without one the call dereferences null
      t := Trace([], StageOutcome(st));
    case Seq(_, _, ff, stages) =>
      // the edges go in first: a child followed by itself is a loop edge the multigraph refuses
      Graphs.ChainLoopIffAdjacentRepeat(stages);
      Graphs.ChainCycleIffRepeat(stages);
      if Graphs.AdjacentRepeat(stages) {
        t := Trace([], Raised(LoopRefused));
      } else if Graphs.HasCycle(Graphs.Chain(stages)) {
        t := Trace([], Raised(CycleDetected));
      } else {
        t := RunChain(ctx, stages, ff);
      }
    case Par(_, _, ps) =>
      // the first failing future's exception, wrapped by `future.get` and by `doWork`
      var all := RunAll(ctx, ps);
      t := Trace(all.steps, ParallelOutcome(all.outcome));
    case Fork(_, _, ps) =>
      var all := RunAll(ctx, ps);
      t := Trace(all.steps, Returned);
  }

  /** The loop of `Pipeline.doWork` over an acyclic chain: children in list order, stopping when one raises. */
  method RunChain<V>(ctx: ExecutionContext<V>, s: seq<Node>, ff: bool) returns (t: Trace)
    modifies ctx
    ensures t == Chain(s, ff)
    ensures ctx.eventLog == old(ctx.eventLog) + Events(t.steps)
    ensures ctx.status == old(ctx.status) && ctx.objects == old(ctx.objects)
    decreases SizeAll(s), 3
  {
    var steps: seq<Step> := [];
    var i := 0;
    while i < |s|
      invariant 0 <= i <= |s| && ChainSoFar(s, ff, i, steps)
      invariant ctx.eventLog == old(ctx.eventLog) + Events(steps)
      invariant ctx.status == old(ctx.status) && ctx.objects == old(ctx.objects)
    {
      SizeAllElement(s, i);
      ghost var before := ctx.eventLog;
      var h := PipelineStep(ctx, s[i], ff);
      ChainSoFarStep(s, ff, i, steps);
      LogGrows(old(ctx.eventLog), before, ctx.eventLog, steps, h.steps);
      steps := steps + h.steps;
      if h.outcome.Raised? {
        t := Trace(steps, h.outcome);
        return;
      }
      i := i + 1;
    }
    ChainSoFarDone(s, ff, steps);
    t := Trace(steps, Returned);
  }

  /** A log that held the events of `steps` and then gained those of `more` holds the events of both. */
  lemma {:induction false} LogGrows(log0: seq<Event>, before: seq<Event>, after: seq<Event>, steps: seq<Step>, more: seq<Step>)
    requires before == log0 + Events(steps) && after == before + Events(more)
    ensures after == log0 + Events(steps + more)
  {
    EventsAppend(steps, more);
  }

  /** Once every child has run without raising, the chain is what they logged. */
  lemma {:induction false} ChainSoFarDone(s: seq<Node>, ff: bool, steps: seq<Step>)
    requires ChainSoFar(s, ff, |s|, steps)
    ensures Chain(s, ff) == Trace(steps, Returned)
  {
    assert s[|s|..] == [];
    assert steps + [] == steps;
  }

  /** After the first `i` children, none of which raised: `steps` and the rest of the chain make up the whole chain. */
  ghost predicate ChainSoFar(s: seq<Node>, ff: bool, i: nat, steps: seq<Step>)
    requires i <= |s|
  {
    Chain(s, ff).steps == steps + Chain(s[i..], ff).steps && Chain(s, ff).outcome == Chain(s[i..], ff).outcome
  }

  /** Child `i`'s iteration either ends the chain, raising, or moves the split point one child on. */
  lemma {:induction false} ChainSoFarStep(s: seq<Node>, ff: bool, i: nat, steps: seq<Step>)
    requires i < |s| && ChainSoFar(s, ff, i, steps)
    ensures ChainStep(s[i], ff).outcome.Raised? ==>
      Chain(s, ff) == Trace(steps + ChainStep(s[i], ff).steps, ChainStep(s[i], ff).outcome)
    ensures ChainStep(s[i], ff).outcome == Returned ==> ChainSoFar(s, ff, i + 1, steps + ChainStep(s[i], ff).steps)
  {
    assert s[i..][0] == s[i] && s[i..][1..] == s[i + 1..];
    var h := ChainStep(s[i], ff);
    if h.outcome == Returned {
      assert steps + Chain(s[i..], ff).steps == (steps + h.steps) + Chain(s[i + 1..], ff).steps;
    }
  }

  /** Every child pipeline's `doWork`, one after another in list order; raises the first child failure met. */
  method RunAll<V>(ctx: ExecutionContext<V>, s: seq<Node>) returns (t: Trace)
    modifies ctx
    ensures t == All(s)
    ensures ctx.eventLog == old(ctx.eventLog) + Events(t.steps)
    ensures ctx.status == old(ctx.status) && ctx.objects == old(ctx.objects)
    decreases SizeAll(s), 3
  {
    var steps: seq<Step> := [];
    var first := Returned;
    var i := 0;
    while i < |s|
      invariant 0 <= i <= |s| && AllSoFar(s, i, steps, first)
      invariant ctx.eventLog == old(ctx.eventLog) + Events(steps)
      invariant ctx.status == old(ctx.status) && ctx.objects == old(ctx.objects)
    {
      SizeAllElement(s, i);
      ghost var before := ctx.eventLog;
      var w := DoWork(ctx, s[i]);
      AllSoFarStep(s, i, steps, first);
      LogGrows(old(ctx.eventLog), before, ctx.eventLog, steps, w.steps);
      steps := steps + w.steps;
      if first == Returned {
        first := w.outcome;
      }
      i := i + 1;
    }
    assert s[i..] == [];
    t := Trace(steps, first);
  }

  /**
   * After the first `i` children: `steps`, the first failure among them
   * (`first`, or Returned when none failed) and the rest of the children make
   * up the whole run.
   */
  ghost predicate AllSoFar(s: seq<Node>, i: nat, steps: seq<Step>, first: Outcome)
    requires i <= |s|
  {
    && All(s).steps == steps + All(s[i..]).steps
    && All(s).outcome == if first.Raised? then first else All(s[i..]).outcome
  }

  /** Running child `i` moves the split point one child on. */
  lemma {:induction false} AllSoFarStep(s: seq<Node>, i: nat, steps: seq<Step>, first: Outcome)
    requires i < |s| && AllSoFar(s, i, steps, first)
    ensures AllSoFar(s, i + 1, steps + Work(s[i]).steps, if first == Returned then Work(s[i]).outcome else first)
  {
    AllFrom(s, i);
    assert steps + All(s[i..]).steps == (steps + Work(s[i]).steps) + All(s[i + 1..]).steps;
  }

  /** Running the children from position `i` is running child `i` and then the rest. */
  lemma {:induction false} AllFrom(s: seq<Node>, i: nat)
    requires i < |s|
    ensures All(s[i..]).steps == Work(s[i]).steps + All(s[i + 1..]).steps
    ensures All(s[i..]).outcome == if Work(s[i]).outcome.Raised? then Work(s[i]).outcome else All(s[i + 1..]).outcome
  {
    assert s[i..][0] == s[i] && s[i..][1..] == s[i + 1..];
  }

  /**
   * `StageRunner.run`: init, pre-callbacks, CALLING, doWork, then CALLED or
   * EXCEPTION; post-callbacks and close in the `finally` part. Under
   * fast-fail a failure is re-raised after close.
   */
  method RunStage<V>(ctx: ExecutionContext<V>, n: Node, ff: bool) returns (t: Trace)
    modifies ctx
    ensures t == Runner(n, ff)
    ensures ctx.eventLog == old(ctx.eventLog) + Events(t.steps)
    ensures ctx.status == old(ctx.status) && ctx.objects == old(ctx.objects)
    decreases Size(n), 1
  {
    var id := n.id;
    match ClassName(n) {
      case None =>
        // the class-name lookup fails before CALLING is logged and again in the
        // handler; only the `finally` part runs, with the initial callback kind
        t := Trace([Init(id), PreCallbacks(id), PostCallbacks(id, PostStageCallbackSuccess), Close(id)],
                   Raised(NullDereference));
        RunnerEvents(n, ff);
      case Some(cn) =>
        ghost var log0 := ctx.eventLog;
        var calling := Event(id, CallingStage, DoWorkDetails(cn));
        ctx.CreateEvent(calling.id, calling.eventType, calling.details);
        var w := DoWork(ctx, n);
        var last, event, outcome;
        match w.outcome {
          case Returned =>
            last, event, outcome := Event(id, CalledStage, DoWorkDetails(cn)), PostStageCallbackSuccess, Returned;
          case Raised(e) =>
            last, event := Event(id, ExceptionEvent, cn + ": " + MessageText(e)), PostStageCallbackError;
            // under fast-fail the stage's exception is re-thrown as a PipelineExecutionException
            outcome := if ff then Raised(PipelineExecution(e)) else Returned;
        }
        ctx.CreateEvent(last.id, last.eventType, last.details);
        t := Trace([Init(id), PreCallbacks(id), Logged(calling)] + w.steps
                   + [Logged(last), PostCallbacks(id, event), Close(id)], outcome);
        RunnerLog(n, ff, log0);
    }
  }

  /** The runner's log: CALLING, the stage's own events, then CALLED or EXCEPTION. */
  lemma {:induction false} RunnerLog(n: Node, ff: bool, log0: seq<Event>)
    requires ClassName(n).Some?
    ensures var cn := ClassName(n).value;
      log0 + Events(Runner(n, ff).steps)
      == log0 + [Event(n.id, CallingStage, DoWorkDetails(cn))] + Events(Work(n).steps)
         + [if Work(n).outcome == Returned then Event(n.id, CalledStage, DoWorkDetails(cn))
            else Event(n.id, ExceptionEvent, cn + ": " + MessageText(Work(n).outcome.exception))]
  {
    RunnerEvents(n, ff);
    var ev := Events(Runner(n, ff).steps);
    assert ev == [ev[0]] + ev[1..|ev| - 1] + [ev[|ev| - 1]];
  }

  /**
   * One iteration of the loop in `Pipeline.doWork`: CALLING, init, the
   * runner, close, CALLED; when the runner raises, EXCEPTION and close, and
   * the failure is re-raised under fast-fail.
   */
  method PipelineStep<V>(ctx: ExecutionContext<V>, n: Node, ff: bool) returns (t: Trace)
    modifies ctx
    ensures t == ChainStep(n, ff)
    ensures ctx.eventLog == old(ctx.eventLog) + Events(t.steps)
    ensures ctx.status == old(ctx.status) && ctx.objects == old(ctx.objects)
    decreases Size(n), 2
  {
    var id := n.id;
    match ClassName(n) {
      case None =>
        // the class-name lookup for the CALLING details fails, and again in the handler
        t := Trace([], Raised(NullDereference));
      case Some(cn) =>
        ghost var log0 := ctx.eventLog;
        var calling := Event(id, CallingStage, DoWorkDetails(cn));
        ctx.CreateEvent(calling.id, calling.eventType, calling.details);
        var r := RunStage(ctx, n, ff);
        match r.outcome {
          case Returned =>
            var last := Event(id, CalledStage, DoWorkDetails(cn));
            ctx.CreateEvent(last.id, last.eventType, last.details);
            t := Trace([Logged(calling), Init(id)] + r.steps + [Close(id), Logged(last)], Returned);
          case Raised(e) =>
            var last := Event(id, ExceptionEvent, cn + MessageText(e));
            ctx.CreateEvent(last.id, last.eventType, last.details);
            // under fast-fail the runner's exception is re-thrown as an ExecutionException
            t := Trace([Logged(calling), Init(id)] + r.steps + [Logged(last), Close(id)],
                       if ff then Raised(ExecutionFailure(e)) else Returned);
        }
        ChainStepLog(n, ff, log0);
    }
  }

  /** One loop iteration's log: CALLING, the runner's events, then CALLED or EXCEPTION. */
  lemma {:induction false} ChainStepLog(n: Node, ff: bool, log0: seq<Event>)
    requires ClassName(n).Some?
    ensures var cn := ClassName(n).value;
      log0 + Events(ChainStep(n, ff).steps)
      == log0 + [Event(n.id, CallingStage, DoWorkDetails(cn))] + Events(Runner(n, ff).steps)
         + [if Runner(n, ff).outcome == Returned then Event(n.id, CalledStage, DoWorkDetails(cn))
            else Event(n.id, ExceptionEvent, cn + MessageText(Runner(n, ff).outcome.exception))]
  {
    ChainStepEvents(n, ff);
    RunnerLifecycle(n, ff);
    var ev := Events(ChainStep(n, ff).steps);
    assert ev == [ev[0]] + ev[1..|ev| - 1] + [ev[|ev| - 1]];
  }
}
