/**
 * The specification validator: six structural checks, run as the six stages
 * of a fast-fail pipeline on the builder's context. The first check that
 * rejects ends the run, the run fails, and the validator reports the
 * specification as malformed.
 */
module Validator {
  import opened Wrappers
  import opened Context
  import opened Nodes
  import opened Specification
  import opened BuilderContext
  import Containers
  import Graphs

  /** A check's verdict: pass, or a rejection with its message and the offending ids. */
  datatype Verdict = Pass | Reject(message: string, ids: set<string>)

  /** The ids that occur more than once in `ids`. */
  function Duplicates(ids: seq<string>): set<string>
  {
    set i, j | 0 <= i < j < |ids| && ids[i] == ids[j] :: ids[i]
  }

  /** A list has no repeated id exactly when its duplicate set is empty. */
  lemma {:induction false} DuplicatesEmptyIffDistinct(ids: seq<string>)
    ensures Duplicates(ids) == {} <==> Graphs.Distinct(ids)
  {
    if !Graphs.Distinct(ids) {
      var i, j :| 0 <= i < j < |ids| && ids[i] == ids[j];
      assert ids[i] in Duplicates(ids);
    }
  }

  /**
   * The unique-id check's scan: an id is added to the seen set the first
   * time and to the duplicate set every later time.
   */
  method FindDuplicates(ids: seq<string>) returns (dup: set<string>)
    ensures dup == Duplicates(ids)
  {
    var seen: set<string> := {};
    dup := {};
    for k := 0 to |ids|
      invariant seen == set x | x in ids[..k]
      invariant dup == Duplicates(ids[..k])
    {
      var prefix := ids[..k + 1];
      assert prefix[..k] == ids[..k];
      if ids[k] in seen {
        var i :| 0 <= i < k && ids[..k][i] == ids[k];
        assert prefix[i] == prefix[k];
        dup := dup + {ids[k]};
      } else {
        forall i | 0 <= i < k
          ensures prefix[i] != prefix[k]
        {
          assert prefix[i] == ids[..k][i] && ids[..k][i] in seen;
        }
        seen := seen + {ids[k]};
      }
      assert dup == Duplicates(prefix);
    }
    assert ids[..|ids|] == ids;
  }

  /** Every id and every top-level step must be non-empty; the first kind found empty is reported. */
  function NullIdsCheck(s: Spec): (r: Verdict)
    ensures r.Pass? <==>
      && s.id != ""
      && (forall d :: d in s.stages ==> d.id != "")
      && (forall p :: p in s.parallels ==> p.id != "")
      && (forall p :: p in AllParallelPipelines(s.parallels) ==> p.id != "")
      && (forall st :: st in s.steps ==> st != "")
  {
    if s.id == "" then Reject("The pipeline specification has a null identifier", {})
    else if exists d :: d in s.stages && d.id == "" then
      Reject("At least one stage definition has a null identifier", {})
    else if exists p :: p in s.parallels && p.id == "" then
      Reject("At least one parallel definition has a null identifier", {})
    else if exists p :: p in AllParallelPipelines(s.parallels) && p.id == "" then
      Reject("At least one pipeline definition has a null identifier", {})
    else if exists st :: st in s.steps && st == "" then
      Reject("At least one step definition has a null identifier", {})
    else Pass
  }

  /** Stage, parallel and parallel-pipeline ids must all differ; the repeated ones are reported. */
  function UniqueIdsCheck(s: Spec): (r: Verdict)
    ensures r.Pass? <==> Graphs.Distinct(StageIds(s) + ParallelIds(s) + PipelineIds(s))
    ensures r.Reject? ==> r.ids == Duplicates(StageIds(s) + ParallelIds(s) + PipelineIds(s))
  {
    var dup := Duplicates(StageIds(s) + ParallelIds(s) + PipelineIds(s));
    DuplicatesEmptyIffDistinct(StageIds(s) + ParallelIds(s) + PipelineIds(s));
    if dup != {} then Reject("The following Ids are duplicated:", dup) else Pass
  }

  /** A stage without a class name is malformed; the malformed stages' ids are reported. */
  function StageDefsCheck(s: Spec): (r: Verdict)
    ensures r.Pass? <==> forall d :: d in s.stages ==> d.className != ""
    ensures r.Reject? ==> forall x :: x in r.ids <==> exists d :: d in s.stages && d.className == "" && d.id == x
  {
    if exists d :: d in s.stages && d.className == "" then
      Reject("The following stage definitions are malformed:", set d | d in s.stages && d.className == "" :: d.id)
    else Pass
  }

  /** A parallel pipeline whose steps name an undeclared id is reported by its own id. */
  function PipelineDefsCheck(s: Spec): (r: Verdict)
    ensures r.Pass? <==> forall p, st :: p in AllParallelPipelines(s.parallels) && st in p.steps ==> st in DeclaredIds(s)
    ensures r.Reject? ==> forall x :: x in r.ids <==>
      exists p :: p in AllParallelPipelines(s.parallels) && p.id == x && exists st :: st in p.steps && st !in DeclaredIds(s)
  {
    var declared := DeclaredIds(s);
    var all := AllParallelPipelines(s.parallels);
    if exists p, st :: p in all && st in p.steps && st !in declared then
      Reject("The following pipelines contain unresolved references:",
             set p | p in all && (exists st :: st in p.steps && st !in declared) :: p.id)
    else Pass
  }

  /** A parallel whose pipelines carry an undeclared id is reported by its own id. */
  function ParallelDefsCheck(s: Spec): Verdict
  {
    var declared := DeclaredIds(s);
    var bad := set q, p | q in s.parallels && p in q.pipelines && p.id !in declared :: q.id;
    if bad != {} then Reject("The following parallels contain unresolved references:", bad) else Pass
  }

  /** The parallel check never rejects: every parallel pipeline's id is itself a declared id. */
  lemma {:induction false} ParallelDefsCheckNeverRejects(s: Spec)
    ensures ParallelDefsCheck(s) == Pass
  {
    var declared := DeclaredIds(s);
    forall q, p | q in s.parallels && p in q.pipelines
      ensures p.id in declared
    {
      var i :| 0 <= i < |s.parallels| && s.parallels[i] == q;
      AllParallelPipelinesMembers(s.parallels, p);
      var ps := AllParallelPipelines(s.parallels);
      var k :| 0 <= k < |ps| && ps[k] == p;
      assert PipelineIds(s)[k] == p.id;
    }
  }

  /** Every top-level step must be a declared id; the unresolved steps are reported. */
  function StepsCheck(s: Spec): (r: Verdict)
    ensures r.Pass? <==> forall st :: st in s.steps ==> st in DeclaredIds(s)
    ensures r.Reject? ==> forall x :: x in r.ids <==> x in s.steps && x !in DeclaredIds(s)
  {
    var declared := DeclaredIds(s);
    if exists st :: st in s.steps && st !in declared then
      Reject("The following steps definitions are unresolved:", set st | st in s.steps && st !in declared)
    else Pass
  }

  /** The six checks, in the order the validation pipeline runs them. */
  function Checks(s: Spec): seq<Verdict>
  {
    [NullIdsCheck(s), UniqueIdsCheck(s), StageDefsCheck(s), PipelineDefsCheck(s), ParallelDefsCheck(s), StepsCheck(s)]
  }

  const CheckNames := ["validate null IDs", "validate unique IDs", "validate stage definitions",
                       "validate pipeline definitions", "validate parallel definitions", "validate spec steps"]

  /** The runtime class name of a check's lambda, which the JVM chooses; a fixed stand-in here. */
  const CheckClassName := "PipelineSpecValidator$$Lambda"

  const BuilderExceptionClass := "org.dplevine.patterns.pipeline.PipelineBuilderException"

  /** The exception a check's lambda throws for a verdict: a builder exception with the rejection's message. */
  function Thrown(v: Verdict): Option<Exception>
  {
    if v.Reject? then Some(Exception(BuilderExceptionClass, Some(v.message))) else None
  }

  /** Six check stages for six verdicts: wrappers whose stage raises exactly when its verdict rejects. */
  function StagesFor(vs: seq<Verdict>): (r: seq<Node>)
    requires |vs| == 6
    ensures |r| == 6
    ensures forall i :: 0 <= i < 6 ==> r[i] == Leaf(i + 1, CheckNames[i], Some(Stage(CheckClassName, Thrown(vs[i]))))
  {
    seq(6, i requires 0 <= i < 6 => Leaf(i + 1, CheckNames[i], Some(Stage(CheckClassName, Thrown(vs[i])))))
  }

  /** The six check stages of a specification. */
  function CheckStages(s: Spec): seq<Node>
  {
    StagesFor(Checks(s))
  }

  /** The validation pipeline: default fast-fail, the checks in order. */
  function ValidationPipeline(s: Spec): Node
  {
    Seq(0, "validate: " + s.id, true, CheckStages(s))
  }

  /** The checks are six different wrapper objects, so the chain has no cycle. */
  lemma {:induction false} StagesForDistinct(vs: seq<Verdict>)
    requires |vs| == 6
    ensures Graphs.Distinct(StagesFor(vs))
  {
    var c := StagesFor(vs);
    forall i, j | 0 <= i < j < |c|
      ensures c[i] != c[j]
    {
      assert c[i].ref != c[j].ref;
    }
  }

  /** A fast-fail run of six check stages fails exactly when one of the verdicts rejects. */
  lemma {:induction false} StagesForFailIffSomeReject(id: string, vs: seq<Verdict>)
    requires |vs| == 6
    ensures Run(Seq(0, id, true, StagesFor(vs))).status == Failure <==> exists i :: 0 <= i < 6 && vs[i].Reject?
    ensures Run(Seq(0, id, true, StagesFor(vs))).status == Success <==> forall i :: 0 <= i < 6 ==> vs[i].Pass?
  {
    var c := StagesFor(vs);
    StagesForDistinct(vs);
    ChainRunsUpToFirstRaise(c, true);
    var k := FirstRaise(c, true);
    forall i | 0 <= i < 6
      ensures ChainStep(c[i], true).outcome.Raised? <==> vs[i].Reject?
    {
      ChainStepOutcome(c[i], true);
    }
    if k < 6 {
      assert vs[k].Reject?;
    }
  }

  /** The validation run fails exactly when one of the six checks rejects. */
  lemma {:induction false} ValidationFailsIffSomeCheckRejects(s: Spec)
    ensures Run(ValidationPipeline(s)).status == Failure <==> exists i :: 0 <= i < 6 && Checks(s)[i].Reject?
    ensures Run(ValidationPipeline(s)).status == Success <==> forall i :: 0 <= i < 6 ==> Checks(s)[i].Pass?
  {
    StagesForFailIffSomeReject("validate: " + s.id, Checks(s));
  }

  /**
   * Under fast-fail the first rejecting check ends the run: the checks before
   * it and it alone have run, and the run fails.
   */
  lemma {:induction false} ValidationStopsAtFirstRejection(s: Spec, i: nat)
    requires i < 6 && Checks(s)[i].Reject?
    requires forall j :: 0 <= j < i ==> Checks(s)[j].Pass?
    ensures Work(ValidationPipeline(s)) == Trace(ChainSteps(CheckStages(s)[..i + 1], true),
      Raised(ExecutionFailure(PipelineExecution(Exception(BuilderExceptionClass, Some(Checks(s)[i].message))))))
  {
    StagesForStop("validate: " + s.id, Checks(s), i);
  }

  /** Six check stages under fast-fail stop at the first rejecting verdict, which raises. */
  lemma {:induction false} StagesForStop(id: string, vs: seq<Verdict>, i: nat)
    requires |vs| == 6 && i < 6 && vs[i].Reject?
    requires forall j :: 0 <= j < i ==> vs[j].Pass?
    ensures Work(Seq(0, id, true, StagesFor(vs))) == Trace(ChainSteps(StagesFor(vs)[..i + 1], true),
      Raised(ExecutionFailure(PipelineExecution(Exception(BuilderExceptionClass, Some(vs[i].message))))))
  {
    StagesForDistinct(vs);
    FailFastStopsAtFirstFailure(StagesFor(vs), i);
    ChainStepOutcome(StagesFor(vs)[i], true);
  }

  /** The validation pipeline as `doWork` assembles it: a default pipeline and six `addStage` calls. */
  method NewValidationPipeline(id: string, c: seq<Node>) returns (p: Containers.Pipeline<BuilderObject>)
    requires |c| == 6
    ensures fresh(p) && p.AsNode() == Seq(0, "validate: " + id, true, c)
  {
    p := new Containers.Pipeline<BuilderObject>(0, "validate: " + id);
    var self := p.AddStage(c[0]);
    self := p.AddStage(c[1]);
    self := p.AddStage(c[2]);
    self := p.AddStage(c[3]);
    self := p.AddStage(c[4]);
    self := p.AddStage(c[5]);
    assert p.stages == [c[0], c[1], c[2], c[3], c[4], c[5]] == c;
  }

  const MalformedMessage := "The pipeline specification is malformed, please correct: "

  /**
   * `doWork`: runs the validation pipeline on the context and fails when the
   * run failed. Without a specification in the context it throws before
   * running anything (the error carries the exception's text).
   */
  method Validate(ctx: ExecutionContext<BuilderObject>) returns (r: Result<(), string>)
    modifies ctx
    ensures ctx.objects == old(ctx.objects)
    ensures StoredSpec(ctx.objects).None? ==>
      r == Err(Describe(MissingSpec(ctx.objects))) && ctx.eventLog == old(ctx.eventLog) && ctx.status == old(ctx.status)
    ensures StoredSpec(ctx.objects).Some? ==>
      var s := StoredSpec(ctx.objects).value;
      && ctx.status == Run(ValidationPipeline(s)).status
      && ctx.eventLog == old(ctx.eventLog) + Events(Run(ValidationPipeline(s)).steps)
      && (r.Ok? <==> forall i :: 0 <= i < 6 ==> Checks(s)[i].Pass?)
  {
    var stored := StoredSpec(ctx.objects);
    if stored.None? {
      return Err(Describe(MissingSpec(ctx.objects)));
    }
    var s := stored.value;
    r := RunChecks(ctx, s.id, Checks(s));
  }

  /** Runs the six check stages for `vs` as a fast-fail pipeline on the context; fails when the run failed. */
  method RunChecks(ctx: ExecutionContext<BuilderObject>, id: string, vs: seq<Verdict>) returns (r: Result<(), string>)
    requires |vs| == 6
    modifies ctx
    ensures ctx.objects == old(ctx.objects)
    ensures ctx.status == Run(Seq(0, "validate: " + id, true, StagesFor(vs))).status
    ensures ctx.eventLog == old(ctx.eventLog) + Events(Run(Seq(0, "validate: " + id, true, StagesFor(vs))).steps)
    ensures r.Ok? <==> forall i :: 0 <= i < 6 ==> vs[i].Pass?
  {
    var p := NewValidationPipeline(id, StagesFor(vs));
    p.Run(ctx);
    StagesForFailIffSomeReject("validate: " + id, vs);
    if ctx.IsFailure() {
      r := Err(MalformedMessage);
    } else {
      r := Ok(());
    }
  }
}
