/**
 * The pipeline specification a builder reads: stage definitions (an id and
 * a class name), parallel definitions (an id and numbered parallel
 * pipelines), and the top-level steps. A Java `null` string is the empty
 * string here; the validator treats both alike.
 */
module Specification {

  datatype StageDef = StageDef(id: string, className: string)

  datatype PipelineDef = PipelineDef(id: string, steps: seq<string>)

  datatype ParallelDef = ParallelDef(id: string, pipelines: seq<PipelineDef>)

  /** A specification as the validator and the generator see it. */
  datatype Spec = Spec(id: string, fastFail: bool, stages: seq<StageDef>, parallels: seq<ParallelDef>, steps: seq<string>)

  /** The decimal digit `d`. */
  function DigitChar(d: nat): char
    requires d < 10
  {
    ('0' as int + d) as char
  }

  /** `n` in decimal, as Java's string concatenation writes an int. */
  function NatToString(n: nat): (r: string)
    ensures |r| >= 1 && (n < 10 <==> |r| == 1)
  {
    if n < 10 then [DigitChar(n)] else NatToString(n / 10) + [DigitChar(n % 10)]
  }

  /** Different numbers are written differently. */
  lemma {:induction false} NatToStringInjective(a: nat, b: nat)
    requires NatToString(a) == NatToString(b)
    ensures a == b
  {
    var s := NatToString(a);
    if a >= 10 {
      assert s[..|s| - 1] == NatToString(a / 10) && s[|s| - 1] == DigitChar(a % 10);
      assert s[..|s| - 1] == NatToString(b / 10) && s[|s| - 1] == DigitChar(b % 10);
      NatToStringInjective(a / 10, b / 10);
    }
  }

  /** The id of parallel pipeline number `k` of the parallel `id`: `"<id>[k]"`. */
  function PipelineId(id: string, k: nat): string
  {
    id + "[" + NatToString(k) + "]"
  }

  /** Within one parallel, different numbers give different pipeline ids. */
  lemma {:induction false} PipelineIdInjective(id: string, j: nat, k: nat)
    requires PipelineId(id, j) == PipelineId(id, k)
    ensures j == k
  {
    var a, b := PipelineId(id, j), PipelineId(id, k);
    assert NatToString(j) == a[|id| + 1..|a| - 1];
    assert NatToString(k) == b[|id| + 1..|b| - 1];
    NatToStringInjective(j, k);
  }

  /** Pipeline number `k` of the parallel `id` has id `"<id>[k]"`. */
  ghost predicate WellNumbered(id: string, ps: seq<PipelineDef>)
  {
    forall k :: 0 <= k < |ps| ==> ps[k].id == PipelineId(id, k)
  }

  /** The pipelines of a well-numbered parallel have pairwise different ids. */
  lemma {:induction false} WellNumberedIdsDistinct(id: string, ps: seq<PipelineDef>, j: nat, k: nat)
    requires WellNumbered(id, ps) && j < k < |ps|
    ensures ps[j].id != ps[k].id
  {
    if ps[j].id == ps[k].id {
      PipelineIdInjective(id, j, k);
    }
  }

  /** `getAllParallelPipelines`: every parallel's pipelines, parallel after parallel. */
  function AllParallelPipelines(parallels: seq<ParallelDef>): seq<PipelineDef>
  {
    if parallels == [] then []
    else AllParallelPipelines(parallels[..|parallels| - 1]) + parallels[|parallels| - 1].pipelines
  }

  /** A pipeline definition is listed exactly when some parallel holds it. */
  lemma {:induction false} AllParallelPipelinesMembers(parallels: seq<ParallelDef>, p: PipelineDef)
    ensures p in AllParallelPipelines(parallels) <==> exists i :: 0 <= i < |parallels| && p in parallels[i].pipelines
  {
    if parallels != [] {
      var init := parallels[..|parallels| - 1];
      AllParallelPipelinesMembers(init, p);
      assert forall i :: 0 <= i < |init| ==> init[i] == parallels[i];
    }
  }

  /** The ids of the stage definitions, in order. */
  function StageIds(s: Spec): seq<string>
  {
    seq(|s.stages|, i requires 0 <= i < |s.stages| => s.stages[i].id)
  }

  /** The ids of the parallel definitions, in order. */
  function ParallelIds(s: Spec): seq<string>
  {
    seq(|s.parallels|, i requires 0 <= i < |s.parallels| => s.parallels[i].id)
  }

  /** The ids of every parallel pipeline, parallel after parallel. */
  function PipelineIds(s: Spec): seq<string>
  {
    var ps := AllParallelPipelines(s.parallels);
    seq(|ps|, i requires 0 <= i < |ps| => ps[i].id)
  }

  /** Every id the specification declares: stages, parallel pipelines and parallels. */
  function DeclaredIds(s: Spec): set<string>
  {
    (set x | x in StageIds(s)) + (set x | x in PipelineIds(s)) + (set x | x in ParallelIds(s))
  }

  /** A parallel section under construction: its id and its numbered pipelines. */
  class ParallelDefinition {
    var id: string
    var parallelPipelines: seq<PipelineDef>

    function Value(): ParallelDef
      reads this
    {
      ParallelDef(id, parallelPipelines)
    }

    constructor ()
      ensures id == "" && parallelPipelines == []
    {
      id := "";
      parallelPipelines := [];
    }

    /** The list constructor numbers the given pipelines from 0. */
    constructor WithPipelines(id: string, ps: seq<PipelineDef>)
      ensures this.id == id && |parallelPipelines| == |ps| && WellNumbered(id, parallelPipelines)
      ensures forall k :: 0 <= k < |ps| ==> parallelPipelines[k].steps == ps[k].steps
    {
      this.id := id;
      parallelPipelines := [];
      new;
      SetParallelPipelines(ps);
    }

    method SetId(id: string)
      modifies this
      ensures this.id == id && parallelPipelines == old(parallelPipelines)
    {
      this.id := id;
    }

    /** The id the next pipeline receives: numbered by the current count. */
    function NextParallelPipelineId(): string
      reads this
    {
      PipelineId(id, |parallelPipelines|)
    }

    /** Appends a pipeline of the given steps, numbered by the count before appending. */
    method AddParallelPipeline(steps: seq<string>)
      modifies this
      ensures id == old(id)
      ensures parallelPipelines == old(parallelPipelines) + [PipelineDef(PipelineId(id, |old(parallelPipelines)|), steps)]
      ensures old(WellNumbered(id, parallelPipelines)) ==> WellNumbered(id, parallelPipelines)
    {
      parallelPipelines := parallelPipelines + [PipelineDef(PipelineId(id, |parallelPipelines|), steps)];
    }

    /** Appends the given pipelines in order, each renamed to the next number. */
    method SetParallelPipelines(ps: seq<PipelineDef>)
      modifies this
      ensures id == old(id)
      ensures |parallelPipelines| == |old(parallelPipelines)| + |ps|
      ensures parallelPipelines[..|old(parallelPipelines)|] == old(parallelPipelines)
      ensures forall k :: 0 <= k < |ps| ==>
        parallelPipelines[|old(parallelPipelines)| + k] == PipelineDef(PipelineId(id, |old(parallelPipelines)| + k), ps[k].steps)
      ensures old(WellNumbered(id, parallelPipelines)) ==> WellNumbered(id, parallelPipelines)
    {
      ghost var before := parallelPipelines;
      var i := 0;
      while i < |ps|
        invariant 0 <= i <= |ps| && id == old(id)
        invariant |parallelPipelines| == |before| + i
        invariant parallelPipelines[..|before|] == before
        invariant forall k :: 0 <= k < i ==>
          parallelPipelines[|before| + k] == PipelineDef(PipelineId(id, |before| + k), ps[k].steps)
        invariant WellNumbered(id, before) ==> WellNumbered(id, parallelPipelines)
      {
        var p := ps[i].(id := NextParallelPipelineId());
        parallelPipelines := parallelPipelines + [p];
        i := i + 1;
      }
    }

    function GetId(): string
      reads this
    {
      id
    }

    function GetParallelPipelines(): seq<PipelineDef>
      reads this
    {
      parallelPipelines
    }
  }

  /** A specification under construction; the setters replace one part each. */
  class PipelineSpecification {
    var id: string
    var fastFail: bool
    var stages: seq<StageDef>
    var parallels: seq<ParallelDef>
    var steps: seq<string>

    function Value(): Spec
      reads this
    {
      Spec(id, fastFail, stages, parallels, steps)
    }

    /** A fresh specification: no id, no stages, parallels or steps. */
    constructor ()
      ensures Value() == Spec("", true, [], [], [])
    {
      id := "";
      fastFail := true;
      stages := [];
      parallels := [];
      steps := [];
    }

    constructor WithId(id: string)
      ensures Value() == Spec(id, true, [], [], [])
    {
      this.id := id;
      fastFail := true;
      stages := [];
      parallels := [];
      steps := [];
    }

    method SetId(id: string)
      modifies this
      ensures Value() == old(Value()).(id := id)
    {
      this.id := id;
    }

    method SetStages(stages: seq<StageDef>)
      modifies this
      ensures Value() == old(Value()).(stages := stages)
    {
      this.stages := stages;
    }

    method SetParallels(parallels: seq<ParallelDef>)
      modifies this
      ensures Value() == old(Value()).(parallels := parallels)
    {
      this.parallels := parallels;
    }

    method SetSteps(steps: seq<string>)
      modifies this
      ensures Value() == old(Value()).(steps := steps)
    {
      this.steps := steps;
    }

    /** Collects every parallel's pipelines into one list, parallel by parallel. */
    method GetAllParallelPipelines() returns (r: seq<PipelineDef>)
      ensures r == AllParallelPipelines(parallels)
      ensures forall p :: p in r <==> exists i :: 0 <= i < |parallels| && p in parallels[i].pipelines
    {
      r := [];
      var i := 0;
      while i < |parallels|
        invariant 0 <= i <= |parallels|
        invariant r == AllParallelPipelines(parallels[..i])
      {
        assert parallels[..i + 1][..i] == parallels[..i];
        r := r + parallels[i].pipelines;
        i := i + 1;
      }
      assert parallels[..i] == parallels;
      forall p
        ensures p in r <==> exists i :: 0 <= i < |parallels| && p in parallels[i].pipelines
      {
        AllParallelPipelinesMembers(parallels, p);
      }
    }
  }
}
