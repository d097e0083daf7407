/**
 * The pipeline builder: a bootstrap pipeline that reads a specification
 * (from a JSON or YAML file), validates it and generates the pipeline, all
 * on one builder context, under fast-fail. Whatever goes wrong inside, the
 * builder only looks for a pipeline under the pipeline key afterwards.
 */
module Builder {
  import opened Wrappers
  import opened Context
  import opened Nodes
  import opened Specification
  import opened BuilderContext
  import Validator
  import Generator
  import Graphs

  /** The two specification readers. */
  datatype Reader = JsonReader | YamlReader

  const UnrecognizedSuffix := "Unrecognized file suffix.  Supported types are .json and .yaml."
  const NotGenerated := "Pipeline could not be generated"

  /**
   * What the builder returns for a specification already read: the
   * generated pipeline when all six checks pass and generation succeeds,
   * otherwise the "could not be generated" failure.
   */
  function BuildResult(s: Spec, reg: Generator.Registry): Result<Node, string>
  {
    if forall i :: 0 <= i < 6 ==> Validator.Checks(s)[i].Pass? then
      match Generator.Generate(s, reg)
      case Ok(n) => Ok(n)
      case Err(_) => Err(NotGenerated)
    else Err(NotGenerated)
  }

  /**
   * The validator and generator stages of the bootstrap pipeline, on a
   * context that holds no pipeline yet; the generator runs only when the
   * validator succeeds. Then the pipeline key is looked up.
   */
  method RunBuilderStages(ctx: ExecutionContext<BuilderObject>, reg: Generator.Registry) returns (r: Result<Node, string>)
    requires PipelineKey !in ctx.objects
    modifies ctx
    ensures StoredSpec(old(ctx.objects)).None? ==> r == Err(NotGenerated)
    ensures StoredSpec(old(ctx.objects)).Some? ==> r == BuildResult(StoredSpec(old(ctx.objects)).value, reg)
  {
    var v := Validator.Validate(ctx);
    if v.Ok? {
      var g := Generator.DoWork(ctx, reg);
    }
    var found := ctx.GetObject(PipelineKey);
    if found.Some? && found.value.PipelineObject? {
      r := Ok(found.value.pipeline);
    } else {
      r := Err(NotGenerated);
    }
  }

  /** `buildFromPipelineSpecification`: a fresh context holding the specification, then validation and generation. */
  method BuildFromPipelineSpecification(s: Spec, reg: Generator.Registry) returns (r: Result<Node, string>)
    ensures r == BuildResult(s, reg)
  {
    var ctx := new ExecutionContext<BuilderObject>();
    ctx.AddObject(PipelineSpecKey, SpecObject(s));
    r := RunBuilderStages(ctx, reg);
  }

  /**
   * `buildFromPathName`: a path containing ".json" is read as JSON, checked
   * first; otherwise one containing ".yaml" as YAML; any other path fails
   * before anything is built. `read` stands for the reader stage: the
   * specification it produces from the file, or nothing when it fails, in
   * which case fast-fail stops the builder before validation.
   */
  method BuildFromPathName(path: string, read: (Reader, string) -> Option<Spec>, reg: Generator.Registry)
    returns (r: Result<Node, string>)
    ensures ContainsSubstring(path, ".json") ==>
      r == (if read(JsonReader, path).Some? then BuildResult(read(JsonReader, path).value, reg) else Err(NotGenerated))
    ensures !ContainsSubstring(path, ".json") && ContainsSubstring(path, ".yaml") ==>
      r == (if read(YamlReader, path).Some? then BuildResult(read(YamlReader, path).value, reg) else Err(NotGenerated))
    ensures !ContainsSubstring(path, ".json") && !ContainsSubstring(path, ".yaml") ==> r == Err(UnrecognizedSuffix)
  {
    var reader;
    if ContainsSubstring(path, ".json") {
      reader := JsonReader;
    } else if ContainsSubstring(path, ".yaml") {
      reader := YamlReader;
    } else {
      return Err(UnrecognizedSuffix);
    }
    var ctx := new ExecutionContext<BuilderObject>();
    ctx.AddObject(SpecPathnameKey, PathName(path));
    var parsed := read(reader, path);
    if parsed.None? {
      return Err(NotGenerated);
    }
    ctx.AddObject(PipelineSpecKey, SpecObject(parsed.value));
    r := RunBuilderStages(ctx, reg);
  }

  /**
   * A built pipeline came from a specification that passed every check and
   * the cycle check and whose stage classes all load; it is the root
   * pipeline named by the specification, one node per top-level step, and
   * it runs past its own cycle check.
   */
  lemma {:induction false} BuiltPipelineShape(s: Spec, reg: Generator.Registry)
    requires BuildResult(s, reg).Ok?
    ensures forall i :: 0 <= i < 6 ==> Validator.Checks(s)[i].Pass?
    ensures Generator.CycleCheck(s) == Ok(false) && Generator.Loadable(s.stages, reg)
    ensures var n := BuildResult(s, reg).value;
      && n.Seq? && n.id == s.id && n.fastFail == s.fastFail && |n.stages| == |s.steps|
      && (forall i :: 0 <= i < |s.steps| ==> n.stages[i].id == s.steps[i])
      && !Graphs.HasCycle(Graphs.Chain(n.stages))
  {
    Generator.GeneratedRootPipeline(s, reg);
  }

  /** A pipeline id that passes the unique-id check is a pipeline vertex: no parallel took its id. */
  lemma {:induction false} UniquePipelineIdIsPipeline(s: Spec, reg: Generator.Registry, k: int)
    requires Generator.Loadable(s.stages, reg) && Validator.UniqueIdsCheck(s).Pass?
    requires 0 <= k < |PipelineIds(s)|
    ensures Generator.IsPipeline(Generator.Vertices(s, reg), PipelineIds(s)[k])
  {
    Generator.VerticesContents(s, reg);
    var all := StageIds(s) + ParallelIds(s) + PipelineIds(s);
    forall a | 0 <= a < |ParallelIds(s)|
      ensures ParallelIds(s)[a] != PipelineIds(s)[k]
    {
      assert all[|StageIds(s)| + a] == ParallelIds(s)[a];
      assert all[|StageIds(s)| + |ParallelIds(s)| + k] == PipelineIds(s)[k];
    }
  }

  /** The wiring of a specification that passes the unique-id and pipeline checks cannot fail. */
  lemma {:induction false} AcceptedSpecIsWired(s: Spec, reg: Generator.Registry)
    requires Generator.Loadable(s.stages, reg)
    requires Validator.UniqueIdsCheck(s).Pass? && Validator.PipelineDefsCheck(s).Pass?
    ensures Generator.Wired(s, Generator.Vertices(s, reg))
  {
    var m := Generator.Vertices(s, reg);
    var ps := AllParallelPipelines(s.parallels);
    Generator.VerticesContents(s, reg);
    forall i | 0 <= i < |ps|
      ensures Generator.IsPipeline(m, ps[i].id) && forall x :: x in ps[i].steps ==> x in m
    {
      assert PipelineIds(s)[i] == ps[i].id;
      UniquePipelineIdIsPipeline(s, reg, i);
    }
    forall i, p | 0 <= i < |s.parallels| && p in s.parallels[i].pipelines
      ensures Generator.IsPipeline(m, p.id)
    {
      AllParallelPipelinesMembers(s.parallels, p);
      var k :| 0 <= k < |ps| && ps[k] == p;
      assert PipelineIds(s)[k] == p.id;
      UniquePipelineIdIsPipeline(s, reg, k);
    }
  }

  /**
   * A specification that passes the unique-id and pipeline checks, whose
   * stage classes all load and whose id graph has no cycle, is generated;
   * only the depth bound can stop it.
   */
  lemma {:induction false} CheckedSpecIsGenerated(s: Spec, reg: Generator.Registry)
    requires Validator.UniqueIdsCheck(s).Pass? && Validator.PipelineDefsCheck(s).Pass?
    requires Generator.Loadable(s.stages, reg) && Generator.CycleCheck(s) == Ok(false)
    ensures Generator.Generate(s, reg).Ok? || Generator.Generate(s, reg) == Err(Generator.TooDeep)
  {
    AcceptedSpecIsWired(s, reg);
    Generator.WiredSpecGenerates(s, reg);
  }
}
