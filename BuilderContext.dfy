/**
 * The objects a pipeline builder passes between its stages through the
 * context's object store, under fixed keys.
 */
module BuilderContext {
  import opened Wrappers
  import Specification
  import Nodes

  const SpecPathnameKey := "SPEC_PATHNAME"
  const PipelineSpecKey := "PIPELINE_SPEC"
  const PipelineKey := "PIPELINE"

  /** What the builder stores: the path of a specification file, a specification, or the compiled pipeline. */
  datatype BuilderObject =
    | PathName(path: string)
    | SpecObject(spec: Specification.Spec)
    | PipelineObject(pipeline: Nodes.Node)

  /** The specification stored in the builder context, if there is one. */
  function StoredSpec(objects: map<string, BuilderObject>): Option<Specification.Spec>
  {
    if PipelineSpecKey in objects && objects[PipelineSpecKey].SpecObject? then
      Some(objects[PipelineSpecKey].spec)
    else None
  }

  /** A cast of an object of another class. */
  const CastFailure := Nodes.Exception("java.lang.ClassCastException", None)

  /**
   * What a stage that reads the stored specification throws when there is
   * none: a missing entry casts to null and `spec.getId()` dereferences it;
   * an entry of another kind fails the cast.
   */
  function MissingSpec(objects: map<string, BuilderObject>): (e: Nodes.Exception)
    ensures PipelineSpecKey !in objects ==> e == Nodes.NullDereference
    ensures PipelineSpecKey in objects && !objects[PipelineSpecKey].SpecObject? ==> e == CastFailure
  {
    if PipelineSpecKey in objects then CastFailure else Nodes.NullDereference
  }
}
