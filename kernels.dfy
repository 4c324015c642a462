/**
 * The base stages of src/TTreeProcessorKernels.h: a mapper base with output
 * type T and a filter base, told apart by the empty base each derives from,
 * each with a default `finalize` that reports completion.
 */
module Kernels {
  import opened Shapes
  import opened Helpers

  /** `TTreeProcessorMapper<T, InputArgs...>` and `TTreeProcessorFilter<InputArgs...>`. */
  datatype BaseStage = MapperBase(output: Shape, inputs: Shape) | FilterBase(inputs: Shape)

  /** The class the resolver sees: the base it derives from and its default `map` or `filter`. */
  function Decl(b: BaseStage): (d: ClassType)
    ensures d.derivesMapper <==> b.MapperBase?
    ensures d.calls == []
    ensures b.MapperBase? ==> d.filters == [] && ResultOfMember(d.maps, b.inputs) == Some(b.output)
    ensures b.FilterBase? ==> d.maps == [] && ResultOfMember(d.filters, b.inputs) == Some([Bool])
  {
    match b
    case MapperBase(t, ins) => ClassType(true, [Signature(ins, t)], [], [])
    case FilterBase(ins) => ClassType(false, [], [Signature(ins, [Bool])], [])
  }

  /** `typedef T output_type` of the mapper base. */
  function OutputType(b: BaseStage): (t: Shape)
    requires b.MapperBase?
    ensures ProcessorApply(Decl(b), b.inputs) == Some(t)
  {
    b.output
  }

  /** The default `finalize` of both bases: nothing to merge, report completion. */
  function Finalize(b: BaseStage): (done: bool)
    ensures done
  {
    true
  }

  /** The declared output type is what the resolver computes for a mapper base fed its inputs. */
  lemma MapperBaseOutput(t: Shape, ins: Shape)
    ensures ProcessorApply(Decl(MapperBase(t, ins)), ins) == Some(OutputType(MapperBase(t, ins)))
  {
  }

  /** A filter base leaves whatever flows into it unchanged. */
  lemma FilterBaseOutput(ins: Shape, x: Shape)
    ensures ProcessorApply(Decl(FilterBase(ins)), x) == Some(x)
  {
  }

  /** Every base stage is classified by its base: 1 for a mapper, 0 for a filter, at any position. */
  lemma Classification(stages: seq<BaseStage>, n: nat)
    requires n < |stages|
    ensures GetStageType(n, seq(|stages|, k requires 0 <= k < |stages| => Decl(stages[k]))) ==
      if stages[n].MapperBase? then 1 else 0
  {
  }
}
