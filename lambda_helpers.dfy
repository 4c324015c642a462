/**
 * The vectorisation-aware stage generator of src/LambdaHelpers.h: from a
 * lambda's closure type and the tuple flowing into the new stage, the
 * generated `LambdaClass<IsVectorized, T, Args...>`, where `Args...` is the
 * tuple unpacked (scalar) or the mask followed by the vector types (batched).
 */
module LambdaHelpers {
  import opened Shapes
  import opened Helpers
  import opened VcHelpers
  import opened GeneratedKernels

  /**
   * `generate_lambda_helper_vectorized<I, J, IsVectorized, LambdaClass, T, InputTuple, Args...>`:
   * appends element I (tag 0) or `vector_t` of element I (tag 1) to the pack
   * until I reaches the tuple size, then instantiates the class, putting
   * `maskv` in front of the pack for tag 1. Only tags 0 and 1 are specialised.
   */
  function GenerateLambdaHelperVectorized(i: nat, isVectorized: nat, kind: LambdaClass, fn: ClassType, input: Shape, acc: Shape): (k: LambdaKernel)
    requires i <= |input| && isVectorized <= 1
    ensures k.kind == kind && k.tag == isVectorized && k.fn == fn
    ensures isVectorized == 0 ==> k.args == acc + input[i..]
    ensures isVectorized == 1 ==> k.args == [MaskV] + acc + VectorShape(input[i..])
    decreases |input| - i
  {
    if i == |input| then
      LambdaKernel(kind, isVectorized, fn, if isVectorized == 1 then [MaskV] + acc else acc)
    else if isVectorized == 0 then
      assert input[i..] == [input[i]] + input[i + 1..];
      GenerateLambdaHelperVectorized(i + 1, 0, kind, fn, input, acc + [input[i]])
    else
      assert VectorShape(input[i..]) == [VectorOf(input[i])] + VectorShape(input[i + 1..]);
      GenerateLambdaHelperVectorized(i + 1, 1, kind, fn, input, acc + [VectorOf(input[i])])
  }

  /**
   * `generate_lambda_type_vectorized<LambdaClass, T, InputTuple>` as written:
   * the tag is `is_vectorized<T, InputTuple>`, asked of the closure type T itself.
   */
  function GenerateLambdaTypeVectorized(kind: LambdaClass, fn: ClassType, input: Shape): (k: LambdaKernel)
    ensures k.kind == kind && k.fn == fn
    ensures k.tag == 1 <==> IsVectorized(fn, input)
    ensures k.tag == 0 <==> !IsVectorized(fn, input)
    ensures k.args == if k.tag == 1 then VectorizedTuple(input) else input
    ensures |k.args| == |input| + k.tag
  {
    var k := GenerateLambdaHelperVectorized(0, if IsVectorized(fn, input) then 1 else 0, kind, fn, input, []);
    assert input[0..] == input;
    k
  }

  /** A lambda's closure type: no mapper base, no `map`, no `filter`, only `operator()`. */
  predicate IsClosure(fn: ClassType)
  {
    !fn.derivesMapper && fn.maps == [] && fn.filters == []
  }

  /**
   * As written, the mode decision inspects `&T::filter` of the closure, which
   * has none: every lambda is generated with tag 0 and its scalar pack.
   */
  lemma ClosureNeverVectorized(kind: LambdaClass, fn: ClassType, input: Shape)
    requires IsClosure(fn)
    ensures GenerateLambdaTypeVectorized(kind, fn, input).tag == 0
    ensures GenerateLambdaTypeVectorized(kind, fn, input).args == input
  {
  }

  /**
   * The batched lambda of the vectorised example (`(maskv, floatv) -> floatv`
   * over a one-float schema) gets tag 0 and the pack `(float)`, which the
   * lambda cannot be called with: its generated mapper is ill-formed.
   */
  lemma BatchedLambdaGetsScalarPack()
    ensures var fn := ClassType(false, [], [], [Signature([MaskV, FloatVec], [FloatVec])]);
      && GenerateLambdaTypeVectorized(MapperLambda, fn, [Float]).tag == 0
      && GenerateLambdaTypeVectorized(MapperLambda, fn, [Float]).args == [Float]
      && ResultOfCall(fn.calls, [Float]).None?
      && ResultOfCall(fn.calls, VectorizedTuple([Float])).Some?
  {
    var fn := ClassType(false, [], [], [Signature([MaskV, FloatVec], [FloatVec])]);
    ClosureNeverVectorized(MapperLambda, fn, [Float]);
    assert VectorizedTuple([Float]) == [MaskV, FloatVec] by {
      assert VectorizedTuple([Float])[1] == VectorOf(Float);
    }
    assert fn.calls[0].params == VectorizedTuple([Float]);
  }

  /**
   * The evidently intended decision: a lambda is batched exactly when its
   * call operator accepts the mask followed by the vector types.
   */
  function GenerateLambdaTypeVectorizedFixed(kind: LambdaClass, fn: ClassType, input: Shape): (k: LambdaKernel)
    ensures k.kind == kind && k.fn == fn
    ensures k.tag == 1 <==> ResultOfCall(fn.calls, VectorizedTuple(input)).Some?
    ensures k.args == if k.tag == 1 then VectorizedTuple(input) else input
  {
    var tag := if ResultOfCall(fn.calls, VectorizedTuple(input)).Some? then 1 else 0;
    var k := GenerateLambdaHelperVectorized(0, tag, kind, fn, input, []);
    assert input[0..] == input;
    assert UnpackVectors(input, 0, []) == VectorShape(input);
    k
  }

  /**
   * With the corrected decision, a lambda callable in either convention can
   * be called with the pack it is generated with, and a batched mapper stage
   * is recognised as vectorised by the mode decision.
   */
  lemma FixedPackIsCallable(kind: LambdaClass, fn: ClassType, input: Shape)
    requires ResultOfCall(fn.calls, input).Some? || ResultOfCall(fn.calls, VectorizedTuple(input)).Some?
    ensures ResultOfCall(fn.calls, GenerateLambdaTypeVectorizedFixed(kind, fn, input).args).Some?
    ensures kind == MapperLambda && GenerateLambdaTypeVectorizedFixed(kind, fn, input).tag == 1 ==>
      IsVectorized(KernelDecl(GenerateLambdaTypeVectorizedFixed(kind, fn, input)), input)
  {
    var k := GenerateLambdaTypeVectorizedFixed(kind, fn, input);
    if kind == MapperLambda && k.tag == 1 {
      VectorizedKernelRecognized(k, input);
    }
  }
}
