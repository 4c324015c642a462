/**
 * The vectorisation-mode decision of src/VcHelpers.h: the W-lane vector type
 * of every element type, the batched form of a tuple (the mask, then one
 * vector per field), whether a stage accepts the batched form, and the input
 * type and mode of a whole chain, decided by its first stage alone.
 */
module VcHelpers {
  import opened Shapes

  /**
   * `vector_t<T>`: float, double, int and unsigned have their own Vc types;
   * every other T becomes a `std::array` of W values of T.
   */
  function VectorOf(t: FieldType): (v: FieldType)
    ensures t == Float ==> v == FloatVec
    ensures t == Double ==> v == DoubleVec
    ensures t == Int ==> v == IntVec
    ensures t == Unsigned ==> v == UIntVec
    ensures t in {Float, Double, Int, Unsigned} <==> !v.LaneArray?
    ensures v.LaneArray? ==> v == LaneArray(t)
    ensures v != MaskV
  {
    match t
    case Float => FloatVec
    case Double => DoubleVec
    case Int => IntVec
    case Unsigned => UIntVec
    case _ => LaneArray(t)
  }

  /** Distinct element types have distinct vector types. */
  lemma VectorOfInjective(a: FieldType, b: FieldType)
    requires VectorOf(a) == VectorOf(b)
    ensures a == b
  {
  }

  /** Reference definition: `vector_t` of every field, in order. */
  function VectorShape(s: Shape): (r: Shape)
    ensures |r| == |s|
    ensures forall k {:trigger r[k]} :: 0 <= k < |s| ==> r[k] == VectorOf(s[k])
  {
    seq(|s|, k requires 0 <= k < |s| => VectorOf(s[k]))
  }

  /**
   * The recursion shared by `is_vectorized_helper` and
   * `vectorized_tuple_helper`: `vector_t` of element I, I+1, ... is appended
   * to the pack until I reaches the tuple size.
   */
  function UnpackVectors(tuple: Shape, i: nat, acc: Shape): (args: Shape)
    requires i <= |tuple|
    ensures args == acc + VectorShape(tuple[i..])
    decreases |tuple| - i
  {
    if i == |tuple| then acc
    else
      assert VectorShape(tuple[i..]) == [VectorOf(tuple[i])] + VectorShape(tuple[i + 1..]);
      UnpackVectors(tuple, i + 1, acc + [VectorOf(tuple[i])])
  }

  /** `vectorized_tuple_t<ArgTuple>`: the mask first, then `vector_t` of each field in order. */
  function VectorizedTuple(tuple: Shape): (batched: Shape)
    ensures |batched| == |tuple| + 1
    ensures batched[0] == MaskV
    ensures forall k :: 0 <= k < |tuple| ==> batched[k + 1] == VectorOf(tuple[k])
  {
    [MaskV] + UnpackVectors(tuple, 0, [])
  }

  /** The batched form of a tuple determines the tuple. */
  lemma VectorizedTupleInjective(a: Shape, b: Shape)
    requires VectorizedTuple(a) == VectorizedTuple(b)
    ensures a == b
  {
    assert |a| == |b|;
    forall k | 0 <= k < |a|
      ensures a[k] == b[k]
    {
      assert VectorizedTuple(a)[k + 1] == VectorizedTuple(b)[k + 1];
      VectorOfInjective(a[k], b[k]);
    }
  }

  /**
   * `is_vectorized_helper<I, J, TypeCode, F, Tuple, Args...>`: collects the
   * vector types, then asks whether `F::map` (TypeCode 1) or `F::filter`
   * (TypeCode 0) can be called as `(maskv, Args...)`.
   */
  function IsVectorizedHelper(i: nat, typeCode: nat, f: ClassType, tuple: Shape, acc: Shape): (r: bool)
    requires i <= |tuple|
    ensures r <==> ResultOfMember(if typeCode == 1 then f.maps else f.filters, [MaskV] + acc + VectorShape(tuple[i..])).Some?
    decreases |tuple| - i
  {
    if i == |tuple| then
      assert acc + VectorShape(tuple[i..]) == acc;
      ResultOfMember(if typeCode == 1 then f.maps else f.filters, [MaskV] + acc).Some?
    else
      assert VectorShape(tuple[i..]) == [VectorOf(tuple[i])] + VectorShape(tuple[i + 1..]);
      assert [MaskV] + acc + VectorShape(tuple[i..]) == [MaskV] + (acc + [VectorOf(tuple[i])]) + VectorShape(tuple[i + 1..]);
      IsVectorizedHelper(i + 1, typeCode, f, tuple, acc + [VectorOf(tuple[i])])
  }

  /** The member the mode decision inspects: `map` for a mapper, `filter` otherwise. */
  function Entry(f: ClassType): seq<Signature>
  {
    if f.derivesMapper then f.maps else f.filters
  }

  /**
   * `is_vectorized<F, ArgTuple>`: true exactly when F's one `map` (mapper) or
   * `filter` (filter) takes the batched form of the tuple.
   */
  function IsVectorized(f: ClassType, tuple: Shape): (b: bool)
    ensures b <==> |Entry(f)| == 1 && Entry(f)[0].params == VectorizedTuple(tuple)
  {
    var typeCode := if f.derivesMapper then 1 else 0;
    assert tuple[0..] == tuple;
    assert [MaskV] + [] + VectorShape(tuple) == VectorizedTuple(tuple) by {
      assert UnpackVectors(tuple, 0, []) == VectorShape(tuple);
    }
    IsVectorizedHelper(0, typeCode, f, tuple, [])
  }

  /** A stage whose entry takes the vector fields without the leading mask is scalar. */
  lemma WithoutMaskNotVectorized(f: ClassType, tuple: Shape)
    requires |Entry(f)| == 1 && Entry(f)[0].params == VectorShape(tuple)
    ensures !IsVectorized(f, tuple)
  {
  }

  /** A stage with several overloads of its entry (say, scalar and batched) is scalar. */
  lemma OverloadedNotVectorized(f: ClassType, tuple: Shape)
    requires |Entry(f)| != 1
    ensures !IsVectorized(f, tuple)
  {
  }

  /**
   * `input_tuple_t<ArgTuple, Stages...>`: the type the chain reads rows into;
   * the schema for an empty chain, else decided by the first stage alone.
   */
  function InputTuple(schema: Shape, stages: seq<ClassType>): (r: Shape)
    ensures r == schema || r == VectorizedTuple(schema)
    ensures |stages| == 0 ==> r == schema
  {
    if |stages| == 0 then schema
    else if IsVectorized(stages[0], schema) then VectorizedTuple(schema)
    else schema
  }

  /** `is_vectorized_stream<ArgTuple, Stages...>`: false for an empty chain, else the first stage's mode. */
  function IsVectorizedStream(schema: Shape, stages: seq<ClassType>): (b: bool)
    ensures |stages| == 0 ==> !b
  {
    if |stages| == 0 then false else IsVectorized(stages[0], schema)
  }

  /** The input type is the batched tuple exactly when the stream is vectorised. */
  lemma InputTupleFollowsMode(schema: Shape, stages: seq<ClassType>)
    ensures InputTuple(schema, stages) == if IsVectorizedStream(schema, stages) then VectorizedTuple(schema) else schema
    ensures IsVectorizedStream(schema, stages) <==> InputTuple(schema, stages) != schema
  {
    assert |VectorizedTuple(schema)| != |schema|;
  }

  /** Stages after the first have no say in the chain's input type or mode. */
  lemma FirstStageDecides(schema: Shape, first: ClassType, rest1: seq<ClassType>, rest2: seq<ClassType>)
    ensures InputTuple(schema, [first] + rest1) == InputTuple(schema, [first] + rest2)
    ensures IsVectorizedStream(schema, [first] + rest1) == IsVectorizedStream(schema, [first] + rest2)
    ensures IsVectorizedStream(schema, [first] + rest1) == IsVectorized(first, schema)
  {
  }
}
