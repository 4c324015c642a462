/**
 * The compile-time checks of src/test/testHelpers.cxx and
 * src/test/testVcHelpers.cxx, restated over the model: the resolver's
 * per-stage types, stage classification and the vectorisation decision for
 * the test classes there.
 */
module TypeExamples {
  import opened Shapes
  import opened Helpers
  import opened VcHelpers

  /** `MapOne`: a mapper whose one `map` takes (float, float) and returns (int, int). */
  function MapOne(): ClassType
  {
    ClassType(true, [Signature([Float, Float], [Int, Int])], [], [Signature([Float, Float], [Int, Int])])
  }

  /** `MapTwo`: (int, int) to (double, double). */
  function MapTwo(): ClassType { ClassType(true, [Signature([Int, Int], [Double, Double])], [], []) }

  /** `MapThree`: (double, double) to (int). */
  function MapThree(): ClassType { ClassType(true, [Signature([Double, Double], [Int])], [], []) }

  /** `MapFive`: (int) to (int). */
  function MapFive(): ClassType { ClassType(true, [Signature([Int], [Int])], [], []) }

  /** `FilterOne`: a filter base with no members of its own. */
  function FilterOne(): ClassType { ClassType(false, [], [], []) }

  /** The per-stage input and output types of three chains of the header test. */
  lemma ChainTypes()
    ensures var s := [MapOne(), MapTwo(), MapThree()];
      && ArgInput(0, [Float, Float], s) == Some([Float, Float])
      && ArgOutput(0, 0, [Float, Float], s) == Some([Int, Int])
      && ArgInput(1, [Float, Float], s) == Some([Int, Int])
      && ArgOutput(0, 1, [Float, Float], s) == Some([Double, Double])
      && ArgInput(2, [Float, Float], s) == Some([Double, Double])
      && ArgOutput(0, 2, [Float, Float], s) == Some([Int])
    ensures var s := [FilterOne(), MapOne(), MapTwo(), MapThree()];
      && ArgOutput(0, 0, [Float, Float], s) == Some([Float, Float])
      && ArgInput(1, [Float, Float], s) == Some([Float, Float])
      && ArgOutput(0, 1, [Float, Float], s) == Some([Int, Int])
    ensures var s := [MapOne(), FilterOne(), MapTwo(), MapThree()];
      && ArgInput(1, [Float, Float], s) == Some([Int, Int])
      && ArgOutput(0, 1, [Float, Float], s) == Some([Int, Int])
      && ArgInput(2, [Float, Float], s) == Some([Int, Int])
      && ArgOutput(0, 2, [Float, Float], s) == Some([Double, Double])
    ensures ProcessorResult([Float, Float], [MapOne(), MapTwo(), MapThree(), MapFive()]) == Some([Int])
    ensures ProcessorResultAsWritten([Float, Float], [MapOne(), MapTwo(), MapThree(), MapFive()]) == Some([Int])
  {
    var three := [MapOne(), MapTwo(), MapThree()];
    assert ProcessorResult([Float, Float], three) == Some([Int]);
    ProcessorResultAppend([Float, Float], three, MapFive());
    assert three + [MapFive()] == [MapOne(), MapTwo(), MapThree(), MapFive()];
    ProcessorResultAsWrittenUpToFour([Float, Float], [MapOne(), MapTwo(), MapThree(), MapFive()]);
  }

  /**
   * Five `MapFive` stages over `(int)`: every stage takes and returns `(int)`,
   * so the fold ends at `(int)`, but the resolver as written has no end type.
   */
  lemma FiveStagesDoNotResolve()
    ensures ProcessorResult([Int], [MapFive(), MapFive(), MapFive(), MapFive(), MapFive()]) == Some([Int])
    ensures ProcessorResultAsWritten([Int], [MapFive(), MapFive(), MapFive(), MapFive(), MapFive()]).None?
  {
    var five := [MapFive(), MapFive(), MapFive(), MapFive(), MapFive()];
    ProcessorResultIsFlow([Int], five);
    forall k | 1 <= k <= 5
      ensures five[..k][..k - 1] == five[..k - 1] && five[..k][k - 1] == MapFive()
    {
    }
    assert ShapeAfter([Int], five[..1]) == Some([Int]);
    assert ShapeAfter([Int], five[..2]) == Some([Int]);
    assert ShapeAfter([Int], five[..3]) == Some([Int]);
    assert ShapeAfter([Int], five[..4]) == Some([Int]);
    assert five[..5] == five;
    ProcessorResultAsWrittenFailsFromFive([Int], five);
  }

  /** Stage classification at every position of the chains of the header test (line 70 repeats line 66). */
  lemma StageTypes()
    ensures GetStageType(0, [MapOne(), FilterOne(), MapTwo()]) == 1
    ensures GetStageType(1, [MapOne(), FilterOne(), MapTwo()]) == 0
    ensures GetStageType(2, [MapOne(), FilterOne(), MapTwo()]) == 1
    ensures GetStageType(0, [MapOne(), FilterOne()]) == 1
    ensures GetStageType(1, [MapOne(), FilterOne()]) == 0
    ensures GetStageType(0, [MapOne()]) == 1
    ensures GetStageType(0, [FilterOne()]) == 0
    ensures GetStageType(1, [MapOne(), MapTwo()]) == 1
    ensures GetStageType(2, [MapOne(), MapTwo(), FilterOne()]) == 0
    ensures GetStageType(2, [MapOne(), MapTwo(), MapThree()]) == 1
  {
  }

  /** `VectorMap1` takes (maskv, floatv); `VectorMap2` forgets the mask; `NonVectorMap1` takes (float). */
  function VectorMap1(): ClassType { ClassType(true, [Signature([MaskV, FloatVec], [Int])], [], []) }
  function VectorMap2(): ClassType { ClassType(true, [Signature([FloatVec], [Int])], [], []) }
  function NonVectorMap1(): ClassType { ClassType(true, [Signature([Float], [Int])], [], []) }

  /** `OverloadedVectorMap1` has both a scalar and a batched `map`. */
  function OverloadedVectorMap1(): ClassType
  {
    ClassType(true, [Signature([Float], [Int]), Signature([MaskV, FloatVec], [Int])], [], [])
  }

  /** `VectorFilter` takes (maskv, floatv). */
  function VectorFilter(): ClassType { ClassType(false, [], [Signature([MaskV, FloatVec], [Int])], []) }

  /** The mode decisions and input types of the vectorisation test. */
  lemma VectorModes()
    ensures IsVectorized(VectorMap1(), [Float])
    ensures IsVectorized(VectorFilter(), [Float])
    ensures !IsVectorized(NonVectorMap1(), [Float])
    ensures !IsVectorized(VectorMap2(), [Float])
    ensures !IsVectorized(OverloadedVectorMap1(), [Float])
    ensures InputTuple([Float], [VectorMap1()]) == [MaskV, FloatVec]
    ensures InputTuple([Float], [VectorMap1(), VectorFilter()]) == [MaskV, FloatVec]
    ensures InputTuple([Float], [VectorFilter()]) == [MaskV, FloatVec]
    ensures InputTuple([Float], [VectorMap2()]) == [Float]
    ensures InputTuple([Float], [OverloadedVectorMap1()]) == [Float]
    ensures InputTuple([Float], []) == [Float]
  {
    assert VectorizedTuple([Float]) == [MaskV, FloatVec] by {
      assert VectorizedTuple([Float])[1] == VectorOf(Float);
    }
  }
}
