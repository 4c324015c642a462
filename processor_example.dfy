/**
 * The second chain of src/test/testProcessor.cxx over a two-row input:
 * swap the first two fields, drop rows whose float exceeds 5, then square
 * and increment the int twice. An intermediate handle, invalidated when the
 * chain was extended from it, refuses to run.
 */
module ProcessorExample {
  import opened Shapes
  import opened Records
  import opened Helpers
  import opened GeneratedKernels
  import opened Processor

  /** `(float x, int y, double z) -> (y, x)`. */
  function Swap(r: Record): Record
  {
    if |r| == 3 then [r[1], r[0]] else r
  }

  /** `(int x, float y) -> y <= 5`. */
  function SmallEnough(r: Record): bool
  {
    |r| == 2 && r[1].RealVal? && r[1].x <= 5.0
  }

  /** `(int x, ...) -> (x*x + 1)`. */
  function SquarePlusOne(r: Record): Record
  {
    if |r| >= 1 && r[0].IntVal? then [IntVal(r[0].i * r[0].i + 1)] else r
  }

  /** The closure types of the four lambdas, by their call operators. */
  function SwapType(): ClassType { ClassType(false, [], [], [Signature([Float, Int, Double], [Int, Float])]) }
  function SmallEnoughType(): ClassType { ClassType(false, [], [], [Signature([Int, Float], [Bool])]) }
  function SquareType(): ClassType { ClassType(false, [], [], [Signature([Int, Float], [Int])]) }
  function SquareAgainType(): ClassType { ClassType(false, [], [], [Signature([Int], [Int])]) }

  /** The four stages the chain's calls append, each fed the end type before it. */
  function SwapStage(): Stage { MapperLambdaStage(SwapType(), Swap, [Float, Int, Double]) }
  function SmallEnoughStage(): Stage { FilterLambdaStage(SmallEnoughType(), SmallEnough, [Int, Float]) }
  function SquareStage(): Stage { MapperLambdaStage(SquareType(), SquarePlusOne, [Int, Float]) }
  function SquareAgainStage(): Stage { MapperLambdaStage(SquareAgainType(), SquarePlusOne, [Int]) }

  /** The chain `map(Swap).filter(SmallEnough).map(SquarePlusOne).map(SquarePlusOne)` over (float, int, double). */
  function Chain(): seq<Stage>
  {
    [SwapStage(), SmallEnoughStage(), SquareStage(), SquareAgainStage()]
  }

  /** The first two calls: `map(Swap)` on a fresh processor, then `filter(SmallEnough)` on the result. */
  method BuildFront() returns (stale: TTreeProcessor, front: TTreeProcessor)
    ensures stale.WellFormed() && stale.stages == [SwapStage()] && !stale.valid
    ensures stale.schema == [Float, Int, Double]
    ensures front.WellFormed() && front.stages == [SwapStage(), SmallEnoughStage()] && front.valid
    ensures front.EndType() == [Int, Float]
    ensures fresh(stale) && fresh(front)
  {
    assert Decls([]) == [];
    var p := new TTreeProcessor([Float, Int, Double], ["a", "b", "c"], []);
    assert p.EndType() == [Float, Int, Double];
    stale := p.Map(SwapType(), Swap);
    assert stale.EndType() == [Int, Float] && stale.stages == [SwapStage()];
    front := stale.Filter(SmallEnoughType(), SmallEnough);
  }

  /** Builds the chain from a processor over branches a, b, c; returns the final handle and the one `filter` was called on. */
  method Build() returns (stale: TTreeProcessor, chain: TTreeProcessor)
    ensures stale.WellFormed() && stale.stages == [SwapStage()] && !stale.valid
    ensures stale.schema == [Float, Int, Double] && chain.schema == [Float, Int, Double]
    ensures chain.WellFormed() && chain.stages == Chain() && chain.valid
    ensures chain.EndType() == [Int]
  {
    var front;
    stale, front := BuildFront();
    var p3 := front.Map(SquareType(), SquarePlusOne);
    assert p3.EndType() == [Int] && p3.stages == [SwapStage(), SmallEnoughStage(), SquareStage()];
    chain := p3.Map(SquareAgainType(), SquarePlusOne);
    assert chain.stages == p3.stages + [SquareAgainStage()];
    ChainAppended(p3.stages);
  }

  /** The chain is its first three stages followed by the last. */
  lemma ChainAppended(front: seq<Stage>)
    requires front == [SwapStage(), SmallEnoughStage(), SquareStage()]
    ensures front + [SquareAgainStage()] == Chain()
  {
  }

  /** Every stage of the chain has the member its base calls for, and each wraps its lambda. */
  lemma ChainStages()
    ensures AllConsistent(Chain())
    ensures Chain()[0].op == Maps(Swap) && Chain()[1].op == Tests(SmallEnough)
    ensures Chain()[2].op == Maps(SquarePlusOne) && Chain()[3].op == Maps(SquarePlusOne)
  {
  }

  /** Row (1.0, 2, 0.0) passes the filter and goes through all four stages, ending as 26. */
  lemma FirstRowRun()
    ensures AllConsistent(Chain())
    ensures Dispatch(Chain(), 0, [RealVal(1.0), IntVal(2), RealVal(0.0)]) == [
      MapCall(0, [RealVal(1.0), IntVal(2), RealVal(0.0)]),
      FilterCall(1, [IntVal(2), RealVal(1.0)]),
      MapCall(2, [IntVal(2), RealVal(1.0)]),
      MapCall(3, [IntVal(5)])]
    ensures Reach(Chain(), [RealVal(1.0), IntVal(2), RealVal(0.0)]) == Some([IntVal(26)])
  {
    ChainStages();
    var s := Chain();
    var row := [RealVal(1.0), IntVal(2), RealVal(0.0)];
    var swapped := [IntVal(2), RealVal(1.0)];
    assert Dispatch(s, 3, [IntVal(5)]) == [MapCall(3, [IntVal(5)])];
    assert Dispatch(s, 2, swapped) == [MapCall(2, swapped)] + Dispatch(s, 3, [IntVal(5)]);
    assert Dispatch(s, 1, swapped) == [FilterCall(1, swapped)] + Dispatch(s, 2, swapped);
    assert s[..1] == [s[0]] && s[..2][..1] == s[..1] && s[..3][..2] == s[..2] && s[..4] == s;
    assert Reach(s[..1], row) == Some(swapped);
    assert Reach(s[..2], row) == Some(swapped);
    assert Reach(s[..3], row) == Some([IntVal(5)]);
  }

  /** Row (9.0, 10, 0.0) is dropped by the filter after the first stage. */
  lemma SecondRowRun()
    ensures AllConsistent(Chain())
    ensures Dispatch(Chain(), 0, [RealVal(9.0), IntVal(10), RealVal(0.0)]) == [
      MapCall(0, [RealVal(9.0), IntVal(10), RealVal(0.0)]),
      FilterCall(1, [IntVal(10), RealVal(9.0)])]
    ensures Reach(Chain(), [RealVal(9.0), IntVal(10), RealVal(0.0)]).None?
  {
    ChainStages();
    var s := Chain();
    ReachFront(s[0], s[1..], [RealVal(9.0), IntVal(10), RealVal(0.0)]);
    ReachFront(s[1], s[2..], [IntVal(10), RealVal(9.0)]);
    assert s == [s[0]] + s[1..] && s[1..] == [s[1]] + s[2..];
    assert Dispatch(s, 1, [IntVal(10), RealVal(9.0)]) == [FilterCall(1, [IntVal(10), RealVal(9.0)])];
  }

  /** Both rows, as one input: the calls of the first row, then those of the second. */
  lemma ChainRun()
    ensures AllConsistent(Chain())
    ensures RunFiles(Chain(), [[[RealVal(1.0), IntVal(2), RealVal(0.0)], [RealVal(9.0), IntVal(10), RealVal(0.0)]]]) == [
      MapCall(0, [RealVal(1.0), IntVal(2), RealVal(0.0)]),
      FilterCall(1, [IntVal(2), RealVal(1.0)]),
      MapCall(2, [IntVal(2), RealVal(1.0)]),
      MapCall(3, [IntVal(5)]),
      MapCall(0, [RealVal(9.0), IntVal(10), RealVal(0.0)]),
      FilterCall(1, [IntVal(10), RealVal(9.0)])]
    ensures Reach(Chain(), [RealVal(1.0), IntVal(2), RealVal(0.0)]) == Some([IntVal(26)])
    ensures Reach(Chain(), [RealVal(9.0), IntVal(10), RealVal(0.0)]).None?
  {
    var s := Chain();
    var row1 := [RealVal(1.0), IntVal(2), RealVal(0.0)];
    var row2 := [RealVal(9.0), IntVal(10), RealVal(0.0)];
    FirstRowRun();
    SecondRowRun();
    assert RunRows(s, [row1, row2]) == Dispatch(s, 0, row1) + Dispatch(s, 0, row2) by {
      assert [row1, row2][..1] == [row1];
      assert [row1][..0] == [];
      assert RunRows(s, [row1]) == Dispatch(s, 0, row1);
    }
    assert RunFiles(s, [[row1, row2]]) == RunRows(s, [row1, row2]);
  }

  /** The chain's one filter can take `(int, float)`, the tuple that reaches it; the first stage alone has no filter. */
  lemma ChainFiltersAccept()
    ensures FiltersAccept([Float, Int, Double], Chain())
    ensures FiltersAccept([Float, Int, Double], [SwapStage()])
  {
    var s := Chain();
    assert s[..1] == [SwapStage()];
    assert Decls(s[..1]) == [SwapStage().decl];
    assert ShapeAfter([Float, Int, Double], Decls(s[..1])) == Some([Int, Float]) by {
      assert Decls(s[..1])[..0] == [];
    }
    forall k | 0 <= k < |s| && !s[k].decl.derivesMapper
      ensures k == 1
    {
    }
  }

  /**
   * `process` on the final handle makes exactly the calls of `ChainRun`;
   * on the handle `filter` was called on it throws.
   */
  method SwapFilterSquare() returns (stale: Outcome, run: Outcome)
    ensures stale == Failure(InvalidProcessor)
    ensures run == Success([
      MapCall(0, [RealVal(1.0), IntVal(2), RealVal(0.0)]),
      FilterCall(1, [IntVal(2), RealVal(1.0)]),
      MapCall(2, [IntVal(2), RealVal(1.0)]),
      MapCall(3, [IntVal(5)]),
      MapCall(0, [RealVal(9.0), IntVal(10), RealVal(0.0)]),
      FilterCall(1, [IntVal(10), RealVal(9.0)])])
  {
    var extended, chain := Build();
    ChainFiltersAccept();
    var rows := [[RealVal(1.0), IntVal(2), RealVal(0.0)], [RealVal(9.0), IntVal(10), RealVal(0.0)]];
    stale := extended.Process([rows]);
    run := chain.Process([rows]);
    ChainRun();
  }
}
