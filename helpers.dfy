/**
 * The type-flow resolver of src/Helpers.h: for a schema and a list of stage
 * classes, the tuple type flowing into and out of every stage, the type at the
 * end of the chain, whether each stage is a mapper, and the branch-name tuple.
 *
 * Every template recursion of the header becomes a recursive function with the
 * same base cases; an ill-formed instantiation (a compile error) is `None`.
 */
module Helpers {
  import opened Shapes

  /**
   * The recursion shared by `generate_lambda_helper` and
   * `result_of_unpacked_tuple_helper`: element I, I+1, ... of the tuple is
   * appended to the pack `Args...` until I reaches the tuple size.
   */
  function Unpack(tuple: Shape, i: nat, acc: Shape): (args: Shape)
    requires i <= |tuple|
    ensures args == acc + tuple[i..]
    decreases |tuple| - i
  {
    if i == |tuple| then acc
    else
      assert tuple[i..] == [tuple[i]] + tuple[i + 1..];
      Unpack(tuple, i + 1, acc + [tuple[i]])
  }

  /**
   * `generate_lambda_type<LambdaClass, T, InputTuple>`: the argument pack of the
   * generated `LambdaClass<T, Args...>`.
   */
  function GenerateLambdaArgs(input: Shape): (args: Shape)
    ensures args == input
  {
    Unpack(input, 0, [])
  }

  /** A tuple of n `std::string`s. */
  function Strings(n: nat): (r: Shape)
    ensures |r| == n && forall k :: 0 <= k < n ==> r[k] == Str
  {
    seq(n, _ => Str)
  }

  /**
   * `convert_to_strings_helper<I, J, Args...>`: prepends one `std::string` per
   * step from I to J; the `<1, 0>` specialisation is the empty tuple.
   */
  function ConvertToStringsHelper(i: nat, j: nat, acc: Shape): (r: Shape)
    requires 1 <= i <= j || (i == 1 && j == 0)
    ensures i == 1 && j == 0 ==> r == []
    ensures i <= j ==> r == Strings(j - i) + acc
    decreases j - i
  {
    if i == 1 && j == 0 then []
    else if i == j then acc
    else ConvertToStringsHelper(i + 1, j, [Str] + acc)
  }

  /** `convert_to_strings<BranchTypes>`: one branch-name string per schema field. */
  function ConvertToStrings(schema: Shape): (names: Shape)
    ensures |names| == |schema|
    ensures forall k :: 0 <= k < |names| ==> names[k] == Str
  {
    ConvertToStringsHelper(1, |schema|, [Str])
  }

  /**
   * `result_of_unpacked_tuple<F, InputTuple>`: the return type of `F::map`
   * called with the input tuple's elements, unpacked positionally in order.
   */
  function ResultOfUnpackedTuple(f: ClassType, input: Shape): (r: Option<Shape>)
    ensures r.Some? <==> |f.maps| == 1 && f.maps[0].params == input
    ensures r.Some? ==> r.value == f.maps[0].ret
  {
    ResultOfMember(f.maps, Unpack(input, 0, []))
  }

  /**
   * `ProcessorApply<F, InputArg>`: a mapper's output is the result of its
   * `map`; anything else is taken to be a filter and leaves the type unchanged.
   */
  function ProcessorApply(f: ClassType, input: Shape): (r: Option<Shape>)
    ensures !f.derivesMapper ==> r == Some(input)
    ensures f.derivesMapper ==> (r.Some? <==> |f.maps| == 1 && f.maps[0].params == input)
    ensures f.derivesMapper && r.Some? ==> r.value == f.maps[0].ret
  {
    if f.derivesMapper then ResultOfUnpackedTuple(f, input) else Some(input)
  }

  /**
   * Feeds an (optional) type into one more stage: an error stays an error, a
   * filter passes whatever comes (error or type) through unchanged.
   */
  function Then(t: Option<Shape>, f: ClassType): (r: Option<Shape>)
    ensures r.Some? ==> t.Some?
    ensures !f.derivesMapper ==> r == t
    ensures f.derivesMapper && t.Some? ==> (r.Some? <==> |f.maps| == 1 && f.maps[0].params == t.value)
  {
    match t
    case None => None
    case Some(x) => ProcessorApply(f, x)
  }

  /**
   * `ProcessorArgHelper<I, J, InputArg, F, Stages...>::output_type`: `stages`
   * are the stages from position I on, `input` is what flows into stage I,
   * and the result is what flows out of stage J.
   */
  function ArgOutput(i: nat, j: nat, input: Shape, stages: seq<ClassType>): (r: Option<Shape>)
    requires i <= j < i + |stages|
    ensures r.Some? ==> ProcessorApply(stages[0], input).Some?
    decreases j - i
  {
    var next := ProcessorApply(stages[0], input);
    if i == j then next
    else if next.None? then None
    else ArgOutput(i + 1, j, next.value, stages[1..])
  }

  /**
   * `ProcessorArgHelper<0, J, InputArg, Stages...>::input_type`: the schema for
   * stage 0, and the output of stage J-1 for every later stage.
   */
  function ArgInput(j: nat, input: Shape, stages: seq<ClassType>): (r: Option<Shape>)
    requires j < |stages|
    ensures j == 0 ==> r == Some(input)
    ensures j > 0 && r.Some? ==> ProcessorApply(stages[0], input).Some?
  {
    if j == 0 then Some(input) else ArgOutput(0, j - 1, input, stages)
  }

  /** `ProcessorResult<InputArg, Stages...>::output_type`: the type at the end of the chain. */
  function ProcessorResult(input: Shape, stages: seq<ClassType>): (r: Option<Shape>)
    ensures |stages| == 0 ==> r == Some(input)
    ensures |stages| > 0 && r.Some? ==> ProcessorApply(stages[0], input).Some?
  {
    if |stages| == 0 then Some(input) else ArgOutput(0, |stages| - 1, input, stages)
  }

  /**
   * Reference definition of the resolver (a left fold): the type after the
   * given stages is the type after all but the last one, fed into the last.
   */
  function ShapeAfter(input: Shape, stages: seq<ClassType>): Option<Shape>
  {
    if stages == [] then Some(input)
    else Then(ShapeAfter(input, stages[..|stages| - 1]), stages[|stages| - 1])
  }

  /** The fold can be unrolled from the front as well: stage 0 first, then the rest. */
  lemma {:induction false} ShapeAfterFront(input: Shape, first: ClassType, rest: seq<ClassType>)
    ensures ShapeAfter(input, [first] + rest) ==
      (match ProcessorApply(first, input)
       case None => None
       case Some(next) => ShapeAfter(next, rest))
    decreases |rest|
  {
    var s := [first] + rest;
    if rest == [] {
      assert s[..|s| - 1] == [];
    } else {
      var init := rest[..|rest| - 1];
      assert s[..|s| - 1] == [first] + init;
      assert s[|s| - 1] == rest[|rest| - 1];
      ShapeAfterFront(input, first, init);
      if ProcessorApply(first, input).Some? {
        assert rest == init + [rest[|rest| - 1]];
      }
    }
  }

  /** Stage J's output, as the source computes it, is the fold over stages 0..J. */
  lemma {:induction false} ArgOutputIsPrefixFlow(i: nat, j: nat, input: Shape, stages: seq<ClassType>)
    requires i <= j < i + |stages|
    ensures ArgOutput(i, j, input, stages) == ShapeAfter(input, stages[..j - i + 1])
    decreases j - i
  {
    var s := stages[..j - i + 1];
    assert s == [stages[0]] + s[1..];
    ShapeAfterFront(input, stages[0], s[1..]);
    if i == j {
      assert s[1..] == [];
    } else if ProcessorApply(stages[0], input).Some? {
      var next := ProcessorApply(stages[0], input).value;
      ArgOutputIsPrefixFlow(i + 1, j, next, stages[1..]);
      assert stages[1..][..j - (i + 1) + 1] == s[1..];
    }
  }

  /** Filters alone leave the type unchanged: after stages I..J, none of them a mapper, the type is what went in. */
  lemma {:induction false} FiltersKeepType(i: nat, j: nat, input: Shape, stages: seq<ClassType>)
    requires i <= j < i + |stages|
    requires forall k :: 0 <= k <= j - i ==> !stages[k].derivesMapper
    ensures ArgOutput(i, j, input, stages) == Some(input)
    decreases j - i
  {
    if i < j {
      FiltersKeepType(i + 1, j, input, stages[1..]);
    }
  }

  /** Stage J's input is the fold over the stages before it; stage 0's is the schema. */
  lemma StageInputIsPrefixFlow(j: nat, input: Shape, stages: seq<ClassType>)
    requires j < |stages|
    ensures ArgInput(j, input, stages) == ShapeAfter(input, stages[..j])
    ensures j == 0 ==> ArgInput(j, input, stages) == Some(input)
  {
    if j > 0 {
      ArgOutputIsPrefixFlow(0, j - 1, input, stages);
    }
  }

  /**
   * Adjacent stages agree: for J > 0 the input of stage J is the output of
   * stage J-1, and the output of stage J is stage J applied to its own input.
   */
  lemma StageOutputFollowsInput(j: nat, input: Shape, stages: seq<ClassType>)
    requires j < |stages|
    ensures j > 0 ==> ArgInput(j, input, stages) == ArgOutput(0, j - 1, input, stages)
    ensures ArgOutput(0, j, input, stages) == Then(ArgInput(j, input, stages), stages[j])
  {
    ArgOutputIsPrefixFlow(0, j, input, stages);
    StageInputIsPrefixFlow(j, input, stages);
    assert stages[..j + 1][..j] == stages[..j];
  }

  /** A filter stage passes its input type through unchanged. */
  lemma FilterPreservesShape(j: nat, input: Shape, stages: seq<ClassType>)
    requires j < |stages| && !stages[j].derivesMapper
    ensures ArgOutput(0, j, input, stages) == ArgInput(j, input, stages)
  {
    StageOutputFollowsInput(j, input, stages);
  }

  /**
   * A mapper stage's output is the return type of its single `map` when that
   * takes exactly the stage's input type, and the chain is ill-formed otherwise.
   */
  lemma MapperOutputIsMapReturn(j: nat, input: Shape, stages: seq<ClassType>)
    requires j < |stages| && stages[j].derivesMapper
    requires ArgInput(j, input, stages).Some?
    ensures ArgOutput(0, j, input, stages).Some? <==>
      |stages[j].maps| == 1 && stages[j].maps[0].params == ArgInput(j, input, stages).value
    ensures ArgOutput(0, j, input, stages).Some? ==>
      ArgOutput(0, j, input, stages).value == stages[j].maps[0].ret
  {
    StageOutputFollowsInput(j, input, stages);
  }

  /** The end type of the chain is the schema for no stages, else the fold over all stages. */
  lemma ProcessorResultIsFlow(input: Shape, stages: seq<ClassType>)
    ensures ProcessorResult(input, stages) == ShapeAfter(input, stages)
    ensures |stages| == 0 ==> ProcessorResult(input, stages) == Some(input)
    ensures |stages| > 0 ==> ProcessorResult(input, stages) == ArgOutput(0, |stages| - 1, input, stages)
  {
    if |stages| > 0 {
      ArgOutputIsPrefixFlow(0, |stages| - 1, input, stages);
      assert stages[..|stages|] == stages;
    }
  }

  /** Appending a stage feeds the old end type into it: what `map`/`filter` rely on. */
  lemma ProcessorResultAppend(input: Shape, stages: seq<ClassType>, f: ClassType)
    ensures ProcessorResult(input, stages + [f]) == Then(ProcessorResult(input, stages), f)
  {
    ProcessorResultIsFlow(input, stages + [f]);
    ProcessorResultIsFlow(input, stages);
    assert (stages + [f])[..|stages|] == stages;
  }

  /**
   * `ProcessorArgHelper<I, J, InputArg, Stages...>::output_type` as the header
   * instantiates it. The general case also instantiates `input_type`, which is
   * the helper from 0 to J-1 over the stage list as shifted to I; when that
   * list runs out before its target, only the primary template is left, which
   * is declared but never defined (a compile error).
   */
  function ArgOutputAsWritten(i: nat, j: nat, input: Shape, stages: seq<ClassType>): (r: Option<Shape>)
    requires i <= j
    ensures r.Some? && j < i + |stages| ==> r == ArgOutput(i, j, input, stages)
    decreases j, |stages|
  {
    if i == j then
      if stages == [] then Some(input) else ProcessorApply(stages[0], input)
    else if stages == [] then None
    else
      var inputType := ArgOutputAsWritten(0, j - 1, input, stages);
      var nextInputArg := ArgOutputAsWritten(0, 0, input, stages);
      if inputType.None? || nextInputArg.None? then None
      else ArgOutputAsWritten(i + 1, j, nextInputArg.value, stages[1..])
  }

  /** `ProcessorResult<InputArg, Stages...>::output_type` over the resolver as written. */
  function ProcessorResultAsWritten(input: Shape, stages: seq<ClassType>): (r: Option<Shape>)
    ensures r.Some? ==> r == ProcessorResult(input, stages)
  {
    if |stages| == 0 then Some(input) else ArgOutputAsWritten(0, |stages| - 1, input, stages)
  }

  /**
   * Whether the instantiations of the resolver as written find a
   * specialisation at every step, for a list of n stages whatever their types.
   */
  function Fits(i: nat, j: nat, n: nat): bool
    requires i <= j
    decreases j, n
  {
    if i == j then true
    else if n == 0 then false
    else Fits(0, j - 1, n) && Fits(i + 1, j, n - 1)
  }

  /**
   * For a chain every stage of which applies, the resolver as written fails
   * exactly when its instantiations run out of stages.
   */
  lemma {:induction false} AsWrittenFailsOnlyByLength(i: nat, j: nat, input: Shape, stages: seq<ClassType>)
    requires i <= j
    ensures ShapeAfter(input, stages).Some? ==>
      (ArgOutputAsWritten(i, j, input, stages).Some? <==> Fits(i, j, |stages|))
    decreases j, |stages|
  {
    if ShapeAfter(input, stages).Some? && stages != [] {
      assert stages == [stages[0]] + stages[1..];
      ShapeAfterFront(input, stages[0], stages[1..]);
      if i != j {
        AsWrittenFailsOnlyByLength(0, j - 1, input, stages);
        AsWrittenFailsOnlyByLength(i + 1, j, ProcessorApply(stages[0], input).value, stages[1..]);
      }
    }
  }

  /** The number of stages the resolver as written needs to reach stage J from 0. */
  function Room(j: nat): nat
  {
    if j == 0 then 0
    else if Room(j - 1) + j - 1 < j then j
    else Room(j - 1) + j - 1
  }

  /** Reaching stage J from 0 needs at least `Room(J)` stages. */
  lemma {:induction false} FitsNeedsRoom(j: nat, n: nat)
    ensures Fits(0, j, n) ==> n >= Room(j)
    decreases j, n, 1
  {
    if j > 0 {
      FitsNeedsRoomFrom(0, j, n);
    }
  }

  /** Reaching stage J from I < J needs J-I stages, and `Room(J-1)` from the last step on. */
  lemma {:induction false} FitsNeedsRoomFrom(i: nat, j: nat, n: nat)
    requires i < j
    ensures Fits(i, j, n) ==> n >= j - i && n - (j - i - 1) >= Room(j - 1)
    decreases j, n, 0
  {
    if n > 0 {
      FitsNeedsRoom(j - 1, n);
      if i + 1 < j {
        FitsNeedsRoomFrom(i + 1, j, n - 1);
      }
    }
  }

  /** From stage 4 on, the room needed exceeds the stage count by more than one. */
  lemma {:induction false} RoomOutgrowsChain(j: nat)
    requires j >= 4
    ensures Room(j) >= j + 3
    decreases j
  {
    if j == 4 {
      assert Room(1) == 1 && Room(2) == 2 && Room(3) == 4;
    } else {
      RoomOutgrowsChain(j - 1);
    }
  }

  /** As written, no chain of five or more stages has an end type, whatever its stages. */
  lemma ProcessorResultAsWrittenFailsFromFive(input: Shape, stages: seq<ClassType>)
    requires |stages| >= 5
    ensures ProcessorResultAsWritten(input, stages).None?
  {
    var n := |stages|;
    ProcessorResultIsFlow(input, stages);
    AsWrittenFailsOnlyByLength(0, n - 1, input, stages);
    FitsNeedsRoom(n - 1, n);
    RoomOutgrowsChain(n - 1);
  }

  /** As written, chains of up to four stages resolve exactly as the fold says. */
  lemma ProcessorResultAsWrittenUpToFour(input: Shape, stages: seq<ClassType>)
    requires |stages| <= 4
    ensures ProcessorResultAsWritten(input, stages) == ProcessorResult(input, stages)
  {
    var n := |stages|;
    if n > 0 {
      assert Fits(0, n - 1, n) by {
        assert Fits(0, 0, 1) && Fits(0, 1, 2) && Fits(0, 2, 3) && Fits(0, 3, 4);
      }
      ProcessorResultIsFlow(input, stages);
      AsWrittenFailsOnlyByLength(0, n - 1, input, stages);
    }
  }

  /**
   * `GetStageTypeHelper<I, J, F, Stages...>`: walks from position I to J and
   * reports whether the stage found there derives from the mapper base.
   */
  function GetStageTypeHelper(i: nat, j: nat, stages: seq<ClassType>): (value: nat)
    requires i <= j < i + |stages|
    ensures value == 1 <==> stages[j - i].derivesMapper
    ensures value == 0 <==> !stages[j - i].derivesMapper
    decreases j - i
  {
    if i == j then (if stages[0].derivesMapper then 1 else 0)
    else GetStageTypeHelper(i + 1, j, stages[1..])
  }

  /** `GetStageType<N, Stages...>`: 1 for a mapper at position N, 0 for a filter. */
  function GetStageType(n: nat, stages: seq<ClassType>): (value: nat)
    requires n < |stages|
    ensures value == 1 <==> stages[n].derivesMapper
    ensures value == 0 <==> !stages[n].derivesMapper
  {
    GetStageTypeHelper(0, n, stages)
  }
}
