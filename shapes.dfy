/**
 * The compile-time vocabulary of the processor library, as data.
 *
 * The library computes everything about a processing chain from C++ types:
 * a record is a `std::tuple<...>`, a stage is a class whose base says whether
 * it is a mapper or a filter and whose `map`/`filter` overloads say what it
 * accepts and returns. Here a tuple type is a `Shape` (its element types in
 * order) and a class is a `ClassType` (its base and its overload lists).
 */
module Shapes {

  datatype Option<T> = None | Some(value: T)

  /** One element type of a `std::tuple`. */
  datatype FieldType =
    | Float | Double | Int | Unsigned | Bool | Str   // float, double, int, unsigned, bool, std::string
    | Other(name: string)                           // any other scalar or user type
    | FloatVec | DoubleVec | IntVec | UIntVec       // floatv, doublev, intv, uintv (W lanes)
    | MaskV                                         // maskv, the W-lane validity mask
    | LaneArray(elem: FieldType)                    // std::array<T, W>

  /** A `std::tuple<Args...>`: the element types, in order. */
  type Shape = seq<FieldType>

  /** One overload of a member function: its parameter types and its tuple return type. */
  datatype Signature = Signature(params: Shape, ret: Shape)

  /**
   * What the metaprograms can see of a class F: whether it derives from the
   * mapper base (otherwise it is taken to be a filter), and its overloads of
   * `map`, `filter` and `operator()` (a lambda's closure type has only the last).
   */
  datatype ClassType = ClassType(derivesMapper: bool, maps: seq<Signature>, filters: seq<Signature>, calls: seq<Signature>)

  /**
   * `decltype(&F::m)` followed by `std::result_of<...(F, Args...)>`: taking the
   * address of a member is well-formed only when it names exactly one overload,
   * and the call is well-formed only when that overload takes exactly `args`.
   */
  function ResultOfMember(overloads: seq<Signature>, args: Shape): (r: Option<Shape>)
    ensures r.Some? <==> |overloads| == 1 && overloads[0].params == args
    ensures r.Some? ==> r.value == overloads[0].ret
  {
    if |overloads| == 1 && overloads[0].params == args then Some(overloads[0].ret) else None
  }

  /**
   * `std::result_of<T(Args...)>` for a callable T: overload resolution picks the
   * overload whose parameters are exactly `args` (C++ forbids two such overloads).
   */
  function ResultOfCall(overloads: seq<Signature>, args: Shape): (r: Option<Shape>)
    ensures r.Some? <==> exists k :: 0 <= k < |overloads| && overloads[k].params == args
    ensures r.Some? ==> exists k :: 0 <= k < |overloads| && overloads[k].params == args && overloads[k].ret == r.value
  {
    if overloads == [] then None
    else if overloads[0].params == args then Some(overloads[0].ret)
    else
      var r := ResultOfCall(overloads[1..], args);
      assert forall k :: 1 <= k < |overloads| ==> overloads[k] == overloads[1..][k - 1];
      r
  }
}
