/**
 * The run-time vocabulary: the values a row holds, a stage as its declared
 * class plus what its `map` or `filter` computes, and the calls the chain
 * walk makes on the stages.
 */
module Records {
  import opened Shapes

  /** A value read from a branch or produced by a stage; float arithmetic is kept abstract as `real`. */
  datatype Value = IntVal(i: int) | RealVal(x: real) | BoolVal(b: bool) | TextVal(s: string)

  /** One row: a tuple of values, one per field of the current shape. */
  type Record = seq<Value>

  /** What a stage object computes: `map` for a mapper, `filter` for a filter. */
  datatype Op = Maps(f: Record -> Record) | Tests(p: Record -> bool)

  /** A stage object of the chain: its class (as the resolver sees it) and its operation. */
  datatype Stage = Stage(decl: ClassType, op: Op)

  /** A class derived from the mapper base has a `map`; every other stage has a `filter`. */
  predicate Consistent(s: Stage)
  {
    s.decl.derivesMapper <==> s.op.Maps?
  }

  /** One call made on a stage object during processing. */
  datatype Call = MapCall(stage: nat, input: Record) | FilterCall(stage: nat, input: Record) | FinalizeCall(stage: nat)
}
