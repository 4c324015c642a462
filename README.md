# TTreeProcessor core, modelled in Dafny

The library builds row-wise processing chains over a fixed tuple schema of
ROOT tree branches. A chain is a list of stages. Each stage is a mapper,
which turns a record into a new record, or a filter, which keeps or drops a
record. Nearly all of the logic runs at compile time as template recursion
over C++ types:

- the tuple type flowing into and out of every stage;
- whether each stage is a mapper or a filter;
- the branch-name tuple;
- the argument pack of a generated lambda stage;
- whether a chain runs in batched (Vc) mode.

At run time, a processor handle walks every row of every input through the
chain. A mapper's result feeds the next stage, and a rejecting filter ends
the walk for that row. `map` and `filter` invalidate the handle they are
called on.

The model turns types into data. A tuple type is a `Shapes.Shape`, a
sequence of `FieldType`s, and a stage class is a `ClassType`: whether it
derives from the mapper base, plus its overloads of `map`, `filter` and
`operator()`. A type that fails to compile is `None`. The resolver is
modelled twice: `Helpers.ArgOutput` is the recursion the header evidently
intends, and `Helpers.ArgOutputAsWritten` also makes the extra instantiation
of `input_type` that the header makes, which rejects chains of five or more
stages (see Findings). The modules are:

| module | models |
|---|---|
| `Shapes` | `decltype(&F::m)` and `std::result_of`: which overload of a member or a call applies, and its return type |
| `Helpers` | the type-flow resolver of `src/Helpers.h`, with a left-fold reference definition `ShapeAfter` proved equal to it |
| `VcHelpers` | `vector_t`, the batched tuple, and the per-stage and per-chain mode decisions of `src/VcHelpers.h` |
| `LambdaHelpers` | the vectorisation-aware lambda stage generator of `src/LambdaHelpers.h` |
| `Records` | run-time values, records, stage objects, and the calls made on stages |
| `Kernels` | the base mapper and filter of `src/TTreeProcessorKernels.h` |
| `GeneratedKernels` | the lambda wrapper classes and the counting mapper, a class with per-worker slots |
| `Processor` | the chain walk `Dispatch`, with the reference `Reach` proved to agree with it, and the `TTreeProcessor` handle class with `Map`, `Filter` and `Process` |
| `TypeExamples`, `ProcessorExample` | the test programs' compile-time checks and one processing chain, restated |

Observable behaviour of a run is the sequence of `Call`s it makes on the
stages. Each call goes to a copy of the stored stage, made for that call
alone (`std::make_tuple(std::get<N>(m_stage_state))`). Stages without state
behave the same either way. A stage with state, such as the counting stage,
keeps none of what its calls change (`Processor.CountsOnCopies`).

## Model

| member | source | states |
|---|---|---|
| Shapes.ResultOfMember | src/Helpers.h:112-115 | `&F::m` then the call is well-formed iff m has exactly one overload and it takes exactly the arguments; the result is that overload's return type |
| Shapes.ResultOfCall | src/TTreeProcessor.h:77-83 | calling a closure is well-formed iff some overload takes exactly the arguments, and the result is that overload's return type |
| Helpers.Unpack | src/Helpers.h:33-41 | unpacking from position i appends exactly the remaining elements, in order, to the pack |
| Helpers.GenerateLambdaArgs | src/Helpers.h:43-50 | a generated lambda stage's argument list is the input tuple's element types in their original order |
| Helpers.Strings | src/Helpers.h:61-65 | n strings: length n, every element `std::string` |
| Helpers.ConvertToStringsHelper | src/Helpers.h:61-77 | the `<1,0>` case is the empty tuple; otherwise it prepends one string per step from i to j |
| Helpers.ConvertToStrings | src/Helpers.h:79-86 | exactly one branch-name string per schema field (none for an empty schema) |
| Helpers.ResultOfUnpackedTuple | src/Helpers.h:104-120 | well-formed iff F has one `map` taking exactly the input fields; the result is its return type |
| Helpers.Then | src/Helpers.h:131-147 | one step of the reference fold: an error stays an error, a filter passes the type through, and a mapper yields a type iff its single `map` takes it |
| Helpers.ArgOutput | src/Helpers.h:153-173 | `output_type` of stage J, recursing from stage I over the stage list as intended (without the extra `input_type` instantiation): defined only when stage I accepts its input |
| Helpers.ArgInput | src/Helpers.h:153-167 | `input_type` of stage J: the schema for stage 0, and defined for a later stage only when stage 0 accepts the schema |
| Helpers.ProcessorResult | src/Helpers.h:179-187 | the end type: the schema for an empty chain, and defined for a non-empty one only when stage 0 accepts the schema |
| Helpers.FiltersKeepType | src/Helpers.h:134-137 | a run of filter stages leaves the type that enters it unchanged |
| Helpers.ArgOutputAsWritten | src/Helpers.h:150-173 | the recursion as written, with `input_type` instantiated from 0 to J-1 over the shifted list: whenever it compiles, it agrees with the intended `ArgOutput` |
| Helpers.ProcessorResultAsWritten | src/Helpers.h:179-187 | the end type as written: whenever it compiles, it is the intended end type |
| Helpers.Fits | src/Helpers.h:150-173 | which instantiations of the as-written recursion find enough stages; independent of the types |
| Helpers.AsWrittenFailsOnlyByLength | src/Helpers.h:150-173 | for a chain whose types flow, the as-written recursion compiles iff the stage list is long enough for every instantiation it makes |
| Helpers.FitsNeedsRoom | src/Helpers.h:153-161 | reaching stage J from stage 0 as written needs at least `Room(J)` stages, a bound that grows faster than J |
| Helpers.FitsNeedsRoomFrom | src/Helpers.h:153-161 | the same bound for a recursion that starts at stage I |
| Helpers.RoomOutgrowsChain | src/Helpers.h:153-161 | from J = 4 on, the room needed exceeds J + 1 stages |
| Helpers.ProcessorResultAsWrittenFailsFromFive | src/Helpers.h:150-161 | as written, no chain of five or more stages has an end type |
| Helpers.ProcessorResultAsWrittenUpToFour | src/Helpers.h:153-187 | as written, chains of up to four stages have exactly the intended end type |
| Helpers.ProcessorApply | src/Helpers.h:131-147 | a filter's output type is its input type; a mapper's is the return type of its single `map` when that takes the input, and ill-formed otherwise |
| Helpers.ShapeAfterFront | src/Helpers.h:150-167 | the left-fold reference can be unrolled from the first stage: stage 0 first, then the rest |
| Helpers.ArgOutputIsPrefixFlow | src/Helpers.h:150-167 | the output of stage J, as the header recurses, is the fold over stages 0..J |
| Helpers.StageInputIsPrefixFlow | src/Helpers.h:153-167 | the input of stage J is the fold over the stages before it, and the schema for stage 0 |
| Helpers.StageOutputFollowsInput | src/Helpers.h:153-161 | for J>0 the input of stage J is the output of stage J-1, and stage J's output is stage J applied to its input |
| Helpers.FilterPreservesShape | src/Helpers.h:134-137 | a filter stage's output type equals its input type at every position |
| Helpers.MapperOutputIsMapReturn | src/Helpers.h:139-147 | a mapper stage's output is the return type of its single `map` when that takes the stage's input; otherwise the chain is ill-formed |
| Helpers.ProcessorResultIsFlow | src/Helpers.h:179-187 | the end type is the schema for no stages and the last stage's output otherwise; in both cases it is the fold over all stages |
| Helpers.ProcessorResultAppend | src/Helpers.h:179-187 | appending a stage feeds the old end type into it |
| Helpers.GetStageTypeHelper | src/Helpers.h:193-201 | walking from i to j finds stage j and yields 1 iff it is a mapper, 0 iff it is a filter |
| Helpers.GetStageType | src/Helpers.h:203-206 | `GetStageType<N>` is 1 iff stage N is a mapper and 0 iff it is a filter, at every position |
| VcHelpers.VectorOf | src/VcHelpers.h:20-53 | float maps to `float_v`, double to `double_v`, int to `int_v`, unsigned to `uint_v`; every other T, and only those, maps to an array of W values of T; never the mask |
| VcHelpers.VectorOfInjective | src/VcHelpers.h:20-53 | distinct element types have distinct vector types |
| VcHelpers.VectorShape | src/VcHelpers.h:112-116 | the same length, with `vector_t` of field k at position k |
| VcHelpers.UnpackVectors | src/VcHelpers.h:59-63 | the helper recursion appends `vector_t` of each remaining field, in order |
| VcHelpers.VectorizedTuple | src/VcHelpers.h:112-125 | the batched form of an n-field tuple has n+1 fields: the mask first, then `vector_t` of field k at position k+1 |
| VcHelpers.VectorizedTupleInjective | src/VcHelpers.h:112-125 | the batched form determines the scalar tuple |
| VcHelpers.IsVectorizedHelper | src/VcHelpers.h:59-100 | from field I on, the helper asks whether the entry (`map` for TypeCode 1, `filter` otherwise) takes the mask, the collected pack, then `vector_t` of each remaining field |
| VcHelpers.IsVectorized | src/VcHelpers.h:102-107 | a stage is vectorised iff its one `map` (mapper) or `filter` (filter) takes exactly the mask followed by the vector fields |
| VcHelpers.WithoutMaskNotVectorized | src/VcHelpers.h:68-82 | a stage taking the vector fields without the leading mask is not vectorised |
| VcHelpers.OverloadedNotVectorized | src/VcHelpers.h:74-81 | a stage with several overloads of its entry, such as scalar plus batched, is not vectorised |
| VcHelpers.InputTuple | src/VcHelpers.h:130-146 | the chain's input type is the schema or its batched form, and the schema for an empty chain |
| VcHelpers.IsVectorizedStream | src/VcHelpers.h:151-170 | an empty chain is not vectorised |
| VcHelpers.InputTupleFollowsMode | src/VcHelpers.h:130-170 | the input type is the batched tuple exactly when the stream is vectorised |
| VcHelpers.FirstStageDecides | src/VcHelpers.h:133-137 | stages after the first have no effect on the input type or the mode, and the mode is the first stage's `is_vectorized` |
| LambdaHelpers.GenerateLambdaHelperVectorized | src/LambdaHelpers.h:10-31 | tag 0: the pack is the input fields in order; tag 1: the mask followed by `vector_t` of each field in order; the tag is carried to the class |
| LambdaHelpers.GenerateLambdaTypeVectorized | src/LambdaHelpers.h:33-42 | the tag is `is_vectorized` of the lambda type against the input; the pack is the input (n fields) or its batched form (n+1 fields) |
| LambdaHelpers.ClosureNeverVectorized | src/LambdaHelpers.h:37 | as written, a closure type always yields tag 0 and the scalar pack |
| LambdaHelpers.BatchedLambdaGetsScalarPack | src/test/testProcessorVectorized.cxx:18-21 | the batched lambda over a one-float schema is generated with the pack `(float)`, which it cannot be called with |
| LambdaHelpers.GenerateLambdaTypeVectorizedFixed | src/LambdaHelpers.h:33-42 | corrected decision: tag 1 iff the lambda's call operator accepts the batched tuple |
| LambdaHelpers.FixedPackIsCallable | src/LambdaHelpers.h:33-42 | with the corrected decision, a lambda callable either way is callable with its generated pack, and a batched mapper stage is recognised as vectorised |
| GeneratedKernels.KernelDecl | src/internal/GeneratedKernels.h:20-66 | a generated mapper derives from the mapper base and declares one `map` taking exactly its pack; a generated filter declares one `filter` taking exactly its pack (for a batched filter this is the corrected declaration; as written it is `GeneratedKernels.FilterParamsAsWritten`) |
| GeneratedKernels.FilterParamsAsWritten | src/internal/GeneratedKernels.h:68-79 | as written, the batched filter's parameter k is `vector_t` of pack type k, for every k; a scalar filter takes its pack unchanged |
| GeneratedKernels.MapperKernelOutput | src/internal/GeneratedKernels.h:23-47 | a generated mapper's output type is what the lambda returns for the pack |
| GeneratedKernels.FilterKernelOutput | src/internal/GeneratedKernels.h:55-79 | a generated filter leaves the flowing type unchanged |
| GeneratedKernels.VectorizedKernelRecognized | src/internal/GeneratedKernels.h:36-47 | a generated stage whose pack is the batched tuple is recognised as vectorised |
| GeneratedKernels.VectorizedFilterAsWrittenNotRecognized | src/internal/GeneratedKernels.h:68-79 | as written, the batched filter's first parameter is an array of masks, and the filter is never recognised as vectorised |
| GeneratedKernels.MapperLambdaStage | src/internal/GeneratedKernels.h:23-34 | the mapper wrapper's `map` returns the wrapped function's result for its arguments |
| GeneratedKernels.FilterLambdaStage | src/internal/GeneratedKernels.h:55-66 | the filter wrapper's `filter` returns the wrapped predicate's verdict |
| GeneratedKernels.CountPrinterDecl | src/internal/GeneratedKernels.h:86-87 | the counting stage derives from the mapper base |
| GeneratedKernels.CountPrinterPreservesShape | src/internal/GeneratedKernels.h:86-109 | the counting stage's output type is its input type |
| GeneratedKernels.CountPrinterStage | src/internal/GeneratedKernels.h:103-109 | the counting stage's `map` returns its arguments unchanged |
| GeneratedKernels.SumUpdate | src/internal/GeneratedKernels.h:106-112 | changing one slot changes the accumulated sum by exactly that slot's change |
| GeneratedKernels.CountPrinter.constructor | src/internal/GeneratedKernels.h:91-92 | a fresh counter has no slots, every worker starts from 0, and the total is 0 |
| GeneratedKernels.CountPrinter.Move | src/internal/GeneratedKernels.h:94-96 | a move keeps every slot, so the total is preserved |
| GeneratedKernels.CountPrinter.Copy | src/internal/GeneratedKernels.h:98-101 | as written, the copy has no slots and an exemplar equal to the source's total: it reports 0, and every worker later restarts from that total |
| GeneratedKernels.CountPrinter.CopyKeepingSlots | src/internal/GeneratedKernels.h:98-101 | corrected copy: slots and exemplar are copied, so the total is preserved |
| GeneratedKernels.CountPrinter.Map | src/internal/GeneratedKernels.h:103-109 | returns its arguments; adds 1 to the calling worker's slot, creating it from the exemplar; no other slot changes; the total grows by 1, or by exemplar+1 for a new slot |
| GeneratedKernels.CountPrinter.Finalize | src/internal/GeneratedKernels.h:111-115 | reports the sum of all worker slots |
| GeneratedKernels.CopyRestartsEverySlot | src/internal/GeneratedKernels.h:98-101 | a copy of a counter totalling T reports 0, then 2T+2 after two workers count once each |
| GeneratedKernels.CopyKeepsCount | src/internal/GeneratedKernels.h:98-101 | with the corrected copy, the same run reports T, then T+2 |
| Kernels.Decl | src/TTreeProcessorKernels.h:39-66 | a base stage is classified by the base it derives from and has no call operator; a mapper base declares no `filter` and one `map` taking exactly its inputs and returning T; a filter base declares no `map` and one `filter` taking exactly its inputs and returning bool |
| Kernels.OutputType | src/TTreeProcessorKernels.h:39-50 | the mapper base's `output_type` T is what the resolver computes for the base fed its inputs |
| Kernels.Finalize | src/TTreeProcessorKernels.h:48-65 | the default `finalize` of both bases reports completion (true) |
| Kernels.MapperBaseOutput | src/TTreeProcessorKernels.h:39-50 | a mapper base's declared `output_type` is what the resolver computes for it |
| Kernels.FilterBaseOutput | src/TTreeProcessorKernels.h:56-66 | a filter base leaves the flowing type unchanged |
| Kernels.Classification | src/TTreeProcessorKernels.h:17-29 | at every position, a mapper base is classified 1 and a filter base 0 |
| Processor.Decls | src/TTreeProcessor.h:124-128 | the stage classes, in chain order |
| Processor.CallAt | src/TTreeProcessor.h:227-271 | the call on stage n carries the stage's position and its input; it is `map` iff the stage derives from the mapper base, and never `finalize` |
| Processor.Dispatch | src/TTreeProcessor.h:216-278 | the walk from stage n makes between 1 and (stage count - n) calls, on consecutive stages starting at n, none of them `finalize`; the first call is on stage n with the row |
| Processor.ReachFront | src/TTreeProcessor.h:227-245 | the reference flow can be unrolled from the first stage |
| Processor.DispatchFollowsReach | src/TTreeProcessor.h:216-273 | stage n+k is called iff the row gets through stages n..n+k-1, and it is called with exactly what came through |
| Processor.DispatchUnfold | src/TTreeProcessor.h:227-245 | one step of the walk: a rejecting stage is the last call, otherwise the next stage is walked with what came through |
| Processor.ReachExtend | src/TTreeProcessor.h:227-245 | the record reaching one stage further is the previous one fed through that stage |
| Processor.ShortCircuit | src/TTreeProcessor.h:241-245 | a stage that lets the record through no further is a filter, and no later stage is called |
| Processor.NextCall | src/TTreeProcessor.h:227-245 | after a mapper, the next stage receives the mapper's result; after a filter, it receives the filter's own unmodified input, which the filter accepted |
| Processor.AcceptedReachesEveryStage | src/TTreeProcessor.h:250-273 | the terminal stage is called, as the last call, iff no earlier filter rejects, and with what came through |
| Processor.RunRows | src/TTreeProcessor.h:195-198 | the calls for one input's rows, the rows' walks one after another: at least one call per row |
| Processor.RunFiles | src/TTreeProcessor.h:192-200 | the calls for a list of inputs; for a single input, exactly that input's row calls |
| Processor.RunFilesSnoc | src/TTreeProcessor.h:192-200 | one more input appends its row calls after the earlier inputs' |
| Processor.RowsNeverFinalize | src/TTreeProcessor.h:195-198 | walking an input's rows calls only `map`/`filter` on existing stages |
| Processor.FilesNeverFinalize | src/TTreeProcessor.h:192-200 | `process` never calls `finalize` |
| Processor.EntriesAppend | src/TTreeProcessor.h:192-198 | the rows handed to stage 0 by two traces in sequence are the first trace's, then the second's |
| Processor.EntriesOfLaterStages | src/TTreeProcessor.h:227-229 | calls on later stages hand nothing to stage 0 |
| Processor.EntriesOfDispatch | src/TTreeProcessor.h:275-278 | one row's walk hands exactly that row to stage 0, once |
| Processor.RowsEnterInOrder | src/TTreeProcessor.h:195-198 | every row of an input reaches stage 0 exactly once, in reader order |
| Processor.FilesEnterInOrder | src/TTreeProcessor.h:192-198 | every row of every input reaches stage 0 exactly once, inputs in list order |
| Processor.TTreeProcessor.constructor | src/TTreeProcessor.h:138-143 | a new handle is valid and holds the given branches and stages |
| Processor.TTreeProcessor.EndType | src/TTreeProcessor.h:128 | `end_type` is the reference fold of the stages over the schema |
| Processor.TTreeProcessor.Map | src/TTreeProcessor.h:158-167 | invalidates this handle; returns a valid handle with the same branches, the stages plus a mapper wrapping fn fed the old end type, and as end type fn's return type |
| Processor.TTreeProcessor.Filter | src/TTreeProcessor.h:175-183 | for fn callable with the end type: invalidates this handle; returns a valid handle with the same branches, the stages plus a filter wrapping fn, and the same end type |
| Processor.TTreeProcessor.ProcessRows | src/TTreeProcessor.h:195-198 | the reader loop over one input makes exactly the calls of `RunRows` |
| Processor.TTreeProcessor.Process | src/TTreeProcessor.h:189-201 | for a chain whose every filter stage can take the tuple reaching it (`Processor.FiltersAccept`, what instantiating `&stage_type::filter` at lines 243 and 271 demands): an invalidated handle fails with `InvalidProcessor` and makes no call; a valid one walks every row of every input, in order, from stage 0 |
| Processor.CountsOnCopies | src/TTreeProcessor.h:227-229 | as written, every row's call is made on a fresh copy of the stored counting stage: each copy reports the stored total plus one and is dropped (the unchanged stored total follows from the method's frame alone) |
| Processor.CountsInPlace | src/TTreeProcessor.h:227-229 | with every call made on the stored counting stage, its total grows by exactly one per row |
| ProcessorExample.BuildFront | src/test/testProcessor.cxx:35-38 | `map` then `filter` on a new processor: the first handle is invalidated, the second holds the two stages with end type `(int, float)` |
| ProcessorExample.ChainAppended | src/test/testProcessor.cxx:36-40 | the chain is its first three stages followed by the fourth |
| ProcessorExample.Build | src/test/testProcessor.cxx:35-41 | the chain map, filter, map, map builds, with end type `(int)`; the intermediate handle is invalid |
| ProcessorExample.ChainStages | src/test/testProcessor.cxx:36-40 | the built chain's stages wrap the four lambdas, each with the member its base calls for |
| ProcessorExample.FirstRowRun | src/test/testProcessor.cxx:37-40 | row (1.0, 2, 0.0): the exact calls on all four stages, and the reference flow ends with the record (26) |
| ProcessorExample.SecondRowRun | src/test/testProcessor.cxx:37-38 | row (9.0, 10, 0.0) is dropped by the filter, no later stage is called, and the reference flow has no record at the end |
| ProcessorExample.ChainRun | src/test/testProcessor.cxx:36-41 | the exact calls made for rows (1.0, 2, 0.0) and (9.0, 10, 0.0); the reference flow ends with (26) for the first and nothing for the second |
| ProcessorExample.ChainFiltersAccept | src/test/testProcessor.cxx:36-38 | the test chain's one filter can take `(int, float)`, the tuple reaching it, so `process` can be instantiated for both handles |
| ProcessorExample.SwapFilterSquare | src/test/testProcessor.cxx:35-41 | processing on the final handle makes those calls; on the intermediate handle it fails |
| TypeExamples.ChainTypes | src/test/testHelpers.cxx:41-75 | the per-stage input and output types of the header test's chains, with filters first and in the middle; the four-stage chain's end type is `(int)` both as intended and as written |
| TypeExamples.FiveStagesDoNotResolve | src/Helpers.h:153-161 | five (int)->(int) mappers: the intended end type is `(int)`, and as written there is none |
| TypeExamples.StageTypes | src/test/testHelpers.cxx:62-72 | every stage classification check of the header test (line 70 repeats line 66) |
| TypeExamples.VectorModes | src/test/testVcHelpers.cxx:34-46 | the mode decisions and input types of the vectorisation test |

## Left out

- Reading ROOT files is not modelled: `TFile`, `TTreeReader`, the tree name, branch lookup and reader tuples (`src/RootHelpers.h` is not part of this model). An input is the sequence of its rows, already read.
- A missing tree raises no error in the source: `process` builds a `TTreeReader` for it and loops `while (myReader.Next())` (`src/TTreeProcessor.h:193-196`), so such an input has no rows and is skipped. In the model it is an input with no rows, which `Processor.TTreeProcessor.Process` handles like any other.
- `src/Backports.h` (`std::apply`) is not part of this model. Calling a stage is plain function application to the record.
- Parallel execution is not modelled: TBB, `count()` and `processParallel`. The counting stage's per-thread slots are indexed by a worker number and updated one call at a time.
- Vc arithmetic, lane masks and any batched run-time dispatch are not modelled. Values are abstract (`real` stands for float and double), and only the compile-time mode decision is modelled.
- Overload resolution is exact positional matching, without implicit conversions. `src/test/testHelpers.cxx:47-48` feeds `(double, double)` to a `map(int, int)`, which C++ accepts by conversion; the model calls that chain ill-formed, so those two checks are not restated.
- A `map` returning a non-tuple type T is modelled as returning the one-field tuple `(T)`. The source cannot chain any stage after such a `map`: the resolver applies `std::tuple_size` to T (`src/Helpers.h:119`) and the row walk applies `std::tuple_cat` to it (`src/TTreeProcessor.h:229`). The model accepts those chains.
- `Records.Consistent` (a stage derived from the mapper base has a `map`, a filter has a `filter`) is a precondition. The source enforces it at compile time.
- A stage's `map` is not checked against the record's field values. Records are untyped at run time; types are checked on shapes.
- The two duplicate base hierarchies (`TTreeMapper`/`TTreeFilter` in `src/Helpers.h:15-16`, and the empty bases in `src/TTreeProcessorKernels.h:17,29`) are one classification flag.
- Kernels.Decl: does not model that base stages are non-copyable and only movable (`src/TTreeProcessorKernels.h:43-44,60-61`), because stages are values here.
- GeneratedKernels.CountPrinter.Finalize: it returns the sum. The source's `finalize` prints the sum and, though declared `bool`, returns nothing.
- GeneratedKernels.CountPrinter.Move: does not describe the moved-from counter.
- Processor.TTreeProcessor.Map: returns the new handle by value. The source returns `std::move` of a temporary as an rvalue reference (`src/TTreeProcessor.h:158-166`); the temporary is destroyed at the end of the return statement, so the returned reference dangles, and every chained call in `src/test/testProcessor.cxx:35-40` runs on a destroyed object. The model's by-value handle is the evidently intended behaviour. It does not reject an invalidated handle, because the source does not check `m_valid` there; only `process` throws. It follows the intended resolver: as written, a fifth stage leaves the handle's class without an end type (`Helpers.ProcessorResultAsWrittenFailsFromFive`), which the model does not reject.
- Processor.TTreeProcessor.Filter: the same points as for `Map`, including the dangling reference (`src/TTreeProcessor.h:175-182`). It also requires fn to be callable with the end type when `filter` is called; the source only needs that when `process` instantiates the wrapper's `filter` (`src/TTreeProcessor.h:243,271`). The call must match exactly, and the `bool` result type is not checked.
- Helpers.ArgOutput: follows the intended recursion; the header as written also instantiates `input_type` on the shifted list, modelled separately by `Helpers.ArgOutputAsWritten`.
- Helpers.ProcessorResult: as for `ArgOutput`; the end type as written, `Helpers.ProcessorResultAsWritten`, is undefined from five stages on.
- Helpers.ArgOutputIsPrefixFlow: relates the intended recursion to the fold. As written, the recursion agrees with the fold only up to four stages (`Helpers.ProcessorResultAsWrittenUpToFour`).
- Helpers.ProcessorResultIsFlow: the same; for five or more stages the source has no end type at all.
- Helpers.ProcessorResultAppend: the same; appending a fifth stage is a compile error as written.
- Processor.Dispatch: stages are values, so the per-call copy of each stage is not visible in the trace. The copy matters only for stages with state. It is modelled for the counting stage by `Processor.CountsOnCopies`. The test mapper's `count++` (`src/test/testProcessor.cxx:11`) is lost in the same way and is not modelled.
- GeneratedKernels.CountPrinter.Map: slots are unbounded integers. The source's slots are `int`, and counting past 2^31-1 events overflows (undefined behaviour), which is not modelled.
- GeneratedKernels.CountPrinter.Finalize: the sum is unbounded; `std::accumulate(..., 0)` over `int` slots overflows past 2^31-1.
- GeneratedKernels.CountPrinter.Copy: the same overflow of the accumulated sum is not modelled.
- GeneratedKernels.Sum: an unbounded sum, where the source accumulates in `int`.
- Processor.TTreeProcessor.Process: has no path for the stage-less processor. The source cannot compile `process` without stages (`stage_count-1` and `GetStageType<0>`), so the model requires at least one stage.
- `process` never calls `finalize` (`src/TTreeProcessor.h:199` leaves it as a to-do), and the model proves that (`Processor.FilesNeverFinalize`).
- The vectorised mapper and filter wrappers have the same run-time stage as the scalar ones (`GeneratedKernels.MapperLambdaStage`, `GeneratedKernels.FilterLambdaStage`), since lanes are abstract. Their class declarations are distinguished by `GeneratedKernels.KernelDecl` and `GeneratedKernels.FilterParamsAsWritten`.
- Stage calls cannot fail in the model: stages are total functions (`Records.Op`). In the source every wrapper's `map` and `filter` is `noexcept` (`src/TTreeProcessor.h:81,109`, `src/internal/GeneratedKernels.h:28,41,60,73,103`), so a user function that throws terminates the program through `std::terminate`. That path is not modelled.
- Printing (`std::cout`) and the test programs' `main` argument checks are not modelled.

## Findings

| source | as written | input that shows it | evidently intended | confidence | as-written member | corrected member |
|---|---|---|---|---|---|---|
| src/LambdaHelpers.h:37 | the mode is `is_vectorized<T, InputTuple>` for the closure type T. A closure neither derives from the mapper base nor has a `filter`, so the test always fails and the tag is always 0 | the lambda `(maskv, floatv) -> floatv` over schema `(float)` (src/test/testProcessorVectorized.cxx:20) gets the pack `(float)`, which it cannot be called with | tag 1 when the lambda's call operator accepts the batched tuple | not executed; high | LambdaHelpers.BatchedLambdaGetsScalarPack | LambdaHelpers.FixedPackIsCallable |
| src/internal/GeneratedKernels.h:68-79 | the batched filter's pack is already `(maskv, vector_t<T>...)`, and the class applies `vector_t` to it again | over schema `(float)` its `filter` takes `(std::array<maskv,W>, std::array<floatv,W>)`, which is not the batched tuple, so `is_vectorized` rejects it | `filter(InputArgs...)`, as in the batched mapper | not executed; high | GeneratedKernels.VectorizedFilterAsWrittenNotRecognized | GeneratedKernels.VectorizedKernelRecognized |
| src/internal/GeneratedKernels.h:98-101 | the copy constructor builds a counter with no slots whose exemplar is the source's total | copy a counter totalling 2: the copy reports 0, and after two workers count once each it reports 6 instead of 4. The copy is made on every row (next row) | the copy keeps the count (reports 2, then 4) | not executed; medium | GeneratedKernels.CopyRestartsEverySlot | GeneratedKernels.CopyKeepsCount |
| src/Helpers.h:156 | `input_type` instantiates the helper from 0 to J-1 over the already shifted stage list; from five stages on one of these instantiations runs out of stages with I != J, which matches no specialisation, and the primary template is never defined | five `(int) -> (int)` mappers over schema `(int)` | `ProcessorArgHelper<I, J-1, …>`, or no `input_type` in the general case: the end type is the fold over all stages | not executed; medium | Helpers.ProcessorResultAsWrittenFailsFromFive | Helpers.ProcessorResultIsFlow |
| src/TTreeProcessor.h:229 | every call is made on `std::make_tuple(std::get<N>(m_stage_state))`, a copy of the stored stage, which is dropped after the call (also lines 243, 257, 271) | the counting stage over any number of rows: the stored counter's total never changes | the calls go to the stored stage, which counts one per row | not executed; medium | Processor.CountsOnCopies | Processor.CountsInPlace |
