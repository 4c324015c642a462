/**
 * The stage classes of src/internal/GeneratedKernels.h: the mapper and filter
 * classes generated around a user lambda (scalar and vectorised), and the
 * pass-through counting mapper with one counter slot per worker thread.
 */
module GeneratedKernels {
  import opened Shapes
  import opened Records
  import opened Helpers
  import opened VcHelpers

  /** The two lambda class templates. */
  datatype LambdaClass = MapperLambda | FilterLambda

  /** `LambdaClass<IsVectorized, T, InputArgs...>`: kind, tag, closure type and argument pack. */
  datatype LambdaKernel = LambdaKernel(kind: LambdaClass, tag: nat, fn: ClassType, args: Shape)

  /**
   * The class the resolver sees for a generated lambda stage. The mapper
   * derives from the mapper base and declares `map(InputArgs...)` returning
   * what the lambda returns for those arguments; the filter declares
   * `filter(InputArgs...)` returning bool. For a batched filter (tag 1) this
   * is the corrected declaration; the header as written declares the
   * parameters of `FilterParamsAsWritten` instead.
   */
  function KernelDecl(k: LambdaKernel): (d: ClassType)
    requires k.kind == MapperLambda ==> ResultOfCall(k.fn.calls, k.args).Some?
    ensures d.derivesMapper <==> k.kind == MapperLambda
    ensures |Entry(d)| == 1 && Entry(d)[0].params == k.args
  {
    match k.kind
    case MapperLambda => ClassType(true, [Signature(k.args, ResultOfCall(k.fn.calls, k.args).value)], [], [])
    case FilterLambda => ClassType(false, [], [Signature(k.args, [Bool])], [])
  }

  /**
   * The parameters the vectorised filter lambda declares as the header writes
   * it: `vector_t` of each of its InputArgs, which for a vectorised stage are
   * already the mask and the vector fields.
   */
  function FilterParamsAsWritten(k: LambdaKernel): (params: Shape)
    ensures |params| == |k.args|
    ensures k.tag == 1 ==> forall n {:trigger params[n]} :: 0 <= n < |k.args| ==> params[n] == VectorOf(k.args[n])
    ensures k.tag != 1 ==> params == k.args
  {
    if k.tag == 1 then VectorShape(k.args) else k.args
  }

  /** A generated mapper stage outputs what the wrapped lambda returns for the stage's input. */
  lemma MapperKernelOutput(fn: ClassType, tag: nat, args: Shape)
    requires ResultOfCall(fn.calls, args).Some?
    ensures ProcessorApply(KernelDecl(LambdaKernel(MapperLambda, tag, fn, args)), args) == ResultOfCall(fn.calls, args)
  {
  }

  /** A generated filter stage leaves the type flowing through it unchanged. */
  lemma FilterKernelOutput(fn: ClassType, tag: nat, args: Shape, x: Shape)
    ensures ProcessorApply(KernelDecl(LambdaKernel(FilterLambda, tag, fn, args)), x) == Some(x)
  {
  }

  /** A generated stage whose pack is the batched tuple is recognised as vectorised against the scalar tuple. */
  lemma VectorizedKernelRecognized(k: LambdaKernel, input: Shape)
    requires k.tag == 1 && k.args == VectorizedTuple(input)
    requires k.kind == MapperLambda ==> ResultOfCall(k.fn.calls, k.args).Some?
    ensures IsVectorized(KernelDecl(k), input)
  {
  }

  /**
   * As written, the vectorised filter lambda applies `vector_t` a second time:
   * its first parameter is an array of masks, so the mode decision never
   * recognises it as a batched stage.
   */
  lemma VectorizedFilterAsWrittenNotRecognized(k: LambdaKernel, input: Shape)
    requires k.kind == FilterLambda && k.tag == 1 && k.args == VectorizedTuple(input)
    ensures FilterParamsAsWritten(k)[0] == LaneArray(MaskV)
    ensures !IsVectorized(ClassType(false, [], [Signature(FilterParamsAsWritten(k), [Bool])], []), input)
  {
    assert FilterParamsAsWritten(k)[0] == VectorOf(MaskV);
  }

  /** The run-time stage of a generated mapper: its `map` returns the wrapped lambda's result. */
  function MapperLambdaStage(fnType: ClassType, fn: Record -> Record, args: Shape): (s: Stage)
    requires ResultOfCall(fnType.calls, args).Some?
    ensures Consistent(s) && s.decl == KernelDecl(LambdaKernel(MapperLambda, 0, fnType, args))
    ensures s.op.Maps? && forall x :: s.op.f(x) == fn(x)
  {
    Stage(KernelDecl(LambdaKernel(MapperLambda, 0, fnType, args)), Maps(fn))
  }

  /** The run-time stage of a generated filter: its `filter` returns the wrapped predicate's verdict. */
  function FilterLambdaStage(fnType: ClassType, fn: Record -> bool, args: Shape): (s: Stage)
    ensures Consistent(s) && s.decl == KernelDecl(LambdaKernel(FilterLambda, 0, fnType, args))
    ensures s.op.Tests? && forall x :: s.op.p(x) == fn(x)
  {
    Stage(KernelDecl(LambdaKernel(FilterLambda, 0, fnType, args)), Tests(fn))
  }

  /** `TTreeProcessorCountPrinter<InputArgs...>`: a mapper from the input tuple to itself. */
  function CountPrinterDecl(args: Shape): (d: ClassType)
    ensures d.derivesMapper
  {
    ClassType(true, [Signature(args, args)], [], [])
  }

  /** The counting stage's output type is its input type. */
  lemma CountPrinterPreservesShape(args: Shape)
    ensures ProcessorApply(CountPrinterDecl(args), args) == Some(args)
  {
  }

  /** The counting stage as a run-time stage: its `map` hands back its arguments. */
  function CountPrinterStage(args: Shape): (s: Stage)
    ensures Consistent(s) && s.op.Maps? && forall x :: s.op.f(x) == x
  {
    Stage(CountPrinterDecl(args), Maps(x => x))
  }

  /** The sum of counter slots, as `std::accumulate` from 0. */
  function Sum(s: seq<int>): int
  {
    if s == [] then 0 else Sum(s[..|s| - 1]) + s[|s| - 1]
  }

  /** Changing one slot changes the sum by exactly the change in that slot. */
  lemma {:induction false} SumUpdate(s: seq<int>, k: nat, v: int)
    requires k < |s|
    ensures Sum(s[k := v]) == Sum(s) - s[k] + v
    decreases |s|
  {
    var t := s[k := v];
    if k < |s| - 1 {
      assert t[..|t| - 1] == s[..|s| - 1][k := v];
      SumUpdate(s[..|s| - 1], k, v);
    } else {
      assert t[..|t| - 1] == s[..|s| - 1];
    }
  }

  /** The position of a worker's slot. */
  function IndexOf(workers: seq<nat>, w: nat): (k: nat)
    requires w in workers
    ensures k < |workers| && workers[k] == w && w !in workers[..k]
  {
    if workers[0] == w then 0
    else
      var k := IndexOf(workers[1..], w) + 1;
      assert workers[..k] == [workers[0]] + workers[1..][..k - 1];
      k
  }

  /**
   * `TTreeProcessorCountPrinter`: an `enumerable_thread_specific<int>` of
   * event counts. A worker's slot is created, from the exemplar, the first
   * time that worker counts; `finalize` adds up the slots that exist.
   * Workers are numbered; their slots are kept in creation order.
   */
  class CountPrinter {
    var workers: seq<nat>
    var counts: seq<int>
    var exemplar: int

    ghost predicate Valid()
      reads this
    {
      && |workers| == |counts|
      && forall a, b :: 0 <= a < b < |workers| ==> workers[a] != workers[b]
    }

    /** The sum of all slots, which `finalize` reports. */
    function Total(): int
      reads this
    {
      Sum(counts)
    }

    /** What `local()` gives worker w: its slot, or the exemplar before its first count. */
    function Slot(w: nat): int
      reads this
      requires Valid()
    {
      if w in workers then counts[IndexOf(workers, w)] else exemplar
    }

    /** A fresh counter: no slots yet, every worker starts from 0, the total is 0. */
    constructor ()
      ensures Valid() && Total() == 0 && workers == [] && exemplar == 0
      ensures forall w :: Slot(w) == 0
    {
      workers, counts, exemplar := [], [], 0;
    }

    /** The move constructor takes over every slot, so totals and slots are kept. */
    constructor Move(rhs: CountPrinter)
      requires rhs.Valid()
      ensures Valid() && Total() == rhs.Total()
      ensures forall w :: Slot(w) == rhs.Slot(w)
    {
      workers, counts, exemplar := rhs.workers, rhs.counts, rhs.exemplar;
    }

    /**
     * The copy constructor as written: a counter with no slots whose
     * exemplar is the source's total, so every worker that counts later
     * starts again from that total.
     */
    constructor Copy(rhs: CountPrinter)
      ensures Valid() && Total() == 0 && workers == [] && exemplar == rhs.Total()
      ensures forall w :: Slot(w) == rhs.Total()
    {
      workers, counts, exemplar := [], [], Sum(rhs.counts);
    }

    /** The copy that keeps the count: every slot, and the exemplar, are copied. */
    constructor CopyKeepingSlots(rhs: CountPrinter)
      requires rhs.Valid()
      ensures Valid() && Total() == rhs.Total() && workers == rhs.workers && exemplar == rhs.exemplar
      ensures forall w :: Slot(w) == rhs.Slot(w)
    {
      workers, counts, exemplar := rhs.workers, rhs.counts, rhs.exemplar;
    }

    /**
     * `map` called by `worker`: returns its arguments unchanged and adds 1 to
     * that worker's slot (creating it from the exemplar); no other slot changes.
     */
    method Map(worker: nat, args: Record) returns (r: Record)
      requires Valid()
      modifies this
      ensures Valid() && r == args && exemplar == old(exemplar)
      ensures workers == if worker in old(workers) then old(workers) else old(workers) + [worker]
      ensures Slot(worker) == old(Slot(worker)) + 1
      ensures forall w :: w != worker ==> Slot(w) == old(Slot(w))
      ensures Total() == old(Total()) + (if worker in old(workers) then 1 else old(exemplar) + 1)
    {
      var k := 0;
      while k < |workers| && workers[k] != worker
        invariant 0 <= k <= |workers|
        invariant worker !in workers[..k]
      {
        k := k + 1;
      }
      if k < |workers| {
        assert IndexOf(workers, worker) == k;
        SumUpdate(counts, k, counts[k] + 1);
        counts := counts[k := counts[k] + 1];
      } else {
        assert workers[..k] == workers;
        ghost var oldWorkers := workers;
        workers := workers + [worker];
        counts := counts + [exemplar + 1];
        assert counts[..|counts| - 1] == old(counts);
        forall w | w in oldWorkers
          ensures IndexOf(workers, w) == IndexOf(oldWorkers, w)
        {
          var i := IndexOf(oldWorkers, w);
          assert workers[i] == w && w !in workers[..i] by {
            assert workers[..i] == oldWorkers[..i];
          }
          IndexUnique(workers, w, i);
        }
      }
      r := args;
    }

    /** `finalize`: the sum of every worker's slot. */
    method Finalize() returns (total: int)
      ensures total == Total()
    {
      total := 0;
      var k := 0;
      while k < |counts|
        invariant 0 <= k <= |counts|
        invariant total == Sum(counts[..k])
      {
        assert counts[..k + 1][..k] == counts[..k];
        total := total + counts[k];
        k := k + 1;
      }
      assert counts[..|counts|] == counts;
    }
  }

  /** The first position of w is the only position before which w does not occur. */
  lemma IndexUnique(workers: seq<nat>, w: nat, i: nat)
    requires i < |workers| && workers[i] == w && w !in workers[..i]
    ensures IndexOf(workers, w) == i
  {
  }

  /**
   * The copy constructor as written: a copy of a counter totalling T reports
   * 0, and once two workers count one event each on it, it reports 2T + 2
   * rather than T + 2.
   */
  method CopyRestartsEverySlot(c: CountPrinter) returns (copyBefore: int, copyAfter: int)
    requires c.Valid()
    ensures copyBefore == 0 && copyAfter == 2 * c.Total() + 2
  {
    var total := c.Total();
    var d := new CountPrinter.Copy(c);
    assert d.workers == [] && d.exemplar == total && d.Total() == 0;
    copyBefore := d.Finalize();
    var _ := d.Map(0, []);
    assert d.workers == [0] && d.exemplar == total && d.Total() == total + 1;
    assert 1 !in d.workers;
    var _ := d.Map(1, []);
    assert d.Total() == 2 * total + 2;
    copyAfter := d.Finalize();
  }

  /**
   * The same run with the slot-keeping copy of a counter whose exemplar is 0
   * (every counter built by the default constructor): the copy reports T,
   * and T + 2 after the two counts.
   */
  method CopyKeepsCount(c: CountPrinter) returns (copyBefore: int, copyAfter: int)
    requires c.Valid() && c.exemplar == 0
    ensures copyBefore == c.Total() && copyAfter == c.Total() + 2
  {
    var d := new CountPrinter.CopyKeepingSlots(c);
    copyBefore := d.Finalize();
    var _ := d.Map(0, []);
    var _ := d.Map(1, []);
    copyAfter := d.Finalize();
  }
}
