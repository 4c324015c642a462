/**
 * The processor of src/TTreeProcessor.h: a handle holding the branch names
 * and the chain of stage objects, extended by `map` and `filter` (each of
 * which invalidates the handle it is called on), and `process`, which walks
 * every row of every input through the chain.
 *
 * A run of the chain is observed as the sequence of calls it makes on the
 * stages; `Reach` is an independent description of the record that arrives
 * at each stage, and the walk is proved to agree with it. Each call goes to a
 * copy of the stored stage object, made for that call alone: for the stateless
 * lambda stages that makes no difference, and for a stage with state it means
 * the stored stage never changes (`CountsOnCopies`).
 */
module Processor {
  import opened Shapes
  import opened Records
  import opened Helpers
  import opened GeneratedKernels

  /** The classes of the stages, as the resolver sees them. */
  function Decls(stages: seq<Stage>): (ds: seq<ClassType>)
    ensures |ds| == |stages|
    ensures forall k :: 0 <= k < |stages| ==> ds[k] == stages[k].decl
  {
    seq(|stages|, k requires 0 <= k < |stages| => stages[k].decl)
  }

  /** Every stage has the member its base calls for. */
  predicate AllConsistent(stages: seq<Stage>)
  {
    forall k :: 0 <= k < |stages| ==> Consistent(stages[k])
  }

  /**
   * Every filter stage's `filter` can be called with the tuple that reaches
   * it, as `process` demands when it takes `&stage_type::filter`.
   */
  predicate FiltersAccept(schema: Shape, stages: seq<Stage>)
  {
    forall k :: 0 <= k < |stages| && !stages[k].decl.derivesMapper ==>
      match ShapeAfter(schema, Decls(stages[..k]))
      case None => false
      case Some(t) => ResultOfMember(stages[k].decl.filters, t).Some?
  }

  /** The call made on stage s, at position n, with input x. */
  function CallAt(s: Stage, n: nat, x: Record): (c: Call)
    ensures c.stage == n && !c.FinalizeCall? && c.input == x
    ensures c.MapCall? <==> s.decl.derivesMapper
  {
    if s.decl.derivesMapper then MapCall(n, x) else FilterCall(n, x)
  }

  /**
   * `ProcessorHelper<N, M, IsMapper, Processor>::operator()`: calls stage N
   * with the record; a mapper's result goes on to stage N+1, a filter's input
   * goes on only when the filter accepts it, and the last stage ends the walk.
   */
  function Dispatch(stages: seq<Stage>, n: nat, arg: Record): (calls: seq<Call>)
    requires n < |stages| && AllConsistent(stages)
    ensures 1 <= |calls| <= |stages| - n
    ensures forall k :: 0 <= k < |calls| ==> calls[k].stage == n + k && !calls[k].FinalizeCall?
    ensures calls[0] == CallAt(stages[n], n, arg)
    decreases |stages| - n
  {
    assert Consistent(stages[n]);
    var last := n == |stages| - 1;
    if GetStageType(n, Decls(stages)) == 1 then
      var call := MapCall(n, arg);
      if last then [call]
      else [call] + Dispatch(stages, n + 1, stages[n].op.f(arg))
    else
      var call := FilterCall(n, arg);
      if last then [call]
      else if !stages[n].op.p(arg) then [call]
      else [call] + Dispatch(stages, n + 1, arg)
  }

  /** What stage s hands on for record x: a mapper's result, or x itself if a filter accepts it. */
  function Step(s: Stage, x: Record): Option<Record>
  {
    match s.op
    case Maps(f) => Some(f(x))
    case Tests(p) => if p(x) then Some(x) else None
  }

  /**
   * Reference definition: the record that comes out of the given stages when
   * x goes in, or None when one of them rejects it.
   */
  function Reach(stages: seq<Stage>, x: Record): Option<Record>
  {
    if stages == [] then Some(x)
    else
      match Reach(stages[..|stages| - 1], x)
      case None => None
      case Some(y) => Step(stages[|stages| - 1], y)
  }

  /** The reference can be unrolled from the first stage as well. */
  lemma {:induction false} ReachFront(s: Stage, rest: seq<Stage>, x: Record)
    ensures Reach([s] + rest, x) ==
      (match Step(s, x)
       case None => None
       case Some(y) => Reach(rest, y))
    decreases |rest|
  {
    var all := [s] + rest;
    if rest == [] {
      assert all[..|all| - 1] == [];
    } else {
      var init := rest[..|rest| - 1];
      assert all[..|all| - 1] == [s] + init;
      assert all[|all| - 1] == rest[|rest| - 1];
      ReachFront(s, init, x);
    }
  }

  /**
   * The walk from stage n makes a call on stage n+k exactly when the record
   * gets through stages n..n+k-1, and that call receives what came through.
   */
  lemma {:induction false} DispatchFollowsReach(stages: seq<Stage>, n: nat, x: Record, k: nat)
    requires AllConsistent(stages) && n + k < |stages|
    ensures k < |Dispatch(stages, n, x)| <==> Reach(stages[n..n + k], x).Some?
    ensures k < |Dispatch(stages, n, x)| ==>
      Dispatch(stages, n, x)[k] == CallAt(stages[n + k], n + k, Reach(stages[n..n + k], x).value)
    decreases k
  {
    if k == 0 {
      assert stages[n..n] == [];
    } else {
      var s, rest := stages[n], stages[n + 1..n + k];
      assert stages[n..n + k] == [s] + rest;
      ReachFront(s, rest, x);
      DispatchUnfold(stages, n, x);
      var d := Dispatch(stages, n, x);
      if Step(s, x).Some? {
        var y := Step(s, x).value;
        var tail := Dispatch(stages, n + 1, y);
        DispatchFollowsReach(stages, n + 1, y, k - 1);
        assert d == [CallAt(s, n, x)] + tail;
        assert Reach(stages[n..n + k], x) == Reach(rest, y);
        assert k < |d| <==> k - 1 < |tail|;
        if k < |d| {
          assert d[k] == tail[k - 1];
        }
      } else {
        assert |d| == 1;
      }
    }
  }

  /** One step of the walk before the last stage: the call on stage n, then the walk from n+1 if the record goes on. */
  lemma DispatchUnfold(stages: seq<Stage>, n: nat, x: Record)
    requires AllConsistent(stages) && n + 1 < |stages|
    ensures Step(stages[n], x).None? ==> Dispatch(stages, n, x) == [CallAt(stages[n], n, x)]
    ensures Step(stages[n], x).Some? ==>
      Dispatch(stages, n, x) == [CallAt(stages[n], n, x)] + Dispatch(stages, n + 1, Step(stages[n], x).value)
  {
    assert Consistent(stages[n]);
  }

  /** The record reaching one stage further is the previous one fed through that stage. */
  lemma ReachExtend(stages: seq<Stage>, n: nat, k: nat, x: Record)
    requires n + k < |stages|
    ensures Reach(stages[n..n + k + 1], x) ==
      (match Reach(stages[n..n + k], x)
       case None => None
       case Some(y) => Step(stages[n + k], y))
  {
    assert stages[n..n + k + 1][..k] == stages[n..n + k];
  }

  /** A stage that lets the record through no further is a filter, and the walk ends there. */
  lemma ShortCircuit(stages: seq<Stage>, n: nat, x: Record, k: nat)
    requires n < |stages| && AllConsistent(stages)
    requires k < |Dispatch(stages, n, x)|
    requires Step(stages[n + k], Dispatch(stages, n, x)[k].input).None?
    ensures Dispatch(stages, n, x)[k].FilterCall?
    ensures |Dispatch(stages, n, x)| == k + 1
  {
    assert Consistent(stages[n + k]);
    DispatchFollowsReach(stages, n, x, k);
    if n + k + 1 < |stages| {
      ReachExtend(stages, n, k, x);
      DispatchFollowsReach(stages, n, x, k + 1);
    }
  }

  /**
   * Consecutive calls: after a mapper the next stage receives the mapper's
   * result; after a filter it receives the filter's own input, which the
   * filter accepted.
   */
  lemma NextCall(stages: seq<Stage>, n: nat, x: Record, k: nat)
    requires n < |stages| && AllConsistent(stages)
    requires k + 1 < |Dispatch(stages, n, x)|
    ensures Step(stages[n + k], Dispatch(stages, n, x)[k].input) == Some(Dispatch(stages, n, x)[k + 1].input)
    ensures stages[n + k].op.Maps? ==>
      Dispatch(stages, n, x)[k + 1].input == stages[n + k].op.f(Dispatch(stages, n, x)[k].input)
    ensures stages[n + k].op.Tests? ==>
      stages[n + k].op.p(Dispatch(stages, n, x)[k].input) &&
      Dispatch(stages, n, x)[k + 1].input == Dispatch(stages, n, x)[k].input
  {
    assert Consistent(stages[n + k]);
    DispatchFollowsReach(stages, n, x, k);
    DispatchFollowsReach(stages, n, x, k + 1);
    ReachExtend(stages, n, k, x);
  }

  /**
   * A record no filter before the last stage rejects is handed to every stage
   * from n on; the call on the last stage is then the final call of the walk.
   */
  lemma AcceptedReachesEveryStage(stages: seq<Stage>, n: nat, x: Record)
    requires n < |stages| && AllConsistent(stages)
    ensures |Dispatch(stages, n, x)| == |stages| - n <==> Reach(stages[n..|stages| - 1], x).Some?
    ensures |Dispatch(stages, n, x)| == |stages| - n ==>
      Dispatch(stages, n, x)[|stages| - n - 1] ==
        CallAt(stages[|stages| - 1], |stages| - 1, Reach(stages[n..|stages| - 1], x).value)
  {
    DispatchFollowsReach(stages, n, x, |stages| - 1 - n);
  }

  /** `process_stages_helper` over the rows of one input, in order. */
  function RunRows(stages: seq<Stage>, rows: seq<Record>): (calls: seq<Call>)
    requires 0 < |stages| && AllConsistent(stages)
    ensures |rows| <= |calls|
  {
    if rows == [] then []
    else RunRows(stages, rows[..|rows| - 1]) + Dispatch(stages, 0, rows[|rows| - 1])
  }

  /** The rows of every input, one input after another. */
  function RunFiles(stages: seq<Stage>, files: seq<seq<Record>>): (calls: seq<Call>)
    requires 0 < |stages| && AllConsistent(stages)
    ensures |files| == 1 ==> calls == RunRows(stages, files[0])
  {
    if files == [] then []
    else RunFiles(stages, files[..|files| - 1]) + RunRows(stages, files[|files| - 1])
  }

  /** Running one more input appends that input's calls. */
  lemma RunFilesSnoc(stages: seq<Stage>, files: seq<seq<Record>>, i: nat)
    requires 0 < |stages| && AllConsistent(stages) && i < |files|
    ensures RunFiles(stages, files[..i + 1]) == RunFiles(stages, files[..i]) + RunRows(stages, files[i])
  {
    assert files[..i + 1][..i] == files[..i];
  }

  /** The walk over one input calls only `map` and `filter`, never `finalize`, and only on existing stages. */
  lemma {:induction false} RowsNeverFinalize(stages: seq<Stage>, rows: seq<Record>)
    requires 0 < |stages| && AllConsistent(stages)
    ensures forall k :: 0 <= k < |RunRows(stages, rows)| ==>
      !RunRows(stages, rows)[k].FinalizeCall? && RunRows(stages, rows)[k].stage < |stages|
    decreases |rows|
  {
    if rows != [] {
      RowsNeverFinalize(stages, rows[..|rows| - 1]);
    }
  }

  /** `process` calls only `map` and `filter`, never `finalize`, and only on existing stages. */
  lemma {:induction false} FilesNeverFinalize(stages: seq<Stage>, files: seq<seq<Record>>)
    requires 0 < |stages| && AllConsistent(stages)
    ensures forall k :: 0 <= k < |RunFiles(stages, files)| ==>
      !RunFiles(stages, files)[k].FinalizeCall? && RunFiles(stages, files)[k].stage < |stages|
    decreases |files|
  {
    if files != [] {
      FilesNeverFinalize(stages, files[..|files| - 1]);
      RowsNeverFinalize(stages, files[|files| - 1]);
    }
  }

  /** All rows of all inputs, in reading order. */
  function Flatten(files: seq<seq<Record>>): seq<Record>
  {
    if files == [] then [] else Flatten(files[..|files| - 1]) + files[|files| - 1]
  }

  /** The records handed to the first stage, in the order of the calls. */
  function Entries(trace: seq<Call>): seq<Record>
  {
    if trace == [] then []
    else
      var c := trace[|trace| - 1];
      Entries(trace[..|trace| - 1]) + (if c.stage == 0 && !c.FinalizeCall? then [c.input] else [])
  }

  lemma {:induction false} EntriesAppend(a: seq<Call>, b: seq<Call>)
    ensures Entries(a + b) == Entries(a) + Entries(b)
    decreases |b|
  {
    if b != [] {
      var ab := a + b;
      assert ab[..|ab| - 1] == a + b[..|b| - 1];
      assert ab[|ab| - 1] == b[|b| - 1];
      EntriesAppend(a, b[..|b| - 1]);
      var c := b[|b| - 1];
      var tail := if c.stage == 0 && !c.FinalizeCall? then [c.input] else [];
      assert Entries(ab) == Entries(a + b[..|b| - 1]) + tail;
      assert Entries(b) == Entries(b[..|b| - 1]) + tail;
    } else {
      assert a + b == a;
    }
  }

  /** Calls on later stages hand nothing to the first stage. */
  lemma {:induction false} EntriesOfLaterStages(t: seq<Call>)
    requires forall k :: 0 <= k < |t| ==> t[k].stage != 0
    ensures Entries(t) == []
    decreases |t|
  {
    if t != [] {
      EntriesOfLaterStages(t[..|t| - 1]);
    }
  }

  /** One row's walk hands exactly that row to the first stage, once. */
  lemma EntriesOfDispatch(stages: seq<Stage>, x: Record)
    requires 0 < |stages| && AllConsistent(stages)
    ensures Entries(Dispatch(stages, 0, x)) == [x]
  {
    var t := Dispatch(stages, 0, x);
    assert t == [t[0]] + t[1..];
    EntriesAppend([t[0]], t[1..]);
    EntriesOfLaterStages(t[1..]);
    assert [t[0]][..0] == [];
  }

  /** Every row of an input reaches the first stage exactly once, in order. */
  lemma {:induction false} RowsEnterInOrder(stages: seq<Stage>, rows: seq<Record>)
    requires 0 < |stages| && AllConsistent(stages)
    ensures Entries(RunRows(stages, rows)) == rows
    decreases |rows|
  {
    if rows != [] {
      var init := rows[..|rows| - 1];
      RowsEnterInOrder(stages, init);
      EntriesAppend(RunRows(stages, init), Dispatch(stages, 0, rows[|rows| - 1]));
      EntriesOfDispatch(stages, rows[|rows| - 1]);
      assert rows == init + [rows[|rows| - 1]];
    }
  }

  /** Every row of every input reaches the first stage exactly once, inputs in the order given. */
  lemma {:induction false} FilesEnterInOrder(stages: seq<Stage>, files: seq<seq<Record>>)
    requires 0 < |stages| && AllConsistent(stages)
    ensures Entries(RunFiles(stages, files)) == Flatten(files)
    decreases |files|
  {
    if files != [] {
      var init := files[..|files| - 1];
      FilesEnterInOrder(stages, init);
      EntriesAppend(RunFiles(stages, init), RunRows(stages, files[|files| - 1]));
      RowsEnterInOrder(stages, files[|files| - 1]);
    }
  }

  /** `InvalidProcessor`: an attempt to execute an invalidated handle. */
  datatype ProcessError = InvalidProcessor

  /** What `process` does: throws, or makes the calls of the walk. */
  datatype Outcome = Failure(error: ProcessError) | Success(trace: seq<Call>)

  /**
   * `TTreeProcessor<BranchTypes, ProcessingStages...>`: the schema (the
   * branch types), one branch name per schema field, the stage objects, and
   * whether the handle may still be executed.
   */
  class TTreeProcessor {
    const schema: Shape
    const branches: seq<string>
    const stages: seq<Stage>
    var valid: bool

    /**
     * What the class template demands to be instantiated: a name per branch
     * type, a chain whose end type resolves, and stages that have the member
     * their base calls for.
     */
    predicate WellFormed()
    {
      && |branches| == |ConvertToStrings(schema)|
      && ProcessorResult(schema, Decls(stages)).Some?
      && AllConsistent(stages)
    }

    /** `end_type`: the tuple type coming out of the last stage. */
    function EndType(): (t: Shape)
      requires WellFormed()
      ensures ShapeAfter(schema, Decls(stages)) == Some(t)
    {
      ProcessorResultIsFlow(schema, Decls(stages));
      ProcessorResult(schema, Decls(stages)).value
    }

    /** A valid handle over the given branch names and stage objects. */
    constructor (schema: Shape, branches: seq<string>, stages: seq<Stage>)
      requires |branches| == |schema| && ProcessorResult(schema, Decls(stages)).Some? && AllConsistent(stages)
      ensures this.schema == schema && this.branches == branches && this.stages == stages
      ensures valid && WellFormed()
    {
      this.schema := schema;
      this.branches := branches;
      this.stages := stages;
      valid := true;
    }

    /**
     * `map(fn)`: invalidates this handle and returns a valid one whose chain
     * is this chain plus a mapper stage wrapping fn, fed the current end
     * type; its end type is what fn returns for that type.
     */
    method Map(fnType: ClassType, fn: Record -> Record) returns (next: TTreeProcessor)
      requires WellFormed()
      requires ResultOfCall(fnType.calls, EndType()).Some?
      modifies this
      ensures !valid
      ensures fresh(next) && next.valid && next.WellFormed()
      ensures next.schema == schema && next.branches == branches
      ensures next.stages == stages + [MapperLambdaStage(fnType, fn, EndType())]
      ensures next.EndType() == ResultOfCall(fnType.calls, EndType()).value
    {
      valid := false;
      var args := GenerateLambdaArgs(EndType());
      var stage := MapperLambdaStage(fnType, fn, args);
      ProcessorResultAppend(schema, Decls(stages), stage.decl);
      assert Decls(stages + [stage]) == Decls(stages) + [stage.decl];
      MapperKernelOutput(fnType, 0, args);
      next := new TTreeProcessor(schema, branches, stages + [stage]);
    }

    /**
     * `filter(fn)`: invalidates this handle and returns a valid one whose
     * chain is this chain plus a filter stage wrapping fn; the end type is
     * unchanged. fn must be callable with the end type.
     */
    method Filter(fnType: ClassType, fn: Record -> bool) returns (next: TTreeProcessor)
      requires WellFormed()
      requires ResultOfCall(fnType.calls, EndType()).Some?
      modifies this
      ensures !valid
      ensures fresh(next) && next.valid && next.WellFormed()
      ensures next.schema == schema && next.branches == branches
      ensures next.stages == stages + [FilterLambdaStage(fnType, fn, EndType())]
      ensures next.EndType() == EndType()
    {
      valid := false;
      var args := GenerateLambdaArgs(EndType());
      var stage := FilterLambdaStage(fnType, fn, args);
      ProcessorResultAppend(schema, Decls(stages), stage.decl);
      assert Decls(stages + [stage]) == Decls(stages) + [stage.decl];
      FilterKernelOutput(fnType, 0, args, EndType());
      next := new TTreeProcessor(schema, branches, stages + [stage]);
    }

    /** The reader loop over one input: `process_stages_helper` on each row, in order. */
    method ProcessRows(rows: seq<Record>) returns (calls: seq<Call>)
      requires WellFormed() && |stages| > 0
      ensures calls == RunRows(stages, rows)
    {
      calls := [];
      var j := 0;
      while j < |rows|
        invariant 0 <= j <= |rows|
        invariant calls == RunRows(stages, rows[..j])
      {
        assert rows[..j + 1][..j] == rows[..j];
        calls := calls + Dispatch(stages, 0, rows[j]);
        j := j + 1;
      }
      assert rows[..j] == rows;
    }

    /**
     * `process(treeName, inputFiles)`: an invalidated handle throws;
     * otherwise every row of every input, in order, is walked through the
     * chain from the first stage. It compiles only when every filter stage
     * can take the tuple that reaches it.
     */
    method Process(files: seq<seq<Record>>) returns (r: Outcome)
      requires WellFormed() && |stages| > 0 && FiltersAccept(schema, stages)
      ensures !valid ==> r == Failure(InvalidProcessor)
      ensures valid ==> r == Success(RunFiles(stages, files))
    {
      if !valid {
        return Failure(InvalidProcessor);
      }
      var trace: seq<Call> := [];
      var i := 0;
      while i < |files|
        invariant 0 <= i <= |files|
        invariant trace == RunFiles(stages, files[..i])
      {
        var calls := ProcessRows(files[i]);
        RunFilesSnoc(stages, files, i);
        trace := trace + calls;
        i := i + 1;
      }
      assert files[..i] == files;
      return Success(trace);
    }
  }

  /**
   * The counting stage at position N as `process` drives it: every row's call
   * goes to a copy of the stored stage made for that call
   * (`std::make_tuple(std::get<N>(m_stage_state))`), and the copy is dropped
   * afterwards. Each copy reports one more than the stored total (`seen`).
   * The method changes nothing it can reach, so `after == before` holds by
   * its frame alone; what it shows is `seen`, the count each copy makes and
   * loses.
   */
  method CountsOnCopies(stored: CountPrinter, worker: nat, rows: seq<Record>) returns (before: int, after: int, seen: seq<int>)
    requires stored.Valid()
    ensures after == before
    ensures |seen| == |rows| && forall k :: 0 <= k < |rows| ==> seen[k] == before + 1
  {
    before := stored.Finalize();
    seen := [];
    var j := 0;
    while j < |rows|
      invariant 0 <= j <= |rows|
      invariant stored.Valid() && stored.Total() == before
      invariant |seen| == j && forall k :: 0 <= k < j ==> seen[k] == before + 1
    {
      var copy := new CountPrinter.Copy(stored);
      var _ := copy.Map(worker, rows[j]);
      var total := copy.Finalize();
      seen := seen + [total];
      j := j + 1;
    }
    after := stored.Finalize();
  }

  /**
   * The same rows with every call made on the stored stage itself: a counter
   * built by the default constructor (exemplar 0) counts each row once.
   */
  method CountsInPlace(stored: CountPrinter, worker: nat, rows: seq<Record>) returns (before: int, after: int)
    requires stored.Valid() && stored.exemplar == 0
    modifies stored
    ensures after == before + |rows|
  {
    before := stored.Finalize();
    var j := 0;
    while j < |rows|
      invariant 0 <= j <= |rows|
      invariant stored.Valid() && stored.exemplar == 0 && stored.Total() == before + j
    {
      var _ := stored.Map(worker, rows[j]);
      j := j + 1;
    }
    after := stored.Finalize();
  }
}
