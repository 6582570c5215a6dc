// vm/src/interpreter.rs: the fetch-decode-execute loop. `Loop` is its
// value-level specification; `Interpreter.RunContract` runs it in place on
// a call context and is proved to agree with it.
module VmInterpreter {
  import opened Wrappers
  import opened EthTypes
  import opened VecUtil
  import opened VmOpcode
  import opened VmStack
  import opened VmMemory
  import opened VmContract
  import opened VmContext
  import opened VmSemantics
  import opened VmInstruction
  import opened VmJumpTable

  /** The interpreter fields a run updates: `return_data` and `return_with_err`. */
  datatype RunState = RunState(returnData: seq<u8>, returnWithErr: u8)

  /** How `run_contract` ends: its return value and the interpreter fields, or a panic (Crashed). */
  datatype Outcome =
    | Finished(output: Option<seq<u8>>, err: Option<RunError>, rs: RunState)
    | Crashed

  /** One step either ends the run or goes on from a new pc and context. */
  datatype StepResult =
    | Ends(outcome: Outcome)
    | Continues(pc: u64, st: ContextState, rs: RunState)

  /** The context every run starts from: empty stack, memory and return stack. */
  function InitialState(c: Contract, input: seq<u8>): ContextState
  {
    ContextState([], [], [], c.(input := input))
  }

  /**
   * Memory growth before the handler: 32 times the word count of the size
   * reported by the operation's memory-size function, wrapped to 64 bits,
   * with the overflow flag ignored. None where that function panics.
   */
  function PreGrow(op: Operation, st: ContextState): (r: Option<ContextState>)
    ensures r.Some? ==> r.value.stack == st.stack && r.value.contract == st.contract
  {
    match op.memorySize
    case None => Some(st)
    case Some(f) =>
      match MemorySize(f, st.stack)
      case None => None
      case Some(ms) =>
        var size := SafeMul(ToU64Size(ms.0), 32).0;
        if size > 0 then Some(st.(memory := Resized(st.memory, size))) else Some(st)
  }

  /** What follows a handler's return, given the operation's flags. */
  function AfterHandler(op: Operation, pc: u64, st: ContextState, res: Option<seq<u8>>,
                        err: Option<RunError>, rs: RunState): StepResult
  {
    var rs' :=
      if !op.returnsData then rs
      else if res.Some? then rs.(returnData := res.value)
      else rs.(returnWithErr := 1);
    if err.Some? then Ends(Finished(None, err, rs'))
    else if op.reverts then Ends(Finished(res, Some(ExecutionReverted), rs'))
    else if op.halts then Ends(Finished(res, None, rs'))
    else if op.jumps then Continues(pc, st, rs')
    else if pc + 1 >= TWO64 then Ends(Crashed)
    else Continues(pc + 1, st, rs')
  }

  /** `return_with_err` is only ever set to 1, never cleared. */
  predicate ErrFlagKept(rs: RunState, rs': RunState)
  {
    rs'.returnWithErr == rs.returnWithErr || rs'.returnWithErr == 1
  }

  /**
   * How a run can end, from interpreter fields rs: a panic, or a result
   * whose error flag was kept and which carries no output when it failed
   * with an error other than a revert.
   */
  predicate Settled(o: Outcome, rs: RunState)
  {
    o.Finished? ==>
      ErrFlagKept(rs, o.rs) && (o.err.Some? && o.err.value != ExecutionReverted ==> o.output.None?)
  }

  /** One iteration of the loop body after the step counter. */
  function StepOnce(pc: u64, st: ContextState, rs: RunState): (r: StepResult)
    ensures r.Continues? ==> r.st.contract == st.contract && r.st.rstack == st.rstack
    ensures r.Continues? ==> ErrFlagKept(rs, r.rs)
    ensures r.Ends? ==> Settled(r.outcome, rs)
  {
    match GetOperation(GetByte(st.contract, pc))
    case None => Ends(Crashed)
    case Some(op) =>
      match PreGrow(op, st)
      case None => Ends(Crashed)
      case Some(st1) =>
        match Exec(op.execute, pc, rs.returnData, st1)
        case Panic => Ends(Crashed)
        case Next(pc2, st2, res, err) => AfterHandler(op, pc2, st2, res, err, rs)
  }

  /** The loop from step counter `steps`: the 1000th increment breaks out with (None, None). */
  function Loop(steps: nat, pc: u64, st: ContextState, rs: RunState): (r: Outcome)
    requires steps < 1000
    ensures Settled(r, rs)
    ensures steps == 999 ==> r == Finished(None, None, rs)
    decreases 1000 - steps
  {
    var steps' := steps + 1;
    if steps' % 1000 == 0 then Finished(None, None, rs)
    else match StepOnce(pc, st, rs)
      case Ends(o) => o
      case Continues(pc', st', rs') => Loop(steps', pc', st', rs')
  }

  /** The loop unrolled once, for a step counter below the break. */
  lemma LoopUnrolled(steps: nat, pc: u64, st: ContextState, rs: RunState)
    requires steps + 1 < 1000
    ensures var s := StepOnce(pc, st, rs);
      Loop(steps, pc, st, rs) == if s.Ends? then s.outcome else Loop(steps + 1, s.pc, s.st, s.rs)
  {
    var s := StepOnce(pc, st, rs);
    assert (steps + 1) % 1000 != 0;
    match s
    case Ends(o) =>
    case Continues(pc', st', rs') =>
  }

  /** `run_contract(contract, input)` on an interpreter whose fields are rs. */
  function Run(c: Contract, input: seq<u8>, rs: RunState): (r: Outcome)
    ensures Settled(r, rs)
  {
    Loop(0, 0, InitialState(c, input), rs)
  }

  /** A `RefCell<Contract>`: `take` moves the contract out and leaves the default behind. */
  class ContractCell {
    var contract: Contract

    constructor (c: Contract)
      ensures contract == c
    {
      contract := c;
    }

    method Take() returns (c: Contract)
      modifies this
      ensures c == old(contract) && contract == DefaultContract()
    {
      c := contract;
      contract := DefaultContract();
    }
  }

  class Interpreter {
    var origin: Address
    var returnData: seq<u8>
    var returnWithErr: u8

    constructor (origin: Address)
      ensures this.origin == origin && returnData == [] && returnWithErr == 0
    {
      this.origin := origin;
      returnData := [];
      returnWithErr := 0;
    }

    function Fields(): RunState
      reads this
    {
      RunState(returnData, returnWithErr)
    }

    /**
     * One pass of the loop body after the step counter: fetch, look up,
     * grow memory, run the handler and apply the operation's flags. done
     * says the run ends, with outcome; otherwise the loop goes on at pc'.
     */
    method Step(pc: u64, ctx: CallContext) returns (done: bool, pc': u64, outcome: Outcome)
      modifies this, ctx.stack, ctx.memory
      ensures origin == old(origin)
      ensures var s := StepOnce(pc, old(ctx.State()), old(Fields()));
        (done <==> s.Ends?)
        && (done ==> outcome == s.outcome && (outcome.Finished? ==> Fields() == outcome.rs))
        && (!done ==> pc' == s.pc && ctx.State() == s.st && Fields() == s.rs)
    {
      ghost var st0, rs0 := ctx.State(), Fields();
      pc' := pc;
      var op := GetByte(ctx.contract, pc);
      var operation := GetOperation(op);
      if operation.None? {
        return true, pc', Crashed;
      }
      var memorySize: u64 := 0;
      if operation.value.memorySize.Some? {
        var memsizeNOverflow := MemorySize(operation.value.memorySize.value, ctx.stack.data);
        if memsizeNOverflow.None? {
          return true, pc', Crashed;
        }
        memorySize := SafeMul(ToU64Size(memsizeNOverflow.value.0), 32).0;
      }
      if memorySize > 0 {
        ctx.memory.Resize(memorySize);
      }
      ghost var st1 := ctx.State();
      assert PreGrow(operation.value, st0) == Some(st1);
      var pc2, r := Execute(operation.value.execute, pc, returnData, ctx);
      if r.Panicked? {
        return true, pc', Crashed;
      }
      assert StepOnce(pc, st0, rs0) == AfterHandler(operation.value, pc2, ctx.State(), r.output, r.err, rs0);
      done, pc', outcome := ApplyFlags(operation.value, pc2, ctx.State(), r.output, r.err);
    }

    /** The tail of the loop body: record return data, then end the run or move pc as the flags say. */
    method ApplyFlags(op: Operation, pc2: u64, ghost st: ContextState, res: Option<seq<u8>>, err: Option<RunError>)
      returns (done: bool, pc': u64, outcome: Outcome)
      modifies this
      ensures origin == old(origin)
      ensures var s := AfterHandler(op, pc2, st, res, err, old(Fields()));
        (done <==> s.Ends?)
        && (done ==> outcome == s.outcome && (outcome.Finished? ==> Fields() == outcome.rs))
        && (!done ==> pc' == s.pc && st == s.st && Fields() == s.rs)
    {
      pc' := pc2;
      if op.returnsData {
        if res.Some? {
          returnData := res.value;
        } else {
          returnWithErr := 1;
        }
      }
      if err.Some? {
        return true, pc', Finished(None, err, Fields());
      } else if op.reverts {
        return true, pc', Finished(res, Some(ExecutionReverted), Fields());
      } else if op.halts {
        return true, pc', Finished(res, None, Fields());
      } else if !op.jumps {
        if pc2 + 1 >= TWO64 {
          return true, pc', Crashed;
        }
        pc' := pc2 + 1;
      }
      done, outcome := false, Crashed;
    }

    /**
     * Runs the contract taken out of the cell on the given input. The
     * result, and the interpreter's fields afterwards, are those of Run;
     * the cell is left holding the default contract.
     */
    method RunContract(cell: ContractCell, input: seq<u8>) returns (output: Option<seq<u8>>, err: Option<RunError>, panicked: bool)
      modifies this, cell
      ensures cell.contract == DefaultContract() && origin == old(origin)
      ensures var o := Run(old(cell.contract), input, old(Fields()));
        (panicked <==> o.Crashed?)
        && (!panicked ==> output == o.output && err == o.err && Fields() == o.rs)
    {
      ghost var o := Run(cell.contract, input, Fields());
      var memory := new Memory();
      var stack := new Stack.Default();
      var rstack := new ReturnStack();
      var c := cell.Take();
      var ctx := new CallContext(stack, memory, rstack, c);
      var pc: u64 := 0;
      ctx.contract := ctx.contract.(input := input);
      var steps := 0;
      while true
        invariant steps < 1000
        invariant fresh(ctx) && fresh(ctx.stack) && fresh(ctx.memory) && fresh(ctx.rstack)
        invariant cell.contract == DefaultContract() && origin == old(origin)
        invariant Loop(steps, pc, ctx.State(), Fields()) == o
        decreases 1000 - steps
      {
        ghost var st0, rs0 := ctx.State(), Fields();
        steps := steps + 1;
        if steps % 1000 == 0 { break; }
        assert steps != 1000 by {
          assert 1000 % 1000 == 0;
        }
        LoopUnrolled(steps - 1, pc, st0, rs0);
        var done, pc', outcome := Step(pc, ctx);
        if done {
          if outcome.Crashed? {
            return None, None, true;
          }
          return outcome.output, outcome.err, false;
        }
        pc := pc';
      }
      return None, None, false;
    }
  }
}
