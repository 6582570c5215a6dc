// Properties of a whole run: how PUSH moves pc, that memory is never grown
// ahead of a handler for ordinary operands, and three complete runs.
module VmRunProps {
  import opened Wrappers
  import opened Arith
  import opened EthTypes
  import opened VecUtil
  import opened VmOpcode
  import opened VmStack
  import opened VmMemory
  import opened VmContract
  import opened VmContext
  import opened VmSemantics
  import opened VmSemanticsProps
  import opened VmJumpTable
  import opened VmInterpreter

  /**
   * The memory-size functions only ask for growth when an operand they
   * read is at least 2^64: with ordinary operands the context reaches the
   * handler unchanged.
   */
  lemma NoPreGrowth(op: Operation, st: ContextState)
    requires op.memorySize.Some? ==> Depth(op.memorySize.value) < |st.stack|
    requires forall i :: 0 <= i < |st.stack| ==> st.stack[i] < TWO64
    ensures PreGrow(op, st) == Some(st)
  {
    if op.memorySize.Some? {
      NoPreGrowthForSmallOperands(op.memorySize.value, st.stack);
      assert ToU64Size(0) == 0;
    }
  }

  /**
   * An operand of 2^64 or more can grow memory before the handler: MLOAD
   * at offset 2^64 + 5 asks for 37 bytes, so memory grows to 64.
   */
  lemma LargeOffsetGrowsMemory(op: Operation, st: ContextState)
    requires op.memorySize == Some(MemoryMLoad)
    requires st.stack == [TWO64 + 5]
    ensures PreGrow(op, st) == Some(st.(memory := Resized(st.memory, 64)))
  {
    HighLimbsZeroIff(TWO64 + 5);
    assert Limb(TWO64 + 5, 0) == 5;
    assert CalcMemSize64WithUint(TWO64 + 5, 32) == Some((37, false));
    assert ToU64Size(37) == 2;
  }

  /**
   * PUSHn at pc pushes the n bytes after it and the loop then continues
   * n + 1 bytes further on: n inside the handler and 1 after it.
   */
  lemma PushAdvancesPastImmediate(n: PushSize, pc: u64, st: ContextState, rs: RunState)
    requires GetByte(st.contract, pc) == PUSH1 + n - 1
    requires pc + n + 1 < TWO64
    ensures StepOnce(pc, st, rs)
         == Continues(pc + n + 1, st.(stack := st.stack + [WordFromBe(Immediate(st.contract, pc, n))]), rs)
  {
    var b := GetByte(st.contract, pc);
    PushEntry(b);
    var op := GetOperation(b).value;
    assert PreGrow(op, st) == Some(st);
    if n == 1 {
      Push1IsPushOne(pc, rs.returnData, st);
    }
    PushReadsImmediate(n, pc, rs.returnData, st);
    var st2 := st.(stack := st.stack + [WordFromBe(Immediate(st.contract, pc, n))]);
    assert Exec(op.execute, pc, rs.returnData, st) == Next(pc + n, st2, None, None);
    StepThroughHandler(pc, st, rs, op, st, pc + n, st2, None, None);
  }

  /** An error from a handler ends the run with no output, even from RETURN or REVERT. */
  lemma ErrorDiscardsOutput(op: Operation, pc: u64, st: ContextState, res: Option<seq<u8>>, e: RunError, rs: RunState)
    ensures AfterHandler(op, pc, st, res, Some(e), rs).Ends?
    ensures AfterHandler(op, pc, st, res, Some(e), rs).outcome.output == None
    ensures AfterHandler(op, pc, st, res, Some(e), rs).outcome.err == Some(e)
  {
  }

  /**
   * REVERT ends the run with its output and ExecutionReverted, after
   * recording the output as return data (or flagging its absence).
   */
  lemma RevertRecordsOutput(pc: u64, st: ContextState, res: Option<seq<u8>>, rs: RunState)
    ensures var op := GetOperation(REVERT).value;
      AfterHandler(op, pc, st, res, None, rs)
      == Ends(Finished(res, Some(ExecutionReverted),
           if res.Some? then rs.(returnData := res.value) else rs.(returnWithErr := 1)))
  {
    GetOperationDefinedOnTable(REVERT);
  }

  /** RETURN and STOP end the run with their output and leave the interpreter fields alone. */
  lemma HaltKeepsFields(v: u8, pc: u64, st: ContextState, res: Option<seq<u8>>, rs: RunState)
    requires v == RETURN || v == STOP
    ensures AfterHandler(GetOperation(v).value, pc, st, res, None, rs) == Ends(Finished(res, None, rs))
  {
    GetOperationDefinedOnTable(v);
  }

  /** Code with no bytes reads STOP at pc 0, so the run ends at once with (None, None). */
  lemma EmptyCodeStops(c: Contract, input: seq<u8>, rs: RunState)
    requires c.code == []
    ensures Run(c, input, rs) == Finished(None, None, rs)
  {
    GetOperationDefinedOnTable(STOP);
    LoopUnrolled(0, 0, InitialState(c, input), rs);
  }

  /** PUSH1 a, PUSH1 b, ADD, PUSH1 0, MSTORE, PUSH1 32, PUSH1 0, RETURN. */
  function AddAndReturn(a: u8, b: u8): seq<u8>
  {
    [PUSH1, a, PUSH1, b, ADD, PUSH1, 0x00, MSTORE, PUSH1, 0x20, PUSH1, 0x00, RETURN]
  }

  /** PUSH1 b at pc, where the byte after pc is b. */
  lemma PushOneStep(pc: u64, st: ContextState, rs: RunState, b: u8)
    requires pc + 2 < TWO64 && pc + 2 < |st.contract.code| && st.contract.code[pc] == PUSH1 && st.contract.code[pc + 1] == b
    ensures StepOnce(pc, st, rs) == Continues(pc + 2, st.(stack := st.stack + [b]), rs)
  {
    PushAdvancesPastImmediate(1, pc, st, rs);
    var bs := Immediate(st.contract, pc, 1);
    assert bs == [b];
    assert BeValue(bs) == b by {
      assert bs[..0] == [];
    }
  }

  lemma AddStep(pc: u64, st: ContextState, rs: RunState, x: Word, y: Word)
    requires pc + 1 < TWO64 && pc + 1 < |st.contract.code| && st.contract.code[pc] == ADD
    requires |st.stack| >= 2 && st.stack[|st.stack| - 1] == x && st.stack[|st.stack| - 2] == y && x + y < TWO256
    ensures StepOnce(pc, st, rs) == Continues(pc + 1, st.(stack := Popped(st.stack, 2) + [x + y]), rs)
  {
    GetOperationDefinedOnTable(ADD);
  }

  /** MSTORE of v at offset 0 of an empty memory: memory becomes the 32 little-endian bytes of v. */
  lemma MStoreStepAtZero(pc: u64, st: ContextState, rs: RunState, s: seq<Word>, v: Word)
    requires pc + 1 < TWO64 && pc + 1 < |st.contract.code| && st.contract.code[pc] == MSTORE
    requires st.stack == s + [v, 0] && st.memory == []
    ensures StepOnce(pc, st, rs) == Continues(pc + 1, st.(stack := s, memory := LeBytes(v, 32)), rs)
  {
    GetOperationDefinedOnTable(MSTORE);
    var op := GetOperation(MSTORE).value;
    assert MemorySize(MemoryMStore, st.stack) == Some((0, true));
    assert ToU64Size(0) == 0;
    assert PreGrow(op, st) == Some(st);
    Set32Characterised([], 0, v);
    assert Popped(st.stack, 2) == s;
    assert Set32Spec([], 0, v).value == LeBytes(v, 32) by {
      assert Set32Spec([], 0, v).value[0..] == Set32Spec([], 0, v).value;
    }
    var st2 := st.(stack := s, memory := LeBytes(v, 32));
    ExecMemoryOps(pc, rs.returnData, st);
    assert Exec(MStore, pc, rs.returnData, st) == Next(pc, st2, None, None);
    StepThroughHandler(pc, st, rs, op, st, pc, st2, None, None);
  }

  /** A step whose handler returns: what follows is decided by the operation's flags. */
  lemma StepThroughHandler(pc: u64, st: ContextState, rs: RunState, op: Operation, st1: ContextState,
                           pc2: u64, st2: ContextState, res: Option<seq<u8>>, err: Option<RunError>)
    requires GetOperation(GetByte(st.contract, pc)) == Some(op) && PreGrow(op, st) == Some(st1)
    requires Exec(op.execute, pc, rs.returnData, st1) == Next(pc2, st2, res, err)
    ensures StepOnce(pc, st, rs) == AfterHandler(op, pc2, st2, res, err, rs)
  {
  }

  lemma ExecReturnOp(pc: u64, rd: seq<u8>, st: ContextState)
    requires |st.stack| >= 2
    ensures Exec(Return, pc, rd, st)
         == ExecGetCopy(pc, st, st.stack[|st.stack| - 1], st.stack[|st.stack| - 2], Popped(st.stack, 2), true)
  {
  }

  /** RETURN of the whole 32-byte memory. */
  lemma ReturnStep(pc: u64, st: ContextState, rs: RunState, s: seq<Word>)
    requires pc < |st.contract.code| && st.contract.code[pc] == RETURN
    requires st.stack == s + [32, 0] && |st.memory| == 32
    ensures StepOnce(pc, st, rs) == Ends(Finished(Some(st.memory), None, rs))
  {
    GetOperationDefinedOnTable(RETURN);
    var op := GetOperation(RETURN).value;
    assert MemorySize(MemoryReturn, st.stack) == Some((0, true));
    assert ToU64Size(0) == 0;
    assert PreGrow(op, st) == Some(st);
    GetCopyWindow(st.memory, 0, 32);
    var (m1, out) := GetCopySpec(st.memory, 0, 32).value;
    assert m1 == st.memory by {
      assert m1[..32] == st.memory;
    }
    assert m1[0..32] == st.memory;
    ExecReturnOp(pc, rs.returnData, st);
    assert Exec(Return, pc, rs.returnData, st) == Next(pc, st.(stack := s), Some(st.memory), None);
    StepThroughHandler(pc, st, rs, op, st, pc, st.(stack := s), Some(st.memory), None);
  }

  lemma {:induction false} LeBytesOfZero(n: nat)
    ensures LeBytes(0, n) == Zeros(n)
  {
    if n > 0 {
      LeBytesOfZero(n - 1);
      assert Zeros(n) == [0] + Zeros(n - 1);
    }
  }

  /** A value below 256 is its own first byte, followed by zeros. */
  lemma LeBytesOfByte(w: nat, n: nat)
    requires w < 256 && n >= 1
    ensures LeBytes(w, n) == [w] + Zeros(n - 1)
  {
    assert w / 256 == 0;
    LeBytesOfZero(n - 1);
  }

  /** A PUSH1 step inside the loop: the next iteration sees the byte pushed, two bytes on. */
  lemma PushOneThenLoop(steps: nat, pc: u64, st: ContextState, rs: RunState, b: u8)
    requires steps + 1 < 1000
    requires pc + 2 < TWO64 && pc + 2 < |st.contract.code| && st.contract.code[pc] == PUSH1 && st.contract.code[pc + 1] == b
    ensures Loop(steps, pc, st, rs) == Loop(steps + 1, pc + 2, st.(stack := st.stack + [b]), rs)
  {
    PushOneStep(pc, st, rs, b);
    LoopUnrolled(steps, pc, st, rs);
  }

  /** Two PUSH1 steps in a row inside the loop. */
  lemma TwoPushesThenLoop(steps: nat, pc: u64, st: ContextState, rs: RunState, x: u8, y: u8)
    requires steps + 2 < 1000 && pc + 4 < TWO64 && pc + 4 < |st.contract.code|
    requires st.contract.code[pc] == PUSH1 && st.contract.code[pc + 1] == x
    requires st.contract.code[pc + 2] == PUSH1 && st.contract.code[pc + 3] == y
    ensures Loop(steps, pc, st, rs) == Loop(steps + 2, pc + 4, st.(stack := st.stack + [x, y]), rs)
  {
    var st1 := st.(stack := st.stack + [x]);
    PushOneThenLoop(steps, pc, st, rs, x);
    PushOneThenLoop(steps + 1, pc + 2, st1, rs, y);
    assert st1.(stack := st1.stack + [y]) == st.(stack := st.stack + [x, y]) by {
      assert st1.stack + [y] == st.stack + [x, y];
    }
  }

  /** An ADD step inside the loop. */
  lemma AddThenLoop(steps: nat, pc: u64, st: ContextState, rs: RunState, x: Word, y: Word)
    requires steps + 1 < 1000
    requires pc + 1 < TWO64 && pc + 1 < |st.contract.code| && st.contract.code[pc] == ADD
    requires |st.stack| >= 2 && st.stack[|st.stack| - 1] == x && st.stack[|st.stack| - 2] == y && x + y < TWO256
    ensures Loop(steps, pc, st, rs) == Loop(steps + 1, pc + 1, st.(stack := Popped(st.stack, 2) + [x + y]), rs)
  {
    AddStep(pc, st, rs, x, y);
    LoopUnrolled(steps, pc, st, rs);
  }

  /** An MSTORE at offset 0 of an empty memory inside the loop. */
  lemma MStoreAtZeroThenLoop(steps: nat, pc: u64, st: ContextState, rs: RunState, s: seq<Word>, v: Word)
    requires steps + 1 < 1000
    requires pc + 1 < TWO64 && pc + 1 < |st.contract.code| && st.contract.code[pc] == MSTORE
    requires st.stack == s + [v, 0] && st.memory == []
    ensures Loop(steps, pc, st, rs) == Loop(steps + 1, pc + 1, st.(stack := s, memory := LeBytes(v, 32)), rs)
  {
    MStoreStepAtZero(pc, st, rs, s, v);
    LoopUnrolled(steps, pc, st, rs);
  }

  /** A RETURN of the whole 32-byte memory inside the loop ends the run with it. */
  lemma ReturnEndsLoop(steps: nat, pc: u64, st: ContextState, rs: RunState, s: seq<Word>)
    requires steps + 1 < 1000
    requires pc < |st.contract.code| && st.contract.code[pc] == RETURN
    requires st.stack == s + [32, 0] && |st.memory| == 32
    ensures Loop(steps, pc, st, rs) == Finished(Some(st.memory), None, rs)
  {
    ReturnStep(pc, st, rs, s);
    LoopUnrolled(steps, pc, st, rs);
  }

  /**
   * The first four steps of the program leave the sum and the offset 0 on
   * the stack, at pc 7. The step counter and pc are parameters so that the
   * proof reasons about the steps in general rather than evaluating them.
   */
  lemma AddAndReturnFirstHalf(steps: nat, pc: u64, st: ContextState, rs: RunState, a: u8, b: u8)
    requires steps == 0 && pc == 0
    requires st.contract.code == AddAndReturn(a, b) && st.stack == [] && a + b < 256
    ensures Loop(steps, pc, st, rs) == Loop(steps + 4, pc + 7, st.(stack := [a + b, 0]), rs)
  {
    var code := st.contract.code;
    assert code[pc] == PUSH1 && code[pc + 1] == a && code[pc + 2] == PUSH1 && code[pc + 3] == b;
    assert code[pc + 4] == ADD && code[pc + 5] == PUSH1 && code[pc + 6] == 0 && |code| == 13;
    TwoPushesThenLoop(steps, pc, st, rs, a, b);
    var st2 := st.(stack := [a, b]);
    assert st.(stack := st.stack + [a, b]) == st2;
    AddThenLoop(steps + 2, pc + 4, st2, rs, b, a);
    var st3 := st.(stack := [a + b]);
    assert st2.(stack := Popped(st2.stack, 2) + [b + a]) == st3 by {
      assert Popped(st2.stack, 2) + [b + a] == [a + b];
    }
    PushOneThenLoop(steps + 3, pc + 5, st3, rs, 0);
    assert st3.(stack := st3.stack + [0]) == st.(stack := [a + b, 0]);
  }

  /** The last four steps store the sum, push 32 and 0 and return the 32 stored bytes. */
  lemma AddAndReturnSecondHalf(steps: nat, pc: u64, st: ContextState, rs: RunState, a: u8, b: u8)
    requires steps == 4 && pc == 7
    requires st.contract.code == AddAndReturn(a, b) && st.stack == [a + b, 0] && st.memory == [] && a + b < 256
    ensures Loop(steps, pc, st, rs) == Finished(Some(LeBytes(a + b, 32)), None, rs)
  {
    var code := st.contract.code;
    assert code[pc] == MSTORE && code[pc + 1] == PUSH1 && code[pc + 2] == 0x20;
    assert code[pc + 3] == PUSH1 && code[pc + 4] == 0 && code[pc + 5] == RETURN && |code| == 13;
    MStoreAtZeroThenLoop(steps, pc, st, rs, [], a + b);
    var st5 := st.(stack := [], memory := LeBytes(a + b, 32));
    TwoPushesThenLoop(steps + 1, pc + 1, st5, rs, 0x20, 0);
    var st7 := st5.(stack := [32, 0]);
    assert st5.(stack := st5.stack + [0x20, 0]) == st7;
    ReturnEndsLoop(steps + 3, pc + 5, st7, rs, []);
  }

  /**
   * The program adds a and b, stores the sum at offset 0 and returns 32
   * bytes from offset 0: since `set32` stores little-endian, the output is
   * the sum followed by 31 zero bytes, with no error; 2 + 3 gives 5 first.
   */
  lemma AddAndReturnRun(c: Contract, input: seq<u8>, rs: RunState, a: u8, b: u8)
    requires c.code == AddAndReturn(a, b) && a + b < 256
    ensures Run(c, input, rs) == Finished(Some([a + b] + Zeros(31)), None, rs)
  {
    RunStartsLoop(c, input, rs, 0, 0);
    AddAndReturnFrom(0, 0, InitialState(c, input), rs, a, b);
    LeBytesOfByte(a + b, 32);
  }

  lemma AddAndReturnFrom(steps: nat, pc: u64, st: ContextState, rs: RunState, a: u8, b: u8)
    requires steps == 0 && pc == 0
    requires st.contract.code == AddAndReturn(a, b) && st.stack == [] && st.memory == [] && a + b < 256
    ensures Loop(steps, pc, st, rs) == Finished(Some(LeBytes(a + b, 32)), None, rs)
  {
    AddAndReturnFirstHalf(steps, pc, st, rs, a, b);
    AddAndReturnSecondHalf(steps + 4, pc + 7, st.(stack := [a + b, 0]), rs, a, b);
  }

  /** A run is the loop from step counter 0 at pc 0 on the initial context. */
  lemma RunStartsLoop(c: Contract, input: seq<u8>, rs: RunState, steps: nat, pc: u64)
    requires steps == 0 && pc == 0
    ensures Run(c, input, rs) == Loop(steps, pc, InitialState(c, input), rs)
  {
  }

  /** JUMP to d, whatever byte is at d. */
  lemma JumpStep(pc: u64, st: ContextState, rs: RunState, s: seq<Word>, d: u64)
    requires pc < |st.contract.code| && st.contract.code[pc] == JUMP
    requires st.stack == s + [d]
    ensures StepOnce(pc, st, rs) == Continues(d, st.(stack := s), rs)
  {
    GetOperationDefinedOnTable(JUMP);
    JumpIsUnvalidated(pc, rs.returnData, st.(stack := s), d);
    assert st.(stack := s).(stack := s + [d]) == st;
  }

  /** PUSH1 0, JUMP: jumps back to its own start for ever. */
  const SPIN: seq<u8> := [PUSH1, 0x00, JUMP]

  /** One round of the spin: PUSH1 0 then JUMP back to pc 0 with the stack as it was. */
  lemma SpinRound(steps: nat, st: ContextState, rs: RunState)
    requires st.contract.code == SPIN && steps + 2 < 1000
    ensures Loop(steps, 0, st, rs) == Loop(steps + 2, 0, st, rs)
  {
    var st1 := st.(stack := st.stack + [0]);
    PushOneStep(0, st, rs, 0);
    LoopUnrolled(steps, 0, st, rs);
    JumpStep(2, st1, rs, st.stack, 0);
    assert st1.(stack := st.stack) == st;
    LoopUnrolled(steps + 1, 2, st1, rs);
  }

  /** The last round: the counter reaches 1000 right after the PUSH1. */
  lemma SpinLastRound(st: ContextState, rs: RunState)
    requires st.contract.code == SPIN
    ensures Loop(998, 0, st, rs) == Finished(None, None, rs)
  {
    PushOneStep(0, st, rs, 0);
    LoopUnrolled(998, 0, st, rs);
  }

  /** From an even step count at pc 0, the spin runs out the step counter. */
  lemma {:induction false} SpinFrom(steps: nat, rounds: nat, st: ContextState, rs: RunState)
    requires st.contract.code == SPIN && steps == 2 * rounds && rounds <= 499
    ensures Loop(steps, 0, st, rs) == Finished(None, None, rs)
    decreases 499 - rounds
  {
    if rounds == 499 {
      SpinLastRound(st, rs);
    } else {
      SpinFrom(steps + 2, rounds + 1, st, rs);
      SpinRound(steps, st, rs);
    }
  }

  /**
   * A program that never halts is cut off by the step counter: the run
   * returns (None, None) and leaves the interpreter fields alone.
   */
  lemma SpinIsCutOff(c: Contract, input: seq<u8>, rs: RunState)
    requires c.code == SPIN
    ensures Run(c, input, rs) == Finished(None, None, rs)
  {
    SpinFrom(0, 0, InitialState(c, input), rs);
  }
}
