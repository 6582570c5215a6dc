// vm/src/jumptable.rs: the opcode table. Each registered byte maps to an
// Operation naming its handler, its optional memory-size function, the
// stack bounds computed with vm/src/stack.rs and five flags.
module VmJumpTable {
  import opened Wrappers
  import opened EthTypes
  import opened VmOpcode
  import opened VmStack
  import opened VmMemory
  import opened VmContext
  import opened VmSemantics

  datatype Operation = Operation(
    execute: Handler,
    memorySize: Option<MemSizeFn>,
    minStack: i16,
    maxStack: i16,
    halts: bool,
    jumps: bool,
    writes: bool,
    reverts: bool,
    returnsData: bool)

  /** An entry with `min_stack(pops, push)`, `max_stack(pops, push)` and every flag false. */
  function Plain(h: Handler, pops: i16, push: i16): Operation
    requires 0 <= pops <= 6 && 0 <= push <= 1
  {
    Operation(h, None, MinStack(pops, push), MaxStack(pops, push), false, false, false, false, false)
  }

  /** The table entry for byte b, or None where the table has no key b. */
  function Entry(b: u8): Option<Operation>
  {
    if b == STOP then Some(Plain(Stop, 0, 0).(halts := true))
    else if b == ADD then Some(Plain(Binary(Add), 2, 1))
    else if b == SUB then Some(Plain(Binary(Sub), 2, 1))
    else if b == MUL then Some(Plain(Binary(Mul), 2, 1))
    else if b == DIV then Some(Plain(Binary(Div), 2, 1))
    else if b == MOD then Some(Plain(Binary(Mod), 2, 1))
    else if b == EXP then Some(Plain(Binary(Exp), 2, 1))
    else if b == NOT then Some(Plain(Not, 1, 1))
    else if b == LT then Some(Plain(Binary(Lt), 2, 1))
    else if b == EQ then Some(Plain(Binary(Eq), 2, 1))
    else if b == ISZERO then Some(Plain(IsZero, 1, 1))
    else if b == AND then Some(Plain(Binary(And), 2, 1))
    else if b == SHA3 then Some(Plain(Sha3, 2, 1).(memorySize := Some(MemorySha3)))
    else if b == ADDRESS then Some(Plain(Address, 0, 1))
    else if b == CALLVALUE then Some(Plain(CallValue, 0, 1))
    else if b == CALLDATALOAD then Some(Plain(CallDataLoad, 1, 1))
    else if b == CALLDATASIZE then Some(Plain(CallDataSize, 0, 1))
    else if b == CALLDATACOPY then Some(Plain(CallDataCopy, 3, 0).(memorySize := Some(MemoryCallDataCopy)))
    else if b == CODECOPY then Some(Plain(CodeCopy, 3, 0).(memorySize := Some(MemoryCodeCopy)))
    else if b == POP then Some(Plain(Pop, 1, 0))
    else if b == COINBASE then Some(Plain(Coinbase, 0, 1))
    else if b == MLOAD then Some(Plain(MLoad, 1, 1).(memorySize := Some(MemoryMLoad)))
    else if b == MSTORE then Some(Plain(MStore, 2, 0).(memorySize := Some(MemoryMStore)))
    else if b == JUMP then Some(Plain(Jump, 1, 0).(jumps := true))
    else if b == JUMPI then Some(Plain(JumpI, 2, 0).(jumps := true))
    else if b == JUMPDEST then Some(Plain(JumpDest, 0, 0))
    else if b == MSIZE then Some(Plain(MSize, 0, 1))
    else if b == RETURN then Some(Plain(Return, 2, 0).(memorySize := Some(MemoryReturn), halts := true))
    else if b == REVERT then
      Some(Plain(Revert, 2, 0).(memorySize := Some(MemoryRevert), reverts := true, returnsData := true))
    else if LOG0 <= b <= LOG4 then
      var n := b - LOG0;
      Some(Plain(Log(n), n as i16 + 2, 0).(memorySize := Some(MemoryLog), writes := true))
    else if b == PUSH1 then Some(Plain(Push1, 0, 1))
    else if PUSH2 <= b <= PUSH32 then Some(Plain(Push(b - PUSH1 + 1), 0, 1))
    else if DUP1 <= b <= DUP16 then
      var n := (b - DUP1 + 1) as i16;
      Some(Operation(Dup(n as nat), None, MinDupStack(n), MaxDupStack(n), false, false, false, false, false))
    else if SWAP1 <= b <= SWAP16 then
      // SWAPn is registered with the DUP bounds of n + 1.
      var n := (b - SWAP1 + 1) as i16;
      Some(Operation(Swap(n as nat), None, MinDupStack(n + 1), MaxDupStack(n + 1), false, false, false, false, false))
    else None
  }

  /** `get_instruction_set()`: the literal table as a map. */
  function GetInstructionSet(): (t: map<u8, Operation>)
    ensures forall b: u8 :: b in t <==> Entry(b).Some?
    ensures forall b: u8 :: b in t ==> t[b] == Entry(b).value
  {
    map b: u8 | 0 <= b < 0x100 && Entry(b).Some? :: Entry(b).value
  }

  /**
   * `get_operation(v)`: the entry for v. For a byte the table lacks, the
   * Rust code panics in `expect("invalid opcode")`; that panic is None
   * here, since the function itself never returns None.
   */
  function GetOperation(v: u8): (r: Option<Operation>)
    ensures r == Entry(v)
    ensures r.Some? ==> r.value.minStack <= r.value.maxStack
  {
    var instset := GetInstructionSet();
    if v in instset then Some(instset[v]) else None
  }

  /** The bytes with a table entry. */
  predicate Registered(b: u8)
  {
    b in {STOP, ADD, MUL, SUB, DIV, MOD, EXP, LT, EQ, ISZERO, AND, NOT, SHA3, ADDRESS, CALLVALUE,
          CALLDATALOAD, CALLDATASIZE, CALLDATACOPY, CODECOPY, COINBASE, POP, MLOAD, MSTORE,
          JUMP, JUMPI, JUMPDEST, MSIZE, RETURN, REVERT}
    || PUSH1 <= b <= PUSH32 || DUP1 <= b <= DUP16 || SWAP1 <= b <= SWAP16 || LOG0 <= b <= LOG4
  }

  /**
   * The table's key set: 29 single opcodes plus PUSH1-32, DUP1-16,
   * SWAP1-16 and LOG0-4. GT, SLT, SGT, OR, XOR, BYTE, CALLER,
   * RETURNDATASIZE and RETURNDATACOPY have handlers but no entry, so every
   * byte outside this set, including an unassigned one, panics.
   */
  lemma GetOperationDefinedOnTable(v: u8)
    ensures GetOperation(v).Some? <==> Registered(v)
    ensures GetOperation(v).Some? ==> GetOperation(v) == Entry(v)
  {
  }

  /** The PUSH entries: no memory growth, no flags, PUSH1 with its own handler. */
  lemma PushEntry(b: u8)
    requires PUSH1 <= b <= PUSH32
    ensures GetOperation(b) == Some(Plain(if b == PUSH1 then Push1 else Push(b - PUSH1 + 1), 0, 1))
  {
    GetOperationDefinedOnTable(b);
  }

  lemma UnregisteredHandlersPanic()
    ensures GetOperation(GT).None? && GetOperation(SLT).None? && GetOperation(SGT).None?
    ensures GetOperation(OR).None? && GetOperation(XOR).None? && GetOperation(BYTE).None?
    ensures GetOperation(CALLER).None? && GetOperation(RETURNDATASIZE).None? && GetOperation(RETURNDATACOPY).None?
    ensures GetOperation(0x0B).None? && GetOperation(0xEF).None? && GetOperation(SELFDESTRUCT).None?
  {
    forall v: u8 | v in {GT, SLT, SGT, OR, XOR, BYTE, CALLER, RETURNDATASIZE, RETURNDATACOPY, 0x0B, 0xEF, SELFDESTRUCT}
      ensures GetOperation(v).None?
    {
      GetOperationDefinedOnTable(v);
    }
  }

  /** Only JUMP and JUMPI leave pc to their handler. */
  lemma JumpsOnlyForJumps(v: u8)
    requires GetOperation(v).Some?
    ensures GetOperation(v).value.jumps <==> v == JUMP || v == JUMPI
  {
    GetOperationDefinedOnTable(v);
  }

  /** RETURN and STOP halt; REVERT reverts and returns without halting; LOG0-4 alone write. */
  lemma TerminationFlags(v: u8)
    requires GetOperation(v).Some?
    ensures GetOperation(v).value.halts <==> v == RETURN || v == STOP
    ensures GetOperation(v).value.reverts <==> v == REVERT
    ensures GetOperation(v).value.returnsData <==> v == REVERT
    ensures GetOperation(v).value.writes <==> LOG0 <= v <= LOG4
  {
    HaltingFlags(v);
    DataFlags(v);
  }

  lemma HaltingFlags(v: u8)
    requires GetOperation(v).Some?
    ensures GetOperation(v).value.halts <==> v == RETURN || v == STOP
    ensures GetOperation(v).value.reverts <==> v == REVERT
  {
    GetOperationDefinedOnTable(v);
  }

  lemma DataFlags(v: u8)
    requires GetOperation(v).Some?
    ensures GetOperation(v).value.returnsData <==> v == REVERT
    ensures GetOperation(v).value.writes <==> LOG0 <= v <= LOG4
  {
    GetOperationDefinedOnTable(v);
  }

  /** The entries with a memory-size function. */
  lemma MemorySizeEntries(v: u8)
    requires GetOperation(v).Some?
    ensures GetOperation(v).value.memorySize.Some? <==>
      v in {SHA3, CALLDATACOPY, CODECOPY, MLOAD, MSTORE, RETURN, REVERT} || LOG0 <= v <= LOG4
  {
    GetOperationDefinedOnTable(v);
  }

  /**
   * Entries removed from the stack by a handler, counting an operand that
   * is overwritten in place as removed and its result as pushed.
   */
  function Pops(h: Handler): nat
  {
    match h
    case Binary(_) => 2
    case Not | IsZero | CallDataLoad | MLoad | Pop | Jump => 1
    case Sha3 | MStore | JumpI | Return | Revert => 2
    case CallDataCopy | CodeCopy | ReturnDataCopy => 3
    case Log(n) => n + 2
    case Dup(n) => n
    case Swap(n) => n + 1
    case Address | Caller | CallValue | CallDataSize | ReturnDataSize | Coinbase
       | JumpDest | MSize | Stop | Push1 | Push(_) => 0
  }

  function Pushes(h: Handler): nat
  {
    match h
    case Binary(_) | Not | IsZero | CallDataLoad | MLoad | Sha3 => 1
    case Address | Caller | CallValue | CallDataSize | ReturnDataSize | Coinbase | MSize | Push1 | Push(_) => 1
    case Dup(n) => n + 1
    case Swap(n) => n + 1
    case Pop | Jump | MStore | JumpI | Return | Revert | CallDataCopy | CodeCopy | ReturnDataCopy
       | Log(_) | JumpDest | Stop => 0
  }

  /** A handler given fewer than Pops(h) entries panics. */
  lemma UnderflowPanics(h: Handler, pc: u64, rd: seq<u8>, st: ContextState)
    requires |st.stack| < Pops(h)
    ensures Exec(h, pc, rd, st) == Panic
  {
  }

  /** A handler that returns has removed Pops(h) entries and added Pushes(h). */
  lemma StackEffect(h: Handler, pc: u64, rd: seq<u8>, st: ContextState)
    ensures var r := Exec(h, pc, rd, st);
      r.Next? ==> |r.st.stack| + Pops(h) == |st.stack| + Pushes(h)
  {
  }

  /**
   * `min_stack` is the number of operands the handler needs, and it is
   * also what the handler checks: below it, the handler panics.
   */
  lemma MinStackIsOperandCount(v: u8)
    requires GetOperation(v).Some?
    ensures GetOperation(v).value.minStack as int == Pops(GetOperation(v).value.execute)
  {
    GetOperationDefinedOnTable(v);
    EntryBounds(v);
  }

  /**
   * `max_stack` is STACK_LIMIT + pops - pushes for every entry except
   * SWAP1-16, whose DUP bounds count one push too many.
   */
  lemma MaxStackIsHeadroom(v: u8)
    requires GetOperation(v).Some?
    ensures var op := GetOperation(v).value;
      !(SWAP1 <= v <= SWAP16) ==> op.maxStack as int == STACK_LIMIT + Pops(op.execute) - Pushes(op.execute)
    ensures var op := GetOperation(v).value;
      SWAP1 <= v <= SWAP16 ==> op.maxStack as int == STACK_LIMIT + Pops(op.execute) - Pushes(op.execute) - 1
  {
    GetOperationDefinedOnTable(v);
    EntryBounds(v);
  }

  /** The stack bounds an entry is meant to have: `max_stack` one lower for SWAP1-16. */
  predicate BoundsAsCounted(v: u8, op: Operation)
  {
    && op.minStack as int == Pops(op.execute)
    && (!(SWAP1 <= v <= SWAP16) ==> op.maxStack as int == STACK_LIMIT + Pops(op.execute) - Pushes(op.execute))
    && (SWAP1 <= v <= SWAP16 ==> op.maxStack as int == STACK_LIMIT + Pops(op.execute) - Pushes(op.execute) - 1)
  }

  /** Both stack bounds of every entry, checked group by group. */
  lemma EntryBounds(v: u8)
    requires Registered(v)
    ensures Entry(v).Some? && BoundsAsCounted(v, Entry(v).value)
  {
    if LOG0 <= v <= LOG4 || PUSH1 <= v <= PUSH32 || DUP1 <= v <= DUP16 || SWAP1 <= v <= SWAP16 {
      RangeBounds(v);
    } else if v in {STOP, ADD, SUB, MUL, DIV, MOD, EXP, NOT, LT, EQ} {
      SingleBounds1(v);
    } else if v in {ISZERO, AND, SHA3, ADDRESS, CALLVALUE, CALLDATALOAD, CALLDATASIZE, CALLDATACOPY, CODECOPY, POP} {
      SingleBounds2(v);
    } else if v in {COINBASE, MLOAD, MSTORE, JUMP, JUMPI} {
      SingleBounds3(v);
    } else {
      SingleBounds4(v);
    }
  }

  lemma RangeBounds(v: u8)
    requires LOG0 <= v <= LOG4 || PUSH1 <= v <= PUSH32 || DUP1 <= v <= DUP16 || SWAP1 <= v <= SWAP16
    ensures Entry(v).Some? && BoundsAsCounted(v, Entry(v).value)
  {
  }

  lemma SingleBounds1(v: u8)
    requires v in {STOP, ADD, SUB, MUL, DIV, MOD, EXP, NOT, LT, EQ}
    ensures Entry(v).Some? && BoundsAsCounted(v, Entry(v).value)
  {
  }

  lemma SingleBounds2(v: u8)
    requires v in {ISZERO, AND, SHA3, ADDRESS, CALLVALUE, CALLDATALOAD, CALLDATASIZE, CALLDATACOPY, CODECOPY, POP}
    ensures Entry(v).Some? && BoundsAsCounted(v, Entry(v).value)
  {
  }

  lemma SingleBounds3(v: u8)
    requires v in {COINBASE, MLOAD, MSTORE, JUMP, JUMPI}
    ensures Entry(v).Some? && BoundsAsCounted(v, Entry(v).value)
  {
  }

  lemma SingleBounds4(v: u8)
    requires v in {JUMPDEST, MSIZE, RETURN, REVERT}
    ensures Entry(v).Some? && BoundsAsCounted(v, Entry(v).value)
  {
  }

  /**
   * A memory-size function reads only operands within the entry's
   * `min_stack`: on a stack that deep its `back` reads never panic, and
   * what it returns is the request computed from those operands.
   */
  lemma MemorySizeReadsOperands(v: u8, s: seq<Word>)
    requires GetOperation(v).Some? && GetOperation(v).value.memorySize.Some?
    requires |s| >= GetOperation(v).value.minStack as int
    ensures Depth(GetOperation(v).value.memorySize.value) < |s|
    ensures MemorySize(GetOperation(v).value.memorySize.value, s)
              == SizeRequest(GetOperation(v).value.memorySize.value, s)
  {
    GetOperationDefinedOnTable(v);
  }
}
