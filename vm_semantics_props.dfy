// Properties of the handler semantics: where the arithmetic agrees with
// the EVM's modular definitions and where it departs from them, the
// MSTORE/MLOAD round trip, and how PUSH, JUMP and LOG use their operands.
module VmSemanticsProps {
  import opened Wrappers
  import opened Arith
  import opened EthTypes
  import opened VecUtil
  import opened U256Util
  import opened VmStack
  import opened VmMemory
  import opened VmContract
  import opened VmOpcode
  import opened VmContext
  import opened VmSemantics

  /** A word read as a two's-complement signed integer. */
  function Signed(w: Word): (v: int)
    ensures 0 <= v + TWO256 / 2 < TWO256
    ensures v % TWO256 == w
  {
    if w < TWO256 / 2 then w else w - TWO256
  }

  /**
   * The EVM's own definitions of the binary operators, with the top of the
   * stack as the first operand: arithmetic modulo 2^256, division by zero
   * giving zero, comparisons giving 0 or 1, SLT and SGT comparing the
   * two's-complement values.
   */
  function Reference(op: BinOp, a: Word, b: Word): (r: Word)
  {
    match op
    case Add => (a + b) % TWO256
    case Sub => (a - b) % TWO256
    case Mul => (a * b) % TWO256
    case Div => if b == 0 then 0 else Quotient(a, b)
    case Mod => if b == 0 then 0 else a % b
    case Exp => Pow(a, b) % TWO256
    case Lt => if a < b then 1 else 0
    case Gt => if a > b then 1 else 0
    case Slt => if Signed(a) < Signed(b) then 1 else 0
    case Sgt => if Signed(a) > Signed(b) then 1 else 0
    case Eq => if a == b then 1 else 0
    case And => BitAnd(a, b) % TWO256
    case Or => BitOr(a, b) % TWO256
    case Xor => BitXor(a, b) % TWO256
    case Byte => if a >= 32 then 0 else b / Pow(256, 31 - a) % 256
  }

  /**
   * ADD, SUB, MUL, DIV and EXP compute the EVM result whenever they do not
   * panic, and they panic exactly where the EVM result wraps around (or,
   * for DIV, where the divisor is zero).
   */
  lemma ArithmeticAgreesUnlessItPanics(op: BinOp, x: Word, y: Word)
    requires op == Add || op == Sub || op == Mul || op == Div || op == Exp
    ensures BinResult(op, x, y).Some? ==> BinResult(op, x, y).value == Reference(op, x, y)
    ensures op == Add ==> (BinResult(op, x, y).None? <==> x + y >= TWO256)
    ensures op == Sub ==> (BinResult(op, x, y).None? <==> x < y)
    ensures op == Mul ==> (BinResult(op, x, y).None? <==> x * y >= TWO256)
    ensures op == Div ==> (BinResult(op, x, y).None? <==> y == 0)
    ensures op == Exp ==> (BinResult(op, x, y).None? <==> Pow(x, y) >= TWO256)
  {
    if op == Exp && y == 0 {
      assert Pow(x, 0) == 1;
    }
  }

  /** LT and EQ agree with the EVM on all inputs. */
  lemma ComparisonsAgree(x: Word, y: Word)
    ensures BinResult(Lt, x, y) == Some(Reference(Lt, x, y))
    ensures BinResult(Eq, x, y) == Some(Reference(Eq, x, y))
  {
  }

  /** AND, OR and XOR agree with the EVM on all inputs, although they combine y with x. */
  lemma BitwiseAgree(x: Word, y: Word)
    ensures BinResult(And, x, y) == Some(Reference(And, x, y))
    ensures BinResult(Or, x, y) == Some(Reference(Or, x, y))
    ensures BinResult(Xor, x, y) == Some(Reference(Xor, x, y))
  {
    AndAgrees(x, y);
    OrAgrees(x, y);
    XorAgrees(x, y);
  }

  lemma AndAgrees(x: Word, y: Word)
    ensures BinResult(And, x, y) == Some(Reference(And, x, y))
  {
    BitAndBound(x, y);
    BitAndCommutes(x, y);
  }

  lemma OrAgrees(x: Word, y: Word)
    ensures BinResult(Or, x, y) == Some(Reference(Or, x, y))
  {
    TwoToThe256();
    BitOrBound(x, y, 256);
    BitOrCommutes(x, y);
  }

  lemma XorAgrees(x: Word, y: Word)
    ensures BinResult(Xor, x, y) == Some(Reference(Xor, x, y))
  {
    TwoToThe256();
    BitXorBound(x, y, 256);
    BitXorCommutes(x, y);
  }

  lemma {:induction false} BitAndCommutes(x: nat, y: nat)
    ensures BitAnd(x, y) == BitAnd(y, x)
    decreases x + y
  {
    if x != 0 && y != 0 {
      BitAndCommutes(x / 2, y / 2);
    }
  }

  lemma {:induction false} BitOrCommutes(x: nat, y: nat)
    ensures BitOr(x, y) == BitOr(y, x)
    decreases x + y
  {
    if x != 0 && y != 0 {
      BitOrCommutes(x / 2, y / 2);
    }
  }

  lemma {:induction false} BitXorCommutes(x: nat, y: nat)
    ensures BitXor(x, y) == BitXor(y, x)
    decreases x + y
  {
    if x != 0 && y != 0 {
      BitXorCommutes(x / 2, y / 2);
    }
  }

  /**
   * MOD keeps the quotient of the second operand by the top, so 7 mod 2
   * gives 0 where the EVM gives 1; on any input where it does not panic it
   * gives y / x.
   */
  lemma ModKeepsQuotient(x: Word, y: Word)
    ensures BinResult(Mod, x, y).None? <==> x == 0
    ensures x > 0 ==> BinResult(Mod, x, y) == Some(y / x)
    ensures BinResult(Mod, 7, 2) == Some(0) && Reference(Mod, 7, 2) == 1
  {
  }

  /**
   * GT, SLT and SGT compare the top with zero, not with the second operand:
   * GT answers x > 0, SLT x == 0 and SGT always 1.
   */
  lemma ComparisonsAgainstZero(x: Word, y: Word)
    ensures BinResult(Gt, x, y) == Some(if x != 0 then 1 else 0)
    ensures BinResult(Slt, x, y) == Some(if x == 0 then 1 else 0)
    ensures BinResult(Sgt, x, y) == Some(1)
    ensures BinResult(Gt, 1, 5) == Some(1) && Reference(Gt, 1, 5) == 0
  {
  }

  /**
   * SLT and SGT depart from the signed comparisons: the top word 2^255 is
   * negative, yet SLT says it is not below zero, and SGT says zero is
   * greater than zero.
   */
  lemma SignedComparisonsDepart()
    ensures BinResult(Slt, TWO256 / 2, 0) == Some(0) && Reference(Slt, TWO256 / 2, 0) == 1
    ensures BinResult(Sgt, 0, 0) == Some(1) && Reference(Sgt, 0, 0) == 0
  {
  }

  /** BYTE counts from the least significant end and leaves its byte in the top limb. */
  lemma ByteCountsFromTheLowEnd(x: Word, y: Word)
    requires x < 32
    ensures BinResult(Byte, x, y) == Some(y / Pow(256, x) % 256 * TWO192)
    ensures BinResult(Byte, 0, 0xAB) == Some(0xAB * TWO192) && Reference(Byte, 0, 0xAB) == 0
  {
    assert Pow(256, 0) == 1;
    assert Reference(Byte, 0, 0xAB) == 0xAB / Pow(256, 31) % 256;
    PowMonotone(256, 1, 31);
    SmallDivIsZero(0xAB, Pow(256, 31));
  }

  /** MSTORE of v at off where `set32` succeeds: the stack loses both operands. */
  lemma MStoreStep(pc: u64, st: ContextState, v: Word, off: u64)
    requires |st.memory| <= off + 32 < TWO64
    ensures Set32Spec(st.memory, off, v).Some?
    ensures ExecMStore(pc, st.(stack := st.stack + [v, off]))
         == Next(pc, st.(memory := Set32Spec(st.memory, off, v).value), None, None)
  {
    Set32Characterised(st.memory, off, v);
    var s := st.stack + [v, off];
    assert Popped(s, 2) == st.stack;
  }

  /** MLOAD at off of a memory that ends with the encoding of v at off reads v. */
  lemma MLoadStep(pc: u64, st: ContextState, v: Word, off: u64)
    requires |st.memory| == off + 32 < TWO63
    requires st.memory[off..] == LeBytes(v, 32)
    ensures ExecMLoad(pc, st.(stack := st.stack + [off]))
         == Next(pc, st.(stack := st.stack + [v]), None, None)
  {
    MLoadTail(pc, st, off);
    LeU8VecDecodes(v);
  }

  /** MLOAD of the last 32 bytes of memory reads them little-endian and leaves memory as it is. */
  lemma MLoadTail(pc: u64, st: ContextState, off: u64)
    requires |st.memory| == off + 32 < TWO63
    ensures ExecMLoad(pc, st.(stack := st.stack + [off]))
         == Next(pc, st.(stack := st.stack + [WordFromBe(Reverse(st.memory[off..]))]), None, None)
  {
    var st' := st.(stack := st.stack + [off]);
    GetCopyTail(st.memory, off, 32);
    ExecMLoadWindow(pc, st', off, st.memory[off..]);
    assert WithTop(st.stack + [off], WordFromBe(Reverse(st.memory[off..]))) == st.stack + [WordFromBe(Reverse(st.memory[off..]))];
  }

  /** MLOAD whose 32-byte window leaves memory as it is: the top becomes the window read little-endian. */
  lemma ExecMLoadWindow(pc: u64, st: ContextState, off: u64, out: seq<u8>)
    requires |st.stack| >= 1 && Top(st.stack) == off && off < TWO63
    requires GetCopySpec(st.memory, off, 32) == Some((st.memory, Some(out))) && |out| == 32
    ensures ExecMLoad(pc, st) == Next(pc, st.(stack := WithTop(st.stack, WordFromBe(Reverse(out)))), None, None)
  {
    assert AsI64(off) == off;
    assert st.(memory := st.memory) == st;
  }

  /**
   * Storing v at off with MSTORE and then loading from off with MLOAD gives
   * v back, provided memory ends at or before off + 32 (where `set32`
   * succeeds) and off + 32 fits an i64.
   */
  lemma MStoreThenMLoad(pc: u64, rd: seq<u8>, st: ContextState, v: Word, off: u64)
    requires |st.memory| <= off + 32 < TWO63
    ensures var s1 := Exec(MStore, pc, rd, st.(stack := st.stack + [v, off]));
      s1.Next? && s1.st.stack == st.stack && |s1.st.memory| == off + 32
      && Exec(MLoad, pc, rd, s1.st.(stack := st.stack + [off]))
         == Next(pc, st.(stack := st.stack + [v], memory := s1.st.memory), None, None)
  {
    MStoreStep(pc, st, v, off);
    Set32Characterised(st.memory, off, v);
    var st1 := st.(memory := Set32Spec(st.memory, off, v).value);
    MLoadStep(pc, st1, v, off);
    ExecMemoryOps(pc, rd, st.(stack := st.stack + [v, off]));
    ExecMemoryOps(pc, rd, st1.(stack := st.stack + [off]));
  }

  lemma ExecMemoryOps(pc: u64, rd: seq<u8>, st: ContextState)
    ensures Exec(MStore, pc, rd, st) == ExecMStore(pc, st)
    ensures Exec(MLoad, pc, rd, st) == ExecMLoad(pc, st)
  {
  }

  /** MLOAD at or past the end of memory reads zero and leaves memory as it is. */
  lemma MLoadPastEndIsZero(pc: u64, rd: seq<u8>, st: ContextState, off: u64)
    requires |st.memory| <= off < TWO63
    ensures Exec(MLoad, pc, rd, st.(stack := st.stack + [off]))
         == Next(pc, st.(stack := st.stack + [0]), None, None)
  {
    GetCopyPastEnd(st.memory, off, 32);
    var s := st.stack + [off];
    assert WithTop(s, 0) == st.stack + [0];
  }

  /**
   * MSTORE panics whenever memory already extends more than 32 bytes past
   * the offset, because `set32` copies into everything from off to the end.
   */
  lemma MStoreInsideMemoryPanics(pc: u64, rd: seq<u8>, st: ContextState, v: Word, off: u64)
    requires off + 32 < |st.memory|
    ensures Exec(MStore, pc, rd, st.(stack := st.stack + [v, off])) == Panic
  {
    Set32Characterised(st.memory, off, v);
  }

  /** The n code bytes after pc, each read as `get_byte` reads it. */
  function Immediate(c: Contract, pc: u64, n: nat): (bs: seq<u8>)
    requires pc + n < TWO64
    ensures |bs| == n
  {
    if n == 0 then [] else Immediate(c, pc, n - 1) + [GetByte(c, pc + n)]
  }

  lemma {:induction false} ImmediateAt(c: Contract, pc: u64, n: nat, i: nat)
    requires pc + n < TWO64 && i < n
    ensures Immediate(c, pc, n)[i] == GetByte(c, pc + 1 + i)
  {
    if i < n - 1 {
      ImmediateAt(c, pc, n - 1, i);
    }
  }

  /**
   * PUSHn pushes the big-endian value of the n bytes after pc, STOP (zero)
   * past the end of the code, and leaves pc on the last of them.
   */
  lemma PushReadsImmediate(n: PushSize, pc: u64, rd: seq<u8>, st: ContextState)
    requires pc + n < TWO64
    ensures Exec(Push(n), pc, rd, st)
         == Next(pc + n, st.(stack := st.stack + [WordFromBe(Immediate(st.contract, pc, n))]), None, None)
  {
    ExecPushOp(n, pc, rd, st);
    PushDataIsImmediate(st.contract, pc, n);
  }

  lemma ExecPushOp(n: PushSize, pc: u64, rd: seq<u8>, st: ContextState)
    ensures Exec(Push(n), pc, rd, st) == ExecMakePush(n, pc, st)
  {
  }

  lemma PushDataIsImmediate(c: Contract, pc: u64, n: PushSize)
    requires pc + n < TWO64
    ensures PushData(c.code, pc, n) == Immediate(c, pc, n)
  {
    var code := c.code;
    var start := if pc + 1 < |code| then pc + 1 else |code|;
    var end := if start + n < |code| then start + n else |code|;
    var v := PushData(code, pc, n);
    forall i | 0 <= i < n
      ensures v[i] == Immediate(c, pc, n)[i]
    {
      ImmediateAt(c, pc, n, i);
      if pc + 1 + i < |code| {
        assert v[..end - start][i] == code[start..end][i];
      }
    }
  }

  /** PUSH1's dedicated handler has exactly the effect of `make_push(1, 1)`. */
  lemma Push1IsPushOne(pc: u64, rd: seq<u8>, st: ContextState)
    ensures Exec(Push1, pc, rd, st) == Exec(Push(1), pc, rd, st)
  {
    if pc + 1 < TWO64 {
      PushReadsImmediate(1, pc, rd, st);
      var bs := Immediate(st.contract, pc, 1);
      assert BeValue(bs) == bs[0] by {
        assert bs[..0] == [];
      }
    }
  }

  /** JUMP moves to any destination that fits a u64, JUMPDEST or not. */
  lemma JumpIsUnvalidated(pc: u64, rd: seq<u8>, st: ContextState, dest: u64)
    ensures Exec(Jump, pc, rd, st.(stack := st.stack + [dest]))
         == Next(dest, st, None, None)
  {
    assert Popped(st.stack + [dest], 1) == st.stack;
  }

  /** A taken JUMPI lands on a JUMPDEST; an untaken one moves to the next byte. */
  lemma JumpITarget(pc: u64, rd: seq<u8>, st: ContextState, dest: Word, cond: Word)
    ensures var r := Exec(JumpI, pc, rd, st.(stack := st.stack + [cond, dest]));
      r.Next? && r.err.None? ==>
        r.st.stack == st.stack
        && (cond != 0 ==> r.pc == dest && GetByte(st.contract, r.pc) == JUMPDEST)
        && (cond == 0 ==> r.pc == pc + 1)
    ensures var r := Exec(JumpI, pc, rd, st.(stack := st.stack + [cond, dest]));
      r.Next? && r.err.Some? <==>
        cond != 0 && dest < TWO64 && dest < |st.contract.code| && st.contract.code[dest] != JUMPDEST
  {
    var s := st.stack + [cond, dest];
    assert Popped(s, 2) == st.stack;
  }

  /** LOG0 always panics: `swap(0)` indexes past the stack. */
  lemma LogZeroPanics(pc: u64, rd: seq<u8>, st: ContextState)
    ensures Exec(Log(0), pc, rd, st) == Panic
  {
  }

  /**
   * LOGn consumes exactly n + 2 entries; the two it reads as start and
   * size are the top and the n-th entry below it after `swap(n)`, so for
   * LOG2 start and size trade places.
   */
  lemma {:induction false} LogConsumesItsOperands(n: nat, pc: u64, rd: seq<u8>, st: ContextState)
    requires 1 <= n && n + 2 <= |st.stack|
    ensures var r := Exec(Log(n), pc, rd, st);
      r.Next? ==> r.st.stack == st.stack[..|st.stack| - n - 2] && r.output == None && r.pc == pc
    ensures var s := st.stack;
      forall i :: 0 <= i < |s| - n ==> Swapped(s, n)[i] == s[i]
  {
    var s := st.stack;
    var s1 := Swapped(s, n);
    assert Popped(s1, n + 2) == s[..|s| - n - 2];
  }

  /** SHA3 pops the offset and leaves the size operand on top, unhashed. */
  lemma Sha3LeavesSizeOnTop(pc: u64, rd: seq<u8>, st: ContextState, size: Word, off: Word)
    ensures var r := Exec(Sha3, pc, rd, st.(stack := st.stack + [size, off]));
      r.Next? ==> r.st.stack == st.stack + [size] && r.output.None? && r.err.None?
  {
    assert Popped(st.stack + [size, off], 1) == st.stack + [size];
  }

  /** DUPn copies the n-th entry to the top; SWAPn exchanges the top with the entry n below it. */
  lemma DupAndSwapPositions(n: nat, pc: u64, rd: seq<u8>, st: ContextState)
    requires 1 <= n < |st.stack|
    ensures var s := st.stack; var r := Exec(Dup(n), pc, rd, st);
      r.Next? && r.st.stack == s + [s[|s| - n]]
    ensures var s := st.stack; var r := Exec(Swap(n), pc, rd, st);
      r.Next? && r.st.stack[|s| - 1] == s[|s| - 1 - n] && r.st.stack[|s| - 1 - n] == s[|s| - 1]
  {
  }
}
