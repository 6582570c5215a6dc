// The effect of each handler of vm/src/instruction.rs on a call-context
// snapshot, as a pure function. The handler methods in VmInstruction are
// proved to realise it, and the interpreter loop is specified with it.
module VmSemantics {
  import opened Wrappers
  import opened Arith
  import opened EthTypes
  import opened VecUtil
  import opened VmStack
  import opened VmMemory
  import opened VmContract
  import opened VmContext

  /** The handlers whose top operand is popped and whose second is overwritten. */
  datatype BinOp = Add | Sub | Mul | Div | Mod | Exp | Lt | Gt | Slt | Sgt | Eq | And | Or | Xor | Byte

  /** The immediate sizes `make_push` is instantiated with. */
  type PushSize = n: nat | 1 <= n <= 32 witness 1

  datatype Handler =
    | Binary(op: BinOp)
    | Not | IsZero | Sha3
    | Address | Caller | CallValue | CallDataLoad | CallDataSize | CallDataCopy
    | ReturnDataSize | ReturnDataCopy | CodeCopy | Pop | Coinbase
    | MLoad | MStore | Jump | JumpI | JumpDest | MSize | Return | Revert | Stop
    | Log(n: nat)
    | Push1
    | Push(width: PushSize)
    | Dup(n: nat)
    | Swap(n: nat)

  /** What a handler hands back: its new pc and context, output and error, or a panic. */
  datatype Step =
    | Next(pc: u64, st: ContextState, output: Option<seq<u8>>, err: Option<RunError>)
    | Panic

  /**
   * The value written over the second operand y when x is popped, or None
   * where the uint operator panics (overflow, underflow, zero divisor) or
   * `byte` indexes past the fourth limb.
   */
  function BinResult(op: BinOp, x: Word, y: Word): (r: Option<Word>)
  {
    match op
    case Add => if x + y < TWO256 then Some(x + y) else None
    case Sub => if x >= y then Some(x - y) else None
    case Mul => if x * y < TWO256 then Some(x * y) else None
    case Div => if y == 0 then None else Some(Quotient(x, y))
    // `div_mod` of the second operand by the top; its quotient is kept.
    case Mod => if x == 0 then None else Some(Quotient(y, x))
    // x is the base and y the exponent.
    case Exp => if y == 0 then Some(1) else if Pow(x, y) < TWO256 then Some(Pow(x, y)) else None
    case Lt => Some(if x < y then 1 else 0)
    // GT, SLT and SGT zero y before comparing x with it.
    case Gt => Some(if x > 0 then 1 else 0)
    case Slt => Some(if x <= 0 then 1 else 0)
    case Sgt => Some(1)
    case Eq => Some(if x == y then 1 else 0)
    case And =>
      BitAndBound(y, x);
      Some(BitAnd(y, x))
    case Or =>
      TwoToThe256();
      BitOrBound(y, x, 256);
      Some(BitOr(y, x))
    case Xor =>
      TwoToThe256();
      BitXorBound(y, x, 256);
      Some(BitXor(y, x))
    case Byte => if x >= 32 then None else Some(ByteToLimb3(x, y))
  }

  /** `byte(i)` is byte i counted from the least significant end; it is stored into limb 3. */
  function ByteToLimb3(i: nat, y: Word): (r: Word)
    requires i < 32
    ensures r == y / Pow(256, i) % 256 * TWO192
  {
    var b := y / Pow(256, i) % 256;
    MulLe(TWO192, b, 255);
    b * TWO192
  }

  function Quotient(x: Word, y: Word): (q: Word)
    requires y > 0
    ensures q == x / y
  {
    DivLe(x, y);
    x / y
  }

  /** The stack with its top replaced. */
  function WithTop(s: seq<Word>, w: Word): (r: seq<Word>)
    requires |s| > 0
    ensures |r| == |s| && r[..|s| - 1] == s[..|s| - 1] && r[|s| - 1] == w
  {
    s[|s| - 1 := w]
  }

  function Top(s: seq<Word>): Word
    requires |s| > 0
  {
    s[|s| - 1]
  }

  /** The stack with its k topmost entries popped. */
  function Popped(s: seq<Word>, k: nat): (r: seq<Word>)
    requires k <= |s|
    ensures |r| == |s| - k
  {
    s[..|s| - k]
  }

  /** A length as U256 (`len() as u64`). */
  function LenWord(n: nat): Word
  {
    n % TWO64
  }

  function ExecBinary(op: BinOp, pc: u64, st: ContextState): Step
  {
    var s := st.stack;
    if |s| < 2 then Panic
    else match BinResult(op, s[|s| - 1], s[|s| - 2])
      case None => Panic
      case Some(v) => Next(pc, st.(stack := Popped(s, 2) + [v]), None, None)
  }

  /** Pushes a word; `push` never fails. */
  function ExecPush(pc: u64, st: ContextState, w: Word): Step
  {
    Next(pc, st.(stack := st.stack + [w]), None, None)
  }

  /**
   * CALLDATACOPY and CODECOPY: pop memory offset, data offset and length,
   * then `memory.set(memOff, len, get_data(data, dataOff, len))`.
   */
  function ExecCopy(pc: u64, st: ContextState, data: seq<u8>): Step
  {
    var s := st.stack;
    if |s| < 3 then Panic
    else
      var memOff, dataOff, len := AsU64(s[|s| - 1]), AsU64(s[|s| - 2]), AsU64(s[|s| - 3]);
      if memOff.None? || dataOff.None? || len.None? then Panic
      else match GetData(data, dataOff.value, len.value)
        case None => Panic
        case Some(bytes) =>
          match SetSpec(st.memory, memOff.value, len.value, bytes)
          case None => Panic
          case Some(m) => Next(pc, st.(stack := Popped(s, 3), memory := m), None, None)
  }

  /**
   * `get_copy(offset.as_u64() as i64, size.as_u64() as i64)` on the memory,
   * after `popped` operands have been removed.
   */
  function ExecGetCopy(pc: u64, st: ContextState, offset: Word, size: Word, rest: seq<Word>, keepOutput: bool): Step
  {
    var off, sz := AsU64(offset), AsU64(size);
    if off.None? || sz.None? then Panic
    else match GetCopySpec(st.memory, AsI64(off.value), AsI64(sz.value))
      case None => Panic
      case Some((m, out)) =>
        Next(pc, st.(stack := rest, memory := m), if keepOutput then out else None, None)
  }

  /** `make_push(n, n)`: the n code bytes after pc, zero-padded, as a big-endian word. */
  function ExecMakePush(n: nat, pc: u64, st: ContextState): Step
    requires 1 <= n <= 32
  {
    if pc + 1 >= TWO64 then Panic
    else
      var v := PushData(st.contract.code, pc, n);
      if pc + n >= TWO64 then Panic
      else Next(pc + n, st.(stack := st.stack + [WordFromBe(v)]), None, None)
  }

  /** The code slice after pc, clamped to the code, right-padded to n bytes. */
  function PushData(code: seq<u8>, pc: u64, n: nat): (v: seq<u8>)
    requires 1 <= n <= 32 && pc + 1 < TWO64
    ensures |v| == n
  {
    var start := if pc + 1 < |code| then pc + 1 else |code|;
    var end := if start + n < |code| then start + n else |code|;
    RightPadBytes(code[start..end], n)
  }

  /** MLOAD: `get_copy(off, 32)` at the offset on top, reversed and read big-endian. */
  function ExecMLoad(pc: u64, st: ContextState): Step
  {
    var s := st.stack;
    if |s| < 1 then Panic
    else match AsU64(Top(s))
      case None => Panic
      case Some(off) =>
        match GetCopySpec(st.memory, AsI64(off), 32)
        case None => Panic
        case Some((m, out)) =>
          if out.None? || |out.value| > 32 then Panic
          else Next(pc, st.(stack := WithTop(s, WordFromBe(Reverse(out.value))), memory := m), None, None)
  }

  /** MSTORE: pops the offset and the value, then `set32`. */
  function ExecMStore(pc: u64, st: ContextState): Step
  {
    var s := st.stack;
    if |s| < 2 then Panic
    else match AsU64(s[|s| - 1])
      case None => Panic
      case Some(off) =>
        match Set32Spec(st.memory, off, s[|s| - 2])
        case None => Panic
        case Some(m) => Next(pc, st.(stack := Popped(s, 2), memory := m), None, None)
  }

  /** The handler's effect; `rd` is the interpreter's return-data buffer. */
  function Exec(h: Handler, pc: u64, rd: seq<u8>, st: ContextState): (r: Step)
    ensures r.Next? ==> r.st.contract == st.contract && r.st.rstack == st.rstack
    ensures r.Next? ==> |r.st.stack| <= |st.stack| + 1
    ensures r.Next? ==> |r.st.memory| >= |st.memory|
  {
    var s := st.stack;
    match h
    case Binary(op) => ExecBinary(op, pc, st)
    // `not()` is computed on a copy and discarded.
    case Not => if |s| < 1 then Panic else Next(pc, st, None, None)
    case IsZero => if |s| < 1 then Panic else Next(pc, st.(stack := WithTop(s, if Top(s) == 0 then 1 else 0)), None, None)
    // The offset is popped and the size only peeked; nothing is hashed.
    case Sha3 => if |s| < 2 then Panic else ExecGetCopy(pc, st, s[|s| - 1], s[|s| - 2], Popped(s, 1), false)
    case Address => ExecPush(pc, st, AddressToWord(st.contract.address))
    case Caller => ExecPush(pc, st, AddressToWord(st.contract.caller))
    case CallValue => ExecPush(pc, st, 0)
    case Coinbase => ExecPush(pc, st, 0)
    case CallDataLoad =>
      if |s| < 1 then Panic
      else (match AsU64(Top(s))
        case None => Panic
        case Some(off) =>
          match GetData(st.contract.input, off, 32)
          case None => Panic
          case Some(bytes) => Next(pc, st.(stack := WithTop(s, WordFromBe(bytes))), None, None))
    case CallDataSize => ExecPush(pc, st, LenWord(|st.contract.input|))
    case CallDataCopy => ExecCopy(pc, st, st.contract.input)
    case CodeCopy => ExecCopy(pc, st, st.contract.code)
    case ReturnDataSize => ExecPush(pc, st, LenWord(|rd|))
    // Any non-zero data offset is out of bounds; a non-zero length makes the slice end panic.
    case ReturnDataCopy =>
      if |s| < 3 then Panic
      else if s[|s| - 2] != 0 then Next(pc, st.(stack := Popped(s, 3)), None, Some(ReturnDataOutOfBounds))
      else if AsU64(s[|s| - 1]).None? || AsU64(s[|s| - 3]).None? || s[|s| - 3] != 0 then Panic
      else Next(pc, st.(stack := Popped(s, 3)), None, None)
    case Pop => if |s| < 1 then Panic else Next(pc, st.(stack := Popped(s, 1)), None, None)
    // The 32 bytes read are reversed and taken big-endian, i.e. read little-endian.
    case MLoad => ExecMLoad(pc, st)
    case MStore => ExecMStore(pc, st)
    // The destination is not validated.
    case Jump =>
      if |s| < 1 then Panic
      else (match AsU64(Top(s))
        case None => Panic
        case Some(dest) => Next(dest, st.(stack := Popped(s, 1)), None, None))
    case JumpI =>
      if |s| < 2 then Panic
      else if s[|s| - 2] != 0 then
        (match ValidJumpdest(st.contract, s[|s| - 1])
         case None => Panic
         case Some(valid) =>
           if !valid then Next(pc, st.(stack := Popped(s, 2)), None, Some(InvalidJump))
           else Next(s[|s| - 1], st.(stack := Popped(s, 2)), None, None))
      else if pc + 1 >= TWO64 then Panic
      else Next(pc + 1, st.(stack := Popped(s, 2)), None, None)
    case JumpDest => Next(pc, st, None, None)
    case MSize => ExecPush(pc, st, LenWord(|st.memory|))
    case Return => if |s| < 2 then Panic else ExecGetCopy(pc, st, s[|s| - 1], s[|s| - 2], Popped(s, 2), true)
    case Revert => if |s| < 2 then Panic else ExecGetCopy(pc, st, s[|s| - 1], s[|s| - 2], Popped(s, 2), true)
    case Stop => Next(pc, st, None, None)
    // `swap(n)` comes first, so LOG0 always panics; then start, size and n topics are popped.
    case Log(n) =>
      if n < 1 || n > |s| then Panic
      else
        var s1 := Swapped(s, n);
        if |s1| < n + 2 then Panic
        else ExecGetCopy(pc, st, s1[|s1| - 1], s1[|s1| - 2], Popped(s1, n + 2), false)
    case Push1 =>
      if pc + 1 >= TWO64 then Panic
      else
        var p := pc + 1;
        ExecPush(p, st, if p < |st.contract.code| then st.contract.code[p] else 0)
    case Push(n) => ExecMakePush(n, pc, st)
    case Dup(n) => if n < 1 || n > |s| then Panic else Next(pc, st.(stack := Duplicated(s, n)), None, None)
    // `make_swap(n)` calls `swap(n + 1)`.
    case Swap(n) => if n + 1 > |s| then Panic else Next(pc, st.(stack := Swapped(s, n + 1)), None, None)
  }

  /** Every binary handler takes the shared pop-then-overwrite path. */
  lemma ExecBinaryOp(op: BinOp, pc: u64, rd: seq<u8>, st: ContextState)
    ensures Exec(Binary(op), pc, rd, st) == ExecBinary(op, pc, st)
  {
  }
}
