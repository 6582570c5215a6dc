// vm/src/instruction.rs: the opcode handlers. Each works in place on the
// call context's stack and memory, and each is proved to have the effect
// VmSemantics.Exec gives it. A handler returns Panicked where the Rust code
// panics (a failed `unwrap`, a uint overflow, a failed `as_u64`, an index
// out of range); the context is then unspecified.
module VmInstruction {
  import opened Wrappers
  import opened Arith
  import opened EthTypes
  import opened VecUtil
  import opened U256Util
  import opened VmStack
  import opened VmMemory
  import opened VmContract
  import opened VmContext
  import opened VmSemantics

  datatype HandlerResult =
    | Returned(output: Option<seq<u8>>, err: Option<RunError>)
    | Panicked

  /** The handler ended with pc', the context in st' and result r, as the step s says. */
  predicate Realizes(s: Step, pc': u64, st': ContextState, r: HandlerResult)
  {
    match s
    case Panic => r == Panicked
    case Next(pc, st, out, err) => r == Returned(out, err) && pc' == pc && st' == st
  }

  method OpAdd(pc: u64, rd: seq<u8>, ctx: CallContext) returns (pc': u64, r: HandlerResult)
    modifies ctx.stack
    ensures Realizes(Exec(Binary(Add), pc, rd, old(ctx.State())), pc', ctx.State(), r)
  {
    pc' := pc;
    ExecBinaryOp(Add, pc, rd, ctx.State());
    var x := ctx.stack.Pop();
    if x.Err? { return pc', Panicked; }
    var y := ctx.stack.Peek();
    if y.Err? { return pc', Panicked; }
    if x.value + y.value >= TWO256 { return pc', Panicked; }
    ctx.stack.SetTop(x.value + y.value);
    r := Returned(None, None);
  }

  method OpSub(pc: u64, rd: seq<u8>, ctx: CallContext) returns (pc': u64, r: HandlerResult)
    modifies ctx.stack
    ensures Realizes(Exec(Binary(Sub), pc, rd, old(ctx.State())), pc', ctx.State(), r)
  {
    pc' := pc;
    ExecBinaryOp(Sub, pc, rd, ctx.State());
    var x := ctx.stack.Pop();
    if x.Err? { return pc', Panicked; }
    var y := ctx.stack.Peek();
    if y.Err? { return pc', Panicked; }
    if x.value < y.value { return pc', Panicked; }
    ctx.stack.SetTop(x.value - y.value);
    r := Returned(None, None);
  }

  method OpMul(pc: u64, rd: seq<u8>, ctx: CallContext) returns (pc': u64, r: HandlerResult)
    modifies ctx.stack
    ensures Realizes(Exec(Binary(Mul), pc, rd, old(ctx.State())), pc', ctx.State(), r)
  {
    pc' := pc;
    ExecBinaryOp(Mul, pc, rd, ctx.State());
    var x := ctx.stack.Pop();
    if x.Err? { return pc', Panicked; }
    var y := ctx.stack.Peek();
    if y.Err? { return pc', Panicked; }
    if x.value * y.value >= TWO256 { return pc', Panicked; }
    ctx.stack.SetTop(x.value * y.value);
    r := Returned(None, None);
  }

  method OpDiv(pc: u64, rd: seq<u8>, ctx: CallContext) returns (pc': u64, r: HandlerResult)
    modifies ctx.stack
    ensures Realizes(Exec(Binary(Div), pc, rd, old(ctx.State())), pc', ctx.State(), r)
  {
    pc' := pc;
    ExecBinaryOp(Div, pc, rd, ctx.State());
    var x := ctx.stack.Pop();
    if x.Err? { return pc', Panicked; }
    var y := ctx.stack.Peek();
    if y.Err? { return pc', Panicked; }
    if y.value == 0 { return pc', Panicked; }
    ctx.stack.SetTop(Quotient(x.value, y.value));
    r := Returned(None, None);
  }

  /** `y.div_mod(x)` keeps the quotient, not the remainder. */
  method OpMod(pc: u64, rd: seq<u8>, ctx: CallContext) returns (pc': u64, r: HandlerResult)
    modifies ctx.stack
    ensures Realizes(Exec(Binary(Mod), pc, rd, old(ctx.State())), pc', ctx.State(), r)
  {
    pc' := pc;
    ExecBinaryOp(Mod, pc, rd, ctx.State());
    var x := ctx.stack.Pop();
    if x.Err? { return pc', Panicked; }
    var y := ctx.stack.Peek();
    if y.Err? { return pc', Panicked; }
    if x.value == 0 { return pc', Panicked; }
    ctx.stack.SetTop(Quotient(y.value, x.value));
    r := Returned(None, None);
  }

  /**
   * The loop of `op_exp`: the exponent slot starts at the base and is
   * multiplied by it count - 1 times; `mul_assign` panics (None) as soon as
   * a partial power leaves the word.
   */
  method RepeatedMul(b: Word, e: Word) returns (r: Option<Word>)
    requires e > 0
    ensures r.Some? <==> Pow(b, e) < TWO256
    ensures r.Some? ==> r.value == Pow(b, e)
  {
    var acc: Word := b;
    var count := e - 1;
    while count != 0
      invariant 0 <= count <= e - 1
      invariant acc == Pow(b, e - count)
      decreases count
    {
      ghost var k := e - count;
      assert Pow(b, k + 1) == b * acc;
      if acc * b >= TWO256 {
        assert b > 0;
        PowMonotone(b, k + 1, e);
        return None;
      }
      acc := acc * b;
      count := count - 1;
    }
    return Some(acc);
  }

  /** Pops the base; the exponent on top is overwritten with the power. */
  method OpExp(pc: u64, rd: seq<u8>, ctx: CallContext) returns (pc': u64, r: HandlerResult)
    modifies ctx.stack
    ensures Realizes(Exec(Binary(Exp), pc, rd, old(ctx.State())), pc', ctx.State(), r)
  {
    pc' := pc;
    ExecBinaryOp(Exp, pc, rd, ctx.State());
    var base := ctx.stack.Pop();
    if base.Err? { return pc', Panicked; }
    var exponent := ctx.stack.Peek();
    if exponent.Err? { return pc', Panicked; }
    var count := exponent.value;
    ctx.stack.SetTop(0);
    if count == 0 {
      ctx.stack.SetTop(1);
    } else {
      ctx.stack.SetTop(base.value);
      var p := RepeatedMul(base.value, count);
      if p.None? { return pc', Panicked; }
      ctx.stack.SetTop(p.value);
    }
    r := Returned(None, None);
  }

  /** The complement is computed and dropped. */
  method OpNot(pc: u64, rd: seq<u8>, ctx: CallContext) returns (pc': u64, r: HandlerResult)
    ensures Realizes(Exec(Not, pc, rd, old(ctx.State())), pc', ctx.State(), r)
  {
    pc' := pc;
    var x := ctx.stack.Peek();
    if x.Err? { return pc', Panicked; }
    r := Returned(None, None);
  }

  method OpLt(pc: u64, rd: seq<u8>, ctx: CallContext) returns (pc': u64, r: HandlerResult)
    modifies ctx.stack
    ensures Realizes(Exec(Binary(Lt), pc, rd, old(ctx.State())), pc', ctx.State(), r)
  {
    pc' := pc;
    ExecBinaryOp(Lt, pc, rd, ctx.State());
    var x := ctx.stack.Pop();
    if x.Err? { return pc', Panicked; }
    var y := ctx.stack.Peek();
    if y.Err? { return pc', Panicked; }
    if x.value < y.value {
      ctx.stack.SetTop(1);
    } else {
      ctx.stack.SetTop(0);
    }
    r := Returned(None, None);
  }

  /** y is zeroed before the comparison, so x is compared with 0. */
  method OpGt(pc: u64, rd: seq<u8>, ctx: CallContext) returns (pc': u64, r: HandlerResult)
    modifies ctx.stack
    ensures Realizes(Exec(Binary(Gt), pc, rd, old(ctx.State())), pc', ctx.State(), r)
  {
    pc' := pc;
    ExecBinaryOp(Gt, pc, rd, ctx.State());
    var x := ctx.stack.Pop();
    if x.Err? { return pc', Panicked; }
    var y := ctx.stack.Peek();
    if y.Err? { return pc', Panicked; }
    ctx.stack.SetTop(0);
    if x.value > ctx.stack.Back(0) {
      ctx.stack.SetTop(1);
    }
    r := Returned(None, None);
  }

  method OpSlt(pc: u64, rd: seq<u8>, ctx: CallContext) returns (pc': u64, r: HandlerResult)
    modifies ctx.stack
    ensures Realizes(Exec(Binary(Slt), pc, rd, old(ctx.State())), pc', ctx.State(), r)
  {
    pc' := pc;
    ExecBinaryOp(Slt, pc, rd, ctx.State());
    var x := ctx.stack.Pop();
    if x.Err? { return pc', Panicked; }
    var y := ctx.stack.Peek();
    if y.Err? { return pc', Panicked; }
    ctx.stack.SetTop(0);
    if x.value <= ctx.stack.Back(0) {
      ctx.stack.SetTop(1);
    }
    r := Returned(None, None);
  }

  method OpSgt(pc: u64, rd: seq<u8>, ctx: CallContext) returns (pc': u64, r: HandlerResult)
    modifies ctx.stack
    ensures Realizes(Exec(Binary(Sgt), pc, rd, old(ctx.State())), pc', ctx.State(), r)
  {
    pc' := pc;
    ExecBinaryOp(Sgt, pc, rd, ctx.State());
    var x := ctx.stack.Pop();
    if x.Err? { return pc', Panicked; }
    var y := ctx.stack.Peek();
    if y.Err? { return pc', Panicked; }
    ctx.stack.SetTop(0);
    if x.value >= ctx.stack.Back(0) {
      ctx.stack.SetTop(1);
    }
    r := Returned(None, None);
  }

  method OpEq(pc: u64, rd: seq<u8>, ctx: CallContext) returns (pc': u64, r: HandlerResult)
    modifies ctx.stack
    ensures Realizes(Exec(Binary(Eq), pc, rd, old(ctx.State())), pc', ctx.State(), r)
  {
    pc' := pc;
    ExecBinaryOp(Eq, pc, rd, ctx.State());
    var x := ctx.stack.Pop();
    if x.Err? { return pc', Panicked; }
    var y := ctx.stack.Peek();
    if y.Err? { return pc', Panicked; }
    if x.value == y.value {
      ctx.stack.SetTop(1);
    } else {
      ctx.stack.SetTop(0);
    }
    r := Returned(None, None);
  }

  method OpIsZero(pc: u64, rd: seq<u8>, ctx: CallContext) returns (pc': u64, r: HandlerResult)
    modifies ctx.stack
    ensures Realizes(Exec(IsZero, pc, rd, old(ctx.State())), pc', ctx.State(), r)
  {
    pc' := pc;
    var x := ctx.stack.Peek();
    if x.Err? { return pc', Panicked; }
    if x.value == 0 {
      ctx.stack.SetTop(1);
    } else {
      ctx.stack.SetTop(0);
    }
    r := Returned(None, None);
  }

  method OpAnd(pc: u64, rd: seq<u8>, ctx: CallContext) returns (pc': u64, r: HandlerResult)
    modifies ctx.stack
    ensures Realizes(Exec(Binary(And), pc, rd, old(ctx.State())), pc', ctx.State(), r)
  {
    pc' := pc;
    ExecBinaryOp(And, pc, rd, ctx.State());
    var x := ctx.stack.Pop();
    if x.Err? { return pc', Panicked; }
    var y := ctx.stack.Peek();
    if y.Err? { return pc', Panicked; }
    BitAndBound(y.value, x.value);
    ctx.stack.SetTop(BitAnd(y.value, x.value));
    r := Returned(None, None);
  }

  method OpOr(pc: u64, rd: seq<u8>, ctx: CallContext) returns (pc': u64, r: HandlerResult)
    modifies ctx.stack
    ensures Realizes(Exec(Binary(Or), pc, rd, old(ctx.State())), pc', ctx.State(), r)
  {
    pc' := pc;
    ExecBinaryOp(Or, pc, rd, ctx.State());
    var x := ctx.stack.Pop();
    if x.Err? { return pc', Panicked; }
    var y := ctx.stack.Peek();
    if y.Err? { return pc', Panicked; }
    TwoToThe256();
    BitOrBound(y.value, x.value, 256);
    ctx.stack.SetTop(BitOr(y.value, x.value));
    r := Returned(None, None);
  }

  method OpXor(pc: u64, rd: seq<u8>, ctx: CallContext) returns (pc': u64, r: HandlerResult)
    modifies ctx.stack
    ensures Realizes(Exec(Binary(Xor), pc, rd, old(ctx.State())), pc', ctx.State(), r)
  {
    pc' := pc;
    ExecBinaryOp(Xor, pc, rd, ctx.State());
    var x := ctx.stack.Pop();
    if x.Err? { return pc', Panicked; }
    var y := ctx.stack.Peek();
    if y.Err? { return pc', Panicked; }
    TwoToThe256();
    BitXorBound(y.value, x.value, 256);
    ctx.stack.SetTop(BitXor(y.value, x.value));
    r := Returned(None, None);
  }

  /** `val.byte(th)` reads limb th / 8 shifted by 8 * (th % 8); `as_usize` and the limb index panic. */
  method OpByte(pc: u64, rd: seq<u8>, ctx: CallContext) returns (pc': u64, r: HandlerResult)
    modifies ctx.stack
    ensures Realizes(Exec(Binary(Byte), pc, rd, old(ctx.State())), pc', ctx.State(), r)
  {
    pc' := pc;
    ExecBinaryOp(Byte, pc, rd, ctx.State());
    var th := ctx.stack.Pop();
    if th.Err? { return pc', Panicked; }
    var v := ctx.stack.Peek();
    if v.Err? { return pc', Panicked; }
    if th.value >= TWO64 || th.value / 8 >= 4 { return pc', Panicked; }
    var i := th.value;
    var bbyte := Limb(v.value, i / 8) / Pow(2, (i % 8) * 8) % 256;
    LimbByte(v.value, i / 8, i % 8);
    ctx.stack.SetTop(0);
    MulLe(TWO192, bbyte, 255);
    ctx.stack.SetTop(bbyte * TWO192);
    r := Returned(None, None);
  }

  /** Pops the offset, peeks the size and copies the memory window; nothing is hashed. */
  method OpSha3(pc: u64, rd: seq<u8>, ctx: CallContext) returns (pc': u64, r: HandlerResult)
    modifies ctx.stack, ctx.memory
    ensures Realizes(Exec(Sha3, pc, rd, old(ctx.State())), pc', ctx.State(), r)
  {
    pc' := pc;
    var offset := ctx.stack.Pop();
    if offset.Err? { return pc', Panicked; }
    var size := ctx.stack.Peek();
    if size.Err? { return pc', Panicked; }
    var off, sz := AsU64(offset.value), AsU64(size.value);
    if off.None? || sz.None? { return pc', Panicked; }
    var panicked, data := ctx.memory.GetCopy(AsI64(off.value), AsI64(sz.value));
    if panicked { return pc', Panicked; }
    r := Returned(None, None);
  }

  method OpAddress(pc: u64, rd: seq<u8>, ctx: CallContext) returns (pc': u64, r: HandlerResult)
    modifies ctx.stack
    ensures Realizes(Exec(Address, pc, rd, old(ctx.State())), pc', ctx.State(), r)
  {
    pc' := pc;
    var _ := ctx.stack.Push(AddressToWord(ctx.contract.address));
    r := Returned(None, None);
  }

  method OpCaller(pc: u64, rd: seq<u8>, ctx: CallContext) returns (pc': u64, r: HandlerResult)
    modifies ctx.stack
    ensures Realizes(Exec(Caller, pc, rd, old(ctx.State())), pc', ctx.State(), r)
  {
    pc' := pc;
    var _ := ctx.stack.Push(AddressToWord(ctx.contract.caller));
    r := Returned(None, None);
  }

  method OpCallValue(pc: u64, rd: seq<u8>, ctx: CallContext) returns (pc': u64, r: HandlerResult)
    modifies ctx.stack
    ensures Realizes(Exec(CallValue, pc, rd, old(ctx.State())), pc', ctx.State(), r)
  {
    pc' := pc;
    var _ := ctx.stack.Push(0);
    r := Returned(None, None);
  }

  /** Replaces the offset on top with the 32 input bytes from it, read big-endian. */
  method OpCallDataLoad(pc: u64, rd: seq<u8>, ctx: CallContext) returns (pc': u64, r: HandlerResult)
    modifies ctx.stack
    ensures Realizes(Exec(CallDataLoad, pc, rd, old(ctx.State())), pc', ctx.State(), r)
  {
    pc' := pc;
    var x := ctx.stack.Peek();
    if x.Err? { return pc', Panicked; }
    var off := AsU64(x.value);
    if off.None? { return pc', Panicked; }
    var data := GetData(ctx.contract.input, off.value, 32);
    if data.None? { return pc', Panicked; }
    ctx.stack.SetTop(WordFromBe(data.value));
    r := Returned(None, None);
  }

  method OpCallDataSize(pc: u64, rd: seq<u8>, ctx: CallContext) returns (pc': u64, r: HandlerResult)
    modifies ctx.stack
    ensures Realizes(Exec(CallDataSize, pc, rd, old(ctx.State())), pc', ctx.State(), r)
  {
    pc' := pc;
    var _ := ctx.stack.Push(LenWord(|ctx.contract.input|));
    r := Returned(None, None);
  }

  /**
   * The body `call_data_copy` and `code_copy` share: pops memory offset,
   * data offset and length, and stores the zero-padded slice of `data`.
   */
  method CopyToMemory(pc: u64, ctx: CallContext, data: seq<u8>) returns (pc': u64, r: HandlerResult)
    modifies ctx.stack, ctx.memory
    ensures Realizes(ExecCopy(pc, old(ctx.State()), data), pc', ctx.State(), r)
  {
    pc' := pc;
    ghost var s := ctx.stack.data;
    var memOffset := ctx.stack.Pop();
    if memOffset.Err? { return pc', Panicked; }
    var dataOffset := ctx.stack.Pop();
    if dataOffset.Err? { return pc', Panicked; }
    var length := ctx.stack.Pop();
    if length.Err? { return pc', Panicked; }
    assert |s| >= 3 && ctx.stack.data == Popped(s, 3);
    assert memOffset.value == s[|s| - 1] && dataOffset.value == s[|s| - 2] && length.value == s[|s| - 3];
    var memOff, dataOff, len := AsU64(memOffset.value), AsU64(dataOffset.value), AsU64(length.value);
    if memOff.None? || len.None? || dataOff.None? { return pc', Panicked; }
    var bytes := GetData(data, dataOff.value, len.value);
    if bytes.None? { return pc', Panicked; }
    var panicked := ctx.memory.Set(memOff.value, len.value, bytes.value);
    if panicked { return pc', Panicked; }
    r := Returned(None, None);
  }

  /** Stores the padded slice of the call's input. */
  method OpCallDataCopy(pc: u64, rd: seq<u8>, ctx: CallContext) returns (pc': u64, r: HandlerResult)
    modifies ctx.stack, ctx.memory
    ensures Realizes(Exec(CallDataCopy, pc, rd, old(ctx.State())), pc', ctx.State(), r)
  {
    pc', r := CopyToMemory(pc, ctx, ctx.contract.input);
  }

  method OpReturnDataSize(pc: u64, rd: seq<u8>, ctx: CallContext) returns (pc': u64, r: HandlerResult)
    modifies ctx.stack
    ensures Realizes(Exec(ReturnDataSize, pc, rd, old(ctx.State())), pc', ctx.State(), r)
  {
    pc' := pc;
    var _ := ctx.stack.Push(LenWord(|rd|));
    r := Returned(None, None);
  }

  /**
   * A non-zero data offset is reported as ReturnDataOutOfBounds (its
   * negation overflows). With offset 0 the slice ends at the negated length,
   * which only fits a usize when the length is 0.
   */
  method OpReturnDataCopy(pc: u64, rd: seq<u8>, ctx: CallContext) returns (pc': u64, r: HandlerResult)
    modifies ctx.stack, ctx.memory
    ensures Realizes(Exec(ReturnDataCopy, pc, rd, old(ctx.State())), pc', ctx.State(), r)
  {
    pc' := pc;
    var memOffset := ctx.stack.Pop();
    if memOffset.Err? { return pc', Panicked; }
    var dataOffset := ctx.stack.Pop();
    if dataOffset.Err? { return pc', Panicked; }
    var length := ctx.stack.Pop();
    if length.Err? { return pc', Panicked; }
    if dataOffset.value != 0 {
      return pc', Returned(None, Some(ReturnDataOutOfBounds));
    }
    var memOff, len := AsU64(memOffset.value), AsU64(length.value);
    if memOff.None? || len.None? || len.value != 0 { return pc', Panicked; }
    var panicked := ctx.memory.Set(memOff.value, len.value, rd[0..0]);
    r := Returned(None, None);
  }

  /** Stores the padded slice of the contract's code. */
  method OpCodeCopy(pc: u64, rd: seq<u8>, ctx: CallContext) returns (pc': u64, r: HandlerResult)
    modifies ctx.stack, ctx.memory
    ensures Realizes(Exec(CodeCopy, pc, rd, old(ctx.State())), pc', ctx.State(), r)
  {
    pc', r := CopyToMemory(pc, ctx, ctx.contract.code);
  }

  method OpPop(pc: u64, rd: seq<u8>, ctx: CallContext) returns (pc': u64, r: HandlerResult)
    modifies ctx.stack
    ensures Realizes(Exec(Pop, pc, rd, old(ctx.State())), pc', ctx.State(), r)
  {
    pc' := pc;
    var x := ctx.stack.Pop();
    if x.Err? { return pc', Panicked; }
    r := Returned(None, None);
  }

  method OpCoinbase(pc: u64, rd: seq<u8>, ctx: CallContext) returns (pc': u64, r: HandlerResult)
    modifies ctx.stack
    ensures Realizes(Exec(Coinbase, pc, rd, old(ctx.State())), pc', ctx.State(), r)
  {
    pc' := pc;
    var _ := ctx.stack.Push(0);
    r := Returned(None, None);
  }

  /** Reads 32 bytes at the offset on top, reverses them and takes them big-endian. */
  method OpMLoad(pc: u64, rd: seq<u8>, ctx: CallContext) returns (pc': u64, r: HandlerResult)
    modifies ctx.stack, ctx.memory
    ensures Realizes(Exec(MLoad, pc, rd, old(ctx.State())), pc', ctx.State(), r)
  {
    pc' := pc;
    var v := ctx.stack.Peek();
    if v.Err? { return pc', Panicked; }
    var off := AsU64(v.value);
    if off.None? { return pc', Panicked; }
    ctx.stack.SetTop(0);
    var panicked, cv := ctx.memory.GetCopy(AsI64(off.value), 32);
    if panicked || cv.None? { return pc', Panicked; }
    var reversed := Reverse(cv.value);
    if |reversed| > 32 { return pc', Panicked; }
    ctx.stack.SetTop(WordFromBe(reversed));
    r := Returned(None, None);
  }

  /** Pops the offset, then the value, and stores the value with `set32`. */
  method OpMStore(pc: u64, rd: seq<u8>, ctx: CallContext) returns (pc': u64, r: HandlerResult)
    modifies ctx.stack, ctx.memory
    ensures Realizes(Exec(MStore, pc, rd, old(ctx.State())), pc', ctx.State(), r)
  {
    pc' := pc;
    var offset := ctx.stack.Pop();
    if offset.Err? { return pc', Panicked; }
    var val := ctx.stack.Pop();
    if val.Err? { return pc', Panicked; }
    var off := AsU64(offset.value);
    if off.None? { return pc', Panicked; }
    var panicked := ctx.memory.Set32(off.value, val.value);
    if panicked { return pc', Panicked; }
    r := Returned(None, None);
  }

  /** The destination check is disabled: pc becomes the popped value. */
  method OpJump(pc: u64, rd: seq<u8>, ctx: CallContext) returns (pc': u64, r: HandlerResult)
    modifies ctx.stack
    ensures Realizes(Exec(Jump, pc, rd, old(ctx.State())), pc', ctx.State(), r)
  {
    pc' := pc;
    var pos := ctx.stack.Pop();
    if pos.Err? { return pc', Panicked; }
    var dest := AsU64(pos.value);
    if dest.None? { return pc', Panicked; }
    pc' := dest.value;
    r := Returned(None, None);
  }

  method OpJumpI(pc: u64, rd: seq<u8>, ctx: CallContext) returns (pc': u64, r: HandlerResult)
    modifies ctx.stack
    ensures Realizes(Exec(JumpI, pc, rd, old(ctx.State())), pc', ctx.State(), r)
  {
    pc' := pc;
    var pos := ctx.stack.Pop();
    if pos.Err? { return pc', Panicked; }
    var cond := ctx.stack.Pop();
    if cond.Err? { return pc', Panicked; }
    if cond.value != 0 {
      var valid := ValidJumpdest(ctx.contract, pos.value);
      if valid.None? { return pc', Panicked; }
      if !valid.value {
        return pc', Returned(None, Some(InvalidJump));
      }
      pc' := pos.value;
    } else {
      if pc + 1 >= TWO64 { return pc', Panicked; }
      pc' := pc + 1;
    }
    r := Returned(None, None);
  }

  method OpJumpDest(pc: u64, rd: seq<u8>, ctx: CallContext) returns (pc': u64, r: HandlerResult)
    ensures Realizes(Exec(JumpDest, pc, rd, old(ctx.State())), pc', ctx.State(), r)
  {
    return pc, Returned(None, None);
  }

  method OpMSize(pc: u64, rd: seq<u8>, ctx: CallContext) returns (pc': u64, r: HandlerResult)
    modifies ctx.stack
    ensures Realizes(Exec(MSize, pc, rd, old(ctx.State())), pc', ctx.State(), r)
  {
    pc' := pc;
    var _ := ctx.stack.Push(LenWord(ctx.memory.Size()));
    r := Returned(None, None);
  }

  /** Pops offset and size; the memory window is the output. */
  method OpReturn(pc: u64, rd: seq<u8>, ctx: CallContext) returns (pc': u64, r: HandlerResult)
    modifies ctx.stack, ctx.memory
    ensures Realizes(Exec(Return, pc, rd, old(ctx.State())), pc', ctx.State(), r)
  {
    pc' := pc;
    var offset := ctx.stack.Pop();
    if offset.Err? { return pc', Panicked; }
    var size := ctx.stack.Pop();
    if size.Err? { return pc', Panicked; }
    var off, sz := AsU64(offset.value), AsU64(size.value);
    if off.None? || sz.None? { return pc', Panicked; }
    var panicked, ret := ctx.memory.GetCopy(AsI64(off.value), AsI64(sz.value));
    if panicked { return pc', Panicked; }
    r := Returned(ret, None);
  }

  method OpRevert(pc: u64, rd: seq<u8>, ctx: CallContext) returns (pc': u64, r: HandlerResult)
    modifies ctx.stack, ctx.memory
    ensures Realizes(Exec(Revert, pc, rd, old(ctx.State())), pc', ctx.State(), r)
  {
    pc' := pc;
    var offset := ctx.stack.Pop();
    if offset.Err? { return pc', Panicked; }
    var size := ctx.stack.Pop();
    if size.Err? { return pc', Panicked; }
    var off, sz := AsU64(offset.value), AsU64(size.value);
    if off.None? || sz.None? { return pc', Panicked; }
    var panicked, ret := ctx.memory.GetCopy(AsI64(off.value), AsI64(sz.value));
    if panicked { return pc', Panicked; }
    r := Returned(ret, None);
  }

  method OpStop(pc: u64, rd: seq<u8>, ctx: CallContext) returns (pc': u64, r: HandlerResult)
    ensures Realizes(Exec(Stop, pc, rd, old(ctx.State())), pc', ctx.State(), r)
  {
    return pc, Returned(None, None);
  }

  /**
   * `make_log(n)`: `swap(n)` first (out of range for n = 0), then pops the
   * start, the size and n topics, and copies the data window.
   */
  method MakeLog(n: nat, pc: u64, rd: seq<u8>, ctx: CallContext) returns (pc': u64, r: HandlerResult)
    modifies ctx.stack, ctx.memory
    ensures Realizes(Exec(Log(n), pc, rd, old(ctx.State())), pc', ctx.State(), r)
  {
    pc' := pc;
    if n < 1 || n > ctx.stack.Size() { return pc', Panicked; }
    ctx.stack.Swap(n);
    ghost var swapped := ctx.stack.data;
    var minStart := ctx.stack.Pop();
    if minStart.Err? { return pc', Panicked; }
    var minSize := ctx.stack.Pop();
    if minSize.Err? { return pc', Panicked; }
    var topics: seq<Word> := [];
    var idx := 0;
    while idx < n
      invariant 0 <= idx <= n
      invariant |swapped| >= 2 + idx && ctx.stack.data == Popped(swapped, 2 + idx)
      invariant |topics| == idx
      invariant ctx.memory.value == old(ctx.memory.value)
      modifies ctx.stack
    {
      var addr := ctx.stack.Pop();
      if addr.Err? { return pc', Panicked; }
      topics := topics + [addr.value];
      idx := idx + 1;
    }
    var start, size := AsU64(minStart.value), AsU64(minSize.value);
    if start.None? || size.None? { return pc', Panicked; }
    var panicked, d := ctx.memory.GetCopy(AsI64(start.value), AsI64(size.value));
    if panicked { return pc', Panicked; }
    r := Returned(None, None);
  }

  /** Advances pc by one inside the handler and pushes the byte there, or 0 past the code. */
  method OpPush1(pc: u64, rd: seq<u8>, ctx: CallContext) returns (pc': u64, r: HandlerResult)
    modifies ctx.stack
    ensures Realizes(Exec(Push1, pc, rd, old(ctx.State())), pc', ctx.State(), r)
  {
    pc' := pc;
    var codelen := |ctx.contract.code|;
    if pc + 1 >= TWO64 { return pc', Panicked; }
    pc' := pc + 1;
    if pc' < codelen {
      var _ := ctx.stack.Push(ctx.contract.code[pc']);
    } else {
      var _ := ctx.stack.Push(0);
    }
    r := Returned(None, None);
  }

  /** `make_push(n, n)`: pushes the next n code bytes big-endian, then adds n to pc. */
  method MakePush(n: PushSize, pc: u64, rd: seq<u8>, ctx: CallContext) returns (pc': u64, r: HandlerResult)
    modifies ctx.stack
    ensures Realizes(Exec(Push(n), pc, rd, old(ctx.State())), pc', ctx.State(), r)
  {
    pc' := pc;
    var codelen := |ctx.contract.code|;
    if pc + 1 >= TWO64 { return pc', Panicked; }
    var minStart := codelen;
    var pcadd1 := pc + 1;
    if pcadd1 < minStart { minStart := pcadd1; }
    var minEnd := codelen;
    var cmpson2 := minStart + n;
    if cmpson2 < minEnd { minEnd := cmpson2; }
    var v := RightPadBytes(ctx.contract.code[minStart..minEnd], n);
    var _ := ctx.stack.Push(WordFromBe(v));
    if pc + n >= TWO64 { return pc', Panicked; }
    pc' := pc + n;
    r := Returned(None, None);
  }

  method MakeDup(n: nat, pc: u64, rd: seq<u8>, ctx: CallContext) returns (pc': u64, r: HandlerResult)
    modifies ctx.stack
    ensures Realizes(Exec(Dup(n), pc, rd, old(ctx.State())), pc', ctx.State(), r)
  {
    pc' := pc;
    if n < 1 || n > ctx.stack.Size() { return pc', Panicked; }
    ctx.stack.Dup(n);
    r := Returned(None, None);
  }

  /** SWAPn exchanges the top with the entry n below it: `swap(n + 1)`. */
  method MakeSwap(n: nat, pc: u64, rd: seq<u8>, ctx: CallContext) returns (pc': u64, r: HandlerResult)
    modifies ctx.stack
    ensures Realizes(Exec(Swap(n), pc, rd, old(ctx.State())), pc', ctx.State(), r)
  {
    pc' := pc;
    var size := n + 1;
    if size > ctx.stack.Size() { return pc', Panicked; }
    ctx.stack.Swap(size);
    r := Returned(None, None);
  }

  /** Calls the handler a jump-table entry names. */
  method Execute(h: Handler, pc: u64, rd: seq<u8>, ctx: CallContext) returns (pc': u64, r: HandlerResult)
    modifies ctx.stack, ctx.memory
    ensures Realizes(Exec(h, pc, rd, old(ctx.State())), pc', ctx.State(), r)
  {
    match h
    case Binary(op) =>
      match op {
        case Add => pc', r := OpAdd(pc, rd, ctx);
        case Sub => pc', r := OpSub(pc, rd, ctx);
        case Mul => pc', r := OpMul(pc, rd, ctx);
        case Div => pc', r := OpDiv(pc, rd, ctx);
        case Mod => pc', r := OpMod(pc, rd, ctx);
        case Exp => pc', r := OpExp(pc, rd, ctx);
        case Lt => pc', r := OpLt(pc, rd, ctx);
        case Gt => pc', r := OpGt(pc, rd, ctx);
        case Slt => pc', r := OpSlt(pc, rd, ctx);
        case Sgt => pc', r := OpSgt(pc, rd, ctx);
        case Eq => pc', r := OpEq(pc, rd, ctx);
        case And => pc', r := OpAnd(pc, rd, ctx);
        case Or => pc', r := OpOr(pc, rd, ctx);
        case Xor => pc', r := OpXor(pc, rd, ctx);
        case Byte => pc', r := OpByte(pc, rd, ctx);
      }
    case Not => pc', r := OpNot(pc, rd, ctx);
    case IsZero => pc', r := OpIsZero(pc, rd, ctx);
    case Sha3 => pc', r := OpSha3(pc, rd, ctx);
    case Address => pc', r := OpAddress(pc, rd, ctx);
    case Caller => pc', r := OpCaller(pc, rd, ctx);
    case CallValue => pc', r := OpCallValue(pc, rd, ctx);
    case CallDataLoad => pc', r := OpCallDataLoad(pc, rd, ctx);
    case CallDataSize => pc', r := OpCallDataSize(pc, rd, ctx);
    case CallDataCopy => pc', r := OpCallDataCopy(pc, rd, ctx);
    case ReturnDataSize => pc', r := OpReturnDataSize(pc, rd, ctx);
    case ReturnDataCopy => pc', r := OpReturnDataCopy(pc, rd, ctx);
    case CodeCopy => pc', r := OpCodeCopy(pc, rd, ctx);
    case Pop => pc', r := OpPop(pc, rd, ctx);
    case Coinbase => pc', r := OpCoinbase(pc, rd, ctx);
    case MLoad => pc', r := OpMLoad(pc, rd, ctx);
    case MStore => pc', r := OpMStore(pc, rd, ctx);
    case Jump => pc', r := OpJump(pc, rd, ctx);
    case JumpI => pc', r := OpJumpI(pc, rd, ctx);
    case JumpDest => pc', r := OpJumpDest(pc, rd, ctx);
    case MSize => pc', r := OpMSize(pc, rd, ctx);
    case Return => pc', r := OpReturn(pc, rd, ctx);
    case Revert => pc', r := OpRevert(pc, rd, ctx);
    case Stop => pc', r := OpStop(pc, rd, ctx);
    case Log(n) => pc', r := MakeLog(n, pc, rd, ctx);
    case Push1 => pc', r := OpPush1(pc, rd, ctx);
    case Push(n) => pc', r := MakePush(n, pc, rd, ctx);
    case Dup(n) => pc', r := MakeDup(n, pc, rd, ctx);
    case Swap(n) => pc', r := MakeSwap(n, pc, rd, ctx);
  }
}
