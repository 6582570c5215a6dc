# A verified model of a small EVM-style interpreter, its ledger helpers and its HTTP layer

This project models, in Dafny, the core of a Rust repository that runs
Ethereum-style bytecode:

- **The virtual machine** (`vm/src`). It covers:
  - the operand stack of 256-bit words and the return stack;
  - the growable byte memory and its size helpers;
  - the contract descriptor with its byte fetch and jump-destination check;
  - the opcode constants and names;
  - every opcode handler, the opcode-to-operation table and the
    fetch-decode-execute loop of `Interpreter::run_contract`.

  The state the handlers change in place (stack, memory, return stack, program
  counter, the interpreter's return data) is held in Dafny classes. Each
  handler is an imperative method proved against a pure function `Exec`
  of the context's contents. The loop is a `while` loop proved against the
  pure function `Loop`, which bounds the run at 999 steps as the source does.
- **Common helpers** (`common/src`): vector copying and right padding, the
  checked 64-bit multiply, the little-endian byte encoding of a word used by
  MSTORE, and the classification of JSON strings as hex, decimal or text.
- **Ledger helpers** (`ledger/src`):
  - the transaction pool with its append and remove-first-match;
  - the "sorted" vectors built from the dirty storage slots, their
    encoding, and their decoding both as written (which reads nothing back
    from a list) and bounded by the item count;
  - the raw and committed transactions, the validator list and the field
    lists they are encoded as;
  - the zero-padded 32-byte conversions used when reading from the database.
- **The HTTP layer** (`basic-http/src`): header map, body buffer, status
  codes and reason phrases, request parsing (the start line and header
  fields of section 3 of RFC 7230), response rendering and the server's
  routing of a parsed request to its handler.

Words are natural numbers below 2^256, and limb k of a word is
`w / 2^(64k) % 2^64`. Addresses are 20-byte sequences and hashes 32-byte
sequences. Every Rust panic (`unwrap`, `expect`, an out-of-range index, a
`U256` overflow, a failed `as_u64`) is either an explicit `Panic` outcome or,
where callers must rule it out, a precondition. A `HashMap`'s iteration order
is an arbitrary duplicate-free listing of its keys. A method that walks the
map returns the order it took as a ghost out-parameter.

## Behaviour as written

The model follows the code wherever the code and the usual EVM semantics
(Ethereum Yellow Paper, section 9 and Appendix H) part ways. These
deviations are stated as properties, not repaired:

- An unknown opcode byte panics in `get_operation` (`VmJumpTable.GetOperationDefinedOnTable`), so `InvalidOpCode` never arises.
- Popping an empty stack panics in the handlers, and `push` never checks the height (`VmStack.Stack.Push`).
- ADD, SUB, MUL, DIV and EXP panic on overflow, underflow or a zero divisor instead of wrapping modulo 2^256 or yielding 0 (`VmInstruction.OpAdd` and the other handlers).
- MOD yields the quotient of the second operand by the top (`VmInstruction.OpMod`), and NOT leaves the stack unchanged (`VmInstruction.OpNot`).
- JUMP does not validate its destination (`VmRunProps.JumpStep`), and `valid_jumpdest` accepts a 0x5B byte inside PUSH data (`VmContract.PushDataAcceptedAsJumpdest`).
- Memory words are stored little-endian. MLOAD reads them back, but RETURN exposes the little-endian bytes (`VmRunProps.AddAndReturnRun`).
- `calc_mem_size64_with_uint` gives (0, false) for a zero length whatever the offset, and raises its overflow flag whenever the offset fits in 64 bits; `calc_mem_size64` raises it whenever the length fits in 64 bits, whatever the offset. The interpreter ignores the flag. For operands below 2^64, memory is therefore not grown before a handler (`VmRunProps.NoPreGrowth`). A larger operand may grow it (`VmRunProps.LargeOffsetGrowsMemory`: MLOAD at offset 2^64 + 5 grows memory to 64 bytes), and a carry out of the u64 sum `u64off + len` panics (`VmMemory.CalcMemSize64WithUint`).
- LOG0 panics, because `make_log` first calls `swap(0)` (`VmSemanticsProps.LogZeroPanics`).
- SHA3 leaves the size operand on top instead of a hash (`VmSemanticsProps.Sha3LeavesSizeOnTop`).

## Model

| member | source | states |
|---|---|---|
| EthTypes.AsU64 | vm/src/contract.rs:17 | `as_u64` succeeds exactly when the three high limbs are zero, and then keeps the value |
| EthTypes.AsI64 | vm/src/instruction.rs:253-254 | `as i64` on a u64 reinterprets the bits: the result is in i64 range, negative exactly from 2^63 up, and congruent to the input modulo 2^64 |
| EthTypes.I64AsUsize | vm/src/memory.rs:202-203 | `as usize` on an i64 is congruent modulo 2^64 and keeps non-negative values |
| EthTypes.AddressToWord | vm/src/instruction.rs:264 | the word fits in 160 bits, and its low 20 bytes, most significant first, are the address |
| EthTypes.WordFromBe | vm/src/instruction.rs:299 | `U256::from_big_endian` of at most 32 bytes: the word is below 256^n for n bytes, and writing it back in n big-endian bytes gives the bytes |
| VmSemantics.Quotient | vm/src/instruction.rs:53-86 | the quotient of a division by a non-zero word, itself a word |
| VmSemantics.PushData | vm/src/instruction.rs:633-658 | the n bytes a PUSH reads: the code after pc clamped to the code and right-padded with zeros |
| VmSemantics.Exec | vm/src/instruction.rs:13-996 | every handler that returns leaves the contract and the return stack alone, pushes at most one word and never shrinks memory |
| VecUtil.CopyFrom | common/src/vecutil.rs:3-7 | the element-by-element copy equals the source vector |
| VecUtil.CopyBetween | common/src/vecutil.rs:9-12 | whatever the destination held, it ends up equal to the source |
| VecUtil.RightPadBytes | common/src/vecutil.rs:18-24 | the result is as long as the larger of the input and the target length, starts with the input and is zero beyond it; a shorter target never truncates |
| VecUtil.RightPadIdempotent | common/src/vecutil.rs:18-24 | padding an already padded vector to the same length changes nothing |
| VecUtil.SafeMul | common/src/vecutil.rs:26-29 | the flag is set exactly when the product reaches 2^64; the value is the product modulo 2^64, and the exact product when there is no overflow |
| U256Util.U256ToLeU8Vec | common/src/u256util.rs:4-12 | the limb-by-limb, shift-and-truncate loop yields exactly the 32 little-endian bytes of the word |
| U256Util.LimbByte | common/src/u256util.rs:8 | byte `idx2` of 64-bit limb `idx` is byte `8 * idx + idx2` of the whole word |
| U256Util.LeU8VecDecodes | common/src/u256util.rs:4-12 | the encoding is exact: read little-endian, or reversed and read big-endian, the bytes give the word back |
| U256Util.LeU8VecInjective | common/src/u256util.rs:4-12 | distinct words have distinct encodings |
| StrUtil.ParseU64 | common/src/strutil.rs:34 | what `parse::<u64>` accepts: an optional '+', then digits, with a value below 2^64 |
| StrUtil.CheckType | common/src/strutil.rs:27-38 | a non-string value is the "not `String`" error; a string starting with "0x" is Hex |
| StrUtil.HexNeverParses | common/src/strutil.rs:33-34 | no "0x" string parses as a u64, so the order of the two tests is immaterial |
| StrUtil.CheckTypeOnText | common/src/strutil.rs:27-38 | on strings the three classes partition the input: Hex exactly for the "0x" prefix, Decimal exactly for what parses as a u64, String for everything else |
| StrUtil.U64IsDecimal | common/src/strutil.rs:34-35 | every u64 written in decimal, with or without '+', parses back to itself and is Decimal |
| StrUtil.TooLargeIsString | common/src/strutil.rs:34-36 | a decimal number of 2^64 or more overflows the parse and is String |
| StrUtil.SignsAndEmptyAreString | common/src/strutil.rs:34-36 | the empty string, a bare '+' and negative numbers are String |
| VmStack.MaxStack | vm/src/stack.rs:5-7 | the bound exceeds the operand count by the stack limit minus the pushes |
| VmStack.MinStack | vm/src/stack.rs:9-11 | the lower bound is the number of operands popped |
| VmStack.MaxDupStack | vm/src/stack.rs:13-15 | a DUP's upper bound is one below the stack limit, for every n whose i16 sums do not overflow |
| VmStack.MinDupStack | vm/src/stack.rs:17-19 | a DUP needs n operands |
| VmStack.MaxSwapStack | vm/src/stack.rs:21-23 | a SWAP's upper bound is the stack limit, for every n whose i16 sum does not overflow |
| VmStack.MinSwapStack | vm/src/stack.rs:25-27 | a SWAP needs n operands |
| VmStack.Swapped | vm/src/stack.rs:70-76 | entries size-n and size-1 are exchanged and every other entry is kept |
| VmStack.Duplicated | vm/src/stack.rs:78-83 | the old stack is kept and the n-th entry from the top is pushed |
| VmStack.BackOf | vm/src/stack.rs:85-88 | `back(n)` is the entry n places below the top; `back(0)` is the top |
| VmStack.SwapOneIsIdentity | vm/src/stack.rs:70-76 | `swap(1)` leaves the stack unchanged |
| VmStack.SwapTwiceRestores | vm/src/stack.rs:70-76 | swapping twice with the same n restores the stack |
| VmStack.DupOneCopiesTop | vm/src/stack.rs:78-83 | `dup(1)` pushes a copy of the top |
| VmStack.Stack.constructor | vm/src/stack.rs:35-37 | a new stack is empty, with the given height |
| VmStack.Stack.Default | vm/src/stack.rs:39-41 | the default stack is empty, with height 64 |
| VmStack.Stack.Size | vm/src/stack.rs:90-92 | the size is the number of entries |
| VmStack.Stack.Push | vm/src/stack.rs:45-48 | push appends the word and always succeeds, with no limit check |
| VmStack.Stack.PushMultiple | vm/src/stack.rs:50-55 | the words are appended in order |
| VmStack.Stack.Pop | vm/src/stack.rs:57-60 | an empty stack is an error and is unchanged; otherwise the top is returned and removed |
| VmStack.Stack.Peek | vm/src/stack.rs:62-68 | an empty stack is an error; otherwise the top, with nothing changed |
| VmStack.Stack.SetTop | vm/src/stack.rs:62-68 | writing through the peeked cell replaces only the top |
| VmStack.Stack.Swap | vm/src/stack.rs:70-76 | the new stack is `Swapped(old, n)` |
| VmStack.Stack.Dup | vm/src/stack.rs:78-83 | the new stack is `Duplicated(old, n)` |
| VmStack.Stack.Back | vm/src/stack.rs:85-88 | the value is `BackOf(data, n)` |
| VmStack.PushThenPop | vm/src/stack.rs:45-60 | a push followed by a pop returns the word and leaves the stack as it was |
| VmStack.ReturnStack.constructor | vm/src/stack.rs:121-123 | a new return stack is empty |
| VmStack.ReturnStack.Push | vm/src/stack.rs:127-129 | the value is appended |
| VmStack.ReturnStack.Pop | vm/src/stack.rs:131-135 | an empty stack gives `Err(false)` and is unchanged; otherwise the top is returned and removed |
| VmMemory.CalcMemSize64WithUint | vm/src/memory.rs:13-26 | a zero length gives (0, false); an offset that fits in 64 bits gives (0, true), since the flag is raised when the high limbs are zero; otherwise the sum of the low limb and the length, unflagged, and a panic exactly when that u64 sum carries |
| VmMemory.CalcMemSize64 | vm/src/memory.rs:4-11 | a length that fits in 64 bits gives (0, true) whatever the offset; a longer one is passed on with its low limb, panics included |
| VmMemory.GetData | vm/src/memory.rs:28-38 | the result is `size` bytes holding the data from the clamped start, zero past the end; the panic case is exactly the u64 overflow of clamped start plus size |
| VmMemory.ToU64Size | vm/src/memory.rs:40-45 | the word count covers `size` bytes, and one word less does not |
| VmMemory.ToU64SizeIsCeiling | vm/src/memory.rs:40-45 | the overflow guard agrees with rounding up to whole 32-byte words: the result covers `size` and one word less does not |
| VmMemory.AllZero | vm/src/memory.rs:47-52 | true exactly when every byte is zero |
| VmMemory.MemorySize | vm/src/memory.rs:54-137 | each of the sixteen size functions panics when the stack is not deeper than the deepest operand it reads with `back`, and otherwise computes its request from those operands (which panics on a u64 carry); the call variants return at the first overflow flag |
| VmMemory.NoPreGrowthForSmallOperands | vm/src/memory.rs:4-137 | with every stack word below 2^64, every size function returns without panicking and reports size 0 |
| VmMemory.Resized | vm/src/memory.rs:190-195 | resize grows with zero bytes to n and never shrinks |
| VmMemory.SetOfNothing | vm/src/memory.rs:151-152 | `set` with size 0 changes nothing |
| VmMemory.SetWrites | vm/src/memory.rs:151-166 | where `set` succeeds, the window holds the value, old bytes outside it are kept and new bytes outside it are zero |
| VmMemory.SetSucceedsWhen | vm/src/memory.rs:151-166 | `set` panics only on u64 overflow or a value of the wrong length |
| VmMemory.SetGrowsByExtraAmount | vm/src/memory.rs:154-159 | when the window starts inside memory and runs past its end, memory grows to the old size plus `size`, not to offset plus size |
| VmMemory.SetSpec | vm/src/memory.rs:151-166 | where `set` does not panic, memory is never shrunk |
| VmMemory.Set32Characterised | vm/src/memory.rs:168-188 | `set32` succeeds exactly when offset + 32 fits and memory ends at or before offset + 32, because the final copy takes everything from the offset to the end; the result is then offset + 32 bytes, ending with the 32 little-endian bytes of the word, earlier bytes kept and the gap zero |
| VmMemory.Set32Spec | vm/src/memory.rs:168-188 | where `set32` does not panic, memory is never shrunk |
| VmMemory.GetCopyWindow | vm/src/memory.rs:198-212 | for an offset inside memory, `get_copy` returns exactly the window, reading zeros past the end, and memory grows to the window's end with its old bytes kept |
| VmMemory.GetCopyTail | vm/src/memory.rs:198-212 | a window ending exactly at the end of memory returns the tail and leaves memory unchanged |
| VmMemory.GetCopyPastEnd | vm/src/memory.rs:201-211 | an offset at or past the end returns an empty vector, whatever the size |
| VmMemory.GetCopySpec | vm/src/memory.rs:198-212 | where `get_copy` does not panic, memory keeps its old bytes and only grows |
| VmMemory.Memory.constructor | vm/src/memory.rs:144-147 | a new memory is empty |
| VmMemory.Memory.Size | vm/src/memory.rs:223 | the size is the number of bytes |
| VmMemory.Memory.Resize | vm/src/memory.rs:190-195 | the new contents are `Resized(old, n)` |
| VmMemory.Memory.Set | vm/src/memory.rs:151-166 | panics exactly where `SetSpec` is None; otherwise the new memory is `SetSpec`'s |
| VmMemory.Memory.Set32 | vm/src/memory.rs:168-188 | the zeroing loop and the final copy give `Set32Spec`, including its panic case |
| VmMemory.Memory.GetCopy | vm/src/memory.rs:198-212 | the push-zeros-then-copy code gives `GetCopySpec`: the new memory, the result and the panic cases |
| VmContract.DefaultContract | vm/src/contract.rs:5-13 | the derived default has empty code, input and jump points and all-zero hash and addresses |
| VmContract.GetByte | vm/src/contract.rs:25-30 | the code byte at n inside the code, STOP (0) past its end; it never fails |
| VmContract.ValidJumpdest | vm/src/contract.rs:16-23 | defined exactly when the destination fits in 64 bits and lies inside the code (elsewhere the source panics), and then true exactly when that byte is JUMPDEST |
| VmContract.JumpdestAgreesWithGetByte | vm/src/contract.rs:16-30 | inside the code, a valid destination is one whose fetched byte is JUMPDEST |
| VmContract.PushDataAcceptedAsJumpdest | vm/src/contract.rs:16-23 | with the PUSH-data analysis commented out, the immediate 0x5B of PUSH1 0x5B is accepted as a jump destination |
| VmContext.CallContext.constructor | vm/src/context.rs:5-10 | the context holds the given stack, memory, return stack and contract |
| VmContext.CallContext.State | vm/src/context.rs:5-10 | the snapshot holds the stack, memory and return-stack contents and the contract |
| VmOpcode.DeclaredOpcodesAreTheConstants1 | vm/src/opcode.rs:4-23 | the declaration-order enumeration takes the values STOP to AND |
| VmOpcode.DeclaredOpcodesAreTheConstants2 | vm/src/opcode.rs:24-43 | it takes the values OR to CODECOPY |
| VmOpcode.DeclaredOpcodesAreTheConstants3 | vm/src/opcode.rs:44-65 | it takes the values GASPRICE to MSTORE8 |
| VmOpcode.DeclaredOpcodesAreTheConstants4 | vm/src/opcode.rs:66-85 | it takes the values SLOAD to PUSH7 |
| VmOpcode.DeclaredOpcodesAreTheConstants5 | vm/src/opcode.rs:86-103 | it takes the values PUSH8 to PUSH25 |
| VmOpcode.DeclaredOpcodesAreTheConstants6 | vm/src/opcode.rs:104-121 | it takes the values PUSH26 to DUP11 |
| VmOpcode.DeclaredOpcodesAreTheConstants7 | vm/src/opcode.rs:122-139 | it takes the values DUP12 to SWAP13 |
| VmOpcode.DeclaredOpcodesAreTheConstants8 | vm/src/opcode.rs:140-161 | it takes the values SWAP14 to SELFDESTRUCT |
| VmOpcode.OpcodeToU8 | vm/src/opcode.rs:163-165 | casting an opcode to a byte loses nothing: casting back gives the opcode |
| VmOpcode.U8ToOpcode | vm/src/opcode.rs:167-169 | every byte is an opcode, and a byte becomes a declared constant exactly when it is that constant's value |
| VmOpcode.OpcodesDistinct | vm/src/opcode.rs:4-161 | the constants are declared in strictly increasing order, so no two share a byte |
| VmOpcode.FamilyOpcodes | vm/src/opcode.rs:79-149 | PUSHn is 0x5F + n, DUPn is 0x7F + n, SWAPn is 0x8F + n and LOGn is 0xA0 + n |
| VmOpcode.ConstantsAreNamed | vm/src/opcode.rs:171-329 | every declared constant has a name other than "NONE" |
| VmOpcode.GetOpcodeName | vm/src/opcode.rs:171-329 | a byte named "NONE" is no declared constant |
| VmOpcode.NameExamples | vm/src/opcode.rs:190-238 | JUMPDEST is named "JUMPDEST" and 0x15 is named "IS_ZERO", not "ISZERO" |
| VmOpcode.GapsAreNameless | vm/src/opcode.rs:171-329 | the bytes 0x0B-0x0F, 0x1E-0x1F and 0x21-0x2F have no name |
| VmOpcode.LogToCreateGapIsNameless | vm/src/opcode.rs:171-329 | nothing between LOG4 and CREATE has a name |
| VmSemantics.ExecBinaryOp | vm/src/instruction.rs:13-247 | every binary handler pops the top, panics on a short stack and overwrites the new top with `BinResult` |
| VmSemantics.ByteToLimb3 | vm/src/instruction.rs:237-247 | BYTE's result is byte i of the word, counted from the low end, moved into the top 64-bit limb |
| VmInstruction.OpAdd | vm/src/instruction.rs:13-26 | pops x and overwrites y with x + y; panics on a short stack or when the sum leaves 256 bits |
| VmInstruction.OpSub | vm/src/instruction.rs:27-39 | overwrites y with x - y; panics on a short stack or when y > x |
| VmInstruction.OpMul | vm/src/instruction.rs:40-52 | overwrites y with x * y; panics on a short stack or overflow |
| VmInstruction.OpDiv | vm/src/instruction.rs:53-65 | overwrites y with x / y; panics on a short stack or a zero divisor |
| VmInstruction.OpMod | vm/src/instruction.rs:75-86 | keeps the quotient y / x of `div_mod`, not the remainder; panics on a short stack or x = 0 |
| VmInstruction.RepeatedMul | vm/src/instruction.rs:105-112 | the multiply loop returns b^e exactly when it fits in 256 bits and panics exactly when it does not |
| VmInstruction.OpExp | vm/src/instruction.rs:96-116 | overwrites the exponent with base^exponent, 1 for a zero exponent; panics on a short stack or overflow |
| VmInstruction.OpNot | vm/src/instruction.rs:117-124 | the complement is computed on a copy: the stack is unchanged; panics on an empty stack |
| VmInstruction.OpLt | vm/src/instruction.rs:125-138 | overwrites y with 1 when x < y, else 0 |
| VmInstruction.OpGt | vm/src/instruction.rs:139-151 | y is zeroed before the comparison, so the result is 1 exactly when x > 0 |
| VmInstruction.OpSlt | vm/src/instruction.rs:152-164 | y is zeroed first: the result is 1 exactly when x is 0 |
| VmInstruction.OpSgt | vm/src/instruction.rs:165-177 | y is zeroed first: the result is always 1 |
| VmInstruction.OpEq | vm/src/instruction.rs:178-191 | overwrites y with 1 when x = y, else 0 |
| VmInstruction.OpIsZero | vm/src/instruction.rs:192-202 | replaces the top with 1 when it is zero, else 0; panics on an empty stack |
| VmInstruction.OpAnd | vm/src/instruction.rs:203-216 | overwrites y with the bitwise AND of y and x |
| VmInstruction.OpOr | vm/src/instruction.rs:217-226 | overwrites y with the bitwise OR of y and x |
| VmInstruction.OpXor | vm/src/instruction.rs:227-236 | overwrites y with the bitwise XOR of y and x |
| VmInstruction.OpByte | vm/src/instruction.rs:237-247 | overwrites the value with `ByteToLimb3(th, value)`; panics on a short stack or th >= 32 |
| VmInstruction.OpSha3 | vm/src/instruction.rs:248-261 | pops the offset, peeks the size and reads the window with `get_copy`, hashing nothing; the size stays on top |
| VmInstruction.OpAddress | vm/src/instruction.rs:262-269 | pushes the contract address as a word |
| VmInstruction.OpCaller | vm/src/instruction.rs:277-285 | pushes the caller address as a word |
| VmInstruction.OpCallValue | vm/src/instruction.rs:286-292 | pushes 0 |
| VmInstruction.OpCallDataLoad | vm/src/instruction.rs:293-310 | replaces the offset with the 32 input bytes from it, zero-padded and read big-endian; panics when the offset leaves 64 bits |
| VmInstruction.OpCallDataSize | vm/src/instruction.rs:311-318 | pushes the input length |
| VmInstruction.CopyToMemory | vm/src/instruction.rs:319-341 | pops memory offset, data offset and length and writes the padded data slice with `set`; each failed `unwrap`, `as_u64` or `set` is a panic |
| VmInstruction.OpCallDataCopy | vm/src/instruction.rs:319-341 | CALLDATACOPY is the shared copy applied to the input |
| VmInstruction.OpReturnDataSize | vm/src/instruction.rs:342-350 | pushes the length of the interpreter's return data |
| VmInstruction.OpReturnDataCopy | vm/src/instruction.rs:351-366 | a non-zero data offset ends the handler with ReturnDataOutOfBounds; with offset 0 a non-zero length panics and a zero length copies nothing; three operands are popped |
| VmInstruction.OpCodeCopy | vm/src/instruction.rs:367-385 | CODECOPY is the shared copy applied to the code |
| VmInstruction.OpPop | vm/src/instruction.rs:386-392 | removes the top; panics on an empty stack |
| VmInstruction.OpCoinbase | vm/src/instruction.rs:393-400 | pushes 0 |
| VmInstruction.OpMLoad | vm/src/instruction.rs:401-414 | replaces the offset with the 32 bytes `get_copy` returns, reversed and read big-endian, with memory as `get_copy` leaves it |
| VmInstruction.OpMStore | vm/src/instruction.rs:415-426 | pops offset and value and applies `set32`, including its panics |
| VmInstruction.OpJump | vm/src/instruction.rs:427-439 | pops the destination and moves pc there, without checking for JUMPDEST |
| VmInstruction.OpJumpI | vm/src/instruction.rs:440-459 | pops destination and condition; a non-zero condition jumps to a valid JUMPDEST or reports InvalidJump; a zero condition advances pc by one |
| VmInstruction.OpJumpDest | vm/src/instruction.rs:460-465 | changes nothing |
| VmInstruction.OpMSize | vm/src/instruction.rs:466-473 | pushes the memory size |
| VmInstruction.OpReturn | vm/src/instruction.rs:509-520 | pops offset and size and hands back the memory window as output |
| VmInstruction.OpRevert | vm/src/instruction.rs:521-532 | the same as RETURN; the reverts flag makes the difference |
| VmInstruction.OpStop | vm/src/instruction.rs:533-537 | changes nothing |
| VmInstruction.MakeLog | vm/src/instruction.rs:559-613 | `swap(n)` comes first, so LOG0 always panics; then start, size and n topics are popped and the window read |
| VmInstruction.OpPush1 | vm/src/instruction.rs:616-632 | moves pc to the immediate byte and pushes it, or 0 past the end of the code |
| VmInstruction.MakePush | vm/src/instruction.rs:633-813 | pushes the next n code bytes, zero-padded past the end and read big-endian, then adds n to pc |
| VmInstruction.MakeDup | vm/src/instruction.rs:815-900 | DUPn pushes a copy of the n-th entry; panics when the stack is shorter than n |
| VmInstruction.MakeSwap | vm/src/instruction.rs:902-997 | SWAPn calls `swap(n + 1)`: the top trades places with the entry n below it |
| VmInstruction.Execute | vm/src/instruction.rs:13-997 | whichever handler an entry names, the context after it is the one `Exec` predicts, and a panic where `Exec` says so |
| VmSemanticsProps.ArithmeticAgreesUnlessItPanics | vm/src/instruction.rs:13-116 | ADD, SUB, MUL, DIV and EXP give the EVM result whenever they do not panic, and panic exactly where the EVM result wraps (for DIV, where the divisor is zero) |
| VmSemanticsProps.ComparisonsAgree | vm/src/instruction.rs:125-191 | LT and EQ agree with the EVM on all inputs |
| VmSemanticsProps.BitwiseAgree | vm/src/instruction.rs:203-236 | AND, OR and XOR agree with the EVM on all inputs, although they combine y with x |
| VmSemanticsProps.AndAgrees | vm/src/instruction.rs:203-216 | AND agrees with the EVM's AND |
| VmSemanticsProps.OrAgrees | vm/src/instruction.rs:217-226 | OR agrees with the EVM's OR |
| VmSemanticsProps.XorAgrees | vm/src/instruction.rs:227-236 | XOR agrees with the EVM's XOR |
| VmSemanticsProps.ModKeepsQuotient | vm/src/instruction.rs:75-86 | MOD gives y / x wherever it does not panic, so 7 mod 2 gives 0 where the EVM gives 1 |
| VmSemanticsProps.ComparisonsAgainstZero | vm/src/instruction.rs:139-177 | GT answers x > 0, SLT x = 0 and SGT always 1, whatever the second operand |
| VmSemanticsProps.SignedComparisonsDepart | vm/src/instruction.rs:152-177 | SLT says 2^255 is not below zero, and SGT says zero is greater than zero, unlike the signed comparisons |
| VmSemanticsProps.ByteCountsFromTheLowEnd | vm/src/instruction.rs:237-247 | BYTE counts from the least significant end and leaves its byte in the top limb |
| VmSemanticsProps.MStoreStep | vm/src/instruction.rs:415-426 | where `set32` succeeds, MSTORE drops both operands and leaves `set32`'s memory |
| VmSemanticsProps.MLoadStep | vm/src/instruction.rs:401-414 | MLOAD at an offset where memory ends with the encoding of v reads v |
| VmSemanticsProps.MLoadTail | vm/src/instruction.rs:401-414 | MLOAD of the last 32 bytes reads them little-endian and leaves memory as it is |
| VmSemanticsProps.MStoreThenMLoad | vm/src/instruction.rs:401-426 | MSTORE of v at an offset followed by MLOAD there gives v back, where `set32` succeeds and offset + 32 fits an i64 |
| VmSemanticsProps.MLoadPastEndIsZero | vm/src/instruction.rs:401-414 | MLOAD at or past the end of memory reads zero and leaves memory as it is |
| VmSemanticsProps.MStoreInsideMemoryPanics | vm/src/instruction.rs:415-426 | MSTORE panics whenever memory already extends beyond offset + 32 |
| VmSemanticsProps.PushReadsImmediate | vm/src/instruction.rs:633-658 | PUSHn pushes the big-endian value of the n bytes after pc, read as `get_byte` reads them, and leaves pc on the last of them |
| VmSemanticsProps.PushDataIsImmediate | vm/src/instruction.rs:633-658 | the clamped, padded code slice equals the n bytes `get_byte` returns after pc |
| VmSemanticsProps.Push1IsPushOne | vm/src/instruction.rs:616-658 | the dedicated PUSH1 handler has exactly the effect of `make_push(1, 1)` |
| VmSemanticsProps.JumpIsUnvalidated | vm/src/instruction.rs:427-439 | JUMP moves to any destination that fits a u64, JUMPDEST or not |
| VmSemanticsProps.JumpITarget | vm/src/instruction.rs:440-459 | a taken JUMPI lands on a JUMPDEST or reports InvalidJump; an untaken one moves to the next byte |
| VmSemanticsProps.LogZeroPanics | vm/src/instruction.rs:559-591 | LOG0 always panics |
| VmSemanticsProps.LogConsumesItsOperands | vm/src/instruction.rs:559-588 | LOGn consumes exactly n + 2 entries, and the two it reads as start and size are the top and the n-th entry below it after the swap |
| VmSemanticsProps.Sha3LeavesSizeOnTop | vm/src/instruction.rs:248-261 | SHA3 pops the offset and leaves the size operand on top |
| VmSemanticsProps.DupAndSwapPositions | vm/src/instruction.rs:815-908 | DUPn copies the n-th entry to the top; SWAPn exchanges the top with the entry n below it |
| VmJumpTable.GetInstructionSet | vm/src/jumptable.rs:45-1227 | the table's keys are exactly the bytes with an entry, each mapped to that entry |
| VmJumpTable.GetOperation | vm/src/jumptable.rs:1230-1236 | the operation for a byte is the instruction table's entry for it, None (the `expect` panic) exactly where the table has no key, and every entry's lower stack bound is at most its upper bound |
| VmJumpTable.GetOperationDefinedOnTable | vm/src/jumptable.rs:1230-1236 | `get_operation` succeeds exactly on the 29 single opcodes and the PUSH, DUP, SWAP and LOG ranges, and returns the table entry; any other byte panics in `expect` |
| VmJumpTable.PushEntry | vm/src/jumptable.rs:456-839 | PUSH1 has its own handler and PUSH2-32 use `make_push`, with no memory-size function, no flags and bounds (0, 1) |
| VmJumpTable.UnregisteredHandlersPanic | vm/src/jumptable.rs:1-9 | GT, SLT, SGT, OR, XOR, BYTE, CALLER, RETURNDATASIZE and RETURNDATACOPY have handlers but no table entry, so they panic like unassigned bytes |
| VmJumpTable.JumpsOnlyForJumps | vm/src/jumptable.rs:312-335 | only JUMP and JUMPI set the jumps flag |
| VmJumpTable.TerminationFlags | vm/src/jumptable.rs:360-455 | RETURN and STOP halt; REVERT alone reverts and returns data without halting; LOG0-4 alone write |
| VmJumpTable.HaltingFlags | vm/src/jumptable.rs:360-395 | halts exactly for RETURN and STOP, reverts exactly for REVERT |
| VmJumpTable.DataFlags | vm/src/jumptable.rs:372-455 | returns data exactly for REVERT, writes exactly for LOG0-4 |
| VmJumpTable.MemorySizeEntries | vm/src/jumptable.rs:45-1227 | SHA3, CALLDATACOPY, CODECOPY, MLOAD, MSTORE, RETURN, REVERT and LOG0-4 alone have a memory-size function |
| VmJumpTable.UnderflowPanics | vm/src/instruction.rs:13-997 | a handler given fewer entries than it pops panics in `unwrap` |
| VmJumpTable.StackEffect | vm/src/instruction.rs:13-997 | a handler that returns has removed exactly its pops and added exactly its pushes |
| VmJumpTable.MinStackIsOperandCount | vm/src/jumptable.rs:45-1227 | every entry's `min_stack` is the number of operands its handler pops |
| VmJumpTable.MaxStackIsHeadroom | vm/src/jumptable.rs:1032-1224 | `max_stack` is the stack limit plus pops minus pushes, except for SWAP1-16, whose DUP-style bounds count one push too many |
| VmJumpTable.EntryBounds | vm/src/jumptable.rs:45-1227 | both stack bounds of every entry, checked group by group |
| VmJumpTable.MemorySizeReadsOperands | vm/src/jumptable.rs:45-1227 | a memory-size function reads only operands within its entry's `min_stack`: on a stack that deep its `back` reads never panic and it returns the request computed from those operands |
| VmInterpreter.PreGrow | vm/src/interpreter.rs:67-76 | growth before the handler never touches the stack or the contract; it panics where the size function does |
| VmInterpreter.StepOnce | vm/src/interpreter.rs:57-117 | a pass that goes on keeps the contract and the return stack, and only ever sets `return_with_err` to 1; a pass that ends the run carries no output when it fails with an error other than a revert |
| VmInterpreter.Loop | vm/src/interpreter.rs:49-120 | the 1000th counter value breaks out with (None, None) and unchanged fields; every run ends with `return_with_err` kept or set to 1, and with no output after an error other than a revert |
| VmInterpreter.Run | vm/src/interpreter.rs:37-122 | a run from the given interpreter fields never clears `return_with_err`, and returns no output with an error other than a revert |
| VmInterpreter.LoopUnrolled | vm/src/interpreter.rs:50-118 | below the break, the loop is one step followed by the loop from the next counter, or the step's outcome when it ends the run |
| VmInterpreter.ContractCell.constructor | vm/src/interpreter.rs:37 | the cell holds the given contract |
| VmInterpreter.ContractCell.Take | vm/src/interpreter.rs:44 | `take` returns the contract and leaves the default one behind |
| VmInterpreter.Interpreter.constructor | vm/src/interpreter.rs:26-33 | a new interpreter has the given origin, no return data and a clear error flag |
| VmInterpreter.Interpreter.Step | vm/src/interpreter.rs:59-117 | one pass of the loop body does what `StepOnce` specifies: the same end, outcome, next pc, context and interpreter fields |
| VmInterpreter.Interpreter.ApplyFlags | vm/src/interpreter.rs:87-117 | after the handler: record return data (or the error flag) when the entry returns data, then stop on an error, on revert or on halt, keep pc for a jump and otherwise add one |
| VmInterpreter.Interpreter.RunContract | vm/src/interpreter.rs:37-122 | the result and the interpreter's fields afterwards are those of `Run`, a panic exactly where `Run` crashes; the cell is left with the default contract |
| VmRunProps.NoPreGrowth | vm/src/interpreter.rs:67-76 | with every operand below 2^64 the context reaches the handler unchanged |
| VmRunProps.LargeOffsetGrowsMemory | vm/src/interpreter.rs:67-76 | with an operand of 2^64 or more memory can grow before the handler: MLOAD at offset 2^64 + 5 grows it to 64 bytes |
| VmRunProps.PushAdvancesPastImmediate | vm/src/interpreter.rs:114-117 | PUSHn pushes the n bytes after pc and the loop continues n + 1 bytes further on: n inside the handler and 1 after it |
| VmRunProps.ErrorDiscardsOutput | vm/src/interpreter.rs:94-97 | a handler error ends the run with no output, even from RETURN or REVERT |
| VmRunProps.RevertRecordsOutput | vm/src/interpreter.rs:88-105 | REVERT ends the run with its output and ExecutionReverted after recording the output as return data, or flagging its absence |
| VmRunProps.HaltKeepsFields | vm/src/interpreter.rs:106-113 | RETURN and STOP end the run with their output and leave the interpreter fields alone |
| VmRunProps.EmptyCodeStops | vm/src/interpreter.rs:59 | empty code reads STOP at pc 0, so the run ends at once with (None, None) |
| VmRunProps.PushOneStep | vm/src/interpreter.rs:59-117 | a PUSH1 step pushes the next byte and moves two bytes on |
| VmRunProps.AddStep | vm/src/interpreter.rs:59-117 | an ADD step replaces the two top entries with their sum and moves one byte on |
| VmRunProps.MStoreStepAtZero | vm/src/interpreter.rs:59-117 | MSTORE of v at offset 0 of empty memory leaves the 32 little-endian bytes of v in memory |
| VmRunProps.StepThroughHandler | vm/src/interpreter.rs:59-117 | once the handler has returned, the rest of the step is decided by the entry's flags |
| VmRunProps.ReturnStep | vm/src/interpreter.rs:106-113 | RETURN of the whole 32-byte memory ends the run with that memory as output |
| VmRunProps.PushOneThenLoop | vm/src/interpreter.rs:50-118 | inside the loop, a PUSH1 step hands the next iteration the pushed byte, two bytes on |
| VmRunProps.TwoPushesThenLoop | vm/src/interpreter.rs:50-118 | two PUSH1 steps in a row push both bytes and move four bytes on |
| VmRunProps.AddThenLoop | vm/src/interpreter.rs:50-118 | an ADD step inside the loop |
| VmRunProps.MStoreAtZeroThenLoop | vm/src/interpreter.rs:50-118 | an MSTORE at offset 0 of empty memory inside the loop |
| VmRunProps.ReturnEndsLoop | vm/src/interpreter.rs:50-118 | a RETURN of the whole memory inside the loop ends the run with it |
| VmRunProps.AddAndReturnFirstHalf | vm/src/interpreter.rs:50-118 | the first four steps of PUSH1 a, PUSH1 b, ADD, PUSH1 0 leave the sum and 0 on the stack at pc 7 |
| VmRunProps.AddAndReturnSecondHalf | vm/src/interpreter.rs:50-118 | the last four steps store the sum, push 32 and 0 and return the 32 stored bytes |
| VmRunProps.AddAndReturnFrom | vm/src/interpreter.rs:50-118 | from the start, the program returns the 32 little-endian bytes of a + b |
| VmRunProps.AddAndReturnRun | vm/src/interpreter.rs:37-122 | running the add-and-return program yields a + b followed by 31 zero bytes, with no error and the interpreter fields unchanged |
| VmRunProps.RunStartsLoop | vm/src/interpreter.rs:37-50 | a run is the loop from counter 0 at pc 0 on the initial context |
| VmRunProps.JumpStep | vm/src/interpreter.rs:59-117 | JUMP moves to its destination whatever byte is there |
| VmRunProps.SpinRound | vm/src/interpreter.rs:50-118 | one round of PUSH1 0, JUMP returns to pc 0 with the stack as it was, two steps later |
| VmRunProps.SpinLastRound | vm/src/interpreter.rs:52-53 | the counter reaches 1000 right after the last PUSH1 and the loop breaks with (None, None) |
| VmRunProps.SpinFrom | vm/src/interpreter.rs:50-120 | from any even step count at pc 0, the spin runs out the step counter |
| VmRunProps.SpinIsCutOff | vm/src/interpreter.rs:50-120 | a program that never halts is cut off after 999 steps: the run returns (None, None) and leaves the interpreter fields alone |
| LedgerPool.FirstMatch | ledger/src/pool.rs:19-29 | the index of the first entry with the same recipient, nonce and data, and None exactly when there is none |
| LedgerPool.TxPool.constructor | ledger/src/pool.rs:10-12 | a new pool is empty |
| LedgerPool.TxPool.Push | ledger/src/pool.rs:14-16 | the transaction is appended at the end |
| LedgerPool.TxPool.Remove | ledger/src/pool.rs:18-33 | the scan-and-delete loop removes exactly the first matching entry, and leaves the pool unchanged when nothing matches |
| LedgerPool.RemovedLength | ledger/src/pool.rs:18-33 | removal takes out at most one entry, one exactly when there is a match |
| LedgerPool.RemovedKeepsOrder | ledger/src/pool.rs:32 | what is left keeps its order: entries before the removed one keep their index, later ones move down by one |
| LedgerPool.RemoveUndoesPush | ledger/src/pool.rs:14-33 | pushing a transaction the pool does not hold and then removing it restores the pool |
| LedgerPool.RemoveIgnoresFeesAndSignature | ledger/src/pool.rs:22-24 | removing a transaction that differs only in gas price, gas, value or signature removes the same entry |
| LedgerPool.FirstMatchRespectsIdentity | ledger/src/pool.rs:22-24 | the first match depends only on recipient, nonce and data |
| LedgerSqlUtil.ToH256 | ledger/src/sql_util.rs:8-16 | the blob, copied from index 0 into a zeroed 32-byte array: the blob followed by zero bytes |
| LedgerSqlUtil.ToU256 | ledger/src/sql_util.rs:3-6 | the blob read little-endian, so its first byte is the least significant, and below 256^len |
| LedgerSqlUtil.LeValuePadded | ledger/src/sql_util.rs:3-6 | zero padding at the high end does not change the little-endian value |
| LedgerTransaction.FromRawTransaction | ledger/src/transaction.rs:146-157 | identity and signature fields copied from the raw transaction, the rest left at the defaults of lines 160-175 |
| LedgerTransaction.DefaultTransaction | ledger/src/transaction.rs:160-175 | every number zero, the recipient, committer and state hash all-zero bytes, every byte string and the validator list empty |
| LedgerTransaction.FromSlice | ledger/src/transaction.rs:20 | an address is built exactly from a 20-byte slice, and from nothing else |
| LedgerTransaction.Hash160VectorFrom | ledger/src/transaction.rs:13-28 | as written: a length that is not a multiple of 20 gives no addresses, every other input panics |
| LedgerTransaction.Chunks | ledger/src/transaction.rs:13-28 | the intended cut of the bytes into 20-byte addresses: one address per 20 bytes |
| LedgerTransaction.Concat | ledger/src/transaction.rs:31-35 | the bytes of a list of addresses, 20 per address |
| LedgerTransaction.Hash160VectorFromChunks | ledger/src/transaction.rs:13-28 | corrected conversion: no addresses for a bad length, otherwise addresses whose concatenation is the input |
| LedgerTransaction.ChunksConcat | ledger/src/transaction.rs:13-28 | cutting then concatenating gives the bytes back |
| LedgerTransaction.ConcatChunks | ledger/src/transaction.rs:13-28 | concatenating then cutting gives the addresses back |
| LedgerTransaction.TwentyBytesHoldOneAddress | ledger/src/transaction.rs:15-27 | twenty zero bytes convert to the single zero address, an input on which the written conversion panics |
| LedgerTransaction.RawFields | ledger/src/transaction.rs:99-111 | a raw transaction is appended as nine fields |
| LedgerTransaction.EncodeRaw | ledger/src/transaction.rs:99-111 | a raw transaction encodes as a single list of its nine fields |
| LedgerTransaction.DecodeRaw | ledger/src/transaction.rs:114-127 | a decoded raw transaction is exactly what the first nine items of the first list spell |
| LedgerTransaction.RawRoundTrip | ledger/src/transaction.rs:99-127 | encoding a raw transaction gives one nine-item list, and decoding it gives the transaction back |
| LedgerTransaction.TransactionFields | ledger/src/transaction.rs:201-215 | a committed transaction is appended as eleven fields |
| LedgerTransaction.EncodeTransaction | ledger/src/transaction.rs:201-215 | as written, the list holds the first nine fields and the committer and validators follow it as two items of their own |
| LedgerTransaction.EncodeTransactionAsIntended | ledger/src/transaction.rs:201-215 | corrected, a transaction encodes as a single list of its eleven fields |
| LedgerTransaction.DecodeLeading | ledger/src/transaction.rs:218-230 | fields 0 to 9 decode to exactly what the first ten items of the first list spell |
| LedgerTransaction.DecodeTransaction | ledger/src/transaction.rs:218-233 | a decoded transaction is exactly what the first eleven items spell; a panic happens only when the eleventh item is present but not a list of 20-byte strings (`Hash160Vector::decode`, lines 38-46) |
| LedgerTransaction.ValidatorsNotAListPanics | ledger/src/transaction.rs:38-46 | a validators item that is a byte string makes decoding panic instead of returning an error |
| LedgerTransaction.TransactionDoesNotRoundTrip | ledger/src/transaction.rs:201-233 | as written, the list declared with 9 items closes early, two fields land outside it, and decoding fails for every transaction |
| LedgerTransaction.TransactionRoundTrip | ledger/src/transaction.rs:201-233 | with 11 items declared, decoding the encoding gives the transaction back |
| RlpItems.Close | ledger/src/transaction.rs:101 | `begin_list(n)`: the first n appended items form the list and the rest follow it; fewer than n items cannot be encoded |
| RlpItems.CloseAll | ledger/src/dirty_state.rs:58 | a list declared with as many items as are appended is exactly those items |
| RlpItems.Fields | ledger/src/transaction.rs:115-126 | decoding succeeds only when the stream starts with a list, and reads that list |
| RlpItems.U64At | ledger/src/transaction.rs:117 | `val_at` of an integer field: present, an integer, and in range for the target type |
| RlpItems.WordAt | ledger/src/transaction.rs:118 | `val_at` of a 256-bit field: present, an integer, and below 2^256 |
| RlpItems.BytesAt | ledger/src/transaction.rs:122 | `val_at` of a byte-vector field: present and a byte string |
| RlpItems.AddressAt | ledger/src/transaction.rs:120 | `val_at` of an address: a byte string of exactly 20 bytes |
| RlpItems.H256At | ledger/src/transaction.rs:228 | `val_at` of a hash: a byte string of exactly 32 bytes |
| RlpItems.AddressList | ledger/src/transaction.rs:31-35 | a validator list is appended as a list with one 20-byte string per address, in order |
| RlpItems.AddressListAt | ledger/src/transaction.rs:38-46 | `as_list::<H160>` succeeds exactly when every element is a 20-byte string, and keeps their order |
| RlpItems.AddressListRoundTrip | ledger/src/transaction.rs:31-46 | decoding an encoded validator list gives the list back |
| RlpItems.Size | ledger/src/dirty_state.rs:68 | `Rlp::size`: 0 for a list whatever it holds, the byte length for a byte string, and 0 exactly for the integer zero |
| RlpItems.At | ledger/src/dirty_state.rs:70 | `Rlp::at`, under `list_at`: succeeds exactly on a list and an index inside it, giving that item |
| KeyOrder.KeyLessIrreflexive | ledger/src/dirty_state.rs:44 | no key is smaller than itself under the derived byte order of `H256` and `Address` |
| KeyOrder.KeyLessAsymmetric | ledger/src/dirty_state.rs:44 | two keys are never each smaller than the other |
| KeyOrder.KeyLessTransitive | ledger/src/dirty_state.rs:44 | the key order is transitive |
| KeyOrder.KeyLessTotal | ledger/src/dirty_state.rs:44 | any two different keys are ordered one way or the other |
| KeyOrder.KeyLessAfterPrefix | ledger/src/dirty_state.rs:44 | keys with a common prefix compare by what follows it |
| LedgerDirtyState.FirstSmaller | ledger/src/dirty_state.rs:41-47 | the first index whose key is smaller than the new key, and None exactly when no key is smaller |
| LedgerDirtyState.Pos | ledger/src/dirty_state.rs:41-47 | the insertion position lies within the vector |
| LedgerDirtyState.GetPos | ledger/src/dirty_state.rs:41-47 | the loop returns the first index holding a smaller key, and 0 when there is none; lines 130-136 are the same loop over addresses |
| LedgerDirtyState.InsertAt | ledger/src/dirty_state.rs:35 | `Vec::insert`: the element at the position, earlier ones in place, later ones shifted by one |
| LedgerDirtyState.InsertAtEnd | ledger/src/dirty_state.rs:35 | inserting at the length appends |
| LedgerDirtyState.InsertAtKeeps | ledger/src/dirty_state.rs:35 | inserting a new key keeps the keys distinct and every earlier element |
| LedgerDirtyState.InsertAll | ledger/src/dirty_state.rs:31-38 | the loop over the map builds a vector with one element per pair |
| LedgerDirtyState.HoldsAfterInsert | ledger/src/dirty_state.rs:33-36 | each step moves one key from the pairs still to insert into the vector, wherever it is inserted |
| LedgerDirtyState.InsertedPairsBelong | ledger/src/dirty_state.rs:33-36 | after a step the vector holds only pairs of the map, each already taken |
| LedgerDirtyState.InsertedKeysCovered | ledger/src/dirty_state.rs:33-36 | after a step every key taken so far is in the vector |
| LedgerDirtyState.ListsWhenDone | ledger/src/dirty_state.rs:37 | with no key left the vector lists the map exactly |
| LedgerDirtyState.SortToVec | ledger/src/dirty_state.rs:31-38 | the vector holds every pair of the map exactly once, and is what the insertion loop makes of the iteration order taken; `DirtyStates` at lines 118-128 is the same loop |
| LedgerDirtyState.SortDependsOnIterationOrder | ledger/src/dirty_state.rs:30-47 | as written, the same two keys come out in different orders for different iteration orders, and one of them is not ascending |
| LedgerDirtyState.AscendingPos | ledger/src/dirty_state.rs:30-47 | corrected position: after every key not larger, before the first larger one |
| LedgerDirtyState.InsertAllAscending | ledger/src/dirty_state.rs:30-38 | the corrected loop builds a vector with one element per pair |
| LedgerDirtyState.InsertAscendingKeepsOrder | ledger/src/dirty_state.rs:30-47 | the corrected insertion keeps an ascending vector ascending |
| LedgerDirtyState.InsertAtOrdered | ledger/src/dirty_state.rs:30-47 | inserting between the smaller and the larger keys keeps any two positions ordered |
| LedgerDirtyState.InsertAtMembers | ledger/src/dirty_state.rs:35 | insertion adds the element and loses nothing |
| LedgerDirtyState.DistinctKeysPrefix | ledger/src/dirty_state.rs:25 | a prefix of a vector with distinct keys has distinct keys |
| LedgerDirtyState.KeyNotAmongEarlier | ledger/src/dirty_state.rs:25 | the key the loop takes next is not yet in the vector |
| LedgerDirtyState.SortedAscending | ledger/src/dirty_state.rs:30-38 | the corrected sort gives an ascending vector holding exactly the input pairs |
| LedgerDirtyState.TailWithin | ledger/src/dirty_state.rs:30 | two ascending vectors with the same head keep their containment after it |
| LedgerDirtyState.AscendingUnique | ledger/src/dirty_state.rs:30 | two ascending vectors with the same elements are equal |
| LedgerDirtyState.SortIsCanonical | ledger/src/dirty_state.rs:30-38 | corrected, the vector is the same ascending one for every iteration order of the map |
| LedgerDirtyState.CloneKeyValues | ledger/src/dirty_state.rs:82-90 | the clone holds exactly the same slots |
| LedgerDirtyState.KeyValueItems | ledger/src/dirty_state.rs:7-13 | each pair is appended as a two-item list of key then value |
| LedgerDirtyState.KeyValueOf | ledger/src/dirty_state.rs:70-74 | an element decodes when it is a list of 32-byte strings with at least two entries, giving the first two as key and value |
| LedgerDirtyState.KeyValueRoundsStick | ledger/src/dirty_state.rs:69-75 | once a round of the decode loop panics, every longer run of rounds panics |
| LedgerDirtyState.KeyValuesDecodedOutcome | ledger/src/dirty_state.rs:65-78 | as written, a list of any length and an empty data item decode to the empty map (the loop runs `rlp.size()` rounds, 0 for a list), and any other data item panics at `list_at(0)` |
| LedgerDirtyState.KeyValueLoop | ledger/src/dirty_state.rs:69-75 | the loop, run for a given number of rounds, gives exactly the map those rounds build, or the panic |
| LedgerDirtyState.DecodeKeyValues | ledger/src/dirty_state.rs:65-78 | the as-written decoder: the empty map for every list, a panic for a non-empty data item |
| LedgerDirtyState.DecodeFailureSticks | ledger/src/dirty_state.rs:69-75 | in the decoder bounded by the item count, a bad element makes the whole decode panic |
| LedgerDirtyState.DecodeKeyValuesByCount | ledger/src/dirty_state.rs:65-78 | the corrected decoder, with `item_count()` as the loop bound: refuses a data item and inserts every element's pair in order, later keys overwriting earlier ones |
| LedgerDirtyState.DecodePrefix | ledger/src/dirty_state.rs:56-78 | decoding by item count the first n encoded pairs gives exactly those pairs |
| LedgerDirtyState.DecodeOneMore | ledger/src/dirty_state.rs:71-74 | decoding by item count one more encoded pair adds it to the map |
| LedgerDirtyState.DecodeListed | ledger/src/dirty_state.rs:56-78 | decoding by item count the encoding of a vector that lists a map gives the map back |
| LedgerDirtyState.KeyValuesLostOnDecode | ledger/src/dirty_state.rs:68 | the encoding of any map decodes, as written, to the empty map, so a non-empty map is lost; decoded by item count it comes back |
| LedgerDirtyState.SameMap | ledger/src/dirty_state.rs:65-78 | two maps with the same keys and values as one listing are equal |
| LedgerDirtyState.AppendKeyValues | ledger/src/dirty_state.rs:59-61 | the append loop yields one key-value list per pair, in vector order |
| LedgerDirtyState.EncodeKeyValues | ledger/src/dirty_state.rs:56-63 | the encoding is one list with one item per slot; the as-written decoder reads it as the empty map, and the decoder bounded by the item count gives the slots back |
| LedgerDirtyState.AppendStates | ledger/src/dirty_state.rs:95-101 | each account is appended as its address and its encoded slots (appended by lines 148-150) |
| LedgerDirtyState.EncodeStates | ledger/src/dirty_state.rs:145-152 | one list with one item per account, each item an address of the map with that account's slots decoding back by item count; the as-written decoder reads it as no accounts at all |
| LedgerDirtyState.StateRoundsStick | ledger/src/dirty_state.rs:158-161 | once a round of the `DirtyStates` decode loop panics, every longer run of rounds panics |
| LedgerDirtyState.StatesDecodedOutcome | ledger/src/dirty_state.rs:154-163 | as written, a list and an empty data item decode to no accounts (the loop bound `rlp.size()` is 0 for a list), and any other data item panics at `val_at(0)` |
| LedgerDirtyState.StateLoop | ledger/src/dirty_state.rs:158-161 | the loop, run for a given number of rounds, gives exactly the accounts those rounds decode (each by `DirtyState::decode`, lines 103-110), or the panic |
| LedgerDirtyState.DecodeStates | ledger/src/dirty_state.rs:154-163 | the as-written decoder: no accounts for every list, a panic for a non-empty data item |
| HttpText.Find | basic-http/src/request.rs:29 | the leftmost occurrence of a separator, and None exactly when it does not occur |
| HttpText.FindIs | basic-http/src/request.rs:29 | an occurrence with none before it is the one found |
| HttpText.Split | basic-http/src/request.rs:107 | `str::split` yields at least one piece |
| HttpText.SplitAtFound | basic-http/src/request.rs:29-31 | the first piece is the text before the first occurrence, the rest is the split of what follows it |
| HttpText.ReplaceAtEnd | basic-http/src/response.rs:30 | replacing a separator that occurs only at the end replaces just that one |
| HttpText.SplitJoin | basic-http/src/request.rs:107 | joining the pieces with the separator gives the text back |
| HttpText.SplitPiecesHaveNoSeparator | basic-http/src/request.rs:107 | no piece of a split contains the separator |
| HttpText.FreeHasNoOccurrence | basic-http/src/request.rs:113 | a text without the separator's first character does not contain it |
| HttpText.FindAfterFree | basic-http/src/request.rs:113 | the first occurrence after a separator-free piece is right after that piece |
| HttpText.SplitAfterFree | basic-http/src/request.rs:113-116 | the split of a separator-free piece, the separator and more is that piece, then the split of the rest |
| HttpText.SplitOfJoin | basic-http/src/request.rs:107 | splitting separator-free pieces joined by the separator gives the pieces back |
| HttpText.JoinAppend | basic-http/src/request.rs:107 | joining is associative in the pieces |
| HttpText.SplitPiecesFree | basic-http/src/request.rs:107 | every piece of a split lacks any character the text lacks |
| HttpText.JoinFree | basic-http/src/request.rs:107 | joining pieces that lack a character, with a separator that lacks it, gives a text that lacks it |
| HttpText.FreeReplace | basic-http/src/response.rs:30 | `replace` with text lacking a character keeps the text lacking it |
| HttpText.OccursShifted | basic-http/src/request.rs:29 | dropping k characters moves every occurrence k places to the left |
| HttpText.NoBlankLineAcrossFirst | basic-http/src/request.rs:29 | a clean first line and CRLF add no blank line in front of the rest |
| HttpText.BlankLineAfterHead | basic-http/src/request.rs:29 | after clean head lines joined by CRLF, the first blank line is the one that ends the head |
| BasicHttpHeader.Pairs | basic-http/src/header.rs:42-48 | one (name, value) pair per listed name, in order, with the map's value |
| BasicHttpHeader.FieldTexts | basic-http/src/header.rs:30-35 | one "name: value" text per listed name, in order |
| BasicHttpHeader.HttpHeader.Default | basic-http/src/header.rs:5-9 | a default header has no fields |
| BasicHttpHeader.HttpHeader.FromMap | basic-http/src/header.rs:11-15 | the header holds exactly the given map |
| BasicHttpHeader.HttpHeader.Clone | basic-http/src/header.rs:17-25 | the entry-by-entry copy is a new header with the same fields |
| BasicHttpHeader.HttpHeader.Headers | basic-http/src/header.rs:42-48 | the pairs list every field exactly once, in the iteration order taken |
| BasicHttpHeader.HttpHeader.ToString | basic-http/src/header.rs:27-39 | one "name: value" line ended by CRLF per field, in the iteration order taken, then a blank line |
| BasicHttpHeader.HttpHeader.AddHeader | basic-http/src/header.rs:50-56 | a name already present is refused with the fields unchanged; otherwise the field is inserted |
| BasicHttpHeader.HttpHeader.RemoveHeader | basic-http/src/header.rs:58-64 | the field is gone afterwards, and the result says whether it was there |
| BasicHttpHeader.AddThenRemove | basic-http/src/header.rs:50-64 | adding a new name and removing it restores the fields |
| BasicHttpHeader.EmptyRendersBlankLine | basic-http/src/header.rs:27-39 | a header with no fields renders as a bare CRLF |
| BasicHttpHeader.PairsRebuild | basic-http/src/header.rs:17-25 | inserting the listed pairs into an empty map, in any iteration order, rebuilds the fields, so `headers` (lines 42-48) loses nothing |
| BasicHttpHeader.PairsRebuildPrefix | basic-http/src/header.rs:17-25 | inserting a prefix of the pairs gives exactly the fields named so far |
| BasicHttpHeader.RenderAsJoin | basic-http/src/header.rs:27-39 | a first line, CRLF and the rendered header are those lines joined by CRLF, then a blank line |
| BasicHttpHeader.LinesAsJoin | basic-http/src/header.rs:30-35 | the field lines after a first line are the lines joined by CRLF, then CRLF |
| BasicHttpBody.HttpBody.Default | basic-http/src/body.rs:20-27 | empty plain text |
| BasicHttpBody.HttpBody.FromStr | basic-http/src/body.rs:29-36 | plain text holding the given string |
| BasicHttpBody.HttpBody.Clone | basic-http/src/body.rs:14-18 | a new body with the same kind and text |
| BasicHttpBody.HttpBody.AppendStr | basic-http/src/body.rs:61-63 | the text grows at the end by the argument; the kind stays |
| BasicHttpBody.HttpBody.SetData | basic-http/src/body.rs:69-71 | the text is replaced; the kind stays |
| BasicHttpBody.HttpBody.Clear | basic-http/src/body.rs:77-79 | the text becomes empty; the kind stays |
| BasicHttpBody.HttpBody.Data | basic-http/src/body.rs:53-57 | `data` and `to_string` return the stored text (`data` at lines 73-75) |
| BasicHttpStatus.CodeRoundTrip | basic-http/src/status.rs:6-19 | the twelve discriminants are distinct, so a status's number identifies it |
| BasicHttpStatus.Code | basic-http/src/status.rs:6-19 | every discriminant is a three-digit 2xx-5xx number that identifies its status |
| BasicHttpStatus.CodeAsStrName | basic-http/src/status.rs:21-36 | every reason phrase is non-empty and made of letters and spaces only |
| BasicHttpStatus.CodeClasses | basic-http/src/status.rs:6-19 | the successes are 2xx, the client errors 4xx and the server errors 5xx, in both directions |
| BasicHttpStatus.NamesDistinct | basic-http/src/status.rs:21-36 | no two statuses share a reason phrase |
| BasicHttpStatus.Clone | basic-http/src/status.rs:45-54 | the clone equals the original, field by field |
| BasicHttpRequest.Decode | basic-http/src/request.rs:27-28 | lossy decoding gives one character per byte |
| BasicHttpRequest.ExtractStartLine | basic-http/src/request.rs:84-103 | a blank line or one the method expression does not match is refused; otherwise the first three space-separated tokens become method, path and version with code 200, and fewer tokens panic |
| BasicHttpRequest.FieldOf | basic-http/src/request.rs:113-117 | a header line without ": " panics; otherwise its first two tokens are name and value |
| BasicHttpRequest.HeaderFields | basic-http/src/request.rs:112-118 | one field per line in order, and a panic exactly when some line has no ": " |
| BasicHttpRequest.ExtractHeader | basic-http/src/request.rs:105-122 | the loop refuses what the start line refuses, panics on a line without ": ", and otherwise inserts the fields in order, later names overwriting earlier ones |
| BasicHttpRequest.HeaderOf | basic-http/src/request.rs:105-122 | the header is refused exactly when its start line is; a parsed one has code 200 and every later line holds ": " |
| BasicHttpRequest.HeaderFieldsExtend | basic-http/src/request.rs:112-118 | each further line either panics the parse or adds its field at the end |
| BasicHttpRequest.HeaderFieldsPrefixFails | basic-http/src/request.rs:112-118 | once a line panics, the whole header panics |
| BasicHttpRequest.FromText | basic-http/src/request.rs:26-56 | the request is refused exactly when its head is refused |
| BasicHttpRequest.BodyText | basic-http/src/request.rs:29-36 | the body kept holds no blank line |
| BasicHttpRequest.FromRawRequest | basic-http/src/request.rs:26-56 | a length past the 8096-byte buffer panics; a parsed request has code 200 and a body without a blank line |
| BasicHttpRequest.BodyBetweenBlankLines | basic-http/src/request.rs:29-36 | the body is empty without a blank line, and otherwise the text up to a second blank line, which is dropped with what follows |
| BasicHttpRequest.RejectedIffStartLineRejected | basic-http/src/request.rs:38-53 | parsing is refused exactly when the start line is (lines 108-110) |
| BasicHttpRequest.LineWithoutColonPanics | basic-http/src/request.rs:113-116 | a header line without ": " after an accepted start line panics the parse |
| BasicHttpRequest.FindAfterColon | basic-http/src/request.rs:113 | ": " right after a piece that lacks it is its first occurrence |
| BasicHttpRequest.FieldValueTruncated | basic-http/src/request.rs:113-116 | a field line parses to its name and value, and any further ": " and text after the value are dropped |
| BasicHttpRequest.FieldOfFieldText | basic-http/src/request.rs:113-116 | a line "name: value" whose name and value hold no ": " splits back into exactly that name and value |
| BasicHttpRequest.FieldOfLongerLine | basic-http/src/request.rs:113-116 | a line "name: value: rest" yields the name and value and drops the rest, since only the first two tokens are read |
| BasicHttpRequest.LastFieldWins | basic-http/src/request.rs:114-117 | a name takes the value of the last line that carries it |
| BasicHttpRequest.FieldsOfRendered | basic-http/src/request.rs:112-118 | parsing rendered field lines gives back the pairs they were rendered from |
| BasicHttpRequest.HeadAndBody | basic-http/src/request.rs:29-36 | clean head lines, a blank line and a body split back into the head lines and the body (the split on line 107) |
| BasicHttpRequest.StartLineRoundTrip | basic-http/src/request.rs:59-63 | a start line of three single tokens that the expression accepts parses back to its status (as the parser of lines 84-103 reads it) |
| BasicHttpRequest.HeadLinesClean | basic-http/src/request.rs:59-68 | the head lines of a well-formed request are non-empty and hold no carriage return |
| BasicHttpRequest.RequestToString | basic-http/src/request.rs:59-68 | the text starts with the start line and CRLF and ends with the body |
| BasicHttpRequest.RequestRoundTrip | basic-http/src/request.rs:26-68 | parsing the `to_string` text of a well-formed request, in any header iteration order, gives the request back |
| BasicHttpResponse.ToAsciiLowercase | basic-http/src/response.rs:69 | same length, upper-case ASCII letters lowered, everything else kept |
| BasicHttpResponse.Reserved | basic-http/src/response.rs:68-84 | "content-length" and "date" are reserved, and every reserved name has the length of one of them |
| BasicHttpResponse.StatusText | basic-http/src/response.rs:18-19 | the status line starts with "HTTP/1.1 " and ends with the reason phrase |
| BasicHttpResponse.ResponseText | basic-http/src/response.rs:15-37 | as written, the text ends with CRLF and the body |
| BasicHttpResponse.HttpResponse.FromStream | basic-http/src/response.rs:48-55 | code 200, no header fields, empty plain-text body |
| BasicHttpResponse.HttpResponse.SetCode | basic-http/src/response.rs:57-59 | the code is replaced and nothing else changes |
| BasicHttpResponse.HttpResponse.GetHeader | basic-http/src/response.rs:61-66 | true exactly when a field has that name, letter case included |
| BasicHttpResponse.HttpResponse.AddHeader | basic-http/src/response.rs:68-76 | "content-length" and "date", in any letter case, are ignored; other names are added as the header adds them |
| BasicHttpResponse.HttpResponse.RemoveHeader | basic-http/src/response.rs:78-84 | the reserved names are refused; other names are removed as the header removes them |
| BasicHttpResponse.HttpResponse.WriteStr | basic-http/src/response.rs:90-93 | the body grows at the end |
| BasicHttpResponse.HttpResponse.SetData | basic-http/src/response.rs:99-101 | the body text is replaced |
| BasicHttpResponse.HttpResponse.ClearBuffer | basic-http/src/response.rs:103-105 | the body text becomes empty |
| BasicHttpResponse.HttpResponse.ToString | basic-http/src/response.rs:15-37 | the text is the written rendering for the current time and the iteration order taken |
| BasicHttpResponse.ReservedIgnoresCase | basic-http/src/response.rs:68-84 | "Content-Length", "CONTENT-LENGTH" and "Date" are reserved; "content-type" is not |
| BasicHttpResponse.DecimalFree | basic-http/src/response.rs:24 | the content length's digits hold no carriage return |
| BasicHttpResponse.NameFree | basic-http/src/status.rs:21-36 | no reason phrase holds a carriage return |
| BasicHttpResponse.StatusTextFree | basic-http/src/response.rs:18-19 | the status line is non-empty and holds no carriage return |
| BasicHttpResponse.DateLineFree | basic-http/src/response.rs:20-23 | the date line holds no carriage return when the time text holds none |
| BasicHttpResponse.LengthLineFree | basic-http/src/response.rs:24 | the content-length line holds no carriage return |
| BasicHttpResponse.FieldTextFree | basic-http/src/header.rs:30-35 | a field line holds no carriage return when name and value hold none |
| BasicHttpResponse.HeadLinesClean | basic-http/src/response.rs:25-28 | every head line of a clean response is non-empty and holds no carriage return |
| BasicHttpResponse.ThreeLinesAndRender | basic-http/src/response.rs:25-28 | three lines and the rendered header are the lines and fields joined by CRLF, then a blank line |
| BasicHttpResponse.HeadBlockAsJoin | basic-http/src/response.rs:25-28 | the head block is its lines joined by CRLF, then a blank line |
| BasicHttpResponse.CollapsedHead | basic-http/src/response.rs:30 | collapsing the blank lines of a clean head leaves its lines ended by one CRLF |
| BasicHttpResponse.LayoutOf | basic-http/src/response.rs:25-34 | clean head lines, a blank line and more: the head is those lines, and the rest follows the first blank line |
| BasicHttpResponse.CollapsedLayout | basic-http/src/response.rs:29-34 | a collapsed head followed by CRLF ends in one blank line |
| BasicHttpResponse.AppendedLineLayout | basic-http/src/response.rs:29-34 | a collapsed head with the content-type line added ends in one blank line, with that line last |
| BasicHttpResponse.DefaultContentTypeFree | basic-http/src/response.rs:31 | the default content-type line is non-empty and holds no carriage return |
| BasicHttpResponse.ResponseWithoutContentType | basic-http/src/response.rs:15-37 | without a "content-type" field: status line, date, length, fields and the default type form the head, and the body follows the first blank line exactly |
| BasicHttpResponse.ResponseWithContentTypeShiftsBody | basic-http/src/response.rs:29-34 | as written, with a "content-type" field, a CRLF comes before the body, two characters the content length does not count |
| BasicHttpResponse.ResponseTextKeepsHead | basic-http/src/response.rs:29-34 | with a "content-type" field nothing is replaced: the text is the head lines joined by CRLF, the blank line, then CRLF and the body |
| BasicHttpResponse.JsonResponseLosesBody | basic-http/src/response.rs:15-37 | as written, a JSON response with body "{}" shows CRLF as its two-character body |
| BasicHttpResponse.ResponseAsIntendedLayout | basic-http/src/response.rs:15-37 | corrected, with or without a content type, the head ends in one blank line and the body follows it exactly |
| BasicHttpResponse.ResponseTextAsIntended | basic-http/src/response.rs:29-34 | corrected, the text ends with CRLF and the body, and without a content type it is the written text unchanged |
| BasicHttpServer.HttpServer.constructor | basic-http/src/server.rs:17-32 | the given address, no handlers, and the options copied entry by entry, or none |
| BasicHttpServer.HttpServer.AppendHandler | basic-http/src/server.rs:34-40 | a path already routed is refused with nothing changed; otherwise its handler is registered |
| BasicHttpServer.HttpServer.HandleConnection | basic-http/src/server.rs:50-70 | a refused request shuts the stream, a parser panic aborts, and a parsed request goes to its path's handler or is dropped |
| BasicHttpServer.Dispatch | basic-http/src/server.rs:54-69 | a refused request shuts down, a panic aborts, and a parsed request is handed, unchanged, to the handler registered for its path exactly when there is one |
| BasicHttpServer.AppendKeepsOtherRoutes | basic-http/src/server.rs:34-40 | registering a new path changes the routing of no other path, as the lookup at lines 61-69 sees it |
| BasicHttpServer.RenderedRequestReachesHandler | basic-http/src/server.rs:50-70 | a well-formed request, rendered in any header order, reaches its path's handler unchanged, or is dropped when the path has none |

## Left out

- Sockets and I/O. The model leaves out `HttpServer::bind`, the stream read in `handle_connection`, the stream inside `HttpResponse` and `HttpResponse::send`. `HandleConnection` takes the bytes of one read as its argument and returns what happens to them. `FromStream` builds a response without a stream.
- The handler call itself. A handler is a plain Rust `fn` that receives the request and a response. Here handlers are values of a type parameter, and `HandleConnection` reports which handler would be called with which request.
- Options of the server are boxed values of any type; they are a type parameter.
- `Ipv4Addr::from_str` in `HttpServer::new` is not modelled. The constructor takes the four octets already parsed.
- BasicHttpServer.HttpServer.constructor: requires four octets, because an address that does not parse panics in the source and parsing is not modelled.
- The regular expression in `extract_start_line` is the predicate parameter `matches`. The `regex` crate is not part of this model.
- `String::from_utf8_lossy` reads each byte as the character with that code. Multi-byte UTF-8 sequences and the replacement character are not modelled.
- Response text is built over characters. `content-length` is therefore the number of characters in the body, which equals the source's byte length only for ASCII bodies.
- The date in `HttpResponse::to_string` is a parameter: the RFC 2822 text of the current time. The clock and `chrono` are not part of this model.
- `serde_json` is not modelled. This leaves out `HttpBody::from(Value)`, `append_json` and `HttpResponse::write_json`. `check_type` takes a small JSON value datatype in which only the string case carries data.
- `HttpRequest`'s getters and `HttpStatus::new` with its getters are the fields and constructor of the `HttpRequest` and `HttpStatus` datatypes. `HttpResponse::headers` is `BasicHttpHeader.HttpHeader.Headers` on the response's header.
- The byte-level RLP encoding (Yellow Paper, Appendix B) is not modelled. Encoding yields a sequence of items (integers, byte strings, lists), and decoding reads items back from that sequence.
- `Hash256Vector` and its RLP conversions are not modelled; no modelled operation uses them.
- `DirtyKeyValue` and `DirtyState` are not modelled as separate types. Their encodings appear inside `EncodeKeyValues` and `EncodeStates`.
- A corrected `DirtyStates::decode` (bounded by the item count) is not modelled; only the as-written one is (`DecodeStates`). The corrected decoder is modelled for the slots of one account (`DecodeKeyValuesByCount`).
- LedgerDirtyState.DecodeKeyValuesByCount: a data item is refused as None, which does not tell the error `item_count()?` would return from a panic.
- SQLite persistence is not modelled: `TransactionTable`, `TransactionTableManager` and `Transaction::from(&Row)`. `to_h256` and `to_u256` are modelled on the blobs they receive.
- Cryptography is not modelled. This leaves out `RawTransaction::get_sender` (secp256k1 recovery and keccak).
- SHA3's hash is not modelled; the handler in the source computes none.
- The per-step `sleep` is not modelled. Neither are `Ledger::new` and `VirtualMachine::new` in the interpreter loop, which build values the handlers ignore.
- The `print_*` diagnostics (`print_stack`, `print_memory`) and the printing in `make_log` are not modelled.
- `constants.rs` is not part of this model. `StackLimit` is taken as 1024, the EVM stack limit.
- VmStack.Stack.Swap: requires 1 <= n <= size. Outside that range the source indexes out of range and panics. The handlers that call it check the size first and model that panic as an outcome.
- VmStack.Stack.Dup: requires 1 <= n <= size, for the same reason.
- VmStack.Stack.Back: requires n < size, for the same reason.
- VmStack.Stack.SetTop: requires a non-empty stack, where the source's `peek().unwrap()` would panic.
- VmStack.MaxStack: requires both the intermediate sum `StackLimit + pops` and the result to fit in `i16`. The source evaluates left to right, and its debug build panics when either overflows, even where the final result would fit.
- VmStack.MaxDupStack: requires `n + 1` and the intermediate sum `StackLimit + n` to fit in `i16`, for the same reason.
- VmStack.MaxSwapStack: requires the intermediate sum `StackLimit + n` to fit in `i16`, for the same reason.
- VmStack.MinDupStack: requires `n + 1` to fit in `i16`, for the same reason.
- LedgerSqlUtil.ToH256: requires at most 32 bytes. A longer blob writes past the 32-byte array and panics in the source.
- LedgerSqlUtil.ToU256: requires at most 32 bytes, as it calls `to_h256`.
- The interpreter loop is bounded at 999 steps, as in the source, so no further fuel bound is needed.

## Findings

| source | as written | input that shows it | evidently intended | confidence | as-written member | corrected member |
|---|---|---|---|---|---|---|
| ledger/src/transaction.rs:19 | the loop tests `value.len() % 20`, which never changes, so `from_slice` is handed a buffer holding fewer than 20 bytes and panics | 20 zero bytes | the bytes cut into consecutive 20-byte addresses, giving the single zero address | not executed | LedgerTransaction.Hash160VectorFrom | LedgerTransaction.Hash160VectorFromChunks |
| ledger/src/transaction.rs:203 | `begin_list(9)` for a transaction that appends 11 fields, so committer and validators fall outside the list and decoding at index 9 fails | any transaction, e.g. the default one | a list declared with 11 items, which decodes back to the transaction | not executed | LedgerTransaction.TransactionDoesNotRoundTrip | LedgerTransaction.TransactionRoundTrip |
| ledger/src/dirty_state.rs:41-47 | `get_pos` places a new key before the first smaller key, so the vector is neither ascending nor independent of the map's iteration order | keys ending in 1 then 2 give [2, 1]; in the other order they give [1, 2] | insertion before the first larger key, giving the one ascending vector the doc comment promises | not executed | LedgerDirtyState.SortDependsOnIterationOrder | LedgerDirtyState.SortIsCanonical |
| basic-http/src/response.rs:29-34 | with a "content-type" field the head is left ending in its blank line and another CRLF is pushed, so the client reads CRLF as the first two body characters | a handler that sets "content-type: application/json" and the body "{}" | the head ends in one blank line whether or not a content type is set, and the body follows it | not executed | BasicHttpResponse.ResponseWithContentTypeShiftsBody | BasicHttpResponse.ResponseAsIntendedLayout |
| ledger/src/dirty_state.rs:68 | the decode loop runs `rlp.size()` times, which is 0 for a list, so no slot is ever read; `DirtyStates::decode` at line 157 has the same bound | the encoding of any non-empty map of slots, e.g. one slot, which decodes to the empty map | `rlp.item_count()?` as the bound, so every encoded slot is read back | not executed | LedgerDirtyState.KeyValuesLostOnDecode | LedgerDirtyState.DecodeListed |
