// The opcode byte values of the interpreter and their display names.
module VmOpcode {
  import opened EthTypes

  type OpCode = u8

  const STOP: OpCode := 0x00
  const ADD: OpCode := 0x01
  const MUL: OpCode := 0x02
  const SUB: OpCode := 0x03
  const DIV: OpCode := 0x04
  const SDIV: OpCode := 0x05
  const MOD: OpCode := 0x06
  const SMOD: OpCode := 0x07
  const ADDMOD: OpCode := 0x08
  const MULMOD: OpCode := 0x09
  const EXP: OpCode := 0x0A
  const LT: OpCode := 0x10
  const GT: OpCode := 0x11
  const SLT: OpCode := 0x12
  const SGT: OpCode := 0x13
  const EQ: OpCode := 0x14
  const ISZERO: OpCode := 0x15
  const AND: OpCode := 0x16
  const OR: OpCode := 0x17
  const XOR: OpCode := 0x18
  const NOT: OpCode := 0x19
  const BYTE: OpCode := 0x1A
  const SHL: OpCode := 0x1B
  const SHR: OpCode := 0x1C
  const SAR: OpCode := 0x1D
  const SHA3: OpCode := 0x20
  const ADDRESS: OpCode := 0x30
  const BALANCE: OpCode := 0x31
  const ORIGIN: OpCode := 0x32
  const CALLER: OpCode := 0x33
  const CALLVALUE: OpCode := 0x34
  const CALLDATALOAD: OpCode := 0x35
  const CALLDATASIZE: OpCode := 0x36
  const CALLDATACOPY: OpCode := 0x37
  const CODESIZE: OpCode := 0x38
  const CODECOPY: OpCode := 0x39
  const GASPRICE: OpCode := 0x3A
  const EXTCODESIZE: OpCode := 0x3B
  const EXTCODECOPY: OpCode := 0x3C
  const RETURNDATASIZE: OpCode := 0x3D
  const RETURNDATACOPY: OpCode := 0x3E
  const EXTCODEHASH: OpCode := 0x3F
  const BLOCKHASH: OpCode := 0x40
  const COINBASE: OpCode := 0x41
  const TIMESTAMP: OpCode := 0x42
  const NUMBER: OpCode := 0x43
  const DIFFICULTY: OpCode := 0x44
  const GASLIMIT: OpCode := 0x45
  const CHAINID: OpCode := 0x46
  const SELFBALANCE: OpCode := 0x47
  const POP: OpCode := 0x50
  const MLOAD: OpCode := 0x51
  const MSTORE: OpCode := 0x52
  const MSTORE8: OpCode := 0x53
  const SLOAD: OpCode := 0x54
  const SSTORE: OpCode := 0x55
  const JUMP: OpCode := 0x56
  const JUMPI: OpCode := 0x57
  const PC: OpCode := 0x58
  const MSIZE: OpCode := 0x59
  const GAS: OpCode := 0x5A
  const JUMPDEST: OpCode := 0x5B
  const BEGINSUB: OpCode := 0x5C
  const RETURNSUB: OpCode := 0x5D
  const JUMPSUB: OpCode := 0x5E
  const PUSH1: OpCode := 0x60
  const PUSH2: OpCode := 0x61
  const PUSH3: OpCode := 0x62
  const PUSH4: OpCode := 0x63
  const PUSH5: OpCode := 0x64
  const PUSH6: OpCode := 0x65
  const PUSH7: OpCode := 0x66
  const PUSH8: OpCode := 0x67
  const PUSH9: OpCode := 0x68
  const PUSH10: OpCode := 0x69
  const PUSH11: OpCode := 0x6A
  const PUSH12: OpCode := 0x6B
  const PUSH13: OpCode := 0x6C
  const PUSH14: OpCode := 0x6D
  const PUSH15: OpCode := 0x6E
  const PUSH16: OpCode := 0x6F
  const PUSH17: OpCode := 0x70
  const PUSH18: OpCode := 0x71
  const PUSH19: OpCode := 0x72
  const PUSH20: OpCode := 0x73
  const PUSH21: OpCode := 0x74
  const PUSH22: OpCode := 0x75
  const PUSH23: OpCode := 0x76
  const PUSH24: OpCode := 0x77
  const PUSH25: OpCode := 0x78
  const PUSH26: OpCode := 0x79
  const PUSH27: OpCode := 0x7A
  const PUSH28: OpCode := 0x7B
  const PUSH29: OpCode := 0x7C
  const PUSH30: OpCode := 0x7D
  const PUSH31: OpCode := 0x7E
  const PUSH32: OpCode := 0x7F
  const DUP1: OpCode := 0x80
  const DUP2: OpCode := 0x81
  const DUP3: OpCode := 0x82
  const DUP4: OpCode := 0x83
  const DUP5: OpCode := 0x84
  const DUP6: OpCode := 0x85
  const DUP7: OpCode := 0x86
  const DUP8: OpCode := 0x87
  const DUP9: OpCode := 0x88
  const DUP10: OpCode := 0x89
  const DUP11: OpCode := 0x8A
  const DUP12: OpCode := 0x8B
  const DUP13: OpCode := 0x8C
  const DUP14: OpCode := 0x8D
  const DUP15: OpCode := 0x8E
  const DUP16: OpCode := 0x8F
  const SWAP1: OpCode := 0x90
  const SWAP2: OpCode := 0x91
  const SWAP3: OpCode := 0x92
  const SWAP4: OpCode := 0x93
  const SWAP5: OpCode := 0x94
  const SWAP6: OpCode := 0x95
  const SWAP7: OpCode := 0x96
  const SWAP8: OpCode := 0x97
  const SWAP9: OpCode := 0x98
  const SWAP10: OpCode := 0x99
  const SWAP11: OpCode := 0x9A
  const SWAP12: OpCode := 0x9B
  const SWAP13: OpCode := 0x9C
  const SWAP14: OpCode := 0x9D
  const SWAP15: OpCode := 0x9E
  const SWAP16: OpCode := 0x9F
  const LOG0: OpCode := 0xA0
  const LOG1: OpCode := 0xA1
  const LOG2: OpCode := 0xA2
  const LOG3: OpCode := 0xA3
  const LOG4: OpCode := 0xA4
  const CREATE: OpCode := 0xF0
  const CALL: OpCode := 0xF1
  const CALLCODE: OpCode := 0xF2
  const RETURN: OpCode := 0xF3
  const DELEGATECALL: OpCode := 0xF4
  const CREATE2: OpCode := 0xF5
  const STATICCALL: OpCode := 0xFA
  const REVERT: OpCode := 0xFD
  const SELFDESTRUCT: OpCode := 0xFF

  const OPCODE_COUNT: nat := 143

  /**
   * The value of the i-th opcode constant in declaration order. The
   * constants fall into runs of consecutive bytes, so the enumeration is
   * written run by run; DeclaredOpcodesAreTheConstants ties every index to
   * its named constant.
   */
  function DeclaredOpcode(i: nat): OpCode
    requires i < OPCODE_COUNT
  {
    if i < 11 then i                        // STOP .. EXP
    else if i < 25 then 0x10 + (i - 11)     // LT .. SAR
    else if i < 26 then 0x20                // SHA3
    else if i < 50 then 0x30 + (i - 26)     // ADDRESS .. SELFBALANCE
    else if i < 65 then 0x50 + (i - 50)     // POP .. JUMPSUB
    else if i < 134 then 0x60 + (i - 65)    // PUSH1 .. LOG4
    else if i < 140 then 0xF0 + (i - 134)   // CREATE .. CREATE2
    else if i == 140 then 0xFA              // STATICCALL
    else if i == 141 then 0xFD              // REVERT
    else 0xFF                               // SELFDESTRUCT
  }

  // DeclaredOpcode enumerates exactly the named constants above, in order.

  lemma DeclaredOpcodesAreTheConstants1()
    ensures DeclaredOpcode(0) == STOP
    ensures DeclaredOpcode(1) == ADD
    ensures DeclaredOpcode(2) == MUL
    ensures DeclaredOpcode(3) == SUB
    ensures DeclaredOpcode(4) == DIV
    ensures DeclaredOpcode(5) == SDIV
    ensures DeclaredOpcode(6) == MOD
    ensures DeclaredOpcode(7) == SMOD
    ensures DeclaredOpcode(8) == ADDMOD
    ensures DeclaredOpcode(9) == MULMOD
    ensures DeclaredOpcode(10) == EXP
    ensures DeclaredOpcode(11) == LT
    ensures DeclaredOpcode(12) == GT
    ensures DeclaredOpcode(13) == SLT
    ensures DeclaredOpcode(14) == SGT
    ensures DeclaredOpcode(15) == EQ
    ensures DeclaredOpcode(16) == ISZERO
    ensures DeclaredOpcode(17) == AND
  {
  }

  lemma DeclaredOpcodesAreTheConstants2()
    ensures DeclaredOpcode(18) == OR
    ensures DeclaredOpcode(19) == XOR
    ensures DeclaredOpcode(20) == NOT
    ensures DeclaredOpcode(21) == BYTE
    ensures DeclaredOpcode(22) == SHL
    ensures DeclaredOpcode(23) == SHR
    ensures DeclaredOpcode(24) == SAR
    ensures DeclaredOpcode(25) == SHA3
    ensures DeclaredOpcode(26) == ADDRESS
    ensures DeclaredOpcode(27) == BALANCE
    ensures DeclaredOpcode(28) == ORIGIN
    ensures DeclaredOpcode(29) == CALLER
    ensures DeclaredOpcode(30) == CALLVALUE
    ensures DeclaredOpcode(31) == CALLDATALOAD
    ensures DeclaredOpcode(32) == CALLDATASIZE
    ensures DeclaredOpcode(33) == CALLDATACOPY
    ensures DeclaredOpcode(34) == CODESIZE
    ensures DeclaredOpcode(35) == CODECOPY
  {
  }

  lemma DeclaredOpcodesAreTheConstants3()
    ensures DeclaredOpcode(36) == GASPRICE
    ensures DeclaredOpcode(37) == EXTCODESIZE
    ensures DeclaredOpcode(38) == EXTCODECOPY
    ensures DeclaredOpcode(39) == RETURNDATASIZE
    ensures DeclaredOpcode(40) == RETURNDATACOPY
    ensures DeclaredOpcode(41) == EXTCODEHASH
    ensures DeclaredOpcode(42) == BLOCKHASH
    ensures DeclaredOpcode(43) == COINBASE
    ensures DeclaredOpcode(44) == TIMESTAMP
    ensures DeclaredOpcode(45) == NUMBER
    ensures DeclaredOpcode(46) == DIFFICULTY
    ensures DeclaredOpcode(47) == GASLIMIT
    ensures DeclaredOpcode(48) == CHAINID
    ensures DeclaredOpcode(49) == SELFBALANCE
    ensures DeclaredOpcode(50) == POP
    ensures DeclaredOpcode(51) == MLOAD
    ensures DeclaredOpcode(52) == MSTORE
    ensures DeclaredOpcode(53) == MSTORE8
  {
  }

  lemma DeclaredOpcodesAreTheConstants4()
    ensures DeclaredOpcode(54) == SLOAD
    ensures DeclaredOpcode(55) == SSTORE
    ensures DeclaredOpcode(56) == JUMP
    ensures DeclaredOpcode(57) == JUMPI
    ensures DeclaredOpcode(58) == PC
    ensures DeclaredOpcode(59) == MSIZE
    ensures DeclaredOpcode(60) == GAS
    ensures DeclaredOpcode(61) == JUMPDEST
    ensures DeclaredOpcode(62) == BEGINSUB
    ensures DeclaredOpcode(63) == RETURNSUB
    ensures DeclaredOpcode(64) == JUMPSUB
    ensures DeclaredOpcode(65) == PUSH1
    ensures DeclaredOpcode(66) == PUSH2
    ensures DeclaredOpcode(67) == PUSH3
    ensures DeclaredOpcode(68) == PUSH4
    ensures DeclaredOpcode(69) == PUSH5
    ensures DeclaredOpcode(70) == PUSH6
    ensures DeclaredOpcode(71) == PUSH7
  {
  }

  lemma DeclaredOpcodesAreTheConstants5()
    ensures DeclaredOpcode(72) == PUSH8
    ensures DeclaredOpcode(73) == PUSH9
    ensures DeclaredOpcode(74) == PUSH10
    ensures DeclaredOpcode(75) == PUSH11
    ensures DeclaredOpcode(76) == PUSH12
    ensures DeclaredOpcode(77) == PUSH13
    ensures DeclaredOpcode(78) == PUSH14
    ensures DeclaredOpcode(79) == PUSH15
    ensures DeclaredOpcode(80) == PUSH16
    ensures DeclaredOpcode(81) == PUSH17
    ensures DeclaredOpcode(82) == PUSH18
    ensures DeclaredOpcode(83) == PUSH19
    ensures DeclaredOpcode(84) == PUSH20
    ensures DeclaredOpcode(85) == PUSH21
    ensures DeclaredOpcode(86) == PUSH22
    ensures DeclaredOpcode(87) == PUSH23
    ensures DeclaredOpcode(88) == PUSH24
    ensures DeclaredOpcode(89) == PUSH25
  {
  }

  lemma DeclaredOpcodesAreTheConstants6()
    ensures DeclaredOpcode(90) == PUSH26
    ensures DeclaredOpcode(91) == PUSH27
    ensures DeclaredOpcode(92) == PUSH28
    ensures DeclaredOpcode(93) == PUSH29
    ensures DeclaredOpcode(94) == PUSH30
    ensures DeclaredOpcode(95) == PUSH31
    ensures DeclaredOpcode(96) == PUSH32
    ensures DeclaredOpcode(97) == DUP1
    ensures DeclaredOpcode(98) == DUP2
    ensures DeclaredOpcode(99) == DUP3
    ensures DeclaredOpcode(100) == DUP4
    ensures DeclaredOpcode(101) == DUP5
    ensures DeclaredOpcode(102) == DUP6
    ensures DeclaredOpcode(103) == DUP7
    ensures DeclaredOpcode(104) == DUP8
    ensures DeclaredOpcode(105) == DUP9
    ensures DeclaredOpcode(106) == DUP10
    ensures DeclaredOpcode(107) == DUP11
  {
  }

  lemma DeclaredOpcodesAreTheConstants7()
    ensures DeclaredOpcode(108) == DUP12
    ensures DeclaredOpcode(109) == DUP13
    ensures DeclaredOpcode(110) == DUP14
    ensures DeclaredOpcode(111) == DUP15
    ensures DeclaredOpcode(112) == DUP16
    ensures DeclaredOpcode(113) == SWAP1
    ensures DeclaredOpcode(114) == SWAP2
    ensures DeclaredOpcode(115) == SWAP3
    ensures DeclaredOpcode(116) == SWAP4
    ensures DeclaredOpcode(117) == SWAP5
    ensures DeclaredOpcode(118) == SWAP6
    ensures DeclaredOpcode(119) == SWAP7
    ensures DeclaredOpcode(120) == SWAP8
    ensures DeclaredOpcode(121) == SWAP9
    ensures DeclaredOpcode(122) == SWAP10
    ensures DeclaredOpcode(123) == SWAP11
    ensures DeclaredOpcode(124) == SWAP12
    ensures DeclaredOpcode(125) == SWAP13
  {
  }

  lemma DeclaredOpcodesAreTheConstants8()
    ensures DeclaredOpcode(126) == SWAP14
    ensures DeclaredOpcode(127) == SWAP15
    ensures DeclaredOpcode(128) == SWAP16
    ensures DeclaredOpcode(129) == LOG0
    ensures DeclaredOpcode(130) == LOG1
    ensures DeclaredOpcode(131) == LOG2
    ensures DeclaredOpcode(132) == LOG3
    ensures DeclaredOpcode(133) == LOG4
    ensures DeclaredOpcode(134) == CREATE
    ensures DeclaredOpcode(135) == CALL
    ensures DeclaredOpcode(136) == CALLCODE
    ensures DeclaredOpcode(137) == RETURN
    ensures DeclaredOpcode(138) == DELEGATECALL
    ensures DeclaredOpcode(139) == CREATE2
    ensures DeclaredOpcode(140) == STATICCALL
    ensures DeclaredOpcode(141) == REVERT
    ensures DeclaredOpcode(142) == SELFDESTRUCT
  {
  }

  /** `opcode_to_u8`: a lossless cast, undone by `U8ToOpcode`. */
  function OpcodeToU8(op: OpCode): (r: u8)
    ensures U8ToOpcode(r) == op
  {
    op
  }

  /** `u8_to_opcode`: a lossless cast; the byte of each constant becomes that constant. */
  function U8ToOpcode(v: u8): (r: OpCode)
    ensures forall i :: 0 <= i < OPCODE_COUNT ==> (r == DeclaredOpcode(i) <==> v == DeclaredOpcode(i))
  {
    v
  }

  /** The display name of an opcode byte; "NONE" only for bytes without a constant. */
  function GetOpcodeName(code: u8): (r: string)
    ensures r == "NONE" ==> forall i :: 0 <= i < OPCODE_COUNT ==> DeclaredOpcode(i) != code
  {
    match code
    case 0x00 => "STOP"
    case 0x01 => "ADD"
    case 0x02 => "MUL"
    case 0x03 => "SUB"
    case 0x04 => "DIV"
    case 0x05 => "SDIV"
    case 0x06 => "MOD"
    case 0x07 => "SMOD"
    case 0x08 => "ADD_MOD"
    case 0x09 => "MUL_MOD"
    case 0x0A => "EXP"
    case 0x10 => "LT"
    case 0x11 => "GT"
    case 0x12 => "SLT"
    case 0x13 => "SGT"
    case 0x14 => "EQ"
    case 0x15 => "IS_ZERO"
    case 0x16 => "AND"
    case 0x17 => "OR"
    case 0x18 => "XOR"
    case 0x19 => "NOT"
    case 0x1A => "BYTE"
    case 0x1B => "SHL"
    case 0x1C => "SHR"
    case 0x1D => "SAR"
    case 0x20 => "SHA3"
    case 0x30 => "ADDRESS"
    case 0x31 => "BALANCE"
    case 0x32 => "ORIGIN"
    case 0x33 => "CALLER"
    case 0x34 => "CALLVALUE"
    case 0x35 => "CALLDATA_LOAD"
    case 0x36 => "CALLDATA_SIZE"
    case 0x37 => "CALL_DATA_COPY"
    case 0x38 => "CODE_SIZE"
    case 0x39 => "CODE_COPY"
    case 0x3A => "GAS_PRICE"
    case 0x3B => "EXTCODE_SIZE"
    case 0x3C => "EXTCODE_COPY"
    case 0x3D => "RETURNDATA_SIZE"
    case 0x3E => "RETURNDATA_COPY"
    case 0x3F => "EXTCODEHASH"
    case 0x40 => "BLOCKHASH"
    case 0x41 => "COINBASE"
    case 0x42 => "TIMESTAMP"
    case 0x43 => "NUMBER"
    case 0x44 => "DIFFICULTY"
    case 0x45 => "GAS_LIMIT"
    case 0x46 => "CHAIN_ID"
    case 0x47 => "SELF_BALANCE"
    case 0x50 => "POP"
    case 0x51 => "MLOAD"
    case 0x52 => "MSTORE"
    case 0x53 => "MSTORE8"
    case 0x54 => "SLOAD"
    case 0x55 => "SSTORE"
    case 0x56 => "JUMP"
    case 0x57 => "JUMPI"
    case 0x58 => "PC"
    case 0x59 => "MSIZE"
    case 0x5A => "GAS"
    case 0x5B => "JUMPDEST"
    case 0x5C => "BEGINSUB"
    case 0x5D => "RETURNSUB"
    case 0x5E => "JUMPSUB"
    case 0x60 => "PUSH1"
    case 0x61 => "PUSH2"
    case 0x62 => "PUSH3"
    case 0x63 => "PUSH4"
    case 0x64 => "PUSH5"
    case 0x65 => "PUSH6"
    case 0x66 => "PUSH7"
    case 0x67 => "PUSH8"
    case 0x68 => "PUSH9"
    case 0x69 => "PUSH10"
    case 0x6A => "PUSH11"
    case 0x6B => "PUSH12"
    case 0x6C => "PUSH13"
    case 0x6D => "PUSH14"
    case 0x6E => "PUSH15"
    case 0x6F => "PUSH16"
    case 0x70 => "PUSH17"
    case 0x71 => "PUSH18"
    case 0x72 => "PUSH19"
    case 0x73 => "PUSH20"
    case 0x74 => "PUSH21"
    case 0x75 => "PUSH22"
    case 0x76 => "PUSH23"
    case 0x77 => "PUSH24"
    case 0x78 => "PUSH25"
    case 0x79 => "PUSH26"
    case 0x7A => "PUSH27"
    case 0x7B => "PUSH28"
    case 0x7C => "PUSH29"
    case 0x7D => "PUSH30"
    case 0x7E => "PUSH31"
    case 0x7F => "PUSH32"
    case 0x80 => "DUP1"
    case 0x81 => "DUP2"
    case 0x82 => "DUP3"
    case 0x83 => "DUP4"
    case 0x84 => "DUP5"
    case 0x85 => "DUP6"
    case 0x86 => "DUP7"
    case 0x87 => "DUP8"
    case 0x88 => "DUP9"
    case 0x89 => "DUP10"
    case 0x8A => "DUP11"
    case 0x8B => "DUP12"
    case 0x8C => "DUP13"
    case 0x8D => "DUP14"
    case 0x8E => "DUP15"
    case 0x8F => "DUP16"
    case 0x90 => "SWAP1"
    case 0x91 => "SWAP2"
    case 0x92 => "SWAP3"
    case 0x93 => "SWAP4"
    case 0x94 => "SWAP5"
    case 0x95 => "SWAP6"
    case 0x96 => "SWAP7"
    case 0x97 => "SWAP8"
    case 0x98 => "SWAP9"
    case 0x99 => "SWAP10"
    case 0x9A => "SWAP11"
    case 0x9B => "SWAP12"
    case 0x9C => "SWAP13"
    case 0x9D => "SWAP14"
    case 0x9E => "SWAP15"
    case 0x9F => "SWAP16"
    case 0xA0 => "LOG0"
    case 0xA1 => "LOG1"
    case 0xA2 => "LOG2"
    case 0xA3 => "LOG3"
    case 0xA4 => "LOG4"
    case 0xF0 => "CREATE"
    case 0xF1 => "CALL"
    case 0xF2 => "CALLCODE"
    case 0xF3 => "RETURN"
    case 0xF4 => "DELEGATE_CALL"
    case 0xF5 => "CREATE2"
    case 0xFA => "STATIC_CALL"
    case 0xFD => "REVERT"
    case 0xFF => "SELF_DESTRUCT"
    case _ => "NONE"
  }

  /** The constants are declared in strictly increasing order, so no two share a byte value. */
  lemma OpcodesDistinct()
    ensures forall i, j :: 0 <= i < j < OPCODE_COUNT ==> DeclaredOpcode(i) < DeclaredOpcode(j)
  {
  }

  /** PUSHn = 0x5F + n, DUPn = 0x7F + n, SWAPn = 0x8F + n and LOGn = 0xA0 + n. */
  lemma FamilyOpcodes()
    ensures PUSH1 == 0x5F + 1 && PUSH2 == 0x5F + 2 && PUSH3 == 0x5F + 3 && PUSH4 == 0x5F + 4
      && PUSH5 == 0x5F + 5 && PUSH6 == 0x5F + 6 && PUSH7 == 0x5F + 7 && PUSH8 == 0x5F + 8
      && PUSH9 == 0x5F + 9 && PUSH10 == 0x5F + 10 && PUSH11 == 0x5F + 11 && PUSH12 == 0x5F + 12
      && PUSH13 == 0x5F + 13 && PUSH14 == 0x5F + 14 && PUSH15 == 0x5F + 15 && PUSH16 == 0x5F + 16
      && PUSH17 == 0x5F + 17 && PUSH18 == 0x5F + 18 && PUSH19 == 0x5F + 19 && PUSH20 == 0x5F + 20
      && PUSH21 == 0x5F + 21 && PUSH22 == 0x5F + 22 && PUSH23 == 0x5F + 23 && PUSH24 == 0x5F + 24
      && PUSH25 == 0x5F + 25 && PUSH26 == 0x5F + 26 && PUSH27 == 0x5F + 27 && PUSH28 == 0x5F + 28
      && PUSH29 == 0x5F + 29 && PUSH30 == 0x5F + 30 && PUSH31 == 0x5F + 31 && PUSH32 == 0x5F + 32
    ensures DUP1 == 0x7F + 1 && DUP2 == 0x7F + 2 && DUP3 == 0x7F + 3 && DUP4 == 0x7F + 4
      && DUP5 == 0x7F + 5 && DUP6 == 0x7F + 6 && DUP7 == 0x7F + 7 && DUP8 == 0x7F + 8
      && DUP9 == 0x7F + 9 && DUP10 == 0x7F + 10 && DUP11 == 0x7F + 11 && DUP12 == 0x7F + 12
      && DUP13 == 0x7F + 13 && DUP14 == 0x7F + 14 && DUP15 == 0x7F + 15 && DUP16 == 0x7F + 16
    ensures SWAP1 == 0x8F + 1 && SWAP2 == 0x8F + 2 && SWAP3 == 0x8F + 3 && SWAP4 == 0x8F + 4
      && SWAP5 == 0x8F + 5 && SWAP6 == 0x8F + 6 && SWAP7 == 0x8F + 7 && SWAP8 == 0x8F + 8
      && SWAP9 == 0x8F + 9 && SWAP10 == 0x8F + 10 && SWAP11 == 0x8F + 11 && SWAP12 == 0x8F + 12
      && SWAP13 == 0x8F + 13 && SWAP14 == 0x8F + 14 && SWAP15 == 0x8F + 15 && SWAP16 == 0x8F + 16
    ensures LOG0 == 0xA0 + 0 && LOG1 == 0xA0 + 1 && LOG2 == 0xA0 + 2 && LOG3 == 0xA0 + 3
      && LOG4 == 0xA0 + 4
  {
  }

  /** Every opcode constant has a name of its own. */
  lemma ConstantsAreNamed()
    ensures forall i :: 0 <= i < OPCODE_COUNT ==> GetOpcodeName(DeclaredOpcode(i)) != "NONE"
  {
    ConstantsAreNamedBetween(0, 50);
    ConstantsAreNamedBetween(50, 100);
    ConstantsAreNamedBetween(100, OPCODE_COUNT);
  }

  lemma ConstantsAreNamedBetween(lo: nat, hi: nat)
    requires (lo, hi) in {(0, 50), (50, 100), (100, OPCODE_COUNT)}
    ensures forall i :: lo <= i < hi ==> GetOpcodeName(DeclaredOpcode(i)) != "NONE"
  {
  }

  lemma NameExamples()
    ensures GetOpcodeName(JUMPDEST) == "JUMPDEST"
    ensures GetOpcodeName(0x15) == "IS_ZERO"
  {
  }

  /** The gaps between the opcode families have no name. */
  lemma GapsAreNameless()
    ensures forall b: u8 :: 0x0B <= b <= 0x0F || 0x1E <= b <= 0x1F || 0x21 <= b <= 0x2F ==> GetOpcodeName(b) == "NONE"
  {
  }

  /** Nothing between the last LOG and CREATE has a name. */
  lemma LogToCreateGapIsNameless()
    ensures forall b: u8 :: 0xA5 <= b <= 0xEF ==> GetOpcodeName(b) == "NONE"
  {
  }
}
