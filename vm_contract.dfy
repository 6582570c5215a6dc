// vm/src/contract.rs: the contract being executed and its two read-only
// lookups; vm/src/err.rs: the errors a run can end with.
module VmContract {
  import opened Wrappers
  import opened EthTypes
  import opened VmOpcode

  datatype RunError =
    | NoError | InvalidJump | ExecutionReverted
    | InvalidOpCode | StackUnderflow | StackOverflow
    | WriteProtection
    | ReturnDataOutOfBounds

  datatype Contract = Contract(
    code: seq<u8>,
    codehash: H256,
    address: Address,
    caller: Address,
    jumpPoints: map<seq<u8>, nat>,
    input: seq<u8>)

  /** `Contract::default()`: every field empty or zero. */
  function DefaultContract(): (c: Contract)
    ensures c.code == [] && c.input == [] && c.jumpPoints == map[]
    ensures forall i :: 0 <= i < 32 ==> c.codehash[i] == 0
    ensures forall i :: 0 <= i < 20 ==> c.address[i] == 0 && c.caller[i] == 0
  {
    Contract([], Zeros(32), Zeros(20), Zeros(20), map[], [])
  }

  /** `get_byte(n)`: the code byte at n, or STOP past the end; it never fails. */
  function GetByte(c: Contract, n: u64): (b: u8)
    ensures n < |c.code| ==> b == c.code[n]
    ensures n >= |c.code| ==> b == STOP
  {
    if n < |c.code| then c.code[n] else 0
  }

  /**
   * `valid_jumpdest(d)`: whether the code byte at d is JUMPDEST. None where
   * the Rust code panics: `as_u64` fails for d >= 2^64 and `code[d]` is out
   * of range for d >= |code|.
   */
  function ValidJumpdest(c: Contract, dest: Word): (r: Option<bool>)
    ensures r.Some? <==> dest < TWO64 && dest < |c.code|
    ensures r.Some? ==> (r.value <==> c.code[dest] == JUMPDEST)
  {
    match AsU64(dest)
    case None => None
    case Some(d) =>
      if d >= |c.code| then None
      else Some(OpcodeToU8(c.code[d]) == JUMPDEST)
  }

  /** Inside the code, a valid destination is one whose fetched byte is JUMPDEST. */
  lemma JumpdestAgreesWithGetByte(c: Contract, dest: u64)
    requires dest < |c.code|
    ensures ValidJumpdest(c, dest) == Some(GetByte(c, dest) == JUMPDEST)
  {
  }

  /**
   * No PUSH-data analysis: in PUSH1 0x5B the second byte is an immediate,
   * yet it is accepted as a jump destination.
   */
  lemma PushDataAcceptedAsJumpdest(c: Contract)
    requires c.code == [PUSH1, JUMPDEST]
    ensures ValidJumpdest(c, 1) == Some(true)
  {
  }
}
