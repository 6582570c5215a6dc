// vm/src/context.rs: the frame a handler works on, and its value snapshot.
module VmContext {
  import opened EthTypes
  import opened VmStack
  import opened VmMemory
  import opened VmContract

  /** The contents of a call context at one instant. */
  datatype ContextState = ContextState(
    stack: seq<Word>,
    memory: seq<u8>,
    rstack: seq<u32>,
    contract: Contract)

  class CallContext {
    const stack: Stack
    const memory: Memory
    const rstack: ReturnStack
    var contract: Contract

    constructor (stack: Stack, memory: Memory, rstack: ReturnStack, contract: Contract)
      ensures this.stack == stack && this.memory == memory && this.rstack == rstack
      ensures this.contract == contract
    {
      this.stack := stack;
      this.memory := memory;
      this.rstack := rstack;
      this.contract := contract;
    }

    function State(): (st: ContextState)
      reads this, stack, memory, rstack
      ensures st.stack == stack.data && st.memory == memory.value
      ensures st.rstack == rstack.data && st.contract == contract
    {
      ContextState(stack.data, memory.value, rstack.data, contract)
    }
  }
}
