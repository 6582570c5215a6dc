// vm/src/stack.rs: the operand stack of 256-bit words, the return stack of
// u32 values, and the stack-bound arithmetic the jump table stores.
module VmStack {
  import opened Wrappers
  import opened EthTypes

  /** `crate::constants::StackLimit`. constants.rs is not part of this model; 1024 is the EVM limit. */
  const STACK_LIMIT: int := 1024

  type i16 = x: int | -0x8000 <= x < 0x8000

  /**
   * `max_stack`: StackLimit + pops - push, evaluated left to right in i16.
   * A debug build panics when either the sum `StackLimit + pops` or the
   * final difference leaves i16, so both are required to fit.
   */
  function MaxStack(pops: i16, push: i16): (r: i16)
    requires STACK_LIMIT + pops < 0x8000
    requires -0x8000 <= STACK_LIMIT + pops - push < 0x8000
    ensures r - pops == STACK_LIMIT - push
  {
    STACK_LIMIT + pops - push
  }

  /** `min_stack`: the number of operands an instruction consumes. */
  function MinStack(pops: i16, push: i16): (r: i16)
    ensures r == pops
  {
    pops
  }

  /** `max_dup_stack`: `n + 1` and `StackLimit + n` are i16 sums that must not overflow. */
  function MaxDupStack(n: i16): (r: i16)
    requires -0x8000 <= n + 1 < 0x8000
    requires STACK_LIMIT + n < 0x8000
    ensures r == STACK_LIMIT - 1
  {
    MaxStack(n, n + 1)
  }

  /** `min_dup_stack`: the argument `n + 1` is an i16 sum that must not overflow. */
  function MinDupStack(n: i16): (r: i16)
    requires -0x8000 <= n + 1 < 0x8000
    ensures r == n
  {
    MinStack(n, n + 1)
  }

  /** `max_swap_stack`: `StackLimit + n` is an i16 sum that must not overflow. */
  function MaxSwapStack(n: i16): (r: i16)
    requires STACK_LIMIT + n < 0x8000
    ensures r == STACK_LIMIT
  {
    MaxStack(n, n)
  }

  function MinSwapStack(n: i16): (r: i16)
    ensures r == n
  {
    MinStack(n, n)
  }

  /** The stack after `swap(n)`: entries size-n and size-1 exchanged. */
  function Swapped(s: seq<Word>, n: int): (r: seq<Word>)
    requires 1 <= n <= |s|
    ensures |r| == |s|
    ensures r[|s| - 1] == s[|s| - n] && r[|s| - n] == s[|s| - 1]
    ensures forall i :: 0 <= i < |s| && i != |s| - 1 && i != |s| - n ==> r[i] == s[i]
  {
    s[|s| - n := s[|s| - 1]][|s| - 1 := s[|s| - n]]
  }

  /** The stack after `dup(n)`: a copy of the n-th entry from the top pushed on top. */
  function Duplicated(s: seq<Word>, n: int): (r: seq<Word>)
    requires 1 <= n <= |s|
    ensures |r| == |s| + 1
    ensures r[..|s|] == s && r[|s|] == s[|s| - n]
  {
    s + [s[|s| - n]]
  }

  /** `back(n)`: the n-th entry below the top; back(0) is the top. */
  function BackOf(s: seq<Word>, n: int): (w: Word)
    requires 0 <= n < |s|
    ensures w == s[|s| - 1 - n]
    ensures n == 0 ==> w == s[|s| - 1]
  {
    s[|s| - n - 1]
  }

  lemma SwapOneIsIdentity(s: seq<Word>)
    requires 1 <= |s|
    ensures Swapped(s, 1) == s
  {
  }

  lemma SwapTwiceRestores(s: seq<Word>, n: int)
    requires 1 <= n <= |s|
    ensures Swapped(Swapped(s, n), n) == s
  {
  }

  lemma DupOneCopiesTop(s: seq<Word>)
    requires 1 <= |s|
    ensures Duplicated(s, 1) == s + [s[|s| - 1]]
  {
  }

  class Stack {
    var data: seq<Word>
    /** Stored but never consulted: `push` does not check it. */
    var height: nat

    constructor (height: nat)
      ensures data == [] && this.height == height
    {
      data := [];
      this.height := height;
    }

    /** `Stack::default`: height 64. */
    constructor Default()
      ensures data == [] && height == 64
    {
      data := [];
      height := 64;
    }

    function Size(): (n: nat)
      reads this
      ensures n == |data|
    {
      |data|
    }

    /** Always succeeds, whatever the height. */
    method Push(w: Word) returns (r: Result<bool, string>)
      modifies this
      ensures data == old(data) + [w] && height == old(height)
      ensures r == Ok(true)
    {
      data := data + [w];
      r := Ok(true);
    }

    method PushMultiple(ws: seq<Word>)
      modifies this
      ensures data == old(data) + ws && height == old(height)
    {
      var i := 0;
      while i < |ws|
        invariant 0 <= i <= |ws|
        invariant data == old(data) + ws[..i] && height == old(height)
      {
        data := data + [ws[i]];
        i := i + 1;
      }
    }

    method Pop() returns (r: Result<Word, string>)
      modifies this
      ensures old(data) == [] ==> r.Err? && data == old(data)
      ensures old(data) != [] ==> r == Ok(old(data)[|old(data)| - 1]) && data == old(data)[..|old(data)| - 1]
      ensures height == old(height)
    {
      if |data| == 0 {
        return Err("cannot pop anything");
      }
      r := Ok(data[|data| - 1]);
      data := data[..|data| - 1];
    }

    /**
     * `peek` hands out the top cell; reading it is this method and writing
     * through it is SetTop.
     */
    method Peek() returns (r: Result<Word, Word>)
      ensures data == [] ==> r == Err(0)
      ensures data != [] ==> r == Ok(data[|data| - 1])
    {
      if |data| == 0 {
        return Err(0);
      }
      r := Ok(data[|data| - 1]);
    }

    /** `peek().unwrap().set(w)`: overwrite the top in place. */
    method SetTop(w: Word)
      requires data != []
      modifies this
      ensures data == old(data)[|old(data)| - 1 := w] && height == old(height)
    {
      data := data[|data| - 1 := w];
    }

    /** swap(0) or n beyond the size makes the Rust code index out of range. */
    method Swap(n: int)
      requires 1 <= n <= |data|
      modifies this
      ensures data == Swapped(old(data), n) && height == old(height)
    {
      var len := |data|;
      var copy := data[len - n];
      data := data[len - n := data[len - 1]];
      data := data[len - 1 := copy];
    }

    method Dup(n: int)
      requires 1 <= n <= |data|
      modifies this
      ensures data == Duplicated(old(data), n) && height == old(height)
    {
      var element := data[|data| - n];
      data := data + [element];
    }

    function Back(n: int): (w: Word)
      requires 0 <= n < |data|
      reads this
      ensures w == BackOf(data, n)
    {
      data[|data| - n - 1]
    }
  }

  /** Pushing then popping gives back the word and the original stack. */
  method PushThenPop(st: Stack, w: Word) returns (r: Result<Word, string>)
    modifies st
    ensures r == Ok(w) && st.data == old(st.data)
  {
    var _ := st.Push(w);
    r := st.Pop();
  }

  class ReturnStack {
    var data: seq<u32>

    constructor ()
      ensures data == []
    {
      data := [];
    }

    method Push(d: u32)
      modifies this
      ensures data == old(data) + [d]
    {
      data := data + [d];
    }

    method Pop() returns (r: Result<u32, bool>)
      modifies this
      ensures old(data) == [] ==> r == Err(false) && data == old(data)
      ensures old(data) != [] ==> r == Ok(old(data)[|old(data)| - 1]) && data == old(data)[..|old(data)| - 1]
    {
      if |data| == 0 {
        return Err(false);
      }
      r := Ok(data[|data| - 1]);
      data := data[..|data| - 1];
    }
  }
}
