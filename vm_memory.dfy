// vm/src/memory.rs: the growable byte memory, the helpers that read call
// data and code, and the memory-size functions the jump table refers to.
module VmMemory {
  import opened Wrappers
  import opened Arith
  import opened EthTypes
  import opened VecUtil
  import opened U256Util
  import opened VmStack

  /**
   * `calc_mem_size64_with_uint`. The flag is set when the offset fits in 64
   * bits; otherwise `u64off + len` is a Rust addition of two u64 values,
   * which panics (None) on the carry in a debug build, so the flag its
   * result is compared for is never set.
   */
  function CalcMemSize64WithUint(offset: Word, length: u64): (r: Option<(u64, bool)>)
    ensures length == 0 ==> r == Some((0, false))
    ensures length != 0 && offset < TWO64 ==> r == Some((0, true))
    ensures length != 0 && offset >= TWO64 ==>
      (r.None? <==> Limb(offset, 0) + length >= TWO64)
      && (r.Some? ==> r.value == (Limb(offset, 0) + length, false))
  {
    HighLimbsZeroIff(offset);
    if length == 0 then Some((0, false))
    else if HighLimbsZero(offset) then Some((0, true))
    else
      var sum := Limb(offset, 0) + length;
      if sum >= TWO64 then None
      else Some((sum, sum < Limb(offset, 0)))
  }

  /** `calc_mem_size64`: (0, true) whenever the length fits in 64 bits. */
  function CalcMemSize64(offset: Word, length: Word): (r: Option<(u64, bool)>)
    ensures length < TWO64 ==> r == Some((0, true))
    ensures length >= TWO64 ==> r == CalcMemSize64WithUint(offset, Limb(length, 0))
  {
    HighLimbsZeroIff(length);
    if HighLimbsZero(length) then Some((0, true))
    else CalcMemSize64WithUint(offset, Limb(length, 0))
  }

  /** The length-only data buffer `get_data` pads: `min(start, |d|) .. min(start + size, |d|)`. */
  function GetData(d: seq<u8>, start: u64, size: u64): (r: Option<seq<u8>>)
    ensures r.None? <==> (if start > |d| then |d| else start) + size >= TWO64
    ensures r.Some? ==> |r.value| == size
    ensures r.Some? ==> forall i :: 0 <= i < size ==> r.value[i] == if start + i < |d| then d[start + i] else 0
  {
    var s := if start > |d| then |d| else start;
    if s + size >= TWO64 then None
    else
      var e := if s + size > |d| then |d| else s + size;
      Some(RightPadBytes(d[s..e], size))
  }

  /** `to_u64_size`: the number of 32-byte words covering `size` bytes. */
  function ToU64Size(size: u64): (r: u64)
    ensures 32 * r >= size
    ensures size > 0 ==> 32 * (r - 1) < size
  {
    if size > TWO64 - 1 - 31 then (TWO64 - 1) / 32 + 1 else (size + 31) / 32
  }

  /** The guard branch agrees with the rounding-up formula. */
  lemma ToU64SizeIsCeiling(size: u64)
    ensures ToU64Size(size) == (size + 31) / 32
    ensures 32 * ToU64Size(size) >= size
    ensures size > 0 ==> 32 * (ToU64Size(size) - 1) < size
  {
    if size > TWO64 - 32 {
      DivUnique(size + 31, 32, (TWO64 - 1) / 32 + 1, size + 31 - 32 * ((TWO64 - 1) / 32 + 1));
    }
  }

  /** `all_zero`: scans for a non-zero byte and stops at the first. */
  method AllZero(bs: seq<u8>) returns (b: bool)
    ensures b <==> forall i :: 0 <= i < |bs| ==> bs[i] == 0
  {
    var i := 0;
    while i < |bs|
      invariant 0 <= i <= |bs|
      invariant forall j :: 0 <= j < i ==> bs[j] == 0
    {
      if bs[i] != 0 {
        return false;
      }
      i := i + 1;
    }
    return true;
  }

  /** The sixteen `memory_*` functions, each reading operands with `back`. */
  datatype MemSizeFn =
    | MemorySha3 | MemoryCallDataCopy | MemoryReturnDataCopy | MemoryCodeCopy
    | MemoryExtCodeCopy | MemoryMLoad | MemoryMStore8 | MemoryMStore
    | MemoryCreate | MemoryCreate2 | MemoryCall | MemoryDelegateCall
    | MemoryStaticCall | MemoryReturn | MemoryRevert | MemoryLog

  /** The deepest `back` index the function reads. */
  function Depth(f: MemSizeFn): nat
  {
    match f
    case MemorySha3 | MemoryReturn | MemoryRevert | MemoryLog => 1
    case MemoryCallDataCopy | MemoryReturnDataCopy | MemoryCodeCopy => 2
    case MemoryExtCodeCopy => 3
    case MemoryMLoad | MemoryMStore8 | MemoryMStore => 0
    case MemoryCreate | MemoryCreate2 => 2
    case MemoryCall => 6
    case MemoryDelegateCall | MemoryStaticCall => 5
  }

  /**
   * Two size requests combined as `memory_call` does: the first is computed,
   * and an overflow flag on it returns at once; then the second; then the
   * larger. A panic in a request that is computed is a panic of the whole.
   */
  function Larger(x: Option<(u64, bool)>, y: Option<(u64, bool)>): Option<(u64, bool)>
  {
    var a :- x;
    if a.1 then Some((0, true))
    else
      var b :- y;
      if b.1 then Some((0, true))
      else if a.0 > b.0 then Some((a.0, false))
      else Some((b.0, false))
  }

  /** The request a `memory_*` function computes from operands the stack holds; None where it panics. */
  function SizeRequest(f: MemSizeFn, s: seq<Word>): Option<(u64, bool)>
    requires Depth(f) < |s|
  {
    match f
    case MemorySha3 | MemoryReturn | MemoryRevert | MemoryLog =>
      CalcMemSize64(BackOf(s, 0), BackOf(s, 1))
    case MemoryCallDataCopy | MemoryReturnDataCopy | MemoryCodeCopy =>
      CalcMemSize64(BackOf(s, 0), BackOf(s, 2))
    case MemoryExtCodeCopy => CalcMemSize64(BackOf(s, 1), BackOf(s, 3))
    case MemoryMLoad | MemoryMStore => CalcMemSize64WithUint(BackOf(s, 0), 32)
    case MemoryMStore8 => CalcMemSize64WithUint(BackOf(s, 0), 1)
    case MemoryCreate | MemoryCreate2 => CalcMemSize64(BackOf(s, 1), BackOf(s, 2))
    case MemoryCall =>
      Larger(CalcMemSize64(BackOf(s, 5), BackOf(s, 6)), CalcMemSize64(BackOf(s, 3), BackOf(s, 4)))
    case MemoryDelegateCall | MemoryStaticCall =>
      Larger(CalcMemSize64(BackOf(s, 4), BackOf(s, 5)), CalcMemSize64(BackOf(s, 2), BackOf(s, 3)))
  }

  /**
   * Evaluates a `memory_*` function; None where `back` reads below the
   * stack, or where a u64 sum overflows, both of which panic.
   */
  function MemorySize(f: MemSizeFn, s: seq<Word>): (r: Option<(u64, bool)>)
    ensures Depth(f) >= |s| ==> r.None?
    ensures Depth(f) < |s| ==> r == SizeRequest(f, s)
  {
    if Depth(f) >= |s| then None else SizeRequest(f, s)
  }

  /**
   * Memory is never grown before a handler for in-range operands: every
   * `memory_*` function reports size 0 unless some operand it reads is at
   * least 2^64.
   */
  lemma NoPreGrowthForSmallOperands(f: MemSizeFn, s: seq<Word>)
    requires Depth(f) < |s|
    requires forall i :: 0 <= i < |s| ==> s[i] < TWO64
    ensures MemorySize(f, s).Some? && MemorySize(f, s).value.0 == 0
  {
  }

  /** `resize(n)`: grows with zero bytes to n, never shrinks. */
  function Resized(m: seq<u8>, n: nat): (r: seq<u8>)
    ensures |r| == if |m| < n then n else |m|
    ensures r[..|m|] == m
    ensures forall i :: |m| <= i < |r| ==> r[i] == 0
  {
    if |m| < n then m + Zeros(n - |m|) else m
  }

  /**
   * `set(off, size, v)`, None where the Rust code panics: the u64 sums
   * overflowing or `v` not having `size` bytes.
   */
  function SetSpec(m: seq<u8>, off: u64, size: u64, v: seq<u8>): (r: Option<seq<u8>>)
    ensures r.Some? ==> |r.value| >= |m|
  {
    if size == 0 then Some(m)
    else if off + size >= TWO64 then None
    else
      var addition := if off < |m| then |m| - off else 0;
      if off + size > |m| && off + size + addition >= TWO64 then None
      else
        var m1 := if off + size > |m| then Resized(m, off + size + addition) else m;
        if |v| != size then None
        else Some(m1[..off] + v + m1[off + size..])
  }

  lemma SetOfNothing(m: seq<u8>, off: u64, v: seq<u8>)
    ensures SetSpec(m, off, 0, v) == Some(m)
  {
  }

  /** Where `set` succeeds the window holds v and every other old byte is kept. */
  lemma SetWrites(m: seq<u8>, off: u64, size: u64, v: seq<u8>)
    requires size > 0 && SetSpec(m, off, size, v).Some?
    ensures |v| == size
    ensures off + size <= |SetSpec(m, off, size, v).value|
    ensures SetSpec(m, off, size, v).value[off..off + size] == v
    ensures forall i :: 0 <= i < |m| && !(off <= i < off + size) ==> SetSpec(m, off, size, v).value[i] == m[i]
    ensures forall i :: |m| <= i < |SetSpec(m, off, size, v).value| && !(off <= i < off + size) ==>
      SetSpec(m, off, size, v).value[i] == 0
  {
  }

  /** `set` panics only on u64 overflow or a value of the wrong length. */
  lemma SetSucceedsWhen(m: seq<u8>, off: u64, size: u64, v: seq<u8>)
    requires size > 0 && |v| == size && off + size + |m| < TWO64
    ensures SetSpec(m, off, size, v).Some?
  {
  }

  /**
   * When `set` has to grow memory and the window starts inside it, memory
   * grows to old size + size rather than off + size.
   */
  lemma SetGrowsByExtraAmount(m: seq<u8>, off: u64, size: u64, v: seq<u8>)
    requires size > 0 && off < |m| < off + size
    requires SetSpec(m, off, size, v).Some?
    ensures |SetSpec(m, off, size, v).value| == |m| + size
  {
  }

  /** `set32(off, w)`: the 32 little-endian bytes of w at off. */
  function Set32Spec(m: seq<u8>, off: u64, w: Word): (r: Option<seq<u8>>)
    ensures r.Some? ==> |r.value| >= |m|
  {
    if off + 32 >= TWO64 then None
    else
      var m1 := Resized(m, off + 32);
      if |m1| - off != 32 then None
      else Some(m1[..off] + LeBytes(w, 32))
  }

  /**
   * `set32` succeeds exactly when memory ends at or before off + 32, since
   * its final copy takes everything from off to the end; the result is then
   * off + 32 bytes long with the encoding of w in the last 32.
   */
  lemma Set32Characterised(m: seq<u8>, off: u64, w: Word)
    ensures Set32Spec(m, off, w).Some? <==> off + 32 < TWO64 && |m| <= off + 32
    ensures Set32Spec(m, off, w).Some? ==>
      var r := Set32Spec(m, off, w).value;
      |r| == off + 32 && r[off..] == LeBytes(w, 32)
      && (forall i :: 0 <= i < off && i < |m| ==> r[i] == m[i])
      && (forall i :: |m| <= i < off ==> r[i] == 0)
  {
  }

  /**
   * `get_copy(off, size)` with the two i64 operands: None for size 0; for
   * an offset inside memory, memory is zero-grown to off + size and the
   * window returned; otherwise an empty vector. The outer None is a panic
   * (i64 overflow of off + size, or a window ending before it starts).
   */
  function GetCopySpec(m: seq<u8>, off: int, size: int): (r: Option<(seq<u8>, Option<seq<u8>>)>)
    requires -0x8000_0000_0000_0000 <= off < TWO63 && -0x8000_0000_0000_0000 <= size < TWO63
    ensures r.Some? ==> |r.value.0| >= |m| && r.value.0[..|m|] == m
  {
    if size == 0 then Some((m, None))
    else if |m| > I64AsUsize(off) then
      var begin := I64AsUsize(off);
      if !(-0x8000_0000_0000_0000 <= off + size < TWO63) then None
      else
        var end := I64AsUsize(off + size);
        if end < begin then None
        else
          var m1 := Resized(m, end);
          Some((m1, Some(m1[begin..end])))
    else Some((m, Some([])))
  }

  /** For in-range operands `get_copy` returns exactly the window, reading zeros past the end. */
  lemma GetCopyWindow(m: seq<u8>, off: nat, size: nat)
    requires off < |m| && 0 < size && off + size < TWO63
    ensures GetCopySpec(m, off, size).Some?
    ensures var (m1, out) := GetCopySpec(m, off, size).value;
      out == Some(m1[off..off + size]) && |m1| == (if |m| < off + size then off + size else |m|)
      && (forall i :: 0 <= i < size ==> out.value[i] == if off + i < |m| then m[off + i] else 0)
      && m1[..|m|] == m
  {
  }

  /** A window that ends exactly at the end of memory: the copy is the tail and memory is unchanged. */
  lemma GetCopyTail(m: seq<u8>, off: nat, size: nat)
    requires off < |m| && 0 < size && |m| == off + size < TWO63
    ensures GetCopySpec(m, off, size) == Some((m, Some(m[off..])))
  {
    assert I64AsUsize(off) == off;
    assert I64AsUsize(off + size) == off + size;
    assert Resized(m, off + size) == m;
    assert m[off..off + size] == m[off..];
  }

  lemma GetCopyPastEnd(m: seq<u8>, off: nat, size: nat)
    requires |m| <= off < TWO63 && 0 < size < TWO63
    ensures GetCopySpec(m, off, size) == Some((m, Some([])))
  {
  }

  class Memory {
    var value: seq<u8>

    constructor ()
      ensures value == []
    {
      value := [];
    }

    function Size(): (n: nat)
      reads this
      ensures n == |value|
    {
      |value|
    }

    method Resize(n: u64)
      modifies this
      ensures value == Resized(old(value), n)
    {
      if |value| < n {
        value := value + Zeros(n - |value|);
      }
    }

    /** Returns true where the Rust code panics; the memory is then unspecified. */
    method Set(off: u64, size: u64, v: seq<u8>) returns (panicked: bool)
      modifies this
      ensures panicked <==> SetSpec(old(value), off, size, v).None?
      ensures !panicked ==> value == SetSpec(old(value), off, size, v).value
    {
      if size > 0 {
        var memsize := |value|;
        if off + size >= TWO64 {
          return true;
        }
        if off + size > memsize {
          var addition := 0;
          if off < memsize {
            addition := memsize - off;
          }
          if off + size + addition >= TWO64 {
            return true;
          }
          Resize(off + size + addition);
        }
        if |v| != size {
          return true;
        }
        value := value[..off] + v + value[off + size..];
      }
      return false;
    }

    /** The zeroing loop runs before the final copy, which panics unless off + 32 is the end. */
    method Set32(off: u64, w: Word) returns (panicked: bool)
      modifies this
      ensures panicked <==> Set32Spec(old(value), off, w).None?
      ensures !panicked ==> value == Set32Spec(old(value), off, w).value
    {
      if off + 32 >= TWO64 {
        return true;
      }
      if off + 32 > |value| {
        Resize(off + 32);
      }
      ghost var grown := value;
      var idx := off;
      while idx < off + 32
        invariant off <= idx <= off + 32
        invariant |value| == |grown|
        invariant value[..off] == grown[..off]
        invariant forall i :: off <= i < idx ==> value[i] == 0
      {
        value := value[idx := 0];
        idx := idx + 1;
      }
      var bytes := U256ToLeU8Vec(w);
      if |value| - off != 32 {
        return true;
      }
      value := value[..off] + bytes;
      return false;
    }

    /**
     * Returns (true, _) where the Rust code panics. The result vector is
     * built by pushing zeros and then overwritten with the window.
     */
    method GetCopy(off: int, size: int) returns (panicked: bool, r: Option<seq<u8>>)
      requires -0x8000_0000_0000_0000 <= off < TWO63 && -0x8000_0000_0000_0000 <= size < TWO63
      modifies this
      ensures panicked <==> GetCopySpec(old(value), off, size).None?
      ensures !panicked ==> (value, r) == GetCopySpec(old(value), off, size).value
    {
      if size == 0 {
        return false, None;
      }
      var ret: seq<u8> := [];
      if |value| > I64AsUsize(off) {
        var begin := I64AsUsize(off);
        if !(-0x8000_0000_0000_0000 <= off + size < TWO63) {
          return true, None;
        }
        var end := I64AsUsize(off + size);
        var i := begin;
        while i < end
          invariant begin <= i && (i <= end || i == begin)
          invariant |ret| == i - begin
        {
          ret := ret + [0];
          i := i + 1;
        }
        if |value| < end {
          Resize(end);
        }
        if end < begin {
          return true, None;
        }
        ret := value[begin..end];
        return false, Some(ret);
      }
      return false, Some(ret);
    }
  }
}
