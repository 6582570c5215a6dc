// common/src/vecutil.rs: byte-vector copying, right padding and the
// overflow-reporting 64-bit multiply the memory-size code uses.
module VecUtil {
  import opened Arith
  import opened EthTypes

  /** `copy_from`: a fresh vector filled element by element from `src`. */
  method CopyFrom(src: seq<u8>) returns (v: seq<u8>)
    ensures v == src
  {
    v := [];
    var i := 0;
    while i < |src|
      invariant 0 <= i <= |src|
      invariant v == src[..i]
    {
      v := v + [src[i]];
      i := i + 1;
    }
  }

  /**
   * `copy_between`: clears `dst` when it is not empty, then pushes every
   * element of `src`. The caller's vector is passed in and its new contents
   * returned.
   */
  method CopyBetween(src: seq<u8>, dst: seq<u8>) returns (dst': seq<u8>)
    ensures dst' == src
  {
    dst' := dst;
    if |dst'| != 0 {
      dst' := [];
    }
    var i := 0;
    while i < |src|
      invariant 0 <= i <= |src|
      invariant dst' == src[..i]
    {
      dst' := dst' + [src[i]];
      i := i + 1;
    }
  }

  /** `right_pad_bytes`: extends with zero bytes up to `length`, never truncates. */
  function RightPadBytes(s: seq<u8>, length: u64): (r: seq<u8>)
    ensures |r| == if length <= |s| then |s| else length
    ensures r[..|s|] == s
    ensures forall i :: |s| <= i < |r| ==> r[i] == 0
  {
    if length <= |s| then s else s + Zeros(length - |s|)
  }

  /** Padding an already padded vector to the same length changes nothing. */
  lemma RightPadIdempotent(s: seq<u8>, length: u64)
    ensures RightPadBytes(RightPadBytes(s, length), length) == RightPadBytes(s, length)
  {
  }

  /** `safe_mul`: `u64::overflowing_mul`, the wrapped product and whether it wrapped. */
  function SafeMul(x: u64, y: u64): (r: (u64, bool))
    ensures r.1 <==> x * y >= TWO64
    ensures !r.1 ==> r.0 == x * y
    ensures r.0 + TWO64 * (x * y / TWO64) == x * y
  {
    var p := x * y;
    (p % TWO64, p >= TWO64)
  }
}
