// The fixed-width integers of Rust and of the `ethereum_types` crate: U256 words,
// 20-byte addresses, 32-byte hashes, and the byte encodings between them.
module EthTypes {
  import opened Arith
  import opened Wrappers

  const TWO8: nat := 0x100
  const TWO63: nat := 0x8000_0000_0000_0000
  const TWO64: nat := 0x1_0000_0000_0000_0000
  const TWO128: nat := 0x1_0000_0000_0000_0000_0000_0000_0000_0000
  const TWO192: nat := 0x1_0000_0000_0000_0000_0000_0000_0000_0000_0000_0000_0000_0000
  const TWO256: nat := 0x1_0000_0000_0000_0000_0000_0000_0000_0000_0000_0000_0000_0000_0000_0000_0000_0000

  type u8 = x: int | 0 <= x < 0x100
  type u32 = x: int | 0 <= x < 0x1_0000_0000
  type u64 = x: int | 0 <= x < 0x1_0000_0000_0000_0000
  /** A U256 value of the `ethereum_types` crate. */
  type Word = x: int | 0 <= x < 0x1_0000_0000_0000_0000_0000_0000_0000_0000_0000_0000_0000_0000_0000_0000_0000_0000
  /** An H160, stored as its 20 bytes. */
  type Address = s: seq<u8> | |s| == 20 witness Zeros(20)
  /** An H256, stored as its 32 bytes. */
  type H256 = s: seq<u8> | |s| == 32 witness Zeros(32)

  function Zeros(n: nat): (z: seq<u8>)
    ensures |z| == n
    ensures forall i :: 0 <= i < n ==> z[i] == 0
  {
    seq(n, _ => 0)
  }

  function Reverse<T>(s: seq<T>): (r: seq<T>)
    ensures |r| == |s|
    ensures forall i :: 0 <= i < |s| ==> r[i] == s[|s| - 1 - i]
  {
    if s == [] then [] else Reverse(s[1..]) + [s[0]]
  }

  /** The n low bytes of w, least significant first. */
  function LeBytes(w: nat, n: nat): (bs: seq<u8>)
    ensures |bs| == n
  {
    if n == 0 then [] else [w % 256] + LeBytes(w / 256, n - 1)
  }

  /** The number whose little-endian bytes are bs. */
  function LeValue(bs: seq<u8>): nat
  {
    if bs == [] then 0 else bs[0] + 256 * LeValue(bs[1..])
  }

  /** The number whose big-endian bytes are bs. */
  function BeValue(bs: seq<u8>): nat
  {
    if bs == [] then 0 else 256 * BeValue(bs[..|bs| - 1]) + bs[|bs| - 1]
  }

  /** Byte k of the little-endian encoding is digit k of w in base 256. */
  lemma {:induction false} LeBytesAt(w: nat, n: nat, k: nat)
    requires k < n
    ensures LeBytes(w, n)[k] == w / Pow(256, k) % 256
    decreases k
  {
    if k > 0 {
      LeBytesAt(w / 256, n - 1, k - 1);
      DivDiv(w, 256, Pow(256, k - 1));
    }
  }

  lemma {:induction false} LeValueBound(bs: seq<u8>)
    ensures LeValue(bs) < Pow(256, |bs|)
    decreases |bs|
  {
    if bs != [] {
      LeValueBound(bs[1..]);
      assert LeValue(bs[1..]) + 1 <= Pow(256, |bs| - 1);
      MulLe(256, LeValue(bs[1..]) + 1, Pow(256, |bs| - 1));
    }
  }

  lemma {:induction false} BeValueBound(bs: seq<u8>)
    ensures BeValue(bs) < Pow(256, |bs|)
    decreases |bs|
  {
    if bs != [] {
      BeValueBound(bs[..|bs| - 1]);
      MulLe(256, BeValue(bs[..|bs| - 1]) + 1, Pow(256, |bs| - 1));
    }
  }

  /** Decoding the little-endian encoding gives the number back. */
  lemma {:induction false} LeValueOfLeBytes(w: nat, n: nat)
    requires w < Pow(256, n)
    ensures LeValue(LeBytes(w, n)) == w
    decreases n
  {
    if n > 0 {
      var bs := LeBytes(w, n);
      assert bs[1..] == LeBytes(w / 256, n - 1);
      DivDiv(w, 256, Pow(256, n - 1));
      SmallDivIsZero(w, Pow(256, n));
      assert w / 256 < Pow(256, n - 1) by {
        var t := w / 256;
        assert t / Pow(256, n - 1) == 0;
        assert t == Pow(256, n - 1) * (t / Pow(256, n - 1)) + t % Pow(256, n - 1);
      }
      LeValueOfLeBytes(w / 256, n - 1);
    }
  }

  /** Encoding the decoded value gives the bytes back. */
  lemma {:induction false} LeBytesOfLeValue(bs: seq<u8>)
    ensures LeBytes(LeValue(bs), |bs|) == bs
    decreases |bs|
  {
    if bs != [] {
      var v := LeValue(bs);
      DivModAddMultiple(256, LeValue(bs[1..]), bs[0]);
      assert v % 256 == bs[0] && v / 256 == LeValue(bs[1..]);
      LeBytesOfLeValue(bs[1..]);
      assert bs == [bs[0]] + bs[1..];
    }
  }

  lemma LeBytesInjective(w1: nat, w2: nat, n: nat)
    requires w1 < Pow(256, n) && w2 < Pow(256, n)
    requires LeBytes(w1, n) == LeBytes(w2, n)
    ensures w1 == w2
  {
    LeValueOfLeBytes(w1, n);
    LeValueOfLeBytes(w2, n);
  }

  /** Reading reversed bytes big-endian is reading them little-endian. */
  lemma {:induction false} BeValueOfReverse(bs: seq<u8>)
    ensures BeValue(Reverse(bs)) == LeValue(bs)
    decreases |bs|
  {
    if bs != [] {
      var r := Reverse(bs);
      assert r == Reverse(bs[1..]) + [bs[0]];
      assert r[..|r| - 1] == Reverse(bs[1..]);
      BeValueOfReverse(bs[1..]);
    }
  }

  /** Appending k zero bytes to a big-endian number shifts it by k bytes. */
  lemma {:induction false} BeValueOfPadded(bs: seq<u8>, k: nat)
    ensures BeValue(bs + Zeros(k)) == BeValue(bs) * Pow(256, k)
    decreases k
  {
    if k == 0 {
      assert bs + Zeros(0) == bs;
    } else {
      var s := bs + Zeros(k);
      assert s[..|s| - 1] == bs + Zeros(k - 1);
      BeValueOfPadded(bs, k - 1);
      calc {
        BeValue(s);
        256 * BeValue(bs + Zeros(k - 1)) + 0;
        256 * (BeValue(bs) * Pow(256, k - 1));
        BeValue(bs) * (256 * Pow(256, k - 1));
      }
    }
  }

  lemma PowersOfTwo()
    ensures Pow(256, 8) == TWO64
    ensures Pow(256, 32) == TWO256
    ensures Pow(256, 20) == 0x1_0000_0000_0000_0000_0000_0000_0000_0000_0000_0000
  {
    PowAdd(256, 8, 8);
    PowAdd(256, 16, 16);
    PowAdd(256, 16, 4);
    PowAdd(256, 4, 4);
    PowAdd(256, 2, 2);
  }

  /** Limb k of a U256: the k-th 64-bit digit, least significant first. */
  function Limb(w: Word, k: nat): u64
    requires k < 4
  {
    (if k == 0 then w else if k == 1 then w / TWO64 else if k == 2 then w / TWO128 else w / TWO192) % TWO64
  }

  /** The test `as_u64` and the memory-size helpers apply: limbs 1 to 3 are zero. */
  predicate HighLimbsZero(w: Word)
  {
    Limb(w, 1) == 0 && Limb(w, 2) == 0 && Limb(w, 3) == 0
  }

  lemma HighLimbsZeroIff(w: Word)
    ensures HighLimbsZero(w) <==> w < TWO64
  {
    if w >= TWO64 {
      var a := w / TWO64;
      assert a >= 1;
      if a % TWO64 == 0 {
        DivDiv(w, TWO64, TWO64);
        var b := w / TWO128;
        assert b == a / TWO64 && b >= 1;
        if b % TWO64 == 0 {
          DivDiv(w, TWO128, TWO64);
          var c := w / TWO192;
          assert c == b / TWO64 && c >= 1 && c < TWO64;
        }
      }
    }
  }

  /** `U256::as_u64`, which panics (None here) unless the high limbs are zero. */
  function AsU64(w: Word): (r: Option<u64>)
    ensures r.Some? <==> HighLimbsZero(w)
    ensures r.Some? ==> r.value == w
  {
    HighLimbsZeroIff(w);
    if w < TWO64 then Some(w) else None
  }

  /** Rust's `as i64` on a u64: two's-complement reinterpretation. */
  function AsI64(x: u64): (r: int)
    ensures -0x8000_0000_0000_0000 <= r < TWO63
    ensures r >= 0 <==> x < TWO63
    ensures r % TWO64 == x
  {
    if x < TWO63 then x else x - TWO64
  }

  /** Rust's `as usize` on an i64 (64-bit target): two's-complement reinterpretation. */
  function I64AsUsize(x: int): (r: u64)
    requires -0x8000_0000_0000_0000 <= x < TWO63
    ensures r % TWO64 == x % TWO64
    ensures x >= 0 ==> r == x
  {
    if x >= 0 then x else x + TWO64
  }

  /**
   * The word whose big-endian bytes are an address (`U256::from(address.as_bytes())`):
   * it fits in 160 bits, and its low 20 bytes, most significant first, are the address.
   */
  function AddressToWord(a: Address): (w: Word)
    ensures w < Pow(256, 20)
    ensures Reverse(LeBytes(w, 20)) == a
  {
    BeBytesOfBeValue(a);
    BeValueBound(a);
    PowersOfTwo();
    PowMonotone(256, 20, 32);
    BeValue(a)
  }

  // Bitwise operators on non-negative integers, one bit at a time.

  function BitAnd(x: nat, y: nat): nat
    decreases x
  {
    if x == 0 || y == 0 then 0
    else 2 * BitAnd(x / 2, y / 2) + (if x % 2 == 1 && y % 2 == 1 then 1 else 0)
  }

  function BitOr(x: nat, y: nat): nat
    decreases x + y
  {
    if x == 0 then y
    else if y == 0 then x
    else 2 * BitOr(x / 2, y / 2) + (if x % 2 == 1 || y % 2 == 1 then 1 else 0)
  }

  function BitXor(x: nat, y: nat): nat
    decreases x + y
  {
    if x == 0 then y
    else if y == 0 then x
    else 2 * BitXor(x / 2, y / 2) + (if x % 2 != y % 2 then 1 else 0)
  }

  lemma {:induction false} BitAndBound(x: nat, y: nat)
    ensures BitAnd(x, y) <= x && BitAnd(x, y) <= y
    decreases x
  {
    if x != 0 && y != 0 {
      BitAndBound(x / 2, y / 2);
    }
  }

  lemma {:induction false} BitOrBound(x: nat, y: nat, k: nat)
    requires x < Pow(2, k) && y < Pow(2, k)
    ensures BitOr(x, y) < Pow(2, k)
    decreases k
  {
    if x != 0 && y != 0 {
      BitOrBound(x / 2, y / 2, k - 1);
    }
  }

  lemma {:induction false} BitXorBound(x: nat, y: nat, k: nat)
    requires x < Pow(2, k) && y < Pow(2, k)
    ensures BitXor(x, y) < Pow(2, k)
    decreases k
  {
    if x != 0 && y != 0 {
      BitXorBound(x / 2, y / 2, k - 1);
    }
  }

  lemma {:induction false} BitsAsBytes(k: nat)
    ensures Pow(2, 8 * k) == Pow(256, k)
  {
    if k > 0 {
      BitsAsBytes(k - 1);
      PowAdd(2, 8, 8 * (k - 1));
    }
  }

  lemma TwoToThe256()
    ensures Pow(2, 256) == TWO256
  {
    BitsAsBytes(32);
    PowersOfTwo();
  }

  /** Writing the big-endian value of bs back in |bs| big-endian bytes gives bs. */
  lemma BeBytesOfBeValue(bs: seq<u8>)
    ensures Reverse(LeBytes(BeValue(bs), |bs|)) == bs
  {
    var r := Reverse(bs);
    assert Reverse(r) == bs;
    BeValueOfReverse(r);
    LeBytesOfLeValue(r);
  }

  /** Big-endian bytes of a U256 given as a byte string of at most 32 bytes (`U256::from_big_endian`). */
  function WordFromBe(bs: seq<u8>): (w: Word)
    requires |bs| <= 32
    ensures w < Pow(256, |bs|)
    ensures Reverse(LeBytes(w, |bs|)) == bs
  {
    BeBytesOfBeValue(bs);
    BeValueBound(bs);
    PowersOfTwo();
    PowMonotone(256, |bs|, 32);
    BeValue(bs)
  }
}
