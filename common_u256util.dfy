// common/src/u256util.rs: the little-endian byte encoding of a 256-bit word.
module U256Util {
  import opened Arith
  import opened EthTypes

  /** Byte j of limb i is byte 8i+j of the whole word. */
  lemma LimbByte(w: Word, i: nat, j: nat)
    requires i < 4 && j < 8
    ensures Limb(w, i) / Pow(2, 8 * j) % 256 == w / Pow(256, 8 * i + j) % 256
  {
    var p := LimbAsPower(w, i);
    var d := Pow(256, j);
    calc {
      Limb(w, i) / Pow(2, 8 * j) % 256;
      { BitsAsBytes(j); }
      (w / p % TWO64) / d % 256;
      { ByteOfLowWord(w / p, j); }
      w / p / d % 256;
      { DivDiv(w, p, d); }
      w / (p * d) % 256;
      { PowAdd(256, 8 * i, j); }
      w / Pow(256, 8 * i + j) % 256;
    }
  }

  /** Limb i is the word shifted down by 8i bytes, modulo 2^64. */
  lemma LimbAsPower(w: Word, i: nat) returns (p: nat)
    requires i < 4
    ensures p == Pow(256, 8 * i) && p > 0
    ensures Limb(w, i) == w / p % TWO64
  {
    PowersOfTwo();
    PowAdd(256, 8, 8);
    PowAdd(256, 16, 8);
    p := if i == 0 then 1 else if i == 1 then TWO64 else if i == 2 then TWO128 else TWO192;
  }

  /** Byte j of x modulo 2^64 is byte j of x. */
  lemma ByteOfLowWord(x: nat, j: nat)
    requires j < 8
    ensures x % TWO64 / Pow(256, j) % 256 == x / Pow(256, j) % 256
  {
    var d := Pow(256, j);
    var q: nat := x / d;
    var f := Pow(256, 7 - j);
    assert TWO64 == d * (256 * f) by {
      PowersOfTwo();
      PowAdd(256, j, 8 - j);
    }
    calc {
      x % TWO64 / d % 256;
      x % (d * (256 * f)) / d % 256;
      { ModThenDiv(x, d, 256 * f); }
      q % (256 * f) % 256;
      { ModOfMod(q, 256, f); }
      q % 256;
    }
  }

  /** Appending byte idx2 of limb idx to the first 8 * idx + idx2 bytes of w gives the next prefix. */
  lemma AppendLimbByte(w: Word, v: seq<u8>, idx: nat, idx2: nat)
    requires idx < 4 && idx2 < 8 && |v| == 8 * idx + idx2
    requires forall k :: 0 <= k < |v| ==> v[k] == w / Pow(256, k) % 256
    ensures var v' := v + [Limb(w, idx) / Pow(2, idx2 * 8) % 256];
      forall k :: 0 <= k < |v'| ==> v'[k] == w / Pow(256, k) % 256
  {
    LimbByte(w, idx, idx2);
  }

  /** `u256_to_le_u8vec`: the 32 bytes of w, least significant first, limb by limb. */
  method U256ToLeU8Vec(w: Word) returns (v: seq<u8>)
    ensures v == LeBytes(w, 32)
  {
    v := [];
    var idx := 0;
    while idx < 4
      invariant 0 <= idx <= 4
      invariant |v| == 8 * idx
      invariant forall k :: 0 <= k < |v| ==> v[k] == w / Pow(256, k) % 256
    {
      var idx2 := 0;
      while idx2 < 8
        invariant 0 <= idx2 <= 8
        invariant |v| == 8 * idx + idx2
        invariant forall k :: 0 <= k < |v| ==> v[k] == w / Pow(256, k) % 256
      {
        AppendLimbByte(w, v, idx, idx2);
        v := v + [Limb(w, idx) / Pow(2, idx2 * 8) % 256];
        idx2 := idx2 + 1;
      }
      idx := idx + 1;
    }
    forall k | 0 <= k < 32
      ensures v[k] == LeBytes(w, 32)[k]
    {
      LeBytesAt(w, 32, k);
    }
  }

  /**
   * The encoding is exact: summing byte k times 256^k gives back w, and the
   * reversed bytes read big-endian give w as well (what MLOAD relies on).
   */
  lemma LeU8VecDecodes(w: Word)
    ensures LeValue(LeBytes(w, 32)) == w
    ensures BeValue(Reverse(LeBytes(w, 32))) == w
  {
    PowersOfTwo();
    LeValueOfLeBytes(w, 32);
    BeValueOfReverse(LeBytes(w, 32));
  }

  /** Distinct words have distinct encodings. */
  lemma LeU8VecInjective(w1: Word, w2: Word)
    requires LeBytes(w1, 32) == LeBytes(w2, 32)
    ensures w1 == w2
  {
    LeU8VecDecodes(w1);
    LeU8VecDecodes(w2);
  }
}
