// ledger/src/sql_util.rs: turning a byte blob read back from the database
// into a 32-byte hash or a 256-bit number.
module LedgerSqlUtil {
  import opened Arith
  import opened EthTypes

  /**
   * `to_h256`: copies the blob into a zeroed 32-byte array from index 0.
   * A blob longer than 32 bytes indexes past the array and panics, so callers
   * must pass at most 32 bytes.
   */
  method ToH256(v: seq<u8>) returns (h: H256)
    requires |v| <= 32
    ensures h == v + Zeros(32 - |v|)
  {
    var data := new u8[32](_ => 0);
    var cnt := 0;
    while cnt < |v|
      invariant 0 <= cnt <= |v|
      invariant data[..cnt] == v[..cnt]
      invariant forall i :: cnt <= i < 32 ==> data[i] == 0
    {
      data[cnt] := v[cnt];
      cnt := cnt + 1;
    }
    assert data[..] == v + Zeros(32 - |v|);
    h := data[..];
  }

  /**
   * `to_u256`: the padded blob read as a little-endian number, so the blob's
   * first byte is the least significant one.
   */
  method ToU256(v: seq<u8>) returns (w: Word)
    requires |v| <= 32
    ensures w == LeValue(v)
    ensures w < Pow(256, |v|)
  {
    var h := ToH256(v);
    LeValuePadded(v, 32 - |v|);
    LeValueBound(v);
    LeValueBound(h);
    PowersOfTwo();
    w := LeValue(h);
  }

  /** Zero bytes at the high end do not change a little-endian value. */
  lemma {:induction false} LeValuePadded(v: seq<u8>, k: nat)
    ensures LeValue(v + Zeros(k)) == LeValue(v)
    decreases |v|, k
  {
    if v == [] {
      if k > 0 {
        assert (v + Zeros(k))[1..] == [] + Zeros(k - 1);
        LeValuePadded([], k - 1);
      }
    } else {
      assert (v + Zeros(k))[1..] == v[1..] + Zeros(k);
      LeValuePadded(v[1..], k);
    }
  }
}
