// The shape of what the ledger hands to the `rlp` crate: which fields are
// appended, in which order, and under which declared list length. The byte
// encoding itself (Yellow Paper, Appendix B) is not modelled.
module RlpItems {
  import opened Wrappers
  import opened EthTypes

  /** An appended value: an integer, a byte string, or a nested list. */
  datatype Item = Num(n: nat) | Str(bytes: seq<u8>) | Items(list: seq<Item>)

  /**
   * `begin_list(declared)` followed by appending `appended`: the first
   * `declared` items form the list, and any items after them follow it at the
   * top level. With fewer items than declared the list is never finished and
   * `rlp::encode` panics (None).
   */
  function Close(declared: nat, appended: seq<Item>): (top: Option<seq<Item>>)
    ensures top.None? <==> |appended| < declared
    ensures top.Some? ==> |top.value| == 1 + |appended| - declared
    ensures top.Some? ==> top.value[0] == Items(appended[..declared])
    ensures top.Some? ==> top.value[1..] == appended[declared..]
  {
    if |appended| < declared then None
    else Some([Items(appended[..declared])] + appended[declared..])
  }

  /** A list declared with as many items as were appended closes into exactly that list. */
  lemma CloseAll(appended: seq<Item>)
    ensures Close(|appended|, appended) == Some([Items(appended)])
  {
    assert appended[..|appended|] == appended;
    assert appended[|appended|..] == [];
    assert [Items(appended)] + [] == [Items(appended)];
  }

  /** Decoding reads the first item of the stream, which must be a list. */
  function Fields(top: seq<Item>): (r: Option<seq<Item>>)
    ensures r.Some? <==> top != [] && top[0].Items?
  {
    if top != [] && top[0].Items? then Some(top[0].list) else None
  }

  /** `val_at::<usize>` / `val_at::<u64>`. */
  function U64At(l: seq<Item>, i: nat): (r: Option<u64>)
    ensures r.Some? <==> i < |l| && l[i].Num? && l[i].n < TWO64
    ensures r.Some? ==> r.value == l[i].n
  {
    if i < |l| && l[i].Num? && l[i].n < TWO64 then Some(l[i].n) else None
  }

  /** `val_at::<U256>`. */
  function WordAt(l: seq<Item>, i: nat): (r: Option<Word>)
    ensures r.Some? <==> i < |l| && l[i].Num? && l[i].n < TWO256
    ensures r.Some? ==> r.value == l[i].n
  {
    if i < |l| && l[i].Num? && l[i].n < TWO256 then Some(l[i].n) else None
  }

  /** `val_at::<Vec<u8>>`. */
  function BytesAt(l: seq<Item>, i: nat): (r: Option<seq<u8>>)
    ensures r.Some? <==> i < |l| && l[i].Str?
    ensures r.Some? ==> r.value == l[i].bytes
  {
    if i < |l| && l[i].Str? then Some(l[i].bytes) else None
  }

  /** `val_at::<H160>`: a byte string of exactly 20 bytes. */
  function AddressAt(l: seq<Item>, i: nat): (r: Option<Address>)
    ensures r.Some? <==> i < |l| && l[i].Str? && |l[i].bytes| == 20
    ensures r.Some? ==> r.value == l[i].bytes
  {
    if i < |l| && l[i].Str? && |l[i].bytes| == 20 then var a: Address := l[i].bytes; Some(a) else None
  }

  /** `val_at::<H256>`: a byte string of exactly 32 bytes. */
  function H256At(l: seq<Item>, i: nat): (r: Option<H256>)
    ensures r.Some? <==> i < |l| && l[i].Str? && |l[i].bytes| == 32
    ensures r.Some? ==> r.value == l[i].bytes
  {
    if i < |l| && l[i].Str? && |l[i].bytes| == 32 then var h: H256 := l[i].bytes; Some(h) else None
  }

  /** `Encodable` for a vector of addresses: one 20-byte string per element. */
  function AddressList(addrs: seq<Address>): (r: Item)
    ensures r.Items? && |r.list| == |addrs|
    ensures forall i :: 0 <= i < |addrs| ==> r.list[i] == Str(addrs[i])
  {
    Items(seq(|addrs|, i requires 0 <= i < |addrs| => Str(addrs[i])))
  }

  /** `as_list::<H160>`: every element must be a 20-byte string. */
  function AddressListAt(l: seq<Item>, i: nat): (r: Option<seq<Address>>)
    ensures r.Some? <==> i < |l| && l[i].Items?
                         && forall j :: 0 <= j < |l[i].list| ==> l[i].list[j].Str? && |l[i].list[j].bytes| == 20
    ensures r.Some? ==> |r.value| == |l[i].list|
                        && forall j :: 0 <= j < |r.value| ==> r.value[j] == l[i].list[j].bytes
    ensures r.Some? ==> l[i] == AddressList(r.value)
  {
    if i < |l| && l[i].Items?
       && forall j :: 0 <= j < |l[i].list| ==> l[i].list[j].Str? && |l[i].list[j].bytes| == 20
    then var addrs: seq<Address> := seq(|l[i].list|, j requires 0 <= j < |l[i].list| => l[i].list[j].bytes);
      Some(addrs)
    else None
  }

  /** Reading back a list of addresses gives the addresses. */
  lemma AddressListRoundTrip(addrs: seq<Address>)
    ensures AddressListAt([AddressList(addrs)], 0) == Some(addrs)
  {
    var r := AddressListAt([AddressList(addrs)], 0);
    assert r.Some?;
    assert r.value == addrs;
  }

  /** The length of the shortest big-endian encoding of v: zero needs no byte. */
  function ByteLength(v: nat): (n: nat)
    ensures n == 0 <==> v == 0
    decreases v
  {
    if v == 0 then 0 else 1 + ByteLength(v / 256)
  }

  /**
   * `Rlp::size`: the payload length in bytes of a data item, and 0 for a
   * list, however many items the list holds.
   */
  function Size(it: Item): (n: nat)
    ensures it.Items? ==> n == 0
    ensures it.Str? ==> n == |it.bytes|
    ensures it.Num? ==> (n == 0 <==> it.n == 0)
  {
    match it
    case Num(v) => ByteLength(v)
    case Str(bytes) => |bytes|
    case Items(_) => 0
  }

  /** `Rlp::at`: item i of a list; an error for a data item or an index past the end. */
  function At(it: Item, i: nat): (r: Option<Item>)
    ensures r.Some? <==> it.Items? && i < |it.list|
    ensures r.Some? ==> r.value == it.list[i]
  {
    if it.Items? && i < |it.list| then Some(it.list[i]) else None
  }
}
