// ledger/src/transaction.rs: the signed transaction a client submits
// (RawTransaction), the committed transaction the ledger stores
// (Transaction), the validator list, and the field lists both are encoded as.
module LedgerTransaction {
  import opened Wrappers
  import opened EthTypes
  import opened VecUtil
  import opened RlpItems

  /** `usize` on a 64-bit target. */
  type usize = u64

  datatype RawTransaction = RawTransaction(
    nonce: usize,
    gasPrice: Word,
    gas: Word,
    recipient: Address,
    value: Word,
    data: seq<u8>,
    v: usize,
    r: seq<u8>,
    s: seq<u8>)

  datatype Transaction = Transaction(
    nonce: usize,
    recipient: Address,
    data: seq<u8>,
    v: usize,
    r: seq<u8>,
    s: seq<u8>,
    timestamp: u64,
    stateHash: H256,
    parentHash: seq<u8>,
    committer: Address,
    validators: seq<Address>)

  /** `Transaction::default`: every number zero, every hash and address all-zero, every list empty. */
  function DefaultTransaction(): (t: Transaction)
    ensures t.nonce == 0 && t.v == 0 && t.timestamp == 0
    ensures forall i :: 0 <= i < 20 ==> t.recipient[i] == 0 && t.committer[i] == 0
    ensures forall i :: 0 <= i < 32 ==> t.stateHash[i] == 0
    ensures t.data == [] && t.r == [] && t.s == [] && t.parentHash == [] && t.validators == []
  {
    Transaction(0, Zeros(20), [], 0, [], [], 0, Zeros(32), [], Zeros(20), [])
  }

  /**
   * `from_raw_transaction`: a default transaction with the identity and the
   * signature of the raw one copied in; gas, gas price and value are dropped.
   */
  method FromRawTransaction(ptx: RawTransaction) returns (tx: Transaction)
    ensures tx.nonce == ptx.nonce && tx.recipient == ptx.recipient && tx.data == ptx.data
    ensures tx.v == ptx.v && tx.r == ptx.r && tx.s == ptx.s
    ensures tx.timestamp == 0 && tx.stateHash == Zeros(32) && tx.parentHash == []
    ensures tx.committer == Zeros(20) && tx.validators == []
  {
    tx := DefaultTransaction();
    tx := tx.(nonce := ptx.nonce);
    tx := tx.(recipient := ptx.recipient);
    var data := CopyFrom(ptx.data);
    tx := tx.(data := data);
    tx := tx.(v := ptx.v);
    var r := CopyBetween(ptx.r, tx.r);
    tx := tx.(r := r);
    var s := CopyBetween(ptx.s, tx.s);
    tx := tx.(s := s);
    tx := tx.(committer := Zeros(20));
    tx := tx.(validators := []);
  }

  // ---------------------------------------------------------------------
  // Hash160Vector::from
  // ---------------------------------------------------------------------

  /** `Address::from_slice`, which panics (None) unless given exactly 20 bytes. */
  function FromSlice(bs: seq<u8>): (a: Option<Address>)
    ensures a.Some? <==> |bs| == 20
    ensures a.Some? ==> a.value == bs
  {
    if |bs| == 20 then var x: Address := bs; Some(x) else None
  }

  /**
   * `Hash160Vector::from(Vec<u8>)` as written; None is a panic. The guard in
   * the loop tests the length of the whole input, which never changes, so for
   * an input whose length is a multiple of 20 every iteration hands the
   * buffer to `from_slice` before it holds 20 bytes. The first such call
   * panics; `ok` records that and the result is None either way.
   */
  method Hash160VectorFrom(value: seq<u8>) returns (r: Option<seq<Address>>)
    ensures |value| % 20 != 0 ==> r == Some([])
    ensures |value| % 20 == 0 ==> r == None
  {
    if |value| % 20 != 0 {
      return Some([]);
    }
    var addresses: seq<Address> := [];
    var temp: seq<u8> := [];
    var ok := true;
    var idx := 0;
    while idx < |value|
      invariant 0 <= idx <= |value|
      invariant ok <==> idx == 0
      invariant |temp| == if idx == 0 then 0 else 1
    {
      if |value| % 20 == 0 {
        match FromSlice(temp) {
          case None => ok := false;
          case Some(a) => addresses := addresses + [a];
        }
        temp := [];
      }
      temp := temp + [value[idx]];
      idx := idx + 1;
    }
    match FromSlice(temp) {
      case None => ok := false;
      case Some(a) => addresses := addresses + [a];
    }
    r := if ok then Some(addresses) else None;
  }

  /** The evident intent: cut the bytes into consecutive 20-byte addresses. */
  function Chunks(value: seq<u8>): (addrs: seq<Address>)
    requires |value| % 20 == 0
    ensures |addrs| == |value| / 20
    decreases |value|
  {
    if value == [] then [] else var a: Address := value[..20]; [a] + Chunks(value[20..])
  }

  /** Concatenating addresses back into bytes. */
  function Concat(addrs: seq<Address>): (bs: seq<u8>)
    ensures |bs| == 20 * |addrs|
  {
    if addrs == [] then [] else addrs[0] + Concat(addrs[1..])
  }

  /** `Hash160Vector::from` corrected: a length that is not a multiple of 20 still gives no addresses. */
  function Hash160VectorFromChunks(value: seq<u8>): (addrs: seq<Address>)
    ensures |value| % 20 != 0 ==> addrs == []
    ensures |value| % 20 == 0 ==> Concat(addrs) == value
  {
    if |value| % 20 != 0 then [] else ChunksConcat(value); Chunks(value)
  }

  /** Chunking then concatenating gives the bytes back. */
  lemma {:induction false} ChunksConcat(value: seq<u8>)
    requires |value| % 20 == 0
    ensures Concat(Chunks(value)) == value
    decreases |value|
  {
    if value != [] {
      ChunksConcat(value[20..]);
      var c := Chunks(value);
      assert c[0] == value[..20] && c[1..] == Chunks(value[20..]);
      assert value == value[..20] + value[20..];
    }
  }

  /** Concatenating then chunking gives the addresses back. */
  lemma {:induction false} ConcatChunks(addrs: seq<Address>)
    ensures Chunks(Concat(addrs)) == addrs
  {
    if addrs != [] {
      var bs := Concat(addrs);
      assert bs[..20] == addrs[0] && bs[20..] == Concat(addrs[1..]);
      ConcatChunks(addrs[1..]);
      assert addrs == [addrs[0]] + addrs[1..];
    }
  }

  /**
   * Twenty zero bytes hold one address, the zero address, where the written
   * conversion panics.
   */
  lemma TwentyBytesHoldOneAddress()
    ensures Hash160VectorFromChunks(Zeros(20)) == [Zeros(20)]
  {
    assert Zeros(20)[..20] == Zeros(20);
    assert Zeros(20)[20..] == [];
  }

  // ---------------------------------------------------------------------
  // RLP field lists
  // ---------------------------------------------------------------------

  /** The nine fields of a raw transaction, in the order they are appended. */
  function RawFields(t: RawTransaction): (l: seq<Item>)
    ensures |l| == 9
  {
    [Num(t.nonce), Num(t.gasPrice), Num(t.gas), Str(t.recipient), Num(t.value),
     Str(t.data), Num(t.v), Str(t.r), Str(t.s)]
  }

  /** `Encodable for RawTransaction`: a list declared with nine items. */
  function EncodeRaw(t: RawTransaction): (r: Option<seq<Item>>)
    ensures r.Some? && |r.value| == 1 && r.value[0] == Items(RawFields(t))
  {
    Close(9, RawFields(t))
  }

  /**
   * `Decodable for RawTransaction`: fields 0 to 8 in the same order. What
   * it decodes is exactly what the first nine items of the list spell.
   */
  function DecodeRaw(top: seq<Item>): (r: Option<RawTransaction>)
    ensures r.Some? ==> top != [] && top[0].Items? && 9 <= |top[0].list|
    ensures r.Some? ==> RawFields(r.value) == top[0].list[..9]
  {
    var l :- Fields(top);
    var nonce :- U64At(l, 0);
    var gasPrice :- WordAt(l, 1);
    var gas :- WordAt(l, 2);
    var recipient :- AddressAt(l, 3);
    var value :- WordAt(l, 4);
    var data :- BytesAt(l, 5);
    var v :- U64At(l, 6);
    var r :- BytesAt(l, 7);
    var s :- BytesAt(l, 8);
    Some(RawTransaction(nonce, gasPrice, gas, recipient, value, data, v, r, s))
  }

  /** The raw transaction survives encoding and decoding: one list, nine fields, same order. */
  lemma RawRoundTrip(t: RawTransaction)
    ensures EncodeRaw(t).Some? && |EncodeRaw(t).value| == 1
    ensures DecodeRaw(EncodeRaw(t).value) == Some(t)
  {
  }

  /** The eleven fields of a committed transaction, in the order they are appended. */
  function TransactionFields(t: Transaction): (l: seq<Item>)
    ensures |l| == 11
  {
    [Num(t.nonce), Str(t.recipient), Str(t.data), Num(t.v), Str(t.r), Str(t.s),
     Num(t.timestamp), Str(t.stateHash), Str(t.parentHash), Str(t.committer),
     AddressList(t.validators)]
  }

  /**
   * `Encodable for Transaction` as written: `begin_list(9)` and eleven
   * appends, so the list closes after the parent hash and the committer and
   * validators follow it as two items of their own.
   */
  function EncodeTransaction(t: Transaction): (r: Option<seq<Item>>)
    ensures r.Some? && |r.value| == 3 && r.value[0] == Items(TransactionFields(t)[..9])
    ensures r.Some? ==> r.value[1] == Str(t.committer) && r.value[2] == AddressList(t.validators)
  {
    Close(9, TransactionFields(t))
  }

  /** `Encodable for Transaction` corrected: the list declares the eleven items it holds. */
  function EncodeTransactionAsIntended(t: Transaction): (r: Option<seq<Item>>)
    ensures r.Some? && |r.value| == 1 && r.value[0] == Items(TransactionFields(t))
  {
    Close(11, TransactionFields(t))
  }

  /**
   * How `Decodable for Transaction` fails: a `DecoderError` returned through
   * `?`, or a panic in `Hash160Vector::decode`, which unwraps `as_list`.
   */
  datatype DecodeFailure = Malformed | Panic

  /** Fields 0 to 9 with `?` after each; the validators are left empty. */
  function DecodeLeading(top: seq<Item>): (r: Option<Transaction>)
    ensures r.Some? ==> top != [] && top[0].Items? && 10 <= |top[0].list|
    ensures r.Some? ==> r.value.validators == [] && TransactionFields(r.value)[..10] == top[0].list[..10]
  {
    var l :- Fields(top);
    var nonce :- U64At(l, 0);
    var recipient :- AddressAt(l, 1);
    var data :- BytesAt(l, 2);
    var v :- U64At(l, 3);
    var r :- BytesAt(l, 4);
    var s :- BytesAt(l, 5);
    var timestamp :- U64At(l, 6);
    var stateHash :- H256At(l, 7);
    var parentHash :- BytesAt(l, 8);
    var committer :- AddressAt(l, 9);
    Some(Transaction(nonce, recipient, data, v, r, s, timestamp, stateHash, parentHash, committer, []))
  }

  /**
   * `Decodable for Transaction`: fields 0 to 10 in order, the first failure
   * winning. A missing eleventh item is a decoder error; one that is not a
   * list of 20-byte strings makes `Hash160Vector::decode` panic.
   */
  function DecodeTransaction(top: seq<Item>): (r: Result<Transaction, DecodeFailure>)
    ensures r.Ok? ==> top != [] && top[0].Items? && 11 <= |top[0].list|
    ensures r.Ok? ==> TransactionFields(r.value) == top[0].list[..11]
    ensures r == Err(Panic) ==> top != [] && top[0].Items? && 11 <= |top[0].list|
                                && AddressListAt(top[0].list, 10).None?
  {
    match DecodeLeading(top)
    case None => Err(Malformed)
    case Some(t) =>
      var l := top[0].list;
      if |l| < 11 then Err(Malformed)
      else match AddressListAt(l, 10)
        case None => Err(Panic)
        case Some(validators) => Ok(t.(validators := validators))
  }

  /**
   * As written, the list closes after nine items, committer and validators
   * are left outside it, and decoding fails at index 9 for every transaction.
   */
  lemma TransactionDoesNotRoundTrip(t: Transaction)
    ensures EncodeTransaction(t).Some? && |EncodeTransaction(t).value| == 3
    ensures |EncodeTransaction(t).value[0].list| == 9
    ensures DecodeTransaction(EncodeTransaction(t).value) == Err(Malformed)
  {
    var top := EncodeTransaction(t).value;
    assert |top[0].list| == 9;
    assert AddressAt(top[0].list, 9) == None;
  }

  /**
   * Where the validators item is a byte string instead of a list, the
   * decoder panics rather than returning an error.
   */
  lemma ValidatorsNotAListPanics(t: Transaction)
    ensures DecodeTransaction([Items(TransactionFields(t)[..10] + [Str([])])]) == Err(Panic)
  {
    var l := TransactionFields(t)[..10] + [Str([])];
    assert l[..10] == TransactionFields(t)[..10];
    assert DecodeLeading([Items(l)]) == Some(t.(validators := []));
  }

  /** With the declared length corrected, decoding gives the transaction back. */
  lemma TransactionRoundTrip(t: Transaction)
    ensures EncodeTransactionAsIntended(t).Some? && |EncodeTransactionAsIntended(t).value| == 1
    ensures DecodeTransaction(EncodeTransactionAsIntended(t).value) == Ok(t)
  {
    var l := TransactionFields(t);
    AddressListRoundTrip(t.validators);
    assert AddressListAt(l, 10) == AddressListAt([AddressList(t.validators)], 0);
  }
}
