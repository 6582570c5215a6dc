// ledger/src/pool.rs: the queue of raw transactions waiting to be committed.
module LedgerPool {
  import opened Wrappers
  import opened LedgerTransaction

  /**
   * The identity `remove` compares on: recipient, nonce and data. Gas price,
   * gas, value and the signature do not take part.
   */
  predicate SameTransaction(a: RawTransaction, b: RawTransaction)
  {
    a.recipient == b.recipient && a.nonce == b.nonce && a.data == b.data
  }

  /** The index of the first entry of `s` that is the same transaction as `tx`. */
  function FirstMatch(s: seq<RawTransaction>, tx: RawTransaction): (r: Option<nat>)
    ensures r.None? <==> forall i :: 0 <= i < |s| ==> !SameTransaction(s[i], tx)
    ensures r.Some? ==> r.value < |s| && SameTransaction(s[r.value], tx)
    ensures r.Some? ==> forall i :: 0 <= i < r.value ==> !SameTransaction(s[i], tx)
  {
    if s == [] then None
    else if SameTransaction(s[0], tx) then Some(0)
    else match FirstMatch(s[1..], tx)
      case None => None
      case Some(k) => Some(k + 1)
  }

  /** The pool contents after removing the first entry matching `tx`, if any. */
  function Removed(s: seq<RawTransaction>, tx: RawTransaction): seq<RawTransaction>
  {
    match FirstMatch(s, tx)
    case None => s
    case Some(i) => s[..i] + s[i + 1..]
  }

  class TxPool {
    var value: seq<RawTransaction>

    /** `TxPool::new`: an empty pool. */
    constructor ()
      ensures value == []
    {
      value := [];
    }

    /** Appends at the end. */
    method Push(rawTx: RawTransaction)
      modifies this
      ensures value == old(value) + [rawTx]
    {
      value := value + [rawTx];
    }

    /**
     * Scans for the first entry with the same recipient, nonce and data and
     * deletes it; with no such entry the pool is left as it was.
     */
    method Remove(rawTx: RawTransaction)
      modifies this
      ensures value == Removed(old(value), rawTx)
    {
      var noError := false;
      var idx := 0;
      while idx < |value|
        invariant 0 <= idx <= |value|
        invariant forall i :: 0 <= i < idx ==> !SameTransaction(value[i], rawTx)
        invariant !noError
      {
        if SameTransaction(value[idx], rawTx) {
          noError := true;
          break;
        }
        idx := idx + 1;
      }
      if !noError {
        return;
      }
      value := value[..idx] + value[idx + 1..];
    }
  }

  /** Removal takes out at most one entry. */
  lemma RemovedLength(s: seq<RawTransaction>, tx: RawTransaction)
    ensures |Removed(s, tx)| == if FirstMatch(s, tx).Some? then |s| - 1 else |s|
  {
  }

  /** What is left keeps its order: an entry before the removed one keeps its index, one after moves down by one. */
  lemma RemovedKeepsOrder(s: seq<RawTransaction>, tx: RawTransaction, i: nat)
    requires FirstMatch(s, tx).Some? && i < |s| - 1
    ensures Removed(s, tx)[i] == if i < FirstMatch(s, tx).value then s[i] else s[i + 1]
  {
  }

  /** Pushing a transaction the pool does not hold and removing it again restores the pool. */
  lemma {:induction false} RemoveUndoesPush(s: seq<RawTransaction>, tx: RawTransaction)
    requires FirstMatch(s, tx).None?
    ensures Removed(s + [tx], tx) == s
  {
    assert FirstMatch(s + [tx], tx) == Some(|s|) by {
      assert (s + [tx])[|s|] == tx;
      assert forall i :: 0 <= i < |s| ==> (s + [tx])[i] == s[i];
    }
    assert (s + [tx])[..|s|] == s;
  }

  /** Removing a transaction that differs only in fees, value or signature removes the same entry. */
  lemma RemoveIgnoresFeesAndSignature(s: seq<RawTransaction>, tx: RawTransaction, other: RawTransaction)
    requires SameTransaction(tx, other)
    ensures Removed(s, tx) == Removed(s, other)
  {
    assert forall x :: SameTransaction(x, tx) <==> SameTransaction(x, other);
    FirstMatchRespectsIdentity(s, tx, other);
  }

  /** The first match is fixed by the entries that are the same transaction, which `tx` and `other` share. */
  lemma FirstMatchRespectsIdentity(s: seq<RawTransaction>, tx: RawTransaction, other: RawTransaction)
    requires SameTransaction(tx, other)
    ensures FirstMatch(s, tx) == FirstMatch(s, other)
  {
    assert forall i :: 0 <= i < |s| ==> (SameTransaction(s[i], tx) <==> SameTransaction(s[i], other));
  }
}
