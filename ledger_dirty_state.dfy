// ledger/src/dirty_state.rs: the storage slots a run has written, per
// account, and the vectors they are turned into before encoding.
module LedgerDirtyState {
  import opened Wrappers
  import opened EthTypes
  import opened RlpItems
  import opened KeyOrder

  /** The written slots of one account: key to value. */
  datatype DirtyKeyValues = DirtyKeyValues(entries: map<H256, H256>)

  /** The written slots of every account touched. */
  datatype DirtyStates = DirtyStates(entries: map<Address, DirtyKeyValues>)

  /**
   * An element of the vector `sort_to_vec` builds: `DirtyKeyValue` (slot key
   * and value) or `DirtyState` (address and the account's slots).
   */
  datatype Pair<V> = Pair(key: seq<u8>, value: V)

  predicate DistinctKeys<V>(v: seq<Pair<V>>)
  {
    forall i, j :: 0 <= i < j < |v| ==> v[i].key != v[j].key
  }

  /** `v` holds every pair of `m` exactly once and nothing else. */
  ghost predicate Lists<V>(v: seq<Pair<V>>, m: map<seq<u8>, V>)
  {
    && |v| == |m|
    && DistinctKeys(v)
    && (forall i :: 0 <= i < |v| ==> v[i].key in m && v[i].value == m[v[i].key])
    && (forall k :: k in m ==> exists i :: 0 <= i < |v| && v[i].key == k)
  }

  // ---------------------------------------------------------------------
  // get_pos and sort_to_vec as written
  // ---------------------------------------------------------------------

  /** The first index whose key is smaller than `k`, if there is one. */
  function FirstSmaller<V>(l: seq<Pair<V>>, k: seq<u8>): (r: Option<nat>)
    ensures r.None? <==> forall i :: 0 <= i < |l| ==> !KeyLess(l[i].key, k)
    ensures r.Some? ==> r.value < |l| && KeyLess(l[r.value].key, k)
    ensures r.Some? ==> forall i :: 0 <= i < r.value ==> !KeyLess(l[i].key, k)
  {
    if l == [] then None
    else if KeyLess(l[0].key, k) then Some(0)
    else match FirstSmaller(l[1..], k)
      case None => None
      case Some(j) => Some(j + 1)
  }

  /** Where `get_pos` puts a new key: before the first smaller key, or at the front. */
  function Pos<V>(l: seq<Pair<V>>, k: seq<u8>): (p: nat)
    ensures p <= |l|
  {
    match FirstSmaller(l, k)
    case Some(i) => i
    case None => 0
  }

  /**
   * `get_pos`: the index of the first entry whose key is strictly smaller
   * than the new key, and 0 when there is none.
   */
  method GetPos<V>(l: seq<Pair<V>>, newKey: seq<u8>) returns (pos: nat)
    ensures pos == Pos(l, newKey)
    ensures pos == 0 || pos < |l|
    ensures pos < |l| && KeyLess(l[pos].key, newKey) ==> forall j :: 0 <= j < pos ==> !KeyLess(l[j].key, newKey)
    ensures (forall j :: 0 <= j < |l| ==> !KeyLess(l[j].key, newKey)) ==> pos == 0
    ensures (exists j :: 0 <= j < |l| && KeyLess(l[j].key, newKey)) ==> KeyLess(l[pos].key, newKey)
  {
    for idx := 0 to |l|
      invariant forall j :: 0 <= j < idx ==> !KeyLess(l[j].key, newKey)
    {
      if KeyLess(l[idx].key, newKey) {
        return idx;
      }
    }
    return 0;
  }

  function InsertAt<V>(l: seq<Pair<V>>, p: nat, kv: Pair<V>): (r: seq<Pair<V>>)
    requires p <= |l|
    ensures |r| == |l| + 1
    ensures forall i :: 0 <= i < |r| ==> r[i] == if i < p then l[i] else if i == p then kv else l[i - 1]
  {
    l[..p] + [kv] + l[p..]
  }

  lemma InsertAtEnd<V>(l: seq<Pair<V>>, kv: Pair<V>)
    ensures InsertAt(l, |l|, kv) == l + [kv]
  {
    assert l[..|l|] == l && l[|l|..] == [];
  }

  /** Inserting a pair whose key is new keeps the keys distinct and loses nothing. */
  lemma InsertAtKeeps<V>(l: seq<Pair<V>>, p: nat, kv: Pair<V>)
    requires p <= |l| && DistinctKeys(l)
    requires forall i :: 0 <= i < |l| ==> l[i].key != kv.key
    ensures DistinctKeys(InsertAt(l, p, kv))
    ensures forall i :: 0 <= i < |l| ==> InsertAt(l, p, kv)[if i < p then i else i + 1] == l[i]
    ensures InsertAt(l, p, kv)[p] == kv
  {
    var r := InsertAt(l, p, kv);
    forall i, j | 0 <= i < j < |r|
      ensures r[i].key != r[j].key
    {
      if i != p && j != p {
        assert r[i] == l[if i < p then i else i - 1];
        assert r[j] == l[if j < p then j else j - 1];
      }
    }
  }

  /** The loop of `sort_to_vec`, over the pairs in the order the map yields them. */
  function InsertAll<V>(order: seq<Pair<V>>): (v: seq<Pair<V>>)
    ensures |v| == |order|
  {
    if order == [] then []
    else
      var l := InsertAll(order[..|order| - 1]);
      InsertAt(l, Pos(l, order[|order| - 1].key), order[|order| - 1])
  }

  /**
   * The state of `sort_to_vec` part way: `v` holds exactly the pairs of `m`
   * whose keys are no longer in `remaining`, each once.
   */
  ghost predicate Holds<V>(v: seq<Pair<V>>, m: map<seq<u8>, V>, remaining: set<seq<u8>>)
  {
    && remaining <= m.Keys
    && |v| + |remaining| == |m|
    && DistinctKeys(v)
    && (forall i :: 0 <= i < |v| ==> v[i].key in m && v[i].key !in remaining && v[i].value == m[v[i].key])
    && (forall k :: k in m && k !in remaining ==> exists i :: 0 <= i < |v| && v[i].key == k)
  }

  /** Inserting the next pair anywhere moves its key from `remaining` into the vector. */
  lemma HoldsAfterInsert<V>(v: seq<Pair<V>>, m: map<seq<u8>, V>, remaining: set<seq<u8>>, k: seq<u8>, p: nat)
    requires Holds(v, m, remaining) && k in remaining && p <= |v|
    ensures Holds(InsertAt(v, p, Pair(k, m[k])), m, remaining - {k})
  {
    var kv := Pair(k, m[k]);
    InsertAtKeeps(v, p, kv);
    assert |remaining - {k}| == |remaining| - 1;
    InsertedPairsBelong(v, m, remaining, k, p);
    InsertedKeysCovered(v, m, remaining, k, p);
  }

  lemma InsertedPairsBelong<V>(v: seq<Pair<V>>, m: map<seq<u8>, V>, remaining: set<seq<u8>>, k: seq<u8>, p: nat)
    requires Holds(v, m, remaining) && k in remaining && p <= |v|
    ensures var r := InsertAt(v, p, Pair(k, m[k]));
      forall i :: 0 <= i < |r| ==> r[i].key in m && r[i].key !in remaining - {k} && r[i].value == m[r[i].key]
  {
    var r := InsertAt(v, p, Pair(k, m[k]));
    forall i | 0 <= i < |r|
      ensures r[i].key in m && r[i].key !in remaining - {k} && r[i].value == m[r[i].key]
    {
      if i != p {
        assert r[i] == v[if i < p then i else i - 1];
      }
    }
  }

  lemma InsertedKeysCovered<V>(v: seq<Pair<V>>, m: map<seq<u8>, V>, remaining: set<seq<u8>>, k: seq<u8>, p: nat)
    requires Holds(v, m, remaining) && k in remaining && p <= |v|
    ensures var r := InsertAt(v, p, Pair(k, m[k]));
      forall k' :: k' in m && k' !in remaining - {k} ==> exists i :: 0 <= i < |r| && r[i].key == k'
  {
    var r := InsertAt(v, p, Pair(k, m[k]));
    forall k' | k' in m && k' !in remaining - {k}
      ensures exists i :: 0 <= i < |r| && r[i].key == k'
    {
      if k' == k {
        assert r[p].key == k;
      } else {
        assert k' in m && k' !in remaining;
        var i :| 0 <= i < |v| && v[i].key == k';
        if i < p {
          assert r[i] == v[i];
        } else {
          assert r[i + 1] == v[i];
        }
      }
    }
  }

  lemma ListsWhenDone<V>(v: seq<Pair<V>>, m: map<seq<u8>, V>)
    requires Holds(v, m, {})
    ensures Lists(v, m)
  {
  }

  /**
   * `sort_to_vec`: every pair of the map is inserted at the position
   * `get_pos` gives. The map's iteration order is not specified, so each step
   * takes any key not yet inserted; `order` is the order taken.
   */
  method SortToVec<V>(m: map<seq<u8>, V>) returns (v: seq<Pair<V>>, ghost order: seq<Pair<V>>)
    ensures Lists(v, m)
    ensures Lists(order, m) && v == InsertAll(order)
  {
    v := [];
    order := [];
    var remaining := m.Keys;
    assert |m.Keys| == |m|;
    while remaining != {}
      invariant Holds(v, m, remaining) && Holds(order, m, remaining)
      invariant v == InsertAll(order)
      decreases |remaining|
    {
      var k :| k in remaining;
      var pos := GetPos(v, k);
      var kv := Pair(k, m[k]);
      HoldsAfterInsert(v, m, remaining, k, pos);
      HoldsAfterInsert(order, m, remaining, k, |order|);
      InsertAtEnd(order, kv);
      v := InsertAt(v, pos, kv);
      order := order + [kv];
      remaining := remaining - {k};
    }
    ListsWhenDone(v, m);
    ListsWhenDone(order, m);
  }

  /** Two keys that differ only in their last byte. */
  function KeyEndingIn(b: u8): H256
  {
    Zeros(31) + [b]
  }

  /**
   * The vector depends on the map's iteration order, and it is not in the
   * ascending key order the doc comment promises: key 1 then key 2 gives
   * [2, 1], key 2 then key 1 gives [1, 2].
   */
  lemma SortDependsOnIterationOrder<V>(x: V, y: V)
    ensures InsertAll([Pair(KeyEndingIn(1), x), Pair(KeyEndingIn(2), y)])
         == [Pair(KeyEndingIn(2), y), Pair(KeyEndingIn(1), x)]
    ensures InsertAll([Pair(KeyEndingIn(2), y), Pair(KeyEndingIn(1), x)])
         == [Pair(KeyEndingIn(1), x), Pair(KeyEndingIn(2), y)]
    ensures KeyLess(KeyEndingIn(1), KeyEndingIn(2))
  {
    var a, b := Pair(KeyEndingIn(1), x), Pair(KeyEndingIn(2), y);
    KeyLessAfterPrefix(Zeros(31), [1], [2]);
    KeyLessAfterPrefix(Zeros(31), [2], [1]);
    assert KeyLess(a.key, b.key) && !KeyLess(b.key, a.key);
    assert [a, b][..1] == [a] && [b, a][..1] == [b];
    assert [a][..0] == [] && [b][..0] == [];
    assert InsertAll([a]) == [a];
    assert InsertAll([b]) == [b];
    assert Pos([a], b.key) == 0;
    assert Pos([b], a.key) == 0;
  }

  // ---------------------------------------------------------------------
  // The ascending sort the doc comment describes
  // ---------------------------------------------------------------------

  predicate Ascending<V>(v: seq<Pair<V>>)
  {
    forall i, j :: 0 <= i < j < |v| ==> KeyLess(v[i].key, v[j].key)
  }

  /** The first index whose key is larger than `k`, or the end. */
  function AscendingPos<V>(l: seq<Pair<V>>, k: seq<u8>): (p: nat)
    ensures p <= |l|
    ensures forall i :: 0 <= i < p ==> !KeyLess(k, l[i].key)
    ensures p < |l| ==> KeyLess(k, l[p].key)
  {
    if l == [] then 0
    else if KeyLess(k, l[0].key) then 0
    else 1 + AscendingPos(l[1..], k)
  }

  /** `sort_to_vec` with `get_pos` corrected to return the first larger key's index. */
  function InsertAllAscending<V>(order: seq<Pair<V>>): (v: seq<Pair<V>>)
    ensures |v| == |order|
  {
    if order == [] then []
    else
      var l := InsertAllAscending(order[..|order| - 1]);
      InsertAt(l, AscendingPos(l, order[|order| - 1].key), order[|order| - 1])
  }

  lemma InsertAscendingKeepsOrder<V>(l: seq<Pair<V>>, kv: Pair<V>)
    requires Ascending(l)
    requires forall i :: 0 <= i < |l| ==> l[i].key != kv.key
    ensures Ascending(InsertAt(l, AscendingPos(l, kv.key), kv))
  {
    var p := AscendingPos(l, kv.key);
    forall t | 0 <= t < p
      ensures KeyLess(l[t].key, kv.key)
    {
      KeyLessTotal(kv.key, l[t].key);
    }
    var r := InsertAt(l, p, kv);
    forall i, j | 0 <= i < j < |r|
      ensures KeyLess(r[i].key, r[j].key)
    {
      InsertAtOrdered(l, kv, p, i, j);
    }
  }

  lemma InsertAtOrdered<V>(l: seq<Pair<V>>, kv: Pair<V>, p: nat, i: nat, j: nat)
    requires Ascending(l) && p <= |l|
    requires forall t :: 0 <= t < p ==> KeyLess(l[t].key, kv.key)
    requires p < |l| ==> KeyLess(kv.key, l[p].key)
    requires i < j <= |l|
    ensures KeyLess(InsertAt(l, p, kv)[i].key, InsertAt(l, p, kv)[j].key)
  {
    var r := InsertAt(l, p, kv);
    if i == p {
      assert r[j] == l[j - 1];
      if j - 1 > p {
        KeyLessTransitive(kv.key, l[p].key, l[j - 1].key);
      }
    } else if j == p {
      assert r[i] == l[i];
    } else {
      var a := if i < p then i else i - 1;
      var b := if j < p then j else j - 1;
      assert r[i] == l[a] && r[j] == l[b];
    }
  }

  lemma InsertAtMembers<V>(l: seq<Pair<V>>, p: nat, kv: Pair<V>)
    requires p <= |l|
    ensures forall x :: x in InsertAt(l, p, kv) ==> x in l || x == kv
    ensures forall x :: x in l ==> x in InsertAt(l, p, kv)
    ensures kv in InsertAt(l, p, kv)
  {
    assert InsertAt(l, p, kv) == l[..p] + [kv] + l[p..];
    assert l == l[..p] + l[p..];
  }

  lemma DistinctKeysPrefix<V>(v: seq<Pair<V>>, n: nat)
    requires DistinctKeys(v) && n <= |v|
    ensures DistinctKeys(v[..n])
  {
    forall a, b | 0 <= a < b < n
      ensures v[..n][a].key != v[..n][b].key
    {
      assert v[..n][a] == v[a] && v[..n][b] == v[b];
    }
  }

  /** With distinct keys, the last key is not among the pairs drawn from the earlier ones. */
  lemma KeyNotAmongEarlier<V>(order: seq<Pair<V>>, l: seq<Pair<V>>)
    requires DistinctKeys(order) && order != []
    requires forall x :: x in l ==> x in order[..|order| - 1]
    ensures forall i :: 0 <= i < |l| ==> l[i].key != order[|order| - 1].key
  {
    var n := |order| - 1;
    forall i | 0 <= i < |l|
      ensures l[i].key != order[n].key
    {
      assert l[i] in l;
      var t :| 0 <= t < n && order[..n][t] == l[i];
      assert order[t] == l[i];
    }
  }

  /** With distinct keys the corrected sort gives an ascending permutation of its input. */
  lemma {:induction false} SortedAscending<V>(order: seq<Pair<V>>)
    requires DistinctKeys(order)
    ensures Ascending(InsertAllAscending(order))
    ensures forall x :: x in InsertAllAscending(order) ==> x in order
    ensures forall x :: x in order ==> x in InsertAllAscending(order)
    decreases |order|
  {
    if order != [] {
      var n := |order| - 1;
      var init, kv := order[..n], order[n];
      assert order == init + [kv];
      DistinctKeysPrefix(order, n);
      SortedAscending(init);
      var l := InsertAllAscending(init);
      KeyNotAmongEarlier(order, l);
      InsertAscendingKeepsOrder(l, kv);
      InsertAtMembers(l, AscendingPos(l, kv.key), kv);
    }
  }

  /** When two ascending vectors start alike and a's elements are all in b, a's tail lies in b's tail. */
  lemma TailWithin<V>(a: seq<Pair<V>>, b: seq<Pair<V>>)
    requires Ascending(a) && a != [] && b != [] && a[0] == b[0]
    requires forall x :: x in a ==> x in b
    ensures forall x :: x in a[1..] ==> x in b[1..]
  {
    KeyLessIrreflexive(a[0].key);
    forall x | x in a[1..]
      ensures x in b[1..]
    {
      var k :| 0 <= k < |a[1..]| && a[1..][k] == x;
      assert a[k + 1] == x && KeyLess(a[0].key, a[k + 1].key);
      assert x in a;
      var t :| 0 <= t < |b| && b[t] == x;
      assert t != 0;
      assert b[1..][t - 1] == x;
    }
  }

  /** Two ascending vectors with the same elements are equal. */
  lemma {:induction false} AscendingUnique<V>(a: seq<Pair<V>>, b: seq<Pair<V>>)
    requires Ascending(a) && Ascending(b)
    requires forall x :: x in a ==> x in b
    requires forall x :: x in b ==> x in a
    ensures a == b
    decreases |a|
  {
    if a == [] {
    } else {
      assert a[0] in a;
      assert b != [];
      assert b[0] in b;
      var i :| 0 <= i < |b| && b[i] == a[0];
      var j :| 0 <= j < |a| && a[j] == b[0];
      if i != 0 {
        assert KeyLess(b[0].key, a[0].key);
        if j == 0 {
          KeyLessIrreflexive(a[0].key);
        } else {
          assert KeyLess(a[0].key, b[0].key);
          KeyLessAsymmetric(a[0].key, b[0].key);
        }
      }
      assert a[0] == b[0];
      TailWithin(a, b);
      TailWithin(b, a);
      AscendingUnique(a[1..], b[1..]);
      assert a == [a[0]] + a[1..] && b == [b[0]] + b[1..];
    }
  }

  /**
   * With the correction, the vector no longer depends on the iteration
   * order: any two orders of the same map give the same ascending vector.
   */
  lemma SortIsCanonical<V>(m: map<seq<u8>, V>, o1: seq<Pair<V>>, o2: seq<Pair<V>>)
    requires Lists(o1, m) && Lists(o2, m)
    ensures InsertAllAscending(o1) == InsertAllAscending(o2)
    ensures Ascending(InsertAllAscending(o1))
  {
    SortedAscending(o1);
    SortedAscending(o2);
    forall x | x in o1
      ensures x in o2
    {
      var i :| 0 <= i < |o1| && o1[i] == x;
      var j :| 0 <= j < |o2| && o2[j].key == x.key;
    }
    forall x | x in o2
      ensures x in o1
    {
      var i :| 0 <= i < |o2| && o2[i] == x;
      var j :| 0 <= j < |o1| && o1[j].key == x.key;
    }
    AscendingUnique(InsertAllAscending(o1), InsertAllAscending(o2));
  }

  // ---------------------------------------------------------------------
  // Clone, encoding and decoding
  // ---------------------------------------------------------------------

  /** `Clone for DirtyKeyValues`: a fresh map filled pair by pair. */
  method CloneKeyValues(d: DirtyKeyValues) returns (c: DirtyKeyValues)
    ensures c == d
  {
    var result: map<H256, H256> := map[];
    var remaining := d.entries.Keys;
    while remaining != {}
      invariant remaining <= d.entries.Keys
      invariant forall k :: k in result ==> k in d.entries && k !in remaining && result[k] == d.entries[k]
      invariant forall k :: k in d.entries && k !in remaining ==> k in result
      decreases |remaining|
    {
      var k :| k in remaining;
      result := result[k := d.entries[k]];
      remaining := remaining - {k};
    }
    c := DirtyKeyValues(result);
  }

  /** One `DirtyKeyValue` as appended: a two-item list, key then value. */
  function KeyValueItem(p: Pair<H256>): Item
  {
    Items([Str(p.key), Str(p.value)])
  }

  function KeyValueItems(v: seq<Pair<H256>>): (items: seq<Item>)
    ensures |items| == |v|
    ensures forall i :: 0 <= i < |v| ==> items[i] == KeyValueItem(v[i])
  {
    seq(|v|, i requires 0 <= i < |v| => KeyValueItem(v[i]))
  }

  /**
   * One element read back by `list_at(idx).unwrap()` as a vector of H256,
   * whose first two entries become key and value; anything else panics (None).
   */
  function KeyValueOf(it: Item): (r: Option<(H256, H256)>)
    ensures r.Some? <==> it.Items? && |it.list| >= 2
                         && forall j :: 0 <= j < |it.list| ==> it.list[j].Str? && |it.list[j].bytes| == 32
    ensures r.Some? ==> r.value.0 == it.list[0].bytes && r.value.1 == it.list[1].bytes
  {
    if it.Items? && |it.list| >= 2
       && forall j :: 0 <= j < |it.list| ==> it.list[j].Str? && |it.list[j].bytes| == 32
    then var k: H256 := it.list[0].bytes; var v: H256 := it.list[1].bytes; Some((k, v))
    else None
  }

  /**
   * The map the loop of `Decodable for DirtyKeyValues` holds after its first
   * n rounds: round idx reads element idx with `list_at(idx).unwrap()` and
   * inserts its first two hashes. None once an `unwrap` has panicked.
   */
  function KeyValueRounds(it: Item, n: nat): Option<map<H256, H256>>
  {
    if n == 0 then Some(map[])
    else
      var m :- KeyValueRounds(it, n - 1);
      var el :- At(it, n - 1);
      var kv :- KeyValueOf(el);
      Some(m[kv.0 := kv.1])
  }

  /** `Decodable for DirtyKeyValues` as written: `rlp.size()` rounds; None where it panics. */
  function KeyValuesDecoded(it: Item): Option<DirtyKeyValues>
  {
    var m :- KeyValueRounds(it, Size(it));
    Some(DirtyKeyValues(m))
  }

  /** A panic in one round ends the loop: every longer run of rounds panics too. */
  lemma {:induction false} KeyValueRoundsStick(it: Item, n: nat, k: nat)
    requires n <= k && KeyValueRounds(it, n).None?
    ensures KeyValueRounds(it, k).None?
    decreases k - n
  {
    if n < k {
      KeyValueRoundsStick(it, n + 1, k);
    }
  }

  /**
   * As written, decoding never reads an element of a list: a list, however
   * many pairs it holds, decodes to the empty map, and so does an empty
   * data item; any other data item panics at `list_at(0)`.
   */
  lemma KeyValuesDecodedOutcome(it: Item)
    ensures Size(it) == 0 ==> KeyValuesDecoded(it) == Some(DirtyKeyValues(map[]))
    ensures Size(it) > 0 ==> KeyValuesDecoded(it).None?
    ensures it.Items? ==> KeyValuesDecoded(it) == Some(DirtyKeyValues(map[]))
  {
    if Size(it) > 0 {
      KeyValueRoundsStick(it, 1, Size(it));
    }
  }

  /** The loop of `Decodable for DirtyKeyValues`, run for `size` rounds. */
  method KeyValueLoop(it: Item, size: nat) returns (r: Option<map<H256, H256>>)
    ensures r == KeyValueRounds(it, size)
  {
    var result: map<H256, H256> := map[];
    for idx := 0 to size
      invariant KeyValueRounds(it, idx) == Some(result)
    {
      var el := At(it, idx);
      if el.None? {
        KeyValueRoundsStick(it, idx + 1, size);
        return None;
      }
      var kv := KeyValueOf(el.value);
      if kv.None? {
        KeyValueRoundsStick(it, idx + 1, size);
        return None;
      }
      result := result[kv.value.0 := kv.value.1];
    }
    r := Some(result);
  }

  /** `Decodable for DirtyKeyValues`, as written: the loop runs `rlp.size()` rounds. */
  method DecodeKeyValues(it: Item) returns (r: Option<DirtyKeyValues>)
    ensures r == KeyValuesDecoded(it)
    ensures it.Items? ==> r == Some(DirtyKeyValues(map[]))
    ensures Size(it) > 0 ==> r.None?
  {
    var size := Size(it);
    var m := KeyValueLoop(it, size);
    KeyValuesDecodedOutcome(it);
    if m.None? {
      return None;
    }
    r := Some(DirtyKeyValues(m.value));
  }

  /**
   * The map the loop builds when it visits every item of the list, later
   * items overwriting earlier ones, as the decoder bounded by the item count
   * does.
   */
  function DecodedEntries(items: seq<Item>): Option<map<H256, H256>>
  {
    if items == [] then Some(map[])
    else
      var m :- DecodedEntries(items[..|items| - 1]);
      var kv :- KeyValueOf(items[|items| - 1]);
      Some(m[kv.0 := kv.1])
  }

  /** Once an element fails to decode, so does every longer list. */
  lemma {:induction false} DecodeFailureSticks(items: seq<Item>, n: nat)
    requires n <= |items| && DecodedEntries(items[..n]).None?
    ensures DecodedEntries(items).None?
    decreases |items| - n
  {
    if n < |items| {
      assert items[..n + 1][..n] == items[..n];
      DecodeFailureSticks(items, n + 1);
    } else {
      assert items[..n] == items;
    }
  }

  /**
   * The decoder as evidently intended: `item_count()?` rounds, so a data
   * item is refused (None) and every element of a list is read.
   */
  function KeyValuesDecodedByCount(it: Item): Option<DirtyKeyValues>
  {
    if !it.Items? then None
    else
      var m :- DecodedEntries(it.list);
      Some(DirtyKeyValues(m))
  }

  /** The intended decoder's loop, one round per item of the list. */
  method DecodeKeyValuesByCount(it: Item) returns (r: Option<DirtyKeyValues>)
    ensures r == KeyValuesDecodedByCount(it)
  {
    if !it.Items? {
      return None;
    }
    var l := it.list;
    var result: map<H256, H256> := map[];
    for idx := 0 to |l|
      invariant DecodedEntries(l[..idx]) == Some(result)
    {
      assert l[..idx + 1][..idx] == l[..idx];
      match KeyValueOf(l[idx]) {
        case None =>
          DecodeFailureSticks(l, idx + 1);
          return None;
        case Some(kv) =>
          result := result[kv.0 := kv.1];
      }
    }
    assert l[..|l|] == l;
    r := Some(DirtyKeyValues(result));
  }

  /** Decoding the first n encoded pairs gives exactly those pairs. */
  lemma {:induction false} DecodePrefix(v: seq<Pair<H256>>, n: nat)
    requires n <= |v| && DistinctKeys(v)
    requires forall i :: 0 <= i < |v| ==> |v[i].key| == 32
    ensures DecodedEntries(KeyValueItems(v)[..n]).Some?
    ensures forall k :: k in DecodedEntries(KeyValueItems(v)[..n]).value ==> exists i :: 0 <= i < n && v[i].key == k
    ensures forall i :: 0 <= i < n ==>
              v[i].key in DecodedEntries(KeyValueItems(v)[..n]).value
              && DecodedEntries(KeyValueItems(v)[..n]).value[v[i].key] == v[i].value
    decreases n
  {
    var items := KeyValueItems(v);
    if n > 0 {
      DecodePrefix(v, n - 1);
      var m := DecodedEntries(items[..n - 1]).value;
      DecodeOneMore(v, n, m);
      var r := DecodedEntries(items[..n]).value;
      forall i | 0 <= i < n - 1
        ensures v[i].key in r && r[v[i].key] == v[i].value
      {
        assert v[i].key != v[n - 1].key;
      }
      forall k | k in r
        ensures exists i :: 0 <= i < n && v[i].key == k
      {
        if k != v[n - 1].key {
          var j :| 0 <= j < n - 1 && v[j].key == k;
        }
      }
    } else {
      assert items[..0] == [];
    }
  }

  lemma TakeAll<T>(s: seq<T>)
    ensures s[..|s|] == s
  {
  }

  /** Decoding one more encoded pair adds it to the map decoded so far. */
  lemma DecodeOneMore(v: seq<Pair<H256>>, n: nat, m: map<H256, H256>)
    requires 0 < n <= |v| && |v[n - 1].key| == 32
    requires DecodedEntries(KeyValueItems(v)[..n - 1]) == Some(m)
    ensures DecodedEntries(KeyValueItems(v)[..n]) == Some(m[v[n - 1].key := v[n - 1].value])
  {
    var items := KeyValueItems(v);
    assert items[..n][..n - 1] == items[..n - 1];
    var it := items[..n][n - 1];
    assert it == KeyValueItem(v[n - 1]);
    assert KeyValueOf(it) == Some((v[n - 1].key, v[n - 1].value));
  }

  /** Decoding the encoded vector of a map gives the map back. */
  lemma DecodeListed(v: seq<Pair<H256>>, m: map<H256, H256>)
    requires Lists(v, m)
    ensures DecodedEntries(KeyValueItems(v)) == Some(m)
  {
    forall i | 0 <= i < |v|
      ensures |v[i].key| == 32
    {
      assert v[i].key in m;
    }
    DecodePrefix(v, |v|);
    var items := KeyValueItems(v);
    TakeAll(items);
    var r := DecodedEntries(items).value;
    SameMap(v, m, r);
  }

  /**
   * The encoding of a map's listed pairs, decoded: as written the result is
   * the empty map whatever the map held, so every non-empty map is lost;
   * decoded by item count, the map comes back.
   */
  lemma KeyValuesLostOnDecode(v: seq<Pair<H256>>, m: map<H256, H256>)
    requires Lists(v, m)
    ensures KeyValuesDecoded(Items(KeyValueItems(v))) == Some(DirtyKeyValues(map[]))
    ensures m != map[] ==> KeyValuesDecoded(Items(KeyValueItems(v))) != Some(DirtyKeyValues(m))
    ensures KeyValuesDecodedByCount(Items(KeyValueItems(v))) == Some(DirtyKeyValues(m))
  {
    KeyValuesDecodedOutcome(Items(KeyValueItems(v)));
    DecodeListed(v, m);
  }

  lemma SameMap(v: seq<Pair<H256>>, m: map<H256, H256>, r: map<H256, H256>)
    requires forall i :: 0 <= i < |v| ==> v[i].key in m && v[i].value == m[v[i].key]
    requires forall k :: k in m ==> exists i :: 0 <= i < |v| && v[i].key == k
    requires forall k :: k in r ==> exists i :: 0 <= i < |v| && v[i].key == k
    requires forall i :: 0 <= i < |v| ==> v[i].key in r && r[v[i].key] == v[i].value
    ensures r == m
  {
    forall k | k in r
      ensures k in m && r[k] == m[k]
    {
      var i :| 0 <= i < |v| && v[i].key == k;
    }
    forall k | k in m
      ensures k in r
    {
      var i :| 0 <= i < |v| && v[i].key == k;
    }
  }

  /** The loop of `rlp_append`: each pair appended in turn. */
  method AppendKeyValues(v: seq<Pair<H256>>) returns (appended: seq<Item>)
    ensures appended == KeyValueItems(v)
  {
    appended := [];
    for i := 0 to |v|
      invariant |appended| == i
      invariant forall j :: 0 <= j < i ==> appended[j] == KeyValueItem(v[j])
    {
      appended := appended + [KeyValueItem(v[i])];
    }
  }

  /**
   * `Encodable for DirtyKeyValues`: a list declared with one item per pair,
   * filled with the vector `sort_to_vec` returns. The list closes exactly
   * after its last pair. Decoded as written it gives the empty map; decoded
   * by item count it gives the map back.
   */
  method EncodeKeyValues(d: DirtyKeyValues) returns (top: seq<Item>)
    ensures |top| == 1 && top[0].Items? && |top[0].list| == |d.entries|
    ensures KeyValuesDecoded(top[0]) == Some(DirtyKeyValues(map[]))
    ensures KeyValuesDecodedByCount(top[0]) == Some(d)
  {
    var v, order := SortToVec(d.entries);
    var appended := AppendKeyValues(v);
    DecodeListed(v, d.entries);
    assert |appended| == |d.entries|;
    CloseAll(appended);
    top := Close(|appended|, appended).value;
  }

  /** An element of the encoded `DirtyStates`: an account's address and the encoding of its slots. */
  ghost predicate EncodesAccount(it: Item, ds: DirtyStates)
  {
    && it.Items? && |it.list| == 2
    && it.list[0].Str? && |it.list[0].bytes| == 20 && it.list[0].bytes in ds.entries
    && it.list[1].Items?
    && KeyValuesDecodedByCount(it.list[1]) == Some(ds.entries[it.list[0].bytes])
  }

  /** The loop of `rlp_append` for `DirtyStates`: each account appended in turn. */
  method AppendStates(v: seq<Pair<DirtyKeyValues>>, ds: DirtyStates) returns (appended: seq<Item>)
    requires forall i :: 0 <= i < |v| ==> v[i].key in ds.entries && v[i].value == ds.entries[v[i].key]
    ensures |appended| == |v|
    ensures forall i :: 0 <= i < |v| ==> EncodesAccount(appended[i], ds)
  {
    appended := [];
    for i := 0 to |v|
      invariant |appended| == i
      invariant forall j :: 0 <= j < i ==> EncodesAccount(appended[j], ds)
    {
      var kvs := EncodeKeyValues(v[i].value);
      assert |v[i].key| == 20 by { assert v[i].key in ds.entries; }
      appended := appended + [Items([Str(v[i].key), kvs[0]])];
    }
  }

  /**
   * `Encodable for DirtyStates`: a list declared with one item per account,
   * each holding the address and the account's encoded slots. Decoded as
   * written it gives no accounts at all.
   */
  method EncodeStates(ds: DirtyStates) returns (top: seq<Item>)
    ensures |top| == 1 && top[0].Items? && |top[0].list| == |ds.entries|
    ensures forall i :: 0 <= i < |top[0].list| ==> EncodesAccount(top[0].list[i], ds)
    ensures StatesDecoded(top[0]) == Some(DirtyStates(map[]))
  {
    var v, order := SortToVec(ds.entries);
    var appended := AppendStates(v, ds);
    top := Close(|ds.entries|, appended).value;
    assert appended[..|ds.entries|] == appended;
  }

  /**
   * `Decodable for DirtyState`: `val_at(0).unwrap()` as an address, then
   * `val_at(1).unwrap()` as the account's slots, decoded as written. None
   * where an `unwrap` panics.
   */
  function StateOf(el: Item): Option<(Address, DirtyKeyValues)>
  {
    if !el.Items? then None
    else
      var a :- AddressAt(el.list, 0);
      var s :- At(el, 1);
      var kvs :- KeyValuesDecoded(s);
      Some((a, kvs))
  }

  /**
   * The map the loop of `Decodable for DirtyStates` holds after its first n
   * rounds: round idx decodes element idx with `val_at(idx).unwrap()`.
   */
  function StateRounds(it: Item, n: nat): Option<map<Address, DirtyKeyValues>>
  {
    if n == 0 then Some(map[])
    else
      var m :- StateRounds(it, n - 1);
      var el :- At(it, n - 1);
      var st :- StateOf(el);
      Some(m[st.0 := st.1])
  }

  /** `Decodable for DirtyStates` as written: `rlp.size()` rounds; None where it panics. */
  function StatesDecoded(it: Item): Option<DirtyStates>
  {
    var m :- StateRounds(it, Size(it));
    Some(DirtyStates(m))
  }

  lemma {:induction false} StateRoundsStick(it: Item, n: nat, k: nat)
    requires n <= k && StateRounds(it, n).None?
    ensures StateRounds(it, k).None?
    decreases k - n
  {
    if n < k {
      StateRoundsStick(it, n + 1, k);
    }
  }

  /**
   * As written, decoding `DirtyStates` reads no account from a list: a list
   * and an empty data item give no accounts, any other data item panics.
   */
  lemma StatesDecodedOutcome(it: Item)
    ensures Size(it) == 0 ==> StatesDecoded(it) == Some(DirtyStates(map[]))
    ensures Size(it) > 0 ==> StatesDecoded(it).None?
    ensures it.Items? ==> StatesDecoded(it) == Some(DirtyStates(map[]))
  {
    if Size(it) > 0 {
      StateRoundsStick(it, 1, Size(it));
    }
  }

  /** The loop of `Decodable for DirtyStates`, run for `size` rounds. */
  method StateLoop(it: Item, size: nat) returns (r: Option<map<Address, DirtyKeyValues>>)
    ensures r == StateRounds(it, size)
  {
    var result: map<Address, DirtyKeyValues> := map[];
    for idx := 0 to size
      invariant StateRounds(it, idx) == Some(result)
    {
      var el := At(it, idx);
      if el.None? {
        StateRoundsStick(it, idx + 1, size);
        return None;
      }
      var st := StateOf(el.value);
      if st.None? {
        StateRoundsStick(it, idx + 1, size);
        return None;
      }
      result := result[st.value.0 := st.value.1];
    }
    r := Some(result);
  }

  /** `Decodable for DirtyStates`, as written: the loop runs `rlp.size()` rounds. */
  method DecodeStates(it: Item) returns (r: Option<DirtyStates>)
    ensures r == StatesDecoded(it)
    ensures it.Items? ==> r == Some(DirtyStates(map[]))
    ensures Size(it) > 0 ==> r.None?
  {
    var size := Size(it);
    var m := StateLoop(it, size);
    StatesDecodedOutcome(it);
    if m.None? {
      return None;
    }
    r := Some(DirtyStates(m.value));
  }
}
