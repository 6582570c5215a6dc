// The order `H256` and `Address` derive from their byte arrays:
// lexicographic, first byte most significant.
module KeyOrder {
  import opened EthTypes

  predicate KeyLess(a: seq<u8>, b: seq<u8>)
    decreases |a|
  {
    if a == [] then b != []
    else if b == [] then false
    else a[0] < b[0] || (a[0] == b[0] && KeyLess(a[1..], b[1..]))
  }

  lemma {:induction false} KeyLessIrreflexive(a: seq<u8>)
    ensures !KeyLess(a, a)
    decreases |a|
  {
    if a != [] {
      KeyLessIrreflexive(a[1..]);
    }
  }

  lemma {:induction false} KeyLessAsymmetric(a: seq<u8>, b: seq<u8>)
    ensures !(KeyLess(a, b) && KeyLess(b, a))
    decreases |a|
  {
    if a != [] && b != [] && a[0] == b[0] {
      KeyLessAsymmetric(a[1..], b[1..]);
    }
  }

  lemma {:induction false} KeyLessTransitive(a: seq<u8>, b: seq<u8>, c: seq<u8>)
    requires KeyLess(a, b) && KeyLess(b, c)
    ensures KeyLess(a, c)
    decreases |a|
  {
    if a != [] && a[0] == b[0] && b[0] == c[0] {
      KeyLessTransitive(a[1..], b[1..], c[1..]);
    }
  }

  /** Any two different keys are ordered one way or the other. */
  lemma {:induction false} KeyLessTotal(a: seq<u8>, b: seq<u8>)
    requires a != b
    ensures KeyLess(a, b) || KeyLess(b, a)
    decreases |a|
  {
    if a != [] && b != [] && a[0] == b[0] {
      assert a == [a[0]] + a[1..] && b == [b[0]] + b[1..];
      KeyLessTotal(a[1..], b[1..]);
    }
  }

  /** Keys that share a prefix compare by what follows it. */
  lemma {:induction false} KeyLessAfterPrefix(p: seq<u8>, a: seq<u8>, b: seq<u8>)
    ensures KeyLess(p + a, p + b) <==> KeyLess(a, b)
    decreases |p|
  {
    if p != [] {
      assert (p + a)[0] == p[0] == (p + b)[0];
      assert (p + a)[1..] == p[1..] + a && (p + b)[1..] == p[1..] + b;
      KeyLessAfterPrefix(p[1..], a, b);
    } else {
      assert p + a == a && p + b == b;
    }
  }
}
