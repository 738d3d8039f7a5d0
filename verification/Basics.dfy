/** Shared vocabulary: bytes, optional values and sequence concatenation. */
module Basics {

  type byte = b: int | 0 <= b < 256 witness 0

  const UINT64_LIMIT: int := 0x1_0000_0000_0000_0000

  type uint64 = x: int | 0 <= x < UINT64_LIMIT witness 0

  datatype Option<+T> = None | Some(value: T)

  /** The concatenation of a sequence of sequences. */
  function Flatten<T>(parts: seq<seq<T>>): (r: seq<T>) {
    if parts == [] then [] else parts[0] + Flatten(parts[1..])
  }

  lemma {:induction false} FlattenConcat<T>(a: seq<seq<T>>, b: seq<seq<T>>)
    ensures Flatten(a + b) == Flatten(a) + Flatten(b)
  {
    if a == [] {
      assert a + b == b;
    } else {
      assert (a + b)[1..] == a[1..] + b;
      FlattenConcat(a[1..], b);
    }
  }

  lemma {:induction false} FlattenSnoc<T>(a: seq<seq<T>>, x: seq<T>)
    ensures Flatten(a + [x]) == Flatten(a) + x
  {
    FlattenConcat(a, [x]);
    assert Flatten([x]) == x + Flatten<T>([]);
  }

  // ---------------------------------------------------------------- division

  lemma {:induction false} AtLeast(p: nat, q: nat, n: nat)
    ensures p < q ==> p * n + n <= q * n
  {
    if p < q {
      if p < q - 1 { AtLeast(p, q - 1, n); }
      assert q * n == (q - 1) * n + n;
    }
  }

  lemma {:induction false} SameQuotient(n: nat, p: nat, s: nat, q: nat, r: nat)
    requires r < n && s < n && p * n + s == q * n + r
    ensures p == q
  {
    AtLeast(p, q, n);
    AtLeast(q, p, n);
  }

  /** Quotient and remainder are unique. */
  lemma {:induction false} Remainder(x: nat, n: nat, q: nat, r: nat)
    requires r < n && x == q * n + r
    ensures x / n == q && x % n == r
  {
    SameQuotient(n, x / n, x % n, q, r);
  }

  lemma {:induction false} DivideTwice(x: nat, a: nat, b: nat)
    requires a >= 1 && b >= 1
    ensures a * b >= 1 && x / a / b == x / (a * b)
  {
    Regroup(x / a / b, a, b, x / a % b);
    AtLeast(x / a % b, b, a);
    AtLeast(0, a, b);
    Parts(x, a);
    Parts(x / a, b);
    Remainder(x, a * b, x / a / b, x / a % b * a + x % a);
  }

  lemma {:induction false} Parts(x: nat, n: nat)
    requires n >= 1
    ensures x == x / n * n + x % n
  {
  }

  lemma {:induction false} Regroup(p: nat, a: nat, b: nat, s: nat)
    ensures (p * b + s) * a == p * (a * b) + s * a
  {
    assert (p * b) * a == p * (a * b);
  }
}
