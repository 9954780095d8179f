/**
 The Walsh-Hadamard rotation of src/adapter/llama-kvmem-quant.h, in exact arithmetic: the matrix
 built in place by doubling, and the rows rotated in place one chunk at a time.

 c stands for one over the square root of the size n, so that c * c * n == 1.
 */
module Hadamard {

  function Pow2(k: nat): (p: nat)
    ensures p > 0
  {
    if k == 0 then 1 else 2 * Pow2(k - 1)
  }

  function Fold(i: nat, h: nat): nat { if i >= h then i - h else i }

  /** Whether the entry is negative in the matrix of order Pow2(k): four copies of the matrix before, the last one
      negated. Every entry is 1 or -1 before scaling. */
  predicate Neg(k: nat, i: nat, j: nat) {
    k > 0 && (var h := Pow2(k - 1); (i >= h && j >= h) != Neg(k - 1, Fold(i, h), Fold(j, h)))
  }

  lemma {:induction false} Symmetric(k: nat, i: nat, j: nat)
    ensures Neg(k, i, j) == Neg(k, j, i)
  {
    if k > 0 { Symmetric(k - 1, Fold(i, Pow2(k - 1)), Fold(j, Pow2(k - 1))); }
  }

  /* ---------- Its square ---------- */

  function Unit(neg: bool): int { if neg then -1 else 1 }

  // The first t terms of the product of row i and column m.
  function Dot(k: nat, i: nat, m: nat, t: nat): int {
    if t == 0 then 0 else Dot(k, i, m, t - 1) + Unit(Neg(k, i, t - 1) != Neg(k, t - 1, m))
  }

  lemma {:induction false} DotFirstHalf(k: nat, i: nat, m: nat, t: nat)
    requires k > 0 && t <= Pow2(k - 1)
    ensures Dot(k, i, m, t) == Dot(k - 1, Fold(i, Pow2(k - 1)), Fold(m, Pow2(k - 1)), t)
  {
    if t > 0 { DotFirstHalf(k, i, m, t - 1); }
  }

  // The second half repeats the first, negated if the row and the column are in different halves.
  lemma {:induction false} DotSecondHalf(k: nat, i: nat, m: nat, t: nat)
    requires k > 0 && t <= Pow2(k - 1)
    ensures var h := Pow2(k - 1);
            var d := Dot(k - 1, Fold(i, h), Fold(m, h), t);
            Dot(k, i, m, h + t) == Dot(k - 1, Fold(i, h), Fold(m, h), h) + if (i >= h) == (m >= h) then d else -d
  {
    var h := Pow2(k - 1);
    if t == 0 {
      DotFirstHalf(k, i, m, h);
    } else {
      DotSecondHalf(k, i, m, t - 1);
    }
  }

  /** Its square is n times the identity. */
  lemma {:induction false} Squared(k: nat, i: nat, m: nat)
    requires i < Pow2(k) && m < Pow2(k)
    ensures Dot(k, i, m, Pow2(k)) == if i == m then Pow2(k) else 0
  {
    if k == 0 {
      assert Dot(0, i, m, 1) == Dot(0, i, m, 0) + 1;
    } else {
      var h := Pow2(k - 1);
      DotSecondHalf(k, i, m, h);
      Squared(k - 1, Fold(i, h), Fold(m, h));
    }
  }

  /* ---------- The matrix, built in place ---------- */

  // Where the entry of row i and column j is kept.
  function At(i: int, j: int, n: int): int { i * n + j }

  lemma Distribute(a: int, b: int, n: int)
    ensures (a - b) * n == a * n - b * n
  {
  }

  lemma AtLeastOne(x: int, n: int)
    requires x >= 1 && n >= 0
    ensures x * n >= n
  {
  }

  lemma AtInjective(i: int, j: int, a: int, b: int, n: int)
    requires 0 <= j < n && 0 <= b < n && At(i, j, n) == At(a, b, n)
    ensures i == a && j == b
  {
    Distribute(a, i, n);
    Distribute(i, a, n);
    if i < a { AtLeastOne(a - i, n); }
    if i > a { AtLeastOne(i - a, n); }
  }

  lemma AtBound(i: int, j: int, n: int)
    requires 0 <= i < n && 0 <= j < n
    ensures 0 <= At(i, j, n) < n * n
  {
    assert i * n <= (n - 1) * n;
  }

  predicate Square(data: array<real>, n: nat)
    reads data
  {
    data.Length == n * n
  }

  function Entry(data: seq<real>, n: nat, i: int, j: int): real {
    if 0 <= At(i, j, n) < |data| then data[At(i, j, n)] else 0.0
  }

  // Copies one entry of the s by s corner into the three other quarters.
  method Spread(data: array<real>, n: nat, s: nat, i: nat, j: nat)
    requires Square(data, n) && i < s && j < s && s + s <= n
    modifies data
    ensures forall a, b :: 0 <= a < n && 0 <= b < n ==>
              Entry(data[..], n, a, b) ==
                if a == i + s && b == j + s then -old(Entry(data[..], n, i, j))
                else if (a == i + s && b == j) || (a == i && b == j + s) then old(Entry(data[..], n, i, j))
                else old(Entry(data[..], n, a, b))
  {
    AtBound(i, j, n);
    AtBound(i + s, j, n);
    AtBound(i, j + s, n);
    AtBound(i + s, j + s, n);
    var val := data[At(i, j, n)];
    forall a, b | 0 <= a < n && 0 <= b < n
      ensures 0 <= At(a, b, n) < n * n
      ensures At(a, b, n) == At(i + s, j, n) ==> a == i + s && b == j
      ensures At(a, b, n) == At(i, j + s, n) ==> a == i && b == j + s
      ensures At(a, b, n) == At(i + s, j + s, n) ==> a == i + s && b == j + s
    {
      AtBound(a, b, n);
      if At(a, b, n) == At(i + s, j, n) { AtInjective(a, b, i + s, j, n); }
      if At(a, b, n) == At(i, j + s, n) { AtInjective(a, b, i, j + s, n); }
      if At(a, b, n) == At(i + s, j + s, n) { AtInjective(a, b, i + s, j + s, n); }
    }
    hide At;
    data[At(i + s, j, n)] := val;
    data[At(i, j + s, n)] := val;
    data[At(i + s, j + s, n)] := -val;
  }

  // The s by s corner holds the matrix of order s.
  predicate Corner(data: seq<real>, n: nat, k: nat, c: real) {
    forall a, b :: 0 <= a < Pow2(k) && 0 <= b < Pow2(k) ==> Entry(data, n, a, b) == Signed(Neg(k, a, b), c)
  }

  function Signed(neg: bool, v: real): real { if neg then -v else v }

  lemma {:induction false} Pow2Order(a: nat, b: nat)
    ensures a < b ==> Pow2(a + 1) <= Pow2(b)
    ensures a == b <==> Pow2(a) == Pow2(b)
    ensures a > b ==> Pow2(a) >= 2 * Pow2(b)
    decreases b + a
  {
    if a > 0 && b > 0 { Pow2Order(a - 1, b - 1); }
  }

  // Stage s of the doubling, up to row i and, in that row, up to column j.
  predicate Doubling(data: seq<real>, n: nat, k: nat, c: real, i: nat, j: nat) {
    var s := Pow2(k);
    && (forall a, b {:trigger Neg(k, a, b)} ::
          0 <= a < s && 0 <= b < s ==> Entry(data, n, a, b) == Signed(Neg(k, a, b), c))
    && (forall a, b {:trigger Neg(k, a, b)} :: 0 <= a < s && 0 <= b < s && (a < i || (a == i && b < j)) ==>
          && Entry(data, n, a + s, b) == Signed(Neg(k, a, b), c) && Entry(data, n, a, b + s) == Signed(Neg(k, a, b), c)
          && Entry(data, n, a + s, b + s) == -Signed(Neg(k, a, b), c))
  }

  lemma DoublingDone(data: seq<real>, n: nat, k: nat, c: real)
    requires Doubling(data, n, k, c, Pow2(k), 0)
    ensures Corner(data, n, k + 1, c)
  {
    hide Entry, Neg, Doubling;
    forall a, b | 0 <= a < Pow2(k + 1) && 0 <= b < Pow2(k + 1)
      ensures Entry(data, n, a, b) == Signed(Neg(k + 1, a, b), c)
    {
      Quarter(data, n, k, c, a, b);
    }
  }

  lemma Quarter(data: seq<real>, n: nat, k: nat, c: real, a: nat, b: nat)
    requires Doubling(data, n, k, c, Pow2(k), 0) && a < 2 * Pow2(k) && b < 2 * Pow2(k)
    ensures Entry(data, n, a, b) == Signed(Neg(k + 1, a, b), c)
  {
    hide Entry, Neg, Pow2;
    NegQuarter(k, a, b);
    var s := Pow2(k);
    var neg := Neg(k, Fold(a, s), Fold(b, s));
  }

  lemma NegQuarter(k: nat, a: nat, b: nat)
    ensures Neg(k + 1, a, b) == ((a >= Pow2(k) && b >= Pow2(k)) != Neg(k, Fold(a, Pow2(k)), Fold(b, Pow2(k))))
  {
  }

  lemma NextRow(data: seq<real>, n: nat, k: nat, c: real, i: nat)
    requires i < Pow2(k) && Doubling(data, n, k, c, i, Pow2(k))
    ensures Doubling(data, n, k, c, i + 1, 0)
  {
    hide Entry, Neg, Pow2;
  }

  method SpreadOne(data: array<real>, n: nat, ghost k: nat, s: nat, c: real, i: nat, j: nat)
    requires Square(data, n) && s == Pow2(k) && i < s && j < s && s + s <= n && Doubling(data[..], n, k, c, i, j)
    modifies data
    ensures Doubling(data[..], n, k, c, i, j + 1)
  {
    Spread(data, n, s, i, j);
    hide Entry, Neg, Pow2;
  }

  /** kvmem_hadamard_matrix: the doubling loops leave the scaled matrix. */
  method Matrix(n: nat, c: real, ghost k: nat) returns (data: array<real>)
    requires n == Pow2(k)
    ensures fresh(data) && Square(data, n) && Corner(data[..], n, k, c)
  {
    data := new real[n * n](_ => 0.0);
    AtBound(0, 0, n);
    data[0] := c;
    var s := 1;
    ghost var e := 0;
    while s < n
      invariant s == Pow2(e) && e <= k && Corner(data[..], n, e, c)
      decreases n - s
    {
      Pow2Order(e, k);
      for i := 0 to s
        invariant Doubling(data[..], n, e, c, i, 0)
      {
        for j := 0 to s
          invariant Doubling(data[..], n, e, c, i, j)
        {
          SpreadOne(data, n, e, s, c, i, j);
        }
        NextRow(data[..], n, e, c, i);
      }
      DoublingDone(data[..], n, e, c);
      s, e := s * 2, e + 1;
    }
    Pow2Order(e, k);
  }
}
