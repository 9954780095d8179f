/**
 Rotating rows with the matrix, kvmem_hadamard_rows and kvmem_hadamard_nrot_k of
 src/adapter/llama-kvmem-quant.h: rotating twice gives the rows back.
 */
module HadamardRows {
  import opened Hadamard

  /* ---------- One chunk ---------- */

  // The first t terms of row i times x, before scaling.
  function RowSum(k: nat, i: nat, x: seq<real>, t: nat): real
    requires t <= |x|
  {
    if t == 0 then 0.0 else RowSum(k, i, x, t - 1) + Signed(Neg(k, i, t - 1), x[t - 1])
  }

  // The rotated chunk.
  function Rotated(k: nat, c: real, x: seq<real>): (y: seq<real>)
    ensures |y| == |x| && forall i :: 0 <= i < |x| ==> y[i] == c * RowSum(k, i, x, |x|)
  {
    seq(|x|, i requires 0 <= i < |x| => c * RowSum(k, i, x, |x|))
  }

  // The first t terms of row m times the rotated chunk of which only b columns were used, before scaling.
  function Twice(k: nat, m: nat, x: seq<real>, t: nat, b: nat): real
    requires b <= |x|
  {
    if t == 0 then 0.0 else Twice(k, m, x, t - 1, b) + Signed(Neg(k, m, t - 1), RowSum(k, t - 1, x, b))
  }

  lemma RowSumStep(k: nat, i: nat, x: seq<real>, t: nat)
    requires 0 < t <= |x|
    ensures RowSum(k, i, x, t) == RowSum(k, i, x, t - 1) + Signed(Neg(k, i, t - 1), x[t - 1])
  {
    hide Neg, Signed;
  }

  lemma TwiceStep(k: nat, m: nat, x: seq<real>, t: nat, b: nat)
    requires 0 < t && b <= |x|
    ensures Twice(k, m, x, t, b) == Twice(k, m, x, t - 1, b) + Signed(Neg(k, m, t - 1), RowSum(k, t - 1, x, b))
  {
    hide Neg, Signed, RowSum;
  }

  lemma DotStep(k: nat, i: nat, m: nat, t: nat)
    requires 0 < t
    ensures Dot(k, i, m, t) == Dot(k, i, m, t - 1) + Unit(Neg(k, i, t - 1) != Neg(k, t - 1, m))
  {
    hide Neg, Unit;
  }

  // v taken d times.
  function Times(d: int, v: real): real { (d as real) * v }

  // One more column contributes its entry times the product of row m and that column.
  lemma {:induction false} TwiceColumn(k: nat, m: nat, x: seq<real>, t: nat, b: nat)
    requires b < |x|
    ensures Twice(k, m, x, t, b + 1) == Twice(k, m, x, t, b) + Times(Dot(k, m, b, t), x[b])
  {
    hide Neg, Signed, Unit, RowSum, Twice, Dot, Times;
    if t == 0 {
      NoTerms(k, m, x, b);
    } else {
      var neg, neg' := Neg(k, m, t - 1), Neg(k, t - 1, b);
      TwiceColumn(k, m, x, t - 1, b);
      TwiceStep(k, m, x, t, b + 1);
      TwiceStep(k, m, x, t, b);
      RowSumStep(k, t - 1, x, b + 1);
      DotStep(k, m, b, t);
      SignedSum(neg, neg', RowSum(k, t - 1, x, b), x[b]);
      OneMore(Dot(k, m, b, t - 1), neg != neg', x[b]);
    }
  }

  lemma NoTerms(k: nat, m: nat, x: seq<real>, b: nat)
    requires b < |x|
    ensures Twice(k, m, x, 0, b + 1) == Twice(k, m, x, 0, b) + Times(Dot(k, m, b, 0), x[b])
  {
  }

  lemma SignedSum(n: bool, n': bool, u: real, v: real)
    ensures Signed(n, u + Signed(n', v)) == Signed(n, u) + Signed(n != n', v)
  {
  }

  lemma OneMore(d: int, neg: bool, v: real)
    ensures Times(d + Unit(neg), v) == Times(d, v) + Signed(neg, v)
  {
    var u := Unit(neg);
    assert ((d + u) as real) == (d as real) + (u as real);
    assert ((d as real) + (u as real)) * v == (d as real) * v + (u as real) * v;
  }

  lemma {:induction false} TwiceIsScaled(k: nat, m: nat, x: seq<real>, b: nat)
    requires |x| == Pow2(k) && m < |x| && b <= |x|
    ensures Twice(k, m, x, |x|, b) == if m < b then Times(Pow2(k), x[m]) else 0.0
  {
    hide Neg, Signed, Dot, Pow2, Twice, RowSum, Times;
    if b == 0 {
      TwiceNone(k, m, x, |x|);
    } else {
      TwiceIsScaled(k, m, x, b - 1);
      TwiceColumn(k, m, x, |x|, b - 1);
      Squared(k, m, b - 1);
      NoTimes(x[b - 1]);
    }
  }

  lemma NoTimes(v: real)
    ensures Times(0, v) == 0.0
  {
  }

  lemma {:induction false} TwiceNone(k: nat, m: nat, x: seq<real>, t: nat)
    ensures Twice(k, m, x, t, 0) == 0.0
  {
    hide Neg;
    if t > 0 { TwiceNone(k, m, x, t - 1); }
  }

  lemma {:induction false} SumOfRotated(k: nat, c: real, m: nat, x: seq<real>, t: nat)
    requires t <= |x|
    ensures RowSum(k, m, Rotated(k, c, x), t) == c * Twice(k, m, x, t, |x|)
  {
    hide Neg, Signed, Rotated, RowSum, Twice;
    if t == 0 {
      SumOfNone(k, c, m, x);
    } else {
      var y, neg, v := Rotated(k, c, x), Neg(k, m, t - 1), RowSum(k, t - 1, x, |x|);
      SumOfRotated(k, c, m, x, t - 1);
      RowSumStep(k, m, y, t);
      TwiceStep(k, m, x, t, |x|);
      assert y[t - 1] == c * v;
      ScaledStep(c, Twice(k, m, x, t - 1, |x|), neg, v);
    }
  }

  lemma SumOfNone(k: nat, c: real, m: nat, x: seq<real>)
    ensures RowSum(k, m, x, 0) == 0.0 && c * Twice(k, m, x, 0, |x|) == 0.0
    ensures |Rotated(k, c, x)| == |x| && RowSum(k, m, Rotated(k, c, x), 0) == 0.0
  {
  }

  lemma ScaledStep(c: real, a: real, neg: bool, v: real)
    ensures c * a + Signed(neg, c * v) == c * (a + Signed(neg, v))
  {
  }

  /** Rotating a chunk twice gives it back. */
  lemma RotatedTwice(k: nat, c: real, x: seq<real>)
    requires |x| == Pow2(k) && c * c * (Pow2(k) as real) == 1.0
    ensures Rotated(k, c, Rotated(k, c, x)) == x
  {
    hide Rotated;
    forall m | 0 <= m < |x| ensures Rotated(k, c, Rotated(k, c, x))[m] == x[m] { RotatedTwiceAt(k, c, x, m); }
  }

  lemma RotatedTwiceAt(k: nat, c: real, x: seq<real>, m: nat)
    requires |x| == Pow2(k) && c * c * (Pow2(k) as real) == 1.0 && m < |x|
    ensures Rotated(k, c, Rotated(k, c, x))[m] == x[m]
  {
    hide Rotated, RowSum, Twice, Pow2;
    SumOfRotated(k, c, m, x, |x|);
    TwiceIsScaled(k, m, x, |x|);
    Cancels(c, Pow2(k) as real, x[m]);
  }

  lemma Cancels(c: real, n: real, v: real)
    requires c * c * n == 1.0
    ensures c * (c * (n * v)) == v
  {
    assert c * (c * (n * v)) == (c * c * n) * v;
  }

  /* ---------- All rows ---------- */

  // Every whole chunk rotated, in order.
  function Rows(k: nat, c: real, data: seq<real>): seq<real> {
    if |data| < Pow2(k) then data else Rotated(k, c, data[..Pow2(k)]) + Rows(k, c, data[Pow2(k)..])
  }

  /** Rotating rows twice gives them back. */
  lemma {:induction false} RowsTwice(k: nat, c: real, data: seq<real>)
    requires c * c * (Pow2(k) as real) == 1.0
    ensures |Rows(k, c, data)| == |data| && Rows(k, c, Rows(k, c, data)) == data
    decreases |data|
  {
    hide Rotated, Pow2, Rows;
    var n := Pow2(k);
    if |data| < n {
      FewRows(k, c, data);
    } else {
      var first, rest := Rotated(k, c, data[..n]), Rows(k, c, data[n..]);
      RowsSplit(k, c, data);
      RotatedTwice(k, c, data[..n]);
      RowsTwice(k, c, data[n..]);
      assert (first + rest)[..n] == first && (first + rest)[n..] == rest;
      RowsSplit(k, c, first + rest);
      assert data == data[..n] + data[n..];
    }
  }

  /** Each entry becomes the product of its row of the matrix and its own chunk. */
  lemma {:induction false} RowsAt(k: nat, c: real, data: seq<real>, x: nat, i: nat)
    requires Whole(x, Pow2(k)) && x + Pow2(k) <= |data| && i < Pow2(k)
    ensures |Rows(k, c, data)| == |data|
    ensures Rows(k, c, data)[x + i] == c * RowSum(k, i, data[x..x + Pow2(k)], Pow2(k))
    decreases |data|
  {
    hide Pow2, RowSum, Rotated, Rows;
    var n := Pow2(k);
    RowsSplit(k, c, data);
    RowsLength(k, c, data[n..]);
    if x > 0 {
      RowsAt(k, c, data[n..], x - n, i);
      assert data[n..][x - n..x] == data[x..x + n];
    }
  }

  lemma {:induction false} RowsLength(k: nat, c: real, data: seq<real>)
    ensures |Rows(k, c, data)| == |data|
    decreases |data|
  {
    hide Pow2, RowSum, Rotated;
    if |data| >= Pow2(k) { RowsLength(k, c, data[Pow2(k)..]); }
  }

  lemma FewRows(k: nat, c: real, data: seq<real>)
    requires |data| < Pow2(k)
    ensures Rows(k, c, data) == data
  {
  }

  lemma RowsSplit(k: nat, c: real, data: seq<real>)
    requires |data| >= Pow2(k)
    ensures Rows(k, c, data) == Rotated(k, c, data[..Pow2(k)]) + Rows(k, c, data[Pow2(k)..])
  {
    hide Rotated, Pow2;
  }

  predicate Whole(length: nat, n: nat) { n > 0 && (length == 0 || (length >= n && Whole(length - n, n))) }

  lemma {:induction false} RowsAppend(k: nat, c: real, a: seq<real>, b: seq<real>)
    requires Whole(|a|, Pow2(k)) && |b| == Pow2(k)
    ensures Rows(k, c, a + b) == Rows(k, c, a) + Rotated(k, c, b) && |Rows(k, c, a)| == |a| && Whole(|a + b|, Pow2(k))
    decreases |a|
  {
    hide Rotated, Pow2;
    var n := Pow2(k);
    if a == [] {
      assert a + b == b && b[..n] == b && b[n..] == [];
      assert Rows(k, c, b) == Rotated(k, c, b) + [];
    } else {
      RowsAppend(k, c, a[n..], b);
      assert (a + b)[..n] == a[..n] && (a + b)[n..] == a[n..] + b;
      var first := Rotated(k, c, a[..n]);
      assert first + (Rows(k, c, a[n..]) + Rotated(k, c, b)) == (first + Rows(k, c, a[n..])) + Rotated(k, c, b);
    }
  }

  /* ---------- In place ---------- */

  lemma ScaledTerm(neg: bool, c: real, s: real, v: real)
    ensures c * s + Signed(neg, c) * v == c * (s + Signed(neg, v))
  {
  }

  // One entry of the product.
  method RowTimes(matrix: array<real>, n: nat, ghost k: nat, ghost c: real, i: nat, rows: array<real>, x: nat)
    returns (acc: real)
    requires Square(matrix, n) && Corner(matrix[..], n, k, c) && n == Pow2(k) && i < n && x + n <= rows.Length
    ensures acc == c * RowSum(k, i, rows[x..x + n], n)
  {
    hide Neg, Pow2, Signed;
    acc := 0.0;
    ghost var chunk := rows[x..x + n];
    for j := 0 to n
      invariant acc == c * RowSum(k, i, chunk, j)
    {
      AtBound(i, j, n);
      assert Entry(matrix[..], n, i, j) == Signed(Neg(k, i, j), c);
      ScaledTerm(Neg(k, i, j), c, RowSum(k, i, chunk, j), chunk[j]);
      acc := acc + matrix[At(i, j, n)] * rows[x + j];
    }
  }

  method RotateChunk(matrix: array<real>, n: nat, ghost k: nat, ghost c: real, rows: array<real>, x: nat)
    requires Square(matrix, n) && Corner(matrix[..], n, k, c) && n == Pow2(k) && x + n <= rows.Length && rows != matrix
    modifies rows
    ensures rows[..] == old(rows[..])[..x] + Rotated(k, c, old(rows[..])[x..x + n]) + old(rows[..])[x + n..]
  {
    hide Neg, Pow2, Signed, RowSum, Corner, Rotated;
    var tmp := new real[n];
    ghost var was, y := rows[..], Rotated(k, c, rows[x..x + n]);
    for i := 0 to n
      invariant rows[..] == was && forall m :: 0 <= m < i ==> tmp[m] == y[m]
    {
      tmp[i] := RowTimes(matrix, n, k, c, i, rows, x);
      assert rows[x..x + n] == was[x..x + n];
    }
    for i := 0 to n
      invariant forall m :: 0 <= m < n ==> tmp[m] == y[m]
      invariant forall m :: 0 <= m < rows.Length ==> rows[m] == if x <= m < x + i then y[m - x] else was[m]
    {
      rows[x + i] := tmp[i];
    }
    Spliced(was, rows[..], x, y);
  }

  lemma Spliced(a: seq<real>, b: seq<real>, x: nat, y: seq<real>)
    requires |a| == |b| && x + |y| <= |a| &&
             forall m :: 0 <= m < |a| ==> b[m] == if x <= m < x + |y| then y[m - x] else a[m]
    ensures b == a[..x] + y + a[x + |y|..]
  {
  }

  lemma {:induction false} DivisibleIsWhole(w: nat, n: nat)
    requires n > 0 && w % n == 0
    ensures Whole(w, n)
  {
    if w > 0 {
      var q := w / n;
      assert w == n * q && q > 0;
      MulStep(n, q);
      assert (w - n) % n == 0 by { MulMod(n, q - 1); }
      DivisibleIsWhole(w - n, n);
    }
  }

  lemma MulStep(n: int, q: int)
    requires n > 0 && q > 0
    ensures n * q == n * (q - 1) + n && n * (q - 1) >= 0
  {
  }

  lemma MulMod(n: int, q: int)
    requires n > 0 && q >= 0
    ensures (n * q) % n == 0
  {
    var x := n * q;
    assert x == (x / n) * n + x % n && At(q, 0, n) == x && At(x / n, x % n, n) == x;
    AtInjective(q, 0, x / n, x % n, n);
  }

  // What the source checks before it touches the rows.
  predicate Rotates(nRows: int, heads: int, width: int, n: int) {
    nRows > 0 && heads > 0 && n > 0 && width >= n && width % n == 0
  }

  lemma MulSucc(a: nat, b: nat)
    ensures a * b >= 0 && (a + 1) * b == a * b + b
  {
  }

  lemma MulLe(a: nat, b: nat, c: nat)
    requires a <= b
    ensures a * c <= b * c
  {
  }

  // Where head h of row t begins.
  function HeadAt(t: nat, h: nat, heads: nat, width: nat): nat {
    MulSucc(heads, width);
    MulSucc(t, heads * width);
    MulSucc(h, width);
    t * (heads * width) + h * width
  }

  // The heads follow one another, and head h of row t ends within the rows.
  lemma HeadFits(t: nat, nRows: nat, h: nat, heads: nat, width: nat)
    requires t < nRows && h < heads
    ensures HeadAt(t, h + 1, heads, width) == HeadAt(t, h, heads, width) + width <= HeadAt(nRows, 0, heads, width)
  {
    MulSucc(h, width);
    MulLe(h + 1, heads, width);
    MulSucc(heads, width);
    RowFits(t, nRows, heads * width);
  }

  lemma RowFits(t: nat, nRows: nat, row: nat)
    requires t < nRows
    ensures t * row + row <= nRows * row
  {
    MulSucc(t, row);
    MulLe(t + 1, nRows, row);
  }

  lemma RowEnds(t: nat, heads: nat, width: nat)
    ensures HeadAt(t + 1, 0, heads, width) == HeadAt(t, heads, heads, width)
  {
    MulSucc(heads, width);
    MulSucc(t, heads * width);
  }

  lemma RowsBegin(nRows: nat, heads: nat, width: nat)
    ensures HeadAt(0, 0, heads, width) == 0 && HeadAt(nRows, 0, heads, width) == nRows * (heads * width)
  {
  }

  // The rows before x are done, the others untouched.
  ghost predicate DoneUpTo(rows: seq<real>, before: seq<real>, k: nat, c: real, x: nat) {
    && |rows| == |before| && x <= |rows| && Whole(x, Pow2(k))
    && rows[..x] == Rows(k, c, before[..x]) && rows[x..] == before[x..]
  }

  lemma NextChunk(rows: seq<real>, after: seq<real>, before: seq<real>, k: nat, c: real, x: nat)
    requires DoneUpTo(rows, before, k, c, x) && x + Pow2(k) <= |rows|
    requires after == rows[..x] + Rotated(k, c, rows[x..x + Pow2(k)]) + rows[x + Pow2(k)..]
    ensures DoneUpTo(after, before, k, c, x + Pow2(k))
  {
    hide Pow2, Rotated;
    var n := Pow2(k);
    assert rows[x..x + n] == before[x..x + n] by { assert rows[x..][..n] == before[x..][..n]; }
    RowsAppend(k, c, before[..x], before[x..x + n]);
    assert before[..x + n] == before[..x] + before[x..x + n];
    assert after[x + n..] == rows[x + n..] == before[x + n..] by { assert rows[x..][n..] == before[x..][n..]; }
    assert after[..x + n] == rows[..x] + Rotated(k, c, before[x..x + n]);
  }

  /** kvmem_hadamard_rows: every chunk of every head of every row, in place. */
  method RotateRows(rows: array<real>, nRows: int, heads: int, width: int, n: int, c: real, ghost k: nat)
    requires Rotates(nRows, heads, width, n) ==> n == Pow2(k) && rows.Length == nRows * (heads * width)
    modifies rows
    ensures nRows > 0 && heads > 0 && n > 0 && width >= n && width % n == 0 ==> rows[..] == Rows(k, c, old(rows[..]))
    ensures nRows <= 0 || heads <= 0 || n <= 0 || width < n || width % n != 0 ==> rows[..] == old(rows[..])
  {
    hide Pow2, Rotated, DoneUpTo, Corner, At, HeadAt;
    if !Rotates(nRows, heads, width, n) { return; }
    var matrix := Matrix(n, c, k);
    ghost var before := rows[..];
    StartRows(before, k, c);
    DivisibleIsWhole(width, n);
    RowsBegin(nRows, heads, width);
    for t := 0 to nRows
      invariant DoneUpTo(rows[..], before, k, c, HeadAt(t, 0, heads, width)) && Corner(matrix[..], n, k, c)
    {
      for h := 0 to heads
        invariant DoneUpTo(rows[..], before, k, c, HeadAt(t, h, heads, width)) && Corner(matrix[..], n, k, c)
      {
        HeadFits(t, nRows, h, heads, width);
        var head, off := HeadAt(t, h, heads, width), 0;
        while off < width
          invariant 0 <= off <= width && Whole(width - off, n) && DoneUpTo(rows[..], before, k, c, head + off) &&
                    Corner(matrix[..], n, k, c)
          decreases width - off
        {
          ghost var was := rows[..];
          RotateChunk(matrix, n, k, c, rows, head + off);
          NextChunk(was, rows[..], before, k, c, head + off);
          off := off + n;
        }
      }
      RowEnds(t, heads, width);
    }
    EndRows(rows[..], before, k, c);
  }

  lemma StartRows(before: seq<real>, k: nat, c: real)
    ensures DoneUpTo(before, before, k, c, 0)
  {
    assert before[..0] == [];
  }

  lemma EndRows(rows: seq<real>, before: seq<real>, k: nat, c: real)
    requires DoneUpTo(rows, before, k, c, |rows|)
    ensures rows == Rows(k, c, before)
  {
    assert rows[..|rows|] == rows && before[..|rows|] == before;
  }

  /** The same call again undoes the rotation. */
  method RotateThereAndBack(rows: array<real>, nRows: int, heads: int, width: int, n: int, c: real, ghost k: nat)
    requires Rotates(nRows, heads, width, n) ==> n == Pow2(k) && rows.Length == nRows * (heads * width)
    requires c * c * (Pow2(k) as real) == 1.0
    modifies rows
    ensures rows[..] == old(rows[..])
  {
    hide Rows, Pow2;
    RowsTwice(k, c, rows[..]);
    RotateRows(rows, nRows, heads, width, n, c, k);
    RotateRows(rows, nRows, heads, width, n, c, k);
  }

  /* ---------- The rotation size ---------- */

  /** kvmem_hadamard_nrot_k: the largest power of two that divides an accepted head width. */
  method RotationSize(width: nat) returns (n: nat, ghost k: nat)
    requires width >= 64 && width % 64 == 0
    ensures n == Pow2(k) && n >= 64 && width % n == 0
    ensures forall e: nat :: width % Pow2(e) == 0 ==> Pow2(e) <= n
  {
    n, k := 64, 6;
    assert Pow2(6) == 64 by { assert Pow2(3) == 8; }
    while width % (n * 2) == 0
      invariant n == Pow2(k) && 64 <= n <= width && width % n == 0
      decreases width - n
    {
      DividesSo(width, n * 2);
      n, k := n * 2, k + 1;
    }
    forall e: nat | width % Pow2(e) == 0 ensures Pow2(e) <= n {
      if e > k { HigherDivides(width, k + 1, e); } else { Pow2Order(e, k); }
    }
  }

  lemma DividesSo(width: nat, m: nat)
    requires width > 0 && m > 0 && width % m == 0
    ensures m <= width
  {
  }

  // A multiple of a higher power is a multiple of the lower one.
  lemma {:induction false} HigherDivides(width: nat, a: nat, b: nat)
    requires a <= b && width % Pow2(b) == 0
    ensures width % Pow2(a) == 0
  {
    if a < b {
      var p, q := Pow2(b - 1), width / Pow2(b);
      assert width == q * (2 * p);
      MulMod(p, 2 * q);
      assert q * (2 * p) == p * (2 * q);
      HigherDivides(width, a, b - 1);
    }
  }
}
