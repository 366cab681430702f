/** The mathematical product of column-major matrices, over exact reals.

    A is n×k (offset of (i, t) is At(n, k, i, t)), B is k×m (offset of (t, j) is
    At(k, m, t, j)) and C is n×m (offset of (i, j) is At(n, m, i, j)).  `Dot` is the
    sum that the reference kernel accumulates for one output element, in the
    same ascending order of t; `Product` collects all of them into the flat
    n*m result buffer.  Every kernel is proved to leave exactly `Product` in
    the first n*m cells of C.
 */
module MatMul {
  import opened Layout

  /** The product of two matrix elements (float32_t `*` in the source,
      exact here).  Naming it lets proofs match equal products by their
      factors instead of by nonlinear arithmetic. */
  function Mul(x: real, y: real): real
  {
    x * y
  }

  /** A holds at least n*k elements and B at least k*m. */
  predicate Conformable(a: seq<real>, b: seq<real>, n: nat, m: nat, k: nat)
  {
    n * k <= |a| && k * m <= |b|
  }

  /** Sum over s < t of A(i, s) * B(s, j), added in ascending order of s. */
  function Dot(a: seq<real>, b: seq<real>, n: nat, m: nat, k: nat, i: nat, j: nat, t: nat): real
    requires Conformable(a, b, n, m, k)
    requires i < n && j < m && t <= k
    decreases t
  {
    if t == 0 then 0.0
    else
      Dot(a, b, n, m, k, i, j, t - 1) + Mul(a[At(n, k, i, t - 1)], b[At(k, m, t - 1, j)])
  }

  /** Element of the product stored at offset x of C. */
  function Entry(a: seq<real>, b: seq<real>, n: nat, m: nat, k: nat, x: nat): real
    requires Conformable(a, b, n, m, k) && x < n * m
  {
    assert x % n < n && x / n < m by { AtSplit(n, m, x); }
    Dot(a, b, n, m, k, x % n, x / n, k)
  }

  /** The n×m product A×B as a flat column-major buffer. */
  function Product(a: seq<real>, b: seq<real>, n: nat, m: nat, k: nat): (p: seq<real>)
    requires Conformable(a, b, n, m, k)
    ensures |p| == n * m
  {
    seq(n * m, x requires 0 <= x < n * m => Entry(a, b, n, m, k, x))
  }

  /** Element (i, j) of the product is the dot product of row i of A with
      column j of B. */
  lemma ProductAt(a: seq<real>, b: seq<real>, n: nat, m: nat, k: nat, i: nat, j: nat)
    requires Conformable(a, b, n, m, k)
    requires i < n && j < m
    ensures Product(a, b, n, m, k)[At(n, m, i, j)] == Dot(a, b, n, m, k, i, j, k)
  {
    AtCoordinates(n, m, i, j);
  }

  /** A buffer whose every element (i, j) holds the dot product of row i of A
      and column j of B holds the product in its first n*m cells. */
  lemma ProductFromCells(c: seq<real>, a: seq<real>, b: seq<real>, n: nat, m: nat, k: nat)
    requires Conformable(a, b, n, m, k)
    requires n * m <= |c|
    requires forall i, j :: 0 <= i < n && 0 <= j < m ==> c[At(n, m, i, j)] == Dot(a, b, n, m, k, i, j, k)
    ensures c[..n * m] == Product(a, b, n, m, k)
  {
    forall x | 0 <= x < n * m
      ensures c[x] == Product(a, b, n, m, k)[x]
    {
      var i, j := AtOnto(n, m, x);
      ProductAt(a, b, n, m, k, i, j);
    }
  }

  /** A dot product against an all-zero row of A is zero. */
  lemma {:induction false} DotZeroLeft(a: seq<real>, b: seq<real>, n: nat, m: nat, k: nat, i: nat, j: nat, t: nat)
    requires Conformable(a, b, n, m, k)
    requires i < n && j < m && t <= k
    requires forall x :: 0 <= x < n * k ==> a[x] == 0.0
    ensures Dot(a, b, n, m, k, i, j, t) == 0.0
  {
    if t > 0 {
      DotZeroLeft(a, b, n, m, k, i, j, t - 1);
    }
  }

  /** A dot product against an all-zero column of B is zero. */
  lemma {:induction false} DotZeroRight(a: seq<real>, b: seq<real>, n: nat, m: nat, k: nat, i: nat, j: nat, t: nat)
    requires Conformable(a, b, n, m, k)
    requires i < n && j < m && t <= k
    requires forall x :: 0 <= x < k * m ==> b[x] == 0.0
    ensures Dot(a, b, n, m, k, i, j, t) == 0.0
  {
    if t > 0 {
      DotZeroRight(a, b, n, m, k, i, j, t - 1);
    }
  }

  /** Multiplying by an all-zero A, or by an all-zero B, gives an all-zero C. */
  lemma ProductZero(a: seq<real>, b: seq<real>, n: nat, m: nat, k: nat)
    requires Conformable(a, b, n, m, k)
    requires (forall x :: 0 <= x < n * k ==> a[x] == 0.0) || (forall x :: 0 <= x < k * m ==> b[x] == 0.0)
    ensures forall x :: 0 <= x < n * m ==> Product(a, b, n, m, k)[x] == 0.0
  {
    forall x | 0 <= x < n * m
      ensures Product(a, b, n, m, k)[x] == 0.0
    {
      AtSplit(n, m, x);
      if forall y :: 0 <= y < n * k ==> a[y] == 0.0 {
        DotZeroLeft(a, b, n, m, k, x % n, x / n, k);
      } else {
        DotZeroRight(a, b, n, m, k, x % n, x / n, k);
      }
    }
  }

  /** The n×n identity matrix in column-major order. */
  function Identity(n: nat): (e: seq<real>)
    ensures |e| == n * n
  {
    seq(n * n, x requires 0 <= x < n * n => if x % n == x / n then 1.0 else 0.0)
  }

  /** The identity has ones exactly on its diagonal. */
  lemma IdentityAt(n: nat, i: nat, j: nat)
    requires i < n && j < n
    ensures Identity(n)[At(n, n, i, j)] == if i == j then 1.0 else 0.0
  {
    AtCoordinates(n, n, i, j);
  }

  /** The first t terms of row i of the identity against column j of B pick
      out B(i, j) when i < t, and nothing otherwise. */
  lemma {:induction false} DotIdentity(b: seq<real>, n: nat, m: nat, i: nat, j: nat, t: nat)
    requires Conformable(Identity(n), b, n, m, n)
    requires i < n && j < m && t <= n
    ensures Dot(Identity(n), b, n, m, n, i, j, t) == if i < t then b[At(n, m, i, j)] else 0.0
  {
    if t > 0 {
      DotIdentity(b, n, m, i, j, t - 1);
      IdentityAt(n, i, t - 1);
    }
  }

  /** Multiplying by the identity on the left returns B unchanged. */
  lemma IdentityLeft(b: seq<real>, n: nat, m: nat)
    requires n * m <= |b|
    ensures Conformable(Identity(n), b, n, m, n)
    ensures Product(Identity(n), b, n, m, n) == b[..n * m]
  {
    var p := Product(Identity(n), b, n, m, n);
    forall x | 0 <= x < n * m
      ensures p[x] == b[x]
    {
      AtSplit(n, m, x);
      ProductAt(Identity(n), b, n, m, n, x % n, x / n);
      DotIdentity(b, n, m, x % n, x / n, n);
    }
  }

  /** For a single 4×4 block, element (r, c) of the product is the four-term
      sum A(r, 0)*B(0, c) + ... + A(r, 3)*B(3, c) written out on flat offsets. */
  lemma Product4x4At(a: seq<real>, b: seq<real>, r: nat, c: nat)
    requires 16 <= |a| && 16 <= |b|
    requires r < 4 && c < 4
    ensures Conformable(a, b, 4, 4, 4)
    ensures Product(a, b, 4, 4, 4)[4 * c + r]
         == Mul(a[r], b[4 * c]) + Mul(a[4 + r], b[4 * c + 1]) + Mul(a[8 + r], b[4 * c + 2]) + Mul(a[12 + r], b[4 * c + 3])
  {
    ProductAt(a, b, 4, 4, 4, r, c);
    assert Dot(a, b, 4, 4, 4, r, c, 1) == Mul(a[r], b[4 * c]);
    assert Dot(a, b, 4, 4, 4, r, c, 2) == Dot(a, b, 4, 4, 4, r, c, 1) + Mul(a[4 + r], b[4 * c + 1]);
    assert Dot(a, b, 4, 4, 4, r, c, 3) == Dot(a, b, 4, 4, 4, r, c, 2) + Mul(a[8 + r], b[4 * c + 2]);
  }
}
