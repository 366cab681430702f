/** The three multiplication kernels of matrix_neon.c over exact reals.

    `MultiplyReference` is matrix_multiply_c, `MultiplyBlocked` is
    matrix_multiply_neon and `Multiply4x4` is matrix_multiply_4x4_neon.  Each
    is proved to leave `Product(A, B)` in the first n*m cells of C and to
    leave every later cell of C, and all of A and B, as they were; so on the
    same inputs all three produce the same C, whatever C held before.
 */
module Kernels {
  import opened Layout
  import opened MatMul
  import opened Neon

  /** Lane r of `v` holds element (i + r, j) of the rows×cols matrix `s`:
      `v` is four consecutive rows of one column. */
  ghost predicate HoldsColumn(v: Vec4, s: seq<real>, rows: nat, cols: nat, i: nat, j: nat)
  {
    i + 4 <= rows && j < cols && rows * cols <= |s| &&
    forall r :: 0 <= r < 4 ==> v[r] == s[At(rows, cols, i + r, j)]
  }

  /** Lane r of the accumulator `acc` holds the first t terms of element
      (i + r, jc) of the product. */
  ghost predicate Accumulated(a: seq<real>, b: seq<real>, n: nat, m: nat, k: nat,
                              i: nat, jc: nat, t: nat, acc: Vec4)
    requires Conformable(a, b, n, m, k)
  {
    i + 4 <= n && jc < m && t <= k &&
    forall r :: 0 <= r < 4 ==> acc[r] == Dot(a, b, n, m, k, i + r, jc, t)
  }

  /** Zeroed accumulators (vmovq_n_f32(0)) hold the empty sums. */
  lemma AccumulatedZero(a: seq<real>, b: seq<real>, n: nat, m: nat, k: nat, i: nat, jc: nat)
    requires Conformable(a, b, n, m, k) && i + 4 <= n && jc < m
    ensures Accumulated(a, b, n, m, k, i, jc, 0, Splat(0.0))
  {
  }

  /** A loop index stepping by 4 below a multiple of 4 has four more
      indices before the bound. */
  lemma StepBy4(x: nat, bound: nat)
    requires x % 4 == 0 && bound % 4 == 0 && x < bound
    ensures x + 4 <= bound && (x + 4) % 4 == 0
  {
  }

  /** Every vector load of matrix_multiply_neon stays inside its buffer: for
      the block at rows i..i+3, columns j..j+3 and inner index t, the loads
      of A at (i + n*t) + c*n cover four cells below n*k, and the loads of B
      at (k*j + t) + c*k four cells below k*m. */
  lemma LoadIndicesInBounds(n: nat, m: nat, k: nat, i: nat, j: nat, t: nat, c: nat)
    requires n % 4 == 0 && m % 4 == 0 && k % 4 == 0
    requires i % 4 == 0 && j % 4 == 0 && t % 4 == 0
    requires i < n && j < m && t < k && c < 4
    ensures (i + n * t) + c * n + 4 <= n * k
    ensures (k * j + t) + c * k + 4 <= k * m
  {
    assert (i + n * t) + c * n + 3 == At(n, k, i + 3, t + c);
    assert (k * j + t) + c * k + 3 == At(k, m, t + 3, j + c);
  }

  /** Every vector store of matrix_multiply_neon stays inside C: for the
      block at rows i..i+3, columns j..j+3, the store at (n*j + i) + c*n
      covers four cells below n*m. */
  lemma StoreIndicesInBounds(n: nat, m: nat, i: nat, j: nat, c: nat)
    requires n % 4 == 0 && m % 4 == 0
    requires i % 4 == 0 && j % 4 == 0
    requires i < n && j < m && c < 4
    ensures (n * j + i) + c * n + 4 <= n * m
  {
    assert (n * j + i) + c * n + 3 == At(n, m, i + 3, j + c);
  }

  /** Four consecutive cells loaded from the offset of element (i, j) are
      rows i..i+3 of column j. */
  lemma LoadColumn(v: Vec4, s: seq<real>, rows: nat, cols: nat, i: nat, j: nat, off: nat)
    requires Loaded(s, off, v) && rows * cols <= |s|
    requires i + 4 <= rows && j < cols && off == At(rows, cols, i, j)
    ensures HoldsColumn(v, s, rows, cols, i, j)
  {
    forall r | 0 <= r < 4
      ensures v[r] == s[At(rows, cols, i + r, j)]
    {
      assert At(rows, cols, i + r, j) == off + r;
    }
  }

  /** The four A loads of matrix_multiply_neon: columns t..t+3 of the n×k
      matrix A at rows i..i+3, from offsets A_idx, A_idx + n, A_idx + 2*n
      and A_idx + 3*n. */
  method LoadColumns(A: array<real>, ghost a: seq<real>, n: nat, k: nat, i: nat, t: nat, aIdx: nat)
    returns (A0: Vec4, A1: Vec4, A2: Vec4, A3: Vec4)
    requires A[..] == a && n * k <= |a| && i + 4 <= n && t + 4 <= k
    requires aIdx == At(n, k, i, t)
    ensures HoldsColumn(A0, a, n, k, i, t) && HoldsColumn(A1, a, n, k, i, t + 1)
    ensures HoldsColumn(A2, a, n, k, i, t + 2) && HoldsColumn(A3, a, n, k, i, t + 3)
  {
    AtShift(n, k, i, t, 1);
    AtShift(n, k, i, t, 2);
    AtShift(n, k, i, t, 3);
    assert At(n, k, i + 3, t + 3) == aIdx + 3 * n + 3;
    A0 := Load(A, aIdx);
    A1 := Load(A, aIdx + n);
    A2 := Load(A, aIdx + 2 * n);
    A3 := Load(A, aIdx + 3 * n);
    LoadColumn(A0, a, n, k, i, t, aIdx);
    LoadColumn(A1, a, n, k, i, t + 1, aIdx + n);
    LoadColumn(A2, a, n, k, i, t + 2, aIdx + 2 * n);
    LoadColumn(A3, a, n, k, i, t + 3, aIdx + 3 * n);
  }

  /** One 4×1 multiply-accumulate of matrix_multiply_neon: load rows
      t..t+3 of column jc of B from offset bIdx and add into `acc`, with
      vfmaq_laneq_f32 on lanes 0..3, the A columns t..t+3 held in A0..A3.
      Every lane r goes from the first t to the first t+4 terms of element
      (i + r, jc) of the product. */
  method MultiplyAddColumn(B: array<real>, ghost a: seq<real>, ghost b: seq<real>,
                           n: nat, m: nat, k: nat, i: nat, jc: nat, t: nat,
                           bIdx: nat, acc: Vec4, A0: Vec4, A1: Vec4, A2: Vec4, A3: Vec4)
    returns (acc': Vec4)
    requires B[..] == b && Conformable(a, b, n, m, k) && t + 4 <= k && jc < m
    requires bIdx == At(k, m, t, jc)
    requires Accumulated(a, b, n, m, k, i, jc, t, acc)
    requires HoldsColumn(A0, a, n, k, i, t) && HoldsColumn(A1, a, n, k, i, t + 1)
    requires HoldsColumn(A2, a, n, k, i, t + 2) && HoldsColumn(A3, a, n, k, i, t + 3)
    ensures Accumulated(a, b, n, m, k, i, jc, t + 4, acc')
  {
    assert At(k, m, t + 3, jc) == bIdx + 3;
    var Bc := Load(B, bIdx);
    LoadColumn(Bc, b, k, m, t, jc, bIdx);
    ColumnStep(a, b, n, m, k, i, jc, t, acc, A0, A1, A2, A3, Bc);
    acc' := LaneFma(acc, A0, Bc, 0);
    acc' := LaneFma(acc', A1, Bc, 1);
    acc' := LaneFma(acc', A2, Bc, 2);
    acc' := LaneFma(acc', A3, Bc, 3);
  }

  /** One pass of the inner loop for one output column: four lane-indexed
      multiply-adds of the A columns t..t+3 weighted by lanes 0..3 of the B
      column extend every lane's sum by the terms t, t+1, t+2, t+3, in that
      order, exactly as the reference kernel adds them. */
  lemma ColumnStep(a: seq<real>, b: seq<real>, n: nat, m: nat, k: nat, i: nat, jc: nat, t: nat,
                   acc: Vec4, A0: Vec4, A1: Vec4, A2: Vec4, A3: Vec4, bc: Vec4)
    requires Conformable(a, b, n, m, k) && t + 4 <= k
    requires Accumulated(a, b, n, m, k, i, jc, t, acc)
    requires HoldsColumn(A0, a, n, k, i, t) && HoldsColumn(A1, a, n, k, i, t + 1)
    requires HoldsColumn(A2, a, n, k, i, t + 2) && HoldsColumn(A3, a, n, k, i, t + 3)
    requires HoldsColumn(bc, b, k, m, t, jc)
    ensures Accumulated(a, b, n, m, k, i, jc, t + 4,
                        LaneFma(LaneFma(LaneFma(LaneFma(acc, A0, bc, 0), A1, bc, 1), A2, bc, 2), A3, bc, 3))
  {
    var acc' := LaneFma(LaneFma(LaneFma(LaneFma(acc, A0, bc, 0), A1, bc, 1), A2, bc, 2), A3, bc, 3);
    forall r | 0 <= r < 4
      ensures acc'[r] == Dot(a, b, n, m, k, i + r, jc, t + 4)
    {
      assert bc[0] == b[At(k, m, t, jc)] && bc[1] == b[At(k, m, t + 1, jc)];
      assert bc[2] == b[At(k, m, t + 2, jc)] && bc[3] == b[At(k, m, t + 3, jc)];
      assert Dot(a, b, n, m, k, i + r, jc, t + 1) == acc[r] + Mul(A0[r], bc[0]);
      assert Dot(a, b, n, m, k, i + r, jc, t + 2) == Dot(a, b, n, m, k, i + r, jc, t + 1) + Mul(A1[r], bc[1]);
      assert Dot(a, b, n, m, k, i + r, jc, t + 3) == Dot(a, b, n, m, k, i + r, jc, t + 2) + Mul(A2[r], bc[2]);
      assert Dot(a, b, n, m, k, i + r, jc, t + 4) == Dot(a, b, n, m, k, i + r, jc, t + 3) + Mul(A3[r], bc[3]);
    }
  }

  /** Storing a vector at the offset of element (i, jc) writes exactly
      elements (i..i+3, jc) of the matrix and nothing past its n*m cells. */
  lemma StoreColumn(s: seq<real>, s': seq<real>, n: nat, m: nat, i: nat, jc: nat, v: Vec4)
    requires n * m <= |s| && i + 4 <= n && jc < m
    requires Written(s, s', At(n, m, i, jc), v)
    ensures forall i', j' :: 0 <= i' < n && 0 <= j' < m ==>
      s'[At(n, m, i', j')] == if i <= i' < i + 4 && j' == jc then v[i' - i] else s[At(n, m, i', j')]
    ensures forall x :: n * m <= x < |s| ==> s'[x] == s[x]
  {
    var off := At(n, m, i, jc);
    assert At(n, m, i + 3, jc) == off + 3;
    forall i', j' | 0 <= i' < n && 0 <= j' < m
      ensures s'[At(n, m, i', j')] == if i <= i' < i + 4 && j' == jc then v[i' - i] else s[At(n, m, i', j')]
    {
      var x := At(n, m, i', j');
      if off <= x < off + 4 {
        assert x == At(n, m, i + (x - off), jc);
        AtInjective(n, m, i', j', i + (x - off), jc);
      }
    }
  }

  /** `s'` is `s` with the 4×4 block at rows i..i+3, columns j..j+3 of the
      n×m matrix replaced by the accumulators (column j + c from Cc), and
      every other cell, inside and past the n*m product, unchanged. */
  ghost predicate BlockStored(s: seq<real>, s': seq<real>, n: nat, m: nat, i: nat, j: nat,
                              C0: Vec4, C1: Vec4, C2: Vec4, C3: Vec4)
  {
    n * m <= |s| && |s'| == |s| && i + 4 <= n && j + 4 <= m &&
    (forall i', j' :: 0 <= i' < n && 0 <= j' < m ==>
      s'[At(n, m, i', j')] ==
        if i <= i' < i + 4 && j <= j' < j + 4
        then [C0, C1, C2, C3][j' - j][i' - i]
        else s[At(n, m, i', j')]) &&
    (forall x :: n * m <= x < |s| ==> s'[x] == s[x])
  }

  /** The four column stores of one block, at the offsets of elements
      (i, j) .. (i, j + 3), store exactly that block. */
  lemma StoreBlock(s0: seq<real>, s1: seq<real>, s2: seq<real>, s3: seq<real>, s4: seq<real>,
                   n: nat, m: nat, i: nat, j: nat, C0: Vec4, C1: Vec4, C2: Vec4, C3: Vec4)
    requires n * m <= |s0| && i + 4 <= n && j + 4 <= m
    requires Written(s0, s1, At(n, m, i, j), C0)
    requires Written(s1, s2, At(n, m, i, j + 1), C1)
    requires Written(s2, s3, At(n, m, i, j + 2), C2)
    requires Written(s3, s4, At(n, m, i, j + 3), C3)
    ensures BlockStored(s0, s4, n, m, i, j, C0, C1, C2, C3)
  {
    StoreColumn(s0, s1, n, m, i, j, C0);
    StoreColumn(s1, s2, n, m, i, j + 1, C1);
    StoreColumn(s2, s3, n, m, i, j + 2, C2);
    StoreColumn(s3, s4, n, m, i, j + 3, C3);
  }

  /** The stores that end each block of matrix_multiply_neon: the four
      accumulators go to C at C_idx = n*j + i and C_idx + c*n. */
  method StoreAccumulators(C: array<real>, n: nat, m: nat, i: nat, j: nat,
                           C0: Vec4, C1: Vec4, C2: Vec4, C3: Vec4)
    requires n % 4 == 0 && m % 4 == 0 && i % 4 == 0 && j % 4 == 0
    requires i < n && j < m && n * m <= C.Length
    modifies C
    ensures BlockStored(old(C[..]), C[..], n, m, i, j, C0, C1, C2, C3)
  {
    var cIdx := n * j + i;
    assert i + 4 <= n && j + 4 <= m;
    StoreIndicesInBounds(n, m, i, j, 3);
    AtShift(n, m, i, j, 1);
    AtShift(n, m, i, j, 2);
    AtShift(n, m, i, j, 3);
    ghost var s0 := C[..];
    Store(C, cIdx, C0);
    ghost var s1 := C[..];
    Store(C, cIdx + n, C1);
    ghost var s2 := C[..];
    Store(C, cIdx + 2 * n, C2);
    ghost var s3 := C[..];
    Store(C, cIdx + 3 * n, C3);
    StoreBlock(s0, s1, s2, s3, C[..], n, m, i, j, C0, C1, C2, C3);
  }

  /** The first n*m cells of `c` hold the product at every element (i', j')
      that the blocked kernel has stored once it has finished all block rows
      above i and, in block row i, all block columns left of j. */
  ghost predicate BlocksDone(c: seq<real>, a: seq<real>, b: seq<real>, n: nat, m: nat, k: nat, i: nat, j: nat)
    requires Conformable(a, b, n, m, k)
  {
    n * m <= |c| &&
    forall i', j' :: 0 <= i' < n && 0 <= j' < m && (i' < i || (i' < i + 4 && j' < j)) ==>
      c[At(n, m, i', j')] == Dot(a, b, n, m, k, i', j', k)
  }

  /** Once every block row is done, the buffer holds the product. */
  lemma ProductFromBlocks(c: seq<real>, a: seq<real>, b: seq<real>, n: nat, m: nat, k: nat, i: nat, j: nat)
    requires Conformable(a, b, n, m, k)
    requires BlocksDone(c, a, b, n, m, k, i, j) && n <= i
    ensures c[..n * m] == Product(a, b, n, m, k)
  {
    ProductFromCells(c, a, b, n, m, k);
  }

  /** Storing the finished accumulators of block (i, j) extends the stored
      region by that block and changes nothing past the n*m product. */
  lemma BlockDone(s0: seq<real>, s4: seq<real>,
                  a: seq<real>, b: seq<real>, n: nat, m: nat, k: nat, i: nat, j: nat,
                  C0: Vec4, C1: Vec4, C2: Vec4, C3: Vec4)
    requires Conformable(a, b, n, m, k)
    requires BlocksDone(s0, a, b, n, m, k, i, j)
    requires Accumulated(a, b, n, m, k, i, j, k, C0) && Accumulated(a, b, n, m, k, i, j + 1, k, C1)
    requires Accumulated(a, b, n, m, k, i, j + 2, k, C2) && Accumulated(a, b, n, m, k, i, j + 3, k, C3)
    requires BlockStored(s0, s4, n, m, i, j, C0, C1, C2, C3)
    ensures BlocksDone(s4, a, b, n, m, k, i, j + 4)
    ensures forall x :: n * m <= x < |s0| ==> s4[x] == s0[x]
  {
    forall i', j' | 0 <= i' < n && 0 <= j' < m && i <= i' < i + 4 && j <= j' < j + 4
      ensures s4[At(n, m, i', j')] == Dot(a, b, n, m, k, i', j', k)
    {
      var r, c := i' - i, j' - j;
      assert i' == i + r && j' == j + c;
      assert [C0, C1, C2, C3][c][r] == Dot(a, b, n, m, k, i + r, j + c, k);
    }
  }

  /** matrix_multiply_c: for every (i, j), zero C(i, j) and add
      A(i, t) * B(t, j) for t = 0 .. k-1. */
  method MultiplyReference(A: array<real>, B: array<real>, C: array<real>, n: nat, m: nat, k: nat)
    requires Conformable(A[..], B[..], n, m, k) && n * m <= C.Length
    requires C != A && C != B
    modifies C
    ensures C[..n * m] == Product(old(A[..]), old(B[..]), n, m, k)
    ensures forall x :: n * m <= x < C.Length ==> C[x] == old(C[x])
    ensures A[..] == old(A[..]) && B[..] == old(B[..])
  {
    ghost var a, b := A[..], B[..];
    for i := 0 to n
      invariant forall i', j' :: 0 <= i' < i && 0 <= j' < m ==>
        C[At(n, m, i', j')] == Dot(a, b, n, m, k, i', j', k)
      invariant forall x :: n * m <= x < C.Length ==> C[x] == old(C[x])
    {
      for j := 0 to m
        invariant forall i', j' :: 0 <= i' < n && 0 <= j' < m && (i' < i || (i' == i && j' < j)) ==>
          C[At(n, m, i', j')] == Dot(a, b, n, m, k, i', j', k)
        invariant forall x :: n * m <= x < C.Length ==> C[x] == old(C[x])
      {
        ghost var before := C[..];
        C[At(n, m, i, j)] := 0.0;
        for t := 0 to k
          invariant C[At(n, m, i, j)] == Dot(a, b, n, m, k, i, j, t)
          invariant forall x :: 0 <= x < C.Length && x != At(n, m, i, j) ==> C[x] == before[x]
        {
          C[At(n, m, i, j)] := C[At(n, m, i, j)] + Mul(A[At(n, k, i, t)], B[At(k, m, t, j)]);
        }
        forall i', j' | 0 <= i' < n && 0 <= j' < m && (i' < i || (i' == i && j' < j))
          ensures C[At(n, m, i', j')] == before[At(n, m, i', j')]
        {
          AtInjective(n, m, i', j', i, j);
        }
      }
    }
    ProductFromCells(C[..], a, b, n, m, k);
  }

  /** One pass of the inner loop of matrix_multiply_neon (the body of the
      k_idx loop): load the A block at rows i..i+3, columns t..t+3 and the B
      block at rows t..t+3, columns j..j+3, and add their product into the
      four accumulator columns.  Each accumulator lane r of column c goes from
      the first t to the first t+4 terms of element (i + r, j + c). */
  method BlockedStep(A: array<real>, B: array<real>, n: nat, m: nat, k: nat, i: nat, j: nat, t: nat,
                     C0: Vec4, C1: Vec4, C2: Vec4, C3: Vec4)
    returns (D0: Vec4, D1: Vec4, D2: Vec4, D3: Vec4)
    requires n % 4 == 0 && m % 4 == 0 && k % 4 == 0
    requires i % 4 == 0 && j % 4 == 0 && t % 4 == 0 && t < k
    requires Conformable(A[..], B[..], n, m, k)
    requires Accumulated(A[..], B[..], n, m, k, i, j, t, C0) && Accumulated(A[..], B[..], n, m, k, i, j + 1, t, C1)
    requires Accumulated(A[..], B[..], n, m, k, i, j + 2, t, C2) && Accumulated(A[..], B[..], n, m, k, i, j + 3, t, C3)
    ensures Accumulated(A[..], B[..], n, m, k, i, j, t + 4, D0) && Accumulated(A[..], B[..], n, m, k, i, j + 1, t + 4, D1)
    ensures Accumulated(A[..], B[..], n, m, k, i, j + 2, t + 4, D2) && Accumulated(A[..], B[..], n, m, k, i, j + 3, t + 4, D3)
  {
    ghost var a, b := A[..], B[..];
    var aIdx := i + n * t;
    var bIdx := k * j + t;
    LoadIndicesInBounds(n, m, k, i, j, t, 3);
    assert t + 4 <= k && j + 4 <= m;
    AtShift(k, m, t, j, 1);
    AtShift(k, m, t, j, 2);
    AtShift(k, m, t, j, 3);
    var A0, A1, A2, A3 := LoadColumns(A, a, n, k, i, t, aIdx);

    D0 := MultiplyAddColumn(B, a, b, n, m, k, i, j, t, bIdx, C0, A0, A1, A2, A3);
    D1 := MultiplyAddColumn(B, a, b, n, m, k, i, j + 1, t, bIdx + k, C1, A0, A1, A2, A3);
    D2 := MultiplyAddColumn(B, a, b, n, m, k, i, j + 2, t, bIdx + 2 * k, C2, A0, A1, A2, A3);
    D3 := MultiplyAddColumn(B, a, b, n, m, k, i, j + 3, t, bIdx + 3 * k, C3, A0, A1, A2, A3);
  }

  /** matrix_multiply_neon: for each 4×4 block of C, zero four accumulator
      columns, add in the 4×4 blocks of A and B along the inner dimension four
      at a time with lane-indexed multiply-adds, then store the accumulators as
      the block's four columns.  n, m and k must be multiples of 4. */
  method MultiplyBlocked(A: array<real>, B: array<real>, C: array<real>, n: nat, m: nat, k: nat)
    requires n % 4 == 0 && m % 4 == 0 && k % 4 == 0
    requires Conformable(A[..], B[..], n, m, k) && n * m <= C.Length
    requires C != A && C != B
    modifies C
    ensures C[..n * m] == Product(old(A[..]), old(B[..]), n, m, k)
    ensures forall x :: n * m <= x < C.Length ==> C[x] == old(C[x])
    ensures A[..] == old(A[..]) && B[..] == old(B[..])
  {
    ghost var a, b := A[..], B[..];
    var i := 0;
    while i < n
      invariant i % 4 == 0 && i <= n
      invariant BlocksDone(C[..], a, b, n, m, k, i, 0)
      invariant forall x :: n * m <= x < C.Length ==> C[x] == old(C[x])
    {
      StepBy4(i, n);
      var j := 0;
      while j < m
        invariant j % 4 == 0 && j <= m
        invariant BlocksDone(C[..], a, b, n, m, k, i, j)
        invariant forall x :: n * m <= x < C.Length ==> C[x] == old(C[x])
      {
        StepBy4(j, m);
        var C0, C1, C2, C3 := Splat(0.0), Splat(0.0), Splat(0.0), Splat(0.0);
        AccumulatedZero(a, b, n, m, k, i, j);
        AccumulatedZero(a, b, n, m, k, i, j + 1);
        AccumulatedZero(a, b, n, m, k, i, j + 2);
        AccumulatedZero(a, b, n, m, k, i, j + 3);
        var t := 0;
        while t < k
          modifies {}
          invariant t % 4 == 0 && t <= k
          invariant Accumulated(a, b, n, m, k, i, j, t, C0) && Accumulated(a, b, n, m, k, i, j + 1, t, C1)
          invariant Accumulated(a, b, n, m, k, i, j + 2, t, C2) && Accumulated(a, b, n, m, k, i, j + 3, t, C3)
        {
          StepBy4(t, k);
          C0, C1, C2, C3 := BlockedStep(A, B, n, m, k, i, j, t, C0, C1, C2, C3);
          t := t + 4;
        }
        ghost var s0 := C[..];
        StoreAccumulators(C, n, m, i, j, C0, C1, C2, C3);
        BlockDone(s0, C[..], a, b, n, m, k, i, j, C0, C1, C2, C3);
        j := j + 4;
      }
      i := i + 4;
    }
    ProductFromBlocks(C[..], a, b, n, m, k, n, 0);
  }

  /** One column of matrix_multiply_4x4_neon: with A0..A3 the four columns
      of the 4×4 matrix a and `bc` column c of b, the zeroed accumulator
      after the four lane FMAs holds column c of the product. */
  lemma Column4x4(a: seq<real>, b: seq<real>, A0: Vec4, A1: Vec4, A2: Vec4, A3: Vec4, bc: Vec4, c: nat)
    requires 16 <= |a| && 16 <= |b| && c < 4
    requires Loaded(a, 0, A0) && Loaded(a, 4, A1) && Loaded(a, 8, A2) && Loaded(a, 12, A3)
    requires Loaded(b, 4 * c, bc)
    ensures Conformable(a, b, 4, 4, 4)
    ensures forall r :: 0 <= r < 4 ==>
      LaneFma(LaneFma(LaneFma(LaneFma(Splat(0.0), A0, bc, 0), A1, bc, 1), A2, bc, 2), A3, bc, 3)[r]
        == Product(a, b, 4, 4, 4)[4 * c + r]
  {
    forall r | 0 <= r < 4
      ensures LaneFma(LaneFma(LaneFma(LaneFma(Splat(0.0), A0, bc, 0), A1, bc, 1), A2, bc, 2), A3, bc, 3)[r]
        == Product(a, b, 4, 4, 4)[4 * c + r]
    {
      var acc := LaneFma(LaneFma(LaneFma(LaneFma(Splat(0.0), A0, bc, 0), A1, bc, 1), A2, bc, 2), A3, bc, 3);
      assert A0[r] == a[r] && A1[r] == a[4 + r] && A2[r] == a[8 + r] && A3[r] == a[12 + r];
      assert bc[0] == b[4 * c] && bc[1] == b[4 * c + 1] && bc[2] == b[4 * c + 2] && bc[3] == b[4 * c + 3];
      assert acc[r] == 0.0 + Mul(A0[r], bc[0]) + Mul(A1[r], bc[1]) + Mul(A2[r], bc[2]) + Mul(A3[r], bc[3]);
      Product4x4At(a, b, r, c);
    }
  }

  /** The four column stores of matrix_multiply_4x4_neon, of accumulators
      that hold the columns of the product, leave the product in the first
      16 cells and every later cell as it was. */
  lemma Stored4x4(s0: seq<real>, s1: seq<real>, s2: seq<real>, s3: seq<real>, s4: seq<real>,
                  a: seq<real>, b: seq<real>, C0: Vec4, C1: Vec4, C2: Vec4, C3: Vec4)
    requires Conformable(a, b, 4, 4, 4)
    requires Written(s0, s1, 0, C0) && Written(s1, s2, 4, C1) && Written(s2, s3, 8, C2) && Written(s3, s4, 12, C3)
    requires forall r :: 0 <= r < 4 ==> C0[r] == Product(a, b, 4, 4, 4)[r]
    requires forall r :: 0 <= r < 4 ==> C1[r] == Product(a, b, 4, 4, 4)[4 + r]
    requires forall r :: 0 <= r < 4 ==> C2[r] == Product(a, b, 4, 4, 4)[8 + r]
    requires forall r :: 0 <= r < 4 ==> C3[r] == Product(a, b, 4, 4, 4)[12 + r]
    ensures s4[..16] == Product(a, b, 4, 4, 4)
    ensures forall x :: 16 <= x < |s0| ==> s4[x] == s0[x]
  {
    forall x | 0 <= x < 16
      ensures s4[x] == Product(a, b, 4, 4, 4)[x]
    {
      if x < 4 {
        assert s4[x] == s1[x] == C0[x];
      } else if x < 8 {
        assert s4[x] == s2[x] == C1[x - 4];
      } else if x < 12 {
        assert s4[x] == s3[x] == C2[x - 8];
      } else {
        assert s4[x] == C3[x - 12];
      }
    }
  }

  /** matrix_multiply_4x4_neon: the blocked pattern unrolled for one 4×4
      block.  Load the four columns of A, zero the accumulators, and for each
      column c of B multiply-add it into Cc and store Cc at offset 4c. */
  method Multiply4x4(A: array<real>, B: array<real>, C: array<real>)
    requires 16 <= A.Length && 16 <= B.Length && 16 <= C.Length
    requires C != A && C != B
    modifies C
    ensures C[..16] == Product(old(A[..]), old(B[..]), 4, 4, 4)
    ensures forall x :: 16 <= x < C.Length ==> C[x] == old(C[x])
    ensures A[..] == old(A[..]) && B[..] == old(B[..])
  {
    ghost var a, b := A[..], B[..];
    var A0 := Load(A, 0);
    var A1 := Load(A, 4);
    var A2 := Load(A, 8);
    var A3 := Load(A, 12);

    var C0 := Splat(0.0);
    var C1 := Splat(0.0);
    var C2 := Splat(0.0);
    var C3 := Splat(0.0);

    var B0 := Load(B, 0);
    C0 := LaneFma(C0, A0, B0, 0);
    C0 := LaneFma(C0, A1, B0, 1);
    C0 := LaneFma(C0, A2, B0, 2);
    C0 := LaneFma(C0, A3, B0, 3);
    Column4x4(a, b, A0, A1, A2, A3, B0, 0);
    ghost var s0 := C[..];
    Store(C, 0, C0);

    var B1 := Load(B, 4);
    C1 := LaneFma(C1, A0, B1, 0);
    C1 := LaneFma(C1, A1, B1, 1);
    C1 := LaneFma(C1, A2, B1, 2);
    C1 := LaneFma(C1, A3, B1, 3);
    Column4x4(a, b, A0, A1, A2, A3, B1, 1);
    ghost var s1 := C[..];
    Store(C, 4, C1);

    var B2 := Load(B, 8);
    C2 := LaneFma(C2, A0, B2, 0);
    C2 := LaneFma(C2, A1, B2, 1);
    C2 := LaneFma(C2, A2, B2, 2);
    C2 := LaneFma(C2, A3, B2, 3);
    Column4x4(a, b, A0, A1, A2, A3, B2, 2);
    ghost var s2 := C[..];
    Store(C, 8, C2);

    var B3 := Load(B, 12);
    C3 := LaneFma(C3, A0, B3, 0);
    C3 := LaneFma(C3, A1, B3, 1);
    C3 := LaneFma(C3, A2, B3, 2);
    C3 := LaneFma(C3, A3, B3, 3);
    Column4x4(a, b, A0, A1, A2, A3, B3, 3);
    ghost var s3 := C[..];
    Store(C, 12, C3);

    Stored4x4(s0, s1, s2, s3, C[..], a, b, C0, C1, C2, C3);
  }
}
