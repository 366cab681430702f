/** The comparison that the test program of matrix_neon.c performs (multiply
    the same A and B with the reference kernel into E and with the blocked
    kernel into D, then compare E and D element by element), and two
    consequences for the fixed 4×4 kernel: it agrees with the other two on a
    single block, and the identity on the left returns B.  The random inputs
    of the test program are parameters here, and the printing is left out.
 */
module Driver {
  import opened MatMul
  import opened Kernels
  import opened Compare

  /** main's cross-check: C is initialised to zero, E receives the reference
      product and D the blocked product of the n×k matrix A and the k×m
      matrix B, and matrix_comp(E, D, n, m) is reported.  With exact
      arithmetic the two kernels agree on every element, so the comparison
      always reports equality and both outputs are the product. */
  method CrossCheck(A: array<real>, B: array<real>, n: nat, m: nat, k: nat)
    returns (equal: bool, D: array<real>, E: array<real>)
    requires n % 4 == 0 && m % 4 == 0 && k % 4 == 0
    requires Conformable(A[..], B[..], n, m, k)
    ensures equal
    ensures E[..] == D[..] == Product(A[..], B[..], n, m, k)
  {
    var C := new real[n * m];
    MatrixInit(C, n, m, 0.0);
    E := new real[n * m];
    D := new real[n * m];
    MultiplyReference(A, B, E, n, m, k);
    MultiplyBlocked(A, B, D, n, m, k);
    assert E[..] == E[..n * m] && D[..] == D[..n * m];
    AgreeWhenEqual(E[..], D[..], n, m);
    var res := MatrixComp(E, D, n, m);
    equal := res == Equal;
  }

  /** On a single 4×4 block the three kernels agree: run on the same A and
      B into fresh buffers, matrix_multiply_c, matrix_multiply_neon and
      matrix_multiply_4x4_neon leave the same sixteen elements, the product. */
  method KernelsAgree4x4(A: array<real>, B: array<real>)
    returns (Cr: array<real>, Cb: array<real>, C4: array<real>)
    requires A.Length == 16 && B.Length == 16
    ensures Cr[..] == Cb[..] == C4[..] == Product(A[..], B[..], 4, 4, 4)
  {
    Cr := new real[16];
    Cb := new real[16];
    C4 := new real[16];
    MultiplyReference(A, B, Cr, 4, 4, 4);
    MultiplyBlocked(A, B, Cb, 4, 4, 4);
    Multiply4x4(A, B, C4);
    assert Cr[..] == Cr[..16] && Cb[..] == Cb[..16] && C4[..] == C4[..16];
  }

  /** Multiplying B on the left by the 4×4 identity with the fixed 4×4
      kernel gives B back. */
  method Identity4x4(A: array<real>, B: array<real>) returns (C: array<real>)
    requires A[..] == Identity(4) && B.Length == 16
    ensures C[..] == B[..]
  {
    C := new real[16];
    Multiply4x4(A, B, C);
    IdentityLeft(B[..], 4, 4);
    assert C[..] == C[..16] && B[..] == B[..16];
  }
}
