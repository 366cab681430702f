/** The test helpers of matrix_neon.c: the tolerance comparison of two
    elements, the element-by-element comparison of two matrices, and the
    constant fill of a matrix.  Matrices are column-major, addressed through
    `Layout.At`.
 */
module Compare {
  import opened Layout

  /** The absolute tolerance below which two elements count as equal. */
  const Tolerance: real := 0.000001

  /** fabs. */
  function Abs(x: real): (r: real)
    ensures 0.0 <= r && (r == x || r == -x)
  {
    if x < 0.0 then -x else x
  }

  /** f32comp_noteq: a and b differ by at least the tolerance, in either
      direction. */
  function NotEq(a: real, b: real): (r: bool)
    ensures r <==> (a - b <= -Tolerance || Tolerance <= a - b)
  {
    if Abs(a - b) < Tolerance then false else true
  }

  /** The comparison does not depend on the order of its arguments. */
  lemma NotEqSymmetric(a: real, b: real)
    ensures NotEq(a, b) == NotEq(b, a)
  {
  }

  /** An element never differs from itself. */
  lemma NotEqReflexive(a: real)
    ensures !NotEq(a, a)
  {
  }

  /** Every element (i', j') that precedes (i, j) in the scan order of
      matrix_comp (row by row, and left to right within a row) agrees. */
  ghost predicate AgreeBefore(a: seq<real>, b: seq<real>, rows: nat, cols: nat, i: nat, j: nat)
    requires rows * cols <= |a| && rows * cols <= |b|
  {
    forall i', j' :: 0 <= i' < rows && 0 <= j' < cols && (i' < i || (i' == i && j' < j)) ==>
      !NotEq(a[At(rows, cols, i', j')], b[At(rows, cols, i', j')])
  }

  /** No element (i, j) of the rows×cols matrices a and b differs: every
      element before the end of the scan agrees. */
  ghost predicate Agree(a: seq<real>, b: seq<real>, rows: nat, cols: nat)
    requires rows * cols <= |a| && rows * cols <= |b|
  {
    AgreeBefore(a, b, rows, cols, rows, 0)
  }

  /** Matrices whose first rows*cols cells are equal agree. */
  lemma AgreeWhenEqual(a: seq<real>, b: seq<real>, rows: nat, cols: nat)
    requires rows * cols <= |a| && rows * cols <= |b|
    requires a[..rows * cols] == b[..rows * cols]
    ensures Agree(a, b, rows, cols)
  {
    forall i, j | 0 <= i < rows && 0 <= j < cols
      ensures !NotEq(a[At(rows, cols, i, j)], b[At(rows, cols, i, j)])
    {
      var x := At(rows, cols, i, j);
      assert a[x] == a[..rows * cols][x] == b[..rows * cols][x] == b[x];
      NotEqReflexive(a[x]);
    }
  }

  /** The outcome of matrix_comp: either no element differs (the source
      returns true), or the first differing element in scan order together
      with both values (what the source prints before it returns false). */
  datatype CompResult = Equal | Mismatch(i: nat, j: nat, x: real, y: real)

  /** matrix_comp: scan the rows×cols matrices A and B row by row and stop
      at the first element that differs by at least the tolerance.  The
      result is `Equal` exactly when the matrices agree; a mismatch names an
      element inside the matrices whose values differ, and every element
      scanned before it agrees. */
  method MatrixComp(A: array<real>, B: array<real>, rows: nat, cols: nat) returns (res: CompResult)
    requires rows * cols <= A.Length && rows * cols <= B.Length
    ensures res == Equal <==> Agree(A[..], B[..], rows, cols)
    ensures res.Mismatch? ==>
      res.i < rows && res.j < cols &&
      res.x == A[At(rows, cols, res.i, res.j)] && res.y == B[At(rows, cols, res.i, res.j)] &&
      NotEq(res.x, res.y) &&
      AgreeBefore(A[..], B[..], rows, cols, res.i, res.j)
  {
    for i := 0 to rows
      invariant AgreeBefore(A[..], B[..], rows, cols, i, 0)
    {
      for j := 0 to cols
        invariant AgreeBefore(A[..], B[..], rows, cols, i, j)
      {
        var x := A[At(rows, cols, i, j)];
        var y := B[At(rows, cols, i, j)];
        if NotEq(x, y) {
          assert !Agree(A[..], B[..], rows, cols) by {
            assert A[..][At(rows, cols, i, j)] == x && B[..][At(rows, cols, i, j)] == y;
          }
          return Mismatch(i, j, x, y);
        }
      }
    }
    return Equal;
  }

  /** matrix_init: set every element of the rows×cols matrix M to `val`,
      row by row; cells past rows*cols are left alone. */
  method MatrixInit(M: array<real>, cols: nat, rows: nat, val: real)
    requires rows * cols <= M.Length
    modifies M
    ensures forall x :: 0 <= x < rows * cols ==> M[x] == val
    ensures forall x :: rows * cols <= x < M.Length ==> M[x] == old(M[x])
  {
    for i := 0 to rows
      invariant forall i', j' :: 0 <= i' < i && 0 <= j' < cols ==> M[At(rows, cols, i', j')] == val
      invariant forall x :: rows * cols <= x < M.Length ==> M[x] == old(M[x])
    {
      for j := 0 to cols
        invariant forall i', j' :: 0 <= i' < rows && 0 <= j' < cols && (i' < i || (i' == i && j' < j)) ==>
          M[At(rows, cols, i', j')] == val
        invariant forall x :: rows * cols <= x < M.Length ==> M[x] == old(M[x])
      {
        M[At(rows, cols, i, j)] := val;
      }
    }
    forall x | 0 <= x < rows * cols
      ensures M[x] == val
    {
      var i, j := AtOnto(rows, cols, x);
    }
  }
}
