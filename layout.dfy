/** Column-major addressing of flat matrix buffers.

    Every buffer in the kernels holds a matrix in column-major order: the
    element in row i and column j of a rows×cols matrix sits at offset
    rows*j + i.  All kernels and the comparison routine address their buffers
    through this one function, so the addressing arithmetic is stated once.
 */
module Layout {

  /** Multiplication by a natural number is monotone. */
  lemma {:induction false} MulMono(x: nat, a: nat, b: nat)
    requires a <= b
    ensures x * a <= x * b
  {
    if a < b {
      MulMono(x, a, b - 1);
      assert x * b == x * (b - 1) + x;
    }
  }

  /** Offset of element (i, j) of a column-major rows×cols matrix; it always
      lies inside the matrix's rows*cols buffer. */
  function At(rows: nat, cols: nat, i: nat, j: nat): (x: nat)
    requires i < rows && j < cols
    ensures x < rows * cols
  {
    assert rows * j + i < rows * cols by {
      MulMono(rows, j + 1, cols);
      assert rows * (j + 1) == rows * j + rows;
    }
    rows * j + i
  }

  /** Two elements of a matrix share an offset exactly when they are the same
      element. */
  lemma AtInjective(rows: nat, cols: nat, i: nat, j: nat, i': nat, j': nat)
    requires i < rows && i' < rows && j < cols && j' < cols
    ensures At(rows, cols, i, j) == At(rows, cols, i', j') <==> i == i' && j == j'
  {
    assert rows * (j + 1) == rows * j + rows;
    assert rows * (j' + 1) == rows * j' + rows;
    if j < j' {
      MulMono(rows, j + 1, j');
    } else if j' < j {
      MulMono(rows, j' + 1, j);
    }
  }

  /** Moving c columns to the right adds c*rows to an offset. */
  lemma {:induction false} AtShift(rows: nat, cols: nat, i: nat, j: nat, c: nat)
    requires i < rows && j + c < cols
    ensures At(rows, cols, i, j) + c * rows == At(rows, cols, i, j + c)
  {
    if c > 0 {
      AtShift(rows, cols, i, j, c - 1);
      assert rows * (j + c) == rows * (j + c - 1) + rows;
    }
  }

  /** Every offset below rows*cols is the offset of the element in row
      x % rows and column x / rows. */
  lemma AtSplit(rows: nat, cols: nat, x: nat)
    requires x < rows * cols
    ensures 0 < rows && x % rows < rows && x / rows < cols
    ensures At(rows, cols, x % rows, x / rows) == x
  {
    assert 0 < rows;
    if x / rows >= cols {
      MulMono(rows, cols, x / rows);
    }
  }

  /** Every offset below rows*cols is the offset of exactly one element,
      returned as (i, j). */
  lemma AtOnto(rows: nat, cols: nat, x: nat) returns (i: nat, j: nat)
    requires x < rows * cols
    ensures i < rows && j < cols && At(rows, cols, i, j) == x
  {
    AtSplit(rows, cols, x);
    i, j := x % rows, x / rows;
  }

  /** The row and column of an element are recovered from its offset by
      remainder and quotient. */
  lemma AtCoordinates(rows: nat, cols: nat, i: nat, j: nat)
    requires i < rows && j < cols
    ensures At(rows, cols, i, j) % rows == i && At(rows, cols, i, j) / rows == j
  {
    var x := At(rows, cols, i, j);
    AtSplit(rows, cols, x);
    var i', j' := x % rows, x / rows;
    assert At(rows, cols, i', j') == At(rows, cols, i, j);
    AtInjective(rows, cols, i', j', i, j);
  }
}
