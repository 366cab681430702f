# matrix_neon.c in Dafny

A model of the single-precision matrix multiplication example `matrix_neon.c`, with exact `real` elements in place of `float32_t`. Every matrix is a flat buffer in column-major order. Element (i, j) of a rows×cols matrix sits at offset `rows*j + i` (`Layout.At`).

The model covers these pieces of the file:

- **Reference kernel.** `matrix_multiply_c` is `Kernels.MultiplyReference`. It is a triple loop that zeroes C(i, j) and adds A(i, t)·B(t, j) for ascending t.
- **Blocked NEON kernel.** `matrix_multiply_neon` is `Kernels.MultiplyBlocked`. It steps i, j and the inner index by 4. For each 4×4 block it:
  - zeroes four accumulator vectors;
  - loads four columns of A and four of B for every step of the inner index;
  - updates the accumulators with lane-indexed fused multiply-adds;
  - stores them as the block's four columns.
- **Fixed 4×4 kernel.** `matrix_multiply_4x4_neon` is `Kernels.Multiply4x4`. It is the same pattern unrolled for one block.
- **NEON intrinsics.** `vmovq_n_f32`, `vld1q_f32`, `vst1q_f32` and `vfmaq_laneq_f32` are modelled on four-lane vectors (`Neon.Vec4`) as `Splat`, `Load`, `Store` and `LaneFma`.
- **Test helpers.** `f32comp_noteq`, `matrix_comp` and `matrix_init` are `Compare.NotEq`, `Compare.MatrixComp` and `Compare.MatrixInit`.
- **Test program.** `main`'s cross-check of the two kernels is `Driver.CrossCheck`.

The specification of every kernel is `MatMul.Product`. It is the n×m buffer whose element (i, j) is `MatMul.Dot`: the sum of A(i, t)·B(t, j) added in ascending order of t, exactly as the reference kernel adds it.

All three kernels are proved to do the following:

- leave `Product(old A, old B)` in the first n*m cells of C;
- leave every later cell of C unchanged;
- leave A and B unchanged.

The postcondition on the first n*m cells does not mention C's earlier contents. So on the same inputs, the three kernels leave identical first n*m cells whatever C held before. In the generic blocked kernel each accumulator lane builds the same sum, in the same order, as the reference kernel. The proof shows this directly: after the inner index reaches t, lane r holds `Dot(..., t)` (`Kernels.Accumulated`). For the fixed 4×4 kernel the proof states the final lane values only: after its four lane FMAs, each accumulator holds one column of the product (`Kernels.Column4x4`, through `MatMul.Product4x4At`).

## Model

| member | source | states |
|---|---|---|
| Layout.At | matrix_neon.c:33-34 | the column-major offset `rows*j + i` of element (i, j) always lies inside the rows*cols buffer |
| Layout.AtInjective | matrix_neon.c:33-34 | two elements share an offset exactly when they are the same element (both directions) |
| Layout.AtShift | matrix_neon.c:82-84 | stepping c columns to the right adds c*rows to an offset, as the loads at `A_idx + c*n` and the stores at `C_idx + c*n` do |
| MatMul.ProductAt | matrix_neon.c:32-35 | element (i, j) of the product is the dot product of row i of A with column j of B over all k terms |
| MatMul.ProductFromCells | matrix_neon.c:30-37 | a buffer whose every element (i, j) holds that dot product holds exactly the product in its first n*m cells |
| MatMul.ProductZero | matrix_neon.c:32-35 | an all-zero A or an all-zero B gives an all-zero product |
| MatMul.DotIdentity | matrix_neon.c:32-35 | the first t terms of row i of the identity against column j of B pick out B(i, j) when i < t, and 0 otherwise |
| MatMul.IdentityLeft | matrix_neon.c:32-35 | the identity times B is B |
| MatMul.Product4x4At | matrix_neon.c:140-178 | for 4×4 matrices, `C[4c+r]` is the four-term sum of `A[4x+r]*B[4c+x]` over x = 0..3 |
| Neon.Splat | matrix_neon.c:71-74 | vmovq_n_f32 sets every lane to the given value |
| Neon.Load | matrix_neon.c:81-84 | vld1q_f32 returns the four cells starting at the offset, lane r holding `buf[off + r]` |
| Neon.LaneFma | matrix_neon.c:88-109 | lane r of vfmaq_laneq_f32(acc, a, b, lane) is acc[r] + a[r]*b[lane] |
| Neon.Store | matrix_neon.c:113-116 | vst1q_f32 overwrites exactly the four cells starting at the offset with the lanes and changes no other cell |
| Kernels.AccumulatedZero | matrix_neon.c:71-74 | zeroed accumulators hold the empty sums of every element of their column |
| Kernels.LoadIndicesInBounds | matrix_neon.c:76-105 | when n, m and k are multiples of 4, the A loads at `A_idx + c*n` stay below n*k and the B loads at `B_idx + c*k` below k*m |
| Kernels.StoreIndicesInBounds | matrix_neon.c:112-116 | when n and m are multiples of 4, the C stores at `C_idx + c*n` stay below n*m |
| Kernels.LoadColumn | matrix_neon.c:81-84 | four cells loaded from the offset of element (i, j) are rows i..i+3 of column j |
| Kernels.LoadColumns | matrix_neon.c:80-84 | the four A loads at `A_idx + c*n` return rows i..i+3 of columns t..t+3 of A |
| Kernels.ColumnStep | matrix_neon.c:88-91 | the four lane FMAs that weight A columns t..t+3 by lanes 0..3 of a B column extend every lane's sum by terms t, t+1, t+2, t+3, in that order |
| Kernels.MultiplyAddColumn | matrix_neon.c:87-91 | one 4×1 multiply-accumulate: loading column jc of B at `B_idx` and applying the lane FMAs takes every lane r from the first t to the first t+4 terms of element (i + r, jc) |
| Kernels.StoreColumn | matrix_neon.c:113 | a store at the offset of element (i, jc) writes exactly elements i..i+3 of column jc and nothing past n*m |
| Kernels.StoreBlock | matrix_neon.c:112-116 | the four stores at `C_idx + c*n` write exactly the 4×4 block at rows i..i+3, columns j..j+3, with column j + c taken from accumulator c |
| Kernels.StoreAccumulators | matrix_neon.c:111-116 | the block stores leave C equal to its old contents with exactly that block replaced by the accumulators |
| Kernels.BlockDone | matrix_neon.c:111-116 | storing finished accumulators extends the finished region by one block and changes nothing past n*m |
| Kernels.ProductFromBlocks | matrix_neon.c:68-69 | once all block rows are finished, C's first n*m cells are the product |
| Kernels.MultiplyReference | matrix_neon.c:29-38 | after matrix_multiply_c, C's first n*m cells are the product of the old A and B, later cells and A and B are unchanged |
| Kernels.BlockedStep | matrix_neon.c:75-110 | one step of the k_idx loop takes each accumulator lane from the first t to the first t+4 terms of its element |
| Kernels.MultiplyBlocked | matrix_neon.c:40-119 | for n, m, k multiples of 4, after matrix_multiply_neon C's first n*m cells are the product of the old A and B, later cells and A and B are unchanged |
| Kernels.Column4x4 | matrix_neon.c:152-156 | a zeroed accumulator after the four lane FMAs with column c of B holds column c of the 4×4 product |
| Kernels.Stored4x4 | matrix_neon.c:157-178 | the four stores at offsets 0, 4, 8 and 12 of accumulators holding the product columns leave the product in the first 16 cells and nothing past them changed |
| Kernels.Multiply4x4 | matrix_neon.c:121-179 | after matrix_multiply_4x4_neon C's first 16 cells are the 4×4 product of the old A and B, later cells and A and B are unchanged |
| Compare.Abs | matrix_neon.c:206 | fabs is non-negative and equals x or -x |
| Compare.NotEq | matrix_neon.c:205-210 | f32comp_noteq is true exactly when a - b is at least the tolerance 0.000001 in either direction |
| Compare.NotEqSymmetric | matrix_neon.c:205-210 | the comparison does not depend on the order of its arguments |
| Compare.NotEqReflexive | matrix_neon.c:205-210 | an element never differs from itself |
| Compare.AgreeWhenEqual | matrix_neon.c:212-227 | matrices with equal first rows*cols cells agree at every element |
| Compare.MatrixComp | matrix_neon.c:212-227 | the result is Equal exactly when no element differs; a Mismatch names an element inside the matrices, carries both of its values, which differ, and every element before it in i-outer, j-inner order agrees |
| Compare.MatrixInit | matrix_neon.c:197-203 | every cell below rows*cols holds val afterwards and every later cell is unchanged |
| Driver.CrossCheck | matrix_neon.c:243-260 | for any A and B with n, m, k multiples of 4, the reference and blocked outputs are both the product and matrix_comp of the two reports equality |
| Driver.KernelsAgree4x4 | matrix_neon.c:121-179 | on 4×4 inputs the three kernels leave the same sixteen elements, the product |
| Driver.Identity4x4 | matrix_neon.c:121-179 | the 4×4 kernel with the identity as A returns B |

## Left out

- Floating point: elements are exact reals. So the model does not capture single-precision rounding, or the difference between the single rounding of vfmaq_laneq_f32 and the separate multiply and add at line 34. NaN and infinity are also not modelled; for them `fabs(a - b) < 0.000001` is false, so f32comp_noteq reports a mismatch. The exact model proves the kernels equal elementwise, which is stronger than the tolerance-level agreement the test program checks.
- Integer widths: dimensions and indices are unbounded naturals. The model does not capture uint32_t wrap-around of `n*k`, `k*m` or `n*m`, or int overflow of the loop indices. Every computed index is proved to lie inside its buffer.
- Preconditions instead of checks: the blocked kernel requires n, m and k to be multiples of 4, and the kernels require C to be distinct from A and B. The source checks neither and leaves it to the caller (comment at lines 41-43). Behaviour outside these conditions is not modelled.
- Buffer lengths: these are preconditions (at least n*k, k*m and n*m cells). The source instead relies on the caller's stack arrays.
- NEON registers: a register is a four-lane sequence. The intrinsics are modelled only by their lane-wise effect (load, store, splat, lane FMA); alignment, register pressure and any other hardware behaviour of `arm_neon.h` are not modelled.
- Extracted helpers: some pieces of the source functions are separate methods in the model, so that each proof stays small. The statements and their order are the same as in the source.
  - `BlockedStep` is the body of the k_idx loop.
  - `LoadColumns` is the four loads of A.
  - `MultiplyAddColumn` is one 4×1 load-of-B-plus-four-FMAs.
  - `StoreAccumulators` is the four stores at the end of a block.
  - The 4×4 kernel is straight-line code as in the source.
- Kernels.MultiplyBlocked: the claim that every cell below n*m is stored exactly once is not stated as a count. Instead, the model proves two consequences. First, each block's four stores write exactly that block (`Kernels.StoreBlock`). Second, the result does not depend on what C held before.
- Compare.MatrixComp: the `printf` of the first mismatch (line 221) is not modelled. Instead, the mismatching (i, j) and both values are returned in `Mismatch`, and the source's boolean is `res == Equal`.
- print_matrix (lines 181-189): it only prints, so it is not modelled.
- matrix_init_rand (lines 191-195): it depends on `rand()` and float division. Driver.CrossCheck takes A and B as parameters instead.
- Driver.CrossCheck: main's fixed sizes n = m = k = 8 are generalised to any multiples of 4. Its prints and the unused `c_eq_asm` are not modelled. Two calls there pass rows and cols in swapped order. `print_matrix(E, n, m)` at line 253 is harmless only because n = m. `matrix_init(C, n, m, 0)` at line 245 is harmless for any n and m, because its loops write every offset below n*m either way. The model passes matrix_init the same arguments as line 245.
