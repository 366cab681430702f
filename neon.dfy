/** The four-lane vector operations the blocked kernels use, over exact reals.

    A `float32x4_t` register is a sequence of four lanes.  `Splat` stands for
    vmovq_n_f32, `Load` for vld1q_f32 (four consecutive cells of a buffer),
    `Store` for vst1q_f32 (four consecutive cells written, see `Written`) and `LaneFma` for
    vfmaq_laneq_f32, which adds a[r] * b[lane] to lane r of the accumulator
    for every r.
 */
module Neon {
  import opened MatMul

  /** A four-lane vector register. */
  type Vec4 = v: seq<real> | |v| == 4 witness [0.0, 0.0, 0.0, 0.0]

  /** vmovq_n_f32: every lane holds x. */
  function Splat(x: real): (v: Vec4)
    ensures forall r :: 0 <= r < 4 ==> v[r] == x
  {
    [x, x, x, x]
  }

  /** `v` holds the four cells of `s` starting at `off`. */
  ghost predicate Loaded(s: seq<real>, off: nat, v: Vec4)
  {
    off + 4 <= |s| && forall r :: 0 <= r < 4 ==> v[r] == s[off + r]
  }

  /** vld1q_f32: reads the four cells `buf[off..off + 4]` into a vector. */
  method Load(buf: array<real>, off: nat) returns (v: Vec4)
    requires off + 4 <= buf.Length
    ensures Loaded(buf[..], off, v)
  {
    v := [buf[off], buf[off + 1], buf[off + 2], buf[off + 3]];
  }

  /** vfmaq_laneq_f32(acc, a, b, lane): lane-wise acc[r] + a[r] * b[lane]. */
  function LaneFma(acc: Vec4, a: Vec4, b: Vec4, lane: nat): (v: Vec4)
    requires lane < 4
    ensures forall r :: 0 <= r < 4 ==> v[r] == acc[r] + Mul(a[r], b[lane])
  {
    [acc[0] + Mul(a[0], b[lane]), acc[1] + Mul(a[1], b[lane]), acc[2] + Mul(a[2], b[lane]), acc[3] + Mul(a[3], b[lane])]
  }

  /** `s'` is the buffer `s` with the four cells starting at `off`
      overwritten by the lanes of `v`, and no other cell changed. */
  ghost predicate Written(s: seq<real>, s': seq<real>, off: nat, v: Vec4)
  {
    off + 4 <= |s| && |s'| == |s| &&
    forall x :: 0 <= x < |s| ==> s'[x] == if off <= x < off + 4 then v[x - off] else s[x]
  }

  /** vst1q_f32: writes the lanes of `v` to `buf[off..off + 4]`. */
  method Store(buf: array<real>, off: nat, v: Vec4)
    requires off + 4 <= buf.Length
    modifies buf
    ensures Written(old(buf[..]), buf[..], off, v)
  {
    buf[off] := v[0];
    buf[off + 1] := v[1];
    buf[off + 2] := v[2];
    buf[off + 3] := v[3];
  }
}
