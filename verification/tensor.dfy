/**
 * Dense arrays as nested sequences of reals. A four-axis array carries its
 * shape alongside its data, as a numpy or torch array does, so that an
 * array with an empty axis still knows its other extents.
 */
module Tensor {
  type Vector = seq<real>
  type Matrix = seq<seq<real>>
  type Tensor4 = seq<seq<seq<seq<real>>>>

  datatype Shape4 = Shape4(d0: nat, d1: nat, d2: nat, d3: nat)

  /** Every nested sequence of `t` has the length `s` gives its axis. */
  ghost predicate HasShape4(t: Tensor4, s: Shape4)
  {
    && |t| == s.d0
    && (forall a :: 0 <= a < s.d0 ==> |t[a]| == s.d1)
    && (forall a, b :: 0 <= a < s.d0 && 0 <= b < s.d1 ==> |t[a][b]| == s.d2)
    && (forall a, b, c :: 0 <= a < s.d0 && 0 <= b < s.d1 && 0 <= c < s.d2 ==> |t[a][b][c]| == s.d3)
  }

  datatype Array4 = Array4(shape: Shape4, data: Tensor4)
  {
    ghost predicate Valid()
    {
      HasShape4(data, shape)
    }
  }

  /** The all-zero array of a shape, as `torch.zeros(d0, d1, d2, d3)` builds it. */
  function Zeros4(s: Shape4): (z: Array4)
    ensures z.Valid() && z.shape == s
    ensures forall a, b, c, e :: 0 <= a < s.d0 && 0 <= b < s.d1 && 0 <= c < s.d2 && 0 <= e < s.d3 ==> z.data[a][b][c][e] == 0.0
  {
    Array4(s, seq(s.d0, a requires 0 <= a < s.d0 =>
      seq(s.d1, b requires 0 <= b < s.d1 =>
        seq(s.d2, c requires 0 <= c < s.d2 =>
          seq(s.d3, e requires 0 <= e < s.d3 => 0.0)))))
  }

  /** A two-axis array: `rows x cols`, each row of length `cols`. */
  datatype Array2 = Array2(rows: nat, cols: nat, data: Matrix)
  {
    ghost predicate Valid()
    {
      |data| == rows && forall r :: 0 <= r < rows ==> |data[r]| == cols
    }
  }

  /** The entries of a three-axis block in row-major order. */
  function Flatten3(t: seq<seq<seq<real>>>): seq<real>
  {
    if |t| == 0 then [] else Flatten2(t[0]) + Flatten3(t[1..])
  }

  function Flatten2(t: seq<seq<real>>): seq<real>
  {
    if |t| == 0 then [] else t[0] + Flatten2(t[1..])
  }

  function Dot(u: Vector, v: Vector): real
    requires |u| == |v|
  {
    if |u| == 0 then 0.0 else u[0] * v[0] + Dot(u[1..], v[1..])
  }
}
