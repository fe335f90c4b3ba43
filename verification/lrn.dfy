/**
 * The cross-channel local response normalisation of `LRN.forward`.
 *
 * The source squares its input, builds five copies shifted by 0..4
 * channels with zero padding, adds them up and drops two channels at each
 * end. Per pixel this is an operation on the channel column, and that is
 * how it is written here: `TileSum` is the five-way shifted sum over one
 * column and `ChannelSumSq` its `[2:-2]` slice. The reference definition
 * is `WindowSum`, the sum of squares over the clipped window of channels
 * `c-2 .. c+2`.
 */
module Lrn {
  import opened Tensor

  /** The width of the window on each side of a channel. */
  const Half: nat := 2

  function Squares(v: Vector): (s: Vector)
    ensures |s| == |v|
    ensures forall i :: 0 <= i < |v| ==> s[i] == v[i] * v[i] && s[i] >= 0.0
  {
    seq(|v|, i requires 0 <= i < |v| => v[i] * v[i])
  }

  function ZeroPad(n: nat): (z: Vector)
    ensures |z| == n
  {
    seq(n, i requires 0 <= i < n => 0.0)
  }

  /** Copy `j` of the tile: `j` padding channels, the squares, then `4 - j` padding channels. */
  function Tile(sq: Vector, j: nat): (t: Vector)
    requires j <= 2 * Half
    ensures |t| == |sq| + 2 * Half
  {
    ZeroPad(j) + sq + ZeroPad(2 * Half - j)
  }

  /** `x_tile.sum(dim=1)`: the five shifted copies added channel by channel. */
  function TileSum(sq: Vector): (s: Vector)
    ensures |s| == |sq| + 2 * Half
  {
    var n := |sq| + 2 * Half;
    seq(n, q requires 0 <= q < n =>
      Tile(sq, 0)[q] + Tile(sq, 1)[q] + Tile(sq, 2)[q] + Tile(sq, 3)[q] + Tile(sq, 4)[q])
  }

  /** `x_sumsq` at one pixel: the tile sum with `[2:-2]` dropping the padding channels. */
  function ChannelSumSq(v: Vector): (s: Vector)
    ensures |s| == |v|
  {
    TileSum(Squares(v))[Half..|v| + Half]
  }

  // ---------------------------------------------------------------------
  // The reference: a clipped window sum
  // ---------------------------------------------------------------------

  function Sum(s: Vector): real
  {
    if |s| == 0 then 0.0 else Sum(s[..|s| - 1]) + s[|s| - 1]
  }

  /** The lowest channel of the window around `c`. */
  function Lo(c: int): (lo: int)
    ensures lo >= 0 && lo >= c - Half
    ensures lo == 0 || lo == c - Half
  {
    if c - Half < 0 then 0 else c - Half
  }

  /** One past the highest channel of the window around `c` among `n` channels. */
  function Hi(n: nat, c: int): (hi: int)
    ensures hi <= n && hi <= c + Half + 1
    ensures hi == n || hi == c + Half + 1
  {
    if c + Half + 1 > n then n else c + Half + 1
  }

  /** The sum of `sq[j]` for `j` in `[max(0, c-2), min(C-1, c+2)]`. */
  function WindowSum(sq: Vector, c: nat): real
    requires c < |sq|
  {
    Sum(sq[Lo(c)..Hi(|sq|, c)])
  }

  /** `s[i]` inside the sequence and 0 outside it: the zero padding. */
  function At(s: Vector, i: int): real
  {
    if 0 <= i < |s| then s[i] else 0.0
  }

  /** The sum of `At(s, i)` for `a <= i < b`. */
  function AtSum(s: Vector, a: int, b: int): real
    decreases b - a
  {
    if b <= a then 0.0 else AtSum(s, a, b - 1) + At(s, b - 1)
  }

  lemma TileAt(sq: Vector, j: nat, q: nat)
    requires j <= 2 * Half && q < |sq| + 2 * Half
    ensures Tile(sq, j)[q] == At(sq, q - j)
  {
    var t := Tile(sq, j);
    if q < j {
      assert t[q] == ZeroPad(j)[q];
    } else if q < j + |sq| {
      assert t[q] == sq[q - j];
    } else {
      assert t[q] == ZeroPad(2 * Half - j)[q - j - |sq|];
    }
  }

  lemma {:induction false} SumIsAtSum(s: Vector, a: nat, b: nat)
    requires a <= b <= |s|
    ensures Sum(s[a..b]) == AtSum(s, a, b)
    decreases b
  {
    if a < b {
      SumIsAtSum(s, a, b - 1);
      assert s[a..b][..b - a - 1] == s[a..b - 1];
    }
  }

  lemma {:induction false} AtSumBelowZero(s: Vector, a: int, b: int)
    requires b <= 0
    ensures AtSum(s, a, b) == 0.0
    decreases b - a
  {
    if a < b {
      AtSumBelowZero(s, a, b - 1);
    }
  }

  lemma {:induction false} AtSumDropLow(s: Vector, a: int, b: int)
    requires a <= 0 <= b
    ensures AtSum(s, a, b) == AtSum(s, 0, b)
    decreases b
  {
    if b == 0 {
      AtSumBelowZero(s, a, 0);
    } else {
      AtSumDropLow(s, a, b - 1);
    }
  }

  lemma {:induction false} AtSumDropHigh(s: Vector, a: int, b: int)
    requires a <= |s| <= b
    ensures AtSum(s, a, b) == AtSum(s, a, |s|)
    decreases b
  {
    if b > |s| {
      AtSumDropHigh(s, a, b - 1);
    }
  }

  /** Channel `c` of the sliced tile sum adds `At` over the unclipped window `c-2 .. c+2`. */
  lemma TileSumAt(sq: Vector, c: nat)
    requires c < |sq|
    ensures TileSum(sq)[c + Half] == AtSum(sq, c - Half, c + Half + 1)
  {
    var q := c + Half;
    TileAt(sq, 0, q);
    TileAt(sq, 1, q);
    TileAt(sq, 2, q);
    TileAt(sq, 3, q);
    TileAt(sq, 4, q);
    assert AtSum(sq, c - 2, c + 3)
        == AtSum(sq, c - 2, c + 2) + At(sq, c + 2)
        == AtSum(sq, c - 2, c + 1) + At(sq, c + 1) + At(sq, c + 2)
        == AtSum(sq, c - 2, c) + At(sq, c) + At(sq, c + 1) + At(sq, c + 2)
        == AtSum(sq, c - 2, c - 1) + At(sq, c - 1) + At(sq, c) + At(sq, c + 1) + At(sq, c + 2)
        == AtSum(sq, c - 2, c - 2) + At(sq, c - 2) + At(sq, c - 1) + At(sq, c) + At(sq, c + 1) + At(sq, c + 2)
        == At(sq, c - 2) + At(sq, c - 1) + At(sq, c) + At(sq, c + 1) + At(sq, c + 2);
  }

  /** The padded-copies computation equals the clipped window sum of squares. */
  lemma ChannelWindow(v: Vector, c: nat)
    requires c < |v|
    ensures ChannelSumSq(v)[c] == WindowSum(Squares(v), c)
  {
    var sq := Squares(v);
    var n := |v|;
    TileSumAt(sq, c);
    assert ChannelSumSq(v)[c] == TileSum(sq)[c + Half];
    var a := c - Half;
    var lo, hi := Lo(c), Hi(n, c);
    if hi == n {
      AtSumDropHigh(sq, a, c + Half + 1);
    }
    assert AtSum(sq, a, c + Half + 1) == AtSum(sq, a, hi);
    if lo == 0 {
      AtSumDropLow(sq, a, hi);
    }
    assert AtSum(sq, a, hi) == AtSum(sq, lo, hi);
    SumIsAtSum(sq, lo, hi);
  }

  /** With a single channel the window holds only that channel: the result is `x^2`. */
  lemma SingleChannel(v: Vector)
    requires |v| == 1
    ensures ChannelSumSq(v) == [v[0] * v[0]]
  {
    ChannelWindow(v, 0);
    var sq := Squares(v);
    assert Lo(0) == 0 && Hi(1, 0) == 1;
    assert sq[0..1][..0] == [];
    assert WindowSum(sq, 0) == Sum(sq[0..1]) == sq[0];
    assert ChannelSumSq(v)[0] == v[0] * v[0];
  }

  /** The window always contains channel `c` itself, and every other term is a square. */
  lemma {:induction false} WindowCovers(v: Vector, c: nat)
    requires c < |v|
    ensures ChannelSumSq(v)[c] >= v[c] * v[c]
  {
    ChannelWindow(v, c);
    var sq := Squares(v);
    var lo, hi := Lo(c), Hi(|v|, c);
    SumIsAtSum(sq, lo, hi);
    AtSumSplit(sq, lo, c, hi);
    AtSumNonNegative(sq, lo, c);
    AtSumNonNegative(sq, c + 1, hi);
  }

  lemma {:induction false} AtSumNonNegative(s: Vector, a: int, b: int)
    requires forall i :: 0 <= i < |s| ==> s[i] >= 0.0
    ensures AtSum(s, a, b) >= 0.0
    decreases b - a
  {
    if a < b {
      AtSumNonNegative(s, a, b - 1);
    }
  }

  /** `AtSum` over `[a, b)` splits at `m`, taking `At(s, m)` on its own. */
  lemma {:induction false} AtSumSplit(s: Vector, a: int, m: int, b: int)
    requires a <= m < b
    ensures AtSum(s, a, b) == AtSum(s, a, m) + At(s, m) + AtSum(s, m + 1, b)
    decreases b - a
  {
    if b == m + 1 {
    } else {
      AtSumSplit(s, a, m, b - 1);
    }
  }

  // ---------------------------------------------------------------------
  // The whole N x C x H x W tensor
  // ---------------------------------------------------------------------

  /** The channel column of `x` at sample `n` and pixel `(h, w)`. */
  function Column(x: Array4, n: nat, h: nat, w: nat): (col: Vector)
    requires x.Valid()
    requires n < x.shape.d0 && h < x.shape.d2 && w < x.shape.d3
    ensures |col| == x.shape.d1
    ensures forall c :: 0 <= c < |col| ==> col[c] == x.data[n][c][h][w]
  {
    seq(x.shape.d1, c requires 0 <= c < x.shape.d1 => x.data[n][c][h][w])
  }

  /** `x_sumsq`: the window sum of squares at every position of `x`. */
  function SumSq(x: Array4): (s: Array4)
    requires x.Valid()
    ensures s.Valid() && s.shape == x.shape
  {
    var d := x.shape;
    Array4(d, seq(d.d0, n requires 0 <= n < d.d0 =>
      seq(d.d1, c requires 0 <= c < d.d1 =>
        seq(d.d2, h requires 0 <= h < d.d2 =>
          seq(d.d3, w requires 0 <= w < d.d3 => ChannelSumSq(Column(x, n, h, w))[c])))))
  }

  /** The base of the normaliser, `2 + 0.0001 * x_sumsq`. */
  function Base(s: real): real
  {
    2.0 + 0.0001 * s
  }

  /**
   * `LRN.forward`: every entry scaled by the normaliser of its window. The
   * power `t -> t^(-0.75)` is the parameter `invPow`.
   */
  function Normalise(x: Array4, invPow: real -> real): (y: Array4)
    requires x.Valid()
    ensures y.Valid() && y.shape == x.shape
  {
    var d := x.shape;
    var s := SumSq(x);
    Array4(d, seq(d.d0, n requires 0 <= n < d.d0 =>
      seq(d.d1, c requires 0 <= c < d.d1 =>
        seq(d.d2, h requires 0 <= h < d.d2 =>
          seq(d.d3, w requires 0 <= w < d.d3 => x.data[n][c][h][w] * invPow(Base(s.data[n][c][h][w])))))))
  }

  /**
   * Every entry of `x_sumsq` is the sum of `x[n][j][h][w]^2` over the clipped
   * window `j` in `[max(0, c-2), min(C-1, c+2)]`, and it is at least the
   * entry's own square, so the base of the normaliser is at least 2.
   */
  lemma SumSqWindow(x: Array4, n: nat, c: nat, h: nat, w: nat)
    requires x.Valid()
    requires n < x.shape.d0 && c < x.shape.d1 && h < x.shape.d2 && w < x.shape.d3
    ensures SumSq(x).data[n][c][h][w] == WindowSum(Squares(Column(x, n, h, w)), c)
    ensures SumSq(x).data[n][c][h][w] >= x.data[n][c][h][w] * x.data[n][c][h][w]
    ensures Base(SumSq(x).data[n][c][h][w]) >= 2.0
  {
    var col := Column(x, n, h, w);
    assert SumSq(x).data[n][c][h][w] == ChannelSumSq(col)[c];
    ChannelWindow(col, c);
    WindowCovers(col, c);
  }

  /**
   * Every output entry is the input entry times the power of
   * `2 + 1e-4 * (sum of squares over its clipped channel window)`.
   */
  lemma NormaliseAt(x: Array4, invPow: real -> real, n: nat, c: nat, h: nat, w: nat)
    requires x.Valid()
    requires n < x.shape.d0 && c < x.shape.d1 && h < x.shape.d2 && w < x.shape.d3
    ensures Normalise(x, invPow).data[n][c][h][w]
         == x.data[n][c][h][w] * invPow(2.0 + 0.0001 * WindowSum(Squares(Column(x, n, h, w)), c))
  {
    SumSqWindow(x, n, c, h, w);
    assert Normalise(x, invPow).data[n][c][h][w] == x.data[n][c][h][w] * invPow(Base(SumSq(x).data[n][c][h][w]));
  }

  /** With one channel, each entry is divided by the power of `2 + 1e-4 * x^2`. */
  lemma NormaliseSingleChannel(x: Array4, invPow: real -> real, n: nat, h: nat, w: nat)
    requires x.Valid() && x.shape.d1 == 1
    requires n < x.shape.d0 && h < x.shape.d2 && w < x.shape.d3
    ensures Normalise(x, invPow).data[n][0][h][w]
         == x.data[n][0][h][w] * invPow(2.0 + 0.0001 * (x.data[n][0][h][w] * x.data[n][0][h][w]))
  {
    SingleChannelTensor(x, n, h, w);
    assert Normalise(x, invPow).data[n][0][h][w] == x.data[n][0][h][w] * invPow(Base(SumSq(x).data[n][0][h][w]));
  }

  /** With one channel, `x_sumsq` is the elementwise square of `x`. */
  lemma SingleChannelTensor(x: Array4, n: nat, h: nat, w: nat)
    requires x.Valid() && x.shape.d1 == 1
    requires n < x.shape.d0 && h < x.shape.d2 && w < x.shape.d3
    ensures SumSq(x).data[n][0][h][w] == x.data[n][0][h][w] * x.data[n][0][h][w]
  {
    var col := Column(x, n, h, w);
    assert SumSq(x).data[n][0][h][w] == ChannelSumSq(col)[0];
    SingleChannel(col);
  }
}
