/**
 * Backbone weights: the zero initialisation of `conv_loc2` in
 * `MDNet.__init__` and the import of MatConvNet filters in
 * `MDNet.load_mat_model`.
 *
 * Each backbone layer is represented by the parameters of its first
 * weighted module: a convolution for `conv1` .. `conv3`, a linear map for
 * `fc4` and `fc5`.
 */
module Weights {
  import opened Wrappers
  import opened Tensor

  datatype Stage =
    | Conv(weight: Array4, bias: Vector)
    | Linear(matrix: Array2, offset: Vector)

  /** The seven backbone layers, in the order of `MDNet.layers`. */
  type Backbone = seq<Stage>

  const Layers: nat := 7

  /** The index of `conv_loc2` in the backbone. */
  const Loc2: nat := 3

  // ---------------------------------------------------------------------
  // Zero initialisation of the localisation head
  // ---------------------------------------------------------------------

  /** `conv_loc2` maps 64 channels to 6 with a 3 x 3 kernel. */
  const Loc2Shape := Shape4(6, 64, 3, 3)

  /** The bias `[1, 0, 0, 0, 1, 0]`: read as a 2 x 3 affine matrix, the identity. */
  const IdentityBias: Vector := [1.0, 0.0, 0.0, 0.0, 1.0, 0.0]

  /** With `zero_init`, `conv_loc2` gets zero filters and the identity bias; nothing else changes. */
  function ZeroInit(net: Backbone, zeroInit: bool): (r: Backbone)
    requires |net| == Layers
    ensures |r| == Layers
    ensures forall t :: 0 <= t < Layers && t != Loc2 ==> r[t] == net[t]
  {
    if zeroInit then net[Loc2 := Conv(Zeros4(Loc2Shape), IdentityBias)] else net
  }

  /** Output channel `o` of a convolution at one position, on the input patch under the kernel. */
  function ConvAt(weight: Array4, bias: Vector, patch: seq<seq<seq<real>>>, o: nat): real
    requires weight.Valid() && o < weight.shape.d0 && o < |bias|
    requires |Flatten3(patch)| == |Flatten3(weight.data[o])|
  {
    Dot(Flatten3(weight.data[o]), Flatten3(patch)) + bias[o]
  }

  /** The sampling point of the affine matrix `theta` (row-major 2 x 3) for grid point `(u, v)`. */
  function Affine(theta: Vector, u: real, v: real): (real, real)
    requires |theta| == 6
  {
    (theta[0] * u + theta[1] * v + theta[2], theta[3] * u + theta[4] * v + theta[5])
  }

  lemma {:induction false} Flatten2Zero(t: seq<seq<real>>)
    requires forall a, b :: 0 <= a < |t| && 0 <= b < |t[a]| ==> t[a][b] == 0.0
    ensures forall i :: 0 <= i < |Flatten2(t)| ==> Flatten2(t)[i] == 0.0
    decreases |t|
  {
    if |t| > 0 {
      Flatten2Zero(t[1..]);
    }
  }

  lemma {:induction false} Flatten3Zero(t: seq<seq<seq<real>>>)
    requires forall a, b, c :: 0 <= a < |t| && 0 <= b < |t[a]| && 0 <= c < |t[a][b]| ==> t[a][b][c] == 0.0
    ensures forall i :: 0 <= i < |Flatten3(t)| ==> Flatten3(t)[i] == 0.0
    decreases |t|
  {
    if |t| > 0 {
      Flatten2Zero(t[0]);
      Flatten3Zero(t[1..]);
    }
  }

  lemma {:induction false} DotZero(u: Vector, v: Vector)
    requires |u| == |v|
    requires forall i :: 0 <= i < |u| ==> u[i] == 0.0
    ensures Dot(u, v) == 0.0
    decreases |u|
  {
    if |u| > 0 {
      DotZero(u[1..], v[1..]);
    }
  }

  /**
   * After zero initialisation, `conv_loc2` outputs its bias at every
   * position whatever its input, and that output, viewed as the `2 x 3`
   * matrix `theta`, samples every grid point at itself: the spatial
   * transformer starts as the identity.
   */
  lemma ZeroInitIsIdentity(net: Backbone, patch: seq<seq<seq<real>>>, u: real, v: real)
    requires |net| == Layers
    requires |Flatten3(patch)| == 576   // a 64 x 3 x 3 input patch
    ensures var loc2 := ZeroInit(net, true)[Loc2];
      && loc2.Conv? && loc2.weight.Valid() && loc2.weight.shape == Loc2Shape && |loc2.bias| == 6
      && |Flatten3(loc2.weight.data[0])| == |Flatten3(patch)|
      && var out := seq(6, o requires 0 <= o < 6 => ConvAt(loc2.weight, loc2.bias, patch, o));
         out == IdentityBias && Affine(out, u, v) == (u, v)
  {
    var loc2 := ZeroInit(net, true)[Loc2];
    var w := loc2.weight;
    forall o | 0 <= o < 6
      ensures |Flatten3(w.data[o])| == 576
      ensures ConvAt(w, loc2.bias, patch, o) == IdentityBias[o]
    {
      forall i | 0 <= i < 64
        ensures |Flatten2(w.data[o][i])| == 9
      {
        Flatten2Shape(w.data[o][i], 3);
      }
      Flatten3Shape(w.data[o], 9);
      Flatten3Zero(w.data[o]);
      DotZero(Flatten3(w.data[o]), Flatten3(patch));
    }
    var out := seq(6, o requires 0 <= o < 6 => ConvAt(w, loc2.bias, patch, o));
    assert out == IdentityBias;
  }

  lemma {:induction false} Flatten2Shape(t: seq<seq<real>>, c: nat)
    requires forall i :: 0 <= i < |t| ==> |t[i]| == c
    ensures |Flatten2(t)| == |t| * c
    decreases |t|
  {
    if |t| > 0 {
      Flatten2Shape(t[1..], c);
      MulSucc(|t|, c);
    }
  }

  lemma {:induction false} Flatten3Shape(t: seq<seq<seq<real>>>, m: nat)
    requires forall i :: 0 <= i < |t| ==> |Flatten2(t[i])| == m
    ensures |Flatten3(t)| == |t| * m
    decreases |t|
  {
    if |t| > 0 {
      Flatten3Shape(t[1..], m);
      MulSucc(|t|, m);
    }
  }

  lemma MulSucc(a: nat, m: nat)
    requires a > 0
    ensures m + (a - 1) * m == a * m
  {
  }

  // ---------------------------------------------------------------------
  // MatConvNet import
  // ---------------------------------------------------------------------

  /** One entry of the MatConvNet `layers` list: with a `weights` pair of filters and biases, or without. */
  datatype MatLayer =
    | WithWeights(filters: Array4, biases: Array2)
    | WithoutWeights

  datatype LoadError =
    | MissingEntry(index: nat)     // `mat_layers[i*4]` is past the end of the list
    | NoWeights(index: nat)        // the entry holds no filter/bias pair to unpack
    | NoBiasColumn(index: nat)     // `bias[:,0]` on a bias array with no column

  /** The loop runs `i` over `range(3)`. */
  const Copies: nat := 3

  /** The MatConvNet entry read on iteration `i`. */
  function Source(i: nat): nat
  {
    i * 4
  }

  /** The backbone layer written on iteration `i`: `i = i + 2` skips the two localisation layers. */
  function Target(i: nat): nat
  {
    if i == 2 then i + 2 else i
  }

  /** `np.transpose(w, (3, 2, 0, 1))`: MatConvNet's `H x W x In x Out` to torch's `Out x In x H x W`. */
  function Permute(w: Array4): (r: Array4)
    requires w.Valid()
    ensures r.Valid()
    ensures r.shape == Shape4(w.shape.d3, w.shape.d2, w.shape.d0, w.shape.d1)
    ensures forall o, i, h, x :: 0 <= o < w.shape.d3 && 0 <= i < w.shape.d2 && 0 <= h < w.shape.d0 && 0 <= x < w.shape.d1 ==>
      r.data[o][i][h][x] == w.data[h][x][i][o]
  {
    var d := w.shape;
    Array4(Shape4(d.d3, d.d2, d.d0, d.d1),
      seq(d.d3, o requires 0 <= o < d.d3 =>
        seq(d.d2, i requires 0 <= i < d.d2 =>
          seq(d.d0, h requires 0 <= h < d.d0 =>
            seq(d.d1, x requires 0 <= x < d.d1 => w.data[h][x][i][o])))))
  }

  /** The inverse axis permutation, `np.transpose(t, (2, 3, 1, 0))`. */
  function Unpermute(t: Array4): (r: Array4)
    requires t.Valid()
    ensures r.Valid()
    ensures r.shape == Shape4(t.shape.d2, t.shape.d3, t.shape.d1, t.shape.d0)
  {
    var d := t.shape;
    Array4(Shape4(d.d2, d.d3, d.d1, d.d0),
      seq(d.d2, h requires 0 <= h < d.d2 =>
        seq(d.d3, x requires 0 <= x < d.d3 =>
          seq(d.d1, i requires 0 <= i < d.d1 =>
            seq(d.d0, o requires 0 <= o < d.d0 => t.data[o][i][h][x])))))
  }

  /** Converting a MatConvNet filter bank to torch's layout loses nothing. */
  lemma PermuteRoundTrip(w: Array4)
    requires w.Valid()
    ensures Unpermute(Permute(w)) == w
  {
    var r := Unpermute(Permute(w));
    var d := w.shape;
    forall h | 0 <= h < d.d0
      ensures r.data[h] == w.data[h]
    {
      forall x | 0 <= x < d.d1
        ensures r.data[h][x] == w.data[h][x]
      {
        forall i | 0 <= i < d.d2
          ensures r.data[h][x][i] == w.data[h][x][i]
        {
        }
      }
    }
  }

  /** `bias[:, 0]`: the first column, defined when the array has one. */
  function FirstColumn(b: Array2): (c: Vector)
    requires b.Valid() && b.cols > 0
    ensures |c| == b.rows
    ensures forall r :: 0 <= r < b.rows ==> c[r] == b.data[r][0]
  {
    seq(b.rows, r requires 0 <= r < b.rows => b.data[r][0])
  }

  /** The arrays of the entries the import reads are proper arrays (numpy holds nothing else). */
  ghost predicate SourcesWellFormed(mat: seq<MatLayer>)
  {
    forall i :: 0 <= i < Copies && Source(i) < |mat| && mat[Source(i)].WithWeights? ==>
      mat[Source(i)].filters.Valid() && mat[Source(i)].biases.Valid()
  }

  /** What iteration `i` finds wrong with its entry, if anything. */
  function Problem(mat: seq<MatLayer>, i: nat): (p: Option<LoadError>)
    ensures p.Some? ==> p.value.index == Source(i)
  {
    var j := Source(i);
    if j >= |mat| then Some(MissingEntry(j))
    else if mat[j].WithoutWeights? then Some(NoWeights(j))
    else if mat[j].biases.cols == 0 then Some(NoBiasColumn(j))
    else None
  }

  /** The entry iteration `i` reads; an index past the end holds no weights. */
  function Entry(mat: seq<MatLayer>, i: nat): (l: MatLayer)
    ensures Source(i) < |mat| ==> l == mat[Source(i)]
  {
    if Source(i) < |mat| then mat[Source(i)] else WithoutWeights
  }

  /** The conv stage installed from a usable entry. */
  function Installed(l: MatLayer): (s: Stage)
    requires l.WithWeights? && l.filters.Valid() && l.biases.Valid() && l.biases.cols > 0
    ensures s.Conv? && s.weight.Valid() && |s.bias| == l.biases.rows
  {
    Conv(Permute(l.filters), FirstColumn(l.biases))
  }

  /**
   * What a failing iteration leaves in its target layer. The weight
   * assignment runs before `bias[:,0]` is evaluated, so a bias without a
   * column leaves the new weight next to the old bias; the other failures
   * happen before either assignment.
   */
  function Partial(s: Stage, l: MatLayer): (r: Stage)
    requires s.Conv?
    requires l.WithWeights? ==> l.filters.Valid()
    ensures r.Conv?
  {
    if l.WithWeights? && l.biases.cols == 0 then s.(weight := Permute(l.filters)) else s
  }

  /** In MDNet the layers the loop writes, `conv1`, `conv2` and `conv3`, each begin with a `Conv2d`. */
  predicate ConvTargets(net: Backbone)
  {
    |net| == Layers && forall i :: 0 <= i < Copies ==> net[Target(i)].Conv?
  }

  /** The backbone after the loop, and the exception that ended it early, if any. */
  datatype Loaded = Loaded(net: Backbone, error: Option<LoadError>)

  /** Iterations `i` .. 2 of the copy loop. */
  function LoadFrom(net: Backbone, mat: seq<MatLayer>, i: nat): (r: Loaded)
    requires ConvTargets(net) && i <= Copies
    requires SourcesWellFormed(mat)
    ensures ConvTargets(r.net)
    decreases Copies - i
  {
    if i == Copies then Loaded(net, None)
    else
      match Problem(mat, i)
      case Some(e) =>
        Loaded(net[Target(i) := Partial(net[Target(i)], Entry(mat, i))], Some(e))
      case None => LoadFrom(net[Target(i) := Installed(mat[Source(i)])], mat, i + 1)
  }

  /** `MDNet.load_mat_model` on an already-read MatConvNet `layers` list. */
  function LoadMat(net: Backbone, mat: seq<MatLayer>): Loaded
    requires ConvTargets(net)
    requires SourcesWellFormed(mat)
  {
    LoadFrom(net, mat, 0)
  }

  /** Every entry the loop reads is usable. */
  predicate Loadable(mat: seq<MatLayer>)
  {
    forall i :: 0 <= i < Copies ==> Problem(mat, i).None?
  }

  /** The first iteration from `i` on whose entry is unusable, or `Copies` when there is none. */
  function FirstProblem(mat: seq<MatLayer>, i: nat): (j: nat)
    requires i <= Copies
    ensures i <= j <= Copies
    ensures forall m :: i <= m < j ==> Problem(mat, m).None?
    ensures j < Copies ==> Problem(mat, j).Some?
    decreases Copies - i
  {
    if i == Copies || Problem(mat, i).Some? then i else FirstProblem(mat, i + 1)
  }

  /** The layers written on different iterations are different. */
  lemma TargetsDistinct(i: nat, j: nat)
    requires i < Copies && j < Copies && i != j
    ensures Target(i) != Target(j)
  {
  }

  lemma {:induction false} LoadFromError(net: Backbone, mat: seq<MatLayer>, i: nat)
    requires ConvTargets(net) && i <= Copies
    requires SourcesWellFormed(mat)
    ensures var j := FirstProblem(mat, i);
      LoadFrom(net, mat, i).error == (if j < Copies then Problem(mat, j) else None)
    decreases Copies - i
  {
    if i < Copies && Problem(mat, i).None? {
      LoadFromError(net[Target(i) := Installed(mat[Source(i)])], mat, i + 1);
    }
  }

  lemma {:induction false} LoadFromWrites(net: Backbone, mat: seq<MatLayer>, i: nat)
    requires ConvTargets(net) && i <= Copies
    requires SourcesWellFormed(mat)
    ensures var j := FirstProblem(mat, i);
            var r := LoadFrom(net, mat, i).net;
      && (forall m :: i <= m < j ==> r[Target(m)] == Installed(mat[Source(m)]))
      && (j < Copies ==> r[Target(j)] == Partial(net[Target(j)], Entry(mat, j)))
      && (forall t :: 0 <= t < Layers && (forall m :: i <= m <= j && m < Copies ==> t != Target(m)) ==> r[t] == net[t])
    decreases Copies - i
  {
    if i < Copies && Problem(mat, i).None? {
      var net' := net[Target(i) := Installed(mat[Source(i)])];
      LoadFromWrites(net', mat, i + 1);
      var j := FirstProblem(mat, i);
      assert j == FirstProblem(mat, i + 1);
      var r := LoadFrom(net', mat, i + 1).net;
      forall m | i + 1 <= m < Copies
        ensures Target(m) != Target(i)
      {
        TargetsDistinct(m, i);
      }
      assert r[Target(i)] == net'[Target(i)];
      if j < Copies {
        assert net'[Target(j)] == net[Target(j)];
      }
    }
  }

  /**
   * `load_mat_model` runs until the first of entries 0, 4 and 8 that is
   * unusable (missing, without a filter/bias pair, or with a bias without a
   * column) and raises there; with none, it finishes without error.
   * Every iteration before that one has written its layer (0, 1, then 4)
   * from its entry (0, 4, then 8), in torch's axis order. The failing
   * iteration leaves the new weight in its layer only when the bias lacked
   * a column. Every other layer is as it was.
   */
  lemma LoadMatSpec(net: Backbone, mat: seq<MatLayer>)
    requires ConvTargets(net)
    requires SourcesWellFormed(mat)
    ensures var j := FirstProblem(mat, 0);
            var r := LoadMat(net, mat);
      && (r.error.None? <==> Loadable(mat))
      && (j < Copies ==> r.error == Problem(mat, j))
      && (forall m :: 0 <= m < j ==> r.net[Target(m)] == Installed(mat[Source(m)]))
      && (j < Copies ==> r.net[Target(j)] == Partial(net[Target(j)], Entry(mat, j)))
      && (forall t :: 0 <= t < Layers && (forall m :: 0 <= m <= j && m < Copies ==> t != Target(m)) ==> r.net[t] == net[t])
  {
    LoadFromError(net, mat, 0);
    LoadFromWrites(net, mat, 0);
    var j := FirstProblem(mat, 0);
    if j < Copies {
      assert !Loadable(mat);
    }
  }

  /**
   * A successful import writes layers 0, 1 and 4 (`conv1`, `conv2`,
   * `conv3`) from entries 0, 4 and 8 and leaves every other layer as it was.
   */
  lemma LoadMatSuccess(net: Backbone, mat: seq<MatLayer>)
    requires ConvTargets(net)
    requires SourcesWellFormed(mat)
    requires Loadable(mat)
    ensures var r := LoadMat(net, mat);
      && r.error.None?
      && r.net[0] == Installed(mat[0])
      && r.net[1] == Installed(mat[4])
      && r.net[4] == Installed(mat[8])
      && (forall t :: 0 <= t < Layers && t != 0 && t != 1 && t != 4 ==> r.net[t] == net[t])
  {
    LoadMatSpec(net, mat);
    var r := LoadMat(net, mat);
    assert FirstProblem(mat, 0) == Copies;
    assert Target(0) == 0 && Target(1) == 1 && Target(2) == 4;
    assert Source(0) == 0 && Source(1) == 4 && Source(2) == 8;
    forall t | 0 <= t < Layers && t != 0 && t != 1 && t != 4
      ensures r.net[t] == net[t]
    {
      assert forall m :: 0 <= m < Copies ==> t != Target(m);
    }
  }

  /** A bias array without a column fails the first iteration after `conv1`'s weight was replaced. */
  lemma FirstBiasFailureKeepsWeight(net: Backbone, mat: seq<MatLayer>)
    requires ConvTargets(net)
    requires SourcesWellFormed(mat)
    requires |mat| > 0 && mat[0].WithWeights? && mat[0].biases.cols == 0
    ensures var r := LoadMat(net, mat);
      && r.error == Some(NoBiasColumn(0))
      && r.net[0] == Conv(Permute(mat[0].filters), net[0].bias)
      && (forall t :: 1 <= t < Layers ==> r.net[t] == net[t])
  {
    LoadMatSpec(net, mat);
    assert FirstProblem(mat, 0) == 0;
  }

  /**
   * Loading the same file twice gives what loading it once gave, whether
   * the import finishes or raises: a failing import repeats the same writes
   * and raises the same error.
   */
  lemma LoadMatIdempotent(net: Backbone, mat: seq<MatLayer>)
    requires ConvTargets(net)
    requires SourcesWellFormed(mat)
    ensures LoadMat(LoadMat(net, mat).net, mat) == LoadMat(net, mat)
  {
    var r := LoadMat(net, mat);
    LoadMatSpec(net, mat);
    LoadMatSpec(r.net, mat);
    var r2 := LoadMat(r.net, mat);
    forall t | 0 <= t < Layers
      ensures r2.net[t] == r.net[t]
    {
    }
    assert r2.net == r.net;
  }

  /**
   * Of two MatConvNet lists of the same length, only entries 0, 4 and 8
   * decide the import. The length matters: it decides which of those
   * entries exist.
   */
  lemma LoadMatReadsOnlySources(net: Backbone, mat: seq<MatLayer>, mat': seq<MatLayer>)
    requires ConvTargets(net)
    requires SourcesWellFormed(mat) && SourcesWellFormed(mat')
    requires |mat| == |mat'|
    requires forall i :: 0 <= i < Copies && Source(i) < |mat| ==> mat[Source(i)] == mat'[Source(i)]
    ensures LoadMat(net, mat) == LoadMat(net, mat')
  {
    assert forall i :: 0 <= i < Copies ==> Problem(mat, i) == Problem(mat', i);
    LoadFromSame(net, mat, mat', 0);
  }

  lemma {:induction false} LoadFromSame(net: Backbone, mat: seq<MatLayer>, mat': seq<MatLayer>, i: nat)
    requires ConvTargets(net) && i <= Copies
    requires SourcesWellFormed(mat) && SourcesWellFormed(mat')
    requires forall j :: i <= j < Copies ==> Problem(mat, j) == Problem(mat', j)
    requires forall j :: i <= j < Copies && Source(j) < |mat| ==> Source(j) < |mat'| && mat[Source(j)] == mat'[Source(j)]
    ensures LoadFrom(net, mat, i) == LoadFrom(net, mat', i)
    decreases Copies - i
  {
    if i < Copies && Problem(mat, i).None? {
      LoadFromSame(net[Target(i) := Installed(mat[Source(i)])], mat, mat', i + 1);
    }
  }

  /**
   * Loading MatConvNet filters never touches `conv_loc2`, whether it
   * finishes or raises, so its zero initialisation survives.
   */
  lemma LoadKeepsZeroInit(net: Backbone, mat: seq<MatLayer>)
    requires ConvTargets(net)
    requires SourcesWellFormed(mat)
    ensures LoadMat(ZeroInit(net, true), mat).net[Loc2] == Conv(Zeros4(Loc2Shape), IdentityBias)
  {
    var z := ZeroInit(net, true);
    assert ConvTargets(z);
    LoadMatSpec(z, mat);
    assert forall m :: 0 <= m < Copies ==> Loc2 != Target(m);
  }
}
