/**
 * `MDNet.forward(x, k, in_layer, out_layer)`: a walk over the named backbone
 * layers that starts running at `in_layer`, returns right after `out_layer`,
 * and otherwise falls through to branch `k`. Tensors are an abstract type `T`
 * and every layer is an uninterpreted function on it.
 */
module Forward {
  import opened Wrappers
  import opened Text

  const Loc1 := "conv_loc1"
  const Loc2 := "conv_loc2"
  const Conv3 := "conv3"
  /** The `out_layer` markers that ask for the branch scores, raw or through softmax. */
  const Scores := "fc6"
  const SoftScores := "fc6_softmax"

  /** A named backbone stage and the transform its `nn.Sequential` computes. */
  datatype Layer<!T> = Layer(name: string, apply: T -> T)

  /**
   * The tensor operations `forward` uses besides the layers themselves:
   * the spatial transform `stn(x, p)`, the reshape `p.view(x.size(0), 2, 3)`,
   * the flatten `x.view(x.size(0), -1)` and `F.softmax`.
   */
  datatype Ops<!T> = Ops(warp: (T, T) -> T, toTheta: (T, T) -> T, flatten: T -> T, softmax: T -> T)

  datatype Net<!T> = Net(layers: seq<Layer<T>>, branches: seq<T -> T>, enStn: bool, ops: Ops<T>)

  /** The loop's locals: the activation `x` and the regression output `p`, unbound until `conv_loc1` assigns it. */
  datatype State<T> = State(x: T, p: Option<T>)

  datatype ForwardError =
    | UnboundTheta                 // `p` read before `conv_loc1` assigned it
    | BranchIndexOutOfRange(k: int)

  /** How the walk over the backbone ended: at `out_layer`, or past the last layer. */
  datatype Walked<T> = Stopped(x: T) | FellThrough(x: T)

  /** What one executed layer does to the loop's locals. */
  function Step<T>(net: Net<T>, layer: Layer<T>, st: State<T>): (r: Result<State<T>, ForwardError>)
    ensures r.Err? <==> net.enStn && st.p.None? && (layer.name == Loc2 || layer.name == Conv3)
    ensures r.Ok? && (layer.name == Loc1 || layer.name == Loc2) ==> r.value.x == st.x
    ensures r.Ok? && layer.name != Loc1 && layer.name != Loc2 ==> r.value.p == st.p
  {
    if layer.name == Loc1 then
      if net.enStn then Ok(State(st.x, Some(layer.apply(st.x)))) else Ok(st)
    else if layer.name == Loc2 then
      if !net.enStn then Ok(st)
      else if st.p.None? then Err(UnboundTheta)
      else Ok(State(st.x, Some(net.ops.toTheta(layer.apply(st.p.value), st.x))))
    else if layer.name == Conv3 then
      if !net.enStn then Ok(State(net.ops.flatten(layer.apply(st.x)), st.p))
      else if st.p.None? then Err(UnboundTheta)
      else Ok(State(net.ops.flatten(layer.apply(net.ops.warp(st.x, st.p.value))), st.p))
    else
      Ok(State(layer.apply(st.x), st.p))
  }

  /** Whatever `conv3` computes, the activation it leaves behind is flattened to `(N, -1)`. */
  lemma Conv3Flattens<T(!new)>(net: Net<T>, layer: Layer<T>, st: State<T>)
    requires layer.name == Conv3
    requires Step(net, layer, st).Ok?
    ensures exists z :: Step(net, layer, st).value.x == net.ops.flatten(z)
  {
    var z := if net.enStn then layer.apply(net.ops.warp(st.x, st.p.value)) else layer.apply(st.x);
    assert Step(net, layer, st).value.x == net.ops.flatten(z);
  }

  /** The `for name, module in self.layers.named_children()` loop, from layer `ls[0]` on. */
  function Walk<T>(net: Net<T>, ls: seq<Layer<T>>, run: bool, st: State<T>, inLayer: string, outLayer: string)
    : Result<Walked<T>, ForwardError>
    decreases |ls|
  {
    if |ls| == 0 then Ok(FellThrough(st.x))
    else
      var run' := run || ls[0].name == inLayer;
      if !run' then Walk(net, ls[1..], false, st, inLayer, outLayer)
      else
        match Step(net, ls[0], st)
        case Err(e) => Err(e)
        case Ok(st') =>
          if ls[0].name == outLayer then Ok(Stopped(st'.x))
          else Walk(net, ls[1..], true, st', inLayer, outLayer)
  }

  /** The position `nn.ModuleList` indexing picks for `k` in `[-K, K)`: negative `k` counts from the end. */
  function Wrap(k: int, K: nat): (i: nat)
    requires -(K as int) <= k < K
    ensures i < K && i == (if k < 0 then k + K else k)
  {
    if k < 0 then k + K else k
  }

  /** `self.branches[k](x)`, then the choice between raw scores, softmax and `None`. */
  function Head<T>(net: Net<T>, x: T, k: int, outLayer: string): (r: Result<Option<T>, ForwardError>)
    ensures r.Err? <==> !(-|net.branches| <= k < |net.branches|)
    ensures r.Ok? && r.value.Some? ==> outLayer == Scores || outLayer == SoftScores
    ensures r.Ok? ==> outLayer == Scores ==> r.value == Some(net.branches[Wrap(k, |net.branches|)](x))
    ensures r.Ok? ==> outLayer == SoftScores ==> r.value == Some(net.ops.softmax(net.branches[Wrap(k, |net.branches|)](x)))
  {
    var K := |net.branches|;
    if !(-K <= k < K) then Err(BranchIndexOutOfRange(k))
    else
      var y := net.branches[Wrap(k, K)](x);
      if outLayer == Scores then Ok(Some(y))
      else if outLayer == SoftScores then Ok(Some(net.ops.softmax(y)))
      else Ok(None)
  }

  /** `MDNet.forward(x, k, in_layer, out_layer)`; `Ok(None)` is Python's implicit `return None`. */
  function Run<T>(net: Net<T>, x: T, k: int, inLayer: string, outLayer: string): Result<Option<T>, ForwardError>
  {
    match Walk(net, net.layers, false, State(x, None), inLayer, outLayer)
    case Err(e) => Err(e)
    case Ok(Stopped(y)) => Ok(Some(y))
    case Ok(FellThrough(y)) => Head(net, y, k, outLayer)
  }

  // ---------------------------------------------------------------------
  // A reference definition: slice the layer sequence, then fold `Step`.
  // ---------------------------------------------------------------------

  function Names<T>(ls: seq<Layer<T>>): (ns: seq<string>)
    ensures |ns| == |ls|
    ensures forall i :: 0 <= i < |ls| ==> ns[i] == ls[i].name
  {
    seq(|ls|, i requires 0 <= i < |ls| => ls[i].name)
  }

  /** The first position of `s` in `ns`, or `|ns|` when it is absent. */
  function FirstIndex(ns: seq<string>, s: string): (i: nat)
    ensures i <= |ns|
    ensures i < |ns| ==> ns[i] == s
    ensures forall j :: 0 <= j < i ==> ns[j] != s
    decreases |ns|
  {
    if |ns| == 0 then 0
    else if ns[0] == s then 0
    else 1 + FirstIndex(ns[1..], s)
  }

  /** In a sequence without repeats, every element is found at its own position. */
  lemma FirstIndexDistinct(ns: seq<string>, i: nat)
    requires Distinct(ns)
    requires i < |ns|
    ensures FirstIndex(ns, ns[i]) == i
  {
  }

  /** In a sequence without repeats, an element before position `a` does not occur from `a` on. */
  lemma FirstIndexInSuffix(ns: seq<string>, a: nat, b: nat)
    requires Distinct(ns)
    requires a <= |ns| && b < |ns|
    ensures FirstIndex(ns[a..], ns[b]) == if a <= b then b - a else |ns| - a
  {
    if a <= b {
      FirstIndexDistinct(ns[a..], b - a);
    }
  }

  /** Runs every layer of `seg` in order, stopping at the first error. */
  function Pipeline<T>(net: Net<T>, seg: seq<Layer<T>>, st: State<T>): Result<State<T>, ForwardError>
    decreases |seg|
  {
    if |seg| == 0 then Ok(st)
    else
      match Step(net, seg[0], st)
      case Err(e) => Err(e)
      case Ok(st') => Pipeline(net, seg[1..], st')
  }

  /**
   * What `forward` is meant to compute: run the contiguous slice of layers
   * from the first `in_layer` through the first `out_layer` after it; when
   * there is no such `out_layer`, run to the end and apply the branch.
   */
  ghost function Reference<T>(net: Net<T>, x: T, k: int, inLayer: string, outLayer: string)
    : Result<Option<T>, ForwardError>
  {
    var a := FirstIndex(Names(net.layers), inLayer);
    var run := net.layers[a..];
    var b := FirstIndex(Names(run), outLayer);
    if b < |run| then
      match Pipeline(net, run[..b + 1], State(x, None))
      case Err(e) => Err(e)
      case Ok(st) => Ok(Some(st.x))
    else
      match Pipeline(net, run, State(x, None))
      case Err(e) => Err(e)
      case Ok(st) => Head(net, st.x, k, outLayer)
  }

  /** `forward` from the layer at `a` to the layer at `b`: the pipeline over that slice, no branch. */
  lemma RunSlice<T>(net: Net<T>, x: T, k: int, inLayer: string, outLayer: string, a: nat, b: nat)
    requires a <= b < |net.layers|
    requires FirstIndex(Names(net.layers), inLayer) == a
    requires FirstIndex(Names(net.layers[a..]), outLayer) == b - a
    ensures Run(net, x, k, inLayer, outLayer)
         == match Pipeline(net, net.layers[a..b + 1], State(x, None))
            case Err(e) => Err(e)
            case Ok(st) => Ok(Some(st.x))
  {
    var st := State(x, None);
    WalkSearching(net, net.layers, st, inLayer, outLayer);
    WalkRunning(net, net.layers[a..], st, inLayer, outLayer);
    assert net.layers[a..][..b - a + 1] == net.layers[a..b + 1];
  }

  /** `forward` from the layer at `a` when `out_layer` does not follow: the rest of the backbone, then the branch. */
  lemma RunToBranch<T>(net: Net<T>, x: T, k: int, inLayer: string, outLayer: string, a: nat)
    requires a <= |net.layers|
    requires FirstIndex(Names(net.layers), inLayer) == a
    requires outLayer !in Names(net.layers[a..])
    ensures Run(net, x, k, inLayer, outLayer)
         == match Pipeline(net, net.layers[a..], State(x, None))
            case Err(e) => Err(e)
            case Ok(st) => Head(net, st.x, k, outLayer)
  {
    var st := State(x, None);
    WalkSearching(net, net.layers, st, inLayer, outLayer);
    if a < |net.layers| {
      WalkRunning(net, net.layers[a..], st, inLayer, outLayer);
    } else {
      assert net.layers[a..] == [];
    }
  }

  /** An `in_layer` that names no layer runs nothing: the input goes straight to the branch. */
  lemma UnknownInLayer<T>(net: Net<T>, x: T, k: int, inLayer: string, outLayer: string)
    requires inLayer !in Names(net.layers)
    ensures Run(net, x, k, inLayer, outLayer) == Head(net, x, k, outLayer)
  {
    RunMatchesReference(net, x, k, inLayer, outLayer);
    assert net.layers[|net.layers|..] == [];
  }

  /**
   * An `out_layer` that is neither a layer met on the way nor a score marker
   * makes `forward` return nothing (or fail on the branch index).
   */
  lemma UnknownOutLayer<T>(net: Net<T>, x: T, k: int, inLayer: string, outLayer: string)
    requires outLayer !in Names(net.layers)
    requires outLayer != Scores && outLayer != SoftScores
    ensures Run(net, x, k, inLayer, outLayer).Ok? ==> Run(net, x, k, inLayer, outLayer) == Ok(None)
  {
    RunMatchesReference(net, x, k, inLayer, outLayer);
    var a := FirstIndex(Names(net.layers), inLayer);
    var run := net.layers[a..];
    assert Names(run) == Names(net.layers)[a..];
  }

  function WalkedOf<T>(r: Result<State<T>, ForwardError>, stopped: bool): Result<Walked<T>, ForwardError>
  {
    match r
    case Err(e) => Err(e)
    case Ok(st) => if stopped then Ok(Stopped(st.x)) else Ok(FellThrough(st.x))
  }

  /** Once running, the walk is the pipeline up to the first `out_layer`, or the whole pipeline. */
  lemma {:induction false} WalkRunning<T>(net: Net<T>, ls: seq<Layer<T>>, st: State<T>, inLayer: string, outLayer: string)
    ensures var b := FirstIndex(Names(ls), outLayer);
            Walk(net, ls, true, st, inLayer, outLayer)
              == if b < |ls| then WalkedOf(Pipeline(net, ls[..b + 1], st), true)
                 else WalkedOf(Pipeline(net, ls, st), false)
    decreases |ls|
  {
    if |ls| > 0 {
      assert Names(ls)[1..] == Names(ls[1..]);
      assert ls[..1][1..] == [];
      match Step(net, ls[0], st)
      case Err(e) =>
      case Ok(st') =>
        if ls[0].name != outLayer {
          WalkRunning(net, ls[1..], st', inLayer, outLayer);
          var b := FirstIndex(Names(ls), outLayer);
          if b < |ls| {
            assert ls[..b + 1][1..] == ls[1..][..b];
          }
        }
    }
  }

  /** Before `in_layer` the walk only skips layers. */
  lemma {:induction false} WalkSearching<T>(net: Net<T>, ls: seq<Layer<T>>, st: State<T>, inLayer: string, outLayer: string)
    ensures var a := FirstIndex(Names(ls), inLayer);
            Walk(net, ls, false, st, inLayer, outLayer)
              == if a < |ls| then Walk(net, ls[a..], true, st, inLayer, outLayer) else Ok(FellThrough(st.x))
    decreases |ls|
  {
    if |ls| > 0 && ls[0].name != inLayer {
      assert Names(ls)[1..] == Names(ls[1..]);
      WalkSearching(net, ls[1..], st, inLayer, outLayer);
      var a := FirstIndex(Names(ls), inLayer);
      if a < |ls| {
        assert ls[a..] == ls[1..][a - 1..];
      }
    } else if |ls| > 0 {
      assert ls[0..] == ls;
    }
  }

  /**
   * `forward` runs exactly the contiguous run of layers from the first
   * `in_layer` through the first `out_layer` after it, returning before any
   * branch when `out_layer` is reached; otherwise it applies branch `k`. An
   * unknown `in_layer` runs no layer at all.
   */
  lemma RunMatchesReference<T>(net: Net<T>, x: T, k: int, inLayer: string, outLayer: string)
    ensures Run(net, x, k, inLayer, outLayer) == Reference(net, x, k, inLayer, outLayer)
  {
    var st := State(x, None);
    WalkSearching(net, net.layers, st, inLayer, outLayer);
    var a := FirstIndex(Names(net.layers), inLayer);
    if a < |net.layers| {
      WalkRunning(net, net.layers[a..], st, inLayer, outLayer);
    } else {
      assert net.layers[a..] == [];
    }
  }

  // ---------------------------------------------------------------------
  // With the spatial transform off, the regression stages are inert.
  // ---------------------------------------------------------------------

  /** The layers other than `conv_loc1` and `conv_loc2`, in order. */
  function WithoutLoc<T>(ls: seq<Layer<T>>): (r: seq<Layer<T>>)
    ensures |r| <= |ls|
    ensures forall i :: 0 <= i < |r| ==> r[i].name != Loc1 && r[i].name != Loc2
    decreases |ls|
  {
    if |ls| == 0 then []
    else if ls[0].name == Loc1 || ls[0].name == Loc2 then WithoutLoc(ls[1..])
    else [ls[0]] + WithoutLoc(ls[1..])
  }

  lemma {:induction false} WalkWithoutLoc<T>(net: Net<T>, ls: seq<Layer<T>>, run: bool, st: State<T>,
                                             inLayer: string, outLayer: string)
    requires !net.enStn
    requires inLayer != Loc1 && inLayer != Loc2 && outLayer != Loc1 && outLayer != Loc2
    ensures Walk(net, ls, run, st, inLayer, outLayer) == Walk(net, WithoutLoc(ls), run, st, inLayer, outLayer)
    decreases |ls|
  {
    if |ls| > 0 {
      if ls[0].name == Loc1 || ls[0].name == Loc2 {
        assert Step(net, ls[0], st) == Ok(st);
        WalkWithoutLoc(net, ls[1..], run, st, inLayer, outLayer);
      } else {
        var w := WithoutLoc(ls);
        assert w[0] == ls[0] && w[1..] == WithoutLoc(ls[1..]);
        var run' := run || ls[0].name == inLayer;
        if !run' {
          WalkWithoutLoc(net, ls[1..], false, st, inLayer, outLayer);
        } else if Step(net, ls[0], st).Ok? {
          WalkWithoutLoc(net, ls[1..], true, Step(net, ls[0], st).value, inLayer, outLayer);
        }
      }
    }
  }

  /**
   * With `en_stn` false, `conv_loc1` and `conv_loc2` never change `x`, so
   * `forward` computes what it computes with those two layers removed
   * (for start and end points other than those two layers).
   */
  lemma StnOffIgnoresLoc<T>(net: Net<T>, x: T, k: int, inLayer: string, outLayer: string)
    requires !net.enStn
    requires inLayer != Loc1 && inLayer != Loc2 && outLayer != Loc1 && outLayer != Loc2
    ensures Run(net, x, k, inLayer, outLayer) == Run(net.(layers := WithoutLoc(net.layers)), x, k, inLayer, outLayer)
  {
    var net' := net.(layers := WithoutLoc(net.layers));
    WalkWithoutLoc(net, net.layers, false, State(x, None), inLayer, outLayer);
    WalkSameSteps(net, net', WithoutLoc(net.layers), false, State(x, None), inLayer, outLayer);
  }

  /** The walk depends on the network only through what `Step` does. */
  lemma {:induction false} WalkSameSteps<T>(net: Net<T>, net': Net<T>, ls: seq<Layer<T>>, run: bool, st: State<T>,
                                           inLayer: string, outLayer: string)
    requires net.enStn == net'.enStn && net.ops == net'.ops
    ensures Walk(net, ls, run, st, inLayer, outLayer) == Walk(net', ls, run, st, inLayer, outLayer)
    decreases |ls|
  {
    if |ls| > 0 {
      assert Step(net, ls[0], st) == Step(net', ls[0], st);
      var run' := run || ls[0].name == inLayer;
      if !run' {
        WalkSameSteps(net, net', ls[1..], false, st, inLayer, outLayer);
      } else if Step(net, ls[0], st).Ok? {
        WalkSameSteps(net, net', ls[1..], true, Step(net, ls[0], st).value, inLayer, outLayer);
      }
    }
  }
}
