/**
 * `MDNet.forward` on the concrete backbone: the seven named layers of
 * `MDNet.__init__`, each an arbitrary transform.
 */
module Network {
  import opened Wrappers
  import opened Text
  import opened Topology
  import opened Forward

  /** The backbone `nn.Sequential` as a sequence of named stages. */
  function Layers<T>(fs: seq<T -> T>): (ls: seq<Layer<T>>)
    requires |fs| == 7
    ensures |ls| == 7
    ensures Forward.Names(ls) == LayerNames
    ensures forall i :: 0 <= i < 7 ==> ls[i] == Layer(LayerNames[i], fs[i])
  {
    seq(7, i requires 0 <= i < 7 => Layer(LayerNames[i], fs[i]))
  }

  predicate IsMDNet<T>(net: Net<T>)
  {
    |net.layers| == 7 && Forward.Names(net.layers) == LayerNames
  }

  lemma LayerNamesDistinct()
    ensures Distinct(LayerNames)
  {
  }

  lemma FirstIndexOfLayer(i: nat)
    requires i < 7
    ensures FirstIndex(LayerNames, LayerNames[i]) == i
  {
    LayerNamesDistinct();
    FirstIndexDistinct(LayerNames, i);
  }

  /**
   * For `in_layer` at or before `out_layer`, `forward` runs exactly the
   * backbone layers from `in_layer` through `out_layer` and applies no
   * branch.
   */
  lemma ContiguousRun<T>(net: Net<T>, x: T, k: int, a: nat, b: nat)
    requires IsMDNet(net)
    requires a <= b < 7
    ensures Run(net, x, k, LayerNames[a], LayerNames[b])
         == match Pipeline(net, net.layers[a..b + 1], State(x, None))
            case Err(e) => Err(e)
            case Ok(st) => Ok(Some(st.x))
  {
    FirstIndexOfLayer(a);
    LayerNamesDistinct();
    FirstIndexInSuffix(LayerNames, a, b);
    assert Forward.Names(net.layers[a..]) == LayerNames[a..];
    RunSlice(net, x, k, LayerNames[a], LayerNames[b], a, b);
  }

  /**
   * For `out_layer` strictly before `in_layer`, the loop never meets
   * `out_layer` again: it runs to the end, applies the branch and, as the
   * name is not a score marker, returns nothing.
   */
  lemma OutBeforeIn<T>(net: Net<T>, x: T, k: int, a: nat, b: nat)
    requires IsMDNet(net)
    requires b < a < 7
    ensures Run(net, x, k, LayerNames[a], LayerNames[b]).Ok? ==> Run(net, x, k, LayerNames[a], LayerNames[b]) == Ok(None)
  {
    FirstIndexOfLayer(a);
    LayerNamesDistinct();
    FirstIndexInSuffix(LayerNames, a, b);
    assert Forward.Names(net.layers[a..]) == LayerNames[a..];
    assert LayerNames[b] !in LayerNames[a..];
    RunToBranch(net, x, k, LayerNames[a], LayerNames[b], a);
    assert LayerNames[b] != Scores && LayerNames[b] != SoftScores;
  }

  /** `forward(x, in_layer='conv1', out_layer='conv2')` is conv2 after conv1, with no branch. */
  lemma Conv1ToConv2<T>(fs: seq<T -> T>, branches: seq<T -> T>, enStn: bool, ops: Ops<T>, x: T, k: int)
    requires |fs| == 7
    ensures Run(Net(Layers(fs), branches, enStn, ops), x, k, "conv1", "conv2") == Ok(Some(fs[1](fs[0](x))))
  {
    var net := Net(Layers(fs), branches, enStn, ops);
    ContiguousRun(net, x, k, 0, 1);
    var seg := net.layers[0..2];
    assert seg[0] == Layer("conv1", fs[0]) && seg[1] == Layer("conv2", fs[1]);
    var s1 := State(fs[0](x), None);
    assert Step(net, seg[0], State(x, None)) == Ok(s1);
    assert Step(net, seg[1], s1) == Ok(State(fs[1](fs[0](x)), None));
    assert seg[1..][1..] == [];
    assert Pipeline(net, seg[1..], s1) == Ok(State(fs[1](fs[0](x)), None));
  }

  /**
   * The default call `forward(x, k)` runs the whole backbone, then branch `k`
   * (Python's negative indices count from the end), and returns its raw scores.
   */
  lemma DefaultForward<T>(net: Net<T>, x: T, k: int)
    requires IsMDNet(net)
    ensures Run(net, x, k, "conv1", Scores)
         == match Pipeline(net, net.layers, State(x, None))
            case Err(e) => Err(e)
            case Ok(st) =>
              if -|net.branches| <= k < |net.branches|
              then Ok(Some(net.branches[if k < 0 then k + |net.branches| else k](st.x)))
              else Err(BranchIndexOutOfRange(k))
  {
    FirstIndexOfLayer(0);
    assert net.layers[0..] == net.layers;
    assert Scores !in LayerNames;
    RunToBranch(net, x, k, "conv1", Scores, 0);
  }

  /**
   * With `en_stn` on, a walk that starts at `conv_loc2` or `conv3` reads the
   * regression output `p` before `conv_loc1` assigned it, and fails, whatever
   * `out_layer` and `k` are.
   */
  lemma StnStartAfterLoc1Fails<T>(net: Net<T>, x: T, k: int, a: nat, outLayer: string)
    requires IsMDNet(net) && net.enStn
    requires a == 3 || a == 4
    ensures Run(net, x, k, LayerNames[a], outLayer) == Err(UnboundTheta)
  {
    FirstIndexOfLayer(a);
    WalkSearching(net, net.layers, State(x, None), LayerNames[a], outLayer);
    assert net.layers[a..][0].name == LayerNames[a];
  }
}
