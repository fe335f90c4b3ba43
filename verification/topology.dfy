/**
 * The concrete MDNet topology as the registry sees it: seven backbone
 * layers and `K` branches, each an `nn.Sequential` whose only learnable
 * child is one Conv2d or Linear holding `weight` then `bias`.
 */
module Topology {
  import opened Wrappers
  import opened Text
  import opened Registry

  /** The backbone layer names in their fixed order. */
  const LayerNames: seq<string> := ["conv1", "conv2", "conv_loc1", "conv_loc2", "conv3", "fc4", "fc5"]

  /** A Conv2d or Linear child: `weight` then `bias`, trainable at construction. */
  function WeightBias<P>(wb: (P, P)): Child<P>
  {
    Child(false, [Slot("weight", Some(Param(wb.0, true))), Slot("bias", Some(Param(wb.1, true)))])
  }

  /** ReLU, LRN, MaxPool2d and Dropout own no parameters. */
  function Stateless<P>(): Child<P>
  {
    Child(false, [])
  }

  /**
   * How many parameterless children stand before and after each backbone
   * layer's Conv2d/Linear: conv1 and conv2 are Conv2d, ReLU, LRN, MaxPool2d;
   * conv_loc1 and conv3 are Conv2d, ReLU; conv_loc2 is a bare Conv2d; fc4
   * and fc5 are Dropout, Linear, ReLU.
   */
  const LayerShape: seq<(nat, nat)> := [(0, 3), (0, 3), (0, 1), (0, 0), (0, 1), (1, 1), (1, 1)]

  /** The backbone of `MDNet.__init__`, given each layer's (weight, bias) pair. */
  function Backbone<P>(ws: seq<(P, P)>): (named: seq<(string, Module<P>)>)
    requires |ws| == 7
    ensures |named| == 7
    ensures forall i :: 0 <= i < 7 ==> named[i] == (LayerNames[i], Layer(LayerShape[i].0, ws[i], LayerShape[i].1))
  {
    seq(7, i requires 0 <= i < 7 => (LayerNames[i], Layer(LayerShape[i].0, ws[i], LayerShape[i].1)))
  }

  /** A container holding `pre` parameterless children, one Conv2d/Linear, then `post` parameterless ones. */
  function Layer<P>(pre: nat, wb: (P, P), post: nat): Module<P>
  {
    Module(StatelessRun(pre) + [WeightBias(wb)] + StatelessRun(post))
  }

  /** The `K` branches `Sequential(Dropout, Linear(512, 2))`, one per (weight, bias) pair. */
  function Branches<P>(bs: seq<(P, P)>): (ms: seq<Module<P>>)
    ensures |ms| == |bs|
    ensures forall k :: 0 <= k < |bs| ==> ms[k] == Layer(1, bs[k], 0)
  {
    seq(|bs|, k requires 0 <= k < |bs| => Layer(1, bs[k], 0))
  }

  const BackboneNames: seq<string> :=
    [ "conv1_weight", "conv1_bias", "conv2_weight", "conv2_bias",
      "conv_loc1_weight", "conv_loc1_bias", "conv_loc2_weight", "conv_loc2_bias",
      "conv3_weight", "conv3_bias", "fc4_weight", "fc4_bias", "fc5_weight", "fc5_bias" ]

  /** The kind of the `i`-th key of a container list whose members each hold one `weight` and one `bias`. */
  function KindAt(i: nat): string
  {
    if i % 2 == 0 then "weight" else "bias"
  }

  /** `prefix_weight`, `prefix_bias` for each prefix in turn. */
  function PairNames(prefixes: seq<string>): (ns: seq<string>)
    ensures |ns| == 2 * |prefixes|
    ensures forall j :: 0 <= j < |prefixes| ==>
              ns[2 * j] == prefixes[j] + "_" + "weight" && ns[2 * j + 1] == prefixes[j] + "_" + "bias"
    decreases |prefixes|
  {
    if |prefixes| == 0 then []
    else [prefixes[0] + "_" + "weight", prefixes[0] + "_" + "bias"] + PairNames(prefixes[1..])
  }

  function Prefixes<P>(named: seq<(string, Module<P>)>): (ps: seq<string>)
    ensures |ps| == |named|
    ensures forall i :: 0 <= i < |named| ==> ps[i] == named[i].0
  {
    seq(|named|, i requires 0 <= i < |named| => named[i].0)
  }

  /** The two entries a Conv2d/Linear child contributes under `prefix`. */
  function WeightBiasEntries<P>(prefix: string, wb: (P, P)): Params<P>
  {
    [Entry(prefix + "_" + "weight", Param(wb.0, true)), Entry(prefix + "_" + "bias", Param(wb.1, true))]
  }

  lemma {:induction false} ModuleEntriesAppend<P>(prefix: string, a: seq<Child<P>>, b: seq<Child<P>>)
    ensures ModuleEntries(prefix, a + b) == ModuleEntries(prefix, a) + ModuleEntries(prefix, b)
    decreases |a|
  {
    if |a| == 0 {
      assert a + b == b;
    } else {
      assert (a + b)[0] == a[0];
      assert (a + b)[1..] == a[1..] + b;
      ModuleEntriesAppend(prefix, a[1..], b);
    }
  }

  /** `n` parameterless children in a row. */
  function StatelessRun<P>(n: nat): (cs: seq<Child<P>>)
    ensures |cs| == n
  {
    seq(n, _ => Stateless())
  }

  lemma {:induction false} StatelessNoEntries<P>(prefix: string, n: nat)
    ensures ModuleEntries(prefix, StatelessRun<P>(n)) == []
    decreases n
  {
    if n > 0 {
      StatelessNoEntries<P>(prefix, n - 1);
      assert StatelessRun<P>(n)[1..] == StatelessRun<P>(n - 1);
    }
  }

  lemma WeightBiasChild<P>(prefix: string, wb: (P, P))
    ensures ModuleEntries(prefix, [WeightBias(wb)]) == WeightBiasEntries(prefix, wb)
  {
    var slots := WeightBias(wb).slots;
    assert Infix(false) == "_";
    assert SlotEntries(prefix, false, slots[1..][1..]) == [];
    assert SlotEntries(prefix, false, slots[1..]) == [Entry(prefix + "_" + "bias", Param(wb.1, true))];
    assert SlotEntries(prefix, false, slots)
        == [Entry(prefix + "_" + "weight", Param(wb.0, true))] + SlotEntries(prefix, false, slots[1..]);
    var one := [WeightBias(wb)];
    assert one[1..] == [];
  }

  /** A container whose one learnable child sits among stateless ones contributes just that child's pair. */
  lemma OneLearnableChild<P>(prefix: string, pre: nat, wb: (P, P), post: nat)
    ensures ModuleEntries(prefix, StatelessRun(pre) + [WeightBias(wb)] + StatelessRun(post)) == WeightBiasEntries(prefix, wb)
  {
    var mid := StatelessRun(pre) + [WeightBias(wb)];
    ModuleEntriesAppend(prefix, mid, StatelessRun(post));
    ModuleEntriesAppend(prefix, StatelessRun(pre), [WeightBias(wb)]);
    StatelessNoEntries<P>(prefix, pre);
    StatelessNoEntries<P>(prefix, post);
    WeightBiasChild(prefix, wb);
  }

  /** Containers that each contribute one `weight`/`bias` pair give the keys `PairNames` of their prefixes. */
  lemma {:induction false} PairEntries<P>(named: seq<(string, Module<P>)>, wbs: seq<(P, P)>)
    requires |wbs| == |named|
    requires forall i :: 0 <= i < |named| ==>
               ModuleEntries(named[i].0, named[i].1.children) == WeightBiasEntries(named[i].0, wbs[i])
    ensures Names(AllEntries(named)) == PairNames(Prefixes(named))
    ensures forall e :: e in AllEntries(named) ==> e.param.requiresGrad
    decreases |named|
  {
    if |named| > 0 {
      PairEntries(named[1..], wbs[1..]);
      assert Prefixes(named)[1..] == Prefixes(named[1..]);
      NamesAppend(WeightBiasEntries(named[0].0, wbs[0]), AllEntries(named[1..]));
    }
  }

  lemma LayerPairNames()
    ensures PairNames(LayerNames) == BackboneNames
  {
    var ns := PairNames(LayerNames);
    assert ns[0] == "conv1" + "_" + "weight" == "conv1_weight";
    assert ns[1] == "conv1" + "_" + "bias" == "conv1_bias";
    assert ns[2] == "conv2" + "_" + "weight" == "conv2_weight";
    assert ns[3] == "conv2" + "_" + "bias" == "conv2_bias";
    assert ns[4] == "conv_loc1" + "_" + "weight" == "conv_loc1_weight";
    assert ns[5] == "conv_loc1" + "_" + "bias" == "conv_loc1_bias";
    assert ns[6] == "conv_loc2" + "_" + "weight" == "conv_loc2_weight";
    assert ns[7] == "conv_loc2" + "_" + "bias" == "conv_loc2_bias";
    assert ns[8] == "conv3" + "_" + "weight" == "conv3_weight";
    assert ns[9] == "conv3" + "_" + "bias" == "conv3_bias";
    assert ns[10] == "fc4" + "_" + "weight" == "fc4_weight";
    assert ns[11] == "fc4" + "_" + "bias" == "fc4_bias";
    assert ns[12] == "fc5" + "_" + "weight" == "fc5_weight";
    assert ns[13] == "fc5" + "_" + "bias" == "fc5_bias";
  }

  lemma BackboneEntries<P>(ws: seq<(P, P)>)
    requires |ws| == 7
    ensures Names(AllEntries(Backbone(ws))) == BackboneNames
    ensures forall e :: e in AllEntries(Backbone(ws)) ==> e.param.requiresGrad
  {
    var named := Backbone(ws);
    forall i | 0 <= i < 7
      ensures ModuleEntries(named[i].0, named[i].1.children) == WeightBiasEntries(named[i].0, ws[i])
    {
      OneLearnableChild(LayerNames[i], LayerShape[i].0, ws[i], LayerShape[i].1);
    }
    PairEntries(named, ws);
    assert Prefixes(named) == LayerNames;
    LayerPairNames();
  }

  function BranchPrefixes(k: nat): (ps: seq<string>)
    ensures |ps| == k
    ensures forall j :: 0 <= j < k ==> ps[j] == BranchPrefix(j)
  {
    seq(k, j requires 0 <= j < k => BranchPrefix(j))
  }

  lemma BranchEntries<P>(bs: seq<(P, P)>)
    ensures Names(AllEntries(NamedBranches(Branches(bs)))) == PairNames(BranchPrefixes(|bs|))
    ensures forall e :: e in AllEntries(NamedBranches(Branches(bs))) ==> e.param.requiresGrad
  {
    var named := NamedBranches(Branches(bs));
    forall k | 0 <= k < |bs|
      ensures ModuleEntries(named[k].0, named[k].1.children) == WeightBiasEntries(named[k].0, bs[k])
    {
      OneLearnableChild(named[k].0, 1, bs[k], 0);
    }
    PairEntries(named, bs);
    assert Prefixes(named) == BranchPrefixes(|bs|);
  }

  /** `fc6_<k>_<kind>` */
  function BranchParamName(k: nat, kind: string): string
  {
    BranchPrefix(k) + "_" + kind
  }

  /** `fc6_<a>_<x>` and `fc6_<b>_<y>` coincide only for the same branch and parameter kind. */
  lemma BranchParamNameInjective(a: nat, b: nat, x: string, y: string)
    requires x in ["weight", "bias"] && y in ["weight", "bias"]
    requires BranchParamName(a, x) == BranchParamName(b, y)
    ensures a == b && x == y
  {
    var s := BranchParamName(a, x);
    var da, db := Decimal(a), Decimal(b);
    assert s == "fc6_" + da + "_" + x;
    assert s == "fc6_" + db + "_" + y;
    SameDigitRun(s, da, db, x, y);
    assert da == s[4..4 + |da|] == db;
    DecimalInjective(a, b);
    assert x == s[5 + |da|..] == y;
  }

  /** The first position at or after `i` that does not hold a digit. */
  function FirstNonDigit(s: string, i: nat): (j: nat)
    requires i <= |s|
    ensures i <= j <= |s|
    decreases |s| - i
  {
    if i == |s| || !IsDigit(s[i]) then i else FirstNonDigit(s, i + 1)
  }

  lemma {:induction false} DigitRunEnd(d: string, x: string, i: nat)
    requires AllDigits(d)
    requires 4 <= i <= 4 + |d|
    ensures FirstNonDigit("fc6_" + d + "_" + x, i) == 4 + |d|
    decreases 4 + |d| - i
  {
    var s := "fc6_" + d + "_" + x;
    if i < 4 + |d| {
      assert s[i] == d[i - 4];
      DigitRunEnd(d, x, i + 1);
    } else {
      assert s[i] == '_';
    }
  }

  /** A run of digits ended by `_` has a single length. */
  lemma SameDigitRun(s: string, da: string, db: string, x: string, y: string)
    requires AllDigits(da) && AllDigits(db)
    requires s == "fc6_" + da + "_" + x
    requires s == "fc6_" + db + "_" + y
    ensures |da| == |db|
  {
    DigitRunEnd(da, x, 4);
    DigitRunEnd(db, y, 4);
  }

  lemma BranchNameAt(k: nat, i: nat)
    requires i < 2 * k
    ensures PairNames(BranchPrefixes(k))[i] == BranchParamName(i / 2, KindAt(i))
    ensures StartsWith(PairNames(BranchPrefixes(k))[i], "fc6_")
  {
    var j := i / 2;
    if i % 2 == 0 {
      assert i == 2 * j;
    } else {
      assert i == 2 * j + 1;
    }
    var n := PairNames(BranchPrefixes(k))[i];
    assert n == "fc6_" + (Decimal(j) + "_" + KindAt(i));
    assert n[..4] == "fc6_";
    assert StartsWith(n, "fc6_");
  }

  lemma BranchNamesDistinct(k: nat)
    ensures Distinct(PairNames(BranchPrefixes(k)))
    ensures forall n :: n in PairNames(BranchPrefixes(k)) ==> StartsWith(n, "fc6_")
    ensures forall i :: 0 <= i < 2 * k ==> StartsWith(PairNames(BranchPrefixes(k))[i], "fc6_")
  {
    var ns := PairNames(BranchPrefixes(k));
    forall i, j | 0 <= i < j < |ns|
      ensures ns[i] != ns[j]
    {
      BranchNameAt(k, i);
      BranchNameAt(k, j);
      if ns[i] == ns[j] {
        BranchParamNameInjective(i / 2, j / 2, KindAt(i), KindAt(j));
      }
    }
    forall n | n in ns
      ensures StartsWith(n, "fc6_")
    {
      var i :| 0 <= i < |ns| && ns[i] == n;
      BranchNameAt(k, i);
    }
    forall i | 0 <= i < 2 * k
      ensures StartsWith(ns[i], "fc6_")
    {
      BranchNameAt(k, i);
    }
  }

  /** The backbone keys are pairwise distinct, and none starts with `fc6_`, as every branch key does. */
  lemma BackboneNamesDistinct()
    ensures Distinct(BackboneNames)
    ensures forall i :: 0 <= i < |BackboneNames| ==> !StartsWith(BackboneNames[i], "fc6_")
  {
    forall i | 0 <= i < |BackboneNames|
      ensures !StartsWith(BackboneNames[i], "fc6_")
    {
      assert BackboneNames[i][2] != "fc6_"[2];
    }
  }

  /**
   * The network as built by `MDNet.__init__` never hits the duplicate-name
   * error, for any branch count: its registry lists the backbone keys in
   * layer order, then `fc6_<k>_weight`, `fc6_<k>_bias` for each branch, all
   * trainable.
   */
  lemma MDNetRegistry<P>(ws: seq<(P, P)>, bs: seq<(P, P)>)
    requires |ws| == 7
    ensures BuildParamDict(Backbone(ws), Branches(bs)).Ok?
    ensures Names(BuildParamDict(Backbone(ws), Branches(bs)).value) == BackboneNames + PairNames(BranchPrefixes(|bs|))
    ensures forall e :: e in BuildParamDict(Backbone(ws), Branches(bs)).value ==> e.param.requiresGrad
  {
    var back := AllEntries(Backbone(ws));
    var branch := AllEntries(NamedBranches(Branches(bs)));
    BackboneEntries(ws);
    BranchEntries(bs);
    BackboneNamesDistinct();
    BranchNamesDistinct(|bs|);
    NamesAppend(back, branch);
    var bn := PairNames(BranchPrefixes(|bs|));
    var ns := BackboneNames + bn;
    forall i, j | 0 <= i < j < |ns|
      ensures ns[i] != ns[j]
    {
      if i < |BackboneNames| && j >= |BackboneNames| {
        assert ns[j] == bn[j - |BackboneNames|];
        assert StartsWith(ns[j], "fc6_") && !StartsWith(ns[i], "fc6_");
      }
    }
    BuildParamDictSpec(Backbone(ws), Branches(bs));
  }

  /**
   * Selection is by plain string prefix: `fc6_1` also selects the parameters
   * of branch 10.
   */
  lemma PrefixSelectsLaterBranches()
    ensures StartsWith(BranchParamName(10, "weight"), BranchPrefix(1))
  {
    assert Decimal(10) == "10";
    assert Decimal(1) == "1";
  }
}
