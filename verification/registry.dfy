/**
 * The parameter registry of the network (`append_params`, `build_param_dict`,
 * `set_learnable_params`, `get_learnable_params`): an ordered map from
 * structured names to learnable parameters, each carrying its `requires_grad` flag.
 */
module Registry {
  import opened Wrappers
  import opened Text

  /** A learnable tensor (its data left abstract) and its `requires_grad` flag. */
  datatype Param<P> = Param(data: P, requiresGrad: bool)

  /** One entry of a module's `_parameters`; a slot holding `None` is skipped by the walk. */
  datatype Slot<P> = Slot(key: string, value: Option<Param<P>>)

  /** A leaf module (Conv2d, Linear, ReLU, BatchNorm2d, ...) with its direct parameters in order. */
  datatype Child<P> = Child(isBatchNorm: bool, slots: seq<Slot<P>>)

  /** A container module (an `nn.Sequential` layer or branch) and its children in order. */
  datatype Module<P> = Module(children: seq<Child<P>>)

  datatype Entry<P> = Entry(name: string, param: Param<P>)

  /** The registry: an ordered map, as a sequence of entries in insertion order. */
  type Params<P> = seq<Entry<P>>

  datatype RegistryError = DuplicateName(name: string)

  function Names<P>(ps: Params<P>): (ns: seq<string>)
    ensures |ns| == |ps|
    ensures forall i :: 0 <= i < |ps| ==> ns[i] == ps[i].name
  {
    seq(|ps|, i requires 0 <= i < |ps| => ps[i].name)
  }

  lemma NamesAppend<P>(a: Params<P>, b: Params<P>)
    ensures Names(a + b) == Names(a) + Names(b)
  {
  }

  /** The part between prefix and parameter key: `_bn_` for BatchNorm children, `_` otherwise. */
  function Infix(isBatchNorm: bool): string
  {
    if isBatchNorm then "_bn_" else "_"
  }

  /** The named entries one child contributes, in `_parameters` order, skipping `None` slots. */
  function SlotEntries<P>(prefix: string, isBatchNorm: bool, slots: seq<Slot<P>>): Params<P>
    decreases |slots|
  {
    if |slots| == 0 then []
    else
      var rest := SlotEntries(prefix, isBatchNorm, slots[1..]);
      match slots[0].value
      case None => rest
      case Some(p) => [Entry(prefix + Infix(isBatchNorm) + slots[0].key, p)] + rest
  }

  /** The named entries a container contributes under `prefix`, children in order. */
  function ModuleEntries<P>(prefix: string, children: seq<Child<P>>): Params<P>
    decreases |children|
  {
    if |children| == 0 then []
    else SlotEntries(prefix, children[0].isBatchNorm, children[0].slots) + ModuleEntries(prefix, children[1..])
  }

  /**
   * A child contributes exactly its non-`None` slots, each named
   * `prefix_key`, or `prefix_bn_key` for a BatchNorm child.
   */
  lemma {:induction false} SlotEntriesSpec<P>(prefix: string, isBatchNorm: bool, slots: seq<Slot<P>>)
    ensures |SlotEntries(prefix, isBatchNorm, slots)| <= |slots|
    ensures forall e :: e in SlotEntries(prefix, isBatchNorm, slots) ==>
              exists s :: s in slots && s.value == Some(e.param) && e.name == prefix + Infix(isBatchNorm) + s.key
    ensures forall s :: s in slots && s.value.Some? ==>
              Entry(prefix + Infix(isBatchNorm) + s.key, s.value.value) in SlotEntries(prefix, isBatchNorm, slots)
    decreases |slots|
  {
    if |slots| > 0 {
      SlotEntriesSpec(prefix, isBatchNorm, slots[1..]);
      assert forall s :: s in slots[1..] ==> s in slots;
      assert forall s :: s in slots ==> s == slots[0] || s in slots[1..];
    }
  }

  /** Every key a container contributes has the form `prefix_key` or `prefix_bn_key`. */
  lemma {:induction false} ModuleEntriesNamed<P>(prefix: string, children: seq<Child<P>>)
    ensures forall e :: e in ModuleEntries(prefix, children) ==>
              exists c, s :: c in children && s in c.slots && s.value == Some(e.param)
                             && e.name == prefix + Infix(c.isBatchNorm) + s.key
    decreases |children|
  {
    if |children| > 0 {
      SlotEntriesSpec(prefix, children[0].isBatchNorm, children[0].slots);
      ModuleEntriesNamed(prefix, children[1..]);
      assert forall c :: c in children[1..] ==> c in children;
    }
  }

  /**
   * Inserts entries one by one, as `params[name] = p` does, raising on the
   * first name already present instead of overwriting it.
   */
  function Insert<P>(params: Params<P>, es: Params<P>): Result<Params<P>, RegistryError>
    decreases |es|
  {
    if |es| == 0 then Ok(params)
    else if es[0].name in Names(params) then Err(DuplicateName(es[0].name))
    else Insert(params + [es[0]], es[1..])
  }

  /** `append_params(params, module, prefix)` */
  function AppendParams<P>(params: Params<P>, m: Module<P>, prefix: string): Result<Params<P>, RegistryError>
  {
    Insert(params, ModuleEntries(prefix, m.children))
  }

  /**
   * Inserting never overwrites: it succeeds exactly when all names stay distinct,
   * then appends the new entries after the old ones, and otherwise reports a
   * name that occurs twice.
   */
  lemma {:induction false} InsertSpec<P>(params: Params<P>, es: Params<P>)
    requires Distinct(Names(params))
    ensures Insert(params, es).Ok? <==> Distinct(Names(params + es))
    ensures Insert(params, es).Ok? ==> Insert(params, es).value == params + es
    ensures Insert(params, es).Err? ==>
              exists i, j :: 0 <= i < j < |params + es| && (params + es)[i].name == (params + es)[j].name
                             == Insert(params, es).error.name
    decreases |es|
  {
    if |es| == 0 {
      assert params + es == params;
    } else {
      var all := params + es;
      assert all == (params + [es[0]]) + es[1..];
      if es[0].name in Names(params) {
        var i :| 0 <= i < |params| && Names(params)[i] == es[0].name;
        assert all[i].name == all[|params|].name;
      } else {
        var p' := params + [es[0]];
        assert Distinct(Names(p'));
        InsertSpec(p', es[1..]);
      }
    }
  }

  /** Appends the containers of `named`, each under its own prefix, in order. */
  function AppendAll<P>(params: Params<P>, named: seq<(string, Module<P>)>): Result<Params<P>, RegistryError>
    decreases |named|
  {
    if |named| == 0 then Ok(params)
    else
      match AppendParams(params, named[0].1, named[0].0)
      case Err(e) => Err(e)
      case Ok(p') => AppendAll(p', named[1..])
  }

  /** Every entry of a sequence of named containers, in walk order. */
  function AllEntries<P>(named: seq<(string, Module<P>)>): Params<P>
    decreases |named|
  {
    if |named| == 0 then [] else ModuleEntries(named[0].0, named[0].1.children) + AllEntries(named[1..])
  }

  lemma AllEntriesAppend<P>(a: seq<(string, Module<P>)>, b: seq<(string, Module<P>)>)
    ensures AllEntries(a + b) == AllEntries(a) + AllEntries(b)
    decreases |a|
  {
    if |a| == 0 {
      assert a + b == b;
    } else {
      assert (a + b)[0] == a[0];
      assert (a + b)[1..] == a[1..] + b;
      AllEntriesAppend(a[1..], b);
    }
  }

  /** Dropping entries from the end keeps names distinct. */
  lemma DistinctOfAppend<P>(a: Params<P>, b: Params<P>)
    requires Distinct(Names(a + b))
    ensures Distinct(Names(a))
  {
    forall i, j | 0 <= i < j < |a|
      ensures Names(a)[i] != Names(a)[j]
    {
      assert Names(a + b)[i] == Names(a)[i];
      assert Names(a + b)[j] == Names(a)[j];
    }
  }

  /** The walk over several containers succeeds exactly when all names are distinct, and keeps walk order. */
  lemma {:induction false} AppendAllSpec<P>(params: Params<P>, named: seq<(string, Module<P>)>)
    requires Distinct(Names(params))
    ensures AppendAll(params, named).Ok? <==> Distinct(Names(params + AllEntries(named)))
    ensures AppendAll(params, named).Ok? ==> AppendAll(params, named).value == params + AllEntries(named)
    decreases |named|
  {
    if |named| == 0 {
      assert params + AllEntries(named) == params;
    } else {
      var es := ModuleEntries(named[0].0, named[0].1.children);
      var rest := AllEntries(named[1..]);
      InsertSpec(params, es);
      assert params + AllEntries(named) == (params + es) + rest;
      if Insert(params, es).Ok? {
        AppendAllSpec(params + es, named[1..]);
      } else if Distinct(Names((params + es) + rest)) {
        DistinctOfAppend(params + es, rest);
      }
    }
  }

  /** The prefix of branch `k`: `'fc6_%d' % k`. */
  function BranchPrefix(k: nat): string
  {
    "fc6_" + Decimal(k)
  }

  function NamedBranches<P>(branches: seq<Module<P>>): (named: seq<(string, Module<P>)>)
    ensures |named| == |branches|
    ensures forall k :: 0 <= k < |branches| ==> named[k] == (BranchPrefix(k), branches[k])
  {
    seq(|branches|, k requires 0 <= k < |branches| => (BranchPrefix(k), branches[k]))
  }

  /** `build_param_dict`: the backbone layers in order, then the branches under `fc6_<k>`. */
  function BuildParamDict<P>(layers: seq<(string, Module<P>)>, branches: seq<Module<P>>): Result<Params<P>, RegistryError>
  {
    AppendAll([], layers + NamedBranches(branches))
  }

  /**
   * The registry build raises exactly when two parameters resolve to the same
   * name; on success it holds every backbone entry, in layer order, followed by
   * every branch entry, in branch order.
   */
  lemma BuildParamDictSpec<P>(layers: seq<(string, Module<P>)>, branches: seq<Module<P>>)
    ensures BuildParamDict(layers, branches).Ok?
        <==> Distinct(Names(AllEntries(layers) + AllEntries(NamedBranches(branches))))
    ensures BuildParamDict(layers, branches).Ok? ==>
              BuildParamDict(layers, branches).value == AllEntries(layers) + AllEntries(NamedBranches(branches))
  {
    var empty: Params<P> := [];
    var named := layers + NamedBranches(branches);
    var all := AllEntries(layers) + AllEntries(NamedBranches(branches));
    assert Distinct(Names(empty));
    AppendAllSpec(empty, named);
    AllEntriesAppend(layers, NamedBranches(branches));
    assert empty + AllEntries(named) == all;
    assert BuildParamDict(layers, branches) == AppendAll(empty, named);
  }

  /** `any([name.startswith(l) for l in layers])` */
  function AnyPrefix(name: string, layers: seq<string>): (b: bool)
    ensures b <==> exists l :: l in layers && StartsWith(name, l)
    decreases |layers|
  {
    if |layers| == 0 then false
    else
      assert forall l :: l in layers <==> l == layers[0] || l in layers[1..];
      StartsWith(name, layers[0]) || AnyPrefix(name, layers[1..])
  }

  /**
   * `set_learnable_params(layers)`: every parameter becomes trainable iff some
   * selected prefix starts its name; names, data and order stay as they were.
   */
  function SetLearnable<P>(params: Params<P>, layers: seq<string>): (r: Params<P>)
    ensures Names(r) == Names(params)
    ensures forall i :: 0 <= i < |r| ==> r[i].param.data == params[i].param.data
    ensures forall i :: 0 <= i < |r| ==>
              (r[i].param.requiresGrad <==> exists l :: l in layers && StartsWith(params[i].name, l))
  {
    seq(|params|, i requires 0 <= i < |params| =>
      Entry(params[i].name, Param(params[i].param.data, AnyPrefix(params[i].name, layers))))
  }

  /** `get_learnable_params()`: the trainable entries, in registry order. */
  function GetLearnable<P>(params: Params<P>): (r: Params<P>)
    ensures |r| <= |params|
    ensures forall e :: e in r ==> e in params && e.param.requiresGrad
    ensures forall e :: e in params && e.param.requiresGrad ==> e in r
    decreases |params|
  {
    if |params| == 0 then []
    else
      var rest := GetLearnable(params[1..]);
      if params[0].param.requiresGrad then [params[0]] + rest else rest
  }

  /** The positions, from `from` on, of the entries flagged trainable, in increasing order. */
  ghost function TrainableIndices<P>(params: Params<P>, from: nat): (idx: seq<nat>)
    requires from <= |params|
    ensures forall a :: 0 <= a < |idx| ==> from <= idx[a] < |params|
    decreases |params| - from
  {
    if from == |params| then []
    else (if params[from].param.requiresGrad then [from] else []) + TrainableIndices(params, from + 1)
  }

  lemma {:induction false} TrainableIndicesSpec<P>(params: Params<P>, from: nat)
    requires from <= |params|
    ensures forall i :: i in TrainableIndices(params, from) <==> from <= i < |params| && params[i].param.requiresGrad
    ensures forall a, b :: 0 <= a < b < |TrainableIndices(params, from)| ==>
              TrainableIndices(params, from)[a] < TrainableIndices(params, from)[b]
    decreases |params| - from
  {
    if from < |params| {
      TrainableIndicesSpec(params, from + 1);
    }
  }

  /** The entries of `params` at the positions `idx`, in the order of `idx`. */
  ghost function Pick<P>(params: Params<P>, idx: seq<nat>): Params<P>
    requires forall a :: 0 <= a < |idx| ==> idx[a] < |params|
    decreases |idx|
  {
    if |idx| == 0 then [] else [params[idx[0]]] + Pick(params, idx[1..])
  }

  lemma {:induction false} GetLearnablePicks<P>(params: Params<P>, from: nat)
    requires from <= |params|
    ensures GetLearnable(params[from..]) == Pick(params, TrainableIndices(params, from))
    decreases |params| - from
  {
    if from < |params| {
      GetLearnablePicks(params, from + 1);
      assert params[from..][0] == params[from];
      assert params[from..][1..] == params[from + 1..];
      var idx := TrainableIndices(params, from);
      if params[from].param.requiresGrad {
        assert idx[0] == from && idx[1..] == TrainableIndices(params, from + 1);
      } else {
        assert idx == TrainableIndices(params, from + 1);
      }
    }
  }

  /**
   * `get_learnable_params` picks exactly the trainable positions, in increasing
   * order: it is the registry restricted to its flagged entries, order kept.
   */
  lemma GetLearnableIsOrderedRestriction<P>(params: Params<P>)
    ensures var idx := TrainableIndices(params, 0);
            && (forall i :: i in idx <==> 0 <= i < |params| && params[i].param.requiresGrad)
            && (forall a, b :: 0 <= a < b < |idx| ==> idx[a] < idx[b])
            && GetLearnable(params) == Pick(params, idx)
  {
    TrainableIndicesSpec(params, 0);
    GetLearnablePicks(params, 0);
    assert params[0..] == params;
  }

  lemma {:induction false} NoneFlagged<P>(params: Params<P>)
    requires forall i :: 0 <= i < |params| ==> !params[i].param.requiresGrad
    ensures GetLearnable(params) == []
    decreases |params|
  {
    if |params| > 0 {
      NoneFlagged(params[1..]);
    }
  }

  /** `set_learnable_params([])` freezes every parameter, so nothing is learnable. */
  lemma FreezeAll<P>(params: Params<P>)
    ensures GetLearnable(SetLearnable(params, [])) == []
  {
    NoneFlagged(SetLearnable(params, []));
  }

  /** After selecting `layers`, the learnable set is exactly the entries some selected prefix starts. */
  lemma LearnableAfterSelect<P>(params: Params<P>, layers: seq<string>, name: string)
    ensures name in Names(GetLearnable(SetLearnable(params, layers)))
        <==> name in Names(params) && exists l :: l in layers && StartsWith(name, l)
  {
    var r := SetLearnable(params, layers);
    var g := GetLearnable(r);
    if name in Names(g) {
      var j :| 0 <= j < |g| && g[j].name == name;
      assert g[j] in r;
      var i :| 0 <= i < |r| && r[i] == g[j];
      assert Names(r)[i] == name;
    }
    if name in Names(params) && exists l :: l in layers && StartsWith(name, l) {
      var i :| 0 <= i < |params| && Names(params)[i] == name;
      assert r[i] in r;
      assert r[i] in g;
      var j :| 0 <= j < |g| && g[j] == r[i];
      assert Names(g)[j] == name;
    }
  }
}
