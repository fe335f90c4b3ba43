# MDNet network core in Dafny

A functional model of the network module of py-MDNet (`modules/model.py`), the
multi-domain convolutional tracker with an affine spatial-transformer head.
It covers:

- the **parameter registry**:
  - `append_params` names every parameter `<layer>_<kind>` or, for a
    BatchNorm child, `<layer>_bn_<kind>`.
  - `build_param_dict` fills the registry from the seven backbone layers and
    then the `fc6_<k>` branches.
  - `set_learnable_params` flags a parameter trainable when some selected
    prefix starts its name.
  - `get_learnable_params` returns the flagged entries.
- the **partial forward pass** `MDNet.forward(x, k, in_layer, out_layer)`:
  - It walks the named backbone layers, running from `in_layer` on.
  - It returns after `out_layer`, or falls through to branch `k`.
  - It includes the special cases for `conv_loc1`, `conv_loc2` and `conv3`.
- the **LRN window sum** of `LRN.forward`: five zero-padded shifted copies of
  the squares, summed and sliced `[2:-2]`.
- the **MatConvNet import** `load_mat_model` and the **zero initialisation** of
  `conv_loc2`.
- the **accuracy counts** of `Accuracy`.

Modules:

| file | module | contents |
|---|---|---|
| wrappers.dfy | `Wrappers` | `Option`, `Result` |
| text.dfy | `Text` | string prefix, distinctness, `'%d'` rendering and its parser |
| registry.dfy | `Registry` | the registry as an ordered sequence of name/parameter entries |
| topology.dfy | `Topology` | the concrete MDNet layer and branch structure and its registry |
| forward.dfy | `Forward` | `forward` over abstract tensors `T`; layers are functions `T -> T` |
| network.dfy | `Network` | `forward` on the seven named MDNet layers |
| tensor.dfy | `Tensor` | nested-sequence arrays that carry their shape |
| lrn.dfy | `Lrn` | `LRN.forward` |
| weights.dfy | `Weights` | `conv_loc2` zero initialisation, `load_mat_model` |
| metrics.dfy | `Metrics` | `Accuracy` |

How the model represents Python state:

- Python's `OrderedDict` of parameters is a sequence of entries in insertion
  order.
- A parameter's `requires_grad` is a flag carried by the entry.
- The local `p` of `forward` may be unbound. Reading it then raises
  `UnboundLocalError`; the model returns `Err(UnboundTheta)`.
- The implicit `return None` at the end of `forward` is `Ok(None)`.
- `self.branches[k]` follows `nn.ModuleList` indexing: `k` in `[-K, K)`, with
  negative `k` counting from the end, and `IndexError` otherwise.

Neither `forward` nor `load_mat_model` validates its arguments:

- `forward` does not reject an unknown `in_layer`: it runs no backbone layer
  and applies the branch to the input.
- `forward` does not reject an `in_layer` that comes after `out_layer`: it runs
  to the end of the backbone, applies the branch and returns `None`. With the
  transformer on, an `in_layer` of `conv_loc2` or `conv3` instead raises
  `UnboundLocalError`, whatever `out_layer` is.
- A branch index outside `[-K, K)` raises `IndexError` when the pass reaches the branch.
- `load_mat_model` does not compare the imported shapes with the layers. It
  installs whatever arrays it reads.
- `load_mat_model` writes as it goes: when an entry turns out unusable, the
  layers written by earlier iterations keep their new arrays.

## Model

| member | source | states |
|---|---|---|
| Registry.SlotEntriesSpec | modules/model.py:15-22 | a child contributes exactly its non-`None` parameters, each named `prefix_kind`, or `prefix_bn_kind` for BatchNorm |
| Registry.ModuleEntriesNamed | modules/model.py:14-22 | every key a container contributes is `prefix + '_' + kind` or `prefix + '_bn_' + kind` for one of its children's parameters |
| Registry.InsertSpec | modules/model.py:24-27 | insertion succeeds iff all names stay distinct. On success the new entries follow the old ones in order; otherwise the error names a parameter name that occurs twice (no overwrite) |
| Registry.AppendAllSpec | modules/model.py:134-137 | appending named containers in turn succeeds iff all resulting names are distinct, and yields the old registry followed by each container's entries in order |
| Registry.BuildParamDictSpec | modules/model.py:132-137 | `build_param_dict` raises iff two parameters resolve to the same name; otherwise the registry is all backbone entries in layer order, then all branch entries in branch order |
| Registry.AnyPrefix | modules/model.py:141 | true iff some selected layer name is a string prefix of the key |
| Registry.SetLearnable | modules/model.py:139-144 | names, order and data are kept; a parameter is trainable iff some selected prefix starts its name |
| Registry.GetLearnable | modules/model.py:146-151 | the result contains every flagged entry and only flagged entries of the registry |
| Registry.GetLearnableIsOrderedRestriction | modules/model.py:146-151 | the result is the registry restricted to its flagged positions, taken in increasing order |
| Registry.FreezeAll | modules/model.py:139-151 | selecting no prefix leaves no learnable parameter |
| Registry.LearnableAfterSelect | modules/model.py:139-151 | after `set_learnable_params(L)`, a name is learnable iff it is a registry key and some `l` in `L` is a prefix of it |
| Text.ParseDecimalOfDecimal | modules/model.py:137 | the decimal rendering of the branch index `'%d' % k` parses back to `k` |
| Text.DecimalInjective | modules/model.py:137 | distinct branch indices render to distinct digit strings |
| Topology.BranchParamNameInjective | modules/model.py:137 | `fc6_<k>_<kind>` determines both `k` and `kind` |
| Topology.BranchNamesDistinct | modules/model.py:136-137 | the branch keys `fc6_<k>_weight`, `fc6_<k>_bias` for `k < K` are pairwise distinct |
| Topology.BackboneNamesDistinct | modules/model.py:97-116 | the fourteen backbone keys are pairwise distinct and none looks like a branch key |
| Topology.MDNetRegistry | modules/model.py:132-137 | for the MDNet topology the build never raises: the keys are `conv1_weight`, …, `fc5_bias`, then `fc6_<k>_weight`, `fc6_<k>_bias` for each branch, and every parameter starts trainable |
| Topology.PrefixSelectsLaterBranches | modules/model.py:141 | selection is plain string prefix: prefix `fc6_1` also matches `fc6_10_weight` |
| Forward.Step | modules/model.py:161-175 | a layer raises `UnboundLocalError` iff the transformer is on and `p` is unbound at `conv_loc2` or `conv3` (the only failure a layer has in the model); the regression layers never change `x`; other layers never change `p` |
| Forward.Conv3Flattens | modules/model.py:169-173 | the activation after `conv3` is always a flatten result |
| Forward.Head | modules/model.py:180-184 | the branch fails iff `k` is outside `[-K, K)`; `fc6` returns the output of branch `k` (negative `k` counting from the end), `fc6_softmax` its softmax, and any other `out_layer` `None` |
| Forward.RunMatchesReference | modules/model.py:153-184 | `forward` equals the reference. It runs the contiguous slice from the first `in_layer` through the first `out_layer` after it; when there is no such `out_layer`, it runs to the end and applies the branch |
| Forward.RunSlice | modules/model.py:157-178 | with `in_layer` at `a` and the first `out_layer` after it at `b`, `forward` is the pipeline over layers `a..b` with no branch |
| Forward.RunToBranch | modules/model.py:157-184 | when `out_layer` does not follow `in_layer`, `forward` runs the rest of the backbone and then the branch |
| Forward.UnknownInLayer | modules/model.py:157-160 | an unknown `in_layer` runs no backbone layer; the input goes straight to the branch |
| Forward.UnknownOutLayer | modules/model.py:177-184 | an `out_layer` that is neither a layer nor a score marker returns `None` when it does not fail |
| Forward.StnOffIgnoresLoc | modules/model.py:161-167 | with `en_stn` false, and neither `in_layer` nor `out_layer` naming `conv_loc1` or `conv_loc2`, `forward` equals the same traversal with those two layers removed |
| Network.ContiguousRun | modules/model.py:157-178 | on MDNet's layers, `forward(in_layer=L[a], out_layer=L[b])` with `a <= b` is exactly layers `a..b` and no branch |
| Network.OutBeforeIn | modules/model.py:157-184 | when `out_layer` precedes `in_layer`, `forward` returns `None` when it does not fail |
| Network.Conv1ToConv2 | modules/model.py:157-178 | `forward(x, in_layer='conv1', out_layer='conv2')` is conv2 applied after conv1 |
| Network.DefaultForward | modules/model.py:153-182 | the default call runs all seven layers, then branch `k`, returning its raw scores |
| Network.StnStartAfterLoc1Fails | modules/model.py:165-171 | with the transformer on, starting at `conv_loc2` or `conv3` reads `p` before it is assigned and fails, for every `out_layer` and `k` |
| Lrn.ChannelWindow | modules/model.py:79-86 | the padded five-copy sum sliced `[2:-2]` equals, at channel `c`, the sum of squares over channels `max(0,c-2) .. min(C-1,c+2)` |
| Lrn.SingleChannel | modules/model.py:79-86 | with one channel the window sum is the square of the input |
| Lrn.WindowCovers | modules/model.py:79-86 | the window sum at `c` is at least the square of channel `c` |
| Lrn.Normalise | modules/model.py:76-88 | the output has the shape of the input |
| Lrn.NormaliseAt | modules/model.py:76-88 | every output entry is the input entry times the power of `2 + 1e-4 *` its clipped channel-window sum of squares |
| Lrn.NormaliseSingleChannel | modules/model.py:76-88 | with one channel every output entry is `x * (2 + 1e-4 * x^2)^-0.75`, the power being a parameter |
| Lrn.SumSqWindow | modules/model.py:76-87 | every entry of `x_sumsq` of a 4-D input is its clipped channel window sum of squares, so the normaliser's base is at least 2 |
| Lrn.SingleChannelTensor | modules/model.py:76-87 | for `C = 1`, `x_sumsq` is the elementwise square of `x` |
| Weights.ZeroInit | modules/model.py:117-119 | zero initialisation changes only `conv_loc2` |
| Weights.ZeroInitIsIdentity | modules/model.py:117-119 | after zero initialisation `conv_loc2` has zero `6x64x3x3` filters, outputs `[1,0,0,0,1,0]` whatever its input, and that `theta` maps every grid point to itself |
| Weights.Permute | modules/model.py:201 | `np.transpose(w,(3,2,0,1))` has shape `(O,I,H,W)` and `installed[o][i][h][w] == src[h][w][i][o]` |
| Weights.PermuteRoundTrip | modules/model.py:201 | the inverse permutation recovers the MatConvNet array exactly |
| Weights.FirstColumn | modules/model.py:202 | `bias[:,0]` has one entry per row, `bias[o] == src_bias[o][0]` |
| Weights.FirstProblem | modules/model.py:196-197 | the first iteration whose entry is unusable: every earlier one is usable |
| Weights.LoadMatSpec | modules/model.py:191-202 | the import raises iff one of entries 0, 4, 8 is missing, holds no weights or has no bias column, naming the first such entry. Every earlier iteration has written its layer (0, 1, 4) from its entry; the failing one leaves its new weight only when the bias lacked a column; every other layer is unchanged |
| Weights.LoadMatSuccess | modules/model.py:196-202 | a successful import writes layers 0, 1, 4 from entries 0, 4, 8 and leaves every other layer unchanged |
| Weights.FirstBiasFailureKeepsWeight | modules/model.py:197-202 | when entry 0 has an empty bias, the import raises with `conv1`'s weight already replaced and its bias kept |
| Weights.LoadMatIdempotent | modules/model.py:196-202 | importing the same file twice equals importing it once, whether the import finishes or raises |
| Weights.LoadMatReadsOnlySources | modules/model.py:196-197 | for two lists of the same length (any length), entries other than 0, 4, 8 do not affect the import |
| Weights.LoadKeepsZeroInit | modules/model.py:196-202 | the import never touches `conv_loc2`, whether it finishes or raises, so its zero initialisation survives |
| Metrics.HitCount | modules/model.py:220-221 | the number of set mask entries is between 0 and the number of rows |
| Metrics.ByteSum | modules/model.py:220-221 | the `uint8` sum of the mask is below 256 and at most the number of rows |
| Metrics.CountIsHits | modules/model.py:220-221 | the mask count is the number of rows with `s[1] > s[0]` (positives) or `s[1] < s[0]` (negatives), and the `uint8` sum is that number modulo 256 |
| Metrics.ByteSumExact | modules/model.py:220-221 | below 256 rows the `uint8` sum is the exact number of correct rows |
| Metrics.CountsPartitionRows | modules/model.py:220-221 | positive hits, negative hits, ties and rows with a NaN score add up to the row count, so a tie or a NaN row is correct for neither rule |
| Metrics.SmallBatch | modules/model.py:220-221 | one won row and one tied row give one positive hit; one won and one lost row give one negative hit; a NaN row is a hit for neither |
| Metrics.Rate | modules/model.py:223-224 | each rate lies in `[0, 1]` and is 0 iff the `uint8` count is 0 |
| Metrics.RateZeroIffNoHits | modules/model.py:220-224 | below 256 rows a rate is 0 iff no row is correct |
| Metrics.ByteSumWraps | modules/model.py:220-224 | 256 correctly classified positive rows report a rate of 0: the `uint8` sum wraps |
| Metrics.Accuracy | modules/model.py:217-226 | both returned rates lie in `[0, 1]` |

## Left out

- Tensors in `forward` are an abstract type; `stn`, the view to `(N,2,3)`, the
  flatten and `F.softmax` are uninterpreted functions.
- Convolution, linear, ReLU, pooling and dropout are uninterpreted layer
  functions; dropout's training-mode random mask is folded into that fixed
  function. The one exception is the single convolution output used to show
  the zero-initialised head outputs its bias.
- Forward.Step: shape errors are not modelled; the layers, `stn`, the view to `(N,2,3)`
  and the flatten are total, so calls the code would reject with a
  `RuntimeError` are assumed to succeed (`p.view(x.size(0), 2, 3)` at
  modules/model.py:168 when `conv_loc2` does not yield six values per
  sample, or `in_layer='fc4'` on a 4-D batch). `Err` covers only the
  `UnboundLocalError` of `p` and the branch `IndexError`.
- The `AffineSpatialTransform` grid (`linspace`) and `grid_sample` are left out:
  floating-point sampling inside the library.
- Lrn.Normalise: the power `(·)^-0.75` is a parameter. Reals stand in for
  32-bit floats throughout, so rounding is not modelled.
- Metrics.Rate: the division by `rows + 1e-8` is done in reals. In float32,
  `rows + 1e-8` rounds to `rows`, so the bound `rate <= 1` is all that carries over.
- The `uint8` width of the mask sum follows the PyTorch releases the code is
  written for (`Variable`, `.data[0]`); later releases sum a `uint8` tensor as
  `int64`, which `Metrics.HitCount` models.
- Registry.BuildParamDictSpec: when a name clashes, the code leaves
  `self.params` holding the entries inserted before the clash; the model
  reports only the clashing name. MDNet's own layers never clash
  (`Topology.MDNetRegistry`).
- Registry.SetLearnable: `requires_grad` lives on the parameter objects the
  modules share with the registry. The model keeps the flag on the registry
  entries, so a later `build_param_dict` over the modules does not see flags
  set earlier.
- `BinaryLoss` (`log_softmax`) and `Precision` (`torch.topk`, whose
  tie-breaking is library-defined) are floating-point and library numerics.
- `scipy.io.loadmat`, `torch.load`, `load_model` and `load_state_dict` are file
  I/O and framework internals. The import starts from the already-read
  `layers` list.
- MatConvNet entries are taken as proper 4-D filter and 2-D bias arrays.
  MATLAB's dropping of trailing singleton dimensions is not modelled.
- The model-file extension dispatch at modules/model.py:123-129 is glue.
- `tracking/` scripts (config listing, evaluation, plotting) are I/O around the
  network.
