# SgCG contrastive loss: a verified model of its discrete skeleton

SgCG trains a semantic-segmentation network under domain shift. Its loss module, `code/SgCG.py`, has three contrastive losses:
- against class prototypes (`proto_contrastive`);
- against class distributions (`dist_contrastive`);
- against memory banks of stored exemplars (`bank_contrastive`).

A facade object, `ContrastiveLoss`, chooses one of them and applies it. The floating-point parts (cross-entropy, softmax, similarities) sit inside a discrete skeleton. This project models that skeleton in Dafny and proves its properties.

- **Common** (`common.dfy`) holds the shared values:
  - optional values;
  - results carrying the exception the Python code raises;
  - loss scalars, which are exact reals or `NonFinite` (NaN or an infinity).
- **Reduction** (`reduction.dfy`) covers `reduce_loss`, `weight_reduce_loss` and the `weighted_loss` wrapper:
  - tensors of rank one and two, with PyTorch broadcasting of the weight;
  - the reduction-name lookup;
  - the average-factor rules;
  - the `weighted_loss` docstring example, and a worked reduction example (loss [1, 2, 3], weight [1, 0, 1]).
- **Downscale** (`downscale.dfy`) covers `downscale_label_ratio`:
  - it works on `array4<int>` label maps;
  - masked assignments are done in place on fresh copies;
  - pooling is modelled as integer occurrence counts per block.

  The output cell is specified for *any* arg-max class, because the tie-break of the channel maximum is not fixed.
- **Align** (`align.dfy`) covers `contrast_preparations`:
  - the channel-last raster flatten of a `(B, C, H, W)` feature map;
  - the mask flattened in the same order;
  - the lockstep removal of ignored tokens.
- **Variants** (`variants.dfy`) covers the three variants around opaque per-token losses:
  - the order of their checks;
  - the zero loss for an empty batch;
  - weighted reduction followed by the regulariser.

  It also has the bank variant's per-class grouping loop, as a method proved against a specification function.
- **Facade** (`facade.dfy`) covers two things:
  - `get_class_weight`'s choice of loader by file extension;
  - `ContrastiveLoss` as a class with a mutable `lossWeight` field. Construction checks the flags and selects the variant. `Forward` resolves the reduction, broadcasts the loss weight over the branches of a list input and keeps it, and sums the weighted branch losses. A list input with class weights fails before the branch loop, as the code does (see Findings).

Four behaviours of the code are easy to miss:
- With `avg_factor`, `weight_reduce_loss` raises for every reduction other than `mean` and `none`. That includes `elementwise_mean` and unknown names, although the error message at code/SgCG.py:98 names only `sum` (code/SgCG.py:94-98).
- On a single-tensor call after a list call, the stored weight list is multiplied by a loss, which Python refuses (code/SgCG.py:518). The model returns `TypeError` there.
- The bank variant drops tokens whose label is not a class `0 .. num_classes-1`, and its output length counts only in-range labels (code/SgCG.py:393-395).
- A feature map without channels cannot be reshaped into token rows (`view(-1, 0)` at code/SgCG.py:185 has no size to infer), so alignment fails with a shape error.

## Model

| member | source | states |
|---|---|---|
| Reduction.Mean | code/SgCG.py:65 | the mean is finite exactly when the tensor has elements, and mean × element count = total |
| Reduction.ReductionEnum | code/SgCG.py:60-61 | `none`, `mean`/`elementwise_mean` and `sum` map to their reductions, each in both directions; any other name is `InvalidReduction` |
| Reduction.ReduceLoss | code/SgCG.py:50-67 | fails exactly on unknown names; `none` returns the tensor unchanged, `sum` its total, `mean` and `elementwise_mean` a scalar finite iff non-empty with mean × count = total |
| Reduction.BroadcastDim | code/SgCG.py:87 | two sizes broadcast iff equal or one is 1, and the result agrees with every size other than 1 |
| Reduction.Multiply | code/SgCG.py:87 | `loss * weight` succeeds iff every dimension broadcasts (equal sizes or one of them 1), otherwise `ShapeMismatch`; the product keeps the rank, is well formed and has the broadcast sizes |
| Reduction.ApplyWeight | code/SgCG.py:83-87 | no weight leaves the loss as is; a rank mismatch or a column count other than 1 or the loss's fails the assertion |
| Reduction.WeightReduceLoss | code/SgCG.py:70-99 | weighting errors propagate; without avg_factor it is `reduce_loss`; with avg_factor it fails iff the reduction is neither `mean` nor `none` (`AvgFactorMisuse`); `mean` gives result × avg_factor = weighted total (finite iff avg_factor ≠ 0); `none` gives the weighted tensor |
| Reduction.WeightedLoss | code/SgCG.py:133-143 | the wrapper is `weight_reduce_loss` of the element-wise loss with the caller's weight, reduction and avg_factor, so it inherits every `WeightReduceLoss` property; without weight or avg_factor it is `reduce_loss` of the element-wise loss |
| Reduction.OneElementWeightScales | code/SgCG.py:83-87 | a one-element weight scales every element and the total by that weight |
| Reduction.SameLengthWeightIsPointwise | code/SgCG.py:87 | a weight of the loss's length multiplies position by position |
| Reduction.UnitWeightIsNeutral | code/SgCG.py:83-87 | a weight of all ones leaves the loss unchanged |
| Reduction.ColumnWeightBroadcasts | code/SgCG.py:85-87 | a single-column matrix weight multiplies every element of its row |
| Reduction.SameShapeMatrixWeightIsPointwise | code/SgCG.py:85-87 | a matrix weight of the loss's own shape multiplies element by element |
| Reduction.AvgFactorOnlyWithMeanOrNone | code/SgCG.py:93-98 | with avg_factor, every reduction other than `mean` and `none` fails |
| Reduction.AvgFactorIgnoredByNone | code/SgCG.py:96-99 | with `none`, the result is the same with or without avg_factor |
| Reduction.AvgFactorOfElementCountIsMean | code/SgCG.py:93-95 | avg_factor equal to the element count gives exactly the true mean |
| Reduction.L1Loss | code/SgCG.py:116-117 | the element-wise L1 loss has one entry per prediction, entry i being |pred[i] − target[i]| ≥ 0 |
| Reduction.L1DocExample | code/SgCG.py:119-130 | docstring values: mean 4/3, weighted mean 1, `none` gives [1, 1, 2], weighted with avg_factor 2 gives 1.5 |
| Reduction.WeightedReductionExample | code/SgCG.py:82-98 | loss [1,2,3], weight [1,0,1]: mean 4/3, avg_factor 2 gives 2, `none` gives [1,0,3], `sum` with avg_factor fails |
| Downscale.ArgMaxUpTo | code/SgCG.py:167 | the returned channel is a most frequent class among channels 0..m |
| Downscale.AdmissibleInRange | code/SgCG.py:167-169 | every admissible cell value is a class in [0, n) or the ignore index |
| Downscale.AdmissibleClassIsPure | code/SgCG.py:167-169 | a non-ignore cell value is a real class that is an arg-max with share ≥ min_ratio |
| Downscale.UniformBlock | code/SgCG.py:163-169 | a block filled with one class c (min_ratio ≤ 1) admits exactly the value c |
| Downscale.EvenSplitIsIgnored | code/SgCG.py:163-169 | a block split evenly between two classes with min_ratio > 1/2 admits exactly the ignore index |
| Downscale.BlockRowsRelabelled | code/SgCG.py:161-162 | reading a block of the relabelled copy equals relabelling the block of the input |
| Downscale.DownscaledCellsInRange | code/SgCG.py:168-170 | every cell of a downscaled map is a class in [0, n) or the ignore index |
| Downscale.Clone | code/SgCG.py:161 | the copy is fresh with the same shape and labels |
| Downscale.ReplaceWhereEqual | code/SgCG.py:162 | `a[a == target] = v`: exactly the cells equal to target become v, the rest keep their value |
| Downscale.ReplaceWhereBelow | code/SgCG.py:169 | `a[ratio < min_ratio] = v`: exactly the cells whose ratio is below the threshold become v |
| Downscale.Pool | code/SgCG.py:163-167 | shape (B, 1, H div s, W div s); each cell holds the arg-max channel of its s×s block and that channel's share |
| Downscale.PooledCellAdmissible | code/SgCG.py:159-169 | resolving the pooled arg-max of the relabelled copy yields an admissible value for the input block |
| Downscale.DownscaleLabelRatio | code/SgCG.py:148-171 | errors in order (scale < 1, channels ≠ 1, label outside the one-hot range, map smaller than a block), except that scale 1 returns an equal fresh copy before the later checks; the input is unchanged; otherwise a fresh (B, 1, H div s, W div s) map whose every cell is admissible |
| Align.TokensLength | code/SgCG.py:184-185 | the flatten has B·H·W token rows |
| Align.TokenAt | code/SgCG.py:184-185 | token (b·H + h)·W + w is the channel vector of pixel (b, h, w) |
| Align.FlatMaskLength | code/SgCG.py:188 | the flattened mask has B·H·W labels |
| Align.FlatMaskAt | code/SgCG.py:188 | label (b·H + h)·W + w is mask[b][h][w], the same order as the tokens |
| Align.KeptPositions | code/SgCG.py:194 | the kept positions are in range, increasing, not ignored, and include every non-ignored position |
| Align.Keep | code/SgCG.py:194-196 | the selected rows and labels have equal length |
| Align.KeepCorrespondence | code/SgCG.py:193-197 | surviving entry t is the row and label at the t-th kept position |
| Align.Prepare | code/SgCG.py:174-197 | a map without channels fails the reshape (`ShapeMismatch`); otherwise it fails the assertion iff the token counts differ; on success rows and labels pair up and none is ignored |
| Align.PrepareKeepsNonIgnored | code/SgCG.py:184-197 | the survivors are exactly the non-ignored raster tokens, in order, each with its own label |
| Align.NothingKeptWhenAllIgnored | code/SgCG.py:194-196 | labels that are all ignored keep no position |
| Align.AllIgnoredLeavesNothing | code/SgCG.py:193-197 | an all-ignored mask of matching batch size, over a map with channels, leaves no tokens and no labels |
| Align.IgnoreFilterExample | code/SgCG.py:193-197 | labels [0, 1, 255, 2] drop only the third token; the others keep their order |
| Variants.AddRegularizer | code/SgCG.py:275-277 | weight ≤ 0 leaves the loss unchanged; otherwise weight × term is added to the scalar or to every element |
| Variants.Finish | code/SgCG.py:272-277 | reduction errors propagate; regulariser off gives the classification term exactly; on, a finite scalar becomes classification + weight × term |
| Variants.TokenLosses | code/SgCG.py:262-267 | one loss per surviving token, in token order, from that token's row and label |
| Variants.ProtoContrastive | code/SgCG.py:224-279 | alignment errors propagate; a missing mean fails the assertion; no surviving tokens gives the zero scalar; otherwise the per-token losses go through weighted reduction and the regulariser |
| Variants.DistLosses | code/SgCG.py:329-341 | each token's loss is its cross-entropy term plus its covariance correction term |
| Variants.DistContrastive | code/SgCG.py:282-353 | as the prototype variant, with both mean and covariance required |
| Variants.DistSumSplits | code/SgCG.py:341-347 | under `sum` with no weight or regulariser, the loss is total cross-entropy plus total correction |
| Variants.QueueError | code/SgCG.py:397-400 | reading a class queue succeeds iff the class exists, its queue is non-empty and every entry has the feature width |
| Variants.ScanError | code/SgCG.py:397-400 | the scan of queues 0..k-1 succeeds iff every one of them can be read |
| Variants.BankError | code/SgCG.py:393-412 | the grouping fails iff there are fewer than two classes or some queue 0..n-1 cannot be read |
| Variants.ClassPositions | code/SgCG.py:394-395 | the positions labelled cls, increasing, and all of them |
| Variants.ClassLossesInOrder | code/SgCG.py:394-395 | the t-th loss of class cls belongs to the t-th token labelled cls |
| Variants.GroupedIsPermutation | code/SgCG.py:391-412 | the concatenated class losses are a permutation of the losses of the tokens whose label is in [0, n) |
| Variants.GroupedLength | code/SgCG.py:391-412 | before reduction, the length equals the number of surviving tokens with a label in [0, n) |
| Variants.GroupingReordersExample | code/SgCG.py:391-412 | tokens labelled [1, 0] come out as class 0's loss first: the order is by class, not by token |
| Variants.GroupByClass | code/SgCG.py:391-412 | the nested loops return the first queue failure or the missing-negatives failure, else exactly the class-ordered concatenation |
| Variants.BankLoss | code/SgCG.py:356-424 | alignment errors first; a missing bank, or a missing mean when the regulariser is on, fails the assertion; no tokens gives zero; then grouping errors; then reduction and regulariser |
| Variants.BankContrastive | code/SgCG.py:356-424 | the imperative pipeline returns exactly `BankLoss` |
| Variants.EmptyBatchIsZero | code/SgCG.py:253-254 | with an all-ignored mask over a map with channels, all three variants return the zero scalar (also lines 314-315 and 388-389) |
| Facade.FormatOf | code/SgCG.py:33-45 | each loader is chosen iff the path ends with its extension (`.yaml` or `.yml` for YAML) |
| Facade.KnownExtensions | code/SgCG.py:31-45 | any stem with one of the five extensions selects its loader; `.txt` selects none |
| Facade.GetClassWeight | code/SgCG.py:24-47 | absent and literal weights pass through; a path fails with `UnsupportedFileFormat` iff its extension is unknown, otherwise it is loaded by its format's loader |
| Facade.ValidateConfig | code/SgCG.py:462-481 | fails iff both flags are set or the class count is missing; dist is chosen iff use_dist, bank iff use_bank, proto iff neither |
| Facade.Broadcast | code/SgCG.py:500-501 | a single weight becomes k copies; a stored list is kept whatever the branch count |
| Facade.BranchSumIsWeightedTotal | code/SgCG.py:502-516 | when every branch succeeds and has a weight, the result is Σ ws[i] × loss[i] |
| Facade.UniformWeightFactorsOut | code/SgCG.py:501-516 | with k copies of w, the weighted total is w × the plain total |
| Facade.BranchSumFailsOnShortList | code/SgCG.py:502-515 | when every branch succeeds, the call fails iff the weight list is shorter than the branch list, and then with `IndexError` |
| Facade.SingleLoss | code/SgCG.py:517-530 | criterion errors propagate; a single weight multiplies the loss; a stored list gives `TypeError` |
| Facade.ContrastiveLoss.constructor | code/SgCG.py:464-474 | every field holds its argument |
| Facade.ContrastiveLoss.Create | code/SgCG.py:449-481 | fails iff the configuration or the class weight fails, in that order; otherwise a fresh object with the selected variant, loaded class weights and the given settings |
| Facade.ContrastiveLoss.Call | code/SgCG.py:492-514 | the criterion gets the override when there is one, else the stored reduction; the regulariser weight only when use_reg |
| Facade.ContrastiveLoss.Forward | code/SgCG.py:483-531 | an invalid override fails the assertion and changes nothing; a list call with class weights raises `AttributeError` at the `new_tensor` conversion and changes nothing; a list call without them stores the broadcast weights and returns the branch sum; a single call keeps the weights and returns the weighted loss |
| Facade.ContrastiveLoss.ForwardConverted | code/SgCG.py:483-531 | the corrected forward (class weights converted on a branch tensor): an invalid override fails and changes nothing; every list call stores the broadcast weights and returns the branch sum; a single call keeps the weights and returns the weighted loss |
| Facade.StoredListOutlivesBranchCount | code/SgCG.py:500-502 | after a list call with k branches, a call with more branches fails with `IndexError` even when every criterion succeeds |
| Facade.UniformWeightScalesBranchSum | code/SgCG.py:500-516 | with a single weight w and all branches succeeding, a list call returns w × the sum of the branch losses |

## Left out

- The floating-point loss bodies are opaque real-valued function parameters:
  - the cross-entropy over similarity logits and the covariance correction term (code/SgCG.py:257-267, 318-341);
  - the bank softmax term (code/SgCG.py:400-409);
  - the prototype regulariser `proto_reg` (code/SgCG.py:201-221).

  Errors inside them, such as a label outside the prototype count, are not modelled.
- Variants.BankLoss: the model does not prove that bank losses are non-negative and finite, because the softmax term is opaque.
- Nearest-neighbour resizing and the multi-channel arg-max collapse of the mask (code/SgCG.py:176-181) are not modelled. The mask is required to be single-channel and already at the feature resolution (`Align.MaskAtResolution`).
- `use_avg_pool`, `scale_min_ratio` and `num_classes` reach `contrast_preparations` but are never used there, so the aligner does not take them.
- The branch selection inside the variants (`feat[index]`, `mean[index]`, `covariance[index]`, `bank[index]`, code/SgCG.py:239-243, 299-305, 371-379) and its `isinstance` assertions are not modelled. Each variant receives its branch's data already selected. In the facade, `index` is a field of the criterion call.
- The autograd and device assertions and calls are left out: `requires_grad` checks and `.cuda()`. The `feat.new_tensor` conversion of the class weights is modelled only by its failure on a list input; the converted tensor is the stored weight list.
- The `nn.Module` base class is left out.
- File reading in `get_class_weight` is the `load` parameter. The type of the loaded object is not modelled.
- Downscale.DownscaleLabelRatio: the share is compared as an exact rational. Float32 rounding of `count / (s*s)` at the `min_ratio` boundary is not modelled.
- Downscale.DownscaleLabelRatio: the tie-break between equally frequent classes is not fixed; any arg-max is admitted.
- Reduction.WeightReduceLoss: loss and weight tensors of rank three or more are not modelled.
- Facade.ContrastiveLoss.Forward: branch losses are scalars. Under reduction `none` the criterion returns tensors, which are weighted and summed element by element; that case is not modelled.

## Findings

| source | as written | input that shows it | evidently intended | confidence | as-written member | corrected member |
|---|---|---|---|---|---|---|
| code/SgCG.py:495-499 | `feat.new_tensor(self.class_weight)` runs before the `isinstance(feat, list)` test, so a list input with class weights raises AttributeError and never reaches the per-branch loop | `class_weight=[1.0, 2.0]` and `feat` a list of two feature maps | list inputs with class weights reach the per-branch loop, with the class weights converted on one of the branch tensors | medium, not executed | Facade.ContrastiveLoss.Forward | Facade.ContrastiveLoss.ForwardConverted |
