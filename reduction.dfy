/** Element-wise weighting and reduction of a loss tensor (`reduce_loss`,
    `weight_reduce_loss` and the `weighted_loss` wrapper). Loss values are
    exact reals; the divisions that can produce NaN or an infinity in floating
    point return `NonFinite`. */
module Reduction {
  import opened Common

  /** A loss or weight tensor of rank one or two. A matrix keeps its column
      count so that a matrix without rows still has one. */
  datatype Tensor = Vec(xs: seq<real>) | Mat(rows: seq<seq<real>>, cols: nat)

  /** The outcome of a reduction: the element-wise tensor (reduction `none`)
      or a scalar. */
  datatype LossValue = Elementwise(t: Tensor) | Scalar(s: Num)

  /** The three reductions the library's reduction lookup distinguishes. */
  datatype ReductionKind = NoReduction | MeanReduction | SumReduction

  predicate WellFormed(t: Tensor) {
    t.Mat? ==> forall i :: 0 <= i < |t.rows| ==> |t.rows[i]| == t.cols
  }

  function Rank(t: Tensor): nat {
    if t.Vec? then 1 else 2
  }

  /** Number of elements. */
  function Numel(t: Tensor): nat {
    match t
    case Vec(xs) => |xs|
    case Mat(rows, cols) => |rows| * cols
  }

  function SumSeq(xs: seq<real>): real {
    if xs == [] then 0.0 else xs[0] + SumSeq(xs[1..])
  }

  function SumRows(rows: seq<seq<real>>): real {
    if rows == [] then 0.0 else SumSeq(rows[0]) + SumRows(rows[1..])
  }

  /** Sum of all elements (`loss.sum()`). */
  function Total(t: Tensor): real {
    match t
    case Vec(xs) => SumSeq(xs)
    case Mat(rows, _) => SumRows(rows)
  }

  /** Arithmetic mean of all elements (`loss.mean()`); NaN when there are none. */
  function Mean(t: Tensor): (m: Num)
    ensures m.Finite? <==> Numel(t) > 0
    ensures m.Finite? ==> m.v * (Numel(t) as real) == Total(t)
  {
    Div(Total(t), Numel(t) as real)
  }

  /** The reduction-name lookup used by `reduce_loss`: `elementwise_mean` is
      the deprecated spelling of `mean`; any other unknown name raises. */
  function ReductionEnum(name: string): (r: Result<ReductionKind>)
    ensures r == Ok(NoReduction) <==> name == "none"
    ensures r == Ok(MeanReduction) <==> name == "mean" || name == "elementwise_mean"
    ensures r == Ok(SumReduction) <==> name == "sum"
    ensures r.Err? ==> r.error == InvalidReduction
  {
    if name == "none" then Ok(NoReduction)
    else if name == "mean" then Ok(MeanReduction)
    else if name == "elementwise_mean" then Ok(MeanReduction)
    else if name == "sum" then Ok(SumReduction)
    else Err(InvalidReduction)
  }

  /** `reduce_loss`: `none` returns the tensor unchanged, `mean` its average,
      `sum` its total. */
  function ReduceLoss(t: Tensor, reduction: string): (r: Result<LossValue>)
    ensures r.Err? <==> reduction !in ["none", "mean", "elementwise_mean", "sum"]
    ensures r.Err? ==> r.error == InvalidReduction
    ensures reduction == "none" ==> r == Ok(Elementwise(t))
    ensures reduction == "sum" ==> r == Ok(Scalar(Finite(Total(t))))
    ensures reduction == "mean" || reduction == "elementwise_mean" ==>
      r.Ok? && r.value.Scalar? && (r.value.s.Finite? <==> Numel(t) > 0)
    ensures (reduction == "mean" || reduction == "elementwise_mean") && r.value.s.Finite? ==>
      r.value.s.v * (Numel(t) as real) == Total(t)
  {
    var kind :- ReductionEnum(reduction);
    match kind
    case NoReduction => Ok(Elementwise(t))
    case MeanReduction => Ok(Scalar(Mean(t)))
    case SumReduction => Ok(Scalar(Finite(Total(t))))
  }

  /** Size of one broadcast dimension: equal sizes, or one of them 1. */
  function BroadcastDim(a: nat, b: nat): (r: Option<nat>)
    ensures r.Some? <==> a == b || a == 1 || b == 1
    ensures r.Some? ==> (a == 1 || a == r.value) && (b == 1 || b == r.value)
  {
    if a == b then Some(a)
    else if a == 1 then Some(b)
    else if b == 1 then Some(a)
    else None
  }

  /** The source position read for output position `i` along a dimension of
      size `n` (a dimension of size 1 is repeated). */
  function Pick(n: nat, i: nat): nat {
    if n == 1 then 0 else i
  }

  /** Element-wise product with broadcasting of two tensors of the same rank. */
  function Multiply(a: Tensor, b: Tensor): (r: Result<Tensor>)
    requires WellFormed(a) && WellFormed(b) && Rank(a) == Rank(b)
    ensures a.Vec? ==> (r.Ok? <==> BroadcastDim(|a.xs|, |b.xs|).Some?)
    ensures a.Mat? ==> (r.Ok? <==> BroadcastDim(|a.rows|, |b.rows|).Some? && BroadcastDim(a.cols, b.cols).Some?)
    ensures r.Ok? ==> WellFormed(r.value) && Rank(r.value) == Rank(a)
    ensures r.Ok? && a.Vec? ==> |r.value.xs| == BroadcastDim(|a.xs|, |b.xs|).value
    ensures r.Ok? && a.Mat? ==>
      |r.value.rows| == BroadcastDim(|a.rows|, |b.rows|).value && r.value.cols == BroadcastDim(a.cols, b.cols).value
    ensures r.Err? ==> r.error == ShapeMismatch
  {
    match (a, b)
    case (Vec(x), Vec(y)) =>
      (match BroadcastDim(|x|, |y|)
       case Some(n) => Ok(Vec(seq(n, i requires 0 <= i < n => x[Pick(|x|, i)] * y[Pick(|y|, i)])))
       case None => Err(ShapeMismatch))
    case (Mat(x, xc), Mat(y, yc)) =>
      (match (BroadcastDim(|x|, |y|), BroadcastDim(xc, yc))
       case (Some(nr), Some(nc)) =>
         Ok(Mat(seq(nr, i requires 0 <= i < nr =>
                  seq(nc, j requires 0 <= j < nc =>
                    x[Pick(|x|, i)][Pick(xc, j)] * y[Pick(|y|, i)][Pick(yc, j)])), nc))
       case _ => Err(ShapeMismatch))
  }

  /** The weighting step of `weight_reduce_loss`: the weight's rank must equal
      the loss's; a matrix weight has one column or as many as the loss. */
  function ApplyWeight(loss: Tensor, weight: Option<Tensor>): (r: Result<Tensor>)
    requires WellFormed(loss) && (weight.Some? ==> WellFormed(weight.value))
    ensures r.Ok? ==> WellFormed(r.value) && Rank(r.value) == Rank(loss)
    ensures weight.None? ==> r == Ok(loss)
    ensures weight.Some? && Rank(weight.value) != Rank(loss) ==> r == Err(AssertionFailed)
    ensures (weight.Some? && weight.value.Mat? && loss.Mat? &&
             weight.value.cols != 1 && weight.value.cols != loss.cols) ==> r == Err(AssertionFailed)
    ensures r.Err? ==> weight.Some? && r.error in {AssertionFailed, ShapeMismatch}
  {
    match weight
    case None => Ok(loss)
    case Some(w) =>
      if Rank(w) != Rank(loss) then Err(AssertionFailed)
      else if w.Mat? && !(w.cols == 1 || w.cols == loss.cols) then Err(AssertionFailed)
      else Multiply(loss, w)
  }

  /** `weight_reduce_loss`: weight, then reduce. With an average factor, `mean`
      becomes the total divided by the factor, `none` is left alone and every
      other reduction name raises. */
  function WeightReduceLoss(loss: Tensor, weight: Option<Tensor>, reduction: string,
                            avgFactor: Option<real>): (r: Result<LossValue>)
    requires WellFormed(loss) && (weight.Some? ==> WellFormed(weight.value))
    ensures ApplyWeight(loss, weight).Err? ==> r == Err(ApplyWeight(loss, weight).error)
    ensures ApplyWeight(loss, weight).Ok? && avgFactor.None? ==>
      r == ReduceLoss(ApplyWeight(loss, weight).value, reduction)
    ensures ApplyWeight(loss, weight).Ok? && avgFactor.Some? ==>
      (r.Err? <==> reduction != "mean" && reduction != "none")
    ensures r.Ok? && avgFactor.Some? && reduction == "mean" ==>
      r.value.Scalar? && (r.value.s.Finite? <==> avgFactor.value != 0.0) &&
      (r.value.s.Finite? ==> r.value.s.v * avgFactor.value == Total(ApplyWeight(loss, weight).value))
    ensures r.Ok? && avgFactor.Some? && reduction == "none" ==>
      r.value == Elementwise(ApplyWeight(loss, weight).value)
    ensures ApplyWeight(loss, weight).Ok? && avgFactor.Some? && r.Err? ==> r.error == AvgFactorMisuse
  {
    var weighted :- ApplyWeight(loss, weight);
    if avgFactor.None? then ReduceLoss(weighted, reduction)
    else if reduction == "mean" then Ok(Scalar(Div(Total(weighted), avgFactor.value)))
    else if reduction != "none" then Err(AvgFactorMisuse)
    else Ok(Elementwise(weighted))
  }

  /** The `weighted_loss` wrapper: the element-wise loss of `lossFunc` piped
      through `weight_reduce_loss`. */
  function WeightedLoss<P, T>(lossFunc: (P, T) --> Tensor, pred: P, target: T,
                              weight: Option<Tensor>, reduction: string,
                              avgFactor: Option<real>): (r: Result<LossValue>)
    requires lossFunc.requires(pred, target)
    requires WellFormed(lossFunc(pred, target)) && (weight.Some? ==> WellFormed(weight.value))
    ensures r == WeightReduceLoss(lossFunc(pred, target), weight, reduction, avgFactor)
    ensures weight.None? && avgFactor.None? ==> r == ReduceLoss(lossFunc(pred, target), reduction)
  {
    WeightReduceLoss(lossFunc(pred, target), weight, reduction, avgFactor)
  }

  // ---------------------------------------------------------------------
  // Properties of weighting and reduction

  function Scale(xs: seq<real>, c: real): (r: seq<real>)
    ensures |r| == |xs|
  {
    seq(|xs|, i requires 0 <= i < |xs| => xs[i] * c)
  }

  lemma {:induction false} SumScale(xs: seq<real>, c: real)
    ensures SumSeq(Scale(xs, c)) == c * SumSeq(xs)
  {
    if xs != [] {
      forall i | 0 <= i < |xs| - 1 ensures Scale(xs, c)[1..][i] == Scale(xs[1..], c)[i] {
        assert Scale(xs, c)[1..][i] == Scale(xs, c)[i + 1] == xs[i + 1] * c;
      }
      assert Scale(xs, c)[1..] == Scale(xs[1..], c);
      SumScale(xs[1..], c);
    }
  }

  /** A one-element weight vector is broadcast over the whole loss vector:
      every element, and so the total, is scaled by it. */
  lemma OneElementWeightScales(xs: seq<real>, c: real)
    ensures ApplyWeight(Vec(xs), Some(Vec([c]))) == Ok(Vec(Scale(xs, c)))
    ensures Total(Vec(Scale(xs, c))) == c * Total(Vec(xs))
  {
    SumScale(xs, c);
    var p := Multiply(Vec(xs), Vec([c])).value.xs;
    assert BroadcastDim(|xs|, 1) == Some(|xs|);
    forall i | 0 <= i < |xs| ensures p[i] == Scale(xs, c)[i] {
      assert xs[Pick(|xs|, i)] == xs[i] && [c][Pick(1, i)] == c;
    }
    assert p == Scale(xs, c);
  }

  /** A weight vector of the loss's own length multiplies position by position. */
  lemma SameLengthWeightIsPointwise(xs: seq<real>, ws: seq<real>)
    requires |xs| == |ws|
    ensures ApplyWeight(Vec(xs), Some(Vec(ws))).Ok?
    ensures var p := ApplyWeight(Vec(xs), Some(Vec(ws))).value;
      p.Vec? && |p.xs| == |xs| && forall i :: 0 <= i < |xs| ==> p.xs[i] == xs[i] * ws[i]
  {
  }

  /** Weighting by all ones leaves the loss unchanged. */
  lemma UnitWeightIsNeutral(xs: seq<real>)
    ensures ApplyWeight(Vec(xs), Some(Vec(seq(|xs|, _ => 1.0)))) == Ok(Vec(xs))
  {
    var p := Multiply(Vec(xs), Vec(seq(|xs|, _ => 1.0))).value;
    assert p.xs == xs;
  }

  /** A matrix weight with a single column is repeated along every row. */
  lemma ColumnWeightBroadcasts(loss: seq<seq<real>>, cols: nat, w: seq<real>)
    requires WellFormed(Mat(loss, cols)) && |w| == |loss|
    ensures ApplyWeight(Mat(loss, cols), Some(Mat(seq(|w|, i requires 0 <= i < |w| => [w[i]]), 1))).Ok?
    ensures var p := ApplyWeight(Mat(loss, cols), Some(Mat(seq(|w|, i requires 0 <= i < |w| => [w[i]]), 1))).value;
      p.Mat? && p.cols == cols && |p.rows| == |loss| &&
      forall i, j :: 0 <= i < |loss| && 0 <= j < cols ==> p.rows[i][j] == loss[i][j] * w[i]
  {
    var column := Mat(seq(|w|, i requires 0 <= i < |w| => [w[i]]), 1);
    var p := Multiply(Mat(loss, cols), column).value;
    assert BroadcastDim(|loss|, |w|) == Some(|loss|) && BroadcastDim(cols, 1) == Some(cols);
    forall i, j | 0 <= i < |loss| && 0 <= j < cols ensures p.rows[i][j] == loss[i][j] * w[i] {
      assert Pick(cols, j) == j && Pick(1, j) == 0;
      assert column.rows[Pick(|w|, i)][0] == w[i];
      assert loss[Pick(|loss|, i)] == loss[i];
    }
  }

  /** A matrix weight of the loss's own shape multiplies element by element. */
  lemma SameShapeMatrixWeightIsPointwise(loss: seq<seq<real>>, w: seq<seq<real>>, cols: nat)
    requires WellFormed(Mat(loss, cols)) && WellFormed(Mat(w, cols)) && |w| == |loss|
    ensures ApplyWeight(Mat(loss, cols), Some(Mat(w, cols))).Ok?
    ensures var p := ApplyWeight(Mat(loss, cols), Some(Mat(w, cols))).value;
      p.Mat? && p.cols == cols && |p.rows| == |loss| &&
      forall i, j :: 0 <= i < |loss| && 0 <= j < cols ==> p.rows[i][j] == loss[i][j] * w[i][j]
  {
    var p := Multiply(Mat(loss, cols), Mat(w, cols)).value;
    forall i, j | 0 <= i < |loss| && 0 <= j < cols ensures p.rows[i][j] == loss[i][j] * w[i][j] {
      assert loss[Pick(|loss|, i)] == loss[i] && w[Pick(|w|, i)] == w[i];
      assert loss[i][Pick(cols, j)] == loss[i][j] && w[i][Pick(cols, j)] == w[i][j];
    }
  }

  /** Without `mean` or `none`, an average factor always makes the call fail. */
  lemma AvgFactorOnlyWithMeanOrNone(loss: Tensor, weight: Option<Tensor>, reduction: string, a: real)
    requires WellFormed(loss) && (weight.Some? ==> WellFormed(weight.value))
    requires reduction != "mean" && reduction != "none"
    ensures WeightReduceLoss(loss, weight, reduction, Some(a)).Err?
  {
  }

  /** With reduction `none` the average factor has no effect at all. */
  lemma AvgFactorIgnoredByNone(loss: Tensor, weight: Option<Tensor>, a: real)
    requires WellFormed(loss) && (weight.Some? ==> WellFormed(weight.value))
    ensures WeightReduceLoss(loss, weight, "none", Some(a)) == WeightReduceLoss(loss, weight, "none", None)
  {
  }

  /** An average factor equal to the number of weighted elements turns the
      normalised sum back into the true mean. */
  lemma AvgFactorOfElementCountIsMean(loss: Tensor, weight: Option<Tensor>)
    requires WellFormed(loss) && (weight.Some? ==> WellFormed(weight.value))
    requires ApplyWeight(loss, weight).Ok?
    ensures var n := Numel(ApplyWeight(loss, weight).value);
      WeightReduceLoss(loss, weight, "mean", Some(n as real)) == WeightReduceLoss(loss, weight, "mean", None)
  {
  }

  // ---------------------------------------------------------------------
  // Worked examples: the `weighted_loss` docstring, and a weighted
  // reduction of loss [1, 2, 3] with weight [1, 0, 1]

  function Abs(x: real): real {
    if x < 0.0 then -x else x
  }

  /** The element-wise L1 loss of the `weighted_loss` docstring. */
  function L1Loss(pred: seq<real>, target: seq<real>): (t: Tensor)
    requires |pred| == |target|
    ensures t.Vec? && |t.xs| == |pred|
    ensures forall i :: 0 <= i < |pred| ==> t.xs[i] == Abs(pred[i] - target[i]) && t.xs[i] >= 0.0
  {
    Vec(seq(|pred|, i requires 0 <= i < |pred| => Abs(pred[i] - target[i])))
  }

  lemma L1DocExample()
    ensures var l1 := (p: seq<real>, t: seq<real>) requires |p| == |t| => L1Loss(p, t);
      var pred, target, w := [0.0, 2.0, 3.0], [1.0, 1.0, 1.0], Vec([1.0, 0.0, 1.0]);
      && WeightedLoss(l1, pred, target, None, "mean", None) == Ok(Scalar(Finite(4.0 / 3.0)))
      && WeightedLoss(l1, pred, target, Some(w), "mean", None) == Ok(Scalar(Finite(1.0)))
      && WeightedLoss(l1, pred, target, None, "none", None) == Ok(Elementwise(Vec([1.0, 1.0, 2.0])))
      && WeightedLoss(l1, pred, target, Some(w), "mean", Some(2.0)) == Ok(Scalar(Finite(1.5)))
  {
    var pred, target := [0.0, 2.0, 3.0], [1.0, 1.0, 1.0];
    var e := L1Loss(pred, target);
    assert e.xs == [1.0, 1.0, 2.0];
    var weighted := Multiply(e, Vec([1.0, 0.0, 1.0])).value;
    assert weighted.xs == [1.0, 0.0, 2.0];
    assert SumSeq([1.0, 1.0, 2.0]) == 4.0;
    assert SumSeq([1.0, 0.0, 2.0]) == 3.0;
  }

  /** A worked reduction example: loss [1, 2, 3] weighted by [1, 0, 1]. */
  lemma WeightedReductionExample()
    ensures var loss, w := Vec([1.0, 2.0, 3.0]), Some(Vec([1.0, 0.0, 1.0]));
      && WeightReduceLoss(loss, w, "mean", None) == Ok(Scalar(Finite(4.0 / 3.0)))
      && WeightReduceLoss(loss, w, "mean", Some(2.0)) == Ok(Scalar(Finite(2.0)))
      && WeightReduceLoss(loss, w, "none", None) == Ok(Elementwise(Vec([1.0, 0.0, 3.0])))
      && WeightReduceLoss(loss, w, "sum", Some(2.0)) == Err(AvgFactorMisuse)
  {
    var weighted := Multiply(Vec([1.0, 2.0, 3.0]), Vec([1.0, 0.0, 1.0])).value;
    assert weighted.xs == [1.0, 0.0, 3.0];
    assert SumSeq([1.0, 0.0, 3.0]) == 4.0;
  }
}
