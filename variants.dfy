/** The three contrastive-loss variants (`proto_contrastive`,
    `dist_contrastive`, `bank_contrastive`) around their floating-point
    bodies. Each variant aligns features and labels, checks its required
    parameters, returns a zero scalar when no token survives, computes one
    loss per surviving token, reduces it with `weight_reduce_loss` and adds the
    prototype regulariser when its weight is positive. The per-token losses
    (cross-entropy, the covariance correction, the bank softmax) and the
    regulariser are opaque functions passed in. */
module Variants {
  import opened Common
  import opened Reduction
  import opened Align

  /** The loss of a batch without surviving tokens: a zero scalar. */
  const ZeroLoss: LossValue := Scalar(Finite(0.0))

  // ---------------------------------------------------------------------
  // The shared tail: reduction and regulariser

  function AddToAll(xs: seq<real>, c: real): (r: seq<real>)
    ensures |r| == |xs| && forall i :: 0 <= i < |xs| ==> r[i] == xs[i] + c
  {
    seq(|xs|, i requires 0 <= i < |xs| => xs[i] + c)
  }

  /** `loss += reg_weight * reg` when `reg_weight > 0`: the regulariser term is
      broadcast onto every element of an unreduced loss. */
  function AddRegularizer(v: LossValue, regWeight: real, term: real): (r: LossValue)
    ensures regWeight <= 0.0 ==> r == v
    ensures r.Scalar? <==> v.Scalar?
    ensures regWeight > 0.0 && v.Scalar? ==>
      (r.s.Finite? <==> v.s.Finite?) && (r.s.Finite? ==> r.s.v == v.s.v + regWeight * term)
    ensures regWeight > 0.0 && v.Elementwise? && v.t.Vec? ==>
      r.t.Vec? && |r.t.xs| == |v.t.xs| &&
      forall i :: 0 <= i < |v.t.xs| ==> r.t.xs[i] == v.t.xs[i] + regWeight * term
    ensures regWeight > 0.0 && v.Elementwise? && v.t.Mat? ==>
      r.t.Mat? && r.t.cols == v.t.cols && |r.t.rows| == |v.t.rows| &&
      forall i :: 0 <= i < |v.t.rows| ==> r.t.rows[i] == AddToAll(v.t.rows[i], regWeight * term)
  {
    if regWeight <= 0.0 then v
    else
      var c := regWeight * term;
      match v
      case Scalar(s) => Scalar(Add(s, Finite(c)))
      case Elementwise(Vec(xs)) => Elementwise(Vec(AddToAll(xs, c)))
      case Elementwise(Mat(rows, cols)) =>
        Elementwise(Mat(seq(|rows|, i requires 0 <= i < |rows| => AddToAll(rows[i], c)), cols))
  }

  /** Weighted reduction of the per-token losses, then the regulariser. */
  function Finish(losses: seq<real>, weight: Option<Tensor>, reduction: string, avgFactor: Option<real>,
                  regWeight: real, regTerm: real): (r: Result<LossValue>)
    requires weight.Some? ==> WellFormed(weight.value)
    ensures var cls := WeightReduceLoss(Vec(losses), weight, reduction, avgFactor);
      && (cls.Err? ==> r == Err(cls.error))
      && (cls.Ok? ==> r.Ok?)
      && (cls.Ok? && regWeight <= 0.0 ==> r == cls)
      && (cls.Ok? && regWeight > 0.0 && cls.value.Scalar? && cls.value.s.Finite? ==>
            r.value.Scalar? && r.value.s.Finite? && r.value.s.v == cls.value.s.v + regWeight * regTerm)
  {
    var reduced :- WeightReduceLoss(Vec(losses), weight, reduction, avgFactor);
    Ok(AddRegularizer(reduced, regWeight, regTerm))
  }

  /** One loss per surviving token, in token order. */
  function TokenLosses<P>(a: Aligned, p: P, perToken: (P, seq<real>, int) -> real): (ls: seq<real>)
    requires |a.feats| == |a.labels|
    ensures |ls| == |a.feats|
    ensures forall t :: 0 <= t < |ls| ==> ls[t] == perToken(p, a.feats[t], a.labels[t])
  {
    seq(|a.feats|, t requires 0 <= t < |a.feats| => perToken(p, a.feats[t], a.labels[t]))
  }

  /** The regulariser term, evaluated only when it is switched on. */
  function RegTerm<M>(regWeight: real, mean: Option<M>, feats: seq<seq<real>>, reg: (M, seq<seq<real>>) -> real): real {
    if regWeight > 0.0 && mean.Some? then reg(mean.value, feats) else 0.0
  }

  // ---------------------------------------------------------------------
  // Prototype and distribution variants

  /** `proto_contrastive` with its branch already selected: alignment first,
      then the mean must be present, then the empty-batch return, then the
      per-token cross-entropy against the prototypes. */
  function ProtoContrastive<M>(f: FeatureMap, mask: seq<seq<seq<int>>>, ignore: int, mean: Option<M>,
                               weight: Option<Tensor>, reduction: string, avgFactor: Option<real>,
                               regWeight: real, ce: (M, seq<real>, int) -> real,
                               reg: (M, seq<seq<real>>) -> real): (r: Result<LossValue>)
    requires ValidFeatures(f) && MaskAtResolution(mask, f.height, f.width)
    requires weight.Some? ==> WellFormed(weight.value)
    ensures Prepare(f, mask, ignore).Err? ==> r == Err(Prepare(f, mask, ignore).error)
    ensures Prepare(f, mask, ignore).Ok? && mean.None? ==> r == Err(AssertionFailed)
    ensures Prepare(f, mask, ignore).Ok? && mean.Some? && Prepare(f, mask, ignore).value.feats == [] ==>
      r == Ok(ZeroLoss)
    ensures Prepare(f, mask, ignore).Ok? && mean.Some? && Prepare(f, mask, ignore).value.feats != [] ==>
      var a := Prepare(f, mask, ignore).value;
      r == Finish(TokenLosses(a, mean.value, ce), weight, reduction, avgFactor, regWeight,
                  RegTerm(regWeight, mean, a.feats, reg))
  {
    var a :- Prepare(f, mask, ignore);
    if mean.None? then Err(AssertionFailed)
    else if |a.feats| == 0 then Ok(ZeroLoss)
    else
      Finish(TokenLosses(a, mean.value, ce), weight, reduction, avgFactor, regWeight,
             RegTerm(regWeight, mean, a.feats, reg))
  }

  /** The distribution variant's per-token loss: the cross-entropy over the
      mean/covariance logits plus the in-class covariance correction. */
  function DistLosses<M, C>(a: Aligned, mean: M, cov: C, ce: (M, C, seq<real>, int) -> real,
                            jcl: (C, seq<real>, int) -> real): (ls: seq<real>)
    requires |a.feats| == |a.labels|
    ensures |ls| == |a.feats|
    ensures forall t :: 0 <= t < |ls| ==>
      ls[t] == ce(mean, cov, a.feats[t], a.labels[t]) + jcl(cov, a.feats[t], a.labels[t])
  {
    seq(|a.feats|, t requires 0 <= t < |a.feats| =>
      ce(mean, cov, a.feats[t], a.labels[t]) + jcl(cov, a.feats[t], a.labels[t]))
  }

  /** `dist_contrastive` with its branch already selected: both the mean and
      the covariance are required. */
  function DistContrastive<M, C>(f: FeatureMap, mask: seq<seq<seq<int>>>, ignore: int,
                                 mean: Option<M>, covariance: Option<C>,
                                 weight: Option<Tensor>, reduction: string, avgFactor: Option<real>,
                                 regWeight: real, ce: (M, C, seq<real>, int) -> real,
                                 jcl: (C, seq<real>, int) -> real,
                                 reg: (M, seq<seq<real>>) -> real): (r: Result<LossValue>)
    requires ValidFeatures(f) && MaskAtResolution(mask, f.height, f.width)
    requires weight.Some? ==> WellFormed(weight.value)
    ensures Prepare(f, mask, ignore).Err? ==> r == Err(Prepare(f, mask, ignore).error)
    ensures Prepare(f, mask, ignore).Ok? && (mean.None? || covariance.None?) ==> r == Err(AssertionFailed)
    ensures (Prepare(f, mask, ignore).Ok? && mean.Some? && covariance.Some? &&
             Prepare(f, mask, ignore).value.feats == []) ==> r == Ok(ZeroLoss)
    ensures (Prepare(f, mask, ignore).Ok? && mean.Some? && covariance.Some? &&
             Prepare(f, mask, ignore).value.feats != []) ==>
      var a := Prepare(f, mask, ignore).value;
      r == Finish(DistLosses(a, mean.value, covariance.value, ce, jcl), weight, reduction, avgFactor,
                  regWeight, RegTerm(regWeight, mean, a.feats, reg))
  {
    var a :- Prepare(f, mask, ignore);
    if mean.None? then Err(AssertionFailed)
    else if covariance.None? then Err(AssertionFailed)
    else if |a.feats| == 0 then Ok(ZeroLoss)
    else
      Finish(DistLosses(a, mean.value, covariance.value, ce, jcl), weight, reduction, avgFactor,
             regWeight, RegTerm(regWeight, mean, a.feats, reg))
  }

  function PointwiseSum(xs: seq<real>, ys: seq<real>): (r: seq<real>)
    requires |xs| == |ys|
    ensures |r| == |xs|
  {
    seq(|xs|, i requires 0 <= i < |xs| => xs[i] + ys[i])
  }

  lemma {:induction false} SumOfPointwiseSum(xs: seq<real>, ys: seq<real>)
    requires |xs| == |ys|
    ensures SumSeq(PointwiseSum(xs, ys)) == SumSeq(xs) + SumSeq(ys)
  {
    if xs != [] {
      SumOfPointwiseSum(xs[1..], ys[1..]);
      assert PointwiseSum(xs, ys)[1..] == PointwiseSum(xs[1..], ys[1..]);
    }
  }

  /** Under the `sum` reduction without weights or regulariser, the
      distribution loss is the cross-entropy total plus the correction total. */
  lemma DistSumSplits<M, C>(a: Aligned, mean: M, cov: C, ce: (M, C, seq<real>, int) -> real,
                            jcl: (C, seq<real>, int) -> real)
    requires |a.feats| == |a.labels|
    ensures var ceLosses := seq(|a.feats|, t requires 0 <= t < |a.feats| => ce(mean, cov, a.feats[t], a.labels[t]));
      var jclLosses := seq(|a.feats|, t requires 0 <= t < |a.feats| => jcl(cov, a.feats[t], a.labels[t]));
      Finish(DistLosses(a, mean, cov, ce, jcl), None, "sum", None, 0.0, 0.0) ==
        Ok(Scalar(Finite(SumSeq(ceLosses) + SumSeq(jclLosses))))
  {
    var ceLosses := seq(|a.feats|, t requires 0 <= t < |a.feats| => ce(mean, cov, a.feats[t], a.labels[t]));
    var jclLosses := seq(|a.feats|, t requires 0 <= t < |a.feats| => jcl(cov, a.feats[t], a.labels[t]));
    assert DistLosses(a, mean, cov, ce, jcl) == PointwiseSum(ceLosses, jclLosses);
    SumOfPointwiseSum(ceLosses, jclLosses);
  }

  // ---------------------------------------------------------------------
  // Bank variant: the exemplar bank and the per-class grouping

  /** One entry of a class's exemplar queue: a matrix of exemplar rows. The
      width is kept so that an entry without rows still has one. */
  datatype Exemplars = Exemplars(rows: seq<seq<real>>, width: nat)

  /** Per class, its queue of exemplar entries. */
  type Bank = seq<seq<Exemplars>>

  /** The failure reading class idx's queue: a missing class, an empty queue
      (nothing to concatenate), or entries whose width does not match the
      features (concatenation or the similarity product refuses them). */
  function QueueError(bank: Bank, channels: nat, idx: nat): (e: Option<Error>)
    ensures e.None? <==> idx < |bank| && bank[idx] != [] &&
                         forall x :: x in bank[idx] ==> x.width == channels
  {
    if idx >= |bank| then Some(IndexError)
    else if bank[idx] == [] then Some(EmptyConcatenation)
    else if exists x :: x in bank[idx] && x.width != channels then Some(ShapeMismatch)
    else None
  }

  /** The first failure among the queues 0 .. k-1, in the order they are read. */
  function ScanError(bank: Bank, channels: nat, k: nat): (e: Option<Error>)
    ensures e.None? <==> forall idx :: 0 <= idx < k ==> QueueError(bank, channels, idx).None?
  {
    if k == 0 then None
    else
      var earlier := ScanError(bank, channels, k - 1);
      if earlier.Some? then earlier else QueueError(bank, channels, k - 1)
  }

  /** Once a queue has failed, later queues do not change the first failure. */
  lemma {:induction false} ScanErrorSticks(bank: Bank, channels: nat, k: nat, m: nat)
    requires k <= m && ScanError(bank, channels, k).Some?
    ensures ScanError(bank, channels, m) == ScanError(bank, channels, k)
  {
    if m > k {
      ScanErrorSticks(bank, channels, k, m - 1);
    }
  }

  /** Whether the grouping loop over n classes fails, and how. Every class
      reads every queue, so the first class already meets any bad queue. With
      one class there are no negatives to concatenate, and with none there
      are no class losses to concatenate. */
  function BankError(bank: Bank, channels: nat, n: nat): (e: Option<Error>)
    ensures e.None? <==> n >= 2 && forall idx :: 0 <= idx < n ==> QueueError(bank, channels, idx).None?
  {
    if n == 0 then Some(EmptyConcatenation)
    else if ScanError(bank, channels, n).Some? then ScanError(bank, channels, n)
    else if n == 1 then Some(EmptyConcatenation)
    else None
  }

  /** The losses of the tokens labelled cls, in token order (`feat[mask == cls]`). */
  function ClassLosses(feats: seq<seq<real>>, labels: seq<int>, cls: int, bank: Bank,
                       tokenLoss: (Bank, seq<real>, int) -> real): seq<real>
    requires |feats| == |labels|
  {
    if labels == [] then []
    else
      var n := |labels| - 1;
      ClassLosses(feats[..n], labels[..n], cls, bank, tokenLoss) +
      (if labels[n] == cls then [tokenLoss(bank, feats[n], cls)] else [])
  }

  /** The positions labelled cls, in increasing order. */
  function ClassPositions(labels: seq<int>, cls: int): (ks: seq<nat>)
    ensures forall t :: 0 <= t < |ks| ==> ks[t] < |labels| && labels[ks[t]] == cls
    ensures forall s, t :: 0 <= s < t < |ks| ==> ks[s] < ks[t]
    ensures forall k :: 0 <= k < |labels| && labels[k] == cls ==> k in ks
  {
    if labels == [] then []
    else
      var n := |labels| - 1;
      ClassPositions(labels[..n], cls) + (if labels[n] == cls then [n] else [])
  }

  /** Within a class the tokens keep their original order: the t-th loss of
      class cls belongs to the t-th token labelled cls. */
  lemma {:induction false} ClassLossesInOrder(feats: seq<seq<real>>, labels: seq<int>, cls: int, bank: Bank,
                                              tokenLoss: (Bank, seq<real>, int) -> real)
    requires |feats| == |labels|
    ensures var ls, ks := ClassLosses(feats, labels, cls, bank, tokenLoss), ClassPositions(labels, cls);
      |ls| == |ks| && forall t :: 0 <= t < |ks| ==> ls[t] == tokenLoss(bank, feats[ks[t]], cls)
  {
    if labels != [] {
      var n := |labels| - 1;
      ClassLossesInOrder(feats[..n], labels[..n], cls, bank, tokenLoss);
    }
  }

  /** `torch.cat(loss)`: the class losses of classes 0 .. n-1, in class order. */
  function Grouped(feats: seq<seq<real>>, labels: seq<int>, n: nat, bank: Bank,
                   tokenLoss: (Bank, seq<real>, int) -> real): seq<real>
    requires |feats| == |labels|
  {
    if n == 0 then []
    else Grouped(feats, labels, n - 1, bank, tokenLoss) + ClassLosses(feats, labels, n - 1, bank, tokenLoss)
  }

  /** Reference: the losses of the tokens whose label is a class 0 .. n-1, in
      token order. */
  function InRangeLosses(feats: seq<seq<real>>, labels: seq<int>, n: nat, bank: Bank,
                         tokenLoss: (Bank, seq<real>, int) -> real): seq<real>
    requires |feats| == |labels|
  {
    if labels == [] then []
    else
      var k := |labels| - 1;
      InRangeLosses(feats[..k], labels[..k], n, bank, tokenLoss) +
      (if 0 <= labels[k] < n then [tokenLoss(bank, feats[k], labels[k])] else [])
  }

  /** Number of tokens whose label is a class 0 .. n-1. */
  function CountInRange(labels: seq<int>, n: nat): nat {
    if labels == [] then 0
    else
      var k := |labels| - 1;
      CountInRange(labels[..k], n) + (if 0 <= labels[k] < n then 1 else 0)
  }

  lemma {:induction false} InRangeLength(feats: seq<seq<real>>, labels: seq<int>, n: nat, bank: Bank,
                                         tokenLoss: (Bank, seq<real>, int) -> real)
    requires |feats| == |labels|
    ensures |InRangeLosses(feats, labels, n, bank, tokenLoss)| == CountInRange(labels, n)
  {
    if labels != [] {
      var k := |labels| - 1;
      InRangeLength(feats[..k], labels[..k], n, bank, tokenLoss);
    }
  }

  /** Admitting class n-1 adds exactly the losses of class n-1. */
  lemma {:induction false} InRangeStep(feats: seq<seq<real>>, labels: seq<int>, n: nat, bank: Bank,
                                       tokenLoss: (Bank, seq<real>, int) -> real)
    requires |feats| == |labels| && n > 0
    ensures multiset(InRangeLosses(feats, labels, n, bank, tokenLoss)) ==
            multiset(InRangeLosses(feats, labels, n - 1, bank, tokenLoss)) +
            multiset(ClassLosses(feats, labels, n - 1, bank, tokenLoss))
  {
    if labels != [] {
      var k := |labels| - 1;
      InRangeStep(feats[..k], labels[..k], n, bank, tokenLoss);
      InRangeStepLast(feats, labels, n, bank, tokenLoss);
    }
  }

  /** The step for the last token, given the step for the tokens before it. */
  lemma InRangeStepLast(feats: seq<seq<real>>, labels: seq<int>, n: nat, bank: Bank,
                        tokenLoss: (Bank, seq<real>, int) -> real)
    requires |feats| == |labels| > 0 && n > 0
    requires var fs, ls := feats[..|labels| - 1], labels[..|labels| - 1];
      multiset(InRangeLosses(fs, ls, n, bank, tokenLoss)) ==
      multiset(InRangeLosses(fs, ls, n - 1, bank, tokenLoss)) + multiset(ClassLosses(fs, ls, n - 1, bank, tokenLoss))
    ensures multiset(InRangeLosses(feats, labels, n, bank, tokenLoss)) ==
            multiset(InRangeLosses(feats, labels, n - 1, bank, tokenLoss)) +
            multiset(ClassLosses(feats, labels, n - 1, bank, tokenLoss))
  {
    var k := |labels| - 1;
    var fs, ls := feats[..k], labels[..k];
    var x, y := tokenLoss(bank, feats[k], labels[k]), tokenLoss(bank, feats[k], n - 1);
    InRangeSnoc(feats, labels, n, bank, tokenLoss);
    InRangeSnoc(feats, labels, n - 1, bank, tokenLoss);
    ClassSnoc(feats, labels, n - 1, bank, tokenLoss);
    SingletonSplit(labels[k], n, x, y);
    MultisetStep(InRangeLosses(feats, labels, n, bank, tokenLoss), InRangeLosses(feats, labels, n - 1, bank, tokenLoss),
                 ClassLosses(feats, labels, n - 1, bank, tokenLoss),
                 InRangeLosses(fs, ls, n, bank, tokenLoss), InRangeLosses(fs, ls, n - 1, bank, tokenLoss),
                 ClassLosses(fs, ls, n - 1, bank, tokenLoss),
                 if 0 <= labels[k] < n then [x] else [], if 0 <= labels[k] < n - 1 then [x] else [],
                 if labels[k] == n - 1 then [y] else []);
  }

  lemma InRangeSnoc(feats: seq<seq<real>>, labels: seq<int>, n: nat, bank: Bank,
                    tokenLoss: (Bank, seq<real>, int) -> real)
    requires |feats| == |labels| > 0
    ensures var k := |labels| - 1;
      InRangeLosses(feats, labels, n, bank, tokenLoss) ==
      InRangeLosses(feats[..k], labels[..k], n, bank, tokenLoss) +
      (if 0 <= labels[k] < n then [tokenLoss(bank, feats[k], labels[k])] else [])
  {
  }

  lemma ClassSnoc(feats: seq<seq<real>>, labels: seq<int>, cls: int, bank: Bank,
                  tokenLoss: (Bank, seq<real>, int) -> real)
    requires |feats| == |labels| > 0
    ensures var k := |labels| - 1;
      ClassLosses(feats, labels, cls, bank, tokenLoss) ==
      ClassLosses(feats[..k], labels[..k], cls, bank, tokenLoss) +
      (if labels[k] == cls then [tokenLoss(bank, feats[k], cls)] else [])
  {
  }

  /** The last token is kept with classes 0 .. n-1 iff it is kept with classes
      0 .. n-2 or it belongs to class n-1. */
  lemma SingletonSplit(l: int, n: nat, x: real, y: real)
    requires n > 0 && (l == n - 1 ==> x == y)
    ensures multiset(if 0 <= l < n then [x] else []) ==
            multiset(if 0 <= l < n - 1 then [x] else []) + multiset(if l == n - 1 then [y] else [])
  {
  }

  lemma MultisetStep(aa: seq<real>, bb: seq<real>, cc: seq<real>,
                     a: seq<real>, b: seq<real>, c: seq<real>, ea: seq<real>, eb: seq<real>, ec: seq<real>)
    requires aa == a + ea && bb == b + eb && cc == c + ec
    requires multiset(a) == multiset(b) + multiset(c)
    requires multiset(ea) == multiset(eb) + multiset(ec)
    ensures multiset(aa) == multiset(bb) + multiset(cc)
  {
  }

  /** The grouped losses are exactly the losses of the tokens labelled with a
      class 0 .. n-1, each once: only their order changes. */
  lemma {:induction false} GroupedIsPermutation(feats: seq<seq<real>>, labels: seq<int>, n: nat, bank: Bank,
                                                tokenLoss: (Bank, seq<real>, int) -> real)
    requires |feats| == |labels|
    ensures multiset(Grouped(feats, labels, n, bank, tokenLoss)) ==
            multiset(InRangeLosses(feats, labels, n, bank, tokenLoss))
  {
    if n == 0 {
      InRangeEmpty(feats, labels, bank, tokenLoss);
      assert Grouped(feats, labels, 0, bank, tokenLoss) == [];
    } else {
      var m := n - 1;
      var g, c := Grouped(feats, labels, m, bank, tokenLoss), ClassLosses(feats, labels, m, bank, tokenLoss);
      var a, b := InRangeLosses(feats, labels, n, bank, tokenLoss), InRangeLosses(feats, labels, m, bank, tokenLoss);
      GroupedIsPermutation(feats, labels, m, bank, tokenLoss);
      InRangeStep(feats, labels, n, bank, tokenLoss);
      AppendPermutes(Grouped(feats, labels, n, bank, tokenLoss), g, c, a, b);
    }
  }

  lemma AppendPermutes(gc: seq<real>, g: seq<real>, c: seq<real>, a: seq<real>, b: seq<real>)
    requires gc == g + c
    requires multiset(g) == multiset(b) && multiset(a) == multiset(b) + multiset(c)
    ensures multiset(gc) == multiset(a)
  {
  }

  lemma {:induction false} InRangeEmpty(feats: seq<seq<real>>, labels: seq<int>, bank: Bank,
                                        tokenLoss: (Bank, seq<real>, int) -> real)
    requires |feats| == |labels|
    ensures InRangeLosses(feats, labels, 0, bank, tokenLoss) == []
  {
    if labels != [] {
      var k := |labels| - 1;
      InRangeEmpty(feats[..k], labels[..k], bank, tokenLoss);
    }
  }

  /** Before reduction the bank loss has one entry per surviving token whose
      label is a class 0 .. n-1. */
  lemma GroupedLength(feats: seq<seq<real>>, labels: seq<int>, n: nat, bank: Bank,
                      tokenLoss: (Bank, seq<real>, int) -> real)
    requires |feats| == |labels|
    ensures |Grouped(feats, labels, n, bank, tokenLoss)| == CountInRange(labels, n)
  {
    GroupedIsPermutation(feats, labels, n, bank, tokenLoss);
    InRangeLength(feats, labels, n, bank, tokenLoss);
    assert |multiset(Grouped(feats, labels, n, bank, tokenLoss))| ==
           |multiset(InRangeLosses(feats, labels, n, bank, tokenLoss))|;
  }

  /** The grouping reorders: two tokens labelled [1, 0] come out as class 0's
      loss first, then class 1's. */
  lemma GroupingReordersExample(q0: seq<real>, q1: seq<real>, bank: Bank,
                                tokenLoss: (Bank, seq<real>, int) -> real)
    ensures Grouped([q0, q1], [1, 0], 2, bank, tokenLoss) == [tokenLoss(bank, q1, 0), tokenLoss(bank, q0, 1)]
  {
    var feats, labels := [q0, q1], [1, 0];
    assert feats[..1] == [q0] && labels[..1] == [1];
    assert feats[..1][..0] == [] && labels[..1][..0] == [];
    assert ClassLosses(feats[..1], labels[..1], 0, bank, tokenLoss) == [];
    assert ClassLosses(feats, labels, 0, bank, tokenLoss) == [tokenLoss(bank, q1, 0)];
    assert ClassLosses(feats[..1], labels[..1], 1, bank, tokenLoss) == [tokenLoss(bank, q0, 1)];
    assert ClassLosses(feats, labels, 1, bank, tokenLoss) == [tokenLoss(bank, q0, 1)];
    assert Grouped(feats, labels, 1, bank, tokenLoss) == [tokenLoss(bank, q1, 0)];
  }

  /** The per-class loop of `bank_contrastive`: for every class, read every
      class's queue (failing on the first bad one), require negatives, and
      append the losses of the tokens of that class. */
  method GroupByClass(feats: seq<seq<real>>, labels: seq<int>, n: nat, bank: Bank, channels: nat,
                      tokenLoss: (Bank, seq<real>, int) -> real) returns (r: Result<seq<real>>)
    requires |feats| == |labels|
    ensures BankError(bank, channels, n).Some? ==> r == Err(BankError(bank, channels, n).value)
    ensures BankError(bank, channels, n).None? ==> r == Ok(Grouped(feats, labels, n, bank, tokenLoss))
  {
    var loss: seq<real> := [];
    var cls := 0;
    while cls < n
      invariant 0 <= cls <= n
      invariant cls > 0 ==> BankError(bank, channels, n).None?
      invariant loss == Grouped(feats, labels, cls, bank, tokenLoss)
    {
      var idx := 0;
      while idx < n
        invariant 0 <= idx <= n
        invariant ScanError(bank, channels, idx).None?
      {
        if QueueError(bank, channels, idx).Some? {
          ScanErrorSticks(bank, channels, idx + 1, n);
        }
        if idx >= |bank| {
          return Err(IndexError);
        }
        if bank[idx] == [] {
          return Err(EmptyConcatenation);
        }
        if exists x :: x in bank[idx] && x.width != channels {
          return Err(ShapeMismatch);
        }
        idx := idx + 1;
      }
      if n == 1 {
        return Err(EmptyConcatenation);
      }
      loss := loss + ClassLosses(feats, labels, cls, bank, tokenLoss);
      cls := cls + 1;
    }
    if n == 0 {
      return Err(EmptyConcatenation);
    }
    return Ok(loss);
  }

  /** `bank_contrastive` with its branch already selected: the bank is
      required, the mean only when the regulariser is on. */
  function BankLoss<M>(f: FeatureMap, mask: seq<seq<seq<int>>>, ignore: int, n: nat,
                       bank: Option<Bank>, mean: Option<M>,
                       weight: Option<Tensor>, reduction: string, avgFactor: Option<real>, regWeight: real,
                       tokenLoss: (Bank, seq<real>, int) -> real,
                       reg: (M, seq<seq<real>>) -> real): (r: Result<LossValue>)
    requires ValidFeatures(f) && MaskAtResolution(mask, f.height, f.width)
    requires weight.Some? ==> WellFormed(weight.value)
    ensures Prepare(f, mask, ignore).Err? ==> r == Err(Prepare(f, mask, ignore).error)
    ensures Prepare(f, mask, ignore).Ok? && (bank.None? || (regWeight > 0.0 && mean.None?)) ==>
      r == Err(AssertionFailed)
    ensures (Prepare(f, mask, ignore).Ok? && bank.Some? && (regWeight <= 0.0 || mean.Some?) &&
             Prepare(f, mask, ignore).value.feats == []) ==> r == Ok(ZeroLoss)
    ensures (Prepare(f, mask, ignore).Ok? && bank.Some? && (regWeight <= 0.0 || mean.Some?) &&
             Prepare(f, mask, ignore).value.feats != []) ==>
      var a := Prepare(f, mask, ignore).value;
      && (BankError(bank.value, f.channels, n).Some? ==> r == Err(BankError(bank.value, f.channels, n).value))
      && (BankError(bank.value, f.channels, n).None? ==>
            r == Finish(Grouped(a.feats, a.labels, n, bank.value, tokenLoss), weight, reduction, avgFactor,
                        regWeight, RegTerm(regWeight, mean, a.feats, reg)))
  {
    var a :- Prepare(f, mask, ignore);
    if bank.None? then Err(AssertionFailed)
    else if regWeight > 0.0 && mean.None? then Err(AssertionFailed)
    else if |a.feats| == 0 then Ok(ZeroLoss)
    else if BankError(bank.value, f.channels, n).Some? then Err(BankError(bank.value, f.channels, n).value)
    else
      Finish(Grouped(a.feats, a.labels, n, bank.value, tokenLoss), weight, reduction, avgFactor,
             regWeight, RegTerm(regWeight, mean, a.feats, reg))
  }

  /** `bank_contrastive`, with the grouping loop run as a loop. */
  method BankContrastive<M>(f: FeatureMap, mask: seq<seq<seq<int>>>, ignore: int, n: nat,
                            bank: Option<Bank>, mean: Option<M>,
                            weight: Option<Tensor>, reduction: string, avgFactor: Option<real>, regWeight: real,
                            tokenLoss: (Bank, seq<real>, int) -> real,
                            reg: (M, seq<seq<real>>) -> real) returns (r: Result<LossValue>)
    requires ValidFeatures(f) && MaskAtResolution(mask, f.height, f.width)
    requires weight.Some? ==> WellFormed(weight.value)
    ensures r == BankLoss(f, mask, ignore, n, bank, mean, weight, reduction, avgFactor, regWeight, tokenLoss, reg)
  {
    var prepared := Prepare(f, mask, ignore);
    if prepared.Err? {
      return Err(prepared.error);
    }
    var a := prepared.value;
    if bank.None? {
      return Err(AssertionFailed);
    }
    if regWeight > 0.0 && mean.None? {
      return Err(AssertionFailed);
    }
    if |a.feats| == 0 {
      return Ok(ZeroLoss);
    }
    var grouped := GroupByClass(a.feats, a.labels, n, bank.value, f.channels, tokenLoss);
    if grouped.Err? {
      return Err(grouped.error);
    }
    r := Finish(grouped.value, weight, reduction, avgFactor, regWeight, RegTerm(regWeight, mean, a.feats, reg));
  }

  // ---------------------------------------------------------------------
  // The empty batch

  /** When every pixel is ignored, each variant returns the zero scalar
      instead of failing. */
  lemma EmptyBatchIsZero<M, C>(f: FeatureMap, mask: seq<seq<seq<int>>>, ignore: int, n: nat,
                               mean: M, covariance: C, bank: Bank,
                               weight: Option<Tensor>, reduction: string, avgFactor: Option<real>, regWeight: real,
                               ce: (M, seq<real>, int) -> real,
                               dce: (M, C, seq<real>, int) -> real, jcl: (C, seq<real>, int) -> real,
                               tokenLoss: (Bank, seq<real>, int) -> real,
                               reg: (M, seq<seq<real>>) -> real)
    requires ValidFeatures(f) && MaskAtResolution(mask, f.height, f.width) && |mask| == |f.data|
    requires f.channels > 0 && (weight.Some? ==> WellFormed(weight.value))
    requires forall b, h, w :: 0 <= b < |mask| && 0 <= h < f.height && 0 <= w < f.width ==>
      mask[b][h][w] == ignore
    ensures ProtoContrastive(f, mask, ignore, Some(mean), weight, reduction, avgFactor, regWeight, ce, reg) ==
      Ok(ZeroLoss)
    ensures DistContrastive(f, mask, ignore, Some(mean), Some(covariance), weight, reduction, avgFactor,
                            regWeight, dce, jcl, reg) == Ok(ZeroLoss)
    ensures BankLoss(f, mask, ignore, n, Some(bank), Some(mean), weight, reduction, avgFactor, regWeight,
                     tokenLoss, reg) == Ok(ZeroLoss)
  {
    AllIgnoredLeavesNothing(f, mask, ignore);
  }
}
