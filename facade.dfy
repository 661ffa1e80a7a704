/** The loss facade (`ContrastiveLoss`) and the class-weight loader
    (`get_class_weight`). Construction checks the variant flags and selects
    the variant once; a call resolves the reduction, broadcasts a scalar loss
    weight over the branches of a list input (storing the list back on the
    object), and sums the weighted branch losses. The selected variant is a
    criterion function passed in; features, masks and the per-call weight
    and average factor are captured by it. */
module Facade {
  import opened Common

  // ---------------------------------------------------------------------
  // Class weights

  /** The `class_weight` argument: absent, a literal list, or a file path. */
  datatype ClassWeightArg = NoClassWeight | Literal(ws: seq<real>) | FromFile(path: string)

  datatype FileFormat = Npy | Pkl | Json | Yaml

  predicate EndsWith(s: string, suffix: string) {
    |suffix| <= |s| && s[|s| - |suffix|..] == suffix
  }

  /** The loader chosen by the path's extension, in the order they are tried. */
  function FormatOf(path: string): (r: Option<FileFormat>)
    ensures r == Some(Npy) <==> EndsWith(path, ".npy")
    ensures r == Some(Pkl) <==> EndsWith(path, ".pkl")
    ensures r == Some(Json) <==> EndsWith(path, ".json")
    ensures r == Some(Yaml) <==> EndsWith(path, ".yaml") || EndsWith(path, ".yml")
  {
    SuffixesExclude(path);
    if EndsWith(path, ".npy") then Some(Npy)
    else if EndsWith(path, ".pkl") then Some(Pkl)
    else if EndsWith(path, ".json") then Some(Json)
    else if EndsWith(path, ".yaml") || EndsWith(path, ".yml") then Some(Yaml)
    else None
  }

  /** A path cannot end with both a and b when b does not itself end with a. */
  lemma NotBoth(path: string, a: string, b: string)
    requires |a| <= |b| && !EndsWith(b, a)
    ensures !(EndsWith(path, a) && EndsWith(path, b))
  {
    if EndsWith(path, a) && EndsWith(path, b) {
      SuffixOfSuffix(path, a, b);
    }
  }

  lemma SuffixOfSuffix(s: string, a: string, b: string)
    requires EndsWith(s, a) && EndsWith(s, b) && |a| <= |b|
    ensures EndsWith(b, a)
  {
    var d := |b| - |a|;
    forall i | 0 <= i < |a| ensures b[d + i] == a[i] {
      assert b[d + i] == s[|s| - |b| + d + i];
      assert a[i] == s[|s| - |a| + i];
    }
  }

  /** No path ends with two of the known extensions. */
  lemma SuffixesExclude(path: string)
    ensures !(EndsWith(path, ".npy") && EndsWith(path, ".pkl"))
    ensures !(EndsWith(path, ".npy") && (EndsWith(path, ".json") || EndsWith(path, ".yaml") || EndsWith(path, ".yml")))
    ensures !(EndsWith(path, ".pkl") && (EndsWith(path, ".json") || EndsWith(path, ".yaml") || EndsWith(path, ".yml")))
    ensures !(EndsWith(path, ".json") && (EndsWith(path, ".yaml") || EndsWith(path, ".yml")))
  {
    assert ".pkl"[1] == 'p' && ".npy"[1] == 'n' && ".yml"[1] == 'y';
    assert ".json"[1] == 'j' && ".yaml"[1] == 'y' && ".json"[2] == 's' && ".yaml"[2] == 'a';
    NotBoth(path, ".npy", ".pkl");
    NotBoth(path, ".npy", ".json");
    NotBoth(path, ".npy", ".yaml");
    NotBoth(path, ".npy", ".yml");
    NotBoth(path, ".pkl", ".json");
    NotBoth(path, ".pkl", ".yaml");
    NotBoth(path, ".pkl", ".yml");
    NotBoth(path, ".json", ".yaml");
    NotBoth(path, ".yml", ".json");
  }

  lemma EndsWithAppended(stem: string, ext: string)
    ensures EndsWith(stem + ext, ext)
  {
    assert (stem + ext)[|stem + ext| - |ext|..] == ext;
  }

  /** Any file name with one of the five known extensions selects its loader;
      other extensions select none. */
  lemma KnownExtensions(stem: string)
    ensures FormatOf(stem + ".npy") == Some(Npy)
    ensures FormatOf(stem + ".pkl") == Some(Pkl)
    ensures FormatOf(stem + ".json") == Some(Json)
    ensures FormatOf(stem + ".yaml") == Some(Yaml) && FormatOf(stem + ".yml") == Some(Yaml)
    ensures FormatOf(stem + ".txt") == None
  {
    EndsWithAppended(stem, ".npy");
    EndsWithAppended(stem, ".pkl");
    EndsWithAppended(stem, ".json");
    EndsWithAppended(stem, ".yaml");
    EndsWithAppended(stem, ".yml");
    EndsWithAppended(stem, ".txt");
    var p := stem + ".txt";
    assert p[|p| - 1] == 't';
  }

  /** `get_class_weight`: a path is read by the loader of its extension (the
      file system is the `load` parameter); an unknown extension raises. */
  function GetClassWeight(arg: ClassWeightArg, load: (FileFormat, string) -> seq<real>): (r: Result<Option<seq<real>>>)
    ensures arg.NoClassWeight? ==> r == Ok(None)
    ensures arg.Literal? ==> r == Ok(Some(arg.ws))
    ensures arg.FromFile? ==> (r.Err? <==> FormatOf(arg.path).None?)
    ensures arg.FromFile? && r.Err? ==> r.error == UnsupportedFileFormat
    ensures arg.FromFile? && r.Ok? ==> r.value == Some(load(FormatOf(arg.path).value, arg.path))
  {
    match arg
    case NoClassWeight => Ok(None)
    case Literal(ws) => Ok(Some(ws))
    case FromFile(path) =>
      match FormatOf(path)
      case None => Err(UnsupportedFileFormat)
      case Some(fmt) => Ok(Some(load(fmt, path)))
  }

  // ---------------------------------------------------------------------
  // Configuration

  datatype Variant = ProtoVariant | DistVariant | BankVariant

  /** The constructor's checks and the variant selection: the two flags
      exclude each other, the class count is required, and the distribution
      variant wins over the bank variant, which wins over the prototypes. */
  function ValidateConfig(useDist: bool, useBank: bool, numClasses: Option<nat>): (r: Result<Variant>)
    ensures r.Err? <==> (useDist && useBank) || numClasses.None?
    ensures r.Err? ==> r.error == AssertionFailed
    ensures r.Ok? ==> (r.value == DistVariant <==> useDist)
    ensures r.Ok? ==> (r.value == BankVariant <==> useBank)
    ensures r.Ok? ==> (r.value == ProtoVariant <==> !useDist && !useBank)
  {
    if useDist && useBank then Err(AssertionFailed)
    else if numClasses.None? then Err(AssertionFailed)
    else if useDist then Ok(DistVariant)
    else if useBank then Ok(BankVariant)
    else Ok(ProtoVariant)
  }

  /** The loss weight: one number, or one per branch. */
  datatype LossWeight = Uniform(w: real) | PerBranch(ws: seq<real>)

  /** The first list input replaces a single weight by one copy per branch;
      a list already stored is kept as it is, whatever the branch count. */
  function Broadcast(lw: LossWeight, k: nat): (r: LossWeight)
    ensures r.PerBranch?
    ensures lw.Uniform? ==> |r.ws| == k && forall i :: 0 <= i < k ==> r.ws[i] == lw.w
    ensures lw.PerBranch? ==> r == lw
  {
    match lw
    case Uniform(w) => PerBranch(seq(k, _ => w))
    case PerBranch(_) => lw
  }

  /** The arguments every criterion call receives from the facade. */
  datatype CriterionCall = CriterionCall(index: Option<nat>, contrastTemp: real, useAvgPool: bool,
                                         scaleMinRatio: real, numClasses: nat,
                                         classWeight: Option<seq<real>>, reduction: string,
                                         regWeight: real)

  /** The override must be absent or one of the three reduction names. */
  predicate ValidOverride(o: Option<string>) {
    o.None? || o.value == "none" || o.value == "mean" || o.value == "sum"
  }

  // ---------------------------------------------------------------------
  // Branch losses

  /** `sum([ws[i] * criterion(index=i) for i in range(k)])`: each term reads
      the weight before calling the criterion, the first failure wins, and the
      sum starts from 0. */
  function BranchSum(ws: seq<real>, k: nat, v: Variant, call: CriterionCall,
                     crit: (Variant, CriterionCall) -> Result<Num>): Result<Num>
  {
    if k == 0 then Ok(Finite(0.0))
    else
      var prev :- BranchSum(ws, k - 1, v, call, crit);
      if k - 1 >= |ws| then Err(IndexError)
      else
        var loss :- crit(v, call.(index := Some(k - 1)));
        Ok(Add(prev, Mul(Finite(ws[k - 1]), loss)))
  }

  lemma {:induction false} BranchSumErrorSticks(ws: seq<real>, i: nat, k: nat, v: Variant, call: CriterionCall,
                                                crit: (Variant, CriterionCall) -> Result<Num>)
    requires i <= k && BranchSum(ws, i, v, call, crit).Err?
    ensures BranchSum(ws, k, v, call, crit) == BranchSum(ws, i, v, call, crit)
  {
    if k > i {
      BranchSumErrorSticks(ws, i, k - 1, v, call, crit);
    }
  }

  /** Every branch's criterion succeeds with a finite loss ls[i]. */
  predicate BranchesSucceed(ls: seq<real>, k: nat, v: Variant, call: CriterionCall,
                            crit: (Variant, CriterionCall) -> Result<Num>)
  {
    |ls| == k && forall i :: 0 <= i < k ==> crit(v, call.(index := Some(i))) == Ok(Finite(ls[i]))
  }

  /** Reference: the weighted total of the first k branch losses. */
  function WeightedTotal(ws: seq<real>, ls: seq<real>, k: nat): real
    requires k <= |ws| && k <= |ls|
  {
    if k == 0 then 0.0 else WeightedTotal(ws, ls, k - 1) + ws[k - 1] * ls[k - 1]
  }

  /** The plain total of the first k branch losses, in branch order like
      Python's `sum` over the branch list; it is indexed by the branch count
      as `BranchSum` and `WeightedTotal` are. */
  function BranchTotal(ls: seq<real>, k: nat): real
    requires k <= |ls|
  {
    if k == 0 then 0.0 else BranchTotal(ls, k - 1) + ls[k - 1]
  }

  /** With every branch succeeding and a weight for each branch, the result
      is the weighted sum of the branch losses. */
  lemma {:induction false} BranchSumIsWeightedTotal(ws: seq<real>, ls: seq<real>, k: nat, v: Variant,
                                                    call: CriterionCall,
                                                    crit: (Variant, CriterionCall) -> Result<Num>)
    requires BranchesSucceed(ls, k, v, call, crit) && k <= |ws|
    ensures BranchSum(ws, k, v, call, crit) == Ok(Finite(WeightedTotal(ws, ls, k)))
  {
    if k > 0 {
      BranchSumIsWeightedTotal(ws, ls[..k - 1], k - 1, v, call, crit);
      WeightedTotalPrefix(ws, ls, k - 1);
      assert crit(v, call.(index := Some(k - 1))) == Ok(Finite(ls[k - 1]));
      assert BranchSum(ws, k - 1, v, call, crit) == Ok(Finite(WeightedTotal(ws, ls, k - 1)));
      assert k - 1 < |ws|;
      assert BranchSum(ws, k, v, call, crit) ==
             Ok(Add(Finite(WeightedTotal(ws, ls, k - 1)), Mul(Finite(ws[k - 1]), Finite(ls[k - 1]))));
      var m := Mul(Finite(ws[k - 1]), Finite(ls[k - 1]));
      assert m == Finite(ws[k - 1] * ls[k - 1]);
      assert Add(Finite(WeightedTotal(ws, ls, k - 1)), m) == Finite(WeightedTotal(ws, ls, k));
    }
  }

  lemma {:induction false} WeightedTotalPrefix(ws: seq<real>, ls: seq<real>, k: nat)
    requires k < |ls| && k <= |ws|
    ensures WeightedTotal(ws, ls[..k], k) == WeightedTotal(ws, ls, k)
  {
    if k > 0 {
      WeightedTotalPrefix(ws, ls, k - 1);
      assert ls[..k][..k - 1] == ls[..k - 1];
      WeightedTotalPrefix(ws, ls[..k], k - 1);
    }
  }

  /** A broadcast single weight w factors out: w times the plain sum. */
  lemma {:induction false} UniformWeightFactorsOut(w: real, ls: seq<real>, k: nat)
    requires k <= |ls|
    ensures WeightedTotal(seq(k, _ => w), ls, k) == w * BranchTotal(ls, k)
  {
    if k > 0 {
      UniformWeightFactorsOut(w, ls, k - 1);
      WeightedTotalOfEqualWeights(seq(k, _ => w), seq(k - 1, _ => w), ls, k - 1);
    }
  }

  lemma {:induction false} WeightedTotalOfEqualWeights(ws: seq<real>, ws': seq<real>, ls: seq<real>, k: nat)
    requires k <= |ws| && k <= |ws'| && k <= |ls|
    requires forall i :: 0 <= i < k ==> ws[i] == ws'[i]
    ensures WeightedTotal(ws, ls, k) == WeightedTotal(ws', ls, k)
  {
    if k > 0 {
      WeightedTotalOfEqualWeights(ws, ws', ls, k - 1);
    }
  }

  /** With every branch succeeding, the call fails exactly when the stored
      weight list is shorter than the branch list, and then with IndexError. */
  lemma {:induction false} BranchSumFailsOnShortList(ws: seq<real>, ls: seq<real>, k: nat, v: Variant,
                                                     call: CriterionCall,
                                                     crit: (Variant, CriterionCall) -> Result<Num>)
    requires BranchesSucceed(ls, k, v, call, crit)
    ensures BranchSum(ws, k, v, call, crit).Err? <==> |ws| < k
    ensures BranchSum(ws, k, v, call, crit).Err? ==> BranchSum(ws, k, v, call, crit).error == IndexError
  {
    if k > 0 {
      BranchSumFailsOnShortList(ws, ls[..k - 1], k - 1, v, call, crit);
      assert crit(v, call.(index := Some(k - 1))) == Ok(Finite(ls[k - 1]));
    }
  }

  /** The single-input result: a stored weight list cannot multiply a loss. */
  function SingleLoss(lw: LossWeight, loss: Result<Num>): (r: Result<Num>)
    ensures loss.Err? ==> r == loss
    ensures loss.Ok? ==> (r.Err? <==> lw.PerBranch?)
    ensures loss.Ok? && lw.PerBranch? ==> r == Err(TypeError)
    ensures loss.Ok? && lw.Uniform? ==> r == Ok(Mul(Finite(lw.w), loss.value))
  {
    var l :- loss;
    if lw.PerBranch? then Err(TypeError) else Ok(Mul(Finite(lw.w), l))
  }

  // ---------------------------------------------------------------------
  // The facade object

  class ContrastiveLoss {
    const variant: Variant
    const useReg: bool
    const useAvgPool: bool
    const scaleMinRatio: real
    const numClasses: nat
    const contrastTemp: real
    const reduction: string
    const classWeight: Option<seq<real>>
    const regWeight: real
    var lossWeight: LossWeight

    constructor (variant: Variant, useReg: bool, useAvgPool: bool, scaleMinRatio: real, numClasses: nat,
                 contrastTemp: real, reduction: string, classWeight: Option<seq<real>>,
                 lossWeight: LossWeight, regWeight: real)
      ensures this.variant == variant && this.useReg == useReg && this.useAvgPool == useAvgPool
      ensures this.scaleMinRatio == scaleMinRatio && this.numClasses == numClasses
      ensures this.contrastTemp == contrastTemp && this.reduction == reduction
      ensures this.classWeight == classWeight && this.lossWeight == lossWeight && this.regWeight == regWeight
    {
      this.variant := variant;
      this.useReg := useReg;
      this.useAvgPool := useAvgPool;
      this.scaleMinRatio := scaleMinRatio;
      this.numClasses := numClasses;
      this.contrastTemp := contrastTemp;
      this.reduction := reduction;
      this.classWeight := classWeight;
      this.lossWeight := lossWeight;
      this.regWeight := regWeight;
    }

    /** `ContrastiveLoss.__init__`: the flag and class-count assertions, then
        the class weights, then the variant selection. */
    static method Create(useDist: bool, useBank: bool, useReg: bool, useAvgPool: bool, scaleMinRatio: real,
                         numClasses: Option<nat>, contrastTemp: real, reduction: string,
                         classWeight: ClassWeightArg, load: (FileFormat, string) -> seq<real>,
                         lossWeight: LossWeight, regRelativeWeight: real) returns (r: Result<ContrastiveLoss>)
      ensures r.Err? <==> ValidateConfig(useDist, useBank, numClasses).Err? || GetClassWeight(classWeight, load).Err?
      ensures ValidateConfig(useDist, useBank, numClasses).Err? ==> r == Err(AssertionFailed)
      ensures ValidateConfig(useDist, useBank, numClasses).Ok? && GetClassWeight(classWeight, load).Err? ==>
        r == Err(UnsupportedFileFormat)
      ensures r.Ok? ==> fresh(r.value)
      ensures r.Ok? ==> r.value.variant == ValidateConfig(useDist, useBank, numClasses).value
      ensures r.Ok? ==> r.value.numClasses == numClasses.value && r.value.reduction == reduction
      ensures r.Ok? ==> r.value.classWeight == GetClassWeight(classWeight, load).value
      ensures r.Ok? ==> r.value.lossWeight == lossWeight && r.value.regWeight == regRelativeWeight
      ensures r.Ok? ==> r.value.useReg == useReg && r.value.useAvgPool == useAvgPool
      ensures r.Ok? ==> r.value.scaleMinRatio == scaleMinRatio && r.value.contrastTemp == contrastTemp
    {
      var variant := ValidateConfig(useDist, useBank, numClasses);
      if variant.Err? {
        return Err(variant.error);
      }
      var weights := GetClassWeight(classWeight, load);
      if weights.Err? {
        return Err(weights.error);
      }
      var loss := new ContrastiveLoss(variant.value, useReg, useAvgPool, scaleMinRatio, numClasses.value,
                                      contrastTemp, reduction, weights.value, lossWeight, regRelativeWeight);
      return Ok(loss);
    }

    /** The criterion arguments of one call: the override beats the stored
        reduction, and the regulariser weight is passed only when enabled. */
    function Call(index: Option<nat>, reductionOverride: Option<string>): (c: CriterionCall)
      ensures c.index == index
      ensures c.reduction == (if reductionOverride.Some? then reductionOverride.value else reduction)
      ensures c.regWeight == (if useReg then regWeight else 0.0)
      ensures c.numClasses == numClasses && c.classWeight == classWeight && c.contrastTemp == contrastTemp
    {
      CriterionCall(index, contrastTemp, useAvgPool, scaleMinRatio, numClasses, classWeight,
                    if reductionOverride.Some? then reductionOverride.value else reduction,
                    if useReg then regWeight else 0.0)
    }

    /** `ContrastiveLoss.forward` as written. `branches` is the length of a
        list input, or None for a single feature map. The class weights are
        converted with `feat.new_tensor` before the input's type is tested, so
        a list input with class weights raises AttributeError (a list has no
        `new_tensor`) before any weight is stored. */
    method Forward(branches: Option<nat>, reductionOverride: Option<string>,
                   crit: (Variant, CriterionCall) -> Result<Num>) returns (r: Result<Num>)
      modifies this
      ensures !ValidOverride(reductionOverride) ==> r == Err(AssertionFailed) && lossWeight == old(lossWeight)
      ensures ValidOverride(reductionOverride) && branches.Some? && classWeight.Some? ==>
        r == Err(AttributeError) && lossWeight == old(lossWeight)
      ensures ValidOverride(reductionOverride) && branches.Some? && classWeight.None? ==>
        lossWeight == Broadcast(old(lossWeight), branches.value) &&
        r == BranchSum(lossWeight.ws, branches.value, variant, Call(None, reductionOverride), crit)
      ensures ValidOverride(reductionOverride) && branches.None? ==>
        lossWeight == old(lossWeight) &&
        r == SingleLoss(lossWeight, crit(variant, Call(None, reductionOverride)))
    {
      if ValidOverride(reductionOverride) && branches.Some? && classWeight.Some? {
        return Err(AttributeError);
      }
      r := ForwardConverted(branches, reductionOverride, crit);
    }

    /** `ContrastiveLoss.forward` with the class weights converted on a tensor
        of the input (for a list, one of its branches), so that list inputs
        with class weights reach the per-branch loop. */
    method ForwardConverted(branches: Option<nat>, reductionOverride: Option<string>,
                            crit: (Variant, CriterionCall) -> Result<Num>) returns (r: Result<Num>)
      modifies this
      ensures !ValidOverride(reductionOverride) ==> r == Err(AssertionFailed) && lossWeight == old(lossWeight)
      ensures ValidOverride(reductionOverride) && branches.Some? ==>
        lossWeight == Broadcast(old(lossWeight), branches.value) &&
        r == BranchSum(lossWeight.ws, branches.value, variant, Call(None, reductionOverride), crit)
      ensures ValidOverride(reductionOverride) && branches.None? ==>
        lossWeight == old(lossWeight) &&
        r == SingleLoss(lossWeight, crit(variant, Call(None, reductionOverride)))
    {
      if !ValidOverride(reductionOverride) {
        return Err(AssertionFailed);
      }
      var call := Call(None, reductionOverride);
      if branches.None? {
        var loss := crit(variant, call);
        if loss.Err? {
          return Err(loss.error);
        }
        if lossWeight.PerBranch? {
          return Err(TypeError);
        }
        return Ok(Mul(Finite(lossWeight.w), loss.value));
      }
      var k := branches.value;
      if lossWeight.Uniform? {
        var w := lossWeight.w;
        lossWeight := PerBranch(seq(k, _ => w));
      }
      var ws := lossWeight.ws;
      var total := Finite(0.0);
      var i := 0;
      while i < k
        invariant 0 <= i <= k
        invariant BranchSum(ws, i, variant, call, crit) == Ok(total)
      {
        if i >= |ws| {
          BranchSumErrorSticks(ws, i + 1, k, variant, call, crit);
          return Err(IndexError);
        }
        var loss := crit(variant, call.(index := Some(i)));
        if loss.Err? {
          BranchSumErrorSticks(ws, i + 1, k, variant, call, crit);
          return Err(loss.error);
        }
        total := Add(total, Mul(Finite(ws[i]), loss.value));
        i := i + 1;
      }
      return Ok(total);
    }
  }

  /** Two list calls in a row: the first stores one weight per branch, and a
      later call with more branches fails with IndexError even though every
      criterion call would succeed. */
  lemma StoredListOutlivesBranchCount(w: real, k: nat, k': nat, ls: seq<real>, v: Variant, call: CriterionCall,
                                      crit: (Variant, CriterionCall) -> Result<Num>)
    requires k < k' && BranchesSucceed(ls, k', v, call, crit)
    ensures BranchSum(Broadcast(Uniform(w), k).ws, k', v, call, crit) == Err(IndexError)
  {
    BranchSumFailsOnShortList(Broadcast(Uniform(w), k).ws, ls, k', v, call, crit);
  }

  /** With a single weight w and every branch succeeding, a list call returns
      w times the sum of the branch losses. */
  lemma UniformWeightScalesBranchSum(w: real, ls: seq<real>, k: nat, v: Variant, call: CriterionCall,
                                     crit: (Variant, CriterionCall) -> Result<Num>)
    requires BranchesSucceed(ls, k, v, call, crit)
    ensures BranchSum(Broadcast(Uniform(w), k).ws, k, v, call, crit) == Ok(Finite(w * BranchTotal(ls, k)))
  {
    var ws := Broadcast(Uniform(w), k).ws;
    BranchSumIsWeightedTotal(ws, ls, k, v, call, crit);
    assert ws == seq(k, _ => w);
    UniformWeightFactorsOut(w, ls, k);
  }
}
