/** The label downscaler (`downscale_label_ratio`). A (B, 1, H, W) label map
    becomes a (B, 1, H div s, W div s) map. Each output cell holds the most
    frequent class of its s x s block, and becomes the ignore index when that
    class is the placeholder standing for ignored pixels or when its share of
    the block is below the minimum ratio. One-hot encoding followed by average
    pooling is modelled by integer occurrence counts: the share of class k is
    count(k) / (s * s). */
module Downscale {
  import opened Common

  // ---------------------------------------------------------------------
  // One block, as the sequence of its (relabelled) pixel labels

  /** Ignored pixels are counted under the placeholder class n. */
  function Relabel(v: int, ignore: int, n: nat): int {
    if v == ignore then n else v
  }

  function RelabelAll(block: seq<int>, ignore: int, n: nat): (r: seq<int>)
    ensures |r| == |block|
  {
    seq(|block|, k requires 0 <= k < |block| => Relabel(block[k], ignore, n))
  }

  /** Number of pixels of the block labelled k (the pooled one-hot channel k, times s * s). */
  function Occ(block: seq<int>, k: int): nat {
    multiset(block)[k]
  }

  /** Share of the block labelled k: the average-pooled one-hot channel k. */
  function Share(block: seq<int>, k: int): real
    requires |block| > 0
  {
    (Occ(block, k) as real) / (|block| as real)
  }

  /** c is a most frequent label among the channels 0..n (n is the placeholder). */
  ghost predicate IsArgMax(block: seq<int>, n: nat, c: int) {
    0 <= c <= n && forall k :: 0 <= k <= n ==> Occ(block, k) <= Occ(block, c)
  }

  /** An arg-max over the channels 0..m. This one returns the first maximum;
      the specification below admits any. */
  function ArgMaxUpTo(block: seq<int>, m: nat): (c: nat)
    ensures IsArgMax(block, m, c)
  {
    if m == 0 then 0
    else
      var c := ArgMaxUpTo(block, m - 1);
      if Occ(block, m) > Occ(block, c) then m else c
  }

  /** Lines 168-169: the arg-max class c becomes the ignore index if it is the
      placeholder, or if its share is below the minimum ratio. */
  function CellValue(block: seq<int>, n: nat, ignore: int, minRatio: real, c: int): int
    requires |block| > 0
  {
    var cls := if c == n then ignore else c;
    if Share(block, c) < minRatio then ignore else cls
  }

  /** v is what the downscaler may write for this block, whichever arg-max the
      maximum over channels returns when several classes tie. */
  ghost predicate Admissible(block: seq<int>, n: nat, ignore: int, minRatio: real, v: int)
    requires |block| > 0
  {
    exists c :: IsArgMax(block, n, c) && v == CellValue(block, n, ignore, minRatio, c)
  }

  /** Every admissible output is a real class or the ignore index. */
  lemma AdmissibleInRange(block: seq<int>, n: nat, ignore: int, minRatio: real, v: int)
    requires |block| > 0 && Admissible(block, n, ignore, minRatio, v)
    ensures (0 <= v < n) || v == ignore
  {
  }

  /** A non-ignored output is an arg-max class whose share reaches the minimum ratio. */
  lemma AdmissibleClassIsPure(block: seq<int>, n: nat, ignore: int, minRatio: real, v: int)
    requires |block| > 0 && Admissible(block, n, ignore, minRatio, v) && v != ignore
    ensures 0 <= v < n && IsArgMax(block, n, v) && Share(block, v) >= minRatio
  {
  }

  lemma {:induction false} OccOfUniform(block: seq<int>, c: int, k: int)
    requires forall t :: 0 <= t < |block| ==> block[t] == c
    ensures Occ(block, k) == if k == c then |block| else 0
  {
    if block != [] {
      var n := |block| - 1;
      assert block == block[..n] + [block[n]];
      OccOfUniform(block[..n], c, k);
    }
  }

  lemma {:induction false} OccOfTwo(block: seq<int>, c1: int, c2: int)
    requires c1 != c2
    requires forall t :: 0 <= t < |block| ==> block[t] == c1 || block[t] == c2
    ensures Occ(block, c1) + Occ(block, c2) == |block|
  {
    if block != [] {
      var n := |block| - 1;
      assert block == block[..n] + [block[n]];
      OccOfTwo(block[..n], c1, c2);
    }
  }

  /** A block filled with one real class c gives c, for any minimum ratio up to 1. */
  lemma UniformBlock(block: seq<int>, c: int, n: nat, ignore: int, minRatio: real, v: int)
    requires |block| > 0 && 0 <= c < n && minRatio <= 1.0
    requires forall t :: 0 <= t < |block| ==> block[t] == c
    ensures Admissible(block, n, ignore, minRatio, v) <==> v == c
  {
    OccOfUniform(block, c, c);
    forall k ensures Occ(block, k) == if k == c then |block| else 0 {
      OccOfUniform(block, c, k);
    }
    assert IsArgMax(block, n, c);
    assert Share(block, c) == 1.0;
    if Admissible(block, n, ignore, minRatio, v) {
      var c' :| IsArgMax(block, n, c') && v == CellValue(block, n, ignore, minRatio, c');
      assert Occ(block, c') >= Occ(block, c);
    }
  }

  /** A block split evenly between two classes has share one half, so any
      minimum ratio above one half turns it into the ignore index. */
  lemma EvenSplitIsIgnored(block: seq<int>, c1: int, c2: int, n: nat, ignore: int, minRatio: real, v: int)
    requires |block| > 0 && 0 <= c1 < n && 0 <= c2 < n && c1 != c2 && minRatio > 0.5
    requires forall t :: 0 <= t < |block| ==> block[t] == c1 || block[t] == c2
    requires Occ(block, c1) == Occ(block, c2)
    ensures Admissible(block, n, ignore, minRatio, v) <==> v == ignore
  {
    OccOfTwo(block, c1, c2);
    var c := ArgMaxUpTo(block, n);
    forall c' | IsArgMax(block, n, c') ensures Share(block, c') < minRatio {
      assert Occ(block, c') >= Occ(block, c1) > 0;
      assert c' in multiset(block);
      assert c' == c1 || c' == c2;
      HalfShare(block, c');
    }
    if v == ignore {
      assert v == CellValue(block, n, ignore, minRatio, c);
    }
  }

  lemma HalfShare(block: seq<int>, k: int)
    requires |block| > 0 && 2 * Occ(block, k) == |block|
    ensures Share(block, k) == 0.5
  {
    var o := Occ(block, k) as real;
    assert |block| as real == 2.0 * o && o > 0.0;
    HalfOf(o);
  }

  lemma HalfOf(o: real)
    requires o > 0.0
    ensures o / (2.0 * o) == 0.5
  {
    assert 0.5 * (2.0 * o) == o;
  }

  // ---------------------------------------------------------------------
  // Label maps as arrays of shape (B, C, H, W)

  lemma BlockFits(i: nat, s: nat, len: nat)
    requires 0 < s && i < len / s
    ensures i * s + s <= len
  {
    var q := len / s;
    assert q * s + len % s == len;
    MulMonotone(i + 1, q, s);
    assert i * s + s == (i + 1) * s;
  }

  lemma MulMonotone(a: nat, b: nat, s: nat)
    requires a <= b
    ensures a * s <= b * s
  {
    assert b * s == a * s + (b - a) * s;
  }

  /** The labels of rows r0 .. r0+rows-1, columns c0 .. c0+s-1 of map b, row by row. */
  function BlockRows(a: array4<int>, b: nat, r0: nat, c0: nat, s: nat, rows: nat): (blk: seq<int>)
    requires b < a.Length0 && 0 < a.Length1 && r0 + rows <= a.Length2 && c0 + s <= a.Length3
    reads a
    ensures |blk| == rows * s
  {
    if rows == 0 then []
    else
      BlockRows(a, b, r0, c0, s, rows - 1) +
      seq(s, c requires 0 <= c < s reads a => a[b, 0, r0 + rows - 1, c0 + c])
  }

  /** The s x s block pooled into output cell (b, i, j). */
  function CellBlock(a: array4<int>, b: nat, i: nat, j: nat, s: nat): (blk: seq<int>)
    requires 0 < s && b < a.Length0 && 0 < a.Length1 && i < a.Length2 / s && j < a.Length3 / s
    reads a
    ensures |blk| == s * s
  {
    BlockFits(i, s, a.Length2);
    BlockFits(j, s, a.Length3);
    BlockRows(a, b, i * s, j * s, s, s)
  }

  lemma {:induction false} BlockRowsRelabelled(lab: array4<int>, gt: array4<int>, ignore: int, n: nat,
                                               b: nat, r0: nat, c0: nat, s: nat, rows: nat)
    requires lab.Length0 == gt.Length0 && lab.Length1 == gt.Length1 && 0 < gt.Length1
    requires lab.Length2 == gt.Length2 && lab.Length3 == gt.Length3
    requires b < gt.Length0 && r0 + rows <= gt.Length2 && c0 + s <= gt.Length3
    requires forall r, c :: 0 <= r < gt.Length2 && 0 <= c < gt.Length3 ==>
      lab[b, 0, r, c] == Relabel(gt[b, 0, r, c], ignore, n)
    ensures BlockRows(lab, b, r0, c0, s, rows) == RelabelAll(BlockRows(gt, b, r0, c0, s, rows), ignore, n)
  {
    if rows > 0 {
      BlockRowsRelabelled(lab, gt, ignore, n, b, r0, c0, s, rows - 1);
    }
  }

  /** Every pixel, after relabelling, is a valid one-hot channel 0..n. */
  predicate LabelsInRange(a: array4<int>, n: nat)
    reads a
  {
    forall b, c, i, j | 0 <= b < a.Length0 && 0 <= c < a.Length1 && 0 <= i < a.Length2 && 0 <= j < a.Length3 ::
      0 <= a[b, c, i, j] <= n
  }

  ghost predicate RelabelledInRange(gt: array4<int>, n: nat, ignore: int)
    reads gt
  {
    forall b, c, i, j | 0 <= b < gt.Length0 && 0 <= c < gt.Length1 && 0 <= i < gt.Length2 && 0 <= j < gt.Length3 ::
      0 <= Relabel(gt[b, c, i, j], ignore, n) <= n
  }

  /** The failure, if any, in the order the checks happen: the scale assertion,
      the single-channel assertion, the one-hot encoding of a label outside
      0..n, and the pooling of a map smaller than one block. */
  ghost function DownscaleError(gt: array4<int>, scale: int, n: nat, ignore: int): Option<Error>
    reads gt
  {
    if scale < 1 then Some(AssertionFailed)
    else if scale == 1 then None
    else if gt.Length1 != 1 then Some(AssertionFailed)
    else if !RelabelledInRange(gt, n, ignore) then Some(InvalidClassIndex)
    else if gt.Length2 < scale || gt.Length3 < scale then Some(ShapeMismatch)
    else None
  }

  ghost predicate SameLabels(a: array4<int>, gt: array4<int>)
    reads a, gt
  {
    && a.Length0 == gt.Length0 && a.Length1 == gt.Length1 && a.Length2 == gt.Length2 && a.Length3 == gt.Length3
    && forall b, c, i, j | 0 <= b < a.Length0 && 0 <= c < a.Length1 && 0 <= i < a.Length2 && 0 <= j < a.Length3 ::
         a[b, c, i, j] == gt[b, c, i, j]
  }

  /** out is a downscaling of the single-channel map gt by s: shape
      (B, 1, H div s, W div s), and every cell admissible for its block. */
  ghost predicate IsDownscaling(gt: array4<int>, out: array4<int>, s: nat, minRatio: real, n: nat, ignore: int)
    reads gt, out
    requires 1 < s && gt.Length1 == 1
  {
    && out.Length0 == gt.Length0 && out.Length1 == 1
    && out.Length2 == gt.Length2 / s && out.Length3 == gt.Length3 / s
    && forall b, i, j | 0 <= b < out.Length0 && 0 <= i < out.Length2 && 0 <= j < out.Length3 ::
         Admissible(RelabelAll(CellBlock(gt, b, i, j, s), ignore, n), n, ignore, minRatio, out[b, 0, i, j])
  }

  /** Every cell of a downscaled map is a real class or the ignore index. */
  lemma DownscaledCellsInRange(gt: array4<int>, out: array4<int>, s: nat, minRatio: real, n: nat, ignore: int)
    requires 1 < s && gt.Length1 == 1 && IsDownscaling(gt, out, s, minRatio, n, ignore)
    ensures forall b, i, j | 0 <= b < out.Length0 && 0 <= i < out.Length2 && 0 <= j < out.Length3 ::
      (0 <= out[b, 0, i, j] < n) || out[b, 0, i, j] == ignore
  {
    forall b, i, j | 0 <= b < out.Length0 && 0 <= i < out.Length2 && 0 <= j < out.Length3
      ensures (0 <= out[b, 0, i, j] < n) || out[b, 0, i, j] == ignore
    {
      var blk := RelabelAll(CellBlock(gt, b, i, j, s), ignore, n);
      AdmissibleInRange(blk, n, ignore, minRatio, out[b, 0, i, j]);
    }
  }

  // ---------------------------------------------------------------------
  // The in-place steps

  /** `gt.clone()`. */
  method Clone(a: array4<int>) returns (c: array4<int>)
    ensures fresh(c) && SameLabels(c, a)
  {
    c := new int[a.Length0, a.Length1, a.Length2, a.Length3];
    forall b, k, i, j | 0 <= b < a.Length0 && 0 <= k < a.Length1 && 0 <= i < a.Length2 && 0 <= j < a.Length3 {
      c[b, k, i, j] := a[b, k, i, j];
    }
  }

  /** The masked assignment `a[a == target] = v`. */
  method ReplaceWhereEqual(a: array4<int>, target: int, v: int)
    modifies a
    ensures forall b, k, i, j | 0 <= b < a.Length0 && 0 <= k < a.Length1 && 0 <= i < a.Length2 && 0 <= j < a.Length3 ::
      a[b, k, i, j] == (if old(a[b, k, i, j]) == target then v else old(a[b, k, i, j]))
  {
    forall b, k, i, j | 0 <= b < a.Length0 && 0 <= k < a.Length1 && 0 <= i < a.Length2 && 0 <= j < a.Length3 {
      a[b, k, i, j] := if a[b, k, i, j] == target then v else a[b, k, i, j];
    }
  }

  /** The masked assignment `a[ratio < minRatio] = v`. */
  method ReplaceWhereBelow(a: array4<int>, ratio: array4<real>, minRatio: real, v: int)
    requires ratio.Length0 == a.Length0 && ratio.Length1 == a.Length1
    requires ratio.Length2 == a.Length2 && ratio.Length3 == a.Length3
    modifies a
    ensures forall b, k, i, j | 0 <= b < a.Length0 && 0 <= k < a.Length1 && 0 <= i < a.Length2 && 0 <= j < a.Length3 ::
      a[b, k, i, j] == (if ratio[b, k, i, j] < minRatio then v else old(a[b, k, i, j]))
  {
    forall b, k, i, j | 0 <= b < a.Length0 && 0 <= k < a.Length1 && 0 <= i < a.Length2 && 0 <= j < a.Length3 {
      a[b, k, i, j] := if ratio[b, k, i, j] < minRatio then v else a[b, k, i, j];
    }
  }

  /** One-hot encoding, average pooling with kernel s and the maximum over
      channels: the arg-max channel of every block and its share. */
  method Pool(lab: array4<int>, s: nat, n: nat) returns (out: array4<int>, ratio: array4<real>)
    requires 1 < s && lab.Length1 == 1 && s <= lab.Length2 && s <= lab.Length3
    ensures fresh(out) && fresh(ratio)
    ensures out.Length0 == lab.Length0 && out.Length1 == 1 && out.Length2 == lab.Length2 / s && out.Length3 == lab.Length3 / s
    ensures ratio.Length0 == out.Length0 && ratio.Length1 == 1 && ratio.Length2 == out.Length2 && ratio.Length3 == out.Length3
    ensures forall b, i, j | 0 <= b < out.Length0 && 0 <= i < out.Length2 && 0 <= j < out.Length3 ::
      out[b, 0, i, j] == ArgMaxUpTo(CellBlock(lab, b, i, j, s), n) &&
      ratio[b, 0, i, j] == Share(CellBlock(lab, b, i, j, s), out[b, 0, i, j])
  {
    var th, tw := lab.Length2 / s, lab.Length3 / s;
    out := new int[lab.Length0, 1, th, tw];
    ratio := new real[lab.Length0, 1, th, tw];
    forall b, i, j | 0 <= b < lab.Length0 && 0 <= i < th && 0 <= j < tw {
      out[b, 0, i, j] := ArgMaxUpTo(CellBlock(lab, b, i, j, s), n);
    }
    forall b, i, j | 0 <= b < lab.Length0 && 0 <= i < th && 0 <= j < tw {
      ratio[b, 0, i, j] := Share(CellBlock(lab, b, i, j, s), out[b, 0, i, j]);
    }
  }

  /** A cell resolved from the pooled arg-max of the relabelled copy is
      admissible for the block of the original map. */
  lemma PooledCellAdmissible(lab: array4<int>, gt: array4<int>, b: nat, i: nat, j: nat, s: nat,
                             minRatio: real, n: nat, ignore: int)
    requires 1 < s && gt.Length1 == 1
    requires lab.Length0 == gt.Length0 && lab.Length1 == 1 && lab.Length2 == gt.Length2 && lab.Length3 == gt.Length3
    requires b < gt.Length0 && i < gt.Length2 / s && j < gt.Length3 / s
    requires forall r, c :: 0 <= r < gt.Length2 && 0 <= c < gt.Length3 ==>
      lab[b, 0, r, c] == Relabel(gt[b, 0, r, c], ignore, n)
    ensures var blk := CellBlock(lab, b, i, j, s);
      Admissible(RelabelAll(CellBlock(gt, b, i, j, s), ignore, n), n, ignore, minRatio,
                 CellValue(blk, n, ignore, minRatio, ArgMaxUpTo(blk, n)))
  {
    BlockFits(i, s, gt.Length2);
    BlockFits(j, s, gt.Length3);
    BlockRowsRelabelled(lab, gt, ignore, n, b, i * s, j * s, s, s);
  }

  /** `downscale_label_ratio`. The input map is never modified: every step
      works on a fresh copy. */
  method DownscaleLabelRatio(gt: array4<int>, scale: int, minRatio: real, nClasses: nat, ignoreIndex: int)
    returns (r: Result<array4<int>>)
    ensures r.Err? <==> DownscaleError(gt, scale, nClasses, ignoreIndex).Some?
    ensures r.Err? ==> r.error == DownscaleError(gt, scale, nClasses, ignoreIndex).value
    ensures unchanged(gt)
    ensures r.Ok? ==> fresh(r.value)
    ensures r.Ok? && scale == 1 ==> SameLabels(r.value, gt)
    ensures r.Ok? && scale > 1 ==> gt.Length1 == 1 && IsDownscaling(gt, r.value, scale, minRatio, nClasses, ignoreIndex)
  {
    if scale < 1 {
      return Err(AssertionFailed);
    }
    if scale == 1 {
      var copy := Clone(gt);
      return Ok(copy);
    }
    if gt.Length1 != 1 {
      return Err(AssertionFailed);
    }
    var lab := Clone(gt);
    ReplaceWhereEqual(lab, ignoreIndex, nClasses);
    if !LabelsInRange(lab, nClasses) {
      return Err(InvalidClassIndex);
    }
    if gt.Length2 < scale || gt.Length3 < scale {
      return Err(ShapeMismatch);
    }
    var out, ratio := Pool(lab, scale, nClasses);
    ReplaceWhereEqual(out, nClasses, ignoreIndex);
    ReplaceWhereBelow(out, ratio, minRatio, ignoreIndex);
    forall b, i, j | 0 <= b < out.Length0 && 0 <= i < out.Length2 && 0 <= j < out.Length3
      ensures Admissible(RelabelAll(CellBlock(gt, b, i, j, scale), ignoreIndex, nClasses),
                         nClasses, ignoreIndex, minRatio, out[b, 0, i, j])
    {
      PooledCellAdmissible(lab, gt, b, i, j, scale, minRatio, nClasses, ignoreIndex);
    }
    return Ok(out);
  }
}
