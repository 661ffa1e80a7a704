/** The feature/mask aligner (`contrast_preparations`): a (B, C, H, W) feature
    map becomes one token row of C values per pixel in raster order, the
    label mask is flattened in the same order, and the tokens labelled with
    the ignore index are dropped from both in lockstep. */
module Align {
  import opened Common

  /** A feature map of shape (B, C, H, W), indexed data[b][c][h][w]. The
      shape is kept so that an empty batch still has C, H and W. */
  datatype FeatureMap = FeatureMap(channels: nat, height: nat, width: nat,
                                   data: seq<seq<seq<seq<real>>>>)

  /** Surviving tokens: feature rows and their labels, position by position. */
  datatype Aligned = Aligned(feats: seq<seq<real>>, labels: seq<int>)

  predicate ValidFeatures(f: FeatureMap) {
    forall b :: 0 <= b < |f.data| ==>
      |f.data[b]| == f.channels &&
      forall c :: 0 <= c < f.channels ==>
        |f.data[b][c]| == f.height &&
        forall h :: 0 <= h < f.height ==> |f.data[b][c][h]| == f.width
  }

  /** A single-channel mask, indexed mask[b][h][w], at resolution H x W. */
  predicate MaskAtResolution(mask: seq<seq<seq<int>>>, height: nat, width: nat) {
    forall b :: 0 <= b < |mask| ==>
      |mask[b]| == height && forall h :: 0 <= h < height ==> |mask[b][h]| == width
  }

  function Flatten<T>(xss: seq<seq<T>>): seq<T> {
    if xss == [] then [] else xss[0] + Flatten(xss[1..])
  }

  lemma {:induction false} FlattenAt<T>(xss: seq<seq<T>>, len: nat, i: nat, j: nat)
    requires forall k :: 0 <= k < |xss| ==> |xss[k]| == len
    requires i < |xss| && j < len
    ensures |Flatten(xss)| == |xss| * len
    ensures i * len + j < |Flatten(xss)| && Flatten(xss)[i * len + j] == xss[i][j]
  {
    FlattenLength(xss, len);
    var rest := xss[1..];
    assert Flatten(xss) == xss[0] + Flatten(rest);
    if i > 0 {
      var m := i - 1;
      FlattenAt(rest, len, m, j);
      StrideStep(m, len, j);
      assert Flatten(xss)[len + (m * len + j)] == Flatten(rest)[m * len + j];
    }
  }

  /** Row i + 1 starts one stride after row i. */
  lemma StrideStep(m: nat, len: nat, j: nat)
    ensures (m + 1) * len + j == len + (m * len + j)
  {
  }

  lemma {:induction false} FlattenLength<T>(xss: seq<seq<T>>, len: nat)
    requires forall k :: 0 <= k < |xss| ==> |xss[k]| == len
    ensures |Flatten(xss)| == |xss| * len
  {
    if xss != [] {
      FlattenLength(xss[1..], len);
    }
  }

  lemma RasterIndex(b: nat, h: nat, w: nat, height: nat, width: nat)
    ensures (b * height + h) * width + w == b * (height * width) + (h * width + w)
    ensures b * height * width == b * (height * width)
  {
    calc {
      (b * height + h) * width + w;
    ==  // distribute the row offset over the width
      (b * height) * width + h * width + w;
    ==  // regroup the batch stride
      b * (height * width) + (h * width + w);
    }
  }

  /** The channel vector of pixel (b, h, w): one token row. */
  function TokenRow(f: FeatureMap, b: nat, h: nat, w: nat): (row: seq<real>)
    requires ValidFeatures(f) && b < |f.data| && h < f.height && w < f.width
    ensures |row| == f.channels
  {
    seq(f.channels, c requires 0 <= c < f.channels => f.data[b][c][h][w])
  }

  /** The token rows of batch element b, in raster order. */
  function PlaneTokens(f: FeatureMap, b: nat): seq<seq<real>>
    requires ValidFeatures(f) && b < |f.data|
  {
    Flatten(seq(f.height, h requires 0 <= h < f.height =>
      seq(f.width, w requires 0 <= w < f.width => TokenRow(f, b, h, w))))
  }

  /** The channel-last flatten of the whole map: batch elements one after the other. */
  function Tokens(f: FeatureMap): seq<seq<real>>
    requires ValidFeatures(f)
  {
    Flatten(seq(|f.data|, b requires 0 <= b < |f.data| => PlaneTokens(f, b)))
  }

  /** The mask flattened in the same order. */
  function FlatMask(mask: seq<seq<seq<int>>>): seq<int> {
    Flatten(seq(|mask|, b requires 0 <= b < |mask| => Flatten(mask[b])))
  }

  lemma PlaneTokensAt(f: FeatureMap, b: nat, h: nat, w: nat)
    requires ValidFeatures(f) && b < |f.data|
    ensures |PlaneTokens(f, b)| == f.height * f.width
    ensures h < f.height && w < f.width ==>
      h * f.width + w < |PlaneTokens(f, b)| && PlaneTokens(f, b)[h * f.width + w] == TokenRow(f, b, h, w)
  {
    var rows := seq(f.height, h requires 0 <= h < f.height =>
      seq(f.width, w requires 0 <= w < f.width => TokenRow(f, b, h, w)));
    FlattenLength(rows, f.width);
    if h < f.height && w < f.width {
      FlattenAt(rows, f.width, h, w);
    }
  }

  lemma TokensLength(f: FeatureMap)
    requires ValidFeatures(f)
    ensures |Tokens(f)| == |f.data| * (f.height * f.width)
  {
    var planes := seq(|f.data|, b requires 0 <= b < |f.data| => PlaneTokens(f, b));
    forall b | 0 <= b < |f.data| ensures |planes[b]| == f.height * f.width {
      PlaneTokensAt(f, b, 0, 0);
    }
    FlattenLength(planes, f.height * f.width);
  }

  /** Token k of the flatten is pixel (b, h, w) with k = (b * H + h) * W + w:
      raster order within a batch element, batch elements concatenated. */
  lemma TokenAt(f: FeatureMap, b: nat, h: nat, w: nat)
    requires ValidFeatures(f) && b < |f.data| && h < f.height && w < f.width
    ensures |Tokens(f)| == |f.data| * f.height * f.width
    ensures (b * f.height + h) * f.width + w < |Tokens(f)|
    ensures Tokens(f)[(b * f.height + h) * f.width + w] == TokenRow(f, b, h, w)
  {
    var planes := seq(|f.data|, b requires 0 <= b < |f.data| => PlaneTokens(f, b));
    var hw := f.height * f.width;
    forall b' | 0 <= b' < |f.data| ensures |planes[b']| == hw {
      PlaneTokensAt(f, b', 0, 0);
    }
    PlaneTokensAt(f, b, h, w);
    FlattenAt(planes, hw, b, h * f.width + w);
    RasterIndex(b, h, w, f.height, f.width);
    RasterIndex(|f.data|, 0, 0, f.height, f.width);
  }

  lemma FlatMaskLength(mask: seq<seq<seq<int>>>, height: nat, width: nat)
    requires MaskAtResolution(mask, height, width)
    ensures |FlatMask(mask)| == |mask| * (height * width)
  {
    var planes := seq(|mask|, b requires 0 <= b < |mask| => Flatten(mask[b]));
    forall b | 0 <= b < |mask| ensures |planes[b]| == height * width {
      FlattenLength(mask[b], width);
    }
    FlattenLength(planes, height * width);
  }

  /** Label k of the flattened mask is mask[b][h][w] for the same k as TokenAt. */
  lemma FlatMaskAt(mask: seq<seq<seq<int>>>, height: nat, width: nat, b: nat, h: nat, w: nat)
    requires MaskAtResolution(mask, height, width)
    requires b < |mask| && h < height && w < width
    ensures (b * height + h) * width + w < |FlatMask(mask)|
    ensures FlatMask(mask)[(b * height + h) * width + w] == mask[b][h][w]
  {
    var planes := seq(|mask|, b requires 0 <= b < |mask| => Flatten(mask[b]));
    var hw := height * width;
    forall b' | 0 <= b' < |mask| ensures |planes[b']| == hw {
      FlattenLength(mask[b'], width);
    }
    FlattenAt(mask[b], width, h, w);
    FlattenAt(planes, hw, b, h * width + w);
    RasterIndex(b, h, w, height, width);
  }

  /** Positions whose label is not the ignore index, in increasing order. */
  function KeptPositions(labels: seq<int>, ignore: int): (ks: seq<nat>)
    ensures forall t :: 0 <= t < |ks| ==> ks[t] < |labels| && labels[ks[t]] != ignore
    ensures forall s, t :: 0 <= s < t < |ks| ==> ks[s] < ks[t]
    ensures forall k :: 0 <= k < |labels| && labels[k] != ignore ==> k in ks
  {
    if labels == [] then []
    else
      var n := |labels| - 1;
      KeptPositions(labels[..n], ignore) + (if labels[n] != ignore then [n] else [])
  }

  /** Boolean-mask selection of rows and labels with `label != ignore`. */
  function Keep(rows: seq<seq<real>>, labels: seq<int>, ignore: int): (r: Aligned)
    requires |rows| == |labels|
    ensures |r.feats| == |r.labels|
  {
    if labels == [] then Aligned([], [])
    else
      var n := |labels| - 1;
      var kept := Keep(rows[..n], labels[..n], ignore);
      if labels[n] != ignore then Aligned(kept.feats + [rows[n]], kept.labels + [labels[n]])
      else kept
  }

  /** The selection keeps exactly the non-ignored positions, in their original
      order, with each row still next to its own label. */
  lemma {:induction false} KeepCorrespondence(rows: seq<seq<real>>, labels: seq<int>, ignore: int)
    requires |rows| == |labels|
    ensures var r, ks := Keep(rows, labels, ignore), KeptPositions(labels, ignore);
      |r.labels| == |ks| &&
      forall t :: 0 <= t < |ks| ==> r.feats[t] == rows[ks[t]] && r.labels[t] == labels[ks[t]]
  {
    if labels != [] {
      var n := |labels| - 1;
      KeepCorrespondence(rows[..n], labels[..n], ignore);
    }
  }

  /** `contrast_preparations` with the mask already single-channel and at the
      feature resolution. A map without channels cannot be reshaped to rows of
      C values (the inferred dimension of `view(-1, 0)` is undefined); a
      token-count mismatch fails the assertion; otherwise the non-ignored
      tokens survive. */
  function Prepare(f: FeatureMap, mask: seq<seq<seq<int>>>, ignore: int): (r: Result<Aligned>)
    requires ValidFeatures(f) && MaskAtResolution(mask, f.height, f.width)
    ensures r.Err? <==> f.channels == 0 || |mask| * (f.height * f.width) != |f.data| * (f.height * f.width)
    ensures f.channels == 0 ==> r == Err(ShapeMismatch)
    ensures f.channels > 0 && r.Err? ==> r.error == AssertionFailed
    ensures r.Ok? ==> |r.value.feats| == |r.value.labels|
    ensures r.Ok? ==> forall t :: 0 <= t < |r.value.labels| ==> r.value.labels[t] != ignore
  {
    TokensLength(f);
    FlatMaskLength(mask, f.height, f.width);
    var tokens, flat := Tokens(f), FlatMask(mask);
    if f.channels == 0 then Err(ShapeMismatch)
    else if |tokens| != |flat| then Err(AssertionFailed)
    else
      KeepCorrespondence(tokens, flat, ignore);
      Ok(Keep(tokens, flat, ignore))
  }

  /** What survives alignment: every token whose label is not ignored, in
      raster order, paired with its own label. Surviving position t is token
      KeptPositions(...)[t] of the channel-last flatten. */
  lemma PrepareKeepsNonIgnored(f: FeatureMap, mask: seq<seq<seq<int>>>, ignore: int)
    requires ValidFeatures(f) && MaskAtResolution(mask, f.height, f.width)
    requires Prepare(f, mask, ignore).Ok?
    ensures var r, ks := Prepare(f, mask, ignore).value, KeptPositions(FlatMask(mask), ignore);
      |r.labels| == |ks| &&
      (forall t :: 0 <= t < |ks| ==>
         ks[t] < |Tokens(f)| && r.feats[t] == Tokens(f)[ks[t]] && r.labels[t] == FlatMask(mask)[ks[t]]) &&
      (forall k :: 0 <= k < |FlatMask(mask)| && FlatMask(mask)[k] != ignore ==> k in ks)
  {
    TokensLength(f);
    FlatMaskLength(mask, f.height, f.width);
    KeepCorrespondence(Tokens(f), FlatMask(mask), ignore);
  }

  lemma {:induction false} FlattenUniform<T>(xss: seq<seq<T>>, x: T)
    requires forall i, j :: 0 <= i < |xss| && 0 <= j < |xss[i]| ==> xss[i][j] == x
    ensures forall k :: 0 <= k < |Flatten(xss)| ==> Flatten(xss)[k] == x
  {
    if xss != [] {
      FlattenUniform(xss[1..], x);
    }
  }

  /** A mask whose every pixel is the ignore index leaves no token at all. */
  lemma AllIgnoredLeavesNothing(f: FeatureMap, mask: seq<seq<seq<int>>>, ignore: int)
    requires ValidFeatures(f) && MaskAtResolution(mask, f.height, f.width) && |mask| == |f.data|
    requires f.channels > 0
    requires forall b, h, w :: 0 <= b < |mask| && 0 <= h < f.height && 0 <= w < f.width ==>
      mask[b][h][w] == ignore
    ensures Prepare(f, mask, ignore) == Ok(Aligned([], []))
  {
    var planes := seq(|mask|, b requires 0 <= b < |mask| => Flatten(mask[b]));
    forall b | 0 <= b < |mask| ensures forall k :: 0 <= k < |planes[b]| ==> planes[b][k] == ignore {
      FlattenUniform(mask[b], ignore);
    }
    FlattenUniform(planes, ignore);
    assert FlatMask(mask) == Flatten(planes);
    PrepareKeepsNonIgnored(f, mask, ignore);
    NothingKeptWhenAllIgnored(FlatMask(mask), ignore);
  }

  lemma {:induction false} NothingKeptWhenAllIgnored(labels: seq<int>, ignore: int)
    requires forall k :: 0 <= k < |labels| ==> labels[k] == ignore
    ensures KeptPositions(labels, ignore) == []
  {
    if labels != [] {
      NothingKeptWhenAllIgnored(labels[..|labels| - 1], ignore);
    }
  }

  /** The ignore-filtering example: labels [0, 1, ignore, 2] lose the third
      token only, and the other three keep their order. */
  lemma IgnoreFilterExample(r0: seq<real>, r1: seq<real>, r2: seq<real>, r3: seq<real>)
    ensures Keep([r0, r1, r2, r3], [0, 1, 255, 2], 255) == Aligned([r0, r1, r3], [0, 1, 2])
  {
    KeepLast([r0], [0], 255);
    assert [r0][..0] == [] && [0][..0] == [];
    KeepLast([r0, r1], [0, 1], 255);
    assert [r0, r1][..1] == [r0] && [0, 1][..1] == [0];
    KeepLast([r0, r1, r2], [0, 1, 255], 255);
    assert [r0, r1, r2][..2] == [r0, r1] && [0, 1, 255][..2] == [0, 1];
    KeepLast([r0, r1, r2, r3], [0, 1, 255, 2], 255);
    assert [r0, r1, r2, r3][..3] == [r0, r1, r2] && [0, 1, 255, 2][..3] == [0, 1, 255];
  }

  /** One unfolding of the selection at the last token. */
  lemma KeepLast(rows: seq<seq<real>>, labels: seq<int>, ignore: int)
    requires |rows| == |labels| > 0
    ensures var n := |labels| - 1;
      var kept := Keep(rows[..n], labels[..n], ignore);
      Keep(rows, labels, ignore) ==
        if labels[n] != ignore then Aligned(kept.feats + [rows[n]], kept.labels + [labels[n]]) else kept
  {
  }
}
