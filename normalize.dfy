/** The linear rescaling the generator applies to the noise grid before carving:
      out = min_height + (max_height - min_height) * (v - min(data)) / ptp(data)
    elementwise, where min and ptp (max - min) are taken over every cell of the grid,
    as numpy's np.min and np.ptp do on a 2-D array. */
module Normalize {
  import opened RealArith

  /** The target range the generator uses. */
  const MinHeight: real := 0.0
  const MaxHeight: real := 1000.0

  /** The cells of a grid in row-major order (what np.min and np.ptp reduce over). */
  function Flatten(g: seq<seq<real>>): seq<real> {
    if g == [] then [] else g[0] + Flatten(g[1..])
  }

  /** np.min of a non-empty sequence. */
  function MinOf(s: seq<real>): (m: real)
    requires |s| > 0
    ensures m in s
    ensures forall k :: 0 <= k < |s| ==> m <= s[k]
  {
    if |s| == 1 then s[0]
    else
      var rest := MinOf(s[1..]);
      if s[0] <= rest then s[0] else rest
  }

  /** np.max of a non-empty sequence. */
  function MaxOf(s: seq<real>): (m: real)
    requires |s| > 0
    ensures m in s
    ensures forall k :: 0 <= k < |s| ==> s[k] <= m
  {
    if |s| == 1 then s[0]
    else
      var rest := MaxOf(s[1..]);
      if s[0] >= rest then s[0] else rest
  }

  /** The grid has cells and they are not all equal, so np.ptp is not zero. */
  predicate NonDegenerate(data: seq<seq<real>>) {
    |Flatten(data)| > 0 && MinOf(Flatten(data)) < MaxOf(Flatten(data))
  }

  /** np.ptp: the spread of the grid's values. */
  function Ptp(data: seq<seq<real>>): (p: real)
    requires |Flatten(data)| > 0
    ensures p >= 0.0
    ensures p > 0.0 <==> NonDegenerate(data)
  {
    MaxOf(Flatten(data)) - MinOf(Flatten(data))
  }

  /** The linear map of one value, with the grid's minimum `lo` and spread `ptp`. */
  function Rescale(v: real, lo: real, ptp: real, minH: real, maxH: real): real
    requires ptp > 0.0
  {
    minH + (maxH - minH) * (v - lo) / ptp
  }

  function RescaleSeq(s: seq<real>, lo: real, ptp: real, minH: real, maxH: real): (r: seq<real>)
    requires ptp > 0.0
    ensures |r| == |s|
  {
    seq(|s|, k requires 0 <= k < |s| => Rescale(s[k], lo, ptp, minH, maxH))
  }

  function RescaleGrid(g: seq<seq<real>>, lo: real, ptp: real, minH: real, maxH: real)
    : (r: seq<seq<real>>)
    requires ptp > 0.0
    ensures |r| == |g| && forall i :: 0 <= i < |g| ==> |r[i]| == |g[i]|
  {
    seq(|g|, i requires 0 <= i < |g| => RescaleSeq(g[i], lo, ptp, minH, maxH))
  }

  /** The normalised grid; the source does not guard a zero spread (numpy yields NaN),
      so a non-degenerate grid is required. The shape is kept. */
  function NormalizeHeights(data: seq<seq<real>>, minH: real, maxH: real): (r: seq<seq<real>>)
    requires NonDegenerate(data)
    ensures |r| == |data| && forall i :: 0 <= i < |data| ==> |r[i]| == |data[i]|
  {
    RescaleGrid(data, MinOf(Flatten(data)), Ptp(data), minH, maxH)
  }

  // ---------------------------------------------------------------------------
  // Properties of the linear map

  /** The grid's minimum goes to minH and its maximum (lo + ptp) to maxH. */
  lemma RescaleEndpoints(lo: real, ptp: real, minH: real, maxH: real)
    requires ptp > 0.0
    ensures Rescale(lo, lo, ptp, minH, maxH) == minH
    ensures Rescale(lo + ptp, lo, ptp, minH, maxH) == maxH
  {
    assert (maxH - minH) * (lo + ptp - lo) / ptp == maxH - minH;
  }

  /** With minH <= maxH the map is order-preserving. */
  lemma RescaleMonotone(v: real, w: real, lo: real, ptp: real, minH: real, maxH: real)
    requires ptp > 0.0 && minH <= maxH && v <= w
    ensures Rescale(v, lo, ptp, minH, maxH) <= Rescale(w, lo, ptp, minH, maxH)
  {
    var k := maxH - minH;
    MulNonneg(k, w - v);
    assert k * (w - lo) - k * (v - lo) == k * (w - v);
    DivMonotone(k * (v - lo), k * (w - lo), ptp);
  }

  // ---------------------------------------------------------------------------
  // Flattening commutes with the elementwise map

  lemma {:induction false} FlattenRescaleGrid(g: seq<seq<real>>, lo: real, ptp: real, minH: real, maxH: real)
    requires ptp > 0.0
    ensures Flatten(RescaleGrid(g, lo, ptp, minH, maxH)) == RescaleSeq(Flatten(g), lo, ptp, minH, maxH)
  {
    if g != [] {
      var r := RescaleGrid(g, lo, ptp, minH, maxH);
      assert r[1..] == RescaleGrid(g[1..], lo, ptp, minH, maxH);
      FlattenRescaleGrid(g[1..], lo, ptp, minH, maxH);
      assert r[0] == RescaleSeq(g[0], lo, ptp, minH, maxH);
      RescaleSeqAppend(g[0], Flatten(g[1..]), lo, ptp, minH, maxH);
    }
  }

  lemma RescaleSeqAppend(a: seq<real>, b: seq<real>, lo: real, ptp: real, minH: real, maxH: real)
    requires ptp > 0.0
    ensures RescaleSeq(a + b, lo, ptp, minH, maxH)
         == RescaleSeq(a, lo, ptp, minH, maxH) + RescaleSeq(b, lo, ptp, minH, maxH)
  {
    var l, rs := RescaleSeq(a + b, lo, ptp, minH, maxH),
                 RescaleSeq(a, lo, ptp, minH, maxH) + RescaleSeq(b, lo, ptp, minH, maxH);
    assert |l| == |rs|;
    forall k | 0 <= k < |l| ensures l[k] == rs[k] {
      if k < |a| {
        assert (a + b)[k] == a[k];
      } else {
        assert (a + b)[k] == b[k - |a|];
      }
    }
  }

  /** Every cell of a grid is one of its flattened values. */
  lemma {:induction false} CellInFlatten(g: seq<seq<real>>, i: nat, j: nat)
    requires i < |g| && j < |g[i]|
    ensures g[i][j] in Flatten(g)
  {
    if i == 0 {
      assert g[0][j] in g[0];
    } else {
      CellInFlatten(g[1..], i - 1, j);
      assert g[1..][i - 1] == g[i];
    }
  }

  /** Every flattened value is some cell of the grid. */
  lemma {:induction false} FlattenHasCell(g: seq<seq<real>>, v: real)
    requires v in Flatten(g)
    ensures exists i, j :: 0 <= i < |g| && 0 <= j < |g[i]| && g[i][j] == v
  {
    if v in g[0] {
      var j :| 0 <= j < |g[0]| && g[0][j] == v;
      assert g[0][j] == v;
    } else {
      FlattenHasCell(g[1..], v);
      var i, j :| 0 <= i < |g[1..]| && 0 <= j < |g[1..][i]| && g[1..][i][j] == v;
      assert g[i + 1][j] == v;
    }
  }

  // ---------------------------------------------------------------------------
  // Extremes of the rescaled values

  lemma {:induction false} MinOfRescaled(s: seq<real>, lo: real, ptp: real, minH: real, maxH: real)
    requires |s| > 0 && ptp > 0.0 && minH <= maxH
    ensures MinOf(RescaleSeq(s, lo, ptp, minH, maxH)) == Rescale(MinOf(s), lo, ptp, minH, maxH)
  {
    var r := RescaleSeq(s, lo, ptp, minH, maxH);
    if |s| > 1 {
      assert r[1..] == RescaleSeq(s[1..], lo, ptp, minH, maxH);
      MinOfRescaled(s[1..], lo, ptp, minH, maxH);
      var m := MinOf(s[1..]);
      if s[0] <= m {
        RescaleMonotone(s[0], m, lo, ptp, minH, maxH);
      } else {
        RescaleMonotone(m, s[0], lo, ptp, minH, maxH);
      }
    }
  }

  lemma {:induction false} MaxOfRescaled(s: seq<real>, lo: real, ptp: real, minH: real, maxH: real)
    requires |s| > 0 && ptp > 0.0 && minH <= maxH
    ensures MaxOf(RescaleSeq(s, lo, ptp, minH, maxH)) == Rescale(MaxOf(s), lo, ptp, minH, maxH)
  {
    var r := RescaleSeq(s, lo, ptp, minH, maxH);
    if |s| > 1 {
      assert r[1..] == RescaleSeq(s[1..], lo, ptp, minH, maxH);
      MaxOfRescaled(s[1..], lo, ptp, minH, maxH);
      var m := MaxOf(s[1..]);
      if s[0] >= m {
        RescaleMonotone(m, s[0], lo, ptp, minH, maxH);
      } else {
        RescaleMonotone(s[0], m, lo, ptp, minH, maxH);
      }
    }
  }

  // ---------------------------------------------------------------------------
  // What the generator relies on

  /** The normalised grid's minimum is exactly minH and its maximum exactly maxH. */
  lemma NormalizedExtremes(data: seq<seq<real>>, minH: real, maxH: real)
    requires NonDegenerate(data) && minH <= maxH
    ensures |Flatten(NormalizeHeights(data, minH, maxH))| > 0
    ensures MinOf(Flatten(NormalizeHeights(data, minH, maxH))) == minH
    ensures MaxOf(Flatten(NormalizeHeights(data, minH, maxH))) == maxH
  {
    var f, lo, ptp := Flatten(data), MinOf(Flatten(data)), Ptp(data);
    FlattenRescaleGrid(data, lo, ptp, minH, maxH);
    MinOfRescaled(f, lo, ptp, minH, maxH);
    MaxOfRescaled(f, lo, ptp, minH, maxH);
    RescaleEndpoints(lo, ptp, minH, maxH);
    assert MaxOf(f) == lo + ptp;
  }

  /** Some cell of the normalised grid is exactly minH and some cell exactly maxH. */
  lemma NormalizedAttainsBounds(data: seq<seq<real>>, minH: real, maxH: real)
    requires NonDegenerate(data) && minH <= maxH
    ensures exists i, j :: 0 <= i < |data| && 0 <= j < |data[i]| && NormalizeHeights(data, minH, maxH)[i][j] == minH
    ensures exists i, j :: 0 <= i < |data| && 0 <= j < |data[i]| && NormalizeHeights(data, minH, maxH)[i][j] == maxH
  {
    var r := NormalizeHeights(data, minH, maxH);
    NormalizedExtremes(data, minH, maxH);
    FlattenHasCell(r, minH);
    FlattenHasCell(r, maxH);
  }

  /** Every normalised cell lies in [minH, maxH]. */
  lemma NormalizedInRange(data: seq<seq<real>>, minH: real, maxH: real, i: nat, j: nat)
    requires NonDegenerate(data) && minH <= maxH
    requires i < |data| && j < |data[i]|
    ensures minH <= NormalizeHeights(data, minH, maxH)[i][j] <= maxH
  {
    var r := NormalizeHeights(data, minH, maxH);
    NormalizedExtremes(data, minH, maxH);
    CellInFlatten(r, i, j);
  }

  /** Normalisation preserves the order of any two cells. */
  lemma NormalizedMonotone(data: seq<seq<real>>, minH: real, maxH: real, i: nat, j: nat, k: nat, l: nat)
    requires NonDegenerate(data) && minH <= maxH
    requires i < |data| && j < |data[i]| && k < |data| && l < |data[k]|
    requires data[i][j] <= data[k][l]
    ensures NormalizeHeights(data, minH, maxH)[i][j] <= NormalizeHeights(data, minH, maxH)[k][l]
  {
    RescaleMonotone(data[i][j], data[k][l], MinOf(Flatten(data)), Ptp(data), minH, maxH);
  }

  /** The generator's own range [0, 1000]. */
  lemma GeneratorRange(data: seq<seq<real>>, i: nat, j: nat)
    requires NonDegenerate(data)
    requires i < |data| && j < |data[i]|
    ensures |Flatten(NormalizeHeights(data, MinHeight, MaxHeight))| > 0
    ensures MinOf(Flatten(NormalizeHeights(data, MinHeight, MaxHeight))) == 0.0
    ensures MaxOf(Flatten(NormalizeHeights(data, MinHeight, MaxHeight))) == 1000.0
    ensures 0.0 <= NormalizeHeights(data, MinHeight, MaxHeight)[i][j] <= 1000.0
  {
    NormalizedExtremes(data, MinHeight, MaxHeight);
    NormalizedInRange(data, MinHeight, MaxHeight, i, j);
  }
}
