/**
  Masked reductions over one raster page: the values of the pixels whose
  label equals the contour id, in row-major order, and their sum, mean and
  population variance (the square of the standard deviation, ddof 0).
  A reduction over no pixel is absent, as a fully masked array yields
  `masked` for its sum, mean and standard deviation.
*/
module Reductions {
  import opened Wrappers

  /** One raster page: rows of normalised pixel values. */
  type Grid = seq<seq<real>>

  /** `g` has `h` rows of `w` cells each. */
  ghost predicate Shaped<T>(g: seq<seq<T>>, h: nat, w: nat) {
    |g| == h && forall i :: 0 <= i < h ==> |g[i]| == w
  }

  /** Row `i` of `plane` and of `lab` have the same length, for every row. */
  ghost predicate SameShape(plane: Grid, lab: seq<seq<int>>) {
    |plane| == |lab| && forall i :: 0 <= i < |plane| ==> |plane[i]| == |lab[i]|
  }

  lemma ShapedSameShape<T, U>(a: seq<seq<T>>, b: seq<seq<U>>, h: nat, w: nat)
    requires Shaped(a, h, w) && Shaped(b, h, w)
    ensures |a| == |b| && forall i :: 0 <= i < |a| ==> |a[i]| == |b[i]|
  {
  }

  /** The cells of a label raster, row by row. */
  function Cells(a: array2<int>): (g: seq<seq<int>>)
    reads a
    ensures Shaped(g, a.Length0, a.Length1)
    ensures forall i, j :: 0 <= i < a.Length0 && 0 <= j < a.Length1 ==> g[i][j] == a[i, j]
  {
    seq(a.Length0, i requires 0 <= i < a.Length0 reads a =>
      seq(a.Length1, j requires 0 <= j < a.Length1 reads a => a[i, j]))
  }

  // ---------------------------------------------------------------------------
  // The included values

  /** The values of the first `j` cells of one row whose label is `cid`. */
  function RowIncluded(prow: seq<real>, lrow: seq<int>, cid: int, j: nat): seq<real>
    requires j <= |prow| && j <= |lrow|
  {
    if j == 0 then []
    else RowIncluded(prow, lrow, cid, j - 1) + (if lrow[j - 1] == cid then [prow[j - 1]] else [])
  }

  /** The values of the first `i` rows whose label is `cid`, row-major. */
  function IncludedUpTo(plane: Grid, lab: seq<seq<int>>, cid: int, i: nat): seq<real>
    requires SameShape(plane, lab) && i <= |plane|
  {
    if i == 0 then []
    else IncludedUpTo(plane, lab, cid, i - 1) + RowIncluded(plane[i - 1], lab[i - 1], cid, |plane[i - 1]|)
  }

  /** `ma.array(plane, mask = lab != cid)`: the values left unmasked, row-major. */
  function Included(plane: Grid, lab: seq<seq<int>>, cid: int): seq<real>
    requires SameShape(plane, lab)
  {
    IncludedUpTo(plane, lab, cid, |plane|)
  }

  // ---------------------------------------------------------------------------
  // Sum, mean and variance

  function Sum(s: seq<real>): real {
    if s == [] then 0.0 else Sum(s[..|s| - 1]) + s[|s| - 1]
  }

  /** Sum of squared deviations from `m`. */
  function SqDev(s: seq<real>, m: real): real {
    if s == [] then 0.0 else SqDev(s[..|s| - 1], m) + (s[|s| - 1] - m) * (s[|s| - 1] - m)
  }

  /** A sum of squares is never negative. */
  lemma {:induction false} SqDevNonNegative(s: seq<real>, m: real)
    ensures SqDev(s, m) >= 0.0
  {
    if s != [] {
      SqDevNonNegative(s[..|s| - 1], m);
      SquareNonNegative(s[|s| - 1] - m);
    }
  }

  /** `ma.sum()`, `ma.mean()` and `ma.std()` squared; each absent when every value is masked. */
  datatype Stats = Stats(sum: Option<real>, mean: Option<real>, variance: Option<real>)

  function StatsOf(vals: seq<real>): (st: Stats)
    ensures st.sum.None? <==> |vals| == 0
    ensures st.mean.None? <==> |vals| == 0
    ensures st.variance.None? <==> |vals| == 0
    ensures st.sum.Some? ==> st.sum.value == Sum(vals)
  {
    if |vals| == 0 then Stats(None, None, None)
    else
      var n := |vals| as real;
      var mean := Sum(vals) / n;
      Stats(Some(Sum(vals)), Some(mean), Some(SqDev(vals, mean) / n))
  }

  /** Over at least one value, the mean times the count is the sum. */
  lemma MeanTimesCount(vals: seq<real>)
    requires |vals| > 0
    ensures StatsOf(vals).mean.value * (|vals| as real) == Sum(vals)
  {
    var n := |vals| as real;
    var su := Sum(vals);
    DivideBack(su, n);
    assert StatsOf(vals).mean == Some(su / n);
  }

  /** Over at least one value, the variance times the count is the sum of squared deviations from the mean. */
  lemma VarianceTimesCount(vals: seq<real>)
    requires |vals| > 0
    ensures StatsOf(vals).variance.value * (|vals| as real) == SqDev(vals, Sum(vals) / (|vals| as real))
  {
    var n := |vals| as real;
    var sd := SqDev(vals, Sum(vals) / n);
    DivideBack(sd, n);
    assert StatsOf(vals).variance == Some(sd / n);
  }

  /** The variance is never negative. */
  lemma VarianceNonNegative(vals: seq<real>)
    requires |vals| > 0
    ensures StatsOf(vals).variance.value >= 0.0
  {
    var n := |vals| as real;
    var mean := Sum(vals) / n;
    var sd := SqDev(vals, mean);
    SqDevNonNegative(vals, mean);
    DivideBack(sd, n);
    assert StatsOf(vals).variance == Some(sd / n);
  }

  lemma DivideBack(x: real, n: real)
    requires n > 0.0
    ensures (x / n) * n == x
    ensures x >= 0.0 ==> x / n >= 0.0
  {
  }

  lemma SquareNonNegative(d: real)
    ensures d * d >= 0.0
  {
  }

  lemma SumSnoc(s: seq<real>, x: real)
    ensures Sum(s + [x]) == Sum(s) + x
  {
    assert (s + [x])[..|s|] == s;
  }

  lemma SqDevSnoc(s: seq<real>, x: real, m: real)
    ensures SqDev(s + [x], m) == SqDev(s, m) + (x - m) * (x - m)
  {
    assert (s + [x])[..|s|] == s;
  }

  lemma DivideOut(x: real, y: real, n: real)
    requires n > 0.0
    ensures (x - n * y) / n == x / n - y
    ensures (n * y) / n == y
  {
  }

  // ---------------------------------------------------------------------------
  // Properties of the reductions

  /** A sum of values that all lie in `[lo, hi]` lies in `[n·lo, n·hi]`. */
  lemma {:induction false} SumBounds(s: seq<real>, lo: real, hi: real)
    requires forall k :: 0 <= k < |s| ==> lo <= s[k] <= hi
    ensures (|s| as real) * lo <= Sum(s) <= (|s| as real) * hi
  {
    if s != [] {
      SumBounds(s[..|s| - 1], lo, hi);
    }
  }

  /** The mean of values in `[lo, hi]` lies in `[lo, hi]`; normalised pixels give a mean in `[0, 1]`. */
  lemma MeanBounds(vals: seq<real>, lo: real, hi: real)
    requires |vals| > 0
    requires forall k :: 0 <= k < |vals| ==> lo <= vals[k] <= hi
    ensures lo <= StatsOf(vals).mean.value <= hi
  {
    SumBounds(vals, lo, hi);
    MeanTimesCount(vals);
  }

  lemma {:induction false} ConstantSums(s: seq<real>, v: real)
    requires forall k :: 0 <= k < |s| ==> s[k] == v
    ensures Sum(s) == (|s| as real) * v
    ensures SqDev(s, v) == 0.0
  {
    if s != [] {
      ConstantSums(s[..|s| - 1], v);
    }
  }

  /** Constant values `v`: sum `n·v`, mean `v`, variance 0. */
  lemma ConstantStats(vals: seq<real>, v: real)
    requires |vals| > 0
    requires forall k :: 0 <= k < |vals| ==> vals[k] == v
    ensures StatsOf(vals) == Stats(Some((|vals| as real) * v), Some(v), Some(0.0))
  {
    var n := |vals| as real;
    ConstantSums(vals, v);
    DivideOut(0.0, 0.0, n);
    DivideOut(0.0, v, n);
    assert Sum(vals) / n == v;
    assert StatsOf(vals).mean.value == v;
    assert StatsOf(vals).variance.value == SqDev(vals, v) / n;
  }

  // ---------------------------------------------------------------------------
  // Properties of the inclusion

  lemma {:induction false} RowIncludedFrom(prow: seq<real>, lrow: seq<int>, cid: int, j: nat, v: real)
    requires j <= |prow| && j <= |lrow|
    requires forall k :: 0 <= k < j ==> prow[k] == v
    ensures forall k :: 0 <= k < |RowIncluded(prow, lrow, cid, j)| ==> RowIncluded(prow, lrow, cid, j)[k] == v
  {
    if j > 0 {
      RowIncludedFrom(prow, lrow, cid, j - 1, v);
    }
  }

  lemma {:induction false} IncludedUpToFrom(plane: Grid, lab: seq<seq<int>>, cid: int, i: nat, v: real)
    requires SameShape(plane, lab) && i <= |plane|
    requires forall a, b :: 0 <= a < |plane| && 0 <= b < |plane[a]| ==> plane[a][b] == v
    ensures forall k :: 0 <= k < |IncludedUpTo(plane, lab, cid, i)| ==> IncludedUpTo(plane, lab, cid, i)[k] == v
  {
    if i > 0 {
      IncludedUpToFrom(plane, lab, cid, i - 1, v);
      RowIncludedFrom(plane[i - 1], lab[i - 1], cid, |plane[i - 1]|, v);
    }
  }

  /**
    Over a page of constant value `v`, a non-empty mask gives sum `v` times
    the included pixel count, mean `v` and variance 0.
  */
  lemma ConstantPlaneStats(plane: Grid, lab: seq<seq<int>>, cid: int, v: real)
    requires SameShape(plane, lab)
    requires forall a, b :: 0 <= a < |plane| && 0 <= b < |plane[a]| ==> plane[a][b] == v
    requires |Included(plane, lab, cid)| > 0
    ensures StatsOf(Included(plane, lab, cid)).sum.Some?
    ensures StatsOf(Included(plane, lab, cid)).sum.value == (|Included(plane, lab, cid)| as real) * v
    ensures StatsOf(Included(plane, lab, cid)).mean == Some(v)
    ensures StatsOf(Included(plane, lab, cid)).variance == Some(0.0)
  {
    var vals := Included(plane, lab, cid);
    IncludedUpToFrom(plane, lab, cid, |plane|, v);
    assert vals == IncludedUpTo(plane, lab, cid, |plane|);
    ConstantStats(vals, v);
  }

  lemma {:induction false} RowIncludedMonotone(prow: seq<real>, l1: seq<int>, l2: seq<int>, cid: int, j: nat)
    requires j <= |prow| && j <= |l1| && j <= |l2|
    requires forall k :: 0 <= k < j && l1[k] == cid ==> l2[k] == cid
    ensures |RowIncluded(prow, l1, cid, j)| <= |RowIncluded(prow, l2, cid, j)|
  {
    if j > 0 {
      RowIncludedMonotone(prow, l1, l2, cid, j - 1);
    }
  }

  lemma {:induction false} IncludedUpToMonotone(plane: Grid, l1: seq<seq<int>>, l2: seq<seq<int>>, cid: int, i: nat)
    requires SameShape(plane, l1) && SameShape(plane, l2) && i <= |plane|
    requires forall a, b :: 0 <= a < |plane| && 0 <= b < |plane[a]| && l1[a][b] == cid ==> l2[a][b] == cid
    ensures |IncludedUpTo(plane, l1, cid, i)| <= |IncludedUpTo(plane, l2, cid, i)|
  {
    if i > 0 {
      IncludedUpToMonotone(plane, l1, l2, cid, i - 1);
      RowIncludedMonotone(plane[i - 1], l1[i - 1], l2[i - 1], cid, |plane[i - 1]|);
    }
  }

  /** A mask that lets through no pixel that another lets through counts no more pixels. */
  lemma IncludedMonotone(plane: Grid, l1: seq<seq<int>>, l2: seq<seq<int>>, cid: int)
    requires SameShape(plane, l1) && SameShape(plane, l2)
    requires forall a, b :: 0 <= a < |plane| && 0 <= b < |plane[a]| && l1[a][b] == cid ==> l2[a][b] == cid
    ensures |Included(plane, l1, cid)| <= |Included(plane, l2, cid)|
  {
    IncludedUpToMonotone(plane, l1, l2, cid, |plane|);
  }

  /**
    Two-by-two page [[0.2, 0.4], [0.6, 0.8]] with every pixel labelled:
    sum 2.0, mean 0.5, variance 0.05 (standard deviation about 0.2236).
  */
  lemma SquareScenario()
    ensures StatsOf(Included([[0.2, 0.4], [0.6, 0.8]], [[7, 7], [7, 7]], 7)) == Stats(Some(2.0), Some(0.5), Some(0.05))
  {
    SquareIncluded();
    SquareStats();
  }

  lemma SquareIncluded()
    ensures Included([[0.2, 0.4], [0.6, 0.8]], [[7, 7], [7, 7]], 7) == [0.2, 0.4, 0.6, 0.8]
  {
    var plane: Grid := [[0.2, 0.4], [0.6, 0.8]];
    var lab := [[7, 7], [7, 7]];
    assert RowIncluded(plane[0], lab[0], 7, 1) == [0.2];
    assert RowIncluded(plane[0], lab[0], 7, 2) == [0.2, 0.4];
    assert RowIncluded(plane[1], lab[1], 7, 1) == [0.6];
    assert RowIncluded(plane[1], lab[1], 7, 2) == [0.6, 0.8];
    assert IncludedUpTo(plane, lab, 7, 1) == [0.2, 0.4];
  }

  lemma SquareStats()
    ensures StatsOf([0.2, 0.4, 0.6, 0.8]) == Stats(Some(2.0), Some(0.5), Some(0.05))
  {
    assert [0.2] == [] + [0.2];
    assert [0.2, 0.4] == [0.2] + [0.4];
    assert [0.2, 0.4, 0.6] == [0.2, 0.4] + [0.6];
    assert [0.2, 0.4, 0.6, 0.8] == [0.2, 0.4, 0.6] + [0.8];
    SumSnoc([], 0.2);
    SumSnoc([0.2], 0.4);
    SumSnoc([0.2, 0.4], 0.6);
    SumSnoc([0.2, 0.4, 0.6], 0.8);
    SqDevSnoc([], 0.2, 0.5);
    SqDevSnoc([0.2], 0.4, 0.5);
    SqDevSnoc([0.2, 0.4], 0.6, 0.5);
    SqDevSnoc([0.2, 0.4, 0.6], 0.8, 0.5);
  }

  // ---------------------------------------------------------------------------
  // The computation

  lemma RowIncludedStep(prefix: seq<real>, prow: seq<real>, lrow: seq<int>, cid: int, j: nat)
    requires j < |prow| && j < |lrow|
    ensures prefix + RowIncluded(prow, lrow, cid, j + 1) ==
              (prefix + RowIncluded(prow, lrow, cid, j)) + (if lrow[j] == cid then [prow[j]] else [])
  {
  }

  /** First pass: the number and the sum of the included values. */
  method CountAndSum(plane: Grid, tmp: array2<int>, cid: int) returns (n: nat, s: real)
    requires Shaped(plane, tmp.Length0, tmp.Length1)
    ensures n == |Included(plane, Cells(tmp), cid)| && s == Sum(Included(plane, Cells(tmp), cid))
  {
    ghost var lab := Cells(tmp);
    n, s := 0, 0.0;
    for i := 0 to tmp.Length0
      invariant n == |IncludedUpTo(plane, lab, cid, i)| && s == Sum(IncludedUpTo(plane, lab, cid, i))
    {
      n, s := RowCountAndSum(plane, tmp, cid, i, lab, IncludedUpTo(plane, lab, cid, i), n, s);
    }
  }

  /** The first pass over row `i`, continuing from the count `n0` and sum `s0` of `prefix`. */
  method RowCountAndSum(plane: Grid, tmp: array2<int>, cid: int, i: nat, ghost lab: seq<seq<int>>,
                        ghost prefix: seq<real>, n0: nat, s0: real) returns (n: nat, s: real)
    requires i < tmp.Length0 && Shaped(plane, tmp.Length0, tmp.Length1) && lab == Cells(tmp)
    requires n0 == |prefix| && s0 == Sum(prefix)
    ensures n == |prefix + RowIncluded(plane[i], lab[i], cid, tmp.Length1)|
    ensures s == Sum(prefix + RowIncluded(plane[i], lab[i], cid, tmp.Length1))
  {
    ghost var seen := prefix;
    n, s := n0, s0;
    for j := 0 to tmp.Length1
      invariant seen == prefix + RowIncluded(plane[i], lab[i], cid, j)
      invariant n == |seen| && s == Sum(seen)
    {
      RowIncludedStep(prefix, plane[i], lab[i], cid, j);
      assert lab[i][j] == tmp[i, j];
      if tmp[i, j] == cid {
        SumSnoc(seen, plane[i][j]);
        seen := seen + [plane[i][j]];
        n := n + 1;
        s := s + plane[i][j];
      }
    }
  }

  /** Second pass: the squared deviations of the included values from `mean`. */
  method SquaredDeviations(plane: Grid, tmp: array2<int>, cid: int, mean: real) returns (sq: real)
    requires Shaped(plane, tmp.Length0, tmp.Length1)
    ensures sq == SqDev(Included(plane, Cells(tmp), cid), mean)
  {
    ghost var lab := Cells(tmp);
    sq := 0.0;
    for i := 0 to tmp.Length0
      invariant sq == SqDev(IncludedUpTo(plane, lab, cid, i), mean)
    {
      sq := RowSquaredDeviations(plane, tmp, cid, mean, i, lab, IncludedUpTo(plane, lab, cid, i), sq);
    }
  }

  /** The second pass over row `i`, continuing from the squared deviations `sq0` of `prefix`. */
  method RowSquaredDeviations(plane: Grid, tmp: array2<int>, cid: int, mean: real, i: nat,
                              ghost lab: seq<seq<int>>, ghost prefix: seq<real>, sq0: real) returns (sq: real)
    requires i < tmp.Length0 && Shaped(plane, tmp.Length0, tmp.Length1) && lab == Cells(tmp)
    requires sq0 == SqDev(prefix, mean)
    ensures sq == SqDev(prefix + RowIncluded(plane[i], lab[i], cid, tmp.Length1), mean)
  {
    ghost var seen := prefix;
    sq := sq0;
    for j := 0 to tmp.Length1
      invariant seen == prefix + RowIncluded(plane[i], lab[i], cid, j)
      invariant sq == SqDev(seen, mean)
    {
      RowIncludedStep(prefix, plane[i], lab[i], cid, j);
      assert lab[i][j] == tmp[i, j];
      if tmp[i, j] == cid {
        SqDevSnoc(seen, plane[i][j], mean);
        seen := seen + [plane[i][j]];
        sq := sq + (plane[i][j] - mean) * (plane[i][j] - mean);
      }
    }
  }

  /**
    `ma.sum()`, `ma.mean()` and `ma.std()` (squared) of one channel page
    masked by `tmp != cid`.
  */
  method MaskedStats(plane: Grid, tmp: array2<int>, cid: int, ghost lab: seq<seq<int>>) returns (st: Stats)
    requires Shaped(plane, tmp.Length0, tmp.Length1) && lab == Cells(tmp)
    ensures SameShape(plane, lab)
    ensures st == StatsOf(Included(plane, lab, cid))
  {
    var n, s := CountAndSum(plane, tmp, cid);
    if n == 0 {
      return Stats(None, None, None);
    }
    var mean := s / n as real;
    var sq := SquaredDeviations(plane, tmp, cid, mean);
    st := Stats(Some(s), Some(mean), Some(sq / n as real));
  }
}
