/** The equal-width time grid of `SED.get_mean_magnitudes` (modelSED/sed.py):
    `mjd_iter = np.linspace(mjd_min, mjd_max, num=nbins + 1)`, evaluated over the
    reals, and the half-open bins `edge[i] <= obsmjd < edge[i + 1]` between
    consecutive edges. */
module Edges {

  /** Edge `i` of an `n`-step linear grid from `lo` to `hi`. */
  function Edge(lo: real, hi: real, n: int, i: int): real
    requires n > 0
  {
    lo + (i as real) * ((hi - lo) / (n as real))
  }

  lemma EdgeMonotone(lo: real, hi: real, n: int, i: int, j: int)
    requires n > 0 && lo <= hi && i <= j
    ensures Edge(lo, hi, n, i) <= Edge(lo, hi, n, j)
  {
    var step := (hi - lo) / (n as real);
    assert ((j - i) as real) * step >= 0.0;
    assert (j as real) * step - (i as real) * step == ((j - i) as real) * step;
  }

  lemma EdgeStrictlyMonotone(lo: real, hi: real, n: int, i: int, j: int)
    requires n > 0 && lo < hi && i < j
    ensures Edge(lo, hi, n, i) < Edge(lo, hi, n, j)
  {
    var step := (hi - lo) / (n as real);
    assert ((j - i) as real) * step > 0.0;
    assert (j as real) * step - (i as real) * step == ((j - i) as real) * step;
  }

  /** Consecutive edges are one step apart. */
  lemma EdgeStep(lo: real, hi: real, n: int, i: int)
    requires n > 0
    ensures Edge(lo, hi, n, i + 1) - Edge(lo, hi, n, i) == (hi - lo) / (n as real)
  {
    var step := (hi - lo) / (n as real);
    assert ((i + 1) as real) * step == (i as real) * step + step;
  }

  lemma LastEdge(lo: real, hi: real, n: int)
    requires n > 0
    ensures Edge(lo, hi, n, n) == hi
  {
    assert (n as real) * ((hi - lo) / (n as real)) == hi - lo;
  }

  ghost predicate Sorted(e: seq<real>)
  {
    forall i, j :: 0 <= i <= j < |e| ==> e[i] <= e[j]
  }

  ghost predicate StrictlySorted(e: seq<real>)
  {
    forall i, j :: 0 <= i < j < |e| ==> e[i] < e[j]
  }

  /** Consecutive values differ by exactly `step`. */
  ghost predicate EvenlySpaced(e: seq<real>, step: real)
  {
    forall i, j :: 0 <= i < j < |e| && j == i + 1 ==> e[j] - e[i] == step
  }

  /** `np.linspace(lo, hi, num)`: `num` evenly spaced values from `lo` to `hi` inclusive. */
  function Linspace(lo: real, hi: real, num: nat): (e: seq<real>)
    ensures |e| == num
    ensures num >= 1 ==> e[0] == lo
    ensures num >= 2 ==> e[num - 1] == hi
    ensures lo <= hi ==> Sorted(e)
    ensures lo < hi ==> StrictlySorted(e)
    ensures num >= 2 ==> EvenlySpaced(e, (hi - lo) / ((num - 1) as real))
  {
    if num == 0 then []
    else if num == 1 then [lo]
    else
      var n := num - 1;
      var e := seq(num, i requires 0 <= i < num => Edge(lo, hi, n, i));
      LastEdge(lo, hi, n);
      forall i, j | 0 <= i <= j < num && lo <= hi ensures e[i] <= e[j] {
        EdgeMonotone(lo, hi, n, i, j);
      }
      forall i, j | 0 <= i < j < num && lo < hi ensures e[i] < e[j] {
        EdgeStrictlyMonotone(lo, hi, n, i, j);
      }
      forall i, j | 0 <= i < j < num && j == i + 1 ensures e[j] - e[i] == (hi - lo) / (n as real) {
        EdgeStep(lo, hi, n, i);
      }
      e
  }

  /** The number of bins between the edges: every edge but the last starts one. */
  function NumBins(e: seq<real>): nat
  {
    if |e| == 0 then 0 else |e| - 1
  }

  /** Time `t` is in bin `i`, the half-open interval [e[i], e[i + 1]). */
  predicate InBin(t: real, e: seq<real>, i: int)
    requires 0 <= i < NumBins(e)
  {
    e[i] <= t < e[i + 1]
  }

  /** `np.mean([mjd_iter[index], mjd_iter[index + 1]])`. */
  function Midpoint(e: seq<real>, i: int): real
    requires 0 <= i < NumBins(e)
  {
    (e[i] + e[i + 1]) / 2.0
  }

  /** Over sorted edges a time falls in at most one bin. */
  lemma BinsDisjoint(e: seq<real>, t: real, i: int, j: int)
    requires Sorted(e)
    requires 0 <= i < NumBins(e) && 0 <= j < NumBins(e)
    requires InBin(t, e, i) && InBin(t, e, j)
    ensures i == j
  {
  }

  /** Over sorted edges every time in [first edge, last edge) falls in some bin. */
  lemma {:induction false} InteriorInSomeBin(e: seq<real>, t: real) returns (i: int)
    requires Sorted(e) && |e| >= 2
    requires e[0] <= t < e[|e| - 1]
    ensures 0 <= i < NumBins(e) && InBin(t, e, i)
  {
    if t < e[1] {
      i := 0;
    } else {
      var rest := e[1..];
      var k := InteriorInSomeBin(rest, t);
      i := k + 1;
    }
  }

  /** The last edge itself falls in no bin: the final interval is half-open too. */
  lemma LastEdgeInNoBin(e: seq<real>, i: int)
    requires Sorted(e)
    requires 0 <= i < NumBins(e)
    ensures !InBin(e[|e| - 1], e, i)
  {
  }

  /** Over strictly sorted edges each midpoint lies in its own bin, so midpoints of different bins differ. */
  lemma MidpointsDistinct(e: seq<real>, i: int, j: int)
    requires StrictlySorted(e)
    requires 0 <= i < NumBins(e) && 0 <= j < NumBins(e)
    ensures InBin(Midpoint(e, i), e, i)
    ensures i != j ==> Midpoint(e, i) != Midpoint(e, j)
  {
    if i < j {
      assert e[i + 1] <= e[j];
    } else if j < i {
      assert e[j + 1] <= e[i];
    }
  }
}
