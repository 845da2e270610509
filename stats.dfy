/** The numpy and pandas primitives the binning step is built from:
    `np.mean` over reals and the order-preserving `unique`. */
module Stats {

  /** Sum of a sequence, accumulated left to right. */
  function Sum(xs: seq<real>): real
  {
    if xs == [] then 0.0 else Sum(xs[..|xs| - 1]) + xs[|xs| - 1]
  }

  /** Arithmetic mean of a non-empty sequence (`np.mean`). */
  function Mean(xs: seq<real>): real
    requires xs != []
  {
    Sum(xs) / (|xs| as real)
  }

  lemma {:induction false} SumBounds(xs: seq<real>, lo: real, hi: real)
    requires forall i :: 0 <= i < |xs| ==> lo <= xs[i] <= hi
    ensures (|xs| as real) * lo <= Sum(xs) <= (|xs| as real) * hi
  {
    if xs != [] {
      var n := |xs| - 1;
      SumBounds(xs[..n], lo, hi);
      assert (|xs| as real) * lo == (n as real) * lo + lo;
      assert (|xs| as real) * hi == (n as real) * hi + hi;
    }
  }

  /** The mean lies between any lower and upper bound of the values. */
  lemma MeanBounds(xs: seq<real>, lo: real, hi: real)
    requires xs != []
    requires forall i :: 0 <= i < |xs| ==> lo <= xs[i] <= hi
    ensures lo <= Mean(xs) <= hi
  {
    SumBounds(xs, lo, hi);
    var n := |xs| as real;
    assert Mean(xs) * n == Sum(xs);
  }

  /** Values that all equal `c` have mean exactly `c`; in particular a single value is its own mean. */
  lemma MeanOfConstant(xs: seq<real>, c: real)
    requires xs != []
    requires forall i :: 0 <= i < |xs| ==> xs[i] == c
    ensures Mean(xs) == c
  {
    MeanBounds(xs, c, c);
  }

  predicate Distinct<T(==)>(s: seq<T>)
  {
    forall i, j :: 0 <= i < j < |s| ==> s[i] != s[j]
  }

  /** The distinct elements of `s` in order of first appearance (pandas `unique`). */
  function Unique<T(==, !new)>(s: seq<T>): (u: seq<T>)
    ensures forall x :: x in u <==> x in s
  {
    if s == [] then []
    else
      var p := Unique(s[..|s| - 1]);
      if s[|s| - 1] in p then p else p + [s[|s| - 1]]
  }

  /** `Unique` lists no element twice. Kept apart from `Unique`'s contract: its pairwise
      quantifier is instantiated for every pair of positions, and only a few proofs need it. */
  lemma {:induction false} UniqueDistinct<T(!new)>(s: seq<T>)
    ensures Distinct(Unique(s))
  {
    if s != [] {
      UniqueDistinct(s[..|s| - 1]);
    }
  }

  /** Appending a block of copies of a value not yet present adds that value once, at the end. */
  lemma {:induction false} UniqueAppendBlock<T(!new)>(s: seq<T>, b: seq<T>, v: T)
    requires b != [] && v !in s
    requires forall i :: 0 <= i < |b| ==> b[i] == v
    ensures Unique(s + b) == Unique(s) + [v]
    decreases |b|
  {
    var n := |b| - 1;
    assert (s + b)[..|s + b| - 1] == s + b[..n];
    if n > 0 {
      UniqueAppendBlock(s, b[..n], v);
    } else {
      assert s + b[..n] == s;
    }
  }

  /** Index of the first occurrence of `x` in `s`. */
  function FirstIndex<T(==)>(s: seq<T>, x: T): (i: nat)
    requires x in s
    ensures i < |s| && s[i] == x && x !in s[..i]
  {
    if s[0] == x then 0 else 1 + FirstIndex(s[1..], x)
  }

  lemma FirstIndexUnique<T>(s: seq<T>, x: T, i: nat)
    requires i < |s| && s[i] == x && x !in s[..i]
    ensures FirstIndex(s, x) == i
  {
  }

  /** `Unique` lists the elements in strictly increasing order of first appearance. */
  lemma {:induction false} UniqueFirstAppearanceOrder<T(!new)>(s: seq<T>, i: nat, j: nat)
    requires i < j < |Unique(s)|
    ensures FirstIndex(s, Unique(s)[i]) < FirstIndex(s, Unique(s)[j])
  {
    var n := |s| - 1;
    var init := s[..n];
    var p := Unique(init);
    var u := Unique(s);
    assert u == if s[n] in p then p else p + [s[n]];
    // elements already in the prefix keep their first index
    forall x | x in init
      ensures FirstIndex(s, x) == FirstIndex(init, x)
    {
      var k := FirstIndex(init, x);
      assert s[..k] == init[..k];
      FirstIndexUnique(s, x, k);
    }
    if j < |p| {
      UniqueFirstAppearanceOrder(init, i, j);
    } else {
      assert u[j] == s[n] && s[n] !in p && s[n] !in init;
      assert s[..n] == init;
      FirstIndexUnique(s, s[n], n);
      assert u[i] == p[i] && u[i] in init;
    }
  }
}
