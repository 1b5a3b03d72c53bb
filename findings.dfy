/** The record every check of every analyzer version reports. */
module Findings {

  datatype Status = Pass | Fail | Warn | Info

  /** One finding: the category it scores in, the check's name, its points and its status. */
  datatype Finding = Finding(category: string, check: string, earned: real, max: real, status: Status)

  /** The sum of a list of reals, as Python's `sum` adds them left to right. */
  function Sum(xs: seq<real>): real
    decreases |xs|
  {
    if xs == [] then 0.0 else Sum(xs[..|xs| - 1]) + xs[|xs| - 1]
  }

  function Earned(fs: seq<Finding>): seq<real>
    ensures |Earned(fs)| == |fs|
  {
    seq(|fs|, i requires 0 <= i < |fs| => fs[i].earned)
  }

  function Maxima(fs: seq<Finding>): seq<real>
    ensures |Maxima(fs)| == |fs|
  {
    seq(|fs|, i requires 0 <= i < |fs| => fs[i].max)
  }

  /** Every finding earns between zero and its own maximum. */
  predicate WithinMax(fs: seq<Finding>) {
    forall i :: 0 <= i < |fs| ==> 0.0 <= fs[i].earned <= fs[i].max
  }

  /** Summing pointwise-smaller lists gives a smaller sum. */
  lemma {:induction false} SumMonotone(xs: seq<real>, ys: seq<real>)
    requires |xs| == |ys| && forall i :: 0 <= i < |xs| ==> xs[i] <= ys[i]
    ensures Sum(xs) <= Sum(ys)
    decreases |xs|
  {
    if xs != [] {
      SumMonotone(xs[..|xs| - 1], ys[..|ys| - 1]);
    }
  }

  /** A sum of non-negative reals is non-negative. */
  lemma {:induction false} SumNonNegative(xs: seq<real>)
    requires forall i :: 0 <= i < |xs| ==> xs[i] >= 0.0
    ensures Sum(xs) >= 0.0
    decreases |xs|
  {
    if xs != [] {
      SumNonNegative(xs[..|xs| - 1]);
    }
  }

  lemma SumAppend(xs: seq<real>, x: real)
    ensures Sum(xs + [x]) == Sum(xs) + x
  {
    assert (xs + [x])[..|xs|] == xs;
  }

  /** Summing from the front gives the same total. */
  lemma {:induction false} SumCons(x: real, xs: seq<real>)
    ensures Sum([x] + xs) == x + Sum(xs)
    decreases |xs|
  {
    if xs != [] {
      var n := |xs| - 1;
      SumCons(x, xs[..n]);
      assert ([x] + xs)[..|xs|] == [x] + xs[..n];
    }
  }

  /** A list of ones sums to its length. */
  lemma {:induction false} SumOfOnes(xs: seq<real>)
    requires forall i :: 0 <= i < |xs| ==> xs[i] == 1.0
    ensures Sum(xs) == |xs| as real
    decreases |xs|
  {
    if xs != [] {
      SumOfOnes(xs[..|xs| - 1]);
    }
  }

  /** A list of zeros sums to zero. */
  lemma {:induction false} SumOfZeros(xs: seq<real>)
    requires forall i :: 0 <= i < |xs| ==> xs[i] == 0.0
    ensures Sum(xs) == 0.0
    decreases |xs|
  {
    if xs != [] {
      SumOfZeros(xs[..|xs| - 1]);
    }
  }

  /** Replacing one element changes the sum by the difference. */
  lemma {:induction false} SumUpdate(xs: seq<real>, j: nat, v: real)
    requires j < |xs|
    ensures Sum(xs[j := v]) == Sum(xs) - xs[j] + v
    decreases |xs|
  {
    var n := |xs| - 1;
    if j == n {
      assert xs[j := v][..n] == xs[..n];
    } else {
      SumUpdate(xs[..n], j, v);
      assert xs[j := v][..n] == xs[..n][j := v];
    }
  }

  /** Findings within their maxima earn, in total, between zero and their total maximum. */
  lemma WithinMaxTotals(fs: seq<Finding>)
    requires WithinMax(fs)
    ensures 0.0 <= Sum(Earned(fs)) <= Sum(Maxima(fs))
  {
    SumNonNegative(Earned(fs));
    SumMonotone(Earned(fs), Maxima(fs));
  }
}
