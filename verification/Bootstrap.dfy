/**
 * Paired bootstrap statistics (evals/prompt_ab/stats.py) over exact reals. The seeded random source is an arbitrary
 * list of draws, so what is proved holds for every seed.
 */
module Bootstrap {

  function Sum(xs: seq<real>): real {
    if xs == [] then 0.0 else Sum(xs[..|xs| - 1]) + xs[|xs| - 1]
  }

  lemma {:induction false} SumConcat(xs: seq<real>, ys: seq<real>)
    ensures Sum(xs + ys) == Sum(xs) + Sum(ys)
  {
    if ys == [] {
      assert xs + ys == xs;
    } else {
      assert (xs + ys)[..|xs + ys| - 1] == xs + ys[..|ys| - 1];
      SumConcat(xs, ys[..|ys| - 1]);
    }
  }

  function Mean(xs: seq<real>): real {
    if xs == [] then 0.0 else Sum(xs) / |xs| as real
  }

  predicate Within(xs: seq<real>, low: real, high: real) {
    forall i :: 0 <= i < |xs| ==> low <= xs[i] <= high
  }

  lemma {:induction false} SumWithin(xs: seq<real>, low: real, high: real)
    requires Within(xs, low, high)
    ensures low * |xs| as real <= Sum(xs) <= high * |xs| as real
  {
    if xs != [] {
      SumWithin(xs[..|xs| - 1], low, high);
      OneMore(low, |xs| - 1);
      OneMore(high, |xs| - 1);
    }
  }

  lemma {:induction false} OneMore(x: real, n: nat)
    ensures x * (n + 1) as real == x * n as real + x
  {
    assert (n + 1) as real == n as real + 1.0;
  }

  /** A mean lies between any bounds on its values. */
  lemma {:induction false} MeanWithin(xs: seq<real>, low: real, high: real)
    requires xs != [] && Within(xs, low, high)
    ensures low <= Mean(xs) <= high
  {
    SumWithin(xs, low, high);
    QuotientWithin(Sum(xs), |xs| as real, low, high);
  }

  lemma {:induction false} QuotientWithin(total: real, n: real, low: real, high: real)
    requires n > 0.0 && low * n <= total <= high * n
    ensures low <= total / n <= high
  {
    var q := total / n;
    assert q * n == total;
    Cancel(low, q, n);
    Cancel(q, high, n);
  }

  lemma {:induction false} Cancel(a: real, b: real, n: real)
    requires n > 0.0 && a * n <= b * n
    ensures a <= b
  {
    assert a > b ==> (a - b) * n > 0.0 by {
      if a > b {
        Positive(a - b, n);
      }
    }
    assert (a - b) * n == a * n - b * n;
  }

  lemma {:induction false} Positive(a: real, n: real)
    requires a > 0.0 && n > 0.0
    ensures a * n > 0.0
  {
  }

  // ------------------------------------------------------------------------------------------------- sorting

  predicate Ascending(xs: seq<real>) {
    forall i, j :: 0 <= i <= j < |xs| ==> xs[i] <= xs[j]
  }

  /** Where x belongs in an ascending list: behind everything that is not greater. */
  function Place(xs: seq<real>, x: real): (k: nat)
    requires Ascending(xs)
    ensures k <= |xs|
    ensures forall i :: 0 <= i < k ==> xs[i] <= x
    ensures forall i :: k <= i < |xs| ==> x < xs[i]
  {
    if xs == [] || xs[|xs| - 1] <= x then |xs| else Place(xs[..|xs| - 1], x)
  }

  function Insert(xs: seq<real>, x: real): (r: seq<real>)
    requires Ascending(xs)
    ensures Ascending(r) && multiset(r) == multiset(xs) + multiset{x}
  {
    var k := Place(xs, x);
    InsertedElements(xs, k, x);
    xs[..k] + [x] + xs[k..]
  }

  lemma {:induction false} InsertedElements(xs: seq<real>, k: nat, x: real)
    requires k <= |xs|
    ensures multiset(xs[..k] + [x] + xs[k..]) == multiset(xs) + multiset{x}
  {
    assert xs == xs[..k] + xs[k..];
  }

  /** `sorted(xs)` */
  function Sorted(xs: seq<real>): (r: seq<real>)
    ensures Ascending(r) && multiset(r) == multiset(xs) && |r| == |xs|
  {
    if xs == [] then []
    else
      assert xs == xs[..|xs| - 1] + [xs[|xs| - 1]];
      var r := Insert(Sorted(xs[..|xs| - 1]), xs[|xs| - 1]);
      assert |r| == |multiset(r)|;
      r
  }

  lemma {:induction false} SortedWithin(xs: seq<real>, low: real, high: real)
    requires Within(xs, low, high)
    ensures Within(Sorted(xs), low, high)
  {
    var r := Sorted(xs);
    forall i | 0 <= i < |r|
      ensures low <= r[i] <= high
    {
      assert r[i] in multiset(r) && r[i] in multiset(xs);
    }
  }

  // ----------------------------------------------------------------------------------------------- the bootstrap

  /** One resampling per iteration: n indices below n. */
  predicate ValidDraws(draws: seq<seq<nat>>, n: nat) {
    && draws != []
    && forall d :: 0 <= d < |draws| ==> |draws[d]| == n && forall i :: 0 <= i < n ==> draws[d][i] < n
  }

  function Resample(values: seq<real>, draw: seq<nat>): seq<real>
    requires forall i :: 0 <= i < |draw| ==> draw[i] < |values|
  {
    seq(|draw|, i requires 0 <= i < |draw| => values[draw[i]])
  }

  function Boots(values: seq<real>, draws: seq<seq<nat>>): seq<real>
    requires ValidDraws(draws, |values|)
  {
    seq(|draws|, d requires 0 <= d < |draws| => Mean(Resample(values, draws[d])))
  }

  /** `int(q * iters)` */
  function Fraction(q: real, iters: nat): int {
    (q * iters as real).Floor
  }

  /** `int((alpha / 2) * iters)` */
  function LoIndex(iters: nat, alpha: real): int {
    Fraction(alpha / 2.0, iters)
  }

  /** `min(int((1 - alpha / 2) * iters), iters - 1)` */
  function HiIndex(iters: nat, alpha: real): int {
    var i := Fraction(1.0 - alpha / 2.0, iters);
    if i < iters - 1 then i else iters - 1
  }

  lemma {:induction false} IndicesInRange(iters: nat, alpha: real)
    requires iters > 0 && 0.0 <= alpha <= 1.0
    ensures 0 <= LoIndex(iters, alpha) <= HiIndex(iters, alpha) < iters
  {
    hide Fraction;
    FractionMonotone(0.0, alpha / 2.0, iters);
    FractionMonotone(alpha / 2.0, 1.0 - alpha / 2.0, iters);
    FractionMonotone(alpha / 2.0, 0.5, iters);
    FractionBounds(iters);
  }

  lemma {:induction false} FractionMonotone(p: real, q: real, iters: nat)
    requires p <= q
    ensures Fraction(p, iters) <= Fraction(q, iters)
  {
    Scale(p, q, iters as real);
  }

  lemma {:induction false} FractionBounds(iters: nat)
    requires iters > 0
    ensures Fraction(0.0, iters) == 0 && Fraction(0.5, iters) < iters
  {
    assert 0.0 * iters as real == 0.0;
  }

  lemma {:induction false} Scale(a: real, b: real, n: real)
    requires a <= b && n >= 0.0
    ensures a * n <= b * n
  {
  }

  datatype Interval = Interval(mean: real, lo: real, hi: real)

  /** `bootstrap_ci(values)`: the mean with a percentile interval of the resampled means. */
  function BootstrapCi(values: seq<real>, draws: seq<seq<nat>>, alpha: real): Interval
    requires 0.0 <= alpha <= 1.0 && (values != [] ==> ValidDraws(draws, |values|))
  {
    if values == [] then Interval(0.0, 0.0, 0.0)
    else
      IndicesInRange(|draws|, alpha);
      var means := Sorted(Boots(values, draws));
      Interval(Mean(values), means[LoIndex(|draws|, alpha)], means[HiIndex(|draws|, alpha)])
  }

  /** Whatever is drawn, the interval is in order and lies, with the mean, between the bounds of the values. */
  lemma {:induction false} IntervalWithin(values: seq<real>, draws: seq<seq<nat>>, alpha: real, low: real, high: real)
    requires 0.0 <= alpha <= 1.0 && values != [] && ValidDraws(draws, |values|)
    requires Within(values, low, high)
    ensures var ci := BootstrapCi(values, draws, alpha);
      low <= ci.lo <= ci.hi <= high && low <= ci.mean <= high
  {
    IndicesInRange(|draws|, alpha);
    forall d | 0 <= d < |draws|
      ensures low <= Mean(Resample(values, draws[d])) <= high
    {
      MeanWithin(Resample(values, draws[d]), low, high);
    }
    SortedWithin(Boots(values, draws), low, high);
    MeanWithin(values, low, high);
  }

  // ------------------------------------------------------------------------------------- what the interval cuts off

  function CountBelow(xs: seq<real>, x: real): nat {
    if xs == [] then 0 else CountBelow(xs[..|xs| - 1], x) + if xs[|xs| - 1] < x then 1 else 0
  }

  function CountUpTo(xs: seq<real>, x: real): nat {
    if xs == [] then 0 else CountUpTo(xs[..|xs| - 1], x) + if xs[|xs| - 1] <= x then 1 else 0
  }

  lemma {:induction false} CountsConcat(xs: seq<real>, ys: seq<real>, x: real)
    ensures CountBelow(xs + ys, x) == CountBelow(xs, x) + CountBelow(ys, x)
    ensures CountUpTo(xs + ys, x) == CountUpTo(xs, x) + CountUpTo(ys, x)
  {
    if ys == [] {
      assert xs + ys == xs;
    } else {
      assert (xs + ys)[..|xs + ys| - 1] == xs + ys[..|ys| - 1];
      CountsConcat(xs, ys[..|ys| - 1], x);
    }
  }

  /** Sorting moves nothing across a bound. */
  lemma {:induction false} CountsOfSorted(xs: seq<real>, x: real)
    ensures CountBelow(Sorted(xs), x) == CountBelow(xs, x) && CountUpTo(Sorted(xs), x) == CountUpTo(xs, x)
  {
    if xs != [] {
      var init, last := xs[..|xs| - 1], xs[|xs| - 1];
      var r := Sorted(init);
      var k := Place(r, last);
      CountsOfSorted(init, x);
      assert r == r[..k] + r[k..];
      CountsConcat(r[..k], r[k..], x);
      CountsConcat(r[..k], [last], x);
      CountsConcat(r[..k] + [last], r[k..], x);
      CountsOfOne(last, x);
      hide Sorted, Insert, CountBelow, CountUpTo;
      SortedIs(xs);
    }
  }

  lemma {:induction false} SortedIs(xs: seq<real>)
    requires xs != []
    ensures var r, last := Sorted(xs[..|xs| - 1]), xs[|xs| - 1];
      Sorted(xs) == r[..Place(r, last)] + [last] + r[Place(r, last)..]
  {
  }

  lemma {:induction false} CountsOfOne(y: real, x: real)
    ensures CountBelow([y], x) == (if y < x then 1 else 0) && CountUpTo([y], x) == (if y <= x then 1 else 0)
  {
    assert [y][..0] == [];
  }

  /** In an ascending list at most k values lie below the one at index k, and more than k up to it. */
  lemma {:induction false} CountsAt(xs: seq<real>, k: nat)
    requires Ascending(xs) && k < |xs|
    ensures CountBelow(xs, xs[k]) <= k < CountUpTo(xs, xs[k])
  {
    assert xs == xs[..k] + xs[k..] && xs == xs[..k + 1] + xs[k + 1..];
    CountsConcat(xs[..k], xs[k..], xs[k]);
    CountsConcat(xs[..k + 1], xs[k + 1..], xs[k]);
    NoneBelow(xs[k..], xs[k]);
    AllUpTo(xs[..k + 1], xs[k]);
    AtMost(xs[..k], xs[k]);
  }

  lemma {:induction false} NoneBelow(xs: seq<real>, x: real)
    requires forall i :: 0 <= i < |xs| ==> xs[i] >= x
    ensures CountBelow(xs, x) == 0
  {
    if xs != [] {
      NoneBelow(xs[..|xs| - 1], x);
    }
  }

  lemma {:induction false} AllUpTo(xs: seq<real>, x: real)
    requires forall i :: 0 <= i < |xs| ==> xs[i] <= x
    ensures CountUpTo(xs, x) == |xs|
  {
    if xs != [] {
      AllUpTo(xs[..|xs| - 1], x);
    }
  }

  lemma {:induction false} AtMost(xs: seq<real>, x: real)
    ensures CountBelow(xs, x) <= CountUpTo(xs, x) <= |xs|
  {
    if xs != [] {
      AtMost(xs[..|xs| - 1], x);
    }
  }

  /**
   * The interval cuts off half of alpha at either end: at most that share of the resampled means lies below lo, and more
   * than it up to lo; at most that share lies above hi, and at least it from hi on.
   */
  lemma {:induction false} IntervalCutsOff(values: seq<real>, draws: seq<seq<nat>>, alpha: real)
    requires 0.0 <= alpha <= 1.0 && values != [] && ValidDraws(draws, |values|)
    ensures var ci, boots, share := BootstrapCi(values, draws, alpha), Boots(values, draws), alpha / 2.0 * |draws| as real;
      && CountBelow(boots, ci.lo) as real <= share < CountUpTo(boots, ci.lo) as real
      && (|boots| - CountUpTo(boots, ci.hi)) as real <= share
      && share <= (|boots| - CountBelow(boots, ci.hi)) as real
  {
    IndicesInRange(|draws|, alpha);
    IndicesMean(|draws|, alpha);
    QuantilesCutOff(Boots(values, draws), LoIndex(|draws|, alpha), HiIndex(|draws|, alpha), alpha / 2.0 * |draws| as real);
    hide Sorted, Boots, LoIndex, HiIndex, CountBelow, CountUpTo, Mean;
  }

  lemma {:induction false} QuantilesCutOff(boots: seq<real>, lo: nat, hi: nat, share: real)
    requires lo < |boots| && hi < |boots|
    requires lo as real <= share < lo as real + 1.0
    requires (|boots| - 1 - hi) as real <= share <= (|boots| - hi) as real
    ensures var x, y := Sorted(boots)[lo], Sorted(boots)[hi];
      && CountBelow(boots, x) as real <= share < CountUpTo(boots, x) as real
      && (|boots| - CountUpTo(boots, y)) as real <= share <= (|boots| - CountBelow(boots, y)) as real
  {
    hide CountBelow, CountUpTo;
    var means := Sorted(boots);
    CountsAt(means, lo);
    CountsAt(means, hi);
    CountsOfSorted(boots, means[lo]);
    CountsOfSorted(boots, means[hi]);
  }

  /** The two indices are the shares rounded down. */
  lemma {:induction false} IndicesMean(n: nat, alpha: real)
    requires n > 0 && 0.0 <= alpha <= 1.0
    ensures var share := alpha / 2.0 * n as real;
      && LoIndex(n, alpha) as real <= share < LoIndex(n, alpha) as real + 1.0
      && (n - 1 - HiIndex(n, alpha)) as real <= share
      && share <= (n - HiIndex(n, alpha)) as real
  {
    assert (1.0 - alpha / 2.0) * n as real == n as real - alpha / 2.0 * n as real;
  }

  datatype Comparison = Comparison(diff: real, lo: real, hi: real, significant: bool, n: nat)

  /** `variant[i] - control[i]` over the common length. */
  function Diffs(control: seq<real>, variant: seq<real>): seq<real> {
    var n := if |control| < |variant| then |control| else |variant|;
    seq(n, i requires 0 <= i < n => variant[i] - control[i])
  }

  /** `paired_diff(control, variant)`: significant when the interval excludes 0. */
  function PairedDiff(control: seq<real>, variant: seq<real>, draws: seq<seq<nat>>, alpha: real): Comparison
    requires 0.0 <= alpha <= 1.0
    requires Diffs(control, variant) != [] ==> ValidDraws(draws, |Diffs(control, variant)|)
  {
    var diffs := Diffs(control, variant);
    var ci := BootstrapCi(diffs, draws, alpha);
    Comparison(ci.mean, ci.lo, ci.hi, diffs != [] && (ci.lo > 0.0 || ci.hi < 0.0), |diffs|)
  }

  /**
   * A difference of one sign on every pair decides the comparison whatever is drawn: nowhere negative means not
   * significantly negative, everywhere negative means significantly negative.
   */
  lemma {:induction false} OneSidedDiffs(control: seq<real>, variant: seq<real>, draws: seq<seq<nat>>, alpha: real)
    requires 0.0 <= alpha <= 1.0
    requires Diffs(control, variant) != [] && ValidDraws(draws, |Diffs(control, variant)|)
    ensures var diffs, c := Diffs(control, variant), PairedDiff(control, variant, draws, alpha);
      && ((forall i :: 0 <= i < |diffs| ==> diffs[i] >= 0.0) ==> c.diff >= 0.0 && !(c.hi < 0.0))
      && ((forall i :: 0 <= i < |diffs| ==> diffs[i] <= 0.0) ==> c.diff <= 0.0 && !(c.lo > 0.0))
      && ((forall i :: 0 <= i < |diffs| ==> diffs[i] < 0.0) ==> c.diff < 0.0 && c.significant)
      && ((forall i :: 0 <= i < |diffs| ==> diffs[i] > 0.0) ==> c.diff > 0.0 && c.significant)
  {
    var diffs := Diffs(control, variant);
    var low, high := Least(diffs), Greatest(diffs);
    IntervalWithin(diffs, draws, alpha, low, high);
  }

  function Least(xs: seq<real>): (m: real)
    requires xs != []
    ensures m in xs && forall i :: 0 <= i < |xs| ==> m <= xs[i]
  {
    var last := xs[|xs| - 1];
    if |xs| == 1 then last
    else
      var m := Least(xs[..|xs| - 1]);
      if m <= last then m else last
  }

  function Greatest(xs: seq<real>): (m: real)
    requires xs != []
    ensures m in xs && forall i :: 0 <= i < |xs| ==> xs[i] <= m
  {
    var last := xs[|xs| - 1];
    if |xs| == 1 then last
    else
      var m := Greatest(xs[..|xs| - 1]);
      if m >= last then m else last
  }

  lemma {:induction false} SumOfDiffs(control: seq<real>, variant: seq<real>)
    requires |control| == |variant|
    ensures Sum(Diffs(control, variant)) == Sum(variant) - Sum(control)
  {
    if control != [] {
      var n := |control| - 1;
      SumOfDiffs(control[..n], variant[..n]);
      assert Diffs(control, variant)[..n] == Diffs(control[..n], variant[..n]);
    }
  }

  /** What a comparison reports: the difference of the means, and whether the interval leaves 0 outside. */
  lemma {:induction false} PairedDiffMeans(control: seq<real>, variant: seq<real>, draws: seq<seq<nat>>, alpha: real)
    requires 0.0 <= alpha <= 1.0 && |control| == |variant|
    requires control != [] ==> ValidDraws(draws, |control|)
    ensures var c := PairedDiff(control, variant, draws, alpha);
      && c.n == |control|
      && c.diff == Mean(variant) - Mean(control)
      && (c.significant <==> control != [] && !(c.lo <= 0.0 <= c.hi))
  {
    var diffs := Diffs(control, variant);
    MeanOfDiffs(control, variant);
    hide Mean, Diffs;
    if control != [] {
      IntervalWithin(diffs, draws, alpha, Least(diffs), Greatest(diffs));
      hide BootstrapCi;
      MeanOfCi(diffs, draws, alpha);
    }
  }

  lemma {:induction false} MeanOfCi(values: seq<real>, draws: seq<seq<nat>>, alpha: real)
    requires 0.0 <= alpha <= 1.0 && values != [] && ValidDraws(draws, |values|)
    ensures BootstrapCi(values, draws, alpha).mean == Mean(values)
  {
    hide Mean, Sorted, Boots, LoIndex, HiIndex;
  }

  lemma {:induction false} MeanOfDiffs(control: seq<real>, variant: seq<real>)
    requires |control| == |variant|
    ensures |Diffs(control, variant)| == |control|
    ensures Mean(Diffs(control, variant)) == Mean(variant) - Mean(control)
  {
    SumOfDiffs(control, variant);
    hide Sum;
    if control != [] {
      SplitQuotient(Sum(variant), Sum(control), |control| as real);
    }
  }

  lemma {:induction false} SplitQuotient(a: real, b: real, n: real)
    requires n > 0.0
    ensures (a - b) / n == a / n - b / n
  {
  }

  /** The first n values, each as often as its index is drawn, added up. */
  function Weighted(values: seq<real>, draw: seq<nat>, n: nat): real
    requires n <= |values|
  {
    if n == 0 then 0.0 else Weighted(values, draw, n - 1) + Times(values[n - 1], multiset(draw)[n - 1])
  }

  function Times(x: real, n: nat): real {
    x * n as real
  }

  lemma {:induction false} WeightedNothing(values: seq<real>, n: nat)
    requires n <= |values|
    ensures Weighted(values, [], n) == 0.0
  {
    if n > 0 {
      WeightedNothing(values, n - 1);
    }
  }

  lemma {:induction false} WeightedSnoc(values: seq<real>, draw: seq<nat>, j: nat, n: nat)
    requires n <= |values|
    ensures Weighted(values, draw + [j], n) == Weighted(values, draw, n) + if j < n then values[j] else 0.0
  {
    if n > 0 {
      WeightedSnoc(values, draw, j, n - 1);
      WeightedStep(values, draw + [j], n);
      WeightedStep(values, draw, n);
      hide Weighted, Times;
      OneDrawnMore(values[n - 1], draw, j, n - 1);
    }
  }

  lemma {:induction false} WeightedStep(values: seq<real>, draw: seq<nat>, n: nat)
    requires 0 < n <= |values|
    ensures Weighted(values, draw, n) == Weighted(values, draw, n - 1) + Times(values[n - 1], multiset(draw)[n - 1])
  {
    hide Times;
  }

  lemma {:induction false} OneDrawnMore(x: real, draw: seq<nat>, j: nat, k: nat)
    ensures Times(x, multiset(draw + [j])[k]) == Times(x, multiset(draw)[k]) + if j == k then x else 0.0
  {
    assert multiset(draw + [j])[k] == multiset(draw)[k] + if j == k then 1 else 0;
    OneMore(x, multiset(draw)[k]);
  }

  lemma {:induction false} ResampleSum(values: seq<real>, draw: seq<nat>)
    requires forall i :: 0 <= i < |draw| ==> draw[i] < |values|
    ensures Sum(Resample(values, draw)) == Weighted(values, draw, |values|)
  {
    if draw == [] {
      WeightedNothing(values, |values|);
    } else {
      var init, last := draw[..|draw| - 1], draw[|draw| - 1];
      ResampleSum(values, init);
      assert draw == init + [last] && Resample(values, draw)[..|draw| - 1] == Resample(values, init);
      WeightedSnoc(values, init, last, |values|);
    }
  }

  /** A resampled mean weighs each value by how often it is drawn. */
  lemma {:induction false} BootsAreWeighted(values: seq<real>, draws: seq<seq<nat>>, d: nat)
    requires ValidDraws(draws, |values|) && values != [] && d < |draws|
    ensures Boots(values, draws)[d] * |values| as real == Weighted(values, draws[d], |values|)
  {
    ResampleSum(values, draws[d]);
    var total, n := Sum(Resample(values, draws[d])), |values| as real;
    assert total / n * n == total;
  }
}
