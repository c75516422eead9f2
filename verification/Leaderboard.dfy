/**
 * The leaderboard of a prompt A/B run (evals/prompt_ab/run.py, `_leaderboard` and `_fmt`). Its rows are built in the
 * order in which dictionaries were filled, that is, in which cells completed, and sorted when they are shown.
 */
module Leaderboard {
  import opened Bootstrap
  import opened PromptAb
  import opened Seqs

  // -------------------------------------------------------------------------------------------- the order of strings

  /** `a < b` on strings. */
  predicate Before(a: string, b: string) {
    b != "" && (a == "" || a[0] < b[0] || (a[0] == b[0] && Before(a[1..], b[1..])))
  }

  lemma {:induction false} BeforeIsTotal(a: string, b: string)
    ensures Before(a, b) || Before(b, a) || a == b
    ensures !(Before(a, b) && Before(b, a)) && (a == b ==> !Before(a, b))
  {
    if a != "" && b != "" && a[0] == b[0] {
      BeforeIsTotal(a[1..], b[1..]);
      assert a == [a[0]] + a[1..] && b == [b[0]] + b[1..];
    }
  }

  lemma {:induction false} BeforeIsTransitive(a: string, b: string, c: string)
    requires Before(a, b) && Before(b, c)
    ensures Before(a, c)
  {
    if a != "" && a[0] == b[0] == c[0] {
      BeforeIsTransitive(a[1..], b[1..], c[1..]);
    }
  }

  /** a comes first exactly if it is a proper prefix of b, or has the smaller character where they first differ. */
  lemma {:induction false} BeforeIsLexicographic(a: string, b: string)
    ensures Before(a, b) <==> exists n :: DiffersAt(a, b, n) && (n == |a| || a[n] < b[n])
  {
    if a != "" && b != "" && a[0] == b[0] {
      BeforeIsLexicographic(a[1..], b[1..]);
      forall n
        ensures DiffersAt(a, b, n + 1) <==> DiffersAt(a[1..], b[1..], n)
      {
        DiffersLater(a, b, n);
      }
      if n :| DiffersAt(a, b, n) && (n == |a| || a[n] < b[n]) {
        assert n > 0 && DiffersAt(a[1..], b[1..], n - 1);
      }
      if n :| DiffersAt(a[1..], b[1..], n) && (n == |a[1..]| || a[1..][n] < b[1..][n]) {
        assert DiffersAt(a, b, n + 1);
      }
    } else {
      assert b != "" ==> (DiffersAt(a, b, 0) <==> a == "" || a[0] != b[0]);
    }
  }

  /** The strings agree up to n, where b goes on differently, or a has ended. */
  predicate DiffersAt(a: string, b: string, n: int) {
    0 <= n <= |a| && n < |b| && a[..n] == b[..n] && (n < |a| ==> a[n] != b[n])
  }

  lemma {:induction false} DiffersLater(a: string, b: string, n: int)
    requires a != "" && b != "" && a[0] == b[0]
    ensures DiffersAt(a, b, n + 1) <==> DiffersAt(a[1..], b[1..], n)
    ensures !DiffersAt(a, b, 0)
  {
    if 0 <= n < |a| && n + 1 <= |b| {
      assert a[..n + 1] == [a[0]] + a[1..][..n] && b[..n + 1] == [b[0]] + b[1..][..n];
    }
  }

  // --------------------------------------------------------------------------------------------------------- rows

  datatype Row = Row(target: Target, variant: string, variantMean: real, controlMean: real, comparison: Comparison)

  /** The sort key `(mk, v)`: metric, score, variant. */
  predicate RowBefore(a: Row, b: Row) {
    || Before(a.target.metric, b.target.metric)
    || (a.target.metric == b.target.metric && Before(a.target.score, b.target.score))
    || (a.target == b.target && Before(a.variant, b.variant))
  }

  predicate SameKey(a: Row, b: Row) {
    a.target == b.target && a.variant == b.variant
  }

  lemma {:induction false} RowBeforeIsTotal(a: Row, b: Row)
    ensures RowBefore(a, b) || RowBefore(b, a) || SameKey(a, b)
    ensures !(RowBefore(a, b) && RowBefore(b, a)) && (SameKey(a, b) ==> !RowBefore(a, b))
  {
    hide Before;
    BeforeIsTotal(a.target.metric, b.target.metric);
    BeforeIsTotal(a.target.score, b.target.score);
    BeforeIsTotal(a.variant, b.variant);
  }

  lemma {:induction false} RowBeforeIsTransitive(a: Row, b: Row, c: Row)
    requires RowBefore(a, b) && RowBefore(b, c)
    ensures RowBefore(a, c)
  {
    hide Before;
    if Before(a.target.metric, b.target.metric) && Before(b.target.metric, c.target.metric) {
      BeforeIsTransitive(a.target.metric, b.target.metric, c.target.metric);
    }
    if Before(a.target.score, b.target.score) && Before(b.target.score, c.target.score) {
      BeforeIsTransitive(a.target.score, b.target.score, c.target.score);
    }
    if Before(a.variant, b.variant) && Before(b.variant, c.variant) {
      BeforeIsTransitive(a.variant, b.variant, c.variant);
    }
  }

  // ------------------------------------------------------------------------------------------------ building the rows

  /** One row, if the variant shares an item with the control. */
  function RowsOf(means: map<Key, real>, variant: string, target: Target, screen: Screen): seq<Row>
    requires ValidScreen(screen)
  {
    if variant == CONTROL || Common(means, variant, target) == {} then []
    else
      CommonItems(means, variant, target, screen.order);
      var (cv, vv) := Vectors(means, variant, target, screen.order(Common(means, variant, target)));
      [Row(target, variant, Mean(vv), Mean(cv), Compare(means, variant, target, screen))]
  }

  function TargetRows(means: map<Key, real>, variants: seq<string>, target: Target, screen: Screen): seq<Row>
    requires ValidScreen(screen)
  {
    if variants == [] then []
    else
      TargetRows(means, variants[..|variants| - 1], target, screen)
      + RowsOf(means, variants[|variants| - 1], target, screen)
  }

  function Rows(means: map<Key, real>, variants: seq<string>, targets: seq<Target>, screen: Screen): seq<Row>
    requires ValidScreen(screen)
  {
    if targets == [] then []
    else
      Rows(means, variants, targets[..|targets| - 1], screen)
      + TargetRows(means, variants, targets[|targets| - 1], screen)
  }

  /** The nested loops: the score keys in sorted order, and the variants in the order of the dictionary. */
  method Leaderboard(means: map<Key, real>, variants: seq<string>, targets: seq<Target>, screen: Screen)
    returns (rows: seq<Row>)
    requires ValidScreen(screen)
    ensures rows == Rows(means, variants, targets, screen)
  {
    hide RowsOf, ValidScreen;
    rows := [];
    for i := 0 to |targets|
      invariant rows == Rows(means, variants, targets[..i], screen)
    {
      assert targets[..i + 1][..i] == targets[..i];
      ghost var done := rows;
      for j := 0 to |variants|
        invariant rows == done + TargetRows(means, variants[..j], targets[i], screen)
      {
        assert variants[..j + 1][..j] == variants[..j];
        rows := rows + RowsOf(means, variants[j], targets[i], screen);
      }
      assert variants[..|variants|] == variants;
    }
    assert targets[..|targets|] == targets;
  }

  /** Which rows there are, whatever the order. */
  ghost predicate IsRow(means: map<Key, real>, variants: seq<string>, targets: seq<Target>, screen: Screen, r: Row)
    requires ValidScreen(screen)
  {
    r.variant in variants && r.target in targets && RowsOf(means, r.variant, r.target, screen) == [r]
  }

  lemma {:induction false} TargetRowsHold(
      means: map<Key, real>, variants: seq<string>, target: Target, screen: Screen, r: Row)
    requires ValidScreen(screen)
    ensures r in TargetRows(means, variants, target, screen) <==>
      r.target == target && r.variant in variants && RowsOf(means, r.variant, target, screen) == [r]
  {
    if variants != [] {
      var init, v := variants[..|variants| - 1], variants[|variants| - 1];
      assert variants == init + [v];
      TargetRowsHold(means, init, target, screen, r);
      RowsOfKey(means, v, target, screen);
      hide RowsOf, ValidScreen;
      assert r in RowsOf(means, v, target, screen) <==> RowsOf(means, v, target, screen) == [r];
    }
  }

  lemma {:induction false} RowsOfKey(means: map<Key, real>, variant: string, target: Target, screen: Screen)
    requires ValidScreen(screen)
    ensures var rows := RowsOf(means, variant, target, screen);
      rows == [] || (|rows| == 1 && rows[0].variant == variant && rows[0].target == target)
  {
  }

  lemma {:induction false} RowsHold(
      means: map<Key, real>, variants: seq<string>, targets: seq<Target>, screen: Screen, r: Row)
    requires ValidScreen(screen)
    ensures r in Rows(means, variants, targets, screen) <==> IsRow(means, variants, targets, screen, r)
  {
    hide RowsOf, ValidScreen;
    if targets != [] {
      var init, t := targets[..|targets| - 1], targets[|targets| - 1];
      assert targets == init + [t];
      RowsHold(means, variants, init, screen, r);
      TargetRowsHold(means, variants, t, screen, r);
    }
  }

  // ------------------------------------------------------------------------------------------------- showing the rows

  predicate UniqueKeys(rows: seq<Row>) {
    forall i, j :: 0 <= i < j < |rows| ==> !SameKey(rows[i], rows[j])
  }

  lemma {:induction false} TargetRowsUnique(means: map<Key, real>, variants: seq<string>, target: Target, screen: Screen)
    requires ValidScreen(screen) && Distinct(variants)
    ensures UniqueKeys(TargetRows(means, variants, target, screen))
  {
    hide RowsOf, ValidScreen;
    if variants != [] {
      var init, v := variants[..|variants| - 1], variants[|variants| - 1];
      TargetRowsUnique(means, init, target, screen);
      RowsOfKey(means, v, target, screen);
      forall r | r in TargetRows(means, init, target, screen)
        ensures r.variant != v
      {
        TargetRowsHold(means, init, target, screen, r);
      }
    }
  }

  /** Dictionaries and sets list each key once, so no two rows have the same key. */
  lemma {:induction false} RowsUnique(means: map<Key, real>, variants: seq<string>, targets: seq<Target>, screen: Screen)
    requires ValidScreen(screen) && Distinct(variants) && Distinct(targets)
    ensures UniqueKeys(Rows(means, variants, targets, screen))
  {
    hide RowsOf, ValidScreen, TargetRows;
    if targets != [] {
      var init, t := targets[..|targets| - 1], targets[|targets| - 1];
      RowsUnique(means, variants, init, screen);
      TargetRowsUnique(means, variants, t, screen);
      forall r | r in Rows(means, variants, init, screen)
        ensures r.target != t
      {
        RowsHold(means, variants, init, screen, r);
      }
      forall r | r in TargetRows(means, variants, t, screen)
        ensures r.target == t
      {
        TargetRowsHold(means, variants, t, screen, r);
      }
    }
  }

  predicate Sorted(rows: seq<Row>) {
    forall i, j :: 0 <= i < j < |rows| ==> RowBefore(rows[i], rows[j])
  }

  /** Where r belongs in a sorted list. */
  function Place(rows: seq<Row>, r: Row): (k: nat)
    requires Sorted(rows) && forall q :: q in rows ==> !SameKey(q, r)
    ensures k <= |rows|
    ensures forall i :: 0 <= i < k ==> RowBefore(rows[i], r)
    ensures forall i :: k <= i < |rows| ==> RowBefore(r, rows[i])
  {
    if rows == [] then 0
    else
      var last := rows[|rows| - 1];
      RowBeforeIsTotal(last, r);
      if RowBefore(last, r) then
        AllBefore(rows, r);
        |rows|
      else Place(rows[..|rows| - 1], r)
  }

  lemma {:induction false} AllBefore(rows: seq<Row>, r: Row)
    requires Sorted(rows) && rows != [] && RowBefore(rows[|rows| - 1], r)
    ensures forall i :: 0 <= i < |rows| ==> RowBefore(rows[i], r)
  {
    hide RowBefore;
    forall i | 0 <= i < |rows| - 1
      ensures RowBefore(rows[i], r)
    {
      RowBeforeIsTransitive(rows[i], rows[|rows| - 1], r);
    }
  }

  /** `sorted(rows, key=...)` */
  function Shown(rows: seq<Row>): (r: seq<Row>)
    requires UniqueKeys(rows)
    ensures Sorted(r) && forall q :: q in r <==> q in rows
  {
    if rows == [] then []
    else
      var init, last := Shown(rows[..|rows| - 1]), rows[|rows| - 1];
      assert rows == rows[..|rows| - 1] + [last];
      var k := Place(init, last);
      assert init == init[..k] + init[k..];
      init[..k] + [last] + init[k..]
  }

  /** A sorted list is determined by its rows. */
  lemma {:induction false} SortedIsUnique(xs: seq<Row>, ys: seq<Row>)
    requires Sorted(xs) && Sorted(ys) && forall r :: r in xs <==> r in ys
    ensures xs == ys
  {
    hide RowBefore;
    SameEmptiness(xs, ys);
    if xs != [] {
      SameFirst(xs, ys);
      SameRest(xs, ys);
      SortedIsUnique(xs[1..], ys[1..]);
      assert xs == [xs[0]] + xs[1..] && ys == [ys[0]] + ys[1..];
    }
  }

  lemma {:induction false} SameEmptiness(xs: seq<Row>, ys: seq<Row>)
    requires forall r :: r in xs <==> r in ys
    ensures xs == [] <==> ys == []
  {
    if xs != [] {
      assert xs[0] in ys;
    }
    if ys != [] {
      assert ys[0] in xs;
    }
  }

  lemma {:induction false} SameFirst(xs: seq<Row>, ys: seq<Row>)
    requires Sorted(xs) && Sorted(ys) && xs != [] && ys != [] && forall r :: r in xs <==> r in ys
    ensures xs[0] == ys[0]
  {
    hide RowBefore;
    assert xs[0] in ys && ys[0] in xs;
    RowBeforeIsTotal(xs[0], ys[0]);
  }

  lemma {:induction false} SameRest(xs: seq<Row>, ys: seq<Row>)
    requires Sorted(xs) && Sorted(ys) && xs != [] && ys != [] && xs[0] == ys[0] && forall r :: r in xs <==> r in ys
    ensures forall r :: r in xs[1..] <==> r in ys[1..]
  {
    hide RowBefore;
    RowBeforeIsTotal(xs[0], xs[0]);
    forall r
      ensures r in xs[1..] <==> r in xs && r != xs[0]
      ensures r in ys[1..] <==> r in ys && r != ys[0]
    {
      assert xs == [xs[0]] + xs[1..] && ys == [ys[0]] + ys[1..];
    }
  }

  /** A dictionary's keys in some order, each once. */
  ghost predicate Lists<T(!new)>(xs: seq<T>, keys: set<T>) {
    Distinct(xs) && forall x :: x in xs <==> x in keys
  }

  function Variants(means: map<Key, real>): set<string> {
    set k | k in means :: k.variant
  }

  function Targets(means: map<Key, real>): set<Target> {
    set k | k in means :: k.target
  }

  /** The leaderboard as it is shown, from dictionaries filled in some order. */
  ghost predicate IsShown(means: map<Key, real>, screen: Screen, shown: seq<Row>)
    requires ValidScreen(screen)
  {
    exists variants, targets :: Lists(variants, Variants(means)) && Lists(targets, Targets(means))
      && UniqueKeys(Rows(means, variants, targets, screen)) && shown == Shown(Rows(means, variants, targets, screen))
  }

  /** Whatever the orders of the dictionaries, the leaderboard shown is the same. */
  lemma {:induction false} ShownIsUnique(means: map<Key, real>, screen: Screen, s: seq<Row>, t: seq<Row>)
    requires ValidScreen(screen) && IsShown(means, screen, s) && IsShown(means, screen, t)
    ensures s == t
  {
    hide ValidScreen, Rows, Shown;
    var v1, t1 :| Lists(v1, Variants(means)) && Lists(t1, Targets(means))
      && UniqueKeys(Rows(means, v1, t1, screen)) && s == Shown(Rows(means, v1, t1, screen));
    var v2, t2 :| Lists(v2, Variants(means)) && Lists(t2, Targets(means))
      && UniqueKeys(Rows(means, v2, t2, screen)) && t == Shown(Rows(means, v2, t2, screen));
    forall r
      ensures r in s <==> r in t
    {
      RowsHold(means, v1, t1, screen, r);
      RowsHold(means, v2, t2, screen, r);
    }
    SortedIsUnique(s, t);
  }

  /** And it exists for every order. */
  lemma {:induction false} ShownForAnyOrder(
      means: map<Key, real>, variants: seq<string>, targets: seq<Target>, screen: Screen)
    requires ValidScreen(screen) && Lists(variants, Variants(means)) && Lists(targets, Targets(means))
    ensures UniqueKeys(Rows(means, variants, targets, screen))
    ensures IsShown(means, screen, Shown(Rows(means, variants, targets, screen)))
  {
    hide ValidScreen, Rows, Shown;
    RowsUnique(means, variants, targets, screen);
  }

  /** Neither the leaderboard shown nor the survivor list depends on the order in which the cells completed. */
  lemma {:induction false} ResultsIgnoreOrder(
      chosen: seq<string>, xs: seq<Cell>, ys: seq<Cell>, a: map<Key, real>, b: map<Key, real>, screen: Screen,
      s: seq<Row>, t: seq<Row>)
    requires multiset(xs) == multiset(ys) && IsAggregate(xs, a) && IsAggregate(ys, b) && ValidScreen(screen)
    requires IsShown(a, screen, s) && IsShown(b, screen, t)
    ensures s == t
    ensures Kept(chosen, a, screen) == Kept(chosen, b, screen)
  {
    hide ValidScreen, IsShown;
    AggregateIgnoresOrder(xs, ys, a, b);
    ShownIsUnique(a, screen, s, t);
  }

  // ------------------------------------------------------------------------------------------- what a row reports

  /** The variant's value on the item. */
  function ValueOn(means: map<Key, real>, variant: string, target: Target, x: string): real {
    if Key(variant, target, x) in means then means[Key(variant, target, x)] else 0.0
  }

  /**
   * A row reports the variant's mean first and the control's second, over their common items: each lies between any
   * bounds on the values of the one it is about, and the reported difference is the first less the second.
   */
  lemma {:induction false} RowReports(means: map<Key, real>, r: Row, screen: Screen, low: real, high: real)
    requires ValidScreen(screen) && RowsOf(means, r.variant, r.target, screen) == [r]
    ensures r.comparison.diff == r.variantMean - r.controlMean
    ensures r.comparison.n == |screen.order(Common(means, r.variant, r.target))|
    ensures (forall x :: x in Common(means, r.variant, r.target) ==> low <= ValueOn(means, r.variant, r.target, x) <= high)
      ==> low <= r.variantMean <= high
    ensures (forall x :: x in Common(means, r.variant, r.target) ==> low <= ValueOn(means, "control", r.target, x) <= high)
      ==> low <= r.controlMean <= high
  {
    RowIsPaired(means, r, screen);
    PairedValues(means, r.variant, r.target, screen);
    hide RowsOf, Common, Paired, Mean, PairedDiff, Diffs, ValidScreen, ValueOn;
    var (cv, vv) := Paired(means, r.variant, r.target, screen);
    PairedDiffMeans(cv, vv, screen.source(|cv|), ALPHA);
    if Within(vv, low, high) {
      MeanWithin(vv, low, high);
    }
    if Within(cv, low, high) {
      MeanWithin(cv, low, high);
    }
  }

  lemma {:induction false} RowIsPaired(means: map<Key, real>, r: Row, screen: Screen)
    requires ValidScreen(screen) && RowsOf(means, r.variant, r.target, screen) == [r]
    ensures Common(means, r.variant, r.target) != {}
    ensures var (cv, vv) := Paired(means, r.variant, r.target, screen);
      && |cv| == |screen.order(Common(means, r.variant, r.target))|
      && r.variantMean == Mean(vv) && r.controlMean == Mean(cv)
      && r.comparison == PairedDiff(cv, vv, screen.source(|cv|), ALPHA)
  {
    hide Common, Vectors, PairedDiff, Mean, Diffs;
    CommonItems(means, r.variant, r.target, screen.order);
    VectorLengths(means, r.variant, r.target, screen.order(Common(means, r.variant, r.target)));
  }

  lemma {:induction false} PairedValues(means: map<Key, real>, variant: string, target: Target, screen: Screen)
    requires ValidScreen(screen) && Common(means, variant, target) != {}
    ensures var (cv, vv), items := Paired(means, variant, target, screen), screen.order(Common(means, variant, target));
      && |cv| == |vv| == |items|
      && forall i :: 0 <= i < |items| ==> (
        && items[i] in Common(means, variant, target)
        && cv[i] == ValueOn(means, "control", target, items[i]) && vv[i] == ValueOn(means, variant, target, items[i]))
  {
    CommonItems(means, variant, target, screen.order);
    hide Common, ValidScreen;
    var items := screen.order(Common(means, variant, target));
    VectorLengths(means, variant, target, items);
    forall i | 0 <= i < |items|
      ensures Key(variant, target, items[i]) in means && Key(CONTROL, target, items[i]) in means
    {
      CommonKeys(means, variant, target, items[i]);
    }
  }

  /** What is shown is grouped by metric, within it by score, and within that lists the variants in order. */
  lemma {:induction false} ShownInGroups(rows: seq<Row>, i: nat, j: nat)
    requires Sorted(rows) && i < j < |rows|
    ensures rows[i].target.metric == rows[j].target.metric || Before(rows[i].target.metric, rows[j].target.metric)
    ensures rows[i].target.metric == rows[j].target.metric ==>
      rows[i].target.score == rows[j].target.score || Before(rows[i].target.score, rows[j].target.score)
    ensures rows[i].target == rows[j].target ==> Before(rows[i].variant, rows[j].variant)
  {
    BeforeIsTotal(rows[i].target.metric, rows[j].target.metric);
    BeforeIsTotal(rows[i].target.score, rows[j].target.score);
    hide Before;
  }
}
