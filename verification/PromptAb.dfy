/**
 * Aggregating the cells of a prompt A/B run and screening its variants (evals/prompt_ab/run.py). Cells finish in any
 * order, so nothing may depend on it.
 */
module PromptAb {
  import opened Bootstrap

  /** One score of a cell: the item it belongs to, its name, and its value if that is a number. */
  datatype Entry = Entry(item: string, score: string, value: Score)

  datatype Score = Number(value: real) | Other

  datatype Cell = Cell(variant: string, metric: string, entries: seq<Entry>)

  datatype Target = Target(metric: string, score: string)

  datatype Key = Key(variant: string, target: Target, item: string)

  predicate Counts(e: Entry) {
    e.score != "item" && e.score != "error" && e.value.Number?
  }

  function KeyOf(c: Cell, e: Entry): Key {
    Key(c.variant, Target(c.metric, e.score), e.item)
  }

  /** The numbers that a cell contributes under a key, in order. */
  function InEntries(c: Cell, entries: seq<Entry>, k: Key): seq<real> {
    if entries == [] then []
    else
      var e := entries[|entries| - 1];
      InEntries(c, entries[..|entries| - 1], k) + if Counts(e) && KeyOf(c, e) == k then [e.value.value] else []
  }

  function Samples(cells: seq<Cell>, k: Key): seq<real> {
    if cells == [] then []
    else
      var c := cells[|cells| - 1];
      Samples(cells[..|cells| - 1], k) + InEntries(c, c.entries, k)
  }

  /** `{variant: {(metric, score): {item: mean over trials}}}`, as one map. */
  ghost predicate IsAggregate(cells: seq<Cell>, means: map<Key, real>) {
    && (forall k :: k in means <==> Samples(cells, k) != [])
    && (forall k :: k in means ==> means[k] == Mean(Samples(cells, k)))
  }

  /** The entry is a number of that variant, metric, score and item; the keys "item" and "error" are no scores. */
  predicate Contributes(c: Cell, e: Entry, k: Key) {
    && c.variant == k.variant && c.metric == k.target.metric
    && e.item == k.item && e.score == k.target.score && e.value.Number?
    && e.score != "item" && e.score != "error"
  }

  /** There is a mean under exactly the keys to which some cell contributes. */
  lemma {:induction false} AggregateKeys(cells: seq<Cell>, means: map<Key, real>, k: Key)
    requires IsAggregate(cells, means)
    ensures k in means <==> exists c: Cell, e :: c in cells && e in c.entries && Contributes(c, e, k)
  {
    hide InEntries, Contributes;
    SamplesHold(cells, k);
    forall c: Cell
      ensures InEntries(c, c.entries, k) != [] <==> exists e :: e in c.entries && Contributes(c, e, k)
    {
      EntriesHold(c, c.entries, k);
    }
  }

  lemma {:induction false} SamplesHold(cells: seq<Cell>, k: Key)
    ensures Samples(cells, k) != [] <==> exists c: Cell :: c in cells && InEntries(c, c.entries, k) != []
  {
    hide InEntries;
    if cells != [] {
      var init, last := cells[..|cells| - 1], cells[|cells| - 1];
      assert cells == init + [last];
      SamplesHold(init, k);
    }
  }

  lemma {:induction false} EntriesHold(c: Cell, entries: seq<Entry>, k: Key)
    ensures InEntries(c, entries, k) != [] <==> exists e :: e in entries && Contributes(c, e, k)
  {
    if entries != [] {
      var init, last := entries[..|entries| - 1], entries[|entries| - 1];
      assert entries == init + [last];
      EntriesHold(c, init, k);
      assert Contributes(c, last, k) <==> Counts(last) && KeyOf(c, last) == k;
      hide Contributes;
      assert forall e :: e in entries <==> e in init || e == last;
    }
  }

  // ------------------------------------------------------------------------------------------- order of completion

  lemma {:induction false} SamplesConcat(xs: seq<Cell>, ys: seq<Cell>, k: Key)
    ensures Samples(xs + ys, k) == Samples(xs, k) + Samples(ys, k)
  {
    if ys == [] {
      assert xs + ys == xs;
    } else {
      assert (xs + ys)[..|xs + ys| - 1] == xs + ys[..|ys| - 1];
      SamplesConcat(xs, ys[..|ys| - 1], k);
    }
  }

  /** Taking one cell out takes out what it contributed. */
  lemma {:induction false} SamplesWithout(cells: seq<Cell>, j: nat, k: Key)
    requires j < |cells|
    ensures |Samples(cells, k)| == |Samples(cells[..j] + cells[j + 1..], k)| + |Samples([cells[j]], k)|
  {
    hide Samples;
    var front, back := cells[..j], cells[j + 1..];
    assert cells == front + ([cells[j]] + back);
    SamplesConcat(front, [cells[j]] + back, k);
    SamplesConcat([cells[j]], back, k);
    SamplesConcat(front, back, k);
  }

  lemma {:induction false} SumWithout(cells: seq<Cell>, j: nat, k: Key)
    requires j < |cells|
    ensures Sum(Samples(cells, k)) == Sum(Samples(cells[..j] + cells[j + 1..], k)) + Sum(Samples([cells[j]], k))
  {
    hide Samples, Sum;
    var front, back := cells[..j], cells[j + 1..];
    assert cells == front + ([cells[j]] + back);
    SamplesConcat(front, [cells[j]] + back, k);
    SamplesConcat([cells[j]], back, k);
    SamplesConcat(front, back, k);
    SumConcat(Samples(front, k), Samples([cells[j]], k) + Samples(back, k));
    SumConcat(Samples([cells[j]], k), Samples(back, k));
    SumConcat(Samples(front, k), Samples(back, k));
  }

  /** Neither how many numbers a key collects nor what they sum to depends on the order of the cells. */
  lemma {:induction false} SamplesIgnoreOrder(xs: seq<Cell>, ys: seq<Cell>, k: Key)
    requires multiset(xs) == multiset(ys)
    ensures |Samples(xs, k)| == |Samples(ys, k)| && Sum(Samples(xs, k)) == Sum(Samples(ys, k))
    decreases |xs|
  {
    hide Samples, Sum;
    if xs == [] {
      assert |multiset(ys)| == 0;
    } else {
      var n := |xs| - 1;
      assert xs[n] in multiset(ys);
      var j :| 0 <= j < |ys| && ys[j] == xs[n];
      RemoveCell(xs, n);
      RemoveCell(ys, j);
      SamplesIgnoreOrder(xs[..n] + xs[n + 1..], ys[..j] + ys[j + 1..], k);
      SamplesWithout(xs, n, k);
      SamplesWithout(ys, j, k);
      SumWithout(xs, n, k);
      SumWithout(ys, j, k);
    }
  }

  lemma {:induction false} RemoveCell(cells: seq<Cell>, j: nat)
    requires j < |cells|
    ensures multiset(cells[..j] + cells[j + 1..]) == multiset(cells) - multiset{cells[j]}
  {
    assert cells == cells[..j] + [cells[j]] + cells[j + 1..];
  }

  /** The aggregate does not depend on the order in which the cells completed. */
  lemma {:induction false} AggregateIgnoresOrder(xs: seq<Cell>, ys: seq<Cell>, a: map<Key, real>, b: map<Key, real>)
    requires multiset(xs) == multiset(ys)
    requires IsAggregate(xs, a) && IsAggregate(ys, b)
    ensures a == b
  {
    hide Samples, Sum;
    forall k
      ensures k in a <==> k in b
      ensures k in a ==> a[k] == b[k]
    {
      SamplesIgnoreOrder(xs, ys, k);
    }
  }

  /** The two passes: collect the numbers under each key, then average them. */
  method Aggregate(cells: seq<Cell>) returns (means: map<Key, real>)
    ensures IsAggregate(cells, means)
  {
    hide Samples, InEntries;
    var acc: map<Key, seq<real>> := map[];
    SamplesOfNothing();
    for i := 0 to |cells|
      invariant forall k :: Collected(acc, k) == Samples(cells[..i], k)
      invariant forall k :: k in acc ==> acc[k] != []
    {
      SamplesStep(cells, i);
      acc := AddCell(acc, cells[i]);
    }
    assert cells[..|cells|] == cells;
    means := map k | k in acc :: Mean(acc[k]);
  }

  /** `acc.get(k, [])` */
  function Collected(acc: map<Key, seq<real>>, k: Key): seq<real> {
    if k in acc then acc[k] else []
  }

  method AddCell(acc: map<Key, seq<real>>, c: Cell) returns (r: map<Key, seq<real>>)
    requires forall k :: k in acc ==> acc[k] != []
    ensures forall k :: Collected(r, k) == Collected(acc, k) + InEntries(c, c.entries, k)
    ensures forall k :: k in r ==> r[k] != []
  {
    hide Collected, AddEntry, InEntries, Counts;
    r := acc;
    InEntriesOfNothing(c);
    for i := 0 to |c.entries|
      invariant CollectedTo(acc, r, c, i)
      invariant forall k :: k in r ==> r[k] != []
    {
      EntryStep(acc, r, c, i);
      EntryFills(r, c, c.entries[i]);
      r := AddEntry(r, c, c.entries[i]);
    }
    assert c.entries[..|c.entries|] == c.entries;
  }

  /** `acc.setdefault(k, []).append(value)`, for a number. */
  function AddEntry(acc: map<Key, seq<real>>, c: Cell, e: Entry): map<Key, seq<real>> {
    if Counts(e) then acc[KeyOf(c, e) := Collected(acc, KeyOf(c, e)) + [e.value.value]] else acc
  }

  /** What the entry contributes under a key. */
  function Contribution(c: Cell, e: Entry, k: Key): seq<real> {
    if Counts(e) && KeyOf(c, e) == k then [e.value.value] else []
  }

  lemma {:induction false} EntryStep(acc: map<Key, seq<real>>, r: map<Key, seq<real>>, c: Cell, i: nat)
    requires i < |c.entries| && CollectedTo(acc, r, c, i)
    ensures CollectedTo(acc, AddEntry(r, c, c.entries[i]), c, i + 1)
  {
    hide Collected, AddEntry, InEntries;
    forall k
      ensures Collected(AddEntry(r, c, c.entries[i]), k) == Collected(acc, k) + InEntries(c, c.entries[..i + 1], k)
    {
      EntryStepAt(acc, r, c, i, k);
    }
  }

  lemma {:induction false} EntryStepAt(acc: map<Key, seq<real>>, r: map<Key, seq<real>>, c: Cell, i: nat, k: Key)
    requires i < |c.entries| && Collected(r, k) == Collected(acc, k) + InEntries(c, c.entries[..i], k)
    ensures Collected(AddEntry(r, c, c.entries[i]), k) == Collected(acc, k) + InEntries(c, c.entries[..i + 1], k)
  {
    hide Collected, AddEntry, InEntries, Counts, Contribution;
    CollectedAfter(r, c, c.entries[i], k);
    InEntriesStep(c, i, k);
  }

  /** r is acc with the first i entries of the cell added, under every key. */
  ghost predicate CollectedTo(acc: map<Key, seq<real>>, r: map<Key, seq<real>>, c: Cell, i: nat)
    requires i <= |c.entries|
  {
    forall k :: Collected(r, k) == Collected(acc, k) + InEntries(c, c.entries[..i], k)
  }

  lemma {:induction false} EntryFills(r: map<Key, seq<real>>, c: Cell, e: Entry)
    requires forall k :: k in r ==> r[k] != []
    ensures forall k :: k in AddEntry(r, c, e) ==> AddEntry(r, c, e)[k] != []
  {
  }

  lemma {:induction false} CollectedAfter(acc: map<Key, seq<real>>, c: Cell, e: Entry, k: Key)
    ensures Collected(AddEntry(acc, c, e), k) == Collected(acc, k) + Contribution(c, e, k)
  {
  }

  lemma {:induction false} InEntriesOfNothing(c: Cell)
    ensures forall k :: InEntries(c, c.entries[..0], k) == []
  {
  }

  lemma {:induction false} InEntriesStep(c: Cell, i: nat, k: Key)
    requires i < |c.entries|
    ensures InEntries(c, c.entries[..i + 1], k) == InEntries(c, c.entries[..i], k) + Contribution(c, c.entries[i], k)
  {
    assert c.entries[..i + 1][..i] == c.entries[..i];
  }

  lemma SamplesOfNothing()
    ensures forall k, cells: seq<Cell> :: Samples(cells[..0], k) == []
  {
  }

  lemma {:induction false} SamplesStep(cells: seq<Cell>, i: nat)
    requires i < |cells|
    ensures forall k :: Samples(cells[..i + 1], k) == Samples(cells[..i], k) + InEntries(cells[i], cells[i].entries, k)
  {
    assert cells[..i + 1][..i] == cells[..i];
  }

  // --------------------------------------------------------------------------------------------------- screening

  /** The seeded random source: the same draws for every comparison of the same length. */
  ghost predicate ValidSource(source: nat -> seq<seq<nat>>) {
    forall n: nat :: n > 0 ==> ValidDraws(source(n), n)
  }

  /** Some listing of a set of items (the code sorts them). */
  ghost predicate ValidOrder(order: set<string> -> seq<string>) {
    forall s: set<string> :: forall x :: x in order(s) <==> x in s
  }

  const CONTROL: string := "control"
  const ALPHA: real := 0.05

  function ItemsOf(means: map<Key, real>, variant: string, target: Target): set<string> {
    set k | k in means && k.variant == variant && k.target == target :: k.item
  }

  function Common(means: map<Key, real>, variant: string, target: Target): set<string> {
    ItemsOf(means, variant, target) * ItemsOf(means, CONTROL, target)
  }

  function Vector(means: map<Key, real>, variant: string, target: Target, items: seq<string>): seq<real>
    requires forall i :: 0 <= i < |items| ==> Key(variant, target, items[i]) in means
  {
    seq(|items|, i requires 0 <= i < |items| => means[Key(variant, target, items[i])])
  }

  lemma {:induction false} CommonItems(means: map<Key, real>, variant: string, target: Target, order: set<string> -> seq<string>)
    requires ValidOrder(order)
    ensures var items := order(Common(means, variant, target));
      && (forall i :: 0 <= i < |items| ==> items[i] in Common(means, variant, target))
      && (Common(means, variant, target) != {} ==> items != [])
  {
    var items := order(Common(means, variant, target));
    if x :| x in Common(means, variant, target) {
      assert x in items;
    }
  }

  lemma {:induction false} CommonKeys(means: map<Key, real>, variant: string, target: Target, x: string)
    requires x in Common(means, variant, target)
    ensures Key(variant, target, x) in means && Key(CONTROL, target, x) in means
  {
    var k :| k in means && k.variant == variant && k.target == target && k.item == x;
    assert k == Key(variant, target, x);
    var c :| c in means && c.variant == CONTROL && c.target == target && c.item == x;
    assert c == Key(CONTROL, target, x);
  }

  /** What the screening of a run is given besides the means. */
  datatype Screen = Screen(
    targets: map<string, Target>, lower: set<Target>, source: nat -> seq<seq<nat>>, order: set<string> -> seq<string>)

  ghost predicate ValidScreen(screen: Screen) {
    ValidSource(screen.source) && ValidOrder(screen.order)
  }

  /** Variant minus control on one item. */
  function Gap(means: map<Key, real>, variant: string, target: Target, x: string): real
    requires x in Common(means, variant, target)
  {
    CommonKeys(means, variant, target, x);
    means[Key(variant, target, x)] - means[Key(CONTROL, target, x)]
  }

  /** The two per-item vectors of a comparison. */
  function Vectors(means: map<Key, real>, variant: string, target: Target, items: seq<string>): (r: (seq<real>, seq<real>))
    requires forall i :: 0 <= i < |items| ==> items[i] in Common(means, variant, target)
    ensures |Diffs(r.0, r.1)| == |items|
    ensures forall i :: 0 <= i < |items| ==> Diffs(r.0, r.1)[i] == Gap(means, variant, target, items[i])
  {
    forall i | 0 <= i < |items|
      ensures Key(variant, target, items[i]) in means && Key(CONTROL, target, items[i]) in means
    {
      CommonKeys(means, variant, target, items[i]);
    }
    (Vector(means, CONTROL, target, items), Vector(means, variant, target, items))
  }

  /** The paired comparison of a variant with the control on their common items. */
  function Compare(means: map<Key, real>, variant: string, target: Target, screen: Screen): Comparison
    requires ValidScreen(screen) && Common(means, variant, target) != {}
  {
    CommonItems(means, variant, target, screen.order);
    var items := screen.order(Common(means, variant, target));
    var (cv, vv) := Vectors(means, variant, target, items);
    PairedDiff(cv, vv, screen.source(|items|), ALPHA)
  }

  /** Whatever is drawn, a comparison reports lo <= hi, and all of it between the smallest and the largest gap. */
  lemma {:induction false} CompareWithin(means: map<Key, real>, variant: string, target: Target, screen: Screen, low: real, high: real)
    requires ValidScreen(screen) && Common(means, variant, target) != {}
    requires forall x :: x in Common(means, variant, target) ==> low <= Gap(means, variant, target, x) <= high
    ensures var c := Compare(means, variant, target, screen);
      low <= c.lo <= c.hi <= high && low <= c.diff <= high
  {
    hide Common, Vectors, Sum, Sorted, Gap;
    CommonItems(means, variant, target, screen.order);
    var items := screen.order(Common(means, variant, target));
    var (cv, vv) := Vectors(means, variant, target, items);
    IntervalWithin(Diffs(cv, vv), screen.source(|items|), ALPHA, low, high);
  }

  /** The variant significantly regressed on its own target metric. */
  predicate Dropped(means: map<Key, real>, variant: string, screen: Screen)
    requires ValidScreen(screen)
  {
    if variant !in screen.targets || Common(means, variant, screen.targets[variant]) == {} then false
    else
      var target := screen.targets[variant];
      var c := Compare(means, variant, target, screen);
      (if target in screen.lower then c.diff > 0.0 else c.diff < 0.0) && c.significant
  }

  /** The variant is strictly worse than the control on that item. */
  predicate Worse(means: map<Key, real>, variant: string, target: Target, screen: Screen, x: string)
    requires x in Common(means, variant, target)
  {
    var gap := Gap(means, variant, target, x);
    if target in screen.lower then gap > 0.0 else gap < 0.0
  }

  /**
   * Whatever the source draws: a variant that is worse than the control on no common item is never dropped, and one
   * that is worse on every common item always is.
   */
  lemma {:induction false} ScreeningIsFair(means: map<Key, real>, variant: string, screen: Screen)
    requires ValidScreen(screen) && variant in screen.targets
    requires Common(means, variant, screen.targets[variant]) != {}
    ensures var target := screen.targets[variant];
      (forall x :: x in Common(means, variant, target) ==> !Worse(means, variant, target, screen, x))
      ==> !Dropped(means, variant, screen)
    ensures var target := screen.targets[variant];
      (forall x :: x in Common(means, variant, target) ==> Worse(means, variant, target, screen, x))
      ==> Dropped(means, variant, screen)
  {
    hide Common, Vectors, Gap, Diffs, PairedDiff;
    var target := screen.targets[variant];
    CommonItems(means, variant, target, screen.order);
    var items := screen.order(Common(means, variant, target));
    var (cv, vv) := Vectors(means, variant, target, items);
    OneSidedDiffs(cv, vv, screen.source(|items|), ALPHA);
  }

  /**
   * A variant is dropped exactly if its mean over the items it shares with the control is on the wrong side of the
   * control's, and the 95 per cent interval of the paired differences does not contain 0.
   */
  lemma {:induction false} DroppedExactly(means: map<Key, real>, variant: string, screen: Screen)
    requires ValidScreen(screen) && variant in screen.targets
    requires Common(means, variant, screen.targets[variant]) != {}
    ensures var target := screen.targets[variant];
      var (cv, vv) := Paired(means, variant, target, screen);
      var ci := BootstrapCi(Diffs(cv, vv), screen.source(|cv|), 0.05);
      Dropped(means, variant, screen) <==>
        (if target in screen.lower then Mean(vv) > Mean(cv) else Mean(vv) < Mean(cv)) && !(ci.lo <= 0.0 <= ci.hi)
  {
    hide Common, Vectors, Gap, Diffs, PairedDiff, Mean, BootstrapCi;
    var target := screen.targets[variant];
    CommonItems(means, variant, target, screen.order);
    var (cv, vv) := Paired(means, variant, target, screen);
    PairedDiffMeans(cv, vv, screen.source(|cv|), ALPHA);
    PairedDiffIs(cv, vv, screen.source(|cv|), ALPHA);
  }

  /** The values of the control and of the variant on their common items. */
  function Paired(means: map<Key, real>, variant: string, target: Target, screen: Screen): (r: (seq<real>, seq<real>))
    requires ValidScreen(screen) && Common(means, variant, target) != {}
    ensures |r.0| == |r.1| == |Diffs(r.0, r.1)| > 0 && ValidDraws(screen.source(|r.0|), |r.0|)
  {
    CommonItems(means, variant, target, screen.order);
    VectorLengths(means, variant, target, screen.order(Common(means, variant, target)));
    Vectors(means, variant, target, screen.order(Common(means, variant, target)))
  }

  lemma {:induction false} VectorLengths(means: map<Key, real>, variant: string, target: Target, items: seq<string>)
    requires forall i :: 0 <= i < |items| ==> items[i] in Common(means, variant, target)
    ensures var (cv, vv) := Vectors(means, variant, target, items); |cv| == |vv| == |items|
  {
    hide Common;
  }

  lemma {:induction false} PairedDiffIs(control: seq<real>, variant: seq<real>, draws: seq<seq<nat>>, alpha: real)
    requires 0.0 <= alpha <= 1.0 && Diffs(control, variant) != [] && ValidDraws(draws, |Diffs(control, variant)|)
    ensures var c, ci := PairedDiff(control, variant, draws, alpha), BootstrapCi(Diffs(control, variant), draws, alpha);
      c.lo == ci.lo && c.hi == ci.hi
  {
    hide Diffs, BootstrapCi;
  }

  /** Control first, then every chosen variant that is not dropped, in the order chosen. */
  function Kept(chosen: seq<string>, means: map<Key, real>, screen: Screen): (keep: seq<string>)
    requires ValidScreen(screen)
    ensures keep != [] && keep[0] == "control"
  {
    if chosen == [] then [CONTROL]
    else
      var v := chosen[|chosen| - 1];
      Kept(chosen[..|chosen| - 1], means, screen)
      + if v == CONTROL || Dropped(means, v, screen) then [] else [v]
  }

  method Survivors(chosen: seq<string>, means: map<Key, real>, screen: Screen) returns (keep: seq<string>)
    requires ValidScreen(screen)
    ensures keep == Kept(chosen, means, screen)
    ensures forall v :: v in keep <==> v == CONTROL || (v in chosen && !Dropped(means, v, screen))
  {
    hide Dropped;
    keep := [CONTROL];
    for i := 0 to |chosen|
      invariant keep == Kept(chosen[..i], means, screen)
    {
      assert chosen[..i + 1][..i] == chosen[..i];
      if chosen[i] != CONTROL && !Dropped(means, chosen[i], screen) {
        keep := keep + [chosen[i]];
      }
    }
    assert chosen[..|chosen|] == chosen;
    KeptHolds(chosen, means, screen);
  }

  lemma {:induction false} KeptHolds(chosen: seq<string>, means: map<Key, real>, screen: Screen)
    requires ValidScreen(screen)
    ensures forall v :: v in Kept(chosen, means, screen) <==>
      v == CONTROL || (v in chosen && !Dropped(means, v, screen))
  {
    hide Dropped, ValidScreen;
    if chosen != [] {
      KeptHolds(chosen[..|chosen| - 1], means, screen);
      assert chosen == chosen[..|chosen| - 1] + [chosen[|chosen| - 1]];
    }
  }

  /** The survivor list of a run does not depend on the order in which its cells completed. */
  lemma {:induction false} SurvivorsIgnoreOrder(
      chosen: seq<string>, xs: seq<Cell>, ys: seq<Cell>, a: map<Key, real>, b: map<Key, real>, screen: Screen)
    requires multiset(xs) == multiset(ys) && IsAggregate(xs, a) && IsAggregate(ys, b) && ValidScreen(screen)
    ensures Kept(chosen, a, screen) == Kept(chosen, b, screen)
  {
    AggregateIgnoresOrder(xs, ys, a, b);
  }

  /** The survivors of two lists of variants are those of one after those of the other, with "control" in front once. */
  lemma {:induction false} KeptConcat(xs: seq<string>, ys: seq<string>, means: map<Key, real>, screen: Screen)
    requires ValidScreen(screen)
    ensures Kept([], means, screen) == ["control"]
    ensures Kept(xs + ys, means, screen) == Kept(xs, means, screen) + Kept(ys, means, screen)[1..]
  {
    hide Dropped, ValidScreen;
    if ys == [] {
      assert xs + ys == xs;
    } else {
      assert (xs + ys)[..|xs + ys| - 1] == xs + ys[..|ys| - 1];
      KeptConcat(xs, ys[..|ys| - 1], means, screen);
    }
  }
}
