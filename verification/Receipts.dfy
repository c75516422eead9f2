/** Lifecycle facts read from sealed turn receipts, and their explicit aggregation (evals/receipt_claims.py). */
module Receipts {
  import opened Seqs
  import opened Sums

  datatype Category =
    | Requested
    | RejectedBeforeExecution
    | Started
    | Succeeded
    | Failed
    | ChildSealed
    | LifecycleOverstatement
    | Unsupported

  /** The categories that have a receipt count. */
  predicate IsLifecycle(c: Category) {
    c != LifecycleOverstatement && c != Unsupported
  }

  datatype LifecycleCounts = LifecycleCounts(
    requested: int, rejected: int, started: int, succeeded: int, failed: int, childSealed: int)
  {
    function Value(c: Category): int
      requires IsLifecycle(c)
    {
      match c
      case Requested => requested
      case RejectedBeforeExecution => rejected
      case Started => started
      case Succeeded => succeeded
      case Failed => failed
      case ChildSealed => childSealed
    }

    function Plus(other: LifecycleCounts): LifecycleCounts {
      LifecycleCounts(requested + other.requested, rejected + other.rejected, started + other.started,
                      succeeded + other.succeeded, failed + other.failed, childSealed + other.childSealed)
    }
  }

  const ZERO: LifecycleCounts := LifecycleCounts(0, 0, 0, 0, 0, 0)

  const SPAWN: string := "spawn_agent"
  const ALL_TOOLS: string := "*"

  datatype ReceiptTruth = ReceiptTruth(
    turnIds: seq<string>, dispositions: seq<string>, byTool: map<string, LifecycleCounts>, children: seq<string>)
  {
    function Row(tool: string): LifecycleCounts {
      RowOf(byTool, tool)
    }

    /** `counts(tool).value(c)`: one tool's row, or the column sum for "*". */
    ghost function Count(tool: string, c: Category): int
      requires IsLifecycle(c)
    {
      if tool == ALL_TOOLS then SumBy(byTool, Column(c)) else Row(tool).Value(c)
    }
  }

  function RowOf(table: map<string, LifecycleCounts>, tool: string): LifecycleCounts {
    if tool in table then table[tool] else ZERO
  }

  function Column(c: Category): LifecycleCounts -> int
    requires IsLifecycle(c)
  {
    (counts: LifecycleCounts) => counts.Value(c)
  }

  // -------------------------------------------------------------------------------------------------- distinct ids

  /** `list(dict.fromkeys(xs))` */
  function Dedup<T(==,!new)>(xs: seq<T>): (r: seq<T>)
    ensures forall x :: x in r <==> x in xs
    ensures Distinct(r)
    ensures |r| <= |xs|
  {
    if xs == [] then []
    else
      var init := Dedup(xs[..|xs| - 1]);
      assert xs == xs[..|xs| - 1] + [xs[|xs| - 1]];
      if xs[|xs| - 1] in init then init else init + [xs[|xs| - 1]]
  }

  lemma {:induction false} DedupSnoc<T(!new)>(xs: seq<T>, x: T)
    ensures Dedup(xs + [x]) == if x in xs then Dedup(xs) else Dedup(xs) + [x]
  {
    assert (xs + [x])[..|xs|] == xs;
  }

  /** Removing repeats early changes nothing. */
  lemma {:induction false} DedupAbsorbs<T(!new)>(xs: seq<T>, ys: seq<T>)
    ensures Dedup(Dedup(xs) + Dedup(ys)) == Dedup(xs + ys)
  {
    hide Dedup;
    if ys == [] {
      DedupOfDistinct(Dedup(xs));
      assert Dedup<T>([]) == [] by { DedupOfDistinct<T>([]); }
      assert Dedup(xs) + [] == Dedup(xs) && xs + [] == xs;
    } else {
      var init, y := ys[..|ys| - 1], ys[|ys| - 1];
      DedupAbsorbs(xs, init);
      assert ys == init + [y] && xs + ys == (xs + init) + [y];
      DedupSnoc(init, y);
      DedupSnoc(xs + init, y);
      if y !in init {
        assert Dedup(xs) + Dedup(ys) == (Dedup(xs) + Dedup(init)) + [y];
        DedupSnoc(Dedup(xs) + Dedup(init), y);
      }
    }
  }

  lemma {:induction false} DedupOfDistinct<T(!new)>(xs: seq<T>)
    ensures Dedup(xs) == xs <==> Distinct(xs)
    ensures |Dedup(xs)| == |xs| <==> Distinct(xs)
  {
    if xs != [] {
      DedupOfDistinct(xs[..|xs| - 1]);
    }
  }

  // -------------------------------------------------------------------------------------------------- aggregation

  /** Adding two tables row by row. */
  function AddTables(a: map<string, LifecycleCounts>, b: map<string, LifecycleCounts>): map<string, LifecycleCounts> {
    map tool | tool in a.Keys + b.Keys :: RowOf(a, tool).Plus(RowOf(b, tool))
  }

  const NOTHING: ReceiptTruth := ReceiptTruth([], [], map[], [])

  function Join2(a: ReceiptTruth, b: ReceiptTruth): ReceiptTruth {
    ReceiptTruth(a.turnIds + b.turnIds, a.dispositions + b.dispositions, AddTables(a.byTool, b.byTool),
                 Dedup(a.children + b.children))
  }

  /** What merging a list of receipts means. */
  function Merged(values: seq<ReceiptTruth>): ReceiptTruth {
    if values == [] then NOTHING else Join2(Merged(values[..|values| - 1]), values[|values| - 1])
  }

  lemma {:induction false} DedupOnce<T(!new)>(xs: seq<T>, ys: seq<T>)
    ensures Dedup(Dedup(xs) + ys) == Dedup(xs + ys) == Dedup(xs + Dedup(ys))
  {
    hide Dedup;
    DedupAbsorbs(xs, ys);
    DedupAbsorbs(Dedup(xs), ys);
    DedupAbsorbs(xs, Dedup(ys));
    DedupOfDistinct(Dedup(xs));
    DedupOfDistinct(Dedup(ys));
  }

  lemma {:induction false} RowsAdd(a: map<string, LifecycleCounts>, b: map<string, LifecycleCounts>, tool: string)
    ensures RowOf(AddTables(a, b), tool) == RowOf(a, tool).Plus(RowOf(b, tool))
  {
  }

  lemma {:induction false} AddTablesAssociates(
      a: map<string, LifecycleCounts>, b: map<string, LifecycleCounts>, c: map<string, LifecycleCounts>)
    ensures AddTables(AddTables(a, b), c) == AddTables(a, AddTables(b, c))
  {
    hide RowOf, AddTables, LifecycleCounts.Plus;
    var left, right := AddTables(AddTables(a, b), c), AddTables(a, AddTables(b, c));
    forall tool
      ensures tool in left <==> tool in right
      ensures tool in left ==> left[tool] == right[tool]
    {
      SumAt(a, b, tool);
      SumAt(b, c, tool);
      SumAt(AddTables(a, b), c, tool);
      SumAt(a, AddTables(b, c), tool);
      PlusAssociates(RowOf(a, tool), RowOf(b, tool), RowOf(c, tool));
    }
  }

  lemma {:induction false} SumAt(a: map<string, LifecycleCounts>, b: map<string, LifecycleCounts>, tool: string)
    ensures tool in AddTables(a, b) <==> tool in a || tool in b
    ensures RowOf(AddTables(a, b), tool) == RowOf(a, tool).Plus(RowOf(b, tool))
    ensures tool in AddTables(a, b) ==> AddTables(a, b)[tool] == RowOf(AddTables(a, b), tool)
  {
  }

  lemma {:induction false} PlusAssociates(a: LifecycleCounts, b: LifecycleCounts, c: LifecycleCounts)
    ensures a.Plus(b).Plus(c) == a.Plus(b.Plus(c))
  {
  }

  lemma {:induction false} Join2Associates(a: ReceiptTruth, b: ReceiptTruth, c: ReceiptTruth)
    ensures Join2(Join2(a, b), c) == Join2(a, Join2(b, c))
  {
    hide Dedup, AddTables;
    AddTablesAssociates(a.byTool, b.byTool, c.byTool);
    DedupOnce(a.children + b.children, c.children);
    DedupOnce(a.children, b.children + c.children);
    assert a.children + b.children + c.children == a.children + (b.children + c.children);
    assert a.turnIds + b.turnIds + c.turnIds == a.turnIds + (b.turnIds + c.turnIds);
    assert a.dispositions + b.dispositions + c.dispositions == a.dispositions + (b.dispositions + c.dispositions);
  }

  lemma {:induction false} AddNothing(a: map<string, LifecycleCounts>)
    ensures AddTables(a, map[]) == a == AddTables(map[], a)
  {
  }

  /** Merging a concatenation is joining the merges. */
  lemma {:induction false} MergedConcat(xs: seq<ReceiptTruth>, ys: seq<ReceiptTruth>)
    ensures Merged(xs + ys) == Join2(Merged(xs), Merged(ys))
  {
    hide Dedup;
    if ys == [] {
      assert xs + ys == xs;
      AddNothing(Merged(xs).byTool);
      MergedChildren(xs);
      assert Merged(xs).children + [] == Merged(xs).children;
    } else {
      var init, y := ys[..|ys| - 1], ys[|ys| - 1];
      assert (xs + ys)[..|xs + ys| - 1] == xs + init;
      MergedConcat(xs, init);
      Join2Associates(Merged(xs), Merged(init), y);
    }
  }

  lemma {:induction false} MergedChildren(xs: seq<ReceiptTruth>)
    ensures Dedup(Merged(xs).children) == Merged(xs).children
  {
    DedupOfDistinct(Merged(xs).children);
  }

  /** Merging is a homomorphism: merging the merges of two lists is merging the two lists as one. */
  lemma {:induction false} MergeIsHomomorphism(xs: seq<ReceiptTruth>, ys: seq<ReceiptTruth>)
    ensures Merged(xs + ys) == Merged([Merged(xs), Merged(ys)])
  {
    hide Dedup;
    var a, b := Merged(xs), Merged(ys);
    MergedConcat(xs, ys);
    MergedConcat([], [a]);
    MergedOne(a);
    MergedOne(b);
    MergedConcat([a], [b]);
    assert [a] + [b] == [a, b];
    DedupOnce(a.children, b.children);
    DedupOnce(Dedup(a.children), b.children);
  }

  lemma {:induction false} MergedOne(a: ReceiptTruth)
    ensures Merged([a]) == a.(children := Dedup(a.children))
  {
    assert [a][..0] == [];
    AddNothing(a.byTool);
    assert [] + a.children == a.children;
  }

  lemma {:induction false} AddTablesStep(a: map<string, LifecycleCounts>, b: map<string, LifecycleCounts>, tool: string)
    requires tool in b
    ensures AddTables(a, b) == AddTables(a, b - {tool})[tool := RowOf(a, tool).Plus(b[tool])]
    ensures tool in AddTables(a, b - {tool}) <==> tool in a
    ensures tool in a ==> AddTables(a, b - {tool})[tool] == a[tool]
  {
  }

  /** Adding tables adds their column sums. */
  lemma {:induction false} AddTablesSums(a: map<string, LifecycleCounts>, b: map<string, LifecycleCounts>, c: Category)
    requires IsLifecycle(c)
    ensures SumBy(AddTables(a, b), Column(c)) == SumBy(a, Column(c)) + SumBy(b, Column(c))
    decreases |b|
  {
    hide AddTables, SumBy;
    if b == map[] {
      AddNothing(a);
      SumByNothing(b, Column(c));
    } else {
      var tool :| tool in b;
      var rest := AddTables(a, b - {tool});
      AddTablesSums(a, b - {tool}, c);
      AddTablesStep(a, b, tool);
      SumByRemove(b, Column(c), tool);
      SumByUpdate(rest, Column(c), tool, RowOf(a, tool).Plus(b[tool]));
    }
  }

  lemma {:induction false} Join2Counts(a: ReceiptTruth, b: ReceiptTruth, tool: string, c: Category)
    requires IsLifecycle(c)
    ensures Join2(a, b).Count(tool, c) == a.Count(tool, c) + b.Count(tool, c)
  {
    hide AddTables, SumBy, Dedup, RowOf, Column, LifecycleCounts.Value, LifecycleCounts.Plus;
    AddTablesSums(a.byTool, b.byTool, c);
    RowsAdd(a.byTool, b.byTool, tool);
    ValuesAdd(RowOf(a.byTool, tool), RowOf(b.byTool, tool), c);
  }

  lemma {:induction false} ValuesAdd(a: LifecycleCounts, b: LifecycleCounts, c: Category)
    requires IsLifecycle(c)
    ensures a.Plus(b).Value(c) == a.Value(c) + b.Value(c)
  {
  }

  ghost function CountSum(values: seq<ReceiptTruth>, tool: string, c: Category): int
    requires IsLifecycle(c)
  {
    if values == [] then 0
    else CountSum(values[..|values| - 1], tool, c) + values[|values| - 1].Count(tool, c)
  }

  /** Any count of a merge, the "*" aggregate included, is the sum of the counts of its parts. */
  lemma {:induction false} MergedCounts(values: seq<ReceiptTruth>, tool: string, c: Category)
    requires IsLifecycle(c)
    ensures Merged(values).Count(tool, c) == CountSum(values, tool, c)
  {
    hide Join2;
    if values == [] {
      SumByNothing(NOTHING.byTool, Column(c));
    } else {
      MergedCounts(values[..|values| - 1], tool, c);
      Join2Counts(Merged(values[..|values| - 1]), values[|values| - 1], tool, c);
    }
  }

  /** Each receipt counts its own children once. */
  predicate SealsItsChildren(t: ReceiptTruth) {
    Distinct(t.children) && t.Row(SPAWN).childSealed == |t.children|
  }

  function AllChildren(values: seq<ReceiptTruth>): seq<string> {
    if values == [] then [] else AllChildren(values[..|values| - 1]) + values[|values| - 1].children
  }

  /**
   * The merged child count adds up over turns, so it is at least the number of distinct child ids, and equal to it
   * exactly when no id occurs in two receipts.
   */
  lemma {:induction false} MergedChildCount(values: seq<ReceiptTruth>)
    requires forall i :: 0 <= i < |values| ==> SealsItsChildren(values[i])
    ensures var merged := Merged(values);
      && merged.children == Dedup(AllChildren(values))
      && merged.Row(SPAWN).childSealed >= |merged.children|
      && (merged.Row(SPAWN).childSealed == |merged.children| <==> Distinct(AllChildren(values)))
  {
    ChildrenAddUp(values);
    DedupOfDistinct(AllChildren(values));
  }

  lemma {:induction false} ChildrenAddUp(values: seq<ReceiptTruth>)
    requires forall i :: 0 <= i < |values| ==> SealsItsChildren(values[i])
    ensures Merged(values).children == Dedup(AllChildren(values))
    ensures Merged(values).Row(SPAWN).childSealed == |AllChildren(values)|
  {
    hide AddTables, Dedup;
    DedupOfDistinct<string>([]);
    if values != [] {
      var init, last := Merged(values[..|values| - 1]), values[|values| - 1];
      ChildrenAddUp(values[..|values| - 1]);
      RowsAdd(init.byTool, last.byTool, SPAWN);
      DedupOnce(AllChildren(values[..|values| - 1]), values[|values| - 1].children);
    }
  }

  /** The merging loop: for every receipt in turn, every row it has. */
  method MergeReceiptTruth(values: seq<ReceiptTruth>) returns (r: ReceiptTruth)
    ensures r == Merged(values)
  {
    hide Dedup;
    var turns, dispositions, children := [], [], [];
    var totals := map[];
    for i := 0 to |values|
      invariant ReceiptTruth(turns, dispositions, totals, Dedup(children)) == Merged(values[..i])
    {
      var truth := values[i];
      assert values[..i + 1][..i] == values[..i];
      DedupOnce(children, truth.children);
      turns, dispositions, children := turns + truth.turnIds, dispositions + truth.dispositions, children + truth.children;
      totals := AddRows(totals, truth.byTool);
    }
    assert values[..|values|] == values;
    r := ReceiptTruth(turns, dispositions, totals, Dedup(children));
  }

  method AddRows(totals: map<string, LifecycleCounts>, rows: map<string, LifecycleCounts>)
    returns (r: map<string, LifecycleCounts>)
    ensures r == AddTables(totals, rows)
  {
    r := totals;
    var left := rows.Keys;
    while left != {}
      invariant left <= rows.Keys
      invariant r == AddTables(totals, rows - left)
    {
      var tool :| tool in left;
      r := r[tool := RowOf(r, tool).Plus(rows[tool])];
      left := left - {tool};
    }
    assert rows - {} == rows;
  }

  /** A merge has a row for every tool that one of its parts has a row for. */
  lemma {:induction false} MergedRows(values: seq<ReceiptTruth>, tool: string)
    ensures tool in Merged(values).byTool <==> exists t: ReceiptTruth :: t in values && tool in t.byTool
  {
    hide Dedup;
    if values != [] {
      var init, last := values[..|values| - 1], values[|values| - 1];
      assert values == init + [last];
      MergedRows(init, tool);
    }
  }
}
