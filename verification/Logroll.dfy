/**
 * The aggregation of the "logroll" reference tool (evals/hardbench/selftest.py): requests and bytes per user, where
 * adjacent rows with the same user, path and timestamp are one request.
 */
module Logroll {
  import opened Sums

  datatype Row = Row(ts: string, user: string, path: string, nbytes: int)

  datatype Key = Key(user: string, path: string, ts: string)

  datatype Previous = NoRow | Seen(key: Key)

  function KeyOf(row: Row): Key {
    Key(row.user, row.path, row.ts)
  }

  /** Two rows of one request; their byte counts may differ. */
  predicate SameKey(a: Row, b: Row) {
    a.user == b.user && a.path == b.path && a.ts == b.ts
  }

  /** The first row of every run of adjacent duplicates. */
  function Collapse(rows: seq<Row>): seq<Row> {
    if rows == [] then []
    else
      var n := |rows| - 1;
      Collapse(rows[..n]) + if n > 0 && SameKey(rows[n - 1], rows[n]) then [] else [rows[n]]
  }

  function Ones(rows: seq<Row>): (entries: seq<(string, int)>)
    ensures |entries| == |rows|
  {
    seq(|rows|, i requires 0 <= i < |rows| => (rows[i].user, 1))
  }

  function Sizes(rows: seq<Row>): (entries: seq<(string, int)>)
    ensures |entries| == |rows|
  {
    seq(|rows|, i requires 0 <= i < |rows| => (rows[i].user, rows[i].nbytes))
  }

  /** A row that repeats its predecessor's key, wherever it stands, leaves no trace. */
  lemma {:induction false} RepeatIsInvisible(before: seq<Row>, row: Row, repeat: Row, after: seq<Row>)
    requires SameKey(row, repeat)
    ensures Collapse(before + [row, repeat] + after) == Collapse(before + [row] + after)
  {
    hide Collapse;
    if after == [] {
      assert before + [row, repeat] + after == (before + [row]) + [repeat];
      assert before + [row] + after == before + [row];
      CollapseSnoc(before + [row], repeat);
      assert Collapse(before + [row]) + [] == Collapse(before + [row]);
    } else {
      var init, last := after[..|after| - 1], after[|after| - 1];
      var long, short := before + [row, repeat] + init, before + [row] + init;
      assert before + [row, repeat] + after == long + [last] && before + [row] + after == short + [last];
      RepeatIsInvisible(before, row, repeat, init);
      CollapseSnoc(long, last);
      CollapseSnoc(short, last);
    }
  }

  lemma {:induction false} CollapseSnoc(rows: seq<Row>, row: Row)
    ensures Collapse(rows + [row])
         == Collapse(rows) + if rows != [] && SameKey(rows[|rows| - 1], row) then [] else [row]
  {
    assert (rows + [row])[..|rows|] == rows;
  }

  /** Collapsed rows have no adjacent duplicates left, so collapsing again changes nothing. */
  lemma {:induction false} CollapseIsIdempotent(rows: seq<Row>)
    ensures Collapse(Collapse(rows)) == Collapse(rows)
    ensures rows != [] ==> Collapse(rows) != [] && SameKey(Collapse(rows)[|Collapse(rows)| - 1], rows[|rows| - 1])
  {
    hide Collapse;
    CollapseOfNothing();
    if rows != [] {
      var init, last := rows[..|rows| - 1], rows[|rows| - 1];
      assert init + [last] == rows;
      CollapseIsIdempotent(init);
      CollapseSnoc(init, last);
      CollapseSnoc(Collapse(init), last);
      assert Collapse(init) + [] == Collapse(init);
    }
  }

  lemma CollapseOfNothing()
    ensures Collapse([]) == []
  {
  }

  /** The loop: a row with the key of the row before it is skipped. */
  method Aggregate(rows: seq<Row>) returns (counts: map<string, int>, bytes: map<string, int>)
    ensures counts == Tally(Ones(Collapse(rows))) && bytes == Tally(Sizes(Collapse(rows)))
    ensures SumBy(counts, x => x) == |Collapse(rows)|
  {
    hide Tally;
    ghost var seen := [];
    counts, bytes := map[], map[];
    var prev := NoRow;
    TallyStart();
    for i := 0 to |rows|
      invariant prev == if i == 0 then NoRow else Seen(KeyOf(rows[i - 1]))
      invariant seen == Collapse(rows[..i])
      invariant counts == Tally(Ones(seen)) && bytes == Tally(Sizes(seen))
    {
      assert rows[..i + 1][..i] == rows[..i];
      var key := KeyOf(rows[i]);
      if Seen(key) != prev {
        prev := Seen(key);
        TallyRow(seen, rows[i]);
        seen := seen + [rows[i]];
        counts := Bump(counts, (rows[i].user, 1));
        bytes := Bump(bytes, (rows[i].user, rows[i].nbytes));
      }
    }
    assert rows[..|rows|] == rows;
    TallyConserves(Ones(seen));
    OnesSum(seen);
  }

  lemma TallyStart()
    ensures Tally(Ones([])) == map[] && Tally(Sizes([])) == map[]
  {
  }

  lemma {:induction false} TallyRow(rows: seq<Row>, row: Row)
    ensures Tally(Ones(rows + [row])) == Bump(Tally(Ones(rows)), (row.user, 1))
    ensures Tally(Sizes(rows + [row])) == Bump(Tally(Sizes(rows)), (row.user, row.nbytes))
  {
    assert Ones(rows + [row])[..|rows|] == Ones(rows);
    assert Sizes(rows + [row])[..|rows|] == Sizes(rows);
  }

  lemma {:induction false} OnesSum(rows: seq<Row>)
    ensures Sum(Amounts(Ones(rows))) == |rows|
  {
    if rows != [] {
      OnesSum(rows[1..]);
      assert Amounts(Ones(rows))[1..] == Amounts(Ones(rows[1..]));
    }
  }

  /** A request of the user begins with row i: the row before it is another user's, or of another path or time. */
  predicate Begins(rows: seq<Row>, i: int, user: string)
    requires 0 <= i < |rows|
  {
    && rows[i].user == user
    && (i == 0 || rows[i - 1].user != user || rows[i - 1].path != rows[i].path || rows[i - 1].ts != rows[i].ts)
  }

  /** How many requests of the user there are. */
  function Requests(rows: seq<Row>, user: string): nat {
    if rows == [] then 0
    else Requests(rows[..|rows| - 1], user) + if Begins(rows, |rows| - 1, user) then 1 else 0
  }

  /** The bytes of the first rows of the user's requests. */
  function Bytes(rows: seq<Row>, user: string): int {
    if rows == [] then 0
    else Bytes(rows[..|rows| - 1], user) + if Begins(rows, |rows| - 1, user) then rows[|rows| - 1].nbytes else 0
  }

  lemma {:induction false} CollapsedTotals(rows: seq<Row>, user: string)
    ensures TotalOf(Ones(Collapse(rows)), user) == Requests(rows, user)
    ensures TotalOf(Sizes(Collapse(rows)), user) == Bytes(rows, user)
  {
    if rows == [] {
      CollapseOfNothing();
    } else {
      var init, last := rows[..|rows| - 1], rows[|rows| - 1];
      var dup := init != [] && SameKey(init[|init| - 1], last);
      assert init + [last] == rows;
      CollapsedTotals(init, user);
      CollapseSnoc(init, last);
      BeginsMeans(rows, user);
      hide Collapse, TotalOf, Ones, Sizes, Begins, SameKey;
      TotalsSnoc(Collapse(init), last, dup, user);
    }
  }

  lemma {:induction false} BeginsMeans(rows: seq<Row>, user: string)
    requires rows != []
    ensures var init, last := rows[..|rows| - 1], rows[|rows| - 1];
      Begins(rows, |rows| - 1, user) <==> last.user == user && !(init != [] && SameKey(init[|init| - 1], last))
  {
  }

  lemma {:induction false} TotalsSnoc(rows: seq<Row>, row: Row, dup: bool, user: string)
    ensures var after := rows + if dup then [] else [row];
      && TotalOf(Ones(after), user) == TotalOf(Ones(rows), user) + (if row.user == user && !dup then 1 else 0)
      && TotalOf(Sizes(after), user) == TotalOf(Sizes(rows), user) + (if row.user == user && !dup then row.nbytes else 0)
  {
    assert rows + [] == rows;
    assert Ones(rows + [row])[..|rows|] == Ones(rows);
    assert Sizes(rows + [row])[..|rows|] == Sizes(rows);
  }

  /** What the aggregation reports for a user: the user's requests, each with the bytes of its first row. */
  lemma {:induction false} ReportsRequests(rows: seq<Row>, counts: map<string, int>, bytes: map<string, int>, user: string)
    requires counts == Tally(Ones(Collapse(rows))) && bytes == Tally(Sizes(Collapse(rows)))
    ensures (if user in counts then counts[user] else 0) == Requests(rows, user)
    ensures (if user in bytes then bytes[user] else 0) == Bytes(rows, user)
  {
    hide Tally, Collapse, TotalOf;
    TallyAt(Ones(Collapse(rows)), user);
    TallyAt(Sizes(Collapse(rows)), user);
    CollapsedTotals(rows, user);
  }
}
