/** Sums over sequences and over the values of a map, with the laws the accounting modules use. */
module Sums {

  function Sum(xs: seq<int>): int {
    if xs == [] then 0 else xs[0] + Sum(xs[1..])
  }

  lemma {:induction false} SumConcat(xs: seq<int>, ys: seq<int>)
    ensures Sum(xs + ys) == Sum(xs) + Sum(ys)
  {
    if xs == [] {
      assert xs + ys == ys;
    } else {
      assert (xs + ys)[1..] == xs[1..] + ys;
      SumConcat(xs[1..], ys);
    }
  }

  /** The sum of f over all values of m; the order of the keys cannot matter (see SumByRemove). */
  ghost function SumBy<K, V>(m: map<K, V>, f: V -> int): int
    decreases |m|
  {
    if m == map[] then 0 else
      var k := AnyKey(m);
      f(m[k]) + SumBy(m - {k}, f)
  }

  ghost function AnyKey<K, V>(m: map<K, V>): (k: K)
    requires m != map[]
    ensures k in m
  {
    var k :| k in m; k
  }

  lemma {:induction false} SumByRemove<K, V>(m: map<K, V>, f: V -> int, k: K)
    requires k in m
    ensures SumBy(m, f) == f(m[k]) + SumBy(m - {k}, f)
    decreases |m|
  {
    var j := AnyKey(m);
    if j != k {
      SumByRemove(m - {j}, f, k);
      SumByRemove(m - {k}, f, j);
      assert m - {j} - {k} == m - {k} - {j};
    }
  }

  lemma {:induction false} SumByNothing<K, V>(m: map<K, V>, f: V -> int)
    requires m == map[]
    ensures SumBy(m, f) == 0
  {
  }

  lemma {:induction false} SumByUpdate<K, V>(m: map<K, V>, f: V -> int, k: K, v: V)
    ensures SumBy(m[k := v], f) == SumBy(m, f) + f(v) - (if k in m then f(m[k]) else 0)
  {
    SumByRemove(m[k := v], f, k);
    if k in m {
      SumByRemove(m, f, k);
      assert m[k := v] - {k} == m - {k};
    } else {
      assert m[k := v] - {k} == m;
    }
  }

  /** Every element of s has a distinct value under f in the interval lo..hi, so s is no larger than it. */
  lemma {:induction false} Pigeonhole<T>(s: set<T>, f: map<T, int>, lo: int, hi: int)
    requires lo <= hi
    requires forall x :: x in s ==> x in f && lo <= f[x] < hi
    requires forall x, y :: x in s && y in s && f[x] == f[y] ==> x == y
    ensures |s| <= hi - lo
    decreases hi - lo
  {
    if lo == hi {
      assert s == {};
    } else if top :| top in s && f[top] == hi - 1 {
      Pigeonhole(s - {top}, f, lo, hi - 1);
    } else {
      Pigeonhole(s, f, lo, hi - 1);
    }
  }

  /** `d[k] = d.get(k, 0) + v` for each entry in turn. */
  function Tally<K>(entries: seq<(K, int)>): map<K, int> {
    if entries == [] then map[] else Bump(Tally(entries[..|entries| - 1]), entries[|entries| - 1])
  }

  function Bump<K>(m: map<K, int>, entry: (K, int)): map<K, int> {
    m[entry.0 := (if entry.0 in m then m[entry.0] else 0) + entry.1]
  }

  lemma {:induction false} TallyStep<K>(entries: seq<(K, int)>, i: nat)
    requires i < |entries|
    ensures Tally(entries[..i + 1]) == Bump(Tally(entries[..i]), entries[i])
    ensures Tally(entries[..0]) == map[]
  {
    assert entries[..i + 1][..i] == entries[..i];
  }

  function Amounts<K>(entries: seq<(K, int)>): seq<int> {
    seq(|entries|, i requires 0 <= i < |entries| => entries[i].1)
  }

  /** The part of the total that the entries under one key contribute. */
  function TotalOf<K(==)>(entries: seq<(K, int)>, k: K): int {
    if entries == [] then 0
    else TotalOf(entries[..|entries| - 1], k) + if entries[|entries| - 1].0 == k then entries[|entries| - 1].1 else 0
  }

  /** A tally neither loses nor invents anything: its values sum to the entries' amounts. */
  lemma {:induction false} TallyConserves<K>(entries: seq<(K, int)>)
    ensures SumBy(Tally(entries), x => x) == Sum(Amounts(entries))
  {
    if entries != [] {
      var init, last := entries[..|entries| - 1], entries[|entries| - 1];
      TallyConserves(init);
      SumByUpdate(Tally(init), x => x, last.0, Tally(entries)[last.0]);
      assert Amounts(entries) == Amounts(init) + [last.1];
      SumConcat(Amounts(init), [last.1]);
    }
  }

  /** What a tally holds under k is exactly what the entries under k sum to. */
  lemma {:induction false} TallyAt<K>(entries: seq<(K, int)>, k: K)
    ensures k in Tally(entries) <==> exists i :: 0 <= i < |entries| && entries[i].0 == k
    ensures k in Tally(entries) ==> Tally(entries)[k] == TotalOf(entries, k)
    ensures k !in Tally(entries) ==> TotalOf(entries, k) == 0
  {
    if entries != [] {
      var init, last := entries[..|entries| - 1], entries[|entries| - 1];
      TallyAt(init, k);
      if k in Tally(init) {
        var i :| 0 <= i < |init| && init[i].0 == k;
        assert entries[i].0 == k;
      } else {
        assert forall i :: 0 <= i < |init| ==> entries[i] == init[i];
      }
    }
  }

  lemma {:induction false} SizeAfterInsert<K, V>(m: map<K, V>, k: K, v: V)
    ensures |m[k := v]| == if k in m then |m| else |m| + 1
  {
    assert m[k := v].Keys == m.Keys + {k};
  }

  lemma {:induction false} SizeAfterRemove<K, V>(m: map<K, V>, k: K)
    ensures |m - {k}| == if k in m then |m| - 1 else |m|
  {
    assert (m - {k}).Keys == m.Keys - {k};
  }

  /** `d[b] = d.pop(a)` */
  function Rekey<K, V>(m: map<K, V>, a: K, b: K): (r: map<K, V>)
    requires a in m
    ensures r.Keys == m.Keys - {a} + {b}
    ensures b !in m ==> |r| == |m|
  {
    SizeAfterRemove(m, a);
    SizeAfterInsert(m - {a}, b, m[a]);
    (m - {a})[b := m[a]]
  }
}
