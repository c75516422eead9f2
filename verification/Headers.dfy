/** The scan for serialized region headers that the spine probe and the census share. */
module Headers {
  import opened Text

  /** A line break and "# " as they appear inside a JSON string literal: backslash, n, #, space. */
  const ESC_HDR := "\\n# "

  /** The offsets at which repeated `find` calls from pos stop, up to the limit. */
  function Hits(s: string, pos: nat, limit: nat): (hits: seq<nat>)
    ensures forall h :: h in hits ==> pos <= h < limit && OccursAt(s, ESC_HDR, h)
    decreases |s| - pos
  {
    var hit := Find(s, ESC_HDR, pos);
    if hit < 0 || hit >= limit then [] else [hit] + Hits(s, hit + |ESC_HDR|, limit)
  }

  lemma {:induction false} HeaderChars(s: string, i: nat)
    requires OccursAt(s, ESC_HDR, i)
    ensures s[i] == '\\' && s[i + 1] == 'n' && s[i + 2] == '#' && s[i + 3] == ' '
  {
    var h := s[i..i + 4];
    assert s[i] == h[0] && s[i + 1] == h[1] && s[i + 2] == h[2] && s[i + 3] == h[3];
  }

  /** A header cannot begin inside another. */
  lemma {:induction false} NoOverlap(s: string, hit: nat, i: nat)
    requires OccursAt(s, ESC_HDR, hit) && hit < i < hit + 4
    ensures !OccursAt(s, ESC_HDR, i)
  {
    hide OccursAt;
    if OccursAt(s, ESC_HDR, i) {
      BehindHit(s, hit, i);
    }
  }

  /** Skipping past each hit misses none: a header cannot overlap itself. */
  lemma {:induction false} HitsAreAll(s: string, pos: nat, limit: nat, i: nat)
    requires pos <= i < limit
    ensures i in Hits(s, pos, limit) <==> OccursAt(s, ESC_HDR, i)
    decreases |s| - pos
  {
    hide Find, OccursAt;
    var hit := Find(s, ESC_HDR, pos);
    if OccursAt(s, ESC_HDR, i) && hit != i {
      FindIsFirst(s, ESC_HDR, pos, i);
      HitEnds(s, hit);
      BehindHit(s, hit, i);
      HitsAreAll(s, hit + 4, limit, i);
    }
  }

  lemma {:induction false} HitEnds(s: string, hit: nat)
    requires OccursAt(s, ESC_HDR, hit)
    ensures hit + 4 <= |s|
  {
  }

  lemma {:induction false} BehindHit(s: string, hit: nat, i: nat)
    requires OccursAt(s, ESC_HDR, hit) && OccursAt(s, ESC_HDR, i) && hit < i
    ensures hit + 4 <= i
  {
    HeaderChars(s, hit);
    HeaderChars(s, i);
  }

  /** The cuts ascend and none lies behind `end`. */
  ghost predicate Ordered(cuts: seq<nat>, end: nat) {
    cuts == [] || (cuts[0] <= PieceEnd(cuts, 0, end) <= end && Ordered(cuts[1..], end))
  }

  lemma {:induction false} HitsOrdered(s: string, pos: nat, limit: nat)
    requires limit <= |s|
    ensures Ordered(Hits(s, pos, limit), limit)
    decreases |s| - pos
  {
    hide Find;
    var hit := Find(s, ESC_HDR, pos);
    if 0 <= hit < limit {
      HitsOrdered(s, hit + 4, limit);
      var rest := Hits(s, hit + 4, limit);
      assert rest != [] ==> rest[0] in rest;
    }
  }

  /** Where the piece that starts at cut j ends: at the next cut, or at `end`. */
  function PieceEnd(cuts: seq<nat>, j: nat, end: nat): nat
    requires j < |cuts|
  {
    if j + 1 < |cuts| then cuts[j + 1] else end
  }

  // ----- which header a character stands under -----

  /** The name of the last header at or above character p, or `pre`. */
  function NameAt(s: string, p: nat, name: nat -> string, pre: string): string {
    if OccursAt(s, ESC_HDR, p) then name(p) else if p == 0 then pre else NameAt(s, p - 1, name, pre)
  }

  /** How many of the first n characters stand under a header of that name. */
  function CountUnder(s: string, n: nat, name: nat -> string, pre: string, key: string): nat {
    if n == 0 then 0
    else CountUnder(s, n - 1, name, pre, key) + if NameAt(s, n - 1, name, pre) == key then 1 else 0
  }

  /** The lengths of the pieces whose cut has that name. */
  function PiecesUnder(cuts: seq<nat>, end: nat, name: nat -> string, key: string): int {
    if cuts == [] then 0
    else (if name(cuts[0]) == key then PieceEnd(cuts, 0, end) - cuts[0] else 0) + PiecesUnder(cuts[1..], end, name, key)
  }

  /** From one header to the next every character stands under the first. */
  lemma {:induction false} UnderOne(s: string, from: nat, end: nat, name: nat -> string, pre: string, key: string)
    requires from <= end
    requires OccursAt(s, ESC_HDR, from) || from == 0
    requires forall i :: from < i < end ==> !OccursAt(s, ESC_HDR, i)
    ensures CountUnder(s, end, name, pre, key) - CountUnder(s, from, name, pre, key)
         == if NameAt(s, from, name, pre) == key then end - from else 0
    ensures from < end ==> NameAt(s, end - 1, name, pre) == NameAt(s, from, name, pre)
    decreases end
  {
    hide OccursAt;
    if from < end {
      UnderOne(s, from, end - 1, name, pre, key);
    }
  }

  /** Cutting at the headers attributes every character to the header it stands under. */
  lemma {:induction false} PiecesAreUnder(s: string, pos: nat, limit: nat, name: nat -> string, pre: string, key: string)
    requires limit <= |s|
    ensures var hits := Hits(s, pos, limit);
      var first := if hits == [] then limit else hits[0];
      CountUnder(s, limit, name, pre, key) == CountUnder(s, first, name, pre, key) + PiecesUnder(hits, limit, name, key)
    decreases |s| - pos
  {
    hide Find, OccursAt, CountUnder;
    var hit := Find(s, ESC_HDR, pos);
    if 0 <= hit < limit {
      PiecesAreUnder(s, hit + 4, limit, name, pre, key);
      var next := PieceEnd(Hits(s, pos, limit), 0, limit);
      NoHeaderBetween(s, hit, limit);
      UnderOne(s, hit, next, name, pre, key);
    }
  }

  lemma {:induction false} NoHeaderBetween(s: string, hit: nat, limit: nat)
    requires OccursAt(s, ESC_HDR, hit) && hit < limit <= |s|
    ensures var rest := Hits(s, hit + 4, limit);
      var next := if rest == [] then limit else rest[0];
      hit <= next && forall i :: hit < i < next ==> !OccursAt(s, ESC_HDR, i)
  {
    var rest := Hits(s, hit + 4, limit);
    var next := if rest == [] then limit else rest[0];
    assert rest != [] ==> rest[0] in rest;
    hide Find, OccursAt, Hits;
    forall i: nat | hit < i < next
      ensures !OccursAt(s, ESC_HDR, i)
    {
      if i < hit + 4 {
        NoOverlap(s, hit, i);
      } else {
        NoneBeforeFirst(s, hit + 4, limit, i);
      }
    }
  }

  lemma {:induction false} NoneBeforeFirst(s: string, pos: nat, limit: nat, i: nat)
    requires pos <= i < (if Hits(s, pos, limit) == [] then limit else Hits(s, pos, limit)[0])
    ensures !OccursAt(s, ESC_HDR, i)
  {
    var hits := Hits(s, pos, limit);
    assert hits != [] ==> hits[0] in hits;
    HitsAreAll(s, pos, limit, i);
    if i in hits {
      FirstHitIsLeast(s, pos, limit, i);
    }
  }

  lemma {:induction false} FirstHitIsLeast(s: string, pos: nat, limit: nat, i: nat)
    requires i in Hits(s, pos, limit)
    ensures Hits(s, pos, limit)[0] <= i
  {
    var hit := Find(s, ESC_HDR, pos);
    var rest := Hits(s, hit + 4, limit);
    assert i == hit || i in rest;
  }

  /** The whole text up to the limit: the part before the first header counts as `pre`. */
  lemma {:induction false} HitsCount(s: string, limit: nat, name: nat -> string, pre: string, key: string)
    requires limit <= |s|
    ensures var hits := Hits(s, 0, limit);
      CountUnder(s, limit, name, pre, key)
        == (if pre == key then if hits == [] then limit else hits[0] else 0) + PiecesUnder(hits, limit, name, key)
  {
    hide Find, OccursAt, CountUnder;
    PiecesAreUnder(s, 0, limit, name, pre, key);
    var hits := Hits(s, 0, limit);
    var first := if hits == [] then limit else hits[0];
    BeforeFirst(s, limit, first, name, pre, key);
  }

  lemma {:induction false} BeforeFirst(s: string, limit: nat, n: nat, name: nat -> string, pre: string, key: string)
    requires limit <= |s| && n <= limit && (Hits(s, 0, limit) != [] ==> n <= Hits(s, 0, limit)[0])
    ensures CountUnder(s, n, name, pre, key) == if pre == key then n else 0
    ensures n > 0 ==> NameAt(s, n - 1, name, pre) == pre
  {
    hide Find, OccursAt;
    if n > 0 {
      BeforeFirst(s, limit, n - 1, name, pre, key);
      HitsAreAll(s, 0, limit, n - 1);
      if OccursAt(s, ESC_HDR, n - 1) {
        FirstHitIsLeast(s, 0, limit, n - 1);
      }
    }
  }

  lemma {:induction false} PiecesSnoc(cuts: seq<nat>, c: nat, end: nat, name: nat -> string, key: string)
    ensures PiecesUnder(cuts + [c], end, name, key)
         == PiecesUnder(cuts, c, name, key) + if name(c) == key then end - c else 0
  {
    if cuts == [] {
      assert [] + [c] == [c];
    } else {
      assert (cuts + [c])[1..] == cuts[1..] + [c];
      PiecesSnoc(cuts[1..], c, end, name, key);
    }
  }
}
