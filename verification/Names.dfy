/**
 * The renaming rule of both 50-turn generators: a name gets "-v2", and a name that ends in "-v2"
 * has that replaced by "-next". Every name is a stem with a tail of such suffixes.
 */
module Names {
  import opened Text

  /** `s.replace(what, by)` for a nonempty `what`: every occurrence, left to right. */
  function Replace(s: string, what: string, with: string): string
    requires what != ""
    decreases |s|
  {
    if |s| < |what| then s
    else if StartsWith(s, what) then with + Replace(s[|what|..], what, with)
    else [s[0]] + Replace(s[1..], what, with)
  }

  /** `a + "-v2" if not a.endswith("-v2") else a.replace("-v2", "-next")` */
  function Renamed(a: string): string {
    if EndsWith(a, "-v2") then Replace(a, "-v2", "-next") else a + "-v2"
  }

  /** The suffix after k renamings. */
  function Tail(k: nat): string {
    if k == 0 then "" else if k == 1 then "-v2" else "-next" + Tail(k - 2)
  }

  function Name(stem: string, k: nat): string {
    stem + Tail(k)
  }

  /** "-v2" begins at offset i. */
  predicate V2At(s: string, i: int) {
    0 <= i && i + 2 < |s| && s[i] == '-' && s[i + 1] == 'v' && s[i + 2] == '2'
  }

  /** A stem no renaming has touched: no "-v2" in it and no "-next" at its end. */
  predicate CleanStem(stem: string) {
    && !EndsWith(stem, "-next")
    && forall i :: 0 <= i < |stem| ==> !V2At(stem, i)
  }

  function StripNext(s: string): string {
    if EndsWith(s, "-next") then StripNext(s[..|s| - 5]) else s
  }

  /** The stem of a name. */
  function StemOf(name: string): string {
    StripNext(if EndsWith(name, "-v2") then name[..|name| - 3] else name)
  }

  lemma {:induction false} EndsWithV2(s: string)
    ensures EndsWith(s, "-v2") <==> V2At(s, |s| - 3)
  {
    if |s| >= 3 {
      var e := s[|s| - 3..];
      assert e == [s[|s| - 3], s[|s| - 2], s[|s| - 1]];
    }
  }

  /** Tails grow by two characters or more with every renaming. */
  lemma {:induction false} TailLength(k: nat)
    ensures |Tail(k)| == 5 * (k / 2) + 3 * (k % 2)
  {
    if k >= 2 {
      TailLength(k - 2);
    }
  }

  lemma {:induction false} LongerTail(j: nat, k: nat)
    ensures j < k <==> |Tail(j)| < |Tail(k)|
  {
    TailLength(j);
    TailLength(k);
  }

  /** After an even number of renamings the next one appends "-v2". */
  lemma {:induction false} EvenTail(k: nat)
    requires k % 2 == 0
    ensures Tail(k + 1) == Tail(k) + "-v2"
    ensures k > 0 ==> Tail(k) == Tail(k - 2) + "-next"
  {
    if k >= 2 {
      EvenTail(k - 2);
      Assoc("-next", Tail(k - 2), "-v2");
      if k > 2 {
        Assoc("-next", Tail(k - 4), "-next");
      }
    }
  }

  /** After an odd number the next one turns "-v2" into "-next". */
  lemma {:induction false} OddTail(k: nat)
    requires k % 2 == 1
    ensures Tail(k) == Tail(k - 1) + "-v2" && Tail(k + 1) == Tail(k - 1) + "-next"
  {
    EvenTail(k - 1);
    EvenTail(k + 1);
  }

  /** In a name, "-v2" can only be the last three characters. */
  lemma {:induction false} V2OnlyAtEnd(k: nat, i: int)
    ensures V2At(Tail(k), i) ==> i == |Tail(k)| - 3
  {
    if k >= 2 && i >= 5 {
      V2OnlyAtEnd(k - 2, i - 5);
    }
  }

  lemma {:induction false} NameV2(stem: string, k: nat, i: int)
    requires CleanStem(stem)
    ensures V2At(Name(stem, k), i) <==> k % 2 == 1 && i == |Name(stem, k)| - 3
  {
    var s := Name(stem, k);
    assert k > 0 ==> Tail(k)[0] == '-';
    if V2At(s, i) {
      if i >= |stem| {
        V2OnlyAtEnd(k, i - |stem|);
      } else if i + 2 < |stem| {
        assert V2At(stem, i);
      }
    }
    if k % 2 == 1 {
      OddTail(k);
    } else {
      EvenTail(k);
    }
  }

  lemma {:induction false} ReplaceAtEnd(u: string)
    requires forall i :: 0 <= i < |u| ==> !V2At(u + "-v2", i)
    ensures Replace(u + "-v2", "-v2", "-next") == u + "-next"
  {
    var s := u + "-v2";
    if u == "" {
      assert s == "-v2" && s[3..] == "";
      assert "-next" + "" == "-next";
    } else {
      assert !V2At(s, 0);
      assert s[1..] == u[1..] + "-v2";
      assert !StartsWith(s, "-v2");
      forall i | 0 <= i < |u[1..]| ensures !V2At(u[1..] + "-v2", i) {
        assert !V2At(s, i + 1);
      }
      ReplaceAtEnd(u[1..]);
      assert [s[0]] + (u[1..] + "-next") == u + "-next";
    }
  }

  /** Renaming moves a name one step along its orbit. */
  lemma {:induction false} RenamedName(stem: string, k: nat)
    requires CleanStem(stem)
    ensures Renamed(Name(stem, k)) == Name(stem, k + 1)
  {
    hide Replace;
    NameEndsWithV2(stem, k);
    if k % 2 == 1 {
      OddTail(k);
      Assoc(stem, Tail(k - 1), "-v2");
      Assoc(stem, Tail(k - 1), "-next");
      hide Tail;
      RenamedOdd(stem, k, stem + Tail(k - 1));
    } else {
      EvenTail(k);
      Assoc(stem, Tail(k), "-v2");
    }
  }

  /** The first renamings, spelled out. */
  lemma {:induction false} FirstRenamings(stem: string)
    requires CleanStem(stem)
    ensures Renamed(stem) == stem + "-v2"
    ensures Renamed(stem + "-v2") == stem + "-next"
    ensures Renamed(stem + "-next") == stem + "-next-v2"
    ensures Renamed(stem + "-next-v2") == stem + "-next-next"
  {
    hide Renamed, CleanStem;
    RenamedName(stem, 0);
    RenamedName(stem, 1);
    RenamedName(stem, 2);
    RenamedName(stem, 3);
    FirstTails();
    assert stem + "" == stem;
  }

  lemma FirstTails()
    ensures Tail(0) == "" && Tail(1) == "-v2" && Tail(2) == "-next" && Tail(3) == "-next-v2" && Tail(4) == "-next-next"
  {
    assert "-next" + "" == "-next";
  }

  lemma {:induction false} NameEndsWithV2(stem: string, k: nat)
    requires CleanStem(stem)
    ensures EndsWith(Name(stem, k), "-v2") <==> k % 2 == 1
  {
    hide Tail;
    EndsWithV2(Name(stem, k));
    NameV2(stem, k, |Name(stem, k)| - 3);
    TailLength(k);
  }

  lemma {:induction false} RenamedOdd(stem: string, k: nat, u: string)
    requires CleanStem(stem) && Name(stem, k) == u + "-v2"
    ensures Replace(Name(stem, k), "-v2", "-next") == u + "-next"
  {
    hide Replace, Name;
    forall i | 0 <= i < |u| ensures !V2At(u + "-v2", i) {
      NameV2(stem, k, i);
    }
    ReplaceAtEnd(u);
  }

  /** The stem of a name can be read off it, so orbits of different stems never meet. */
  lemma {:induction false} StemOfName(stem: string, k: nat)
    requires CleanStem(stem)
    ensures StemOf(Name(stem, k)) == stem
  {
    hide StripNext, Tail, CleanStem;
    NameEndsWithV2(stem, k);
    if k % 2 == 1 {
      OddTail(k);
      DropV2(stem, Tail(k - 1));
      StripName(stem, k - 1);
    } else {
      StripName(stem, k);
    }
  }

  lemma {:induction false} DropV2(stem: string, tail: string)
    ensures var s := stem + (tail + "-v2");
      s[..|s| - 3] == stem + tail
  {
  }

  lemma {:induction false} StripName(stem: string, k: nat)
    requires CleanStem(stem) && k % 2 == 0
    ensures StripNext(stem + Tail(k)) == stem
  {
    hide StripNext;
    if k > 0 {
      EvenTail(k);
      Assoc(stem, Tail(k - 2), "-next");
      hide Tail, CleanStem;
      StripOne(stem + Tail(k - 2));
      StripName(stem, k - 2);
    } else {
      assert stem + Tail(0) == stem;
      StripStem(stem);
    }
  }

  lemma {:induction false} StripOne(s: string)
    ensures StripNext(s + "-next") == StripNext(s)
  {
    assert (s + "-next")[..|s|] == s && (s + "-next")[|s|..] == "-next";
  }

  lemma {:induction false} StripStem(stem: string)
    requires CleanStem(stem)
    ensures StripNext(stem) == stem
  {
  }

  /** A name determines its stem and its place in the orbit. */
  lemma {:induction false} NameInjective(stem1: string, k1: nat, stem2: string, k2: nat)
    requires CleanStem(stem1) && CleanStem(stem2)
    ensures Name(stem1, k1) == Name(stem2, k2) <==> stem1 == stem2 && k1 == k2
  {
    StemOfName(stem1, k1);
    StemOfName(stem2, k2);
    LongerTail(k1, k2);
    LongerTail(k2, k1);
  }

  /** name belongs to the orbit of a clean stem. */
  ghost predicate Named(name: string) {
    CleanStem(StemOf(name)) && exists k: nat :: name == Name(StemOf(name), k)
  }

  lemma {:induction false} NameIsNamed(stem: string, k: nat)
    requires CleanStem(stem)
    ensures Named(Name(stem, k)) && StemOf(Name(stem, k)) == stem
  {
    StemOfName(stem, k);
  }

  /** Renaming stays in the family and lengthens the name. */
  lemma {:induction false} RenamedStaysInFamily(name: string)
    requires Named(name)
    ensures Named(Renamed(name)) && StemOf(Renamed(name)) == StemOf(name) && |Renamed(name)| > |name|
  {
    var stem := StemOf(name);
    var k: nat :| name == Name(stem, k);
    RenamedName(stem, k);
    NameIsNamed(stem, k + 1);
    LongerTail(k, k + 1);
  }

  /** A name's place in its orbit, and its successor. */
  lemma {:induction false} PlaceOf(name: string) returns (k: nat)
    requires Named(name)
    ensures name == Name(StemOf(name), k) && Renamed(name) == Name(StemOf(name), k + 1)
    ensures CleanStem(StemOf(name))
  {
    k :| name == Name(StemOf(name), k);
    RenamedName(StemOf(name), k);
  }
}
