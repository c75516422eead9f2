/** The actual seed words of the s7 generator satisfy what its replay needs, in any shuffle. */
module FlagSeeds {
  import opened Names
  import opened FlagReplay

  const S7_WORDS: seq<string> :=
    ["uploads", "billing", "avatars", "exports", "digest", "mobile-nav", "checkout-v3", "retries",
     "audit-trail", "quotas", "webhooks", "dashboards", "invites", "backups", "profiles",
     "sessions", "rate-limit", "previews", "themes", "search-v2", "imports", "alerts", "sandbox",
     "receipts", "labels", "archives", "metrics", "sso", "comments"]

  /** A number that tells the stems apart: their first three letters. */
  function Code(s: string): int {
    if |s| < 3 then 0 else s[0] as int * 1000000 + s[1] as int * 1000 + s[2] as int
  }

  const CODES: seq<int> :=
    [117112108, 98105108, 97118097, 101120112, 100105103, 109111098, 99104101, 114101116, 97117100, 113117111, 119101098,
     100097115, 105110118, 98097099, 112114111, 115101115, 114097116, 112114101, 116104101, 115101097, 105109112,
     97108101, 115097110, 114101099, 108097098, 97114099, 109101116, 115115111, 99111109]

  /** word belongs to a family of its own whose stem has this code. */
  ghost predicate Seed(word: string, code: int) {
    Named(word) && Code(StemOf(word)) == code
  }

  /** No "-v2" in the word and no "-next" at its end. */
  predicate Plain(word: string) {
    && (forall i :: 0 <= i < |word| ==> !V2At(word, i))
    && (|word| >= 5 ==> word[|word| - 5] != '-' || word[|word| - 1] != 't')
  }

  lemma {:induction false} PlainSeed(word: string)
    requires Plain(word)
    ensures Seed(word, Code(word))
  {
    if |word| >= 5 {
      var e := word[|word| - 5..];
      assert e[0] == word[|word| - 5] && e[4] == word[|word| - 1];
    }
    NameIsNamed(word, 0);
    assert Name(word, 0) == word;
  }

  lemma Seeds0()
    ensures Seed("uploads", 117112108)
    ensures Seed("billing", 98105108)
    ensures Seed("avatars", 97118097)
    ensures Seed("exports", 101120112)
  {
    hide Seed;
    PlainSeed("uploads");
    PlainSeed("billing");
    PlainSeed("avatars");
    PlainSeed("exports");
  }

  lemma Seeds1()
    ensures Seed("digest", 100105103)
    ensures Seed("mobile-nav", 109111098)
    ensures Seed("checkout-v3", 99104101)
    ensures Seed("retries", 114101116)
  {
    hide Seed;
    PlainSeed("digest");
    PlainSeed("mobile-nav");
    PlainSeed("checkout-v3");
    PlainSeed("retries");
  }

  lemma Seeds2()
    ensures Seed("audit-trail", 97117100)
    ensures Seed("quotas", 113117111)
    ensures Seed("webhooks", 119101098)
    ensures Seed("dashboards", 100097115)
  {
    hide Seed;
    PlainSeed("audit-trail");
    PlainSeed("quotas");
    PlainSeed("webhooks");
    PlainSeed("dashboards");
  }

  lemma Seeds3()
    ensures Seed("invites", 105110118)
    ensures Seed("backups", 98097099)
    ensures Seed("profiles", 112114111)
    ensures Seed("sessions", 115101115)
  {
    hide Seed;
    PlainSeed("invites");
    PlainSeed("backups");
    PlainSeed("profiles");
    PlainSeed("sessions");
  }

  lemma Seeds4()
    ensures Seed("rate-limit", 114097116)
    ensures Seed("previews", 112114101)
    ensures Seed("themes", 116104101)
    ensures Seed("imports", 105109112)
  {
    hide Seed;
    PlainSeed("rate-limit");
    PlainSeed("previews");
    PlainSeed("themes");
    PlainSeed("imports");
  }

  lemma Seeds5()
    ensures Seed("alerts", 97108101)
    ensures Seed("sandbox", 115097110)
    ensures Seed("receipts", 114101099)
    ensures Seed("labels", 108097098)
  {
    hide Seed;
    PlainSeed("alerts");
    PlainSeed("sandbox");
    PlainSeed("receipts");
    PlainSeed("labels");
  }

  lemma Seeds6()
    ensures Seed("archives", 97114099)
    ensures Seed("metrics", 109101116)
    ensures Seed("sso", 115115111)
    ensures Seed("comments", 99111109)
  {
    hide Seed;
    PlainSeed("archives");
    PlainSeed("metrics");
    PlainSeed("sso");
    PlainSeed("comments");
  }

  lemma RenamedSeed()
    ensures Seed("search-v2", 115101097)
  {
    assert CleanStem("search");
    NameIsNamed("search", 1);
    assert Name("search", 1) == "search-v2";
  }

  lemma SeedFlags()
    ensures Seed("dark-mode", 100097114)
    ensures Seed("new-checkout", 110101119)
    ensures Seed("beta-search", 98101116)
  {
    hide Seed;
    PlainSeed("dark-mode");
    PlainSeed("new-checkout");
    PlainSeed("beta-search");
  }

  lemma {:induction false} SeedWords(i: nat)
    requires i < 29
    ensures Seed(S7_WORDS[i], CODES[i])
  {
    hide Seed;
    RenamedSeed();
    Seeds0();
    Seeds1();
    Seeds2();
    Seeds3();
    Seeds4();
    Seeds5();
    Seeds6();
  }

  lemma CodesDistinct()
    ensures forall i, j :: 0 <= i < j < |CODES| ==> CODES[i] != CODES[j]
    ensures forall i :: 0 <= i < |CODES| ==> CODES[i] !in {100097114, 110101119, 98101116}
  {
  }

  /** The words belong to families of their own: their codes differ, also from the seed flags' codes. */
  ghost predicate SeedTable(all: seq<string>, codes: seq<int>) {
    && |all| == |codes|
    && (forall i :: 0 <= i < |all| ==> Seed(all[i], codes[i]))
    && (forall i, j :: 0 <= i < j < |codes| ==> codes[i] != codes[j])
    && (forall i, n :: 0 <= i < |codes| && n in SEED_FLAGS ==> codes[i] != Code(StemOf(n)))
  }

  lemma SeedTableHolds()
    ensures SeedTable(S7_WORDS, CODES)
  {
    CodesDistinct();
    SeedFlags();
    forall i | 0 <= i < 29 ensures Seed(S7_WORDS[i], CODES[i]) {
      SeedWords(i);
    }
    forall i, n | 0 <= i < |CODES| && n in SEED_FLAGS ensures CODES[i] != Code(StemOf(n)) {
      assert n == "dark-mode" || n == "new-checkout" || n == "beta-search";
    }
  }

  /** A rearrangement of a list without repeats has no repeats. */
  lemma {:induction false} ShuffleHasNoRepeats(xs: seq<string>, ys: seq<string>, i: nat, j: nat)
    requires multiset(xs) == multiset(ys) && i < j < |xs|
    requires forall k, l :: 0 <= k < l < |ys| ==> ys[k] != ys[l]
    ensures xs[i] != xs[j]
  {
    var v, rest := xs[i], xs[i + 1..];
    assert v in multiset(ys);
    var k :| 0 <= k < |ys| && ys[k] == v;
    assert ys == ys[..k] + [v] + ys[k + 1..];
    assert v !in ys[..k] && v !in ys[k + 1..];
    assert xs == xs[..i] + [v] + rest;
    assert rest[j - i - 1] == xs[j];
  }

  /** The word at place i of a shuffle has a code of its own. */
  lemma {:induction false} Origin(words: seq<string>, all: seq<string>, codes: seq<int>, i: nat) returns (k: nat)
    requires multiset(words) == multiset(all) && SeedTable(all, codes) && i < |words|
    ensures k < |all| && words[i] == all[k] && Seed(words[i], codes[k])
  {
    assert words[i] in multiset(all);
    k :| 0 <= k < |all| && all[k] == words[i];
  }

  lemma {:induction false} ShuffleStemsApart(words: seq<string>, all: seq<string>, codes: seq<int>, i: nat, j: nat)
    requires multiset(words) == multiset(all) && SeedTable(all, codes) && i < j < |words|
    ensures StemOf(words[i]) != StemOf(words[j])
  {
    var k := Origin(words, all, codes, i);
    var l := Origin(words, all, codes, j);
    forall a, b | 0 <= a < b < |all| ensures all[a] != all[b] {
      assert Seed(all[a], codes[a]) && Seed(all[b], codes[b]);
    }
    ShuffleHasNoRepeats(words, all, i, j);
    hide StemOf, Named;
  }

  lemma {:induction false} ShuffleApart(words: seq<string>, all: seq<string>, codes: seq<int>)
    requires multiset(words) == multiset(all) && SeedTable(all, codes)
    requires Apart(SEED_FLAGS.Keys, {}, [])
    ensures Apart(SEED_FLAGS.Keys, {}, words)
  {
    hide StemOf, Named;
    forall i | 0 <= i < |words|
      ensures Named(words[i]) && forall n :: n in SEED_FLAGS ==> StemOf(words[i]) != StemOf(n)
    {
      var k := Origin(words, all, codes, i);
    }
    forall i, j | 0 <= i < j < |words| ensures StemOf(words[i]) != StemOf(words[j]) {
      ShuffleStemsApart(words, all, codes, i, j);
    }
  }

  lemma SeedFlagsApart()
    ensures Apart(SEED_FLAGS.Keys, {}, [])
  {
    SeedFlags();
    hide StemOf, Named;
    forall n | n in SEED_FLAGS.Keys + {} ensures n in {"dark-mode", "new-checkout", "beta-search"} {
    }
  }

  /** So the generator's replay starts in its invariant whatever the shuffle yields. */
  lemma {:induction false} AnyShuffleStarts(words: seq<string>)
    requires multiset(words) == multiset(S7_WORDS)
    ensures Inv(Start(words), 1, |words|)
  {
    hide S7_WORDS, CODES, Apart, SeedTable, Inv;
    WordsCount(words);
    SeedTableHolds();
    SeedFlagsApart();
    ShuffleApart(words, S7_WORDS, CODES);
    StartInv(words);
  }

  lemma {:induction false} WordsCount(words: seq<string>)
    requires multiset(words) == multiset(S7_WORDS)
    ensures |words| == 29
  {
    assert |words| == |multiset(words)| == |multiset(S7_WORDS)| == |S7_WORDS|;
  }

  /** Hence the whole generator runs to its 50th turn on the real words without an empty choice. */
  method GenerateS7(words: seq<string>) returns (flags: map<string, Flag>, retired: map<string, Flag>, ghost ops: seq<Op>)
    requires multiset(words) == multiset(S7_WORDS)
    ensures |ops| == 50 && Run(Start(words), 1, ops)
    ensures flags == Exec(Start(words), 1, ops).flags && retired == Exec(Start(words), 1, ops).retired
    ensures flags.Keys !! retired.Keys && |flags| >= 6
  {
    AnyShuffleStarts(words);
    hide Inv, Start, Run;
    flags, retired, ops := GenS7(words);
  }
}
