/** The actual path segments of the s8 generator satisfy what its replay needs, in any shuffle. */
module RouterSeeds {
  import opened Names
  import opened Routing
  import opened RouterTable
  import opened RouterReplay
  import FlagSeeds

  const S8_PARTS: seq<string> :=
    ["reports", "teams", "billing", "settings", "export", "profile", "search", "admin", "invoices",
     "webhooks", "usage", "tokens", "alerts", "audit", "labels", "archive", "keys", "plans",
     "digest", "status", "help", "jobs", "runs", "files", "notes"]

  const CODES: seq<int> :=
    [114101112, 116101097, 98105108, 115101116, 101120112, 112114111, 115101097, 97100109,
     105110118, 119101098, 117115097, 116111107, 97108101, 97117100, 108097098, 97114099,
     107101121, 112108097, 100105103, 115116097, 104101108, 106111098, 114117110, 102105108,
     110111116]

  /** A segment without hyphens, told apart from the others by its code. */
  predicate Segment(s: string, code: int) {
    FlagSeeds.Code(s) == code && forall i :: 0 <= i < |s| ==> s[i] != '-'
  }

  lemma Segments0()
    ensures Segment("reports", 114101112)
    ensures Segment("teams", 116101097)
    ensures Segment("billing", 98105108)
    ensures Segment("settings", 115101116)
    ensures Segment("export", 101120112)
  {
  }

  lemma Segments1()
    ensures Segment("profile", 112114111)
    ensures Segment("search", 115101097)
    ensures Segment("admin", 97100109)
    ensures Segment("invoices", 105110118)
    ensures Segment("webhooks", 119101098)
  {
  }

  lemma Segments2()
    ensures Segment("usage", 117115097)
    ensures Segment("tokens", 116111107)
    ensures Segment("alerts", 97108101)
    ensures Segment("audit", 97117100)
    ensures Segment("labels", 108097098)
  {
  }

  lemma Segments3()
    ensures Segment("archive", 97114099)
    ensures Segment("keys", 107101121)
    ensures Segment("plans", 112108097)
    ensures Segment("digest", 100105103)
    ensures Segment("status", 115116097)
  {
  }

  lemma Segments4()
    ensures Segment("help", 104101108)
    ensures Segment("jobs", 106111098)
    ensures Segment("runs", 114117110)
    ensures Segment("files", 102105108)
    ensures Segment("notes", 110111116)
  {
  }

  lemma {:induction false} Segments(i: nat)
    requires i < 25
    ensures Segment(S8_PARTS[i], CODES[i])
  {
    hide Segment;
    Segments0();
    Segments1();
    Segments2();
    Segments3();
    Segments4();
  }

  lemma CodesDistinct()
    ensures forall i, j :: 0 <= i < j < |CODES| ==> CODES[i] != CODES[j]
    ensures forall i :: 0 <= i < |CODES| ==> CODES[i] !in {FlagSeeds.Code("login"), FlagSeeds.Code("docs"), FlagSeeds.Code("")}
  {
    assert FlagSeeds.Code("login") == 108111103 && FlagSeeds.Code("docs") == 100111099 && FlagSeeds.Code("") == 0;
  }

  ghost predicate SegmentTable(all: seq<string>, codes: seq<int>) {
    && |all| == |codes|
    && (forall i :: 0 <= i < |all| ==> Segment(all[i], codes[i]))
    && (forall i, j :: 0 <= i < j < |codes| ==> codes[i] != codes[j])
    && (forall i :: 0 <= i < |codes| ==> codes[i] !in {FlagSeeds.Code("login"), FlagSeeds.Code("docs"), FlagSeeds.Code("")})
  }

  lemma SegmentTableHolds()
    ensures SegmentTable(S8_PARTS, CODES)
  {
    hide Segment;
    CodesDistinct();
    forall i | 0 <= i < 25 ensures Segment(S8_PARTS[i], CODES[i]) {
      Segments(i);
    }
  }

  lemma {:induction false} PathIsClean(segment: string)
    requires forall i :: 0 <= i < |segment| ==> segment[i] != '-'
    ensures CleanStem("/" + segment) && StemOf("/" + segment) == "/" + segment && Named("/" + segment)
  {
    var p := "/" + segment;
    assert forall i :: 0 <= i < |p| ==> p[i] != '-';
    if |p| >= 5 {
      assert p[|p| - 5..][0] == p[|p| - 5];
    }
    NameIsNamed(p, 0);
    assert Name(p, 0) == p;
  }

  /** A table of unrenamed pages is in order. */
  lemma {:induction false} PlainTable(table: set<Route>)
    requires forall r :: r in table ==> r.Terminal? && CleanStem(r.path)
    requires forall r, q :: r in table && q in table && r.path == q.path ==> r == q
    ensures TableOk(table)
  {
    forall r | r in table ensures Named(r.path) && StemOf(r.path) == r.path {
      NameIsNamed(r.path, 0);
      assert Name(r.path, 0) == r.path;
    }
    PlainTableLinked(table);
    hide StemOf, Named, Renamed, Name, CleanStem, Linked;
  }

  lemma {:induction false} PlainTableLinked(table: set<Route>)
    requires forall r :: r in table ==> r.Terminal? && CleanStem(r.path)
    ensures Linked(table)
  {
    if !Linked(table) {
      var stem: string, k: nat, j: nat, e: string :| CleanStem(stem) && j < k && Terminal(Name(stem, k), e) in table
        && Redirect(Name(stem, j), Name(stem, j + 1)) !in table;
      CleanNameIsFirst(stem, k);
      assert false;
    }
  }

  lemma {:induction false} CleanNameIsFirst(stem: string, k: nat)
    requires CleanStem(stem) && CleanStem(Name(stem, k))
    ensures k == 0
  {
    NameInjective(stem, k, Name(stem, k), 0);
    assert Name(Name(stem, k), 0) == Name(stem, k);
  }

  lemma {:induction false} Origin(words: seq<string>, all: seq<string>, codes: seq<int>, i: nat) returns (k: nat)
    requires multiset(words) == multiset(all) && SegmentTable(all, codes) && i < |words|
    ensures k < |all| && words[i] == all[k] && Segment(words[i], codes[k])
  {
    hide Segment;
    assert words[i] in multiset(all);
    k :| 0 <= k < |all| && all[k] == words[i];
  }

  lemma {:induction false} NoRepeats(words: seq<string>, all: seq<string>, codes: seq<int>, i: nat, j: nat)
    requires multiset(words) == multiset(all) && SegmentTable(all, codes) && i < j < |words|
    ensures words[i] != words[j]
  {
    forall a, b | 0 <= a < b < |all| ensures all[a] != all[b] {
      assert Segment(all[a], codes[a]) && Segment(all[b], codes[b]);
    }
    FlagSeeds.ShuffleHasNoRepeats(words, all, i, j);
  }

  /** A shuffled segment gives a clean path that differs from the paths of the seed routes. */
  lemma {:induction false} WordIsFresh(words: seq<string>, all: seq<string>, codes: seq<int>, i: nat)
    requires multiset(words) == multiset(all) && SegmentTable(all, codes) && i < |words|
    ensures CleanStem("/" + words[i]) && "/" + words[i] !in {"/" + "login", "/" + "docs", "/" + ""}
  {
    var k := Origin(words, all, codes, i);
    PathIsClean(words[i]);
    hide CleanStem, StemOf, Named;
    assert ("/" + words[i])[1..] == words[i];
    assert ("/" + "login")[1..] == "login" && ("/" + "docs")[1..] == "docs" && ("/" + "")[1..] == "";
  }

  lemma {:induction false} ShuffleFresh(words: seq<string>, all: seq<string>, codes: seq<int>, table: set<Route>)
    requires multiset(words) == multiset(all) && SegmentTable(all, codes)
    requires forall r :: r in table ==> StemOf(r.path) in {"/" + "login", "/" + "docs", "/" + ""}
    ensures PartsFresh(words, table)
  {
    hide StemOf, CleanStem, SegmentTable;
    forall i, j | 0 <= i < j < |words| ensures words[i] != words[j] {
      NoRepeats(words, all, codes, i, j);
    }
    forall i | 0 <= i < |words|
      ensures CleanStem("/" + words[i]) && "/" + words[i] !in {"/" + "login", "/" + "docs", "/" + ""}
    {
      WordIsFresh(words, all, codes, i);
    }
  }

  /** The replay starts in its invariant whatever the shuffle yields. */
  lemma {:induction false} AnyShuffleStarts(parts: seq<string>)
    requires multiset(parts) == multiset(S8_PARTS)
    ensures Inv(Start(parts), 1, |parts|)
  {
    hide S8_PARTS, CODES, SegmentTable, FamiliesOk, BirthsOk, Pages;
    PartsCount(parts);
    SegmentTableHolds();
    StartFamilies(parts);
    StartSizes(parts);
  }

  lemma {:induction false} PartsCount(parts: seq<string>)
    requires multiset(parts) == multiset(S8_PARTS)
    ensures |parts| == 25
  {
    assert |parts| == |multiset(parts)| == |multiset(S8_PARTS)| == |S8_PARTS|;
  }

  lemma {:induction false} StartFamilies(parts: seq<string>)
    requires multiset(parts) == multiset(S8_PARTS) && SegmentTable(S8_PARTS, CODES)
    ensures FamiliesOk(Start(parts))
  {
    hide SegmentTable, PartsFresh, TableOk, StemOf;
    var table := Elements(Start(parts).routes);
    StartElements(parts);
    SeedTableOk();
    ShuffleFresh(parts, S8_PARTS, CODES, SEED_ROUTES);
  }

  const SEED_ROUTES: set<Route> :=
    {Terminal("/" + "", "home"), Terminal("/" + "login", "auth_login"), Terminal("/" + "docs", "docs_index")}

  lemma {:induction false} StartElements(parts: seq<string>)
    ensures Elements(Start(parts).routes) == SEED_ROUTES && Distinct(Start(parts).routes)
  {
    var routes := Start(parts).routes;
    assert routes[0] in routes && routes[1] in routes && routes[2] in routes;
    assert routes[0].path == "/" + "" && routes[1].path == "/" + "login" && routes[2].path == "/" + "docs";
    assert |routes[0].path| == 1 && |routes[1].path| == 6 && |routes[2].path| == 5;
  }

  lemma {:induction false} ThreePages(p: string, q: string, r: string, e: string, f: string, g: string)
    requires CleanStem(p) && CleanStem(q) && CleanStem(r) && p != q && q != r && p != r
    requires StemOf(p) == p && StemOf(q) == q && StemOf(r) == r
    ensures TableOk({Terminal(p, e), Terminal(q, f), Terminal(r, g)})
    ensures forall t :: t in {Terminal(p, e), Terminal(q, f), Terminal(r, g)} ==> StemOf(t.path) in {p, q, r}
  {
    hide StemOf, CleanStem, TableOk, Named;
    PlainTable({Terminal(p, e), Terminal(q, f), Terminal(r, g)});
  }

  lemma SeedTableOk()
    ensures TableOk(SEED_ROUTES)
    ensures forall r :: r in SEED_ROUTES ==> StemOf(r.path) in {"/" + "login", "/" + "docs", "/" + ""}
  {
    hide StemOf, CleanStem, TableOk, Named;
    PathIsClean("");
    PathIsClean("login");
    PathIsClean("docs");
    assert |"/" + ""| == 1 && |"/" + "login"| == 6 && |"/" + "docs"| == 5;
    ThreePages("/" + "", "/" + "login", "/" + "docs", "home", "auth_login", "docs_index");
  }

  lemma {:induction false} StartSizes(parts: seq<string>)
    ensures BirthsOk(Start(parts), 1) && |Pages(Start(parts).routes)| == 3
  {
    var routes := Start(parts).routes;
    assert routes[0] in routes && routes[1] in routes && routes[2] in routes;
    var three := {"/", "/login", "/docs"};
    assert |"/"| == 1 && |"/login"| == 6 && |"/docs"| == 5;
    assert |three| == 3;
    assert Pages(routes) == three && Paths(routes) == three;
  }

  /** Hence the whole generator runs to its 50th turn on the real segments without an empty choice. */
  method GenerateS8(parts: seq<string>) returns (routes: seq<Route>, ghost ops: seq<Op>)
    requires multiset(parts) == multiset(S8_PARTS)
    ensures |ops| == 50 && Run(Start(parts), 1, ops)
    ensures routes == Exec(Start(parts), 1, ops).routes
    ensures Distinct(routes)
  {
    AnyShuffleStarts(parts);
    hide Inv, Start, Run;
    routes, ops := GenS8(parts);
  }
}
