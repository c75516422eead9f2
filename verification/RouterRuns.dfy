/** Runs of the s8 replay that move one page again and again, until its first name no longer resolves. */
module RouterRuns {
  import opened Names
  import opened Options
  import opened Routing
  import opened RouterTable
  import opened RouterReplay
  import RouterSeeds

  /** The page of the family serves endpoint e under its k-th name, which it has borne since turn `since` or longer. */
  predicate PageAt(s: State, stem: string, k: nat, e: string, since: int) {
    && Terminal(Name(stem, k), e) in s.routes
    && Name(stem, k) in s.born && s.born[Name(stem, k)] <= since
  }

  /** An add can be drawn while segments are left, and leaves the page alone. */
  lemma {:induction false} AddStep(s: State, turn: nat, p0: int, stem: string, k: nat, e: string, since: int) returns (op: Op)
    requires Inv(s, turn, p0) && s.parts != [] && PageAt(s, stem, k, e, since)
    ensures Choosable(s, turn, op) && Inv(Step(s, turn, op), turn + 1, p0)
    ensures PageAt(Step(s, turn, op), stem, k, e, since)
    ensures |Step(s, turn, op).parts| == |s.parts| - 1
  {
    hide FamiliesOk, BirthsOk, SizesOk, Terminals, EndpointFor, Name;
    op := Op(Add, "/" + s.parts[|s.parts| - 1]);
    assert Offered(s, turn)[0] == Add;
    assert op.kind == Branch(s, Add) && op.path in Candidates(s, turn, op.kind);
    AddKeepsFamilies(s, turn);
    StepKeepsInv(s, turn, p0, op);
  }

  /** A page of a certain age can be moved, and then bears its next name. */
  lemma {:induction false} MoveStep(s: State, turn: nat, p0: int, stem: string, k: nat, e: string) returns (op: Op)
    requires Inv(s, turn, p0) && turn >= 7 && CleanStem(stem) && Name(stem, k) != "/"
    requires PageAt(s, stem, k, e, turn - 3)
    ensures Choosable(s, turn, op) && Inv(Step(s, turn, op), turn + 1, p0)
    ensures PageAt(Step(s, turn, op), stem, k + 1, e, turn)
    ensures Step(s, turn, op).parts == s.parts
  {
    hide FamiliesOk, BirthsOk, SizesOk, EndpointFor, Name, Renamed, CleanStem;
    var path := Name(stem, k);
    op := Op(Move, path);
    MoveIsOffered(s, turn);
    assert path in Pages(s.routes);
    assert op.kind == Branch(s, Move) && op.path in Candidates(s, turn, op.kind);
    StepKeepsInv(s, turn, p0, op);
    MovedPage(s, turn, stem, k, e);
  }

  lemma {:induction false} MoveIsOffered(s: State, turn: int)
    requires turn >= 7
    ensures Move in Offered(s, turn)
  {
    hide Terminals;
    var offered := Offered(s, turn);
    assert offered[1] == Move || offered[3] == Move;
  }

  lemma {:induction false} MovedPage(s: State, turn: nat, stem: string, k: nat, e: string)
    requires FamiliesOk(s) && CleanStem(stem) && Terminal(Name(stem, k), e) in s.routes
    requires Name(stem, k) in Pages(s.routes)
    ensures PageAt(MovePage(s, turn, Name(stem, k)), stem, k + 1, e, turn)
  {
    hide TableOk, PartsFresh, Name, Renamed, CleanStem;
    var path := Name(stem, k);
    RenamedName(stem, k);
    MovedElements(s, path);
    var page := s.routes[IndexOf(s.routes, path)];
    AtDistinct(s.routes, page);
    AtDistinct(s.routes, Terminal(path, e));
    assert Terminal(Renamed(path), e) in Elements(MovePage(s, turn, path).routes);
  }

  /** n adds in a row. */
  lemma {:induction false} Adds(s: State, turn: nat, p0: int, stem: string, k: nat, e: string, since: int, n: nat)
    returns (ops: seq<Op>)
    requires Inv(s, turn, p0) && |s.parts| >= n && PageAt(s, stem, k, e, since)
    ensures |ops| == n && Run(s, turn, ops)
    ensures var t := Exec(s, turn, ops);
      Inv(t, turn + n, p0) && PageAt(t, stem, k, e, since) && |t.parts| == |s.parts| - n
    decreases n
  {
    hide Inv, PageAt, Choosable, Step;
    ops := [];
    if n > 0 {
      var op := AddStep(s, turn, p0, stem, k, e, since);
      var rest := Adds(Step(s, turn, op), turn + 1, p0, stem, k, e, since, n - 1);
      ops := [op] + rest;
      assert ops[1..] == rest;
    }
  }

  /** n rounds of a move and two adds, so that the page is old enough again. */
  lemma {:induction false} Moves(s: State, turn: nat, p0: int, stem: string, k: nat, e: string, n: nat)
    returns (ops: seq<Op>)
    requires Inv(s, turn, p0) && turn >= 7 && CleanStem(stem) && |stem| > 1
    requires |s.parts| >= 2 * n && PageAt(s, stem, k, e, turn - 3)
    ensures |ops| == 3 * n && Run(s, turn, ops)
    ensures var t := Exec(s, turn, ops);
      Inv(t, turn + 3 * n, p0) && PageAt(t, stem, k + n, e, turn + 3 * n - 3)
    decreases n
  {
    hide Inv, PageAt, Choosable, Step, CleanStem;
    ops := [];
    if n > 0 {
      var op := MoveStep(s, turn, p0, stem, k, e);
      var moved := Step(s, turn, op);
      var adds := Adds(moved, turn + 1, p0, stem, k + 1, e, turn, 2);
      var next := Exec(moved, turn + 1, adds);
      var rest := Moves(next, turn + 3, p0, stem, k + 1, e, n - 1);
      RunConcat(moved, turn + 1, adds, rest);
      ops := [op] + (adds + rest);
      assert ops[1..] == adds + rest;
    }
  }

  /** Running one sequence of choices after another. */
  lemma {:induction false} RunConcat(s: State, turn: nat, xs: seq<Op>, ys: seq<Op>)
    requires Run(s, turn, xs) && Run(Exec(s, turn, xs), turn + |xs|, ys)
    ensures Run(s, turn, xs + ys)
    ensures Exec(s, turn, xs + ys) == Exec(Exec(s, turn, xs), turn + |xs|, ys)
    decreases |xs|
  {
    hide Choosable, Step;
    if xs == [] {
      assert xs + ys == ys;
    } else {
      RunConcat(Step(s, turn, xs[0]), turn + 1, xs[1..], ys);
      assert (xs + ys)[1..] == xs[1..] + ys;
    }
  }

  /** After six adds and six moves of the page, each followed by two adds, it has its sixth new name. */
  lemma {:induction false} SixMovesRun(s: State, p0: int, stem: string, e: string) returns (ops: seq<Op>)
    requires Inv(s, 1, p0) && |s.parts| >= 18 && CleanStem(stem) && |stem| > 1 && PageAt(s, stem, 0, e, 0)
    ensures |ops| == 24 && Run(s, 1, ops)
    ensures Inv(Exec(s, 1, ops), 25, p0) && PageAt(Exec(s, 1, ops), stem, 6, e, 22)
  {
    hide Inv, PageAt, CleanStem, Run, Exec;
    var adds := Adds(s, 1, p0, stem, 0, e, 0, 6);
    var six := Exec(s, 1, adds);
    PageAtLater(six, stem, 0, e, 0, 4);
    var moves := Moves(six, 7, p0, stem, 0, e, 6);
    RunConcat(s, 1, adds, moves);
    ops := adds + moves;
  }

  /**
   * The hop limit bites within the fifty turns, whatever the shuffle: on this run of the generator "/login" no longer
   * resolves although its page is still there.
   */
  lemma {:induction false} FirstNameStopsResolving(parts: seq<string>) returns (ops: seq<Op>)
    requires multiset(parts) == multiset(RouterSeeds.S8_PARTS)
    ensures |ops| == 24 && Run(Start(parts), 1, ops)
    ensures var t := Exec(Start(parts), 1, ops);
      Terminal(Name("/login", 6), "auth_login") in t.routes && Resolve(t.routes, "/login", 0) == None
  {
    hide RouterSeeds.S8_PARTS, Inv, PageAt, CleanStem, Start, Run, Name, Exec, Resolve;
    EnoughParts(parts);
    RouterSeeds.AnyShuffleStarts(parts);
    LoginPage(parts);
    LoginIsClean();
    ops := SixMovesRun(Start(parts), |parts|, "/login", "auth_login");
    LoginIsLost(Exec(Start(parts), 1, ops), 25, |parts|);
  }

  lemma {:induction false} EnoughParts(parts: seq<string>)
    requires multiset(parts) == multiset(RouterSeeds.S8_PARTS)
    ensures |Start(parts).parts| >= 18
  {
    assert |parts| == |multiset(parts)| == |multiset(RouterSeeds.S8_PARTS)| == |RouterSeeds.S8_PARTS|;
  }

  lemma {:induction false} LoginPage(parts: seq<string>)
    ensures PageAt(Start(parts), "/login", 0, "auth_login", 0)
  {
    assert Start(parts).routes[1] in Start(parts).routes;
    assert Name("/login", 0) == "/login";
  }

  lemma LoginIsClean()
    ensures CleanStem("/login")
  {
    hide CleanStem;
    RouterSeeds.PathIsClean("login");
    assert "/" + "login" == "/login";
  }

  lemma {:induction false} PageAtLater(s: State, stem: string, k: nat, e: string, since: int, later: int)
    requires PageAt(s, stem, k, e, since) && since <= later
    ensures PageAt(s, stem, k, e, later)
  {
    hide Name;
  }

  lemma {:induction false} LoginIsLost(s: State, turn: nat, p0: int)
    requires Inv(s, turn, p0) && CleanStem("/login") && PageAt(s, "/login", 6, "auth_login", 22)
    ensures Terminal(Name("/login", 6), "auth_login") in s.routes && Resolve(s.routes, "/login", 0) == None
  {
    hide CleanStem, BirthsOk, SizesOk, PartsFresh, Shaped, PagesLast, Linked;
    assert Name("/login", 0) == "/login";
    hide Name;
    TraceToPage(s.routes, "/login", 6, 0, "auth_login", 5);
    ResolveIsTrace(s.routes, "/login", 0);
  }
}
