/**
 * What the route replay's table means, told from the list of operations alone: which pages there are, where each path
 * redirects to, and which handler serves a page (benchmarks/multiturn_coding/_gen_long50.py, `gen_s8`).
 */
module RouterHistory {
  import opened Births
  import opened Names
  import opened Options
  import opened Routing
  import opened RouterTable
  import opened RouterReplay
  import opened Text

  predicate Is(op: Op, kind: Kind, p: string) {
    op.kind == kind && op.path == p
  }

  predicate MovesTo(op: Op, p: string) {
    op.kind == Move && p == Renamed(op.path)
  }

  /** The path that a page had before the operation. */
  function Before(op: Op, p: string): string {
    if MovesTo(op, p) then op.path else p
  }

  /** The path is a page after the operations. */
  predicate Page(ops: seq<Op>, p: string) {
    if ops == [] then p in {"/", "/login", "/docs"}
    else
      var init, last := ops[..|ops| - 1], ops[|ops| - 1];
      if Is(last, Add, p) || MovesTo(last, p) then true
      else if Is(last, Move, p) || Is(last, Drop, p) then false
      else Page(init, p)
  }

  /** Where the path redirects to: it was moved there, and that page has not been dropped since. */
  function Target(ops: seq<Op>, p: string): Option<string> {
    if ops == [] then None
    else
      var init, last := ops[..|ops| - 1], ops[|ops| - 1];
      if Is(last, Move, p) then Some(Renamed(p))
      else
        var was := Target(init, p);
        if was.Some? && Is(last, Drop, was.value) then None else was
  }

  /** `segment.replace("-", "_")` */
  function Underscored(segment: string): string {
    seq(|segment|, i requires 0 <= i < |segment| => if segment[i] == '-' then '_' else segment[i])
  }

  /** The handler the page began with. */
  function Base(ops: seq<Op>, p: string): string {
    if ops == [] then (if p == "/" then "home" else if p == "/login" then "auth_login" else "docs_index")
    else
      var init, last := ops[..|ops| - 1], ops[|ops| - 1];
      if Is(last, Add, p) && p != "" then Underscored(p[1..]) + "_page" else Base(init, Before(last, p))
  }

  /** How often its handler has been renamed, under whatever path. */
  function Edits(ops: seq<Op>, p: string): nat {
    if ops == [] then 0
    else
      var init, last := ops[..|ops| - 1], ops[|ops| - 1];
      if Is(last, Add, p) then 0 else Edits(init, Before(last, p)) + if Is(last, RenameEndpoint, p) then 1 else 0
  }

  /** The suffix after k renamings: "_v2", then "_v3", then "_v3_v2", "_v3_v3", ... */
  function Version(k: nat): string {
    if k == 0 then "" else if k == 1 then "_v2" else "_v3" + Version(k - 2)
  }

  /** The handler that serves the page. */
  function Handler(ops: seq<Op>, p: string): string {
    Base(ops, p) + Version(Edits(ops, p))
  }

  /** The turn in which the path came into the table; 0 for the three it starts with. */
  function Born(ops: seq<Op>, p: string): nat {
    if ops == [] then 0
    else
      var init, last := ops[..|ops| - 1], ops[|ops| - 1];
      if Is(last, Add, p) || MovesTo(last, p) then |ops| else Born(init, p)
  }

  // ----- handlers -----

  lemma {:induction false} VersionEven(k: nat)
    requires k % 2 == 0
    ensures Version(k + 1) == Version(k) + "_v2" && Version(k + 2) == Version(k) + "_v3"
  {
    if k >= 2 {
      VersionEven(k - 2);
      Assoc("_v3", Version(k - 2), "_v2");
      Assoc("_v3", Version(k - 2), "_v3");
    }
  }

  /** Renaming a handler advances its version. */
  lemma {:induction false} NextVersion(base: string, k: nat)
    requires !EndsWith(base, "_v2")
    ensures NextEndpoint(base + Version(k)) == base + Version(k + 1)
  {
    hide *;
    if k % 2 == 1 {
      VersionEven(k - 1);
      Assoc(base, Version(k - 1), "_v2");
      Assoc(base, Version(k - 1), "_v3");
      NextOfTwo(base + Version(k - 1));
    } else {
      VersionEven(k);
      Assoc(base, Version(k), "_v2");
      EvenIsPlain(base, k);
      NextOfPlain(base + Version(k));
    }
  }

  lemma {:induction false} NextOfPlain(e: string)
    requires !EndsWith(e, "_v2")
    ensures NextEndpoint(e) == e + "_v2"
  {
  }

  lemma {:induction false} NextOfTwo(u: string)
    ensures NextEndpoint(u + "_v2") == u + "_v3"
  {
    assert (u + "_v2")[..|u|] == u && (u + "_v2")[|u|..] == "_v2";
  }

  lemma {:induction false} EvenIsPlain(base: string, k: nat)
    requires !EndsWith(base, "_v2") && k % 2 == 0
    ensures !EndsWith(base + Version(k), "_v2")
  {
    if k == 0 {
      assert base + "" == base;
    } else {
      VersionEven(k - 2);
      var u := base + Version(k - 2);
      Assoc(base, Version(k - 2), "_v3");
      hide Version;
      assert (u + "_v3")[|u|..] == "_v3";
    }
  }

  lemma {:induction false} ReplaceDashes(segment: string)
    ensures Replace(segment, "-", "_") == Underscored(segment)
  {
    if segment != "" {
      ReplaceDashes(segment[1..]);
      assert StartsWith(segment, "-") <==> segment[0] == '-';
      assert Underscored(segment) == [if segment[0] == '-' then '_' else segment[0]] + Underscored(segment[1..]);
    }
  }

  lemma {:induction false} BaseHasNoVersion(ops: seq<Op>, p: string)
    ensures !EndsWith(Base(ops, p), "_v2")
  {
    hide EndsWith, Renamed, Underscored;
    if ops == [] {
      SeedHandlersPlain();
    } else {
      var init, last := ops[..|ops| - 1], ops[|ops| - 1];
      BaseHasNoVersion(init, Before(last, p));
      if Is(last, Add, p) && p != "" {
        PagePlain(Underscored(p[1..]));
      }
    }
  }

  lemma {:induction false} PagePlain(segment: string)
    ensures !EndsWith(segment + "_page", "_v2")
  {
    var b := segment + "_page";
    assert b[|b| - 1] == 'e';
  }

  lemma SeedHandlersPlain()
    ensures !EndsWith("home", "_v2") && !EndsWith("auth_login", "_v2") && !EndsWith("docs_index", "_v2")
  {
    assert "home"[3] == 'e' && "auth_login"[9] == 'n' && "docs_index"[9] == 'x';
  }

  // ----- one operation more -----

  /** The entry that the operations amount to. */
  function Told(ops: seq<Op>, p: string): Entry {
    if Page(ops, p) then Present(Terminal(p, Handler(ops, p)))
    else if Target(ops, p).Some? then Present(Redirect(p, Target(ops, p).value))
    else Absent
  }

  /** An operation that is about another page only takes away redirects to a page it drops. */
  lemma {:induction false} Untouched(ops: seq<Op>, op: Op, p: string)
    requires p != op.path && !MovesTo(op, p)
    ensures var after, was := ops + [op], Target(ops, p);
      && (Page(after, p) <==> Page(ops, p)) && Born(after, p) == Born(ops, p) && Handler(after, p) == Handler(ops, p)
      && Target(after, p) == if was.Some? && Is(op, Drop, was.value) then None else was
  {
    assert (ops + [op])[..|ops|] == ops;
    hide Version, Underscored, Renamed;
  }

  /** What an operation does to the page it is about. */
  lemma {:induction false} Touched(ops: seq<Op>, op: Op)
    requires op.kind == Move ==> Renamed(op.path) != op.path
    ensures var after, p := ops + [op], op.path;
      && (Page(after, p) <==> op.kind == Add || (op.kind == RenameEndpoint && Page(ops, p)))
      && (op.kind == Add && p != "" ==> Handler(after, p) == Underscored(p[1..]) + "_page")
      && (op.kind == RenameEndpoint ==> Handler(after, p) == Base(ops, p) + Version(Edits(ops, p) + 1))
      && (op.kind == Move ==> Target(after, p) == Some(Renamed(p)))
      && (op.kind != Move && Target(ops, p) == None ==> Target(after, p) == None)
  {
    assert (ops + [op])[..|ops|] == ops;
    TouchedHandler(ops, op);
    hide Underscored, Renamed, Handler, Version;
  }

  lemma {:induction false} TouchedHandler(ops: seq<Op>, op: Op)
    requires op.kind == Move ==> Renamed(op.path) != op.path
    ensures var after, p := ops + [op], op.path;
      && (op.kind == Add && p != "" ==> Handler(after, p) == Underscored(p[1..]) + "_page")
      && (op.kind == RenameEndpoint ==> Handler(after, p) == Base(ops, p) + Version(Edits(ops, p) + 1))
  {
    assert (ops + [op])[..|ops|] == ops;
    hide Underscored, Renamed;
    if op.kind == Add && op.path != "" {
      assert Underscored(op.path[1..]) + "_page" + "" == Underscored(op.path[1..]) + "_page";
    }
  }

  /** A move hands the page over to its new path. */
  lemma {:induction false} MovedOn(ops: seq<Op>, op: Op)
    requires op.kind == Move && Renamed(op.path) != op.path
    ensures var after, q := ops + [op], Renamed(op.path);
      && Page(after, q) && Born(after, q) == |after| && Handler(after, q) == Handler(ops, op.path)
      && (Target(ops, q) == None ==> Target(after, q) == None)
  {
    assert (ops + [op])[..|ops|] == ops;
    hide Version, Underscored, Renamed;
  }

  /** The state is what the operations tell. */
  ghost predicate IsTold(s: State, ops: seq<Op>) {
    && (forall p :: At(s.routes, p) == Told(ops, p))
    && (forall p :: Page(ops, p) ==> Target(ops, p) == None)
    && (forall p :: p in s.born ==> s.born[p] == Born(ops, p))
  }

  lemma {:induction false} AtAppended(routes: seq<Route>, r: Route, q: string)
    requires r.path !in Paths(routes)
    ensures At(routes + [r], q) == if q == r.path then Present(r) else At(routes, q)
  {
    if routes != [] {
      assert routes[0] in routes && (routes + [r])[1..] == routes[1..] + [r];
      assert forall x :: x in routes[1..] ==> x in routes;
      AtAppended(routes[1..], r, q);
    } else {
      assert ([] + [r])[1..] == [];
    }
  }

  lemma {:induction false} AtReplaced(routes: seq<Route>, i: nat, r: Route, q: string)
    requires i < |routes| && r.path == routes[i].path && Distinct(routes)
    ensures At(routes[i := r], q) == if q == r.path then Present(r) else At(routes, q)
    decreases |routes|
  {
    if i > 0 {
      assert routes[i := r][1..] == routes[1..][i - 1 := r];
      AtReplaced(routes[1..], i - 1, r, q);
    } else {
      assert routes[i := r][1..] == routes[1..];
    }
  }

  lemma {:induction false} PageAt(routes: seq<Route>, p: string)
    requires Distinct(routes) && p in Pages(routes)
    ensures At(routes, p) == Present(routes[IndexOf(routes, p)])
  {
    AtDistinct(routes, routes[IndexOf(routes, p)]);
  }

  lemma {:induction false} AddAt(s: State, turn: nat, q: string)
    requires FamiliesOk(s) && s.parts != []
    ensures var p := "/" + s.parts[|s.parts| - 1];
      && At(s.routes, p) == Absent && p != ""
      && At(AddRoute(s, turn).routes, q)
         == if q == p then Present(Terminal(p, Underscored(p[1..]) + "_page")) else At(s.routes, q)
  {
    var segment := s.parts[|s.parts| - 1];
    AddedPathFresh(s);
    hide FamiliesOk, At;
    ReplaceDashes(segment);
    AtAppended(s.routes, Terminal("/" + segment, EndpointFor(segment)), q);
    AtMeans(s.routes, "/" + segment);
    assert ("/" + segment)[1..] == segment;
  }

  lemma {:induction false} AtMeans(routes: seq<Route>, p: string)
    ensures p !in Paths(routes) <==> At(routes, p) == Absent
  {
  }

  lemma {:induction false} EditAt(s: State, p: string, q: string)
    requires Distinct(s.routes) && p in Pages(s.routes)
    ensures At(s.routes, p).Present? && At(s.routes, p).route.Terminal?
    ensures At(EditRoute(s, p).routes, q)
         == if q == p then Present(Terminal(p, NextEndpoint(At(s.routes, p).route.endpoint))) else At(s.routes, q)
  {
    PageAt(s.routes, p);
    hide At, Distinct, NextEndpoint;
    AtReplaced(s.routes, IndexOf(s.routes, p), Terminal(p, NextEndpoint(At(s.routes, p).route.endpoint)), q);
  }

  lemma {:induction false} MoveAt(s: State, turn: nat, p: string, q: string)
    requires FamiliesOk(s) && p in Pages(s.routes)
    ensures At(s.routes, p).Present? && At(s.routes, p).route.Terminal?
    ensures Renamed(p) != p && At(s.routes, Renamed(p)) == Absent
    ensures At(MovePage(s, turn, p).routes, q)
         == if q == Renamed(p) then Present(Terminal(q, At(s.routes, p).route.endpoint))
            else if q == p then Present(Redirect(p, Renamed(p)))
            else At(s.routes, q)
  {
    MoveIsFresh(s, p);
    PageAt(s.routes, p);
    AtMoved(s.routes, IndexOf(s.routes, p), Renamed(p), q);
    NewIsNotOld(s.routes, IndexOf(s.routes, p), Renamed(p));
    AtMeans(s.routes, Renamed(p));
    hide At, Distinct, Renamed, FamiliesOk, MoveRoute;
  }

  lemma {:induction false} DropAt(s: State, p: string, q: string)
    requires Distinct(s.routes) && p in Pages(s.routes)
    ensures At(s.routes, p).Present? && At(s.routes, p).route.Terminal?
    ensures var was := At(s.routes, q);
      At(DropPage(s, p).routes, q)
        == if q == p || (was.Present? && was.route.Redirect? && was.route.to == p) then Absent else was
  {
    PageAt(s.routes, p);
    AtFilter(s.routes, Survives(p), q);
    hide At, Distinct, Filter;
  }

  /** What Step makes of the entry of any path. */
  function Becomes(op: Op, p: string, was: Entry, page: Entry): Entry
    requires op.kind in {RenameEndpoint, Move} ==> page.Present? && page.route.Terminal?
  {
    match op.kind
    case Add => if p == op.path && p != "" then Present(Terminal(p, Underscored(p[1..]) + "_page")) else was
    case RenameEndpoint => if p == op.path then Present(Terminal(p, NextEndpoint(page.route.endpoint))) else was
    case Move =>
      if p == Renamed(op.path) then Present(Terminal(p, page.route.endpoint))
      else if p == op.path then Present(Redirect(p, Renamed(p)))
      else was
    case Drop => if p == op.path || (was.Present? && was.route.Redirect? && was.route.to == op.path) then Absent else was
  }

  lemma {:induction false} StepAt(s: State, turn: nat, p0: int, op: Op, q: string)
    requires Inv(s, turn, p0) && Choosable(s, turn, op)
    ensures op.kind == Add ==> op.path != "" && At(s.routes, op.path) == Absent
    ensures op.kind != Add ==> At(s.routes, op.path).Present? && At(s.routes, op.path).route.Terminal?
    ensures op.kind == Move ==> Renamed(op.path) != op.path && At(s.routes, Renamed(op.path)) == Absent
    ensures At(Step(s, turn, op).routes, q) == Becomes(op, q, At(s.routes, q), At(s.routes, op.path))
  {
    ChoosableMeans(s, turn, p0, op);
    InvIsDistinct(s, turn, p0);
    hide Choosable, Inv, FamiliesOk, Distinct, At, Pages, Renamed, NextEndpoint, Underscored;
    hide AddRoute, EditRoute, MovePage, DropPage;
    match op.kind
    case Add => AddAt(s, turn, q);
    case RenameEndpoint => EditAt(s, op.path, q);
    case Move => MoveAt(s, turn, op.path, q);
    case Drop => DropAt(s, op.path, q);
  }

  lemma {:induction false} InvIsDistinct(s: State, turn: int, p0: int)
    requires Inv(s, turn, p0)
    ensures FamiliesOk(s) && Distinct(s.routes) && s.born.Keys == Paths(s.routes)
  {
    hide TableOk, PartsFresh;
  }

  lemma {:induction false} StepBorn(s: State, turn: nat, p0: int, op: Op, q: string)
    requires Inv(s, turn, p0) && Choosable(s, turn, op) && q in Step(s, turn, op).born
    ensures if Is(op, Add, q) || MovesTo(op, q) then Step(s, turn, op).born[q] == turn
            else q in s.born && Step(s, turn, op).born[q] == s.born[q]
  {
    ChoosableMeans(s, turn, p0, op);
    StepIs(s, turn, p0, op);
    BornIs(s, turn, op);
    hide Choosable, Inv, Step, Renamed, Pages, AddRoute, EditRoute, MovePage, DropPage;
  }

  lemma {:induction false} BornIs(s: State, turn: nat, op: Op)
    ensures s.parts != [] ==> AddRoute(s, turn).born == s.born["/" + s.parts[|s.parts| - 1] := turn]
    ensures op.path in Pages(s.routes) ==>
      EditRoute(s, op.path).born == s.born && MovePage(s, turn, op.path).born == s.born[Renamed(op.path) := turn]
    ensures forall p :: p in DropPage(s, op.path).born ==> p in s.born && DropPage(s, op.path).born[p] == s.born[p]
  {
    hide Pages, Renamed, EndpointFor, NextEndpoint, Gone, DropRoute, MoveRoute;
  }

  lemma {:induction false} StepTold(s: State, turn: nat, p0: int, ops: seq<Op>, op: Op)
    requires Inv(s, turn, p0) && Choosable(s, turn, op)
    requires IsTold(s, ops) && turn == |ops| + 1
    ensures IsTold(Step(s, turn, op), ops + [op])
  {
    hide Choosable, Inv, Step, At, Told, Page, Target, Born;
    forall p
      ensures At(Step(s, turn, op).routes, p) == Told(ops + [op], p)
      ensures Page(ops + [op], p) ==> Target(ops + [op], p) == None
    {
      EntryTold(s, turn, p0, ops, op, p);
    }
    forall p | p in Step(s, turn, op).born
      ensures Step(s, turn, op).born[p] == Born(ops + [op], p)
    {
      StepBorn(s, turn, p0, op, p);
      BornTold(s, turn, p0, ops, op, p);
    }
  }

  lemma {:induction false} BornTold(s: State, turn: nat, p0: int, ops: seq<Op>, op: Op, p: string)
    requires Inv(s, turn, p0) && Choosable(s, turn, op)
    ensures Born(ops + [op], p) == if Is(op, Add, p) || MovesTo(op, p) then |ops| + 1 else Born(ops, p)
  {
    assert (ops + [op])[..|ops|] == ops;
  }

  lemma {:induction false} EntryTold(s: State, turn: nat, p0: int, ops: seq<Op>, op: Op, p: string)
    requires Inv(s, turn, p0) && Choosable(s, turn, op)
    requires IsTold(s, ops) && turn == |ops| + 1
    ensures At(Step(s, turn, op).routes, p) == Told(ops + [op], p)
    ensures Page(ops + [op], p) ==> Target(ops + [op], p) == None
  {
    StepAt(s, turn, p0, op, p);
    ToldAt(s, ops, p);
    ToldAt(s, ops, op.path);
    ToldAt(s, ops, Renamed(op.path));
    hide *;
    if p != op.path && !MovesTo(op, p) {
      EntryElsewhere(ops, op, p);
    } else if p == op.path {
      EntryHere(ops, op);
    } else {
      MovesToMeans(op, p);
      EntryMoved(ops, op);
    }
  }

  lemma {:induction false} ToldAt(s: State, ops: seq<Op>, p: string)
    requires IsTold(s, ops)
    ensures At(s.routes, p) == Told(ops, p) && (Page(ops, p) ==> Target(ops, p) == None)
  {
  }

  lemma {:induction false} MovesToMeans(op: Op, p: string)
    ensures MovesTo(op, p) <==> op.kind == Move && p == Renamed(op.path)
  {
  }

  lemma {:induction false} EntryElsewhere(ops: seq<Op>, op: Op, p: string)
    requires op.kind in {RenameEndpoint, Move} ==> Told(ops, op.path).Present? && Told(ops, op.path).route.Terminal?
    requires p != op.path && !MovesTo(op, p) && (Page(ops, p) ==> Target(ops, p) == None)
    ensures Told(ops + [op], p) == Becomes(op, p, Told(ops, p), Told(ops, op.path))
    ensures Page(ops + [op], p) ==> Target(ops + [op], p) == None
  {
    hide Page, Target, Born, Renamed, Handler, NextEndpoint, Underscored;
    Untouched(ops, op, p);
  }

  lemma {:induction false} EntryHere(ops: seq<Op>, op: Op)
    requires op.kind == Add ==> op.path != "" && Told(ops, op.path) == Absent
    requires op.kind != Add ==> Told(ops, op.path).Present? && Told(ops, op.path).route.Terminal?
    requires op.kind == Move ==> Renamed(op.path) != op.path
    requires Page(ops, op.path) ==> Target(ops, op.path) == None
    ensures Told(ops + [op], op.path) == Becomes(op, op.path, Told(ops, op.path), Told(ops, op.path))
    ensures Page(ops + [op], op.path) ==> Target(ops + [op], op.path) == None
  {
    hide Page, Target, Born, Renamed, Handler, Base, Edits, Version, NextEndpoint, Underscored;
    Touched(ops, op);
    HandlerRenamed(ops, op.path);
  }

  lemma {:induction false} EntryMoved(ops: seq<Op>, op: Op)
    requires op.kind == Move && Renamed(op.path) != op.path && Told(ops, Renamed(op.path)) == Absent
    requires Told(ops, op.path).Present? && Told(ops, op.path).route.Terminal?
    ensures var q := Renamed(op.path);
      && Told(ops + [op], q) == Becomes(op, q, Told(ops, q), Told(ops, op.path))
      && Target(ops + [op], q) == None
  {
    hide Page, Target, Born, Renamed, Handler, NextEndpoint, Underscored;
    MovedOn(ops, op);
  }

  lemma {:induction false} HandlerRenamed(ops: seq<Op>, p: string)
    ensures NextEndpoint(Handler(ops, p)) == Base(ops, p) + Version(Edits(ops, p) + 1)
  {
    hide Base, Version, Edits, NextEndpoint, EndsWith;
    BaseHasNoVersion(ops, p);
    NextVersion(Base(ops, p), Edits(ops, p));
  }

  // ----- whole runs -----

  lemma {:induction false} StartTold(parts: seq<string>)
    ensures IsTold(Start(parts), [])
  {
    forall p
      ensures At(Start(parts).routes, p) == Told([], p)
    {
      StartAt(p);
      assert Start(parts).routes == Start([]).routes;
    }
  }

  lemma {:induction false} StartAt(p: string)
    ensures At(Start([]).routes, p) == Told([], p)
  {
    var home, login, docs := Terminal("/", "home"), Terminal("/login", "auth_login"), Terminal("/docs", "docs_index");
    AtThree(home, login, docs, p);
    hide At, Handler;
    SeedHandlers();
  }

  lemma SeedHandlers()
    ensures Handler([], "/") == "home" && Handler([], "/login") == "auth_login" && Handler([], "/docs") == "docs_index"
  {
    assert |"/"| == 1 && |"/login"| == 6 && |"/docs"| == 5;
    assert "home" + "" == "home" && "auth_login" + "" == "auth_login" && "docs_index" + "" == "docs_index";
  }

  lemma {:induction false} AtThree(a: Route, b: Route, c: Route, p: string)
    ensures At([a, b, c], p) ==
      if p == a.path then Present(a) else if p == b.path then Present(b) else if p == c.path then Present(c) else Absent
  {
    assert [a, b, c][1..] == [b, c] && [b, c][1..] == [c] && [c][1..] == [];
  }

  /** A run is a shorter run and one choice more. */
  lemma {:induction false} RunInit(s: State, turn: nat, ops: seq<Op>)
    requires ops != []
    ensures var init, last := ops[..|ops| - 1], ops[|ops| - 1];
      Run(s, turn, ops) <==> Run(s, turn, init) && Choosable(Exec(s, turn, init), turn + |init|, last)
    decreases |ops|
  {
    hide Choosable, Step;
    var init, last := ops[..|ops| - 1], ops[|ops| - 1];
    if |ops| > 1 {
      assert ops[1..][..|ops[1..]| - 1] == init[1..] && ops[1..][|ops[1..]| - 1] == last;
      RunInit(Step(s, turn, ops[0]), turn + 1, ops[1..]);
    }
  }

  /**
   * On every run the table is what the operations tell: the page at each path with its handler, the redirects of the
   * paths that pages have left, and the turn in which each path came into the table.
   */
  lemma {:induction false} RunIsTold(parts: seq<string>, ops: seq<Op>)
    requires Inv(Start(parts), 1, |parts|) && Run(Start(parts), 1, ops)
    ensures IsTold(Exec(Start(parts), 1, ops), ops)
  {
    hide Inv, Choosable, Step, IsTold, Start;
    if ops == [] {
      StartTold(parts);
    } else {
      var init, last := ops[..|ops| - 1], ops[|ops| - 1];
      assert init + [last] == ops;
      RunInit(Start(parts), 1, ops);
      RunSnoc(Start(parts), 1, init, last);
      RunIsTold(parts, init);
      RunKeepsInv(Start(parts), 1, |parts|, init);
      StepTold(Exec(Start(parts), 1, init), 1 + |init|, |parts|, init, last);
    }
  }

  // ----- the order of the table -----

  ghost predicate InOrder(routes: seq<Route>, born: map<string, nat>) {
    forall i, j :: 0 <= i < j < |routes| ==> NotAfter(routes[i].path, routes[j].path, born)
  }

  predicate NotAfter(p: string, q: string, born: map<string, nat>) {
    p in born && q in born && born[p] <= born[q]
  }

  lemma {:induction false} FilterInOrder(routes: seq<Route>, keep: Route -> bool, born: map<string, nat>)
    requires InOrder(routes, born)
    ensures InOrder(Filter(routes, keep), born)
  {
    if routes != [] {
      var tail := routes[1..];
      forall i, j | 0 <= i < j < |tail|
        ensures NotAfter(tail[i].path, tail[j].path, born)
      {
        assert NotAfter(routes[i + 1].path, routes[j + 1].path, born);
      }
      FilterInOrder(routes[1..], keep, born);
      var rest := Filter(routes[1..], keep);
      forall j | 0 <= j < |rest|
        ensures NotAfter(routes[0].path, rest[j].path, born)
      {
        assert rest[j] in rest;
      }
    }
  }

  lemma {:induction false} AppendInOrder(routes: seq<Route>, r: Route, born: map<string, nat>, turn: nat)
    requires InOrder(routes, born) && BirthsApart(born, turn) && born.Keys == Paths(routes)
    ensures InOrder(routes + [r], born[r.path := turn]) || r.path in born
  {
    forall i | 0 <= i < |routes|
      ensures routes[i].path in born && born[routes[i].path] <= turn
    {
      assert routes[i] in routes;
    }
  }

  /** Entries keep their places, new ones go to the end, and a drop closes the gaps. */
  lemma {:induction false} StepInOrder(s: State, turn: nat, p0: int, op: Op)
    requires Inv(s, turn, p0) && Choosable(s, turn, op) && InOrder(s.routes, s.born)
    ensures InOrder(Step(s, turn, op).routes, Step(s, turn, op).born)
  {
    StepAt(s, turn, p0, op, op.path);
    ChoosableMeans(s, turn, p0, op);
    InvIsDistinct(s, turn, p0);
    InvBirths(s, turn, p0);
    hide Choosable, Inv, FamiliesOk, Distinct, At, Renamed, NextEndpoint, EndpointFor, InOrder, Pages, BirthsApart;
    match op.kind
    case Add =>
      AtMeans(s.routes, op.path);
      AppendInOrder(s.routes, Terminal(op.path, EndpointFor(s.parts[|s.parts| - 1])), s.born, turn);
    case RenameEndpoint =>
      SetInOrder(s.routes, IndexOf(s.routes, op.path), Step(s, turn, op).routes[IndexOf(s.routes, op.path)], s.born);
    case Move =>
      var i := IndexOf(s.routes, op.path);
      SetInOrder(s.routes, i, Redirect(op.path, Renamed(op.path)), s.born);
      AtMeans(s.routes, Renamed(op.path));
      SetPaths(s.routes, i, Redirect(op.path, Renamed(op.path)));
      var after := s.routes[i := Redirect(op.path, Renamed(op.path))];
      AppendInOrder(after, Terminal(Renamed(op.path), s.routes[i].endpoint), s.born, turn);
    case Drop =>
      DropInOrder(s, turn, p0, op.path);
  }

  lemma {:induction false} InvBirths(s: State, turn: int, p0: int)
    requires Inv(s, turn, p0)
    ensures BirthsOk(s, turn) && BirthsApart(s.born, turn)
  {
    hide TableOk, PartsFresh;
  }

  lemma {:induction false} SetInOrder(routes: seq<Route>, i: nat, r: Route, born: map<string, nat>)
    requires i < |routes| && r.path == routes[i].path && InOrder(routes, born)
    ensures InOrder(routes[i := r], born)
  {
    assert forall k :: 0 <= k < |routes| ==> routes[i := r][k].path == routes[k].path;
  }

  lemma {:induction false} SetPaths(routes: seq<Route>, i: nat, r: Route)
    requires i < |routes| && r.path == routes[i].path
    ensures Paths(routes[i := r]) == Paths(routes)
  {
    var after := routes[i := r];
    forall p
      ensures p in Paths(after) <==> p in Paths(routes)
    {
      if q :| q in routes && q.path == p {
        var j :| 0 <= j < |routes| && routes[j] == q;
        assert after[j].path == p && after[j] in after;
      }
      if q :| q in after && q.path == p {
        var j :| 0 <= j < |after| && after[j] == q;
        assert routes[j].path == p && routes[j] in routes;
      }
    }
  }

  lemma {:induction false} DropInOrder(s: State, turn: nat, p0: int, path: string)
    requires FamiliesOk(s) && BirthsOk(s, turn) && InOrder(s.routes, s.born)
    ensures InOrder(DropPage(s, path).routes, DropPage(s, path).born)
  {
    var kept, born := DropRoute(s.routes, path), DropPage(s, path).born;
    FilterInOrder(s.routes, Survives(path), s.born);
    DropKeepsKeys(s, turn, path);
    hide *;
    FewerInOrder(kept, s.born, born);
    DropIs(s, path);
  }

  lemma {:induction false} DropIs(s: State, path: string)
    ensures DropPage(s, path).routes == Filter(s.routes, Survives(path)) == DropRoute(s.routes, path)
  {
  }

  lemma {:induction false} DropKeepsKeys(s: State, turn: nat, path: string)
    requires FamiliesOk(s) && BirthsOk(s, turn)
    ensures var t := DropPage(s, path);
      t.born.Keys == Paths(t.routes) && forall p :: p in t.born ==> p in s.born && t.born[p] == s.born[p]
  {
    DropKeepsBirths(s, turn, path);
    hide FamiliesOk, Gone, BirthsApart, Paths, DropRoute;
  }

  lemma {:induction false} FewerInOrder(routes: seq<Route>, born: map<string, nat>, fewer: map<string, nat>)
    requires InOrder(routes, born) && fewer.Keys == Paths(routes)
    requires forall p :: p in fewer ==> p in born && fewer[p] == born[p]
    ensures InOrder(routes, fewer)
  {
    forall i, j | 0 <= i < j < |routes|
      ensures NotAfter(routes[i].path, routes[j].path, fewer)
    {
      assert routes[i] in routes && routes[j] in routes;
    }
  }

  /** On every run the table lists its paths in the order in which they came into it. */
  lemma {:induction false} RunInOrder(parts: seq<string>, ops: seq<Op>, i: nat, j: nat)
    requires Inv(Start(parts), 1, |parts|) && Run(Start(parts), 1, ops)
    requires i < j < |Exec(Start(parts), 1, ops).routes|
    ensures var routes := Exec(Start(parts), 1, ops).routes;
      Born(ops, routes[i].path) <= Born(ops, routes[j].path)
  {
    RunKeepsOrder(parts, ops);
    RunIsTold(parts, ops);
    hide Inv, Start, Exec, Run, Born;
  }

  lemma {:induction false} RunKeepsOrder(parts: seq<string>, ops: seq<Op>)
    requires Inv(Start(parts), 1, |parts|) && Run(Start(parts), 1, ops)
    ensures InOrder(Exec(Start(parts), 1, ops).routes, Exec(Start(parts), 1, ops).born)
  {
    hide Inv, Choosable, Step, InOrder, Start;
    if ops == [] {
      StartInOrder(parts);
    } else {
      var init, last := ops[..|ops| - 1], ops[|ops| - 1];
      assert init + [last] == ops;
      RunInit(Start(parts), 1, ops);
      RunSnoc(Start(parts), 1, init, last);
      RunKeepsOrder(parts, init);
      RunKeepsInv(Start(parts), 1, |parts|, init);
      StepInOrder(Exec(Start(parts), 1, init), 1 + |init|, |parts|, last);
    }
  }

  lemma {:induction false} StartInOrder(parts: seq<string>)
    ensures InOrder(Start(parts).routes, Start(parts).born)
  {
  }

  // ----- which runs there are -----

  /** How many of the operations are of the kind. */
  function Count(ops: seq<Op>, kind: Kind): nat {
    if ops == [] then 0 else Count(ops[..|ops| - 1], kind) + if ops[|ops| - 1].kind == kind then 1 else 0
  }

  /** The path is a page, not the first one, and came into the table at least `age` turns before the following turn. */
  predicate Aged(ops: seq<Op>, p: string, age: nat) {
    p != "/" && Page(ops, p) && |ops| + 1 - Born(ops, p) >= age
  }

  /**
   * What may follow the operations: segments are added from the end of the list, only adds come in the first six turns;
   * pages are changed or moved when their paths are three turns old, and dropped when they are five turns old, more than
   * eight are there, and segments are left.
   */
  predicate Allowed(parts: seq<string>, ops: seq<Op>, op: Op) {
    var left := |parts| - Count(ops, Add);
    match op.kind
    case Add => 0 < left <= |parts| && op.path == "/" + parts[left - 1]
    case RenameEndpoint | Move => |ops| >= 6 && Aged(ops, op.path, 3)
    case Drop => left != 0 && |ops| >= 6 && Aged(ops, op.path, 5) && 3 + Count(ops, Add) - Count(ops, Drop) > 8
  }

  /** The sizes of the state, from the operations. */
  ghost predicate Sized(s: State, parts: seq<string>, ops: seq<Op>) {
    && Count(ops, Add) <= |parts|
    && s.parts == parts[..|parts| - Count(ops, Add)]
    && |Pages(s.routes)| == 3 + Count(ops, Add) - Count(ops, Drop)
  }

  lemma {:induction false} PagesTold(s: State, ops: seq<Op>, p: string)
    requires IsTold(s, ops) && Distinct(s.routes)
    ensures p in Pages(s.routes) <==> Page(ops, p)
  {
    assert At(s.routes, p) == Told(ops, p);
    hide Told, Page, Target, Born, Handler;
    if r :| r in s.routes && r.Terminal? && r.path == p {
      AtDistinct(s.routes, r);
      ToldPage(ops, p);
    }
    ToldPage(ops, p);
  }

  lemma {:induction false} ToldPage(ops: seq<Op>, p: string)
    ensures Told(ops, p).Present? && Told(ops, p).route.Terminal? <==> Page(ops, p)
  {
  }

  /** An add brings one page, a drop takes one away. */
  lemma {:induction false} StepPages(s: State, turn: nat, p0: int, op: Op)
    requires Inv(s, turn, p0) && Choosable(s, turn, op)
    ensures |Pages(Step(s, turn, op).routes)|
         == |Pages(s.routes)| + (if op.kind == Add then 1 else 0) - (if op.kind == Drop then 1 else 0)
  {
    ChoosableMeans(s, turn, p0, op);
    InvIsDistinct(s, turn, p0);
    StepIs(s, turn, p0, op);
    hide *;
    match op.kind
    case Add => AddPages(s, turn);
    case RenameEndpoint => EditPages(s, op.path);
    case Move => MovePages(s, turn, op.path);
    case Drop => PagesAfterDrop(s, op.path);
  }

  lemma {:induction false} StepIs(s: State, turn: nat, p0: int, op: Op)
    requires Inv(s, turn, p0) && Choosable(s, turn, op)
    ensures op.kind != Add ==> op.path in Pages(s.routes)
    ensures op.kind == Add ==> s.parts != []
    ensures Step(s, turn, op) == match op.kind
      case Add => AddRoute(s, turn)
      case RenameEndpoint => EditRoute(s, op.path)
      case Move => MovePage(s, turn, op.path)
      case Drop => DropPage(s, op.path)
  {
    ChoosableMeans(s, turn, p0, op);
    hide Choosable, Inv, Pages, AddRoute, EditRoute, MovePage, DropPage;
  }

  lemma {:induction false} MovePages(s: State, turn: nat, path: string)
    requires FamiliesOk(s) && path in Pages(s.routes)
    ensures |Pages(MovePage(s, turn, path).routes)| == |Pages(s.routes)|
  {
    MovedElements(s, path);
    PagesArePaths(s.routes);
    MoveRoutes(s, turn, path);
    hide Pages, Renamed, FamiliesOk, MoveRoute, MovePage;
  }

  lemma {:induction false} AddPages(s: State, turn: nat)
    requires FamiliesOk(s) && s.parts != [] && Distinct(s.routes)
    ensures |Pages(AddRoute(s, turn).routes)| == |Pages(s.routes)| + 1
  {
    var segment := s.parts[|s.parts| - 1];
    AddedPathFresh(s);
    AppendDistinct(s.routes, Terminal("/" + segment, EndpointFor(segment)));
    PagesArePaths(s.routes);
    hide Pages, Paths, FamiliesOk, EndpointFor;
  }

  lemma {:induction false} EditPages(s: State, path: string)
    requires Distinct(s.routes) && path in Pages(s.routes)
    ensures Pages(EditRoute(s, path).routes) == Pages(s.routes)
  {
    hide Pages, NextEndpoint;
    var i := IndexOf(s.routes, path);
    ReplaceDistinct(s.routes, i, Terminal(path, NextEndpoint(s.routes[i].endpoint)));
  }

  lemma {:induction false} MoveRoutes(s: State, turn: nat, path: string)
    requires path in Pages(s.routes)
    ensures MovePage(s, turn, path).routes == MoveRoute(s.routes, IndexOf(s.routes, path), Renamed(path))
  {
    hide Pages, Renamed;
  }

  lemma {:induction false} PagesArePaths(routes: seq<Route>)
    ensures Pages(routes) <= Paths(routes)
  {
  }

  lemma {:induction false} PagesAfterDrop(s: State, path: string)
    requires path in Pages(s.routes)
    ensures |Pages(DropPage(s, path).routes)| == |Pages(s.routes)| - 1
  {
    assert Pages(DropPage(s, path).routes) == Pages(s.routes) - {path};
  }

  lemma {:induction false} StepSized(s: State, turn: nat, parts: seq<string>, ops: seq<Op>, op: Op)
    requires Inv(s, turn, |parts|) && Choosable(s, turn, op) && Sized(s, parts, ops)
    ensures Sized(Step(s, turn, op), parts, ops + [op])
  {
    hide Inv, Choosable, Step, Pages;
    assert (ops + [op])[..|ops|] == ops;
    StepPages(s, turn, |parts|, op);
    StepParts(s, turn, |parts|, op);
  }

  lemma {:induction false} StepParts(s: State, turn: nat, p0: int, op: Op)
    requires Inv(s, turn, p0) && Choosable(s, turn, op)
    ensures op.kind == Add ==> s.parts != []
    ensures Step(s, turn, op).parts == if op.kind == Add then s.parts[..|s.parts| - 1] else s.parts
  {
    ChoosableMeans(s, turn, p0, op);
    StepIs(s, turn, p0, op);
    hide Choosable, Inv, Step, Renamed, NextEndpoint, EndpointFor, Pages;
  }

  lemma {:induction false} AgedMeans(s: State, turn: nat, p0: int, ops: seq<Op>, p: string, age: nat)
    requires Inv(s, turn, p0) && IsTold(s, ops) && turn == |ops| + 1
    ensures p in Terminals(s, turn, age) <==> Aged(ops, p, age)
  {
    InvIsDistinct(s, turn, p0);
    PagesTold(s, ops, p);
    PagesArePaths(s.routes);
    hide Inv, Told, Page, Target, Born, At, Pages;
  }

  /** In a state that the operations tell, the choices are the allowed ones. */
  lemma {:induction false} ChoicesAreAllowed(s: State, turn: nat, parts: seq<string>, ops: seq<Op>, op: Op)
    requires Inv(s, turn, |parts|) && IsTold(s, ops) && Sized(s, parts, ops) && turn == |ops| + 1
    ensures Choosable(s, turn, op) <==> Allowed(parts, ops, op)
  {
    AgedMeans(s, turn, |parts|, ops, op.path, 3);
    AgedMeans(s, turn, |parts|, ops, op.path, 5);
    OfferedAre(s, turn, parts, ops, op);
    LeftMeans(s, parts, ops);
    hide IsTold, Inv, Terminals, Aged, Offered, Pages, Choosable, Sized, Count;
    assert op.path in Terminals(s, turn, 5) ==> Terminals(s, turn, 5) != {};
    match op.kind
    case Add =>
    case RenameEndpoint | Move =>
    case Drop =>
  }

  lemma {:induction false} LeftMeans(s: State, parts: seq<string>, ops: seq<Op>)
    requires Sized(s, parts, ops)
    ensures |s.parts| == |parts| - Count(ops, Add) && Count(ops, Add) >= 0
    ensures s.parts != [] ==> s.parts[|s.parts| - 1] == parts[|parts| - Count(ops, Add) - 1]
  {
    hide Pages, Count;
  }

  /** In the first six turns segments are left. */
  lemma {:induction false} EarlyParts(s: State, turn: nat, p0: int)
    requires Inv(s, turn, p0)
    ensures turn <= 6 ==> s.parts != []
  {
    hide FamiliesOk, BirthsOk;
  }

  lemma {:induction false} OfferedAre(s: State, turn: nat, parts: seq<string>, ops: seq<Op>, op: Op)
    requires Inv(s, turn, |parts|) && Sized(s, parts, ops)
    ensures Choosable(s, turn, op) <==>
      op.path in Candidates(s, turn, op.kind) && match op.kind
        case Add => s.parts != []
        case RenameEndpoint | Move => turn >= 7
        case Drop => turn >= 7 && s.parts != [] && 3 + Count(ops, Add) - Count(ops, Drop) > 8 && Terminals(s, turn, 5) != {}
  {
    BranchIsKind(s, turn, |parts|, op);
    EarlyParts(s, turn, |parts|);
    InvIsDistinct(s, turn, |parts|);
    CountIsPages(s.routes);
    OfferedKinds(s, turn, op.kind);
    hide Inv, Offered, Terminals, Pages, FamiliesOk, Candidates, Choosable, Count, Distinct, CountPages;
  }

  lemma {:induction false} OfferedKinds(s: State, turn: nat, kind: Kind)
    ensures kind in Offered(s, turn) <==> match kind
      case Add => turn <= 6 || s.parts != []
      case RenameEndpoint | Move => turn >= 7
      case Drop => turn >= 7 && s.parts != [] && CountPages(s.routes) > 8 && Terminals(s, turn, 5) != {}
  {
    hide Terminals, CountPages;
  }

  lemma {:induction false} BranchIsKind(s: State, turn: nat, p0: int, op: Op)
    requires Inv(s, turn, p0)
    ensures Choosable(s, turn, op) <==> op.kind in Offered(s, turn) && op.path in Candidates(s, turn, op.kind)
  {
    hide Inv, Offered, Candidates, Branch;
    forall kind | kind in Offered(s, turn)
      ensures Branch(s, kind) == kind
    {
      DropIsGuarded(s, turn, p0, kind);
    }
  }

  /** The runs of the replay are exactly the lists of operations each of which is allowed after those before it. */
  lemma {:induction false} RunsAreAllowed(parts: seq<string>, ops: seq<Op>)
    requires Inv(Start(parts), 1, |parts|)
    ensures Run(Start(parts), 1, ops) <==> forall i :: 0 <= i < |ops| ==> Allowed(parts, ops[..i], ops[i])
    ensures Run(Start(parts), 1, ops) ==> Sized(Exec(Start(parts), 1, ops), parts, ops)
  {
    hide Inv, Choosable, Step, IsTold, Start, Allowed, Sized;
    if ops == [] {
      StartSized(parts);
    } else {
      var init, last := ops[..|ops| - 1], ops[|ops| - 1];
      assert init + [last] == ops;
      RunInit(Start(parts), 1, ops);
      RunsAreAllowed(parts, init);
      assert forall i :: 0 <= i < |init| ==> ops[..i] == init[..i] && ops[i] == init[i];
      if Run(Start(parts), 1, init) {
        var s := Exec(Start(parts), 1, init);
        RunIsTold(parts, init);
        RunKeepsInv(Start(parts), 1, |parts|, init);
        ChoicesAreAllowed(s, |init| + 1, parts, init, last);
        if Choosable(s, |init| + 1, last) {
          RunSnoc(Start(parts), 1, init, last);
          StepSized(s, |init| + 1, parts, init, last);
        }
      }
    }
  }

  lemma {:induction false} StartSized(parts: seq<string>)
    ensures Sized(Start(parts), parts, [])
  {
    var routes := Start(parts).routes;
    assert routes[0] in routes && routes[1] in routes && routes[2] in routes;
    assert |"/"| == 1 && |"/login"| == 6 && |"/docs"| == 5;
    assert Pages(routes) == {"/", "/login", "/docs"};
    assert parts[..|parts|] == parts;
  }
}
