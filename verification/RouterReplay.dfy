/** The s8 generator (benchmarks/multiturn_coding/_gen_long50.py, `gen_s8`): a route table driven by random choices. */
module RouterReplay {
  import opened Text
  import opened Names
  import opened Births
  import opened Options
  import opened Routing
  import opened RouterTable

  /** The replay's local variables: the table, birth turns of its paths and the unused path segments. */
  datatype State = State(routes: seq<Route>, born: map<string, nat>, parts: seq<string>)

  function Start(parts: seq<string>): State {
    State([Terminal("/", "home"), Terminal("/login", "auth_login"), Terminal("/docs", "docs_index")],
          map["/" := 0, "/login" := 0, "/docs" := 0], parts)
  }

  // ----- what one turn may choose -----

  datatype Kind = Add | RenameEndpoint | Move | Drop

  function Pages(routes: seq<Route>): set<string> {
    set r | r in routes && r.Terminal? :: r.path
  }

  /** `len([r for r in routes if "endpoint" in r])` */
  function CountPages(routes: seq<Route>): nat {
    if routes == [] then 0 else (if routes[0].Terminal? then 1 else 0) + CountPages(routes[1..])
  }

  /** The pages other than "/" that are at least `age` turns old. */
  function Terminals(s: State, turn: int, age: int): set<string> {
    OlderThan(Pages(s.routes), s.born, turn, age) - {"/"}
  }

  /** The list the operation is drawn from. */
  function Offered(s: State, turn: int): seq<Kind> {
    if turn <= 6 then [Add]
    else if s.parts == [] then [RenameEndpoint, Move]
    else if CountPages(s.routes) > 8 && Terminals(s, turn, 5) != {} then [Add, Add, RenameEndpoint, Move, Drop]
    else [Add, Add, RenameEndpoint, Move]
  }

  /** The branch the operation takes: an add with no segment left would fall through to the drop. */
  function Branch(s: State, kind: Kind): Kind {
    if kind == Add && s.parts == [] then Drop else kind
  }

  /** The list the path is drawn from. */
  function Candidates(s: State, turn: int, branch: Kind): set<string> {
    match branch
    case Add => if s.parts == [] then {} else {"/" + s.parts[|s.parts| - 1]}
    case Drop => Terminals(s, turn, 5)
    case _ => Terminals(s, turn, 3)
  }

  datatype Op = Op(kind: Kind, path: string)

  predicate Choosable(s: State, turn: int, op: Op) {
    exists kind :: kind in Offered(s, turn) && op.kind == Branch(s, kind) && op.path in Candidates(s, turn, op.kind)
  }

  // ----- effects -----

  function EndpointFor(segment: string): string {
    Replace(segment, "-", "_") + "_page"
  }

  function NextEndpoint(e: string): string {
    if EndsWith(e, "_v2") then e[..|e| - 3] + "_v3" else e + "_v2"
  }

  /** The index of the page that a choice of its path stands for. */
  function IndexOf(routes: seq<Route>, path: string): (i: nat)
    requires path in Pages(routes)
    ensures i < |routes| && routes[i].path == path && routes[i].Terminal?
  {
    if routes[0].path == path && routes[0].Terminal? then 0
    else
      assert exists r :: r in routes[1..] && r.Terminal? && r.path == path by {
        var r :| r in routes && r.Terminal? && r.path == path;
        assert routes == [routes[0]] + routes[1..];
      }
      1 + IndexOf(routes[1..], path)
  }

  function AddRoute(s: State, turn: nat): State
    requires s.parts != []
  {
    var segment := s.parts[|s.parts| - 1];
    State(s.routes + [Terminal("/" + segment, EndpointFor(segment))],
          s.born["/" + segment := turn], s.parts[..|s.parts| - 1])
  }

  function EditRoute(s: State, path: string): State
    requires path in Pages(s.routes)
  {
    var i := IndexOf(s.routes, path);
    s.(routes := s.routes[i := Terminal(path, NextEndpoint(s.routes[i].endpoint))])
  }

  function MovePage(s: State, turn: nat, path: string): State
    requires path in Pages(s.routes)
  {
    var i, target := IndexOf(s.routes, path), Renamed(path);
    s.(routes := MoveRoute(s.routes, i, target), born := s.born[target := turn])
  }

  /** The paths a drop deletes from the birth record: the page's and its direct redirects'. */
  function Gone(routes: seq<Route>, path: string): set<string> {
    set r | r in routes && !Survives(path)(r) :: r.path
  }

  function DropPage(s: State, path: string): State {
    s.(routes := DropRoute(s.routes, path), born := s.born - Gone(s.routes, path))
  }

  // ----- the invariant -----

  ghost predicate PartsFresh(parts: seq<string>, table: set<Route>) {
    && (forall i :: 0 <= i < |parts| ==> CleanStem("/" + parts[i]))
    && (forall i, j :: 0 <= i < j < |parts| ==> parts[i] != parts[j])
    && (forall i, r :: 0 <= i < |parts| && r in table ==> StemOf(r.path) != "/" + parts[i])
  }

  ghost predicate FamiliesOk(s: State) {
    Distinct(s.routes) && TableOk(Elements(s.routes)) && PartsFresh(s.parts, Elements(s.routes))
  }

  ghost predicate BirthsOk(s: State, turn: int) {
    s.born.Keys == Paths(s.routes) && BirthsApart(s.born, turn)
  }

  /** p0 is the number of segments at the start. */
  ghost predicate SizesOk(s: State, turn: int, p0: int) {
    && (turn <= 7 ==> |s.parts| == p0 - (turn - 1) && |Pages(s.routes)| == 3 + (turn - 1))
    && (turn >= 7 ==> |Pages(s.routes)| >= 8)
  }

  ghost predicate Inv(s: State, turn: int, p0: int) {
    turn >= 1 && p0 >= 6 && FamiliesOk(s) && BirthsOk(s, turn) && SizesOk(s, turn, p0)
  }

  // ----- no choice from an empty list -----

  lemma {:induction false} CountIsPages(routes: seq<Route>)
    requires Distinct(routes)
    ensures CountPages(routes) == |Pages(routes)|
  {
    if routes != [] {
      CountIsPages(routes[1..]);
      FirstPage(routes);
    }
  }

  lemma {:induction false} FirstPage(routes: seq<Route>)
    requires Distinct(routes) && routes != []
    ensures Pages(routes) == Pages(routes[1..]) + if routes[0].Terminal? then {routes[0].path} else {}
    ensures routes[0].path !in Pages(routes[1..])
  {
    assert routes == [routes[0]] + routes[1..];
  }

  /** The drop branch is reached only by drawing a drop, and so only under its guard. */
  lemma {:induction false} DropIsGuarded(s: State, turn: int, p0: int, kind: Kind)
    requires Inv(s, turn, p0) && kind in Offered(s, turn)
    ensures Branch(s, kind) == kind
    ensures kind == Add ==> s.parts != []
    ensures kind != Add ==> turn >= 7
    ensures kind == Drop ==> |Pages(s.routes)| > 8 && Terminals(s, turn, 5) != {}
  {
    hide TableOk, PartsFresh, Terminals, BirthsApart;
    CountIsPages(s.routes);
  }

  /** In every reachable state, whatever operation is drawn, there is a path to draw. */
  lemma {:induction false} NoEmptyChoice(s: State, turn: int, p0: int, kind: Kind)
    requires Inv(s, turn, p0) && kind in Offered(s, turn)
    ensures Candidates(s, turn, Branch(s, kind)) != {}
  {
    DropIsGuarded(s, turn, p0, kind);
    if kind == RenameEndpoint || kind == Move {
      OldPagesExist(s, turn);
    }
    hide Offered, Terminals, Inv;
  }

  lemma {:induction false} OldPagesExist(s: State, turn: int)
    requires BirthsOk(s, turn) && turn >= 7 && |Pages(s.routes)| >= 8
    ensures Terminals(s, turn, 3) != {}
  {
    FewYoung(Pages(s.routes), s.born, turn, 3);
    hide OlderThan, BirthsApart;
    var older := OlderThan(Pages(s.routes), s.born, turn, 3);
    assert |older - {"/"}| >= |older| - 1;
  }

  // ----- every operation keeps the invariant -----

  lemma {:induction false} AppendDistinct(routes: seq<Route>, r: Route)
    requires Distinct(routes) && r.path !in Paths(routes)
    ensures Distinct(routes + [r])
    ensures Elements(routes + [r]) == Elements(routes) + {r}
    ensures Paths(routes + [r]) == Paths(routes) + {r.path}
    ensures Pages(routes + [r]) == Pages(routes) + if r.Terminal? then {r.path} else {}
  {
    assert forall i :: 0 <= i < |routes| ==> routes[i] in routes;
    assert forall q :: q in routes + [r] <==> q in routes || q == r;
  }

  lemma {:induction false} ReplaceDistinct(routes: seq<Route>, i: nat, r: Route)
    requires Distinct(routes) && i < |routes| && r.path == routes[i].path
    ensures Distinct(routes[i := r])
    ensures Elements(routes[i := r]) == Elements(routes) - {routes[i]} + {r}
    ensures Paths(routes[i := r]) == Paths(routes)
    ensures Pages(routes[i := r]) == Pages(routes) - {r.path} + if r.Terminal? then {r.path} else {}
  {
    ReplacedElements(routes, i, r);
    assert routes[i] in routes;
    forall q | q in routes && q.path == r.path ensures q == routes[i] {
      AtDistinct(routes, q);
      AtDistinct(routes, routes[i]);
    }
  }

  lemma {:induction false} ReplacedElements(routes: seq<Route>, i: nat, r: Route)
    requires Distinct(routes) && i < |routes| && r.path == routes[i].path
    ensures forall q :: q in routes[i := r] <==> q == r || (q in routes && q != routes[i])
  {
    var after := routes[i := r];
    assert after[i] == r;
    forall q | q in routes && q != routes[i] ensures q in after {
      var j :| 0 <= j < |routes| && routes[j] == q;
      assert after[j] == q;
    }
    forall q | q in after && q != r ensures q in routes && q != routes[i] {
      var j :| 0 <= j < |after| && after[j] == q;
      assert routes[j] == q;
    }
  }

  lemma {:induction false} AddKeepsFamilies(s: State, turn: nat)
    requires FamiliesOk(s) && s.parts != []
    ensures FamiliesOk(AddRoute(s, turn))
    ensures "/" + s.parts[|s.parts| - 1] !in Paths(s.routes)
  {
    var segment := s.parts[|s.parts| - 1];
    var p := "/" + segment;
    AddedPathFresh(s);
    AppendDistinct(s.routes, Terminal(p, EndpointFor(segment)));
    AddKeepsShape(Elements(s.routes), p, EndpointFor(segment));
    AddKeepsLinks(Elements(s.routes), p, EndpointFor(segment));
    hide Shaped, PagesLast, Linked, EndpointFor;
    NameIsNamed(p, 0);
    assert Name(p, 0) == p;
    PartsAfterAdd(s.parts, Elements(s.routes), Terminal(p, EndpointFor(segment)));
  }

  lemma {:induction false} AddedPathFresh(s: State)
    requires FamiliesOk(s) && s.parts != []
    ensures "/" + s.parts[|s.parts| - 1] !in Paths(s.routes)
  {
    var p := "/" + s.parts[|s.parts| - 1];
    NameIsNamed(p, 0);
    assert Name(p, 0) == p;
    hide StemOf, Named, TableOk;
    forall r | r in s.routes ensures r.path != p {
      assert r in Elements(s.routes);
    }
  }

  lemma {:induction false} PartsAfterAdd(parts: seq<string>, table: set<Route>, r: Route)
    requires PartsFresh(parts, table) && parts != [] && StemOf(r.path) == "/" + parts[|parts| - 1]
    ensures PartsFresh(parts[..|parts| - 1], table + {r})
  {
    hide StemOf, CleanStem;
    forall i | 0 <= i < |parts| - 1 ensures "/" + parts[i] != "/" + parts[|parts| - 1] {
      assert ("/" + parts[i])[1..] == parts[i] && ("/" + parts[|parts| - 1])[1..] == parts[|parts| - 1];
    }
  }

  lemma {:induction false} AddKeepsBirths(s: State, turn: nat)
    requires BirthsOk(s, turn) && turn >= 1 && s.parts != []
    ensures BirthsOk(AddRoute(s, turn), turn + 1)
  {
    BirthsAfter(s.born, turn, "/" + s.parts[|s.parts| - 1], "");
    hide BirthsApart, EndpointFor;
    var r := Terminal("/" + s.parts[|s.parts| - 1], EndpointFor(s.parts[|s.parts| - 1]));
    assert forall q :: q in s.routes + [r] <==> q in s.routes || q == r;
  }

  lemma {:induction false} AddKeepsSizes(s: State, turn: nat, p0: int)
    requires SizesOk(s, turn, p0) && s.parts != [] && "/" + s.parts[|s.parts| - 1] !in Paths(s.routes)
    requires Distinct(s.routes)
    ensures SizesOk(AddRoute(s, turn), turn + 1, p0)
  {
    AppendDistinct(s.routes, Terminal("/" + s.parts[|s.parts| - 1], EndpointFor(s.parts[|s.parts| - 1])));
    assert Pages(s.routes) <= Paths(s.routes);
    hide EndpointFor, Distinct;
  }

  lemma {:induction false} EditKeepsInv(s: State, turn: nat, p0: int, path: string)
    requires Inv(s, turn, p0) && path in Pages(s.routes) && turn >= 7
    ensures Inv(EditRoute(s, path), turn + 1, p0)
  {
    var i := IndexOf(s.routes, path);
    var r := Terminal(path, NextEndpoint(s.routes[i].endpoint));
    ReplaceDistinct(s.routes, i, r);
    EditKeepsTable(Elements(s.routes), s.routes[i], r.endpoint);
    BirthsAfter(s.born, turn, path, "");
    PartsSameFamilies(s.parts, Elements(s.routes), s.routes[i], {r});
    hide TableOk, PartsFresh, BirthsApart, Distinct, Pages, NextEndpoint;
  }

  /** Replacing a route by routes of the same family leaves the unused segments fresh. */
  lemma {:induction false} PartsSameFamilies(parts: seq<string>, table: set<Route>, from: Route, to: set<Route>)
    requires PartsFresh(parts, table) && from in table
    requires forall r :: r in to ==> StemOf(r.path) == StemOf(from.path)
    ensures PartsFresh(parts, table - {from} + to)
  {
    hide StemOf, CleanStem;
  }

  lemma {:induction false} MoveIsFresh(s: State, path: string)
    requires FamiliesOk(s) && path in Pages(s.routes)
    ensures Movable(s.routes, IndexOf(s.routes, path), Renamed(path))
  {
    hide StemOf, Named, Renamed, PartsFresh, TableOk;
    var i := IndexOf(s.routes, path);
    var page := s.routes[i];
    assert page in Elements(s.routes);
    forall r | r in s.routes ensures r.path != Renamed(path) && (r.Redirect? ==> r.to != Renamed(path)) {
      assert r in Elements(s.routes);
      MoveTargetFresh(Elements(s.routes), page, r);
      if r.path == path {
        AtDistinct(s.routes, r);
        AtDistinct(s.routes, page);
      }
    }
  }

  lemma {:induction false} MovedElements(s: State, path: string)
    requires FamiliesOk(s) && path in Pages(s.routes)
    ensures var i := IndexOf(s.routes, path);
      var moved := MoveRoute(s.routes, i, Renamed(path));
      && Distinct(moved)
      && Elements(moved) == Moved(Elements(s.routes), s.routes[i])
      && Paths(moved) == Paths(s.routes) + {Renamed(path)}
      && Pages(moved) == Pages(s.routes) - {path} + {Renamed(path)}
      && Renamed(path) !in Paths(s.routes)
  {
    hide Renamed, TableOk, PartsFresh;
    var i, target := IndexOf(s.routes, path), Renamed(path);
    var redirect := Redirect(path, target);
    MoveIsFresh(s, path);
    ReplaceDistinct(s.routes, i, redirect);
    AppendDistinct(s.routes[i := redirect], Terminal(target, s.routes[i].endpoint));
  }

  lemma {:induction false} MoveKeepsFamilies(s: State, turn: nat, path: string)
    requires FamiliesOk(s) && path in Pages(s.routes)
    ensures FamiliesOk(MovePage(s, turn, path))
  {
    var page := s.routes[IndexOf(s.routes, path)];
    assert page in Elements(s.routes);
    MovedElements(s, path);
    MoveKeepsShape(Elements(s.routes), page);
    MoveKeepsLinks(Elements(s.routes), page);
    RenamedStaysInFamily(path);
    PartsSameFamilies(s.parts, Elements(s.routes), page, {Redirect(path, Renamed(path)), Terminal(Renamed(path), page.endpoint)});
    hide Shaped, PagesLast, Linked, PartsFresh, Renamed, Distinct, StemOf, Named;
  }

  lemma {:induction false} MoveKeepsBirths(s: State, turn: nat, path: string)
    requires FamiliesOk(s) && BirthsOk(s, turn) && turn >= 1 && path in Pages(s.routes)
    ensures BirthsOk(MovePage(s, turn, path), turn + 1)
  {
    MovedElements(s, path);
    BirthsAfter(s.born, turn, Renamed(path), "");
    hide BirthsApart, Renamed, FamiliesOk, Distinct;
  }

  lemma {:induction false} MoveKeepsSizes(s: State, turn: nat, p0: int, path: string)
    requires FamiliesOk(s) && SizesOk(s, turn, p0) && turn >= 7 && path in Pages(s.routes)
    ensures SizesOk(MovePage(s, turn, path), turn + 1, p0)
  {
    MovedElements(s, path);
    assert Pages(s.routes) <= Paths(s.routes);
    hide Renamed, FamiliesOk, Distinct;
  }

  lemma {:induction false} DropKeepsFamilies(s: State, path: string)
    requires FamiliesOk(s) && path in Pages(s.routes)
    ensures FamiliesOk(DropPage(s, path))
  {
    var page := s.routes[IndexOf(s.routes, path)];
    assert page in Elements(s.routes);
    FilterDistinct(s.routes, Survives(path));
    DropKeepsTable(Elements(s.routes), page);
    assert Elements(DropRoute(s.routes, path)) == Dropped(Elements(s.routes), path);
    hide TableOk, Distinct, StemOf, CleanStem;
  }

  lemma {:induction false} DropKeepsBirths(s: State, turn: nat, path: string)
    requires Distinct(s.routes) && BirthsOk(s, turn)
    ensures BirthsOk(DropPage(s, path), turn + 1)
  {
    hide BirthsApart;
    BirthsWithout(s.born, turn, Gone(s.routes, path));
    forall p ensures p in Paths(DropRoute(s.routes, path)) <==> p in Paths(s.routes) - Gone(s.routes, path) {
      if r :| r in DropRoute(s.routes, path) && r.path == p {
        AtDistinct(s.routes, r);
        forall q | q in s.routes && q.path == p ensures q == r {
          AtDistinct(s.routes, q);
        }
      }
    }
  }

  lemma {:induction false} BirthsWithout(born: map<string, nat>, turn: nat, gone: set<string>)
    requires BirthsApart(born, turn)
    ensures BirthsApart(born - gone, turn + 1)
  {
  }

  lemma {:induction false} DropKeepsSizes(s: State, turn: nat, p0: int, path: string)
    requires Distinct(s.routes) && turn >= 7 && path in Pages(s.routes) && |Pages(s.routes)| > 8
    ensures SizesOk(DropPage(s, path), turn + 1, p0)
  {
    assert Pages(DropRoute(s.routes, path)) == Pages(s.routes) - {path};
  }

  // ----- whole runs -----

  lemma {:induction false} ChoosableMeans(s: State, turn: int, p0: int, op: Op)
    requires Inv(s, turn, p0) && Choosable(s, turn, op)
    ensures op.kind == Add ==> s.parts != [] && op.path == "/" + s.parts[|s.parts| - 1]
    ensures op.kind != Add ==> turn >= 7 && op.path in Pages(s.routes)
    ensures op.kind == Drop ==> |Pages(s.routes)| > 8
  {
    hide Inv, Offered;
    var kind :| kind in Offered(s, turn) && op.kind == Branch(s, kind) && op.path in Candidates(s, turn, op.kind);
    DropIsGuarded(s, turn, p0, kind);
  }

  /** The effect of one operation. */
  function Step(s: State, turn: nat, op: Op): State {
    if op.kind == Add && s.parts != [] then AddRoute(s, turn)
    else if op.kind == RenameEndpoint && op.path in Pages(s.routes) then EditRoute(s, op.path)
    else if op.kind == Move && op.path in Pages(s.routes) then MovePage(s, turn, op.path)
    else DropPage(s, op.path)
  }

  lemma {:induction false} StepKeepsInv(s: State, turn: nat, p0: int, op: Op)
    requires Inv(s, turn, p0) && Choosable(s, turn, op)
    ensures Inv(Step(s, turn, op), turn + 1, p0)
  {
    ChoosableMeans(s, turn, p0, op);
    assert Distinct(s.routes);
    hide Choosable, FamiliesOk, BirthsOk, SizesOk, AddRoute, EditRoute, MovePage, DropPage, Pages, Distinct;
    match op.kind
    case Add =>
      AddKeepsFamilies(s, turn);
      AddKeepsBirths(s, turn);
      AddKeepsSizes(s, turn, p0);
    case RenameEndpoint => EditKeepsInv(s, turn, p0, op.path);
    case Move =>
      MoveKeepsFamilies(s, turn, op.path);
      MoveKeepsBirths(s, turn, op.path);
      MoveKeepsSizes(s, turn, p0, op.path);
    case Drop =>
      DropKeepsFamilies(s, op.path);
      DropKeepsBirths(s, turn, op.path);
      DropKeepsSizes(s, turn, p0, op.path);
  }

  /** ops is a possible sequence of choices from state s on. */
  ghost predicate Run(s: State, turn: nat, ops: seq<Op>)
    decreases |ops|
  {
    ops == [] || (Choosable(s, turn, ops[0]) && Run(Step(s, turn, ops[0]), turn + 1, ops[1..]))
  }

  ghost function Exec(s: State, turn: nat, ops: seq<Op>): State
    decreases |ops|
  {
    if ops == [] then s else Exec(Step(s, turn, ops[0]), turn + 1, ops[1..])
  }

  /** On every run the invariant holds in every state. */
  lemma {:induction false} RunKeepsInv(s: State, turn: nat, p0: int, ops: seq<Op>)
    requires Inv(s, turn, p0) && Run(s, turn, ops)
    ensures Inv(Exec(s, turn, ops), turn + |ops|, p0)
    decreases |ops|
  {
    hide Inv, Choosable, Step;
    if ops != [] {
      StepKeepsInv(s, turn, p0, ops[0]);
      RunKeepsInv(Step(s, turn, ops[0]), turn + 1, p0, ops[1..]);
    }
  }

  lemma {:induction false} RunSnoc(s: State, turn: nat, ops: seq<Op>, op: Op)
    requires Run(s, turn, ops) && Choosable(Exec(s, turn, ops), turn + |ops|, op)
    ensures Run(s, turn, ops + [op])
    ensures Exec(s, turn, ops + [op]) == Step(Exec(s, turn, ops), turn + |ops|, op)
    decreases |ops|
  {
    hide Choosable, Step;
    if ops != [] {
      RunSnoc(Step(s, turn, ops[0]), turn + 1, ops[1..], op);
      assert (ops + [op])[1..] == ops[1..] + [op];
    } else {
      assert ops + [op] == [op];
    }
  }

  /**
   * What every reachable table guarantees: distinct paths, births recorded for exactly the paths,
   * redirects without cycles, and each page's names resolving to it up to five renamings back.
   */
  lemma {:induction false} ReachableTables(s: State, turn: nat, p0: int, ops: seq<Op>)
    requires Inv(s, turn, p0) && Run(s, turn, ops)
    ensures var t := Exec(s, turn, ops);
      && Distinct(t.routes)
      && t.born.Keys == Paths(t.routes)
      && (forall r :: r in t.routes && r.Redirect? ==> |r.to| > |r.path|)
    ensures forall stem: string, j: nat, e: string :: CleanStem(stem) ==>
      (Resolve(Exec(s, turn, ops).routes, Name(stem, j), 0) == Some(e) <==>
        exists k: nat :: j <= k <= j + 5 && Terminal(Name(stem, k), e) in Exec(s, turn, ops).routes)
  {
    hide Name, CleanStem, Renamed, StemOf, Named, Run;
    RunKeepsInv(s, turn, p0, ops);
    var t := Exec(s, turn, ops);
    hide Exec;
    forall r | r in t.routes && r.Redirect? ensures |r.to| > |r.path| {
      assert r in Elements(t.routes);
      RedirectsAcyclic(Elements(t.routes), r);
    }
    forall stem: string, j: nat, e: string | CleanStem(stem)
      ensures Resolve(t.routes, Name(stem, j), 0) == Some(e) <==>
        exists k: nat :: j <= k <= j + 5 && Terminal(Name(stem, k), e) in t.routes
    {
      ResolvesExactly(t.routes, stem, j, e);
    }
  }

  /** On every run a move is to a fresh target, so MoveKeepsMeaning applies to each move there is. */
  lemma {:induction false} ReachableMoves(s: State, turn: nat, p0: int, ops: seq<Op>, path: string, other: string)
    requires Inv(s, turn, p0) && Run(s, turn, ops)
    requires path in Pages(Exec(s, turn, ops).routes) && other != Renamed(path)
    ensures var t := Exec(s, turn, ops);
      var before := Trace(t.routes, other, 5);
      Resolve(MovePage(t, turn + |ops|, path).routes, other, 0)
        == if before.Reached? && before.at == path && before.hops == 5 then None else Resolve(t.routes, other, 0)
  {
    RunKeepsInv(s, turn, p0, ops);
    var t := Exec(s, turn, ops);
    hide Exec, Run, Renamed;
    MoveIsFresh(t, path);
    MoveKeepsMeaning(t.routes, IndexOf(t.routes, path), Renamed(path), other);
  }

  // ----- the drop as the generator performs it: one `remove` after another -----

  /** `routes.remove(r)`: the first entry equal to r goes. */
  function Remove(routes: seq<Route>, r: Route): seq<Route> {
    if routes == [] then [] else if routes[0] == r then routes[1..] else [routes[0]] + Remove(routes[1..], r)
  }

  function NotIn(gone: set<Route>): Route -> bool {
    (r: Route) => r !in gone
  }

  lemma {:induction false} FilterAgree(routes: seq<Route>, p: Route -> bool, q: Route -> bool)
    requires forall r :: r in routes ==> p(r) == q(r)
    ensures Filter(routes, p) == Filter(routes, q)
  {
    if routes != [] {
      assert routes[0] in routes;
      FilterAgree(routes[1..], p, q);
    }
  }

  lemma {:induction false} FilterAll(routes: seq<Route>, p: Route -> bool)
    requires forall r :: r in routes ==> p(r)
    ensures Filter(routes, p) == routes
  {
    if routes != [] {
      assert routes[0] in routes;
      FilterAll(routes[1..], p);
    }
  }

  lemma {:induction false} RemoveIsFilter(routes: seq<Route>, gone: set<Route>, r: Route)
    requires Distinct(routes) && r in routes && r !in gone
    ensures Remove(Filter(routes, NotIn(gone)), r) == Filter(routes, NotIn(gone + {r}))
  {
    var first, tail := routes[0], routes[1..];
    if first == r {
      OnlyFirst(routes);
      FilterAgree(tail, NotIn(gone), NotIn(gone + {r}));
    } else {
      RemoveIsFilter(tail, gone, r);
    }
    hide Distinct;
    RemoveStep(first, Filter(tail, NotIn(gone)), r);
  }

  lemma {:induction false} OnlyFirst(routes: seq<Route>)
    requires Distinct(routes) && routes != []
    ensures routes[0] !in routes[1..]
  {
  }

  lemma {:induction false} RemoveStep(first: Route, rest: seq<Route>, r: Route)
    ensures Remove([first] + rest, r) == if first == r then rest else [first] + Remove(rest, r)
    ensures [] + rest == rest
  {
    assert ([first] + rest)[1..] == rest;
  }

  /** `for d in doomed: routes.remove(d)` */
  method RemoveEach(ghost routes: seq<Route>, ghost before: set<Route>, start: seq<Route>, doomed: seq<Route>)
    returns (kept: seq<Route>, ghost gone: set<Route>)
    requires Distinct(routes) && Distinct(doomed) && start == Filter(routes, NotIn(before))
    requires forall d :: d in doomed ==> d in routes && d !in before
    ensures kept == Filter(routes, NotIn(gone)) && gone == before + Elements(doomed)
  {
    kept, gone := start, before;
    assert Elements(doomed[..0]) == {};
    for d := 0 to |doomed|
      invariant gone == before + Elements(doomed[..d])
      invariant kept == Filter(routes, NotIn(gone))
    {
      assert doomed[d] in doomed && doomed[d] !in doomed[..d];
      RemoveIsFilter(routes, gone, doomed[d]);
      kept := Remove(kept, doomed[d]);
      gone := gone + {doomed[d]};
      assert Elements(doomed[..d + 1]) == Elements(doomed[..d]) + {doomed[d]};
    }
    assert doomed[..|doomed|] == doomed;
  }

  /** Removing the page and then every redirect to it leaves exactly the surviving routes. */
  method DropByRemoval(routes: seq<Route>, page: Route) returns (kept: seq<Route>)
    requires Distinct(routes) && page in routes && page.Terminal?
    ensures kept == DropRoute(routes, page.path)
  {
    hide Filter, Distinct, Elements;
    FilterAll(routes, NotIn({}));
    RemoveIsFilter(routes, {}, page);
    assert {} + {page} == {page};
    kept := Remove(routes, page);
    FilterDistinct(routes, NotIn({page}));
    var doomed := Filter(kept, PointsAt(page.path));
    FilterDistinct(kept, PointsAt(page.path));
    ghost var gone: set<Route>;
    kept, gone := RemoveEach(routes, {page}, kept, doomed);
    GoneDoesNotSurvive(routes, page, doomed, gone);
    FilterAgree(routes, NotIn(gone), Survives(page.path));
  }

  /** `x.get("redirect_to") == path` */
  function PointsAt(path: string): Route -> bool {
    (x: Route) => x.Redirect? && x.to == path
  }

  lemma {:induction false} GoneDoesNotSurvive(routes: seq<Route>, page: Route, doomed: seq<Route>, gone: set<Route>)
    requires Distinct(routes) && page in routes && page.Terminal?
    requires forall x :: x in doomed <==> x in routes && x != page && PointsAt(page.path)(x)
    requires gone == {page} + Elements(doomed)
    ensures forall r :: r in routes ==> NotIn(gone)(r) == Survives(page.path)(r)
  {
    forall r | r in routes && r.path == page.path
      ensures r == page
    {
      AtDistinct(routes, r);
      AtDistinct(routes, page);
    }
    hide Distinct;
  }

  // ----- the generator -----

  lemma {:induction false} OfferedIsNotEmpty(s: State, turn: int)
    ensures exists kind :: kind in Offered(s, turn)
  {
    var first := Offered(s, turn)[0];
    assert first in Offered(s, turn);
  }

  /**
   * The generator itself, for every outcome of its random choices: each `:|` below draws from a list
   * that is proved nonempty, and the 50 turns form a run of the state machine above.
   */
  method GenS8(segments: seq<string>) returns (routes: seq<Route>, ghost ops: seq<Op>)
    requires Inv(Start(segments), 1, |segments|)
    ensures |ops| == 50 && Run(Start(segments), 1, ops)
    ensures routes == Exec(Start(segments), 1, ops).routes
    ensures Distinct(routes)
  {
    hide Start, Inv, FamiliesOk, BirthsOk, SizesOk, Offered, Candidates, Renamed, Pages, EndpointFor, NextEndpoint;
    var start := Start(segments);
    var born, parts := start.born, start.parts;
    routes, ops := start.routes, [];
    for turn := 1 to 51
      invariant |ops| == turn - 1 && Run(start, 1, ops)
      invariant State(routes, born, parts) == Exec(start, 1, ops)
      invariant Inv(State(routes, born, parts), turn, |segments|)
    {
      var s := State(routes, born, parts);
      OfferedIsNotEmpty(s, turn);
      var kind :| kind in Offered(s, turn);
      DropIsGuarded(s, turn, |segments|, kind);
      NoEmptyChoice(s, turn, |segments|, kind);
      var path :| path in Candidates(s, turn, Branch(s, kind));
      ghost var op := Op(Branch(s, kind), path);
      assert Choosable(s, turn, op);
      ChoosableMeans(s, turn, |segments|, op);
      if kind == Add && parts != [] {
        var segment := parts[|parts| - 1];
        parts := parts[..|parts| - 1];
        routes := routes + [Terminal("/" + segment, EndpointFor(segment))];
        born := born["/" + segment := turn];
      } else if kind == RenameEndpoint {
        var i := IndexOf(routes, path);
        routes := routes[i := Terminal(path, NextEndpoint(routes[i].endpoint))];
      } else if kind == Move {
        var i, target := IndexOf(routes, path), Renamed(path);
        routes := routes[i := Redirect(path, target)] + [Terminal(target, routes[i].endpoint)];
        born := born[target := turn];
      } else {
        routes, born := DropFrom(s, turn, |segments|, path);
      }
      assert State(routes, born, parts) == Step(s, turn, op);
      RunSnoc(start, 1, ops, op);
      StepKeepsInv(s, turn, |segments|, op);
      ops := ops + [op];
    }
    InvMeans(State(routes, born, parts), 51, |segments|);
  }

  method DropFrom(s: State, ghost turn: int, ghost p0: int, path: string) returns (routes: seq<Route>, born: map<string, nat>)
    requires Inv(s, turn, p0) && path in Pages(s.routes)
    ensures State(routes, born, s.parts) == DropPage(s, path)
  {
    var page := s.routes[IndexOf(s.routes, path)];
    routes := DropByRemoval(s.routes, page);
    born := s.born - Gone(s.routes, path);
  }

  lemma {:induction false} InvMeans(s: State, turn: int, p0: int)
    requires Inv(s, turn, p0)
    ensures Distinct(s.routes)
  {
  }
}
