/**
 * The route table of the s8 scenario (benchmarks/multiturn_coding/_gen_long50.py): the embedded
 * `resolve`, the verifier's `_norm`, and what moves, drops and normalization do to resolution.
 */
module Routing {
  import opened Options

  datatype Route = Terminal(path: string, endpoint: string) | Redirect(path: string, to: string)

  type Endpoint = Option<string>

  predicate Distinct(routes: seq<Route>) {
    forall i, j :: 0 <= i < j < |routes| ==> routes[i].path != routes[j].path
  }

  function Paths(routes: seq<Route>): set<string> {
    set r | r in routes :: r.path
  }

  datatype Entry = Absent | Present(route: Route)

  /** The first route with this path: where the scan over the table stops. */
  function At(routes: seq<Route>, path: string): (e: Entry)
    ensures e.Present? ==> e.route in routes && e.route.path == path
    ensures e.Absent? <==> path !in Paths(routes)
  {
    if routes == [] then Absent
    else if routes[0].path == path then assert routes[0] in routes; Present(routes[0])
    else
      assert Paths(routes) == Paths(routes[1..]) + {routes[0].path} by {
        assert routes == [routes[0]] + routes[1..];
      }
      At(routes[1..], path)
  }

  lemma {:induction false} AtDistinct(routes: seq<Route>, r: Route)
    requires Distinct(routes) && r in routes
    ensures At(routes, r.path) == Present(r)
  {
    assert r.path in Paths(routes);
    var i :| 0 <= i < |routes| && routes[i] == r;
    var j :| 0 <= j < |routes| && routes[j] == At(routes, r.path).route;
  }

  /** `resolve(path, depth)` */
  function Resolve(routes: seq<Route>, path: string, depth: nat): Endpoint
    decreases 6 - depth
  {
    if depth > 5 then None else
      match At(routes, path)
      case Absent => None
      case Present(Redirect(_, to)) => Resolve(routes, to, depth + 1)
      case Present(Terminal(_, e)) => Some(e)
  }

  /** The same, scanning the table as the embedded code does. */
  method ResolveByScan(routes: seq<Route>, path: string, depth: nat) returns (e: Endpoint)
    ensures e == Resolve(routes, path, depth)
    decreases 6 - depth
  {
    if depth > 5 {
      return None;
    }
    for i := 0 to |routes|
      invariant At(routes, path) == At(routes[i..], path)
    {
      var r := routes[i];
      assert routes[i..][1..] == routes[i + 1..];
      if r.path == path {
        if r.Redirect? {
          e := ResolveByScan(routes, r.to, depth + 1);
          return;
        }
        return Some(r.endpoint);
      }
    }
    return None;
  }

  // ----- an independent account: chains of redirects -----

  /** steps is a chain of redirects in the table that ends at a page served by endpoint e. */
  ghost predicate IsChain(routes: seq<Route>, steps: seq<string>, e: string) {
    steps != [] &&
    if |steps| == 1 then Terminal(steps[0], e) in routes
    else Redirect(steps[0], steps[1]) in routes && IsChain(routes, steps[1..], e)
  }

  /** A path resolves exactly if a chain of at most 5 - depth redirects leads from it to a page. */
  lemma {:induction false} ResolveFollowsChains(routes: seq<Route>, path: string, depth: nat, e: string)
    requires Distinct(routes)
    ensures Resolve(routes, path, depth) == Some(e) <==>
      exists steps :: IsChain(routes, steps, e) && steps[0] == path && |steps| <= 6 - depth
  {
    if Resolve(routes, path, depth) == Some(e) {
      var steps := ChainOf(routes, path, depth, e);
    }
    if steps :| IsChain(routes, steps, e) && steps[0] == path && |steps| <= 6 - depth {
      ChainResolves(routes, steps, depth, e);
    }
  }

  lemma {:induction false} ChainOf(routes: seq<Route>, path: string, depth: nat, e: string) returns (steps: seq<string>)
    requires Resolve(routes, path, depth) == Some(e)
    ensures IsChain(routes, steps, e) && steps[0] == path && |steps| <= 6 - depth
    decreases 6 - depth
  {
    var r := At(routes, path).route;
    if r.Redirect? {
      var rest := ChainOf(routes, r.to, depth + 1, e);
      steps := [path] + rest;
    } else {
      steps := [path];
    }
  }

  lemma {:induction false} ChainResolves(routes: seq<Route>, steps: seq<string>, depth: nat, e: string)
    requires Distinct(routes)
    requires IsChain(routes, steps, e) && |steps| <= 6 - depth
    ensures Resolve(routes, steps[0], depth) == Some(e)
    decreases |steps|
  {
    if |steps| == 1 {
      AtDistinct(routes, Terminal(steps[0], e));
    } else {
      AtDistinct(routes, Redirect(steps[0], steps[1]));
      ChainResolves(routes, steps[1..], depth + 1, e);
    }
  }

  // ----- where a path leads -----

  /** Following redirects ends nowhere, runs out of budget, or reaches a page after some hops. */
  datatype Outcome = Nowhere | TooLong | Reached(at: string, endpoint: string, hops: nat)

  function Trace(routes: seq<Route>, path: string, budget: nat): Outcome
    decreases budget
  {
    match At(routes, path)
    case Absent => Nowhere
    case Present(Terminal(_, e)) => Reached(path, e, 0)
    case Present(Redirect(_, to)) => if budget == 0 then TooLong else AfterHop(Trace(routes, to, budget - 1))
  }

  function AfterHop(o: Outcome): Outcome {
    if o.Reached? then o.(hops := o.hops + 1) else o
  }

  function EndpointOf(o: Outcome): Endpoint {
    if o.Reached? then Some(o.endpoint) else None
  }

  lemma {:induction false} ResolveIsTrace(routes: seq<Route>, path: string, depth: nat)
    requires depth <= 5
    ensures Resolve(routes, path, depth) == EndpointOf(Trace(routes, path, 5 - depth))
    decreases 5 - depth
  {
    var entry := At(routes, path);
    if entry.Present? && entry.route.Redirect? && depth < 5 {
      ResolveIsTrace(routes, entry.route.to, depth + 1);
    }
  }

  lemma {:induction false} TraceHops(routes: seq<Route>, path: string, budget: nat)
    ensures Trace(routes, path, budget).Reached? ==> Trace(routes, path, budget).hops <= budget
    decreases budget
  {
    var entry := At(routes, path);
    if entry.Present? && entry.route.Redirect? && budget > 0 {
      TraceHops(routes, entry.route.to, budget - 1);
    }
  }

  // ----- moving a page -----

  /** The old path becomes a redirect to a new terminal route at the end of the table. */
  function MoveRoute(routes: seq<Route>, source: nat, target: string): seq<Route>
    requires source < |routes| && routes[source].Terminal?
  {
    routes[source := Redirect(routes[source].path, target)] + [Terminal(target, routes[source].endpoint)]
  }

  ghost predicate PointsTo(routes: seq<Route>, path: string) {
    exists r :: r in routes && r.Redirect? && r.to == path
  }

  /** The situation of every move: distinct paths, a page, and a target nothing knows yet. */
  ghost predicate Movable(routes: seq<Route>, source: nat, target: string) {
    && Distinct(routes)
    && source < |routes| && routes[source].Terminal?
    && target !in Paths(routes) && !PointsTo(routes, target)
  }

  lemma {:induction false} MovedTable(routes: seq<Route>, source: nat, target: string)
    requires Movable(routes, source, target)
    ensures var moved := MoveRoute(routes, source, target);
      && Distinct(moved)
      && forall r :: r in moved <==>
          (r in routes && r.path != routes[source].path) || r == Redirect(routes[source].path, target)
          || r == Terminal(target, routes[source].endpoint)
  {
    var moved := MoveRoute(routes, source, target);
    assert forall i :: 0 <= i < |routes| ==> moved[i].path == routes[i].path && routes[i] in routes;
    assert forall i :: 0 <= i < |routes| && i != source ==> moved[i] == routes[i];
    assert moved[source] == Redirect(routes[source].path, target);
    assert moved[|routes|] == Terminal(target, routes[source].endpoint);
    forall r | r in routes && r.path != routes[source].path ensures r in moved {
      var i :| 0 <= i < |routes| && routes[i] == r;
      assert moved[i] == r;
    }
  }

  lemma {:induction false} AtMoved(routes: seq<Route>, source: nat, target: string, path: string)
    requires Movable(routes, source, target)
    ensures At(MoveRoute(routes, source, target), path)
         == if path == target then Present(Terminal(target, routes[source].endpoint))
            else if path == routes[source].path then Present(Redirect(path, target))
            else At(routes, path)
  {
    var moved := MoveRoute(routes, source, target);
    MovedTable(routes, source, target);
    hide MoveRoute;
    if path == target {
      AtDistinct(moved, Terminal(target, routes[source].endpoint));
    } else if path == routes[source].path {
      AtDistinct(moved, Redirect(path, target));
    } else if path in Paths(routes) {
      AtDistinct(moved, At(routes, path).route);
    }
  }

  /** What a move does to the outcome of following a path within a budget. */
  function MovedOutcome(o: Outcome, source: string, target: string, budget: nat): Outcome {
    if o.Reached? && o.at == source then
      if o.hops < budget then Reached(target, o.endpoint, o.hops + 1) else TooLong
    else o
  }

  /**
   * A move to a fresh path adds one hop to the paths that led to the moved page and changes nothing
   * else, for every budget.
   */
  lemma {:induction false} MoveTrace(routes: seq<Route>, source: nat, target: string, path: string, budget: nat)
    requires Movable(routes, source, target) && path != target
    ensures Trace(MoveRoute(routes, source, target), path, budget)
         == MovedOutcome(Trace(routes, path, budget), routes[source].path, target, budget)
    decreases budget
  {
    hide Trace, MoveRoute, MovedOutcome, At;
    var entry := At(routes, path);
    if path == routes[source].path {
      MoveTraceOfPage(routes, source, target, budget);
    } else if entry.Present? && entry.route.Redirect? && budget > 0 {
      NotToTarget(routes, source, target, entry.route);
      MoveTrace(routes, source, target, entry.route.to, budget - 1);
      AtMoved(routes, source, target, path);
      MoveTraceHop(routes, MoveRoute(routes, source, target), path, routes[source].path, target, budget);
    } else {
      MoveTraceStops(routes, source, target, path, budget);
    }
  }

  lemma {:induction false} NotToTarget(routes: seq<Route>, source: nat, target: string, r: Route)
    requires Movable(routes, source, target) && r in routes && r.Redirect?
    ensures r.to != target
  {
  }

  lemma {:induction false} MoveTraceOfPage(routes: seq<Route>, source: nat, target: string, budget: nat)
    requires Movable(routes, source, target)
    ensures var path := routes[source].path;
      Trace(MoveRoute(routes, source, target), path, budget)
        == MovedOutcome(Trace(routes, path, budget), path, target, budget)
  {
    AtDistinct(routes, routes[source]);
    hide MoveRoute, Movable, Distinct, At;
    var path := routes[source].path;
    NewIsNotOld(routes, source, target);
    AtMoved(routes, source, target, path);
    AtMoved(routes, source, target, target);
  }

  lemma {:induction false} NewIsNotOld(routes: seq<Route>, source: nat, target: string)
    requires Movable(routes, source, target)
    ensures routes[source].path != target
  {
    assert routes[source] in routes;
  }

  lemma {:induction false} MoveTraceHop(
      before: seq<Route>, after: seq<Route>, path: string, source: string, target: string, budget: nat)
    requires budget > 0 && At(before, path).Present? && At(before, path).route.Redirect? && At(after, path) == At(before, path)
    requires var to := At(before, path).route.to;
      Trace(after, to, budget - 1) == MovedOutcome(Trace(before, to, budget - 1), source, target, budget - 1)
    ensures Trace(after, path, budget) == MovedOutcome(Trace(before, path, budget), source, target, budget)
  {
    hide At, MovedOutcome, AfterHop, Trace;
    TraceHop(before, path, budget);
    TraceHop(after, path, budget);
    var to := At(before, path).route.to;
    TraceHops(before, to, budget - 1);
    MovedHop(Trace(before, to, budget - 1), source, target, budget);
  }

  lemma {:induction false} TraceHop(routes: seq<Route>, path: string, budget: nat)
    requires At(routes, path).Present? && At(routes, path).route.Redirect? && budget > 0
    ensures Trace(routes, path, budget) == AfterHop(Trace(routes, At(routes, path).route.to, budget - 1))
  {
    hide At;
  }

  lemma {:induction false} MoveTraceStops(routes: seq<Route>, source: nat, target: string, path: string, budget: nat)
    requires Movable(routes, source, target) && path != target && path != routes[source].path
    requires At(routes, path).Absent? || At(routes, path).route.Terminal? || budget == 0
    ensures Trace(MoveRoute(routes, source, target), path, budget)
         == MovedOutcome(Trace(routes, path, budget), routes[source].path, target, budget)
  {
    hide MoveRoute, Movable, At;
    AtMoved(routes, source, target, path);
  }

  lemma {:induction false} MovedHop(o: Outcome, source: string, target: string, budget: nat)
    requires budget > 0 && (o.Reached? ==> o.hops <= budget - 1)
    ensures MovedOutcome(AfterHop(o), source, target, budget) == AfterHop(MovedOutcome(o, source, target, budget - 1))
  {
  }

  /**
   * "Keep the old path working": after the move a path resolves as before, unless it reached the moved
   * page by all five redirects the table follows; exactly then it stops resolving.
   */
  lemma {:induction false} MoveKeepsMeaning(routes: seq<Route>, source: nat, target: string, path: string)
    requires Movable(routes, source, target) && path != target
    ensures var before := Trace(routes, path, 5);
      Resolve(MoveRoute(routes, source, target), path, 0)
        == if before.Reached? && before.at == routes[source].path && before.hops == 5 then None
           else Resolve(routes, path, 0)
    ensures Resolve(MoveRoute(routes, source, target), target, 0) == Some(routes[source].endpoint)
  {
    var moved := MoveRoute(routes, source, target);
    MoveTrace(routes, source, target, path, 5);
    ResolveIsTrace(routes, path, 0);
    ResolveIsTrace(moved, path, 0);
    TraceHops(routes, path, 5);
    AtMoved(routes, source, target, target);
  }

  /** In particular every path at most four redirects away keeps its endpoint. */
  lemma {:induction false} MoveKeepsNearPaths(routes: seq<Route>, source: nat, target: string, path: string)
    requires Movable(routes, source, target)
    requires Trace(routes, path, 4).Reached?
    ensures Resolve(MoveRoute(routes, source, target), path, 0) == Some(Trace(routes, path, 4).endpoint)
  {
    assert path in Paths(routes);
    TraceMonotone(routes, path, 4);
    TraceHops(routes, path, 4);
    ResolveIsTrace(routes, path, 0);
    MoveKeepsMeaning(routes, source, target, path);
  }

  lemma {:induction false} TraceMonotone(routes: seq<Route>, path: string, budget: nat)
    requires !Trace(routes, path, budget).TooLong?
    ensures Trace(routes, path, budget + 1) == Trace(routes, path, budget)
    decreases budget
  {
    var entry := At(routes, path);
    if entry.Present? && entry.route.Redirect? {
      TraceMonotone(routes, entry.route.to, budget - 1);
    }
  }

  // ----- removing routes -----

  function Filter(routes: seq<Route>, keep: Route -> bool): (kept: seq<Route>)
    ensures forall r :: r in kept <==> r in routes && keep(r)
  {
    if routes == [] then []
    else (if keep(routes[0]) then [routes[0]] else []) + Filter(routes[1..], keep)
  }

  lemma {:induction false} FilterDistinct(routes: seq<Route>, keep: Route -> bool)
    requires Distinct(routes)
    ensures Distinct(Filter(routes, keep))
  {
    if routes != [] {
      FilterDistinct(routes[1..], keep);
      var rest := Filter(routes[1..], keep);
      forall j | 0 <= j < |rest| ensures rest[j].path != routes[0].path {
        assert rest[j] in rest;
      }
    }
  }

  lemma {:induction false} AtFilter(routes: seq<Route>, keep: Route -> bool, path: string)
    requires Distinct(routes)
    ensures At(Filter(routes, keep), path)
         == if At(routes, path).Present? && keep(At(routes, path).route) then At(routes, path) else Absent
  {
    var kept := Filter(routes, keep);
    FilterDistinct(routes, keep);
    if r :| r in kept && r.path == path {
      AtDistinct(routes, r);
      AtDistinct(kept, r);
    }
  }

  /** What a drop leaves: neither the page nor the redirects that point straight at it. */
  function Survives(page: string): Route -> bool {
    (r: Route) => r.path != page && (r.Redirect? ==> r.to != page)
  }

  function DropRoute(routes: seq<Route>, page: string): seq<Route> {
    Filter(routes, Survives(page))
  }

  /** Dropping a page unresolves exactly the paths that led to it. */
  lemma {:induction false} DropTrace(routes: seq<Route>, page: Route, path: string, budget: nat)
    requires Distinct(routes) && page in routes && page.Terminal?
    ensures var before := Trace(routes, path, budget);
      EndpointOf(Trace(DropRoute(routes, page.path), path, budget))
        == if before.Reached? && before.at == page.path then None else EndpointOf(before)
    decreases budget
  {
    AtFilter(routes, Survives(page.path), path);
    hide Filter;
    AtDistinct(routes, page);
    var entry := At(routes, path);
    if entry.Present? && entry.route.Redirect? && budget > 0 {
      DropTrace(routes, page, entry.route.to, budget - 1);
    }
  }

  // ----- the verifier's normalization -----

  /** A route that does not dangle: a page, or a redirect to a path in the table. */
  function Lands(live: set<string>): Route -> bool {
    (r: Route) => r.Redirect? ==> r.to in live
  }

  /** `_norm`: redirects to a path that is not in the table are left out. One pass, not a fixpoint. */
  function Norm(routes: seq<Route>): seq<Route> {
    Filter(routes, Lands(Paths(routes)))
  }

  /** A dangling redirect hides whatever else the table holds under its path. */
  predicate Hidden(routes: seq<Route>, path: string) {
    var entry := At(routes, path);
    entry.Present? && !Lands(Paths(routes))(entry.route)
  }

  /** Filtering keeps the first route of a path if it keeps that route, also when paths repeat. */
  lemma {:induction false} AtKept(routes: seq<Route>, keep: Route -> bool, path: string)
    ensures At(routes, path).Absent? ==> At(Filter(routes, keep), path).Absent?
    ensures At(routes, path).Present? && keep(At(routes, path).route) ==> At(Filter(routes, keep), path) == At(routes, path)
  {
    if routes != [] {
      AtKept(routes[1..], keep, path);
      var rest := Filter(routes[1..], keep);
      assert ([routes[0]] + rest)[1..] == rest;
      assert [] + rest == rest;
    }
  }

  /** Fewer remaining hops never make a path resolve. */
  lemma {:induction false} ResolveMonotone(routes: seq<Route>, path: string, depth: nat)
    requires Resolve(routes, path, depth + 1) != None
    ensures Resolve(routes, path, depth) != None
    decreases 6 - depth
  {
    var entry := At(routes, path);
    if entry.route.Redirect? {
      ResolveMonotone(routes, entry.route.to, depth + 1);
    }
  }

  lemma {:induction false} ResolveFromStart(routes: seq<Route>, path: string, depth: nat)
    requires Resolve(routes, path, 0) == None
    ensures Resolve(routes, path, depth) == None
  {
    if depth > 0 {
      ResolveFromStart(routes, path, depth - 1);
      if Resolve(routes, path, depth) != None {
        ResolveMonotone(routes, path, depth - 1);
      }
    }
  }

  /** A hidden path resolves to nothing before normalizing. */
  lemma {:induction false} HiddenIsNone(routes: seq<Route>, path: string, depth: nat)
    requires Hidden(routes, path)
    ensures Resolve(routes, path, depth) == None
  {
  }

  lemma {:induction false} NormKeepsUnhidden(routes: seq<Route>, path: string, depth: nat)
    requires forall p :: Hidden(routes, p) ==> Resolve(Norm(routes), p, 0) == None
    ensures Resolve(Norm(routes), path, depth) == Resolve(routes, path, depth)
    decreases 6 - depth
  {
    AtKept(routes, Lands(Paths(routes)), path);
    hide Filter, Paths;
    var entry := At(routes, path);
    if Hidden(routes, path) {
      HiddenIsNone(routes, path, depth);
      ResolveFromStart(Norm(routes), path, depth);
    } else if depth <= 5 && entry.Present? && entry.route.Redirect? {
      NormKeepsUnhidden(routes, entry.route.to, depth + 1);
    }
  }

  /** Normalizing changes no resolution if and only if what it uncovers behind dangling redirects resolves to nothing. */
  lemma {:induction false} NormKeepsMeaningExactly(routes: seq<Route>)
    ensures (forall path, depth: nat :: Resolve(Norm(routes), path, depth) == Resolve(routes, path, depth))
      <==> (forall path :: Hidden(routes, path) ==> Resolve(Norm(routes), path, 0) == None)
  {
    hide Norm, Hidden, Resolve;
    if forall path :: Hidden(routes, path) ==> Resolve(Norm(routes), path, 0) == None {
      forall path, depth: nat
        ensures Resolve(Norm(routes), path, depth) == Resolve(routes, path, depth)
      {
        NormKeepsUnhidden(routes, path, depth);
      }
    }
    forall path | Hidden(routes, path)
      ensures Resolve(routes, path, 0) == None
    {
      HiddenIsNone(routes, path, 0);
    }
  }

  /** In particular it changes none, for any path and depth, when paths are distinct: then it uncovers nothing. */
  lemma {:induction false} NormKeepsMeaning(routes: seq<Route>, path: string, depth: nat)
    requires Distinct(routes)
    ensures Resolve(Norm(routes), path, depth) == Resolve(routes, path, depth)
  {
    hide Norm, Resolve, Hidden;
    forall p | Hidden(routes, p)
      ensures Resolve(Norm(routes), p, 0) == None
    {
      HiddenIsGone(routes, p);
    }
    NormKeepsMeaningExactly(routes);
  }

  lemma {:induction false} HiddenIsGone(routes: seq<Route>, path: string)
    requires Distinct(routes) && Hidden(routes, path)
    ensures Resolve(Norm(routes), path, 0) == None
  {
    AtFilter(routes, Lands(Paths(routes)), path);
    hide Filter;
  }

  lemma {:induction false} FilterTwo(r: Route, s: Route, keep: Route -> bool)
    ensures Filter([r], keep) == if keep(r) then [r] else []
    ensures Filter([r, s], keep) == (if keep(r) then [r] else []) + (if keep(s) then [s] else [])
  {
    assert [r][1..] == [];
    assert [s][1..] == [];
    assert [r, s][1..] == [s];
  }

  /** With a repeated path it can uncover a page. */
  lemma {:induction false} NormNeedsDistinctPaths(path: string, gone: string, page: string)
    requires path != gone
    ensures var routes := [Redirect(path, gone), Terminal(path, page)];
      Resolve(routes, path, 0) == None && Resolve(Norm(routes), path, 0) == Some(page)
  {
    var routes := [Redirect(path, gone), Terminal(path, page)];
    assert Paths(routes) == {path} by {
      assert routes[0] in routes;
    }
    FilterTwo(routes[0], routes[1], Lands({path}));
    assert Norm(routes) == [Terminal(path, page)];
  }

  /** What normalizing keeps, as often as it is there: pages, and redirects to a path that some route has. */
  lemma {:induction false} NormKeeps(routes: seq<Route>, r: Route)
    ensures multiset(Norm(routes))[r] ==
      if r.Terminal? || (exists q :: q in routes && q.path == r.to) then multiset(routes)[r] else 0
  {
    FilterCounts(routes, Lands(Paths(routes)), r);
  }

  lemma {:induction false} FilterCounts(routes: seq<Route>, keep: Route -> bool, r: Route)
    ensures multiset(Filter(routes, keep))[r] == if keep(r) then multiset(routes)[r] else 0
  {
    if routes != [] {
      FilterCounts(routes[1..], keep, r);
      assert routes == [routes[0]] + routes[1..];
    }
  }

  ghost predicate NoneDangles(routes: seq<Route>) {
    forall r :: r in routes ==> Lands(Paths(routes))(r)
  }

  /** One pass is enough exactly when every target of a kept redirect has an entry that does not dangle itself. */
  lemma {:induction false} NormIsCleanExactly(routes: seq<Route>)
    ensures NoneDangles(Norm(routes)) <==>
      forall r :: r in routes && r.Redirect? && r.to in Paths(routes) ==>
        exists q :: q in routes && q.path == r.to && Lands(Paths(routes))(q)
  {
    var live, once := Paths(routes), Norm(routes);
    hide Norm, Filter;
    forall path
      ensures path in Paths(once) <==> exists q :: q in routes && q.path == path && Lands(live)(q)
    {
      NormPaths(routes, path);
    }
    forall r
      ensures r in once <==> r in routes && Lands(live)(r)
    {
      NormElements(routes, r);
    }
  }

  lemma {:induction false} NormElements(routes: seq<Route>, r: Route)
    ensures r in Norm(routes) <==> r in routes && Lands(Paths(routes))(r)
  {
  }

  lemma {:induction false} NormPaths(routes: seq<Route>, path: string)
    ensures path in Paths(Norm(routes)) <==> exists q :: q in routes && q.path == path && Lands(Paths(routes))(q)
  {
  }

  /** One pass is not enough: normalizing can leave a redirect that dangles. */
  lemma {:induction false} NormLeavesDangling(a: string, b: string, gone: string)
    requires a != b && b != gone && a != gone
    ensures var routes := [Redirect(a, b), Redirect(b, gone)];
      Norm(routes) == [Redirect(a, b)] && Norm(Norm(routes)) == []
  {
    var routes := [Redirect(a, b), Redirect(b, gone)];
    assert routes[0] in routes && routes[1] in routes;
    assert Paths(routes) == {a, b};
    FilterTwo(routes[0], routes[1], Lands({a, b}));
    var once := [Redirect(a, b)];
    assert once[0] in once;
    assert Paths(once) == {a};
    FilterTwo(once[0], once[0], Lands({a}));
  }

  lemma {:induction false} SameRoutesSameMeaning(a: seq<Route>, b: seq<Route>, path: string, depth: nat)
    requires Distinct(a) && Distinct(b)
    requires forall r :: r in a <==> r in b
    ensures Resolve(a, path, depth) == Resolve(b, path, depth)
    decreases 6 - depth
  {
    assert Paths(a) == Paths(b);
    if path in Paths(a) {
      var r := At(a, path).route;
      AtDistinct(b, r);
      if depth <= 5 && r.Redirect? {
        SameRoutesSameMeaning(a, b, r.to, depth + 1);
      }
    }
  }

  lemma {:induction false} AtMostOnce(routes: seq<Route>, r: Route)
    requires Distinct(routes)
    ensures multiset(routes)[r] <= 1
  {
    if routes != [] {
      AtMostOnce(routes[1..], r);
      assert routes == [routes[0]] + routes[1..];
      assert routes[0] !in routes[1..];
    }
  }

  lemma {:induction false} Twice(routes: seq<Route>, i: nat, j: nat)
    requires i < j < |routes| && routes[i] == routes[j]
    ensures multiset(routes)[routes[i]] >= 2
  {
    var front, back := routes[..j], routes[j..];
    assert routes == front + back && front[i] in front && back[0] in back;
    assert multiset(routes) == multiset(front) + multiset(back);
    assert routes[i] in multiset(front) && routes[i] in multiset(back);
  }

  /** A rearrangement of a table with distinct paths has distinct paths. */
  lemma {:induction false} DistinctRearranged(a: seq<Route>, b: seq<Route>)
    requires multiset(a) == multiset(b) && Distinct(b)
    ensures Distinct(a)
  {
    forall i, j | 0 <= i < j < |a|
      ensures a[i].path != a[j].path
    {
      assert a[i] in multiset(b) && a[j] in multiset(b);
      AtDistinct(b, a[i]);
      AtDistinct(b, a[j]);
      AtMostOnce(b, a[i]);
      if a[i] == a[j] {
        Twice(a, i, j);
      }
    }
  }

  /**
   * The verifier's table comparison and its behavioural probes: a table of any kind that agrees after normalization, in
   * whatever order, with an expected one of distinct paths resolves every path as expected if and only if no dangling
   * redirect of it hides a path that should resolve. With distinct paths none does.
   */
  lemma {:induction false} EqualNormsResolveAlike(got: seq<Route>, expected: seq<Route>)
    requires Distinct(expected)
    requires multiset(Norm(got)) == multiset(Norm(expected))
    ensures (forall path, depth: nat :: Resolve(got, path, depth) == Resolve(expected, path, depth))
      <==> (forall path :: Hidden(got, path) ==> Resolve(expected, path, 0) == None)
    ensures Distinct(got) ==> forall path :: Hidden(got, path) ==> Resolve(expected, path, 0) == None
  {
    hide Norm, Resolve, Hidden, Distinct;
    forall path, depth: nat
      ensures Resolve(Norm(got), path, depth) == Resolve(expected, path, depth)
    {
      NormsResolveAlike(got, expected, path, depth);
    }
    NormKeepsMeaningExactly(got);
    if Distinct(got) {
      forall path | Hidden(got, path)
        ensures Resolve(expected, path, 0) == None
      {
        HiddenIsGone(got, path);
      }
    }
  }

  lemma {:induction false} NormsResolveAlike(got: seq<Route>, expected: seq<Route>, path: string, depth: nat)
    requires Distinct(expected)
    requires multiset(Norm(got)) == multiset(Norm(expected))
    ensures Resolve(Norm(got), path, depth) == Resolve(expected, path, depth)
  {
    NormKeepsMeaning(expected, path, depth);
    FilterDistinct(expected, Lands(Paths(expected)));
    DistinctRearranged(Norm(got), Norm(expected));
    forall r ensures r in Norm(got) <==> r in Norm(expected) {
      assert r in multiset(Norm(got)) <==> r in multiset(Norm(expected));
    }
    hide Resolve, Distinct;
    SameRoutesSameMeaning(Norm(got), Norm(expected), path, depth);
  }
}
