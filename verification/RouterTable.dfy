/**
 * What every reachable route table of the s8 replay looks like, on sets of routes: families of names
 * with at most one page each, and every earlier name of a page a redirect to the next one.
 */
module RouterTable {
  import opened Names
  import opened Options
  import opened Routing

  function Elements(routes: seq<Route>): set<Route> {
    set r | r in routes
  }

  /** Every path is a name, and a redirect points to its own path's renaming. */
  ghost predicate Shaped(table: set<Route>) {
    forall r :: r in table ==> Named(r.path) && (r.Redirect? ==> r.to == Renamed(r.path))
  }

  /** A page has the longest path of its family: it is the family's only page and its latest name. */
  ghost predicate PagesLast(table: set<Route>) {
    forall t, r :: t in table && t.Terminal? && r in table && StemOf(r.path) == StemOf(t.path) && r != t
      ==> |r.path| < |t.path|
  }

  /** A page that has been renamed k times is reached from each of its k earlier names. */
  ghost predicate Linked(table: set<Route>) {
    forall stem: string, k: nat, j: nat, e: string ::
      CleanStem(stem) && j < k && Terminal(Name(stem, k), e) in table
      ==> Redirect(Name(stem, j), Name(stem, j + 1)) in table
  }

  ghost predicate TableOk(table: set<Route>) {
    Shaped(table) && PagesLast(table) && Linked(table)
  }

  // ----- the operations keep the shape -----

  lemma {:induction false} AddKeepsShape(table: set<Route>, p: string, e: string)
    requires Shaped(table) && PagesLast(table) && CleanStem(p)
    requires forall r :: r in table ==> StemOf(r.path) != p
    ensures Shaped(table + {Terminal(p, e)}) && PagesLast(table + {Terminal(p, e)})
  {
    hide StemOf, Named, Renamed, Name, CleanStem;
    NameIsNamed(p, 0);
    NameAtZero(p);
  }

  lemma {:induction false} NameAtZero(p: string)
    ensures Name(p, 0) == p
  {
  }

  lemma {:induction false} AddKeepsLinks(table: set<Route>, p: string, e: string)
    requires Linked(table) && CleanStem(p)
    ensures Linked(table + {Terminal(p, e)})
  {
    hide Name, CleanStem;
    NameAtZero(p);
    var after := table + {Terminal(p, e)};
    forall stem: string, k: nat, j: nat, f: string | CleanStem(stem) && j < k && Terminal(Name(stem, k), f) in after
      ensures Redirect(Name(stem, j), Name(stem, j + 1)) in after
    {
      NameInjective(stem, k, p, 0);
    }
  }

  lemma {:induction false} EditKeepsTable(table: set<Route>, page: Route, e: string)
    requires TableOk(table) && page in table && page.Terminal?
    ensures TableOk(table - {page} + {Terminal(page.path, e)})
  {
    hide StemOf, Named, Renamed, Name, CleanStem;
    var after := table - {page} + {Terminal(page.path, e)};
    forall stem: string, k: nat, j: nat, f: string | CleanStem(stem) && j < k && Terminal(Name(stem, k), f) in after
      ensures Redirect(Name(stem, j), Name(stem, j + 1)) in after
    {
      if Terminal(Name(stem, k), f) !in table {
        assert Terminal(Name(stem, k), page.endpoint) in table;
      }
    }
  }

  /** The table after a move of a page to its next name. */
  function Moved(table: set<Route>, page: Route): set<Route>
    requires page.Terminal?
  {
    table - {page} + {Redirect(page.path, Renamed(page.path)), Terminal(Renamed(page.path), page.endpoint)}
  }

  /** No path of the table is the page's next name and no redirect points to it: a move's target is fresh. */
  lemma {:induction false} MoveTargetFresh(table: set<Route>, page: Route, r: Route)
    requires TableOk(table) && page in table && page.Terminal? && r in table
    ensures r.path != Renamed(page.path)
    ensures r.Redirect? && r.path != page.path ==> r.to != Renamed(page.path)
  {
    RenamedStaysInFamily(page.path);
    if r.Redirect? && r.to == Renamed(page.path) {
      RenamedInjective(r.path, page.path);
    }
  }

  lemma {:induction false} RenamedInjective(a: string, b: string)
    requires Named(a) && Named(b) && Renamed(a) == Renamed(b)
    ensures a == b
  {
    hide StemOf, Name, Renamed;
    var j := PlaceOf(a);
    var k := PlaceOf(b);
    NameInjective(StemOf(a), j + 1, StemOf(b), k + 1);
  }

  lemma {:induction false} MoveKeepsShape(table: set<Route>, page: Route)
    requires TableOk(table) && page in table && page.Terminal?
    ensures Shaped(Moved(table, page)) && PagesLast(Moved(table, page))
  {
    RenamedStaysInFamily(page.path);
    hide StemOf, Named, Renamed;
  }

  lemma {:induction false} MoveKeepsLinks(table: set<Route>, page: Route)
    requires TableOk(table) && page in table && page.Terminal?
    ensures Linked(Moved(table, page))
  {
    var after := Moved(table, page);
    forall stem: string, k: nat, j: nat, e: string | CleanStem(stem) && j < k && Terminal(Name(stem, k), e) in after
      ensures Redirect(Name(stem, j), Name(stem, j + 1)) in after
    {
      if Terminal(Name(stem, k), e) !in table {
        MovedPageLinks(table, page, stem, k, j);
      }
    }
  }

  lemma {:induction false} MovedPageLinks(table: set<Route>, page: Route, stem: string, k: nat, j: nat)
    requires TableOk(table) && page in table && page.Terminal?
    requires CleanStem(stem) && j < k && Name(stem, k) == Renamed(page.path)
    ensures Redirect(Name(stem, j), Name(stem, j + 1)) in Moved(table, page)
  {
    hide StemOf, Name, Renamed, CleanStem, Named;
    var i := PlaceOf(page.path);
    NameInjective(stem, k, StemOf(page.path), i + 1);
    if j < i {
      assert Terminal(Name(stem, i), page.endpoint) in table;
    }
  }

  /** The table after a drop: without the page and the redirects straight to it. */
  function Dropped(table: set<Route>, page: string): set<Route> {
    set r | r in table && Survives(page)(r)
  }

  lemma {:induction false} DropKeepsTable(table: set<Route>, page: Route)
    requires TableOk(table) && page in table && page.Terminal?
    ensures TableOk(Dropped(table, page.path))
  {
    var after := Dropped(table, page.path);
    forall stem: string, k: nat, j: nat, e: string | CleanStem(stem) && j < k && Terminal(Name(stem, k), e) in after
      ensures Redirect(Name(stem, j), Name(stem, j + 1)) in after
    {
      OtherFamilySurvives(table, page, stem, k, j, e);
    }
    hide StemOf, Named, Renamed, Name, Linked;
  }

  lemma {:induction false} OtherFamilySurvives(table: set<Route>, page: Route, stem: string, k: nat, j: nat, e: string)
    requires TableOk(table) && page in table && page.Terminal?
    requires CleanStem(stem) && j < k && Terminal(Name(stem, k), e) in Dropped(table, page.path)
    ensures Redirect(Name(stem, j), Name(stem, j + 1)) in Dropped(table, page.path)
  {
    var t := Terminal(Name(stem, k), e);
    StemOfName(stem, k);
    StemOfName(stem, j);
    StemOfName(stem, j + 1);
    assert t != page;
    assert StemOf(page.path) != stem;
  }

  // ----- resolution in such a table -----

  /** A page's earlier names lead to it, one hop per renaming. */
  lemma {:induction false} TraceToPage(routes: seq<Route>, stem: string, k: nat, j: nat, e: string, budget: nat)
    requires Distinct(routes) && Linked(Elements(routes))
    requires CleanStem(stem) && j <= k && Terminal(Name(stem, k), e) in routes
    ensures Trace(routes, Name(stem, j), budget)
         == if k - j <= budget then Reached(Name(stem, k), e, k - j) else TooLong
    decreases budget
  {
    hide Name;
    if j == k {
      AtDistinct(routes, Terminal(Name(stem, k), e));
    } else {
      AtDistinct(routes, Redirect(Name(stem, j), Name(stem, j + 1)));
      if budget > 0 {
        TraceToPage(routes, stem, k, j + 1, e, budget - 1);
      }
    }
  }

  /** Redirects never leave a family: what a name leads to is a later name of the same stem. */
  lemma {:induction false} TraceInFamily(routes: seq<Route>, stem: string, j: nat, budget: nat)
    requires Shaped(Elements(routes)) && CleanStem(stem)
    requires Trace(routes, Name(stem, j), budget).Reached?
    ensures var o := Trace(routes, Name(stem, j), budget);
      o.hops <= budget && o.at == Name(stem, j + o.hops) && Terminal(o.at, o.endpoint) in routes
    decreases budget
  {
    hide Name, Renamed, Named, CleanStem;
    var r := At(routes, Name(stem, j)).route;
    assert r in Elements(routes);
    if r.Redirect? {
      RenamedName(stem, j);
      TraceInFamily(routes, stem, j + 1, budget - 1);
    }
  }

  /**
   * Resolution characterized: a name resolves to an endpoint exactly if the family's page has that
   * endpoint and is at most five renamings ahead.
   */
  lemma {:induction false} ResolvesExactly(routes: seq<Route>, stem: string, j: nat, e: string)
    requires Distinct(routes) && TableOk(Elements(routes)) && CleanStem(stem)
    ensures Resolve(routes, Name(stem, j), 0) == Some(e) <==>
      exists k: nat :: j <= k <= j + 5 && Terminal(Name(stem, k), e) in routes
  {
    hide Name, Renamed, Named, StemOf;
    ResolveIsTrace(routes, Name(stem, j), 0);
    var o := Trace(routes, Name(stem, j), 5);
    if o.Reached? {
      TraceInFamily(routes, stem, j, 5);
    }
    if k: nat :| j <= k <= j + 5 && Terminal(Name(stem, k), e) in routes {
      TraceToPage(routes, stem, k, j, e, 5);
    }
  }

  /** Redirects strictly lengthen the path, so the redirect relation has no cycle. */
  lemma {:induction false} RedirectsAcyclic(table: set<Route>, r: Route)
    requires Shaped(table) && r in table && r.Redirect?
    ensures |r.to| > |r.path|
  {
    RenamedStaysInFamily(r.path);
  }

  /** The limit bites on the sixth move of a page: its first name resolved before and no longer does. */
  lemma {:induction false} SixthMoveUnresolvesFirstName(routes: seq<Route>, page: nat, stem: string, e: string)
    requires Distinct(routes) && TableOk(Elements(routes)) && CleanStem(stem)
    requires page < |routes| && routes[page] == Terminal(Name(stem, 5), e)
    ensures Resolve(routes, Name(stem, 0), 0) == Some(e)
    ensures Resolve(MoveRoute(routes, page, Name(stem, 6)), Name(stem, 0), 0) == None
  {
    hide Name, Renamed, Named, StemOf;
    RenamedName(stem, 5);
    TraceToPage(routes, stem, 5, 0, e, 5);
    ResolveIsTrace(routes, Name(stem, 0), 0);
    forall r | r in routes ensures r.path != Name(stem, 6) && (r.Redirect? ==> r.to != Name(stem, 6)) {
      assert r in Elements(routes) && routes[page] in Elements(routes);
      MoveTargetFresh(Elements(routes), routes[page], r);
      if r.path == Name(stem, 5) {
        AtDistinct(routes, r);
        AtDistinct(routes, routes[page]);
      }
    }
    NameInjective(stem, 0, stem, 6);
    MoveKeepsMeaning(routes, page, Name(stem, 6), Name(stem, 0));
  }

  /** A redirect whose target is no path of the table. */
  predicate Dangles(r: Route, routes: seq<Route>) {
    r.Redirect? && r.to !in Paths(routes)
  }

  ghost predicate FamilyDangles(routes: seq<Route>, stem: string) {
    exists r :: r in routes && StemOf(r.path) == stem && Dangles(r, routes)
  }

  /**
   * "No dangling redirects" is not kept: dropping a page leaves a redirect of its family dangling exactly when the page
   * has been renamed twice or more. No other family is touched.
   */
  lemma {:induction false} DropDanglesExactly(routes: seq<Route>, stem: string, k: nat, e: string)
    requires Distinct(routes) && TableOk(Elements(routes)) && CleanStem(stem)
    requires Terminal(Name(stem, k), e) in routes
    ensures var after := DropRoute(routes, Name(stem, k));
      FamilyDangles(after, stem) <==> k >= 2
    ensures var after := DropRoute(routes, Name(stem, k));
      forall r :: r in routes && StemOf(r.path) != stem ==> r in after && (Dangles(r, after) <==> Dangles(r, routes))
  {
    hide Name, Renamed, Named, StemOf, TableOk, Distinct, Dangles;
    if k >= 2 {
      DropLeavesDangling(routes, stem, k, e);
    } else {
      DropIsClean(routes, stem, k, e);
    }
    forall r | r in routes && StemOf(r.path) != stem
      ensures r in DropRoute(routes, Name(stem, k))
      ensures Dangles(r, DropRoute(routes, Name(stem, k))) <==> Dangles(r, routes)
    {
      OtherFamilyUntouched(routes, stem, k, e, r);
    }
  }

  lemma {:induction false} DropLeavesDangling(routes: seq<Route>, stem: string, k: nat, e: string)
    requires Distinct(routes) && TableOk(Elements(routes)) && CleanStem(stem)
    requires k >= 2 && Terminal(Name(stem, k), e) in routes
    ensures FamilyDangles(DropRoute(routes, Name(stem, k)), stem)
  {
    hide Name, Renamed, Named, StemOf;
    var page := Name(stem, k);
    NameInjective(stem, k - 2, stem, k);
    NameInjective(stem, k - 1, stem, k);
    assert Terminal(page, e) in Elements(routes);
    var first, second := Redirect(Name(stem, k - 2), Name(stem, k - 2 + 1)), Redirect(Name(stem, k - 1), Name(stem, k - 1 + 1));
    assert first in Elements(routes) && second in Elements(routes);
    AtDistinct(routes, second);
    AtFilter(routes, Survives(page), Name(stem, k - 1));
    StemOfName(stem, k - 2);
    assert first in DropRoute(routes, page) && Dangles(first, DropRoute(routes, page));
  }

  lemma {:induction false} DropIsClean(routes: seq<Route>, stem: string, k: nat, e: string)
    requires Distinct(routes) && TableOk(Elements(routes)) && CleanStem(stem)
    requires k < 2 && Terminal(Name(stem, k), e) in routes
    ensures !FamilyDangles(DropRoute(routes, Name(stem, k)), stem)
  {
    hide Name, Renamed, Named, StemOf, Distinct, Linked;
    var page := Terminal(Name(stem, k), e);
    assert page in Elements(routes);
    StemOfName(stem, k);
    forall r | r in routes && r.Redirect? && StemOf(r.path) == stem
      ensures r.to == Name(stem, k)
    {
      assert r in Elements(routes);
      var j := PlaceOf(r.path);
      LongerTail(j, k);
      NameLength(stem, j, k);
    }
  }

  lemma {:induction false} NameLength(stem: string, j: nat, k: nat)
    ensures |Name(stem, j)| < |Name(stem, k)| <==> j < k
  {
    hide Tail;
    LongerTail(j, k);
  }

  lemma {:induction false} OtherFamilyUntouched(routes: seq<Route>, stem: string, k: nat, e: string, r: Route)
    requires TableOk(Elements(routes)) && CleanStem(stem)
    requires Terminal(Name(stem, k), e) in routes && r in routes && StemOf(r.path) != stem
    ensures var after := DropRoute(routes, Name(stem, k));
      r in after && (Dangles(r, after) <==> Dangles(r, routes))
  {
    hide Name, Renamed, Named, StemOf, PagesLast, Linked;
    StemOfName(stem, k);
    assert r in Elements(routes);
    if r.Redirect? {
      RenamedStaysInFamily(r.path);
      forall q | q in routes && q.path == r.to
        ensures q in DropRoute(routes, Name(stem, k))
      {
        assert q in Elements(routes);
        if q.Redirect? {
          RenamedStaysInFamily(q.path);
        }
      }
    }
  }
}
