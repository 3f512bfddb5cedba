/** Walking a module graph with a shared memo: submodules and parameters, each once, under a name that finds it.
    Modules may be shared between parents and may even form cycles. */
module ModuleTree {
  import opened Arithmetic
  import opened Wrappers

  type ModuleId = nat
  type ParameterId = nat
  datatype Child = Child(name: string, target: Option<ModuleId>)
  datatype Slot = Slot(name: string, target: Option<ParameterId>)
  datatype ModuleInfo = ModuleInfo(children: seq<Child>, parameters: seq<Slot>)

  /** All modules, by identity. */
  type Modules = map<ModuleId, ModuleInfo>

  /** Children are modules of the graph, and a dictionary holds a name once. */
  ghost predicate Valid(g: Modules) {
    forall m :: m in g ==>
      && (forall i :: 0 <= i < |g[m].children| && g[m].children[i].target.Some? ==> g[m].children[i].target.value in g)
      && (forall i, j :: 0 <= i < j < |g[m].children| ==> g[m].children[i].name != g[m].children[j].name)
      && (forall i, j :: 0 <= i < j < |g[m].parameters| ==> g[m].parameters[i].name != g[m].parameters[j].name)
  }

  // ----- Names -----

  function Extend(prefix: string, name: string): string {
    prefix + (if prefix == "" then "" else ".") + name
  }

  function Join(prefix: string, names: seq<string>): string
    decreases |names|
  {
    if names == [] then prefix else Join(Extend(prefix, names[0]), names[1..])
  }

  /** Following `names` from `m` leads to `target`. */
  predicate Resolves(g: Modules, m: ModuleId, names: seq<string>, target: ModuleId)
    decreases |names|, 1
  {
    if names == [] then m == target
    else m in g && exists i :: 0 <= i < |g[m].children| && Leads(g, g[m].children[i], names, target)
  }

  predicate Leads(g: Modules, c: Child, names: seq<string>, target: ModuleId)
    requires names != []
    decreases |names|, 0
  {
    c.name == names[0] && c.target.Some? && Resolves(g, c.target.value, names[1..], target)
  }

  ghost predicate Reachable(g: Modules, m: ModuleId, target: ModuleId) {
    exists names :: Resolves(g, m, names, target)
  }

  lemma ResolvesFirst(g: Modules, m: ModuleId, i: nat, names: seq<string>, target: ModuleId)
    requires m in g && i < |g[m].children| && g[m].children[i].target.Some?
    requires Resolves(g, g[m].children[i].target.value, names, target)
    ensures Resolves(g, m, [g[m].children[i].name] + names, target)
  {
    var path := [g[m].children[i].name] + names;
    assert path[1..] == names;
    assert Leads(g, g[m].children[i], path, target);
  }

  /** Names lead to at most one module. */
  lemma {:induction false} ResolvesUnique(g: Modules, m: ModuleId, names: seq<string>, a: ModuleId, b: ModuleId)
    requires Valid(g) && Resolves(g, m, names, a) && Resolves(g, m, names, b)
    ensures a == b
    decreases |names|
  {
    if names != [] {
      var i :| 0 <= i < |g[m].children| && Leads(g, g[m].children[i], names, a);
      var j :| 0 <= j < |g[m].children| && Leads(g, g[m].children[j], names, b);
      assert i == j;
      ResolvesUnique(g, g[m].children[i].target.value, names[1..], a, b);
    }
  }

  // ----- Routes -----

  /** Following these child indices from `m` leads to `target`, through modules that are all outside `avoid` and all
      different. */
  predicate Simple(g: Modules, m: ModuleId, route: seq<nat>, target: ModuleId, avoid: set<ModuleId>)
    decreases |route|
  {
    && m !in avoid
    && if route == [] then m == target
       else
         && m in g && route[0] < |g[m].children| && g[m].children[route[0]].target.Some?
         && Simple(g, g[m].children[route[0]].target.value, route[1..], target, avoid + {m})
  }

  /** The names of the children along a route. */
  function NamesAlong(g: Modules, m: ModuleId, route: seq<nat>): seq<string>
    decreases |route|
  {
    if route == [] || m !in g || route[0] >= |g[m].children| || g[m].children[route[0]].target.None? then []
    else
      var c := g[m].children[route[0]];
      [c.name] + NamesAlong(g, c.target.value, route[1..])
  }

  /** Depth-first order: a route comes before its extensions, and an earlier child before a later one. */
  predicate Before(a: seq<nat>, b: seq<nat>) {
    b != [] && (a == [] || a[0] < b[0] || (a[0] == b[0] && Before(a[1..], b[1..])))
  }

  lemma {:induction false} BeforeExtends(i: nat, a: seq<nat>, b: seq<nat>)
    requires Before(a, b)
    ensures Before([i] + a, [i] + b)
  {
    assert ([i] + a)[1..] == a && ([i] + b)[1..] == b;
  }

  /** A walk that has closed everything between `base` and `after` and still has not met the target leaves the whole
      route to it unvisited. */
  lemma {:induction false} RouteStaysFree(g: Modules, m: ModuleId, route: seq<nat>, target: ModuleId,
                                          base: set<ModuleId>, after: set<ModuleId>, behind: set<ModuleId>)
    requires base <= after && Closed(g, base, after) && target !in after
    requires Simple(g, m, route, target, base + behind)
    ensures m !in after && Simple(g, m, route, target, after + behind)
    decreases |route|
  {
    if route != [] {
      var c := g[m].children[route[0]].target.value;
      assert base + behind + {m} == base + (behind + {m});
      RouteStaysFree(g, c, route[1..], target, base, after, behind + {m});
      assert after + behind + {m} == after + (behind + {m});
      assert m in after ==> ChildrenIn(g, m, after);
    }
  }

  // ----- Submodules -----

  datatype Yield = Yield(prefix: string, module_: ModuleId)

  function Ids(out: seq<Yield>): seq<ModuleId> {
    seq(|out|, i requires 0 <= i < |out| => out[i].module_)
  }

  /** All children of `m` are in the set. */
  predicate ChildrenIn(g: Modules, m: ModuleId, s: set<ModuleId>) {
    m in g ==> forall i :: 0 <= i < |g[m].children| && g[m].children[i].target.Some? ==> g[m].children[i].target.value in s
  }

  /** What a walk yields when the memo grows from `before` to `after`: every newly visited module, once. */
  ghost predicate YieldsExactly(out: seq<Yield>, before: set<ModuleId>, after: set<ModuleId>) {
    before <= after && multiset(Ids(out)) == multiset(after - before)
  }

  lemma YieldsAppend(a: seq<Yield>, b: seq<Yield>, before: set<ModuleId>, middle: set<ModuleId>, after: set<ModuleId>)
    requires YieldsExactly(a, before, middle) && YieldsExactly(b, middle, after)
    ensures YieldsExactly(a + b, before, after)
  {
    assert Ids(a + b) == Ids(a) + Ids(b);
    assert after - before == (middle - before) + (after - middle);
  }

  /** Every newly visited module has all its children in the memo. */
  ghost predicate Closed(g: Modules, before: set<ModuleId>, after: set<ModuleId>) {
    forall d {:trigger ChildrenIn(g, d, after)} :: d in after && d !in before ==> ChildrenIn(g, d, after)
  }

  lemma ClosedAppend(g: Modules, before: set<ModuleId>, middle: set<ModuleId>, after: set<ModuleId>)
    requires Closed(g, before, middle) && Closed(g, middle, after) && middle <= after
    ensures Closed(g, before, after)
  {
    forall d | d in after && d !in before ensures ChildrenIn(g, d, after) {
      if d in middle {
        assert ChildrenIn(g, d, middle);
      }
    }
  }

  /** Each yielded prefix is the join of a path of child names that leads to the yielded module. */
  predicate PathsFit(g: Modules, m: ModuleId, prefix: string, out: seq<Yield>, paths: seq<seq<string>>) {
    && |paths| == |out|
    && forall i {:trigger out[i]} :: 0 <= i < |out| ==> PathFits(g, m, prefix, out[i], paths[i])
  }

  predicate PathFits(g: Modules, m: ModuleId, prefix: string, y: Yield, path: seq<string>) {
    Resolves(g, m, path, y.module_) && y.prefix == Join(prefix, path)
  }

  function Prepended(name: string, paths: seq<seq<string>>): seq<seq<string>> {
    seq(|paths|, i requires 0 <= i < |paths| => [name] + paths[i])
  }

  lemma PathsThroughChild(g: Modules, m: ModuleId, prefix: string, i: nat, out: seq<Yield>, paths: seq<seq<string>>)
    requires m in g && i < |g[m].children| && g[m].children[i].target.Some?
    requires PathsFit(g, g[m].children[i].target.value, Extend(prefix, g[m].children[i].name), out, paths)
    ensures PathsFit(g, m, prefix, out, Prepended(g[m].children[i].name, paths))
  {
    var longer := Prepended(g[m].children[i].name, paths);
    forall k | 0 <= k < |out|
      ensures PathFits(g, m, prefix, out[k], longer[k])
    {
      ResolvesFirst(g, m, i, paths[k], out[k].module_);
      assert longer[k][1..] == paths[k];
    }
  }

  /** The routes of the yields: each leads to its module, they are in depth-first order, and no module is yielded later
      than by the first route that leads to it. */
  ghost predicate RoutesFit(g: Modules, m: ModuleId, memo: set<ModuleId>, out: seq<Yield>, paths: seq<seq<string>>,
                            routes: seq<seq<nat>>) {
    && |routes| == |out| == |paths|
    && (forall i :: 0 <= i < |out| ==> RouteFits(g, m, memo, out[i], paths[i], routes[i]))
    && (forall i, j :: 0 <= i < j < |out| ==> Before(routes[i], routes[j]))
    && (forall route, t {:trigger Simple(g, m, route, t, memo)} :: Simple(g, m, route, t, memo) ==>
          YieldedBy(out, routes, t, route))
  }

  predicate RouteFits(g: Modules, m: ModuleId, memo: set<ModuleId>, y: Yield, path: seq<string>, route: seq<nat>) {
    Simple(g, m, route, y.module_, memo) && path == NamesAlong(g, m, route)
  }

  /** `t` is yielded by this route or by an earlier one. */
  predicate YieldedBy(out: seq<Yield>, routes: seq<seq<nat>>, t: ModuleId, route: seq<nat>)
    requires |routes| == |out|
  {
    exists i :: 0 <= i < |out| && out[i].module_ == t && (routes[i] == route || Before(routes[i], route))
  }

  function Lengthened(i: nat, routes: seq<seq<nat>>): seq<seq<nat>> {
    seq(|routes|, k requires 0 <= k < |routes| => [i] + routes[k])
  }

  /** What one walk from `m` has established. */
  ghost predicate Walked(g: Modules, m: ModuleId, prefix: string, before: set<ModuleId>, after: set<ModuleId>,
                         out: seq<Yield>, paths: seq<seq<string>>) {
    && YieldsExactly(out, before, after)
    && Closed(g, before, after)
    && PathsFit(g, m, prefix, out, paths)
  }

  lemma WalkedAppend(g: Modules, m: ModuleId, prefix: string, before: set<ModuleId>, middle: set<ModuleId>, after: set<ModuleId>,
                     a: seq<Yield>, aPaths: seq<seq<string>>, i: nat, b: seq<Yield>, bPaths: seq<seq<string>>)
    requires m in g && i < |g[m].children| && g[m].children[i].target.Some?
    requires Walked(g, m, prefix, before, middle, a, aPaths)
    requires Walked(g, g[m].children[i].target.value, Extend(prefix, g[m].children[i].name), middle, after, b, bPaths)
    ensures Walked(g, m, prefix, before, after, a + b, aPaths + Prepended(g[m].children[i].name, bPaths))
  {
    YieldsAppend(a, b, before, middle, after);
    ClosedAppend(g, before, middle, after);
    PathsThroughChild(g, m, prefix, i, b, bPaths);
  }

  /** The first yield of a walk, and then what the walk below the children adds. */
  lemma WalkedFirst(g: Modules, m: ModuleId, prefix: string, before: set<ModuleId>, after: set<ModuleId>,
                    out: seq<Yield>, paths: seq<seq<string>>)
    requires m !in before && Walked(g, m, prefix, before + {m}, after, out, paths) && ChildrenIn(g, m, after)
    ensures Walked(g, m, prefix, before, after, [Yield(prefix, m)] + out, [[]] + paths)
  {
    var first := [Yield(prefix, m)];
    assert Ids(first) == [m];
    assert (before + {m}) - before == {m};
    YieldsAppend(first, out, before, before + {m}, after);
    forall d | d in after && d !in before ensures ChildrenIn(g, d, after) {
    }
    assert PathFits(g, m, prefix, first[0], []);
  }

  // ----- The order of a walk -----

  lemma {:induction false} SimpleWithLess(g: Modules, m: ModuleId, route: seq<nat>, t: ModuleId, avoid: set<ModuleId>, less: set<ModuleId>)
    requires Simple(g, m, route, t, avoid) && less <= avoid
    ensures Simple(g, m, route, t, less)
    decreases |route|
  {
    if route != [] {
      SimpleWithLess(g, g[m].children[route[0]].target.value, route[1..], t, avoid + {m}, less + {m});
    }
  }

  /** The routes through the first `n` children of `m`, when `free` was the memo before `m` was added to it. */
  ghost predicate ChildRoutesFit(g: Modules, m: ModuleId, free: set<ModuleId>, n: nat, out: seq<Yield>,
                                 paths: seq<seq<string>>, routes: seq<seq<nat>>) {
    && |routes| == |out| == |paths|
    && (forall i :: 0 <= i < |out| ==> RouteFits(g, m, free, out[i], paths[i], routes[i]))
    && (forall i :: 0 <= i < |out| ==> routes[i] != [] && routes[i][0] < n)
    && (forall i, j :: 0 <= i < j < |out| ==> Before(routes[i], routes[j]))
    && (forall route, t {:trigger Simple(g, m, route, t, free)} ::
          Simple(g, m, route, t, free) && route != [] && route[0] < n ==> YieldedBy(out, routes, t, route))
  }

  lemma YieldedGrows(a: seq<Yield>, ra: seq<seq<nat>>, b: seq<Yield>, rb: seq<seq<nat>>, t: ModuleId, route: seq<nat>)
    requires |a| == |ra| && |b| == |rb| && YieldedBy(a, ra, t, route)
    ensures YieldedBy(a + b, ra + rb, t, route)
  {
    var i :| 0 <= i < |a| && a[i].module_ == t && (ra[i] == route || Before(ra[i], route));
    assert (a + b)[i] == a[i] && (ra + rb)[i] == ra[i];
  }

  /** What was yielded below child `i` is found behind what came before. */
  lemma YieldedBelow(a: seq<Yield>, ra: seq<seq<nat>>, b: seq<Yield>, rb: seq<seq<nat>>, i: nat, t: ModuleId, route: seq<nat>)
    requires |a| == |ra| && |b| == |rb| && route != [] && route[0] == i && YieldedBy(b, rb, t, route[1..])
    ensures YieldedBy(a + b, ra + Lengthened(i, rb), t, route)
  {
    var k :| 0 <= k < |b| && b[k].module_ == t && (rb[k] == route[1..] || Before(rb[k], route[1..]));
    assert route == [i] + route[1..];
    if rb[k] != route[1..] {
      BeforeExtends(i, rb[k], route[1..]);
    }
    var at := |a| + k;
    assert (a + b)[at] == b[k] && (ra + Lengthened(i, rb))[at] == [i] + rb[k];
  }

  lemma YieldedBefore(out: seq<Yield>, routes: seq<seq<nat>>, before: set<ModuleId>, after: set<ModuleId>, t: ModuleId, route: seq<nat>)
    requires |out| == |routes| && YieldsExactly(out, before, after) && t in after && t !in before
    requires route != [] && forall k :: 0 <= k < |out| ==> routes[k] != [] && routes[k][0] < route[0]
    ensures YieldedBy(out, routes, t, route)
  {
    assert t in multiset(after - before);
    assert t in Ids(out);
    var k :| 0 <= k < |out| && Ids(out)[k] == t;
    assert out[k].module_ == t && Before(routes[k], route);
  }

  /** A route through child `i`: its target was met below an earlier child, or is met below this one. */
  lemma ChildCovers(g: Modules, m: ModuleId, memo: set<ModuleId>, middle: set<ModuleId>, i: nat,
                    a: seq<Yield>, aPaths: seq<seq<string>>, ra: seq<seq<nat>>,
                    b: seq<Yield>, bPaths: seq<seq<string>>, rb: seq<seq<nat>>, route: seq<nat>, t: ModuleId)
    requires m in g && m in memo && i < |g[m].children| && g[m].children[i].target.Some?
    requires ChildRoutesFit(g, m, memo - {m}, i, a, aPaths, ra) && YieldsExactly(a, memo, middle) && Closed(g, memo, middle)
    requires RoutesFit(g, g[m].children[i].target.value, middle, b, bPaths, rb)
    requires Simple(g, m, route, t, memo - {m}) && route != [] && route[0] <= i
    ensures YieldedBy(a + b, ra + Lengthened(i, rb), t, route)
  {
    if route[0] < i {
      YieldedGrows(a, ra, b, Lengthened(i, rb), t, route);
    } else {
      var c := g[m].children[i].target.value;
      assert memo - {m} + {m} == memo == memo + {};
      TargetIsFree(g, c, route[1..], t, memo);
      if t in middle {
        YieldedBefore(a, ra, memo, middle, t, route);
        YieldedGrows(a, ra, b, Lengthened(i, rb), t, route);
      } else {
        RouteStaysFree(g, c, route[1..], t, memo, middle, {});
        assert middle + {} == middle;
        YieldedBelow(a, ra, b, rb, i, t, route);
      }
    }
  }

  lemma {:induction false} TargetIsFree(g: Modules, m: ModuleId, route: seq<nat>, t: ModuleId, avoid: set<ModuleId>)
    requires Simple(g, m, route, t, avoid)
    ensures t !in avoid
    decreases |route|
  {
    if route != [] {
      TargetIsFree(g, g[m].children[route[0]].target.value, route[1..], t, avoid + {m});
    }
  }

  lemma ChildRouteFits(g: Modules, m: ModuleId, memo: set<ModuleId>, middle: set<ModuleId>, i: nat, y: Yield, path: seq<string>, route: seq<nat>)
    requires m in g && m in memo && memo <= middle && i < |g[m].children| && g[m].children[i].target.Some?
    requires RouteFits(g, g[m].children[i].target.value, middle, y, path, route)
    ensures RouteFits(g, m, memo - {m}, y, [g[m].children[i].name] + path, [i] + route)
  {
    SimpleWithLess(g, g[m].children[i].target.value, route, y.module_, middle, memo);
    assert ([i] + route)[1..] == route && memo - {m} + {m} == memo;
  }

  lemma ChildRoutesAppend(g: Modules, m: ModuleId, memo: set<ModuleId>, middle: set<ModuleId>, i: nat,
                          a: seq<Yield>, aPaths: seq<seq<string>>, ra: seq<seq<nat>>,
                          b: seq<Yield>, bPaths: seq<seq<string>>, rb: seq<seq<nat>>)
    requires m in g && m in memo && i < |g[m].children| && g[m].children[i].target.Some?
    requires ChildRoutesFit(g, m, memo - {m}, i, a, aPaths, ra) && YieldsExactly(a, memo, middle) && Closed(g, memo, middle)
    requires RoutesFit(g, g[m].children[i].target.value, middle, b, bPaths, rb)
    ensures ChildRoutesFit(g, m, memo - {m}, i + 1, a + b, aPaths + Prepended(g[m].children[i].name, bPaths), ra + Lengthened(i, rb))
  {
    var out, routes := a + b, ra + Lengthened(i, rb);
    var paths := aPaths + Prepended(g[m].children[i].name, bPaths);
    forall k | 0 <= k < |out| ensures RouteFits(g, m, memo - {m}, out[k], paths[k], routes[k]) {
      if k >= |a| {
        ChildRouteFits(g, m, memo, middle, i, b[k - |a|], bPaths[k - |a|], rb[k - |a|]);
      }
    }
    forall k, l | 0 <= k < l < |out| ensures Before(routes[k], routes[l]) {
      if k >= |a| {
        BeforeExtends(i, rb[k - |a|], rb[l - |a|]);
      }
    }
    forall route, t | Simple(g, m, route, t, memo - {m}) && route != [] && route[0] < i + 1
      ensures YieldedBy(out, routes, t, route)
    {
      ChildCovers(g, m, memo, middle, i, a, aPaths, ra, b, bPaths, rb, route, t);
    }
  }

  /** A route from `m` is met at once, or below the children. */
  lemma ShiftedYield(y: Yield, out: seq<Yield>, routes: seq<seq<nat>>, t: ModuleId, route: seq<nat>)
    requires |out| == |routes| && YieldedBy(out, routes, t, route)
    ensures YieldedBy([y] + out, [[]] + routes, t, route)
  {
    var k :| 0 <= k < |out| && out[k].module_ == t && (routes[k] == route || Before(routes[k], route));
    var at := k + 1;
    assert ([y] + out)[at] == out[k] && ([[]] + routes)[at] == routes[k];
  }

  lemma FirstCovers(g: Modules, m: ModuleId, memo: set<ModuleId>, prefix: string, out: seq<Yield>,
                    paths: seq<seq<string>>, routes: seq<seq<nat>>, route: seq<nat>, t: ModuleId)
    requires m in g && ChildRoutesFit(g, m, memo, |g[m].children|, out, paths, routes) && Simple(g, m, route, t, memo)
    ensures YieldedBy([Yield(prefix, m)] + out, [[]] + routes, t, route)
  {
    if route == [] {
      var all, allRoutes := [Yield(prefix, m)] + out, [[]] + routes;
      assert all[0].module_ == t && allRoutes[0] == route;
    } else {
      ShiftedYield(Yield(prefix, m), out, routes, t, route);
    }
  }

  lemma FirstRouteFits(g: Modules, m: ModuleId, memo: set<ModuleId>, prefix: string, out: seq<Yield>,
                       paths: seq<seq<string>>, routes: seq<seq<nat>>, k: nat)
    requires m in g && m !in memo && ChildRoutesFit(g, m, memo, |g[m].children|, out, paths, routes) && k <= |out|
    ensures RouteFits(g, m, memo, ([Yield(prefix, m)] + out)[k], ([[]] + paths)[k], ([[]] + routes)[k])
  {
    if k > 0 {
      var i := k - 1;
      assert RouteFits(g, m, memo, out[i], paths[i], routes[i]);
    }
  }

  lemma RoutesFromChildren(g: Modules, m: ModuleId, memo: set<ModuleId>, prefix: string, out: seq<Yield>,
                           paths: seq<seq<string>>, routes: seq<seq<nat>>)
    requires m in g && m !in memo && ChildRoutesFit(g, m, memo, |g[m].children|, out, paths, routes)
    ensures RoutesFit(g, m, memo, [Yield(prefix, m)] + out, [[]] + paths, [[]] + routes)
  {
    var all, allPaths, allRoutes := [Yield(prefix, m)] + out, [[]] + paths, [[]] + routes;
    forall k | 0 <= k < |all| ensures RouteFits(g, m, memo, all[k], allPaths[k], allRoutes[k]) {
      FirstRouteFits(g, m, memo, prefix, out, paths, routes, k);
    }
    forall route, t | Simple(g, m, route, t, memo) ensures YieldedBy(all, allRoutes, t, route) {
      FirstCovers(g, m, memo, prefix, out, paths, routes, route, t);
    }
    forall k, l | 0 <= k < l < |all| ensures Before(allRoutes[k], allRoutes[l]) {
      var i := l - 1;
      assert routes[i] != [];
    }
  }

  // ----- The walk -----

  /** The walk below the children of `m`, in their order, with the memo shared across them. */
  method WalkChildren(g: Modules, m: ModuleId, prefix: string, memo: set<ModuleId>)
    returns (out: seq<Yield>, memo': set<ModuleId>, ghost paths: seq<seq<string>>, ghost routes: seq<seq<nat>>)
    requires Valid(g) && m in g && m in memo
    ensures Walked(g, m, prefix, memo, memo', out, paths) && ChildrenIn(g, m, memo')
    ensures ChildRoutesFit(g, m, memo - {m}, |g[m].children|, out, paths, routes)
    decreases |g.Keys - memo|, 1
  {
    out, memo', paths, routes := [], memo, [], [];
    var children := g[m].children;
    for i := 0 to |children|
      invariant Walked(g, m, prefix, memo, memo', out, paths)
      invariant forall j :: 0 <= j < i && children[j].target.Some? ==> children[j].target.value in memo'
      invariant ChildRoutesFit(g, m, memo - {m}, i, out, paths, routes)
    {
      if children[i].target.None? {
        continue;
      }
      SmallerRest(g.Keys, memo, memo');
      var below, reached;
      ghost var belowPaths, belowRoutes;
      below, reached, belowPaths, belowRoutes :=
        NamedModules(g, children[i].target.value, memo', Extend(prefix, children[i].name));
      WalkedAppend(g, m, prefix, memo, memo', reached, out, paths, i, below, belowPaths);
      ChildRoutesAppend(g, m, memo, memo', i, out, paths, routes, below, belowPaths, belowRoutes);
      paths, routes := paths + Prepended(children[i].name, belowPaths), routes + Lengthened(i, belowRoutes);
      out, memo' := out + below, reached;
    }
  }

  /** The default walk (`remove_duplicate`): yields, once each, the modules reachable from `m` that the memo does
      not hold, in depth-first order and each under the first route that leads to it past the memo. */
  method NamedModules(g: Modules, m: ModuleId, memo: set<ModuleId>, prefix: string)
    returns (out: seq<Yield>, memo': set<ModuleId>, ghost paths: seq<seq<string>>, ghost routes: seq<seq<nat>>)
    requires Valid(g) && m in g
    ensures Walked(g, m, prefix, memo, memo', out, paths) && m in memo'
    ensures RoutesFit(g, m, memo, out, paths, routes)
    ensures m !in memo ==> out != [] && out[0] == Yield(prefix, m)
    ensures memo == {} ==> forall d :: d in memo' <==> Reachable(g, m, d)
    decreases |g.Keys - memo|, 0
  {
    if m in memo {
      return [], memo, [], [];
    }
    StrictlySmallerRest(g.Keys, memo, memo + {m}, m);
    var below;
    ghost var belowPaths, belowRoutes;
    below, memo', belowPaths, belowRoutes := WalkChildren(g, m, prefix, memo + {m});
    assert memo + {m} - {m} == memo;
    WalkedFirst(g, m, prefix, memo, memo', below, belowPaths);
    RoutesFromChildren(g, m, memo, prefix, below, belowPaths, belowRoutes);
    out, paths, routes := [Yield(prefix, m)] + below, [[]] + belowPaths, [[]] + belowRoutes;
    if memo == {} {
      YieldedAreReachable(g, m, prefix, memo', out, paths);
    }
  }

  lemma {:induction false} ClosedContainsReachable(g: Modules, m: ModuleId, names: seq<string>, target: ModuleId, s: set<ModuleId>)
    requires m in s && (forall d :: d in s ==> ChildrenIn(g, d, s)) && Resolves(g, m, names, target)
    ensures target in s
    decreases |names|
  {
    if names != [] {
      var i :| 0 <= i < |g[m].children| && Leads(g, g[m].children[i], names, target);
      ClosedContainsReachable(g, g[m].children[i].target.value, names[1..], target, s);
    }
  }

  /** Walked from an empty memo, the visited modules are exactly the reachable ones. */
  lemma YieldedAreReachable(g: Modules, m: ModuleId, prefix: string, after: set<ModuleId>, out: seq<Yield>, paths: seq<seq<string>>)
    requires Walked(g, m, prefix, {}, after, out, paths) && m in after
    ensures forall d :: d in after <==> Reachable(g, m, d)
  {
    forall d ensures d in after <==> Reachable(g, m, d) {
      if d in after {
        assert d in multiset(after - {});
        assert d in Ids(out);
        var i :| 0 <= i < |out| && Ids(out)[i] == d;
        assert PathFits(g, m, prefix, out[i], paths[i]);
      }
      if Reachable(g, m, d) {
        var names :| Resolves(g, m, names, d);
        assert forall e :: e in after ==> ChildrenIn(g, e, after);
        ClosedContainsReachable(g, m, names, d, after);
      }
    }
  }
}
