/** What depth-first order means for modules that are shared: paths with loops, and which child names a module. */
module ModuleRoutes {
  import opened Wrappers
  import opened ModuleTree

  /** Following these child indices from `m` leads to `target` outside `avoid`, perhaps through a module twice. */
  predicate Leading(g: Modules, m: ModuleId, route: seq<nat>, target: ModuleId, avoid: set<ModuleId>)
    decreases |route|
  {
    && m !in avoid
    && if route == [] then m == target
       else
         && m in g && route[0] < |g[m].children| && g[m].children[route[0]].target.Some?
         && Leading(g, g[m].children[route[0]].target.value, route[1..], target, avoid)
  }

  /** A route that keeps clear of `x`, or else a shorter one that starts there. */
  lemma {:induction false} PassesOrNot(g: Modules, m: ModuleId, route: seq<nat>, t: ModuleId, avoid: set<ModuleId>, x: ModuleId)
    returns (rest: seq<nat>)
    requires Simple(g, m, route, t, avoid)
    ensures Simple(g, m, route, t, avoid + {x}) || Simple(g, x, rest, t, avoid)
    decreases |route|
  {
    rest := route;
    if m != x && route != [] {
      rest := PassesOrNot(g, g[m].children[route[0]].target.value, route[1..], t, avoid + {m}, x);
      assert avoid + {m} + {x} == avoid + {x} + {m};
      if Simple(g, x, rest, t, avoid + {m}) {
        SimpleWithLess(g, x, rest, t, avoid + {m}, avoid);
      }
    }
  }

  /** Loops can be cut out. */
  lemma {:induction false} LoopsCutOut(g: Modules, m: ModuleId, route: seq<nat>, t: ModuleId, avoid: set<ModuleId>)
    returns (simple: seq<nat>)
    requires Leading(g, m, route, t, avoid)
    ensures Simple(g, m, simple, t, avoid)
    decreases |route|
  {
    simple := [];
    if route != [] {
      var c := g[m].children[route[0]].target.value;
      var below := LoopsCutOut(g, c, route[1..], t, avoid);
      simple := PassesOrNot(g, c, below, t, avoid, m);
      if Simple(g, c, below, t, avoid + {m}) {
        simple := [route[0]] + below;
        assert simple[1..] == below;
      }
    }
  }

  /** A module that child `i` of `m` reaches past the memo and past `m` itself is yielded, and under a path that begins
      with child `i` or with an earlier one. */
  lemma FirstChildNames(g: Modules, m: ModuleId, memo: set<ModuleId>, out: seq<Yield>, paths: seq<seq<string>>,
                        routes: seq<seq<nat>>, i: nat, route: seq<nat>, t: ModuleId)
    returns (k: nat)
    requires RoutesFit(g, m, memo, out, paths, routes) && m in g && m !in memo
    requires i < |g[m].children| && g[m].children[i].target.Some? && t != m
    requires Leading(g, g[m].children[i].target.value, route, t, memo + {m})
    ensures k < |out| == |paths| == |routes| && out[k].module_ == t && routes[k] != [] && routes[k][0] <= i
    ensures routes[k][0] < |g[m].children| && paths[k] != [] && paths[k][0] == g[m].children[routes[k][0]].name
  {
    var below := LoopsCutOut(g, g[m].children[i].target.value, route, t, memo + {m});
    var whole := [i] + below;
    assert whole[1..] == below;
    assert Simple(g, m, whole, t, memo);
    assert YieldedBy(out, routes, t, whole);
    k :| 0 <= k < |out| && out[k].module_ == t && (routes[k] == whole || Before(routes[k], whole));
    assert RouteFits(g, m, memo, out[k], paths[k], routes[k]);
  }

  /** Yields through an earlier child come before yields through a later one. */
  lemma EarlierChildFirst(g: Modules, m: ModuleId, memo: set<ModuleId>, out: seq<Yield>, paths: seq<seq<string>>,
                          routes: seq<seq<nat>>, k: nat, l: nat)
    requires RoutesFit(g, m, memo, out, paths, routes) && k < |out| && l < |out|
    requires routes[k] != [] && routes[l] != [] && routes[k][0] < routes[l][0]
    ensures k < l
  {
  }
}
