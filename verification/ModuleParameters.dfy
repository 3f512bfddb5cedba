/** The parameters below a module: each distinct one once, under a name that leads to it. */
module ModuleParameters {
  import opened Wrappers
  import opened ModuleTree

  datatype Named = Named(name: string, parameter: ParameterId)

  function Parameters(out: seq<Named>): seq<ParameterId> {
    seq(|out|, i requires 0 <= i < |out| => out[i].parameter)
  }

  predicate HasSlot(slots: seq<Slot>, key: string, p: ParameterId) {
    exists i :: 0 <= i < |slots| && slots[i] == Slot(key, Some(p))
  }

  predicate Holds(slots: seq<Slot>, p: ParameterId) {
    exists i :: 0 <= i < |slots| && slots[i].target == Some(p)
  }

  /** `names` lead from `m` to the module `d`, which holds `p` under `key`. */
  predicate HeldAt(g: Modules, m: ModuleId, names: seq<string>, d: ModuleId, key: string, p: ParameterId) {
    d in g && Resolves(g, m, names, d) && HasSlot(g[d].parameters, key, p)
  }

  /** Some module reachable from `m` holds `p`. */
  ghost predicate Below(g: Modules, m: ModuleId, p: ParameterId) {
    exists d :: d in g && Reachable(g, m, d) && Holds(g[d].parameters, p)
  }

  // ----- Places -----

  /** A slot of the module that a route leads to. */
  datatype Place = Place(route: seq<nat>, slot: nat)

  /** Module by module in depth-first order, and slot by slot. */
  predicate Sooner(a: Place, b: Place) {
    Before(a.route, b.route) || (a.route == b.route && a.slot < b.slot)
  }

  lemma {:induction false} BeforeIsTransitive(a: seq<nat>, b: seq<nat>, c: seq<nat>)
    requires Before(a, b) && Before(b, c)
    ensures Before(a, c)
  {
    if a != [] && a[0] == b[0] == c[0] {
      BeforeIsTransitive(a[1..], b[1..], c[1..]);
    }
  }

  lemma SoonerIsTransitive(a: Place, b: Place, c: Place)
    requires Sooner(a, b) && Sooner(b, c)
    ensures Sooner(a, c)
  {
    if Before(a.route, b.route) && Before(b.route, c.route) {
      BeforeIsTransitive(a.route, b.route, c.route);
    }
  }

  /** At this place, in module `d`, is parameter `p`. */
  predicate At(g: Modules, m: ModuleId, place: Place, d: ModuleId, p: ParameterId) {
    && Simple(g, m, place.route, d, {}) && d in g
    && place.slot < |g[d].parameters| && g[d].parameters[place.slot].target == Some(p)
  }

  predicate PlaceFits(g: Modules, m: ModuleId, n: Named, path: seq<string>, place: Place, d: ModuleId) {
    At(g, m, place, d, n.parameter) && path == NamesAlong(g, m, place.route) + [g[d].parameters[place.slot].name]
  }

  ghost predicate PlacedAt(g: Modules, m: ModuleId, n: Named, path: seq<string>, place: Place) {
    exists d :: PlaceFits(g, m, n, path, place, d)
  }

  /** `p` is taken at this place or at a sooner one. */
  predicate TakenBy(out: seq<Named>, places: seq<Place>, p: ParameterId, place: Place)
    requires |places| == |out|
  {
    exists i :: 0 <= i < |out| && out[i].parameter == p && (places[i] == place || Sooner(places[i], place))
  }

  ghost predicate PlacesAscend(g: Modules, m: ModuleId, out: seq<Named>, paths: seq<seq<string>>, places: seq<Place>) {
    && |places| == |out| == |paths|
    && (forall i :: 0 <= i < |out| ==> PlacedAt(g, m, out[i], paths[i], places[i]))
    && (forall i, j :: 0 <= i < j < |out| ==> Sooner(places[i], places[j]))
  }

  /** Names come from places: each from the place its parameter has, in the order of places, and none from a later
      place than the first one that holds its parameter. */
  ghost predicate PlacesFit(g: Modules, m: ModuleId, out: seq<Named>, paths: seq<seq<string>>, places: seq<Place>) {
    && PlacesAscend(g, m, out, paths, places)
    && forall place, d, p {:trigger At(g, m, place, d, p)} :: At(g, m, place, d, p) ==> TakenBy(out, places, p, place)
  }

  lemma TakenEarlier(out: seq<Named>, places: seq<Place>, p: ParameterId, place: Place, later: Place)
    requires |places| == |out| && TakenBy(out, places, p, place) && (place == later || Sooner(place, later))
    ensures TakenBy(out, places, p, later)
  {
    var i :| 0 <= i < |out| && out[i].parameter == p && (places[i] == place || Sooner(places[i], place));
    if Sooner(places[i], place) && Sooner(place, later) {
      SoonerIsTransitive(places[i], place, later);
    }
  }

  lemma TakenGrows(a: seq<Named>, pa: seq<Place>, b: seq<Named>, pb: seq<Place>, p: ParameterId, place: Place)
    requires |a| == |pa| && |b| == |pb| && TakenBy(a, pa, p, place)
    ensures TakenBy(a + b, pa + pb, p, place)
  {
    var i :| 0 <= i < |a| && a[i].parameter == p && (pa[i] == place || Sooner(pa[i], place));
    assert (a + b)[i] == a[i] && (pa + pb)[i] == pa[i];
  }

  // ----- Collecting -----

  ghost predicate TakesExactly(out: seq<Named>, before: set<ParameterId>, after: set<ParameterId>) {
    before <= after && multiset(Parameters(out)) == multiset(after - before)
  }

  lemma {:induction false} TakesAppend(a: seq<Named>, b: seq<Named>, before: set<ParameterId>, middle: set<ParameterId>, after: set<ParameterId>)
    requires TakesExactly(a, before, middle) && TakesExactly(b, middle, after)
    ensures TakesExactly(a + b, before, after)
  {
    assert Parameters(a + b) == Parameters(a) + Parameters(b);
    assert after - before == (middle - before) + (after - middle);
  }

  predicate SlotFits(slots: seq<Slot>, prefix: string, n: Named, key: string) {
    HasSlot(slots, key, n.parameter) && n.name == Extend(prefix, key)
  }

  /** The slots that a module's members were taken from: ascending, and for every parameter the first that holds it. */
  ghost predicate SlotsFit(slots: seq<Slot>, n: nat, memo: set<ParameterId>, out: seq<Named>, keys: seq<string>, at: seq<nat>) {
    && |at| == |out| == |keys|
    && (forall k :: 0 <= k < |out| ==> SlotAt(slots, n, out[k], keys[k], at[k]))
    && (forall k, l :: 0 <= k < l < |out| ==> at[k] < at[l])
    && (forall s :: 0 <= s < n <= |slots| && slots[s].target.Some? && slots[s].target.value !in memo ==>
          FirstSlot(out, at, slots[s].target.value, s))
  }

  predicate SlotAt(slots: seq<Slot>, n: nat, m: Named, key: string, at: nat) {
    at < n <= |slots| && slots[at] == Slot(key, Some(m.parameter))
  }

  predicate FirstSlot(out: seq<Named>, at: seq<nat>, p: ParameterId, s: nat)
    requires |at| == |out|
  {
    exists k :: 0 <= k < |out| && out[k].parameter == p && at[k] <= s
  }

  lemma FirstSlotGrows(out: seq<Named>, at: seq<nat>, p: ParameterId, s: nat, next: Named, i: nat)
    requires |at| == |out| && FirstSlot(out, at, p, s)
    ensures FirstSlot(out + [next], at + [i], p, s)
  {
    var k :| 0 <= k < |out| && out[k].parameter == p && at[k] <= s;
    assert (out + [next])[k] == out[k] && (at + [i])[k] == at[k];
  }

  /** One slot that is taken. */
  lemma SlotTaken(slots: seq<Slot>, i: nat, memo: set<ParameterId>, out: seq<Named>, keys: seq<string>, at: seq<nat>, next: Named)
    requires i < |slots| && SlotsFit(slots, i, memo, out, keys, at) && slots[i].target == Some(next.parameter)
    ensures SlotsFit(slots, i + 1, memo, out + [next], keys + [slots[i].name], at + [i])
  {
    var out1, keys1, at1 := out + [next], keys + [slots[i].name], at + [i];
    forall k | 0 <= k < |out1| ensures SlotAt(slots, i + 1, out1[k], keys1[k], at1[k]) {
      assert k < |out| ==> SlotAt(slots, i, out[k], keys[k], at[k]);
    }
    forall s | 0 <= s < i + 1 && slots[s].target.Some? && slots[s].target.value !in memo
      ensures FirstSlot(out1, at1, slots[s].target.value, s)
    {
      if s < i {
        FirstSlotGrows(out, at, slots[s].target.value, s, next, i);
      } else {
        assert out1[|out|].parameter == slots[s].target.value && at1[|out|] == i;
      }
    }
  }

  /** One slot that is passed over: it holds nothing, or a parameter that is taken. */
  lemma SlotPassed(slots: seq<Slot>, i: nat, memo: set<ParameterId>, memo': set<ParameterId>, out: seq<Named>,
                   keys: seq<string>, at: seq<nat>)
    requires i < |slots| && SlotsFit(slots, i, memo, out, keys, at) && TakesExactly(out, memo, memo')
    requires slots[i].target.None? || slots[i].target.value in memo'
    ensures SlotsFit(slots, i + 1, memo, out, keys, at)
  {
    forall k | 0 <= k < |out| ensures SlotAt(slots, i + 1, out[k], keys[k], at[k]) {
      assert SlotAt(slots, i, out[k], keys[k], at[k]);
    }
    if slots[i].target.Some? && slots[i].target.value !in memo {
      var p := slots[i].target.value;
      assert p in multiset(memo' - memo);
      assert p in Parameters(out);
      var k :| 0 <= k < |out| && Parameters(out)[k] == p;
      assert out[k].parameter == p && SlotAt(slots, i, out[k], keys[k], at[k]);
      assert FirstSlot(out, at, p, i);
    }
  }

  /** The members of one module that the memo does not hold yet, in the order of their slots. */
  method TakeMembers(slots: seq<Slot>, prefix: string, memo: set<ParameterId>)
    returns (out: seq<Named>, memo': set<ParameterId>, ghost keys: seq<string>, ghost at: seq<nat>)
    ensures TakesExactly(out, memo, memo')
    ensures forall p :: Holds(slots, p) ==> p in memo'
    ensures |keys| == |out| && forall i {:trigger out[i]} :: 0 <= i < |out| ==> SlotFits(slots, prefix, out[i], keys[i])
    ensures SlotsFit(slots, |slots|, memo, out, keys, at)
  {
    out, memo', keys, at := [], memo, [], [];
    for i := 0 to |slots|
      invariant TakesExactly(out, memo, memo')
      invariant forall j :: 0 <= j < i && slots[j].target.Some? ==> slots[j].target.value in memo'
      invariant |keys| == |out| && forall j {:trigger out[j]} :: 0 <= j < |out| ==> SlotFits(slots, prefix, out[j], keys[j])
      invariant SlotsFit(slots, i, memo, out, keys, at)
    {
      if slots[i].target.None? || slots[i].target.value in memo' {
        SlotPassed(slots, i, memo, memo', out, keys, at);
        continue;
      }
      var p := slots[i].target.value;
      var next := Named(Extend(prefix, slots[i].name), p);
      assert TakesExactly([next], memo', memo' + {p}) by {
        assert Parameters([next]) == [p];
        assert (memo' + {p}) - memo' == {p};
      }
      TakesAppend(out, [next], memo, memo', memo' + {p});
      assert SlotFits(slots, prefix, next, slots[i].name);
      SlotTaken(slots, i, memo, out, keys, at, next);
      out, memo', keys, at := out + [next], memo' + {p}, keys + [slots[i].name], at + [i];
    }
  }

  predicate NameFits(g: Modules, m: ModuleId, prefix: string, n: Named, path: seq<string>, d: ModuleId) {
    path != [] && HeldAt(g, m, path[..|path| - 1], d, path[|path| - 1], n.parameter) && n.name == Join(prefix, path)
  }

  ghost predicate NamedBy(g: Modules, m: ModuleId, prefix: string, n: Named, path: seq<string>) {
    exists d :: NameFits(g, m, prefix, n, path, d)
  }

  /** Each name joins a path that leads to its parameter. */
  ghost predicate NamesFit(g: Modules, m: ModuleId, prefix: string, out: seq<Named>, paths: seq<seq<string>>) {
    && |paths| == |out|
    && forall i {:trigger out[i]} :: 0 <= i < |out| ==> NamedBy(g, m, prefix, out[i], paths[i])
  }

  function Appended(path: seq<string>, keys: seq<string>): seq<seq<string>> {
    seq(|keys|, i requires 0 <= i < |keys| => path + [keys[i]])
  }

  lemma {:induction false} JoinLast(prefix: string, path: seq<string>, key: string)
    ensures Join(prefix, path + [key]) == Extend(Join(prefix, path), key)
    decreases |path|
  {
    if path == [] {
      assert Join(Extend(prefix, key), [key][1..]) == Extend(prefix, key);
    } else {
      assert (path + [key])[1..] == path[1..] + [key];
      JoinLast(Extend(prefix, path[0]), path[1..], key);
    }
  }

  lemma {:induction false} NamesFitBelow(g: Modules, m: ModuleId, prefix: string, y: Yield, path: seq<string>, taken: seq<Named>, keys: seq<string>)
    requires y.module_ in g && PathFits(g, m, prefix, y, path) && |keys| == |taken|
    requires forall i {:trigger taken[i]} :: 0 <= i < |taken| ==> SlotFits(g[y.module_].parameters, y.prefix, taken[i], keys[i])
    ensures NamesFit(g, m, prefix, taken, Appended(path, keys))
  {
    forall i | 0 <= i < |taken| ensures NamedBy(g, m, prefix, taken[i], Appended(path, keys)[i]) {
      var longer := path + [keys[i]];
      assert SlotFits(g[y.module_].parameters, y.prefix, taken[i], keys[i]);
      JoinLast(prefix, path, keys[i]);
      assert longer[..|longer| - 1] == path;
      assert NameFits(g, m, prefix, taken[i], longer, y.module_);
    }
  }

  lemma {:induction false} ResolvesInside(g: Modules, m: ModuleId, names: seq<string>, d: ModuleId)
    requires Valid(g) && m in g && Resolves(g, m, names, d)
    ensures d in g
    decreases |names|
  {
    if names != [] {
      var i :| 0 <= i < |g[m].children| && Leads(g, g[m].children[i], names, d);
      ResolvesInside(g, g[m].children[i].target.value, names[1..], d);
    }
  }

  lemma {:induction false} NamesFitAppend(g: Modules, m: ModuleId, prefix: string, a: seq<Named>, aPaths: seq<seq<string>>,
                       b: seq<Named>, bPaths: seq<seq<string>>)
    requires NamesFit(g, m, prefix, a, aPaths) && NamesFit(g, m, prefix, b, bPaths)
    ensures NamesFit(g, m, prefix, a + b, aPaths + bPaths)
  {
    forall i | 0 <= i < |a + b| ensures NamedBy(g, m, prefix, (a + b)[i], (aPaths + bPaths)[i]) {
      if i < |a| {
        assert NamedBy(g, m, prefix, a[i], aPaths[i]);
      } else {
        assert NamedBy(g, m, prefix, b[i - |a|], bPaths[i - |a|]);
      }
    }
  }

  function PlacesOf(route: seq<nat>, at: seq<nat>): seq<Place> {
    seq(|at|, i requires 0 <= i < |at| => Place(route, at[i]))
  }

  /** Every slot of the first `n` yielded modules that holds a parameter has it taken there or sooner. */
  ghost predicate Covered(g: Modules, modules: seq<Yield>, routes: seq<seq<nat>>, n: nat, out: seq<Named>, places: seq<Place>)
    requires n <= |modules| == |routes| && |places| == |out|
  {
    && (forall k :: 0 <= k < |places| ==> exists j :: 0 <= j < n && places[k].route == routes[j])
    && (forall j: nat, s: nat, p: ParameterId {:trigger CoveredSlot(g, modules, routes, j, s, p, out, places)} :: j < n ==>
          CoveredSlot(g, modules, routes, j, s, p, out, places))
  }

  predicate CoveredSlot(g: Modules, modules: seq<Yield>, routes: seq<seq<nat>>, j: nat, s: nat, p: ParameterId,
                        out: seq<Named>, places: seq<Place>)
    requires j < |modules| == |routes| && |places| == |out|
  {
    var d := modules[j].module_;
    d in g && s < |g[d].parameters| && g[d].parameters[s].target == Some(p) ==> TakenBy(out, places, p, Place(routes[j], s))
  }

  lemma TakenPlaced(g: Modules, m: ModuleId, y: Yield, path: seq<string>, route: seq<nat>, memo: set<ParameterId>,
                    taken: seq<Named>, keys: seq<string>, at: seq<nat>)
    requires y.module_ in g && RouteFits(g, m, {}, y, path, route)
    requires SlotsFit(g[y.module_].parameters, |g[y.module_].parameters|, memo, taken, keys, at)
    ensures PlacesAscend(g, m, taken, Appended(path, keys), PlacesOf(route, at))
  {
    var slots := g[y.module_].parameters;
    forall k | 0 <= k < |taken| ensures PlacedAt(g, m, taken[k], Appended(path, keys)[k], PlacesOf(route, at)[k]) {
      assert SlotAt(slots, |slots|, taken[k], keys[k], at[k]);
      assert PlaceFits(g, m, taken[k], Appended(path, keys)[k], PlacesOf(route, at)[k], y.module_);
    }
  }

  lemma PlacesAppend(g: Modules, m: ModuleId, a: seq<Named>, aPaths: seq<seq<string>>, pa: seq<Place>,
                     b: seq<Named>, bPaths: seq<seq<string>>, pb: seq<Place>)
    requires PlacesAscend(g, m, a, aPaths, pa) && PlacesAscend(g, m, b, bPaths, pb)
    requires forall k, l :: 0 <= k < |pa| && 0 <= l < |pb| ==> Before(pa[k].route, pb[l].route)
    ensures PlacesAscend(g, m, a + b, aPaths + bPaths, pa + pb)
  {
    forall k | 0 <= k < |a + b| ensures PlacedAt(g, m, (a + b)[k], (aPaths + bPaths)[k], (pa + pb)[k]) {
      if k < |a| {
        assert PlacedAt(g, m, a[k], aPaths[k], pa[k]);
      } else {
        assert PlacedAt(g, m, b[k - |a|], bPaths[k - |a|], pb[k - |a|]);
      }
    }
  }

  /** A slot of the next module: its parameter was taken before, or is taken here at the first slot that holds it. */
  lemma NextCovered(g: Modules, modules: seq<Yield>, routes: seq<seq<nat>>, n: nat, out: seq<Named>, places: seq<Place>,
                    memo: set<ParameterId>, taken: seq<Named>, keys: seq<string>, at: seq<nat>, s: nat, p: ParameterId)
    requires n < |modules| == |routes| && |places| == |out| && modules[n].module_ in g
    requires Covered(g, modules, routes, n, out, places) && TakesExactly(out, {}, memo)
    requires forall i, j :: 0 <= i < j < |routes| ==> Before(routes[i], routes[j])
    requires var slots := g[modules[n].module_].parameters; SlotsFit(slots, |slots|, memo, taken, keys, at)
    ensures CoveredSlot(g, modules, routes, n, s, p, out + taken, places + PlacesOf(routes[n], at))
  {
    var slots, pb := g[modules[n].module_].parameters, PlacesOf(routes[n], at);
    if s < |slots| && slots[s].target == Some(p) {
      if p in memo {
        assert p in multiset(memo - {});
        assert p in Parameters(out);
        var k :| 0 <= k < |out| && Parameters(out)[k] == p;
        assert out[k].parameter == p && Sooner(places[k], Place(routes[n], s));
        TakenGrows(out, places, taken, pb, p, Place(routes[n], s));
      } else {
        assert FirstSlot(taken, at, p, s);
        var k :| 0 <= k < |taken| && taken[k].parameter == p && at[k] <= s;
        var i := |out| + k;
        assert (out + taken)[i] == taken[k] && (places + pb)[i] == Place(routes[n], at[k]);
      }
    }
  }

  lemma CoveredAppend(g: Modules, modules: seq<Yield>, routes: seq<seq<nat>>, n: nat, out: seq<Named>, places: seq<Place>,
                      memo: set<ParameterId>, taken: seq<Named>, keys: seq<string>, at: seq<nat>)
    requires n < |modules| == |routes| && |places| == |out| && modules[n].module_ in g
    requires Covered(g, modules, routes, n, out, places) && TakesExactly(out, {}, memo)
    requires forall i, j :: 0 <= i < j < |routes| ==> Before(routes[i], routes[j])
    requires var slots := g[modules[n].module_].parameters; SlotsFit(slots, |slots|, memo, taken, keys, at)
    ensures Covered(g, modules, routes, n + 1, out + taken, places + PlacesOf(routes[n], at))
  {
    var all, pb := out + taken, PlacesOf(routes[n], at);
    forall j: nat, s: nat, p: ParameterId | j < n + 1 ensures CoveredSlot(g, modules, routes, j, s, p, all, places + pb) {
      if j < n {
        assert CoveredSlot(g, modules, routes, j, s, p, out, places);
        var d := modules[j].module_;
        if d in g && s < |g[d].parameters| && g[d].parameters[s].target == Some(p) {
          TakenGrows(out, places, taken, pb, p, Place(routes[j], s));
        }
      } else {
        NextCovered(g, modules, routes, n, out, places, memo, taken, keys, at, s, p);
      }
    }
  }

  /** Every place has its module yielded by the first route to it, so its parameter is taken there or sooner. */
  lemma AllCovered(g: Modules, m: ModuleId, modules: seq<Yield>, modulePaths: seq<seq<string>>, routes: seq<seq<nat>>,
                   out: seq<Named>, places: seq<Place>, place: Place, d: ModuleId, p: ParameterId)
    requires RoutesFit(g, m, {}, modules, modulePaths, routes) && |places| == |out|
    requires Covered(g, modules, routes, |modules|, out, places) && At(g, m, place, d, p)
    ensures TakenBy(out, places, p, place)
  {
    assert YieldedBy(modules, routes, d, place.route);
    var j :| 0 <= j < |modules| && modules[j].module_ == d && (routes[j] == place.route || Before(routes[j], place.route));
    assert CoveredSlot(g, modules, routes, j, place.slot, p, out, places);
    TakenEarlier(out, places, p, Place(routes[j], place.slot), place);
  }

  /** Every parameter of the first `n` yielded modules is in the memo. */
  ghost predicate AllTaken(g: Modules, modules: seq<Yield>, n: nat, memo: set<ParameterId>)
    requires n <= |modules|
  {
    forall j, p :: 0 <= j < n && modules[j].module_ in g && Holds(g[modules[j].module_].parameters, p) ==> p in memo
  }

  /** The loop over modules, after the first `n` of them. */
  ghost predicate Collected(g: Modules, m: ModuleId, prefix: string, modules: seq<Yield>, routes: seq<seq<nat>>, n: nat,
                            out: seq<Named>, memo: set<ParameterId>, paths: seq<seq<string>>, places: seq<Place>)
    requires n <= |modules| == |routes|
  {
    && TakesExactly(out, {}, memo)
    && AllTaken(g, modules, n, memo)
    && NamesFit(g, m, prefix, out, paths)
    && PlacesAscend(g, m, out, paths, places) && Covered(g, modules, routes, n, out, places)
  }

  lemma EarlierRoutes(g: Modules, modules: seq<Yield>, routes: seq<seq<nat>>, n: nat, out: seq<Named>, places: seq<Place>, at: seq<nat>)
    requires n < |modules| == |routes| && |places| == |out| && Covered(g, modules, routes, n, out, places)
    requires forall i, j :: 0 <= i < j < |routes| ==> Before(routes[i], routes[j])
    ensures forall k, l :: 0 <= k < |places| && 0 <= l < |at| ==> Before(places[k].route, PlacesOf(routes[n], at)[l].route)
  {
  }

  lemma CollectedNext(g: Modules, m: ModuleId, prefix: string, modules: seq<Yield>, modulePaths: seq<seq<string>>,
                      routes: seq<seq<nat>>, n: nat, out: seq<Named>, memo: set<ParameterId>, paths: seq<seq<string>>,
                      places: seq<Place>, taken: seq<Named>, grown: set<ParameterId>, keys: seq<string>, at: seq<nat>)
    requires n < |modules| == |routes| == |modulePaths| && modules[n].module_ in g
    requires Collected(g, m, prefix, modules, routes, n, out, memo, paths, places)
    requires PathFits(g, m, prefix, modules[n], modulePaths[n]) && RouteFits(g, m, {}, modules[n], modulePaths[n], routes[n])
    requires forall i, j :: 0 <= i < j < |routes| ==> Before(routes[i], routes[j])
    requires TakesExactly(taken, memo, grown) && |keys| == |taken|
    requires var slots := g[modules[n].module_].parameters;
      && (forall p :: Holds(slots, p) ==> p in grown)
      && (forall i {:trigger taken[i]} :: 0 <= i < |taken| ==> SlotFits(slots, modules[n].prefix, taken[i], keys[i]))
      && SlotsFit(slots, |slots|, memo, taken, keys, at)
    ensures Collected(g, m, prefix, modules, routes, n + 1, out + taken, grown, paths + Appended(modulePaths[n], keys),
                      places + PlacesOf(routes[n], at))
  {
    TakesAppend(out, taken, {}, memo, grown);
    NamesFitBelow(g, m, prefix, modules[n], modulePaths[n], taken, keys);
    NamesFitAppend(g, m, prefix, out, paths, taken, Appended(modulePaths[n], keys));
    TakenPlaced(g, m, modules[n], modulePaths[n], routes[n], memo, taken, keys, at);
    EarlierRoutes(g, modules, routes, n, out, places, at);
    PlacesAppend(g, m, out, paths, places, taken, Appended(modulePaths[n], keys), PlacesOf(routes[n], at));
    CoveredAppend(g, modules, routes, n, out, places, memo, taken, keys, at);
  }

  /** Every parameter held at or below `m`, once, under the name of the first place that holds it, in the order of
      places. */
  method NamedParameters(g: Modules, m: ModuleId, prefix: string)
    returns (out: seq<Named>, memo: set<ParameterId>, ghost paths: seq<seq<string>>, ghost places: seq<Place>)
    requires Valid(g) && m in g
    ensures TakesExactly(out, {}, memo)
    ensures forall p :: p in memo <==> Below(g, m, p)
    ensures NamesFit(g, m, prefix, out, paths)
    ensures PlacesFit(g, m, out, paths, places)
  {
    ghost var modulePaths, routes;
    var modules, visited;
    modules, visited, modulePaths, routes := NamedModules(g, m, {}, prefix);
    out, memo, paths, places := [], {}, [], [];
    for i := 0 to |modules|
      invariant Collected(g, m, prefix, modules, routes, i, out, memo, paths, places)
    {
      var d := modules[i].module_;
      assert PathFits(g, m, prefix, modules[i], modulePaths[i]);
      ResolvesInside(g, m, modulePaths[i], d);
      var taken, grown;
      ghost var keys, at;
      taken, grown, keys, at := TakeMembers(g[d].parameters, modules[i].prefix, memo);
      CollectedNext(g, m, prefix, modules, modulePaths, routes, i, out, memo, paths, places, taken, grown, keys, at);
      places := places + PlacesOf(routes[i], at);
      out, memo, paths := out + taken, grown, paths + Appended(modulePaths[i], keys);
    }
    CollectedAll(g, m, prefix, modules, visited, modulePaths, routes, out, memo, paths, places);
  }

  lemma CollectedAll(g: Modules, m: ModuleId, prefix: string, modules: seq<Yield>, visited: set<ModuleId>,
                     modulePaths: seq<seq<string>>, routes: seq<seq<nat>>, out: seq<Named>, memo: set<ParameterId>,
                     paths: seq<seq<string>>, places: seq<Place>)
    requires RoutesFit(g, m, {}, modules, modulePaths, routes)
    requires YieldsExactly(modules, {}, visited) && (forall d :: d in visited <==> Reachable(g, m, d))
    requires Collected(g, m, prefix, modules, routes, |modules|, out, memo, paths, places)
    ensures forall p :: p in memo <==> Below(g, m, p)
    ensures PlacesFit(g, m, out, paths, places)
  {
    TakenAreBelow(g, m, prefix, modules, visited, out, memo, paths);
    forall place, e, p | At(g, m, place, e, p) ensures TakenBy(out, places, p, place) {
      AllCovered(g, m, modules, modulePaths, routes, out, places, place, e, p);
    }
  }

  lemma {:induction false} TakenAreBelow(g: Modules, m: ModuleId, prefix: string, modules: seq<Yield>, visited: set<ModuleId>,
                      out: seq<Named>, memo: set<ParameterId>, paths: seq<seq<string>>)
    requires YieldsExactly(modules, {}, visited) && (forall d :: d in visited <==> Reachable(g, m, d))
    requires TakesExactly(out, {}, memo) && NamesFit(g, m, prefix, out, paths)
    requires AllTaken(g, modules, |modules|, memo)
    ensures forall p :: p in memo <==> Below(g, m, p)
  {
    forall p ensures p in memo <==> Below(g, m, p) {
      if p in memo {
        assert p in multiset(memo - {});
        assert p in Parameters(out);
        var i :| 0 <= i < |out| && Parameters(out)[i] == p;
        assert NamedBy(g, m, prefix, out[i], paths[i]);
        var d :| NameFits(g, m, prefix, out[i], paths[i], d);
        assert Reachable(g, m, d);
        assert Holds(g[d].parameters, p);
      }
      if Below(g, m, p) {
        var d :| d in g && Reachable(g, m, d) && Holds(g[d].parameters, p);
        assert d in multiset(visited - {});
        assert d in Ids(modules);
        var j :| 0 <= j < |modules| && Ids(modules)[j] == d;
      }
    }
  }
}
