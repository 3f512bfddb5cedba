/** When the names of two parameters are equal, and graphs on which they are. */
module ParameterNames {
  import opened Wrappers
  import opened ModuleTree
  import opened ModuleParameters

  // ----- Joined names -----

  predicate DotFree(names: seq<string>) {
    forall i :: 0 <= i < |names| ==> '.' !in names[i]
  }

  function Head(s: string): string {
    if s == "" || s[0] == '.' then "" else [s[0]] + Head(s[1..])
  }

  lemma {:induction false} HeadOfName(name: string, rest: string)
    requires '.' !in name && (rest == "" || rest[0] == '.')
    ensures Head(name + rest) == name
  {
    if name == "" {
      assert name + rest == rest;
    } else {
      assert (name + rest)[1..] == name[1..] + rest;
      HeadOfName(name[1..], rest);
    }
  }

  /** What `Join` appends to a prefix that is not empty. */
  function Tail(names: seq<string>): string {
    if names == [] then "" else "." + names[0] + Tail(names[1..])
  }

  lemma {:induction false} JoinIsTail(prefix: string, names: seq<string>)
    requires prefix != ""
    ensures Join(prefix, names) == prefix + Tail(names)
    decreases |names|
  {
    if names != [] {
      JoinIsTail(Extend(prefix, names[0]), names[1..]);
      assert Extend(prefix, names[0]) + Tail(names[1..]) == prefix + ("." + names[0] + Tail(names[1..]));
    }
  }

  lemma {:induction false} TailInjective(a: seq<string>, b: seq<string>)
    requires DotFree(a) && DotFree(b) && Tail(a) == Tail(b)
    ensures a == b
  {
    if a != [] && b != [] {
      HeadOfName(a[0], Tail(a[1..]));
      HeadOfName(b[0], Tail(b[1..]));
      assert Tail(a)[1..] == a[0] + Tail(a[1..]);
      assert Tail(b)[1..] == b[0] + Tail(b[1..]);
      assert a[0] == b[0];
      assert (a[0] + Tail(a[1..]))[|a[0]|..] == Tail(a[1..]);
      assert (b[0] + Tail(b[1..]))[|a[0]|..] == Tail(b[1..]);
      TailInjective(a[1..], b[1..]);
      assert a == [a[0]] + a[1..] && b == [b[0]] + b[1..];
    }
  }

  /** Empty names at the front leave no trace in a joined name that starts from nothing. */
  function Strip(names: seq<string>): seq<string> {
    if names != [] && names[0] == "" then Strip(names[1..]) else names
  }

  lemma {:induction false} JoinStrips(names: seq<string>)
    ensures Join("", names) == Join("", Strip(names))
    ensures DotFree(names) ==> DotFree(Strip(names))
    ensures Strip(names) != [] ==> Strip(names)[0] != ""
  {
    if names != [] && names[0] == "" {
      assert Extend("", names[0]) == "";
      JoinStrips(names[1..]);
    }
  }

  lemma {:induction false} JoinFromEmpty(names: seq<string>)
    requires names != [] && names[0] != ""
    ensures "." + Join("", names) == Tail(names)
  {
    assert Extend("", names[0]) == names[0];
    JoinIsTail(names[0], names[1..]);
    assert "." + (names[0] + Tail(names[1..])) == "." + names[0] + Tail(names[1..]);
  }

  lemma {:induction false} StrippedInjective(a: seq<string>, b: seq<string>)
    requires DotFree(a) && DotFree(b) && (a != [] ==> a[0] != "") && (b != [] ==> b[0] != "") && Join("", a) == Join("", b)
    ensures a == b
  {
    if a != [] { JoinFromEmpty(a); }
    if b != [] { JoinFromEmpty(b); }
    if a != [] && b != [] {
      TailInjective(a, b);
    } else {
      assert |Tail(a)| <= 1 && |Tail(b)| <= 1;
    }
  }

  /** Two dot-free paths join to the same name exactly when they are equal, up to empty names at the front if there
      is no prefix. */
  lemma {:induction false} JoinEqualIff(prefix: string, a: seq<string>, b: seq<string>)
    requires DotFree(a) && DotFree(b)
    ensures Join(prefix, a) == Join(prefix, b) <==> if prefix == "" then Strip(a) == Strip(b) else a == b
  {
    if prefix == "" {
      JoinStrips(a);
      JoinStrips(b);
      if Join("", a) == Join("", b) {
        StrippedInjective(Strip(a), Strip(b));
      }
    } else if Join(prefix, a) == Join(prefix, b) {
      JoinIsTail(prefix, a);
      JoinIsTail(prefix, b);
      assert (prefix + Tail(a))[|prefix|..] == Tail(a) && (prefix + Tail(b))[|prefix|..] == Tail(b);
      TailInjective(a, b);
    }
  }

  // ----- Names of yielded parameters -----

  /** No name in the graph, of a child or of a parameter, holds a dot. */
  predicate DotFreeGraph(g: Modules) {
    forall m :: m in g ==>
      && (forall i :: 0 <= i < |g[m].children| ==> '.' !in g[m].children[i].name)
      && (forall i :: 0 <= i < |g[m].parameters| ==> '.' !in g[m].parameters[i].name)
  }

  lemma {:induction false} PathDotFree(g: Modules, m: ModuleId, names: seq<string>, d: ModuleId)
    requires DotFreeGraph(g) && Resolves(g, m, names, d)
    ensures DotFree(names)
    decreases |names|
  {
    if names != [] {
      var i :| 0 <= i < |g[m].children| && Leads(g, g[m].children[i], names, d);
      PathDotFree(g, g[m].children[i].target.value, names[1..], d);
      assert names == [names[0]] + names[1..];
    }
  }

  lemma NameDotFree(g: Modules, m: ModuleId, prefix: string, n: Named, path: seq<string>)
    requires DotFreeGraph(g) && NamedBy(g, m, prefix, n, path)
    ensures path != [] && DotFree(path) && n.name == Join(prefix, path)
  {
    var d :| NameFits(g, m, prefix, n, path, d);
    PathDotFree(g, m, path[..|path| - 1], d);
    assert path == path[..|path| - 1] + [path[|path| - 1]];
  }

  /** In a graph without dots, two yielded parameters share their name exactly when there is no prefix and their
      paths differ only in empty names at the front. */
  lemma {:induction false} NamesEqualIff(g: Modules, m: ModuleId, prefix: string, out: seq<Named>, paths: seq<seq<string>>, i: nat, j: nat)
    requires DotFreeGraph(g) && NamesFit(g, m, prefix, out, paths) && i < |out| && j < |out|
    ensures out[i].name == out[j].name <==> if prefix == "" then Strip(paths[i]) == Strip(paths[j]) else paths[i] == paths[j]
  {
    assert NamedBy(g, m, prefix, out[i], paths[i]) && NamedBy(g, m, prefix, out[j], paths[j]);
    NameDotFree(g, m, prefix, out[i], paths[i]);
    NameDotFree(g, m, prefix, out[j], paths[j]);
    JoinEqualIff(prefix, paths[i], paths[j]);
  }

  lemma SlotUnique(g: Modules, d: ModuleId, key: string, p: ParameterId, q: ParameterId)
    requires Valid(g) && d in g && HasSlot(g[d].parameters, key, p) && HasSlot(g[d].parameters, key, q)
    ensures p == q
  {
    var i :| 0 <= i < |g[d].parameters| && g[d].parameters[i] == Slot(key, Some(p));
    var j :| 0 <= j < |g[d].parameters| && g[d].parameters[j] == Slot(key, Some(q));
    assert i == j;
  }

  lemma {:induction false} TwoCopies(s: seq<ParameterId>, i: nat, j: nat)
    requires i < j < |s| && s[i] == s[j]
    ensures multiset(s)[s[i]] >= 2
  {
    assert s == s[..j] + s[j..];
    assert multiset(s) == multiset(s[..j]) + multiset(s[j..]);
    assert s[..j][i] in multiset(s[..j]);
    assert s[j..][0] in multiset(s[j..]);
  }

  lemma {:induction false} OnceEach(s: seq<ParameterId>, all: set<ParameterId>, i: nat, j: nat)
    requires multiset(s) == multiset(all) && i < j < |s|
    ensures s[i] != s[j]
  {
    if s[i] == s[j] {
      TwoCopies(s, i, j);
    }
  }

  /** Different parameters are yielded for different paths. */
  lemma {:induction false} PathsDistinct(g: Modules, m: ModuleId, prefix: string, out: seq<Named>, memo: set<ParameterId>,
                                         paths: seq<seq<string>>, i: nat, j: nat)
    requires Valid(g) && TakesExactly(out, {}, memo) && NamesFit(g, m, prefix, out, paths) && i < j < |out|
    ensures paths[i] != paths[j]
  {
    if paths[i] == paths[j] {
      assert NamedBy(g, m, prefix, out[i], paths[i]) && NamedBy(g, m, prefix, out[j], paths[j]);
      var d :| NameFits(g, m, prefix, out[i], paths[i], d);
      var e :| NameFits(g, m, prefix, out[j], paths[j], e);
      ResolvesUnique(g, m, paths[i][..|paths[i]| - 1], d, e);
      SlotUnique(g, d, paths[i][|paths[i]| - 1], out[i].parameter, out[j].parameter);
      OnceEach(Parameters(out), memo - {}, i, j);
    }
  }

  predicate NoEmptyChild(info: ModuleInfo) {
    forall i :: 0 <= i < |info.children| ==> info.children[i].name != ""
  }

  lemma FirstNameIsNotEmpty(g: Modules, m: ModuleId, prefix: string, n: Named, path: seq<string>)
    requires m in g && NoEmptyChild(g[m]) && NamedBy(g, m, prefix, n, path)
    ensures path != [] && (|path| > 1 ==> path[0] != "")
  {
    var d :| NameFits(g, m, prefix, n, path, d);
    if |path| > 1 {
      var names := path[..|path| - 1];
      var i :| 0 <= i < |g[m].children| && Leads(g, g[m].children[i], names, d);
    }
  }

  lemma StripKeeps(a: seq<string>, b: seq<string>)
    requires a != [] && b != [] && (|a| > 1 ==> a[0] != "") && (|b| > 1 ==> b[0] != "") && Strip(a) == Strip(b)
    ensures a == b
  {
    if |a| == 1 { assert a[1..] == []; }
    if |b| == 1 { assert b[1..] == []; }
  }

  /** No two parameters share a name when no name in the graph holds a dot and there is a prefix; without a prefix,
      when the module the walk starts from has no child with an empty name. Empty names further down do no harm. */
  lemma {:induction false} NamesDistinct(g: Modules, m: ModuleId, prefix: string, out: seq<Named>, memo: set<ParameterId>,
                                         paths: seq<seq<string>>, i: nat, j: nat)
    requires Valid(g) && m in g && TakesExactly(out, {}, memo) && NamesFit(g, m, prefix, out, paths) && i < j < |out|
    requires DotFreeGraph(g) && (prefix == "" ==> NoEmptyChild(g[m]))
    ensures out[i].name != out[j].name
  {
    NamesEqualIff(g, m, prefix, out, paths, i, j);
    PathsDistinct(g, m, prefix, out, memo, paths, i, j);
    if prefix == "" && Strip(paths[i]) == Strip(paths[j]) {
      assert NamedBy(g, m, prefix, out[i], paths[i]) && NamedBy(g, m, prefix, out[j], paths[j]);
      FirstNameIsNotEmpty(g, m, prefix, out[i], paths[i]);
      FirstNameIsNotEmpty(g, m, prefix, out[j], paths[j]);
      StripKeeps(paths[i], paths[j]);
    }
  }

  // ----- Collisions -----

  /** What a call of `NamedParameters` promises about its results. */
  ghost predicate Yielded(g: Modules, m: ModuleId, out: seq<Named>, memo: set<ParameterId>, paths: seq<seq<string>>) {
    TakesExactly(out, {}, memo) && (forall p :: p in memo <==> Below(g, m, p)) && NamesFit(g, m, "", out, paths)
  }

  lemma YieldedAt(g: Modules, m: ModuleId, out: seq<Named>, memo: set<ParameterId>, paths: seq<seq<string>>, d: ModuleId, key: string, p: ParameterId)
    returns (i: nat, e: ModuleId)
    requires Yielded(g, m, out, memo, paths) && d in g && Reachable(g, m, d) && HasSlot(g[d].parameters, key, p)
    ensures i < |out| == |paths| && out[i].parameter == p && NameFits(g, m, "", out[i], paths[i], e)
  {
    assert Holds(g[d].parameters, p) && Below(g, m, p);
    assert p in multiset(memo - {});
    assert p in Parameters(out);
    i :| 0 <= i < |out| && Parameters(out)[i] == p;
    assert NamedBy(g, m, "", out[i], paths[i]);
    e :| NameFits(g, m, "", out[i], paths[i], e);
  }

  /** A root with a parameter `key` and a child that holds a parameter `w`. */
  function RootAndChild(child: string, key: string): Modules {
    map[0 := ModuleInfo([Child(child, Some(1))], [Slot(key, Some(1))]), 1 := ModuleInfo([], [Slot("w", Some(2))])]
  }

  predicate TwoModules(g: Modules, child: string, key: string) {
    && g.Keys == {0, 1} && g[0] == ModuleInfo([Child(child, Some(1))], [Slot(key, Some(1))])
    && g[1] == ModuleInfo([], [Slot("w", Some(2))])
  }

  lemma PathsOfTwo(g: Modules, child: string, key: string, names: seq<string>, d: ModuleId)
    requires TwoModules(g, child, key) && Resolves(g, 0, names, d)
    ensures (d == 0 ==> names == []) && (d == 1 ==> names == [child])
  {
    if names != [] {
      var i :| 0 <= i < |g[0].children| && Leads(g, g[0].children[i], names, d);
      assert Resolves(g, 1, names[1..], d);
      assert names == [names[0]] + names[1..];
    }
  }

  /** In such a graph every result names its two parameters by these two paths. */
  lemma NamesOfTwo(g: Modules, child: string, key: string, out: seq<Named>, memo: set<ParameterId>, paths: seq<seq<string>>)
    returns (i: nat, j: nat)
    requires TwoModules(g, child, key) && Yielded(g, 0, out, memo, paths)
    ensures i < |out| && j < |out| && out[i].parameter == 1 && out[j].parameter == 2
    ensures out[i].name == Join("", [key]) && out[j].name == Join("", [child, "w"])
  {
    var d, e;
    assert Resolves(g, 0, [], 0) && g[0].parameters[0] == Slot(key, Some(1));
    i, d := YieldedAt(g, 0, out, memo, paths, 0, key, 1);
    assert Resolves(g, 1, [], 1) && [child][1..] == [];
    assert Leads(g, g[0].children[0], [child], 1);
    assert Resolves(g, 0, [child], 1) && g[1].parameters[0] == Slot("w", Some(2));
    j, e := YieldedAt(g, 0, out, memo, paths, 1, "w", 2);
    var p, q := paths[i], paths[j];
    PathsOfTwo(g, child, key, p[..|p| - 1], d);
    PathsOfTwo(g, child, key, q[..|q| - 1], e);
    assert p == p[..|p| - 1] + [p[|p| - 1]] && q == q[..|q| - 1] + [q[|q| - 1]];
  }

  lemma RootAndChildIsTwo(child: string, key: string)
    ensures TwoModules(RootAndChild(child, key), child, key) && Valid(RootAndChild(child, key))
  {
  }

  /** Some two different parameters are yielded under one name. */
  predicate Collides(out: seq<Named>) {
    exists i, j :: 0 <= i < |out| && 0 <= j < |out| && out[i].parameter != out[j].parameter && out[i].name == out[j].name
  }

  lemma TwoCollide(g: Modules, child: string, key: string, out: seq<Named>, memo: set<ParameterId>, paths: seq<seq<string>>)
    requires TwoModules(g, child, key) && Yielded(g, 0, out, memo, paths) && Join("", [key]) == Join("", [child, "w"])
    ensures Collides(out)
  {
    var i, j := NamesOfTwo(g, child, key, out, memo, paths);
  }

  lemma EmptyNameVanishes()
    ensures Join("", ["w"]) == Join("", ["", "w"])
  {
    assert Extend("", "") == "" && ["", "w"][1..] == ["w"];
  }

  lemma DotLooksLikeAChild()
    ensures Join("", ["a.w"]) == Join("", ["a", "w"])
  {
    assert ["a.w"][1..] == [] && ["a", "w"][1..] == ["w"] && ["w"][1..] == [];
    assert Extend("", "a") == "a" && Extend("a", "w") == "a.w" && Extend("", "a.w") == "a.w";
    assert Join("", ["a.w"]) == "a.w" && Join("a", ["w"]) == "a.w";
  }

  /** A child of the root with an empty name, and no dot anywhere: every result yields two parameters as `w`. */
  lemma EmptyNamesCollide(out: seq<Named>, memo: set<ParameterId>, paths: seq<seq<string>>)
    requires Yielded(RootAndChild("", "w"), 0, out, memo, paths)
    ensures Valid(RootAndChild("", "w")) && Collides(out)
  {
    RootAndChildIsTwo("", "w");
    EmptyNameVanishes();
    TwoCollide(RootAndChild("", "w"), "", "w", out, memo, paths);
  }

  /** A parameter name that holds a dot, and no empty name: every result yields two parameters as `a.w`. */
  lemma DottedNamesCollide(out: seq<Named>, memo: set<ParameterId>, paths: seq<seq<string>>)
    requires Yielded(RootAndChild("a", "a.w"), 0, out, memo, paths)
    ensures Valid(RootAndChild("a", "a.w")) && Collides(out)
  {
    RootAndChildIsTwo("a", "a.w");
    DotLooksLikeAChild();
    TwoCollide(RootAndChild("a", "a.w"), "a", "a.w", out, memo, paths);
  }
}
