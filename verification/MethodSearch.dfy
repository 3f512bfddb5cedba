/** Deciding whether a test class defines or inherits a method, across all indexed files. */
module MethodSearch {
  import opened Arithmetic
  import opened Wrappers

  datatype ClassInfo = ClassInfo(methods: set<string>, bases: seq<string>)

  /** One indexed file; None when it could not be parsed. */
  type FileIndex = Option<map<string, ClassInfo>>

  // ----- Parameterized expansions -----

  function LeadingDigits(s: string): (n: nat)
    ensures n <= |s|
    ensures forall i :: 0 <= i < n ==> '0' <= s[i] <= '9'
    ensures n < |s| ==> !('0' <= s[n] <= '9')
  {
    if s != "" && '0' <= s[0] <= '9' then 1 + LeadingDigits(s[1..]) else 0
  }

  /** A number, and then the end or an underscore. */
  predicate NumberedSuffix(s: string) {
    var n := LeadingDigits(s);
    n > 0 && (n == |s| || s[n] == '_')
  }

  /** `name` is an expansion of `method`: the method's name, an underscore, and a numbered suffix. */
  predicate ExpansionOf(name: string, method_: string) {
    method_ + "_" <= name && NumberedSuffix(name[|method_| + 1..])
  }

  predicate MatchesParameterized(name: string, methods: set<string>) {
    exists m :: m in methods && ExpansionOf(name, m)
  }

  predicate AllDigits(s: string) {
    forall i :: 0 <= i < |s| ==> '0' <= s[i] <= '9'
  }

  lemma {:induction false} DigitsThenRest(digits: string, rest: string)
    requires AllDigits(digits) && (rest == "" || !('0' <= rest[0] <= '9'))
    ensures LeadingDigits(digits + rest) == |digits|
  {
    if digits == "" {
      assert digits + rest == rest;
    } else {
      assert (digits + rest)[1..] == digits[1..] + rest;
      DigitsThenRest(digits[1..], rest);
    }
  }

  /** The name is the method's name, an underscore and a number, followed by nothing or by an underscore and more. */
  ghost predicate Expands(name: string, method_: string, digits: string, rest: string) {
    && name == method_ + "_" + digits + rest
    && digits != "" && AllDigits(digits)
    && (rest == "" || rest[0] == '_')
  }

  /** A name counts as an expansion exactly if it can be split so. */
  lemma ExpansionMeans(name: string, method_: string)
    ensures ExpansionOf(name, method_) <==> exists digits, rest :: Expands(name, method_, digits, rest)
  {
    if ExpansionOf(name, method_) {
      ExpansionSplits(name, method_);
    }
    forall digits, rest | Expands(name, method_, digits, rest) ensures ExpansionOf(name, method_) {
      SplitIsExpansion(name, method_, digits, rest);
    }
  }

  lemma ExpansionSplits(name: string, method_: string)
    requires ExpansionOf(name, method_)
    ensures exists digits, rest :: Expands(name, method_, digits, rest)
  {
    var head := method_ + "_";
    var suffix := name[|head|..];
    var n := LeadingDigits(suffix);
    var digits, rest := suffix[..n], suffix[n..];
    assert suffix == digits + rest;
    assert name == head + suffix;
    assert Expands(name, method_, digits, rest);
  }

  lemma SplitIsExpansion(name: string, method_: string, digits: string, rest: string)
    requires Expands(name, method_, digits, rest)
    ensures ExpansionOf(name, method_)
  {
    var head := method_ + "_";
    DigitsThenRest(digits, rest);
    assert name == head + (digits + rest);
    assert name[|head|..] == digits + rest;
  }

  // ----- The inheritance graph -----

  predicate DefinesIn(file: FileIndex, class_: string, name: string) {
    && file.Some? && class_ in file.value
    && (name in file.value[class_].methods || MatchesParameterized(name, file.value[class_].methods))
  }

  /** Some file's class of that name defines the method or a parameterized base of it. */
  predicate Defines(files: seq<FileIndex>, class_: string, name: string) {
    exists k :: 0 <= k < |files| && DefinesIn(files[k], class_, name)
  }

  predicate ExtendsIn(file: FileIndex, class_: string, base: string) {
    file.Some? && class_ in file.value && base in file.value[class_].bases
  }

  predicate Extends(files: seq<FileIndex>, class_: string, base: string) {
    exists k :: 0 <= k < |files| && ExtendsIn(files[k], class_, base)
  }

  predicate Lineage(files: seq<FileIndex>, path: seq<string>) {
    path != [] && forall i :: 0 <= i < |path| - 1 ==> Extends(files, path[i], path[i + 1])
  }

  /** `ancestor` is the class itself or reachable through bases, in whatever files they are. */
  ghost predicate Descends(files: seq<FileIndex>, class_: string, ancestor: string) {
    exists path :: Lineage(files, path) && path[0] == class_ && path[|path| - 1] == ancestor
  }

  /** What the search decides. */
  ghost predicate Inherits(files: seq<FileIndex>, class_: string, name: string) {
    exists ancestor :: Descends(files, class_, ancestor) && Defines(files, ancestor, name)
  }

  lemma DescendsSelf(files: seq<FileIndex>, class_: string)
    ensures Descends(files, class_, class_)
  {
    assert Lineage(files, [class_]);
  }

  lemma InheritsThroughBase(files: seq<FileIndex>, class_: string, base: string, name: string)
    requires Extends(files, class_, base) && Inherits(files, base, name)
    ensures Inherits(files, class_, name)
  {
    var ancestor :| Descends(files, base, ancestor) && Defines(files, ancestor, name);
    var path :| Lineage(files, path) && path[0] == base && path[|path| - 1] == ancestor;
    var longer := [class_] + path;
    forall i | 0 <= i < |longer| - 1 ensures Extends(files, longer[i], longer[i + 1]) {
      if i > 0 { assert Extends(files, path[i - 1], path[i]); }
    }
    assert Lineage(files, longer) && longer[0] == class_ && longer[|longer| - 1] == ancestor;
  }

  // ----- The search -----

  function Classes(file: FileIndex): set<string> {
    if file.Some? then file.value.Keys else {}
  }

  function AllClasses(files: seq<FileIndex>): (all: set<string>)
    ensures forall k :: 0 <= k < |files| ==> Classes(files[k]) <= all
  {
    if files == [] then {} else Classes(files[0]) + AllClasses(files[1..])
  }

  /** A class the search is done with: it does not define the method and all its bases have been visited. */
  ghost predicate Settled(files: seq<FileIndex>, name: string, visited: set<string>, class_: string) {
    && !Defines(files, class_, name)
    && forall base :: Extends(files, class_, base) ==> base in visited
  }

  /** A settled set is a dead end: nothing reachable from it defines the method. */
  lemma {:induction false} SettledStaysInside(files: seq<FileIndex>, name: string, visited: set<string>, path: seq<string>)
    requires forall c :: c in visited ==> Settled(files, name, visited, c)
    requires Lineage(files, path) && path[0] in visited
    ensures path[|path| - 1] in visited
    decreases |path|
  {
    if |path| > 1 {
      assert Extends(files, path[0], path[0 + 1]);
      forall i | 0 <= i < |path[1..]| - 1 ensures Extends(files, path[1..][i], path[1..][i + 1]) {
        assert Extends(files, path[i + 1], path[(i + 1) + 1]);
      }
      SettledStaysInside(files, name, visited, path[1..]);
    }
  }

  lemma SettledInheritsNothing(files: seq<FileIndex>, name: string, visited: set<string>, class_: string)
    requires forall c :: c in visited ==> Settled(files, name, visited, c)
    requires class_ in visited
    ensures !Inherits(files, class_, name)
  {
    forall ancestor | Descends(files, class_, ancestor) ensures !Defines(files, ancestor, name) {
      var path :| Lineage(files, path) && path[0] == class_ && path[|path| - 1] == ancestor;
      SettledStaysInside(files, name, visited, path);
      assert Settled(files, name, visited, ancestor);
    }
  }

  lemma SettledGrows(files: seq<FileIndex>, name: string, visited: set<string>, more: set<string>, class_: string)
    requires Settled(files, name, visited, class_) && visited <= more
    ensures Settled(files, name, more, class_)
  {
  }

  /** Searches the bases of one class in one file. */
  method SearchBases(bases: seq<string>, name: string, files: seq<FileIndex>, class_: string, visited: set<string>)
    returns (found: bool, visited': set<string>)
    requires class_ in visited && class_ in AllClasses(files)
    requires forall i :: 0 <= i < |bases| ==> Extends(files, class_, bases[i])
    ensures visited <= visited'
    ensures found ==> Inherits(files, class_, name)
    ensures !found ==> forall i :: 0 <= i < |bases| ==> bases[i] in visited'
    ensures !found ==> forall c :: c in visited' && c !in visited ==> Settled(files, name, visited', c)
    decreases |AllClasses(files) - visited|, 1
  {
    visited' := visited;
    for i := 0 to |bases|
      invariant visited <= visited'
      invariant forall j :: 0 <= j < i ==> bases[j] in visited'
      invariant forall c :: c in visited' && c !in visited ==> Settled(files, name, visited', c)
    {
      ghost var before := visited';
      SmallerRest(AllClasses(files), visited, before);
      found, visited' := HasMethod(bases[i], name, files, visited');
      if found {
        InheritsThroughBase(files, class_, bases[i], name);
        return true, visited';
      }
      forall c | c in visited' && c !in visited ensures Settled(files, name, visited', c) {
        if c in before { SettledGrows(files, name, before, visited', c); }
      }
    }
    return false, visited';
  }

  /** Checks if a class defines or inherits a method. `visited` is shared by all branches of the search, so a
      class reached twice is looked at once, and a cycle of bases ends the search. */
  method HasMethod(class_: string, name: string, files: seq<FileIndex>, visited: set<string>)
    returns (found: bool, visited': set<string>)
    ensures visited <= visited'
    ensures found ==> Inherits(files, class_, name)
    ensures !found ==> class_ in visited'
    ensures !found ==> forall c :: c in visited' && c !in visited ==> Settled(files, name, visited', c)
    ensures visited == {} ==> (found <==> Inherits(files, class_, name))
    decreases |AllClasses(files) - visited|, 0
  {
    if class_ in visited {
      return false, visited;
    }
    visited' := visited + {class_};
    for k := 0 to |files|
      invariant visited + {class_} <= visited'
      invariant forall c :: c in visited' && c !in visited && c != class_ ==> Settled(files, name, visited', c)
      invariant forall j :: 0 <= j < k ==> !DefinesIn(files[j], class_, name)
      invariant forall j, base :: 0 <= j < k && ExtendsIn(files[j], class_, base) ==> base in visited'
    {
      if files[k].None? || class_ !in files[k].value {
        continue;
      }
      var info := files[k].value[class_];
      if name in info.methods || MatchesParameterized(name, info.methods) {
        assert DefinesIn(files[k], class_, name);
        DescendsSelf(files, class_);
        return true, visited';
      }
      forall i | 0 <= i < |info.bases| ensures Extends(files, class_, info.bases[i]) {
        assert ExtendsIn(files[k], class_, info.bases[i]);
      }
      ghost var before := visited';
      assert class_ in Classes(files[k]);
      StrictlySmallerRest(AllClasses(files), visited, before, class_);
      found, visited' := SearchBases(info.bases, name, files, class_, visited');
      if found {
        return true, visited';
      }
      forall c | c in visited' && c !in visited && c != class_ ensures Settled(files, name, visited', c) {
        if c in before { SettledGrows(files, name, before, visited', c); }
      }
    }
    assert Settled(files, name, visited', class_);
    if visited == {} {
      SettledInheritsNothing(files, name, visited', class_);
    }
    return false, visited';
  }
}
