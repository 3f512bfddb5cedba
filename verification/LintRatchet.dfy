/** The lint ratchet for legacy files: counting violations, comparing with a baseline, listing what is new, and
    writing a baseline. Paths are made relative to the repository by a function of the file name. */
module LintRatchet {
  import opened Wrappers
  import opened LintOrder

  /** One reported violation, with the fields the tool's output may lack; a syntax error has no code. */
  datatype Violation = Violation(code: Option<string>, filename: Option<string>, row: Option<int>, message: Option<string>)

  type Normalize = string -> string
  type Counts = map<string, map<string, nat>>

  function FileOf(normalize: Normalize, v: Violation): string {
    normalize(if v.filename.Some? then v.filename.value else "")
  }

  // ----- Counting -----

  function CountOf(c: Counts, file: string, rule: string): nat {
    if file in c && rule in c[file] then c[file][rule] else 0
  }

  function Bumped(c: Counts, file: string, rule: string): Counts {
    c[file := (if file in c then c[file] else map[])[rule := CountOf(c, file, rule) + 1]]
  }

  function Counted(normalize: Normalize, vs: seq<Violation>): Counts {
    if vs == [] then map[]
    else
      var v, before := vs[|vs| - 1], Counted(normalize, vs[..|vs| - 1]);
      if v.code.None? then before else Bumped(before, FileOf(normalize, v), v.code.value)
  }

  method CountViolations(normalize: Normalize, vs: seq<Violation>) returns (counts: Counts)
    ensures counts == Counted(normalize, vs)
  {
    counts := map[];
    for i := 0 to |vs|
      invariant counts == Counted(normalize, vs[..i])
    {
      assert vs[..i + 1][..i] == vs[..i];
      if vs[i].code.None? {
        continue;
      }
      counts := Bumped(counts, FileOf(normalize, vs[i]), vs[i].code.value);
    }
    assert vs[..|vs|] == vs;
  }

  predicate Is(normalize: Normalize, v: Violation, file: string, rule: string) {
    v.code == Some(rule) && FileOf(normalize, v) == file
  }

  /** How many of the violations break this rule in this file. */
  function Occurrences(normalize: Normalize, vs: seq<Violation>, file: string, rule: string): nat {
    if vs == [] then 0
    else Occurrences(normalize, vs[..|vs| - 1], file, rule) + if Is(normalize, vs[|vs| - 1], file, rule) then 1 else 0
  }

  function Coded(vs: seq<Violation>): nat {
    if vs == [] then 0 else Coded(vs[..|vs| - 1]) + if vs[|vs| - 1].code.Some? then 1 else 0
  }

  /** The counts are the occurrences, and a pair is listed exactly when it occurs. */
  lemma {:induction false} CountsAreOccurrences(normalize: Normalize, vs: seq<Violation>, file: string, rule: string)
    ensures var c := Counted(normalize, vs);
      && CountOf(c, file, rule) == Occurrences(normalize, vs, file, rule)
      && (file in c && rule in c[file] <==> Occurrences(normalize, vs, file, rule) > 0)
  {
    if vs != [] {
      CountsAreOccurrences(normalize, vs[..|vs| - 1], file, rule);
    }
  }

  // ----- Counts add up -----

  ghost function SumOf(m: map<string, nat>): nat {
    if m == map[] then 0
    else
      var k :| k in m;
      m[k] + SumOf(m - {k})
  }

  lemma {:induction false} SumWithout(m: map<string, nat>, k: string)
    requires k in m
    ensures SumOf(m) == m[k] + SumOf(m - {k})
    decreases |m|
  {
    var first :| first in m && SumOf(m) == m[first] + SumOf(m - {first});
    if first != k {
      SumWithout(m - {first}, k);
      SumWithout(m - {k}, first);
      assert m - {first} - {k} == m - {k} - {first};
    }
  }

  lemma SumUpdated(m: map<string, nat>, k: string, n: nat)
    ensures SumOf(m[k := n]) == SumOf(m) + n - if k in m then m[k] else 0
  {
    SumWithout(m[k := n], k);
    assert m[k := n] - {k} == m - {k};
    if k in m {
      SumWithout(m, k);
    } else {
      assert m - {k} == m;
    }
  }

  ghost function PerFile(c: Counts): map<string, nat> {
    map file | file in c :: SumOf(c[file])
  }

  lemma PerFileUpdated(c: Counts, file: string, rules: map<string, nat>)
    ensures PerFile(c[file := rules]) == PerFile(c)[file := SumOf(rules)]
  {
  }

  lemma BumpedTotal(c: Counts, file: string, rule: string)
    ensures SumOf(PerFile(Bumped(c, file, rule))) == SumOf(PerFile(c)) + 1
  {
    var rules: map<string, nat> := if file in c then c[file] else map[];
    var bumped := rules[rule := CountOf(c, file, rule) + 1];
    SumUpdated(rules, rule, CountOf(c, file, rule) + 1);
    PerFileUpdated(c, file, bumped);
    SumUpdated(PerFile(c), file, SumOf(bumped));
  }

  /** Nothing is lost and nothing is counted twice: the counts add up to the violations that carry a code. */
  lemma {:induction false} TotalIsCoded(normalize: Normalize, vs: seq<Violation>)
    ensures SumOf(PerFile(Counted(normalize, vs))) == Coded(vs)
  {
    if vs != [] {
      var rest, v := vs[..|vs| - 1], vs[|vs| - 1];
      TotalIsCoded(normalize, rest);
      if v.code.Some? {
        BumpedTotal(Counted(normalize, rest), FileOf(normalize, v), v.code.value);
      }
    }
  }

  // ----- Comparing with a baseline -----

  /** A baseline entry as it is parsed; only an object is compared with. */
  datatype Entry = Rules(counts: map<string, int>) | NotObject
  type Baseline = map<string, Entry>

  predicate Compared(b: Baseline, file: string) {
    file in b ==> b[file].Rules?
  }

  function AllowedRules(b: Baseline, file: string): map<string, int>
    requires Compared(b, file)
  {
    if file in b then b[file].counts else map[]
  }

  function Allowed(b: Baseline, file: string, rule: string): int
    requires Compared(b, file)
  {
    if rule in AllowedRules(b, file) then AllowedRules(b, file)[rule] else 0
  }

  predicate Regressed(c: Counts, b: Baseline, file: string, rule: string) {
    file in c && rule in c[file] && Compared(b, file) && c[file][rule] > Allowed(b, file, rule)
  }

  predicate Improved(c: Counts, b: Baseline, checked: set<string>, file: string, rule: string) {
    file in checked && Compared(b, file) && rule in AllowedRules(b, file) && CountOf(c, file, rule) < Allowed(b, file, rule)
  }

  /** No count is above what the baseline allows; a file whose entry is not an object is not compared at all. */
  ghost predicate WithinBaseline(c: Counts, b: Baseline) {
    forall file, rule :: !Regressed(c, b, file, rule)
  }

  datatype Delta = Delta(file: string, rule: string, delta: int)

  predicate Earlier(x: Delta, y: Delta) {
    Below(x.file, y.file) || (x.file == y.file && Below(x.rule, y.rule))
  }

  ghost predicate Ascending(ds: seq<Delta>) {
    forall i, j :: 0 <= i < j < |ds| ==> Earlier(ds[i], ds[j])
  }

  /** The rules of one file that went up, in ascending order. */
  method FileRegressions(c: Counts, b: Baseline, file: string) returns (ds: seq<Delta>)
    requires file in c && Compared(b, file)
    ensures forall d :: d in ds <==>
              d.file == file && Regressed(c, b, file, d.rule) && d.delta == c[file][d.rule] - Allowed(b, file, d.rule)
    ensures Ascending(ds)
  {
    ds := [];
    var rules := SortedKeys(c[file].Keys);
    for i := 0 to |rules|
      invariant forall d :: d in ds <==>
                  d.file == file && d.rule in rules[..i] && Regressed(c, b, file, d.rule)
                  && d.delta == c[file][d.rule] - Allowed(b, file, d.rule)
      invariant Ascending(ds)
    {
      var rule := rules[i];
      assert rules[..i + 1] == rules[..i] + [rule];
      if c[file][rule] > Allowed(b, file, rule) {
        forall d | d in ds ensures Below(d.rule, rule) {
          assert d.rule in rules[..i];
        }
        ds := ds + [Delta(file, rule, c[file][rule] - Allowed(b, file, rule))];
      }
    }
    assert rules[..|rules|] == rules;
  }

  method FindRegressions(c: Counts, b: Baseline) returns (ds: seq<Delta>)
    ensures forall d :: d in ds <==>
              Regressed(c, b, d.file, d.rule) && d.delta == c[d.file][d.rule] - Allowed(b, d.file, d.rule)
    ensures Ascending(ds)
    ensures ds == [] <==> WithinBaseline(c, b)
  {
    ds := [];
    var files := SortedKeys(c.Keys);
    for i := 0 to |files|
      invariant forall d :: d in ds <==>
                  d.file in files[..i] && Regressed(c, b, d.file, d.rule)
                  && d.delta == c[d.file][d.rule] - Allowed(b, d.file, d.rule)
      invariant Ascending(ds)
    {
      var file := files[i];
      assert files[..i + 1] == files[..i] + [file];
      if Compared(b, file) {
        var more := FileRegressions(c, b, file);
        forall d | d in ds ensures Below(d.file, file) {
          assert d.file in files[..i];
        }
        ds := ds + more;
      }
    }
    assert files[..|files|] == files;
    if ds != [] {
      assert ds[0] in ds;
    }
    forall file, rule | Regressed(c, b, file, rule) ensures ds != [] {
      assert Delta(file, rule, c[file][rule] - Allowed(b, file, rule)) in ds;
    }
  }

  ghost predicate Distinct(ds: seq<Delta>) {
    forall i, j :: 0 <= i < j < |ds| ==> (ds[i].file, ds[i].rule) != (ds[j].file, ds[j].rule)
  }

  /** The rules of one file that went down, in whatever order the baseline's dictionary is visited. */
  method FileImprovements(c: Counts, b: Baseline, checked: set<string>, file: string) returns (ds: seq<Delta>)
    requires file in checked && Compared(b, file)
    ensures forall d :: d in ds <==>
              d.file == file && Improved(c, b, checked, file, d.rule)
              && d.delta == Allowed(b, file, d.rule) - CountOf(c, file, d.rule)
    ensures Distinct(ds)
  {
    ds := [];
    var todo := AllowedRules(b, file).Keys;
    while todo != {}
      invariant todo <= AllowedRules(b, file).Keys
      invariant forall d :: d in ds <==>
                  d.file == file && d.rule !in todo && Improved(c, b, checked, file, d.rule)
                  && d.delta == Allowed(b, file, d.rule) - CountOf(c, file, d.rule)
      invariant Distinct(ds)
      decreases |todo|
    {
      var rule :| rule in todo;
      if CountOf(c, file, rule) < Allowed(b, file, rule) {
        forall d | d in ds ensures d.rule != rule {
        }
        ds := ds + [Delta(file, rule, Allowed(b, file, rule) - CountOf(c, file, rule))];
      }
      todo := todo - {rule};
    }
  }

  method FindImprovements(c: Counts, b: Baseline, checked: set<string>) returns (ds: seq<Delta>)
    ensures forall d :: d in ds <==>
              Improved(c, b, checked, d.file, d.rule) && d.delta == Allowed(b, d.file, d.rule) - CountOf(c, d.file, d.rule)
    ensures Distinct(ds)
    ensures forall i, j :: 0 <= i < j < |ds| ==> !Below(ds[j].file, ds[i].file)
  {
    ds := [];
    var files := SortedKeys(checked);
    for i := 0 to |files|
      invariant forall d :: d in ds <==>
                  d.file in files[..i] && Improved(c, b, checked, d.file, d.rule)
                  && d.delta == Allowed(b, d.file, d.rule) - CountOf(c, d.file, d.rule)
      invariant Distinct(ds)
      invariant forall k, j :: 0 <= k < j < |ds| ==> !Below(ds[j].file, ds[k].file)
    {
      var file := files[i];
      assert files[..i + 1] == files[..i] + [file];
      if Compared(b, file) {
        var more := FileImprovements(c, b, checked, file);
        forall d | d in ds ensures Below(d.file, file) && d.file != file && !Below(file, d.file) {
          assert d.file in files[..i];
          NotBelowItself(file);
          NotBothBelow(d.file, file);
        }
        NotBelowItself(file);
        ds := ds + more;
      }
    }
    assert files[..|files|] == files;
  }
}
