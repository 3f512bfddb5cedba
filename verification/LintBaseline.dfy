/** Listing the violations behind a regression, the pre-commit verdict, and writing and reading back a baseline. */
module LintBaseline {
  import opened Wrappers
  import opened LintOrder
  import opened LintRatchet

  // ----- Listing -----

  datatype Listing = Listing(file: string, line: int, rule: string, message: string)

  predicate Sooner(x: Listing, y: Listing) {
    Below(x.file, y.file) || (x.file == y.file && x.line < y.line)
  }

  function ListingOf(normalize: Normalize, v: Violation): Listing
    requires v.code.Some?
  {
    Listing(FileOf(normalize, v), if v.row.Some? then v.row.value else 0, v.code.value,
            if v.message.Some? then v.message.value else "")
  }

  /** The violations of the regressed pairs, in the order they were reported. */
  function Listed(normalize: Normalize, vs: seq<Violation>, c: Counts, b: Baseline): seq<Listing> {
    if vs == [] then []
    else
      var v, before := vs[|vs| - 1], Listed(normalize, vs[..|vs| - 1], c, b);
      if v.code.Some? && Regressed(c, b, FileOf(normalize, v), v.code.value) then before + [ListingOf(normalize, v)]
      else before
  }

  /** The listings at one place, in order. */
  function At(ls: seq<Listing>, file: string, line: int): seq<Listing> {
    if ls == [] then []
    else
      var before := At(ls[..|ls| - 1], file, line);
      if ls[|ls| - 1].file == file && ls[|ls| - 1].line == line then before + [ls[|ls| - 1]] else before
  }

  ghost predicate ByPlace(ls: seq<Listing>) {
    forall i, j :: 0 <= i < j < |ls| ==> !Sooner(ls[j], ls[i])
  }

  /** Sorted by file and line, and with the listings of every place in the order they came. */
  ghost predicate StablySorted(from: seq<Listing>, to: seq<Listing>) {
    && ByPlace(to)
    && forall file, line :: At(to, file, line) == At(from, file, line)
  }

  lemma {:induction false} AtConcat(xs: seq<Listing>, ys: seq<Listing>, file: string, line: int)
    ensures At(xs + ys, file, line) == At(xs, file, line) + At(ys, file, line)
  {
    if ys == [] {
      assert xs + ys == xs;
    } else {
      AtConcat(xs, ys[..|ys| - 1], file, line);
      assert (xs + ys)[..|xs + ys| - 1] == xs + ys[..|ys| - 1];
    }
  }

  lemma {:induction false} AtNone(ls: seq<Listing>, file: string, line: int)
    requires forall i :: 0 <= i < |ls| ==> ls[i].file != file || ls[i].line != line
    ensures At(ls, file, line) == []
  {
    if ls != [] {
      AtNone(ls[..|ls| - 1], file, line);
    }
  }

  lemma SoonerIsTransitive(x: Listing, y: Listing, z: Listing)
    requires Sooner(x, y) && !Sooner(z, y)
    ensures Sooner(x, z)
  {
    BelowIsTotal(y.file, z.file);
    if Below(x.file, y.file) && Below(y.file, z.file) {
      BelowIsTransitive(x.file, y.file, z.file);
    }
  }

  lemma NotSoonerItself(x: Listing, y: Listing)
    requires Sooner(x, y)
    ensures !Sooner(y, x) && (x.file != y.file || x.line != y.line)
  {
    NotBelowItself(x.file);
    if Below(x.file, y.file) {
      NotBothBelow(x.file, y.file);
    }
  }

  /** At its place: nothing before it is later, and everything behind it is. */
  ghost predicate Fits(ls: seq<Listing>, x: Listing, at: nat) {
    && at <= |ls|
    && (forall i :: 0 <= i < at ==> !Sooner(x, ls[i]))
    && (forall i :: at <= i < |ls| ==> Sooner(x, ls[i]))
  }

  /** Where a listing goes: after everything that is not later than it. */
  method PlaceOfListing(ls: seq<Listing>, x: Listing) returns (at: nat)
    requires ByPlace(ls)
    ensures Fits(ls, x, at)
  {
    at := |ls|;
    while at > 0 && Sooner(x, ls[at - 1])
      invariant at <= |ls|
      invariant forall i :: at <= i < |ls| ==> Sooner(x, ls[i])
    {
      at := at - 1;
    }
    forall i | 0 <= i < at ensures !Sooner(x, ls[i]) {
      if i < at - 1 && Sooner(x, ls[i]) {
        SoonerIsTransitive(x, ls[i], ls[at - 1]);
      }
    }
  }

  lemma InsertedAt(ls: seq<Listing>, x: Listing, at: nat, file: string, line: int)
    requires Fits(ls, x, at)
    ensures At(ls[..at] + [x] + ls[at..], file, line) == At(ls, file, line) + At([x], file, line)
  {
    AtConcat(ls[..at] + [x], ls[at..], file, line);
    AtConcat(ls[..at], [x], file, line);
    AtConcat(ls[..at], ls[at..], file, line);
    assert ls[..at] + ls[at..] == ls;
    if x.file == file && x.line == line {
      forall i | at <= i < |ls| ensures ls[i].file != file || ls[i].line != line {
        NotSoonerItself(x, ls[i]);
      }
      AtNone(ls[at..], file, line);
    } else {
      AtNone([x], file, line);
    }
  }

  lemma InsertedByPlace(ls: seq<Listing>, x: Listing, at: nat)
    requires ByPlace(ls) && Fits(ls, x, at)
    ensures ByPlace(ls[..at] + [x] + ls[at..])
  {
    forall i | at <= i < |ls| ensures !Sooner(ls[i], x) {
      NotSoonerItself(x, ls[i]);
    }
  }

  lemma InsertedStably(from: seq<Listing>, ls: seq<Listing>, x: Listing, at: nat)
    requires StablySorted(from, ls) && Fits(ls, x, at)
    ensures StablySorted(from + [x], ls[..at] + [x] + ls[at..])
  {
    InsertedByPlace(ls, x, at);
    forall file, line ensures At(ls[..at] + [x] + ls[at..], file, line) == At(from + [x], file, line) {
      InsertedAt(ls, x, at, file, line);
      AtConcat(from, [x], file, line);
    }
  }

  lemma InsertedMultiset(ls: seq<Listing>, x: Listing, at: nat)
    requires at <= |ls|
    ensures multiset(ls[..at] + [x] + ls[at..]) == multiset(ls) + multiset{x}
  {
    assert ls == ls[..at] + ls[at..];
  }

  method SortListings(from: seq<Listing>) returns (to: seq<Listing>)
    ensures StablySorted(from, to)
    ensures multiset(to) == multiset(from)
  {
    to := [];
    for n := 0 to |from|
      invariant StablySorted(from[..n], to)
      invariant multiset(to) == multiset(from[..n])
    {
      assert from[..n + 1] == from[..n] + [from[n]];
      var at := PlaceOfListing(to, from[n]);
      InsertedStably(from[..n], to, from[n], at);
      InsertedMultiset(to, from[n], at);
      to := to[..at] + [from[n]] + to[at..];
    }
    assert from[..|from|] == from;
  }

  method RegressedPairs(c: Counts, b: Baseline) returns (pairs: set<(string, string)>)
    ensures forall file, rule :: (file, rule) in pairs <==> Regressed(c, b, file, rule)
  {
    pairs := {};
    var files := c.Keys;
    while files != {}
      invariant files <= c.Keys
      invariant forall file, rule :: (file, rule) in pairs <==> file !in files && Regressed(c, b, file, rule)
      decreases |files|
    {
      var file :| file in files;
      if Compared(b, file) {
        pairs := pairs + (set rule | rule in c[file] && c[file][rule] > Allowed(b, file, rule) :: (file, rule));
      }
      files := files - {file};
    }
  }

  /** This listing describes a violation of a regressed pair: its file, its line or 0, its rule, its message or none. */
  ghost predicate Describes(normalize: Normalize, v: Violation, c: Counts, b: Baseline, l: Listing) {
    && Is(normalize, v, l.file, l.rule) && Regressed(c, b, l.file, l.rule)
    && l.line == (if v.row.Some? then v.row.value else 0)
    && l.message == (if v.message.Some? then v.message.value else "")
  }

  lemma {:induction false} ListedLast(normalize: Normalize, vs: seq<Violation>, c: Counts, b: Baseline, l: Listing)
    requires vs != []
    ensures var n := |vs| - 1;
      l in Listed(normalize, vs, c, b) <==> l in Listed(normalize, vs[..n], c, b) || Describes(normalize, vs[n], c, b, l)
  {
  }

  lemma {:induction false} ListedDescribes(normalize: Normalize, vs: seq<Violation>, c: Counts, b: Baseline, l: Listing)
    ensures l in Listed(normalize, vs, c, b) <==> exists i :: 0 <= i < |vs| && Describes(normalize, vs[i], c, b, l)
  {
    if vs != [] {
      var n := |vs| - 1;
      var rest := vs[..n];
      ListedDescribes(normalize, rest, c, b, l);
      ListedLast(normalize, vs, c, b, l);
      if i :| 0 <= i < |rest| && Describes(normalize, rest[i], c, b, l) {
        assert Describes(normalize, vs[i], c, b, l);
      }
      if i :| 0 <= i < |vs| && Describes(normalize, vs[i], c, b, l) {
        assert i < n ==> Describes(normalize, rest[i], c, b, l);
      }
    }
  }

  method IdentifyNewViolations(normalize: Normalize, vs: seq<Violation>, b: Baseline) returns (results: seq<Listing>)
    ensures forall l :: l in results <==>
              exists i :: 0 <= i < |vs| && Describes(normalize, vs[i], Counted(normalize, vs), b, l)
    ensures StablySorted(Listed(normalize, vs, Counted(normalize, vs), b), results)
    ensures multiset(results) == multiset(Listed(normalize, vs, Counted(normalize, vs), b))
  {
    var c := CountViolations(normalize, vs);
    var pairs := RegressedPairs(c, b);
    results := [];
    for i := 0 to |vs|
      invariant results == Listed(normalize, vs[..i], c, b)
    {
      assert vs[..i + 1][..i] == vs[..i];
      if vs[i].code.None? {
        continue;
      }
      if (FileOf(normalize, vs[i]), vs[i].code.value) in pairs {
        results := results + [ListingOf(normalize, vs[i])];
      }
    }
    assert vs[..|vs|] == vs;
    ghost var listed := results;
    results := SortListings(results);
    forall l ensures l in results <==> exists i :: 0 <= i < |vs| && Describes(normalize, vs[i], c, b, l) {
      ListedDescribes(normalize, vs, c, b, l);
      assert l in results <==> l in multiset(results);
      assert l in listed <==> l in multiset(listed);
    }
  }

  function ListedFor(ls: seq<Listing>, file: string, rule: string): nat {
    if ls == [] then 0
    else ListedFor(ls[..|ls| - 1], file, rule) + if ls[|ls| - 1].file == file && ls[|ls| - 1].rule == rule then 1 else 0
  }

  /** A regressed pair has all its violations listed, and any other pair none. */
  lemma {:induction false} ListedExactly(normalize: Normalize, vs: seq<Violation>, c: Counts, b: Baseline,
                                         file: string, rule: string)
    ensures ListedFor(Listed(normalize, vs, c, b), file, rule)
            == if Regressed(c, b, file, rule) then Occurrences(normalize, vs, file, rule) else 0
  {
    if vs != [] {
      ListedExactly(normalize, vs[..|vs| - 1], c, b, file, rule);
    }
  }

  lemma {:induction false} ListedIsRegressed(normalize: Normalize, vs: seq<Violation>, c: Counts, b: Baseline, k: nat)
    requires k < |Listed(normalize, vs, c, b)|
    ensures var l := Listed(normalize, vs, c, b)[k]; Regressed(c, b, l.file, l.rule)
  {
    var rest := vs[..|vs| - 1];
    if k < |Listed(normalize, rest, c, b)| {
      ListedIsRegressed(normalize, rest, c, b, k);
    }
  }

  /** Something is listed exactly when something regressed. */
  lemma ListedIffRegressed(normalize: Normalize, vs: seq<Violation>, b: Baseline)
    ensures var c := Counted(normalize, vs);
      Listed(normalize, vs, c, b) == [] <==> WithinBaseline(c, b)
  {
    var c := Counted(normalize, vs);
    var ls := Listed(normalize, vs, c, b);
    if ls != [] {
      ListedIsRegressed(normalize, vs, c, b, 0);
    }
    forall file, rule | Regressed(c, b, file, rule) ensures ls != [] {
      ListedExactly(normalize, vs, c, b, file, rule);
      CountsAreOccurrences(normalize, vs, file, rule);
    }
  }

  // ----- The pre-commit verdict -----

  /** `modified` are the files the tool rewrote. The commit passes exactly when there are none and every count is
      within the baseline; a failing count comes with the violations behind it. */
  method PrecommitMode(normalize: Normalize, modified: seq<string>, vs: seq<Violation>, b: Baseline)
    returns (exitCode: int, listed: seq<Listing>)
    ensures exitCode == if modified == [] && WithinBaseline(Counted(normalize, vs), b) then 0 else 1
    ensures listed == [] <==> WithinBaseline(Counted(normalize, vs), b)
    ensures multiset(listed) == multiset(Listed(normalize, vs, Counted(normalize, vs), b))
  {
    var c := CountViolations(normalize, vs);
    var regressions := FindRegressions(c, b);
    listed := [];
    ListedIffRegressed(normalize, vs, b);
    if regressions != [] {
      listed := IdentifyNewViolations(normalize, vs, b);
    }
    exitCode := if modified != [] || regressions != [] then 1 else 0;
  }

  // ----- Writing and reading back a baseline -----

  const META := "_meta"

  datatype Stored = Meta(totalViolations: nat, totalFiles: nat) | FileCounts(rules: map<string, nat>)

  /** What is stored: the totals under their own key, then every file's counts, which may replace them. */
  function Written(c: Counts, total: nat): map<string, Stored> {
    map[META := Meta(total, |c|)] + map file | file in c :: FileCounts(c[file])
  }

  /** Reading back drops the key of the totals, whatever is under it. */
  function Loaded(stored: map<string, Stored>): Baseline {
    map file | file in stored && file != META ::
      match stored[file] case Meta(_, _) => NotObject case FileCounts(rules) => Rules(map r | r in rules :: rules[r])
  }

  /** A file's rules added up, in whatever order the dictionary is visited. */
  method SumRules(rules: map<string, nat>) returns (total: nat)
    ensures total == SumOf(rules)
  {
    total := 0;
    var todo := rules;
    while todo != map[]
      invariant total + SumOf(todo) == SumOf(rules)
      decreases |todo|
    {
      var k :| k in todo;
      SumWithout(todo, k);
      total := total + todo[k];
      todo := todo - {k};
    }
  }

  lemma OnlyOnce(keys: seq<string>, i: nat)
    requires InOrder(keys) && i < |keys|
    ensures forall j :: 0 <= j < |keys| && j != i ==> keys[j] != keys[i]
  {
    NotBelowItself(keys[i]);
  }

  function EntriesFor(c: Counts, files: set<string>): map<string, Stored> {
    map file | file in c && file in files :: FileCounts(c[file])
  }

  lemma EntryAdded(c: Counts, done: set<string>, file: string)
    requires file in c
    ensures EntriesFor(c, done)[file := FileCounts(c[file])] == EntriesFor(c, done + {file})
  {
  }

  lemma FileAdded(c: Counts, done: set<string>, file: string)
    requires file in c && file !in done
    ensures SumOf(PerFile(c) - done) == SumOf(c[file]) + SumOf(PerFile(c) - (done + {file}))
  {
    SumWithout(PerFile(c) - done, file);
    assert PerFile(c) - done - {file} == PerFile(c) - (done + {file});
  }

  /** One entry per file, in ascending order, and the total over all of them. */
  method StoreFiles(c: Counts) returns (entries: map<string, Stored>, total: nat)
    ensures entries == EntriesFor(c, c.Keys)
    ensures total == SumOf(PerFile(c))
  {
    var files := SortedKeys(c.Keys);
    total, entries := 0, map[];
    ghost var done: set<string> := {};
    assert PerFile(c) - done == PerFile(c);
    for i := 0 to |files|
      invariant done <= c.Keys
      invariant forall j :: 0 <= j < |files| ==> (files[j] in done <==> j < i)
      invariant entries == EntriesFor(c, done)
      invariant total + SumOf(PerFile(c) - done) == SumOf(PerFile(c))
    {
      var file := files[i];
      OnlyOnce(files, i);
      FileAdded(c, done, file);
      EntryAdded(c, done, file);
      var sum := SumRules(c[file]);
      total := total + sum;
      entries := entries[file := FileCounts(c[file])];
      done := done + {file};
    }
    assert done == c.Keys;
    assert PerFile(c) - done == map[];
  }

  /** What was stored says of every file and rule how often it occurs, and what occurs is all it says. */
  ghost predicate StoresOccurrences(normalize: Normalize, vs: seq<Violation>, stored: map<string, Stored>) {
    forall file, rule {:trigger Occurrences(normalize, vs, file, rule)} ::
      var n := Occurrences(normalize, vs, file, rule);
      if n > 0
      then file in stored && stored[file].FileCounts? && rule in stored[file].rules && stored[file].rules[rule] == n
      else file in stored && stored[file].FileCounts? ==> rule !in stored[file].rules
  }

  lemma WrittenOccurrences(normalize: Normalize, vs: seq<Violation>)
    ensures StoresOccurrences(normalize, vs, Written(Counted(normalize, vs), Coded(vs)))
  {
    forall file, rule {:trigger Occurrences(normalize, vs, file, rule)}
      ensures var n, stored := Occurrences(normalize, vs, file, rule), Written(Counted(normalize, vs), Coded(vs));
        if n > 0
        then file in stored && stored[file].FileCounts? && rule in stored[file].rules && stored[file].rules[rule] == n
        else file in stored && stored[file].FileCounts? ==> rule !in stored[file].rules
    {
      CountsAreOccurrences(normalize, vs, file, rule);
    }
  }

  /** The totals are stored too, unless a file has taken their key. */
  method UpdateBaseline(normalize: Normalize, vs: seq<Violation>) returns (stored: map<string, Stored>)
    ensures stored == Written(Counted(normalize, vs), Coded(vs))
    ensures StoresOccurrences(normalize, vs, stored)
    ensures META in stored
    ensures META !in Counted(normalize, vs) ==> stored[META] == Meta(Coded(vs), |Counted(normalize, vs)|)
  {
    WrittenOccurrences(normalize, vs);
    var c := CountViolations(normalize, vs);
    var entries, total := StoreFiles(c);
    TotalIsCoded(normalize, vs);
    assert entries.Keys == c.Keys;
    assert |entries| == |entries.Keys| == |c|;
    assert entries == map file | file in c :: FileCounts(c[file]);
    stored := map[META := Meta(total, |entries|)] + entries;
  }

  /** A scan compares clean with the baseline written from it, with nothing to improve, exactly when no counted
      file has the name under which the totals are kept. */
  lemma WrittenComparesCleanIff(normalize: Normalize, vs: seq<Violation>, checked: set<string>)
    ensures var c := Counted(normalize, vs);
      var b := Loaded(Written(c, Coded(vs)));
      && (WithinBaseline(c, b) <==> META !in c)
      && (forall file, rule :: !Improved(c, b, checked, file, rule))
  {
    var c := Counted(normalize, vs);
    var b := Loaded(Written(c, Coded(vs)));
    if META in c {
      CountedFileHasRule(normalize, vs, META);
      var rule :| rule in c[META] && c[META][rule] > 0;
      assert Regressed(c, b, META, rule);
    }
  }

  lemma {:induction false} CountedFileHasRule(normalize: Normalize, vs: seq<Violation>, file: string)
    requires file in Counted(normalize, vs)
    ensures exists rule :: rule in Counted(normalize, vs)[file] && Counted(normalize, vs)[file][rule] > 0
  {
    var v, rest := vs[|vs| - 1], vs[..|vs| - 1];
    if v.code.Some? && FileOf(normalize, v) == file {
      assert v.code.value in Counted(normalize, vs)[file];
    } else {
      CountedFileHasRule(normalize, rest, file);
    }
  }

  /** A file of that name: its violations are written, dropped on reading, and reported as new. */
  lemma TotalsKeyCollides(normalize: Normalize, v: Violation)
    requires v.code.Some? && FileOf(normalize, v) == META
    ensures !WithinBaseline(Counted(normalize, [v]), Loaded(Written(Counted(normalize, [v]), 1)))
  {
    assert Coded([v]) == 1;
    WrittenComparesCleanIff(normalize, [v], {});
  }

  // ----- The ratchet -----

  /** A baseline of objects whose counts are not negative, as every written one is. */
  ghost predicate Proper(b: Baseline) {
    forall file :: file in b ==> b[file].Rules? && forall rule :: rule in b[file].counts ==> b[file].counts[rule] >= 0
  }

  ghost predicate NotLooser(b: Baseline, than: Baseline)
    requires Proper(b) && Proper(than)
  {
    forall file, rule :: Allowed(b, file, rule) <= Allowed(than, file, rule)
  }

  lemma NotLooserIsTransitive(a: Baseline, b: Baseline, c: Baseline)
    requires Proper(a) && Proper(b) && Proper(c) && NotLooser(a, b) && NotLooser(b, c)
    ensures NotLooser(a, c)
  {
    forall file, rule ensures Allowed(a, file, rule) <= Allowed(c, file, rule) {
      assert Allowed(a, file, rule) <= Allowed(b, file, rule) <= Allowed(c, file, rule);
    }
  }

  lemma WrittenIsProper(c: Counts, total: nat)
    ensures Proper(Loaded(Written(c, total)))
  {
  }

  lemma PassingTightens(c: Counts, total: nat, b: Baseline, next: Baseline)
    requires Proper(b) && Proper(next) && WithinBaseline(c, b) && next == Loaded(Written(c, total))
    ensures NotLooser(next, b)
  {
    forall file, rule ensures Allowed(next, file, rule) <= Allowed(b, file, rule) {
      assert !Regressed(c, b, file, rule);
    }
  }

  /** The baseline written from the last scan, or the one at the start. */
  function After(normalize: Normalize, b: Baseline, scans: seq<seq<Violation>>): Baseline {
    if scans == [] then b
    else
      var last := scans[|scans| - 1];
      Loaded(Written(Counted(normalize, last), Coded(last)))
  }

  /** Each scan was within the baseline written from the one before. */
  ghost predicate AllPass(normalize: Normalize, b: Baseline, scans: seq<seq<Violation>>) {
    scans != [] ==>
      var before := scans[..|scans| - 1];
      AllPass(normalize, b, before)
      && WithinBaseline(Counted(normalize, scans[|scans| - 1]), After(normalize, b, before))
  }

  /** Over any number of scans that pass and are written back, no pair is ever allowed more than at the start. */
  lemma {:induction false} RatchetNeverLoosens(normalize: Normalize, b: Baseline, scans: seq<seq<Violation>>)
    requires Proper(b) && AllPass(normalize, b, scans)
    ensures Proper(After(normalize, b, scans)) && NotLooser(After(normalize, b, scans), b)
    decreases |scans|
  {
    if scans != [] {
      var before, last := scans[..|scans| - 1], scans[|scans| - 1];
      RatchetNeverLoosens(normalize, b, before);
      WrittenIsProper(Counted(normalize, last), Coded(last));
      PassingTightens(Counted(normalize, last), Coded(last), After(normalize, b, before), After(normalize, b, scans));
      NotLooserIsTransitive(After(normalize, b, scans), After(normalize, b, before), b);
    }
  }
}
