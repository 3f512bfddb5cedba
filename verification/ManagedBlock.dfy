/** Keeping the generated part of a config file up to date between two marker comments. */
module ManagedBlock {
  import opened Wrappers

  datatype Markers = Markers(begin: string, end: string)

  const MARKERS := Markers("# <<<< BEGIN AUTO-GENERATED by scripts/legacy_utils.py gen-configs >>>>",
                           "# <<<< END AUTO-GENERATED >>>>")

  /** The END marker is some text on one line. */
  predicate OneLine(m: Markers) {
    m.end != "" && '\n' !in m.end
  }

  lemma MarkersOneLine()
    ensures OneLine(MARKERS)
  {
  }

  predicate OccursAt(s: string, pattern: string, i: nat) {
    i + |pattern| <= |s| && s[i..i + |pattern|] == pattern
  }

  function Find(s: string, pattern: string, from: nat): (r: Option<nat>)
    ensures r.Some? ==> from <= r.value && r.value + |pattern| <= |s|
    decreases |s| - from
  {
    if from + |pattern| > |s| then None
    else if OccursAt(s, pattern, from) then Some(from)
    else Find(s, pattern, from + 1)
  }

  /** One past the end of the line that holds position `i`. */
  function LineEnd(s: string, i: nat): (r: nat)
    requires i <= |s|
    ensures i <= r <= |s|
    decreases |s| - i
  {
    if i == |s| then i else if s[i] == '\n' then i + 1 else LineEnd(s, i + 1)
  }

  datatype Region = Region(begin: nat, end: nat)

  /** The managed block of a text. */
  function Locate(m: Markers, s: string): (r: Option<Region>)
    ensures r.Some? ==> r.value.begin <= r.value.end <= |s|
  {
    var b := Find(s, m.begin, 0);
    if b.None? then None
    else
      var e := Find(s, m.end, b.value + |m.begin|);
      if e.None? then None else Some(Region(b.value, LineEnd(s, e.value)))
  }

  function Replace(m: Markers, s: string, block: string): Result<string> {
    var r := Locate(m, s);
    if r.None? then Raised else Ok(s[..r.value.begin] + block + s[r.value.end..])
  }

  // ----- What is located -----

  /** `i` is the first occurrence at or after `from`. */
  ghost predicate First(s: string, pattern: string, from: nat, i: nat) {
    from <= i && OccursAt(s, pattern, i) && forall j: nat {:trigger OccursAt(s, pattern, j)} :: from <= j < i ==> !OccursAt(s, pattern, j)
  }

  /** The line at `i` ends at `j`: after its newline, or with the text. */
  ghost predicate LineEnds(s: string, i: nat, j: nat) {
    i <= j <= |s| && (forall k :: i <= k < j - 1 ==> s[k] != '\n') && (j < |s| ==> i < j && s[j - 1] == '\n')
  }

  /** The region runs from the first BEGIN marker to the end of the line of the first END marker after it, at `e`. */
  ghost predicate Located(m: Markers, s: string, r: Region, e: nat) {
    First(s, m.begin, 0, r.begin) && First(s, m.end, r.begin + |m.begin|, e) && LineEnds(s, e, r.end)
  }

  lemma {:induction false} FindIsFirst(s: string, pattern: string, from: nat, i: nat)
    ensures Find(s, pattern, from) == Some(i) <==> First(s, pattern, from, i)
    decreases |s| - from
  {
    if from + |pattern| <= |s| && !OccursAt(s, pattern, from) {
      FindIsFirst(s, pattern, from + 1, i);
    }
  }

  lemma {:induction false} LineEndIs(s: string, i: nat, j: nat)
    requires i <= |s|
    ensures LineEnd(s, i) == j <==> LineEnds(s, i, j)
    decreases |s| - i
  {
    if i < |s| && s[i] != '\n' {
      LineEndIs(s, i + 1, j);
    }
  }

  /** `Locate` finds the region there is. */
  lemma {:induction false} LocatedIsFound(m: Markers, s: string, r: Region, e: nat)
    requires Located(m, s, r, e)
    ensures Locate(m, s) == Some(r)
  {
    FindIsFirst(s, m.begin, 0, r.begin);
    FindIsFirst(s, m.end, r.begin + |m.begin|, e);
    LineEndIs(s, e, r.end);
  }

  /** What `Locate` finds is the region there is. */
  lemma {:induction false} FoundIsLocated(m: Markers, s: string, r: Region) returns (e: nat)
    requires Locate(m, s) == Some(r)
    ensures Located(m, s, r, e)
  {
    e := Find(s, m.end, r.begin + |m.begin|).value;
    FindIsFirst(s, m.begin, 0, r.begin);
    FindIsFirst(s, m.end, r.begin + |m.begin|, e);
    LineEndIs(s, e, r.end);
  }

  // ----- A block inside a text -----

  lemma OccursInside(before: string, s: string, after: string, pattern: string, i: nat)
    requires i + |pattern| <= |s|
    ensures OccursAt(before + s + after, pattern, |before| + i) <==> OccursAt(s, pattern, i)
  {
    var whole := before + s + after;
    assert whole[|before| + i..|before| + i + |pattern|] == s[i..i + |pattern|];
  }

  lemma OccursInPrefix(s: string, t: string, n: nat, pattern: string, i: nat)
    requires n <= |s| && n <= |t| && s[..n] == t[..n] && i + |pattern| <= n
    ensures OccursAt(s, pattern, i) <==> OccursAt(t, pattern, i)
  {
    assert s[i..i + |pattern|] == s[..n][i..i + |pattern|];
    assert t[i..i + |pattern|] == t[..n][i..i + |pattern|];
  }

  /** Putting a block that starts with the marker where the first marker was keeps that the first one. */
  lemma {:induction false} FirstStays(pattern: string, s: string, p: nat, block: string, after: string)
    requires First(s, pattern, 0, p) && OccursAt(block, pattern, 0)
    ensures First(s[..p] + block + after, pattern, 0, p)
  {
    var whole := s[..p] + block + after;
    OccursInside(s[..p], block, after, pattern, 0);
    var n := p + |pattern|;
    assert s[..n] == s[..p] + pattern;
    assert whole[..n] == s[..p] + block[..|pattern|];
    forall i: nat | i < p ensures !OccursAt(whole, pattern, i) {
      OccursInPrefix(s, whole, n, pattern, i);
    }
  }

  lemma {:induction false} FirstInside(pattern: string, before: string, block: string, after: string, from: nat, e: nat)
    requires e + |pattern| <= |block|
    ensures First(block, pattern, from, e) <==> First(before + block + after, pattern, |before| + from, |before| + e)
  {
    var whole := before + block + after;
    OccursInside(before, block, after, pattern, e);
    forall i: nat | from <= i < e ensures OccursAt(block, pattern, i) <==> OccursAt(whole, pattern, |before| + i) {
      OccursInside(before, block, after, pattern, i);
    }
    if First(block, pattern, from, e) {
      forall j: nat | |before| + from <= j < |before| + e ensures !OccursAt(whole, pattern, j) {
        assert !OccursAt(block, pattern, j - |before|);
      }
    }
    if First(whole, pattern, |before| + from, |before| + e) {
      forall i: nat | from <= i < e ensures !OccursAt(block, pattern, i) {
        assert !OccursAt(whole, pattern, |before| + i);
      }
    }
  }

  predicate EndsCleanly(block: string, after: string) {
    after == "" || (block != "" && block[|block| - 1] == '\n')
  }

  lemma {:induction false} LineEndsInside(before: string, block: string, after: string, e: nat)
    requires e < |block|
    ensures LineEnds(before + block + after, |before| + e, |before| + |block|)
       <==> LineEnds(block, e, |block|) && EndsCleanly(block, after)
  {
    var whole := before + block + after;
    forall k | e <= k < |block| ensures whole[|before| + k] == block[k] {
    }
    if LineEnds(whole, |before| + e, |before| + |block|) {
      forall k | e <= k < |block| - 1 ensures block[k] != '\n' {
        assert whole[|before| + k] != '\n';
      }
      assert whole[|before| + (|block| - 1)] == block[|block| - 1];
    }
    if LineEnds(block, e, |block|) && EndsCleanly(block, after) {
      forall k | |before| + e <= k < |before| + |block| - 1 ensures whole[k] != '\n' {
        assert block[k - |before|] != '\n';
      }
    }
  }

  /** The END marker is on its line. */
  lemma MarkerOnLine(m: Markers, s: string, e: nat, j: nat)
    requires OneLine(m) && OccursAt(s, m.end, e) && LineEnds(s, e, j)
    ensures e + |m.end| <= j
  {
    forall k | e <= k < e + |m.end| ensures s[k] != '\n' {
      assert s[k] == m.end[k - e];
    }
  }

  /** The block is exactly one managed region. */
  ghost predicate IsManaged(m: Markers, block: string, e: nat) {
    Located(m, block, Region(0, |block|), e)
  }

  lemma {:induction false} RegionIsBlock(m: Markers, before: string, block: string, after: string, e: nat)
    requires OneLine(m) && First(before + block + after, m.begin, 0, |before|) && OccursAt(block, m.begin, 0)
    ensures Located(m, before + block + after, Region(|before|, |before| + |block|), |before| + e)
       <==> IsManaged(m, block, e) && EndsCleanly(block, after)
  {
    var whole := before + block + after;
    if Located(m, whole, Region(|before|, |before| + |block|), |before| + e) {
      MarkerOnLine(m, whole, |before| + e, |before| + |block|);
      FirstInside(m.end, before, block, after, |m.begin|, e);
      LineEndsInside(before, block, after, e);
    }
    if IsManaged(m, block, e) && EndsCleanly(block, after) {
      MarkerOnLine(m, block, e, |block|);
      FirstInside(m.end, before, block, after, |m.begin|, e);
      LineEndsInside(before, block, after, e);
    }
  }

  // ----- Replacing twice -----

  /** What a caller can check: the block is one managed region, and it ends in a newline unless nothing follows it. */
  predicate Stable(m: Markers, s: string, block: string)
    requires Locate(m, s).Some?
  {
    Locate(m, block) == Some(Region(0, |block|)) && EndsCleanly(block, s[Locate(m, s).value.end..])
  }

  /** Replacing puts the block where the region was and keeps the text around it; it raises when there is none. */
  lemma {:induction false} ReplaceOutcome(m: Markers, s: string, block: string)
    ensures Replace(m, s, block).Raised? ==> forall r, e: nat :: !Located(m, s, r, e)
    ensures Replace(m, s, block).Ok? ==> exists r, e: nat :: Located(m, s, r, e)
    ensures forall r, e: nat :: Located(m, s, r, e) ==> Replace(m, s, block) == Ok(s[..r.begin] + block + s[r.end..])
  {
    forall r, e: nat | Located(m, s, r, e) ensures Locate(m, s) == Some(r) {
      LocatedIsFound(m, s, r, e);
    }
    if Locate(m, s).Some? {
      var e := FoundIsLocated(m, s, Locate(m, s).value);
    }
  }

  lemma {:induction false} ManagedIsLocated(m: Markers, s: string, r: Region, end: nat, block: string, e: nat)
    requires OneLine(m) && Located(m, s, r, end) && IsManaged(m, block, e) && EndsCleanly(block, s[r.end..])
    ensures Located(m, s[..r.begin] + block + s[r.end..], Region(r.begin, r.begin + |block|), r.begin + e)
  {
    FirstStays(m.begin, s, r.begin, block, s[r.end..]);
    RegionIsBlock(m, s[..r.begin], block, s[r.end..], e);
  }

  lemma {:induction false} StableIsFound(m: Markers, s: string, r: Region, block: string)
    requires OneLine(m) && Locate(m, s) == Some(r) && Stable(m, s, block)
    ensures Locate(m, s[..r.begin] + block + s[r.end..]) == Some(Region(r.begin, r.begin + |block|))
  {
    var end := FoundIsLocated(m, s, r);
    var e := FoundIsLocated(m, block, Region(0, |block|));
    ManagedIsLocated(m, s, r, end, block, e);
    LocatedIsFound(m, s[..r.begin] + block + s[r.end..], Region(r.begin, r.begin + |block|), r.begin + e);
  }

  /** The region found in a text starts with the BEGIN marker, and so does a block equal to it. */
  lemma {:induction false} RegionStarts(m: Markers, t: string, r: Region, e: nat)
    requires OneLine(m) && Located(m, t, r, e)
    ensures r.begin + |m.begin| <= e < r.end && OccursAt(t[r.begin..r.end], m.begin, 0)
  {
    MarkerOnLine(m, t, e, r.end);
    assert t[r.begin..r.end][..|m.begin|] == t[r.begin..r.begin + |m.begin|];
  }

  lemma FirstUnique(s: string, pattern: string, from: nat, i: nat, j: nat)
    requires First(s, pattern, from, i) && First(s, pattern, from, j)
    ensures i == j
  {
  }

  lemma {:induction false} LocatedIsManaged(m: Markers, s: string, r: Region, end: nat, block: string, q: Region, e: nat)
    requires OneLine(m) && Located(m, s, r, end)
    requires var t := s[..r.begin] + block + s[r.end..]; Located(m, t, q, e) && t[q.begin..q.end] == block
    ensures q.begin == r.begin <= e && IsManaged(m, block, e - r.begin) && EndsCleanly(block, s[r.end..])
  {
    var t := s[..r.begin] + block + s[r.end..];
    RegionStarts(m, t, q, e);
    FirstStays(m.begin, s, r.begin, block, s[r.end..]);
    FirstUnique(t, m.begin, 0, q.begin, r.begin);
    RegionIsBlock(m, s[..r.begin], block, s[r.end..], e - r.begin);
  }

  lemma {:induction false} BlockIsFound(m: Markers, s: string, r: Region, end: nat, block: string, q: Region, e: nat)
    requires OneLine(m) && Located(m, s, r, end)
    requires var t := s[..r.begin] + block + s[r.end..]; Located(m, t, q, e) && t[q.begin..q.end] == block
    ensures Locate(m, block) == Some(Region(0, |block|)) && EndsCleanly(block, s[r.end..])
  {
    LocatedIsManaged(m, s, r, end, block, q, e);
    LocatedIsFound(m, block, Region(0, |block|), e - r.begin);
  }

  lemma {:induction false} SameMeansEqual(t: string, i: nat, j: nat, block: string)
    requires i <= j <= |t| && t[..i] + block + t[j..] == t
    ensures t[i..j] == block
  {
    var u := t[..i] + block + t[j..];
    assert |u| == i + |block| + |t| - j;
    assert u[i..i + |block|] == block;
  }

  /** Replacing twice is replacing once exactly when the block is stable for this text. */
  lemma {:induction false} IdempotentIff(m: Markers, s: string, block: string)
    requires OneLine(m) && Locate(m, s).Some?
    ensures Replace(m, Replace(m, s, block).value, block) == Replace(m, s, block) <==> Stable(m, s, block)
  {
    var r := Locate(m, s).value;
    var t := s[..r.begin] + block + s[r.end..];
    if Stable(m, s, block) {
      StableIsFound(m, s, r, block);
      assert t[..r.begin] == s[..r.begin] && t[r.begin + |block|..] == s[r.end..];
    }
    if Replace(m, t, block) == Ok(t) {
      var q := Locate(m, t).value;
      SameMeansEqual(t, q.begin, q.end, block);
      var end := FoundIsLocated(m, s, r);
      var e := FoundIsLocated(m, t, q);
      BlockIsFound(m, s, r, end, block, q, e);
    }
  }

  lemma {:induction false} AdjacentMarkers(m: Markers, rest: string)
    requires OneLine(m) && (rest == "" || rest[0] == '\n')
    ensures Locate(m, m.begin + m.end + rest) == Some(Region(0, |m.begin| + |m.end| + if rest == "" then 0 else 1))
  {
    var s, n := m.begin + m.end + rest, |m.begin| + |m.end|;
    var r := Region(0, n + if rest == "" then 0 else 1);
    assert s[0..|m.begin|] == m.begin && s[|m.begin|..n] == m.end;
    assert LineEnds(s, |m.begin|, r.end) by {
      forall k | |m.begin| <= k < n ensures s[k] != '\n' {
        assert s[k] == m.end[k - |m.begin|];
      }
    }
    LocatedIsFound(m, s, r, |m.begin|);
  }

  /** Including both markers is not enough: text after the line of the END marker is added again by every run. */
  lemma {:induction false} TrailingTextRepeats(m: Markers)
    requires OneLine(m)
    ensures var s, block := m.begin + m.end + "", m.begin + m.end + "\nx";
            Replace(m, s, block) == Ok(block) && Replace(m, block, block) == Ok(block + "x")
  {
    var s, block := m.begin + m.end + "", m.begin + m.end + "\nx";
    var n := |m.begin| + |m.end|;
    AdjacentMarkers(m, "");
    AdjacentMarkers(m, "\nx");
    assert s[..0] + block + s[n..] == block;
    assert block[..0] + block + block[n + 1..] == block + "x";
  }

  /** The generated file and the two files that hold a managed block. */
  class Configs {
    var ruffLegacy: Option<string>
    var pyproject: string
    var precommit: string

    /** What `do_check` finds: no file differs from what generation would write. */
    predicate UpToDate(toml: string, pyBlock: string, preBlock: string)
      reads this
    {
      && toml == (if ruffLegacy.Some? then ruffLegacy.value else "")
      && Replace(MARKERS, pyproject, pyBlock) == Ok(pyproject)
      && Replace(MARKERS, precommit, preBlock) == Ok(precommit)
    }

    method DoGenerate(toml: string, pyBlock: string, preBlock: string) returns (done: bool)
      modifies this
      ensures done <==> Locate(MARKERS, old(pyproject)).Some? && Locate(MARKERS, old(precommit)).Some?
      ensures !done ==> unchanged(this)
      ensures done ==> ruffLegacy == Some(toml)
                       && Ok(pyproject) == Replace(MARKERS, old(pyproject), pyBlock)
                       && Ok(precommit) == Replace(MARKERS, old(precommit), preBlock)
      ensures done ==> (UpToDate(toml, pyBlock, preBlock) <==>
                         Stable(MARKERS, old(pyproject), pyBlock) && Stable(MARKERS, old(precommit), preBlock))
    {
      var newPyproject := Replace(MARKERS, pyproject, pyBlock);
      if newPyproject.Raised? {
        return false;
      }
      var newPrecommit := Replace(MARKERS, precommit, preBlock);
      if newPrecommit.Raised? {
        return false;
      }
      MarkersOneLine();
      IdempotentIff(MARKERS, pyproject, pyBlock);
      IdempotentIff(MARKERS, precommit, preBlock);
      ruffLegacy := Some(toml);
      pyproject := newPyproject.value;
      precommit := newPrecommit.value;
      return true;
    }

    method DoCheck(toml: string, pyBlock: string, preBlock: string) returns (upToDate: Result<bool>)
      ensures upToDate == Ok(true) <==> UpToDate(toml, pyBlock, preBlock)
      ensures upToDate.Raised? <==> Locate(MARKERS, pyproject).None? || Locate(MARKERS, precommit).None?
    {
      var anyStale := false;
      var actual := if ruffLegacy.Some? then ruffLegacy.value else "";
      if actual != toml {
        anyStale := true;
      }
      var expected := Replace(MARKERS, pyproject, pyBlock);
      if expected.Raised? {
        return Raised;
      }
      if expected.value != pyproject {
        anyStale := true;
      }
      expected := Replace(MARKERS, precommit, preBlock);
      if expected.Raised? {
        return Raised;
      }
      if expected.value != precommit {
        anyStale := true;
      }
      return Ok(!anyStale);
    }
  }
}
