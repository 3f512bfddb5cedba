/** A bare cache repository: its objects, its refs, and the full-pool update as functions on them. */
module GitCache {
  type Sha = nat

  /** Content addressing: a SHA fixes its object, so its parents never change. */
  type CommitGraph = Sha -> set<Sha>

  datatype Space = Heads | Remotes | Tags
  datatype RefName = Have(sha: Sha) | Advert(space: Space, name: nat)
  datatype Bare = Bare(objects: set<Sha>, refs: map<RefName, Sha>)

  /** What one source checkout contributes: objects, advertised refs, and ref-tip SHAs read as text. */
  datatype Source = Source(objects: set<Sha>, adverts: map<RefName, Sha>, tips: set<Sha>)

  predicate SourceShaped(src: Source) {
    forall r :: r in src.adverts ==> r.Advert?
  }

  // ----- Connectivity -----

  predicate Ancestry(graph: CommitGraph, path: seq<Sha>) {
    path != [] && forall i :: 0 <= i < |path| - 1 ==> path[i + 1] in graph(path[i])
  }

  /** The whole commit graph below `sha` is present. */
  ghost predicate Connected(graph: CommitGraph, objects: set<Sha>, sha: Sha) {
    forall path :: Ancestry(graph, path) && path[0] == sha ==> path[|path| - 1] in objects
  }

  /** Connectivity is monotonic: objects only arrive. */
  lemma ConnectedGrows(graph: CommitGraph, objects: set<Sha>, more: set<Sha>, sha: Sha)
    requires Connected(graph, objects, sha) && objects <= more
    ensures Connected(graph, more, sha)
  {
  }

  lemma ConnectedIsPresent(graph: CommitGraph, objects: set<Sha>, sha: Sha)
    requires Connected(graph, objects, sha)
    ensures sha in objects
  {
    assert Ancestry(graph, [sha]);
  }

  /** A present set closed under parents connects all its members. */
  lemma {:induction false} ClosedStaysInside(graph: CommitGraph, closed: set<Sha>, path: seq<Sha>)
    requires forall s :: s in closed ==> graph(s) <= closed
    requires Ancestry(graph, path) && path[0] in closed
    ensures path[|path| - 1] in closed
    decreases |path|
  {
    if |path| > 1 {
      assert path[0 + 1] in graph(path[0]);
      assert Ancestry(graph, path[1..]) by {
        forall i | 0 <= i < |path[1..]| - 1 ensures path[1..][i + 1] in graph(path[1..][i]) {
          assert path[(i + 1) + 1] in graph(path[i + 1]);
        }
      }
      ClosedStaysInside(graph, closed, path[1..]);
    }
  }

  // ----- The full-pool update -----

  function Anchored(refs: map<RefName, Sha>): set<Sha> {
    set r | r in refs && r.Have? :: r.sha
  }

  function Fetched(b: Bare, src: Source): Bare {
    Bare(b.objects + src.objects, b.refs + src.adverts)
  }

  /** The bare has the ref or the source advertises it; the source's value counts. */
  predicate Offered(b: Bare, src: Source, r: RefName) {
    r in src.adverts || r in b.refs
  }

  function OfferedValue(b: Bare, src: Source, r: RefName): Sha
    requires Offered(b, src, r)
  {
    if r in src.adverts then src.adverts[r] else b.refs[r]
  }

  /** An advertised ref that pruning deletes, when SHAs in `verified` are not checked. */
  ghost predicate Doomed(graph: CommitGraph, b: Bare, verified: set<Sha>, r: RefName)
    requires r in b.refs
  {
    r.Advert? && b.refs[r] !in verified && !Connected(graph, b.objects, b.refs[r])
  }

  ghost function Pruned(graph: CommitGraph, b: Bare, verified: set<Sha>): Bare {
    b.(refs := map r | r in b.refs && !Doomed(graph, b, verified, r) :: b.refs[r])
  }

  /** The anchors replication creates: `update-ref` with an empty old value only ever creates. */
  ghost function NewAnchors(graph: CommitGraph, b: Bare, tips: set<Sha>, verified: set<Sha>): set<Sha> {
    set s | s in tips && s !in verified && Connected(graph, b.objects, s) && Have(s) !in b.refs
  }

  function AnchorRefs(shas: set<Sha>): map<RefName, Sha> {
    map r | r in (set s | s in shas :: Have(s)) :: r.sha
  }

  ghost function Replicated(graph: CommitGraph, b: Bare, tips: set<Sha>, verified: set<Sha>): Bare {
    b.(refs := b.refs + AnchorRefs(NewAnchors(graph, b, tips, verified)))
  }

  /** Prune and replicate after a fetch, skipping the SHAs in `verified`. */
  ghost function Updated(graph: CommitGraph, b: Bare, tips: set<Sha>, verified: set<Sha>): Bare {
    Replicated(graph, Pruned(graph, b, verified), tips, verified)
  }

  /** The update as the writer runs it: the skip set is what is anchored already. */
  ghost function UpdateFrom(graph: CommitGraph, b: Bare, src: Source): Bare {
    var fetched := Fetched(b, src);
    Updated(graph, fetched, src.tips, Anchored(fetched.refs))
  }

  /** Every anchor `have/<sha>` points at `<sha>`, and everything below `<sha>` is present. */
  ghost predicate AnchorsConnected(graph: CommitGraph, b: Bare) {
    forall s {:trigger Have(s)} :: Have(s) in b.refs ==> b.refs[Have(s)] == s && Connected(graph, b.objects, s)
  }

  lemma FetchKeepsAnchors(graph: CommitGraph, b: Bare, src: Source)
    requires AnchorsConnected(graph, b) && SourceShaped(src)
    ensures AnchorsConnected(graph, Fetched(b, src))
    ensures Anchored(Fetched(b, src).refs) == Anchored(b.refs)
  {
    var f := Fetched(b, src);
    forall s | Have(s) in f.refs ensures f.refs[Have(s)] == s && Connected(graph, f.objects, s) {
      ConnectedGrows(graph, b.objects, f.objects, s);
    }
    forall s ensures s in Anchored(f.refs) <==> s in Anchored(b.refs) {
      assert s in Anchored(f.refs) <==> Have(s) in f.refs;
      assert s in Anchored(b.refs) <==> Have(s) in b.refs;
    }
  }

  /** Skipping anchored SHAs changes nothing: the memoised update yields exactly the refs that checking every
      SHA yields. */
  lemma MemoisedEqualsUnmemoised(graph: CommitGraph, b: Bare, tips: set<Sha>)
    requires AnchorsConnected(graph, b)
    ensures Updated(graph, b, tips, Anchored(b.refs)) == Updated(graph, b, tips, {})
  {
    var verified := Anchored(b.refs);
    forall s | s in verified ensures Have(s) in b.refs && Connected(graph, b.objects, s) {
    }
    var p := Pruned(graph, b, {});
    assert Pruned(graph, b, verified) == p by {
      assert Pruned(graph, b, verified).refs == p.refs;
    }
    forall s ensures s in NewAnchors(graph, p, tips, verified) <==> s in NewAnchors(graph, p, tips, {}) {
      if s in verified { assert Have(s) in p.refs; }
    }
    assert NewAnchors(graph, p, tips, verified) == NewAnchors(graph, p, tips, {});
  }

  /** With one writer, an update keeps every anchor, adds exactly the connected tips, and leaves no
      disconnected ref advertised. */
  lemma UpdateOutcome(graph: CommitGraph, b: Bare, src: Source)
    requires AnchorsConnected(graph, b) && SourceShaped(src)
    ensures var u := UpdateFrom(graph, b, src);
      && u.objects == b.objects + src.objects
      && AnchorsConnected(graph, u)
      && (forall s {:trigger Have(s)} :: Have(s) in u.refs <==>
            Have(s) in b.refs || (s in src.tips && Connected(graph, u.objects, s)))
      && (forall r :: r in u.refs && r.Advert? ==> Connected(graph, u.objects, u.refs[r]))
      && (forall r: RefName :: r.Advert? ==>
            (r in u.refs <==> Offered(b, src, r) && Connected(graph, u.objects, OfferedValue(b, src, r))) &&
            (r in u.refs ==> u.refs[r] == OfferedValue(b, src, r)))
  {
    FetchKeepsAnchors(graph, b, src);
    var f := Fetched(b, src);
    MemoisedEqualsUnmemoised(graph, f, src.tips);
    var p := Pruned(graph, f, {});
    var u := UpdateFrom(graph, b, src);
    var added := NewAnchors(graph, p, src.tips, {});
    assert u.refs == p.refs + AnchorRefs(added);
    forall s ensures Have(s) in u.refs <==> Have(s) in b.refs || (s in src.tips && Connected(graph, u.objects, s)) {
      assert Have(s) in AnchorRefs(added) <==> s in added;
      assert Have(s) in p.refs <==> Have(s) in f.refs;
    }
    forall s | Have(s) in u.refs ensures u.refs[Have(s)] == s && Connected(graph, u.objects, s) {
      assert Have(s) in AnchorRefs(added) <==> s in added;
    }
    forall r: RefName | r.Advert? ensures r in u.refs <==> r in p.refs {
    }
  }

  lemma {:induction false} RefSettles(graph: CommitGraph, b: Bare, src: Source, r: RefName)
    requires AnchorsConnected(graph, b) && SourceShaped(src)
    ensures var u := UpdateFrom(graph, b, src); var v := UpdateFrom(graph, u, src);
      && v.objects == u.objects
      && (r in v.refs <==> r in u.refs) && (r in u.refs ==> v.refs[r] == u.refs[r])
  {
    var u := UpdateFrom(graph, b, src);
    UpdateOutcome(graph, b, src);
    UpdateOutcome(graph, u, src);
    assert UpdateFrom(graph, u, src).objects == u.objects;
    if r.Have? { assert r == Have(r.sha); }
  }

  /** A second update from the same source changes nothing. */
  lemma {:induction false} UpdateIsIdempotent(graph: CommitGraph, b: Bare, src: Source)
    requires AnchorsConnected(graph, b) && SourceShaped(src)
    ensures var u := UpdateFrom(graph, b, src); UpdateFrom(graph, u, src) == u
  {
    var u := UpdateFrom(graph, b, src);
    var v := UpdateFrom(graph, u, src);
    forall r ensures (r in v.refs <==> r in u.refs) && (r in u.refs ==> v.refs[r] == u.refs[r]) && v.objects == u.objects {
      RefSettles(graph, b, src, r);
    }
    assert v.refs == u.refs;
    RefSettles(graph, b, src, Have(0));
  }
}
