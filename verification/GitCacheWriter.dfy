/** The cache writer: loops over refs and SHAs that change a bare repository on disk. */
module GitCacheWriter {
  import opened GitCache
  import LfsPool

  /** `s` is `sha` or one of its ancestors. */
  ghost predicate Reaches(graph: CommitGraph, sha: Sha, s: Sha) {
    exists path :: Ancestry(graph, path) && path[0] == sha && path[|path| - 1] == s
  }

  lemma ReachesParent(graph: CommitGraph, sha: Sha, s: Sha, parent: Sha)
    requires Reaches(graph, sha, s) && parent in graph(s)
    ensures Reaches(graph, sha, parent)
  {
    var path :| Ancestry(graph, path) && path[0] == sha && path[|path| - 1] == s;
    var longer := path + [parent];
    assert Ancestry(graph, longer) && longer[0] == sha && longer[|longer| - 1] == parent;
  }

  ghost function PrunedRefs(graph: CommitGraph, b: Bare, verified: set<Sha>, visited: set<RefName>): map<RefName, Sha> {
    map r | r in b.refs && !(r in visited && Doomed(graph, b, verified, r)) :: b.refs[r]
  }

  /** The unchecked anchors of the shallow pool: `update-ref` refuses SHAs that are not in the bare. */
  function ShallowAnchors(b: Bare, tips: set<Sha>): set<Sha> {
    set s | s in tips && s in b.objects && Have(s) !in b.refs
  }

  function ShallowUpdated(b: Bare, tips: set<Sha>): Bare {
    b.(refs := b.refs + AnchorRefs(ShallowAnchors(b, tips)))
  }

  predicate AnchorsPresent(b: Bare) {
    forall r :: r in b.refs && r.Have? ==> b.refs[r] == r.sha && r.sha in b.objects
  }

  lemma NextAnchor(shas: set<Sha>, sha: Sha)
    ensures Have(sha) in AnchorRefs(shas) <==> sha in shas
    ensures AnchorRefs(shas + {sha}) == AnchorRefs(shas)[Have(sha) := sha]
  {
  }

  class BareRepo {
    var objects: set<Sha>
    var refs: map<RefName, Sha>
    var initialised: bool
    const graph: CommitGraph

    ghost function Contents(): Bare
      reads this
    {
      Bare(objects, refs)
    }

    constructor (graph: CommitGraph)
      ensures Contents() == Bare({}, map[]) && !initialised && this.graph == graph
    {
      objects, refs, initialised := {}, map[], false;
      this.graph := graph;
    }

    /** What `rev-list` decides: it visits the commit graph and fails on the first missing commit. */
    method IsConnected(sha: Sha) returns (ok: bool)
      ensures ok <==> Connected(graph, objects, sha)
    {
      var seen: set<Sha>, todo: set<Sha> := {}, {sha};
      assert Ancestry(graph, [sha]) && [sha][0] == sha && [sha][|[sha]| - 1] == sha;
      while todo != {}
        invariant seen <= objects && seen !! todo && sha in seen + todo
        invariant forall s :: s in seen ==> graph(s) <= seen + todo
        invariant forall s :: s in seen + todo ==> Reaches(graph, sha, s)
        decreases objects - seen
      {
        var s :| s in todo;
        if s !in objects {
          return false;
        }
        forall parent | parent in graph(s) ensures Reaches(graph, sha, parent) {
          ReachesParent(graph, sha, s, parent);
        }
        seen := seen + {s};
        todo := todo - {s} + (graph(s) - seen);
      }
      forall path | Ancestry(graph, path) && path[0] == sha ensures path[|path| - 1] in objects {
        ClosedStaysInside(graph, seen, path);
      }
      return true;
    }

    method ExistingHaveShas() returns (shas: set<Sha>)
      ensures shas == Anchored(refs)
    {
      shas := {};
      var todo := refs.Keys;
      while todo != {}
        invariant todo <= refs.Keys
        invariant shas == set r | r in refs && r !in todo && r.Have? :: r.sha
        decreases todo
      {
        var r :| r in todo;
        todo := todo - {r};
        if r.Have? {
          shas := shas + {r.sha};
        }
      }
    }

    method PruneDisconnectedFetchRefs(verified: set<Sha>)
      modifies this`refs
      ensures Contents() == Pruned(graph, old(Contents()), verified)
    {
      ghost var b := Contents();
      var listed := refs;
      var todo := set r | r in listed && r.Advert?;
      ghost var visited: set<RefName> := {};
      while todo != {}
        invariant todo !! visited && todo + visited == set r | r in b.refs && r.Advert?
        invariant refs == PrunedRefs(graph, b, verified, visited)
        decreases todo
      {
        var r :| r in todo;
        todo, visited := todo - {r}, visited + {r};
        var sha := listed[r];
        if sha !in verified {
          var ok := IsConnected(sha);
          if !ok {
            refs := refs - {r};
          }
        }
      }
      assert refs == Pruned(graph, b, verified).refs;
    }

    method ReplicateSrcRefsChecked(tips: set<Sha>, verified: set<Sha>)
      modifies this`refs
      ensures Contents() == Replicated(graph, old(Contents()), tips, verified)
    {
      ghost var b := Contents();
      ghost var added: set<Sha> := {};
      var todo := tips;
      while todo != {}
        invariant todo <= tips
        invariant added == NewAnchors(graph, b, tips - todo, verified)
        invariant refs == b.refs + AnchorRefs(added)
        decreases todo
      {
        var sha :| sha in todo;
        todo := todo - {sha};
        NextAnchor(added, sha);
        if sha in verified {
          assert NewAnchors(graph, b, tips - todo, verified) == added;
          continue;
        }
        var ok := IsConnected(sha);
        if ok && Have(sha) !in refs {
          refs := refs[Have(sha) := sha];
          added := added + {sha};
        }
        assert NewAnchors(graph, b, tips - todo, verified) == added;
      }
      assert tips - todo == tips;
    }

    method ReplicateSrcRefs(tips: set<Sha>)
      modifies this`refs
      ensures Contents() == ShallowUpdated(old(Contents()), tips)
    {
      ghost var b := Contents();
      var todo := tips;
      while todo != {}
        invariant todo <= tips
        invariant refs == b.refs + AnchorRefs(ShallowAnchors(b, tips - todo))
        decreases todo
      {
        var sha :| sha in todo;
        ghost var before := ShallowAnchors(b, tips - todo);
        todo := todo - {sha};
        assert ShallowAnchors(b, tips - todo) == before + (if sha in objects && Have(sha) !in b.refs then {sha} else {});
        assert Have(sha) in refs <==> Have(sha) in b.refs || sha in before;
        if sha in objects && Have(sha) !in refs {
          refs := refs[Have(sha) := sha];
        }
      }
      assert tips - todo == tips;
    }

    /** What a fetch delivers: objects first, then force-updated refs. */
    method SafeFetch(arrived: Source)
      modifies this`objects, this`refs
      ensures Contents() == Fetched(old(Contents()), arrived)
    {
      objects := objects + arrived.objects;
      refs := refs + arrived.adverts;
    }
  }

  /** A checkout handed to the writer, as its file-system probes see it. */
  datatype SourceDir = SourceDir(hasOriginUrl: bool, hasGitDir: bool, shallow: bool, hasOwnObjects: bool,
                                 content: Source, lfs: seq<LfsPool.SrcFile>)

  /** How far git got: `init --bare` may fail, and a failed fetch may still have delivered something. */
  datatype GitOutcome = InitFails | FetchFails(arrived: Source) | Succeeds

  /** One update of the cache. Which of the two bares, and of their LFS pools, it may touch is fixed by the
      source's shallow file; every success walks the LFS objects, and no failure does. */
  method EnsureCache(full: BareRepo, shallow: BareRepo, fullLfs: LfsPool.PoolDir, shallowLfs: LfsPool.PoolDir,
                     dir: SourceDir, git: GitOutcome)
    returns (done: bool)
    requires full != shallow && fullLfs != shallowLfs && LfsPool.DistinctOids(dir.lfs)
    modifies full, shallow, fullLfs, shallowLfs
    ensures dir.shallow ==> full.Contents() == old(full.Contents()) && full.initialised == old(full.initialised)
    ensures !dir.shallow ==>
              shallow.Contents() == old(shallow.Contents()) && shallow.initialised == old(shallow.initialised)
    ensures !dir.hasOriginUrl || !dir.hasGitDir ==>
              && !done && full.Contents() == old(full.Contents()) && shallow.Contents() == old(shallow.Contents())
              && full.initialised == old(full.initialised) && shallow.initialised == old(shallow.initialised)
    ensures dir.hasOriginUrl && dir.hasGitDir ==>
      var bare := if dir.shallow then shallow else full;
      if git.InitFails? && !old(bare.initialised) then
        !done && !bare.initialised && bare.Contents() == old(bare.Contents())
      else if old(bare.initialised) && !dir.hasOwnObjects then
        done && bare.initialised && bare.Contents() == old(bare.Contents())
      else if git.FetchFails? then
        !done && bare.initialised && bare.Contents() == Fetched(old(bare.Contents()), git.arrived)
      else
        && done && bare.initialised
        && bare.Contents() == if dir.shallow then ShallowUpdated(Fetched(old(bare.Contents()), dir.content), dir.content.tips)
                              else UpdateFrom(bare.graph, old(bare.Contents()), dir.content)
    ensures fullLfs.pool == if done && !dir.shallow then LfsPool.Ingested(fullLfs.hash, old(fullLfs.pool), dir.lfs)
                            else old(fullLfs.pool)
    ensures shallowLfs.pool == if done && dir.shallow then LfsPool.Ingested(shallowLfs.hash, old(shallowLfs.pool), dir.lfs)
                               else old(shallowLfs.pool)
  {
    if !dir.hasOriginUrl || !dir.hasGitDir {
      return false;
    }
    var bare := if dir.shallow then shallow else full;
    var pool := if dir.shallow then shallowLfs else fullLfs;
    if bare.initialised && !dir.hasOwnObjects {
      var _, _, _ := pool.UpdateLfsPool(dir.lfs);
      return true;
    }
    if !bare.initialised {
      if git.InitFails? {
        return false;
      }
      bare.initialised := true;
    }
    if git.FetchFails? {
      bare.SafeFetch(git.arrived);
      return false;
    }
    bare.SafeFetch(dir.content);
    if dir.shallow {
      bare.ReplicateSrcRefs(dir.content.tips);
    } else {
      var verified := bare.ExistingHaveShas();
      bare.PruneDisconnectedFetchRefs(verified);
      bare.ReplicateSrcRefsChecked(dir.content.tips, verified);
    }
    var _, _, _ := pool.UpdateLfsPool(dir.lfs);
    return true;
  }

  /** In the shallow pool an update keeps every anchor, adds exactly the tips that are there, and advertises whatever the
      source offers; a second one changes nothing. */
  lemma ShallowUpdateOutcome(b: Bare, src: Source)
    requires AnchorsPresent(b) && SourceShaped(src)
    ensures var u := ShallowUpdated(Fetched(b, src), src.tips);
      && u.objects == b.objects + src.objects
      && AnchorsPresent(u)
      && (forall s {:trigger Have(s)} :: Have(s) in u.refs <==> Have(s) in b.refs || (s in src.tips && s in u.objects))
      && (forall r: RefName :: r.Advert? ==>
            (r in u.refs <==> Offered(b, src, r)) && (r in u.refs ==> u.refs[r] == OfferedValue(b, src, r)))
      && ShallowUpdated(Fetched(u, src), src.tips) == u
  {
    var f := Fetched(b, src);
    var u := ShallowUpdated(f, src.tips);
    var added := ShallowAnchors(f, src.tips);
    forall r: RefName | r.Have? ensures r in AnchorRefs(added) <==> r.sha in added {
      assert r == Have(r.sha);
    }
    var g := Fetched(u, src);
    assert g.objects == u.objects;
    assert g.refs == u.refs;
    forall s | s in src.tips && s in g.objects ensures Have(s) in g.refs {
      assert Have(s) in f.refs || s in added;
    }
    assert ShallowAnchors(g, src.tips) == {};
  }
}
