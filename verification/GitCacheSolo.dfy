/** A writer that is alone: its steps, however they are scheduled, add up to the update as a whole. */
module GitCacheSolo {
  import opened GitCache
  import opened GitCacheRuns

  /** Listings are complete and the tips are those of the source. */
  ghost predicate Honest(b: Bare, tips: set<Sha>, a: Action) {
    && (a.ListAnchors? ==> a.anchors == Anchored(b.refs))
    && (a.ListAdverts? ==> forall r :: r in b.refs && r.Advert? ==> r in a.refs)
    && (a.PruneEnds? ==> a.srcTips == tips)
    && !a.Die?
  }

  /** `b` with the doomed refs deleted, except those that are still to be looked at. */
  ghost function PrunedBut(graph: CommitGraph, b: Bare, verified: set<Sha>, pending: set<RefName>): Bare {
    b.(refs := map r | r in b.refs && (r in pending || !Doomed(graph, b, verified, r)) :: b.refs[r])
  }

  predicate ListedIn(b: Bare, adverts: map<RefName, Sha>) {
    forall r :: r in adverts ==> r.Advert? && r in b.refs && b.refs[r] == adverts[r]
  }

  /** How far a lone writer has come from the fetched bare `b`. */
  ghost predicate Progress(graph: CommitGraph, b: Bare, tips: set<Sha>, phase: Phase, bare: Bare) {
    var v := Anchored(b.refs);
    match phase
    case Fetching => false
    case FetchDone => bare == b
    case Listed(verified) => verified == v && bare == b
    case Pruning(verified, adverts) =>
      verified == v && ListedIn(b, adverts) && bare == PrunedBut(graph, b, v, adverts.Keys)
    case Deleting(verified, adverts, ref, sha) =>
      && verified == v && ListedIn(b, adverts) && bare == PrunedBut(graph, b, v, adverts.Keys + {ref})
      && ref !in adverts && ref in b.refs && b.refs[ref] == sha && Doomed(graph, b, v, ref)
    case Replicating(verified, rest) =>
      verified == v && rest <= tips && bare == Replicated(graph, Pruned(graph, b, v), tips - rest, v)
    case Anchoring(verified, rest, sha) =>
      && verified == v && rest <= tips && sha in tips && sha !in rest
      && sha !in v && Connected(graph, b.objects, sha)
      && bare == Replicated(graph, Pruned(graph, b, v), tips - rest - {sha}, v)
  }

  lemma PruneStarts(graph: CommitGraph, b: Bare, verified: set<Sha>, pending: set<RefName>)
    requires forall r :: r in b.refs && r.Advert? ==> r in pending
    ensures PrunedBut(graph, b, verified, pending) == b
  {
    assert PrunedBut(graph, b, verified, pending).refs == b.refs;
  }

  lemma PruneEndsAt(graph: CommitGraph, b: Bare, verified: set<Sha>)
    ensures PrunedBut(graph, b, verified, {}) == Replicated(graph, Pruned(graph, b, verified), {}, verified)
  {
    var p := Pruned(graph, b, verified);
    assert NewAnchors(graph, p, {}, verified) == {};
    assert p.refs + AnchorRefs({}) == p.refs;
    assert PrunedBut(graph, b, verified, {}).refs == p.refs;
  }

  /** Keeping a ref that is not doomed. */
  lemma PruneKeeps(graph: CommitGraph, b: Bare, verified: set<Sha>, pending: set<RefName>, ref: RefName)
    requires ref in b.refs && !Doomed(graph, b, verified, ref)
    ensures PrunedBut(graph, b, verified, pending) == PrunedBut(graph, b, verified, pending - {ref})
  {
    assert PrunedBut(graph, b, verified, pending).refs == PrunedBut(graph, b, verified, pending - {ref}).refs;
  }

  /** Deleting a ref that is doomed. */
  lemma PruneDeletes(graph: CommitGraph, b: Bare, verified: set<Sha>, pending: set<RefName>, ref: RefName)
    requires ref in b.refs && Doomed(graph, b, verified, ref) && ref !in pending
    ensures ref in PrunedBut(graph, b, verified, pending + {ref}).refs
    ensures PrunedBut(graph, b, verified, pending + {ref}).refs[ref] == b.refs[ref]
    ensures PrunedBut(graph, b, verified, pending + {ref}).refs - {ref} == PrunedBut(graph, b, verified, pending).refs
  {
  }

  /** A tip that is anchored, or cannot be, adds nothing; one that can be adds its anchor. */
  lemma OneMoreTip(graph: CommitGraph, b: Bare, done: set<Sha>, verified: set<Sha>, t: Sha)
    requires t !in done
    ensures var r, s := Replicated(graph, b, done, verified), Replicated(graph, b, done + {t}, verified);
      && s.objects == r.objects
      && s.refs == if t !in verified && Connected(graph, b.objects, t) && Have(t) !in r.refs then r.refs[Have(t) := t] else r.refs
  {
    var old_, new_ := NewAnchors(graph, b, done, verified), NewAnchors(graph, b, done + {t}, verified);
    assert forall s {:trigger Have(s)} :: Have(s) in AnchorRefs(old_) <==> s in old_;
    assert forall s {:trigger Have(s)} :: Have(s) in AnchorRefs(new_) <==> s in new_;
    if t !in verified && Connected(graph, b.objects, t) && Have(t) !in b.refs {
      assert new_ == old_ + {t};
    } else {
      assert new_ == old_;
    }
  }

  lemma StepPrunes(graph: CommitGraph, b: Bare, tips: set<Sha>, p: Pool, w: nat, a: Action)
    requires p.full && w in p.writers && (p.writers[w].Pruning? || p.writers[w].Deleting?)
    requires Progress(graph, b, tips, p.writers[w], p.bare) && Honest(p.bare, tips, a)
    ensures var q := Step(graph, p, Event(w, a)); w in q.writers && Progress(graph, b, tips, q.writers[w], q.bare)
  {
    var v := Anchored(b.refs);
    match p.writers[w]
    case Pruning(_, adverts) =>
      if a.CheckAdvert? && a.advert in adverts {
        var rest := adverts - {a.advert};
        assert rest.Keys + {a.advert} == adverts.Keys && rest.Keys == adverts.Keys - {a.advert};
        if !Doomed(graph, b, v, a.advert) {
          PruneKeeps(graph, b, v, adverts.Keys, a.advert);
        }
      } else if a.PruneEnds? && adverts == map[] {
        assert adverts.Keys == {};
        PruneEndsAt(graph, b, v);
        assert tips - tips == {};
      }
    case Deleting(_, adverts, ref, _) =>
      if a.DeleteAdvert? {
        PruneDeletes(graph, b, v, adverts.Keys, ref);
      }
  }

  lemma StepReplicates(graph: CommitGraph, b: Bare, tips: set<Sha>, p: Pool, w: nat, a: Action)
    requires p.full && w in p.writers && (p.writers[w].Replicating? || p.writers[w].Anchoring?)
    requires Progress(graph, b, tips, p.writers[w], p.bare) && Honest(p.bare, tips, a)
    ensures var q := Step(graph, p, Event(w, a)); w in q.writers && Progress(graph, b, tips, q.writers[w], q.bare)
  {
    var v := Anchored(b.refs);
    var pruned := Pruned(graph, b, v);
    match p.writers[w]
    case Replicating(_, rest) =>
      if a.CheckTip? && a.tip in rest {
        assert tips - (rest - {a.tip}) == (tips - rest) + {a.tip};
        assert tips - (rest - {a.tip}) - {a.tip} == tips - rest;
        OneMoreTip(graph, pruned, tips - rest, v, a.tip);
      }
    case Anchoring(_, rest, sha) =>
      if a.WriteAnchor? {
        assert (tips - rest - {sha}) + {sha} == tips - rest;
        OneMoreTip(graph, pruned, tips - rest - {sha}, v, sha);
        ConnectedIsPresent(graph, b.objects, sha);
      }
  }

  lemma StepProgresses(graph: CommitGraph, b: Bare, tips: set<Sha>, p: Pool, w: nat, a: Action)
    requires p.full && w in p.writers && Progress(graph, b, tips, p.writers[w], p.bare) && Honest(p.bare, tips, a)
    ensures var q := Step(graph, p, Event(w, a));
      q.full && w in q.writers && Progress(graph, b, tips, q.writers[w], q.bare)
  {
    match p.writers[w]
    case FetchDone =>
    case Listed(_) =>
      if a.ListAdverts? { PruneStarts(graph, b, Anchored(b.refs), a.refs.Keys); }
    case Pruning(_, _) => StepPrunes(graph, b, tips, p, w, a);
    case Deleting(_, _, _, _) => StepPrunes(graph, b, tips, p, w, a);
    case Replicating(_, _) => StepReplicates(graph, b, tips, p, w, a);
    case Anchoring(_, _, _) => StepReplicates(graph, b, tips, p, w, a);
  }

  /** Only `w` takes steps, honestly. */
  ghost predicate Alone(graph: CommitGraph, p: Pool, es: seq<Event>, w: nat, tips: set<Sha>)
    decreases |es|
  {
    es == [] || (es[0].writer == w && Honest(p.bare, tips, es[0].action) && Alone(graph, Step(graph, p, es[0]), es[1..], w, tips))
  }

  lemma {:induction false} RunProgresses(graph: CommitGraph, b: Bare, tips: set<Sha>, p: Pool, es: seq<Event>, w: nat)
    requires p.full && w in p.writers && Progress(graph, b, tips, p.writers[w], p.bare) && Alone(graph, p, es, w, tips)
    ensures var q := Run(graph, p, es); w in q.writers && Progress(graph, b, tips, q.writers[w], q.bare)
    decreases |es|
  {
    if es != [] {
      StepProgresses(graph, b, tips, p, w, es[0].action);
      assert es[0] == Event(w, es[0].action);
      RunProgresses(graph, b, tips, Step(graph, p, es[0]), es[1..], w);
    }
  }

  /** Whatever order a lone writer takes its refs and tips in, when it has none left the bare is that of the update. */
  lemma {:induction false} LoneWriterUpdates(graph: CommitGraph, b: Bare, src: Source, p: Pool, es: seq<Event>, w: nat)
    requires p.full && w in p.writers && p.writers[w].FetchDone? && p.bare == Fetched(b, src)
    requires Alone(graph, p, es, w, src.tips)
    requires var q := Run(graph, p, es); w in q.writers && q.writers[w].Replicating? && q.writers[w].tips == {}
    ensures Run(graph, p, es).bare == UpdateFrom(graph, b, src)
  {
    RunProgresses(graph, p.bare, src.tips, p, es, w);
    assert src.tips - {} == src.tips;
  }
}
