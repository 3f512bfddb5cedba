/** Any number of writers updating one bare at the same time. Each git command is one step; between a
    connectivity check and the ref write that follows it, other writers may take any number of steps. */
module GitCacheRuns {
  import opened GitCache

  /** Where a writer stands in an update. `verified` is its memoised skip set. */
  datatype Phase =
    | Fetching
    | FetchDone
    | Listed(verified: set<Sha>)
    | Pruning(verified: set<Sha>, adverts: map<RefName, Sha>)
    | Deleting(verified: set<Sha>, adverts: map<RefName, Sha>, ref: RefName, sha: Sha)
    | Replicating(verified: set<Sha>, tips: set<Sha>)
    | Anchoring(verified: set<Sha>, tips: set<Sha>, sha: Sha)

  /** A bare of the full pool or of the shallow pool, with its running writers. */
  datatype Pool = Pool(full: bool, bare: Bare, writers: map<nat, Phase>)

  datatype Action =
    | Start
    | ObjectsArrive(shas: set<Sha>)
    | RefArrives(ref: RefName, target: Sha)
    | FetchSucceeds(tips: set<Sha>)
    | ListAnchors(anchors: set<Sha>)          // the listing may fail and return less than there is
    | ListAdverts(refs: map<RefName, Sha>)
    | CheckAdvert(advert: RefName)
    | DeleteAdvert
    | PruneEnds(srcTips: set<Sha>)
    | CheckTip(tip: Sha)
    | WriteAnchor
    | Die                                     // killed, or gave up, at any point

  datatype Event = Event(writer: nat, action: Action)

  ghost function Move(p: Pool, w: nat, phase: Phase): Pool {
    p.(writers := p.writers[w := phase])
  }

  /** One step of one writer; an action that does not fit the writer's phase does nothing. */
  ghost function Step(graph: CommitGraph, p: Pool, e: Event): Pool {
    var w := e.writer;
    if e.action.Start? then (if w in p.writers then p else Move(p, w, Fetching))
    else if w !in p.writers then p
    else if e.action.Die? then p.(writers := p.writers - {w})
    else
      match (p.writers[w], e.action)
      case (Fetching, ObjectsArrive(shas)) => p.(bare := p.bare.(objects := p.bare.objects + shas))
      case (Fetching, RefArrives(ref, target)) =>
        if ref.Advert? && target in p.bare.objects then p.(bare := p.bare.(refs := p.bare.refs[ref := target])) else p
      case (Fetching, FetchSucceeds(tips)) =>
        if p.full then Move(p, w, FetchDone) else Move(p, w, Replicating({}, tips))
      case (FetchDone, ListAnchors(anchors)) =>
        if anchors <= Anchored(p.bare.refs) then Move(p, w, Listed(anchors)) else p
      case (Listed(verified), ListAdverts(refs)) =>
        if forall r :: r in refs ==> r.Advert? && r in p.bare.refs && p.bare.refs[r] == refs[r]
        then Move(p, w, Pruning(verified, refs)) else p
      case (Pruning(verified, adverts), CheckAdvert(ref)) =>
        if ref !in adverts then p
        else if adverts[ref] in verified || Connected(graph, p.bare.objects, adverts[ref])
        then Move(p, w, Pruning(verified, adverts - {ref}))
        else Move(p, w, Deleting(verified, adverts - {ref}, ref, adverts[ref]))
      case (Deleting(verified, adverts, ref, sha), DeleteAdvert) =>  // compare-and-swap on the listed value
        var moved := Move(p, w, Pruning(verified, adverts));
        if ref.Advert? && ref in p.bare.refs && p.bare.refs[ref] == sha
        then moved.(bare := p.bare.(refs := p.bare.refs - {ref})) else moved
      case (Pruning(verified, adverts), PruneEnds(tips)) =>
        if adverts == map[] then Move(p, w, Replicating(verified, tips)) else p
      case (Replicating(verified, tips), CheckTip(tip)) =>
        if tip !in tips then p
        else if p.full && (tip in verified || !Connected(graph, p.bare.objects, tip))
        then Move(p, w, Replicating(verified, tips - {tip}))
        else Move(p, w, Anchoring(verified, tips - {tip}, tip))
      case (Anchoring(verified, tips, sha), WriteAnchor) =>  // create-only compare-and-swap; needs the object
        var moved := Move(p, w, Replicating(verified, tips));
        if Have(sha) !in p.bare.refs && sha in p.bare.objects
        then moved.(bare := p.bare.(refs := p.bare.refs[Have(sha) := sha])) else moved
      case _ => p
  }

  ghost function Run(graph: CommitGraph, p: Pool, es: seq<Event>): Pool
    decreases |es|
  {
    if es == [] then p else Run(graph, Step(graph, p, es[0]), es[1..])
  }

  // ----- Invariant -----

  /** An anchor names itself and is present; in the full pool its whole ancestry is present too. */
  ghost predicate AnchorSound(graph: CommitGraph, p: Pool, s: Sha) {
    Have(s) in p.bare.refs ==>
      && p.bare.refs[Have(s)] == s && s in p.bare.objects
      && (p.full ==> Connected(graph, p.bare.objects, s))
  }

  ghost predicate AllConnected(graph: CommitGraph, objects: set<Sha>, shas: set<Sha>) {
    forall s :: s in shas ==> Connected(graph, objects, s)
  }

  /** What a full-pool writer has checked still holds, however long ago it checked. */
  ghost predicate PhaseSound(graph: CommitGraph, objects: set<Sha>, phase: Phase) {
    && (phase.Listed? || phase.Pruning? || phase.Deleting? || phase.Replicating? || phase.Anchoring? ==>
          AllConnected(graph, objects, phase.verified))
    && (phase.Anchoring? ==> Connected(graph, objects, phase.sha))
  }

  ghost predicate Sound(graph: CommitGraph, p: Pool) {
    && (forall s {:trigger AnchorSound(graph, p, s)} :: AnchorSound(graph, p, s))
    && (p.full ==> forall w {:trigger PhaseSound(graph, p.bare.objects, p.writers[w])} :: w in p.writers ==>
          PhaseSound(graph, p.bare.objects, p.writers[w]))
  }

  /** Objects and anchors only accumulate. */
  ghost predicate Accumulates(p: Pool, q: Pool) {
    && p.full == q.full && p.bare.objects <= q.bare.objects
    && forall r :: r in p.bare.refs && r.Have? ==> r in q.bare.refs && q.bare.refs[r] == p.bare.refs[r]
  }

  lemma StepAccumulates(graph: CommitGraph, p: Pool, e: Event)
    ensures Accumulates(p, Step(graph, p, e))
  {
  }

  lemma PhaseSoundGrows(graph: CommitGraph, objects: set<Sha>, more: set<Sha>, phase: Phase)
    requires PhaseSound(graph, objects, phase) && objects <= more
    ensures PhaseSound(graph, more, phase)
  {
    forall s | Connected(graph, objects, s) ensures Connected(graph, more, s) {
      ConnectedGrows(graph, objects, more, s);
    }
  }

  lemma StepKeepsAnchors(graph: CommitGraph, p: Pool, e: Event, s: Sha)
    requires Sound(graph, p)
    ensures AnchorSound(graph, Step(graph, p, e), s)
  {
    var q := Step(graph, p, e);
    StepAccumulates(graph, p, e);
    assert AnchorSound(graph, p, s);
    if Have(s) in p.bare.refs {
      if p.full { ConnectedGrows(graph, p.bare.objects, q.bare.objects, s); }
    } else if Have(s) in q.bare.refs {
      var w := e.writer;
      if p.full { assert PhaseSound(graph, p.bare.objects, p.writers[w]); }
    }
  }

  lemma StepKeepsOthers(graph: CommitGraph, p: Pool, e: Event, w: nat)
    ensures w != e.writer ==>
      var q := Step(graph, p, e); (w in q.writers <==> w in p.writers) && (w in p.writers ==> q.writers[w] == p.writers[w])
  {
  }

  lemma StepKeepsOwnPhase(graph: CommitGraph, p: Pool, e: Event)
    requires Sound(graph, p) && p.full && e.writer in Step(graph, p, e).writers
    ensures PhaseSound(graph, Step(graph, p, e).bare.objects, Step(graph, p, e).writers[e.writer])
  {
    var q, w := Step(graph, p, e), e.writer;
    StepAccumulates(graph, p, e);
    if w in p.writers {
      assert PhaseSound(graph, p.bare.objects, p.writers[w]);
      PhaseSoundGrows(graph, p.bare.objects, q.bare.objects, p.writers[w]);
      if p.writers[w].FetchDone? && e.action.ListAnchors? && e.action.anchors <= Anchored(p.bare.refs) {
        forall s | s in e.action.anchors ensures Connected(graph, q.bare.objects, s) {
          assert AnchorSound(graph, p, s);
        }
      }
    }
  }

  lemma StepKeepsSound(graph: CommitGraph, p: Pool, e: Event)
    requires Sound(graph, p)
    ensures Sound(graph, Step(graph, p, e))
  {
    var q := Step(graph, p, e);
    StepAccumulates(graph, p, e);
    forall s ensures AnchorSound(graph, q, s) {
      StepKeepsAnchors(graph, p, e, s);
    }
    if q.full {
      forall w | w in q.writers ensures PhaseSound(graph, q.bare.objects, q.writers[w]) {
        if w == e.writer {
          StepKeepsOwnPhase(graph, p, e);
        } else {
          StepKeepsOthers(graph, p, e, w);
          assert PhaseSound(graph, p.bare.objects, p.writers[w]);
          PhaseSoundGrows(graph, p.bare.objects, q.bare.objects, p.writers[w]);
        }
      }
    }
  }

  /** Over every interleaving of writers: each anchor `have/<sha>` points at `<sha>`, in the full pool with its
      whole ancestry present; and no object or anchor that was ever there is gone. */
  lemma {:induction false} AnchorsSurviveEveryRun(graph: CommitGraph, p: Pool, es: seq<Event>)
    requires Sound(graph, p)
    ensures Sound(graph, Run(graph, p, es)) && Accumulates(p, Run(graph, p, es))
    decreases |es|
  {
    if es != [] {
      StepKeepsSound(graph, p, es[0]);
      StepAccumulates(graph, p, es[0]);
      AnchorsSurviveEveryRun(graph, Step(graph, p, es[0]), es[1..]);
    }
  }

  /** A fresh bare without writers is sound. */
  lemma EmptyPoolSound(graph: CommitGraph, full: bool)
    ensures Sound(graph, Pool(full, Bare({}, map[]), map[]))
  {
  }

  /** The gap between check and write is harmless: whatever happens in between, the SHA that is anchored is
      still connected when the anchor is written. */
  lemma CheckedTipStaysConnected(graph: CommitGraph, p: Pool, es: seq<Event>, w: nat)
    requires Sound(graph, p) && p.full
    ensures var q := Run(graph, p, es);
      w in q.writers && q.writers[w].Anchoring? ==> Connected(graph, q.bare.objects, q.writers[w].sha)
  {
    AnchorsSurviveEveryRun(graph, p, es);
    var q := Run(graph, p, es);
    if w in q.writers { assert PhaseSound(graph, q.bare.objects, q.writers[w]); }
  }

  // ----- A writer that finishes has anchored what it could -----

  /** A writer skips only what is anchored. */
  ghost predicate SkipsAnchored(p: Pool, w: nat) {
    w in p.writers && !p.writers[w].Fetching? && !p.writers[w].FetchDone? ==>
      forall s :: s in p.writers[w].verified ==> Have(s) in p.bare.refs
  }

  lemma StepKeepsSkips(graph: CommitGraph, p: Pool, e: Event, w: nat)
    requires SkipsAnchored(p, w)
    ensures SkipsAnchored(Step(graph, p, e), w)
  {
    StepAccumulates(graph, p, e);
    StepKeepsOthers(graph, p, e, w);
  }

  /** What replication accepts: a connected tip, or in the shallow pool a present one. */
  ghost predicate Anchorable(graph: CommitGraph, p: Pool, t: Sha) {
    t in p.bare.objects && (p.full ==> Connected(graph, p.bare.objects, t))
  }

  lemma StepKeepsAnchorable(graph: CommitGraph, p: Pool, e: Event, t: Sha)
    requires Anchorable(graph, p, t)
    ensures Anchorable(graph, Step(graph, p, e), t)
  {
    StepAccumulates(graph, p, e);
    if p.full { ConnectedGrows(graph, p.bare.objects, Step(graph, p, e).bare.objects, t); }
  }

  /** Writer `w` is replicating, and tip `t` is anchored or still ahead of it. */
  ghost predicate Ahead(p: Pool, w: nat, t: Sha) {
    && w in p.writers
    && (p.writers[w].Replicating? || p.writers[w].Anchoring?)
    && (Have(t) in p.bare.refs || t in p.writers[w].tips || (p.writers[w].Anchoring? && t == p.writers[w].sha))
  }

  predicate Survives(es: seq<Event>, w: nat) {
    forall i :: 0 <= i < |es| ==> es[i] != Event(w, Die)
  }

  lemma StepKeepsAhead(graph: CommitGraph, p: Pool, e: Event, w: nat, t: Sha)
    requires SkipsAnchored(p, w) && Anchorable(graph, p, t) && Ahead(p, w, t) && e != Event(w, Die)
    ensures Ahead(Step(graph, p, e), w, t)
  {
    StepAccumulates(graph, p, e);
    StepKeepsOthers(graph, p, e, w);
    if e.writer == w {
      assert e.action != Die;
    }
  }

  lemma {:induction false} RunKeepsAhead(graph: CommitGraph, p: Pool, es: seq<Event>, w: nat, t: Sha)
    requires SkipsAnchored(p, w) && Anchorable(graph, p, t) && Ahead(p, w, t) && Survives(es, w)
    ensures Ahead(Run(graph, p, es), w, t)
    decreases |es|
  {
    if es != [] {
      StepKeepsSkips(graph, p, es[0], w);
      StepKeepsAnchorable(graph, p, es[0], t);
      StepKeepsAhead(graph, p, es[0], w, t);
      RunKeepsAhead(graph, Step(graph, p, es[0]), es[1..], w, t);
    }
  }

  lemma {:induction false} RunKeepsSkips(graph: CommitGraph, p: Pool, es: seq<Event>, w: nat)
    requires SkipsAnchored(p, w)
    ensures SkipsAnchored(Run(graph, p, es), w)
    decreases |es|
  {
    if es != [] {
      StepKeepsSkips(graph, p, es[0], w);
      RunKeepsSkips(graph, Step(graph, p, es[0]), es[1..], w);
    }
  }

  /** Convergence: run any writers up to a point where `w` starts to replicate its tips, and on until it has none
      left. Every tip that was anchorable at the start of that phase is anchored, whatever the others did. */
  lemma {:induction false} FinishedWriterHasAnchored(graph: CommitGraph, full: bool, before: seq<Event>, after: seq<Event>,
                                                     w: nat, t: Sha)
    requires var p := Run(graph, Pool(full, Bare({}, map[]), map[]), before);
      && w in p.writers && p.writers[w].Replicating? && t in p.writers[w].tips && Anchorable(graph, p, t)
      && Survives(after, w)
      && var q := Run(graph, p, after); w in q.writers && q.writers[w].Replicating? && q.writers[w].tips == {}
    ensures var p := Run(graph, Pool(full, Bare({}, map[]), map[]), before); Have(t) in Run(graph, p, after).bare.refs
  {
    var start := Pool(full, Bare({}, map[]), map[]);
    RunKeepsSkips(graph, start, before, w);
    RunKeepsAhead(graph, Run(graph, start, before), after, w, t);
  }
}
