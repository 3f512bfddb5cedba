/** What interleaved writers do to refs: which are ever removed, and on what evidence. */
module GitCacheRemovals {
  import opened GitCache
  import opened GitCacheRuns

  // ----- One step -----

  /** The value of a ref after a step: what it was, unless the step is one of three. A fetching writer points an
      advertised ref at a present commit; a writer removes an advertised ref that still has the value it found wanting;
      a replicating writer adds an anchor that was not there. */
  lemma RefAfterStep(graph: CommitGraph, p: Pool, e: Event, r: RefName)
    ensures var refs, refs1, w := p.bare.refs, Step(graph, p, e).bare.refs, e.writer;
      || ((r in refs1 <==> r in refs) && (r in refs ==> refs1[r] == refs[r]))
      || (&& w in p.writers && p.writers[w].Fetching? && r.Advert?
          && r in refs1 && e.action == RefArrives(r, refs1[r]) && refs1[r] in p.bare.objects)
      || (&& w in p.writers && p.writers[w].Deleting? && r.Advert?
          && r in refs && r !in refs1 && p.writers[w].ref == r && p.writers[w].sha == refs[r])
      || (&& w in p.writers && p.writers[w].Anchoring? && r == Have(p.writers[w].sha)
          && r !in refs && r in refs1 && refs1[r] == p.writers[w].sha && refs1[r] in p.bare.objects)
  {
  }

  /** What a fetch delivers lands: all objects at once, and an advertised ref once its commit is there. No other step
      changes the objects. */
  lemma FetchLands(graph: CommitGraph, p: Pool, e: Event)
    ensures var q := Step(graph, p, e);
      if e.writer in p.writers && p.writers[e.writer].Fetching? && e.action.ObjectsArrive?
      then q.bare.objects == p.bare.objects + e.action.shas
      else
        && q.bare.objects == p.bare.objects
        && (e.writer in p.writers && p.writers[e.writer].Fetching? && e.action.RefArrives? && e.action.ref.Advert? &&
            e.action.target in p.bare.objects ==>
              e.action.ref in q.bare.refs && q.bare.refs[e.action.ref] == e.action.target)
  {
  }

  /** A writer that is about to remove a ref was so before the step, or has just found the listed value unverified and
      disconnected. */
  lemma DeletingAfterStep(graph: CommitGraph, p: Pool, e: Event, w: nat)
    requires var q := Step(graph, p, e); w in q.writers && q.writers[w].Deleting?
    ensures var phase := Step(graph, p, e).writers[w];
      || (w in p.writers && p.writers[w] == phase)
      || (e == Event(w, CheckAdvert(phase.ref)) && FoundBroken(graph, p, w, phase.ref, phase.sha))
  {
    StepKeepsOthers(graph, p, e, w);
  }

  /** Writer `w` is looking at the value it listed for this ref, has not verified it, and finds it disconnected. */
  ghost predicate FoundBroken(graph: CommitGraph, p: Pool, w: nat, ref: RefName, sha: Sha) {
    && w in p.writers && p.writers[w].Pruning?
    && ref in p.writers[w].adverts && p.writers[w].adverts[ref] == sha
    && sha !in p.writers[w].verified && !Connected(graph, p.bare.objects, sha)
  }

  // ----- Every run -----

  lemma {:induction false} RunLast(graph: CommitGraph, p: Pool, es: seq<Event>, e: Event)
    ensures Run(graph, p, es + [e]) == Step(graph, Run(graph, p, es), e)
    decreases |es|
  {
    if es == [] {
      assert ([e])[1..] == [];
    } else {
      assert (es + [e])[1..] == es[1..] + [e];
      RunLast(graph, Step(graph, p, es[0]), es[1..], e);
    }
  }

  /** At step `j` of the run, writer `w` checked this value of this ref and found it unverified and disconnected. */
  ghost predicate BrokenAt(graph: CommitGraph, p: Pool, es: seq<Event>, j: nat, w: nat, ref: RefName, sha: Sha)
    requires j < |es|
  {
    es[j] == Event(w, CheckAdvert(ref)) && FoundBroken(graph, Run(graph, p, es[..j]), w, ref, sha)
  }

  lemma {:induction false} DeletingWasChecked(graph: CommitGraph, p: Pool, es: seq<Event>, w: nat) returns (j: nat)
    requires p.writers == map[]
    requires var q := Run(graph, p, es); w in q.writers && q.writers[w].Deleting?
    ensures var phase := Run(graph, p, es).writers[w];
      j < |es| && BrokenAt(graph, p, es, j, w, phase.ref, phase.sha)
    decreases |es|
  {
    var last := |es| - 1;
    var front := es[..last];
    assert es == front + [es[last]];
    RunLast(graph, p, front, es[last]);
    var before := Run(graph, p, front);
    DeletingAfterStep(graph, before, es[last], w);
    if w in before.writers && before.writers[w] == Run(graph, p, es).writers[w] {
      j := DeletingWasChecked(graph, p, front, w);
      assert front[..j] == es[..j] && front[j] == es[j];
    } else {
      j := last;
    }
  }

  /** Over every interleaving: a ref that step `i` removes is an advertised one, and the value it has at that moment is
      a commit that the removing writer found unverified and disconnected at an earlier step. So a value that another
      writer has put there since is never removed. */
  lemma RemovedWasBroken(graph: CommitGraph, p: Pool, es: seq<Event>, i: nat, r: RefName) returns (j: nat)
    requires p.writers == map[] && i < |es|
    requires r in Run(graph, p, es[..i]).bare.refs && r !in Run(graph, p, es[..i + 1]).bare.refs
    ensures r.Advert? && j < i
    ensures BrokenAt(graph, p, es, j, es[i].writer, r, Run(graph, p, es[..i]).bare.refs[r])
  {
    var front := es[..i];
    assert es[..i + 1] == front + [es[i]];
    RunLast(graph, p, front, es[i]);
    RefAfterStep(graph, Run(graph, p, front), es[i], r);
    j := DeletingWasChecked(graph, p, front, es[i].writer);
    assert front[..j] == es[..j];
  }

  /** A commit whose ancestry was present from the start is offered for good: no run removes a ref from it. */
  lemma ConnectedIsNeverRemoved(graph: CommitGraph, p: Pool, es: seq<Event>, i: nat, r: RefName)
    requires p.writers == map[] && i < |es| && Sound(graph, p)
    requires var q := Run(graph, p, es[..i]); r in q.bare.refs && Connected(graph, p.bare.objects, q.bare.refs[r])
    ensures r in Run(graph, p, es[..i + 1]).bare.refs
  {
    var sha := Run(graph, p, es[..i]).bare.refs[r];
    if r !in Run(graph, p, es[..i + 1]).bare.refs {
      var j := RemovedWasBroken(graph, p, es, i, r);
      AnchorsSurviveEveryRun(graph, p, es[..j]);
      ConnectedGrows(graph, p.bare.objects, Run(graph, p, es[..j]).bare.objects, sha);
    }
  }
}
