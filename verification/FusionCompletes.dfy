/** Exactly when `optimize` completes, told from the network it is given. */
module FusionCompletes {
  import opened Wrappers
  import opened Network
  import opened FusionMeaning
  import opened FusionPass
  import opened FusionProofs
  import opened FusionOutcome
  import opened FusionRun

  // ----- The condition -----

  /** The mutable summand of match `a` is `t`, which the call also reads in another place: once fused, it reads `t` twice. */
  predicate Merges(o: Net, a: nat, t: Tensor)
    requires Due(o, a)
  {
    Match(o, a).mutable == t && |o.layers[a].inputs| > 0 && t in o.layers[a].inputs[1..]
  }

  /** When layer `k` is visited, no layer reads `t` twice: not in the original, nor by an earlier fusion. */
  ghost predicate ReadOnce(o: Net, k: nat, t: Tensor) {
    !ReadsTwice(o.layers, t) && forall a :: 0 <= a < k && Due(o, a) ==> !Merges(o, a, t)
  }

  /** Layer `k` can be visited without a raise. */
  ghost predicate LayerClear(o: Net, k: nat)
    requires k < |o.layers|
  {
    k in o.removed || match Match(o, k)
                      case NoMatch => true
                      case Raises => false
                      case Matches(_, _) => ReadOnce(o, k, Output(k, 0)) && ReadOnce(o, k, Output(k, 1))
  }

  ghost predicate Clear(o: Net, j: nat)
    requires j <= |o.layers|
  {
    forall k {:trigger LayerClear(o, k)} :: 0 <= k < j ==> LayerClear(o, k)
  }

  // ----- Double reads on the way -----

  lemma MutableIsSummand(o: Net, a: nat, t: Tensor)
    requires Constructed(o) && Due(o, a) && MatchedAt(o, a) && !ConstFoldable(o.layers, t, 0)
    ensures multiset(o.layers[SumOf(o, a)].inputs)[t] == if Match(o, a).mutable == t then 1 else 0
  {
    DueSummands(o, a);
    var m := Match(o, a);
    assert m.mutable != m.constant && t != m.constant;
  }

  lemma CountOfRest(ts: seq<Tensor>, t: Tensor)
    requires |ts| > 0
    ensures multiset(ts)[t] >= multiset(ts[1..])[t]
  {
    assert ts == [ts[0]] + ts[1..];
  }

  lemma StandInReads(o: Net, n: Net, roles: seq<Role>, j: nat, l: nat, i: nat)
    requires Constructed(o) && Midway(o, n, roles, j) && Due(o, j)
    requires |o.layers| <= l < |n.layers| && roles[l].StandsFor?
    ensures var a, t := roles[l].original, Output(j, i);
      && Done(o, a, j) && MatchedAt(o, a)
      && multiset(n.layers[l].inputs)[t]
         == (if Match(o, a).mutable == t then 1 else 0) + multiset(o.layers[a].inputs[1..])[t]
  {
    var t := Output(j, i);
    ReadsAsOrigins(o, n, roles, j, l, t);
    StandInInputs(o, n, roles, j, l);
    DueIsUnfoldable(o, j, i, 0);
    MutableIsSummand(o, roles[l].original, t);
  }

  lemma OriginalReads(o: Net, n: Net, roles: seq<Role>, j: nat, l: nat, t: Tensor)
    requires Midway(o, n, roles, j) && Single(o, t, j) && l < |o.layers|
    ensures multiset(n.layers[l].inputs)[t] == multiset(o.layers[l].inputs)[t]
  {
    ReadsAsOrigins(o, n, roles, j, l, t);
    OriginalInputs(o, n, roles, j, l);
  }

  lemma DoubleReadComesFrom(o: Net, n: Net, roles: seq<Role>, j: nat, i: nat)
    requires Constructed(o) && Midway(o, n, roles, j) && Due(o, j) && ReadsTwice(n.layers, Output(j, i))
    ensures !ReadOnce(o, j, Output(j, i))
  {
    var t := Output(j, i);
    var l :| 0 <= l < |n.layers| && multiset(n.layers[l].inputs)[t] > 1;
    if l < |o.layers| {
      OriginalReads(o, n, roles, j, l, t);
    } else {
      assert AddedFits(o, n, roles, DoneSet(o, j), l);
      if roles[l].StandsFor? {
        StandInReads(o, n, roles, j, l, i);
        var a := roles[l].original;
        CountOfRest(o.layers[a].inputs, t);
        if Match(o, a).mutable == t {
          assert t in multiset(o.layers[a].inputs[1..]);
          assert Merges(o, a, t);
        } else {
          assert multiset(o.layers[a].inputs)[t] > 1;
        }
      }
    }
  }

  lemma MergedReadArrives(o: Net, n: Net, roles: seq<Role>, j: nat, i: nat, a: nat)
    requires Constructed(o) && Midway(o, n, roles, j) && Due(o, j) && Done(o, a, j) && Merges(o, a, Output(j, i))
    ensures ReadsTwice(n.layers, Output(j, i))
  {
    assert a in DoneSet(o, j) && HasStandIn(o, roles, a);
    var l :| |o.layers| <= l < |roles| && roles[l] == StandsFor(a);
    StandInReads(o, n, roles, j, l, i);
    assert Output(j, i) in multiset(o.layers[a].inputs[1..]);
  }

  lemma DoubleReadArrives(o: Net, n: Net, roles: seq<Role>, j: nat, i: nat)
    requires Constructed(o) && Midway(o, n, roles, j) && Due(o, j) && !ReadOnce(o, j, Output(j, i))
    ensures ReadsTwice(n.layers, Output(j, i))
  {
    var t := Output(j, i);
    if ReadsTwice(o.layers, t) {
      var l :| 0 <= l < |o.layers| && multiset(o.layers[l].inputs)[t] > 1;
      OriginalReads(o, n, roles, j, l, t);
    } else {
      var a :| 0 <= a < j && Due(o, a) && Merges(o, a, t);
      MergedReadArrives(o, n, roles, j, i, a);
    }
  }

  // ----- One step -----

  lemma SkipMidway(o: Net, n: Net, roles: seq<Role>, j: nat)
    requires Midway(o, n, roles, j) && !Due(o, j)
    ensures Midway(o, n, roles, j + 1)
  {
    SameDone(o, j);
  }

  lemma SameDone(o: Net, j: nat)
    requires !Due(o, j)
    ensures DoneSet(o, j + 1) == DoneSet(o, j)
  {
  }

  lemma ReadByTwoStays(layers: seq<Layer>, more: seq<Layer>, t: Tensor)
    requires ReadByTwo(layers, t) && |more| >= |layers|
    requires forall l :: 0 <= l < |layers| && t in layers[l].inputs ==> t in more[l].inputs
    ensures ReadByTwo(more, t)
  {
    var p, q :| 0 <= p < q < |layers| && t in layers[p].inputs && t in layers[q].inputs;
    assert t in more[p].inputs && t in more[q].inputs;
  }

  lemma SpentStays(n: Net, m: Net, l: nat)
    requires l in n.memo && l in m.memo && m.memo[l] == n.memo[l] && Spent(n, l) && |m.layers| >= |n.layers|
    requires forall k :: 0 <= k < |n.layers| ==> |m.layers[k].outTypes| == |n.layers[k].outTypes|
    requires forall k, t: Tensor :: 0 <= k < |n.layers| && t.NetworkInput? && t in n.layers[k].inputs ==> t in m.layers[k].inputs
    ensures Spent(m, l)
  {
    var t := n.memo[l].qkv.tensor;
    if t.NetworkInput? {
      ReadByTwoStays(n.layers, m.layers, t);
    }
  }

  /** The summand that becomes qkv stays with the SUM layer, and the new layer reads it as well. */
  lemma SummandIsShared(o: Net, n: Net, roles: seq<Role>, k: nat, typer: CallRecord -> (nat, nat))
    requires Constructed(o) && Related(o, n, roles) && k < |n.layers| && Match(n, k).Matches?
    ensures var m := Match(n, k); var fused := Fuse(n, k, m.mutable, m.constant, typer);
      TensorExists(n.layers, m.mutable) && ReadByTwo(fused.layers, m.mutable)
  {
    var m := Match(n, k);
    var x := m.mutable;
    var p := Parent(n.layers, n.memo[k].qkv.tensor).value;
    EltwiseInputsAll(n.layers, n.layers[p].inputs, false);
    RelatedIsAcyclic(o, n, roles);
    var rank :| Ranked(n.layers, rank);
    var fused := Fuse(n, k, m.mutable, m.constant, typer);
    assert fused.layers[p] == n.layers[p] && x in fused.layers[p].inputs;
    assert fused.layers[|n.layers|].inputs[0] == x;
  }

  lemma FuseShaped(o: Net, n: Net, roles: seq<Role>, done: set<nat>, k: nat, x: Tensor, c: Tensor, typer: CallRecord -> (nat, nat))
    requires Shaped(o, n, roles, done) && k in n.memo
    ensures Shaped(o, Fuse(n, k, x, c, typer), roles + [StandsFor(k)], done + {k})
  {
    var fused, roles1, done1 := Fuse(n, k, x, c, typer), roles + [StandsFor(k)], done + {k};
    forall l | |o.layers| <= l < |fused.layers| ensures AddedFits(o, fused, roles1, done1, l) {
      if l < |n.layers| {
        assert AddedFits(o, n, roles, done, l);
      }
    }
    forall a | a in done1 ensures HasStandIn(o, roles1, a) {
      if a in done {
        assert HasStandIn(o, roles, a);
        var l :| |o.layers| <= l < |roles| && roles[l] == StandsFor(a);
        assert roles1[l] == StandsFor(a);
      } else {
        assert roles1[|roles|] == StandsFor(a);
      }
    }
  }

  lemma FuseKept(o: Net, n: Net, done: set<nat>, k: nat, x: Tensor, c: Tensor, typer: CallRecord -> (nat, nat))
    requires Kept(o, n, done) && k in n.memo && k < |o.layers| <= |n.layers|
    requires TensorExists(n.layers, x) && ReadByTwo(Fuse(n, k, x, c, typer).layers, x)
    ensures Kept(o, Fuse(n, k, x, c, typer), done + {k})
  {
    var fused := Fuse(n, k, x, c, typer);
    forall l | l in fused.memo && (l >= |o.layers| || l in done + {k}) ensures Spent(fused, l) {
      if l != k && l != |n.layers| {
        SpentStays(n, fused, l);
      }
    }
  }

  lemma ReplaceShaped(o: Net, n: Net, n1: Net, roles: seq<Role>, done: set<nat>, old_: Tensor, new_: Tensor)
    requires Shaped(o, n, roles, done) && Replaced(n, n1, old_, new_) && n1.memo == n.memo && n1.removed == n.removed
    requires old_.Output? && new_.Output? && old_.layer < |o.layers| <= new_.layer
    requires forall l :: 0 <= l < |n.layers| ==>
      n1.layers[l].kind == n.layers[l].kind && |n1.layers[l].outTypes| == |n.layers[l].outTypes|
    ensures Shaped(o, n1, Padded(roles, |n1.layers|), done)
  {
    var roles1 := Padded(roles, |n1.layers|);
    forall l | |o.layers| <= l < |n1.layers| ensures AddedFits(o, n1, roles1, done, l) {
      if l < |n.layers| {
        assert AddedFits(o, n, roles, done, l);
      }
    }
    forall a | a in done ensures HasStandIn(o, roles1, a) {
      assert HasStandIn(o, roles, a);
      var l :| |o.layers| <= l < |roles| && roles[l] == StandsFor(a);
      assert roles1[l] == StandsFor(a);
    }
  }

  lemma ReplaceKept(o: Net, n: Net, n1: Net, done: set<nat>, old_: Tensor, new_: Tensor)
    requires Kept(o, n, done) && Replaced(n, n1, old_, new_) && n1.memo == n.memo && old_.Output?
    requires forall l :: 0 <= l < |n.layers| ==> |n1.layers[l].outTypes| == |n.layers[l].outTypes|
    ensures Kept(o, n1, done)
  {
    forall k, t: Tensor | 0 <= k < |n.layers| && t.NetworkInput? && t in n.layers[k].inputs
      ensures t in n1.layers[k].inputs
    {
      var i :| 0 <= i < |n.layers[k].inputs| && n.layers[k].inputs[i] == t;
      assert n1.layers[k].inputs[i] == t;
    }
    forall l | l in n1.memo && (l >= |o.layers| || l in done) ensures Spent(n1, l) {
      SpentStays(n, n1, l);
    }
  }

  lemma ReplaceOutputShaped(o: Net, n: Net, roles: seq<Role>, done: set<nat>, old_: Tensor, new_: Tensor)
    requires Shaped(o, n, roles, done) && Kept(o, n, done)
    requires old_.Output? && TensorExists(n.layers, old_) && new_.Output? && TensorExists(n.layers, new_)
    requires old_.layer < |o.layers| <= new_.layer && ReplaceOutput(n, old_, new_).ok
    ensures var n1 := ReplaceOutput(n, old_, new_).net;
      |n1.layers| >= |n.layers| && Shaped(o, n1, Padded(roles, |n1.layers|), done) && Kept(o, n1, done)
  {
    var n1 := ReplaceOutput(n, old_, new_).net;
    ReplaceOutputOutcome(n, old_, new_);
    ReplaceOutputKeepsShape(n, old_, new_);
    ReplaceShaped(o, n, n1, roles, done, old_, new_);
    ReplaceKept(o, n, n1, done, old_, new_);
  }

  lemma RewriteShaped(o: Net, n: Net, roles: seq<Role>, done: set<nat>, k: nat, typer: CallRecord -> (nat, nat))
    requires Constructed(o) && Related(o, n, roles) && Shaped(o, n, roles, done) && Kept(o, n, done)
    requires k < |o.layers| && Match(n, k).Matches? && RewriteAt(n, k, typer).ok
    ensures var n1 := RewriteAt(n, k, typer).net;
      && |n1.layers| > |n.layers| && Shaped(o, n1, Padded(roles + [StandsFor(k)], |n1.layers|), done + {k})
      && Kept(o, n1, done + {k})
  {
    var m, added := Match(n, k), |n.layers|;
    var fused := Fuse(n, k, m.mutable, m.constant, typer);
    SummandIsShared(o, n, roles, k, typer);
    FuseShaped(o, n, roles, done, k, m.mutable, m.constant, typer);
    FuseKept(o, n, done, k, m.mutable, m.constant, typer);
    RewriteIsReplaceBoth(n, k, typer);
    ReplaceBothShaped(o, fused, roles + [StandsFor(k)], done + {k}, k, added);
  }

  lemma RewriteIsReplaceBoth(n: Net, k: nat, typer: CallRecord -> (nat, nat))
    requires k < |n.layers| && Match(n, k).Matches?
    ensures var fused := Fuse(n, k, Match(n, k).mutable, Match(n, k).constant, typer);
      && |fused.layers[k].outTypes| == 2 && |fused.layers[|n.layers|].outTypes| == 2
      && RewriteAt(n, k, typer) == ReplaceBoth(fused, k, |n.layers|)
  {
  }

  /** Both outputs of the old layer, one after the other. */
  function ReplaceBoth(fused: Net, k: nat, added: nat): Outcome
    requires k < |fused.layers| && |fused.layers[k].outTypes| == 2
    requires added < |fused.layers| && |fused.layers[added].outTypes| == 2
  {
    var first := ReplaceOutput(fused, Output(k, 0), Output(added, 0));
    if !first.ok then first
    else
      ReplaceOutputKeepsShape(fused, Output(k, 0), Output(added, 0));
      ReplaceOutput(first.net, Output(k, 1), Output(added, 1))
  }

  lemma ReplaceBothShaped(o: Net, fused: Net, roles: seq<Role>, done: set<nat>, k: nat, added: nat)
    requires Shaped(o, fused, roles, done) && Kept(o, fused, done) && k < |o.layers| <= added < |fused.layers|
    requires |fused.layers[k].outTypes| == 2 && |fused.layers[added].outTypes| == 2
    requires ReplaceBoth(fused, k, added).ok
    ensures var n1 := ReplaceBoth(fused, k, added).net;
      && |n1.layers| >= |fused.layers| && Shaped(o, n1, Padded(roles, |n1.layers|), done) && Kept(o, n1, done)
  {
    var first := ReplaceOutput(fused, Output(k, 0), Output(added, 0)).net;
    ReplaceOutputShaped(o, fused, roles, done, Output(k, 0), Output(added, 0));
    ReplaceOutputKeepsShape(fused, Output(k, 0), Output(added, 0));
    ReplaceOutputShaped(o, first, Padded(roles, |first.layers|), done, Output(k, 1), Output(added, 1));
    PaddedTwice(roles, |first.layers|, |ReplaceBoth(fused, k, added).net.layers|);
  }

  lemma DoneNext(o: Net, j: nat)
    requires Due(o, j)
    ensures DoneSet(o, j + 1) == DoneSet(o, j) + {j}
  {
  }

  lemma MidwayAt(o: Net, n: Net, roles: seq<Role>, j: nat, done: set<nat>)
    requires Related(o, n, roles) && Shaped(o, n, roles, done) && Kept(o, n, done) && done == DoneSet(o, j)
    ensures Midway(o, n, roles, j)
  {
  }

  lemma RewriteMidway(o: Net, n: Net, roles: seq<Role>, j: nat, typer: CallRecord -> (nat, nat))
    requires Constructed(o) && Midway(o, n, roles, j) && Due(o, j) && Match(n, j).Matches? && RewriteAt(n, j, typer).ok
    ensures var n1 := RewriteAt(n, j, typer).net;
      |n1.layers| > |n.layers| && Midway(o, n1, Padded(roles + [roles[j]], |n1.layers|), j + 1)
  {
    DoneNext(o, j);
    assert roles[j] == StandsFor(j);
    RewriteShaped(o, n, roles, DoneSet(o, j), j, typer);
    RewriteKeepsRelated(o, n, roles, j, typer);
    var n1 := RewriteAt(n, j, typer).net;
    MidwayAt(o, n1, Padded(roles + [roles[j]], |n1.layers|), j + 1, DoneSet(o, j) + {j});
  }

  // ----- The first pass -----

  lemma RewriteOutcomeMidway(o: Net, n: Net, roles: seq<Role>, j: nat, typer: CallRecord -> (nat, nat))
    requires Constructed(o) && Midway(o, n, roles, j) && Due(o, j) && Match(n, j).Matches?
    ensures RewriteAt(n, j, typer).ok <==> LayerClear(o, j)
  {
    RewriteOutcome(o, n, roles, j, typer);
    DoubleReads(o, n, roles, j, 0);
    DoubleReads(o, n, roles, j, 1);
  }

  lemma VisitDue(o: Net, p: PassState, roles: seq<Role>, j: nat, typer: CallRecord -> (nat, nat))
    requires Constructed(o) && Midway(o, p.net, roles, j) && p.ok && Due(o, j)
    ensures var q := Visit(p, j, typer);
      && (q.ok <==> LayerClear(o, j))
      && (q.ok ==> |q.net.layers| > |p.net.layers| && Midway(o, q.net, Padded(roles + [roles[j]], |q.net.layers|), j + 1))
  {
    MatchAgrees(o, p.net, roles, j, j);
    RewriteOutcomeMidway(o, p.net, roles, j, typer);
    if RewriteAt(p.net, j, typer).ok {
      RewriteMidway(o, p.net, roles, j, typer);
    }
  }

  lemma VisitOther(o: Net, p: PassState, roles: seq<Role>, j: nat, typer: CallRecord -> (nat, nat))
    requires Constructed(o) && Midway(o, p.net, roles, j) && p.ok && j < |o.layers| && !Due(o, j)
    ensures Visit(p, j, typer).net == p.net && (Visit(p, j, typer).ok <==> LayerClear(o, j))
  {
    MatchAgrees(o, p.net, roles, j, j);
  }

  /** What visiting layer `j` does when the pass has come that far. */
  lemma VisitOutcome(o: Net, p: PassState, roles: seq<Role>, j: nat, typer: CallRecord -> (nat, nat))
    returns (roles': seq<Role>)
    requires Constructed(o) && Midway(o, p.net, roles, j) && p.ok && j < |o.layers|
    ensures Visit(p, j, typer).ok <==> LayerClear(o, j)
    ensures Visit(p, j, typer).ok ==> Midway(o, Visit(p, j, typer).net, roles', j + 1)
  {
    roles' := roles;
    if Due(o, j) {
      VisitDue(o, p, roles, j, typer);
      if Visit(p, j, typer).ok {
        roles' := Padded(roles + [roles[j]], |Visit(p, j, typer).net.layers|);
      }
    } else {
      VisitOther(o, p, roles, j, typer);
      SkipMidway(o, p.net, roles, j);
    }
  }

  lemma DoubleReads(o: Net, n: Net, roles: seq<Role>, j: nat, i: nat)
    requires Constructed(o) && Midway(o, n, roles, j) && Due(o, j)
    ensures ReadsTwice(n.layers, Output(j, i)) <==> !ReadOnce(o, j, Output(j, i))
  {
    if ReadsTwice(n.layers, Output(j, i)) {
      DoubleReadComesFrom(o, n, roles, j, i);
    } else if !ReadOnce(o, j, Output(j, i)) {
      DoubleReadArrives(o, n, roles, j, i);
    }
  }

  /** The pass has come through the first `j` layers exactly if they are clear, and stands midway then. */
  ghost predicate Reached(o: Net, p: PassState, roles: seq<Role>, j: nat)
    requires j <= |o.layers|
  {
    (p.ok <==> Clear(o, j)) && (p.ok ==> Midway(o, p.net, roles, j))
  }

  lemma ClearNext(o: Net, j: nat)
    requires j < |o.layers|
    ensures Clear(o, j + 1) <==> Clear(o, j) && LayerClear(o, j)
  {
  }

  lemma ReachedNext(o: Net, p: PassState, roles: seq<Role>, j: nat, typer: CallRecord -> (nat, nat))
    returns (roles': seq<Role>)
    requires Constructed(o) && j < |o.layers| <= |p.net.layers| && Reached(o, p, roles, j)
    ensures Reached(o, if p.ok then Visit(p, j, typer) else p, roles', j + 1)
  {
    ClearNext(o, j);
    roles' := roles;
    if p.ok {
      roles' := VisitOutcome(o, p, roles, j, typer);
    }
  }

  lemma {:induction false} FirstPass(o: Net, j: nat, typer: CallRecord -> (nat, nat)) returns (roles: seq<Role>)
    requires Constructed(o) && j <= |o.layers|
    ensures Reached(o, PassTo(o, j, typer), roles, j)
  {
    if j == 0 {
      StartsMidway(o);
      roles := InitialRoles(o);
    } else {
      roles := FirstPass(o, j - 1, typer);
      roles := ReachedNext(o, PassTo(o, j - 1, typer), roles, j - 1, typer);
    }
  }

  // ----- Nothing is left after it -----

  lemma SpentIsNoMatch(n: Net, l: nat)
    requires l < |n.layers| && l in n.memo && Spent(n, l)
    ensures Match(n, l).NoMatch?
  {
    MatchIsJudge(n, l);
    var t := n.memo[l].qkv.tensor;
    if t.NetworkInput? {
      var p, q :| 0 <= p < q < |n.layers| && t in n.layers[p].inputs && t in n.layers[q].inputs;
      TwoReaders(n.layers, t, p, q);
    }
  }

  lemma AddedSettles(o: Net, n: Net, roles: seq<Role>, done: set<nat>, k: nat)
    requires Shaped(o, n, roles, done) && Kept(o, n, done) && |o.layers| <= k < |n.layers|
    ensures Match(n, k).NoMatch?
  {
    assert AddedFits(o, n, roles, done, k);
    if roles[k].StandsFor? {
      SpentIsNoMatch(n, k);
    }
  }

  lemma DueSettles(o: Net, n: Net, done: set<nat>, k: nat)
    requires Kept(o, n, done) && k in done && k < |n.layers|
    ensures Match(n, k).NoMatch?
  {
    SpentIsNoMatch(n, k);
  }

  lemma OtherSettles(o: Net, n: Net, roles: seq<Role>, k: nat)
    requires Constructed(o) && Midway(o, n, roles, |o.layers|) && k < |o.layers| && LayerClear(o, k) && k !in o.removed && !Due(o, k)
    ensures Match(n, k).NoMatch?
  {
    MatchAgrees(o, n, roles, |o.layers|, k);
  }

  lemma LayerSettles(o: Net, n: Net, roles: seq<Role>, k: nat)
    requires Constructed(o) && Midway(o, n, roles, |o.layers|) && Clear(o, |o.layers|) && k < |n.layers| && k !in n.removed
    ensures Match(n, k).NoMatch?
  {
    if k >= |o.layers| {
      AddedSettles(o, n, roles, DoneSet(o, |o.layers|), k);
    } else if Due(o, k) {
      DueSettles(o, n, DoneSet(o, |o.layers|), k);
    } else {
      assert LayerClear(o, k);
      OtherSettles(o, n, roles, k);
    }
  }

  lemma IdleAfterwards(o: Net, n: Net, roles: seq<Role>, typer: CallRecord -> (nat, nat))
    requires Constructed(o) && Midway(o, n, roles, |o.layers|) && Clear(o, |o.layers|) && Recorded(n)
    ensures Optimized(n, typer) == Outcome(n, true)
  {
    forall k | 0 <= k < |n.layers| && k !in n.removed ensures Match(n, k).NoMatch? {
      LayerSettles(o, n, roles, k);
    }
    IdlePass(n, |n.layers|, typer);
  }

  /** `optimize` completes if and only if, in the network it is given, no layer makes the matcher raise and no output
      of a matching layer is read twice, be it by a layer or by an earlier fusion. It is then done after one pass. */
  lemma OptimizeCompletesIff(o: Net, typer: CallRecord -> (nat, nat))
    requires Constructed(o)
    ensures Recorded(o)
    ensures Optimized(o, typer).ok <==> Clear(o, |o.layers|)
    ensures Optimized(o, typer).net == PassTo(o, |o.layers|, typer).net
  {
    var roles := FirstPass(o, |o.layers|, typer);
    PassShrinks(o, |o.layers|, typer);
    var p := PassTo(o, |o.layers|, typer);
    if p.ok && p.modified {
      IdleAfterwards(o, p.net, roles, typer);
    }
  }

  /** Every layer reads only layers added before it, as in a network that was just built. */
  predicate InOrder(o: Net) {
    forall l, i :: 0 <= l < |o.layers| && 0 <= i < |o.layers[l].inputs| && o.layers[l].inputs[i].Output? ==>
      o.layers[l].inputs[i].layer < l
  }

  lemma InOrderNeverMerges(o: Net, a: nat, k: nat, i: nat)
    requires InOrder(o) && Due(o, a) && a < k
    ensures !Merges(o, a, Output(k, i))
  {
  }

  /** In a network whose layers are in the order they were built, only double reads of the network itself count. */
  lemma InOrderCompletesIff(o: Net, typer: CallRecord -> (nat, nat))
    requires Constructed(o) && InOrder(o)
    ensures Recorded(o)
    ensures Optimized(o, typer).ok <==>
      forall k {:trigger Match(o, k)} :: 0 <= k < |o.layers| && k !in o.removed ==>
        && !Match(o, k).Raises?
        && (Match(o, k).Matches? ==> !ReadsTwice(o.layers, Output(k, 0)) && !ReadsTwice(o.layers, Output(k, 1)))
  {
    OptimizeCompletesIff(o, typer);
    forall k | 0 <= k < |o.layers|
      ensures LayerClear(o, k) <==>
        (k !in o.removed ==>
          && !Match(o, k).Raises?
          && (Match(o, k).Matches? ==> !ReadsTwice(o.layers, Output(k, 0)) && !ReadsTwice(o.layers, Output(k, 1))))
    {
      InOrderReadOnce(o, k, 0);
      InOrderReadOnce(o, k, 1);
    }
  }

  lemma InOrderReadOnce(o: Net, k: nat, i: nat)
    requires InOrder(o)
    ensures ReadOnce(o, k, Output(k, i)) <==> !ReadsTwice(o.layers, Output(k, i))
  {
    forall a | 0 <= a < k && Due(o, a) ensures !Merges(o, a, Output(k, i)) {
      InOrderNeverMerges(o, a, k, i);
    }
  }
}
