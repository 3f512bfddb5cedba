/** What `optimize` leaves behind, and exactly on which networks it completes. */
module FusionOutcome {
  import opened Wrappers
  import opened Network
  import opened FusionMeaning
  import opened FusionPass
  import opened FusionProofs

  // ----- Every network a pass can leave behind -----

  lemma VisitKeepsRelated(o: Net, p: PassState, roles: seq<Role>, k: nat, typer: CallRecord -> (nat, nat))
    returns (roles': seq<Role>)
    requires Constructed(o) && Related(o, p.net, roles) && k < |p.net.layers|
    ensures Related(o, Visit(p, k, typer).net, roles')
  {
    roles' := roles;
    if k !in p.net.removed && Match(p.net, k).Matches? {
      RewriteKeepsRelated(o, p.net, roles, k, typer);
      roles' := Padded(roles + [roles[k]], |RewriteAt(p.net, k, typer).net.layers|);
    }
  }

  lemma {:induction false} PassKeepsRelated(o: Net, n: Net, roles: seq<Role>, j: nat, typer: CallRecord -> (nat, nat))
    returns (roles': seq<Role>)
    requires Constructed(o) && Related(o, n, roles) && j <= |n.layers|
    ensures Related(o, PassTo(n, j, typer).net, roles')
  {
    roles' := roles;
    if j > 0 {
      roles' := PassKeepsRelated(o, n, roles, j - 1, typer);
      var p := PassTo(n, j - 1, typer);
      if p.ok {
        roles' := VisitKeepsRelated(o, p, roles', j - 1, typer);
      }
    }
  }

  lemma {:induction false} PassesKeepRelated(o: Net, n: Net, roles: seq<Role>, typer: CallRecord -> (nat, nat))
    returns (roles': seq<Role>)
    requires Constructed(o) && Related(o, n, roles) && Recorded(n)
    ensures Related(o, Optimized(n, typer).net, roles')
    decreases |Unbiased(n)|
  {
    roles' := PassKeepsRelated(o, n, roles, |n.layers|, typer);
    PassShrinks(n, |n.layers|, typer);
    var p := PassTo(n, |n.layers|, typer);
    if p.ok && p.modified {
      roles' := PassesKeepRelated(o, p.net, roles', typer);
    }
  }

  /** Whether it completes or stops at a raise, `optimize` leaves a network related to the one it started from. */
  lemma OptimizedIsRelated(o: Net, typer: CallRecord -> (nat, nat)) returns (roles: seq<Role>)
    requires Constructed(o)
    ensures Recorded(o) && Related(o, Optimized(o, typer).net, roles)
  {
    ConstructedIsRelated(o);
    roles := PassesKeepRelated(o, o, InitialRoles(o), typer);
  }

  // ----- A network without matches -----

  /** No layer that is still in the network matches, or makes the matcher raise. */
  predicate Settled(n: Net, j: nat)
    requires j <= |n.layers|
  {
    forall k :: 0 <= k < j && k !in n.removed ==> Match(n, k).NoMatch?
  }

  /** A pass that rewrites nothing and does not raise has found every layer settled, and the other way round. */
  lemma {:induction false} IdlePass(n: Net, j: nat, typer: CallRecord -> (nat, nat))
    requires j <= |n.layers|
    ensures Settled(n, j) <==> PassTo(n, j, typer) == PassState(n, false, true)
    ensures PassTo(n, j, typer).ok && !PassTo(n, j, typer).modified ==> PassTo(n, j, typer).net == n
  {
    if j > 0 {
      IdlePass(n, j - 1, typer);
    }
  }

  /** When `optimize` completes, nothing is left to rewrite. */
  lemma {:induction false} OptimizedSettles(n: Net, typer: CallRecord -> (nat, nat))
    requires Recorded(n) && Optimized(n, typer).ok
    ensures var n1 := Optimized(n, typer).net; Settled(n1, |n1.layers|)
    decreases |Unbiased(n)|
  {
    PassShrinks(n, |n.layers|, typer);
    IdlePass(n, |n.layers|, typer);
    var p := PassTo(n, |n.layers|, typer);
    if p.modified {
      OptimizedSettles(p.net, typer);
    }
  }
}
