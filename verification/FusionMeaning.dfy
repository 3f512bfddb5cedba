/** How a partly rewritten network stands to the network it started from, and why every such network
    is acyclic and denotes the same outputs. */
module FusionMeaning {
  import opened Wrappers
  import opened Network

  /** The part a layer plays: it stands in for an original layer, or it is a dangling cast that nothing reads. */
  datatype Role = StandsFor(original: nat) | DanglingCast

  predicate Live(roles: seq<Role>, t: Tensor) {
    t.Output? ==> t.layer < |roles| && roles[t.layer].StandsFor?
  }

  predicate AllLive(roles: seq<Role>, ts: seq<Tensor>) {
    forall i :: 0 <= i < |ts| ==> Live(roles, ts[i])
  }

  /** The original tensor a live tensor stands for. */
  function Origin(roles: seq<Role>, t: Tensor): Tensor
    requires Live(roles, t)
  {
    if t.Output? then Output(roles[t.layer].original, t.index) else t
  }

  function Origins(roles: seq<Role>, ts: seq<Tensor>): seq<Tensor>
    requires AllLive(roles, ts)
  {
    seq(|ts|, i requires 0 <= i < |ts| => Origin(roles, ts[i]))
  }

  /** A layer of this kind on these (original) inputs is original layer `a` itself. */
  predicate Verbatim(o: seq<Layer>, a: nat, kind: Kind, inputs: seq<Tensor>)
    requires a < |o|
  {
    o[a].kind == kind && o[a].inputs == inputs
  }

  /** Original layer `a` is bias-free packed attention on the sum of `x` and `c`, in either order. */
  predicate AttendsToSum(o: seq<Layer>, a: nat, config: nat,
                         x: Tensor, c: Tensor, before: seq<Tensor>, after: seq<Tensor>)
    requires a < |o|
  {
    && o[a].kind == Attention(config, true, None)
    && |o[a].inputs| == 1 + |before| + |after|
    && o[a].inputs == [o[a].inputs[0]] + before + after
    && var s := o[a].inputs[0];
       && s.Output? && s.index == 0 && s.layer < |o|
       && o[s.layer].kind == ElementwiseSum
       && (o[s.layer].inputs == [x, c] || o[s.layer].inputs == [c, x])
  }

  /** Original layer `a` is bias-free attention on a sum, and this is attention with that sum split up. */
  predicate BiasFused(o: seq<Layer>, a: nat, kind: Kind, inputs: seq<Tensor>)
    requires a < |o|
  {
    && kind.Attention? && kind.packed && kind.biasAt.Some?
    && 1 <= kind.biasAt.value < |inputs|
    && AttendsToSum(o, a, kind.config, inputs[0], inputs[kind.biasAt.value],
                    inputs[1..kind.biasAt.value], inputs[kind.biasAt.value + 1..])
  }

  predicate Denotes(o: seq<Layer>, roles: seq<Role>, a: nat, kind: Kind, inputs: seq<Tensor>) {
    && a < |o|
    && AllLive(roles, inputs)
    && (Verbatim(o, a, kind, Origins(roles, inputs)) || BiasFused(o, a, kind, Origins(roles, inputs)))
  }

  predicate LayerRelated(o: seq<Layer>, layers: seq<Layer>, roles: seq<Role>, k: nat)
    requires k < |layers| && |roles| == |layers|
  {
    match roles[k]
    case StandsFor(a) =>
      && Denotes(o, roles, a, layers[k].kind, layers[k].inputs)
      && |layers[k].outTypes| == |o[a].outTypes|
    case DanglingCast =>
      && AllLive(roles, layers[k].inputs)
      && forall i :: 0 <= i < |layers[k].inputs| ==> TensorExists(layers, layers[k].inputs[i])
  }

  /** A recorded call denotes the original layer its own layer stands for. */
  predicate RecordRelated(o: seq<Layer>, memo: map<nat, CallRecord>, roles: seq<Role>, k: nat)
    requires k in memo
  {
    && k < |roles| && roles[k].StandsFor?
    && Denotes(o, roles, roles[k].original, PluginKind(memo[k]), PluginInputs(memo[k]))
  }

  /** Network `n` is network `o` part-way through (or after) any number of rewrites. Recorded calls need
      not name the tensors their layers read; they only denote the same values. */
  ghost predicate Related(o: Net, n: Net, roles: seq<Role>) {
    && |roles| == |n.layers| >= |o.layers|
    && (forall k :: 0 <= k < |o.layers| ==> roles[k] == StandsFor(k))
    && (forall k {:trigger LayerRelated(o.layers, n.layers, roles, k)} :: 0 <= k < |n.layers| ==>
          LayerRelated(o.layers, n.layers, roles, k))
    && (forall k {:trigger RecordRelated(o.layers, n.memo, roles, k)} :: k in n.memo ==>
          RecordRelated(o.layers, n.memo, roles, k))
    && AllLive(roles, n.outputs) && Origins(roles, n.outputs) == o.outputs
    && n.removed == o.removed
  }

  /** A network as model construction leaves it: tensors exist, a SUM has one output, and each recorded
      call is exactly the call that built its layer. */
  ghost predicate Constructed(o: Net) {
    && Acyclic(o.layers)
    && (forall k :: 0 <= k < |o.layers| && o.layers[k].kind.ElementwiseSum? ==> |o.layers[k].outTypes| == 1)
    && (forall k :: 0 <= k < |o.outputs| ==> TensorExists(o.layers, o.outputs[k]))
    && (forall k :: k in o.memo ==>
          && k < |o.layers|
          && o.layers[k].kind == PluginKind(o.memo[k])
          && o.layers[k].inputs == PluginInputs(o.memo[k]))
  }

  function InitialRoles(o: Net): seq<Role> {
    seq(|o.layers|, k requires 0 <= k < |o.layers| => StandsFor(k))
  }

  lemma ConstructedIsRelated(o: Net)
    requires Constructed(o)
    ensures Related(o, o, InitialRoles(o))
  {
    var roles := InitialRoles(o);
    var rank :| Ranked(o.layers, rank);
    forall k | 0 <= k < |o.layers| ensures LayerRelated(o.layers, o.layers, roles, k) {
      InitialOrigins(o, o.layers[k].inputs);
    }
    forall k | k in o.memo ensures RecordRelated(o.layers, o.memo, roles, k) {
      InitialOrigins(o, o.layers[k].inputs);
    }
    InitialOrigins(o, o.outputs);
  }

  lemma InitialOrigins(o: Net, ts: seq<Tensor>)
    requires forall i :: 0 <= i < |ts| ==> TensorExists(o.layers, ts[i])
    ensures AllLive(InitialRoles(o), ts) && Origins(InitialRoles(o), ts) == ts
  {
  }

  // ----- Acyclicity -----

  function Bound(rank: seq<nat>): (b: nat)
    ensures forall i :: 0 <= i < |rank| ==> rank[i] < b
  {
    if rank == [] then 1
    else
      var b := Bound(rank[..|rank| - 1]);
      var last := rank[|rank| - 1];
      if last < b then b else last + 1
  }

  /** A stand-in inherits the rank of its original, so a new layer may feed older ones. */
  ghost function InheritedRank(rank: seq<nat>, roles: seq<Role>): seq<nat>
    requires forall k :: 0 <= k < |roles| && roles[k].StandsFor? ==> roles[k].original < |rank|
  {
    seq(|roles|, k requires 0 <= k < |roles| =>
      if roles[k].StandsFor? then rank[roles[k].original] else Bound(rank))
  }

  predicate Below(o: seq<Layer>, rank: seq<nat>, a: nat, t: Tensor)
    requires |rank| == |o| && a < |o|
  {
    TensorExists(o, t) && (t.Output? ==> rank[t.layer] < rank[a])
  }

  lemma FusedInputsBelow(o: seq<Layer>, rank: seq<nat>, a: nat, kind: Kind, inputs: seq<Tensor>)
    requires Ranked(o, rank) && a < |o| && BiasFused(o, a, kind, inputs)
    ensures forall i :: 0 <= i < |inputs| ==> Below(o, rank, a, inputs[i])
  {
    var p := kind.biasAt.value;
    var s := o[a].inputs[0];
    assert Below(o, rank, a, o[a].inputs[0]);
    assert forall i :: 0 <= i < |o[s.layer].inputs| ==> Below(o, rank, s.layer, o[s.layer].inputs[i]);
    forall i | 0 <= i < |inputs| ensures Below(o, rank, a, inputs[i]) {
      if i == 0 || i == p {
        assert inputs[i] == o[s.layer].inputs[0] || inputs[i] == o[s.layer].inputs[1];
      } else {
        var j := if i < p then i else i - 1;
        assert inputs[i] == o[a].inputs[j];
      }
    }
  }

  lemma DenotedInputsBelow(o: seq<Layer>, rank: seq<nat>, roles: seq<Role>, a: nat, kind: Kind, inputs: seq<Tensor>)
    requires Ranked(o, rank) && Denotes(o, roles, a, kind, inputs)
    ensures forall i :: 0 <= i < |inputs| ==> Below(o, rank, a, Origin(roles, inputs[i]))
  {
    var origins := Origins(roles, inputs);
    assert forall i :: 0 <= i < |inputs| ==> origins[i] == Origin(roles, inputs[i]);
    if Verbatim(o, a, kind, origins) {
    } else {
      FusedInputsBelow(o, rank, a, kind, origins);
    }
  }

  lemma LiveOriginExists(o: Net, n: Net, roles: seq<Role>, t: Tensor)
    requires Related(o, n, roles) && Live(roles, t)
    ensures TensorExists(o.layers, Origin(roles, t)) <==> TensorExists(n.layers, t)
  {
    if t.Output? {
      assert LayerRelated(o.layers, n.layers, roles, t.layer);
    }
  }

  lemma RelatedIsRanked(o: Net, n: Net, roles: seq<Role>, rank: seq<nat>)
    requires Related(o, n, roles) && Ranked(o.layers, rank)
    ensures forall k :: 0 <= k < |roles| && roles[k].StandsFor? ==> roles[k].original < |rank|
    ensures Ranked(n.layers, InheritedRank(rank, roles))
  {
    forall k | 0 <= k < |roles| && roles[k].StandsFor? ensures roles[k].original < |rank| {
      assert LayerRelated(o.layers, n.layers, roles, k);
    }
    var inherited := InheritedRank(rank, roles);
    forall l, i | 0 <= l < |n.layers| && 0 <= i < |n.layers[l].inputs|
      ensures && TensorExists(n.layers, n.layers[l].inputs[i])
              && (n.layers[l].inputs[i].Output? ==> inherited[n.layers[l].inputs[i].layer] < inherited[l])
    {
      var t := n.layers[l].inputs[i];
      assert LayerRelated(o.layers, n.layers, roles, l);
      assert Live(roles, t);
      match roles[l]
      case StandsFor(a) =>
        DenotedInputsBelow(o.layers, rank, roles, a, n.layers[l].kind, n.layers[l].inputs);
        assert Below(o.layers, rank, a, Origin(roles, t));
        LiveOriginExists(o, n, roles, t);
      case DanglingCast =>
        if t.Output? { assert roles[t.layer].StandsFor?; }
    }
  }

  /** Rewriting keeps the graph acyclic even though newly added layers feed older ones. */
  lemma RelatedIsAcyclic(o: Net, n: Net, roles: seq<Role>)
    requires Related(o, n, roles) && Acyclic(o.layers)
    ensures Acyclic(n.layers)
  {
    var rank :| Ranked(o.layers, rank);
    RelatedIsRanked(o, n, roles, rank);
  }

  // ----- Meaning -----

  lemma SumOfParts<V(!new)>(sem: Semantics<V>, env: nat -> V, o: seq<Layer>, rank: seq<nat>,
                            a: nat, kind: Kind, inputs: seq<Tensor>, values: seq<V>, i: nat)
    requires Lawful(sem) && Ranked(o, rank) && a < |o| && BiasFused(o, a, kind, inputs)
    requires forall j :: 0 <= j < |inputs| ==> TensorExists(o, inputs[j])
    requires |values| == |inputs|
    requires forall j :: 0 <= j < |inputs| ==> values[j] == Eval(sem, env, o, rank, inputs[j])
    ensures sem(kind, values, i) == sem(o[a].kind, InputValues(sem, env, o, rank, a), i)
  {
    var p := kind.biasAt.value;
    var x, c, before, after := values[0], values[p], values[1..p], values[p + 1..];
    assert values == [x] + before + [c] + after;
    var s := o[a].inputs[0];
    var whole := InputValues(sem, env, o, rank, a);
    var parts := InputValues(sem, env, o, rank, s.layer);
    assert parts == [x, c] || parts == [c, x];
    assert whole[0] == Eval(sem, env, o, rank, Output(s.layer, 0)) == sem(ElementwiseSum, parts, 0);
    forall j | 1 <= j < |whole| ensures whole[j] == (before + after)[j - 1] {
      var q := if j < p then j else j + 1;
      assert o[a].inputs[j] == inputs[q];
    }
    assert whole == [whole[0]] + before + after;
    assert |before| == p - 1;
  }

  /** Every live tensor has the value of the original tensor it stands for. */
  lemma {:induction false} SameValue<V(!new)>(sem: Semantics<V>, env: nat -> V, o: Net, n: Net, roles: seq<Role>,
                                              ro: seq<nat>, rn: seq<nat>, t: Tensor)
    requires Lawful(sem) && Related(o, n, roles) && Ranked(o.layers, ro) && Ranked(n.layers, rn)
    requires Live(roles, t) && TensorExists(n.layers, t)
    ensures TensorExists(o.layers, Origin(roles, t))
    ensures Eval(sem, env, n.layers, rn, t) == Eval(sem, env, o.layers, ro, Origin(roles, t))
    decreases if t.Output? then rn[t.layer] + 1 else 0
  {
    LiveOriginExists(o, n, roles, t);
    if t.Output? {
      var k := t.layer;
      var a := roles[k].original;
      assert LayerRelated(o.layers, n.layers, roles, k);
      var inputs := n.layers[k].inputs;
      var origins := Origins(roles, inputs);
      var values := InputValues(sem, env, n.layers, rn, k);
      forall j | 0 <= j < |inputs|
        ensures TensorExists(o.layers, origins[j])
        ensures values[j] == Eval(sem, env, o.layers, ro, origins[j])
      {
        SameValue(sem, env, o, n, roles, ro, rn, inputs[j]);
      }
      if Verbatim(o.layers, a, n.layers[k].kind, origins) {
        assert values == InputValues(sem, env, o.layers, ro, a);
      } else {
        SumOfParts(sem, env, o.layers, ro, a, n.layers[k].kind, origins, values, t.index);
      }
    }
  }

  /** The network outputs keep their number, their order and, for every assignment of the network inputs,
      their values. */
  lemma OutputsKeepMeaning<V(!new)>(sem: Semantics<V>, env: nat -> V, o: Net, n: Net, roles: seq<Role>,
                                    ro: seq<nat>, rn: seq<nat>, k: nat)
    requires Lawful(sem) && Constructed(o) && Related(o, n, roles)
    requires Ranked(o.layers, ro) && Ranked(n.layers, rn)
    requires k < |o.outputs|
    ensures |n.outputs| == |o.outputs| && TensorExists(n.layers, n.outputs[k])
    ensures Eval(sem, env, n.layers, rn, n.outputs[k]) == Eval(sem, env, o.layers, ro, o.outputs[k])
  {
    assert Live(roles, n.outputs[k]) && o.outputs[k] == Origin(roles, n.outputs[k]);
    LiveOriginExists(o, n, roles, n.outputs[k]);
    SameValue(sem, env, o, n, roles, ro, rn, n.outputs[k]);
  }

  /** A value does not depend on which topological numbering is used to compute it. */
  lemma ValueIsRankFree<V(!new)>(sem: Semantics<V>, env: nat -> V, o: Net, r1: seq<nat>, r2: seq<nat>, t: Tensor)
    requires Lawful(sem) && Constructed(o) && Ranked(o.layers, r1) && Ranked(o.layers, r2)
    requires TensorExists(o.layers, t)
    ensures Eval(sem, env, o.layers, r1, t) == Eval(sem, env, o.layers, r2, t)
  {
    ConstructedIsRelated(o);
    SameValue(sem, env, o, o, InitialRoles(o), r2, r1, t);
  }
}
