/** Tensor types through the fusion pass: what a network output is typed as, and where the plugin's own choice stays. */
module FusionTypes {
  import opened Wrappers
  import opened Network
  import opened FusionMeaning
  import opened FusionPass
  import opened FusionProofs

  // ----- One replacement -----

  /** The layers of `net` with the type of one output set. */
  predicate TypesAre(layers: seq<Layer>, after: seq<Layer>, t: Tensor, type_: nat)
    requires t.Output? && TensorExists(layers, t)
  {
    && |after| >= |layers|
    && forall l :: 0 <= l < |layers| ==>
         && after[l].kind == layers[l].kind
         && after[l].outTypes == if l == t.layer then layers[l].outTypes[t.index := type_] else layers[l].outTypes
  }

  /** A layer that casts `t` to this type. */
  predicate Casts(layer: Layer, t: Tensor, to: nat) {
    layer == Layer(Cast(to), [t], [to])
  }

  predicate CastTo(layer: Layer, to: nat) {
    layer.kind == Cast(to) && layer.outTypes == [to]
  }

  lemma UsesKeepTypes(layers: seq<Layer>, old_: Tensor, new_: Tensor)
    requires new_.Output? && TensorExists(layers, new_)
    ensures (UsersExist(layers, old_);
             TypesAre(layers, ReplaceUses(layers, UsersOf(layers, old_), old_, new_).0, new_, TypeOf(layers, new_)))
  {
    UsersExist(layers, old_);
    ReplaceUsesKeepsShape(layers, UsersOf(layers, old_), old_, new_);
  }

  /** What replacing an output does to types: a new tensor of another type gets one cast, to the old type; a new tensor
      that becomes a network output takes the old type itself; no other tensor changes its type. */
  ghost predicate OutputReplaced(net: Net, after: Net, old_: Tensor, new_: Tensor, ok: bool)
    requires old_.Output? && TensorExists(net.layers, old_) && new_.Output? && TensorExists(net.layers, new_)
  {
    var from, to := TypeOf(net.layers, new_), TypeOf(net.layers, old_);
    var marked := ok && old_ in net.outputs;
    && TypesAre(net.layers, after.layers, new_, if marked then to else from)
    && |after.layers| == |net.layers| + (if ok && from != to then 1 else 0)
    && (|after.layers| > |net.layers| ==> Casts(after.layers[|net.layers|], new_, to))
    && after.outputs == if marked then Substitute(net.outputs, old_, new_) else net.outputs
  }

  lemma ReplaceOutputTypes(net: Net, old_: Tensor, new_: Tensor)
    requires old_.Output? && TensorExists(net.layers, old_) && new_.Output? && TensorExists(net.layers, new_)
    ensures OutputReplaced(net, ReplaceOutput(net, old_, new_).net, old_, new_, ReplaceOutput(net, old_, new_).ok)
  {
    UsesKeepTypes(net.layers, old_, new_);
    UsersExist(net.layers, old_);
    ReplaceUsesKeepsShape(net.layers, UsersOf(net.layers, old_), old_, new_);
    var (layers, ok) := ReplaceUses(net.layers, UsersOf(net.layers, old_), old_, new_);
    if ok {
      FinishTypes(net, net.(layers := layers), old_, new_);
    }
  }

  /** After the users were rewired: the cast, and then the marks. */
  lemma FinishTypes(net: Net, wired: Net, old_: Tensor, new_: Tensor)
    requires old_.Output? && TensorExists(net.layers, old_) && new_.Output? && TensorExists(net.layers, new_)
    requires wired.outputs == net.outputs && |wired.layers| == |net.layers|
    requires TypesAre(net.layers, wired.layers, new_, TypeOf(net.layers, new_))
    ensures TensorExists(wired.layers, old_) && TensorExists(wired.layers, new_)
    ensures OutputReplaced(net, ResetOutputs(SwapInfo(wired, old_, new_), old_, new_), old_, new_, true)
  {
    assert TypeOf(wired.layers, old_) == TypeOf(net.layers, old_) && TypeOf(wired.layers, new_) == TypeOf(net.layers, new_);
    var named := SwapInfo(wired, old_, new_);
    assert named.layers[..|net.layers|] == wired.layers && named.outputs == net.outputs;
    assert TypeOf(named.layers, old_) == TypeOf(net.layers, old_);
  }

  // ----- One rewrite -----

  ghost predicate OutputsExist(n: Net) {
    forall x :: 0 <= x < |n.outputs| ==> TensorExists(n.layers, n.outputs[x])
  }

  /** Output `i` of layer `k` becomes output `i` of layer `added`, in some of the places or in none. */
  predicate Moves(t: Tensor, u: Tensor, k: nat, added: nat) {
    u == t || (t.Output? && t.layer == k && t.index < 2 && u == Output(added, t.index))
  }

  /** What a rewrite of layer `k` does to types and outputs: nothing is retyped except outputs of the new layer, which
      have the type the plugin chose for its record, or that of the output they replaced once they are marked. */
  ghost predicate RewriteTyped(n: Net, n1: Net, k: nat, record: CallRecord, chosen: (nat, nat))
    requires k < |n.layers| && |n.layers[k].outTypes| == 2
  {
    var added := |n.layers|;
    && |n1.layers| > added
    && (forall l :: 0 <= l < added ==> n1.layers[l].kind == n.layers[l].kind && n1.layers[l].outTypes == n.layers[l].outTypes)
    && n1.layers[added].kind == PluginKind(record)
    && n1.layers[added].outTypes == [
         if Output(added, 0) in n1.outputs then n.layers[k].outTypes[0] else chosen.0,
         if Output(added, 1) in n1.outputs then n.layers[k].outTypes[1] else chosen.1]
    && (forall l :: added < l < |n1.layers| ==>
          CastTo(n1.layers[l], n.layers[k].outTypes[0]) || CastTo(n1.layers[l], n.layers[k].outTypes[1]))
    && |n1.outputs| == |n.outputs|
    && (forall x :: 0 <= x < |n.outputs| ==> Moves(n.outputs[x], n1.outputs[x], k, added))
  }

  lemma NewIsUnmarked(n: Net, i: nat)
    requires OutputsExist(n)
    ensures Output(|n.layers|, i) !in n.outputs
  {
  }

  lemma SubstituteMarks(ts: seq<Tensor>, old_: Tensor, new_: Tensor, t: Tensor)
    requires old_ in ts
    ensures t in Substitute(ts, old_, new_) <==> t == new_ || (t in ts && t != old_)
  {
    var x :| 0 <= x < |ts| && ts[x] == old_;
    assert Substitute(ts, old_, new_)[x] == new_;
    if t in ts && t != old_ {
      var y :| 0 <= y < |ts| && ts[y] == t;
      assert Substitute(ts, old_, new_)[y] == t;
    }
  }

  /** The marks after a replacement by a tensor that was not marked. */
  lemma MarksAfter(net: Net, after: Net, old_: Tensor, new_: Tensor, ok: bool)
    requires old_.Output? && TensorExists(net.layers, old_) && new_.Output? && TensorExists(net.layers, new_)
    requires OutputReplaced(net, after, old_, new_, ok) && new_ !in net.outputs
    ensures new_ in after.outputs <==> ok && old_ in net.outputs
    ensures forall t :: t != new_ && t != old_ ==> (t in after.outputs <==> t in net.outputs)
  {
    if ok && old_ in net.outputs {
      forall t ensures t in after.outputs <==> t == new_ || (t in net.outputs && t != old_) {
        SubstituteMarks(net.outputs, old_, new_, t);
      }
    }
  }

  /** The replacement of one of the two outputs of `k`, seen from the layer that was added. */
  lemma HalfReplaced(net: Net, after: Net, k: nat, added: nat, i: nat, ok: bool)
    requires k < added < |net.layers| && i < 2 && |net.layers[k].outTypes| == 2 && |net.layers[added].outTypes| == 2
    requires OutputReplaced(net, after, Output(k, i), Output(added, i), ok) && Output(added, i) !in net.outputs
    ensures forall l :: 0 <= l < |net.layers| ==> after.layers[l].kind == net.layers[l].kind
    ensures forall l :: 0 <= l < |net.layers| && l != added ==> after.layers[l].outTypes == net.layers[l].outTypes
    ensures after.layers[added].outTypes ==
      net.layers[added].outTypes[i := if Output(added, i) in after.outputs then net.layers[k].outTypes[i] else net.layers[added].outTypes[i]]
    ensures forall l :: |net.layers| <= l < |after.layers| ==>
      Casts(after.layers[l], Output(added, i), net.layers[k].outTypes[i])
    ensures Output(added, 1 - i) in after.outputs <==> Output(added, 1 - i) in net.outputs
    ensures |after.outputs| == |net.outputs|
    ensures forall x :: 0 <= x < |net.outputs| ==> Moves(net.outputs[x], after.outputs[x], k, added)
  {
    MarksAfter(net, after, Output(k, i), Output(added, i), ok);
  }

  lemma MovesTwice(t: Tensor, u: Tensor, v: Tensor, k: nat, added: nat)
    requires Moves(t, u, k, added) && Moves(u, v, k, added) && k < added
    ensures Moves(t, v, k, added)
  {
  }

  /** The record a rewrite of layer `k` leaves for it and for the layer it adds. */
  function FusedRecord(n: Net, k: nat): CallRecord
    requires k < |n.layers| && Match(n, k).Matches?
  {
    n.memo[k].(qkv := Packed(Match(n, k).mutable), bias := Some(Match(n, k).constant))
  }

  lemma FirstHalf(n: Net, fused: Net, after: Net, k: nat, record: CallRecord, chosen: (nat, nat), ok: bool)
    requires OutputsExist(n) && k < |n.layers| && |n.layers[k].outTypes| == 2
    requires fused.layers == n.layers + [Layer(PluginKind(record), PluginInputs(record), [chosen.0, chosen.1])]
    requires fused.outputs == n.outputs && OutputReplaced(fused, after, Output(k, 0), Output(|n.layers|, 0), ok)
    ensures RewriteTyped(n, after, k, record, chosen) && Output(|n.layers|, 1) !in after.outputs
  {
    NewIsUnmarked(n, 0);
    NewIsUnmarked(n, 1);
    HalfReplaced(fused, after, k, |n.layers|, 0, ok);
    assert Output(|n.layers|, 1 - 0) !in after.outputs;
  }

  lemma SecondHalf(n: Net, mid: Net, after: Net, k: nat, record: CallRecord, chosen: (nat, nat), ok: bool)
    requires k < |n.layers| && |n.layers[k].outTypes| == 2 && RewriteTyped(n, mid, k, record, chosen)
    requires Output(|n.layers|, 1) !in mid.outputs
    requires OutputReplaced(mid, after, Output(k, 1), Output(|n.layers|, 1), ok)
    ensures RewriteTyped(n, after, k, record, chosen)
  {
    var added := |n.layers|;
    HalfReplaced(mid, after, k, added, 1, ok);
    forall x | 0 <= x < |n.outputs| ensures Moves(n.outputs[x], after.outputs[x], k, added) {
      MovesTwice(n.outputs[x], mid.outputs[x], after.outputs[x], k, added);
    }
  }

  lemma RewriteTypes(n: Net, k: nat, typer: CallRecord -> (nat, nat))
    requires OutputsExist(n) && k < |n.layers| && Match(n, k).Matches?
    ensures RewriteTyped(n, RewriteAt(n, k, typer).net, k, FusedRecord(n, k), typer(FusedRecord(n, k)))
  {
    var added, record := |n.layers|, FusedRecord(n, k);
    var fused := Fuse(n, k, Match(n, k).mutable, Match(n, k).constant, typer);
    var first := ReplaceOutput(fused, Output(k, 0), Output(added, 0));
    ReplaceOutputTypes(fused, Output(k, 0), Output(added, 0));
    FirstHalf(n, fused, first.net, k, record, typer(record), first.ok);
    if first.ok {
      ReplaceOutputKeepsShape(fused, Output(k, 0), Output(added, 0));
      ReplaceOutputTypes(first.net, Output(k, 1), Output(added, 1));
      SecondHalf(n, first.net, RewriteAt(n, k, typer).net, k, record, typer(record), RewriteAt(n, k, typer).ok);
    }
  }

  // ----- Every network the pass can leave behind -----

  /** A layer that the pass appended: a cast, or an attention layer with a bias whose outputs have the types chosen for
      its record, unless they are network outputs. */
  ghost predicate AppendedTyped(n: Net, l: nat, typer: CallRecord -> (nat, nat))
    requires l < |n.layers|
  {
    || (exists to :: CastTo(n.layers[l], to))
    || (&& l in n.memo && n.memo[l].bias.Some?
        && n.layers[l].kind == PluginKind(n.memo[l]) && |n.layers[l].outTypes| == 2
        && (Output(l, 0) !in n.outputs ==> n.layers[l].outTypes[0] == typer(n.memo[l]).0)
        && (Output(l, 1) !in n.outputs ==> n.layers[l].outTypes[1] == typer(n.memo[l]).1))
  }

  /** Output `x` is what it was, or has the type it had. */
  ghost predicate OutputTyped(o: Net, n: Net, x: nat)
    requires x < |o.outputs| && x < |n.outputs|
  {
    if o.outputs[x].NetworkInput? then n.outputs[x] == o.outputs[x]
    else
      && n.outputs[x].Output? && TensorExists(n.layers, n.outputs[x]) && TensorExists(o.layers, o.outputs[x])
      && TypeOf(n.layers, n.outputs[x]) == TypeOf(o.layers, o.outputs[x])
  }

  /** Original layers keep their types, and so does every network output, whatever it was moved to. */
  ghost predicate Typed(o: Net, n: Net, typer: CallRecord -> (nat, nat)) {
    && |n.layers| >= |o.layers| && |n.outputs| == |o.outputs|
    && (forall l :: 0 <= l < |o.layers| ==> n.layers[l].outTypes == o.layers[l].outTypes)
    && (forall x {:trigger OutputTyped(o, n, x)} :: 0 <= x < |o.outputs| ==> OutputTyped(o, n, x))
    && (forall l {:trigger AppendedTyped(n, l, typer)} :: |o.layers| <= l < |n.layers| ==> AppendedTyped(n, l, typer))
  }

  lemma TypedOutputsExist(o: Net, n: Net, typer: CallRecord -> (nat, nat))
    requires Typed(o, n, typer)
    ensures OutputsExist(n)
  {
    forall x | 0 <= x < |n.outputs| ensures TensorExists(n.layers, n.outputs[x]) {
      assert OutputTyped(o, n, x);
    }
  }

  lemma MovedOutputTyped(o: Net, n: Net, n1: Net, k: nat, record: CallRecord, chosen: (nat, nat), x: nat)
    requires k < |n.layers| && |n.layers[k].outTypes| == 2 && RewriteTyped(n, n1, k, record, chosen)
    requires x < |o.outputs| == |n.outputs| && OutputTyped(o, n, x)
    ensures OutputTyped(o, n1, x)
  {
    assert Moves(n.outputs[x], n1.outputs[x], k, |n.layers|);
    assert n1.outputs[x] in n1.outputs;
  }

  lemma MarkStays(n: Net, n1: Net, k: nat, record: CallRecord, chosen: (nat, nat), t: Tensor)
    requires k < |n.layers| && |n.layers[k].outTypes| == 2 && RewriteTyped(n, n1, k, record, chosen)
    requires t in n.outputs && t.Output? && t.layer != k
    ensures t in n1.outputs
  {
    var x :| 0 <= x < |n.outputs| && n.outputs[x] == t;
    assert Moves(n.outputs[x], n1.outputs[x], k, |n.layers|);
  }

  /** A layer that was appended before keeps its types, since it has a bias and is not rewritten. */
  lemma OlderTyped(n: Net, n1: Net, k: nat, record: CallRecord, l: nat, typer: CallRecord -> (nat, nat))
    requires k < |n.layers| && l < |n.layers| && k != l
    requires |n.layers[k].outTypes| == 2 && RewriteTyped(n, n1, k, record, typer(record))
    requires AppendedTyped(n, l, typer) && n1.memo == n.memo[k := record][|n.layers| := record]
    ensures AppendedTyped(n1, l, typer)
  {
    if to :| CastTo(n.layers[l], to) {
      assert CastTo(n1.layers[l], to);
    } else {
      assert n1.memo[l] == n.memo[l] && n1.layers[l].kind == n.layers[l].kind && n1.layers[l].outTypes == n.layers[l].outTypes;
      if Output(l, 0) in n.outputs { MarkStays(n, n1, k, record, typer(record), Output(l, 0)); }
      if Output(l, 1) in n.outputs { MarkStays(n, n1, k, record, typer(record), Output(l, 1)); }
    }
  }

  lemma NewerTyped(n: Net, n1: Net, k: nat, record: CallRecord, l: nat, typer: CallRecord -> (nat, nat))
    requires k < |n.layers| <= l < |n1.layers| && record.bias.Some?
    requires |n.layers[k].outTypes| == 2 && RewriteTyped(n, n1, k, record, typer(record))
    requires n1.memo == n.memo[k := record][|n.layers| := record]
    ensures AppendedTyped(n1, l, typer)
  {
    if l > |n.layers| {
      assert CastTo(n1.layers[l], n.layers[k].outTypes[0]) || CastTo(n1.layers[l], n.layers[k].outTypes[1]);
    }
  }

  lemma RewriteKeepsTyped(o: Net, n: Net, k: nat, typer: CallRecord -> (nat, nat))
    requires Typed(o, n, typer) && k < |n.layers| && Match(n, k).Matches?
    ensures Typed(o, RewriteAt(n, k, typer).net, typer)
  {
    var n1, record := RewriteAt(n, k, typer).net, FusedRecord(n, k);
    TypedOutputsExist(o, n, typer);
    RewriteTypes(n, k, typer);
    RewriteGrows(n, k, typer);
    forall x | 0 <= x < |o.outputs| ensures OutputTyped(o, n1, x) {
      assert OutputTyped(o, n, x);
      MovedOutputTyped(o, n, n1, k, record, typer(record), x);
    }
    forall l | |o.layers| <= l < |n1.layers| ensures AppendedTyped(n1, l, typer) {
      if l < |n.layers| {
        assert AppendedTyped(n, l, typer);
        OlderTyped(n, n1, k, record, l, typer);
      } else {
        NewerTyped(n, n1, k, record, l, typer);
      }
    }
  }

  /** What every rewrite keeps. */
  ghost predicate Preserved(inv: Net -> bool, typer: CallRecord -> (nat, nat)) {
    forall m: Net, k: nat {:trigger RewriteAt(m, k, typer)} ::
      inv(m) && k < |m.layers| && Match(m, k).Matches? ==> inv(RewriteAt(m, k, typer).net)
  }

  lemma VisitKeeps(inv: Net -> bool, p: PassState, k: nat, typer: CallRecord -> (nat, nat))
    requires Preserved(inv, typer) && inv(p.net) && k < |p.net.layers|
    ensures inv(Visit(p, k, typer).net)
  {
    if k !in p.net.removed && Match(p.net, k).Matches? {
      assert inv(RewriteAt(p.net, k, typer).net);
    }
  }

  lemma {:induction false} PassKeeps(inv: Net -> bool, n: Net, j: nat, typer: CallRecord -> (nat, nat))
    requires Preserved(inv, typer) && inv(n) && j <= |n.layers|
    ensures inv(PassTo(n, j, typer).net)
  {
    if j > 0 {
      PassKeeps(inv, n, j - 1, typer);
      VisitKeeps(inv, PassTo(n, j - 1, typer), j - 1, typer);
    }
  }

  /** What every rewrite keeps, `optimize` keeps. */
  lemma {:induction false} PassesKeep(inv: Net -> bool, n: Net, typer: CallRecord -> (nat, nat))
    requires Preserved(inv, typer) && inv(n) && Recorded(n)
    ensures inv(Optimized(n, typer).net)
    decreases |Unbiased(n)|
  {
    PassKeeps(inv, n, |n.layers|, typer);
    PassShrinks(n, |n.layers|, typer);
    var p := PassTo(n, |n.layers|, typer);
    if p.ok && p.modified {
      PassesKeep(inv, p.net, typer);
    }
  }

  /** Whether it completes or raises, `optimize` keeps the type of every network output and of every layer it was given;
      an attention layer it adds has, in this order, the types the plugin chose for the call recorded for it, except
      where one of its outputs has become a network output. */
  lemma OptimizeKeepsTypes(o: Net, typer: CallRecord -> (nat, nat))
    requires Constructed(o)
    ensures Recorded(o) && Typed(o, Optimized(o, typer).net, typer)
  {
    forall x | 0 <= x < |o.outputs| ensures OutputTyped(o, o, x) {
    }
    var inv: Net -> bool := m => Typed(o, m, typer);
    forall m: Net, k: nat {:trigger RewriteAt(m, k, typer)} | inv(m) && k < |m.layers| && Match(m, k).Matches?
      ensures inv(RewriteAt(m, k, typer).net)
    {
      RewriteKeepsTyped(o, m, k, typer);
    }
    PassesKeep(inv, o, typer);
  }
}
