/** What the fusion pass keeps, when it raises, and why it stops. */
module FusionProofs {
  import opened Wrappers
  import opened Network
  import opened FusionMeaning
  import opened FusionPass

  // ----- Every step keeps the relation to the original network -----

  lemma DenotesExtends(o: seq<Layer>, roles: seq<Role>, role: Role, a: nat, kind: Kind, inputs: seq<Tensor>)
    requires Denotes(o, roles, a, kind, inputs)
    ensures Denotes(o, roles + [role], a, kind, inputs)
  {
    assert Origins(roles + [role], inputs) == Origins(roles, inputs);
  }

  /** Appending a layer that fits its role keeps the relation. */
  lemma AppendKeepsRelated(o: Net, n: Net, roles: seq<Role>, layer: Layer, role: Role)
    requires Related(o, n, roles)
    requires LayerRelated(o.layers, n.layers + [layer], roles + [role], |n.layers|)
    ensures Related(o, n.(layers := n.layers + [layer]), roles + [role])
  {
    var n1 := n.(layers := n.layers + [layer]);
    forall k | 0 <= k < |n.layers| ensures LayerRelated(o.layers, n1.layers, roles + [role], k) {
      assert LayerRelated(o.layers, n.layers, roles, k);
      if roles[k].StandsFor? {
        DenotesExtends(o.layers, roles, role, roles[k].original, n.layers[k].kind, n.layers[k].inputs);
      }
    }
    forall k | k in n.memo ensures RecordRelated(o.layers, n.memo, roles + [role], k) {
      assert RecordRelated(o.layers, n.memo, roles, k);
      DenotesExtends(o.layers, roles, role, roles[k].original, PluginKind(n.memo[k]), PluginInputs(n.memo[k]));
    }
    assert Origins(roles + [role], n.outputs) == Origins(roles, n.outputs);
  }

  /** Two lists of live tensors with the same origins, slot by slot. */
  ghost predicate SameOrigins(roles: seq<Role>, before: seq<Tensor>, after: seq<Tensor>) {
    && |before| == |after|
    && forall i :: 0 <= i < |before| && Live(roles, before[i]) ==>
         Live(roles, after[i]) && Origin(roles, after[i]) == Origin(roles, before[i])
  }

  /** Rewiring slots to tensors with the same origin, and retyping outputs, keeps the relation. */
  lemma RewireKeepsRelated(o: Net, n: Net, roles: seq<Role>, layers: seq<Layer>)
    requires Related(o, n, roles) && |layers| == |n.layers|
    requires forall j :: 0 <= j < |layers| ==>
      && layers[j].kind == n.layers[j].kind && |layers[j].outTypes| == |n.layers[j].outTypes|
      && SameOrigins(roles, n.layers[j].inputs, layers[j].inputs)
      && forall i :: 0 <= i < |layers[j].inputs| ==>
           TensorExists(n.layers, n.layers[j].inputs[i]) ==> TensorExists(n.layers, layers[j].inputs[i])
    ensures Related(o, n.(layers := layers), roles)
  {
    forall k | 0 <= k < |layers| ensures LayerRelated(o.layers, layers, roles, k) {
      assert LayerRelated(o.layers, n.layers, roles, k);
      assert SameOrigins(roles, n.layers[k].inputs, layers[k].inputs);
      assert AllLive(roles, layers[k].inputs);
      assert Origins(roles, layers[k].inputs) == Origins(roles, n.layers[k].inputs);
    }
  }

  lemma {:induction false} EltwiseInputsLast(layers: seq<Layer>, inputs: seq<Tensor>, last: Tensor, foldable: bool)
    ensures EltwiseInputs(layers, inputs + [last], foldable)
      == EltwiseInputs(layers, inputs, foldable) + if ConstFoldable(layers, last, 0) == foldable then [last] else []
  {
    assert (inputs + [last])[..|inputs|] == inputs;
  }

  lemma {:induction false} EltwiseInputsCount(layers: seq<Layer>, inputs: seq<Tensor>)
    ensures var cs, ms := EltwiseInputs(layers, inputs, true), EltwiseInputs(layers, inputs, false);
      && |cs| + |ms| == |inputs|
      && (|ms| == 0 ==> cs == inputs)
      && (|cs| == 0 ==> ms == inputs)
  {
    if inputs != [] {
      var front, last := inputs[..|inputs| - 1], inputs[|inputs| - 1];
      assert inputs == front + [last];
      EltwiseInputsCount(layers, front);
      EltwiseInputsLast(layers, front, last, true);
      EltwiseInputsLast(layers, front, last, false);
    }
  }

  /** One constant and one mutable input are the two inputs, in one order or the other. */
  lemma {:induction false} EltwiseInputsSplit(layers: seq<Layer>, inputs: seq<Tensor>)
    requires |EltwiseInputs(layers, inputs, true)| == 1 && |EltwiseInputs(layers, inputs, false)| == 1
    ensures var c, m := EltwiseInputs(layers, inputs, true)[0], EltwiseInputs(layers, inputs, false)[0];
      inputs == [c, m] || inputs == [m, c]
  {
    EltwiseInputsCount(layers, inputs);
    EltwiseInputsCount(layers, inputs[..1]);
    assert inputs[..|inputs| - 1] == inputs[..1] == [inputs[0]];
  }

  /** Splitting one input in two keeps the origins of the other inputs in place. */
  lemma SplitOrigins(roles: seq<Role>, s: Tensor, x: Tensor, c: Tensor, before: seq<Tensor>, after: seq<Tensor>)
    requires AllLive(roles, [s] + before + after) && Live(roles, s) && Live(roles, x) && Live(roles, c)
    ensures var fused, p := [x] + before + [c] + after, 1 + |before|;
      && AllLive(roles, fused)
      && var origins := Origins(roles, fused);
         && origins[0] == Origin(roles, x) && origins[p] == Origin(roles, c)
         && Origins(roles, [s] + before + after) == [Origin(roles, s)] + origins[1..p] + origins[p + 1..]
  {
    var whole, fused, p := [s] + before + after, [x] + before + [c] + after, 1 + |before|;
    forall i | 0 <= i < |fused| ensures Live(roles, fused[i]) {
      if 1 <= i < p { assert fused[i] == whole[i]; }
      if i > p { assert fused[i] == whole[i - 1]; }
    }
    var origins := Origins(roles, fused);
    assert Origins(roles, whole)[0] == Origin(roles, s);
    forall i | 1 <= i < p ensures Origins(roles, whole)[i] == origins[i] {
      assert whole[i] == fused[i];
    }
    forall i | p <= i < |whole| ensures Origins(roles, whole)[i] == origins[i + 1] {
      assert whole[i] == fused[i + 1];
    }
    var split := [Origin(roles, s)] + origins[1..p] + origins[p + 1..];
    assert |split| == |whole|;
    assert Origins(roles, whole) == split;
  }

  /** Splitting the sum that bias-free attention reads denotes the same original layer. */
  lemma SplitSumDenotes(o: seq<Layer>, roles: seq<Role>, a: nat, config: nat,
                        s: Tensor, x: Tensor, c: Tensor, before: seq<Tensor>, after: seq<Tensor>)
    requires a < |o| && AllLive(roles, [s] + before + after)
    requires Verbatim(o, a, Attention(config, true, None), Origins(roles, [s] + before + after))
    requires Live(roles, s) && Live(roles, x) && Live(roles, c)
    requires var sum := Origin(roles, s);
      && sum.Output? && sum.index == 0 && sum.layer < |o| && o[sum.layer].kind.ElementwiseSum?
      && (o[sum.layer].inputs == [Origin(roles, x), Origin(roles, c)] ||
          o[sum.layer].inputs == [Origin(roles, c), Origin(roles, x)])
    ensures Denotes(o, roles, a, Attention(config, true, Some(1 + |before|)), [x] + before + [c] + after)
  {
    SplitOrigins(roles, s, x, c, before, after);
  }

  /** A SUM layer stands for an original SUM layer on the origins of its inputs. */
  lemma SumStandsForSum(o: Net, n: Net, roles: seq<Role>, s: Tensor)
    requires Constructed(o) && Related(o, n, roles) && Live(roles, s)
    requires s.Output? && TensorExists(n.layers, s) && n.layers[s.layer].kind.ElementwiseSum?
    ensures s.index == 0 && AllLive(roles, n.layers[s.layer].inputs)
    ensures var a := roles[s.layer].original;
      a < |o.layers| && Verbatim(o.layers, a, ElementwiseSum, Origins(roles, n.layers[s.layer].inputs))
  {
    assert LayerRelated(o.layers, n.layers, roles, s.layer);
  }

  /** The updated record, and the layer built from it, denote what the old attention layer denoted. */
  lemma FusedRecordDenotes(o: Net, n: Net, roles: seq<Role>, k: nat)
    requires Constructed(o) && Related(o, n, roles) && k < |n.layers| && Match(n, k).Matches?
    ensures roles[k].StandsFor?
    ensures var m := Match(n, k);
      var record := n.memo[k].(qkv := Packed(m.mutable), bias := Some(m.constant));
      Denotes(o.layers, roles, roles[k].original, PluginKind(record), PluginInputs(record))
  {
    var m := Match(n, k);
    assert RecordRelated(o.layers, n.memo, roles, k);
    var before, s, after := n.memo[k].before, n.memo[k].qkv.tensor, n.memo[k].after;
    var inputs := PluginInputs(n.memo[k]);
    assert inputs == [s] + before + after;
    assert Live(roles, inputs[0]);
    SumStandsForSum(o, n, roles, s);
    var parts := n.layers[s.layer].inputs;
    EltwiseInputsSplit(n.layers, parts);
    assert Live(roles, parts[0]) && Live(roles, parts[1]);
    assert Origins(roles, parts) == [Origin(roles, parts[0]), Origin(roles, parts[1])];
    SplitSumDenotes(o.layers, roles, roles[k].original, n.memo[k].config, s, m.mutable, m.constant, before, after);
  }

  lemma FuseKeepsRelated(o: Net, n: Net, roles: seq<Role>, k: nat, typer: CallRecord -> (nat, nat))
    requires Constructed(o) && Related(o, n, roles) && k < |n.layers| && Match(n, k).Matches?
    ensures roles[k].StandsFor?
    ensures Related(o, Fuse(n, k, Match(n, k).mutable, Match(n, k).constant, typer), roles + [roles[k]])
  {
    var m := Match(n, k);
    var fused := Fuse(n, k, m.mutable, m.constant, typer);
    var record := fused.memo[k];
    FusedRecordDenotes(o, n, roles, k);
    assert LayerRelated(o.layers, n.layers, roles, k);
    DenotesExtends(o.layers, roles, roles[k], roles[k].original, PluginKind(record), PluginInputs(record));
    AppendKeepsRelated(o, n, roles, fused.layers[|n.layers|], roles[k]);
    forall j | j in fused.memo ensures RecordRelated(o.layers, fused.memo, roles + [roles[k]], j) {
      if j != k && j != |n.layers| { assert RecordRelated(o.layers, n.memo, roles + [roles[k]], j); }
    }
  }

  /** `new_` may replace `old_`: both are outputs of live layers standing for the same original layer. */
  ghost predicate Interchangeable(n: Net, roles: seq<Role>, old_: Tensor, new_: Tensor) {
    && old_.Output? && TensorExists(n.layers, old_) && new_.Output? && TensorExists(n.layers, new_)
    && Live(roles, old_) && Live(roles, new_) && Origin(roles, old_) == Origin(roles, new_)
  }

  lemma ReplaceUsesKeepsRelated(o: Net, n: Net, roles: seq<Role>, users: seq<nat>, old_: Tensor, new_: Tensor)
    requires Related(o, n, roles) && Interchangeable(n, roles, old_, new_)
    requires forall i :: 0 <= i < |users| ==> users[i] < |n.layers|
    ensures var n1 := n.(layers := ReplaceUses(n.layers, users, old_, new_).0);
      Related(o, n1, roles) && Interchangeable(n1, roles, old_, new_)
  {
    ReplaceUsesKeepsShape(n.layers, users, old_, new_);
    RewireKeepsRelated(o, n, roles, ReplaceUses(n.layers, users, old_, new_).0);
  }

  /** The layers appended since `roles` was fixed are dangling casts. */
  function Padded(roles: seq<Role>, count: nat): seq<Role>
    requires |roles| <= count
  {
    roles + seq(count - |roles|, _ => DanglingCast)
  }

  /** The cast that carries the old name is read by nothing, so no live tensor changes its origin. */
  lemma SwapInfoKeepsRelated(o: Net, n: Net, roles: seq<Role>, old_: Tensor, new_: Tensor)
    requires Related(o, n, roles) && Interchangeable(n, roles, old_, new_)
    ensures var n1 := SwapInfo(n, old_, new_);
      && |n1.layers| >= |n.layers| && n1.layers[..|n.layers|] == n.layers
      && Related(o, n1, Padded(roles, |n1.layers|)) && Interchangeable(n1, Padded(roles, |n1.layers|), old_, new_)
  {
    var n1 := SwapInfo(n, old_, new_);
    if n1 == n {
      assert Padded(roles, |n1.layers|) == roles;
    } else {
      assert Padded(roles, |n1.layers|) == roles + [DanglingCast];
      AppendKeepsRelated(o, n, roles, n1.layers[|n.layers|], DanglingCast);
    }
  }

  lemma ResetOutputsKeepsRelated(o: Net, n: Net, roles: seq<Role>, old_: Tensor, new_: Tensor)
    requires Related(o, n, roles) && Interchangeable(n, roles, old_, new_)
    ensures Related(o, ResetOutputs(n, old_, new_), roles)
  {
    var n1 := ResetOutputs(n, old_, new_);
    if old_ in n.outputs {
      var marked := n.(outputs := n1.outputs);
      assert Origins(roles, marked.outputs) == Origins(roles, n.outputs);
      assert Related(o, marked, roles);
      RewireKeepsRelated(o, marked, roles, n1.layers);
    }
  }

  lemma ReplaceOutputKeepsRelated(o: Net, n: Net, roles: seq<Role>, old_: Tensor, new_: Tensor)
    requires Related(o, n, roles) && Interchangeable(n, roles, old_, new_)
    ensures var n1 := ReplaceOutput(n, old_, new_).net;
      |n1.layers| >= |n.layers| && Related(o, n1, Padded(roles, |n1.layers|))
  {
    UsersExist(n.layers, old_);
    var users := UsersOf(n.layers, old_);
    var (layers, ok) := ReplaceUses(n.layers, users, old_, new_);
    ReplaceUsesKeepsRelated(o, n, roles, users, old_, new_);
    if ok {
      var named := SwapInfo(n.(layers := layers), old_, new_);
      SwapInfoKeepsRelated(o, n.(layers := layers), roles, old_, new_);
      ResetOutputsKeepsRelated(o, named, Padded(roles, |named.layers|), old_, new_);
    } else {
      assert Padded(roles, |n.layers|) == roles;
    }
  }

  lemma PaddedTwice(roles: seq<Role>, count: nat, more: nat)
    requires |roles| <= count <= more
    ensures Padded(Padded(roles, count), more) == Padded(roles, more)
  {
  }

  /** A rewrite, whether it completes or raises half-way, leaves a network related to the original: the layer
      it appends stands for what the rewritten one stood for, and every further layer is a dangling cast. */
  lemma RewriteKeepsRelated(o: Net, n: Net, roles: seq<Role>, k: nat, typer: CallRecord -> (nat, nat))
    requires Constructed(o) && Related(o, n, roles) && k < |n.layers| && Match(n, k).Matches?
    ensures var n1 := RewriteAt(n, k, typer).net;
      |n1.layers| > |n.layers| && Related(o, n1, Padded(roles + [roles[k]], |n1.layers|))
  {
    var m := Match(n, k);
    var added := |n.layers|;
    var fused := Fuse(n, k, m.mutable, m.constant, typer);
    FuseKeepsRelated(o, n, roles, k, typer);
    var roles1 := roles + [roles[k]];
    var first := ReplaceOutput(fused, Output(k, 0), Output(added, 0));
    ReplaceOutputKeepsRelated(o, fused, roles1, Output(k, 0), Output(added, 0));
    if first.ok {
      var roles2 := Padded(roles1, |first.net.layers|);
      ReplaceOutputKeepsShape(fused, Output(k, 0), Output(added, 0));
      ReplaceOutputKeepsRelated(o, first.net, roles2, Output(k, 1), Output(added, 1));
      PaddedTwice(roles1, |first.net.layers|, |RewriteAt(n, k, typer).net.layers|);
    }
  }

  // ----- When a rewrite raises, and what it leaves behind when it does not -----

  /** Some layer reads `t` through two of its input slots. */
  ghost predicate ReadsTwice(layers: seq<Layer>, t: Tensor) {
    exists j :: 0 <= j < |layers| && multiset(layers[j].inputs)[t] > 1
  }

  lemma {:induction false} UsersCount(layers: seq<Layer>, t: Tensor, j: nat)
    ensures multiset(UsersOf(layers, t))[j] == if j < |layers| then multiset(layers[j].inputs)[t] else 0
  {
    if layers != [] {
      var last := |layers| - 1;
      var front, here := UsersOf(layers[..last], t), seq(multiset(layers[last].inputs)[t], _ => last);
      UsersCount(layers[..last], t, j);
      Repeated(multiset(layers[last].inputs)[t], last, j);
      AppendedCount(front, here, j);
    }
  }

  lemma AppendedCount(a: seq<nat>, b: seq<nat>, j: nat)
    ensures multiset(a + b)[j] == multiset(a)[j] + multiset(b)[j]
  {
  }

  lemma {:induction false} Repeated(n: nat, v: nat, j: nat)
    ensures multiset(seq(n, _ => v))[j] == if j == v then n else 0
  {
    if n > 0 {
      Repeated(n - 1, v, j);
      assert seq(n, _ => v) == seq(n - 1, _ => v) + [v];
    }
  }

  /** A listed user that does not read the old tensor makes the replacement raise. */
  lemma {:induction false} StaleUserRaises(layers: seq<Layer>, users: seq<nat>, u: nat, old_: Tensor, new_: Tensor)
    requires forall i :: 0 <= i < |users| ==> users[i] < |layers|
    requires old_ != new_ && u in users && old_ !in layers[u].inputs
    ensures !ReplaceUses(layers, users, old_, new_).1
    decreases |users|
  {
    if old_ in layers[users[0]].inputs {
      var user := layers[users[0]];
      var layers1 := layers[users[0] := user.(inputs := Substitute(user.inputs, old_, new_))];
      StaleUserRaises(layers1, users[1..], u, old_, new_);
    }
  }

  predicate NoRepeats(users: seq<nat>) {
    users == [] || (users[0] !in users[1..] && NoRepeats(users[1..]))
  }

  lemma {:induction false} NoRepeatsCount(users: seq<nat>)
    ensures NoRepeats(users) <==> forall u :: multiset(users)[u] <= 1
  {
    if users != [] {
      NoRepeatsCount(users[1..]);
      assert users == [users[0]] + users[1..];
      assert forall u :: multiset(users)[u] == multiset(users[1..])[u] + if u == users[0] then 1 else 0;
      if users[0] in users[1..] {
        assert multiset(users)[users[0]] > 1;
      } else if !NoRepeats(users[1..]) {
        var u :| multiset(users[1..])[u] > 1;
        assert multiset(users)[u] > 1;
      }
    }
  }

  /** The replacement succeeds exactly when no user is listed twice. */
  lemma {:induction false} ReplaceUsesSucceeds(layers: seq<Layer>, users: seq<nat>, old_: Tensor, new_: Tensor)
    requires forall i :: 0 <= i < |users| ==> users[i] < |layers| && old_ in layers[users[i]].inputs
    requires old_ != new_
    ensures ReplaceUses(layers, users, old_, new_).1 <==> NoRepeats(users)
    decreases |users|
  {
    if users != [] {
      var u, rest := users[0], users[1..];
      var layers1 := layers[u := layers[u].(inputs := Substitute(layers[u].inputs, old_, new_))];
      if u in rest {
        StaleUserRaises(layers1, rest, u, old_, new_);
      } else {
        ReplaceUsesSucceeds(layers1, rest, old_, new_);
      }
    }
  }

  /** A replacement that succeeds rewires every listed user completely and no other layer. */
  lemma {:induction false} ReplaceUsesIsComplete(layers: seq<Layer>, users: seq<nat>, old_: Tensor, new_: Tensor, j: nat)
    requires forall i :: 0 <= i < |users| ==> users[i] < |layers|
    requires j < |layers| && ReplaceUses(layers, users, old_, new_).1
    ensures ReplaceUses(layers, users, old_, new_).0[j].inputs ==
            if j in users then Substitute(layers[j].inputs, old_, new_) else layers[j].inputs
    decreases |users|
  {
    if users != [] {
      var u := users[0];
      var once := Substitute(layers[u].inputs, old_, new_);
      assert Substitute(once, old_, new_) == once;
      ReplaceUsesIsComplete(layers[u := layers[u].(inputs := once)], users[1..], old_, new_, j);
    }
  }

  /** `new_` took the place of `old_` throughout, and every added layer is a cast of `new_`. */
  ghost predicate Replaced(before: Net, after: Net, old_: Tensor, new_: Tensor) {
    && |after.layers| >= |before.layers|
    && after.outputs == Substitute(before.outputs, old_, new_)
    && (forall j :: 0 <= j < |before.layers| ==>
          after.layers[j].inputs == Substitute(before.layers[j].inputs, old_, new_))
    && (forall j :: |before.layers| <= j < |after.layers| ==>
          after.layers[j].inputs == [new_] && after.layers[j].kind.Cast?)
  }

  lemma UsersOutcome(layers: seq<Layer>, old_: Tensor, new_: Tensor)
    requires old_ != new_
    ensures forall i :: 0 <= i < |UsersOf(layers, old_)| ==> UsersOf(layers, old_)[i] < |layers|
    ensures var (r, ok) := ReplaceUses(layers, UsersOf(layers, old_), old_, new_);
      && (ok <==> !ReadsTwice(layers, old_))
      && (ok ==> forall j :: 0 <= j < |layers| ==> r[j].inputs == Substitute(layers[j].inputs, old_, new_))
  {
    UsersExist(layers, old_);
    var users := UsersOf(layers, old_);
    forall u: nat ensures multiset(users)[u] == if u < |layers| then multiset(layers[u].inputs)[old_] else 0 {
      UsersCount(layers, old_, u);
    }
    forall i | 0 <= i < |users| ensures old_ in layers[users[i]].inputs {
      assert users[i] in multiset(users);
    }
    ReplaceUsesSucceeds(layers, users, old_, new_);
    NoRepeatsCount(users);
    if ReplaceUses(layers, users, old_, new_).1 {
      forall j | 0 <= j < |layers|
        ensures ReplaceUses(layers, users, old_, new_).0[j].inputs == Substitute(layers[j].inputs, old_, new_)
      {
        ReplaceUsesIsComplete(layers, users, old_, new_, j);
        if j !in users {
          assert multiset(users)[j] == 0;
          assert old_ !in multiset(layers[j].inputs);
          assert Substitute(layers[j].inputs, old_, new_) == layers[j].inputs;
        }
      }
    }
  }

  /** Once the consumers are rewired, naming and re-marking complete the replacement. */
  lemma FinishReplacement(net: Net, rewired: Net, old_: Tensor, new_: Tensor)
    requires old_.Output? && TensorExists(rewired.layers, old_) && new_.Output? && TensorExists(rewired.layers, new_)
    requires |rewired.layers| == |net.layers| && rewired.outputs == net.outputs
    requires forall j :: 0 <= j < |net.layers| ==>
               rewired.layers[j].inputs == Substitute(net.layers[j].inputs, old_, new_)
    ensures Replaced(net, ResetOutputs(SwapInfo(rewired, old_, new_), old_, new_), old_, new_)
  {
    var named := SwapInfo(rewired, old_, new_);
    assert forall j :: |net.layers| <= j < |named.layers| ==>
             named.layers[j].inputs == [new_] && named.layers[j].kind.Cast?;
    if old_ !in net.outputs {
      assert Substitute(net.outputs, old_, new_) == net.outputs;
    }
  }

  /** Replacing an output raises exactly when some layer reads it twice: the consumer list then holds that
      layer twice, and its second visit finds nothing left to replace. */
  lemma ReplaceOutputOutcome(net: Net, old_: Tensor, new_: Tensor)
    requires old_.Output? && TensorExists(net.layers, old_) && new_.Output? && TensorExists(net.layers, new_)
    requires old_ != new_
    ensures ReplaceOutput(net, old_, new_).ok <==> !ReadsTwice(net.layers, old_)
    ensures ReplaceOutput(net, old_, new_).ok ==> Replaced(net, ReplaceOutput(net, old_, new_).net, old_, new_)
  {
    UsersOutcome(net.layers, old_, new_);
    ReplaceUsesKeepsShape(net.layers, UsersOf(net.layers, old_), old_, new_);
    var (layers, ok) := ReplaceUses(net.layers, UsersOf(net.layers, old_), old_, new_);
    if ok {
      FinishReplacement(net, net.(layers := layers), old_, new_);
    }
  }

  lemma {:induction false} SubstituteCount(ts: seq<Tensor>, old_: Tensor, new_: Tensor, t: Tensor)
    requires t != old_ && t != new_
    ensures multiset(Substitute(ts, old_, new_))[t] == multiset(ts)[t]
  {
    if ts != [] {
      var last := |ts| - 1;
      SubstituteCount(ts[..last], old_, new_, t);
      assert ts == ts[..last] + [ts[last]];
      assert Substitute(ts, old_, new_) ==
             Substitute(ts[..last], old_, new_) + [if ts[last] == old_ then new_ else ts[last]];
    }
  }

  /** The appended attention layer does not read the layer it replaces. */
  lemma AddedLayerIsNew(o: Net, n: Net, roles: seq<Role>, k: nat, typer: CallRecord -> (nat, nat), index: nat)
    requires Constructed(o) && Related(o, n, roles) && k < |n.layers| && Match(n, k).Matches?
    ensures var fused := Fuse(n, k, Match(n, k).mutable, Match(n, k).constant, typer);
      Output(k, index) !in fused.layers[|n.layers|].inputs
  {
    FusedRecordDenotes(o, n, roles, k);
    var m := Match(n, k);
    var record := n.memo[k].(qkv := Packed(m.mutable), bias := Some(m.constant));
    var rank :| Ranked(o.layers, rank);
    DenotedInputsBelow(o.layers, rank, roles, roles[k].original, PluginKind(record), PluginInputs(record));
  }

  lemma ReplacedOnce(net: Net, old_: Tensor, new_: Tensor, t: Tensor)
    requires old_.Output? && TensorExists(net.layers, old_) && new_.Output? && TensorExists(net.layers, new_)
    requires old_ != new_ && t != old_ && t != new_ && ReplaceOutput(net, old_, new_).ok
    ensures ReadsTwice(ReplaceOutput(net, old_, new_).net.layers, t) <==> ReadsTwice(net.layers, t)
  {
    ReplaceOutputOutcome(net, old_, new_);
    ReplaceOutputKeepsShape(net, old_, new_);
    var r := ReplaceOutput(net, old_, new_).net;
    forall j | 0 <= j < |net.layers|
      ensures multiset(r.layers[j].inputs)[t] == multiset(net.layers[j].inputs)[t]
    {
      SubstituteCount(net.layers[j].inputs, old_, new_, t);
    }
  }

  /** A matched rewrite completes exactly when no layer reads an output of the old attention layer twice. */
  lemma RewriteOutcome(o: Net, n: Net, roles: seq<Role>, k: nat, typer: CallRecord -> (nat, nat))
    requires Constructed(o) && Related(o, n, roles) && k < |n.layers| && Match(n, k).Matches?
    ensures RewriteAt(n, k, typer).ok <==>
            !ReadsTwice(n.layers, Output(k, 0)) && !ReadsTwice(n.layers, Output(k, 1))
  {
    var added := |n.layers|;
    var fused := Fuse(n, k, Match(n, k).mutable, Match(n, k).constant, typer);
    forall i: nat ensures ReadsTwice(fused.layers, Output(k, i)) <==> ReadsTwice(n.layers, Output(k, i)) {
      AddedLayerIsNew(o, n, roles, k, typer, i);
      if ReadsTwice(n.layers, Output(k, i)) {
        var j :| 0 <= j < |n.layers| && multiset(n.layers[j].inputs)[Output(k, i)] > 1;
        assert multiset(fused.layers[j].inputs)[Output(k, i)] > 1;
      }
    }
    ReplaceOutputOutcome(fused, Output(k, 0), Output(added, 0));
    var first := ReplaceOutput(fused, Output(k, 0), Output(added, 0));
    if first.ok {
      ReplaceOutputKeepsShape(fused, Output(k, 0), Output(added, 0));
      ReplacedOnce(fused, Output(k, 0), Output(added, 0), Output(k, 1));
      ReplaceOutputOutcome(first.net, Output(k, 1), Output(added, 1));
    }
  }

  ghost predicate Detached(net: Net, t: Tensor) {
    t !in net.outputs && forall j :: 0 <= j < |net.layers| ==> t !in net.layers[j].inputs
  }

  lemma ReplacedIsDetached(before: Net, after: Net, old_: Tensor, new_: Tensor, t: Tensor)
    requires Replaced(before, after, old_, new_) && old_ != new_ && t != new_
    requires t == old_ || Detached(before, t)
    ensures Detached(after, t)
  {
  }

  /** After a completed rewrite nothing reads the old attention layer and it is no network output. */
  lemma RewriteDetaches(n: Net, k: nat, typer: CallRecord -> (nat, nat))
    requires k < |n.layers| && Match(n, k).Matches? && RewriteAt(n, k, typer).ok
    ensures Detached(RewriteAt(n, k, typer).net, Output(k, 0))
    ensures Detached(RewriteAt(n, k, typer).net, Output(k, 1))
  {
    var added := |n.layers|;
    var fused := Fuse(n, k, Match(n, k).mutable, Match(n, k).constant, typer);
    var first := ReplaceOutput(fused, Output(k, 0), Output(added, 0));
    ReplaceOutputOutcome(fused, Output(k, 0), Output(added, 0));
    ReplacedIsDetached(fused, first.net, Output(k, 0), Output(added, 0), Output(k, 0));
    ReplaceOutputKeepsShape(fused, Output(k, 0), Output(added, 0));
    var second := ReplaceOutput(first.net, Output(k, 1), Output(added, 1));
    ReplaceOutputOutcome(first.net, Output(k, 1), Output(added, 1));
    ReplacedIsDetached(first.net, second.net, Output(k, 1), Output(added, 1), Output(k, 0));
    ReplacedIsDetached(first.net, second.net, Output(k, 1), Output(added, 1), Output(k, 1));
  }

  // ----- Why the loop stops -----

  lemma ReplaceOutputKeepsUnbiased(net: Net, old_: Tensor, new_: Tensor)
    requires old_.Output? && TensorExists(net.layers, old_) && new_.Output? && TensorExists(net.layers, new_)
    requires Recorded(net)
    ensures Unbiased(ReplaceOutput(net, old_, new_).net) == Unbiased(net)
  {
    ReplaceOutputKeepsShape(net, old_, new_);
  }

  /** Every rewrite takes exactly the rewritten layer out of the layers without bias. */
  lemma RewriteShrinksUnbiased(n: Net, k: nat, typer: CallRecord -> (nat, nat))
    requires Recorded(n) && k < |n.layers| && Match(n, k).Matches?
    ensures k in Unbiased(n) && Unbiased(RewriteAt(n, k, typer).net) == Unbiased(n) - {k}
  {
    var added := |n.layers|;
    var fused := Fuse(n, k, Match(n, k).mutable, Match(n, k).constant, typer);
    assert Unbiased(fused) == Unbiased(n) - {k};
    var first := ReplaceOutput(fused, Output(k, 0), Output(added, 0));
    ReplaceOutputKeepsUnbiased(fused, Output(k, 0), Output(added, 0));
    if first.ok {
      ReplaceOutputKeepsShape(fused, Output(k, 0), Output(added, 0));
      ReplaceOutputKeepsUnbiased(first.net, Output(k, 1), Output(added, 1));
    }
  }

  lemma RemoveOne(a: set<nat>, k: nat)
    requires k in a
    ensures |a - {k}| == |a| - 1
  {
  }

  /** A pass leaves records of existing layers only, and one that rewrites has fewer layers without bias. */
  ghost predicate Shrunk(n: Net, p: PassState) {
    && Recorded(p.net)
    && (p.modified ==> |Unbiased(p.net)| < |Unbiased(n)|)
    && (!p.modified ==> p.net == n)
  }

  lemma RewriteKeepsRecorded(n: Net, k: nat, typer: CallRecord -> (nat, nat))
    requires Recorded(n) && k < |n.layers| && Match(n, k).Matches?
    ensures Recorded(RewriteAt(n, k, typer).net) && |Unbiased(RewriteAt(n, k, typer).net)| < |Unbiased(n)|
  {
    RewriteGrows(n, k, typer);
    RewriteShrinksUnbiased(n, k, typer);
    RemoveOne(Unbiased(n), k);
  }

  lemma VisitShrinks(n: Net, p: PassState, k: nat, typer: CallRecord -> (nat, nat))
    requires Shrunk(n, p) && k < |p.net.layers|
    ensures Shrunk(n, Visit(p, k, typer))
  {
    if k !in p.net.removed && Match(p.net, k).Matches? {
      RewriteKeepsRecorded(p.net, k, typer);
    }
  }

  lemma StepShrinks(n: Net, p: PassState, q: PassState, k: nat, typer: CallRecord -> (nat, nat))
    requires Shrunk(n, p) && k < |p.net.layers| && q == if p.ok then Visit(p, k, typer) else p
    ensures Shrunk(n, q)
  {
    if p.ok {
      VisitShrinks(n, p, k, typer);
    }
  }

  lemma {:induction false} PassShrinks(n: Net, j: nat, typer: CallRecord -> (nat, nat))
    requires Recorded(n) && j <= |n.layers|
    ensures Shrunk(n, PassTo(n, j, typer))
  {
    if j > 0 {
      PassShrinks(n, j - 1, typer);
      StepShrinks(n, PassTo(n, j - 1, typer), PassTo(n, j, typer), j - 1, typer);
    }
  }

  /** What `optimize` makes of a network: passes until one changes nothing, or a layer raises. */
  function Optimized(n: Net, typer: CallRecord -> (nat, nat)): Outcome
    requires Recorded(n)
    decreases |Unbiased(n)|
  {
    var p := PassTo(n, |n.layers|, typer);
    PassShrinks(n, |n.layers|, typer);
    if !p.ok then Outcome(p.net, false)
    else if !p.modified then Outcome(p.net, true)
    else Optimized(p.net, typer)
  }

  // ----- What the constant test decides -----

  /** A chain of tensors, each read by the layer that produces the one before. */
  ghost predicate Chain(layers: seq<Layer>, ts: seq<Tensor>) {
    && ts != []
    && forall i :: 0 <= i < |ts| - 1 ==>
         Parent(layers, ts[i]).Some? && ts[i + 1] in layers[Parent(layers, ts[i]).value].inputs
  }

  lemma {:induction false} FoldableChain(layers: seq<Layer>, ts: seq<Tensor>, depth: nat)
    requires Chain(layers, ts) && ConstFoldable(layers, ts[0], depth)
    ensures |ts| + depth <= MAX_DEPTH + 1 && Parent(layers, ts[|ts| - 1]).Some?
    decreases |ts|
  {
    if |ts| > 1 {
      assert ts[0 + 1] in layers[Parent(layers, ts[0]).value].inputs;
      forall i | 0 <= i < |ts[1..]| - 1
        ensures Parent(layers, ts[1..][i]).Some? && ts[1..][i + 1] in layers[Parent(layers, ts[1..][i]).value].inputs
      {
        assert ts[(i + 1) + 1] in layers[Parent(layers, ts[i + 1]).value].inputs;
      }
      FoldableChain(layers, ts[1..], depth + 1);
    }
  }

  lemma {:induction false} UnfoldableChain(layers: seq<Layer>, t: Tensor, depth: nat) returns (ts: seq<Tensor>)
    requires !ConstFoldable(layers, t, depth)
    ensures Chain(layers, ts) && ts[0] == t
    ensures |ts| + depth > MAX_DEPTH + 1 || Parent(layers, ts[|ts| - 1]).None?
    decreases MAX_DEPTH + 1 - depth
  {
    ts := [t];
    if Parent(layers, t).Some? && depth <= MAX_DEPTH {
      var inputs := layers[Parent(layers, t).value].inputs;
      var i :| 0 <= i < |inputs| && !ConstFoldable(layers, inputs[i], depth + 1);
      var rest := UnfoldableChain(layers, inputs[i], depth + 1);
      ts := [t] + rest;
    }
  }

  /** A tensor counts as constant exactly when every chain of producers behind it ends, within eleven
      tensors, at layers without inputs; a network input on any chain rules it out. */
  lemma ConstFoldableMeans(layers: seq<Layer>, t: Tensor)
    ensures ConstFoldable(layers, t, 0) <==>
            forall ts :: Chain(layers, ts) && ts[0] == t ==>
              |ts| <= 11 && Parent(layers, ts[|ts| - 1]).Some?
  {
    if ConstFoldable(layers, t, 0) {
      forall ts | Chain(layers, ts) && ts[0] == t
        ensures |ts| <= MAX_DEPTH + 1 && Parent(layers, ts[|ts| - 1]).Some?
      {
        FoldableChain(layers, ts, 0);
      }
    } else {
      var ts := UnfoldableChain(layers, t, 0);
    }
  }

  /** What becomes the bias has the same value for every assignment of the network inputs. */
  lemma {:induction false} FoldableIsConstant<V(!new)>(sem: Semantics<V>, env1: nat -> V, env2: nat -> V,
                                                       layers: seq<Layer>, rank: seq<nat>, t: Tensor, depth: nat)
    requires Ranked(layers, rank) && ConstFoldable(layers, t, depth)
    ensures Eval(sem, env1, layers, rank, t) == Eval(sem, env2, layers, rank, t)
    decreases MAX_DEPTH + 1 - depth
  {
    var inputs := layers[t.layer].inputs;
    forall i | 0 <= i < |inputs|
      ensures Eval(sem, env1, layers, rank, inputs[i]) == Eval(sem, env2, layers, rank, inputs[i])
    {
      FoldableIsConstant(sem, env1, env2, layers, rank, inputs[i], depth + 1);
    }
    assert InputValues(sem, env1, layers, rank, t.layer) == InputValues(sem, env2, layers, rank, t.layer);
  }
}
