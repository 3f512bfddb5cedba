/** The network object that the rewriter updates in place, and the rewrite loop run by `optimize`. */
module GraphRewriter {
  import opened Wrappers
  import opened Network
  import opened FusionMeaning
  import opened FusionPass
  import opened FusionProofs
  import opened FusionOutcome
  import opened FusionCompletes

  class TrtNetwork {
    var layers: seq<Layer>
    var memo: map<nat, CallRecord>
    var outputs: seq<Tensor>
    var removed: set<nat>
    const typer: CallRecord -> (nat, nat)  // the output types the plugin picks for a call

    ghost function Contents(): Net
      reads this
    {
      Net(layers, memo, outputs, removed)
    }

    constructor (net: Net, typer: CallRecord -> (nat, nat))
      ensures Contents() == net && this.typer == typer
    {
      layers, memo, outputs, removed := net.layers, net.memo, net.outputs, net.removed;
      this.typer := typer;
    }

    /** Layer `j` is a user of `t` once for every slot that reads it. */
    method AppendUses(earlier: seq<nat>, inputs: seq<Tensor>, t: Tensor, j: nat) returns (users: seq<nat>)
      ensures users == earlier + seq(multiset(inputs)[t], _ => j)
    {
      users := earlier;
      for i := 0 to |inputs|
        invariant users == earlier + seq(multiset(inputs[..i])[t], _ => j)
      {
        assert inputs[..i + 1] == inputs[..i] + [inputs[i]];
        if inputs[i] == t {
          users := users + [j];
        }
      }
      assert inputs[..|inputs|] == inputs;
    }

    method GetUsers(t: Tensor) returns (users: seq<nat>)
      ensures users == UsersOf(layers, t)
    {
      users := [];
      for j := 0 to |layers|
        invariant users == UsersOf(layers[..j], t)
      {
        assert layers[..j + 1][..j] == layers[..j];
        users := AppendUses(users, layers[j].inputs, t, j);
      }
      assert layers[..|layers|] == layers;
    }

    method GetEltwiseInputs(layer: Layer) returns (consts: seq<Tensor>, mutables: seq<Tensor>)
      ensures consts == EltwiseInputs(layers, layer.inputs, true)
      ensures mutables == EltwiseInputs(layers, layer.inputs, false)
    {
      consts, mutables := [], [];
      var inputs := layer.inputs;
      for i := 0 to |inputs|
        invariant consts == EltwiseInputs(layers, inputs[..i], true)
        invariant mutables == EltwiseInputs(layers, inputs[..i], false)
      {
        assert inputs[..i + 1][..i] == inputs[..i];
        if ConstFoldable(layers, inputs[i], 0) {
          consts := consts + [inputs[i]];
        } else {
          mutables := mutables + [inputs[i]];
        }
      }
      assert inputs[..|inputs|] == inputs;
    }

    /** Points every slot of one user that reads `old_` at `new_`; reports whether any slot did. */
    method RewireUser(user: nat, old_: Tensor, new_: Tensor) returns (changed: nat)
      requires user < |layers|
      modifies this`layers
      ensures changed == multiset(old(layers)[user].inputs)[old_]
      ensures layers == old(layers)[user :=
                old(layers)[user].(inputs := Substitute(old(layers)[user].inputs, old_, new_))]
    {
      changed := 0;
      var inputs := layers[user].inputs;
      ghost var done := inputs;  // the user's inputs so far
      for i := 0 to |inputs|
        invariant |done| == |inputs|
        invariant layers == old(layers)[user := old(layers)[user].(inputs := done)]
        invariant forall j :: 0 <= j < i ==> done[j] == if inputs[j] == old_ then new_ else inputs[j]
        invariant forall j :: i <= j < |inputs| ==> done[j] == inputs[j]
        invariant changed == multiset(inputs[..i])[old_]
      {
        assert inputs[..i + 1] == inputs[..i] + [inputs[i]];
        if layers[user].inputs[i] == old_ {
          changed := changed + 1;
          done := done[i := new_];
          layers := layers[user := layers[user].(inputs := layers[user].inputs[i := new_])];
        }
      }
      assert inputs[..|inputs|] == inputs;
      assert done == Substitute(inputs, old_, new_);
    }

    method ReplaceAllUsesWith(old_: Tensor, new_: Tensor) returns (ok: bool)
      modifies this`layers
      ensures forall i :: 0 <= i < |UsersOf(old(layers), old_)| ==> UsersOf(old(layers), old_)[i] < |old(layers)|
      ensures (layers, ok) == ReplaceUses(old(layers), UsersOf(old(layers), old_), old_, new_)
    {
      UsersExist(layers, old_);
      var users := GetUsers(old_);
      ghost var expected := ReplaceUses(layers, users, old_, new_);
      var i := 0;
      while i < |users|
        invariant 0 <= i <= |users| && |layers| == |old(layers)|
        invariant ReplaceUses(layers, users[i..], old_, new_) == expected
      {
        assert users[i..][1..] == users[i + 1..];
        ghost var was := layers;
        var changed := RewireUser(users[i], old_, new_);
        if changed < 1 {
          assert old_ !in multiset(was[users[i]].inputs);
          assert Substitute(was[users[i]].inputs, old_, new_) == was[users[i]].inputs;
          assert layers == was;
          return false;
        }
        assert old_ in multiset(was[users[i]].inputs);
        i := i + 1;
      }
      return true;
    }

    method SwapTensorInfo(old_: Tensor, new_: Tensor)
      requires old_.Output? && TensorExists(layers, old_) && new_.Output? && TensorExists(layers, new_)
      modifies this`layers
      ensures Contents() == SwapInfo(old(Contents()), old_, new_)
    {
      var to := TypeOf(layers, old_);
      if TypeOf(layers, new_) != to {
        layers := layers + [Layer(Cast(to), [new_], [to])];
      }
    }

    /** Un-marks all outputs and marks them again in order, with the new tensor in the old one's places. */
    method ResetNetworkOutputTensors(old_: Tensor, new_: Tensor)
      requires old_.Output? && TensorExists(layers, old_) && new_.Output? && TensorExists(layers, new_)
      requires old_ != new_
      modifies this`layers, this`outputs
      ensures Contents() == ResetOutputs(old(Contents()), old_, new_)
    {
      var marked := outputs;
      if old_ !in marked {
        return;
      }
      ghost var to := TypeOf(layers, old_);
      ghost var retyped := layers[new_.layer :=
        layers[new_.layer].(outTypes := layers[new_.layer].outTypes[new_.index := to])];
      outputs := [];
      for i := 0 to |marked|
        invariant outputs == Substitute(marked[..i], old_, new_)
        invariant layers == if old_ in marked[..i] then retyped else old(layers)
        invariant TensorExists(layers, old_) && TypeOf(layers, old_) == to
      {
        assert marked[..i + 1] == marked[..i] + [marked[i]];
        if marked[i] == old_ {
          outputs := outputs + [new_];
          var l := layers[new_.layer];
          layers := layers[new_.layer := l.(outTypes := l.outTypes[new_.index := TypeOf(layers, old_)])];
          assert layers[new_.layer].outTypes == old(layers)[new_.layer].outTypes[new_.index := to];
        } else {
          outputs := outputs + [marked[i]];
        }
      }
      assert marked[..|marked|] == marked;
    }

    method ReplaceOutputUsesWith(old_: Tensor, new_: Tensor) returns (ok: bool)
      requires old_.Output? && TensorExists(layers, old_) && new_.Output? && TensorExists(layers, new_)
      requires old_ != new_
      modifies this`layers, this`outputs
      ensures Outcome(Contents(), ok) == ReplaceOutput(old(Contents()), old_, new_)
    {
      ReplaceUsesKeepsShapeOf(layers, old_, new_);
      ok := ReplaceAllUsesWith(old_, new_);
      if ok {
        SwapTensorInfo(old_, new_);
        ResetNetworkOutputTensors(old_, new_);
      }
    }

    /** The pattern: `Ok(true)` when the layer was rewritten, `Ok(false)` when it does not match. */
    method MatchAndRewrite(k: nat) returns (r: Result<bool>)
      requires k < |layers|
      modifies this`layers, this`memo, this`outputs
      ensures match Match(old(Contents()), k)
              case NoMatch => r == Ok(false) && Contents() == old(Contents())
              case Raises => r == Raised && Contents() == old(Contents())
              case Matches(_, _) =>
                var expected := RewriteAt(old(Contents()), k, typer);
                Contents() == expected.net && r == if expected.ok then Ok(true) else Raised
    {
      if !IsAttentionPlugin(layers[k]) { return Ok(false); }
      if k !in memo { return Raised; }
      var qkv := memo[k].qkv;
      if !qkv.Packed? { return Ok(false); }
      var users := GetUsers(qkv.tensor);
      if |users| != 1 { return Ok(false); }
      var parent := Parent(layers, qkv.tensor);
      if parent.None? { return Raised; }
      if !layers[parent.value].kind.ElementwiseSum? { return Ok(false); }
      var consts, mutables := GetEltwiseInputs(layers[parent.value]);
      if |consts| != 1 || |mutables| != 1 { return Ok(false); }
      if memo[k].bias.Some? { return Ok(false); }

      var ok := Rewrite(k, mutables[0], consts[0]);
      r := if ok then Ok(true) else Raised;
    }

    /** Rebuilds the attention call with the bias split off and moves all uses to the new layer. */
    method Rewrite(k: nat, mutable: Tensor, constant: Tensor) returns (ok: bool)
      requires k < |layers| && Match(Contents(), k) == Matches(mutable, constant)
      modifies this`layers, this`memo, this`outputs
      ensures Outcome(Contents(), ok) == RewriteAt(old(Contents()), k, typer)
    {
      var added := |layers|;
      AddFused(k, mutable, constant);
      ReplaceOutputKeepsShape(Contents(), Output(k, 0), Output(added, 0));
      ok := ReplaceOutputUsesWith(Output(k, 0), Output(added, 0));
      if ok {
        ok := ReplaceOutputUsesWith(Output(k, 1), Output(added, 1));
      }
    }

    method AddFused(k: nat, mutable: Tensor, constant: Tensor)
      requires k in memo
      modifies this`layers, this`memo
      ensures Contents() == Fuse(old(Contents()), k, mutable, constant, typer)
    {
      memo := memo[k := memo[k].(qkv := Packed(mutable))];
      memo := memo[k := memo[k].(bias := Some(constant))];
      var added := |layers|;
      var types := typer(memo[k]);
      layers := layers + [Layer(PluginKind(memo[k]), PluginInputs(memo[k]), [types.0, types.1])];
      memo := memo[added := memo[k]];
    }

    /** One layer of a pass, which has rewritten a layer before if `modified` says so. */
    method VisitLayer(k: nat, modified: bool) returns (r: Result<bool>)
      requires k < |layers|
      modifies this`layers, this`memo, this`outputs
      ensures var q := Visit(PassState(old(Contents()), modified, true), k, typer);
        Contents() == q.net && r == if q.ok then Ok(q.modified) else Raised
    {
      if k in removed {
        return Ok(modified);
      }
      r := MatchAndRewrite(k);
      if r == Ok(false) {
        r := Ok(modified);
      }
    }

    /** One pass over the layers present when it starts; layers it adds are left for the next one. */
    method RunPass() returns (r: Result<bool>)
      modifies this`layers, this`memo, this`outputs
      ensures var p := PassTo(old(Contents()), |old(layers)|, typer);
        Contents() == p.net && r == if p.ok then Ok(p.modified) else Raised
    {
      var modified := false;
      var count := |layers|;
      for k := 0 to count
        invariant PassTo(old(Contents()), k, typer) == PassState(Contents(), modified, true)
      {
        r := VisitLayer(k, modified);
        if r.Raised? {
          PassStopped(old(Contents()), k + 1, count, typer);
          return;
        }
        modified := r.value;
      }
      r := Ok(modified);
    }

    /** Runs the pattern over all layers until a pass changes nothing, or a layer raises. */
    method Optimize() returns (completed: bool)
      requires Recorded(Contents())
      modifies this`layers, this`memo, this`outputs
      ensures Outcome(Contents(), completed) == Optimized(old(Contents()), typer)
    {
      var modified := true;
      while modified
        invariant Recorded(Contents())
        invariant modified ==> Optimized(Contents(), typer) == Optimized(old(Contents()), typer)
        invariant !modified ==> Outcome(Contents(), true) == Optimized(old(Contents()), typer)
        decreases |Unbiased(Contents())|, if modified then 1 else 0
      {
        PassShrinks(Contents(), |layers|, typer);
        var r := RunPass();
        if r.Raised? {
          return false;
        }
        modified := r.value;
      }
      return true;
    }
  }

  lemma {:induction false} PassStopped(n: Net, j: nat, count: nat, typer: CallRecord -> (nat, nat))
    requires j <= count <= |n.layers| && !PassTo(n, j, typer).ok
    ensures PassTo(n, count, typer) == PassTo(n, j, typer)
  {
    if j < count {
      PassStopped(n, j, count - 1, typer);
    }
  }

  lemma ReplaceUsesKeepsShapeOf(layers: seq<Layer>, old_: Tensor, new_: Tensor)
    requires old_.Output? && TensorExists(layers, old_) && new_.Output? && TensorExists(layers, new_)
    ensures forall i :: 0 <= i < |UsersOf(layers, old_)| ==> UsersOf(layers, old_)[i] < |layers|
    ensures var r := ReplaceUses(layers, UsersOf(layers, old_), old_, new_).0;
      TensorExists(r, old_) && TensorExists(r, new_)
  {
    UsersExist(layers, old_);
    ReplaceUsesKeepsShape(layers, UsersOf(layers, old_), old_, new_);
  }

  /** A network related to another is acyclic as that one is, and every network output keeps its place and its
      value for every assignment of the network inputs. */
  lemma FusionPreservesMeaning<V(!new)>(sem: Semantics<V>, env: nat -> V, o: Net, n: Net, ro: seq<nat>, k: nat)
    requires Lawful(sem) && Constructed(o) && (exists roles :: Related(o, n, roles)) && Ranked(o.layers, ro)
    requires k < |o.outputs|
    ensures Acyclic(n.layers) && |n.outputs| == |o.outputs| && TensorExists(n.layers, n.outputs[k])
    ensures forall rn :: Ranked(n.layers, rn) ==>
              Eval(sem, env, n.layers, rn, n.outputs[k]) == Eval(sem, env, o.layers, ro, o.outputs[k])
  {
    var roles :| Related(o, n, roles);
    RelatedIsAcyclic(o, n, roles);
    var rank :| Ranked(n.layers, rank);
    OutputsKeepMeaning(sem, env, o, n, roles, ro, rank, k);
    forall rn | Ranked(n.layers, rn)
      ensures Eval(sem, env, n.layers, rn, n.outputs[k]) == Eval(sem, env, o.layers, ro, o.outputs[k])
    {
      OutputsKeepMeaning(sem, env, o, n, roles, ro, rn, k);
    }
  }

  /** Whatever `optimize` leaves behind, completed or not, has the meaning of the network it was given. */
  lemma OptimizePreservesMeaning<V(!new)>(sem: Semantics<V>, env: nat -> V, o: Net, ro: seq<nat>, k: nat,
                                          typer: CallRecord -> (nat, nat))
    requires Lawful(sem) && Constructed(o) && Ranked(o.layers, ro) && k < |o.outputs|
    ensures Recorded(o)
    ensures var n := Optimized(o, typer).net;
      && Acyclic(n.layers) && |n.outputs| == |o.outputs| && TensorExists(n.layers, n.outputs[k])
      && forall rn :: Ranked(n.layers, rn) ==>
           Eval(sem, env, n.layers, rn, n.outputs[k]) == Eval(sem, env, o.layers, ro, o.outputs[k])
  {
    var roles := OptimizedIsRelated(o, typer);
    FusionPreservesMeaning(sem, env, o, Optimized(o, typer).net, ro, k);
  }

  /** x + c feeding attention, whose first output one layer reads through both of its slots. */
  const READ_TWICE := Net(
    [ Layer(OtherLayer(0), [NetworkInput(0)], [0]),
      Layer(Constant(0), [], [0]),
      Layer(ElementwiseSum, [Output(0, 0), Output(1, 0)], [0]),
      Layer(Attention(0, true, None), [Output(2, 0)], [0, 0]),
      Layer(OtherLayer(1), [Output(3, 0), Output(3, 0)], [0]) ],
    map[3 := CallRecord(0, Packed(Output(2, 0)), [], None, [])],
    [Output(4, 0)],
    {})

  lemma ReadTwiceUsers()
    ensures |UsersOf(READ_TWICE.layers, Output(2, 0))| == 1
  {
    var layers, qkv := READ_TWICE.layers, Output(2, 0);
    assert layers[..1][..0] == layers[..0] && layers[..2][..1] == layers[..1] && layers[..3][..2] == layers[..2];
    assert UsersOf(layers[..0], qkv) == [];
    assert UsersOf(layers[..1], qkv) == [];
    assert UsersOf(layers[..2], qkv) == [];
    assert UsersOf(layers[..3], qkv) == [];
    assert layers[..4][..3] == layers[..3] && multiset(layers[3].inputs)[qkv] == 1;
    assert |UsersOf(layers[..4], qkv)| == 1;
    assert layers[..4] == layers[..|layers| - 1] && multiset(layers[4].inputs)[qkv] == 0;
  }

  lemma ReadTwiceParts()
    ensures EltwiseInputs(READ_TWICE.layers, [Output(0, 0), Output(1, 0)], true) == [Output(1, 0)]
    ensures EltwiseInputs(READ_TWICE.layers, [Output(0, 0), Output(1, 0)], false) == [Output(0, 0)]
  {
    var layers := READ_TWICE.layers;
    assert !ConstFoldable(layers, layers[0].inputs[0], 1);
    assert !ConstFoldable(layers, Output(0, 0), 0);
    assert ConstFoldable(layers, Output(1, 0), 0);
    var parts := [Output(0, 0), Output(1, 0)];
    assert parts[..1] == [Output(0, 0)] && parts[..1][..0] == [];
    assert EltwiseInputs(layers, parts[..1], true) == [];
    assert EltwiseInputs(layers, parts[..1], false) == [Output(0, 0)];
  }

  lemma ReadTwiceRanked(layers: seq<Layer>)
    requires layers == READ_TWICE.layers
    ensures Ranked(layers, [0, 0, 1, 2, 3])
  {
  }

  lemma ReadTwiceConstructed(o: Net)
    requires o == READ_TWICE
    ensures Constructed(o)
  {
    ReadTwiceRanked(o.layers);
    assert o.memo.Keys == {3};
    assert o.layers[3].inputs == PluginInputs(o.memo[3]);
  }

  lemma ReadTwiceMatches(net: Net)
    requires net == READ_TWICE
    ensures Match(net, 3) == Matches(Output(0, 0), Output(1, 0))
  {
    ReadTwiceUsers();
    ReadTwiceParts();
    assert net.memo[3].qkv == Packed(Output(2, 0));
    assert Parent(net.layers, Output(2, 0)) == Some(2);
    assert net.layers[2].inputs == [Output(0, 0), Output(1, 0)];
  }

  /** A matching layer whose first output one layer reads twice makes its rewrite raise, and `optimize` as well. */
  lemma RaisesWhenReadTwice(o: Net, k: nat, typer: CallRecord -> (nat, nat))
    requires Constructed(o) && k < |o.layers| && Match(o, k).Matches? && ReadsTwice(o.layers, Output(k, 0))
    ensures Recorded(o) && !RewriteAt(o, k, typer).ok
    ensures k !in o.removed ==> !Optimized(o, typer).ok
  {
    ConstructedIsRelated(o);
    RewriteOutcome(o, o, InitialRoles(o), k, typer);
    OptimizeCompletesIff(o, typer);
    if k !in o.removed {
      assert !ReadOnce(o, k, Output(k, 0));
      assert !LayerClear(o, k);
    }
  }

  /** Fusion is not total: this well-formed network matches, the rewrite of it raises, and with it `optimize`. */
  lemma FusionCanRaise(typer: CallRecord -> (nat, nat))
    ensures Constructed(READ_TWICE) && Recorded(READ_TWICE)
    ensures Match(READ_TWICE, 3).Matches? && !RewriteAt(READ_TWICE, 3, typer).ok
    ensures !Optimized(READ_TWICE, typer).ok
  {
    ReadTwiceConstructed(READ_TWICE);
    ReadTwiceMatches(READ_TWICE);
    assert multiset(READ_TWICE.layers[4].inputs)[Output(3, 0)] > 1;
    RaisesWhenReadTwice(READ_TWICE, 3, typer);
  }
}
