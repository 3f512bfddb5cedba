/** The attention/bias fusion pass as functions on networks: matching, rewiring and re-marking outputs. */
module FusionPass {
  import opened Wrappers
  import opened Network
  import opened FusionMeaning

  const MAX_DEPTH := 10

  // ----- Matching -----

  /** One entry per input slot that reads `t`, so a layer reading it twice is listed twice. */
  function UsersOf(layers: seq<Layer>, t: Tensor): seq<nat> {
    if layers == [] then []
    else
      var last := |layers| - 1;
      UsersOf(layers[..last], t) + seq(multiset(layers[last].inputs)[t], _ => last)
  }

  predicate ConstFoldable(layers: seq<Layer>, t: Tensor, depth: nat)
    decreases MAX_DEPTH + 1 - depth
  {
    var parent := Parent(layers, t);
    if parent.None? || depth > MAX_DEPTH then false
    else if layers[parent.value].kind.Constant? && |layers[parent.value].inputs| == 0 then true
    else
      var inputs := layers[parent.value].inputs;
      forall i :: 0 <= i < |inputs| ==> ConstFoldable(layers, inputs[i], depth + 1)
  }

  /** The inputs of an element-wise layer that are (or are not) constant-foldable, in input order. */
  function EltwiseInputs(layers: seq<Layer>, inputs: seq<Tensor>, foldable: bool): seq<Tensor> {
    if inputs == [] then []
    else
      var rest := EltwiseInputs(layers, inputs[..|inputs| - 1], foldable);
      var last := inputs[|inputs| - 1];
      if ConstFoldable(layers, last, 0) == foldable then rest + [last] else rest
  }

  predicate IsAttentionPlugin(layer: Layer) {
    layer.kind.Attention? && |layer.outTypes| == 2
  }

  datatype Verdict = NoMatch | Raises | Matches(mutable: Tensor, constant: Tensor)

  /** Raises where the source dereferences a missing record or a missing parent layer. */
  function Match(net: Net, k: nat): Verdict
    requires k < |net.layers|
  {
    if !IsAttentionPlugin(net.layers[k]) then NoMatch
    else if k !in net.memo then Raises
    else
      var record := net.memo[k];
      if !record.qkv.Packed? || |UsersOf(net.layers, record.qkv.tensor)| != 1 then NoMatch
      else
        var parent := Parent(net.layers, record.qkv.tensor);
        if parent.None? then Raises
        else if !net.layers[parent.value].kind.ElementwiseSum? then NoMatch
        else
          var consts := EltwiseInputs(net.layers, net.layers[parent.value].inputs, true);
          var mutables := EltwiseInputs(net.layers, net.layers[parent.value].inputs, false);
          if |consts| != 1 || |mutables| != 1 then NoMatch
          else if record.bias.Some? then NoMatch
          else Matches(mutables[0], consts[0])
  }

  // ----- Rewriting -----

  function Substitute(ts: seq<Tensor>, old_: Tensor, new_: Tensor): (r: seq<Tensor>)
    ensures |r| == |ts|
    ensures forall i :: 0 <= i < |ts| ==> r[i] == if ts[i] == old_ then new_ else ts[i]
  {
    seq(|ts|, i requires 0 <= i < |ts| => if ts[i] == old_ then new_ else ts[i])
  }

  /** Visits the listed users in turn; raises at a user that no longer reads the old tensor. */
  function ReplaceUses(layers: seq<Layer>, users: seq<nat>, old_: Tensor, new_: Tensor): (r: (seq<Layer>, bool))
    requires forall i :: 0 <= i < |users| ==> users[i] < |layers|
    ensures |r.0| == |layers|
    decreases |users|
  {
    if users == [] then (layers, true)
    else if old_ !in layers[users[0]].inputs then (layers, false)
    else
      var user := layers[users[0]];
      ReplaceUses(layers[users[0] := user.(inputs := Substitute(user.inputs, old_, new_))], users[1..], old_, new_)
  }

  function TypeOf(layers: seq<Layer>, t: Tensor): nat
    requires t.Output? && TensorExists(layers, t)
  {
    layers[t.layer].outTypes[t.index]
  }

  /** Casts the new tensor when the types differ; the cast is only given a name, so nothing reads it. */
  function SwapInfo(net: Net, old_: Tensor, new_: Tensor): Net
    requires old_.Output? && TensorExists(net.layers, old_) && new_.Output? && TensorExists(net.layers, new_)
  {
    var to := TypeOf(net.layers, old_);
    if TypeOf(net.layers, new_) == to then net
    else net.(layers := net.layers + [Layer(Cast(to), [new_], [to])])
  }

  function ResetOutputs(net: Net, old_: Tensor, new_: Tensor): Net
    requires old_.Output? && TensorExists(net.layers, old_) && new_.Output? && TensorExists(net.layers, new_)
  {
    if old_ !in net.outputs then net
    else
      var l := net.layers[new_.layer];
      net.(outputs := Substitute(net.outputs, old_, new_),
           layers := net.layers[new_.layer :=
             l.(outTypes := l.outTypes[new_.index := TypeOf(net.layers, old_)])])
  }

  datatype Outcome = Outcome(net: Net, ok: bool)

  lemma {:induction false} UsersExist(layers: seq<Layer>, t: Tensor)
    ensures forall i :: 0 <= i < |UsersOf(layers, t)| ==> UsersOf(layers, t)[i] < |layers|
  {
    if layers != [] {
      UsersExist(layers[..|layers| - 1], t);
    }
  }

  lemma ReplaceUsesKeepsShape(layers: seq<Layer>, users: seq<nat>, old_: Tensor, new_: Tensor)
    requires forall i :: 0 <= i < |users| ==> users[i] < |layers|
    ensures var r := ReplaceUses(layers, users, old_, new_).0;
      forall j :: 0 <= j < |layers| ==>
        && r[j].kind == layers[j].kind && r[j].outTypes == layers[j].outTypes
        && |r[j].inputs| == |layers[j].inputs|
        && forall i :: 0 <= i < |layers[j].inputs| ==>
             r[j].inputs[i] == layers[j].inputs[i] ||
             (layers[j].inputs[i] == old_ && r[j].inputs[i] == new_)
    decreases |users|
  {
    if users != [] && old_ in layers[users[0]].inputs {
      var user := layers[users[0]];
      var layers1 := layers[users[0] := user.(inputs := Substitute(user.inputs, old_, new_))];
      ReplaceUsesKeepsShape(layers1, users[1..], old_, new_);
    }
  }

  /** Replaces one tensor everywhere: in consumers, in its name, and among the network outputs. */
  function ReplaceOutput(net: Net, old_: Tensor, new_: Tensor): Outcome
    requires old_.Output? && TensorExists(net.layers, old_) && new_.Output? && TensorExists(net.layers, new_)
  {
    UsersExist(net.layers, old_);
    var users := UsersOf(net.layers, old_);
    var (layers, ok) := ReplaceUses(net.layers, users, old_, new_);
    ReplaceUsesKeepsShape(net.layers, users, old_, new_);
    if !ok then Outcome(net.(layers := layers), false)
    else Outcome(ResetOutputs(SwapInfo(net.(layers := layers), old_, new_), old_, new_), true)
  }

  /** Updates the matched record in place and appends the attention layer it now describes. */
  function Fuse(net: Net, k: nat, x: Tensor, c: Tensor, typer: CallRecord -> (nat, nat)): Net
    requires k in net.memo
  {
    var record := net.memo[k].(qkv := Packed(x), bias := Some(c));
    var types := typer(record);
    Net(net.layers + [Layer(PluginKind(record), PluginInputs(record), [types.0, types.1])],
        net.memo[k := record][|net.layers| := record],
        net.outputs,
        net.removed)
  }

  /** A whole successful match: fuse, then replace both outputs of the old attention layer. `typer` gives
      the output types the plugin chooses. */
  function RewriteAt(net: Net, k: nat, typer: CallRecord -> (nat, nat)): Outcome
    requires k < |net.layers| && Match(net, k).Matches?
  {
    var m := Match(net, k);
    var added := |net.layers|;
    var fused := Fuse(net, k, m.mutable, m.constant, typer);
    var first := ReplaceOutput(fused, Output(k, 0), Output(added, 0));
    if !first.ok then first
    else
      ReplaceOutputKeepsShape(fused, Output(k, 0), Output(added, 0));
      ReplaceOutput(first.net, Output(k, 1), Output(added, 1))
  }

  lemma ReplaceOutputKeepsShape(net: Net, old_: Tensor, new_: Tensor)
    requires old_.Output? && TensorExists(net.layers, old_) && new_.Output? && TensorExists(net.layers, new_)
    ensures var n := ReplaceOutput(net, old_, new_).net;
      && |n.layers| >= |net.layers| && n.memo == net.memo && n.removed == net.removed
      && forall j :: 0 <= j < |net.layers| ==>
           n.layers[j].kind == net.layers[j].kind && |n.layers[j].outTypes| == |net.layers[j].outTypes|
  {
    UsersExist(net.layers, old_);
    ReplaceUsesKeepsShape(net.layers, UsersOf(net.layers, old_), old_, new_);
  }

  lemma RewriteGrows(n: Net, k: nat, typer: CallRecord -> (nat, nat))
    requires k < |n.layers| && Match(n, k).Matches?
    ensures var n1 := RewriteAt(n, k, typer).net;
      && |n1.layers| > |n.layers| && n1.removed == n.removed
      && n1.memo == Fuse(n, k, Match(n, k).mutable, Match(n, k).constant, typer).memo
  {
    var added := |n.layers|;
    var fused := Fuse(n, k, Match(n, k).mutable, Match(n, k).constant, typer);
    ReplaceOutputKeepsShape(fused, Output(k, 0), Output(added, 0));
    var first := ReplaceOutput(fused, Output(k, 0), Output(added, 0));
    if first.ok {
      ReplaceOutputKeepsShape(first.net, Output(k, 1), Output(added, 1));
    }
  }

  // ----- Passes -----

  /** A pass in progress: the network, whether a layer was rewritten, and whether none has raised. */
  datatype PassState = PassState(net: Net, modified: bool, ok: bool)

  function Visit(p: PassState, k: nat, typer: CallRecord -> (nat, nat)): (q: PassState)
    requires k < |p.net.layers|
    ensures |q.net.layers| >= |p.net.layers| && q.net.removed == p.net.removed
  {
    if k in p.net.removed then p
    else
      match Match(p.net, k)
      case NoMatch => p
      case Raises => p.(ok := false)
      case Matches(_, _) =>
        var r := RewriteAt(p.net, k, typer);
        RewriteGrows(p.net, k, typer);
        PassState(r.net, true, r.ok)
  }

  /** A pass after its first `j` layers, stopped at the first that raises. */
  function PassTo(n: Net, j: nat, typer: CallRecord -> (nat, nat)): (p: PassState)
    requires j <= |n.layers|
    ensures |p.net.layers| >= |n.layers| && p.net.removed == n.removed
  {
    if j == 0 then PassState(n, false, true)
    else
      var p := PassTo(n, j - 1, typer);
      if p.ok then Visit(p, j - 1, typer) else p
  }

  /** The attention layers whose recorded bias is None. */
  function Unbiased(net: Net): set<nat> {
    set k | k in net.memo && k < |net.layers| && IsAttentionPlugin(net.layers[k]) && net.memo[k].bias.None?
  }

  predicate Recorded(n: Net) {
    forall l :: l in n.memo ==> l < |n.layers|
  }
}
