/** The network that graph rewriting works on: layers, tensors, recorded plugin calls and outputs,
    together with the value every tensor denotes. */
module Network {
  import opened Wrappers

  /** A tensor is a network input or one output of one layer. Identity is what the rewriter compares. */
  datatype Tensor = NetworkInput(name: nat) | Output(layer: nat, index: nat)

  datatype Kind =
    | Constant(weights: nat)
    | ElementwiseSum
    | Attention(config: nat, packed: bool, biasAt: Option<nat>)  // biasAt: the slot holding qkv_bias
    | Cast(to: nat)
    | OtherLayer(op: nat)

  datatype Layer = Layer(kind: Kind, inputs: seq<Tensor>, outTypes: seq<nat>)

  /** The `qkv` argument of an attention call. */
  datatype Qkv = Absent | Packed(tensor: Tensor) | Separate(tensors: seq<Tensor>)

  /** The recorded arguments of one `gpt_attention` call. The plugin's inputs are the qkv tensors,
      the tensors that precede the bias, the bias if there is one, and the tensors that follow it. */
  datatype CallRecord =
    CallRecord(config: nat, qkv: Qkv, before: seq<Tensor>, bias: Option<Tensor>, after: seq<Tensor>)

  datatype Net = Net(layers: seq<Layer>, memo: map<nat, CallRecord>, outputs: seq<Tensor>, removed: set<nat>)

  function QkvTensors(q: Qkv): seq<Tensor> {
    match q
    case Absent => []
    case Packed(t) => [t]
    case Separate(ts) => ts
  }

  function BiasTensors(b: Option<Tensor>): seq<Tensor> {
    if b.Some? then [b.value] else []
  }

  function PluginInputs(r: CallRecord): seq<Tensor> {
    QkvTensors(r.qkv) + r.before + BiasTensors(r.bias) + r.after
  }

  function PluginKind(r: CallRecord): Kind {
    Attention(r.config, r.qkv.Packed?,
              if r.bias.Some? then Some(|QkvTensors(r.qkv)| + |r.before|) else None)
  }

  predicate TensorExists(layers: seq<Layer>, t: Tensor) {
    t.Output? ==> t.layer < |layers| && t.index < |layers[t.layer].outTypes|
  }

  /** The layer that produces a tensor. */
  function Parent(layers: seq<Layer>, t: Tensor): Option<nat> {
    if t.Output? && TensorExists(layers, t) then Some(t.layer) else None
  }

  // ----- Acyclicity -----

  /** `rank` is a topological numbering: every layer sits strictly above the producers of its inputs. */
  ghost predicate Ranked(layers: seq<Layer>, rank: seq<nat>) {
    && |rank| == |layers|
    && forall l, i :: 0 <= l < |layers| && 0 <= i < |layers[l].inputs| ==>
         && TensorExists(layers, layers[l].inputs[i])
         && (layers[l].inputs[i].Output? ==> rank[layers[l].inputs[i].layer] < rank[l])
  }

  ghost predicate Acyclic(layers: seq<Layer>) {
    exists rank :: Ranked(layers, rank)
  }

  predicate Feeds(layers: seq<Layer>, from: nat, to: nat) {
    && from < |layers| && to < |layers|
    && exists i :: 0 <= i < |layers[to].inputs| && layers[to].inputs[i].Output? && layers[to].inputs[i].layer == from
  }

  /** A walk along producer-to-consumer edges. */
  predicate Walk(layers: seq<Layer>, path: seq<nat>) {
    forall i :: 0 <= i < |path| - 1 ==> Feeds(layers, path[i], path[i + 1])
  }

  lemma {:induction false} WalkClimbs(layers: seq<Layer>, rank: seq<nat>, path: seq<nat>)
    requires Ranked(layers, rank) && Walk(layers, path) && |path| >= 2
    ensures path[0] < |layers| && path[|path| - 1] < |layers|
    ensures rank[path[0]] < rank[path[|path| - 1]]
  {
    assert Feeds(layers, path[0], path[1]);
    if |path| > 2 {
      var rest := path[1..];
      forall i | 0 <= i < |rest| - 1 ensures Feeds(layers, rest[i], rest[i + 1]) {
        assert Feeds(layers, path[i + 1], path[i + 2]);
      }
      WalkClimbs(layers, rank, rest);
    }
  }

  /** A rankable graph has no directed cycle. */
  lemma AcyclicHasNoCycle(layers: seq<Layer>, path: seq<nat>)
    requires Acyclic(layers) && Walk(layers, path) && |path| >= 2
    ensures path[0] != path[|path| - 1]
  {
    var rank :| Ranked(layers, rank);
    WalkClimbs(layers, rank, path);
  }

  // ----- What tensors denote -----

  /** The value of one output of a layer, from the values of its inputs. */
  type Semantics<!V> = (Kind, seq<V>, nat) -> V

  /** What the plugin promises: SUM commutes, and attention with bias `c` on `x` is attention
      without bias on `x + c`. */
  ghost predicate Lawful<V(!new)>(sem: Semantics<V>) {
    && (forall a, b :: sem(ElementwiseSum, [a, b], 0) == sem(ElementwiseSum, [b, a], 0))
    && (forall config, x, c, before: seq<V>, after: seq<V>, i ::
          sem(Attention(config, true, Some(1 + |before|)), [x] + before + [c] + after, i)
          == sem(Attention(config, true, None), [sem(ElementwiseSum, [x, c], 0)] + before + after, i))
  }

  ghost function Eval<V>(sem: Semantics<V>, env: nat -> V, layers: seq<Layer>, rank: seq<nat>, t: Tensor): V
    requires Ranked(layers, rank) && TensorExists(layers, t)
    decreases if t.Output? then rank[t.layer] + 1 else 0, 0
  {
    match t
    case NetworkInput(n) => env(n)
    case Output(l, i) => sem(layers[l].kind, InputValues(sem, env, layers, rank, l), i)
  }

  ghost function InputValues<V>(sem: Semantics<V>, env: nat -> V, layers: seq<Layer>, rank: seq<nat>, l: nat): seq<V>
    requires Ranked(layers, rank) && l < |layers|
    decreases rank[l], 1
  {
    seq(|layers[l].inputs|, i requires 0 <= i < |layers[l].inputs| =>
      Eval(sem, env, layers, rank, layers[l].inputs[i]))
  }
}
