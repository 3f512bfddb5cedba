/** What the matcher looks for, said of the network rather than of the matcher's own lists. */
module FusionMatch {
  import opened Wrappers
  import opened Network
  import opened FusionPass
  import opened FusionProofs

  // ----- Users -----

  /** Input slot `i` of layer `l` reads `t`. */
  predicate ReadsAt(layers: seq<Layer>, t: Tensor, l: nat, i: nat) {
    l < |layers| && i < |layers[l].inputs| && layers[l].inputs[i] == t
  }

  /** This slot, and no other in the network, reads `t`. */
  ghost predicate OnlyReader(layers: seq<Layer>, t: Tensor, l: nat, i: nat) {
    ReadsAt(layers, t, l, i) && forall l': nat, i': nat :: ReadsAt(layers, t, l', i') ==> l' == l && i' == i
  }

  ghost predicate HasOnlyReader(layers: seq<Layer>, t: Tensor) {
    exists l, i :: OnlyReader(layers, t, l, i)
  }

  predicate Ascending(s: seq<nat>) {
    forall a, b :: 0 <= a < b < |s| ==> s[a] <= s[b]
  }

  /** The users come in layer order. */
  lemma {:induction false} UsersAscend(layers: seq<Layer>, t: Tensor)
    ensures Ascending(UsersOf(layers, t))
  {
    if layers != [] {
      var last := |layers| - 1;
      UsersAscend(layers[..last], t);
      UsersExist(layers[..last], t);
      var front, here := UsersOf(layers[..last], t), seq(multiset(layers[last].inputs)[t], _ => last);
      assert UsersOf(layers, t) == front + here;
      forall a | 0 <= a < |front| ensures front[a] < last {
        assert front[a] < |layers[..last]|;
      }
    }
  }

  lemma {:induction false} NoSlot(ts: seq<Tensor>, t: Tensor)
    ensures multiset(ts)[t] == 0 <==> forall i :: 0 <= i < |ts| ==> ts[i] != t
  {
    if ts != [] {
      NoSlot(ts[1..], t);
      assert ts == [ts[0]] + ts[1..];
    }
  }

  /** Counted once means found at one position only. */
  lemma {:induction false} OneSlot(ts: seq<Tensor>, t: Tensor, i: nat)
    requires i < |ts| && ts[i] == t
    ensures multiset(ts)[t] == 1 <==> forall j :: 0 <= j < |ts| && ts[j] == t ==> j == i
  {
    var front, back := ts[..i], ts[i + 1..];
    assert ts == front + [t] + back;
    NoSlot(front, t);
    NoSlot(back, t);
    assert multiset(ts)[t] == multiset(front)[t] + 1 + multiset(back)[t];
    if forall j :: 0 <= j < |ts| && ts[j] == t ==> j == i {
      forall j | 0 <= j < |front| ensures front[j] != t { assert ts[j] == front[j]; }
      forall j | 0 <= j < |back| ensures back[j] != t {
        var k := i + 1 + j;
        assert ts[k] == back[j];
      }
    } else {
      var j :| 0 <= j < |ts| && ts[j] == t && j != i;
      if j < i {
        assert front[j] == t;
      } else {
        var k := j - i - 1;
        assert back[k] == t;
      }
    }
  }

  lemma SingleUser(layers: seq<Layer>, t: Tensor)
    requires |UsersOf(layers, t)| == 1
    ensures var l := UsersOf(layers, t)[0]; l < |layers| && multiset(layers[l].inputs)[t] == 1
    ensures forall l' :: 0 <= l' < |layers| && l' != UsersOf(layers, t)[0] ==> multiset(layers[l'].inputs)[t] == 0
  {
    var users := UsersOf(layers, t);
    var l := users[0];
    UsersExist(layers, t);
    assert users == [l];
    UsersCount(layers, t, l);
    forall l' | 0 <= l' < |layers| && l' != l ensures multiset(layers[l'].inputs)[t] == 0 {
      UsersCount(layers, t, l');
    }
  }

  lemma CountsOfOne(users: seq<nat>, l: nat)
    requires multiset(users)[l] == 1 && forall k :: k != l ==> multiset(users)[k] == 0
    ensures |users| == 1
  {
    assert multiset(users) == multiset{l};
    assert |multiset(users)| == |users|;
  }

  /** The user list has one entry exactly if one slot reads the tensor. */
  lemma SingleUserMeans(layers: seq<Layer>, t: Tensor)
    ensures |UsersOf(layers, t)| == 1 <==> HasOnlyReader(layers, t)
  {
    if |UsersOf(layers, t)| == 1 {
      SingleUser(layers, t);
      var l := UsersOf(layers, t)[0];
      NoSlot(layers[l].inputs, t);
      var i :| 0 <= i < |layers[l].inputs| && layers[l].inputs[i] == t;
      OneSlot(layers[l].inputs, t, i);
      forall l': nat, i': nat | ReadsAt(layers, t, l', i') ensures l' == l && i' == i {
        NoSlot(layers[l'].inputs, t);
      }
      assert OnlyReader(layers, t, l, i);
    }
    if HasOnlyReader(layers, t) {
      var l, i :| OnlyReader(layers, t, l, i);
      OnlyReaderCounts(layers, t, l, i);
      forall k | k != l ensures multiset(UsersOf(layers, t))[k] == 0 {
        UsersCount(layers, t, k);
      }
      UsersCount(layers, t, l);
      CountsOfOne(UsersOf(layers, t), l);
    }
  }

  lemma OnlyReaderCounts(layers: seq<Layer>, t: Tensor, l: nat, i: nat)
    requires OnlyReader(layers, t, l, i)
    ensures multiset(layers[l].inputs)[t] == 1
    ensures forall k :: 0 <= k < |layers| && k != l ==> multiset(layers[k].inputs)[t] == 0
  {
    forall j | 0 <= j < |layers[l].inputs| && layers[l].inputs[j] == t ensures j == i {
      assert ReadsAt(layers, t, l, j);
    }
    OneSlot(layers[l].inputs, t, i);
    forall k | 0 <= k < |layers| && k != l ensures multiset(layers[k].inputs)[t] == 0 {
      forall j | 0 <= j < |layers[k].inputs| ensures layers[k].inputs[j] != t {
        assert ReadsAt(layers, t, k, j) ==> k == l;
      }
      NoSlot(layers[k].inputs, t);
    }
  }

  // ----- The pattern -----

  /** `x` cannot be folded to a constant and `c` can, and the layer sums just these two. */
  predicate SumsConstant(layers: seq<Layer>, s: nat, x: Tensor, c: Tensor)
    requires s < |layers|
  {
    && layers[s].kind.ElementwiseSum?
    && (layers[s].inputs == [x, c] || layers[s].inputs == [c, x])
    && !ConstFoldable(layers, x, 0) && ConstFoldable(layers, c, 0)
  }

  /** Layer `k` is an attention plugin whose recorded call has a packed qkv that only one slot reads. */
  ghost predicate ReadsPacked(n: Net, k: nat)
    requires k < |n.layers|
  {
    && n.layers[k].kind.Attention? && |n.layers[k].outTypes| == 2
    && k in n.memo && n.memo[k].qkv.Packed? && HasOnlyReader(n.layers, n.memo[k].qkv.tensor)
  }

  lemma {:induction false} PairOfInputs(layers: seq<Layer>, a: Tensor, b: Tensor, foldable: bool)
    ensures EltwiseInputs(layers, [a, b], foldable) ==
      (if ConstFoldable(layers, a, 0) == foldable then [a] else []) + if ConstFoldable(layers, b, 0) == foldable then [b] else []
  {
    EltwiseInputsLast(layers, [], a, foldable);
    EltwiseInputsLast(layers, [a], b, foldable);
    assert [] + [a] == [a] && [a] + [b] == [a, b];
  }

  /** A layer matches exactly if it is such a plugin without a bias, and its qkv is the sum of one tensor that is not
      constant and one that is; these two are what the match hands on. */
  lemma MatchMeans(n: Net, k: nat, x: Tensor, c: Tensor)
    requires k < |n.layers|
    ensures Match(n, k) == Matches(x, c) <==>
      && ReadsPacked(n, k) && n.memo[k].bias.None?
      && var qkv := n.memo[k].qkv.tensor;
         qkv.Output? && TensorExists(n.layers, qkv) && SumsConstant(n.layers, qkv.layer, x, c)
  {
    if k in n.memo && n.memo[k].qkv.Packed? {
      var qkv := n.memo[k].qkv.tensor;
      SingleUserMeans(n.layers, qkv);
      if qkv.Output? && TensorExists(n.layers, qkv) {
        SumMeans(n.layers, qkv.layer, x, c);
      }
    }
  }

  lemma SumMeans(layers: seq<Layer>, s: nat, x: Tensor, c: Tensor)
    requires s < |layers|
    ensures SumsConstant(layers, s, x, c) <==>
      && layers[s].kind.ElementwiseSum?
      && EltwiseInputs(layers, layers[s].inputs, true) == [c] && EltwiseInputs(layers, layers[s].inputs, false) == [x]
  {
    var inputs := layers[s].inputs;
    if SumsConstant(layers, s, x, c) {
      PairOfInputs(layers, inputs[0], inputs[1], true);
      PairOfInputs(layers, inputs[0], inputs[1], false);
      assert inputs == [inputs[0], inputs[1]];
    }
    if EltwiseInputs(layers, inputs, true) == [c] && EltwiseInputs(layers, inputs, false) == [x] {
      EltwiseInputsSplit(layers, inputs);
      EltwiseFoldable(layers, inputs, true);
      EltwiseFoldable(layers, inputs, false);
      assert EltwiseInputs(layers, inputs, true)[0] == c && EltwiseInputs(layers, inputs, false)[0] == x;
    }
  }

  lemma {:induction false} EltwiseFoldable(layers: seq<Layer>, inputs: seq<Tensor>, foldable: bool)
    ensures forall i :: 0 <= i < |EltwiseInputs(layers, inputs, foldable)| ==>
              ConstFoldable(layers, EltwiseInputs(layers, inputs, foldable)[i], 0) == foldable
  {
    if inputs != [] {
      EltwiseFoldable(layers, inputs[..|inputs| - 1], foldable);
    }
  }

  /** The matcher raises exactly on a plugin that was not recorded, and on one whose qkv no layer produces. */
  lemma MatchRaises(n: Net, k: nat)
    requires k < |n.layers|
    ensures Match(n, k).Raises? <==>
      && n.layers[k].kind.Attention? && |n.layers[k].outTypes| == 2
      && (k !in n.memo ||
          (ReadsPacked(n, k) && var qkv := n.memo[k].qkv.tensor; !(qkv.Output? && TensorExists(n.layers, qkv))))
  {
    if k in n.memo && n.memo[k].qkv.Packed? {
      SingleUserMeans(n.layers, n.memo[k].qkv.tensor);
    }
  }
}
