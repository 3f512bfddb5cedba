/** The first pass of `optimize`, layer by layer: what is rewritten is decided by the original network alone. */
module FusionRun {
  import opened Wrappers
  import opened Network
  import opened FusionMeaning
  import opened FusionPass
  import opened FusionProofs

  /** The original network has a match at layer `k`. */
  predicate Due(o: Net, k: nat) {
    k < |o.layers| && k !in o.removed && Match(o, k).Matches?
  }

  /** Layer `k` has been rewritten once the first `j` layers were visited. */
  predicate Done(o: Net, k: nat, j: nat) {
    k < j && Due(o, k)
  }

  function DoneSet(o: Net, j: nat): set<nat> {
    set k | 0 <= k < j && Due(o, k)
  }

  // ----- What a match in the original network says -----

  lemma {:induction false} EltwiseInputsAll(layers: seq<Layer>, inputs: seq<Tensor>, foldable: bool)
    ensures forall t :: t in EltwiseInputs(layers, inputs, foldable) ==>
              t in inputs && ConstFoldable(layers, t, 0) == foldable
  {
    if inputs != [] {
      var front, last := inputs[..|inputs| - 1], inputs[|inputs| - 1];
      assert inputs == front + [last];
      EltwiseInputsAll(layers, front, foldable);
      EltwiseInputsLast(layers, front, last, foldable);
    }
  }

  /** The SUM layer that a packed call attends to. */
  function SumOf(o: Net, k: nat): nat
    requires k in o.memo && o.memo[k].qkv.Packed? && o.memo[k].qkv.tensor.Output?
  {
    o.memo[k].qkv.tensor.layer
  }

  predicate MatchedAt(o: Net, k: nat) {
    && k < |o.layers| && k in o.memo && o.memo[k].qkv.Packed? && o.memo[k].qkv.tensor.Output?
    && o.memo[k].bias.None?
    && o.layers[k].kind.Attention? && o.layers[k].kind.biasAt.None?
    && |o.layers[k].inputs| > 0 && o.layers[k].inputs[0] == o.memo[k].qkv.tensor
    && SumOf(o, k) < |o.layers| && o.layers[SumOf(o, k)].kind.ElementwiseSum?
  }

  lemma DueIsMatched(o: Net, k: nat)
    requires Constructed(o) && Due(o, k)
    ensures MatchedAt(o, k)
  {
  }

  /** The two summands: one reaches a network input or lies too deep, the other is constant. */
  lemma DueSummands(o: Net, k: nat)
    requires Constructed(o) && Due(o, k) && MatchedAt(o, k)
    ensures var m := Match(o, k); var parts := o.layers[SumOf(o, k)].inputs;
      && (parts == [m.mutable, m.constant] || parts == [m.constant, m.mutable])
      && !ConstFoldable(o.layers, m.mutable, 0) && ConstFoldable(o.layers, m.constant, 0)
  {
    var parts := o.layers[SumOf(o, k)].inputs;
    EltwiseInputsSplit(o.layers, parts);
    EltwiseInputsAll(o.layers, parts, true);
    EltwiseInputsAll(o.layers, parts, false);
  }

  lemma {:induction false} FoldableShallower(layers: seq<Layer>, t: Tensor, d: nat, e: nat)
    requires ConstFoldable(layers, t, e) && d <= e
    ensures ConstFoldable(layers, t, d)
    decreases MAX_DEPTH + 1 - e
  {
    var inputs := layers[t.layer].inputs;
    forall i | 0 <= i < |inputs| && ConstFoldable(layers, inputs[i], e + 1)
      ensures ConstFoldable(layers, inputs[i], d + 1)
    {
      FoldableShallower(layers, inputs[i], d + 1, e + 1);
    }
  }

  lemma InputFoldable(layers: seq<Layer>, t: Tensor, d: nat, u: Tensor)
    requires ConstFoldable(layers, t, d) && u in layers[t.layer].inputs
    ensures ConstFoldable(layers, u, d + 1)
  {
    var i :| 0 <= i < |layers[t.layer].inputs| && layers[t.layer].inputs[i] == u;
  }

  /** The outputs of a matched layer are not constant, however deep one looks for them. */
  lemma DueIsUnfoldable(o: Net, k: nat, i: nat, d: nat)
    requires Constructed(o) && Due(o, k)
    ensures !ConstFoldable(o.layers, Output(k, i), d)
  {
    DueIsMatched(o, k);
    DueSummands(o, k);
    AttendedUnfoldable(o.layers, k, i, d, o.layers[k].inputs[0], Match(o, k).mutable);
  }

  lemma AttendedUnfoldable(layers: seq<Layer>, k: nat, i: nat, d: nat, s: Tensor, x: Tensor)
    requires k < |layers| && s in layers[k].inputs && s.Output? && s.layer < |layers| && x in layers[s.layer].inputs
    requires !ConstFoldable(layers, x, 0)
    ensures !ConstFoldable(layers, Output(k, i), d)
  {
    if ConstFoldable(layers, Output(k, i), d) {
      InputFoldable(layers, Output(k, i), d, s);
      InputFoldable(layers, s, d + 1, x);
      FoldableShallower(layers, x, 0, d + 2);
    }
  }

  // ----- The network after some layers were visited -----

  predicate ReadByTwo(layers: seq<Layer>, t: Tensor) {
    exists p, q :: 0 <= p < q < |layers| && t in layers[p].inputs && t in layers[q].inputs
  }

  /** A record that carries a bias, and whose tensor cannot make the matcher raise. */
  predicate Spent(n: Net, l: nat)
    requires l in n.memo
  {
    && n.memo[l].bias.Some? && n.memo[l].qkv.Packed?
    && (n.memo[l].qkv.tensor.NetworkInput? ==> ReadByTwo(n.layers, n.memo[l].qkv.tensor))
    && TensorExists(n.layers, n.memo[l].qkv.tensor)
  }

  /** An appended layer is the stand-in of a rewritten one, or a cast of such a stand-in. */
  predicate AddedFits(o: Net, n: Net, roles: seq<Role>, done: set<nat>, l: nat)
    requires l < |n.layers| == |roles|
  {
    match roles[l]
    case StandsFor(a) =>
      a in done && n.layers[l].kind.Attention? && n.layers[l].kind.biasAt.Some? && l in n.memo
    case DanglingCast =>
      && n.layers[l].kind.Cast? && |n.layers[l].inputs| == 1
      && n.layers[l].inputs[0].Output? && n.layers[l].inputs[0].layer >= |o.layers|
  }

  predicate HasStandIn(o: Net, roles: seq<Role>, a: nat) {
    exists l :: |o.layers| <= l < |roles| && roles[l] == StandsFor(a)
  }

  /** Layers keep their kinds; every layer in `done`, and no other, has a stand-in among the appended ones. */
  predicate Shaped(o: Net, n: Net, roles: seq<Role>, done: set<nat>) {
    && |roles| == |n.layers| >= |o.layers| && n.removed == o.removed
    && (forall l :: 0 <= l < |o.layers| ==>
          n.layers[l].kind == o.layers[l].kind && |n.layers[l].outTypes| == |o.layers[l].outTypes|)
    && (forall l {:trigger AddedFits(o, n, roles, done, l)} :: |o.layers| <= l < |n.layers| ==> AddedFits(o, n, roles, done, l))
    && (forall a {:trigger HasStandIn(o, roles, a)} :: a in done ==> HasStandIn(o, roles, a))
  }

  /** Records outside `done` are untouched, all others are spent. */
  predicate Kept(o: Net, n: Net, done: set<nat>) {
    && (forall k :: 0 <= k < |o.layers| && k !in done ==>
          (k in n.memo <==> k in o.memo) && (k in n.memo ==> n.memo[k] == o.memo[k]))
    && (forall k :: k in done ==> k in n.memo)
    && (forall l {:trigger Spent(n, l)} :: l in n.memo && (l >= |o.layers| || l in done) ==> Spent(n, l))
  }

  ghost predicate Midway(o: Net, n: Net, roles: seq<Role>, j: nat) {
    Related(o, n, roles) && Shaped(o, n, roles, DoneSet(o, j)) && Kept(o, n, DoneSet(o, j))
  }

  lemma StartsMidway(o: Net)
    requires Constructed(o)
    ensures Midway(o, o, InitialRoles(o), 0)
  {
    ConstructedIsRelated(o);
  }

  // ----- Which slots read a tensor -----

  /** A tensor that no rewritten layer produces: it is its own only stand-in. */
  predicate Single(o: Net, t: Tensor, j: nat) {
    t.Output? ==> t.layer < |o.layers| && !Done(o, t.layer, j)
  }

  lemma OnlyItself(o: Net, n: Net, roles: seq<Role>, j: nat, t: Tensor, u: Tensor)
    requires Midway(o, n, roles, j) && Single(o, t, j) && Live(roles, u)
    ensures Origin(roles, u) == t <==> u == t
  {
    if u.Output? && u.layer >= |o.layers| {
      assert AddedFits(o, n, roles, DoneSet(o, j), u.layer);
    }
  }

  lemma {:induction false} CountOrigins(roles: seq<Role>, ts: seq<Tensor>, t: Tensor)
    requires AllLive(roles, ts) && forall i :: 0 <= i < |ts| ==> (Origin(roles, ts[i]) == t <==> ts[i] == t)
    ensures multiset(ts)[t] == multiset(Origins(roles, ts))[t]
  {
    if ts != [] {
      var last := |ts| - 1;
      CountOrigins(roles, ts[..last], t);
      assert ts == ts[..last] + [ts[last]];
      assert Origins(roles, ts) == Origins(roles, ts[..last]) + [Origin(roles, ts[last])];
    }
  }

  lemma ReadsAsOrigins(o: Net, n: Net, roles: seq<Role>, j: nat, l: nat, t: Tensor)
    requires Midway(o, n, roles, j) && Single(o, t, j) && l < |n.layers|
    ensures AllLive(roles, n.layers[l].inputs)
    ensures multiset(n.layers[l].inputs)[t] == multiset(Origins(roles, n.layers[l].inputs))[t]
  {
    assert LayerRelated(o.layers, n.layers, roles, l);
    var ts := n.layers[l].inputs;
    forall i | 0 <= i < |ts| ensures Origin(roles, ts[i]) == t <==> ts[i] == t {
      OnlyItself(o, n, roles, j, t, ts[i]);
    }
    CountOrigins(roles, ts, t);
  }

  lemma OriginalInputs(o: Net, n: Net, roles: seq<Role>, j: nat, l: nat)
    requires Midway(o, n, roles, j) && l < |o.layers|
    ensures AllLive(roles, n.layers[l].inputs) && Origins(roles, n.layers[l].inputs) == o.layers[l].inputs
  {
    assert LayerRelated(o.layers, n.layers, roles, l);
  }

  /** A rewritten layer's stand-in reads, up to origin, the two summands and what the layer itself read. */
  lemma StandInInputs(o: Net, n: Net, roles: seq<Role>, j: nat, l: nat)
    requires Constructed(o) && Midway(o, n, roles, j) && |o.layers| <= l < |n.layers| && roles[l].StandsFor?
    ensures var a := roles[l].original;
      && Done(o, a, j) && MatchedAt(o, a)
      && AllLive(roles, n.layers[l].inputs)
      && multiset(Origins(roles, n.layers[l].inputs))
         == multiset(o.layers[SumOf(o, a)].inputs) + multiset(o.layers[a].inputs[1..])
  {
    assert AddedFits(o, n, roles, DoneSet(o, j), l);
    assert LayerRelated(o.layers, n.layers, roles, l);
    var a := roles[l].original;
    DueIsMatched(o, a);
    var kind, inputs := n.layers[l].kind, Origins(roles, n.layers[l].inputs);
    assert BiasFused(o.layers, a, kind, inputs);
    SplitParts(o.layers, a, kind, inputs);
  }

  lemma SplitParts(o: seq<Layer>, a: nat, kind: Kind, inputs: seq<Tensor>)
    requires a < |o| && BiasFused(o, a, kind, inputs)
    ensures multiset(inputs) == multiset(o[o[a].inputs[0].layer].inputs) + multiset(o[a].inputs[1..])
  {
    var p := kind.biasAt.value;
    var x, c, before, after := inputs[0], inputs[p], inputs[1..p], inputs[p + 1..];
    assert inputs == [x] + before + [c] + after;
    assert o[a].inputs[1..] == before + after;
  }

  // ----- Constants -----

  lemma {:induction false} SameFoldable(o: Net, n: Net, roles: seq<Role>, j: nat, t: Tensor, d: nat)
    requires Constructed(o) && Midway(o, n, roles, j) && Live(roles, t) && TensorExists(n.layers, t)
    ensures ConstFoldable(n.layers, t, d) <==> ConstFoldable(o.layers, Origin(roles, t), d)
    decreases MAX_DEPTH + 1 - d, 1
  {
    LiveOriginExists(o, n, roles, t);
    if t.Output? && d <= MAX_DEPTH {
      if t.layer < |o.layers| {
        OriginalFoldable(o, n, roles, j, t, d);
      } else {
        StandInFoldable(o, n, roles, j, t, d);
      }
    }
  }

  lemma {:induction false} OriginalFoldable(o: Net, n: Net, roles: seq<Role>, j: nat, t: Tensor, d: nat)
    requires Constructed(o) && Midway(o, n, roles, j) && t.Output? && t.layer < |o.layers|
    requires TensorExists(n.layers, t) && d <= MAX_DEPTH
    ensures ConstFoldable(n.layers, t, d) <==> ConstFoldable(o.layers, t, d)
    decreases MAX_DEPTH + 1 - d, 0
  {
    OriginalInputs(o, n, roles, j, t.layer);
    var inputs := n.layers[t.layer].inputs;
    var rank :| Ranked(o.layers, rank);
    forall i | 0 <= i < |inputs|
      ensures ConstFoldable(n.layers, inputs[i], d + 1) <==> ConstFoldable(o.layers, o.layers[t.layer].inputs[i], d + 1)
    {
      assert o.layers[t.layer].inputs[i] == Origin(roles, inputs[i]);
      LiveOriginExists(o, n, roles, inputs[i]);
      SameFoldable(o, n, roles, j, inputs[i], d + 1);
    }
  }

  lemma {:induction false} StandInFoldable(o: Net, n: Net, roles: seq<Role>, j: nat, t: Tensor, d: nat)
    requires Constructed(o) && Midway(o, n, roles, j) && Live(roles, t) && t.Output? && t.layer >= |o.layers|
    requires TensorExists(n.layers, t) && d <= MAX_DEPTH
    ensures !ConstFoldable(n.layers, t, d) && !ConstFoldable(o.layers, Origin(roles, t), d)
    decreases MAX_DEPTH + 1 - d, 0
  {
    var a, inputs := roles[t.layer].original, n.layers[t.layer].inputs;
    StandInInputs(o, n, roles, j, t.layer);
    DueSummands(o, a);
    DueIsUnfoldable(o, a, t.index, d);
    var x := Match(o, a).mutable;
    assert x in multiset(o.layers[SumOf(o, a)].inputs);
    assert x in multiset(Origins(roles, inputs));
    var i :| 0 <= i < |inputs| && Origins(roles, inputs)[i] == x;
    assert AddedFits(o, n, roles, DoneSet(o, j), t.layer);
    if ConstFoldable(n.layers, t, d) {
      assert ConstFoldable(n.layers, inputs[i], d + 1);
      SameFoldable(o, n, roles, j, inputs[i], d + 1);
      FoldableShallower(o.layers, x, 0, d + 1);
    }
  }

  // ----- Counting users -----

  lemma {:induction false} UsersPrefix(layers: seq<Layer>, t: Tensor, m: nat)
    requires m <= |layers|
    ensures |UsersOf(layers[..m], t)| <= |UsersOf(layers, t)|
    ensures (forall l :: m <= l < |layers| ==> t !in layers[l].inputs) ==>
              |UsersOf(layers[..m], t)| == |UsersOf(layers, t)|
    decreases |layers|
  {
    if m == |layers| {
      assert layers[..m] == layers;
    } else {
      var last := |layers| - 1;
      assert layers[..last][..m] == layers[..m];
      UsersPrefix(layers[..last], t, m);
      assert t !in layers[last].inputs <==> multiset(layers[last].inputs)[t] == 0;
    }
  }

  lemma {:induction false} UsersSame(a: seq<Layer>, b: seq<Layer>, t: Tensor)
    requires |a| == |b| && forall l :: 0 <= l < |a| ==> multiset(a[l].inputs)[t] == multiset(b[l].inputs)[t]
    ensures |UsersOf(a, t)| == |UsersOf(b, t)|
  {
    if a != [] {
      var last := |a| - 1;
      UsersSame(a[..last], b[..last], t);
    }
  }

  lemma {:induction false} UsersUpTo(layers: seq<Layer>, t: Tensor, q: nat)
    requires q < |layers|
    ensures |UsersOf(layers[..q + 1], t)| == |UsersOf(layers[..q], t)| + multiset(layers[q].inputs)[t]
  {
    assert layers[..q + 1][..q] == layers[..q];
  }

  lemma {:induction false} UsersAtLeast(layers: seq<Layer>, t: Tensor, p: nat, q: nat)
    requires p < q < |layers|
    ensures |UsersOf(layers, t)| >= multiset(layers[p].inputs)[t] + multiset(layers[q].inputs)[t]
  {
    UsersUpTo(layers, t, p);
    assert layers[..q][..p + 1] == layers[..p + 1];
    UsersPrefix(layers[..q], t, p + 1);
    UsersUpTo(layers, t, q);
    UsersPrefix(layers, t, q + 1);
  }

  lemma TwoReaders(layers: seq<Layer>, t: Tensor, p: nat, q: nat)
    requires p < |layers| && q < |layers| && p != q && t in layers[p].inputs && t in layers[q].inputs
    ensures |UsersOf(layers, t)| >= 2
  {
    assert t in multiset(layers[p].inputs) && t in multiset(layers[q].inputs);
    if p < q {
      UsersAtLeast(layers, t, p, q);
    } else {
      UsersAtLeast(layers, t, q, p);
    }
  }

  /** An appended layer that reads a tensor shares it with an original layer other than an attention call that is
      still to be visited. */
  lemma AddedReader(o: Net, n: Net, roles: seq<Role>, j: nat, l: nat, t: Tensor) returns (r: nat)
    requires Constructed(o) && Midway(o, n, roles, j) && Single(o, t, j)
    requires |o.layers| <= l < |n.layers| && t in n.layers[l].inputs
    ensures r < |o.layers| && t in o.layers[r].inputs && (Done(o, r, j) || o.layers[r].kind.ElementwiseSum?)
  {
    assert AddedFits(o, n, roles, DoneSet(o, j), l);
    ReadsAsOrigins(o, n, roles, j, l, t);
    assert t in multiset(n.layers[l].inputs);
    StandInInputs(o, n, roles, j, l);
    var a := roles[l].original;
    if t in multiset(o.layers[SumOf(o, a)].inputs) {
      r := SumOf(o, a);
    } else {
      assert t in multiset(o.layers[a].inputs[1..]);
      assert t in o.layers[a].inputs[1..];
      r := a;
    }
  }

  /** Fusing other layers neither gives nor takes away the only user of a tensor that an attention call reads. */
  lemma SameSingleUser(o: Net, n: Net, roles: seq<Role>, j: nat, k: nat, t: Tensor)
    requires Constructed(o) && Midway(o, n, roles, j) && Single(o, t, j)
    requires k < |o.layers| && o.layers[k].kind.Attention? && !Done(o, k, j) && t in o.layers[k].inputs
    ensures |UsersOf(n.layers, t)| == 1 <==> |UsersOf(o.layers, t)| == 1
  {
    var m := |o.layers|;
    forall l | 0 <= l < m ensures multiset(n.layers[..m][l].inputs)[t] == multiset(o.layers[l].inputs)[t] {
      ReadsAsOrigins(o, n, roles, j, l, t);
      OriginalInputs(o, n, roles, j, l);
    }
    UsersSame(n.layers[..m], o.layers, t);
    UsersPrefix(n.layers, t, m);
    if l :| m <= l < |n.layers| && t in n.layers[l].inputs {
      var r := AddedReader(o, n, roles, j, l, t);
      TwoReaders(o.layers, t, r, k);
    }
  }

  // ----- The verdict on a layer does not depend on what was rewritten before -----

  lemma OriginsAppend(roles: seq<Role>, ts: seq<Tensor>, last: Tensor, keep: bool)
    requires AllLive(roles, ts) && Live(roles, last)
    ensures var us := ts + if keep then [last] else [];
      AllLive(roles, us) && Origins(roles, us) == Origins(roles, ts) + if keep then [Origin(roles, last)] else []
  {
    if !keep { assert ts + [] == ts; }
  }

  lemma {:induction false} SameEltwise(o: Net, n: Net, roles: seq<Role>, j: nat, ts: seq<Tensor>, foldable: bool)
    requires Constructed(o) && Midway(o, n, roles, j) && AllLive(roles, ts)
    requires forall i :: 0 <= i < |ts| ==> TensorExists(n.layers, ts[i])
    ensures var es := EltwiseInputs(n.layers, ts, foldable);
      AllLive(roles, es) && Origins(roles, es) == EltwiseInputs(o.layers, Origins(roles, ts), foldable)
  {
    if ts != [] {
      var front, last := ts[..|ts| - 1], ts[|ts| - 1];
      SameEltwise(o, n, roles, j, front, foldable);
      SameFoldable(o, n, roles, j, last, 0);
      assert ts == front + [last];
      EltwiseInputsLast(n.layers, front, last, foldable);
      OriginsAppend(roles, front, last, true);
      EltwiseInputsLast(o.layers, Origins(roles, front), Origin(roles, last), foldable);
      OriginsAppend(roles, EltwiseInputs(n.layers, front, foldable), last, ConstFoldable(n.layers, last, 0) == foldable);
    }
  }

  predicate SameVerdict(a: Verdict, b: Verdict) {
    (a.NoMatch? <==> b.NoMatch?) && (a.Raises? <==> b.Raises?)
  }

  /** What `Match` decides once the record is known. */
  function Judge(layers: seq<Layer>, r: CallRecord): Verdict {
    if !r.qkv.Packed? || |UsersOf(layers, r.qkv.tensor)| != 1 then NoMatch
    else if Parent(layers, r.qkv.tensor).None? then Raises
    else JudgeParent(layers, layers[Parent(layers, r.qkv.tensor).value], r)
  }

  function JudgeParent(layers: seq<Layer>, parent: Layer, r: CallRecord): Verdict {
    if !parent.kind.ElementwiseSum? then NoMatch
    else
      var consts, mutables := EltwiseInputs(layers, parent.inputs, true), EltwiseInputs(layers, parent.inputs, false);
      if |consts| != 1 || |mutables| != 1 || r.bias.Some? then NoMatch else Matches(mutables[0], consts[0])
  }

  lemma MatchIsJudge(n: Net, k: nat)
    requires k < |n.layers|
    ensures Match(n, k) == if !IsAttentionPlugin(n.layers[k]) then NoMatch
                           else if k !in n.memo then Raises else Judge(n.layers, n.memo[k])
  {
  }

  lemma SameParentVerdict(o: Net, n: Net, roles: seq<Role>, j: nat, p: nat, r: CallRecord)
    requires Constructed(o) && Midway(o, n, roles, j) && p < |o.layers|
    ensures SameVerdict(JudgeParent(n.layers, n.layers[p], r), JudgeParent(o.layers, o.layers[p], r))
  {
    OriginalInputs(o, n, roles, j, p);
    var inputs := n.layers[p].inputs;
    var rank :| Ranked(o.layers, rank);
    forall i | 0 <= i < |inputs| ensures TensorExists(n.layers, inputs[i]) {
      assert o.layers[p].inputs[i] == Origin(roles, inputs[i]);
      LiveOriginExists(o, n, roles, inputs[i]);
    }
    SameEltwise(o, n, roles, j, inputs, true);
    SameEltwise(o, n, roles, j, inputs, false);
  }

  lemma SameUsersVerdict(o: Net, n: Net, roles: seq<Role>, j: nat, k: nat, t: Tensor)
    requires Constructed(o) && Midway(o, n, roles, j) && k < |o.layers| && !Done(o, k, j)
    requires o.layers[k].kind.Attention? && t in o.layers[k].inputs
    ensures (|UsersOf(n.layers, t)| == 1 <==> |UsersOf(o.layers, t)| == 1) ||
            (t.Output? && t.layer < |o.layers| && !o.layers[t.layer].kind.ElementwiseSum?)
  {
    if Single(o, t, j) {
      SameSingleUser(o, n, roles, j, k, t);
    } else {
      var rank :| Ranked(o.layers, rank);
      DueIsMatched(o, t.layer);
    }
  }

  lemma JudgementFollows(a: seq<Layer>, b: seq<Layer>, r: CallRecord)
    requires r.qkv.Packed? && (TensorExists(a, r.qkv.tensor) <==> TensorExists(b, r.qkv.tensor))
    requires |a| <= |b| && TensorExists(a, r.qkv.tensor)
    requires r.qkv.tensor.Output? ==>
      SameVerdict(JudgeParent(b, b[r.qkv.tensor.layer], r), JudgeParent(a, a[r.qkv.tensor.layer], r))
    requires (|UsersOf(b, r.qkv.tensor)| == 1 <==> |UsersOf(a, r.qkv.tensor)| == 1) ||
             (r.qkv.tensor.Output? && JudgeParent(a, a[r.qkv.tensor.layer], r).NoMatch?)
    ensures SameVerdict(Judge(b, r), Judge(a, r))
  {
  }

  lemma SameJudgement(o: Net, n: Net, roles: seq<Role>, j: nat, k: nat)
    requires Constructed(o) && Midway(o, n, roles, j) && k < |o.layers| && k in o.memo && !Done(o, k, j)
    ensures SameVerdict(Judge(n.layers, o.memo[k]), Judge(o.layers, o.memo[k]))
  {
    var r := o.memo[k];
    if r.qkv.Packed? {
      var t := r.qkv.tensor;
      assert t == PluginInputs(r)[0] == o.layers[k].inputs[0];
      var rank :| Ranked(o.layers, rank);
      assert TensorExists(o.layers, t);
      SameUsersVerdict(o, n, roles, j, k, t);
      if t.Output? {
        SameParentVerdict(o, n, roles, j, t.layer, r);
      }
      JudgementFollows(o.layers, n.layers, r);
    }
  }

  /** A layer that is still to be visited matches, or raises, exactly if it did in the original network. */
  lemma MatchAgrees(o: Net, n: Net, roles: seq<Role>, j: nat, k: nat)
    requires Constructed(o) && Midway(o, n, roles, j) && k < |o.layers| && !Done(o, k, j)
    ensures SameVerdict(Match(n, k), Match(o, k))
  {
    MatchIsJudge(o, k);
    MatchIsJudge(n, k);
    if k in o.memo {
      SameJudgement(o, n, roles, j, k);
    }
  }
}
